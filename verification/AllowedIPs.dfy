/** The AllowedIPs string of a configured peer, from the parts the controller joins with commas to the
    allowed_ip lines the device configuration is split into. */
module AllowedIPs {
  import opened Prelude
  import opened RuleCompiler

  /** strings.Join(parts, ",") */
  function JoinComma(parts: seq<string>): string {
    if parts == [] then ""
    else if |parts| == 1 then parts[0]
    else parts[0] + "," + JoinComma(parts[1..])
  }

  /** strings.Split(s, ",") */
  function SplitComma(s: string): (r: seq<string>)
    ensures r != []
  {
    if s == "" then [""]
    else if s[0] == ',' then [""] + SplitComma(s[1..])
    else
      var rest := SplitComma(s[1..]);
      [[s[0]] + rest[0]] + rest[1..]
  }

  lemma {:induction false} SplitPlain(s: string)
    requires ',' !in s
    ensures SplitComma(s) == [s]
  {
    if s != "" {
      SplitPlain(s[1..]);
      assert s == [s[0]] + s[1..];
    }
  }

  lemma {:induction false} SplitAtComma(a: string, b: string)
    ensures SplitComma(a + "," + b) == SplitComma(a) + SplitComma(b)
  {
    var all := a + "," + b;
    if a == "" {
      assert all == "," + b && all[1..] == b;
    } else {
      assert all[0] == a[0] && all[1..] == a[1..] + "," + b;
      SplitAtComma(a[1..], b);
      SplitNext(a[0], SplitComma(a[1..]), SplitComma(b));
    }
  }

  lemma SplitNext(ch: char, rest: seq<string>, tail: seq<string>)
    requires rest != []
    ensures [""] + (rest + tail) == [""] + rest + tail
    ensures [[ch] + (rest + tail)[0]] + (rest + tail)[1..] == [[ch] + rest[0]] + rest[1..] + tail
  {
    assert (rest + tail)[1..] == rest[1..] + tail;
  }

  /** Splitting the joined string gives back every part that has no comma of its own, whatever the other
      parts look like. */
  lemma {:induction false} SplitJoined(parts: seq<string>, x: string)
    requires x in parts && ',' !in x
    ensures x in SplitComma(JoinComma(parts))
  {
    SplitPlain(x);
    if |parts| > 1 {
      SplitAtComma(parts[0], JoinComma(parts[1..]));
      if x != parts[0] {
        SplitJoined(parts[1..], x);
      }
    }
  }

  /** Parts without commas come back as they are, all of them and in order. */
  lemma {:induction false} SplitIsInverse(parts: seq<string>)
    requires parts != [] && forall x | x in parts :: ',' !in x
    ensures SplitComma(JoinComma(parts)) == parts
  {
    SplitPlain(parts[0]);
    if |parts| > 1 {
      SplitAtComma(parts[0], JoinComma(parts[1..]));
      SplitIsInverse(parts[1..]);
      assert parts == [parts[0]] + parts[1..];
    }
  }

  /** Joining what was split gives any string back. */
  lemma {:induction false} JoinIsInverse(s: string)
    ensures JoinComma(SplitComma(s)) == s && forall x | x in SplitComma(s) :: ',' !in x
  {
    if s != "" {
      JoinIsInverse(s[1..]);
      var rest := SplitComma(s[1..]);
      assert s == [s[0]] + s[1..];
      if s[0] == ',' {
        assert SplitComma(s)[1..] == rest;
      } else {
        var all := [[s[0]] + rest[0]] + rest[1..];
        assert all[1..] == rest[1..];
        assert forall x | x in rest[1..] :: x in rest;
      }
    }
  }

  function TrimLeft(s: string): string {
    if s != "" && IsSpace(s[0]) then TrimLeft(s[1..]) else s
  }

  function TrimRight(s: string): string {
    if s != "" && IsSpace(s[|s| - 1]) then TrimRight(s[..|s| - 1]) else s
  }

  function TrimSpace(s: string): string { TrimRight(TrimLeft(s)) }

  const LINE_KEY := "allowed_ip="

  function Lines(pieces: seq<string>): seq<string> {
    if pieces == [] then []
    else
      var c := TrimSpace(pieces[|pieces| - 1]);
      Lines(pieces[..|pieces| - 1]) + if c != "" then [LINE_KEY + c] else []
  }

  /** The allowed_ip lines written for one peer. */
  method AllowedIpLines(allowedIPs: string) returns (lines: seq<string>)
    ensures lines == Lines(SplitComma(allowedIPs))
  {
    var pieces := SplitComma(allowedIPs);
    lines := [];
    for i := 0 to |pieces|
      invariant lines == Lines(pieces[..i])
    {
      var c := TrimSpace(pieces[i]);
      if c != "" {
        lines := lines + [LINE_KEY + c];
      }
      assert pieces[..i + 1][..i] == pieces[..i];
    }
    assert pieces[..|pieces|] == pieces;
  }

  // ---------------------------------------------------------------- what the lines are

  lemma {:induction false} LeftTrimmed(s: string) returns (a: string)
    ensures s == a + TrimLeft(s) && IsBlank(a) && (TrimLeft(s) == "" || !IsSpace(TrimLeft(s)[0]))
  {
    hide IsSpace;
    if s != "" && IsSpace(s[0]) {
      var b := LeftTrimmed(s[1..]);
      a := [s[0]] + b;
      assert s == [s[0]] + s[1..];
    } else {
      a := "";
    }
  }

  lemma {:induction false} RightTrimmed(s: string) returns (b: string)
    ensures s == TrimRight(s) + b && IsBlank(b) && (TrimRight(s) == "" || !IsSpace(TrimRight(s)[|TrimRight(s)| - 1]))
  {
    hide IsSpace;
    if s != "" && IsSpace(s[|s| - 1]) {
      var c := RightTrimmed(s[..|s| - 1]);
      b := c + [s[|s| - 1]];
      assert s == s[..|s| - 1] + [s[|s| - 1]];
    } else {
      b := "";
    }
  }

  /** strings.TrimSpace: white space off both ends, and nothing else. */
  lemma Trimmed(s: string) returns (a: string, b: string)
    ensures s == a + TrimSpace(s) + b && IsBlank(a) && IsBlank(b)
    ensures TrimSpace(s) != "" ==> !IsSpace(TrimSpace(s)[0]) && !IsSpace(TrimSpace(s)[|TrimSpace(s)| - 1])
    ensures TrimSpace(s) == "" <==> IsBlank(s)
  {
    hide IsSpace;
    var l := TrimLeft(s);
    a := LeftTrimmed(s);
    b := RightTrimmed(l);
    var r := TrimSpace(s);
    assert s == a + (r + b);
    if r != "" {
      assert l[0] == r[0] && r[0] in s;
    }
  }

  /** Every line is the key and a piece that is not blank, trimmed; and every such piece has its line. */
  lemma {:induction false} LineIffPiece(pieces: seq<string>, line: string)
    ensures line in Lines(pieces) <==>
      exists x :: x in pieces && !IsBlank(x) && line == "allowed_ip=" + TrimSpace(x)
  {
    if pieces != [] {
      var init, last := pieces[..|pieces| - 1], pieces[|pieces| - 1];
      LineIffPiece(init, line);
      var _, _ := Trimmed(last);
      hide TrimSpace, IsBlank;
      assert pieces == init + [last];
    }
  }

  /** The lines are in the order of the pieces, at most one for each. */
  lemma {:induction false} LinesConcat(xs: seq<string>, ys: seq<string>)
    ensures Lines(xs + ys) == Lines(xs) + Lines(ys)
    ensures |Lines(ys)| <= |ys|
  {
    if ys == [] {
      assert xs + ys == xs;
    } else {
      LinesConcat(xs, ys[..|ys| - 1]);
      assert (xs + ys)[..|xs + ys| - 1] == xs + ys[..|ys| - 1];
    }
  }

  /** A CIDR as networks publish it: not empty, without commas and white space. */
  predicate PlainCidr(s: string) {
    s != "" && ',' !in s && forall ch | ch in s :: !IsSpace(ch)
  }

  lemma PlainTrimmed(x: string)
    requires PlainCidr(x)
    ensures TrimSpace(x) == x && !IsBlank(x)
  {
    hide IsSpace;
    assert x[0] in x && x[|x| - 1] in x;
  }

  lemma {:induction false} PieceGetsLine(pieces: seq<string>, x: string)
    requires PlainCidr(x) && x in pieces
    ensures LINE_KEY + x in Lines(pieces)
  {
    var init, last := pieces[..|pieces| - 1], pieces[|pieces| - 1];
    assert pieces == init + [last];
    if x == last {
      assert TrimSpace(x) == x by { hide IsSpace; }
    } else {
      PieceGetsLine(init, x);
    }
  }

  /** A CIDR among the joined parts ends up as an allowed_ip line of its own. */
  lemma PartGetsLine(parts: seq<string>, x: string)
    requires PlainCidr(x) && x in parts
    ensures LINE_KEY + x in Lines(SplitComma(JoinComma(parts)))
  {
    SplitJoined(parts, x);
    PieceGetsLine(SplitComma(JoinComma(parts)), x);
  }
}
