/** Label and annotation keys derived from object names. The digest (eight hexadecimal characters
    of a SHA-256 sum) is a parameter: nothing here depends on which function it is. */
module KeyNames {
  import opened Prelude

  type Digest = d: string -> string | forall n: string :: |d(n)| == 8
    witness (n: string) => "00000000"

  const MAX_KEY := 63
  const DOMAIN := "alattice.io/"
  const NETWORK_SEGMENT := "network-"
  const ROUTE_SEGMENT := "peering-route-"
  const NETWORK_LABEL_PREFIX := "alattice.io/network-"
  const ROUTE_ANNOTATION_PREFIX := "alattice.io/peering-route-"

  /** A name segment of at most 63 characters that starts with the prefix. Only a prefix that
      leaves no room for the nine characters of dash and digest defeats the bound. */
  function SafeKeyName(digest: Digest, prefix: string, name: string): (r: string)
    ensures HasPrefix(r, prefix)
    ensures |r| <= MAX_KEY <==> |prefix| + |name| <= MAX_KEY || |prefix| + 9 <= MAX_KEY
  {
    var full := prefix + name;
    if |full| <= MAX_KEY then full
    else
      var room := MAX_KEY - |prefix| - 9;
      var atLeast := if room < 0 then 0 else room;
      var keep := if atLeast > |name| then |name| else atLeast;
      prefix + name[..keep] + "-" + digest(name)
  }

  /** The label that marks a peer as a member of a network. */
  function NetworkLabelKey(digest: Digest, network: string): (r: string)
    ensures HasPrefix(r, NETWORK_LABEL_PREFIX)
    ensures |r| <= |DOMAIN| + MAX_KEY
  {
    DOMAIN + SafeKeyName(digest, NETWORK_SEGMENT, network)
  }

  /** The annotation that carries the route of one peering on a gateway. */
  function RouteAnnotationKey(digest: Digest, peering: string): (r: string)
    ensures HasPrefix(r, ROUTE_ANNOTATION_PREFIX)
    ensures |r| <= |DOMAIN| + MAX_KEY
  {
    DOMAIN + SafeKeyName(digest, ROUTE_SEGMENT, peering)
  }

  /** The keys are not unique in the name: a shortened name is itself a name that fits, and gets
      the same key. */
  lemma ShortenedNameCollides(digest: Digest, prefix: string, name: string)
    requires |prefix| + 9 <= MAX_KEY < |prefix| + |name|
    ensures var alias := name[..MAX_KEY - |prefix| - 9] + "-" + digest(name);
      alias != name && SafeKeyName(digest, prefix, alias) == SafeKeyName(digest, prefix, name)
  {
    var alias := name[..MAX_KEY - |prefix| - 9] + "-" + digest(name);
    assert |alias| == MAX_KEY - |prefix|;
    assert prefix + alias == prefix + name[..MAX_KEY - |prefix| - 9] + "-" + digest(name);
  }

  /** Names that fit are told apart. */
  lemma FittingNamesDiffer(digest: Digest, prefix: string, a: string, b: string)
    requires |prefix| + |a| <= MAX_KEY && |prefix| + |b| <= MAX_KEY
    ensures SafeKeyName(digest, prefix, a) == SafeKeyName(digest, prefix, b) ==> a == b
  {
    assert (prefix + a)[|prefix|..] == a && (prefix + b)[|prefix|..] == b;
  }

  predicate Fits(prefix: string, name: string) { |prefix| + |name| <= MAX_KEY }

  /** How much of a long name is kept. */
  function Room(prefix: string): nat { if |prefix| + 9 <= MAX_KEY then MAX_KEY - |prefix| - 9 else 0 }

  /** What stands in the key for a name that does not fit. */
  function Shortened(digest: Digest, prefix: string, name: string): string
    requires !Fits(prefix, name)
  {
    name[..Room(prefix)] + "-" + digest(name)
  }

  /** Two names share a key exactly when they are equal, or both are long with the same beginning and digest, or
      one fits and is the other's shortened form. */
  lemma SameKeyIff(digest: Digest, prefix: string, a: string, b: string)
    ensures SafeKeyName(digest, prefix, a) == SafeKeyName(digest, prefix, b) <==>
      || a == b
      || (!Fits(prefix, a) && !Fits(prefix, b) && a[..Room(prefix)] == b[..Room(prefix)] && digest(a) == digest(b))
      || (Fits(prefix, a) && !Fits(prefix, b) && a == Shortened(digest, prefix, b))
      || (!Fits(prefix, a) && Fits(prefix, b) && b == Shortened(digest, prefix, a))
  {
    KeySegment(digest, prefix, a);
    KeySegment(digest, prefix, b);
    hide SafeKeyName;
    if !Fits(prefix, a) && !Fits(prefix, b) {
      SameShortened(a[..Room(prefix)], digest(a), b[..Room(prefix)], digest(b));
    }
  }

  /** After its prefix, a key is the name or its shortened form. */
  lemma KeySegment(digest: Digest, prefix: string, name: string)
    ensures SafeKeyName(digest, prefix, name)[|prefix|..] ==
      if Fits(prefix, name) then name else Shortened(digest, prefix, name)
    ensures SafeKeyName(digest, prefix, name) == prefix + SafeKeyName(digest, prefix, name)[|prefix|..]
  {
    if Fits(prefix, name) {
      assert (prefix + name)[|prefix|..] == name;
    } else {
      var cut := name[..Room(prefix)];
      assert prefix + cut + "-" + digest(name) == prefix + (cut + "-" + digest(name));
    }
  }

  lemma SameShortened(a: string, d: string, b: string, e: string)
    requires |a| == |b| && |d| == |e|
    ensures a + "-" + d == b + "-" + e <==> a == b && d == e
  {
    var s, t := a + "-" + d, b + "-" + e;
    assert s[..|a|] == a && t[..|b|] == b && s[|a| + 1..] == d && t[|b| + 1..] == e;
  }

  /** A name that fits is in its keys as it is. */
  lemma PlainLabelKey(digest: Digest, network: string)
    requires |network| <= 55
    ensures NetworkLabelKey(digest, network) == "alattice.io/network-" + network
  {
    KeySegment(digest, NETWORK_SEGMENT, network);
    hide SafeKeyName;
    PlainKey(DOMAIN, NETWORK_SEGMENT, network);
  }

  lemma PlainRouteKey(digest: Digest, peering: string)
    requires |peering| <= 49
    ensures RouteAnnotationKey(digest, peering) == "alattice.io/peering-route-" + peering
  {
    KeySegment(digest, ROUTE_SEGMENT, peering);
    hide SafeKeyName;
    PlainKey(DOMAIN, ROUTE_SEGMENT, peering);
  }

  lemma PlainKey(domain: string, segment: string, name: string)
    ensures domain + (segment + name) == (domain + segment) + name
  {
  }

  /** The label of a network and the route annotation of a peering tell names apart as far as their segments do. */
  lemma KeysTellApart(digest: Digest, a: string, b: string)
    ensures NetworkLabelKey(digest, a) == NetworkLabelKey(digest, b) <==>
      SafeKeyName(digest, "network-", a) == SafeKeyName(digest, "network-", b)
    ensures RouteAnnotationKey(digest, a) == RouteAnnotationKey(digest, b) <==>
      SafeKeyName(digest, "peering-route-", a) == SafeKeyName(digest, "peering-route-", b)
  {
    hide SafeKeyName;
    var n, r := DOMAIN + SafeKeyName(digest, "network-", a), DOMAIN + SafeKeyName(digest, "peering-route-", a);
    var m, q := DOMAIN + SafeKeyName(digest, "network-", b), DOMAIN + SafeKeyName(digest, "peering-route-", b);
    assert n[|DOMAIN|..] == SafeKeyName(digest, "network-", a) && m[|DOMAIN|..] == SafeKeyName(digest, "network-", b);
    assert r[|DOMAIN|..] == SafeKeyName(digest, "peering-route-", a);
    assert q[|DOMAIN|..] == SafeKeyName(digest, "peering-route-", b);
  }
}
