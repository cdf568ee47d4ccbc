/** The subnet and address allocator: a pool is cut into equal subnets, one per network, and the
    host addresses of a subnet are handed out one per peer. Object names are the locks: the
    API server refuses a second object with the same name. */
module Ipam {
  import opened Prelude
  import opened Ipv4

  // ------------------------------------------------------------------ names

  const SUBNET_PREFIX := "subnet-"
  const IP_PREFIX := "ip-"

  function SubnetName(base: Addr): string { SUBNET_PREFIX + IpToHex(base) }

  function IpName(a: Addr): string { IP_PREFIX + IpToHex(a) }

  lemma IpNameInjective(a: Addr, b: Addr)
    ensures IpName(a) == IpName(b) ==> a == b
  {
    if IpName(a) == IpName(b) {
      assert IpName(a)[3..] == IpToHex(a) && IpName(b)[3..] == IpToHex(b);
      IpToHexInjective(a, b);
    }
  }

  lemma SubnetNameInjective(a: Addr, b: Addr)
    ensures SubnetName(a) == SubnetName(b) ==> a == b
  {
    if SubnetName(a) == SubnetName(b) {
      assert SubnetName(a)[7..] == IpToHex(a) && SubnetName(b)[7..] == IpToHex(b);
      IpToHexInjective(a, b);
    }
  }

  // ------------------------------------------------------------------ subnets of a pool

  /** A parsed pool CIDR (any address of it, and its prefix length) and the prefix length of
      the subnets cut from it. */
  datatype Pool = Pool(cidr: Addr, prefix: nat, subnetMask: int) {
    predicate Parsed() { prefix <= 32 }

    predicate Valid() { 1 <= prefix <= subnetMask <= 32 }

    function Start(): Addr
      requires Parsed()
    {
      Masked(cidr, prefix)
    }

    predicate Contains(a: Addr)
      requires Parsed()
    {
      SameBlock(Start(), a, prefix)
    }

    /** The subnets of the pool, described without the scan: aligned blocks inside it. */
    predicate IsSubnet(a: Addr)
      requires Valid()
    {
      Contains(a) && Aligned(a, subnetMask)
    }

    function SlotCount(): nat
      requires Valid()
    {
      Pow2(subnetMask - prefix)
    }
  }

  /** The step of the scan, with Go's conversions: `1 << (32 - uint32(maskBits))` in uint32. */
  function Stride(maskBits: int): nat {
    ShiftOne((32 - maskBits) % TWO32)
  }

  function NextSubnet(a: Addr, maskBits: int): Addr {
    WrapAdd(a, Stride(maskBits))
  }

  /** The k-th address the scan looks at. */
  function Visited(pool: Pool, k: nat): Addr
    requires pool.Parsed()
  {
    if k == 0 then pool.Start() else NextSubnet(Visited(pool, k - 1), pool.subnetMask)
  }

  lemma StrideIsBlockSize(maskBits: nat)
    requires 1 <= maskBits <= 32
    ensures Stride(maskBits) == BlockSize(maskBits)
  {
  }

  /** Slot k of a valid pool, before and at the end of the scan. */
  lemma Slot(pool: Pool, k: nat)
    requires pool.Valid() && k <= pool.SlotCount()
    ensures var a := pool.Start() + k * BlockSize(pool.subnetMask);
      if k < pool.SlotCount()
      then a + BlockSize(pool.subnetMask) <= TWO32 && pool.IsSubnet(a)
      else a == pool.Start() + BlockSize(pool.prefix)
  {
    var p, m, s := pool.prefix, pool.subnetMask, pool.Start();
    MaskedIsAligned(pool.cidr, p);
    BlocksNest(p, m, s, s);
    if k < pool.SlotCount() {
      SlotInside(s, k, p, m);
    }
  }

  lemma SlotInside(s: Addr, k: nat, p: nat, m: nat)
    requires p <= m <= 32 && Aligned(s, p) && Aligned(s, m)
    requires k < Pow2(m - p) && BlockSize(p) == Pow2(m - p) * BlockSize(m)
    ensures s + k * BlockSize(m) + BlockSize(m) <= TWO32
    ensures SameBlock(s, s + k * BlockSize(m), p) && Aligned(s + k * BlockSize(m), m)
  {
    var d := BlockSize(m);
    BlockIsInterval(s, s, p);
    MulMono(k + 1, Pow2(m - p), d);
    assert (k + 1) * d == k * d + d;
    MulMono(0, k, d);
    BlockIsInterval(s, s + k * d, p);
    AlignedShift(s, k, d);
  }

  lemma AlignedShift(s: nat, k: nat, d: nat)
    requires d > 0 && s % d == 0
    ensures (s + k * d) % d == 0 && (s + k * d) / d == s / d + k
  {
    DivParts(s, d);
    assert (s / d + k) * d == s / d * d + k * d;
    DivUnique(s + k * d, d, s / d + k, 0);
  }

  /** The addresses visited are the slots in order; one step past the last slot the scan has left
      the pool, also when that step wraps around the top of the address space. */
  lemma {:induction false} VisitedSlots(pool: Pool, k: nat)
    requires pool.Valid() && k <= pool.SlotCount()
    ensures k < pool.SlotCount() ==>
      Visited(pool, k) == pool.Start() + k * BlockSize(pool.subnetMask) && pool.IsSubnet(Visited(pool, k))
    ensures k == pool.SlotCount() ==> !pool.Contains(Visited(pool, k))
  {
    hide BlockSize, Masked, WrapAdd, NextSubnet, SameBlock, Aligned, Pow2;
    Slot(pool, k);
    if k > 0 {
      VisitedSlots(pool, k - 1);
      SlotStep(pool, k, Visited(pool, k - 1));
      if k == pool.SlotCount() {
        PastLastSlot(pool);
      }
    }
  }

  lemma PastLastSlot(pool: Pool)
    requires pool.Valid()
    ensures !pool.Contains(WrapAdd(pool.Start(), pool.SlotCount() * BlockSize(pool.subnetMask)))
  {
    MaskedIsAligned(pool.cidr, pool.prefix);
    LeavesBlock(pool.Start(), pool.prefix);
    Slot(pool, pool.SlotCount());
  }

  lemma SlotStep(pool: Pool, k: nat, prev: Addr)
    requires pool.Valid() && k >= 1 && prev == pool.Start() + (k - 1) * BlockSize(pool.subnetMask)
    ensures NextSubnet(prev, pool.subnetMask) == WrapAdd(pool.Start(), k * BlockSize(pool.subnetMask))
  {
    hide Stride, BlockSize, Masked, WrapAdd;
    StrideIsBlockSize(pool.subnetMask);
    var d := BlockSize(pool.subnetMask);
    NextMultiple(k, d);
    WrapAddTwice(prev, d, pool.Start(), k * d);
  }

  lemma NextMultiple(k: nat, d: nat)
    requires k >= 1
    ensures (k - 1) * d + d == k * d
  {
  }

  lemma WrapAddTwice(a: Addr, x: nat, b: Addr, y: nat)
    requires a + x == b + y
    ensures WrapAdd(a, x) == WrapAdd(b, y)
  {
  }

  lemma LeavesBlock(s: Addr, p: nat)
    requires 1 <= p <= 32 && Aligned(s, p)
    ensures !SameBlock(s, WrapAdd(s, BlockSize(p)), p)
  {
    var a := WrapAdd(s, BlockSize(p));
    BlockIsInterval(s, a, p);
    Pow2Is32();
    assert BlockSize(p) < TWO32 by { Pow2Mono(32 - p, 31); assert Pow2(32) == 2 * Pow2(31); }
  }

  lemma Pow2Mono(a: nat, b: nat)
    requires a <= b
    ensures Pow2(a) <= Pow2(b)
  {
    Pow2Add(a, b - a);
    MulMono(1, Pow2(b - a), Pow2(a));
  }

  /** Every subnet of the pool is one of the slots. */
  lemma SubnetIsSlot(pool: Pool, a: Addr) returns (k: nat)
    requires pool.Valid() && pool.IsSubnet(a)
    ensures k < pool.SlotCount() && a == Visited(pool, k) == pool.Start() + k * BlockSize(pool.subnetMask)
  {
    var p, m, s := pool.prefix, pool.subnetMask, pool.Start();
    var d, n := BlockSize(m), pool.SlotCount();
    MaskedIsAligned(pool.cidr, p);
    BlocksNest(p, m, s, s);
    BlockIsInterval(s, a, p);
    DivParts(s, d);
    DivParts(a, d);
    k := SlotIndex(s, a, d, n);
    VisitedSlots(pool, k);
  }

  lemma SlotIndex(s: nat, a: nat, d: nat, n: nat) returns (k: nat)
    requires d > 0 && s == s / d * d && a == a / d * d && s <= a < s + n * d
    ensures k < n && a == s + k * d
  {
    var x, y := s / d, a / d;
    k := y - x;
    assert k * d == y * d - x * d;
    BlockFits(k, d, n);
  }

  /** Different subnets share no address. */
  lemma SubnetsDisjoint(pool: Pool, s: Addr, t: Addr, a: Addr)
    requires pool.Valid() && pool.IsSubnet(s) && pool.IsSubnet(t)
    requires SameBlock(s, a, pool.subnetMask) && SameBlock(t, a, pool.subnetMask)
    ensures s == t
  {
    DivParts(s, BlockSize(pool.subnetMask));
    DivParts(t, BlockSize(pool.subnetMask));
  }

  /** The scan leaves the pool at all exactly when the pool is not /0 and the stride is not lost in
      the shift; otherwise it cycles forever once every visited subnet is taken. */
  lemma ScanLeavesPool(pool: Pool)
    requires pool.Parsed()
    ensures (exists k: nat :: !pool.Contains(Visited(pool, k)))
            <==> pool.prefix >= 1 && 1 <= pool.subnetMask % TWO32 <= 32
  {
    var p, m := pool.prefix, pool.subnetMask % TWO32;
    StrideWraps(pool.subnetMask);
    if p == 0 {
      forall k: nat ensures pool.Contains(Visited(pool, k)) {
        MaskedIsAligned(pool.cidr, 0);
        Pow2Is32();
        BlockIsInterval(pool.Start(), Visited(pool, k), 0);
      }
    } else if m == 0 || m > 32 {
      forall k: nat ensures pool.Contains(Visited(pool, k)) {
        StandsStill(pool, k);
      }
    } else if p <= m {
      var q := Pool(pool.cidr, p, m);
      VisitedSlots(q, q.SlotCount());
      SameScan(pool, q, q.SlotCount());
      assert !pool.Contains(Visited(pool, q.SlotCount()));
    } else {
      WideStrideLeaves(pool.Start(), p, m, pool.cidr);
      StrideIsBlockSize(m);
      assert Visited(pool, 1) == NextSubnet(Visited(pool, 0), pool.subnetMask);
      assert !pool.Contains(Visited(pool, 1));
    }
  }

  lemma WideStrideLeaves(s: Addr, p: nat, m: nat, cidr: Addr)
    requires 1 <= m < p <= 32 && s == Masked(cidr, p)
    ensures !SameBlock(s, WrapAdd(s, BlockSize(m)), p)
  {
    MaskedIsAligned(cidr, p);
    BlockIsInterval(s, WrapAdd(s, BlockSize(m)), p);
    Pow2Mono(32 - p, 32 - m);
    Pow2Mono(32 - m, 31);
    Pow2Mono(32 - p, 31);
    Pow2Is32();
    assert Pow2(32) == 2 * Pow2(31);
  }

  lemma StrideWraps(maskBits: int)
    ensures Stride(maskBits) == Stride(maskBits % TWO32)
    ensures var m := maskBits % TWO32; (m == 0 || m > 32) ==> Stride(maskBits) == 0
  {
  }

  lemma {:induction false} StandsStill(pool: Pool, k: nat)
    requires pool.Parsed() && Stride(pool.subnetMask) == 0
    ensures Visited(pool, k) == pool.Start()
  {
    if k > 0 { StandsStill(pool, k - 1); }
  }

  lemma {:induction false} SameScan(pool: Pool, q: Pool, k: nat)
    requires pool.Parsed() && pool.cidr == q.cidr && pool.prefix == q.prefix
    requires Stride(pool.subnetMask) == Stride(q.subnetMask)
    ensures Visited(pool, k) == Visited(q, k)
  {
    if k > 0 { SameScan(pool, q, k - 1); }
  }

  /** An allocation of the subnet is listed, under its name or under its bare digits. */
  predicate Taken(listed: seq<string>, x: Addr) { SubnetName(x) in listed || IpToHex(x) in listed }

  /** What the scan has to return for a list of allocation names. */
  ghost predicate LowestFree(pool: Pool, listed: seq<string>, r: Option<Addr>)
    requires pool.Valid()
  {
    match r
    case Some(a) =>
      && pool.IsSubnet(a) && !Taken(listed, a)
      && forall x: Addr | pool.IsSubnet(x) && x < a :: Taken(listed, x)
    case None =>
      forall x: Addr | pool.IsSubnet(x) :: Taken(listed, x)
  }

  /** The suffixes that occupy exactly the listed subnets. */
  ghost predicate Occupied(used: set<string>, listed: seq<string>) {
    forall x: Addr :: IpToHex(x) in used <==> Taken(listed, x)
  }

  lemma SuffixIs(name: string, x: Addr)
    ensures TrimPrefix(name, SUBNET_PREFIX) == IpToHex(x) <==> name == SubnetName(x) || name == IpToHex(x)
  {
    IpToHexValue(x);
    hide IpToHex;
    assert IpToHex(x)[0] in IpToHex(x) && SUBNET_PREFIX[0] == 's';
    assert SubnetName(x)[7..] == IpToHex(x);
  }

  lemma OccupiedNext(used: set<string>, listed: seq<string>, name: string)
    requires Occupied(used, listed)
    ensures Occupied(used + {TrimPrefix(name, SUBNET_PREFIX)}, listed + [name])
  {
    hide IpToHex;
    forall x: Addr ensures IpToHex(x) in used + {TrimPrefix(name, SUBNET_PREFIX)} <==> Taken(listed + [name], x) {
      SuffixIs(name, x);
      hide SubnetName;
    }
  }

  /** The scan over the listed allocations (a cached list, so possibly out of date). */
  method FindFirstFree(pool: Pool, listed: seq<string>) returns (r: Option<Addr>, ghost steps: nat)
    requires pool.Valid()
    ensures LowestFree(pool, listed, r)
    ensures steps <= Pow2(pool.subnetMask - pool.prefix)
  {
    hide IpToHex, BlockSize, SubnetName;
    var used: set<string> := {};
    for i := 0 to |listed|
      invariant Occupied(used, listed[..i])
    {
      OccupiedNext(used, listed[..i], listed[i]);
      used := used + {TrimPrefix(listed[i], SUBNET_PREFIX)};
      assert listed[..i + 1] == listed[..i] + [listed[i]];
    }
    assert listed[..|listed|] == listed;

    var curr := pool.Start();
    ghost var k := 0;
    VisitedSlots(pool, 0);
    while pool.Contains(curr)
      invariant k <= pool.SlotCount() && curr == Visited(pool, k)
      invariant k == pool.SlotCount() ==> !pool.Contains(curr)
      invariant forall j :: 0 <= j < k ==> IpToHex(Visited(pool, j)) in used
      decreases pool.SlotCount() - k
    {
      VisitedSlots(pool, k);
      if IpToHex(curr) !in used {
        LowerSlotsUsed(pool, used, k);
        return Some(curr), k;
      }
      curr := NextSubnet(curr, pool.subnetMask);
      k := k + 1;
      VisitedSlots(pool, k);
    }
    if k < pool.SlotCount() {
      VisitedSlots(pool, k);
    }
    AllSlotsUsed(pool, used);
    r, steps := None, k;
  }

  lemma LowerSlotsUsed(pool: Pool, used: set<string>, k: nat)
    requires pool.Valid() && k < pool.SlotCount()
    requires forall j :: 0 <= j < k ==> IpToHex(Visited(pool, j)) in used
    ensures forall x: Addr | pool.IsSubnet(x) && x < Visited(pool, k) :: IpToHex(x) in used
  {
    VisitedSlots(pool, k);
    forall x: Addr | pool.IsSubnet(x) && x < Visited(pool, k) ensures IpToHex(x) in used {
      var j := SubnetIsSlot(pool, x);
      if j >= k {
        MulMono(k, j, BlockSize(pool.subnetMask));
      }
    }
  }

  lemma AllSlotsUsed(pool: Pool, used: set<string>)
    requires pool.Valid()
    requires forall j :: 0 <= j < pool.SlotCount() ==> IpToHex(Visited(pool, j)) in used
    ensures forall x: Addr | pool.IsSubnet(x) :: IpToHex(x) in used
  {
    forall x: Addr | pool.IsSubnet(x) ensures IpToHex(x) in used {
      var j := SubnetIsSlot(pool, x);
    }
  }

  // ------------------------------------------------------------------ host addresses of a subnet

  /** First and last candidate, in uint32 arithmetic: base + 2 and base + totalIPs - 2. */
  function HostLow(base: Addr): Addr { WrapAdd(base, 2) }

  function HostHigh(base: Addr, prefix: nat): Addr
    requires prefix <= 32
  {
    WrapAdd(WrapAdd(base, ShiftOne(32 - prefix)), -2)
  }

  /** base + 2 up to broadcast - 1, described without the wrapping bounds. */
  predicate IsHost(base: Addr, prefix: nat, a: int)
    requires prefix <= 32
  {
    base + 2 <= a <= base + BlockSize(prefix) - 2
  }

  /** The (prefix, base) pairs whose bounds wrap into a range outside the subnet. */
  predicate BoundsWrap(base: Addr, prefix: nat) {
    || (prefix == 31 && base == TWO32 - 2)
    || (prefix == 32 && (base == 0 || base >= TWO32 - 2))
  }

  /** Up to /30 the bounds never wrap and the candidates are exactly the hosts. */
  lemma HostRange(base: Addr, prefix: nat)
    requires prefix <= 30 && Aligned(base, prefix)
    ensures HostLow(base) == base + 2
    ensures HostHigh(base, prefix) == base + BlockSize(prefix) - 2 < TWO32 - 1
    ensures BlockSize(prefix) >= 4
    ensures forall a: Addr | IsHost(base, prefix, a) :: SameBlock(base, a, prefix)
  {
    BlockIsInterval(base, base, prefix);
    Pow2Mono(2, 32 - prefix);
    assert Pow2(2) == 4;
    Pow2Is32();
    if prefix == 0 {
      assert WrapAdd(base, ShiftOne(32)) == base;
    } else {
      TopBlock(base, prefix);
    }
    forall a: Addr | IsHost(base, prefix, a) ensures SameBlock(base, a, prefix) {
      BlockIsInterval(base, a, prefix);
    }
  }

  /** base + totalIPs wraps to 0 for the topmost block, and the following -2 wraps it back. */
  lemma TopBlock(base: Addr, prefix: nat)
    requires 1 <= prefix <= 30 && Aligned(base, prefix)
    ensures HostHigh(base, prefix) == base + BlockSize(prefix) - 2
  {
    BlockIsInterval(base, base, prefix);
    Pow2Mono(2, 32 - prefix);
    assert Pow2(2) == 4;
  }

  /** For every prefix length: the loop offers only hosts of the subnet exactly when the bounds do
      not wrap. */
  lemma CandidatesAreHosts(base: Addr, prefix: nat)
    requires prefix <= 32 && Aligned(base, prefix)
    ensures (forall a: Addr | HostLow(base) <= a <= HostHigh(base, prefix) :: IsHost(base, prefix, a))
            <==> !BoundsWrap(base, prefix)
  {
    assert Pow2(0) == 1 && Pow2(1) == 2;
    if prefix <= 30 {
      HostRange(base, prefix);
    } else {
      BlockIsInterval(base, base, prefix);
      if BoundsWrap(base, prefix) {
        assert HostLow(base) <= HostHigh(base, prefix) && !IsHost(base, prefix, HostLow(base));
      }
    }
  }

  // ------------------------------------------------------------------ the API server

  datatype EndpointKey = EndpointKey(namespace: string, name: string)
  datatype Endpoint = Endpoint(address: Addr, peerRef: string)
  datatype Listed = Listed(name: string, spec: Endpoint)
  datatype SubnetAllocation = SubnetAllocation(networkName: string, base: Addr, prefix: int)
  datatype CreateOutcome = Created | AlreadyExists | CallFailed
  datatype IpamError = BadCidr | NoFree | ApiError

  type Endpoints = map<EndpointKey, Endpoint>
  type Subnets = map<string, SubnetAllocation>

  /** The object store both allocators share with every other reconciler. */
  class ApiServer {
    var endpoints: Endpoints
    var subnets: Subnets
    ghost var failures: nat  // calls of ours that failed for another reason than a taken name

    constructor ()
      ensures endpoints == map[] && subnets == map[] && failures == 0
    {
      endpoints, subnets, failures := map[], map[], 0;
    }

    /** Anything other reconcilers do between two calls of this one. */
    method Interleave()
      modifies `endpoints, `subnets
    {
      endpoints := *;
      subnets := *;
    }

    /** Atomic create: the name is the lock. A call can also fail for other reasons. */
    method CreateEndpoint(key: EndpointKey, e: Endpoint) returns (outcome: CreateOutcome)
      modifies `endpoints, `failures
      ensures failures == old(failures) + if outcome == CallFailed then 1 else 0
      ensures outcome == Created ==> key !in old(endpoints) && endpoints == old(endpoints)[key := e]
      ensures outcome != Created ==> endpoints == old(endpoints)
      ensures outcome == AlreadyExists ==> key in old(endpoints)
    {
      var reachable: bool := *;
      if !reachable {
        failures := failures + 1;
        outcome := CallFailed;
      } else if key in endpoints {
        outcome := AlreadyExists;
      } else {
        endpoints := endpoints[key := e];
        outcome := Created;
      }
    }

    method CreateSubnet(name: string, s: SubnetAllocation) returns (outcome: CreateOutcome)
      modifies `subnets, `failures
      ensures failures == old(failures) + if outcome == CallFailed then 1 else 0
      ensures outcome == Created ==> name !in old(subnets) && subnets == old(subnets)[name := s]
      ensures outcome != Created ==> subnets == old(subnets)
      ensures outcome == AlreadyExists ==> name in old(subnets)
    {
      var reachable: bool := *;
      if !reachable {
        failures := failures + 1;
        outcome := CallFailed;
      } else if name in subnets {
        outcome := AlreadyExists;
      } else {
        subnets := subnets[name := s];
        outcome := Created;
      }
    }

    /** Idempotent delete. */
    method DeleteEndpoint(key: EndpointKey) returns (ok: bool)
      modifies `endpoints, `failures
      ensures endpoints == if ok then old(endpoints) - {key} else old(endpoints)
      ensures failures == old(failures) + if ok then 0 else 1
    {
      ok := *;
      if ok {
        endpoints := endpoints - {key};
      } else {
        failures := failures + 1;
      }
    }

    /** A cached list: it may miss new objects and still show deleted ones. */
    method ListSubnets() returns (names: seq<string>)
    {
      names := *;
    }
  }

  const MAX_RETRIES := 10

  /** One attempt: the list it saw, what the scan found in it, and the store at its create. */
  datatype Attempt = Attempt(listed: seq<string>, found: Option<Addr>, store: Subnets)

  /** An attempt that found a subnet and lost the race for it. */
  ghost predicate LostRace(pool: Pool, t: Attempt)
    requires pool.Valid()
  {
    t.found.Some? && LowestFree(pool, t.listed, t.found) && SubnetName(t.found.value) in t.store
  }

  /** Claim a subnet for a network: the first free one of the last list, held by the network from then on.
      Otherwise the last list showed no free subnet, ten races were lost, or a call failed. */
  method AllocateSubnet(server: ApiServer, networkName: string, pool: Pool)
    returns (r: Result<Addr, IpamError>, ghost lost: seq<Attempt>, ghost last: Attempt)
    requires pool.Valid()
    modifies server
    ensures |lost| <= MAX_RETRIES && forall t | t in lost :: LostRace(pool, t)
    ensures |lost| < MAX_RETRIES ==> LowestFree(pool, last.listed, last.found)
    ensures r.Ok? ==>
      && |lost| < MAX_RETRIES && last.found == Some(r.value) && SubnetName(r.value) !in last.store
      && server.subnets == last.store[SubnetName(r.value) := SubnetAllocation(networkName, r.value, pool.subnetMask)]
    ensures r == Err(NoFree) <==> |lost| == MAX_RETRIES || last.found == None
    ensures r == Err(ApiError) <==> server.failures == old(server.failures) + 1
    ensures r != Err(ApiError) ==> server.failures == old(server.failures)
    ensures r != Err(BadCidr)
  {
    hide LowestFree, SubnetName;
    lost, last := [], Attempt([], Some(0), map[]);
    for attempt := 0 to MAX_RETRIES
      invariant |lost| == attempt && server.failures == old(server.failures)
      invariant forall t | t in lost :: LostRace(pool, t)
      invariant last.found.Some?
    {
      server.Interleave();
      var listed := server.ListSubnets();
      var free, _ := FindFirstFree(pool, listed);
      last := Attempt(listed, free, server.subnets);
      if free == None {
        return Err(NoFree), lost, last;
      }
      var outcome := server.CreateSubnet(SubnetName(free.value),
                          SubnetAllocation(networkName, free.value, pool.subnetMask));
      if outcome == Created {
        return Ok(free.value), lost, last;
      }
      if outcome != AlreadyExists {
        return Err(ApiError), lost, last;
      }
      lost := lost + [last];
    }
    r := Err(NoFree);
  }

  /** The peer's own endpoint in a list, if any: the first one that names it. */
  function OwnListed(listed: seq<Listed>, peer: string): Option<Addr> {
    if listed == [] then None
    else if listed[0].spec.peerRef == peer then Some(listed[0].spec.address)
    else OwnListed(listed[1..], peer)
  }

  lemma {:induction false} OwnListedAt(listed: seq<Listed>, peer: string, n: nat)
    requires n <= |listed| && forall j :: 0 <= j < n ==> listed[j].spec.peerRef != peer
    ensures n == |listed| ==> OwnListed(listed, peer) == None
    ensures n < |listed| && listed[n].spec.peerRef == peer ==> OwnListed(listed, peer) == Some(listed[n].spec.address)
  {
    if n > 0 {
      OwnListedAt(listed[1..], peer, n - 1);
    }
  }

  function ListedNames(listed: seq<Listed>): set<string> {
    set l | l in listed :: l.name
  }

  lemma IsListedName(listed: seq<Listed>, n: string)
    ensures n in ListedNames(listed) <==> exists i :: 0 <= i < |listed| && listed[i].name == n
  {
  }

  /** Claim an address for a peer. `seen[a]` is the store at the moment candidate `a` was tried;
      other reconcilers run between the tries. */
  method AllocateIP(server: ApiServer, cidr: Option<(Addr, nat)>, ns: string, peer: string, listed: seq<Listed>)
    returns (r: Result<Addr, IpamError>, ghost seen: map<Addr, Endpoints>)
    requires cidr.Some? ==> cidr.value.1 <= 30
    modifies server
    ensures cidr == None ==> r == Err(BadCidr)
    // reuse: the address of the endpoint already naming the peer, whatever subnet it is from
    ensures cidr.Some? && OwnListed(listed, peer).Some? ==>
      r == Ok(OwnListed(listed, peer).value) && server.endpoints == old(server.endpoints)
    ensures cidr.Some? && OwnListed(listed, peer) == None ==>
      var base, size := Masked(cidr.value.0, cidr.value.1), BlockSize(cidr.value.1);
      ClaimSpec(base + 2, base + size - 2, ns, peer, listed, seen, r, server.endpoints)
    ensures server.failures == old(server.failures) + if r == Err(ApiError) then 1 else 0
  {
    seen := map[];
    if cidr == None {
      return Err(BadCidr), seen;
    }
    var own, used := ScanListed(listed, peer);
    if own.Some? {
      return Ok(own.value), seen;
    }
    var base, prefix := Masked(cidr.value.0, cidr.value.1), cidr.value.1;
    MaskedIsAligned(cidr.value.0, prefix);
    HostRange(base, prefix);
    r, seen := ClaimFirst(server, HostLow(base), HostHigh(base, prefix), ns, peer, listed, used);
  }

  /** The first loop of AllocateIP: stop at the peer's own endpoint, else collect the names. */
  method ScanListed(listed: seq<Listed>, peer: string) returns (own: Option<Addr>, used: set<string>)
    ensures own == OwnListed(listed, peer)
    ensures own == None ==> used == ListedNames(listed)
  {
    used := {};
    for n := 0 to |listed|
      invariant forall j :: 0 <= j < n ==> listed[j].spec.peerRef != peer
      invariant used == ListedNames(listed[..n])
    {
      OwnListedAt(listed, peer, n);
      if listed[n].spec.peerRef == peer {
        return Some(listed[n].spec.address), used;
      }
      used := used + {listed[n].name};
      assert listed[..n + 1] == listed[..n] + [listed[n]];
    }
    assert listed[..|listed|] == listed;
    OwnListedAt(listed, peer, |listed|);
    own := None;
  }

  /** The second loop of AllocateIP: try the candidates in order. */
  method ClaimFirst(server: ApiServer, start: Addr, end: Addr, ns: string, peer: string,
                    ghost listed: seq<Listed>, used: set<string>)
    returns (r: Result<Addr, IpamError>, ghost seen: map<Addr, Endpoints>)
    requires start <= end + 1 && end < TWO32 - 1 && used == ListedNames(listed)
    modifies server
    ensures ClaimSpec(start, end, ns, peer, listed, seen, r, server.endpoints)
    ensures server.failures == old(server.failures) + if r == Err(ApiError) then 1 else 0
  {
    hide IpToHex;
    seen := map[];
    var i := start;
    while i <= end
      invariant start <= i <= end + 1 && server.failures == old(server.failures)
      invariant forall b: Addr | start <= b < i :: TakenWhenTried(ns, listed, seen, b)
    {
      var name := IpName(i);
      if name !in used {
        server.Interleave();
        ghost var earlier := seen;
        seen := seen[i := server.endpoints];
        forall b: Addr | start <= b < i ensures TakenWhenTried(ns, listed, seen, b) {
          assert TakenWhenTried(ns, listed, earlier, b);
        }
        var outcome := server.CreateEndpoint(EndpointKey(ns, name), Endpoint(i, peer));
        if outcome == CallFailed {
          return Err(ApiError), seen;
        }
        if outcome == Created {
          return Ok(i), seen;
        }
      }
      i := WrapAdd(i, 1);
    }
    r := Err(NoFree);
  }

  /** Success: the lowest candidate neither listed nor taken when tried, now held by the peer.
      NoFree: every candidate was listed or taken when tried. */
  ghost predicate ClaimSpec(low: int, high: int, ns: string, peer: string, listed: seq<Listed>,
                            seen: map<Addr, Endpoints>, r: Result<Addr, IpamError>, after: Endpoints)
  {
    match r
    case Ok(a) =>
      && low <= a <= high && IpName(a) !in ListedNames(listed)
      && a in seen && EndpointKey(ns, IpName(a)) !in seen[a]
      && after == seen[a][EndpointKey(ns, IpName(a)) := Endpoint(a, peer)]
      && forall b: Addr | low <= b < a :: TakenWhenTried(ns, listed, seen, b)
    case Err(e) =>
      e == ApiError
      || (e == NoFree && forall b: Addr | low <= b <= high :: TakenWhenTried(ns, listed, seen, b))
  }

  ghost predicate TakenWhenTried(ns: string, listed: seq<Listed>, seen: map<Addr, Endpoints>, b: Addr) {
    IpName(b) in ListedNames(listed) || (b in seen && EndpointKey(ns, IpName(b)) in seen[b])
  }

  /** Return an address: delete the endpoint of that name, if there is one. */
  method ReleaseIP(server: ApiServer, ns: string, address: Option<Addr>) returns (ok: bool)
    modifies server`endpoints, server`failures
    ensures server.failures == old(server.failures) + if ok then 0 else 1
    ensures address == None ==> ok && server.endpoints == old(server.endpoints)
    ensures address.Some? && ok ==>
      server.endpoints == old(server.endpoints) - {EndpointKey(ns, IpName(address.value))}
    ensures !ok ==> server.endpoints == old(server.endpoints)
  {
    if address == None {
      return true;
    }
    ok := server.DeleteEndpoint(EndpointKey(ns, IpName(address.value)));
  }
}
