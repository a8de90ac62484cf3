/** The address pool on values: ranges are boxes of (family, address, port, ttl)
    cells, and every operation of the pool rearranges boxes. */
module AddressRanges {
  import opened Machine
  import opened Wrappers
  import opened BigEndian

  /** One allocatable unit. The family is the size of its addresses in bytes. */
  datatype Cell = Cell(size: nat, addr: nat, port: int, ttl: nat)

  datatype Range = Range(size: nat, lo: nat, hi: nat, minPort: int, maxPort: int, ttl: nat)
  {
    /** Without ports, as a cut may leave it. */
    predicate Empty() {
      minPort > maxPort
    }

    /** What can be in a pool: a box of addresses and ports, or one that has just run out of
        ports. */
    predicate Valid() {
      && size in {4, 16}
      && lo < Pow256(size) && hi < Pow256(size) && (lo <= hi || Empty())
      && 0 <= minPort < 65536 && minPort - 1 <= maxPort < 65536
      && ttl < 256
    }

    predicate Covers(c: Cell) {
      size == c.size && lo <= c.addr <= hi && minPort <= c.port <= maxPort && ttl == c.ttl
    }
  }

  function Once(r: Range, c: Cell): nat {
    if r.Covers(c) then 1 else 0
  }

  /** How many of the ranges cover a cell. */
  function Count(rs: seq<Range>, c: Cell): nat {
    if rs == [] then 0 else Once(rs[0], c) + Count(rs[1..], c)
  }

  datatype Flags = Flags(ipv4: bool, ipv6: bool, evenPort: bool, multicast: bool, unicast: bool)

  /** An address parsed from text; None stands for text that is no address. */
  datatype Inet = Inet(size: nat, addr: nat, multicast: bool)

  datatype Outcome = Taken(range: Range) | Invalid | InUse | NotInPool

  datatype State = State(free: seq<Range>, used: seq<Range>)
  {
    predicate Valid() {
      && (forall i :: 0 <= i < |free| ==> free[i].Valid())
      && (forall i :: 0 <= i < |used| ==> used[i].Valid())
    }

    /** Free plus allocated ranges over a cell. */
    function Total(c: Cell): nat {
      Count(free, c) + Count(used, c)
    }
  }

  // ---------- the operations ----------

  function U16(x: int): int { x % 65536 }

  datatype Pieces = Pieces(taken: Range, rest: seq<Range>)

  /** Drops the first skip addresses into a range of their own. */
  function SkipAddresses(r: Range, skip: nat): Pieces {
    if skip == 0 then Pieces(r, [])
    else Pieces(r.(lo := Inc(r.size, r.lo, skip)), [r.(hi := Inc(r.size, r.lo, skip - 1))])
  }

  /** Keeps the first address only. */
  function KeepFirstAddress(r: Range): Pieces {
    if r.lo == r.hi then Pieces(r, [])
    else Pieces(r.(hi := r.lo), [r.(lo := Inc(r.size, r.lo, 1))])
  }

  /** Drops the first skip ports, in the 16 bits of a port. */
  function SkipPorts(r: Range, skip: int): Pieces {
    if skip <= 0 then Pieces(r, [])
    else Pieces(r.(minPort := U16(r.minPort + skip)), [r.(maxPort := U16(r.minPort + skip - 1))])
  }

  /** Keeps the first n ports only. */
  function KeepPorts(r: Range, n: int): Pieces {
    if r.maxPort - r.minPort + 1 > n
    then Pieces(r.(maxPort := U16(r.minPort + n - 1)), [r.(minPort := U16(r.minPort + n))])
    else Pieces(r, [])
  }

  /** A second cut of what a first one took; the newer remaining ranges come first. */
  function Then(a: Pieces, b: Pieces): Pieces {
    Pieces(b.taken, b.rest + a.rest)
  }

  function OneAddress(r: Range, skipAddr: nat): Pieces {
    var a := SkipAddresses(r, skipAddr);
    Then(a, KeepFirstAddress(a.taken))
  }

  function SomePorts(r: Range, skipPort: int, nPorts: int): Pieces {
    var a := SkipPorts(r, skipPort);
    Then(a, KeepPorts(a.taken, nPorts))
  }

  /** Cuts a range into the wanted box and up to four remaining ones. */
  function Split(r: Range, skipAddr: nat, skipPort: int, nPorts: int): Pieces {
    var a := OneAddress(r, skipAddr);
    Then(a, SomePorts(a.taken, skipPort, nPorts))
  }

  function PortSkip(r: Range, flags: Flags): int {
    if flags.evenPort && r.minPort % 2 != 0 then 1 else 0
  }

  predicate Suits(r: Range, flags: Flags, nPorts: int) {
    && !(flags.ipv4 && r.size != 4)
    && !(flags.ipv6 && r.size != 16)
    && !(flags.multicast && r.ttl == 0)
    && !(flags.unicast && r.ttl != 0)
    && r.maxPort - r.minPort + 1 - PortSkip(r, flags) >= nPorts
  }

  /** Position of the first suitable range, |rs| when there is none. */
  function FirstSuitable(rs: seq<Range>, flags: Flags, nPorts: int): (i: nat)
    ensures i <= |rs|
    ensures i < |rs| ==> Suits(rs[i], flags, nPorts)
    ensures forall j :: 0 <= j < i ==> !Suits(rs[j], flags, nPorts)
  {
    if rs == [] then 0
    else if Suits(rs[0], flags, nPorts) then 0
    else 1 + FirstSuitable(rs[1..], flags, nPorts)
  }

  function Without<T>(s: seq<T>, i: nat): seq<T>
    requires i < |s|
  {
    s[..i] + s[i + 1..]
  }

  /** Replaces free[i] by the remaining pieces and allocates the one taken. */
  function Take(s: State, i: nat, p: Pieces): State
    requires i < |s.free|
  {
    State(p.rest + Without(s.free, i), [p.taken] + s.used)
  }

  function Acquire(s: State, flags: Flags, nPorts: int): (State, Option<Range>) {
    if nPorts <= 0 then (s, None)
    else
      var i := FirstSuitable(s.free, flags, nPorts);
      if i == |s.free| then (s, None)
      else
        var p := Split(s.free[i], 0, PortSkip(s.free[i], flags), nPorts);
        (Take(s, i, p), Some(p.taken))
  }

  /** The test of find_address_in_ranges, in unsigned 32-bit arithmetic. */
  predicate Contains(r: Range, size: nat, addr: nat, port: nat, nPorts: nat, ttl: nat) {
    && r.size == size
    && r.lo <= addr <= r.hi
    && port >= r.minPort && (port + nPorts - 1) % TWO32 <= r.maxPort
    && ttl == r.ttl
  }

  function Find(rs: seq<Range>, size: nat, addr: nat, port: nat, nPorts: nat, ttl: nat): (i: nat)
    ensures i <= |rs|
    ensures i < |rs| ==> Contains(rs[i], size, addr, port, nPorts, ttl)
    ensures forall j :: 0 <= j < i ==> !Contains(rs[j], size, addr, port, nPorts, ttl)
  {
    if rs == [] then 0
    else if Contains(rs[0], size, addr, port, nPorts, ttl) then 0
    else 1 + Find(rs[1..], size, addr, port, nPorts, ttl)
  }

  function Reserve(s: State, ip: Option<Inet>, port: nat, nPorts: nat, ttl: nat): (State, Outcome) {
    if port == 0 || nPorts == 0 || ip.None? || ip.value.multicast != (ttl != 0) then (s, Invalid)
    else
      var size, addr := ip.value.size, ip.value.addr;
      var i := Find(s.free, size, addr, port, nPorts, ttl);
      if i < |s.free| then
        var r := s.free[i];
        var p := Split(r, Diff(size, addr, r.lo), port - r.minPort, Int32(nPorts));
        (Take(s, i, p), Taken(p.taken))
      else if Find(s.used, size, addr, port, nPorts, ttl) < |s.used| then (s, InUse)
      else (s, NotInPool)
  }

  /** Gives back the k-th allocation; an unknown one changes nothing. */
  function Release(s: State, k: nat): State {
    if k < |s.used| then State([s.used[k]] + s.free, Without(s.used, k)) else s
  }

  // ---------- one split ----------

  lemma {:induction false} CountAppend(a: seq<Range>, b: seq<Range>, c: Cell)
    ensures Count(a + b, c) == Count(a, c) + Count(b, c)
  {
    if a == [] {
      assert a + b == b;
    } else {
      assert (a + b)[1..] == a[1..] + b;
      CountAppend(a[1..], b, c);
    }
  }

  lemma CountWithout(rs: seq<Range>, i: nat, c: Cell)
    requires i < |rs|
    ensures Count(rs, c) == Once(rs[i], c) + Count(Without(rs, i), c)
  {
    assert rs == rs[..i] + ([rs[i]] + rs[i + 1..]);
    CountAppend(rs[..i], [rs[i]] + rs[i + 1..], c);
    CountAppend(rs[..i], rs[i + 1..], c);
  }

  /** The boxes of a split cover each cell as often as the range did, and the
      remaining ones are well formed. */
  ghost predicate Partitions(r: Range, p: Pieces, c: Cell) {
    && Once(r, c) == Once(p.taken, c) + Count(p.rest, c)
    && forall i :: 0 <= i < |p.rest| ==> p.rest[i].Valid()
  }

  /** The 32-bit carry survives a step of n addresses from the start of the range. */
  predicate CarryFits(r: Range, n: nat) {
    n + r.lo % 256 < TWO32
  }

  lemma IncExact(r: Range, n: nat)
    requires r.Valid() && CarryFits(r, n) && r.lo + n <= r.hi
    ensures Inc(r.size, r.lo, n) == r.lo + n
  {
  }

  lemma CountOne(r: Range, c: Cell)
    ensures Count([r], c) == Once(r, c)
  {
    assert [r][1..] == [];
  }

  /** The ports asked for lie inside the range. */
  predicate PortsFit(r: Range, skipPort: int, nPorts: int) {
    0 <= skipPort && nPorts >= 1 && r.minPort + skipPort + nPorts - 1 <= r.maxPort
  }

  /** The box that a split is meant to cut out. */
  function Box(r: Range, skipAddr: nat, skipPort: int, nPorts: int): Range {
    Range(r.size, r.lo + skipAddr, r.lo + skipAddr,
          r.minPort + skipPort, r.minPort + skipPort + nPorts - 1, r.ttl)
  }

  lemma SkipAddressesPartitions(r: Range, skip: nat, c: Cell)
    requires r.Valid() && r.lo + skip <= r.hi && CarryFits(r, skip)
    ensures SkipAddresses(r, skip).taken == r.(lo := r.lo + skip)
    ensures Partitions(r, SkipAddresses(r, skip), c)
  {
    if skip > 0 {
      IncExact(r, skip);
      IncExact(r, skip - 1);
      CountOne(r.(hi := r.lo + skip - 1), c);
    }
  }

  lemma KeepFirstAddressPartitions(r: Range, c: Cell)
    requires r.Valid()
    ensures KeepFirstAddress(r).taken == r.(hi := r.lo)
    ensures Partitions(r, KeepFirstAddress(r), c)
  {
    if r.lo < r.hi {
      IncExact(r, 1);
      CountOne(r.(lo := r.lo + 1), c);
    }
  }

  lemma SkipPortsPartitions(r: Range, skip: int, c: Cell)
    requires r.Valid() && 0 <= skip && r.minPort + skip <= r.maxPort
    ensures SkipPorts(r, skip).taken == r.(minPort := r.minPort + skip)
    ensures Partitions(r, SkipPorts(r, skip), c)
  {
    CountOne(r.(maxPort := U16(r.minPort + skip - 1)), c);
  }

  lemma KeepPortsPartitions(r: Range, n: int, c: Cell)
    requires r.Valid() && 1 <= n && r.minPort + n - 1 <= r.maxPort
    ensures KeepPorts(r, n).taken == r.(maxPort := r.minPort + n - 1)
    ensures Partitions(r, KeepPorts(r, n), c)
  {
    CountOne(r.(minPort := U16(r.minPort + n)), c);
  }

  lemma ThenPartitions(r: Range, a: Pieces, b: Pieces, c: Cell)
    requires Partitions(r, a, c) && Partitions(a.taken, b, c)
    ensures Partitions(r, Then(a, b), c)
  {
    CountAppend(b.rest, a.rest, c);
  }

  lemma OneAddressPartitions(r: Range, skip: nat, c: Cell)
    requires r.Valid() && r.lo + skip <= r.hi && CarryFits(r, skip)
    ensures OneAddress(r, skip).taken == r.(lo := r.lo + skip, hi := r.lo + skip)
    ensures Partitions(r, OneAddress(r, skip), c)
  {
    SkipAddressesPartitions(r, skip, c);
    var a := SkipAddresses(r, skip);
    KeepFirstAddressPartitions(a.taken, c);
    ThenPartitions(r, a, KeepFirstAddress(a.taken), c);
  }

  lemma SomePortsPartitions(r: Range, skipPort: int, nPorts: int, c: Cell)
    requires r.Valid() && PortsFit(r, skipPort, nPorts)
    ensures SomePorts(r, skipPort, nPorts).taken
            == r.(minPort := r.minPort + skipPort, maxPort := r.minPort + skipPort + nPorts - 1)
    ensures Partitions(r, SomePorts(r, skipPort, nPorts), c)
  {
    SkipPortsPartitions(r, skipPort, c);
    var a := SkipPorts(r, skipPort);
    KeepPortsPartitions(a.taken, nPorts, c);
    ThenPartitions(r, a, KeepPorts(a.taken, nPorts), c);
  }

  /** split_range partitions: the box asked for and the remaining boxes cover every
      cell exactly as often as the range did, and all are well formed. */
  lemma SplitPartitions(r: Range, skipAddr: nat, skipPort: int, nPorts: int, c: Cell)
    requires r.Valid() && PortsFit(r, skipPort, nPorts)
    requires r.lo + skipAddr <= r.hi && CarryFits(r, skipAddr)
    ensures Split(r, skipAddr, skipPort, nPorts).taken == Box(r, skipAddr, skipPort, nPorts)
    ensures Partitions(r, Split(r, skipAddr, skipPort, nPorts), c)
  {
    OneAddressPartitions(r, skipAddr, c);
    var a := OneAddress(r, skipAddr);
    SomePortsPartitions(a.taken, skipPort, nPorts, c);
    ThenPartitions(r, a, SomePorts(a.taken, skipPort, nPorts), c);
  }
}
