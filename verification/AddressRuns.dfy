/** What the address pool promises: nothing is lost or handed out twice. */
module AddressRuns {
  import opened Machine
  import opened Wrappers
  import opened BigEndian
  import opened AddressRanges

  // ---------- taking a box out of a free range ----------

  lemma TakeTotal(s: State, i: nat, p: Pieces, c: Cell)
    requires i < |s.free|
    ensures Count(Take(s, i, p).free, c) + Once(s.free[i], c) == Count(s.free, c) + Count(p.rest, c)
    ensures Count(Take(s, i, p).used, c) == Count(s.used, c) + Once(p.taken, c)
  {
    CountWithout(s.free, i, c);
    CountAppend(p.rest, Without(s.free, i), c);
    CountAppend([p.taken], s.used, c);
    CountOne(p.taken, c);
  }

  lemma TakeConserves(s: State, i: nat, p: Pieces, c: Cell)
    requires s.Valid() && i < |s.free| && p.taken.Valid() && Partitions(s.free[i], p, c)
    ensures Take(s, i, p).Valid()
    ensures Take(s, i, p).Total(c) == s.Total(c)
    ensures Count(Take(s, i, p).free, c) + Once(p.taken, c) == Count(s.free, c)
  {
    TakeTotal(s, i, p, c);
  }

  // ---------- acquire ----------

  /** A range offers n consecutive ports, starting at p, for the flags. */
  ghost predicate OffersAt(r: Range, flags: Flags, nPorts: int, p: int) {
    && r.minPort <= p && p + nPorts - 1 <= r.maxPort
    && (flags.evenPort ==> p % 2 == 0)
  }

  ghost predicate RightKind(r: Range, flags: Flags) {
    && (flags.ipv4 ==> r.size == 4)
    && (flags.ipv6 ==> r.size == 16)
    && (flags.multicast ==> r.ttl != 0)
    && (flags.unicast ==> r.ttl == 0)
  }

  ghost predicate Offers(r: Range, flags: Flags, nPorts: int) {
    RightKind(r, flags) && exists p :: OffersAt(r, flags, nPorts, p)
  }

  lemma SuitsMeansOffers(r: Range, flags: Flags, nPorts: int)
    requires r.Valid() && nPorts > 0
    ensures Suits(r, flags, nPorts) <==> Offers(r, flags, nPorts)
  {
    var first := r.minPort + PortSkip(r, flags);
    if Suits(r, flags, nPorts) {
      assert OffersAt(r, flags, nPorts, first);
    }
  }

  /** Acquire fails exactly when no single free range offers what was asked. */
  lemma AcquireComplete(s: State, flags: Flags, nPorts: int)
    requires s.Valid() && nPorts > 0
    ensures Acquire(s, flags, nPorts).1.None?
            <==> forall i :: 0 <= i < |s.free| ==> !Offers(s.free[i], flags, nPorts)
    ensures Acquire(s, flags, nPorts).1.None? ==> Acquire(s, flags, nPorts).0 == s
  {
    forall i | 0 <= i < |s.free|
      ensures Suits(s.free[i], flags, nPorts) <==> Offers(s.free[i], flags, nPorts)
    {
      SuitsMeansOffers(s.free[i], flags, nPorts);
    }
  }

  lemma SuitableCut(r: Range, flags: Flags, nPorts: int, c: Cell)
    requires r.Valid() && nPorts > 0 && Suits(r, flags, nPorts)
    ensures var p := Split(r, 0, PortSkip(r, flags), nPorts);
            && p.taken == Box(r, 0, PortSkip(r, flags), nPorts)
            && Partitions(r, p, c)
    ensures var got := Box(r, 0, PortSkip(r, flags), nPorts);
            got.Valid() && RightKind(got, flags) && (flags.evenPort ==> got.minPort % 2 == 0)
  {
    SplitPartitions(r, 0, PortSkip(r, flags), nPorts, c);
  }

  /** What acquire hands out: one address, exactly n ports, every flag respected, all of
      it free before, allocated now, and nothing else moved. */
  lemma AcquireSound(s: State, flags: Flags, nPorts: int, c: Cell)
    requires s.Valid()
    requires Acquire(s, flags, nPorts).1.Some?
    ensures var (s', got) := Acquire(s, flags, nPorts);
            var r := got.value;
            && r.Valid() && r.lo == r.hi && r.maxPort == r.minPort + nPorts - 1
            && RightKind(r, flags) && (flags.evenPort ==> r.minPort % 2 == 0)
            && s'.Valid() && s'.used == [r] + s.used
            && Count(s.free, c) == Count(s'.free, c) + Once(r, c)
  {
    var i := FirstSuitable(s.free, flags, nPorts);
    SuitableCut(s.free[i], flags, nPorts, c);
    TakeConserves(s, i, Split(s.free[i], 0, PortSkip(s.free[i], flags), nPorts), c);
  }

  /** Releasing what was just acquired makes the same cells free again. */
  lemma AcquireThenRelease(s: State, flags: Flags, nPorts: int, c: Cell)
    requires s.Valid()
    requires Acquire(s, flags, nPorts).1.Some?
    ensures var s' := Release(Acquire(s, flags, nPorts).0, 0);
            s'.used == s.used && Count(s'.free, c) == Count(s.free, c)
  {
    AcquireSound(s, flags, nPorts, c);
    var (s1, got) := Acquire(s, flags, nPorts);
    CountAppend([got.value], s1.free, c);
    CountOne(got.value, c);
  }

  /** Releasing the k-th allocation, whichever it is: it leaves the allocated ranges, the
      others stay in their order, and exactly its cells are free once more. */
  lemma ReleaseFrees(s: State, k: nat, c: Cell)
    requires k < |s.used|
    ensures var s' := Release(s, k);
            && s'.used == s.used[..k] + s.used[k + 1..]
            && s'.free == [s.used[k]] + s.free
            && Count(s'.free, c) == Count(s.free, c) + Once(s.used[k], c)
            && Count(s.used, c) == Count(s'.used, c) + Once(s.used[k], c)
  {
    CountAppend([s.used[k]], s.free, c);
    CountOne(s.used[k], c);
    CountWithout(s.used, k, c);
  }

  /** Releasing an older allocation leaves the newer one allocated, and the address can be
      acquired again. */
  lemma OlderIsReleased(s: State, a: Range, b: Range, flags: Flags, nPorts: int)
    requires s.used == [b, a] && nPorts > 0 && Suits(a, flags, nPorts)
    ensures Release(s, 1).used == [b]
    ensures Acquire(Release(s, 1), flags, nPorts).1.Some?
  {
    assert s.used[..1] + s.used[2..] == [b];
    assert Release(s, 1).free[0] == a;
  }

  // ---------- reserve ----------

  /** A request that reaches the free list: positive, parsed, and of the right cast. */
  predicate WellFormed(ip: Option<Inet>, port: nat, nPorts: nat, ttl: nat) {
    port > 0 && nPorts > 0 && ip.Some? && ip.value.multicast == (ttl != 0)
  }

  /** The port arguments are unsigned 32-bit integers. */
  predicate Args(port: nat, nPorts: nat) {
    port < TWO32 && nPorts < TWO32
  }

  /** The last port asked for does not wrap around 32 bits. */
  predicate NoPortWrap(port: nat, nPorts: nat) {
    port + nPorts - 1 < TWO32
  }

  /** The last port as the code computes it. */
  function LastPort(port: nat, nPorts: nat): nat
    requires nPorts > 0
  {
    (port + nPorts - 1) % TWO32
  }

  /** The last port does not wrap to the number of a port. */
  predicate NoFalsePort(port: nat, nPorts: nat) {
    NoPortWrap(port, nPorts) || (nPorts > 0 && LastPort(port, nPorts) >= 65536)
  }

  /** The box a reservation asks for, and a range that contains all of it. */
  ghost predicate Holds(r: Range, ip: Inet, port: nat, nPorts: nat, ttl: nat) {
    forall c: Cell ::
      c.size == ip.size && c.addr == ip.addr && port <= c.port < port + nPorts && c.ttl == ttl
      ==> r.Covers(c)
  }

  ghost predicate SomeHolds(rs: seq<Range>, ip: Inet, port: nat, nPorts: nat, ttl: nat) {
    exists i :: 0 <= i < |rs| && Holds(rs[i], ip, port, nPorts, ttl)
  }

  /** No range holds a box whose ports wrap, or one with a ttl of more than eight bits. */
  lemma NothingHolds(r: Range, ip: Inet, port: nat, nPorts: nat, ttl: nat)
    requires r.Valid() && nPorts > 0 && (!NoPortWrap(port, nPorts) || ttl >= 256)
    ensures !Holds(r, ip, port, nPorts, ttl)
  {
    assert !r.Covers(Cell(ip.size, ip.addr, port + nPorts - 1, ttl));
  }

  lemma ContainsMeansHolds(r: Range, ip: Inet, port: nat, nPorts: nat, ttl: nat)
    requires r.Valid() && nPorts > 0 && (NoFalsePort(port, nPorts) || ttl >= 256)
    ensures Contains(r, ip.size, ip.addr, port, nPorts, ttl) <==> Holds(r, ip, port, nPorts, ttl)
  {
    if !NoPortWrap(port, nPorts) || ttl >= 256 {
      NothingHolds(r, ip, port, nPorts, ttl);
    } else if Holds(r, ip, port, nPorts, ttl) {
      assert r.Covers(Cell(ip.size, ip.addr, port, ttl));
      assert r.Covers(Cell(ip.size, ip.addr, port + nPorts - 1, ttl));
    }
  }

  lemma FindMeansSomeHolds(rs: seq<Range>, ip: Inet, port: nat, nPorts: nat, ttl: nat)
    requires forall i :: 0 <= i < |rs| ==> rs[i].Valid()
    requires nPorts > 0 && (NoFalsePort(port, nPorts) || ttl >= 256)
    ensures Find(rs, ip.size, ip.addr, port, nPorts, ttl) < |rs| <==> SomeHolds(rs, ip, port, nPorts, ttl)
  {
    forall i | 0 <= i < |rs|
      ensures Contains(rs[i], ip.size, ip.addr, port, nPorts, ttl)
              <==> Holds(rs[i], ip, port, nPorts, ttl)
    {
      ContainsMeansHolds(rs[i], ip, port, nPorts, ttl);
    }
  }

  /** The answer that reserve should give: taken exactly when some free range holds all of
      the box, in use exactly when only an allocated one does. */
  ghost predicate RightAnswer(s: State, ip: Option<Inet>, port: nat, nPorts: nat, ttl: nat) {
    var answer := Reserve(s, ip, port, nPorts, ttl).1;
    && (answer.Invalid? <==> !WellFormed(ip, port, nPorts, ttl))
    && (WellFormed(ip, port, nPorts, ttl) ==>
          var free := SomeHolds(s.free, ip.value, port, nPorts, ttl);
          var used := SomeHolds(s.used, ip.value, port, nPorts, ttl);
          && (answer.Taken? <==> free)
          && (answer.InUse? <==> !free && used)
          && (answer.NotInPool? <==> !free && !used))
  }

  lemma ReserveAnswer(s: State, ip: Option<Inet>, port: nat, nPorts: nat, ttl: nat)
    requires s.Valid() && (!WellFormed(ip, port, nPorts, ttl) || NoFalsePort(port, nPorts) || ttl >= 256)
    ensures RightAnswer(s, ip, port, nPorts, ttl)
  {
    if WellFormed(ip, port, nPorts, ttl) {
      FindMeansSomeHolds(s.free, ip.value, port, nPorts, ttl);
      FindMeansSomeHolds(s.used, ip.value, port, nPorts, ttl);
    }
  }

  /** For a request that wraps, every answer but "not in the pool" is wrong. */
  lemma WrappedAnswer(s: State, ip: Option<Inet>, port: nat, nPorts: nat, ttl: nat)
    requires s.Valid() && WellFormed(ip, port, nPorts, ttl) && !NoPortWrap(port, nPorts)
    ensures RightAnswer(s, ip, port, nPorts, ttl) <==> Reserve(s, ip, port, nPorts, ttl).1.NotInPool?
  {
    forall i | 0 <= i < |s.free| ensures !Holds(s.free[i], ip.value, port, nPorts, ttl) {
      NothingHolds(s.free[i], ip.value, port, nPorts, ttl);
    }
    forall i | 0 <= i < |s.used| ensures !Holds(s.used[i], ip.value, port, nPorts, ttl) {
      NothingHolds(s.used[i], ip.value, port, nPorts, ttl);
    }
  }

  /** A parsed address is a number of its family. */
  predicate Parsed(ip: Inet) {
    ip.size in {4, 16} && ip.addr < Pow256(ip.size)
  }

  /** Over all 32-bit arguments: the answer is right for every pool if and only if the
      request is refused anyway, its last port does not wrap to the number of a port, or its
      ttl is one that no range has. */
  lemma ReserveRightIff(ip: Option<Inet>, port: nat, nPorts: nat, ttl: nat)
    requires Args(port, nPorts) && (ip.Some? ==> Parsed(ip.value))
    ensures (forall s: State :: s.Valid() ==> RightAnswer(s, ip, port, nPorts, ttl))
            <==> !WellFormed(ip, port, nPorts, ttl) || NoFalsePort(port, nPorts) || ttl >= 256
  {
    if !WellFormed(ip, port, nPorts, ttl) || NoFalsePort(port, nPorts) || ttl >= 256 {
      forall s: State | s.Valid() ensures RightAnswer(s, ip, port, nPorts, ttl) {
        ReserveAnswer(s, ip, port, nPorts, ttl);
      }
    } else {
      var r := Range(ip.value.size, ip.value.addr, ip.value.addr, 0, 65535, ttl);
      var s := State([r], []);
      assert Contains(r, ip.value.size, ip.value.addr, port, nPorts, ttl);
      WrappedAnswer(s, ip, port, nPorts, ttl);
      assert s.Valid() && Reserve(s, ip, port, nPorts, ttl).1.Taken?;
    }
  }

  /** The free range that a successful reservation cuts. */
  function Chosen(s: State, ip: Inet, port: nat, nPorts: nat, ttl: nat): (r: Range)
    requires Find(s.free, ip.size, ip.addr, port, nPorts, ttl) < |s.free|
    ensures Contains(r, ip.size, ip.addr, port, nPorts, ttl)
  {
    s.free[Find(s.free, ip.size, ip.addr, port, nPorts, ttl)]
  }

  /** The address and the start of its range agree, up to 2^24, before the last byte. */
  predicate Near(r: Range, addr: nat)
    requires r.lo <= addr
  {
    addr / 256 - r.lo / 256 < U24
  }

  /** The pieces into which a reservation cuts its range. */
  function Cut(r: Range, addr: nat, port: nat, nPorts: nat): Pieces {
    Split(r, Diff(r.size, addr, r.lo), port - r.minPort, Int32(nPorts))
  }

  /** What find accepted. */
  predicate Accepted(r: Range, addr: nat, port: nat, nPorts: nat) {
    && r.Valid() && r.lo <= addr <= r.hi && Args(port, nPorts) && nPorts > 0
    && port >= r.minPort && LastPort(port, nPorts) <= r.maxPort
  }

  /** The ports of an accepted request that does not wrap fit. */
  lemma AcceptedFits(r: Range, addr: nat, port: nat, nPorts: nat)
    requires Accepted(r, addr, port, nPorts) && NoPortWrap(port, nPorts)
    ensures PortsFit(r, port - r.minPort, nPorts) && Int32(nPorts) == nPorts
  {
  }

  lemma FoundIsAccepted(r: Range, ip: Inet, port: nat, nPorts: nat, ttl: nat)
    requires r.Valid() && Args(port, nPorts) && nPorts > 0 && Contains(r, ip.size, ip.addr, port, nPorts, ttl)
    ensures Accepted(r, ip.addr, port, nPorts) && r.size == ip.size && r.ttl == ttl
  {
  }

  /** A successful reservation is one cut of the chosen range. */
  lemma ReserveTakes(s: State, ip: Inet, port: nat, nPorts: nat, ttl: nat)
    requires s.Valid() && Args(port, nPorts) && Reserve(s, Some(ip), port, nPorts, ttl).1.Taken?
    ensures Find(s.free, ip.size, ip.addr, port, nPorts, ttl) < |s.free|
    ensures var i := Find(s.free, ip.size, ip.addr, port, nPorts, ttl);
            var p := Cut(s.free[i], ip.addr, port, nPorts);
            && Reserve(s, Some(ip), port, nPorts, ttl) == (Take(s, i, p), Taken(p.taken))
            && Accepted(s.free[i], ip.addr, port, nPorts)
            && s.free[i].size == ip.size && s.free[i].ttl == ttl
  {
    var i := Find(s.free, ip.size, ip.addr, port, nPorts, ttl);
    assert i < |s.free|;
    FoundIsAccepted(s.free[i], ip, port, nPorts, ttl);
  }

  /** Cutting ports leaves the rest of a range alone, and its last port a port. */
  lemma SomePortsShape(r: Range, skip: int, n: int)
    requires r.Valid()
    ensures var t := SomePorts(r, skip, n).taken;
            t == r.(minPort := t.minPort, maxPort := t.maxPort) && t.maxPort < 65536
  {
  }

  lemma OneAddressLands(r: Range, skip: nat, a: nat)
    requires r.Valid() && a == Inc(r.size, r.lo, skip)
    ensures OneAddress(r, skip).taken == r.(lo := a, hi := a)
  {
  }

  /** The box cut out of a range at the address a where the step lands. */
  lemma TakenBox(r: Range, skipAddr: nat, skipPort: int, n: int, a: nat)
    requires r.Valid() && a == Inc(r.size, r.lo, skipAddr) && a <= r.hi
    ensures var t := Split(r, skipAddr, skipPort, n).taken;
            && t == Range(r.size, a, a, t.minPort, t.maxPort, r.ttl) && t.maxPort < 65536
            && (PortsFit(r, skipPort, n) ==> t.minPort == r.minPort + skipPort && t.maxPort == t.minPort + n - 1)
  {
    OneAddressLands(r, skipAddr, a);
    var one := r.(lo := a, hi := a);
    assert Split(r, skipAddr, skipPort, n).taken == SomePorts(one, skipPort, n).taken;
    SomePortsShape(one, skipPort, n);
    if PortsFit(r, skipPort, n) {
      SomePortsPartitions(one, skipPort, n, Cell(0, 0, 0, 0));
    }
  }

  /** Where a reservation's step lands. */
  lemma LandsNear(r: Range, addr: nat, skip: nat)
    requires r.Valid() && r.lo <= addr <= r.hi && skip == Diff(r.size, addr, r.lo)
    ensures Inc(r.size, r.lo, skip) <= r.hi
    ensures Inc(r.size, r.lo, skip) == addr <==> Near(r, addr)
    ensures CarryFits(r, skip) ==> r.lo + skip <= r.hi
    ensures !CarryFits(r, skip) ==> Inc(r.size, r.lo, skip) < r.lo
  {
    StepFromStart(r.size, r.lo, addr);
  }

  lemma CutExact(r: Range, addr: nat, port: nat, nPorts: nat)
    requires Accepted(r, addr, port, nPorts)
    ensures var got := Cut(r, addr, port, nPorts).taken;
            && got == Range(r.size, got.lo, got.lo, got.minPort, got.maxPort, r.ttl)
            && (got.lo == addr <==> Near(r, addr))
            && (got.minPort == port && got.maxPort == port + nPorts - 1 <==> NoPortWrap(port, nPorts))
  {
    var skip := Diff(r.size, addr, r.lo);
    LandsNear(r, addr, skip);
    assert Cut(r, addr, port, nPorts) == Split(r, skip, port - r.minPort, Int32(nPorts));
    SplitExact(r, skip, port, nPorts, Inc(r.size, r.lo, skip));
  }

  lemma SplitExact(r: Range, skip: nat, port: nat, nPorts: nat, a: nat)
    requires Accepted(r, r.lo, port, nPorts) && a == Inc(r.size, r.lo, skip) && a <= r.hi
    ensures var got := Split(r, skip, port - r.minPort, Int32(nPorts)).taken;
            && got == Range(r.size, a, a, got.minPort, got.maxPort, r.ttl)
            && (got.minPort == port && got.maxPort == port + nPorts - 1 <==> NoPortWrap(port, nPorts))
  {
    if NoPortWrap(port, nPorts) {
      AcceptedFits(r, r.lo, port, nPorts);
    }
    TakenBox(r, skip, port - r.minPort, Int32(nPorts), a);
  }

  /** A successful reservation holds precisely the requested ports if and only if they do not
      wrap, and precisely the requested address if and only if that address is near the
      start of its range. */
  lemma ReserveExact(s: State, ip: Inet, port: nat, nPorts: nat, ttl: nat)
    requires s.Valid() && Args(port, nPorts) && Reserve(s, Some(ip), port, nPorts, ttl).1.Taken?
    ensures var (s', answer) := Reserve(s, Some(ip), port, nPorts, ttl);
            var got := answer.range;
            && got == Range(ip.size, got.lo, got.lo, got.minPort, got.maxPort, ttl)
            && (got.lo == ip.addr <==> Near(Chosen(s, ip, port, nPorts, ttl), ip.addr))
            && (got.minPort == port && got.maxPort == port + nPorts - 1 <==> NoPortWrap(port, nPorts))
            && s'.used == [got] + s.used
  {
    ReserveTakes(s, ip, port, nPorts, ttl);
    CutExact(Chosen(s, ip, port, nPorts, ttl), ip.addr, port, nPorts);
  }

  // ---------- what a reservation conserves ----------

  /** What the pieces of a cut cover of a cell. */
  function CutCount(p: Pieces, c: Cell): nat {
    Once(p.taken, c) + Count(p.rest, c)
  }

  function In(x: int, lo: int, hi: int): nat {
    if lo <= x <= hi then 1 else 0
  }

  /** How often the ports a to b, cut at a skip, cover the port x: the skipped ones, those
      taken, those behind. */
  function PortSum(a: int, b: int, skip: int, n: int, x: int): nat {
    var q := if skip > 0 then U16(a + skip) else a;
    (if skip > 0 then In(x, a, U16(a + skip - 1)) else 0)
    + if b - q + 1 > n then In(x, q, U16(q + n - 1)) + In(x, U16(q + n), b) else In(x, q, b)
  }

  /** The cell lies at the addresses of the range. */
  predicate Beside(r: Range, c: Cell) {
    r.size == c.size && r.lo <= c.addr <= r.hi && r.ttl == c.ttl
  }

  lemma PortCutCount(r: Range, skip: int, n: int, c: Cell)
    ensures CutCount(SomePorts(r, skip, n), c)
            == if Beside(r, c) then PortSum(r.minPort, r.maxPort, skip, n, c.port) else 0
    ensures Once(r, c) == if Beside(r, c) then In(c.port, r.minPort, r.maxPort) else 0
  {
    var a := SkipPorts(r, skip);
    var b := KeepPorts(a.taken, n);
    CountAppend(b.rest, a.rest, c);
    if skip > 0 { CountOne(a.rest[0], c); }
    if b.rest != [] { CountOne(b.rest[0], c); }
  }

  /** When a request wraps to the last port e, its first port in 16 bits decides what the
      pieces cover. */
  predicate WrapKeepsPorts(r: Range, port: nat, nPorts: nat)
    requires nPorts > 0
  {
    var q, e := port % 65536, LastPort(port, nPorts);
    && port > r.minPort && 1 <= q && r.minPort <= q
    && if r.maxPort - q + 1 > Int32(nPorts) then q <= e + 1 <= 65535 else q <= r.maxPort + 1
  }

  /** The ports of the range are covered as before. */
  predicate KeepsPorts(r: Range, port: nat, nPorts: nat)
    requires nPorts > 0
  {
    NoPortWrap(port, nPorts) || WrapKeepsPorts(r, port, nPorts)
  }

  lemma Mod16(x: int, m: int)
    ensures U16(x + 65536 * m) == U16(x)
  {
  }

  /** The same count in 16 bits, whether it is taken as an int or not. */
  lemma WrappedEnd(q: int, e: int, k: int, nPorts: nat)
    requires q + 65536 * k + nPorts == TWO32 + e + 1 && nPorts < TWO32
    ensures U16(q + Int32(nPorts)) == U16(e + 1) && U16(q + Int32(nPorts) - 1) == U16(e)
  {
    var m := if nPorts < 0x8000_0000 then 65536 - k else -k;
    assert q + Int32(nPorts) == e + 1 + 65536 * m;
    Mod16(e + 1, m);
    Mod16(e, m);
  }

  /** In 16 bits the first port behind a wrapped request is the one behind its last port. */
  lemma WrappedNumbers(r: Range, addr: nat, port: nat, nPorts: nat)
    requires Accepted(r, addr, port, nPorts) && !NoPortWrap(port, nPorts)
    ensures var q, e, n := port % 65536, LastPort(port, nPorts), Int32(nPorts);
            && port + nPorts == TWO32 + e + 1 && port >= e + 2
            && U16(port) == q && U16(port - 1) == (if q == 0 then 65535 else q - 1)
            && U16(q + n) == U16(e + 1) && U16(q + n - 1) == e
            && (port == r.minPort ==> q == port && n == e + 1 - port)
  {
    WrappedArithmetic(port, nPorts, LastPort(port, nPorts));
  }

  lemma WrappedArithmetic(port: nat, nPorts: nat, e: nat)
    requires port + nPorts == TWO32 + e + 1 && e < 65536 && Args(port, nPorts)
    ensures var q, n := port % 65536, Int32(nPorts);
            && U16(port) == q && U16(port - 1) == (if q == 0 then 65535 else q - 1)
            && U16(q + n) == U16(e + 1) && U16(q + n - 1) == e
            && (port < 65536 ==> q == port && n == e + 1 - port)
  {
    var k, q := port / 65536, port % 65536;
    assert port == q + 65536 * k;
    Mod16(q - 1, k);
    WrappedEnd(q, e, k, nPorts);
  }

  lemma WrappedKeepsPort(r: Range, addr: nat, port: nat, nPorts: nat, x: int)
    requires Accepted(r, addr, port, nPorts) && !NoPortWrap(port, nPorts) && WrapKeepsPorts(r, port, nPorts)
    ensures PortSum(r.minPort, r.maxPort, port - r.minPort, Int32(nPorts), x) == In(x, r.minPort, r.maxPort)
  {
    WrappedNumbers(r, addr, port, nPorts);
  }

  lemma WrappedKeepsCell(r: Range, addr: nat, port: nat, nPorts: nat, c: Cell)
    requires Accepted(r, addr, port, nPorts) && !NoPortWrap(port, nPorts) && WrapKeepsPorts(r, port, nPorts)
    ensures CutCount(SomePorts(r, port - r.minPort, Int32(nPorts)), c) == Once(r, c)
  {
    WrappedKeepsPort(r, addr, port, nPorts, c.port);
    PortCutCount(r, port - r.minPort, Int32(nPorts), c);
  }

  /** A port at which a wrapped request that does not keep the ports changes the count. */
  function ChangedPort(r: Range, port: nat, nPorts: nat): int
    requires nPorts > 0
  {
    var q, e, a, b := port % 65536, LastPort(port, nPorts), r.minPort, r.maxPort;
    if port == a then a - 1
    else if q == 0 then a
    else if b - q + 1 <= Int32(nPorts) then (if q < a then q else b + 1)
    else if e == 65535 then 0
    else if q < a && q <= e then q
    else e + 1
  }

  lemma WrappedChangesPort(r: Range, addr: nat, port: nat, nPorts: nat, x: int)
    requires Accepted(r, addr, port, nPorts) && !NoPortWrap(port, nPorts) && !WrapKeepsPorts(r, port, nPorts)
    requires x == ChangedPort(r, port, nPorts)
    ensures PortSum(r.minPort, r.maxPort, port - r.minPort, Int32(nPorts), x) > In(x, r.minPort, r.maxPort)
  {
    WrappedNumbers(r, addr, port, nPorts);
  }

  lemma WrappedChangesCell(r: Range, addr: nat, port: nat, nPorts: nat)
    requires Accepted(r, addr, port, nPorts) && !NoPortWrap(port, nPorts) && !WrapKeepsPorts(r, port, nPorts)
    ensures var c := Cell(r.size, r.lo, ChangedPort(r, port, nPorts), r.ttl);
            CutCount(SomePorts(r, port - r.minPort, Int32(nPorts)), c) > Once(r, c)
  {
    var x := ChangedPort(r, port, nPorts);
    WrappedChangesPort(r, addr, port, nPorts, x);
    PortCutCount(r, port - r.minPort, Int32(nPorts), Cell(r.size, r.lo, x, r.ttl));
  }

  /** Whatever is asked of a range with ports, its first port stays covered. */
  lemma FirstPortSum(r: Range, addr: nat, port: nat, nPorts: nat)
    requires Accepted(r, addr, port, nPorts) && !r.Empty()
    ensures PortSum(r.minPort, r.maxPort, port - r.minPort, Int32(nPorts), r.minPort) >= 1
  {
    if port == r.minPort {
      TakenFirstPort(r, addr, port, nPorts);
    } else if NoPortWrap(port, nPorts) {
      assert U16(port - 1) == port - 1;
    } else {
      WrappedNumbers(r, addr, port, nPorts);
    }
  }

  lemma TakenFirstPort(r: Range, addr: nat, port: nat, nPorts: nat)
    requires Accepted(r, addr, port, nPorts) && !r.Empty() && port == r.minPort
    ensures PortSum(r.minPort, r.maxPort, 0, Int32(nPorts), r.minPort) >= 1
  {
    if NoPortWrap(port, nPorts) {
      AcceptedFits(r, addr, port, nPorts);
    } else {
      WrappedNumbers(r, addr, port, nPorts);
    }
  }

  lemma FirstPortCovered(r: Range, addr: nat, port: nat, nPorts: nat)
    requires Accepted(r, addr, port, nPorts) && !r.Empty()
    ensures CutCount(SomePorts(r, port - r.minPort, Int32(nPorts)), Cell(r.size, r.lo, r.minPort, r.ttl)) >= 1
  {
    FirstPortSum(r, addr, port, nPorts);
    PortCutCount(r, port - r.minPort, Int32(nPorts), Cell(r.size, r.lo, r.minPort, r.ttl));
  }

  /** The pieces of the addresses and the pieces of the ports together. */
  lemma SplitCounts(r: Range, skip: nat, skipPort: int, n: int, c: Cell)
    ensures var a := OneAddress(r, skip);
            CutCount(Split(r, skip, skipPort, n), c) == CutCount(SomePorts(a.taken, skipPort, n), c) + Count(a.rest, c)
  {
    var a := OneAddress(r, skip);
    CountAppend(SomePorts(a.taken, skipPort, n).rest, a.rest, c);
  }

  /** The step to the address and the cut of the ports cover every cell as before. */
  predicate Keeps(r: Range, addr: nat, port: nat, nPorts: nat)
    requires nPorts > 0
  {
    (r.Empty() || CarryFits(r, Diff(r.size, addr, r.lo))) && KeepsPorts(r, port, nPorts)
  }

  /** When the carry fits, the cut changes the count of a cell as the cut of the ports does
      at the one address. */
  lemma SplitChange(r: Range, skip: nat, skipPort: int, n: int, c: Cell, one: Range)
    requires r.Valid() && r.lo + skip <= r.hi && CarryFits(r, skip)
    requires one == r.(lo := r.lo + skip, hi := r.lo + skip)
    ensures CutCount(Split(r, skip, skipPort, n), c) - Once(r, c)
            == CutCount(SomePorts(one, skipPort, n), c) - Once(one, c)
  {
    OneAddressPartitions(r, skip, c);
    SplitCounts(r, skip, skipPort, n, c);
  }

  lemma SplitMore(r: Range, skip: nat, skipPort: int, n: int, c: Cell, one: Range)
    requires r.Valid() && r.lo + skip <= r.hi && CarryFits(r, skip)
    requires one == r.(lo := r.lo + skip, hi := r.lo + skip)
    requires CutCount(SomePorts(one, skipPort, n), c) > Once(one, c)
    ensures CutCount(Split(r, skip, skipPort, n), c) > Once(r, c)
  {
    SplitChange(r, skip, skipPort, n, c, one);
  }

  lemma PortsKept(one: Range, port: nat, nPorts: nat, c: Cell)
    requires Accepted(one, one.lo, port, nPorts) && KeepsPorts(one, port, nPorts)
    ensures CutCount(SomePorts(one, port - one.minPort, Int32(nPorts)), c) == Once(one, c)
  {
    if NoPortWrap(port, nPorts) {
      AcceptedFits(one, one.lo, port, nPorts);
      SomePortsPartitions(one, port - one.minPort, nPorts, c);
    } else {
      WrappedKeepsCell(one, one.lo, port, nPorts, c);
    }
  }

  lemma SplitKeepsCell(r: Range, skip: nat, port: nat, nPorts: nat, c: Cell)
    requires Accepted(r, r.lo, port, nPorts) && KeepsPorts(r, port, nPorts)
    requires r.lo + skip <= r.hi && CarryFits(r, skip)
    ensures CutCount(Split(r, skip, port - r.minPort, Int32(nPorts)), c) == Once(r, c)
  {
    var one := r.(lo := r.lo + skip, hi := r.lo + skip);
    SplitChange(r, skip, port - r.minPort, Int32(nPorts), c, one);
    PortsKept(one, port, nPorts, c);
  }

  /** The pieces of the addresses of an empty range are empty. */
  lemma EmptyPieces(r: Range, skip: nat, c: Cell)
    requires r.Empty()
    ensures Count(OneAddress(r, skip).rest, c) == 0 && Once(r, c) == 0
  {
    var a := SkipAddresses(r, skip);
    var b := KeepFirstAddress(a.taken);
    CountAppend(b.rest, a.rest, c);
    if a.rest != [] { CountOne(a.rest[0], c); }
    if b.rest != [] { CountOne(b.rest[0], c); }
  }

  /** A cut of an empty range covers a cell as the cut of the ports does where it lands. */
  lemma EmptyCut(r: Range, skip: nat, skipPort: int, n: int, c: Cell)
    requires r.Empty()
    ensures CutCount(Split(r, skip, skipPort, n), c) == CutCount(SomePorts(OneAddress(r, skip).taken, skipPort, n), c)
  {
    SplitCounts(r, skip, skipPort, n, c);
    EmptyPieces(r, skip, c);
  }

  /** A range with the same ports, at the address where the step lands, accepts the same. */
  lemma LandedAccepts(r: Range, addr: nat, port: nat, nPorts: nat, one: Range)
    requires Accepted(r, addr, port, nPorts) && one == OneAddress(r, Diff(r.size, addr, r.lo)).taken
    ensures one == r.(lo := one.lo, hi := one.lo) && one.lo <= r.hi && Accepted(one, one.lo, port, nPorts)
  {
    var skip := Diff(r.size, addr, r.lo);
    LandsNear(r, addr, skip);
    OneAddressLands(r, skip, Inc(r.size, r.lo, skip));
  }

  lemma EmptyKeepsCell(r: Range, addr: nat, port: nat, nPorts: nat, c: Cell)
    requires Accepted(r, addr, port, nPorts) && r.Empty() && KeepsPorts(r, port, nPorts)
    ensures CutCount(Cut(r, addr, port, nPorts), c) == Once(r, c)
  {
    var one := OneAddress(r, Diff(r.size, addr, r.lo)).taken;
    LandedAccepts(r, addr, port, nPorts, one);
    EmptyCut(r, Diff(r.size, addr, r.lo), port - r.minPort, Int32(nPorts), c);
    PortsKept(one, port, nPorts, c);
  }

  lemma CutKeepsCell(r: Range, addr: nat, port: nat, nPorts: nat, c: Cell)
    requires Accepted(r, addr, port, nPorts) && Keeps(r, addr, port, nPorts)
    ensures CutCount(Cut(r, addr, port, nPorts), c) == Once(r, c)
  {
    if r.Empty() {
      EmptyKeepsCell(r, addr, port, nPorts, c);
    } else {
      LandsNear(r, addr, Diff(r.size, addr, r.lo));
      SplitKeepsCell(r, Diff(r.size, addr, r.lo), port, nPorts, c);
    }
  }

  /** A wrapped cut that changes the ports changes them at the address where it lands. */
  lemma PortsAddCell(r: Range, skip: nat, port: nat, nPorts: nat, c: Cell)
    requires Accepted(r, r.lo, port, nPorts) && !KeepsPorts(r, port, nPorts)
    requires r.lo + skip <= r.hi && CarryFits(r, skip)
    requires c == Cell(r.size, r.lo + skip, ChangedPort(r, port, nPorts), r.ttl)
    ensures CutCount(Split(r, skip, port - r.minPort, Int32(nPorts)), c) > Once(r, c)
  {
    var one := r.(lo := c.addr, hi := c.addr);
    WrappedChangesCell(one, c.addr, port, nPorts);
    SplitMore(r, skip, port - r.minPort, Int32(nPorts), c, one);
  }

  /** A lost carry adds a cell in front of the range. */
  lemma LostCarryAddsCell(r: Range, skip: nat, port: nat, nPorts: nat, c: Cell)
    requires Accepted(r, r.lo, port, nPorts) && !r.Empty() && Inc(r.size, r.lo, skip) < r.lo
    requires c == Cell(r.size, Inc(r.size, r.lo, skip), r.minPort, r.ttl)
    ensures CutCount(Split(r, skip, port - r.minPort, Int32(nPorts)), c) > Once(r, c)
  {
    OneAddressLands(r, skip, c.addr);
    SplitCounts(r, skip, port - r.minPort, Int32(nPorts), c);
    FirstPortCovered(r.(lo := c.addr, hi := c.addr), c.addr, port, nPorts);
  }

  lemma EmptyAddsCell(r: Range, addr: nat, port: nat, nPorts: nat, one: Range, c: Cell)
    requires Accepted(r, addr, port, nPorts) && r.Empty() && !KeepsPorts(r, port, nPorts)
    requires one == OneAddress(r, Diff(r.size, addr, r.lo)).taken
    requires c == Cell(r.size, one.lo, ChangedPort(r, port, nPorts), r.ttl)
    ensures CutCount(Cut(r, addr, port, nPorts), c) > Once(r, c)
  {
    LandedAccepts(r, addr, port, nPorts, one);
    EmptyCut(r, Diff(r.size, addr, r.lo), port - r.minPort, Int32(nPorts), c);
    WrappedChangesCell(one, one.lo, port, nPorts);
  }

  /** A cell that a cut which does not keep the cells covers once more than the range. */
  lemma CutAddsCell(r: Range, addr: nat, port: nat, nPorts: nat) returns (c: Cell)
    requires Accepted(r, addr, port, nPorts) && !Keeps(r, addr, port, nPorts)
    ensures CutCount(Cut(r, addr, port, nPorts), c) > Once(r, c)
  {
    var skip := Diff(r.size, addr, r.lo);
    if r.Empty() {
      var one := OneAddress(r, skip).taken;
      c := Cell(r.size, one.lo, ChangedPort(r, port, nPorts), r.ttl);
      EmptyAddsCell(r, addr, port, nPorts, one, c);
    } else {
      LandsNear(r, addr, skip);
      c := FullCutAddsCell(r, skip, port, nPorts);
    }
  }

  lemma FullCutAddsCell(r: Range, skip: nat, port: nat, nPorts: nat) returns (c: Cell)
    requires Accepted(r, r.lo, port, nPorts) && !r.Empty()
    requires if CarryFits(r, skip) then !KeepsPorts(r, port, nPorts) && r.lo + skip <= r.hi
             else Inc(r.size, r.lo, skip) < r.lo
    ensures CutCount(Split(r, skip, port - r.minPort, Int32(nPorts)), c) > Once(r, c)
  {
    if CarryFits(r, skip) {
      c := Cell(r.size, r.lo + skip, ChangedPort(r, port, nPorts), r.ttl);
      PortsAddCell(r, skip, port, nPorts, c);
    } else {
      c := Cell(r.size, Inc(r.size, r.lo, skip), r.minPort, r.ttl);
      LostCarryAddsCell(r, skip, port, nPorts, c);
    }
  }

  lemma TakeTotals(s: State, i: nat, p: Pieces, c: Cell)
    requires i < |s.free|
    ensures Take(s, i, p).Total(c) == s.Total(c) - Once(s.free[i], c) + CutCount(p, c)
  {
    TakeTotal(s, i, p, c);
  }

  /** Over all 32-bit arguments: a reservation conserves every cell if and only if the carry
      of its step fits, or has no ports to lose, and its ports do not wrap or wrap in a way
      that keeps them. */
  lemma ReserveConserves(s: State, ip: Inet, port: nat, nPorts: nat, ttl: nat)
    requires s.Valid() && Args(port, nPorts) && Reserve(s, Some(ip), port, nPorts, ttl).1.Taken?
    ensures var s' := Reserve(s, Some(ip), port, nPorts, ttl).0;
            Keeps(Chosen(s, ip, port, nPorts, ttl), ip.addr, port, nPorts)
            <==> forall c :: s'.Total(c) == s.Total(c)
  {
    ReserveTakes(s, ip, port, nPorts, ttl);
    var i := Find(s.free, ip.size, ip.addr, port, nPorts, ttl);
    var r := s.free[i];
    var p := Cut(r, ip.addr, port, nPorts);
    if Keeps(r, ip.addr, port, nPorts) {
      forall c ensures Take(s, i, p).Total(c) == s.Total(c) {
        CutKeepsCell(r, ip.addr, port, nPorts, c);
        TakeTotals(s, i, p, c);
      }
    } else {
      var c := CutAddsCell(r, ip.addr, port, nPorts);
      TakeTotals(s, i, p, c);
    }
  }

  /** All pieces are ranges again. */
  predicate AllValid(p: Pieces) {
    p.taken.Valid() && forall i :: 0 <= i < |p.rest| ==> p.rest[i].Valid()
  }

  lemma PortPieces(r: Range, skip: int, n: int, q: int, e: int)
    requires skip > 0 && U16(r.minPort + skip) == q >= 1 && U16(r.minPort + skip - 1) == q - 1
    requires U16(q + n - 1) == e && (e < 65535 ==> U16(q + n) == e + 1)
    ensures var skipped := r.(maxPort := q - 1);
            var p := SomePorts(r, skip, n);
            if r.maxPort - q + 1 > n
            then e < 65535 ==> p == Pieces(r.(minPort := q, maxPort := e), [r.(minPort := e + 1), skipped])
            else p == Pieces(r.(minPort := q), [skipped])
  {
  }

  /** The pieces of a wrapped cut that keeps the ports may be empty, but no more than that. */
  lemma WrappedPiecesAreValid(r: Range, addr: nat, port: nat, nPorts: nat)
    requires Accepted(r, addr, port, nPorts) && !NoPortWrap(port, nPorts) && WrapKeepsPorts(r, port, nPorts)
    ensures AllValid(SomePorts(r, port - r.minPort, Int32(nPorts)))
  {
    WrappedNumbers(r, addr, port, nPorts);
    PortPieces(r, port - r.minPort, Int32(nPorts), port % 65536, LastPort(port, nPorts));
  }

  lemma PortPiecesAreValid(r: Range, port: nat, nPorts: nat)
    requires Accepted(r, r.lo, port, nPorts) && KeepsPorts(r, port, nPorts)
    ensures AllValid(SomePorts(r, port - r.minPort, Int32(nPorts)))
  {
    if NoPortWrap(port, nPorts) {
      AcceptedFits(r, r.lo, port, nPorts);
      SomePortsPartitions(r, port - r.minPort, nPorts, Cell(0, 0, 0, 0));
    } else {
      WrappedPiecesAreValid(r, r.lo, port, nPorts);
    }
  }

  lemma IncBound(size: nat, v: nat, n: nat)
    requires size in {4, 16} && v < Pow256(size) && n < TWO32
    ensures Inc(size, v, n) < Pow256(size)
  {
    PowOfFour(size);
  }

  lemma EmptySkipIsValid(r: Range, skip: nat)
    requires r.Valid() && r.Empty() && skip < TWO32
    ensures AllValid(SkipAddresses(r, skip)) && SkipAddresses(r, skip).taken.Empty()
  {
    if skip > 0 {
      IncBound(r.size, r.lo, skip);
      IncBound(r.size, r.lo, skip - 1);
    }
  }

  lemma EmptyFirstIsValid(r: Range)
    requires r.Valid() && r.Empty()
    ensures AllValid(KeepFirstAddress(r))
  {
    IncBound(r.size, r.lo, 1);
  }

  lemma ThenIsValid(a: Pieces, b: Pieces)
    requires AllValid(a) && AllValid(b)
    ensures AllValid(Then(a, b))
  {
  }

  lemma AddressPiecesAreValid(r: Range, addr: nat, skip: nat)
    requires r.Valid() && r.lo <= addr <= r.hi && skip == Diff(r.size, addr, r.lo)
    requires r.Empty() || CarryFits(r, skip)
    ensures AllValid(OneAddress(r, skip))
  {
    if r.Empty() {
      var a := SkipAddresses(r, skip);
      EmptySkipIsValid(r, skip);
      EmptyFirstIsValid(a.taken);
      ThenIsValid(a, KeepFirstAddress(a.taken));
    } else {
      LandsNear(r, addr, skip);
      OneAddressPartitions(r, skip, Cell(0, 0, 0, 0));
    }
  }

  /** A cut that keeps the cells leaves ranges behind. */
  lemma KeptCutIsValid(r: Range, addr: nat, port: nat, nPorts: nat)
    requires Accepted(r, addr, port, nPorts) && Keeps(r, addr, port, nPorts)
    ensures AllValid(Cut(r, addr, port, nPorts))
  {
    var a := OneAddress(r, Diff(r.size, addr, r.lo));
    AddressPiecesAreValid(r, addr, Diff(r.size, addr, r.lo));
    LandedAccepts(r, addr, port, nPorts, a.taken);
    PortPiecesAreValid(a.taken, port, nPorts);
    ThenIsValid(a, SomePorts(a.taken, port - r.minPort, Int32(nPorts)));
  }

  /** Near requests conserve; in particular every IPv4 request is near. */
  lemma NearConserves(r: Range, addr: nat)
    requires r.Valid() && r.lo <= addr <= r.hi
    ensures Near(r, addr) ==> CarryFits(r, Diff(r.size, addr, r.lo))
    ensures r.size == 4 ==> Near(r, addr)
  {
    DiffExact(r.size, addr, r.lo);
    if r.size == 4 {
      FourBytesAlwaysExact(addr, r.lo);
    }
  }

  // ---------- runs ----------

  datatype Op =
    | Add(range: Range)
    | Get(flags: Flags, n: int)
    | Ask(ip: Option<Inet>, port: nat, nPorts: nat, ttl: nat)
    | Give(k: nat)

  function Step(s: State, op: Op): State {
    match op
    case Add(r) => s.(free := [r] + s.free)
    case Get(flags, n) => Acquire(s, flags, n).0
    case Ask(ip, port, n, ttl) => Reserve(s, ip, port, n, ttl).0
    case Give(k) => Release(s, k)
  }

  function Run(s: State, ops: seq<Op>): State
    decreases |ops|
  {
    if ops == [] then s else Run(Step(s, ops[0]), ops[1..])
  }

  /** Added ranges are well formed, and a reservation that cuts a free range keeps its cells,
      which by ReserveConserves is exact. Nothing else is required: a request that wraps is
      admissible whenever it takes nothing. */
  predicate Admissible(s: State, op: Op) {
    match op
    case Add(r) => r.Valid()
    case Ask(ip, port, n, ttl) =>
      Args(port, n) && (Reserve(s, ip, port, n, ttl).1.Taken? ==>
        var r := Chosen(s, ip.value, port, n, ttl);
        Keeps(r, ip.value.addr, port, n))
    case _ => true
  }

  /** In particular a reservation that does not wrap and takes an address near the start of
      its range. */
  lemma NearRequestIsAdmissible(s: State, ip: Inet, port: nat, nPorts: nat, ttl: nat)
    requires s.Valid() && Args(port, nPorts) && NoPortWrap(port, nPorts)
    requires var i := Find(s.free, ip.size, ip.addr, port, nPorts, ttl);
             i < |s.free| ==> Near(s.free[i], ip.addr)
    ensures Admissible(s, Ask(Some(ip), port, nPorts, ttl))
  {
    if Reserve(s, Some(ip), port, nPorts, ttl).1.Taken? {
      ReserveTakes(s, ip, port, nPorts, ttl);
      NearConserves(Chosen(s, ip, port, nPorts, ttl), ip.addr);
    }
  }

  predicate AdmissibleRun(s: State, ops: seq<Op>)
    decreases |ops|
  {
    ops == [] || (Admissible(s, ops[0]) && AdmissibleRun(Step(s, ops[0]), ops[1..]))
  }

  /** The ranges that a run adds. */
  function Added(ops: seq<Op>): seq<Range> {
    if ops == [] then []
    else (if ops[0].Add? then [ops[0].range] else []) + Added(ops[1..])
  }

  lemma ReleaseConserves(s: State, k: nat, c: Cell)
    requires s.Valid()
    ensures Release(s, k).Valid() && Release(s, k).Total(c) == s.Total(c)
  {
    if k < |s.used| {
      CountWithout(s.used, k, c);
      CountAppend([s.used[k]], s.free, c);
      CountOne(s.used[k], c);
    }
  }

  lemma AskKeepsValid(s: State, ip: Inet, port: nat, nPorts: nat, ttl: nat)
    requires s.Valid() && Args(port, nPorts) && Reserve(s, Some(ip), port, nPorts, ttl).1.Taken?
    requires Keeps(Chosen(s, ip, port, nPorts, ttl), ip.addr, port, nPorts)
    ensures Reserve(s, Some(ip), port, nPorts, ttl).0.Valid()
  {
    ReserveTakes(s, ip, port, nPorts, ttl);
    KeptCutIsValid(Chosen(s, ip, port, nPorts, ttl), ip.addr, port, nPorts);
  }

  lemma StepConserves(s: State, op: Op, c: Cell)
    requires s.Valid() && Admissible(s, op)
    ensures Step(s, op).Valid()
    ensures Step(s, op).Total(c) == s.Total(c) + Count(Added([op]), c)
  {
    assert [op][1..] == [];
    match op
    case Add(r) =>
      CountAppend([r], s.free, c);
      assert Added([op]) == [r];
    case Get(flags, n) =>
      if Acquire(s, flags, n).1.Some? {
        AcquireSound(s, flags, n, c);
        CountAppend([Acquire(s, flags, n).1.value], s.used, c);
        CountOne(Acquire(s, flags, n).1.value, c);
      }
    case Ask(ip, port, n, ttl) =>
      if Reserve(s, ip, port, n, ttl).1.Taken? {
        AskKeepsValid(s, ip.value, port, n, ttl);
        ReserveConserves(s, ip.value, port, n, ttl);
      }
    case Give(k) =>
      ReleaseConserves(s, k, c);
  }

  /** Conservation over every run: free plus allocated ranges over a cell are the ones
      that were there plus the ones that were added. */
  lemma {:induction false} RunConserves(s: State, ops: seq<Op>, c: Cell)
    requires s.Valid() && AdmissibleRun(s, ops)
    ensures Run(s, ops).Valid()
    ensures Run(s, ops).Total(c) == s.Total(c) + Count(Added(ops), c)
    decreases |ops|
  {
    if ops != [] {
      StepConserves(s, ops[0], c);
      RunConserves(Step(s, ops[0]), ops[1..], c);
      assert [ops[0]][1..] == [];
      assert Added(ops) == Added([ops[0]]) + Added(ops[1..]);
      CountAppend(Added([ops[0]]), Added(ops[1..]), c);
    }
  }

  /** The operations of a run are what a caller can pass. */
  predicate Arguments(op: Op) {
    match op
    case Add(r) => r.Valid()
    case Ask(_, port, n, _) => Args(port, n)
    case _ => true
  }

  /** After every operation of the run each cell is covered as before, but for what the
      operation adds. */
  ghost predicate ConservingRun(s: State, ops: seq<Op>)
    decreases |ops|
  {
    ops == []
    || ((forall c :: Step(s, ops[0]).Total(c) == s.Total(c) + Count(Added([ops[0]]), c))
        && ConservingRun(Step(s, ops[0]), ops[1..]))
  }

  lemma AdmissibleIffConserves(s: State, op: Op)
    requires s.Valid() && Arguments(op)
    ensures Admissible(s, op) <==> forall c :: Step(s, op).Total(c) == s.Total(c) + Count(Added([op]), c)
  {
    if Admissible(s, op) {
      forall c ensures Step(s, op).Total(c) == s.Total(c) + Count(Added([op]), c) {
        StepConserves(s, op, c);
      }
    } else {
      ReserveConserves(s, op.ip.value, op.port, op.nPorts, op.ttl);
      assert [op][1..] == [];
    }
  }

  /** Nothing weaker would do: a run is admissible if and only if it conserves at every step. */
  lemma {:induction false} AdmissibleRunIffConserving(s: State, ops: seq<Op>)
    requires s.Valid() && forall i :: 0 <= i < |ops| ==> Arguments(ops[i])
    ensures AdmissibleRun(s, ops) <==> ConservingRun(s, ops)
    decreases |ops|
  {
    if ops != [] {
      AdmissibleIffConserves(s, ops[0]);
      if Admissible(s, ops[0]) {
        StepConserves(s, ops[0], Cell(0, 0, 0, 0));
        AdmissibleRunIffConserving(Step(s, ops[0]), ops[1..]);
      }
    }
  }

  ghost predicate Disjoint(rs: seq<Range>) {
    forall c :: Count(rs, c) <= 1
  }

  lemma CountTwo(rs: seq<Range>, i: nat, j: nat, c: Cell)
    requires i < j < |rs| && rs[i].Covers(c) && rs[j].Covers(c)
    ensures Count(rs, c) >= 2
  {
    CountWithout(rs, j, c);
    CountWithout(Without(rs, j), i, c);
  }

  /** If the ranges ever added to an empty pool are disjoint, then in every run no two
      outstanding allocations share a cell, and nothing allocated is free. */
  lemma NoDoubleAllocation(ops: seq<Op>, i: nat, j: nat, c: Cell)
    requires AdmissibleRun(State([], []), ops) && Disjoint(Added(ops))
    requires i < |Run(State([], []), ops).used| && Run(State([], []), ops).used[i].Covers(c)
    ensures Count(Run(State([], []), ops).free, c) == 0
    ensures j < |Run(State([], []), ops).used| && i != j ==> !Run(State([], []), ops).used[j].Covers(c)
  {
    var s := Run(State([], []), ops);
    RunConserves(State([], []), ops, c);
    CountWithout(s.used, i, c);
    if j < |s.used| && i != j && s.used[j].Covers(c) {
      CountTwo(s.used, if i < j then i else j, if i < j then j else i, c);
    }
  }

  // ---------- where the code falls short ----------

  /** An IPv6 request too far from the start of its range gets another address. */
  lemma FarReservationMisses()
    ensures var far := 0x1_0000_0000 * 256;
            var s := State([Range(16, 0, 0x1_0000_0000 * 256 + 5, 5000, 5010, 0)], []);
            s.Valid()
            && var (s', answer) := Reserve(s, Some(Inet(16, far, false)), 5000, 2, 0);
               answer.Taken? && answer.range.lo != far
  {
    var far := 0x1_0000_0000 * 256;
    var s := State([Range(16, 0, far + 5, 5000, 5010, 0)], []);
    PowOfFour(15);
    var ip := Inet(16, far, false);
    assert Find(s.free, 16, far, 5000, 2, 0) == 0;
    ReserveExact(s, ip, 5000, 2, 0);
  }

  /** An IPv6 step whose carry overflows: by ReserveConserves, reserving that address
      from a range that starts at 255 creates a cell that was never in the pool. */
  lemma LostCarryHappens()
    ensures var r := Range(16, 255, 0xFFFF_FFFF * 256, 5000, 5010, 0);
            r.Valid() && !CarryFits(r, Diff(16, 0xFFFF_FFFF * 256, 255))
  {
    PowOfFour(15);
    DiffExact(15, 0xFFFF_FFFF, 0);
  }

  /** Port numbers whose last port wraps around 32 bits are accepted. */
  lemma WrappedPortsAccepted()
    ensures var s := State([Range(4, 1, 1, 0, 10, 0)], []);
            && s.Valid()
            && Reserve(s, Some(Inet(4, 1, false)), 0xFFFF_FFFF, 2, 0).1.Taken?
            && !SomeHolds(s.free, Inet(4, 1, false), 0xFFFF_FFFF, 2, 0)
  {
    var s := State([Range(4, 1, 1, 0, 10, 0)], []);
    PowOfFour(4);
    assert Find(s.free, 4, 1, 0xFFFF_FFFF, 2, 0) == 0;
    var c := Cell(4, 1, 0xFFFF_FFFF, 0);
    assert !s.free[0].Covers(c);
  }

  /** A cut whose ports wrap may break the count of cells, and it may keep it. */
  lemma WrappedCutsGoBothWays()
    ensures var r := Range(4, 1, 1, 0, 10, 0);
            && Accepted(r, 1, 0xFFFF_FFFF, 2) && !Keeps(r, 1, 0xFFFF_FFFF, 2)
            && Accepted(r, 1, 0x8000_0005, 0x7FFF_FFFC) && !NoPortWrap(0x8000_0005, 0x7FFF_FFFC)
            && Keeps(r, 1, 0x8000_0005, 0x7FFF_FFFC)
  {
    PowOfFour(4);
    assert Diff(4, 1, 1) == 0 by { DiffExact(4, 1, 1); }
  }
}
