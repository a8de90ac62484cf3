/** The address pool itself: two lists of range objects that are cut in place. */
module AddressPool {
  import opened Machine
  import opened Sequences
  import opened Wrappers
  import opened BigEndian
  import opened AddressRanges
  import opened AddressRuns

  /** An address with a port; a structure held inside a range, copied by assignment. */
  datatype Addr = Addr(bytes: seq<Byte>, port: int)
  {
    ghost function Number(): nat { Val(bytes) }
  }

  /** The two ends of a range, always of one family. */
  datatype RawEnds = Ends(min: Addr, max: Addr)

  type Ends = e: RawEnds | |e.min.bytes| == |e.max.bytes| && |e.min.bytes| in {4, 16}
    witness Ends(Addr([0, 0, 0, 0], 0), Addr([0, 0, 0, 0], 0))

  /** An address that could be parsed. */
  datatype RawInet = InetBytes(bytes: seq<Byte>, multicast: bool)

  type InetBytes = a: RawInet | |a.bytes| in {4, 16} witness InetBytes([0, 0, 0, 0], false)

  datatype ReserveResult = Ok | EInval | EReserved | ERange

  /** fill_address succeeds: parsed, and multicast exactly when there is a ttl. */
  predicate Filled(ip: Option<InetBytes>, ttl: nat) {
    ip.Some? && ip.value.multicast == (ttl != 0)
  }

  ghost function Numeric(ip: Option<InetBytes>): Option<Inet> {
    match ip
    case None => None
    case Some(a) => Some(Inet(|a.bytes|, Val(a.bytes), a.multicast))
  }

  /** inc_address on the bytes of an address. */
  method Advance(a: Addr, count: nat) returns (b: Addr)
    requires count < TWO32 && |a.bytes| in {4, 16}
    ensures |b.bytes| == |a.bytes| && b.port == a.port
    ensures b.Number() == Inc(|a.bytes|, a.Number(), count)
  {
    PowOfFour(|a.bytes|);
    CarriedIsInc(a.bytes, count);
    var buffer := new Byte[|a.bytes|](i requires 0 <= i < |a.bytes| => a.bytes[i]);
    assert buffer[..] == a.bytes;
    IncAddress(buffer, count);
    b := a.(bytes := buffer[..]);
  }

  /** diff_address on the bytes of two addresses. */
  method Distance(a: Addr, b: Addr) returns (d: nat)
    requires |a.bytes| == |b.bytes|
    ensures d == Diff(|a.bytes|, a.Number(), b.Number())
  {
    var x := new Byte[|a.bytes|](i requires 0 <= i < |a.bytes| => a.bytes[i]);
    var y := new Byte[|b.bytes|](i requires 0 <= i < |b.bytes| => b.bytes[i]);
    assert x[..] == a.bytes && y[..] == b.bytes;
    d := DiffAddress(x, y);
  }

  /** A range of addresses and ports. */
  class AddrRange {
    var ends: Ends
    var ttl: nat

    constructor (ends: Ends, ttl: nat)
      ensures this.ends == ends && this.ttl == ttl
    {
      this.ends, this.ttl := ends, ttl;
    }

    ghost function View(): Range
      reads this
    {
      Range(|ends.min.bytes|, ends.min.Number(), ends.max.Number(), ends.min.port, ends.max.port, ttl)
    }

    /** A piece cut off, as a list of at most one range. */
    static ghost function Piece(p: AddrRange?): (v: seq<Range>)
      reads p
    {
      if p == null then [] else [p.View()]
    }

    /** Separates the first skip addresses. */
    method DropAddresses(skip: nat) returns (piece: AddrRange?)
      requires skip < TWO32
      modifies this
      ensures piece != null ==> fresh(piece)
      ensures Pieces(View(), Piece(piece)) == SkipAddresses(old(View()), skip)
    {
      piece := null;
      if skip != 0 {
        var max := Advance(ends.max.(bytes := ends.min.bytes), skip - 1);
        piece := new AddrRange(ends.(max := max), ttl);
        var min := Advance(ends.min, skip);
        ends := ends.(min := min);
      }
    }

    /** Separates all addresses but the first. */
    method KeepFirst() returns (piece: AddrRange?)
      modifies this
      ensures piece != null ==> fresh(piece)
      ensures Pieces(View(), Piece(piece)) == KeepFirstAddress(old(View()))
    {
      piece := null;
      MemCmpIsNumeric(ends.min.bytes, ends.max.bytes);
      if MemCmp(ends.min.bytes, ends.max.bytes) != 0 {
        var min := Advance(ends.min, 1);
        piece := new AddrRange(ends.(min := min), ttl);
        ends := ends.(max := ends.max.(bytes := ends.min.bytes));
      }
    }

    /** Separates the first skip ports. */
    method DropPorts(skip: int) returns (piece: AddrRange?)
      modifies this
      ensures piece != null ==> fresh(piece)
      ensures Pieces(View(), Piece(piece)) == SkipPorts(old(View()), skip)
    {
      piece := null;
      if skip > 0 {
        piece := new AddrRange(ends.(max := ends.max.(port := U16(ends.min.port + skip - 1))), ttl);
        ends := ends.(min := ends.min.(port := U16(ends.min.port + skip)));
      }
    }

    /** Separates all ports but the first n. */
    method KeepFirstPorts(n: int) returns (piece: AddrRange?)
      modifies this
      ensures piece != null ==> fresh(piece)
      ensures Pieces(View(), Piece(piece)) == KeepPorts(old(View()), n)
    {
      piece := null;
      if ends.max.port - ends.min.port + 1 > n {
        piece := new AddrRange(ends.(min := ends.min.(port := U16(ends.min.port + n))), ttl);
        ends := ends.(max := ends.max.(port := U16(ends.min.port + n - 1)));
      }
    }
  }

  ghost function Views(rs: seq<AddrRange>): (v: seq<Range>)
    reads rs
    ensures |v| == |rs|
  {
    if rs == [] then [] else [rs[0].View()] + Views(rs[1..])
  }

  lemma {:induction false} ViewsAt(rs: seq<AddrRange>, i: nat)
    requires i < |rs|
    ensures Views(rs)[i] == rs[i].View()
  {
    if i > 0 {
      ViewsAt(rs[1..], i - 1);
    }
  }

  lemma {:induction false} ViewsWithout(rs: seq<AddrRange>, i: nat)
    requires i < |rs|
    ensures Views(Without(rs, i)) == Without(Views(rs), i)
  {
    if i > 0 {
      ViewsWithout(rs[1..], i - 1);
      assert Without(rs, i) == [rs[0]] + Without(rs[1..], i - 1);
    } else {
      assert Without(rs, 0) == rs[1..];
    }
  }

  lemma NoDupPrepend<T>(x: T, s: seq<T>)
    requires NoDup(s) && x !in s
    ensures NoDup([x] + s)
  {
    assert ([x] + s)[1..] == s;
  }

  lemma {:induction false} NoDupWithout<T>(s: seq<T>, i: nat)
    requires NoDup(s) && i < |s|
    ensures NoDup(Without(s, i)) && s[i] !in Without(s, i)
    ensures forall x :: x in Without(s, i) ==> x in s
  {
    if i == 0 {
      assert Without(s, 0) == s[1..];
    } else {
      NoDupWithout(s[1..], i - 1);
      NoDupPrepend(s[0], Without(s[1..], i - 1));
      assert Without(s, i) == [s[0]] + Without(s[1..], i - 1);
    }
  }

  /** The branch of reserve that takes something. */
  lemma ReserveHit(s: State, ip: Inet, port: nat, nPorts: nat, ttl: nat, i: nat, skip: nat)
    requires port > 0 && nPorts > 0 && ip.multicast == (ttl != 0)
    requires i == Find(s.free, ip.size, ip.addr, port, nPorts, ttl) && i < |s.free|
    requires skip == Diff(ip.size, ip.addr, s.free[i].lo)
    ensures var p := Split(s.free[i], skip, port - s.free[i].minPort, Int32(nPorts));
            Reserve(s, Some(ip), port, nPorts, ttl) == (Take(s, i, p), Taken(p.taken))
  {
  }

  /** The branch of reserve that only tells why not. */
  lemma ReserveMiss(s: State, ip: Inet, port: nat, nPorts: nat, ttl: nat)
    requires port > 0 && nPorts > 0 && ip.multicast == (ttl != 0)
    requires Find(s.free, ip.size, ip.addr, port, nPorts, ttl) == |s.free|
    ensures Reserve(s, Some(ip), port, nPorts, ttl)
            == (s, if Find(s.used, ip.size, ip.addr, port, nPorts, ttl) < |s.used| then InUse else NotInPool)
  {
  }

  lemma BoxIsValid(min: seq<Byte>, max: seq<Byte>, minPort: int, maxPort: int, ttl: nat)
    requires |min| == |max| && |min| in {4, 16} && Val(min) <= Val(max)
    requires 0 <= minPort <= maxPort < 65536 && ttl < 256
    ensures var r := Range(|min|, Val(min), Val(max), minPort, maxPort, ttl); r.Valid() && !r.Empty()
  {
    ValBound(max);
  }

  /** What is handed out, byte for byte: a taken reservation is the address asked for if and
      only if that is near the start of the range it was cut from. */
  lemma ReservedBytes(s: State, ip: InetBytes, port: nat, nPorts: nat, ttl: nat, got: Ends)
    requires s.Valid() && Args(port, nPorts)
    requires Reserve(s, Numeric(Some(ip)), port, nPorts, ttl).1.Taken?
    requires var r := Reserve(s, Numeric(Some(ip)), port, nPorts, ttl).1.range;
             |got.min.bytes| == r.size && got.min.Number() == r.lo && got.max.Number() == r.hi
    ensures got.min.bytes == got.max.bytes
    ensures got.min.bytes == ip.bytes <==> Near(Chosen(s, Numeric(Some(ip)).value, port, nPorts, ttl), Val(ip.bytes))
  {
    ReserveExact(s, Numeric(Some(ip)).value, port, nPorts, ttl);
    ValInjective(got.min.bytes, got.max.bytes);
    if got.min.Number() == Val(ip.bytes) {
      ValInjective(got.min.bytes, ip.bytes);
    }
  }

  /** How an outcome is reported to the caller. */
  ghost predicate Reports(outcome: Outcome, answer: ReserveResult, range: AddrRange?)
    reads range
  {
    match outcome
    case Taken(r) => answer == Ok && range != null && range.View() == r
    case Invalid => answer == EInval && range == null
    case InUse => answer == EReserved && range == null
    case NotInPool => answer == ERange && range == null
  }

  class Pool {
    var addresses: seq<AddrRange>
    var inUse: seq<AddrRange>

    constructor ()
      ensures Valid() && addresses == [] && inUse == []
    {
      addresses, inUse := [], [];
    }

    /** No range object is listed twice. */
    ghost predicate Valid()
      reads this
    {
      NoDup(addresses) && NoDup(inUse) && forall r :: r in addresses ==> r !in inUse
    }

    ghost function View(): State
      reads this, addresses, inUse
    {
      State(Views(addresses), Views(inUse))
    }

    /** Every free range was free before or is new. */
    twostate predicate OldOrFresh()
      reads this
    {
      forall r :: r in addresses ==> r in old(addresses) || fresh(r)
    }

    /** Prepends a piece, if there is one, to the free list. */
    method PutBack(piece: AddrRange?)
      requires NoDup(addresses) && (piece != null ==> piece !in addresses)
      modifies this`addresses
      ensures NoDup(addresses)
      ensures addresses == (if piece == null then [] else [piece]) + old(addresses)
      ensures Views(addresses) == AddrRange.Piece(piece) + old(Views(addresses))
    {
      if piece != null {
        NoDupPrepend<AddrRange>(piece, addresses);
        addresses := [piece] + addresses;
      }
    }

    /** Puts the first skip addresses back into the pool. */
    method DropAddresses(range: AddrRange, skip: nat)
      requires NoDup(addresses) && range !in addresses && skip < TWO32
      modifies this`addresses, range
      ensures NoDup(addresses) && OldOrFresh()
      ensures var p := SkipAddresses(old(range.View()), skip);
              range.View() == p.taken && Views(addresses) == p.rest + old(Views(addresses))
    {
      var piece := range.DropAddresses(skip);
      PutBack(piece);
    }

    /** Puts all addresses but the first back into the pool. */
    method KeepFirst(range: AddrRange)
      requires NoDup(addresses) && range !in addresses
      modifies this`addresses, range
      ensures NoDup(addresses) && OldOrFresh()
      ensures var p := KeepFirstAddress(old(range.View()));
              range.View() == p.taken && Views(addresses) == p.rest + old(Views(addresses))
    {
      var piece := range.KeepFirst();
      PutBack(piece);
    }

    /** Puts the first skip ports back into the pool. */
    method DropPorts(range: AddrRange, skip: int)
      requires NoDup(addresses) && range !in addresses
      modifies this`addresses, range
      ensures NoDup(addresses) && OldOrFresh()
      ensures var p := SkipPorts(old(range.View()), skip);
              range.View() == p.taken && Views(addresses) == p.rest + old(Views(addresses))
    {
      var piece := range.DropPorts(skip);
      PutBack(piece);
    }

    /** Puts all ports but the first n back into the pool. */
    method KeepFirstPorts(range: AddrRange, n: int)
      requires NoDup(addresses) && range !in addresses
      modifies this`addresses, range
      ensures NoDup(addresses) && OldOrFresh()
      ensures var p := KeepPorts(old(range.View()), n);
              range.View() == p.taken && Views(addresses) == p.rest + old(Views(addresses))
    {
      var piece := range.KeepFirstPorts(n);
      PutBack(piece);
    }

    /** Leaves one address in the range; the others go back into the pool. */
    method SplitAddresses(range: AddrRange, skip: nat)
      requires NoDup(addresses) && range !in addresses && skip < TWO32
      modifies this`addresses, range
      ensures NoDup(addresses) && OldOrFresh()
      ensures var p := OneAddress(old(range.View()), skip);
              range.View() == p.taken && Views(addresses) == p.rest + old(Views(addresses))
    {
      ghost var free, a := Views(addresses), SkipAddresses(range.View(), skip);
      DropAddresses(range, skip);
      KeepFirst(range);
      Assoc(KeepFirstAddress(a.taken).rest, a.rest, free);
    }

    /** Leaves the wanted ports in the range; the others go back into the pool. */
    method SplitPorts(range: AddrRange, skip: int, n: int)
      requires NoDup(addresses) && range !in addresses
      modifies this`addresses, range
      ensures NoDup(addresses) && OldOrFresh()
      ensures var p := SomePorts(old(range.View()), skip, n);
              range.View() == p.taken && Views(addresses) == p.rest + old(Views(addresses))
    {
      ghost var free, a := Views(addresses), SkipPorts(range.View(), skip);
      DropPorts(range, skip);
      KeepFirstPorts(range, n);
      Assoc(KeepPorts(a.taken, n).rest, a.rest, free);
    }

    /** Leaves the wanted box in the range; everything else goes back into the pool. */
    method CutRange(range: AddrRange, skipAddr: nat, skipPort: int, nPorts: int)
      requires NoDup(addresses) && range !in addresses && skipAddr < TWO32
      modifies this`addresses, range
      ensures NoDup(addresses) && OldOrFresh()
      ensures var p := Split(old(range.View()), skipAddr, skipPort, nPorts);
              range.View() == p.taken && Views(addresses) == p.rest + old(Views(addresses))
    {
      ghost var free, a := Views(addresses), OneAddress(range.View(), skipAddr);
      SplitAddresses(range, skipAddr);
      SplitPorts(range, skipPort, nPorts);
      Assoc(SomePorts(a.taken, skipPort, nPorts).rest, a.rest, free);
    }

    /** Cuts the range in place and puts the remaining pieces back into the pool. */
    method SplitRange(range: AddrRange, skipAddr: nat, skipPort: int, nPorts: int)
      requires Valid() && range !in addresses && range !in inUse && skipAddr < TWO32
      modifies this`addresses, range
      ensures Valid() && range !in addresses
      ensures var p := Split(old(range.View()), skipAddr, skipPort, nPorts);
              && range.View() == p.taken
              && View() == State(p.rest + old(Views(addresses)), old(Views(inUse)))
    {
      CutRange(range, skipAddr, skipPort, nPorts);
    }

    /** Removes the i-th range of the free list. */
    method Unlink(i: nat) returns (range: AddrRange)
      requires Valid() && i < |addresses|
      modifies this`addresses
      ensures Valid() && range == old(addresses[i]) && range !in addresses && range !in inUse
      ensures addresses == Without(old(addresses), i)
      ensures Views(addresses) == Without(old(Views(addresses)), i)
    {
      range := addresses[i];
      ViewsWithout(addresses, i);
      NoDupWithout(addresses, i);
      addresses := addresses[..i] + addresses[i + 1..];
    }

    /** Lists the range as allocated. */
    method Keep(range: AddrRange)
      requires Valid() && range !in addresses && range !in inUse
      modifies this`inUse
      ensures Valid() && inUse == [range] + old(inUse)
      ensures View() == State(old(Views(addresses)), [range.View()] + old(Views(inUse)))
    {
      NoDupPrepend(range, inUse);
      inUse := [range] + inUse;
    }

    /** Removes the i-th free range, cuts it and keeps the wanted box allocated. */
    method TakeAt(i: nat, skipAddr: nat, skipPort: int, nPorts: int) returns (range: AddrRange)
      requires Valid() && i < |addresses| && skipAddr < TWO32
      modifies this, addresses[i]
      ensures Valid() && range == old(addresses[i]) && inUse == [range] + old(inUse)
      ensures range.View() == Split(old(addresses[i].View()), skipAddr, skipPort, nPorts).taken
      ensures View() == Take(old(View()), i, Split(old(addresses[i].View()), skipAddr, skipPort, nPorts))
    {
      ViewsAt(addresses, i);
      range := Unlink(i);
      SplitRange(range, skipAddr, skipPort, nPorts);
      Keep(range);
    }

    /** Adds a range when both ends parse, have the cast of the ttl, are of one family
        and are in order. */
    method AddRange(min: Option<InetBytes>, max: Option<InetBytes>, minPort: int, maxPort: int, ttl: nat)
      returns (ok: bool)
      requires Valid() && 0 <= minPort < 65536 && 0 <= maxPort < 65536 && ttl < 256
      modifies this`addresses
      ensures Valid()
      ensures ok <==> minPort <= maxPort && Filled(min, ttl) && Filled(max, ttl)
                      && |min.value.bytes| == |max.value.bytes|
                      && Val(min.value.bytes) <= Val(max.value.bytes)
      ensures ok ==> View() == Step(old(View()), Add(Range(|min.value.bytes|, Val(min.value.bytes),
                                    Val(max.value.bytes), minPort, maxPort, ttl)))
      ensures ok ==> View().free[0].Valid() && !View().free[0].Empty()
      ensures !ok ==> addresses == old(addresses)
    {
      if minPort > maxPort || !Filled(min, ttl) || !Filled(max, ttl)
         || |min.value.bytes| != |max.value.bytes| {
        return false;
      }
      MemCmpIsNumeric(min.value.bytes, max.value.bytes);
      if MemCmp(min.value.bytes, max.value.bytes) > 0 {
        return false;
      }
      BoxIsValid(min.value.bytes, max.value.bytes, minPort, maxPort, ttl);
      var range := new AddrRange(Ends(Addr(min.value.bytes, minPort), Addr(max.value.bytes, maxPort)), ttl);
      PutBack(range);
      ok := true;
    }

    /** Forgets all free ranges, unless something is still allocated. */
    method Clear()
      requires Valid()
      modifies this`addresses
      ensures Valid()
      ensures View() == if old(inUse) == [] then State([], []) else old(View())
    {
      if inUse == [] {
        addresses := [];
      }
    }

    /** Takes an address and n consecutive ports from the first suitable range. */
    method AcquireAddress(flags: Flags, nPorts: int) returns (range: AddrRange?)
      requires Valid()
      modifies this, addresses
      ensures Valid()
      ensures View() == Acquire(old(View()), flags, nPorts).0
      ensures match Acquire(old(View()), flags, nPorts).1
              case None => range == null
              case Some(r) => range != null && range.View() == r && inUse == [range] + old(inUse)
      ensures nPorts <= 0 ==> range == null && View() == old(View())
    {
      range := null;
      if nPorts <= 0 {
        return;
      }
      var i := FindSuitable(addresses, flags, nPorts);
      if i < |addresses| {
        ViewsAt(addresses, i);
        var odd := addresses[i].ends.min.port % 2 != 0;
        range := TakeAt(i, 0, if flags.evenPort && odd then 1 else 0, nPorts);
      }
    }

    /** Takes the i-th free range, known to hold what was asked, to reserve from it. */
    method TakeReserved(i: nat, ip: InetBytes, port: nat, nPorts: nat, ttl: nat)
      returns (range: AddrRange)
      requires Valid() && i < |addresses| && port > 0 && nPorts > 0 && Filled(Some(ip), ttl)
      requires i == Find(Views(addresses), |ip.bytes|, Val(ip.bytes), port, nPorts, ttl)
      modifies this, addresses[i]
      ensures Valid() && inUse == [range] + old(inUse)
      ensures (View(), Taken(range.View())) == Reserve(old(View()), Numeric(Some(ip)), port, nPorts, ttl)
    {
      ViewsAt(addresses, i);
      var skipAddr := Distance(Addr(ip.bytes, port), addresses[i].ends.min);
      var skipPort := port - addresses[i].ends.min.port;
      ghost var s, inet := View(), Numeric(Some(ip)).value;
      ghost var p := Split(addresses[i].View(), skipAddr, skipPort, Int32(nPorts));
      ReserveHit(s, inet, port, nPorts, ttl, i, skipAddr);
      assert Reserve(s, Some(inet), port, nPorts, ttl) == (Take(s, i, p), Taken(p.taken));
      range := TakeAt(i, skipAddr, skipPort, Int32(nPorts));
      assert View() == Take(s, i, p) && range.View() == p.taken;
    }

    /** Takes a specific address and ports. */
    method ReserveAddress(ip: Option<InetBytes>, port: nat, nPorts: nat, ttl: nat)
      returns (answer: ReserveResult, range: AddrRange?)
      requires Valid()
      modifies this, addresses
      ensures Valid()
      ensures var (s', outcome) := Reserve(old(View()), Numeric(ip), port, nPorts, ttl);
              View() == s' && Reports(outcome, answer, range)
      ensures range != null ==> inUse == [range] + old(inUse)
    {
      if port == 0 || nPorts == 0 || !Filled(ip, ttl) {
        return EInval, null;
      }
      var addr := Addr(ip.value.bytes, port);
      var i := FindAddressInRanges(addresses, addr, port, nPorts, ttl);
      if i < |addresses| {
        range := TakeReserved(i, ip.value, port, nPorts, ttl);
        answer := Ok;
      } else {
        ReserveMiss(View(), Numeric(ip).value, port, nPorts, ttl);
        var j := FindAddressInRanges(inUse, addr, port, nPorts, ttl);
        answer, range := if j < |inUse| then EReserved else ERange, null;
      }
    }

    /** Removes the i-th allocation from its list. */
    method UnlinkUsed(i: nat)
      requires Valid() && i < |inUse|
      modifies this`inUse
      ensures Valid() && old(inUse[i]) !in inUse && old(inUse[i]) !in addresses
      ensures inUse == old(inUse)[..i] + old(inUse)[i + 1..]
      ensures Views(inUse) == Without(old(Views(inUse)), i)
    {
      ViewsWithout(inUse, i);
      NoDupWithout(inUse, i);
      inUse := inUse[..i] + inUse[i + 1..];
    }

    /** Gives an allocation back; one that is not outstanding changes nothing. */
    method ReleaseAddress(range: AddrRange) returns (ghost k: nat)
      requires Valid()
      modifies this
      ensures Valid()
      ensures k <= |old(inUse)| && (k < |old(inUse)| <==> range in old(inUse))
      ensures k < |old(inUse)| ==> old(inUse)[k] == range
      ensures View() == Release(old(View()), k)
      ensures range in old(inUse) ==>
                && range !in inUse && addresses == [range] + old(addresses)
                && inUse == old(inUse)[..k] + old(inUse)[k + 1..]
      ensures range !in old(inUse) ==> addresses == old(addresses) && inUse == old(inUse)
    {
      var i := Position(inUse, range);
      k := i;
      if i < |inUse| {
        ViewsAt(inUse, i);
        UnlinkUsed(i);
        PutBack(range);
      }
    }
  }

  /** Where a range stands in a list; behind its end when it does not. */
  method Position(ranges: seq<AddrRange>, range: AddrRange) returns (i: nat)
    ensures i <= |ranges| && range !in ranges[..i] && (i < |ranges| ==> ranges[i] == range)
  {
    i := 0;
    while i < |ranges| && ranges[i] != range
      invariant 0 <= i <= |ranges| && range !in ranges[..i]
    {
      i := i + 1;
    }
  }

  /** Position of the first range that fits the flags and has enough ports. */
  method FindSuitable(ranges: seq<AddrRange>, flags: Flags, nPorts: int) returns (i: nat)
    ensures i == FirstSuitable(Views(ranges), flags, nPorts)
  {
    i := 0;
    while i < |ranges|
      invariant i <= |ranges|
      invariant forall j :: 0 <= j < i ==> !Suits(Views(ranges)[j], flags, nPorts)
    {
      ViewsAt(ranges, i);
      var walk := ranges[i];
      var size := |walk.ends.min.bytes|;
      var ports := walk.ends.max.port - walk.ends.min.port + 1;
      var skip := if flags.evenPort && walk.ends.min.port % 2 != 0 then 1 else 0;
      if !(flags.ipv4 && size != 4) && !(flags.ipv6 && size != 16)
         && !(flags.multicast && walk.ttl == 0) && !(flags.unicast && walk.ttl != 0)
         && ports - skip >= nPorts {
        return;
      }
      i := i + 1;
    }
  }

  /** Position of the first range that holds the address and all the ports. */
  method FindAddressInRanges(ranges: seq<AddrRange>, addr: Addr, port: nat, nPorts: nat, ttl: nat)
    returns (i: nat)
    ensures i == Find(Views(ranges), |addr.bytes|, addr.Number(), port, nPorts, ttl)
  {
    i := 0;
    while i < |ranges|
      invariant i <= |ranges|
      invariant forall j :: 0 <= j < i ==>
                  !Contains(Views(ranges)[j], |addr.bytes|, addr.Number(), port, nPorts, ttl)
    {
      ViewsAt(ranges, i);
      var walk := ranges[i].ends;
      if |walk.min.bytes| == |addr.bytes| {
        MemCmpIsNumeric(walk.min.bytes, addr.bytes);
        MemCmpIsNumeric(walk.max.bytes, addr.bytes);
        if MemCmp(walk.min.bytes, addr.bytes) <= 0 && MemCmp(walk.max.bytes, addr.bytes) >= 0
           && port >= walk.min.port && (port + nPorts - 1) % TWO32 <= walk.max.port
           && ttl == ranges[i].ttl {
          return;
        }
      }
      i := i + 1;
    }
  }
}
