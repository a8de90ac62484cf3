/** The RTP-Info header of a PLAY response (section 12.33 of RFC 2326): the timestamps of
    all streams are moved back to the running time of the earliest one. */
module RtpInfo {
  import opened Machine
  import opened Wrappers

  const SECOND := 1_000_000_000

  /** A clock time that is not known. */
  const NONE := TWO64 - 1

  /** What a stream knows: timestamp, sequence number, clock rate and running time in ns. */
  datatype Raw = Info(rtptime: nat, seqnum: nat, rate: nat, running: nat)

  type Info = x: Raw | x.rtptime < TWO32 && 0 < x.rate < 0x8000_0000 && x.running < TWO64
    witness Info(0, 0, 1, 0)

  /** A slot of the session's transport array: not configured, or with what its stream
      knows, if anything. */
  datatype Slot = Unconfigured | Configured(info: Option<Info>)

  /** One element of the header. */
  datatype Entry = Entry(stream: nat, seqnum: nat, rtptime: nat)

  /** gst_util_uint64_scale_int: value * num / denom, saturated. */
  function Scale(value: nat, num: nat, denom: nat): nat
    requires denom > 0
  {
    var x := value * num / denom;
    if x < TWO64 then x else TWO64 - 1
  }

  predicate Knows(x: Slot) { x.Configured? && x.info.Some? }

  /** The rtptime put into the header for a start time. */
  function Shifted(x: Info, start: nat): (r: nat)
    ensures r < TWO32
  {
    if x.running == NONE || start == NONE then x.rtptime
    else if x.running > start then (x.rtptime - Scale(x.running - start, x.rate, SECOND)) % TWO32
    else (x.rtptime + Scale(start - x.running, x.rate, SECOND)) % TWO32
  }

  /** The running time of every stream that has one is at least start, and start is one of
      them, or unknown when no stream has one. */
  predicate IsEarliest(xs: seq<Slot>, start: nat) {
    && start < TWO64
    && (forall i :: 0 <= i < |xs| && Knows(xs[i]) ==> start <= xs[i].info.value.running)
    && (start == NONE || exists i :: 0 <= i < |xs| && Knows(xs[i]) && start == xs[i].info.value.running)
  }

  lemma EarliestIsUnique(xs: seq<Slot>, a: nat, b: nat)
    requires IsEarliest(xs, a) && IsEarliest(xs, b)
    ensures a == b
  {
    if a != NONE {
      var i :| 0 <= i < |xs| && Knows(xs[i]) && a == xs[i].info.value.running;
      assert b <= a;
    }
    if b != NONE {
      var i :| 0 <= i < |xs| && Knows(xs[i]) && b == xs[i].info.value.running;
      assert a <= b;
    }
  }

  /** One entry for each stream that knows something, in stream order. */
  function Entries(xs: seq<Slot>, start: nat): seq<Entry> {
    if xs == [] then []
    else
      var n := |xs| - 1;
      Entries(xs[..n], start)
      + if Knows(xs[n]) then [Entry(n, xs[n].info.value.seqnum, Shifted(xs[n].info.value, start))] else []
  }

  /** get_rtpinfo of a prepared media: first the earliest running time, then the header
      elements; None stands for no header at all. */
  method GetRtpInfo(transports: array<Slot>, prepared: bool) returns (header: Option<seq<Entry>>)
    ensures !prepared ==> header == None
    ensures prepared ==>
              exists start :: IsEarliest(transports[..], start)
                && header == (var es := Entries(transports[..], start); if es == [] then None else Some(es))
  {
    if !prepared {
      return None;
    }
    var earliest: nat := NONE;
    var i := 0;
    while i < transports.Length
      invariant 0 <= i <= transports.Length
      invariant IsEarliest(transports[..i], earliest)
    {
      ghost var before := transports[..i];
      var x := transports[i];
      assert transports[..i + 1] == before + [x];
      i := i + 1;
      if Knows(x) {
        EarliestGrows(before, x, earliest);
        earliest := if earliest == NONE then x.info.value.running
                    else if earliest < x.info.value.running then earliest else x.info.value.running;
      }
    }
    assert transports[..i] == transports[..];
    var es: seq<Entry> := [];
    i := 0;
    while i < transports.Length
      invariant 0 <= i <= transports.Length
      invariant es == Entries(transports[..i], earliest)
    {
      var x := transports[i];
      assert transports[..i + 1][..i] == transports[..i];
      i := i + 1;
      if Knows(x) {
        es := es + [Entry(i - 1, x.info.value.seqnum, Shifted(x.info.value, earliest))];
      }
    }
    assert transports[..i] == transports[..];
    header := if es == [] then None else Some(es);
  }

  lemma EarliestGrows(xs: seq<Slot>, x: Slot, start: nat)
    requires IsEarliest(xs, start) && Knows(x)
    ensures IsEarliest(xs + [x], if start < x.info.value.running then start else x.info.value.running)
  {
    var ys := xs + [x];
    assert ys[|xs|] == x;
    forall i | 0 <= i < |xs| ensures ys[i] == xs[i] {}
    if start != NONE && start < x.info.value.running {
      var i :| 0 <= i < |xs| && Knows(xs[i]) && start == xs[i].info.value.running;
      assert Knows(ys[i]) && start == ys[i].info.value.running;
    }
  }

  // ---------- what the header says ----------

  /** The instant that an emitted timestamp names, in units of 1/(rate * 10^9) seconds: the
      stream's own running time less the ticks it was moved back. */
  function NamedInstant(x: Info, ticks: nat): int {
    x.running * x.rate - ticks * SECOND
  }

  /** How many ticks a stream is moved back. */
  function TicksBack(x: Info, start: nat): nat
    requires start <= x.running
  {
    (x.running - start) * x.rate / SECOND
  }

  lemma DivBounds(a: nat, d: nat)
    requires d > 0
    ensures d * (a / d) <= a < d * (a / d) + d
  {
  }

  /** The ticks as the code computes them, and when the difference matters in 32 bits. */
  lemma SaturatedTicks(rtptime: nat, k: nat)
    ensures var sat := if k < TWO64 then k else TWO64 - 1;
            && ((rtptime - sat) % TWO32 == (rtptime - k) % TWO32 <==> k < TWO64 || (k + 1) % TWO32 == 0)
            && (k >= TWO64 ==> (rtptime - sat) % TWO32 == (rtptime + 1) % TWO32)
  {
    if k >= TWO64 {
      assert rtptime - (TWO64 - 1) == rtptime + 1 - TWO32 * TWO32;
      SameResidueIff(rtptime + 1, rtptime - k);
    }
  }

  lemma SameResidueIff(a: int, b: int)
    ensures a % TWO32 == b % TWO32 <==> (a - b) % TWO32 == 0
  {
  }

  /** Every emitted timestamp names the instant of the earliest stream to within one tick
      of its own clock, if and only if the ticks fit 64 bits or all that is lost are whole
      turns of the 32-bit timestamp; clocks of up to one GHz always fit. The earliest stream
      keeps its timestamp. */
  lemma StreamsAgreeOnTheInstant(xs: seq<Slot>, start: nat, i: nat)
    requires IsEarliest(xs, start) && i < |xs| && Knows(xs[i])
    requires xs[i].info.value.running != NONE
    ensures var x := xs[i].info.value;
            var k := TicksBack(x, start);
            && (Shifted(x, start) == (x.rtptime - k) % TWO32 <==> k < TWO64 || (k + 1) % TWO32 == 0)
            && (x.rate <= SECOND ==> k < TWO64)
            && (k >= TWO64 ==> Shifted(x, start) == (x.rtptime + 1) % TWO32)
            && start * x.rate <= NamedInstant(x, k) < start * x.rate + SECOND
            && (x.running == start ==> Shifted(x, start) == x.rtptime)
  {
    var x := xs[i].info.value;
    NamedBounds(x, start);
    SaturatedTicks(x.rtptime, TicksBack(x, start));
    if x.rate <= SECOND {
      SlowClock(x.running - start, x.rate);
    }
    if x.running == start {
      assert (x.running - start) * x.rate == 0;
    }
  }

  lemma NamedBounds(x: Info, start: nat)
    requires start <= x.running
    ensures var k := TicksBack(x, start);
            start * x.rate <= NamedInstant(x, k) < start * x.rate + SECOND
  {
    var d := (x.running - start) * x.rate;
    DivBounds(d, SECOND);
    assert d == x.running * x.rate - start * x.rate;
  }

  lemma SlowClock(t: nat, rate: nat)
    requires t < TWO64 && rate <= SECOND
    ensures t * rate / SECOND < TWO64
  {
    NoLess(t, rate);
    DivAtMost(t * rate, t);
  }

  lemma NoLess(t: nat, rate: nat)
    requires rate <= SECOND
    ensures t * rate <= t * SECOND
  {
    assert t * SECOND == t * rate + t * (SECOND - rate);
  }

  lemma DivAtMost(x: nat, t: nat)
    requires x <= t * SECOND
    ensures x / SECOND <= t
  {
  }

  /** A stream that runs a second, a thousand million nanoseconds, behind the earliest one is
      moved back by the ticks of one second. */
  lemma OneSecondIsTheRate(x: Info, start: nat)
    requires x.running == start + 1_000_000_000
    ensures TicksBack(x, start) == x.rate
  {
    assert (x.running - start) * x.rate == 1_000_000_000 * x.rate;
  }

  /** The branch that would move a timestamp forward never moves it. */
  lemma NothingMovesForward(xs: seq<Slot>, start: nat, i: nat)
    requires IsEarliest(xs, start) && i < |xs| && Knows(xs[i])
    ensures var x := xs[i].info.value;
            !(x.running > start) ==> Shifted(x, start) == x.rtptime
  {
    var x := xs[i].info.value;
    if x.running == start {
      assert (start - x.running) * x.rate == 0;
    }
  }

  /** Exactly the streams that know something appear, each once and in order. */
  lemma {:induction false} EntriesAreTheKnowing(xs: seq<Slot>, start: nat)
    ensures forall e :: e in Entries(xs, start) ==>
              e.stream < |xs| && Knows(xs[e.stream])
              && e == Entry(e.stream, xs[e.stream].info.value.seqnum, Shifted(xs[e.stream].info.value, start))
    ensures forall i :: 0 <= i < |xs| && Knows(xs[i]) ==>
              Entry(i, xs[i].info.value.seqnum, Shifted(xs[i].info.value, start)) in Entries(xs, start)
    ensures forall a, b :: 0 <= a < b < |Entries(xs, start)| ==>
              Entries(xs, start)[a].stream < Entries(xs, start)[b].stream
  {
    if xs != [] {
      EntriesAreTheKnowing(xs[..|xs| - 1], start);
    }
  }
}
