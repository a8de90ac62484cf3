/** The media object, the transports it counts, and the loop over them. */
module MediaObject {
  import opened MediaState

  class StreamTransport {
    var active: bool

    constructor ()
      ensures !active
    {
      active := false;
    }

    /** Adds the transport to its stream or removes it; out is the stream's answer. */
    method SetActive(on: bool, out: bool) returns (changed: bool)
      modifies this
      ensures Slot.Transport(active) == MediaState.SetActive(Slot.Transport(old(active)), on, out)
      ensures changed <==> active != old(active)
    {
      if active == on {
        return false;
      }
      if out {
        active := on;
      }
      changed := out;
    }
  }

  ghost function SlotOf(t: StreamTransport?): Slot
    reads t
  {
    if t == null then Empty else Slot.Transport(t.active)
  }

  ghost function Slots(ts: seq<StreamTransport?>): (xs: seq<Slot>)
    reads ts
    ensures |xs| == |ts|
  {
    if ts == [] then [] else [SlotOf(ts[0])] + Slots(ts[1..])
  }

  ghost predicate Distinct(ts: seq<StreamTransport?>) {
    forall i, j :: 0 <= i < j < |ts| && ts[i] != null ==> ts[i] != ts[j]
  }

  lemma {:induction false} SetAllSplit(xs: seq<Slot>, on: bool, outs: seq<bool>, i: nat)
    requires i < |xs| == |outs|
    ensures SetAll(xs[..i + 1], on, outs[..i + 1])
            == SetAll(xs[..i], on, outs[..i]) + [MediaState.SetActive(xs[i], on, outs[i])]
    ensures Active(xs[..i + 1]) == Active(xs[..i]) + IsActive(xs[i])
  {
    if i > 0 {
      SetAllSplit(xs[1..], on, outs[1..], i - 1);
      assert xs[..i + 1][1..] == xs[1..][..i] && outs[..i + 1][1..] == outs[1..][..i];
      assert xs[..i][1..] == xs[1..][..i - 1] && outs[..i][1..] == outs[1..][..i - 1];
    } else {
      assert xs[..1][1..] == [] && outs[..1][1..] == [];
    }
  }

  /** The first i of the transports xs have become ys, and delta more of them are active. */
  ghost predicate SwitchedUpto(xs: seq<Slot>, on: bool, outs: seq<bool>, i: nat, ys: seq<Slot>, delta: int)
    requires i <= |xs| == |outs|
  {
    ys == SetAll(xs[..i], on, outs[..i]) && delta == Active(ys) - Active(xs[..i])
  }

  lemma SwitchedMore(xs: seq<Slot>, on: bool, outs: seq<bool>, i: nat, ys: seq<Slot>, delta: int, y: Slot)
    requires i < |xs| == |outs| && y == MediaState.SetActive(xs[i], on, outs[i])
    requires SwitchedUpto(xs, on, outs, i, ys, delta)
    ensures SwitchedUpto(xs, on, outs, i + 1, ys + [y], delta + IsActive(y) - IsActive(xs[i]))
  {
    SetAllSplit(xs, on, outs, i);
    ActiveSnoc(ys, y);
  }

  lemma SwitchedEnds(xs: seq<Slot>, on: bool, outs: seq<bool>)
    requires |xs| == |outs|
    ensures SwitchedUpto(xs, on, outs, 0, [], 0)
    ensures forall ys, delta :: SwitchedUpto(xs, on, outs, |xs|, ys, delta)
              ==> ys == SetAll(xs, on, outs) && delta == Active(ys) - Active(xs)
  {
    assert xs[..|xs|] == xs && outs[..|xs|] == outs;
  }

  lemma {:induction false} ActiveSnoc(xs: seq<Slot>, x: Slot)
    ensures Active(xs + [x]) == Active(xs) + IsActive(x)
  {
    if xs == [] {
      assert ([] + [x])[1..] == [];
    } else {
      assert (xs + [x])[1..] == xs[1..] + [x];
      ActiveSnoc(xs[1..], x);
    }
  }

  lemma {:induction false} SlotsAt(ts: seq<StreamTransport?>, i: nat)
    requires i < |ts|
    ensures Slots(ts)[i] == SlotOf(ts[i])
  {
    if i > 0 {
      SlotsAt(ts[1..], i - 1);
    }
  }

  lemma SlotsAre(ts: seq<StreamTransport?>, xs: seq<Slot>)
    requires |xs| == |ts| && forall i :: 0 <= i < |ts| ==> xs[i] == SlotOf(ts[i])
    ensures Slots(ts) == xs
  {
    forall i | 0 <= i < |ts| ensures Slots(ts)[i] == xs[i] {
      SlotsAt(ts, i);
    }
  }

  /** Switches one configured transport. */
  method SwitchOne(ts: array<StreamTransport?>, i: nat, on: bool, out: bool) returns (delta: int)
    requires i < ts.Length && Distinct(ts[..])
    modifies if ts[i] == null then {} else {ts[i]}
    ensures SlotOf(ts[i]) == MediaState.SetActive(old(SlotOf(ts[i])), on, out)
    ensures delta == IsActive(SlotOf(ts[i])) - IsActive(old(SlotOf(ts[i])))
    ensures forall j :: 0 <= j < ts.Length && j != i ==> SlotOf(ts[j]) == old(SlotOf(ts[j]))
  {
    delta := 0;
    var trans := ts[i];
    if trans != null {
      var changed := trans.SetActive(on, out);
      if changed {
        delta := if on then 1 else -1;
      }
    }
    forall j | 0 <= j < ts.Length && j != i ensures SlotOf(ts[j]) == old(SlotOf(ts[j])) {
      assert ts[..][i] == ts[i] && ts[..][j] == ts[j];
    }
  }

  /** Switches all configured transports; delta is how the number of active ones changed. */
  method SwitchAll(ts: array<StreamTransport?>, on: bool, outs: seq<bool>) returns (delta: int)
    requires |outs| == ts.Length && Distinct(ts[..])
    modifies set t | t in ts[..] && t != null
    ensures Slots(ts[..]) == SetAll(old(Slots(ts[..])), on, outs)
    ensures delta == Active(Slots(ts[..])) - old(Active(Slots(ts[..])))
  {
    ghost var xs := Slots(ts[..]);
    forall i | 0 <= i < ts.Length ensures xs[i] == SlotOf(ts[i]) {
      SlotsAt(ts[..], i);
    }
    SwitchedEnds(xs, on, outs);
    delta := 0;
    ghost var ys: seq<Slot> := [];
    var i := 0;
    while i < ts.Length
      invariant 0 <= i <= ts.Length && |ys| == i
      invariant SwitchedUpto(xs, on, outs, i, ys, delta)
      invariant forall j :: 0 <= j < ts.Length ==> SlotOf(ts[j]) == if j < i then ys[j] else xs[j]
    {
      ghost var y := MediaState.SetActive(xs[i], on, outs[i]);
      SwitchedMore(xs, on, outs, i, ys, delta, y);
      assert ts[i] != null ==> ts[i] in ts[..];
      var d := SwitchOne(ts, i, on, outs[i]);
      delta := delta + d;
      ys := ys + [y];
      i := i + 1;
    }
    SlotsAre(ts[..], ys);
  }

  /** Every transport has been switched as the request asks. */
  lemma EverySlotIsSwitched(m: Media, asked: PipeState, xs: seq<Slot>, outs: seq<bool>, accepts: bool,
                            ts: array<StreamTransport?>)
    requires |outs| == |xs| == ts.Length && m.status in {Prepared, Suspended}
    requires Slots(ts[..]) == MediaState.SetState(m, asked, xs, outs, accepts).slots
    ensures forall i :: 0 <= i < ts.Length && ts[i] != null ==>
              (ts[i].active <==>
                 if asked == Playing then Plays(xs[i]) || (xs[i] != Empty && outs[i])
                 else if asked in {Paused, Ready, Null} && m.target == Playing then Plays(xs[i]) && !outs[i]
                 else Plays(xs[i]))
  {
    forall i | 0 <= i < ts.Length && ts[i] != null
      ensures SlotOf(ts[i]) == MediaState.SetState(m, asked, xs, outs, accepts).slots[i]
      ensures ts[i].active <==>
                 if asked == Playing then Plays(xs[i]) || (xs[i] != Empty && outs[i])
                 else if asked in {Paused, Ready, Null} && m.target == Playing then Plays(xs[i]) && !outs[i]
                 else Plays(xs[i])
    {
      SlotsAt(ts[..], i);
      EveryTransportIsSwitched(m, asked, xs, outs, accepts, i);
    }
  }

  class RtspMedia {
    var status: Status
    var prepareCount: int
    var nActive: int
    var target: PipeState
    var pipeline: PipeState
    var suspendMode: SuspendMode
    var reusable: bool
    var reused: bool
    var eosShutdown: bool
    var buffering: bool

    constructor (mode: SuspendMode, reusable: bool, eosShutdown: bool)
      ensures View() == Media(Unprepared, 0, 0, Void, Null, mode, reusable, false, eosShutdown, false)
    {
      status, prepareCount, nActive, target, pipeline := Unprepared, 0, 0, Void, Null;
      suspendMode, this.reusable, reused, this.eosShutdown, buffering := mode, reusable, false, eosShutdown, false;
    }

    ghost function View(): Media
      reads this
    {
      Media(status, prepareCount, nActive, target, pipeline, suspendMode, reusable, reused, eosShutdown, buffering)
    }

    method FinishUnprepare()
      modifies this
      ensures View() == MediaState.FinishUnprepare(old(View()))
    {
      pipeline := Null;
      reused := true;
      status := Unprepared;
    }

    method DefaultUnprepare()
      modifies this
      ensures View() == MediaState.DefaultUnprepare(old(View()))
    {
      if eosShutdown {
        pipeline := Playing;
        status := Unpreparing;
      } else {
        FinishUnprepare();
      }
    }

    method Unprepare()
      modifies this
      ensures View() == MediaState.Unprepare(old(View()))
    {
      if status == Unprepared {
        return;
      }
      prepareCount := prepareCount - 1;
      if prepareCount > 0 {
        return;
      }
      target := Null;
      if status == Prepared {
        DefaultUnprepare();
      } else {
        FinishUnprepare();
      }
    }

    /** The part of prepare before it waits. */
    method PrepareBegin(hasBin: bool) returns (answer: PrepareAnswer)
      modifies this
      ensures (View(), answer) == MediaState.PrepareBegin(old(View()), hasBin)
    {
      prepareCount := prepareCount + 1;
      if status == Prepared || status == Suspended {
        return AlreadyPrepared;
      }
      if status == Preparing {
        return MustWait;
      }
      if status != Unprepared || (!reusable && reused) || !hasBin {
        prepareCount := prepareCount - 1;
        return Refused;
      }
      buffering := false;
      status := Preparing;
      answer := MustWait;
    }

    /** The part of prepare after its wait. */
    method PrepareEnd() returns (ok: bool)
      modifies this
      ensures View() == MediaState.PrepareEnd(old(View())) && (ok <==> old(status) != Error)
    {
      ok := status != Error;
      if !ok {
        Unprepare();
      }
    }

    /** Suspends an idle media; accepts is the pipeline's answer. */
    method Suspend(accepts: bool) returns (ok: bool)
      modifies this
      ensures View() == MediaState.Suspend(old(View()), accepts)
      ensures ok <==> old(status) == Prepared && status != Error
    {
      if status != Prepared {
        return false;
      }
      if nActive > 0 {
        return true;
      }
      match suspendMode {
        case NoSuspend =>
        case SuspendToPaused =>
          target := Paused;
          if !accepts { status := Error; return false; }
          pipeline := Paused;
        case SuspendToNull =>
          target := Null;
          if !accepts { status := Error; return false; }
          pipeline := Null;
      }
      status := Suspended;
      ok := true;
    }

    method StartPreroll(answer: Preroll) returns (ok: bool)
      modifies this
      ensures View() == MediaState.StartPreroll(old(View()), answer) && (ok <==> answer != Fails)
    {
      target := Paused;
      pipeline := Paused;
      if answer == WorksLive {
        pipeline := Playing;
      }
      ok := answer != Fails;
    }

    /** unsuspend up to where it waits for preroll. */
    method UnsuspendBegin(answer: Preroll)
      modifies this
      ensures View() == MediaState.UnsuspendBegin(old(View()), answer)
    {
      if status != Suspended {
        return;
      }
      if suspendMode != SuspendToNull {
        status := Prepared;
      } else {
        status := Preparing;
        var ok := StartPreroll(answer);
        if !ok {
          status := Error;
        }
      }
    }

    method SetPipelineState(state: PipeState, accepts: bool)
      modifies this
      ensures View() == MediaState.SetPipelineState(old(View()), state, accepts)
    {
      if state == Null {
        Unprepare();
      } else {
        target := state;
        if !buffering {
          pipeline := state;
          if state == Paused {
            var _ := Suspend(accepts);
          }
        }
      }
    }

    /** The part of set_state that switches the transports and counts them. */
    method CountTransports(state: PipeState, ts: array<StreamTransport?>, outs: seq<bool>)
      requires |outs| == ts.Length && Distinct(ts[..])
      modifies this`nActive, set t | t in ts[..] && t != null
      ensures var xs := old(Slots(ts[..]));
              var ys := Switched(old(View()), state, xs, outs);
              Slots(ts[..]) == ys && View() == old(View()).(nActive := old(nActive) + Active(ys) - Active(xs))
    {
      var activate := state == Playing;
      var deactivate := (state == Null || state == Paused) && target == Playing;
      if activate || deactivate {
        var delta := SwitchAll(ts, activate, outs);
        nActive := nActive + delta;
      }
    }

    /** The part of set_state that moves the pipeline: when the first transport has been
        activated, or none is left. */
    method ChangeState(state: PipeState, oldActive: int, accepts: bool)
      modifies this
      ensures View() == if old(target) != state && ((oldActive == 0 && state == Playing) || old(nActive) == 0)
                        then MediaState.SetPipelineState(old(View()), state, accepts) else old(View())
    {
      if target != state && ((oldActive == 0 && state == Playing) || nActive == 0) {
        SetPipelineState(state, accepts);
      }
    }

    /** set_state of a media that is prepared or suspended. */
    method ServeState(asked: PipeState, ts: array<StreamTransport?>, outs: seq<bool>, accepts: bool)
      requires |outs| == ts.Length && Distinct(ts[..]) && status in {Prepared, Suspended}
      modifies this, set t | t in ts[..] && t != null
      ensures SetStateResult(View(), Slots(ts[..]), true)
              == MediaState.SetState(old(View()), asked, old(Slots(ts[..])), outs, accepts)
    {
      ghost var m, xs := View(), Slots(ts[..]);
      var state := if asked == Ready then Null else asked;
      var oldActive := nActive;
      CountTransports(state, ts, outs);
      ghost var m1, ys := View(), Slots(ts[..]);
      SetStateServed(m, asked, xs, outs, accepts, m1, ys);
      ChangeState(state, oldActive, accepts);
      assert Slots(ts[..]) == ys;
    }

    /** Changes the state of the media for the transports of one session. */
    method SetState(asked: PipeState, ts: array<StreamTransport?>, outs: seq<bool>, accepts: bool)
      returns (ok: bool)
      requires |outs| == ts.Length && Distinct(ts[..])
      modifies this, set t | t in ts[..] && t != null
      ensures SetStateResult(View(), Slots(ts[..]), ok)
              == MediaState.SetState(old(View()), asked, old(Slots(ts[..])), outs, accepts)
      ensures forall i :: 0 <= i < ts.Length && ts[i] != null && old(status) in {Prepared, Suspended} ==>
                (ts[i].active <==>
                   if asked == Playing then old(ts[i].active) || outs[i]
                   else if asked in {Paused, Ready, Null} && old(target) == Playing then old(ts[i].active) && !outs[i]
                   else old(ts[i].active))
    {
      ghost var m, xs := View(), Slots(ts[..]);
      forall i | 0 <= i < ts.Length ensures xs[i] == SlotOf(ts[i]) {
        SlotsAt(ts[..], i);
      }
      ok := status == Prepared || status == Suspended;
      if ok {
        ServeState(asked, ts, outs, accepts);
      } else if status == Error && asked == Null {
        var _ := SwitchAll(ts, false, outs);
        nActive := 0;
      }
      if ok {
        EverySlotIsSwitched(m, asked, xs, outs, accepts, ts);
      }
    }

    /** A buffering, asynchronous-done, end-of-stream or error message from the bus. */
    method HandleBuffering(live: bool, full: bool)
      modifies this
      ensures View() == BufferingMessage(old(View()), live, full)
    {
      if live {
        return;
      }
      if full {
        buffering := false;
        if target == Playing {
          pipeline := Playing;
        }
      } else {
        if !buffering && target == Playing {
          pipeline := Paused;
        }
        buffering := true;
      }
    }

    method HandleEos()
      modifies this
      ensures View() == if old(status) == Unpreparing then MediaState.FinishUnprepare(old(View())) else old(View())
    {
      if status == Unpreparing {
        FinishUnprepare();
      }
    }
  }
}
