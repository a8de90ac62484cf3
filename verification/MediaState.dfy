/** The life cycle of a media that several sessions may share. */
module MediaState {

  datatype Status = Unprepared | Unpreparing | Preparing | Prepared | Suspended | Error

  /** Pipeline states; Void is the target of a media never prepared. */
  datatype PipeState = Void | Null | Ready | Paused | Playing

  datatype SuspendMode = NoSuspend | SuspendToPaused | SuspendToNull

  datatype Media = Media(
    status: Status,
    prepareCount: int,
    nActive: int,
    target: PipeState,
    pipeline: PipeState,     // the state last asked of the pipeline
    suspendMode: SuspendMode,
    reusable: bool,
    reused: bool,
    eosShutdown: bool,
    buffering: bool)

  /** One entry of a session's transport array. */
  datatype Slot = Empty | Transport(active: bool)

  // ---------- media operations ----------

  function FinishUnprepare(m: Media): Media {
    m.(pipeline := Null, reused := true, status := Unprepared)
  }

  function DefaultUnprepare(m: Media): Media {
    if m.eosShutdown then m.(pipeline := Playing, status := Unpreparing) else FinishUnprepare(m)
  }

  function Unprepare(m: Media): Media {
    if m.status == Unprepared then m
    else
      var m1 := m.(prepareCount := m.prepareCount - 1);
      if m1.prepareCount > 0 then m1
      else
        var m2 := m1.(target := Null);
        if m2.status == Prepared then DefaultUnprepare(m2) else FinishUnprepare(m2)
  }

  function SuspendState(mode: SuspendMode): PipeState {
    if mode == SuspendToPaused then Paused else Null
  }

  /** ok tells whether the pipeline accepts the state it is asked for. */
  function Suspend(m: Media, ok: bool): Media {
    if m.status != Prepared || m.nActive > 0 then m
    else if m.suspendMode == NoSuspend then m.(status := Suspended)
    else
      var to := SuspendState(m.suspendMode);
      if ok then m.(target := to, pipeline := to, status := Suspended)
      else m.(target := to, status := Error)
  }

  /** What the pipeline answers when it is asked to preroll. */
  datatype Preroll = Fails | Works | WorksLive

  function StartPreroll(m: Media, answer: Preroll): Media {
    m.(target := Paused, pipeline := if answer == WorksLive then Playing else Paused)
  }

  /** Leaves suspension; after a reset the pipeline has to preroll again, which the caller
      waits for. */
  function UnsuspendBegin(m: Media, answer: Preroll): Media {
    if m.status != Suspended then m
    else if m.suspendMode != SuspendToNull then m.(status := Prepared)
    else if answer == Fails then StartPreroll(m, answer).(status := Error)
    else StartPreroll(m, answer).(status := Preparing)
  }

  /** The end of a wait for preroll: the pipeline is ready, or failed or took too long. */
  function PrerollDone(m: Media, ok: bool): Media {
    if m.status == Preparing then m.(status := if ok then Prepared else Error) else m
  }

  datatype PrepareAnswer = Refused | AlreadyPrepared | MustWait

  /** prepare up to the point where it returns or waits; hasBin tells whether an rtpbin
      could be made. */
  function PrepareBegin(m: Media, hasBin: bool): (Media, PrepareAnswer) {
    var m1 := m.(prepareCount := m.prepareCount + 1);
    if m.status == Prepared || m.status == Suspended then (m1, AlreadyPrepared)
    else if m.status == Preparing then (m1, MustWait)
    else if m.status != Unprepared || (!m.reusable && m.reused) || !hasBin then (m, Refused)
    else (m1.(buffering := false, status := Preparing), MustWait)
  }

  /** The remainder of a first prepare, run by the media's own thread. */
  function StartPrepare(m: Media, answer: Preroll): Media {
    var m1 := StartPreroll(m, answer);
    if answer == Fails then m1.(status := Error) else m1
  }

  /** prepare after its wait: a failed preroll gives the count back. */
  function PrepareEnd(m: Media): Media {
    if m.status == Error then Unprepare(m) else m
  }

  function SetPipelineState(m: Media, state: PipeState, ok: bool): Media {
    if state == Null then Unprepare(m)
    else
      var m1 := m.(target := state);
      if m1.buffering then m1
      else
        var m2 := m1.(pipeline := state);
        if state == Paused then Suspend(m2, ok) else m2
  }

  // ---------- transports ----------

  /** set_active: out is the answer of the stream to adding or removing the transport. */
  function SetActive(x: Slot, on: bool, out: bool): Slot {
    if x.Transport? && x.active != on && out then Transport(on) else x
  }

  function SetAll(xs: seq<Slot>, on: bool, outs: seq<bool>): (ys: seq<Slot>)
    requires |outs| == |xs|
    ensures |ys| == |xs|
  {
    if xs == [] then [] else [SetActive(xs[0], on, outs[0])] + SetAll(xs[1..], on, outs[1..])
  }

  function IsActive(x: Slot): nat { if x == Transport(true) then 1 else 0 }

  function Active(xs: seq<Slot>): nat {
    if xs == [] then 0 else IsActive(xs[0]) + Active(xs[1..])
  }

  datatype SetStateResult = SetStateResult(media: Media, slots: seq<Slot>, ok: bool)

  /** The transports after those of a session have been switched on, off, or left alone. */
  function Switched(m: Media, state: PipeState, xs: seq<Slot>, outs: seq<bool>): (ys: seq<Slot>)
    requires |outs| == |xs|
    ensures |ys| == |xs|
  {
    if state == Playing then SetAll(xs, true, outs)
    else if (state == Null || state == Paused) && m.target == Playing then SetAll(xs, false, outs)
    else xs
  }

  /** set_state for the transports of one session. */
  function SetState(m: Media, asked: PipeState, xs: seq<Slot>, outs: seq<bool>, ok: bool): SetStateResult
    requires |outs| == |xs|
  {
    if m.status == Error then
      if asked == Null then SetStateResult(m.(nActive := 0), SetAll(xs, false, outs), false)
      else SetStateResult(m, xs, false)
    else if m.status != Prepared && m.status != Suspended then SetStateResult(m, xs, false)
    else
      var state := if asked == Ready then Null else asked;
      var ys := Switched(m, state, xs, outs);
      var m1 := m.(nActive := m.nActive + Active(ys) - Active(xs));
      var doState := (m.nActive == 0 && state == Playing) || m1.nActive == 0;
      SetStateResult(if m1.target != state && doState then SetPipelineState(m1, state, ok) else m1, ys, true)
  }

  // ---------- the server around one media ----------

  /** The sessions with their transports, and how many transports were freed with their
      session while they were active. */
  datatype Server = Server(media: Media, sessions: seq<seq<Slot>>, gone: nat)

  function TotalActive(sessions: seq<seq<Slot>>): nat {
    if sessions == [] then 0 else Active(sessions[0]) + TotalActive(sessions[1..])
  }

  datatype Event =
    | Setup(slots: nat)                                   // a new session with that many streams
    | Configure(s: nat, i: nat)                           // SETUP of one stream
    | Play(s: nat, answer: Preroll, prerolled: bool, outs: seq<bool>, ok: bool)
    | Pause(s: nat, outs: seq<bool>, ok: bool)
    | Teardown(s: nat, outs: seq<bool>, again: seq<bool>, ok: bool)
    | Expire(s: nat, outs: seq<bool>, ok: bool)            // its session timed out
    | Prepare(hasBin: bool, answer: Preroll, prerolled: bool)
    | Describe(ok: bool)                                  // suspends the media
    | Seek(prerolled: bool)
    | Buffering(live: bool, full: bool)
    | Eos
    | BusError

  predicate Fits(sv: Server, s: nat, outs: seq<bool>) {
    s < |sv.sessions| && |outs| == |sv.sessions[s]|
  }

  predicate Possible(sv: Server, e: Event) {
    match e
    case Configure(s, i) => s < |sv.sessions| && i < |sv.sessions[s]|
    case Play(s, _, _, outs, _) => Fits(sv, s, outs)
    case Pause(s, outs, _) => Fits(sv, s, outs)
    case Teardown(s, outs, again, _) => Fits(sv, s, outs) && Fits(sv, s, again)
    case Expire(s, outs, _) => Fits(sv, s, outs)
    case _ => true
  }

  /** set_state for one session of the server. */
  function SetSession(sv: Server, s: nat, state: PipeState, outs: seq<bool>, ok: bool): Server
    requires Fits(sv, s, outs)
  {
    var r := SetState(sv.media, state, sv.sessions[s], outs, ok);
    sv.(media := r.media, sessions := sv.sessions[s := r.slots])
  }

  /** The session media is freed, and its transports with it. */
  function Release(sv: Server, s: nat): Server
    requires s < |sv.sessions|
  {
    sv.(sessions := sv.sessions[s := []], gone := sv.gone + Active(sv.sessions[s]))
  }

  function Handle(sv: Server, e: Event): Server
    requires Possible(sv, e)
  {
    match e
    case Setup(n) => sv.(sessions := sv.sessions + [seq(n, i => Empty)])
    case Configure(s, i) =>
      if sv.sessions[s][i].Empty?
      then sv.(sessions := sv.sessions[s := sv.sessions[s][i := Transport(false)]]) else sv
    case Play(s, answer, prerolled, outs, ok) =>
      var m := PrerollDone(UnsuspendBegin(sv.media, answer), prerolled);
      if sv.media.status == Suspended && m.status == Error then sv.(media := m)
      else SetSession(sv.(media := m), s, Playing, outs, ok)
    case Pause(s, outs, ok) => SetSession(sv, s, Paused, outs, ok)
    case Teardown(s, outs, again, ok) =>
      // once by the request, once more when the session media is finalized
      Release(SetSession(SetSession(sv, s, Null, outs, ok), s, Null, again, ok), s)
    case Expire(s, outs, ok) => Release(SetSession(sv, s, Null, outs, ok), s)
    case Prepare(hasBin, answer, prerolled) =>
      var (m, r) := PrepareBegin(sv.media, hasBin);
      if sv.media.status == Unprepared && r == MustWait
      then sv.(media := PrepareEnd(PrerollDone(StartPrepare(m, answer), prerolled)))
      else sv.(media := m)
    case Describe(ok) => sv.(media := Suspend(sv.media, ok))
    case Seek(prerolled) =>
      if sv.media.status != Prepared then sv
      else sv.(media := PrerollDone(sv.media.(status := Preparing), prerolled))
    case Buffering(live, full) => sv.(media := BufferingMessage(sv.media, live, full))
    case Eos =>
      if sv.media.status == Unpreparing then sv.(media := FinishUnprepare(sv.media)) else sv
    case BusError => sv.(media := sv.media.(status := Error))
  }

  function BufferingMessage(m: Media, live: bool, full: bool): Media {
    if live then m
    else if full then m.(buffering := false, pipeline := if m.target == Playing then Playing else m.pipeline)
    else m.(buffering := true, pipeline := if !m.buffering && m.target == Playing then Paused else m.pipeline)
  }

  // ---------- the shared-media invariant ----------

  /** With total active transports: the count is right; a media that is suspended or shut
      down serves nobody; while anyone is served the target is PLAYING, and towards that
      target the pipeline plays unless it is buffering. */
  predicate Good(m: Media, total: nat) {
    && m.nActive == total
    && (m.status in {Suspended, Unprepared, Unpreparing} ==> total == 0)
    && (m.status in {Unprepared, Unpreparing} ==> m.target != Playing)
    && (total > 0 ==> m.target == Playing)
    && (m.target == Playing ==> m.pipeline == Playing || m.buffering)
  }

  /** What the media should count: the active transports of the sessions, and those it can
      no longer be told about. */
  function Counted(sv: Server): nat {
    TotalActive(sv.sessions) + sv.gone
  }

  predicate Inv(sv: Server) {
    Good(sv.media, Counted(sv))
  }

  lemma {:induction false} TotalUpdate(sessions: seq<seq<Slot>>, s: nat, ys: seq<Slot>)
    requires s < |sessions|
    ensures TotalActive(sessions[s := ys]) == TotalActive(sessions) - Active(sessions[s]) + Active(ys)
  {
    if s > 0 {
      TotalUpdate(sessions[1..], s - 1, ys);
      assert sessions[s := ys][1..] == sessions[1..][s - 1 := ys];
    } else {
      assert sessions[0 := ys][1..] == sessions[1..];
    }
  }

  /** Activating never lowers, deactivating never raises the number of active ones. */
  lemma {:induction false} SetAllDirection(xs: seq<Slot>, on: bool, outs: seq<bool>)
    requires |outs| == |xs|
    ensures on ==> Active(SetAll(xs, on, outs)) >= Active(xs)
    ensures !on ==> Active(SetAll(xs, on, outs)) <= Active(xs)
  {
    if xs != [] {
      SetAllDirection(xs[1..], on, outs[1..]);
    }
  }

  lemma {:induction false} ActiveWithinTotal(sessions: seq<seq<Slot>>, s: nat)
    requires s < |sessions|
    ensures Active(sessions[s]) <= TotalActive(sessions)
  {
    if s > 0 {
      ActiveWithinTotal(sessions[1..], s - 1);
    }
  }

  lemma SetPipelineStateKeepsGood(m: Media, state: PipeState, ok: bool, total: nat)
    requires m.nActive == total && m.status in {Prepared, Suspended}
    requires state in {Null, Paused, Playing}
    requires state != Playing ==> total == 0
    requires m.status == Suspended ==> total == 0
    ensures var m' := SetPipelineState(m, state, ok);
            m'.status == Error || (Good(m', total) || state == Null)
    ensures var m' := SetPipelineState(m, state, ok);
            state == Null && m'.target != m.target ==> Good(m', total)
    ensures state == Null && SetPipelineState(m, state, ok).target == m.target && m.target != Null
            ==> SetPipelineState(m, state, ok) == m.(prepareCount := m.prepareCount - 1)
  {
  }

  /** set_state of a media in use: the transports switched, and then the media. */
  lemma SetStateServed(m: Media, asked: PipeState, xs: seq<Slot>, outs: seq<bool>, ok: bool,
                       m1: Media, ys: seq<Slot>)
    requires |outs| == |xs| && m.status in {Prepared, Suspended}
    requires ys == Switched(m, if asked == Ready then Null else asked, xs, outs)
    requires m1 == m.(nActive := m.nActive + Active(ys) - Active(xs))
    ensures var state := if asked == Ready then Null else asked;
            SetState(m, asked, xs, outs, ok)
            == SetStateResult(if m.target != state && ((m.nActive == 0 && state == Playing) || m1.nActive == 0)
                              then SetPipelineState(m1, state, ok) else m1, ys, true)
  {
  }

  lemma SwitchedDirection(m: Media, state: PipeState, xs: seq<Slot>, outs: seq<bool>)
    requires |outs| == |xs|
    ensures var ys := Switched(m, state, xs, outs);
            && (if state == Playing then Active(ys) >= Active(xs) else Active(ys) <= Active(xs))
            && (state != Playing && m.target != Playing ==> ys == xs)
  {
    SetAllDirection(xs, state == Playing, outs);
  }

  lemma ServedKeepsGood(m: Media, state: PipeState, ok: bool, m1: Media, served: nat, total: nat)
    requires Good(m, total) && m.status in {Prepared, Suspended}
    requires state in {Null, Paused, Playing} && (state == Playing ==> m.status != Suspended)
    requires m1 == m.(nActive := served)
    requires if state == Playing then served >= total else served <= total
    requires state != Playing && m.target != Playing ==> served == total
    ensures var m' := if m.target != state && ((m.nActive == 0 && state == Playing) || m1.nActive == 0)
                      then SetPipelineState(m1, state, ok) else m1;
            m'.status != Error ==> Good(m', served)
  {
    if served > 0 ==> state == Playing {
      SetPipelineStateKeepsGood(m1, state, ok, served);
    }
  }

  lemma SetStateKeepsGood(m: Media, state: PipeState, xs: seq<Slot>, outs: seq<bool>, ok: bool, total: nat)
    requires |outs| == |xs| && Active(xs) <= total && Good(m, total) && m.status != Error
    requires state == Playing ==> m.status != Suspended
    requires state in {Null, Paused, Playing}
    ensures var r := SetState(m, state, xs, outs, ok);
            r.media.status != Error ==> Good(r.media, total - Active(xs) + Active(r.slots))
  {
    if m.status in {Prepared, Suspended} {
      var ys := Switched(m, state, xs, outs);
      var served := total - Active(xs) + Active(ys);
      SwitchedDirection(m, state, xs, outs);
      SetStateServed(m, state, xs, outs, ok, m.(nActive := served), ys);
      ServedKeepsGood(m, state, ok, m.(nActive := served), served, total);
    }
  }

  /** A set_state of one session keeps the invariant; PLAYING must not find the media
      suspended, which is what unsuspending first is for. */
  lemma SetSessionKeepsInv(sv: Server, s: nat, state: PipeState, outs: seq<bool>, ok: bool)
    requires Inv(sv) && sv.media.status != Error && Fits(sv, s, outs)
    requires state == Playing ==> sv.media.status != Suspended
    requires state in {Null, Paused, Playing}
    ensures var sv' := SetSession(sv, s, state, outs, ok);
            sv'.media.status != Error ==> Inv(sv')
  {
    ActiveWithinTotal(sv.sessions, s);
    SetStateKeepsGood(sv.media, state, sv.sessions[s], outs, ok, Counted(sv));
    TotalUpdate(sv.sessions, s, SetState(sv.media, state, sv.sessions[s], outs, ok).slots);
  }

  lemma {:induction false} TotalAppendEmpty(sessions: seq<seq<Slot>>, n: nat)
    ensures TotalActive(sessions + [seq(n, i => Empty)]) == TotalActive(sessions)
  {
    if sessions == [] {
      ActiveEmpty(seq(n, i => Empty));
      assert [seq(n, i => Empty)][1..] == [];
    } else {
      TotalAppendEmpty(sessions[1..], n);
      assert (sessions + [seq(n, i => Empty)])[1..] == sessions[1..] + [seq(n, i => Empty)];
    }
  }

  lemma {:induction false} ActiveEmpty(xs: seq<Slot>)
    requires forall i :: 0 <= i < |xs| ==> xs[i] == Empty
    ensures Active(xs) == 0
  {
    if xs != [] {
      ActiveEmpty(xs[1..]);
    }
  }

  lemma {:induction false} ActiveConfigure(xs: seq<Slot>, i: nat)
    requires i < |xs| && xs[i] == Empty
    ensures Active(xs[i := Transport(false)]) == Active(xs)
  {
    if i > 0 {
      ActiveConfigure(xs[1..], i - 1);
      assert xs[i := Transport(false)][1..] == xs[1..][i - 1 := Transport(false)];
    } else {
      assert xs[0 := Transport(false)][1..] == xs[1..];
    }
  }

  lemma SetupKeepsInv(sv: Server, n: nat)
    requires Inv(sv)
    ensures Inv(Handle(sv, Setup(n)))
  {
    TotalAppendEmpty(sv.sessions, n);
  }

  lemma ConfigureKeepsInv(sv: Server, s: nat, i: nat)
    requires Inv(sv) && Possible(sv, Configure(s, i))
    ensures Inv(Handle(sv, Configure(s, i)))
  {
    if sv.sessions[s][i].Empty? {
      ActiveConfigure(sv.sessions[s], i);
      TotalUpdate(sv.sessions, s, sv.sessions[s][i := Transport(false)]);
    }
  }

  lemma PrepareKeepsInv(sv: Server, hasBin: bool, answer: Preroll, prerolled: bool)
    requires Inv(sv) && sv.media.status != Error
    ensures var sv' := Handle(sv, Prepare(hasBin, answer, prerolled));
            sv'.media.status != Error ==> Inv(sv')
  {
    var (m, r) := PrepareBegin(sv.media, hasBin);
    if sv.media.status == Unprepared && r == MustWait {
      var p := PrerollDone(StartPrepare(m, answer), prerolled);
      assert p.status in {Prepared, Error} && p.nActive == 0;
    }
  }

  /** The events that change only the media. */
  lemma MediaEventKeepsInv(sv: Server, e: Event)
    requires Inv(sv) && sv.media.status != Error
    requires e.Describe? || e.Seek? || e.Buffering? || e.Eos? || e.BusError?
    ensures Handle(sv, e).media.status != Error ==> Inv(Handle(sv, e))
  {
  }

  /** Every event, outside ERROR, keeps the invariant of the shared media. */
  lemma EventKeepsInv(sv: Server, e: Event)
    requires Inv(sv) && sv.media.status != Error && Possible(sv, e)
    ensures Handle(sv, e).media.status != Error ==> Inv(Handle(sv, e))
  {
    match e
    case Setup(n) => SetupKeepsInv(sv, n);
    case Configure(s, i) => ConfigureKeepsInv(sv, s, i);
    case Play(s, answer, prerolled, outs, ok) => PlayKeepsInv(sv, s, answer, prerolled, outs, ok);
    case Pause(s, outs, ok) => SetSessionKeepsInv(sv, s, Paused, outs, ok);
    case Teardown(s, outs, again, ok) => TeardownKeepsInv(sv, s, outs, again, ok);
    case Expire(s, outs, ok) => ExpireKeepsInv(sv, s, outs, ok);
    case Prepare(hasBin, answer, prerolled) => PrepareKeepsInv(sv, hasBin, answer, prerolled);
    case _ => MediaEventKeepsInv(sv, e);
  }

  lemma PlayKeepsInv(sv: Server, s: nat, answer: Preroll, prerolled: bool, outs: seq<bool>, ok: bool)
    requires Inv(sv) && sv.media.status != Error && Fits(sv, s, outs)
    ensures var sv' := Handle(sv, Play(s, answer, prerolled, outs, ok));
            sv'.media.status != Error ==> Inv(sv')
  {
    var m := PrerollDone(UnsuspendBegin(sv.media, answer), prerolled);
    if m.status != Error {
      SetSessionKeepsInv(sv.(media := m), s, Playing, outs, ok);
    }
  }

  lemma TeardownKeepsInv(sv: Server, s: nat, outs: seq<bool>, again: seq<bool>, ok: bool)
    requires Inv(sv) && sv.media.status != Error && Fits(sv, s, outs) && Fits(sv, s, again)
    ensures var sv' := Handle(sv, Teardown(s, outs, again, ok));
            sv'.media.status != Error ==> Inv(sv')
  {
    FirstNull(sv, s, outs, ok);
    var sv1 := SetSession(sv, s, Null, outs, ok);
    FirstNull(sv1, s, again, ok);
    ReleaseKeepsInv(SetSession(sv1, s, Null, again, ok), s);
  }

  lemma ExpireKeepsInv(sv: Server, s: nat, outs: seq<bool>, ok: bool)
    requires Inv(sv) && sv.media.status != Error && Fits(sv, s, outs)
    ensures var sv' := Handle(sv, Expire(s, outs, ok));
            sv'.media.status != Error ==> Inv(sv')
  {
    FirstNull(sv, s, outs, ok);
    ReleaseKeepsInv(SetSession(sv, s, Null, outs, ok), s);
  }

  lemma ReleaseKeepsInv(sv: Server, s: nat)
    requires Inv(sv) && s < |sv.sessions|
    ensures Inv(Release(sv, s))
  {
    ReleaseKeepsCounted(sv, s);
  }

  lemma ReleaseKeepsCounted(sv: Server, s: nat)
    requires s < |sv.sessions|
    ensures Counted(Release(sv, s)) == Counted(sv) && Release(sv, s).media == sv.media
  {
    TotalUpdate(sv.sessions, s, []);
  }

  // ---------- runs ----------

  /** Every event finds the media outside ERROR. */
  predicate HealthyRun(sv: Server, es: seq<Event>)
    decreases |es|
  {
    sv.media.status != Error
    && (es == [] || (Possible(sv, es[0]) && HealthyRun(Handle(sv, es[0]), es[1..])))
  }

  function Run(sv: Server, es: seq<Event>): Server
    requires HealthyRun(sv, es)
    decreases |es|
  {
    if es == [] then sv else Run(Handle(sv, es[0]), es[1..])
  }

  /** In every run without ERROR, by any number of sessions, the invariant holds. */
  lemma {:induction false} RunKeepsInv(sv: Server, es: seq<Event>)
    requires Inv(sv) && HealthyRun(sv, es)
    ensures Inv(Run(sv, es))
    decreases |es|
  {
    if es != [] {
      EventKeepsInv(sv, es[0]);
      RunKeepsInv(Handle(sv, es[0]), es[1..]);
    }
  }

  /** A media just prepared for the first session. */
  function Fresh(mode: SuspendMode, reusable: bool, eos: bool): Server {
    Server(Media(Prepared, 1, 0, Paused, Paused, mode, reusable, false, eos, false), [], 0)
  }

  /** So no request of one session stops the pipeline under another: after any event of
      any run, if a transport of any session is still active, then the media is neither
      suspended nor shut down, its target is PLAYING, and the pipeline plays or buffers. */
  lemma NobodyIsCutOff(mode: SuspendMode, reusable: bool, eos: bool, es: seq<Event>, s: nat, i: nat)
    requires HealthyRun(Fresh(mode, reusable, eos), es)
    requires var sv := Run(Fresh(mode, reusable, eos), es);
             s < |sv.sessions| && i < |sv.sessions[s]| && sv.sessions[s][i] == Transport(true)
    ensures var m := Run(Fresh(mode, reusable, eos), es).media;
            && m.status !in {Suspended, Unprepared, Unpreparing}
            && m.nActive > 0 && m.target == Playing && (m.pipeline == Playing || m.buffering)
  {
    RunKeepsInv(Fresh(mode, reusable, eos), es);
    var sv := Run(Fresh(mode, reusable, eos), es);
    ActiveAt(sv.sessions[s], i);
    ActiveWithinTotal(sv.sessions, s);
  }

  lemma {:induction false} ActiveAt(xs: seq<Slot>, i: nat)
    requires i < |xs| && xs[i] == Transport(true)
    ensures Active(xs) >= 1
  {
    if i > 0 {
      ActiveAt(xs[1..], i - 1);
    }
  }

  // ---------- where it ends ----------

  /** A PLAY of session s with any number of events of other clients between the
      unsuspending and the state change. */
  function SplitPlay(sv: Server, s: nat, es: seq<Event>, outs: seq<bool>, ok: bool): Server
    requires HealthyRun(sv, es) && Fits(Run(sv, es), s, outs)
  {
    SetSession(Run(sv, es), s, Playing, outs, ok)
  }

  /** The server when the PLAY has unsuspended the media. */
  function Unsuspended(sv: Server, answer: Preroll, prerolled: bool): Server {
    sv.(media := PrerollDone(UnsuspendBegin(sv.media, answer), prerolled))
  }

  lemma PlayingASuspendedMedia(m: Media, xs: seq<Slot>, outs: seq<bool>, ok: bool)
    requires |outs| == |xs| && Good(m, 0) && m.status == Suspended && Active(xs) == 0
    ensures var r := SetState(m, Playing, xs, outs, ok);
            Good(r.media, Active(r.slots)) <==> Active(r.slots) == 0
  {
    SetAllDirection(xs, true, outs);
  }

  lemma PlayingASuspendedServer(sv: Server, s: nat, outs: seq<bool>, ok: bool)
    requires Inv(sv) && sv.media.status == Suspended && Fits(sv, s, outs)
    ensures var sv' := SetSession(sv, s, Playing, outs, ok);
            Inv(sv') <==> Active(sv'.sessions[s]) == 0
  {
    ActiveWithinTotal(sv.sessions, s);
    PlayingASuspendedMedia(sv.media, sv.sessions[s], outs, ok);
    TotalUpdate(sv.sessions, s, SetState(sv.media, Playing, sv.sessions[s], outs, ok).slots);
  }

  lemma UnsuspendKeepsInv(sv: Server, answer: Preroll, prerolled: bool)
    requires Inv(sv) && sv.media.status != Error
    ensures var sv1 := Unsuspended(sv, answer, prerolled);
            sv1.media.status != Suspended && (sv1.media.status != Error ==> Inv(sv1))
  {
  }

  lemma PlayIsNoError(m: Media, xs: seq<Slot>, outs: seq<bool>, ok: bool)
    requires |outs| == |xs| && m.status != Error
    ensures SetState(m, Playing, xs, outs, ok).media.status != Error
  {
  }

  lemma LatePlayBreaksIff(mid: Server, s: nat, outs: seq<bool>, ok: bool)
    requires Inv(mid) && mid.media.status != Error && Fits(mid, s, outs)
    ensures var after := SetSession(mid, s, Playing, outs, ok);
            after.media.status != Error
            && (!Inv(after) <==> mid.media.status == Suspended && Active(after.sessions[s]) > 0)
  {
    PlayIsNoError(mid.media, mid.sessions[s], outs, ok);
    if mid.media.status == Suspended {
      PlayingASuspendedServer(mid, s, outs, ok);
    } else {
      SetSessionKeepsInv(mid, s, Playing, outs, ok);
    }
  }

  /** Were PLAY not atomic: whatever run of events outside ERROR comes between its two parts,
      the invariant breaks if and only if that run leaves the media suspended and the PLAY
      then has an active transport. */
  lemma RunInsidePlayBreaksIff(sv: Server, answer: Preroll, prerolled: bool, es: seq<Event>,
                               s: nat, outs: seq<bool>, ok: bool)
    requires Inv(sv) && sv.media.status != Error
    requires var sv1 := Unsuspended(sv, answer, prerolled);
             HealthyRun(sv1, es) && Fits(Run(sv1, es), s, outs)
    ensures var sv1 := Unsuspended(sv, answer, prerolled);
            var after := SplitPlay(sv1, s, es, outs, ok);
            after.media.status != Error
            && (!Inv(after) <==> Run(sv1, es).media.status == Suspended && Active(after.sessions[s]) > 0)
  {
    var sv1 := Unsuspended(sv, answer, prerolled);
    UnsuspendKeepsInv(sv, answer, prerolled);
    assert sv1.media.status != Error;
    RunKeepsInv(sv1, es);
    RunIsHealthy(sv1, es);
    LatePlayBreaksIff(Run(sv1, es), s, outs, ok);
  }

  lemma {:induction false} RunIsHealthy(sv: Server, es: seq<Event>)
    requires HealthyRun(sv, es)
    ensures Run(sv, es).media.status != Error
    decreases |es|
  {
    if es != [] {
      RunIsHealthy(Handle(sv, es[0]), es[1..]);
    }
  }

  /** What an event has to find to suspend a media: a DESCRIBE, nobody counted as active; a
      PAUSE, that nobody is once it has switched off its own, and a pipeline that is asked for
      PAUSED. */
  predicate Suspends(sv: Server, e: Event)
    requires Possible(sv, e)
  {
    var m := sv.media;
    m.status == Prepared &&
    match e
    case Describe(_) => Counted(sv) == 0
    case Pause(s, outs, _) =>
      && m.target != Paused && !m.buffering
      && Counted(sv) - Active(sv.sessions[s]) + Active(Switched(m, Paused, sv.sessions[s], outs)) == 0
    case _ => false
  }

  lemma PauseSuspendsIff(sv: Server, s: nat, outs: seq<bool>, ok: bool)
    requires Inv(sv) && sv.media.status !in {Error, Suspended} && Fits(sv, s, outs)
    requires SetSession(sv, s, Paused, outs, ok).media.status != Error
    ensures SetSession(sv, s, Paused, outs, ok).media.status == Suspended <==> Suspends(sv, Pause(s, outs, ok))
  {
    if sv.media.status == Prepared {
      var ys := Switched(sv.media, Paused, sv.sessions[s], outs);
      var m1 := sv.media.(nActive := sv.media.nActive + Active(ys) - Active(sv.sessions[s]));
      ActiveWithinTotal(sv.sessions, s);
      SetStateServed(sv.media, Paused, sv.sessions[s], outs, ok, m1, ys);
    }
  }

  lemma PlayDoesNotSuspend(sv: Server, s: nat, outs: seq<bool>, ok: bool)
    requires sv.media.status != Suspended && Fits(sv, s, outs)
    ensures SetSession(sv, s, Playing, outs, ok).media.status != Suspended
  {
  }

  lemma TeardownDoesNotSuspend(sv: Server, s: nat, outs: seq<bool>, ok: bool)
    requires sv.media.status != Suspended && Fits(sv, s, outs)
    ensures SetSession(sv, s, Null, outs, ok).media.status != Suspended
  {
  }

  lemma PrepareDoesNotSuspend(sv: Server, hasBin: bool, answer: Preroll, prerolled: bool)
    requires sv.media.status != Suspended
    ensures Handle(sv, Prepare(hasBin, answer, prerolled)).media.status != Suspended
  {
    var (m, r) := PrepareBegin(sv.media, hasBin);
    if sv.media.status == Unprepared && r == MustWait {
      assert PrerollDone(StartPrepare(m, answer), prerolled).status in {Prepared, Error};
    }
  }

  /** Only these two do, and exactly then. */
  lemma SuspendsIff(sv: Server, e: Event)
    requires Inv(sv) && sv.media.status !in {Error, Suspended} && Possible(sv, e)
    requires Handle(sv, e).media.status != Error
    ensures Handle(sv, e).media.status == Suspended <==> Suspends(sv, e)
  {
    match e
    case Pause(s, outs, ok) => PauseSuspendsIff(sv, s, outs, ok);
    case Play(s, answer, prerolled, outs, ok) => PlayDoesNotSuspend(sv, s, outs, ok);
    case Teardown(s, outs, again, ok) =>
      TeardownDoesNotSuspend(sv, s, outs, ok);
      TeardownDoesNotSuspend(SetSession(sv, s, Null, outs, ok), s, again, ok);
    case Expire(s, outs, ok) => TeardownDoesNotSuspend(sv, s, outs, ok);
    case Prepare(hasBin, answer, prerolled) => PrepareDoesNotSuspend(sv, hasBin, answer, prerolled);
    case _ =>
  }

  /** So, for one event between the parts of a PLAY, the breaking ones are told from the
      state that the PLAY left behind: a DESCRIBE that finds nobody active, and a PAUSE that
      switches off the last one. */
  lemma EventInsidePlayBreaksIff(sv: Server, answer: Preroll, prerolled: bool, e: Event,
                                 s: nat, outs: seq<bool>, ok: bool)
    requires Inv(sv) && sv.media.status != Error
    requires var sv1 := Unsuspended(sv, answer, prerolled);
             HealthyRun(sv1, [e]) && Fits(Run(sv1, [e]), s, outs)
    ensures var sv1 := Unsuspended(sv, answer, prerolled);
            var after := SplitPlay(sv1, s, [e], outs, ok);
            after.media.status != Error
            && (!Inv(after) <==> Suspends(sv1, e) && Active(after.sessions[s]) > 0)
  {
    var sv1 := Unsuspended(sv, answer, prerolled);
    UnsuspendKeepsInv(sv, answer, prerolled);
    RunInsidePlayBreaksIff(sv, answer, prerolled, [e], s, outs, ok);
    OneEvent(sv1, e);
    SuspendsIff(sv1, e);
  }

  /** The DESCRIBE, spelled out. */
  lemma DescribeInsidePlayBreaksIff(sv: Server, answer: Preroll, prerolled: bool, accepts: bool,
                                    s: nat, outs: seq<bool>, ok: bool)
    requires Inv(sv) && sv.media.status != Error && Fits(sv, s, outs)
    requires HealthyRun(Unsuspended(sv, answer, prerolled), [Describe(accepts)])
    ensures var sv1 := Unsuspended(sv, answer, prerolled);
            && Fits(Run(sv1, [Describe(accepts)]), s, outs)
            && var after := SplitPlay(sv1, s, [Describe(accepts)], outs, ok);
               !Inv(after) <==> sv1.media.status == Prepared && sv1.media.nActive == 0 && Active(after.sessions[s]) > 0
  {
    var sv1 := Unsuspended(sv, answer, prerolled);
    OneEvent(sv1, Describe(accepts));
    UnsuspendKeepsInv(sv, answer, prerolled);
    EventInsidePlayBreaksIff(sv, answer, prerolled, Describe(accepts), s, outs, ok);
  }

  lemma OneEvent(sv: Server, e: Event)
    requires HealthyRun(sv, [e])
    ensures Possible(sv, e) && Run(sv, [e]) == Handle(sv, e) && Handle(sv, e).media.status != Error
  {
    assert [e][1..] == [];
  }

  lemma OneTransportPlays(sv: Server)
    requires sv.media.status == Suspended && sv.sessions != [] && sv.sessions[0] == [Transport(false)]
    ensures Active(SetSession(sv, 0, Playing, [true], true).sessions[0]) == 1
  {
    ActiveOne(Transport(true));
    assert SetAll([Transport(false)], true, [true]) == [Transport(true)];
  }

  lemma LatePlayBreaks(sv: Server, e: Event)
    requires Inv(sv) && sv.media.status != Error && Possible(sv, e) && Handle(sv, e).media.status == Suspended
    requires Handle(sv, e).sessions != [] && Handle(sv, e).sessions[0] == [Transport(false)]
    ensures HealthyRun(sv, [e]) && Fits(Run(sv, [e]), 0, [true]) && !Inv(SplitPlay(sv, 0, [e], [true], true))
  {
    OneEventRuns(sv, e);
    EventKeepsInv(sv, e);
    OneTransportPlays(Handle(sv, e));
    LatePlayBreaksIff(Handle(sv, e), 0, [true], true);
  }

  /** A server for which a DESCRIBE does. */
  lemma DescribeInsidePlayBreaks()
    ensures var sv := Server(Fresh(SuspendToPaused, true, false).media, [[Transport(false)]], 0);
            Inv(sv) && HealthyRun(sv, [Describe(true)]) && Fits(Run(sv, [Describe(true)]), 0, [true])
            && !Inv(SplitPlay(sv, 0, [Describe(true)], [true], true))
  {
    var sv := Server(Fresh(SuspendToPaused, true, false).media, [[Transport(false)]], 0);
    ActiveOne(Transport(false));
    assert sv.sessions[1..] == [];
    LatePlayBreaks(sv, Describe(true));
  }

  /** Two sessions of which the second plays; its PAUSE suspends the media. */
  function SecondPlays(): Server {
    Server(Fresh(SuspendToPaused, true, false).media.(nActive := 1, target := Playing, pipeline := Playing),
           [[Transport(false)], [Transport(true)]], 0)
  }

  lemma SecondPlaysHasInv()
    ensures Inv(SecondPlays())
  {
    ActiveOne(Transport(false));
    ActiveOne(Transport(true));
    var sessions := SecondPlays().sessions;
    assert sessions[1..] == [sessions[1]] && sessions[1..][1..] == [];
    assert TotalActive(sessions[1..]) == 1;
  }

  lemma SecondPauses()
    ensures var sv := Handle(SecondPlays(), Pause(1, [true], true));
            sv.media.status == Suspended && sv.sessions == [[Transport(false)], [Transport(false)]]
  {
    ActiveOne(Transport(false));
    ActiveOne(Transport(true));
    assert SetAll([Transport(true)], false, [true]) == [Transport(false)];
    var sessions := SecondPlays().sessions;
    assert sessions[1 := [Transport(false)]] == [[Transport(false)], [Transport(false)]];
  }

  /** For these the PAUSE of the second between the parts of a PLAY of the first breaks the
      invariant, though somebody was active when the PLAY began. */
  lemma PauseInsidePlayBreaks()
    ensures var sv := SecondPlays();
            var e := Pause(1, [true], true);
            && Inv(sv) && sv.media.nActive > 0
            && HealthyRun(sv, [e]) && Fits(Run(sv, [e]), 0, [true]) && !Inv(SplitPlay(sv, 0, [e], [true], true))
  {
    SecondPlaysHasInv();
    SecondPauses();
    LatePlayBreaks(SecondPlays(), Pause(1, [true], true));
  }

  lemma ActiveOne(x: Slot)
    ensures Active([x]) == IsActive(x)
  {
    assert [x][1..] == [];
  }

  lemma OneEventRuns(sv: Server, e: Event)
    requires sv.media.status != Error && Possible(sv, e) && Handle(sv, e).media.status != Error
    ensures HealthyRun(sv, [e]) && Run(sv, [e]) == Handle(sv, e)
  {
    assert [e][1..] == [];
  }

  /** In ERROR a teardown forgets everybody: the count is right afterwards exactly when no
      transport of any session is left active. */
  lemma ErrorTeardownCount(sv: Server, s: nat, outs: seq<bool>, ok: bool)
    requires sv.media.status == Error && Fits(sv, s, outs)
    ensures var sv' := SetSession(sv, s, Null, outs, ok);
            sv'.media.nActive == TotalActive(sv'.sessions)
            <==> forall t, i :: 0 <= t < |sv'.sessions| && 0 <= i < |sv'.sessions[t]|
                                ==> sv'.sessions[t][i] != Transport(true)
  {
    var sv' := SetSession(sv, s, Null, outs, ok);
    NoneActive(sv'.sessions);
  }

  lemma {:induction false} NoneActive(sessions: seq<seq<Slot>>)
    ensures TotalActive(sessions) == 0
            <==> forall t, i :: 0 <= t < |sessions| && 0 <= i < |sessions[t]|
                                ==> sessions[t][i] != Transport(true)
  {
    if TotalActive(sessions) == 0 {
      forall t, i | 0 <= t < |sessions| && 0 <= i < |sessions[t]|
        ensures sessions[t][i] != Transport(true)
      {
        ActiveWithinTotal(sessions, t);
        if sessions[t][i] == Transport(true) { ActiveAt(sessions[t], i); }
      }
    } else {
      var t := SomeActiveSession(sessions);
      var i := SomeActive(sessions[t]);
      assert sessions[t][i] == Transport(true);
    }
  }

  lemma {:induction false} SomeActiveSession(sessions: seq<seq<Slot>>) returns (t: nat)
    requires TotalActive(sessions) > 0
    ensures t < |sessions| && Active(sessions[t]) > 0
  {
    if Active(sessions[0]) > 0 {
      t := 0;
    } else {
      t := SomeActiveSession(sessions[1..]);
      t := t + 1;
    }
  }

  lemma {:induction false} SomeActive(xs: seq<Slot>) returns (i: nat)
    requires Active(xs) > 0
    ensures i < |xs| && xs[i] == Transport(true)
  {
    if IsActive(xs[0]) > 0 {
      i := 0;
    } else {
      i := SomeActive(xs[1..]);
      i := i + 1;
    }
  }

  /** A media that is in use is asked for NULL, and left transports of all sessions are still
      active after those of the session have been switched off. */
  function AfterNull(m: Media, left: nat): Media {
    if m.status !in {Prepared, Suspended} then m
    else if m.target != Null && left == 0 then Unprepare(m.(nActive := 0))
    else m.(nActive := left)
  }

  lemma NullOnce(m: Media, xs: seq<Slot>, outs: seq<bool>, ok: bool, ys: seq<Slot>, left: nat)
    requires |outs| == |xs| && m.status in {Prepared, Suspended}
    requires ys == if m.target == Playing then SetAll(xs, false, outs) else xs
    requires left == m.nActive - Active(xs) + Active(ys)
    ensures SetState(m, Null, xs, outs, ok) == SetStateResult(AfterNull(m, left), ys, true)
  {
    var m1 := m.(nActive := m.nActive + Active(ys) - Active(xs));
    assert m1.nActive == left && SetPipelineState(m1, Null, ok) == Unprepare(m1);
  }

  /** The same in the server. */
  lemma NullInServer(sv: Server, s: nat, outs: seq<bool>, ok: bool)
    requires Inv(sv) && sv.media.status != Error && Fits(sv, s, outs)
    ensures var sv1 := SetSession(sv, s, Null, outs, ok);
            && sv1.media == AfterNull(sv.media, Counted(sv1))
            && |sv1.sessions[s]| == |sv.sessions[s]|
            && Counted(sv1) <= Counted(sv)
  {
    var xs := sv.sessions[s];
    var ys := SetState(sv.media, Null, xs, outs, ok).slots;
    ActiveWithinTotal(sv.sessions, s);
    SetAllDirection(xs, false, outs);
    TotalUpdate(sv.sessions, s, ys);
    if sv.media.status in {Prepared, Suspended} {
      NullOnce(sv.media, xs, outs, ok, ys, Counted(sv) - Active(xs) + Active(ys));
    }
  }

  /** How many prepares a TEARDOWN gives back. It asks for NULL twice, by the request and by
      the finalized session media; active1 and active2 transports of all sessions are still
      counted after the first and after the second. */
  function GivenBack(m: Media, active1: nat, active2: nat): nat {
    if m.status !in {Prepared, Suspended} || m.target == Null || active2 > 0 then 0
    else if active1 > 0 || m.prepareCount <= 1 then 1
    else 2
  }

  lemma NullTwice(m: Media, active1: nat, active2: nat)
    requires active2 <= active1 && (active1 > 0 ==> m.target != Null)
    ensures AfterNull(AfterNull(m, active1), active2).prepareCount == m.prepareCount - GivenBack(m, active1, active2)
  {
    var m1 := AfterNull(m, active1);
    if m.status in {Prepared, Suspended} && active1 == 0 && m.target != Null && m.prepareCount <= 1 {
      assert m1.status in {Unprepared, Unpreparing};
    }
  }

  lemma FirstNull(sv: Server, s: nat, outs: seq<bool>, ok: bool)
    requires Inv(sv) && sv.media.status != Error && Fits(sv, s, outs)
    ensures var sv1 := SetSession(sv, s, Null, outs, ok);
            && Inv(sv1) && sv1.media.status != Error
            && (Counted(sv1) > 0 ==> sv.media.target != Null)
  {
    SetSessionKeepsInv(sv, s, Null, outs, ok);
    NullInServer(sv, s, outs, ok);
  }

  /** The prepare count after a TEARDOWN of any session, for every media outside ERROR. */
  lemma TeardownCount(sv: Server, s: nat, outs: seq<bool>, again: seq<bool>, ok: bool)
    requires Inv(sv) && sv.media.status != Error && Fits(sv, s, outs) && Fits(sv, s, again)
    ensures
      var sv1 := SetSession(sv, s, Null, outs, ok);
      var sv2 := Handle(sv, Teardown(s, outs, again, ok));
      sv2.media.prepareCount
      == sv.media.prepareCount - GivenBack(sv.media, Counted(sv1), Counted(sv2))
  {
    var sv1 := SetSession(sv, s, Null, outs, ok);
    NullInServer(sv, s, outs, ok);
    FirstNull(sv, s, outs, ok);
    NullInServer(sv1, s, again, ok);
    NullTwice(sv.media, Counted(sv1), Counted(SetSession(sv1, s, Null, again, ok)));
    ReleaseKeepsCounted(SetSession(sv1, s, Null, again, ok), s);
  }

  /** Exactly one prepare is given back if and only if the media is in use with a target
      other than NULL, nobody stays counted, and either the count was at most one or the
      first attempt had left somebody counted. */
  lemma TeardownGivesBackOneIff(sv: Server, s: nat, outs: seq<bool>, again: seq<bool>, ok: bool)
    requires Inv(sv) && sv.media.status != Error && Fits(sv, s, outs) && Fits(sv, s, again)
    ensures
      var sv1 := SetSession(sv, s, Null, outs, ok);
      var sv2 := Handle(sv, Teardown(s, outs, again, ok));
      sv2.media.prepareCount == sv.media.prepareCount - 1
      <==> && sv.media.status in {Prepared, Suspended} && sv.media.target != Null
           && Counted(sv2) == 0
           && (sv.media.prepareCount <= 1 || Counted(sv1) > 0)
  {
    TeardownCount(sv, s, outs, again, ok);
  }

  lemma {:induction false} AcceptedSwitchOff(xs: seq<Slot>, outs: seq<bool>)
    requires |outs| == |xs| && forall i :: 0 <= i < |outs| ==> outs[i]
    ensures Active(SetAll(xs, false, outs)) == 0
  {
    if xs != [] {
      AcceptedSwitchOff(xs[1..], outs[1..]);
    }
  }

  /** When the streams let the transports go: a TEARDOWN gives nothing back while another
      session is active or once the media was reset, and otherwise two, or one from a count
      of one. So of two clients that share a media and do not play, the first to leave shuts
      it down for the other. */
  lemma AcceptedTeardown(sv: Server, s: nat, outs: seq<bool>, again: seq<bool>, ok: bool)
    requires Inv(sv) && Fits(sv, s, outs) && Fits(sv, s, again)
    requires sv.media.status in {Prepared, Suspended} && sv.media.prepareCount >= 1
    requires forall i :: 0 <= i < |outs| ==> outs[i]
    ensures
      var others := Counted(sv) - Active(sv.sessions[s]);
      var m := Handle(sv, Teardown(s, outs, again, ok)).media;
      m.prepareCount == sv.media.prepareCount
                        - if sv.media.target == Null || others > 0 then 0
                          else if sv.media.prepareCount == 1 then 1 else 2
  {
    TeardownCount(sv, s, outs, again, ok);
    ActiveWithinTotal(sv.sessions, s);
    AcceptedFirst(sv, s, outs, ok);
    AcceptedSecond(sv, s, outs, again, ok);
  }

  lemma AcceptedFirst(sv: Server, s: nat, outs: seq<bool>, ok: bool)
    requires Inv(sv) && Fits(sv, s, outs) && sv.media.status in {Prepared, Suspended}
    requires forall i :: 0 <= i < |outs| ==> outs[i]
    ensures var sv1 := SetSession(sv, s, Null, outs, ok);
            && Counted(sv1) == Counted(sv) - Active(sv.sessions[s])
            && Active(sv1.sessions[s]) == 0
  {
    var sv1 := SetSession(sv, s, Null, outs, ok);
    ActiveWithinTotal(sv.sessions, s);
    TotalUpdate(sv.sessions, s, sv1.sessions[s]);
    AcceptedSwitchOff(sv.sessions[s], outs);
  }

  lemma AcceptedSecond(sv: Server, s: nat, outs: seq<bool>, again: seq<bool>, ok: bool)
    requires Inv(sv) && sv.media.status != Error && Fits(sv, s, outs) && Fits(sv, s, again)
    requires Active(SetSession(sv, s, Null, outs, ok).sessions[s]) == 0
    ensures Counted(Handle(sv, Teardown(s, outs, again, ok))) == Counted(SetSession(sv, s, Null, outs, ok))
  {
    var sv1 := SetSession(sv, s, Null, outs, ok);
    FirstNull(sv, s, outs, ok);
    OffStaysOff(sv1, s, again, ok);
    ReleaseKeepsCounted(SetSession(sv1, s, Null, again, ok), s);
  }

  /** A session without active transports stays without. */
  lemma OffStaysOff(sv: Server, s: nat, outs: seq<bool>, ok: bool)
    requires Fits(sv, s, outs) && Active(sv.sessions[s]) == 0 && sv.media.status != Error
    ensures var sv1 := SetSession(sv, s, Null, outs, ok);
            Counted(sv1) == Counted(sv) && Active(sv1.sessions[s]) == 0
  {
    SetAllDirection(sv.sessions[s], false, outs);
    TotalUpdate(sv.sessions, s, SetSession(sv, s, Null, outs, ok).sessions[s]);
  }

  // ---------- transports that are freed while they are active ----------

  /** How many transports of its session a TEARDOWN or an expiry leaves active when it frees
      them. */
  function Dropped(sv: Server, e: Event): nat
    requires Possible(sv, e)
  {
    if e.Teardown? || e.Expire? then Handle(sv, e).gone - sv.gone else 0
  }

  /** Nothing in the run does. */
  predicate NothingDropped(sv: Server, es: seq<Event>)
    requires HealthyRun(sv, es)
    decreases |es|
  {
    es == [] || (Dropped(sv, es[0]) == 0 && NothingDropped(Handle(sv, es[0]), es[1..]))
  }

  lemma {:induction false} RunGone(sv: Server, es: seq<Event>)
    requires HealthyRun(sv, es)
    ensures Run(sv, es).gone >= sv.gone
    ensures Run(sv, es).gone == sv.gone <==> NothingDropped(sv, es)
    decreases |es|
  {
    if es != [] {
      RunGone(Handle(sv, es[0]), es[1..]);
    }
  }

  /** Over every run: the media never counts too few, and it counts the active transports of
      the sessions right if and only if no TEARDOWN or expiry has freed an active
      one. */
  lemma CountIsRightIff(mode: SuspendMode, reusable: bool, eos: bool, es: seq<Event>)
    requires HealthyRun(Fresh(mode, reusable, eos), es)
    ensures var sv := Run(Fresh(mode, reusable, eos), es);
            && sv.media.nActive >= TotalActive(sv.sessions)
            && (sv.media.nActive == TotalActive(sv.sessions) <==> NothingDropped(Fresh(mode, reusable, eos), es))
  {
    RunKeepsInv(Fresh(mode, reusable, eos), es);
    RunGone(Fresh(mode, reusable, eos), es);
  }

  /** An active transport of the session is let go by its stream, the first time or the second. */
  predicate LetGo(xs: seq<Slot>, outs: seq<bool>, again: seq<bool>)
    requires |outs| == |again| == |xs|
  {
    forall i :: 0 <= i < |xs| && xs[i] == Transport(true) ==> outs[i] || again[i]
  }

  lemma {:induction false} OffTwice(xs: seq<Slot>, outs: seq<bool>, again: seq<bool>)
    requires |outs| == |again| == |xs|
    ensures Active(SetAll(SetAll(xs, false, outs), false, again)) == 0 <==> LetGo(xs, outs, again)
  {
    if xs != [] {
      var ys := SetAll(xs, false, outs);
      OffTwice(xs[1..], outs[1..], again[1..]);
      assert LetGo(xs, outs, again) <==>
        (xs[0] == Transport(true) ==> outs[0] || again[0]) && LetGo(xs[1..], outs[1..], again[1..]);
      assert SetAll(ys, false, again)[1..] == SetAll(ys[1..], false, again[1..]);
    }
  }

  /** A media that is not in use switches nothing. */
  lemma NotInUse(sv: Server, s: nat, outs: seq<bool>, ok: bool)
    requires sv.media.status !in {Prepared, Suspended, Error} && Fits(sv, s, outs)
    ensures SetSession(sv, s, Null, outs, ok) == sv
  {
    assert sv.sessions[s := sv.sessions[s]] == sv.sessions;
  }

  /** One in use with an active transport has the target PLAYING, and lets go of what its
      streams let go. */
  lemma SwitchesOff(sv: Server, s: nat, outs: seq<bool>, ok: bool)
    requires Inv(sv) && sv.media.status in {Prepared, Suspended} && Fits(sv, s, outs) && Active(sv.sessions[s]) > 0
    ensures var sv1 := SetSession(sv, s, Null, outs, ok);
            && sv1.sessions[s] == SetAll(sv.sessions[s], false, outs)
            && (Active(sv1.sessions[s]) > 0 ==> sv1.media.status in {Prepared, Suspended})
  {
    ActiveWithinTotal(sv.sessions, s);
    NullInServer(sv, s, outs, ok);
    ActiveWithinTotal(SetSession(sv, s, Null, outs, ok).sessions, s);
  }

  lemma InUseDropsNothingIff(sv: Server, s: nat, outs: seq<bool>, again: seq<bool>, ok: bool)
    requires Fits(sv, s, outs) && Fits(sv, s, again)
    requires Inv(sv) && sv.media.status in {Prepared, Suspended} && Active(sv.sessions[s]) > 0
    ensures Dropped(sv, Teardown(s, outs, again, ok)) == 0 <==> LetGo(sv.sessions[s], outs, again)
  {
    var sv1 := SetSession(sv, s, Null, outs, ok);
    OffTwice(sv.sessions[s], outs, again);
    SwitchesOff(sv, s, outs, ok);
    FirstNull(sv, s, outs, ok);
    if Active(sv1.sessions[s]) > 0 {
      SwitchesOff(sv1, s, again, ok);
    } else {
      OffStaysOff(sv1, s, again, ok);
      SetAllDirection(sv1.sessions[s], false, again);
    }
  }

  /** When a TEARDOWN frees no active transport: the session has none, or the media is in use
      and the stream of every active one lets it go. */
  lemma TeardownDropsNothingIff(sv: Server, s: nat, outs: seq<bool>, again: seq<bool>, ok: bool)
    requires Inv(sv) && sv.media.status != Error && Fits(sv, s, outs) && Fits(sv, s, again)
    ensures Dropped(sv, Teardown(s, outs, again, ok)) == 0
            <==> Active(sv.sessions[s]) == 0
                 || (sv.media.status in {Prepared, Suspended} && LetGo(sv.sessions[s], outs, again))
  {
    if sv.media.status !in {Prepared, Suspended} {
      NotInUse(sv, s, outs, ok);
      NotInUse(sv, s, again, ok);
    } else if Active(sv.sessions[s]) > 0 {
      InUseDropsNothingIff(sv, s, outs, again, ok);
    } else {
      OffStaysOff(sv, s, outs, ok);
      FirstNull(sv, s, outs, ok);
      OffStaysOff(SetSession(sv, s, Null, outs, ok), s, again, ok);
    }
  }

  /** An expiry asks for NULL only once: the stream has to let go at the first time. */
  lemma ExpiryDropsNothingIff(sv: Server, s: nat, outs: seq<bool>, ok: bool)
    requires Inv(sv) && sv.media.status != Error && Fits(sv, s, outs)
    ensures Dropped(sv, Expire(s, outs, ok)) == 0
            <==> Active(sv.sessions[s]) == 0
                 || (sv.media.status in {Prepared, Suspended}
                     && forall i :: 0 <= i < |outs| && sv.sessions[s][i] == Transport(true) ==> outs[i])
  {
    var xs := sv.sessions[s];
    if sv.media.status !in {Prepared, Suspended} {
      NotInUse(sv, s, outs, ok);
    } else if Active(xs) > 0 {
      SwitchesOff(sv, s, outs, ok);
      OffOnce(xs, outs);
    } else {
      OffStaysOff(sv, s, outs, ok);
    }
  }

  lemma {:induction false} OffOnce(xs: seq<Slot>, outs: seq<bool>)
    requires |outs| == |xs|
    ensures Active(SetAll(xs, false, outs)) == 0 <==> forall i :: 0 <= i < |xs| && xs[i] == Transport(true) ==> outs[i]
  {
    if xs != [] {
      OffOnce(xs[1..], outs[1..]);
      assert (forall i :: 0 <= i < |xs| && xs[i] == Transport(true) ==> outs[i]) <==>
        (xs[0] == Transport(true) ==> outs[0])
        && forall i :: 0 <= i < |xs[1..]| && xs[1..][i] == Transport(true) ==> outs[1..][i] by {
        assert forall i :: 0 <= i < |xs[1..]| ==> xs[1..][i] == xs[i + 1] && outs[1..][i] == outs[i + 1];
        assert forall i :: 1 <= i < |xs| ==> xs[i] == xs[1..][i - 1] && outs[i] == outs[1..][i - 1];
      }
    }
  }

  /** So it gives back one prepare at most: exactly when the media is in use with a target
      other than NULL and nobody stays counted. */
  lemma ExpiryCount(sv: Server, s: nat, outs: seq<bool>, ok: bool)
    requires Inv(sv) && sv.media.status != Error && Fits(sv, s, outs)
    ensures
      var sv' := Handle(sv, Expire(s, outs, ok));
      sv'.media.prepareCount
      == sv.media.prepareCount
         - if sv.media.status in {Prepared, Suspended} && sv.media.target != Null && Counted(sv') == 0 then 1 else 0
  {
    NullInServer(sv, s, outs, ok);
    ReleaseKeepsCounted(SetSession(sv, s, Null, outs, ok), s);
  }

  // ---------- what the requests reach ----------

  lemma {:induction false} SetAllAt(xs: seq<Slot>, on: bool, outs: seq<bool>, i: nat)
    requires |outs| == |xs| && i < |xs|
    ensures SetAll(xs, on, outs)[i] == SetActive(xs[i], on, outs[i])
  {
    if i > 0 {
      SetAllAt(xs[1..], on, outs[1..], i - 1);
    }
  }

  predicate Plays(x: Slot) {
    x == Transport(true)
  }

  /** Every transport of the session, one by one, in a media that is in use: PLAYING activates
      each configured one whose stream accepts it; PAUSED, READY and NULL from the target
      PLAYING deactivate each that its stream lets go; everything else leaves them alone, and
      what is not configured stays so. */
  lemma EveryTransportIsSwitched(m: Media, asked: PipeState, xs: seq<Slot>, outs: seq<bool>, ok: bool, i: nat)
    requires |outs| == |xs| && i < |xs| && m.status in {Prepared, Suspended}
    ensures
      var y := SetState(m, asked, xs, outs, ok).slots[i];
      && (y == Empty <==> xs[i] == Empty)
      && (Plays(y) <==>
            if asked == Playing then Plays(xs[i]) || (xs[i] != Empty && outs[i])
            else if asked in {Paused, Ready, Null} && m.target == Playing then Plays(xs[i]) && !outs[i]
            else Plays(xs[i]))
  {
    SetAllAt(xs, asked == Playing, outs, i);
  }

  /** In ERROR only NULL does anything, and elsewhere nothing is switched. */
  lemma OtherwiseSwitched(m: Media, asked: PipeState, xs: seq<Slot>, outs: seq<bool>, ok: bool, i: nat)
    requires |outs| == |xs| && i < |xs| && m.status !in {Prepared, Suspended}
    ensures
      var r := SetState(m, asked, xs, outs, ok);
      && !r.ok
      && (if m.status == Error && asked == Null
          then r.media == m.(nActive := 0)
               && (r.slots[i] == Empty <==> xs[i] == Empty) && (Plays(r.slots[i]) <==> Plays(xs[i]) && !outs[i])
          else r.media == m && r.slots == xs)
  {
    SetAllAt(xs, false, outs, i);
  }

  /** What the request does to the pipeline: PLAYING with the first transport starts it, PAUSED
      with the last one pauses it and suspends the media, NULL or READY with the last one
      gives a prepare back; otherwise only the count changes, to that of m1. A target that is
      there already is not set again. */
  predicate Follows(m: Media, m1: Media, asked: PipeState, ok: bool, r: Media) {
    && (asked == Playing && m.target != Playing && (m.nActive == 0 || m1.nActive == 0) ==>
          r == m1.(target := Playing, pipeline := if m.buffering then m.pipeline else Playing))
    && (asked == Paused && m.target != Paused && m1.nActive == 0 ==>
          r == if m.buffering then m1.(target := Paused)
               else Suspend(m1.(target := Paused, pipeline := Paused), ok))
    && (asked in {Ready, Null} && m.target != Null && m1.nActive == 0 ==> r == Unprepare(m1))
    && (m.target == (if asked == Ready then Null else asked) ==> r == m1)
    && (m1.nActive != 0 && (asked != Playing || m.nActive != 0) ==> r == m1)
  }

  lemma MediaFollows(m: Media, m1: Media, asked: PipeState, ok: bool)
    requires m1 == m.(nActive := m1.nActive) && asked in {Playing, Paused, Ready, Null}
    ensures var state := if asked == Ready then Null else asked;
            Follows(m, m1, asked, ok,
                    if m.target != state && ((m.nActive == 0 && state == Playing) || m1.nActive == 0)
                    then SetPipelineState(m1, state, ok) else m1)
  {
  }

  lemma PipelineFollows(m: Media, asked: PipeState, xs: seq<Slot>, outs: seq<bool>, ok: bool)
    requires |outs| == |xs| && m.status in {Prepared, Suspended} && asked in {Playing, Paused, Ready, Null}
    ensures
      var r := SetState(m, asked, xs, outs, ok);
      r.ok && Follows(m, m.(nActive := m.nActive + Active(r.slots) - Active(xs)), asked, ok, r.media)
  {
    var ys := Switched(m, if asked == Ready then Null else asked, xs, outs);
    var m1 := m.(nActive := m.nActive + Active(ys) - Active(xs));
    SetStateServed(m, asked, xs, outs, ok, m1, ys);
    MediaFollows(m, m1, asked, ok);
  }

  /** An idle media that is prepared is suspended as its mode says: not at all in the pipeline,
      to PAUSED, or with a reset to NULL; a pipeline that refuses makes it an error. */
  lemma SuspendReaches(m: Media, ok: bool)
    ensures
      var r := Suspend(m, ok);
      if m.status != Prepared || m.nActive > 0 then r == m
      else match m.suspendMode
           case NoSuspend => r == m.(status := Suspended)
           case SuspendToPaused =>
             r == if ok then m.(status := Suspended, target := Paused, pipeline := Paused)
                  else m.(status := Error, target := Paused)
           case SuspendToNull =>
             r == if ok then m.(status := Suspended, target := Null, pipeline := Null)
                  else m.(status := Error, target := Null)
  {
  }

  /** Suspending an idle media and unsuspending it: without a reset it is as before but for
      the target, and after a reset it prerolls again to PAUSED, or PLAYING when it is live. */
  lemma SuspendedComesBack(m: Media, answer: Preroll)
    requires m.status == Prepared && m.nActive == 0 && answer != Fails
    ensures
      var r := PrerollDone(UnsuspendBegin(Suspend(m, true), answer), true);
      match m.suspendMode
      case NoSuspend => r == m
      case SuspendToPaused => r == m.(target := Paused, pipeline := Paused)
      case SuspendToNull => r == m.(target := Paused, pipeline := if answer == WorksLive then Playing else Paused)
  {
  }

  /** A media that plays is paused while it buffers and plays on when the buffer is full; a live
      media and a media that should not play are left alone in the pipeline. */
  lemma BufferingPauses(m: Media)
    requires !m.buffering
    ensures
      var low := BufferingMessage(m, false, false);
      && low == m.(buffering := true, pipeline := if m.target == Playing then Paused else m.pipeline)
      && BufferingMessage(low, false, false) == low
      && BufferingMessage(low, false, true) == m.(pipeline := if m.target == Playing then Playing else m.pipeline)
      && BufferingMessage(m, true, false) == BufferingMessage(m, true, true) == m
  {
  }

  /** Giving back a prepare: nothing in an unprepared media, only the count while others are
      left, and with the last one NULL at once, or an end of stream first when the media asks
      for that and is prepared. */
  lemma UnprepareReaches(m: Media)
    ensures
      var r := Unprepare(m);
      if m.status == Unprepared then r == m
      else if m.prepareCount > 1 then r == m.(prepareCount := m.prepareCount - 1)
      else if m.status == Prepared && m.eosShutdown then
        r == m.(prepareCount := m.prepareCount - 1, target := Null, pipeline := Playing, status := Unpreparing)
        && FinishUnprepare(r) == r.(pipeline := Null, reused := true, status := Unprepared)
      else
        r == m.(prepareCount := m.prepareCount - 1, target := Null, pipeline := Null, reused := true, status := Unprepared)
  {
  }

  /** Who may prepare, and who has to wait for the preroll. */
  lemma PrepareAnswers(m: Media, hasBin: bool)
    ensures
      var (r, answer) := PrepareBegin(m, hasBin);
      && (answer == AlreadyPrepared <==> m.status in {Prepared, Suspended})
      && (answer == MustWait <==> m.status == Preparing
                                  || (m.status == Unprepared && hasBin && (m.reusable || !m.reused)))
      && (answer == Refused ==> r == m)
      && (answer != Refused ==> r == m.(prepareCount := m.prepareCount + 1, status := r.status, buffering := r.buffering))
      && (answer != Refused ==>
            if m.status == Unprepared then r.status == Preparing && !r.buffering
            else r.status == m.status && r.buffering == m.buffering)
  {
  }

  // ---------- balance of prepare and unprepare ----------

  /** A media with its users: those whose prepare succeeded and is not yet taken back, and
      those whose prepare is still waiting. */
  datatype Ledger = Ledger(media: Media, held: nat, waiting: nat)

  datatype Move =
    | Ask(hasBin: bool)        // prepare is called
    | Started(answer: Preroll) // the media's thread prerolls the pipeline
    | Settled(ok: bool)        // preroll is over, or took too long
    | Return                   // a waiting prepare returns
    | GiveBack                 // a user takes its prepare back
    | SuspendNow(ok: bool)
    | Resume(answer: Preroll)
    | SeekNow
    | Message(error: bool)     // end of stream, or an error, on the bus

  predicate Allowed(l: Ledger, v: Move) {
    match v
    case Started(_) => l.media.status == Preparing
    case Return => l.waiting > 0 && l.media.status != Preparing
    case GiveBack => l.held > 0
    case SeekNow => l.media.status == Prepared
    case Message(_) => l.media.status != Unprepared
    case _ => true
  }

  function Make(l: Ledger, v: Move): Ledger
    requires Allowed(l, v)
  {
    match v
    case Ask(hasBin) =>
      var (m, r) := PrepareBegin(l.media, hasBin);
      Ledger(m, if r == AlreadyPrepared then l.held + 1 else l.held, if r == MustWait then l.waiting + 1 else l.waiting)
    case Started(answer) => l.(media := StartPrepare(l.media, answer))
    case Settled(ok) => l.(media := PrerollDone(l.media, ok))
    case Return =>
      Ledger(PrepareEnd(l.media), if l.media.status == Error then l.held else l.held + 1, l.waiting - 1)
    case GiveBack => l.(media := Unprepare(l.media), held := l.held - 1)
    case SuspendNow(ok) => l.(media := Suspend(l.media, ok))
    case Resume(answer) => l.(media := UnsuspendBegin(l.media, answer))
    case SeekNow => l.(media := l.media.(status := Preparing))
    case Message(error) =>
      if error then l.(media := l.media.(status := Error))
      else if l.media.status == Unpreparing then l.(media := FinishUnprepare(l.media)) else l
  }

  /** The prepare count is the number of outstanding prepares; a media in use is prepared
      at least once, and one shut down not at all. */
  predicate Balanced(l: Ledger) {
    && l.media.prepareCount == l.held + l.waiting
    && (l.media.status in {Preparing, Prepared, Suspended} ==> l.media.prepareCount >= 1)
    && (l.media.status in {Unprepared, Unpreparing} ==> l.media.prepareCount == 0)
  }

  predicate AllowedRun(l: Ledger, vs: seq<Move>)
    decreases |vs|
  {
    vs == [] || (Allowed(l, vs[0]) && AllowedRun(Make(l, vs[0]), vs[1..]))
  }

  function MakeAll(l: Ledger, vs: seq<Move>): Ledger
    requires AllowedRun(l, vs)
    decreases |vs|
  {
    if vs == [] then l else MakeAll(Make(l, vs[0]), vs[1..])
  }

  lemma MoveKeepsBalance(l: Ledger, v: Move)
    requires Balanced(l) && Allowed(l, v)
    ensures Balanced(Make(l, v))
  {
  }

  /** In every run in which only users give back, failed prepares, end-of-stream shutdown,
      seeking and suspending included. */
  lemma {:induction false} RunKeepsBalance(l: Ledger, vs: seq<Move>)
    requires Balanced(l) && AllowedRun(l, vs)
    ensures Balanced(MakeAll(l, vs))
    decreases |vs|
  {
    if vs != [] {
      MoveKeepsBalance(l, vs[0]);
      RunKeepsBalance(Make(l, vs[0]), vs[1..]);
    }
  }

  /** The pipeline is torn down only by the last give-back: as long as somebody holds or
      awaits the media, no move shuts it down. */
  lemma TornDownOnlyByTheLast(l: Ledger, v: Move)
    requires Balanced(l) && Allowed(l, v)
    requires Make(l, v).media.status in {Unprepared, Unpreparing} && l.media.status !in {Unprepared, Unpreparing}
    ensures l.media.prepareCount == 1 && (v == GiveBack || (v == Return && l.media.status == Error))
    ensures Make(l, v).held == 0 && Make(l, v).waiting == 0
  {
    MoveKeepsBalance(l, v);
  }

  /** A media that is not reusable stays shut down after its first teardown. */
  lemma {:induction false} NotReusableStaysDown(l: Ledger, vs: seq<Move>)
    requires Balanced(l) && AllowedRun(l, vs)
    requires !l.media.reusable && l.media.reused && l.media.status == Unprepared
    ensures MakeAll(l, vs).media == l.media
    decreases |vs|
  {
    if vs != [] {
      assert Make(l, vs[0]) == l;
      NotReusableStaysDown(l, vs[1..]);
    }
  }

  /** So once a media that is not reusable has been torn down, whatever its users do, it is
      never prepared again. */
  lemma FirstTeardownIsFinal(l: Ledger, v: Move, vs: seq<Move>)
    requires Balanced(l) && Allowed(l, v) && AllowedRun(Make(l, v), vs)
    requires !l.media.reusable && l.media.status != Unprepared && Make(l, v).media.status == Unprepared
    ensures var down := Make(l, v).media;
            down.reused && down.pipeline == Null && MakeAll(Make(l, v), vs).media == down
  {
    MoveKeepsBalance(l, v);
    NotReusableStaysDown(Make(l, v), vs);
  }
}
