/** The exchange of messages M1 to M4 of Wi-Fi Display between the source and a sink, over
    channels that keep the order. The source tells responses apart only by whether they have
    a body and by its three flags. */
module Handshake {
  import opened Sequences
  import opened Wrappers

  /** What the source sends: the requests, and its answer to an OPTIONS of the sink. */
  datatype Out = M1 | M3 | M4 | Setup | AppTrigger | OptionsAnswer

  /** What the sink sends: its own OPTIONS (M2), with a User-Agent or without, or the
      response to a request, with a body or without. */
  datatype In = Options(agent: bool) | Response(to: Out, body: bool)

  /** The flags of the source, the two channels, and the history: every request sent, and
      every request whose response has been handled. */
  datatype State = State(m1: bool, m3: bool, m4: bool, out: seq<Out>, inn: seq<In>,
                         sent: seq<Out>, handled: seq<Out>)

  /** The source has sent M1. */
  function Start(): State {
    State(false, false, false, [M1], [], [M1], [])
  }

  function Send(s: State, r: Out): State {
    s.(out := s.out + [r], sent := if r == OptionsAnswer then s.sent else s.sent + [r])
  }

  /** What the source does with a response. parses: the body was understood; sends: the
      request that follows could be sent. */
  function Respond(s: State, body: bool, parses: bool, sends: bool): State {
    if body then
      if !s.m3 && parses then
        var t := s.(m3 := true);
        if sends then Send(t, M4) else t
      else s
    else if !s.m1 then s.(m1 := true)
    else if !s.m4 then
      var t := s.(m4 := true);
      if sends then Send(t, Setup) else t
    else s
  }

  /** What the source does with an OPTIONS of the sink: nothing without a user agent, and no
      M3 when the answer could not be sent. */
  function AnswerOptions(s: State, agent: bool, answers: bool, sends: bool): State {
    if !agent || !answers then s
    else
      var t := Send(s, OptionsAnswer);
      if sends then Send(t, M3) else t
  }

  datatype Step =
    | SinkAsks(agent: bool)                     // the sink sends OPTIONS
    | SinkAnswers                               // the sink takes what the source sent
    // the source takes what the sink sent: its answer to an OPTIONS can be sent, a body is
    // understood, the request that follows can be sent
    | SourceTakes(answers: bool, parses: bool, sends: bool)
    | Application                               // the application sends a trigger

  predicate Possible(s: State, e: Step) {
    match e
    case SinkAnswers => s.out != []
    case SourceTakes(_, _, _) => s.inn != []
    case _ => true
  }

  function Next(s: State, e: Step): State
    requires Possible(s, e)
  {
    match e
    case SinkAsks(agent) => s.(inn := s.inn + [Options(agent)])
    case SinkAnswers =>
      var r := s.out[0];
      s.(out := s.out[1..], inn := if r == OptionsAnswer then s.inn else s.inn + [Response(r, r == M3)])
    case SourceTakes(answers, parses, sends) =>
      var t := s.(inn := s.inn[1..]);
      (match s.inn[0]
       case Options(agent) => AnswerOptions(t, agent, answers, sends)
       case Response(to, body) => Respond(t.(handled := t.handled + [to]), body, parses, sends))
    case Application => Send(s, AppTrigger)
  }

  // ---------- what every step keeps ----------

  function Waiting(inn: seq<In>): seq<Out> {
    if inn == [] then []
    else (if inn[0].Response? then [inn[0].to] else []) + Waiting(inn[1..])
  }

  function Asked(out: seq<Out>): seq<Out> {
    if out == [] then [] else (if out[0] == OptionsAnswer then [] else [out[0]]) + Asked(out[1..])
  }

  predicate Once(sent: seq<Out>, r: Out) {
    forall i, j :: 0 <= i < j < |sent| && sent[i] == r ==> sent[j] != r
  }

  /** Responses have a body exactly when they answer a GET_PARAMETER. */
  predicate Bodies(inn: seq<In>) {
    forall i :: 0 <= i < |inn| && inn[i].Response? ==> (inn[i].body <==> inn[i].to == M3)
  }

  /** The requests handled, waiting and not yet answered are those sent, in this order. */
  predicate InOrder(s: State) {
    s.sent == s.handled + Waiting(s.inn) + Asked(s.out)
  }

  /** The first request that is neither M1 nor M3. */
  function FirstOther(rs: seq<Out>): Option<Out> {
    if rs == [] then None
    else if rs[0] == M1 || rs[0] == M3 then FirstOther(rs[1..])
    else Some(rs[0])
  }

  /** What the flags say about the requests sent and handled, whatever the application does:
      m4_done is set by the first response to anything but M1 and M3. */
  predicate Facts(m1: bool, m3: bool, m4: bool, sent: seq<Out>, handled: seq<Out>) {
    && OptionsAnswer !in sent
    && sent != [] && sent[0] == M1
    && Once(sent, M1) && Once(sent, M4) && Once(sent, Setup)
    && (m1 <==> handled != [])
    && (m3 ==> M3 in handled)
    && (M4 in sent ==> m3)
    && (m4 <==> FirstOther(handled).Some?)
    && (Setup in sent ==> m4)
  }

  predicate Inv(s: State) {
    InOrder(s) && Bodies(s.inn) && Facts(s.m1, s.m3, s.m4, s.sent, s.handled)
  }

  /** The application sends a trigger only when M4 has been sent. */
  predicate Patient(s: State, e: Step) {
    e.Application? ==> M4 in s.sent
  }

  lemma {:induction false} FirstOtherConcat(a: seq<Out>, b: seq<Out>)
    ensures FirstOther(a + b) == if FirstOther(a).Some? then FirstOther(a) else FirstOther(b)
  {
    if a == [] {
      assert a + b == b;
    } else {
      assert (a + b)[1..] == a[1..] + b;
      FirstOtherConcat(a[1..], b);
    }
  }

  lemma FirstOtherAppend(a: seq<Out>, r: Out)
    ensures FirstOther(a + [r])
            == if FirstOther(a).Some? || r == M1 || r == M3 then FirstOther(a) else Some(r)
  {
    FirstOtherConcat(a, [r]);
    assert [r][1..] == [];
  }

  lemma {:induction false} NoOther(rs: seq<Out>)
    ensures FirstOther(rs).None? <==> forall i :: 0 <= i < |rs| ==> rs[i] == M1 || rs[i] == M3
    ensures FirstOther(rs).Some? ==> FirstOther(rs).value in rs
    ensures FirstOther(rs).Some? ==> FirstOther(rs).value != M1 && FirstOther(rs).value != M3
  {
    if rs != [] {
      NoOther(rs[1..]);
      assert rs == [rs[0]] + rs[1..];
    }
  }

  lemma {:induction false} WaitingConcat(a: seq<In>, b: seq<In>)
    ensures Waiting(a + b) == Waiting(a) + Waiting(b)
  {
    if a == [] {
      assert a + b == b;
    } else {
      assert (a + b)[1..] == a[1..] + b;
      WaitingConcat(a[1..], b);
      Assoc(if a[0].Response? then [a[0].to] else [], Waiting(a[1..]), Waiting(b));
    }
  }

  lemma {:induction false} AskedConcat(a: seq<Out>, b: seq<Out>)
    ensures Asked(a + b) == Asked(a) + Asked(b)
  {
    if a == [] {
      assert a + b == b;
    } else {
      assert (a + b)[1..] == a[1..] + b;
      AskedConcat(a[1..], b);
      Assoc(if a[0] == OptionsAnswer then [] else [a[0]], Asked(a[1..]), Asked(b));
    }
  }

  lemma SendKeepsQueue(s: State, r: Out)
    requires InOrder(s)
    ensures InOrder(Send(s, r))
  {
    AskedConcat(s.out, [r]);
    assert [r][1..] == [];
  }

  /** The request whose response comes next is the one sent first of those not handled. */
  lemma NextResponse(s: State)
    requires InOrder(s) && s.inn != [] && s.inn[0].Response?
    ensures |s.handled| < |s.sent| && s.sent[|s.handled|] == s.inn[0].to
    ensures s.sent == (s.handled + [s.inn[0].to]) + Waiting(s.inn[1..]) + Asked(s.out)
  {
  }

  /** The request answered next, seen from the history. */
  lemma NextOther(s: State)
    requires InOrder(s) && s.inn != [] && s.inn[0].Response? && FirstOther(s.handled).None?
    requires s.inn[0].to != M1 && s.inn[0].to != M3
    ensures FirstOther(s.sent) == Some(s.inn[0].to)
  {
    NextResponse(s);
    var r := s.inn[0].to;
    var rest := Waiting(s.inn[1..]) + Asked(s.out);
    FirstOtherAppend(s.handled, r);
    assert s.sent == (s.handled + [r]) + rest;
    FirstOtherConcat(s.handled + [r], rest);
  }

  /** Of the responses the source handles, an empty one before m1_done answers M1, and one
      before m4_done answers the first request that is neither M1 nor M3. */
  lemma WhoseResponse(s: State)
    requires Inv(s) && s.inn != [] && s.inn[0].Response?
    ensures s.inn[0].body <==> s.inn[0].to == M3
    ensures !s.inn[0].body && !s.m1 ==> s.inn[0].to == M1
    ensures s.m1 ==> s.inn[0].to != M1
    ensures !s.m4 && s.inn[0].to != M1 && s.inn[0].to != M3 ==> FirstOther(s.sent) == Some(s.inn[0].to)
  {
    NextResponse(s);
    assert s.sent[|s.handled|] == s.inn[0].to;
    if !s.m4 && s.inn[0].to != M1 && s.inn[0].to != M3 {
      NextOther(s);
    }
  }

  lemma OnceMore(sent: seq<Out>, r: Out, x: Out)
    requires Once(sent, x) && (x != r || x !in sent)
    ensures Once(sent + [r], x)
  {
  }

  /** Sending keeps the invariant when it is the first of its kind where that matters. */
  lemma SendKeepsInv(s: State, r: Out)
    requires Inv(s)
    requires r == OptionsAnswer || r == M3 || r == AppTrigger
             || (r == M4 && s.m3 && M4 !in s.sent) || (r == Setup && s.m4 && Setup !in s.sent)
    ensures Inv(Send(s, r))
  {
    SendKeepsQueue(s, r);
    if r != OptionsAnswer {
      OnceMore(s.sent, r, M1);
      OnceMore(s.sent, r, M4);
      OnceMore(s.sent, r, Setup);
    }
  }

  /** Taking the next response into the history. */
  lemma HandledKeepsInv(s: State)
    requires Inv(s) && s.inn != [] && s.inn[0].Response?
    ensures
      var to := s.inn[0].to;
      var t := s.(inn := s.inn[1..], handled := s.handled + [to]);
      && InOrder(t) && Bodies(t.inn)
      && (forall x :: x in t.handled <==> x in s.handled || x == to)
      && FirstOther(t.handled) == if s.m4 || to == M1 || to == M3 then FirstOther(s.handled) else Some(to)
  {
    NextResponse(s);
    FirstOtherAppend(s.handled, s.inn[0].to);
  }

  lemma ResponseKeepsInv(s: State, answers: bool, parses: bool, sends: bool)
    requires Inv(s) && s.inn != [] && s.inn[0].Response?
    ensures Inv(Next(s, SourceTakes(answers, parses, sends)))
  {
    WhoseResponse(s);
    HandledKeepsInv(s);
    var to, body := s.inn[0].to, s.inn[0].body;
    var t := s.(inn := s.inn[1..], handled := s.handled + [to]);
    if body {
      if !s.m3 && parses {
        var u := t.(m3 := true);
        assert Inv(u);
        if sends { SendKeepsInv(u, M4); }
      }
    } else if !s.m1 {
      assert Inv(t.(m1 := true));
    } else if !s.m4 {
      var u := t.(m4 := true);
      assert Inv(u);
      if sends { SendKeepsInv(u, Setup); }
    }
  }

  lemma AnswerKeepsInv(s: State, agent: bool, answers: bool, sends: bool)
    requires Inv(s)
    ensures Inv(AnswerOptions(s, agent, answers, sends))
  {
    if agent && answers {
      SendKeepsInv(s, OptionsAnswer);
      if sends { SendKeepsInv(Send(s, OptionsAnswer), M3); }
    }
  }

  lemma Regroup(h: seq<Out>, w: seq<Out>, x: seq<Out>, a: seq<Out>)
    ensures h + w + (x + a) == h + (w + x) + a
  {
  }

  lemma WaitingOne(inn: seq<In>, r: Out, body: bool)
    ensures Waiting(inn + [Response(r, body)]) == Waiting(inn) + [r]
  {
    WaitingConcat(inn, [Response(r, body)]);
    assert [Response(r, body)][1..] == [];
  }

  lemma SinkKeepsOrder(h: seq<Out>, inn: seq<In>, out: seq<Out>)
    requires out != [] && out[0] != OptionsAnswer
    ensures h + Waiting(inn) + Asked(out) == h + Waiting(inn + [Response(out[0], out[0] == M3)]) + Asked(out[1..])
  {
    var a := Asked(out[1..]);
    assert Asked(out) == [out[0]] + a;
    WaitingOne(inn, out[0], out[0] == M3);
    Regroup(h, Waiting(inn), [out[0]], a);
  }

  lemma BodiesOne(inn: seq<In>, r: Out)
    requires Bodies(inn)
    ensures Bodies(inn + [Response(r, r == M3)])
  {
  }

  lemma SinkKeepsInv(s: State)
    requires Inv(s) && s.out != []
    ensures Inv(Next(s, SinkAnswers))
  {
    var r := s.out[0];
    if r != OptionsAnswer {
      SinkKeepsOrder(s.handled, s.inn, s.out);
      BodiesOne(s.inn, r);
    } else {
      assert Asked(s.out) == [] + Asked(s.out[1..]) == Asked(s.out[1..]);
    }
  }

  lemma OptionsKeepOrder(s: State, agent: bool)
    requires InOrder(s)
    ensures InOrder(s.(inn := s.inn + [Options(agent)]))
  {
    WaitingConcat(s.inn, [Options(agent)]);
    assert [Options(agent)][1..] == [];
  }

  lemma TakeOptionsKeepsInv(s: State, answers: bool, parses: bool, sends: bool)
    requires Inv(s) && s.inn != [] && s.inn[0].Options?
    ensures Inv(Next(s, SourceTakes(answers, parses, sends)))
  {
    var t := s.(inn := s.inn[1..]);
    assert Waiting(s.inn) == Waiting(t.inn);
    assert Inv(t);
    AnswerKeepsInv(t, s.inn[0].agent, answers, sends);
  }

  lemma StepKeepsInv(s: State, e: Step)
    requires Inv(s) && Possible(s, e)
    ensures Inv(Next(s, e))
  {
    match e
    case SinkAsks(agent) => OptionsKeepOrder(s, agent);
    case SinkAnswers => SinkKeepsInv(s);
    case SourceTakes(answers, parses, sends) =>
      if s.inn[0].Response? {
        ResponseKeepsInv(s, answers, parses, sends);
      } else {
        TakeOptionsKeepsInv(s, answers, parses, sends);
      }
    case Application => SendKeepsInv(s, AppTrigger);
  }

  // ---------- runs ----------

  predicate PossibleRun(s: State, es: seq<Step>)
    decreases |es|
  {
    es == [] || (Possible(s, es[0]) && PossibleRun(Next(s, es[0]), es[1..]))
  }

  predicate PatientRun(s: State, es: seq<Step>)
    requires PossibleRun(s, es)
    decreases |es|
  {
    es == [] || (Patient(s, es[0]) && PatientRun(Next(s, es[0]), es[1..]))
  }

  function Run(s: State, es: seq<Step>): State
    requires PossibleRun(s, es)
    decreases |es|
  {
    if es == [] then s else Run(Next(s, es[0]), es[1..])
  }

  lemma {:induction false} RunKeepsInv(s: State, es: seq<Step>)
    requires Inv(s) && PossibleRun(s, es)
    ensures Inv(Run(s, es))
    decreases |es|
  {
    if es != [] {
      StepKeepsInv(s, es[0]);
      RunKeepsInv(Next(s, es[0]), es[1..]);
    }
  }

  lemma StartHasInv()
    ensures Inv(Start())
  {
    assert [M1][1..] == [];
  }

  // ---------- triggers of the application ----------

  /** No request that could pass for M4 was sent before it. */
  predicate M4First(s: State) {
    FirstOther(s.sent) == None || FirstOther(s.sent) == Some(M4)
  }

  lemma SendAndFirst(s: State, r: Out)
    ensures FirstOther(Send(s, r).sent)
            == if FirstOther(s.sent).Some? || r in {M1, M3, OptionsAnswer} then FirstOther(s.sent) else Some(r)
  {
    FirstOtherAppend(s.sent, r);
  }

  /** m4_done and the trigger come after something else than M1 and M3 has been sent. */
  lemma HandledWasSent(s: State)
    requires Inv(s)
    ensures FirstOther(s.handled).Some? ==> FirstOther(s.sent) == FirstOther(s.handled)
    ensures forall r :: r in s.handled ==> r in s.sent
  {
    var rest := Waiting(s.inn) + Asked(s.out);
    assert s.sent == s.handled + rest;
    FirstOtherConcat(s.handled, rest);
  }

  /** Once something is first it stays first. */
  lemma SourceAndFirst(s: State, e: Step)
    requires Inv(s) && Possible(s, e) && e.SourceTakes?
    ensures FirstOther(s.sent).Some? ==> FirstOther(Next(s, e).sent) == FirstOther(s.sent)
    ensures FirstOther(s.sent).None? ==> M4First(Next(s, e))
  {
    var t := s.(inn := s.inn[1..]);
    match s.inn[0]
    case Options(agent) =>
      SendAndFirst(t, OptionsAnswer);
      SendAndFirst(Send(t, OptionsAnswer), M3);
    case Response(to, body) =>
      var u := t.(handled := t.handled + [to]);
      SendAndFirst(u.(m3 := true), M4);
      SendAndFirst(u.(m4 := true), Setup);
      WhoseResponse(s);
  }

  /** A step keeps M4 first exactly when it is patient. */
  lemma StepAndFirst(s: State, e: Step)
    requires Inv(s) && Possible(s, e)
    ensures M4First(s) ==> (M4First(Next(s, e)) <==> Patient(s, e))
    ensures !M4First(s) ==> !M4First(Next(s, e))
  {
    NoOther(s.sent);
    match e
    case SourceTakes(_, _, _) => SourceAndFirst(s, e);
    case Application => SendAndFirst(s, AppTrigger);
    case _ =>
  }

  lemma {:induction false} RunAndFirst(s: State, es: seq<Step>)
    requires Inv(s) && PossibleRun(s, es)
    ensures M4First(s) ==> (M4First(Run(s, es)) <==> PatientRun(s, es))
    ensures !M4First(s) ==> !M4First(Run(s, es))
    decreases |es|
  {
    if es != [] {
      StepKeepsInv(s, es[0]);
      StepAndFirst(s, es[0]);
      RunAndFirst(Next(s, es[0]), es[1..]);
    }
  }

  /** Over every run, whatever the application does: m4_done is set exactly when the first
      request that is neither M1 nor M3 is answered, and that request is M4 if and only if
      every trigger of the application found M4 already sent. */
  lemma M4DoneIffPatient(es: seq<Step>)
    requires PossibleRun(Start(), es)
    ensures
      var s := Run(Start(), es);
      && (s.m4 <==> FirstOther(s.handled).Some?)
      && (PatientRun(Start(), es) <==> M4First(s))
      && (s.m4 ==> (PatientRun(Start(), es) <==> FirstOther(s.handled) == Some(M4)))
  {
    StartHasInv();
    RunKeepsInv(Start(), es);
    RunAndFirst(Start(), es);
    HandledWasSent(Run(Start(), es));
  }

  lemma StepStays(s: State, e: Step)
    requires Inv(s) && Possible(s, e) && FirstOther(s.sent).Some?
    ensures FirstOther(Next(s, e).sent) == FirstOther(s.sent)
  {
    match e
    case SourceTakes(_, _, _) => SourceAndFirst(s, e);
    case Application => SendAndFirst(s, AppTrigger);
    case _ =>
  }

  lemma {:induction false} RunStays(s: State, es: seq<Step>)
    requires Inv(s) && PossibleRun(s, es) && FirstOther(s.sent).Some?
    ensures FirstOther(Run(s, es).sent) == FirstOther(s.sent)
    decreases |es|
  {
    if es != [] {
      StepStays(s, es[0]);
      StepKeepsInv(s, es[0]);
      RunStays(Next(s, es[0]), es[1..]);
    }
  }

  /** Whatever is first in a state is what will have set m4_done. */
  lemma FirstSetsM4(s: State, fs: seq<Step>)
    requires Inv(s) && FirstOther(s.sent).Some? && PossibleRun(s, fs) && Run(s, fs).m4
    ensures FirstOther(Run(s, fs).handled) == FirstOther(s.sent)
  {
    RunStays(s, fs);
    RunKeepsInv(s, fs);
    HandledWasSent(Run(s, fs));
  }

  lemma AfterTrigger(s: State)
    requires Inv(s) && M4First(s)
    ensures Inv(Next(s, Application))
    ensures FirstOther(Next(s, Application).sent) == Some(if M4 in s.sent then M4 else AppTrigger)
  {
    StepKeepsInv(s, Application);
    SendAndFirst(s, AppTrigger);
    NoOther(s.sent);
  }

  /** What the application can check before it sends a trigger: with no earlier request in
      the way, and however the run goes on, m4_done will be set by the response to M4 if and
      only if M4 has already been sent; otherwise by the response to the trigger. */
  lemma TriggerIsSafeIffM4Sent(es: seq<Step>, fs: seq<Step>)
    requires PossibleRun(Start(), es) && M4First(Run(Start(), es))
    requires PossibleRun(Next(Run(Start(), es), Application), fs)
    requires Run(Next(Run(Start(), es), Application), fs).m4
    ensures
      var s := Run(Start(), es);
      var t := Run(Next(s, Application), fs);
      FirstOther(t.handled) == Some(if M4 in s.sent then M4 else AppTrigger)
  {
    StartHasInv();
    RunKeepsInv(Start(), es);
    AfterTrigger(Run(Start(), es));
    FirstSetsM4(Next(Run(Start(), es), Application), fs);
  }

  /** Over every run: M4 and the trigger are sent at most once, and M4 only after responses
      to M1 and M3. The trigger is sent only after M1 and the first request that is neither
      M1 nor M3 are answered; with patient triggers of the application, after M1, M3 and M4. */
  lemma HandshakeSafety(es: seq<Step>)
    requires PossibleRun(Start(), es)
    ensures
      var s := Run(Start(), es);
      && Once(s.sent, M1) && Once(s.sent, M4) && Once(s.sent, Setup)
      && (M4 in s.sent ==> M1 in s.handled && M3 in s.handled)
      && (Setup in s.sent ==> M1 in s.handled && FirstOther(s.handled).Some?)
      && (Setup in s.sent && PatientRun(Start(), es) ==> M3 in s.handled && M4 in s.handled)
  {
    StartHasInv();
    RunKeepsInv(Start(), es);
    M4DoneIffPatient(es);
    var s := Run(Start(), es);
    HandledWasSent(s);
    NoOther(s.handled);
    if s.handled != [] {
      assert s.sent[0] == s.handled[0];
    }
  }

  /** Each flag is set by the response to the request it is named after, and by no other
      message: m1_done by the one response there is, m3_done by the first that is
      understood, and m4_done, whatever the application does, by the response to the first
      request that is neither M1 nor M3. */
  lemma FlagsAreSetByTheirResponse(s: State, answers: bool, parses: bool, sends: bool)
    requires Inv(s) && s.inn != []
    ensures
      var t := Next(s, SourceTakes(answers, parses, sends));
      var answered := if s.inn[0].Response? then Some(s.inn[0].to) else None;
      var other := answered.Some? && answered.value != M1 && answered.value != M3;
      && (t.m1 <==> s.m1 || answered == Some(M1))
      && (answered == Some(M1) ==> !s.m1)
      && (t.m3 <==> s.m3 || (answered == Some(M3) && parses))
      && (t.m4 <==> s.m4 || other)
      && (!s.m4 && other ==> answered == FirstOther(s.sent))
      && (M4First(s) ==> (t.m4 <==> s.m4 || answered == Some(M4)))
  {
    if s.inn[0].Response? {
      WhoseResponse(s);
    }
  }

  /** The other steps set no flag. */
  lemma OnlyResponsesSetFlags(s: State, e: Step)
    requires Possible(s, e) && !e.SourceTakes?
    ensures var t := Next(s, e); t.m1 == s.m1 && t.m3 == s.m3 && t.m4 == s.m4
  {
  }

  /** A trigger of the application before M4 is sent: its response passes for that of M4, and
      the source triggers the set-up without M4 being sent. */
  lemma EarlyTriggerPassesForM4()
    ensures exists es :: PossibleRun(Start(), es) && Setup in Run(Start(), es).sent && M4 !in Run(Start(), es).sent
  {
    var t := SourceTakes(true, true, true);
    var es := [Application, SinkAnswers, SinkAnswers, t, t];
    var s0 := Start();
    var s1 := Next(s0, Application);
    var s2 := Next(s1, SinkAnswers);
    var s3 := Next(s2, SinkAnswers);
    var s4 := Next(s3, t);
    var s5 := Next(s4, t);
    assert s1.out == [M1, AppTrigger] && s2.out == [AppTrigger] && s3.out == [];
    assert s2.inn == [Response(M1, false)] && s3.inn == [Response(M1, false), Response(AppTrigger, false)];
    assert s4.m1 && !s4.m4 && s4.inn == [Response(AppTrigger, false)];
    assert s5.sent == [M1, AppTrigger, Setup];
    RunOne(s4, t);
    RunMore(s3, t, [t]);
    RunMore(s2, SinkAnswers, [t, t]);
    RunMore(s1, SinkAnswers, [SinkAnswers, t, t]);
    RunMore(s0, Application, [SinkAnswers, SinkAnswers, t, t]);
    assert [t] + [t] == [t, t] && [SinkAnswers] + [t, t] == [SinkAnswers, t, t];
    assert [SinkAnswers] + [SinkAnswers, t, t] == [SinkAnswers, SinkAnswers, t, t];
    assert [Application] + [SinkAnswers, SinkAnswers, t, t] == es;
    assert Setup in Run(s0, es).sent;
  }

  lemma RunOne(s: State, e: Step)
    requires Possible(s, e)
    ensures PossibleRun(s, [e]) && Run(s, [e]) == Next(s, e)
  {
    assert [e][1..] == [];
  }

  lemma RunMore(s: State, e: Step, es: seq<Step>)
    requires Possible(s, e) && PossibleRun(Next(s, e), es)
    ensures PossibleRun(s, [e] + es) && Run(s, [e] + es) == Run(Next(s, e), es)
  {
    assert ([e] + es)[1..] == es;
  }

  // ---------- progress ----------

  /** Whatever the source has to send it can send. */
  predicate Sends(e: Step) {
    e.SourceTakes? ==> e.answers && e.sends
  }

  /** M4 has been sent exactly when M3 is done, and the trigger exactly when M4 is done. */
  predicate Prompt(s: State) {
    (M4 in s.sent <==> s.m3) && (Setup in s.sent <==> s.m4)
  }

  lemma StepKeepsPrompt(s: State, e: Step)
    requires Prompt(s) && Possible(s, e) && Sends(e)
    ensures Prompt(Next(s, e))
  {
    var t := Next(s, e);
    assert forall x :: x in s.sent ==> x in t.sent;
  }

  /** In every run in which sending succeeds, each request follows as soon as the response
      before it has been handled. */
  lemma {:induction false} RunIsPrompt(s: State, es: seq<Step>)
    requires Prompt(s) && PossibleRun(s, es) && forall i :: 0 <= i < |es| ==> Sends(es[i])
    ensures Prompt(Run(s, es))
    decreases |es|
  {
    if es != [] {
      StepKeepsPrompt(s, es[0]);
      RunIsPrompt(Next(s, es[0]), es[1..]);
    }
  }

  /** In every state, whatever the flags: an OPTIONS that names a user agent is answered, and
      M3 follows; when M3 cannot be sent only the answer goes out, and without a user agent,
      or when the answer cannot be sent, nothing does. */
  lemma OptionsAreAnswered(s: State, answers: bool, parses: bool, sends: bool)
    requires s.inn != [] && s.inn[0].Options?
    ensures
      var t := Next(s, SourceTakes(answers, parses, sends));
      && t.m1 == s.m1 && t.m3 == s.m3 && t.m4 == s.m4 && t.handled == s.handled && t.inn == s.inn[1..]
      && t.out == s.out + (if !s.inn[0].agent || !answers then []
                           else if sends then [OptionsAnswer, M3] else [OptionsAnswer])
      && t.sent == s.sent + (if s.inn[0].agent && answers && sends then [M3] else [])
  {
    Assoc(s.out, [OptionsAnswer], [M3]);
    assert s.sent + [] == s.sent && s.out + [] == s.out;
  }

  function CountOf(rs: seq<Out>, r: Out): nat {
    if rs == [] then 0 else (if rs[0] == r then 1 else 0) + CountOf(rs[1..], r)
  }

  lemma {:induction false} CountOfConcat(a: seq<Out>, b: seq<Out>, r: Out)
    ensures CountOf(a + b, r) == CountOf(a, r) + CountOf(b, r)
  {
    if a == [] {
      assert a + b == b;
    } else {
      assert (a + b)[1..] == a[1..] + b;
      CountOfConcat(a[1..], b, r);
    }
  }

  /** How many OPTIONS with a user agent the source takes during a run. */
  function AgentsTaken(s: State, es: seq<Step>): nat
    requires PossibleRun(s, es)
    decreases |es|
  {
    if es == [] then 0
    else (if es[0].SourceTakes? && s.inn[0] == Options(true) then 1 else 0) + AgentsTaken(Next(s, es[0]), es[1..])
  }

  lemma SendCounts(s: State, r: Out)
    ensures CountOf(Send(s, r).sent, M3) == CountOf(s.sent, M3) + if r == M3 then 1 else 0
  {
    CountOfConcat(s.sent, [r], M3);
    assert [r][1..] == [];
  }

  lemma StepSendsM3(s: State, e: Step)
    requires Possible(s, e) && Sends(e)
    ensures CountOf(Next(s, e).sent, M3)
            == CountOf(s.sent, M3) + if e.SourceTakes? && s.inn[0] == Options(true) then 1 else 0
  {
    match e
    case SourceTakes(answers, parses, sends) =>
      var t := s.(inn := s.inn[1..]);
      if s.inn[0].Options? {
        SendCounts(t, OptionsAnswer);
        SendCounts(Send(t, OptionsAnswer), M3);
      } else {
        var u := t.(handled := t.handled + [s.inn[0].to]);
        SendCounts(u.(m3 := true), M4);
        SendCounts(u.(m4 := true), Setup);
      }
    case Application => SendCounts(s, AppTrigger);
    case _ =>
  }

  /** Over every run in which sending succeeds: one M3 for every OPTIONS with a user agent
      that the source takes, before or after any response, and no other. */
  lemma {:induction false} RunAnswersEveryOptions(s: State, es: seq<Step>)
    requires PossibleRun(s, es) && forall i :: 0 <= i < |es| ==> Sends(es[i])
    ensures CountOf(Run(s, es).sent, M3) == CountOf(s.sent, M3) + AgentsTaken(s, es)
    decreases |es|
  {
    if es != [] {
      StepSendsM3(s, es[0]);
      RunAnswersEveryOptions(Next(s, es[0]), es[1..]);
    }
  }

  /** The exchange can be completed: the sink asks once, and everything is answered in
      order. */
  lemma ExchangeCompletes()
    ensures exists es :: PossibleRun(Start(), es)
                         && Run(Start(), es).sent == [M1, M3, M4, Setup]
                         && Run(Start(), es).handled == [M1, M3, M4]
  {
    var t := SourceTakes(true, true, true);
    var a := SinkAnswers;
    var s0 := Start();
    var s1 := Next(s0, SinkAsks(true));
    var s2 := Next(s1, t);
    assert s2.out == [M1, OptionsAnswer, M3] && s2.inn == [];
    var s3 := Next(s2, a);
    var s4 := Next(s3, a);
    var s5 := Next(s4, a);
    assert s3.out == [OptionsAnswer, M3] && s4.out == [M3] && s5.out == [];
    assert s5.inn == [Response(M1, false), Response(M3, true)];
    var s6 := Next(s5, t);
    var s7 := Next(s6, t);
    assert s7.out == [M4] && s7.inn == [] && s7.m1 && s7.m3;
    var s8 := Next(s7, a);
    assert s8.inn == [Response(M4, false)];
    var s9 := Next(s8, t);
    assert s9.sent == [M1, M3, M4, Setup] && s9.handled == [M1, M3, M4];
    RunOne(s8, t);
    RunMore(s7, a, [t]);
    RunMore(s6, t, [a] + [t]);
    RunMore(s5, t, [t] + ([a] + [t]));
    RunMore(s4, a, [t] + ([t] + ([a] + [t])));
    RunMore(s3, a, [a] + ([t] + ([t] + ([a] + [t]))));
    RunMore(s2, a, [a] + ([a] + ([t] + ([t] + ([a] + [t])))));
    RunMore(s1, t, [a] + ([a] + ([a] + ([t] + ([t] + ([a] + [t]))))));
    RunMore(s0, SinkAsks(true), [t] + ([a] + ([a] + ([a] + ([t] + ([t] + ([a] + [t])))))));
  }
}
