/** Sharing of pool threads as interleaved atomic steps: getters that hold the pool
    lock, stoppers that hold nothing, and loops that leave. */
module ThreadProtocol {
  import opened Sequences

  /** How far the main loop of a thread is: running, told to quit and left, taken out of
      the queue, and gone with its reference. */
  datatype Phase = Running | Left | Removed | Gone

  /** One thread. The first two fields are the program's counters; the others count the
      actors that are in the middle of something with it. */
  datatype Thread = Thread(
    refs: int,
    reused: int,
    client: bool,
    holders: nat,   // were handed the thread and have not stopped it
    dropping: nat,  // stopped it, were not the last, have not yet dropped their reference
    last: nat,      // brought the reuse counter to zero, have not yet attached the quit source
    sources: nat,   // quit sources attached and not yet run
    quits: nat,     // quit sources ever attached
    phase: Phase)

  /** What the holder of the pool lock is doing. */
  datatype Lock = Free | Deciding | Popped(t: nat) | Reusing(t: nat) | Got(t: nat)
  {
    predicate Counts(t: nat) { this == Reusing(t) || this == Got(t) }

    predicate Carries(t: nat) { this == Popped(t) || Counts(t) }

    function Load(): nat { if Popped? || Reusing? || Got? then 1 else 0 }
  }

  datatype State = State(threads: seq<Thread>, queue: seq<nat>, lock: Lock, max: int)

  datatype Step =
    | LockPool              // get_thread for a client takes the lock
    | Decide                // recycle the head of the queue, or make a thread
    | TryReuse              // atomic increment of the reuse counter, testing the old value
    | TakeRef               // reference for a successful reuse
    | Push                  // back into the queue, unlock and hand out
    | MakeMedia             // a media thread, never queued
    | StopDec(t: nat)       // a holder stops: atomic decrement and test
    | StopUnref(t: nat)     // not the last: drop the reference
    | StopAttach(t: nat)    // the last: attach the quit source, which keeps the reference
    | RunQuit(t: nat)       // the source runs, is destroyed, and the loop is left
    | ExitRemove(t: nat)    // the loop's thread takes the lock and leaves the queue
    | ExitUnref(t: nat)     // and drops the reference of the loop

  /** Without the first occurrence of t. */
  function Remove(q: seq<nat>, t: nat): seq<nat> {
    if q == [] then [] else if q[0] == t then q[1..] else [q[0]] + Remove(q[1..], t)
  }

  function NewThread(client: bool, holders: nat): Thread {
    Thread(2, 1, client, holders, 0, 0, 0, 0, Running)
  }

  predicate Full(s: State) { s.max > 0 && |s.queue| >= s.max }

  predicate Enabled(s: State, step: Step) {
    match step
    case LockPool => s.lock.Free? && s.max != 0
    case Decide => s.lock.Deciding?
    case TryReuse => s.lock.Popped? && s.lock.t < |s.threads|
    case TakeRef => s.lock.Reusing? && s.lock.t < |s.threads|
    case Push => s.lock.Got? && s.lock.t < |s.threads|
    case MakeMedia => true
    case StopDec(t) => t < |s.threads| && s.threads[t].holders > 0
    case StopUnref(t) => t < |s.threads| && s.threads[t].dropping > 0
    case StopAttach(t) => t < |s.threads| && s.threads[t].last > 0
    case RunQuit(t) => t < |s.threads| && s.threads[t].sources > 0 && s.threads[t].phase == Running
    case ExitRemove(t) => s.lock.Free? && t < |s.threads| && s.threads[t].phase == Left
    case ExitUnref(t) => t < |s.threads| && s.threads[t].phase == Removed
  }

  function Set(s: State, t: nat, x: Thread): State
    requires t < |s.threads|
  {
    s.(threads := s.threads[t := x])
  }

  function Next(s: State, step: Step): State
    requires Enabled(s, step)
  {
    match step
    case LockPool => s.(lock := Deciding)
    case Decide =>
      if Full(s) then s.(queue := s.queue[1..], lock := Popped(s.queue[0]))
      else s.(threads := s.threads + [NewThread(true, 0)], lock := Got(|s.threads|))
    case TryReuse =>
      var x := s.threads[s.lock.t];
      Set(s, s.lock.t, x.(reused := x.reused + 1)).(lock := if x.reused > 0 then Reusing(s.lock.t) else Deciding)
    case TakeRef =>
      var x := s.threads[s.lock.t];
      Set(s, s.lock.t, x.(refs := x.refs + 1)).(lock := Got(s.lock.t))
    case Push =>
      var x := s.threads[s.lock.t];
      Set(s, s.lock.t, x.(holders := x.holders + 1)).(queue := s.queue + [s.lock.t], lock := Free)
    case MakeMedia => s.(threads := s.threads + [NewThread(false, 1)])
    case StopDec(t) =>
      var x := s.threads[t].(holders := s.threads[t].holders - 1, reused := s.threads[t].reused - 1);
      Set(s, t, if x.reused == 0 then x.(last := x.last + 1) else x.(dropping := x.dropping + 1))
    case StopUnref(t) =>
      var x := s.threads[t];
      Set(s, t, x.(dropping := x.dropping - 1, refs := x.refs - 1))
    case StopAttach(t) =>
      var x := s.threads[t];
      Set(s, t, x.(last := x.last - 1, sources := x.sources + 1, quits := x.quits + 1))
    case RunQuit(t) =>
      var x := s.threads[t];
      Set(s, t, x.(sources := x.sources - 1, refs := x.refs - 1, phase := Left))
    case ExitRemove(t) =>
      Set(s, t, s.threads[t].(phase := Removed)).(queue := Remove(s.queue, t))
    case ExitUnref(t) =>
      var x := s.threads[t];
      Set(s, t, x.(refs := x.refs - 1, phase := Gone))
  }

  // ---------- the invariant ----------

  /** The last holder has stopped the thread: it is, or is about to be, told to quit. */
  predicate Told(x: Thread) { x.last + x.quits > 0 }

  function One(b: bool): nat { if b then 1 else 0 }

  /** Every reference has an owner. */
  predicate RefsOwned(x: Thread, lock: Lock, t: nat) {
    x.refs == One(x.phase != Gone) + x.holders + x.dropping + x.last + x.sources + One(lock == Got(t))
  }

  /** The reuse counter counts the holders, until the thread is told to quit; then nobody
      holds it, quit is scheduled once, and only a failed reuse may have touched it. */
  predicate ReuseCounts(x: Thread, lock: Lock, t: nat) {
    if Told(x) then
      && x.last + x.quits == 1 && x.holders == 0 && !lock.Counts(t)
      && 0 <= x.reused <= 1
      && (if x.phase == Running then x.sources == x.quits else x.sources == 0 && x.quits == 1)
    else
      && x.reused == x.holders + One(lock.Counts(t)) && x.reused >= 1
      && x.sources == 0 && x.phase == Running
  }

  /** A client thread that may still be handed out is in the queue, or with the holder of
      the lock. A told one is there at most until its counter is touched. */
  predicate Placed(s: State, t: nat)
    requires t < |s.threads|
  {
    var x := s.threads[t];
    && (x.client && !Told(x) ==> t in s.queue || s.lock.Carries(t))
    && (t in s.queue || s.lock.Carries(t) ==> x.client)
    && (Told(x) && x.reused == 1 ==> t !in s.queue && !s.lock.Carries(t))
    && (x.phase == Removed || x.phase == Gone ==> t !in s.queue && !s.lock.Carries(t))
  }

  /** What holds of one thread. */
  predicate ThreadInv(s: State, t: nat)
    requires t < |s.threads|
  {
    RefsOwned(s.threads[t], s.lock, t) && ReuseCounts(s.threads[t], s.lock, t) && Placed(s, t)
  }

  /** What holds of the queue and the lock. */
  ghost predicate QueueInv(s: State) {
    && NoDup(s.queue)
    && (forall t :: t in s.queue ==> t < |s.threads| && !s.lock.Carries(t))
    && (s.lock.Load() > 0 ==> s.lock.t < |s.threads|)
    && (s.max > 0 ==> |s.queue| + s.lock.Load() <= s.max)
  }

  ghost predicate Inv(s: State) {
    QueueInv(s) && forall t :: 0 <= t < |s.threads| ==> ThreadInv(s, t)
  }

  lemma {:induction false} RemoveFacts(q: seq<nat>, t: nat)
    requires NoDup(q)
    ensures NoDup(Remove(q, t)) && |Remove(q, t)| <= |q|
    ensures forall x :: x in Remove(q, t) <==> x in q && x != t
  {
    if q != [] {
      RemoveFacts(q[1..], t);
      assert q == [q[0]] + q[1..];
      if q[0] != t {
        assert Remove(q, t)[1..] == Remove(q[1..], t);
      }
    }
  }

  lemma {:induction false} AppendFacts(q: seq<nat>, t: nat)
    requires NoDup(q) && t !in q
    ensures NoDup(q + [t])
  {
    if q != [] {
      AppendFacts(q[1..], t);
      assert (q + [t])[1..] == q[1..] + [t];
    } else {
      assert (q + [t])[1..] == [];
    }
  }

  lemma DecideKeepsInv(s: State)
    requires Inv(s) && s.lock.Deciding?
    ensures Inv(Next(s, Decide))
  {
    var s' := Next(s, Decide);
    if Full(s) {
      assert s.queue == [s.queue[0]] + s.queue[1..];
      assert s.queue[0] in s.queue && forall t :: t in s'.queue ==> t in s.queue;
    }
    forall t | 0 <= t < |s'.threads| ensures ThreadInv(s', t) {
      assert t < |s.threads| ==> ThreadInv(s, t);
    }
  }

  lemma LockedKeepsInv(s: State, step: Step)
    requires Inv(s) && Enabled(s, step) && (step.LockPool? || step.TryReuse? || step.TakeRef?)
    ensures Inv(Next(s, step))
  {
    var s' := Next(s, step);
    forall t | 0 <= t < |s'.threads| ensures ThreadInv(s', t) {
      assert ThreadInv(s, t);
    }
  }

  lemma PushKeepsInv(s: State)
    requires Inv(s) && Enabled(s, Push)
    ensures Inv(Next(s, Push))
  {
    var s' := Next(s, Push);
    AppendFacts(s.queue, s.lock.t);
    forall t | 0 <= t < |s'.threads| ensures ThreadInv(s', t) {
      assert ThreadInv(s, t);
    }
  }

  lemma MakeMediaKeepsInv(s: State)
    requires Inv(s)
    ensures Inv(Next(s, MakeMedia))
  {
    var s' := Next(s, MakeMedia);
    forall t | 0 <= t < |s'.threads| ensures ThreadInv(s', t) {
      assert t < |s.threads| ==> ThreadInv(s, t);
    }
  }

  lemma OwnStepKeepsInv(s: State, step: Step)
    requires Inv(s) && Enabled(s, step)
    requires step.StopDec? || step.StopUnref? || step.StopAttach? || step.RunQuit? || step.ExitUnref?
    ensures Inv(Next(s, step))
  {
    var s' := Next(s, step);
    forall t | 0 <= t < |s'.threads| ensures ThreadInv(s', t) {
      assert ThreadInv(s, t);
    }
  }

  lemma ExitRemoveKeepsInv(s: State, u: nat)
    requires Inv(s) && Enabled(s, ExitRemove(u))
    ensures Inv(Next(s, ExitRemove(u)))
  {
    var s' := Next(s, ExitRemove(u));
    RemoveFacts(s.queue, u);
    forall t | 0 <= t < |s'.threads| ensures ThreadInv(s', t) {
      assert ThreadInv(s, t);
    }
  }

  /** Every atomic step of every actor keeps the invariant. */
  lemma StepKeepsInv(s: State, step: Step)
    requires Inv(s) && Enabled(s, step)
    ensures Inv(Next(s, step))
  {
    match step
    case LockPool => LockedKeepsInv(s, step);
    case TryReuse => LockedKeepsInv(s, step);
    case TakeRef => LockedKeepsInv(s, step);
    case Decide => DecideKeepsInv(s);
    case Push => PushKeepsInv(s);
    case MakeMedia => MakeMediaKeepsInv(s);
    case ExitRemove(t) => ExitRemoveKeepsInv(s, t);
    case _ => OwnStepKeepsInv(s, step);
  }

  // ---------- runs ----------

  function Start(max: int): State { State([], [], Free, max) }

  predicate Possible(s: State, steps: seq<Step>)
    decreases |steps|
  {
    steps == [] || (Enabled(s, steps[0]) && Possible(Next(s, steps[0]), steps[1..]))
  }

  function Run(s: State, steps: seq<Step>): State
    requires Possible(s, steps)
    decreases |steps|
  {
    if steps == [] then s else Run(Next(s, steps[0]), steps[1..])
  }

  lemma {:induction false} RunKeepsInv(s: State, steps: seq<Step>)
    requires Inv(s) && Possible(s, steps)
    ensures Inv(Run(s, steps)) && Run(s, steps).max == s.max
    decreases |steps|
  {
    if steps != [] {
      StepKeepsInv(s, steps[0]);
      RunKeepsInv(Next(s, steps[0]), steps[1..]);
    }
  }

  /** In every interleaving: a thread not told to quit has one reference for its loop, one
      per reuse count, and one per stop still in flight, and its reuse counter counts
      exactly those who hold it or are just getting it. */
  lemma CountersOfSharedThread(max: int, steps: seq<Step>, t: nat)
    requires Possible(Start(max), steps)
    requires var s := Run(Start(max), steps); t < |s.threads| && !Told(s.threads[t])
    ensures var s := Run(Start(max), steps);
            var x := s.threads[t];
            && x.reused == x.holders + One(s.lock.Counts(t))
            && x.refs == 1 + x.reused + x.dropping - One(s.lock == Reusing(t))
  {
    RunKeepsInv(Start(max), steps);
    assert ThreadInv(Run(Start(max), steps), t);
  }

  /** In every interleaving: quit is scheduled at most once, exactly when the last holder
      stops, and a thread told to quit is held by nobody and never handed out again. */
  lemma ToldThreadIsOver(max: int, steps: seq<Step>, t: nat)
    requires Possible(Start(max), steps)
    requires t < |Run(Start(max), steps).threads|
    ensures var s := Run(Start(max), steps);
            var x := s.threads[t];
            && x.last + x.quits <= 1
            && (Told(x) <==> x.holders == 0 && !s.lock.Counts(t))
            && (Told(x) && s.lock == Popped(t) ==> Next(s, TryReuse).lock == Deciding)
  {
    RunKeepsInv(Start(max), steps);
    assert ThreadInv(Run(Start(max), steps), t);
  }

  /** Memory: a thread is freed exactly when its loop is gone and nobody is in the middle
      of stopping it; in particular never while somebody holds it. */
  lemma FreedExactlyAtTheEnd(max: int, steps: seq<Step>, t: nat)
    requires Possible(Start(max), steps)
    requires t < |Run(Start(max), steps).threads|
    ensures var x := Run(Start(max), steps).threads[t];
            && x.refs >= 0
            && (x.refs == 0 <==> x.phase == Gone && x.dropping == 0)
            && (x.refs == 0 ==> x.holders == 0 && x.sources == 0 && x.quits == 1)
  {
    RunKeepsInv(Start(max), steps);
    assert ThreadInv(Run(Start(max), steps), t);
  }

  /** The queue holds no reference of its own; still, in every interleaving, whatever
      get_thread finds there or has just taken out of it is alive. */
  lemma QueuedThreadIsAlive(max: int, steps: seq<Step>, t: nat)
    requires Possible(Start(max), steps)
    requires var s := Run(Start(max), steps); t in s.queue || s.lock.Carries(t)
    ensures var s := Run(Start(max), steps);
            t < |s.threads| && s.threads[t].refs > 0 && s.threads[t].phase in {Running, Left}
  {
    RunKeepsInv(Start(max), steps);
    assert ThreadInv(Run(Start(max), steps), t);
  }

  /** The client threads that have not been told to quit. */
  function Live(s: State): set<nat> {
    set t: nat | t < |s.threads| && s.threads[t].client && !Told(s.threads[t])
  }

  function Elements(q: seq<nat>): (e: set<nat>)
    ensures |e| <= |q|
    ensures forall x :: x in e <==> x in q
  {
    if q == [] then {}
    else
      assert q == [q[0]] + q[1..];
      Elements(q[1..]) + {q[0]}
  }

  lemma SubsetIsSmaller(a: set<nat>, b: set<nat>)
    requires a <= b
    ensures |a| <= |b|
  {
    assert b == a + (b - a);
  }

  /** A live thread is queued, or carried by the getter that holds the lock. */
  lemma LiveIsQueued(s: State, t: nat)
    requires Inv(s) && t in Live(s)
    ensures t in s.queue || s.lock.Carries(t)
  {
    assert ThreadInv(s, t);
  }

  lemma LiveFitsQueue(s: State)
    requires Inv(s)
    ensures |Live(s)| <= |s.queue| + s.lock.Load()
  {
    var queued := Elements(s.queue);
    forall t | t in Live(s) ensures t in queued || s.lock.Carries(t) {
      LiveIsQueued(s, t);
    }
    if s.lock.Load() > 0 {
      SubsetIsSmaller(Live(s), queued + {s.lock.t});
    } else {
      SubsetIsSmaller(Live(s), queued);
    }
  }

  /** With a positive constant limit, at most that many client threads are live. */
  lemma AtMostMaxThreads(max: int, steps: seq<Step>)
    requires max > 0 && Possible(Start(max), steps)
    ensures |Live(Run(Start(max), steps))| <= max
  {
    RunKeepsInv(Start(max), steps);
    LiveFitsQueue(Run(Start(max), steps));
  }

  /** The retry loop of get_thread ends: while the lock is held only its holder touches
      the queue, and every recycled head shortens it. */
  lemma RetryShortensQueue(s: State, step: Step)
    requires Enabled(s, step) && !s.lock.Free?
    ensures var s' := Next(s, step);
            && (step.Push? || |s'.queue| <= |s.queue|)
            && (step.Decide? && Full(s) ==> |s'.queue| < |s.queue|)
            && (s'.lock.Popped? && !s.lock.Popped? ==> step.Decide?)
            && (s'.lock.Free? ==> step.Push?)
  {
  }

  // ---------- one getter, undisturbed ----------

  /** The reuse counters along the queue. */
  function Counters(threads: seq<Thread>, queue: seq<nat>): (c: seq<int>)
    requires forall i :: 0 <= i < |queue| ==> queue[i] < |threads|
    ensures |c| == |queue|
    ensures forall i :: 0 <= i < |queue| ==> c[i] == threads[queue[i]].reused
  {
    if queue == [] then [] else [threads[queue[0]].reused] + Counters(threads, queue[1..])
  }

  /** How many threads told to quit a getter skips at the head of the queue. */
  function Skipped(counters: seq<int>, max: int): (n: nat)
    ensures n <= |counters|
  {
    if max > 0 && |counters| >= max && counters[0] <= 0 then 1 + Skipped(counters[1..], max) else 0
  }

  /** get_thread for a client with nothing else happening meanwhile. */
  function GetAlone(s: State): State
    requires s.lock.Deciding? && (forall i :: 0 <= i < |s.queue| ==> s.queue[i] < |s.threads|)
    decreases |s.queue|
  {
    var s1 := Next(s, Decide);
    if s1.lock.Got? then Next(s1, Push)
    else
      var s2 := Next(s1, TryReuse);
      if s2.lock.Reusing? then Next(Next(s2, TakeRef), Push) else GetAlone(s2)
  }

  /** Recycling a head that was told to quit only drops it from the queue. */
  function SkipHead(s: State): State
    requires s.queue != [] && s.queue[0] < |s.threads|
  {
    var x := s.threads[s.queue[0]];
    State(s.threads[s.queue[0] := x.(reused := x.reused + 1)], s.queue[1..], Deciding, s.max)
  }

  lemma GetAloneSkips(s: State)
    requires s.lock.Deciding? && (forall i :: 0 <= i < |s.queue| ==> s.queue[i] < |s.threads|)
    requires NoDup(s.queue) && Full(s) && s.threads[s.queue[0]].reused <= 0
    ensures GetAlone(s) == GetAlone(SkipHead(s))
    ensures Counters(SkipHead(s).threads, s.queue[1..]) == Counters(s.threads, s.queue)[1..]
  {
    assert s.queue == [s.queue[0]] + s.queue[1..];
    assert Next(Next(s, Decide), TryReuse) == SkipHead(s);
  }

  /** Handed out after skipping n: the first queued thread not told to quit if the queue
      is still full there, and otherwise a new one; it is queued last. */
  predicate HandedOut(s: State, n: nat, s': State)
    requires n <= |s.queue| && (forall i :: 0 <= i < |s.queue| ==> s.queue[i] < |s.threads|)
  {
    if s.max > 0 && |s.queue| - n >= s.max then
      var t := s.queue[n];
      && s'.queue == s.queue[n + 1..] + [t]
      && |s'.threads| == |s.threads|
      && s'.threads[t] == s.threads[t].(reused := s.threads[t].reused + 1,
                                        refs := s.threads[t].refs + 1,
                                        holders := s.threads[t].holders + 1)
    else
      && s'.queue == s.queue[n..] + [|s.threads|]
      && |s'.threads| == |s.threads| + 1
      && s'.threads[|s.threads|] == NewThread(true, 1)
  }

  lemma SkipHeadHandsOut(s: State, n: nat, s': State)
    requires NoDup(s.queue) && s.queue != [] && n < |s.queue|
    requires forall i :: 0 <= i < |s.queue| ==> s.queue[i] < |s.threads|
    requires HandedOut(SkipHead(s), n, s')
    ensures HandedOut(s, n + 1, s')
  {
    var tail := s.queue[1..];
    assert tail[n..] == s.queue[n + 1..];
    if s.max > 0 && |s.queue| - (n + 1) >= s.max {
      assert tail[n] == s.queue[n + 1] && tail[n] in tail;
      assert tail[n + 1..] == s.queue[n + 2..];
    }
  }

  /** A queue that is not full makes a thread. */
  lemma GetAloneMakes(s: State)
    requires s.lock.Deciding? && !Full(s)
    requires forall i :: 0 <= i < |s.queue| ==> s.queue[i] < |s.threads|
    ensures HandedOut(s, 0, GetAlone(s))
  {
    assert GetAlone(s) == Next(Next(s, Decide), Push);
  }

  /** The thread at the head with one more user. */
  function TakeHead(s: State): State
    requires s.queue != [] && s.queue[0] < |s.threads|
  {
    var t := s.queue[0];
    var x := s.threads[t];
    State(s.threads[t := x.(reused := x.reused + 1, refs := x.refs + 1, holders := x.holders + 1)],
          s.queue[1..] + [t], Free, s.max)
  }

  lemma SetTwice(threads: seq<Thread>, t: nat, x: Thread, y: Thread)
    requires t < |threads|
    ensures threads[t := x][t := y] == threads[t := y]
  {
  }

  /** A head that can be reused is taken. */
  lemma GetAloneReuses(s: State)
    requires s.lock.Deciding? && Full(s) && s.queue[0] < |s.threads| && s.threads[s.queue[0]].reused > 0
    requires forall i :: 0 <= i < |s.queue| ==> s.queue[i] < |s.threads|
    ensures GetAlone(s) == TakeHead(s)
  {
    var t := s.queue[0];
    var x := s.threads[t];
    var x1 := x.(reused := x.reused + 1);
    var x2 := x1.(refs := x.refs + 1);
    SetTwice(s.threads, t, x1, x2);
    SetTwice(s.threads, t, x2, x2.(holders := x.holders + 1));
    var s2 := State(s.threads[t := x1], s.queue[1..], Reusing(t), s.max);
    assert Next(Next(s, Decide), TryReuse) == s2;
    assert Next(s2, TakeRef) == State(s.threads[t := x2], s.queue[1..], Got(t), s.max);
  }

  lemma TakenHeadIsHandedOut(s: State)
    requires Full(s) && (forall i :: 0 <= i < |s.queue| ==> s.queue[i] < |s.threads|)
    ensures HandedOut(s, 0, TakeHead(s))
  {
  }

  /** The steps of one getter, undisturbed, hand out what get_thread promises. */
  lemma {:induction false} GetAloneHandsOut(s: State)
    requires s.lock.Deciding? && NoDup(s.queue)
    requires forall i :: 0 <= i < |s.queue| ==> s.queue[i] < |s.threads|
    ensures HandedOut(s, Skipped(Counters(s.threads, s.queue), s.max), GetAlone(s))
    decreases |s.queue|
  {
    if Full(s) && s.threads[s.queue[0]].reused <= 0 {
      GetAloneSkips(s);
      GetAloneHandsOut(SkipHead(s));
      SkipHeadHandsOut(s, Skipped(Counters(s.threads, s.queue)[1..], s.max), GetAlone(s));
    } else if Full(s) {
      GetAloneReuses(s);
      TakenHeadIsHandedOut(s);
    } else {
      GetAloneMakes(s);
    }
  }
}
