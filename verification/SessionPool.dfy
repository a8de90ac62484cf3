/** Sessions and the table that holds them. */
module SessionPool {
  import opened Machine
  import opened SessionTime
  import opened SessionWatch

  class Session {
    const id: string
    var lastAccess: nat
    var timeout: nat
    var expireCount: int

    constructor (id: string, clock: nat, timeout: nat)
      ensures this.id == id && View() == Timing(clock, timeout, 0)
    {
      this.id, lastAccess, this.timeout, expireCount := id, clock, timeout, 0;
    }

    ghost function View(): Timing
      reads this
    {
      Timing(lastAccess, timeout, expireCount)
    }

    method Touch(clock: nat)
      modifies this
      ensures View() == old(View()).(lastAccess := clock)
    {
      lastAccess := clock;
    }

    method PreventExpire()
      modifies this
      ensures View() == old(View()).(expireCount := old(expireCount) + 1)
    {
      expireCount := expireCount + 1;
    }

    method AllowExpire()
      modifies this
      ensures View() == old(View()).(expireCount := old(expireCount) - 1)
    {
      expireCount := expireCount - 1;
    }

    /** Milliseconds until expiry; touches a pinned session. */
    method NextTimeoutMs(now: nat, clock: nat) returns (res: int)
      modifies this
      ensures View() == Asked(old(View()), clock)
      ensures res == NextTimeout(old(View()), now, clock)
    {
      if expireCount != 0 {
        lastAccess := clock;
      }
      var last := lastAccess * 1000 + timeout * 1_000_000_000 + 5_000_000_000;
      var nowNs := now * 1000;
      res := if last > nowNs then Int32((last - nowNs) / 1_000_000) else 0;
    }
  }

  /** The table on values. */
  type Table = map<string, Timing>

  ghost function ExpiredIds(t: Table, now: nat, clock: nat): set<string> {
    set id | id in t && Expired(t[id], now, clock)
  }

  /** Every session is as in the table, and asked unless still to do. */
  ghost predicate Progress(all: map<string, Session>, todo: set<string>, table: Table, clock: nat)
    reads all.Values
  {
    forall id :: id in all ==> (id in table
      && all[id].View() == if id in todo then table[id] else Asked(table[id], clock))
  }

  /** Asks one session of a table for its timeout; the others are not touched. */
  method AskOne(all: map<string, Session>, ghost todo: set<string>, ghost table: Table, id: string, now: nat, clock: nat)
    returns (ms: int)
    requires id in all && id in todo && (forall k :: k in all ==> all[k].id == k)
    requires Progress(all, todo, table, clock)
    modifies all[id]
    ensures ms == NextTimeout(table[id], now, clock)
    ensures Progress(all, todo - {id}, table, clock)
  {
    ms := all[id].NextTimeoutMs(now, clock);
    forall k | k in all && k != id
      ensures all[k].View() == if k in todo - {id} then table[k] else Asked(table[k], clock)
    {
      assert all[k] != all[id];
    }
  }

  ghost function Timeouts(t: Table, now: nat, clock: nat): map<string, int> {
    map id | id in t :: NextTimeout(t[id], now, clock)
  }

  ghost function TableOf(all: map<string, Session>): Table
    reads all.Values
  {
    map id | id in all :: all[id].View()
  }

  /** Asks every session of the table, in any order. */
  method AskAll(all: map<string, Session>, now: nat, clock: nat) returns (ms: map<string, int>)
    requires forall k :: k in all ==> all[k].id == k
    modifies all.Values
    ensures ms == old(Timeouts(TableOf(all), now, clock))
    ensures Progress(all, {}, old(TableOf(all)), clock)
  {
    ghost var table := TableOf(all);
    ms := map[];
    var todo := all.Keys;
    while todo != {}
      invariant todo <= all.Keys && ms.Keys == all.Keys - todo
      invariant Progress(all, todo, table, clock)
      invariant forall id :: id in ms ==> ms[id] == NextTimeout(table[id], now, clock)
      decreases |todo|
    {
      var id :| id in todo;
      var t := AskOne(all, todo, table, id, now, clock);
      ms := ms[id := t];
      todo := todo - {id};
    }
  }

  /** t is the least timeout over the sessions done so far, -1 when there are none. */
  ghost predicate IsLeast(ms: map<string, int>, done: set<string>, t: int)
    requires done <= ms.Keys
  {
    if done == {} then t == -1
    else (forall id :: id in done ==> t <= ms[id]) && exists id :: id in done && t == ms[id]
  }

  lemma LeastGrows(ms: map<string, int>, done: set<string>, t: int, id: string)
    requires done <= ms.Keys && id in ms && IsLeast(ms, done, t)
    requires forall k :: k in ms ==> ms[k] >= 0
    ensures IsLeast(ms, done + {id}, if t == -1 || ms[id] < t then ms[id] else t)
  {
    if done != {} {
      var k :| k in done && t == ms[k];
      assert k in done + {id};
    }
    assert id in done + {id};
  }

  /** The fold of collect_timeout over the answers, in the order in which the table is
      walked. */
  method LeastTimeout(ms: map<string, int>) returns (timeout: int, ghost order: seq<string>)
    ensures Visits(order, ms.Keys) && timeout == CollectAll(Values(ms, order), -1)
    ensures (forall k :: k in ms ==> ms[k] >= 0) ==> IsLeast(ms, ms.Keys, timeout)
  {
    var todo := ms.Keys;
    timeout := -1;
    order := [];
    while todo != {}
      invariant todo <= ms.Keys
      invariant Visits(order, ms.Keys - todo) && timeout == CollectAll(Values(ms, order), -1)
      invariant (forall k :: k in ms ==> ms[k] >= 0) ==> IsLeast(ms, ms.Keys - todo, timeout)
      decreases |todo|
    {
      var id :| id in todo;
      assert ms.Keys - (todo - {id}) == (ms.Keys - todo) + {id};
      VisitMore(ms, order, ms.Keys - todo, id, -1);
      if forall k :: k in ms ==> ms[k] >= 0 {
        LeastGrows(ms, ms.Keys - todo, timeout, id);
      }
      if timeout == -1 || ms[id] < timeout {
        timeout := ms[id];
      }
      order := order + [id];
      todo := todo - {id};
    }
    assert ms.Keys - todo == ms.Keys;
  }

  function ZeroIds(ms: map<string, int>): set<string> {
    set id | id in ms && ms[id] == 0
  }

  lemma ZeroMeansExpired(t: Table, now: nat, clock: nat)
    ensures ZeroIds(Timeouts(t, now, clock)) == ExpiredIds(t, now, clock)
  {
  }

  /** Asks every session of the table, and tells which have expired. */
  method AskExpired(all: map<string, Session>, now: nat, clock: nat) returns (gone: set<string>)
    requires forall k :: k in all ==> all[k].id == k
    modifies all.Values
    ensures gone == old(ExpiredIds(TableOf(all), now, clock))
    ensures Progress(all, {}, old(TableOf(all)), clock)
  {
    ZeroMeansExpired(TableOf(all), now, clock);
    var ms := AskAll(all, now, clock);
    gone := ZeroIds(ms);
  }

  lemma FewerLeft(all: map<string, Session>, gone: set<string>)
    ensures |all - gone| <= |all|
  {
    assert all.Keys == (all - gone).Keys + (all.Keys * gone);
  }

  class Pool {
    var maxSessions: nat
    var sessions: map<string, Session>

    constructor (max: nat)
      ensures Valid() && sessions == map[] && maxSessions == max
    {
      maxSessions, sessions := max, map[];
    }

    /** Every session is filed under its own id, and the limit is respected. */
    ghost predicate Valid()
      reads this
    {
      && (forall id :: id in sessions ==> sessions[id].id == id)
      && (maxSessions > 0 ==> |sessions| <= maxSessions)
    }

    ghost function View(): Table
      reads this, sessions.Values
    {
      TableOf(sessions)
    }

    /** Files a new session under the first of the random ids that is free; gives up at the
        limit, or after 101 ids in use. */
    method Create(ids: seq<string>, clock: nat, timeout: nat) returns (result: Session?, attempts: nat)
      requires Valid() && |ids| >= 101
      modifies this`sessions
      ensures Valid()
      ensures 1 <= attempts <= 101
      ensures result == null ==> sessions == old(sessions)
      ensures result == null <==>
                || (maxSessions > 0 && |old(sessions)| >= maxSessions)
                || (forall i :: 0 <= i < 101 ==> ids[i] in old(sessions))
      ensures result != null ==>
                && fresh(result) && result.id == ids[attempts - 1] && result.id !in old(sessions)
                && (forall i :: 0 <= i < attempts - 1 ==> ids[i] in old(sessions))
                && sessions == old(sessions)[result.id := result]
                && result.View() == Timing(clock, timeout, 0)
    {
      result := null;
      var retry := 0;
      while result == null
        invariant 0 <= retry <= 100
        invariant result == null ==> sessions == old(sessions) && (forall i :: 0 <= i < retry ==> ids[i] in old(sessions))
        invariant result == null && retry > 0 ==> !(maxSessions > 0 && |sessions| >= maxSessions)
        invariant result != null ==>
                    && fresh(result) && result.id == ids[retry] && result.id !in old(sessions)
                    && (forall i :: 0 <= i < retry ==> ids[i] in old(sessions))
                    && sessions == old(sessions)[result.id := result]
                    && result.View() == Timing(clock, timeout, 0)
                    && !(maxSessions > 0 && |old(sessions)| >= maxSessions)
        decreases result == null, 101 - retry
      {
        var id := ids[retry];
        if maxSessions > 0 && |sessions| >= maxSessions {
          return null, retry + 1;
        }
        if id in sessions {
          retry := retry + 1;
          if retry > 100 {
            return null, retry;
          }
        } else {
          result := new Session(id, clock, timeout);
          sessions := sessions[id := result];
        }
      }
      attempts := retry + 1;
    }

    method Find(id: string, clock: nat) returns (result: Session?)
      requires Valid()
      modifies sessions.Values
      ensures result != null <==> id in sessions
      ensures result != null ==> result == sessions[id] && result.id == id
      ensures View() == if id in sessions then old(View())[id := old(View())[id].(lastAccess := clock)] else old(View())
    {
      if id !in sessions {
        return null;
      }
      result := sessions[id];
      result.Touch(clock);
      assert forall k :: k in sessions && k != id ==> sessions[k] != result;
    }

    /** Removes whatever is filed under the id of the session. */
    method Remove(session: Session) returns (found: bool)
      requires Valid()
      modifies this`sessions
      ensures Valid() && (found <==> session.id in old(sessions))
      ensures sessions == old(sessions) - {session.id}
    {
      found := session.id in sessions;
      sessions := sessions - {session.id};
      if found {
        assert old(sessions).Keys == sessions.Keys + {session.id};
      }
    }

    /** Removes the expired sessions and tells how many they were. */
    method Cleanup(now: nat, clock: nat) returns (result: nat)
      requires Valid()
      modifies this`sessions, sessions.Values
      ensures Valid()
      ensures sessions == old(sessions) - old(ExpiredIds(View(), now, clock))
      ensures result == |old(ExpiredIds(View(), now, clock))|
      ensures forall id :: id in sessions ==> sessions[id].View() == Asked(old(View())[id], clock)
    {
      var gone := AskExpired(sessions, now, clock);
      FewerLeft(sessions, gone);
      sessions := sessions - gone;
      result := |gone|;
    }

    /** What the watch of the pool waits for: the least timeout, or -1 without sessions; it
        is ready when that is 0. */
    method Prepare(now: nat) returns (ready: bool, timeout: int, ghost order: seq<string>)
      requires Valid()
      modifies sessions.Values
      ensures Valid()
      ensures forall id :: id in sessions ==> sessions[id].View() == Asked(old(View())[id], now)
      ensures Visits(order, old(View()).Keys)
              && timeout == CollectAll(Values(Timeouts(old(View()), now, now), order), -1)
      ensures AllFit(old(View()), now) ==>
                IsLeast(Timeouts(old(View()), now, now), old(View()).Keys, timeout)
      ensures ready <==> timeout == 0
    {
      ghost var table := View();
      var ms := AskAll(sessions, now, now);
      timeout, order := LeastTimeout(ms);
      if AllFit(table, now) {
        TimeoutsFit(table, now);
      }
      ready := timeout == 0;
    }
  }

  ghost predicate AllFit(t: Table, now: nat) {
    forall id :: id in t ==> FitsInt(t[id], now, now)
  }

  lemma TimeoutsFit(t: Table, now: nat)
    requires AllFit(t, now)
    ensures forall id :: id in t ==> NextTimeout(t[id], now, now) >= 0
  {
    forall id | id in t ensures NextTimeout(t[id], now, now) >= 0 {
      TimeoutWhenItFits(t[id], now, now);
    }
  }

  /** The watch and the clean-up agree: at one clock reading, and for timeouts that fit, the
      watch is ready exactly when the clean-up has something to remove. */
  lemma WatchAgreesWithCleanup(t: Table, now: nat, timeout: int)
    requires AllFit(t, now) && IsLeast(Timeouts(t, now, now), t.Keys, timeout)
    ensures timeout == 0 <==> ExpiredIds(t, now, now) != {}
    ensures t != map[] ==> timeout >= 0
  {
    TimeoutsFit(t, now);
    if id :| id in ExpiredIds(t, now, now) {
      assert timeout == 0;
    }
    if timeout == 0 {
      var id :| id in t && timeout == NextTimeout(t[id], now, now);
      assert id in ExpiredIds(t, now, now);
    }
  }

  /** Without that bound, for every table and order: a watch that is ready has a session to
      remove. And with an expired session in the table, the watch is ready whatever the order
      in which the sessions are visited if and only if no timeout is negative in the 32 bits
      it is stored in; one below -1 hides the expired session in every order. */
  lemma WatchSeesExpiredIff(t: Table, now: nat)
    ensures forall order :: Visits(order, t.Keys) && CollectAll(Values(Timeouts(t, now, now), order), -1) == 0
              ==> ExpiredIds(t, now, now) != {}
    ensures ExpiredIds(t, now, now) != {} ==>
              ((forall order :: Visits(order, t.Keys) ==> CollectAll(Values(Timeouts(t, now, now), order), -1) == 0)
               <==> forall id :: id in t ==> !Negative(t[id], now, now))
    ensures (exists id :: id in t && NextTimeout(t[id], now, now) < -1) ==>
              forall order :: Visits(order, t.Keys) ==> CollectAll(Values(Timeouts(t, now, now), order), -1) != 0
  {
    var ms := Timeouts(t, now, now);
    assert ms.Keys == t.Keys;
    forall order | Visits(order, t.Keys) && CollectAll(Values(ms, order), -1) == 0
      ensures ExpiredIds(t, now, now) != {}
    {
      ZeroIsSomebodys(ms, order);
      var id :| id in ms && ms[id] == 0;
      assert id in ExpiredIds(t, now, now);
    }
    ZeroInEveryOrder(ms);
    forall id | id in t ensures Negative(t[id], now, now) <==> ms[id] < 0 {
      NegativeExactly(t[id], now, now);
    }
    if id :| id in ExpiredIds(t, now, now) {
      assert ms[id] == 0;
    }
    if id :| id in t && NextTimeout(t[id], now, now) < -1 {
      assert ms[id] < -1;
      forall order | Visits(order, t.Keys) ensures CollectAll(Values(ms, order), -1) != 0 {
        VeryNegativeHides(ms, order);
      }
    }
  }

  /** A table for that: at five seconds the first session has expired, and the second, whose
      timeout is about 25 days, hides it in every order. */
  function HidingTable(): Table {
    map["a" := Timing(0, 0, 0), "b" := Timing(0, 2_147_490, 0)]
  }

  lemma HidingTimeouts()
    ensures var t := HidingTable();
            && t.Keys == {"a", "b"} && t["a"].Valid() && t["b"].Valid()
            && Expired(t["a"], 5_000_000, 5_000_000)
            && NextTimeout(t["b"], 5_000_000, 5_000_000) < -1
  {
  }

  lemma LongTimeoutHidesExpired()
    ensures var t := HidingTable();
            && "a" in ExpiredIds(t, 5_000_000, 5_000_000)
            && forall order :: Visits(order, t.Keys) ==>
                 CollectAll(Values(Timeouts(t, 5_000_000, 5_000_000), order), -1) != 0
  {
    var t := HidingTable();
    HidingTimeouts();
    var ms := Timeouts(t, 5_000_000, 5_000_000);
    assert "b" in ms && ms["b"] < -1 && ms.Keys == t.Keys;
    forall order | Visits(order, t.Keys) ensures CollectAll(Values(ms, order), -1) != 0 {
      VeryNegativeHides(ms, order);
    }
  }
}
