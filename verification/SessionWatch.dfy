/** What the watch of the session pool computes when it visits the sessions one by one: the
    least timeout, with -1 for none so far. */
module SessionWatch {
  import opened Sequences

  /** One visit. */
  function Collect(t: int, x: int): int {
    if t == -1 || x < t then x else t
  }

  function CollectAll(xs: seq<int>, t: int): int {
    if xs == [] then t else CollectAll(xs[1..], Collect(t, xs[0]))
  }

  lemma {:induction false} CollectLast(xs: seq<int>, x: int, t: int)
    ensures CollectAll(xs + [x], t) == Collect(CollectAll(xs, t), x)
  {
    if xs == [] {
      assert ([] + [x])[1..] == [];
    } else {
      assert (xs + [x])[1..] == xs[1..] + [x];
      CollectLast(xs[1..], x, Collect(t, xs[0]));
    }
  }

  /** What is visited after the last -1. */
  function AfterLast(xs: seq<int>): seq<int> {
    if xs == [] then []
    else if -1 in xs[1..] then AfterLast(xs[1..])
    else if xs[0] == -1 then xs[1..]
    else xs
  }

  /** When the result is 0, exactly: nothing is below -1, and a 0 follows the last -1. */
  lemma {:induction false} CollectsZero(xs: seq<int>, t: int)
    ensures CollectAll(xs, t) == 0
            <==> t >= -1 && (forall i :: 0 <= i < |xs| ==> xs[i] >= -1)
                 && (0 in AfterLast(xs) || (t == 0 && -1 !in xs))
  {
    if xs != [] {
      CollectsZero(xs[1..], Collect(t, xs[0]));
      assert xs == [xs[0]] + xs[1..];
      AfterLastFacts(xs[1..]);
    }
  }

  lemma {:induction false} AfterLastFacts(xs: seq<int>)
    ensures -1 !in xs ==> AfterLast(xs) == xs
    ensures forall x :: x in AfterLast(xs) ==> x in xs
  {
    if xs != [] && -1 in xs[1..] {
      AfterLastFacts(xs[1..]);
    }
  }

  // ---------- orders ----------

  /** A way to visit the sessions. */
  ghost predicate Visits(order: seq<string>, ids: set<string>) {
    NoDup(order) && forall id :: id in order <==> id in ids
  }

  function Values(ms: map<string, int>, order: seq<string>): (xs: seq<int>)
    requires forall id :: id in order ==> id in ms
    ensures |xs| == |order| && forall i :: 0 <= i < |order| ==> xs[i] == ms[order[i]]
  {
    if order == [] then [] else [ms[order[0]]] + Values(ms, order[1..])
  }

  lemma {:induction false} NoDupAppend(order: seq<string>, id: string)
    requires NoDup(order) && id !in order
    ensures NoDup(order + [id])
  {
    if order == [] {
      assert ([] + [id])[1..] == [];
    } else {
      assert (order + [id])[1..] == order[1..] + [id];
      NoDupAppend(order[1..], id);
    }
  }

  lemma VisitMore(ms: map<string, int>, order: seq<string>, ids: set<string>, id: string, t: int)
    requires Visits(order, ids) && id !in ids && ids + {id} <= ms.Keys
    ensures Visits(order + [id], ids + {id})
    ensures CollectAll(Values(ms, order + [id]), t) == Collect(CollectAll(Values(ms, order), t), ms[id])
  {
    NoDupAppend(order, id);
    assert Values(ms, order + [id]) == Values(ms, order) + [ms[id]];
    CollectLast(Values(ms, order), ms[id], t);
  }

  /** Any session may be visited last. */
  lemma SomeOrder(ids: set<string>) returns (order: seq<string>)
    ensures Visits(order, ids)
    decreases |ids|
  {
    if ids == {} {
      order := [];
    } else {
      var id :| id in ids;
      order := SomeOrder(ids - {id});
      NoDupAppend(order, id);
      order := order + [id];
    }
  }

  /** The result is 0 in every order if and only if some timeout is 0 and none is negative. */
  lemma ZeroInEveryOrder(ms: map<string, int>)
    ensures (forall order :: Visits(order, ms.Keys) ==> CollectAll(Values(ms, order), -1) == 0)
            <==> (exists id :: id in ms && ms[id] == 0) && (forall id :: id in ms ==> ms[id] >= 0)
  {
    if (exists id :: id in ms && ms[id] == 0) && (forall id :: id in ms ==> ms[id] >= 0) {
      forall order | Visits(order, ms.Keys) ensures CollectAll(Values(ms, order), -1) == 0 {
        EveryOrderSees(ms, order);
      }
    } else {
      var order := BlindOrder(ms);
    }
  }

  lemma EveryOrderSees(ms: map<string, int>, order: seq<string>)
    requires Visits(order, ms.Keys)
    requires (exists id :: id in ms && ms[id] == 0) && (forall id :: id in ms ==> ms[id] >= 0)
    ensures CollectAll(Values(ms, order), -1) == 0
  {
    var xs := Values(ms, order);
    var id :| id in ms && ms[id] == 0;
    var i :| 0 <= i < |order| && order[i] == id;
    assert xs[i] == 0 && -1 !in xs;
    CollectsZero(xs, -1);
    AfterLastFacts(xs);
  }

  /** An order in which the result is not 0. */
  lemma BlindOrder(ms: map<string, int>) returns (order: seq<string>)
    requires !((exists id :: id in ms && ms[id] == 0) && (forall id :: id in ms ==> ms[id] >= 0))
    ensures Visits(order, ms.Keys) && CollectAll(Values(ms, order), -1) != 0
  {
    if id :| id in ms && ms[id] < 0 {
      var others := SomeOrder(ms.Keys - {id});
      VisitMore(ms, others, ms.Keys - {id}, id, -1);
      assert ms.Keys - {id} + {id} == ms.Keys;
      order := others + [id];
    } else {
      order := SomeOrder(ms.Keys);
      var xs := Values(ms, order);
      CollectsZero(xs, -1);
      AfterLastFacts(xs);
    }
  }

  /** A 0 is never made up. */
  lemma ZeroIsSomebodys(ms: map<string, int>, order: seq<string>)
    requires Visits(order, ms.Keys) && CollectAll(Values(ms, order), -1) == 0
    ensures exists id :: id in ms && ms[id] == 0
  {
    var xs := Values(ms, order);
    CollectsZero(xs, -1);
    AfterLastFacts(xs);
    var i :| 0 <= i < |xs| && xs[i] == 0;
    assert ms[order[i]] == 0;
  }

  /** A timeout below -1 hides every 0, whatever the order. */
  lemma VeryNegativeHides(ms: map<string, int>, order: seq<string>)
    requires Visits(order, ms.Keys) && exists id :: id in ms && ms[id] < -1
    ensures CollectAll(Values(ms, order), -1) != 0
  {
    var xs := Values(ms, order);
    CollectsZero(xs, -1);
    var id :| id in ms && ms[id] < -1;
    var i :| 0 <= i < |order| && order[i] == id;
    assert xs[i] < -1;
  }
}
