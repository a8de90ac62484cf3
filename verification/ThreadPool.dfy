/** The thread objects and the pool that recycles them. */
module ThreadPool {
  import opened ThreadProtocol

  class PoolThread {
    var refs: int
    var reused: int
    var quits: nat

    constructor ()
      ensures refs == 1 && reused == 1 && quits == 0
    {
      refs, reused, quits := 1, 1, 0;
    }

    /** One more user of the main loop, unless the loop is already stopping. */
    method Reuse() returns (res: bool)
      modifies this
      ensures reused == old(reused) + 1 && quits == old(quits)
      ensures res <==> old(reused) > 0
      ensures refs == old(refs) + if res then 1 else 0
    {
      res := reused > 0;
      reused := reused + 1;
      if res {
        refs := refs + 1;
      }
    }

    /** One user less; the last one schedules quit, which takes over the reference. */
    method Stop()
      modifies this
      ensures reused == old(reused) - 1
      ensures if reused == 0 then quits == old(quits) + 1 && refs == old(refs)
              else quits == old(quits) && refs == old(refs) - 1
    {
      reused := reused - 1;
      if reused == 0 {
        quits := quits + 1;
      } else {
        refs := refs - 1;
      }
    }
  }

  ghost function ReuseCounters(q: seq<PoolThread>): (c: seq<int>)
    reads q
    ensures |c| == |q|
    ensures forall i :: 0 <= i < |q| ==> c[i] == q[i].reused
  {
    if q == [] then [] else [q[0].reused] + ReuseCounters(q[1..])
  }

  ghost predicate AllDistinct(q: seq<PoolThread>) {
    forall i, j :: 0 <= i < j < |q| ==> q[i] != q[j]
  }

  class ClientThreads {
    var threads: seq<PoolThread>
    var maxThreads: int

    constructor (max: int)
      ensures threads == [] && maxThreads == max
    {
      threads, maxThreads := [], max;
    }

    /** Pops queued threads while the queue is full, until one can be reused; null when
        the queue stops being full first. */
    method Recycle() returns (thread: PoolThread?)
      requires AllDistinct(threads)
      modifies this`threads, threads
      ensures var n := Skipped(old(ReuseCounters(threads)), maxThreads);
              if maxThreads > 0 && |old(threads)| - n >= maxThreads then
                && thread == old(threads)[n] && threads == old(threads)[n + 1..]
                && 1 < thread.reused == old(threads[n].reused) + 1
                && thread.refs == old(threads[n].refs) + 1
              else
                thread == null && threads == old(threads)[n..]
    {
      ghost var q, c := threads, ReuseCounters(threads);
      ghost var k := 0;
      while maxThreads > 0 && |threads| >= maxThreads
        invariant 0 <= k <= |q| && threads == q[k..]
        invariant forall i :: k <= i < |q| ==> q[i].reused == c[i] && q[i].refs == old(q[i].refs)
        invariant Skipped(c, maxThreads) == k + Skipped(c[k..], maxThreads)
        decreases |threads|
      {
        thread := threads[0];
        threads := threads[1..];
        var ok := thread.Reuse();
        if ok {
          return;
        }
        assert c[k..][1..] == c[k + 1..];
        k := k + 1;
      }
      thread := null;
    }

    /** A thread for a client: none when none are allowed, otherwise the first recycled one
        that is not stopping when the queue is full, otherwise a new one. */
    method GetThread() returns (thread: PoolThread?)
      requires AllDistinct(threads)
      modifies this`threads, threads
      ensures maxThreads == 0 ==> thread == null && threads == old(threads)
      ensures maxThreads != 0 ==>
                var n := Skipped(old(ReuseCounters(threads)), maxThreads);
                && thread != null
                && if maxThreads > 0 && |old(threads)| - n >= maxThreads then
                     && thread == old(threads)[n] && threads == old(threads)[n + 1..] + [thread]
                     && 1 < thread.reused == old(threads[n].reused) + 1
                     && thread.refs == old(threads[n].refs) + 1
                   else
                     && fresh(thread) && threads == old(threads)[n..] + [thread]
                     && thread.reused == 1 && thread.refs == 2
      ensures AllDistinct(threads)
    {
      thread := null;
      if maxThreads == 0 {
        return;
      }
      thread := Recycle();
      if thread == null {
        thread := new PoolThread();
        thread.refs := thread.refs + 1;
      }
      threads := threads + [thread];
    }

    /** The loop of a thread is over: out of the queue, and its reference is dropped. */
    method LoopExit(thread: PoolThread)
      modifies this`threads, thread`refs
      ensures thread.refs == old(thread.refs) - 1
      ensures thread !in old(threads) ==> threads == old(threads)
      ensures thread in old(threads) ==>
                exists i :: 0 <= i < |old(threads)| && old(threads)[i] == thread
                            && thread !in old(threads)[..i]
                            && threads == old(threads)[..i] + old(threads)[i + 1..]
    {
      var i := 0;
      while i < |threads| && threads[i] != thread
        modifies {}
        invariant 0 <= i <= |threads| && thread !in threads[..i]
      {
        i := i + 1;
      }
      if i < |threads| {
        threads := threads[..i] + threads[i + 1..];
      }
      thread.refs := thread.refs - 1;
    }
  }
}
