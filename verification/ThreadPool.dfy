/** The thread pool object. Each method is one critical section or one call outside the lock. */
module ThreadPool {
  import opened Wrappers
  import M = PoolMachine
  import PoolProgress

  /** Some sleeper, whichever the condition variable picks, if there is one. */
  method PickSleeper(threads: seq<M.Worker>) returns (wake: Option<nat>)
    ensures M.CanWake(threads, wake)
  {
    wake := None;
    if M.Asleep in threads {
      var w :| 0 <= w < |threads| && threads[w] == M.Asleep;
      wake := Some(w);
    }
  }

  method WakeSleepers(threads: seq<M.Worker>) returns (woken: seq<M.Worker>)
    ensures woken == M.WakeAll(threads)
  {
    M.WakeAllKeeps(threads);
    woken := threads;
    for i := 0 to |threads|
      invariant |woken| == |threads|
      invariant forall k :: 0 <= k < |threads| ==> woken[k] == if k < i then M.WakeAll(threads)[k] else threads[k]
    {
      if woken[i].Asleep? {
        woken := woken[i := M.Woken];
      }
    }
  }

  class ThreadPool {
    var threads: seq<M.Worker>
    var taskQueue: seq<M.Task>
    var stop: bool
    ghost var initial: M.Pool
    ghost var trace: seq<M.Action>

    /** The protocol state that the object's steps have led to, with its history. */
    ghost function View(): M.Pool
      requires M.IsRun(initial, trace)
      reads this
    {
      M.After(initial, trace)
    }

    /** The fields are where a run of the protocol leads, so what holds after every run holds of them. */
    ghost predicate Valid()
      reads this
    {
      && M.IsRun(initial, trace)
      && View().workers == threads && View().queue == taskQueue && View().stop == stop
    }

    /** A non-positive count starts no worker. */
    constructor (numThread: int)
      ensures Valid() && trace == []
      ensures View() == M.Init(if numThread > 0 then numThread else 0)
    {
      threads, taskQueue, stop := [], [], false;
      initial, trace := M.Init(0), [];
      new;
      var i := 0;
      while i < numThread
        invariant 0 <= i && (i <= numThread || i == 0)
        invariant threads == M.Init(i).workers && taskQueue == [] && !stop && trace == []
      {
        threads := threads + [M.Ready];
        i := i + 1;
      }
      initial := M.Init(i);
    }

    /** Record in the trace a step that the fields are about to take. */
    ghost method Take(a: M.Action)
      requires M.IsRun(initial, trace) && M.Enabled(View(), a)
      modifies this`trace
      ensures trace == old(trace) + [a] && M.IsRun(initial, trace) && View() == M.Apply(old(View()), a)
    {
      M.RunSnoc(initial, trace, a);
      trace := trace + [a];
    }

    /** The locked part of Add: refuse, or enqueue. The notification comes later, in NotifyOne. */
    method Add(task: M.Task) returns (ok: bool)
      requires Valid() && M.Enabled(View(), M.Add(task))
      modifies this
      ensures ok == !old(stop)
      ensures Valid() && trace == old(trace) + [M.Add(task)] && initial == old(initial)
      ensures taskQueue == if ok then old(taskQueue) + [task] else old(taskQueue)
      ensures View().accepted == if ok then old(View().accepted) + [task] else old(View().accepted)
      ensures View().rejected == if ok then old(View().rejected) else old(View().rejected) + [task]
      ensures threads == old(threads) && stop == old(stop)
    {
      Take(M.Add(task));
      ok := !stop;
      if ok {
        taskQueue := taskQueue + [task];
      }
    }

    /** notify_one after the lock is released: some sleeper, if there is one, leaves the wait set. */
    method NotifyOne() returns (wake: Option<nat>)
      requires Valid() && View().pending > 0 && !View().joined
      modifies this
      ensures Valid() && trace == old(trace) + [M.Notify(wake)] && initial == old(initial)
      ensures if wake.Some? then wake.value < |old(threads)| && old(threads)[wake.value] == M.Asleep
              else M.Asleep !in old(threads)
      ensures threads == if wake.Some? then old(threads)[wake.value := M.Woken] else old(threads)
      ensures taskQueue == old(taskQueue) && stop == old(stop)
    {
      wake := PickSleeper(threads);
      Take(M.Notify(wake));
      if wake.Some? {
        threads := threads[wake.value := M.Woken];
      }
    }

    /** One pass of a worker through the lock: wait, leave for good, or take the oldest task. */
    method WorkerCheck(w: nat)
      requires Valid() && M.Enabled(View(), M.Check(w))
      modifies this
      ensures Valid() && trace == old(trace) + [M.Check(w)] && initial == old(initial)
      ensures stop == old(stop)
      ensures old(taskQueue) != [] ==>
                taskQueue == old(taskQueue)[1..] && threads == old(threads)[w := M.Running(old(taskQueue)[0])]
      ensures old(taskQueue) == [] ==>
                taskQueue == [] && threads == old(threads)[w := if stop then M.Exited else M.Asleep]
    {
      Take(M.Check(w));
      if !(stop || taskQueue != []) {
        threads := threads[w := M.Asleep];
        return;
      }
      if stop && taskQueue == [] {
        threads := threads[w := M.Exited];
        return;
      }
      var task := taskQueue[0];
      taskQueue := taskQueue[1..];
      threads := threads[w := M.Running(task)];
    }

    /** The call that the worker was running returns. */
    method WorkerFinish(w: nat)
      requires Valid() && M.Enabled(View(), M.Finish(w))
      modifies this
      ensures Valid() && trace == old(trace) + [M.Finish(w)] && initial == old(initial)
      ensures threads == old(threads)[w := M.Ready] && taskQueue == old(taskQueue) && stop == old(stop)
    {
      Take(M.Finish(w));
      threads := threads[w := M.Ready];
    }

    method SpuriousWakeup(w: nat)
      requires Valid() && M.Enabled(View(), M.Spurious(w))
      modifies this
      ensures Valid() && trace == old(trace) + [M.Spurious(w)] && initial == old(initial)
      ensures threads == old(threads)[w := M.Woken] && taskQueue == old(taskQueue) && stop == old(stop)
    {
      Take(M.Spurious(w));
      threads := threads[w := M.Woken];
    }

    /** The destructor's critical section. */
    method RequestStop()
      requires Valid() && M.Enabled(View(), M.Stop)
      modifies this
      ensures Valid() && trace == old(trace) + [M.Stop] && initial == old(initial)
      ensures stop && threads == old(threads) && taskQueue == old(taskQueue)
    {
      Take(M.Stop);
      stop := true;
    }

    /** The destructor's notify_all. */
    method NotifyAll()
      requires Valid() && M.Enabled(View(), M.NotifyAll)
      modifies this
      ensures Valid() && trace == old(trace) + [M.NotifyAll] && initial == old(initial)
      ensures |threads| == |old(threads)| && taskQueue == old(taskQueue) && stop == old(stop)
      ensures forall w :: 0 <= w < |threads| ==>
                threads[w] == if old(threads)[w].Asleep? then M.Woken else old(threads)[w]
    {
      M.WakeAllKeeps(threads);
      Take(M.NotifyAll);
      threads := WakeSleepers(threads);
    }

    /** The destructor's joins return once every worker has exited. */
    method Join()
      requires Valid() && M.Enabled(View(), M.Join)
      modifies this
      ensures Valid() && trace == old(trace) + [M.Join] && initial == old(initial)
      ensures forall w :: 0 <= w < |threads| ==> threads[w].Exited?
      ensures threads == old(threads) && taskQueue == old(taskQueue)
    {
      Take(M.Join);
    }
  }

  /** The drain theorem, on the object: once the destructor of a staffed pool has returned, all accepted work is done. */
  lemma JoinedPoolIsDrained(pool: ThreadPool, size: nat)
    requires pool.Valid() && pool.initial == M.Init(size) && size > 0 && pool.View().joined
    ensures pool.taskQueue == [] && pool.View().started == pool.View().accepted
    ensures multiset(pool.View().finished) == multiset(pool.View().accepted)
  {
    M.InitInv(size);
    M.RunInv(pool.initial, pool.trace);
    PoolProgress.RunSize(pool.initial, pool.trace);
    PoolProgress.DrainedIffStaffed(pool.View());
  }
}
