/** A serialized job queue and its entries in the global queue.

    Threads take the atomic steps of `JobQueue::Push` and `JobQueue::Execute` in any order; the
    fields `adding`, `registering` and `executing` say where each thread is. The global queue is
    seen from this job queue: `entries` counts how often it holds it, and which of the queues in
    front `TryPop` returns is the environment's choice. */
module JobQueues {
  import opened Bytes

  type Thread = nat
  type Job = nat

  /** Where a thread is inside `Execute`. */
  datatype Stage =
    | Top                                 // about to take the jobs
    | Running(batch: seq<Job>, done: nat) // has run the first `done` jobs of its batch
    | Ran(done: nat)                      // has returned the rest, not yet lowered the counter
    | Deciding                            // jobs remain: go on, or hand the queue back

  /** A thread that raised the counter and has not appended yet; `first` if it raised it from 0. */
  datatype Adding = Adding(job: Job, first: bool)

  /** The right to run the queue's jobs: who has it, if anybody. */
  datatype Token = Nobody | Adder(t: Thread) | Registrar(t: Thread) | Registered | Executor(t: Thread)

  /** Jobs an executor has taken and the counter still counts. */
  function Held(s: Stage): nat {
    match s
    case Running(batch, _) => |batch|
    case Ran(done) => done
    case _ => 0
  }

  /** Jobs an executor has taken and not run. */
  function Rest(s: Stage): seq<Job> {
    if s.Running? && s.done <= |s.batch| then s.batch[s.done..] else []
  }

  /** Running the next job of a batch moves it from what is left to what has been run. */
  lemma RanOne(executed: seq<Job>, batch: seq<Job>, done: nat, jobs: seq<Job>)
    requires done < |batch|
    ensures executed + batch[done..] + jobs == executed + [batch[done]] + batch[done + 1..] + jobs
  {
    assert batch[done..] == [batch[done]] + batch[done + 1..];
  }

  lemma RanPrefix(executed: seq<Job>, batch: seq<Job>, done: nat)
    requires done < |batch|
    ensures executed + batch[..done] + [batch[done]] == executed + batch[..done + 1]
  {
    assert batch[..done + 1] == batch[..done] + [batch[done]];
  }

  class JobQueue {
    var count: int
    var jobs: seq<Job>
    var entries: nat
    var adding: map<Thread, Adding>
    var registering: set<Thread>
    var executing: map<Thread, Stage>

    ghost var token: Token
    ghost var appended: seq<Job>
    ghost var executed: seq<Job>

    /** The counter is positive exactly when somebody holds the token, only the holder is where
        the token says, the counter counts every job not yet subtracted, and the jobs run so far
        are the first ones appended. */
    ghost predicate Valid()
      reads this
    {
      && (count > 0 <==> token != Nobody)
      && (forall t :: t in adding ==> (adding[t].first <==> token == Adder(t)))
      && (token.Adder? ==> token.t in adding)
      && registering == (if token.Registrar? then {token.t} else {})
      && entries == (if token == Registered then 1 else 0)
      && executing.Keys == (if token.Executor? then {token.t} else {})
      && (token.Executor? && executing[token.t].Running? ==>
            executing[token.t].done <= |executing[token.t].batch|)
      && count == |jobs| + |adding| + (if token.Executor? then Held(executing[token.t]) else 0)
      && appended == executed + (if token.Executor? then Rest(executing[token.t]) else []) + jobs
    }

    constructor ()
      ensures Valid() && count == 0 && jobs == [] && appended == executed == []
    {
      count, jobs, entries := 0, [], 0;
      adding, registering, executing := map[], {}, map[];
      token, appended, executed := Nobody, [], [];
    }

    // ---------------------------------------------------------------- Push

    method Raise(t: Thread, job: Job)
      requires Valid() && t !in adding
      modifies this`count, this`adding, this`token
      ensures Valid() && count == old(count) + 1
      ensures adding == old(adding)[t := Adding(job, old(count) == 0)]
    {
      var prev := count;
      count := count + 1;
      adding := adding[t := Adding(job, prev == 0)];
      if prev == 0 {
        token := Adder(t);
      }
    }

    method Append(t: Thread)
      requires Valid() && t in adding
      modifies this`jobs, this`adding, this`registering, this`token, this`appended
      ensures Valid() && adding == old(adding) - {t}
      ensures jobs == old(jobs) + [old(adding)[t].job] && appended == old(appended) + [old(adding)[t].job]
      ensures old(adding)[t].first ==> t in registering
    {
      var a := adding[t];
      PushBack(t, a.job);
      if a.first {
        registering := registering + {t};
        token := Registrar(t);
      }
    }

    /** The locked part of `Push`; the token still says that `t` is adding. */
    method PushBack(t: Thread, job: Job)
      requires t in adding && adding[t].job == job
      modifies this`jobs, this`adding, this`appended
      ensures jobs == old(jobs) + [job] && appended == old(appended) + [job]
      ensures adding == old(adding) - {t} && |adding| == |old(adding)| - 1
      ensures forall x, y :: old(appended) == x + y + old(jobs) ==> appended == x + y + jobs
    {
      jobs := jobs + [job];
      appended := appended + [job];
      MapRemove(adding, t);
      adding := adding - {t};
    }

    method Register(t: Thread)
      requires Valid() && t in registering
      modifies this`registering, this`entries, this`token
      ensures Valid() && entries == old(entries) + 1 && t !in registering
    {
      registering := registering - {t};
      entries := entries + 1;
      token := Registered;
    }

    // ---------------------------------------------------------------- Execute

    /** The global queue returned this queue to thread `t`. */
    method Enter(t: Thread)
      requires Valid() && entries > 0
      modifies this`executing, this`entries, this`token
      ensures Valid() && executing == map[t := Top] && entries == old(entries) - 1
    {
      entries := entries - 1;
      executing := executing[t := Top];
      token := Executor(t);
    }

    method Take(t: Thread)
      requires Valid() && t in executing && executing[t] == Top
      modifies this`jobs, this`executing
      ensures Valid() && jobs == [] && executing == map[t := Running(old(jobs), 0)]
    {
      executing := executing[t := Running(jobs, 0)];
      jobs := [];
    }

    method RunJob(t: Thread)
      requires Valid() && t in executing && executing[t].Running? && executing[t].done < |executing[t].batch|
      modifies this`executing, this`executed
      ensures Valid()
      ensures var e := old(executing)[t];
              && executed == old(executed) + [e.batch[e.done]]
              && executing == map[t := Running(e.batch, e.done + 1)]
    {
      var e := executing[t];
      RanOne(executed, e.batch, e.done, jobs);
      executed := executed + [e.batch[e.done]];
      executing := executing[t := e.(done := e.done + 1)];
    }

    /** The jobs not run go back to the front, before anything appended meanwhile. */
    method GiveBack(t: Thread)
      requires Valid() && t in executing && executing[t].Running?
      modifies this`jobs, this`executing
      ensures Valid() && executing == map[t := Ran(old(executing)[t].done)]
      ensures jobs == Rest(old(executing)[t]) + old(jobs)
    {
      var e := executing[t];
      if e.done < |e.batch| {
        jobs := e.batch[e.done..] + jobs;
      }
      executing := executing[t := Ran(e.done)];
    }

    method Lower(t: Thread) returns (remaining: int)
      requires Valid() && t in executing && executing[t].Ran?
      modifies this`count, this`executing, this`token
      ensures Valid() && count == remaining == old(count) - old(executing)[t].done >= 0
      ensures executing == if remaining == 0 then map[] else map[t := Deciding]
    {
      remaining := count - executing[t].done;
      count := remaining;
      if remaining <= 0 {
        executing := executing - {t};
        token := Nobody;
      } else {
        executing := executing[t := Deciding];
      }
    }

    method HandBack(t: Thread)
      requires Valid() && t in executing && executing[t] == Deciding
      modifies this`executing, this`entries, this`token
      ensures Valid() && executing == map[] && entries == 1
    {
      entries := entries + 1;
      executing := executing - {t};
      token := Registered;
    }

    method GoOn(t: Thread)
      requires Valid() && t in executing && executing[t] == Deciding
      modifies this`executing
      ensures Valid() && executing == map[t := Top]
    {
      executing := executing[t := Top];
    }

    // ---------------------------------------------------------------- every interleaving

    /** A step of any thread inside `Push`. */
    method PusherStep()
      requires Valid()
      modifies this
      ensures Valid() && executing == old(executing) && executed == old(executed)
      ensures old(jobs) <= jobs && old(appended) <= appended
    {
      var t: Thread := *;
      if t in registering {
        Register(t);
      } else if t in adding {
        Append(t);
      } else {
        var job: Job := *;
        Raise(t, job);
      }
    }

    /** A step of thread `t` on the executing side: taking the queue from the global queue, or
        the next step of its `Execute`, where a batch stops early only after a job ran. */
    method ExecutorStep(t: Thread)
      requires Valid()
      modifies this
      ensures Valid() && appended == old(appended) && old(executed) <= executed
      ensures t !in old(executing) && old(executing) != map[] ==> unchanged(this)
      ensures executing.Keys <= old(executing).Keys + {t}
    {
      var deadline: bool := *;
      if t !in executing {
        if entries > 0 {
          Enter(t);
        }
        return;
      }
      match executing[t]
      case Top => Take(t);
      case Running(batch, done) =>
        if done < |batch| && (done == 0 || !deadline) {
          RunJob(t);
        } else {
          GiveBack(t);
        }
      case Ran(_) =>
        var _ := Lower(t);
      case Deciding =>
        if deadline {
          HandBack(t);
        } else {
          GoOn(t);
        }
    }

    /** What the other threads may do while `me` executes: append, and nothing else. */
    twostate predicate OthersOnly(me: Thread)
      reads this
    {
      && old(appended) <= appended && old(executed) <= executed
      && (me in old(executing) ==> executing == old(executing) && executed == old(executed) && old(jobs) <= jobs)
      && (me !in old(executing) ==> me !in executing)
    }

    /** Any number of steps of any threads, except that `me` does not move inside `Execute`. */
    method OtherThreads(me: Thread)
      requires Valid()
      modifies this
      ensures Valid() && OthersOnly(me)
    {
      var steps: nat := *;
      while steps > 0
        invariant Valid() && OthersOnly(me)
        decreases steps
      {
        steps := steps - 1;
        var t: Thread := *;
        var pushes: bool := *;
        if pushes {
          PusherStep();
        } else if t != me {
          ExecutorStep(t);
        }
      }
    }

    /** One round of the loop of `Execute`, with the other threads running at every point. If jobs
        were there to take, at least one runs, and all of them unless the deadline may pass (`late`). */
    method ExecuteRound(me: Thread, late: bool) returns (again: bool)
      requires Valid() && me in executing && executing[me] == Top
      modifies this
      ensures Valid() && old(appended) <= appended && old(executed) <= executed
      ensures old(jobs) != [] ==> |executed| > |old(executed)|
      ensures !late ==> old(executed) + old(jobs) <= executed
      ensures if again then me in executing && executing[me] == Top else me !in executing
    {
      TakeAndRun(me, late);
      OtherThreads(me);
      GiveBack(me);
      again := Settle(me, late);
    }

    method TakeAndRun(me: Thread, late: bool)
      requires Valid() && me in executing && executing[me] == Top
      modifies this
      ensures Valid() && old(appended) <= appended && old(executed) <= executed
      ensures old(jobs) != [] ==> |executed| > |old(executed)|
      ensures !late ==> old(executed) + old(jobs) <= executed
      ensures me in executing && executing[me].Running?
    {
      OtherThreads(me);
      Take(me);
      RunBatch(me, late);
    }

    /** The end of a round: lower the counter, then leave, hand the queue back, or go on. */
    method Settle(me: Thread, late: bool) returns (again: bool)
      requires Valid() && me in executing && executing[me].Ran?
      modifies this
      ensures Valid() && old(appended) <= appended && executed == old(executed)
      ensures if again then me in executing && executing[me] == Top else me !in executing
    {
      OtherThreads(me);
      var remaining := Lower(me);
      if remaining <= 0 {
        return false;
      }
      OtherThreads(me);
      var deadline: bool := *;
      if deadline && late {
        HandBack(me);
        return false;
      }
      GoOn(me);
      return true;
    }

    method RunBatch(me: Thread, late: bool)
      requires Valid() && me in executing && executing[me].Running? && executing[me].done == 0
      modifies this
      ensures Valid() && old(appended) <= appended
      ensures me in executing && executing[me].Running? && executing[me].batch == old(executing)[me].batch
      ensures executed == old(executed) + executing[me].batch[..executing[me].done]
      ensures old(executing)[me].batch != [] ==> executing[me].done > 0
      ensures !late ==> executed == old(executed) + executing[me].batch
    {
      ghost var batch := executing[me].batch;
      while executing[me].done < |executing[me].batch|
        invariant Valid() && old(appended) <= appended
        invariant me in executing && executing[me].Running? && executing[me].batch == batch
        invariant executed == old(executed) + batch[..executing[me].done]
        decreases |batch| - executing[me].done
      {
        RanPrefix(old(executed), batch, executing[me].done);
        RunJob(me);
        OtherThreads(me);
        var deadline: bool := *;
        if deadline && late {
          break;
        }
      }
      assert batch[..|batch|] == batch;
    }

    /** Over every run: one executor at most, a queue with jobs is never forgotten, and the jobs
        run are the first jobs appended, each once and in order. */
    method Run(steps: nat)
      requires Valid()
      modifies this
      ensures Valid() && old(executed) <= executed <= appended
      ensures forall t, u :: t in executing && u in executing ==> t == u
      ensures executing != map[] ==> entries == 0 && registering == {}
      ensures jobs != [] ==>
                || (exists t :: t in adding && adding[t].first) || registering != {}
                || entries == 1 || executing != map[]
      ensures count == 0 ==> jobs == [] && adding == map[] && entries == 0 && executed == appended
    {
      for i := 0 to steps
        invariant Valid() && old(executed) <= executed
      {
        var pushes: bool := *;
        var t: Thread := *;
        if pushes {
          PusherStep();
        } else {
          ExecutorStep(t);
        }
      }
      TokenHolder();
    }

    lemma TokenHolder()
      requires Valid()
      ensures jobs != [] ==>
                || (exists t :: t in adding && adding[t].first) || registering != {}
                || entries == 1 || executing != map[]
      ensures executed <= appended
    {
      if token.Adder? {
        assert adding[token.t].first;
      } else if token.Executor? {
        assert token.t in executing;
      }
    }
  }

  lemma MapRemove<K, V>(m: map<K, V>, k: K)
    requires k in m
    ensures |m - {k}| == |m| - 1
  {
    assert m.Keys == (m - {k}).Keys + {k};
  }
}
