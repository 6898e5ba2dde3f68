/** Posting tasks to a ring from other threads, and waking its owner.

    The owner's code is the code of the worker loop; between any two of its steps other threads and
    the kernel take any number of theirs (`Others`). */
module RingLoop {

  /** `cross` if it was posted by another thread than the owner. */
  datatype Task = Task(id: nat, cross: bool)

  const MAX_COUNTER: nat := 0xFFFF_FFFF_FFFF_FFFE

  class IoRing {
    var posted: seq<Task>
    var counter: nat        // of the eventfd
    var pollArmed: bool     // what the owner believes
    var queuedPolls: nat    // poll requests not submitted yet
    var kernelPolls: nat    // polls the kernel has
    var wakeCqes: nat       // completions of polls not handled yet
    var posting: set<Task>  // pushed by a thread that has not called Wake yet
    var nextId: nat

    ghost var drained: bool // has the eventfd been read since the tasks were last taken?
    ghost var forgot: bool  // was there a moment of waiting with no wake-up coming for a task?
    ghost var pushed: seq<Task>
    ghost var executed: seq<Task>

    /** Tasks are run in the order they were pushed, each once: those run, then those taken and
        still to be run, then those posted. */
    ghost predicate Conserved(taken: seq<Task>)
      reads this`pushed, this`executed, this`posted
    {
      pushed == executed + taken + posted
    }

    /** Until the eventfd is read, a task from another thread leaves it readable, unless its thread
        is still to write to it; and a poll the owner believes in exists. */
    ghost predicate Signalled()
      reads this
    {
      && (pollArmed ==> kernelPolls + wakeCqes > 0)
      && (!drained ==> forall t :: t in posted && t.cross ==> t in posting || counter > 0)
    }

    ghost predicate Valid()
      reads this
    {
      Conserved([]) && Signalled()
    }

    /** A wake-up is coming for each task of another thread: its thread has yet to call `Wake`, or a
        completion is there, or the eventfd is readable and the kernel polls it. */
    ghost predicate WakeComing()
      reads this
    {
      forall t :: t in posted && t.cross ==>
        t in posting || wakeCqes > 0 || (counter > 0 && kernelPolls > 0)
    }

    constructor ()
      ensures Valid() && !drained && posted == [] && counter == 0 && !pollArmed && posting == {}
      ensures wakeCqes == 0 && queuedPolls == 0 && kernelPolls == 0 && !forgot
    {
      posted, counter, pollArmed, queuedPolls, kernelPolls, wakeCqes := [], 0, false, 0, 0, 0;
      posting, nextId, drained, forgot, pushed, executed := {}, 0, false, false, [], [];
    }

    /** The locked half of `Post`. */
    method Push(cross: bool) returns (t: Task)
      modifies this`posted, this`pushed, this`posting, this`nextId
      ensures t.cross == cross && posted == old(posted) + [t] && pushed == old(pushed) + [t]
      ensures posting == if cross then old(posting) + {t} else old(posting)
    {
      t := Task(nextId, cross);
      nextId := nextId + 1;
      posted := posted + [t];
      pushed := pushed + [t];
      if cross {
        posting := posting + {t};
      }
    }

    /** The other half: a full counter is left as it is. */
    method Wake(t: Task)
      requires t in posting
      modifies this`counter, this`posting
      ensures posting == old(posting) - {t} && counter > 0 && counter >= old(counter)
    {
      if counter < MAX_COUNTER {
        counter := counter + 1;
      }
      posting := posting - {t};
    }

    /** A step of another thread or of the kernel. */
    method OtherStep(ghost taken: seq<Task>)
      requires Conserved(taken) && Signalled()
      modifies this`posted, this`pushed, this`posting, this`nextId, this`counter
      modifies this`kernelPolls, this`wakeCqes
      ensures Conserved(taken) && Signalled()
      ensures old(posted) <= posted
    {
      var t: Task := *;
      if
      case true => var u := Push(true);
      case t in posting => Wake(t);
      case kernelPolls > 0 =>
        kernelPolls, wakeCqes := kernelPolls - 1, wakeCqes + 1;
      case true =>
    }

    method Others(ghost taken: seq<Task>)
      requires Conserved(taken) && Signalled()
      modifies this`posted, this`pushed, this`posting, this`nextId, this`counter
      modifies this`kernelPolls, this`wakeCqes
      ensures Conserved(taken) && Signalled()
      ensures old(posted) <= posted
    {
      var steps: nat := *;
      while steps > 0
        invariant Conserved(taken) && Signalled()
        invariant old(posted) <= posted
      {
        OtherStep(taken);
        steps := steps - 1;
      }
    }

    /** Tasks, handlers and ticks of the owner post without waking anybody. */
    method OwnerPosts(ghost taken: seq<Task>)
      requires Conserved(taken) && Signalled()
      modifies this`posted, this`pushed, this`posting, this`nextId, this`counter
      modifies this`kernelPolls, this`wakeCqes
      ensures Conserved(taken) && Signalled()
    {
      var n: nat := *;
      while n > 0
        invariant Conserved(taken) && Signalled()
      {
        var t := Push(false);
        Others(taken);
        n := n - 1;
      }
    }

    /** Takes what is posted and runs it. What was posted at the start has been run at the end. */
    method ProcessPostedTasks()
      requires Valid()
      modifies this
      ensures Valid() && !drained
      ensures old(executed + posted) <= executed
      ensures pollArmed == old(pollArmed) && forgot == old(forgot)
    {
      Others([]);
      var tasks := posted;
      posted := [];
      drained := false;
      assert Conserved(tasks);
      ghost var before := executed;
      var i := 0;
      while i < |tasks|
        invariant 0 <= i <= |tasks| && Conserved(tasks[i..]) && Signalled() && !drained
        invariant executed == before + tasks[..i] && pollArmed == old(pollArmed)
        invariant forgot == old(forgot)
      {
        OwnerPosts(tasks[i..]);
        assert tasks[i..] == [tasks[i]] + tasks[i + 1..];
        executed := executed + [tasks[i]];
        i := i + 1;
      }
    }

    method FlushSubmissions()
      requires Valid()
      modifies this`queuedPolls, this`kernelPolls
      ensures Valid()
    {
      if * {
        kernelPolls := kernelPolls + queuedPolls;
        queuedPolls := 0;
      }
    }

    /** Asks the kernel to poll the eventfd: `room` if there is a free request, `submits` if the
        submission succeeds. A request that was not submitted goes out with the next submission. */
    method ArmWakePoll(room: bool, submits: bool)
      requires Valid()
      modifies this`queuedPolls, this`kernelPolls, this`pollArmed
      ensures Valid() && pollArmed == (old(pollArmed) || (room && submits))
      ensures kernelPolls == old(kernelPolls)
        + if !old(pollArmed) && room && submits then old(queuedPolls) + 1 else 0
    {
      if pollArmed {
        return;
      }
      if !room {
        return;
      }
      queuedPolls := queuedPolls + 1;
      if !submits {
        return;
      }
      kernelPolls := kernelPolls + queuedPolls;
      queuedPolls := 0;
      pollArmed := true;
    }

    /** The owner is blocked. With the poll armed, a wake-up is coming for every task of another
        thread at every moment until it goes on. */
    method Wait()
      requires Valid() && !drained
      modifies this`posted, this`pushed, this`posting, this`nextId, this`counter
      modifies this`kernelPolls, this`wakeCqes, this`forgot
      ensures Valid()
      ensures pollArmed ==> WakeComing() && forgot == old(forgot)
    {
      var moments: nat := *;
      Look();
      while moments > 0
        invariant Valid()
        invariant pollArmed ==> WakeComing() && forgot == old(forgot)
      {
        OtherStep([]);
        Look();
        moments := moments - 1;
      }
    }

    /** Notes a moment of waiting in which a task has been forgotten. */
    ghost method Look()
      modifies this`forgot
      ensures forgot == (old(forgot) || !WakeComing())
    {
      forgot := forgot || !WakeComing();
    }

    /** Reads the eventfd until it is empty. */
    method DrainWakeFd()
      requires Valid()
      modifies this`drained, this`posted, this`pushed, this`posting, this`nextId, this`counter
      modifies this`kernelPolls, this`wakeCqes
      ensures Valid() && drained && counter == 0
    {
      drained := true;
      var rounds: nat := *;
      while rounds > 0
        invariant Valid() && drained
      {
        counter := 0;
        Others([]);
        rounds := rounds - 1;
      }
      counter := 0;
    }

    /** Handles up to `n` completions: wake completions and others, whose handlers may post. */
    method HandleCqes(n: nat)
      requires Valid()
      modifies this
      ensures Valid() && executed == old(executed) && forgot == old(forgot)
    {
      for i := 0 to n
        invariant Valid() && executed == old(executed) && forgot == old(forgot)
      {
        var wake: bool := *;
        if wake && wakeCqes > 0 {
          wakeCqes := wakeCqes - 1;
          pollArmed := false;
          if * {
            DrainWakeFd();
          }
        } else {
          OwnerPosts([]);
        }
      }
    }

    /** If the poll was armed, or the kernel accepts one, no task is forgotten while the owner waits. */
    method Dispatch(room: bool, submits: bool)
      requires Valid() && !drained
      modifies this
      ensures Valid() && executed == old(executed)
      ensures old(pollArmed) || (room && submits) ==> forgot == old(forgot)
      ensures room && submits ==> pollArmed
    {
      FlushSubmissions();
      if !pollArmed {
        ArmWakePoll(room, submits);
      }
      Wait();
      var timedOut: bool, n: nat := *, *;
      if timedOut {
        return;
      }
      HandleCqes(n);
      if !pollArmed {
        ArmWakePoll(room, submits);
      }
    }

    /** The worker's loop. Tasks run in order and once; if the kernel is `willing` to poll, there is
        no moment in which the owner waits and a task of another thread has no wake-up coming. */
    method Run(rounds: nat, willing: bool)
      requires Valid()
      modifies this
      ensures Valid() && old(executed) <= executed && (rounds > 0 ==> old(executed + posted) <= executed)
      ensures willing ==> forgot == old(forgot)
    {
      for i := 0 to rounds
        invariant Valid() && old(executed) <= executed
        invariant if i == 0 then executed == old(executed) && posted == old(posted)
                  else old(executed + posted) <= executed
        invariant willing ==> forgot == old(forgot)
      {
        var room: bool, submits: bool := *, *;
        Round(willing || room, willing || submits);
      }
    }

    /** One round: what was posted before it has run at its end, and what is posted before the wait
        ends has run before the next wait. */
    method Round(room: bool, submits: bool)
      requires Valid()
      modifies this
      ensures Valid() && old(executed + posted) <= executed
      ensures room && submits ==> forgot == old(forgot)
    {
      ProcessPostedTasks();
      Dispatch(room, submits);
      ProcessPostedTasks();
      OwnerPosts([]);
    }
  }

  /** What the guarantee leaves out: a task the owner posts to itself before it waits wakes nobody,
      and runs only when something else ends the wait. The owner may wait in this state, with the
      poll armed. */
  method SelfPostWaits() returns (ring: IoRing, t: Task)
    ensures ring.Valid() && !ring.drained && ring.pollArmed && ring.WakeComing()
    ensures ring.posted == [t] && !t.cross
    ensures ring.counter == 0 && ring.wakeCqes == 0 && ring.posting == {}
  {
    ring := new IoRing();
    t := ring.Push(false);
    ring.ArmWakePoll(true, true);
  }

  /** Without a poll the guarantee fails: a task whose thread has called `Wake` waits with the owner,
      and nothing will tell it. */
  method ForgottenWithoutPoll() returns (ring: IoRing, t: Task)
    ensures ring.Valid() && !ring.drained && !ring.pollArmed && !ring.WakeComing()
    ensures ring.posted == [t] && t.cross && t !in ring.posting
  {
    ring := new IoRing();
    t := ring.Push(true);
    ring.Wake(t);
    ring.ArmWakePoll(false, true);
    assert t in ring.posted;
  }
}
