/**
  The worker as an object. Its methods are the source's, cut at the operations on locks, atomics and condition
  variables; what the other threads do in between is the `schedule`, so that every interleaving is some schedule.
  Each method leaves the object exactly where the turns it has taken lead in the protocol, and it ends with the turn
  that finishes the operation, or when the schedule ends before.
 */
module AsyncWorkers {
  import opened WorkerProtocol
  import opened WorkerSafety
  import opened WorkerTheorems
  import opened WorkerSchedules
  import opened WorkerAlone

  // ----- the parts of a course

  /** An operation begins in a reachable state. */
  lemma Begins(before: State, step: Step)
    requires Reachable(EVERY_JOB, before) && Enabled(before, step)
    ensures Reachable(EVERY_JOB, Next(EVERY_JOB, before, step))
  {
    ContinuesStep(EVERY_JOB, before, step);
    ReachableContinues(EVERY_JOB, before, Next(EVERY_JOB, before, step));
  }

  /** Where an operation that began with `step` has come to, its first step counted in. */
  lemma Settles(before: State, step: Step, course: Course, n: nat)
    requires Reachable(EVERY_JOB, before) && Enabled(before, step) && course.start == Next(EVERY_JOB, before, step)
    requires n <= |course.schedule|
    ensures Reachable(EVERY_JOB, course.Upto(n)) && Continues(EVERY_JOB, before, course.Upto(n))
  {
    Begins(before, step);
    ContinuesStep(EVERY_JOB, before, step);
    CourseReaches(course, n);
    ContinuesJoin(EVERY_JOB, before, course.start, course.Upto(n));
  }

  /** What the other threads may have changed while this one waited: nothing that it relies on. */
  ghost predicate Undisturbed(me: Thread, s: State, t: State) {
    && SamePoint(me, s, t) && (HoldsQueue(me, s) ==> t.calls == s.calls)
    && (!s.active ==> !t.active) && Extends(s.past, t.past)
  }

  lemma UndisturbedTwice(me: Thread, s: State, t: State, u: State)
    requires Undisturbed(me, s, t) && Undisturbed(me, t, u)
    ensures Undisturbed(me, s, u)
  {
  }

  /** The first turn is ours, and we can move. */
  predicate Prompt(me: Thread, s: State, schedule: seq<Turn>) {
    schedule != [] && schedule[0].Ours? && Enabled(s, MoveOf(me, s))
  }

  lemma Grant(course: Course, rest: seq<Turn>, s: State)
    requires course.Leaves(rest) && s == course.Upto(course.Taken(rest)) && Prompt(course.me, s, rest)
    ensures course.Granted(rest[1..]) && s == course.Upto(course.Taken(rest[1..]) - 1)
    ensures Undisturbed(course.me, s, s)
  {
    NextTurn(course, rest);
  }

  // ----- what the theorems say of a finished call

  /** The job of a raised flag was accepted after `start`, so its whole run lies after `start`. */
  lemma FlaggedHasRun(start: State, now: State, job: Job)
    requires Reachable(EVERY_JOB, start) && Reachable(EVERY_JOB, now)
    requires job in now.past.accepted && job.uid in now.past.flagged && |start.past.accepted| <= job.uid
    ensures job in now.past.executed && Serial(now.past.log)
    ensures forall e :: e in RunOf(job) ==> e in now.past.log && e !in start.past.log
  {
    RunsAreSerial(EVERY_JOB, now);
    FlaggedIsLogged(now, job);
    forall e | e in RunOf(job) ensures e !in start.past.log {
      NotYetLogged(start, e);
    }
  }

  lemma FlaggedIsLogged(now: State, job: Job)
    requires Reachable(EVERY_JOB, now) && job in now.past.accepted && job.uid in now.past.flagged
    ensures job in now.past.executed && forall e :: e in RunOf(job) ==> e in now.past.log
  {
    ReachableInv(EVERY_JOB, now);
    FlaggedIsExecuted(now, job);
    RunsLogged(now, job);
  }

  /** Nothing is logged for a job that has not been accepted. */
  lemma NotYetLogged(s: State, e: Event)
    requires Reachable(EVERY_JOB, s) && |s.past.accepted| <= e.uid
    ensures e !in s.past.log
  {
    ReachableInv(EVERY_JOB, s);
    RunsAreSerial(EVERY_JOB, s);
    if e in s.past.log {
      var job :| RunBy(job, s.past.executed + InHand(s.worker), e);
      LaterIsAccepted(s, job);
    }
  }

  lemma FlaggedIsExecuted(s: State, job: Job)
    requires ConservationInv(s) && FlagInv(s) && job in s.past.accepted && job.uid in s.past.flagged
    ensures job in s.past.executed
  {
    var other :| other in s.past.executed && other.call.blocking && other.uid == job.uid;
    LaterIsAccepted(s, other);
  }

  lemma ExecutedIsLogged(course: Course, n: nat, s: State, job: Job)
    requires Reachable(EVERY_JOB, course.start) && n <= |course.schedule| && s == course.Upto(n)
    requires job in s.past.executed
    ensures forall e :: e in RunOf(job) ==> e in s.past.log
  {
    CourseReaches(course, n);
    ReachableInv(EVERY_JOB, s);
    RunsLogged(s, job);
  }

  lemma StoppedIsDrained(start: State, now: State)
    requires Reachable(EVERY_JOB, now) && Continues(EVERY_JOB, start, now)
    requires now.stopper.Stopped? && |start.past.accepted| <= now.past.stopMark
    ensures !now.active && now.worker.Exited?
    ensures forall uid: nat :: uid < |start.past.accepted| ==>
      uid in now.past.cancelled || start.past.accepted[uid] in now.past.executed
  {
    ReachableInv(EVERY_JOB, now);
    ContinuesGrows(EVERY_JOB, start, now);
    forall uid: nat | uid < |start.past.accepted|
      ensures uid in now.past.cancelled || start.past.accepted[uid] in now.past.executed
    {
      DrainingStop(EVERY_JOB, now, uid);
    }
  }

  /** `remove_if`: what the predicate does not ask for, in the order it was found. */
  method RemoveIf(remove: Removal, name: string, jobs: seq<Job>) returns (kept: seq<Job>)
    ensures kept == Kept(remove, name, jobs)
  {
    kept := [];
    var n := 0;
    while n < |jobs|
      invariant n <= |jobs|
      invariant kept + Kept(remove, name, jobs[n..]) == Kept(remove, name, jobs)
    {
      KeptNext(remove, name, jobs, n, kept);
      if !remove(name, jobs[n]) {
        kept := kept + [jobs[n]];
      }
      n := n + 1;
    }
  }

  lemma KeptNext(remove: Removal, name: string, jobs: seq<Job>, n: nat, kept: seq<Job>)
    requires n < |jobs|
    ensures kept + Kept(remove, name, jobs[n..])
         == (if remove(name, jobs[n]) then kept else kept + [jobs[n]]) + Kept(remove, name, jobs[n + 1..])
  {
    assert jobs[n..][1..] == jobs[n + 1..];
  }

  /** The action and the callback are still to be run, or being run, or over. */
  predicate Performing(phase: Phase) {
    phase.Marked? || phase.InAction? || phase.AfterAction? || phase.InDone? || phase.AfterDone?
  }

  /** A worker with the locks free runs what it finds in its queue. */
  lemma RunsTheQueue(course: Course, rest: seq<Turn>, exited: bool)
    requires course.me.WorkerThread? && course.start.worker.AtLoop? && EndsWith(course, rest, exited)
    ensures CanRunAll(course.start, course.schedule) ==>
      course.start.past.executed + course.start.calls <= course.Upto(course.Taken(rest)).past.executed
  {
    var s, n, end := course.start, RunTurns(course.start.calls), course.Taken(rest);
    if CanRunAll(s, course.schedule) {
      RunAlone(s, course.schedule);
      if end < n {
        FinishedLater(course, end, n);
      } else {
        CourseContinues(course, n, end);
        ContinuesGrows(EVERY_JOB, course.Upto(n), course.Upto(end));
      }
    }
  }

  /** With the locks free a cancel returns by its own turns. */
  lemma CancelReturns(before: State, course: Course, rest: seq<Turn>, returned: bool, i: nat, name: string)
    requires Inv(before) && i < |before.clients| && before.clients[i].Idle? && EndsWith(course, rest, returned)
    requires course == Course(ClientThread(i), Next(EVERY_JOB, before, BeginCancel(i, name)), course.schedule)
    requires before.queueOwner.Nobody? && before.execOwner.Nobody? && Alone(course.schedule, CancelTurns(before, name))
    ensures returned && rest == course.schedule[CancelTurns(before, name)..]
    ensures course.Upto(course.Taken(rest)) == Cancelled(before, name)
  {
    CancelAlone(before, i, name, course.schedule);
    ReturnsThere(course, rest, returned, CancelTurns(before, name));
  }

  predicate Submitting(c: ClientPc) { c.WantPush? || c.Pushed? || c.Notified? }

  class AsyncWorker {
    var calls: seq<Job>
    var outstandingJobs: nat
    var active: bool
    var executing: bool
    var queueLock: Owner
    var executingLock: Owner
    var worker: WorkerPc
    var clients: seq<ClientPc>
    var stopper: StopPc
    var past: History

    function At(): State
      reads this
    {
      State(calls, outstandingJobs, active, executing, queueLock, executingLock, worker, clients, stopper, past)
    }

    ghost predicate Valid()
      reads this
    {
      Reachable(EVERY_JOB, At())
    }

    /** The object is where the turns taken so far lead. */
    ghost predicate Stands(course: Course, rest: seq<Turn>)
      reads this
    {
      Reachable(EVERY_JOB, course.start) && course.Leaves(rest) && At() == course.Upto(course.Taken(rest))
    }

    /** The last turn taken is our own, and its move has still to be made. */
    ghost predicate Due(course: Course, rest: seq<Turn>)
      reads this
    {
      Reachable(EVERY_JOB, course.start) && course.Granted(rest) && At() == course.Upto(course.Taken(rest) - 1)
    }

    /** What waiting for a turn comes to: the turn, or the end of the schedule. */
    ghost predicate Waited(course: Course, rest: seq<Turn>, ours: bool)
      reads this
    {
      if ours then Due(course, rest) else rest == [] && Stands(course, rest)
    }

    constructor (threads: nat)
      ensures At() == Init(threads) && Valid()
    {
      calls, outstandingJobs, active, executing := [], 0, true, false;
      queueLock, executingLock := Nobody, Nobody;
      worker, clients, stopper := AtLoop, seq(threads, _ => Idle), NotStopped;
      past := History([], {}, [], [], {}, {}, 0, 0);
      new;
      assert Leads(EVERY_JOB, Init(threads), [], At());
    }

    // ----- interference

    /** Another thread takes a step. */
    method LetOther(step: Step)
      requires Enabled(At(), step)
      modifies this
      ensures At() == Next(EVERY_JOB, old(At()), step)
    {
      var s := Next(EVERY_JOB, At(), step);
      calls, outstandingJobs, active, executing := s.calls, s.load, s.active, s.executing;
      queueLock, executingLock := s.queueOwner, s.execOwner;
      worker, clients, stopper, past := s.worker, s.clients, s.stopper, s.past;
    }

    /** One turn that is not ours, or that finds us blocked. */
    method PassTurn(me: Thread, turn: Turn, ghost course: Course, ghost before: seq<Turn>, ghost first: State)
      requires me == course.me && Stands(course, before) && before != [] && before[0] == turn
      requires turn.Ours? ==> !Enabled(At(), MoveOf(me, At()))
      requires Undisturbed(me, first, At())
      modifies this
      ensures Stands(course, before[1..]) && Undisturbed(me, first, At())
    {
      TakeTurn(me, turn, course, before);
      UndisturbedTwice(me, first, old(At()), At());
    }

    method TakeTurn(me: Thread, turn: Turn, ghost course: Course, ghost before: seq<Turn>)
      requires me == course.me && Stands(course, before) && before != [] && before[0] == turn
      requires turn.Ours? ==> !Enabled(At(), MoveOf(me, At()))
      modifies this
      ensures Stands(course, before[1..]) && Undisturbed(me, old(At()), At())
    {
      NextTurn(course, before);
      CourseReaches(course, course.Taken(before));
      ReachableInv(EVERY_JOB, At());
      if turn.Theirs? && !Belongs(turn.step, me) && Enabled(At(), turn.step) {
        OthersRespect(me, At(), turn.step);
        StepGrows(EVERY_JOB, At(), turn.step);
        LetOther(turn.step);
      }
    }

    /** Lets the others run until it is our turn and we can move; turns at which we are blocked pass. */
    method AwaitTurn(me: Thread, schedule: seq<Turn>, ghost course: Course) returns (rest: seq<Turn>, ours: bool)
      requires me == course.me && Stands(course, schedule)
      modifies this
      ensures Waited(course, rest, ours) && Undisturbed(me, old(At()), At())
      ensures |rest| <= |schedule| && (ours ==> |rest| < |schedule|)
      ensures Prompt(me, old(At()), schedule) ==> ours && rest == schedule[1..] && At() == old(At())
    {
      if Prompt(me, At(), schedule) {
        Grant(course, schedule, At());
        return schedule[1..], true;
      }
      rest, ours := AwaitLonger(me, schedule, course);
    }

    method AwaitLonger(me: Thread, schedule: seq<Turn>, ghost course: Course) returns (rest: seq<Turn>, ours: bool)
      requires me == course.me && Stands(course, schedule)
      modifies this
      ensures Waited(course, rest, ours) && Undisturbed(me, old(At()), At())
      ensures |rest| <= |schedule| && (ours ==> |rest| < |schedule|)
    {
      rest := schedule;
      while rest != [] && !Prompt(me, At(), rest)
        invariant Stands(course, rest) && Undisturbed(me, old(At()), At()) && |rest| <= |schedule|
        decreases |rest|
      {
        PassTurn(me, rest[0], course, rest, old(At()));
        rest := rest[1..];
      }
      ours := rest != [];
      if ours {
        Grant(course, rest, At());
        rest := rest[1..];
      }
    }

    /** The worker waits for its turn; it may be woken up meanwhile, and its queue is left alone while it holds it. */
    method AwaitWorker(schedule: seq<Turn>, ghost course: Course) returns (rest: seq<Turn>, ours: bool)
      requires Stands(course, schedule) && course.me.WorkerThread?
      modifies this
      ensures Waited(course, rest, ours) && |rest| <= |schedule| && (ours ==> |rest| < |schedule|)
      ensures worker == old(worker) || (old(worker).Asleep? && worker.Asleep?)
      ensures QueueHeldByWorker(old(worker)) ==> calls == old(calls)
      ensures (!old(active) ==> !active) && old(past.executed) <= past.executed
    {
      rest, ours := AwaitTurn(WorkerThread, schedule, course);
    }

    /** What happens here while a thread is busy elsewhere. */
    method Meanwhile(i: nat, schedule: seq<Turn>)
      requires Valid() && i < |clients| && clients[i].Idle?
      modifies this
      ensures At() == Turns(ClientThread(i), old(At()), schedule)
      ensures Valid() && Continues(EVERY_JOB, old(At()), At()) && |clients| == |old(clients)| && clients[i].Idle?
    {
      ghost var course := Course(ClientThread(i), At(), schedule);
      CourseStarts(course);
      var rest, ours := AwaitTurn(ClientThread(i), schedule, course);
      assert course.schedule[..|schedule|] == schedule;
      CourseReaches(course, |schedule|);
    }

    // ----- the worker thread

    method LockQueue(ghost course: Course, ghost rest: seq<Turn>)
      requires Due(course, rest) && course.me.WorkerThread? && (worker.WantQueue? || worker.WantDrain?)
      modifies this
      ensures Stands(course, rest) && At() == WorkerNext(old(At()))
    {
      MoveMade(course, rest);
      queueLock := Worker;
      worker := if worker.WantQueue? then Testing else Draining;
    }

    /** `queueCond_.wait(lock, shouldSchedule)`: returns with the queue lock held and its predicate met. */
    method WaitForWork(schedule: seq<Turn>, ghost course: Course) returns (rest: seq<Turn>, ours: bool)
      requires Stands(course, schedule) && course.me.WorkerThread? && worker.WantQueue?
      modifies this
      ensures Waited(course, rest, ours) && |rest| <= |schedule| && !worker.Exited?
      ensures ours ==> worker.Draining? && (calls != [] || !active)
    {
      rest, ours := AwaitWorker(schedule, course);
      if !ours { return; }
      LockQueue(course, rest);
      rest, ours := AwaitWorker(rest, course);
      while ours && calls == [] && active
        invariant Waited(course, rest, ours) && |rest| <= |schedule| && !worker.Exited?
        invariant ours ==> worker.Testing?
        decreases ours, |rest|
      {
        rest, ours := SleepOnce(rest, course);
      }
      if ours {
        LeaveWait(course, rest);
        rest, ours := AwaitWorker(rest, course);
      }
    }

    method LeaveWait(ghost course: Course, ghost rest: seq<Turn>)
      requires Due(course, rest) && course.me.WorkerThread? && worker.Testing? && (calls != [] || !active)
      modifies this`worker
      ensures Stands(course, rest) && worker.Draining?
    {
      MoveMade(course, rest);
      worker := Draining;
    }

    /** One round of the wait: release the lock, sleep until woken, or spuriously, and take the lock again. */
    method SleepOnce(schedule: seq<Turn>, ghost course: Course) returns (rest: seq<Turn>, ours: bool)
      requires Due(course, schedule) && course.me.WorkerThread? && worker.Testing? && calls == [] && active
      modifies this
      ensures Waited(course, rest, ours) && |rest| <= |schedule| && (ours ==> |rest| < |schedule|)
      ensures !worker.Exited? && (ours ==> worker.Testing?)
    {
      rest, ours := GoToSleep(schedule, course);
      if !ours { return; }
      rest, ours := AwaitWorker(rest, course);
      if !ours { return; }
      WakeUp(course, rest);
      rest, ours := AwaitWorker(rest, course);
      if !ours { return; }
      LockQueue(course, rest);
      rest, ours := AwaitWorker(rest, course);
    }

    method GoToSleep(schedule: seq<Turn>, ghost course: Course) returns (rest: seq<Turn>, ours: bool)
      requires Due(course, schedule) && course.me.WorkerThread? && worker.Testing? && calls == [] && active
      modifies this
      ensures |rest| <= |schedule| && !worker.Exited?
      ensures if ours then Stands(course, rest) && |rest| < |schedule| && worker.Asleep?
              else Waited(course, rest, false)
    {
      Park(course, schedule);
      rest, ours := AwaitWorker(schedule, course);
      if ours {
        FallAsleep(course, rest);
      }
    }

    method Park(ghost course: Course, ghost rest: seq<Turn>)
      requires Due(course, rest) && course.me.WorkerThread? && worker.Testing? && calls == [] && active
      modifies this`worker
      ensures Stands(course, rest) && worker.Parking?
    {
      MoveMade(course, rest);
      worker := Parking;
    }

    method FallAsleep(ghost course: Course, ghost rest: seq<Turn>)
      requires Due(course, rest) && course.me.WorkerThread? && worker.Parking?
      modifies this`worker, this`queueLock
      ensures Stands(course, rest) && worker == Asleep(false)
    {
      MoveMade(course, rest);
      queueLock, worker := Nobody, Asleep(false);
    }

    /** Whether it was notified or not. */
    method WakeUp(ghost course: Course, ghost rest: seq<Turn>)
      requires Due(course, rest) && course.me.WorkerThread? && worker.Asleep?
      modifies this`worker
      ensures Stands(course, rest) && worker.WantQueue?
    {
      MoveMade(course, rest);
      worker := WantQueue;
    }

    /** `runTheCall`: the action, then the completion callback if there is one. */
    method RunTheCall(job: Job, schedule: seq<Turn>, ghost course: Course) returns (rest: seq<Turn>, ours: bool)
      requires Stands(course, schedule) && course.me.WorkerThread? && worker == Executing(job, Marked)
      modifies this
      ensures Waited(course, rest, ours) && |rest| <= |schedule| && !worker.Exited?
      ensures ours ==> worker == Executing(job, Returned) && job in past.executed
    {
      rest, ours := PerformCall(job, schedule, course);
      if ours {
        MarkExecuted(job, course, rest);
        rest, ours := AwaitWorker(rest, course);
      }
    }

    method PerformCall(job: Job, schedule: seq<Turn>, ghost course: Course) returns (rest: seq<Turn>, ours: bool)
      requires Stands(course, schedule) && course.me.WorkerThread? && worker == Executing(job, Marked)
      modifies this
      ensures Waited(course, rest, ours) && |rest| <= |schedule| && worker.Executing?
      ensures ours ==> worker == Executing(job, AfterDone)
    {
      rest, ours := AwaitWorker(schedule, course);
      while ours && worker.phase != AfterDone
        invariant Waited(course, rest, ours) && |rest| <= |schedule|
        invariant worker.Executing? && worker.job == job && Performing(worker.phase)
        decreases ours, |rest|
      {
        Perform(job, worker.phase, course, rest);
        rest, ours := AwaitWorker(rest, course);
      }
    }

    method Perform(job: Job, phase: Phase, ghost course: Course, ghost rest: seq<Turn>)
      requires Due(course, rest) && course.me.WorkerThread?
      requires worker == Executing(job, phase) && Performing(phase) && phase != AfterDone
      modifies this`past, this`worker
      ensures Stands(course, rest) && At() == WorkerNext(old(At())) && Performing(worker.phase)
    {
      MoveMade(course, rest);
      past := past.(log := past.log + Emitted(job, phase));
      worker := Executing(job, Following(job, phase));
    }

    /** The end of the completion wrapper, which raises the flag of a blocking caller. */
    method MarkExecuted(job: Job, ghost course: Course, ghost rest: seq<Turn>)
      requires Due(course, rest) && course.me.WorkerThread? && worker == Executing(job, AfterDone)
      modifies this`past, this`clients, this`worker
      ensures Stands(course, rest) && At() == WorkerNext(old(At())) && job in past.executed
    {
      MoveMade(course, rest);
      past := past.(executed := past.executed + [job]);
      if job.call.blocking {
        past, clients := past.(flagged := past.flagged + {job.uid}), RingFlag(clients, job.uid);
      }
      worker := Executing(job, Returned);
    }

    /** `scheduleFirstOutstandingJob`: takes the first job and runs it with the queue lock released. */
    method ScheduleFirstOutstandingJob(schedule: seq<Turn>, ghost course: Course) returns (rest: seq<Turn>, ours: bool)
      requires Due(course, schedule) && course.me.WorkerThread? && worker.Draining? && calls != []
      modifies this
      ensures Waited(course, rest, ours) && |rest| <= |schedule| && (ours ==> |rest| < |schedule|)
      ensures !worker.Exited? && (ours ==> worker.Draining?)
      ensures ours ==> old(calls[0]) in past.executed && forall e :: e in RunOf(old(calls[0])) ==> e in past.log
    {
      var job;
      rest, ours, job := FetchJob(schedule, course);
      if !ours { return; }
      rest, ours := RunJob(job, rest, course);
    }

    /** What is done with the executing lock in place of the queue lock. */
    method RunJob(job: Job, schedule: seq<Turn>, ghost course: Course) returns (rest: seq<Turn>, ours: bool)
      requires Stands(course, schedule) && course.me.WorkerThread? && worker == Executing(job, Marked)
      modifies this
      ensures Waited(course, rest, ours) && |rest| <= |schedule|
      ensures !worker.Exited? && (ours ==> worker.Draining?)
      ensures ours ==> job in past.executed && forall e :: e in RunOf(job) ==> e in past.log
    {
      rest, ours := RunTheCall(job, schedule, course);
      if !ours { return; }
      rest, ours := FinishRun(job, rest, course);
      if ours {
        ExecutedIsLogged(course, course.Taken(rest) - 1, At(), job);
      }
    }

    /** Takes the first job out of the queue, then the executing lock in place of the queue lock. */
    method FetchJob(schedule: seq<Turn>, ghost course: Course) returns (rest: seq<Turn>, ours: bool, job: Job)
      requires Due(course, schedule) && course.me.WorkerThread? && worker.Draining? && calls != []
      modifies this
      ensures |rest| <= |schedule| && job == old(calls[0]) && !worker.Exited?
      ensures if ours then Stands(course, rest) && |rest| < |schedule| && worker == Executing(job, Marked)
              else Waited(course, rest, false)
    {
      job := PopCall(course, schedule);
      rest, ours := AwaitWorker(schedule, course);
      if !ours { return; }
      CountDownAndUnlock(job, course, rest);
      rest, ours := EnterExecution(job, rest, course);
    }

    method PopCall(ghost course: Course, ghost rest: seq<Turn>) returns (job: Job)
      requires Due(course, rest) && course.me.WorkerThread? && worker.Draining? && calls != []
      modifies this`calls, this`worker
      ensures Stands(course, rest) && At() == WorkerNext(old(At())) && worker == Popped(job) && job == old(calls[0])
    {
      MoveMade(course, rest);
      job := calls[0];
      calls, worker := calls[1..], Popped(job);
    }

    method CountDownAndUnlock(job: Job, ghost course: Course, ghost rest: seq<Turn>)
      requires Due(course, rest) && course.me.WorkerThread? && worker == Popped(job)
      modifies this`outstandingJobs, this`queueLock, this`worker
      ensures Stands(course, rest) && At() == WorkerNext(old(At()))
    {
      MoveMade(course, rest);
      outstandingJobs := (outstandingJobs + WORD - 1) % WORD;
      queueLock, worker := Nobody, WantExec(job);
    }

    method EnterExecution(job: Job, schedule: seq<Turn>, ghost course: Course) returns (rest: seq<Turn>, ours: bool)
      requires Stands(course, schedule) && course.me.WorkerThread? && worker == WantExec(job)
      modifies this
      ensures |rest| <= |schedule| && !worker.Exited?
      ensures if ours then Stands(course, rest) && worker == Executing(job, Marked) else Waited(course, rest, false)
    {
      rest, ours := AwaitWorker(schedule, course);
      if !ours { return; }
      LockExecuting(job, course, rest);
      rest, ours := AwaitWorker(rest, course);
      if !ours { return; }
      SetExecuting(job, course, rest);
    }

    method LockExecuting(job: Job, ghost course: Course, ghost rest: seq<Turn>)
      requires Due(course, rest) && course.me.WorkerThread? && worker == WantExec(job)
      modifies this`executingLock, this`worker
      ensures Stands(course, rest) && At() == WorkerNext(old(At()))
    {
      MoveMade(course, rest);
      executingLock, worker := Worker, Executing(job, Entered);
    }

    method SetExecuting(job: Job, ghost course: Course, ghost rest: seq<Turn>)
      requires Due(course, rest) && course.me.WorkerThread? && worker == Executing(job, Entered)
      modifies this`executing, this`worker
      ensures Stands(course, rest) && At() == WorkerNext(old(At()))
    {
      MoveMade(course, rest);
      executing, worker := true, Executing(job, Marked);
    }

    /** After the call: clear the flag, notify, unlock, and take the queue lock back. */
    method FinishRun(job: Job, schedule: seq<Turn>, ghost course: Course) returns (rest: seq<Turn>, ours: bool)
      requires Due(course, schedule) && course.me.WorkerThread? && worker == Executing(job, Returned)
      modifies this
      ensures Waited(course, rest, ours) && |rest| <= |schedule| && old(past.executed) <= past.executed
      ensures !worker.Exited? && (ours ==> worker.Draining?)
    {
      rest, ours := LeaveExecution(job, schedule, course);
      if !ours { return; }
      rest, ours := AwaitWorker(rest, course);
      if !ours { return; }
      LockQueue(course, rest);
      rest, ours := AwaitWorker(rest, course);
    }

    method LeaveExecution(job: Job, schedule: seq<Turn>, ghost course: Course) returns (rest: seq<Turn>, ours: bool)
      requires Due(course, schedule) && course.me.WorkerThread? && worker == Executing(job, Returned)
      modifies this
      ensures |rest| <= |schedule| && old(past.executed) <= past.executed && !worker.Exited?
      ensures if ours then Stands(course, rest) && worker.WantDrain? else Waited(course, rest, false)
    {
      ClearExecuting(job, course, schedule);
      rest, ours := AwaitWorker(schedule, course);
      if ours {
        UnlockExecuting(job, course, rest);
      }
    }

    method ClearExecuting(job: Job, ghost course: Course, ghost rest: seq<Turn>)
      requires Due(course, rest) && course.me.WorkerThread? && worker == Executing(job, Returned)
      modifies this`executing, this`worker
      ensures Stands(course, rest) && At() == WorkerNext(old(At()))
    {
      MoveMade(course, rest);
      executing, worker := false, Executing(job, Cleared);
    }

    method UnlockExecuting(job: Job, ghost course: Course, ghost rest: seq<Turn>)
      requires Due(course, rest) && course.me.WorkerThread? && worker == Executing(job, Cleared)
      modifies this`clients, this`executingLock, this`worker
      ensures Stands(course, rest) && At() == WorkerNext(old(At()))
    {
      MoveMade(course, rest);
      clients, executingLock, worker := RingExec(clients), Nobody, WantDrain;
    }

    /** `run`: drains the queue whenever there is work, until the worker has been deactivated. */
    method Run(schedule: seq<Turn>) returns (rest: seq<Turn>, exited: bool)
      requires Valid() && worker.AtLoop?
      modifies this
      ensures var course := Course(WorkerThread, old(At()), schedule);
        Stands(course, rest) && EndsWith(course, rest, exited)
      ensures Valid() && Continues(EVERY_JOB, old(At()), At())
      ensures exited <==> worker.Exited?
      ensures exited ==> !active
      ensures CanRunAll(old(At()), schedule) ==> old(past.executed) + old(calls) <= past.executed
    {
      ghost var course := Course(WorkerThread, At(), schedule);
      rest, exited := Loop(schedule, course);
      if exited {
        Exit(course, rest);
      }
      CourseReaches(course, course.Taken(rest));
      RunsTheQueue(course, rest, exited);
    }

    /** The loop of `run`, up to the test that ends it. */
    method Loop(schedule: seq<Turn>, ghost course: Course) returns (rest: seq<Turn>, ours: bool)
      requires Valid() && worker.AtLoop? && course == Course(WorkerThread, At(), schedule)
      modifies this
      ensures Waited(course, rest, ours) && !worker.Exited? && (ours ==> worker.AtLoop? && !active)
    {
      CourseStarts(course);
      rest, ours := AwaitWorker(schedule, course);
      while ours && active
        invariant Waited(course, rest, ours) && !worker.Exited? && (ours ==> worker.AtLoop?)
        decreases ours, |rest|
      {
        rest, ours := DrainOnce(rest, course);
      }
    }

    method Exit(ghost course: Course, ghost rest: seq<Turn>)
      requires Due(course, rest) && course.me.WorkerThread? && worker.AtLoop? && !active
      modifies this`worker
      ensures Stands(course, rest) && worker.Exited?
    {
      MoveMade(course, rest);
      worker := Exited;
    }

    /** One round of the loop: waits for work, and empties the queue. */
    method DrainOnce(schedule: seq<Turn>, ghost course: Course) returns (rest: seq<Turn>, ours: bool)
      requires Due(course, schedule) && course.me.WorkerThread? && worker.AtLoop? && active
      modifies this
      ensures Waited(course, rest, ours) && |rest| <= |schedule| && (ours ==> |rest| < |schedule|)
      ensures !worker.Exited? && (ours ==> worker.AtLoop?)
    {
      EnterLoop(course, schedule);
      rest, ours := WaitForWork(schedule, course);
      while ours && calls != []
        invariant Waited(course, rest, ours) && |rest| <= |schedule| && !worker.Exited?
        invariant ours ==> worker.Draining?
        decreases ours, |rest|
      {
        rest, ours := ScheduleFirstOutstandingJob(rest, course);
      }
      if ours {
        LeaveLoop(course, rest);
        rest, ours := AwaitWorker(rest, course);
      }
    }

    method EnterLoop(ghost course: Course, ghost rest: seq<Turn>)
      requires Due(course, rest) && course.me.WorkerThread? && worker.AtLoop? && active
      modifies this`worker
      ensures Stands(course, rest) && worker.WantQueue?
    {
      MoveMade(course, rest);
      worker := WantQueue;
    }

    method LeaveLoop(ghost course: Course, ghost rest: seq<Turn>)
      requires Due(course, rest) && course.me.WorkerThread? && worker.Draining? && calls == []
      modifies this`queueLock, this`worker
      ensures Stands(course, rest) && worker.AtLoop?
    {
      MoveMade(course, rest);
      queueLock, worker := Nobody, AtLoop;
    }

    // ----- the clients

    /** A client waits for its turn; its call goes on where it stopped, or has been woken up. */
    method AwaitClient(i: nat, schedule: seq<Turn>, ghost course: Course) returns (rest: seq<Turn>, ours: bool)
      requires Stands(course, schedule) && course.me == ClientThread(i) && i < |clients|
      modifies this
      ensures Waited(course, rest, ours) && |rest| <= |schedule| && (ours ==> |rest| < |schedule|)
      ensures |clients| == |old(clients)| && SameOrWoken(old(clients[i]), clients[i])
      ensures QueueHeldByClient(old(clients[i])) ==> calls == old(calls)
      ensures old(past.accepted) <= past.accepted
    {
      rest, ours := AwaitTurn(ClientThread(i), schedule, course);
    }

    /** `doJob`: `job` is the accepted call; the worker is told before the load is counted up. If nobody interferes, the
        call goes to the end of the queue, a sleeping worker is woken, and the load goes up by one. */
    method DoJob(i: nat, call: Call, schedule: seq<Turn>) returns (rest: seq<Turn>, returned: bool, job: Job)
      requires Valid() && i < |clients| && clients[i].Idle?
      modifies this
      ensures var course := Course(ClientThread(i), Next(EVERY_JOB, old(At()), BeginDoJob(i, call)), schedule);
        Stands(course, rest) && (!call.blocking ==> EndsWith(course, rest, returned))
      ensures Valid() && Continues(EVERY_JOB, old(At()), At()) && |clients| == |old(clients)|
      ensures returned ==> job.call == call && job in past.accepted && |old(past.accepted)| <= job.uid
      ensures returned ==> clients[i] == if call.blocking then FlagTest(job) else Idle
      ensures !returned ==> rest == [] && Submitting(clients[i])
      ensures !call.blocking && old(queueLock).Nobody? && Alone(schedule, 3) ==>
        returned && rest == schedule[3..] && At() == Submitted(old(At()), i, call)
    {
      ghost var before, course := At(), Course(ClientThread(i), Next(EVERY_JOB, At(), BeginDoJob(i, call)), schedule);
      CourseStarts(course);
      Begins(before, BeginDoJob(i, call));
      clients := clients[i := WantPush(call)];
      rest, returned, job := Submit(i, call, schedule, course);
      Settles(before, BeginDoJob(i, call), course, course.Taken(rest));
      if !call.blocking && before.queueOwner.Nobody? && Alone(schedule, 3) {
        SubmissionAlone(before, i, call, schedule);
        ReturnsThere(course, rest, returned, 3);
      }
    }

    method Submit(i: nat, call: Call, schedule: seq<Turn>, ghost course: Course)
      returns (rest: seq<Turn>, returned: bool, job: Job)
      requires Stands(course, schedule) && course.me == ClientThread(i) && i < |clients| && clients[i] == WantPush(call)
      modifies this
      ensures Stands(course, rest) && |clients| == |old(clients)|
      ensures returned ==> job.call == call && job in past.accepted && |old(past.accepted)| <= job.uid
      ensures returned ==> clients[i] == (if call.blocking then FlagTest(job) else Idle) && course.Granted(rest)
      ensures !returned ==> rest == [] && Submitting(clients[i])
    {
      job := Job(0, call);
      rest, returned := AwaitClient(i, schedule, course);
      if returned {
        job := PushCall(i, call, course, rest);
        rest, returned := NotifyAndCount(i, job, rest, course);
      }
    }

    /** Under the queue lock: `calls_.push_back`. */
    method PushCall(i: nat, call: Call, ghost course: Course, ghost rest: seq<Turn>) returns (job: Job)
      requires Due(course, rest) && course.me == ClientThread(i) && i < |clients| && clients[i] == WantPush(call)
      modifies this`calls, this`past, this`clients
      ensures Stands(course, rest) && At() == ClientNext(EVERY_JOB, old(At()), i)
      ensures job == Job(|old(past.accepted)|, call) && clients[i] == Pushed(job) && job in past.accepted
    {
      MoveMade(course, rest);
      job := Job(|past.accepted|, call);
      calls := calls + [job];
      past := past.(accepted := past.accepted + [job]);
      clients := clients[i := Pushed(job)];
    }

    method NotifyAndCount(i: nat, job: Job, schedule: seq<Turn>, ghost course: Course)
      returns (rest: seq<Turn>, ours: bool)
      requires Stands(course, schedule) && course.me == ClientThread(i) && i < |clients| && clients[i] == Pushed(job)
      modifies this
      ensures Stands(course, rest) && |clients| == |old(clients)| && old(past.accepted) <= past.accepted
      ensures ours ==> clients[i] == (if job.call.blocking then FlagTest(job) else Idle) && course.Granted(rest)
      ensures !ours ==> rest == [] && Submitting(clients[i])
    {
      rest, ours := AwaitClient(i, schedule, course);
      if !ours { return; }
      NotifyQueue(i, job, course, rest);
      rest, ours := AwaitClient(i, rest, course);
      if !ours { return; }
      CountUp(i, job, course, rest);
    }

    method NotifyQueue(i: nat, job: Job, ghost course: Course, ghost rest: seq<Turn>)
      requires Due(course, rest) && course.me == ClientThread(i) && i < |clients| && clients[i] == Pushed(job)
      modifies this`worker, this`clients
      ensures Stands(course, rest) && At() == ClientNext(EVERY_JOB, old(At()), i)
    {
      MoveMade(course, rest);
      worker, clients := RingQueue(worker), clients[i := Notified(job)];
    }

    method CountUp(i: nat, job: Job, ghost course: Course, ghost rest: seq<Turn>)
      requires Due(course, rest) && course.me == ClientThread(i) && i < |clients| && clients[i] == Notified(job)
      modifies this`outstandingJobs, this`clients
      ensures Stands(course, rest) && At() == ClientNext(EVERY_JOB, old(At()), i)
    {
      MoveMade(course, rest);
      outstandingJobs := (outstandingJobs + 1) % WORD;
      clients := clients[i := if job.call.blocking then FlagTest(job) else Idle];
    }

    /** `doSyncJob`: submits, then sleeps until the completion wrapper has raised this call's flag. */
    method DoSyncJob(i: nat, call: Call, schedule: seq<Turn>) returns (rest: seq<Turn>, returned: bool, job: Job)
      requires Valid() && i < |clients| && clients[i].Idle? && call.blocking
      modifies this
      ensures var course := Course(ClientThread(i), Next(EVERY_JOB, old(At()), BeginDoJob(i, call)), schedule);
        Stands(course, rest) && EndsWith(course, rest, returned)
      ensures Valid() && Continues(EVERY_JOB, old(At()), At())
      ensures returned ==> job.call == call && job in past.accepted && |old(past.accepted)| <= job.uid
      ensures returned ==> job in past.executed && Serial(past.log)
      ensures returned ==> forall e :: e in RunOf(job) ==> e in past.log && e !in old(past.log)
      ensures Idling(old(At())) && Served(schedule, Job(|old(past.accepted)|, call)) ==>
        returned && rest == schedule[4 + ServeTurns(Job(|old(past.accepted)|, call))..]
        && past.log == old(past.log) + RunOf(Job(|old(past.accepted)|, call))
    {
      ghost var before, course := At(), Course(ClientThread(i), Next(EVERY_JOB, At(), BeginDoJob(i, call)), schedule);
      rest, returned, job := DoJob(i, call, schedule);
      if returned {
        rest, returned := WaitForFlag(i, job, rest, course);
      }
      Settles(before, BeginDoJob(i, call), course, course.Taken(rest));
      if returned {
        FlaggedHasRun(before, At(), job);
      }
      if Idling(before) && Served(schedule, Job(|before.past.accepted|, call)) {
        BlockingAlone(before, i, call, schedule);
        ReturnsThere(course, rest, returned, 4 + ServeTurns(Job(|before.past.accepted|, call)));
      }
    }

    /** `cond.wait(lock, [&]{return finished;})` */
    method WaitForFlag(i: nat, job: Job, schedule: seq<Turn>, ghost course: Course)
      returns (rest: seq<Turn>, ours: bool)
      requires Stands(course, schedule) && course.me == ClientThread(i) && i < |clients| && clients[i] == FlagTest(job)
      modifies this
      ensures Stands(course, rest) && EndsWith(course, rest, ours) && old(past.accepted) <= past.accepted
      ensures ours ==> job.uid in past.flagged
    {
      rest, ours := AwaitClient(i, schedule, course);
      while ours && job.uid !in past.flagged
        invariant Waited(course, rest, ours) && i < |clients| && old(past.accepted) <= past.accepted
        invariant if ours then clients[i] == FlagTest(job) else clients[i].FlagTest? || clients[i].FlagAsleep?
        decreases ours, |rest|
      {
        rest, ours := SleepOnFlag(i, job, rest, course);
      }
      if ours {
        ReturnFromWait(i, job, course, rest);
      }
    }

    method ReturnFromWait(i: nat, job: Job, ghost course: Course, ghost rest: seq<Turn>)
      requires Due(course, rest) && course.me == ClientThread(i) && i < |clients| && clients[i] == FlagTest(job)
      requires job.uid in past.flagged
      modifies this`past, this`clients
      ensures Stands(course, rest) && clients == old(clients)[i := Idle]
      ensures past == old(past).(returned := old(past.returned) + {job.uid})
    {
      MoveMade(course, rest);
      past, clients := past.(returned := past.returned + {job.uid}), clients[i := Idle];
    }

    /** Sleeps until woken, or spuriously, and comes back to the test of the flag. */
    method SleepOnFlag(i: nat, job: Job, schedule: seq<Turn>, ghost course: Course)
      returns (rest: seq<Turn>, ours: bool)
      requires Due(course, schedule) && course.me == ClientThread(i) && i < |clients| && clients[i] == FlagTest(job)
      requires job.uid !in past.flagged
      modifies this
      ensures Waited(course, rest, ours) && |rest| <= |schedule| && (ours ==> |rest| < |schedule|)
      ensures i < |clients| && old(past.accepted) <= past.accepted
      ensures if ours then clients[i] == FlagTest(job) else clients[i].FlagTest? || clients[i].FlagAsleep?
    {
      DozeOff(i, job, course, schedule);
      rest, ours := AwaitClient(i, schedule, course);
      if ours {
        TestAgain(i, job, course, rest);
        rest, ours := AwaitClient(i, rest, course);
      }
    }

    method DozeOff(i: nat, job: Job, ghost course: Course, ghost rest: seq<Turn>)
      requires Due(course, rest) && course.me == ClientThread(i) && i < |clients| && clients[i] == FlagTest(job)
      requires job.uid !in past.flagged
      modifies this`clients
      ensures Stands(course, rest) && clients == old(clients)[i := FlagAsleep(job, false)]
    {
      MoveMade(course, rest);
      clients := clients[i := FlagAsleep(job, false)];
    }

    /** Whether it was notified or not. */
    method TestAgain(i: nat, job: Job, ghost course: Course, ghost rest: seq<Turn>)
      requires Due(course, rest) && course.me == ClientThread(i) && i < |clients|
      requires clients[i].FlagAsleep? && clients[i].job == job
      modifies this`clients
      ensures Stands(course, rest) && clients == old(clients)[i := FlagTest(job)]
    {
      MoveMade(course, rest);
      clients := clients[i := FlagTest(job)];
    }

    /** `cancelJobsFor`: under the queue lock, meets every queued job, waiting out the running one at those named
        `name`, then erases what the predicate asks for and stores the new length. */
    method CancelJobsFor(i: nat, name: string, schedule: seq<Turn>) returns (rest: seq<Turn>, returned: bool)
      requires Valid() && i < |clients| && clients[i].Idle?
      modifies this
      ensures var course := Course(ClientThread(i), Next(EVERY_JOB, old(At()), BeginCancel(i, name)), schedule);
        Stands(course, rest) && EndsWith(course, rest, returned)
      ensures Valid() && Continues(EVERY_JOB, old(At()), At()) && |clients| == |old(clients)|
      ensures returned ==>
        queueLock.Nobody? && calls == [] && outstandingJobs == 0 && past.uncounted == InFlight(clients)
      ensures returned ==> clients[i].Idle?
      ensures old(queueLock).Nobody? && old(executingLock).Nobody? && Alone(schedule, CancelTurns(old(At()), name)) ==>
        returned && rest == schedule[CancelTurns(old(At()), name)..] && At() == Cancelled(old(At()), name)
    {
      ghost var before, course := At(), Course(ClientThread(i), Next(EVERY_JOB, At(), BeginCancel(i, name)), schedule);
      CourseStarts(course);
      Begins(before, BeginCancel(i, name));
      clients := clients[i := WantCancel(name)];
      rest, returned := Cancel(i, name, schedule, course);
      Settles(before, BeginCancel(i, name), course, course.Taken(rest));
      if before.queueOwner.Nobody? && before.execOwner.Nobody? && Alone(schedule, CancelTurns(before, name)) {
        ReachableInv(EVERY_JOB, before);
        CancelReturns(before, course, rest, returned, i, name);
      }
    }

    method Cancel(i: nat, name: string, schedule: seq<Turn>, ghost course: Course) returns (rest: seq<Turn>, ours: bool)
      requires Stands(course, schedule) && course.me == ClientThread(i) && i < |clients|
      requires clients[i] == WantCancel(name)
      modifies this
      ensures Stands(course, rest) && EndsWith(course, rest, ours) && |clients| == |old(clients)|
      ensures ours ==> queueLock.Nobody? && calls == [] && outstandingJobs == 0 && past.uncounted == InFlight(clients)
    {
      rest, ours := AwaitClient(i, schedule, course);
      if !ours { return; }
      LockForCancel(i, name, course, rest);
      rest, ours := ScanQueue(i, name, rest, course);
      if !ours { return; }
      rest, ours := EraseAndStore(i, name, rest, course);
    }

    method LockForCancel(i: nat, name: string, ghost course: Course, ghost rest: seq<Turn>)
      requires Due(course, rest) && course.me == ClientThread(i) && i < |clients| && clients[i] == WantCancel(name)
      modifies this`queueLock, this`clients
      ensures Stands(course, rest) && At() == ClientNext(EVERY_JOB, old(At()), i)
    {
      MoveMade(course, rest);
      queueLock, clients := Client(i), clients[i := Scanning(name, 0)];
    }

    /** Meets every job in the queue, which nobody else changes meanwhile. */
    method ScanQueue(i: nat, name: string, schedule: seq<Turn>, ghost course: Course)
      returns (rest: seq<Turn>, ours: bool)
      requires Stands(course, schedule) && course.me == ClientThread(i) && i < |clients|
      requires clients[i] == Scanning(name, 0)
      modifies this
      ensures Waited(course, rest, ours) && |clients| == |old(clients)| && calls == old(calls)
      ensures if ours then clients[i] == Scanning(name, |calls|) else QueueHeldByClient(clients[i])
    {
      rest, ours := AwaitClient(i, schedule, course);
      var k := 0;
      while ours && k < |calls|
        invariant Waited(course, rest, ours) && |clients| == |old(clients)| && calls == old(calls)
        invariant if ours then clients[i] == Scanning(name, k) && k <= |calls| else QueueHeldByClient(clients[i])
        decreases ours, |rest|
      {
        if calls[k].call.name == name {
          rest, ours := ProbeExecution(i, name, k, rest, course);
        } else {
          PassJob(i, name, k, course, rest);
          rest, ours := AwaitClient(i, rest, course);
        }
        k := k + 1;
      }
    }

    method PassJob(i: nat, name: string, k: nat, ghost course: Course, ghost rest: seq<Turn>)
      requires Due(course, rest) && course.me == ClientThread(i) && i < |clients| && clients[i] == Scanning(name, k)
      requires k < |calls| && calls[k].call.name != name
      modifies this`clients
      ensures Stands(course, rest) && clients == old(clients)[i := Scanning(name, k + 1)]
    {
      MoveMade(course, rest);
      clients := clients[i := Scanning(name, k + 1)];
    }

    /** Takes the executing lock, finds nothing executing, and gives the lock back. */
    method ProbeExecution(i: nat, name: string, k: nat, schedule: seq<Turn>, ghost course: Course)
      returns (rest: seq<Turn>, ours: bool)
      requires Due(course, schedule) && course.me == ClientThread(i) && i < |clients| && clients[i] == Scanning(name, k)
      requires k < |calls| && calls[k].call.name == name
      modifies this
      ensures Waited(course, rest, ours) && |rest| <= |schedule| && (ours ==> |rest| < |schedule|)
      ensures |clients| == |old(clients)| && calls == old(calls)
      ensures if ours then clients[i] == Scanning(name, k + 1) else QueueHeldByClient(clients[i])
    {
      rest, ours := TakeExecuting(i, name, k, schedule, course);
      if !ours { return; }
      rest, ours := AwaitClient(i, rest, course);
      if !ours { return; }
      LeaveProbe(i, name, k, course, rest);
      rest, ours := AwaitClient(i, rest, course);
    }

    method TakeExecuting(i: nat, name: string, k: nat, schedule: seq<Turn>, ghost course: Course)
      returns (rest: seq<Turn>, ours: bool)
      requires Due(course, schedule) && course.me == ClientThread(i) && i < |clients| && clients[i] == Scanning(name, k)
      requires k < |calls| && calls[k].call.name == name
      modifies this
      ensures |rest| <= |schedule| && |clients| == |old(clients)| && calls == old(calls)
      ensures if ours then Stands(course, rest) && |rest| < |schedule| && clients[i] == Probing(name, k)
              else Waited(course, rest, false) && QueueHeldByClient(clients[i])
    {
      MeetNamed(i, name, k, course, schedule);
      rest, ours := AwaitClient(i, schedule, course);
      if ours {
        EnterProbe(i, name, k, course, rest);
      }
    }

    method MeetNamed(i: nat, name: string, k: nat, ghost course: Course, ghost rest: seq<Turn>)
      requires Due(course, rest) && course.me == ClientThread(i) && i < |clients| && clients[i] == Scanning(name, k)
      requires k < |calls| && calls[k].call.name == name
      modifies this`clients
      ensures Stands(course, rest) && clients == old(clients)[i := WantProbe(name, k)]
    {
      MoveMade(course, rest);
      clients := clients[i := WantProbe(name, k)];
    }

    method EnterProbe(i: nat, name: string, k: nat, ghost course: Course, ghost rest: seq<Turn>)
      requires Due(course, rest) && course.me == ClientThread(i) && i < |clients| && clients[i] == WantProbe(name, k)
      modifies this`executingLock, this`clients
      ensures Stands(course, rest) && At() == ClientNext(EVERY_JOB, old(At()), i)
    {
      MoveMade(course, rest);
      executingLock, clients := Client(i), clients[i := Probing(name, k)];
    }

    method LeaveProbe(i: nat, name: string, k: nat, ghost course: Course, ghost rest: seq<Turn>)
      requires Due(course, rest) && course.me == ClientThread(i) && i < |clients| && clients[i] == Probing(name, k)
      modifies this`executingLock, this`clients
      ensures Stands(course, rest) && At() == ClientNext(EVERY_JOB, old(At()), i) && clients[i] == Scanning(name, k + 1)
    {
      CourseReaches(course, course.Taken(rest) - 1);
      CancelNeverSleeps(EVERY_JOB, At(), i);
      MoveMade(course, rest);
      executingLock, clients := Nobody, clients[i := if executing then Dozing(name, k) else Scanning(name, k + 1)];
    }

    method EraseAndStore(i: nat, name: string, schedule: seq<Turn>, ghost course: Course)
      returns (rest: seq<Turn>, ours: bool)
      requires Due(course, schedule) && course.me == ClientThread(i) && i < |clients|
      requires clients[i] == Scanning(name, |calls|)
      modifies this
      ensures Stands(course, rest) && EndsWith(course, rest, ours) && |clients| == |old(clients)|
      ensures ours ==> queueLock.Nobody? && calls == [] && outstandingJobs == 0 && past.uncounted == InFlight(clients)
    {
      EraseRemoved(i, name, course, schedule);
      rest, ours := AwaitClient(i, schedule, course);
      if ours {
        StoreLength(i, name, course, rest);
      }
    }

    /** `erase(remove_if(...))`: keeps, in order, the jobs the predicate does not ask for. */
    method EraseRemoved(i: nat, name: string, ghost course: Course, ghost rest: seq<Turn>)
      requires Due(course, rest) && course.me == ClientThread(i) && i < |clients|
      requires clients[i] == Scanning(name, |calls|)
      modifies this`calls, this`past, this`clients
      ensures Stands(course, rest) && At() == ClientNext(EVERY_JOB, old(At()), i) && calls == []
    {
      MoveMade(course, rest);
      CancelMeetsItsPromise(name, calls);
      var kept := RemoveIf(EVERY_JOB, name, calls);
      past := past.(cancelled := past.cancelled + Dropped(EVERY_JOB, name, calls));
      calls, clients := kept, clients[i := Erased(name)];
    }

    method StoreLength(i: nat, name: string, ghost course: Course, ghost rest: seq<Turn>)
      requires Due(course, rest) && course.me == ClientThread(i) && i < |clients| && clients[i] == Erased(name)
      modifies this`outstandingJobs, this`past, this`queueLock, this`clients
      ensures Stands(course, rest) && At() == ClientNext(EVERY_JOB, old(At()), i) && InFlight(clients) == past.uncounted
      ensures EndsWith(course, rest, true)
    {
      MoveMade(course, rest);
      InFlightUpdate(clients, i, Idle);
      outstandingJobs, past := |calls| % WORD, past.(uncounted := InFlight(clients));
      queueLock, clients := Nobody, clients[i := Idle];
    }

    // ----- the stopper

    method AwaitStopper(schedule: seq<Turn>, ghost course: Course) returns (rest: seq<Turn>, ours: bool)
      requires Stands(course, schedule) && course.me.StopperThread?
      modifies this
      ensures Waited(course, rest, ours) && |rest| <= |schedule| && (ours ==> |rest| < |schedule|)
      ensures stopper == old(stopper) && past.stopMark == old(past.stopMark) && old(past.accepted) <= past.accepted
    {
      rest, ours := AwaitTurn(StopperThread, schedule, course);
    }

    /** `stop`: waits for an empty queue, deactivates the worker under the lock, and joins it. */
    method Stop(schedule: seq<Turn>) returns (rest: seq<Turn>, returned: bool)
      requires Valid() && (stopper.NotStopped? || stopper.Stopped?)
      modifies this
      ensures old(stopper).NotStopped? ==>
        var course := Course(StopperThread, Next(EVERY_JOB, old(At()), BeginStop), schedule);
        Stands(course, rest) && EndsWith(course, rest, returned)
      ensures old(stopper).Stopped? ==> returned && rest == schedule && At() == old(At())
      ensures Valid() && Continues(EVERY_JOB, old(At()), At())
      ensures returned ==> !active && worker.Exited?
      ensures returned ==> forall uid: nat :: uid < |old(past.accepted)| && old(stopper).NotStopped? ==>
        uid in past.cancelled || old(past.accepted)[uid] in past.executed
      ensures old(stopper).NotStopped? && Idling(old(At())) && Stoppable(schedule) ==>
        returned && rest == schedule[10..]
    {
      ghost var before := At();
      ReachableInv(EVERY_JOB, before);
      if !active {
        NothingYet(before);
        return schedule, true;
      }
      ghost var course := Course(StopperThread, Next(EVERY_JOB, before, BeginStop), schedule);
      CourseStarts(course);
      Begins(before, BeginStop);
      stopper := WantStop;
      rest, returned := StopActive(schedule, course);
      Settles(before, BeginStop, course, course.Taken(rest));
      if returned {
        StoppedIsDrained(before, At());
      }
      if Idling(before) && Stoppable(schedule) {
        StopAlone(before, schedule);
        ReturnsThere(course, rest, returned, 10);
      }
    }

    method StopActive(schedule: seq<Turn>, ghost course: Course) returns (rest: seq<Turn>, returned: bool)
      requires Stands(course, schedule) && course.me.StopperThread? && stopper.WantStop?
      modifies this
      ensures Stands(course, rest) && EndsWith(course, rest, returned)
      ensures returned ==> stopper.Stopped? && |old(past.accepted)| <= past.stopMark
    {
      rest, returned := WaitForOutstandingJobsToFinish(schedule, course);
      if !returned { return; }
      rest, returned := DeactivateAndNotify(rest, course);
      if !returned { return; }
      rest, returned := UnlockAndJoin(rest, course);
    }

    /** `waitForOutstandingJobsToFinish`: takes the queue lock again and again until the queue is empty. */
    method WaitForOutstandingJobsToFinish(schedule: seq<Turn>, ghost course: Course)
      returns (rest: seq<Turn>, ours: bool)
      requires Stands(course, schedule) && course.me.StopperThread? && stopper.WantStop?
      modifies this
      ensures Stands(course, rest) && old(past.accepted) <= past.accepted
      ensures if ours then stopper.HoldingEmpty? else rest == [] && stopper.WantStop?
    {
      rest, ours := AwaitStopper(schedule, course);
      while ours && calls != []
        invariant Waited(course, rest, ours) && stopper.WantStop? && old(past.accepted) <= past.accepted
        decreases ours, |rest|
      {
        Poll(course, rest);
        rest, ours := AwaitStopper(rest, course);
      }
      if ours {
        HoldEmpty(course, rest);
      }
    }

    /** Takes the lock, finds jobs, and gives the lock back. */
    method Poll(ghost course: Course, ghost rest: seq<Turn>)
      requires Due(course, rest) && course.me.StopperThread? && stopper.WantStop? && calls != []
      ensures Stands(course, rest)
    {
      MoveMade(course, rest);
    }

    method HoldEmpty(ghost course: Course, ghost rest: seq<Turn>)
      requires Due(course, rest) && course.me.StopperThread? && stopper.WantStop? && calls == []
      modifies this`queueLock, this`stopper
      ensures Stands(course, rest) && stopper.HoldingEmpty?
    {
      MoveMade(course, rest);
      queueLock, stopper := Stopper, HoldingEmpty;
    }

    method DeactivateAndNotify(schedule: seq<Turn>, ghost course: Course) returns (rest: seq<Turn>, ours: bool)
      requires Stands(course, schedule) && course.me.StopperThread? && stopper.HoldingEmpty?
      modifies this
      ensures Stands(course, rest)
      ensures if ours then stopper.StopNotified? && |old(past.accepted)| <= past.stopMark
              else rest == [] && !Finished(StopperThread, At())
    {
      rest, ours := AwaitStopper(schedule, course);
      if !ours { return; }
      Deactivate(course, rest);
      rest, ours := AwaitStopper(rest, course);
      if !ours { return; }
      NotifyStopped(course, rest);
    }

    method Deactivate(ghost course: Course, ghost rest: seq<Turn>)
      requires Due(course, rest) && course.me.StopperThread? && stopper.HoldingEmpty?
      modifies this`active, this`past, this`stopper
      ensures Stands(course, rest) && At() == StopperNext(old(At()))
    {
      MoveMade(course, rest);
      active, past, stopper := false, past.(stopMark := |past.accepted|), Deactivated;
    }

    method NotifyStopped(ghost course: Course, ghost rest: seq<Turn>)
      requires Due(course, rest) && course.me.StopperThread? && stopper.Deactivated?
      modifies this`worker, this`stopper
      ensures Stands(course, rest) && At() == StopperNext(old(At()))
    {
      MoveMade(course, rest);
      worker, stopper := RingQueue(worker), StopNotified;
    }

    method UnlockAndJoin(schedule: seq<Turn>, ghost course: Course) returns (rest: seq<Turn>, ours: bool)
      requires Stands(course, schedule) && course.me.StopperThread? && stopper.StopNotified?
      modifies this
      ensures Stands(course, rest) && EndsWith(course, rest, ours) && past.stopMark == old(past.stopMark)
      ensures ours ==> stopper.Stopped?
    {
      rest, ours := AwaitStopper(schedule, course);
      if !ours { return; }
      UnlockStopped(course, rest);
      rest, ours := AwaitStopper(rest, course);
      if !ours { return; }
      Join(course, rest);
    }

    method UnlockStopped(ghost course: Course, ghost rest: seq<Turn>)
      requires Due(course, rest) && course.me.StopperThread? && stopper.StopNotified?
      modifies this`queueLock, this`stopper
      ensures Stands(course, rest) && stopper.Joining?
    {
      MoveMade(course, rest);
      queueLock, stopper := Nobody, Joining;
    }

    method Join(ghost course: Course, ghost rest: seq<Turn>)
      requires Due(course, rest) && course.me.StopperThread? && stopper.Joining?
      modifies this`stopper
      ensures Stands(course, rest) && stopper.Stopped?
    {
      MoveMade(course, rest);
      stopper := Stopped;
    }
  }
}
