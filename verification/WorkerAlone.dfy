/**
  What operations do when nobody gets in their way: with the locks free, so many turns are enough, and this is the state
  they leave. A blocking call and a stop need the worker's turns as well.
 */
module WorkerAlone {
  import opened WorkerProtocol
  import opened WorkerSafety
  import opened WorkerTheorems
  import opened WorkerSchedules

  /** The turns from `n` on, `m` of them, are all the same. */
  predicate Repeated(schedule: seq<Turn>, n: nat, m: nat, turn: Turn) {
    n + m <= |schedule| && forall k :: n <= k < n + m ==> schedule[k] == turn
  }

  /** The first turns are all ours. */
  predicate Alone(schedule: seq<Turn>, n: nat) {
    Repeated(schedule, 0, n, Ours)
  }

  lemma ClientTurn(course: Course, n: nat, i: nat, s: State, t: State)
    requires n < |course.schedule| && course.schedule[n].Ours? && course.me == ClientThread(i) && s == course.Upto(n)
    requires ClientEnabled(s, i) && !Unnotified(s.clients[i]) && t == ClientNext(EVERY_JOB, s, i)
    ensures course.Upto(n + 1) == t
  {
    TurnAt(course, n);
  }

  lemma StopperTurn(course: Course, n: nat, s: State, t: State)
    requires n < |course.schedule| && course.schedule[n].Ours? && course.me.StopperThread? && s == course.Upto(n)
    requires StopperEnabled(s) && t == StopperNext(s)
    ensures course.Upto(n + 1) == t
  {
    TurnAt(course, n);
  }

  // ----- a submission

  /** What a submission that nobody interferes with makes of the worker. */
  function Submitted(s: State, i: nat, call: Call): State
    requires i < |s.clients|
  {
    var job := Job(|s.past.accepted|, call);
    s.(calls := s.calls + [job], load := (s.load + 1) % WORD, worker := RingQueue(s.worker),
       past := s.past.(accepted := s.past.accepted + [job]),
       clients := s.clients[i := if call.blocking then FlagTest(job) else Idle])
  }

  /** Three turns of its own are enough for a submission when the queue lock is free. */
  lemma SubmissionAlone(s: State, i: nat, call: Call, schedule: seq<Turn>)
    requires i < |s.clients| && s.clients[i].Idle? && s.queueOwner.Nobody? && Alone(schedule, 3)
    ensures var course := Course(ClientThread(i), Next(EVERY_JOB, s, BeginDoJob(i, call)), schedule);
      && course.Upto(3) == Submitted(s, i, call)
      && (!call.blocking ==> FinishesAt(course, 3))
  {
    var course := Course(ClientThread(i), Next(EVERY_JOB, s, BeginDoJob(i, call)), schedule);
    var pushed, notified := SubmissionSteps(s, i, call, course.start);
    CourseStarts(course);
    ClientTurn(course, 0, i, course.start, pushed);
    ClientTurn(course, 1, i, pushed, notified);
    ClientTurn(course, 2, i, notified, Submitted(s, i, call));
  }

  lemma SubmissionSteps(s: State, i: nat, call: Call, begun: State) returns (pushed: State, notified: State)
    requires i < |s.clients| && s.clients[i].Idle? && s.queueOwner.Nobody?
    requires begun == s.(clients := s.clients[i := WantPush(call)])
    ensures ClientEnabled(begun, i) && pushed == ClientNext(EVERY_JOB, begun, i)
    ensures ClientEnabled(pushed, i) && pushed.clients[i].Pushed? && notified == ClientNext(EVERY_JOB, pushed, i)
    ensures ClientEnabled(notified, i) && notified.clients[i].Notified?
    ensures Submitted(s, i, call) == ClientNext(EVERY_JOB, notified, i)
  {
    var job := Job(|s.past.accepted|, call);
    pushed := begun.(calls := s.calls + [job], past := s.past.(accepted := s.past.accepted + [job]),
                     clients := begun.clients[i := Pushed(job)]);
    notified := pushed.(worker := RingQueue(s.worker), clients := pushed.clients[i := Notified(job)]);
    assert ClientNext(EVERY_JOB, notified, i).clients == Submitted(s, i, call).clients;
  }

  // ----- a cancel

  /** The turns a cancel needs to meet these jobs. */
  function ScanTurns(name: string, jobs: seq<Job>): nat {
    if jobs == [] then 0 else (if jobs[0].call.name == name then 3 else 1) + ScanTurns(name, jobs[1..])
  }

  /** Client `i` has come to job `k`. */
  function Scanned(s: State, i: nat, name: string, k: nat): State
    requires i < |s.clients|
  {
    s.(clients := s.clients[i := Scanning(name, k)])
  }

  lemma {:induction false} ScanAlone(course: Course, n: nat, s: State, i: nat, name: string, k: nat)
    requires course.me == ClientThread(i) && n <= |course.schedule| && i < |s.clients| && k <= |s.calls|
    requires course.Upto(n) == Scanned(s, i, name, k) && s.execOwner.Nobody? && !s.executing
    requires Repeated(course.schedule, n, ScanTurns(name, s.calls[k..]), Ours)
    ensures course.Upto(n + ScanTurns(name, s.calls[k..])) == Scanned(s, i, name, |s.calls|)
    decreases |s.calls| - k
  {
    if k < |s.calls| {
      var turns := MeetTurns(name, s.calls, k);
      MeetAlone(course, n, s, i, name, k, turns);
      ScanAlone(course, n + turns, s, i, name, k + 1);
    }
  }

  lemma MeetTurns(name: string, jobs: seq<Job>, k: nat) returns (turns: nat)
    requires k < |jobs|
    ensures turns == (if jobs[k].call.name == name then 3 else 1)
    ensures ScanTurns(name, jobs[k..]) == turns + ScanTurns(name, jobs[k + 1..])
  {
    assert jobs[k..][1..] == jobs[k + 1..];
    turns := if jobs[k].call.name == name then 3 else 1;
  }

  lemma MeetAlone(course: Course, n: nat, s: State, i: nat, name: string, k: nat, turns: nat)
    requires course.me == ClientThread(i) && n <= |course.schedule| && i < |s.clients| && k < |s.calls|
    requires course.Upto(n) == Scanned(s, i, name, k) && s.execOwner.Nobody? && !s.executing
    requires turns == (if s.calls[k].call.name == name then 3 else 1) && Repeated(course.schedule, n, turns, Ours)
    ensures course.Upto(n + turns) == Scanned(s, i, name, k + 1)
  {
    var now := Scanned(s, i, name, k);
    assert now.clients[i := Scanning(name, k + 1)] == s.clients[i := Scanning(name, k + 1)];
    if s.calls[k].call.name == name {
      ProbeAlone(course, n, now, i, name, k);
    } else {
      ClientTurn(course, n, i, now, Scanned(s, i, name, k + 1));
    }
  }

  lemma ProbeAlone(course: Course, n: nat, s: State, i: nat, name: string, k: nat)
    requires course.me == ClientThread(i) && n + 3 <= |course.schedule| && s == course.Upto(n)
    requires i < |s.clients| && s.clients[i] == Scanning(name, k) && k < |s.calls| && s.calls[k].call.name == name
    requires s.execOwner.Nobody? && !s.executing && Repeated(course.schedule, n, 3, Ours)
    ensures course.Upto(n + 3) == s.(clients := s.clients[i := Scanning(name, k + 1)])
  {
    var wanting := s.(clients := s.clients[i := WantProbe(name, k)]);
    var probing := wanting.(execOwner := Client(i), clients := wanting.clients[i := Probing(name, k)]);
    var next := s.(clients := s.clients[i := Scanning(name, k + 1)]);
    assert probing.clients[i := Scanning(name, k + 1)] == next.clients;
    ClientTurn(course, n, i, s, wanting);
    ClientTurn(course, n + 1, i, wanting, probing);
    ClientTurn(course, n + 2, i, probing, next);
  }

  /** What a cancel that nobody interferes with makes of the worker. */
  function Cancelled(s: State, name: string): State {
    s.(calls := [], load := 0,
       past := s.past.(cancelled := s.past.cancelled + Dropped(EVERY_JOB, name, s.calls),
                       uncounted := InFlight(s.clients)))
  }

  function CancelTurns(s: State, name: string): nat { ScanTurns(name, s.calls) + 3 }

  /** With both locks free a cancel needs its own turns only, so many for every job in the queue. */
  lemma CancelAlone(s: State, i: nat, name: string, schedule: seq<Turn>)
    requires i < |s.clients| && s.clients[i].Idle? && s.queueOwner.Nobody? && s.execOwner.Nobody? && !s.executing
    requires Alone(schedule, CancelTurns(s, name))
    ensures var course := Course(ClientThread(i), Next(EVERY_JOB, s, BeginCancel(i, name)), schedule);
      FinishesAt(course, CancelTurns(s, name)) && course.Upto(CancelTurns(s, name)) == Cancelled(s, name)
  {
    var course := Course(ClientThread(i), Next(EVERY_JOB, s, BeginCancel(i, name)), schedule);
    var begun, scan := course.start, ScanTurns(name, s.calls);
    var locked := begun.(queueOwner := Client(i), clients := begun.clients[i := Scanning(name, 0)]);
    CourseStarts(course);
    ClientTurn(course, 0, i, begun, locked);
    assert s.calls[0..] == s.calls;
    var base := s.(queueOwner := Client(i));
    assert begun.clients[i := Scanning(name, 0)] == s.clients[i := Scanning(name, 0)];
    ScanAlone(course, 1, base, i, name, 0);
    EraseAlone(course, 1 + scan, s, Scanned(base, i, name, |s.calls|), i, name);
  }

  lemma EraseAlone(course: Course, n: nat, s: State, scanned: State, i: nat, name: string)
    requires course.me == ClientThread(i) && n + 2 <= |course.schedule| && Repeated(course.schedule, n, 2, Ours)
    requires i < |s.clients| && s.clients[i].Idle? && s.queueOwner.Nobody? && scanned == course.Upto(n)
    requires scanned.clients == s.clients[i := Scanning(name, |s.calls|)]
    requires scanned == s.(queueOwner := Client(i), clients := scanned.clients)
    ensures course.Upto(n + 2) == Cancelled(s, name) && FinishesAt(course, n + 2)
  {
    CancelMeetsItsPromise(name, s.calls);
    var erased := scanned.(calls := [], clients := scanned.clients[i := Erased(name)],
                           past := s.past.(cancelled := s.past.cancelled + Dropped(EVERY_JOB, name, s.calls)));
    ClientTurn(course, n, i, scanned, erased);
    InFlightUpdate(s.clients, i, Erased(name));
    assert erased.clients == s.clients[i := Erased(name)] && erased.clients[i := Idle] == s.clients;
    ClientTurn(course, n + 1, i, erased, Cancelled(s, name));
  }

  // ----- the worker at work

  /** `n` moves of the worker lead from `s` to `t`. */
  ghost predicate WorksTo(s: State, n: nat, t: State)
    decreases n
  {
    if n == 0 then s == t else WorkerEnabled(s) && WorksTo(WorkerNext(s), n - 1, t)
  }

  lemma {:induction false} WorksJoin(s: State, m: nat, t: State, n: nat, u: State)
    requires WorksTo(s, m, t) && WorksTo(t, n, u)
    ensures WorksTo(s, m + n, u)
    decreases m
  {
    if m > 0 {
      WorksJoin(WorkerNext(s), m - 1, t, n, u);
    }
  }

  /** The worker works at the turns that are given to it, its own or as one of the others. */
  lemma {:induction false} Works(course: Course, n: nat, m: nat, t: State)
    requires n <= |course.schedule| && WorksTo(course.Upto(n), m, t)
    requires Repeated(course.schedule, n, m, if course.me.WorkerThread? then Ours else Theirs(WorkerMoves))
    ensures course.Upto(n + m) == t
    decreases m
  {
    if m > 0 {
      WorkTurn(course, n, course.Upto(n));
      Works(course, n + 1, m - 1, t);
    }
  }

  lemma WorkTurn(course: Course, n: nat, s: State)
    requires n < |course.schedule| && s == course.Upto(n) && WorkerEnabled(s)
    requires course.schedule[n] == if course.me.WorkerThread? then Ours else Theirs(WorkerMoves)
    ensures course.Upto(n + 1) == WorkerNext(s)
  {
    TurnAt(course, n);
  }

  function PerformTurns(job: Job): nat { if job.call.hasDone then 4 else 3 }

  /** From the queue to the executing lock. */
  lemma FetchWorks(s: State) returns (t: State)
    requires s.worker.Draining? && s.calls != [] && s.execOwner.Nobody?
    ensures WorksTo(s, 4, t)
    ensures t == s.(calls := s.calls[1..], load := t.load, queueOwner := Nobody, execOwner := Worker,
                                        executing := true, worker := Executing(s.calls[0], Marked))
  {
    var a := WorkerNext(s);
    var b := WorkerNext(a);
    var c := WorkerNext(b);
    t := WorkerNext(c);
    assert WorksTo(c, 1, t) && WorksTo(b, 2, t) && WorksTo(a, 3, t);
  }

  /** Action, and callback if there is one. */
  lemma PerformWorks(s: State, job: Job) returns (t: State)
    requires s.worker == Executing(job, Marked)
    ensures WorksTo(s, PerformTurns(job), t)
    ensures t == s.(worker := Executing(job, AfterDone), past := s.past.(log := s.past.log + RunOf(job)))
  {
    var a := WorkerNext(s);
    var b := WorkerNext(a);
    var c := WorkerNext(b);
    assert b.past.log == s.past.log + [ActionStart(job.uid), ActionEnd(job.uid)];
    if job.call.hasDone {
      t := WorkerNext(c);
      assert t.past.log == s.past.log + RunOf(job);
      assert WorksTo(c, 1, t) && WorksTo(b, 2, t) && WorksTo(a, 3, t);
    } else {
      t := c;
      assert t.past.log == s.past.log + RunOf(job);
      assert WorksTo(b, 1, t) && WorksTo(a, 2, t);
    }
  }

  /** The first job of the queue is run, up to the end of its completion wrapper. */
  lemma CallWorks(s: State) returns (t: State)
    requires s.worker.Draining? && s.calls != [] && s.execOwner.Nobody?
    ensures WorksTo(s, 5 + PerformTurns(s.calls[0]), t) && t.worker == Executing(s.calls[0], Returned)
    ensures t.calls == s.calls[1..] && t.queueOwner.Nobody? && t.execOwner.Worker? && t.active == s.active
    ensures t.past.executed == s.past.executed + [s.calls[0]] && t.past.log == s.past.log + RunOf(s.calls[0])
    ensures t.past.accepted == s.past.accepted
    ensures s.calls[0].call.blocking ==> t.past.flagged == s.past.flagged + {s.calls[0].uid}
    ensures t.clients == if s.calls[0].call.blocking then RingFlag(s.clients, s.calls[0].uid) else s.clients
  {
    var job := s.calls[0];
    var a := FetchWorks(s);
    var b := PerformWorks(a, job);
    t := WorkerNext(b);
    WorksJoin(s, 4, a, PerformTurns(job), b);
    assert WorksTo(t, 0, t) && WorksTo(b, 1, t);
    WorksJoin(s, 4 + PerformTurns(job), b, 1, t);
  }

  /** After its job the worker comes back to the queue. */
  lemma FinishWorks(s: State, job: Job) returns (t: State)
    requires s.worker == Executing(job, Returned) && s.queueOwner.Nobody?
    ensures WorksTo(s, 3, t) && t.worker.Draining? && t.execOwner.Nobody?
    ensures t.calls == s.calls && t.past == s.past && t.active == s.active
  {
    var a := WorkerNext(s);
    var b := WorkerNext(a);
    t := WorkerNext(b);
    assert WorksTo(b, 1, t) && WorksTo(a, 2, t);
  }

  function JobTurns(job: Job): nat { 8 + PerformTurns(job) }

  function DrainTurns(jobs: seq<Job>): nat {
    if jobs == [] then 0 else JobTurns(jobs[0]) + DrainTurns(jobs[1..])
  }

  /** The whole queue is run, in order. */
  lemma {:induction false} DrainWorks(s: State) returns (t: State)
    requires s.worker.Draining? && s.execOwner.Nobody?
    ensures WorksTo(s, DrainTurns(s.calls), t) && t.worker.Draining? && t.calls == []
    ensures t.past.executed == s.past.executed + s.calls && t.active == s.active
    decreases |s.calls|
  {
    if s.calls == [] {
      t := s;
    } else {
      var a := CallWorks(s);
      var b := FinishWorks(a, s.calls[0]);
      t := DrainWorks(b);
      WorksJoin(s, 5 + PerformTurns(s.calls[0]), a, 3, b);
      WorksJoin(s, JobTurns(s.calls[0]), b, DrainTurns(b.calls), t);
      assert s.past.executed + [s.calls[0]] + s.calls[1..] == s.past.executed + s.calls;
    }
  }

  function RunTurns(jobs: seq<Job>): nat { 3 + DrainTurns(jobs) }

  /** An active worker, the locks free, jobs in its queue, and turns enough for them. */
  predicate CanRunAll(s: State, schedule: seq<Turn>) {
    && s.active && s.queueOwner.Nobody? && s.execOwner.Nobody? && s.calls != []
    && Alone(schedule, RunTurns(s.calls))
  }

  /** With the locks free, a worker that finds jobs in its queue runs them all, in order, by its own turns only. */
  lemma RunAlone(s: State, schedule: seq<Turn>)
    requires s.worker.AtLoop? && CanRunAll(s, schedule)
    ensures var end := Course(WorkerThread, s, schedule).Upto(RunTurns(s.calls));
      end.past.executed == s.past.executed + s.calls && end.calls == [] && !end.worker.Exited?
  {
    var a := WorkerNext(s);
    var b := WorkerNext(a);
    var c := WorkerNext(b);
    assert WorksTo(b, 1, c) && WorksTo(a, 2, c) && WorksTo(s, 3, c);
    var t := DrainWorks(c);
    WorksJoin(s, 3, c, DrainTurns(s.calls), t);
    CourseStarts(Course(WorkerThread, s, schedule));
    Works(Course(WorkerThread, s, schedule), 0, RunTurns(s.calls), t);
  }

  /** The worker sleeps, with nothing to do and the locks free. */
  predicate Idling(s: State) {
    s.worker == Asleep(false) && s.calls == [] && s.queueOwner.Nobody? && s.execOwner.Nobody?
  }

  // ----- a blocking call, with the worker

  /** The worker's part in a blocking call, from its sleep to the end of the completion wrapper. */
  function ServeTurns(job: Job): nat { 8 + PerformTurns(job) }

  lemma ServeWorks(s: State) returns (t: State)
    requires s.worker == Asleep(true) && s.queueOwner.Nobody? && s.execOwner.Nobody? && s.calls != []
    ensures WorksTo(s, ServeTurns(s.calls[0]), t)
    ensures t.past.log == s.past.log + RunOf(s.calls[0]) && t.past.accepted == s.past.accepted
    ensures s.calls[0].call.blocking ==>
      s.calls[0].uid in t.past.flagged && t.clients == RingFlag(s.clients, s.calls[0].uid)
  {
    var a := WorkerNext(s);
    var b := WorkerNext(a);
    var c := WorkerNext(b);
    assert WorksTo(b, 1, c) && WorksTo(a, 2, c) && WorksTo(s, 3, c);
    t := CallWorks(c);
    WorksJoin(s, 3, c, 5 + PerformTurns(s.calls[0]), t);
  }

  /** Three turns of the caller, the worker's, and one more of the caller. */
  predicate Served(schedule: seq<Turn>, job: Job) {
    && Alone(schedule, 3) && Repeated(schedule, 3, ServeTurns(job), Theirs(WorkerMoves))
    && Repeated(schedule, 3 + ServeTurns(job), 1, Ours)
  }

  /** With an idle worker a blocking call returns with its own job run. */
  lemma BlockingAlone(s: State, i: nat, call: Call, schedule: seq<Turn>)
    requires i < |s.clients| && s.clients[i].Idle? && call.blocking
    requires Idling(s) && Served(schedule, Job(|s.past.accepted|, call))
    ensures var course, job := Course(ClientThread(i), Next(EVERY_JOB, s, BeginDoJob(i, call)), schedule),
                               Job(|s.past.accepted|, call);
      && FinishesAt(course, 4 + ServeTurns(job))
      && course.Upto(4 + ServeTurns(job)).past.log == s.past.log + RunOf(job)
      && course.Upto(4 + ServeTurns(job)).past.accepted == s.past.accepted + [job]
  {
    var course, job := Course(ClientThread(i), Next(EVERY_JOB, s, BeginDoJob(i, call)), schedule),
                       Job(|s.past.accepted|, call);
    SubmissionAlone(s, i, call, schedule);
    var t := ServesTheCall(course, s, i, call, job);
    ReturnAlone(course, 3 + ServeTurns(job), t, i, job);
  }

  lemma ServesTheCall(course: Course, s: State, i: nat, call: Call, job: Job) returns (t: State)
    requires i < |s.clients| && call.blocking && job == Job(|s.past.accepted|, call) && course.me == ClientThread(i)
    requires Idling(s) && Repeated(course.schedule, 3, ServeTurns(job), Theirs(WorkerMoves))
    requires course.Upto(3) == Submitted(s, i, call)
    ensures course.Upto(3 + ServeTurns(job)) == t && |t.clients| == |s.clients|
    ensures t.past.log == s.past.log + RunOf(job) && t.past.accepted == s.past.accepted + [job]
    ensures job.uid in t.past.flagged && t.clients[i] == FlagTest(job)
  {
    t := ServeWorks(Submitted(s, i, call));
    Works(course, 3, ServeTurns(job), t);
  }

  lemma ReturnAlone(course: Course, n: nat, s: State, i: nat, job: Job)
    requires course.me == ClientThread(i) && n < |course.schedule| && course.schedule[n].Ours? && s == course.Upto(n)
    requires i < |s.clients| && s.clients[i] == FlagTest(job) && job.uid in s.past.flagged
    ensures FinishesAt(course, n + 1)
    ensures course.Upto(n + 1).past.log == s.past.log && course.Upto(n + 1).past.accepted == s.past.accepted
  {
    ClientTurn(course, n, i, s, ClientNext(EVERY_JOB, s, i));
  }

  // ----- a stop, with the worker

  /** Four turns of the stopper, five of the worker, and one more of the stopper. */
  predicate Stoppable(schedule: seq<Turn>) {
    Alone(schedule, 4) && Repeated(schedule, 4, 5, Theirs(WorkerMoves)) && Repeated(schedule, 9, 1, Ours)
  }

  /** An idle worker is stopped at once. */
  lemma StopAlone(s: State, schedule: seq<Turn>)
    requires s.active && s.stopper.NotStopped? && Idling(s) && Stoppable(schedule)
    ensures var course := Course(StopperThread, Next(EVERY_JOB, s, BeginStop), schedule);
      FinishesAt(course, 10) && course.Upto(10).worker.Exited? && course.Upto(10).past.executed == s.past.executed
  {
    var course := Course(StopperThread, Next(EVERY_JOB, s, BeginStop), schedule);
    var notified := StopSteps(course, s);
    var t := ExitWorks(notified);
    Works(course, 4, 5, t);
    StopperTurn(course, 9, t, StopperNext(t));
  }

  lemma StopSteps(course: Course, s: State) returns (t: State)
    requires course.me.StopperThread? && Alone(course.schedule, 4) && course.start == s.(stopper := WantStop)
    requires s.active && s.worker == Asleep(false) && s.calls == [] && s.queueOwner.Nobody?
    ensures course.Upto(4) == t && t == s.(active := false, worker := Asleep(true), stopper := Joining,
                                           past := s.past.(stopMark := |s.past.accepted|))
  {
    var held := s.(queueOwner := Stopper, stopper := HoldingEmpty);
    var passive := held.(active := false, stopper := Deactivated, past := s.past.(stopMark := |s.past.accepted|));
    var notified := passive.(worker := Asleep(true), stopper := StopNotified);
    t := notified.(queueOwner := Nobody, stopper := Joining);
    CourseStarts(course);
    StopperTurn(course, 0, course.start, held);
    StopperTurn(course, 1, held, passive);
    StopperTurn(course, 2, passive, notified);
    StopperTurn(course, 3, notified, t);
  }

  lemma ExitWorks(s: State) returns (t: State)
    requires s.worker == Asleep(true) && s.queueOwner.Nobody? && s.calls == [] && !s.active
    ensures WorksTo(s, 5, t) && t == s.(worker := Exited)
  {
    var a := WorkerNext(s);
    var b := WorkerNext(a);
    var c := WorkerNext(b);
    var d := WorkerNext(c);
    t := WorkerNext(d);
    assert WorksTo(d, 1, t) && WorksTo(c, 2, t) && WorksTo(b, 3, t) && WorksTo(a, 4, t);
  }
}
