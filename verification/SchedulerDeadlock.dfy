/**
  Exactly which programs can deadlock: if callbacks never block, those, and only those, with a call whose action or
  completion callback asks the registry something. The run that deadlocks takes one worker and three threads. A callback
  that blocks can lose the lock in any program.
 */
module SchedulerDeadlock {
  import opened WorkerProtocol
  import opened WorkerSafety
  import opened WorkerTheorems
  import opened SchedulerSystem
  import opened SchedulerProgress

  // ----- runs put together

  /** The system can run from `s` to `t`, if so asked without a callback that blocks. */
  ghost predicate Runs(program: Program, polite: bool, s: System, t: System) {
    exists steps: seq<SystemStep> :: (polite ==> AllPolite(steps)) && SystemLeads(program, s, steps, t)
  }

  lemma {:induction false} SystemLeadsJoin(program: Program, a: System, first: seq<SystemStep>, b: System,
                                           second: seq<SystemStep>, c: System)
    requires SystemLeads(program, a, first, b) && SystemLeads(program, b, second, c)
    ensures SystemLeads(program, a, first + second, c)
    decreases |first|
  {
    if first == [] {
      assert first + second == second;
    } else {
      SystemLeadsJoin(program, SystemNext(program, a, first[0]), first[1..], b, second, c);
      assert (first + second)[0] == first[0] && (first + second)[1..] == first[1..] + second;
    }
  }

  lemma RunStep(program: Program, polite: bool, a: System, s: System, step: SystemStep, t: System)
    requires Runs(program, polite, a, s) && SystemEnabled(program, s, step)
    requires polite && step.Begin? ==> Polite(step.request)
    requires t == SystemNext(program, s, step)
    ensures Runs(program, polite, a, t)
  {
    var steps :| (polite ==> AllPolite(steps)) && SystemLeads(program, a, steps, s);
    assert SystemLeads(program, SystemNext(program, s, step), [], t);
    assert [step][1..] == [];
    assert SystemLeads(program, s, [step], t);
    SystemLeadsJoin(program, a, steps, s, [step], t);
    assert polite ==> AllPolite(steps + [step]);
  }

  lemma RunInside(program: Program, polite: bool, a: System, s: System, step: Step, t: System)
    requires Runs(program, polite, a, s) && |s.pool| == 1 && Enabled(s.pool[0], step)
    requires (step.WorkerMoves? ==> !Asks(program, s.pool[0])) && !step.BeginDoJob? && !step.BeginCancel?
    requires t == s.(pool := [Next(EVERY_JOB, s.pool[0], step)])
    ensures Runs(program, polite, a, t)
  {
    assert s.pool[0 := Next(EVERY_JOB, s.pool[0], step)] == [Next(EVERY_JOB, s.pool[0], step)];
    RunStep(program, polite, a, s, InWorker(0, step), t);
  }

  // ----- the run that deadlocks

  /** Thread 2 registers the service that `call` is for. */
  lemma Registered(program: Program, polite: bool, call: Call, s: System)
    requires s == Start(1, 3).(registry := map[call.name := Entry(call.expects, program.names(call.expects))])
    ensures Runs(program, polite, Start(1, 3), s)
  {
    var a := Start(1, 3);
    assert SystemLeads(program, a, [], a) && AllPolite([]);
    var request := Enroll(call.name, call.expects, []);
    var b := SystemNext(program, a, Begin(2, request));
    RunStep(program, polite, a, a, Begin(2, request), b);
    var c := SystemNext(program, b, CallerMoves(2, 0));
    RunStep(program, polite, a, b, CallerMoves(2, 0), c);
    var d := SystemNext(program, c, CallerMoves(2, 0));
    RunStep(program, polite, a, c, CallerMoves(2, 0), d);
    assert d.callers == a.callers && d.duties == a.duties && d.registry == s.registry;
  }

  /** What the worker is when client `i` has pushed the call. */
  function WithPushed(s: State, i: nat, call: Call): State
    requires i < |s.clients|
  {
    var job := Job(|s.past.accepted|, call);
    s.(calls := s.calls + [job], clients := s.clients[i := Pushed(job)],
       past := s.past.(accepted := s.past.accepted + [job]))
  }

  /** Thread `i` makes the call, up to the push. */
  lemma CallPushed(program: Program, polite: bool, a: System, s: System, i: nat, call: Call, t: System)
    requires Runs(program, polite, a, s) && i < |s.callers| == |s.duties| && s.callers[i].Out? && s.duties[i].Free?
    requires s.mappingOwner.Nobody? && call.name in s.registry && call.expects == call.given
    requires s.registry[call.name] == Entry(call.expects, program.names(call.expects))
    requires |s.pool| == 1 && i < |s.pool[0].clients| && s.pool[0].clients[i].Idle? && s.pool[0].queueOwner.Nobody?
    requires call.strand in s.strands ==> s.strands[call.strand] == 0
    requires t == s.(strands := BindStrand(s.strands, call.strand, 0), callers := s.callers[i := Calling(0)],
                     pool := [WithPushed(s.pool[0], i, call)])
    ensures Runs(program, polite, a, t)
  {
    var b := s.(callers := s.callers[i := FirstPoint(AskFor(call))]);
    RunStep(program, polite, a, s, Begin(i, AskFor(call)), b);
    CallFetched(program, polite, a, b, i, call, t);
  }

  /** The operation that makes the call. */
  function AskFor(call: Call): Request {
    Ask(call.name, call.given, Property(true, call.blocking, call.hasDone, call.strand))
  }

  lemma CallFetched(program: Program, polite: bool, a: System, s: System, i: nat, call: Call, t: System)
    requires Runs(program, polite, a, s) && i < |s.callers| == |s.duties| && s.callers[i] == FirstPoint(AskFor(call))
    requires MayTake(s.mappingOwner, i) && call.name in s.registry && call.expects == call.given
    requires s.registry[call.name] == Entry(call.expects, program.names(call.expects))
    requires |s.pool| == 1 && i < |s.pool[0].clients| && s.pool[0].clients[i].Idle? && s.pool[0].queueOwner.Nobody?
    requires call.strand in s.strands ==> s.strands[call.strand] == 0
    requires t == s.(strands := BindStrand(s.strands, call.strand, 0), callers := s.callers[i := Calling(0)],
                     pool := [WithPushed(s.pool[0], i, call)])
    ensures Runs(program, polite, a, t)
  {
    var prop := AskFor(call).prop;
    var c := s.(callers := s.callers[i := Comparing(call.name, call.given, prop, s.registry[call.name])]);
    RunStep(program, polite, a, s, CallerMoves(i, 0), c);
    var d := s.(callers := s.callers[i := Choosing(call, true)]);
    assert c.callers[i := d.callers[i]] == d.callers;
    RunStep(program, polite, a, c, CallerMoves(i, 0), d);
    CallPut(program, polite, a, s, d, i, call, t);
  }

  lemma CallPut(program: Program, polite: bool, a: System, s: System, d: System, i: nat, call: Call, t: System)
    requires Runs(program, polite, a, d) && i < |s.callers| == |s.duties|
    requires d == s.(callers := s.callers[i := Choosing(call, true)])
    requires |s.pool| == 1 && i < |s.pool[0].clients| && s.pool[0].clients[i].Idle? && s.pool[0].queueOwner.Nobody?
    requires call.strand in s.strands ==> s.strands[call.strand] == 0
    requires t == s.(strands := BindStrand(s.strands, call.strand, 0), callers := s.callers[i := Calling(0)],
                     pool := [WithPushed(s.pool[0], i, call)])
    ensures Runs(program, polite, a, t)
  {
    var wanting := s.pool[0].(clients := s.pool[0].clients[i := WantPush(call)]);
    var e := t.(pool := [wanting]);
    assert d.callers[i := Calling(0)] == e.callers && s.pool[0 := wanting] == e.pool;
    RunStep(program, polite, a, d, CallerMoves(i, 0), e);
    assert wanting.clients[i := t.pool[0].clients[i]] == t.pool[0].clients;
    assert e.pool[0 := t.pool[0]] == t.pool;
    RunStep(program, polite, a, e, InWorker(0, ClientMoves(i)), t);
  }

  /** What the worker is when it has started its first job. */
  function WithStarted(s: State, job: Job): State {
    s.(calls := [], load := WORD - 1, executing := true, execOwner := Worker, worker := Executing(job, InAction),
       past := s.past.(log := s.past.log + [ActionStart(job.uid)]))
  }

  /** The worker takes the only job and comes into its action. */
  lemma JobStarted(program: Program, polite: bool, a: System, s: System, job: Job, t: System)
    requires Runs(program, polite, a, s) && |s.pool| == 1 && s.pool[0].calls == [job] && s.pool[0].load == 0
    requires s.pool[0].worker.AtLoop? && s.pool[0].active && s.pool[0].queueOwner.Nobody? && s.pool[0].execOwner.Nobody?
    requires t == s.(pool := [WithStarted(s.pool[0], job)])
    ensures Runs(program, polite, a, t)
  {
    var p := s.pool[0];
    var q := p.(worker := Popped(job), calls := [], queueOwner := Worker);
    JobPopped(program, polite, a, s, p, job, q);
    var r := q.(worker := WantExec(job), load := WORD - 1, queueOwner := Nobody);
    RunInside(program, polite, a, s.(pool := [q]), WorkerMoves, s.(pool := [r]));
    JobEntered(program, polite, a, s.(pool := [r]), r, job, t);
  }

  lemma JobPopped(program: Program, polite: bool, a: System, s: System, p: State, job: Job, q: State)
    requires Runs(program, polite, a, s) && s.pool == [p] && p.calls == [job]
    requires p.worker.AtLoop? && p.active && p.queueOwner.Nobody?
    requires q == p.(worker := Popped(job), calls := [], queueOwner := Worker)
    ensures Runs(program, polite, a, s.(pool := [q]))
  {
    var b := s.(pool := [p.(worker := WantQueue)]);
    RunInside(program, polite, a, s, WorkerMoves, b);
    var c := s.(pool := [p.(worker := Testing, queueOwner := Worker)]);
    RunInside(program, polite, a, b, WorkerMoves, c);
    QueueDrained(program, polite, a, c, c.pool[0], job, s.(pool := [q]));
  }

  lemma QueueDrained(program: Program, polite: bool, a: System, c: System, r: State, job: Job, t: System)
    requires Runs(program, polite, a, c) && c.pool == [r] && r.calls == [job] && r.worker.Testing?
    requires t == c.(pool := [r.(worker := Popped(job), calls := [])])
    ensures Runs(program, polite, a, t)
  {
    var d := c.(pool := [r.(worker := Draining)]);
    RunInside(program, polite, a, c, WorkerMoves, d);
    assert r.calls[1..] == [];
    RunInside(program, polite, a, d, WorkerMoves, t);
  }

  lemma JobEntered(program: Program, polite: bool, a: System, s: System, r: State, job: Job, t: System)
    requires Runs(program, polite, a, s) && s.pool == [r] && r.worker == WantExec(job) && r.execOwner.Nobody?
    requires t == s.(pool := [r.(executing := true, execOwner := Worker, worker := Executing(job, InAction),
                                 past := r.past.(log := r.past.log + [ActionStart(job.uid)]))])
    ensures Runs(program, polite, a, t)
  {
    var g := s.(pool := [r.(worker := Executing(job, Entered), execOwner := Worker)]);
    RunInside(program, polite, a, s, WorkerMoves, g);
    var h := s.(pool := [r.(worker := Executing(job, Marked), execOwner := Worker, executing := true)]);
    RunInside(program, polite, a, g, WorkerMoves, h);
    RunInside(program, polite, a, h, WorkerMoves, t);
  }

  /** Thread 2 unregisters the service, and its cancel meets a queued job of that name. */
  lemma CancelMeetsJob(program: Program, polite: bool, a: System, s: System, id: string, t: System)
    requires Runs(program, polite, a, s) && 2 < |s.callers| == |s.duties| && s.callers[2].Out? && s.duties[2].Free?
    requires s.mappingOwner.Nobody? && id in s.registry && |s.pool| == 1 && 2 < |s.pool[0].clients|
    requires s.pool[0].clients[2].Idle? && s.pool[0].queueOwner.Nobody?
    requires |s.pool[0].calls| == 1 && s.pool[0].calls[0].call.name == id
    requires t == s.(registry := s.registry - {id}, mappingOwner := Client(2),
                     callers := s.callers[2 := InCancel(id, 0)],
                     pool := [s.pool[0].(queueOwner := Client(2), clients := s.pool[0].clients[2 := WantProbe(id, 0)])])
    ensures Runs(program, polite, a, t)
  {
    var b := s.(callers := s.callers[2 := WantUnregister(id)]);
    RunStep(program, polite, a, s, Begin(2, Withdraw(id)), b);
    var c := t.(callers := s.callers[2 := Unregistering(id, 0)], pool := s.pool);
    assert b.callers[2 := Unregistering(id, 0)] == c.callers;
    RunStep(program, polite, a, b, CallerMoves(2, 0), c);
    assert c.callers[2 := InCancel(id, 0)] == t.callers;
    CancelScans(program, polite, a, c, t, id);
  }

  lemma CancelScans(program: Program, polite: bool, a: System, c: System, t: System, id: string)
    requires Runs(program, polite, a, c) && 2 < |c.callers| == |c.duties| && c.callers[2] == Unregistering(id, 0)
    requires |c.pool| == 1 && 2 < |c.pool[0].clients| && c.pool[0].queueOwner.Nobody? && c.pool[0].clients[2].Idle?
    requires |c.pool[0].calls| == 1 && c.pool[0].calls[0].call.name == id
    requires t == c.(callers := c.callers[2 := InCancel(id, 0)],
                     pool := [c.pool[0].(queueOwner := Client(2), clients := c.pool[0].clients[2 := WantProbe(id, 0)])])
    ensures Runs(program, polite, a, t)
  {
    var p := c.pool[0];
    var d := t.(pool := [p.(clients := p.clients[2 := WantCancel(id)])]);
    assert c.pool[0 := d.pool[0]] == d.pool;
    RunStep(program, polite, a, c, CallerMoves(2, 0), d);
    var e := t.(pool := [p.(queueOwner := Client(2), clients := p.clients[2 := Scanning(id, 0)])]);
    assert d.pool[0].clients[2 := Scanning(id, 0)] == e.pool[0].clients;
    RunInside(program, polite, a, d, ClientMoves(2), e);
    assert e.pool[0].clients[2 := WantProbe(id, 0)] == t.pool[0].clients;
    RunInside(program, polite, a, e, ClientMoves(2), t);
  }

  /** The call is made twice, its first job has started, the second is queued, and the service is unregistered. */
  lemma AskingDeadlocks(program: Program, call: Call)
    requires program.asks(call) && call.expects == call.given
    ensures exists s :: PolitelyReachable(program, s) && HeldForEver(program, s, 2)
  {
    var a := Start(1, 3);
    var s1 := a.(registry := map[call.name := Entry(call.expects, program.names(call.expects))]);
    Registered(program, true, call, s1);
    var strands := BindStrand(map[], call.strand, 0);
    var pushed := WithPushed(Init(3), 0, call);
    var s2 := s1.(strands := strands, callers := s1.callers[0 := Calling(0)], pool := [pushed]);
    CallPushed(program, true, a, s1, 0, call, s2);
    var started := WithStarted(pushed, Job(0, call));
    var s3 := s2.(pool := [started]);
    JobStarted(program, true, a, s2, Job(0, call), s3);
    var again := WithPushed(started, 1, call);
    var s4 := s3.(callers := s3.callers[1 := Calling(0)], pool := [again]);
    assert BindStrand(strands, call.strand, 0) == strands;
    CallPushed(program, true, a, s3, 1, call, s4);
    var s5 := s4.(registry := s4.registry - {call.name}, mappingOwner := Client(2),
                  callers := s4.callers[2 := InCancel(call.name, 0)],
                  pool := [again.(queueOwner := Client(2), clients := again.clients[2 := WantProbe(call.name, 0)])]);
    CancelMeetsJob(program, true, a, s4, call.name, s5);
    assert HeldForEver(program, s5, 2);
  }

  // ----- a callback that blocks

  /** What a worker is that was stopped before it had anything to do. */
  function StoppedAtOnce(threads: nat): State {
    Init(threads).(active := false, worker := Exited, stopper := Stopped)
  }

  lemma WorkerStopped(program: Program, a: System)
    requires a == Start(1, 1)
    ensures Runs(program, false, a, a.(pool := [StoppedAtOnce(1)]))
  {
    assert SystemLeads(program, a, [], a);
    var b := a.(pool := [Init(1).(stopper := WantStop)]);
    assert a.pool[0] == Init(1);
    RunInside(program, false, a, a, BeginStop, b);
    var c := a.(pool := [Init(1).(stopper := HoldingEmpty, queueOwner := Stopper)]);
    RunInside(program, false, a, b, StopperMoves, c);
    var d := a.(pool := [Init(1).(stopper := Deactivated, queueOwner := Stopper, active := false)]);
    RunInside(program, false, a, c, StopperMoves, d);
    var e := a.(pool := [d.pool[0].(stopper := StopNotified)]);
    RunInside(program, false, a, d, StopperMoves, e);
    WorkerGone(program, a, e);
  }

  lemma WorkerGone(program: Program, a: System, e: System)
    requires a == Start(1, 1) && Runs(program, false, a, e)
    requires e == a.(pool := [Init(1).(stopper := StopNotified, queueOwner := Stopper, active := false)])
    ensures Runs(program, false, a, a.(pool := [StoppedAtOnce(1)]))
  {
    var f := a.(pool := [Init(1).(stopper := Joining, active := false)]);
    RunInside(program, false, a, e, StopperMoves, f);
    var g := a.(pool := [Init(1).(stopper := Joining, active := false, worker := Exited)]);
    RunInside(program, false, a, f, WorkerMoves, g);
    RunInside(program, false, a, g, StopperMoves, a.(pool := [StoppedAtOnce(1)]));
  }

  /** A thread registers a service, and a watcher makes a blocking call to it, on a worker that has exited: the mapping
      lock is lost, whatever jobs do. */
  lemma BlockingWatcherDeadlocks(program: Program, call: Call)
    requires call.blocking && call.expects == call.given
    ensures exists s :: SystemReachable(program, s) && HeldForEver(program, s, 0) && s.callers[0].Calling?
  {
    var a := Start(1, 1);
    var s := a.(registry := map[call.name := Entry(call.expects, program.names(call.expects))],
                mappingOwner := Client(0), duties := [Notify([])], callers := [FirstPoint(AskFor(call))],
                pool := [StoppedAtOnce(1)]);
    WorkerStopped(program, a);
    WatcherRuns(program, a, a.(pool := [StoppedAtOnce(1)]), call, s);
    var pushed := WithPushed(StoppedAtOnce(1), 0, call);
    var t := s.(strands := BindStrand(map[], call.strand, 0), callers := [Calling(0)], pool := [pushed]);
    CallFetched(program, false, a, s, 0, call, t);
    CallerSleeps(program, a, t, call);
  }

  /** The only thread registers the service and comes to the watcher's call. */
  lemma WatcherRuns(program: Program, a: System, s: System, call: Call, t: System)
    requires Runs(program, false, a, s) && s.callers == [Out] && s.duties == [Free]
    requires s.registry == map[] && s.mappingOwner.Nobody?
    requires t == s.(registry := map[call.name := Entry(call.expects, program.names(call.expects))],
                     mappingOwner := Client(0), duties := [Notify([])], callers := [FirstPoint(AskFor(call))])
    ensures Runs(program, false, a, t)
  {
    var replies := [AskFor(call)];
    var b := s.(callers := [WantRegister(call.name, call.expects, replies)]);
    RunStep(program, false, a, s, Begin(0, Enroll(call.name, call.expects, replies)), b);
    var c := t.(callers := [Out], duties := [Notify(replies)]);
    RunStep(program, false, a, b, CallerMoves(0, 0), c);
    assert replies[1..] == [];
    RunStep(program, false, a, c, CallerMoves(0, 0), t);
  }

  lemma CallerSleeps(program: Program, a: System, s: System, call: Call)
    requires a == Start(1, 1) && Runs(program, false, a, s) && call.blocking
    requires s.mappingOwner == Client(0) && s.callers == [Calling(0)] && s.duties == [Notify([])]
    requires s.pool == [WithPushed(StoppedAtOnce(1), 0, call)]
    ensures exists t :: SystemReachable(program, t) && HeldForEver(program, t, 0) && t.callers[0].Calling?
  {
    var job, p := Job(0, call), WithPushed(StoppedAtOnce(1), 0, call);
    var q := p.(clients := [Notified(job)]);
    assert p.clients[0 := Notified(job)] == q.clients;
    RunInside(program, false, a, s, ClientMoves(0), s.(pool := [q]));
    var r := p.(clients := [FlagTest(job)], load := 1);
    assert q.clients[0 := FlagTest(job)] == r.clients;
    RunInside(program, false, a, s.(pool := [q]), ClientMoves(0), s.(pool := [r]));
    SleeperHolds(program, a, s.(pool := [r]), job);
  }

  lemma SleeperHolds(program: Program, a: System, s: System, job: Job)
    requires a == Start(1, 1) && Runs(program, false, a, s)
    requires s.mappingOwner == Client(0) && s.callers == [Calling(0)] && s.duties == [Notify([])] && |s.pool| == 1
    requires s.pool[0].worker.Exited? && s.pool[0].calls == [job] && s.pool[0].clients == [FlagTest(job)]
    requires job.uid !in s.pool[0].past.flagged
    ensures exists t :: SystemReachable(program, t) && HeldForEver(program, t, 0) && t.callers[0].Calling?
  {
    assert job in s.pool[0].calls && HeldForEver(program, s, 0);
    var steps :| SystemLeads(program, a, steps, s);
    assert SystemReachable(program, s);
  }

  // ----- exactly these programs

  /** The program can come into a state in which the mapping lock is lost, though no callback of its blocks. */
  ghost predicate CanDeadlock(program: Program) {
    exists s, j: nat :: PolitelyReachable(program, s) && HeldForEver(program, s, j)
  }

  /** A program whose callbacks never block can lose the mapping lock for ever if and only if one of its calls that can
      pass the type check asks the registry something. */
  lemma DeadlocksIffAsks(program: Program)
    requires Injective(program.names)
    ensures CanDeadlock(program) <==> exists call :: program.asks(call) && call.expects == call.given
  {
    if CanDeadlock(program) {
      var s, j: nat :| PolitelyReachable(program, s) && HeldForEver(program, s, j);
      AskerIsTyped(program, s, j);
    }
    if call :| program.asks(call) && call.expects == call.given {
      AskingDeadlocks(program, call);
    }
  }

  lemma AskerIsTyped(program: Program, s: System, j: nat)
    requires Injective(program.names) && PolitelyReachable(program, s) && HeldForEver(program, s, j)
    ensures exists call :: program.asks(call) && call.expects == call.given
  {
    OnlyAskersDeadlock(program, s, j);
    PolitelyReachableInv(program, s);
    SystemReachableInv(program, s);
    var w := s.callers[j].w;
    JobInHandIsTyped(s.strands, w, s.pool[w]);
    assert program.asks(s.pool[w].worker.job.call);
  }

  lemma JobInHandIsTyped(strands: map<string, nat>, w: nat, s: State)
    requires ConservationInv(s) && AllPlaced(strands, w, s) && InHand(s.worker) != []
    ensures InHand(s.worker)[0].call.expects == InHand(s.worker)[0].call.given
  {
    var job := InHand(s.worker)[0];
    SurvivorsExact(s.past.accepted, s.past.cancelled);
    assert job in s.past.executed + InHand(s.worker) + s.calls;
    assert job in s.past.accepted && Placed(strands, w, job.call);
  }
}
