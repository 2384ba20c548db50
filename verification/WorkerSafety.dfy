/** Every step of the worker protocol keeps its invariant, whatever the interleaving. */
module WorkerSafety {
  import opened WorkerProtocol

  // ----- the locks and the program points

  lemma LockKeptByWorker(s: State)
    requires LockInv(s) && ScanInv(s) && WorkerEnabled(s)
    ensures LockInv(WorkerNext(s)) && ScanInv(WorkerNext(s))
  {
    if s.worker.Executing? {
      LockKeptByRun(s);
    }
  }

  lemma LockKeptByRun(s: State)
    requires LockInv(s) && ScanInv(s) && s.worker.Executing?
    ensures LockInv(WorkerNext(s)) && ScanInv(WorkerNext(s))
  {
    RunKeepsClients(s);
    LockFrameOfRun(s, WorkerNext(s));
  }

  /** What running a job does to the clients does not concern their locks. */
  lemma RunKeepsClients(s: State)
    requires s.worker.Executing?
    ensures |WorkerNext(s).clients| == |s.clients|
    ensures forall i :: 0 <= i < |s.clients| && !s.clients[i].Dozing? ==>
      SameLocks(s.clients[i], WorkerNext(s).clients[i])
  {
  }

  predicate SameLocks(c: ClientPc, d: ClientPc) {
    d == c || (c.FlagAsleep? && d.FlagAsleep?)
  }

  lemma LockFrameOfRun(s: State, s': State)
    requires LockInv(s) && ScanInv(s) && s.worker.Executing? && |s'.clients| == |s.clients|
    requires forall i :: 0 <= i < |s.clients| ==> SameLocks(s.clients[i], s'.clients[i])
    requires s'.queueOwner == s.queueOwner && s'.stopper == s.stopper && s'.calls == s.calls
    requires s'.execOwner == if s'.worker.Executing? then Worker else Nobody
    requires !QueueHeldByWorker(s'.worker)
    requires s'.executing <==> s'.worker.Executing? && !s'.worker.phase.Entered? && !s'.worker.phase.Cleared?
    ensures LockInv(s') && ScanInv(s')
  {
    forall i | 0 <= i < |s'.clients| ensures ClientLocks(s'.queueOwner, s'.execOwner, i, s'.clients[i]) {
      assert ClientLocks(s.queueOwner, s.execOwner, i, s.clients[i]);
    }
  }

  lemma LockKeptByClient(remove: Removal, s: State, i: nat)
    requires LockInv(s) && ScanInv(s) && ClientEnabled(s, i)
    ensures LockInv(ClientNext(remove, s, i))
  {
    var s' := ClientNext(remove, s, i);
    assert ClientLocks(s.queueOwner, s.execOwner, i, s.clients[i]);
    LockFrame(s, s', i);
  }

  lemma ScanKeptByClient(remove: Removal, s: State, i: nat)
    requires LockInv(s) && ScanInv(s) && ClientEnabled(s, i)
    ensures ScanInv(ClientNext(remove, s, i))
  {
    assert ClientLocks(s.queueOwner, s.execOwner, i, s.clients[i]);
    if QueueHeldByClient(s.clients[i]) {
      NobodyElseScans(s, i);
    }
    ScanFrame(s, ClientNext(remove, s, i), i);
  }

  lemma NobodyElseScans(s: State, i: nat)
    requires LockInv(s) && i < |s.clients| && QueueHeldByClient(s.clients[i])
    ensures forall j :: 0 <= j < |s.clients| && j != i ==> !QueueHeldByClient(s.clients[j])
  {
    assert ClientLocks(s.queueOwner, s.execOwner, i, s.clients[i]);
    forall j | 0 <= j < |s.clients| && j != i ensures !QueueHeldByClient(s.clients[j]) {
      assert ClientLocks(s.queueOwner, s.execOwner, j, s.clients[j]);
    }
  }

  predicate ScansWithin(c: ClientPc, queued: nat) {
    match c
    case Dozing(_, _) => false
    case Scanning(_, k) => k <= queued
    case WantProbe(_, k) => k < queued
    case Probing(_, k) => k < queued
    case _ => true
  }

  lemma ScanFrame(s: State, s': State, i: nat)
    requires ScanInv(s) && i < |s.clients| == |s'.clients| && s'.clients == s.clients[i := s'.clients[i]]
    requires ScansWithin(s'.clients[i], |s'.calls|)
    requires |s.calls| <= |s'.calls| || forall j :: 0 <= j < |s.clients| && j != i ==> !QueueHeldByClient(s.clients[j])
    ensures ScanInv(s')
  {
  }

  predicate Lockless(w: WorkerPc) { !QueueHeldByWorker(w) && !w.Executing? }

  predicate TakesOrLeaves(i: nat, before: Owner, after: Owner) {
    after == before || (before.Nobody? && after == Client(i)) || (before == Client(i) && after.Nobody?)
  }

  /** Only client `i` moves, taking or leaving locks for itself alone. */
  lemma LockFrame(s: State, s': State, i: nat)
    requires LockInv(s) && ScanInv(s) && i < |s.clients|
    requires |s'.clients| == |s.clients| && s'.clients == s.clients[i := s'.clients[i]]
    requires s'.stopper == s.stopper && s'.executing == s.executing
    requires s'.worker == s.worker || (Lockless(s.worker) && Lockless(s'.worker))
    requires TakesOrLeaves(i, s.queueOwner, s'.queueOwner) && TakesOrLeaves(i, s.execOwner, s'.execOwner)
    requires ClientLocks(s'.queueOwner, s'.execOwner, i, s'.clients[i])
    ensures LockInv(s')
  {
    forall j | 0 <= j < |s'.clients|
      ensures ClientLocks(s'.queueOwner, s'.execOwner, j, s'.clients[j])
    {
      assert ClientLocks(s.queueOwner, s.execOwner, j, s.clients[j]);
    }
  }

  lemma LockKeptByOthers(remove: Removal, s: State, step: Step)
    requires LockInv(s) && ScanInv(s) && StopInv(s) && Enabled(s, step) && !step.WorkerMoves? && !step.ClientMoves?
    ensures LockInv(Next(remove, s, step)) && ScanInv(Next(remove, s, step))
  {
    match step
    case StopperMoves => LockKeptByStopper(s);
    case ClientSpurious(i) => LockKeptByIdle(s, i, Next(remove, s, step).clients[i]);
    case BeginDoJob(i, call) => LockKeptByIdle(s, i, WantPush(call));
    case BeginCancel(i, name) => LockKeptByIdle(s, i, WantCancel(name));
    case _ =>
  }

  lemma LockKeptByStopper(s: State)
    requires LockInv(s) && ScanInv(s) && StopInv(s) && StopperEnabled(s)
    ensures LockInv(StopperNext(s)) && ScanInv(StopperNext(s))
  {
    forall i | 0 <= i < |s.clients|
      ensures ClientLocks(StopperNext(s).queueOwner, s.execOwner, i, s.clients[i])
    {
      assert ClientLocks(s.queueOwner, s.execOwner, i, s.clients[i]);
    }
  }

  /** A client that holds no lock moves outside the locks. */
  lemma LockKeptByIdle(s: State, i: nat, c: ClientPc)
    requires LockInv(s) && ScanInv(s) && i < |s.clients| && !QueueHeldByClient(s.clients[i]) && !QueueHeldByClient(c)
    ensures LockInv(s.(clients := s.clients[i := c])) && ScanInv(s.(clients := s.clients[i := c]))
  {
    assert ClientLocks(s.queueOwner, s.execOwner, i, s.clients[i]);
    LockFrame(s, s.(clients := s.clients[i := c]), i);
    ScanFrame(s, s.(clients := s.clients[i := c]), i);
  }

  // ----- sleeping, waking and stopping

  lemma WakeKeptByClient(remove: Removal, s: State, i: nat)
    requires LockInv(s) && StopInv(s) && WakeInv(s) && ClientEnabled(s, i)
    ensures WakeInv(ClientNext(remove, s, i))
  {
    var s' := ClientNext(remove, s, i);
    if s'.worker == Asleep(false) && s'.calls != [] {
      if s.clients[i].WantPush? {
        assert s'.clients[i].Pushed?;
      } else if s.calls != [] {
        var j :| 0 <= j < |s.clients| && s.clients[j].Pushed?;
        assert s'.clients[j].Pushed?;
      }
    }
  }

  lemma WakeKept(remove: Removal, s: State, step: Step)
    requires LockInv(s) && StopInv(s) && WakeInv(s) && Enabled(s, step)
    ensures WakeInv(Next(remove, s, step))
  {
    match step
    case ClientMoves(i) => WakeKeptByClient(remove, s, i);
    case ClientSpurious(i) => WakeKeptByIdle(s, i, Next(remove, s, step).clients[i]);
    case BeginDoJob(i, call) => WakeKeptByIdle(s, i, WantPush(call));
    case BeginCancel(i, name) => WakeKeptByIdle(s, i, WantCancel(name));
    case _ =>
  }

  lemma WakeKeptByIdle(s: State, i: nat, c: ClientPc)
    requires WakeInv(s) && i < |s.clients| && !s.clients[i].Pushed?
    ensures WakeInv(s.(clients := s.clients[i := c]))
  {
    if s.worker == Asleep(false) && s.calls != [] {
      var j :| 0 <= j < |s.clients| && s.clients[j].Pushed?;
      assert s.clients[i := c][j].Pushed?;
    }
  }

  lemma StopKept(remove: Removal, s: State, step: Step)
    requires LockInv(s) && ConservationInv(s) && StopInv(s) && WakeInv(s) && Enabled(s, step)
    ensures StopInv(Next(remove, s, step))
  {
    match step
    case WorkerMoves =>
    case ClientMoves(i) => StopKeptByClient(remove, s, i);
    case _ => StopKeptByOthers(remove, s, step);
  }

  lemma StopKeptByClient(remove: Removal, s: State, i: nat)
    requires LockInv(s) && ConservationInv(s) && StopInv(s) && ClientEnabled(s, i)
    ensures StopInv(ClientNext(remove, s, i))
  {
    assert ClientLocks(s.queueOwner, s.execOwner, i, s.clients[i]);
    if s.clients[i].Scanning? {
      StopKeptByScan(remove, s, i);
    }
  }

  lemma StopKeptByScan(remove: Removal, s: State, i: nat)
    requires StopInv(s) && ClientEnabled(s, i) && s.clients[i].Scanning?
    ensures StopInv(ClientNext(remove, s, i))
  {
    KeptWithin(remove, s.clients[i].name, s.calls);
  }

  lemma StopKeptByOthers(remove: Removal, s: State, step: Step)
    requires LockInv(s) && StopInv(s) && Enabled(s, step) && !step.WorkerMoves? && !step.ClientMoves?
    ensures StopInv(Next(remove, s, step))
  {
  }

  lemma {:induction false} KeptWithin(remove: Removal, name: string, jobs: seq<Job>)
    ensures forall job :: job in Kept(remove, name, jobs) <==> job in jobs && !remove(name, job)
    ensures |Kept(remove, name, jobs)| <= |jobs|
  {
    if jobs != [] {
      KeptWithin(remove, name, jobs[1..]);
      assert jobs == [jobs[0]] + jobs[1..];
    }
  }

  // ----- the log of events

  lemma LogKept(remove: Removal, s: State, step: Step)
    requires LogInv(s) && Enabled(s, step)
    ensures LogInv(Next(remove, s, step))
  {
    match step
    case WorkerMoves =>
      if s.worker.Executing? {
        LogKeptByRun(s, s.worker.job, s.worker.phase);
      } else {
        LogFrame(s, WorkerNext(s));
      }
    case ClientMoves(i) => LogFrame(s, ClientNext(remove, s, i));
    case StopperMoves => LogFrame(s, StopperNext(s));
    case _ =>
  }

  lemma LogFrame(s: State, s': State)
    requires LogInv(s) && s'.past.log == s.past.log && s'.past.executed == s.past.executed
    requires s'.worker == s.worker || RunSoFar(s'.worker) == RunSoFar(s.worker) == []
    requires s'.worker.Executing? && s'.worker.phase.InDone? ==> s'.worker == s.worker
    ensures LogInv(s')
  {
  }

  lemma LogKeptByRun(s: State, job: Job, phase: Phase)
    requires LogInv(s) && s.worker == Executing(job, phase)
    ensures LogInv(RunNext(s, job, phase))
  {
    var s' := RunNext(s, job, phase);
    match phase
    case Entered | Returned | Cleared => LogFrame(s, s');
    case AfterDone => LogKeptByReturn(s, s', job);
    case Marked | InAction | AfterAction | InDone =>
      PerformedGrows(job, phase);
      LogExtended(s, s', Emitted(job, phase));
  }

  lemma LogExtended(s: State, s': State, events: seq<Event>)
    requires LogInv(s) && s'.past.executed == s.past.executed
    requires s'.past.log == s.past.log + events && RunSoFar(s'.worker) == RunSoFar(s.worker) + events
    requires s'.worker.Executing? && s'.worker.phase.InDone? ==> s'.worker.job.call.hasDone
    ensures LogInv(s')
  {
  }

  lemma LogKeptByReturn(s: State, s': State, job: Job)
    requires LogInv(s) && RunSoFar(s.worker) == RunOf(job) && RunSoFar(s'.worker) == []
    requires s'.past.log == s.past.log && s'.past.executed == s.past.executed + [job]
    requires s'.worker == Executing(job, Returned)
    ensures LogInv(s')
  {
    RunsOfSnoc(s.past.executed, job);
  }

  lemma PerformedGrows(job: Job, phase: Phase)
    requires phase.Marked? || phase.InAction? || phase.AfterAction? || (phase.InDone? && job.call.hasDone)
    ensures Performed(job, Following(job, phase)) == Performed(job, phase) + Emitted(job, phase)
  {
  }

  lemma RunsOfSnoc(jobs: seq<Job>, job: Job)
    ensures RunsOf(jobs + [job]) == RunsOf(jobs) + RunOf(job)
  {
    assert (jobs + [job])[..|jobs|] == jobs;
  }

  // ----- the flags of blocking calls

  lemma FlagKept(remove: Removal, s: State, step: Step)
    requires FlagInv(s) && Enabled(s, step)
    ensures FlagInv(Next(remove, s, step))
  {
    match step
    case WorkerMoves => FlagKeptByWorker(s);
    case ClientMoves(i) => FlagKeptByClient(remove, s, i);
    case StopperMoves => FlagFrame(s, StopperNext(s));
    case _ =>
  }

  lemma FlagKeptByWorker(s: State)
    requires FlagInv(s) && WorkerEnabled(s)
    ensures FlagInv(WorkerNext(s))
  {
    if s.worker.Executing? && s.worker.phase.AfterDone? {
      FlagKeptByRaise(s, s.worker.job);
    } else {
      FlagFrame(s, WorkerNext(s));
    }
  }

  lemma FlagFrame(s: State, s': State)
    requires FlagInv(s)
    requires s'.past.executed == s.past.executed && s'.past.flagged == s.past.flagged
    requires s'.past.returned == s.past.returned && s'.past.accepted == s.past.accepted
    requires s'.clients == s.clients || s'.clients == RingExec(s.clients)
    ensures FlagInv(s')
  {
    forall i | 0 <= i < |s'.clients| ensures ClientJobInv(s', s'.clients[i]) {
      assert ClientJobInv(s, s.clients[i]);
    }
  }

  lemma FlagKeptByRaise(s: State, job: Job)
    requires FlagInv(s)
    ensures FlagInv(RunNext(s, job, AfterDone))
  {
    var s' := RunNext(s, job, AfterDone);
    assert s'.past.executed == s.past.executed + [job];
    forall i | 0 <= i < |s'.clients| ensures ClientJobInv(s', s'.clients[i]) {
      assert ClientJobInv(s, s.clients[i]);
    }
  }

  lemma FlagKeptByClient(remove: Removal, s: State, i: nat)
    requires FlagInv(s) && ClientEnabled(s, i)
    ensures FlagInv(ClientNext(remove, s, i))
  {
    var s' := ClientNext(remove, s, i);
    assert ClientJobInv(s, s.clients[i]);
    FlagFrameOfClient(s, s', i);
  }

  lemma FlagFrameOfClient(s: State, s': State, i: nat)
    requires FlagInv(s) && i < |s.clients| && |s'.clients| == |s.clients|
    requires s'.past.executed == s.past.executed && s'.past.flagged == s.past.flagged
    requires s'.past.returned <= s.past.flagged
    requires s.past.accepted <= s'.past.accepted
    requires s'.clients == s.clients[i := s'.clients[i]] && ClientJobInv(s', s'.clients[i])
    ensures FlagInv(s')
  {
    forall j | 0 <= j < |s'.clients| ensures ClientJobInv(s', s'.clients[j]) {
      assert ClientJobInv(s, s.clients[j]);
    }
  }

  // ----- the load counter

  lemma {:induction false} InFlightUpdate(clients: seq<ClientPc>, i: nat, c: ClientPc)
    requires i < |clients|
    ensures InFlight(clients[i := c]) - (if Counting(c) then 1 else 0)
         == InFlight(clients) - (if Counting(clients[i]) then 1 else 0)
  {
    if i == 0 {
      assert clients[i := c][1..] == clients[1..];
    } else {
      InFlightUpdate(clients[1..], i - 1, c);
      assert clients[i := c][1..] == clients[1..][i - 1 := c];
    }
  }

  lemma {:induction false} InFlightSame(a: seq<ClientPc>, b: seq<ClientPc>)
    requires |a| == |b| && forall i :: 0 <= i < |a| ==> (Counting(a[i]) <==> Counting(b[i]))
    ensures InFlight(a) == InFlight(b)
  {
    if a != [] {
      InFlightSame(a[1..], b[1..]);
    }
  }

  lemma LoadKept(remove: Removal, s: State, step: Step)
    requires LockInv(s) && LoadInv(s) && Enabled(s, step)
    ensures LoadInv(Next(remove, s, step))
  {
    match step
    case WorkerMoves => LoadKeptByWorker(s);
    case ClientMoves(i) => LoadKeptByClient(remove, s, i);
    case ClientSpurious(i) => LoadFrame(s, Next(remove, s, step), i, 0);
    case BeginDoJob(i, call) => LoadFrame(s, Next(remove, s, step), i, 0);
    case BeginCancel(i, name) => LoadFrame(s, Next(remove, s, step), i, 0);
    case _ =>
  }

  /** Client `i` moves and changes the counter by `delta`. */
  lemma LoadFrame(s: State, s': State, i: nat, delta: int)
    requires LoadInv(s) && i < |s.clients| == |s'.clients|
    requires s'.clients == s.clients[i := s'.clients[i]] && !s.clients[i].Erased?
    requires s'.worker.Popped? == s.worker.Popped? && s'.past.uncounted == s.past.uncounted
    requires s'.load == if delta == 0 then s.load else (s.load + delta) % WORD
    requires !s'.clients[i].Erased? ==>
      |s'.calls| - (if Counting(s'.clients[i]) then 1 else 0)
        == |s.calls| - (if Counting(s.clients[i]) then 1 else 0) + delta
    ensures LoadInv(s')
  {
    InFlightUpdate(s.clients, i, s'.clients[i]);
    PendingKept(s, s', i);
    if !s'.clients[i].Erased? {
      assert TrueLoad(s') == TrueLoad(s) + delta;
    }
  }

  lemma PendingKept(s: State, s': State, i: nat)
    requires i < |s.clients| == |s'.clients|
    requires s'.clients == s.clients[i := s'.clients[i]] && !s.clients[i].Erased?
    ensures StorePending(s') <==> StorePending(s) || s'.clients[i].Erased?
  {
    if StorePending(s) {
      var j :| 0 <= j < |s.clients| && s.clients[j].Erased?;
      assert s'.clients[j].Erased?;
    }
    if StorePending(s') {
      var j :| 0 <= j < |s'.clients| && s'.clients[j].Erased?;
      assert j != i ==> s.clients[j].Erased?;
    }
  }

  lemma LoadKeptByWorker(s: State)
    requires LockInv(s) && LoadInv(s) && WorkerEnabled(s)
    ensures LoadInv(WorkerNext(s))
  {
    var s' := WorkerNext(s);
    if s.worker.Executing? {
      RingKeepsCount(s, s', s.worker.job.uid);
    } else if s.worker.Popped? {
      assert TrueLoad(s') == TrueLoad(s) - 1;
    } else {
      assert TrueLoad(s') == TrueLoad(s) && s'.load == s.load;
    }
  }

  lemma RingKeepsCount(s: State, s': State, uid: nat)
    requires LoadInv(s) && s'.load == s.load && s'.calls == s.calls && s'.past.uncounted == s.past.uncounted
    requires !s'.worker.Popped? && !s.worker.Popped?
    requires s'.clients in {s.clients, RingFlag(s.clients, uid), RingExec(s.clients)}
    ensures LoadInv(s')
  {
    InFlightSame(s.clients, s'.clients);
    if StorePending(s) {
      var j :| 0 <= j < |s.clients| && s.clients[j].Erased?;
      assert s'.clients[j].Erased?;
    }
  }

  lemma LoadKeptByClient(remove: Removal, s: State, i: nat)
    requires LockInv(s) && LoadInv(s) && ClientEnabled(s, i)
    ensures LoadInv(ClientNext(remove, s, i))
  {
    if s.clients[i].Erased? {
      assert ClientLocks(s.queueOwner, s.execOwner, i, s.clients[i]);
      LoadStored(remove, s, i);
    } else if s.clients[i].Scanning? {
      LoadKeptByScan(remove, s, i);
    } else {
      LoadFrame(s, ClientNext(remove, s, i), i, if s.clients[i].Notified? then 1 else 0);
    }
  }

  lemma LoadKeptByScan(remove: Removal, s: State, i: nat)
    requires LoadInv(s) && ClientEnabled(s, i) && s.clients[i].Scanning?
    ensures LoadInv(ClientNext(remove, s, i))
  {
    if s.clients[i].k >= |s.calls| {
      assert ClientNext(remove, s, i).clients[i].Erased?;
    } else {
      LoadFrame(s, ClientNext(remove, s, i), i, 0);
    }
  }

  lemma LoadStored(remove: Removal, s: State, i: nat)
    requires ClientEnabled(s, i) && s.clients[i].Erased? && !s.worker.Popped?
    ensures LoadInv(ClientNext(remove, s, i))
  {
    InFlightUpdate(s.clients, i, Idle);
    assert TrueLoad(ClientNext(remove, s, i)) == |s.calls|;
  }

  // ----- conservation of accepted jobs

  /** `jobs` without those whose identity is in `gone`. */
  function Without(jobs: seq<Job>, gone: set<nat>): seq<Job> {
    if jobs == [] then []
    else (if jobs[0].uid in gone then [] else [jobs[0]]) + Without(jobs[1..], gone)
  }

  lemma {:induction false} WithoutAppend(a: seq<Job>, b: seq<Job>, gone: set<nat>)
    ensures Without(a + b, gone) == Without(a, gone) + Without(b, gone)
  {
    if a == [] {
      assert a + b == b;
    } else {
      assert (a + b)[0] == a[0] && (a + b)[1..] == a[1..] + b;
      WithoutAppend(a[1..], b, gone);
      var head := if a[0].uid in gone then [] else [a[0]];
      assert Without(a + b, gone) == head + (Without(a[1..], gone) + Without(b, gone));
    }
  }

  lemma {:induction false} WithoutNone(jobs: seq<Job>, gone: set<nat>)
    requires forall k :: 0 <= k < |jobs| ==> jobs[k].uid !in gone
    ensures Without(jobs, gone) == jobs
  {
    if jobs != [] {
      WithoutNone(jobs[1..], gone);
    }
  }

  lemma {:induction false} KeptIsWithout(remove: Removal, name: string, jobs: seq<Job>, gone: set<nat>)
    requires forall k :: 0 <= k < |jobs| ==> (jobs[k].uid in gone <==> remove(name, jobs[k]))
    ensures Kept(remove, name, jobs) == Without(jobs, gone)
  {
    if jobs != [] {
      KeptIsWithout(remove, name, jobs[1..], gone);
    }
  }

  lemma {:induction false} SurvivorsShrink(accepted: seq<Job>, cancelled: set<nat>, gone: set<nat>)
    ensures Survivors(accepted, cancelled + gone) == Without(Survivors(accepted, cancelled), gone)
  {
    if accepted != [] {
      var front, last := accepted[..|accepted| - 1], accepted[|accepted| - 1];
      SurvivorsShrink(front, cancelled, gone);
      WithoutAppend(Survivors(front, cancelled), if last.uid in cancelled then [] else [last], gone);
    }
  }

  ghost predicate Increasing(jobs: seq<Job>) {
    forall i, j :: 0 <= i < j < |jobs| ==> jobs[i].uid < jobs[j].uid
  }

  /** The survivors are exactly the accepted, uncancelled jobs, each once, in the order of acceptance. */
  lemma {:induction false} SurvivorsExact(accepted: seq<Job>, cancelled: set<nat>)
    requires Numbered(accepted)
    ensures Increasing(Survivors(accepted, cancelled))
    ensures forall job :: job in Survivors(accepted, cancelled) <==> job in accepted && job.uid !in cancelled
  {
    if accepted != [] {
      var front, last := accepted[..|accepted| - 1], accepted[|accepted| - 1];
      SurvivorsExact(front, cancelled);
      assert accepted == front + [last];
    }
  }

  lemma SurvivorsErase(remove: Removal, name: string, accepted: seq<Job>, cancelled: set<nat>, front: seq<Job>,
                       queue: seq<Job>)
    requires Numbered(accepted) && Survivors(accepted, cancelled) == front + queue
    ensures Survivors(accepted, cancelled + Dropped(remove, name, queue)) == front + Kept(remove, name, queue)
    ensures forall uid :: uid in Dropped(remove, name, queue) ==> uid < |accepted|
  {
    var gone := Dropped(remove, name, queue);
    SurvivorsExact(accepted, cancelled);
    forall k | 0 <= k < |queue| ensures queue[k].uid in gone <==> remove(name, queue[k]) {
      DistinctQueue(front, queue);
    }
    forall k | 0 <= k < |front| ensures front[k].uid !in gone {
      DistinctQueue(front, queue);
    }
    forall job | job in queue ensures job.uid < |accepted| {
      assert job in front + queue;
    }
    SurvivorsShrink(accepted, cancelled, gone);
    WithoutAppend(front, queue, gone);
    WithoutNone(front, gone);
    KeptIsWithout(remove, name, queue, gone);
  }

  lemma DistinctQueue(front: seq<Job>, queue: seq<Job>)
    requires Increasing(front + queue)
    ensures forall i, j :: 0 <= i < |queue| && 0 <= j < |queue| && queue[i].uid == queue[j].uid ==> i == j
    ensures forall i, j :: 0 <= i < |front| && 0 <= j < |queue| ==> front[i].uid != queue[j].uid
  {
    var all := front + queue;
    forall i, j | 0 <= i < |queue| && 0 <= j < |queue| && queue[i].uid == queue[j].uid ensures i == j {
      assert all[|front| + i] == queue[i] && all[|front| + j] == queue[j];
    }
    forall i, j | 0 <= i < |front| && 0 <= j < |queue| ensures front[i].uid != queue[j].uid {
      assert all[i] == front[i] && all[|front| + j] == queue[j];
    }
  }

  lemma ConservationKept(remove: Removal, s: State, step: Step)
    requires ConservationInv(s) && Enabled(s, step)
    ensures ConservationInv(Next(remove, s, step))
  {
    match step
    case WorkerMoves => ConservationKeptByWorker(s);
    case ClientMoves(i) => ConservationKeptByClient(remove, s, i);
    case _ =>
  }

  lemma ConservationKeptByWorker(s: State)
    requires ConservationInv(s) && WorkerEnabled(s)
    ensures ConservationInv(WorkerNext(s))
  {
    JobsKeptByWorker(s);
  }

  lemma JobsKeptByWorker(s: State)
    requires WorkerEnabled(s)
    ensures WorkerNext(s).past.accepted == s.past.accepted && WorkerNext(s).past.cancelled == s.past.cancelled
    ensures WorkerNext(s).past.executed + InHand(WorkerNext(s).worker) + WorkerNext(s).calls
         == s.past.executed + InHand(s.worker) + s.calls
  {
    if s.worker.Executing? {
      HandKeptByRun(s, s.worker.job, s.worker.phase);
    } else if s.worker.Draining? && s.calls != [] {
      var executed, first, rest := s.past.executed, s.calls[0], s.calls[1..];
      assert executed + [] + s.calls == executed + [first] + rest;
    }
  }

  lemma HandKeptByRun(s: State, job: Job, phase: Phase)
    requires s.worker == Executing(job, phase)
    ensures RunNext(s, job, phase).past.executed + InHand(RunNext(s, job, phase).worker)
         == s.past.executed + InHand(s.worker)
  {
    if phase.AfterDone? {
      assert s.past.executed + [job] + [] == s.past.executed + [job];
    }
  }

  /** A new job joins the survivors at the end. */
  lemma SurvivorsSnoc(accepted: seq<Job>, cancelled: set<nat>, front: seq<Job>, calls: seq<Job>, job: Job)
    requires Survivors(accepted, cancelled) == front + calls && job.uid !in cancelled
    ensures Survivors(accepted + [job], cancelled) == front + (calls + [job])
  {
    assert (accepted + [job])[..|accepted|] == accepted;
    assert front + calls + [job] == front + (calls + [job]);
  }

  lemma ConservationKeptByClient(remove: Removal, s: State, i: nat)
    requires ConservationInv(s) && ClientEnabled(s, i)
    ensures ConservationInv(ClientNext(remove, s, i))
  {
    match s.clients[i]
    case WantPush(call) => ConservationKeptByPush(remove, s, i);
    case Scanning(name, k) => ConservationKeptByScan(remove, s, i);
    case _ =>
  }

  lemma ConservationKeptByPush(remove: Removal, s: State, i: nat)
    requires ConservationInv(s) && ClientEnabled(s, i) && s.clients[i].WantPush?
    ensures ConservationInv(ClientNext(remove, s, i))
  {
    SurvivorsSnoc(s.past.accepted, s.past.cancelled, s.past.executed + InHand(s.worker), s.calls,
                  Job(|s.past.accepted|, s.clients[i].call));
  }

  lemma ConservationKeptByScan(remove: Removal, s: State, i: nat)
    requires ConservationInv(s) && ClientEnabled(s, i) && s.clients[i].Scanning?
    ensures ConservationInv(ClientNext(remove, s, i))
  {
    if s.clients[i].k >= |s.calls| {
      SurvivorsErase(remove, s.clients[i].name, s.past.accepted, s.past.cancelled,
                     s.past.executed + InHand(s.worker), s.calls);
    }
  }

  // ----- the invariant as a whole

  lemma InvInit(threads: nat)
    ensures Inv(Init(threads))
  {
    NoneInFlight(Init(threads).clients);
  }

  lemma {:induction false} NoneInFlight(clients: seq<ClientPc>)
    requires forall i :: 0 <= i < |clients| ==> !Counting(clients[i])
    ensures InFlight(clients) == 0
  {
    if clients != [] {
      NoneInFlight(clients[1..]);
    }
  }

  lemma InvKept(remove: Removal, s: State, step: Step)
    requires Inv(s) && Enabled(s, step)
    ensures Inv(Next(remove, s, step))
  {
    match step {
      case WorkerMoves => LockKeptByWorker(s);
      case ClientMoves(i) => LockKeptByClient(remove, s, i); ScanKeptByClient(remove, s, i);
      case _ => LockKeptByOthers(remove, s, step);
    }
    ConservationKept(remove, s, step);
    LogKept(remove, s, step);
    WakeKept(remove, s, step);
    StopKept(remove, s, step);
    FlagKept(remove, s, step);
    LoadKept(remove, s, step);
  }
}
