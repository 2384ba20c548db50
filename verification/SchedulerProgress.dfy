/**
  Progress of the whole scheduler: what it comes to rest in, exactly when the mapping lock is lost for ever, and that
  its threads run out of internal steps.
 */
module SchedulerProgress {
  import opened WorkerProtocol
  import opened WorkerSafety
  import opened WorkerTheorems
  import opened WorkerProgress
  import opened WorkerCalls
  import opened SchedulerSystem

  /** Every step but a new operation, a spurious wakeup or a fruitless poll of `stop`. */
  predicate SystemInternal(step: SystemStep) {
    step.CallerMoves? || (step.InWorker? && Internal(step.step))
  }

  ghost predicate NobodyMoves(program: Program, s: System) {
    forall step :: SystemInternal(step) ==> !SystemEnabled(program, s, step)
  }

  // ----- a worker whose job is held up

  /** Nobody can move in the worker, except that the worker may stand at a job that is held up elsewhere. */
  ghost predicate Halted(s: State) {
    && (WorkerEnabled(s) ==> s.worker.Executing?)
    && !StopperEnabled(s) && forall i :: 0 <= i < |s.clients| ==> !ClientEnabled(s, i)
  }

  lemma HaltedEverywhere(program: Program, s: System)
    requires NobodyMoves(program, s)
    ensures forall i: nat, idle: nat :: !CallerEnabled(program, s, i, idle)
    ensures forall w :: 0 <= w < |s.pool| ==> Halted(s.pool[w])
    ensures forall w :: 0 <= w < |s.pool| && (Asks(program, s.pool[w]) ==> s.mappingOwner.Nobody?) ==> Stuck(s.pool[w])
  {
    forall i: nat, idle: nat ensures !CallerEnabled(program, s, i, idle) {
      assert !SystemEnabled(program, s, CallerMoves(i, idle));
    }
    forall w | 0 <= w < |s.pool|
      ensures Halted(s.pool[w]) && ((Asks(program, s.pool[w]) ==> s.mappingOwner.Nobody?) ==> Stuck(s.pool[w]))
    {
      assert !SystemEnabled(program, s, InWorker(w, WorkerMoves));
      assert !SystemEnabled(program, s, InWorker(w, StopperMoves));
      forall i | 0 <= i < |s.pool[w].clients| ensures !ClientEnabled(s.pool[w], i) {
        assert !SystemEnabled(program, s, InWorker(w, ClientMoves(i)));
      }
    }
  }

  /** A cancel that has the queue lock and waits for the running job to end. */
  predicate ProbesInVain(s: State, i: nat) {
    i < |s.clients| && s.clients[i].WantProbe? && s.queueOwner == Client(i) && s.worker.Executing?
  }

  /** Client `i` can wait at these points only. */
  ghost predicate WaitingPoint(s: State, i: nat)
    requires i < |s.clients|
  {
    match s.clients[i]
    case Idle => true
    case FlagAsleep(job, notified) => job.uid !in s.past.flagged
    case WantProbe(_, _) => ProbesInVain(s, i)
    case WantPush(_) => s.queueOwner.Client? && ProbesInVain(s, s.queueOwner.i)
    case WantCancel(_) => s.queueOwner.Client? && ProbesInVain(s, s.queueOwner.i)
    case _ => false
  }

  lemma HaltedClients(s: State)
    requires LockInv(s) && ScanInv(s) && FlagInv(s) && Halted(s)
    ensures forall i :: 0 <= i < |s.clients| ==> WaitingPoint(s, i)
  {
    HaltedQueue(s);
    forall i | 0 <= i < |s.clients| ensures WaitingPoint(s, i) {
      assert !ClientEnabled(s, i) && ClientLocks(s.queueOwner, s.execOwner, i, s.clients[i]);
      assert ClientJobInv(s, s.clients[i]);
      if s.clients[i].WantProbe? {
        HaltedProbe(s, i);
      }
    }
  }

  /** A client that waits for the executing lock waits for the worker. */
  lemma HaltedProbe(s: State, i: nat)
    requires LockInv(s) && Halted(s) && i < |s.clients| && s.clients[i].WantProbe?
    ensures ProbesInVain(s, i)
  {
    assert !ClientEnabled(s, i) && ClientLocks(s.queueOwner, s.execOwner, i, s.clients[i]);
    forall k | 0 <= k < |s.clients| ensures !s.clients[k].Probing? {
      assert !ClientEnabled(s, k);
    }
    assert s.execOwner.Client? ==> ClientLocks(s.queueOwner, s.execOwner, s.execOwner.i, s.clients[s.execOwner.i]);
  }

  lemma HaltedQueue(s: State)
    requires LockInv(s) && ScanInv(s) && Halted(s)
    ensures s.queueOwner.Nobody? || (s.queueOwner.Client? && ProbesInVain(s, s.queueOwner.i))
  {
    if s.queueOwner.Client? {
      var k := s.queueOwner.i;
      assert !ClientEnabled(s, k) && ClientLocks(s.queueOwner, s.execOwner, k, s.clients[k]);
      HaltedProbe(s, k);
    }
  }

  // ----- a lock held for ever

  /** The job will not run any more: it was cancelled, or left behind by the stop. */
  ghost predicate Doomed(s: State, job: Job) {
    job.uid in s.past.cancelled || (s.worker.Exited? && job in s.calls)
  }

  /** The client waits for the end of a job that has not run. */
  predicate AwaitsFlag(s: State, i: nat) {
    && i < |s.clients| && (s.clients[i].FlagTest? || s.clients[i].FlagAsleep?)
    && s.clients[i].job.uid !in s.past.flagged
  }

  /** Thread `j` has the mapping lock and waits in a worker, either for a job that asks for that lock, or inside a
      callback for a job that will not run. */
  ghost predicate HeldForEver(program: Program, s: System, j: nat) {
    && s.mappingOwner == Client(j) && j < |s.callers| == |s.duties|
    && match s.callers[j]
       case InCancel(_, w) => w < |s.pool| && Asks(program, s.pool[w]) && ProbesInVain(s.pool[w], j)
       case Calling(w) => s.duties[j].Notify? && w < |s.pool| && WaitsInVain(program, s.pool[w], j)
       case _ => false
  }

  ghost predicate WaitsInVain(program: Program, s: State, j: nat) {
    AwaitsFlag(s, j) && (Asks(program, s) || Doomed(s, s.clients[j].job))
  }

  /** At rest, who has the mapping lock has it for ever. */
  lemma HolderStands(program: Program, s: System, j: nat)
    requires PresenceInv(s) && MappingInv(s) && PoolInv(s) && |s.pool| > 0
    requires NobodyMoves(program, s) && s.mappingOwner == Client(j)
    ensures HeldForEver(program, s, j)
  {
    HaltedEverywhere(program, s);
    assert HoldsMapping(s.callers[j], s.duties[j]);
    if !s.callers[j].Calling? && !s.callers[j].InCancel? {
      HolderMoves(program, s, j);
    } else {
      HolderInside(program, s, j, s.callers[j].w);
    }
  }

  /** Outside the workers nothing stops the holder. */
  lemma HolderMoves(program: Program, s: System, j: nat)
    requires PresenceInv(s) && PoolInv(s) && |s.pool| > 0 && j < |s.callers| == |s.duties|
    requires s.mappingOwner == Client(j) && HoldsMapping(s.callers[j], s.duties[j])
    requires !s.callers[j].Calling? && !s.callers[j].InCancel?
    ensures CallerEnabled(program, s, j, 0)
  {
    match s.callers[j]
    case Choosing(_, _) => HolderChooses(program, s, j, 0);
    case Unregistering(_, w) => assert w < |s.pool| ==> Present(s.callers[j], w, s.pool[w].clients[j]);
    case _ =>
  }

  /** Nobody else is in a cancel on any worker, so no queue lock is in the holder's way. */
  lemma HolderInside(program: Program, s: System, j: nat, w: nat)
    requires PresenceInv(s) && MappingInv(s) && PoolInv(s) && s.mappingOwner == Client(j) && j < |s.callers|
    requires HoldsMapping(s.callers[j], s.duties[j]) && w < |s.pool|
    requires s.callers[j] == Calling(w) || (s.callers[j].InCancel? && s.callers[j].w == w)
    requires !CallerEnabled(program, s, j, 0)
    requires Halted(s.pool[w]) && (Asks(program, s.pool[w]) || Stuck(s.pool[w]))
    ensures HeldForEver(program, s, j)
  {
    HaltedClients(s.pool[w]);
    assert WaitingPoint(s.pool[w], j) && Present(s.callers[j], w, s.pool[w].clients[j]);
    OnlyHolderProbes(s, j, w);
    if s.callers[j].Calling? && Stuck(s.pool[w]) {
      AsleepIsAbandoned(s.pool[w], j);
    }
  }

  /** A cancel that waits in a worker is the holder's own. */
  lemma OnlyHolderProbes(s: System, j: nat, w: nat)
    requires PresenceInv(s) && MappingInv(s) && s.mappingOwner == Client(j) && w < |s.pool|
    ensures var owner := s.pool[w].queueOwner; owner.Client? && ProbesInVain(s.pool[w], owner.i) ==> owner.i == j
  {
    var owner := s.pool[w].queueOwner;
    if owner.Client? && ProbesInVain(s.pool[w], owner.i) {
      assert Present(s.callers[owner.i], w, s.pool[w].clients[owner.i]);
      assert HoldsMapping(s.callers[owner.i], s.duties[owner.i]);
    }
  }

  lemma HolderChooses(program: Program, s: System, i: nat, idle: nat)
    requires PresenceInv(s) && PoolInv(s) && idle < |s.pool| && i < |s.callers| == |s.duties|
    requires s.callers[i].Choosing? && MayTake(s.mappingOwner, i)
    ensures CallerEnabled(program, s, i, idle)
  {
    var w := StrandWorker(s.strands, s.callers[i].call.strand, idle);
    assert w < |s.pool| && Present(s.callers[i], w, s.pool[w].clients[i]);
  }

  lemma AsleepIsAbandoned(s: State, i: nat)
    requires Inv(s) && Stuck(s) && i < |s.clients|
    ensures s.clients[i].Idle? || (s.clients[i].FlagAsleep? && Doomed(s, s.clients[i].job))
  {
    StuckThreads(s);
    StuckJobs(s);
    if s.clients[i].FlagAsleep? {
      assert ClientJobInv(s, s.clients[i]);
      assert Numbered(s.past.accepted);
    }
  }

  /** Such a lock is never given up: no step of anybody changes what its holder waits for. */
  lemma HeldForEverKept(program: Program, s: System, step: SystemStep, j: nat)
    requires SystemInv(program.names, s) && SystemEnabled(program, s, step) && HeldForEver(program, s, j)
    ensures HeldForEver(program, SystemNext(program, s, step), j)
    ensures SystemNext(program, s, step).callers[j] == s.callers[j]
  {
    var w := s.callers[j].w;
    match step
    case InWorker(v, own) =>
      if v == w {
        WaitKept(program, s.pool[w], own, j);
      }
    case CallerMoves(i, idle) => OtherCallerMoves(program, s, i, idle, j);
    case Begin(i, _) =>
  }

  /** The worker stands at its job, and so does the client that waits for it. */
  lemma WaitKept(program: Program, s: State, own: Step, j: nat)
    requires Inv(s) && Enabled(s, own) && (own.WorkerMoves? ==> !Asks(program, s))
    requires !own.BeginDoJob? && !own.BeginCancel?
    ensures Asks(program, s) && ProbesInVain(s, j) ==>
      Asks(program, Next(EVERY_JOB, s, own)) && ProbesInVain(Next(EVERY_JOB, s, own), j)
    ensures WaitsInVain(program, s, j) ==> WaitsInVain(program, Next(EVERY_JOB, s, own), j)
  {
    if Asks(program, s) {
      AskerStands(program, s, own, j);
    } else if WaitsInVain(program, s, j) {
      DoomedKept(s, own, j);
    }
  }

  lemma AskerStands(program: Program, s: State, own: Step, j: nat)
    requires LockInv(s) && Enabled(s, own) && !own.WorkerMoves? && Asks(program, s)
    requires !own.BeginDoJob? && !own.BeginCancel?
    ensures Asks(program, Next(EVERY_JOB, s, own))
    ensures ProbesInVain(s, j) ==> ProbesInVain(Next(EVERY_JOB, s, own), j)
    ensures AwaitsFlag(s, j) ==> AwaitsFlag(Next(EVERY_JOB, s, own), j)
  {
    assert j < |s.clients| ==> ClientLocks(s.queueOwner, s.execOwner, j, s.clients[j]);
    if own.ClientMoves? {
      assert ClientLocks(s.queueOwner, s.execOwner, own.i, s.clients[own.i]);
    }
  }

  lemma DoomedKept(s: State, own: Step, j: nat)
    requires Inv(s) && Enabled(s, own) && AwaitsFlag(s, j) && Doomed(s, s.clients[j].job)
    ensures AwaitsFlag(Next(EVERY_JOB, s, own), j)
    ensures Doomed(Next(EVERY_JOB, s, own), Next(EVERY_JOB, s, own).clients[j].job)
  {
    DoomedStays(s, own, s.clients[j].job);
    AwaiterStays(s, own, j);
    InvKept(EVERY_JOB, s, own);
    DoomedUnflagged(Next(EVERY_JOB, s, own), j);
  }

  lemma DoomedStays(s: State, own: Step, job: Job)
    requires Enabled(s, own) && Doomed(s, job)
    ensures Doomed(Next(EVERY_JOB, s, own), job)
  {
    if own.ClientMoves? {
      DoomedStaysByClient(s, own.i, job);
    }
  }

  lemma DoomedStaysByClient(s: State, i: nat, job: Job)
    requires ClientEnabled(s, i) && Doomed(s, job)
    ensures Doomed(ClientNext(EVERY_JOB, s, i), job)
  {
    if s.clients[i].Scanning? && job in s.calls {
      assert EVERY_JOB(s.clients[i].name, job);
    }
  }

  lemma AwaiterStays(s: State, own: Step, j: nat)
    requires Enabled(s, own) && AwaitsFlag(s, j)
    ensures var c, after := s.clients[j], Next(EVERY_JOB, s, own).clients;
      j < |after| && (after[j].FlagTest? || after[j].FlagAsleep?) && after[j].job == c.job
  {
    if own.WorkerMoves? {
      AwaiterRings(s, j);
    }
  }

  lemma AwaiterRings(s: State, j: nat)
    requires WorkerEnabled(s) && AwaitsFlag(s, j)
    ensures var c, after := s.clients[j], WorkerNext(s).clients;
      j < |after| && (after[j].FlagTest? || after[j].FlagAsleep?) && after[j].job == c.job
  {
  }

  lemma DoomedUnflagged(s: State, j: nat)
    requires ConservationInv(s) && FlagInv(s) && j < |s.clients| && (s.clients[j].FlagTest? || s.clients[j].FlagAsleep?)
    requires Doomed(s, s.clients[j].job)
    ensures AwaitsFlag(s, j)
  {
    var uid := s.clients[j].job.uid;
    assert ClientJobInv(s, s.clients[j]) && Numbered(s.past.accepted);
    if uid in s.past.flagged {
      var job :| job in s.past.executed && job.call.blocking && job.uid == uid;
      ExecutedIsAccepted(s, job);
      ExecutedIsNotLost(s, uid);
    }
  }

  lemma ExecutedIsAccepted(s: State, job: Job)
    requires ConservationInv(s) && job in s.past.executed
    ensures job.uid < |s.past.accepted| && s.past.accepted[job.uid] == job
  {
    SurvivorsExact(s.past.accepted, s.past.cancelled);
    assert job in s.past.executed + InHand(s.worker) + s.calls;
  }

  /** The others can neither take the lock nor give it up. */
  lemma OtherCallerMoves(program: Program, s: System, i: nat, idle: nat, j: nat)
    requires PresenceInv(s) && MappingInv(s) && CallerEnabled(program, s, i, idle) && HeldForEver(program, s, j)
    ensures HeldForEver(program, CallerNext(program, s, i, idle), j)
    ensures CallerNext(program, s, i, idle).callers[j] == s.callers[j]
  {
    assert i != j;
    assert !HoldsMapping(s.callers[i], s.duties[i]);
  }

  lemma {:induction false} HeldForEverStays(program: Program, s: System, steps: seq<SystemStep>, t: System, j: nat)
    requires Injective(program.names) && SystemInv(program.names, s) && HeldForEver(program, s, j)
    requires SystemLeads(program, s, steps, t)
    ensures HeldForEver(program, t, j) && t.callers[j] == s.callers[j]
    decreases |steps|
  {
    if steps != [] {
      HeldForEverKept(program, s, steps[0], j);
      SystemInvKept(program, s, steps[0]);
      HeldForEverStays(program, SystemNext(program, s, steps[0]), steps[1..], t, j);
    }
  }

  /** In no continuation of a run does the mapping lock leave such a holder. */
  lemma LockIsLost(program: Program, s: System, steps: seq<SystemStep>, t: System, j: nat)
    requires Injective(program.names) && SystemReachable(program, s) && HeldForEver(program, s, j)
    requires SystemLeads(program, s, steps, t)
    ensures t.mappingOwner == Client(j) && HeldForEver(program, t, j) && t.callers[j] == s.callers[j]
  {
    SystemReachableInv(program, s);
    HeldForEverStays(program, s, steps, t, j);
  }

  // ----- what the scheduler comes to rest in

  /** Every accepted job has run or was cancelled, or was accepted after the stop. */
  ghost predicate AllServed(s: State) {
    forall uid: nat :: uid < |s.past.accepted| ==>
      uid in s.past.cancelled || s.past.accepted[uid] in s.past.executed
      || (s.worker.Exited? && s.past.accepted[uid] in s.calls && s.past.stopMark <= uid)
  }

  ghost predicate WorkerAtRest(s: State) {
    (s.worker.Exited? || (s.worker == Asleep(false) && s.calls == [])) && AllServed(s)
  }

  /** Thread `i` is out of the scheduler, or sleeps in a blocking call for a job that will not run. */
  ghost predicate CallerAtRest(s: System, i: nat) {
    && i < |s.callers| == |s.duties| && s.duties[i].Free?
    && match s.callers[i]
       case Out => true
       case Calling(w) =>
         && w < |s.pool| && i < |s.pool[w].clients| && s.pool[w].clients[i].FlagAsleep?
         && Doomed(s.pool[w], s.pool[w].clients[i].job)
       case _ => false
  }

  ghost predicate AtRest(s: System) {
    && (forall w :: 0 <= w < |s.pool| ==> WorkerAtRest(s.pool[w]))
    && (forall i :: 0 <= i < |s.callers| ==> CallerAtRest(s, i))
  }

  /** When nobody can move, everything is at rest if and only if the mapping lock is free; and if it is not, it is held
      for ever, by a cancel on a worker whose job asks for the lock, or by a callback in a blocking call. */
  lemma SystemDeadlockFreedom(program: Program, s: System)
    requires Injective(program.names) && SystemReachable(program, s) && NobodyMoves(program, s)
    ensures AtRest(s) <==> s.mappingOwner.Nobody?
    ensures AtRest(s) <==> forall j: nat :: !HeldForEver(program, s, j)
  {
    SystemReachableInv(program, s);
    if s.mappingOwner.Nobody? {
      RestsWithoutHolder(program, s);
    } else {
      var j := s.mappingOwner.i;
      HolderStands(program, s, j);
      assert HoldsMapping(s.callers[j], s.duties[j]);
      assert !CallerAtRest(s, j);
    }
  }

  lemma RestsWithoutHolder(program: Program, s: System)
    requires PresenceInv(s) && MappingInv(s) && PoolInv(s) && |s.pool| > 0
    requires NobodyMoves(program, s) && s.mappingOwner.Nobody?
    ensures AtRest(s)
  {
    HaltedEverywhere(program, s);
    forall w | 0 <= w < |s.pool| ensures WorkerAtRest(s.pool[w]) {
      StuckThreads(s.pool[w]);
      StuckJobs(s.pool[w]);
    }
    forall i | 0 <= i < |s.callers| ensures CallerAtRest(s, i) {
      CallerRests(program, s, i);
    }
  }

  lemma CallerRests(program: Program, s: System, i: nat)
    requires PresenceInv(s) && MappingInv(s) && PoolInv(s) && |s.pool| > 0 && i < |s.callers|
    requires s.mappingOwner.Nobody? && !CallerEnabled(program, s, i, 0)
    requires forall w :: 0 <= w < |s.pool| ==> Stuck(s.pool[w])
    ensures CallerAtRest(s, i)
  {
    assert !HoldsMapping(s.callers[i], s.duties[i]);
    match s.callers[i]
    case Calling(w) => AsleepIsAbandoned(s.pool[w], i);
    case Choosing(_, _) => HolderChooses(program, s, i, 0);
    case _ =>
  }

  // ----- callbacks that never block

  /** Whether an operation, with the callbacks it runs, waits for no job. */
  predicate NeverBlocks(request: Request) {
    match request
    case Ask(_, _, prop) => !(prop.async && prop.blocking)
    case Withdraw(_) => true
    case Enroll(_, _, replies) => NoneBlocks(replies)
    case Watch(_, replies) => NoneBlocks(replies)
  }

  predicate NoneBlocks(todo: seq<Request>) {
    todo == [] || (NeverBlocks(todo[0]) && NoneBlocks(todo[1..]))
  }

  /** Its callbacks never block; it may itself. */
  predicate Polite(request: Request) { request.Ask? || NeverBlocks(request) }

  predicate PoliteCaller(c: CallerPc, duty: Duty) {
    && (duty.Notify? ==> NoneBlocks(duty.todo))
    && match c
       case WantRegister(_, _, replies) => NoneBlocks(replies)
       case WantWatch(_, replies) => NoneBlocks(replies)
       case Fetching(_, _, prop) => duty.Notify? ==> !(prop.async && prop.blocking)
       case Comparing(_, _, prop, _) => duty.Notify? ==> !(prop.async && prop.blocking)
       case Choosing(call, async) => duty.Notify? ==> !(async && call.blocking)
       case _ => true
  }

  predicate PoliteClient(c: ClientPc) {
    match c
    case WantPush(call) => !call.blocking
    case Pushed(job) => !job.call.blocking
    case Notified(job) => !job.call.blocking
    case FlagTest(_) => false
    case FlagAsleep(_, _) => false
    case _ => true
  }

  /** Nobody blocks inside a callback. */
  ghost predicate PoliteInv(s: System) {
    && |s.duties| == |s.callers|
    && (forall i :: 0 <= i < |s.callers| ==> PoliteCaller(s.callers[i], s.duties[i]))
    && (forall w, i :: 0 <= w < |s.pool| && 0 <= i < |s.duties| && i < |s.pool[w].clients| && s.duties[i].Notify? ==>
      PoliteClient(s.pool[w].clients[i]))
  }

  lemma PoliteKept(program: Program, s: System, step: SystemStep)
    requires PresenceInv(s) && PoliteInv(s) && SystemEnabled(program, s, step)
    requires step.Begin? ==> Polite(step.request)
    ensures PoliteInv(SystemNext(program, s, step))
  {
    match step
    case Begin(i, request) =>
    case InWorker(w, own) => PoliteInside(s.pool[w], own);
    case CallerMoves(i, idle) =>
      CallerAlone(program, s, i, idle);
      PoliteKeptByCaller(program, s, i, idle);
      PoliteOutside(program, s, i, idle);
  }

  lemma PoliteInside(s: State, own: Step)
    requires Enabled(s, own) && !own.BeginDoJob? && !own.BeginCancel?
    ensures |Next(EVERY_JOB, s, own).clients| == |s.clients|
    ensures forall i :: 0 <= i < |s.clients| && PoliteClient(s.clients[i]) ==>
      PoliteClient(Next(EVERY_JOB, s, own).clients[i])
  {
    match own
    case ClientMoves(i) => PoliteMover(s, i);
    case ClientSpurious(i) =>
    case _ =>
  }

  lemma PoliteMover(s: State, i: nat)
    requires ClientEnabled(s, i)
    ensures var after := ClientNext(EVERY_JOB, s, i).clients;
      && |after| == |s.clients| && after == s.clients[i := after[i]]
      && (PoliteClient(s.clients[i]) ==> PoliteClient(after[i]))
  {
  }

  lemma PoliteKeptByCaller(program: Program, s: System, i: nat, idle: nat)
    requires PoliteInv(s) && CallerEnabled(program, s, i, idle)
    ensures var t := CallerNext(program, s, i, idle);
      i < |t.callers| && i < |t.duties| && PoliteCaller(t.callers[i], t.duties[i])
  {
    assert PoliteCaller(s.callers[i], s.duties[i]);
    var c, duty := s.callers[i], s.duties[i];
    match c
    case Out =>
      if duty.todo != [] {
        PoliteStart(duty.todo);
      }
    case WantRegister(_, _, replies) => PoliteMore(duty, replies);
    case WantWatch(_, replies) => PoliteMore(duty, replies);
    case _ =>
  }

  lemma PoliteStart(todo: seq<Request>)
    requires todo != [] && NoneBlocks(todo)
    ensures PoliteCaller(FirstPoint(todo[0]), Notify(todo[1..]))
  {
    assert NeverBlocks(todo[0]);
  }

  lemma PoliteMore(duty: Duty, replies: seq<Request>)
    requires NoneBlocks(replies) && (duty.Notify? ==> NoneBlocks(duty.todo))
    ensures PoliteCaller(Out, More(duty, replies)) && PoliteCaller(Out, Thrown(duty))
  {
    if duty.Notify? {
      NoneBlocksJoin(replies, duty.todo);
    }
  }

  lemma {:induction false} NoneBlocksJoin(a: seq<Request>, b: seq<Request>)
    ensures NoneBlocks(a + b) <==> NoneBlocks(a) && NoneBlocks(b)
  {
    if a == [] {
      assert a + b == b;
    } else {
      NoneBlocksJoin(a[1..], b);
      assert (a + b)[0] == a[0] && (a + b)[1..] == a[1..] + b;
    }
  }

  /** A caller that runs callbacks puts none but polite calls to a worker. */
  lemma PoliteOutside(program: Program, s: System, i: nat, idle: nat)
    requires PresenceInv(s) && PoliteInv(s) && CallerEnabled(program, s, i, idle)
    ensures var t := CallerNext(program, s, i, idle);
      && |t.pool| == |s.pool| && |t.duties| == |s.duties|
      && forall w, k :: 0 <= w < |t.pool| && 0 <= k < |t.duties| && k < |t.pool[w].clients| && t.duties[k].Notify? ==>
        PoliteClient(t.pool[w].clients[k])
  {
    assert PoliteCaller(s.callers[i], s.duties[i]);
    forall w | 0 <= w < |s.pool| ensures Present(s.callers[i], w, s.pool[w].clients[i]) {
    }
  }

  ghost predicate PolitelyReachable(program: Program, s: System) {
    exists workers: nat, threads: nat, steps: seq<SystemStep> ::
      workers > 0 && AllPolite(steps) && SystemLeads(program, Start(workers, threads), steps, s)
  }

  predicate AllPolite(steps: seq<SystemStep>) {
    forall k :: 0 <= k < |steps| && steps[k].Begin? ==> Polite(steps[k].request)
  }

  lemma {:induction false} PoliteLeads(program: Program, s: System, steps: seq<SystemStep>, t: System)
    requires Injective(program.names) && SystemInv(program.names, s) && PoliteInv(s) && AllPolite(steps)
    requires SystemLeads(program, s, steps, t)
    ensures PoliteInv(t)
    decreases |steps|
  {
    if steps != [] {
      PoliteKept(program, s, steps[0]);
      SystemInvKept(program, s, steps[0]);
      PoliteLeads(program, SystemNext(program, s, steps[0]), steps[1..], t);
    }
  }

  lemma PolitelyReachableInv(program: Program, s: System)
    requires Injective(program.names) && PolitelyReachable(program, s)
    ensures SystemReachable(program, s) && PoliteInv(s)
  {
    var workers: nat, threads: nat, steps: seq<SystemStep> :|
      workers > 0 && AllPolite(steps) && SystemLeads(program, Start(workers, threads), steps, s);
    SystemInvStart(program, workers, threads);
    PoliteLeads(program, Start(workers, threads), steps, s);
  }

  /** If callbacks never block, nothing but a cancel on a worker whose job asks for the lock keeps it for ever. */
  lemma OnlyAskersDeadlock(program: Program, s: System, j: nat)
    requires Injective(program.names) && PolitelyReachable(program, s) && HeldForEver(program, s, j)
    ensures s.callers[j].InCancel? && s.callers[j].w < |s.pool| && Asks(program, s.pool[s.callers[j].w])
  {
    PolitelyReachableInv(program, s);
    forall w | 0 <= w < |s.pool| && s.duties[j].Notify? && j < |s.pool[w].clients| ensures !AwaitsFlag(s.pool[w], j) {
      assert PoliteClient(s.pool[w].clients[j]);
    }
  }

  /** If callbacks never block, as they must not, and no job asks the registry, the scheduler comes to rest whenever it
      comes to a stop. */
  lemma PoliteProgramsRest(program: Program, s: System)
    requires Injective(program.names) && PolitelyReachable(program, s) && NobodyMoves(program, s)
    requires forall call :: !program.asks(call)
    ensures AtRest(s) && s.mappingOwner.Nobody?
  {
    PolitelyReachableInv(program, s);
    SystemDeadlockFreedom(program, s);
    forall j: nat ensures !HeldForEver(program, s, j) {
      if HeldForEver(program, s, j) {
        OnlyAskersDeadlock(program, s, j);
      }
    }
  }

  // ----- no infinite internal run

  /** The steps an operation has before it, callbacks included, outside the workers of a pool of `n`. */
  function Effort(request: Request, n: nat): nat {
    match request
    case Ask(_, _, _) => 5
    case Withdraw(_) => 2 * n + 4
    case Enroll(_, _, replies) => 3 + Efforts(replies, n)
    case Watch(_, replies) => 3 + Efforts(replies, n)
  }

  function Efforts(todo: seq<Request>, n: nat): nat {
    if todo == [] then 0 else Effort(todo[0], n) + Efforts(todo[1..], n)
  }

  function DutyRank(duty: Duty, n: nat): nat {
    if duty.Free? then 0 else 1 + Efforts(duty.todo, n)
  }

  function PointRank(c: CallerPc, n: nat): nat {
    match c
    case Out => 0
    case Calling(_) => 1
    case Choosing(_, _) => 2
    case Comparing(_, _, _, _) => 3
    case Fetching(_, _, _) => 4
    case WantRegister(_, _, replies) => 2 + Efforts(replies, n)
    case WantWatch(_, replies) => 2 + Efforts(replies, n)
    case WantUnregister(_) => 2 * n + 3
    case Unregistering(_, w) => 2 * Gap(n, w) + 1
    case InCancel(_, w) => 2 * Gap(n, w)
  }

  function CallerRank(c: CallerPc, duty: Duty, n: nat): nat {
    DutyRank(duty, n) + PointRank(c, n)
  }

  function CallersRank(callers: seq<CallerPc>, duties: seq<Duty>, n: nat): nat
    requires |callers| == |duties|
  {
    if callers == [] then 0 else CallerRank(callers[0], duties[0], n) + CallersRank(callers[1..], duties[1..], n)
  }

  function PoolCancels(pool: seq<State>): nat {
    if pool == [] then 0 else WaitingCancels(pool[0].clients) + PoolCancels(pool[1..])
  }

  function PoolWeight(pool: seq<State>): nat {
    if pool == [] then 0 else Weight(pool[0]) + PoolWeight(pool[1..])
  }

  lemma {:induction false} EffortsJoin(a: seq<Request>, b: seq<Request>, n: nat)
    ensures Efforts(a + b, n) == Efforts(a, n) + Efforts(b, n)
  {
    if a == [] {
      assert a + b == b;
    } else {
      EffortsJoin(a[1..], b, n);
      assert (a + b)[0] == a[0] && (a + b)[1..] == a[1..] + b;
    }
  }

  lemma {:induction false} CallersRankUpdate(callers: seq<CallerPc>, duties: seq<Duty>, i: nat, c: CallerPc, d: Duty,
                                             n: nat)
    requires i < |callers| == |duties|
    ensures CallersRank(callers[i := c], duties[i := d], n) - CallerRank(c, d, n)
         == CallersRank(callers, duties, n) - CallerRank(callers[i], duties[i], n)
  {
    if i == 0 {
      assert callers[i := c][1..] == callers[1..] && duties[i := d][1..] == duties[1..];
    } else {
      CallersRankUpdate(callers[1..], duties[1..], i - 1, c, d, n);
      assert callers[i := c][1..] == callers[1..][i - 1 := c] && duties[i := d][1..] == duties[1..][i - 1 := d];
    }
  }

  lemma {:induction false} PoolUpdate(pool: seq<State>, w: nat, s: State)
    requires w < |pool|
    ensures PoolCancels(pool[w := s]) - WaitingCancels(s.clients) == PoolCancels(pool) - WaitingCancels(pool[w].clients)
    ensures PoolWeight(pool[w := s]) - Weight(s) == PoolWeight(pool) - Weight(pool[w])
  {
    if w == 0 {
      assert pool[w := s][1..] == pool[1..];
    } else {
      PoolUpdate(pool[1..], w - 1, s);
      assert pool[w := s][1..] == pool[1..][w - 1 := s];
    }
  }

  ghost predicate SystemDescends(s: System, t: System)
    requires |s.callers| == |s.duties| && |t.callers| == |t.duties|
  {
    var before, after := CallersRank(s.callers, s.duties, |s.pool|), CallersRank(t.callers, t.duties, |t.pool|);
    || after < before
    || (after == before && PoolCancels(t.pool) < PoolCancels(s.pool))
    || (after == before && PoolCancels(t.pool) == PoolCancels(s.pool) && PoolWeight(t.pool) < PoolWeight(s.pool))
  }

  /** Every step of a caller brings it nearer to the end of its operation and of the callbacks under way. */
  lemma CallerRankDrops(program: Program, s: System, i: nat, idle: nat)
    requires PresenceInv(s) && CallerEnabled(program, s, i, idle)
    ensures OnlyCaller(s, CallerNext(program, s, i, idle), i)
    ensures var t := CallerNext(program, s, i, idle);
      CallerRank(t.callers[i], t.duties[i], |s.pool|) < CallerRank(s.callers[i], s.duties[i], |s.pool|)
  {
    CallerAlone(program, s, i, idle);
    var c := s.callers[i];
    if c.Out? || c.Comparing? || c.WantRegister? || c.WantWatch? {
      DutyDrops(program, s, i, idle);
    } else {
      PointDrops(program, s, i, idle);
    }
  }

  predicate OnlyCaller(s: System, t: System, i: nat) {
    && i < |s.callers| == |t.callers| && t.callers == s.callers[i := t.callers[i]] && |t.pool| == |s.pool|
    && i < |s.duties| == |t.duties| && t.duties == s.duties[i := t.duties[i]]
  }

  lemma CallerAlone(program: Program, s: System, i: nat, idle: nat)
    requires CallerEnabled(program, s, i, idle)
    ensures OnlyCaller(s, CallerNext(program, s, i, idle), i)
  {
  }

  lemma PointDrops(program: Program, s: System, i: nat, idle: nat)
    requires PresenceInv(s) && CallerEnabled(program, s, i, idle)
    requires var c := s.callers[i]; !c.Out? && !c.Comparing? && !c.WantRegister? && !c.WantWatch?
    ensures var t := CallerNext(program, s, i, idle);
      i < |t.callers| && PointRank(t.callers[i], |s.pool|) < PointRank(s.callers[i], |s.pool|) && t.duties == s.duties
  {
  }

  lemma DutyDrops(program: Program, s: System, i: nat, idle: nat)
    requires CallerEnabled(program, s, i, idle)
    requires var c := s.callers[i]; c.Out? || c.Comparing? || c.WantRegister? || c.WantWatch?
    ensures var t := CallerNext(program, s, i, idle);
      && i < |t.callers| && i < |t.duties|
      && CallerRank(t.callers[i], t.duties[i], |s.pool|) < CallerRank(s.callers[i], s.duties[i], |s.pool|)
  {
    var duty, n := s.duties[i], |s.pool|;
    ThrownRank(duty, n);
    match s.callers[i]
    case Out =>
      if duty.todo != [] {
        CallbackStarts(duty.todo, n);
      }
    case WantRegister(_, _, replies) => MoreRank(duty, replies, n);
    case WantWatch(_, replies) => MoreRank(duty, replies, n);
    case _ =>
  }

  lemma CallbackStarts(todo: seq<Request>, n: nat)
    requires todo != []
    ensures PointRank(FirstPoint(todo[0]), n) + DutyRank(Notify(todo[1..]), n) < DutyRank(Notify(todo), n)
  {
    assert PointRank(FirstPoint(todo[0]), n) < Effort(todo[0], n);
  }

  lemma MoreRank(duty: Duty, replies: seq<Request>, n: nat)
    ensures DutyRank(More(duty, replies), n) < DutyRank(duty, n) + 2 + Efforts(replies, n)
  {
    if duty.Notify? {
      EffortsJoin(replies, duty.todo, n);
    }
  }

  lemma ThrownRank(duty: Duty, n: nat)
    ensures DutyRank(Thrown(duty), n) <= DutyRank(duty, n)
  {
  }

  /** Every internal step, of a caller or inside a worker, brings the whole system nearer to rest. */
  lemma SystemInternalDescends(program: Program, s: System, step: SystemStep)
    requires SystemInv(program.names, s) && SystemEnabled(program, s, step) && SystemInternal(step)
    ensures |SystemNext(program, s, step).callers| == |SystemNext(program, s, step).duties|
    ensures SystemDescends(s, SystemNext(program, s, step))
  {
    var t := SystemNext(program, s, step);
    match step
    case CallerMoves(i, idle) =>
      CallerRankDrops(program, s, i, idle);
      CallersRankUpdate(s.callers, s.duties, i, t.callers[i], t.duties[i], |s.pool|);
    case InWorker(w, own) =>
      InternalDescends(EVERY_JOB, s.pool[w], own);
      PoolUpdate(s.pool, w, Next(EVERY_JOB, s.pool[w], own));
  }

  /** However the threads of all callers and workers are scheduled, they run out of internal steps: an infinite run
      has infinitely many new operations, spurious wakeups or fruitless polls of `stop`. */
  lemma {:induction false} SystemStepsRunOut(program: Program, run: nat -> System, move: nat -> SystemStep, k: nat)
    requires Injective(program.names) && SystemInv(program.names, run(k))
    requires forall n: nat ::
      SystemEnabled(program, run(n), move(n)) && run(n + 1) == SystemNext(program, run(n), move(n))
    ensures exists n: nat :: k <= n && !SystemInternal(move(n))
    decreases CallersRank(run(k).callers, run(k).duties, |run(k).pool|), PoolCancels(run(k).pool),
              PoolWeight(run(k).pool)
  {
    if SystemInternal(move(k)) {
      assert run(k + 1) == SystemNext(program, run(k), move(k));
      SystemInvKept(program, run(k), move(k));
      SystemInternalDescends(program, run(k), move(k));
      SystemStepsRunOut(program, run, move, k + 1);
    }
  }
}
