/**
  Progress of the worker protocol when jobs take no scheduler lock: a state without internal steps is one in
  which everything accepted has been dealt with, and internal steps alone cannot go on for ever.
 */
module WorkerProgress {
  import opened WorkerProtocol
  import opened WorkerSafety
  import opened WorkerTheorems

  // ----- no deadlock

  ghost predicate Stuck(s: State) {
    !WorkerEnabled(s) && !StopperEnabled(s) && forall i :: 0 <= i < |s.clients| ==> !ClientEnabled(s, i)
  }

  lemma StuckLocksFree(s: State)
    requires LockInv(s) && ScanInv(s) && Stuck(s)
    ensures s.queueOwner.Nobody? && s.execOwner.Nobody?
  {
    forall i | 0 <= i < |s.clients| ensures !s.clients[i].Probing? {
      assert !ClientEnabled(s, i);
    }
    assert s.execOwner.Client? ==> ClientLocks(s.queueOwner, s.execOwner, s.execOwner.i, s.clients[s.execOwner.i]);
    forall i | 0 <= i < |s.clients| ensures !QueueHeldByClient(s.clients[i]) {
      assert !ClientEnabled(s, i);
    }
    assert s.queueOwner.Client? ==> ClientLocks(s.queueOwner, s.execOwner, s.queueOwner.i, s.clients[s.queueOwner.i]);
  }

  lemma StuckThreads(s: State)
    requires Inv(s) && Stuck(s)
    ensures s.worker == Asleep(false) || s.worker.Exited?
    ensures forall i :: 0 <= i < |s.clients| ==>
      s.clients[i].Idle? || (s.clients[i].FlagAsleep? && !s.clients[i].notified)
    ensures s.worker == Asleep(false) ==> s.calls == []
    ensures s.stopper.NotStopped? || s.stopper.Stopped?
  {
    StuckLocksFree(s);
    forall i | 0 <= i < |s.clients|
      ensures s.clients[i].Idle? || (s.clients[i].FlagAsleep? && !s.clients[i].notified)
    {
      assert !ClientEnabled(s, i) && ClientLocks(s.queueOwner, s.execOwner, i, s.clients[i]);
    }
  }

  /** Deadlock freedom: when no thread can move, the worker sleeps with nothing to do or has been stopped; every
      call has returned, except blocking ones whose job was cancelled or came in after the stop. */
  lemma DeadlockFreedom(remove: Removal, s: State)
    requires Reachable(remove, s)
    requires forall step :: Internal(step) ==> !Enabled(s, step)
    ensures s.queueOwner.Nobody? && s.execOwner.Nobody? && (s.stopper.NotStopped? || s.stopper.Stopped?)
    ensures if s.worker.Exited? then !s.active else s.worker == Asleep(false) && s.calls == []
    ensures forall uid: nat :: uid < |s.past.accepted| ==>
      uid in s.past.cancelled || s.past.accepted[uid] in s.past.executed
      || (s.worker.Exited? && s.past.accepted[uid] in s.calls && s.past.stopMark <= uid)
    ensures forall i :: 0 <= i < |s.clients| ==>
      s.clients[i].Idle? || (s.clients[i].FlagAsleep? && s.clients[i].job !in s.past.executed)
  {
    ReachableInv(remove, s);
    assert !Enabled(s, WorkerMoves) && !Enabled(s, StopperMoves);
    forall i | 0 <= i < |s.clients| ensures !ClientEnabled(s, i) {
      assert !Enabled(s, ClientMoves(i));
    }
    StuckLocksFree(s);
    StuckThreads(s);
    StuckJobs(s);
  }

  lemma StuckJobs(s: State)
    requires ConservationInv(s) && FlagInv(s) && StopInv(s)
    requires s.worker == Asleep(false) || s.worker.Exited?
    requires s.worker == Asleep(false) ==> s.calls == []
    ensures forall uid: nat :: uid < |s.past.accepted| ==>
      uid in s.past.cancelled || s.past.accepted[uid] in s.past.executed
      || (s.worker.Exited? && s.past.accepted[uid] in s.calls && s.past.stopMark <= uid)
    ensures forall i :: 0 <= i < |s.clients| && s.clients[i].FlagAsleep? && !s.clients[i].notified ==>
      s.clients[i].job !in s.past.executed
  {
    SurvivorsExact(s.past.accepted, s.past.cancelled);
    forall i | 0 <= i < |s.clients| && s.clients[i].FlagAsleep? && !s.clients[i].notified
      ensures s.clients[i].job !in s.past.executed
    {
      assert ClientJobInv(s, s.clients[i]);
    }
  }

  // ----- no infinite internal run

  /** The cancels that have not yet taken the queue lock. */
  function WaitingCancels(clients: seq<ClientPc>): nat {
    if clients == [] then 0 else (if clients[0].WantCancel? then 1 else 0) + WaitingCancels(clients[1..])
  }

  function WorkerRank(s: State): nat {
    match s.worker
    case Exited => 0
    case Asleep(notified) => if notified then 5 else 1
    case Parking => 2
    case Testing => 3
    case WantQueue => 4
    case AtLoop => if s.active then 5 else 1
    case Draining => if s.calls == [] && s.active then 6 else 2
    case WantDrain => 7
    case Executing(_, phase) => PhaseRank(phase)
    case WantExec(_) => 16
    case Popped(_) => 17
  }

  function PhaseRank(phase: Phase): nat {
    match phase
    case Cleared => 8
    case Returned => 9
    case AfterDone => 10
    case InDone => 11
    case AfterAction => 12
    case InAction => 13
    case Marked => 14
    case Entered => 15
  }

  function Gap(queued: nat, k: nat): nat { if k <= queued then queued - k else 0 }

  function ClientRank(queued: nat, flagged: set<nat>, c: ClientPc): nat {
    match c
    case WantPush(_) => 32
    case Pushed(_) => 11
    case Notified(_) => 5
    case FlagTest(job) => if job.uid in flagged then 1 else 4
    case FlagAsleep(job, _) => if job.uid in flagged then 2 else 3
    case Scanning(_, k) => 3 * Gap(queued, k) + 2
    case WantProbe(_, k) => 3 * Gap(queued, k) + 1
    case Probing(_, k) => 3 * Gap(queued, k)
    case Erased(_) => 1
    case Idle | WantCancel(_) | Dozing(_, _) => 0
  }

  function ClientsRank(queued: nat, flagged: set<nat>, clients: seq<ClientPc>): nat {
    if clients == [] then 0 else ClientRank(queued, flagged, clients[0]) + ClientsRank(queued, flagged, clients[1..])
  }

  function StopRank(t: StopPc): nat {
    match t
    case NotStopped | Stopped => 0
    case WantStop => 12
    case HoldingEmpty => 11
    case Deactivated => 10
    case StopNotified => 3
    case Joining => 2
  }

  function Weight(s: State): nat {
    20 * |s.calls| + WorkerRank(s) + ClientsRank(|s.calls|, s.past.flagged, s.clients) + StopRank(s.stopper)
  }

  lemma {:induction false} ClientsRankUpdate(queued: nat, flagged: set<nat>, clients: seq<ClientPc>, i: nat,
                                             c: ClientPc)
    requires i < |clients|
    ensures ClientsRank(queued, flagged, clients[i := c]) - ClientRank(queued, flagged, c)
         == ClientsRank(queued, flagged, clients) - ClientRank(queued, flagged, clients[i])
    ensures WaitingCancels(clients[i := c]) - (if c.WantCancel? then 1 else 0)
         == WaitingCancels(clients) - (if clients[i].WantCancel? then 1 else 0)
  {
    if i == 0 {
      assert clients[i := c][1..] == clients[1..];
    } else {
      ClientsRankUpdate(queued, flagged, clients[1..], i - 1, c);
      assert clients[i := c][1..] == clients[1..][i - 1 := c];
    }
  }

  lemma {:induction false} ClientsRankBelow(queued: nat, flagged: set<nat>, clients: seq<ClientPc>,
                                            queued': nat, flagged': set<nat>, clients': seq<ClientPc>)
    requires |clients| == |clients'|
    requires forall i :: 0 <= i < |clients| ==> clients'[i].WantCancel? == clients[i].WantCancel?
    requires forall i :: 0 <= i < |clients| ==>
      ClientRank(queued', flagged', clients'[i]) <= ClientRank(queued, flagged, clients[i])
    ensures ClientsRank(queued', flagged', clients') <= ClientsRank(queued, flagged, clients)
    ensures WaitingCancels(clients') == WaitingCancels(clients)
  {
    if clients != [] {
      ClientsRankBelow(queued, flagged, clients[1..], queued', flagged', clients'[1..]);
    }
  }

  ghost predicate Descends(s: State, s': State) {
    || WaitingCancels(s'.clients) < WaitingCancels(s.clients)
    || (WaitingCancels(s'.clients) == WaitingCancels(s.clients) && Weight(s') < Weight(s))
  }

  lemma WorkerDescends(s: State)
    requires Inv(s) && WorkerEnabled(s)
    ensures Descends(s, WorkerNext(s))
  {
    var s' := WorkerNext(s);
    ClientsCalm(s, s');
    ClientsRankBelow(|s.calls|, s.past.flagged, s.clients, |s'.calls|, s'.past.flagged, s'.clients);
    WorkerRankDrops(s);
  }

  lemma WorkerRankDrops(s: State)
    requires WakeInv(s) && StopInv(s) && WorkerEnabled(s)
    ensures 20 * |WorkerNext(s).calls| + WorkerRank(WorkerNext(s)) < 20 * |s.calls| + WorkerRank(s)
  {
  }

  /** No client comes further away from its end by a step of the worker. */
  lemma ClientsCalm(s: State, s': State)
    requires LockInv(s) && ScanInv(s) && FlagInv(s) && WorkerEnabled(s) && s' == WorkerNext(s)
    ensures |s'.clients| == |s.clients|
    ensures forall i :: 0 <= i < |s.clients| ==> s'.clients[i].WantCancel? == s.clients[i].WantCancel?
    ensures forall i :: 0 <= i < |s.clients| ==>
      ClientRank(|s'.calls|, s'.past.flagged, s'.clients[i]) <= ClientRank(|s.calls|, s.past.flagged, s.clients[i])
  {
    forall i | 0 <= i < |s.clients|
      ensures s'.clients[i].WantCancel? == s.clients[i].WantCancel?
      ensures ClientRank(|s'.calls|, s'.past.flagged, s'.clients[i])
           <= ClientRank(|s.calls|, s.past.flagged, s.clients[i])
    {
      assert ClientLocks(s.queueOwner, s.execOwner, i, s.clients[i]);
    }
  }

  lemma ClientDescends(remove: Removal, s: State, i: nat)
    requires Inv(s) && ClientEnabled(s, i)
    ensures Descends(s, ClientNext(remove, s, i))
  {
    OthersCalm(remove, s, i, s.clients[i := Idle]);
    ClientRankDrops(remove, s, i);
    ClientChangesItself(remove, s, i);
    ClientPartDescends(s, ClientNext(remove, s, i), i, s.clients[i := Idle]);
  }

  lemma ClientChangesItself(remove: Removal, s: State, i: nat)
    requires ClientEnabled(s, i)
    ensures |ClientNext(remove, s, i).clients| == |s.clients|
    ensures ClientNext(remove, s, i).clients == s.clients[i := ClientNext(remove, s, i).clients[i]]
    ensures ClientNext(remove, s, i).past.flagged == s.past.flagged && ClientNext(remove, s, i).stopper == s.stopper
    ensures !ClientNext(remove, s, i).clients[i].WantCancel?
  {
  }

  /** Client `i` descends with its own rank and what it changes around it; the others do not rise. */
  lemma ClientPartDescends(s: State, s': State, i: nat, others: seq<ClientPc>)
    requires i < |s.clients| == |s'.clients| && s'.clients == s.clients[i := s'.clients[i]]
    requires others == s.clients[i := Idle]
    requires s'.past.flagged == s.past.flagged && s'.stopper == s.stopper && !s'.clients[i].WantCancel?
    requires forall j :: 0 <= j < |s.clients| ==>
      ClientRank(|s'.calls|, s.past.flagged, others[j]) <= ClientRank(|s.calls|, s.past.flagged, others[j])
    requires s.clients[i].WantCancel? || PartRank(s', i) < PartRank(s, i)
    ensures Descends(s, s')
  {
    ClientsRankBelow(|s.calls|, s.past.flagged, others, |s'.calls|, s.past.flagged, others);
    ClientsRankUpdate(|s.calls|, s.past.flagged, s.clients, i, Idle);
    ClientsRankUpdate(|s'.calls|, s.past.flagged, others, i, s'.clients[i]);
    assert others[i := s'.clients[i]] == s'.clients;
  }

  function PartRank(s: State, i: nat): nat
    requires i < |s.clients|
  {
    20 * |s.calls| + WorkerRank(s) + ClientRank(|s.calls|, s.past.flagged, s.clients[i])
  }

  /** The other clients do not see the queue change under their scan. */
  lemma OthersCalm(remove: Removal, s: State, i: nat, others: seq<ClientPc>)
    requires LockInv(s) && ClientEnabled(s, i) && others == s.clients[i := Idle]
    ensures forall j :: 0 <= j < |s.clients| ==>
      ClientRank(|ClientNext(remove, s, i).calls|, s.past.flagged, others[j])
        <= ClientRank(|s.calls|, s.past.flagged, others[j])
  {
    var s' := ClientNext(remove, s, i);
    assert ClientLocks(s.queueOwner, s.execOwner, i, s.clients[i]);
    forall j | 0 <= j < |s.clients|
      ensures ClientRank(|s'.calls|, s.past.flagged, others[j]) <= ClientRank(|s.calls|, s.past.flagged, others[j])
    {
      assert ClientLocks(s.queueOwner, s.execOwner, j, s.clients[j]);
    }
  }

  lemma ClientRankDrops(remove: Removal, s: State, i: nat)
    requires LockInv(s) && ScanInv(s) && FlagInv(s) && ClientEnabled(s, i)
    ensures s.clients[i].WantCancel? || PartRank(ClientNext(remove, s, i), i) < PartRank(s, i)
  {
    if QueueHeldByClient(s.clients[i]) {
      ScanRankDrops(remove, s, i);
    } else {
      assert ClientJobInv(s, s.clients[i]);
    }
  }

  lemma ScanRankDrops(remove: Removal, s: State, i: nat)
    requires LockInv(s) && ScanInv(s) && ClientEnabled(s, i) && QueueHeldByClient(s.clients[i])
    ensures PartRank(ClientNext(remove, s, i), i) < PartRank(s, i)
  {
    assert ClientLocks(s.queueOwner, s.execOwner, i, s.clients[i]);
    if s.clients[i].Scanning? {
      ScanningRankDrops(remove, s, i);
    }
  }

  lemma ScanningRankDrops(remove: Removal, s: State, i: nat)
    requires ScanInv(s) && ClientEnabled(s, i) && s.clients[i].Scanning?
    ensures PartRank(ClientNext(remove, s, i), i) < PartRank(s, i)
  {
    if s.clients[i].k >= |s.calls| {
      KeptWithin(remove, s.clients[i].name, s.calls);
      ShorterQueue(s, ClientNext(remove, s, i));
    }
  }

  /** The worker has no more to do when jobs are taken out of the queue. */
  lemma ShorterQueue(s: State, s': State)
    requires s'.worker == s.worker && s'.active == s.active && |s'.calls| <= |s.calls|
    ensures 20 * |s'.calls| + WorkerRank(s') <= 20 * |s.calls| + WorkerRank(s)
  {
  }

  lemma StopperDescends(s: State)
    requires LockInv(s) && StopperEnabled(s)
    ensures Descends(s, StopperNext(s))
  {
  }

  /** Every internal step brings the system nearer to the end. */
  lemma InternalDescends(remove: Removal, s: State, step: Step)
    requires Inv(s) && Enabled(s, step) && Internal(step)
    ensures Descends(s, Next(remove, s, step))
  {
    match step
    case WorkerMoves => WorkerDescends(s);
    case ClientMoves(i) => ClientDescends(remove, s, i);
    case StopperMoves => StopperDescends(s);
    case _ =>
  }

  /** However the scheduler picks, the threads run out of internal steps: an infinite run needs infinitely many
      new calls, spurious wakeups or fruitless polls of `stop`. */
  lemma {:induction false} InternalStepsRunOut(remove: Removal, run: nat -> State, move: nat -> Step, k: nat)
    requires Inv(run(k))
    requires forall n: nat :: Enabled(run(n), move(n)) && run(n + 1) == Next(remove, run(n), move(n))
    ensures exists n: nat :: k <= n && !Internal(move(n))
    decreases WaitingCancels(run(k).clients), Weight(run(k))
  {
    if Internal(move(k)) {
      assert run(k + 1) == Next(remove, run(k), move(k));
      InvKept(remove, run(k), move(k));
      InternalDescends(remove, run(k), move(k));
      InternalStepsRunOut(remove, run, move, k + 1);
    }
  }
}
