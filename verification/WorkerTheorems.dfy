/** What every run of the worker protocol guarantees, for any removal predicate and any number of threads. */
module WorkerTheorems {
  import opened WorkerProtocol
  import opened WorkerSafety

  ghost predicate Leads(remove: Removal, s: State, steps: seq<Step>, t: State)
    decreases |steps|
  {
    if steps == [] then s == t
    else Enabled(s, steps[0]) && Leads(remove, Next(remove, s, steps[0]), steps[1..], t)
  }

  ghost predicate Reachable(remove: Removal, s: State) {
    exists threads: nat, steps: seq<Step> :: Leads(remove, Init(threads), steps, s)
  }

  lemma {:induction false} LeadsKeepsInv(remove: Removal, s: State, steps: seq<Step>, t: State)
    requires Inv(s) && Leads(remove, s, steps, t)
    ensures Inv(t)
    decreases |steps|
  {
    if steps != [] {
      InvKept(remove, s, steps[0]);
      LeadsKeepsInv(remove, Next(remove, s, steps[0]), steps[1..], t);
    }
  }

  /** The invariant holds in every reachable state. */
  lemma ReachableInv(remove: Removal, s: State)
    requires Reachable(remove, s)
    ensures Inv(s)
  {
    var threads: nat, steps: seq<Step> :| Leads(remove, Init(threads), steps, s);
    InvInit(threads);
    LeadsKeepsInv(remove, Init(threads), steps, s);
  }

  /** `t` can come after `s`. */
  ghost predicate Continues(remove: Removal, s: State, t: State) {
    exists steps: seq<Step> :: Leads(remove, s, steps, t)
  }

  lemma {:induction false} LeadsJoin(remove: Removal, s: State, first: seq<Step>, t: State, second: seq<Step>, u: State)
    requires Leads(remove, s, first, t) && Leads(remove, t, second, u)
    ensures Leads(remove, s, first + second, u)
    decreases |first|
  {
    if first == [] {
      assert first + second == second;
    } else {
      LeadsJoin(remove, Next(remove, s, first[0]), first[1..], t, second, u);
      assert (first + second)[0] == first[0] && (first + second)[1..] == first[1..] + second;
    }
  }

  lemma ContinuesJoin(remove: Removal, s: State, t: State, u: State)
    requires Continues(remove, s, t) && Continues(remove, t, u)
    ensures Continues(remove, s, u)
  {
    var first :| Leads(remove, s, first, t);
    var second :| Leads(remove, t, second, u);
    LeadsJoin(remove, s, first, t, second, u);
  }

  lemma ContinuesStep(remove: Removal, s: State, step: Step)
    requires Enabled(s, step)
    ensures Continues(remove, s, Next(remove, s, step))
  {
    assert Leads(remove, Next(remove, s, step), [], Next(remove, s, step));
    assert Leads(remove, s, [step], Next(remove, s, step));
  }

  lemma ReachableContinues(remove: Removal, s: State, t: State)
    requires Reachable(remove, s) && Continues(remove, s, t)
    ensures Reachable(remove, t)
  {
    var threads: nat, first :| Leads(remove, Init(threads), first, s);
    var second :| Leads(remove, s, second, t);
    LeadsJoin(remove, Init(threads), first, s, second, t);
  }

  predicate Extends(a: History, b: History) {
    && a.accepted <= b.accepted && a.log <= b.log && a.executed <= b.executed
    && a.cancelled <= b.cancelled && a.returned <= b.returned
  }

  /** Histories only grow. */
  lemma {:induction false} LeadsGrows(remove: Removal, s: State, steps: seq<Step>, t: State)
    requires Leads(remove, s, steps, t)
    ensures Extends(s.past, t.past)
    decreases |steps|
  {
    if steps != [] {
      StepGrows(remove, s, steps[0]);
      LeadsGrows(remove, Next(remove, s, steps[0]), steps[1..], t);
    }
  }

  lemma StepGrows(remove: Removal, s: State, step: Step)
    requires Enabled(s, step)
    ensures Extends(s.past, Next(remove, s, step).past)
  {
    match step
    case ClientMoves(i) => ClientGrows(remove, s, i);
    case _ =>
  }

  lemma ClientGrows(remove: Removal, s: State, i: nat)
    requires ClientEnabled(s, i)
    ensures Extends(s.past, ClientNext(remove, s, i).past)
  {
  }

  lemma ContinuesGrows(remove: Removal, s: State, t: State)
    requires Continues(remove, s, t)
    ensures s.past.accepted <= t.past.accepted && s.past.log <= t.past.log && s.past.executed <= t.past.executed
    ensures s.past.cancelled <= t.past.cancelled && s.past.returned <= t.past.returned
  {
    var steps :| Leads(remove, s, steps, t);
    LeadsGrows(remove, s, steps, t);
  }

  // ----- first in, first out, nothing lost

  /** Without the cancelled ones, the accepted jobs are those executed, then the one in hand, then those queued. */
  lemma FifoConservation(remove: Removal, s: State)
    requires Reachable(remove, s)
    ensures Survivors(s.past.accepted, s.past.cancelled) == s.past.executed + InHand(s.worker) + s.calls
    ensures Increasing(s.past.executed + InHand(s.worker) + s.calls)
    ensures forall uid: nat :: uid < |s.past.accepted| ==>
      (uid in s.past.cancelled <==> s.past.accepted[uid] !in s.past.executed + InHand(s.worker) + s.calls)
  {
    ReachableInv(remove, s);
    SurvivorsExact(s.past.accepted, s.past.cancelled);
  }

  // ----- one job at a time

  function Stage(e: Event): nat {
    match e
    case ActionStart(_) => 0
    case ActionEnd(_) => 1
    case DoneStart(_) => 2
    case DoneEnd(_) => 3
  }

  ghost predicate Before(a: Event, b: Event) {
    a.uid < b.uid || (a.uid == b.uid && Stage(a) < Stage(b))
  }

  ghost predicate Serial(log: seq<Event>) {
    forall p, q :: 0 <= p < q < |log| ==> Before(log[p], log[q])
  }

  /** `job` is one of `jobs` and `e` is one of the events of its run. */
  ghost predicate RunBy(job: Job, jobs: seq<Job>, e: Event) {
    job in jobs && e in RunOf(job)
  }

  lemma {:induction false} RunsOfEvents(jobs: seq<Job>, e: Event)
    ensures e in RunsOf(jobs) <==> exists job :: RunBy(job, jobs, e)
  {
    if jobs != [] {
      var front, last := jobs[..|jobs| - 1], jobs[|jobs| - 1];
      RunsOfEvents(front, e);
      assert jobs == front + [last];
      if e in RunOf(last) {
        assert RunBy(last, jobs, e);
      } else if job :| RunBy(job, front, e) {
        assert RunBy(job, jobs, e);
      } else if job :| RunBy(job, jobs, e) {
        assert RunBy(job, front, e);
      }
    }
  }

  lemma {:induction false} RunsOfSerial(jobs: seq<Job>)
    requires Increasing(jobs)
    ensures Serial(RunsOf(jobs))
  {
    if jobs != [] {
      var front, last := jobs[..|jobs| - 1], jobs[|jobs| - 1];
      RunsOfSerial(front);
      RunsBefore(front, last);
      SerialAppend(RunsOf(front), RunOf(last));
    }
  }

  lemma RunsBefore(front: seq<Job>, last: Job)
    requires forall job :: job in front ==> job.uid < last.uid
    ensures forall e :: e in RunsOf(front) ==> e.uid < last.uid
  {
    forall e | e in RunsOf(front) ensures e.uid < last.uid {
      RunsOfEvents(front, e);
      var job :| RunBy(job, front, e);
    }
  }

  lemma SerialAppend(a: seq<Event>, b: seq<Event>)
    requires Serial(a) && Serial(b)
    requires forall p, q :: 0 <= p < |a| && 0 <= q < |b| ==> a[p].uid < b[q].uid
    ensures Serial(a + b)
  {
  }

  lemma LogIsPrefix(s: State)
    requires LogInv(s)
    ensures s.past.log <= RunsOf(s.past.executed + InHand(s.worker))
  {
    if InHand(s.worker) == [] {
      assert s.past.executed + InHand(s.worker) == s.past.executed;
    } else {
      RunsOfSnoc(s.past.executed, s.worker.job);
      if s.worker.Executing? {
        PerformedIsPrefix(s.worker.job, s.worker.phase);
      }
      PrefixBehind(RunsOf(s.past.executed), RunSoFar(s.worker), RunOf(s.worker.job));
    }
  }

  lemma PerformedIsPrefix(job: Job, phase: Phase)
    requires phase.InDone? ==> job.call.hasDone
    ensures Performed(job, phase) <= RunOf(job)
  {
  }

  lemma PrefixBehind(front: seq<Event>, part: seq<Event>, whole: seq<Event>)
    requires part <= whole
    ensures front + part <= front + whole
  {
  }

  lemma IncreasingPrefix(a: seq<Job>, b: seq<Job>)
    requires Increasing(a + b)
    ensures Increasing(a)
  {
    forall i, j | 0 <= i < j < |a| ensures a[i].uid < a[j].uid {
      assert (a + b)[i] == a[i] && (a + b)[j] == a[j];
    }
  }

  /** Runs never overlap or repeat: the log is strictly ordered by acceptance, then by stage within a run. */
  lemma RunsAreSerial(remove: Removal, s: State)
    requires Reachable(remove, s)
    ensures Serial(s.past.log)
    ensures forall e :: e in s.past.log ==> exists job :: RunBy(job, s.past.executed + InHand(s.worker), e)
  {
    ReachableInv(remove, s);
    SurvivorsExact(s.past.accepted, s.past.cancelled);
    SerialLog(s);
  }

  /** Every event but the start of an action comes right behind the one that belongs before it in the same run, and an
      action starts when all that is logged belongs to jobs accepted before. */
  ghost predicate InTurn(log: seq<Event>, q: nat)
    requires q < |log|
  {
    match log[q]
    case ActionStart(u) => forall p :: 0 <= p < q ==> log[p].uid < u
    case ActionEnd(u) => q > 0 && log[q - 1] == ActionStart(u)
    case DoneStart(u) => q > 0 && log[q - 1] == ActionEnd(u)
    case DoneEnd(u) => q > 0 && log[q - 1] == DoneStart(u)
  }

  lemma {:induction false} AllInTurn(jobs: seq<Job>)
    requires Increasing(jobs)
    ensures forall q :: 0 <= q < |RunsOf(jobs)| ==> InTurn(RunsOf(jobs), q)
  {
    if jobs != [] {
      var front, last := jobs[..|jobs| - 1], jobs[|jobs| - 1];
      AllInTurn(front);
      RunsBefore(front, last);
      OneMoreRun(RunsOf(front), last);
    }
  }

  lemma OneMoreRun(log: seq<Event>, last: Job)
    requires forall q :: 0 <= q < |log| ==> InTurn(log, q) && log[q].uid < last.uid
    ensures forall q :: 0 <= q < |log + RunOf(last)| ==> InTurn(log + RunOf(last), q)
  {
    var all := log + RunOf(last);
    forall q | 0 <= q < |all| ensures InTurn(all, q) {
      if q < |log| {
        assert InTurn(log, q);
        assert forall p :: 0 <= p <= q ==> all[p] == log[p];
      } else {
        assert all[q] == RunOf(last)[q - |log|];
        assert q > |log| ==> all[q - 1] == RunOf(last)[q - 1 - |log|];
      }
    }
  }

  /** Action, then completion callback, without anything in between; one job behind the other. */
  lemma CallbackFollowsAction(remove: Removal, s: State, q: nat)
    requires Reachable(remove, s) && q < |s.past.log|
    ensures match s.past.log[q]
      case ActionStart(u) => forall p :: 0 <= p < q ==> s.past.log[p].uid < u
      case ActionEnd(u) => q > 0 && s.past.log[q - 1] == ActionStart(u)
      case DoneStart(u) => q > 0 && s.past.log[q - 1] == ActionEnd(u)
      case DoneEnd(u) => q > 0 && s.past.log[q - 1] == DoneStart(u)
  {
    ReachableInv(remove, s);
    SurvivorsExact(s.past.accepted, s.past.cancelled);
    var jobs := s.past.executed + InHand(s.worker);
    IncreasingPrefix(jobs, s.calls);
    AllInTurn(jobs);
    LogIsPrefix(s);
    assert InTurn(RunsOf(jobs), q);
    assert forall p :: 0 <= p <= q ==> s.past.log[p] == RunsOf(jobs)[p];
  }

  lemma SerialLog(s: State)
    requires LogInv(s) && Increasing(s.past.executed + InHand(s.worker) + s.calls)
    ensures Serial(s.past.log)
    ensures forall e :: e in s.past.log ==> exists job :: RunBy(job, s.past.executed + InHand(s.worker), e)
  {
    var jobs := s.past.executed + InHand(s.worker);
    IncreasingPrefix(jobs, s.calls);
    RunsOfSerial(jobs);
    LogIsPrefix(s);
    forall e | e in s.past.log ensures exists job :: RunBy(job, jobs, e) {
      RunsOfEvents(jobs, e);
    }
  }

  /** An earlier accepted, uncancelled job has run its action and its callback to the end before a later one starts. */
  lemma EarlierRunsFirst(remove: Removal, s: State, u: nat, q: nat)
    requires Reachable(remove, s)
    requires q < |s.past.log| && u < s.past.log[q].uid && u !in s.past.cancelled
    ensures u < |s.past.accepted| && forall e :: e in RunOf(s.past.accepted[u]) ==> e in s.past.log[..q]
  {
    ReachableInv(remove, s);
    SurvivorsExact(s.past.accepted, s.past.cancelled);
    EarlierLogged(s, u, q);
  }

  lemma EarlierLogged(s: State, u: nat, q: nat)
    requires ConservationInv(s) && LogInv(s) && Increasing(s.past.executed + InHand(s.worker) + s.calls)
    requires q < |s.past.log| && u < s.past.log[q].uid && u !in s.past.cancelled
    ensures u < |s.past.accepted| && forall e :: e in RunOf(s.past.accepted[u]) ==> e in s.past.log[..q]
  {
    EarlierExecuted(s, u, q);
    SerialLog(s);
    RunsLogged(s, s.past.accepted[u]);
    SmallerComesBefore(s.past.log, q, u);
  }

  lemma EarlierExecuted(s: State, u: nat, q: nat)
    requires ConservationInv(s) && LogInv(s) && Increasing(s.past.executed + InHand(s.worker) + s.calls)
    requires q < |s.past.log| && u < s.past.log[q].uid && u !in s.past.cancelled
    ensures u < |s.past.accepted| && s.past.accepted[u] in s.past.executed
  {
    SerialLog(s);
    var e := s.past.log[q];
    assert e in s.past.log;
    var later :| RunBy(later, s.past.executed + InHand(s.worker), e);
    LaterIsAccepted(s, later);
    ExecutedBefore(s, u, later);
  }

  lemma SmallerComesBefore(log: seq<Event>, q: nat, u: nat)
    requires Serial(log) && q < |log| && u < log[q].uid
    ensures forall e :: e in log && e.uid == u ==> e in log[..q]
  {
  }

  lemma LaterIsAccepted(s: State, job: Job)
    requires ConservationInv(s) && job in s.past.executed + InHand(s.worker)
    ensures job in s.past.accepted
  {
    SurvivorsExact(s.past.accepted, s.past.cancelled);
    assert job in s.past.executed + InHand(s.worker) + s.calls;
  }

  lemma ExecutedBefore(s: State, u: nat, later: Job)
    requires ConservationInv(s) && Increasing(s.past.executed + InHand(s.worker) + s.calls)
    requires later in s.past.executed + InHand(s.worker) && later in s.past.accepted
    requires u < later.uid && u !in s.past.cancelled
    ensures u < |s.past.accepted| && s.past.accepted[u] in s.past.executed
  {
    var all := s.past.executed + InHand(s.worker) + s.calls;
    SurvivorsExact(s.past.accepted, s.past.cancelled);
    var job := s.past.accepted[u];
    assert job in all;
    var i :| 0 <= i < |all| && all[i] == job;
    var j :| 0 <= j < |s.past.executed + InHand(s.worker)| && (s.past.executed + InHand(s.worker))[j] == later;
    assert all[j] == later;
    assert i < j;
  }

  lemma RunsLogged(s: State, job: Job)
    requires LogInv(s) && job in s.past.executed
    ensures forall e :: e in RunOf(job) ==> e in s.past.log
  {
    forall e | e in RunOf(job) ensures e in s.past.log {
      assert RunBy(job, s.past.executed, e);
      RunsOfEvents(s.past.executed, e);
    }
  }

  // ----- blocking calls

  /** A blocking call that has returned has had its action, and its callback if any, run to the end. */
  lemma BlockingCallSafety(remove: Removal, s: State, uid: nat)
    requires Reachable(remove, s) && uid in s.past.returned
    ensures uid < |s.past.accepted| && s.past.accepted[uid] in s.past.executed
    ensures s.past.accepted[uid].call.blocking
    ensures forall e :: e in RunOf(s.past.accepted[uid]) ==> e in s.past.log
    ensures ActionStart(uid) in s.past.log && ActionEnd(uid) in s.past.log
    ensures s.past.accepted[uid].call.hasDone ==> DoneStart(uid) in s.past.log && DoneEnd(uid) in s.past.log
    ensures Serial(s.past.log)
  {
    ReachableInv(remove, s);
    FifoConservation(remove, s);
    RunsAreSerial(remove, s);
    var job :| job in s.past.executed && job.call.blocking && job.uid == uid;
    LaterIsAccepted(s, job);
    RunsLogged(s, job);
    WholeRun(job);
  }

  lemma WholeRun(job: Job)
    ensures ActionStart(job.uid) in RunOf(job) && ActionEnd(job.uid) in RunOf(job)
    ensures job.call.hasDone <==> DoneStart(job.uid) in RunOf(job)
    ensures job.call.hasDone <==> DoneEnd(job.uid) in RunOf(job)
  {
    assert RunOf(job)[0] == ActionStart(job.uid) && RunOf(job)[1] == ActionEnd(job.uid);
    if job.call.hasDone {
      assert RunOf(job)[2] == DoneStart(job.uid) && RunOf(job)[3] == DoneEnd(job.uid);
    }
  }

  /** A job that has been executed has its action logged to the end, and its callback if and only if it has one. */
  lemma ExecutedIsWhole(remove: Removal, s: State, job: Job)
    requires Reachable(remove, s) && job in s.past.executed
    ensures ActionStart(job.uid) in s.past.log && ActionEnd(job.uid) in s.past.log
    ensures job.call.hasDone ==> DoneStart(job.uid) in s.past.log && DoneEnd(job.uid) in s.past.log
    ensures !job.call.hasDone ==> DoneStart(job.uid) !in s.past.log && DoneEnd(job.uid) !in s.past.log
  {
    ReachableInv(remove, s);
    FifoConservation(remove, s);
    RunsLogged(s, job);
    WholeRun(job);
    OnlyItsRun(s, job);
  }

  lemma OnlyItsRun(s: State, job: Job)
    requires ConservationInv(s) && LogInv(s) && Increasing(s.past.executed + InHand(s.worker) + s.calls)
    requires job in s.past.executed
    ensures forall e :: e in s.past.log && e.uid == job.uid ==> e in RunOf(job)
  {
    SerialLog(s);
    forall e | e in s.past.log && e.uid == job.uid ensures e in RunOf(job) {
      var other :| RunBy(other, s.past.executed + InHand(s.worker), e);
      OneJobPerNumber(s, job, other);
    }
  }

  lemma OneJobPerNumber(s: State, job: Job, other: Job)
    requires ConservationInv(s) && job.uid == other.uid
    requires job in s.past.executed + InHand(s.worker) && other in s.past.executed + InHand(s.worker)
    ensures job == other
  {
    LaterIsAccepted(s, other);
    LaterIsAccepted(s, job);
    assert Numbered(s.past.accepted);
  }

  /** A blocking call whose job was cancelled has not returned, and never will. */
  lemma CancelledCallNeverReturns(remove: Removal, s: State, later: State, uid: nat)
    requires Reachable(remove, s) && uid in s.past.cancelled && Continues(remove, s, later)
    ensures uid !in later.past.returned && uid < |later.past.accepted|
    ensures later.past.accepted[uid] !in later.past.executed
  {
    ContinuesGrows(remove, s, later);
    ReachableContinues(remove, s, later);
    FifoConservation(remove, later);
    ReachableInv(remove, later);
    if uid in later.past.returned {
      BlockingCallSafety(remove, later, uid);
    }
  }

  // ----- stopping

  /** When `stop` has returned, every job accepted before the worker was deactivated has run, or was cancelled. */
  lemma DrainingStop(remove: Removal, s: State, uid: nat)
    requires Reachable(remove, s) && s.stopper.Stopped? && uid < s.past.stopMark
    ensures s.worker.Exited? && !s.active && uid < |s.past.accepted|
    ensures s.past.accepted[uid] in s.past.executed <==> uid !in s.past.cancelled
    ensures uid !in s.past.cancelled ==> forall e :: e in RunOf(s.past.accepted[uid]) ==> e in s.past.log
  {
    ReachableInv(remove, s);
    FifoConservation(remove, s);
    var job := s.past.accepted[uid];
    SurvivorsExact(s.past.accepted, s.past.cancelled);
    assert job in s.calls ==> s.past.stopMark <= job.uid;
    if job in s.past.executed {
      RunsLogged(s, job);
    }
  }

  /** The worker is deactivated only with an empty queue and with the queue lock in the stopper's hands. */
  lemma DeactivatesOnlyWhenEmpty(remove: Removal, s: State, step: Step)
    requires Reachable(remove, s) && Enabled(s, step) && s.active && !Next(remove, s, step).active
    ensures step.StopperMoves? && s.queueOwner.Stopper? && s.calls == []
    ensures Next(remove, s, step).past.stopMark == |s.past.accepted|
  {
    ReachableInv(remove, s);
    DeactivationStep(remove, s, step);
  }

  lemma DeactivationStep(remove: Removal, s: State, step: Step)
    requires LockInv(s) && StopInv(s) && Enabled(s, step) && s.active && !Next(remove, s, step).active
    ensures step.StopperMoves? && s.queueOwner.Stopper? && s.calls == []
    ensures Next(remove, s, step).past.stopMark == |s.past.accepted|
  {
  }

  // ----- the load counter

  /** Whenever the queue lock is free, the counter is the queue length, less the calls still to be counted,
      plus those that were still to be counted when the last cancel stored the length. */
  lemma LoadLaw(remove: Removal, s: State)
    requires Reachable(remove, s) && s.queueOwner.Nobody?
    ensures s.load == (|s.calls| - InFlight(s.clients) + s.past.uncounted) % WORD
  {
    ReachableInv(remove, s);
    assert forall i :: 0 <= i < |s.clients| ==> ClientLocks(s.queueOwner, s.execOwner, i, s.clients[i]);
  }

  /** With no call half-way, the counter tells the queue length exactly when no increment overtook the last cancel. */
  lemma QuietLoadIsQueueLength(remove: Removal, s: State)
    requires Reachable(remove, s) && s.queueOwner.Nobody? && InFlight(s.clients) == 0
    requires |s.calls| + s.past.uncounted < 0x1_0000_0000_0000_0000
    ensures s.load == |s.calls| <==> s.past.uncounted == 0
  {
    LoadLaw(remove, s);
  }

  ghost predicate Cancels(c: ClientPc) { c.WantCancel? || QueueHeldByClient(c) }

  lemma {:induction false} NoCancelNoDrift(remove: Removal, s: State, steps: seq<Step>, t: State)
    requires Leads(remove, s, steps, t)
    requires s.past.uncounted == 0 && forall i :: 0 <= i < |s.clients| ==> !Cancels(s.clients[i])
    requires forall k :: 0 <= k < |steps| ==> !steps[k].BeginCancel?
    ensures t.past.uncounted == 0
    decreases |steps|
  {
    if steps != [] {
      var s' := Next(remove, s, steps[0]);
      NoCancelStarted(remove, s, steps[0]);
      NoCancelNoDrift(remove, s', steps[1..], t);
    }
  }

  lemma NoCancelStarted(remove: Removal, s: State, step: Step)
    requires Enabled(s, step) && !step.BeginCancel?
    requires s.past.uncounted == 0 && forall i :: 0 <= i < |s.clients| ==> !Cancels(s.clients[i])
    ensures Next(remove, s, step).past.uncounted == 0
    ensures forall i :: 0 <= i < |Next(remove, s, step).clients| ==> !Cancels(Next(remove, s, step).clients[i])
  {
    match step
    case ClientMoves(i) => NoCancelByClient(remove, s, i);
    case ClientSpurious(i) => assert !Cancels(s.clients[i]);
    case _ =>
  }

  lemma NoCancelByClient(remove: Removal, s: State, i: nat)
    requires ClientEnabled(s, i) && !Cancels(s.clients[i])
    ensures ClientNext(remove, s, i).past.uncounted == s.past.uncounted
    ensures ClientNext(remove, s, i).clients == s.clients[i := ClientNext(remove, s, i).clients[i]]
    ensures !Cancels(ClientNext(remove, s, i).clients[i])
  {
  }

  /** In a run without cancels the load is the queue length whenever no call is half-way. */
  lemma LoadWithoutCancels(remove: Removal, threads: nat, steps: seq<Step>, s: State)
    requires Leads(remove, Init(threads), steps, s) && forall k :: 0 <= k < |steps| ==> !steps[k].BeginCancel?
    requires s.queueOwner.Nobody? && InFlight(s.clients) == 0
    requires |s.calls| < 0x1_0000_0000_0000_0000
    ensures s.load == |s.calls|
  {
    assert Reachable(remove, s);
    NoCancelNoDrift(remove, Init(threads), steps, s);
    QuietLoadIsQueueLength(remove, s);
  }

  /** Nothing is queued or half-way, and yet the load is one. */
  ghost predicate Drifted(s: State) {
    s.queueOwner.Nobody? && InFlight(s.clients) == 0 && s.calls == [] && s.load == 1
  }

  /** The drift is real: a call pushed, cancelled and only then counted leaves a load of one on an empty queue. */
  lemma LoadDrifts(call: Call)
    requires call.name == "a" && !call.blocking
    ensures exists s :: Reachable(EVERY_JOB, s) && Drifted(s)
  {
    var pushed := Init(2).(calls := [Job(0, call)], clients := [Pushed(Job(0, call)), Idle],
                           past := Init(2).past.(accepted := [Job(0, call)]));
    var erased := pushed.(calls := [], queueOwner := Client(1), clients := [Pushed(Job(0, call)), Erased("b")],
                          past := pushed.past.(cancelled := {0}));
    var counted := erased.(queueOwner := Nobody, clients := [Idle, Idle], load := 1,
                           past := erased.past.(uncounted := 1));
    DriftPush(call, pushed);
    DriftErase(call, pushed, erased);
    DriftCount(call, erased, counted);
    ContinuesJoin(EVERY_JOB, Init(2), pushed, erased);
    ContinuesJoin(EVERY_JOB, Init(2), erased, counted);
    assert Reachable(EVERY_JOB, Init(2)) by { assert Leads(EVERY_JOB, Init(2), [], Init(2)); }
    ReachableContinues(EVERY_JOB, Init(2), counted);
  }

  lemma DriftPush(call: Call, pushed: State)
    requires pushed == Init(2).(calls := [Job(0, call)], clients := [Pushed(Job(0, call)), Idle],
                                past := Init(2).past.(accepted := [Job(0, call)]))
    ensures Continues(EVERY_JOB, Init(2), pushed)
  {
    var wanting := Next(EVERY_JOB, Init(2), BeginDoJob(0, call));
    ContinuesStep(EVERY_JOB, Init(2), BeginDoJob(0, call));
    assert Next(EVERY_JOB, wanting, ClientMoves(0)) == pushed;
    ContinuesStep(EVERY_JOB, wanting, ClientMoves(0));
    ContinuesJoin(EVERY_JOB, Init(2), wanting, pushed);
  }

  lemma DriftErase(call: Call, pushed: State, erased: State)
    requires call.name == "a" && |pushed.clients| == 2 && pushed.clients[1].Idle? && pushed.queueOwner.Nobody?
    requires pushed.calls == [Job(0, call)]
    requires erased == pushed.(calls := [], queueOwner := Client(1), clients := pushed.clients[1 := Erased("b")],
                               past := pushed.past.(cancelled := pushed.past.cancelled + {0}))
    ensures Continues(EVERY_JOB, pushed, erased)
  {
    var a := Next(EVERY_JOB, pushed, BeginCancel(1, "b"));
    var b := Next(EVERY_JOB, a, ClientMoves(1));
    var c := Next(EVERY_JOB, b, ClientMoves(1));
    assert c.clients == pushed.clients[1 := Scanning("b", 1)];
    CancelMeetsItsPromise("b", c.calls);
    assert Dropped(EVERY_JOB, "b", c.calls) == {0} by { assert Job(0, call) in c.calls; }
    assert Next(EVERY_JOB, c, ClientMoves(1)) == erased;
    ContinuesStep(EVERY_JOB, pushed, BeginCancel(1, "b"));
    ContinuesStep(EVERY_JOB, a, ClientMoves(1));
    ContinuesStep(EVERY_JOB, b, ClientMoves(1));
    ContinuesStep(EVERY_JOB, c, ClientMoves(1));
    ContinuesJoin(EVERY_JOB, pushed, a, b);
    ContinuesJoin(EVERY_JOB, pushed, b, c);
    ContinuesJoin(EVERY_JOB, pushed, c, erased);
  }

  lemma DriftCount(call: Call, erased: State, counted: State)
    requires erased.clients == [Pushed(Job(0, call)), Erased("b")] && !call.blocking && erased.calls == []
    requires !erased.worker.Asleep?
    requires counted == erased.(queueOwner := Nobody, clients := [Idle, Idle], load := 1,
                                past := erased.past.(uncounted := 1))
    ensures Continues(EVERY_JOB, erased, counted)
  {
    var a := Next(EVERY_JOB, erased, ClientMoves(1));
    assert InFlight(erased.clients) == 1 && a.load == 0 by {
      InFlightUpdate(erased.clients, 0, Idle);
      NoneInFlight(erased.clients[0 := Idle]);
    }
    var b := Next(EVERY_JOB, a, ClientMoves(0));
    assert b.clients == [Notified(Job(0, call)), Idle];
    assert Next(EVERY_JOB, b, ClientMoves(0)) == counted;
    ContinuesStep(EVERY_JOB, erased, ClientMoves(1));
    ContinuesStep(EVERY_JOB, a, ClientMoves(0));
    ContinuesStep(EVERY_JOB, b, ClientMoves(0));
    ContinuesJoin(EVERY_JOB, erased, a, b);
    ContinuesJoin(EVERY_JOB, erased, b, counted);
  }

  // ----- sleeping and waking

  /** A worker asleep without a notification under way has nothing to do. */
  lemma NoLostWakeup(remove: Removal, s: State)
    requires Reachable(remove, s) && s.worker == Asleep(false)
    requires forall i :: 0 <= i < |s.clients| ==> !s.clients[i].Pushed?
    requires !s.stopper.Deactivated?
    ensures s.calls == [] && s.active
  {
    ReachableInv(remove, s);
  }

  /** `executing_` is up only under the executing lock, so a cancel that takes that lock never goes to sleep. */
  lemma CancelNeverSleeps(remove: Removal, s: State, i: nat)
    requires Reachable(remove, s) && i < |s.clients|
    ensures !s.clients[i].Dozing?
    ensures s.executing ==> s.execOwner.Worker?
    ensures s.clients[i].Probing? ==> !s.worker.Executing? && !s.executing
  {
    ReachableInv(remove, s);
    assert ClientLocks(s.queueOwner, s.execOwner, i, s.clients[i]);
  }

  // ----- the order of locks

  /** The locks in the order in which they are taken, after the mapping lock of the registry. */
  datatype Lock = QueueLock | ExecutingLock

  predicate Holds(s: State, thread: Owner, lock: Lock) {
    thread == if lock.QueueLock? then s.queueOwner else s.execOwner
  }

  /** The thread stands before an acquisition of the lock. */
  predicate Wants(s: State, thread: Owner, lock: Lock) {
    match thread
    case Nobody => false
    case Worker => if lock.QueueLock? then s.worker.WantQueue? || s.worker.WantDrain? else s.worker.WantExec?
    case Stopper => lock.QueueLock? && s.stopper.WantStop?
    case Client(i) => i < |s.clients| && ClientWants(s.clients[i], lock)
  }

  predicate ClientWants(c: ClientPc, lock: Lock) {
    if lock.QueueLock? then c.WantPush? || c.WantCancel? else c.WantProbe?
  }

  /** A thread that wants a lock holds none but the queue lock, and that only when it wants the executing lock. */
  lemma LockOrder(remove: Removal, s: State, thread: Owner, wanted: Lock, held: Lock)
    requires Reachable(remove, s) && Wants(s, thread, wanted) && Holds(s, thread, held)
    ensures held.QueueLock? && wanted.ExecutingLock?
  {
    ReachableInv(remove, s);
    LocksInOrder(s, thread, wanted, held);
  }

  lemma LocksInOrder(s: State, thread: Owner, wanted: Lock, held: Lock)
    requires LockInv(s) && Wants(s, thread, wanted) && Holds(s, thread, held)
    ensures held.QueueLock? && wanted.ExecutingLock?
  {
    if thread.Client? {
      assert ClientLocks(s.queueOwner, s.execOwner, thread.i, s.clients[thread.i]);
    }
  }

  // ----- what a cancel removes

  /** The predicate given to `remove_if`: true of every job, whatever the name. */
  const EVERY_JOB: Removal := (name: string, job: Job) => true

  /** The removal that the dispatcher's interface announces: the outstanding jobs of the given service. */
  const NAMED_JOBS: Removal := (name: string, job: Job) => job.call.name == name

  /** A cancel does what is announced exactly when nothing else is queued. */
  lemma {:induction false} CancelMeetsItsPromise(name: string, jobs: seq<Job>)
    ensures Kept(EVERY_JOB, name, jobs) == []
    ensures Kept(EVERY_JOB, name, jobs) == Kept(NAMED_JOBS, name, jobs)
      <==> forall k :: 0 <= k < |jobs| ==> jobs[k].call.name == name
  {
    if jobs != [] {
      CancelMeetsItsPromise(name, jobs[1..]);
      if jobs[0].call.name == name {
        assert forall k :: 0 < k < |jobs| ==> jobs[k] == jobs[1..][k - 1];
        assert forall k :: 0 <= k < |jobs[1..]| ==> jobs[1..][k] == jobs[k + 1];
      }
    }
  }
}
