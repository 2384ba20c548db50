/**
  The job-queue protocol of one asynchronous worker: the worker thread, any number of client
  threads calling `doJob`, `doSyncJob` and `cancelJobsFor`, and one thread calling `stop`.
  Every region between two operations on a lock, an atomic or a condition variable is one step
  of the thread that executes it; `Step` only names the thread that moves next.

  `accepted`, `cancelled`, `executed`, `log`, `flagged`, `returned`, `uncounted` and `stopMark`
  are histories that no step reads back into the behaviour, except that `flagged` stands for the
  per-call `finished` flags of `doSyncJob`.
 */
module WorkerProtocol {

  /** What a call's arguments, or an action's parameter, are made of. */
  type Tag = nat

  /** What a client hands over: the action expects arguments of type `expects` and is bound to `given`. */
  datatype Call = Call(name: string, strand: string, hasDone: bool, blocking: bool, expects: Tag, given: Tag)

  /** An accepted call; `uid` is its position in the order of acceptance. */
  datatype Job = Job(uid: nat, call: Call)

  datatype Event = ActionStart(uid: nat) | ActionEnd(uid: nat) | DoneStart(uid: nat) | DoneEnd(uid: nat)

  /** Which jobs a cancel for a given name erases from the queue. */
  type Removal = (string, Job) -> bool

  datatype Owner = Nobody | Worker | Client(i: nat) | Stopper

  datatype Phase = Entered | Marked | InAction | AfterAction | InDone | AfterDone | Returned | Cleared

  datatype WorkerPc =
    | AtLoop | WantQueue | Testing | Parking | Asleep(notified: bool) | Draining | Popped(job: Job)
    | WantExec(job: Job) | Executing(job: Job, phase: Phase) | WantDrain | Exited

  datatype ClientPc =
    | Idle
    | WantPush(call: Call) | Pushed(job: Job) | Notified(job: Job)
    | FlagTest(job: Job) | FlagAsleep(job: Job, notified: bool)
    | WantCancel(name: string) | Scanning(name: string, k: nat) | WantProbe(name: string, k: nat)
    | Probing(name: string, k: nat) | Dozing(name: string, k: nat) | Erased(name: string)

  datatype StopPc = NotStopped | WantStop | HoldingEmpty | Deactivated | StopNotified | Joining | Stopped

  datatype History = History(
    accepted: seq<Job>, cancelled: set<nat>, executed: seq<Job>, log: seq<Event>,
    flagged: set<nat>, returned: set<nat>, uncounted: nat, stopMark: nat)

  datatype State = State(
    calls: seq<Job>, load: nat, active: bool, executing: bool, queueOwner: Owner, execOwner: Owner,
    worker: WorkerPc, clients: seq<ClientPc>, stopper: StopPc, past: History)

  datatype Step =
    | WorkerMoves | ClientMoves(i: nat) | StopperMoves
    | WorkerSpurious | ClientSpurious(i: nat) | StopPoll
    | BeginDoJob(i: nat, call: Call) | BeginCancel(i: nat, name: string) | BeginStop

  /** The number of values of a 64-bit `size_t`; the load counter wraps around at it. */
  const WORD: nat := 0x1_0000_0000_0000_0000

  // ----- the worker thread: run, scheduleFirstOutstandingJob, runTheCall

  predicate WorkerEnabled(s: State) {
    match s.worker
    case WantQueue | WantDrain => s.queueOwner.Nobody?
    case WantExec(_) => s.execOwner.Nobody?
    case Asleep(notified) => notified
    case Exited => false
    case _ => true
  }

  function WorkerNext(s: State): State
    requires WorkerEnabled(s)
  {
    match s.worker
    case AtLoop => s.(worker := if s.active then WantQueue else Exited)
    case WantQueue => s.(queueOwner := Worker, worker := Testing)
    case Testing => s.(worker := if s.calls != [] || !s.active then Draining else Parking)
    case Parking => s.(queueOwner := Nobody, worker := Asleep(false))
    case Asleep(_) => s.(worker := WantQueue)
    case Draining =>
      if s.calls == [] then s.(queueOwner := Nobody, worker := AtLoop)
      else s.(calls := s.calls[1..], worker := Popped(s.calls[0]))
    case Popped(job) => s.(load := (s.load + WORD - 1) % WORD, queueOwner := Nobody, worker := WantExec(job))
    case WantExec(job) => s.(execOwner := Worker, worker := Executing(job, Entered))
    case Executing(job, phase) => RunNext(s, job, phase)
    case WantDrain => s.(queueOwner := Worker, worker := Draining)
    case Exited => s
  }

  /** The steps taken while holding the executing lock. */
  function RunNext(s: State, job: Job, phase: Phase): State {
    match phase
    case Entered => s.(executing := true, worker := Executing(job, Marked))
    case Marked | InAction | AfterAction | InDone =>
      s.(past := s.past.(log := s.past.log + Emitted(job, phase)), worker := Executing(job, Following(job, phase)))
    case AfterDone =>
      var done := s.past.(executed := s.past.executed + [job]);
      if job.call.blocking
      then s.(worker := Executing(job, Returned), past := done.(flagged := done.flagged + {job.uid}),
              clients := RingFlag(s.clients, job.uid))
      else s.(worker := Executing(job, Returned), past := done)
    case Returned => s.(executing := false, worker := Executing(job, Cleared))
    case Cleared => s.(execOwner := Nobody, worker := WantDrain, clients := RingExec(s.clients))
  }

  /** The phase of `runTheCall` that follows: action, then the completion callback if there is one. */
  function Following(job: Job, phase: Phase): Phase {
    match phase
    case Marked => InAction
    case InAction => AfterAction
    case AfterAction => if job.call.hasDone then InDone else AfterDone
    case InDone => AfterDone
    case _ => phase
  }

  function Emitted(job: Job, phase: Phase): seq<Event> {
    match phase
    case Marked => [ActionStart(job.uid)]
    case InAction => [ActionEnd(job.uid)]
    case AfterAction => if job.call.hasDone then [DoneStart(job.uid)] else []
    case InDone => [DoneEnd(job.uid)]
    case _ => []
  }

  /** `cond.notify_all()` in the completion wrapper of `doSyncJob`. */
  function RingFlag(clients: seq<ClientPc>, uid: nat): (r: seq<ClientPc>)
    ensures |r| == |clients|
  {
    seq(|clients|, i requires 0 <= i < |clients| =>
      if clients[i].FlagAsleep? && clients[i].job.uid == uid then FlagAsleep(clients[i].job, true) else clients[i])
  }

  /** `executingCond_.notify_all()`: every client asleep on it wants the executing lock again. */
  function RingExec(clients: seq<ClientPc>): (r: seq<ClientPc>)
    ensures |r| == |clients|
  {
    seq(|clients|, i requires 0 <= i < |clients| =>
      if clients[i].Dozing? then WantProbe(clients[i].name, clients[i].k) else clients[i])
  }

  // ----- client threads: doJob, doSyncJob, cancelJobsFor

  predicate ClientEnabled(s: State, i: nat) {
    i < |s.clients| &&
    match s.clients[i]
    case WantPush(_) | WantCancel(_) => s.queueOwner.Nobody?
    case WantProbe(_, _) => s.execOwner.Nobody?
    case FlagAsleep(_, notified) => notified
    case Idle | Dozing(_, _) => false
    case _ => true
  }

  function ClientNext(remove: Removal, s: State, i: nat): State
    requires ClientEnabled(s, i)
  {
    match s.clients[i]
    case WantPush(call) =>
      var job := Job(|s.past.accepted|, call);
      s.(calls := s.calls + [job], past := s.past.(accepted := s.past.accepted + [job]),
         clients := s.clients[i := Pushed(job)])
    case Pushed(job) => s.(worker := RingQueue(s.worker), clients := s.clients[i := Notified(job)])
    case Notified(job) =>
      s.(load := (s.load + 1) % WORD, clients := s.clients[i := if job.call.blocking then FlagTest(job) else Idle])
    case FlagTest(job) =>
      if job.uid in s.past.flagged
      then s.(past := s.past.(returned := s.past.returned + {job.uid}), clients := s.clients[i := Idle])
      else s.(clients := s.clients[i := FlagAsleep(job, false)])
    case FlagAsleep(job, _) => s.(clients := s.clients[i := FlagTest(job)])
    case WantCancel(name) => s.(queueOwner := Client(i), clients := s.clients[i := Scanning(name, 0)])
    case Scanning(name, k) =>
      if k >= |s.calls| then
        s.(calls := Kept(remove, name, s.calls),
           past := s.past.(cancelled := s.past.cancelled + Dropped(remove, name, s.calls)),
           clients := s.clients[i := Erased(name)])
      else if s.calls[k].call.name == name then s.(clients := s.clients[i := WantProbe(name, k)])
      else s.(clients := s.clients[i := Scanning(name, k + 1)])
    case WantProbe(name, k) => s.(execOwner := Client(i), clients := s.clients[i := Probing(name, k)])
    case Probing(name, k) =>
      s.(execOwner := Nobody, clients := s.clients[i := if s.executing then Dozing(name, k) else Scanning(name, k + 1)])
    case Erased(_) =>
      s.(load := |s.calls| % WORD, past := s.past.(uncounted := InFlight(s.clients)), queueOwner := Nobody,
         clients := s.clients[i := Idle])
    case Idle | Dozing(_, _) => s
  }

  /** `queueCond_.notify_all()` */
  function RingQueue(w: WorkerPc): WorkerPc {
    if w.Asleep? then Asleep(true) else w
  }

  /** What `remove_if` leaves in the queue, in order. */
  function Kept(remove: Removal, name: string, jobs: seq<Job>): seq<Job> {
    if jobs == [] then []
    else (if remove(name, jobs[0]) then [] else [jobs[0]]) + Kept(remove, name, jobs[1..])
  }

  function Dropped(remove: Removal, name: string, jobs: seq<Job>): set<nat> {
    set job | job in jobs && remove(name, job) :: job.uid
  }

  predicate Counting(c: ClientPc) { c.Pushed? || c.Notified? }

  /** The `doJob` calls that stand between their push and their increment of the load. */
  function InFlight(clients: seq<ClientPc>): nat {
    if clients == [] then 0 else (if Counting(clients[0]) then 1 else 0) + InFlight(clients[1..])
  }

  // ----- the thread that stops the worker: stop, waitForOutstandingJobsToFinish

  predicate StopperEnabled(s: State) {
    match s.stopper
    case NotStopped | Stopped => false
    case WantStop => s.queueOwner.Nobody? && s.calls == []
    case Joining => s.worker.Exited?
    case _ => true
  }

  function StopperNext(s: State): State
    requires StopperEnabled(s)
  {
    match s.stopper
    case WantStop => s.(queueOwner := Stopper, stopper := HoldingEmpty)
    case HoldingEmpty => s.(active := false, past := s.past.(stopMark := |s.past.accepted|), stopper := Deactivated)
    case Deactivated => s.(worker := RingQueue(s.worker), stopper := StopNotified)
    case StopNotified => s.(queueOwner := Nobody, stopper := Joining)
    case Joining => s.(stopper := Stopped)
    case NotStopped | Stopped => s
  }

  // ----- the whole system

  predicate Enabled(s: State, step: Step) {
    match step
    case WorkerMoves => WorkerEnabled(s)
    case ClientMoves(i) => ClientEnabled(s, i)
    case StopperMoves => StopperEnabled(s)
    case WorkerSpurious => s.worker.Asleep?
    case ClientSpurious(i) => i < |s.clients| && (s.clients[i].FlagAsleep? || s.clients[i].Dozing?)
    case StopPoll => s.stopper.WantStop? && s.queueOwner.Nobody? && s.calls != []
    case BeginDoJob(i, _) => i < |s.clients| && s.clients[i].Idle?
    case BeginCancel(i, _) => i < |s.clients| && s.clients[i].Idle?
    case BeginStop => s.stopper.NotStopped?
  }

  function Next(remove: Removal, s: State, step: Step): State
    requires Enabled(s, step)
  {
    match step
    case WorkerMoves => WorkerNext(s)
    case ClientMoves(i) => ClientNext(remove, s, i)
    case StopperMoves => StopperNext(s)
    case WorkerSpurious => s.(worker := WantQueue)
    case ClientSpurious(i) =>
      s.(clients := s.clients[i :=
        if s.clients[i].FlagAsleep? then FlagTest(s.clients[i].job) else WantProbe(s.clients[i].name, s.clients[i].k)])
    case StopPoll => s
    case BeginDoJob(i, call) => s.(clients := s.clients[i := WantPush(call)])
    case BeginCancel(i, name) => s.(clients := s.clients[i := WantCancel(name)])
    case BeginStop => s.(stopper := if s.active then WantStop else Stopped)
  }

  function Init(threads: nat): State {
    State([], 0, true, false, Nobody, Nobody, AtLoop, seq(threads, _ => Idle), NotStopped,
          History([], {}, [], [], {}, {}, 0, 0))
  }

  /** Every step other than a new call, a spurious wakeup or a fruitless poll of `stop`. */
  predicate Internal(step: Step) {
    step.WorkerMoves? || step.ClientMoves? || step.StopperMoves?
  }

  // ----- the invariant

  predicate QueueHeldByWorker(w: WorkerPc) { w.Testing? || w.Parking? || w.Draining? || w.Popped? }

  predicate QueueHeldByClient(c: ClientPc) {
    c.Scanning? || c.WantProbe? || c.Probing? || c.Dozing? || c.Erased?
  }

  predicate QueueHeldByStopper(t: StopPc) { t.HoldingEmpty? || t.Deactivated? || t.StopNotified? }

  /** The locks are held by exactly the threads whose program point says so. */
  ghost predicate LockInv(s: State) {
    && (s.queueOwner.Worker? <==> QueueHeldByWorker(s.worker))
    && (s.queueOwner.Stopper? <==> QueueHeldByStopper(s.stopper))
    && (s.queueOwner.Client? ==> s.queueOwner.i < |s.clients|)
    && (forall i :: 0 <= i < |s.clients| ==> ClientLocks(s.queueOwner, s.execOwner, i, s.clients[i]))
    && (s.execOwner.Worker? <==> s.worker.Executing?)
    && !s.execOwner.Stopper?
    && (s.execOwner.Client? ==> s.execOwner.i < |s.clients|)
    && (s.executing <==> s.worker.Executing? && !s.worker.phase.Entered? && !s.worker.phase.Cleared?)
  }

  ghost predicate ClientLocks(queueOwner: Owner, execOwner: Owner, i: nat, c: ClientPc) {
    (queueOwner == Client(i) <==> QueueHeldByClient(c)) && (execOwner == Client(i) <==> c.Probing?)
  }

  /** A cancel never sleeps, and scans within the queue. */
  ghost predicate ScanInv(s: State) {
    forall i :: 0 <= i < |s.clients| ==>
      match s.clients[i]
      case Dozing(_, _) => false
      case Scanning(_, k) => k <= |s.calls|
      case WantProbe(_, k) => k < |s.calls|
      case Probing(_, k) => k < |s.calls|
      case _ => true
  }

  function InHand(w: WorkerPc): seq<Job> {
    match w
    case Popped(job) => [job]
    case WantExec(job) => [job]
    case Executing(job, phase) => if phase.Returned? || phase.Cleared? then [] else [job]
    case _ => []
  }

  /** The accepted jobs that were not cancelled, in the order of acceptance. */
  function Survivors(accepted: seq<Job>, cancelled: set<nat>): seq<Job> {
    if accepted == [] then []
    else
      var last := accepted[|accepted| - 1];
      Survivors(accepted[..|accepted| - 1], cancelled) + if last.uid in cancelled then [] else [last]
  }

  ghost predicate Numbered(accepted: seq<Job>) {
    forall k :: 0 <= k < |accepted| ==> accepted[k].uid == k
  }

  /** No job is lost, duplicated or overtaken. */
  ghost predicate ConservationInv(s: State) {
    && Numbered(s.past.accepted)
    && Survivors(s.past.accepted, s.past.cancelled) == s.past.executed + InHand(s.worker) + s.calls
    && (forall uid :: uid in s.past.cancelled ==> uid < |s.past.accepted|)
  }

  /** The events of one complete run of a job. */
  function RunOf(job: Job): seq<Event> {
    if job.call.hasDone
    then [ActionStart(job.uid), ActionEnd(job.uid), DoneStart(job.uid), DoneEnd(job.uid)]
    else [ActionStart(job.uid), ActionEnd(job.uid)]
  }

  function RunsOf(jobs: seq<Job>): seq<Event> {
    if jobs == [] then [] else RunsOf(jobs[..|jobs| - 1]) + RunOf(jobs[|jobs| - 1])
  }

  function RunSoFar(w: WorkerPc): seq<Event> {
    if w.Executing? then Performed(w.job, w.phase) else []
  }

  function Performed(job: Job, phase: Phase): seq<Event> {
    match phase
    case InAction => [ActionStart(job.uid)]
    case AfterAction => [ActionStart(job.uid), ActionEnd(job.uid)]
    case InDone => [ActionStart(job.uid), ActionEnd(job.uid), DoneStart(job.uid)]
    case AfterDone => RunOf(job)
    case _ => []
  }

  /** Jobs run one at a time, action before completion callback, in the order of `executed`. */
  ghost predicate LogInv(s: State) {
    && s.past.log == RunsOf(s.past.executed) + RunSoFar(s.worker)
    && (s.worker.Executing? && s.worker.phase.InDone? ==> s.worker.job.call.hasDone)
  }

  /** A worker that sleeps un-notified has somebody on the way to wake it whenever there is a reason to wake. */
  ghost predicate WakeInv(s: State) {
    && (s.worker.Parking? ==> s.calls == [] && s.active)
    && (s.worker == Asleep(false) && s.calls != [] ==> exists i :: 0 <= i < |s.clients| && s.clients[i].Pushed?)
    && (s.worker == Asleep(false) && !s.active ==> s.stopper.Deactivated?)
  }

  ghost predicate StopInv(s: State) {
    && (s.active <==> s.stopper.NotStopped? || s.stopper.WantStop? || s.stopper.HoldingEmpty?)
    && (QueueHeldByStopper(s.stopper) ==> s.calls == [])
    && (!s.active ==> s.past.stopMark <= |s.past.accepted|)
    && (!s.active ==> forall job :: job in s.calls ==> s.past.stopMark <= job.uid)
    && (s.worker.Exited? ==> !s.active)
    && (s.stopper.Stopped? ==> s.worker.Exited?)
  }

  /** The flag of a blocking call is up exactly when its job has been executed, and no flag is missed. */
  ghost predicate FlagInv(s: State) {
    && (forall uid :: uid in s.past.flagged <==>
          exists job :: job in s.past.executed && job.call.blocking && job.uid == uid)
    && s.past.returned <= s.past.flagged
    && (forall i :: 0 <= i < |s.clients| ==> ClientJobInv(s, s.clients[i]))
  }

  ghost predicate ClientJobInv(s: State, c: ClientPc) {
    match c
    case Pushed(job) => job in s.past.accepted
    case Notified(job) => job in s.past.accepted
    case FlagTest(job) => job in s.past.accepted && job.call.blocking
    case FlagAsleep(job, notified) =>
      job in s.past.accepted && job.call.blocking && (notified <==> job.uid in s.past.flagged)
    case _ => true
  }

  /** What the load counter stands for: the queue and its backlog of missing and surplus increments. */
  function TrueLoad(s: State): int {
    |s.calls| + (if s.worker.Popped? then 1 else 0) - InFlight(s.clients) + s.past.uncounted
  }

  /** Some cancel stands between its erase and its store of the load. */
  ghost predicate StorePending(s: State) {
    exists i :: 0 <= i < |s.clients| && s.clients[i].Erased?
  }

  ghost predicate LoadInv(s: State) {
    !StorePending(s) ==> s.load == TrueLoad(s) % WORD
  }

  ghost predicate Inv(s: State) {
    LockInv(s) && ScanInv(s) && ConservationInv(s) && LogInv(s) && WakeInv(s) && StopInv(s) && FlagInv(s) && LoadInv(s)
  }
}
