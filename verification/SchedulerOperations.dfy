/**
  Whole operations of one thread, among all the others under every interleaving: what has happened between the moment
  at which an operation starts and the moment at which it is over.
 */
module SchedulerOperations {
  import opened WorkerProtocol
  import opened WorkerSafety
  import opened WorkerTheorems
  import opened SchedulerSystem

  /** The states that the steps lead through. */
  ghost predicate IsRun(program: Program, states: seq<System>, steps: seq<SystemStep>) {
    |states| == |steps| + 1 && forall k :: 0 <= k < |steps| ==> GoesOn(program, states, steps, k)
  }

  ghost predicate GoesOn(program: Program, states: seq<System>, steps: seq<SystemStep>, k: nat)
    requires |states| == |steps| + 1 && k < |steps|
  {
    SystemEnabled(program, states[k], steps[k]) && states[k + 1] == SystemNext(program, states[k], steps[k])
  }

  lemma StepOfRun(program: Program, states: seq<System>, steps: seq<SystemStep>, k: nat)
    requires IsRun(program, states, steps) && k < |steps|
    ensures SystemEnabled(program, states[k], steps[k]) && states[k + 1] == SystemNext(program, states[k], steps[k])
  {
    assert GoesOn(program, states, steps, k);
  }

  lemma {:induction false} RunInv(program: Program, states: seq<System>, steps: seq<SystemStep>, k: nat)
    requires Injective(program.names) && IsRun(program, states, steps) && SystemInv(program.names, states[0])
    requires k <= |steps|
    ensures SystemInv(program.names, states[k]) && |states[k].pool| == |states[0].pool|
    ensures |states[k].callers| == |states[0].callers|
  {
    if k > 0 {
      StepOfRun(program, states, steps, k - 1);
      RunInv(program, states, steps, k - 1);
      SystemInvKept(program, states[k - 1], steps[k - 1]);
      StrandsStay(program, states[k - 1], steps[k - 1]);
    }
  }

  predicate Own(step: SystemStep, i: nat) {
    (step.CallerMoves? || step.Begin?) && step.i == i
  }

  /** Steps of others leave a thread's program point, its callbacks and what it has run alone. */
  lemma OthersLeave(program: Program, s: System, step: SystemStep, i: nat)
    requires SystemEnabled(program, s, step) && !Own(step, i) && i < |s.callers| == |s.duties|
    ensures var t := SystemNext(program, s, step);
      && |t.callers| == |s.callers| && |t.duties| == |s.duties| && |t.pool| == |s.pool|
      && t.callers[i] == s.callers[i] && t.duties[i] == s.duties[i]
  {
    if step.CallerMoves? {
      OtherCallerLeaves(program, s, step.i, step.idle, i);
    }
  }

  lemma OtherCallerLeaves(program: Program, s: System, j: nat, idle: nat, i: nat)
    requires CallerEnabled(program, s, j, idle) && j != i && i < |s.callers|
    ensures var t := CallerNext(program, s, j, idle);
      && |t.callers| == |s.callers| && |t.duties| == |s.duties| && |t.pool| == |s.pool|
      && t.callers[i] == s.callers[i] && t.duties[i] == s.duties[i]
  {
  }

  /** A worker goes on by a step of its own protocol, if at all. */
  lemma WorkerGoesOn(program: Program, s: System, step: SystemStep, w: nat) returns (own: Step)
    requires SystemEnabled(program, s, step) && w < |s.pool|
    ensures var t := SystemNext(program, s, step);
      && |t.pool| == |s.pool|
      && (t.pool[w] == s.pool[w] || (Enabled(s.pool[w], own) && t.pool[w] == Next(EVERY_JOB, s.pool[w], own)))
      && (step.InWorker? && step.w == w ==> own == step.step && Enabled(s.pool[w], own)
                                            && t.pool[w] == Next(EVERY_JOB, s.pool[w], own))
      && (!step.InWorker? && t.pool[w] != s.pool[w] ==> step.CallerMoves? && (own.BeginDoJob? || own.BeginCancel?)
                                                        && own.i == step.i)
      && (step.InWorker? && step.w != w ==> t.pool[w] == s.pool[w])
  {
    match step
    case InWorker(_, inside) => own := inside;
    case Begin(_, _) => own := WorkerMoves;
    case CallerMoves(i, idle) =>
      if s.callers[i].Choosing? {
        own := BeginDoJob(i, s.callers[i].call);
      } else if s.callers[i].Unregistering? {
        own := BeginCancel(i, s.callers[i].id);
      } else {
        own := WorkerMoves;
      }
  }

  // ----- a cancel within one worker

  predicate CancelNamed(c: ClientPc, name: string) {
    match c
    case WantCancel(n) => n == name
    case Scanning(n, _) => n == name
    case WantProbe(n, _) => n == name
    case Probing(n, _) => n == name
    case Dozing(n, _) => n == name
    case Erased(n) => n == name
    case _ => false
  }

  /** Client `i` is in a cancel for this name; if it has erased already, the queue is still empty. */
  predicate InsideCancel(s: State, i: nat, name: string) {
    i < |s.clients| && CancelNamed(s.clients[i], name) && (s.clients[i].Erased? ==> s.calls == [])
  }

  /** The step that ends the cancel: the queue is empty and the counter is zero. */
  ghost predicate CancelEnds(s: State, own: Step, t: State, i: nat) {
    && own == ClientMoves(i) && i < |s.clients| && s.clients[i].Erased?
    && i < |t.clients| && t.clients[i].Idle? && t.calls == [] && t.load == 0
  }

  lemma CancelGoesOn(s: State, own: Step, i: nat, name: string)
    requires LockInv(s) && Enabled(s, own) && InsideCancel(s, i, name)
    ensures var t := Next(EVERY_JOB, s, own); InsideCancel(t, i, name) || CancelEnds(s, own, t, i)
  {
    assert ClientLocks(s.queueOwner, s.execOwner, i, s.clients[i]);
    match own
    case ClientMoves(j) => CancelMoves(s, j, i, name);
    case _ =>
  }

  lemma CancelMoves(s: State, j: nat, i: nat, name: string)
    requires LockInv(s) && ClientEnabled(s, j) && InsideCancel(s, i, name)
    ensures var t := ClientNext(EVERY_JOB, s, j); InsideCancel(t, i, name) || CancelEnds(s, ClientMoves(j), t, i)
  {
    assert ClientLocks(s.queueOwner, s.execOwner, i, s.clients[i]);
    assert ClientLocks(s.queueOwner, s.execOwner, j, s.clients[j]);
    if j == i && s.clients[i].Scanning? && s.clients[i].k >= |s.calls| {
      CancelMeetsItsPromise(name, s.calls);
    }
  }

  /** Jobs come into the queue by being accepted, and never come back. */
  lemma NothingComesBack(s: State, own: Step, mark: nat)
    requires Enabled(s, own) && mark <= |s.past.accepted| && forall job :: job in s.calls ==> mark <= job.uid
    ensures var t := Next(EVERY_JOB, s, own);
      mark <= |t.past.accepted| && forall job :: job in t.calls ==> mark <= job.uid
  {
    if own.ClientMoves? && s.clients[own.i].Scanning? {
      KeptWithin(EVERY_JOB, s.clients[own.i].name, s.calls);
    }
  }

  // ----- an unregistration

  predicate BusyUnregistering(c: CallerPc) { c.Unregistering? || c.InCancel? }

  /** Thread `i` unregisters a service: the first step finds it registered and takes the lock, the last one gives the
      operation up. */
  ghost predicate IsUnregistration(program: Program, states: seq<System>, steps: seq<SystemStep>, i: nat, id: string) {
    && IsRun(program, states, steps) && SystemReachable(program, states[0]) && steps != []
    && i < |states[0].callers| && states[0].callers[i] == WantUnregister(id) && id in states[0].registry
    && steps[0].CallerMoves? && steps[0].i == i
    && (forall k :: 0 < k < |steps| ==> i < |states[k].callers| && BusyUnregistering(states[k].callers[i]))
    && i < |states[|steps|].callers| && states[|steps|].callers[i].Out?
  }

  /** Step `m` ends the cancel of thread `i` on worker `w`. */
  ghost predicate EndsAt(states: seq<System>, steps: seq<SystemStep>, i: nat, w: nat, m: nat)
    requires |states| == |steps| + 1
  {
    && m < |steps| && w < |states[m].pool| && w < |states[m + 1].pool| && steps[m] == InWorker(w, ClientMoves(i))
    && CancelEnds(states[m].pool[w], ClientMoves(i), states[m + 1].pool[w], i)
  }

  ghost predicate Ended(states: seq<System>, steps: seq<SystemStep>, i: nat, w: nat, n: nat)
    requires |states| == |steps| + 1
  {
    exists m: nat :: m < n && EndsAt(states, steps, i, w, m)
  }

  ghost predicate EndedBelow(states: seq<System>, steps: seq<SystemStep>, i: nat, w: nat, n: nat)
    requires |states| == |steps| + 1
  {
    forall v: nat :: v < w ==> Ended(states, steps, i, v, n)
  }

  /** After `n` steps the cancels have ended on all workers before the one whose turn it is. */
  ghost predicate SoFar(states: seq<System>, steps: seq<SystemStep>, i: nat, id: string, n: nat)
    requires |states| == |steps| + 1 && n <= |steps|
  {
    && i < |states[n].callers|
    && match states[n].callers[i]
       case Unregistering(name, w) => name == id && w <= |states[n].pool| && EndedBelow(states, steps, i, w, n)
       case InCancel(name, w) =>
         && name == id && w < |states[n].pool| && EndedBelow(states, steps, i, w, n)
         && (InsideCancel(states[n].pool[w], i, id) || Ended(states, steps, i, w, n))
       case _ => false
  }

  /** What has ended has ended one step later, and on one worker more if it has there. */
  lemma EndedStays(states: seq<System>, steps: seq<SystemStep>, i: nat, w: nat, n: nat)
    requires |states| == |steps| + 1 && EndedBelow(states, steps, i, w, n)
    ensures EndedBelow(states, steps, i, w, n + 1)
    ensures Ended(states, steps, i, w, n) ==> Ended(states, steps, i, w, n + 1)
    ensures Ended(states, steps, i, w, n) ==> EndedBelow(states, steps, i, w + 1, n + 1)
  {
    forall v: nat | Ended(states, steps, i, v, n) ensures Ended(states, steps, i, v, n + 1) {
      var m: nat :| m < n && EndsAt(states, steps, i, v, m);
    }
    var next := n + 1;
    forall v: nat | v < w ensures Ended(states, steps, i, v, next) {
      assert Ended(states, steps, i, v, n);
    }
  }

  /** The thread's own steps go from worker to worker, and out behind the last one. */
  lemma OwnUnregisters(program: Program, s: System, step: SystemStep, i: nat, id: string)
    requires PresenceInv(s) && SystemEnabled(program, s, step) && Own(step, i)
    requires BusyUnregistering(s.callers[i]) && s.callers[i].id == id
    ensures var t, c := SystemNext(program, s, step), s.callers[i];
      && |t.pool| == |s.pool| && i < |t.callers|
      && (c.InCancel? ==> !InsideCancel(s.pool[c.w], i, id) && t.callers[i] == Unregistering(id, c.w + 1))
      && (c.Unregistering? && c.w < |s.pool| ==> t.callers[i] == InCancel(id, c.w) && InsideCancel(t.pool[c.w], i, id))
      && (c.Unregistering? && c.w >= |s.pool| ==> t.callers[i].Out?)
  {
  }

  lemma SoFarNext(program: Program, states: seq<System>, steps: seq<SystemStep>, i: nat, id: string, n: nat)
    requires IsRun(program, states, steps) && n < |steps| && SystemInv(program.names, states[n])
    requires SoFar(states, steps, i, id, n)
    ensures i < |states[n + 1].callers| && |states[n + 1].pool| == |states[n].pool|
    ensures if BusyUnregistering(states[n + 1].callers[i]) then SoFar(states, steps, i, id, n + 1)
            else EndedBelow(states, steps, i, |states[n].pool|, n + 1)
  {
    var c := states[n].callers[i];
    EndedStays(states, steps, i, c.w, n);
    StepOfRun(program, states, steps, n);
    if Own(steps[n], i) {
      OwnUnregisters(program, states[n], steps[n], i, id);
    } else {
      OthersLeave(program, states[n], steps[n], i);
      if c.InCancel? {
        InsideStepSoFar(program, states, steps, i, id, n, c.w);
      }
    }
  }

  lemma InsideStepSoFar(program: Program, states: seq<System>, steps: seq<SystemStep>, i: nat, id: string, n: nat,
                        w: nat)
    requires IsRun(program, states, steps) && n < |steps| && PoolInv(states[n]) && !Own(steps[n], i)
    requires SystemEnabled(program, states[n], steps[n]) && states[n + 1] == SystemNext(program, states[n], steps[n])
    requires w < |states[n].pool| && (InsideCancel(states[n].pool[w], i, id) || Ended(states, steps, i, w, n + 1))
    ensures w < |states[n + 1].pool|
    ensures InsideCancel(states[n + 1].pool[w], i, id) || Ended(states, steps, i, w, n + 1)
  {
    var own := WorkerGoesOn(program, states[n], steps[n], w);
    if InsideCancel(states[n].pool[w], i, id) && states[n + 1].pool[w] != states[n].pool[w] {
      CancelGoesOn(states[n].pool[w], own, i, id);
      if !InsideCancel(states[n + 1].pool[w], i, id) {
        assert EndsAt(states, steps, i, w, n);
      }
    }
  }

  lemma {:induction false} AllSoFar(program: Program, states: seq<System>, steps: seq<SystemStep>, i: nat, id: string,
                                    n: nat)
    requires Injective(program.names) && IsUnregistration(program, states, steps, i, id) && 0 < n < |steps|
    ensures SoFar(states, steps, i, id, n)
  {
    if n == 1 {
      FirstSoFar(program, states, steps, i, id);
    } else {
      AllSoFar(program, states, steps, i, id, n - 1);
      SystemReachableInv(program, states[0]);
      RunInv(program, states, steps, n - 1);
      SoFarNext(program, states, steps, i, id, n - 1);
    }
  }

  lemma FirstSoFar(program: Program, states: seq<System>, steps: seq<SystemStep>, i: nat, id: string)
    requires IsUnregistration(program, states, steps, i, id)
    ensures |steps| > 1 && SoFar(states, steps, i, id, 1)
  {
    StepOfRun(program, states, steps, 0);
    assert EndedBelow(states, steps, i, 0, 1);
  }

  lemma AllEndedAtLast(program: Program, states: seq<System>, steps: seq<SystemStep>, i: nat, id: string, w: nat)
    returns (m: nat)
    requires Injective(program.names) && IsUnregistration(program, states, steps, i, id) && w < |states[0].pool|
    ensures m < |steps| && EndsAt(states, steps, i, w, m)
  {
    var n := |steps| - 1;
    FirstSoFar(program, states, steps, i, id);
    SystemReachableInv(program, states[0]);
    RunInv(program, states, steps, n);
    AllSoFar(program, states, steps, i, id, n);
    SoFarNext(program, states, steps, i, id, n);
    assert Ended(states, steps, i, w, n + 1);
    m :| m < n + 1 && EndsAt(states, steps, i, w, m);
  }

  /** An unregistration cancels on every worker before it is over: on each of them a step in between ends its cancel,
      with the queue empty and the counter at zero. */
  lemma UnregistrationCancelsEverywhere(program: Program, states: seq<System>, steps: seq<SystemStep>, i: nat,
                                        id: string, w: nat) returns (m: nat)
    requires Injective(program.names) && IsUnregistration(program, states, steps, i, id) && w < |states[0].pool|
    ensures m < |steps| && w < |states[m].pool| && w < |states[m + 1].pool| && steps[m] == InWorker(w, ClientMoves(i))
    ensures i < |states[m].pool[w].clients| && states[m].pool[w].clients[i].Erased?
    ensures states[m + 1].pool[w].calls == [] && states[m + 1].pool[w].load == 0
  {
    m := AllEndedAtLast(program, states, steps, i, id, w);
  }

  /** The worker has accepted so many jobs, and none of them is in the queue. */
  ghost predicate QueueFrom(s: State, mark: nat) {
    mark <= |s.past.accepted| && forall job :: job in s.calls ==> mark <= job.uid
  }

  /** What was not in the queue any more does not come back. */
  lemma {:induction false} QueueStaysNew(program: Program, states: seq<System>, steps: seq<SystemStep>, w: nat,
                                         mark: nat, m: nat, n: nat)
    requires IsRun(program, states, steps) && m <= n <= |steps| && w < |states[m].pool|
    requires QueueFrom(states[m].pool[w], mark)
    ensures w < |states[n].pool| && QueueFrom(states[n].pool[w], mark)
    ensures states[m].pool[w].past.accepted <= states[n].pool[w].past.accepted
    decreases n
  {
    if m < n {
      QueueStaysNew(program, states, steps, w, mark, m, n - 1);
      StepOfRun(program, states, steps, n - 1);
      QueueStepNew(program, states[n - 1], steps[n - 1], states[n], w, mark);
    }
  }

  lemma QueueStepNew(program: Program, s: System, step: SystemStep, t: System, w: nat, mark: nat)
    requires SystemEnabled(program, s, step) && t == SystemNext(program, s, step)
    requires w < |s.pool| && QueueFrom(s.pool[w], mark)
    ensures w < |t.pool| && QueueFrom(t.pool[w], mark) && s.pool[w].past.accepted <= t.pool[w].past.accepted
  {
    var own := WorkerGoesOn(program, s, step, w);
    if t.pool[w] != s.pool[w] {
      NothingComesBack(s.pool[w], own, mark);
      StepGrows(EVERY_JOB, s.pool[w], own);
    }
  }

  /** When an unregistration is over, no worker has any job in its queue that was accepted before: each has been
      executed, is in hand or was cancelled. */
  lemma UnregistrationLeavesNothing(program: Program, states: seq<System>, steps: seq<SystemStep>, i: nat, id: string,
                                    w: nat, job: Job)
    requires Injective(program.names) && IsUnregistration(program, states, steps, i, id) && w < |states[0].pool|
    requires job in states[0].pool[w].past.accepted
    ensures var end := states[|steps|];
      && w < |end.pool|
      && job in end.pool[w].past.accepted && job !in end.pool[w].calls
      && (job.uid !in end.pool[w].past.cancelled ==>
           job in end.pool[w].past.executed || job in InHand(end.pool[w].worker))
  {
    var n := |steps|;
    var m := UnregistrationCancelsEverywhere(program, states, steps, i, id, w);
    QueueStaysNew(program, states, steps, w, 0, 0, m + 1);
    var mark := |states[m + 1].pool[w].past.accepted|;
    QueueStaysNew(program, states, steps, w, mark, m + 1, n);
    SystemReachableInv(program, states[0]);
    RunInv(program, states, steps, n);
    AcceptedBelow(states[0].pool[w], job);
    SurvivorsExact(states[n].pool[w].past.accepted, states[n].pool[w].past.cancelled);
  }

  lemma AcceptedBelow(s: State, job: Job)
    requires Numbered(s.past.accepted) && job in s.past.accepted
    ensures job.uid < |s.past.accepted|
  {
  }

  /** Until it is over the unregistration keeps the mapping lock, and the service stays unregistered. */
  lemma {:induction false} UnregisteredMeanwhile(program: Program, states: seq<System>, steps: seq<SystemStep>, i: nat,
                                                 id: string, n: nat)
    requires Injective(program.names) && IsUnregistration(program, states, steps, i, id) && 0 < n <= |steps|
    ensures id !in states[n].registry
    ensures n < |steps| ==> states[n].mappingOwner == Client(i)
  {
    SystemReachableInv(program, states[0]);
    RunInv(program, states, steps, n - 1);
    RunInv(program, states, steps, n);
    StepOfRun(program, states, steps, n - 1);
    if n > 1 {
      UnregisteredMeanwhile(program, states, steps, i, id, n - 1);
      RegistryKept(program, states[n - 1], steps[n - 1], i);
    }
    if n < |steps| {
      assert HoldsMapping(states[n].callers[i], states[n].duties[i]);
    }
  }

  /** While a thread is unregistering, nobody registers anything. */
  lemma RegistryKept(program: Program, s: System, step: SystemStep, i: nat)
    requires SystemEnabled(program, s, step) && s.mappingOwner == Client(i) && i < |s.callers|
    requires BusyUnregistering(s.callers[i])
    ensures SystemNext(program, s, step).registry == s.registry
  {
  }

  // ----- a call

  predicate BusyCalling(c: CallerPc) { c.Comparing? || c.Choosing? || c.Calling? }

  /** Thread `i` makes a call: the first step asks the registry, the last one gives the operation up. */
  ghost predicate IsCall(program: Program, states: seq<System>, steps: seq<SystemStep>, i: nat, id: string, given: Tag,
                         prop: Property)
  {
    && IsRun(program, states, steps) && SystemReachable(program, states[0]) && steps != []
    && i < |states[0].callers| && states[0].callers[i] == Fetching(id, given, prop)
    && steps[0].CallerMoves? && steps[0].i == i
    && (forall k :: 0 < k < |steps| ==> i < |states[k].callers| && BusyCalling(states[k].callers[i]))
    && i < |states[|steps|].callers| && states[|steps|].callers[i].Out?
  }

  /** The service is registered, under the type of the arguments. */
  predicate Passes(program: Program, s: System, id: string, given: Tag) {
    id in s.registry && program.names(given) == s.registry[id].typeName
  }

  /** What is then called. */
  function CallOf(s: System, id: string, given: Tag, prop: Property): Call
    requires id in s.registry
  {
    Call(id, prop.strand, prop.hasDone, prop.blocking, s.registry[id].expects, given)
  }

  /** The calls that thread `i` has run itself. */
  function RanBy(ran: seq<Inline>, i: nat): seq<Call> {
    if ran == [] then []
    else RanBy(ran[..|ran| - 1], i) + if ran[|ran| - 1].thread == i then [ran[|ran| - 1].call] else []
  }

  /** Step `m` puts a call of thread `i` into the queue of worker `w`. */
  ghost predicate PushesAt(states: seq<System>, steps: seq<SystemStep>, i: nat, w: nat, m: nat)
    requires |states| == |steps| + 1
  {
    && m < |steps| && w < |states[m].pool| && steps[m] == InWorker(w, ClientMoves(i))
    && i < |states[m].pool[w].clients| && states[m].pool[w].clients[i].WantPush?
  }

  ghost predicate NoPush(states: seq<System>, steps: seq<SystemStep>, i: nat, n: nat)
    requires |states| == |steps| + 1
  {
    forall w: nat, m: nat :: m < n ==> !PushesAt(states, steps, i, w, m)
  }

  ghost predicate OnePush(states: seq<System>, steps: seq<SystemStep>, i: nat, w: nat, m: nat, n: nat)
    requires |states| == |steps| + 1
  {
    && m < n && PushesAt(states, steps, i, w, m)
    && forall v: nat, k: nat :: k < n && PushesAt(states, steps, i, v, k) ==> v == w && k == m
  }

  /** The call is in the queue: its client is on the way back, or out again, after the run of its job if it waits. */
  predicate OnTheWayBack(s: State, i: nat, job: Job) {
    && i < |s.clients|
    && match s.clients[i]
       case Pushed(j) => j == job
       case Notified(j) => j == job
       case FlagTest(j) => j == job && j.call.blocking
       case FlagAsleep(j, _) => j == job && j.call.blocking
       case Idle => job.call.blocking ==> job.uid in s.past.returned
       case _ => false
  }

  lemma BackGoesOn(s: State, own: Step, i: nat, job: Job)
    requires Enabled(s, own) && OnTheWayBack(s, i, job)
    requires own.BeginDoJob? || own.BeginCancel? ==> own.i != i
    ensures OnTheWayBack(Next(EVERY_JOB, s, own), i, job)
  {
    if own.ClientMoves? {
      BackMoves(s, own.i, i, job);
    }
  }

  lemma BackMoves(s: State, j: nat, i: nat, job: Job)
    requires ClientEnabled(s, j) && OnTheWayBack(s, i, job)
    ensures OnTheWayBack(ClientNext(EVERY_JOB, s, j), i, job)
  {
  }

  /** The step that pushes. */
  lemma PushAppends(s: State, i: nat, call: Call)
    requires ClientEnabled(s, i) && s.clients[i] == WantPush(call)
    ensures var t, job := ClientNext(EVERY_JOB, s, i), Job(|s.past.accepted|, call);
      t.calls == s.calls + [job] && t.past.accepted == s.past.accepted + [job] && OnTheWayBack(t, i, job)
  {
  }

  /** Only the client's own step takes it away from its push. */
  lemma WaitsToPush(s: State, own: Step, i: nat)
    requires Enabled(s, own) && own != ClientMoves(i) && i < |s.clients| && s.clients[i].WantPush?
    requires own.BeginDoJob? || own.BeginCancel? ==> own.i != i
    ensures var t := Next(EVERY_JOB, s, own); i < |t.clients| && t.clients[i] == s.clients[i]
  {
    match own
    case ClientMoves(j) => OtherClientWaits(s, j, i);
    case WorkerMoves => WorkerLeavesPush(s, i);
    case _ =>
  }

  lemma OtherClientWaits(s: State, j: nat, i: nat)
    requires ClientEnabled(s, j) && j != i && i < |s.clients|
    ensures var t := ClientNext(EVERY_JOB, s, j); i < |t.clients| && t.clients[i] == s.clients[i]
  {
  }

  lemma WorkerLeavesPush(s: State, i: nat)
    requires WorkerEnabled(s) && i < |s.clients| && s.clients[i].WantPush?
    ensures var t := WorkerNext(s); i < |t.clients| && t.clients[i] == s.clients[i]
  {
  }

  lemma OthersRunThemselves(program: Program, s: System, step: SystemStep, i: nat)
    requires SystemEnabled(program, s, step) && !(step.CallerMoves? && step.i == i)
    ensures RanBy(SystemNext(program, s, step).inline, i) == RanBy(s.inline, i)
  {
    var t := SystemNext(program, s, step);
    if t.inline != s.inline {
      assert t.inline[..|t.inline| - 1] == s.inline;
    }
  }

  /** Step `m` is the one that puts the call into the queue of worker `w`, at its end; there is no other. */
  ghost predicate PushedOnce(states: seq<System>, steps: seq<SystemStep>, i: nat, call: Call, w: nat, m: nat, n: nat)
    requires |states| == |steps| + 1
  {
    && OnePush(states, steps, i, w, m, n) && w < |states[m + 1].pool|
    && var s, t := states[m].pool[w], states[m + 1].pool[w];
      && s.clients[i] == WantPush(call)
      && t.calls == s.calls + [Job(|s.past.accepted|, call)]
      && t.past.accepted == s.past.accepted + [Job(|s.past.accepted|, call)]
  }

  /** The job of the call that was pushed at step `m`. */
  function PushedJob(states: seq<System>, call: Call, w: nat, m: nat): Job
    requires m < |states| && w < |states[m].pool|
  {
    Job(|states[m].pool[w].past.accepted|, call)
  }

  ghost predicate Delivered(states: seq<System>, steps: seq<SystemStep>, i: nat, call: Call, w: nat, m: nat, n: nat)
    requires |states| == |steps| + 1 && n <= |steps|
  {
    && PushedOnce(states, steps, i, call, w, m, n) && w < |states[n].pool|
    && OnTheWayBack(states[n].pool[w], i, PushedJob(states, call, w, m))
  }

  /** The strand of the call, if it has one, is bound to worker `w`. */
  predicate Bound(s: System, strand: string, w: nat) {
    strand != "" ==> strand in s.strands && s.strands[strand] == w
  }

  /** Nothing has come of the call yet. */
  ghost predicate NothingYetOf(states: seq<System>, steps: seq<SystemStep>, i: nat, n: nat)
    requires |states| == |steps| + 1 && n <= |steps|
  {
    NoPush(states, steps, i, n) && RanBy(states[n].inline, i) == RanBy(states[0].inline, i)
  }

  /** What has come of the call after `n` steps, by the program point of its thread. */
  ghost predicate CallSoFar(program: Program, states: seq<System>, steps: seq<SystemStep>, i: nat, id: string,
                            given: Tag, prop: Property, n: nat)
    requires |states| == |steps| + 1 && n <= |steps|
  {
    && i < |states[n].callers|
    && match states[n].callers[i]
       case Comparing(name, tag, p, entry) =>
         && name == id && tag == given && p == prop && id in states[0].registry && entry == states[0].registry[id]
         && NothingYetOf(states, steps, i, n)
       case Choosing(call, async) =>
         && Passes(program, states[0], id, given) && call == CallOf(states[0], id, given, prop) && async == prop.async
         && NothingYetOf(states, steps, i, n)
       case Calling(w) =>
         && Passes(program, states[0], id, given) && prop.async
         && RanBy(states[n].inline, i) == RanBy(states[0].inline, i)
         && CallInWorker(states, steps, i, CallOf(states[0], id, given, prop), w, n)
       case Out => CallOver(program, states, steps, i, id, given, prop, n)
       case _ => false
  }

  ghost predicate CallInWorker(states: seq<System>, steps: seq<SystemStep>, i: nat, call: Call, w: nat, n: nat)
    requires |states| == |steps| + 1 && n <= |steps|
  {
    && w < |states[n].pool| && i < |states[n].pool[w].clients| && Bound(states[n], call.strand, w)
    && ((NoPush(states, steps, i, n) && states[n].pool[w].clients[i] == WantPush(call))
        || exists m: nat :: Delivered(states, steps, i, call, w, m, n))
  }

  ghost predicate CallOver(program: Program, states: seq<System>, steps: seq<SystemStep>, i: nat, id: string,
                           given: Tag, prop: Property, n: nat)
    requires |states| == |steps| + 1 && n <= |steps|
  {
    if !Passes(program, states[0], id, given) then NothingYetOf(states, steps, i, n)
    else
      var call := CallOf(states[0], id, given, prop);
      if prop.async then
        && RanBy(states[n].inline, i) == RanBy(states[0].inline, i)
        && exists w: nat, m: nat ::
             Delivered(states, steps, i, call, w, m, n) && Bound(states[n], call.strand, w)
             && states[n].pool[w].clients[i].Idle?
      else
        NoPush(states, steps, i, n) && RanBy(states[n].inline, i) == RanBy(states[0].inline, i) + [call]
  }

  lemma NoPushNext(states: seq<System>, steps: seq<SystemStep>, i: nat, n: nat)
    requires |states| == |steps| + 1 && n < |steps| && forall w: nat :: !PushesAt(states, steps, i, w, n)
    ensures NoPush(states, steps, i, n) ==> NoPush(states, steps, i, n + 1)
    ensures forall w: nat, m: nat :: OnePush(states, steps, i, w, m, n) ==> OnePush(states, steps, i, w, m, n + 1)
  {
    forall w: nat, m: nat | OnePush(states, steps, i, w, m, n) ensures OnePush(states, steps, i, w, m, n + 1) {
    }
  }

  lemma FirstPush(states: seq<System>, steps: seq<SystemStep>, i: nat, w: nat, n: nat)
    requires |states| == |steps| + 1 && NoPush(states, steps, i, n) && PushesAt(states, steps, i, w, n)
    ensures OnePush(states, steps, i, w, n, n + 1)
  {
  }

  /** The thread's own steps are none inside a worker, and outside a call it is in no worker. */
  lemma WherePushed(states: seq<System>, steps: seq<SystemStep>, i: nat, n: nat)
    requires |states| == |steps| + 1 && n < |steps| && PresenceInv(states[n]) && i < |states[n].callers|
    ensures forall w: nat :: PushesAt(states, steps, i, w, n) ==>
      !Own(steps[n], i) && states[n].callers[i] == Calling(w)
  {
    forall w: nat | PushesAt(states, steps, i, w, n) ensures states[n].callers[i] == Calling(w) {
      assert Present(states[n].callers[i], w, states[n].pool[w].clients[i]);
    }
  }

  lemma CallGoesOn(program: Program, states: seq<System>, steps: seq<SystemStep>, i: nat, id: string, given: Tag,
                   prop: Property, n: nat)
    requires IsRun(program, states, steps) && n < |steps| && SystemInv(program.names, states[n])
    requires CallSoFar(program, states, steps, i, id, given, prop, n) && !states[n].callers[i].Out?
    ensures CallSoFar(program, states, steps, i, id, given, prop, n + 1)
  {
    StepOfRun(program, states, steps, n);
    WherePushed(states, steps, i, n);
    if Own(steps[n], i) {
      NoPushNext(states, steps, i, n);
      OwnCallStep(program, states, steps, i, id, given, prop, n);
    } else {
      OthersLeave(program, states[n], steps[n], i);
      OthersRunThemselves(program, states[n], steps[n], i);
      if states[n].callers[i].Calling? {
        CallInWorkerGoesOn(program, states, steps, i, CallOf(states[0], id, given, prop), states[n].callers[i].w, n);
      } else {
        NoPushNext(states, steps, i, n);
      }
    }
  }

  /** The thread itself moves, and that is no push. */
  ghost predicate OwnMove(program: Program, states: seq<System>, steps: seq<SystemStep>, i: nat, n: nat) {
    && |states| == |steps| + 1 && n < |steps| && PresenceInv(states[n]) && PoolInv(states[n]) && Own(steps[n], i)
    && SystemEnabled(program, states[n], steps[n]) && states[n + 1] == SystemNext(program, states[n], steps[n])
    && i < |states[n].callers|
    && (NoPush(states, steps, i, n) ==> NoPush(states, steps, i, n + 1))
    && (forall w: nat, m: nat :: OnePush(states, steps, i, w, m, n) ==> OnePush(states, steps, i, w, m, n + 1))
  }

  lemma OwnCallStep(program: Program, states: seq<System>, steps: seq<SystemStep>, i: nat, id: string, given: Tag,
                    prop: Property, n: nat)
    requires OwnMove(program, states, steps, i, n) && !states[n].callers[i].Out?
    requires CallSoFar(program, states, steps, i, id, given, prop, n)
    ensures CallSoFar(program, states, steps, i, id, given, prop, n + 1)
  {
    match states[n].callers[i]
    case Comparing(_, _, _, _) => CallCompares(program, states, steps, i, id, given, prop, n);
    case Choosing(_, _) => CallChooses(program, states, steps, i, id, given, prop, n);
    case Calling(_) => CallReturns(program, states, steps, i, id, given, prop, n);
  }

  lemma CallCompares(program: Program, states: seq<System>, steps: seq<SystemStep>, i: nat, id: string, given: Tag,
                     prop: Property, n: nat)
    requires OwnMove(program, states, steps, i, n) && states[n].callers[i].Comparing?
    requires CallSoFar(program, states, steps, i, id, given, prop, n)
    ensures CallSoFar(program, states, steps, i, id, given, prop, n + 1)
  {
  }

  lemma CallChooses(program: Program, states: seq<System>, steps: seq<SystemStep>, i: nat, id: string, given: Tag,
                    prop: Property, n: nat)
    requires OwnMove(program, states, steps, i, n) && states[n].callers[i].Choosing?
    requires CallSoFar(program, states, steps, i, id, given, prop, n)
    ensures CallSoFar(program, states, steps, i, id, given, prop, n + 1)
  {
    if prop.async {
      CallEnters(program, states[n], steps[n], states[n + 1], i);
    } else {
      RanSnoc(states[n].inline, i, states[n].callers[i].call);
    }
  }

  /** The call goes to its strand's worker, which it binds if there is none. */
  lemma CallEnters(program: Program, s: System, step: SystemStep, t: System, i: nat)
    requires PoolInv(s) && SystemEnabled(program, s, step) && t == SystemNext(program, s, step) && Own(step, i)
    requires i < |s.callers| && s.callers[i].Choosing? && s.callers[i].async
    ensures i < |t.callers| && t.callers[i].Calling? && t.inline == s.inline
    ensures var w, call := t.callers[i].w, s.callers[i].call;
      w < |t.pool| && Bound(t, call.strand, w) && i < |t.pool[w].clients| && t.pool[w].clients[i] == WantPush(call)
  {
  }

  lemma CallReturns(program: Program, states: seq<System>, steps: seq<SystemStep>, i: nat, id: string, given: Tag,
                    prop: Property, n: nat)
    requires OwnMove(program, states, steps, i, n) && states[n].callers[i].Calling?
    requires CallSoFar(program, states, steps, i, id, given, prop, n)
    ensures CallSoFar(program, states, steps, i, id, given, prop, n + 1)
  {
    var call, w := CallOf(states[0], id, given, prop), states[n].callers[i].w;
    var m: nat :| Delivered(states, steps, i, call, w, m, n);
    assert Delivered(states, steps, i, call, w, m, n + 1);
  }

  lemma RanSnoc(ran: seq<Inline>, i: nat, call: Call)
    ensures RanBy(ran + [Inline(i, call)], i) == RanBy(ran, i) + [call]
  {
    assert (ran + [Inline(i, call)])[..|ran|] == ran;
  }

  lemma CallInWorkerGoesOn(program: Program, states: seq<System>, steps: seq<SystemStep>, i: nat, call: Call, w: nat,
                           n: nat)
    requires IsRun(program, states, steps) && n < |steps| && PoolInv(states[n]) && !Own(steps[n], i)
    requires SystemEnabled(program, states[n], steps[n]) && states[n + 1] == SystemNext(program, states[n], steps[n])
    requires forall v: nat :: PushesAt(states, steps, i, v, n) ==> v == w
    requires CallInWorker(states, steps, i, call, w, n)
    ensures CallInWorker(states, steps, i, call, w, n + 1)
  {
    var own := WorkerGoesOn(program, states[n], steps[n], w);
    StrandsStay(program, states[n], steps[n]);
    if PushesAt(states, steps, i, w, n) {
      PushStep(program, states, steps, i, call, w, n);
    } else {
      NoPushNext(states, steps, i, n);
      if states[n].pool[w].clients[i] == WantPush(call) {
        if states[n + 1].pool[w] != states[n].pool[w] {
          WaitsToPush(states[n].pool[w], own, i);
        }
      } else {
        var m: nat :| Delivered(states, steps, i, call, w, m, n);
        if states[n + 1].pool[w] != states[n].pool[w] {
          BackGoesOn(states[n].pool[w], own, i, PushedJob(states, call, w, m));
        }
        assert Delivered(states, steps, i, call, w, m, n + 1);
      }
    }
  }

  lemma PushStep(program: Program, states: seq<System>, steps: seq<SystemStep>, i: nat, call: Call, w: nat, n: nat)
    requires |states| == |steps| + 1 && n < |steps|
    requires SystemEnabled(program, states[n], steps[n]) && states[n + 1] == SystemNext(program, states[n], steps[n])
    requires PushesAt(states, steps, i, w, n) && CallInWorker(states, steps, i, call, w, n)
    ensures w < |states[n + 1].pool| && i < |states[n + 1].pool[w].clients|
    ensures Delivered(states, steps, i, call, w, n, n + 1)
  {
    assert !exists m: nat :: Delivered(states, steps, i, call, w, m, n);
    FirstPush(states, steps, i, w, n);
    PushAppends(states[n].pool[w], i, call);
  }

  lemma {:induction false} AllCallSoFar(program: Program, states: seq<System>, steps: seq<SystemStep>, i: nat,
                                        id: string, given: Tag, prop: Property, n: nat)
    requires Injective(program.names) && IsCall(program, states, steps, i, id, given, prop) && 0 < n <= |steps|
    ensures CallSoFar(program, states, steps, i, id, given, prop, n)
  {
    if n == 1 {
      FirstOfCall(program, states, steps, i, id, given, prop);
    } else {
      AllCallSoFar(program, states, steps, i, id, given, prop, n - 1);
      SystemReachableInv(program, states[0]);
      RunInv(program, states, steps, n - 1);
      CallGoesOn(program, states, steps, i, id, given, prop, n - 1);
    }
  }

  lemma FirstOfCall(program: Program, states: seq<System>, steps: seq<SystemStep>, i: nat, id: string, given: Tag,
                    prop: Property)
    requires Injective(program.names) && IsCall(program, states, steps, i, id, given, prop)
    ensures CallSoFar(program, states, steps, i, id, given, prop, 1)
  {
    StepOfRun(program, states, steps, 0);
    SystemReachableInv(program, states[0]);
    WherePushed(states, steps, i, 0);
    NoPushNext(states, steps, i, 0);
  }

  /** A synchronous call that passes the type check is run once, by the thread that makes it, and is queued nowhere. */
  lemma SyncCallRunsOnce(program: Program, states: seq<System>, steps: seq<SystemStep>, i: nat, id: string, given: Tag,
                         prop: Property)
    requires Injective(program.names) && IsCall(program, states, steps, i, id, given, prop) && !prop.async
    requires id in states[0].registry && program.names(given) == states[0].registry[id].typeName
    ensures var expects := states[0].registry[id].expects;
      RanBy(states[|steps|].inline, i)
        == RanBy(states[0].inline, i) + [Call(id, prop.strand, prop.hasDone, prop.blocking, expects, given)]
    ensures NoPush(states, steps, i, |steps|)
  {
    AllCallSoFar(program, states, steps, i, id, given, prop, |steps|);
  }

  /** An asynchronous call that passes the type check is put into the queue of one worker, that of its strand if it has
      one, once and behind all others; and if it waits, it has returned with its job. */
  lemma AsyncCallIsQueuedOnce(program: Program, states: seq<System>, steps: seq<SystemStep>, i: nat, id: string,
                              given: Tag, prop: Property) returns (w: nat, m: nat)
    requires Injective(program.names) && IsCall(program, states, steps, i, id, given, prop) && prop.async
    requires id in states[0].registry && program.names(given) == states[0].registry[id].typeName
    ensures m < |steps| && w < |states[m].pool| && w < |states[m + 1].pool| && w < |states[|steps|].pool|
    ensures var call := Call(id, prop.strand, prop.hasDone, prop.blocking, states[0].registry[id].expects, given);
      var s, t, end := states[m].pool[w], states[m + 1].pool[w], states[|steps|];
      && t.calls == s.calls + [Job(|s.past.accepted|, call)]
      && t.past.accepted == s.past.accepted + [Job(|s.past.accepted|, call)]
      && (prop.blocking ==> |s.past.accepted| in end.pool[w].past.returned)
      && (prop.strand != "" ==> prop.strand in end.strands && end.strands[prop.strand] == w)
    ensures OnePush(states, steps, i, w, m, |steps|)
    ensures RanBy(states[|steps|].inline, i) == RanBy(states[0].inline, i)
  {
    AllCallSoFar(program, states, steps, i, id, given, prop, |steps|);
    var call := CallOf(states[0], id, given, prop);
    w, m :| Delivered(states, steps, i, call, w, m, |steps|) && Bound(states[|steps|], call.strand, w)
            && states[|steps|].pool[w].clients[i].Idle?;
  }

  /** A call of a service that is not registered, or with arguments of another type, is neither run nor queued. */
  lemma RefusedCallDoesNothing(program: Program, states: seq<System>, steps: seq<SystemStep>, i: nat, id: string,
                               given: Tag, prop: Property)
    requires Injective(program.names) && IsCall(program, states, steps, i, id, given, prop)
    requires !(id in states[0].registry && program.names(given) == states[0].registry[id].typeName)
    ensures RanBy(states[|steps|].inline, i) == RanBy(states[0].inline, i) && NoPush(states, steps, i, |steps|)
  {
    AllCallSoFar(program, states, steps, i, id, given, prop, |steps|);
  }

  // ----- a notification

  /** The step ends in an exception of thread `i`: a call with the wrong type, or a registration of a registered id. */
  predicate Throws(program: Program, s: System, step: SystemStep, i: nat) {
    && step.CallerMoves? && step.i == i && i < |s.callers|
    && match s.callers[i]
       case Comparing(_, given, _, entry) => program.names(given) != entry.typeName
       case WantRegister(id, _, _) => id in s.registry
       case _ => false
  }

  /** Thread `i` runs these callbacks under the mapping lock, until it gives the lock up; nothing throws. */
  ghost predicate IsNotification(program: Program, states: seq<System>, steps: seq<SystemStep>, i: nat,
                                 todo: seq<Request>)
  {
    && IsRun(program, states, steps) && SystemReachable(program, states[0])
    && i < |states[0].callers| && i < |states[0].duties| && states[0].callers[i].Out?
    && states[0].duties[i] == Notify(todo)
    && (forall k :: 0 <= k < |steps| ==>
          i < |states[k].duties| && states[k].duties[i].Notify? && !Throws(program, states[k], steps[k], i))
    && i < |states[|steps|].duties| && states[|steps|].duties[i].Free?
  }

  predicate StandsAt(states: seq<System>, i: nat, k: nat, c: CallerPc) {
    k < |states| && i < |states[k].callers| && states[k].callers[i] == c
  }

  /** The callbacks that have been started, in order, each at a moment up to the `n`th. */
  predicate Started(states: seq<System>, i: nat, todo: seq<Request>, moments: seq<nat>, n: nat) {
    && |moments| <= |todo| && n < |states|
    && (forall a :: 0 <= a < |moments| ==> moments[a] <= n && StandsAt(states, i, moments[a], FirstPoint(todo[a])))
    && (forall a, b :: 0 <= a < b < |moments| ==> moments[a] < moments[b])
  }

  /** The callbacks of a thread change only by its own steps: the first one is started, those of a registration or a
      subscription come in front of them, and when there is none left the thread gives up the lock. */
  lemma DutyStep(program: Program, s: System, step: SystemStep, i: nat)
    requires SystemEnabled(program, s, step) && i < |s.callers| == |s.duties| && s.duties[i].Notify?
    requires !Throws(program, s, step, i)
    ensures var t, todo := SystemNext(program, s, step), s.duties[i].todo;
      && i < |t.callers| && i < |t.duties|
      && if Own(step, i) && s.callers[i].Out? then
           if todo == [] then t.duties[i].Free?
           else t.duties[i] == Notify(todo[1..]) && t.callers[i] == FirstPoint(todo[0])
         else t.duties[i].Notify? && exists more :: t.duties[i].todo == more + todo
  {
    if Own(step, i) {
      var c, todo := s.callers[i], s.duties[i].todo;
      assert [] + todo == todo;
      if c.WantRegister? || (c.WantWatch? && c.id in s.registry) {
        assert SystemNext(program, s, step).duties[i].todo == c.replies + todo;
      } else if !c.Out? {
        assert SystemNext(program, s, step).duties[i].todo == [] + todo;
      }
    } else {
      OthersLeave(program, s, step, i);
      assert SystemNext(program, s, step).duties[i].todo == [] + s.duties[i].todo;
    }
  }

  lemma {:induction false} StartedSoFar(program: Program, states: seq<System>, steps: seq<SystemStep>, i: nat,
                                        todo: seq<Request>, n: nat)
    returns (moments: seq<nat>, front: seq<Request>)
    requires Injective(program.names) && IsNotification(program, states, steps, i, todo) && n <= |steps|
    ensures Started(states, i, todo, moments, n)
    ensures n < |steps| ==> states[n].duties[i] == Notify(front + todo[|moments|..])
    ensures n == |steps| ==> |moments| == |todo|
  {
    if n == 0 {
      moments, front := [], [];
      assert front + todo[0..] == todo;
      assert states[0].duties[i].Notify?;
    } else {
      var before, ahead := StartedSoFar(program, states, steps, i, todo, n - 1);
      SystemReachableInv(program, states[0]);
      RunInv(program, states, steps, n - 1);
      StepOfRun(program, states, steps, n - 1);
      moments, front := StartedNext(program, states, steps, i, todo, before, ahead, n);
    }
  }

  lemma StartedNext(program: Program, states: seq<System>, steps: seq<SystemStep>, i: nat, todo: seq<Request>,
                    before: seq<nat>, ahead: seq<Request>, n: nat)
    returns (moments: seq<nat>, front: seq<Request>)
    requires |states| == |steps| + 1 && 0 < n <= |steps| && Started(states, i, todo, before, n - 1)
    requires SystemEnabled(program, states[n - 1], steps[n - 1])
    requires states[n] == SystemNext(program, states[n - 1], steps[n - 1])
    requires i < |states[n - 1].callers| == |states[n - 1].duties| && !Throws(program, states[n - 1], steps[n - 1], i)
    requires states[n - 1].duties[i] == Notify(ahead + todo[|before|..])
    ensures Started(states, i, todo, moments, n) && i < |states[n].duties|
    ensures states[n].duties[i].Notify? ==> states[n].duties[i] == Notify(front + todo[|moments|..])
    ensures states[n].duties[i].Free? ==> |moments| == |todo|
  {
    DutyStep(program, states[n - 1], steps[n - 1], i);
    if Own(steps[n - 1], i) && states[n - 1].callers[i].Out? {
      moments, front := OneMoreStarted(states, i, todo, before, ahead, n);
    } else {
      var rest := todo[|before|..];
      var more: seq<Request> :| states[n].duties[i].todo == more + (ahead + rest);
      moments, front := before, more + ahead;
      assert more + (ahead + rest) == (more + ahead) + rest;
    }
  }

  lemma OneMoreStarted(states: seq<System>, i: nat, todo: seq<Request>, before: seq<nat>, ahead: seq<Request>, n: nat)
    returns (moments: seq<nat>, front: seq<Request>)
    requires 0 < n < |states| && Started(states, i, todo, before, n - 1)
    requires i < |states[n].callers| && i < |states[n].duties|
    requires var left := ahead + todo[|before|..];
      if left == [] then states[n].duties[i].Free?
      else states[n].duties[i] == Notify(left[1..]) && states[n].callers[i] == FirstPoint(left[0])
    ensures Started(states, i, todo, moments, n)
    ensures states[n].duties[i].Notify? ==> states[n].duties[i] == Notify(front + todo[|moments|..])
    ensures states[n].duties[i].Free? ==> |moments| == |todo|
  {
    var rest := todo[|before|..];
    if ahead != [] {
      moments, front := before, ahead[1..];
      assert (ahead + rest)[1..] == ahead[1..] + rest;
    } else if rest != [] {
      moments, front := before + [n], [];
      assert ahead + rest == rest && rest[1..] == todo[|moments|..] && [] + todo[|moments|..] == todo[|moments|..];
    } else {
      moments, front := before, [];
    }
  }

  /** What thread `i` has still to do under the lock. */
  function Remaining(duty: Duty): seq<Request> { if duty.Free? then [] else duty.todo }

  /** A registration that is not refused stores the type with its name, takes the lock, and has its callbacks to run
      before all others; one that is refused changes nothing. */
  lemma RegistrationStarts(program: Program, s: System, i: nat, idle: nat, id: string, tag: Tag, replies: seq<Request>)
    requires CallerEnabled(program, s, i, idle) && s.callers[i] == WantRegister(id, tag, replies)
    ensures var t := CallerNext(program, s, i, idle);
      && |t.callers| == |s.callers| && |t.duties| == |s.duties| && t.callers[i].Out?
      && if id in s.registry then t.registry == s.registry && Remaining(t.duties[i]) == []
         else
           && t.registry == s.registry[id := Entry(tag, program.names(tag))] && t.mappingOwner == Client(i)
           && t.duties[i] == Notify(replies + Remaining(s.duties[i]))
  {
    assert replies + [] == replies;
  }

  /** A subscription to a registered service has its callback to run at once, and otherwise nothing to do. */
  lemma SubscriptionStarts(program: Program, s: System, i: nat, idle: nat, id: string, replies: seq<Request>)
    requires CallerEnabled(program, s, i, idle) && s.callers[i] == WantWatch(id, replies)
    ensures var t := CallerNext(program, s, i, idle);
      && |t.callers| == |s.callers| && |t.duties| == |s.duties| && t.callers[i].Out? && t.registry == s.registry
      && (id in s.registry ==> t.duties[i] == Notify(replies + Remaining(s.duties[i])) && t.mappingOwner == Client(i))
      && (id !in s.registry ==> t.duties[i] == s.duties[i] && t.mappingOwner == s.mappingOwner)
  {
    assert replies + [] == replies;
  }

  /** An exception leaves all callbacks under way, and nothing else changes. */
  lemma ExceptionLeavesAll(program: Program, s: System, step: SystemStep, i: nat)
    requires SystemEnabled(program, s, step) && Throws(program, s, step, i)
    ensures var t := SystemNext(program, s, step);
      && i < |t.callers| && i < |t.duties| && t.callers[i].Out? && Remaining(t.duties[i]) == []
      && t.registry == s.registry && t.pool == s.pool && t.strands == s.strands && t.inline == s.inline
  {
  }

  /** Unless something throws, every callback is started before the lock is given up, in the order in which they wait,
      whatever they do themselves. */
  lemma EveryCallbackIsRun(program: Program, states: seq<System>, steps: seq<SystemStep>, i: nat, todo: seq<Request>)
    returns (moments: seq<nat>)
    requires Injective(program.names) && IsNotification(program, states, steps, i, todo)
    ensures |moments| == |todo|
    ensures forall a :: 0 <= a < |todo| ==>
      && moments[a] < |states| && i < |states[moments[a]].callers|
      && states[moments[a]].callers[i] == FirstPoint(todo[a])
    ensures forall a, b :: 0 <= a < b < |todo| ==> moments[a] < moments[b]
  {
    var front;
    moments, front := StartedSoFar(program, states, steps, i, todo, |steps|);
  }
}
