/**
  The whole scheduler: the registry of typed actions under its recursive lock, the strand table, a pool of workers, and
  any number of threads that call, register, unregister and watch services, under every interleaving. A worker moves
  by the steps of its protocol; thread `i` is client `i` of whatever worker it is in. A registration calls back its
  watchers under the lock, and these may do all of the same again.

  The worker that `min_element` settles on while loads change under it is any worker at all. Likewise any callbacks
  may be waiting for a registration; who is called back, and in what order, is the registry's business.
 */
module SchedulerSystem {
  import opened WorkerProtocol
  import opened WorkerSafety
  import opened WorkerTheorems
  import opened WorkerProgress

  /** A registered action, with the type its wrapper casts to, and the type name stored beside it. */
  datatype Entry = Entry(expects: Tag, typeName: string)

  datatype Property = Property(async: bool, blocking: bool, hasDone: bool, strand: string)

  /** `typeid(...).name()`, as a function of the type. */
  type TypeNames = Tag -> string

  /** What the code that uses the scheduler is like: the names of its types, and whose action or completion callback
      asks the registry something before it ends. */
  datatype Program = Program(names: TypeNames, asks: Call -> bool)

  ghost predicate Injective(names: TypeNames) {
    forall a: Tag, b: Tag :: names(a) == names(b) ==> a == b
  }

  /** An operation on the scheduler; `replies` is what the callbacks do that it runs, one after the other. */
  datatype Request =
    | Ask(id: string, given: Tag, prop: Property)
    | Enroll(id: string, tag: Tag, replies: seq<Request>)
    | Withdraw(id: string)
    | Watch(id: string, replies: seq<Request>)

  datatype CallerPc =
    | Out
    | Fetching(id: string, given: Tag, prop: Property)
    | Comparing(id: string, given: Tag, prop: Property, entry: Entry)
    | Choosing(call: Call, async: bool)
    | Calling(w: nat)
    | WantRegister(id: string, tag: Tag, replies: seq<Request>)
    | WantWatch(id: string, replies: seq<Request>)
    | WantUnregister(id: string)
    | Unregistering(id: string, w: nat)
    | InCancel(id: string, w: nat)

  /** Whether a thread is running callbacks under the mapping lock, and what they have still to do. */
  datatype Duty = Free | Notify(todo: seq<Request>)

  /** A call that a thread has run itself, on the spot. */
  datatype Inline = Inline(thread: nat, call: Call)

  datatype System = System(
    registry: map<string, Entry>, mappingOwner: Owner, strands: map<string, nat>,
    pool: seq<State>, callers: seq<CallerPc>, duties: seq<Duty>, inline: seq<Inline>)

  datatype SystemStep =
    | CallerMoves(i: nat, idle: nat)
    | InWorker(w: nat, step: Step)
    | Begin(i: nat, request: Request)

  function Start(workers: nat, threads: nat): System {
    System(map[], Nobody, map[], seq(workers, _ => Init(threads)), seq(threads, _ => Out), seq(threads, _ => Free), [])
  }

  function StrandWorker(strands: map<string, nat>, strand: string, idle: nat): nat {
    if strand != "" && strand in strands then strands[strand] else idle
  }

  function BindStrand(strands: map<string, nat>, strand: string, idle: nat): map<string, nat> {
    if strand == "" || strand in strands then strands else strands[strand := idle]
  }

  function FirstPoint(request: Request): CallerPc {
    match request
    case Ask(id, given, prop) => Fetching(id, given, prop)
    case Enroll(id, tag, replies) => WantRegister(id, tag, replies)
    case Withdraw(id) => WantUnregister(id)
    case Watch(id, replies) => WantWatch(id, replies)
  }

  /** The lock is recursive: its owner need not wait for it. */
  predicate MayTake(owner: Owner, i: nat) { owner.Nobody? || owner == Client(i) }

  /** Callbacks that run at once run before what remains of the callbacks under way. */
  function More(duty: Duty, replies: seq<Request>): Duty {
    if duty.Free? then Notify(replies) else Notify(replies + duty.todo)
  }

  /** An exception leaves all callbacks under way. */
  function Thrown(duty: Duty): Duty { if duty.Free? then Free else Notify([]) }

  function Released(duty: Duty, i: nat): Owner { if duty.Free? then Nobody else Client(i) }

  predicate CallerEnabled(program: Program, s: System, i: nat, idle: nat) {
    i < |s.callers| == |s.duties| &&
    match s.callers[i]
    case Out => s.duties[i].Notify?
    case Fetching(_, _, _) => MayTake(s.mappingOwner, i)
    case WantRegister(_, _, _) => MayTake(s.mappingOwner, i)
    case WantWatch(_, _) => MayTake(s.mappingOwner, i)
    case WantUnregister(_) => MayTake(s.mappingOwner, i)
    case Comparing(_, _, _, _) => true
    case Choosing(call, async) =>
      if async then
        var w := StrandWorker(s.strands, call.strand, idle);
        idle < |s.pool| && w < |s.pool| && Enabled(s.pool[w], BeginDoJob(i, call))
      else program.asks(call) ==> MayTake(s.mappingOwner, i)
    case Calling(w) => w < |s.pool| && i < |s.pool[w].clients| && s.pool[w].clients[i].Idle?
    case Unregistering(id, w) => w < |s.pool| ==> Enabled(s.pool[w], BeginCancel(i, id))
    case InCancel(_, w) => w < |s.pool| && i < |s.pool[w].clients| && s.pool[w].clients[i].Idle?
  }

  function CallerNext(program: Program, s: System, i: nat, idle: nat): System
    requires CallerEnabled(program, s, i, idle)
  {
    match s.callers[i]
    case Out =>
      if s.duties[i].todo == [] then s.(mappingOwner := Nobody, duties := s.duties[i := Free])
      else s.(duties := s.duties[i := Notify(s.duties[i].todo[1..])],
              callers := s.callers[i := FirstPoint(s.duties[i].todo[0])])
    case Fetching(id, given, prop) =>
      s.(callers := s.callers[i := if id in s.registry then Comparing(id, given, prop, s.registry[id]) else Out])
    case Comparing(id, given, prop, entry) =>
      if program.names(given) == entry.typeName then
        var call := Call(id, prop.strand, prop.hasDone, prop.blocking, entry.expects, given);
        s.(callers := s.callers[i := Choosing(call, prop.async)])
      else s.(callers := s.callers[i := Out], duties := s.duties[i := Thrown(s.duties[i])])
    case Choosing(call, async) =>
      if !async then s.(inline := s.inline + [Inline(i, call)], callers := s.callers[i := Out])
      else
        var w := StrandWorker(s.strands, call.strand, idle);
        s.(strands := BindStrand(s.strands, call.strand, idle), callers := s.callers[i := Calling(w)],
           pool := s.pool[w := Next(EVERY_JOB, s.pool[w], BeginDoJob(i, call))])
    case Calling(_) => s.(callers := s.callers[i := Out])
    case WantRegister(id, tag, replies) =>
      if id in s.registry then s.(callers := s.callers[i := Out], duties := s.duties[i := Thrown(s.duties[i])])
      else s.(callers := s.callers[i := Out], registry := s.registry[id := Entry(tag, program.names(tag))],
              mappingOwner := Client(i), duties := s.duties[i := More(s.duties[i], replies)])
    case WantWatch(id, replies) =>
      if id !in s.registry then s.(callers := s.callers[i := Out])
      else s.(callers := s.callers[i := Out],
              mappingOwner := Client(i), duties := s.duties[i := More(s.duties[i], replies)])
    case WantUnregister(id) =>
      if id !in s.registry then s.(callers := s.callers[i := Out])
      else s.(registry := s.registry - {id}, mappingOwner := Client(i), callers := s.callers[i := Unregistering(id, 0)])
    case Unregistering(id, w) =>
      if w < |s.pool|
      then s.(pool := s.pool[w := Next(EVERY_JOB, s.pool[w], BeginCancel(i, id))],
              callers := s.callers[i := InCancel(id, w)])
      else s.(mappingOwner := Released(s.duties[i], i), callers := s.callers[i := Out])
    case InCancel(id, w) => s.(callers := s.callers[i := Unregistering(id, w + 1)])
  }

  /** The worker's job asks the registry before its action, or its callback, comes to an end. */
  predicate Asks(program: Program, s: State) {
    s.worker.Executing? && (s.worker.phase.InAction? || s.worker.phase.InDone?) && program.asks(s.worker.job.call)
  }

  predicate SystemEnabled(program: Program, s: System, step: SystemStep) {
    match step
    case CallerMoves(i, idle) => CallerEnabled(program, s, i, idle)
    case InWorker(w, own) =>
      && w < |s.pool| && !own.BeginDoJob? && !own.BeginCancel? && Enabled(s.pool[w], own)
      && (own.WorkerMoves? && Asks(program, s.pool[w]) ==> s.mappingOwner.Nobody?)
    case Begin(i, _) => i < |s.callers| == |s.duties| && s.callers[i].Out? && s.duties[i].Free?
  }

  function SystemNext(program: Program, s: System, step: SystemStep): System
    requires SystemEnabled(program, s, step)
  {
    match step
    case CallerMoves(i, idle) => CallerNext(program, s, i, idle)
    case InWorker(w, own) => s.(pool := s.pool[w := Next(EVERY_JOB, s.pool[w], own)])
    case Begin(i, request) => s.(callers := s.callers[i := FirstPoint(request)])
  }

  // ----- the invariant

  predicate InDoJob(c: ClientPc) { c.WantPush? || c.Pushed? || c.Notified? || c.FlagTest? || c.FlagAsleep? }

  /** Where thread `i` is in worker `w`, given what it does outside. */
  predicate Present(caller: CallerPc, w: nat, c: ClientPc) {
    if caller == Calling(w) then c.Idle? || InDoJob(c)
    else if caller.InCancel? && caller.w == w then !InDoJob(c)
    else c.Idle?
  }

  ghost predicate PresenceInv(s: System) {
    && (forall w :: 0 <= w < |s.pool| ==> |s.pool[w].clients| == |s.callers|)
    && (forall w, i :: 0 <= w < |s.pool| && 0 <= i < |s.callers| ==> Present(s.callers[i], w, s.pool[w].clients[i]))
    && (forall i :: 0 <= i < |s.callers| ==>
      (s.callers[i].Calling? || s.callers[i].InCancel? ==> s.callers[i].w < |s.pool|))
  }

  predicate HoldsMapping(c: CallerPc, duty: Duty) { c.Unregistering? || c.InCancel? || duty.Notify? }

  predicate WantsMapping(c: CallerPc) { c.Fetching? || c.WantRegister? || c.WantWatch? || c.WantUnregister? }

  ghost predicate MappingInv(s: System) {
    && !s.mappingOwner.Worker? && !s.mappingOwner.Stopper? && |s.duties| == |s.callers|
    && (s.mappingOwner.Client? ==> s.mappingOwner.i < |s.callers|)
    && (forall i :: 0 <= i < |s.callers| ==>
      (s.mappingOwner == Client(i) <==> HoldsMapping(s.callers[i], s.duties[i])))
  }

  /** The call's argument has the type its action casts it to, and its strand is bound to this worker. */
  predicate Placed(strands: map<string, nat>, w: nat, call: Call) {
    call.expects == call.given && (call.strand != "" ==> call.strand in strands && strands[call.strand] == w)
  }

  ghost predicate AllPlaced(strands: map<string, nat>, w: nat, s: State) {
    && (forall k :: 0 <= k < |s.past.accepted| ==> Placed(strands, w, s.past.accepted[k].call))
    && (forall i :: 0 <= i < |s.clients| && s.clients[i].WantPush? ==> Placed(strands, w, s.clients[i].call))
  }

  ghost predicate Typed(names: TypeNames, c: CallerPc) {
    match c
    case Comparing(_, _, _, entry) => entry.typeName == names(entry.expects)
    case Choosing(call, _) => call.expects == call.given
    case _ => true
  }

  ghost predicate TypeInv(names: TypeNames, s: System) {
    && (forall id :: id in s.registry ==> s.registry[id].typeName == names(s.registry[id].expects))
    && (forall i :: 0 <= i < |s.callers| ==> Typed(names, s.callers[i]))
    && (forall k :: 0 <= k < |s.inline| ==> s.inline[k].call.expects == s.inline[k].call.given)
  }

  ghost predicate PoolInv(s: System) {
    && (forall strand :: strand in s.strands ==> s.strands[strand] < |s.pool|)
    && (forall w :: 0 <= w < |s.pool| ==> Inv(s.pool[w]))
    && (forall w :: 0 <= w < |s.pool| ==> AllPlaced(s.strands, w, s.pool[w]))
  }

  ghost predicate SystemInv(names: TypeNames, s: System) {
    PresenceInv(s) && MappingInv(s) && TypeInv(names, s) && PoolInv(s)
  }

  // ----- every step keeps it

  /** Inside a worker a thread stays in the call it is in, or comes back to the door. */
  lemma ClientsStay(s: State, own: Step)
    requires Enabled(s, own) && !own.BeginDoJob? && !own.BeginCancel?
    ensures |Next(EVERY_JOB, s, own).clients| == |s.clients|
    ensures forall i :: 0 <= i < |s.clients| ==> Stays(s.clients[i], Next(EVERY_JOB, s, own).clients[i])
  {
    match own
    case ClientMoves(i) => MoverStays(s, i);
    case ClientSpurious(i) =>
    case _ => WokenStay(s, own);
  }

  lemma MoverStays(s: State, i: nat)
    requires ClientEnabled(s, i)
    ensures var after := ClientNext(EVERY_JOB, s, i).clients;
      |after| == |s.clients| && after == s.clients[i := after[i]] && Stays(s.clients[i], after[i])
  {
  }

  /** The worker and the stopper at most wake a client. */
  lemma WokenStay(s: State, own: Step)
    requires Enabled(s, own)
    requires own.WorkerMoves? || own.StopperMoves? || own.WorkerSpurious? || own.StopPoll? || own.BeginStop?
    ensures |Next(EVERY_JOB, s, own).clients| == |s.clients|
    ensures forall i :: 0 <= i < |s.clients| ==> Stays(s.clients[i], Next(EVERY_JOB, s, own).clients[i])
  {
  }

  predicate Stays(before: ClientPc, after: ClientPc) {
    && (before.Idle? ==> after.Idle?)
    && (InDoJob(before) ==> InDoJob(after) || after.Idle?)
    && (!InDoJob(before) ==> !InDoJob(after))
  }

  lemma PresenceKept(program: Program, s: System, step: SystemStep)
    requires PresenceInv(s) && PoolInv(s) && SystemEnabled(program, s, step)
    ensures PresenceInv(SystemNext(program, s, step))
  {
    match step
    case InWorker(w, own) =>
      ClientsStay(s.pool[w], own);
      PresenceInWorker(s, w, Next(EVERY_JOB, s.pool[w], own));
    case CallerMoves(i, idle) => PresenceKeptByCaller(program, s, i, idle);
    case Begin(i, request) => PresenceOutside(s, s.(callers := s.callers[i := FirstPoint(request)]), i);
  }

  lemma PresenceInWorker(s: System, w: nat, after: State)
    requires PresenceInv(s) && w < |s.pool| && |after.clients| == |s.pool[w].clients|
    requires forall i :: 0 <= i < |after.clients| ==> Stays(s.pool[w].clients[i], after.clients[i])
    ensures PresenceInv(s.(pool := s.pool[w := after]))
  {
  }

  /** Thread `i` is at the door of every worker it is not in. */
  lemma PresenceOutside(s: System, s': System, i: nat)
    requires PresenceInv(s) && i < |s.callers| == |s'.callers| && s'.callers == s.callers[i := s'.callers[i]]
    requires s'.pool == s.pool && !s'.callers[i].Calling? && !s'.callers[i].InCancel?
    requires (s.callers[i].Calling? || s.callers[i].InCancel?) ==> s.pool[s.callers[i].w].clients[i].Idle?
    ensures PresenceInv(s')
  {
  }

  lemma PresenceEnter(s: System, s': System, i: nat, w: nat)
    requires PresenceInv(s) && i < |s.callers| == |s'.callers| && s'.callers == s.callers[i := s'.callers[i]]
    requires w < |s.pool| == |s'.pool| && !s.callers[i].Calling? && !s.callers[i].InCancel? && i < |s'.pool[w].clients|
    requires s'.pool == s.pool[w := s.pool[w].(clients := s.pool[w].clients[i := s'.pool[w].clients[i]])]
    requires || (s'.callers[i] == Calling(w) && InDoJob(s'.pool[w].clients[i]))
             || (s'.callers[i].InCancel? && s'.callers[i].w == w && !InDoJob(s'.pool[w].clients[i]))
    ensures PresenceInv(s')
  {
  }

  lemma PresenceKeptByCaller(program: Program, s: System, i: nat, idle: nat)
    requires PresenceInv(s) && CallerEnabled(program, s, i, idle)
    ensures PresenceInv(CallerNext(program, s, i, idle))
  {
    match s.callers[i]
    case Choosing(_, _) => PresenceKeptByChoice(program, s, i, idle);
    case Unregistering(_, _) => PresenceKeptByCancel(program, s, i, idle);
    case _ => PresenceOutside(s, CallerNext(program, s, i, idle), i);
  }

  lemma PresenceKeptByChoice(program: Program, s: System, i: nat, idle: nat)
    requires PresenceInv(s) && CallerEnabled(program, s, i, idle) && s.callers[i].Choosing?
    ensures PresenceInv(CallerNext(program, s, i, idle))
  {
    if s.callers[i].async {
      PresenceEnter(s, CallerNext(program, s, i, idle), i, StrandWorker(s.strands, s.callers[i].call.strand, idle));
    } else {
      PresenceOutside(s, CallerNext(program, s, i, idle), i);
    }
  }

  lemma PresenceKeptByCancel(program: Program, s: System, i: nat, idle: nat)
    requires PresenceInv(s) && CallerEnabled(program, s, i, idle) && s.callers[i].Unregistering?
    ensures PresenceInv(CallerNext(program, s, i, idle))
  {
    if s.callers[i].w < |s.pool| {
      PresenceEnter(s, CallerNext(program, s, i, idle), i, s.callers[i].w);
    } else {
      PresenceOutside(s, CallerNext(program, s, i, idle), i);
    }
  }

  lemma MappingKept(program: Program, s: System, step: SystemStep)
    requires MappingInv(s) && SystemEnabled(program, s, step)
    ensures MappingInv(SystemNext(program, s, step))
  {
    match step
    case CallerMoves(i, idle) =>
      LockFollowsPoint(program, s, i, idle);
      MappingFrame(s, SystemNext(program, s, step), i);
    case InWorker(_, _) =>
    case Begin(i, _) => MappingFrame(s, SystemNext(program, s, step), i);
  }

  /** The lock is taken and given up with the program point. */
  predicate LockFollows(s: System, s': System, i: nat)
    requires i < |s.callers| == |s.duties| && |s.callers| == |s'.callers| == |s'.duties|
  {
    if HoldsMapping(s'.callers[i], s'.duties[i]) then s'.mappingOwner == Client(i) && MayTake(s.mappingOwner, i)
    else s'.mappingOwner == if HoldsMapping(s.callers[i], s.duties[i]) then Nobody else s.mappingOwner
  }

  lemma LockFollowsPoint(program: Program, s: System, i: nat, idle: nat)
    requires MappingInv(s) && CallerEnabled(program, s, i, idle)
    ensures LockFollows(s, CallerNext(program, s, i, idle), i)
  {
    if WantsMapping(s.callers[i]) {
      LockFollowsTaking(program, s, i, idle);
    }
  }

  lemma LockFollowsTaking(program: Program, s: System, i: nat, idle: nat)
    requires MappingInv(s) && CallerEnabled(program, s, i, idle) && WantsMapping(s.callers[i])
    ensures LockFollows(s, CallerNext(program, s, i, idle), i)
  {
  }

  /** Thread `i` moves, and the lock is as its new program point says. */
  lemma MappingFrame(s: System, s': System, i: nat)
    requires MappingInv(s) && i < |s.callers| == |s'.callers| == |s'.duties|
    requires s'.callers == s.callers[i := s'.callers[i]] && s'.duties == s.duties[i := s'.duties[i]]
    requires s'.mappingOwner == (if HoldsMapping(s'.callers[i], s'.duties[i]) then Client(i)
                                 else if HoldsMapping(s.callers[i], s.duties[i]) then Nobody else s.mappingOwner)
    requires HoldsMapping(s'.callers[i], s'.duties[i]) ==> MayTake(s.mappingOwner, i)
    ensures MappingInv(s')
  {
  }

  lemma TypeKept(program: Program, s: System, step: SystemStep)
    requires Injective(program.names) && TypeInv(program.names, s) && SystemEnabled(program, s, step)
    ensures TypeInv(program.names, SystemNext(program, s, step))
  {
    match step
    case CallerMoves(i, idle) =>
      TypeKeptByCaller(program, s, i, idle);
      TypeFrame(program.names, s, SystemNext(program, s, step), i);
    case InWorker(_, _) =>
    case Begin(i, _) => TypeFrame(program.names, s, SystemNext(program, s, step), i);
  }

  lemma TypeKeptByCaller(program: Program, s: System, i: nat, idle: nat)
    requires Injective(program.names) && TypeInv(program.names, s) && CallerEnabled(program, s, i, idle)
    ensures Typed(program.names, CallerNext(program, s, i, idle).callers[i])
    ensures TypesGrow(program.names, s, CallerNext(program, s, i, idle))
  {
    assert Typed(program.names, s.callers[i]);
  }

  /** What is new in the registry, or called inline, is well typed. */
  ghost predicate TypesGrow(names: TypeNames, s: System, s': System) {
    && (forall id :: id in s'.registry ==>
      || (id in s.registry && s'.registry[id] == s.registry[id])
      || s'.registry[id].typeName == names(s'.registry[id].expects))
    && (forall k :: 0 <= k < |s'.inline| ==>
      (k < |s.inline| && s'.inline[k] == s.inline[k]) || s'.inline[k].call.expects == s'.inline[k].call.given)
  }

  lemma TypeFrame(names: TypeNames, s: System, s': System, i: nat)
    requires TypeInv(names, s) && i < |s.callers| == |s'.callers|
    requires s'.callers == s.callers[i := s'.callers[i]] && Typed(names, s'.callers[i])
    requires TypesGrow(names, s, s')
    ensures TypeInv(names, s')
  {
  }

  /** A worker only ever accepts the calls that are put to it. */
  lemma PlacedKept(strands: map<string, nat>, w: nat, s: State, own: Step)
    requires AllPlaced(strands, w, s) && Enabled(s, own) && (own.BeginDoJob? ==> Placed(strands, w, own.call))
    ensures AllPlaced(strands, w, Next(EVERY_JOB, s, own))
  {
    match own
    case ClientMoves(i) => PlacedKeptByClient(strands, w, s, i);
    case WorkerMoves => PlacedKeptByWorker(strands, w, s);
    case _ =>
  }

  lemma PlacedKeptByWorker(strands: map<string, nat>, w: nat, s: State)
    requires AllPlaced(strands, w, s) && WorkerEnabled(s)
    ensures AllPlaced(strands, w, WorkerNext(s))
  {
  }

  lemma PlacedKeptByClient(strands: map<string, nat>, w: nat, s: State, i: nat)
    requires AllPlaced(strands, w, s) && ClientEnabled(s, i)
    ensures AllPlaced(strands, w, ClientNext(EVERY_JOB, s, i))
  {
  }

  lemma PlacedMonotone(strands: map<string, nat>, more: map<string, nat>, w: nat, s: State)
    requires AllPlaced(strands, w, s) && forall strand :: strand in strands ==>
      strand in more && more[strand] == strands[strand]
    ensures AllPlaced(more, w, s)
  {
    forall k | 0 <= k < |s.past.accepted| ensures Placed(more, w, s.past.accepted[k].call) {
      assert Placed(strands, w, s.past.accepted[k].call);
    }
    forall i | 0 <= i < |s.clients| && s.clients[i].WantPush? ensures Placed(more, w, s.clients[i].call) {
      assert Placed(strands, w, s.clients[i].call);
    }
  }

  /** Worker `w` takes a step of its own protocol while the strand table may grow. */
  lemma PoolStep(s: System, s': System, w: nat, own: Step)
    requires PoolInv(s) && w < |s.pool| && Enabled(s.pool[w], own)
    requires s'.pool == s.pool[w := Next(EVERY_JOB, s.pool[w], own)]
    requires forall strand :: strand in s.strands ==> strand in s'.strands && s'.strands[strand] == s.strands[strand]
    requires forall strand :: strand in s'.strands ==> s'.strands[strand] < |s'.pool|
    requires own.BeginDoJob? ==> Placed(s'.strands, w, own.call)
    ensures PoolInv(s')
  {
    InvKept(EVERY_JOB, s.pool[w], own);
    forall v | 0 <= v < |s'.pool| ensures AllPlaced(s'.strands, v, s'.pool[v]) {
      PlacedMonotone(s.strands, s'.strands, v, s.pool[v]);
      if v == w {
        PlacedKept(s'.strands, w, s.pool[w], own);
      }
    }
  }

  lemma PoolKept(program: Program, s: System, step: SystemStep)
    requires TypeInv(program.names, s) && PoolInv(s) && SystemEnabled(program, s, step)
    ensures PoolInv(SystemNext(program, s, step))
  {
    var s' := SystemNext(program, s, step);
    match step
    case InWorker(w, own) => PoolStep(s, s', w, own);
    case CallerMoves(i, idle) => PoolKeptByCaller(program, s, i, idle);
    case _ =>
  }

  lemma PoolKeptByCaller(program: Program, s: System, i: nat, idle: nat)
    requires TypeInv(program.names, s) && PoolInv(s) && CallerEnabled(program, s, i, idle)
    ensures PoolInv(CallerNext(program, s, i, idle))
  {
    var s' := CallerNext(program, s, i, idle);
    match s.callers[i]
    case Choosing(call, async) => PoolKeptByChoice(program, s, i, idle);
    case Unregistering(id, w) =>
      if w < |s.pool| {
        PoolStep(s, s', w, BeginCancel(i, id));
      }
    case Out =>
    case _ => assert s'.pool == s.pool && s'.strands == s.strands;
  }

  lemma PoolKeptByChoice(program: Program, s: System, i: nat, idle: nat)
    requires TypeInv(program.names, s) && PoolInv(s) && CallerEnabled(program, s, i, idle) && s.callers[i].Choosing?
    ensures PoolInv(CallerNext(program, s, i, idle))
  {
    var call := s.callers[i].call;
    assert Typed(program.names, s.callers[i]);
    if s.callers[i].async {
      PoolStep(s, CallerNext(program, s, i, idle), StrandWorker(s.strands, call.strand, idle), BeginDoJob(i, call));
    }
  }

  lemma SystemInvKept(program: Program, s: System, step: SystemStep)
    requires Injective(program.names) && SystemInv(program.names, s) && SystemEnabled(program, s, step)
    ensures SystemInv(program.names, SystemNext(program, s, step))
  {
    PresenceKept(program, s, step);
    MappingKept(program, s, step);
    TypeKept(program, s, step);
    PoolKept(program, s, step);
  }

  lemma SystemInvStart(program: Program, workers: nat, threads: nat)
    ensures SystemInv(program.names, Start(workers, threads))
  {
    InvInit(threads);
    StartsPlaced(threads);
  }

  lemma StartsPlaced(threads: nat)
    ensures forall w: nat :: AllPlaced(map[], w, Init(threads))
  {
  }

  ghost predicate SystemLeads(program: Program, s: System, steps: seq<SystemStep>, t: System)
    decreases |steps|
  {
    if steps == [] then s == t
    else SystemEnabled(program, s, steps[0]) && SystemLeads(program, SystemNext(program, s, steps[0]), steps[1..], t)
  }

  ghost predicate SystemReachable(program: Program, s: System) {
    exists workers: nat, threads: nat, steps: seq<SystemStep> ::
      workers > 0 && SystemLeads(program, Start(workers, threads), steps, s)
  }

  lemma StrandsStay(program: Program, s: System, step: SystemStep)
    requires SystemEnabled(program, s, step)
    ensures |SystemNext(program, s, step).pool| == |s.pool|
    ensures forall strand :: strand in s.strands ==>
      && strand in SystemNext(program, s, step).strands
      && SystemNext(program, s, step).strands[strand] == s.strands[strand]
  {
  }

  lemma {:induction false} SystemLeadsKeepsInv(program: Program, s: System, steps: seq<SystemStep>, t: System)
    requires Injective(program.names) && SystemInv(program.names, s) && SystemLeads(program, s, steps, t)
    ensures SystemInv(program.names, t) && |t.pool| == |s.pool|
    ensures forall strand :: strand in s.strands ==> strand in t.strands && t.strands[strand] == s.strands[strand]
    decreases |steps|
  {
    if steps != [] {
      SystemInvKept(program, s, steps[0]);
      StrandsStay(program, s, steps[0]);
      SystemLeadsKeepsInv(program, SystemNext(program, s, steps[0]), steps[1..], t);
    }
  }

  lemma SystemReachableInv(program: Program, s: System)
    requires Injective(program.names) && SystemReachable(program, s)
    ensures SystemInv(program.names, s) && |s.pool| > 0
  {
    var workers: nat, threads: nat, steps: seq<SystemStep> :|
      workers > 0 && SystemLeads(program, Start(workers, threads), steps, s);
    SystemInvStart(program, workers, threads);
    SystemLeadsKeepsInv(program, Start(workers, threads), steps, s);
  }

  // ----- the theorems

  /** Once bound, a strand is bound to its worker for ever. */
  lemma StrandBoundForEver(program: Program, s: System, steps: seq<SystemStep>, t: System, strand: string)
    requires Injective(program.names) && SystemReachable(program, s) && SystemLeads(program, s, steps, t)
    requires strand in s.strands
    ensures strand in t.strands && t.strands[strand] == s.strands[strand]
  {
    SystemReachableInv(program, s);
    SystemLeadsKeepsInv(program, s, steps, t);
  }

  /** Jobs of one strand are all on one worker, where the one accepted first, unless cancelled, has run its action
      and its callback to the end before the action of the other starts. */
  lemma StrandIsSequential(program: Program, s: System, v: nat, a: Job, w: nat, b: Job, q: nat)
    requires Injective(program.names) && SystemReachable(program, s) && v < |s.pool| && w < |s.pool|
    requires a in s.pool[v].past.accepted && b in s.pool[w].past.accepted
    requires a.call.strand == b.call.strand != ""
    ensures v == w
    ensures a.uid < b.uid && a.uid !in s.pool[w].past.cancelled
            && q < |s.pool[w].past.log| && s.pool[w].past.log[q] == ActionStart(b.uid)
      ==> forall e :: e in RunOf(a) ==> e in s.pool[w].past.log[..q]
    ensures Serial(s.pool[w].past.log)
  {
    SystemReachableInv(program, s);
    SameWorker(s, v, a, w, b);
    SurvivorsExact(s.pool[w].past.accepted, s.pool[w].past.cancelled);
    SerialLog(s.pool[w]);
    if a.uid < b.uid && a.uid !in s.pool[w].past.cancelled
       && q < |s.pool[w].past.log| && s.pool[w].past.log[q] == ActionStart(b.uid) {
      EarlierLogged(s.pool[w], a.uid, q);
    }
  }

  lemma SameWorker(s: System, v: nat, a: Job, w: nat, b: Job)
    requires PoolInv(s) && v < |s.pool| && w < |s.pool|
    requires a in s.pool[v].past.accepted && b in s.pool[w].past.accepted
    requires a.call.strand == b.call.strand != ""
    ensures v == w
  {
    assert AllPlaced(s.strands, v, s.pool[v]) && AllPlaced(s.strands, w, s.pool[w]);
    assert Placed(s.strands, v, a.call) && Placed(s.strands, w, b.call);
  }

  /** Whatever runs, on a worker or inline, runs with arguments of the type its action casts them to. */
  lemma CastsMeetTheirType(program: Program, s: System)
    requires Injective(program.names) && SystemReachable(program, s)
    ensures forall w, e :: 0 <= w < |s.pool| && e in s.pool[w].past.log ==>
      e.uid < |s.pool[w].past.accepted|
      && s.pool[w].past.accepted[e.uid].call.expects == s.pool[w].past.accepted[e.uid].call.given
    ensures forall w, job :: 0 <= w < |s.pool| && job in s.pool[w].calls ==> job.call.expects == job.call.given
    ensures forall ran :: ran in s.inline ==> ran.call.expects == ran.call.given
  {
    SystemReachableInv(program, s);
    forall w, e | 0 <= w < |s.pool| && e in s.pool[w].past.log
      ensures e.uid < |s.pool[w].past.accepted|
        && s.pool[w].past.accepted[e.uid].call.expects == s.pool[w].past.accepted[e.uid].call.given
    {
      LoggedIsTyped(s.strands, w, s.pool[w], e);
    }
    forall w, job | 0 <= w < |s.pool| && job in s.pool[w].calls ensures job.call.expects == job.call.given {
      QueuedIsTyped(s.strands, w, s.pool[w], job);
    }
  }

  lemma LoggedIsTyped(strands: map<string, nat>, w: nat, s: State, e: Event)
    requires ConservationInv(s) && LogInv(s) && AllPlaced(strands, w, s) && e in s.past.log
    ensures e.uid < |s.past.accepted| && s.past.accepted[e.uid].call.expects == s.past.accepted[e.uid].call.given
  {
    LoggedIsAccepted(s, e);
    AcceptedIsTyped(strands, w, s, e.uid);
  }

  lemma LoggedIsAccepted(s: State, e: Event)
    requires ConservationInv(s) && LogInv(s) && e in s.past.log
    ensures e.uid < |s.past.accepted|
  {
    LineIncreases(s);
    SerialLog(s);
    var job :| RunBy(job, s.past.executed + InHand(s.worker), e);
    LaterIsAccepted(s, job);
    AcceptedIsNumbered(s, job);
  }

  lemma LineIncreases(s: State)
    requires ConservationInv(s)
    ensures Increasing(s.past.executed + InHand(s.worker) + s.calls)
  {
    SurvivorsExact(s.past.accepted, s.past.cancelled);
  }

  lemma AcceptedIsNumbered(s: State, job: Job)
    requires Numbered(s.past.accepted) && job in s.past.accepted
    ensures job.uid < |s.past.accepted| && s.past.accepted[job.uid] == job
  {
  }

  lemma AcceptedIsTyped(strands: map<string, nat>, w: nat, s: State, uid: nat)
    requires AllPlaced(strands, w, s) && uid < |s.past.accepted|
    ensures s.past.accepted[uid].call.expects == s.past.accepted[uid].call.given
  {
    assert Placed(strands, w, s.past.accepted[uid].call);
  }

  lemma QueuedIsTyped(strands: map<string, nat>, w: nat, s: State, job: Job)
    requires ConservationInv(s) && AllPlaced(strands, w, s) && job in s.calls
    ensures job.call.expects == job.call.given
  {
    SurvivorsExact(s.past.accepted, s.past.cancelled);
    assert job in s.past.executed + InHand(s.worker) + s.calls;
    assert job in s.past.accepted && Placed(strands, w, job.call);
  }

  // ----- the order of locks

  /** Locks are taken in one order only: mapping lock, then a worker's queue lock, then that worker's executing lock.
      This holds of the calls that callbacks make under the mapping lock, too. */
  lemma SystemLockOrder(program: Program, s: System, i: nat, v: nat, held: Lock, w: nat, wanted: Lock)
    requires Injective(program.names) && SystemReachable(program, s)
    requires i < |s.callers| && v < |s.pool| && w < |s.pool| && Holds(s.pool[v], Client(i), held)
    ensures !WantsMapping(s.callers[i])
    ensures Wants(s.pool[w], Client(i), wanted) ==> w == v && held.QueueLock? && wanted.ExecutingLock?
  {
    SystemReachableInv(program, s);
    HolderCancels(s, i, v, held);
    if Wants(s.pool[w], Client(i), wanted) {
      WantsWhereItIs(s, i, w, wanted);
      LocksInOrder(s.pool[v], Client(i), wanted, held);
    }
  }

  lemma HolderCancels(s: System, i: nat, v: nat, held: Lock)
    requires PresenceInv(s) && i < |s.callers| && v < |s.pool| && LockInv(s.pool[v])
    requires Holds(s.pool[v], Client(i), held)
    ensures s.callers[i].InCancel? && s.callers[i].w == v
  {
    assert ClientLocks(s.pool[v].queueOwner, s.pool[v].execOwner, i, s.pool[v].clients[i]);
    assert Present(s.callers[i], v, s.pool[v].clients[i]);
  }

  lemma WantsWhereItIs(s: System, i: nat, w: nat, wanted: Lock)
    requires PresenceInv(s) && i < |s.callers| && w < |s.pool| && Wants(s.pool[w], Client(i), wanted)
    ensures s.callers[i] == Calling(w) || (s.callers[i].InCancel? && s.callers[i].w == w)
  {
    assert Present(s.callers[i], w, s.pool[w].clients[i]);
  }

  /** A thread about to take the mapping lock has it already exactly if it runs callbacks; then it goes right on. */
  lemma MappingTakenAgain(program: Program, s: System, i: nat)
    requires Injective(program.names) && SystemReachable(program, s) && i < |s.callers| && WantsMapping(s.callers[i])
    ensures |s.duties| == |s.callers| && (s.mappingOwner == Client(i) <==> s.duties[i].Notify?)
    ensures s.duties[i].Notify? ==> forall idle: nat :: CallerEnabled(program, s, i, idle)
  {
    SystemReachableInv(program, s);
  }
}
