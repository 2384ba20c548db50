/**
  Schedules: one thread and its turns among those of all the others. Whatever the others do is some list of turns, so
  a thread that goes on correctly for every schedule does so under every interleaving.
 */
module WorkerSchedules {
  import opened WorkerProtocol
  import opened WorkerSafety
  import opened WorkerTheorems

  datatype Thread = WorkerThread | ClientThread(i: nat) | StopperThread

  /** A turn is ours, or some other thread takes a step. */
  datatype Turn = Ours | Theirs(step: Step)

  predicate Belongs(step: Step, me: Thread) {
    match step
    case WorkerMoves | WorkerSpurious => me.WorkerThread?
    case ClientMoves(i) => me == ClientThread(i)
    case ClientSpurious(i) => me == ClientThread(i)
    case BeginDoJob(i, _) => me == ClientThread(i)
    case BeginCancel(i, _) => me == ClientThread(i)
    case StopperMoves | StopPoll | BeginStop => me.StopperThread?
  }

  predicate Unnotified(c: ClientPc) {
    c.Dozing? || (c.FlagAsleep? && !c.notified)
  }

  /** What a thread does at its own turn. A sleeper that nobody has notified wakes up all the same: a spurious wakeup.
      A stopper that finds jobs in the queue polls. */
  function MoveOf(me: Thread, s: State): Step {
    match me
    case WorkerThread => if s.worker == Asleep(false) then WorkerSpurious else WorkerMoves
    case ClientThread(i) => if i < |s.clients| && Unnotified(s.clients[i]) then ClientSpurious(i) else ClientMoves(i)
    case StopperThread => if s.stopper.WantStop? && s.calls != [] then StopPoll else StopperMoves
  }

  /** A turn that finds its thread blocked passes, and the others do not move this thread. */
  function OneTurn(me: Thread, s: State, turn: Turn): State {
    match turn
    case Ours => if Enabled(s, MoveOf(me, s)) then Next(EVERY_JOB, s, MoveOf(me, s)) else s
    case Theirs(step) => if !Belongs(step, me) && Enabled(s, step) then Next(EVERY_JOB, s, step) else s
  }

  function Turns(me: Thread, s: State, turns: seq<Turn>): State
    decreases |turns|, 0
  {
    if turns == [] then s else TurnAfter(me, s, turns[..|turns| - 1], turns[|turns| - 1])
  }

  /** One turn more. */
  function TurnAfter(me: Thread, s: State, front: seq<Turn>, last: Turn): State
    decreases |front|, 1
  {
    OneTurn(me, Turns(me, s, front), last)
  }

  lemma TurnsSnoc(me: Thread, s: State, turns: seq<Turn>)
    requires turns != []
    ensures Turns(me, s, turns) == OneTurn(me, Turns(me, s, turns[..|turns| - 1]), turns[|turns| - 1])
  {
    assert Turns(me, s, turns) == TurnAfter(me, s, turns[..|turns| - 1], turns[|turns| - 1]);
  }

  lemma {:induction false} TurnsJoin(me: Thread, s: State, first: seq<Turn>, second: seq<Turn>)
    ensures Turns(me, s, first + second) == Turns(me, Turns(me, s, first), second)
  {
    if second == [] {
      assert first + second == first;
    } else {
      TurnsJoin(me, s, first, second[..|second| - 1]);
      TurnsSnoc(me, s, first + second);
      TurnsSnoc(me, Turns(me, s, first), second);
      assert (first + second)[..|first + second| - 1] == first + second[..|second| - 1];
    }
  }

  lemma {:induction false} TurnsContinue(me: Thread, s: State, turns: seq<Turn>)
    ensures Continues(EVERY_JOB, s, Turns(me, s, turns))
  {
    if turns == [] {
      NothingYet(s);
    } else {
      var front, last := turns[..|turns| - 1], turns[|turns| - 1];
      var t := Turns(me, s, front);
      TurnsContinue(me, s, front);
      TurnsSnoc(me, s, turns);
      var step := if last.Ours? then MoveOf(me, t) else last.step;
      if OneTurn(me, t, last) != t {
        ContinuesStep(EVERY_JOB, t, step);
        ContinuesJoin(EVERY_JOB, s, t, OneTurn(me, t, last));
      }
    }
  }

  lemma NothingYet(s: State)
    ensures Continues(EVERY_JOB, s, s)
  {
    assert Leads(EVERY_JOB, s, [], s);
  }

  predicate BeginsOperation(step: Step) { step.BeginDoJob? || step.BeginCancel? || step.BeginStop? }

  /** Every run of the protocol in which a thread is in one operation is some schedule of that thread: no interleaving,
      no spurious wakeup and no poll is missing. */
  lemma {:induction false} EveryRunIsASchedule(me: Thread, s: State, steps: seq<Step>, t: State)
    returns (schedule: seq<Turn>)
    requires Leads(EVERY_JOB, s, steps, t)
    requires forall k :: 0 <= k < |steps| && Belongs(steps[k], me) ==> !BeginsOperation(steps[k])
    ensures |schedule| == |steps| && Turns(me, s, schedule) == t
    ensures forall k :: 0 <= k < |steps| ==> schedule[k] == if Belongs(steps[k], me) then Ours else Theirs(steps[k])
    decreases |steps|
  {
    if steps == [] {
      schedule := [];
    } else {
      var turn := if Belongs(steps[0], me) then Ours else Theirs(steps[0]);
      StepIsATurn(me, s, steps[0]);
      var rest := EveryRunIsASchedule(me, Next(EVERY_JOB, s, steps[0]), steps[1..], t);
      schedule := [turn] + rest;
      TurnsJoin(me, s, [turn], rest);
      TurnsSnoc(me, s, [turn]);
    }
  }

  /** What is not a move of ours belongs to the others; and each of our steps is what we do at our turn. */
  lemma StepIsATurn(me: Thread, s: State, step: Step)
    requires Enabled(s, step) && (Belongs(step, me) ==> !BeginsOperation(step))
    ensures Next(EVERY_JOB, s, step) == OneTurn(me, s, if Belongs(step, me) then Ours else Theirs(step))
  {
  }

  // ----- what others leave alone

  /** The other threads leave a thread's program point alone, but for waking it up. */
  ghost predicate SamePoint(me: Thread, s: State, t: State) {
    match me
    case WorkerThread => t.worker == s.worker || (s.worker.Asleep? && t.worker == Asleep(true))
    case ClientThread(i) => |t.clients| == |s.clients| && (i < |s.clients| ==> SameOrWoken(s.clients[i], t.clients[i]))
    case StopperThread => t.stopper == s.stopper && t.past.stopMark == s.past.stopMark
  }

  predicate SameOrWoken(c: ClientPc, d: ClientPc) {
    d == c || (c.FlagAsleep? && d == FlagAsleep(c.job, true))
  }

  ghost predicate HoldsQueue(me: Thread, s: State) {
    match me
    case WorkerThread => QueueHeldByWorker(s.worker)
    case ClientThread(i) => i < |s.clients| && QueueHeldByClient(s.clients[i])
    case StopperThread => QueueHeldByStopper(s.stopper)
  }

  lemma OthersKeepPoint(me: Thread, s: State, step: Step)
    requires ScanInv(s) && Enabled(s, step) && !Belongs(step, me)
    ensures SamePoint(me, s, Next(EVERY_JOB, s, step)) && (!s.active ==> !Next(EVERY_JOB, s, step).active)
  {
    match step
    case WorkerMoves => WorkerKeepsPoint(me, s);
    case ClientMoves(i) => ClientKeepsPoint(me, s, i);
    case _ =>
  }

  lemma WorkerKeepsPoint(me: Thread, s: State)
    requires ScanInv(s) && WorkerEnabled(s) && !me.WorkerThread?
    ensures SamePoint(me, s, WorkerNext(s)) && WorkerNext(s).active == s.active
  {
  }

  lemma ClientKeepsPoint(me: Thread, s: State, i: nat)
    requires ClientEnabled(s, i) && me != ClientThread(i)
    ensures SamePoint(me, s, ClientNext(EVERY_JOB, s, i)) && ClientNext(EVERY_JOB, s, i).active == s.active
  {
  }

  /** While a thread holds the queue lock, nobody else changes the queue. */
  lemma OthersKeepQueue(me: Thread, s: State, step: Step)
    requires LockInv(s) && Enabled(s, step) && !Belongs(step, me) && HoldsQueue(me, s)
    ensures Next(EVERY_JOB, s, step).calls == s.calls
  {
    assert forall i :: 0 <= i < |s.clients| ==> ClientLocks(s.queueOwner, s.execOwner, i, s.clients[i]);
  }

  lemma OthersRespect(me: Thread, s: State, step: Step)
    requires Inv(s) && Enabled(s, step) && !Belongs(step, me)
    ensures SamePoint(me, s, Next(EVERY_JOB, s, step)) && (!s.active ==> !Next(EVERY_JOB, s, step).active)
    ensures HoldsQueue(me, s) ==> Next(EVERY_JOB, s, step).calls == s.calls
  {
    OthersKeepPoint(me, s, step);
    if HoldsQueue(me, s) {
      OthersKeepQueue(me, s, step);
    }
  }

  // ----- the course of one operation

  /** Who moves, where it started, and the schedule. */
  datatype Course = Course(me: Thread, start: State, schedule: seq<Turn>)
  {
    /** Where the first `n` turns lead. */
    ghost function Upto(n: nat): State
      requires n <= |schedule|
    {
      Turns(me, start, schedule[..n])
    }

    /** The turns that `rest` leaves have been taken. */
    ghost function Taken(rest: seq<Turn>): int {
      |schedule| - |rest|
    }

    ghost predicate Leaves(rest: seq<Turn>) {
      |rest| <= |schedule| && schedule[|schedule| - |rest|..] == rest
    }

    /** The last of the turns taken is our own, and the thread could move at it. */
    ghost predicate Granted(rest: seq<Turn>) {
      && Leaves(rest) && |rest| < |schedule| && schedule[Taken(rest) - 1].Ours?
      && Enabled(Upto(Taken(rest) - 1), MoveOf(me, Upto(Taken(rest) - 1)))
    }
  }

  lemma CourseStarts(course: Course)
    ensures course.Leaves(course.schedule) && course.Upto(0) == course.start
  {
    assert course.schedule[..0] == [];
  }

  lemma TurnAt(course: Course, n: nat)
    requires n < |course.schedule|
    ensures course.Upto(n + 1) == OneTurn(course.me, course.Upto(n), course.schedule[n])
  {
    assert course.schedule[..n + 1][..n] == course.schedule[..n];
    TurnsSnoc(course.me, course.start, course.schedule[..n + 1]);
  }

  lemma NextTurn(course: Course, rest: seq<Turn>)
    requires course.Leaves(rest) && rest != []
    ensures course.Leaves(rest[1..]) && course.schedule[course.Taken(rest)] == rest[0]
    ensures course.Upto(course.Taken(rest[1..])) == OneTurn(course.me, course.Upto(course.Taken(rest)), rest[0])
  {
    var n := course.Taken(rest);
    TurnAt(course, n);
    assert course.schedule[n..][1..] == course.schedule[n + 1..];
  }

  /** An own move that was granted is made. */
  lemma MoveMade(course: Course, rest: seq<Turn>)
    requires course.Granted(rest)
    ensures var before := course.Upto(course.Taken(rest) - 1);
      course.Upto(course.Taken(rest)) == Next(EVERY_JOB, before, MoveOf(course.me, before))
  {
    TurnAt(course, course.Taken(rest) - 1);
  }

  lemma CourseReaches(course: Course, n: nat)
    requires Reachable(EVERY_JOB, course.start) && n <= |course.schedule|
    ensures Reachable(EVERY_JOB, course.Upto(n)) && Continues(EVERY_JOB, course.start, course.Upto(n))
  {
    TurnsContinue(course.me, course.start, course.schedule[..n]);
    ReachableContinues(EVERY_JOB, course.start, course.Upto(n));
  }

  lemma Slices(schedule: seq<Turn>, m: nat, n: nat)
    requires m <= n <= |schedule|
    ensures schedule[..m] + schedule[m..n] == schedule[..n]
  {
  }

  lemma CourseContinues(course: Course, m: nat, n: nat)
    requires m <= n <= |course.schedule|
    ensures Continues(EVERY_JOB, course.Upto(m), course.Upto(n))
  {
    TurnsJoin(course.me, course.start, course.schedule[..m], course.schedule[m..n]);
    Slices(course.schedule, m, n);
    TurnsContinue(course.me, course.Upto(m), course.schedule[m..n]);
  }

  // ----- when an operation ends

  /** The thread is outside all operations, and cannot move. */
  predicate Finished(me: Thread, s: State) {
    match me
    case WorkerThread => s.worker.Exited?
    case ClientThread(i) => i < |s.clients| && s.clients[i].Idle?
    case StopperThread => s.stopper.NotStopped? || s.stopper.Stopped?
  }

  lemma FinishedStays(me: Thread, s: State, turn: Turn)
    requires Finished(me, s)
    ensures Finished(me, OneTurn(me, s, turn))
  {
    if turn.Theirs? && turn.step.ClientMoves? && !Belongs(turn.step, me) && Enabled(s, turn.step) {
      ClientKeepsPoint(me, s, turn.step.i);
    }
  }

  lemma {:induction false} FinishedLater(course: Course, m: nat, n: nat)
    requires m <= n <= |course.schedule| && Finished(course.me, course.Upto(m))
    ensures Finished(course.me, course.Upto(n))
    decreases n
  {
    if m < n {
      FinishedLater(course, m, n - 1);
      TurnAt(course, n - 1);
      FinishedStays(course.me, course.Upto(n - 1), course.schedule[n - 1]);
    }
  }

  /** The operation ends with its last own move, or the schedule ends before it. */
  ghost predicate EndsWith(course: Course, rest: seq<Turn>, returned: bool) {
    if returned then course.Granted(rest) && Finished(course.me, course.Upto(course.Taken(rest)))
    else course.Leaves(rest) && rest == [] && !Finished(course.me, course.Upto(|course.schedule|))
  }

  /** The thread finishes exactly at turn `m`. */
  ghost predicate FinishesAt(course: Course, m: nat) {
    0 < m <= |course.schedule| && Finished(course.me, course.Upto(m)) && !Finished(course.me, course.Upto(m - 1))
  }

  /** Where the turns of the schedule finish the operation, there it returns. */
  lemma ReturnsThere(course: Course, rest: seq<Turn>, returned: bool, m: nat)
    requires EndsWith(course, rest, returned) && FinishesAt(course, m)
    ensures returned && rest == course.schedule[m..] && course.Upto(course.Taken(rest)) == course.Upto(m)
  {
    if !returned {
      FinishedLater(course, m, |course.schedule|);
    } else {
      var n := course.Taken(rest);
      if n < m {
        FinishedLater(course, n, m - 1);
      }
      if m < n {
        FinishedLater(course, m, n - 1);
      }
    }
  }
}
