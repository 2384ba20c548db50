/** Which blocking calls return, and which wait for ever: safety over all runs, and the exact condition at rest. */
module WorkerCalls {
  import opened WorkerProtocol
  import opened WorkerSafety
  import opened WorkerTheorems
  import opened WorkerProgress

  // ----- every blocking call is with its client until it returns

  predicate InCall(c: ClientPc, uid: nat) {
    (c.Pushed? || c.Notified? || c.FlagTest? || c.FlagAsleep?) && c.job.uid == uid
  }

  ghost predicate SomeCaller(s: State, uid: nat) {
    exists i :: 0 <= i < |s.clients| && InCall(s.clients[i], uid)
  }

  ghost predicate CallerInv(s: State) {
    forall uid: nat :: uid < |s.past.accepted| && s.past.accepted[uid].call.blocking && uid !in s.past.returned ==>
      SomeCaller(s, uid)
  }

  lemma CallerKept(remove: Removal, s: State, step: Step)
    requires CallerInv(s) && ConservationInv(s) && FlagInv(s) && Enabled(s, step)
    ensures CallerInv(Next(remove, s, step))
  {
    match step
    case ClientMoves(i) => CallerKeptByClient(remove, s, i);
    case WorkerMoves => CallerKeptByWorker(s);
    case ClientSpurious(i) => CallerFrame(s, Next(remove, s, step), i);
    case BeginDoJob(i, _) => CallerFrame(s, Next(remove, s, step), i);
    case BeginCancel(i, _) => CallerFrame(s, Next(remove, s, step), i);
    case _ =>
      forall uid: nat | SomeCaller(s, uid) ensures SomeCaller(Next(remove, s, step), uid) {
        assert Next(remove, s, step).clients == s.clients;
      }
  }

  lemma CallerKeptByWorker(s: State)
    requires CallerInv(s) && WorkerEnabled(s)
    ensures CallerInv(WorkerNext(s))
  {
    var s' := WorkerNext(s);
    forall uid: nat | SomeCaller(s, uid) ensures SomeCaller(s', uid) {
      var i :| 0 <= i < |s.clients| && InCall(s.clients[i], uid);
      assert InCall(s'.clients[i], uid);
    }
  }

  /** Client `i` moves within its call, or outside all calls. */
  lemma CallerFrame(s: State, s': State, i: nat)
    requires CallerInv(s) && i < |s.clients| == |s'.clients| && s'.clients == s.clients[i := s'.clients[i]]
    requires s'.past.accepted == s.past.accepted && s.past.returned <= s'.past.returned
    requires forall uid: nat :: InCall(s.clients[i], uid) ==>
      InCall(s'.clients[i], uid) || uid in s'.past.returned
      || (uid < |s.past.accepted| && !s.past.accepted[uid].call.blocking)
    ensures CallerInv(s')
  {
    forall uid: nat | uid < |s.past.accepted| && s.past.accepted[uid].call.blocking && uid !in s'.past.returned
      ensures SomeCaller(s', uid)
    {
      var k :| 0 <= k < |s.clients| && InCall(s.clients[k], uid);
      assert InCall(s'.clients[k], uid);
    }
  }

  lemma CallerKeptByClient(remove: Removal, s: State, i: nat)
    requires CallerInv(s) && ConservationInv(s) && FlagInv(s) && ClientEnabled(s, i)
    ensures CallerInv(ClientNext(remove, s, i))
  {
    assert ClientJobInv(s, s.clients[i]);
    if s.clients[i].WantPush? {
      CallerKeptByPush(remove, s, i);
    } else {
      CallerFrame(s, ClientNext(remove, s, i), i);
    }
  }

  lemma CallerKeptByPush(remove: Removal, s: State, i: nat)
    requires CallerInv(s) && ClientEnabled(s, i) && s.clients[i].WantPush?
    ensures CallerInv(ClientNext(remove, s, i))
  {
    var s' := ClientNext(remove, s, i);
    forall uid: nat | uid < |s'.past.accepted| && s'.past.accepted[uid].call.blocking && uid !in s'.past.returned
      ensures SomeCaller(s', uid)
    {
      if uid < |s.past.accepted| {
        var k :| 0 <= k < |s.clients| && InCall(s.clients[k], uid);
        assert InCall(s'.clients[k], uid);
      } else {
        assert InCall(s'.clients[i], uid);
      }
    }
  }

  lemma {:induction false} LeadsKeepsCaller(remove: Removal, s: State, steps: seq<Step>, t: State)
    requires Inv(s) && CallerInv(s) && Leads(remove, s, steps, t)
    ensures CallerInv(t)
    decreases |steps|
  {
    if steps != [] {
      CallerKept(remove, s, steps[0]);
      InvKept(remove, s, steps[0]);
      LeadsKeepsCaller(remove, Next(remove, s, steps[0]), steps[1..], t);
    }
  }

  /** In every reachable state a blocking call that has not returned is some client's. */
  lemma UnreturnedHasCaller(remove: Removal, s: State, uid: nat)
    requires Reachable(remove, s) && uid < |s.past.accepted| && s.past.accepted[uid].call.blocking
    requires uid !in s.past.returned
    ensures SomeCaller(s, uid)
  {
    var threads: nat, steps: seq<Step> :| Leads(remove, Init(threads), steps, s);
    InvInit(threads);
    LeadsKeepsCaller(remove, Init(threads), steps, s);
  }

  // ----- at rest

  ghost predicate Sleeps(s: State, uid: nat) {
    exists i :: 0 <= i < |s.clients| && s.clients[i].FlagAsleep? && s.clients[i].job.uid == uid
  }

  /** The job was cancelled, or is left in the queue of a worker that has exited. */
  ghost predicate Lost(s: State, uid: nat)
    requires uid < |s.past.accepted|
  {
    uid in s.past.cancelled || (s.worker.Exited? && s.past.accepted[uid] in s.calls)
  }

  /** When no thread can move, a blocking call has not returned if and only if its client is asleep, and if and only
      if its job was cancelled or is left behind by the stop. */
  lemma BlockingCallsAtRest(remove: Removal, s: State, uid: nat)
    requires Reachable(remove, s) && forall step :: Internal(step) ==> !Enabled(s, step)
    requires uid < |s.past.accepted| && s.past.accepted[uid].call.blocking
    ensures Sleeps(s, uid) <==> uid !in s.past.returned
    ensures Sleeps(s, uid) <==> Lost(s, uid)
  {
    ReachableInv(remove, s);
    DeadlockFreedom(remove, s);
    FifoConservation(remove, s);
    if uid in s.past.returned {
      BlockingCallSafety(remove, s, uid);
      ExecutedIsNotLost(s, uid);
      NobodySleeps(remove, s, uid);
    } else {
      UnreturnedHasCaller(remove, s, uid);
      var i :| 0 <= i < |s.clients| && InCall(s.clients[i], uid);
      SleeperIsLost(s, i, uid);
    }
  }

  lemma ExecutedIsNotLost(s: State, uid: nat)
    requires ConservationInv(s) && uid < |s.past.accepted| && s.past.accepted[uid] in s.past.executed
    ensures !Lost(s, uid)
  {
    SurvivorsExact(s.past.accepted, s.past.cancelled);
    assert s.past.accepted[uid] in s.past.executed + InHand(s.worker) + s.calls;
    IncreasingApart(s.past.executed, InHand(s.worker), s.calls);
  }

  lemma IncreasingApart(front: seq<Job>, middle: seq<Job>, back: seq<Job>)
    requires Increasing(front + middle + back)
    ensures forall job :: job in front ==> job !in back
  {
    var all := front + middle + back;
    forall p, q | 0 <= p < |front| && 0 <= q < |back| ensures front[p] != back[q] {
      assert all[p] == front[p] && all[|front| + |middle| + q] == back[q];
    }
  }

  lemma NobodySleeps(remove: Removal, s: State, uid: nat)
    requires Inv(s) && uid in s.past.returned && forall i :: 0 <= i < |s.clients| ==> !Enabled(s, ClientMoves(i))
    ensures !Sleeps(s, uid)
  {
    forall i | 0 <= i < |s.clients| && s.clients[i].FlagAsleep? ensures s.clients[i].job.uid != uid {
      assert ClientJobInv(s, s.clients[i]) && !Enabled(s, ClientMoves(i));
    }
  }

  lemma SleeperIsLost(s: State, i: nat, uid: nat)
    requires ConservationInv(s) && FlagInv(s) && i < |s.clients| && InCall(s.clients[i], uid) && uid < |s.past.accepted|
    requires s.clients[i].FlagAsleep? && s.clients[i].job !in s.past.executed
    requires uid in s.past.cancelled || s.past.accepted[uid] in s.past.executed
      || (s.worker.Exited? && s.past.accepted[uid] in s.calls && s.past.stopMark <= uid)
    ensures Sleeps(s, uid) && Lost(s, uid)
  {
    assert ClientJobInv(s, s.clients[i]);
  }

  // ----- a late call never returns

  lemma {:induction false} ExitedStays(remove: Removal, s: State, steps: seq<Step>, t: State)
    requires s.worker.Exited? && Leads(remove, s, steps, t)
    ensures t.worker.Exited? && t.past.executed == s.past.executed
    decreases |steps|
  {
    if steps != [] {
      ExitedOnce(remove, s, steps[0]);
      ExitedStays(remove, Next(remove, s, steps[0]), steps[1..], t);
    }
  }

  lemma ExitedOnce(remove: Removal, s: State, step: Step)
    requires s.worker.Exited? && Enabled(s, step)
    ensures Next(remove, s, step).worker.Exited? && Next(remove, s, step).past.executed == s.past.executed
  {
  }

  /** A blocking call whose job is in the queue when the worker has exited never returns. */
  lemma LateCallNeverReturns(remove: Removal, s: State, later: State, uid: nat)
    requires Reachable(remove, s) && s.worker.Exited? && uid < |s.past.accepted| && s.past.accepted[uid] in s.calls
    requires Continues(remove, s, later)
    ensures uid !in later.past.returned && uid < |later.past.accepted|
    ensures later.past.accepted[uid] !in later.past.executed
  {
    var steps :| Leads(remove, s, steps, later);
    ExitedStays(remove, s, steps, later);
    ContinuesGrows(remove, s, later);
    ReachableContinues(remove, s, later);
    ReachableInv(remove, s);
    if s.past.accepted[uid] in s.past.executed {
      ExecutedIsNotLost(s, uid);
      assert false;
    }
    if uid in later.past.returned {
      BlockingCallSafety(remove, later, uid);
    }
  }

  // ----- both ways of waiting for ever are reachable

  ghost predicate BlockedForEver(s: State, call: Call) {
    && |s.clients| > 0 && s.clients[0] == FlagAsleep(Job(0, call), false)
    && s.past.accepted == [Job(0, call)] && Lost(s, 0)
  }

  lemma ReachableNext(s: State, step: Step, t: State)
    requires Reachable(EVERY_JOB, s) && Enabled(s, step) && t == Next(EVERY_JOB, s, step)
    ensures Reachable(EVERY_JOB, t)
  {
    ContinuesStep(EVERY_JOB, s, step);
    ReachableContinues(EVERY_JOB, s, t);
  }

  lemma ReachableInit(threads: nat)
    ensures Reachable(EVERY_JOB, Init(threads))
  {
    assert Leads(EVERY_JOB, Init(threads), [], Init(threads));
  }

  /** From its push a blocking call comes to sleep by its own steps. */
  lemma FallsAsleep(s: State, call: Call) returns (t: State)
    requires Reachable(EVERY_JOB, s) && call.blocking && |s.clients| > 0 && s.clients[0] == Pushed(Job(0, call))
    requires 0 !in s.past.flagged
    ensures Reachable(EVERY_JOB, t) && t.clients == s.clients[0 := FlagAsleep(Job(0, call), false)]
    ensures t.past == s.past && t.calls == s.calls && (t.worker.Exited? <==> s.worker.Exited?)
  {
    var job := Job(0, call);
    var a := Next(EVERY_JOB, s, ClientMoves(0));
    var b := Next(EVERY_JOB, a, ClientMoves(0));
    t := Next(EVERY_JOB, b, ClientMoves(0));
    ReachableNext(s, ClientMoves(0), a);
    ReachableNext(a, ClientMoves(0), b);
    ReachableNext(b, ClientMoves(0), t);
    assert t.clients == s.clients[0 := FlagAsleep(job, false)];
  }

  /** A blocking call, pushed and then cancelled, sleeps without a job to wake it. */
  lemma CancelledCallBlocks(call: Call)
    requires call.name == "a" && call.blocking
    ensures exists s :: Reachable(EVERY_JOB, s) && BlockedForEver(s, call) && 0 in s.past.cancelled
  {
    var pushed := Init(2).(calls := [Job(0, call)], clients := [Pushed(Job(0, call)), Idle],
                           past := Init(2).past.(accepted := [Job(0, call)]));
    var erased := pushed.(calls := [], queueOwner := Client(1), clients := [Pushed(Job(0, call)), Erased("b")],
                          past := pushed.past.(cancelled := {0}));
    ReachableInit(2);
    DriftPush(call, pushed);
    DriftErase(call, pushed, erased);
    ReachableContinues(EVERY_JOB, Init(2), pushed);
    ReachableContinues(EVERY_JOB, pushed, erased);
    var t := FallsAsleep(erased, call);
    assert BlockedForEver(t, call);
  }

  /** A blocking call that comes in when the worker has been stopped and has exited sleeps in the same way. */
  lemma LateCallBlocks(call: Call)
    requires call.blocking
    ensures exists s :: Reachable(EVERY_JOB, s) && BlockedForEver(s, call) && s.past.cancelled == {} && s.worker.Exited?
  {
    var stopped := Init(1).(active := false, worker := Exited, stopper := Stopped);
    StopsAtOnce(stopped);
    var wanting := Next(EVERY_JOB, stopped, BeginDoJob(0, call));
    var pushed := Next(EVERY_JOB, wanting, ClientMoves(0));
    ReachableNext(stopped, BeginDoJob(0, call), wanting);
    ReachableNext(wanting, ClientMoves(0), pushed);
    assert pushed.past.accepted == [Job(0, call)] && pushed.calls == [Job(0, call)];
    var t := FallsAsleep(pushed, call);
    assert BlockedForEver(t, call);
  }

  /** A new worker can be stopped before it has done anything. */
  lemma StopsAtOnce(stopped: State)
    requires stopped == Init(1).(active := false, worker := Exited, stopper := Stopped)
    ensures Reachable(EVERY_JOB, stopped)
  {
    var s0 := Init(1);
    ReachableInit(1);
    var s1 := Next(EVERY_JOB, s0, BeginStop);
    var s2 := Next(EVERY_JOB, s1, StopperMoves);
    var s3 := Next(EVERY_JOB, s2, StopperMoves);
    var s4 := Next(EVERY_JOB, s3, StopperMoves);
    var s5 := Next(EVERY_JOB, s4, StopperMoves);
    var s6 := Next(EVERY_JOB, s5, WorkerMoves);
    var s7 := Next(EVERY_JOB, s6, StopperMoves);
    ReachableNext(s0, BeginStop, s1);
    ReachableNext(s1, StopperMoves, s2);
    ReachableNext(s2, StopperMoves, s3);
    ReachableNext(s3, StopperMoves, s4);
    ReachableNext(s4, StopperMoves, s5);
    ReachableNext(s5, WorkerMoves, s6);
    ReachableNext(s6, StopperMoves, s7);
    assert s7 == stopped;
  }
}
