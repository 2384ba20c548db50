/**
  The dispatcher: picks the least loaded worker for a call without a strand, and the strand's own worker otherwise;
  and the balance of loads that this policy keeps over whole runs of dispatches and completions.
 */
module Dispatching {
  import opened Division
  import opened WorkerProtocol
  import opened WorkerTheorems
  import opened WorkerSchedules
  import opened WorkerAlone
  import opened AsyncWorkers

  // ----- the policy

  /** `i` is the first index at which the least load is found: what `min_element` returns. */
  ghost predicate FirstLeast(loads: seq<nat>, i: int) {
    && 0 <= i < |loads|
    && (forall k :: 0 <= k < |loads| ==> loads[i] <= loads[k])
    && (forall k :: 0 <= k < i ==> loads[i] < loads[k])
  }

  function Sum(loads: seq<nat>): nat {
    if loads == [] then 0 else loads[0] + Sum(loads[1..])
  }

  /** Without strands: a job is dispatched to the first least loaded worker, or a worker completes one. */
  datatype Traffic = Dispatch(to: nat) | Complete(from: nat)

  ghost predicate Allowed(loads: seq<nat>, t: Traffic) {
    match t
    case Dispatch(to) => FirstLeast(loads, to)
    case Complete(from) => from < |loads| && loads[from] > 0
  }

  function After(loads: seq<nat>, t: Traffic): seq<nat>
    requires (match t case Dispatch(to) => to < |loads| case Complete(from) => from < |loads| && loads[from] > 0)
  {
    match t
    case Dispatch(to) => loads[to := loads[to] + 1]
    case Complete(from) => loads[from := loads[from] - 1]
  }

  ghost predicate Flows(loads: seq<nat>, traffic: seq<Traffic>)
    decreases |traffic|
  {
    traffic == [] || (Allowed(loads, traffic[0]) && Flows(After(loads, traffic[0]), traffic[1..]))
  }

  /** The loads that `traffic` leaves behind. */
  ghost function Final(loads: seq<nat>, traffic: seq<Traffic>): seq<nat>
    requires Flows(loads, traffic)
    decreases |traffic|
  {
    if traffic == [] then loads else Final(After(loads, traffic[0]), traffic[1..])
  }

  /** The greatest total load on the way. */
  ghost function Peak(loads: seq<nat>, traffic: seq<Traffic>): nat
    requires Flows(loads, traffic)
    decreases |traffic|
  {
    if traffic == [] then Sum(loads)
    else Max(Sum(loads), Peak(After(loads, traffic[0]), traffic[1..]))
  }

  function Max(a: nat, b: nat): nat { if a < b then b else a }

  /** `load` is at most `total / workers`, rounded up. */
  predicate WithinShare(load: nat, total: nat, workers: nat) {
    load == 0 || (load - 1) * workers < total
  }

  lemma {:induction false} SumUpdate(loads: seq<nat>, i: nat, load: nat)
    requires i < |loads|
    ensures Sum(loads[i := load]) == Sum(loads) - loads[i] + load
  {
    if i == 0 {
      assert loads[i := load][1..] == loads[1..];
    } else {
      SumUpdate(loads[1..], i - 1, load);
      assert loads[i := load][1..] == loads[1..][i - 1 := load];
    }
  }

  lemma {:induction false} LeastTimesCount(loads: seq<nat>, least: nat)
    requires forall k :: 0 <= k < |loads| ==> least <= loads[k]
    ensures least * |loads| <= Sum(loads)
  {
    if loads != [] {
      LeastTimesCount(loads[1..], least);
      assert least * |loads| == least + least * |loads[1..]|;
    }
  }

  /** However dispatches and completions interleave, no load ever exceeds the peak total shared out and rounded up. */
  lemma {:induction false} LoadCeiling(loads: seq<nat>, traffic: seq<Traffic>, peak: nat)
    requires |loads| > 0 && Flows(loads, traffic) && Sum(loads) <= peak
    requires forall w :: 0 <= w < |loads| ==> WithinShare(loads[w], peak, |loads|)
    ensures |Final(loads, traffic)| == |loads|
    ensures forall w :: 0 <= w < |loads| ==>
      WithinShare(Final(loads, traffic)[w], Max(peak, Peak(loads, traffic)), |loads|)
    decreases |traffic|
  {
    if traffic == [] {
    } else {
      var next := After(loads, traffic[0]);
      ShareKept(loads, traffic[0], peak);
      LoadCeiling(next, traffic[1..], Max(peak, Sum(next)));
      PeakFromNext(loads, traffic);
    }
  }

  lemma PeakFromNext(loads: seq<nat>, traffic: seq<Traffic>)
    requires traffic != [] && Flows(loads, traffic)
    ensures Sum(After(loads, traffic[0])) <= Peak(After(loads, traffic[0]), traffic[1..]) <= Peak(loads, traffic)
    ensures Peak(loads, traffic) == Max(Sum(loads), Peak(After(loads, traffic[0]), traffic[1..]))
  {
  }

  lemma ShareKept(loads: seq<nat>, t: Traffic, peak: nat)
    requires |loads| > 0 && Allowed(loads, t) && Sum(loads) <= peak
    requires forall w :: 0 <= w < |loads| ==> WithinShare(loads[w], peak, |loads|)
    ensures forall w :: 0 <= w < |loads| ==> WithinShare(After(loads, t)[w], Max(peak, Sum(After(loads, t))), |loads|)
  {
    match t
    case Dispatch(to) =>
      SumUpdate(loads, to, loads[to] + 1);
      LeastTimesCount(loads, loads[to]);
    case Complete(from) =>
      SumUpdate(loads, from, loads[from] - 1);
      ShareShrinks(loads[from], peak, |loads|);
  }

  lemma ShareShrinks(load: nat, total: nat, workers: nat)
    requires load > 0 && WithinShare(load, total, workers)
    ensures WithinShare(load - 1, total, workers)
  {
    assert (load - 2) * workers == (load - 1) * workers - workers;
  }

  lemma ShareIsRoundedUp(load: nat, total: nat, workers: nat)
    requires workers > 0 && WithinShare(load, total, workers)
    ensures load <= (total + workers - 1) / workers
  {
    var up, c := total + workers - 1, (total + workers - 1) / workers;
    assert up == c * workers + up % workers;
    if load > c {
      MultiplyMonotone(c, load - 1, workers);
    }
  }

  lemma {:induction false} NoLoad(workers: nat)
    ensures Sum(seq(workers, _ => 0)) == 0
  {
    if workers > 0 {
      NoLoad(workers - 1);
      assert seq(workers, _ => 0)[1..] == seq(workers - 1, _ => 0);
    }
  }

  /** Traffic grows by what the pool does next, so the ceiling holds after every dispatch and every completion. */
  lemma {:induction false} TrafficGrows(loads: seq<nat>, traffic: seq<Traffic>, t: Traffic)
    requires Flows(loads, traffic) && Allowed(Final(loads, traffic), t)
    ensures Flows(loads, traffic + [t]) && Final(loads, traffic + [t]) == After(Final(loads, traffic), t)
    decreases |traffic|
  {
    if traffic == [] {
      assert traffic + [t] == [t];
    } else {
      TrafficGrows(After(loads, traffic[0]), traffic[1..], t);
      assert (traffic + [t])[0] == traffic[0] && (traffic + [t])[1..] == traffic[1..] + [t];
    }
  }

  /** From an idle pool, no load exceeds the greatest total so far divided by the number of workers, rounded up. */
  lemma LoadCeilingFromIdle(idle: seq<nat>, traffic: seq<Traffic>, w: nat)
    requires idle == seq(|idle|, _ => 0) && w < |idle| && Flows(idle, traffic)
    ensures |Final(idle, traffic)| == |idle|
    ensures Final(idle, traffic)[w] <= (Peak(idle, traffic) + |idle| - 1) / |idle|
  {
    NoLoad(|idle|);
    LoadCeiling(idle, traffic, 0);
    ShareIsRoundedUp(Final(idle, traffic)[w], Peak(idle, traffic), |idle|);
  }

  /** After `q` full rounds and `r` more jobs. */
  predicate Round(loads: seq<nat>, q: nat, r: nat) {
    r < |loads| && forall i :: 0 <= i < |loads| ==> loads[i] == q + if i < r then 1 else 0
  }

  /** Without completions the jobs go round: from an even pool job `k` goes to worker `k % n`, and loads stay within
      one of each other. */
  lemma {:induction false} RoundRobin(loads: seq<nat>, q: nat, r: nat, traffic: seq<Traffic>)
    requires Round(loads, q, r) && Flows(loads, traffic)
    requires forall j :: 0 <= j < |traffic| ==> traffic[j].Dispatch?
    ensures forall k :: 0 <= k < |traffic| ==> traffic[k].to == (r + k) % |loads|
    ensures forall i, j :: 0 <= i < |Final(loads, traffic)| && 0 <= j < |Final(loads, traffic)| ==>
      Final(loads, traffic)[i] <= Final(loads, traffic)[j] + 1
    decreases |traffic|
  {
    if traffic != [] {
      var n, next := |loads|, After(loads, traffic[0]);
      assert FirstLeast(loads, traffic[0].to) && loads[r] == q;
      assert traffic[0].to == r;
      assert traffic[0].to == (r + 0) % n by { Quotient(r, n, 0, r); }
      var q', r' := if r + 1 < n then q else q + 1, if r + 1 < n then r + 1 else 0;
      assert Round(next, q', r');
      RoundRobin(next, q', r', traffic[1..]);
      forall k | 0 < k < |traffic| ensures traffic[k].to == (r + k) % n {
        assert traffic[k] == traffic[1..][k - 1];
        SameRemainder(r + k, r' + (k - 1), n);
      }
    }
  }

  lemma SameRemainder(x: nat, y: nat, n: nat)
    requires n > 0 && (x == y || x == y + n)
    ensures x % n == y % n
  {
    if x == y + n {
      Quotient(x, n, y / n + 1, y % n);
    }
  }

  // ----- the dispatcher as an object

  /** What `getLoad` answers for each worker. */
  function LoadsOf(workers: seq<AsyncWorker>): (loads: seq<nat>)
    reads workers
    ensures |loads| == |workers| && forall i :: 0 <= i < |workers| ==> loads[i] == workers[i].outstandingJobs
  {
    if workers == [] then [] else [workers[0].outstandingJobs] + LoadsOf(workers[1..])
  }

  function StatesOf(workers: seq<AsyncWorker>): (states: seq<State>)
    reads workers
    ensures |states| == |workers| && forall n :: 0 <= n < |workers| ==> states[n] == workers[n].At()
  {
    if workers == [] then [] else [workers[0].At()] + StatesOf(workers[1..])
  }

  predicate Distinct(workers: seq<AsyncWorker>) {
    forall m, n :: 0 <= m < n < |workers| ==> workers[m] != workers[n]
  }

  lemma OthersDiffer(workers: seq<AsyncWorker>, n: nat)
    requires Distinct(workers) && n < |workers|
    ensures forall m :: 0 <= m < |workers| && m != n ==> workers[m] != workers[n]
  {
  }

  lemma OneChanged(before: seq<State>, after: seq<State>, n: nat)
    requires n < |before| == |after| && forall m :: 0 <= m < |before| && m != n ==> after[m] == before[m]
    ensures after == before[n := after[n]]
  {
  }

  ghost predicate AllReachable(states: seq<State>) {
    forall n :: 0 <= n < |states| ==> Reachable(EVERY_JOB, states[n])
  }

  /** Thread `i` is in no operation of any worker. */
  predicate Outside(states: seq<State>, i: nat) {
    forall n :: 0 <= n < |states| ==> i < |states[n].clients| && states[n].clients[i].Idle?
  }

  ghost predicate AllContinue(before: seq<State>, after: seq<State>) {
    |before| == |after| && forall n :: 0 <= n < |before| ==> Continues(EVERY_JOB, before[n], after[n])
  }

  lemma NothingHappened(states: seq<State>)
    ensures AllContinue(states, states)
  {
    forall n | 0 <= n < |states| ensures Continues(EVERY_JOB, states[n], states[n]) {
      NothingYet(states[n]);
    }
  }

  lemma AllContinueJoin(a: seq<State>, b: seq<State>, c: seq<State>)
    requires AllContinue(a, b) && AllContinue(b, c)
    ensures AllContinue(a, c)
  {
    forall n | 0 <= n < |a| ensures Continues(EVERY_JOB, a[n], c[n]) {
      ContinuesJoin(EVERY_JOB, a[n], b[n], c[n]);
    }
  }

  lemma AllMovedContinue(i: nat, turns: seq<seq<Turn>>, before: seq<State>, after: seq<State>)
    requires AllMoved(i, turns, before, after)
    ensures AllContinue(before, after)
  {
    forall n | 0 <= n < |before| ensures Continues(EVERY_JOB, before[n], after[n]) {
      TurnsContinue(ClientThread(i), before[n], turns[n]);
    }
  }

  lemma AllContinueStep(a: seq<State>, b: seq<State>, n: nat, s: State)
    requires AllContinue(a, b) && n < |b| && Continues(EVERY_JOB, b[n], s)
    ensures AllContinue(a, b[n := s])
  {
    ContinuesJoin(EVERY_JOB, a[n], b[n], s);
  }

  /** Where a cancel by thread `i` on one worker leads: to the turn that finishes it, or to the end of the schedule. */
  ghost predicate CancelLeads(i: nat, name: string, schedule: seq<Turn>, before: State, now: State, returned: bool) {
    && Enabled(before, BeginCancel(i, name))
    && var course := Course(ClientThread(i), Next(EVERY_JOB, before, BeginCancel(i, name)), schedule);
      exists rest: seq<Turn> ::
        EndsWith(course, rest, returned) && |rest| <= |schedule| && now == course.Upto(course.Taken(rest))
  }

  lemma CancelLeadsThere(i: nat, name: string, schedule: seq<Turn>, before: State, now: State, returned: bool,
                         rest: seq<Turn>)
    requires Enabled(before, BeginCancel(i, name)) && |rest| <= |schedule|
    requires var course := Course(ClientThread(i), Next(EVERY_JOB, before, BeginCancel(i, name)), schedule);
      EndsWith(course, rest, returned) && now == course.Upto(course.Taken(rest))
    ensures CancelLeads(i, name, schedule, before, now, returned)
  {
  }

  lemma CancelContinues(i: nat, name: string, schedule: seq<Turn>, before: State, now: State, returned: bool)
    requires CancelLeads(i, name, schedule, before, now, returned)
    ensures Continues(EVERY_JOB, before, now)
  {
    var course := Course(ClientThread(i), Next(EVERY_JOB, before, BeginCancel(i, name)), schedule);
    var rest: seq<Turn> :|
      EndsWith(course, rest, returned) && |rest| <= |schedule| && now == course.Upto(course.Taken(rest));
    ContinuesStep(EVERY_JOB, before, BeginCancel(i, name));
    TurnsContinue(ClientThread(i), course.start, schedule[..course.Taken(rest)]);
    ContinuesJoin(EVERY_JOB, before, course.start, now);
  }

  /** One worker of the pool is at `now`. */
  lemma PoolWith(before: seq<State>, k: nat, now: State, i: nat)
    requires AllReachable(before) && Outside(before, i) && k < |before| && Reachable(EVERY_JOB, now)
    ensures AllReachable(before[k := now])
    ensures i < |now.clients| && now.clients[i].Idle? ==> Outside(before[k := now], i)
  {
  }

  /** All workers have taken their turns. */
  ghost predicate AllMoved(i: nat, turns: seq<seq<Turn>>, before: seq<State>, after: seq<State>) {
    && |before| == |after| == |turns|
    && forall n :: 0 <= n < |before| ==> after[n] == Turns(ClientThread(i), before[n], turns[n])
  }

  /** The first `n` workers have. */
  ghost predicate MovedUpto(n: nat, i: nat, turns: seq<seq<Turn>>, before: seq<State>, after: seq<State>) {
    && n <= |before| == |after| == |turns|
    && (forall m :: 0 <= m < n ==> after[m] == Turns(ClientThread(i), before[m], turns[m]))
    && (forall m :: n <= m < |before| ==> after[m] == before[m])
  }

  lemma MovedNext(n: nat, i: nat, turns: seq<seq<Turn>>, starts: seq<State>, now: seq<State>, s: State)
    requires MovedUpto(n, i, turns, starts, now) && AllReachable(now) && Outside(now, i) && n < |now|
    requires s == Turns(ClientThread(i), now[n], turns[n])
    requires Reachable(EVERY_JOB, s) && i < |s.clients| && s.clients[i].Idle?
    ensures MovedUpto(n + 1, i, turns, starts, now[n := s])
    ensures AllReachable(now[n := s]) && Outside(now[n := s], i)
  {
  }

  /** What happens in one round of a cancel on the whole pool: on the worker being cancelled until it has been, and
      then on every worker. */
  datatype Plan = Plan(schedule: seq<Turn>, turns: seq<seq<Turn>>)

  /** Where a round leads: its worker when its own cancel has ended, and all workers when the round is over. */
  datatype Leg = Leg(own: State, pool: seq<State>)

  /** Where the workers are after these rounds. */
  function EndOf(starts: seq<State>, legs: seq<Leg>): seq<State> {
    if legs == [] then starts else legs[|legs| - 1].pool
  }

  /** Worker `k` is cancelled, and if that returns, all workers take the turns that belong to the round. */
  ghost predicate CancelRound(i: nat, name: string, k: nat, plan: Plan, before: seq<State>, leg: Leg, returned: bool) {
    && k < |before| && CancelLeads(i, name, plan.schedule, before[k], leg.own, returned)
    && var between := before[k := leg.own];
      if returned then AllMoved(i, plan.turns, between, leg.pool) else leg.pool == between
  }

  /** The rounds of a cancel on the whole pool; all of them returned, but for the last, perhaps. */
  ghost predicate Rounds(i: nat, name: string, plans: seq<Plan>, starts: seq<State>, legs: seq<Leg>, returned: bool)
    decreases |legs|, 0
  {
    legs == [] || RoundsThen(i, name, plans, starts, legs[..|legs| - 1], legs[|legs| - 1], returned)
  }

  ghost predicate RoundsThen(i: nat, name: string, plans: seq<Plan>, starts: seq<State>, legs: seq<Leg>, last: Leg,
                             returned: bool)
    decreases |legs|, 1
  {
    && |legs| < |plans| && Rounds(i, name, plans, starts, legs, true)
    && CancelRound(i, name, |legs|, plans[|legs|], EndOf(starts, legs), last, returned)
  }

  predicate Emptied(s: State) { s.calls == [] && s.load == 0 }

  ghost predicate AllEmptied(legs: seq<Leg>) {
    forall k :: 0 <= k < |legs| ==> Emptied(legs[k].own)
  }

  /** So far the rounds have returned, each with its worker emptied; or the last one has not. */
  ghost predicate Halfway(i: nat, starts: seq<State>, legs: seq<Leg>, returned: bool) {
    && AllReachable(EndOf(starts, legs))
    && if returned then Outside(EndOf(starts, legs), i) && AllEmptied(legs) else legs != []
  }

  lemma OneMoreRound(i: nat, name: string, plans: seq<Plan>, starts: seq<State>, legs: seq<Leg>, leg: Leg,
                     returned: bool)
    requires Rounds(i, name, plans, starts, legs, true) && |legs| < |plans|
    requires CancelRound(i, name, |legs|, plans[|legs|], EndOf(starts, legs), leg, returned)
    ensures Rounds(i, name, plans, starts, legs + [leg], returned)
  {
    assert RoundsThen(i, name, plans, starts, legs, leg, returned);
    LastLeg(legs, leg);
  }

  lemma LastLeg(legs: seq<Leg>, leg: Leg)
    ensures (legs + [leg])[..|legs + [leg]| - 1] == legs && (legs + [leg])[|legs + [leg]| - 1] == leg
  {
  }

  lemma OneMoreLeg(i: nat, starts: seq<State>, legs: seq<Leg>, leg: Leg, returned: bool)
    requires Halfway(i, starts, legs, true) && AllReachable(leg.pool)
    requires returned ==> Outside(leg.pool, i) && Emptied(leg.own)
    ensures Halfway(i, starts, legs + [leg], returned)
  {
  }

  lemma RoundContinues(i: nat, name: string, k: nat, plan: Plan, before: seq<State>, leg: Leg, returned: bool)
    requires CancelRound(i, name, k, plan, before, leg, returned)
    ensures AllContinue(before, leg.pool)
    ensures Continues(EVERY_JOB, before[k], leg.own) && Continues(EVERY_JOB, leg.own, leg.pool[k])
  {
    CancelContinues(i, name, plan.schedule, before[k], leg.own, returned);
    NothingHappened(before);
    AllContinueStep(before, before, k, leg.own);
    if returned {
      AllMovedContinue(i, plan.turns, before[k := leg.own], leg.pool);
      AllContinueJoin(before, before[k := leg.own], leg.pool);
    } else {
      NothingYet(leg.own);
    }
  }

  ghost predicate Passed(before: State, now: State, after: State) {
    Continues(EVERY_JOB, before, now) && Continues(EVERY_JOB, now, after)
  }

  /** Every worker whose round is over has passed through the state in which its cancel ended. */
  ghost predicate AllPassed(starts: seq<State>, legs: seq<Leg>, ends: seq<State>) {
    && AllContinue(starts, ends) && |legs| <= |starts|
    && forall k :: 0 <= k < |legs| ==> Passed(starts[k], legs[k].own, ends[k])
  }

  lemma {:induction false} RoundsPass(i: nat, name: string, plans: seq<Plan>, starts: seq<State>, legs: seq<Leg>,
                                      returned: bool)
    requires Rounds(i, name, plans, starts, legs, returned)
    ensures AllPassed(starts, legs, EndOf(starts, legs))
    decreases |legs|
  {
    if legs == [] {
      NothingHappened(starts);
    } else {
      var front, last := legs[..|legs| - 1], legs[|legs| - 1];
      assert RoundsThen(i, name, plans, starts, front, last, returned);
      RoundsPass(i, name, plans, starts, front, true);
      RoundContinues(i, name, |front|, plans[|front|], EndOf(starts, front), last, returned);
      OneMorePasses(starts, front, EndOf(starts, front), last);
      assert legs == front + [last];
    }
  }

  lemma OneMorePasses(starts: seq<State>, legs: seq<Leg>, before: seq<State>, last: Leg)
    requires AllPassed(starts, legs, before) && AllContinue(before, last.pool) && |legs| < |before|
    requires Passed(before[|legs|], last.own, last.pool[|legs|])
    ensures AllPassed(starts, legs + [last], last.pool)
  {
    AllContinueJoin(starts, before, last.pool);
    forall k | 0 <= k < |legs| ensures Passed(starts[k], legs[k].own, last.pool[k]) {
      ContinuesJoin(EVERY_JOB, legs[k].own, before[k], last.pool[k]);
    }
    ContinuesJoin(EVERY_JOB, starts[|legs|], before[|legs|], last.own);
  }

  lemma OneLoadMore(before: seq<nat>, after: seq<nat>, n: nat)
    requires n < |before| == |after| && after[n] == before[n] + 1
    requires forall m :: 0 <= m < |before| && m != n ==> after[m] == before[m]
    ensures after == After(before, Dispatch(n))
  {
  }

  /** When a worker counts down for the job it has taken, that is a completion in the traffic of the pool. */
  lemma PopCompletes(loads: seq<nat>, w: nat, s: State)
    requires w < |loads| && s.worker.Popped? && 0 < s.load == loads[w] < WORD
    ensures Allowed(loads, Complete(w)) && loads[w := WorkerNext(s).load] == After(loads, Complete(w))
  {
  }

  method SubmitAndWait(worker: AsyncWorker, i: nat, call: Call, schedule: seq<Turn>)
    returns (rest: seq<Turn>, returned: bool, job: Job)
    requires worker.Valid() && i < |worker.clients| && worker.clients[i].Idle? && call.blocking
    modifies worker
    ensures var course := Course(ClientThread(i), Next(EVERY_JOB, old(worker.At()), BeginDoJob(i, call)), schedule);
      worker.Stands(course, rest) && EndsWith(course, rest, returned)
    ensures worker.Valid() && Continues(EVERY_JOB, old(worker.At()), worker.At())
    ensures returned ==> job.call == call && job in worker.past.accepted
    ensures returned ==> forall e :: e in RunOf(job) ==> e in worker.past.log
  {
    rest, returned, job := worker.DoSyncJob(i, call, schedule);
    if returned {
      ReachableInv(EVERY_JOB, worker.At());
      LaterIsAccepted(worker.At(), job);
    }
  }

  method CancelOn(worker: AsyncWorker, i: nat, name: string, schedule: seq<Turn>) returns (returned: bool)
    requires worker.Valid() && i < |worker.clients| && worker.clients[i].Idle?
    modifies worker
    ensures CancelLeads(i, name, schedule, old(worker.At()), worker.At(), returned) && worker.Valid()
    ensures returned ==> i < |worker.clients| && worker.clients[i].Idle?
    ensures returned ==> worker.calls == [] && worker.outstandingJobs == 0
  {
    ghost var before := worker.At();
    var rest;
    rest, returned := worker.CancelJobsFor(i, name, schedule);
    CancelLeadsThere(i, name, schedule, before, worker.At(), returned, rest);
  }

  /** The queue lock is free, and the counter far from wrapping around. */
  predicate HasRoom(worker: AsyncWorker)
    reads worker
  {
    worker.queueLock.Nobody? && worker.outstandingJobs + 1 < WORD
  }

  /** The two ways of submitting. */
  method SubmitTo(worker: AsyncWorker, i: nat, call: Call, schedule: seq<Turn>)
    returns (rest: seq<Turn>, returned: bool, job: Job)
    requires worker.Valid() && i < |worker.clients| && worker.clients[i].Idle?
    modifies worker
    ensures var course := Course(ClientThread(i), Next(EVERY_JOB, old(worker.At()), BeginDoJob(i, call)), schedule);
      worker.Stands(course, rest) && EndsWith(course, rest, returned)
    ensures worker.Valid() && Continues(EVERY_JOB, old(worker.At()), worker.At())
    ensures returned ==> job.call == call && job in worker.past.accepted
    ensures returned && call.blocking ==> forall e :: e in RunOf(job) ==> e in worker.past.log
    ensures !call.blocking && old(HasRoom(worker)) && Alone(schedule, 3) ==>
      returned && worker.outstandingJobs == old(worker.outstandingJobs) + 1
  {
    if call.blocking {
      rest, returned, job := SubmitAndWait(worker, i, call, schedule);
    } else {
      rest, returned, job := worker.DoJob(i, call, schedule);
    }
  }

  class AsyncDispatcher {
    var asyncWorkers: seq<AsyncWorker>
    var strands: map<string, AsyncWorker>

    /** The workers are valid, and every strand is bound to one of them. */
    ghost predicate Valid()
      reads this, asyncWorkers
    {
      && (forall w :: w in asyncWorkers ==> w.Valid())
      && (forall strand :: strand in strands ==> strands[strand] in asyncWorkers)
    }

    constructor (queue: seq<AsyncWorker>)
      requires forall w :: w in queue ==> w.Valid()
      ensures Valid() && asyncWorkers == queue && strands == map[]
    {
      asyncWorkers, strands := queue, map[];
    }

    /** `createWorkersIfNotInitialized`: fills an empty pool; a pool handed in must have the announced size. */
    method CreateWorkersIfNotInitialized(poolSize: nat, threads: nat)
      requires Valid() && (asyncWorkers != [] ==> |asyncWorkers| == poolSize)
      modifies this
      ensures Valid() && |asyncWorkers| == poolSize && strands == old(strands)
      ensures old(asyncWorkers) != [] ==> asyncWorkers == old(asyncWorkers)
      ensures old(asyncWorkers) == [] ==>
        forall w :: w in asyncWorkers ==> fresh(w) && w.At() == Init(threads)
      ensures old(asyncWorkers) == [] ==> forall i, j :: 0 <= i < j < poolSize ==> asyncWorkers[i] != asyncWorkers[j]
    {
      if asyncWorkers == [] {
        while |asyncWorkers| < poolSize
          invariant Valid() && |asyncWorkers| <= poolSize && strands == old(strands)
          invariant forall w :: w in asyncWorkers ==> fresh(w) && w.At() == Init(threads)
          invariant forall i, j :: 0 <= i < j < |asyncWorkers| ==> asyncWorkers[i] != asyncWorkers[j]
        {
          var worker := new AsyncWorker(threads);
          asyncWorkers := asyncWorkers + [worker];
        }
      }
    }

    /** `min_element` over the loads: the first worker with the least load. */
    method LeastLoaded() returns (least: nat)
      requires asyncWorkers != []
      ensures FirstLeast(LoadsOf(asyncWorkers), least)
    {
      ghost var loads := LoadsOf(asyncWorkers);
      least := 0;
      var i := 1;
      while i < |asyncWorkers|
        invariant 0 <= least < i <= |asyncWorkers|
        invariant forall k :: 0 <= k < i ==> loads[least] <= loads[k]
        invariant forall k :: 0 <= k < least ==> loads[least] < loads[k]
      {
        if asyncWorkers[i].outstandingJobs < asyncWorkers[least].outstandingJobs {
          least := i;
        }
        i := i + 1;
      }
    }

    /** `getWorkerForSchedule`: the least loaded worker, or the one the strand is bound to. */
    method GetWorkerForSchedule(strand: string) returns (worker: AsyncWorker, least: nat)
      requires Valid() && asyncWorkers != []
      modifies this`strands
      ensures Valid() && worker in asyncWorkers && FirstLeast(LoadsOf(asyncWorkers), least)
      ensures strand == "" ==> worker == asyncWorkers[least] && strands == old(strands)
      ensures strand != "" ==>
        strands == (map[strand := asyncWorkers[least]] + old(strands)) && worker == strands[strand]
    {
      least := LeastLoaded();
      if strand == "" {
        worker := asyncWorkers[least];
      } else {
        worker := GetStrandWorkerForSchedule(strand, asyncWorkers[least]);
      }
    }

    /** `getStrandWorkerForSchedule`: binds a strand the first time it is seen, and never again. */
    method GetStrandWorkerForSchedule(strand: string, idle: AsyncWorker) returns (worker: AsyncWorker)
      requires Valid() && idle in asyncWorkers
      modifies this`strands
      ensures Valid() && worker in asyncWorkers
      ensures strands == map[strand := idle] + old(strands) && worker == strands[strand]
    {
      if strand !in strands {
        strands := strands[strand := idle];
      }
      worker := strands[strand];
    }

    /** `scheduleJob`: submits the call to the chosen worker, waiting for it to be done if the call says so. A dispatch
        that nobody interferes with loads the first least loaded worker with one job more. */
    method ScheduleJob(i: nat, call: Call, schedule: seq<Turn>)
      returns (rest: seq<Turn>, returned: bool, worker: AsyncWorker, least: nat, job: Job)
      requires Valid() && asyncWorkers != []
      requires forall w :: w in asyncWorkers ==> i < |w.clients| && w.clients[i].Idle?
      modifies this`strands, asyncWorkers
      ensures asyncWorkers == old(asyncWorkers) && worker in asyncWorkers && worker.Valid()
      ensures var course := Course(ClientThread(i), Next(EVERY_JOB, old(worker.At()), BeginDoJob(i, call)), schedule);
        worker.Stands(course, rest) && EndsWith(course, rest, returned)
      ensures Continues(EVERY_JOB, old(worker.At()), worker.At())
      ensures forall w :: w in asyncWorkers && w != worker ==> unchanged(w)
      ensures FirstLeast(old(LoadsOf(asyncWorkers)), least)
      ensures call.strand == "" ==> worker == asyncWorkers[least] && strands == old(strands)
      ensures call.strand != "" ==>
        strands == (map[call.strand := asyncWorkers[least]] + old(strands)) && worker == strands[call.strand]
      ensures returned ==> job.call == call && job in worker.past.accepted
      ensures returned && call.blocking ==> forall e :: e in RunOf(job) ==> e in worker.past.log
      ensures call.strand == "" && !call.blocking && old(Uncontended(asyncWorkers[least])) && Alone(schedule, 3) ==>
        returned && LoadsOf(asyncWorkers) == After(old(LoadsOf(asyncWorkers)), Dispatch(least))
    {
      ghost var loads := LoadsOf(asyncWorkers);
      worker, least := GetWorkerForSchedule(call.strand);
      ghost var n: nat :| n < |asyncWorkers| && asyncWorkers[n] == worker && (call.strand == "" ==> n == least);
      rest, returned, job := SubmitAt(n, worker, i, call, schedule, loads);
    }

    /** Every worker is its own, and nobody interferes with this one. */
    ghost predicate Uncontended(worker: AsyncWorker)
      reads this, worker
    {
      Distinct(asyncWorkers) && HasRoom(worker)
    }

    method SubmitAt(ghost n: nat, worker: AsyncWorker, i: nat, call: Call, schedule: seq<Turn>, ghost loads: seq<nat>)
      returns (rest: seq<Turn>, returned: bool, job: Job)
      requires loads == LoadsOf(asyncWorkers) && n < |asyncWorkers| && asyncWorkers[n] == worker
      requires worker.Valid() && i < |worker.clients| && worker.clients[i].Idle?
      modifies worker
      ensures var course := Course(ClientThread(i), Next(EVERY_JOB, old(worker.At()), BeginDoJob(i, call)), schedule);
        worker.Stands(course, rest) && EndsWith(course, rest, returned)
      ensures worker.Valid() && Continues(EVERY_JOB, old(worker.At()), worker.At())
      ensures returned ==> job.call == call && job in worker.past.accepted
      ensures returned && call.blocking ==> forall e :: e in RunOf(job) ==> e in worker.past.log
      ensures !call.blocking && old(Uncontended(worker)) && Alone(schedule, 3) ==>
        returned && LoadsOf(asyncWorkers) == After(loads, Dispatch(n))
    {
      ghost var free := Uncontended(worker);
      rest, returned, job := SubmitTo(worker, i, call, schedule);
      if !call.blocking && free && Alone(schedule, 3) {
        OthersDiffer(asyncWorkers, n);
        assert forall m :: 0 <= m < |loads| && m != n ==> asyncWorkers[m].outstandingJobs == loads[m];
        OneLoadMore(loads, LoadsOf(asyncWorkers), n);
      }
    }

    /** `cancelJobsFor`: cancels on every worker in turn, while the other threads of all workers go on as `plans`
        says; `legs` tells where that leads. */
    method CancelJobsFor(i: nat, name: string, plans: seq<Plan>) returns (returned: bool, ghost legs: seq<Leg>)
      requires Valid() && Distinct(asyncWorkers) && Outside(StatesOf(asyncWorkers), i)
      requires |plans| == |asyncWorkers| && forall k :: 0 <= k < |plans| ==> |plans[k].turns| == |asyncWorkers|
      modifies asyncWorkers
      ensures AllReachable(StatesOf(asyncWorkers))
      ensures Rounds(i, name, plans, old(StatesOf(asyncWorkers)), legs, returned)
      ensures StatesOf(asyncWorkers) == EndOf(old(StatesOf(asyncWorkers)), legs)
      ensures if returned then |legs| == |asyncWorkers| && AllEmptied(legs) else legs != []
      ensures AllPassed(old(StatesOf(asyncWorkers)), legs, StatesOf(asyncWorkers))
      ensures returned ==> forall k :: 0 <= k < |asyncWorkers| ==>
        && Continues(EVERY_JOB, old(StatesOf(asyncWorkers))[k], legs[k].own)
        && legs[k].own.calls == [] && legs[k].own.load == 0
        && Continues(EVERY_JOB, legs[k].own, StatesOf(asyncWorkers)[k])
    {
      ghost var starts := StatesOf(asyncWorkers);
      AllValid();
      returned, legs := CancelOnAll(i, name, plans, starts);
      RoundsPass(i, name, plans, starts, legs, returned);
      assert forall k :: 0 <= k < |legs| ==> Passed(starts[k], legs[k].own, EndOf(starts, legs)[k]);
    }

    /** The rounds, one for each worker, until one does not return. */
    method CancelOnAll(i: nat, name: string, plans: seq<Plan>, ghost starts: seq<State>)
      returns (returned: bool, ghost legs: seq<Leg>)
      requires starts == StatesOf(asyncWorkers) && AllReachable(starts) && Outside(starts, i) && Distinct(asyncWorkers)
      requires |plans| == |asyncWorkers| && forall k :: 0 <= k < |plans| ==> |plans[k].turns| == |asyncWorkers|
      modifies asyncWorkers
      ensures UnderWay(i, name, plans, starts, legs, returned) && (returned ==> |legs| == |asyncWorkers|)
    {
      legs, returned := [], true;
      var k := 0;
      while k < |asyncWorkers| && returned
        invariant |legs| == k <= |asyncWorkers| && UnderWay(i, name, plans, starts, legs, returned)
      {
        returned, legs := CancelNext(i, name, plans, starts, k, legs);
        k := k + 1;
      }
    }

    /** The workers are where the rounds so far have led. */
    ghost predicate UnderWay(i: nat, name: string, plans: seq<Plan>, starts: seq<State>, legs: seq<Leg>, returned: bool)
      reads this, asyncWorkers
    {
      && Rounds(i, name, plans, starts, legs, returned) && Halfway(i, starts, legs, returned)
      && StatesOf(asyncWorkers) == EndOf(starts, legs)
    }

    method CancelNext(i: nat, name: string, plans: seq<Plan>, ghost starts: seq<State>, k: nat, ghost legs: seq<Leg>)
      returns (returned: bool, ghost more: seq<Leg>)
      requires UnderWay(i, name, plans, starts, legs, true) && Distinct(asyncWorkers)
      requires |legs| == k < |plans| == |asyncWorkers| == |plans[k].turns|
      modifies asyncWorkers
      ensures UnderWay(i, name, plans, starts, more, returned) && |more| == k + 1
    {
      ghost var leg;
      returned, leg := CancelOne(i, name, k, plans[k], EndOf(starts, legs));
      OneMoreRound(i, name, plans, starts, legs, leg, returned);
      OneMoreLeg(i, starts, legs, leg, returned);
      more := legs + [leg];
    }

    lemma AllValid()
      requires Valid()
      ensures AllReachable(StatesOf(asyncWorkers))
    {
      forall n | 0 <= n < |asyncWorkers| ensures Reachable(EVERY_JOB, asyncWorkers[n].At()) {
        assert asyncWorkers[n] in asyncWorkers && asyncWorkers[n].Valid();
      }
    }

    /** Cancels on one worker, and lets all of them do what they do meanwhile. */
    method CancelOne(i: nat, name: string, k: nat, plan: Plan, ghost before: seq<State>)
      returns (returned: bool, ghost leg: Leg)
      requires before == StatesOf(asyncWorkers) && AllReachable(before) && Distinct(asyncWorkers)
      requires Outside(before, i) && k < |asyncWorkers| == |plan.turns|
      modifies asyncWorkers
      ensures leg.pool == StatesOf(asyncWorkers) && AllReachable(leg.pool)
      ensures CancelRound(i, name, k, plan, before, leg, returned)
      ensures returned ==> Outside(leg.pool, i) && Emptied(leg.own)
    {
      ghost var now, after;
      returned, now := CancelAt(i, name, k, plan.schedule, before);
      after := before[k := now];
      PoolWith(before, k, now, i);
      if returned {
        after := LetAllRun(i, plan.turns, after);
      }
      leg := Leg(now, after);
    }

    method CancelAt(i: nat, name: string, k: nat, schedule: seq<Turn>, ghost before: seq<State>)
      returns (returned: bool, ghost now: State)
      requires before == StatesOf(asyncWorkers)
      requires Distinct(asyncWorkers) && k < |asyncWorkers| && asyncWorkers[k].Valid()
      requires i < |asyncWorkers[k].clients| && asyncWorkers[k].clients[i].Idle?
      modifies asyncWorkers[k]
      ensures StatesOf(asyncWorkers) == before[k := now]
      ensures CancelLeads(i, name, schedule, before[k], now, returned) && Reachable(EVERY_JOB, now)
      ensures returned ==> i < |now.clients| && now.clients[i].Idle? && Emptied(now)
    {
      OthersDiffer(asyncWorkers, k);
      returned := CancelOn(asyncWorkers[k], i, name, schedule);
      now := asyncWorkers[k].At();
      OneChanged(before, StatesOf(asyncWorkers), k);
    }

    /** The threads of all workers take their turns. */
    method LetAllRun(i: nat, turns: seq<seq<Turn>>, ghost before: seq<State>) returns (ghost after: seq<State>)
      requires before == StatesOf(asyncWorkers) && AllReachable(before) && Distinct(asyncWorkers)
      requires Outside(before, i) && |turns| == |asyncWorkers|
      modifies asyncWorkers
      ensures after == StatesOf(asyncWorkers) && AllMoved(i, turns, before, after)
      ensures AllReachable(after) && Outside(after, i)
    {
      after := before;
      for n := 0 to |asyncWorkers|
        invariant after == StatesOf(asyncWorkers) && MovedUpto(n, i, turns, before, after)
        invariant AllReachable(after) && Outside(after, i)
      {
        ghost var now := MeanwhileAt(n, i, turns[n], after);
        MovedNext(n, i, turns, before, after, now);
        after := after[n := now];
      }
    }

    method MeanwhileAt(n: nat, i: nat, turns: seq<Turn>, ghost before: seq<State>) returns (ghost now: State)
      requires before == StatesOf(asyncWorkers)
      requires Distinct(asyncWorkers) && n < |asyncWorkers| && asyncWorkers[n].Valid()
      requires i < |asyncWorkers[n].clients| && asyncWorkers[n].clients[i].Idle?
      modifies asyncWorkers[n]
      ensures now == Turns(ClientThread(i), before[n], turns)
      ensures StatesOf(asyncWorkers) == before[n := now]
      ensures Reachable(EVERY_JOB, now) && i < |now.clients| && now.clients[i].Idle?
    {
      OthersDiffer(asyncWorkers, n);
      asyncWorkers[n].Meanwhile(i, turns);
      now := asyncWorkers[n].At();
      OneChanged(before, StatesOf(asyncWorkers), n);
    }

    /** `getStatistics`: the number of workers and their total load, which is a machine word. */
    method GetStatistics() returns (workers: nat, totalLoad: nat)
      ensures workers == |asyncWorkers| && totalLoad == Sum(LoadsOf(asyncWorkers)) % WORD
    {
      workers, totalLoad := |asyncWorkers|, 0;
      var i := 0;
      while i < |asyncWorkers|
        invariant i <= |asyncWorkers| && totalLoad == Sum(LoadsOf(asyncWorkers)[..i]) % WORD
      {
        NextSum(LoadsOf(asyncWorkers), i);
        totalLoad := (totalLoad + asyncWorkers[i].outstandingJobs) % WORD;
        i := i + 1;
      }
      assert LoadsOf(asyncWorkers)[..|asyncWorkers|] == LoadsOf(asyncWorkers);
    }
  }

  /** Adding up modulo the word size adds up the true sum modulo the word size. */
  lemma NextSum(loads: seq<nat>, i: nat)
    requires i < |loads|
    ensures Sum(loads[..i + 1]) % WORD == (Sum(loads[..i]) % WORD + loads[i]) % WORD
  {
    SumSnoc(loads[..i], loads[i]);
    assert loads[..i + 1] == loads[..i] + [loads[i]];
    AddModulo(Sum(loads[..i]), loads[i]);
  }

  lemma AddModulo(a: nat, b: nat)
    ensures (a + b) % WORD == (a % WORD + b) % WORD
  {
    assert a == a / WORD * WORD + a % WORD;
  }

  lemma {:induction false} SumSnoc(loads: seq<nat>, load: nat)
    ensures Sum(loads + [load]) == Sum(loads) + load
  {
    if loads == [] {
    } else {
      SumSnoc(loads[1..], load);
      assert (loads + [load])[1..] == loads[1..] + [load];
    }
  }
}
