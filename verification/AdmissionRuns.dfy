/** What the runs of the admission protocol have done, and what every one of them keeps. */
module AdmissionRuns {
  import opened Admission
  import opened Traces
  import opened Wrappers

  // ------------------------------------------------- the state against its past

  /** The memory limits of the rows a run claimed, in order. */
  function ClaimedLimits(acts: seq<Action>): seq<nat> {
    if acts == [] then []
    else
      var last := acts[|acts| - 1];
      ClaimedLimits(acts[..|acts| - 1]) + (if last.Claim? then [last.memoryMb] else [])
  }

  /** `want` is what a job with that limit has to reserve: the limit itself, but at least one
      permit and at most all of them. */
  predicate Reserves(budget: nat, limit: nat, want: nat) {
    if limit == 0 then want == 1 else if limit <= budget then want == limit else want == budget
  }

  /** One task per claim, and each asks for what its row's limit says. */
  predicate TasksMatch(c: Config, acts: seq<Action>, s: State) {
    |ClaimedLimits(acts)| == |s.tasks| &&
    forall i :: 0 <= i < |s.tasks| ==> Reserves(c.memBudget, ClaimedLimits(acts)[i], s.tasks[i].want)
  }

  /** How often the row left the queue, to this worker or to another. */
  function Departures(acts: seq<Action>, r: Row): nat {
    if acts == [] then 0
    else
      var last := acts[|acts| - 1];
      Departures(acts[..|acts| - 1], r) + (if (last.Claim? || last.TakenElsewhere?) && last.row == r then 1 else 0)
  }

  function Arrivals(acts: seq<Action>, r: Row): nat {
    if acts == [] then 0
    else Arrivals(acts[..|acts| - 1], r) + (if acts[|acts| - 1] == Arrive(r) then 1 else 0)
  }

  function Tally(b: bool): nat { if b then 1 else 0 }

  /** A row leaves the queue as often as it came, or is still there. */
  ghost predicate RowsMatch(start: set<Row>, acts: seq<Action>, s: State) {
    forall r :: Tally(r in s.queued) + Departures(acts, r) == Tally(r in start) + Arrivals(acts, r)
  }

  /** The row arrived after the last claim that found nothing. */
  predicate ArrivedSinceEmpty(acts: seq<Action>, r: Row) {
    acts != [] &&
    (acts[|acts| - 1] == Arrive(r) || (!acts[|acts| - 1].ClaimNone? && ArrivedSinceEmpty(acts[..|acts| - 1], r)))
  }

  /** The last claim that was tried failed with a database error. */
  predicate LastClaimFailed(acts: seq<Action>) {
    acts != [] &&
    var last := acts[|acts| - 1];
    last.ClaimFails? || (!last.Claim? && !last.ClaimNone? && LastClaimFailed(acts[..|acts| - 1]))
  }

  /** The last step of the drain loop itself. */
  function LastLoopStep(acts: seq<Action>): Option<Action> {
    if acts == [] then None
    else
      var last := acts[|acts| - 1];
      if last.Acquire? || last.SlotsFull? || last.Claim? || last.ClaimNone? || last.ClaimFails? || last.Wake? ||
         last.WakeBySlot?
      then Some(last) else LastLoopStep(acts[..|acts| - 1])
  }

  /** The loop sleeps from the step that found no slot, no row or no database to its next
      wake-up, and holds a slot that is no task's from acquiring it to the end of the claim. */
  predicate LoopIsWhereItsStepsLed(acts: seq<Action>, s: State) {
    var last := LastLoopStep(acts);
    && (s.pc == Parked(Full) <==> last == Some(SlotsFull))
    && (s.pc == Parked(Empty) <==> last == Some(ClaimNone))
    && (s.pc == Parked(DbError) <==> last == Some(ClaimFails))
    && (s.pc == Holding <==> last == Some(Acquire))
  }

  ghost predicate LoopMatches(acts: seq<Action>, s: State) {
    (forall r :: r in s.late ==> ArrivedSinceEmpty(acts, r)) &&
    (s.pc == Parked(DbError) ==> LastClaimFailed(acts)) && LoopIsWhereItsStepsLed(acts, s)
  }

  ghost predicate Remembers(c: Config, start: set<Row>, acts: seq<Action>, s: State) {
    Inv(c, s) && TasksMatch(c, acts, s) && RowsMatch(start, acts, s) && LoopMatches(acts, s)
  }

  lemma StepKeepsTasks(c: Config, acts: seq<Action>, s: State, a: Action)
    requires c.Valid() && Inv(c, s) && Enabled(c, s, a) && TasksMatch(c, acts, s)
    ensures TasksMatch(c, acts + [a], Apply(c, s, a))
  {
    assert (acts + [a])[..|acts|] == acts;
    if a.ReleaseMemory? {
      KeepReturned(c, s, a.i);
      GrantKeeps(c, Returned(s, a.i));
    }
  }

  lemma StepKeepsRows(c: Config, start: set<Row>, acts: seq<Action>, s: State, a: Action)
    requires Inv(c, s) && Enabled(c, s, a) && RowsMatch(start, acts, s)
    ensures RowsMatch(start, acts + [a], Apply(c, s, a))
  {
    var s' := Apply(c, s, a);
    if a.ReleaseMemory? {
      KeepReturned(c, s, a.i);
      GrantKeeps(c, Returned(s, a.i));
    }
    forall r
      ensures Tally(r in s'.queued) + Departures(acts + [a], r) == Tally(r in start) + Arrivals(acts + [a], r)
    {
      assert (acts + [a])[..|acts|] == acts;
    }
  }

  lemma StepKeepsLoop(c: Config, acts: seq<Action>, s: State, a: Action)
    requires Inv(c, s) && Enabled(c, s, a) && LoopMatches(acts, s)
    ensures LoopMatches(acts + [a], Apply(c, s, a))
  {
    assert (acts + [a])[..|acts|] == acts;
    if a.ReleaseMemory? {
      KeepReturned(c, s, a.i);
      GrantKeeps(c, Returned(s, a.i));
    }
    if !IsLoopAction(a) && !a.Claim? {
      assert Apply(c, s, a).pc == s.pc && Apply(c, s, a).late == s.late;
    }
  }

  lemma RunRemembers(c: Config, s0: State, acts: seq<Action>, s: State)
    requires c.Valid() && Init(c, s0) && Runs(Next(c), s0, acts, s)
    ensures Remembers(c, s0.queued, acts, s)
  {
    var start := s0.queued;
    forall past, t, a | Remembers(c, start, past, t) && Next(c)(t, a).Some?
      ensures Remembers(c, start, past + [a], Next(c)(t, a).value)
    {
      StepKeepsInv(c, t, a);
      StepKeepsTasks(c, past, t, a);
      StepKeepsRows(c, start, past, t, a);
      StepKeepsLoop(c, past, t, a);
    }
    InvariantOfPast(Next(c), (past, t) => Remembers(c, start, past, t), [], s0, acts, s);
    assert [] + acts == acts;
  }

  /** No row is lost and none is claimed twice: in every run a row left the queue exactly as
      often as it was there or came, less once if it is still there. */
  lemma RowsAreConserved(c: Config, s0: State, acts: seq<Action>, s: State, r: Row)
    requires c.Valid() && Init(c, s0) && Runs(Next(c), s0, acts, s)
    ensures r in s.queued ==> Departures(acts, r) + 1 == Tally(r in s0.queued) + Arrivals(acts, r)
    ensures r !in s.queued ==> Departures(acts, r) == Tally(r in s0.queued) + Arrivals(acts, r)
  {
    RunRemembers(c, s0, acts, s);
  }

  // ---------------------------------------------------------------- safety

  /** The limits of the jobs that run, each capped at the budget, summed. */
  function RunningLimits(budget: nat, tasks: seq<Task>, limits: seq<nat>): nat
    requires |limits| == |tasks|
  {
    if tasks == [] then 0
    else
      var n := |tasks| - 1;
      RunningLimits(budget, tasks[..n], limits[..n]) +
      (if tasks[n].phase != Running then 0 else if limits[n] <= budget then limits[n] else budget)
  }

  /** How many jobs run although their limit is zero; each of them takes one permit. */
  function RunningUnlimited(tasks: seq<Task>, limits: seq<nat>): nat
    requires |limits| == |tasks|
  {
    if tasks == [] then 0
    else
      var n := |tasks| - 1;
      RunningUnlimited(tasks[..n], limits[..n]) + (if tasks[n].phase == Running && limits[n] == 0 then 1 else 0)
  }

  lemma {:induction false} ReservedIsLimits(budget: nat, tasks: seq<Task>, limits: seq<nat>)
    requires |limits| == |tasks|
    requires forall i :: 0 <= i < |tasks| ==> Reserves(budget, limits[i], tasks[i].want)
    ensures Sum(tasks, MemWeight) == RunningLimits(budget, tasks, limits) + RunningUnlimited(tasks, limits)
  {
    if tasks != [] {
      ReservedIsLimits(budget, tasks[..|tasks| - 1], limits[..|tasks| - 1]);
    }
  }

  /** In every run the i-th task is the i-th claimed job; no more jobs run than there are slots;
      and the free memory is the budget less the running jobs' own limits, each capped at the
      budget, and one for each that has none. So the jobs that run fit the budget. */
  lemma AdmissionIsSafe(c: Config, acts: seq<Action>, s: State)
    requires c.Valid() && RunTo(c, acts, s)
    ensures |ClaimedLimits(acts)| == |s.tasks|
    ensures Sum(s.tasks, RunWeight) <= c.maxParallel && s.slotsFree <= c.maxParallel
    ensures RunningLimits(c.memBudget, s.tasks, ClaimedLimits(acts)) <= c.memBudget
    ensures s.memFree + RunningLimits(c.memBudget, s.tasks, ClaimedLimits(acts)) +
            RunningUnlimited(s.tasks, ClaimedLimits(acts)) == c.memBudget
  {
    var s0 :| Init(c, s0) && Runs(Next(c), s0, acts, s);
    RunRemembers(c, s0, acts, s);
    SumBelow(s.tasks, RunWeight, SlotWeight);
    ReservedIsLimits(c.memBudget, s.tasks, ClaimedLimits(acts));
  }

  /** A job waits for memory only while its own limit is more than what is free, or nothing is;
      an oversized one only while somebody else holds memory. */
  lemma WaitersNeedMoreThanIsFree(c: Config, acts: seq<Action>, s: State)
    requires c.Valid() && RunTo(c, acts, s) && s.waiters != []
    ensures s.waiters[0] < |ClaimedLimits(acts)| && s.memFree < c.memBudget
    ensures s.memFree < ClaimedLimits(acts)[s.waiters[0]] || s.memFree == 0
  {
    var s0 :| Init(c, s0) && Runs(Next(c), s0, acts, s);
    RunRemembers(c, s0, acts, s);
    assert Reserves(c.memBudget, ClaimedLimits(acts)[s.waiters[0]], s.tasks[s.waiters[0]].want);
  }

  /** In every run the loop sleeps exactly from a step that found no slot, no row or no database
      to its next wake-up. */
  lemma LoopSleepsExactly(c: Config, acts: seq<Action>, s: State)
    requires c.Valid() && RunTo(c, acts, s)
    ensures LoopIsWhereItsStepsLed(acts, s)
  {
    var s0 :| Init(c, s0) && Runs(Next(c), s0, acts, s);
    RunRemembers(c, s0, acts, s);
  }

  lemma RunOn(c: Config, acts: seq<Action>, s: State, a: Action) returns (s': State)
    requires c.Valid() && RunTo(c, acts, s) && Enabled(c, s, a)
    ensures Inv(c, s) && s' == Apply(c, s, a) && RunTo(c, acts + [a], s')
  {
    ReachableInv(c, s);
    var s0 :| Init(c, s0) && Runs(Next(c), s0, acts, s);
    s' := Apply(c, s, a);
    Snoc(Next(c), s0, acts, s, a);
  }

  lemma ClaimedSoFar(acts: seq<Action>, a: Action)
    ensures ClaimedLimits(acts + [a]) == ClaimedLimits(acts) + if a.Claim? then [a.memoryMb] else []
  {
    assert (acts + [a])[..|acts|] == acts;
  }

  /** However the loop came to sleep, a notification or the poll gets it to claim any row that is
      queued while a slot is free. */
  lemma PollClaims(c: Config, acts: seq<Action>, s: State, r: Row, mb: nat) returns (acts': seq<Action>, s': State)
    requires c.Valid() && RunTo(c, acts, s) && s.pc.Parked? && s.slotsFree > 0 && r in s.queued
    ensures acts' == acts + [Wake] + [Acquire] + [Claim(r, mb)] && RunTo(c, acts', s')
    ensures ClaimedLimits(acts') == ClaimedLimits(acts) + [mb]
    ensures s'.queued == s.queued - {r} && s'.pc == Draining && s'.slotsFree == s.slotsFree - 1
    ensures |s'.tasks| == |s.tasks| + 1 && InPhase(s', |s.tasks|, Spawned)
  {
    acts' := acts + [Wake] + [Acquire] + [Claim(r, mb)];
    s' := RunOn(c, acts, s, Wake);
    s' := RunOn(c, acts + [Wake], s', Acquire);
    s' := RunOn(c, acts + [Wake] + [Acquire], s', Claim(r, mb));
    ClaimedSoFar(acts, Wake);
    ClaimedSoFar(acts + [Wake], Acquire);
    ClaimedSoFar(acts + [Wake] + [Acquire], Claim(r, mb));
  }

  /** The poll is needed: after a claim that failed, the loop sleeps beside a queued row and free
      slots, with no wake-up on its way and no arrival to announce the row. */
  lemma FailedClaimNeedsThePoll(c: Config, r: Row) returns (acts: seq<Action>, s: State)
    requires c.Valid()
    ensures RunTo(c, acts, s) && s.pc.Parked? && s.slotsFree == c.maxParallel && r in s.queued
    ensures !WakePending(s) && !ArrivedSinceEmpty(acts, r)
  {
    s := State(c.maxParallel, c.memBudget, [], [], false, Draining, {r}, {});
    assert Init(c, s) && Runs(Next(c), s, [], s);
    acts := [] + [Acquire] + [ClaimFails];
    s := RunOn(c, [], s, Acquire);
    s := RunOn(c, [] + [Acquire], s, ClaimFails);
    assert acts[..1] == [Acquire] && !ArrivedSinceEmpty([Acquire], r);
  }

  /** Any queued row may go to another worker at any time, and nothing else changes here. */
  lemma RowsGoElsewhere(c: Config, acts: seq<Action>, s: State, r: Row) returns (s': State)
    requires c.Valid() && RunTo(c, acts, s) && r in s.queued
    ensures RunTo(c, acts + [TakenElsewhere(r)], s') && s' == s.(queued := s.queued - {r})
  {
    s' := RunOn(c, acts, s, TakenElsewhere(r));
  }

  /** Whenever a task waits for memory, some task holds memory it will give back. */
  lemma MemoryNeverStalls(c: Config, s: State)
    requires c.Valid() && Reachable(c, s) && s.waiters != []
    ensures exists i :: InPhase(s, i, Running)
  {
    ReachableInv(c, s);
    SomeoneRuns(c, s);
  }

  lemma SomeoneRuns(c: Config, s: State)
    requires Inv(c, s) && s.waiters != []
    ensures exists i :: InPhase(s, i, Running)
  {
    if !exists i :: InPhase(s, i, Running) {
      forall k | 0 <= k < |s.tasks|
        ensures MemWeight(s.tasks[k]) == 0
      {
        assert !InPhase(s, k, Running);
      }
      SumIsZero(s.tasks, MemWeight);
    }
  }

  /** What the drain loop must never sleep through: with a slot free, a queued row is one that
      came after the last empty claim, or was left by a claim that failed, or a wake-up is on
      its way. */
  ghost predicate NoLostWakeUp(acts: seq<Action>, s: State) {
    s.pc.Parked? && s.slotsFree > 0 ==>
      forall r :: r in s.queued ==> WakePending(s) || ArrivedSinceEmpty(acts, r) || LastClaimFailed(acts)
  }

  /** With the shipped order, no run loses a wake-up. */
  lemma NoWakeUpIsLost(c: Config, acts: seq<Action>, s: State)
    requires c.Valid() && c.order == AfterRelease && RunTo(c, acts, s)
    ensures NoLostWakeUp(acts, s)
  {
    var s0 :| Init(c, s0) && Runs(Next(c), s0, acts, s);
    RunRemembers(c, s0, acts, s);
  }

  // --------------------------------------------------------------- progress

  /** The steps this worker takes by itself: no new rows, no notification, no poll, no
      database fault. */
  predicate IsOwnStep(a: Action) {
    !a.Wake? && !a.ClaimFails? && !a.Arrive? && !a.TakenElsewhere?
  }

  function Remaining(t: Task): nat {
    match t.phase
    case Spawned => 9
    case Waiting => 8
    case Running => 7
    case MemReleased => 6
    case SlotReleased => 5
    case Notified => 1
    case Done => 0
  }

  function PcCost(pc: Pc): nat {
    match pc
    case Draining => 3
    case Holding => 2
    case Parked(_) => 0
  }

  /** Work left before the worker comes to rest. */
  function Measure(s: State): nat {
    20 * |s.queued| + Sum(s.tasks, Remaining) + PcCost(s.pc) + (if s.permit then 4 else 0)
  }

  lemma GrantOneShrinks(s: State)
    requires WaitersInRange(s) && s.waiters != [] && InPhase(s, s.waiters[0], Waiting)
    ensures Sum(SetPhase(s, s.waiters[0], Running).tasks, Remaining) < Sum(s.tasks, Remaining)
  {
    var i := s.waiters[0];
    SumUpdate(s.tasks, Remaining, i, s.tasks[i].(phase := Running));
  }

  lemma {:induction false} GrantShrinks(c: Config, s: State)
    requires WellFormed(c, s)
    ensures Sum(Grant(s).tasks, Remaining) <= Sum(s.tasks, Remaining)
    ensures Grant(s).queued == s.queued && Grant(s).pc == s.pc && Grant(s).permit == s.permit
    decreases |s.waiters|
  {
    if s.waiters != [] && s.tasks[s.waiters[0]].want <= s.memFree {
      GrantOne(c, s);
      GrantOneShrinks(s);
      GrantShrinks(c, HandOver(s));
    }
  }

  lemma PhaseShrinks(s: State, i: nat, p: Phase)
    requires i < |s.tasks|
    ensures Sum(SetPhase(s, i, p).tasks, Remaining) + Remaining(s.tasks[i]) ==
            Sum(s.tasks, Remaining) + Remaining(s.tasks[i].(phase := p))
  {
    SumUpdate(s.tasks, Remaining, i, s.tasks[i].(phase := p));
  }

  lemma AskShrinks(c: Config, s: State, i: nat)
    requires Inv(c, s) && Enabled(c, s, AskMemory(i))
    ensures Measure(Apply(c, s, AskMemory(i))) < Measure(s)
  {
    PhaseShrinks(s, i, Running);
    PhaseShrinks(s, i, Waiting);
  }

  lemma TaskStepShrinks(c: Config, s: State, a: Action)
    requires Inv(c, s) && Enabled(c, s, a)
    requires a.AskMemory? || a.DropSlot? || a.Notify?
    ensures Measure(Apply(c, s, a)) < Measure(s)
  {
    match a
    case AskMemory(i) => AskShrinks(c, s, i);
    case DropSlot(i) => DropShrinks(c, s, i);
    case Notify(i) => PhaseShrinks(s, i, if c.order == AfterRelease then Done else Notified);
  }

  lemma DropShrinks(c: Config, s: State, i: nat)
    requires Inv(c, s) && Enabled(c, s, DropSlot(i))
    ensures Measure(Apply(c, s, DropSlot(i))) < Measure(s)
  {
    PhaseShrinks(s, i, if c.order == AfterRelease then SlotReleased else Done);
  }

  lemma ReleaseShrinks(c: Config, s: State, i: nat)
    requires Inv(c, s) && Enabled(c, s, ReleaseMemory(i))
    ensures Measure(Apply(c, s, ReleaseMemory(i))) < Measure(s)
  {
    PhaseShrinks(s, i, MemReleased);
    KeepReturned(c, s, i);
    GrantShrinks(c, Returned(s, i));
  }

  lemma ClaimShrinks(c: Config, s: State, r: Row, mb: nat)
    requires Inv(c, s) && Enabled(c, s, Claim(r, mb))
    ensures Measure(Apply(c, s, Claim(r, mb))) < Measure(s)
  {
    var t := Task(Spawned, Clamp(mb, 1, c.memBudget));
    assert Apply(c, s, Claim(r, mb)) == Spawn(s, r, t);
  }

  /** Every step of its own brings the worker closer to rest, so it cannot spin. */
  lemma OwnStepsTerminate(c: Config, s: State, a: Action)
    requires Inv(c, s) && Enabled(c, s, a) && IsOwnStep(a)
    ensures Measure(Apply(c, s, a)) < Measure(s)
  {
    match a
    case Claim(r, mb) => ClaimShrinks(c, s, r, mb);
    case ReleaseMemory(i) => ReleaseShrinks(c, s, i);
    case AskMemory(_) => TaskStepShrinks(c, s, a);
    case DropSlot(_) => TaskStepShrinks(c, s, a);
    case Notify(_) => TaskStepShrinks(c, s, a);
    case _ =>
  }

  ghost predicate AtRest(c: Config, s: State) {
    forall a :: IsOwnStep(a) ==> !Enabled(c, s, a)
  }

  /** A worker at rest has finished every task, and every row still queued either arrived
      after its last empty claim or was left by a failed claim. So a backlog is never
      stranded: own steps terminate, and they end only here. */
  lemma RestMeansDrained(c: Config, acts: seq<Action>, s: State)
    requires c.Valid() && c.order == AfterRelease && RunTo(c, acts, s) && AtRest(c, s)
    ensures forall i :: 0 <= i < |s.tasks| ==> s.tasks[i].phase == Done
    ensures s.slotsFree == c.maxParallel && s.memFree == c.memBudget
    ensures LastClaimFailed(acts) || forall r :: r in s.queued ==> ArrivedSinceEmpty(acts, r)
  {
    var s0 :| Init(c, s0) && Runs(Next(c), s0, acts, s);
    RunRemembers(c, s0, acts, s);
    LoopAtRest(c, s);
    TasksAtRest(c, s);
    SumIsZero(s.tasks, SlotWeight);
    SumIsZero(s.tasks, MemWeight);
    assert !WakePending(s);
  }

  lemma LoopAtRest(c: Config, s: State)
    requires AtRest(c, s)
    ensures s.pc.Parked? && !s.permit
  {
    assert !Enabled(c, s, Acquire) && !Enabled(c, s, SlotsFull);
    assert !Enabled(c, s, ClaimNone) && !Enabled(c, s, WakeBySlot);
    if s.pc == Holding {
      var r :| r in s.queued;
      assert Enabled(c, s, Claim(r, 0));
    }
  }

  lemma TasksAtRest(c: Config, s: State)
    requires Inv(c, s) && c.order == AfterRelease && AtRest(c, s)
    ensures forall i :: 0 <= i < |s.tasks| ==> s.tasks[i].phase == Done
  {
    forall i | 0 <= i < |s.tasks|
      ensures s.tasks[i].phase == Done
    {
      assert !Enabled(c, s, AskMemory(i)) && !Enabled(c, s, ReleaseMemory(i));
      assert !Enabled(c, s, DropSlot(i)) && !Enabled(c, s, Notify(i));
      if s.tasks[i].phase == Waiting {
        SomeoneRuns(c, s);
        var j :| InPhase(s, j, Running);
        assert Enabled(c, s, ReleaseMemory(j));
      }
    }
  }

  // ------------------------------------------------------ the order matters

  /** One slot, two queued rows. */
  function OneSlot(order: NotifyOrder): Config { Config(1, 1, order) }

  const TWO_ROWS := State(1, 1, [], [], false, Draining, {0, 1}, {})

  /** The second row is queued, a slot is free, nothing will wake the loop. */
  const STRANDED := State(1, 1, [], [Task(Done, 1)], false, Parked(Full), {1}, {})

  /** A run without arrivals and without failed claims. */
  ghost predicate QuietRunTo(c: Config, acts: seq<Action>, s: State) {
    RunTo(c, acts, s) && forall k :: 0 <= k < |acts| ==> !acts[k].Arrive? && !acts[k].ClaimFails?
  }

  ghost predicate QuietlyReachable(c: Config, s: State) { exists acts :: QuietRunTo(c, acts, s) }

  lemma ReachNext(c: Config, s: State, a: Action, s': State)
    requires QuietlyReachable(c, s) && WaitersInRange(s) && Enabled(c, s, a) && Apply(c, s, a) == s'
    requires !a.Arrive? && !a.ClaimFails?
    ensures QuietlyReachable(c, s')
  {
    var acts :| QuietRunTo(c, acts, s);
    var s0 :| Init(c, s0) && Runs(Next(c), s0, acts, s);
    Snoc(Next(c), s0, acts, s, a);
    assert QuietRunTo(c, acts + [a], s');
  }

  lemma {:induction false} QuietMeansNoExcuse(acts: seq<Action>, r: Row)
    requires forall k :: 0 <= k < |acts| ==> !acts[k].Arrive? && !acts[k].ClaimFails?
    ensures !ArrivedSinceEmpty(acts, r) && !LastClaimFailed(acts)
  {
    if acts != [] {
      QuietMeansNoExcuse(acts[..|acts| - 1], r);
    }
  }

  ghost predicate LosesWakeUp(c: Config) { exists acts, s :: RunTo(c, acts, s) && !NoLostWakeUp(acts, s) }

  lemma StrandedIsLost(c: Config)
    requires QuietlyReachable(c, STRANDED)
    ensures LosesWakeUp(c)
  {
    var acts :| QuietRunTo(c, acts, STRANDED);
    QuietMeansNoExcuse(acts, 1);
    assert 1 in STRANDED.queued && !WakePending(STRANDED);
    assert !NoLostWakeUp(acts, STRANDED);
  }

  /** The one slot is taken, the loop is about to find that out. */
  function Busy(p: Phase, memFree: nat): State { State(0, memFree, [], [Task(p, 1)], false, Draining, {1}, {}) }

  lemma FirstJobClaimed(order: NotifyOrder)
    ensures QuietlyReachable(OneSlot(order), Busy(Spawned, 1))
  {
    var c := OneSlot(order);
    assert Runs(Next(c), TWO_ROWS, [], TWO_ROWS);
    assert QuietRunTo(c, [], TWO_ROWS);
    var held := TWO_ROWS.(slotsFree := 0, pc := Holding);
    ReachNext(c, TWO_ROWS, Acquire, held);
    assert {0, 1} - {0} == {1};
    ReachNext(c, held, Claim(0, 1), Busy(Spawned, 1));
  }

  lemma FirstJobFinishing(order: NotifyOrder)
    ensures QuietlyReachable(OneSlot(order), Busy(MemReleased, 1))
  {
    var c := OneSlot(order);
    FirstJobClaimed(order);
    ReachNext(c, Busy(Spawned, 1), AskMemory(0), Busy(Running, 0));
    assert Returned(Busy(Running, 0), 0) == Busy(MemReleased, 1);
    ReachNext(c, Busy(Running, 0), ReleaseMemory(0), Busy(MemReleased, 1));
  }

  /** Without a wake-up at all, the loop parks on a full house and stays there. */
  lemma SilentReleaseStrands()
    ensures LosesWakeUp(OneSlot(Never))
  {
    var c := OneSlot(Never);
    FirstJobFinishing(Never);
    var parked := Busy(MemReleased, 1).(pc := Parked(Full));
    ReachNext(c, Busy(MemReleased, 1), SlotsFull, parked);
    ReachNext(c, parked, DropSlot(0), STRANDED);
    StrandedIsLost(c);
  }

  lemma WakeUpSpent()
    ensures QuietlyReachable(OneSlot(BeforeRelease), Busy(Notified, 1))
  {
    var c := OneSlot(BeforeRelease);
    FirstJobFinishing(BeforeRelease);
    var notified := Busy(Notified, 1).(permit := true);
    ReachNext(c, Busy(MemReleased, 1), Notify(0), notified);
    ReachNext(c, notified, SlotsFull, notified.(pc := Parked(Full)));
    ReachNext(c, notified.(pc := Parked(Full)), WakeBySlot, Busy(Notified, 1));
  }

  /** A wake-up sent while the slot is still held is spent on a full house. */
  lemma EarlyNotifyStrands()
    ensures LosesWakeUp(OneSlot(BeforeRelease))
  {
    var c := OneSlot(BeforeRelease);
    WakeUpSpent();
    ReachNext(c, Busy(Notified, 1), SlotsFull, Busy(Notified, 1).(pc := Parked(Full)));
    ReachNext(c, Busy(Notified, 1).(pc := Parked(Full)), DropSlot(0), STRANDED);
    StrandedIsLost(c);
  }

  /** Signalling strictly after the slot is returned is the only order that loses nothing. */
  lemma OnlyTheShippedOrderWorks(order: NotifyOrder)
    ensures (forall c: Config :: c.Valid() && c.order == order ==> !LosesWakeUp(c)) <==> order == AfterRelease
  {
    match order
    case AfterRelease =>
      forall c: Config, acts, s | c.Valid() && c.order == order && RunTo(c, acts, s)
        ensures NoLostWakeUp(acts, s)
      {
        NoWakeUpIsLost(c, acts, s);
      }
    case BeforeRelease =>
      EarlyNotifyStrands();
      assert OneSlot(BeforeRelease).Valid();
    case Never =>
      SilentReleaseStrands();
      assert OneSlot(Never).Valid();
  }
}
