/** The worker's admission protocol: a slot semaphore, a memory semaphore with FIFO grants,
    a one-permit wake-up, the drain loop and the job tasks it spawns. Every step of every
    interleaving is an action; the order of the wake-up relative to the slot is a parameter
    so that the shipped order can be told apart from the two that stall. */
module Admission {
  import opened Wrappers
  import opened Traces

  /** When a finishing task signals the drain loop. */
  datatype NotifyOrder = AfterRelease | BeforeRelease | Never

  datatype Config = Config(maxParallel: nat, memBudget: nat, order: NotifyOrder) {
    predicate Valid() { maxParallel >= 1 && memBudget >= 1 }
  }

  function Clamp(x: nat, lo: nat, hi: nat): nat { if x < lo then lo else if x > hi then hi else x }

  /** `Runner::new`: both semaphores have the permits they were configured with, but at least
      one, and the memory semaphore no more than a semaphore can hold. */
  function NewRunner(maxParallel: nat, memoryBudgetMb: nat, maxPermits: nat, order: NotifyOrder): (c: Config)
    requires maxPermits >= 1
    ensures c.Valid() && c.memBudget <= maxPermits && c.order == order
    ensures maxParallel >= 1 ==> c.maxParallel == maxParallel
    ensures maxParallel == 0 ==> c.maxParallel == 1
    ensures 1 <= memoryBudgetMb <= maxPermits ==> c.memBudget == memoryBudgetMb
    ensures memoryBudgetMb == 0 ==> c.memBudget == 1
    ensures memoryBudgetMb > maxPermits ==> c.memBudget == maxPermits
  {
    Config(if maxParallel < 1 then 1 else maxParallel, Clamp(memoryBudgetMb, 1, maxPermits), order)
  }

  type Row = nat

  datatype Phase =
    | Spawned       // holds a slot, has not asked for memory yet
    | Waiting       // queued on the memory semaphore
    | Running       // holds its memory reservation
    | MemReleased   // reservation dropped, slot still held
    | SlotReleased  // both dropped, wake-up still to come
    | Notified      // woke the loop while still holding the slot (never in the shipped order)
    | Done

  datatype Task = Task(phase: Phase, want: nat)

  datatype Exit = Full | Empty | DbError
  datatype Pc = Draining | Holding | Parked(exit: Exit)

  /** `late` are the queued rows that became claimable after the last empty claim. */
  datatype State = State(
    slotsFree: nat, memFree: nat, waiters: seq<nat>, tasks: seq<Task>,
    permit: bool, pc: Pc, queued: set<Row>, late: set<Row>)

  datatype Action =
    | Acquire | SlotsFull                           // try_acquire_owned
    | Claim(row: Row, memoryMb: nat) | ClaimNone | ClaimFails
    | Wake                                          // a job notification or the 2 s poll
    | WakeBySlot                                    // slot_free.notified()
    | AskMemory(i: nat) | ReleaseMemory(i: nat) | DropSlot(i: nat) | Notify(i: nat)
    | Arrive(row: Row)                              // insert, sweep, or a foreign claim rolled back
    | TakenElsewhere(row: Row)                      // another worker's claim

  predicate InPhase(s: State, i: nat, p: Phase) { i < |s.tasks| && s.tasks[i].phase == p }

  predicate Enabled(c: Config, s: State, a: Action) {
    match a
    case Acquire => s.pc == Draining && s.slotsFree > 0
    case SlotsFull => s.pc == Draining && s.slotsFree == 0
    case Claim(r, _) => s.pc == Holding && r in s.queued
    case ClaimNone => s.pc == Holding && s.queued == {}
    case ClaimFails => s.pc == Holding
    case Wake => s.pc.Parked?
    case WakeBySlot => s.pc.Parked? && s.permit
    case AskMemory(i) => InPhase(s, i, Spawned)
    case ReleaseMemory(i) => InPhase(s, i, Running)
    case DropSlot(i) => InPhase(s, i, if c.order == BeforeRelease then Notified else MemReleased)
    case Notify(i) =>
      || (c.order == AfterRelease && InPhase(s, i, SlotReleased))
      || (c.order == BeforeRelease && InPhase(s, i, MemReleased))
    case Arrive(r) => r !in s.queued
    case TakenElsewhere(r) => r in s.queued
  }

  function SetPhase(s: State, i: nat, p: Phase): State
    requires i < |s.tasks|
  {
    s.(tasks := s.tasks[i := s.tasks[i].(phase := p)])
  }

  /** Released memory goes to the waiters in order, as far as it reaches. */
  function Grant(s: State): State
    requires forall k :: 0 <= k < |s.waiters| ==> s.waiters[k] < |s.tasks|
    decreases |s.waiters|
  {
    if s.waiters == [] || s.tasks[s.waiters[0]].want > s.memFree then s
    else Grant(HandOver(s))
  }

  /** The first waiter gets its memory. */
  function HandOver(s: State): State
    requires s.waiters != [] && s.waiters[0] < |s.tasks| && s.tasks[s.waiters[0]].want <= s.memFree
  {
    var i := s.waiters[0];
    SetPhase(s, i, Running).(waiters := s.waiters[1..], memFree := s.memFree - s.tasks[i].want)
  }

  predicate WaitersInRange(s: State) {
    forall k :: 0 <= k < |s.waiters| ==> s.waiters[k] < |s.tasks|
  }

  function Apply(c: Config, s: State, a: Action): State
    requires Enabled(c, s, a) && WaitersInRange(s)
  {
    match a
    case Acquire => s.(slotsFree := s.slotsFree - 1, pc := Holding)
    case SlotsFull => s.(pc := Parked(Full))
    case Claim(r, mb) =>
      s.(pc := Draining, queued := s.queued - {r}, tasks := s.tasks + [Task(Spawned, Clamp(mb, 1, c.memBudget))])
    case ClaimNone => s.(pc := Parked(Empty), slotsFree := s.slotsFree + 1, late := {})
    case ClaimFails => s.(pc := Parked(DbError), slotsFree := s.slotsFree + 1)
    case Wake => s.(pc := Draining)
    case WakeBySlot => s.(pc := Draining, permit := false)
    case AskMemory(i) =>
      if s.waiters == [] && s.tasks[i].want <= s.memFree then
        SetPhase(s, i, Running).(memFree := s.memFree - s.tasks[i].want)
      else
        SetPhase(s, i, Waiting).(waiters := s.waiters + [i])
    case ReleaseMemory(i) =>
      Grant(Returned(s, i))
    case DropSlot(i) =>
      SetPhase(s, i, if c.order == AfterRelease then SlotReleased else Done).(slotsFree := s.slotsFree + 1)
    case Notify(i) =>
      SetPhase(s, i, if c.order == AfterRelease then Done else Notified).(permit := true)
    case Arrive(r) => s.(queued := s.queued + {r}, late := s.late + {r})
    case TakenElsewhere(r) => s.(queued := s.queued - {r})
  }

  predicate Init(c: Config, s: State) {
    s.slotsFree == c.maxParallel && s.memFree == c.memBudget && s.waiters == [] && s.tasks == [] &&
    !s.permit && s.pc == Draining && s.late == {}
  }

  function Next(c: Config): (State, Action) -> Option<State> {
    (s: State, a: Action) => if WaitersInRange(s) && Enabled(c, s, a) then Some(Apply(c, s, a)) else None
  }

  ghost predicate RunTo(c: Config, acts: seq<Action>, s: State) {
    exists s0 :: Init(c, s0) && Runs(Next(c), s0, acts, s)
  }

  ghost predicate Reachable(c: Config, s: State) { exists acts :: RunTo(c, acts, s) }

  // ------------------------------------------------------------- accounting

  function SlotWeight(t: Task): nat { if t.phase == SlotReleased || t.phase == Done then 0 else 1 }
  function MemWeight(t: Task): nat { if t.phase == Running then t.want else 0 }
  function RunWeight(t: Task): nat { if t.phase == Running then 1 else 0 }

  function Sum(ts: seq<Task>, w: Task -> nat): nat {
    if ts == [] then 0 else Sum(ts[..|ts| - 1], w) + w(ts[|ts| - 1])
  }

  lemma {:induction false} SumUpdate(ts: seq<Task>, w: Task -> nat, i: nat, t: Task)
    requires i < |ts|
    ensures Sum(ts[i := t], w) + w(ts[i]) == Sum(ts, w) + w(t)
    decreases |ts|
  {
    var front, n := ts[..|ts| - 1], |ts| - 1;
    if i == n {
      assert ts[i := t][..n] == front;
    } else {
      SumUpdate(front, w, i, t);
      assert ts[i := t][..n] == front[i := t];
    }
  }

  lemma {:induction false} SumIsZero(ts: seq<Task>, w: Task -> nat)
    requires forall k :: 0 <= k < |ts| ==> w(ts[k]) == 0
    ensures Sum(ts, w) == 0
  {
    if ts != [] {
      SumIsZero(ts[..|ts| - 1], w);
    }
  }

  lemma {:induction false} SumBelow(ts: seq<Task>, v: Task -> nat, w: Task -> nat)
    requires forall t :: v(t) <= w(t)
    ensures Sum(ts, v) <= Sum(ts, w)
  {
    if ts != [] {
      SumBelow(ts[..|ts| - 1], v, w);
    }
  }

  // -------------------------------------------------------------- invariant

  /** The waiters are exactly the waiting tasks, each once, and every request was clamped. */
  ghost predicate QueueOk(c: Config, tasks: seq<Task>, waiters: seq<nat>) {
    && (forall k :: 0 <= k < |waiters| ==> waiters[k] < |tasks|)
    && (forall k, l :: 0 <= k < l < |waiters| ==> waiters[k] != waiters[l])
    && (forall i :: 0 <= i < |tasks| ==> (tasks[i].phase == Waiting <==> i in waiters))
    && (forall i :: 0 <= i < |tasks| ==> 1 <= tasks[i].want <= c.memBudget)
    && (c.order == AfterRelease ==> forall i :: 0 <= i < |tasks| ==> tasks[i].phase != Notified)
  }

  ghost predicate WellFormed(c: Config, s: State) { QueueOk(c, s.tasks, s.waiters) }

  ghost predicate SlotsConserved(c: Config, s: State) {
    s.slotsFree + Sum(s.tasks, SlotWeight) + (if s.pc == Holding then 1 else 0) == c.maxParallel
  }

  ghost predicate MemoryConserved(c: Config, s: State) {
    s.memFree + Sum(s.tasks, MemWeight) == c.memBudget
  }

  /** A waiter waits because the free memory does not reach it. */
  ghost predicate HeadMustWait(s: State)
    requires WaitersInRange(s)
  {
    s.waiters != [] ==> s.memFree < s.tasks[s.waiters[0]].want
  }

  ghost predicate WakePending(s: State) {
    s.permit || exists i :: InPhase(s, i, SlotReleased)
  }

  /** Why the loop may be parked. */
  ghost predicate ParkedForAReason(s: State) {
    match s.pc
    case Parked(Full) => s.slotsFree == 0 || WakePending(s)
    case Parked(Empty) => s.queued <= s.late
    case _ => true
  }

  ghost predicate Inv(c: Config, s: State) {
    WellFormed(c, s) && SlotsConserved(c, s) && MemoryConserved(c, s) && HeadMustWait(s) &&
    (c.order == AfterRelease ==> ParkedForAReason(s))
  }

  /** Granting only moves waiters to running. */
  ghost predicate OnlyGrants(s: State, s': State) {
    && s' == s.(tasks := s'.tasks, waiters := s'.waiters, memFree := s'.memFree)
    && |s'.tasks| == |s.tasks|
    && (forall i :: 0 <= i < |s.tasks| ==>
          s'.tasks[i] == s.tasks[i] || (s.tasks[i].phase == Waiting && s'.tasks[i] == s.tasks[i].(phase := Running)))
    && Sum(s'.tasks, SlotWeight) == Sum(s.tasks, SlotWeight)
    && s'.memFree + Sum(s'.tasks, MemWeight) == s.memFree + Sum(s.tasks, MemWeight)
  }

  lemma GrantOne(c: Config, s: State)
    requires WellFormed(c, s) && s.waiters != [] && s.tasks[s.waiters[0]].want <= s.memFree
    ensures WellFormed(c, HandOver(s)) && OnlyGrants(s, HandOver(s))
  {
    var i := s.waiters[0];
    var t := s.tasks[i].(phase := Running);
    SumUpdate(s.tasks, SlotWeight, i, t);
    SumUpdate(s.tasks, MemWeight, i, t);
  }

  lemma {:induction false} GrantKeeps(c: Config, s: State)
    requires WellFormed(c, s)
    ensures WellFormed(c, Grant(s)) && HeadMustWait(Grant(s)) && OnlyGrants(s, Grant(s))
    decreases |s.waiters|
  {
    if s.waiters != [] && s.tasks[s.waiters[0]].want <= s.memFree {
      GrantOne(c, s);
      GrantKeeps(c, HandOver(s));
    }
  }

  // ------------------------------------------------- every action keeps it

  lemma KeepSpawn(c: Config, tasks: seq<Task>, waiters: seq<nat>, t: Task)
    requires QueueOk(c, tasks, waiters) && t.phase == Spawned && 1 <= t.want <= c.memBudget
    ensures QueueOk(c, tasks + [t], waiters)
  {
    assert |tasks| !in waiters;
  }

  /** What a claim makes of the state; `t` is the task it spawns. */
  function Spawn(s: State, r: Row, t: Task): State {
    s.(pc := Draining, queued := s.queued - {r}, tasks := s.tasks + [t])
  }

  lemma SpawnKeepsSlots(c: Config, s: State, r: Row, t: Task)
    requires SlotsConserved(c, s) && s.pc == Holding && t.phase == Spawned
    ensures SlotsConserved(c, Spawn(s, r, t))
  {
  }

  lemma SpawnKeepsMemory(c: Config, s: State, r: Row, t: Task)
    requires MemoryConserved(c, s) && t.phase == Spawned
    ensures MemoryConserved(c, Spawn(s, r, t))
  {
  }

  lemma KeepClaim(c: Config, s: State, r: Row, mb: nat)
    requires c.Valid() && Inv(c, s) && Enabled(c, s, Claim(r, mb))
    ensures Inv(c, Apply(c, s, Claim(r, mb)))
  {
    var t := Task(Spawned, Clamp(mb, 1, c.memBudget));
    assert Apply(c, s, Claim(r, mb)) == Spawn(s, r, t);
    KeepSpawn(c, s.tasks, s.waiters, t);
    SpawnKeepsSlots(c, s, r, t);
    SpawnKeepsMemory(c, s, r, t);
  }

  lemma KeepPhaseChange(c: Config, s: State, i: nat, p: Phase)
    requires WellFormed(c, s) && i < |s.tasks| && s.tasks[i].phase != Waiting && p != Waiting
    requires c.order == AfterRelease ==> p != Notified
    ensures WellFormed(c, SetPhase(s, i, p))
    ensures Sum(SetPhase(s, i, p).tasks, SlotWeight) + SlotWeight(s.tasks[i]) ==
            Sum(s.tasks, SlotWeight) + SlotWeight(s.tasks[i].(phase := p))
    ensures Sum(SetPhase(s, i, p).tasks, MemWeight) + MemWeight(s.tasks[i]) ==
            Sum(s.tasks, MemWeight) + MemWeight(s.tasks[i].(phase := p))
  {
    SumUpdate(s.tasks, SlotWeight, i, s.tasks[i].(phase := p));
    SumUpdate(s.tasks, MemWeight, i, s.tasks[i].(phase := p));
  }

  lemma KeepReason(s: State, s': State)
    requires s'.pc == s.pc && s'.permit == s.permit && s'.queued == s.queued && s'.late == s.late
    requires s'.slotsFree == s.slotsFree && |s'.tasks| == |s.tasks|
    requires forall j :: InPhase(s, j, SlotReleased) ==> InPhase(s', j, SlotReleased)
    ensures ParkedForAReason(s) ==> ParkedForAReason(s')
  {
  }

  lemma KeepEnqueue(c: Config, s: State, i: nat)
    requires WellFormed(c, s) && InPhase(s, i, Spawned)
    ensures
      var s' := SetPhase(s, i, Waiting).(waiters := s.waiters + [i]);
      && WellFormed(c, s')
      && Sum(s'.tasks, SlotWeight) == Sum(s.tasks, SlotWeight)
      && Sum(s'.tasks, MemWeight) == Sum(s.tasks, MemWeight)
  {
    var t := s.tasks[i].(phase := Waiting);
    SumUpdate(s.tasks, SlotWeight, i, t);
    SumUpdate(s.tasks, MemWeight, i, t);
    assert i !in s.waiters;
    assert forall j :: j in s.waiters + [i] <==> j == i || j in s.waiters;
  }

  lemma KeepImmediateGrant(c: Config, s: State, i: nat)
    requires Inv(c, s) && InPhase(s, i, Spawned) && s.waiters == [] && s.tasks[i].want <= s.memFree
    ensures Inv(c, SetPhase(s, i, Running).(memFree := s.memFree - s.tasks[i].want))
  {
    var s' := SetPhase(s, i, Running).(memFree := s.memFree - s.tasks[i].want);
    KeepPhaseChange(c, s, i, Running);
    KeepReason(s, s');
  }

  lemma KeepQueueing(c: Config, s: State, i: nat)
    requires Inv(c, s) && InPhase(s, i, Spawned) && (s.waiters != [] || s.tasks[i].want > s.memFree)
    ensures Inv(c, SetPhase(s, i, Waiting).(waiters := s.waiters + [i]))
  {
    var s' := SetPhase(s, i, Waiting).(waiters := s.waiters + [i]);
    KeepEnqueue(c, s, i);
    assert s'.waiters[0] == if s.waiters == [] then i else s.waiters[0];
    assert s'.tasks[s'.waiters[0]].want == s.tasks[s'.waiters[0]].want;
    KeepReason(s, s');
  }

  lemma KeepAskMemory(c: Config, s: State, i: nat)
    requires Inv(c, s) && Enabled(c, s, AskMemory(i))
    ensures Inv(c, Apply(c, s, AskMemory(i)))
  {
    if s.waiters == [] && s.tasks[i].want <= s.memFree {
      KeepImmediateGrant(c, s, i);
    } else {
      KeepQueueing(c, s, i);
    }
  }

  /** The state between dropping the reservation and handing it on. */
  function Returned(s: State, i: nat): State
    requires i < |s.tasks|
  {
    SetPhase(s, i, MemReleased).(memFree := s.memFree + s.tasks[i].want)
  }

  lemma KeepReturned(c: Config, s: State, i: nat)
    requires Inv(c, s) && InPhase(s, i, Running)
    ensures WellFormed(c, Returned(s, i)) && SlotsConserved(c, Returned(s, i)) && MemoryConserved(c, Returned(s, i))
  {
    KeepPhaseChange(c, s, i, MemReleased);
    assert Returned(s, i).tasks == SetPhase(s, i, MemReleased).tasks;
  }

  lemma KeepReleaseMemory(c: Config, s: State, i: nat)
    requires Inv(c, s) && Enabled(c, s, ReleaseMemory(i))
    ensures Inv(c, Apply(c, s, ReleaseMemory(i)))
  {
    KeepReturned(c, s, i);
    KeepReason(s, Returned(s, i));
    KeepGrant(c, Returned(s, i));
  }

  lemma KeepGrant(c: Config, s: State)
    requires WellFormed(c, s) && SlotsConserved(c, s) && MemoryConserved(c, s)
    requires c.order == AfterRelease ==> ParkedForAReason(s)
    ensures Inv(c, Grant(s))
  {
    GrantKeeps(c, s);
    KeepReason(s, Grant(s));
  }

  lemma KeepDropSlot(c: Config, s: State, i: nat)
    requires Inv(c, s) && Enabled(c, s, DropSlot(i))
    ensures Inv(c, Apply(c, s, DropSlot(i)))
  {
    KeepPhaseChange(c, s, i, if c.order == AfterRelease then SlotReleased else Done);
    assert c.order == AfterRelease ==> InPhase(Apply(c, s, DropSlot(i)), i, SlotReleased);
  }

  lemma KeepNotify(c: Config, s: State, i: nat)
    requires Inv(c, s) && Enabled(c, s, Notify(i))
    ensures Inv(c, Apply(c, s, Notify(i)))
  {
    KeepPhaseChange(c, s, i, if c.order == AfterRelease then Done else Notified);
  }

  predicate IsLoopAction(a: Action) {
    a.Acquire? || a.SlotsFull? || a.ClaimNone? || a.ClaimFails? || a.Wake? || a.WakeBySlot? || a.Arrive? ||
    a.TakenElsewhere?
  }

  lemma KeepLoop(c: Config, s: State, a: Action)
    requires Inv(c, s) && Enabled(c, s, a) && IsLoopAction(a)
    ensures Inv(c, Apply(c, s, a))
  {
    var s' := Apply(c, s, a);
    assert s'.tasks == s.tasks && s'.waiters == s.waiters && s'.memFree == s.memFree;
    assert forall i :: InPhase(s, i, SlotReleased) ==> InPhase(s', i, SlotReleased);
  }

  lemma StepKeepsInv(c: Config, s: State, a: Action)
    requires c.Valid() && Inv(c, s) && Enabled(c, s, a)
    ensures Inv(c, Apply(c, s, a))
  {
    match a
    case Claim(r, mb) => KeepClaim(c, s, r, mb);
    case AskMemory(i) => KeepAskMemory(c, s, i);
    case ReleaseMemory(i) => KeepReleaseMemory(c, s, i);
    case DropSlot(i) => KeepDropSlot(c, s, i);
    case Notify(i) => KeepNotify(c, s, i);
    case _ => KeepLoop(c, s, a);
  }

  lemma ReachableInv(c: Config, s: State)
    requires c.Valid() && Reachable(c, s)
    ensures Inv(c, s)
  {
    var acts :| RunTo(c, acts, s);
    var s0 :| Init(c, s0) && Runs(Next(c), s0, acts, s);
    forall t, a | Inv(c, t) && Next(c)(t, a).Some?
      ensures Inv(c, Next(c)(t, a).value)
    {
      StepKeepsInv(c, t, a);
    }
    Invariant(Next(c), t => Inv(c, t), s0, acts, s);
  }
}
