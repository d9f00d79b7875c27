/** The compile-to-run barrier between the sandbox child, the parent's barrier thread and
    the killer: ceilings, artifact, CPU snapshot, and what is billed in the end. The child is
    past its handshake, so that it is in its cgroup. */
module Barrier {
  import opened Wrappers
  import opened Status
  import opened Triage
  import opened Traces

  datatype Ceilings = Ceilings(memoryMb: nat, maxPids: nat)

  /** `artifactLen` is the size of the archive the child packs after a successful compile. */
  datatype Job = Job(
    compileCmd: Option<seq<string>>, cached: bool, compileLimits: Option<Ceilings>, limits: Ceilings, artifactLen: nat)

  function Max(a: nat, b: nat): nat { if a >= b then a else b }

  /** The parent's prediction, used both for the ceilings and for the wall budget. */
  predicate WillCompile(j: Job) { j.compileCmd.Some? && j.compileCmd.value != [] && !j.cached }

  const NUL: char := '\0'

  /** Arguments with a NUL byte cannot become C strings and are left out. */
  function UsableArgs(args: seq<string>): seq<string> {
    if args == [] then [] else (if NUL in args[0] then [] else [args[0]]) + UsableArgs(args[1..])
  }

  /** What the child decides, from the argument list it was given. */
  predicate ChildCompiles(j: Job) { WillCompile(j) && UsableArgs(j.compileCmd.value) != [] }

  lemma {:induction false} NoUsableArgs(args: seq<string>)
    ensures UsableArgs(args) == [] <==> forall k :: 0 <= k < |args| ==> NUL in args[k]
  {
    if args != [] {
      NoUsableArgs(args[1..]);
      assert forall k :: 0 < k < |args| ==> args[k] == args[1..][k - 1];
    }
  }

  /** The child compiles exactly when nothing is cached and the command has an argument without
      a NUL byte. Parent and child agree except on a command whose every argument holds one. */
  lemma PredictionIsRightExactly(j: Job)
    ensures ChildCompiles(j) <==>
            j.compileCmd.Some? && !j.cached &&
            exists k :: 0 <= k < |j.compileCmd.value| && NUL !in j.compileCmd.value[k]
    ensures WillCompile(j) != ChildCompiles(j) <==>
            j.compileCmd.Some? && !j.cached && |j.compileCmd.value| > 0 &&
            forall k :: 0 <= k < |j.compileCmd.value| ==> NUL in j.compileCmd.value[k]
  {
    if j.compileCmd.Some? {
      NoUsableArgs(j.compileCmd.value);
    }
  }

  /** The ceilings the cgroup is created with. */
  function CreatedWith(j: Job): (c: Ceilings)
    ensures c.memoryMb >= j.limits.memoryMb && c.maxPids >= j.limits.maxPids
    ensures !WillCompile(j) || j.compileLimits.None? ==> c == j.limits
  {
    if WillCompile(j) && j.compileLimits.Some? then
      Ceilings(Max(j.compileLimits.value.memoryMb, j.limits.memoryMb),
               Max(j.compileLimits.value.maxPids, j.limits.maxPids))
    else j.limits
  }

  /** Room for a run with that limit and, if there is a compile limit, for a compile, too. */
  predicate Covers(room: nat, run: nat, compile: Option<nat>) {
    room >= run && (compile.Some? ==> room >= compile.value)
  }

  /** No more room than that. */
  ghost predicate CoversLeast(room: nat, run: nat, compile: Option<nat>) {
    Covers(room, run, compile) && forall less: nat :: Covers(less, run, compile) ==> room <= less
  }

  /** The compile limit is announced and larger than the run's. */
  predicate RaisesMemory(j: Job) {
    WillCompile(j) && j.compileLimits.Some? && j.compileLimits.value.memoryMb > j.limits.memoryMb
  }

  predicate RaisesPids(j: Job) {
    WillCompile(j) && j.compileLimits.Some? && j.compileLimits.value.maxPids > j.limits.maxPids
  }

  // ------------------------------------------------------------ the protocol

  datatype ChildPc = Compiling | Packing | AwaitAck | Running | Ended(exit: WaitStatus)

  /** The barrier thread, stage by stage. */
  datatype Stage = WaitByte | GotByte | Snapped | Published | Reclaimed | MemorySet | PidsSet | Acked | NoBarrier {
    function Rank(): int {
      match this
      case NoBarrier => -1 case WaitByte => 0 case GotByte => 1 case Snapped => 2 case Published => 3
      case Reclaimed => 4 case MemorySet => 5 case PidsSet => 6 case Acked => 7
    }
  }

  datatype State = State(
    child: ChildPc,
    sent: nat, sendFault: bool,        // archive bytes in the pipe; packing or sending gave up
    readFault: Option<nat>,            // reading them gave up after so many
    signalled: bool, started: bool,    // the child got as far as the phase byte, as the program
    phaseByte: bool, stage: Stage, ceilings: Ceilings,
    compileCpu: nat, runCpu: nat,
    early: nat,                        // the part of a compiled program's CPU before the snapshot
    snapshot: Option<nat>, oomKilled: bool, wallKilled: bool)

  /** Whether the best-effort steps take effect: the barrier's two cgroup writes and its reads of
      the phase byte and of the CPU counter, the child's read of the acknowledgement, and at the
      end the reads of the CPU counter and of the OOM counter. */
  datatype Host = Host(
    memoryWriteOk: bool, pidsWriteOk: bool, phaseReadOk: bool, cpuReadOk: bool, ackReadOk: bool,
    totalReadOk: bool, oomReadOk: bool)
  {
    /** Neither side's read lets the child go on without the barrier. */
    predicate HoldsBack() { phaseReadOk && ackReadOk }
  }

  datatype Action =
    | CompilerBurns(us: nat) | CompileFails | CompileSucceeds
    | SetupFails                                   // the compiler could not be forked or waited for
    | Send(n: nat) | SendStops                     // SendStops: a pack error, a zero-byte write or a write error
    | ReadStops(n: nat)                            // the parent's reader fails after n bytes
    | SignalPhase | SignalLost | Proceed | SkipAck
    | ProgramBurns(us: nat) | ProgramEnds(exit: WaitStatus)
    | OomKill | OomHelper                          // OomHelper: the victim is another process of the cgroup
    | WallKill | WallKillFails
    | ReadByte | ReadByteFails | TakeSnapshot | PublishBarrier | Reclaim | SetMemory | SetPids | SendAck | SeeEof
  {
    predicate ByBarrier() {
      ReadByte? || ReadByteFails? || TakeSnapshot? || PublishBarrier? || Reclaim? || SetMemory? || SetPids? ||
      SendAck? || SeeEof?
    }

    predicate ByKiller() { OomKill? || OomHelper? || WallKill? || WallKillFails? }
  }

  predicate Enabled(j: Job, h: Host, s: State, a: Action) {
    match a
    case CompilerBurns(_) => s.child == Compiling
    case CompileFails => s.child == Compiling
    case CompileSucceeds => s.child == Compiling
    case SetupFails => s.child == Compiling
    case Send(n) => s.child == Packing && !s.sendFault && s.readFault.None? && s.sent + n <= j.artifactLen
    case ReadStops(n) => s.readFault.None? && n <= s.sent && n < j.artifactLen
    case SendStops => s.child == Packing && !s.sendFault && s.sent < j.artifactLen
    case SignalPhase => s.child == Packing && (s.sent == j.artifactLen || s.sendFault)
    case SignalLost => s.child == Packing && (s.sent == j.artifactLen || s.sendFault)
    case Proceed => s.child == AwaitAck && (s.stage == Acked || s.stage == NoBarrier)
    case SkipAck => s.child == AwaitAck && !h.ackReadOk
    case ProgramBurns(_) => s.child == Running
    case ProgramEnds(_) => s.child == Running
    case OomKill => !s.child.Ended?
    case OomHelper => !s.child.Ended?
    case WallKill => !s.wallKilled
    case WallKillFails => !s.wallKilled
    case ReadByte => s.stage == WaitByte && s.phaseByte
    case ReadByteFails => s.stage == WaitByte && !h.phaseReadOk
    case TakeSnapshot => s.stage == GotByte
    case PublishBarrier => s.stage == Snapped
    case Reclaim => s.stage == Published
    case SetMemory => s.stage == Reclaimed
    case SetPids => s.stage == MemorySet
    case SendAck => s.stage == PidsSet
    case SeeEof => s.stage == WaitByte && !s.phaseByte && s.child.Ended?
  }

  /** A barrier thread whose read fails returns, which closes both of its pipes: a phase byte
      written then is lost, and the child reads the end of the pipe like an acknowledgement. An
      acknowledgement that cannot be written is one that comes when the thread ends. A wall kill
      that comes after the child has exited leaves its exit status. */
  function Apply(j: Job, h: Host, s: State, a: Action): State
    requires Enabled(j, h, s, a)
  {
    match a
    case CompilerBurns(us) => s.(compileCpu := s.compileCpu + us)
    case CompileFails => s.(child := Ended(Exited(COMPILE_FAILED)))
    case CompileSucceeds => s.(child := Packing)
    case Send(n) => s.(sent := s.sent + n)
    case SetupFails => s.(child := Ended(Exited(127)))
    case SendStops => s.(sendFault := true)
    case ReadStops(n) => s.(readFault := Some(n))
    case SignalPhase => s.(child := AwaitAck, signalled := true, phaseByte := s.stage == WaitByte)
    case SignalLost => s.(child := AwaitAck, signalled := true)
    case Proceed => s.(child := Running, started := true)
    case SkipAck => s.(child := Running, started := true)
    case ProgramBurns(us) =>
      s.(runCpu := s.runCpu + us, early := if ChildCompiles(j) && s.snapshot.None? then s.early + us else s.early)
    case ProgramEnds(e) => s.(child := Ended(e))
    case OomKill => s.(child := Ended(Signaled(9)), oomKilled := true)
    case OomHelper => s.(oomKilled := true)
    case WallKill => s.(child := if s.child.Ended? then s.child else Ended(Signaled(9)), wallKilled := true)
    case WallKillFails => s.(wallKilled := true)
    case ReadByte => s.(stage := GotByte, phaseByte := false)
    case ReadByteFails => s.(stage := NoBarrier)
    case TakeSnapshot => s.(stage := Snapped, snapshot := Some(if h.cpuReadOk then s.compileCpu + s.runCpu else 0))
    case PublishBarrier => s.(stage := Published)
    case Reclaim => s.(stage := Reclaimed)
    case SetMemory =>
      s.(stage := MemorySet,
         ceilings := if h.memoryWriteOk then s.ceilings.(memoryMb := j.limits.memoryMb) else s.ceilings)
    case SetPids =>
      s.(stage := PidsSet,
         ceilings := if h.pidsWriteOk then s.ceilings.(maxPids := j.limits.maxPids) else s.ceilings)
    case SendAck => s.(stage := Acked)
    case SeeEof => s.(stage := NoBarrier)
  }

  function Init(j: Job): State {
    State(if ChildCompiles(j) then Compiling else Running, 0, false, None, false, !ChildCompiles(j), false,
          WaitByte, CreatedWith(j), 0, 0, 0, None, false, false)
  }

  function Next(j: Job, h: Host): (State, Action) -> Option<State> {
    (s: State, a: Action) => if Enabled(j, h, s, a) then Some(Apply(j, h, s, a)) else None
  }

  ghost predicate Reachable(j: Job, h: Host, s: State) { exists acts :: Runs(Next(j, h), Init(j), acts, s) }

  // ------------------------------------------------------------ the invariant

  /** Where the child can be, and what has left it by then. */
  predicate ChildInv(j: Job, s: State) {
    && s.sent <= j.artifactLen && (s.sendFault ==> s.sent < j.artifactLen)
    && (s.readFault.Some? ==> s.readFault.value <= s.sent && s.readFault.value < j.artifactLen)
    && (s.child == Compiling ==> s.sent == 0 && !s.sendFault)
    && (s.signalled ==> s.child != Compiling && s.child != Packing && (s.sent == j.artifactLen || s.sendFault))
    && (s.child == AwaitAck ==> s.signalled && !s.started)
    && (s.child == Running || s.runCpu > 0 ==> s.started)
    && (ChildCompiles(j) && s.started ==> s.signalled)
    && (!ChildCompiles(j) ==>
          (s.child == Running || s.child.Ended?) && s.compileCpu == 0 && s.sent == 0 && !s.signalled)
    && (s.sent > 0 && s.child.Ended? && !s.signalled ==> s.wallKilled || s.oomKilled)
  }

  /** How far the barrier thread can be. */
  predicate StageInv(j: Job, h: Host, s: State) {
    && (s.phaseByte || s.stage.Rank() >= 1 ==> s.signalled)
    && (s.phaseByte ==> s.stage.Rank() <= 0)
    && (s.stage == NoBarrier && h.phaseReadOk ==> s.child.Ended?)
    && (ChildCompiles(j) && s.started && h.HoldsBack() ==> s.stage == Acked)
  }

  predicate CpuInv(j: Job, h: Host, s: State) {
    && (s.snapshot.Some? <==> s.stage.Rank() >= 2)
    && (s.snapshot.Some? ==> s.snapshot.value == if h.cpuReadOk then s.compileCpu + s.early else 0)
    && s.early <= s.runCpu
    && (ChildCompiles(j) && s.snapshot.None? ==> s.early == s.runCpu)
    && (h.HoldsBack() || !ChildCompiles(j) ==> s.early == 0)
  }

  predicate CeilingsInv(j: Job, h: Host, s: State) {
    && (s.stage.Rank() >= 5 && h.memoryWriteOk ==> s.ceilings.memoryMb == j.limits.memoryMb)
    && (s.stage.Rank() >= 6 && h.pidsWriteOk ==> s.ceilings.maxPids == j.limits.maxPids)
    && (s.stage.Rank() < 5 || !h.memoryWriteOk ==> s.ceilings.memoryMb == CreatedWith(j).memoryMb)
    && (s.stage.Rank() < 6 || !h.pidsWriteOk ==> s.ceilings.maxPids == CreatedWith(j).maxPids)
  }

  predicate Inv(j: Job, h: Host, s: State) {
    ChildInv(j, s) && StageInv(j, h, s) && CpuInv(j, h, s) && CeilingsInv(j, h, s)
  }

  lemma OthersKeepCeilings(j: Job, h: Host, s: State, a: Action)
    requires CeilingsInv(j, h, s) && Enabled(j, h, s, a) && !a.ByBarrier()
    ensures CeilingsInv(j, h, Apply(j, h, s, a))
  {
    var s' := Apply(j, h, s, a);
    assert s'.stage == s.stage && s'.ceilings == s.ceilings;
  }

  lemma StepKeepsInv(j: Job, h: Host, s: State, a: Action)
    requires Inv(j, h, s) && Enabled(j, h, s, a)
    ensures Inv(j, h, Apply(j, h, s, a))
  {
    if !a.ByBarrier() {
      OthersKeepCeilings(j, h, s, a);
    }
  }

  lemma ReachableInv(j: Job, h: Host, s: State)
    requires Reachable(j, h, s)
    ensures Inv(j, h, s)
  {
    var acts :| Runs(Next(j, h), Init(j), acts, s);
    forall t, a | Inv(j, h, t) && Next(j, h)(t, a).Some?
      ensures Inv(j, h, Next(j, h)(t, a).value)
    {
      StepKeepsInv(j, h, t, a);
    }
    Invariant(Next(j, h), t => Inv(j, h, t), Init(j), acts, s);
  }

  /** The ceilings are the least that cover both the compile and the run. */
  ghost predicate UnderCompileCeilings(j: Job, s: State) {
    var memory := if j.compileLimits.Some? then Some(j.compileLimits.value.memoryMb) else None;
    var pids := if j.compileLimits.Some? then Some(j.compileLimits.value.maxPids) else None;
    CoversLeast(s.ceilings.memoryMb, j.limits.memoryMb, memory) &&
    CoversLeast(s.ceilings.maxPids, j.limits.maxPids, pids)
  }

  /** The compiler works under them, in every run. */
  lemma CompilerHasItsRoom(j: Job, h: Host, s: State)
    requires Reachable(j, h, s) && s.child == Compiling
    ensures UnderCompileCeilings(j, s)
  {
    ReachableInv(j, h, s);
  }

  // -------------------------------------------------------------------- runs

  lemma ReachNext(j: Job, h: Host, s: State, a: Action) returns (s': State)
    requires Reachable(j, h, s) && Enabled(j, h, s, a)
    ensures s' == Apply(j, h, s, a) && Reachable(j, h, s')
  {
    s' := Apply(j, h, s, a);
    var acts :| Runs(Next(j, h), Init(j), acts, s);
    Snoc(Next(j, h), Init(j), acts, s, a);
  }

  /** A compile that burns `us`, and `n` bytes of its archive sent. */
  lemma CompileAndSend(j: Job, h: Host, us: nat, n: nat) returns (s: State)
    requires ChildCompiles(j) && n <= j.artifactLen
    ensures Reachable(j, h, s) && s == Init(j).(child := Packing, compileCpu := us, sent := n)
  {
    s := Init(j);
    assert Runs(Next(j, h), s, [], s);
    s := ReachNext(j, h, s, CompilerBurns(us));
    s := ReachNext(j, h, s, CompileSucceeds);
    s := ReachNext(j, h, s, Send(n));
  }

  /** The barrier thread has its byte and has told the killer. */
  lemma BarrierIsPublished(j: Job, h: Host, s0: State) returns (s: State)
    requires Reachable(j, h, s0) && s0.child == AwaitAck && s0.phaseByte && s0.stage == WaitByte
    ensures Reachable(j, h, s) && s == s0.(phaseByte := false, stage := Published, snapshot := s.snapshot)
    ensures s.snapshot.Some?
  {
    s := ReachNext(j, h, s0, ReadByte);
    s := ReachNext(j, h, s, TakeSnapshot);
    s := ReachNext(j, h, s, PublishBarrier);
  }

  lemma CeilingsAreSet(j: Job, h: Host, s0: State) returns (s: State)
    requires Reachable(j, h, s0) && s0.stage == Published
    ensures Reachable(j, h, s) && s == s0.(stage := PidsSet, ceilings := s.ceilings)
    ensures s.ceilings.memoryMb == if h.memoryWriteOk then j.limits.memoryMb else s0.ceilings.memoryMb
    ensures s.ceilings.maxPids == if h.pidsWriteOk then j.limits.maxPids else s0.ceilings.maxPids
  {
    s := ReachNext(j, h, s0, Reclaim);
    s := ReachNext(j, h, s, SetMemory);
    s := ReachNext(j, h, s, SetPids);
  }

  /** From a signalled barrier to the program. */
  lemma BarrierFires(j: Job, h: Host, s0: State) returns (s: State)
    requires Reachable(j, h, s0) && s0.child == AwaitAck && s0.phaseByte && s0.stage == WaitByte
    ensures Reachable(j, h, s) && s.child == Running && s.stage == Acked && s.snapshot.Some?
    ensures s.sent == s0.sent && s.sendFault == s0.sendFault && s.readFault == s0.readFault
    ensures s.compileCpu == s0.compileCpu && s.runCpu == s0.runCpu
    ensures s.oomKilled == s0.oomKilled && s.wallKilled == s0.wallKilled
    ensures s.ceilings.memoryMb == if h.memoryWriteOk then j.limits.memoryMb else s0.ceilings.memoryMb
    ensures s.ceilings.maxPids == if h.pidsWriteOk then j.limits.maxPids else s0.ceilings.maxPids
  {
    s := BarrierIsPublished(j, h, s0);
    s := CeilingsAreSet(j, h, s);
    s := ReachNext(j, h, s, SendAck);
    s := ReachNext(j, h, s, Proceed);
  }

  /** A compile that burns `us`, `n` bytes of its archive sent, and on to the program; a short
      send is one that stopped. */
  lemma CompileAndRun(j: Job, h: Host, us: nat, n: nat) returns (s: State)
    requires ChildCompiles(j) && n <= j.artifactLen
    ensures Reachable(j, h, s) && s.child == Running && s.stage == Acked && s.snapshot.Some?
    ensures s.sent == n && (s.sendFault <==> n < j.artifactLen) && s.readFault.None?
    ensures s.compileCpu == us && s.runCpu == 0
    ensures !s.oomKilled && !s.wallKilled
    ensures s.ceilings.memoryMb == if h.memoryWriteOk then j.limits.memoryMb else CreatedWith(j).memoryMb
    ensures s.ceilings.maxPids == if h.pidsWriteOk then j.limits.maxPids else CreatedWith(j).maxPids
  {
    s := CompileAndSend(j, h, us, n);
    if n < j.artifactLen {
      s := ReachNext(j, h, s, SendStops);
    }
    s := ReachNext(j, h, s, SignalPhase);
    s := BarrierFires(j, h, s);
  }

  /** The program starts ahead of the barrier, under the compiler's ceilings: the child's read of
      the acknowledgement fails, or the barrier thread's read of the phase byte does, which closes
      the pipe of the other. */
  lemma RunsAhead(j: Job, h: Host) returns (s: State)
    requires ChildCompiles(j) && !h.HoldsBack()
    ensures Reachable(j, h, s) && s.child == Running && s.started && s.stage != Acked && UnderCompileCeilings(j, s)
  {
    s := CompileAndSend(j, h, 0, j.artifactLen);
    s := ReachNext(j, h, s, SignalPhase);
    if h.ackReadOk {
      s := ReachNext(j, h, s, ReadByteFails);
      s := ReachNext(j, h, s, Proceed);
    } else {
      s := ReachNext(j, h, s, SkipAck);
    }
  }

  /** Every job reaches its run phase with the ceilings the host's writes allow. */
  lemma RunPhaseIsReached(j: Job, h: Host) returns (s: State)
    ensures Reachable(j, h, s) && s.child == Running
    ensures s.ceilings.memoryMb ==
            if RaisesMemory(j) && !(ChildCompiles(j) && h.memoryWriteOk)
            then j.compileLimits.value.memoryMb else j.limits.memoryMb
    ensures s.ceilings.maxPids ==
            if RaisesPids(j) && !(ChildCompiles(j) && h.pidsWriteOk)
            then j.compileLimits.value.maxPids else j.limits.maxPids
  {
    if ChildCompiles(j) {
      s := CompileAndRun(j, h, 0, j.artifactLen);
    } else {
      s := Init(j);
      assert Runs(Next(j, h), s, [], s);
    }
  }

  // ---------------------------------------------------------------- the order

  /** A program that has started has its barrier behind it: everything sent that will be sent,
      the compile CPU recorded, the acknowledgement given. */
  ghost predicate AfterBarrier(j: Job, s: State) {
    s.started ==> s.stage == Acked && s.snapshot.Some? && s.early == 0 && (s.sent == j.artifactLen || s.sendFault)
  }

  /** No step of a compiled program precedes the barrier, in every interleaving, exactly when
      neither the thread's read of the phase byte nor the child's of the acknowledgement fails. */
  lemma RunFollowsBarrierExactly(j: Job, h: Host)
    requires ChildCompiles(j)
    ensures (forall s :: Reachable(j, h, s) ==> AfterBarrier(j, s)) <==> h.HoldsBack()
  {
    if h.HoldsBack() {
      forall s | Reachable(j, h, s)
        ensures AfterBarrier(j, s)
      {
        ReachableInv(j, h, s);
      }
    } else {
      var s := RunsAhead(j, h);
    }
  }

  // ------------------------------------------------------------- ceilings

  ghost predicate MemoryBounded(j: Job, s: State) { s.child == Running ==> s.ceilings.memoryMb == j.limits.memoryMb }
  ghost predicate PidsBounded(j: Job, s: State) { s.child == Running ==> s.ceilings.maxPids == j.limits.maxPids }

  /** The program runs under its own ceilings in every run, unless a compile is announced whose
      limit is the larger one and the child does not compile, or is not held back, or the barrier's
      write does not take effect. */
  lemma RunCeilingsExactly(j: Job, h: Host)
    ensures (forall s :: Reachable(j, h, s) ==> MemoryBounded(j, s)) <==>
            !RaisesMemory(j) || (ChildCompiles(j) && h.memoryWriteOk && h.HoldsBack())
    ensures (forall s :: Reachable(j, h, s) ==> PidsBounded(j, s)) <==>
            !RaisesPids(j) || (ChildCompiles(j) && h.pidsWriteOk && h.HoldsBack())
  {
    forall s | Reachable(j, h, s)
      ensures !RaisesMemory(j) || (ChildCompiles(j) && h.memoryWriteOk && h.HoldsBack()) ==> MemoryBounded(j, s)
      ensures !RaisesPids(j) || (ChildCompiles(j) && h.pidsWriteOk && h.HoldsBack()) ==> PidsBounded(j, s)
    {
      ReachableInv(j, h, s);
    }
    var s := RunPhaseIsReached(j, h);
    assert MemoryBounded(j, s) <==> s.ceilings.memoryMb == j.limits.memoryMb;
    assert PidsBounded(j, s) <==> s.ceilings.maxPids == j.limits.maxPids;
    if ChildCompiles(j) && !h.HoldsBack() {
      var t := RunsAhead(j, h);
      assert MemoryBounded(j, t) <==> t.ceilings.memoryMb == j.limits.memoryMb;
      assert PidsBounded(j, t) <==> t.ceilings.maxPids == j.limits.maxPids;
    }
  }

  // -------------------------------------------------------------- the bill

  /** Child reaped and barrier thread joined. */
  predicate Finished(s: State) { s.child.Ended? && (s.stage == NoBarrier || s.stage == Acked) }

  function RawOf(s: State, stdout: string, stderr: string, compileStderr: string, compileWall: Option<nat>): RawOutcome
    requires s.child.Ended?
  {
    RawOutcome(s.child.exit, stdout, stderr, compileStderr, s.wallKilled, s.snapshot, compileWall)
  }

  /** What the cgroup's files tell at the end; a file that cannot be read tells nothing. */
  function ReadingsOf(h: Host, s: State, peakBytes: nat): Readings {
    Readings(if h.totalReadOk then s.compileCpu + s.runCpu else 0, peakBytes, s.oomKilled && h.oomReadOk)
  }

  /** The result of a finished job. */
  function ResultOf(h: Host, s: State, limit: nat, wall: nat): SandboxResult
    requires s.child.Ended?
  {
    Classify(RawOf(s, "", "", "", None), ReadingsOf(h, s, 0), limit, wall)
  }

  /** What the right CPU figure needs: that the counter can be read at the end, unless the program
      burnt nothing; and that the barrier fired and read the counter before the program began, or
      that no compiler burnt anything. */
  predicate CpuSplit(h: Host, s: State) {
    if !h.totalReadOk then s.runCpu == 0
    else if s.snapshot.Some? && h.cpuReadOk then s.early == 0
    else s.compileCpu == 0
  }

  /** Once the barrier fired, the bill and the snapshot add up to what was burnt exactly when the
      counter can be read at the end or the snapshot already has it all; the bill is the
      program's CPU exactly when the split is right. */
  lemma BillIsRunCpuExactly(
    j: Job, h: Host, s: State, out: string, err: string, cerr: string, cw: Option<nat>, peak: nat)
    requires Reachable(j, h, s) && Finished(s)
    ensures
      var raw := RawOf(s, out, err, cerr, cw);
      var cg := ReadingsOf(h, s, peak);
      var burnt := s.compileCpu + s.runCpu;
      && (s.snapshot.Some? ==>
            (BilledCpu(raw, cg) + s.snapshot.value == burnt <==> h.totalReadOk || s.snapshot.value == burnt))
      && (BilledCpu(raw, cg) == s.runCpu <==> CpuSplit(h, s))
  {
    ReachableInv(j, h, s);
  }

  /** The child left the compile sentinel, and nothing above the sentinel test applies. */
  predicate LeftSentinel(h: Host, s: State) {
    s.child == Ended(Exited(COMPILE_FAILED)) && !(s.oomKilled && h.oomReadOk) && !s.wallKilled
  }

  /** The same for the figure in the result. A failed compile is billed no run CPU, which is
      right; so is a program that left the sentinel itself, which is wrong unless it burnt
      none. */
  lemma ReportedCpuExactly(
    j: Job, h: Host, s: State, out: string, err: string, cerr: string, cw: Option<nat>, peak: nat,
    limit: nat, wall: nat)
    requires Reachable(j, h, s) && Finished(s)
    ensures
      var r := Classify(RawOf(s, out, err, cerr, cw), ReadingsOf(h, s, peak), limit, wall);
      r.cpuTime == s.runCpu <==> if LeftSentinel(h, s) then !s.started || s.runCpu == 0 else CpuSplit(h, s)
  {
    ReachableInv(j, h, s);
    BillIsRunCpuExactly(j, h, s, out, err, cerr, cw, peak);
    CompileErrorHasNoRunPhase(RawOf(s, out, err, cerr, cw), ReadingsOf(h, s, peak), limit, wall);
    StatusMeaning(RawOf(s, out, err, cerr, cw), ReadingsOf(h, s, peak), limit, wall);
  }

  /** A compiler killed at work: its whole CPU is reported as the program's. */
  lemma CompilerIsBilled(j: Job, h: Host, us: nat, limit: nat, wall: nat) returns (s: State)
    requires ChildCompiles(j) && h.totalReadOk
    ensures Reachable(j, h, s) && Finished(s) && !s.started && s.runCpu == 0
    ensures ResultOf(h, s, limit, wall).cpuTime == us && ResultOf(h, s, limit, wall).status == TimeLimitExceeded(Wall)
  {
    s := Init(j);
    assert Runs(Next(j, h), s, [], s);
    s := ReachNext(j, h, s, CompilerBurns(us));
    s := ReachNext(j, h, s, WallKill);
    s := ReachNext(j, h, s, SeeEof);
  }

  /** Any job's program burns `us`, and ends with that code. */
  lemma BurnAndExit(j: Job, h: Host, us: nat, code: int) returns (s: State)
    ensures Reachable(j, h, s) && Finished(s) && s.started && s.runCpu == us && s.compileCpu == 0
    ensures s.child == Ended(Exited(code)) && !s.oomKilled && !s.wallKilled
  {
    if ChildCompiles(j) {
      s := CompileAndRun(j, h, 0, j.artifactLen);
    } else {
      s := Init(j);
      assert Runs(Next(j, h), s, [], s);
    }
    ReachableInv(j, h, s);
    s := ReachNext(j, h, s, ProgramBurns(us));
    s := ReachNext(j, h, s, ProgramEnds(Exited(code)));
    if !ChildCompiles(j) {
      s := ReachNext(j, h, s, SeeEof);
    }
  }

  /** A program that leaves the sentinel itself: its CPU is not reported at all. */
  lemma SentinelProgramIsNotBilled(j: Job, h: Host, us: nat, limit: nat, wall: nat) returns (s: State)
    ensures Reachable(j, h, s) && Finished(s) && s.started && s.runCpu == us
    ensures ResultOf(h, s, limit, wall).cpuTime == 0 && ResultOf(h, s, limit, wall).status == CompileError
  {
    s := BurnAndExit(j, h, us, COMPILE_FAILED);
  }

  /** A counter that cannot be read at the end: any program is within any limit and reports
      nothing. */
  lemma UnreadCpuIsNotBilled(j: Job, h: Host, us: nat, limit: nat, wall: nat) returns (s: State)
    requires !h.totalReadOk
    ensures Reachable(j, h, s) && Finished(s) && s.started && s.runCpu == us
    ensures ResultOf(h, s, limit, wall).cpuTime == 0 && ResultOf(h, s, limit, wall).status == Accepted
  {
    s := BurnAndExit(j, h, us, 0);
  }

  // ---------------------------------------------------------- the artifact

  /** The reader's cap on the archive, 64 MiB. */
  const MAX_ARTIFACT := 67108864

  /** How many bytes of the archive the parent ends up with. The worker puts them into the compile
      cache if there are any and the job is not a compile error. */
  function Received(s: State): nat {
    var got := if s.readFault.Some? then s.readFault.value else s.sent;
    if got <= MAX_ARTIFACT then got else MAX_ARTIFACT
  }

  /** When what the parent has is the whole archive. Past the barrier: exactly when neither
      sending nor reading stopped and the cap is not exceeded. Before it, anything the parent has
      comes from a job that was killed. */
  lemma ReceivedIsWholeExactly(j: Job, h: Host, s: State)
    requires Reachable(j, h, s) && Finished(s) && ChildCompiles(j)
    ensures s.signalled ==>
      (Received(s) == j.artifactLen <==> !s.sendFault && s.readFault.None? && j.artifactLen <= MAX_ARTIFACT)
    ensures !s.signalled && s.sent > 0 ==> s.wallKilled || s.oomKilled
    ensures !s.signalled ==>
      (Received(s) == j.artifactLen <==> s.sent == j.artifactLen <= MAX_ARTIFACT && s.readFault.None?)
  {
    ReachableInv(j, h, s);
  }

  /** A kill between two writes of the archive leaves a proper prefix of it to be stored. */
  lemma KillWhilePackingStoresAPrefix(j: Job, h: Host, n: nat, limit: nat, wall: nat) returns (s: State)
    requires ChildCompiles(j) && 0 < n < j.artifactLen
    ensures Reachable(j, h, s) && Finished(s) && s.sent == n && 0 < Received(s) < j.artifactLen
    ensures ResultOf(h, s, limit, wall).status == TimeLimitExceeded(Wall)
  {
    s := CompileAndSend(j, h, 0, n);
    s := ReachNext(j, h, s, WallKill);
    s := ReachNext(j, h, s, SeeEof);
  }

  /** So does a send that stops, and the job goes on to be accepted. */
  lemma StoppedSendStoresAPrefix(j: Job, h: Host, n: nat, limit: nat, wall: nat) returns (s: State)
    requires ChildCompiles(j) && 0 < n < j.artifactLen
    ensures Reachable(j, h, s) && Finished(s) && s.sent == n && 0 < Received(s) < j.artifactLen
    ensures ResultOf(h, s, limit, wall).status == Accepted
  {
    s := CompileAndRun(j, h, 0, n);
    s := ReachNext(j, h, s, ProgramEnds(Exited(0)));
  }

  /** So does a read that stops, although everything was sent. */
  lemma StoppedReadStoresAPrefix(j: Job, h: Host, n: nat, limit: nat, wall: nat) returns (s: State)
    requires ChildCompiles(j) && 0 < n < j.artifactLen
    ensures Reachable(j, h, s) && Finished(s) && s.sent == j.artifactLen && 0 < Received(s) <= n
    ensures ResultOf(h, s, limit, wall).status == Accepted
  {
    s := CompileAndRun(j, h, 0, j.artifactLen);
    s := ReachNext(j, h, s, ReadStops(n));
    s := ReachNext(j, h, s, ProgramEnds(Exited(0)));
  }

  /** So does an archive over the cap, sent to the last byte. */
  lemma OverCapStoresAPrefix(j: Job, h: Host, limit: nat, wall: nat) returns (s: State)
    requires ChildCompiles(j) && j.artifactLen > MAX_ARTIFACT
    ensures Reachable(j, h, s) && Finished(s) && s.sent == j.artifactLen && Received(s) == MAX_ARTIFACT < j.artifactLen
    ensures ResultOf(h, s, limit, wall).status == Accepted
  {
    s := CompileAndRun(j, h, 0, j.artifactLen);
    s := ReachNext(j, h, s, ProgramEnds(Exited(0)));
  }

  // ------------------------------------------------- the verdict against the run

  /** The step that ended the child: the first of those that can. */
  function EndingStep(acts: seq<Action>): Option<Action> {
    if acts == [] then None
    else
      var before, last := EndingStep(acts[..|acts| - 1]), acts[|acts| - 1];
      if before.Some? then before
      else if last.CompileFails? || last.SetupFails? || last.ProgramEnds? || last.OomKill? || last.WallKill?
      then Some(last) else None
  }

  /** Something in the cgroup fell to the OOM killer. */
  predicate OomStruck(acts: seq<Action>) {
    acts != [] && (acts[|acts| - 1].OomKill? || acts[|acts| - 1].OomHelper? || OomStruck(acts[..|acts| - 1]))
  }

  /** The wall killer reached its deadline, whether or not the kill worked. */
  predicate DeadlineCame(acts: seq<Action>) {
    acts != [] && (acts[|acts| - 1].WallKill? || acts[|acts| - 1].WallKillFails? || DeadlineCame(acts[..|acts| - 1]))
  }

  /** What a child that ended that way leaves to be reaped. */
  predicate Leaves(a: Action, exit: WaitStatus) {
    match a
    case CompileFails => exit == Exited(253)
    case SetupFails => exit == Exited(127)
    case ProgramEnds(e) => exit == e
    case OomKill => exit == Signaled(9)
    case WallKill => exit == Signaled(9)
    case _ => false
  }

  lemma {:induction false} WallKillIsDeadline(acts: seq<Action>)
    ensures EndingStep(acts) == Some(WallKill) ==> DeadlineCame(acts)
  {
    if acts != [] {
      WallKillIsDeadline(acts[..|acts| - 1]);
    }
  }

  predicate Remembers(acts: seq<Action>, s: State) {
    && (s.child.Ended? <==> EndingStep(acts).Some?)
    && (s.child.Ended? ==> Leaves(EndingStep(acts).value, s.child.exit))
    && (s.oomKilled <==> OomStruck(acts)) && (s.wallKilled <==> DeadlineCame(acts))
  }

  lemma StepRemembers(j: Job, h: Host, acts: seq<Action>, s: State, a: Action)
    requires Enabled(j, h, s, a) && Remembers(acts, s)
    ensures Remembers(acts + [a], Apply(j, h, s, a))
  {
    assert (acts + [a])[..|acts|] == acts;
  }

  lemma RunRemembers(j: Job, h: Host, acts: seq<Action>, s: State)
    requires Runs(Next(j, h), Init(j), acts, s)
    ensures Remembers(acts, s)
  {
    forall past, t, a | Remembers(past, t) && Next(j, h)(t, a).Some?
      ensures Remembers(past + [a], Next(j, h)(t, a).value)
    {
      StepRemembers(j, h, past, t, a);
    }
    InvariantOfPast(Next(j, h), Remembers, [], Init(j), acts, s);
    assert [] + acts == acts;
  }

  /** What a result says about the whole run that led to it, in every interleaving. An OOM kill of
      any process is the verdict if the counter can be read, then a deadline reached; a compile
      error is a failed compile or a program that left its code; the rest goes by the CPU
      reported and by how the child ended. */
  lemma VerdictTellsTheRun(j: Job, h: Host, acts: seq<Action>, s: State, limit: nat, wall: nat)
    requires Runs(Next(j, h), Init(j), acts, s) && Finished(s)
    ensures EndingStep(acts).Some?
    ensures
      var r := ResultOf(h, s, limit, wall);
      var end := EndingStep(acts).value;
      var oom := OomStruck(acts) && h.oomReadOk;
      var inTime := !oom && !DeadlineCame(acts) && r.cpuTime <= limit;
      && (r.status == MemoryLimitExceeded <==> oom)
      && (r.status == TimeLimitExceeded(Wall) <==> !oom && DeadlineCame(acts))
      && (r.status == CompileError <==>
            !oom && !DeadlineCame(acts) && (end == CompileFails || end == ProgramEnds(Exited(253))))
      && (r.status == Accepted <==> inTime && end == ProgramEnds(Exited(0)))
      && (r.status == NonZeroExit(127) <==> inTime && (end == SetupFails || end == ProgramEnds(Exited(127))))
      && (r.status == RuntimeError(Sigkill) <==> inTime && (end == OomKill || end == ProgramEnds(Signaled(9))))
  {
    RunRemembers(j, h, acts, s);
    WallKillIsDeadline(acts);
  }

  lemma Begin(j: Job, h: Host) returns (s: State)
    ensures s == Init(j) && Reachable(j, h, s)
  {
    s := Init(j);
    assert Runs(Next(j, h), s, [], s);
  }

  /** A compiler that fails: the program never starts, nothing is received. */
  lemma FailedCompileEnds(j: Job, h: Host, us: nat, limit: nat, wall: nat) returns (s: State)
    requires ChildCompiles(j)
    ensures Reachable(j, h, s) && Finished(s) && !s.started && s.compileCpu == us && Received(s) == 0
    ensures ResultOf(h, s, limit, wall).status == CompileError
  {
    s := Begin(j, h);
    s := ReachNext(j, h, s, CompilerBurns(us));
    s := ReachNext(j, h, s, CompileFails);
    s := ReachNext(j, h, s, SeeEof);
  }

  /** A compiler that could not be forked or waited for is reported as the program's exit. */
  lemma UnforkedCompilerIsNonZeroExit(j: Job, h: Host, limit: nat, wall: nat) returns (s: State)
    requires ChildCompiles(j)
    ensures Reachable(j, h, s) && Finished(s) && !s.started
    ensures ResultOf(h, s, limit, wall).status == NonZeroExit(127)
  {
    s := Begin(j, h);
    s := ReachNext(j, h, s, SetupFails);
    s := ReachNext(j, h, s, SeeEof);
  }

  /** The OOM killer during the compile; a counter that cannot be read makes it a crash of the
      program, which never started. */
  lemma CompilerOutOfMemory(j: Job, h: Host, limit: nat, wall: nat) returns (s: State)
    requires ChildCompiles(j)
    ensures Reachable(j, h, s) && Finished(s) && !s.started
    ensures ResultOf(h, s, limit, wall).status == if h.oomReadOk then MemoryLimitExceeded else RuntimeError(Sigkill)
  {
    s := Begin(j, h);
    s := ReachNext(j, h, s, OomKill);
    s := ReachNext(j, h, s, SeeEof);
  }

  /** When it takes only a helper of the compiler, the compiler's failure is hidden and its
      sentinel comes out. */
  lemma HelperOutOfMemory(j: Job, h: Host, limit: nat, wall: nat) returns (s: State)
    requires ChildCompiles(j)
    ensures Reachable(j, h, s) && Finished(s) && !s.started
    ensures ResultOf(h, s, limit, wall).status == if h.oomReadOk then MemoryLimitExceeded else CompileError
    ensures ResultOf(h, s, limit, wall).exitCode == if h.oomReadOk then Some(253) else None
  {
    s := Begin(j, h);
    s := ReachNext(j, h, s, OomHelper);
    s := ReachNext(j, h, s, CompileFails);
    s := ReachNext(j, h, s, SeeEof);
  }

  /** A program whose kill at the deadline fails and that exits by itself is over its wall limit
      all the same; its exit code is reported, and with it a signal that it never got. */
  lemma FailedKillIsStillTimeout(j: Job, h: Host, code: int, limit: nat, wall: nat) returns (s: State)
    requires ChildCompiles(j)
    ensures Reachable(j, h, s) && Finished(s) && s.started && s.child == Ended(Exited(code))
    ensures ResultOf(h, s, limit, wall).status == TimeLimitExceeded(Wall)
    ensures ResultOf(h, s, limit, wall).exitCode == Some(code) && ResultOf(h, s, limit, wall).signal == Some(Sigkill)
  {
    s := CompileAndRun(j, h, 0, j.artifactLen);
    ReachableInv(j, h, s);
    s := ReachNext(j, h, s, WallKillFails);
    s := ReachNext(j, h, s, ProgramEnds(Exited(code)));
  }

  /** A phase byte that is not written leaves both sides waiting for each other: unless one of
      their reads fails, only a kill goes on from there. */
  lemma LostSignalHangs(j: Job, h: Host) returns (s: State)
    requires ChildCompiles(j) && h.HoldsBack()
    ensures Reachable(j, h, s) && s.child == AwaitAck && s.stage == WaitByte && !s.started
    ensures forall a :: Enabled(j, h, s, a) ==> a.ByKiller() || a.ReadStops?
  {
    s := CompileAndSend(j, h, 0, j.artifactLen);
    s := ReachNext(j, h, s, SignalLost);
  }
}
