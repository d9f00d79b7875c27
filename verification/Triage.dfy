/** From a reaped child to a status: the decision tree and the fields it fills. */
module Triage {
  import opened Wrappers
  import opened Status

  datatype WaitStatus = Exited(code: int) | Signaled(sig: int) | Unexpected

  /** What the parent knows about a finished child. Times are microseconds. */
  datatype RawOutcome = RawOutcome(
    exit: WaitStatus, stdout: string, stderr: string, compileStderr: string,
    killedByWall: bool, compileCpu: Option<nat>, compileWall: Option<nat>)

  /** What the cgroup reports after the run. */
  datatype Readings = Readings(totalCpu: nat, peakBytes: nat, oomKilled: bool)

  datatype SandboxResult = SandboxResult(
    status: Status, stdout: string, stderr: string, compileOutput: Option<string>,
    exitCode: Option<int>, signal: Option<Signal>,
    cpuTime: nat, wallTime: nat, compileTime: nat, memoryKb: nat)

  /** The exit code the outer child uses for "the compiler failed". */
  const COMPILE_FAILED := 253

  /** CPU billed to the run: the total less the compile snapshot, never below zero. */
  function BilledCpu(raw: RawOutcome, cg: Readings): nat {
    match raw.compileCpu
    case Some(c) => if c <= cg.totalCpu then cg.totalCpu - c else 0
    case None => cg.totalCpu
  }

  function Finish(raw: RawOutcome, cpu: nat, wall: nat, memoryKb: nat, status: Status, signal: Option<Signal>)
    : SandboxResult
  {
    SandboxResult(
      status, raw.stdout, raw.stderr,
      if raw.compileStderr == "" then None else Some(raw.compileStderr),
      if raw.exit.Exited? then Some(raw.exit.code) else None,
      signal, cpu, wall,
      if raw.compileWall.Some? then raw.compileWall.value else 0,
      memoryKb)
  }

  function Classify(raw: RawOutcome, cg: Readings, cpuLimit: nat, wall: nat): SandboxResult {
    var cpu := BilledCpu(raw, cg);
    var kb := cg.peakBytes / 1024;
    if cg.oomKilled then
      Finish(raw, cpu, wall, kb, MemoryLimitExceeded, None)
    else if raw.killedByWall then
      Finish(raw, cpu, wall, kb, TimeLimitExceeded(Wall), Some(Sigkill))
    else if raw.exit == Exited(COMPILE_FAILED) then
      Finish(raw, cpu, wall, kb, CompileError, None).(
        stdout := "", stderr := "", exitCode := None, compileTime := wall, cpuTime := 0)
    else if cpu > cpuLimit then
      Finish(raw, cpu, wall, kb, TimeLimitExceeded(Cpu),
             if raw.exit.Signaled? then Some(SignalFromRaw(raw.exit.sig)) else None)
    else
      match raw.exit
      case Exited(code) =>
        Finish(raw, cpu, wall, kb, if code == 0 then Accepted else NonZeroExit(code), None).(exitCode := Some(code))
      case Signaled(sig) =>
        Finish(raw, cpu, wall, kb, RuntimeError(SignalFromRaw(sig)), Some(SignalFromRaw(sig))).(exitCode := None)
      case Unexpected =>
        Finish(raw, cpu, wall, kb, InternalError, None).(exitCode := None)
  }

  /** When each status is reported, each line on its own terms: the order OOM, wall, compile
      sentinel, run CPU, exit is what makes the lines exclude one another. */
  lemma StatusMeaning(raw: RawOutcome, cg: Readings, cpuLimit: nat, wall: nat)
    ensures
      var s := Classify(raw, cg, cpuLimit, wall).status;
      var undisturbed := !cg.oomKilled && !raw.killedByWall;
      var inBudget := undisturbed && BilledCpu(raw, cg) <= cpuLimit;
      && (s == MemoryLimitExceeded <==> cg.oomKilled)
      && (s == TimeLimitExceeded(Wall) <==> raw.killedByWall && !cg.oomKilled)
      && (s == CompileError <==> undisturbed && raw.exit == Exited(COMPILE_FAILED))
      && (s == TimeLimitExceeded(Cpu) <==>
            undisturbed && raw.exit != Exited(COMPILE_FAILED) && BilledCpu(raw, cg) > cpuLimit)
      && (s == Accepted <==> inBudget && raw.exit == Exited(0))
      && (forall code :: s == NonZeroExit(code) <==>
            inBudget && raw.exit == Exited(code) && code != 0 && code != COMPILE_FAILED)
      && (forall sig :: raw.exit == Signaled(sig) ==> (s == RuntimeError(SignalFromRaw(sig)) <==> inBudget))
      && (s.RuntimeError? ==> raw.exit.Signaled?)
      && (s == InternalError <==> inBudget && raw.exit == Unexpected)
  {
  }

  /** Only finished statuses come out, and only an unclassifiable wait is not a verdict.
      No branch reports an output overflow. */
  lemma OnlyVerdictsFromReapedChildren(raw: RawOutcome, cg: Readings, cpuLimit: nat, wall: nat)
    ensures
      var s := Classify(raw, cg, cpuLimit, wall).status;
      && s.IsTerminal() && s != SandboxFailure && s != Cancelled && s != Expired && s != OutputLimitExceeded
      && (!s.IsVerdict() <==> s == InternalError)
      && (raw.exit != Unexpected ==> s.IsVerdict())
  {
  }

  /** The sentinel reaches the client exactly on the two branches above the sentinel test. */
  lemma SentinelLeaksExactly(raw: RawOutcome, cg: Readings, cpuLimit: nat, wall: nat)
    ensures Classify(raw, cg, cpuLimit, wall).exitCode == Some(COMPILE_FAILED) <==>
            raw.exit == Exited(COMPILE_FAILED) && (cg.oomKilled || raw.killedByWall)
  {
  }

  /** Output is passed through except for a compile error, and a compile error bills
      everything to the compiler. */
  lemma CompileErrorHasNoRunPhase(raw: RawOutcome, cg: Readings, cpuLimit: nat, wall: nat)
    ensures
      var r := Classify(raw, cg, cpuLimit, wall);
      && r.wallTime == wall
      && (r.status == CompileError ==> r.stdout == "" && r.stderr == "" && r.cpuTime == 0 && r.compileTime == wall &&
                                       (raw.compileStderr != "" ==> r.compileOutput == Some(raw.compileStderr)))
      && (r.status != CompileError ==>
            r.stdout == raw.stdout && r.stderr == raw.stderr && r.cpuTime == BilledCpu(raw, cg))
  {
  }

  /** The remaining fields, each in terms of the child and the cgroup. */
  lemma FieldsMeaning(raw: RawOutcome, cg: Readings, cpuLimit: nat, wall: nat)
    ensures
      var r := Classify(raw, cg, cpuLimit, wall);
      && (forall code :: r.exitCode == Some(code) <==> raw.exit == Exited(code) && r.status != CompileError)
      && (r.status == TimeLimitExceeded(Wall) ==> r.signal == Some(Sigkill))
      && (forall sig :: raw.exit == Signaled(sig) && (r.status == TimeLimitExceeded(Cpu) || r.status.RuntimeError?) ==>
            r.signal == Some(SignalFromRaw(sig)))
      && (r.signal.Some? ==> r.status == TimeLimitExceeded(Wall) || raw.exit.Signaled?)
      && (r.status == MemoryLimitExceeded ==> r.signal.None?)
      && r.memoryKb * 1024 <= cg.peakBytes < (r.memoryKb + 1) * 1024
      && (r.compileOutput.None? <==> raw.compileStderr == "")
      && (r.status != CompileError ==>
            raw.compileWall == Some(r.compileTime) || (raw.compileWall.None? && r.compileTime == 0))
  {
  }
}
