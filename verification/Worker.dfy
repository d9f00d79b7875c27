/** One claimed job in the worker: sandbox attempts, the retry rule, and what is written
    and published at the end. */
module Worker {
  import opened Wrappers
  import opened Status
  import opened Triage

  datatype SandboxError =
    | NotImplemented | KernelFeatureMissing | CgroupSetup | SeccompSetup | LandlockSetup | MountSetup
    | NamespaceSetup | Spawn | Wait | Io | Internal
  {
    /** Everything but what would fail the same way again. */
    predicate IsRetryable()
      ensures IsRetryable() <==> !NotImplemented? && !KernelFeatureMissing? && !SeccompSetup? && !LandlockSetup?
    {
      CgroupSetup? || MountSetup? || NamespaceSetup? || Spawn? || Wait? || Io? || Internal?
    }
  }

  type Attempt = Result<SandboxResult, SandboxError>

  const MAX_SANDBOX_ATTEMPTS := 2

  /** What the retry rule promises about the outcomes of up to two attempts. */
  ghost predicate RetryOutcome(sandbox: nat -> Attempt, r: Attempt, attempts: nat) {
    && 1 <= attempts <= MAX_SANDBOX_ATTEMPTS
    && r == sandbox(attempts)
    && (attempts == 2 <==> sandbox(1).Err? && sandbox(1).error.IsRetryable())
    && (r.Ok? <==> sandbox(1).Ok? || (sandbox(1).error.IsRetryable() && sandbox(2).Ok?))
  }

  /** A permitted attempt succeeded. */
  ghost predicate Executed(sandbox: nat -> Attempt) { exists r, n :: RetryOutcome(sandbox, r, n) && r.Ok? }

  /** A permitted attempt succeeded with this status. */
  ghost predicate ExecutedWith(sandbox: nat -> Attempt, status: Status) {
    exists r, n :: RetryOutcome(sandbox, r, n) && r.Ok? && r.value.status == status
  }

  /** `sandbox(k)` is what the k-th execution returns. */
  method ExecuteWithRetry(sandbox: nat -> Attempt) returns (r: Attempt, attempts: nat)
    ensures RetryOutcome(sandbox, r, attempts)
  {
    attempts := 1;
    while true
      invariant 1 <= attempts <= MAX_SANDBOX_ATTEMPTS
      invariant attempts == 2 ==> sandbox(1).Err? && sandbox(1).error.IsRetryable()
      decreases MAX_SANDBOX_ATTEMPTS - attempts
    {
      r := sandbox(attempts);
      if r.Ok? {
        return;
      } else if r.error.IsRetryable() && attempts < MAX_SANDBOX_ATTEMPTS {
        attempts := attempts + 1;
      } else {
        return;
      }
    }
  }

  // ------------------------------------------------------ one claimed job

  /** The database effects of a job, in order; a write carries whether it succeeded. */
  datatype Effect =
    | PublishProcessing
    | StoreArtifact
    | WriteResult(status: Status, ok: bool)
    | WriteFailure(ok: bool)
    | PublishFinished(status: Status)

  predicate IsTerminalWrite(e: Effect) { (e.WriteResult? || e.WriteFailure?) && e.ok }

  function TerminalWrites(log: seq<Effect>): nat {
    if log == [] then 0
    else TerminalWrites(log[..|log| - 1]) + (if IsTerminalWrite(log[|log| - 1]) then 1 else 0)
  }

  /** The surroundings of one job. */
  datatype Env = Env(languageKnown: bool, compiles: bool, artifact: bool, resultWriteOk: bool, failureWriteOk: bool)

  predicate Stores(env: Env, status: Status) { env.compiles && status != CompileError && env.artifact }

  /** The effects of `process` once the sandbox has answered, after those in `log`. */
  function Recorded(log: seq<Effect>, env: Env, status: Status): seq<Effect> {
    var stored := if Stores(env, status) then log + [StoreArtifact] else log;
    var written := stored + [WriteResult(status, env.resultWriteOk)];
    if env.resultWriteOk then written + [PublishFinished(status)] else written
  }

  /** What the log of `process` may hold; `status` is what the sandbox answered. */
  ghost predicate LogOf(log: seq<Effect>, env: Env, status: Status) {
    && (forall k :: 0 <= k < |log| ==> !log[k].WriteFailure?)
    && (forall k :: 0 <= k < |log| && log[k].WriteResult? ==> log[k] == WriteResult(status, env.resultWriteOk))
    && (forall k :: 0 <= k < |log| && log[k].PublishFinished? ==>
          && env.resultWriteOk && k == |log| - 1 && k > 0
          && log[k - 1] == WriteResult(status, true) && log[k].status == status)
    && (StoreArtifact in log <==> env.compiles && env.artifact && status != CompileError)
    && WriteResult(status, env.resultWriteOk) in log
  }

  /** `process`: everything up to the write of a result. */
  method Process(env: Env, sandbox: nat -> Attempt) returns (ok: bool, log: seq<Effect>)
    ensures ok <==> env.languageKnown && env.resultWriteOk && Executed(sandbox)
    ensures TerminalWrites(log) == if ok then 1 else 0
    ensures env.languageKnown && Executed(sandbox) ==>
              exists status :: ExecutedWith(sandbox, status) && LogOf(log, env, status)
    ensures !env.languageKnown || !Executed(sandbox) ==> log == [PublishProcessing]
    ensures ok ==> log != [] && log[|log| - 1].PublishFinished?
  {
    log := [PublishProcessing];
    ghost var start := log;
    Tally([], PublishProcessing);
    ok := false;
    if !env.languageKnown {
      return;
    }
    var r, _ := ExecuteWithRetry(sandbox);
    if r.Err? {
      return;
    }
    assert ExecutedWith(sandbox, r.value.status);
    if env.compiles && r.value.status != CompileError && env.artifact {
      log := log + [StoreArtifact];
    }
    log := log + [WriteResult(r.value.status, env.resultWriteOk)];
    if env.resultWriteOk {
      log := log + [PublishFinished(r.value.status)];
      ok := true;
    }
    assert log == Recorded(start, env, r.value.status);
  }

  lemma Tally(log: seq<Effect>, e: Effect)
    ensures TerminalWrites(log + [e]) == TerminalWrites(log) + (if IsTerminalWrite(e) then 1 else 0)
  {
    assert (log + [e])[..|log + [e]| - 1] == log;
  }

  /** The whole job after the claim. A sandbox error ends as a failure row; a verdict row
      comes only from a sandbox result; at most one write succeeds; a Finished event is
      always published, and a terminal row backs it exactly when some write succeeded. */
  method RunTask(env: Env, sandbox: nat -> Attempt) returns (log: seq<Effect>)
    ensures TerminalWrites(log) <= 1
    ensures log != [] && log[|log| - 1].PublishFinished?
    ensures forall k :: 0 <= k < |log| - 1 ==> !log[k].PublishFinished?
    ensures forall k :: 0 <= k < |log| && log[k].WriteResult? ==>
      ExecutedWith(sandbox, log[k].status)
    ensures !Executed(sandbox) ==>
      WriteFailure(env.failureWriteOk) in log && log[|log| - 1] == PublishFinished(SandboxFailure)
    ensures TerminalWrites(log) == 1 <==>
      env.failureWriteOk ||
      (env.languageKnown && env.resultWriteOk && Executed(sandbox))
  {
    var ok;
    ok, log := Process(env, sandbox);
    if !ok {
      Tally(log, WriteFailure(env.failureWriteOk));
      log := log + [WriteFailure(env.failureWriteOk)];
      assert log[|log| - 1] == WriteFailure(env.failureWriteOk);
      Tally(log, PublishFinished(SandboxFailure));
      log := log + [PublishFinished(SandboxFailure)];
      assert log[|log| - 2] == WriteFailure(env.failureWriteOk);
    }
  }

  // --------------------------------------------------- one sandbox attempt

  type Token = string

  /** What the host does to one attempt, step by step. */
  datatype HostRun = HostRun(
    scratchDirOk: bool, scratchFilled: bool, scratchRemovable: bool,
    mkdirOk: bool, limitsWritten: bool, cgroupEmpty: bool,
    run: Result<RawOutcome, SandboxError>, readings: Readings, cpuLimit: nat, wall: nat, runMemoryKb: Option<nat>)

  /** Creating the cgroup directory fails when it is already there. */
  predicate MakesCgroup(cgroups: set<Token>, token: Token, h: HostRun) {
    h.scratchDirOk && h.scratchFilled && h.mkdirOk && token !in cgroups
  }

  /** The cgroup directories left after an attempt: a directory whose limits could not be
      written is never removed, one with live processes cannot be. */
  function CgroupsAfter(cgroups: set<Token>, token: Token, h: HostRun): set<Token> {
    if MakesCgroup(cgroups, token, h) && (!h.limitsWritten || !h.cgroupEmpty) then cgroups + {token} else cgroups
  }

  /** The scratch directories left after an attempt: one that could not be filled is never
      removed. */
  function ScratchesAfter(scratches: set<Token>, token: Token, h: HostRun): set<Token> {
    if !h.scratchDirOk then scratches
    else if h.scratchFilled && h.scratchRemovable then scratches - {token}
    else scratches + {token}
  }

  function AttemptResult(cgroups: set<Token>, token: Token, h: HostRun): Attempt {
    if !h.scratchDirOk || !h.scratchFilled then Err(MountSetup)
    else if !MakesCgroup(cgroups, token, h) || !h.limitsWritten then Err(CgroupSetup)
    else
      match h.run
      case Err(e) => Err(e)
      case Ok(raw) =>
        var r := Classify(raw, h.readings, h.cpuLimit, h.wall);
        Ok(if h.runMemoryKb.Some? then r.(memoryKb := h.runMemoryKb.value) else r)
  }

  /** The directories a worker owns, one cgroup and one scratch directory per token. */
  class Host {
    var cgroups: set<Token>
    var scratches: set<Token>

    constructor ()
      ensures cgroups == {} && scratches == {}
    {
      cgroups, scratches := {}, {};
    }

    /** `execute`: scratch, then cgroup, then the run; torn down in reverse on every path. */
    method Execute(token: Token, h: HostRun) returns (r: Attempt)
      modifies this
      ensures r == AttemptResult(old(cgroups), token, h)
      ensures cgroups == CgroupsAfter(old(cgroups), token, h)
      ensures scratches == ScratchesAfter(old(scratches), token, h)
    {
      if !h.scratchDirOk {
        return Err(MountSetup);
      }
      scratches := scratches + {token};
      if !h.scratchFilled {
        return Err(MountSetup);
      }
      if token in cgroups || !h.mkdirOk {
        DestroyScratch(token, h);
        return Err(CgroupSetup);
      }
      cgroups := cgroups + {token};
      if !h.limitsWritten {
        DestroyScratch(token, h);
        return Err(CgroupSetup);
      }
      if h.run.Err? {
        r := Err(h.run.error);
      } else {
        var out := Classify(h.run.value, h.readings, h.cpuLimit, h.wall);
        if h.runMemoryKb.Some? {
          out := out.(memoryKb := h.runMemoryKb.value);
        }
        r := Ok(out);
      }
      if h.cgroupEmpty {
        cgroups := cgroups - {token};
      }
      DestroyScratch(token, h);
    }

    method DestroyScratch(token: Token, h: HostRun)
      modifies this`scratches
      ensures scratches == if h.scratchRemovable then old(scratches) - {token} else old(scratches)
    {
      if h.scratchRemovable {
        scratches := scratches - {token};
      }
    }
  }

  /** The two attempts of one job: the second sees the directories the first one left. */
  function TwoAttempts(cgroups: set<Token>, token: Token, first: HostRun, second: HostRun): nat -> Attempt {
    k => if k <= 1 then AttemptResult(cgroups, token, first)
         else AttemptResult(CgroupsAfter(cgroups, token, first), token, second)
  }

  /** Nothing fails before the child's status is in. */
  predicate NoFault(h: HostRun) {
    h.scratchDirOk && h.scratchFilled && h.mkdirOk && h.limitsWritten && h.run.Ok?
  }

  /** The attempt fails in a way that may be retried and leaves no cgroup directory: before it
      made one, or with a retryable error and an empty cgroup. */
  predicate CleanFault(h: HostRun) {
    || !h.scratchDirOk || !h.scratchFilled || !h.mkdirOk
    || (h.limitsWritten && h.cgroupEmpty && h.run.Err? && h.run.error.IsRetryable())
  }

  /** The job ends in a result exactly when no directory of that name is in the way, the second
      attempt is not needed or has no fault, and the first fails cleanly if it fails. */
  lemma RetrySucceedsExactly(cgroups: set<Token>, token: Token, first: HostRun, second: HostRun, r: Attempt, n: nat)
    requires RetryOutcome(TwoAttempts(cgroups, token, first, second), r, n)
    ensures r.Ok? <==> token !in cgroups && (NoFault(first) || (CleanFault(first) && NoFault(second)))
  {
    var sandbox := TwoAttempts(cgroups, token, first, second);
    assert sandbox(1) == AttemptResult(cgroups, token, first);
    assert sandbox(2) == AttemptResult(CgroupsAfter(cgroups, token, first), token, second);
  }

  /** A lost child, say, with a process left in its cgroup: the second attempt fails whatever
      the host does. */
  lemma LeftoverDoomsTheRetry(cgroups: set<Token>, token: Token, first: HostRun, second: HostRun)
    requires first.scratchDirOk && first.scratchFilled && first.mkdirOk && first.limitsWritten
    requires first.run == Err(Wait) && !first.cgroupEmpty
    ensures RetryOutcome(TwoAttempts(cgroups, token, first, second), Err(CgroupSetup), 2) ||
            RetryOutcome(TwoAttempts(cgroups, token, first, second), Err(MountSetup), 2)
  {
    var sandbox := TwoAttempts(cgroups, token, first, second);
    assert sandbox(1) == AttemptResult(cgroups, token, first);
    assert sandbox(2) == AttemptResult(CgroupsAfter(cgroups, token, first), token, second);
  }

  /** A verdict in a result is the classification of a child the run reaped. */
  lemma VerdictsComeFromReapedChildren(cgroups: set<Token>, token: Token, h: HostRun)
    ensures
      var r := AttemptResult(cgroups, token, h);
      && (r.Ok? ==> h.run.Ok? && r.value.status == Classify(h.run.value, h.readings, h.cpuLimit, h.wall).status &&
                    r.value.status.IsTerminal() && r.value.status != SandboxFailure)
      && (h.run.Err? ==> r.Err?)
  {
    if h.run.Ok? {
      OnlyVerdictsFromReapedChildren(h.run.value, h.readings, h.cpuLimit, h.wall);
    }
  }
}
