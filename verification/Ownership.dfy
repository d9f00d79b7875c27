/** Exit statuses and who may consume them: sandbox runs register the child they will wait
    for, a background reaper peeks at zombies and reaps the unregistered ones. */
module Ownership {
  import opened Wrappers
  import opened Traces
  import H = Handshake

  type Pid = nat

  // ------------------------------------------------------ the code in a row

  /** The process-wide registry of children somebody will wait for. */
  class OwnedChildren {
    var pids: set<Pid>

    constructor ()
      ensures pids == {}
    {
      pids := {};
    }

    method Register(pid: Pid)
      modifies this
      ensures pids == old(pids) + {pid}
    {
      pids := pids + {pid};
    }

    method Unregister(pid: Pid)
      modifies this
      ensures pids == old(pids) - {pid}
    {
      pids := pids - {pid};
    }

    predicate IsOwned(pid: Pid)
      reads this
    {
      pid in pids
    }
  }

  /** The zombies of the worker, in the order the kernel reports them. */
  class ProcessTable {
    var zombies: seq<Pid>

    constructor (zombies: seq<Pid>)
      ensures this.zombies == zombies
    {
      this.zombies := zombies;
    }

    /** More children have exited. */
    method Dies(pids: seq<Pid>)
      modifies this
      ensures zombies == old(zombies) + pids && multiset(zombies) == multiset(old(zombies)) + multiset(pids)
    {
      zombies := zombies + pids;
    }

    /** The owner's `waitpid`: it takes the status of that child if it is there. */
    method Collect(pid: Pid) returns (found: bool)
      modifies this
      ensures found <==> pid in old(zombies)
      ensures multiset(zombies) == multiset(old(zombies)) - multiset{pid}
      ensures forall p :: p != pid && p in old(zombies) ==> p in zombies
    {
      var k := 0;
      while k < |zombies| && zombies[k] != pid
        invariant 0 <= k <= |zombies| && zombies == old(zombies)
        invariant forall l :: 0 <= l < k ==> zombies[l] != pid
      {
        k := k + 1;
      }
      found := k < |zombies|;
      if found {
        assert zombies == zombies[..k] + [pid] + zombies[k + 1..];
        zombies := zombies[..k] + zombies[k + 1..];
      }
    }

    /** One uninterrupted drain: it reaps a run of unowned zombies and stops at the first
        owned one, which it leaves in place together with everything behind it. */
    method DrainOrphans(owned: OwnedChildren) returns (reaped: seq<Pid>)
      modifies this
      ensures old(zombies) == reaped + zombies
      ensures forall k :: 0 <= k < |reaped| ==> !owned.IsOwned(reaped[k])
      ensures zombies == [] || owned.IsOwned(zombies[0])
      ensures forall p :: p in old(zombies) && owned.IsOwned(p) ==> p in zombies
      ensures owned.pids == old(owned.pids)
    {
      reaped := [];
      while zombies != []
        invariant old(zombies) == reaped + zombies
        invariant forall k :: 0 <= k < |reaped| ==> !owned.IsOwned(reaped[k])
        invariant owned.pids == old(owned.pids)
        decreases |zombies|
      {
        var peeked := zombies[0];
        if owned.IsOwned(peeked) {
          break;
        }
        reaped := reaped + [peeked];
        zombies := zombies[1..];
      }
      forall p | p in old(zombies) && owned.IsOwned(p)
        ensures p in zombies
      {
        assert p !in reaped;
      }
    }
  }

  /** `run` as far as the registry is concerned, with the reaper draining any number of times
      before and after the child exits; `early` and `late` are the orphans that die between the
      drains. The owner's wait finds its child, and the registry is left as it was. */
  method OwnedRun(
    owned: OwnedChildren, table: ProcessTable, pid: Pid, early: seq<seq<Pid>>, late: seq<seq<Pid>>)
    returns (found: bool)
    requires !owned.IsOwned(pid) && pid !in table.zombies
    requires forall k :: 0 <= k < |early| ==> pid !in early[k]
    requires forall k :: 0 <= k < |late| ==> pid !in late[k]
    modifies owned, table
    ensures found && owned.pids == old(owned.pids) && pid !in table.zombies
    ensures forall p :: p in old(table.zombies) && p in old(owned.pids) ==> p in table.zombies
  {
    owned.Register(pid);
    DrainOften(owned, table, early, pid);
    table.Dies([pid]);
    assert pid in table.zombies;
    DrainOften(owned, table, late, pid);
    found := table.Collect(pid);
    owned.Unregister(pid);
  }

  lemma AfterDrain(was: seq<Pid>, dying: seq<Pid>, reaped: seq<Pid>, left: seq<Pid>, pid: Pid)
    requires was + dying == reaped + left && pid !in dying
    ensures pid !in reaped ==> multiset(left)[pid] == multiset(was)[pid]
  {
    var w, d, r, l := multiset(was), multiset(dying), multiset(reaped), multiset(left);
    assert multiset(was + dying) == w + d && multiset(reaped + left) == r + l;
    assert (w + d)[pid] == w[pid] + d[pid] && (r + l)[pid] == r[pid] + l[pid];
    assert pid in d ==> pid in dying;
    assert pid in r ==> pid in reaped;
  }

  /** Drains keep every owned zombie, and bring nothing that did not die. */
  method DrainOften(owned: OwnedChildren, table: ProcessTable, dying: seq<seq<Pid>>, ghost pid: Pid)
    requires forall k :: 0 <= k < |dying| ==> pid !in dying[k]
    modifies table
    ensures owned.pids == old(owned.pids)
    ensures forall p :: p in old(table.zombies) && owned.IsOwned(p) ==> p in table.zombies
    ensures owned.IsOwned(pid) ==> multiset(table.zombies)[pid] == multiset(old(table.zombies))[pid]
  {
    var k := 0;
    while k < |dying|
      invariant 0 <= k <= |dying| && owned.pids == old(owned.pids)
      invariant forall p :: p in old(table.zombies) && owned.IsOwned(p) ==> p in table.zombies
      invariant owned.IsOwned(pid) ==> multiset(table.zombies)[pid] == multiset(old(table.zombies))[pid]
    {
      ghost var was := table.zombies;
      table.Dies(dying[k]);
      var reaped := table.DrainOrphans(owned);
      assert owned.IsOwned(pid) ==> pid !in reaped;
      AfterDrain(was, dying[k], reaped, table.zombies, pid);
      k := k + 1;
    }
  }

  // ------------------------------------------------------- every interleaving

  /** A child of the worker; `inst` tells apart two processes with the same PID. */
  datatype Proc = Proc(inst: nat, zombie: bool)

  /** A sandbox run: its handshake with the child it forked, and whether its wait has returned
      that child's status. */
  datatype Run = Run(pid: Pid, inst: nat, hs: H.State, collected: bool) {
    predicate Registered() { hs.parent != H.Forked }
  }

  datatype Reaper = Idle | Peeked(pid: Pid) | Cleared(pid: Pid) {
    predicate Holds(p: Pid) { !Idle? && pid == p }
  }

  datatype State = State(procs: map<Pid, Proc>, registry: set<Pid>, runs: map<nat, Run>, reaper: Reaper, next: nat)

  /** What the surroundings may do. */
  datatype Policy = Policy(
    reuseRegistered: bool,     // a fork may get a PID that is still registered
    reusePeeked: bool,         // a fork may get a PID the reaper has peeked and not yet dealt with
    faults: H.Faults)          // the steps of a handshake that may fail

  datatype Action =
    | Fork(run: nat, pid: Pid)
    | Step(run: nat, step: H.Action)    // of the handshake; the child's own exit is one
    | Collect(run: nat)                 // the owner's wait returns the status
    | DropGuard(run: nat)               // the end of the run, with the status or an error
    | Adopt(pid: Pid)                   // an orphaned grandchild is reparented to the worker
    | Exit(pid: Pid)                    // of a process that no run waits for
    | Peek(pid: Pid) | Check | Reap

  /** The process is the one the run forked. */
  predicate Mine(s: State, run: Run) { run.pid in s.procs && s.procs[run.pid].inst == run.inst }

  predicate Enabled(c: Policy, s: State, a: Action) {
    match a
    case Fork(r, p) =>
      r !in s.runs && p !in s.procs && (c.reuseRegistered || p !in s.registry) && (c.reusePeeked || !s.reaper.Holds(p))
    case Step(r, step) =>
      r in s.runs && !s.runs[r].collected && Mine(s, s.runs[r]) && H.Enabled(c.faults, s.runs[r].hs, step)
    case Collect(r) =>
      r in s.runs && !s.runs[r].collected && s.runs[r].hs.parent == H.Waits &&
      s.runs[r].pid in s.procs && s.procs[s.runs[r].pid].zombie
    case DropGuard(r) => r in s.runs && s.runs[r].hs.parent == H.Waits
    case Adopt(p) => p !in s.procs
    case Exit(p) => p in s.procs && forall r :: r in s.runs && s.runs[r].pid == p ==> s.runs[r].inst != s.procs[p].inst
    case Peek(p) => s.reaper == Idle && p in s.procs && s.procs[p].zombie
    case Check => s.reaper.Peeked?
    case Reap => s.reaper.Cleared?
  }

  /** A step of a handshake: it registers the child, returns and drops the registration, or lets
      the child exit, besides what it does to the two of them. */
  function Stepped(c: Policy, s: State, r: nat, step: H.Action): State
    requires Enabled(c, s, Step(r, step))
  {
    var run := s.runs[r];
    var hs := H.Apply(c.faults, run.hs, step);
    var procs := if hs.child == H.Exited then s.procs[run.pid := s.procs[run.pid].(zombie := true)] else s.procs;
    if hs.parent == H.Returned then s.(procs := procs, runs := s.runs - {r}, registry := s.registry - {run.pid})
    else s.(procs := procs, runs := s.runs[r := run.(hs := hs)],
            registry := if step == H.Register then s.registry + {run.pid} else s.registry)
  }

  function Apply(c: Policy, s: State, a: Action): State
    requires Enabled(c, s, a)
  {
    match a
    case Fork(r, p) =>
      s.(procs := s.procs[p := Proc(s.next, false)], runs := s.runs[r := Run(p, s.next, H.BOOT, false)],
         next := s.next + 1)
    case Step(r, step) => Stepped(c, s, r, step)
    case Collect(r) =>
      s.(procs := s.procs - {s.runs[r].pid}, runs := s.runs[r := s.runs[r].(collected := true)])
    case DropGuard(r) => s.(runs := s.runs - {r}, registry := s.registry - {s.runs[r].pid})
    case Adopt(p) => s.(procs := s.procs[p := Proc(s.next, false)], next := s.next + 1)
    case Exit(p) => s.(procs := s.procs[p := s.procs[p].(zombie := true)])
    case Peek(p) => s.(reaper := Peeked(p))
    case Check => s.(reaper := if s.reaper.pid in s.registry then Idle else Cleared(s.reaper.pid))
    case Reap =>
      var p := s.reaper.pid;
      s.(reaper := Idle, procs := if p in s.procs && s.procs[p].zombie then s.procs - {p} else s.procs)
  }

  const BOOT := State(map[], {}, map[], Idle, 0)

  function Next(c: Policy): (State, Action) -> Option<State> {
    (s: State, a: Action) => if Enabled(c, s, a) then Some(Apply(c, s, a)) else None
  }

  ghost predicate Reachable(c: Policy, s: State) { exists acts :: Runs(Next(c), BOOT, acts, s) }

  /** Every run that still has to wait finds its own child: the reaper has not consumed the
      status, and the wait can see neither ECHILD nor another process. */
  ghost predicate StatusesKept(s: State) {
    forall r :: r in s.runs && !s.runs[r].collected ==> Mine(s, s.runs[r])
  }

  /** No PID is reissued while registered or in the reaper's hand, and none of the child's own
      steps before the start fails. */
  predicate Careful(c: Policy) {
    !c.reuseRegistered && !c.reusePeeked && !c.faults.unshare && !c.faults.readyWrite && !c.faults.startRead
  }

  // ------------------------------------------------------------ the invariant

  /** What holds of each run by itself. */
  predicate RunOk(c: Policy, s: State, run: Run) {
    && H.Inv(c.faults, run.hs) && run.hs.parent != H.Returned
    && (if run.collected then run.hs.parent == H.Waits
        else Mine(s, run) && (s.procs[run.pid].zombie <==> run.hs.child == H.Exited))
    && (run.Registered() ==> run.pid in s.registry)
    && (s.reaper.Holds(run.pid) ==> run.Registered())
    && (s.reaper == Cleared(run.pid) ==> run.collected)
  }

  ghost predicate Inv(c: Policy, s: State) {
    && (forall r :: r in s.runs ==> RunOk(c, s, s.runs[r]))
    && (forall q, r :: q in s.runs && r in s.runs && q != r ==> s.runs[q].pid != s.runs[r].pid)
  }

  lemma KeepFork(c: Policy, s: State, a: Action)
    requires Careful(c) && Inv(c, s) && Enabled(c, s, a) && a.Fork?
    ensures Inv(c, Apply(c, s, a))
  {
    var s' := Apply(c, s, a);
    forall r | r in s.runs
      ensures s.runs[r].pid != a.pid && RunOk(c, s', s.runs[r])
    {
      assert RunOk(c, s, s.runs[r]);
    }
  }

  /** What a step does to its own run. */
  lemma StepIsOk(c: Policy, s: State, r: nat, step: H.Action)
    requires Careful(c) && Inv(c, s) && Enabled(c, s, Step(r, step))
    ensures r in Stepped(c, s, r, step).runs ==> RunOk(c, Stepped(c, s, r, step), Stepped(c, s, r, step).runs[r])
  {
    assert RunOk(c, s, s.runs[r]);
    H.StepKeepsInv(c.faults, s.runs[r].hs, step);
  }

  /** And that it leaves the others alone. */
  lemma StepSparesOthers(c: Policy, s: State, r: nat, step: H.Action, q: nat)
    requires Inv(c, s) && Enabled(c, s, Step(r, step)) && q in s.runs && q != r
    ensures q in Stepped(c, s, r, step).runs && Stepped(c, s, r, step).runs[q] == s.runs[q]
    ensures RunOk(c, Stepped(c, s, r, step), s.runs[q])
  {
    assert RunOk(c, s, s.runs[q]) && s.runs[q].pid != s.runs[r].pid;
  }

  lemma KeepStep(c: Policy, s: State, a: Action)
    requires Careful(c) && Inv(c, s) && Enabled(c, s, a) && a.Step?
    ensures Inv(c, Apply(c, s, a))
  {
    var s' := Apply(c, s, a);
    StepIsOk(c, s, a.run, a.step);
    forall q | q in s'.runs
      ensures RunOk(c, s', s'.runs[q]) && s'.runs[q].pid == s.runs[q].pid
    {
      if q != a.run {
        StepSparesOthers(c, s, a.run, a.step, q);
      }
    }
  }

  lemma KeepEndSteps(c: Policy, s: State, a: Action)
    requires Inv(c, s) && Enabled(c, s, a) && (a.Collect? || a.DropGuard?)
    ensures Inv(c, Apply(c, s, a))
  {
    var s' := Apply(c, s, a);
    forall q | q in s'.runs
      ensures RunOk(c, s', s'.runs[q]) && s'.runs[q].pid == s.runs[q].pid
    {
      assert RunOk(c, s, s.runs[q]) && (q != a.run ==> s.runs[q].pid != s.runs[a.run].pid);
    }
  }

  lemma KeepKernelSteps(c: Policy, s: State, a: Action)
    requires Inv(c, s) && Enabled(c, s, a) && (a.Adopt? || a.Exit?)
    ensures Inv(c, Apply(c, s, a))
  {
    forall q | q in s.runs
      ensures RunOk(c, Apply(c, s, a), s.runs[q])
    {
      assert RunOk(c, s, s.runs[q]);
    }
  }

  lemma KeepReaperSteps(c: Policy, s: State, a: Action)
    requires Careful(c) && Inv(c, s) && Enabled(c, s, a) && (a.Peek? || a.Check? || a.Reap?)
    ensures Inv(c, Apply(c, s, a))
  {
    forall q | q in s.runs
      ensures RunOk(c, Apply(c, s, a), s.runs[q])
    {
      assert RunOk(c, s, s.runs[q]);
    }
  }

  lemma StepKeepsInv(c: Policy, s: State, a: Action)
    requires Careful(c) && Inv(c, s) && Enabled(c, s, a)
    ensures Inv(c, Apply(c, s, a))
  {
    match a
    case Fork(_, _) => KeepFork(c, s, a);
    case Step(_, _) => KeepStep(c, s, a);
    case Collect(_) => KeepEndSteps(c, s, a);
    case DropGuard(_) => KeepEndSteps(c, s, a);
    case Adopt(_) => KeepKernelSteps(c, s, a);
    case Exit(_) => KeepKernelSteps(c, s, a);
    case _ => KeepReaperSteps(c, s, a);
  }

  lemma ReachableInv(c: Policy, s: State)
    requires Careful(c) && Reachable(c, s)
    ensures Inv(c, s)
  {
    var acts :| Runs(Next(c), BOOT, acts, s);
    forall t, a | Inv(c, t) && Next(c)(t, a).Some?
      ensures Inv(c, Next(c)(t, a).value)
    {
      StepKeepsInv(c, t, a);
    }
    Invariant(Next(c), t => Inv(c, t), BOOT, acts, s);
  }

  // ------------------------------------------------------ the three hazards

  lemma ReachNext(c: Policy, s: State, a: Action) returns (s': State)
    requires Reachable(c, s) && Enabled(c, s, a)
    ensures s' == Apply(c, s, a) && Reachable(c, s')
  {
    s' := Apply(c, s, a);
    var acts :| Runs(Next(c), BOOT, acts, s);
    Snoc(Next(c), BOOT, acts, s, a);
  }

  lemma ForkFirst(c: Policy) returns (s: State)
    ensures Reachable(c, s) && s == State(map[1 := Proc(0, false)], {}, map[0 := Run(1, 0, H.BOOT, false)], Idle, 1)
  {
    assert Runs(Next(c), BOOT, [], BOOT);
    s := ReachNext(c, BOOT, Fork(0, 1));
  }

  /** The reaper takes a zombie it has cleared, while the run `r` still waits for it. */
  lemma ClearedIsStolen(c: Policy, s: State, r: nat)
    requires Reachable(c, s) && r in s.runs && !s.runs[r].collected && Mine(s, s.runs[r])
    requires s.procs[s.runs[r].pid].zombie && s.reaper == Cleared(s.runs[r].pid)
    ensures exists t :: Reachable(c, t) && !StatusesKept(t)
  {
    var t := ReachNext(c, s, Reap);
    assert r in t.runs && !t.runs[r].collected && !Mine(t, t.runs[r]);
  }

  /** It clears any zombie that is not registered. */
  lemma UnregisteredIsStolen(c: Policy, s: State, r: nat)
    requires Reachable(c, s) && r in s.runs && !s.runs[r].collected && Mine(s, s.runs[r])
    requires s.procs[s.runs[r].pid].zombie && s.reaper == Idle && s.runs[r].pid !in s.registry
    ensures exists t :: Reachable(c, t) && !StatusesKept(t)
  {
    var t := ReachNext(c, s, Peek(s.runs[r].pid));
    t := ReachNext(c, t, Check);
    ClearedIsStolen(c, t, r);
  }

  /** A child that exits before it is registered, because one of its own steps fails, is an
      orphan to the reaper. */
  lemma EarlyExitIsStolen(c: Policy)
    requires c.faults.unshare || c.faults.readyWrite || c.faults.startRead
    ensures exists s :: Reachable(c, s) && !StatusesKept(s)
  {
    var s := ForkFirst(c);
    if c.faults.unshare {
      s := ReachNext(c, s, Step(0, H.UnshareFails));
    } else {
      s := ReachNext(c, s, Step(0, H.Unshare));
      if c.faults.readyWrite {
        s := ReachNext(c, s, Step(0, H.SignalReadyFails));
      } else {
        s := ReachNext(c, s, Step(0, H.SignalReady));
        s := ReachNext(c, s, Step(0, H.ReadStartFails));
      }
    }
    UnregisteredIsStolen(c, s, 0);
  }

  /** `s` with the handshake of run `r` at `hs`. */
  function At(s: State, r: nat, hs: H.State): State
    requires r in s.runs
  {
    s.(runs := s.runs[r := s.runs[r].(hs := hs)])
  }

  lemma Advance(c: Policy, s: State, r: nat, hs: H.State, step: H.Action) returns (hs': H.State)
    requires r in s.runs && Reachable(c, At(s, r, hs)) && !s.runs[r].collected && Mine(s, s.runs[r])
    requires H.Enabled(c.faults, hs, step) && step != H.Register
    requires H.Apply(c.faults, hs, step).child != H.Exited && H.Apply(c.faults, hs, step).parent != H.Returned
    ensures hs' == H.Apply(c.faults, hs, step) && Reachable(c, At(s, r, hs'))
  {
    hs' := H.Apply(c.faults, hs, step);
    var s' := ReachNext(c, At(s, r, hs), Step(r, step));
    assert s' == At(s, r, hs');
  }

  const ASKING := H.State(H.Asking, H.Forked, true, false, false, false, false)
  const ON := H.State(H.GoneOn, H.Waits, true, true, true, true, true)

  lemma ToAsking(c: Policy, s: State, r: nat)
    requires Reachable(c, s) && r in s.runs && !s.runs[r].collected && Mine(s, s.runs[r]) && s.runs[r].hs == H.BOOT
    ensures Reachable(c, At(s, r, ASKING))
  {
    assert At(s, r, H.BOOT) == s;
    var hs := Advance(c, s, r, H.BOOT, H.Unshare);
    hs := Advance(c, s, r, hs, H.SignalReady);
  }

  lemma FromRegistered(c: Policy, s: State, r: nat, hs0: H.State)
    requires r in s.runs && !s.runs[r].collected && Mine(s, s.runs[r])
    requires hs0 == ASKING.(parent := H.Registered) && Reachable(c, At(s, r, hs0))
    ensures Reachable(c, At(s, r, ON))
  {
    var hs := Advance(c, s, r, hs0, H.ReadReady);
    hs := Advance(c, s, r, hs, H.WriteMaps);
    hs := Advance(c, s, r, hs, H.Attach);
    hs := Advance(c, s, r, hs, H.WriteStart);
    hs := Advance(c, s, r, hs, H.ReadStart);
  }

  /** A run from the fork to its child's exit, with nothing going wrong. */
  lemma RunThrough(c: Policy, s0: State, r: nat, run: Run) returns (s: State)
    requires Reachable(c, s0) && r in s0.runs && s0.runs[r] == run
    requires !run.collected && Mine(s0, run) && run.hs == H.BOOT
    ensures Reachable(c, s)
    ensures s == s0.(runs := s0.runs[r := run.(hs := ON.(child := H.Exited))],
                     procs := s0.procs[run.pid := Proc(run.inst, true)], registry := s0.registry + {run.pid})
  {
    ToAsking(c, s0, r);
    var hs1 := ASKING.(parent := H.Registered);
    s := ReachNext(c, At(s0, r, ASKING), Step(r, H.Register));
    var s1 := s0.(registry := s0.registry + {run.pid});
    assert s == At(s1, r, hs1);
    FromRegistered(c, s1, r, hs1);
    s := ReachNext(c, At(s1, r, ON), Step(r, H.ChildEnds));
  }

  lemma FirstExits(c: Policy) returns (s: State)
    ensures Reachable(c, s)
    ensures s == State(map[1 := Proc(0, true)], {1}, map[0 := Run(1, 0, ON.(child := H.Exited), false)], Idle, 1)
  {
    s := ForkFirst(c);
    s := RunThrough(c, s, 0, Run(1, 0, H.BOOT, false));
    assert {} + {1} == {1};
  }

  /** The owner reaps and leaves between the reaper's peek and its registry check; the PID is
      reissued before the reaper's wait, which then takes the new child's status. The PID was
      never reissued while registered. */
  lemma PeekedPidIsStolen(c: Policy)
    requires c.reusePeeked
    ensures exists s :: Reachable(c, s) && !StatusesKept(s)
  {
    var s := FirstExits(c);
    s := ReachNext(c, s, Peek(1));
    s := ReachNext(c, s, Collect(0));
    s := ReachNext(c, s, DropGuard(0));
    s := ReachNext(c, s, Check);
    s := ReachNext(c, s, Fork(1, 1));
    s := RunThrough(c, s, 1, Run(1, 1, H.BOOT, false));
    ClearedIsStolen(c, s, 1);
  }

  /** A PID reissued while the first guard is still held loses its registration when that
      guard drops. */
  lemma RegisteredPidIsStolen(c: Policy)
    requires c.reuseRegistered
    ensures exists s :: Reachable(c, s) && !StatusesKept(s)
  {
    var s := FirstExits(c);
    s := ReachNext(c, s, Collect(0));
    s := ReachNext(c, s, Fork(1, 1));
    s := RunThrough(c, s, 1, Run(1, 1, H.BOOT, false));
    s := ReachNext(c, s, DropGuard(0));
    UnregisteredIsStolen(c, s, 1);
  }

  /** The reaper never consumes an owned child's status exactly when no PID is reissued while
      registered, none while the reaper has it in hand, and none of the child's own steps of the
      handshake fails. What the parent's steps do makes no difference. */
  lemma StatusesKeptExactly(c: Policy)
    ensures (forall s :: Reachable(c, s) ==> StatusesKept(s)) <==> Careful(c)
  {
    if c.faults.unshare || c.faults.readyWrite || c.faults.startRead {
      EarlyExitIsStolen(c);
    } else if c.reusePeeked {
      PeekedPidIsStolen(c);
    } else if c.reuseRegistered {
      RegisteredPidIsStolen(c);
    } else {
      forall s | Reachable(c, s)
        ensures StatusesKept(s)
      {
        ReachableInv(c, s);
        assert forall r :: r in s.runs ==> RunOk(c, s, s.runs[r]);
      }
    }
  }

  // ------------------------------------------------- what the reaper is there for

  /** Registered is who has a run to wait for it. */
  ghost predicate RegistryOk(s: State) {
    forall p :: p in s.registry ==> exists r :: r in s.runs && s.runs[r].pid == p && s.runs[r].Registered()
  }

  lemma NobodyForksAgain(f: H.Faults, hs: H.State, step: H.Action)
    requires hs.parent != H.Forked && H.Enabled(f, hs, step)
    ensures H.Apply(f, hs, step).parent != H.Forked
  {
  }

  /** A step that does not end a registered run leaves it registered. */
  lemma StaysRegistered(c: Policy, s: State, a: Action, r: nat)
    requires Inv(c, s) && Enabled(c, s, a) && r in s.runs && s.runs[r].Registered()
    requires s.runs[r].pid in Apply(c, s, a).registry
    ensures
      var s' := Apply(c, s, a);
      r in s'.runs && s'.runs[r].pid == s.runs[r].pid && s'.runs[r].Registered()
  {
    var s' := Apply(c, s, a);
    if a.Step? && a.run == r {
      NobodyForksAgain(c.faults, s.runs[r].hs, a.step);
    } else if !a.Collect? || a.run != r {
      assert r in s'.runs && s'.runs[r] == s.runs[r];
    }
  }

  lemma StepKeepsRegistry(c: Policy, s: State, a: Action)
    requires Inv(c, s) && RegistryOk(s) && Enabled(c, s, a)
    ensures RegistryOk(Apply(c, s, a))
  {
    var s' := Apply(c, s, a);
    forall p | p in s'.registry
      ensures exists r :: r in s'.runs && s'.runs[r].pid == p && s'.runs[r].Registered()
    {
      if p in s.registry {
        var r :| r in s.runs && s.runs[r].pid == p && s.runs[r].Registered();
        StaysRegistered(c, s, a, r);
      } else {
        assert s'.runs[a.run].pid == p && s'.runs[a.run].Registered();
      }
    }
  }

  /** The registry holds exactly the children that a run has registered and not yet let go: no
      end of a run, early or not, leaves its child behind in it. */
  lemma RegistryExactly(c: Policy, s: State, p: Pid)
    requires Careful(c) && Reachable(c, s)
    ensures p in s.registry <==> exists r :: r in s.runs && s.runs[r].pid == p && s.runs[r].Registered()
  {
    var acts :| Runs(Next(c), BOOT, acts, s);
    forall t, a | Inv(c, t) && RegistryOk(t) && Next(c)(t, a).Some?
      ensures Inv(c, Next(c)(t, a).value) && RegistryOk(Next(c)(t, a).value)
    {
      StepKeepsInv(c, t, a);
      StepKeepsRegistry(c, t, a);
    }
    Invariant(Next(c), t => Inv(c, t) && RegistryOk(t), BOOT, acts, s);
    assert forall r :: r in s.runs ==> RunOk(c, s, s.runs[r]);
  }

  ghost predicate ProcsNumbered(s: State) {
    && (forall p :: p in s.procs ==> s.procs[p].inst < s.next)
    && (forall p, q :: p in s.procs && q in s.procs && p != q ==> s.procs[p].inst != s.procs[q].inst)
  }

  ghost predicate RunsNumbered(s: State) {
    && (forall r :: r in s.runs ==> s.runs[r].inst < s.next)
    && (forall q, r :: q in s.runs && r in s.runs && q != r ==> s.runs[q].inst != s.runs[r].inst)
  }

  ghost predicate Numbered(s: State) { ProcsNumbered(s) && RunsNumbered(s) }

  lemma StepKeepsProcNumbers(c: Policy, s: State, a: Action)
    requires ProcsNumbered(s) && Enabled(c, s, a)
    ensures ProcsNumbered(Apply(c, s, a))
  {
    var s' := Apply(c, s, a);
    if a.Fork? || a.Adopt? {
      assert s'.next == s.next + 1 && s'.procs == s.procs[a.pid := Proc(s.next, false)];
    } else {
      assert s'.next == s.next;
      assert forall p :: p in s'.procs ==> p in s.procs && s'.procs[p].inst == s.procs[p].inst;
    }
  }

  lemma StepKeepsRunNumbers(c: Policy, s: State, a: Action)
    requires RunsNumbered(s) && Enabled(c, s, a)
    ensures RunsNumbered(Apply(c, s, a))
  {
    var s' := Apply(c, s, a);
    if a.Fork? {
      assert s'.next == s.next + 1 && s'.runs == s.runs[a.run := Run(a.pid, s.next, H.BOOT, false)];
    } else {
      assert s'.next >= s.next;
      assert forall r :: r in s'.runs ==> r in s.runs && s'.runs[r].inst == s.runs[r].inst;
    }
  }

  /** Whatever PIDs are reissued, no two processes and no two runs have the same number. */
  lemma ProcessesAreNumberedApart(c: Policy, s: State)
    requires Reachable(c, s)
    ensures Numbered(s)
  {
    var acts :| Runs(Next(c), BOOT, acts, s);
    forall t, a | Numbered(t) && Next(c)(t, a).Some?
      ensures Numbered(Next(c)(t, a).value)
    {
      StepKeepsProcNumbers(c, t, a);
      StepKeepsRunNumbers(c, t, a);
    }
    Invariant(Next(c), Numbered, BOOT, acts, s);
  }

  /** One turn of the reaper on a zombie: gone if nobody has registered it, and everything as it
      was otherwise. */
  lemma ReaperTurn(c: Policy, s: State, p: Pid) returns (s': State)
    requires Reachable(c, s) && s.reaper == Idle && p in s.procs && s.procs[p].zombie
    ensures Reachable(c, s')
    ensures s' == if p in s.registry then s else s.(procs := s.procs - {p})
  {
    s' := ReachNext(c, s, Peek(p));
    s' := ReachNext(c, s', Check);
    if p !in s.registry {
      s' := ReachNext(c, s', Reap);
    }
  }

  /** An orphan that comes to the worker and exits leaves no trace. */
  lemma OrphansAreReaped(c: Policy, s: State, p: Pid) returns (s': State)
    requires Reachable(c, s) && s.reaper == Idle && p !in s.procs && p !in s.registry
    ensures Reachable(c, s') && s' == s.(next := s'.next) && s'.next > s.next
  {
    ProcessesAreNumberedApart(c, s);
    s' := ReachNext(c, s, Adopt(p));
    s' := ReachNext(c, s', Exit(p));
    s' := ReaperTurn(c, s', p);
    assert s'.procs == s.procs;
  }

  /** So does a child whose run returned early, before it waits: it is not registered any more. */
  lemma AbandonedChildIsReaped(c: Policy, s: State, r: nat) returns (s': State)
    requires Careful(c) && Reachable(c, s) && s.reaper == Idle && r in s.runs && !s.runs[r].collected
    requires c.faults.attach && s.runs[r].hs.parent == H.MapsTried && s.runs[r].hs.child == H.Asking
    ensures Reachable(c, s') && r !in s'.runs && s.runs[r].pid !in s'.procs && s.runs[r].pid !in s'.registry
    ensures s' == s.(runs := s.runs - {r}, procs := s.procs - {s.runs[r].pid}, registry := s.registry - {s.runs[r].pid})
  {
    ReachableInv(c, s);
    assert RunOk(c, s, s.runs[r]);
    ProcessesAreNumberedApart(c, s);
    var p := s.runs[r].pid;
    s' := ReachNext(c, s, Step(r, H.AttachFails));
    s' := ReachNext(c, s', Exit(p));
    s' := ReaperTurn(c, s', p);
    assert s'.procs == s.procs - {p};
  }
}
