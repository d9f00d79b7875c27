/** The order in which the memory semaphore of the admission protocol serves its tasks. */
module Fairness {
  import opened Admission
  import opened Traces
  import opened Wrappers

  /** When the task asked for its memory, counted in steps. */
  function AskedAt(acts: seq<Action>, i: nat): nat {
    if acts == [] then 0
    else if acts[|acts| - 1] == AskMemory(i) then |acts|
    else AskedAt(acts[..|acts| - 1], i)
  }

  predicate Served(p: Phase) { p != Spawned && p != Waiting }

  /** Who got memory asked before everybody who waits, and those wait in the order they asked. */
  ghost predicate InTurn(asked: nat -> nat, tasks: seq<Task>, waiters: seq<nat>) {
    && (forall k, l :: 0 <= k < l < |waiters| ==> asked(waiters[k]) < asked(waiters[l]))
    && (forall i, k :: 0 <= i < |tasks| && Served(tasks[i].phase) && 0 <= k < |waiters| ==>
          asked(i) < asked(waiters[k]))
  }

  ghost predicate TurnsMatch(acts: seq<Action>, s: State) {
    InTurn(i => AskedAt(acts, i), s.tasks, s.waiters) &&
    forall i :: AskedAt(acts, i) <= |acts|
  }

  lemma {:induction false} GrantKeepsTurns(c: Config, asked: nat -> nat, s: State)
    requires WellFormed(c, s) && InTurn(asked, s.tasks, s.waiters)
    ensures InTurn(asked, Grant(s).tasks, Grant(s).waiters)
    decreases |s.waiters|
  {
    if s.waiters != [] && s.tasks[s.waiters[0]].want <= s.memFree {
      GrantOne(c, s);
      GrantKeepsTurns(c, asked, HandOver(s));
    }
  }

  lemma AskKeepsTurns(c: Config, acts: seq<Action>, s: State, i: nat)
    requires Inv(c, s) && InPhase(s, i, Spawned) && TurnsMatch(acts, s)
    ensures TurnsMatch(acts + [AskMemory(i)], Apply(c, s, AskMemory(i)))
  {
    var acts' := acts + [AskMemory(i)];
    assert acts'[..|acts|] == acts;
    forall k: nat
      ensures AskedAt(acts', k) == if k == i then |acts| + 1 else AskedAt(acts, k)
    {
    }
  }

  /** Only the task that asks joins the queue, and only the queue's head leaves it. */
  lemma OthersKeepTurns(asked: nat -> nat, later: nat -> nat, s: State, s': State)
    requires InTurn(asked, s.tasks, s.waiters) && s'.waiters == s.waiters && forall i :: asked(i) == later(i)
    requires forall i :: 0 <= i < |s'.tasks| && Served(s'.tasks[i].phase) ==>
               i < |s.tasks| && Served(s.tasks[i].phase)
    ensures InTurn(later, s'.tasks, s'.waiters)
  {
  }

  lemma StepKeepsTurns(c: Config, acts: seq<Action>, s: State, a: Action)
    requires c.Valid() && Inv(c, s) && Enabled(c, s, a) && TurnsMatch(acts, s)
    ensures TurnsMatch(acts + [a], Apply(c, s, a))
  {
    if a.AskMemory? {
      AskKeepsTurns(c, acts, s, a.i);
    } else {
      forall i: nat
        ensures AskedAt(acts + [a], i) == AskedAt(acts, i)
      {
      }
      var asked, later := (i: nat) => AskedAt(acts, i), (i: nat) => AskedAt(acts + [a], i);
      if a.ReleaseMemory? {
        KeepReturned(c, s, a.i);
        OthersKeepTurns(asked, later, s, Returned(s, a.i));
        GrantKeepsTurns(c, later, Returned(s, a.i));
      } else {
        OthersKeepTurns(asked, later, s, Apply(c, s, a));
      }
    }
  }

  lemma RunKeepsTurns(c: Config, s0: State, acts: seq<Action>, s: State)
    requires c.Valid() && Init(c, s0) && Runs(Next(c), s0, acts, s)
    ensures Inv(c, s) && TurnsMatch(acts, s)
  {
    forall past, t, a | Inv(c, t) && TurnsMatch(past, t) && Next(c)(t, a).Some?
      ensures Inv(c, Next(c)(t, a).value) && TurnsMatch(past + [a], Next(c)(t, a).value)
    {
      StepKeepsInv(c, t, a);
      StepKeepsTurns(c, past, t, a);
    }
    assert Inv(c, s0) && TurnsMatch([], s0);
    InvariantOfPast(Next(c), (past, t) => Inv(c, t) && TurnsMatch(past, t), [], s0, acts, s);
    assert [] + acts == acts;
  }

  /** Memory is handed out in turn: in every run, no job has got its memory that asked later than
      one still waiting, however little it needs. */
  lemma NobodyOvertakes(c: Config, acts: seq<Action>, s: State, i: nat, j: nat)
    requires c.Valid() && RunTo(c, acts, s) && InPhase(s, i, Waiting) && j < |s.tasks| && Served(s.tasks[j].phase)
    ensures AskedAt(acts, j) < AskedAt(acts, i)
  {
    var s0 :| Init(c, s0) && Runs(Next(c), s0, acts, s);
    RunKeepsTurns(c, s0, acts, s);
    var k :| 0 <= k < |s.waiters| && s.waiters[k] == i;
  }
}
