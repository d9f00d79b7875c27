/** Claims and live executors over the table: when the sweeper may hand a row to a second
    worker while the first is still running it. */
module Executors {
  import opened Wrappers
  import opened Status
  import opened Table
  import opened Traces
  import WallBudget

  /** What a worker is doing with its claim since `since`: waiting for a sandbox child, or
      anything else, the wait for memory included. */
  datatype Stretch = Outside(since: int) | Waiting(since: int)

  /** A worker between its claim and its terminal write: `used` is the time spent outside the
      wait loops before the present stretch, `waited` the time in the `waits` begun so far. */
  datatype Exec = Exec(token: Token, claimedAt: int, wallLimit: nat, used: int, waits: nat, waited: int, at: Stretch)

  datatype Sys = Sys(now: int, db: Db, live: map<nat, Exec>)

  /** A deployment: the time a claim may spend outside the wait loops, the compile phase of its
      languages, the largest wall limit the API lets through, the gap between two polls, and the
      time a killed child takes to be reaped. */
  datatype Config = Config(
    outside: nat, compiles: bool, compileLimit: Option<nat>, maxWall: nat, delta: nat, reap: nat)
  {
    predicate Valid() { maxWall >= 1 && delta >= 1 }
  }

  datatype Action =
    | Submit(t: Token, language: nat, source: string, stdin: Option<string>, wallLimit: nat)
    | Start(id: nat, t: Token, worker: string)      // claim_next succeeds
    | BeginWait(id: nat) | EndWait(id: nat)         // an attempt enters and leaves its wait loop
    | Finish(id: nat, o: Outcome)                   // write_result succeeds
    | FinishFailed(id: nat)                         // write_sandbox_failure succeeds
    | Vanish(id: nat)                               // crash, or neither write succeeded
    | Tick(dt: nat)
    | SweepNow | ScrubNow(ttl: nat) | ExpireNow(ttl: nat)
  {
    predicate IsStatement() { Submit? || Start? || Finish? || FinishFailed? || SweepNow? || ScrubNow? || ExpireNow? }
  }

  // ---------------------------------------------------------- budgets in time

  function BudgetFor(c: Config, wallLimit: nat): WallBudget.Budget {
    WallBudget.BudgetOf(0, c.compiles, c.compileLimit, wallLimit)
  }

  function WaitLimit(c: Config, wallLimit: nat): int {
    var b := BudgetFor(c, wallLimit);
    c.reap + if c.compiles then b.compileWall + b.runWall + 2 * c.delta - 2 else b.compileWall + c.delta - 1
  }

  /** The limit on a stretch of waiting is what the wait loop's budgets make it: no more and
      no less. */
  lemma WaitLimitExactly(c: Config, wallLimit: nat, limit: int)
    requires c.Valid() && wallLimit >= 1
    ensures WallBudget.WaitsFit(BudgetFor(c, wallLimit), c.compiles, c.delta, c.reap, limit) <==>
            WaitLimit(c, wallLimit) <= limit
  {
    WallBudget.LongestWaitExactly(BudgetFor(c, wallLimit), c.compiles, c.delta, c.reap, limit);
  }

  predicate MayLast(c: Config, e: Exec, now: int) {
    match e.at
    case Outside(since) => e.used + (now - since) <= c.outside
    case Waiting(since) => now - since <= WaitLimit(c, e.wallLimit)
  }

  /** How far two attempts at the largest wall limit can exceed twice that limit. */
  function Slack(c: Config): int { c.outside + 2 * (WaitLimit(c, c.maxWall) - c.maxWall) }

  /** Spelled out: without a compile phase the time outside, two polls and two reapings, with one
      also both compile budgets and two more polls. */
  lemma SlackIs(c: Config)
    ensures !c.compiles ==> Slack(c) == c.outside + 2 * c.delta + 2 * c.reap - 2
    ensures c.compiles ==>
      Slack(c) == c.outside + 2 * BudgetFor(c, c.maxWall).compileWall + 4 * c.delta + 2 * c.reap - 4
  {
  }

  // ------------------------------------------------------------- the system

  /** The statement an action runs. */
  function OpOf(s: Sys, a: Action): Op
    requires a.IsStatement()
    requires a.Finish? || a.FinishFailed? ==> a.id in s.live
  {
    match a
    case Submit(t, l, src, x, w) => Insert(t, l, src, x, w, s.now)
    case Start(_, t, w) => Claim(t, w, s.now)
    case Finish(id, o) => Write(s.live[id].token, o, s.now)
    case FinishFailed(id) => Fail(s.live[id].token, s.now)
    case SweepNow => Sweep(s.now)
    case ScrubNow(ttl) => Scrub(ttl, s.now)
    case ExpireNow(ttl) => Expire(ttl, s.now)
  }

  predicate Enabled(c: Config, s: Sys, a: Action) {
    match a
    case Tick(dt) => forall id :: id in s.live ==> MayLast(c, s.live[id], s.now + dt)
    case Vanish(id) => id in s.live
    case BeginWait(id) => id in s.live && s.live[id].at.Outside? && s.live[id].waits < 2
    case EndWait(id) => id in s.live && s.live[id].at.Waiting?
    case Finish(id, _) => id in s.live && s.live[id].at.Outside? && Allowed(s.db, OpOf(s, a))
    case FinishFailed(id) => id in s.live && s.live[id].at.Outside?
    case Start(id, _, _) => id !in s.live && Allowed(s.db, OpOf(s, a))
    case Submit(_, _, _, _, w) => 1 <= w <= c.maxWall && Allowed(s.db, OpOf(s, a))
    case _ => Allowed(s.db, OpOf(s, a))
  }

  /** The claim as it enters or leaves a wait loop now. */
  function Begun(e: Exec, now: int): Exec {
    e.(used := e.used + (now - e.at.since), waits := e.waits + 1, at := Waiting(now))
  }

  function Ended(e: Exec, now: int): Exec {
    e.(waited := e.waited + (now - e.at.since), at := Outside(now))
  }

  function Apply(c: Config, s: Sys, a: Action): Sys
    requires Enabled(c, s, a)
  {
    match a
    case Tick(dt) => s.(now := s.now + dt)
    case Vanish(id) => s.(live := s.live - {id})
    case BeginWait(id) => s.(live := s.live[id := Begun(s.live[id], s.now)])
    case EndWait(id) => s.(live := s.live[id := Ended(s.live[id], s.now)])
    case Finish(id, _) => s.(db := Do(s.db, OpOf(s, a)), live := s.live - {id})
    case FinishFailed(id) => s.(db := Do(s.db, OpOf(s, a)), live := s.live - {id})
    case Start(id, t, _) =>
      s.(db := Do(s.db, OpOf(s, a)), live := s.live[id := Claiming(t, s.now, s.db.rows[t].wallLimit)])
    case _ => s.(db := Do(s.db, OpOf(s, a)))
  }

  function Claiming(t: Token, now: int, wallLimit: nat): Exec { Exec(t, now, wallLimit, 0, 0, 0, Outside(now)) }

  function Next(c: Config): (Sys, Action) -> Option<Sys> {
    (s: Sys, a: Action) => if Enabled(c, s, a) then Some(Apply(c, s, a)) else None
  }

  const BOOT := Sys(0, Db(map[], map[]), map[])

  ghost predicate Reachable(c: Config, s: Sys) { exists acts :: Runs(Next(c), BOOT, acts, s) }

  /** No token has two executors, and every executor still holds its own claim. */
  ghost predicate SingleExecutor(s: Sys) {
    && (forall i, j :: i in s.live && j in s.live && i != j ==> s.live[i].token != s.live[j].token)
    && (forall i :: i in s.live ==> HoldsClaim(s, s.live[i]))
  }

  predicate HoldsClaim(s: Sys, e: Exec) {
    e.token in s.db.rows &&
    var r := s.db.rows[e.token];
    r.status == Processing && r.claimedAt == Some(e.claimedAt) && r.wallLimit == e.wallLimit
  }

  // ----------------------------------------------- how long an execution lasts

  /** The stretches of an execution add up to its age, and each keeps to its limit. */
  ghost predicate Clocked(c: Config, e: Exec, now: int) {
    && 1 <= e.wallLimit <= c.maxWall && e.at.since <= now && e.waits <= 2
    && e.claimedAt + e.used + e.waited == e.at.since
    && MayLast(c, e, now)
    && e.used <= c.outside
    && e.waited <= (if e.at.Waiting? then e.waits - 1 else e.waits) * WaitLimit(c, e.wallLimit)
    && (e.at.Waiting? ==> e.waits >= 1)
  }

  predicate WithinBound(c: Config, e: Exec, now: int) { now - e.claimedAt <= Slack(c) + 2 * e.wallLimit }

  lemma WaitLimitIsPositive(c: Config, wallLimit: nat)
    requires c.Valid() && wallLimit >= 1
    ensures WaitLimit(c, wallLimit) >= 1
  {
  }

  lemma AtMostTwice(n: int, limit: int)
    requires 0 <= n <= 2 && limit >= 0
    ensures n * limit <= 2 * limit && (n <= 1 ==> n * limit + limit <= 2 * limit)
  {
    assert n == 0 || n == 1 || n == 2;
  }

  /** Two attempts and the time outside them are all an execution has. */
  lemma ClockedIsWithinBound(c: Config, e: Exec, now: int)
    requires c.Valid() && Clocked(c, e, now)
    ensures WithinBound(c, e, now)
  {
    var limit := WaitLimit(c, e.wallLimit);
    WaitLimitIsPositive(c, e.wallLimit);
    AtMostTwice(if e.at.Waiting? then e.waits - 1 else e.waits, limit);
  }

  lemma BegunIsClocked(c: Config, e: Exec, now: int)
    requires c.Valid() && Clocked(c, e, now) && e.at.Outside? && e.waits < 2
    ensures Clocked(c, Begun(e, now), now)
  {
    WaitLimitIsPositive(c, e.wallLimit);
  }

  lemma EndedIsClocked(c: Config, e: Exec, now: int)
    requires c.Valid() && Clocked(c, e, now) && e.at.Waiting?
    ensures Clocked(c, Ended(e, now), now)
  {
    assert (e.waits - 1) * WaitLimit(c, e.wallLimit) + WaitLimit(c, e.wallLimit) == e.waits * WaitLimit(c, e.wallLimit);
  }

  ghost predicate LimitsInRange(c: Config, rows: Rows) {
    forall t :: t in rows ==> 1 <= rows[t].wallLimit <= c.maxWall
  }

  ghost predicate Inv(c: Config, s: Sys) {
    && TableInv(s.db) && LimitsInRange(c, s.db.rows)
    && (forall i :: i in s.live ==> Clocked(c, s.live[i], s.now))
    && (Slack(c) <= 60000 ==> SingleExecutor(s))
  }

  // ------------------------------------------------------------ the invariant

  lemma LimitsStay(c: Config, db: Db, op: Op)
    requires LimitsInRange(c, db.rows) && Allowed(db, op) && (op.Insert? ==> 1 <= op.wallLimit <= c.maxWall)
    ensures LimitsInRange(c, Do(db, op).rows)
  {
  }

  lemma LiveRowUntouched(c: Config, s: Sys, a: Action, e: Exec)
    requires c.Valid() && Slack(c) <= 60000 && Enabled(c, s, a) && Clocked(c, e, s.now) && HoldsClaim(s, e)
    requires TableInv(s.db)
    requires a.Submit? || a.SweepNow? || a.ScrubNow? || a.ExpireNow? || a.Start?
    ensures HoldsClaim(Apply(c, s, a), e)
  {
    ClockedIsWithinBound(c, e, s.now);
    assert RowOk(s.db.rows[e.token], s.db.origin[e.token]);
  }

  lemma KeepDatabaseStep(c: Config, s: Sys, a: Action)
    requires c.Valid() && Inv(c, s) && Enabled(c, s, a)
    requires a.Submit? || a.SweepNow? || a.ScrubNow? || a.ExpireNow?
    ensures Inv(c, Apply(c, s, a))
  {
    StepKeepsTable(s.db, OpOf(s, a));
    LimitsStay(c, s.db, OpOf(s, a));
    if Slack(c) <= 60000 {
      forall i | i in s.live
        ensures HoldsClaim(Apply(c, s, a), s.live[i])
      {
        LiveRowUntouched(c, s, a, s.live[i]);
      }
    }
  }

  lemma KeepStart(c: Config, s: Sys, a: Action)
    requires c.Valid() && Inv(c, s) && Enabled(c, s, a) && a.Start?
    ensures Inv(c, Apply(c, s, a))
  {
    StepKeepsTable(s.db, OpOf(s, a));
    LimitsStay(c, s.db, OpOf(s, a));
    var s' := Apply(c, s, a);
    assert Clocked(c, s'.live[a.id], s.now);
    if Slack(c) <= 60000 {
      forall i | i in s.live
        ensures HoldsClaim(s', s.live[i]) && s.live[i].token != a.t
      {
        assert HoldsClaim(s, s.live[i]);
        LiveRowUntouched(c, s, a, s.live[i]);
      }
      assert HoldsClaim(s', s'.live[a.id]);
    }
  }

  /** An execution ends, and at most its own row has changed. */
  lemma LiveRowsStay(s: Sys, id: nat, db: Db)
    requires SingleExecutor(s) && id in s.live
    requires forall t :: t in s.db.rows && t != s.live[id].token ==> t in db.rows && db.rows[t] == s.db.rows[t]
    ensures SingleExecutor(s.(db := db, live := s.live - {id}))
  {
    var s' := s.(db := db, live := s.live - {id});
    forall i | i in s'.live
      ensures HoldsClaim(s', s'.live[i])
    {
      assert HoldsClaim(s, s.live[i]) && s.live[i].token != s.live[id].token;
    }
  }

  lemma KeepFinish(c: Config, s: Sys, a: Action)
    requires Inv(c, s) && Enabled(c, s, a) && (a.Finish? || a.FinishFailed?)
    ensures Inv(c, Apply(c, s, a))
  {
    StepKeepsTable(s.db, OpOf(s, a));
    LimitsStay(c, s.db, OpOf(s, a));
    if Slack(c) <= 60000 {
      LiveRowsStay(s, a.id, Do(s.db, OpOf(s, a)));
    }
  }

  lemma KeepVanish(c: Config, s: Sys, id: nat)
    requires Inv(c, s) && id in s.live
    ensures Inv(c, s.(live := s.live - {id}))
  {
    if Slack(c) <= 60000 {
      LiveRowsStay(s, id, s.db);
    }
  }

  /** Only the stretches of one execution change. */
  lemma SameClaims(s: Sys, id: nat, e: Exec)
    requires SingleExecutor(s) && id in s.live
    requires e.token == s.live[id].token && e.claimedAt == s.live[id].claimedAt && e.wallLimit == s.live[id].wallLimit
    ensures SingleExecutor(s.(live := s.live[id := e]))
  {
    var s' := s.(live := s.live[id := e]);
    forall i | i in s'.live
      ensures HoldsClaim(s', s'.live[i]) && s'.live[i].token == s.live[i].token
    {
      assert HoldsClaim(s, s.live[i]);
    }
  }

  lemma KeepWaitStep(c: Config, s: Sys, a: Action)
    requires c.Valid() && Inv(c, s) && Enabled(c, s, a) && (a.BeginWait? || a.EndWait?)
    ensures Inv(c, Apply(c, s, a))
  {
    var e := s.live[a.id];
    var e' := if a.BeginWait? then Begun(e, s.now) else Ended(e, s.now);
    if a.BeginWait? {
      BegunIsClocked(c, e, s.now);
    } else {
      EndedIsClocked(c, e, s.now);
    }
    if Slack(c) <= 60000 {
      SameClaims(s, a.id, e');
    }
  }

  lemma KeepTick(c: Config, s: Sys, a: Action)
    requires Inv(c, s) && Enabled(c, s, a) && a.Tick?
    ensures Inv(c, Apply(c, s, a))
  {
    if Slack(c) <= 60000 {
      assert forall i :: i in s.live ==> HoldsClaim(s, s.live[i]);
      assert forall i :: i in s.live ==> HoldsClaim(Apply(c, s, a), s.live[i]);
    }
  }

  lemma StepKeepsInv(c: Config, s: Sys, a: Action)
    requires c.Valid() && Inv(c, s) && Enabled(c, s, a)
    ensures Inv(c, Apply(c, s, a))
  {
    match a
    case Tick(_) => KeepTick(c, s, a);
    case Start(_, _, _) => KeepStart(c, s, a);
    case BeginWait(_) => KeepWaitStep(c, s, a);
    case EndWait(_) => KeepWaitStep(c, s, a);
    case Finish(_, _) => KeepFinish(c, s, a);
    case FinishFailed(_) => KeepFinish(c, s, a);
    case Vanish(id) => KeepVanish(c, s, id);
    case _ => KeepDatabaseStep(c, s, a);
  }

  lemma ReachableInv(c: Config, s: Sys)
    requires c.Valid() && Reachable(c, s)
    ensures Inv(c, s)
  {
    var acts :| Runs(Next(c), BOOT, acts, s);
    forall t, a | Inv(c, t) && Next(c)(t, a).Some?
      ensures Inv(c, Next(c)(t, a).value)
    {
      StepKeepsInv(c, t, a);
    }
    Invariant(Next(c), t => Inv(c, t), BOOT, acts, s);
  }

  /** In every run an execution, with at most two attempts, ends within the slack of the
      deployment plus twice its wall limit. */
  lemma ExecutionsAreBounded(c: Config, s: Sys, i: nat)
    requires c.Valid() && Reachable(c, s) && i in s.live
    ensures s.now - s.live[i].claimedAt <= Slack(c) + 2 * s.live[i].wallLimit
  {
    ReachableInv(c, s);
    ClockedIsWithinBound(c, s.live[i], s.now);
  }

  // --------------------------------------------------------- the exact bound

  lemma ReachNext(c: Config, s: Sys, a: Action, s': Sys)
    requires Reachable(c, s) && Enabled(c, s, a) && Apply(c, s, a) == s'
    ensures Reachable(c, s')
  {
    var acts :| Runs(Next(c), BOOT, acts, s);
    Snoc(Next(c), BOOT, acts, s, a);
  }

  function JobRow(wallLimit: nat): Row { NewRow(0, "main", None, wallLimit, 0) }

  /** The table with that one job queued, or claimed by `worker` at `at`. */
  function OneQueued(wallLimit: nat): Db { Db(map["t" := JobRow(wallLimit)], map["t" := "main"]) }

  function OneClaim(wallLimit: nat, worker: string, at: int): Db {
    Db(map["t" := JobRow(wallLimit).(status := Processing, claimedAt := Some(at), worker := Some(worker))],
       map["t" := "main"])
  }

  /** The first worker alone, its execution being `e`. */
  function FirstRunning(now: int, e: Exec): Sys { Sys(now, OneClaim(e.wallLimit, "a", 0), map[0 := e]) }

  lemma FirstWorkerStarts(c: Config)
    requires c.Valid()
    ensures Reachable(c, FirstRunning(0, Claiming("t", 0, c.maxWall)))
  {
    assert Runs(Next(c), BOOT, [], BOOT);
    var submitted := Sys(0, OneQueued(c.maxWall), map[]);
    ReachNext(c, BOOT, Submit("t", 0, "main", None, c.maxWall), submitted);
    assert IsOldestQueued(submitted.db.rows, "t");
    ReachNext(c, submitted, Start(0, "t", "a"), FirstRunning(0, Claiming("t", 0, c.maxWall)));
  }

  lemma FirstRunningGoesOn(c: Config, now: int, e: Exec, a: Action, now': int, e': Exec)
    requires Reachable(c, FirstRunning(now, e)) && e'.wallLimit == e.wallLimit
    requires
      || (now' >= now && a == Tick(now' - now) && e' == e && MayLast(c, e, now'))
      || (a == BeginWait(0) && now' == now && e.at.Outside? && e.waits < 2 && e' == Begun(e, now))
      || (a == EndWait(0) && now' == now && e.at.Waiting? && e' == Ended(e, now))
    ensures Reachable(c, FirstRunning(now', e'))
  {
    ReachNext(c, FirstRunning(now, e), a, FirstRunning(now', e'));
  }

  /** The first execution at the end of its second wait, everything having taken as long as
      it may; `limit` is the limit on one wait. */
  function Overdue(c: Config, limit: nat): Exec {
    Exec("t", 0, c.maxWall, c.outside, 2, limit, Waiting(c.outside + limit))
  }

  lemma FirstWaitIsSlow(c: Config, limit: nat, e: Exec)
    requires c.Valid() && limit == WaitLimit(c, c.maxWall)
    requires e == Exec("t", 0, c.maxWall, c.outside, 1, 0, Waiting(c.outside))
    ensures Reachable(c, FirstRunning(c.outside + limit, e))
  {
    FirstWorkerStarts(c);
    var o, e0 := c.outside, Claiming("t", 0, c.maxWall);
    FirstRunningGoesOn(c, 0, e0, Tick(o), o, e0);
    FirstRunningGoesOn(c, o, e0, BeginWait(0), o, e);
    FirstRunningGoesOn(c, o, e, Tick(limit), o + limit, e);
  }

  lemma FirstWorkerIsSlow(c: Config, limit: nat)
    requires c.Valid() && limit == WaitLimit(c, c.maxWall)
    ensures Reachable(c, FirstRunning(c.outside + 2 * limit, Overdue(c, limit)))
  {
    var o, e1 := c.outside, Exec("t", 0, c.maxWall, c.outside, 1, 0, Waiting(c.outside));
    FirstWaitIsSlow(c, limit, e1);
    var e2 := e1.(waited := limit, at := Outside(o + limit));
    FirstRunningGoesOn(c, o + limit, e1, EndWait(0), o + limit, e2);
    FirstRunningGoesOn(c, o + limit, e2, BeginWait(0), o + limit, Overdue(c, limit));
    FirstRunningGoesOn(c, o + limit, Overdue(c, limit), Tick(limit), o + 2 * limit, Overdue(c, limit));
  }

  /** Swept, the first worker still running. */
  function SweptAway(now: int, e: Exec): Sys { FirstRunning(now, e).(db := OneQueued(e.wallLimit)) }

  /** Both workers run the same row; the first one's claim is gone. */
  function BothRunning(now: int, e: Exec): Sys {
    Sys(now, OneClaim(e.wallLimit, "b", now), map[0 := e, 1 := Claiming("t", now, e.wallLimit)])
  }

  lemma SweepTakesTheRow(c: Config, now: int, e: Exec)
    requires Reachable(c, FirstRunning(now, e)) && now > 60000 + 2 * e.wallLimit
    ensures Reachable(c, SweptAway(now, e))
  {
    assert Swept(OneClaim(e.wallLimit, "a", 0).rows, now) == map["t" := JobRow(e.wallLimit)];
    ReachNext(c, FirstRunning(now, e), SweepNow, SweptAway(now, e));
  }

  lemma SecondWorkerStarts(c: Config, now: int, e: Exec)
    requires Reachable(c, SweptAway(now, e))
    ensures Reachable(c, BothRunning(now, e))
  {
    var s, a := SweptAway(now, e), Start(1, "t", "b");
    assert IsOldestQueued(s.db.rows, "t");
    assert Apply(c, s, a).db == OneClaim(e.wallLimit, "b", now);
    ReachNext(c, s, a, BothRunning(now, e));
  }

  lemma SweepHandsOver(c: Config) returns (now: int, e: Exec)
    requires c.Valid() && Slack(c) > 60000
    ensures Reachable(c, BothRunning(now, e)) && e.token == "t" && e.at.Waiting?
  {
    WaitLimitIsPositive(c, c.maxWall);
    var limit: nat := WaitLimit(c, c.maxWall);
    now, e := c.outside + 2 * limit, Overdue(c, limit);
    FirstWorkerIsSlow(c, limit);
    SweepTakesTheRow(c, now, e);
    SecondWorkerStarts(c, now, e);
  }

  /** A token has one executor in every run exactly when the time outside the wait loops and
      what the budgets of two attempts add to twice the wall limit fit into a minute. */
  lemma SingleExecutorExactly(c: Config)
    requires c.Valid()
    ensures (forall s :: Reachable(c, s) ==> SingleExecutor(s)) <==> Slack(c) <= 60000
  {
    if Slack(c) <= 60000 {
      forall s | Reachable(c, s)
        ensures SingleExecutor(s)
      {
        ReachableInv(c, s);
      }
    } else {
      var now, e := SweepHandsOver(c);
      var s := BothRunning(now, e);
      assert 0 in s.live && 1 in s.live && s.live[0].token == s.live[1].token;
    }
  }

  /** Within the bound a finished row is changed by retention only: no late writer. */
  lemma VerdictsStandWithinBound(c: Config, s: Sys, a: Action, t: Token)
    requires c.Valid() && Slack(c) <= 60000 && Reachable(c, s) && Enabled(c, s, a)
    requires t in s.db.rows && s.db.rows[t].status.IsTerminal() && !a.ScrubNow? && !a.ExpireNow?
    ensures t in Apply(c, s, a).db.rows && Apply(c, s, a).db.rows[t] == s.db.rows[t]
  {
    ReachableInv(c, s);
    if a.Finish? || a.FinishFailed? {
      assert HoldsClaim(s, s.live[a.id]);
    }
  }

  /** The second worker has written its verdict; the first is at the end of its wait. */
  lemma SecondWorkerFinishes(c: Config, now: int, e: Exec, o: Outcome) returns (s: Sys)
    requires Reachable(c, BothRunning(now, e)) && o.status == Accepted
    ensures Reachable(c, s) && s.live == map[0 := e] && s.now == now
    ensures "t" in s.db.rows && s.db.rows["t"].status == Accepted
  {
    var both := BothRunning(now, e);
    s := Apply(c, both, Finish(1, o));
    ReachNext(c, both, Finish(1, o), s);
    assert both.live - {1} == map[0 := e];
  }

  /** Beyond the bound a swept worker can replace another worker's verdict by a failure. */
  lemma LateWriterOverwrites(c: Config)
    requires c.Valid() && Slack(c) > 60000
    ensures exists s :: Reachable(c, s) && "t" in s.db.rows && s.db.rows["t"].status == Accepted &&
                        Enabled(c, s, FinishFailed(0)) &&
                        Apply(c, s, FinishFailed(0)).db.rows["t"].status == SandboxFailure
  {
    var now, e := SweepHandsOver(c);
    var s := SecondWorkerFinishes(c, now, e, Outcome(Accepted, "", "", None));
    var s' := s.(live := s.live[0 := Ended(e, now)]);
    ReachNext(c, s, EndWait(0), s');
    assert Enabled(c, s', FinishFailed(0));
  }

  lemma FirstWorkerVanishes(c: Config, dt: nat) returns (s: Sys)
    requires c.Valid()
    ensures Reachable(c, s) && s == Sys(dt, OneClaim(c.maxWall, "a", 0), map[])
  {
    FirstWorkerStarts(c);
    var s0 := FirstRunning(0, Claiming("t", 0, c.maxWall));
    s := s0.(live := map[]);
    assert s0.live - {0} == map[];
    ReachNext(c, s0, Vanish(0), s);
    ReachNext(c, s, Tick(dt), s.(now := dt));
    s := s.(now := dt);
  }

  /** A job whose worker vanished goes to the next one after a minute and twice its wall limit,
      and to nobody before. */
  lemma VanishedJobIsRetried(c: Config, dt: nat) returns (vanished: Sys, swept: Sys)
    requires c.Valid()
    ensures Reachable(c, vanished) && vanished.live == map[] && vanished.now == dt
    ensures Reachable(c, swept) && swept.now == dt && "t" in swept.db.rows && swept.db.rows["t"].source == "main"
    ensures dt <= 60000 + 2 * c.maxWall ==> swept == vanished && !Enabled(c, swept, Start(1, "t", "b"))
    ensures dt > 60000 + 2 * c.maxWall ==> Enabled(c, swept, Start(1, "t", "b"))
  {
    vanished := FirstWorkerVanishes(c, dt);
    swept := Apply(c, vanished, SweepNow);
    ReachNext(c, vanished, SweepNow, swept);
    if dt > 60000 + 2 * c.maxWall {
      assert swept.db.rows == map["t" := JobRow(c.maxWall)];
      assert IsOldestQueued(swept.db.rows, "t");
    } else {
      assert swept.db.rows == vanished.db.rows;
    }
  }
}
