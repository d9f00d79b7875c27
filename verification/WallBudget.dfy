/** The wall-clock killer: one budget until the compile-to-run barrier, a fresh one from it.
    Each poll reads the barrier, then the child, then the clock, in that order. */
module WallBudget {
  import opened Wrappers
  import opened Triage

  datatype Peek = StillAlive | Ended(status: WaitStatus) | NoChild | PeekError

  /** One iteration: what it read and when it read the barrier and the clock. */
  datatype Poll = Poll(barrier: Option<int>, readAt: int, child: Peek, now: int)

  datatype WaitError = LostChild | WaitFailed

  datatype Wait =
    | Reaped(status: WaitStatus, killed: bool)
    | Failed(error: WaitError)
    | Waiting                                    // the script of polls ran out first

  datatype Budget = Budget(start: int, compileWall: nat, runWall: nat) {
    function Deadline(barrier: Option<int>): int {
      if barrier.Some? then barrier.value + runWall else start + compileWall
    }

    predicate Kills(p: Poll) { p.child == StillAlive && p.now >= Deadline(p.barrier) }
    predicate Stops(p: Poll) { p.child != StillAlive || Kills(p) }
  }

  /** The two budgets of a job: equal unless a compile phase with its own limits runs, which gets
      its own limit but never less than the run. */
  function BudgetOf(start: int, willCompile: bool, compileLimit: Option<nat>, wallLimit: nat): (b: Budget)
    ensures b.start == start && b.runWall == wallLimit <= b.compileWall
    ensures !willCompile || compileLimit.None? ==> b.compileWall == wallLimit
    ensures willCompile && compileLimit.Some? ==>
      b.compileWall >= compileLimit.value && (b.compileWall == wallLimit || b.compileWall == compileLimit.value)
  {
    var longer := willCompile && compileLimit.Some? && compileLimit.value > wallLimit;
    Budget(start, if longer then compileLimit.value else wallLimit, wallLimit)
  }

  /** `wait_with_timeout` over a script of polls; `postKill` is the blocking wait after a kill.
      It stops at the first poll that ends the wait, kills exactly when that poll found the
      child alive past the deadline of the barrier it had read, and never invents a status. */
  method WaitWithTimeout(b: Budget, polls: seq<Poll>, postKill: Option<WaitStatus>) returns (r: Wait, n: nat)
    ensures n <= |polls| && forall k :: 0 <= k < n ==> !b.Stops(polls[k])
    ensures n == |polls| <==> r == Waiting
    ensures n < |polls| ==> b.Stops(polls[n])
    ensures n < |polls| && b.Kills(polls[n]) ==>
      r == if postKill.Some? then Reaped(postKill.value, true) else Failed(WaitFailed)
    ensures n < |polls| && !b.Kills(polls[n]) ==>
      r == match polls[n].child
           case Ended(st) => Reaped(st, false)
           case NoChild => Failed(LostChild)
           case _ => Failed(WaitFailed)
  {
    n := 0;
    while n < |polls|
      invariant 0 <= n <= |polls|
      invariant forall k :: 0 <= k < n ==> !b.Stops(polls[k])
    {
      var p := polls[n];
      var deadline := if p.barrier.Some? then p.barrier.value + b.runWall else b.start + b.compileWall;
      match p.child {
        case StillAlive =>
          if p.now >= deadline {
            return (if postKill.Some? then Reaped(postKill.value, true) else Failed(WaitFailed)), n;
          }
        case Ended(st) =>
          return Reaped(st, false), n;
        case NoChild =>
          return Failed(LostChild), n;
        case PeekError =>
          return Failed(WaitFailed), n;
      }
      n := n + 1;
    }
    r := Waiting;
  }

  // ---------------------------------------------------------- against time

  /** The polls of a job whose barrier is published at `barrierAt`, if ever: clock readings
      follow barrier readings, and a poll sees the barrier once it is published. */
  predicate Faithful(b: Budget, polls: seq<Poll>, barrierAt: Option<int>) {
    && (forall k :: 0 <= k < |polls| ==> b.start <= polls[k].readAt <= polls[k].now)
    && (forall k :: 0 < k < |polls| ==> polls[k - 1].now <= polls[k].readAt)
    && (forall k :: 0 <= k < |polls| ==>
          polls[k].barrier == if barrierAt.Some? && barrierAt.value <= polls[k].readAt then barrierAt else None)
  }

  /** No more than `delta` between one clock reading and the next. */
  predicate Prompt(b: Budget, polls: seq<Poll>, delta: nat) {
    && (polls != [] ==> polls[0].now <= b.start + delta)
    && forall k, l :: 0 <= k && l == k + 1 < |polls| ==> polls[l].now <= polls[k].now + delta
  }

  /** The n-th poll is as far as a wait with polls at most `delta` apart can get. */
  ghost predicate IsWait(b: Budget, polls: seq<Poll>, barrierAt: Option<int>, delta: nat, n: nat) {
    && Faithful(b, polls, barrierAt) && Prompt(b, polls, delta) && n < |polls|
    && forall k :: 0 <= k < n ==> !b.Stops(polls[k])
  }

  /** A kill means the deadline of the barrier value read in that iteration has passed; a run
      seen past its barrier had its whole budget. */
  lemma KillMeansDeadlinePassed(b: Budget, polls: seq<Poll>, barrierAt: Option<int>, n: nat)
    requires Faithful(b, polls, barrierAt) && n < |polls| && b.Kills(polls[n])
    ensures polls[n].barrier.Some? ==> barrierAt.Some? && polls[n].now >= barrierAt.value + b.runWall
    ensures polls[n].barrier.None? ==> polls[n].now >= b.start + b.compileWall
  {
  }

  /** A run that had begun is killed before its budget is up exactly when its barrier was
      published after that iteration had read it, provided that the two readings of an
      iteration are less than the run budget apart. */
  lemma EarlyKillExactly(b: Budget, polls: seq<Poll>, at: int, n: nat)
    requires Faithful(b, polls, Some(at)) && n < |polls| && b.Kills(polls[n]) && at <= polls[n].now
    requires polls[n].now - polls[n].readAt < b.runWall
    ensures polls[n].now < at + b.runWall <==> polls[n].readAt < at
    ensures polls[n].readAt < at <==> polls[n].barrier.None?
  {
  }

  /** It does happen, for every pair of budgets: the barrier is published between the two
      readings of the iteration in which the compile budget runs out. */
  lemma BarrierBetweenReadings(b: Budget)
    requires b.compileWall >= 1 && b.runWall >= 1
    ensures exists polls: seq<Poll>, at: int, n: nat ::
              IsWait(b, polls, Some(at), 1, n) && b.Kills(polls[n]) && at <= polls[n].now < at + b.runWall
  {
    var at := b.start + b.compileWall;
    var polls := seq(b.compileWall + 1, (k: nat) =>
      Poll(None, b.start + if k < b.compileWall then k else b.compileWall - 1, StillAlive, b.start + k));
    var n: nat := b.compileWall;
    assert IsWait(b, polls, Some(at), 1, n) && b.Kills(polls[n]) && polls[n].now == at;
  }

  // -------------------------------------------------------- the longest wait

  /** The longest a wait can take up to the poll that ends it: a poll just inside the first
      budget, the barrier just before the next one, a poll just inside the second budget, and
      one more. */
  function LongestWait(b: Budget, compiles: bool, delta: nat): nat
    requires b.compileWall >= 1 && b.runWall >= 1 && delta >= 1
  {
    if compiles then b.compileWall + b.runWall + 2 * delta - 2 else b.compileWall + delta - 1
  }

  /** When a wait that its n-th poll ends is over: after a kill the child is still to be waited
      for, which takes `reaped`. */
  function OverAt(b: Budget, p: Poll, reaped: nat): int { p.now + if b.Kills(p) then reaped else 0 }

  lemma {:induction false} SeenBarrierIsEarly(b: Budget, polls: seq<Poll>, barrierAt: Option<int>, delta: nat, n: nat)
    requires IsWait(b, polls, barrierAt, delta, n) && b.compileWall >= 1 && delta >= 1
    requires polls[n].barrier.Some?
    ensures polls[n].barrier.value <= b.start + b.compileWall + delta - 1
  {
    assert polls[n].barrier.value <= polls[n].readAt <= polls[n].now;
    if n > 0 {
      assert polls[n].now <= polls[n - 1].now + delta;
      assert !b.Stops(polls[n - 1]);
      if polls[n - 1].barrier.Some? {
        SeenBarrierIsEarly(b, polls, barrierAt, delta, n - 1);
      }
    }
  }

  /** No wait takes longer. */
  lemma WaitIsBounded(b: Budget, polls: seq<Poll>, barrierAt: Option<int>, delta: nat, n: nat)
    requires b.compileWall >= 1 && b.runWall >= 1 && delta >= 1
    requires IsWait(b, polls, barrierAt, delta, n)
    ensures polls[n].now - b.start <= LongestWait(b, true, delta)
    ensures barrierAt.None? ==> polls[n].now - b.start <= LongestWait(b, false, delta)
  {
    if n > 0 {
      assert polls[n].now <= polls[n - 1].now + delta;
      assert !b.Stops(polls[n - 1]);
      if polls[n - 1].barrier.Some? {
        SeenBarrierIsEarly(b, polls, barrierAt, delta, n - 1);
      }
    }
  }

  /** When the barrier of a longest wait is published. */
  function LatestBarrier(b: Budget, delta: nat): int { b.start + b.compileWall - 1 + delta }

  /** Polls every millisecond inside each budget, and a full pause at the end of each. */
  function SlowestPoll(b: Budget, delta: nat, k: nat): Poll {
    var at := LatestBarrier(b, delta);
    var now :=
      if k < b.compileWall then b.start + k
      else if k < b.compileWall + b.runWall then at + (k - b.compileWall)
      else at + b.runWall - 1 + delta;
    Poll(if k < b.compileWall then None else Some(at), now, StillAlive, now)
  }

  lemma LongestWaitHappens(b: Budget, delta: nat, polls: seq<Poll>, n: nat)
    requires b.compileWall >= 1 && b.runWall >= 1 && delta >= 1
    requires n == b.compileWall + b.runWall && polls == seq(n + 1, (k: nat) => SlowestPoll(b, delta, k))
    ensures IsWait(b, polls, Some(LatestBarrier(b, delta)), delta, n) && b.Kills(polls[n])
    ensures polls[n].now - b.start == LongestWait(b, true, delta)
  {
  }

  lemma LongestPlainWaitHappens(b: Budget, delta: nat, polls: seq<Poll>, n: nat)
    requires b.compileWall >= 1 && b.runWall >= 1 && delta >= 1 && n == b.compileWall
    requires polls == seq(n + 1, (k: nat) =>
               var now := b.start + if k < n then k else n - 1 + delta; Poll(None, now, StillAlive, now))
    ensures IsWait(b, polls, None, delta, n) && b.Kills(polls[n])
    ensures polls[n].now - b.start == LongestWait(b, false, delta)
  {
  }

  /** Every wait is over within `limit`, if a killed child is reaped within `reap`. */
  ghost predicate WaitsFit(b: Budget, compiles: bool, delta: nat, reap: nat, limit: int) {
    forall polls: seq<Poll>, at: Option<int>, n: nat, reaped: nat ::
      IsWait(b, polls, at, delta, n) && (!compiles ==> at.None?) && reaped <= reap ==>
      OverAt(b, polls[n], reaped) - b.start <= limit
  }

  lemma LongestWaitFits(b: Budget, compiles: bool, delta: nat, reap: nat, limit: int)
    requires b.compileWall >= 1 && b.runWall >= 1 && delta >= 1
    requires LongestWait(b, compiles, delta) + reap <= limit
    ensures WaitsFit(b, compiles, delta, reap, limit)
  {
    forall polls: seq<Poll>, at: Option<int>, n: nat, reaped: nat
      | IsWait(b, polls, at, delta, n) && (!compiles ==> at.None?) && reaped <= reap
      ensures OverAt(b, polls[n], reaped) - b.start <= limit
    {
      WaitIsBounded(b, polls, at, delta, n);
    }
  }

  /** A limit covers every wait exactly when it covers the longest one and the reaping after it:
      for every pair of budgets and every poll interval. */
  lemma LongestWaitExactly(b: Budget, compiles: bool, delta: nat, reap: nat, limit: int)
    requires b.compileWall >= 1 && b.runWall >= 1 && delta >= 1
    ensures WaitsFit(b, compiles, delta, reap, limit) <==> LongestWait(b, compiles, delta) + reap <= limit
  {
    if LongestWait(b, compiles, delta) + reap <= limit {
      LongestWaitFits(b, compiles, delta, reap, limit);
    }
    if compiles {
      var n := b.compileWall + b.runWall;
      var polls := seq(n + 1, (k: nat) => SlowestPoll(b, delta, k));
      LongestWaitHappens(b, delta, polls, n);
      assert OverAt(b, polls[n], reap) - b.start == LongestWait(b, compiles, delta) + reap;
    } else {
      var n := b.compileWall;
      var polls := seq(n + 1, (k: nat) =>
        var now := b.start + if k < n then k else n - 1 + delta; Poll(None, now, StillAlive, now));
      LongestPlainWaitHappens(b, delta, polls, n);
      assert OverAt(b, polls[n], reap) - b.start == LongestWait(b, compiles, delta) + reap;
    }
  }

  /** A kill that fails leaves the child to itself: however long it goes on, there is a wait that
      outlasts any limit. */
  lemma FailedKillHasNoBound(b: Budget, compiles: bool, delta: nat, limit: nat)
    requires b.compileWall >= 1 && b.runWall >= 1 && delta >= 1
    ensures exists reap: nat :: !WaitsFit(b, compiles, delta, reap, limit)
  {
    LongestWaitExactly(b, compiles, delta, limit + 1, limit);
  }

  /** One poll beyond the two budgets is enough, for all waits, exactly when the poll interval and
      the reaping after a kill together take at most two ticks of the clock. */
  lemma OnePollIsEnoughExactly(b: Budget, delta: nat, reap: nat)
    requires b.compileWall >= 1 && b.runWall >= 1 && delta >= 1
    ensures WaitsFit(b, true, delta, reap, b.compileWall + b.runWall + delta) <==> delta + reap <= 2
  {
    LongestWaitExactly(b, true, delta, reap, b.compileWall + b.runWall + delta);
  }
}
