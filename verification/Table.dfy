/** The submissions table: the statements that the API, the workers, the sweeper and the
    retention job run against it, and what survives every interleaving of them. Times are
    milliseconds; every statement is atomic. */
module Table {
  import opened Wrappers
  import opened Status
  import opened Traces
  import opened Statements

  type Token = string

  datatype Row = Row(
    language: nat, source: string, stdin: Option<string>, wallLimit: nat,
    status: Status, stdout: Option<string>, stderr: Option<string>, compileOutput: Option<string>,
    createdAt: int, claimedAt: Option<int>, worker: Option<string>, finishedAt: Option<int>)

  type Rows = map<Token, Row>

  /** What a worker writes back. */
  datatype Outcome = Outcome(status: Status, stdout: string, stderr: string, compileOutput: Option<string>)

  // ------------------------------------------------------------- statements

  function NewRow(language: nat, source: string, stdin: Option<string>, wallLimit: nat, now: int): Row {
    Row(language, source, stdin, wallLimit, Queued, None, None, None, now, None, None, None)
  }

  /** The rows `claim_next` may return: queued, and none queued is older. */
  predicate IsOldestQueued(rows: Rows, t: Token) {
    t in rows && rows[t].status == Queued &&
    forall u :: u in rows && rows[u].status == Queued ==> rows[t].createdAt <= rows[u].createdAt
  }

  function Claimed(rows: Rows, t: Token, worker: string, now: int): Rows
    requires t in rows
  {
    rows[t := rows[t].(status := Processing, claimedAt := Some(now), worker := Some(worker))]
  }

  /** An UPDATE by token: no row, no effect. Neither the status nor the worker is checked. */
  function ResultWritten(rows: Rows, t: Token, o: Outcome, now: int): Rows {
    if t !in rows then rows
    else rows[t := rows[t].(status := o.status, stdout := Some(o.stdout), stderr := Some(o.stderr),
                            compileOutput := o.compileOutput, finishedAt := Some(now))]
  }

  function FailureWritten(rows: Rows, t: Token, now: int): Rows {
    if t !in rows then rows
    else rows[t := rows[t].(status := SandboxFailure, finishedAt := Some(now))]
  }

  /** What a finished row says about the run. */
  function OutcomeOf(r: Row): Option<Outcome> {
    if r.stdout.Some? && r.stderr.Some?
    then Some(Outcome(r.status, r.stdout.value, r.stderr.value, r.compileOutput)) else None
  }

  predicate SameInputs(r: Row, q: Row) {
    r.language == q.language && r.source == q.source && r.stdin == q.stdin && r.wallLimit == q.wallLimit &&
    r.createdAt == q.createdAt && r.claimedAt == q.claimedAt && r.worker == q.worker
  }

  /** A claim older than a minute plus twice the wall limit. */
  predicate IsStale(r: Row, now: int) {
    r.status == Processing && r.claimedAt.Some? && r.claimedAt.value < now - (60000 + 2 * r.wallLimit)
  }

  function SweptRow(r: Row, now: int): Row {
    if IsStale(r, now) then r.(status := Queued, claimedAt := None, worker := None) else r
  }

  function Swept(rows: Rows, now: int): Rows { map t | t in rows :: SweptRow(rows[t], now) }

  predicate FinishedBefore(r: Row, cutoff: int) { r.finishedAt.Some? && r.finishedAt.value < cutoff }

  predicate NeedsScrub(r: Row, cutoff: int) {
    FinishedBefore(r, cutoff) && (r.stdout.Some? || r.stderr.Some? || |r.source| > 0)
  }

  function ScrubbedRow(r: Row, cutoff: int): Row {
    if NeedsScrub(r, cutoff)
    then r.(source := "", stdin := None, stdout := None, stderr := None, compileOutput := None) else r
  }

  function Scrubbed(rows: Rows, ttl: nat, now: int): Rows { map t | t in rows :: ScrubbedRow(rows[t], now - ttl) }

  function WithoutOld(rows: Rows, ttl: nat, now: int): Rows {
    map t | t in rows && !FinishedBefore(rows[t], now - ttl) :: rows[t]
  }

  // ------------------------------------------------------------- every run

  datatype Op =
    | Insert(t: Token, language: nat, source: string, stdin: Option<string>, wallLimit: nat, now: int)
    | Claim(t: Token, worker: string, now: int)
    | Write(t: Token, o: Outcome, now: int)
    | Fail(t: Token, now: int)
    | Sweep(now: int)
    | Scrub(ttl: nat, now: int)
    | Expire(ttl: nat, now: int)

  /** The table together with the source each token was submitted with. */
  datatype Db = Db(rows: Rows, origin: map<Token, string>)

  /** The token column is unique, a claim takes an oldest queued row, and a result carries a
      finished status. Writers may come at any time, in any state, any number of times. */
  predicate Allowed(db: Db, op: Op) {
    match op
    case Insert(t, _, _, _, _, _) => t !in db.rows
    case Claim(t, _, _) => IsOldestQueued(db.rows, t)
    case Write(_, o, _) => o.status.IsTerminal()
    case _ => true
  }

  function Do(db: Db, op: Op): Db
    requires Allowed(db, op)
  {
    match op
    case Insert(t, l, src, x, w, now) => Db(db.rows[t := NewRow(l, src, x, w, now)], db.origin[t := src])
    case Claim(t, w, now) => db.(rows := Claimed(db.rows, t, w, now))
    case Write(t, o, now) => db.(rows := ResultWritten(db.rows, t, o, now))
    case Fail(t, now) => db.(rows := FailureWritten(db.rows, t, now))
    case Sweep(now) => db.(rows := Swept(db.rows, now))
    case Scrub(ttl, now) => db.(rows := Scrubbed(db.rows, ttl, now))
    case Expire(ttl, now) => db.(rows := WithoutOld(db.rows, ttl, now))
  }

  function Next(): (Db, Op) -> Option<Db> {
    (db: Db, op: Op) => if Allowed(db, op) then Some(Do(db, op)) else None
  }

  /** What holds of a row whatever its history. */
  predicate RowOk(r: Row, origin: string) {
    && (r.finishedAt.Some? <==> r.status.IsTerminal())
    && (r.status == Queued ==> r.claimedAt.None? && r.worker.None?)
    && (r.status == Processing ==> r.claimedAt.Some? && r.worker.Some?)
    && (!r.status.IsTerminal() ==> r.source == origin)
  }

  ghost predicate TableInv(db: Db) {
    forall t :: t in db.rows ==> t in db.origin && RowOk(db.rows[t], db.origin[t])
  }

  lemma StepKeepsTable(db: Db, op: Op)
    requires TableInv(db) && Allowed(db, op)
    ensures TableInv(Do(db, op))
  {
  }

  /** Every run of any number of workers, sweeps and retention passes keeps the invariant:
      a finish time exactly on finished rows, a claim exactly on processing ones, and the
      submitted source on every row that can still be executed. */
  lemma RunKeepsTable(db: Db, ops: seq<Op>, db': Db)
    requires TableInv(db) && Runs(Next(), db, ops, db')
    ensures TableInv(db')
  {
    forall t, op | TableInv(t) && Next()(t, op).Some?
      ensures TableInv(Next()(t, op).value)
    {
      StepKeepsTable(t, op);
    }
    Invariant(Next(), t => TableInv(t), db, ops, db');
  }

  ghost predicate SubmitsAgain(ops: seq<Op>, t: Token) {
    exists k :: 0 <= k < |ops| && ops[k].Insert? && ops[k].t == t
  }

  /** A finished row is never queued or processed again: it stays finished until deleted, and
      a deleted one stays deleted, unless its very token is submitted anew. */
  lemma {:induction false} FinishedIsForever(db: Db, ops: seq<Op>, db': Db, t: Token)
    requires TableInv(db) && Runs(Next(), db, ops, db') && (t in db.rows ==> db.rows[t].status.IsTerminal())
    ensures SubmitsAgain(ops, t) || (t in db'.rows ==> t in db.rows && db'.rows[t].status.IsTerminal())
    decreases |ops|
  {
    if ops != [] && !SubmitsAgain(ops, t) {
      assert ops[0].Insert? ==> ops[0].t != t;
      StepKeepsTable(db, ops[0]);
      FinishedIsForever(Do(db, ops[0]), ops[1..], db', t);
      assert forall k :: 0 <= k < |ops| - 1 ==> ops[1..][k] == ops[k + 1];
    }
  }

  /** A claim hands out the source the token was submitted with, in every run from an empty
      table, however often the row was swept and whatever retention did. */
  lemma ClaimsRunTheSubmittedSource(ops: seq<Op>, db: Db, t: Token, worker: string, now: int)
    requires Runs(Next(), Db(map[], map[]), ops, db) && Allowed(db, Claim(t, worker, now))
    ensures t in db.origin && db.rows[t].source == db.origin[t]
    ensures Do(db, Claim(t, worker, now)).rows[t].source == db.origin[t]
  {
    RunKeepsTable(Db(map[], map[]), ops, db);
  }

  /** Retention leaves every row that can still be executed exactly as it was. */
  lemma RetentionSparesLiveRows(db: Db, ttl: nat, now: int, t: Token)
    requires TableInv(db) && t in db.rows && !db.rows[t].status.IsTerminal()
    ensures var s := Do(db, Scrub(ttl, now)); t in s.rows && s.rows[t] == db.rows[t]
    ensures var e := Do(db, Expire(ttl, now)); t in e.rows && e.rows[t] == db.rows[t]
  {
  }

  /** What retention removes or changes finished longer ago than the TTL; all of that is removed,
      and emptied. */
  lemma RetentionTakesOnlyOldRows(db: Db, ttl: nat, now: int, t: Token)
    requires TableInv(db) && t in db.rows
    ensures t !in Do(db, Expire(ttl, now)).rows <==>
            db.rows[t].finishedAt.Some? && now - db.rows[t].finishedAt.value > ttl
    ensures Do(db, Scrub(ttl, now)).rows[t] != db.rows[t] <==>
            && db.rows[t].finishedAt.Some? && now - db.rows[t].finishedAt.value > ttl
            && (db.rows[t].stdout.Some? || db.rows[t].stderr.Some? || db.rows[t].source != "")
    ensures Do(db, Scrub(ttl, now)).rows[t].status == db.rows[t].status
  {
  }

  function StaleTokens(rows: Rows, now: int): set<Token> { Matching(rows, r => IsStale(r, now)) }

  /** A sweep leaves nothing stale; what it changes is what was stale, and that is queued again
      with the source it was submitted with. */
  lemma SweepRequeuesStaleRows(db: Db, now: int)
    requires TableInv(db)
    ensures
      var rows := Swept(db.rows, now);
      && (forall t :: t in rows ==> !IsStale(rows[t], now))
      && (forall t :: t in rows ==> (rows[t] != db.rows[t] <==> t in StaleTokens(db.rows, now)))
      && (forall t :: t in rows && rows[t] != db.rows[t] ==>
            rows[t].status == Queued && t in db.origin && rows[t].source == db.origin[t] &&
            rows[t].stdin == db.rows[t].stdin && rows[t].createdAt == db.rows[t].createdAt)
      && (forall t :: t in rows && rows[t] != db.rows[t] ==>
            now - db.rows[t].claimedAt.value > 60000 + 2 * db.rows[t].wallLimit)
  {
  }

  /** A scrub leaves no output and no source on rows finished before the cutoff, no input and no
      compiler output on what it changes, and changes no other row and no status. */
  lemma ScrubEmptiesOldRows(before: Rows, ttl: nat, now: int)
    ensures
      var rows := Scrubbed(before, ttl, now);
      && (forall t :: t in rows && rows[t].finishedAt.Some? && now - rows[t].finishedAt.value > ttl ==>
            rows[t].stdout.None? && rows[t].stderr.None? && rows[t].source == "")
      && (forall t :: t in rows && (rows[t].finishedAt.Some? ==> now - rows[t].finishedAt.value <= ttl) ==>
            rows[t] == before[t])
      && (forall t :: t in rows && rows[t] != before[t] ==> rows[t].stdin.None? && rows[t].compileOutput.None?)
      && (forall t :: t in before ==> t in rows && rows[t].status == before[t].status)
  {
  }

  // ------------------------------------------------------- the table as an object

  /** The table as the programs see it, with the source each token was submitted with beside
      it. Every statement is an operation of the transition system above and keeps its
      invariant. */
  class Submissions {
    var rows: Rows
    ghost var origin: map<Token, string>

    ghost function Contents(): Db
      reads this
    {
      Db(rows, origin)
    }

    ghost predicate Valid()
      reads this
    {
      TableInv(Contents())
    }

    constructor ()
      ensures Valid() && Contents() == Db(map[], map[])
    {
      rows, origin := map[], map[];
    }

    /** The token column is unique: a second insert fails and changes nothing. */
    method InsertSubmission(t: Token, language: nat, source: string, stdin: Option<string>, wallLimit: nat, now: int)
      returns (ok: bool)
      requires Valid()
      modifies this
      ensures Valid() && (ok <==> t !in old(rows))
      ensures !ok ==> Contents() == old(Contents())
      ensures ok ==>
        var op := Insert(t, language, source, stdin, wallLimit, now);
        Allowed(old(Contents()), op) && Contents() == Do(old(Contents()), op)
      ensures ok ==> rows.Keys == old(rows).Keys + {t} && forall u :: u in old(rows) ==> rows[u] == old(rows)[u]
      ensures ok ==>
        && rows[t].language == language && rows[t].source == source && rows[t].stdin == stdin
        && rows[t].wallLimit == wallLimit && rows[t].createdAt == now && rows[t].status == Queued
        && rows[t].claimedAt.None? && rows[t].worker.None? && rows[t].finishedAt.None? && OutcomeOf(rows[t]).None?
    {
      ok := t !in rows;
      if ok {
        StepKeepsTable(Contents(), Insert(t, language, source, stdin, wallLimit, now));
        rows := rows[t := NewRow(language, source, stdin, wallLimit, now)];
        origin := origin[t := source];
      }
    }

    /** A claim fails only when nothing is queued, and takes one of the oldest rows. */
    method ClaimNext(worker: string, now: int) returns (job: Option<Token>)
      requires Valid()
      modifies this
      ensures Valid() && (job.None? <==> forall u :: u in old(rows) ==> old(rows)[u].status != Queued)
      ensures job.None? ==> Contents() == old(Contents())
      ensures job.Some? ==>
        var op := Claim(job.value, worker, now);
        Allowed(old(Contents()), op) && Contents() == Do(old(Contents()), op)
      ensures job.Some? ==> job.value in origin && rows[job.value].source == origin[job.value]
    {
      job := SelectFirst(rows, (r: Row) => r.status == Queued, (r: Row) => r.createdAt);
      if job.Some? {
        assert IsOldestQueued(rows, job.value) && RowOk(rows[job.value], origin[job.value]);
        StepKeepsTable(Contents(), Claim(job.value, worker, now));
        rows := Claimed(rows, job.value, worker, now);
      }
    }

    /** The outcome is stored whatever the row's status or worker; inputs and claim stay. */
    method WriteResult(t: Token, o: Outcome, now: int)
      requires Valid() && o.status.IsTerminal()
      modifies this
      ensures Valid() && Contents() == Do(old(Contents()), Write(t, o, now))
      ensures t in rows <==> t in old(rows)
      ensures t in rows ==> OutcomeOf(rows[t]) == Some(o) && SameInputs(rows[t], old(rows)[t])
    {
      StepKeepsTable(Contents(), Write(t, o, now));
      if t in rows {
        rows := rows[t := rows[t].(status := o.status, stdout := Some(o.stdout), stderr := Some(o.stderr),
                                   compileOutput := o.compileOutput, finishedAt := Some(now))];
      }
    }

    /** The row fails; whatever output it already had stays. */
    method WriteSandboxFailure(t: Token, now: int)
      requires Valid()
      modifies this
      ensures Valid() && Contents() == Do(old(Contents()), Fail(t, now))
      ensures t in rows <==> t in old(rows)
      ensures t in rows ==> rows[t].status == SandboxFailure && SameInputs(rows[t], old(rows)[t])
      ensures t in rows ==> rows[t].stdout == old(rows)[t].stdout && rows[t].stderr == old(rows)[t].stderr
    {
      StepKeepsTable(Contents(), Fail(t, now));
      if t in rows {
        rows := rows[t := rows[t].(status := SandboxFailure, finishedAt := Some(now))];
      }
    }

    /** Afterwards nothing is stale, the rows that were are queued again with the source they
        were submitted with, no other row has changed, and the rows that have are counted. */
    method SweepStale(now: int) returns (reset: nat)
      requires Valid()
      modifies this
      ensures Valid() && Contents() == Do(old(Contents()), Sweep(now))
      ensures forall t :: t in rows ==> !IsStale(rows[t], now)
      ensures forall t :: t in rows && rows[t] != old(rows)[t] ==>
                rows[t].status == Queued && t in origin && rows[t].source == origin[t]
      ensures reset == |StaleTokens(old(rows), now)|
    {
      StepKeepsTable(Contents(), Sweep(now));
      SweepRequeuesStaleRows(Contents(), now);
      ghost var before := rows;
      rows, reset := UpdateWhere(rows, r => IsStale(r, now), r => SweptRow(r, now));
      assert Matching(before, r => IsStale(r, now)) == StaleTokens(before, now);
      assert rows == Swept(before, now);
    }

    /** Afterwards no row finished before the cutoff has output or source left, its status
        stands, and every other row is as it was. */
    method ScrubPayloads(ttl: nat, now: int)
      requires Valid()
      modifies this
      ensures Valid() && Contents() == Do(old(Contents()), Scrub(ttl, now))
      ensures forall t :: t in rows && FinishedBefore(rows[t], now - ttl) ==>
                rows[t].stdout.None? && rows[t].stderr.None? && rows[t].source == ""
      ensures forall t :: t in rows && !FinishedBefore(rows[t], now - ttl) ==> rows[t] == old(rows)[t]
      ensures forall t :: t in rows && rows[t] != old(rows)[t] ==> rows[t].stdin.None? && rows[t].compileOutput.None?
      ensures forall t :: t in old(rows) ==> t in rows && rows[t].status == old(rows)[t].status
    {
      StepKeepsTable(Contents(), Scrub(ttl, now));
      ScrubEmptiesOldRows(rows, ttl, now);
      var n;
      ghost var before := rows;
      rows, n := UpdateWhere(rows, r => NeedsScrub(r, now - ttl), r => ScrubbedRow(r, now - ttl));
      assert rows == Scrubbed(before, ttl, now);
    }

    /** Afterwards exactly the rows not finished before the cutoff are there, unchanged, and
        the others are counted. */
    method ExpireOldRows(ttl: nat, now: int) returns (deleted: nat)
      requires Valid()
      modifies this
      ensures Valid() && Contents() == Do(old(Contents()), Expire(ttl, now))
      ensures forall t :: t in rows <==> t in old(rows) && !FinishedBefore(old(rows)[t], now - ttl)
      ensures |rows| + deleted == |old(rows)|
    {
      StepKeepsTable(Contents(), Expire(ttl, now));
      rows, deleted := DeleteWhere(rows, r => FinishedBefore(r, now - ttl));
      assert rows == WithoutOld(old(rows), ttl, now);
    }

    /** One statement, whatever it is; a claim takes the token the table picks. `ran` is what
        it amounted to: nothing for an insert that failed or a claim that found nothing. */
    method Perform(op: Op) returns (ghost ran: seq<Op>)
      requires Valid() && (op.Write? ==> op.o.status.IsTerminal())
      modifies this
      ensures Valid() && |ran| <= 1 && Runs(Next(), old(Contents()), ran, Contents())
      ensures !op.Insert? && !op.Claim? ==> ran == [op]
    {
      ran := [op];
      match op {
        case Insert(t, l, src, x, w, now) =>
          var ok := InsertSubmission(t, l, src, x, w, now);
          ran := if ok then ran else [];
        case Claim(_, worker, now) =>
          var job := ClaimNext(worker, now);
          ran := if job.Some? then [Claim(job.value, worker, now)] else [];
        case Write(t, o, now) => WriteResult(t, o, now);
        case Fail(t, now) => WriteSandboxFailure(t, now);
        case Sweep(now) => var _ := SweepStale(now);
        case Scrub(ttl, now) => ScrubPayloads(ttl, now);
        case Expire(ttl, now) => var _ := ExpireOldRows(ttl, now);
      }
      assert ran != [] ==> ran[1..] == [];
    }

    /** Whatever statements arrive in whatever order, the table goes through a run of the
        transition system, so that everything proved of all runs holds of it. */
    method Serve(ops: seq<Op>) returns (ghost ran: seq<Op>)
      requires Valid() && forall k :: 0 <= k < |ops| && ops[k].Write? ==> ops[k].o.status.IsTerminal()
      modifies this
      ensures Valid() && Runs(Next(), old(Contents()), ran, Contents())
    {
      ran := [];
      var k := 0;
      while k < |ops|
        invariant 0 <= k <= |ops| && Valid()
        invariant Runs(Next(), old(Contents()), ran, Contents())
      {
        ghost var before := Contents();
        ghost var more := Perform(ops[k]);
        Concatenate(Next(), old(Contents()), ran, before, more, Contents());
        ran := ran + more;
        k := k + 1;
      }
    }
  }
}
