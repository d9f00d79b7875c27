/** The result cache in front of the queue: what a submission request does, and why every
    answer from the cache is a verdict on the very job the request would have become. */
module ResultCache {
  import opened Wrappers
  import opened Traces
  import opened Keys
  import Status

  type Verdict = Status.Status
  type Token = nat

  /** A request after its limits are resolved. */
  datatype Request = Request(language: nat, source: Bytes, stdin: Option<Bytes>, limits: Limits) {
    predicate Fits() {
      FitsWord(language) && FitsLen(source) && (stdin.Some? ==> FitsLen(stdin.value)) && limits.Fits()
    }

    function Stdin(): Bytes { if stdin.Some? then stdin.value else [] }
  }

  /** The digest, and what storing a double in a 32-bit column makes of it. */
  datatype World<!D> = World(digest: Bytes -> D, narrow: nat -> nat) {
    ghost predicate Injective() { forall a, b :: digest(a) == digest(b) ==> a == b }

    function Key(r: Request): D { digest(ResultInput(r.language, r.source, r.Stdin(), r.limits)) }

    /** The limits a worker reads back from the row: the times went through a 32-bit column,
        and the output caps are not stored at all. */
    function Stored(l: Limits): Limits {
      l.(cpuBits := narrow(l.cpuBits), wallBits := narrow(l.wallBits), maxStdout := 65536, maxStderr := 65536)
    }

    function JobOf(r: Request): Job { Job(r.language, r.source, r.Stdin(), Stored(r.limits)) }
  }

  /** What a worker executes. */
  datatype Job = Job(language: nat, source: Bytes, stdin: Bytes, limits: Limits)

  /** The same bytes on stdin: equal, or nothing to read either way. */
  predicate SameInput(a: Option<Bytes>, b: Option<Bytes>) {
    a == b || ((a == None || a == Some([])) && (b == None || b == Some([])))
  }

  /** `j` is what a worker executes for `r`: its language, source and stdin, an absent stdin being
      empty; its limits, the times as a 32-bit column leaves them and the output caps at their
      defaults. */
  predicate Executes<D>(w: World<D>, j: Job, r: Request) {
    && j.language == r.language && j.source == r.source
    && (r.stdin.Some? ==> j.stdin == r.stdin.value) && (r.stdin.None? ==> j.stdin == [])
    && j.limits.cpuBits == w.narrow(r.limits.cpuBits) && j.limits.wallBits == w.narrow(r.limits.wallBits)
    && j.limits.memoryMb == r.limits.memoryMb && j.limits.maxPids == r.limits.maxPids
    && j.limits.maxStdout == 65536 && j.limits.maxStderr == 65536
    && j.limits.enableNetwork == r.limits.enableNetwork
  }

  lemma JobOfExecutes<D>(w: World<D>, r: Request, j: Job)
    ensures Executes(w, j, r) <==> j == w.JobOf(r)
  {
  }

  /** Two requests share a key exactly when they are the same but for a missing stdin standing
      for an empty one; a worker then executes the same for both. */
  lemma SameKeyExactly<D>(w: World<D>, a: Request, b: Request)
    requires w.Injective() && a.Fits() && b.Fits()
    ensures w.Key(a) == w.Key(b) <==>
            a.language == b.language && a.source == b.source && SameInput(a.stdin, b.stdin) && a.limits == b.limits
    ensures w.Key(a) == w.Key(b) ==> forall j :: Executes(w, j, a) <==> Executes(w, j, b)
  {
    ResultInputInjective(a.language, a.source, a.Stdin(), a.limits, b.language, b.source, b.Stdin(), b.limits);
    if w.Key(a) == w.Key(b) {
      assert ResultInput(a.language, a.source, a.Stdin(), a.limits) ==
             ResultInput(b.language, b.source, b.Stdin(), b.limits);
    }
  }

  /** The limits in the row have the request's key exactly when storing them changes nothing. */
  lemma RowLimitsHaveTheKeyExactly<D>(w: World<D>, r: Request)
    requires w.Injective() && r.Fits() && w.Stored(r.limits).Fits()
    ensures
      w.Key(r.(limits := w.Stored(r.limits))) == w.Key(r) <==>
      && w.narrow(r.limits.cpuBits) == r.limits.cpuBits
      && w.narrow(r.limits.wallBits) == r.limits.wallBits
      && r.limits.maxStdout == 65536 && r.limits.maxStderr == 65536
  {
    SameKeyExactly(w, r.(limits := w.Stored(r.limits)), r);
  }

  // ------------------------------------------------------------- cache and rows

  datatype Metrics = Metrics(exitCode: Option<int>, cpu: nat, compile: Option<nat>, wall: nat, memoryKb: nat)

  datatype Outcome = Outcome(
    status: Verdict, stdout: Bytes, stderr: Bytes, compileOutput: Option<Bytes>, metrics: Metrics)

  /** The columns of a row that an answer is built from. */
  datatype Row = Row(
    status: Verdict, stdout: Option<Bytes>, stderr: Option<Bytes>, compileOutput: Option<Bytes>,
    metrics: Option<Metrics>, finishedAt: Option<int>)

  const NO_METRICS := Metrics(None, 0, None, 0, 0)
  const FRESH_ROW := Row(Status.Queued, None, None, None, None, None)

  function Or<T>(o: Option<T>, default: T): T { if o.Some? then o.value else default }

  /** What `populate_result_cache` stores for a row. */
  function CachedOf(r: Row): Outcome {
    Outcome(r.status, Or(r.stdout, []), Or(r.stderr, []), r.compileOutput, Or(r.metrics, NO_METRICS))
  }

  function WrittenRow(o: Outcome, now: int): Row {
    Row(o.status, Some(o.stdout), Some(o.stderr), o.compileOutput, Some(o.metrics), Some(now))
  }

  function ScrubbedRow(r: Row): Row { r.(stdout := None, stderr := None, compileOutput := None) }

  class ResultCache<!D(==)> {
    var entries: map<D, Outcome>

    constructor ()
      ensures entries == map[]
    {
      entries := map[];
    }

    method Get(key: D) returns (hit: Option<Outcome>)
      ensures hit == if key in entries then Some(entries[key]) else None
    {
      hit := if key in entries then Some(entries[key]) else None;
    }

    method Insert(key: D, value: Outcome)
      modifies this
      ensures entries == old(entries)[key := value]
    {
      entries := entries[key := value];
    }
  }

  // ------------------------------------------------------- every interleaving

  /** Which requests there are, what each is filed under and what job it becomes. */
  datatype Scheme<!D> = Scheme(valid: Request -> bool, key: Request -> D, job: Request -> Job) {
    ghost predicate KeysDecideJobs() {
      forall a, b :: valid(a) && valid(b) && key(a) == key(b) ==> job(a) == job(b)
    }
  }

  function SchemeOf<D>(w: World<D>): Scheme<D> {
    Scheme((r: Request) => r.Fits(), (r: Request) => w.Key(r), (r: Request) => w.JobOf(r))
  }

  lemma DigestDecidesJobs<D(!new)>(w: World<D>)
    requires w.Injective()
    ensures SchemeOf(w).KeysDecideJobs()
  {
    forall a: Request, b: Request | a.Fits() && b.Fits() && w.Key(a) == w.Key(b)
      ensures w.JobOf(a) == w.JobOf(b)
    {
      SameKeyExactly(w, a, b);
      JobOfExecutes(w, a, w.JobOf(a));
      JobOfExecutes(w, b, w.JobOf(a));
    }
  }

  /** A worker ran this job with this outcome. */
  datatype Judgement = Judgement(job: Job, outcome: Outcome)
  datatype Answer = Answer(request: Request, outcome: Outcome)

  /** A request that waits since `since`, with the key it computed. */
  datatype Wait<!D> = Wait(key: D, since: int)

  datatype State<!D> = State(
    now: int, cache: map<D, Outcome>, rows: map<Token, Row>, waits: map<Token, Wait<D>>,
    origin: map<Token, Request>,      // every request that ever got a row
    judged: set<Judgement>,
    hits: set<Answer>)                // every answer given from the cache

  datatype Action<!D> =
    | Create(token: Token, request: Request, wait: bool)
    | WriteResult(token: Token, outcome: Outcome)
    | WriteFailure(token: Token)
    | ReturnWait(token: Token)
    | Scrub(token: Token) | Delete(token: Token)
    | Evict(key: D)
    | Tick(dt: nat)

  /** The operator's payload TTL, and the longest a request takes from inserting its row to its
      last look at it: the wait timeout and whatever the fetches around it take. */
  datatype Policy = Policy(payloadTtl: nat, waitLimit: nat)

  predicate Enabled<D>(c: Policy, w: Scheme<D>, s: State<D>, a: Action<D>) {
    match a
    case Create(t, r, _) => t !in s.origin && w.valid(r)
    case WriteResult(t, o) => t in s.origin && o.status.IsTerminal()
    case WriteFailure(t) => t in s.origin
    case ReturnWait(t) => t in s.waits
    case Scrub(t) => t in s.rows && s.rows[t].finishedAt.Some? && s.rows[t].finishedAt.value < s.now - c.payloadTtl
    case Delete(t) => t in s.rows && s.rows[t].finishedAt.Some?
    case Evict(_) => true
    case Tick(dt) => forall t :: t in s.waits ==> s.now + dt <= s.waits[t].since + c.waitLimit
  }

  /** `create` up to its wait: answer from the cache, or insert a row. */
  function Created<D>(w: Scheme<D>, s: State<D>, t: Token, r: Request, wait: bool): State<D> {
    var key := w.key(r);
    if key in s.cache then s.(hits := s.hits + {Answer(r, s.cache[key])})
    else s.(rows := s.rows[t := FRESH_ROW], origin := s.origin[t := r],
            waits := if wait then s.waits[t := Wait(key, s.now)] else s.waits)
  }

  /** A wait returns with the row as it is now, whatever its status: only a finished verdict
      is stored. */
  function WaitReturned<D>(s: State<D>, t: Token): State<D>
    requires t in s.waits
  {
    var done := s.(waits := s.waits - {t});
    if t in s.rows && s.rows[t].status.IsTerminal() && s.rows[t].status.IsVerdict()
    then done.(cache := s.cache[s.waits[t].key := CachedOf(s.rows[t])])
    else done
  }

  function Apply<D>(c: Policy, w: Scheme<D>, s: State<D>, a: Action<D>): State<D>
    requires Enabled(c, w, s, a)
  {
    match a
    case Create(t, r, wait) => Created(w, s, t, r, wait)
    case WriteResult(t, o) =>
      s.(judged := s.judged + {Judgement(w.job(s.origin[t]), o)},
         rows := if t in s.rows then s.rows[t := WrittenRow(o, s.now)] else s.rows)
    case WriteFailure(t) =>
      s.(rows := if t in s.rows
                 then s.rows[t := s.rows[t].(status := Status.SandboxFailure, finishedAt := Some(s.now))] else s.rows)
    case ReturnWait(t) => WaitReturned(s, t)
    case Scrub(t) => s.(rows := s.rows[t := ScrubbedRow(s.rows[t])])
    case Delete(t) => s.(rows := s.rows - {t})
    case Evict(key) => s.(cache := s.cache - {key})
    case Tick(dt) => s.(now := s.now + dt)
  }

  function Boot<D>(): State<D> { State(0, map[], map[], map[], map[], {}, {}) }

  function Next<D>(c: Policy, w: Scheme<D>): (State<D>, Action<D>) -> Option<State<D>> {
    (s: State<D>, a: Action<D>) => if Enabled(c, w, s, a) then Some(Apply(c, w, s, a)) else None
  }

  ghost predicate Reachable<D(!new)>(c: Policy, w: Scheme<D>, s: State<D>) {
    exists acts :: Runs(Next(c, w), Boot(), acts, s)
  }

  // ------------------------------------------- verdicts, whatever the policy

  /** A worker ran this request's job and reached this verdict. */
  ghost predicate Reached<D>(w: Scheme<D>, s: State<D>, r: Request, status: Verdict) {
    status.IsVerdict() && exists o :: Judgement(w.job(r), o) in s.judged && o.status == status
  }

  /** Some request with that key had that verdict reached on its job. */
  ghost predicate ReachedUnder<D(!new)>(w: Scheme<D>, s: State<D>, k: D, status: Verdict) {
    exists r :: w.valid(r) && w.key(r) == k && Reached(w, s, r, status)
  }

  ghost predicate TokensInv<D>(w: Scheme<D>, s: State<D>) {
    && (forall t :: t in s.rows ==> t in s.origin)
    && (forall t :: t in s.waits ==> t in s.origin && s.waits[t].key == w.key(s.origin[t]))
    && (forall t :: t in s.origin ==> w.valid(s.origin[t]))
  }

  ghost predicate RowVerdicts<D>(w: Scheme<D>, s: State<D>) {
    forall t :: t in s.rows && t in s.origin && s.rows[t].status.IsVerdict() ==>
      Reached(w, s, s.origin[t], s.rows[t].status)
  }

  ghost predicate CacheVerdicts<D(!new)>(w: Scheme<D>, s: State<D>) {
    && (forall k :: k in s.cache ==> ReachedUnder(w, s, k, s.cache[k].status))
    && (forall h :: h in s.hits ==> w.valid(h.request) && ReachedUnder(w, s, w.key(h.request), h.outcome.status))
  }

  ghost predicate VerdictInv<D(!new)>(w: Scheme<D>, s: State<D>) {
    TokensInv(w, s) && RowVerdicts(w, s) && CacheVerdicts(w, s)
  }

  lemma ReachedStays<D(!new)>(w: Scheme<D>, s: State<D>, s': State<D>, k: D, status: Verdict)
    requires s.judged <= s'.judged && ReachedUnder(w, s, k, status)
    ensures ReachedUnder(w, s', k, status)
  {
    var r :| w.valid(r) && w.key(r) == k && Reached(w, s, r, status);
    assert Reached(w, s', r, status);
  }

  /** Entries and answers outlive everything that only adds judgements and drops entries. */
  lemma VerdictsStay<D(!new)>(w: Scheme<D>, s: State<D>, s': State<D>)
    requires CacheVerdicts(w, s) && s.judged <= s'.judged && s'.hits == s.hits
    requires forall k :: k in s'.cache ==> k in s.cache && s'.cache[k] == s.cache[k]
    ensures CacheVerdicts(w, s')
  {
    forall k | k in s'.cache
      ensures ReachedUnder(w, s', k, s'.cache[k].status)
    {
      ReachedStays(w, s, s', k, s.cache[k].status);
    }
    forall h | h in s'.hits
      ensures ReachedUnder(w, s', w.key(h.request), h.outcome.status)
    {
      ReachedStays(w, s, s', w.key(h.request), h.outcome.status);
    }
  }

  lemma HitKeepsVerdicts<D(!new)>(w: Scheme<D>, s: State<D>, t: Token, r: Request, wait: bool)
    requires VerdictInv(w, s) && w.valid(r) && w.key(r) in s.cache
    ensures VerdictInv(w, Created(w, s, t, r, wait))
  {
    var s' := Created(w, s, t, r, wait);
    VerdictsStay(w, s, s'.(hits := s.hits));
    ReachedStays(w, s, s', w.key(r), s.cache[w.key(r)].status);
  }

  lemma MissKeepsVerdicts<D(!new)>(w: Scheme<D>, s: State<D>, t: Token, r: Request, wait: bool)
    requires VerdictInv(w, s) && t !in s.origin && w.valid(r) && w.key(r) !in s.cache
    ensures VerdictInv(w, Created(w, s, t, r, wait))
  {
    VerdictsStay(w, s, Created(w, s, t, r, wait));
  }

  lemma ReturnKeepsVerdicts<D(!new)>(c: Policy, w: Scheme<D>, s: State<D>, a: Action<D>)
    requires VerdictInv(w, s) && Enabled(c, w, s, a) && a.ReturnWait?
    ensures VerdictInv(w, Apply(c, w, s, a))
  {
    var s', t := Apply(c, w, s, a), a.token;
    VerdictsStay(w, s, s'.(cache := s.cache));
    if s'.cache != s.cache {
      assert Reached(w, s', s.origin[t], s.rows[t].status);
      assert ReachedUnder(w, s', s.waits[t].key, s.rows[t].status);
    }
  }

  lemma WriteKeepsRowVerdicts<D(!new)>(c: Policy, w: Scheme<D>, s: State<D>, a: Action<D>)
    requires VerdictInv(w, s) && Enabled(c, w, s, a) && a.WriteResult?
    ensures RowVerdicts(w, Apply(c, w, s, a))
  {
    var s' := Apply(c, w, s, a);
    assert Judgement(w.job(s.origin[a.token]), a.outcome) in s'.judged;
  }

  lemma StepKeepsVerdicts<D(!new)>(c: Policy, w: Scheme<D>, s: State<D>, a: Action<D>)
    requires VerdictInv(w, s) && Enabled(c, w, s, a)
    ensures VerdictInv(w, Apply(c, w, s, a))
  {
    if a.Create? {
      if w.key(a.request) in s.cache {
        HitKeepsVerdicts(w, s, a.token, a.request, a.wait);
      } else {
        MissKeepsVerdicts(w, s, a.token, a.request, a.wait);
      }
    } else if a.ReturnWait? {
      ReturnKeepsVerdicts(c, w, s, a);
    } else {
      VerdictsStay(w, s, Apply(c, w, s, a));
      if a.WriteResult? {
        WriteKeepsRowVerdicts(c, w, s, a);
      }
    }
  }

  lemma ReachableVerdicts<D(!new)>(c: Policy, w: Scheme<D>, s: State<D>)
    requires Reachable(c, w, s)
    ensures VerdictInv(w, s)
  {
    var acts :| Runs(Next(c, w), Boot(), acts, s);
    forall t, a | VerdictInv(w, t) && Next(c, w)(t, a).Some?
      ensures VerdictInv(w, Next(c, w)(t, a).value)
    {
      StepKeepsVerdicts(c, w, t, a);
    }
    Invariant(Next(c, w), t => VerdictInv(w, t), Boot(), acts, s);
  }

  /** A worker executed what the request asks for and reached this verdict. */
  ghost predicate JudgedSo<D>(w: World<D>, s: State<D>, r: Request, status: Verdict) {
    exists g :: g in s.judged && Executes(w, g.job, r) && g.outcome.status == status
  }

  lemma ReachedIsJudged<D(!new)>(w: World<D>, s: State<D>, r: Request, status: Verdict)
    requires Reached(SchemeOf(w), s, r, status)
    ensures JudgedSo(w, s, r, status)
  {
    var o :| Judgement(w.JobOf(r), o) in s.judged && o.status == status;
    JobOfExecutes(w, r, w.JobOf(r));
    assert Executes(w, Judgement(w.JobOf(r), o).job, r);
  }

  /** In every run, under every TTL and every digest, each entry has a verdict that a worker
      reached by executing what some request with that entry's key asks for. */
  lemma EntriesAreVerdicts<D(!new)>(c: Policy, w: World<D>, s: State<D>, k: D)
    requires Reachable(c, SchemeOf(w), s) && k in s.cache
    ensures s.cache[k].status.IsVerdict()
    ensures exists r: Request :: r.Fits() && w.Key(r) == k && JudgedSo(w, s, r, s.cache[k].status)
  {
    ReachableVerdicts(c, SchemeOf(w), s);
    var r :| SchemeOf(w).valid(r) && SchemeOf(w).key(r) == k && Reached(SchemeOf(w), s, r, s.cache[k].status);
    ReachedIsJudged(w, s, r, s.cache[k].status);
    assert r.Fits() && w.Key(r) == k;
  }

  /** So `verdict: true` is honest in every answer from the cache; with an injective digest the
      verdict was reached by executing the request's own language, source and stdin. */
  lemma HitsAreVerdicts<D(!new)>(c: Policy, w: World<D>, s: State<D>, h: Answer)
    requires Reachable(c, SchemeOf(w), s) && h in s.hits
    ensures h.outcome.status.IsVerdict()
    ensures w.Injective() ==> JudgedSo(w, s, h.request, h.outcome.status)
  {
    ReachableVerdicts(c, SchemeOf(w), s);
    if w.Injective() {
      var r :| SchemeOf(w).valid(r) && SchemeOf(w).key(r) == w.Key(h.request) &&
               Reached(SchemeOf(w), s, r, h.outcome.status);
      SameKeyExactly(w, h.request, r);
      ReachedIsJudged(w, s, r, h.outcome.status);
    }
  }

  // -------------------------------------------------- whole outcomes, and when

  /** An outcome a worker got by running this request's own job, and a verdict. */
  predicate Truthful<D>(w: Scheme<D>, s: State<D>, r: Request, o: Outcome) {
    o.status.IsVerdict() && Judgement(w.job(r), o) in s.judged
  }

  ghost predicate HitsAreTruthful<D>(w: Scheme<D>, s: State<D>) {
    forall h :: h in s.hits ==> Truthful(w, s, h.request, h.outcome)
  }

  /** A waiting request is within its limit, and its row finished no earlier than it began. */
  ghost predicate TimeInv<D>(c: Policy, s: State<D>) {
    forall t :: t in s.waits ==>
      && s.waits[t].since <= s.now <= s.waits[t].since + c.waitLimit
      && (t in s.rows && s.rows[t].finishedAt.Some? ==> s.rows[t].finishedAt.value >= s.waits[t].since)
  }

  /** A verdict row that somebody waits for shows what a worker wrote. */
  ghost predicate RowsInv<D>(w: Scheme<D>, s: State<D>) {
    forall t :: t in s.rows && t in s.waits && t in s.origin && s.rows[t].status.IsVerdict() ==>
      Judgement(w.job(s.origin[t]), CachedOf(s.rows[t])) in s.judged
  }

  /** Every entry is filed under the key of a request that it is truthful for. */
  ghost predicate CacheInv<D(!new)>(w: Scheme<D>, s: State<D>) {
    forall k :: k in s.cache ==> exists r: Request :: w.valid(r) && w.key(r) == k && Truthful(w, s, r, s.cache[k])
  }

  ghost predicate Inv<D(!new)>(c: Policy, w: Scheme<D>, s: State<D>) {
    TokensInv(w, s) && TimeInv(c, s) && RowsInv(w, s) && CacheInv(w, s) && HitsAreTruthful(w, s)
  }

  lemma EntryFitsRequest<D(!new)>(w: Scheme<D>, s: State<D>, r: Request)
    requires w.KeysDecideJobs() && CacheInv(w, s) && w.valid(r) && w.key(r) in s.cache
    ensures Truthful(w, s, r, s.cache[w.key(r)])
  {
    var q: Request :| w.valid(q) && w.key(q) == w.key(r) && Truthful(w, s, q, s.cache[w.key(r)]);
  }

  lemma KeepHit<D(!new)>(c: Policy, w: Scheme<D>, s: State<D>, t: Token, r: Request, wait: bool)
    requires w.KeysDecideJobs() && Inv(c, w, s) && w.valid(r) && w.key(r) in s.cache
    ensures Inv(c, w, Created(w, s, t, r, wait))
  {
    var s' := Created(w, s, t, r, wait);
    EntryFitsRequest(w, s, r);
    assert s' == s.(hits := s'.hits);
    CacheStays(w, s, s');
  }

  lemma KeepMiss<D(!new)>(c: Policy, w: Scheme<D>, s: State<D>, t: Token, r: Request, wait: bool)
    requires Inv(c, w, s) && t !in s.origin && w.valid(r) && w.key(r) !in s.cache
    ensures Inv(c, w, Created(w, s, t, r, wait))
  {
    CacheStays(w, s, Created(w, s, t, r, wait));
  }

  lemma KeepWrites<D(!new)>(c: Policy, w: Scheme<D>, s: State<D>, a: Action<D>)
    requires Inv(c, w, s) && Enabled(c, w, s, a) && (a.WriteResult? || a.WriteFailure?)
    ensures Inv(c, w, Apply(c, w, s, a))
  {
    CacheStays(w, s, Apply(c, w, s, a));
  }

  lemma KeepOthers<D(!new)>(c: Policy, w: Scheme<D>, s: State<D>, a: Action<D>)
    requires Inv(c, w, s) && Enabled(c, w, s, a) && (a.Delete? || a.Evict? || a.Tick?)
    ensures Inv(c, w, Apply(c, w, s, a))
  {
    CacheStays(w, s, Apply(c, w, s, a));
  }

  /** With a TTL that covers the wait, the row of a waiting request is never old enough. */
  lemma KeepScrub<D(!new)>(c: Policy, w: Scheme<D>, s: State<D>, a: Action<D>)
    requires Inv(c, w, s) && Enabled(c, w, s, a) && a.Scrub? && c.payloadTtl >= c.waitLimit
    ensures Inv(c, w, Apply(c, w, s, a))
  {
    assert a.token !in s.waits;
    CacheStays(w, s, Apply(c, w, s, a));
  }

  /** Entries outlive everything that only adds judgements and drops entries. */
  lemma CacheStays<D(!new)>(w: Scheme<D>, s: State<D>, s': State<D>)
    requires CacheInv(w, s) && s.judged <= s'.judged
    requires forall k :: k in s'.cache ==> k in s.cache && s'.cache[k] == s.cache[k]
    ensures CacheInv(w, s')
  {
    forall k | k in s'.cache
      ensures exists r: Request :: w.valid(r) && w.key(r) == k && Truthful(w, s', r, s'.cache[k])
    {
      var r: Request :| w.valid(r) && w.key(r) == k && Truthful(w, s, r, s.cache[k]);
      assert Truthful(w, s', r, s'.cache[k]);
    }
  }

  lemma KeepReturn<D(!new)>(c: Policy, w: Scheme<D>, s: State<D>, a: Action<D>)
    requires Inv(c, w, s) && Enabled(c, w, s, a) && a.ReturnWait?
    ensures Inv(c, w, Apply(c, w, s, a))
  {
    var s', t := Apply(c, w, s, a), a.token;
    forall k | k in s'.cache
      ensures exists r: Request :: w.valid(r) && w.key(r) == k && Truthful(w, s', r, s'.cache[k])
    {
      if k in s.cache && s'.cache[k] == s.cache[k] {
        var r: Request :| w.valid(r) && w.key(r) == k && Truthful(w, s, r, s.cache[k]);
        assert Truthful(w, s', r, s'.cache[k]);
      } else {
        assert k == w.key(s.origin[t]) && Truthful(w, s', s.origin[t], s'.cache[k]);
      }
    }
  }

  lemma StepKeepsInv<D(!new)>(c: Policy, w: Scheme<D>, s: State<D>, a: Action<D>)
    requires w.KeysDecideJobs() && Inv(c, w, s) && Enabled(c, w, s, a) && c.payloadTtl >= c.waitLimit
    ensures Inv(c, w, Apply(c, w, s, a))
  {
    match a
    case Create(t, r, wait) =>
      if w.key(r) in s.cache {
        KeepHit(c, w, s, t, r, wait);
      } else {
        KeepMiss(c, w, s, t, r, wait);
      }
    case WriteResult(_, _) => KeepWrites(c, w, s, a);
    case WriteFailure(_) => KeepWrites(c, w, s, a);
    case ReturnWait(_) => KeepReturn(c, w, s, a);
    case Scrub(_) => KeepScrub(c, w, s, a);
    case _ => KeepOthers(c, w, s, a);
  }

  lemma ReachableInv<D(!new)>(c: Policy, w: Scheme<D>, s: State<D>)
    requires w.KeysDecideJobs() && Reachable(c, w, s) && c.payloadTtl >= c.waitLimit
    ensures Inv(c, w, s)
  {
    var acts :| Runs(Next(c, w), Boot(), acts, s);
    forall t, a | Inv(c, w, t) && Next(c, w)(t, a).Some?
      ensures Inv(c, w, Next(c, w)(t, a).value)
    {
      StepKeepsInv(c, w, t, a);
    }
    Invariant(Next(c, w), t => Inv(c, w, t), Boot(), acts, s);
  }

  /** The answer is, output included, what a worker got by executing the request's own language,
      source and stdin under its limits. */
  ghost predicate AnswerIsTrue<D>(w: World<D>, s: State<D>, h: Answer) {
    h.outcome.status.IsVerdict() && exists g :: g in s.judged && Executes(w, g.job, h.request) && g.outcome == h.outcome
  }

  lemma TruthfulIsTrue<D(!new)>(w: World<D>, s: State<D>, h: Answer)
    ensures Truthful(SchemeOf(w), s, h.request, h.outcome) <==> AnswerIsTrue(w, s, h)
  {
    var g := Judgement(w.JobOf(h.request), h.outcome);
    JobOfExecutes(w, h.request, g.job);
    if AnswerIsTrue(w, s, h) {
      var g' :| g' in s.judged && Executes(w, g'.job, h.request) && g'.outcome == h.outcome;
      JobOfExecutes(w, h.request, g'.job);
    }
  }

  /** Every answer from the cache is true, output included, in every run, if and only if the
      payload TTL is at least as long as a request may wait. Rows that could not be written, late
      overwrites and deletions do no harm. */
  lemma HitsAreTruthfulExactly<D(!new)>(c: Policy, w: World<D>)
    requires w.Injective()
    ensures (forall s, h :: Reachable(c, SchemeOf(w), s) && h in s.hits ==> AnswerIsTrue(w, s, h)) <==>
            c.payloadTtl >= c.waitLimit
  {
    DigestDecidesJobs(w);
    if c.payloadTtl >= c.waitLimit {
      forall s, h | Reachable(c, SchemeOf(w), s) && h in s.hits
        ensures AnswerIsTrue(w, s, h)
      {
        ReachableInv(c, SchemeOf(w), s);
        TruthfulIsTrue(w, s, h);
      }
    } else {
      var r := Request(0, [1], None, Limits(0, 0, 0, 0, 0, 0, false));
      var o := Outcome(Status.Accepted, [1], [], None, NO_METRICS);
      ScrubbedEntryLies(c, SchemeOf(w), r, o);
      var s, h :| Reachable(c, SchemeOf(w), s) && h in s.hits && !Truthful(SchemeOf(w), s, h.request, h.outcome);
      TruthfulIsTrue(w, s, h);
    }
  }

  // ------------------------------------------------------ a TTL that is too short

  lemma ReachNext<D(!new)>(c: Policy, w: Scheme<D>, s: State<D>, a: Action<D>, s': State<D>)
    requires Reachable(c, w, s) && Enabled(c, w, s, a) && Apply(c, w, s, a) == s'
    ensures Reachable(c, w, s')
  {
    var acts :| Runs(Next(c, w), Boot(), acts, s);
    Snoc(Next(c, w), Boot(), acts, s, a);
  }

  /** Token 0 was submitted at time 0 with a wait, and its row is `row`. */
  function Waiting<D>(w: Scheme<D>, r: Request, now: int, judged: set<Judgement>, row: Row): State<D> {
    State(now, map[], map[0 := row], map[0 := Wait(w.key(r), 0)], map[0 := r], judged, {})
  }

  lemma JudgedAtOnce<D(!new)>(c: Policy, w: Scheme<D>, r: Request, o: Outcome)
    requires w.valid(r) && o.status.IsVerdict()
    ensures Reachable(c, w, Waiting(w, r, 0, {Judgement(w.job(r), o)}, WrittenRow(o, 0)))
  {
    assert Runs(Next(c, w), Boot<D>(), [], Boot<D>());
    ReachNext(c, w, Boot(), Create(0, r, true), Waiting(w, r, 0, {}, FRESH_ROW));
    var judged := {Judgement(w.job(r), o)};
    assert {} + judged == judged;
    ReachNext(c, w, Waiting(w, r, 0, {}, FRESH_ROW), WriteResult(0, o), Waiting(w, r, 0, judged, WrittenRow(o, 0)));
  }

  lemma ScrubbedMeanwhile<D(!new)>(c: Policy, w: Scheme<D>, r: Request, o: Outcome, judged: set<Judgement>)
    requires Reachable(c, w, Waiting(w, r, 0, judged, WrittenRow(o, 0))) && c.payloadTtl < c.waitLimit
    ensures Reachable(c, w, Waiting(w, r, c.payloadTtl + 1, judged, ScrubbedRow(WrittenRow(o, 0))))
  {
    var late := Waiting(w, r, c.payloadTtl + 1, judged, WrittenRow(o, 0));
    ReachNext(c, w, Waiting(w, r, 0, judged, WrittenRow(o, 0)), Tick(c.payloadTtl + 1), late);
    ReachNext(c, w, late, Scrub(0), Waiting(w, r, c.payloadTtl + 1, judged, ScrubbedRow(WrittenRow(o, 0))));
  }

  /** A row scrubbed before its wait returns is stored without its output, and an identical
      request is then told that the program printed nothing. */
  lemma ScrubbedEntryLies<D(!new)>(c: Policy, w: Scheme<D>, r: Request, o: Outcome)
    requires c.payloadTtl < c.waitLimit && w.valid(r) && o.status.IsVerdict() && o.stdout != []
    ensures exists s, h :: Reachable(c, w, s) && h in s.hits && !Truthful(w, s, h.request, h.outcome) &&
              h.request == r && h.outcome.stdout == [] && h.outcome.stderr == [] && h.outcome.compileOutput == None &&
              h.outcome.status == o.status && h.outcome.metrics == o.metrics &&
              forall g :: g in s.judged ==> g.outcome == o
  {
    var judged, scrubbed := {Judgement(w.job(r), o)}, ScrubbedRow(WrittenRow(o, 0));
    JudgedAtOnce(c, w, r, o);
    ScrubbedMeanwhile(c, w, r, o, judged);
    var waiting := Waiting(w, r, c.payloadTtl + 1, judged, scrubbed);
    var bare := CachedOf(scrubbed);
    var stored := waiting.(waits := map[], cache := map[w.key(r) := bare]);
    assert waiting.waits - {0} == map[];
    ReachNext(c, w, waiting, ReturnWait(0), stored);
    var lied := stored.(hits := {Answer(r, bare)});
    ReachNext(c, w, stored, Create(1, r, false), lied);
    assert bare.stdout == [] && !Truthful(w, lied, r, bare);
    assert Answer(r, bare) in lied.hits;
  }

  // ------------------------------------------------------------ what is not stored

  /** A waited-for row that has failed or is gone by the time the wait returns stores nothing, in
      every run. The failure leaves the output columns as they are. */
  lemma FailuresAreNotStored<D(!new)>(c: Policy, w: Scheme<D>, s: State<D>, t: Token)
    returns (failed: State<D>, gone: State<D>)
    requires Reachable(c, w, s) && t in s.waits && t in s.rows
    ensures Reachable(c, w, failed) && failed.cache == s.cache && t in failed.rows
    ensures failed.rows[t] == s.rows[t].(status := Status.SandboxFailure, finishedAt := Some(s.now))
    ensures Reachable(c, w, gone) && t !in gone.rows && gone.cache == s.cache
    ensures t !in failed.waits && t !in gone.waits
  {
    ReachableVerdicts(c, w, s);
    var written := Apply(c, w, s, WriteFailure(t));
    ReachNext(c, w, s, WriteFailure(t), written);
    failed := Apply(c, w, written, ReturnWait(t));
    ReachNext(c, w, written, ReturnWait(t), failed);
    var deleted := Apply(c, w, written, Delete(t));
    ReachNext(c, w, written, Delete(t), deleted);
    gone := Apply(c, w, deleted, ReturnWait(t));
    ReachNext(c, w, deleted, ReturnWait(t), gone);
  }

  /** An entry that is evicted answers nobody: the next request for it gets a row of its own. */
  lemma EvictedRunsAgain<D(!new)>(c: Policy, w: Scheme<D>, s: State<D>, t: Token, r: Request, wait: bool)
    returns (s': State<D>)
    requires Reachable(c, w, s) && t !in s.origin && w.valid(r)
    ensures Reachable(c, w, s') && s'.hits == s.hits && w.key(r) !in s'.cache
    ensures t in s'.rows && s'.rows[t] == FRESH_ROW && s'.origin == s.origin[t := r]
    ensures forall k :: k != w.key(r) && k in s.cache ==> k in s'.cache && s'.cache[k] == s.cache[k]
  {
    var evicted := Apply(c, w, s, Evict(w.key(r)));
    ReachNext(c, w, s, Evict(w.key(r)), evicted);
    s' := Apply(c, w, evicted, Create(t, r, wait));
    ReachNext(c, w, evicted, Create(t, r, wait), s');
  }

  // ------------------------------------------------------- the running object

  /** The API's shared state, and the two places of `create` that touch the cache. */
  class Api<!D(==,!new)> {
    const world: World<D>
    const cache: ResultCache<D>
    var rows: map<Token, Row>

    constructor (world: World<D>)
      ensures this.world == world && fresh(cache) && cache.entries == map[] && rows == map[]
    {
      this.world := world;
      this.cache := new ResultCache();
      rows := map[];
    }

    /** `create` up to its wait. */
    method Create(ghost s: State<D>, token: Token, request: Request, wait: bool)
      returns (hit: Option<Outcome>, key: D)
      requires cache.entries == s.cache && rows == s.rows && token !in s.origin
      modifies this
      ensures rows == Created(SchemeOf(world), s, token, request, wait).rows && cache.entries == s.cache
      ensures key == world.Key(request)
      ensures hit.Some? <==> key in cache.entries
      ensures hit.Some? ==>
        Answer(request, hit.value) in Created(SchemeOf(world), s, token, request, wait).hits && rows == s.rows
    {
      key := ResultKey(request.language, request.source, request.Stdin(), request.limits, world.digest);
      hit := cache.Get(key);
      if hit.None? {
        rows := rows[token := FRESH_ROW];
      }
    }

    /** The end of `create`: the wait came back with the row as it was. */
    method ReturnWait(ghost s: State<D>, token: Token, key: D)
      requires cache.entries == s.cache && rows == s.rows && token in s.waits && s.waits[token].key == key
      modifies cache
      ensures cache.entries == WaitReturned(s, token).cache && rows == s.rows
    {
      if token in rows {
        var sub := rows[token];
        if sub.status.IsTerminal() && sub.status.IsVerdict() {
          cache.Insert(key, CachedOf(sub));
        }
      }
    }
  }
}
