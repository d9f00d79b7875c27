/** Waiting for a submission to finish: the API's waiter, the workers that write the row and
    publish on its channel, and the statements that touch the row meanwhile. */
module Completion {
  import opened Wrappers
  import opened Status
  import opened Traces

  predicate IsDone(row: Option<Status>) { row.Some? && row.value.IsTerminal() }

  // ------------------------------------------------------ the waiter's own code

  /** What ends one turn of the listening loop. A script that ends is the deadline. */
  datatype Wake = Finishes | OtherEvent | StreamError | StreamClosed

  /** The number of `Finished` events. */
  function FinishCount(wakes: seq<Wake>): nat {
    if wakes == [] then 0 else FinishCount(wakes[..|wakes| - 1]) + if wakes[|wakes| - 1].Finishes? then 1 else 0
  }

  /** A database error. */
  datatype Fault = Fault

  type LookResult = Result<Option<Status>, Fault>

  /** `wait_for_completion`. The k-th look at the row gives `fetch(k)`; `polls` is how many
      polls fit before the deadline when listening failed. The answer is the last look, no
      look before it had anything to return, a look that fails is the last, and unless the
      waiter gave up, the answer is an error, a terminal row or the row as it was after a
      `Finished`. */
  method WaitForCompletion(listening: bool, fetch: nat -> LookResult, wakes: seq<Wake>, polls: nat)
    returns (answer: LookResult, looks: nat, heard: nat, gaveUp: bool)
    ensures answer == fetch(looks) && heard <= |wakes|
    ensures looks == 0 <==> fetch(0).Err? || IsDone(fetch(0).value)
    ensures forall k :: 0 <= k < looks ==>
              fetch(k).Ok? && if k == 0 || !listening then !IsDone(fetch(k).value) else fetch(k).value == None
    ensures gaveUp && listening ==>
              && looks == FinishCount(wakes[..heard]) + 1
              && (heard == |wakes| || (heard > 0 && (wakes[heard - 1].StreamError? || wakes[heard - 1].StreamClosed?)))
    ensures gaveUp && !listening ==> looks == polls + 1
    ensures !gaveUp && listening && looks > 0 ==>
              && heard > 0 && wakes[heard - 1].Finishes? && (answer.Ok? ==> answer.value.Some?)
              && looks == FinishCount(wakes[..heard])
    ensures !gaveUp && (!listening || looks == 0) ==> answer.Err? || IsDone(answer.value)
  {
    looks, heard, gaveUp := 0, 0, false;
    if fetch(0).Err? || IsDone(fetch(0).value) {
      return fetch(0), 0, 0, false;
    }
    if listening {
      while heard < |wakes|
        invariant heard <= |wakes| && looks == FinishCount(wakes[..heard])
        invariant forall k :: 0 < k <= looks ==> fetch(k) == Ok(None)
      {
        heard := heard + 1;
        assert wakes[..heard][..heard - 1] == wakes[..heard - 1];
        match wakes[heard - 1] {
          case Finishes =>
            looks := looks + 1;
            if fetch(looks).Err? || fetch(looks).value.Some? {
              return fetch(looks), looks, heard, false;
            }
          case OtherEvent =>
          case StreamError => break;
          case StreamClosed => break;
        }
      }
    } else {
      while looks < polls
        invariant looks <= polls && forall k :: 0 <= k <= looks ==> fetch(k).Ok? && !IsDone(fetch(k).value)
      {
        looks := looks + 1;
        if fetch(looks).Err? || IsDone(fetch(looks).value) {
          return fetch(looks), looks, 0, false;
        }
      }
    }
    looks, gaveUp := looks + 1, true;
    answer := fetch(looks);
  }

  // ------------------------------------------------------- every interleaving

  /** One claim of the row: executing, then written (or not) and about to publish. */
  datatype Worker = Idle | Executing | Publishing(written: bool) | Gone

  datatype Event = Started | Output | Finished

  datatype Waiter =
    | Subscribing | Looking | Listening | Relooking | Polling | LastLook
    | Returned(row: Option<Status>)
    | Forwarded            // the stream endpoint has passed `Finished` on
    | Failed               // an error response

  datatype State = State(
    row: Option<Status>, workers: seq<Worker>, waiter: Waiter,
    subscribed: bool, inbox: seq<Event>,
    unwritten: bool,       // some worker could not write its failure row
    unpublished: bool,     // some `Finished` was lost between the write and the publish
    gaveUp: bool)          // deadline passed or stream broke

  /** Which of its first two steps the waiter does first. `wait_for_completion` subscribes first
      and has a deadline; the stream endpoint looks first and has none. */
  datatype Order = SubscribeFirst | LookFirst

  datatype Action =
    | Claim(w: nat) | Write(w: nat, status: Status) | WriteLost(w: nat)
    | Publish(w: nat) | PublishLost(w: nat) | Emit(w: nat, event: Event) | Crash(w: nat)
    | Sweep | Delete
    | Subscribe(ok: bool) | Look | LookFails | Hear | GiveUp
  {
    predicate ByWaiter() { Subscribe? || Look? || LookFails? || Hear? || GiveUp? }
  }

  predicate Enabled(o: Order, s: State, a: Action) {
    match a
    case Claim(w) => w < |s.workers| && s.workers[w] == Idle && s.row == Some(Queued)
    case Write(w, status) => w < |s.workers| && s.workers[w] == Executing && status.IsTerminal()
    case WriteLost(w) => w < |s.workers| && s.workers[w] == Executing
    case Publish(w) => w < |s.workers| && s.workers[w].Publishing?
    case PublishLost(w) => w < |s.workers| && s.workers[w].Publishing?
    case Emit(w, event) => w < |s.workers| && s.workers[w] == Executing && event != Finished
    case Crash(w) => w < |s.workers| && s.workers[w] == Executing
    case Sweep => s.row == Some(Processing)
    case Delete => IsDone(s.row)
    case Subscribe(_) => s.waiter == Subscribing
    case Look => s.waiter in {Looking, Relooking, Polling, LastLook}
    case LookFails => s.waiter in {Looking, Relooking, Polling, LastLook}
    case Hear => s.waiter == Listening && s.inbox != []
    case GiveUp => o == SubscribeFirst && (s.waiter == Listening || s.waiter == Polling)
  }

  /** An event reaches the waiter only if it already listens. */
  function Deliver(s: State, e: Event): seq<Event> { if s.subscribed then s.inbox + [e] else s.inbox }

  function Apply(o: Order, s: State, a: Action): State
    requires Enabled(o, s, a)
  {
    match a
    case Claim(w) => s.(row := Some(Processing), workers := s.workers[w := Executing])
    case Write(w, status) =>
      s.(row := if s.row.Some? then Some(status) else None, workers := s.workers[w := Publishing(true)])
    case WriteLost(w) => s.(workers := s.workers[w := Publishing(false)], unwritten := true)
    case Publish(w) => s.(workers := s.workers[w := Gone], inbox := Deliver(s, Finished))
    case PublishLost(w) => s.(workers := s.workers[w := Gone], unpublished := true)
    case Emit(w, event) => s.(inbox := Deliver(s, event))
    case Crash(w) => s.(workers := s.workers[w := Gone])
    case Sweep => s.(row := Some(Queued))
    case Delete => s.(row := None)
    case Subscribe(ok) =>
      s.(subscribed := ok,
         waiter := if o == SubscribeFirst then Looking else if ok then Listening else Failed)
    case Look => s.(waiter := AfterLook(o, s))
    case LookFails => s.(waiter := Failed)
    case Hear =>
      s.(inbox := s.inbox[1..],
         waiter := if s.inbox[0] != Finished then Listening else if o == SubscribeFirst then Relooking else Forwarded)
    case GiveUp => s.(waiter := LastLook, gaveUp := true)
  }

  function AfterLook(o: Order, s: State): Waiter {
    match s.waiter
    case Looking =>
      if IsDone(s.row) then Returned(s.row)
      else if o == LookFirst then (if s.row.Some? then Subscribing else Failed)
      else if s.subscribed then Listening
      else Polling
    case Relooking => if s.row.Some? then Returned(s.row) else Listening
    case Polling => if IsDone(s.row) then Returned(s.row) else Polling
    case _ => Returned(s.row)
  }

  /** The request has just inserted its row; `n` claims of it may happen. */
  function Start(o: Order, n: nat): State {
    State(Some(Queued), seq(n, _ => Idle), if o == SubscribeFirst then Subscribing else Looking,
          false, [], false, false, false)
  }

  function Next(o: Order): (State, Action) -> Option<State> {
    (s: State, a: Action) => if Enabled(o, s, a) then Some(Apply(o, s, a)) else None
  }

  ghost predicate Reachable(o: Order, s: State) { exists n, acts :: Runs(Next(o), Start(o, n), acts, s) }

  // -------------------------------------------------------------- invariants

  predicate SomeonePublishes(s: State) { exists w :: 0 <= w < |s.workers| && s.workers[w].Publishing? }

  /** Nobody listens for a `Finished` that has already gone by. */
  ghost predicate Attentive(s: State) {
    s.waiter == Listening && IsDone(s.row) && !s.unpublished ==> Finished in s.inbox || SomeonePublishes(s)
  }

  /** The row is over: it was terminal once and has at most been deleted since. */
  predicate Over(s: State) { s.row == None || IsDone(s.row) }

  ghost predicate Inv(o: Order, s: State) {
    && (forall w :: 0 <= w < |s.workers| && s.workers[w] == Publishing(true) ==> Over(s))
    && (forall w :: 0 <= w < |s.workers| && s.workers[w] == Publishing(false) ==> s.unwritten)
    && (Finished in s.inbox || s.waiter == Relooking ==> Over(s) || s.unwritten)
    && (s.waiter == LastLook ==> s.gaveUp)
    && (s.waiter.Returned? && s.waiter.row.Some? ==> s.waiter.row.value.IsTerminal() || s.unwritten || s.gaveUp)
    && (s.waiter == Listening || s.waiter == Relooking ==> s.subscribed)
    && (o == LookFirst ==> s.waiter != Polling)
    && (o == SubscribeFirst ==> Attentive(s) && s.waiter != Forwarded && (s.subscribed ==> s.waiter != Subscribing))
  }

  lemma KeepWorkerSteps(o: Order, s: State, a: Action)
    requires Inv(o, s) && Enabled(o, s, a) && (a.Claim? || a.Write? || a.WriteLost? || a.Crash?)
    ensures Inv(o, Apply(o, s, a))
  {
    var s' := Apply(o, s, a);
    if SomeonePublishes(s) {
      var w :| 0 <= w < |s.workers| && s.workers[w].Publishing?;
      assert s'.workers[w].Publishing?;
    }
    if a.Write? || a.WriteLost? {
      assert s'.workers[a.w].Publishing?;
    }
  }

  lemma StepKeepsInv(o: Order, s: State, a: Action)
    requires Inv(o, s) && Enabled(o, s, a)
    ensures Inv(o, Apply(o, s, a))
  {
    if a.Claim? || a.Write? || a.WriteLost? || a.Crash? {
      KeepWorkerSteps(o, s, a);
    }
  }

  lemma ReachableInv(o: Order, s: State)
    requires Reachable(o, s)
    ensures Inv(o, s)
  {
    var n, acts :| Runs(Next(o), Start(o, n), acts, s);
    forall t, a | Inv(o, t) && Next(o)(t, a).Some?
      ensures Inv(o, Next(o)(t, a).value)
    {
      StepKeepsInv(o, t, a);
    }
    Invariant(Next(o), t => Inv(o, t), Start(o, n), acts, s);
  }

  // ------------------------------------------------------------ main results

  /** What a waiter returns before its deadline is a terminal row, unless a worker could not
      write even its failure row; then it may be a row still in the queue. */
  lemma AnswersAreTerminal(o: Order, s: State)
    requires Reachable(o, s) && s.waiter.Returned? && s.waiter.row.Some?
    ensures s.waiter.row.value.IsTerminal() || s.unwritten || s.gaveUp
  {
    ReachableInv(o, s);
  }

  /** The waiter's next step when the others rest. */
  function OwnStep(s: State): Action {
    match s.waiter
    case Subscribing => Subscribe(true)
    case Listening => Hear
    case _ => Look
  }

  function Rank(s: State): nat {
    |s.inbox| + match s.waiter
                case Subscribing => 3
                case Looking => 2
                case Returned(_) | Forwarded | Failed => 0
                case _ => 1
  }

  /** The row is terminal, and every worker that wrote it has published. */
  ghost predicate Settled(s: State) {
    Inv(SubscribeFirst, s) && IsDone(s.row) && !SomeonePublishes(s) && !s.unpublished && s.waiter != Failed
  }

  /** Where the waiter gets to by its own steps, none of them the deadline. */
  ghost function Alone(s: State): State
    requires Settled(s)
    decreases Rank(s)
  {
    if s.waiter.Returned? then s
    else
      Alone(Apply(SubscribeFirst, s, OwnStep(s)))
  }

  lemma {:induction false} AloneReturnsTheRow(s: State)
    requires Settled(s) && (s.waiter.Returned? ==> s.waiter.row == s.row)
    ensures Alone(s).waiter == Returned(s.row)
    decreases Rank(s)
  {
    if !s.waiter.Returned? {
      AloneReturnsTheRow(Apply(SubscribeFirst, s, OwnStep(s)));
    }
  }

  /** No missed completion: from every reachable state in which the terminal row is written and
      published, the waiter gets to return that row without its deadline. */
  lemma NoMissedCompletion(s: State)
    requires Reachable(SubscribeFirst, s) && IsDone(s.row) && !SomeonePublishes(s) && !s.unpublished
    requires !s.waiter.Returned? && !s.waiter.Failed?
    ensures Settled(s) && Alone(s).waiter == Returned(s.row)
  {
    ReachableInv(SubscribeFirst, s);
    AloneReturnsTheRow(s);
  }

  // ---------------------------------------------------- the opposite order

  lemma ReachNext(o: Order, s: State, a: Action, s': State)
    requires Reachable(o, s) && Enabled(o, s, a) && Apply(o, s, a) == s'
    ensures Reachable(o, s')
  {
    var n, acts :| Runs(Next(o), Start(o, n), acts, s);
    Snoc(Next(o), Start(o, n), acts, s, a);
  }

  function OneWorker(row: Status, worker: Worker, waiter: Waiter, subscribed: bool): State {
    State(Some(row), [worker], waiter, subscribed, [], false, false, false)
  }

  lemma BeginOne(o: Order)
    ensures o == LookFirst ==> Reachable(o, OneWorker(Queued, Idle, Looking, false))
    ensures o == SubscribeFirst ==> Reachable(o, OneWorker(Queued, Idle, Subscribing, false))
  {
    assert seq(1, _ => Idle) == [Idle];
    assert Runs(Next(o), Start(o, 1), [], Start(o, 1));
  }

  lemma FinishUnheard(o: Order)
    requires o == LookFirst && Reachable(o, OneWorker(Queued, Idle, Subscribing, false))
    ensures Reachable(o, OneWorker(Accepted, Gone, Subscribing, false))
  {
    var claimed := OneWorker(Processing, Executing, Subscribing, false);
    var written := OneWorker(Accepted, Publishing(true), Subscribing, false);
    ReachNext(o, OneWorker(Queued, Idle, Subscribing, false), Claim(0), claimed);
    ReachNext(o, claimed, Write(0, Accepted), written);
    ReachNext(o, written, Publish(0), OneWorker(Accepted, Gone, Subscribing, false));
  }

  lemma NothingLeft(stuck: State)
    requires stuck.waiter == Listening && stuck.inbox == [] && stuck.workers == [Gone] && IsDone(stuck.row)
    ensures forall a :: Enabled(LookFirst, stuck, a) ==> a == Delete
    ensures !SomeonePublishes(stuck)
  {
  }

  /** Looking before subscribing: everything happens in between, nothing was lost, and no step
      at all is left to the waiter. */
  lemma LookFirstMisses(stuck: State)
    requires stuck == OneWorker(Accepted, Gone, Listening, true)
    ensures Reachable(LookFirst, stuck) && !Attentive(stuck)
    ensures forall a :: Enabled(LookFirst, stuck, a) ==> a == Delete
  {
    var o := LookFirst;
    BeginOne(o);
    ReachNext(o, OneWorker(Queued, Idle, Looking, false), Look, OneWorker(Queued, Idle, Subscribing, false));
    FinishUnheard(o);
    ReachNext(o, OneWorker(Accepted, Gone, Subscribing, false), Subscribe(true), stuck);
    NothingLeft(stuck);
  }

  /** The order of `wait_for_completion` is the one that never misses; the other one does. */
  lemma SubscribeFirstExactly(o: Order)
    ensures (forall s :: Reachable(o, s) ==> Attentive(s)) <==> o == SubscribeFirst
  {
    if o == SubscribeFirst {
      forall s | Reachable(o, s)
        ensures Attentive(s)
      {
        ReachableInv(o, s);
      }
    } else {
      LookFirstMisses(OneWorker(Accepted, Gone, Listening, true));
    }
  }

  lemma FailUnwritten(o: Order, told: State)
    requires o == SubscribeFirst && Reachable(o, OneWorker(Queued, Idle, Listening, true))
    requires told == State(Some(Processing), [Gone], Listening, true, [Finished], true, false, false)
    ensures Reachable(o, told)
  {
    ReachNext(o, OneWorker(Queued, Idle, Listening, true), Claim(0), OneWorker(Processing, Executing, Listening, true));
    var lost := OneWorker(Processing, Publishing(false), Listening, true).(unwritten := true);
    ReachNext(o, OneWorker(Processing, Executing, Listening, true), WriteLost(0), lost);
    ReachNext(o, lost, Publish(0), told);
  }

  /** When the failure row cannot be written, `Finished` is published all the same and the
      waiter returns a row that is not terminal, well before its deadline. */
  lemma UnwrittenFailureAnswers()
    ensures exists s :: Reachable(SubscribeFirst, s) && s.waiter == Returned(Some(Processing)) && !s.gaveUp
  {
    var o := SubscribeFirst;
    BeginOne(o);
    ReachNext(o, OneWorker(Queued, Idle, Subscribing, false), Subscribe(true), OneWorker(Queued, Idle, Looking, true));
    ReachNext(o, OneWorker(Queued, Idle, Looking, true), Look, OneWorker(Queued, Idle, Listening, true));
    var told := State(Some(Processing), [Gone], Listening, true, [Finished], true, false, false);
    FailUnwritten(o, told);
    AnswerUnwritten(o, told);
  }

  lemma AnswerUnwritten(o: Order, told: State)
    requires o == SubscribeFirst && Reachable(o, told)
    requires told == State(Some(Processing), [Gone], Listening, true, [Finished], true, false, false)
    ensures exists s :: Reachable(o, s) && s.waiter == Returned(Some(Processing)) && !s.gaveUp
  {
    var relook := told.(waiter := Relooking, inbox := []);
    ReachNext(o, told, Hear, relook);
    ReachNext(o, relook, Look, relook.(waiter := Returned(Some(Processing))));
  }

  // ------------------------------------------------- the state against its past

  /** What was sent since the waiter subscribed; nothing if it does not listen. */
  function Broadcast(acts: seq<Action>): Option<seq<Event>> {
    if acts == [] then None
    else
      var before, last := Broadcast(acts[..|acts| - 1]), acts[|acts| - 1];
      if last.Subscribe? then (if last.ok then Some([]) else None)
      else if before.None? then None
      else if last.Publish? then Some(before.value + [Finished])
      else if last.Emit? then Some(before.value + [last.event])
      else before
  }

  function Hears(acts: seq<Action>): nat {
    if acts == [] then 0 else Hears(acts[..|acts| - 1]) + if acts[|acts| - 1].Hear? then 1 else 0
  }

  predicate EarsMatch(o: Order, acts: seq<Action>, s: State) {
    && (s.subscribed <==> Broadcast(acts).Some?)
    && (s.waiter == Subscribing || (o == LookFirst && s.waiter == Looking) || !s.subscribed ==>
          !s.subscribed && s.inbox == [] && Hears(acts) == 0)
    && (s.subscribed ==> Hears(acts) <= |Broadcast(acts).value| && s.inbox == Broadcast(acts).value[Hears(acts)..])
  }

  predicate Deleted(acts: seq<Action>) {
    acts != [] && (acts[|acts| - 1].Delete? || Deleted(acts[..|acts| - 1]))
  }

  /** The last statement that sets the status. */
  function LastStatement(acts: seq<Action>): Option<Action> {
    if acts == [] then None
    else
      var last := acts[|acts| - 1];
      if last.Claim? || last.Write? || last.Sweep? then Some(last) else LastStatement(acts[..|acts| - 1])
  }

  predicate RowMatches(acts: seq<Action>, s: State) {
    && (s.row.None? <==> Deleted(acts))
    && (s.row.Some? ==>
          match LastStatement(acts)
          case Some(Claim(_)) => s.row.value == Processing
          case Some(Write(_, status)) => s.row.value == status
          case _ => s.row.value == Queued)
  }

  function Claims(acts: seq<Action>): nat {
    if acts == [] then 0 else Claims(acts[..|acts| - 1]) + if acts[|acts| - 1].Claim? then 1 else 0
  }

  /** How often a worker ended: published, lost its `Finished`, or died. */
  function Ends(acts: seq<Action>): nat {
    if acts == [] then 0
    else
      var last := acts[|acts| - 1];
      Ends(acts[..|acts| - 1]) + if last.Publish? || last.PublishLost? || last.Crash? then 1 else 0
  }

  function AtWork(w: Worker): nat { if w == Executing || w.Publishing? then 1 else 0 }

  function Active(ws: seq<Worker>): nat {
    if ws == [] then 0 else Active(ws[..|ws| - 1]) + AtWork(ws[|ws| - 1])
  }

  lemma {:induction false} ActiveUpdate(ws: seq<Worker>, i: nat, w: Worker)
    requires i < |ws|
    ensures Active(ws[i := w]) + AtWork(ws[i]) == Active(ws) + AtWork(w)
  {
    var n := |ws| - 1;
    if i < n {
      ActiveUpdate(ws[..n], i, w);
      assert ws[i := w][..n] == ws[..n][i := w];
    } else {
      assert ws[i := w][..n] == ws[..n];
    }
  }

  lemma {:induction false} IdleIsInactive(n: nat)
    ensures Active(seq(n, _ => Idle)) == 0
  {
    if n > 0 {
      IdleIsInactive(n - 1);
      assert seq(n, _ => Idle)[..n - 1] == seq(n - 1, _ => Idle);
    }
  }

  ghost predicate Remembers(o: Order, acts: seq<Action>, s: State) {
    Inv(o, s) && EarsMatch(o, acts, s) && RowMatches(acts, s) && Claims(acts) == Ends(acts) + Active(s.workers)
  }

  lemma StepKeepsEars(o: Order, acts: seq<Action>, s: State, a: Action)
    requires Inv(o, s) && Enabled(o, s, a) && EarsMatch(o, acts, s)
    ensures EarsMatch(o, acts + [a], Apply(o, s, a))
  {
    assert (acts + [a])[..|acts|] == acts;
  }

  lemma StepKeepsRow(o: Order, acts: seq<Action>, s: State, a: Action)
    requires Enabled(o, s, a) && RowMatches(acts, s)
    ensures RowMatches(acts + [a], Apply(o, s, a))
  {
    assert (acts + [a])[..|acts|] == acts;
  }

  lemma StepKeepsClaims(o: Order, acts: seq<Action>, s: State, a: Action)
    requires Enabled(o, s, a) && Claims(acts) == Ends(acts) + Active(s.workers)
    ensures Claims(acts + [a]) == Ends(acts + [a]) + Active(Apply(o, s, a).workers)
  {
    assert (acts + [a])[..|acts|] == acts;
    var s' := Apply(o, s, a);
    if s'.workers != s.workers {
      ActiveUpdate(s.workers, a.w, s'.workers[a.w]);
    }
  }

  lemma RunRemembers(o: Order, n: nat, acts: seq<Action>, s: State)
    requires Runs(Next(o), Start(o, n), acts, s)
    ensures Remembers(o, acts, s)
  {
    forall past, t, a | Remembers(o, past, t) && Next(o)(t, a).Some?
      ensures Remembers(o, past + [a], Next(o)(t, a).value)
    {
      StepKeepsInv(o, t, a);
      StepKeepsEars(o, past, t, a);
      StepKeepsRow(o, past, t, a);
      StepKeepsClaims(o, past, t, a);
    }
    IdleIsInactive(n);
    InvariantOfPast(Next(o), (past, t) => Remembers(o, past, t), [], Start(o, n), acts, s);
    assert [] + acts == acts;
  }

  /** In every run, what a subscribed waiter has still to hear is everything sent since it
      subscribed, in order and once, less what it has heard. */
  lemma EventsAreHeardInOrder(o: Order, n: nat, acts: seq<Action>, s: State)
    requires Runs(Next(o), Start(o, n), acts, s)
    ensures s.subscribed <==> Broadcast(acts).Some?
    ensures s.subscribed ==>
              Hears(acts) <= |Broadcast(acts).value| && s.inbox == Broadcast(acts).value[Hears(acts)..]
    ensures !s.subscribed ==> s.inbox == [] && Hears(acts) == 0
  {
    RunRemembers(o, n, acts, s);
  }

  /** Every claim is still at work, or has published once, or lost its `Finished`, or died; so
      there are no more `Finished` than claims. The row is gone if it was deleted; otherwise it
      shows the last claim, result or sweep. */
  lemma ClaimsAreConserved(o: Order, n: nat, acts: seq<Action>, s: State)
    requires Runs(Next(o), Start(o, n), acts, s)
    ensures Claims(acts) == Ends(acts) + Active(s.workers)
    ensures s.row.None? <==> Deleted(acts)
    ensures s.row.Some? ==>
              match LastStatement(acts)
              case Some(Claim(_)) => s.row.value == Processing
              case Some(Write(_, status)) => s.row.value == status
              case _ => s.row.value == Queued
  {
    RunRemembers(o, n, acts, s);
  }

  /** At its deadline the waiter answers with the row as it is, or with the error of that look. */
  lemma DeadlineAnswers(s: State) returns (answered: State, failed: State)
    requires Reachable(SubscribeFirst, s) && (s.waiter == Listening || s.waiter == Polling)
    ensures Reachable(SubscribeFirst, answered) && answered.gaveUp && answered.waiter == Returned(s.row)
    ensures Reachable(SubscribeFirst, failed) && failed.gaveUp && failed.waiter == Failed
  {
    var last := Apply(SubscribeFirst, s, GiveUp);
    ReachNext(SubscribeFirst, s, GiveUp, last);
    answered, failed := Apply(SubscribeFirst, last, Look), Apply(SubscribeFirst, last, LookFails);
    ReachNext(SubscribeFirst, last, Look, answered);
    ReachNext(SubscribeFirst, last, LookFails, failed);
  }

  /** A listener that has looked, with the one worker at work. */
  lemma ListensToOne()
    ensures Reachable(SubscribeFirst, OneWorker(Processing, Executing, Listening, true))
  {
    var o := SubscribeFirst;
    BeginOne(o);
    ReachNext(o, OneWorker(Queued, Idle, Subscribing, false), Subscribe(true), OneWorker(Queued, Idle, Looking, true));
    ReachNext(o, OneWorker(Queued, Idle, Looking, true), Look, OneWorker(Queued, Idle, Listening, true));
    ReachNext(o, OneWorker(Queued, Idle, Listening, true), Claim(0), OneWorker(Processing, Executing, Listening, true));
  }

  /** A `Finished` that is lost leaves the waiter listening beside its finished row; nothing but
      the deadline goes on from there. */
  lemma LostFinishedNeedsTheDeadline(status: Status) returns (s: State)
    requires status.IsTerminal()
    ensures Reachable(SubscribeFirst, s) && s.row == Some(status) && s.waiter == Listening && s.unpublished
    ensures forall a :: Enabled(SubscribeFirst, s, a) ==> a == GiveUp || a == Delete
  {
    ListensToOne();
    var written := OneWorker(status, Publishing(true), Listening, true);
    ReachNext(SubscribeFirst, OneWorker(Processing, Executing, Listening, true), Write(0, status), written);
    s := OneWorker(status, Gone, Listening, true).(unpublished := true);
    ReachNext(SubscribeFirst, written, PublishLost(0), s);
  }

  lemma DeletedWhileTold(told: State)
    requires told == OneWorker(Accepted, Gone, Listening, true).(inbox := [Finished])
    ensures Reachable(SubscribeFirst, told) && Reachable(SubscribeFirst, told.(row := None))
  {
    ListensToOne();
    var written := OneWorker(Accepted, Publishing(true), Listening, true);
    ReachNext(SubscribeFirst, OneWorker(Processing, Executing, Listening, true), Write(0, Accepted), written);
    ReachNext(SubscribeFirst, written, Publish(0), told);
    ReachNext(SubscribeFirst, told, Delete, told.(row := None));
  }

  lemma OnlyTheDeadline(s: State)
    requires s == State(None, [Gone], Listening, true, [], false, false, false)
    ensures forall a :: Enabled(SubscribeFirst, s, a) ==> a == GiveUp
  {
  }

  /** Nor does anything else when the row is deleted between its `Finished` and the look that
      follows: the waiter goes on listening. */
  lemma DeletedRowNeedsTheDeadline() returns (s: State)
    ensures Reachable(SubscribeFirst, s) && s.row == None && s.waiter == Listening && !s.unpublished
    ensures forall a :: Enabled(SubscribeFirst, s, a) ==> a == GiveUp
  {
    var told := OneWorker(Accepted, Gone, Listening, true).(inbox := [Finished]);
    DeletedWhileTold(told);
    var relook := told.(row := None, waiter := Relooking, inbox := []);
    ReachNext(SubscribeFirst, told.(row := None), Hear, relook);
    s := relook.(waiter := Listening);
    ReachNext(SubscribeFirst, relook, Look, s);
    OnlyTheDeadline(s);
  }

  /** A claim whose worker died is swept and claimed again, and whoever listens hears of it. */
  lemma DeadClaimIsRetried(o: Order, s: State, w: nat, again: nat, status: Status) returns (s': State)
    requires Reachable(o, s) && s.row == Some(Processing) && status.IsTerminal()
    requires w < |s.workers| && s.workers[w] == Executing && again < |s.workers| && s.workers[again] == Idle
    ensures Reachable(o, s') && s'.row == Some(status) && s'.workers == s.workers[w := Gone][again := Gone]
    ensures s.subscribed ==> s'.inbox == s.inbox + [Started] + [Finished]
    ensures s'.waiter == s.waiter && !s.unpublished ==> !s'.unpublished
  {
    var swept := Apply(o, Apply(o, s, Crash(w)), Sweep);
    ReachNext(o, s, Crash(w), Apply(o, s, Crash(w)));
    ReachNext(o, Apply(o, s, Crash(w)), Sweep, swept);
    s' := Apply(o, swept, Claim(again));
    ReachNext(o, swept, Claim(again), s');
    s' := FinishAgain(o, s', again, status);
  }

  lemma FinishAgain(o: Order, s: State, w: nat, status: Status) returns (s': State)
    requires Reachable(o, s) && s.row.Some? && w < |s.workers| && s.workers[w] == Executing && status.IsTerminal()
    ensures Reachable(o, s') && s' == s.(row := Some(status), workers := s'.workers, inbox := s'.inbox)
    ensures s'.workers == s.workers[w := Gone]
    ensures s'.inbox == if s.subscribed then s.inbox + [Started] + [Finished] else s.inbox
  {
    var told := Apply(o, s, Emit(w, Started));
    ReachNext(o, s, Emit(w, Started), told);
    var written := Apply(o, told, Write(w, status));
    ReachNext(o, told, Write(w, status), written);
    s' := Apply(o, written, Publish(w));
    ReachNext(o, written, Publish(w), s');
  }
}
