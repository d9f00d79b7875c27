/** The ready/start handshake between the worker and the child it forks: the child announces its
    new user namespace, the worker writes its identity maps, attaches it to the cgroup and lets
    it go on. Errors on either side are actions; which of them may happen is a parameter. */
module Handshake {
  import opened Wrappers
  import opened Traces

  datatype Child = Born | Unshared | Asking | GoneOn | Exited
  datatype Parent = Forked | Registered | HeardReady | MapsTried | Attached | Waits | Returned

  datatype State = State(
    child: Child, parent: Parent,
    readyByte: bool, startByte: bool, startClosed: bool,    // the two pipes
    mapped: bool, attached: bool)

  /** The faults that may happen. */
  datatype Faults = Faults(
    unshare: bool, readyWrite: bool, startRead: bool,       // in the child, which then exits
    readyRead: bool, maps: bool, attach: bool)              // in the parent

  datatype Action =
    | Unshare | UnshareFails | SignalReady | SignalReadyFails | ReadStart | ReadStartFails | ChildEnds
    | Register | ReadReady | ReadReadyFails | WriteMaps | WriteMapsFails | Attach | AttachFails | WriteStart

  predicate Enabled(f: Faults, s: State, a: Action) {
    match a
    case Unshare => s.child == Born
    case UnshareFails => f.unshare && s.child == Born
    case SignalReady => s.child == Unshared
    case SignalReadyFails => f.readyWrite && s.child == Unshared
    case ReadStart => s.child == Asking && (s.startByte || s.startClosed)
    case ReadStartFails => f.startRead && s.child == Asking
    case ChildEnds => s.child == GoneOn
    case Register => s.parent == Forked
    case ReadReady => s.parent == Registered && (s.readyByte || s.child == Exited)
    case ReadReadyFails => f.readyRead && s.parent == Registered
    case WriteMaps => s.parent == HeardReady && s.child != Exited
    case WriteMapsFails => s.parent == HeardReady && (f.maps || s.child == Exited)
    case Attach => s.parent == MapsTried && s.child != Exited
    case AttachFails => s.parent == MapsTried && (f.attach || s.child == Exited)
    case WriteStart => s.parent == Attached
  }

  /** A failed map write kills the cgroup, in which the child is not yet, and goes on. A failed
      read or attach returns: that drops the registration and closes the start pipe, and the
      child reads the end of the pipe like the start byte. */
  function Apply(f: Faults, s: State, a: Action): State
    requires Enabled(f, s, a)
  {
    match a
    case Unshare => s.(child := Unshared)
    case UnshareFails => s.(child := Exited)
    case SignalReady => s.(child := Asking, readyByte := true)
    case SignalReadyFails => s.(child := Exited)
    case ReadStart => s.(child := GoneOn)
    case ReadStartFails => s.(child := Exited)
    case ChildEnds => s.(child := Exited)
    case Register => s.(parent := Registered)
    case ReadReady => s.(parent := HeardReady)
    case ReadReadyFails => s.(parent := Returned, startClosed := true)
    case WriteMaps => s.(parent := MapsTried, mapped := true)
    case WriteMapsFails => s.(parent := MapsTried)
    case Attach => s.(parent := Attached, attached := true)
    case AttachFails => s.(parent := Returned, startClosed := true)
    case WriteStart => s.(parent := Waits, startByte := true, startClosed := true)
  }

  function Next(f: Faults): (State, Action) -> Option<State> {
    (s: State, a: Action) => if Enabled(f, s, a) then Some(Apply(f, s, a)) else None
  }

  const BOOT := State(Born, Forked, false, false, false, false, false)

  ghost predicate Reachable(f: Faults, s: State) { exists acts :: Runs(Next(f), BOOT, acts, s) }

  // -------------------------------------------------------------- properties

  /** A child that has gone on has its identity maps, is in its cgroup, and is waited for. */
  predicate Contained(s: State) { s.child == GoneOn ==> s.mapped && s.attached && s.parent == Waits }

  /** No child has exited that its parent has not registered yet. */
  predicate ExitsRegistered(s: State) { s.child == Exited ==> s.parent != Forked }

  predicate Inv(f: Faults, s: State) {
    && (s.startByte ==> s.parent == Waits)
    && (s.startClosed <==> s.parent == Waits || s.parent == Returned)
    && (s.child == GoneOn ==> s.startClosed)
    && (s.attached <==> s.parent == Attached || s.parent == Waits)
    && (s.mapped ==> s.parent != Forked)
    && (s.parent in {HeardReady, MapsTried, Attached} ==> s.child == Asking || s.child == Exited)
    && (!f.maps && s.parent in {MapsTried, Attached, Waits} && s.child != Exited ==> s.mapped)
    && (!f.readyRead && !f.attach && s.parent == Returned ==> s.child == Exited)
    && (s.readyByte ==> s.child in {Asking, GoneOn, Exited})
    && (!f.unshare && !f.readyWrite && !f.startRead ==> ExitsRegistered(s))
  }

  lemma StepKeepsInv(f: Faults, s: State, a: Action)
    requires Inv(f, s) && Enabled(f, s, a)
    ensures Inv(f, Apply(f, s, a))
  {
  }

  lemma ReachableInv(f: Faults, s: State)
    requires Reachable(f, s)
    ensures Inv(f, s)
  {
    var acts :| Runs(Next(f), BOOT, acts, s);
    forall t, a | Inv(f, t) && Next(f)(t, a).Some?
      ensures Inv(f, Next(f)(t, a).value)
    {
      StepKeepsInv(f, t, a);
    }
    Invariant(Next(f), t => Inv(f, t), BOOT, acts, s);
  }

  // -------------------------------------------------------------------- runs

  lemma ReachNext(f: Faults, s: State, a: Action) returns (s': State)
    requires Reachable(f, s) && Enabled(f, s, a)
    ensures s' == Apply(f, s, a) && Reachable(f, s')
  {
    s' := Apply(f, s, a);
    var acts :| Runs(Next(f), BOOT, acts, s);
    Snoc(Next(f), BOOT, acts, s, a);
  }

  lemma ChildAsks(f: Faults) returns (s: State)
    ensures Reachable(f, s) && s == BOOT.(child := Asking, readyByte := true)
  {
    s := BOOT;
    assert Runs(Next(f), s, [], s);
    s := ReachNext(f, s, Unshare);
    s := ReachNext(f, s, SignalReady);
  }

  lemma ParentHears(f: Faults) returns (s: State)
    ensures Reachable(f, s) && s == BOOT.(child := Asking, parent := HeardReady, readyByte := true)
  {
    s := ChildAsks(f);
    s := ReachNext(f, s, Register);
    s := ReachNext(f, s, ReadReady);
  }

  /** The attach fails, the worker returns, and the child goes on outside its cgroup with nobody
      waiting for it. */
  lemma FailedAttachLetsTheChildGo(f: Faults) returns (s: State)
    requires f.attach
    ensures Reachable(f, s) && s.child == GoneOn && !s.attached && s.parent == Returned
  {
    s := ParentHears(f);
    s := ReachNext(f, s, WriteMaps);
    s := ReachNext(f, s, AttachFails);
    s := ReachNext(f, s, ReadStart);
  }

  /** The map write fails, the kill meets an empty cgroup, and the child goes on unmapped. */
  lemma FailedMapsLetTheChildGo(f: Faults) returns (s: State)
    requires f.maps
    ensures Reachable(f, s) && s.child == GoneOn && !s.mapped && s.parent == Waits
  {
    s := ParentHears(f);
    s := ReachNext(f, s, WriteMapsFails);
    s := ReachNext(f, s, Attach);
    s := ReachNext(f, s, WriteStart);
    s := ReachNext(f, s, ReadStart);
  }

  /** The read of the ready byte fails, and the child goes on with nothing done for it. */
  lemma FailedReadLetsTheChildGo(f: Faults) returns (s: State)
    requires f.readyRead
    ensures Reachable(f, s) && s.child == GoneOn && !s.mapped && !s.attached && s.parent == Returned
  {
    s := ChildAsks(f);
    s := ReachNext(f, s, Register);
    s := ReachNext(f, s, ReadReadyFails);
    s := ReachNext(f, s, ReadStart);
  }

  /** In every interleaving a child goes on only mapped, attached and waited for, exactly when
      none of the three steps of the parent can fail. */
  lemma ContainedExactly(f: Faults)
    ensures (forall s :: Reachable(f, s) ==> Contained(s)) <==> !f.readyRead && !f.maps && !f.attach
  {
    if f.attach {
      var s := FailedAttachLetsTheChildGo(f);
    } else if f.maps {
      var s := FailedMapsLetTheChildGo(f);
    } else if f.readyRead {
      var s := FailedReadLetsTheChildGo(f);
    } else {
      forall s | Reachable(f, s)
        ensures Contained(s)
      {
        ReachableInv(f, s);
      }
    }
  }

  /** In every interleaving no child exits unregistered exactly when none of its own three steps
      before the start can fail: the handshake holds every other child back. */
  lemma ExitsRegisteredExactly(f: Faults)
    ensures (forall s :: Reachable(f, s) ==> ExitsRegistered(s)) <==> !f.unshare && !f.readyWrite && !f.startRead
  {
    assert Runs(Next(f), BOOT, [], BOOT);
    if f.unshare {
      var s := ReachNext(f, BOOT, UnshareFails);
    } else if f.readyWrite {
      var s := ReachNext(f, BOOT, Unshare);
      s := ReachNext(f, s, SignalReadyFails);
    } else if f.startRead {
      var s := ChildAsks(f);
      s := ReachNext(f, s, ReadStartFails);
    } else {
      forall s | Reachable(f, s)
        ensures ExitsRegistered(s)
      {
        ReachableInv(f, s);
      }
    }
  }
}
