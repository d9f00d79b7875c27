/** Submission statuses, signals, and the column pair a status is stored in. */
module Status {
  import opened Wrappers

  datatype TimeLimitKind = Wall | Cpu

  datatype Signal =
    | Sigsegv | Sigfpe | Sigabrt | Sigxfsz | Sigpipe | Sigkill | Sigterm | Sigill | Sigbus
    | Other(raw: int)

  datatype Status =
    | Queued
    | Processing
    | Accepted
    | TimeLimitExceeded(limit: TimeLimitKind)
    | CompileError
    | MemoryLimitExceeded
    | OutputLimitExceeded
    | RuntimeError(signal: Signal)
    | NonZeroExit(code: int)
    | SandboxFailure
    | InternalError
    | Cancelled
    | Expired
  {
    predicate IsTerminal() { !Queued? && !Processing? }

    /** A judgement about the submitted code. */
    predicate IsVerdict() {
      Accepted? || TimeLimitExceeded? || CompileError? || MemoryLimitExceeded? || OutputLimitExceeded? ||
      RuntimeError? || NonZeroExit?
    }
  }

  function SignalFromRaw(n: int): Signal {
    match n
    case 4 => Sigill
    case 6 => Sigabrt
    case 7 => Sigbus
    case 8 => Sigfpe
    case 9 => Sigkill
    case 11 => Sigsegv
    case 13 => Sigpipe
    case 15 => Sigterm
    case 25 => Sigxfsz
    case _ => Other(n)
  }

  function SignalNumber(s: Signal): int {
    match s
    case Sigill => 4
    case Sigabrt => 6
    case Sigbus => 7
    case Sigfpe => 8
    case Sigkill => 9
    case Sigsegv => 11
    case Sigpipe => 13
    case Sigterm => 15
    case Sigxfsz => 25
    case Other(n) => n
  }

  /** The signal column reads back exactly for the signals `SignalFromRaw` can produce; an
      `Other` that hides a named number reads back as the named signal. */
  lemma SignalColumnRoundTrip(s: Signal, n: int)
    ensures SignalNumber(SignalFromRaw(n)) == n
    ensures SignalFromRaw(SignalNumber(s)) == s <==> (s.Other? ==> s.raw !in {4, 6, 7, 8, 9, 11, 13, 15, 25})
  {
  }

  /** The signals reported by name, with their numbers on Linux. */
  const NAMED_SIGNALS: map<string, int> := map[
    "sigill" := 4, "sigabrt" := 6, "sigbus" := 7, "sigfpe" := 8, "sigkill" := 9, "sigsegv" := 11,
    "sigpipe" := 13, "sigterm" := 15, "sigxfsz" := 25]

  /** A signal number is reported under a name exactly when it is that signal's number. */
  lemma SignalNamesExactly(name: string, n: int)
    requires name in NAMED_SIGNALS
    ensures SignalName(SignalFromRaw(n)) == name <==> NAMED_SIGNALS[name] == n
  {
    assert "sigbus"[3] == 'b' && "sigill"[3] == 'i' && "sigsegv"[3] == 's' && "sigfpe"[3] == 'f';
    assert "sigabrt"[3] == 'a' && "sigxfsz"[3] == 'x' && "sigpipe"[3] == 'p' && "sigkill"[3] == 'k';
    assert "sigterm"[3] == 't' && "other"[0] == 'o' && name[0] == 's';
  }

  // ---------------------------------------------------- the stored column pair

  /** The JSON shapes that occur in the detail column. */
  datatype Json = JString(s: string) | JNumber(n: int) | JTagged(name: string, raw: Option<int>)

  datatype Columns = Columns(text: string, detail: Option<Json>)

  function SignalName(s: Signal): string {
    match s
    case Sigsegv => "sigsegv"
    case Sigfpe => "sigfpe"
    case Sigabrt => "sigabrt"
    case Sigxfsz => "sigxfsz"
    case Sigpipe => "sigpipe"
    case Sigkill => "sigkill"
    case Sigterm => "sigterm"
    case Sigill => "sigill"
    case Sigbus => "sigbus"
    case Other(_) => "other"
  }

  function SignalJson(s: Signal): Json {
    JTagged(SignalName(s), if s.Other? then Some(s.raw) else None)
  }

  /** `encode_status`, as the worker writes it. */
  function EncodeStatus(s: Status): Columns {
    match s
    case Queued => Columns("queued", None)
    case Processing => Columns("processing", None)
    case Accepted => Columns("accepted", None)
    case TimeLimitExceeded(k) => Columns("time_limit_exceeded", Some(JString(if k.Wall? then "wall" else "cpu")))
    case CompileError => Columns("compile_error", None)
    case MemoryLimitExceeded => Columns("memory_limit_exceeded", None)
    case OutputLimitExceeded => Columns("output_limit_exceeded", None)
    case RuntimeError(sig) => Columns("runtime_error", Some(SignalJson(sig)))
    case NonZeroExit(code) => Columns("non_zero_exit", Some(JNumber(code)))
    case SandboxFailure => Columns("sandbox_failure", None)
    case InternalError => Columns("internal_error", None)
    case Cancelled => Columns("cancelled", None)
    case Expired => Columns("expired", None)
  }

  function ParseSignal(j: Json): Option<Signal> {
    if !j.JTagged? then None
    else if j.raw.Some? then (if j.name == "other" then Some(Other(j.raw.value)) else None)
    else if j.name == "sigsegv" then Some(Sigsegv)
    else if j.name == "sigfpe" then Some(Sigfpe)
    else if j.name == "sigabrt" then Some(Sigabrt)
    else if j.name == "sigxfsz" then Some(Sigxfsz)
    else if j.name == "sigpipe" then Some(Sigpipe)
    else if j.name == "sigkill" then Some(Sigkill)
    else if j.name == "sigterm" then Some(Sigterm)
    else if j.name == "sigill" then Some(Sigill)
    else if j.name == "sigbus" then Some(Sigbus)
    else None
  }

  function ParseUnit(text: string): Option<Status> {
    if text == "queued" then Some(Queued)
    else if text == "processing" then Some(Processing)
    else if text == "accepted" then Some(Accepted)
    else if text == "compile_error" then Some(CompileError)
    else if text == "memory_limit_exceeded" then Some(MemoryLimitExceeded)
    else if text == "output_limit_exceeded" then Some(OutputLimitExceeded)
    else if text == "sandbox_failure" then Some(SandboxFailure)
    else if text == "internal_error" then Some(InternalError)
    else if text == "cancelled" then Some(Cancelled)
    else if text == "expired" then Some(Expired)
    else None
  }

  function ParseDetailed(text: string, detail: Json): Option<Status> {
    if text == "time_limit_exceeded" then
      if detail == JString("wall") then Some(TimeLimitExceeded(Wall))
      else if detail == JString("cpu") then Some(TimeLimitExceeded(Cpu)) else None
    else if text == "runtime_error" then
      var sig := ParseSignal(detail);
      if sig.Some? then Some(RuntimeError(sig.value)) else None
    else if text == "non_zero_exit" && detail.JNumber? then Some(NonZeroExit(detail.n))
    else None
  }

  /** `parse_status`, as the API reads it; `None` is the "unparseable status" error. */
  function ParseStatus(c: Columns): Option<Status> {
    if c.detail.None? then ParseUnit(c.text) else ParseDetailed(c.text, c.detail.value)
  }

  lemma SignalJsonRoundTrip(s: Signal)
    ensures ParseSignal(SignalJson(s)) == Some(s)
  {
    assert "sigbus"[3] == 'b' && "sigill"[3] == 'i';
    assert "sigsegv"[3] == 's' && "sigfpe"[3] == 'f' && "sigabrt"[3] == 'a' && "sigxfsz"[3] == 'x';
    assert "sigpipe"[3] == 'p' && "sigkill"[3] == 'k' && "sigterm"[3] == 't';
  }

  /** What the worker writes, the API reads back: every status, detail included. */
  lemma StatusColumnsRoundTrip(s: Status)
    ensures ParseStatus(EncodeStatus(s)) == Some(s)
  {
    if s.RuntimeError? {
      SignalJsonRoundTrip(s.signal);
    } else if s.TimeLimitExceeded? {
      assert "cpu"[0] == 'c' && "wall"[0] == 'w';
    } else {
      assert "queued"[0] == 'q' && "processing"[0] == 'p' && "accepted"[0] == 'a' && "compile_error"[0] == 'c';
      assert "memory_limit_exceeded"[0] == 'm' && "output_limit_exceeded"[0] == 'o' && "sandbox_failure"[0] == 's';
      assert "internal_error"[0] == 'i' && "cancelled"[1] == 'a' && "compile_error"[1] == 'o' && "expired"[0] == 'e';
    }
  }
}
