/** The three content keys: what is fed to the hasher, and why two different inputs never
    feed it the same bytes. The digest itself is a parameter. */
module Keys {
  import opened Wrappers

  type u8 = x: int | 0 <= x < 256
  type Bytes = seq<u8>

  /** 256 to the k. */
  function Power256(k: nat): nat { if k == 0 then 1 else 256 * Power256(k - 1) }

  /** `to_le_bytes` of a k-byte integer. */
  function LittleEndian(n: nat, k: nat): (bytes: Bytes)
    ensures |bytes| == k
  {
    if k == 0 then [] else [n % 256] + LittleEndian(n / 256, k - 1)
  }

  lemma {:induction false} LittleEndianInjective(m: nat, n: nat, k: nat)
    requires m < Power256(k) && n < Power256(k)
    requires LittleEndian(m, k) == LittleEndian(n, k)
    ensures m == n
  {
    if k > 0 {
      var a, b := LittleEndian(m, k), LittleEndian(n, k);
      assert a[0] == b[0] && a[1..] == b[1..];
      LittleEndianInjective(m / 256, n / 256, k - 1);
    }
  }

  /** `ResourceLimits`; the two times are the bit patterns of their doubles. */
  datatype Limits = Limits(cpuBits: nat, wallBits: nat, memoryMb: nat, maxPids: nat,
                           maxStdout: nat, maxStderr: nat, enableNetwork: bool)
  {
    /** The fields fit the widths they are written with. */
    predicate Fits() {
      cpuBits < Power256(8) && wallBits < Power256(8) && memoryMb < Power256(4) && maxPids < Power256(4) &&
      maxStdout < Power256(4) && maxStderr < Power256(4)
    }
  }

  predicate FitsWord(languageId: nat) { languageId < Power256(4) }
  predicate FitsLen(s: Bytes) { |s| < Power256(8) }

  // "zerocode/result/v1\0", "zerocode/compile/v1\0", "zerocode/idem/v1\0"
  const RESULT_TAG: Bytes := [122, 101, 114, 111, 99, 111, 100, 101, 47, 114, 101, 115, 117, 108, 116, 47, 118, 49, 0]
  const COMPILE_TAG: Bytes :=
    [122, 101, 114, 111, 99, 111, 100, 101, 47, 99, 111, 109, 112, 105, 108, 101, 47, 118, 49, 0]
  const IDEM_TAG: Bytes := [122, 101, 114, 111, 99, 111, 100, 101, 47, 105, 100, 101, 109, 47, 118, 49, 0]

  /** A byte string behind its 64-bit length. */
  function Framed(s: Bytes): Bytes { LittleEndian(|s|, 8) + s }

  function LimitBytes(l: Limits): Bytes {
    LittleEndian(l.cpuBits, 8) + (LittleEndian(l.wallBits, 8) + (LittleEndian(l.memoryMb, 4) +
    (LittleEndian(l.maxPids, 4) + (LittleEndian(l.maxStdout, 4) + (LittleEndian(l.maxStderr, 4) +
    [if l.enableNetwork then 1 else 0])))))
  }

  function ResultInput(languageId: nat, source: Bytes, stdin: Bytes, limits: Limits): Bytes {
    RESULT_TAG + (LittleEndian(languageId, 4) + (Framed(source) + (Framed(stdin) + LimitBytes(limits))))
  }

  function CompileInput(languageId: nat, source: Bytes, options: Bytes): Bytes {
    COMPILE_TAG + (LittleEndian(languageId, 4) + (Framed(source) + Framed(options)))
  }

  function IdemInput(languageId: nat, source: Bytes, stdin: Option<Bytes>): Bytes {
    IDEM_TAG + (LittleEndian(languageId, 4) + (Framed(source) +
    (match stdin case Some(s) => [1] + Framed(s) case None => [0])))
  }

  // -------------------------------------------------------------- the hasher

  /** The incremental hasher; its digest is a function of all bytes fed so far. */
  class Hasher {
    var fed: Bytes

    constructor ()
      ensures fed == []
    {
      fed := [];
    }

    method Update(chunk: Bytes)
      modifies this
      ensures fed == old(fed) + chunk
    {
      fed := fed + chunk;
    }
  }

  lemma Assoc3(a: Bytes, b: Bytes, c: Bytes)
    ensures a + b + c == a + (b + c)
  {
  }

  lemma Assoc4(a: Bytes, b: Bytes, c: Bytes, d: Bytes)
    ensures a + b + c + d == a + (b + (c + d))
  {
  }

  /** Feeds a length-prefixed byte string. */
  method FeedFramed(h: Hasher, s: Bytes)
    modifies h
    ensures h.fed == old(h.fed) + Framed(s)
  {
    h.Update(LittleEndian(|s|, 8));
    h.Update(s);
  }

  /** What all three keys begin with. */
  method FeedHead(h: Hasher, tag: Bytes, languageId: nat, source: Bytes)
    requires h.fed == []
    modifies h
    ensures h.fed == tag + LittleEndian(languageId, 4) + Framed(source)
  {
    h.Update(tag);
    h.Update(LittleEndian(languageId, 4));
    FeedFramed(h, source);
  }

  method FeedLimits(h: Hasher, l: Limits)
    modifies h
    ensures h.fed == old(h.fed) + LimitBytes(l)
  {
    ghost var start := h.fed;
    h.Update(LittleEndian(l.cpuBits, 8));
    h.Update(LittleEndian(l.wallBits, 8));
    h.Update(LittleEndian(l.memoryMb, 4));
    h.Update(LittleEndian(l.maxPids, 4));
    ghost var tail: Bytes :=
      LittleEndian(l.maxStdout, 4) + (LittleEndian(l.maxStderr, 4) + [if l.enableNetwork then 1 else 0]);
    Assoc4(start, LittleEndian(l.cpuBits, 8), LittleEndian(l.wallBits, 8),
           LittleEndian(l.memoryMb, 4) + (LittleEndian(l.maxPids, 4) + tail));
    Assoc4(start + LittleEndian(l.cpuBits, 8) + LittleEndian(l.wallBits, 8), LittleEndian(l.memoryMb, 4),
           LittleEndian(l.maxPids, 4), tail);
    ghost var mid := h.fed;
    assert mid + tail == start + LimitBytes(l);
    h.Update(LittleEndian(l.maxStdout, 4));
    h.Update(LittleEndian(l.maxStderr, 4));
    h.Update([if l.enableNetwork then 1 else 0]);
    Assoc4(mid, LittleEndian(l.maxStdout, 4), LittleEndian(l.maxStderr, 4), [if l.enableNetwork then 1 else 0]);
  }

  method ResultKey<D>(languageId: nat, source: Bytes, stdin: Bytes, limits: Limits, digest: Bytes -> D) returns (key: D)
    ensures key == digest(ResultInput(languageId, source, stdin, limits))
  {
    var h := new Hasher();
    FeedHead(h, RESULT_TAG, languageId, source);
    ghost var head := h.fed;
    FeedFramed(h, stdin);
    FeedLimits(h, limits);
    Assoc4(RESULT_TAG, LittleEndian(languageId, 4), Framed(source), Framed(stdin) + LimitBytes(limits));
    assert h.fed == head + (Framed(stdin) + LimitBytes(limits));
    key := digest(h.fed);
  }

  method CompileKey<D>(languageId: nat, source: Bytes, options: Bytes, digest: Bytes -> D) returns (key: D)
    ensures key == digest(CompileInput(languageId, source, options))
  {
    var h := new Hasher();
    FeedHead(h, COMPILE_TAG, languageId, source);
    FeedFramed(h, options);
    Assoc4(COMPILE_TAG, LittleEndian(languageId, 4), Framed(source), Framed(options));
    key := digest(h.fed);
  }

  method IdempotencyHash<D>(languageId: nat, source: Bytes, stdin: Option<Bytes>, digest: Bytes -> D) returns (key: D)
    ensures key == digest(IdemInput(languageId, source, stdin))
  {
    var h := new Hasher();
    FeedHead(h, IDEM_TAG, languageId, source);
    ghost var head := h.fed;
    if stdin.Some? {
      h.Update([1]);
      FeedFramed(h, stdin.value);
      Assoc4(IDEM_TAG, LittleEndian(languageId, 4), Framed(source), [1] + Framed(stdin.value));
      assert h.fed == head + ([1] + Framed(stdin.value));
    } else {
      h.Update([0]);
      Assoc4(IDEM_TAG, LittleEndian(languageId, 4), Framed(source), [0]);
    }
    key := digest(h.fed);
  }

  // ----------------------------------------------------------- injectivity

  lemma Cancel(a: Bytes, b: Bytes, c: Bytes, d: Bytes)
    requires |a| == |b| && a + c == b + d
    ensures a == b && c == d
  {
    assert a == (a + c)[..|a|] && b == (b + d)[..|b|];
    assert c == (a + c)[|a|..] && d == (b + d)[|b|..];
  }

  lemma CancelInt(m: nat, n: nat, k: nat, c: Bytes, d: Bytes)
    requires m < Power256(k) && n < Power256(k)
    requires LittleEndian(m, k) + c == LittleEndian(n, k) + d
    ensures m == n && c == d
  {
    Cancel(LittleEndian(m, k), LittleEndian(n, k), c, d);
    LittleEndianInjective(m, n, k);
  }

  lemma CancelLength(k: nat, s: Bytes, t: Bytes, c: Bytes, d: Bytes)
    requires |s| < Power256(k) && |t| < Power256(k)
    requires LittleEndian(|s|, k) + s + c == LittleEndian(|t|, k) + t + d
    ensures s == t && c == d
  {
    Assoc3(LittleEndian(|s|, k), s, c);
    Assoc3(LittleEndian(|t|, k), t, d);
    CancelInt(|s|, |t|, k, s + c, t + d);
    Cancel(s, t, c, d);
  }

  lemma CancelFramed(s: Bytes, t: Bytes, c: Bytes, d: Bytes)
    requires FitsLen(s) && FitsLen(t) && Framed(s) + c == Framed(t) + d
    ensures s == t && c == d
  {
    CancelLength(8, s, t, c, d);
  }

  lemma LimitBytesInjective(l: Limits, m: Limits)
    requires l.Fits() && m.Fits() && LimitBytes(l) == LimitBytes(m)
    ensures l == m
  {
    var l5 := LittleEndian(l.maxStderr, 4) + [if l.enableNetwork then 1 else 0];
    var m5 := LittleEndian(m.maxStderr, 4) + [if m.enableNetwork then 1 else 0];
    var l4, m4 := LittleEndian(l.maxStdout, 4) + l5, LittleEndian(m.maxStdout, 4) + m5;
    var l3, m3 := LittleEndian(l.maxPids, 4) + l4, LittleEndian(m.maxPids, 4) + m4;
    var l2, m2 := LittleEndian(l.memoryMb, 4) + l3, LittleEndian(m.memoryMb, 4) + m3;
    var l1, m1 := LittleEndian(l.wallBits, 8) + l2, LittleEndian(m.wallBits, 8) + m2;
    CancelInt(l.cpuBits, m.cpuBits, 8, l1, m1);
    CancelInt(l.wallBits, m.wallBits, 8, l2, m2);
    CancelInt(l.memoryMb, m.memoryMb, 4, l3, m3);
    CancelInt(l.maxPids, m.maxPids, 4, l4, m4);
    CancelInt(l.maxStdout, m.maxStdout, 4, l5, m5);
    CancelInt(l.maxStderr, m.maxStderr, 4, [if l.enableNetwork then 1 else 0], [if m.enableNetwork then 1 else 0]);
  }

  /** Equal result inputs come from equal submissions, limits included. */
  lemma ResultInputInjective(i: nat, s: Bytes, x: Bytes, l: Limits, i': nat, s': Bytes, x': Bytes, l': Limits)
    requires FitsWord(i) && FitsWord(i') && FitsLen(s) && FitsLen(s')
    requires FitsLen(x) && FitsLen(x') && l.Fits() && l'.Fits()
    ensures ResultInput(i, s, x, l) == ResultInput(i', s', x', l') <==> i == i' && s == s' && x == x' && l == l'
  {
    if ResultInput(i, s, x, l) == ResultInput(i', s', x', l') {
      var c, c' := Framed(x) + LimitBytes(l), Framed(x') + LimitBytes(l');
      var b, b' := Framed(s) + c, Framed(s') + c';
      Cancel(RESULT_TAG, RESULT_TAG, LittleEndian(i, 4) + b, LittleEndian(i', 4) + b');
      CancelInt(i, i', 4, b, b');
      CancelFramed(s, s', c, c');
      CancelFramed(x, x', LimitBytes(l), LimitBytes(l'));
      LimitBytesInjective(l, l');
    }
  }

  /** Equal compile inputs come from equal sources under equal options. */
  lemma CompileInputInjective(i: nat, s: Bytes, o: Bytes, i': nat, s': Bytes, o': Bytes)
    requires FitsWord(i) && FitsWord(i') && FitsLen(s) && FitsLen(s') && FitsLen(o) && FitsLen(o')
    ensures CompileInput(i, s, o) == CompileInput(i', s', o') <==> i == i' && s == s' && o == o'
  {
    if CompileInput(i, s, o) == CompileInput(i', s', o') {
      var b, b' := Framed(s) + Framed(o), Framed(s') + Framed(o');
      Cancel(COMPILE_TAG, COMPILE_TAG, LittleEndian(i, 4) + b, LittleEndian(i', 4) + b');
      CancelInt(i, i', 4, b, b');
      CancelFramed(s, s', Framed(o), Framed(o'));
      assert Framed(o) + [] == Framed(o) && Framed(o') + [] == Framed(o');
      CancelFramed(o, o', [], []);
    }
  }

  /** Equal idempotency inputs come from equal requests; no stdin and an empty stdin differ. */
  lemma IdemInputInjective(i: nat, s: Bytes, x: Option<Bytes>, i': nat, s': Bytes, x': Option<Bytes>)
    requires FitsWord(i) && FitsWord(i') && FitsLen(s) && FitsLen(s')
    requires (x.Some? ==> FitsLen(x.value)) && (x'.Some? ==> FitsLen(x'.value))
    ensures IdemInput(i, s, x) == IdemInput(i', s', x') <==> i == i' && s == s' && x == x'
  {
    if IdemInput(i, s, x) == IdemInput(i', s', x') {
      var c: Bytes := match x case Some(v) => [1] + Framed(v) case None => [0];
      var c': Bytes := match x' case Some(v) => [1] + Framed(v) case None => [0];
      var b, b' := Framed(s) + c, Framed(s') + c';
      Cancel(IDEM_TAG, IDEM_TAG, LittleEndian(i, 4) + b, LittleEndian(i', 4) + b');
      CancelInt(i, i', 4, b, b');
      CancelFramed(s, s', c, c');
      assert c[0] == c'[0];
      if x.Some? && x'.Some? {
        Cancel([1], [1], Framed(x.value), Framed(x'.value));
        assert Framed(x.value) + [] == Framed(x.value) && Framed(x'.value) + [] == Framed(x'.value);
        CancelFramed(x.value, x'.value, [], []);
      }
    }
  }

  /** No input of one kind is an input of another. */
  lemma KindsAreDisjoint(
    i: nat, s: Bytes, x: Bytes, l: Limits, j: nat, t: Bytes, o: Bytes, k: nat, u: Bytes, y: Option<Bytes>)
    ensures ResultInput(i, s, x, l) != CompileInput(j, t, o)
    ensures ResultInput(i, s, x, l) != IdemInput(k, u, y)
    ensures CompileInput(j, t, o) != IdemInput(k, u, y)
  {
    assert ResultInput(i, s, x, l)[9] == RESULT_TAG[9];
    assert CompileInput(j, t, o)[9] == COMPILE_TAG[9];
    assert IdemInput(k, u, y)[9] == IDEM_TAG[9];
  }
}
