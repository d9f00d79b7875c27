/** The playground's line diff: an LCS table filled from the bottom right and a
    walk over it. The walk is proved against the definition of a longest common
    subsequence, not against the recurrence that fills the table. */
module LineDiff {
  import opened Texts

  datatype Kind = Same | Add | Del
  datatype DiffLine = DiffLine(kind: Kind, text: string)

  /** `split(/\r?\n/)`: cut at every LF, a CR immediately before it belongs to the cut. */
  function SplitLines(s: string): (lines: seq<string>)
    ensures lines != []
    ensures forall k :: 0 <= k < |lines| ==> '\n' !in lines[k]
  {
    if s == "" then [""]
    else if s[0] == '\n' then [""] + SplitLines(s[1..])
    else if s[0] == '\r' && |s| > 1 && s[1] == '\n' then [""] + SplitLines(s[2..])
    else
      var rest := SplitLines(s[1..]);
      [[s[0]] + rest[0]] + rest[1..]
  }

  /** The text with every CR LF pair written as LF. */
  function Unixify(s: string): string {
    if s == "" then ""
    else if s[0] == '\r' && |s| > 1 && s[1] == '\n' then "\n" + Unixify(s[2..])
    else [s[0]] + Unixify(s[1..])
  }

  /** Splitting loses nothing but the CR of a CR LF pair. */
  lemma {:induction false} SplitLinesSpells(s: string)
    ensures JoinLF(SplitLines(s)) == Unixify(s)
  {
    if s == "" {
    } else if s[0] == '\n' {
      SplitLinesSpells(s[1..]);
      assert SplitLines(s)[1..] == SplitLines(s[1..]);
    } else if s[0] == '\r' && |s| > 1 && s[1] == '\n' {
      SplitLinesSpells(s[2..]);
      assert SplitLines(s)[1..] == SplitLines(s[2..]);
    } else {
      SplitLinesSpells(s[1..]);
      var rest := SplitLines(s[1..]);
      assert SplitLines(s)[1..] == rest[1..];
      assert SplitLines(s)[0] == [s[0]] + rest[0];
      if |rest| > 1 {
        assert [s[0]] + rest[0] + "\n" + JoinLF(rest[1..]) == [s[0]] + (rest[0] + "\n" + JoinLF(rest[1..]));
      }
    }
  }

  /** `c` can be read off `s` from left to right, skipping elements. */
  ghost predicate IsSubseq(c: seq<string>, s: seq<string>) {
    c == [] || (s != [] && ((c[0] == s[0] && IsSubseq(c[1..], s[1..])) || IsSubseq(c, s[1..])))
  }

  lemma {:induction false} SubseqTail(c: seq<string>, s: seq<string>)
    requires c != [] && IsSubseq(c, s)
    ensures IsSubseq(c[1..], s[1..])
  {
    if !(c[0] == s[0] && IsSubseq(c[1..], s[1..])) {
      SubseqTail(c, s[1..]);
    }
  }

  /** The value the table holds for two suffixes. */
  function Lcs(a: seq<string>, b: seq<string>): nat
    decreases |a| + |b|
  {
    if a == [] || b == [] then 0
    else if a[0] == b[0] then 1 + Lcs(a[1..], b[1..])
    else if Lcs(a[1..], b) >= Lcs(a, b[1..]) then Lcs(a[1..], b) else Lcs(a, b[1..])
  }

  /** No common subsequence is longer than `Lcs`. */
  lemma {:induction false} LcsIsUpperBound(a: seq<string>, b: seq<string>, c: seq<string>)
    requires IsSubseq(c, a) && IsSubseq(c, b)
    ensures |c| <= Lcs(a, b)
    decreases |a| + |b|
  {
    if c == [] {
    } else if a[0] == b[0] {
      SubseqTail(c, a);
      SubseqTail(c, b);
      LcsIsUpperBound(a[1..], b[1..], c[1..]);
    } else if c[0] != a[0] {
      LcsIsUpperBound(a[1..], b, c);
    } else {
      LcsIsUpperBound(a, b[1..], c);
    }
  }

  /** The lines of a script that belong to the first text. */
  function Left(d: seq<DiffLine>): seq<string> {
    if d == [] then []
    else Left(d[..|d| - 1]) + (if d[|d| - 1].kind == Add then [] else [d[|d| - 1].text])
  }

  /** The lines of a script that belong to the second text. */
  function Right(d: seq<DiffLine>): seq<string> {
    if d == [] then []
    else Right(d[..|d| - 1]) + (if d[|d| - 1].kind == Del then [] else [d[|d| - 1].text])
  }

  /** The lines of a script kept by both texts. */
  function Sames(d: seq<DiffLine>): seq<string> {
    if d == [] then []
    else Sames(d[..|d| - 1]) + (if d[|d| - 1].kind == Same then [d[|d| - 1].text] else [])
  }

  lemma {:induction false} SubseqAppend(c: seq<string>, s: seq<string>, x: string)
    requires IsSubseq(c, s)
    ensures IsSubseq(c, s + [x]) && IsSubseq(c + [x], s + [x])
  {
    if s == [] {
      assert c + [x] == s + [x] == [x];
      assert [x][1..] == [];
    } else {
      assert (s + [x])[1..] == s[1..] + [x];
      if c == [] {
        SubseqAppend(c, s[1..], x);
        assert c + [x] == [x];
      } else if c[0] == s[0] && IsSubseq(c[1..], s[1..]) {
        SubseqAppend(c[1..], s[1..], x);
        assert (c + [x])[1..] == c[1..] + [x];
      } else {
        SubseqAppend(c, s[1..], x);
      }
    }
  }

  lemma {:induction false} SamesAreLeft(d: seq<DiffLine>)
    ensures IsSubseq(Sames(d), Left(d))
  {
    if d != [] {
      var p, x := d[..|d| - 1], d[|d| - 1];
      SamesAreLeft(p);
      SubseqAppend(Sames(p), Left(p), x.text);
      assert Sames(p) + [] == Sames(p) && Left(p) + [] == Left(p);
    }
  }

  lemma {:induction false} SamesAreRight(d: seq<DiffLine>)
    ensures IsSubseq(Sames(d), Right(d))
  {
    if d != [] {
      var p, x := d[..|d| - 1], d[|d| - 1];
      SamesAreRight(p);
      SubseqAppend(Sames(p), Right(p), x.text);
      assert Sames(p) + [] == Sames(p) && Right(p) + [] == Right(p);
    }
  }

  /** In any script the kept lines are a common subsequence of the two texts it spells. */
  lemma SamesAreCommon(d: seq<DiffLine>)
    ensures IsSubseq(Sames(d), Left(d)) && IsSubseq(Sames(d), Right(d))
  {
    SamesAreLeft(d);
    SamesAreRight(d);
  }

  // -------------------------------------------------- which of the best scripts

  function Place(k: Kind): nat {
    match k
    case Same => 0
    case Del => 1
    case Add => 2
  }

  /** In the first place where they differ, `c` has the kind that comes first: a kept line before
      a deleted one before an added one. */
  predicate NotAfter(c: seq<DiffLine>, d: seq<DiffLine>) {
    c == [] ||
    (d != [] && (Place(c[0].kind) < Place(d[0].kind) || (c[0] == d[0] && NotAfter(c[1..], d[1..]))))
  }

  /** The script of two suffixes. */
  function Script(a: seq<string>, b: seq<string>): seq<DiffLine>
    decreases |a| + |b|
  {
    if a == [] && b == [] then []
    else if a != [] && b != [] && a[0] == b[0] then [DiffLine(Same, a[0])] + Script(a[1..], b[1..])
    else if a != [] && (b == [] || Lcs(a[1..], b) >= Lcs(a, b[1..])) then [DiffLine(Del, a[0])] + Script(a[1..], b)
    else [DiffLine(Add, b[0])] + Script(a, b[1..])
  }

  lemma {:induction false} LeftFromTheFront(d: seq<DiffLine>)
    requires d != []
    ensures Left(d) == (if d[0].kind == Add then [] else [d[0].text]) + Left(d[1..])
  {
    var n := |d| - 1;
    if n > 0 {
      LeftFromTheFront(d[..n]);
      assert d[1..][..n - 1] == d[..n][1..];
      Assoc(if d[0].kind == Add then [] else [d[0].text], Left(d[..n][1..]),
            if d[n].kind == Add then [] else [d[n].text]);
    }
  }

  lemma {:induction false} RightFromTheFront(d: seq<DiffLine>)
    requires d != []
    ensures Right(d) == (if d[0].kind == Del then [] else [d[0].text]) + Right(d[1..])
  {
    var n := |d| - 1;
    if n > 0 {
      RightFromTheFront(d[..n]);
      assert d[1..][..n - 1] == d[..n][1..];
      Assoc(if d[0].kind == Del then [] else [d[0].text], Right(d[..n][1..]),
            if d[n].kind == Del then [] else [d[n].text]);
    }
  }

  lemma {:induction false} SamesFromTheFront(d: seq<DiffLine>)
    requires d != []
    ensures Sames(d) == (if d[0].kind == Same then [d[0].text] else []) + Sames(d[1..])
  {
    var n := |d| - 1;
    if n > 0 {
      SamesFromTheFront(d[..n]);
      assert d[1..][..n - 1] == d[..n][1..];
      Assoc(if d[0].kind == Same then [d[0].text] else [], Sames(d[..n][1..]),
            if d[n].kind == Same then [d[n].text] else []);
    }
  }

  /** Every other best script comes after it. */
  lemma {:induction false} ScriptComesFirst(a: seq<string>, b: seq<string>, d: seq<DiffLine>)
    requires Left(d) == a && Right(d) == b && |Sames(d)| == Lcs(a, b)
    ensures NotAfter(Script(a, b), d)
    decreases |d|
  {
    if d != [] {
      LeftFromTheFront(d);
      RightFromTheFront(d);
      SamesFromTheFront(d);
      var c, rest := Script(a, b), d[1..];
      SamesAreCommon(rest);
      if d[0].kind == Del {
        assert Left(rest) == a[1..] && Right(rest) == b;
        LcsIsUpperBound(a[1..], b, Sames(rest));
      } else if d[0].kind == Add {
        assert Left(rest) == a && Right(rest) == b[1..];
        LcsIsUpperBound(a, b[1..], Sames(rest));
      }
      if c[0].kind == d[0].kind {
        ScriptComesFirst(Left(rest), Right(rest), rest);
        assert c[1..] == Script(Left(rest), Right(rest));
      }
    }
  }

  /** The diff shown for two texts: it spells both, no script that spells them keeps more lines,
      and of those that keep as many it comes first. */
  method LineDiff(a: string, b: string) returns (out: seq<DiffLine>)
    ensures Left(out) == SplitLines(a)
    ensures Right(out) == SplitLines(b)
    ensures |Sames(out)| == Lcs(SplitLines(a), SplitLines(b))
    ensures forall d :: Left(d) == SplitLines(a) && Right(d) == SplitLines(b) ==> |Sames(d)| <= |Sames(out)|
    ensures forall d :: Left(d) == SplitLines(a) && Right(d) == SplitLines(b) && |Sames(d)| == |Sames(out)| ==>
              NotAfter(out, d)
  {
    var aL, bL := SplitLines(a), SplitLines(b);
    var dp := FillTable(aL, bL);
    out := Walk(aL, bL, dp);
    forall d | Left(d) == aL && Right(d) == bL
      ensures |Sames(d)| <= |Sames(out)|
    {
      SamesAreCommon(d);
      LcsIsUpperBound(aL, bL, Sames(d));
    }
    forall d | Left(d) == aL && Right(d) == bL && |Sames(d)| == |Sames(out)|
      ensures NotAfter(out, d)
    {
      ScriptComesFirst(aL, bL, d);
    }
  }

  ghost predicate IsTable(dp: array2<nat>, aL: seq<string>, bL: seq<string>)
    reads dp
  {
    dp.Length0 == |aL| + 1 && dp.Length1 == |bL| + 1 &&
    forall p, q :: 0 <= p <= |aL| && 0 <= q <= |bL| ==> dp[p, q] == Lcs(aL[p..], bL[q..])
  }

  ghost predicate IsRow(dp: array2<nat>, aL: seq<string>, bL: seq<string>, p: nat, from: nat)
    requires p <= |aL| && dp.Length0 == |aL| + 1 && dp.Length1 == |bL| + 1
    reads dp
  {
    forall q :: from <= q <= |bL| ==> dp[p, q] == Lcs(aL[p..], bL[q..])
  }

  /** The inner loop: one row, right to left, from the row below it. */
  method FillRow(dp: array2<nat>, aL: seq<string>, bL: seq<string>, i: nat)
    requires i < |aL| && dp.Length0 == |aL| + 1 && dp.Length1 == |bL| + 1
    requires IsRow(dp, aL, bL, i + 1, 0) && dp[i, |bL|] == 0
    modifies dp
    ensures IsRow(dp, aL, bL, i, 0)
    ensures forall p, q :: 0 <= p <= |aL| && 0 <= q <= |bL| && p != i ==> dp[p, q] == old(dp[p, q])
  {
    var j := |bL|;
    while j > 0
      invariant 0 <= j <= |bL|
      invariant IsRow(dp, aL, bL, i, j)
      invariant forall p, q :: 0 <= p <= |aL| && 0 <= q <= |bL| && p != i ==> dp[p, q] == old(dp[p, q])
    {
      j := j - 1;
      var cell :=
        if aL[i] == bL[j] then dp[i + 1, j + 1] + 1
        else if dp[i + 1, j] >= dp[i, j + 1] then dp[i + 1, j] else dp[i, j + 1];
      assert cell == Lcs(aL[i..], bL[j..]);
      dp[i, j] := cell;
    }
  }

  method FillTable(aL: seq<string>, bL: seq<string>) returns (dp: array2<nat>)
    ensures fresh(dp) && IsTable(dp, aL, bL)
  {
    var m, n := |aL|, |bL|;
    dp := new nat[m + 1, n + 1]((_, _) => 0);
    var i := m;
    while i > 0
      invariant 0 <= i <= m
      invariant forall p :: i <= p <= m ==> IsRow(dp, aL, bL, p, 0)
      invariant forall p :: 0 <= p < i ==> dp[p, n] == 0
    {
      i := i - 1;
      label rows:
      FillRow(dp, aL, bL, i);
      forall p | i < p <= m
        ensures IsRow(dp, aL, bL, p, 0)
      {
        assert old@rows(IsRow(dp, aL, bL, p, 0));
      }
    }
    forall p, q | 0 <= p <= m && 0 <= q <= n
      ensures dp[p, q] == Lcs(aL[p..], bL[q..])
    {
      assert IsRow(dp, aL, bL, p, 0);
    }
  }

  /** What the walk has established after consuming `i` and `j` lines, with `rest` lines
      still to be kept. */
  ghost predicate WalkedTo(aL: seq<string>, bL: seq<string>, i: nat, j: nat, out: seq<DiffLine>, rest: nat) {
    i <= |aL| && j <= |bL| && Left(out) == aL[..i] && Right(out) == bL[..j] &&
    |Sames(out)| + rest == Lcs(aL, bL) && out + Script(aL[i..], bL[j..]) == Script(aL, bL)
  }

  lemma Keep(aL: seq<string>, bL: seq<string>, i: nat, j: nat, out: seq<DiffLine>, rest: nat)
    requires i < |aL| && j < |bL| && aL[i] == bL[j] && rest > 0
    requires WalkedTo(aL, bL, i, j, out, rest)
    ensures WalkedTo(aL, bL, i + 1, j + 1, out + [DiffLine(Same, aL[i])], rest - 1)
  {
    Assoc(out, [DiffLine(Same, aL[i])], Script(aL[i + 1..], bL[j + 1..]));
  }

  lemma Delete(aL: seq<string>, bL: seq<string>, i: nat, j: nat, out: seq<DiffLine>, rest: nat)
    requires i < |aL| && WalkedTo(aL, bL, i, j, out, rest)
    requires j < |bL| ==> aL[i] != bL[j] && Lcs(aL[i + 1..], bL[j..]) >= Lcs(aL[i..], bL[j + 1..])
    ensures WalkedTo(aL, bL, i + 1, j, out + [DiffLine(Del, aL[i])], rest)
  {
    Assoc(out, [DiffLine(Del, aL[i])], Script(aL[i + 1..], bL[j..]));
  }

  lemma Insert(aL: seq<string>, bL: seq<string>, i: nat, j: nat, out: seq<DiffLine>, rest: nat)
    requires j < |bL| && WalkedTo(aL, bL, i, j, out, rest)
    requires i < |aL| ==> aL[i] != bL[j] && Lcs(aL[i + 1..], bL[j..]) < Lcs(aL[i..], bL[j + 1..])
    ensures WalkedTo(aL, bL, i, j + 1, out + [DiffLine(Add, bL[j])], rest)
  {
    Assoc(out, [DiffLine(Add, bL[j])], Script(aL[i..], bL[j + 1..]));
  }

  method Walk(aL: seq<string>, bL: seq<string>, dp: array2<nat>) returns (out: seq<DiffLine>)
    requires IsTable(dp, aL, bL)
    ensures Left(out) == aL && Right(out) == bL
    ensures |Sames(out)| == Lcs(aL, bL) && out == Script(aL, bL)
  {
    var m, n := |aL|, |bL|;
    var i, j := 0, 0;
    out := [];
    while i < m && j < n
      invariant 0 <= i <= m && 0 <= j <= n
      invariant WalkedTo(aL, bL, i, j, out, dp[i, j])
      decreases m - i + n - j
    {
      if aL[i] == bL[j] {
        Keep(aL, bL, i, j, out, dp[i, j]);
        out := out + [DiffLine(Same, aL[i])];
        i, j := i + 1, j + 1;
      } else if dp[i + 1, j] >= dp[i, j + 1] {
        Delete(aL, bL, i, j, out, dp[i, j]);
        out := out + [DiffLine(Del, aL[i])];
        i := i + 1;
      } else {
        Insert(aL, bL, i, j, out, dp[i, j]);
        out := out + [DiffLine(Add, bL[j])];
        j := j + 1;
      }
    }
    out := WalkOn(aL, bL, i, j, out);
  }

  /** The last two loops, of which one has nothing to do. */
  method WalkOn(aL: seq<string>, bL: seq<string>, i0: nat, j0: nat, out0: seq<DiffLine>) returns (out: seq<DiffLine>)
    requires (i0 == |aL| || j0 == |bL|) && WalkedTo(aL, bL, i0, j0, out0, 0)
    ensures Left(out) == aL && Right(out) == bL
    ensures |Sames(out)| == Lcs(aL, bL) && out == Script(aL, bL)
  {
    var i, j := i0, j0;
    out := out0;
    while i < |aL|
      invariant 0 <= i <= |aL| && (i == |aL| || j == |bL|) && WalkedTo(aL, bL, i, j, out, 0)
    {
      Delete(aL, bL, i, j, out, 0);
      out := out + [DiffLine(Del, aL[i])];
      i := i + 1;
    }
    while j < |bL|
      invariant 0 <= j <= |bL| && i == |aL| && WalkedTo(aL, bL, i, j, out, 0)
    {
      Insert(aL, bL, i, j, out, 0);
      out := out + [DiffLine(Add, bL[j])];
      j := j + 1;
    }
  }
}
