/** The compile cache end to end: pack the box after a compile, send the archive through a
    pipe, keep it under the compile key, and restore it instead of compiling again. The
    archive format is a pair of functions of which only the round trip is used. */
module Artifact {
  import opened Wrappers
  import opened Statements

  type Bytes = seq<nat>
  type Name = string
  type Path = seq<Name>

  datatype Leaf = File(content: Bytes, mode: nat) | Dir(mode: nat) | Symlink | Special {
    predicate Packable() { File? || Dir? }
  }

  /** A box: what is at each path below it. */
  type Tree = map<Path, Leaf>

  /** Every entry lies in a directory that is there too, and below the top level there are
      only files and directories. */
  predicate ValidTree(t: Tree) {
    && (forall p :: p in t ==> p != [])
    && (forall p :: p in t && |p| > 1 ==> [p[0]] in t && t[[p[0]]].Dir? && t[p].Packable())
  }

  datatype Entry = Entry(path: Path, leaf: Leaf)
  type Archive = seq<Entry>

  // ------------------------------------------------------------------ packing

  predicate Kept(t: Tree, exclude: set<Name>, p: Path) {
    p in t && p != [] && p[0] !in exclude && [p[0]] in t && t[[p[0]]].Packable()
  }

  /** The part of a box that belongs into its archive. */
  function Outputs(t: Tree, exclude: set<Name>): Tree {
    map p | p in t && Kept(t, exclude, p) :: t[p]
  }

  /** `a` lists every path of `m` exactly once, with its leaf. */
  ghost predicate Lists(a: Archive, m: Tree) {
    && (forall k :: 0 <= k < |a| ==> a[k].path in m && m[a[k].path] == a[k].leaf)
    && (forall k, l :: 0 <= k < l < |a| ==> a[k].path != a[l].path)
    && (forall p :: p in m ==> exists k :: 0 <= k < |a| && a[k].path == p)
  }

  function Below(t: Tree, name: Name): Tree {
    map p | p in t && p != [] && p[0] == name :: t[p]
  }

  /** The entries of a directory and everything in it, in some order. */
  method AppendDirAll(t: Tree, name: Name) returns (a: Archive)
    ensures Lists(a, Below(t, name))
  {
    var all := Below(t, name);
    var todo := all;
    a := [];
    while todo.Keys != {}
      invariant todo.Keys <= all.Keys
      invariant forall p :: p in todo ==> todo[p] == all[p]
      invariant Lists(a, all - todo.Keys)
      decreases |todo.Keys|
    {
      var p :| p in todo.Keys;
      ListsMore(a, all - todo.Keys, p, todo[p]);
      OneMore(all, todo.Keys, p);
      a := a + [Entry(p, todo[p])];
      todo := todo - {p};
    }
    assert all - {} == all;
  }

  lemma OneMore(m: Tree, rest: set<Path>, p: Path)
    requires p in rest && p in m
    ensures m - (rest - {p}) == (m - rest)[p := m[p]]
  {
  }

  lemma ListsMore(a: Archive, m: Tree, p: Path, leaf: Leaf)
    requires Lists(a, m) && p !in m
    ensures Lists(a + [Entry(p, leaf)], m[p := leaf])
  {
    var a', m' := a + [Entry(p, leaf)], m[p := leaf];
    forall q | q in m'
      ensures exists k :: 0 <= k < |a'| && a'[k].path == q
    {
      if q == p {
        assert a'[|a|].path == p;
      } else {
        var k :| 0 <= k < |a| && a[k].path == q;
        assert a'[k].path == q;
      }
    }
  }

  lemma ListsBoth(a: Archive, m: Tree, b: Archive, n: Tree)
    requires Lists(a, m) && Lists(b, n) && m.Keys !! n.Keys
    ensures Lists(a + b, m + n)
  {
    var c := a + b;
    forall q | q in m + n
      ensures exists k :: 0 <= k < |c| && c[k].path == q
    {
      if q in n {
        var k :| 0 <= k < |b| && b[k].path == q;
        assert c[|a| + k].path == q;
      } else {
        var k :| 0 <= k < |a| && a[k].path == q;
        assert c[k].path == q;
      }
    }
  }

  /** What packing has covered once the top-level names `seen` are done. */
  function OutputsOf(t: Tree, exclude: set<Name>, seen: set<Name>): Tree {
    map p | p in t && Kept(t, exclude, p) && p[0] in seen :: t[p]
  }

  /** `pack_dir`: the listed names at the top level are skipped, and so is anything there
      that is neither a file nor a directory. */
  method PackDir(t: Tree, exclude: set<Name>) returns (a: Archive)
    requires ValidTree(t)
    ensures Lists(a, Outputs(t, exclude))
  {
    var names := set p | p in t && |p| == 1 :: p[0];
    forall n | n in names
      ensures [n] in t
    {
      var p :| p in t && |p| == 1 && p[0] == n;
      assert p == [n];
    }
    forall p | p in t
      ensures p[0] in names
    {
      assert p == [p[0]] || [p[0]] in t;
      assert [p[0]] in t && |[p[0]]| == 1 && [p[0]][0] == p[0];
    }
    var seen: set<Name> := {};
    a := [];
    while names != {}
      invariant forall p :: p in t ==> p[0] in names + seen
      invariant forall n :: n in names ==> [n] in t
      invariant names !! seen
      invariant Lists(a, OutputsOf(t, exclude, seen))
      decreases |names|
    {
      var name :| name in names;
      var more: Archive := [];
      if name !in exclude && t[[name]].Dir? {
        more := AppendDirAll(t, name);
      } else if name !in exclude && t[[name]].File? {
        more := [] + [Entry([name], t[[name]])];
        FileIsAlone(t, name);
        ListsMore([], map[], [name], t[[name]]);
      }
      PackedName(t, exclude, seen, name);
      ghost var now := OutputsOf(t, exclude, {name});
      assert Lists(more, now) by { PackedOne(t, exclude, name, more); }
      ListsBoth(a, OutputsOf(t, exclude, seen), more, now);
      a := a + more;
      names, seen := names - {name}, seen + {name};
    }
    assert OutputsOf(t, exclude, seen) == Outputs(t, exclude);
  }

  lemma FileIsAlone(t: Tree, name: Name)
    requires ValidTree(t) && [name] in t && !t[[name]].Dir?
    ensures Below(t, name) == map[[name] := t[[name]]]
  {
    forall p | p in t && p != [] && p[0] == name
      ensures p == [name]
    {
      if |p| > 1 {
        assert false;
      }
    }
  }

  lemma PackedName(t: Tree, exclude: set<Name>, seen: set<Name>, name: Name)
    requires name !in seen
    ensures OutputsOf(t, exclude, seen) + OutputsOf(t, exclude, {name}) == OutputsOf(t, exclude, seen + {name})
    ensures OutputsOf(t, exclude, seen).Keys !! OutputsOf(t, exclude, {name}).Keys
  {
  }

  lemma PackedOne(t: Tree, exclude: set<Name>, name: Name, more: Archive)
    requires ValidTree(t) && [name] in t
    requires name !in exclude && t[[name]].Packable() ==> Lists(more, Below(t, name))
    requires name in exclude || !t[[name]].Packable() ==> more == []
    ensures Lists(more, OutputsOf(t, exclude, {name}))
  {
    if name !in exclude && t[[name]].Packable() {
      assert OutputsOf(t, exclude, {name}) == Below(t, name);
    } else {
      assert OutputsOf(t, exclude, {name}) == map[];
    }
  }

  // ---------------------------------------------------------------- the pipe

  datatype WriteResult = Wrote(n: nat) | Interrupted | WriteError

  function Written(writes: seq<WriteResult>): nat {
    if writes == [] then 0
    else Written(writes[..|writes| - 1]) + if writes[|writes| - 1].Wrote? then writes[|writes| - 1].n else 0
  }

  /** `send_artifact` over a script of write results; the script ends when the child is
      killed, and a last write takes no more than what is left. What was sent is a prefix, and
      a proper one only after an error, a zero-byte write or a kill. */
  method SendArtifact(bytes: Bytes, writes: seq<WriteResult>) returns (sent: Bytes, n: nat)
    ensures n <= |writes| && sent == if Written(writes[..n]) <= |bytes| then bytes[..Written(writes[..n])] else bytes
    ensures sent == bytes || n == |writes| || (n > 0 && (writes[n - 1] == WriteError || writes[n - 1] == Wrote(0)))
  {
    var off := 0;
    n := 0;
    while off < |bytes| && n < |writes|
      invariant 0 <= off <= |bytes| && n <= |writes|
      invariant off == if Written(writes[..n]) <= |bytes| then Written(writes[..n]) else |bytes|
    {
      n := n + 1;
      assert writes[..n][..n - 1] == writes[..n - 1];
      match writes[n - 1] {
        case Wrote(k) =>
          if k == 0 {
            break;
          }
          off := if off + k <= |bytes| then off + k else |bytes|;
        case Interrupted =>
        case WriteError =>
          break;
      }
    }
    sent := bytes[..off];
  }

  datatype ReadResult = Data(chunk: Bytes) | ReadInterrupted | Eof | ReadError

  /** Everything a reader gets before the end or an error. */
  function Stream(script: seq<ReadResult>): Bytes {
    if script == [] || script[0].Eof? || script[0].ReadError? then []
    else (if script[0].Data? then script[0].chunk else []) + Stream(script[1..])
  }

  /** `read_capped`: the first `cap` bytes of the stream; the rest is read and dropped. */
  method ReadCapped(script: seq<ReadResult>, cap: nat) returns (buf: Bytes)
    ensures buf <= Stream(script) && |buf| == if |Stream(script)| <= cap then |Stream(script)| else cap
  {
    buf := [];
    var k := 0;
    ghost var whole, rest := Stream(script), Stream(script);
    assert script[0..] == script;
    while k < |script|
      invariant 0 <= k <= |script| && |buf| <= cap && (|buf| < cap || cap == 0)
      invariant whole == buf + rest && rest == Stream(script[k..])
    {
      match script[k] {
        case Eof => return;
        case ReadError => return;
        case ReadInterrupted =>
        case Data(chunk) =>
          var take := if cap - |buf| <= |chunk| then cap - |buf| else |chunk|;
          buf := buf + chunk[..take];
          if |buf| >= cap {
            return;
          }
      }
      k := k + 1;
      rest := Stream(script[k..]);
    }
  }

  // --------------------------------------------------------------- the cache

  datatype CacheRow = CacheRow(blob: Bytes, createdAt: int)

  /** The artifact table: the first writer of a key wins until the row is purged. */
  class CompileCache<K(==, !new)> {
    var rows: map<K, CacheRow>

    constructor ()
      ensures rows == map[]
    {
      rows := map[];
    }

    method Get(key: K) returns (blob: Option<Bytes>)
      ensures blob == if key in rows then Some(rows[key].blob) else None
    {
      blob := if key in rows then Some(rows[key].blob) else None;
    }

    method Insert(key: K, blob: Bytes, now: int)
      modifies this
      ensures rows == if key in old(rows) then old(rows) else old(rows)[key := CacheRow(blob, now)]
    {
      if key !in rows {
        rows := rows[key := CacheRow(blob, now)];
      }
    }

    /** What is left is what was young enough, unchanged. */
    method PurgeBefore(cutoff: int) returns (purged: nat)
      modifies this
      ensures forall k :: k in rows <==> k in old(rows) && old(rows)[k].createdAt >= cutoff
      ensures forall k :: k in rows ==> rows[k] == old(rows)[k]
      ensures |rows| + purged == |old(rows)|
    {
      rows, purged := DeleteWhere(rows, (r: CacheRow) => r.createdAt < cutoff);
    }
  }

  // ------------------------------------------------------------ the restored box

  const STDIN := "stdin"

  /** What reading a blob as an archive yields: the entries up to the first fault, and whether
      there was none. */
  datatype Decoded = Decoded(entries: Archive, whole: bool)

  datatype Format = Format(encode: Archive -> Bytes, decode: Bytes -> Decoded) {
    ghost predicate RoundTrips() { forall a :: decode(encode(a)) == Decoded(a, true) && encode(a) != [] }
  }

  /** A box with only a submission's inputs in it. */
  function Staged(sourceFile: Name, source: Bytes, stdin: Bytes, mode: nat): Tree {
    map[[sourceFile] := File(source, mode), [STDIN] := File(stdin, mode)]
  }

  /** Every entry of `a` in turn overwrites what is at its path. */
  function Unpacked(t: Tree, a: Archive): Tree {
    if a == [] then t else Unpacked(t, a[..|a| - 1])[a[|a| - 1].path := a[|a| - 1].leaf]
  }

  /** Unpacking a listing lays it over the tree, whatever the order of its entries. */
  lemma {:induction false} UnpackedListing(t: Tree, a: Archive, m: Tree)
    requires Lists(a, m)
    ensures Unpacked(t, a) == t + m
  {
    if a == [] {
      assert m.Keys == {};
    } else {
      var b, e := a[..|a| - 1], a[|a| - 1];
      ListsLess(a, m);
      UnpackedListing(t, b, m - {e.path});
      assert t + m == (t + (m - {e.path}))[e.path := e.leaf];
    }
  }

  lemma ListsLess(a: Archive, m: Tree)
    requires Lists(a, m) && a != []
    ensures Lists(a[..|a| - 1], m - {a[|a| - 1].path})
  {
    var b, m' := a[..|a| - 1], m - {a[|a| - 1].path};
    forall p | p in m'
      ensures exists k :: 0 <= k < |b| && b[k].path == p
    {
      var k :| 0 <= k < |a| && a[k].path == p;
      assert b[k].path == p;
    }
    forall k | 0 <= k < |b|
      ensures b[k].path in m' && m'[b[k].path] == b[k].leaf
    {
      assert b[k] == a[k] && a[k].path != a[|a| - 1].path;
    }
  }

  class Box {
    var tree: Tree

    constructor ()
      ensures tree == map[]
    {
      tree := map[];
    }

    method StageInputs(sourceFile: Name, source: Bytes, stdin: Bytes, mode: nat)
      requires sourceFile != STDIN && tree == map[]
      modifies this
      ensures tree == Staged(sourceFile, source, stdin, mode)
    {
      tree := tree[[sourceFile] := File(source, mode)];
      tree := tree[[STDIN] := File(stdin, mode)];
    }

    /** `unpack_into`: whether the blob was an archive to the end. */
    method UnpackInto(f: Format, blob: Bytes) returns (ok: bool)
      modifies this
      ensures tree == Unpacked(old(tree), f.decode(blob).entries) && ok == f.decode(blob).whole
    {
      var a := f.decode(blob).entries;
      var k := 0;
      while k < |a|
        invariant 0 <= k <= |a|
        invariant tree == Unpacked(old(tree), a[..k])
      {
        tree := tree[a[k].path := a[k].leaf];
        k := k + 1;
        assert a[..k][..k - 1] == a[..k - 1];
      }
      assert a[..|a|] == a;
      ok := f.decode(blob).whole;
    }

    /** Restoring a cached blob: unpack it and, when it is no archive, take it for a single
        executable. */
    method Restore(f: Format, blob: Bytes)
      modifies this
      ensures
        var unpacked := Unpacked(old(tree), f.decode(blob).entries);
        tree == if f.decode(blob).whole then unpacked else unpacked[["prog"] := File(blob, 493)]
    {
      var ok := UnpackInto(f, blob);
      if !ok {
        tree := tree[["prog"] := File(blob, 493)];
      }
    }
  }

  // ------------------------------------------------------------- transparency

  /** The compiler left the two inputs as they were, and nothing else under their names. */
  ghost predicate InputsUntouched(t: Tree, sourceFile: Name, staged: Tree) {
    forall p :: (p in t && p != [] && p[0] in {sourceFile, STDIN}) || p in staged ==>
      p in t && p in staged && t[p] == staged[p]
  }

  ghost predicate NoOddTopLevel(t: Tree) { forall p :: p in t && |p| == 1 ==> t[p].Packable() }

  lemma OutputsPartition(t: Tree, exclude: set<Name>, p: Path)
    requires ValidTree(t) && p in t
    ensures [p[0]] in t && (p in Outputs(t, exclude) <==> p[0] !in exclude && t[[p[0]]].Packable())
  {
    assert |p| > 1 || p == [p[0]];
  }

  /** `first` is the box that was packed, after compiling for whatever stdin and limits, and
      `t` the box compiling for this submission leaves. Laying the archive of `first` over
      this submission's inputs gives `t` exactly when the compiler leaves the inputs alone,
      puts no symlink or special file at the top, and has the same outputs in both. */
  lemma HitIsFreshExactly(first: Tree, t: Tree, sourceFile: Name, staged: Tree)
    requires ValidTree(t) && (forall p :: p in staged <==> p == [sourceFile] || p == [STDIN])
    requires forall p :: p in staged ==> staged[p].File?
    ensures
      var exclude := {sourceFile, STDIN};
      staged + Outputs(first, exclude) == t <==>
      && InputsUntouched(t, sourceFile, staged)
      && NoOddTopLevel(t)
      && Outputs(first, exclude) == Outputs(t, exclude)
  {
    var exclude := {sourceFile, STDIN};
    if InputsUntouched(t, sourceFile, staged) && NoOddTopLevel(t) {
      HitCovers(t, exclude, staged, sourceFile);
    }
    if staged + Outputs(first, exclude) == t {
      HitForces(first, t, exclude, staged, sourceFile);
    }
  }

  lemma HitCovers(t: Tree, exclude: set<Name>, staged: Tree, sourceFile: Name)
    requires ValidTree(t) && exclude == {sourceFile, STDIN}
    requires forall p :: p in staged <==> p == [sourceFile] || p == [STDIN]
    requires InputsUntouched(t, sourceFile, staged) && NoOddTopLevel(t)
    ensures staged + Outputs(t, exclude) == t
  {
    var cached := Outputs(t, exclude);
    forall p | p in t
      ensures p in staged || p in cached
    {
      OutputsPartition(t, exclude, p);
      assert |[p[0]]| == 1;
    }
    assert forall p :: p in staged ==> p in t && staged[p] == t[p];
  }

  lemma HitForces(first: Tree, t: Tree, exclude: set<Name>, staged: Tree, sourceFile: Name)
    requires ValidTree(t) && exclude == {sourceFile, STDIN}
    requires forall p :: p in staged <==> p == [sourceFile] || p == [STDIN]
    requires staged + Outputs(first, exclude) == t && (forall p :: p in staged ==> staged[p].File?)
    ensures InputsUntouched(t, sourceFile, staged) && NoOddTopLevel(t) && Outputs(first, exclude) == Outputs(t, exclude)
  {
    var cached := Outputs(first, exclude);
    assert forall p :: p in cached ==> p != [] && p[0] !in exclude;
    assert forall p :: p in staged ==> p != [] && p[0] in exclude;
    assert NoOddTopLevel(t) by {
      CachedIsPackable(first, exclude);
    }
    forall p | p in t
      ensures p in cached <==> p in Outputs(t, exclude)
    {
      OutputsPartition(t, exclude, p);
      assert |[p[0]]| == 1;
    }
  }

  lemma CachedIsPackable(first: Tree, exclude: set<Name>)
    ensures forall p :: p in Outputs(first, exclude) && |p| == 1 ==> Outputs(first, exclude)[p].Packable()
  {
    forall p | p in Outputs(first, exclude) && |p| == 1
      ensures Outputs(first, exclude)[p].Packable()
    {
      assert p == [p[0]];
    }
  }

  /** What the blob of a whole archive of `m` decodes to. */
  ghost predicate Holds(f: Format, blob: Bytes, m: Tree) {
    f.decode(blob).whole && Lists(f.decode(blob).entries, m)
  }

  /** A cache miss: the child packs and sends its box after the compile, the parent receives
      it in the reads `pipe` splits it into, the last of which may fail, and the worker stores
      it unless the compile failed. A row is stored exactly when anything was received and the
      insert works; what it holds is the whole archive exactly when every byte was sent and
      read and the cap is not below the archive's size, and a proper prefix otherwise. */
  method Fill<K(==, !new)>(
    f: Format, first: Tree, sourceFile: Name, packs: bool, writes: seq<WriteResult>, pipe: Bytes -> seq<ReadResult>,
    cap: nat, compiled: bool, inserts: bool, cache: CompileCache<K>, key: K, now: int)
    returns (archive: Bytes, sent: Bytes)
    requires f.RoundTrips() && ValidTree(first)
    requires forall b :: Stream(pipe(b)) <= b
    modifies cache
    ensures key in old(cache.rows) ==> cache.rows == old(cache.rows)
    ensures forall other :: other != key ==> (other in cache.rows <==> other in old(cache.rows))
    ensures forall other :: other in old(cache.rows) ==>
              other in cache.rows && cache.rows[other] == old(cache.rows)[other]
    ensures key in cache.rows <==>
            key in old(cache.rows) || (Stream(pipe(sent)) != [] && cap > 0 && compiled && inserts)
    ensures sent <= archive && (!packs ==> sent == [])
    ensures key in cache.rows && key !in old(cache.rows) ==>
              && cache.rows[key].blob <= archive
              && (cache.rows[key].blob == archive <==> Stream(pipe(sent)) == archive && |archive| <= cap)
    ensures
      key in cache.rows && key !in old(cache.rows) && cache.rows[key].blob == archive ==>
      Holds(f, cache.rows[key].blob, Outputs(first, {sourceFile, STDIN}))
  {
    var a := PackDir(first, {sourceFile, STDIN});
    archive := f.encode(a);
    sent := [];
    if packs {
      var n;
      sent, n := SendArtifact(archive, writes);
    }
    var buf := ReadCapped(pipe(sent), cap);
    ghost var got := Stream(pipe(sent));
    assert got <= sent;
    assert buf <= got && (|got| <= cap ==> buf == got);
    assert f.decode(archive) == Decoded(a, true) && archive != [];
    if buf != [] && compiled && inserts {
      cache.Insert(key, buf, now);
    }
  }

  /** A later submission of the same source: stage its own inputs, then restore what the cache
      has. The box is then the box `t` that compiling for it would have left exactly under the
      conditions of HitIsFreshExactly. */
  method Hit<K(==, !new)>(
    f: Format, cache: CompileCache<K>, key: K, sourceFile: Name, source: Bytes, stdin: Bytes, mode: nat,
    ghost first: Tree, ghost t: Tree)
    returns (box: Box)
    requires sourceFile != STDIN && key in cache.rows && ValidTree(t)
    requires Holds(f, cache.rows[key].blob, Outputs(first, {sourceFile, STDIN}))
    ensures
      box.tree == t <==>
      && InputsUntouched(t, sourceFile, Staged(sourceFile, source, stdin, mode))
      && NoOddTopLevel(t)
      && Outputs(first, {sourceFile, STDIN}) == Outputs(t, {sourceFile, STDIN})
  {
    var blob := cache.Get(key);
    box := new Box();
    box.StageInputs(sourceFile, source, stdin, mode);
    ghost var staged := box.tree;
    box.Restore(f, blob.value);
    UnpackedListing(staged, f.decode(blob.value).entries, Outputs(first, {sourceFile, STDIN}));
    HitIsFreshExactly(first, t, sourceFile, staged);
  }
}
