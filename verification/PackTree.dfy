/** The directory tree behind a packfile and its flattening into an indexed table: a worklist
    that appends one child block per directory and patches the directory's own entry. */
module PackTree {
  import opened Bytes

  type Name = seq<byte>
  type Data = seq<byte>

  const SLASH: byte := 47
  const BACKSLASH: byte := 92

  // ----- names and name-sorted maps -----

  /** Byte-wise lexicographic order, as Rust orders strings. */
  predicate Less(a: Name, b: Name) {
    b != [] && (a == [] || a[0] < b[0] || (a[0] == b[0] && Less(a[1..], b[1..])))
  }

  /** One name comes before another if it is a proper beginning of it, or smaller at the first place where
      they differ. */
  lemma {:induction false} LessExactly(a: Name, b: Name)
    ensures Less(a, b) <==> exists i :: Splits(a, b, i)
  {
    if a != [] && b != [] && a[0] == b[0] {
      LessExactly(a[1..], b[1..]);
      if Less(a, b) {
        var i: nat :| Splits(a[1..], b[1..], i);
        assert a[..i + 1] == [a[0]] + a[1..][..i] && b[..i + 1] == [b[0]] + b[1..][..i];
        assert Splits(a, b, i + 1);
      }
      if i: nat :| Splits(a, b, i) {
        assert i > 0;
        assert a[..i][1..] == a[1..][..i - 1] && b[..i][1..] == b[1..][..i - 1];
        assert Splits(a[1..], b[1..], i - 1);
      }
    } else if Less(a, b) {
      assert Splits(a, b, 0);
    }
  }

  predicate Splits(a: Name, b: Name, i: nat) {
    i <= |a| && i < |b| && a[..i] == b[..i] && (i == |a| || a[i] < b[i])
  }

  lemma {:induction false} LessTransitive(a: Name, b: Name, c: Name)
    requires Less(a, b) && Less(b, c)
    ensures Less(a, c)
  {
    if a != [] && a[0] == b[0] == c[0] {
      LessTransitive(a[1..], b[1..], c[1..]);
    }
  }

  lemma {:induction false} LessTotal(a: Name, b: Name)
    ensures Less(a, b) || Less(b, a) || a == b
    ensures !(Less(a, b) && Less(b, a)) && !Less(a, a)
  {
    if a != [] && b != [] {
      LessTotal(a[1..], b[1..]);
      LessTotal(a[1..], a[1..]);
      assert a == [a[0]] + a[1..] && b == [b[0]] + b[1..];
    } else if a != [] {
      LessTotal(a[1..], a[1..]);
    }
  }

  /** An ordered map as a list with strictly increasing names. */
  predicate Ordered<V>(m: seq<(Name, V)>) {
    forall i, j :: 0 <= i < j < |m| ==> Less(m[i].0, m[j].0)
  }

  function Get<V>(m: seq<(Name, V)>, k: Name): Option<V> {
    if m == [] then None else if m[0].0 == k then Some(m[0].1) else Get(m[1..], k)
  }

  function Put<V>(m: seq<(Name, V)>, k: Name, v: V): seq<(Name, V)> {
    if m == [] || Less(k, m[0].0) then [(k, v)] + m
    else if m[0].0 == k then [(k, v)] + m[1..]
    else [m[0]] + Put(m[1..], k, v)
  }

  lemma {:induction false} PutNames<V>(m: seq<(Name, V)>, k: Name, v: V)
    ensures forall e :: e in Put(m, k, v) ==> e in m || e == (k, v)
  {
    if m != [] && !Less(k, m[0].0) && m[0].0 != k {
      PutNames(m[1..], k, v);
    }
  }

  lemma {:induction false} PutKeepsOrder<V>(m: seq<(Name, V)>, k: Name, v: V)
    requires Ordered(m)
    ensures Ordered(Put(m, k, v))
  {
    if m != [] {
      var head, tail := m[0].0, m[1..];
      assert forall e :: e in tail ==> Less(head, e.0);
      if Less(k, head) {
        forall e | e in tail ensures Less(k, e.0) {
          LessTransitive(k, head, e.0);
        }
      } else if head != k {
        LessTotal(head, k);
        PutKeepsOrder(tail, k, v);
        PutNames(tail, k, v);
        var p := Put(tail, k, v);
        assert forall i :: 0 <= i < |p| ==> p[i] in p;
      }
    }
  }

  /** A map answers with what was last put under a name. */
  lemma {:induction false} GetAfterPut<V>(m: seq<(Name, V)>, k: Name, v: V, q: Name)
    requires Ordered(m)
    ensures Get(Put(m, k, v), q) == if q == k then Some(v) else Get(m, q)
  {
    if m != [] {
      if Less(k, m[0].0) {
        assert ([(k, v)] + m)[1..] == m;
      } else if m[0].0 != k {
        GetAfterPut(m[1..], k, v, q);
        assert ([m[0]] + Put(m[1..], k, v))[1..] == Put(m[1..], k, v);
      }
    }
  }

  // ----- the tree -----

  datatype DirNode = DirNode(dirs: seq<(Name, DirNode)>, files: seq<(Name, Data)>) {
    ghost predicate Valid() {
      && Ordered(dirs) && Ordered(files)
      && forall i :: 0 <= i < |dirs| ==> dirs[i].1.Valid()
    }
  }

  const EMPTY: DirNode := DirNode([], [])

  /** The position of the first slash, or the length if there is none. */
  function SlashAt(path: Name): (i: nat)
    ensures i <= |path| && (i < |path| ==> path[i] == SLASH)
    ensures SLASH !in path[..i]
  {
    if path == [] || path[0] == SLASH then 0
    else
      var i := 1 + SlashAt(path[1..]);
      assert path[..i] == [path[0]] + path[1..][..i - 1];
      i
  }

  /** Whether a path goes through a directory: a slash with something after it. */
  predicate Nested(path: Name) {
    SlashAt(path) + 1 < |path|
  }

  function Insert(n: DirNode, path: Name, data: Data): DirNode
    decreases |path|
  {
    var i := SlashAt(path);
    if Nested(path) then
      var dir := path[..i];
      var sub := Get(n.dirs, dir);
      n.(dirs := Put(n.dirs, dir, Insert(if sub.Some? then sub.value else EMPTY, path[i + 1..], data)))
    else
      n.(files := Put(n.files, path, data))
  }

  function Find(n: DirNode, path: Name): Option<Data>
    decreases |path|
  {
    var i := SlashAt(path);
    if Nested(path) then
      match Get(n.dirs, path[..i])
      case None => None
      case Some(sub) => Find(sub, path[i + 1..])
    else
      Get(n.files, path)
  }

  // ----- paths and directories -----

  /** The path of file `f` below the directories `ds`. */
  function Join(ds: seq<Name>, f: Name): Name {
    if ds == [] then f else ds[0] + [47] + Join(ds[1..], f)
  }

  /** What is found by going down the directories one by one. */
  function Lookup(n: DirNode, ds: seq<Name>, f: Name): Option<Data>
    decreases |ds|
  {
    if ds == [] then Get(n.files, f)
    else
      match Get(n.dirs, ds[0])
      case None => None
      case Some(sub) => Lookup(sub, ds[1..], f)
  }

  lemma {:induction false} SlashAfter(d: Name, rest: Name)
    requires 47 !in d
    ensures SlashAt(d + [47] + rest) == |d|
  {
    if d == [] {
      assert d + [47] + rest == [47] + rest;
    } else {
      assert (d + [47] + rest)[1..] == d[1..] + [47] + rest;
      SlashAfter(d[1..], rest);
    }
  }

  lemma {:induction false} OnlyAtTheEnd(f: Name)
    requires f != [] && 47 !in f[..|f| - 1]
    ensures SlashAt(f) >= |f| - 1
  {
    if |f| > 1 {
      assert f[0] in f[..|f| - 1];
      assert f[1..][..|f| - 2] == f[..|f| - 1][1..];
      OnlyAtTheEnd(f[1..]);
    }
  }

  /** A path names a directory for each part before a slash that has something behind it, and its file in
      the last of them; a slash at the very end is part of the file's name. */
  lemma {:induction false} FindGoesDown(n: DirNode, ds: seq<Name>, f: Name)
    requires f != [] && 47 !in f[..|f| - 1] && forall i :: 0 <= i < |ds| ==> 47 !in ds[i]
    ensures Join(ds, f) != [] && Find(n, Join(ds, f)) == Lookup(n, ds, f)
    decreases |ds|
  {
    if ds == [] {
      OnlyAtTheEnd(f);
    } else {
      var d, rest := ds[0], Join(ds[1..], f);
      SlashAfter(d, rest);
      var path := d + [47] + rest;
      assert path[..|d|] == d && path[|d| + 1..] == rest;
      FindGoesDown(if Get(n.dirs, d).Some? then Get(n.dirs, d).value else n, ds[1..], f);
    }
  }

  lemma {:induction false} GetIsElement(m: seq<(Name, DirNode)>, k: Name)
    requires Get(m, k).Some?
    ensures (k, Get(m, k).value) in m
  {
    if m[0].0 != k {
      GetIsElement(m[1..], k);
    }
  }

  lemma {:induction false} InsertKeepsValid(n: DirNode, path: Name, data: Data)
    requires n.Valid()
    ensures Insert(n, path, data).Valid()
    decreases |path|
  {
    var i := SlashAt(path);
    if Nested(path) {
      var dir, sub := path[..i], Get(n.dirs, path[..i]);
      if sub.Some? {
        GetIsElement(n.dirs, dir);
      }
      var old' := if sub.Some? then sub.value else EMPTY;
      InsertKeepsValid(old', path[i + 1..], data);
      var new' := Insert(old', path[i + 1..], data);
      PutKeepsOrder(n.dirs, dir, new');
      PutNames(n.dirs, dir, new');
      var p := Put(n.dirs, dir, new');
      forall j | 0 <= j < |p| ensures p[j].1.Valid() {
        assert p[j] in p;
      }
    } else {
      PutKeepsOrder(n.files, path, data);
    }
  }

  lemma {:induction false} SplitsAlike(p: Name, q: Name)
    requires Nested(p) && Nested(q)
    ensures p == q <==> p[..SlashAt(p)] == q[..SlashAt(q)] && p[SlashAt(p) + 1..] == q[SlashAt(q) + 1..]
  {
    hide SlashAt;
    var i, j := SlashAt(p), SlashAt(q);
    if p[..i] == q[..j] && p[i + 1..] == q[j + 1..] {
      assert p == p[..i] + [SLASH] + p[i + 1..];
      assert q == q[..j] + [SLASH] + q[j + 1..];
    }
  }

  lemma {:induction false} FindInEmpty(path: Name)
    ensures Find(EMPTY, path) == None
  {
  }

  /** The tree answers with what was last inserted under a path. */
  lemma {:induction false} FindAfterInsert(n: DirNode, p: Name, data: Data, q: Name)
    requires n.Valid()
    ensures Find(Insert(n, p, data), q) == if q == p then Some(data) else Find(n, q)
    decreases |p|
  {
    hide SlashAt, Put, Get;
    var i, j := SlashAt(p), SlashAt(q);
    if Nested(p) {
      var dir, sub := p[..i], Get(n.dirs, p[..i]);
      var old' := if sub.Some? then sub.value else EMPTY;
      if sub.Some? {
        GetIsElement(n.dirs, dir);
      }
      var new' := Insert(old', p[i + 1..], data);
      if Nested(q) {
        GetAfterPut(n.dirs, dir, new', q[..j]);
        SplitsAlike(p, q);
        if q[..j] == dir {
          FindAfterInsert(old', p[i + 1..], data, q[j + 1..]);
          FindInEmpty(q[j + 1..]);
        }
      }
    } else {
      if !Nested(q) {
        GetAfterPut(n.files, p, data, q);
      }
    }
  }

  // ----- from input files to the tree -----

  datatype Input = Input(path: Name, data: Data)

  function ForwardSlashes(path: Name): Name {
    seq(|path|, i requires 0 <= i < |path| => if path[i] == BACKSLASH then SLASH else path[i])
  }

  function TrimStart(path: Name): Name {
    if path != [] && path[0] == SLASH then TrimStart(path[1..]) else path
  }

  function Normalize(path: Name): Name {
    TrimStart(ForwardSlashes(path))
  }

  /** A path is taken without its leading slashes of either kind, with every backslash as a slash and
      every other byte as it is. */
  lemma NormalizeExactly(path: Name)
    ensures var r := Normalize(path);
            && |r| <= |path| && (r != [] ==> r[0] != 47) && 92 !in r
            && (forall i :: 0 <= i < |path| - |r| ==> path[i] == 47 || path[i] == 92)
            && forall i :: 0 <= i < |r| ==> r[i] == (var c := path[|path| - |r| + i]; if c == 92 then 47 else c)
  {
    hide TrimStart;
    var slashed, r := ForwardSlashes(path), Normalize(path);
    TrimExactly(slashed);
    forall i | 0 <= i < |path| - |r| ensures path[i] == 47 || path[i] == 92 {
      assert slashed[i] == 47;
    }
  }

  lemma {:induction false} TrimExactly(path: Name)
    ensures var r := TrimStart(path);
            && |r| <= |path| && r == path[|path| - |r|..] && (r != [] ==> r[0] != 47)
            && forall i :: 0 <= i < |path| - |r| ==> path[i] == 47
  {
    if path != [] && path[0] == SLASH {
      TrimExactly(path[1..]);
    }
  }

  /** The data of the last input whose path normalises to `path`. */
  function LastWritten(files: seq<Input>, path: Name): Option<Data> {
    if files == [] then None
    else
      var last := files[|files| - 1];
      if Normalize(last.path) == path then Some(last.data) else LastWritten(files[..|files| - 1], path)
  }

  /** The tree of a list of inputs: each with a non-empty path is inserted in turn. */
  function TreeOf(files: seq<Input>): DirNode {
    if files == [] then EMPTY
    else
      var n, last := TreeOf(files[..|files| - 1]), files[|files| - 1];
      var path := Normalize(last.path);
      if path == [] then n else Insert(n, path, last.data)
  }

  method BuildTree(files: seq<Input>) returns (root: DirNode)
    ensures root == TreeOf(files)
  {
    root := EMPTY;
    for i := 0 to |files|
      invariant root == TreeOf(files[..i])
    {
      assert files[..i + 1][..i] == files[..i];
      var path := Normalize(files[i].path);
      if path != [] {
        root := Insert(root, path, files[i].data);
      }
    }
    assert files[..|files|] == files;
  }

  lemma {:induction false} TreeIsValid(files: seq<Input>)
    ensures TreeOf(files).Valid()
  {
    if files != [] {
      var n, last := TreeOf(files[..|files| - 1]), files[|files| - 1];
      TreeIsValid(files[..|files| - 1]);
      InsertKeepsValid(n, Normalize(last.path), last.data);
    }
  }

  /** The tree holds exactly the last data written under each path. */
  lemma {:induction false} TreeHoldsLastWritten(files: seq<Input>, path: Name)
    requires path != []
    ensures Find(TreeOf(files), path) == LastWritten(files, path)
  {
    if files == [] {
      FindInEmpty(path);
    } else {
      var before, last := files[..|files| - 1], files[|files| - 1];
      TreeIsValid(before);
      TreeHoldsLastWritten(before, path);
      FindAfterInsert(TreeOf(before), Normalize(last.path), last.data, path);
    }
  }

  // ----- the flattened table -----

  /** A table entry: a directory points at its block of children. */
  datatype Entry =
    | DirEntry(name: Name, count: nat, first: nat)
    | FileEntry(name: Name, data: Data)

  datatype Child = SubDir(name: Name, node: DirNode) | Leaf(name: Name, data: Data)

  /** The children of a directory in one name-sorted run; on equal names the directory is first,
      as a stable sort of directories followed by files leaves it. */
  function Merge(dirs: seq<(Name, DirNode)>, files: seq<(Name, Data)>): (cs: seq<Child>)
    ensures |cs| == |dirs| + |files|
    decreases |dirs| + |files|
  {
    if dirs == [] && files == [] then []
    else if dirs != [] && (files == [] || !Less(files[0].0, dirs[0].0)) then
      [SubDir(dirs[0].0, dirs[0].1)] + Merge(dirs[1..], files)
    else
      [Leaf(files[0].0, files[0].1)] + Merge(dirs, files[1..])
  }

  function Width(n: DirNode): nat {
    |n.dirs| + |n.files|
  }

  /** How many entries lie below a directory. */
  function Size(n: DirNode): nat
    decreases n, 0
  {
    Width(n) + SizeOf(n.dirs)
  }

  function SizeOf(dirs: seq<(Name, DirNode)>): nat
    decreases dirs
  {
    if dirs == [] then 0 else SizeAt(dirs[0]) + SizeOf(dirs[1..])
  }

  function SizeAt(dir: (Name, DirNode)): nat
    decreases dir, 0
  {
    Size(dir.1)
  }

  /** The finished child block, when the grandchildren start at `at`. */
  function Block(dirs: seq<(Name, DirNode)>, files: seq<(Name, Data)>, at: nat): (es: seq<Entry>)
    ensures |es| == |dirs| + |files|
    decreases |dirs| + |files|
  {
    if dirs == [] && files == [] then []
    else if dirs != [] && (files == [] || !Less(files[0].0, dirs[0].0)) then
      [DirEntry(dirs[0].0, Width(dirs[0].1), at)] + Block(dirs[1..], files, at + Size(dirs[0].1))
    else
      [FileEntry(files[0].0, files[0].1)] + Block(dirs, files[1..], at)
  }

  /** Everything below a directory, in pre-order: its child block, then each subdirectory. */
  function Emit(n: DirNode, at: nat): (es: seq<Entry>)
    ensures |es| == Size(n)
    decreases 2 * Size(n) + 1
  {
    Block(n.dirs, n.files, at + Width(n)) + EmitAll(n.dirs, at + Width(n))
  }

  function EmitAll(dirs: seq<(Name, DirNode)>, at: nat): (es: seq<Entry>)
    ensures |es| == SizeOf(dirs)
    decreases 2 * SizeOf(dirs) + 2 * |dirs|
  {
    if dirs == [] then []
    else
      assert SizeAt(dirs[0]) == Size(dirs[0].1);
      Emit(dirs[0].1, at) + EmitAll(dirs[1..], at + Size(dirs[0].1))
  }

  /** The table of a whole tree: the root, then everything below it. */
  function Table(root: DirNode): seq<Entry> {
    [DirEntry([], Width(root), 1)] + Emit(root, 1)
  }

  // ----- the worklist -----

  type Pending = seq<(nat, DirNode)>

  /** Child entries as first written: directories not yet patched. */
  function Raw(cs: seq<Child>): (es: seq<Entry>)
    ensures |es| == |cs|
  {
    if cs == [] then []
    else [if cs[0].SubDir? then DirEntry(cs[0].name, 0, 0) else FileEntry(cs[0].name, cs[0].data)] + Raw(cs[1..])
  }

  /** The directories among the children, with their table positions. */
  function Subs(cs: seq<Child>, at: nat): Pending {
    if cs == [] then []
    else (if cs[0].SubDir? then [(at, cs[0].node)] else []) + Subs(cs[1..], at + 1)
  }

  predicate Unpatched(es: seq<Entry>, todo: Pending) {
    forall k :: 0 <= k < |todo| ==> todo[k].0 < |es| && es[todo[k].0].DirEntry?
  }

  function Patch(es: seq<Entry>, i: nat, n: DirNode): seq<Entry>
    requires i < |es| && es[i].DirEntry?
  {
    es[i := DirEntry(es[i].name, Width(n), |es|)]
  }

  /** The table once every pending directory, front first, has been emitted. */
  ghost function Finish(es: seq<Entry>, todo: Pending): seq<Entry>
    requires Unpatched(es, todo)
    decreases |todo|
  {
    if todo == [] then es
    else
      var es' := Patch(es, todo[0].0, todo[0].1) + Emit(todo[0].1, |es|);
      assert Unpatched(es', todo[1..]);
      Finish(es', todo[1..])
  }

  lemma {:induction false} SubsWithin(cs: seq<Child>, at: nat, k: nat)
    requires k < |Subs(cs, at)|
    ensures at <= Subs(cs, at)[k].0 < at + |cs| && cs[Subs(cs, at)[k].0 - at].SubDir?
    decreases |cs|
  {
    if !cs[0].SubDir? {
      SubsWithin(cs[1..], at + 1, k);
    } else if k > 0 {
      SubsWithin(cs[1..], at + 1, k - 1);
    }
  }

  lemma {:induction false} RawKind(cs: seq<Child>, m: nat)
    requires m < |cs|
    ensures Raw(cs)[m].DirEntry? <==> cs[m].SubDir?
  {
    if m > 0 {
      RawKind(cs[1..], m - 1);
    }
  }

  lemma {:induction false} SubsUnpatched(pre: seq<Entry>, cs: seq<Child>, post: seq<Entry>)
    ensures Unpatched(pre + Raw(cs) + post, Subs(cs, |pre|))
  {
    hide Raw, Subs;
    var es, todo := pre + Raw(cs) + post, Subs(cs, |pre|);
    forall k | 0 <= k < |todo| ensures todo[k].0 < |es| && es[todo[k].0].DirEntry? {
      SubsWithin(cs, |pre|, k);
      RawKind(cs, todo[k].0 - |pre|);
    }
  }

  /** Taking the first child off a block, when it is a directory. */
  lemma {:induction false} TakeDir(dirs: seq<(Name, DirNode)>, files: seq<(Name, Data)>, at: nat, pos: nat)
    requires Merge(dirs, files) != [] && Merge(dirs, files)[0].SubDir?
    ensures dirs != []
    ensures var d, tail := dirs[0], Merge(dirs[1..], files);
            && Raw(Merge(dirs, files)) == [DirEntry(d.0, 0, 0)] + Raw(tail)
            && Subs(Merge(dirs, files), pos) == [(pos, d.1)] + Subs(tail, pos + 1)
            && Block(dirs, files, at) == [DirEntry(d.0, Width(d.1), at)] + Block(dirs[1..], files, at + Size(d.1))
            && EmitAll(dirs, at) == Emit(d.1, at) + EmitAll(dirs[1..], at + Size(d.1))
  {
    hide Emit;
    assert Merge(dirs, files)[1..] == Merge(dirs[1..], files);
  }

  /** Taking the first child off a block, when it is a file. */
  lemma {:induction false} TakeFile(dirs: seq<(Name, DirNode)>, files: seq<(Name, Data)>, at: nat, pos: nat)
    requires Merge(dirs, files) != [] && Merge(dirs, files)[0].Leaf?
    ensures files != []
    ensures var f, tail := files[0], Merge(dirs, files[1..]);
            && Raw(Merge(dirs, files)) == [FileEntry(f.0, f.1)] + Raw(tail)
            && Subs(Merge(dirs, files), pos) == Subs(tail, pos + 1)
            && Block(dirs, files, at) == [FileEntry(f.0, f.1)] + Block(dirs, files[1..], at)
  {
    assert Merge(dirs, files)[1..] == Merge(dirs, files[1..]);
    assert [] + Subs(Merge(dirs, files[1..]), pos + 1) == Subs(Merge(dirs, files[1..]), pos + 1);
  }

  lemma {:induction false} UnpatchedExtends(es: seq<Entry>, more: seq<Entry>, todo: Pending)
    requires Unpatched(es, todo)
    ensures Unpatched(es + more, todo)
  {
  }

  lemma {:induction false} FinishOne(es: seq<Entry>, todo: Pending, i: nat, n: DirNode, rest: Pending)
    requires Unpatched(es, todo) && todo == [(i, n)] + rest
    requires i < |es| && es[i].DirEntry?
    ensures Unpatched(Patch(es, i, n), rest)
    ensures Unpatched(Patch(es, i, n) + Emit(n, |es|), rest)
    ensures Finish(es, todo) == Finish(Patch(es, i, n) + Emit(n, |es|), rest)
  {
    assert todo[0] == (i, n) && todo[1..] == rest;
    forall k | 0 <= k < |rest| ensures rest[k].0 < |es| && es[rest[k].0].DirEntry? {
      assert rest[k] == todo[k + 1];
    }
  }

  /** The table after a raw block between `pre` and `post`, and after the finished one. */
  ghost function RawAround(pre: seq<Entry>, dirs: seq<(Name, DirNode)>, files: seq<(Name, Data)>,
                           post: seq<Entry>): seq<Entry> {
    pre + Raw(Merge(dirs, files)) + post
  }

  ghost function DoneAround(pre: seq<Entry>, dirs: seq<(Name, DirNode)>, files: seq<(Name, Data)>,
                            post: seq<Entry>): seq<Entry> {
    var at := |pre| + |dirs| + |files| + |post|;
    pre + Block(dirs, files, at) + post + EmitAll(dirs, at)
  }

  lemma {:induction false} TodoUnpatched(pre: seq<Entry>, dirs: seq<(Name, DirNode)>, files: seq<(Name, Data)>,
                                         post: seq<Entry>, rest: Pending)
    requires Unpatched(pre, rest)
    ensures Unpatched(RawAround(pre, dirs, files, post), Subs(Merge(dirs, files), |pre|) + rest)
    ensures Unpatched(DoneAround(pre, dirs, files, post), rest)
  {
    SubsUnpatched(pre, Merge(dirs, files), post);
  }

  /** Emitting the freshly pushed subdirectories one by one turns the raw block into the finished
      block followed by the pre-order of the subdirectories. */
  lemma {:induction false} FinishChildren(pre: seq<Entry>, dirs: seq<(Name, DirNode)>, files: seq<(Name, Data)>,
                                          post: seq<Entry>, rest: Pending)
    requires Unpatched(pre, rest)
    ensures Unpatched(RawAround(pre, dirs, files, post), Subs(Merge(dirs, files), |pre|) + rest)
    ensures Unpatched(DoneAround(pre, dirs, files, post), rest)
    ensures Finish(RawAround(pre, dirs, files, post), Subs(Merge(dirs, files), |pre|) + rest)
         == Finish(DoneAround(pre, dirs, files, post), rest)
    decreases |dirs| + |files|
  {
    hide Merge, Block, Emit, EmitAll, Raw, Subs, Finish, Unpatched;
    var cs := Merge(dirs, files);
    var at := |pre| + |dirs| + |files| + |post|;
    TodoUnpatched(pre, dirs, files, post, rest);
    var es, todo := RawAround(pre, dirs, files, post), Subs(cs, |pre|) + rest;
    if cs == [] {
      FinishNothing(pre, dirs, files, post, rest);
    } else if cs[0].SubDir? {
      TakeDir(dirs, files, at, |pre|);
      var d := dirs[0];
      var e, sub := DirEntry(d.0, Width(d.1), at), Emit(d.1, at);
      var rest' := Subs(Merge(dirs[1..], files), |pre| + 1) + rest;
      assert todo == [(|pre|, d.1)] + rest';
      assert es[|pre|] == DirEntry(d.0, 0, 0);
      FinishOne(es, todo, |pre|, d.1, rest');
      assert Patch(es, |pre|, d.1) + sub == RawAround(pre + [e], dirs[1..], files, post + sub);
      UnpatchedExtends(pre, [e], rest);
      FinishChildren(pre + [e], dirs[1..], files, post + sub, rest);
      assert DoneAround(pre + [e], dirs[1..], files, post + sub) == DoneAround(pre, dirs, files, post);
    } else {
      TakeFile(dirs, files, at, |pre|);
      var e := FileEntry(files[0].0, files[0].1);
      assert es == RawAround(pre + [e], dirs, files[1..], post);
      UnpatchedExtends(pre, [e], rest);
      FinishChildren(pre + [e], dirs, files[1..], post, rest);
      assert DoneAround(pre + [e], dirs, files[1..], post) == DoneAround(pre, dirs, files, post);
    }
  }

  lemma {:induction false} FinishNothing(pre: seq<Entry>, dirs: seq<(Name, DirNode)>, files: seq<(Name, Data)>,
                                         post: seq<Entry>, rest: Pending)
    requires Merge(dirs, files) == []
    ensures RawAround(pre, dirs, files, post) == DoneAround(pre, dirs, files, post)
    ensures Subs(Merge(dirs, files), |pre|) + rest == rest
  {
  }

  function Reversed<T>(s: seq<T>): (r: seq<T>)
    ensures |r| == |s| && forall i :: 0 <= i < |s| ==> r[i] == s[|s| - 1 - i]
  {
    if s == [] then [] else Reversed(s[1..]) + [s[0]]
  }

  lemma {:induction false} ReversedPop<T>(s: seq<T>)
    requires s != []
    ensures Reversed(s) == [s[|s| - 1]] + Reversed(s[..|s| - 1])
  {
  }

  lemma {:induction false} ReversedPush<T>(s: seq<T>, t: seq<T>)
    ensures Reversed(s + Reversed(t)) == t + Reversed(s)
  {
  }

  /** Directories still to be popped, counting those not yet pushed. */
  ghost function Work(todo: Pending): nat {
    if todo == [] then 0 else Work(todo[..|todo| - 1]) + 1 + Size(todo[|todo| - 1].1)
  }

  lemma {:induction false} WorkShrinks(todo: Pending)
    requires todo != []
    ensures Work(todo) == Work(todo[..|todo| - 1]) + 1 + Size(todo[|todo| - 1].1)
  {
  }

  lemma {:induction false} WorkAppend(a: Pending, b: Pending)
    ensures Work(a + b) == Work(a) + Work(b)
  {
    if b == [] {
      assert a + b == a;
    } else {
      WorkAppend(a, b[..|b| - 1]);
      assert (a + b)[..|a + b| - 1] == a + b[..|b| - 1];
    }
  }

  lemma {:induction false} WorkReversed(s: Pending)
    ensures Work(Reversed(s)) == Work(s)
  {
    if s != [] {
      WorkReversed(s[1..]);
      WorkAppend([s[0]], s[1..]);
      WorkAppend(Reversed(s[1..]), [s[0]]);
      assert s == [s[0]] + s[1..];
    }
  }

  lemma {:induction false} WorkOfMerged(dirs: seq<(Name, DirNode)>, files: seq<(Name, Data)>, at: nat)
    ensures Work(Subs(Merge(dirs, files), at)) == |dirs| + SizeOf(dirs)
    decreases |dirs| + |files|
  {
    var cs := Merge(dirs, files);
    if cs != [] && cs[0].SubDir? {
      WorkOfMerged(dirs[1..], files, at + 1);
      assert cs[1..] == Merge(dirs[1..], files);
      WorkAppend([(at, dirs[0].1)], Subs(cs[1..], at + 1));
    } else if cs != [] {
      WorkOfMerged(dirs, files[1..], at + 1);
      assert cs[1..] == Merge(dirs, files[1..]);
      assert Subs(cs, at) == Subs(cs[1..], at + 1);
    }
  }

  lemma {:induction false} WorkOfSubs(todo: Pending, n: DirNode, at: nat)
    ensures Work(todo + Reversed(Subs(Merge(n.dirs, n.files), at))) < Work(todo) + 1 + Size(n)
  {
    var subs := Subs(Merge(n.dirs, n.files), at);
    WorkOfMerged(n.dirs, n.files, at);
    WorkReversed(subs);
    WorkAppend(todo, Reversed(subs));
  }

  /** Writes the raw child block and collects the subdirectories in it. */
  method WriteBlock(entries: seq<Entry>, children: seq<Child>) returns (out: seq<Entry>, subDirs: Pending)
    ensures out == entries + Raw(children)
    ensures subDirs == Subs(children, |entries|)
  {
    out, subDirs := entries, [];
    for k := 0 to |children|
      invariant |out| == |entries| + k
      invariant out + Raw(children[k..]) == entries + Raw(children)
      invariant subDirs + Subs(children[k..], |entries| + k) == Subs(children, |entries|)
    {
      var index := |out|;
      assert children[k..][0] == children[k] && children[k..][1..] == children[k + 1..];
      match children[k] {
        case SubDir(name, node) =>
          out := out + [DirEntry(name, 0, 0)];
          subDirs := subDirs + [(index, node)];
        case Leaf(name, data) =>
          out := out + [FileEntry(name, data)];
      }
    }
  }

  /** The worklist: pop a directory, append its child block, patch its entry, push its
      subdirectories so that the first one is popped next. */
  method Flatten(root: DirNode) returns (entries: seq<Entry>)
    ensures entries == Table(root)
  {
    hide Merge, Block, Emit, EmitAll, Raw, Subs, Finish, Size;
    entries := [DirEntry([], 0, 0)];
    var pending: Pending := [(0, root)];
    assert Reversed(pending) == [(0, root)] + [];
    FinishOne(entries, Reversed(pending), 0, root, []);
    assert Patch(entries, 0, root) + Emit(root, 1) == Table(root);
    FinishDone(Table(root));
    while pending != []
      invariant Unpatched(entries, Reversed(pending))
      invariant Finish(entries, Reversed(pending)) == Table(root)
      decreases Work(pending)
    {
      var dirIndex, node := pending[|pending| - 1].0, pending[|pending| - 1].1;
      ghost var before, todo := entries, Reversed(pending);
      WorkShrinks(pending);
      ReversedPop(pending);
      pending := pending[..|pending| - 1];
      ghost var rest := Reversed(pending);
      assert todo[0] == (dirIndex, node);
      FinishOne(before, todo, dirIndex, node, rest);
      var firstChild := |entries|;
      var children := Merge(node.dirs, node.files);
      entries := entries[dirIndex := DirEntry(entries[dirIndex].name, |children|, firstChild)];
      ghost var patched := entries;
      assert patched == Patch(before, dirIndex, node);
      FinishBlock(patched, node, rest);
      var subDirs;
      entries, subDirs := WriteBlock(entries, children);
      ReversedPush(pending, subDirs);
      WorkOfSubs(pending, node, firstChild);
      pending := pending + Reversed(subDirs);
    }
    FinishDone(entries);
  }

  lemma {:induction false} FinishDone(es: seq<Entry>)
    ensures Finish(es, []) == es
  {
  }

  /** Pushing a directory's raw block and its subdirectories stands for emitting it whole. */
  lemma {:induction false} FinishBlock(es: seq<Entry>, n: DirNode, rest: Pending)
    requires Unpatched(es, rest)
    ensures var cs := Merge(n.dirs, n.files);
            && Unpatched(es + Raw(cs), Subs(cs, |es|) + rest)
            && Unpatched(es + Emit(n, |es|), rest)
            && Finish(es + Raw(cs), Subs(cs, |es|) + rest) == Finish(es + Emit(n, |es|), rest)
  {
    hide Merge, Block, EmitAll, Raw, Subs, Finish;
    FinishChildren(es, n.dirs, n.files, [], rest);
    assert RawAround(es, n.dirs, n.files, []) == es + Raw(Merge(n.dirs, n.files));
    assert DoneAround(es, n.dirs, n.files, []) == es + Emit(n, |es|);
  }

  // ----- reading the table back -----

  /** Rebuilds the directory at index `i`, or fails on a table that does not describe one. A child
      block must lie after the entry that names it, which is what makes reading end. */
  function ReadDir(es: seq<Entry>, i: nat): Option<DirNode>
    decreases |es| - i, 0, 0
  {
    if i < |es| && es[i].DirEntry? && i < es[i].first && es[i].first + es[i].count <= |es|
    then ReadBlock(es, es[i].first, es[i].count)
    else None
  }

  function ReadBlock(es: seq<Entry>, at: nat, count: nat): Option<DirNode>
    requires at + count <= |es|
    decreases |es| - at, 1, count
  {
    if count == 0 then Some(EMPTY)
    else
      match ReadBlock(es, at + 1, count - 1)
      case None => None
      case Some(rest) =>
        match es[at]
        case FileEntry(name, data) => Some(rest.(files := [(name, data)] + rest.files))
        case DirEntry(name, _, _) =>
          match ReadDir(es, at)
          case None => None
          case Some(node) => Some(rest.(dirs := [(name, node)] + rest.dirs))
  }

  /** The entries from `at` on begin with `part`. */
  predicate Holds(es: seq<Entry>, at: nat, part: seq<Entry>) {
    at + |part| <= |es| && es[at..at + |part|] == part
  }

  lemma {:induction false} HoldsSplit(es: seq<Entry>, at: nat, a: seq<Entry>, b: seq<Entry>)
    requires Holds(es, at, a + b)
    ensures Holds(es, at, a) && Holds(es, at + |a|, b)
  {
    assert es[at..at + |a|] == (a + b)[..|a|];
    assert es[at + |a|..at + |a| + |b|] == (a + b)[|a|..];
  }

  lemma {:induction false} HoldsFirst(es: seq<Entry>, at: nat, e: Entry, rest: seq<Entry>)
    requires Holds(es, at, [e] + rest)
    ensures at < |es| && es[at] == e && Holds(es, at + 1, rest) && at + 1 + |rest| <= |es|
  {
    HoldsSplit(es, at, [e], rest);
    assert es[at] == es[at..at + 1][0];
  }

  lemma BlockDir(dirs: seq<(Name, DirNode)>, files: seq<(Name, Data)>, at: nat)
    requires Merge(dirs, files) != [] && Merge(dirs, files)[0].SubDir?
    ensures dirs != []
    ensures Block(dirs, files, at) ==
              [DirEntry(dirs[0].0, Width(dirs[0].1), at)] + Block(dirs[1..], files, at + Size(dirs[0].1))
    ensures EmitAll(dirs, at) == Emit(dirs[0].1, at) + EmitAll(dirs[1..], at + Size(dirs[0].1))
    ensures SizeOf(dirs) == Size(dirs[0].1) + SizeOf(dirs[1..])
  {
    TakeDir(dirs, files, at, 0);
  }

  /** Wherever a table holds a directory's entry and, later, everything below the directory, the
      reader rebuilds that directory. */
  lemma {:induction false} ReadsDir(es: seq<Entry>, i: nat, n: DirNode, at: nat)
    requires i < at && i < |es| && es[i].DirEntry? && es[i].count == Width(n) && es[i].first == at
    requires Holds(es, at, Emit(n, at))
    ensures ReadDir(es, i) == Some(n)
    decreases 2 * Size(n) + 1
  {
    HoldsSplit(es, at, Block(n.dirs, n.files, at + Width(n)), EmitAll(n.dirs, at + Width(n)));
    ReadsBlock(es, at, n.dirs, n.files, at + Width(n));
  }

  lemma {:induction false} ReadsBlock(es: seq<Entry>, pos: nat, dirs: seq<(Name, DirNode)>, files: seq<(Name, Data)>,
                                      at: nat)
    requires pos + |dirs| + |files| <= at
    requires Holds(es, pos, Block(dirs, files, at)) && Holds(es, at, EmitAll(dirs, at))
    ensures ReadBlock(es, pos, |dirs| + |files|) == Some(DirNode(dirs, files))
    decreases 2 * SizeOf(dirs) + 2 * |dirs|, |files|
  {
    hide Merge, Block, Emit, EmitAll, Size, SizeOf, ReadDir, Holds, Width;
    var cs := Merge(dirs, files);
    if cs == [] {
    } else if cs[0].SubDir? {
      BlockDir(dirs, files, at);
      var d, at' := dirs[0], at + Size(dirs[0].1);
      var e := DirEntry(d.0, Width(d.1), at);
      HoldsFirst(es, pos, e, Block(dirs[1..], files, at'));
      HoldsSplit(es, at, Emit(d.1, at), EmitAll(dirs[1..], at'));
      ReadsBlock(es, pos + 1, dirs[1..], files, at');
      ReadsDir(es, pos, d.1, at);
      assert dirs == [(d.0, d.1)] + dirs[1..];
    } else {
      TakeFile(dirs, files, at, 0);
      var f := files[0];
      HoldsFirst(es, pos, FileEntry(f.0, f.1), Block(dirs, files[1..], at));
      ReadsBlock(es, pos + 1, dirs, files[1..], at);
      assert files == [(f.0, f.1)] + files[1..];
    }
  }

  /** Reading the table of a tree from its root gives the tree. */
  lemma TableReadsBack(root: DirNode)
    ensures ReadDir(Table(root), 0) == Some(root)
  {
    var es := Table(root);
    assert es[1..] == Emit(root, 1) && es[1..1 + Size(root)] == Emit(root, 1);
    ReadsDir(es, 0, root, 1);
  }

  // ----- shape of the table -----

  /** Entry `i` is a directory whose child block contains `j`. */
  predicate Owns(es: seq<Entry>, i: nat, j: nat)
    requires i < |es|
  {
    es[i].DirEntry? && es[i].first <= j < es[i].first + es[i].count
  }

  /** Some directory at `lo..hi` or `at..end` has `j` among its children. */
  ghost predicate Parented(es: seq<Entry>, lo: nat, hi: nat, at: nat, end: nat, j: nat)
    requires lo <= hi <= at <= end <= |es|
  {
    exists i :: (lo <= i < hi || at <= i < end) && Owns(es, i, j)
  }

  /** Directories at `lo..hi` and `at..end` keep their child blocks inside `at..end`, after their own
      entry, and every entry of `at..end` is in exactly one of those blocks. */
  ghost predicate Tiled(es: seq<Entry>, lo: nat, hi: nat, at: nat, end: nat)
    requires lo <= hi <= at <= end <= |es|
  {
    && (forall i {:trigger es[i]} :: (lo <= i < hi || at <= i < end) && es[i].DirEntry? ==>
          i < es[i].first && at <= es[i].first && es[i].first + es[i].count <= end)
    && (forall j :: at <= j < end ==> Parented(es, lo, hi, at, end, j))
    && (forall i, k, j | (lo <= i < hi || at <= i < end) && (lo <= k < hi || at <= k < end) && at <= j < end ::
          Owns(es, i, j) && Owns(es, k, j) ==> i == k)
  }

  lemma {:induction false} ParentedWider(es: seq<Entry>, lo: nat, hi: nat, at: nat, end: nat, lo': nat, hi': nat,
                                         at': nat, end': nat, j: nat)
    requires lo' <= lo <= hi <= hi' <= at' <= at <= end <= end' <= |es|
    requires Parented(es, lo, hi, at, end, j)
    ensures Parented(es, lo', hi', at', end', j)
  {
    var i :| (lo <= i < hi || at <= i < end) && Owns(es, i, j);
  }

  /** Two neighbouring tiled stretches, with their directories side by side, tile their union. */
  lemma {:induction false} TilesJoin(es: seq<Entry>, lo: nat, mid: nat, hi: nat, at: nat, cut: nat, end: nat)
    requires lo <= mid <= hi <= at <= cut <= end <= |es|
    requires Tiled(es, lo, mid, at, cut) && Tiled(es, mid, hi, cut, end)
    ensures Tiled(es, lo, hi, at, end)
  {
    forall j | at <= j < end ensures Parented(es, lo, hi, at, end, j) {
      if j < cut {
        ParentedWider(es, lo, mid, at, cut, lo, hi, at, end, j);
      } else {
        ParentedWider(es, mid, hi, cut, end, lo, hi, at, end, j);
      }
    }
  }

  lemma {:induction false} EmitTiles(es: seq<Entry>, i: nat, n: DirNode, at: nat)
    requires i < at && i < |es| && es[i].DirEntry? && es[i].count == Width(n) && es[i].first == at
    requires Holds(es, at, Emit(n, at))
    ensures Tiled(es, i, i + 1, at, at + Size(n))
    decreases 2 * Size(n) + 1
  {
    hide Block, Emit, EmitAll, SizeOf, Tiled, Holds;
    var mid, end := at + Width(n), at + Size(n);
    EmitParts(n, at);
    HoldsSplit(es, at, Block(n.dirs, n.files, mid), EmitAll(n.dirs, mid));
    HoldsFits(es, mid, EmitAll(n.dirs, mid));
    BlockTiles(es, at, n.dirs, n.files, mid);
    OwnBlockTiles(es, i, i + 1, at, mid, end);
  }

  lemma HoldsFits(es: seq<Entry>, at: nat, part: seq<Entry>)
    requires Holds(es, at, part)
    ensures at + |part| <= |es|
  {
  }

  lemma EmitParts(n: DirNode, at: nat)
    ensures Emit(n, at) == Block(n.dirs, n.files, at + Width(n)) + EmitAll(n.dirs, at + Width(n))
    ensures Size(n) == Width(n) + SizeOf(n.dirs)
  {
  }

  /** A directory's own block joins the tiling of what lies below the block. */
  lemma {:induction false} OwnBlockTiles(es: seq<Entry>, i: nat, hi: nat, at: nat, mid: nat, end: nat)
    requires i < hi == i + 1 <= at <= mid <= end <= |es|
    requires es[i].DirEntry? && es[i].first == at && es[i].count == mid - at
    requires Tiled(es, at, mid, mid, end)
    ensures Tiled(es, i, hi, at, end)
  {
    forall j | at <= j < end ensures Parented(es, i, hi, at, end, j) {
      if j < mid {
        assert Owns(es, i, j);
      } else {
        assert Parented(es, at, mid, mid, end, j);
        var k :| (at <= k < mid || mid <= k < end) && Owns(es, k, j);
      }
    }
  }

  lemma {:induction false} BlockTiles(es: seq<Entry>, pos: nat, dirs: seq<(Name, DirNode)>, files: seq<(Name, Data)>,
                                      at: nat)
    requires pos + |dirs| + |files| <= at
    requires Holds(es, pos, Block(dirs, files, at)) && Holds(es, at, EmitAll(dirs, at))
    ensures Tiled(es, pos, pos + |dirs| + |files|, at, at + SizeOf(dirs))
    decreases 2 * SizeOf(dirs) + 2 * |dirs|, |files|
  {
    hide Merge, Block, Emit, EmitAll, Size, SizeOf, Tiled, Holds, Width;
    HoldsFits(es, at, EmitAll(dirs, at));
    var cs := Merge(dirs, files);
    if cs == [] {
      NothingTiles(es, pos, at, dirs);
    } else if cs[0].SubDir? {
      BlockDir(dirs, files, at);
      var d, at' := dirs[0], at + Size(dirs[0].1);
      HoldsFirst(es, pos, DirEntry(d.0, Width(d.1), at), Block(dirs[1..], files, at'));
      HoldsSplit(es, at, Emit(d.1, at), EmitAll(dirs[1..], at'));
      EmitTiles(es, pos, d.1, at);
      BlockTiles(es, pos + 1, dirs[1..], files, at');
      TilesJoin(es, pos, pos + 1, pos + |dirs| + |files|, at, at', at + SizeOf(dirs));
    } else {
      TakeFile(dirs, files, at, 0);
      HoldsFirst(es, pos, FileEntry(files[0].0, files[0].1), Block(dirs, files[1..], at));
      BlockTiles(es, pos + 1, dirs, files[1..], at);
      FileTiles(es, pos, pos + |dirs| + |files|, at, at + SizeOf(dirs));
    }
  }

  lemma NothingTiles(es: seq<Entry>, pos: nat, at: nat, dirs: seq<(Name, DirNode)>)
    requires dirs == [] && pos <= at <= |es|
    ensures Tiled(es, pos, pos, at, at + SizeOf(dirs))
  {
  }

  lemma {:induction false} FileTiles(es: seq<Entry>, pos: nat, hi: nat, at: nat, end: nat)
    requires pos + 1 <= hi <= at <= end <= |es| && es[pos].FileEntry? && Tiled(es, pos + 1, hi, at, end)
    ensures Tiled(es, pos, hi, at, end)
  {
    forall j | at <= j < end ensures Parented(es, pos, hi, at, end, j) {
      ParentedWider(es, pos + 1, hi, at, end, pos, hi, at, end, j);
    }
  }

  /** In the table of any tree every entry but the root has exactly one parent directory, which
      comes before it, and child blocks stay inside the table: the blocks tile 1..n. */
  lemma TableIsTiled(root: DirNode)
    ensures var es := Table(root); Tiled(es, 0, 1, 1, |es|)
  {
    hide Emit, EmitAll, Tiled;
    var es := Table(root);
    assert es[1..1 + Size(root)] == Emit(root, 1);
    EmitTiles(es, 0, root, 1);
  }

  lemma {:induction false} MergeMembers(dirs: seq<(Name, DirNode)>, files: seq<(Name, Data)>, c: Child)
    requires c in Merge(dirs, files)
    ensures if c.SubDir? then (c.name, c.node) in dirs else (c.name, c.data) in files
    decreases |dirs| + |files|
  {
    var cs := Merge(dirs, files);
    if cs[0].SubDir? {
      assert cs == [cs[0]] + Merge(dirs[1..], files);
      if c != cs[0] { MergeMembers(dirs[1..], files, c); }
    } else {
      assert cs == [cs[0]] + Merge(dirs, files[1..]);
      if c != cs[0] { MergeMembers(dirs, files[1..], c); }
    }
  }

  predicate NameSorted(cs: seq<Child>) {
    forall i, j :: 0 <= i < j < |cs| ==> !Less(cs[j].name, cs[i].name)
  }

  /** The children of a directory are written in name order. */
  lemma {:induction false} ChildrenSorted(dirs: seq<(Name, DirNode)>, files: seq<(Name, Data)>)
    requires Ordered(dirs) && Ordered(files)
    ensures NameSorted(Merge(dirs, files))
    decreases |dirs| + |files|
  {
    var cs := Merge(dirs, files);
    if cs != [] {
      var isDir := cs[0].SubDir?;
      var tail := if isDir then Merge(dirs[1..], files) else Merge(dirs, files[1..]);
      if isDir { ChildrenSorted(dirs[1..], files); } else { ChildrenSorted(dirs, files[1..]); }
      assert cs == [cs[0]] + tail;
      forall c | c in tail ensures !Less(c.name, cs[0].name) {
        if isDir { MergeMembers(dirs[1..], files, c); } else { MergeMembers(dirs, files[1..], c); }
        FirstIsLeast(dirs, files, cs[0].name, c.name);
      }
      SortedCons(cs[0], tail);
    }
  }

  lemma SortedCons(c: Child, tail: seq<Child>)
    requires NameSorted(tail) && forall d :: d in tail ==> !Less(d.name, c.name)
    ensures NameSorted([c] + tail)
  {
    var cs := [c] + tail;
    forall i, j | 0 <= i < j < |cs| ensures !Less(cs[j].name, cs[i].name) {
      assert cs[j] == tail[j - 1] && tail[j - 1] in tail;
      if i > 0 { assert cs[i] == tail[i - 1]; }
    }
  }

  lemma {:induction false} FirstIsLeast(dirs: seq<(Name, DirNode)>, files: seq<(Name, Data)>, least: Name, name: Name)
    requires Ordered(dirs) && Ordered(files)
    requires dirs != [] ==> least == dirs[0].0 || Less(least, dirs[0].0)
    requires files != [] ==>
               || least == files[0].0 || Less(least, files[0].0)
               || (dirs != [] && least == dirs[0].0 && !Less(files[0].0, least))
    requires (exists d :: d in dirs && d.0 == name) || (exists f :: f in files && f.0 == name)
    ensures !Less(name, least)
  {
    if exists d :: d in dirs && d.0 == name {
      var d :| d in dirs && d.0 == name;
      LessChain(least, dirs[0].0, name);
    } else {
      var f :| f in files && f.0 == name;
      LessTotal(least, files[0].0);
      LessChain(least, files[0].0, name);
    }
  }

  lemma {:induction false} LessChain(a: Name, b: Name, c: Name)
    requires (a == b || Less(a, b)) && (b == c || Less(b, c))
    ensures !Less(c, a)
  {
    LessTotal(a, c);
    if a != b && b != c { LessTransitive(a, b, c); }
  }
}
