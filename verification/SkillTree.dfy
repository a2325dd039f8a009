/**
  The skill directory's tree: copying it and taking its fingerprint. A tree maps each path under its
  root, "." for the root itself, to what is there. Names and payloads are bytes, written as
  characters; the fingerprint stands for the stream fed to SHA-256, which is taken to be injective.
*/
module SkillTree {
  import opened Common
  import opened Versions
  import Order = VersionOrder

  const NUL := '\0'
  const MAXIMUM_FILE := 2 * 1024 * 1024

  /** `Odd` is what neither function accepts: a symbolic link (perhaps to a directory), a device. */
  datatype Node = Directory | File(payload: string) | Odd(toDirectory: bool)

  /** A root is a directory with what is under it, or stands alone; no name holds a NUL. */
  predicate WellFormed(t: map<string, Node>) {
    && "." in t && (t["."] == Directory || t.Keys == {"."})
    && forall p :: p in t ==> NUL !in p
  }

  type Tree = t: map<string, Node> | WellFormed(t) witness map["." := Directory]

  predicate Distinct(ps: seq<string>) { forall i, j :: 0 <= i < j < |ps| ==> ps[i] != ps[j] }

  /** A walk visits every path once, in any order. */
  ghost predicate IsWalk(t: Tree, walk: seq<string>) {
    && (forall p :: p in walk <==> p in t)
    && Distinct(walk)
  }

  predicate Fits(n: Node) {
    match n
    case Directory => true
    case File(payload) => |payload| <= MAXIMUM_FILE
    case Odd(_) => false
  }

  /** Both functions accept what is in the tree. */
  predicate Acceptable(t: map<string, Node>) { forall p :: p in t ==> Fits(t[p]) }

  /** What the fingerprint is about: the regular files. Empty directories leave no trace in it. */
  function Files(t: map<string, Node>): map<string, string> {
    map p | p in t && t[p].File? :: t[p].payload
  }

  // ------------------------------------------------------------------------ sorted paths

  predicate Below(a: string, b: string) { CompareText(a, b) < 0 }

  predicate Ascending(ps: seq<string>) { forall i, j :: 0 <= i < j < |ps| ==> Below(ps[i], ps[j]) }

  function Insert(ps: seq<string>, p: string): seq<string> {
    if ps == [] || Below(p, ps[0]) then [p] + ps else [ps[0]] + Insert(ps[1..], p)
  }

  /** `sort.Strings`. */
  function Sort(ps: seq<string>): seq<string> {
    if ps == [] then [] else Insert(Sort(ps[..|ps| - 1]), ps[|ps| - 1])
  }

  lemma BelowOrAbove(a: string, b: string)
    requires a != b
    ensures Below(a, b) != Below(b, a)
  {
    Order.TextReverses(a, b);
  }

  lemma BelowChains(a: string, b: string, c: string)
    requires Below(a, b) && Below(b, c)
    ensures Below(a, c)
  {
    Order.TextChains(a, b, c);
    Order.TextReverses(a, b);
    Order.TextReverses(b, c);
    Order.TextReverses(a, c);
  }

  lemma {:induction false} InsertKeeps(ps: seq<string>, p: string)
    requires Ascending(ps) && p !in ps
    ensures Ascending(Insert(ps, p)) && forall q :: q in Insert(ps, p) <==> q in ps || q == p
  {
    var r := Insert(ps, p);
    if ps == [] {
    } else if Below(p, ps[0]) {
      forall j | 1 <= j < |ps| ensures Below(p, ps[j]) {
        BelowChains(p, ps[0], ps[j]);
      }
    } else {
      InsertKeeps(ps[1..], p);
      BelowOrAbove(p, ps[0]);
      assert ps == [ps[0]] + ps[1..];
      forall j | 1 <= j < |r| ensures Below(ps[0], r[j]) {
        assert r[j] in r[1..];
        assert r[j] in ps[1..] ==> exists k :: 1 <= k < |ps| && ps[k] == r[j];
      }
    }
  }

  lemma {:induction false} SortSorts(ps: seq<string>)
    requires Distinct(ps)
    ensures Ascending(Sort(ps)) && forall q :: q in Sort(ps) <==> q in ps
  {
    if ps != [] {
      var init := ps[..|ps| - 1];
      SortSorts(init);
      InsertKeeps(Sort(init), ps[|ps| - 1]);
      assert ps == init + [ps[|ps| - 1]];
    }
  }

  /** A set has one ascending listing. */
  lemma {:induction false} AscendingIsUnique(ps: seq<string>, qs: seq<string>)
    requires Ascending(ps) && Ascending(qs) && forall p :: p in ps <==> p in qs
    ensures ps == qs
  {
    if qs != [] {
      assert qs[0] in qs;
      assert qs[0] in ps;
    }
    if ps != [] {
      assert ps[0] in qs;
      assert qs[0] in ps;
      Order.TextReverses(ps[0], qs[0]);
      assert ps[0] == qs[0];
      LaterAreAbove(ps);
      LaterAreAbove(qs);
      AscendingIsUnique(ps[1..], qs[1..]);
      assert ps == [ps[0]] + ps[1..] && qs == [qs[0]] + qs[1..];
    }
  }

  lemma LaterAreAbove(ps: seq<string>)
    requires Ascending(ps) && ps != []
    ensures Ascending(ps[1..]) && forall p :: p in ps[1..] <==> p in ps && p != ps[0]
  {
    Order.TextReverses(ps[0], ps[0]);
    assert ps == [ps[0]] + ps[1..];
  }

  // ------------------------------------------------------------------------ the fingerprint

  function Record(path: string, payload: string): string { path + [NUL] + (payload + [NUL]) }

  /** What is fed to the hash: each file's path and payload, each ended by a NUL. */
  function Stream(ps: seq<string>, files: map<string, string>): string
    requires forall p :: p in ps ==> p in files
  {
    if ps == [] then "" else Stream(ps[..|ps| - 1], files) + Record(ps[|ps| - 1], files[ps[|ps| - 1]])
  }

  function FilePaths(t: map<string, Node>, walk: seq<string>): (ps: seq<string>)
    requires forall p :: p in walk ==> p in t
    ensures forall p :: p in ps <==> p in walk && t[p].File?
  {
    if walk == [] then []
    else
      var last := walk[|walk| - 1];
      assert forall p :: p in walk <==> p in walk[..|walk| - 1] || p == last;
      FilePaths(t, walk[..|walk| - 1]) + if t[last].File? then [last] else []
  }

  lemma {:induction false} FilePathsDiffer(t: map<string, Node>, walk: seq<string>)
    requires forall p :: p in walk ==> p in t
    requires Distinct(walk)
    ensures Distinct(FilePaths(t, walk))
  {
    if walk != [] {
      var init := walk[..|walk| - 1];
      FilePathsDiffer(t, init);
      assert walk[|walk| - 1] !in init;
      assert walk[|walk| - 1] !in FilePaths(t, init);
    }
  }

  /** The ascending listing of a map's keys. */
  ghost predicate Lists(ps: seq<string>, files: map<string, string>) {
    Ascending(ps) && forall p :: p in ps <==> p in files
  }

  lemma {:induction false} ListsFiles(t: Tree, walk: seq<string>)
    requires IsWalk(t, walk)
    ensures Lists(Sort(FilePaths(t, walk)), Files(t))
  {
    FilePathsDiffer(t, walk);
    SortSorts(FilePaths(t, walk));
  }

  /** The fingerprint of a tree, whatever its walk: none when something in it is not accepted. */
  ghost predicate IsHash(t: Tree, hash: Option<string>) {
    if Acceptable(t) then hash.Some? && IsStream(Files(t), hash.value) else hash == None
  }

  ghost predicate IsStream(files: map<string, string>, s: string) {
    exists ps :: Lists(ps, files) && s == Stream(ps, files)
  }

  /** The directories of a tree, which the walk must be able to read. */
  function Directories(t: map<string, Node>): set<string> {
    set p | p in t && t[p].Directory?
  }

  /** The first loop of `treeHash`, over the walk. */
  method CollectFiles(t: Tree, walk: seq<string>, broken: set<string>) returns (accepted: bool, files: seq<string>)
    requires IsWalk(t, walk)
    ensures accepted == (Acceptable(t) && broken !! Directories(t))
    ensures accepted ==> files == FilePaths(t, walk)
  {
    files := [];
    for i := 0 to |walk|
      invariant files == FilePaths(t, walk[..i])
      invariant forall k :: 0 <= k < i ==> Fits(t[walk[k]]) && (t[walk[k]].Directory? ==> walk[k] !in broken)
    {
      var path := walk[i];
      assert walk[..i + 1][..i] == walk[..i] && path in t;
      if t[path].Odd? {
        return false, files;
      }
      if t[path].Directory? && path in broken {
        return false, files;
      }
      if t[path].Directory? {
        continue;
      }
      if |t[path].payload| > MAXIMUM_FILE {
        return false, files;
      }
      files := files + [path];
    }
    assert walk[..|walk|] == walk;
    accepted := true;
  }

  /** `treeHash`; `broken` are the directories and files that cannot be read. */
  method TreeHash(t: Tree, walk: seq<string>, broken: set<string>) returns (hash: Option<string>)
    requires IsWalk(t, walk)
    ensures if broken !! t.Keys then IsHash(t, hash) else hash == None
  {
    assert Acceptable(t) ==> t.Keys == Directories(t) + Files(t).Keys;
    var accepted, files := CollectFiles(t, walk, broken);
    if !accepted {
      return None;
    }
    ListsFiles(t, walk);
    hash := Feed(Files(t), Sort(files), broken);
  }

  /** The second loop of `treeHash`, over the sorted files. */
  method Feed(files: map<string, string>, paths: seq<string>, broken: set<string>) returns (hash: Option<string>)
    requires forall p :: p in paths <==> p in files
    ensures hash == if broken !! files.Keys then Some(Stream(paths, files)) else None
  {
    var stream := "";
    for i := 0 to |paths|
      invariant stream == Stream(paths[..i], files)
      invariant forall k :: 0 <= k < i ==> paths[k] !in broken
    {
      var path := paths[i];
      assert path in paths && paths[..i + 1][..i] == paths[..i];
      if path in broken {
        return None;
      }
      stream := stream + (path + [NUL]);
      stream := stream + (files[path] + [NUL]);
      assert stream == Stream(paths[..i], files) + Record(path, files[path]);
    }
    assert paths[..|paths|] == paths;
    hash := Some(stream);
  }

  /** `copyTree`, with its loop over the walk; it writes until the first thing it does not accept. */
  method CopyTree(t: Tree, walk: seq<string>, broken: set<string>) returns (copied: bool, copy: map<string, Node>)
    requires IsWalk(t, walk)
    ensures copied == (Acceptable(t) && broken !! t.Keys)
    ensures copied ==> copy == t
    ensures forall p :: p in copy ==> p in t && copy[p] == t[p]
  {
    copy := map[];
    for i := 0 to |walk|
      invariant forall p :: p in copy <==> p in walk[..i]
      invariant forall p :: p in copy ==> p in t && copy[p] == t[p] && Fits(t[p]) && p !in broken
    {
      var path := walk[i];
      assert path in t;
      if path in broken || !Fits(t[path]) {
        return false, copy;
      }
      copy := copy[path := t[path]];
    }
    assert walk[..|walk|] == walk;
    copied := true;
  }

  // ------------------------------------------------------------------------ what it tells apart

  /** Any finite set of paths has its listing. */
  lemma {:induction false} ListingExists(files: map<string, string>) returns (ps: seq<string>)
    ensures Lists(ps, files)
    decreases |files|
  {
    if files == map[] {
      ps := [];
    } else {
      var p :| p in files;
      assert (files - {p}).Keys == files.Keys - {p};
      assert |files.Keys - {p}| == |files.Keys| - 1;
      var rest := ListingExists(files - {p});
      InsertKeeps(rest, p);
      ps := Insert(rest, p);
    }
  }

  lemma StreamIsUnique(files: map<string, string>, s: string, t: string)
    requires IsStream(files, s) && IsStream(files, t)
    ensures s == t
  {
    var ps :| Lists(ps, files) && s == Stream(ps, files);
    var qs :| Lists(qs, files) && t == Stream(qs, files);
    AscendingIsUnique(ps, qs);
  }

  /** The order of the walk leaves no trace, and nor does anything but the files. */
  lemma HashIsOfTheFiles(t: Tree, u: Tree, h: Option<string>, k: Option<string>)
    requires IsHash(t, h) && IsHash(u, k) && Files(t) == Files(u) && Acceptable(t) && Acceptable(u)
    ensures h == k
  {
    StreamIsUnique(Files(t), h.value, k.value);
  }

  ghost predicate NulFree(files: map<string, string>) {
    forall p :: p in files ==> NUL !in p && NUL !in files[p]
  }

  /** Read from the front: the first path, its payload, the rest. */
  lemma {:induction false} StreamFront(ps: seq<string>, files: map<string, string>)
    requires ps != [] && forall p :: p in ps ==> p in files
    ensures ps[0] in ps && (forall p :: p in ps[1..] ==> p in ps)
    ensures Stream(ps, files) == Record(ps[0], files[ps[0]]) + Stream(ps[1..], files)
  {
    assert forall p :: p in ps[1..] ==> p in ps;
    if |ps| == 1 {
      assert ps[..0] == [] && ps[1..] == [];
    } else {
      var n := |ps| - 1;
      var init, tail := ps[..n], ps[1..];
      StreamFront(init, files);
      assert init[1..] == tail[..|tail| - 1] && init[0] == ps[0] && tail[|tail| - 1] == ps[n];
      var first, middle, last := Record(ps[0], files[ps[0]]), Stream(init[1..], files), Record(ps[n], files[ps[n]]);
      assert Stream(ps, files) == (first + middle) + last;
      assert Stream(tail, files) == middle + last;
      assert (first + middle) + last == first + (middle + last);
    }
  }

  /** A stretch without NUL, ended by the first NUL, is read back in one way. */
  lemma FirstNul(a: string, b: string, s: string, t: string)
    requires NUL !in a && NUL !in b && a + [NUL] + s == b + [NUL] + t
    ensures a == b && s == t
  {
    var l, r := a + [NUL] + s, b + [NUL] + t;
    assert forall i :: 0 <= i < |b| ==> r[i] == b[i] && b[i] in b;
    assert forall i :: 0 <= i < |a| ==> l[i] == a[i] && a[i] in a;
    assert l[|a|] == NUL && r[|b|] == NUL;
    assert |a| == |b|;
    assert a == l[..|a|] && b == r[..|b|] && s == l[|a| + 1..] && t == r[|b| + 1..];
  }

  lemma RecordReadsBack(p: string, x: string, s: string, q: string, y: string, t: string)
    requires NUL !in p && NUL !in x && NUL !in q && NUL !in y && Record(p, x) + s == Record(q, y) + t
    ensures p == q && x == y && s == t
  {
    assert Record(p, x) + s == p + [NUL] + (x + [NUL] + s);
    assert Record(q, y) + t == q + [NUL] + (y + [NUL] + t);
    FirstNul(p, q, x + [NUL] + s, y + [NUL] + t);
    FirstNul(x, y, s, t);
  }

  lemma {:induction false} StreamsReadBack(ps: seq<string>, f: map<string, string>, qs: seq<string>,
                                           g: map<string, string>)
    requires (forall p :: p in ps ==> p in f) && (forall q :: q in qs ==> q in g)
    requires NulFree(f) && NulFree(g) && Stream(ps, f) == Stream(qs, g)
    ensures ps == qs && forall p :: p in ps ==> f[p] == g[p]
    decreases |ps|
  {
    if ps != [] && qs != [] {
      StreamFront(ps, f);
      StreamFront(qs, g);
      RecordReadsBack(ps[0], f[ps[0]], Stream(ps[1..], f), qs[0], g[qs[0]], Stream(qs[1..], g));
      StreamsReadBack(ps[1..], f, qs[1..], g);
      assert ps == [ps[0]] + ps[1..] && qs == [qs[0]] + qs[1..];
    }
  }

  /** Without NULs in payloads, trees have the same fingerprint exactly when they have the same files. */
  lemma SameHashSameFiles(t: Tree, u: Tree, h: Option<string>, k: Option<string>)
    requires Acceptable(t) && Acceptable(u) && IsHash(t, h) && IsHash(u, k)
    requires NulFree(Files(t)) && NulFree(Files(u))
    ensures h == k <==> Files(t) == Files(u)
  {
    if h == k {
      StreamsTellFiles(Files(t), Files(u), h.value);
    }
    if Files(t) == Files(u) {
      HashIsOfTheFiles(t, u, h, k);
    }
  }

  lemma StreamsTellFiles(f: map<string, string>, g: map<string, string>, s: string)
    requires NulFree(f) && NulFree(g) && IsStream(f, s) && IsStream(g, s)
    ensures f == g
  {
    var ps :| Lists(ps, f) && s == Stream(ps, f);
    var qs :| Lists(qs, g) && s == Stream(qs, g);
    StreamsReadBack(ps, f, qs, g);
    assert f.Keys == g.Keys;
  }

  // --------------------------------------------------------- payloads with NULs, and how far it holds

  /** The same stream read as one file fewer: the second path and payload end up in the first's. */
  function Merged(files: map<string, string>, p: string, q: string): map<string, string>
    requires p in files && q in files
  {
    (files - {q})[p := files[p] + [NUL] + q + [NUL] + files[q]]
  }

  lemma {:induction false} StreamOf(ps: seq<string>, f: map<string, string>, g: map<string, string>)
    requires forall p :: p in ps ==> p in f && p in g && f[p] == g[p]
    ensures Stream(ps, f) == Stream(ps, g)
  {
    if ps != [] {
      StreamOf(ps[..|ps| - 1], f, g);
    }
  }

  lemma MergedLists(files: map<string, string>, ps: seq<string>)
    requires Lists(ps, files) && |ps| >= 2
    ensures ps[0] in files && ps[1] in files && ps[0] != ps[1]
    ensures Lists([ps[0]] + ps[2..], Merged(files, ps[0], ps[1]))
  {
    assert ps[0] in ps && ps[1] in ps;
    LaterAreAbove(ps);
    LaterAreAbove(ps[1..]);
    assert ps[1..][0] == ps[1] && ps[1..][1..] == ps[2..];
    assert forall p :: p in ps[2..] ==> p in ps[1..];
  }

  lemma MergedRecords(p: string, x: string, q: string, y: string, rest: string)
    ensures Record(p, x) + (Record(q, y) + rest) == Record(p, x + [NUL] + q + [NUL] + y) + rest
  {
    assert Record(p, x) + Record(q, y) == Record(p, x + [NUL] + q + [NUL] + y);
  }

  lemma MergedStream(files: map<string, string>, ps: seq<string>)
    requires Lists(ps, files) && |ps| >= 2
    ensures ps[0] in files && ps[1] in files && ps[0] != ps[1]
    ensures IsStream(Merged(files, ps[0], ps[1]), Stream(ps, files))
  {
    MergedLists(files, ps);
    var p, q, rest := ps[0], ps[1], ps[2..];
    var g := Merged(files, p, q);
    var qs := [p] + rest;
    StreamFront(ps, files);
    StreamFront(ps[1..], files);
    StreamFront(qs, g);
    assert ps[1..][1..] == rest && ps[1..][0] == q && qs[1..] == rest;
    LaterAreAbove(ps);
    LaterAreAbove(ps[1..]);
    StreamOf(rest, files, g);
    MergedRecords(p, files[p], q, files[q], Stream(rest, files));
    assert Stream(qs, g) == Stream(ps, files);
  }

  lemma LastNul(x: string, y: string, rest: string)
    requires NUL !in x && x + [NUL] == y + [NUL] + rest
    ensures x == y && rest == ""
  {
    var l := x + [NUL];
    assert forall i :: 0 <= i < |x| ==> l[i] in x;
    assert (y + [NUL] + rest)[|y|] == NUL && |y| == |x|;
    assert y == l[..|x|] == x;
  }

  /** A file alone, with no NUL, is told from everything. */
  lemma OneFileReadsBack(p: string, x: string, f: map<string, string>, s: string)
    requires NUL !in p && NUL !in x && s == Record(p, x) && IsStream(f, s) && forall q :: q in f ==> NUL !in q
    ensures f == map[p := x]
  {
    var qs :| Lists(qs, f) && s == Stream(qs, f);
    assert qs != [];
    StreamFront(qs, f);
    var q, y, rest := qs[0], f[qs[0]], Stream(qs[1..], f);
    assert s == q + [NUL] + (y + [NUL] + rest);
    FirstNul(p, q, x + [NUL], y + [NUL] + rest);
    LastNul(x, y, rest);
    assert qs[1..] == [] && qs == [p];
    assert f.Keys == {p};
  }

  /** No other files have this fingerprint. */
  ghost predicate Pinned(files: map<string, string>) {
    forall g: map<string, string>, s ::
      (forall q :: q in g ==> NUL !in q) && IsStream(files, s) && IsStream(g, s) ==> g == files
  }

  /** Against files whose payloads hold NULs, a fingerprint pins its files exactly when there is at most one. */
  lemma PinnedExactly(files: map<string, string>, ps: seq<string>)
    requires NulFree(files) && Lists(ps, files)
    ensures Pinned(files) <==> |ps| <= 1
  {
    if |ps| >= 2 {
      MergedStream(files, ps);
      var g := Merged(files, ps[0], ps[1]);
      assert ps[1] in files && ps[1] !in g;
      assert IsStream(files, Stream(ps, files)) && IsStream(g, Stream(ps, files));
    } else {
      forall g: map<string, string>, s | (forall q :: q in g ==> NUL !in q) && IsStream(files, s) && IsStream(g, s)
        ensures g == files
      {
        PinnedWhenFew(files, ps, g, s);
      }
    }
  }

  /** No payload is over the limit on a file, as in every tree that is accepted. */
  predicate Sized(files: map<string, string>) {
    forall p :: p in files ==> |files[p]| <= MAXIMUM_FILE
  }

  /** A path under a directory: its segments are names, none empty and none "." or "..". */
  predicate Proper(path: string) {
    var t := "/" + path + "/";
    forall i :: 0 <= i < |t| ==> !("//" <= t[i..]) && !("/./" <= t[i..]) && !("/../" <= t[i..])
  }

  /** One tree can have files at these paths: none lies under another, or the root itself is the one file. */
  predicate Holdable(paths: set<string>) {
    paths == {"."} ||
    ((forall p :: p in paths ==> Proper(p)) && forall p, q :: p in paths && q in paths ==> !(p + "/" <= q))
  }

  /** No other files that a tree can hold and that would be accepted have this fingerprint. */
  ghost predicate PinnedWithin(files: map<string, string>) {
    forall g: map<string, string>, s ::
      (forall q :: q in g ==> NUL !in q) && Holdable(g.Keys) && Sized(g) && IsStream(files, s) && IsStream(g, s) ==>
        g == files
  }

  /** The same holds among accepted files only, when the first two merged still fit. */
  lemma PinnedWhenSmall(files: map<string, string>, ps: seq<string>)
    requires NulFree(files) && Sized(files) && Holdable(files.Keys) && Lists(ps, files)
    requires |ps| >= 2 ==> ps[0] in files && ps[1] in files &&
                           |Record(ps[0], files[ps[0]])| + |Record(ps[1], files[ps[1]])| <= MAXIMUM_FILE
    ensures PinnedWithin(files) <==> |ps| <= 1
  {
    if |ps| >= 2 {
      MergedStream(files, ps);
      var g := Merged(files, ps[0], ps[1]);
      assert ps[1] in files && ps[1] !in g;
      assert ps[0] in files && g.Keys == files.Keys - {ps[1]};
      assert Holdable(g.Keys);
      assert Sized(g) && IsStream(files, Stream(ps, files)) && IsStream(g, Stream(ps, files));
    } else {
      PinnedExactly(files, ps);
      assert Pinned(files);
    }
  }

  lemma PinnedWhenFew(files: map<string, string>, ps: seq<string>, g: map<string, string>, s: string)
    requires NulFree(files) && Lists(ps, files) && |ps| <= 1
    requires (forall q :: q in g ==> NUL !in q) && IsStream(files, s) && IsStream(g, s)
    ensures g == files
  {
    var qs :| Lists(qs, files) && s == Stream(qs, files);
    AscendingIsUnique(ps, qs);
    if ps == [] {
      var rs :| Lists(rs, g) && s == Stream(rs, g);
      if rs != [] {
        StreamFront(rs, g);
      }
      assert rs == [];
      assert g == map[] == files;
    } else {
      StreamFront(ps, files);
      assert ps[1..] == [] && Stream(ps[1..], files) == "";
      assert ps[0] in ps;
      OneFileReadsBack(ps[0], files[ps[0]], g, s);
      assert files.Keys == {ps[0]};
    }
  }
}
