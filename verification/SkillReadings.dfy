/**
  The readings of one fingerprint stream: when files are told apart from all others that would be
  accepted, payloads with NULs included.
*/
module SkillReadings {
  import opened Common
  import opened Versions
  import opened SkillTree

  /** A text cut at its NULs: never empty. */
  function SplitNul(x: string): (parts: seq<string>)
    ensures parts != []
    decreases |x|
  {
    var i := IndexOf(x, NUL);
    if i == |x| then [x] else [x[..i]] + SplitNul(x[i + 1..])
  }

  function JoinNul(parts: seq<string>): string
    requires parts != []
  {
    if |parts| == 1 then parts[0] else parts[0] + [NUL] + JoinNul(parts[1..])
  }

  /** Each piece ended by a NUL. */
  function Ended(pieces: seq<string>): string {
    if pieces == [] then "" else pieces[0] + [NUL] + Ended(pieces[1..])
  }

  predicate AllNulFree(pieces: seq<string>) { forall p :: p in pieces ==> NUL !in p }

  lemma {:induction false} SplitJoins(x: string)
    ensures JoinNul(SplitNul(x)) == x && AllNulFree(SplitNul(x))
    decreases |x|
  {
    var i := IndexOf(x, NUL);
    assert forall k :: 0 <= k < i ==> x[..i][k] == x[k];
    if i < |x| {
      var rest := x[i + 1..];
      SplitJoins(rest);
      assert SplitNul(x)[0] == x[..i] && SplitNul(x)[1..] == SplitNul(rest);
      assert x == x[..i] + [NUL] + rest;
    }
  }

  lemma {:induction false} EndedJoin(parts: seq<string>)
    requires parts != []
    ensures Ended(parts) == JoinNul(parts) + [NUL]
  {
    if |parts| == 1 {
      assert Ended(parts[1..]) == "";
    } else {
      EndedJoin(parts[1..]);
      assert parts[0] + [NUL] + (JoinNul(parts[1..]) + [NUL]) == parts[0] + [NUL] + JoinNul(parts[1..]) + [NUL];
    }
  }

  lemma {:induction false} EndedPlus(a: seq<string>, b: seq<string>)
    ensures Ended(a + b) == Ended(a) + Ended(b)
  {
    if a == [] {
      assert a + b == b;
    } else {
      EndedPlus(a[1..], b);
      assert (a + b)[1..] == a[1..] + b && (a + b)[0] == a[0];
      assert a[0] + [NUL] + (Ended(a[1..]) + Ended(b)) == a[0] + [NUL] + Ended(a[1..]) + Ended(b);
    }
  }

  lemma {:induction false} EndedReadsBack(a: seq<string>, b: seq<string>)
    requires AllNulFree(a) && AllNulFree(b) && Ended(a) == Ended(b)
    ensures a == b
  {
    if a != [] && b != [] {
      assert a[0] in a && b[0] in b;
      FirstNul(a[0], b[0], Ended(a[1..]), Ended(b[1..]));
      assert forall p :: p in a[1..] ==> p in a;
      assert forall p :: p in b[1..] ==> p in b;
      EndedReadsBack(a[1..], b[1..]);
      assert a == [a[0]] + a[1..] && b == [b[0]] + b[1..];
    }
  }

  /** The pieces of each file: its path, and its payload cut at the NULs. */
  function Groups(ps: seq<string>, files: map<string, string>): seq<seq<string>>
    requires forall p :: p in ps ==> p in files
  {
    if ps == [] then []
    else
      assert ps[0] in ps && forall p :: p in ps[1..] ==> p in ps;
      [[ps[0]] + SplitNul(files[ps[0]])] + Groups(ps[1..], files)
  }

  function Flat(groups: seq<seq<string>>): seq<string> {
    if groups == [] then [] else groups[0] + Flat(groups[1..])
  }

  lemma {:induction false} StreamOfGroups(ps: seq<string>, files: map<string, string>)
    requires (forall p :: p in ps ==> p in files) && (forall p :: p in files ==> NUL !in p)
    ensures Stream(ps, files) == Ended(Flat(Groups(ps, files))) && AllNulFree(Flat(Groups(ps, files)))
  {
    if ps != [] {
      StreamFront(ps, files);
      StreamOfGroups(ps[1..], files);
      var p, parts := ps[0], SplitNul(files[ps[0]]);
      SplitJoins(files[p]);
      EndedJoin(parts);
      assert ([p] + parts)[1..] == parts;
      assert Ended([p] + parts) == p + [NUL] + (files[p] + [NUL]) == Record(p, files[p]);
      EndedPlus([p] + parts, Flat(Groups(ps[1..], files)));
    }
  }

  /** A reading of these pieces as accepted files: paths ascending, each with a payload that fits. */
  predicate Reading(groups: seq<seq<string>>, pieces: seq<string>) {
    && Flat(groups) == pieces
    && (forall i :: 0 <= i < |groups| ==> |groups[i]| >= 2 && |JoinNul(groups[i][1..])| <= MAXIMUM_FILE)
    && (forall i, j :: 0 <= i < j < |groups| ==> Below(groups[i][0], groups[j][0]))
  }

  function Firsts(groups: seq<seq<string>>): (ps: seq<string>)
    requires forall i :: 0 <= i < |groups| ==> |groups[i]| >= 2
    ensures |ps| == |groups| && forall i :: 0 <= i < |groups| ==> ps[i] == groups[i][0]
  {
    if groups == [] then [] else [groups[0][0]] + Firsts(groups[1..])
  }

  /** The files that a reading stands for. */
  function Rebuilt(groups: seq<seq<string>>): map<string, string>
    requires forall i :: 0 <= i < |groups| ==> |groups[i]| >= 2
  {
    if groups == [] then map[] else Rebuilt(groups[1..])[groups[0][0] := JoinNul(groups[0][1..])]
  }

  lemma {:induction false} GroupsRead(ps: seq<string>, files: map<string, string>)
    requires Ascending(ps) && (forall p :: p in ps ==> p in files) && Sized(files)
    ensures Reading(Groups(ps, files), Flat(Groups(ps, files))) && Firsts(Groups(ps, files)) == ps
  {
    if ps != [] {
      assert ps[0] in ps;
      var rest := Groups(ps[1..], files);
      GroupsRead(ps[1..], files);
      SplitJoins(files[ps[0]]);
      var groups := Groups(ps, files);
      assert groups[0][1..] == SplitNul(files[ps[0]]) && groups[1..] == rest;
      assert Firsts(groups) == [ps[0]] + Firsts(rest) == ps;
    }
  }

  /** A reading without its first file. */
  lemma ReadingRest(groups: seq<seq<string>>)
    requires groups != [] && Reading(groups, Flat(groups)) && AllNulFree(Flat(groups))
    ensures Reading(groups[1..], Flat(groups[1..])) && AllNulFree(Flat(groups[1..])) && AllNulFree(groups[0])
  {
    var rest, first := groups[1..], groups[0];
    assert Flat(groups) == first + Flat(rest);
    assert forall p :: p in Flat(rest) ==> p in Flat(groups);
    assert forall p :: p in first ==> p in Flat(groups);
    assert forall i :: 0 <= i < |rest| ==> rest[i] == groups[i + 1];
  }

  lemma FirstsAscend(groups: seq<seq<string>>)
    requires groups != [] && Reading(groups, Flat(groups))
    ensures var ps := Firsts(groups);
            Ascending(ps) && ps[0] == groups[0][0] && ps[1..] == Firsts(groups[1..]) && ps[0] !in ps[1..]
  {
    LaterAreAbove(Firsts(groups));
  }

  lemma {:induction false} RebuiltFiles(groups: seq<seq<string>>)
    requires Reading(groups, Flat(groups)) && AllNulFree(Flat(groups))
    ensures var g := Rebuilt(groups);
            Lists(Firsts(groups), g) && Sized(g) && forall q :: q in g ==> NUL !in q
  {
    if groups != [] {
      ReadingRest(groups);
      RebuiltFiles(groups[1..]);
      FirstsAscend(groups);
      assert groups[0][0] in groups[0];
      assert Firsts(groups) == [groups[0][0]] + Firsts(groups[1..]);
    }
  }

  lemma {:induction false} FirstsAreRebuilt(groups: seq<seq<string>>)
    requires forall i :: 0 <= i < |groups| ==> |groups[i]| >= 2
    ensures forall p :: p in Firsts(groups) ==> p in Rebuilt(groups)
  {
    if groups != [] {
      FirstsAreRebuilt(groups[1..]);
    }
  }

  lemma {:induction false} RebuiltGroups(groups: seq<seq<string>>)
    requires Reading(groups, Flat(groups)) && AllNulFree(Flat(groups))
    ensures (forall p :: p in Firsts(groups) ==> p in Rebuilt(groups)) &&
            Groups(Firsts(groups), Rebuilt(groups)) == groups
  {
    FirstsAreRebuilt(groups);
    if groups != [] {
      ReadingRest(groups);
      RebuiltGroups(groups[1..]);
      FirstsAscend(groups);
      RebuiltFront(groups);
    }
  }

  lemma RebuiltFront(groups: seq<seq<string>>)
    requires groups != [] && forall i :: 0 <= i < |groups| ==> |groups[i]| >= 2
    requires AllNulFree(groups[0]) && groups[0][0] !in Firsts(groups[1..])
    requires forall p :: p in Firsts(groups) ==> p in Rebuilt(groups)
    requires forall p :: p in Firsts(groups[1..]) ==> p in Rebuilt(groups[1..])
    ensures Groups(Firsts(groups), Rebuilt(groups)) == [groups[0]] + Groups(Firsts(groups[1..]), Rebuilt(groups[1..]))
  {
    var first, later, g := groups[0], Firsts(groups[1..]), Rebuilt(groups);
    SameGroups(later, Rebuilt(groups[1..]), g);
    GroupsFront(first[0], later, g);
    Whole(first);
  }

  lemma GroupsFront(p: string, ps: seq<string>, files: map<string, string>)
    requires p in files && forall q :: q in ps ==> q in files
    ensures Groups([p] + ps, files) == [[p] + SplitNul(files[p])] + Groups(ps, files)
  {
    assert ([p] + ps)[1..] == ps;
  }

  lemma Whole(group: seq<string>)
    requires |group| >= 2 && AllNulFree(group)
    ensures [group[0]] + SplitNul(JoinNul(group[1..])) == group
  {
    assert forall p :: p in group[1..] ==> p in group;
    JoinSplits(group[1..]);
  }

  lemma {:induction false} SameGroups(ps: seq<string>, f: map<string, string>, g: map<string, string>)
    requires forall p :: p in ps ==> p in f && p in g && f[p] == g[p]
    ensures Groups(ps, f) == Groups(ps, g)
  {
    if ps != [] {
      assert ps[0] in ps;
      SameGroups(ps[1..], f, g);
    }
  }

  lemma NulAfter(head: string, rest: string)
    requires NUL !in head
    ensures IndexOf(head + [NUL] + rest, NUL) == |head|
  {
    var x := head + [NUL] + rest;
    assert x[|head|] == NUL;
    assert forall k :: 0 <= k < |head| ==> x[k] == head[k] && head[k] in head;
  }

  lemma SplitsFirst(head: string, rest: string)
    requires NUL !in head
    ensures SplitNul(head + [NUL] + rest) == [head] + SplitNul(rest)
  {
    NulAfter(head, rest);
    var x := head + [NUL] + rest;
    assert x[..|head|] == head && x[|head| + 1..] == rest;
  }

  lemma SplitsNowhere(x: string)
    requires NUL !in x
    ensures SplitNul(x) == [x]
  {
    var i := IndexOf(x, NUL);
  }

  lemma {:induction false} JoinSplits(parts: seq<string>)
    requires parts != [] && AllNulFree(parts)
    ensures SplitNul(JoinNul(parts)) == parts
  {
    assert parts[0] in parts && parts == [parts[0]] + parts[1..];
    if |parts| == 1 {
      SplitsNowhere(parts[0]);
    } else {
      assert forall p :: p in parts[1..] ==> p in parts;
      JoinSplits(parts[1..]);
      SplitsFirst(parts[0], JoinNul(parts[1..]));
    }
  }

  /** The pieces have this reading and no other that a tree can hold. */
  ghost predicate OneReading(pieces: seq<string>, own: seq<seq<string>>) {
    forall groups :: Reading(groups, pieces) && Holdable(Paths(groups)) ==> groups == own
  }

  function Paths(groups: seq<seq<string>>): set<string>
    requires forall i :: 0 <= i < |groups| ==> |groups[i]| >= 2
  {
    set p | p in Firsts(groups)
  }

  lemma PathsAreKeys(groups: seq<seq<string>>, files: map<string, string>)
    requires (forall i :: 0 <= i < |groups| ==> |groups[i]| >= 2) && Lists(Firsts(groups), files)
    ensures Paths(groups) == files.Keys
  {
  }

  /**
    Among accepted files a fingerprint pins its own exactly when their stream has no other reading: no
    other way to take its pieces as ascending paths that one tree can hold, each with a payload that fits.
  */
  lemma PinnedWithinExactly(files: map<string, string>, ps: seq<string>)
    requires Sized(files) && Lists(ps, files) && forall p :: p in files ==> NUL !in p
    ensures PinnedWithin(files) <==> OneReading(Flat(Groups(ps, files)), Groups(ps, files))
  {
    var own := Groups(ps, files);
    StreamOfGroups(ps, files);
    assert IsStream(files, Stream(ps, files));
    if PinnedWithin(files) {
      forall groups | Reading(groups, Flat(own)) && Holdable(Paths(groups)) ensures groups == own {
        OtherReading(files, ps, groups);
      }
    }
    if OneReading(Flat(own), own) {
      forall g: map<string, string>, s
        | (forall q :: q in g ==> NUL !in q) && Holdable(g.Keys) && Sized(g) && IsStream(files, s) && IsStream(g, s)
        ensures g == files
      {
        OnlyReading(files, ps, g, s);
      }
    }
  }

  lemma OtherReading(files: map<string, string>, ps: seq<string>, groups: seq<seq<string>>)
    requires PinnedWithin(files) && Lists(ps, files) && forall p :: p in files ==> NUL !in p
    requires Reading(groups, Flat(Groups(ps, files))) && Holdable(Paths(groups))
    ensures groups == Groups(ps, files)
  {
    var g, qs, s := Rebuilt(groups), Firsts(groups), Stream(ps, files);
    StreamOfGroups(ps, files);
    RebuiltStreams(groups, ps, files);
    assert IsStream(files, s) && IsStream(g, s);
    assert g == files;
    AscendingIsUnique(ps, qs);
  }

  /** What a reading of these files' pieces stands for has their stream. */
  lemma RebuiltStreams(groups: seq<seq<string>>, ps: seq<string>, files: map<string, string>)
    requires Lists(ps, files) && (forall p :: p in files ==> NUL !in p)
    requires Reading(groups, Flat(Groups(ps, files))) && Holdable(Paths(groups))
    ensures var g := Rebuilt(groups);
            && Lists(Firsts(groups), g) && Sized(g) && (forall q :: q in g ==> NUL !in q) && Holdable(g.Keys)
            && Groups(Firsts(groups), g) == groups && IsStream(g, Stream(ps, files))
  {
    StreamOfGroups(ps, files);
    RebuiltFiles(groups);
    PathsAreKeys(groups, Rebuilt(groups));
    RebuiltGroups(groups);
    SameStreamWhen(Firsts(groups), Rebuilt(groups), ps, files);
  }

  /** The stream is of the pieces, and the pieces can be read off it. */
  lemma SameStreamWhen(qs: seq<string>, g: map<string, string>, ps: seq<string>, f: map<string, string>)
    requires (forall q :: q in qs ==> q in g) && (forall q :: q in g ==> NUL !in q)
    requires (forall p :: p in ps ==> p in f) && (forall p :: p in f ==> NUL !in p)
    ensures Stream(qs, g) == Stream(ps, f) <==> Flat(Groups(qs, g)) == Flat(Groups(ps, f))
  {
    StreamOfGroups(qs, g);
    StreamOfGroups(ps, f);
    if Stream(qs, g) == Stream(ps, f) {
      EndedReadsBack(Flat(Groups(qs, g)), Flat(Groups(ps, f)));
    }
  }

  lemma OnlyReading(files: map<string, string>, ps: seq<string>, g: map<string, string>, s: string)
    requires Lists(ps, files) && (forall p :: p in files ==> NUL !in p) && (forall q :: q in g ==> NUL !in q)
    requires Holdable(g.Keys) && Sized(g) && IsStream(files, s) && IsStream(g, s)
    requires OneReading(Flat(Groups(ps, files)), Groups(ps, files))
    ensures g == files
  {
    var qs :| Lists(qs, g) && s == Stream(qs, g);
    assert IsStream(files, Stream(ps, files));
    StreamIsUnique(files, s, Stream(ps, files));
    SameStreamWhen(qs, g, ps, files);
    GroupsRead(qs, g);
    PathsAreKeys(Groups(qs, g), g);
    assert Groups(qs, g) == Groups(ps, files);
    SameFiles(ps, files, qs, g);
  }

  lemma SameFiles(ps: seq<string>, f: map<string, string>, qs: seq<string>, g: map<string, string>)
    requires Lists(ps, f) && Lists(qs, g) && Groups(ps, f) == Groups(qs, g)
    ensures f == g
  {
    SameGroupsSameFiles(ps, f, qs, g);
    assert f.Keys == g.Keys;
  }

  lemma {:induction false} SameGroupsSameFiles(ps: seq<string>, f: map<string, string>, qs: seq<string>,
                                               g: map<string, string>)
    requires (forall p :: p in ps ==> p in f) && (forall q :: q in qs ==> q in g) && Groups(ps, f) == Groups(qs, g)
    ensures ps == qs && forall p :: p in ps ==> f[p] == g[p]
  {
    if ps != [] && qs != [] {
      var a, b := Groups(ps, f), Groups(qs, g);
      assert a[0] == [ps[0]] + SplitNul(f[ps[0]]) && b[0] == [qs[0]] + SplitNul(g[qs[0]]);
      assert a[0][0] == ps[0] && b[0][0] == qs[0] && a[0][1..] == SplitNul(f[ps[0]]) && b[0][1..] == SplitNul(g[qs[0]]);
      SplitJoins(f[ps[0]]);
      SplitJoins(g[qs[0]]);
      assert a[1..] == Groups(ps[1..], f) && b[1..] == Groups(qs[1..], g);
      SameGroupsSameFiles(ps[1..], f, qs[1..], g);
      assert ps == [ps[0]] + ps[1..] && qs == [qs[0]] + qs[1..];
    }
  }
}
