/**
  Redaction of captured output: each sensitive value in turn is replaced, leftmost and without
  overlap, by a marker. Text is Go's: a sequence of bytes, written here as characters.
*/
module Redaction {
  const WORD := "redacted"
  const MARK := "<" + WORD + ">"

  /** `v` occurs in `t` at offset `i`. */
  predicate At(t: string, v: string, i: int) {
    0 <= i <= |t| - |v| && t[i..i + |v|] == v
  }

  ghost predicate Contains(t: string, v: string) {
    exists i :: At(t, v, i)
  }

  /** An occurrence after a prefix, and in what follows the prefix. */
  lemma Shifted(p: string, t: string, v: string, i: int)
    requires i >= 0
    ensures At(p + t, v, |p| + i) <==> At(t, v, i)
  {
    if i + |v| <= |t| {
      assert (p + t)[|p| + i..|p| + i + |v|] == t[i..i + |v|];
    }
  }

  lemma AtFront(t: string, v: string)
    ensures At(t, v, 0) <==> v <= t
  {
  }

  /** An occurrence that is not at the front is one in the rest. */
  lemma AtTail(t: string, v: string, i: int)
    requires At(t, v, i) && i > 0
    ensures t != "" && At(t[1..], v, i - 1)
  {
    assert v == "" || t != "";
    assert t == [t[0]] + t[1..];
    Shifted([t[0]], t[1..], v, i - 1);
  }

  lemma LaterContains(t: string, k: nat, v: string)
    requires k <= |t| && Contains(t[k..], v)
    ensures Contains(t, v)
  {
    var i :| At(t[k..], v, i);
    assert t == t[..k] + t[k..];
    Shifted(t[..k], t[k..], v, i);
  }

  predicate BracketFree(v: string) { '<' !in v && '>' !in v }

  /** `strings.ReplaceAll` with the marker, for a value that is not empty. */
  function ReplaceAll(t: string, v: string): string
    requires v != ""
    decreases |t|
  {
    if |t| < |v| then t
    else if v <= t then MARK + ReplaceAll(t[|v|..], v)
    else [t[0]] + ReplaceAll(t[1..], v)
  }

  function Step(t: string, v: string): string {
    if v == "" then t else ReplaceAll(t, v)
  }

  function Redacted(t: string, vs: seq<string>): string
    decreases |vs|
  {
    if vs == [] then t else Redacted(Step(t, vs[0]), vs[1..])
  }

  lemma {:induction false} RedactedLast(t: string, vs: seq<string>, v: string)
    ensures Redacted(t, vs + [v]) == Step(Redacted(t, vs), v)
    decreases |vs|
  {
    if vs == [] {
      assert Redacted(Step(t, v), []) == Step(t, v);
    } else {
      assert (vs + [v])[1..] == vs[1..] + [v];
      RedactedLast(Step(t, vs[0]), vs[1..], v);
    }
  }

  /** `redact`, with its loop over the values. */
  method Redact(text: string, sensitiveValues: seq<string>) returns (redacted: string)
    ensures redacted == Redacted(text, sensitiveValues)
  {
    redacted := text;
    for i := 0 to |sensitiveValues|
      invariant redacted == Redacted(text, sensitiveValues[..i])
    {
      RedactedLast(text, sensitiveValues[..i], sensitiveValues[i]);
      assert sensitiveValues[..i + 1] == sensitiveValues[..i] + [sensitiveValues[i]];
      if sensitiveValues[i] != "" {
        redacted := ReplaceAll(redacted, sensitiveValues[i]);
      }
    }
    assert sensitiveValues[..|sensitiveValues|] == sensitiveValues;
  }

  // ------------------------------------------------- what is replaced, said without the algorithm

  /** The pieces of a text with `v` between them. */
  function Between(pieces: seq<string>, v: string): string
    requires pieces != []
  {
    if |pieces| == 1 then pieces[0] else pieces[0] + v + Between(pieces[1..], v)
  }

  /** After the piece comes `v`, and none starts earlier, even one that runs on into it. */
  predicate FirstAfter(piece: string, v: string) {
    forall j :: 0 <= j < |piece| ==> !At(piece + v, v, j)
  }

  /**
    The pieces leave out as many occurrences of `v` as there are, each the leftmost after the one
    before.
  */
  ghost predicate Leftmost(pieces: seq<string>, v: string) {
    && pieces != [] && !Contains(pieces[|pieces| - 1], v)
    && forall i :: 0 <= i < |pieces| - 1 ==> FirstAfter(pieces[i], v)
  }

  lemma TailFirst(p: string, v: string)
    requires p != "" && FirstAfter(p, v)
    ensures FirstAfter(p[1..], v)
  {
    assert p + v == [p[0]] + (p[1..] + v);
    forall j | 0 <= j < |p| - 1 ensures !At(p[1..] + v, v, j) {
      Shifted([p[0]], p[1..] + v, v, j);
      assert !At(p + v, v, j + 1);
    }
  }

  lemma ReplacesFirst(v: string, rest: string)
    requires v != ""
    ensures ReplaceAll(v + rest, v) == MARK + ReplaceAll(rest, v)
  {
    assert (v + rest)[|v|..] == rest && v <= v + rest;
  }

  lemma StepsOver(t: string, v: string)
    requires v != "" && |t| >= |v| && !(v <= t)
    ensures ReplaceAll(t, v) == [t[0]] + ReplaceAll(t[1..], v)
  {
  }

  lemma {:induction false} SkipsAPiece(p: string, v: string, rest: string)
    requires v != "" && FirstAfter(p, v)
    ensures ReplaceAll(p + v + rest, v) == p + MARK + ReplaceAll(rest, v)
    decreases |p|
  {
    if p == "" {
      assert p + v + rest == v + rest && p + MARK + ReplaceAll(rest, v) == MARK + ReplaceAll(rest, v);
      ReplacesFirst(v, rest);
    } else {
      TailFirst(p, v);
      SkipsAPiece(p[1..], v, rest);
      NotThere(p, v, rest);
      StepsOver(p + v + rest, v);
      HeadBack(p, v, rest);
      HeadBack(p, MARK, ReplaceAll(rest, v));
      assert (p + v + rest)[1..] == p[1..] + v + rest;
    }
  }

  lemma HeadBack(p: string, m: string, rest: string)
    requires p != ""
    ensures p + m + rest == [p[0]] + (p[1..] + m + rest)
  {
    assert p == [p[0]] + p[1..];
  }

  lemma NotThere(p: string, v: string, rest: string)
    requires p != "" && FirstAfter(p, v)
    ensures !(v <= p + v + rest)
  {
    assert !At(p + v, v, 0);
    assert (p + v + rest)[..|v|] == (p + v)[..|v|];
  }

  /** The text stands as it is when the value is not in it. */
  lemma {:induction false} Unchanged(t: string, v: string)
    requires v != "" && !Contains(t, v)
    ensures ReplaceAll(t, v) == t
    decreases |t|
  {
    if |t| >= |v| {
      assert !At(t, v, 0);
      forall i ensures !At(t[1..], v, i) {
        assert !At(t, v, i + 1);
      }
      Unchanged(t[1..], v);
      assert [t[0]] + t[1..] == t;
    }
  }

  /** Every text is cut in pieces in one way, and replacing puts the marker between those. */
  lemma {:induction false} ReplacesLeftmost(pieces: seq<string>, v: string)
    requires v != "" && Leftmost(pieces, v)
    ensures ReplaceAll(Between(pieces, v), v) == Between(pieces, MARK)
  {
    if |pieces| == 1 {
      Unchanged(pieces[0], v);
    } else {
      var rest := pieces[1..];
      forall i | 0 <= i < |rest| - 1 ensures FirstAfter(rest[i], v) {
        assert FirstAfter(pieces[i + 1], v);
      }
      ReplacesLeftmost(rest, v);
      SkipsAPiece(pieces[0], v, Between(rest, v));
    }
  }

  /** Such pieces exist for every text. */
  lemma {:induction false} CutLeftmost(t: string, v: string) returns (pieces: seq<string>)
    requires v != ""
    ensures Leftmost(pieces, v) && Between(pieces, v) == t
    decreases |t|
  {
    if |t| < |v| {
      pieces := [t];
    } else if v <= t {
      var rest := CutLeftmost(t[|v|..], v);
      pieces := [""] + rest;
      assert pieces[1..] == rest;
    } else {
      var rest := CutLeftmost(t[1..], v);
      pieces := [[t[0]] + rest[0]] + rest[1..];
      assert t == [t[0]] + t[1..];
      if |rest| == 1 {
        assert pieces == [t];
        forall i ensures !At(t, v, i) {
          assert !At(t[1..], v, i - 1);
        }
      } else {
        assert pieces[1..] == rest[1..];
        OneMore(t[0], rest[0], v);
        assert !At(pieces[0] + v, v, 0) by {
          assert (pieces[0] + v)[..|v|] == t[..|v|];
        }
        forall i | 0 <= i < |pieces| - 1 ensures FirstAfter(pieces[i], v) {
          assert i > 0 ==> pieces[i] == rest[i];
        }
      }
    }
  }

  lemma OneMore(c: char, p: string, v: string)
    requires FirstAfter(p, v)
    ensures !At([c] + p + v, v, 0) ==> FirstAfter([c] + p, v)
  {
    assert [c] + p + v == [c] + (p + v);
    forall j | 1 <= j <= |p| ensures !At([c] + p + v, v, j) {
      Shifted([c], p + v, v, j - 1);
      assert !At(p + v, v, j - 1);
    }
  }

  // ------------------------------------------------------------- nothing sensitive is left

  /** `w` and the marker agree where they meet, when `w` is laid `k` places after its start. */
  predicate Agree(w: string, k: int) {
    forall j :: 0 <= j < |w| && 0 <= k + j < |MARK| ==> w[j] == MARK[k + j]
  }

  /** `w` can be laid over the marker, covering a part of it or sticking out at either end. */
  predicate Overlaps(w: string) {
    exists k :: -|w| < k < |MARK| && Agree(w, k)
  }

  /** The end of such a value, at the start of the result, was at the start of the text, unreplaced. */
  lemma {:induction false} PrefixKept(t: string, v: string, w: string, j: nat)
    requires v != "" && !Overlaps(w) && j < |w| && w[j..] <= ReplaceAll(t, v)
    ensures w[j..] <= t && (|t| < |v| || !(v <= t))
    decreases |t|
  {
    var r := ReplaceAll(t, v);
    assert !Agree(w, 0 - j);
    assert forall m :: j <= m < |w| ==> w[m] == w[j..][m - j] == r[m - j];
    if |t| >= |v| && !(v <= t) && j + 1 < |w| {
      assert w[j..][1..] == w[j + 1..] && r[1..] == ReplaceAll(t[1..], v);
      PrefixKept(t[1..], v, w, j + 1);
      assert t == [t[0]] + t[1..] && w[j..] == [w[j]] + w[j + 1..];
    }
  }

  lemma InTheMark(w: string, i: nat, r: string)
    requires w != "" && i < |MARK| && At(MARK + r, w, i)
    ensures Overlaps(w)
  {
    assert forall j :: 0 <= j < |w| ==> w[j] == (MARK + r)[i + j];
    assert Agree(w, i);
  }

  /** Replacing one value brings no other into the text that does not overlap the marker. */
  lemma {:induction false} NothingNew(t: string, v: string, w: string)
    requires v != "" && w != "" && !Overlaps(w)
    requires Contains(ReplaceAll(t, v), w)
    ensures w != v && Contains(t, w)
    decreases |t|
  {
    var r := ReplaceAll(t, v);
    var i :| At(r, w, i);
    if |t| >= |v| && v <= t {
      var rest := ReplaceAll(t[|v|..], v);
      if i < |MARK| {
        InTheMark(w, i, rest);
      } else {
        Shifted(MARK, rest, w, i - |MARK|);
        assert At(rest, w, i - |MARK|);
        NothingNew(t[|v|..], v, w);
        LaterContains(t, |v|, w);
      }
    } else if i == 0 {
      PrefixKept(t, v, w, 0);
      assert At(t, w, 0);
    } else if |t| >= |v| {
      var rest := ReplaceAll(t[1..], v);
      Shifted([t[0]], rest, w, i - 1);
      assert At(rest, w, i - 1);
      NothingNew(t[1..], v, w);
      LaterContains(t, 1, w);
    }
  }

  lemma {:induction false} StaysOut(t: string, vs: seq<string>, w: string)
    requires w != "" && !Overlaps(w) && !Contains(t, w)
    ensures !Contains(Redacted(t, vs), w)
    decreases |vs|
  {
    if vs != [] {
      if Contains(Step(t, vs[0]), w) {
        NothingNew(t, vs[0], w);
      }
      StaysOut(Step(t, vs[0]), vs[1..], w);
    }
  }

  /**
    A value that does not overlap the marker is gone from the redacted text, whatever the other
    values, their order and how they overlap each other.
  */
  lemma {:induction false} NothingSensitiveIsLeft(t: string, vs: seq<string>, w: string)
    requires w in vs && w != "" && !Overlaps(w)
    ensures !Contains(Redacted(t, vs), w)
    decreases |vs|
  {
    if vs[0] == w {
      if Contains(Step(t, w), w) {
        NothingNew(t, w, w);
      }
      StaysOut(Step(t, w), vs[1..], w);
    } else {
      NothingSensitiveIsLeft(Step(t, vs[0]), vs[1..], w);
    }
  }

  /** A text holds none of the values. */
  ghost predicate Clean(t: string, vs: seq<string>) {
    forall v :: v in vs && v != "" ==> !Contains(t, v)
  }

  /** Text without sensitive values is returned as it is. */
  lemma {:induction false} CleanTextStands(t: string, vs: seq<string>)
    requires Clean(t, vs)
    ensures Redacted(t, vs) == t
  {
    if vs != [] {
      if vs[0] != "" {
        Unchanged(t, vs[0]);
      }
      CleanTextStands(t, vs[1..]);
    }
  }

  /** Redacting again changes nothing. */
  lemma RedactingTwice(t: string, vs: seq<string>)
    requires forall v :: v in vs && v != "" ==> !Overlaps(v)
    ensures Clean(Redacted(t, vs), vs)
    ensures Redacted(Redacted(t, vs), vs) == Redacted(t, vs)
  {
    forall v | v in vs && v != "" ensures !Contains(Redacted(t, vs), v) {
      NothingSensitiveIsLeft(t, vs, v);
    }
    CleanTextStands(Redacted(t, vs), vs);
  }

  // ------------------------------------------------------------------- exactly when it works

  /** A text around which the marker makes `w` appear, when `w` overlaps it. */
  function Before(w: string, k: int): string
    requires -|w| < k
  {
    if k < 0 then w[..0 - k] else ""
  }

  function After(w: string, k: int): string
    requires k < |MARK|
  {
    if |MARK| - k < |w| then w[|MARK| - k..] else ""
  }

  lemma Appears(w: string, k: int)
    requires w != "" && -|w| < k < |MARK| && Agree(w, k)
    ensures Contains(Before(w, k) + MARK + After(w, k), w)
  {
    var r := Before(w, k) + MARK + After(w, k);
    var i := if k < 0 then 0 else k;
    assert |r| >= i + |w|;
    forall j | 0 <= j < |w| ensures r[i + j] == w[j] {
      if k + j < 0 {
        assert r[i + j] == Before(w, k)[j];
      } else if k + j < |MARK| {
        assert r[i + j] == MARK[k + j];
      } else {
        assert r[i + j] == After(w, k)[k + j - |MARK|];
      }
    }
    assert r[i..i + |w|] == w;
    assert At(r, w, i);
  }

  function Repeat(c: char, n: nat): (s: string)
    ensures |s| == n && forall i :: 0 <= i < n ==> s[i] == c
  {
    seq(n, i => c)
  }

  /** Two characters that neither begin nor end `w`. */
  lemma Strangers(w: string) returns (c: char, d: char)
    requires w != ""
    ensures c != d && c != w[0] && d != w[0] && c != w[|w| - 1] && d != w[|w| - 1]
  {
    var x, y := w[0], w[|w| - 1];
    c := if 'a' !in [x, y] then 'a' else if 'b' !in [x, y] then 'b' else 'c';
    d := if 'd' !in [x, y] then 'd' else if 'e' !in [x, y] then 'e' else 'f';
  }

  /** A stretch longer than `w`, of characters that neither begin nor end it, keeps it out. */
  lemma KeptApart(a: string, u: string, b: string, w: string)
    requires |a| < |w| && |b| < |w| < |u|
    requires forall j :: 0 <= j < |u| ==> u[j] != w[0] && u[j] != w[|w| - 1]
    ensures !Contains(a + u + b, w)
  {
    var t := a + u + b;
    forall i ensures !At(t, w, i) {
      if 0 <= i <= |t| - |w| {
        assert t[i..i + |w|][0] == t[i] && t[i..i + |w|][|w| - 1] == t[i + |w| - 1];
        if i < |a| {
          assert t[i + |w| - 1] == u[i + |w| - 1 - |a|];
        } else {
          assert t[i] == u[i - |a|];
        }
      }
    }
  }

  lemma StartsOnce(a: string, c: char, d: char, n: nat)
    requires c != d && |a| < n
    ensures FirstAfter(a, [c] + Repeat(d, n))
  {
    var u := [c] + Repeat(d, n);
    forall i | 0 <= i < |a| ensures !At(a + u, u, i) {
      assert (a + u)[|a|] == c && u[|a| - i] == d;
      assert i + |u| <= |a + u| ==> (a + u)[i..i + |u|][|a| - i] == (a + u)[|a|];
    }
  }

  /** A value that overlaps the marker survives when a later value has just the right place. */
  lemma OverlapSurvives(w: string) returns (t: string, vs: seq<string>)
    requires w != "" && Overlaps(w)
    ensures w in vs && Contains(Redacted(t, vs), w)
  {
    var k :| -|w| < k < |MARK| && Agree(w, k);
    var a, b := Before(w, k), After(w, k);
    var c, d := Strangers(w);
    var u := [c] + Repeat(d, |w|);
    t, vs := a + u + b, [w, u];
    KeptApart(a, u, b, w);
    Unchanged(t, w);
    StartsOnce(a, c, d, |w|);
    SkipsAPiece(a, u, b);
    Unchanged(b, u);
    Appears(w, k);
    assert vs == [w] + [u];
    RedactedLast(t, [w], u);
    RedactedLast(t, [], w);
    assert [] + [w] == [w];
  }

  ghost predicate AlwaysGone(w: string) {
    forall t, vs :: w in vs ==> !Contains(Redacted(t, vs), w)
  }

  /**
    A value is gone from every text, whatever it is redacted with, if and only if it cannot be laid
    over the marker.
  */
  lemma AlwaysGoneExactly(w: string)
    requires w != ""
    ensures !Overlaps(w) <==> AlwaysGone(w)
  {
    if Overlaps(w) {
      var t, vs := OverlapSurvives(w);
      assert w in vs && Contains(Redacted(t, vs), w);
    } else {
      forall t, vs | w in vs ensures !Contains(Redacted(t, vs), w) {
        NothingSensitiveIsLeft(t, vs, w);
      }
    }
  }

  // ------------------------------------------------------------- a value redacted alone

  /** Laid over the marker, `w` has before it a stretch after which `w` is first found where that ends. */
  predicate SelfOverlaps(w: string) {
    exists k :: -|w| < k < |MARK| && Agree(w, k) && FirstAfter(Before(w, k), w)
  }

  /** Where `w` is first found in a text. */
  lemma FirstFound(t: string, w: string) returns (p: string, rest: string)
    requires w != "" && Contains(t, w)
    ensures t == p + w + rest && FirstAfter(p, w)
  {
    var pieces := CutLeftmost(t, w);
    p := pieces[0];
    if |pieces| > 1 {
      rest := Between(pieces[1..], w);
    } else {
      assert false;
    }
  }

  /** At the start of what its own redaction makes of a text, `w` was there before or overlaps the marker so. */
  lemma StartsAfresh(t: string, w: string)
    requires w != "" && w <= ReplaceAll(t, w)
    ensures SelfOverlaps(w)
  {
    AtFront(t, w);
    if !Contains(t, w) {
      Unchanged(t, w);
    } else {
      var p, rest := FirstFound(t, w);
      SkipsAPiece(p, w, rest);
      var tail := ReplaceAll(rest, w);
      Associates(p, MARK, tail);
      ShortPiece(p, w, MARK + tail);
      LaidOver(p, w, tail);
    }
  }

  lemma Associates(a: string, b: string, c: string)
    ensures a + b + c == a + (b + c)
  {
  }

  lemma ShortPiece(p: string, w: string, rest: string)
    requires w != "" && FirstAfter(p, w) && w <= p + rest
    ensures |p| < |w|
  {
    if |w| <= |p| {
      assert w == p[..|w|];
      AtFront(p + w, w);
    }
  }

  lemma LaidOver(p: string, w: string, rest: string)
    requires |p| < |w| && w <= p + (MARK + rest)
    ensures Agree(w, 0 - |p|) && Before(w, 0 - |p|) == p
  {
    var r := p + (MARK + rest);
    assert forall j :: 0 <= j < |w| ==> w[j] == r[j];
    assert forall j :: |p| <= j < |p| + |MARK| ==> r[j] == MARK[j - |p|];
  }

  lemma {:induction false} SelfGone(t: string, w: string)
    requires w != "" && Contains(ReplaceAll(t, w), w)
    ensures SelfOverlaps(w)
    decreases |t|
  {
    var r := ReplaceAll(t, w);
    var i :| At(r, w, i);
    if i == 0 {
      AtFront(r, w);
      StartsAfresh(t, w);
    } else if w <= t {
      var rest := ReplaceAll(t[|w|..], w);
      if i < |MARK| {
        assert forall j :: 0 <= j < |w| ==> w[j] == r[i + j];
        assert Agree(w, i) && Before(w, i) == "";
      } else {
        Shifted(MARK, rest, w, i - |MARK|);
        assert At(rest, w, i - |MARK|);
        SelfGone(t[|w|..], w);
      }
    } else {
      AtTail(r, w, i);
      SelfGone(t[1..], w);
    }
  }

  lemma SelfSurvives(w: string) returns (t: string)
    requires w != "" && SelfOverlaps(w)
    ensures Contains(ReplaceAll(t, w), w)
  {
    var k :| -|w| < k < |MARK| && Agree(w, k) && FirstAfter(Before(w, k), w);
    t := Before(w, k) + w + After(w, k);
    SkipsAPiece(Before(w, k), w, After(w, k));
    assert |After(w, k)| < |w|;
    Appears(w, k);
  }

  lemma Alone(t: string, w: string)
    requires w != ""
    ensures Redacted(t, [w]) == ReplaceAll(t, w)
  {
    RedactedLast(t, [], w);
    assert [] + [w] == [w];
  }

  ghost predicate GoneAlone(w: string) {
    forall t :: !Contains(Redacted(t, [w]), w)
  }

  /** Redacted with nothing else, as a secret is that holds no URL's password, a value is always gone exactly then. */
  lemma GoneAloneExactly(w: string)
    requires w != ""
    ensures !SelfOverlaps(w) <==> GoneAlone(w)
  {
    if SelfOverlaps(w) {
      var t := SelfSurvives(w);
      Alone(t, w);
      assert Contains(Redacted(t, [w]), w);
    } else {
      forall t ensures !Contains(Redacted(t, [w]), w) {
        Alone(t, w);
        if Contains(ReplaceAll(t, w), w) {
          SelfGone(t, w);
        }
      }
    }
  }

  lemma OneWay(k: int)
    requires -4 < k < |MARK| && k != -2
    ensures !Agree("<r<r", k)
  {
    var w := "<r<r";
    var j := if k == -3 then 3 else if k == -1 then 1 else if k == 0 then 2 else 0;
    assert w[j] != MARK[k + j];
  }

  /** This value is always gone alone, but not beside every other. */
  lemma GoneAloneOnly()
    ensures GoneAlone("<r<r") && !AlwaysGone("<r<r")
  {
    var w := "<r<r";
    assert Agree(w, -2) && -|w| < -2 < |MARK|;
    forall k | -|w| < k < |MARK| && Agree(w, k) ensures !FirstAfter(Before(w, k), w) {
      if k != -2 {
        OneWay(k);
      } else {
        assert (Before(w, k) + w)[..4] == w;
        assert At(Before(w, k) + w, w, 0);
      }
    }
    GoneAloneExactly(w);
    AlwaysGoneExactly(w);
  }

  lemma AgreeAt(w: string, k: int, p: nat)
    requires Agree(w, k) && p < |MARK|
    ensures 0 <= p - k < |w| ==> MARK[p] in w
  {
    if 0 <= p - k < |w| {
      assert w[p - k] == MARK[k + (p - k)];
    }
  }

  /** Free of brackets, a value overlaps the marker only inside its word. */
  lemma OverlapsInTheWord(w: string)
    requires w != "" && BracketFree(w)
    ensures Overlaps(w) <==> Contains(WORD, w)
  {
    if Overlaps(w) {
      var k :| -|w| < k < |MARK| && Agree(w, k);
      AgreeAt(w, k, 0);
      AgreeAt(w, k, 9);
      assert 1 <= k && k + |w| <= 9;
      assert WORD[k - 1..k - 1 + |w|] == w;
      assert At(WORD, w, k - 1);
    }
    if Contains(WORD, w) {
      var i :| At(WORD, w, i);
      assert forall j :: 0 <= j < |w| ==> w[j] == WORD[i..i + |w|][j] == MARK[i + 1 + j];
      assert Agree(w, i + 1);
    }
  }

  /** Every value is free of brackets. */
  predicate Plain(vs: seq<string>) { forall v :: v in vs ==> BracketFree(v) }

  /** No value is part of the marker's word. */
  ghost predicate Tellable(vs: seq<string>) { forall v :: v in vs && v != "" ==> !Contains(WORD, v) }

  /** A text that starts with an end of the marker still does, or has a whole marker. */
  lemma {:induction false} EndOfTheMark(t: string, v: string, k: nat)
    requires v != "" && BracketFree(v) && k <= |MARK| && MARK[k..] <= t
    ensures MARK[k..] <= ReplaceAll(t, v) || Contains(ReplaceAll(t, v), MARK)
    decreases |t|
  {
    var r := ReplaceAll(t, v);
    AtFront(r, MARK);
    if |t| >= |v| && !(v <= t) && k < |MARK| {
      assert t[1..][..|MARK| - k - 1] == MARK[k + 1..];
      EndOfTheMark(t[1..], v, k + 1);
      var rest := ReplaceAll(t[1..], v);
      if Contains(rest, MARK) {
        LaterContains(r, 1, MARK);
      } else {
        assert MARK[k..] == [t[0]] + MARK[k + 1..];
      }
    }
  }

  /** Once there is a marker, there always is one. */
  lemma {:induction false} MarksLast(t: string, v: string)
    requires v != "" && BracketFree(v) && Contains(t, MARK)
    ensures Contains(ReplaceAll(t, v), MARK)
    decreases |t|
  {
    var i :| At(t, MARK, i);
    var r := ReplaceAll(t, v);
    AtFront(r, MARK);
    if |t| >= |v| && !(v <= t) {
      if i == 0 {
        AtFront(t, MARK);
        assert MARK[0..] == MARK;
        EndOfTheMark(t, v, 0);
      } else {
        AtTail(t, MARK, i);
        MarksLast(t[1..], v);
        LaterContains(r, 1, MARK);
      }
    }
  }

  lemma {:induction false} MarksStay(t: string, vs: seq<string>)
    requires Plain(vs) && Contains(t, MARK)
    ensures Contains(Redacted(t, vs), MARK)
    decreases |vs|
  {
    if vs != [] {
      if vs[0] != "" {
        MarksLast(t, vs[0]);
      }
      MarksStay(Step(t, vs[0]), vs[1..]);
    }
  }

  /** Replacing leaves the text as it was, or puts a marker in it. */
  lemma {:induction false} SameOrMarked(t: string, v: string)
    requires v != ""
    ensures if Contains(t, v) then Contains(ReplaceAll(t, v), MARK) else ReplaceAll(t, v) == t
    decreases |t|
  {
    if !Contains(t, v) {
      Unchanged(t, v);
    } else {
      var i :| At(t, v, i);
      var r := ReplaceAll(t, v);
      AtFront(t, v);
      AtFront(r, MARK);
      if i > 0 && !(v <= t) {
        AtTail(t, v, i);
        SameOrMarked(t[1..], v);
        LaterContains(r, 1, MARK);
      }
    }
  }

  lemma Nested(t: string, u: string, v: string)
    requires Contains(t, u) && Contains(u, v)
    ensures Contains(t, v)
  {
    var i, j :| At(t, u, i) && At(u, v, j);
    assert u == t[i..i + |u|];
    forall k | 0 <= k < |v| ensures t[i + j + k] == v[k] {
      assert v[k] == u[j + k];
    }
    assert t[i + j..i + j + |v|] == v;
    assert At(t, v, i + j);
  }

  lemma {:induction false} ItselfIsMarked(w: string, vs: seq<string>)
    requires Plain(vs) && w in vs && w != ""
    ensures Contains(Redacted(w, vs), MARK)
  {
    assert At(w, w, 0);
    if vs[0] != "" {
      SameOrMarked(w, vs[0]);
    }
    if Contains(Step(w, vs[0]), MARK) {
      MarksStay(Step(w, vs[0]), vs[1..]);
    } else {
      ItselfIsMarked(w, vs[1..]);
    }
  }

  /**
    For a list of values free of brackets: redaction with it cleans every text if and only if no
    value is part of the word the marker spells.
  */
  lemma CleansExactlyWhenTellable(vs: seq<string>)
    requires Plain(vs)
    ensures Tellable(vs) <==> forall t :: Clean(Redacted(t, vs), vs)
  {
    if Tellable(vs) {
      forall v | v in vs && v != "" ensures !Overlaps(v) {
        OverlapsInTheWord(v);
      }
      forall t ensures Clean(Redacted(t, vs), vs) {
        RedactingTwice(t, vs);
      }
    } else {
      var v :| v in vs && v != "" && Contains(WORD, v);
      ItselfIsMarked(v, vs);
      var r := Redacted(v, vs);
      assert MARK[1..9] == WORD;
      assert At(MARK, WORD, 1);
      Nested(r, MARK, WORD);
      Nested(r, WORD, v);
      assert !Clean(Redacted(v, vs), vs);
    }
  }

}
