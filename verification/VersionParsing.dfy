/** Parsing reads back every version as it is written, and accepts nothing with invalid parts. */
module VersionParsing {
  import opened Common
  import opened Versions
  import Order = VersionOrder

  function Decimal(n: nat): (s: string)
    ensures s != ""
  {
    var digit := ['0' + (n % 10) as char];
    if n < 10 then digit else Decimal(n / 10) + digit
  }

  lemma {:induction false} DigitsOfDecimal(n: nat)
    ensures AllDigits(Decimal(n)) && Digits(Decimal(n)) == n
    ensures |Decimal(n)| > 1 ==> Decimal(n)[0] != '0'
    ensures n > 0 ==> Decimal(n)[0] != '0'
  {
    var s := Decimal(n);
    if n < 10 {
      assert s[..0] == "" && Digits(s[..0]) == 0;
      assert Digits(s) == n;
    } else {
      DigitsOfDecimal(n / 10);
      assert s[..|s| - 1] == Decimal(n / 10);
      assert s[0] == Decimal(n / 10)[0];
    }
  }

  lemma CoreNumberReads(n: nat)
    requires n < INT_LIMIT
    ensures CoreNumber(Decimal(n)) == Some(n)
  {
    DigitsOfDecimal(n);
    assert IsDigit(Decimal(n)[0]);
  }

  function CoreText(v: Version): string
    requires v.major >= 0 && v.minor >= 0 && v.patch >= 0
  {
    Join([Decimal(v.major), Decimal(v.minor), Decimal(v.patch)])
  }

  /** The version as it is written: perhaps with a "v", and perhaps with build metadata. */
  function Written(v: Version, prefix: bool, build: Option<string>): string
    requires v.major >= 0 && v.minor >= 0 && v.patch >= 0
  {
    (if prefix then "v" else "") + (Release(v) + (if build.Some? then "+" + build.value else ""))
  }

  predicate Proper(v: Version) {
    && 0 <= v.major < INT_LIMIT && 0 <= v.minor < INT_LIMIT && 0 <= v.patch < INT_LIMIT
    && ValidPrerelease(v.prerelease)
  }

  lemma IndexAt(s: string, c: char, i: nat)
    requires i <= |s| && (i < |s| ==> s[i] == c) && forall k :: 0 <= k < i ==> s[k] != c
    ensures IndexOf(s, c) == i
  {
  }

  lemma SpaceFree(s: string)
    requires forall i :: 0 <= i < |s| ==> !IsSpace(s[i])
    ensures TrimRight(TrimLeft(s)) == s
  {
  }

  /** The core is digits and dots, and splits into its three numbers. */
  lemma CoreSplits(v: Version)
    requires Proper(v)
    ensures Split(CoreText(v)) == [Decimal(v.major), Decimal(v.minor), Decimal(v.patch)]
    ensures forall k :: 0 <= k < |CoreText(v)| ==> IsDigit(CoreText(v)[k]) || CoreText(v)[k] == '.'
    ensures CoreText(v) != "" && IsDigit(CoreText(v)[0])
  {
    DigitsOfDecimal(v.major);
    DigitsOfDecimal(v.minor);
    DigitsOfDecimal(v.patch);
    DottedDigits(Decimal(v.major), Decimal(v.minor), Decimal(v.patch));
    SplitJoin([Decimal(v.major), Decimal(v.minor), Decimal(v.patch)]);
  }

  lemma DottedDigits(a: string, b: string, c: string)
    requires AllDigits(a) && AllDigits(b) && AllDigits(c) && a != ""
    ensures var s := Join([a, b, c]);
            s != "" && IsDigit(s[0]) && forall k :: 0 <= k < |s| ==> IsDigit(s[k]) || s[k] == '.'
  {
    assert [a, b, c][1..] == [b, c] && [b, c][1..] == [c];
    assert Join([c]) == c;
    var rest := b + "." + c;
    assert forall k :: 0 <= k < |rest| ==> IsDigit(rest[k]) || rest[k] == '.';
    assert Join([a, b, c]) == a + "." + rest;
  }

  /** Identifiers hold no plus sign and no space. */
  lemma {:induction false} PrereleaseChars(p: string)
    requires ValidPrerelease(p)
    ensures forall k :: 0 <= k < |p| ==> IdentifierChar(p[k]) || p[k] == '.'
  {
    if p != "" {
      PartsChars(Split(p));
      JoinSplit(p);
    }
  }

  lemma {:induction false} PartsChars(parts: seq<string>)
    requires parts != [] && forall id :: id in parts ==> ValidIdentifier(id)
    ensures forall k :: 0 <= k < |Join(parts)| ==> IdentifierChar(Join(parts)[k]) || Join(parts)[k] == '.'
  {
    assert ValidIdentifier(parts[0]);
    if |parts| > 1 {
      PartsChars(parts[1..]);
      var head, rest := parts[0], Join(parts[1..]);
      assert Join(parts) == head + "." + rest;
    }
  }

  lemma ReleaseReads(v: Version)
    requires Proper(v)
    ensures var r := Release(v);
            && IndexOf(r, '-') == |CoreText(v)| && r[..|CoreText(v)|] == CoreText(v)
            && (v.prerelease != "" ==> |CoreText(v)| < |r| && r[|CoreText(v)| + 1..] == v.prerelease)
            && (v.prerelease == "" ==> |CoreText(v)| == |r|)
  {
    var core := CoreText(v);
    var r := Release(v);
    CoreSplits(v);
    assert forall k :: 0 <= k < |core| ==> r[k] == core[k];
    IndexAt(r, '-', |core|);
  }

  /** Whatever is written is read back, with the build metadata left out. */
  lemma ReadsBack(v: Version, prefix: bool, build: Option<string>)
    requires Proper(v) && (build.Some? ==> forall i :: 0 <= i < |build.value| ==> !IsSpace(build.value[i]))
    ensures Parse(Written(v, prefix, build)) == Some(v)
  {
    var text, release := Written(v, prefix, build), Release(v);
    var tail := if build.Some? then "+" + build.value else "";
    ReleaseChars(v);
    Trims(text, prefix, release, tail);
    CutsBuild(release, tail);
    ReleaseParses(v);
  }

  lemma CutsBuild(release: string, tail: string)
    requires forall k :: 0 <= k < |release| ==> IdentifierChar(release[k]) || release[k] == '.'
    requires tail != "" ==> tail[0] == '+'
    ensures (release + tail)[..IndexOf(release + tail, '+')] == release
  {
    IndexAt(release + tail, '+', |release|);
  }

  lemma ReleaseParses(v: Version)
    requires Proper(v)
    ensures ParseRelease(Release(v)) == Some(v)
  {
    CoreSplits(v);
    ReleaseReads(v);
    ReleaseAssembles(Release(v), CoreText(v), v.prerelease, [Decimal(v.major), Decimal(v.minor), Decimal(v.patch)]);
    PartsRead(v);
  }

  lemma ReleaseAssembles(release: string, core: string, prerelease: string, parts: seq<string>)
    requires |core| <= |release| && IndexOf(release, '-') == |core| && release[..|core|] == core
    requires if |core| < |release| then release[|core| + 1..] == prerelease else prerelease == ""
    requires |parts| == 3 && Split(core) == parts
    ensures ParseRelease(release) == Assembled(parts, prerelease)
  {
  }

  lemma PartsRead(v: Version)
    requires Proper(v)
    ensures Assembled([Decimal(v.major), Decimal(v.minor), Decimal(v.patch)], v.prerelease) == Some(v)
  {
    CoreNumberReads(v.major);
    CoreNumberReads(v.minor);
    CoreNumberReads(v.patch);
  }

  function Release(v: Version): string
    requires v.major >= 0 && v.minor >= 0 && v.patch >= 0
  {
    CoreText(v) + (if v.prerelease == "" then "" else "-" + v.prerelease)
  }

  lemma ReleaseChars(v: Version)
    requires Proper(v)
    ensures var r := Release(v);
            r != "" && IsDigit(r[0]) && forall k :: 0 <= k < |r| ==> IdentifierChar(r[k]) || r[k] == '.'
  {
    CoreSplits(v);
    PrereleaseChars(v.prerelease);
  }

  lemma Trims(text: string, prefix: bool, release: string, tail: string)
    requires text == (if prefix then "v" else "") + (release + tail) && release != "" && IsDigit(release[0])
    requires forall k :: 0 <= k < |release| ==> IdentifierChar(release[k]) || release[k] == '.'
    requires forall k :: 0 <= k < |tail| ==> !IsSpace(tail[k])
    ensures WithoutV(TrimRight(TrimLeft(text))) == release + tail
  {
    assert forall k :: 0 <= k < |text| ==> !IsSpace(text[k]);
    SpaceFree(text);
  }

  /** What is accepted is proper: no negative or overlong number and no invalid identifier. */
  lemma AcceptsOnlyProper(text: string)
    ensures Parse(text).Some? ==> Proper(Parse(text).value)
  {
  }

  // ---------------------------------------------------------------- exactly what is accepted

  predicate Spaces(s: string) { forall i :: 0 <= i < |s| ==> IsSpace(s[i]) }

  /** The version as it may be written: a release without a prerelease may also end in a hyphen. */
  function Body(v: Version, prefix: bool, dangling: bool, build: Option<string>): string
    requires v.major >= 0 && v.minor >= 0 && v.patch >= 0
  {
    (if prefix then "v" else "") + (Ends(v, dangling) + Tail(build))
  }

  function Ends(v: Version, dangling: bool): string
    requires v.major >= 0 && v.minor >= 0 && v.patch >= 0
  {
    Release(v) + if dangling then "-" else ""
  }

  function Tail(build: Option<string>): string {
    if build.Some? then "+" + build.value else ""
  }

  ghost predicate IsWritten(text: string, v: Version)
    requires v.major >= 0 && v.minor >= 0 && v.patch >= 0
  {
    exists left, right, prefix, dangling, build ::
      Spaces(left) && Spaces(right) && (dangling ==> v.prerelease == "") &&
      text == left + Body(v, prefix, dangling, build) + right
  }

  /**
    A text is accepted exactly when it is a proper version as written, with spaces around it, perhaps a
    "v", perhaps a hyphen with nothing after it, and perhaps a plus sign and anything at all.
  */
  lemma AcceptedExactly(text: string, v: Version)
    ensures Parse(text) == Some(v) <==> Proper(v) && IsWritten(text, v)
  {
    if Parse(text) == Some(v) {
      ParsedIsWritten(text, v);
    }
    if Proper(v) && IsWritten(text, v) {
      var left, right, prefix, dangling, build :|
        Spaces(left) && Spaces(right) && (dangling ==> v.prerelease == "") &&
        text == left + Body(v, prefix, dangling, build) + right;
      WrittenIsParsed(v, left, right, prefix, dangling, build);
    }
  }

  /** A last hyphen with nothing after it is no part of Semantic Versioning 2.0.0, yet is accepted. */
  lemma DanglingHyphen(v: Version)
    requires Proper(v) && v.prerelease == ""
    ensures Parse(CoreText(v) + "-") == Some(v)
  {
    WrittenIsParsed(v, "", "", false, true, None);
    assert "" + Body(v, false, true, None) + "" == CoreText(v) + "-";
  }

  // from what is written to what is read

  lemma {:induction false} LeftTrimmed(left: string, s: string)
    requires Spaces(left) && s != "" && !IsSpace(s[0])
    ensures TrimLeft(left + s) == s
  {
    if left == "" {
      assert left + s == s;
    } else {
      assert (left + s)[1..] == left[1..] + s;
      LeftTrimmed(left[1..], s);
    }
  }

  lemma {:induction false} RightTrimmed(a: string, b: string)
    requires a != "" && !IsSpace(a[|a| - 1])
    ensures TrimRight(a + b) == a + TrimRight(b)
    decreases |b|
  {
    if b == "" {
      assert a + b == a;
    } else if IsSpace(b[|b| - 1]) {
      assert (a + b)[..|a + b| - 1] == a + b[..|b| - 1];
      RightTrimmed(a, b[..|b| - 1]);
    }
  }

  lemma {:induction false} SpacesTrimmed(s: string)
    requires Spaces(s)
    ensures TrimRight(s) == ""
  {
    if s != "" {
      SpacesTrimmed(s[..|s| - 1]);
    }
  }

  /** What is left of the tail starts with a plus sign, or is nothing. */
  lemma TailTrimmed(build: Option<string>, right: string)
    requires Spaces(right)
    ensures var t := TrimRight(Tail(build) + right); t == "" || t[0] == '+'
  {
    if build.Some? {
      assert Tail(build) + right == "+" + (build.value + right);
      RightTrimmed("+", build.value + right);
    } else {
      assert Tail(build) + right == right;
      SpacesTrimmed(right);
    }
  }

  lemma EndsChars(v: Version, dangling: bool)
    requires Proper(v)
    ensures var r := Ends(v, dangling);
            && r != "" && IsDigit(r[0]) && !IsSpace(r[|r| - 1])
            && forall k :: 0 <= k < |r| ==> IdentifierChar(r[k]) || r[k] == '.'
  {
    ReleaseChars(v);
  }

  lemma WrittenIsParsed(v: Version, left: string, right: string, prefix: bool, dangling: bool, build: Option<string>)
    requires Proper(v) && Spaces(left) && Spaces(right) && (dangling ==> v.prerelease == "")
    ensures Parse(left + Body(v, prefix, dangling, build) + right) == Some(v)
  {
    var p, ends, rest := if prefix then "v" else "", Ends(v, dangling), Tail(build) + right;
    EndsChars(v, dangling);
    Regrouped(left, p, ends, Tail(build), right);
    BothTrimmed(left, p + ends, rest);
    TailTrimmed(build, right);
    VRemoved(prefix, ends, TrimRight(rest));
    CutsBuild(ends, TrimRight(rest));
    EndsParse(v, dangling);
  }

  lemma Regrouped(left: string, p: string, ends: string, tail: string, right: string)
    ensures left + (p + (ends + tail)) + right == left + ((p + ends) + (tail + right))
  {
  }

  lemma BothTrimmed(left: string, head: string, rest: string)
    requires Spaces(left) && head != "" && !IsSpace(head[0]) && !IsSpace(head[|head| - 1])
    ensures TrimRight(TrimLeft(left + (head + rest))) == head + TrimRight(rest)
  {
    LeftTrimmed(left, head + rest);
    RightTrimmed(head, rest);
  }

  lemma VRemoved(prefix: bool, ends: string, tail: string)
    requires ends != "" && IsDigit(ends[0])
    ensures WithoutV((if prefix then "v" else "") + ends + tail) == ends + tail
  {
    assert "" + ends + tail == ends + tail;
    assert ("v" + ends + tail)[1..] == ends + tail;
  }

  lemma EndsParse(v: Version, dangling: bool)
    requires Proper(v) && (dangling ==> v.prerelease == "")
    ensures ParseRelease(Ends(v, dangling)) == Some(v)
  {
    if dangling {
      var core, r := CoreText(v), Ends(v, true);
      CoreSplits(v);
      assert r == core + "-";
      assert forall k :: 0 <= k < |core| ==> r[k] == core[k];
      IndexAt(r, '-', |core|);
      ReleaseAssembles(r, core, "", [Decimal(v.major), Decimal(v.minor), Decimal(v.patch)]);
      PartsRead(v);
    } else {
      assert Ends(v, dangling) == Release(v);
      ReleaseParses(v);
    }
  }

  // from what is read to what was written

  lemma {:induction false} LeftSpaces(s: string) returns (left: string)
    ensures Spaces(left) && s == left + TrimLeft(s)
  {
    if s != "" && IsSpace(s[0]) {
      var rest := LeftSpaces(s[1..]);
      left := [s[0]] + rest;
      assert s == [s[0]] + s[1..];
    } else {
      left := "";
    }
  }

  lemma {:induction false} RightSpaces(s: string) returns (right: string)
    ensures Spaces(right) && s == TrimRight(s) + right
  {
    if s != "" && IsSpace(s[|s| - 1]) {
      var rest := RightSpaces(s[..|s| - 1]);
      right := rest + [s[|s| - 1]];
      assert s == s[..|s| - 1] + [s[|s| - 1]];
    } else {
      right := "";
    }
  }

  /** A core number is written in one way. */
  lemma CoreNumberWritten(part: string)
    requires CoreNumber(part).Some? && '+' !in part && '-' !in part
    ensures 0 <= CoreNumber(part).value < INT_LIMIT && part == Decimal(CoreNumber(part).value)
  {
    assert part[0] in part;
    var n := CoreNumber(part).value;
    assert AllDigits(part) && n == Digits(part);
    DigitsOfDecimal(n);
    Order.SpelledOnce(part, Decimal(n));
  }

  lemma CoreWritten(core: string, prerelease: string)
    requires '+' !in core && '-' !in core && |Split(core)| == 3 && Assembled(Split(core), prerelease).Some?
    ensures var v := Assembled(Split(core), prerelease).value; Proper(v) && core == CoreText(v)
  {
    var parts := Split(core);
    JoinSplit(core);
    forall k | 0 <= k < 3 ensures '+' !in parts[k] && '-' !in parts[k] {
      assert parts[k] in parts;
      PartsOfText(core, parts[k]);
    }
    CoreNumberWritten(parts[0]);
    CoreNumberWritten(parts[1]);
    CoreNumberWritten(parts[2]);
    var v := Assembled(parts, prerelease).value;
    assert parts == [Decimal(v.major), Decimal(v.minor), Decimal(v.patch)];
  }

  lemma {:induction false} PartsOfText(s: string, part: string)
    requires part in Split(s)
    ensures forall c :: c in part ==> c in s
    decreases |s|
  {
    var i := IndexOf(s, '.');
    if i < |s| && part != s[..i] {
      assert Split(s) == [s[..i]] + Split(s[i + 1..]);
      PartsOfText(s[i + 1..], part);
    }
  }

  lemma ReleaseWritten(release: string) returns (dangling: bool)
    requires '+' !in release && ParseRelease(release).Some?
    ensures var v := ParseRelease(release).value;
            Proper(v) && (dangling ==> v.prerelease == "") && release == Ends(v, dangling)
  {
    var dash, v := IndexOf(release, '-'), ParseRelease(release).value;
    CoreOf(release);
    if dash == |release| {
      dangling := false;
      EndsPlain(v, release);
    } else {
      dangling := v.prerelease == "";
      EndsWithHyphen(v, release[..dash], release[dash + 1..]);
      CutAtHyphen(release, dash);
    }
  }

  lemma CutAtHyphen(release: string, dash: nat)
    requires dash < |release| && release[dash] == '-'
    ensures release == release[..dash] + ("-" + release[dash + 1..])
  {
  }

  lemma EndsPlain(v: Version, core: string)
    requires Proper(v) && v.prerelease == "" && core[..|core|] == CoreText(v)
    ensures Ends(v, false) == core
  {
    assert core[..|core|] == core;
    assert CoreText(v) + "" + "" == CoreText(v);
  }

  lemma CoreOf(release: string)
    requires '+' !in release && ParseRelease(release).Some?
    ensures var dash, v := IndexOf(release, '-'), ParseRelease(release).value;
            && Proper(v) && release[..dash] == CoreText(v)
            && v.prerelease == if dash < |release| then release[dash + 1..] else ""
  {
    var dash, v := IndexOf(release, '-'), ParseRelease(release).value;
    assert forall c :: c in release[..dash] ==> c in release;
    CoreWritten(release[..dash], v.prerelease);
  }

  lemma EndsWithHyphen(v: Version, core: string, prerelease: string)
    requires Proper(v) && core == CoreText(v) && prerelease == v.prerelease
    ensures Ends(v, prerelease == "") == core + ("-" + prerelease)
  {
    if prerelease == "" {
      assert Release(v) == core;
    } else {
      assert Release(v) == core + ("-" + prerelease) == Ends(v, false);
    }
  }

  lemma ParsedIsWritten(text: string, v: Version)
    requires Parse(text) == Some(v)
    ensures Proper(v) && IsWritten(text, v)
  {
    var left, right := Surrounded(text);
    var trimmed := TrimRight(TrimLeft(text));
    var prefix := trimmed != "" && trimmed[0] == 'v';
    var dangling, build := BodyRead(WithoutV(trimmed), v);
    assert trimmed == (if prefix then "v" else "") + WithoutV(trimmed);
    assert text == left + Body(v, prefix, dangling, build) + right;
  }

  lemma Surrounded(text: string) returns (left: string, right: string)
    ensures Spaces(left) && Spaces(right) && text == left + TrimRight(TrimLeft(text)) + right
  {
    left := LeftSpaces(text);
    right := RightSpaces(TrimLeft(text));
    assert text == left + (TrimRight(TrimLeft(text)) + right);
  }

  lemma BodyRead(x: string, v: Version) returns (dangling: bool, build: Option<string>)
    requires ParseRelease(x[..IndexOf(x, '+')]) == Some(v)
    ensures Proper(v) && (dangling ==> v.prerelease == "") && x == Ends(v, dangling) + Tail(build)
  {
    build := BuildOf(x);
    var release := x[..IndexOf(x, '+')];
    dangling := ReleaseWritten(release);
  }

  lemma BuildOf(x: string) returns (build: Option<string>)
    ensures x == x[..IndexOf(x, '+')] + Tail(build) && '+' !in x[..IndexOf(x, '+')]
  {
    var i := IndexOf(x, '+');
    assert forall k :: 0 <= k < i ==> x[..i][k] == x[k];
    if i < |x| {
      build := Some(x[i + 1..]);
      assert x == x[..i] + ("+" + x[i + 1..]);
    } else {
      build := None;
      assert x == x[..i] + "";
    }
  }
}
