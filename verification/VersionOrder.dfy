/** The order on versions is total, and how far it is that of Semantic Versioning 2.0.0, section 11. */
module VersionOrder {
  import opened Common
  import opened Versions

  // ---------------------------------------------------------------- text

  lemma {:induction false} TextReverses(a: string, b: string)
    ensures CompareText(a, b) == -CompareText(b, a)
    ensures CompareText(a, b) == 0 <==> a == b
    ensures CompareText(a, b) in {-1, 0, 1}
  {
    if a != "" && b != "" {
      if a[0] == b[0] {
        TextReverses(a[1..], b[1..]);
        assert a == [a[0]] + a[1..] && b == [b[0]] + b[1..];
      }
    }
  }

  lemma {:induction false} TextChains(a: string, b: string, c: string)
    requires CompareText(a, b) <= 0 && CompareText(b, c) <= 0
    ensures CompareText(a, c) <= 0
  {
    if a != "" && b != "" && c != "" && a[0] == b[0] == c[0] {
      TextChains(a[1..], b[1..], c[1..]);
    }
  }

  // ---------------------------------------------------------------- identifiers

  lemma IdentifiersReverse(a: string, b: string)
    ensures CompareIdentifiers(a, b) == -CompareIdentifiers(b, a)
    ensures CompareIdentifiers(a, b) == 0 <==> a == b
  {
    TextReverses(a, b);
  }

  lemma IdentifiersChain(a: string, b: string, c: string)
    requires CompareIdentifiers(a, b) <= 0 && CompareIdentifiers(b, c) <= 0
    ensures CompareIdentifiers(a, c) <= 0
  {
    TextReverses(a, b);
    TextReverses(b, c);
    TextReverses(a, c);
    if CompareText(a, b) <= 0 && CompareText(b, c) <= 0 {
      TextChains(a, b, c);
    }
  }

  // ---------------------------------------------------------------- lists of identifiers

  lemma {:induction false} ListsReverse(ls: seq<string>, rs: seq<string>)
    requires ls != rs
    ensures CompareLists(ls, rs) == -CompareLists(rs, ls)
  {
    if ls != [] && rs != [] {
      IdentifiersReverse(ls[0], rs[0]);
      if ls[0] == rs[0] {
        assert ls == [ls[0]] + ls[1..] && rs == [rs[0]] + rs[1..];
        ListsReverse(ls[1..], rs[1..]);
      }
    }
  }

  lemma {:induction false} ListsChain(ls: seq<string>, ms: seq<string>, rs: seq<string>)
    requires ls != ms && ms != rs && CompareLists(ls, ms) < 0 && CompareLists(ms, rs) < 0
    ensures ls != rs && CompareLists(ls, rs) < 0
    decreases |ls|
  {
    if ls != [] && ms != [] && rs != [] {
      IdentifiersReverse(ls[0], ms[0]);
      IdentifiersReverse(ms[0], rs[0]);
      IdentifiersReverse(ls[0], rs[0]);
      IdentifiersChain(ls[0], ms[0], rs[0]);
      if ls[0] == ms[0] == rs[0] {
        assert ls == [ls[0]] + ls[1..] && ms == [ms[0]] + ms[1..] && rs == [rs[0]] + rs[1..];
        ListsChain(ls[1..], ms[1..], rs[1..]);
      }
    }
  }

  // ---------------------------------------------------------------- versions

  /** Comparing the other way round gives the opposite answer, and equal means the same version. */
  lemma VersionsReverse(l: Version, r: Version)
    ensures CompareParsed(l, r) == -CompareParsed(r, l)
    ensures CompareParsed(l, r) == 0 <==> l == r
  {
    PrereleasesReverse(l.prerelease, r.prerelease);
  }

  lemma PrereleasesReverse(l: string, r: string)
    ensures ComparePrerelease(l, r) == -ComparePrerelease(r, l)
    ensures ComparePrerelease(l, r) == 0 <==> l == r
  {
    if l != r {
      JoinSplit(l);
      JoinSplit(r);
      ListsReverse(Split(l), Split(r));
      ListsDecide(Split(l), Split(r));
    }
  }

  lemma {:induction false} ListsDecide(ls: seq<string>, rs: seq<string>)
    ensures CompareLists(ls, rs) in {-1, 1}
  {
    if ls != [] && rs != [] {
      TextReverses(ls[0], rs[0]);
      ListsDecide(ls[1..], rs[1..]);
    }
  }

  lemma PrereleasesChain(l: string, m: string, r: string)
    requires ComparePrerelease(l, m) <= 0 && ComparePrerelease(m, r) <= 0
    ensures ComparePrerelease(l, r) <= 0
  {
    if l != m && m != r && l != "" && m != "" && r != "" {
      JoinSplit(l);
      JoinSplit(m);
      JoinSplit(r);
      ListsDecide(Split(l), Split(m));
      ListsDecide(Split(m), Split(r));
      ListsChain(Split(l), Split(m), Split(r));
    }
  }

  lemma VersionsChain(l: Version, m: Version, r: Version)
    requires CompareParsed(l, m) <= 0 && CompareParsed(m, r) <= 0
    ensures CompareParsed(l, r) <= 0
  {
    if l.major == m.major == r.major && l.minor == m.minor == r.minor && l.patch == m.patch == r.patch {
      PrereleasesChain(l.prerelease, m.prerelease, r.prerelease);
    }
  }

  /** Its numbers are higher, or they are equal and it is the release of which the other is a prerelease. */
  predicate Above(l: Version, r: Version) {
    || l.major > r.major
    || (l.major == r.major && l.minor > r.minor)
    || (l.major == r.major && l.minor == r.minor && l.patch > r.patch)
    || (l == r.(prerelease := "") && r.prerelease != "")
  }

  /**
    On versions that parse, `compareVersions` is a total order: zero exactly for equal versions, and above
    are the higher numbers, and a release above its prereleases.
  */
  lemma CompareIsATotalOrder(a: string, b: string, c: string)
    requires Parse(a).Some? && Parse(b).Some? && Parse(c).Some?
    ensures CompareVersions(a, b) == -CompareVersions(b, a)
    ensures CompareVersions(a, b) == 0 <==> Parse(a) == Parse(b)
    ensures Above(Parse(a).value, Parse(b).value) ==> CompareVersions(a, b) == 1
    ensures CompareVersions(a, b) <= 0 && CompareVersions(b, c) <= 0 ==> CompareVersions(a, c) <= 0
  {
    VersionsReverse(Parse(a).value, Parse(b).value);
    if CompareVersions(a, b) <= 0 && CompareVersions(b, c) <= 0 {
      VersionsChain(Parse(a).value, Parse(b).value, Parse(c).value);
    }
  }

  // ---------------------------------------------------------------- section 11 of Semantic Versioning 2.0.0

  /** Identifiers of digits only compare as numbers and come before all others, which compare as text. */
  function SemVerIdentifiers(a: string, b: string): int {
    if AllDigits(a) && AllDigits(b) then CompareInt(Digits(a), Digits(b))
    else if AllDigits(a) then -1
    else if AllDigits(b) then 1
    else CompareText(a, b)
  }

  function SemVerLists(ls: seq<string>, rs: seq<string>): int {
    if ls == [] && rs == [] then 0
    else if ls == [] then -1
    else if rs == [] then 1
    else
      var c := SemVerIdentifiers(ls[0], rs[0]);
      if c != 0 then c else SemVerLists(ls[1..], rs[1..])
  }

  function SemVerPrecedence(l: Version, r: Version): int {
    if l.major != r.major then CompareInt(l.major, r.major)
    else if l.minor != r.minor then CompareInt(l.minor, r.minor)
    else if l.patch != r.patch then CompareInt(l.patch, r.patch)
    else if l.prerelease == "" && r.prerelease == "" then 0
    else if l.prerelease == "" then 1
    else if r.prerelease == "" then -1
    else SemVerLists(Split(l.prerelease), Split(r.prerelease))
  }

  /** The code takes the identifier for a number exactly when the standard does. */
  predicate WellRead(id: string) {
    Numeric(id).Some? <==> AllDigits(id)
  }

  predicate WellReadVersion(v: Version) {
    v.prerelease == "" || forall id :: id in Split(v.prerelease) ==> WellRead(id)
  }

  /**
    Which identifiers are misread: those of digits too large for 64 bits, and a hyphen followed by
    digits that do fit.
  */
  lemma WellReadExactly(id: string)
    requires ValidIdentifier(id)
    ensures WellRead(id) <==>
            !(AllDigits(id) && Digits(id) >= INT_LIMIT) &&
            !(id[0] == '-' && |id| > 1 && AllDigits(id[1..]) && Digits(id[1..]) <= INT_LIMIT)
  {
    assert IdentifierChar(id[0]);
    if AllDigits(id) {
      assert IsDigit(id[0]);
    }
  }

  /** A number without leading zeros is spelled in one way. */
  lemma {:induction false} SpelledOnce(a: string, b: string)
    requires AllDigits(a) && AllDigits(b) && a != "" && b != ""
    requires (|a| > 1 ==> a[0] != '0') && (|b| > 1 ==> b[0] != '0') && Digits(a) == Digits(b)
    ensures a == b
    decreases |a| + |b|
  {
    var a0, b0 := a[..|a| - 1], b[..|b| - 1];
    if |a| > 1 { NotZero(a0); }
    if |b| > 1 { NotZero(b0); }
    assert Digits(a0) == Digits(b0) && a[|a| - 1] == b[|b| - 1];
    if |a| > 1 && |b| > 1 {
      SpelledOnce(a0, b0);
    }
    assert a == a0 + [a[|a| - 1]] && b == b0 + [b[|b| - 1]];
  }

  lemma {:induction false} NotZero(a: string)
    requires AllDigits(a) && a != "" && a[0] != '0'
    ensures Digits(a) > 0
  {
    if |a| > 1 {
      NotZero(a[..|a| - 1]);
    }
  }

  lemma IdentifiersAgree(a: string, b: string)
    requires ValidIdentifier(a) && ValidIdentifier(b) && WellRead(a) && WellRead(b)
    ensures CompareIdentifiers(a, b) == SemVerIdentifiers(a, b)
  {
    TextReverses(a, b);
    if AllDigits(a) && AllDigits(b) {
      assert IsDigit(a[0]) && IsDigit(b[0]);
      if Digits(a) == Digits(b) {
        SpelledOnce(a, b);
      }
    }
  }

  lemma {:induction false} ListsAgree(ls: seq<string>, rs: seq<string>)
    requires ls != rs
    requires forall id :: id in ls || id in rs ==> ValidIdentifier(id) && WellRead(id)
    ensures CompareLists(ls, rs) == SemVerLists(ls, rs)
  {
    if ls != [] && rs != [] {
      IdentifiersAgree(ls[0], rs[0]);
      if CompareIdentifiers(ls[0], rs[0]) == 0 {
        IdentifiersReverse(ls[0], rs[0]);
        assert ls == [ls[0]] + ls[1..] && rs == [rs[0]] + rs[1..];
        ListsAgree(ls[1..], rs[1..]);
      }
    }
  }

  /** When no identifier is misread, the code's order is the standard's. */
  lemma AgreesWithSemVer(l: Version, r: Version)
    requires ValidPrerelease(l.prerelease) && ValidPrerelease(r.prerelease)
    requires WellReadVersion(l) && WellReadVersion(r)
    ensures CompareParsed(l, r) == SemVerPrecedence(l, r)
  {
    if l.prerelease != "" && r.prerelease != "" {
      JoinSplit(l.prerelease);
      JoinSplit(r.prerelease);
      if l.prerelease == r.prerelease {
        SameLists(Split(l.prerelease));
      } else {
        ListsAgree(Split(l.prerelease), Split(r.prerelease));
      }
    }
  }

  lemma {:induction false} SameLists(ls: seq<string>)
    ensures SemVerLists(ls, ls) == 0
  {
    if ls != [] {
      TextReverses(ls[0], ls[0]);
      SameLists(ls[1..]);
    }
  }

  // ---------------------------------------------------------------- and where it is not

  /** A misread identifier is on the wrong side of a lone hyphen. */
  lemma MisreadDiffers(id: string)
    requires ValidIdentifier(id) && !WellRead(id)
    ensures ValidIdentifier("-") && WellRead("-")
    ensures CompareIdentifiers(id, "-") != 0 && CompareIdentifiers(id, "-") == -SemVerIdentifiers(id, "-")
  {
    assert "-"[1..] == "" && Numeric("-") == None && !AllDigits("-") by { assert !IsDigit("-"[0]); }
    assert IdentifierChar("-"[0]);
    WellReadExactly(id);
    TextReverses(id, "-");
    if AllDigits(id) {
      assert IsDigit(id[0]) && CompareText(id, "-") == 1;
    } else {
      assert id[0] == '-' && CompareText(id, "-") == CompareText(id[1..], "") == 1;
    }
  }

  /** Up to the first misread identifier the lists agree; there the hyphen tells them apart. */
  lemma {:induction false} ListsDiffer(ls: seq<string>, i: nat)
    requires i < |ls| && !WellRead(ls[i]) && ValidIdentifier(ls[i])
    ensures CompareLists(ls, ls[..i] + ["-"]) != SemVerLists(ls, ls[..i] + ["-"])
  {
    var rs := ls[..i] + ["-"];
    if i == 0 {
      MisreadDiffers(ls[0]);
    } else {
      TextReverses(ls[0], ls[0]);
      assert rs[1..] == ls[1..][..i - 1] + ["-"];
      ListsDiffer(ls[1..], i - 1);
    }
  }

  /** The version told apart from `v`: the same up to its first misread identifier, then a hyphen. */
  lemma DiffersFromSemVer(v: Version) returns (u: Version)
    requires ValidPrerelease(v.prerelease) && !WellReadVersion(v)
    ensures ValidPrerelease(u.prerelease) && WellReadVersion(u)
    ensures CompareParsed(v, u) != SemVerPrecedence(v, u)
  {
    var ls := Split(v.prerelease);
    var i := FirstMisread(ls);
    var rs := ls[..i] + ["-"];
    MisreadDiffers(ls[i]);
    SplitHasNoDots(v.prerelease);
    forall p | p in rs ensures '.' !in p && ValidIdentifier(p) && WellRead(p) {
      if p != "-" {
        assert p in ls[..i] && p in ls;
      }
    }
    SplitJoin(rs);
    u := v.(prerelease := Join(rs));
    ListsDiffer(ls, i);
  }

  lemma FirstMisread(ls: seq<string>) returns (i: nat)
    requires exists id :: id in ls && !WellRead(id)
    ensures i < |ls| && !WellRead(ls[i]) && forall k :: 0 <= k < i ==> WellRead(ls[k])
  {
    i := 0;
    while WellRead(ls[i])
      invariant i < |ls| && forall k :: 0 <= k < i ==> WellRead(ls[k])
      decreases |ls| - i
    {
      i := i + 1;
      if i == |ls| {
        var id :| id in ls && !WellRead(id);
        var k :| 0 <= k < |ls| && ls[k] == id;
      }
    }
  }

  /**
    A version is ordered as the standard says against every well-read version if and only if it is
    well read itself.
  */
  lemma SemVerExactlyWhenWellRead(v: Version)
    requires ValidPrerelease(v.prerelease)
    ensures WellReadVersion(v) <==>
            forall u: Version :: ValidPrerelease(u.prerelease) && WellReadVersion(u) ==>
              CompareParsed(v, u) == SemVerPrecedence(v, u)
  {
    if WellReadVersion(v) {
      forall u: Version | ValidPrerelease(u.prerelease) && WellReadVersion(u)
        ensures CompareParsed(v, u) == SemVerPrecedence(v, u)
      {
        AgreesWithSemVer(v, u);
      }
    } else {
      var u := DiffersFromSemVer(v);
    }
  }

  // ---------------------------------------------------------------- the comparison of texts

  /** On texts: the sign is that of section 11, the left against the right, and versions it cannot tell are equal. */
  lemma CompareIsSemVer(a: string, b: string)
    requires Parse(a).Some? && Parse(b).Some?
    requires WellReadVersion(Parse(a).value) && WellReadVersion(Parse(b).value)
    ensures CompareVersions(a, b) == SemVerPrecedence(Parse(a).value, Parse(b).value)
  {
    AgreesWithSemVer(Parse(a).value, Parse(b).value);
  }

  /** A text that does not parse compares equal to everything, so an update is announced for neither. */
  lemma UnparsedAreEqual(a: string, b: string)
    requires Parse(a).None? || Parse(b).None?
    ensures CompareVersions(a, b) == 0 && CompareVersions(b, a) == 0
    ensures !UpdateAvailable(a, b) && !UpdateAvailable(b, a)
  {
  }

  /** An update is announced exactly when the latest release comes after the current one. */
  lemma AnnouncedExactly(latest: string, current: string)
    requires Parse(latest).Some? && Parse(current).Some?
    requires WellReadVersion(Parse(latest).value) && WellReadVersion(Parse(current).value)
    ensures UpdateAvailable(latest, current) <==> SemVerPrecedence(Parse(latest).value, Parse(current).value) > 0
  {
    CompareIsSemVer(latest, current);
  }

  /** Of two pairs of identifiers the first that differ decide; a pair comes after its own beginning. */
  lemma PairsCompare(a: string, b: string, c: string, d: string)
    ensures var first := SemVerIdentifiers(a, c);
            && SemVerLists([a, b], [c, d]) == (if first != 0 then first else SemVerIdentifiers(b, d))
            && SemVerLists([a], [c, d]) == (if first != 0 then first else -1)
            && SemVerLists([a, b], [c]) == (if first != 0 then first else 1)
  {
    assert [a, b][1..] == [b] && [c, d][1..] == [d] && [b][1..] == [d][1..] == [a][1..] == [c][1..];
    assert SemVerLists([b], [d]) == SemVerIdentifiers(b, d);
  }

  lemma ExampleTexts()
    ensures SemVerIdentifiers("alpha", "alpha") == 0 && SemVerIdentifiers("beta", "beta") == 0
    ensures SemVerIdentifiers("alpha", "beta") < 0 && SemVerIdentifiers("beta", "rc") < 0
  {
    TextReverses("alpha", "alpha");
    TextReverses("beta", "beta");
    assert !IsDigit("alpha"[0]) && !IsDigit("beta"[0]) && !IsDigit("rc"[0]);
    assert CompareText("alpha", "beta") < 0 && CompareText("beta", "rc") < 0;
  }

  lemma ExampleNumbers()
    ensures SemVerIdentifiers("1", "beta") < 0 && SemVerIdentifiers("2", "11") < 0
  {
    assert !IsDigit("beta"[0]);
    assert "2"[..0] == "" == "1"[..0] && "11"[..1] == "1";
    assert Digits("") == 0 && Digits("2") == 2 && Digits("1") == 1 && Digits("11") == 11;
  }

  /** The order of the examples of section 11, by their identifiers: each comes before the next. */
  lemma StandardExamples()
    ensures SemVerLists(["alpha"], ["alpha", "1"]) < 0 && SemVerLists(["alpha", "1"], ["alpha", "beta"]) < 0
    ensures SemVerLists(["alpha", "beta"], ["beta"]) < 0 && SemVerLists(["beta"], ["beta", "2"]) < 0
    ensures SemVerLists(["beta", "2"], ["beta", "11"]) < 0 && SemVerLists(["beta", "11"], ["rc", "1"]) < 0
    ensures SemVerPrecedence(Version(1, 0, 0, "rc.1"), Version(1, 0, 0, "")) < 0
    ensures SemVerPrecedence(Version(1, 0, 0, ""), Version(2, 0, 0, "")) < 0
    ensures SemVerPrecedence(Version(2, 0, 0, ""), Version(2, 1, 0, "")) < 0
    ensures SemVerPrecedence(Version(2, 1, 0, ""), Version(2, 1, 1, "")) < 0
  {
    ExampleTexts();
    ExampleNumbers();
    PairsCompare("alpha", "", "alpha", "1");
    PairsCompare("alpha", "1", "alpha", "beta");
    PairsCompare("alpha", "beta", "beta", "");
    PairsCompare("beta", "", "beta", "2");
    PairsCompare("beta", "2", "beta", "11");
    PairsCompare("beta", "11", "rc", "1");
  }
}
