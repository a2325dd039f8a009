/**
  The recogniser of the one thing the SSH agent signs: a public-key authentication request, section 7
  of RFC 4252, in the encodings of section 5 of RFC 4251. Decoding follows the Go `ssh.Unmarshal`.
*/
module SshWire {
  import opened Common

  const TWO_32 := 0x1_0000_0000
  const MAXIMUM_REQUEST := 16384

  /** ASCII text as bytes; characters beyond 255 do not occur in the names used here. */
  function Ascii(s: string): (b: Bytes)
    ensures |b| == |s|
  {
    seq(|s|, i requires 0 <= i < |s| => (s[i] as int) % 256)
  }

  const SSH_CONNECTION := Ascii("ssh-connection")
  const ED25519 := Ascii("ssh-ed25519")
  const PUBLICKEY := Ascii("publickey")
  const HOSTBOUND := Ascii("publickey-hostbound-v00@openssh.com")

  // ---------------------------------------------------------------- 32-bit lengths and strings

  function EncodeLength(n: nat): (b: Bytes)
    requires n < TWO_32
    ensures |b| == 4
  {
    [n / 0x100_0000, n / 0x1_0000 % 256, n / 256 % 256, n % 256]
  }

  function DecodeLength(b: Bytes): (n: nat)
    requires |b| >= 4
    ensures n < TWO_32
  {
    b[0] as int * 0x100_0000 + b[1] as int * 0x1_0000 + b[2] as int * 256 + b[3] as int
  }

  function EncodeString(s: Bytes): Bytes
    requires |s| < TWO_32
  {
    EncodeLength(|s|) + s
  }

  datatype Parsed<T> = Parsed(value: T, rest: Bytes) | Short

  /** A length-prefixed string from the front of `data`. */
  function ParseString(data: Bytes): (r: Parsed<Bytes>)
    ensures r.Parsed? ==> |r.value| < TWO_32 && data == EncodeString(r.value) + r.rest
  {
    if |data| < 4 then Short
    else
      var n := DecodeLength(data);
      if |data| - 4 < n then Short
      else
        LengthIsExact(data[..4]);
        assert data == data[..4] + data[4..4 + n] + data[4 + n..];
        Parsed(data[4..4 + n], data[4 + n..])
  }

  lemma LengthIsExact(b: Bytes)
    requires |b| == 4
    ensures EncodeLength(DecodeLength(b)) == b
  {
    var n := DecodeLength(b);
    var b0, b1, b2, b3 := b[0] as int, b[1] as int, b[2] as int, b[3] as int;
    LastByte(b0 * 0x1_0000 + b1 * 256 + b2, b3);
    LastByte(b0 * 256 + b1, b2);
    LastByte(b0, b1);
    assert n / 0x1_0000 == n / 256 / 256 && n / 0x100_0000 == n / 256 / 256 / 256;
  }

  lemma LastByte(q: nat, r: Byte)
    ensures (q * 256 + r) / 256 == q && (q * 256 + r) % 256 == r
  {
  }

  lemma LengthRoundTrip(n: nat, tail: Bytes)
    requires n < TWO_32
    ensures DecodeLength(EncodeLength(n) + tail) == n
  {
    assert n / 0x1_0000 == n / 256 / 256 && n / 0x100_0000 == n / 256 / 256 / 256;
  }

  lemma StringRoundTrip(s: Bytes, tail: Bytes)
    requires |s| < TWO_32
    ensures ParseString(EncodeString(s) + tail) == Parsed(s, tail)
  {
    LengthRoundTrip(|s|, s + tail);
    assert EncodeString(s) + tail == EncodeLength(|s|) + (s + tail);
    var data := EncodeString(s) + tail;
    assert data[4..4 + |s|] == s && data[4 + |s|..] == tail;
  }

  // ---------------------------------------------------------------- structures, field by field

  datatype Field = Text(text: Bytes) | Octet(octet: Byte)

  datatype FieldKind = TextKind | OctetKind

  function KindOf(f: Field): FieldKind {
    if f.Text? then TextKind else OctetKind
  }

  predicate FieldFits(f: Field) {
    f.Text? ==> |f.text| < TWO_32
  }

  function EncodeField(f: Field): Bytes
    requires FieldFits(f)
  {
    match f
    case Text(text) => EncodeString(text)
    case Octet(octet) => [octet]
  }

  function EncodeFields(fs: seq<Field>): Bytes
    requires forall f :: f in fs ==> FieldFits(f)
  {
    if fs == [] then [] else EncodeField(fs[0]) + EncodeFields(fs[1..])
  }

  function ParseField(kind: FieldKind, data: Bytes): (r: Parsed<Field>)
    ensures r.Parsed? ==> KindOf(r.value) == kind && FieldFits(r.value) && data == EncodeField(r.value) + r.rest
  {
    match kind
    case TextKind =>
      var s := ParseString(data);
      if s.Short? then Short else Parsed(Text(s.value), s.rest)
    case OctetKind =>
      if data == [] then Short else Parsed(Octet(data[0]), data[1..])
  }

  /** `ssh.Unmarshal`: each field of the structure in turn, and what is left over. */
  function Unmarshal(kinds: seq<FieldKind>, data: Bytes): (r: Parsed<seq<Field>>)
    ensures r.Parsed? ==> |r.value| == |kinds| && forall i :: 0 <= i < |kinds| ==> KindOf(r.value[i]) == kinds[i]
  {
    if kinds == [] then Parsed([], data)
    else
      var first := ParseField(kinds[0], data);
      if first.Short? then Short
      else
        var others := Unmarshal(kinds[1..], first.rest);
        if others.Short? then Short else Parsed([first.value] + others.value, others.rest)
  }

  lemma FieldRoundTrip(f: Field, tail: Bytes)
    requires FieldFits(f)
    ensures ParseField(KindOf(f), EncodeField(f) + tail) == Parsed(f, tail)
  {
    if f.Text? {
      StringRoundTrip(f.text, tail);
    }
  }

  lemma {:induction false} UnmarshalMarshal(kinds: seq<FieldKind>, fs: seq<Field>, tail: Bytes)
    requires |kinds| == |fs| && (forall i :: 0 <= i < |fs| ==> KindOf(fs[i]) == kinds[i])
    requires forall f :: f in fs ==> FieldFits(f)
    ensures Unmarshal(kinds, EncodeFields(fs) + tail) == Parsed(fs, tail)
  {
    if fs == [] {
      assert EncodeFields(fs) + tail == tail;
    } else {
      var more := EncodeFields(fs[1..]) + tail;
      assert EncodeFields(fs) + tail == EncodeField(fs[0]) + more;
      assert KindOf(fs[0]) == kinds[0];
      FieldRoundTrip(fs[0], more);
      UnmarshalMarshal(kinds[1..], fs[1..], tail);
      assert [fs[0]] + fs[1..] == fs;
    }
  }

  lemma EncodeCons(f: Field, fs: seq<Field>)
    requires FieldFits(f) && forall g :: g in fs ==> FieldFits(g)
    ensures EncodeFields([f] + fs) == EncodeField(f) + EncodeFields(fs)
  {
    assert ([f] + fs)[1..] == fs;
  }

  lemma AppendsAssociate(a: Bytes, b: Bytes, c: Bytes)
    ensures a + (b + c) == (a + b) + c
  {
  }

  lemma {:induction false} MarshalUnmarshal(kinds: seq<FieldKind>, data: Bytes)
    requires Unmarshal(kinds, data).Parsed?
    ensures var r := Unmarshal(kinds, data);
            (forall f :: f in r.value ==> FieldFits(f)) && data == EncodeFields(r.value) + r.rest
  {
    if kinds != [] {
      var first := ParseField(kinds[0], data);
      var others := Unmarshal(kinds[1..], first.rest);
      MarshalUnmarshal(kinds[1..], first.rest);
      EncodeCons(first.value, others.value);
      AppendsAssociate(EncodeField(first.value), EncodeFields(others.value), others.rest);
    }
  }

  // ---------------------------------------------------------------- the request

  /** The signed part of an authentication request; the boolean keeps only whether its byte was zero. */
  datatype Request = Request(session: Bytes, message: Byte, user: Bytes, service: Bytes, way: Bytes,
                             signature: bool, algorithm: Bytes, key: Bytes, rest: Bytes)

  const REQUEST_KINDS := [TextKind, OctetKind, TextKind, TextKind, TextKind, OctetKind, TextKind, TextKind]

  function FieldsOf(r: Request, flag: Byte): seq<Field> {
    [Text(r.session), Octet(r.message), Text(r.user), Text(r.service), Text(r.way), Octet(flag), Text(r.algorithm),
     Text(r.key)]
  }

  predicate Fits(r: Request) {
    |r.session| < TWO_32 && |r.user| < TWO_32 && |r.service| < TWO_32 && |r.way| < TWO_32 &&
    |r.algorithm| < TWO_32 && |r.key| < TWO_32
  }

  /** The wire form, with any byte that stands for the boolean. */
  function Encode(r: Request, flag: Byte): Bytes
    requires Fits(r)
  {
    EncodeFields(FieldsOf(r, flag)) + r.rest
  }

  /** `ssh.Unmarshal` into the request structure; the last field takes whatever is left. */
  function Decode(data: Bytes): Option<Request> {
    var u := Unmarshal(REQUEST_KINDS, data);
    if u.Short? then None
    else
      var f := u.value;
      assert forall i :: 0 <= i < 8 ==> KindOf(f[i]) == REQUEST_KINDS[i];
      Some(Request(f[0].text, f[1].octet, f[2].text, f[3].text, f[4].text, f[5].octet != 0, f[6].text, f[7].text,
                   u.rest))
  }

  /** Decoding undoes encoding. */
  lemma DecodeEncode(r: Request, flag: Byte)
    requires Fits(r) && (r.signature <==> flag != 0)
    ensures Decode(Encode(r, flag)) == Some(r)
  {
    UnmarshalMarshal(REQUEST_KINDS, FieldsOf(r, flag), r.rest);
  }

  /** Encoding undoes decoding, up to the byte that stands for the boolean. */
  lemma EncodeDecode(data: Bytes)
    requires Decode(data).Some?
    ensures var r := Decode(data).value;
            Fits(r) && exists flag: Byte :: (r.signature <==> flag != 0) && data == Encode(r, flag)
  {
    var r, f := Decode(data).value, Unmarshal(REQUEST_KINDS, data).value;
    MarshalUnmarshal(REQUEST_KINDS, data);
    forall i | 0 <= i < 8 ensures FieldFits(f[i]) && KindOf(f[i]) == REQUEST_KINDS[i] {
      assert f[i] in f;
    }
    assert f == FieldsOf(r, f[5].octet);
    assert data == Encode(r, f[5].octet);
  }

  // ---------------------------------------------------------------- the recogniser

  /** `ssh.Unmarshal` of a single string: there is data, it parses, and nothing follows. */
  function DecodeOnlyString(data: Bytes): Option<Bytes> {
    var s := ParseString(data);
    if s.Parsed? && s.rest == [] then Some(s.value) else None
  }

  /** The agent's check; `keyType` and `blob` are the public key's, `parses` is `ssh.ParsePublicKey`. */
  function Recognises(keyType: Bytes, blob: Bytes, parses: Bytes -> bool, data: Bytes): bool {
    if |data| > MAXIMUM_REQUEST then false else
    match Decode(data)
    case None => false
    case Some(r) =>
      if |r.session| < 16 || r.message != 50 || r.user == [] || r.service != SSH_CONNECTION || !r.signature ||
         r.algorithm != ED25519 || keyType != ED25519 || r.key != blob then false
      else if r.way == PUBLICKEY then r.rest == []
      else if r.way == HOSTBOUND then
        var bound := DecodeOnlyString(r.rest);
        bound.Some? && parses(bound.value)
      else false
  }

  /** What the tail must be: nothing, or exactly one host key. */
  ghost predicate TailOk(parses: Bytes -> bool, way: Bytes, rest: Bytes) {
    || (way == PUBLICKEY && rest == [])
    || (way == HOSTBOUND && exists host: Bytes :: |host| < TWO_32 && rest == EncodeString(host) && parses(host))
  }

  /** `data` is the encoding of a request to log in over ssh-connection with this Ed25519 key. */
  ghost predicate IsRequest(keyType: Bytes, blob: Bytes, parses: Bytes -> bool, data: Bytes) {
    |data| <= MAXIMUM_REQUEST && keyType == ED25519 && |blob| < TWO_32 &&
    exists session: Bytes, user: Bytes, way: Bytes, rest: Bytes, flag: Byte ::
      RequestParts(session, user, way) && flag != 0 && TailOk(parses, way, rest) &&
      data == Encode(Request(session, 50, user, SSH_CONNECTION, way, true, ED25519, blob, rest), flag)
  }

  predicate RequestParts(session: Bytes, user: Bytes, way: Bytes) {
    16 <= |session| < TWO_32 && 0 < |user| < TWO_32 && |way| < TWO_32
  }

  lemma NamesDiffer()
    ensures PUBLICKEY != HOSTBOUND
  {
    assert |PUBLICKEY| != |HOSTBOUND|;
  }

  lemma OnlyString(rest: Bytes, host: Bytes)
    ensures |host| < TWO_32 && rest == EncodeString(host) <==> DecodeOnlyString(rest) == Some(host)
  {
    if |host| < TWO_32 && rest == EncodeString(host) {
      StringRoundTrip(host, []);
      assert EncodeString(host) + [] == rest;
    }
    if DecodeOnlyString(rest) == Some(host) {
      assert EncodeString(host) + [] == EncodeString(host);
    }
  }

  /** The recogniser is exact. */
  lemma RecogniserIsExact(keyType: Bytes, blob: Bytes, parses: Bytes -> bool, data: Bytes)
    ensures Recognises(keyType, blob, parses, data) <==> IsRequest(keyType, blob, parses, data)
  {
    if Recognises(keyType, blob, parses, data) {
      RecognisedIsRequest(keyType, blob, parses, data);
    }
    if IsRequest(keyType, blob, parses, data) {
      RequestIsRecognised(keyType, blob, parses, data);
    }
  }

  lemma RecognisedIsRequest(keyType: Bytes, blob: Bytes, parses: Bytes -> bool, data: Bytes)
    requires Recognises(keyType, blob, parses, data)
    ensures IsRequest(keyType, blob, parses, data)
  {
    var r := Decode(data).value;
    EncodeDecode(data);
    var flag: Byte :| (r.signature <==> flag != 0) && data == Encode(r, flag);
    if r.way == HOSTBOUND {
      OnlyString(r.rest, DecodeOnlyString(r.rest).value);
    }
    assert TailOk(parses, r.way, r.rest);
    assert RequestParts(r.session, r.user, r.way);
    assert r == Request(r.session, 50, r.user, SSH_CONNECTION, r.way, true, ED25519, blob, r.rest);
  }

  lemma RequestIsRecognised(keyType: Bytes, blob: Bytes, parses: Bytes -> bool, data: Bytes)
    requires IsRequest(keyType, blob, parses, data)
    ensures Recognises(keyType, blob, parses, data)
  {
    var session: Bytes, user: Bytes, way: Bytes, rest: Bytes, flag: Byte :|
      RequestParts(session, user, way) && flag != 0 && TailOk(parses, way, rest) &&
      data == Encode(Request(session, 50, user, SSH_CONNECTION, way, true, ED25519, blob, rest), flag);
    DecodeEncode(Request(session, 50, user, SSH_CONNECTION, way, true, ED25519, blob, rest), flag);
    NamesDiffer();
    if way == HOSTBOUND {
      var host: Bytes :| |host| < TWO_32 && rest == EncodeString(host) && parses(host);
      OnlyString(rest, host);
    }
  }

  /** So a recognised request names its key and method unambiguously. */
  lemma RequestsAreUnambiguous(r1: Request, f1: Byte, r2: Request, f2: Byte)
    requires Fits(r1) && Fits(r2) && (r1.signature <==> f1 != 0) && (r2.signature <==> f2 != 0)
    requires Encode(r1, f1) == Encode(r2, f2)
    ensures r1 == r2
  {
    DecodeEncode(r1, f1);
    DecodeEncode(r2, f2);
  }

  // ---------------------------------------------------------------- the wire, byte by byte

  /** Lengths are four bytes, the most significant first. */
  lemma LengthsAreBigEndian(n: nat)
    requires n < 0x1_0000_0000
    ensures var b := EncodeLength(n);
            |b| == 4 && b[0] as int * 16_777_216 + b[1] as int * 65_536 + b[2] as int * 256 + b[3] as int == n
    ensures EncodeLength(699921578) == [0x29, 0xb7, 0xf4, 0xaa]
  {
    LengthRoundTrip(n, []);
    assert EncodeLength(n) + [] == EncodeLength(n);
  }

  /** One after the other. */
  function Laid(parts: seq<Bytes>): Bytes {
    if parts == [] then [] else parts[0] + Laid(parts[1..])
  }

  function PartsOf(fs: seq<Field>, rest: Bytes): seq<Bytes>
    requires forall f :: f in fs ==> FieldFits(f)
  {
    seq(|fs|, i requires 0 <= i < |fs| => assert fs[i] in fs; EncodeField(fs[i])) + [rest]
  }

  lemma {:induction false} FieldsAreLaid(fs: seq<Field>, rest: Bytes)
    requires forall f :: f in fs ==> FieldFits(f)
    ensures EncodeFields(fs) + rest == Laid(PartsOf(fs, rest))
  {
    if fs == [] {
      assert PartsOf(fs, rest) == [rest];
      assert Laid([rest]) == rest + Laid([]);
    } else {
      FieldsAreLaid(fs[1..], rest);
      assert PartsOf(fs, rest)[1..] == PartsOf(fs[1..], rest);
      AppendsAssociate(EncodeField(fs[0]), EncodeFields(fs[1..]), rest);
    }
  }

  /** The request as section 7 of RFC 4252 lays it out. */
  lemma EncodeIsOnTheWire(r: Request, flag: Byte)
    requires Fits(r)
    ensures Encode(r, flag) ==
            Laid([EncodeString(r.session), [r.message], EncodeString(r.user), EncodeString(r.service),
                  EncodeString(r.way), [flag], EncodeString(r.algorithm), EncodeString(r.key), r.rest])
  {
    FieldsAreLaid(FieldsOf(r, flag), r.rest);
    assert PartsOf(FieldsOf(r, flag), r.rest) ==
           [EncodeString(r.session), [r.message], EncodeString(r.user), EncodeString(r.service),
            EncodeString(r.way), [flag], EncodeString(r.algorithm), EncodeString(r.key), r.rest];
  }

  /** Such a request, for this session and user, by this method, with what that method adds. */
  predicate IsLogin(data: Bytes, blob: Bytes, session: Bytes, user: Bytes, way: Bytes, flag: Byte, rest: Bytes) {
    && 16 <= |session| < 0x1_0000_0000 && 1 <= |user| < 0x1_0000_0000 && |blob| < 0x1_0000_0000
    && |way| < 0x1_0000_0000 && flag != 0
    && data == Laid([EncodeString(session), [50], EncodeString(user), EncodeString(Ascii("ssh-connection")),
                     EncodeString(way), [flag], EncodeString(Ascii("ssh-ed25519")), EncodeString(blob), rest])
  }

  /** Byte by byte: what is signed is a login by an Ed25519 key, plain or bound to one host key, and nothing else. */
  lemma SignsLoginsExactly(keyType: Bytes, blob: Bytes, parses: Bytes -> bool, data: Bytes)
    ensures Recognises(keyType, blob, parses, data) <==>
            && |data| <= 16384 && keyType == Ascii("ssh-ed25519")
            && exists session: Bytes, user: Bytes, way: Bytes, flag: Byte, rest: Bytes ::
                 && IsLogin(data, blob, session, user, way, flag, rest)
                 && (|| (way == Ascii("publickey") && rest == [])
                     || (way == Ascii("publickey-hostbound-v00@openssh.com") &&
                         exists host: Bytes :: |host| < 0x1_0000_0000 && rest == EncodeString(host) && parses(host)))
  {
    RecogniserIsExact(keyType, blob, parses, data);
    forall session: Bytes, user: Bytes, way: Bytes, flag: Byte, rest: Bytes
      | RequestParts(session, user, way) && |blob| < TWO_32 && flag != 0
      ensures data == Encode(Request(session, 50, user, SSH_CONNECTION, way, true, ED25519, blob, rest), flag) <==>
              IsLogin(data, blob, session, user, way, flag, rest)
    {
      EncodeIsOnTheWire(Request(session, 50, user, SSH_CONNECTION, way, true, ED25519, blob, rest), flag);
    }
    if session: Bytes, user: Bytes, way: Bytes, flag: Byte, rest: Bytes :|
      IsLogin(data, blob, session, user, way, flag, rest) && TailOk(parses, way, rest)
    {
      assert RequestParts(session, user, way);
    }
  }
}
