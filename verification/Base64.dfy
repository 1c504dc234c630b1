/** Request, response and stream-chunk bytes travel between the host and the isolated
    worker as base64 text (RFC 4648, section 4). This module defines the platform's
    `btoa` and `atob` concretely and models the copy loops around them. */
module Base64 {
  import opened Wrappers

  type Byte = b: int | 0 <= b < 256
  type Sextet = v: int | 0 <= v < 64

  // ---------- the alphabet ----------

  function SextetChar(v: Sextet): char {
    if v < 26 then (v + 65) as char
    else if v < 52 then (v + 71) as char
    else if v < 62 then (v - 4) as char
    else if v == 62 then '+'
    else '/'
  }

  function CharSextet(c: char): Option<Sextet> {
    if 'A' <= c <= 'Z' then Some(c as int - 65)
    else if 'a' <= c <= 'z' then Some(c as int - 71)
    else if '0' <= c <= '9' then Some(c as int + 4)
    else if c == '+' then Some(62)
    else if c == '/' then Some(63)
    else None
  }

  /** Table 1 of RFC 4648: capital letters, small letters, digits, plus and slash. */
  predicate InTable(v: int, c: char) {
    || (v < 26 && c as int == 'A' as int + v)
    || (26 <= v < 52 && c as int == 'a' as int + v - 26)
    || (52 <= v < 62 && c as int == '0' as int + v - 52)
    || (v == 62 && c == '+')
    || (v == 63 && c == '/')
  }

  lemma AlphabetIs(v: Sextet)
    ensures InTable(v, SextetChar(v))
  {
  }

  lemma AlphabetRoundTrip(v: Sextet)
    ensures CharSextet(SextetChar(v)) == Some(v)
    ensures SextetChar(v) != '=' && !IsAsciiSpace(SextetChar(v))
  {
  }

  // ---------- bit regrouping ----------

  /** Three octets become four sextets; a tail of one or two octets is padded with zero bits. */
  function ToSextets(b: seq<Byte>): seq<Sextet> {
    if |b| == 0 then []
    else if |b| == 1 then [b[0] / 4, b[0] % 4 * 16]
    else if |b| == 2 then [b[0] / 4, b[0] % 4 * 16 + b[1] / 16, b[1] % 16 * 4]
    else [b[0] / 4, b[0] % 4 * 16 + b[1] / 16, b[1] % 16 * 4 + b[2] / 64, b[2] % 64] + ToSextets(b[3..])
  }

  /** The three octets spelled by four sextets, as separate digit expressions. */
  function Octet0(v0: Sextet, v1: Sextet): Byte { v0 * 4 + v1 / 16 }
  function Octet1(v1: Sextet, v2: Sextet): Byte { v1 % 16 * 16 + v2 / 4 }
  function Octet2(v2: Sextet, v3: Sextet): Byte { v2 % 4 * 64 + v3 }

  /** The inverse regrouping; left-over bits of a short tail are discarded, and a count that
      leaves a single sextet over is malformed. */
  function FromSextets(v: seq<Sextet>): Option<seq<Byte>> {
    if |v| == 0 then Some([])
    else if |v| == 1 then None
    else if |v| == 2 then Some([Octet0(v[0], v[1])])
    else if |v| == 3 then Some([Octet0(v[0], v[1]), Octet1(v[1], v[2])])
    else
      match FromSextets(v[4..])
      case None => None
      case Some(rest) => Some([Octet0(v[0], v[1]), Octet1(v[1], v[2]), Octet2(v[2], v[3])] + rest)
  }

  lemma {:induction false} RegroupRoundTrip(b: seq<Byte>)
    ensures FromSextets(ToSextets(b)) == Some(b)
  {
    if |b| >= 3 {
      RegroupRoundTrip(b[3..]);
      var v := ToSextets(b);
      assert v[4..] == ToSextets(b[3..]);
      assert Octet0(v[0], v[1]) == b[0];
      assert Octet1(v[1], v[2]) == b[1];
      assert Octet2(v[2], v[3]) == b[2];
      assert b == [b[0], b[1], b[2]] + b[3..];
    } else if |b| == 2 {
      var v := ToSextets(b);
      assert Octet0(v[0], v[1]) == b[0];
      assert Octet1(v[1], v[2]) == b[1];
      assert FromSextets(v).value == b;
    } else if |b| == 1 {
      var v := ToSextets(b);
      assert Octet0(v[0], v[1]) == b[0];
      assert FromSextets(v).value == b;
    }
  }

  /** Each group is one 24-bit number, read as three octets or as four sextets; a short group is
      followed by zero bits. */
  lemma GroupValue(b: seq<Byte>)
    ensures var v := ToSextets(b);
            && (|b| == 1 ==> OfSextets(v[0], v[1], 0, 0) == OfOctets(b[0], 0, 0))
            && (|b| == 2 ==> OfSextets(v[0], v[1], v[2], 0) == OfOctets(b[0], b[1], 0))
            && (|b| >= 3 ==> OfSextets(v[0], v[1], v[2], v[3]) == OfOctets(b[0], b[1], b[2]) && v[4..] == ToSextets(b[3..]))
  {
    if |b| >= 3 {
      var v := ToSextets(b);
      assert v[4..] == ToSextets(b[3..]);
      ThreeOctets(b[0], b[1], b[2]);
      assert OfSextets(v[0], v[1], v[2], v[3]) == OfOctets(b[0], b[1], b[2]);
    }
  }

  lemma ThreeOctets(x: int, y: int, z: int)
    ensures OfSextets(x / 4, x % 4 * 16 + y / 16, y % 16 * 4 + z / 64, z % 64) == OfOctets(x, y, z)
  {
  }

  function OfOctets(x: int, y: int, z: int): int {
    (x * 256 + y) * 256 + z
  }

  function OfSextets(x: int, y: int, z: int, w: int): int {
    ((x * 64 + y) * 64 + z) * 64 + w
  }

  lemma {:induction false} SextetCount(b: seq<Byte>)
    ensures |ToSextets(b)| == |b| / 3 * 4 + (if |b| % 3 == 0 then 0 else |b| % 3 + 1)
  {
    if |b| >= 3 {
      SextetCount(b[3..]);
    }
  }

  // ---------- text ----------

  function Chars(v: seq<Sextet>): string {
    seq(|v|, i requires 0 <= i < |v| => SextetChar(v[i]))
  }

  function Sextets(s: string): Option<seq<Sextet>> {
    if s == "" then Some([])
    else
      match CharSextet(s[0])
      case None => None
      case Some(v) =>
        match Sextets(s[1..])
        case None => None
        case Some(rest) => Some([v] + rest)
  }

  lemma {:induction false} TextRoundTrip(v: seq<Sextet>)
    ensures Sextets(Chars(v)) == Some(v)
  {
    if v != [] {
      AlphabetRoundTrip(v[0]);
      TextRoundTrip(v[1..]);
      assert Chars(v)[1..] == Chars(v[1..]);
      assert v == [v[0]] + v[1..];
    }
  }

  predicate IsAsciiSpace(c: char) {
    c == '\t' || c == '\n' || c == 12 as char || c == '\r' || c == ' '
  }

  function StripSpace(s: string): string {
    if s == "" then ""
    else if IsAsciiSpace(s[0]) then StripSpace(s[1..])
    else [s[0]] + StripSpace(s[1..])
  }

  lemma {:induction false} StripSpaceId(s: string)
    requires forall c :: c in s ==> !IsAsciiSpace(c)
    ensures StripSpace(s) == s
  {
    if s != "" {
      StripSpaceId(s[1..]);
    }
  }

  function Padding(n: nat): string {
    if n % 3 == 0 then "" else if n % 3 == 1 then "==" else "="
  }

  function StripPadding(s: string): string {
    if |s| % 4 != 0 || s == "" || s[|s| - 1] != '=' then s
    else if s[|s| - 2] == '=' then s[..|s| - 2]
    else s[..|s| - 1]
  }

  /** RFC 4648, section 4, on octets. */
  function Encode(b: seq<Byte>): string {
    Chars(ToSextets(b)) + Padding(|b|)
  }

  /** Code units of a "binary string"; None when some unit does not fit an octet. */
  function Codes(s: string): Option<seq<Byte>> {
    if forall i :: 0 <= i < |s| ==> s[i] as int < 256
    then Some(seq(|s|, i requires 0 <= i < |s| => s[i] as int))
    else None
  }

  function BinaryString(b: seq<Byte>): string {
    seq(|b|, i requires 0 <= i < |b| => b[i] as char)
  }

  /** `btoa`: throws (None) on a code unit above 255. */
  function Btoa(s: string): Option<string> {
    match Codes(s)
    case None => None
    case Some(b) => Some(Encode(b))
  }

  /** `atob`: the forgiving decoder; None where the platform throws. */
  function Atob(s: string): Option<string> {
    var t := StripPadding(StripSpace(s));
    match Sextets(t)
    case None => None
    case Some(v) =>
      match FromSextets(v)
      case None => None
      case Some(b) => Some(BinaryString(b))
  }

  lemma CodesOfBinary(b: seq<Byte>)
    ensures Codes(BinaryString(b)) == Some(b)
  {
    assert Codes(BinaryString(b)).value == b;
  }

  lemma StripPaddingOf(c: string, p: string)
    requires forall i :: 0 <= i < |c| ==> c[i] != '='
    requires p == "" || p == "=" || p == "=="
    requires (|c| + |p|) % 4 == 0
    requires |p| == 2 ==> c != ""
    ensures StripPadding(c + p) == c
  {
    var s := c + p;
    assert s[..|c|] == c;
    if p == "" {
      assert s == c;
    } else if p == "=" {
      assert c != "";
      assert s[|s| - 2] == c[|c| - 1];
    }
  }

  lemma PaddedLength(n: nat)
    ensures n / 3 * 4 + (if n % 3 == 0 then 0 else n % 3 + 1) + |Padding(n)| == (n + 2) / 3 * 4
  {
  }

  lemma PaddedText(v: seq<Sextet>, n: nat)
    requires |v| == n / 3 * 4 + (if n % 3 == 0 then 0 else n % 3 + 1)
    ensures |Chars(v) + Padding(n)| == (n + 2) / 3 * 4
    ensures StripSpace(Chars(v) + Padding(n)) == Chars(v) + Padding(n)
    ensures StripPadding(Chars(v) + Padding(n)) == Chars(v)
  {
    forall i | 0 <= i < |v|
      ensures Chars(v)[i] != '=' && !IsAsciiSpace(Chars(v)[i])
    {
      AlphabetRoundTrip(v[i]);
    }
    StripSpaceId(Chars(v) + Padding(n));
    PaddedLength(n);
    StripPaddingOf(Chars(v), Padding(n));
  }

  lemma AtobCore(s: string, v: seq<Sextet>, b: seq<Byte>)
    requires StripPadding(StripSpace(s)) == Chars(v)
    requires FromSextets(v) == Some(b)
    ensures Atob(s) == Some(BinaryString(b))
  {
    TextRoundTrip(v);
  }

  lemma AtobOfPadded(v: seq<Sextet>, n: nat, b: seq<Byte>)
    requires |v| == n / 3 * 4 + (if n % 3 == 0 then 0 else n % 3 + 1)
    requires FromSextets(v) == Some(b)
    ensures Atob(Chars(v) + Padding(n)) == Some(BinaryString(b))
  {
    PaddedText(v, n);
    AtobCore(Chars(v) + Padding(n), v, b);
  }

  /** Bytes survive `btoa` followed by `atob`. */
  lemma AtobBtoa(b: seq<Byte>)
    ensures Btoa(BinaryString(b)) == Some(Encode(b))
    ensures Atob(Encode(b)) == Some(BinaryString(b))
  {
    CodesOfBinary(b);
    SextetCount(b);
    RegroupRoundTrip(b);
    AtobOfPadded(ToSextets(b), |b|, b);
  }

  // ---------- the loops around the platform calls ----------

  /** The worker's encode loop: appends one character per octet, then `btoa`. */
  method EncodeBody(body: array<Byte>) returns (base64: string)
    ensures base64 == Encode(body[..])
  {
    var binary := "";
    for i := 0 to body.Length
      invariant binary == BinaryString(body[..i])
    {
      assert body[..i + 1] == body[..i] + [body[i]];
      binary := binary + [body[i] as char];
    }
    assert body[..body.Length] == body[..];
    AtobBtoa(body[..]);
    base64 := Btoa(binary).value;
  }

  /** The host's decode loop: `atob`, then one octet per character into a fresh array.
      None is the exception `atob` throws. */
  method DecodeBody(base64: string) returns (bytes: Option<array<Byte>>)
    ensures bytes.None? <==> DecodedBytes(base64).None?
    ensures bytes.Some? ==> fresh(bytes.value) && bytes.value[..] == DecodedBytes(base64).value
  {
    var bin := Atob(base64);
    if bin.None? {
      return None;
    }
    DecodedUnits(base64);
    var arr := new Byte[|bin.value|];
    for i := 0 to |bin.value|
      invariant forall j :: 0 <= j < i ==> arr[j] == bin.value[j] as int
    {
      arr[i] := bin.value[i] as int;
    }
    assert arr[..] == DecodedBytes(base64).value;
    bytes := Some(arr);
  }

  /** What a receiver of base64 text reconstructs. */
  function DecodedBytes(base64: string): Option<seq<Byte>> {
    match Atob(base64)
    case None => None
    case Some(bin) => Codes(bin)
  }

  lemma DecodedUnits(base64: string)
    requires Atob(base64).Some?
    ensures forall i :: 0 <= i < |Atob(base64).value| ==> Atob(base64).value[i] as int < 256
    ensures DecodedBytes(base64).Some?
    ensures |DecodedBytes(base64).value| == |Atob(base64).value|
  {
  }

  /** Every byte sequence survives the encode loop, base64 and the decode loop: the buffered
      response, streamed chunk and request paths all compose exactly these two steps. */
  lemma BodyIdentity(body: seq<Byte>)
    ensures DecodedBytes(Encode(body)) == Some(body)
  {
    AtobBtoa(body);
    CodesOfBinary(body);
  }

  /** Different bodies never share an encoding. */
  lemma EncodeInjective(a: seq<Byte>, b: seq<Byte>)
    requires Encode(a) == Encode(b)
    ensures a == b
  {
    BodyIdentity(a);
    BodyIdentity(b);
  }

  /** The encoded text: one character of the alphabet for each sextet, filled up with `=` to a
      multiple of four. */
  lemma EncodeShape(b: seq<Byte>)
    ensures var s, v := Encode(b), ToSextets(b);
            && |s| == (|b| + 2) / 3 * 4 && |v| <= |s|
            && (forall i :: 0 <= i < |v| ==> InTable(v[i], s[i]))
            && (forall i :: |v| <= i < |s| ==> s[i] == '=')
  {
    SextetCount(b);
    forall i | 0 <= i < |ToSextets(b)| ensures InTable(ToSextets(b)[i], Encode(b)[i]) {
      AlphabetIs(ToSextets(b)[i]);
    }
  }
}
