/** The route list in transit: the page's encoder (routesWire) and the helper's strict decoder (wireRoutes).
    Page strings are UTF-16 code units; byte strings hold one character per byte. */
module Wire {
  import opened Wrappers
  import opened Routes

  predicate IsBytes(b: string) {
    forall i | 0 <= i < |b| :: b[i] as nat < 256
  }

  // ---- base64url without padding, sections 3.5 and 5 of RFC 4648 ---------------------------

  function SextetChar(v: nat): (c: char)
    requires v < 64
  {
    if v < 26 then ('A' as int + v) as char
    else if v < 52 then ('a' as int + v - 26) as char
    else if v < 62 then ('0' as int + v - 52) as char
    else if v == 62 then '-' else '_'
  }

  /** 64 when the character is outside the alphabet. */
  function SextetValue(c: char): (v: nat)
    ensures v <= 64
  {
    if 'A' <= c <= 'Z' then c as int - 'A' as int
    else if 'a' <= c <= 'z' then c as int - 'a' as int + 26
    else if '0' <= c <= '9' then c as int - '0' as int + 52
    else if c == '-' then 62 else if c == '_' then 63 else 64
  }

  lemma SextetInverse(v: nat, c: char)
    requires v < 64
    ensures SextetValue(SextetChar(v)) == v
    ensures SextetValue(c) < 64 ==> SextetChar(SextetValue(c)) == c
  {
  }

  /** Three bytes and four sextets carry the same 24 bits. */
  lemma Pack(x: nat, y: nat, z: nat)
    requires x < 256 && y < 256 && z < 256
    ensures var v, w, u, t := x / 4, x % 4 * 16 + y / 16, y % 16 * 4 + z / 64, z % 64;
      && v < 64 && w < 64 && u < 64 && t < 64
      && v * 4 + w / 16 == x && w % 16 * 16 + u / 4 == y && u % 4 * 64 + t == z
  {
  }

  lemma Unpack(v: nat, w: nat, u: nat, t: nat)
    requires v < 64 && w < 64 && u < 64 && t < 64
    ensures var x, y, z := v * 4 + w / 16, w % 16 * 16 + u / 4, u % 4 * 64 + t;
      && x < 256 && y < 256 && z < 256
      && x / 4 == v && x % 4 * 16 + y / 16 == w && y % 16 * 4 + z / 64 == u && z % 64 == t
  {
  }

  /** Three bytes as four characters. */
  function Quad(x: char, y: char, z: char): (s: string)
    requires x as nat < 256 && y as nat < 256 && z as nat < 256
    ensures |s| == 4
  {
    var x, y, z := x as nat, y as nat, z as nat;
    [SextetChar(x / 4), SextetChar(x % 4 * 16 + y / 16), SextetChar(y % 16 * 4 + z / 64), SextetChar(z % 64)]
  }

  /** Four characters as three bytes. */
  function Triple(s: string): (b: string)
    requires |s| == 4 && InAlphabet(s)
    ensures |b| == 3 && IsBytes(b)
  {
    var v, w, u, t := SextetValue(s[0]), SextetValue(s[1]), SextetValue(s[2]), SextetValue(s[3]);
    [(v * 4 + w / 16) as char, (w % 16 * 16 + u / 4) as char, (u % 4 * 64 + t) as char]
  }

  lemma TripleOfQuad(x: char, y: char, z: char)
    requires x as nat < 256 && y as nat < 256 && z as nat < 256
    ensures InAlphabet(Quad(x, y, z)) && Triple(Quad(x, y, z)) == [x, y, z]
    ensures z as nat == 0 ==> SextetValue(Quad(x, y, z)[2]) % 4 == 0 && Quad(x, y, z)[3] == 'A'
    ensures y as nat == z as nat == 0 ==> SextetValue(Quad(x, y, z)[1]) % 16 == 0 && Quad(x, y, z)[2] == 'A'
  {
    Pack(x as nat, y as nat, z as nat);
    forall v: nat | v < 64 ensures SextetValue(SextetChar(v)) == v { SextetInverse(v, ' '); }
  }

  lemma UnusedBits(s: string)
    requires |s| == 4 && InAlphabet(s)
    ensures SextetValue(s[2]) % 4 == 0 && s[3] == 'A' ==> Triple(s)[2] as nat == 0
    ensures SextetValue(s[1]) % 16 == 0 && s[2] == s[3] == 'A' ==> Triple(s)[1] as nat == Triple(s)[2] as nat == 0
  {
    assert SextetValue('A') == 0;
    hide SextetValue;
  }

  lemma QuadOfTriple(s: string)
    requires |s| == 4 && InAlphabet(s)
    ensures var b := Triple(s); Quad(b[0], b[1], b[2]) == s
  {
    hide SextetValue, SextetChar;
    Unpack(SextetValue(s[0]), SextetValue(s[1]), SextetValue(s[2]), SextetValue(s[3]));
    forall i | 0 <= i < 4 ensures SextetChar(SextetValue(s[i])) == s[i] { SextetInverse(0, s[i]); }
  }

  const NUL: char := 0 as char

  /** btoa with the URL alphabet and the padding removed. */
  function Encode64(b: string): string
    requires IsBytes(b)
  {
    if |b| == 0 then ""
    else if |b| == 1 then Quad(b[0], NUL, NUL)[..2]
    else if |b| == 2 then Quad(b[0], b[1], NUL)[..3]
    else Quad(b[0], b[1], b[2]) + Encode64(b[3..])
  }

  predicate InAlphabet(s: string) {
    forall i | 0 <= i < |s| :: SextetValue(s[i]) < 64
  }

  /** Strict decoding: no padding, no stray character, and unused trailing bits are zero. */
  function Decode64(s: string): (b: Option<string>)
    requires InAlphabet(s)
    ensures b.Some? ==> IsBytes(b.value)
  {
    if |s| == 0 then Some("")
    else if |s| == 1 then None
    else if |s| == 2 then if SextetValue(s[1]) % 16 == 0 then Some(Triple(s + "AA")[..1]) else None
    else if |s| == 3 then if SextetValue(s[2]) % 4 == 0 then Some(Triple(s + "A")[..2]) else None
    else match Decode64(s[4..])
      case None => None
      case Some(rest) => Some(Triple(s[..4]) + rest)
  }

  lemma {:induction false} DecodeEncode(b: string)
    requires IsBytes(b)
    ensures InAlphabet(Encode64(b)) && Decode64(Encode64(b)) == Some(b)
  {
    hide Quad, Triple, SextetValue, SextetChar;
    assert NUL as nat == 0;
    var s := Encode64(b);
    if |b| == 1 {
      TripleOfQuad(b[0], NUL, NUL);
      assert s + "AA" == Quad(b[0], NUL, NUL) && b == [b[0]];
      assert Triple(s + "AA")[..1] == b;
    } else if |b| == 2 {
      TripleOfQuad(b[0], b[1], NUL);
      assert s + "A" == Quad(b[0], b[1], NUL) && b == [b[0], b[1]];
      assert Triple(s + "A")[..2] == b;
    } else if |b| > 2 {
      TripleOfQuad(b[0], b[1], b[2]);
      assert s[..4] == Quad(b[0], b[1], b[2]) && s[4..] == Encode64(b[3..]);
      DecodeEncode(b[3..]);
      assert b == [b[0], b[1], b[2]] + b[3..];
    }
  }

  /** A byte string has exactly one accepted encoding. */
  lemma {:induction false} EncodeDecode(s: string)
    requires InAlphabet(s) && Decode64(s).Some?
    ensures Encode64(Decode64(s).value) == s
  {
    hide Quad, Triple, SextetChar;
    var b := Decode64(s).value;
    if |s| == 2 {
      QuadOfTriple(s + "AA");
      UnusedBits(s + "AA");
    } else if |s| == 3 {
      QuadOfTriple(s + "A");
      UnusedBits(s + "A");
    } else if |s| > 3 {
      QuadOfTriple(s[..4]);
      EncodeDecode(s[4..]);
      assert b[3..] == Decode64(s[4..]).value;
      assert s == s[..4] + s[4..];
    }
  }

  /** RawURLEncoding.EncodedLen. */
  lemma {:induction false} EncodedLength(b: string)
    requires IsBytes(b)
    ensures |Encode64(b)| == (|b| * 8 + 5) / 6
  {
    hide Quad;
    if |b| > 2 {
      EncodedLength(b[3..]);
    }
  }

  // ---- UTF-8, section 3 of RFC 3629 ---------------------------------------------------------

  predicate IsScalar(p: nat) {
    p < 0xD800 || 0xE000 <= p <= 0x10FFFF
  }

  function Utf8Char(p: nat): (b: string)
    requires IsScalar(p)
    ensures IsBytes(b) && 1 <= |b| <= 4
  {
    if p < 0x80 then [p as char]
    else if p < 0x800 then [(0xC0 + p / 64) as char, (0x80 + p % 64) as char]
    else if p < 0x10000 then
      [(0xE0 + p / 4096) as char, (0x80 + p / 64 % 64) as char, (0x80 + p % 64) as char]
    else
      [(0xF0 + p / 262144) as char, (0x80 + p / 4096 % 64) as char, (0x80 + p / 64 % 64) as char, (0x80 + p % 64) as char]
  }

  function Utf8(points: seq<nat>): (b: string)
    requires forall p | p in points :: IsScalar(p)
    ensures IsBytes(b)
  {
    if points == [] then "" else Utf8Char(points[0]) + Utf8(points[1..])
  }

  predicate Tail(c: char) {
    0x80 <= c as nat <= 0xBF
  }

  /** The length of the well-formed character that `b` starts with (section 4 of RFC 3629), or 0. */
  function CharLength(b: string): (n: nat)
    ensures n <= |b| && n <= 4
  {
    if b == "" then 0
    else
      var x := b[0] as nat;
      if x < 0x80 then 1
      else if 0xC2 <= x <= 0xDF then if |b| >= 2 && Tail(b[1]) then 2 else 0
      else if 0xE0 <= x <= 0xEF then
        if |b| >= 3 && Tail(b[1]) && Tail(b[2]) && (x == 0xE0 ==> b[1] as nat >= 0xA0) && (x == 0xED ==> b[1] as nat <= 0x9F)
        then 3 else 0
      else if 0xF0 <= x <= 0xF4 then
        if |b| >= 4 && Tail(b[1]) && Tail(b[2]) && Tail(b[3]) && (x == 0xF0 ==> b[1] as nat >= 0x90) && (x == 0xF4 ==> b[1] as nat <= 0x8F)
        then 4 else 0
      else 0
  }

  /** utf8.Valid. */
  predicate ValidUtf8(b: string) {
    b == "" || (CharLength(b) > 0 && ValidUtf8(b[CharLength(b)..]))
  }

  lemma Utf8CharLength(p: nat, rest: string)
    requires IsScalar(p)
    ensures CharLength(Utf8Char(p) + rest) == |Utf8Char(p)|
  {
    var b := Utf8Char(p) + rest;
    if p < 0x80 {
    } else if p < 0x800 {
      assert 0xC2 <= b[0] as nat <= 0xDF && Tail(b[1]);
    } else if p < 0x10000 {
      assert 0xE0 <= b[0] as nat <= 0xEF && Tail(b[1]) && Tail(b[2]);
    } else {
      assert 0xF0 <= b[0] as nat <= 0xF4 && Tail(b[1]) && Tail(b[2]) && Tail(b[3]);
    }
  }

  /** The bytes of scalar values are well formed. */
  lemma {:induction false} Utf8IsValid(points: seq<nat>)
    requires forall p | p in points :: IsScalar(p)
    ensures ValidUtf8(Utf8(points))
  {
    hide Utf8Char, CharLength;
    if points != [] {
      var c, rest := Utf8Char(points[0]), Utf8(points[1..]);
      Utf8CharLength(points[0], rest);
      assert (c + rest)[|c|..] == rest;
      Utf8IsValid(points[1..]);
    }
  }

  lemma Base64Digits(a: nat, b: nat, c: nat, d: nat)
    requires b < 64 && c < 64 && d < 64
    ensures var p := ((a * 64 + b) * 64 + c) * 64 + d;
      p % 64 == d && p / 64 % 64 == c && p / 4096 % 64 == b && p / 262144 == a && p / 4096 == a * 64 + b && p / 64 == (a * 64 + b) * 64 + c
  {
  }

  /** The value the well-formed character that `b` starts with encodes. */
  function Utf8Point(b: string): nat
    requires CharLength(b) > 0
  {
    var x := b[0] as nat;
    if CharLength(b) == 1 then x
    else if CharLength(b) == 2 then (x - 0xC0) * 64 + (b[1] as nat - 0x80)
    else if CharLength(b) == 3 then ((x - 0xE0) * 64 + (b[1] as nat - 0x80)) * 64 + (b[2] as nat - 0x80)
    else (((x - 0xF0) * 64 + (b[1] as nat - 0x80)) * 64 + (b[2] as nat - 0x80)) * 64 + (b[3] as nat - 0x80)
  }

  lemma PointIsScalar(b: string)
    requires CharLength(b) > 0
    ensures IsScalar(Utf8Point(b))
  {
  }

  lemma CharOfPoint(b: string)
    requires CharLength(b) > 0
    ensures IsScalar(Utf8Point(b)) && Utf8Char(Utf8Point(b)) == b[..CharLength(b)]
  {
    PointIsScalar(b);
    match CharLength(b) {
      case 2 => CharOfTwo(b);
      case 3 => CharOfThree(b);
      case 4 => CharOfFour(b);
      case _ =>
    }
  }

  lemma CharOfTwo(b: string)
    requires CharLength(b) == 2
    ensures IsScalar(Utf8Point(b)) && Utf8Char(Utf8Point(b)) == b[..2]
  {
    PointIsScalar(b);
    Base64Digits(0, 0, b[0] as nat - 0xC0, b[1] as nat - 0x80);
  }

  lemma CharOfThree(b: string)
    requires CharLength(b) == 3
    ensures IsScalar(Utf8Point(b)) && Utf8Char(Utf8Point(b)) == b[..3]
  {
    PointIsScalar(b);
    Base64Digits(0, b[0] as nat - 0xE0, b[1] as nat - 0x80, b[2] as nat - 0x80);
  }

  lemma CharOfFour(b: string)
    requires CharLength(b) == 4
    ensures IsScalar(Utf8Point(b)) && Utf8Char(Utf8Point(b)) == b[..4]
  {
    PointIsScalar(b);
    Base64Digits(b[0] as nat - 0xF0, b[1] as nat - 0x80, b[2] as nat - 0x80, b[3] as nat - 0x80);
  }

  lemma FromDigits(p: nat)
    ensures p == p / 64 * 64 + p % 64
    ensures p == (p / 4096 * 64 + p / 64 % 64) * 64 + p % 64
    ensures p == ((p / 262144 * 64 + p / 4096 % 64) * 64 + p / 64 % 64) * 64 + p % 64
  {
    assert p / 64 == p / 4096 * 64 + p / 64 % 64 && p / 4096 == p / 262144 * 64 + p / 4096 % 64;
  }

  lemma PointOfChar(p: nat, rest: string)
    requires IsScalar(p)
    ensures CharLength(Utf8Char(p) + rest) == |Utf8Char(p)|
    ensures Utf8Point(Utf8Char(p) + rest) == p
  {
    hide CharLength;
    Utf8CharLength(p, rest);
    FromDigits(p);
  }

  function Points(b: string): (points: seq<nat>)
    requires ValidUtf8(b)
    ensures forall p | p in points :: IsScalar(p)
  {
    if b == "" then [] else
      PointIsScalar(b);
      [Utf8Point(b)] + Points(b[CharLength(b)..])
  }

  lemma {:induction false} Utf8OfPoints(b: string)
    requires ValidUtf8(b)
    ensures Utf8(Points(b)) == b
  {
    hide Utf8Char, Utf8Point, CharLength;
    if b != "" {
      CharOfPoint(b);
      Utf8OfPoints(b[CharLength(b)..]);
      assert b == b[..CharLength(b)] + b[CharLength(b)..];
    }
  }

  lemma {:induction false} PointsOfUtf8(points: seq<nat>)
    requires forall p | p in points :: IsScalar(p)
    ensures ValidUtf8(Utf8(points)) && Points(Utf8(points)) == points
  {
    hide Utf8Char, Utf8Point, CharLength;
    Utf8IsValid(points);
    if points != [] {
      var c, rest := Utf8Char(points[0]), Utf8(points[1..]);
      PointOfChar(points[0], rest);
      assert (c + rest)[|c|..] == rest;
      PointsOfUtf8(points[1..]);
    }
  }

  // ---- The page and the helper ---------------------------------------------------------------

  predicate IsUtf16(units: seq<nat>) {
    forall i | 0 <= i < |units| :: units[i] < 0x10000
  }

  predicate High(u: nat) { 0xD800 <= u <= 0xDBFF }
  predicate Low(u: nat) { 0xDC00 <= u <= 0xDFFF }

  /** The code points of UTF-16 text, a lone surrogate read as U+FFFD. */
  function CodePoints(units: seq<nat>): (points: seq<nat>)
    requires IsUtf16(units)
    ensures forall p | p in points :: IsScalar(p)
  {
    if units == [] then []
    else if |units| >= 2 && High(units[0]) && Low(units[1]) then
      [0x10000 + (units[0] - 0xD800) * 1024 + (units[1] - 0xDC00)] + CodePoints(units[2..])
    else [if High(units[0]) || Low(units[0]) then 0xFFFD else units[0]] + CodePoints(units[1..])
  }

  /** routesWire in the page. */
  function RoutesWire(units: seq<nat>): string
    requires IsUtf16(units)
  {
    "b64." + Encode64(Utf8(CodePoints(units)))
  }

  function Refuse(reason: Reason): Result<string, RouteError> {
    Err(RouteError(1, "(encoded)", reason))
  }

  /** wireRoutes in the helper: a chain of gates before customRoutes. */
  function WireRoutes(encoded: string): Result<string, RouteError> {
    if !("b64." <= encoded) then Refuse(BadTransport)
    else
      var payload := encoded[4..];
      if |payload| > (MAX_BYTES * 8 + 5) / 6 then Refuse(TooLong)
      else if !InAlphabet(payload) then Refuse(BadTransport)
      else match Decode64(payload)
        case None => Refuse(BadTransport)
        case Some(decoded) => if ValidUtf8(decoded) then Canonical(decoded) else Refuse(BadTransport)
  }

  /** Whatever the user typed, the helper validates exactly its UTF-8 text, unless that text is over
      2048 bytes; then, and only then, it is refused as too long before decoding. */
  lemma TransportIsExact(units: seq<nat>)
    requires IsUtf16(units)
    ensures var text := Utf8(CodePoints(units));
      && ValidUtf8(text) && Points(text) == CodePoints(units)
      && WireRoutes(RoutesWire(units)) == if |text| <= MAX_BYTES then Canonical(text) else Refuse(TooLong)
  {
    var text := Utf8(CodePoints(units));
    PointsOfUtf8(CodePoints(units));
    EncodedLength(text);
    DecodeEncode(text);
    assert RoutesWire(units)[4..] == Encode64(text);
  }

  /** Two encodings the helper decodes to the same list are the same string. */
  lemma OneEncodingPerList(a: string, b: string)
    requires InAlphabet(a) && InAlphabet(b) && Decode64(a).Some? && Decode64(a) == Decode64(b)
    ensures a == b
  {
    EncodeDecode(a);
    EncodeDecode(b);
  }

  /** The payload gate admits exactly the encodings of at most 2048 bytes. */
  lemma GateIsExact(payload: string)
    requires InAlphabet(payload) && Decode64(payload).Some?
    ensures |payload| <= 2731 <==> |Decode64(payload).value| <= MAX_BYTES
  {
    EncodeDecode(payload);
    EncodedLength(Decode64(payload).value);
  }
}
