/** Parsing and printing of addresses and prefixes, as net/netip does it for the helper. */
module NetipText {
  import opened Wrappers
  import opened Text
  import opened Netip

  // ---- Fields of an address --------------------------------------------------------

  predicate Below(fields: seq<nat>, base: nat) {
    forall i | 0 <= i < |fields| :: fields[i] < base
  }

  predicate ZeroRun(g: seq<nat>, i: nat, j: nat)
    requires j <= |g|
  {
    forall k | i <= k < j :: g[k] == 0
  }

  /** The last `n` digits of `value`, most significant first. */
  function Fields(value: nat, base: nat, n: nat): (fields: seq<nat>)
    requires IsRadix(base)
    ensures |fields| == n && Below(fields, base)
  {
    DivideBy(value, base);
    if n == 0 then [] else Fields(value / base, base, n - 1) + [value % base]
  }

  function FieldsValue(fields: seq<nat>, base: nat): nat {
    if fields == [] then 0 else FieldsValue(fields[..|fields| - 1], base) * base + fields[|fields| - 1]
  }

  lemma {:induction false} FieldsRoundTrip(value: nat, base: nat, n: nat)
    requires IsRadix(base) && value < Power(base, n)
    ensures FieldsValue(Fields(value, base, n), base) == value
    decreases n
  {
    DivideBy(value, base);
    if n > 0 {
      var init := Fields(value / base, base, n - 1);
      QuotientLess(value, base, Power(base, n - 1));
      FieldsRoundTrip(value / base, base, n - 1);
      assert (init + [value % base])[..n - 1] == init;
    }
  }

  // ---- Parsing -----------------------------------------------------------------------

  /** A decimal number up to `max` without sign or leading zeros. */
  function ParseDecimal(s: string, max: nat): Option<nat> {
    if IsNumeral(s, 10) && (|s| == 1 || s[0] != '0') && NumeralValue(s, 10) <= max then Some(NumeralValue(s, 10))
    else None
  }

  function ParseOctets(parts: seq<string>): Option<seq<nat>> {
    if parts == [] then Some([])
    else match (ParseDecimal(parts[0], 255), ParseOctets(parts[1..]))
      case (Some(o), Some(rest)) => Some([o] + rest)
      case _ => None
  }

  /** Exactly four octets. */
  function ParseDotted(s: string): Option<seq<nat>> {
    var parts := Split(s, '.');
    if |parts| != 4 then None else ParseOctets(parts)
  }

  function ParseGroup(s: string): Option<nat> {
    if IsNumeral(s, 16) && |s| <= 4 then Some(NumeralValue(s, 16)) else None
  }

  /** The 16-bit groups of colon-separated fields; only the very last field may be a dotted IPv4 address. */
  function ParseGroups(parts: seq<string>, last: bool): Option<seq<nat>>
    requires |parts| > 0
  {
    if |parts| == 1 then
      if last && '.' in parts[0] then
        match ParseDotted(parts[0])
        case Some(o) => if |o| == 4 then Some([o[0] * 256 + o[1], o[2] * 256 + o[3]]) else None
        case None => None
      else
        match ParseGroup(parts[0])
        case Some(g) => Some([g])
        case None => None
    else
      match (ParseGroup(parts[0]), ParseGroups(parts[1..], last))
      case (Some(g), Some(rest)) => Some([g] + rest)
      case _ => None
  }

  function ParseSide(s: string, last: bool): Option<seq<nat>> {
    if s == "" then Some([]) else ParseGroups(Split(s, ':'), last)
  }

  /** The position of the first "::", or the length when there is none. */
  function Ellipsis(s: string): (i: nat)
    ensures i <= |s|
    ensures i < |s| ==> i + 2 <= |s|
  {
    if |s| < 2 then |s|
    else if s[0] == ':' && s[1] == ':' then 0
    else 1 + Ellipsis(s[1..])
  }

  function Zeros(n: nat): (z: seq<nat>)
    ensures |z| == n && forall i | 0 <= i < n :: z[i] == 0
  {
    if n == 0 then [] else [0] + Zeros(n - 1)
  }

  function Expand(left: Option<seq<nat>>, right: Option<seq<nat>>): Option<seq<nat>> {
    if left.Some? && right.Some? && |left.value| + |right.value| <= 7 then
      Some(left.value + Zeros(8 - |left.value| - |right.value|) + right.value)
    else None
  }

  /** Eight groups, or fewer around one "::" that stands for at least one group of zeros. */
  function ParseHexadectet(s: string): Option<seq<nat>> {
    var i := Ellipsis(s);
    if i == |s| then
      match ParseGroups(Split(s, ':'), true)
      case Some(g) => if |g| == 8 then Some(g) else None
      case None => None
    else
      Expand(ParseSide(s[..i], false), ParseSide(s[i + 2..], true))
  }

  function ParseAddr(s: string): Option<Addr> {
    if ':' in s then
      match ParseHexadectet(s)
      case Some(g) => Some(Addr(true, FieldsValue(g, 65536)))
      case None => None
    else if '.' in s then
      match ParseDotted(s)
      case Some(o) => Some(Addr(false, FieldsValue(o, 256)))
      case None => None
    else None
  }

  /** netip.ParsePrefix: an address, one slash and a length; zones are not accepted. */
  function ParsePrefix(s: string): Option<Prefix> {
    var parts := Split(s, '/');
    if |parts| != 2 then None
    else match ParseAddr(parts[0])
      case None => None
      case Some(a) =>
        match ParseDecimal(parts[1], Width(a.v6))
        case Some(bits) => Some(Prefix(a, bits))
        case None => None
  }

  // ---- Printing ------------------------------------------------------------------------

  function Texts(fields: seq<nat>, base: nat): (texts: seq<string>)
    requires base == 10 || base == 16
    ensures |texts| == |fields|
    ensures forall t | t in texts :: IsNumeral(t, base)
  {
    if fields == [] then [] else [Numeral(fields[0], base)] + Texts(fields[1..], base)
  }

  function Dotted(value: nat): string {
    Join(Texts(Fields(value, 256, 4), 10), '.')
  }

  /** Where the run of zero groups that starts at `i` ends. */
  function RunEnd(g: seq<nat>, i: nat): (j: nat)
    requires i <= |g|
    ensures i <= j <= |g|
    ensures ZeroRun(g, i, j)
    ensures forall b: nat | b <= |g| && ZeroRun(g, i, b) :: b <= j
    decreases |g| - i
  {
    assert forall b: nat | i < b <= |g| && ZeroRun(g, i, b) :: ZeroRun(g, i + 1, b);
    if i < |g| && g[i] == 0 then RunEnd(g, i + 1) else i
  }

  /** The run to shorten: scanned from `i`, replaced only by a strictly longer one of two or more. */
  function Scan(g: seq<nat>, i: nat, best: (nat, nat)): (run: (nat, nat))
    requires i <= |g| && best.0 <= best.1 <= |g|
    ensures run.0 <= run.1 <= |g|
    decreases |g| - i
  {
    if i == |g| then best
    else
      var j := RunEnd(g, i);
      Scan(g, i + 1, if j - i >= 2 && j - i > best.1 - best.0 then (i, j) else best)
  }

  function Hexadectet(g: seq<nat>): string {
    var run := Scan(g, 0, (0, 0));
    if run.0 == run.1 then Join(Texts(g, 16), ':')
    else Join(Texts(g[..run.0], 16), ':') + "::" + Join(Texts(g[run.1..], 16), ':')
  }

  /** An IPv6 address that carries an IPv4 address, ::ffff:0:0/96. */
  predicate Mapped(a: Addr) {
    a.v6 && a.value / 0x1_0000_0000 == 0xffff
  }

  function AddrText(a: Addr): string {
    if !a.v6 then Dotted(a.value)
    else if Mapped(a) then "::ffff:" + Dotted(a.value % 0x1_0000_0000)
    else Hexadectet(Fields(a.value, 65536, 8))
  }

  function PrefixText(p: Prefix): string {
    AddrText(p.addr) + "/" + Numeral(p.bits, 10)
  }

  // ---- Round trip ----------------------------------------------------------------------

  lemma {:induction false} TextsClean(fields: seq<nat>, base: nat, c: char)
    requires (base == 10 || base == 16) && DigitValue(c) >= base
    ensures forall t | t in Texts(fields, base) :: c !in t
  {
  }

  lemma DecimalRoundTrip(v: nat, max: nat)
    requires v <= max
    ensures ParseDecimal(Numeral(v, 10), max) == Some(v)
  {
    NumeralRoundTrip(v, 10);
  }

  lemma {:induction false} OctetsRoundTrip(fields: seq<nat>)
    requires Below(fields, 256)
    ensures ParseOctets(Texts(fields, 10)) == Some(fields)
  {
    if fields != [] {
      DecimalRoundTrip(fields[0], 255);
      OctetsRoundTrip(fields[1..]);
      assert Texts(fields, 10)[1..] == Texts(fields[1..], 10);
      assert fields == [fields[0]] + fields[1..];
    }
  }

  lemma DottedRoundTrip(value: nat)
    ensures ParseDotted(Dotted(value)) == Some(Fields(value, 256, 4))
  {
    var f := Fields(value, 256, 4);
    TextsClean(f, 10, '.');
    SplitJoin(Texts(f, 10), '.');
    OctetsRoundTrip(f);
  }

  lemma GroupRoundTrip(v: nat)
    requires v < 65536
    ensures ParseGroup(Numeral(v, 16)) == Some(v)
  {
    NumeralRoundTrip(v, 16);
    assert Power(16, 4) == 65536 by {
      assert Power(16, 1) == 16 && Power(16, 2) == 256 && Power(16, 3) == 4096;
    }
    NumeralLength(v, 16, 4);
  }

  lemma {:induction false} GroupsRoundTrip(g: seq<nat>, last: bool)
    requires g != [] && Below(g, 65536)
    ensures ParseGroups(Texts(g, 16), last) == Some(g)
  {
    var t := Texts(g, 16);
    GroupRoundTrip(g[0]);
    assert g == [g[0]] + g[1..];
    if |g| == 1 {
      assert t[0] in t && '.' !in t[0];
      assert g == [g[0]];
    } else {
      GroupsRoundTrip(g[1..], last);
      assert t[1..] == Texts(g[1..], 16);
    }
  }

  /** No "::" occurs in joined nonempty fields, and they do not end in a colon. */
  predicate Tight(s: string) {
    (forall k | 0 <= k < |s| - 1 :: s[k] == ':' ==> s[k + 1] != ':') &&
    (s != "" ==> s[0] != ':' && s[|s| - 1] != ':')
  }

  lemma {:induction false} JoinTight(parts: seq<string>)
    requires forall t | t in parts :: t != "" && ':' !in t
    ensures Tight(Join(parts, ':'))
    ensures parts == [] <==> Join(parts, ':') == ""
  {
    if |parts| == 1 {
      assert parts[0] in parts;
    } else if |parts| > 1 {
      assert forall t | t in parts[1..] :: t in parts;
      JoinTight(parts[1..]);
      assert parts[0] in parts;
      var rest := Join(parts[1..], ':');
      var s := parts[0] + [':'] + rest;
      forall k | 0 <= k < |s| - 1 && s[k] == ':' ensures s[k + 1] != ':' {
        if k > |parts[0]| {
          assert s[k] == rest[k - |parts[0]| - 1] && s[k + 1] == rest[k - |parts[0]|];
        }
      }
    }
  }

  lemma {:induction false} EllipsisAbsent(s: string)
    requires Tight(s) || forall k | 0 <= k < |s| - 1 :: s[k] == ':' ==> s[k + 1] != ':'
    ensures Ellipsis(s) == |s|
  {
    if |s| >= 2 {
      var r := s[1..];
      forall k | 0 <= k < |r| - 1 && r[k] == ':' ensures r[k + 1] != ':' {
        assert s[k + 1] == r[k] && s[k + 2] == r[k + 1];
      }
      EllipsisAbsent(r);
    }
  }

  lemma {:induction false} EllipsisFound(a: string, b: string)
    requires forall k | 0 <= k < |a| - 1 :: a[k] == ':' ==> a[k + 1] != ':'
    requires a != "" ==> a[|a| - 1] != ':'
    ensures Ellipsis(a + "::" + b) == |a|
  {
    var s := a + "::" + b;
    if a != "" {
      var r := a[1..];
      assert s[1..] == r + "::" + b;
      forall k | 0 <= k < |r| - 1 && r[k] == ':' ensures r[k + 1] != ':' {
        assert a[k + 1] == r[k] && a[k + 2] == r[k + 1];
      }
      EllipsisFound(r, b);
      assert s[0] == a[0] && (|a| >= 2 ==> s[1] == a[1]);
    }
  }

  lemma SideRoundTrip(g: seq<nat>, last: bool)
    requires Below(g, 65536)
    ensures ParseSide(Join(Texts(g, 16), ':'), last) == Some(g)
    ensures Tight(Join(Texts(g, 16), ':'))
  {
    TextsClean(g, 16, ':');
    JoinTight(Texts(g, 16));
    if g != [] {
      SplitJoin(Texts(g, 16), ':');
      GroupsRoundTrip(g, last);
    }
  }

  /** The chosen run holds zeros only, has at least two groups, no run is longer and no earlier one is
      as long: section 4.2 of RFC 5952. */
  ghost predicate IsLongestRun(g: seq<nat>, run: (nat, nat)) {
    && run.0 <= run.1 <= |g|
    && (run.0 != run.1 ==> run.1 - run.0 >= 2 && ZeroRun(g, run.0, run.1))
    && forall i: nat, j: nat | i + 2 <= j <= |g| && ZeroRun(g, i, j) ::
         j - i < run.1 - run.0 || (j - i == run.1 - run.0 && run.0 <= i)
  }

  ghost predicate BestBefore(g: seq<nat>, i: nat, best: (nat, nat)) {
    && best.0 <= best.1 <= |g|
    && (best.0 != best.1 ==> best.1 - best.0 >= 2 && best.0 < i && ZeroRun(g, best.0, best.1))
    && forall a: nat, b: nat | a < i && a + 2 <= b <= |g| && ZeroRun(g, a, b) ::
         b - a < best.1 - best.0 || (b - a == best.1 - best.0 && best.0 <= a)
  }

  lemma {:induction false} ScanIsBest(g: seq<nat>, i: nat, best: (nat, nat))
    requires i <= |g| && BestBefore(g, i, best)
    ensures IsLongestRun(g, Scan(g, i, best))
    decreases |g| - i
  {
    if i < |g| {
      var j := RunEnd(g, i);
      var next := if j - i >= 2 && j - i > best.1 - best.0 then (i, j) else best;
      assert BestBefore(g, i + 1, next);
      ScanIsBest(g, i + 1, next);
    }
  }

  lemma ShortenedRun(g: seq<nat>)
    ensures IsLongestRun(g, Scan(g, 0, (0, 0)))
  {
    ScanIsBest(g, 0, (0, 0));
  }

  lemma Around(l: string, r: string)
    requires Tight(l)
    ensures var s := l + "::" + r;
      Ellipsis(s) == |l| && |l| < |s| && s[..|l|] == l && s[|l| + 2..] == r && ':' in s
  {
    EllipsisFound(l, r);
    assert (l + "::" + r)[|l|] == ':';
  }

  lemma ExpandAt(s: string, i: nat)
    requires Ellipsis(s) == i && i < |s|
    ensures ParseHexadectet(s) == Expand(ParseSide(s[..i], false), ParseSide(s[i + 2..], true))
  {
    hide ParseSide, Ellipsis, Expand;
  }

  lemma ShortParses(l: string, r: string, a: seq<nat>, b: seq<nat>)
    requires Tight(l) && ParseSide(l, false) == Some(a) && ParseSide(r, true) == Some(b) && |a| + |b| <= 7
    ensures ParseHexadectet(l + "::" + r) == Some(a + Zeros(8 - |a| - |b|) + b)
    ensures ':' in l + "::" + r
  {
    hide ParseSide, ParseHexadectet, Tight, Ellipsis, Zeros;
    Around(l, r);
    ExpandAt(l + "::" + r, |l|);
  }

  lemma FullRoundTrip(g: seq<nat>)
    requires |g| == 8 && Below(g, 65536)
    ensures ParseHexadectet(Join(Texts(g, 16), ':')) == Some(g) && ':' in Join(Texts(g, 16), ':')
  {
    SideRoundTrip(g, true);
    EllipsisAbsent(Join(Texts(g, 16), ':'));
  }

  lemma ShortRoundTrip(g: seq<nat>, i: nat, j: nat)
    requires |g| == 8 && Below(g, 65536) && i + 1 <= j <= 8 && ZeroRun(g, i, j)
    ensures var s := Join(Texts(g[..i], 16), ':') + "::" + Join(Texts(g[j..], 16), ':');
      ParseHexadectet(s) == Some(g) && ':' in s
  {
    hide Join, Texts, ParseHexadectet;
    var a, b := g[..i], g[j..];
    assert Below(a, 65536) && Below(b, 65536);
    SideRoundTrip(a, false);
    SideRoundTrip(b, true);
    var left, right := Join(Texts(a, 16), ':'), Join(Texts(b, 16), ':');
    ShortParses(left, right, a, b);
    assert g == a + Zeros(8 - |a| - |b|) + b;
    assert (left + "::" + right)[|left|] == ':';
  }

  lemma HexadectetRoundTrip(g: seq<nat>)
    requires |g| == 8 && Below(g, 65536)
    ensures ParseHexadectet(Hexadectet(g)) == Some(g)
    ensures ':' in Hexadectet(g)
  {
    var run := Scan(g, 0, (0, 0));
    ShortenedRun(g);
    if run.0 == run.1 {
      FullRoundTrip(g);
    } else {
      ShortRoundTrip(g, run.0, run.1);
    }
  }

  /** The eight groups of a mapped address: ten zero bytes, 0xffff, and the IPv4 octets in pairs. */
  lemma MappedGroups(value: nat)
    requires value / 0x1_0000_0000 == 0xffff
    ensures var o := Fields(value % 0x1_0000_0000, 256, 4);
      FieldsValue(Zeros(5) + [0xffff, o[0] * 256 + o[1], o[2] * 256 + o[3]], 65536) == value
  {
    hide Fields, FieldsValue, Zeros;
    var v := value % 0x1_0000_0000;
    FourFields(v);
    Recombined(v);
    var o := Fields(v, 256, 4);
    GroupsValue(0xffff, o[0] * 256 + o[1], o[2] * 256 + o[3]);
  }

  lemma FourFields(v: nat)
    ensures Fields(v, 256, 4) == [v / 256 / 256 / 256 % 256, v / 256 / 256 % 256, v / 256 % 256, v % 256]
  {
    assert Fields(v / 256 / 256 / 256, 256, 1) == [v / 256 / 256 / 256 % 256];
    assert Fields(v / 256 / 256, 256, 2) == [v / 256 / 256 / 256 % 256, v / 256 / 256 % 256];
    assert Fields(v / 256, 256, 3) == [v / 256 / 256 / 256 % 256, v / 256 / 256 % 256, v / 256 % 256];
  }

  lemma Recombined(v: nat)
    requires v < 0x1_0000_0000
    ensures (v / 256 / 256 / 256 % 256 * 256 + v / 256 / 256 % 256) * 65536 + (v / 256 % 256 * 256 + v % 256) == v
  {
    var a := v / 256;
    var b := a / 256;
    assert b / 256 < 256;
    assert v == a * 256 + v % 256 && a == b * 256 + a % 256 && b == b / 256 * 256 + b % 256;
  }

  lemma AppendValue(fields: seq<nat>, x: nat)
    ensures FieldsValue(fields + [x], 65536) == FieldsValue(fields, 65536) * 65536 + x
  {
  }

  lemma GroupsValue(m: nat, h: nat, l: nat)
    ensures FieldsValue(Zeros(5) + [m, h, l], 65536) == (m * 65536 + h) * 65536 + l
  {
    ZerosValue(5);
    AppendValue(Zeros(5), m);
    AppendValue(Zeros(5) + [m], h);
    AppendValue(Zeros(5) + [m] + [h], l);
    assert Zeros(5) + [m, h, l] == Zeros(5) + [m] + [h] + [l];
  }

  lemma {:induction false} ZerosValue(n: nat)
    ensures FieldsValue(Zeros(n), 65536) == 0
  {
    if n > 0 {
      assert Zeros(n)[..n - 1] == Zeros(n - 1);
      ZerosValue(n - 1);
    }
  }

  lemma MappedSide(d: string, o: seq<nat>)
    requires ':' !in d && '.' in d && ParseDotted(d) == Some(o) && |o| == 4
    ensures ParseSide("ffff:" + d, true) == Some([0xffff, o[0] * 256 + o[1], o[2] * 256 + o[3]])
  {
    var parts := ["ffff", d];
    assert parts[1..] == [d];
    assert "ffff:" + d == Join(parts, ':');
    SplitJoin(parts, ':');
    FourFs();
    var g := [o[0] * 256 + o[1], o[2] * 256 + o[3]];
    assert ParseGroups([d], true) == Some(g);
    assert ParseGroups(parts, true) == Some([0xffff] + g);
    assert [0xffff] + g == [0xffff, o[0] * 256 + o[1], o[2] * 256 + o[3]];
    assert Split("ffff:" + d, ':') == parts;
  }

  lemma FourFs()
    ensures ParseGroup("ffff") == Some(0xffff)
  {
    assert Numeral(0xf, 16) == "f";
    assert Numeral(0xff, 16) == "f" + "f";
    assert Numeral(0xfff, 16) == "ff" + "f";
    assert Numeral(0xffff, 16) == "fff" + "f";
    assert "fff" + "f" == "ffff";
    GroupRoundTrip(0xffff);
  }

  lemma NoSide()
    ensures Tight("") && ParseSide("", false) == Some([])
  {
  }

  lemma MappedParses(d: string, o: seq<nat>)
    requires ':' !in d && '.' in d && ParseDotted(d) == Some(o) && |o| == 4
    ensures ParseHexadectet("::" + ("ffff:" + d))
         == Some(Zeros(5) + [0xffff, o[0] * 256 + o[1], o[2] * 256 + o[3]])
  {
    hide ParseHexadectet, ParseDotted, ParseSide, Zeros;
    var b := [0xffff, o[0] * 256 + o[1], o[2] * 256 + o[3]];
    MappedSide(d, o);
    NoSide();
    ShortParses("", "ffff:" + d, [], b);
    assert "" + "::" + ("ffff:" + d) == "::" + ("ffff:" + d);
    assert [] + Zeros(5) + b == Zeros(5) + b;
  }

  lemma MappedText(d: string)
    ensures "::" + ("ffff:" + d) == "::ffff:" + d && ':' in "::ffff:" + d
  {
  }

  lemma MappedAddr(d: string, o: seq<nat>, value: nat)
    requires ':' !in d && '.' in d && ParseDotted(d) == Some(o) && |o| == 4
    requires FieldsValue(Zeros(5) + [0xffff, o[0] * 256 + o[1], o[2] * 256 + o[3]], 65536) == value
    ensures ParseAddr("::ffff:" + d) == Some(Addr(true, value))
  {
    MappedParses(d, o);
    MappedText(d);
  }

  lemma MappedRoundTrip(value: nat, v: nat)
    requires value / 0x1_0000_0000 == 0xffff && v == value % 0x1_0000_0000
    ensures ParseAddr("::ffff:" + Dotted(v)) == Some(Addr(true, value))
  {
    DottedClean(v, ':');
    DottedRoundTrip(v);
    MappedGroups(value);
    MappedAddr(Dotted(v), Fields(v, 256, 4), value);
  }

  lemma {:induction false} JoinClean(parts: seq<string>, sep: char, c: char)
    requires c != sep && forall p | p in parts :: c !in p
    ensures c !in Join(parts, sep)
  {
    if |parts| > 1 {
      JoinClean(parts[1..], sep, c);
    }
  }

  lemma DottedClean(value: nat, c: char)
    requires c != '.' && DigitValue(c) >= 10
    ensures c !in Dotted(value)
    ensures '.' in Dotted(value)
  {
    var t := Texts(Fields(value, 256, 4), 10);
    TextsClean(Fields(value, 256, 4), 10, c);
    JoinClean(t, '.', c);
    assert Dotted(value)[|t[0]|] == '.';
  }

  lemma Powers4()
    ensures Power(256, 4) == Pow2(32) == 0x1_0000_0000
  {
    assert Pow2(4) == 16;
    Pow2Sum(4, 4);
    Pow2Sum(8, 8);
    Pow2Sum(16, 16);
    assert Power(256, 2) == 65536;
  }

  lemma Powers6()
    ensures Power(65536, 8) == Pow2(128) == 0x1_0000_0000_0000_0000_0000_0000_0000_0000
  {
    Powers4();
    Pow2Sum(32, 32);
    Pow2Sum(64, 64);
    assert Power(65536, 2) == 0x1_0000_0000;
    assert Power(65536, 4) == 0x1_0000_0000_0000_0000;
    assert Power(65536, 6) == 0x1_0000_0000_0000_0000_0000_0000;
  }

  lemma AddrRoundTrip(a: Addr)
    requires a.value < Pow2(Width(a.v6))
    ensures ParseAddr(AddrText(a)) == Some(a)
  {
    Powers4();
    Powers6();
    if !a.v6 {
      DottedClean(a.value, ':');
      DottedRoundTrip(a.value);
      FieldsRoundTrip(a.value, 256, 4);
    } else if Mapped(a) {
      MappedRoundTrip(a.value, a.value % 0x1_0000_0000);
    } else {
      HexadectetRoundTrip(Fields(a.value, 65536, 8));
      FieldsRoundTrip(a.value, 65536, 8);
    }
  }

  /** What ParsePrefix(p.String()) gives back. */
  lemma PrefixRoundTrip(p: Prefix)
    requires p.Valid()
    ensures ParsePrefix(PrefixText(p)) == Some(p)
  {
    var a, b := AddrText(p.addr), Numeral(p.bits, 10);
    AddrClean(p.addr, '/');
    assert Join([a, b], '/') == PrefixText(p);
    SplitJoin([a, b], '/');
    AddrRoundTrip(p.addr);
    DecimalRoundTrip(p.bits, Width(p.addr.v6));
  }

  lemma AddrClean(a: Addr, c: char)
    requires c != '.' && c != ':' && DigitValue(c) == 16
    ensures c !in AddrText(a)
  {
    if !a.v6 {
      DottedClean(a.value, c);
    } else if Mapped(a) {
      DottedClean(a.value % 0x1_0000_0000, c);
      assert forall d | d in "::ffff:" :: d == ':' || d == 'f';
    } else {
      var g := Fields(a.value, 65536, 8);
      var run := Scan(g, 0, (0, 0));
      TextsClean(g, 16, c);
      JoinClean(Texts(g, 16), ':', c);
      TextsClean(g[..run.0], 16, c);
      JoinClean(Texts(g[..run.0], 16), ':', c);
      TextsClean(g[run.1..], 16, c);
      JoinClean(Texts(g[run.1..], 16), ':', c);
    }
  }

  // ---- Length ----------------------------------------------------------------------------

  lemma {:induction false} JoinLength(parts: seq<string>, sep: char, m: nat)
    requires forall i | 0 <= i < |parts| :: |parts[i]| <= m
    ensures |Join(parts, sep)| <= |parts| * (m + 1)
    ensures parts != [] ==> |Join(parts, sep)| <= |parts| * (m + 1) - 1
  {
    if |parts| > 1 {
      JoinLength(parts[1..], sep, m);
    }
  }

  lemma {:induction false} TextsLength(fields: seq<nat>, base: nat, n: nat)
    requires (base == 10 || base == 16) && n > 0 && Below(fields, Power(base, n))
    ensures forall i | 0 <= i < |fields| :: |Texts(fields, base)[i]| <= n
  {
    if fields != [] {
      NumeralLength(fields[0], base, n);
      TextsLength(fields[1..], base, n);
    }
  }

  lemma DottedLength(value: nat)
    ensures |Dotted(value)| <= 15
  {
    var f := Fields(value, 256, 4);
    assert Power(10, 1) == 10 && Power(10, 2) == 100 && Power(10, 3) == 1000;
    TextsLength(f, 10, 3);
    JoinLength(Texts(f, 10), '.', 3);
  }

  lemma GroupsLength(g: seq<nat>)
    requires Below(g, 65536)
    ensures |Join(Texts(g, 16), ':')| <= |g| * 5
    ensures g != [] ==> |Join(Texts(g, 16), ':')| <= |g| * 5 - 1
  {
    assert Power(16, 1) == 16 && Power(16, 2) == 256 && Power(16, 3) == 4096 && Power(16, 4) == 65536;
    TextsLength(g, 16, 4);
    JoinLength(Texts(g, 16), ':', 4);
  }

  /** At most 39 characters of address, a slash and three digits. */
  lemma PrefixLength(p: Prefix)
    requires p.Valid()
    ensures 0 < |PrefixText(p)| <= 43
  {
    assert Power(10, 1) == 10 && Power(10, 2) == 100 && Power(10, 3) == 1000;
    NumeralLength(p.bits, 10, 3);
    if !p.addr.v6 {
      DottedLength(p.addr.value);
    } else if Mapped(p.addr) {
      DottedLength(p.addr.value % 0x1_0000_0000);
    } else {
      var g := Fields(p.addr.value, 65536, 8);
      var run := Scan(g, 0, (0, 0));
      ShortenedRun(g);
      GroupsLength(g);
      GroupsLength(g[..run.0]);
      GroupsLength(g[run.1..]);
    }
  }

  // ---- What parsing yields -----------------------------------------------------------------

  lemma {:induction false} FieldsValueBound(fields: seq<nat>, base: nat)
    requires IsRadix(base) && Below(fields, base)
    ensures FieldsValue(fields, base) < Power(base, |fields|)
  {
    if fields != [] {
      var init := fields[..|fields| - 1];
      FieldsValueBound(init, base);
      ScaleLess(FieldsValue(init, base), base, Power(base, |init|), fields[|init|]);
    }
  }

  lemma ScaleLess(q: nat, base: nat, bound: nat, digit: nat)
    requires IsRadix(base) && q < bound && digit < base
    ensures q * base + digit < base * bound
  {
  }

  lemma {:induction false} NumeralBound(s: string, base: nat)
    requires IsRadix(base) && forall c | c in s :: DigitValue(c) < base
    ensures NumeralValue(s, base) < Power(base, |s|)
  {
    if s != "" {
      var init := s[..|s| - 1];
      NumeralBound(init, base);
      assert s[|s| - 1] in s;
      ScaleLess(NumeralValue(init, base), base, Power(base, |init|), DigitValue(s[|s| - 1]));
    }
  }

  lemma {:induction false} OctetsBelow(parts: seq<string>)
    requires ParseOctets(parts).Some?
    ensures |ParseOctets(parts).value| == |parts| && Below(ParseOctets(parts).value, 256)
  {
    if parts != [] {
      OctetsBelow(parts[1..]);
    }
  }

  lemma GroupBelow(s: string)
    requires ParseGroup(s).Some?
    ensures ParseGroup(s).value < 65536
  {
    NumeralBound(s, 16);
    assert Power(16, 1) == 16 && Power(16, 2) == 256 && Power(16, 3) == 4096 && Power(16, 4) == 65536;
  }

  lemma {:induction false} GroupsBelow(parts: seq<string>, last: bool)
    requires |parts| > 0 && ParseGroups(parts, last).Some?
    ensures Below(ParseGroups(parts, last).value, 65536)
  {
    if |parts| == 1 {
      if last && '.' in parts[0] {
        OctetsBelow(Split(parts[0], '.'));
      } else {
        GroupBelow(parts[0]);
      }
    } else {
      GroupBelow(parts[0]);
      GroupsBelow(parts[1..], last);
    }
  }

  lemma SideBelow(s: string, last: bool)
    requires ParseSide(s, last).Some?
    ensures Below(ParseSide(s, last).value, 65536)
  {
    if s != "" {
      GroupsBelow(Split(s, ':'), last);
    }
  }

  lemma HexadectetBelow(s: string)
    requires ParseHexadectet(s).Some?
    ensures |ParseHexadectet(s).value| == 8 && Below(ParseHexadectet(s).value, 65536)
  {
    var i := Ellipsis(s);
    if i == |s| {
      GroupsBelow(Split(s, ':'), true);
    } else {
      ExpandAt(s, i);
      SideBelow(s[..i], false);
      SideBelow(s[i + 2..], true);
    }
  }

  lemma ParsedIsValid(s: string)
    requires ParsePrefix(s).Some?
    ensures ParsePrefix(s).value.Valid()
  {
    Powers4();
    Powers6();
    var a := Split(s, '/')[0];
    if ':' in a {
      HexadectetBelow(a);
      FieldsValueBound(ParseHexadectet(a).value, 65536);
    } else {
      OctetsBelow(Split(a, '.'));
      FieldsValueBound(ParseDotted(a).value, 256);
    }
  }
}
