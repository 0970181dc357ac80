/** Which texts denote an address or a prefix, said without the parser: digits in either case, groups with leading
    zeros, one "::" for a run of zero groups, a dotted tail (section 2.2 of RFC 4291). The parser accepts these
    texts and no others. */
module Spelling {
  import opened Wrappers
  import opened Text
  import opened Netip
  import opened NetipText

  const LOWER := "0123456789abcdef"
  const UPPER := "0123456789ABCDEF"

  predicate IsDigit(c: char, d: nat) {
    d < 16 && (c == LOWER[d] || c == UPPER[d])
  }

  /** The digits of `v`, as many as `t` has characters, leading zeros included. */
  predicate SpellsDigits(t: string, v: nat, base: nat)
    requires IsRadix(base)
  {
    v < Power(base, |t|) && forall k | 0 <= k < |t| :: IsDigit(t[k], Fields(v, base, |t|)[k])
  }

  predicate SpellsGroup(t: string, v: nat) {
    1 <= |t| <= 4 && SpellsDigits(t, v, 16)
  }

  /** A decimal number without leading zeros. */
  predicate SpellsDecimal(t: string, v: nat, max: nat) {
    t != "" && SpellsDigits(t, v, 10) && (t[0] == '0' ==> |t| == 1) && v <= max
  }

  predicate SpellsOctets(parts: seq<string>, o: seq<nat>) {
    |parts| == |o| && forall i | 0 <= i < |o| :: SpellsDecimal(parts[i], o[i], 255)
  }

  ghost predicate SpellsQuad(t: string, o: seq<nat>) {
    |o| == 4 && exists parts :: SpellsOctets(parts, o) && t == Join(parts, '.')
  }

  predicate SpellsGroups(parts: seq<string>, g: seq<nat>) {
    |parts| == |g| && forall i | 0 <= i < |g| :: SpellsGroup(parts[i], g[i])
  }

  /** The last part is a dotted quad that stands for the last two groups. */
  ghost predicate SpellsTail(parts: seq<string>, g: seq<nat>) {
    var n := |parts| - 1;
    && n >= 0 && |g| == n + 2 && SpellsGroups(parts[..n], g[..n])
    && exists o :: SpellsQuad(parts[n], o) && g[n] == o[0] * 256 + o[1] && g[n + 1] == o[2] * 256 + o[3]
  }

  ghost predicate SpellsParts(parts: seq<string>, g: seq<nat>, last: bool) {
    SpellsGroups(parts, g) || (last && SpellsTail(parts, g))
  }

  ghost predicate SpellsSide(t: string, g: seq<nat>, last: bool) {
    exists parts :: SpellsParts(parts, g, last) && t == Join(parts, ':')
  }

  /** Groups i to j are zeros written as "::". */
  ghost predicate SpellsShort(t: string, g: seq<nat>, i: nat, j: nat) {
    && i < j <= |g| && ZeroRun(g, i, j)
    && exists l, r :: SpellsSide(l, g[..i], false) && SpellsSide(r, g[j..], true) && t == l + "::" + r
  }

  ghost predicate SpellsSixteenths(t: string, g: seq<nat>) {
    |g| == 8 && (SpellsSide(t, g, true) || exists i: nat, j: nat :: SpellsShort(t, g, i, j))
  }

  function FromOctets(o: seq<nat>): nat
    requires |o| == 4
  {
    ((o[0] * 256 + o[1]) * 256 + o[2]) * 256 + o[3]
  }

  /** Sixteen bits a group, the first group the most significant. */
  function FromGroups(g: seq<nat>): nat
    requires |g| == 8
  {
    ((((((g[0] * 65536 + g[1]) * 65536 + g[2]) * 65536 + g[3]) * 65536 + g[4]) * 65536 + g[5]) * 65536 + g[6]) * 65536 + g[7]
  }

  ghost predicate SpellsAddr(t: string, a: Addr) {
    if a.v6 then exists g :: |g| == 8 && SpellsSixteenths(t, g) && a.value == FromGroups(g)
    else exists o :: |o| == 4 && SpellsQuad(t, o) && a.value == FromOctets(o)
  }

  ghost predicate SpellsPrefix(t: string, p: Prefix) {
    exists a, b :: SpellsAddr(a, p.addr) && SpellsDecimal(b, p.bits, Width(p.addr.v6)) && t == a + "/" + b
  }

  // ---- Numerals ------------------------------------------------------------------------------------------

  lemma DigitExactly(c: char, d: nat)
    ensures IsDigit(c, d) <==> d < 16 && DigitValue(c) == d
  {
  }

  lemma {:induction false} DigitsExactly(t: string, v: nat, base: nat)
    requires base == 10 || base == 16
    ensures SpellsDigits(t, v, base) <==> (forall c | c in t :: DigitValue(c) < base) && NumeralValue(t, base) == v
  {
    if t == "" {
      assert Power(base, 0) == 1;
    } else {
      hide SpellsDigits, IsDigit, Power, Fields;
      var n := |t| - 1;
      DigitsExactly(t[..n], v / base, base);
      DigitExactly(t[n], v % base);
      LastDigit(t, v, base);
      assert t == t[..n] + [t[n]];
      if DigitValue(t[n]) < base {
        Split10(NumeralValue(t[..n], base), DigitValue(t[n]), v, base);
      } else {
        DivideBy(v, base);
      }
    }
  }

  lemma Split10(q: nat, d: nat, v: nat, base: nat)
    requires (base == 10 || base == 16) && d < base
    ensures q * base + d == v <==> q == v / base && d == v % base
  {
  }

  lemma LastDigit(t: string, v: nat, base: nat)
    requires (base == 10 || base == 16) && t != ""
    ensures var n := |t| - 1;
      SpellsDigits(t, v, base) <==> SpellsDigits(t[..n], v / base, base) && IsDigit(t[n], v % base)
  {
    var n := |t| - 1;
    DivideBy(v, base);
    var f := Fields(v / base, base, n);
    assert Fields(v, base, n + 1) == f + [v % base];
    assert v < base * Power(base, n) <==> v / base < Power(base, n);
    if SpellsDigits(t[..n], v / base, base) && IsDigit(t[n], v % base) {
      forall k | 0 <= k < |t| ensures IsDigit(t[k], (f + [v % base])[k]) {
        assert k < n ==> t[..n][k] == t[k] && IsDigit(t[..n][k], f[k]);
      }
    }
    if SpellsDigits(t, v, base) {
      forall k | 0 <= k < n ensures IsDigit(t[..n][k], f[k]) {
        assert IsDigit(t[k], Fields(v, base, |t|)[k]);
      }
      assert IsDigit(t[n], Fields(v, base, |t|)[n]);
    }
  }

  lemma GroupExactly(t: string, v: nat)
    ensures ParseGroup(t) == Some(v) <==> SpellsGroup(t, v)
  {
    DigitsExactly(t, v, 16);
  }

  lemma DecimalExactly(t: string, v: nat, max: nat)
    ensures ParseDecimal(t, max) == Some(v) <==> SpellsDecimal(t, v, max)
  {
    DigitsExactly(t, v, 10);
  }

  // ---- Dotted quads ----------------------------------------------------------------------------------------

  lemma {:induction false} OctetsExactly(parts: seq<string>, o: seq<nat>)
    ensures ParseOctets(parts) == Some(o) <==> SpellsOctets(parts, o)
  {
    hide ParseDecimal, SpellsDecimal;
    if parts != [] && o != [] {
      DecimalExactly(parts[0], o[0], 255);
      OctetsExactly(parts[1..], o[1..]);
      OctetsStep(parts, o);
      assert o == [o[0]] + o[1..];
    }
  }

  lemma OctetsStep(parts: seq<string>, o: seq<nat>)
    requires parts != [] && o != []
    ensures SpellsOctets(parts, o) <==> SpellsDecimal(parts[0], o[0], 255) && SpellsOctets(parts[1..], o[1..])
  {
    hide SpellsDecimal;
    if SpellsDecimal(parts[0], o[0], 255) && SpellsOctets(parts[1..], o[1..]) {
      forall i | 0 <= i < |o| ensures SpellsDecimal(parts[i], o[i], 255) {
        assert i > 0 ==> SpellsDecimal(parts[1..][i - 1], o[1..][i - 1], 255);
      }
    }
    if SpellsOctets(parts, o) {
      forall i | 0 <= i < |o| - 1 ensures SpellsDecimal(parts[1..][i], o[1..][i], 255) {
        assert SpellsDecimal(parts[i + 1], o[i + 1], 255);
      }
    }
  }

  lemma DigitsOnly(t: string, v: nat, base: nat, c: char)
    requires (base == 10 || base == 16) && SpellsDigits(t, v, base) && c in t
    ensures DigitValue(c) < 16
  {
    var k :| 0 <= k < |t| && t[k] == c;
    DigitExactly(c, Fields(v, base, |t|)[k]);
  }

  lemma OctetsClean(parts: seq<string>, o: seq<nat>, c: char)
    requires SpellsOctets(parts, o) && DigitValue(c) == 16
    ensures forall t | t in parts :: c !in t && t != ""
  {
    forall t | t in parts ensures c !in t && t != "" {
      var i :| 0 <= i < |parts| && parts[i] == t;
      assert SpellsDecimal(parts[i], o[i], 255);
      if c in t { DigitsOnly(t, o[i], 10, c); }
    }
  }

  lemma DottedExactly(t: string, o: seq<nat>)
    ensures ParseDotted(t) == Some(o) <==> SpellsQuad(t, o)
  {
    hide SpellsOctets, ParseOctets;
    if ParseDotted(t) == Some(o) {
      OctetsExactly(Split(t, '.'), o);
      OctetsLength(Split(t, '.'), o);
      JoinSplit(t, '.');
    }
    if SpellsQuad(t, o) {
      var parts :| SpellsOctets(parts, o) && t == Join(parts, '.');
      OctetsLength(parts, o);
      OctetsClean(parts, o, '.');
      SplitJoin(parts, '.');
      OctetsExactly(parts, o);
    }
  }

  lemma OctetsLength(parts: seq<string>, o: seq<nat>)
    requires SpellsOctets(parts, o)
    ensures |parts| == |o|
  {
  }

  /** A dotted quad has dots and no other separator. */
  lemma QuadChars(t: string, o: seq<nat>, c: char)
    requires SpellsQuad(t, o)
    ensures '.' in t
    ensures c != '.' && DigitValue(c) == 16 ==> c !in t
  {
    var parts :| SpellsOctets(parts, o) && t == Join(parts, '.');
    assert t[|parts[0]|] == '.';
    if c != '.' && DigitValue(c) == 16 {
      OctetsClean(parts, o, c);
      JoinClean(parts, '.', c);
    }
  }

  // ---- Groups ------------------------------------------------------------------------------------------------

  lemma GroupsStep(parts: seq<string>, g: seq<nat>)
    requires parts != [] && g != []
    ensures SpellsGroups(parts, g) <==> SpellsGroup(parts[0], g[0]) && SpellsGroups(parts[1..], g[1..])
  {
    hide SpellsGroup;
    if SpellsGroup(parts[0], g[0]) && SpellsGroups(parts[1..], g[1..]) {
      forall i | 0 <= i < |g| ensures SpellsGroup(parts[i], g[i]) {
        assert i > 0 ==> SpellsGroup(parts[1..][i - 1], g[1..][i - 1]);
      }
    }
    if SpellsGroups(parts, g) {
      forall i | 0 <= i < |g| - 1 ensures SpellsGroup(parts[1..][i], g[1..][i]) {
        assert SpellsGroup(parts[i + 1], g[i + 1]);
      }
    }
  }

  lemma TailStep(parts: seq<string>, g: seq<nat>)
    requires |parts| > 1 && g != []
    ensures SpellsTail(parts, g) <==> SpellsGroup(parts[0], g[0]) && SpellsTail(parts[1..], g[1..])
  {
    hide SpellsGroup, SpellsGroups, SpellsQuad;
    var n := |parts| - 1;
    if |g| == n + 2 {
      GroupsStep(parts[..n], g[..n]);
      assert parts[..n][1..] == parts[1..][..n - 1] && g[..n][1..] == g[1..][..n - 1];
    }
  }

  lemma GroupChars(t: string, v: nat, c: char)
    requires SpellsGroup(t, v) && DigitValue(c) == 16
    ensures c !in t && t != ""
  {
    if c in t { DigitsOnly(t, v, 16, c); }
  }

  lemma TailPart(t: string, g: seq<nat>)
    ensures SpellsTail([t], g) <==> ParseDotted(t).Some? && var o := ParseDotted(t).value;
      |o| == 4 && g == [o[0] * 256 + o[1], o[2] * 256 + o[3]]
  {
    hide SpellsOctets, ParseDotted;
    assert [t][..0] == [] && g[..0] == [] && [t][0] == t;
    if SpellsTail([t], g) {
      var o :| SpellsQuad([t][0], o) && g[0] == o[0] * 256 + o[1] && g[1] == o[2] * 256 + o[3];
      DottedExactly(t, o);
      QuadLength(t, o);
    }
    if ParseDotted(t).Some? {
      DottedExactly(t, ParseDotted(t).value);
      QuadLength(t, ParseDotted(t).value);
    }
  }

  lemma QuadLength(t: string, o: seq<nat>)
    requires SpellsQuad(t, o)
    ensures |o| == 4
  {
  }

  lemma TailHasDot(t: string, g: seq<nat>)
    requires SpellsTail([t], g)
    ensures '.' in t
  {
    var o :| SpellsQuad([t][0], o);
    QuadChars(t, o, '.');
  }

  /** One part: a group, or a dotted quad at the very end. */
  lemma OnePartExactly(t: string, g: seq<nat>, last: bool)
    ensures ParseGroups([t], last) == Some(g) <==> SpellsParts([t], g, last)
  {
    hide SpellsGroup, SpellsTail, ParseGroup, ParseDotted;
    assert SpellsGroups([t], g) <==> |g| == 1 && SpellsGroup(t, g[0]);
    TailPart(t, g);
    if SpellsTail([t], g) { TailHasDot(t, g); }
    if |g| == 1 && SpellsGroup(t, g[0]) { GroupChars(t, g[0], '.'); }
    if g != [] { GroupExactly(t, g[0]); }
    assert |g| == 1 ==> g == [g[0]];
    if ParseGroup(t).Some? { GroupExactly(t, ParseGroup(t).value); }
  }

  lemma {:induction false} PartsExactly(parts: seq<string>, g: seq<nat>, last: bool)
    requires parts != []
    ensures ParseGroups(parts, last) == Some(g) <==> SpellsParts(parts, g, last)
  {
    if |parts| == 1 {
      assert parts == [parts[0]];
      OnePartExactly(parts[0], g, last);
    } else if g != [] {
      hide SpellsGroup, SpellsGroups, SpellsTail, ParseGroup;
      GroupExactly(parts[0], g[0]);
      PartsExactly(parts[1..], g[1..], last);
      GroupsStep(parts, g);
      TailStep(parts, g);
      assert g == [g[0]] + g[1..];
    } else {
      assert !SpellsGroups(parts, g);
    }
  }

  // ---- Addresses ---------------------------------------------------------------------------------------------

  lemma {:induction false} GroupsChars(parts: seq<string>, g: seq<nat>, c: char)
    requires SpellsGroups(parts, g) && DigitValue(c) == 16
    ensures forall t | t in parts :: c !in t && t != ""
  {
    hide SpellsGroup;
    forall t | t in parts ensures c !in t && t != "" {
      var i :| 0 <= i < |parts| && parts[i] == t;
      GroupChars(t, g[i], c);
    }
  }

  lemma PartsChars(parts: seq<string>, g: seq<nat>, last: bool, c: char)
    requires SpellsParts(parts, g, last) && DigitValue(c) == 16 && c != '.'
    ensures forall t | t in parts :: c !in t && t != ""
  {
    hide SpellsGroups, SpellsQuad;
    var n := |parts| - 1;
    if SpellsGroups(parts, g) {
      GroupsChars(parts, g, c);
    } else {
      GroupsChars(parts[..n], g[..n], c);
      var o :| SpellsQuad(parts[n], o);
      QuadChars(parts[n], o, c);
      assert parts == parts[..n] + [parts[n]];
    }
  }

  lemma SideExactly(t: string, g: seq<nat>, last: bool)
    ensures ParseSide(t, last) == Some(g) <==> SpellsSide(t, g, last)
    ensures SpellsSide(t, g, last) ==> Tight(t)
  {
    hide SpellsParts, Tight;
    if ParseSide(t, last) == Some(g) {
      if t == "" {
        NoParts(last);
        assert t == Join([], ':');
      } else {
        PartsExactly(Split(t, ':'), g, last);
        JoinSplit(t, ':');
      }
    }
    if SpellsSide(t, g, last) {
      var parts :| SpellsParts(parts, g, last) && t == Join(parts, ':');
      PartsChars(parts, g, last, ':');
      JoinTight(parts);
      if parts == [] {
        NoPartsOnly(g, last);
      } else {
        SplitJoin(parts, ':');
        PartsExactly(parts, g, last);
      }
    }
  }

  lemma NoParts(last: bool)
    ensures SpellsParts([], [], last)
  {
  }

  lemma NoPartsOnly(g: seq<nat>, last: bool)
    requires SpellsParts([], g, last)
    ensures g == []
  {
  }

  lemma {:induction false} ColonsAt(s: string)
    requires Ellipsis(s) < |s|
    ensures s[Ellipsis(s)] == s[Ellipsis(s) + 1] == ':'
  {
    if s[0] != ':' || s[1] != ':' {
      ColonsAt(s[1..]);
    }
  }

  lemma CutColons(s: string, i: nat)
    requires i + 2 <= |s| && s[i] == s[i + 1] == ':'
    ensures s == s[..i] + "::" + s[i + 2..]
  {
  }

  lemma EllipsisIsThere(s: string)
    requires Ellipsis(s) < |s|
    ensures var i := Ellipsis(s); s == s[..i] + "::" + s[i + 2..]
  {
    hide Ellipsis;
    ColonsAt(s);
    CutColons(s, Ellipsis(s));
  }

  lemma NoEllipsis(t: string)
    requires Ellipsis(t) == |t| && t != ""
    ensures ParseHexadectet(t) == match ParseSide(t, true)
                                  case Some(g) => if |g| == 8 then Some(g) else None
                                  case None => None
  {
  }

  lemma ShortIsRead(t: string, g: seq<nat>, i: nat, j: nat)
    requires |g| == 8 && SpellsShort(t, g, i, j)
    ensures ParseHexadectet(t) == Some(g)
  {
    hide ParseHexadectet, ParseSide, SpellsSide, Tight, Ellipsis, Zeros;
    var l, r :| SpellsSide(l, g[..i], false) && SpellsSide(r, g[j..], true) && t == l + "::" + r;
    SideExactly(l, g[..i], false);
    SideExactly(r, g[j..], true);
    ShortParses(l, r, g[..i], g[j..]);
    assert g == g[..i] + Zeros(8 - i - (8 - j)) + g[j..] by { ZerosBetween(g, i, j); }
  }

  lemma ZerosBetween(g: seq<nat>, i: nat, j: nat)
    requires i <= j <= |g| && ZeroRun(g, i, j)
    ensures g == g[..i] + Zeros(j - i) + g[j..]
  {
  }

  lemma ReadIsShort(t: string, g: seq<nat>)
    requires |g| == 8 && ParseHexadectet(t) == Some(g) && Ellipsis(t) < |t|
    ensures exists i: nat, j: nat :: SpellsShort(t, g, i, j)
  {
    hide ParseHexadectet, ParseSide, Expand, Ellipsis, SpellsShort;
    var e := Ellipsis(t);
    ExpandAt(t, e);
    EllipsisIsThere(t);
    ExpandedIsShort(t, t[..e], t[e + 2..], g);
  }

  lemma ExpandedIsShort(t: string, l: string, r: string, g: seq<nat>)
    requires t == l + "::" + r && |g| == 8 && Some(g) == Expand(ParseSide(l, false), ParseSide(r, true))
    ensures exists i: nat, j: nat :: SpellsShort(t, g, i, j)
  {
    var a, b := ParseSide(l, false).value, ParseSide(r, true).value;
    var z := Zeros(8 - |a| - |b|);
    assert g == a + z + b;
    hide ParseSide, SpellsSide, Zeros, Expand;
    SideExactly(l, a, false);
    SideExactly(r, b, true);
    ShortFrom(t, l, r, a, z, b);
  }

  lemma ShortFrom(t: string, l: string, r: string, a: seq<nat>, z: seq<nat>, b: seq<nat>)
    requires SpellsSide(l, a, false) && SpellsSide(r, b, true) && t == l + "::" + r
    requires z != [] && forall k | 0 <= k < |z| :: z[k] == 0
    ensures SpellsShort(t, a + z + b, |a|, |a| + |z|)
  {
    hide SpellsSide;
    FrontOf(a, z, b);
    BackOf(a, z, b);
    ZerosInside(a + z + b, a, z, b);
  }

  lemma FrontOf(a: seq<nat>, z: seq<nat>, b: seq<nat>)
    ensures (a + z + b)[..|a|] == a
  {
  }

  lemma BackOf(a: seq<nat>, z: seq<nat>, b: seq<nat>)
    ensures (a + z + b)[|a| + |z|..] == b
  {
  }

  lemma ZerosInside(g: seq<nat>, a: seq<nat>, z: seq<nat>, b: seq<nat>)
    requires g == a + z + b && forall k | 0 <= k < |z| :: z[k] == 0
    ensures ZeroRun(g, |a|, |a| + |z|)
  {
    forall k | |a| <= k < |a| + |z| ensures g[k] == 0 {
      assert g[k] == z[k - |a|];
    }
  }

  lemma ShortExactly(t: string, g: seq<nat>)
    requires |g| == 8
    ensures (exists i: nat, j: nat :: SpellsShort(t, g, i, j)) ==> ParseHexadectet(t) == Some(g)
    ensures ParseHexadectet(t) == Some(g) && Ellipsis(t) < |t| ==> exists i: nat, j: nat :: SpellsShort(t, g, i, j)
  {
    hide ParseHexadectet, SpellsShort, Ellipsis;
    if i: nat, j: nat :| SpellsShort(t, g, i, j) {
      ShortIsRead(t, g, i, j);
    }
    if ParseHexadectet(t) == Some(g) && Ellipsis(t) < |t| {
      ReadIsShort(t, g);
    }
  }

  lemma SixteenthsExactly(t: string, g: seq<nat>)
    requires t != ""
    ensures ParseHexadectet(t) == Some(g) <==> SpellsSixteenths(t, g)
  {
    hide ParseHexadectet, ParseSide, SpellsSide, SpellsShort, Tight, Ellipsis;
    SideExactly(t, g, true);
    if ParseHexadectet(t) == Some(g) { HexadectetBelow(t); }
    if |g| == 8 {
      ShortExactly(t, g);
      if SpellsSide(t, g, true) { EllipsisAbsent(t); }
      if Ellipsis(t) == |t| { NoEllipsis(t); }
    }
  }

  lemma {:induction false} IndexMissing(s: string, c: char)
    requires c !in s
    ensures Index(s, c) == |s|
  {
    if s != "" { IndexMissing(s[1..], c); }
  }

  lemma SixteenthsHaveColon(t: string)
    requires ParseHexadectet(t).Some?
    ensures ':' in t
  {
    if Ellipsis(t) == |t| && ':' !in t {
      IndexMissing(t, ':');
    } else if Ellipsis(t) < |t| {
      EllipsisIsThere(t);
      assert t[Ellipsis(t)] == ':';
    }
  }

  lemma {:induction false} Horner(f: seq<nat>, base: nat, n: nat)
    requires n < |f|
    ensures FieldsValue(f[..n + 1], base) == FieldsValue(f[..n], base) * base + f[n]
  {
    assert f[..n + 1][..n] == f[..n];
  }

  lemma OctetsValue(o: seq<nat>)
    requires |o| == 4
    ensures FieldsValue(o, 256) == FromOctets(o)
  {
    Horner(o, 256, 0);
    Horner(o, 256, 1);
    Horner(o, 256, 2);
    Horner(o, 256, 3);
    assert o[..4] == o;
  }

  lemma SixteenthsValue(g: seq<nat>)
    requires |g| == 8
    ensures FieldsValue(g, 65536) == FromGroups(g)
  {
    assert FieldsValue(g[..0], 65536) == 0;
    assert g[..8] == g;
    hide FieldsValue;
    Horner(g, 65536, 0);
    Horner(g, 65536, 1);
    Horner(g, 65536, 2);
    Horner(g, 65536, 3);
    Horner(g, 65536, 4);
    Horner(g, 65536, 5);
    Horner(g, 65536, 6);
    Horner(g, 65536, 7);
  }

  lemma AddrExactly(t: string, a: Addr)
    ensures ParseAddr(t) == Some(a) <==> SpellsAddr(t, a)
  {
    hide ParseHexadectet, ParseDotted, SpellsSixteenths, SpellsQuad, FieldsValue, FromGroups, FromOctets;
    if ParseAddr(t) == Some(a) {
      if a.v6 {
        var g := ParseHexadectet(t).value;
        SixteenthsExactly(t, g);
        SixteenthsLength(t, g);
        SixteenthsValue(g);
      } else {
        var o := ParseDotted(t).value;
        DottedExactly(t, o);
        QuadLength(t, o);
        OctetsValue(o);
      }
    }
    if SpellsAddr(t, a) {
      if a.v6 {
        var g :| |g| == 8 && SpellsSixteenths(t, g) && a.value == FromGroups(g);
        SixteenthsLength(t, g);
        SixteenthsExactly(t, g);
        SixteenthsHaveColon(t);
        SixteenthsValue(g);
      } else {
        var o :| |o| == 4 && SpellsQuad(t, o) && a.value == FromOctets(o);
        DottedExactly(t, o);
        QuadChars(t, o, ':');
        QuadLength(t, o);
        OctetsValue(o);
      }
    }
  }

  lemma SixteenthsLength(t: string, g: seq<nat>)
    requires SpellsSixteenths(t, g)
    ensures t != "" && |g| == 8
  {
    hide SpellsSide;
    if t == "" { SideExactly("", g, true); }
  }

  lemma SideChars(t: string, g: seq<nat>, last: bool, c: char)
    requires SpellsSide(t, g, last) && DigitValue(c) == 16 && c != '.' && c != ':'
    ensures c !in t
  {
    hide SpellsParts;
    var parts :| SpellsParts(parts, g, last) && t == Join(parts, ':');
    PartsChars(parts, g, last, c);
    JoinClean(parts, ':', c);
  }

  lemma AddrChars(t: string, a: Addr, c: char)
    requires SpellsAddr(t, a) && DigitValue(c) == 16 && c != '.' && c != ':'
    ensures c !in t
  {
    hide SpellsSide, SpellsQuad;
    if a.v6 {
      var g :| |g| == 8 && SpellsSixteenths(t, g) && a.value == FromGroups(g);
      if SpellsSide(t, g, true) {
        SideChars(t, g, true, c);
      } else {
        var i: nat, j: nat :| SpellsShort(t, g, i, j);
        var l, r :| SpellsSide(l, g[..i], false) && SpellsSide(r, g[j..], true) && t == l + "::" + r;
        SideChars(l, g[..i], false, c);
        SideChars(r, g[j..], true, c);
      }
    } else {
      var o :| |o| == 4 && SpellsQuad(t, o) && a.value == FromOctets(o);
      QuadChars(t, o, c);
    }
  }

  /** The parser accepts exactly the texts that spell a prefix, and reads each as that prefix. */
  lemma ParsesExactly(t: string, p: Prefix)
    ensures ParsePrefix(t) == Some(p) <==> SpellsPrefix(t, p)
  {
    hide ParseAddr, ParseDecimal, SpellsAddr, SpellsDecimal;
    if ParsePrefix(t) == Some(p) {
      var parts := Split(t, '/');
      JoinSplit(t, '/');
      TwoParts(parts);
      AddrExactly(parts[0], p.addr);
      DecimalExactly(parts[1], p.bits, Width(p.addr.v6));
    }
    if SpellsPrefix(t, p) {
      var a, b :| SpellsAddr(a, p.addr) && SpellsDecimal(b, p.bits, Width(p.addr.v6)) && t == a + "/" + b;
      AddrChars(a, p.addr, '/');
      DecimalChars(b, p.bits, Width(p.addr.v6), '/');
      TwoParts([a, b]);
      SplitJoin([a, b], '/');
      AddrExactly(a, p.addr);
      DecimalExactly(b, p.bits, Width(p.addr.v6));
    }
  }

  lemma TwoParts(parts: seq<string>)
    requires |parts| == 2
    ensures Join(parts, '/') == parts[0] + "/" + parts[1]
  {
    assert Join(parts[1..], '/') == parts[1];
  }

  lemma DecimalChars(t: string, v: nat, max: nat, c: char)
    requires SpellsDecimal(t, v, max) && DigitValue(c) == 16
    ensures c !in t
  {
    if c in t { DigitsOnly(t, v, 10, c); }
  }
}
