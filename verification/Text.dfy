/** Splitting, joining and positional numerals. A Go string is modelled with one character per byte. */
module Text {

  /** The position of the first `c`, or the length when there is none. */
  function Index(s: string, c: char): (i: nat)
    ensures i <= |s|
    ensures i < |s| ==> s[i] == c
  {
    if s == "" || s[0] == c then 0 else 1 + Index(s[1..], c)
  }

  /** strings.Split with a one-character separator: never empty. */
  function Split(s: string, c: char): (parts: seq<string>)
    ensures |parts| > 0
    decreases |s|
  {
    var i := Index(s, c);
    if i == |s| then [s] else [s[..i]] + Split(s[i + 1..], c)
  }

  function Join(parts: seq<string>, c: char): string {
    if |parts| == 0 then ""
    else if |parts| == 1 then parts[0]
    else parts[0] + [c] + Join(parts[1..], c)
  }

  lemma {:induction false} IndexFirst(s: string, c: char)
    ensures c !in s[..Index(s, c)]
  {
    if s != "" && s[0] != c {
      IndexFirst(s[1..], c);
      assert s[..Index(s, c)] == [s[0]] + s[1..][..Index(s[1..], c)];
    }
  }

  lemma SplitMore(s: string, c: char)
    requires Index(s, c) < |s|
    ensures var i := Index(s, c); Split(s, c) == [s[..i]] + Split(s[i + 1..], c)
  {
  }

  lemma {:induction false} JoinSplit(s: string, c: char)
    ensures Join(Split(s, c), c) == s
    ensures forall p | p in Split(s, c) :: c !in p
    decreases |s|
  {
    var i := Index(s, c);
    IndexFirst(s, c);
    assert s[..|s|] == s;
    if i < |s| {
      JoinSplit(s[i + 1..], c);
      assert s == s[..i] + [c] + s[i + 1..];
    }
  }

  lemma {:induction false} IndexAfter(a: string, c: char, rest: string)
    requires c !in a
    ensures Index(a + [c] + rest, c) == |a|
    ensures Index(a, c) == |a|
  {
    if a != "" {
      IndexAfter(a[1..], c, rest);
      assert (a + [c] + rest)[1..] == a[1..] + [c] + rest;
    }
  }

  lemma {:induction false} SplitJoin(parts: seq<string>, c: char)
    requires |parts| > 0 && forall p | p in parts :: c !in p
    ensures Split(Join(parts, c), c) == parts
  {
    var rest := Join(parts[1..], c);
    IndexAfter(parts[0], c, rest);
    if |parts| > 1 {
      SplitJoin(parts[1..], c);
      var s := parts[0] + [c] + rest;
      assert s[..|parts[0]|] == parts[0] && s[|parts[0]| + 1..] == rest;
    }
  }

  // ---- Numerals ------------------------------------------------------------------

  /** The value of a digit, upper case included; 16 when the character is none. */
  function DigitValue(c: char): (v: nat)
    ensures v <= 16
  {
    if '0' <= c <= '9' then c as nat - '0' as nat
    else if 'a' <= c <= 'f' then c as nat - 'a' as nat + 10
    else if 'A' <= c <= 'F' then c as nat - 'A' as nat + 10
    else 16
  }

  function DigitChar(d: nat): (c: char)
    requires d < 16
    ensures DigitValue(c) == d && !('A' <= c <= 'F') && (c == '0' ==> d == 0)
  {
    if d < 10 then ('0' as int + d) as char else ('a' as int + d - 10) as char
  }

  predicate IsNumeral(s: string, base: nat) {
    s != "" && forall c | c in s :: DigitValue(c) < base
  }

  function NumeralValue(s: string, base: nat): nat {
    if s == "" then 0 else NumeralValue(s[..|s| - 1], base) * base + DigitValue(s[|s| - 1])
  }

  /** The radixes in use: numerals, IPv4 octets and IPv6 groups. */
  predicate IsRadix(base: nat) {
    base == 10 || base == 16 || base == 256 || base == 65536
  }

  lemma DivideBy(v: nat, base: nat)
    requires IsRadix(base)
    ensures 0 <= v % base < base && v == (v / base) * base + v % base
    ensures v >= base ==> 0 < v / base < v
  {
  }

  lemma QuotientLess(v: nat, base: nat, q: nat)
    requires IsRadix(base) && v < base * q
    ensures v / base < q
  {
  }

  /** The numeral without leading zeros, in lower case. */
  function Numeral(v: nat, base: nat): (s: string)
    requires (base == 10 || base == 16)
    ensures IsNumeral(s, base)
    ensures forall c | c in s :: !('A' <= c <= 'F')
    ensures s[0] == '0' ==> s == "0" && v == 0
  {
    DivideBy(v, base);
    if v < base then [DigitChar(v)] else Numeral(v / base, base) + [DigitChar(v % base)]
  }

  lemma {:induction false} NumeralRoundTrip(v: nat, base: nat)
    requires (base == 10 || base == 16)
    ensures NumeralValue(Numeral(v, base), base) == v
    decreases v
  {
    DivideBy(v, base);
    if v < base {
      var s := [DigitChar(v)];
      assert NumeralValue(s[..0], base) == 0;
      assert 0 * base == 0;
    } else {
      var s := Numeral(v / base, base);
      NumeralRoundTrip(v / base, base);
      assert (s + [DigitChar(v % base)])[..|s|] == s;
    }
  }

  function Power(base: nat, n: nat): nat {
    if n == 0 then 1 else base * Power(base, n - 1)
  }

  lemma Monotone(k: nat, a: nat, b: nat)
    requires a <= b
    ensures k * a <= k * b
  {
  }

  lemma {:induction false} NumeralLength(v: nat, base: nat, n: nat)
    requires (base == 10 || base == 16) && n > 0 && v < Power(base, n)
    ensures |Numeral(v, base)| <= n
    decreases n
  {
    DivideBy(v, base);
    if v >= base {
      QuotientLess(v, base, Power(base, n - 1));
      NumeralLength(v / base, base, n - 1);
    }
  }
}
