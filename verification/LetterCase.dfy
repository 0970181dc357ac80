/** The letter case of a route makes no difference to what the helper accepts, nor to what it advertises. */
module LetterCase {
  import opened Wrappers
  import opened Text
  import opened Netip
  import opened NetipText
  import opened Routes

  function LowerChar(c: char): char {
    if 'A' <= c <= 'Z' then (c as int + 32) as char else c
  }

  function Lower(s: string): (t: string)
    ensures |t| == |s| && forall i | 0 <= i < |s| :: t[i] == LowerChar(s[i])
  {
    seq(|s|, i requires 0 <= i < |s| => LowerChar(s[i]))
  }

  function Lowers(parts: seq<string>): (low: seq<string>)
    ensures |low| == |parts| && forall i | 0 <= i < |parts| :: low[i] == Lower(parts[i])
  {
    seq(|parts|, i requires 0 <= i < |parts| => Lower(parts[i]))
  }

  predicate IsSeparator(c: char) {
    c == '.' || c == ':' || c == '/' || c == ','
  }

  lemma CharCase(c: char, sep: char)
    requires IsSeparator(sep)
    ensures LowerChar(c) == sep <==> c == sep
    ensures LowerChar(c) == '0' <==> c == '0'
    ensures DigitValue(LowerChar(c)) == DigitValue(c)
    ensures IsRouteChar(LowerChar(c)) <==> IsRouteChar(c)
  {
  }

  lemma Pieces(s: string, i: nat)
    requires i <= |s|
    ensures Lower(s[..i]) == Lower(s)[..i] && Lower(s[i..]) == Lower(s)[i..]
  {
  }

  lemma {:induction false} IndexCase(s: string, sep: char)
    requires IsSeparator(sep)
    ensures Index(Lower(s), sep) == Index(s, sep)
    ensures sep in Lower(s) <==> sep in s
  {
    hide LowerChar;
    if s != "" {
      CharCase(s[0], sep);
      IndexCase(s[1..], sep);
      Pieces(s, 1);
      assert s == [s[0]] + s[1..] && Lower(s) == [Lower(s)[0]] + Lower(s)[1..];
    }
  }

  lemma {:induction false} SplitCase(s: string, sep: char)
    requires IsSeparator(sep)
    ensures Split(Lower(s), sep) == Lowers(Split(s, sep))
    decreases |s|
  {
    hide Lower, Lowers, Split, Index;
    var i := Index(s, sep);
    IndexCase(s, sep);
    LowerLength(s);
    if i < |s| {
      SplitMore(s, sep);
      SplitMore(Lower(s), sep);
      Pieces(s, i);
      Pieces(s, i + 1);
      SplitCase(s[i + 1..], sep);
      LowersMore(s[..i], Split(s[i + 1..], sep));
    } else {
      SplitNone(s, sep);
      SplitNone(Lower(s), sep);
      LowersMore(s, []);
    }
  }

  lemma LowersMore(head: string, parts: seq<string>)
    ensures Lowers([head] + parts) == [Lower(head)] + Lowers(parts)
    ensures Lowers([head]) == [Lower(head)]
  {
  }

  lemma SplitNone(s: string, sep: char)
    requires Index(s, sep) == |s|
    ensures Split(s, sep) == [s]
  {
  }

  lemma {:induction false} NumeralCase(s: string, base: nat)
    ensures NumeralValue(Lower(s), base) == NumeralValue(s, base)
    ensures IsNumeral(Lower(s), base) <==> IsNumeral(s, base)
  {
    hide LowerChar, DigitValue;
    if s != "" {
      var n := |s| - 1;
      Pieces(s, n);
      NumeralCase(s[..n], base);
      CharCase(s[n], '.');
      assert s == s[..n] + [s[n]] && Lower(s) == Lower(s)[..n] + [Lower(s)[n]];
    }
  }

  lemma DecimalCase(s: string, max: nat)
    ensures ParseDecimal(Lower(s), max) == ParseDecimal(s, max)
  {
    NumeralCase(s, 10);
    if s != "" { CharCase(s[0], '.'); }
  }

  lemma {:induction false} OctetsCase(parts: seq<string>)
    ensures ParseOctets(Lowers(parts)) == ParseOctets(parts)
  {
    hide ParseDecimal, Lower;
    if parts != [] {
      DecimalCase(parts[0], 255);
      OctetsCase(parts[1..]);
      assert Lowers(parts)[1..] == Lowers(parts[1..]);
    }
  }

  lemma DottedCase(s: string)
    ensures ParseDotted(Lower(s)) == ParseDotted(s)
  {
    hide Lower, ParseOctets, Split;
    SplitCase(s, '.');
    OctetsCase(Split(s, '.'));
  }

  lemma GroupCase(s: string)
    ensures ParseGroup(Lower(s)) == ParseGroup(s)
  {
    NumeralCase(s, 16);
  }

  lemma {:induction false} GroupsCase(parts: seq<string>, last: bool)
    requires parts != []
    ensures ParseGroups(Lowers(parts), last) == ParseGroups(parts, last)
  {
    hide ParseGroup, ParseDotted, Lower;
    GroupCase(parts[0]);
    if |parts| == 1 {
      DottedCase(parts[0]);
      IndexCase(parts[0], '.');
    } else {
      GroupsCase(parts[1..], last);
      assert Lowers(parts)[1..] == Lowers(parts[1..]);
    }
  }

  lemma SideCase(s: string, last: bool)
    ensures ParseSide(Lower(s), last) == ParseSide(s, last)
  {
    hide ParseGroups, Split;
    SplitCase(s, ':');
    GroupsCase(Split(s, ':'), last);
  }

  lemma {:induction false} EllipsisCase(s: string)
    ensures Ellipsis(Lower(s)) == Ellipsis(s)
  {
    hide LowerChar;
    if |s| >= 2 {
      CharCase(s[0], ':');
      CharCase(s[1], ':');
      Pieces(s, 1);
      EllipsisCase(s[1..]);
    }
  }

  lemma HexadectetCase(s: string)
    ensures ParseHexadectet(Lower(s)) == ParseHexadectet(s)
  {
    hide ParseGroups, ParseSide, Split, Expand, Ellipsis, Lower;
    var i := Ellipsis(s);
    EllipsisCase(s);
    LowerLength(s);
    if i == |s| {
      SplitCase(s, ':');
      GroupsCase(Split(s, ':'), true);
    } else {
      Pieces(s, i);
      Pieces(s, i + 2);
      SideCase(s[..i], false);
      SideCase(s[i + 2..], true);
    }
  }

  lemma LowerLength(s: string)
    ensures |Lower(s)| == |s|
  {
  }

  lemma AddrCase(s: string)
    ensures ParseAddr(Lower(s)) == ParseAddr(s)
  {
    hide ParseHexadectet, ParseDotted, Lower;
    IndexCase(s, ':');
    IndexCase(s, '.');
    HexadectetCase(s);
    DottedCase(s);
  }

  /** A prefix in capitals is the prefix in small letters. */
  lemma PrefixCase(s: string)
    ensures ParsePrefix(Lower(s)) == ParsePrefix(s)
  {
    hide ParseAddr, ParseDecimal, Split, Lower;
    SplitCase(s, '/');
    var parts := Split(s, '/');
    if |parts| == 2 {
      AddrCase(parts[0]);
      DecimalCase(parts[1], 32);
      DecimalCase(parts[1], 128);
    }
  }

  lemma EntryCase(entry: string, p: Prefix)
    ensures CheckEntry(Lower(entry)) == Ok(p) <==> CheckEntry(entry) == Ok(p)
  {
    hide CheckEntry, ParsePrefix, Contains, LowerChar, IsRouteChar;
    AcceptedExactly(entry, p);
    AcceptedExactly(Lower(entry), p);
    PrefixCase(entry);
    forall i | 0 <= i < |entry| ensures IsRouteChar(Lower(entry)[i]) <==> IsRouteChar(entry[i]) {
      CharCase(entry[i], '.');
    }
    assert (forall c | c in entry :: IsRouteChar(c)) <==> forall i | 0 <= i < |entry| :: IsRouteChar(entry[i]);
    assert (forall c | c in Lower(entry) :: IsRouteChar(c)) <==> forall i | 0 <= i < |entry| :: IsRouteChar(Lower(entry)[i]);
  }

  lemma {:induction false} EntriesCase(entries: seq<string>, first: nat)
    requires CheckEntries(entries, first).Ok? || CheckEntries(Lowers(entries), first).Ok?
    ensures CheckEntries(Lowers(entries), first) == CheckEntries(entries, first)
  {
    hide CheckEntry, Lower;
    if entries != [] {
      assert Lowers(entries)[1..] == Lowers(entries[1..]);
      if CheckEntry(entries[0]).Ok? { EntryCase(entries[0], CheckEntry(entries[0]).value); }
      if CheckEntry(Lower(entries[0])).Ok? { EntryCase(entries[0], CheckEntry(Lower(entries[0])).value); }
      EntriesCase(entries[1..], first + 1);
    }
  }

  /** A list in capitals is accepted exactly when the one in small letters is, and both have one canonical form. */
  lemma ListCase(list: string)
    requires Canonical(list).Ok? || Canonical(Lower(list)).Ok?
    ensures Canonical(Lower(list)) == Canonical(list)
  {
    hide CheckEntries, Split, LengthError, PrefixText, Distinct, PrefixTexts, Join, Lower;
    LowerLength(list);
    if list != "" {
      SplitCase(list, ',');
      EntriesCase(Split(list, ','), 1);
    }
  }
}
