/** Validation of the custom route list (cmd/tsks-helper/routes.go). Strings hold one character per byte. */
module Routes {
  import opened Wrappers
  import opened Text
  import opened Netip
  import opened NetipText
  import Spelling

  const MAX_ROUTES: nat := 32
  const MAX_BYTES: nat := 2048

  datatype Reason =
    | TooLong | TooMany | EmptyEntry | HasSpace | BadCharacter | NotPrefix
    | HostBits(masked: string) | DefaultRoute | Prohibited(range: nat) | BadTransport

  datatype RouteError = RouteError(index: nat, entry: string, reason: Reason)

  /** Tailscale, loopback, multicast, link-local, unspecified and IPv4-mapped ranges. */
  const PROHIBITED: seq<Prefix> := [
    Prefix(Addr(false, 0x6440_0000), 10),
    Prefix(Addr(true, 0xfd7a_115c_a1e0_0000_0000_0000_0000_0000), 48),
    Prefix(Addr(false, 0x7f00_0000), 8),
    Prefix(Addr(true, 1), 128),
    Prefix(Addr(false, 0xe000_0000), 4),
    Prefix(Addr(true, 0xff00_0000_0000_0000_0000_0000_0000_0000), 8),
    Prefix(Addr(false, 0xa9fe_0000), 16),
    Prefix(Addr(true, 0xfe80_0000_0000_0000_0000_0000_0000_0000), 10),
    Prefix(Addr(false, 0), 32),
    Prefix(Addr(true, 0), 128),
    Prefix(Addr(true, 0xffff_0000_0000), 96)
  ]

  lemma ProhibitedValid()
    ensures forall q | q in PROHIBITED :: q.Valid()
  {
    hide Pow2;
    forall i | 0 <= i < |PROHIBITED| ensures PROHIBITED[i].Valid() {
      ProhibitedIsValid(i);
    }
  }

  lemma ProhibitedIsValid(i: nat)
    requires i < |PROHIBITED|
    ensures PROHIBITED[i].Valid()
  {
    hide Pow2;
    Powers4();
    Powers6();
    var q := PROHIBITED[i];
    assert q.addr.value <= 0xff00_0000_0000_0000_0000_0000_0000_0000 && 0 <= q.bits;
  }

  // ---- One entry -------------------------------------------------------------------------

  predicate IsRouteChar(c: char) {
    '0' <= c <= '9' || 'A' <= c <= 'F' || 'a' <= c <= 'f' || c == '.' || c == ':' || c == '/'
  }

  /** The bytes `s` starts with are the UTF-8 form of a Unicode space. A lead byte never occurs inside
      another character, so searching for these forms is the same as decoding first. */
  predicate StartsWithSpace(s: string) {
    || (|s| >= 1 && (s[0] == ' ' || 9 as char <= s[0] <= 13 as char))
    || (|s| >= 2 && s[0] == 0xC2 as char && (s[1] == 0x85 as char || s[1] == 0xA0 as char))
    || (|s| >= 3 && s[0] == 0xE1 as char && s[1] == 0x9A as char && s[2] == 0x80 as char)
    || (|s| >= 3 && s[0] == 0xE2 as char && s[1] == 0x80 as char
        && (0x80 as char <= s[2] <= 0x8A as char || s[2] == 0xA8 as char || s[2] == 0xA9 as char || s[2] == 0xAF as char))
    || (|s| >= 3 && s[0] == 0xE2 as char && s[1] == 0x81 as char && s[2] == 0x9F as char)
    || (|s| >= 3 && s[0] == 0xE3 as char && s[1] == 0x80 as char && s[2] == 0x80 as char)
  }

  predicate ContainsSpace(s: string) {
    s != "" && (StartsWithSpace(s) || ContainsSpace(s[1..]))
  }

  /** The first prohibited range from `i` on that overlaps, or the number of ranges. */
  function FirstOverlap(p: Prefix, i: nat): (k: nat)
    requires p.Valid() && i <= |PROHIBITED|
    ensures i <= k <= |PROHIBITED|
    decreases |PROHIBITED| - i
  {
    ProhibitedValid();
    if i == |PROHIBITED| || Overlaps(p, PROHIBITED[i]) then i else FirstOverlap(p, i + 1)
  }

  function CheckEntry(entry: string): (r: Result<Prefix, Reason>)
    ensures r.Ok? ==> r.value.Valid()
  {
    if entry == "" then Err(EmptyEntry)
    else if ContainsSpace(entry) then Err(HasSpace)
    else if exists c | c in entry :: !IsRouteChar(c) then Err(BadCharacter)
    else if ParsePrefix(entry).None? then Err(NotPrefix)
    else
      ParsedIsValid(entry);
      var p := ParsePrefix(entry).value;
      if p != p.Masked() then Err(HostBits(PrefixText(p.Masked())))
      else if p.bits == 0 then Err(DefaultRoute)
      else
        var k := FirstOverlap(p, 0);
        if k < |PROHIBITED| then Err(Prohibited(k)) else Ok(p)
  }

  // ---- The list --------------------------------------------------------------------------

  /** Every entry checked in turn, up to the first that is refused. */
  function CheckEntries(entries: seq<string>, first: nat): Result<seq<Prefix>, RouteError> {
    if entries == [] then Ok([])
    else match CheckEntry(entries[0])
      case Err(reason) => Err(RouteError(first, entries[0], reason))
      case Ok(p) =>
        match CheckEntries(entries[1..], first + 1)
        case Err(e) => Err(e)
        case Ok(rest) => Ok([p] + rest)
  }

  /** An accepted list has a prefix for every entry. */
  lemma {:induction false} CheckedAll(entries: seq<string>, first: nat)
    requires CheckEntries(entries, first).Ok?
    ensures var ps := CheckEntries(entries, first).value;
            |ps| == |entries| && forall i | 0 <= i < |entries| :: CheckEntry(entries[i]) == Ok(ps[i])
  {
    hide CheckEntry;
    if entries != [] {
      CheckedAll(entries[1..], first + 1);
    }
  }

  /** Each prefix once, at its first occurrence. */
  function Distinct(ps: seq<Prefix>): (d: seq<Prefix>)
    ensures forall p :: p in d <==> p in ps
    ensures forall i, j | 0 <= i < j < |d| :: d[i] != d[j]
    ensures |d| <= |ps|
  {
    if ps == [] then []
    else
      var init, last := ps[..|ps| - 1], ps[|ps| - 1];
      if last in init then Distinct(init) else Distinct(init) + [last]
  }

  function PrefixTexts(ps: seq<Prefix>): (texts: seq<string>)
    ensures |texts| == |ps| && forall i | 0 <= i < |ps| :: texts[i] == PrefixText(ps[i])
  {
    seq(|ps|, i requires 0 <= i < |ps| => PrefixText(ps[i]))
  }

  function Count(s: string, c: char): nat {
    if s == "" then 0 else Count(s[1..], c) + if s[0] == c then 1 else 0
  }

  function LastIndexAfter(s: string, c: char): (i: nat)
    ensures i <= |s|
  {
    if s == "" then 0
    else if s[|s| - 1] == c then |s|
    else LastIndexAfter(s[..|s| - 1], c)
  }

  /** The entry that crosses the size limit, and its number. */
  function LengthError(list: string): RouteError
    requires |list| > MAX_BYTES
  {
    var head := list[..MAX_BYTES + 1];
    var start := LastIndexAfter(head, ',');
    var end := Index(list[start..], ',');
    RouteError(Count(head, ',') + 1, list[start..start + end], TooLong)
  }

  /** The specification of customRoutes. */
  function Canonical(list: string): Result<string, RouteError> {
    if list == "" then Ok("")
    else if |list| > MAX_BYTES then Err(LengthError(list))
    else
      var entries := Split(list, ',');
      if |entries| > MAX_ROUTES then Err(RouteError(MAX_ROUTES + 1, entries[MAX_ROUTES], TooMany))
      else match CheckEntries(entries, 1)
        case Err(e) => Err(e)
        case Ok(ps) => Ok(Join(PrefixTexts(Distinct(ps)), ','))
  }

  lemma {:induction false} CheckExtends(entries: seq<string>, i: nat, first: nat)
    requires i < |entries| && CheckEntries(entries[..i], first).Ok? && CheckEntry(entries[i]).Ok?
    ensures CheckEntries(entries[..i + 1], first)
         == Ok(CheckEntries(entries[..i], first).value + [CheckEntry(entries[i]).value])
  {
    hide CheckEntry;
    if i == 0 {
      assert entries[..1] == [entries[0]] && entries[..1][1..] == [];
      var p := CheckEntry(entries[0]).value;
      assert [p] + [] == [] + [p];
    } else {
      assert entries[1..][..i - 1] == entries[..i][1..] && entries[1..][..i] == entries[..i + 1][1..];
      CheckExtends(entries[1..], i - 1, first + 1);
      var p, q := CheckEntry(entries[0]).value, CheckEntry(entries[i]).value;
      var rest := CheckEntries(entries[1..][..i - 1], first + 1).value;
      assert [p] + (rest + [q]) == [p] + rest + [q];
    }
  }

  lemma {:induction false} CheckStops(entries: seq<string>, i: nat, first: nat)
    requires i < |entries| && CheckEntries(entries[..i], first).Ok? && CheckEntry(entries[i]).Err?
    ensures CheckEntries(entries, first) == Err(RouteError(first + i, entries[i], CheckEntry(entries[i]).error))
  {
    hide CheckEntry;
    if i > 0 {
      assert entries[1..][..i - 1] == entries[..i][1..];
      CheckStops(entries[1..], i - 1, first + 1);
    }
  }

  lemma NothingChecked()
    ensures CheckEntries([], 1) == Ok([])
  {
  }

  /** customRoutes: one pass over the entries, a set of prefixes seen, a slice of texts. */
  method CustomRoutes(list: string) returns (r: Result<string, RouteError>)
    ensures r == Canonical(list)
  {
    hide CheckEntry, Split, LengthError, PrefixText, Join, ParsePrefix, CheckEntries;
    NothingChecked();
    if list == "" {
      return Ok("");
    }
    if |list| > MAX_BYTES {
      return Err(LengthError(list));
    }
    var entries := Split(list, ',');
    if |entries| > MAX_ROUTES {
      return Err(RouteError(MAX_ROUTES + 1, entries[MAX_ROUTES], TooMany));
    }
    var seen: set<Prefix> := {};
    var out: seq<string> := [];
    ghost var ps: seq<Prefix> := [];
    var i := 0;
    while i < |entries|
      invariant i <= |entries| && CheckEntries(entries[..i], 1) == Ok(ps)
      invariant forall p :: p in seen <==> p in ps
      invariant out == PrefixTexts(Distinct(ps))
    {
      var entry := entries[i];
      var verdict := ValidateEntry(entry);
      if verdict.Err? {
        CheckStops(entries, i, 1);
        return Err(RouteError(i + 1, entry, verdict.error));
      }
      var p := verdict.value;
      CheckExtends(entries, i, 1);
      assert (ps + [p])[..|ps|] == ps;
      if p !in seen {
        seen := seen + {p};
        out := out + [PrefixText(p)];
        assert (Distinct(ps) + [p])[..|Distinct(ps)|] == Distinct(ps);
      }
      ps := ps + [p];
      i := i + 1;
    }
    assert entries[..i] == entries;
    r := Ok(Join(out, ','));
  }

  /** The body of the entry loop, with its scan of the prohibited ranges. */
  method ValidateEntry(entry: string) returns (r: Result<Prefix, Reason>)
    ensures r == CheckEntry(entry)
  {
    hide ParsePrefix, Overlaps, ContainsSpace, IsRouteChar, PrefixText, Mask, Prefix.Valid, Prefix.Masked;
    if entry == "" {
      return Err(EmptyEntry);
    }
    if ContainsSpace(entry) {
      return Err(HasSpace);
    }
    if exists c | c in entry :: !IsRouteChar(c) {
      return Err(BadCharacter);
    }
    var parsed := ParsePrefix(entry);
    if parsed.None? {
      return Err(NotPrefix);
    }
    ParsedIsValid(entry);
    var p := parsed.value;
    if p != p.Masked() {
      return Err(HostBits(PrefixText(p.Masked())));
    }
    if p.bits == 0 {
      return Err(DefaultRoute);
    }
    ProhibitedValid();
    var k := 0;
    while k < |PROHIBITED|
      invariant k <= |PROHIBITED| && FirstOverlap(p, 0) == FirstOverlap(p, k)
    {
      if Overlaps(p, PROHIBITED[k]) {
        return Err(Prohibited(k));
      }
      k := k + 1;
    }
    r := Ok(p);
  }

  // ---- Safety: accepted routes avoid the prohibited ranges ---------------------------------

  lemma {:induction false} NoOverlap(p: Prefix, i: nat)
    requires p.Valid() && i <= |PROHIBITED|
    ensures FirstOverlap(p, i) == |PROHIBITED| <==>
      forall k | i <= k < |PROHIBITED| :: PROHIBITED[k].Valid() && !Overlaps(p, PROHIBITED[k])
    decreases |PROHIBITED| - i
  {
    ProhibitedValid();
    if i < |PROHIBITED| {
      NoOverlap(p, i + 1);
    }
  }

  /** The scan of the ranges finds none exactly when the prefix shares no address with any of them. */
  lemma ScanIsDisjointness(p: Prefix)
    requires p.Valid()
    ensures FirstOverlap(p, 0) == |PROHIBITED| <==>
      forall q, a | q in PROHIBITED && q.Valid() :: !(Contains(p, a) && Contains(q, a))
  {
    hide FirstOverlap, Overlaps, Contains, Mask, Pow2;
    ProhibitedValid();
    NoOverlap(p, 0);
    forall q | q in PROHIBITED ensures Overlaps(p, q) <==> exists a :: Contains(p, a) && Contains(q, a) {
      OverlapIsIntersection(p, q);
    }
  }

  /** An entry is accepted exactly when it consists of CIDR characters and parses to a masked,
      non-default prefix that shares no address with any prohibited range. */
  lemma AcceptedExactly(entry: string, p: Prefix)
    ensures CheckEntry(entry) == Ok(p) <==>
      && entry != "" && (forall c | c in entry :: IsRouteChar(c))
      && ParsePrefix(entry) == Some(p)
      && p.Valid() && p.Masked() == p && p.bits > 0
      && forall q, a | q in PROHIBITED && q.Valid() :: !(Contains(p, a) && Contains(q, a))
  {
    hide FirstOverlap, ParsePrefix, Contains, PrefixText, ContainsSpace, IsRouteChar, Mask, Pow2;
    if forall c | c in entry :: IsRouteChar(c) {
      NoSpace(entry);
    }
    if ParsePrefix(entry) == Some(p) {
      ParsedIsValid(entry);
      ScanIsDisjointness(p);
    }
  }

  lemma SpellingChars(entry: string, p: Prefix)
    requires Spelling.SpellsPrefix(entry, p)
    ensures entry != "" && forall c | c in entry :: IsRouteChar(c)
  {
    hide Spelling.SpellsAddr, Spelling.SpellsDecimal;
    var a, b :| Spelling.SpellsAddr(a, p.addr) && Spelling.SpellsDecimal(b, p.bits, Width(p.addr.v6)) && entry == a + "/" + b;
    forall c | c in entry ensures IsRouteChar(c) {
      if !IsRouteChar(c) {
        Spelling.AddrChars(a, p.addr, c);
        Spelling.DecimalChars(b, p.bits, Width(p.addr.v6), c);
      }
    }
  }

  /** The same without the parser: the accepted texts are the spellings of such prefixes. */
  lemma AcceptedSpellings(entry: string, p: Prefix)
    ensures CheckEntry(entry) == Ok(p) <==>
      && Spelling.SpellsPrefix(entry, p)
      && p.Valid() && p.Masked() == p && p.bits > 0
      && forall q, a | q in PROHIBITED && q.Valid() :: !(Contains(p, a) && Contains(q, a))
  {
    hide CheckEntry, ParsePrefix, Contains, IsRouteChar, Mask, Pow2, Spelling.SpellsPrefix;
    AcceptedExactly(entry, p);
    Spelling.ParsesExactly(entry, p);
    if Spelling.SpellsPrefix(entry, p) { SpellingChars(entry, p); }
  }

  lemma {:induction false} NoSpace(s: string)
    requires forall c | c in s :: IsRouteChar(c)
    ensures !ContainsSpace(s)
  {
    if s != "" {
      assert s[0] in s && (|s| >= 2 ==> s[1] in s);
      NoSpace(s[1..]);
    }
  }

  /** Every route of an accepted list is disjoint from every prohibited range. */
  lemma AcceptedRoutesAvoidProhibited(list: string, ps: seq<Prefix>, i: nat, q: Prefix, a: Addr)
    requires CheckEntries(Split(list, ','), 1) == Ok(ps) && i < |ps| && q in PROHIBITED && q.Valid() && ps[i].Valid()
    ensures !(Contains(ps[i], a) && Contains(q, a))
  {
    hide CheckEntries, CheckEntry, Split, Contains, ParsePrefix, Mask, Pow2;
    CheckedAll(Split(list, ','), 1);
    AcceptedExactly(Split(list, ',')[i], ps[i]);
  }

  // ---- Canonical form ------------------------------------------------------------------------

  lemma PrefixTextChars(p: Prefix, c: char)
    requires c in PrefixText(p)
    ensures IsRouteChar(c)
  {
    if !IsRouteChar(c) {
      AddrClean(p.addr, c);
    }
  }

  /** The canonical text of an accepted prefix is accepted and means the same prefix. */
  lemma CanonicalEntry(entry: string, p: Prefix)
    requires CheckEntry(entry) == Ok(p)
    ensures CheckEntry(PrefixText(p)) == Ok(p)
  {
    var t := PrefixText(p);
    PrefixRoundTrip(p);
    PrefixLength(p);
    forall c | c in t ensures IsRouteChar(c) {
      PrefixTextChars(p, c);
    }
    AcceptedExactly(entry, p);
    AcceptedExactly(t, p);
  }

  ghost predicate Accepted(p: Prefix) {
    exists entry :: CheckEntry(entry) == Ok(p)
  }

  lemma {:induction false} CanonicalEntries(ps: seq<Prefix>, texts: seq<string>, first: nat)
    requires |texts| == |ps| && forall i | 0 <= i < |ps| :: Accepted(ps[i]) && texts[i] == PrefixText(ps[i])
    ensures CheckEntries(texts, first) == Ok(ps)
  {
    hide CheckEntry, PrefixText;
    if ps != [] {
      var entry :| CheckEntry(entry) == Ok(ps[0]);
      CanonicalEntry(entry, ps[0]);
      CanonicalEntries(ps[1..], texts[1..], first + 1);
      assert ps == [ps[0]] + ps[1..];
    }
  }

  lemma {:induction false} DistinctIsIdempotent(d: seq<Prefix>)
    requires forall i, j | 0 <= i < j < |d| :: d[i] != d[j]
    ensures Distinct(d) == d
  {
    if d != [] {
      DistinctIsIdempotent(d[..|d| - 1]);
    }
  }

  /** A nonempty list of distinct accepted prefixes, written out, is short enough and is its own
      canonical form. */
  lemma CanonicalList(d: seq<Prefix>)
    requires 0 < |d| <= MAX_ROUTES && forall i | 0 <= i < |d| :: Accepted(d[i])
    requires forall i, j | 0 <= i < j < |d| :: d[i] != d[j]
    ensures var out := Join(PrefixTexts(d), ',');
      |out| <= 32 * 43 + 31 && CheckEntries(Split(out, ','), 1) == Ok(d) && Canonical(out) == Ok(out)
  {
    hide CheckEntry, Split, PrefixText, CheckEntries, Distinct, PrefixTexts;
    var texts := PrefixTexts(d);
    forall i | 0 <= i < |d| ensures 0 < |texts[i]| <= 43 && ',' !in texts[i] {
      AcceptedText(d[i]);
    }
    JoinLength(texts, ',', 43);
    SplitJoin(texts, ',');
    CanonicalEntries(d, texts, 1);
    DistinctIsIdempotent(d);
    assert texts[0] <= Join(texts, ',');
  }

  lemma AcceptedText(p: Prefix)
    requires Accepted(p)
    ensures 0 < |PrefixText(p)| <= 43 && ',' !in PrefixText(p)
  {
    PrefixLength(p);
    if ',' in PrefixText(p) {
      PrefixTextChars(p, ',');
    }
  }

  /** customRoutes is a canonicaliser: an accepted list of prefixes ps becomes the distinct ones in
      first-occurrence order, in at most 1407 bytes, and that text is left unchanged by a second run. */
  lemma CustomRoutesCanonicalise(list: string)
    requires Canonical(list).Ok? && list != ""
    ensures var out := Canonical(list).value;
      var ps := CheckEntries(Split(list, ','), 1);
      && ps.Ok? && |out| <= 32 * 43 + 31
      && CheckEntries(Split(out, ','), 1) == Ok(Distinct(ps.value))
      && Canonical(out) == Ok(out)
  {
    hide CheckEntry, Split, PrefixText, CheckEntries;
    var ps := CheckEntries(Split(list, ','), 1).value;
    CheckedAll(Split(list, ','), 1);
    forall p | p in ps ensures Accepted(p) {
      var i :| 0 <= i < |ps| && ps[i] == p;
      assert CheckEntry(Split(list, ',')[i]) == Ok(p);
    }
    assert ps[0] in Distinct(ps);
    CanonicalList(Distinct(ps));
  }
}
