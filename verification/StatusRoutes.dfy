/** statusRoutes of cmd/tsks-helper/routes.go: the routes the daemon reports, for display. Unlike a submitted
    list, entries that cannot be shown are skipped. */
module StatusRoutes {
  import opened Wrappers
  import opened Netip
  import opened NetipText
  import opened Routes
  import Spelling

  /** The prefix of a reported entry that is shown. An entry that is no JSON string is none. */
  function Shown(entry: Option<string>): (r: Option<Prefix>)
    ensures r.Some? ==> r.value.Valid() && r.value == r.value.Masked() && r.value.bits > 0
  {
    if entry.None? || ParsePrefix(entry.value).None? then None
    else
      ParsedIsValid(entry.value);
      var p := ParsePrefix(entry.value).value;
      if p != p.Masked() || p.bits == 0 then None else Some(p)
  }

  function Kept(entries: seq<Option<string>>): (ps: seq<Prefix>)
    ensures forall p | p in ps :: p.Valid() && p == p.Masked() && p.bits > 0
  {
    if entries == [] then []
    else
      var init, last := Kept(entries[..|entries| - 1]), Shown(entries[|entries| - 1]);
      if last.Some? then init + [last.value] else init
  }

  /** Shown are exactly the masked prefixes other than the defaults that an entry spells. */
  lemma {:induction false} KeptExactly(entries: seq<Option<string>>, p: Prefix)
    ensures p in Kept(entries) <==>
            p.Valid() && p == p.Masked() && p.bits > 0
            && exists t: string :: Some(t) in entries && Spelling.SpellsPrefix(t, p)
  {
    hide ParsePrefix, Spelling.SpellsPrefix, Prefix.Masked, Prefix.Valid;
    if entries != [] {
      var n := |entries| - 1;
      var last := entries[n];
      KeptExactly(entries[..n], p);
      assert entries == entries[..n] + [last];
      if last.Some? {
        Spelling.ParsesExactly(last.value, p);
        if ParsePrefix(last.value).Some? {
          ParsedIsValid(last.value);
        }
      }
    }
  }

  /** One entry more: its prefix is added unless it is there already. */
  lemma KeptNext(entries: seq<Option<string>>, i: nat)
    requires i < |entries|
    ensures var ps, p, next := Kept(entries[..i]), Shown(entries[i]), Kept(entries[..i + 1]);
            if p.None? then next == ps
            else next == ps + [p.value] && Distinct(next) == if p.value in ps then Distinct(ps) else Distinct(ps) + [p.value]
  {
    hide ParsePrefix, Shown;
    var ps, p := Kept(entries[..i]), Shown(entries[i]);
    assert entries[..i + 1][..i] == entries[..i];
    if p.Some? {
      assert (ps + [p.value])[..|ps|] == ps;
    }
  }

  method ListRoutes(entries: seq<Option<string>>) returns (out: seq<string>)
    ensures out == PrefixTexts(Distinct(Kept(entries)))
  {
    hide ParsePrefix, PrefixText, Shown, Kept, Distinct;
    out := [];
    var seen: set<Prefix> := {};
    NothingKept();
    assert entries[..0] == [];
    for i := 0 to |entries|
      invariant forall p :: p in seen <==> p in Kept(entries[..i])
      invariant out == PrefixTexts(Distinct(Kept(entries[..i])))
    {
      KeptNext(entries, i);
      var p := Shown(entries[i]);
      if p.Some? && p.value !in seen {
        seen := seen + {p.value};
        out := out + [PrefixText(p.value)];
      }
    }
    assert entries[..|entries|] == entries;
  }

  lemma NothingKept()
    ensures Kept([]) == [] && Distinct([]) == []
  {
  }

  function Strings(texts: seq<string>): (s: seq<Option<string>>)
    ensures |s| == |texts| && forall i | 0 <= i < |s| :: s[i] == Some(texts[i])
  {
    if texts == [] then [] else Strings(texts[..|texts| - 1]) + [Some(texts[|texts| - 1])]
  }

  /** What is shown is read back as itself: the same prefixes, each once, in the same order. */
  lemma {:induction false} ShownReadsBack(d: seq<Prefix>)
    requires forall p | p in d :: p.Valid() && p == p.Masked() && p.bits > 0
    ensures Kept(Strings(PrefixTexts(d))) == d
  {
    hide ParsePrefix, PrefixText;
    if d != [] {
      var n := |d| - 1;
      ShownReadsBack(d[..n]);
      PrefixRoundTrip(d[n]);
      assert d == d[..n] + [d[n]];
      var texts := PrefixTexts(d);
      assert texts[..n] == PrefixTexts(d[..n]);
    }
  }

  lemma StatusRoutesAreStable(entries: seq<Option<string>>)
    ensures var out := PrefixTexts(Distinct(Kept(entries)));
            Kept(Strings(out)) == Distinct(Kept(entries)) && PrefixTexts(Distinct(Kept(Strings(out)))) == out
  {
    hide ParsePrefix, PrefixText, Shown, PrefixTexts, Strings;
    ShownReadsBack(Distinct(Kept(entries)));
    DistinctIsIdempotent(Distinct(Kept(entries)));
  }
}
