/** routes-plan: reading the managed list and the daemon's answers, and the line it prints. */
module PlanText {
  import opened Wrappers
  import opened Text
  import opened Netip
  import opened NetipText
  import opened Routes
  import opened Plan

  datatype RouteInfo = RouteInfo(control: seq<Prefix>, domains: seq<seq<Option<Addr>>>)

  datatype Answer = Keep | Set(text: string)

  datatype Failure = InvalidManaged | CurrentUnavailable | CurrentInvalid | InfoUnavailable

  const DEFAULTS: seq<Prefix> := [Prefix(Addr(false, 0), 0), Prefix(Addr(true, 0), 0)]

  predicate IsDefault(p: Prefix) {
    p.Valid() && p.bits == 0
  }

  // ---- Learned routes --------------------------------------------------------------------------

  function Unmap(a: Addr): Addr {
    if Mapped(a) then Addr(false, a.value % 0x1_0000_0000) else a
  }

  function Single(a: Addr): Prefix {
    Prefix(Unmap(a), Width(Unmap(a).v6))
  }

  function Controls(control: seq<Prefix>): seq<Prefix> {
    if control == [] then []
    else
      var init, last := Controls(control[..|control| - 1]), control[|control| - 1];
      if IsDefault(last) then init else init + [last]
  }

  function Singles(addrs: seq<Option<Addr>>): seq<Prefix> {
    if addrs == [] then []
    else
      var init, last := Singles(addrs[..|addrs| - 1]), addrs[|addrs| - 1];
      if last.Some? then init + [Single(last.value)] else init
  }

  function AllSingles(domains: seq<seq<Option<Addr>>>): seq<Prefix> {
    if domains == [] then [] else AllSingles(domains[..|domains| - 1]) + Singles(domains[|domains| - 1])
  }

  function Learned(info: RouteInfo): seq<Prefix> {
    Controls(info.control) + AllSingles(info.domains)
  }

  /** routeInfoPrefixes; the domains come in whatever order the map is walked. */
  method RouteInfoPrefixes(info: RouteInfo) returns (out: seq<Prefix>)
    ensures out == Learned(info)
  {
    out := [];
    var i := 0;
    while i < |info.control|
      invariant i <= |info.control| && out == Controls(info.control[..i])
    {
      assert info.control[..i + 1][..i] == info.control[..i];
      if !IsDefault(info.control[i]) {
        out := out + [info.control[i]];
      }
      i := i + 1;
    }
    assert info.control[..i] == info.control;
    ghost var controls := out;
    var k := 0;
    while k < |info.domains|
      invariant k <= |info.domains| && out == controls + AllSingles(info.domains[..k])
    {
      assert info.domains[..k + 1][..k] == info.domains[..k];
      var addrs := info.domains[k];
      ghost var before := out;
      var j := 0;
      while j < |addrs|
        invariant j <= |addrs| && out == before + Singles(addrs[..j])
      {
        assert addrs[..j + 1][..j] == addrs[..j];
        if addrs[j].Some? {
          out := out + [Single(addrs[j].value)];
        }
        j := j + 1;
      }
      assert addrs[..j] == addrs;
      k := k + 1;
    }
    assert info.domains[..k] == info.domains;
  }

  lemma {:induction false} ControlsHas(control: seq<Prefix>, p: Prefix)
    ensures p in Controls(control) <==> p in control && !(p.Valid() && p.bits == 0)
  {
    if control != [] {
      ControlsHas(control[..|control| - 1], p);
      assert control == control[..|control| - 1] + [control[|control| - 1]];
    }
  }

  /** One of these addresses, as a prefix. */
  ghost predicate Learns(addrs: seq<Option<Addr>>, p: Prefix) {
    exists a: Addr :: Some(a) in addrs && p == Single(a)
  }

  lemma {:induction false} SinglesHas(addrs: seq<Option<Addr>>, p: Prefix)
    ensures p in Singles(addrs) <==> Learns(addrs, p)
  {
    if addrs != [] {
      var n := |addrs| - 1;
      SinglesHas(addrs[..n], p);
      assert addrs == addrs[..n] + [addrs[n]];
      assert addrs[n].Some? ==> addrs[n] == Some(addrs[n].value);
    }
  }

  lemma {:induction false} AllSinglesHas(domains: seq<seq<Option<Addr>>>, p: Prefix)
    ensures p in AllSingles(domains) <==> exists addrs :: addrs in domains && Learns(addrs, p)
  {
    hide Learns;
    if domains != [] {
      var n := |domains| - 1;
      AllSinglesHas(domains[..n], p);
      SinglesHas(domains[n], p);
      assert domains == domains[..n] + [domains[n]];
    }
  }

  /** The addresses a learned prefix stands for: one, and for an IPv4 address carried by an IPv6 one that one. */
  lemma SingleIsOne(a: Addr, b: Addr)
    requires a.value < Pow2(Width(a.v6))
    ensures Single(a).Valid()
    ensures var low := a.value % 0x1_0000_0000;
      var meant := if a.v6 && a.value - low == 0xffff_0000_0000 then Addr(false, low) else a;
      Contains(Single(a), b) <==> b == meant
  {
    Powers4();
    Powers6();
    assert Pow2(0) == 1;
    assert Mapped(a) <==> a.v6 && a.value - a.value % 0x1_0000_0000 == 0xffff_0000_0000;
    assert forall v: nat :: Mask(v, 0) == v;
  }

  /** Learned are the control routes but for the defaults, and one address prefix for every valid address. */
  lemma LearnedExactly(info: RouteInfo, p: Prefix)
    ensures p in Learned(info) <==>
      || (p in info.control && !(p.Valid() && p.bits == 0))
      || exists addrs :: addrs in info.domains && Learns(addrs, p)
  {
    ControlsHas(info.control, p);
    AllSinglesHas(info.domains, p);
  }

  // ---- The command --------------------------------------------------------------------------------

  function Managed(entries: seq<string>): Option<seq<Prefix>> {
    if entries == [] then Some([])
    else match (Managed(entries[..|entries| - 1]), ParsePrefix(entries[|entries| - 1]))
      case (Some(init), Some(p)) =>
        ParsedIsValid(entries[|entries| - 1]);
        if p.bits == 0 then None else Some(init + [p.Masked()])
      case _ => None
  }

  function Declared(list: string, exit: bool): Option<seq<Prefix>> {
    match Managed(if list == "" then [] else Split(list, ','))
    case None => None
    case Some(d) => Some(d + if exit then DEFAULTS else [])
  }

  function NonDefault(ps: seq<Prefix>): seq<Prefix> {
    if ps == [] then []
    else
      var init, last := NonDefault(ps[..|ps| - 1]), ps[|ps| - 1];
      if last.bits == 0 then init else init + [last]
  }

  ghost function LearnedOr(info: Option<RouteInfo>): seq<Prefix> {
    if info.Some? then Learned(info.value) else []
  }

  /** The loop that reads the managed list. */
  method ReadManaged(entries: seq<string>) returns (d: Option<seq<Prefix>>)
    ensures d == Managed(entries)
  {
    hide ParsePrefix, Prefix.Masked, Prefix.Valid;
    var ps: seq<Prefix> := [];
    var i := 0;
    while i < |entries|
      invariant i <= |entries| && Managed(entries[..i]) == Some(ps)
    {
      assert entries[..i + 1][..i] == entries[..i];
      var p := ParsePrefix(entries[i]);
      if p.None? || p.value.bits == 0 {
        ManagedStops(entries, i);
        return None;
      }
      ParsedIsValid(entries[i]);
      ps := ps + [p.value.Masked()];
      i := i + 1;
    }
    assert entries[..i] == entries;
    d := Some(ps);
  }

  /** The loop that writes the values, the default routes left to the exit-node flag. */
  method WriteValues(desired: seq<Prefix>) returns (text: string)
    ensures text == Join(PrefixTexts(NonDefault(desired)), ',')
  {
    hide PrefixText, Join;
    var values: seq<string> := [];
    var k := 0;
    while k < |desired|
      invariant k <= |desired| && values == PrefixTexts(NonDefault(desired[..k]))
    {
      assert desired[..k + 1][..k] == desired[..k];
      if desired[k].bits != 0 {
        values := values + [PrefixText(desired[k])];
        assert (NonDefault(desired[..k]) + [desired[k]])[..|NonDefault(desired[..k])|] == NonDefault(desired[..k]);
      }
      k := k + 1;
    }
    assert desired[..k] == desired;
    text := Join(values, ',');
  }

  /** routesPlan with the two LocalAPI reads as inputs; None is a failed or empty read. */
  method RoutesPlan(list: string, exit: bool, connector: bool, prefs: Option<seq<Prefix>>, info: Option<RouteInfo>)
    returns (r: Result<Answer, Failure>)
    ensures r.Err? && r.error.InvalidManaged? <==> Declared(list, exit).None?
    ensures r.Ok? <==> Declared(list, exit).Some? && prefs.Some? && (forall q | q in prefs.value :: q.Valid())
                       && (connector ==> info.Some?)
    ensures r.Ok? ==>
      var d, l := Declared(list, exit).value, if connector then LearnedOr(info) else [];
      && (r.value.Keep? <==> Elements(Normal(prefs.value)) == Target(prefs.value, d, l, connector))
      && (r.value.Set? ==>
            r.value.text == Join(PrefixTexts(NonDefault(Planned(prefs.value, d, l, connector))), ','))
  {
    hide Normal, Target, Planned, Learned, Managed, Join, Split, NonDefault, PrefixTexts, Prefix.Valid, Elements;
    var entries := if list == "" then [] else Split(list, ',');
    var managed := ReadManaged(entries);
    if managed.None? {
      return Err(InvalidManaged);
    }
    var d := managed.value + if exit then DEFAULTS else [];
    if prefs.None? {
      return Err(CurrentUnavailable);
    }
    if exists q | q in prefs.value :: !q.Valid() {
      return Err(CurrentInvalid);
    }
    var learned: seq<Prefix> := [];
    if connector {
      if info.None? {
        return Err(InfoUnavailable);
      }
      learned := RouteInfoPrefixes(info.value);
    }
    var keep, desired := PlanRoutes(prefs.value, d, learned, connector);
    if keep {
      return Ok(Keep);
    }
    var text := WriteValues(desired);
    r := Ok(Set(text));
  }

  lemma {:induction false} ManagedStops(entries: seq<string>, i: nat)
    requires i < |entries| && Managed(entries[..i + 1]).None?
    ensures Managed(entries).None?
    decreases |entries| - i
  {
    if i + 1 == |entries| {
      assert entries[..i + 1] == entries;
    } else {
      assert entries[..i + 2][..i + 1] == entries[..i + 1];
      ManagedStops(entries, i + 1);
    }
  }

  // ---- What the printed line means --------------------------------------------------------------

  function Texted(text: string): Option<seq<Prefix>> {
    Managed(if text == "" then [] else Split(text, ','))
  }

  predicate Clean(ps: seq<Prefix>) {
    forall i | 0 <= i < |ps| :: ps[i].Valid() && ps[i].Masked() == ps[i]
  }

  lemma MaskedIsClean(p: Prefix)
    requires p.Valid()
    ensures p.Masked().Valid() && p.Masked().Masked() == p.Masked()
  {
    MaskMask(p.addr.value, Width(p.addr.v6) - p.bits, Width(p.addr.v6) - p.bits);
  }

  lemma {:induction false} MaskedValidClean(list: seq<Prefix>)
    ensures Clean(MaskedValid(list))
  {
    hide Prefix.Masked, Prefix.Valid;
    if list != [] {
      MaskedValidClean(list[..|list| - 1]);
      if list[|list| - 1].Valid() {
        MaskedIsClean(list[|list| - 1]);
      }
    }
  }

  lemma NormalClean(list: seq<Prefix>)
    ensures Clean(Normal(list))
  {
    MaskedValidClean(list);
    forall i | 0 <= i < |Normal(list)| ensures Normal(list)[i].Valid() && Normal(list)[i].Masked() == Normal(list)[i] {
      assert Normal(list)[i] in MaskedValid(list);
    }
  }

  /** A clean list is its own masked form. */
  lemma {:induction false} CleanIsMasked(ps: seq<Prefix>)
    requires Clean(ps)
    ensures MaskedValid(ps) == ps
  {
    if ps != [] {
      CleanIsMasked(ps[..|ps| - 1]);
    }
  }

  lemma {:induction false} NonDefaultElements(ps: seq<Prefix>)
    ensures forall q :: q in NonDefault(ps) <==> q in ps && q.bits != 0
    ensures Clean(ps) ==> Clean(NonDefault(ps))
  {
    if ps != [] {
      NonDefaultElements(ps[..|ps| - 1]);
      assert forall q :: q in ps <==> q in ps[..|ps| - 1] || q == ps[|ps| - 1];
    }
  }

  lemma {:induction false} ManagedTexts(ps: seq<Prefix>)
    requires Clean(ps) && forall i | 0 <= i < |ps| :: ps[i].bits != 0
    ensures Managed(PrefixTexts(ps)) == Some(ps)
  {
    hide PrefixText, ParsePrefix;
    if ps != [] {
      var init, last := ps[..|ps| - 1], ps[|ps| - 1];
      ManagedTexts(init);
      PrefixRoundTrip(last);
      assert PrefixTexts(ps)[..|ps| - 1] == PrefixTexts(init);
      assert ps == init + [last];
    }
  }

  /** The printed values parse back to exactly the non-default routes of the plan. */
  lemma ValuesRoundTrip(ps: seq<Prefix>)
    requires Clean(ps)
    ensures Texted(Join(PrefixTexts(NonDefault(ps)), ',')) == Some(NonDefault(ps))
  {
    hide PrefixText, ParsePrefix, Managed;
    NonDefaultElements(ps);
    var q := NonDefault(ps);
    forall i | 0 <= i < |q| ensures q[i].bits != 0 { assert q[i] in q; }
    ManagedTexts(q);
    forall i | 0 <= i < |q| ensures ',' !in PrefixTexts(q)[i] && PrefixTexts(q)[i] != "" {
      PrefixLength(q[i]);
      if ',' in PrefixText(q[i]) {
        PrefixTextChars(q[i], ',');
      }
    }
    if q != [] {
      SplitJoin(PrefixTexts(q), ',');
      assert PrefixTexts(q)[0] <= Join(PrefixTexts(q), ',');
    }
  }

  // ---- Applying the plan --------------------------------------------------------------------------

  lemma {:induction false} ManagedIsClean(entries: seq<string>)
    requires Managed(entries).Some?
    ensures Clean(Managed(entries).value)
    ensures forall q | q in Managed(entries).value :: q.bits != 0
  {
    hide ParsePrefix, Prefix.Masked, Prefix.Valid;
    if entries != [] {
      var init, last := entries[..|entries| - 1], entries[|entries| - 1];
      ManagedIsClean(init);
      ParsedIsValid(last);
      MaskedIsClean(ParsePrefix(last).value);
      MaskedBits(ParsePrefix(last).value);
    }
  }

  lemma MaskedBits(p: Prefix)
    requires p.Valid()
    ensures p.Masked().bits == p.bits
  {
  }

  lemma {:induction false} ControlsDefaults(control: seq<Prefix>)
    ensures forall q | q in Controls(control) :: !IsDefault(q)
  {
    hide IsDefault;
    if control != [] {
      ControlsDefaults(control[..|control| - 1]);
    }
  }

  lemma {:induction false} SinglesDefaults(addrs: seq<Option<Addr>>)
    ensures forall q | q in Singles(addrs) :: !IsDefault(q)
  {
    hide Unmap;
    if addrs != [] {
      SinglesDefaults(addrs[..|addrs| - 1]);
    }
  }

  lemma {:induction false} AllSinglesDefaults(domains: seq<seq<Option<Addr>>>)
    ensures forall q | q in AllSingles(domains) :: !IsDefault(q)
  {
    hide IsDefault, Singles;
    if domains != [] {
      AllSinglesDefaults(domains[..|domains| - 1]);
      SinglesDefaults(domains[|domains| - 1]);
    }
  }

  /** Masking keeps the length, so a list without default routes has none after normalisation. */
  lemma {:induction false} MaskedDefaults(list: seq<Prefix>)
    requires forall q | q in list :: !IsDefault(q)
    ensures forall q | q in MaskedValid(list) :: q.bits != 0
  {
    if list != [] {
      var init := list[..|list| - 1];
      assert forall q | q in init :: q in list;
      MaskedDefaults(init);
      assert list[|list| - 1] in list;
    }
  }

  lemma {:induction false} MaskedDefaultsBack(list: seq<Prefix>, more: seq<Prefix>)
    ensures MaskedValid(list + more) == MaskedValid(list) + MaskedValid(more)
  {
    if more == [] {
      assert list + more == list;
    } else {
      var r := more[..|more| - 1];
      assert (list + more)[..|list + more| - 1] == list + r;
      MaskedDefaultsBack(list, r);
    }
  }

  lemma DefaultsNormal()
    ensures Clean(DEFAULTS) && MaskedValid(DEFAULTS) == DEFAULTS
  {
    hide Pow2, Mask;
    MaskZero(0, 32);
    MaskZero(0, 128);
    CleanIsMasked(DEFAULTS);
  }

  /** A clean route of length zero is one of the two default routes. */
  lemma ZeroBits(q: Prefix)
    requires q.Valid() && q.Masked() == q && q.bits == 0
    ensures q in DEFAULTS
  {
    hide Pow2, Mask;
    MaskZero(q.addr.value, Width(q.addr.v6));
    assert q == DEFAULTS[if q.addr.v6 then 1 else 0];
  }

  lemma DeclaredElements(list: string, exit: bool, d: seq<Prefix>, q: Prefix)
    requires Declared(list, exit) == Some(d)
    ensures q in Normal(d) ==> q.Valid() && q.Masked() == q
    ensures q in Normal(d) && q.bits == 0 ==> exit
    ensures exit && q in DEFAULTS ==> q in Normal(d)
    ensures forall p, l, connector :: q in Normal(d) ==> q in Target(p, d, l, connector)
  {
    hide Managed, Distinct, Prefix.Valid, Prefix.Masked;
    var m := Managed(if list == "" then [] else Split(list, ',')).value;
    ManagedIsClean(if list == "" then [] else Split(list, ','));
    CleanIsMasked(m);
    NormalClean(d);
    DefaultsNormal();
    if exit {
      MaskedDefaultsBack(m, DEFAULTS);
    } else {
      assert d == m;
    }
  }

  lemma TargetElements(list: string, exit: bool, d: seq<Prefix>, p: seq<Prefix>, l: seq<Prefix>, connector: bool, q: Prefix)
    requires Declared(list, exit) == Some(d)
    requires forall r | r in l :: !IsDefault(r)
    requires q in Target(p, d, l, connector)
    ensures q.Valid() && q.Masked() == q && (q.bits == 0 ==> exit)
  {
    DeclaredElements(list, exit, d, q);
    if q !in Normal(d) {
      NormalClean(l);
      MaskedDefaults(l);
      assert q in MaskedValid(l);
    }
  }

  /** The printed line, applied by the CLI together with the exit-node flag, installs exactly the
      target: each route once, the default routes only through the flag; and planning again with the
      same learned routes keeps it. */
  lemma PrintedPlanIsTarget(list: string, exit: bool, d: seq<Prefix>, p: seq<Prefix>, l: seq<Prefix>, connector: bool)
    requires Declared(list, exit) == Some(d)
    requires forall r | r in l :: !IsDefault(r)
    ensures var values := Texted(Join(PrefixTexts(NonDefault(Planned(p, d, l, connector))), ','));
      && values.Some? && NoDuplicates(values.value) && (forall q | q in values.value :: q.bits != 0)
      && var installed := values.value + if exit then DEFAULTS else [];
      && Elements(installed) == Target(p, d, l, connector)
      && Elements(Normal(installed)) == Target(installed, d, l, connector)
  {
    hide Normal, Target, Planned, NonDefault, PrefixTexts, Texted, Declared, Distinct, Prefix.Valid, Prefix.Masked, IsDefault;
    var planned := Planned(p, d, l, connector);
    var t := Target(p, d, l, connector);
    PlannedIsTarget(p, d, l, connector);
    forall q | q in t ensures q.Valid() && q.Masked() == q && (q.bits == 0 ==> exit && q in DEFAULTS) {
      TargetElements(list, exit, d, p, l, connector, q);
      if q.bits == 0 { ZeroBits(q); }
    }
    forall i | 0 <= i < |planned| ensures planned[i].Valid() && planned[i].Masked() == planned[i] {
      assert planned[i] in planned && planned[i] in t;
    }
    ValuesRoundTrip(planned);
    NonDefaultElements(planned);
    NonDefaultDistinct(planned);
    var values := NonDefault(planned);
    var installed := values + if exit then DEFAULTS else [];
    DefaultsNormal();
    forall q ensures q in installed <==> q in t {
      assert q in planned <==> q in Elements(planned);
      DeclaredElements(list, exit, d, q);
      assert q in DEFAULTS ==> q.bits == 0;
    }
    InstalledIsNormal(installed);
    ReplanKeeps(p, d, l, connector, installed, l);
  }

  lemma InstalledIsNormal(installed: seq<Prefix>)
    requires Clean(installed)
    ensures Elements(Normal(installed)) == Elements(installed)
  {
    CleanIsMasked(installed);
  }

  lemma {:induction false} NonDefaultDistinct(ps: seq<Prefix>)
    requires NoDuplicates(ps)
    ensures NoDuplicates(NonDefault(ps))
  {
    if ps != [] {
      var init := ps[..|ps| - 1];
      NonDefaultDistinct(init);
      NonDefaultElements(init);
      forall i | 0 <= i < |NonDefault(init)| ensures NonDefault(init)[i] != ps[|ps| - 1] {
        assert NonDefault(init)[i] in init;
      }
    }
  }
}
