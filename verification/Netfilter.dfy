/** The iptables commands of the firewall functions over lists of rules that change in place, and the loops
    that delete rules one by one. */
module Netfilter {
  import opened Wrappers
  import opened Firewall

  // `reach(k)` is how many commands of the k-th group of an apply succeed.

  /** Every command of ts_chain succeeds. */
  predicate ChainWorks(h: Hook, reach: nat) {
    reach > if h.Postrouting? then 2 else 1
  }

  predicate HooksWork(reach: int -> nat) {
    ChainWorks(Input, reach(0)) && ChainWorks(Output, reach(1)) && ChainWorks(Forward, reach(2))
  }

  predicate DropsWork(c: Setup, reach: int -> nat) {
    c.drop ==> reach(3) > 0 && reach(4) > 0
  }

  predicate LanWorks(c: Setup, reach: int -> nat) {
    c.lan.Some? ==> reach(5) > 0 && reach(6) > 0
  }

  predicate FilterWorks(c: Setup, reach: int -> nat) {
    HooksWork(reach) && DropsWork(c, reach) && LanWorks(c, reach)
  }

  predicate NatWorks(c: Setup, reach: int -> nat) {
    && ChainWorks(Postrouting, reach(7)) && ChainWorks(Prerouting, reach(8)) && reach(9) > 0
    && (c.tail.Some? ==> reach(10) > 0)
  }

  class Tables {
    var chains: Rules

    constructor (rules: Rules)
      ensures chains == rules
    {
      chains := rules;
    }

    /** -D: whether a rule was there to delete. */
    method DeleteRule(x: Chain, r: Rule) returns (ok: bool)
      modifies this
      ensures ok <==> x in old(chains) && r in old(chains)[x]
      ensures chains == if ok then old(chains)[x := Delete(old(chains)[x], r)] else old(chains)
    {
      ok := x in chains && r in chains[x];
      if ok { chains := chains[x := Delete(chains[x], r)]; }
    }

    /** -A */
    method Append(x: Chain, r: Rule)
      requires x in chains
      modifies this
      ensures chains == old(chains)[x := old(chains)[x] + [r]]
    {
      chains := chains[x := chains[x] + [r]];
    }

    /** -X: refused while the chain holds rules or a rule leads to it. */
    method DropChain(x: Chain) returns (ok: bool)
      modifies this
      ensures ok <==> x in old(chains) && old(chains)[x] == [] && forall y | y in old(chains) :: Jump(x) !in old(chains)[y]
      ensures chains == if ok then old(chains) - {x} else old(chains)
    {
      ok := x in chains && chains[x] == [] && forall y | y in chains :: Jump(x) !in chains[y];
      if ok { chains := chains - {x}; }
    }

    /** The loop that deletes every jump; the number of rules left falls each time. */
    method DeleteJumps(parent: Chain, r: Rule)
      requires parent in chains
      modifies this
      ensures chains == old(chains)[parent := Without(old(chains)[parent], r)]
    {
      var more := true;
      while more
        invariant parent in chains && chains == old(chains)[parent := chains[parent]]
        invariant Without(chains[parent], r) == Without(old(chains)[parent], r)
        invariant !more ==> r !in chains[parent]
        decreases |chains[parent]|, more
      {
        hide Without, Delete;
        if r in chains[parent] { DeleteFirst(chains[parent], r); }
        more := DeleteRule(parent, r);
      }
      WithoutNothing(chains[parent], r);
    }

    /** ts_chain. `reach` is how many of its commands succeed. */
    method TsChain(h: Hook, reach: nat, ghost c: Setup) returns (ok: bool)
      requires HasHooks(chains) && Touches(c, h)
      modifies this
      ensures HasHooks(chains) && Apply(chains, c) == Apply(old(chains), c)
      ensures ok <==> ChainWorks(h, reach)
      ensures ok ==> chains == Chained(old(chains), h)
    {
      hide Apply, Hooked;
      ghost var s := chains;
      var own, j := Own(h), Jump(Own(h));
      if reach == 0 { return false; }
      chains := chains[own := []];
      OwnKeeps(s, h, [], c);
      if reach == 1 { return false; }
      if h.Postrouting? {
        DeleteJumps(Builtin(h), j);
        ParentKeeps(s[own := []], h, chains[Builtin(h)], c) by { UnhookedKeeps(s[Builtin(h)], c); }
        if reach == 2 { return false; }
        Append(Builtin(h), j);
      } else if j !in chains[Builtin(h)] {
        chains := chains[Builtin(h) := [j] + chains[Builtin(h)]];
      }
      assert chains == Chained(s, h) by { HookedIs(h, s[Builtin(h)]); }
      ParentKeeps(s[own := []], h, Hooked(h, s[Builtin(h)]), c) by { HookedKeeps(h, s[Builtin(h)], c); }
      ok := true;
    }

    /** One rule for a chain of the plugin, unless the command fails. */
    method AddOwn(h: Hook, r: Rule, works: bool, ghost c: Setup) returns (ok: bool)
      requires Own(h) in chains && HasHooks(chains) && Touches(c, h)
      modifies this
      ensures HasHooks(chains) && Apply(chains, c) == Apply(old(chains), c)
      ensures ok <==> works
      ensures ok ==> chains == old(chains)[Own(h) := old(chains)[Own(h)] + [r]]
    {
      hide Apply;
      if !works { return false; }
      OwnKeeps(chains, h, chains[Own(h)] + [r], c);
      Append(Own(h), r);
      ok := true;
    }

    method HookFilters(c: Setup, reach: int -> nat) returns (ok: bool)
      requires HasHooks(chains)
      modifies this
      ensures HasHooks(chains) && Apply(chains, c) == Apply(old(chains), c)
      ensures ok <==> HooksWork(reach)
      ensures ok ==> chains == Chained(Chained(Chained(old(chains), Input), Output), Forward)
    {
      hide Apply, Hooked, Chained;
      ok := TsChain(Input, reach(0), c);
      if !ok { return; }
      ok := TsChain(Output, reach(1), c);
      if !ok { return; }
      ok := TsChain(Forward, reach(2), c);
    }

    /** Traffic of the address families that are switched off is dropped. */
    method AddDrops(c: Setup, reach: int -> nat) returns (ok: bool)
      requires HasHooks(chains) && Own(Input) in chains && Own(Output) in chains
      modifies this
      ensures HasHooks(chains) && Apply(chains, c) == Apply(old(chains), c)
      ensures ok <==> DropsWork(c, reach)
      ensures ok && old(chains)[Own(Input)] == old(chains)[Own(Output)] == [] ==>
                chains == old(chains)[Own(Input) := OwnRules(Input, c)][Own(Output) := OwnRules(Output, c)]
    {
      hide Apply;
      ok := true;
      if c.drop {
        ok := AddOwn(Input, DropIn, reach(3) > 0, c);
        if !ok { return; }
        ok := AddOwn(Output, DropOut, reach(4) > 0, c);
      }
      ghost var was := old(chains);
      if ok && was[Own(Input)] == was[Own(Output)] == [] {
        assert [] + [DropIn] == [DropIn] && [] + [DropOut] == [DropOut];
        assert chains == was[Own(Input) := OwnRules(Input, c)][Own(Output) := OwnRules(Output, c)];
      }
    }

    /** Traffic between the tailnet and the LAN is accepted. */
    method AddLan(c: Setup, reach: int -> nat) returns (ok: bool)
      requires HasHooks(chains) && Own(Forward) in chains
      modifies this
      ensures HasHooks(chains) && Apply(chains, c) == Apply(old(chains), c)
      ensures ok <==> LanWorks(c, reach)
      ensures ok && old(chains)[Own(Forward)] == [] ==> chains == old(chains)[Own(Forward) := OwnRules(Forward, c)]
    {
      hide Apply;
      ok := true;
      if c.lan.Some? {
        ok := AddOwn(Forward, ToLan(c.lan.value.device), reach(5) > 0, c);
        if !ok { return; }
        ok := AddOwn(Forward, FromLan(c.lan.value.device), reach(6) > 0, c);
      }
      ghost var was := old(chains);
      if ok && was[Own(Forward)] == [] {
        assert chains[Own(Forward)] == OwnRules(Forward, c);
        assert chains == was[Own(Forward) := OwnRules(Forward, c)];
      }
    }

    /** The part of ts_firewall_apply every binary gets. `reach` counts the commands that succeed. */
    method ApplyFilter(c: Setup, reach: int -> nat) returns (ok: bool)
      requires HasHooks(chains)
      modifies this
      ensures HasHooks(chains) && Apply(chains, c) == Apply(old(chains), c)
      ensures ok <==> FilterWorks(c, reach)
      ensures ok ==> chains == Fill(Fill(Fill(old(chains), Input, c), Output, c), Forward, c)
    {
      hide Apply, Hooked, OwnRules;
      ok := HookFilters(c, reach);
      if !ok { return; }
      ok := AddDrops(c, reach);
      if !ok { return; }
      ok := AddLan(c, reach);
      if !ok { return; }
      FilterFilled(old(chains), chains, c);
    }

    /** The address translation of ts_firewall_apply. */
    method ApplyNat(c: Setup, reach: int -> nat) returns (ok: bool)
      requires HasHooks(chains) && c.nat_ && c.lan.Some?
      modifies this
      ensures HasHooks(chains) && Apply(chains, c) == Apply(old(chains), c)
      ensures ok <==> NatWorks(c, reach)
      ensures ok ==> chains == Fill(Fill(old(chains), Postrouting, c), Prerouting, c)
    {
      hide Apply, Hooked;
      ghost var s := chains;
      ok := TsChain(Postrouting, reach(7), c);
      if !ok { return; }
      ok := TsChain(Prerouting, reach(8), c);
      if !ok { return; }
      ok := AddOwn(Postrouting, Masquerade(c.lan.value.cidr), reach(9) > 0, c);
      if !ok { return; }
      if c.tail.Some? {
        ok := AddOwn(Prerouting, Dnat(c.tail.value, c.lan.value.ip), reach(10) > 0, c);
        if !ok { return; }
      }
      NatFilled(s, chains, c);
    }

    /** ts_firewall_apply for this binary: on success the rules are those of Apply; wherever it fails, the
        next apply still comes to what this one would have. */
    method FirewallApply(c: Setup, saved: seq<(Chain, Rule)>, reach: int -> nat) returns (ok: bool)
      requires HasHooks(chains) && (c.saves ==> Lists(saved, chains))
      modifies this
      ensures HasHooks(chains) && Apply(chains, c) == Apply(old(chains), c)
      ensures ok <==> FilterWorks(c, reach) && (c.nat_ && c.lan.Some? ==> NatWorks(c, reach))
      ensures ok ==> chains == Apply(old(chains), c)
    {
      hide Apply, Fill, Lists;
      ghost var s := chains;
      if c.saves { LegacyCleanup(saved); }
      assert chains == Tidied(s, c);
      TidiedKeeps(s, c);
      ok := ApplyFilter(c, reach);
      if !ok { return; }
      FillFilter(Tidied(s, c), c);
      if c.nat_ && c.lan.Some? {
        ok := ApplyNat(c, reach);
        if !ok { return; }
      }
      FilledIsApply(s, c);
    }

    /** ts_firewall_remove: hook after hook, the jumps, the rules and the chain. */
    method FirewallRemove(c: Setup, saved: seq<(Chain, Rule)>)
      requires HasHooks(chains) && (c.saves ==> Lists(saved, chains))
      modifies this
      ensures chains == Remove(old(chains), c)
    {
      hide RemovedUpTo, Lists;
      ghost var s := chains;
      if c.saves { LegacyCleanup(saved); }
      assert chains == RemovedUpTo(s, c, 0) by { RemovedNone(s, c); }
      var hooks := [Input, Output, Forward, Postrouting, Prerouting];
      for i := 0 to 5
        invariant chains == RemovedUpTo(s, c, i)
      {
        assert Rank(hooks[i]) == i;
        RemovedHasHook(s, c, i, hooks[i]);
        RemoveHook(hooks[i], s, c);
      }
    }

    method RemoveHook(h: Hook, ghost s: Rules, ghost c: Setup)
      requires HasHooks(s) && chains == RemovedUpTo(s, c, Rank(h)) && Builtin(h) in chains
      modifies this
      ensures chains == RemovedUpTo(s, c, Rank(h) + 1)
    {
      hide RemovedUpTo;
      DeleteJumps(Builtin(h), Jump(Own(h)));
      if Own(h) in chains { chains := chains[Own(h) := []]; }
      var dropped := DropChain(Own(h));
      RemovedOne(s, c, h);
    }

    /** ts_legacy_cleanup: `saved` is what the -save tool lists, one line a rule; each plain legacy line is
        turned into one deletion. */
    method LegacyCleanup(saved: seq<(Chain, Rule)>)
      requires Lists(saved, chains)
      modifies this
      ensures chains == map x | x in old(chains) :: Clean(old(chains)[x])
    {
      hide Lines, Clean, Partly, Delete;
      forall x | x in chains ensures Partly(saved, 0, x) == chains[x] { PartlyEnds(saved, x); }
      for i := 0 to |saved|
        invariant chains.Keys == old(chains).Keys
        invariant forall x | x in chains :: chains[x] == Partly(saved, i, x)
      {
        forall x ensures Partly(saved, i + 1, x) == AfterLine(saved[i], x, Partly(saved, i, x)) { PartlyStep(saved, i, x); }
        if Stale(saved[i].1) {
          assert saved[i].1 in Partly(saved, i, saved[i].0) by { PartlyStep(saved, i, saved[i].0); }
          var gone := DeleteRule(saved[i].0, saved[i].1);
        }
      }
      forall x | x in chains ensures Partly(saved, |saved|, x) == Clean(old(chains)[x]) { PartlyEnds(saved, x); }
      assert chains == map x | x in old(chains) :: Clean(old(chains)[x]);
    }
  }

  /** What the -save tool prints: every rule of every chain, in order. */
  predicate Lists(saved: seq<(Chain, Rule)>, s: Rules) {
    (forall x | x in s :: Lines(saved, x) == s[x]) && forall i | 0 <= i < |saved| :: saved[i].0 in s
  }

  /** A chain once the first i listed lines have been dealt with. */
  function Partly(saved: seq<(Chain, Rule)>, i: nat, x: Chain): seq<Rule>
    requires i <= |saved|
  {
    Clean(Lines(saved[..i], x)) + Lines(saved[i..], x)
  }

  function AfterLine(line: (Chain, Rule), x: Chain, l: seq<Rule>): seq<Rule> {
    if line.0 == x && Stale(line.1) then Delete(l, line.1) else l
  }

  lemma PartlyStep(saved: seq<(Chain, Rule)>, i: nat, x: Chain)
    requires i < |saved|
    ensures Partly(saved, i + 1, x) == AfterLine(saved[i], x, Partly(saved, i, x))
    ensures saved[i].0 == x ==> saved[i].1 in Partly(saved, i, x)
  {
    hide Lines, Clean, Delete;
    LinesSplit(saved, i, x);
    if saved[i].0 == x {
      LineOf(Lines(saved[..i], x), saved[i].1, Lines(saved[i + 1..], x));
    } else {
      assert Lines(saved[..i], x) + [] == Lines(saved[..i], x) && [] + Lines(saved[i + 1..], x) == Lines(saved[i + 1..], x);
    }
  }

  lemma LineOf(before: seq<Rule>, r: Rule, after: seq<Rule>)
    ensures var l := Clean(before) + ([r] + after);
            r in l && Clean(before + [r]) + after == if Stale(r) then Delete(l, r) else l
  {
    hide Clean, Delete;
    var a := Clean(before);
    CleanJoin(before, [r]);
    CleanHas(before, r);
    One(r, r);
    assert a + ([r] + after) == a + [r] + after;
    assert (a + [r] + after)[|a|] == r;
    if Stale(r) {
      DeleteAfter(a, r, after);
      assert a + [] == a;
    }
  }

  lemma PartlyEnds(saved: seq<(Chain, Rule)>, x: Chain)
    ensures Partly(saved, 0, x) == Lines(saved, x) && Partly(saved, |saved|, x) == Clean(Lines(saved, x))
  {
    assert saved[..0] == [] && saved[0..] == saved && saved[..|saved|] == saved && saved[|saved|..] == [];
  }

  /** The plugin's chain empty, and one way to it from the built-in chain. */
  function Chained(s: Rules, h: Hook): Rules
    requires Builtin(h) in s
  {
    s[Own(h) := []][Builtin(h) := Hooked(h, s[Builtin(h)])]
  }

  function Fill(s: Rules, h: Hook, c: Setup): Rules
    requires Builtin(h) in s
  {
    s[Own(h) := OwnRules(h, c)][Builtin(h) := Hooked(h, s[Builtin(h)])]
  }

  function Tidied(s: Rules, c: Setup): Rules {
    if c.saves then map x | x in s :: Clean(s[x]) else s
  }

  lemma OwnKeeps(s: Rules, h: Hook, l: seq<Rule>, c: Setup)
    requires Touches(c, h)
    ensures Apply(s[Own(h) := l], c) == Apply(s, c)
  {
  }

  lemma ParentKeeps(s: Rules, h: Hook, l: seq<Rule>, c: Setup)
    requires Touches(c, h) && Builtin(h) in s && Hooked(h, Tidy(l, c)) == Hooked(h, Tidy(s[Builtin(h)], c))
    ensures Apply(s[Builtin(h) := l], c) == Apply(s, c)
  {
  }

  lemma UnhookedKeeps(l: seq<Rule>, c: Setup)
    ensures var j := Jump(Own(Postrouting)); Hooked(Postrouting, Tidy(Without(l, j), c)) == Hooked(Postrouting, Tidy(l, c))
  {
    var j := Jump(Own(Postrouting));
    CleanWithout(l, j);
    WithoutTwice(Tidy(l, c), j);
  }

  lemma HookedKeeps(h: Hook, l: seq<Rule>, c: Setup)
    ensures Hooked(h, Tidy(Hooked(h, l), c)) == Hooked(h, Tidy(l, c))
  {
    hide Clean, Without;
    var j := Jump(Own(h));
    One(j, j);
    CleanHas(l, j);
    if h.Postrouting? {
      CleanWithout(l, j);
      if c.saves {
        CleanJoin(Without(l, j), [j]);
        WithoutJoin(Without(Clean(l), j), [j], j);
        WithoutTwice(Clean(l), j);
      } else {
        WithoutJoin(Without(l, j), [j], j);
        WithoutTwice(l, j);
      }
    } else if j !in l {
      CleanJoin([j], l);
    }
  }

  lemma HookedIs(h: Hook, l: seq<Rule>)
    ensures var j := Jump(Own(h)); Hooked(h, l) == if h.Postrouting? then Without(l, j) + [j] else if j in l then l else [j] + l
  {
  }

  /** Three chains filled one after the other are the three chains filled. */
  lemma FilterFilled(s: Rules, t: Rules, c: Setup)
    requires HasHooks(s) && t.Keys == s.Keys + OWN
    requires forall x | x in s :: x.Foreign? || IsNat(x.hook) ==> t[x] == s[x]
    requires t[Own(Input)] == OwnRules(Input, c) && t[Own(Output)] == OwnRules(Output, c) && t[Own(Forward)] == OwnRules(Forward, c)
    requires t[Builtin(Input)] == Hooked(Input, s[Builtin(Input)]) && t[Builtin(Output)] == Hooked(Output, s[Builtin(Output)])
    requires t[Builtin(Forward)] == Hooked(Forward, s[Builtin(Forward)])
    ensures t == Fill(Fill(Fill(s, Input, c), Output, c), Forward, c)
  {
  }

  lemma NatFilled(s: Rules, t: Rules, c: Setup)
    requires HasHooks(s) && t.Keys == s.Keys + OWN_NAT
    requires forall x | x in s :: x.Foreign? || !IsNat(x.hook) ==> t[x] == s[x]
    requires t[Own(Postrouting)] == OwnRules(Postrouting, c) && t[Own(Prerouting)] == OwnRules(Prerouting, c)
    requires t[Builtin(Postrouting)] == Hooked(Postrouting, s[Builtin(Postrouting)])
    requires t[Builtin(Prerouting)] == Hooked(Prerouting, s[Builtin(Prerouting)])
    ensures t == Fill(Fill(s, Postrouting, c), Prerouting, c)
  {
  }

  lemma TidiedKeeps(s: Rules, c: Setup)
    ensures Apply(Tidied(s, c), c) == Apply(s, c)
    ensures HasHooks(s) ==> HasHooks(Tidied(s, c))
  {
    var t := Tidied(s, c);
    forall x | x in Apply(s, c) ensures ApplyAt(x, Get(t, x), c) == ApplyAt(x, Get(s, x), c) {
      TidyTwice(Get(s, x), c);
      assert Clean([]) == [];
    }
    assert t.Keys == s.Keys;
  }

  lemma FillFilter(s: Rules, c: Setup)
    requires HasHooks(s)
    ensures HasHooks(Fill(Fill(Fill(s, Input, c), Output, c), Forward, c))
  {
  }

  /** The five steps over the tidied rules are Apply. */
  lemma FilledIsApply(s: Rules, c: Setup)
    requires HasHooks(s) && HasHooks(Tidied(s, c))
    ensures var t := Fill(Fill(Fill(Tidied(s, c), Input, c), Output, c), Forward, c);
            Apply(s, c) == if c.nat_ && c.lan.Some? then Fill(Fill(t, Postrouting, c), Prerouting, c) else t
  {
    hide Hooked, OwnRules, Clean;
    var t := Fill(Fill(Fill(Tidied(s, c), Input, c), Output, c), Forward, c);
    var u := if c.nat_ && c.lan.Some? then Fill(Fill(t, Postrouting, c), Prerouting, c) else t;
    forall x: Chain ensures (x in u <==> x in Apply(s, c)) && (x in u && x in Apply(s, c) ==> u[x] == Apply(s, c)[x]) {
      FilledAt(s, c, x);
    }
  }

  lemma FilledAt(s: Rules, c: Setup, x: Chain)
    requires HasHooks(s) && HasHooks(Tidied(s, c))
    ensures var t := Fill(Fill(Fill(Tidied(s, c), Input, c), Output, c), Forward, c);
            var u := if c.nat_ && c.lan.Some? then Fill(Fill(t, Postrouting, c), Prerouting, c) else t;
            (x in u <==> x in Apply(s, c)) && (x in u ==> u[x] == ApplyAt(x, Get(s, x), c))
  {
    match x {
      case Foreign(_) =>
      case Builtin(h) => FilledBuiltin(s, c, h);
      case Own(h) => FilledOwn(s, c, h);
    }
  }

  lemma FilledBuiltin(s: Rules, c: Setup, h: Hook)
    requires HasHooks(s) && HasHooks(Tidied(s, c))
    ensures var t := Fill(Fill(Fill(Tidied(s, c), Input, c), Output, c), Forward, c);
            var u := if c.nat_ && c.lan.Some? then Fill(Fill(t, Postrouting, c), Prerouting, c) else t;
            u[Builtin(h)] == ApplyAt(Builtin(h), s[Builtin(h)], c)
  {
    hide Hooked, OwnRules, Clean;
    match h { case Input => case Output => case Forward => case Postrouting => case Prerouting => }
  }

  lemma FilledOwn(s: Rules, c: Setup, h: Hook)
    requires HasHooks(s) && HasHooks(Tidied(s, c))
    ensures var t := Fill(Fill(Fill(Tidied(s, c), Input, c), Output, c), Forward, c);
            var u := if c.nat_ && c.lan.Some? then Fill(Fill(t, Postrouting, c), Prerouting, c) else t;
            (Own(h) in u <==> Own(h) in Apply(s, c)) && (Own(h) in u ==> u[Own(h)] == ApplyAt(Own(h), Get(s, Own(h)), c))
  {
    hide Hooked, OwnRules, Clean;
    match h { case Input => case Output => case Forward => case Postrouting => case Prerouting => }
  }

  lemma RemovedNone(s: Rules, c: Setup)
    ensures RemovedUpTo(s, c, 0) == Tidied(s, c)
  {
  }

  lemma RemovedHasHook(s: Rules, c: Setup, n: nat, h: Hook)
    requires HasHooks(s)
    ensures Builtin(h) in RemovedUpTo(s, c, n)
  {
  }

  /** After the jumps of its own hook are gone, something leads to the next chain exactly when it stays. */
  lemma ReferencesLeft(s: Rules, c: Setup, h: Hook, v: Rules)
    requires HasHooks(s) && v == Unhooked(RemovedUpTo(s, c, Rank(h)), h)
    ensures Stays(s, h) <==> exists y | y in v :: Jump(Own(h)) in v[y]
  {
    hide Clean, Without;
    var j := Jump(Own(h));
    forall y | y in v ensures j in v[y] <==> Leads(s, h, y) {
      UnhookedAt(s, c, h, v, y);
      CleanHas(s[y], j);
      if y.Builtin? { WithoutHas(Tidy(s[y], c), Jump(Own(y.hook)), j); }
    }
    forall y | y in s && Leads(s, h, y) ensures y in v {
    }
    if Held(s, h) {
      var x :| x in s && !x.Own? && x != Builtin(h) && j in s[x];
      assert Leads(s, h, x);
    }
    if HeldLater(s, h) {
      var d: Hook :| Rank(d) > Rank(h) && Own(d) in s && j in s[Own(d)];
      assert Leads(s, h, Own(d));
    }
  }

  /** Chain y leads to the chain of hook h once the hooks up to h have lost their jumps and rules. */
  predicate Leads(s: Rules, h: Hook, y: Chain) {
    y in s && y != Builtin(h) && Jump(Own(h)) in s[y] && (y.Own? ==> Rank(y.hook) > Rank(h))
  }

  lemma UnhookedAt(s: Rules, c: Setup, h: Hook, v: Rules, y: Chain)
    requires HasHooks(s) && v == Unhooked(RemovedUpTo(s, c, Rank(h)), h)
    ensures y in v <==> y in s && (y.Own? && Rank(y.hook) < Rank(h) ==> Stays(s, y.hook))
    ensures y in v ==> v[y] == if y.Foreign? || Rank(y.hook) > Rank(h) then Tidy(s[y], c) else RemoveAt(y, s[y], c)
  {
    hide Clean, Without, Stays;
    RanksDiffer(h);
  }

  lemma RanksDiffer(h: Hook)
    ensures forall g: Hook :: Rank(g) == Rank(h) <==> g == h
  {
  }

  /** The next hook without its jumps and its chain without its rules. */
  function Unhooked(t: Rules, h: Hook): Rules
    requires Builtin(h) in t
  {
    var u := t[Builtin(h) := Without(t[Builtin(h)], Jump(Own(h)))];
    if Own(h) in u then u[Own(h) := []] else u
  }

  /** Removing the chain of the next hook succeeds exactly when nothing that is left leads to it. */
  lemma RemovedOne(s: Rules, c: Setup, h: Hook)
    requires HasHooks(s) && Builtin(h) in RemovedUpTo(s, c, Rank(h))
    ensures var v := Unhooked(RemovedUpTo(s, c, Rank(h)), h);
            RemovedUpTo(s, c, Rank(h) + 1) ==
              if Own(h) in v && v[Own(h)] == [] && (forall y | y in v :: Jump(Own(h)) !in v[y]) then v - {Own(h)} else v
  {
    hide Stays, RemoveAt, Unhooked, Clean;
    var v := Unhooked(RemovedUpTo(s, c, Rank(h)), h);
    var w := RemovedUpTo(s, c, Rank(h) + 1);
    ReferencesLeft(s, c, h, v);
    UnhookedAt(s, c, h, v, Own(h));
    OwnIsEmpty(Own(h), Get(s, Own(h)), [], c);
    RanksDiffer(h);
    var r := if Own(h) in v && !Stays(s, h) then v - {Own(h)} else v;
    forall x: Chain ensures (x in w <==> x in r) && (x in w && x in r ==> w[x] == r[x]) {
      UnhookedAt(s, c, h, v, x);
    }
    assert w == r;
  }

  /** The rules listed for one chain. */
  function Lines(saved: seq<(Chain, Rule)>, x: Chain): seq<Rule> {
    if saved == [] then [] else Lines(saved[..|saved| - 1], x) + if saved[|saved| - 1].0 == x then [saved[|saved| - 1].1] else []
  }

  lemma {:induction false} LinesJoin(a: seq<(Chain, Rule)>, b: seq<(Chain, Rule)>, x: Chain)
    ensures Lines(a + b, x) == Lines(a, x) + Lines(b, x)
  {
    if b == [] {
      assert a + b == a;
    } else {
      LinesJoin(a, b[..|b| - 1], x);
      assert (a + b)[..|a + b| - 1] == a + b[..|b| - 1];
    }
  }

  lemma LinesSplit(saved: seq<(Chain, Rule)>, i: nat, x: Chain)
    requires i < |saved|
    ensures var one := if saved[i].0 == x then [saved[i].1] else [];
            Lines(saved[..i + 1], x) == Lines(saved[..i], x) + one && Lines(saved[i..], x) == one + Lines(saved[i + 1..], x)
  {
    assert [saved[i]][..0] == [];
    LinesJoin(saved[..i], [saved[i]], x);
    LinesJoin([saved[i]], saved[i + 1..], x);
    assert saved[..i + 1] == saved[..i] + [saved[i]] && saved[i..] == [saved[i]] + saved[i + 1..];
  }
}
