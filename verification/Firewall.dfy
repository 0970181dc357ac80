/** The rule lists the plugin rebuilds: ts_legacy_cleanup, ts_chain, ts_firewall_apply and ts_firewall_remove
    of plugin/scripts/tailscale_lib.sh, for one of the two iptables binaries. */
module Firewall {
  import opened Wrappers

  datatype Hook = Input | Output | Forward | Postrouting | Prerouting

  /** A built-in chain, the plugin's chain behind it, or anybody else's chain. */
  datatype Chain = Builtin(hook: Hook) | Own(hook: Hook) | Foreign(n: nat)

  /** `Legacy` rules carry the historical tag; only plain ones can be deleted word by word. */
  datatype Rule =
    | Jump(to: Chain)
    | Legacy(n: nat, plain: bool)
    | Other(n: nat)
    | DropIn
    | DropOut
    | ToLan(device: int)
    | FromLan(device: int)
    | Masquerade(cidr: int)
    | Dnat(from: int, to_: int)

  type Rules = map<Chain, seq<Rule>>

  datatype Lan = Lan(device: int, cidr: int, ip: int)

  /** `nat` is set for the binary that also gets address translation; `saves` when its -save tool exists. */
  datatype Setup = Setup(nat_: bool, saves: bool, drop: bool, lan: Option<Lan>, tail: Option<int>)

  predicate IsNat(h: Hook) {
    h.Postrouting? || h.Prerouting?
  }

  predicate Touches(c: Setup, h: Hook) {
    !IsNat(h) || (c.nat_ && c.lan.Some?)
  }

  // ---- Rule lists ------------------------------------------------------------------------------------

  /** The list without the rules that satisfy the test of a cleanup. */
  function Clean(l: seq<Rule>): seq<Rule> {
    if l == [] then [] else Clean(l[..|l| - 1]) + if Stale(l[|l| - 1]) then [] else [l[|l| - 1]]
  }

  predicate Stale(r: Rule) {
    r.Legacy? && r.plain
  }

  function Without(l: seq<Rule>, x: Rule): seq<Rule> {
    if l == [] then [] else Without(l[..|l| - 1], x) + if l[|l| - 1] == x then [] else [l[|l| - 1]]
  }

  /** `iptables -D`: the first matching rule. */
  function Delete(l: seq<Rule>, x: Rule): seq<Rule> {
    if l == [] then [] else if l[0] == x then l[1..] else [l[0]] + Delete(l[1..], x)
  }

  function Hooked(h: Hook, l: seq<Rule>): seq<Rule> {
    var j := Jump(Own(h));
    if h.Postrouting? then Without(l, j) + [j] else if j in l then l else [j] + l
  }

  function OwnRules(h: Hook, c: Setup): seq<Rule> {
    match h
    case Input => if c.drop then [DropIn] else []
    case Output => if c.drop then [DropOut] else []
    case Forward => if c.lan.Some? then [ToLan(c.lan.value.device), FromLan(c.lan.value.device)] else []
    case Postrouting => if c.lan.Some? then [Masquerade(c.lan.value.cidr)] else []
    case Prerouting => if c.lan.Some? && c.tail.Some? then [Dnat(c.tail.value, c.lan.value.ip)] else []
  }

  lemma {:induction false} CleanJoin(a: seq<Rule>, b: seq<Rule>)
    ensures Clean(a + b) == Clean(a) + Clean(b)
  {
    if b == [] {
      assert a + b == a;
    } else {
      CleanJoin(a, b[..|b| - 1]);
      assert (a + b)[..|a + b| - 1] == a + b[..|b| - 1];
    }
  }

  lemma {:induction false} WithoutJoin(a: seq<Rule>, b: seq<Rule>, x: Rule)
    ensures Without(a + b, x) == Without(a, x) + Without(b, x)
  {
    if b == [] {
      assert a + b == a;
    } else {
      WithoutJoin(a, b[..|b| - 1], x);
      assert (a + b)[..|a + b| - 1] == a + b[..|b| - 1];
    }
  }

  lemma {:induction false} CleanNothing(l: seq<Rule>)
    requires forall r | r in l :: !Stale(r)
    ensures Clean(l) == l
  {
    if l != [] {
      CleanNothing(l[..|l| - 1]);
    }
  }

  lemma {:induction false} WithoutNothing(l: seq<Rule>, x: Rule)
    requires x !in l
    ensures Without(l, x) == l
  {
    if l != [] {
      WithoutNothing(l[..|l| - 1], x);
    }
  }

  lemma {:induction false} CleanWithout(l: seq<Rule>, x: Rule)
    ensures Clean(Without(l, x)) == Without(Clean(l), x)
  {
    if l != [] {
      var init, last := l[..|l| - 1], l[|l| - 1];
      CleanWithout(init, x);
      CleanJoin(Without(init, x), if last == x then [] else [last]);
      WithoutJoin(Clean(init), if Stale(last) then [] else [last], x);
      One(last, x);
    }
  }

  lemma One(r: Rule, x: Rule)
    ensures Clean([r]) == (if Stale(r) then [] else [r]) && Clean([]) == []
    ensures Without([r], x) == (if r == x then [] else [r]) && Without([], x) == []
  {
    var l, kept := [r], [r];
    assert l[..|l| - 1] == [] && l[|l| - 1] == r;
    assert [] + kept == kept && [] + [] == kept[..0];
  }

  lemma {:induction false} DeleteAfter(a: seq<Rule>, x: Rule, b: seq<Rule>)
    requires x !in a
    ensures Delete(a + [x] + b, x) == a + b
  {
    if a == [] {
      assert a + [x] + b == [x] + b;
    } else {
      DeleteAfter(a[1..], x, b);
      assert (a + [x] + b)[1..] == a[1..] + [x] + b;
      assert a + b == [a[0]] + (a[1..] + b);
    }
  }

  /** Deleting one occurrence of a rule does not change the list without it. */
  lemma {:induction false} DeleteFirst(l: seq<Rule>, x: Rule)
    requires x in l
    ensures |Delete(l, x)| == |l| - 1 && Without(Delete(l, x), x) == Without(l, x)
  {
    One(l[0], x);
    WithoutJoin([l[0]], l[1..], x);
    assert l == [l[0]] + l[1..];
    if l[0] != x {
      DeleteFirst(l[1..], x);
      WithoutJoin([l[0]], Delete(l[1..], x), x);
    }
  }

  lemma {:induction false} CleanHas(l: seq<Rule>, r: Rule)
    ensures r in Clean(l) <==> r in l && !Stale(r)
  {
    if l != [] {
      CleanHas(l[..|l| - 1], r);
      assert l == l[..|l| - 1] + [l[|l| - 1]];
    }
  }

  lemma {:induction false} WithoutHas(l: seq<Rule>, x: Rule, r: Rule)
    ensures r in Without(l, x) <==> r in l && r != x
  {
    if l != [] {
      WithoutHas(l[..|l| - 1], x, r);
      assert l == l[..|l| - 1] + [l[|l| - 1]];
    }
  }

  lemma CleanTwice(l: seq<Rule>)
    ensures Clean(Clean(l)) == Clean(l)
  {
    forall r | r in Clean(l) ensures !Stale(r) { CleanHas(l, r); }
    CleanNothing(Clean(l));
  }

  lemma WithoutTwice(l: seq<Rule>, x: Rule)
    ensures Without(Without(l, x), x) == Without(l, x)
  {
    WithoutHas(l, x, x);
    WithoutNothing(Without(l, x), x);
  }

  // ---- What apply and remove come to -----------------------------------------------------------------------

  const OWN: set<Chain> := {Own(Input), Own(Output), Own(Forward)}
  const OWN_NAT: set<Chain> := {Own(Postrouting), Own(Prerouting)}

  /** The order in which the hooks are removed. */
  function Rank(h: Hook): nat {
    match h case Input => 0 case Output => 1 case Forward => 2 case Postrouting => 3 case Prerouting => 4
  }

  predicate HasHooks(s: Rules) {
    forall h: Hook :: Builtin(h) in s
  }

  /** A rule jumps to a chain that exists, in its own table. */
  predicate WellFormed(s: Rules) {
    && HasHooks(s)
    && (forall x, h: Hook | x in s && Jump(Own(h)) in s[x] :: Own(h) in s)
    && (forall d: Hook, h: Hook | Own(d) in s && Jump(Own(h)) in s[Own(d)] :: IsNat(d) == IsNat(h))
  }

  function Get(s: Rules, x: Chain): seq<Rule> {
    if x in s then s[x] else []
  }

  function Tidy(l: seq<Rule>, c: Setup): seq<Rule> {
    if c.saves then Clean(l) else l
  }

  function ApplyAt(x: Chain, l: seq<Rule>, c: Setup): seq<Rule> {
    match x
    case Builtin(h) => if Touches(c, h) then Hooked(h, Tidy(l, c)) else Tidy(l, c)
    case Own(h) => if Touches(c, h) then OwnRules(h, c) else Tidy(l, c)
    case Foreign(_) => Tidy(l, c)
  }

  /** The rules after a successful ts_firewall_apply. */
  function Apply(s: Rules, c: Setup): Rules {
    map x | x in s.Keys + OWN + (if Touches(c, Postrouting) then OWN_NAT else {}) :: ApplyAt(x, Get(s, x), c)
  }

  function RemoveAt(x: Chain, l: seq<Rule>, c: Setup): seq<Rule> {
    match x
    case Builtin(h) => Without(Tidy(l, c), Jump(Own(h)))
    case Own(_) => []
    case Foreign(_) => Tidy(l, c)
  }

  /** Somebody else's rules lead to the plugin's chain even when its own hook is gone. */
  predicate Held(s: Rules, h: Hook) {
    exists x | x in s :: !x.Own? && x != Builtin(h) && Jump(Own(h)) in s[x]
  }

  /** A chain of the plugin that is removed later leads to it. */
  predicate HeldLater(s: Rules, h: Hook) {
    exists d: Hook :: Rank(d) > Rank(h) && Own(d) in s && Jump(Own(h)) in s[Own(d)]
  }

  predicate Stays(s: Rules, h: Hook) {
    Held(s, h) || HeldLater(s, h)
  }

  /** The rules after the first n hooks of ts_firewall_remove. */
  function RemovedUpTo(s: Rules, c: Setup, n: nat): Rules {
    map x | x in s && (x.Own? && Rank(x.hook) < n ==> Stays(s, x.hook)) ::
      if !x.Foreign? && Rank(x.hook) < n then RemoveAt(x, s[x], c) else Tidy(s[x], c)
  }

  function Remove(s: Rules, c: Setup): Rules {
    RemovedUpTo(s, c, 5)
  }

  // ---- Apply -----------------------------------------------------------------------------------------------

  lemma HookedTwice(h: Hook, l: seq<Rule>, c: Setup)
    ensures Hooked(h, Tidy(Hooked(h, Tidy(l, c)), c)) == Hooked(h, Tidy(l, c))
  {
    var j, k := Jump(Own(h)), Tidy(l, c);
    TidyHooked(h, l, c);
    if h.Postrouting? {
      WithoutJoin(Without(k, j), [j], j);
      WithoutTwice(k, j);
      One(j, j);
    }
  }

  /** A hooked list holds nothing a second cleanup would delete. */
  lemma TidyHooked(h: Hook, l: seq<Rule>, c: Setup)
    ensures Tidy(Hooked(h, Tidy(l, c)), c) == Hooked(h, Tidy(l, c))
  {
    if c.saves {
      var j, k := Jump(Own(h)), Clean(l);
      CleanTwice(l);
      One(j, j);
      if h.Postrouting? {
        CleanJoin(Without(k, j), [j]);
        CleanWithout(k, j);
      } else {
        CleanJoin([j], k);
      }
    }
  }

  lemma TidyTwice(l: seq<Rule>, c: Setup)
    ensures Tidy(Tidy(l, c), c) == Tidy(l, c)
  {
    CleanTwice(l);
  }

  /** Applying the rules twice leaves the same rules as applying them once. */
  lemma ApplyTwice(s: Rules, c: Setup)
    ensures Apply(Apply(s, c), c) == Apply(s, c)
  {
    var t := Apply(s, c);
    forall x | x in t ensures Apply(t, c)[x] == t[x] {
      TidyTwice(Get(s, x), c);
      if x.Builtin? {
        HookedTwice(x.hook, Get(s, x), c);
      }
    }
    assert Apply(t, c).Keys == t.Keys;
  }

  /** The rules of others that neither the cleanup nor the hook concerns. */
  function Theirs(x: Chain, l: seq<Rule>): seq<Rule> {
    match x
    case Builtin(h) => Without(Clean(l), Jump(Own(h)))
    case _ => Clean(l)
  }

  /** Everybody else's rules are kept, in their order. */
  lemma OthersKeepOrder(s: Rules, c: Setup, x: Chain)
    requires x in s && !x.Own?
    ensures Theirs(x, Apply(s, c)[x]) == Theirs(x, s[x])
  {
    CleanTwice(s[x]);
    if x.Builtin? {
      HookedTheirs(x.hook, s[x], c);
    }
  }

  lemma HookedTheirs(h: Hook, l: seq<Rule>, c: Setup)
    ensures Without(Clean(Hooked(h, Tidy(l, c))), Jump(Own(h))) == Without(Clean(l), Jump(Own(h)))
  {
    var j, k := Jump(Own(h)), Tidy(l, c);
    CleanTwice(l);
    One(j, j);
    if h.Postrouting? {
      CleanJoin(Without(k, j), [j]);
      CleanWithout(k, j);
      WithoutJoin(Without(Clean(k), j), [j], j);
      WithoutTwice(Clean(k), j);
    } else if j !in k {
      CleanJoin([j], k);
      WithoutJoin([j], Clean(k), j);
    }
  }

  /** With LAN settings the plugin's masquerading comes last after everybody else's NAT, and once. */
  lemma PostroutingLast(s: Rules, c: Setup)
    requires Touches(c, Postrouting) && Builtin(Postrouting) in s
    ensures var l, j := Apply(s, c)[Builtin(Postrouting)], Jump(Own(Postrouting));
            |l| > 0 && l[|l| - 1] == j && j !in l[..|l| - 1]
  {
    WithoutHas(Tidy(s[Builtin(Postrouting)], c), Jump(Own(Postrouting)), Jump(Own(Postrouting)));
  }

  // ---- Remove ----------------------------------------------------------------------------------------------

  /** The plugin's chain is left behind, empty, only because a later chain of the plugin still led to it. */
  predicate Straggler(s: Rules, h: Hook) {
    Own(h) in s && !Held(s, h) && HeldLater(s, h)
  }

  /** Nothing of the plugin is left but chains other people's rules lead to. */
  function Bare(s: Rules, c: Setup): Rules {
    map x | x in s && (x.Own? ==> Held(s, x.hook)) :: RemoveAt(x, s[x], c)
  }

  lemma KeysOfRemove(s: Rules, c: Setup, x: Chain)
    ensures x in Remove(s, c) <==> x in s && (x.Own? ==> Stays(s, x.hook))
    ensures x in Remove(s, c) ==> Remove(s, c)[x] == RemoveAt(x, s[x], c)
  {
  }

  lemma KeysOfBare(s: Rules, c: Setup, x: Chain)
    ensures x in Bare(s, c) <==> x in s && (x.Own? ==> Held(s, x.hook))
    ensures x in Bare(s, c) ==> Bare(s, c)[x] == RemoveAt(x, s[x], c)
  {
  }

  lemma RemoveIsBare(s: Rules, c: Setup)
    ensures Remove(s, c) == Bare(s, c) <==> forall h: Hook :: !Straggler(s, h)
  {
    hide Remove, Bare, Held, HeldLater, RemoveAt;
    var t, b := Remove(s, c), Bare(s, c);
    forall x: Chain ensures (x in t <==> x in s && (x.Own? ==> Stays(s, x.hook))) && (x in b <==> x in s && (x.Own? ==> Held(s, x.hook)))
                            && (x in t && x in b ==> t[x] == b[x]) {
      KeysOfRemove(s, c, x);
      KeysOfBare(s, c, x);
    }
    if forall h: Hook :: !Straggler(s, h) {
      forall x: Chain ensures x in t <==> x in b {
        if x in s && x.Own? {
          assert !Straggler(s, x.hook);
        }
      }
      assert t == b;
    }
    forall h: Hook | Straggler(s, h) ensures t != b {
      assert Own(h) in t && Own(h) !in b;
    }
  }

  /** After a removal no hook leads to the plugin, its chains are empty, one is left only where a rule of
      somebody else or of a chain that was removed later led to it, and no listed legacy rule remains. */
  lemma RemoveLeavesNothing(s: Rules, c: Setup, h: Hook)
    requires HasHooks(s)
    ensures var t := Remove(s, c);
            && Builtin(h) in t && Jump(Own(h)) !in t[Builtin(h)]
            && (Own(h) in t <==> Own(h) in s && Stays(s, h))
            && (Own(h) in t ==> t[Own(h)] == [])
            && (c.saves ==> forall x, r | x in t && r in t[x] :: !Stale(r))
  {
    hide Remove, Held, HeldLater;
    var t := Remove(s, c);
    assert Builtin(h) in s;
    KeysOfRemove(s, c, Builtin(h));
    KeysOfRemove(s, c, Own(h));
    WithoutHas(Tidy(s[Builtin(h)], c), Jump(Own(h)), Jump(Own(h)));
    forall x, r | c.saves && x in t && r in t[x] ensures !Stale(r) {
      KeysOfRemove(s, c, x);
      CleanHas(s[x], r);
      if x.Builtin? { WithoutHas(Tidy(s[x], c), Jump(Own(x.hook)), r); }
    }
  }

  /** Nor after an apply. */
  lemma ApplyLeavesNoLegacy(s: Rules, c: Setup, x: Chain, r: Rule)
    requires c.saves && x in Apply(s, c) && r in Apply(s, c)[x]
    ensures !Stale(r)
  {
    CleanHas(Get(s, x), r);
    if x.Builtin? && r != Jump(Own(x.hook)) {
      WithoutHas(Tidy(Get(s, x), c), Jump(Own(x.hook)), r);
    }
  }

  lemma RemoveAtTwice(x: Chain, l: seq<Rule>, c: Setup)
    ensures RemoveAt(x, RemoveAt(x, l, c), c) == RemoveAt(x, l, c)
  {
    TidyTwice(l, c);
    if x.Builtin? {
      CleanWithout(Tidy(l, c), Jump(Own(x.hook)));
      WithoutTwice(Tidy(l, c), Jump(Own(x.hook)));
    }
  }

  lemma RemoveAfterApplyAt(x: Chain, l: seq<Rule>, c: Setup)
    ensures RemoveAt(x, ApplyAt(x, l, c), c) == RemoveAt(x, l, c)
  {
    TidyTwice(l, c);
    if x.Builtin? {
      var h, j, k := x.hook, Jump(Own(x.hook)), Tidy(l, c);
      TidyHooked(h, l, c);
      One(j, j);
      if h.Postrouting? {
        WithoutJoin(Without(k, j), [j], j);
        WithoutTwice(k, j);
      } else if j !in k {
        WithoutJoin([j], k, j);
      }
    }
  }

  /** A jump to a chain of the plugin, in somebody else's chain or behind another hook, survives both operations. */
  lemma JumpSurvives(x: Chain, l: seq<Rule>, c: Setup, h: Hook)
    requires !x.Own? && x != Builtin(h)
    ensures var j := Jump(Own(h)); (j in ApplyAt(x, l, c) <==> j in l) && (j in RemoveAt(x, l, c) <==> j in l)
  {
    var j := Jump(Own(h));
    CleanHas(l, j);
    if x.Builtin? {
      WithoutHas(Tidy(l, c), Jump(Own(x.hook)), j);
    }
  }

  lemma HeldAfter(s: Rules, t: Rules, c: Setup, h: Hook)
    requires HasHooks(s)
    requires forall x: Chain :: !x.Own? ==> (x in t <==> x in s)
    requires forall x | x in t && !x.Own? :: t[x] == ApplyAt(x, s[x], c) || t[x] == RemoveAt(x, s[x], c)
    ensures Held(t, h) <==> Held(s, h)
  {
    forall x | x in s && !x.Own? && x != Builtin(h) ensures Jump(Own(h)) in t[x] <==> Jump(Own(h)) in s[x] {
      JumpSurvives(x, s[x], c, h);
    }
  }

  /** A second removal always takes the stragglers of the first. */
  lemma RemoveTwiceIsBare(s: Rules, c: Setup)
    requires HasHooks(s)
    ensures Remove(Remove(s, c), c) == Bare(s, c)
  {
    hide Remove, Bare, Held, HeldLater, RemoveAt;
    var t := Remove(s, c);
    forall x: Chain ensures (x in Remove(t, c) <==> x in Bare(s, c)) 
                            && (x in Remove(t, c) && x in Bare(s, c) ==> Remove(t, c)[x] == Bare(s, c)[x]) {
      KeysOfRemove(s, c, x);
      KeysOfRemove(t, c, x);
      KeysOfBare(s, c, x);
      if x in s {
        RemoveAtTwice(x, s[x], c);
      }
      if x.Own? {
        HeldAfterRemove(s, c, x.hook);
      }
    }
    assert Remove(t, c) == Bare(s, c);
  }

  lemma HeldAfterRemove(s: Rules, c: Setup, h: Hook)
    requires HasHooks(s)
    ensures var t := Remove(s, c); (Held(t, h) <==> Held(s, h)) && !HeldLater(t, h)
  {
    hide Remove, RemoveAt;
    var t := Remove(s, c);
    forall x: Chain ensures (x in t ==> x in s && t[x] == RemoveAt(x, s[x], c)) && (!x.Own? ==> (x in t <==> x in s))
                            && (x.Own? && x in t ==> t[x] == []) {
      KeysOfRemove(s, c, x);
      if x in t { OwnIsEmpty(x, s[x], s[x], c); }
    }
    HeldAfter(s, t, c, h);
  }

  /** So removing twice is removing once exactly when there is no straggler. */
  lemma RemoveTwice(s: Rules, c: Setup)
    requires HasHooks(s)
    ensures Remove(Remove(s, c), c) == Remove(s, c) <==> forall h: Hook :: !Straggler(s, h)
  {
    RemoveIsBare(s, c);
    RemoveTwiceIsBare(s, c);
  }

  /** What stays after apply and remove: what others hold, and what a straggler of an untouched table holds. */
  lemma StaysAfterApply(s: Rules, c: Setup, h: Hook)
    requires WellFormed(s)
    ensures var t := Apply(s, c);
            Own(h) in t && Stays(t, h) <==> Own(h) in s && (Held(s, h) || (!Touches(c, h) && HeldLater(s, h)))
  {
    hide Tidy;
    var t := Apply(s, c);
    HeldAfter(s, t, c, h);
    if Held(s, h) {
      var x :| x in s && !x.Own? && x != Builtin(h) && Jump(Own(h)) in s[x];
      assert Own(h) in s;
    }
    LaterAfterApply(s, c, h);
  }

  lemma LaterAfterApply(s: Rules, c: Setup, h: Hook)
    requires WellFormed(s)
    ensures HeldLater(Apply(s, c), h) <==> !Touches(c, h) && HeldLater(s, h)
  {
    var t, j := Apply(s, c), Jump(Own(h));
    forall d: Hook ensures Own(d) in t && j in t[Own(d)] <==> !Touches(c, d) && Own(d) in s && j in s[Own(d)] {
      CleanHas(Get(s, Own(d)), j);
      assert j !in OwnRules(d, c);
    }
    assert forall d: Hook | Own(d) in s && j in s[Own(d)] :: Touches(c, d) == Touches(c, h);
  }

  /** Removing what was applied gives the same rules as removing without applying, exactly when no chain the
      apply rebuilds is a straggler: one that only a later chain of the plugin led to. */
  lemma RemoveAfterApply(s: Rules, c: Setup)
    requires WellFormed(s)
    ensures Remove(Apply(s, c), c) == Remove(s, c) <==> forall h: Hook :: !(Touches(c, h) && Straggler(s, h))
  {
    hide Apply, Stays, ApplyAt, RemoveAt, Remove, Held, HeldLater;
    var u, r := Remove(Apply(s, c), c), Remove(s, c);
    forall h: Hook ensures Own(h) in u <==> Own(h) in s && (Held(s, h) || (!Touches(c, h) && HeldLater(s, h))) {
      StaysAfterApply(s, c, h);
      KeysOfRemove(Apply(s, c), c, Own(h));
    }
    forall h: Hook ensures Own(h) in r <==> Own(h) in s && (Held(s, h) || HeldLater(s, h)) {
      StaysIs(s, h);
      KeysOfRemove(s, c, Own(h));
    }
    forall x: Chain ensures !x.Own? ==> (x in u <==> x in r) {
      KeysOfApply(s, c, x);
      KeysOfRemove(s, c, x);
      KeysOfRemove(Apply(s, c), c, x);
    }
    forall x | x in u && x in r ensures u[x] == r[x] {
      KeysOfApply(s, c, x);
      KeysOfRemove(s, c, x);
      KeysOfRemove(Apply(s, c), c, x);
      RemoveAfterApplyAt(x, s[x], c);
      OwnIsEmpty(x, s[x], Get(Apply(s, c), x), c);
    }
    if forall h: Hook :: !(Touches(c, h) && Straggler(s, h)) {
      forall x: Chain ensures x in u <==> x in r {
        if x.Own? { assert !(Touches(c, x.hook) && Straggler(s, x.hook)); }
      }
      assert u == r;
    }
    forall h: Hook | Touches(c, h) && Straggler(s, h) ensures u != r {
      assert Own(h) in r && Own(h) !in u;
    }
  }

  lemma StaysIs(s: Rules, h: Hook)
    ensures Stays(s, h) <==> Held(s, h) || HeldLater(s, h)
  {
  }

  lemma OwnIsEmpty(x: Chain, a: seq<Rule>, b: seq<Rule>, c: Setup)
    ensures x.Own? ==> RemoveAt(x, a, c) == [] == RemoveAt(x, b, c)
  {
  }

  lemma KeysOfApply(s: Rules, c: Setup, x: Chain)
    ensures !x.Own? ==> (x in Apply(s, c) <==> x in s)
    ensures x in s ==> x in Apply(s, c) && Apply(s, c)[x] == ApplyAt(x, s[x], c)
  {
  }

  /** Two rules are enough: the input chain of the plugin, reached only from its output chain. */
  lemma StragglersExist(c: Setup)
    ensures var s := map[Builtin(Input) := [], Builtin(Output) := [], Builtin(Forward) := [], Builtin(Postrouting) := [],
                         Builtin(Prerouting) := [], Own(Input) := [], Own(Output) := [Jump(Own(Input))]];
            WellFormed(s) && Remove(Apply(s, c), c) != Remove(s, c)
  {
    var s: Rules := map[Builtin(Input) := [], Builtin(Output) := [], Builtin(Forward) := [], Builtin(Postrouting) := [],
                        Builtin(Prerouting) := [], Own(Input) := [], Own(Output) := [Jump(Own(Input))]];
    forall h: Hook ensures Builtin(h) in s {
      match h case Input => case Output => case Forward => case Postrouting => case Prerouting =>
    }
    assert forall x | x in s && x != Own(Output) :: s[x] == [];
    assert Jump(Own(Input)) in s[Own(Output)] && Rank(Output) > Rank(Input);
    assert HeldLater(s, Input) && !Held(s, Input);
    assert Touches(c, Input) && Straggler(s, Input);
    RemoveAfterApply(s, c);
  }
}
