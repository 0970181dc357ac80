/** The advertised-route plan (cmd/tsks-helper/appconnector.go): managed routes D, current routes P and
    learned routes L give the target D + (P * L), and a write only when P differs from it. */
module Plan {
  import opened Wrappers
  import opened Netip
  import opened Routes

  ghost function Elements(ps: seq<Prefix>): set<Prefix> {
    set p | p in ps
  }

  predicate NoDuplicates(ps: seq<Prefix>) {
    forall i, j | 0 <= i < j < |ps| :: ps[i] != ps[j]
  }

  // ---- Normalisation -------------------------------------------------------------------------

  function MaskedValid(list: seq<Prefix>): (ps: seq<Prefix>)
  {
    if list == [] then []
    else
      var init, last := MaskedValid(list[..|list| - 1]), list[|list| - 1];
      if last.Valid() then init + [last.Masked()] else init
  }

  function Normal(list: seq<Prefix>): seq<Prefix> {
    Distinct(MaskedValid(list))
  }

  /** normalizedPrefixes: invalid entries dropped, the rest masked, first occurrences kept. */
  method NormalizedPrefixes(list: seq<Prefix>) returns (out: seq<Prefix>)
    ensures out == Normal(list)
  {
    out := [];
    var seen: set<Prefix> := {};
    ghost var ps: seq<Prefix> := [];
    var i := 0;
    while i < |list|
      invariant i <= |list| && ps == MaskedValid(list[..i]) && out == Distinct(ps) && forall p :: p in seen <==> p in ps
    {
      assert list[..i + 1][..i] == list[..i];
      if list[i].Valid() {
        var p := list[i].Masked();
        assert (ps + [p])[..|ps|] == ps;
        if p !in seen {
          seen := seen + {p};
          out := out + [p];
        }
        ps := ps + [p];
      }
      i := i + 1;
    }
    assert list[..i] == list;
  }

  /** The masked forms of the valid entries, each once. */
  lemma {:induction false} NormalExactly(list: seq<Prefix>, q: Prefix)
    ensures q in Normal(list) <==> exists p :: p in list && p.Valid() && q == p.Masked()
    ensures NoDuplicates(Normal(list))
  {
    hide Prefix.Masked, Prefix.Valid;
    if list != [] {
      NormalExactly(list[..|list| - 1], q);
      assert list == list[..|list| - 1] + [list[|list| - 1]];
    }
  }

  // ---- Order of the retained routes ----------------------------------------------------------

  /** Addr.Compare, then length. */
  predicate Before(a: Prefix, b: Prefix) {
    if a.addr.v6 != b.addr.v6 then b.addr.v6
    else if a.addr.value != b.addr.value then a.addr.value < b.addr.value
    else a.bits < b.bits
  }

  /** IPv4 first, then by value, then the shorter prefix. */
  lemma BeforeIsTupleOrder(a: Prefix, b: Prefix)
    ensures var x, y := [if a.addr.v6 then 1 else 0, a.addr.value, a.bits], [if b.addr.v6 then 1 else 0, b.addr.value, b.bits];
      Before(a, b) <==> Precedes(x, y)
  {
    var x, y := [if a.addr.v6 then 1 else 0, a.addr.value, a.bits], [if b.addr.v6 then 1 else 0, b.addr.value, b.bits];
    if Before(a, b) {
      var k := if x[0] != y[0] then 0 else if x[1] != y[1] then 1 else 2;
      assert x[..k] == y[..k] && x[k] < y[k];
    }
    if k :| 0 <= k < |x| && k < |y| && x[..k] == y[..k] && x[k] < y[k] {
      assert k > 0 ==> x[0] == x[..k][0] == y[..k][0] == y[0];
      assert k > 1 ==> x[1] == x[..k][1] == y[..k][1] == y[1];
    }
  }

  predicate Increasing(ps: seq<Prefix>) {
    forall i, j | 0 <= i < j < |ps| :: Before(ps[i], ps[j])
  }

  function Insert(p: Prefix, ps: seq<Prefix>): seq<Prefix> {
    if ps == [] || Before(p, ps[0]) then [p] + ps else [ps[0]] + Insert(p, ps[1..])
  }

  function Sorted(ps: seq<Prefix>): seq<Prefix> {
    if ps == [] then [] else Insert(ps[|ps| - 1], Sorted(ps[..|ps| - 1]))
  }

  lemma {:induction false} InsertSorts(p: Prefix, ps: seq<Prefix>)
    requires Increasing(ps) && p !in ps
    ensures Increasing(Insert(p, ps))
    ensures forall q :: q in Insert(p, ps) <==> q == p || q in ps
  {
    if ps != [] && !Before(p, ps[0]) {
      InsertSorts(p, ps[1..]);
      assert forall q :: q in ps <==> q == ps[0] || q in ps[1..];
      forall q | q in Insert(p, ps[1..]) ensures Before(ps[0], q) {
        if q != p {
          var i :| 0 <= i < |ps[1..]| && ps[1..][i] == q;
          assert ps[i + 1] == q;
        }
      }
    }
  }

  lemma {:induction false} SortedSorts(ps: seq<Prefix>)
    requires NoDuplicates(ps)
    ensures Increasing(Sorted(ps))
    ensures forall q :: q in Sorted(ps) <==> q in ps
  {
    if ps != [] {
      var init := ps[..|ps| - 1];
      SortedSorts(init);
      InsertSorts(ps[|ps| - 1], Sorted(init));
    }
  }

  /** An increasing list is determined by its elements, so any sorting algorithm yields Sorted. */
  lemma {:induction false} IncreasingIsUnique(a: seq<Prefix>, b: seq<Prefix>)
    requires Increasing(a) && Increasing(b) && forall q :: q in a <==> q in b
    ensures a == b
  {
    assert b != [] ==> b[0] in b;
    if a != [] {
      assert a[0] in b && b != [];
      assert b[0] in a;
      assert a[0] == b[0];
      forall q ensures q in a[1..] <==> q in b[1..] {
        if q in a[1..] {
          var i :| 0 <= i < |a| - 1 && a[1..][i] == q;
          assert a[i + 1] == q && q in b && q != b[0];
        }
        if q in b[1..] {
          var i :| 0 <= i < |b| - 1 && b[1..][i] == q;
          assert b[i + 1] == q && q in a && q != a[0];
        }
      }
      IncreasingIsUnique(a[1..], b[1..]);
    }
  }

  // ---- The plan --------------------------------------------------------------------------------

  /** What the daemon should advertise: the managed routes, and learned routes it already advertises. */
  ghost function Target(p: seq<Prefix>, d: seq<Prefix>, l: seq<Prefix>, connector: bool): set<Prefix> {
    Elements(Normal(d)) + if connector then Elements(Normal(p)) * Elements(Normal(l)) else {}
  }

  /** The learned routes to keep, in the order the learned list gives them. */
  function Retained(p: seq<Prefix>, d: seq<Prefix>, learned: seq<Prefix>): seq<Prefix> {
    if learned == [] then []
    else
      var init, last := Retained(p, d, learned[..|learned| - 1]), learned[|learned| - 1];
      if last in p && last !in d && last !in init then init + [last] else init
  }

  lemma {:induction false} RetainedElements(p: seq<Prefix>, d: seq<Prefix>, learned: seq<Prefix>)
    ensures NoDuplicates(Retained(p, d, learned))
    ensures forall q :: q in Retained(p, d, learned) <==> q in learned && q in p && q !in d
  {
    if learned != [] {
      RetainedElements(p, d, learned[..|learned| - 1]);
      assert forall q :: q in learned <==> q in learned[..|learned| - 1] || q == learned[|learned| - 1];
    }
  }

  function Planned(p: seq<Prefix>, d: seq<Prefix>, l: seq<Prefix>, connector: bool): seq<Prefix> {
    Normal(d) + if connector then Sorted(Retained(Normal(p), Normal(d), Normal(l))) else []
  }

  /** The planned list is the target, without duplicates. */
  lemma PlannedIsTarget(p: seq<Prefix>, d: seq<Prefix>, l: seq<Prefix>, connector: bool)
    ensures Elements(Planned(p, d, l, connector)) == Target(p, d, l, connector)
    ensures NoDuplicates(Planned(p, d, l, connector))
  {
    if connector {
      var r := Retained(Normal(p), Normal(d), Normal(l));
      RetainedElements(Normal(p), Normal(d), Normal(l));
      SortedSorts(r);
      IncreasingIsDistinct(Sorted(r));
      assert forall q :: q in Planned(p, d, l, true) <==> q in Normal(d) || q in Sorted(r);
      forall i, j | 0 <= i < j < |Planned(p, d, l, true)| ensures Planned(p, d, l, true)[i] != Planned(p, d, l, true)[j] {
        if i < |Normal(d)| && |Normal(d)| <= j {
          assert Sorted(r)[j - |Normal(d)|] in r;
        }
      }
    }
  }

  lemma IncreasingIsDistinct(ps: seq<Prefix>)
    requires Increasing(ps)
    ensures NoDuplicates(ps)
  {
  }

  /** The loop of planRoutes over the learned routes: those in force that are not managed are retained. */
  method RetainLearned(now: seq<Prefix>, managed: seq<Prefix>, learned: seq<Prefix>)
    returns (retained: seq<Prefix>, target: set<Prefix>)
    ensures retained == Retained(now, managed, learned)
    ensures target == Elements(managed) + Elements(retained)
  {
    var current := set q | q in now;
    retained, target := [], set q | q in managed;
    var i := 0;
    while i < |learned|
      invariant i <= |learned| && retained == Retained(now, managed, learned[..i])
      invariant forall q :: q in target <==> q in managed || q in retained
    {
      assert learned[..i + 1][..i] == learned[..i];
      if learned[i] in current && learned[i] !in target {
        target := target + {learned[i]};
        retained := retained + [learned[i]];
      }
      i := i + 1;
    }
    assert learned[..i] == learned;
  }

  /** The last loop of planRoutes: two maps of the same size, every key of one in the other. */
  method SameRoutes(current: set<Prefix>, target: set<Prefix>) returns (keep: bool)
    ensures keep <==> current == target
  {
    keep := |current| == |target|;
    var rest := current;
    while rest != {}
      invariant rest <= current
      invariant keep <==> |current| == |target| && current - rest <= target
      decreases rest
    {
      var v :| v in rest;
      if v !in target {
        keep := false;
      }
      rest := rest - {v};
    }
    if keep {
      SameSize(current, target);
    }
  }

  /** planRoutes: the routes in force, the managed ones, and the retained ones sorted after them. */
  method PlanRoutes(p: seq<Prefix>, d: seq<Prefix>, l: seq<Prefix>, connector: bool)
    returns (keep: bool, list: seq<Prefix>)
    ensures list == Planned(p, d, l, connector)
    ensures keep <==> Elements(Normal(p)) == Target(p, d, l, connector)
  {
    hide Normal, Retained, Sorted;
    var now := NormalizedPrefixes(p);
    var managed := NormalizedPrefixes(d);
    list := managed;
    var target := set q | q in managed;
    if connector {
      var learned := NormalizedPrefixes(l);
      var retained: seq<Prefix>;
      retained, target := RetainLearned(now, managed, learned);
      RetainedElements(now, managed, learned);
      list := list + Sorted(retained);
    }
    assert target == Target(p, d, l, connector);
    var current := set q | q in now;
    keep := SameRoutes(current, target);
  }

  lemma {:induction false} SameSize(a: set<Prefix>, b: set<Prefix>)
    requires a <= b && |a| == |b|
    ensures a == b
  {
    assert |b - a| == |b| - |a|;
  }

  /** The plan depends on P and L only as sets: order and repetition do not matter. */
  lemma PlanIgnoresOrder(p: seq<Prefix>, p': seq<Prefix>, d: seq<Prefix>, l: seq<Prefix>, l': seq<Prefix>,
                         connector: bool)
    requires Elements(Normal(p)) == Elements(Normal(p')) && Elements(Normal(l)) == Elements(Normal(l'))
    ensures Planned(p, d, l, connector) == Planned(p', d, l', connector)
    ensures Target(p, d, l, connector) == Target(p', d, l', connector)
  {
    var a, b := Retained(Normal(p), Normal(d), Normal(l)), Retained(Normal(p'), Normal(d), Normal(l'));
    RetainedElements(Normal(p), Normal(d), Normal(l));
    RetainedElements(Normal(p'), Normal(d), Normal(l'));
    SortedSorts(a);
    SortedSorts(b);
    forall q ensures q in Sorted(a) <==> q in Sorted(b) {
      assert q in Elements(Normal(p)) <==> q in Elements(Normal(p'));
      assert q in Elements(Normal(l)) <==> q in Elements(Normal(l'));
    }
    IncreasingIsUnique(Sorted(a), Sorted(b));
  }

  /** Once the target is in force, a later plan with learned routes l' keeps it exactly when every
      route that is not managed is still among the learned ones; with the same l it always does. */
  lemma ReplanKeeps(p: seq<Prefix>, d: seq<Prefix>, l: seq<Prefix>, connector: bool, p': seq<Prefix>, l': seq<Prefix>)
    requires Elements(Normal(p')) == Target(p, d, l, connector)
    ensures Elements(Normal(p')) == Target(p', d, l', connector) <==>
      Target(p, d, l, connector) <= Elements(Normal(d)) + Elements(Normal(l'))
    ensures Elements(Normal(p')) == Target(p', d, l, connector)
  {
  }
}
