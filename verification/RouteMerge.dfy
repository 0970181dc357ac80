/** The list ts_start offers to the planner: the LAN network, then every custom route not already in it. The
    script works on comma-separated text and finds a route by its commas. */
module RouteMerge {
  import opened Text

  predicate InfixAt(s: string, t: string, i: int) {
    0 <= i <= |s| - |t| && s[i..i + |t|] == t
  }

  predicate HasInfix(s: string, t: string) {
    exists i | 0 <= i <= |s| - |t| :: InfixAt(s, t, i)
  }

  /** The pattern test of the script: the list between commas contains the route between commas. */
  predicate Mentions(list: string, route: string) {
    HasInfix("," + list + ",", "," + route + ",")
  }

  /** Entries of an accepted list. */
  predicate Entries(parts: seq<string>) {
    forall p | p in parts :: p != "" && ',' !in p
  }

  lemma EntriesOf(parts: seq<string>, i: nat)
    requires Entries(parts) && i <= |parts|
    ensures Entries(parts[i..]) && Entries(parts[..i])
  {
    assert forall p | p in parts[i..] || p in parts[..i] :: p in parts;
  }

  /** Each entry once, at its first occurrence. */
  function Firsts(parts: seq<string>): (d: seq<string>)
    ensures forall p :: p in d <==> p in parts
    ensures forall i, j | 0 <= i < j < |d| :: d[i] != d[j]
  {
    if parts == [] then []
    else
      var init, last := parts[..|parts| - 1], parts[|parts| - 1];
      if last in init then Firsts(init) else Firsts(init) + [last]
  }

  lemma CommaFree(a: string, b: string, s: string, t: string)
    requires ',' !in a && ',' !in b && a + "," + s == b + "," + t
    ensures a == b
  {
    IndexAfter(a, ',', s);
    IndexAfter(b, ',', t);
    assert (a + "," + s)[..|a|] == a && (b + "," + t)[..|b|] == b;
  }

  lemma InfixFromTail(x: string, t: string, tail: string)
    requires HasInfix("," + tail, t)
    ensures HasInfix("," + x + "," + tail, t)
  {
    var s, rest := "," + x + "," + tail, "," + tail;
    var i :| 0 <= i <= |rest| - |t| && InfixAt(rest, t, i);
    var k := i + 1 + |x|;
    assert s == ("," + x) + rest;
    assert s[k..k + |t|] == rest[i..i + |t|];
    assert InfixAt(s, t, k);
  }

  lemma InfixAtStart(x: string, r: string, tail: string)
    requires ',' !in x && ',' !in r
    ensures InfixAt("," + x + "," + tail, "," + r + ",", 0) <==> x == r
  {
    var s, t := "," + x + "," + tail, "," + r + ",";
    if x == r {
      assert s[0..|t|] == t;
    }
    if InfixAt(s, t, 0) {
      assert s == t + s[|t|..];
      assert s[1..] == x + "," + tail;
      assert s[1..] == r + "," + s[|t|..];
      CommaFree(x, r, tail, s[|t|..]);
    }
  }

  lemma InfixBeyond(x: string, t: string, tail: string, i: int)
    requires ',' !in x && t != "" && t[0] == ',' && i > 0 && InfixAt("," + x + "," + tail, t, i)
    ensures HasInfix("," + tail, t)
  {
    var s, rest := "," + x + "," + tail, "," + tail;
    assert s[i] == s[i..i + |t|][0] == ',';
    assert forall k | 1 <= k <= |x| :: s[k] == x[k - 1] && x[k - 1] in x;
    var k := i - 1 - |x|;
    assert s == ("," + x) + rest;
    assert rest[k..k + |t|] == s[i..i + |t|];
    assert InfixAt(rest, t, k);
  }

  /** The entry x with the rest of the list, both between commas. */
  lemma InfixAtHead(x: string, r: string, tail: string)
    requires ',' !in x && ',' !in r
    ensures HasInfix("," + x + "," + tail, "," + r + ",") <==> x == r || HasInfix("," + tail, "," + r + ",")
  {
    hide InfixAt;
    var s, t := "," + x + "," + tail, "," + r + ",";
    InfixAtStart(x, r, tail);
    if HasInfix("," + tail, t) {
      InfixFromTail(x, t, tail);
    }
    if HasInfix(s, t) {
      var i :| 0 <= i <= |s| - |t| && InfixAt(s, t, i);
      if i > 0 {
        InfixBeyond(x, t, tail, i);
      }
    }
  }

  /** Looking between commas finds exactly the entries of the list. */
  lemma {:induction false} MentionsExactly(parts: seq<string>, r: string)
    requires Entries(parts) && r != "" && ',' !in r
    ensures Mentions(Join(parts, ','), r) <==> r in parts
  {
    if parts == [] {
      assert |"," + Join(parts, ',') + ","| < |"," + r + ","|;
    } else if |parts| == 1 {
      InfixAtHead(parts[0], r, "");
      assert "," + parts[0] + "," + "" == "," + Join(parts, ',') + ",";
      assert |"," + ""| < |"," + r + ","|;
    } else {
      var tail := Join(parts[1..], ',') + ",";
      InfixAtHead(parts[0], r, tail);
      assert "," + parts[0] + "," + tail == "," + Join(parts, ',') + ",";
      assert "," + tail == "," + Join(parts[1..], ',') + ",";
      EntriesOf(parts, 1);
      MentionsExactly(parts[1..], r);
    }
  }

  lemma {:induction false} JoinAppend(parts: seq<string>, r: string)
    ensures Join(parts + [r], ',') == if parts == [] then r else Join(parts, ',') + "," + r
  {
    if |parts| > 1 {
      JoinAppend(parts[1..], r);
      assert (parts + [r])[1..] == parts[1..] + [r];
    } else if |parts| == 1 {
      assert (parts + [r])[1..] == [r];
    }
  }

  lemma JoinIsEmpty(parts: seq<string>)
    requires Entries(parts)
    ensures Join(parts, ',') == "" <==> parts == []
  {
    if parts != [] {
      assert parts[0] in parts;
      assert |Join(parts, ',')| >= |parts[0]| > 0;
    }
  }

  /** Cutting the list at its first comma takes off its first entry. */
  lemma HeadOfList(parts: seq<string>)
    requires parts != [] && Entries(parts)
    ensures var s := Join(parts, ','); var i := Index(s, ',');
            s[..i] == parts[0] && (if i < |s| then s[i + 1..] else "") == Join(parts[1..], ',')
  {
    assert parts[0] in parts;
    var rest := Join(parts[1..], ',');
    IndexAfter(parts[0], ',', rest);
    if |parts| > 1 {
      var s := parts[0] + [','] + rest;
      assert s[..|parts[0]|] == parts[0] && s[|parts[0]| + 1..] == rest;
    }
  }

  /** What appending one more route to the text does to the list. */
  lemma AddRoute(seen: seq<string>, route: string)
    requires Entries(seen) && route != "" && ',' !in route
    ensures var text := Join(Firsts(seen), ',');
            Join(Firsts(seen + [route]), ',') ==
              if Mentions(text, route) then text else if text == "" then route else text + "," + route
    ensures |Firsts(seen + [route])| == |Firsts(seen)| + if Mentions(Join(Firsts(seen), ','), route) then 0 else 1
  {
    hide Mentions;
    var d := Firsts(seen);
    assert (seen + [route])[..|seen|] == seen;
    MentionsExactly(d, route);
    JoinIsEmpty(d);
    JoinAppend(d, route);
  }

  lemma FirstOnly(lan: string)
    ensures Firsts([]) == [] && Firsts([lan]) == [lan]
    ensures Join([], ',') == "" && Join([lan], ',') == lan
  {
  }

  /** The text of the list once n custom routes have been looked at, how many routes it names, and what is left. */
  ghost function TextAfter(head: seq<string>, parts: seq<string>, n: nat): (string, nat, string)
    requires n <= |parts|
  {
    (Join(Firsts(head + parts[..n]), ','), |Firsts(head + parts[..n])|, Join(parts[n..], ','))
  }

  lemma NextRoute(head: seq<string>, parts: seq<string>, n: nat)
    requires n < |parts| && Entries(head) && Entries(parts)
    ensures var (text, count, left) := TextAfter(head, parts, n);
            var i := Index(left, ',');
            var route := left[..i];
            left != "" &&
            TextAfter(head, parts, n + 1) ==
              if Mentions(text, route) then (text, count, if i < |left| then left[i + 1..] else "")
              else (if text == "" then route else text + "," + route, count + 1, if i < |left| then left[i + 1..] else "")
  {
    hide Join, Index, Firsts, Mentions;
    var seen, route := head + parts[..n], parts[n];
    EntriesOf(parts, n);
    JoinIsEmpty(parts[n..]);
    HeadOfList(parts[n..]);
    assert parts[n..][1..] == parts[n + 1..] && parts[n..][0] == route;
    assert route in parts && Entries(seen);
    AddRoute(seen, route);
    assert head + parts[..n + 1] == seen + [route];
  }

  /** Both lists, each route once and in its first place. `lan` is the LAN network when routes are advertised. */
  method MergeRoutes(lan: string, custom: string) returns (routes: string, count: nat)
    requires lan != "" ==> ',' !in lan
    requires custom != "" ==> Entries(Split(custom, ','))
    ensures routes == Join(Merged(lan, custom), ',') && count == |Merged(lan, custom)|
  {
    hide Index, Mentions, TextAfter;
    ghost var parts := if custom == "" then [] else Split(custom, ',');
    ghost var head := if lan == "" then [] else [lan];
    MergeBegins(lan, custom);
    routes, count := lan, if lan == "" then 0 else 1;
    var remaining := custom;
    ghost var done := 0;
    while remaining != ""
      invariant 0 <= done <= |parts| && TextAfter(head, parts, done) == (routes, count, remaining)
      decreases |parts| - done
    {
      assert done < |parts| by { NothingLeft(head, parts, done); }
      NextRoute(head, parts, done);
      var i := Index(remaining, ',');
      var route := remaining[..i];
      remaining := if i < |remaining| then remaining[i + 1..] else "";
      done := done + 1;
      if !Mentions(routes, route) {
        routes := if routes == "" then route else routes + "," + route;
        count := count + 1;
      }
    }
    NothingLeft(head, parts, done);
  }

  lemma MergeBegins(lan: string, custom: string)
    requires custom != "" ==> Entries(Split(custom, ','))
    ensures var head, parts := if lan == "" then [] else [lan], if custom == "" then [] else Split(custom, ',');
            TextAfter(head, parts, 0) == (lan, |head|, custom)
  {
    hide Split, Join, Firsts;
    var head, parts := if lan == "" then [] else [lan], if custom == "" then [] else Split(custom, ',');
    FirstOnly(lan);
    FirstOnly("");
    JoinSplit(custom, ',');
    assert head + parts[..0] == head;
    assert parts[0..] == parts;
  }

  lemma NothingLeft(head: seq<string>, parts: seq<string>, n: nat)
    requires n <= |parts| && Entries(parts)
    ensures TextAfter(head, parts, n).2 == "" <==> n == |parts|
    ensures n == |parts| ==> TextAfter(head, parts, n).0 == Join(Firsts(head + parts), ',')
                             && TextAfter(head, parts, n).1 == |Firsts(head + parts)|
  {
    hide Join, Firsts;
    EntriesOf(parts, n);
    JoinIsEmpty(parts[n..]);
    assert n == |parts| ==> parts[..n] == parts;
  }

  function Merged(lan: string, custom: string): seq<string> {
    Firsts((if lan == "" then [] else [lan]) + if custom == "" then [] else Split(custom, ','))
  }

  /** The planner reads back exactly the routes of both lists. */
  lemma MergeReadsBack(lan: string, custom: string)
    requires lan != "" ==> ',' !in lan
    requires custom != "" ==> Entries(Split(custom, ','))
    ensures var list := Join(Merged(lan, custom), ',');
            if lan == "" && custom == "" then list == ""
            else Split(list, ',') == Merged(lan, custom)
                 && forall r :: r in Split(list, ',') <==> (lan != "" && r == lan) || (custom != "" && r in Split(custom, ','))
  {
    var m := Merged(lan, custom);
    assert lan == "" && custom == "" <==> m == [] by {
      if lan != "" { assert lan in m; }
      if custom != "" { assert Split(custom, ',')[0] in m; }
    }
    JoinSplit(custom, ',');
    if m != [] {
      SplitJoin(m, ',');
    }
  }
}
