/** Which entry of a list that is too long the error names. */
module LongLists {
  import opened Text
  import opened Routes

  const SEP := ','

  lemma {:induction false} CountParts(a: string, b: string, c: char)
    ensures Count(a + b, c) == Count(a, c) + Count(b, c)
    ensures c !in a ==> Count(a, c) == 0
  {
    if a == "" {
      assert a + b == b;
    } else {
      CountParts(a[1..], b, c);
      assert (a + b)[1..] == a[1..] + b;
    }
  }

  lemma {:induction false} LastIndexParts(a: string, c: char, b: string)
    ensures LastIndexAfter(a + [c] + b, c) == |a| + 1 + LastIndexAfter(b, c)
    ensures c !in b ==> LastIndexAfter(b, c) == 0
  {
    var s := a + [c] + b;
    if b != "" {
      var n := |b| - 1;
      LastIndexParts(a, c, b[..n]);
      assert s[..|s| - 1] == a + [c] + b[..n] && s[|s| - 1] == b[n];
    }
  }

  /** Entry k reaches from start to end, and position m is in it or at one of its ends. */
  predicate IsEntry(entries: seq<string>, list: string, k: nat, start: nat, end: nat, m: nat) {
    && k < |entries| && start <= m <= end <= |list| && entries[k] == list[start..end]
    && Reach(entries, k + 1, list, end)
    && (if k == 0 then start == 0 else start > 0 && Reach(entries, k, list, start - 1))
  }

  /** The first k entries are the list up to this position. */
  predicate Reach(entries: seq<string>, k: nat, list: string, end: nat) {
    k <= |entries| && end <= |list| && Join(entries[..k], SEP) == list[..end]
  }

  lemma ReachMore(head: string, rest: string, entries: seq<string>, k: nat, end: nat)
    requires k > 0 && Reach(entries, k, rest, end)
    ensures Reach([head] + entries, k + 1, head + [SEP] + rest, |head| + 1 + end)
  {
    JoinMore(head, entries[..k], SEP);
    assert ([head] + entries)[..k + 1] == [head] + entries[..k];
    assert (head + [SEP] + rest)[..|head| + 1 + end] == head + [SEP] + rest[..end];
  }

  lemma ReachOne(head: string, rest: string, entries: seq<string>)
    ensures Reach([head] + entries, 1, head + [SEP] + rest, |head|)
  {
    JoinOne(head, SEP);
    assert ([head] + entries)[..1] == [head];
    assert (head + [SEP] + rest)[..|head|] == head;
  }

  lemma FirstEntry(list: string, m: nat)
    requires m <= Index(list, SEP)
    ensures IsEntry(Split(list, SEP), list, 0, 0, Index(list, SEP), m)
    ensures Count(list[..m], SEP) == 0 && LastIndexAfter(list[..m], SEP) == 0
  {
    var i := Index(list, SEP);
    IndexFirst(list, SEP);
    assert forall c | c in list[..m] :: c in list[..i];
    CountParts(list[..m], "", SEP);
    LastIndexParts("", SEP, list[..m]);
    assert list[..|list|] == list;
    assert Split(list, SEP)[..1] == [list[..i]];
    JoinOne(list[..i], SEP);
  }

  lemma SliceAfter(head: string, c: char, rest: string, start: nat, end: nat)
    requires start <= end <= |rest|
    ensures (head + [c] + rest)[|head| + 1 + start..|head| + 1 + end] == rest[start..end]
  {
  }

  lemma CutAt(list: string, i: nat, c: char)
    requires i < |list| && list[i] == c
    ensures list == list[..i] + [c] + list[i + 1..]
  {
  }

  lemma LaterEntry(head: string, rest: string, list: string, entries: seq<string>, all: seq<string>,
                   k: nat, start: nat, end: nat, m: nat)
    requires list == head + [SEP] + rest && all == [head] + entries && IsEntry(entries, rest, k, start, end, m)
    ensures var n := |head| + 1; IsEntry(all, list, k + 1, n + start, n + end, n + m)
  {
    hide Reach, Join;
    ReachMore(head, rest, entries, k + 1, end);
    if k > 0 { ReachMore(head, rest, entries, k, start - 1); } else { ReachOne(head, rest, entries); }
    SliceAfter(head, SEP, rest, start, end);
  }

  lemma JoinMore(head: string, parts: seq<string>, c: char)
    requires parts != []
    ensures Join([head] + parts, c) == head + [c] + Join(parts, c)
  {
    assert ([head] + parts)[1..] == parts;
  }

  lemma JoinOne(head: string, c: char)
    ensures Join([head], c) == head && Join([], c) == ""
  {
  }

  lemma LaterCount(a: string, b: string)
    requires SEP !in a
    ensures Count(a + [SEP] + b, SEP) == 1 + Count(b, SEP)
    ensures LastIndexAfter(a + [SEP] + b, SEP) == |a| + 1 + LastIndexAfter(b, SEP)
  {
    assert [SEP][1..] == "" && Count([SEP], SEP) == 1;
    CountParts(a, [SEP], SEP);
    CountParts(a + [SEP], b, SEP);
    LastIndexParts(a, SEP, b);
  }

  // What the error computes for position m: the number of the entry, its start, and its end.

  function Number(list: string, m: nat): nat
    requires m <= |list|
  {
    Count(list[..m], SEP)
  }

  function Start(list: string, m: nat): nat
    requires m <= |list|
  {
    LastIndexAfter(list[..m], SEP)
  }

  function End(list: string, start: nat): nat
    requires start <= |list|
  {
    start + Index(list[start..], SEP)
  }

  lemma NumberLater(list: string, i: nat, m: nat)
    requires i < m <= |list| && list[i] == SEP && SEP !in list[..i]
    ensures Number(list, m) == 1 + Number(list[i + 1..], m - i - 1)
    ensures Start(list, m) == i + 1 + Start(list[i + 1..], m - i - 1)
  {
    hide Count, LastIndexAfter;
    LaterCount(list[..i], list[i + 1..][..m - i - 1]);
    assert list[..m] == list[..i] + [SEP] + list[i + 1..][..m - i - 1];
  }

  lemma EndLater(list: string, i: nat, start: nat)
    requires i < |list| && start <= |list| - i - 1
    ensures End(list, i + 1 + start) == i + 1 + End(list[i + 1..], start)
  {
    hide Index;
    assert list[i + 1 + start..] == list[i + 1..][start..];
  }

  lemma EntryLater(list: string, i: nat, k: nat, start: nat, end: nat, m: nat)
    requires i < |list| && list[i] == SEP && IsEntry(Split(list[i + 1..], SEP), list[i + 1..], k, start, end, m)
    requires Split(list, SEP) == [list[..i]] + Split(list[i + 1..], SEP)
    ensures IsEntry(Split(list, SEP), list, k + 1, i + 1 + start, i + 1 + end, i + 1 + m)
  {
    hide IsEntry, Split;
    CutAt(list, i, SEP);
    LaterEntry(list[..i], list[i + 1..], list, Split(list[i + 1..], SEP), Split(list, SEP), k, start, end, m);
  }

  /** The entry they name holds position m, or begins there. */
  lemma {:induction false} EntryAt(list: string, m: nat)
    requires m <= |list|
    ensures Start(list, m) <= |list|
    ensures IsEntry(Split(list, SEP), list, Number(list, m), Start(list, m), End(list, Start(list, m)), m)
    decreases |list|
  {
    hide IsEntry, Split, Index, Number, Start, End;
    var i := Index(list, SEP);
    if m <= i {
      FoundFirst(list, m);
    } else {
      var rest := list[i + 1..];
      EntryAt(rest, m - i - 1);
      IndexFirst(list, SEP);
      SplitMore(list, SEP);
      NumberLater(list, i, m);
      var k, start := Number(rest, m - i - 1), Start(rest, m - i - 1);
      EndLater(list, i, start);
      EntryLater(list, i, k, start, End(rest, start), m - i - 1);
    }
  }

  lemma FoundFirst(list: string, m: nat)
    requires m <= Index(list, SEP)
    ensures Start(list, m) == 0
    ensures IsEntry(Split(list, SEP), list, Number(list, m), 0, End(list, 0), m)
  {
    hide IsEntry, Split;
    FirstEntry(list, m);
    assert list[0..] == list;
  }

  /** A list that is too long is blamed on the first entry with which it exceeds the limit. */
  lemma LengthErrorExactly(list: string)
    requires |list| > MAX_BYTES
    ensures var e, entries := LengthError(list), Split(list, SEP);
      && 1 <= e.index <= |entries| && e.entry == entries[e.index - 1]
      && |Join(entries[..e.index - 1], SEP)| <= MAX_BYTES < |Join(entries[..e.index], SEP)|
  {
    hide Split, Join, Count, LastIndexAfter;
    JoinOne("", SEP);
    EntryAt(list, MAX_BYTES + 1);
    assert Number(list, MAX_BYTES + 1) == 0 ==> Split(list, SEP)[..0] == [];
  }
}
