/** When exactly a recovery keeps the promise of the budget: which of its ledger lines may be lost. */
module WatchdogBudget {
  import opened Wrappers
  import opened WatchdogMachine
  import opened WatchdogSafety

  /** The line of the recovery itself is written. */
  predicate OwnLine(s: Sys, look: Look, f: Fates)
    requires look.clock.Some?
  {
    |History(s.files.ledger, look.clock.value)| !in f.unwritten
  }

  /** The line carried over is written, or the recovery it records is too old to matter to any later one. */
  predicate CarriedLine(s: Sys, look: Look, f: Fates)
    requires look.clock.Some?
  {
    var r := s.past.recorded;
    r == [] || 0 !in f.unwritten || r[|r| - 1] + DAY <= look.clock.value + GAP
  }

  /** However things go on, as long as later lines are written: recoveries stay half an hour apart. */
  ghost predicate AlwaysApart(s: Sys) {
    forall events :: StampsKept(s, events) ==> Apart(Run(s, events).past.recorded)
  }

  /** The same for both rules of the budget. */
  ghost predicate AlwaysInBudget(s: Sys) {
    forall events :: AllLinesKept(s, events) ==>
      Apart(Run(s, events).past.recorded) && TwoADay(Run(s, events).past.recorded)
  }

  // ---- Ledger lengths --------------------------------------------------------------------------------

  lemma {:induction false} HistoryLength(ledger: seq<Line>, now: nat)
    ensures |History(ledger, now)| <= |ledger|
  {
    if ledger != [] {
      HistoryLength(ledger[..|ledger| - 1], now);
    }
  }

  lemma {:induction false} StagedLength(stamps: seq<nat>, unwritten: set<nat>)
    ensures |Staged(stamps, unwritten)| <= |stamps|
  {
    if stamps != [] {
      StagedLength(stamps[..|stamps| - 1], unwritten);
    }
  }

  // ---- The recovery that can follow ---------------------------------------------------------------------

  /** A power loss, a start, and three minutes later three failing ticks at one time, all writes succeeding. */
  function Again(now: nat): seq<Event> {
    var down := Ticked(DOWN.(clock := Some(now)), FINE);
    [PowerLost, StartedAt(Some(0)), down, down, down]
  }

  /** A failing tick past the grace period counts, and the third spends what the ledger can afford. */
  lemma FailingTick(s: Sys, n: nat, now: nat)
    requires s.files.saved == Counters(n, 0) && n <= 2 && s.files.started == Some(0) && now >= GRACE
    ensures var t := Tick(s, DOWN.(clock := Some(now)), FINE);
            if n < 2
            then t == Sys(s.files.(saved := Counters(n + 1, 0)), s.past.(seen := s.past.seen + [Seen(Failing, now, true, true)]))
            else Affordable(s.files.ledger, now) ==> t.past.recorded == s.past.recorded + [now]
  {
  }

  lemma AgainSpends(s: Sys, now: nat)
    requires Affordable(s.files.ledger, now)
    ensures Run(s, Again(now)).past.recorded == s.past.recorded + [now]
    ensures StampsKept(s, Again(now)) && AllLinesKept(s, Again(now))
  {
    hide Tick, Affordable, Run;
    assert now >= GRACE by { AffordableIsLate(s.files.ledger, now); }
    var down := Ticked(DOWN.(clock := Some(now)), FINE);
    var b := Next(Next(s, PowerLost), StartedAt(Some(0)));
    FailingTick(b, 0, now);
    var c := Next(b, down);
    FailingTick(c, 1, now);
    var d := Next(c, down);
    FailingTick(d, 2, now);
    RunFive(s, PowerLost, StartedAt(Some(0)), down, down, down);
    forall i | 0 <= i < 5
      ensures StampKept(Run(s, Again(now)[..i]), Again(now)[i]) && LinesKept(Run(s, Again(now)[..i]), Again(now)[i])
    {
      assert Again(now)[i].Ticked? ==> Again(now)[i].fates.unwritten == {};
    }
  }

  /** A power loss, a start, and two ticks ten minutes apart that find the control connection down. */
  function AgainByControl(now: nat): seq<Event>
    requires now >= GAP
  {
    [PowerLost, StartedAt(Some(0)), Ticked(Offline(now - SPAN), FINE), Ticked(Offline(now), FINE)]
  }

  function Offline(now: nat): Look {
    var report := Some(Status(true, false, false, true, true, false));
    Look(false, true, true, false, true, Some(now), report, true, report, true, true, None)
  }

  /** A lost control connection leads to a recovery whenever the ledger can afford one. */
  lemma ControlSpendsAgain(s: Sys, now: nat)
    requires Affordable(s.files.ledger, now)
    ensures now >= GAP
    ensures Run(s, AgainByControl(now)).past.recorded == s.past.recorded + [now]
  {
    hide Tick, Affordable, Run;
    AffordableIsLate(s.files.ledger, now);
    var b := Next(Next(s, PowerLost), StartedAt(Some(0)));
    ControlRecovers(b, Offline(now - SPAN), FINE, Offline(now), FINE);
    RunFour(s, PowerLost, StartedAt(Some(0)), Ticked(Offline(now - SPAN), FINE), Ticked(Offline(now), FINE));
  }

  lemma AffordableIsLate(ledger: seq<Line>, now: nat)
    requires Affordable(ledger, now)
    ensures now >= GAP
  {
  }

  lemma RunNone(s: Sys)
    ensures Run(s, []) == s
  {
  }

  lemma RunFour(s: Sys, a: Event, b: Event, c: Event, d: Event)
    ensures Run(s, [a, b, c, d]) == Next(Next(Next(Next(s, a), b), c), d)
  {
    RunNone(s);
    hide Next, Run;
    RunOn(s, [], a);
    RunOn(s, [a], b);
    RunOn(s, [a, b], c);
    RunOn(s, [a, b, c], d);
    assert [] + [a] == [a] && [a] + [b] == [a, b] && [a, b] + [c] == [a, b, c] && [a, b, c] + [d] == [a, b, c, d];
  }

  lemma RunFive(s: Sys, a: Event, b: Event, c: Event, d: Event, e: Event)
    ensures Run(s, [a, b, c, d, e]) == Next(Next(Next(Next(Next(s, a), b), c), d), e)
  {
    hide Next, Run;
    RunFour(s, a, b, c, d);
    RunOn(s, [a, b, c, d], e);
    assert [a, b, c, d] + [e] == [a, b, c, d, e];
  }

  // ---- The gap ---------------------------------------------------------------------------------------------

  /** Without the line of the recovery itself the new ledger can afford another one at the same time. */
  lemma LostOwnLine(ledger: seq<Line>, now: nat, unwritten: set<nat>)
    requires Affordable(ledger, now) && |History(ledger, now)| in unwritten
    ensures Affordable(Staged(History(ledger, now) + [now], unwritten), now)
  {
    hide History, Last;
    var h := History(ledger, now);
    var l := Staged(h + [now], unwritten);
    assert (h + [now])[..|h|] == h && l == Staged(h, unwritten);
    StagedLength(h, unwritten);
    HistoryLength(l, now);
    LastIsIn(l);
    if Last(l) != 0 {
      StagedIsFrom(h, unwritten, Last(l));
      HistoryIsWindow(ledger, now, Last(l));
      LastIsLatest(ledger, Last(l));
    }
  }

  lemma NotApart(r: seq<nat>, now: nat)
    ensures !Apart(r + [now] + [now])
  {
    var q := r + [now] + [now];
    assert q[|r|] == now && q[|r| + 1] == now;
  }

  /** After any recovery of any run that kept its lines so far, recoveries stay half an hour apart however
      things go on, if and only if the line of this recovery is written. */
  lemma GapKeptExactly(s0: Sys, before: seq<Event>, look: Look, f: Fates)
    requires Initial(s0) && StampsKept(s0, before) && Spends(Run(s0, before), look, f)
    ensures look.clock.Some?
    ensures AlwaysApart(Tick(Run(s0, before), look, f)) <==> OwnLine(Run(s0, before), look, f)
  {
    hide Tick, Affordable, History, Staged, Run, StampsKept;
    RunKeepsGap(s0, before);
    var s := Run(s0, before);
    SpendingTick(s, look, f);
    var now, t := look.clock.value, Tick(s, look, f);
    if OwnLine(s, look, f) {
      GapStep(s, Ticked(look, f));
      forall events | StampsKept(t, events) ensures Apart(Run(t, events).past.recorded) {
        RunKeepsGap(t, events);
      }
    } else {
      LostOwnLine(s.files.ledger, now, f.unwritten);
      AgainSpends(t, now);
      NotApart(s.past.recorded, now);
    }
  }

  // ---- The budget -------------------------------------------------------------------------------------------

  /** The newest recovery within the last day is all the history there is. */
  lemma OnlyNewest(s: Sys, now: nat)
    requires NewestKept(s) && s.past.recorded != [] && Affordable(s.files.ledger, now)
    requires s.past.recorded[|s.past.recorded| - 1] + DAY > now
    ensures History(s.files.ledger, now) == [s.past.recorded[|s.past.recorded| - 1]]
  {
    hide History, Last;
    var a, h := s.past.recorded[|s.past.recorded| - 1], History(s.files.ledger, now);
    LastIsLatest(s.files.ledger, a);
    HistoryIsWindow(s.files.ledger, now, a);
    var i :| 0 <= i < |h| && h[i] == a;
    assert i == 0 && h == [h[0]];
  }

  /** With both lines written the second newest recovery stays in the ledger, or no longer matters. */
  lemma SecondStays(s: Sys, look: Look, f: Fates)
    requires NewestKept(s) && Spends(s, look, f) && look.clock.Some? && CarriedLine(s, look, f)
    ensures SecondKept(Tick(s, look, f))
  {
    hide Tick, Affordable, History, Staged;
    SpendingTick(s, look, f);
    var r, now := s.past.recorded, look.clock.value;
    if r != [] && r[|r| - 1] + DAY > now + GAP {
      OnlyNewest(s, now);
      StagedHolds([r[|r| - 1]] + [now], f.unwritten, 0);
    }
  }

  /** Without the line carried over, when it matters, one more recovery fits after half an hour. */
  lemma LostCarriedLine(s: Sys, look: Look, f: Fates)
    requires NewestKept(s) && Spends(s, look, f) && look.clock.Some? && OwnLine(s, look, f) && !CarriedLine(s, look, f)
    ensures Tick(s, look, f).files.ledger == [Number(look.clock.value)]
  {
    hide Tick, Affordable, History;
    SpendingTick(s, look, f);
    var r, now := s.past.recorded, look.clock.value;
    OnlyNewest(s, now);
    var stamps := [r[|r| - 1]] + [now];
    assert stamps[..1] == [r[|r| - 1]] && stamps[..1][..0] == [];
    assert Staged([], f.unwritten) == [] && Staged(stamps[..1], f.unwritten) == [];
  }

  lemma FreshLedger(now: nat)
    ensures Affordable([Number(now)], now + GAP)
  {
    assert [Number(now)][..0] == [];
    HistoryLength([Number(now)], now + GAP);
  }

  lemma NotTwoADay(r: seq<nat>, now: nat)
    requires r != [] && r[|r| - 1] + DAY > now + GAP
    ensures !TwoADay(r + [now] + [now + GAP])
  {
    var q := r + [now] + [now + GAP];
    assert q[|r| - 1] == r[|r| - 1] && q[|r| - 1 + 2] == now + GAP;
  }

  /** After any recovery of any run that kept its lines so far, the whole budget is kept however things go on,
      if and only if the line of this recovery is written, and so is the one carried over unless the recovery
      it records will be a day old before another can follow. */
  lemma BudgetKeptExactly(s0: Sys, before: seq<Event>, look: Look, f: Fates)
    requires Initial(s0) && AllLinesKept(s0, before) && Spends(Run(s0, before), look, f)
    ensures look.clock.Some?
    ensures AlwaysInBudget(Tick(Run(s0, before), look, f)) <==>
            OwnLine(Run(s0, before), look, f) && CarriedLine(Run(s0, before), look, f)
  {
    hide Tick, Affordable, History, Staged, Run, AllLinesKept;
    InitialIsBudgeted(s0);
    RunKeepsBudget(s0, before);
    var s := Run(s0, before);
    SpendingTick(s, look, f);
    var now, t, r := look.clock.value, Tick(s, look, f), s.past.recorded;
    if !OwnLine(s, look, f) {
      LostOwnLine(s.files.ledger, now, f.unwritten);
      AgainSpends(t, now);
      NotApart(r, now);
    } else if !CarriedLine(s, look, f) {
      LostCarriedLine(s, look, f);
      FreshLedger(now);
      AgainSpends(t, now + GAP);
      NotTwoADay(r, now);
    } else {
      GapStep(s, Ticked(look, f));
      DayAfter(s, now);
      SecondStays(s, look, f);
      assert Budgeted(t);
      forall events | AllLinesKept(t, events)
        ensures Apart(Run(t, events).past.recorded) && TwoADay(Run(t, events).past.recorded)
      {
        RunKeepsBudget(t, events);
      }
    }
  }
}
