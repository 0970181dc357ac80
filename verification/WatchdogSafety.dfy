/** What the recovery log keeps over every run: the budget, and the evidence behind each recovery. */
module WatchdogSafety {
  import opened Wrappers
  import opened WatchdogMachine

  // ---- The ledger ------------------------------------------------------------------------------------

  lemma {:induction false} LastIsLatest(ledger: seq<Line>, v: nat)
    requires Number(v) in ledger
    ensures v <= Last(ledger)
  {
    var n := |ledger| - 1;
    if ledger[n] != Number(v) {
      LastIsLatest(ledger[..n], v);
    }
  }

  lemma {:induction false} HistoryIsWindow(ledger: seq<Line>, now: nat, v: nat)
    ensures v in History(ledger, now) <==> Number(v) in ledger && InWindow(v, now)
  {
    if ledger != [] {
      var n := |ledger| - 1;
      HistoryIsWindow(ledger[..n], now, v);
      assert ledger == ledger[..n] + [ledger[n]];
    }
  }

  lemma {:induction false} StagedHolds(stamps: seq<nat>, unwritten: set<nat>, i: nat)
    requires i < |stamps| && i !in unwritten
    ensures Number(stamps[i]) in Staged(stamps, unwritten)
  {
    if i < |stamps| - 1 {
      StagedHolds(stamps[..|stamps| - 1], unwritten, i);
    }
  }

  lemma {:induction false} StagedIsFrom(stamps: seq<nat>, unwritten: set<nat>, v: nat)
    requires Number(v) in Staged(stamps, unwritten)
    ensures exists i :: 0 <= i < |stamps| && i !in unwritten && stamps[i] == v
  {
    var n := |stamps| - 1;
    if n in unwritten || v != stamps[n] {
      StagedIsFrom(stamps[..n], unwritten, v);
      var i :| 0 <= i < n && i !in unwritten && stamps[..n][i] == v;
      assert stamps[i] == v;
    }
  }

  /** A recovery spends budget exactly when the ledger was replaced for it. */
  predicate Spends(s: Sys, look: Look, f: Fates) {
    |Tick(s, look, f).past.recorded| > |s.past.recorded|
  }

  /** The line of the recovery itself was written whenever the ledger was replaced. */
  predicate StampKept(s: Sys, e: Event) {
    e.Ticked? && Spends(s, e.look, e.fates) && e.look.clock.Some? ==>
      |History(s.files.ledger, e.look.clock.value)| !in e.fates.unwritten
  }

  /** So were the lines it carries over. */
  predicate LinesKept(s: Sys, e: Event) {
    e.Ticked? && Spends(s, e.look, e.fates) ==> e.fates.unwritten == {}
  }

  lemma SpendingTick(s: Sys, look: Look, f: Fates)
    requires Spends(s, look, f)
    ensures !Gated(look) && look.watchdog && look.clock.Some?
    ensures s.files.started.Some? && !InGrace(s.files.started.value, look.clock.value)
    ensures Affordable(s.files.ledger, look.clock.value)
    ensures var now := look.clock.value; var t := Tick(s, look, f);
            && t.past.recorded == s.past.recorded + [now]
            && t.files.ledger == Staged(History(s.files.ledger, now) + [now], f.unwritten)
  {
  }

  lemma ThriftyTick(s: Sys, e: Event)
    requires e.Ticked? ==> !Spends(s, e.look, e.fates)
    ensures Next(s, e).past.recorded == s.past.recorded && Next(s, e).files.ledger == s.files.ledger
  {
  }

  predicate NewestKept(s: Sys) {
    s.past.recorded != [] ==> Number(s.past.recorded[|s.past.recorded| - 1]) in s.files.ledger
  }

  /** The recovery before the newest is still in the ledger, or too old to count against the next one. */
  predicate SecondKept(s: Sys) {
    var r := s.past.recorded;
    |r| >= 2 ==> Number(r[|r| - 2]) in s.files.ledger || r[|r| - 2] + DAY <= r[|r| - 1] + GAP
  }

  predicate Apart(r: seq<nat>) {
    forall i | 0 <= i < |r| - 1 :: r[i] + GAP <= r[i + 1]
  }

  predicate TwoADay(r: seq<nat>) {
    forall i | 0 <= i < |r| - 2 :: r[i] + DAY <= r[i + 2]
  }

  lemma GapStep(s: Sys, e: Event)
    requires NewestKept(s) && Apart(s.past.recorded) && StampKept(s, e)
    ensures NewestKept(Next(s, e)) && Apart(Next(s, e).past.recorded)
  {
    hide Tick, Affordable, Last, History, Staged;
    if e.Ticked? && Spends(s, e.look, e.fates) {
      SpendingTick(s, e.look, e.fates);
      var now, r := e.look.clock.value, s.past.recorded;
      GapAfter(s.files.ledger, now, r);
      var stamps := History(s.files.ledger, now) + [now];
      StagedHolds(stamps, e.fates.unwritten, |stamps| - 1);
      assert Next(s, e) == Tick(s, e.look, e.fates);
    } else {
      ThriftyTick(s, e);
    }
  }

  lemma GapAfter(ledger: seq<Line>, now: nat, r: seq<nat>)
    requires Affordable(ledger, now) && Apart(r)
    requires r != [] ==> Number(r[|r| - 1]) in ledger
    ensures Apart(r + [now])
  {
    if r != [] {
      LastIsLatest(ledger, r[|r| - 1]);
    }
  }

  lemma TwoInWindow(ledger: seq<Line>, now: nat, a: nat, b: nat)
    requires Number(a) in ledger && Number(b) in ledger && a < b
    requires InWindow(a, now) && InWindow(b, now)
    ensures |History(ledger, now)| >= 2
  {
    HistoryIsWindow(ledger, now, a);
    HistoryIsWindow(ledger, now, b);
    var h := History(ledger, now);
    var i :| 0 <= i < |h| && h[i] == a;
    var j :| 0 <= j < |h| && h[j] == b;
    assert i != j;
  }

  lemma DayAfter(s: Sys, now: nat)
    requires NewestKept(s) && SecondKept(s) && Apart(s.past.recorded) && TwoADay(s.past.recorded)
    requires Affordable(s.files.ledger, now)
    ensures TwoADay(s.past.recorded + [now])
  {
    var r, ledger := s.past.recorded, s.files.ledger;
    if |r| >= 2 {
      var a, b := r[|r| - 2], r[|r| - 1];
      LastIsLatest(ledger, b);
      assert a + GAP <= b;
      if a + DAY > now {
        TwoInWindow(ledger, now, a, b);
      }
    }
  }

  lemma SecondAfter(s: Sys, now: nat)
    requires NewestKept(s) && Affordable(s.files.ledger, now) && s.past.recorded != []
    ensures var a, stamps := s.past.recorded[|s.past.recorded| - 1], History(s.files.ledger, now) + [now];
            Number(a) in Staged(stamps, {}) || a + DAY <= now
  {
    var a, h := s.past.recorded[|s.past.recorded| - 1], History(s.files.ledger, now);
    LastIsLatest(s.files.ledger, a);
    if a + DAY > now {
      HistoryIsWindow(s.files.ledger, now, a);
      var i :| 0 <= i < |h| && h[i] == a;
      assert (h + [now])[i] == a;
      StagedHolds(h + [now], {}, i);
    }
  }

  lemma DayStep(s: Sys, e: Event)
    requires NewestKept(s) && SecondKept(s) && Apart(s.past.recorded) && TwoADay(s.past.recorded)
    requires LinesKept(s, e)
    ensures NewestKept(Next(s, e)) && SecondKept(Next(s, e))
    ensures Apart(Next(s, e).past.recorded) && TwoADay(Next(s, e).past.recorded)
  {
    hide Tick, Affordable, Last, History, Staged;
    if e.Ticked? && Spends(s, e.look, e.fates) {
      SpendingTick(s, e.look, e.fates);
      assert StampKept(s, e);
      GapStep(s, e);
      DayAfter(s, e.look.clock.value);
      assert Next(s, e) == Tick(s, e.look, e.fates);
      if s.past.recorded != [] {
        SecondAfter(s, e.look.clock.value);
      }
    } else {
      ThriftyTick(s, e);
    }
  }

  predicate StampsKept(s: Sys, events: seq<Event>) {
    forall i | 0 <= i < |events| :: StampKept(Run(s, events[..i]), events[i])
  }

  predicate AllLinesKept(s: Sys, events: seq<Event>) {
    forall i | 0 <= i < |events| :: LinesKept(Run(s, events[..i]), events[i])
  }

  /** Whatever the clock does and wherever scripts die, recorded recoveries are at least half an hour
      apart, as long as no ledger is put in place without the line of its own recovery. */
  lemma {:induction false} RunKeepsGap(s: Sys, events: seq<Event>)
    requires NewestKept(s) && Apart(s.past.recorded) && StampsKept(s, events)
    ensures NewestKept(Run(s, events)) && Apart(Run(s, events).past.recorded)
    decreases |events|
  {
    hide Next;
    if events != [] {
      var n := |events| - 1;
      forall i | 0 <= i < n ensures StampKept(Run(s, events[..n][..i]), events[..n][i]) {
        assert events[..n][..i] == events[..i];
      }
      RunKeepsGap(s, events[..n]);
      GapStep(Run(s, events[..n]), events[n]);
    }
  }

  predicate Budgeted(s: Sys) {
    NewestKept(s) && SecondKept(s) && Apart(s.past.recorded) && TwoADay(s.past.recorded)
  }

  /** And at most two fall within any day, as long as no ledger is put in place with a line missing. */
  lemma {:induction false} RunKeepsBudget(s: Sys, events: seq<Event>)
    requires Budgeted(s) && AllLinesKept(s, events)
    ensures Budgeted(Run(s, events))
    decreases |events|
  {
    hide Next;
    if events != [] {
      var n := |events| - 1;
      forall i | 0 <= i < n ensures LinesKept(Run(s, events[..n][..i]), events[..n][i]) {
        assert events[..n][..i] == events[..i];
      }
      RunKeepsBudget(s, events[..n]);
      DayStep(Run(s, events[..n]), events[n]);
    }
  }

  lemma InitialIsBudgeted(s: Sys)
    requires Initial(s)
    ensures Budgeted(s)
  {
  }

  /** No restart goes unrecorded: the ledger was replaced for its time first. */
  lemma {:induction false} RestartsAreRecorded(s: Sys, events: seq<Event>)
    requires Initial(s)
    ensures forall t | t in Run(s, events).past.restarts :: t in Run(s, events).past.recorded
    ensures |Run(s, events).past.restarts| <= |Run(s, events).past.recorded|
    decreases |events|
  {
    if events != [] {
      RestartsAreRecorded(s, events[..|events| - 1]);
    }
  }

  /** The time of a recovery is in the new ledger exactly when its own append succeeded. */
  lemma StampIffAppended(s: Sys, look: Look, f: Fates)
    requires Spends(s, look, f)
    ensures var now := look.clock.value;
            Number(now) in Tick(s, look, f).files.ledger <==> |History(s.files.ledger, now)| !in f.unwritten
  {
    hide Tick, History, Staged, Last;
    SpendingTick(s, look, f);
    var now := look.clock.value;
    var h := History(s.files.ledger, now);
    var stamps := h + [now];
    if |h| !in f.unwritten {
      StagedHolds(stamps, f.unwritten, |h|);
    } else if Number(now) in Staged(stamps, f.unwritten) {
      StagedIsFrom(stamps, f.unwritten, now);
      var i :| 0 <= i < |stamps| && i !in f.unwritten && stamps[i] == now;
      assert h[i] == now;
      HistoryIsWindow(s.files.ledger, now, now);
      LastIsLatest(s.files.ledger, now);
      assert false;
    }
  }

  // ---- Evidence ----------------------------------------------------------------------------------------

  /** Counted failing samples since the last counted sample of another kind. */
  function Failures(seen: seq<Seen>): nat {
    if seen == [] then 0
    else
      var x, before := seen[|seen| - 1], Failures(seen[..|seen| - 1]);
      if !x.Counted() then before else if x.kind.Failing? then before + 1 else 0
  }

  /** When the current stretch of counted unhealthy samples began; 0 outside one. */
  function Since(seen: seq<Seen>): nat {
    if seen == [] then 0
    else
      var x, before := seen[|seen| - 1], Since(seen[..|seen| - 1]);
      if !x.Counted() then before
      else if x.kind.Unhealthy? then (if before > 0 then before else x.now)
      else 0
  }

  predicate CountersFollow(s: Sys) {
    && s.files.saved.failures == (if Failures(s.past.seen) < 3 then Failures(s.past.seen) else 3)
    && s.files.saved.control == Since(s.past.seen)
  }

  lemma ObserveFollows(s: Sys, kind: Kind, now: nat, f: Fate)
    requires CountersFollow(s)
    ensures CountersFollow(Observe(s, kind, now, Evaluate(s.files.saved, kind, now), f))
  {
  }

  lemma ClearFollows(s: Sys, now: nat, f: Fate)
    requires CountersFollow(s)
    ensures CountersFollow(Observe(s, Cleared, now, ZERO, f))
  {
  }

  lemma GlanceFollows(s: Sys, kind: Kind)
    requires CountersFollow(s)
    ensures CountersFollow(Glance(s, kind))
  {
  }

  lemma EventFollows(s: Sys, e: Event)
    requires CountersFollow(s)
    ensures CountersFollow(Next(s, e))
  {
    hide Failures, Since, Glance, CountersFollow, History, Last, Staged;
    match e
    case StartedAt(time) => SameFollows(s, Next(s, e));
    case PowerLost =>
      ClearFollows(s, 0, Done);
      SameFollows(Observe(s, Cleared, 0, ZERO, Done), Next(s, e));
    case Ticked(look, f) => TickFollows(s, look, f);
  }

  lemma SameFollows(s: Sys, t: Sys)
    requires CountersFollow(s) && s.files.saved == t.files.saved && s.past.seen == t.past.seen
    ensures CountersFollow(t)
  {
  }

  lemma TickFollows(s: Sys, look: Look, f: Fates)
    requires CountersFollow(s)
    ensures CountersFollow(Tick(s, look, f))
  {
    hide Failures, Since, Observe, Glance, CountersFollow, History, Last, Staged, Evaluate;
    var kind := KindOf(look.sample, look.alive);
    GlanceFollows(s, kind);
    var graced := s.(files := s.files.(started := look.clock));
    SameFollows(s, graced);
    GlanceFollows(graced, kind);
    if look.clock.Some? {
      ActFollows(s, kind, look.clock.value, look, f);
    }
  }

  lemma ActFollows(s: Sys, kind: Kind, now: nat, look: Look, f: Fates)
    requires CountersFollow(s)
    ensures CountersFollow(Act(s, kind, now, look, f))
  {
    hide Failures, Since, Observe, CountersFollow, History, Last, Staged, Evaluate;
    var t := Observe(s, kind, now, Evaluate(s.files.saved, kind, now), f.save);
    ObserveFollows(s, kind, now, f.save);
    ClearFollows(t, now, f.clear);
    RecoverFollows(t, now, look, f);
  }

  lemma RecoverFollows(s: Sys, now: nat, look: Look, f: Fates)
    requires CountersFollow(s)
    ensures CountersFollow(Recover(s, now, look, f))
  {
  }

  lemma {:induction false} RunFollows(s: Sys, events: seq<Event>)
    requires Initial(s)
    ensures CountersFollow(Run(s, events))
    decreases |events|
  {
    hide Next;
    if events != [] {
      RunFollows(s, events[..|events| - 1]);
      EventFollows(Run(s, events[..|events| - 1]), events[|events| - 1]);
    }
  }

  /** From i on, every counted sample is of this kind. */
  predicate OnlyFrom(seen: seq<Seen>, i: nat, kind: Kind) {
    forall k | i <= k < |seen| :: seen[k].Counted() ==> seen[k].kind == kind
  }

  predicate CountedAs(seen: seq<Seen>, i: nat, kind: Kind) {
    i < |seen| && seen[i].Counted() && seen[i].kind == kind
  }

  /** Two failing samples were counted, and nothing else was counted since the first of them. */
  ghost predicate TwoFailures(seen: seq<Seen>) {
    exists i: nat, j: nat :: CountedAs(seen, i, Failing) && CountedAs(seen, j, Failing) && i < j && OnlyFrom(seen, i, Failing)
  }

  /** An unhealthy sample was counted at least SPAN before `now`, and nothing else was counted since. */
  ghost predicate LongUnhealthy(seen: seq<Seen>, now: nat) {
    exists i: nat :: CountedAs(seen, i, Unhealthy) && seen[i].now + SPAN <= now && OnlyFrom(seen, i, Unhealthy)
  }

  lemma {:induction false} FailuresAreThere(seen: seq<Seen>) returns (i: nat, j: nat)
    ensures Failures(seen) >= 1 ==> CountedAs(seen, j, Failing)
    ensures Failures(seen) >= 2 ==> CountedAs(seen, i, Failing) && i < j && OnlyFrom(seen, i, Failing)
    ensures Failures(seen) == 1 ==> OnlyFrom(seen, j, Failing)
    decreases |seen|
  {
    i, j := 0, 0;
    if seen != [] {
      var n := |seen| - 1;
      var a, b := FailuresAreThere(seen[..n]);
      if !seen[n].Counted() {
        i, j := a, b;
      } else if seen[n].kind.Failing? {
        i, j := if Failures(seen) == 2 then b else a, n;
      }
    }
  }

  lemma {:induction false} SinceIsThere(seen: seq<Seen>) returns (i: nat)
    requires Since(seen) > 0
    ensures CountedAs(seen, i, Unhealthy) && seen[i].now == Since(seen) && OnlyFrom(seen, i, Unhealthy)
    decreases |seen|
  {
    var n := |seen| - 1;
    if Since(seen[..n]) > 0 {
      i := SinceIsThere(seen[..n]);
    } else {
      i := n;
    }
  }

  /** Every recovery, at any point of any run, has its evidence: two counted failures before this failing
      sample with nothing else counted in between, or counted control samples that were unhealthy for ten
      minutes; the confirming sample was not exempt, and nothing was pending or stopped by hand. */
  lemma RecoveryIsEarned(s: Sys, before: seq<Event>, look: Look, f: Fates)
    requires Initial(s) && Spends(Run(s, before), look, f)
    ensures !look.pending && look.enabled && !look.manualStop && look.watchdog && look.clock.Some?
    ensures look.again.Some? ==> !look.again.value.Exempt()
    ensures var seen := Run(s, before).past.seen;
            match KindOf(look.sample, look.alive)
            case Failing => TwoFailures(seen) && !(look.again.Some? && look.again.value.ok && look.aliveAgain)
            case Unhealthy => LongUnhealthy(seen, look.clock.value) && look.again.Some? && look.again.value.Unhealthy() && look.wan
            case _ => false
  {
    hide Failures, Since, History, Last, Staged, Affordable;
    RunFollows(s, before);
    var t := Run(s, before);
    EarnedTick(t, look, f);
    match KindOf(look.sample, look.alive) {
      case Failing => var i, j := FailuresAreThere(t.past.seen);
      case Unhealthy => var i := SinceIsThere(t.past.seen);
      case _ =>
    }
  }

  // The evidence in the terms of the status reports.

  /** Not a state the user chose, and no running daemon that answers. */
  predicate ServiceDown(report: Option<Status>, alive: bool) {
    && (report.Some? ==> !report.value.parked && !report.value.declined)
    && (report.Some? && report.value.ok ==> !alive)
  }

  /** The daemon answers, but its control connection is offline or times out. */
  predicate ControlDown(report: Option<Status>, alive: bool) {
    && report.Some? && report.value.ok && alive
    && !report.value.parked && !report.value.declined
    && report.value.monitoring && (report.value.offline || report.value.timedOut)
  }

  predicate Chosen(report: Option<Status>) {
    report.Some? && (report.value.parked || report.value.declined)
  }

  /** What the confirming sample decides: whether to recover, and whether to forget the evidence. */
  lemma ConfirmExactly(look: Look)
    ensures Confirm(Service, look).Go? <==> ServiceDown(look.again, look.aliveAgain)
    ensures Confirm(Service, look).Reset? <==> !ServiceDown(look.again, look.aliveAgain)
    ensures Confirm(Control, look).Go? <==> ControlDown(look.again, look.aliveAgain) && look.wan
    ensures Confirm(Control, look).Reset? <==> !ControlDown(look.again, look.aliveAgain)
  {
  }

  /** What a tick notes of its sample. */
  lemma NotesExactly(s: Sys, look: Look, f: Fates)
    requires !Gated(look)
    ensures var (n, seen) := (|s.past.seen|, Tick(s, look, f).past.seen);
            && |seen| > n && seen[..n] == s.past.seen
            && (seen[n].kind.Failing? <==> ServiceDown(look.sample, look.alive))
            && (seen[n].kind.Unhealthy? <==> ControlDown(look.sample, look.alive))
            && (seen[n].kind.Exempt? <==> Chosen(look.sample))
            && !seen[n].kind.Cleared?
  {
    hide History, Last, Staged, Affordable;
  }

  /** Nothing is pending or stopped, automatic recovery is on, the service has been up for three minutes by its
      clock, and the script lives to replace the ledger. */
  predicate Ready(s: Sys, look: Look, f: Fates) {
    && !look.pending && look.readable && look.enabled && !look.manualStop && look.watchdog
    && look.clock.Some? && s.files.started.Some? && s.files.started.value + 180 <= look.clock.value
    && !f.save.Killed? && (f.move.Done? || (f.move.Killed? && f.move.landed))
  }

  /** Every recorded recovery is half an hour past, and no two of them are within the last day. */
  ghost predicate LedgerAllows(ledger: seq<Line>, now: nat) {
    && now >= 1800
    && (forall v: nat | Number(v) in ledger :: v + 1800 <= now)
    && !exists i, j :: 0 <= i < j < |ledger| && Recent(ledger[i], now) && Recent(ledger[j], now)
  }

  predicate Recent(line: Line, now: nat) {
    line.Number? && line.value <= now < line.value + 86400
  }

  /** How many lines of the ledger are recent. */
  lemma {:induction false} HistoryCounts(ledger: seq<Line>, now: nat)
    ensures |History(ledger, now)| >= 1 <==> exists i :: 0 <= i < |ledger| && Recent(ledger[i], now)
    ensures |History(ledger, now)| >= 2 <==>
            exists i, j :: 0 <= i < j < |ledger| && Recent(ledger[i], now) && Recent(ledger[j], now)
  {
    if ledger != [] {
      var n := |ledger| - 1;
      var init := ledger[..n];
      HistoryCounts(init, now);
      assert forall i | 0 <= i < n :: init[i] == ledger[i];
      if i, j :| 0 <= i < j < |init| && Recent(init[i], now) && Recent(init[j], now) {
        assert Recent(ledger[i], now) && Recent(ledger[j], now);
      }
      if i :| 0 <= i < |init| && Recent(init[i], now) {
        assert Recent(ledger[i], now);
      }
      if i, j :| 0 <= i < j < |ledger| && Recent(ledger[i], now) && Recent(ledger[j], now) {
        assert Recent(init[i], now) && (j < n ==> Recent(init[j], now));
      }
    }
  }

  lemma AffordableExactly(ledger: seq<Line>, now: nat)
    ensures Affordable(ledger, now) <==> LedgerAllows(ledger, now)
  {
    hide History, Last;
    HistoryCounts(ledger, now);
    LastIsIn(ledger);
    forall v: nat | Number(v) in ledger ensures v <= Last(ledger) { LastIsLatest(ledger, v); }
  }

  lemma {:induction false} LastIsIn(ledger: seq<Line>)
    ensures Last(ledger) == 0 || Number(Last(ledger)) in ledger
  {
    if ledger != [] {
      LastIsIn(ledger[..|ledger| - 1]);
      assert ledger == ledger[..|ledger| - 1] + [ledger[|ledger| - 1]];
    }
  }

  /** After a spending the counters are cleared and the service is restarted, unless the script dies first. */
  lemma SpendingRestarts(s: Sys, look: Look, f: Fates)
    requires Spends(s, look, f)
    ensures var t := Tick(s, look, f);
            && t.past.restarts == s.past.restarts + (if f.move.Done? && !f.reset.Killed? then [look.clock.value] else [])
            && (f.move.Done? && f.reset.Lands() ==> t.files.saved == ZERO)
            && (f.move.Done? && !f.reset.Killed? && look.restarted.Some? ==> t.files.started == look.restarted)
  {
    hide History, Last, Staged, Affordable;
  }

  /** Both directions: budget is spent exactly when the script is ready, the ledger can afford it, and the
      counted samples, this one and the confirming one give the evidence: the service is down for the third time
      and still down, or the control connection has been down for ten minutes and still is while the WAN works. */
  lemma SpendsExactly(s: Sys, before: seq<Event>, look: Look, f: Fates)
    requires Initial(s)
    ensures var t := Run(s, before);
            Spends(t, look, f) <==>
              && Ready(t, look, f) && LedgerAllows(t.files.ledger, look.clock.value)
              && (|| (ServiceDown(look.sample, look.alive) && Failures(t.past.seen) >= 2
                      && ServiceDown(look.again, look.aliveAgain))
                  || (ControlDown(look.sample, look.alive)
                      && 0 < Since(t.past.seen) && Since(t.past.seen) + SPAN <= look.clock.value
                      && ControlDown(look.again, look.aliveAgain) && look.wan))
  {
    hide Failures, Since, History, Last, Staged, Affordable, Confirm;
    RunFollows(s, before);
    ConfirmExactly(look);
    if look.clock.Some? { AffordableExactly(Run(s, before).files.ledger, look.clock.value); }
  }

  /** When the control connection is down in two ticks ten minutes apart and still is as it is looked at again,
      while the WAN works and the ledger can afford it, the second tick recovers. */
  lemma ControlRecovers(s: Sys, first: Look, f: Fates, second: Look, g: Fates)
    requires Ready(s, first, f) && f.save.Done? && first.clock.value > 0 && ControlDown(first.sample, first.alive)
    requires var c := s.files.saved.control; c == 0 || c <= first.clock.value < c + SPAN
    requires Ready(s, second, g) && first.clock.value + SPAN <= second.clock.value && ControlDown(second.sample, second.alive)
    requires ControlDown(second.again, second.aliveAgain) && second.wan && Affordable(s.files.ledger, second.clock.value)
    ensures Tick(Tick(s, first, f), second, g).past.recorded == s.past.recorded + [second.clock.value]
  {
    hide History, Last, Staged, Affordable;
  }

  lemma EarnedTick(s: Sys, look: Look, f: Fates)
    requires CountersFollow(s) && Spends(s, look, f)
    ensures !Gated(look) && look.watchdog && look.clock.Some?
    ensures look.again.Some? ==> !look.again.value.Exempt()
    ensures var up := look.again.Some? && look.again.value.ok && look.aliveAgain;
            match KindOf(look.sample, look.alive)
            case Failing => Failures(s.past.seen) >= 2 && !up
            case Unhealthy => 0 < Since(s.past.seen) && Since(s.past.seen) + SPAN <= look.clock.value
                              && up && look.again.value.Unhealthy() && look.wan
            case _ => false
  {
  }

  // ---- What the evidence does not cover -------------------------------------------------------------------

  /** No healthy or exempt sample at all lies between the two failures and now. */
  ghost predicate TwoFailuresInARow(seen: seq<Seen>) {
    exists i: nat, j: nat :: CountedAs(seen, i, Failing) && CountedAs(seen, j, Failing) && i < j
                             && (forall k | i <= k < |seen| :: seen[k].kind.Failing?)
  }

  /** Where the last n counted samples begin. */
  function LastCounted(seen: seq<Seen>, n: nat): nat {
    if n == 0 || seen == [] then |seen|
    else LastCounted(seen[..|seen| - 1], if seen[|seen| - 1].Counted() then n - 1 else n)
  }

  lemma {:induction false} LastCountedHolds(seen: seq<Seen>, n: nat)
    requires n <= Failures(seen)
    ensures LastCounted(seen, n) <= |seen| && OnlyFrom(seen, LastCounted(seen, n), Failing)
    ensures n > 0 ==> CountedAs(seen, LastCounted(seen, n), Failing)
    ensures n > 1 ==> exists j: nat :: CountedAs(seen, j, Failing) && LastCounted(seen, n) < j
    decreases |seen|
  {
    if n > 0 && seen != [] {
      var m := |seen| - 1;
      if !seen[m].Counted() {
        LastCountedHolds(seen[..m], n);
        if n > 1 {
          var j: nat :| CountedAs(seen[..m], j, Failing) && LastCounted(seen[..m], n) < j;
          assert CountedAs(seen, j, Failing);
        }
      } else {
        LastCountedHolds(seen[..m], n - 1);
        assert CountedAs(seen, m, Failing);
      }
    }
  }

  /** Two counted failures from i on: i is no later than the last two. */
  lemma {:induction false} LastTwoAreLatest(seen: seq<Seen>, n: nat, i: nat, j: nat)
    requires n == 1 || n == 2
    requires i < |seen| && seen[i].Counted()
    requires n == 2 ==> i < j < |seen| && seen[j].Counted()
    ensures i <= LastCounted(seen, n)
    decreases |seen|
  {
    var m := |seen| - 1;
    if seen[m].Counted() {
      if n == 2 {
        LastTwoAreLatest(seen[..m], 1, i, j);
      } else if i < m {
        assert LastCounted(seen[..m], 0) == m;
      }
    } else {
      LastTwoAreLatest(seen[..m], n, i, j);
    }
  }

  /** The promise that no healthy or exempt sample lay in between is kept exactly when every sample that was
      not evaluated, or whose counters were not saved, since the last two counted ones was failing too. */
  lemma InARowExactly(seen: seq<Seen>)
    requires Failures(seen) >= 2
    ensures TwoFailuresInARow(seen) <==>
            forall k | LastCounted(seen, 2) <= k < |seen| :: !seen[k].Counted() ==> seen[k].kind.Failing?
  {
    LastCountedHolds(seen, 2);
    var first := LastCounted(seen, 2);
    if TwoFailuresInARow(seen) {
      var i: nat, j: nat :| CountedAs(seen, i, Failing) && CountedAs(seen, j, Failing) && i < j
                            && (forall k | i <= k < |seen| :: seen[k].kind.Failing?);
      LastTwoAreLatest(seen, 2, i, j);
    }
    if forall k | first <= k < |seen| :: !seen[k].Counted() ==> seen[k].kind.Failing? {
      var j: nat :| CountedAs(seen, j, Failing) && first < j;
      assert forall k | first <= k < |seen| :: seen[k].kind.Failing?;
    }
  }

  // ---- Runs that show the gaps -------------------------------------------------------------------------------

  const DOWN := Look(false, true, true, false, true, Some(5000), None, false, None, false, false, None)
  const FINE := Fates(Done, Done, Done, {}, Done, Done)
  const UP := Some(Status(true, false, false, true, false, false))

  lemma RunOn(s: Sys, events: seq<Event>, e: Event)
    ensures Run(s, events + [e]) == Next(Run(s, events), e)
  {
  }

  function Down(failures: nat): Files {
    Files(Counters(failures, 0), [], Some(0))
  }

  lemma DownTick(s: Sys, n: nat, f: Fates)
    requires s.files == Down(n) && n <= 2 && f.save.Done? && f.move.Done? && f.reset.Done?
    ensures var t := Tick(s, DOWN, f);
            if n < 2 then t == Sys(Down(n + 1), s.past.(seen := s.past.seen + [Seen(Failing, 5000, true, true)]))
            else t.past.recorded == s.past.recorded + [5000] && (0 in f.unwritten ==> t.files == Down(0))
  {
    assert Affordable([], 5000) by {
      assert History([], 5000) == [] && Last([]) == 0;
    }
    if n == 2 {
      var stamps := History(s.files.ledger, 5000) + [5000];
      assert stamps[..0] == [] && |stamps| == 1;
      assert 0 in f.unwritten ==> Staged(stamps, f.unwritten) == [];
    }
  }

  lemma HealthyLast(seen: seq<Seen>)
    requires seen != [] && seen[|seen| - 1].kind.Healthy?
    ensures !TwoFailuresInARow(seen)
  {
  }

  lemma TwoDown(last: Event)
    ensures var t := Run(Sys(Down(0), Past([], [], [])), [Ticked(DOWN, FINE), Ticked(DOWN, FINE), last]);
            var down := Seen(Failing, 5000, true, true);
            t == Next(Sys(Down(2), Past([down, down], [], [])), last)
  {
    hide Tick;
    var s := Sys(Down(0), Past([], [], []));
    var e := Ticked(DOWN, FINE);
    DownTick(s, 0, FINE);
    DownTick(Tick(s, DOWN, FINE), 1, FINE);
    RunOn(s, [], e);
    RunOn(s, [e], e);
    RunOn(s, [e, e], last);
    var down := Seen(Failing, 5000, true, true);
    assert [] + [down] == [down] && [down] + [down] == [down, down];
    assert [] + [e] == [e] && [e] + [e] == [e, e] && [e, e] + [last] == [e, e, last];
  }

  /** Two failures, a healthy sample while automatic recovery is switched off, one more failure: recovery. */
  lemma SwitchedOffHealthIsForgotten()
    ensures var off := Ticked(DOWN.(watchdog := false, sample := UP, alive := true), FINE);
            var s := Sys(Down(0), Past([], [], []));
            var t := Run(s, [Ticked(DOWN, FINE), Ticked(DOWN, FINE), off]);
            Initial(s) && Spends(t, DOWN, FINE) && !TwoFailuresInARow(t.past.seen)
  {
    hide Act;
    var off := Ticked(DOWN.(watchdog := false, sample := UP, alive := true), FINE);
    TwoDown(off);
    var t := Run(Sys(Down(0), Past([], [], [])), [Ticked(DOWN, FINE), Ticked(DOWN, FINE), off]);
    HealthyLast(t.past.seen);
    DownTick(t, 2, FINE);
  }

  /** The same with a healthy sample that was evaluated but whose counters could not be saved. */
  lemma UnsavedHealthIsForgotten()
    ensures var lost := Ticked(DOWN.(sample := UP, alive := true), FINE.(save := Refused));
            var s := Sys(Down(0), Past([], [], []));
            var t := Run(s, [Ticked(DOWN, FINE), Ticked(DOWN, FINE), lost]);
            Initial(s) && Spends(t, DOWN, FINE) && !TwoFailuresInARow(t.past.seen)
  {
    hide Recover;
    var lost := Ticked(DOWN.(sample := UP, alive := true), FINE.(save := Refused));
    TwoDown(lost);
    var t := Run(Sys(Down(0), Past([], [], [])), [Ticked(DOWN, FINE), Ticked(DOWN, FINE), lost]);
    HealthyLast(t.past.seen);
    DownTick(t, 2, FINE);
  }

  /** When the append of the recovery's own line fails the shortened ledger is still put in place, and the
      next recovery may follow within the same second. */
  lemma LostStampIsNotCounted()
    ensures var full := FINE.(unwritten := {0});
            var s := Sys(Down(2), Past([], [], []));
            var t := Tick(s, DOWN, full);
            var u := Tick(Tick(Tick(t, DOWN, full), DOWN, full), DOWN, full);
            t.past.recorded == [5000] && t.files.ledger == [] && u.past.recorded == [5000, 5000]
  {
    hide Tick;
    var full := FINE.(unwritten := {0});
    var s := Sys(Down(2), Past([], [], []));
    DownTick(s, 2, full);
    var t := Tick(s, DOWN, full);
    DownTick(t, 0, full);
    DownTick(Tick(t, DOWN, full), 1, full);
    DownTick(Tick(Tick(t, DOWN, full), DOWN, full), 2, full);
    assert [] + [5000] == [5000] && [5000] + [5000] == [5000, 5000];
  }
}
