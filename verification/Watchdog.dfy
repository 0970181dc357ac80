/** The watchdog script itself, updating its files in place; each part is proved to be its step of the machine. */
module Watchdog {
  import opened Wrappers
  import opened WatchdogMachine
  import opened WatchdogSafety

  class WatchdogScript {
    var files: Files
    /** What happened so far; the script does not read it. */
    ghost var past: Past

    ghost function View(): Sys
      reads this
    {
      Sys(files, past)
    }

    constructor (earlier: Files, ghost history: Past)
      ensures View() == Sys(earlier, history)
    {
      files, past := earlier, history;
    }

    /** The ledger loop of ts_watch_read. */
    method WatchRead(now: nat) returns (history: seq<nat>, last: nat, count: nat)
      ensures history == History(files.ledger, now) && last == Last(files.ledger) && count == |history|
    {
      history, last := [], 0;
      var i := 0;
      while i < |files.ledger|
        invariant 0 <= i <= |files.ledger|
        invariant history == History(files.ledger[..i], now)
        invariant last == Last(files.ledger[..i])
      {
        assert files.ledger[..i + 1][..i] == files.ledger[..i];
        match files.ledger[i] {
          case Number(value) =>
            if value <= now && now - value < DAY {
              history := history + [value];
            }
            if value > last { last := value; }
          case Junk =>
        }
        i := i + 1;
      }
      assert files.ledger[..i] == files.ledger;
      count := 0;
      while count < |history|
        invariant count <= |history|
      {
        count := count + 1;
      }
    }

    /** ts_watch_save */
    method WatchSave(kind: Kind, now: nat, c: Counters, f: Fate)
      modifies this
      ensures View() == Observe(old(View()), kind, now, c, f)
    {
      if f.Lands() { files := files.(saved := c); }
      past := past.(seen := past.seen + [Seen(kind, now, true, f.Lands())]);
    }

    /** ts_watch_confirm: true when the recovery may go on. */
    method WatchConfirm(trigger: Trigger, now: nat, look: Look, f: Fate) returns (go: bool)
      modifies this
      ensures go <==> if trigger.Service? then ServiceDown(look.again, look.aliveAgain)
                      else ControlDown(look.again, look.aliveAgain) && look.wan
      ensures go <==> Confirm(trigger, look).Go?
      ensures View() == if Confirm(trigger, look).Reset? then Observe(old(View()), Cleared, now, ZERO, f) else old(View())
    {
      ConfirmExactly(look);
      if look.again.Some? && (look.again.value.parked || look.again.value.declined) {
        WatchSave(Cleared, now, ZERO, f);
        return false;
      }
      var up := look.again.Some? && look.again.value.ok && look.aliveAgain;
      if trigger.Service? {
        if up { WatchSave(Cleared, now, ZERO, f); }
        return !up;
      }
      if up && look.again.value.monitoring && (look.again.value.offline || look.again.value.timedOut) {
        return look.wan;
      }
      WatchSave(Cleared, now, ZERO, f);
      return false;
    }

    /** The loop that appends the kept times and the new one to the fresh ledger. */
    method WriteLedger(stamps: seq<nat>, unwritten: set<nat>) returns (lines: seq<Line>)
      ensures lines == Staged(stamps, unwritten)
    {
      lines := [];
      for i := 0 to |stamps|
        invariant lines == Staged(stamps[..i], unwritten)
      {
        assert stamps[..i + 1][..i] == stamps[..i];
        if i !in unwritten { lines := lines + [Number(stamps[i])]; }
      }
      assert stamps[..|stamps|] == stamps;
    }

    method SpendAndRestart(history: seq<nat>, now: nat, look: Look, f: Fates)
      requires history == History(files.ledger, now)
      modifies this
      ensures View() == Recover(old(View()), now, look, f)
    {
      var lines := WriteLedger(history + [now], f.unwritten);
      if f.move.Lands() {
        files := files.(ledger := lines);
        past := past.(recorded := past.recorded + [now]);
      }
      if !f.move.Done? { return; }
      WatchSave(Cleared, now, ZERO, f.reset);
      if f.reset.Killed? { return; }
      if look.restarted.Some? { files := files.(started := look.restarted); }
      past := past.(restarts := past.restarts + [now]);
    }

    /** ts_watchdog_run after its gates and the grace period. */
    method Judge(now: nat, look: Look, f: Fates)
      modifies this
      ensures View() == Act(old(View()), KindOf(look.sample, look.alive), now, look, f)
    {
      hide Observe, Recover, History, Last, Confirm;
      var history, last, count := WatchRead(now);
      var failures, control := files.saved.failures, files.saved.control;
      var trigger: Option<Trigger> := None;
      if look.sample.Some? && (look.sample.value.parked || look.sample.value.declined) {
        WatchSave(Exempt, now, ZERO, f.save);
        return;
      }
      var kind := KindOf(look.sample, look.alive);
      if look.sample.None? || !look.sample.value.ok || !look.alive {
        if failures < 3 { failures := failures + 1; }
        control := 0;
        if failures >= 3 { trigger := Some(Service); }
      } else {
        failures := 0;
        if look.sample.value.monitoring && (look.sample.value.offline || look.sample.value.timedOut) {
          if control == 0 { control := now; }
          if now >= control && now - control >= SPAN { trigger := Some(Control); }
        } else {
          control := 0;
        }
      }
      WatchSave(kind, now, Counters(failures, control), f.save);
      if f.save.Killed? || trigger.None? { return; }
      if !(now >= last && now - last >= GAP && count < 2) { return; }
      var go := WatchConfirm(trigger.value, now, look, f.clear);
      if !go { return; }
      assert files.ledger == old(files.ledger) by { LedgerStays(old(View()), kind, now, Counters(failures, control), f.save); }
      SpendAndRestart(history, now, look, f);
    }

    static lemma LedgerStays(s: Sys, kind: Kind, now: nat, c: Counters, f: Fate)
      ensures Observe(s, kind, now, c, f).files.ledger == s.files.ledger
    {
    }

    /** ts_watchdog_run */
    method RunTick(look: Look, f: Fates)
      modifies this
      ensures View() == Tick(old(View()), look, f)
    {
      hide Act;
      if look.pending { return; }
      if !look.readable { return; }
      if !look.enabled || look.manualStop { return; }
      ghost var kind := KindOf(look.sample, look.alive);
      if !look.watchdog || look.clock.None? {
        past := past.(seen := past.seen + [Seen(kind, 0, false, false)]);
        return;
      }
      var now := look.clock.value;
      if files.started.None? {
        if f.grace.Lands() { files := files.(started := Some(now)); }
        past := past.(seen := past.seen + [Seen(kind, 0, false, false)]);
        return;
      }
      if now < files.started.value || now - files.started.value < GRACE {
        past := past.(seen := past.seen + [Seen(kind, 0, false, false)]);
        return;
      }
      Judge(now, look, f);
    }
  }
}
