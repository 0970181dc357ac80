/** Manual rollback exchanges the two core links, so two of them return to where they began. */
module CoreRollback {
  import opened Wrappers
  import opened CoreMachine
  import opened CoreSafety

  /** No script runs, `current` is c, `previous` is p, and no journal says otherwise. */
  ghost predicate At(s: Sys, c: Core, p: Core) {
    && Inv(s) && s.pc.Idle?
    && s.disk.current == c && s.disk.previous == Some(p)
    && (s.disk.txn.Some? ==> s.disk.txn.value.phase.Committed? && s.disk.txn.value.from == p)
  }

  /** The events of one rollback script, from its start to its exit status 0 after a switch. */
  ghost predicate Succeeds(s: Sys, events: seq<Event>) {
    && |events| >= 2 && events[0] == Begin(Rollback)
    && (forall n | 0 < n < |events| :: !Run(s, events[..n]).pc.Idle?)
    && Run(s, events[..|events| - 1]).pc == Switch(EndSnap)
    && Run(s, events).pc.Idle?
  }

  /** What holds inside a rollback that started at (c, p), up to a failure. */
  ghost predicate Rolling(s: Sys, c: Core, p: Core) {
    var d := s.disk;
    match s.pc
    case Idle | Before(_) => true
    case Recover(at) =>
      s.intent == Some(Rollback) ==>
        && d.current == c && d.previous == Some(p)
        && (d.txn.Some? ==> d.txn.value.phase.Committed? && d.txn.value.from == p)
        && (at.LinkPrevious? ==> s.vars.from == p)
        && (at.Enter? || at.LinkPrevious? || at.DropTxn? || at.DropSnap?)
    case Switch(at) =>
      && (at.Entry? ==> d.current == c && s.target == p && d.previous == Some(p))
      && (!at.Entry? ==> s.vars.from == c && s.vars.to == p)
  }

  /** Once a step has failed, the script can only recover and end. */
  predicate GivenUp(s: Sys) {
    s.pc.Idle? || (s.pc.Recover? && s.intent.None?)
  }

  lemma GivesUpForGood(s: Sys, e: Event)
    requires GivenUp(s) && (e.Begin? ==> !s.pc.Idle?)
    ensures GivenUp(Next(s, e))
  {
  }

  lemma RecoveryRollsOn(s: Sys, c: Core, p: Core, e: Event)
    requires Inv(s) && Rolling(s, c, p) && s.intent == Some(Rollback) && s.pc.Recover?
    ensures Rolling(Next(s, e), c, p) && (Next(s, e).intent == Some(Rollback) || GivenUp(Next(s, e)))
  {
  }

  lemma RollsOn(s: Sys, c: Core, p: Core, e: Event)
    requires Inv(s) && Rolling(s, c, p) && s.intent == Some(Rollback) && (e.Begin? ==> !s.pc.Idle?)
    ensures Rolling(Next(s, e), c, p) && (Next(s, e).intent == Some(Rollback) || GivenUp(Next(s, e)))
  {
    if s.pc.Recover? {
      hide Next, Rolling, GivenUp, Inv;
      RecoveryRollsOn(s, c, p, e);
    }
  }

  lemma {:induction false} RunAppend(s: Sys, events: seq<Event>, e: Event)
    ensures Run(s, events + [e]) == Next(Run(s, events), e)
    decreases |events|
  {
    if events == [] {
      assert [e][1..] == [];
    } else {
      assert (events + [e])[1..] == events[1..] + [e];
      RunAppend(Next(s, events[0]), events[1..], e);
    }
  }

  lemma {:induction false} RollsThrough(s: Sys, events: seq<Event>, c: Core, p: Core, n: nat)
    requires At(s, c, p) && Succeeds(s, events) && 0 < n < |events|
    ensures var t := Run(s, events[..n]);
      Inv(t) && ((Rolling(t, c, p) && t.intent == Some(Rollback)) || GivenUp(t))
  {
    assert events[..n] == events[..n - 1] + [events[n - 1]];
    RunAppend(s, events[..n - 1], events[n - 1]);
    if n == 1 {
      assert events[..0] == [];
      Inductive(s, events[0]);
    } else {
      var t := Run(s, events[..n - 1]);
      RollsThrough(s, events, c, p, n - 1);
      Inductive(t, events[n - 1]);
      if GivenUp(t) {
        GivesUpForGood(t, events[n - 1]);
      } else {
        RollsOn(t, c, p, events[n - 1]);
      }
    }
  }

  /** A rollback that ends with status 0 after switching has exchanged the links, even when the
      removal of its journal was refused. */
  lemma RollbackExchanges(s: Sys, events: seq<Event>, c: Core, p: Core)
    requires At(s, c, p) && Succeeds(s, events)
    ensures At(Run(s, events), p, c)
  {
    hide Next, Run, Inv, Rolling;
    var n := |events| - 1;
    RollsThrough(s, events, c, p, n);
    assert events == events[..n] + [events[n]];
    RunAppend(s, events[..n], events[n]);
    LastStep(Run(s, events[..n]), events[n], c, p);
  }

  /** The step that ends the switch. */
  lemma LastStep(s: Sys, e: Event, c: Core, p: Core)
    requires Inv(s) && s.pc == Switch(EndSnap) && Next(s, e).pc.Idle?
    requires (Rolling(s, c, p) && s.intent == Some(Rollback)) || GivenUp(s)
    ensures At(Next(s, e), p, c)
  {
    Inductive(s, e);
  }

  lemma TwoRollbacksReturn(s: Sys, first: seq<Event>, second: seq<Event>, c: Core, p: Core)
    requires At(s, c, p) && Succeeds(s, first) && Succeeds(Run(s, first), second)
    ensures At(Run(Run(s, first), second), c, p)
  {
    RollbackExchanges(s, first, c, p);
    RollbackExchanges(Run(s, first), second, p, c);
  }
}
