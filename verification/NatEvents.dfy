/** How a firewall event of the router survives a busy lock: the marker nat-pending, the address cache
    firewall-status.json, and the two removals at the head of ts_firewall_apply. Handlers, operations and
    maintenance ticks interleave freely; any of them may be killed anywhere. */
module NatEvents {
  import opened Wrappers

  type Addresses = int

  /** Where the holder of the lock is: outside ts_firewall_apply, between its two removals, or at its rules. */
  datatype Phase = Working | Unmarked | Building

  /** `handled` is the event the holder was started for, until an apply has begun for it. */
  datatype Holder = Holder(handled: Option<nat>, phase: Phase)

  /** History: the events no full apply has covered yet, and those the running apply will cover. */
  datatype Past = Past(owed: set<nat>, covering: set<nat>, count: nat)

  /** `marking` are the handlers that were refused the lock and are about to create the marker. */
  datatype Sys = Sys(marker: bool, cache: Option<Addresses>, holder: Option<Holder>, marking: set<nat>, past: Past)

  /** An apply also ends well without storing the addresses: when the LAN or the status cannot be read. */
  datatype Event =
    | NatStart
    | Mark(event: nat, works: bool)
    | HandlerKilled(event: nat)
    | Take
    | Release
    | Unmark(works: bool)
    | Uncache(works: bool)
    | ApplyFails
    | ApplyEnds(stored: Option<Addresses>)
    | FoundDisabled
    | Killed
    | PowerLost

  function Enter(s: Sys, phase: Phase): Sys
    requires s.holder.Some?
  {
    s.(holder := Some(s.holder.value.(phase := phase)))
  }

  predicate At(s: Sys, phase: Phase) {
    s.holder.Some? && s.holder.value.phase == phase
  }

  /** An event the scripts cannot take in a state changes nothing. */
  function Next(s: Sys, e: Event): Sys {
    var p := s.past;
    match e
    case NatStart =>
      var t := s.(past := p.(owed := p.owed + {p.count}, count := p.count + 1));
      if s.holder.None? then t.(holder := Some(Holder(Some(p.count), Working)))
      else t.(marking := s.marking + {p.count})
    case Mark(n, works) =>
      if n !in s.marking then s else s.(marking := s.marking - {n}, marker := s.marker || works)
    case HandlerKilled(n) => s.(marking := s.marking - {n})
    case Take => if s.holder.None? then s.(holder := Some(Holder(None, Working))) else s
    case Release => if At(s, Working) then s.(holder := None) else s
    case Unmark(works) =>
      if !At(s, Working) then s
      else s.(marker := s.marker && !works, holder := Some(Holder(None, Unmarked)), past := p.(covering := p.owed))
    case Uncache(works) =>
      if !At(s, Unmarked) then s
      else Enter(if works then s.(cache := None) else s, Building)
    case ApplyFails => if At(s, Building) then Enter(s, Working) else s
    case ApplyEnds(stored) =>
      if !At(s, Building) then s
      else if stored.None? then Enter(s, Working)
      else Enter(s.(cache := stored, past := p.(owed := p.owed - p.covering, covering := {})), Working)
    case FoundDisabled =>
      if !At(s, Working) then s
      else s.(holder := Some(Holder(None, Working)), past := p.(owed := {}, covering := {}))
    case Killed => s.(holder := None)
    case PowerLost => s.(marker := false, cache := None, holder := None, marking := {})
  }

  function Run(s: Sys, events: seq<Event>): Sys
    decreases |events|
  {
    if events == [] then s else Run(Next(s, events[0]), events[1..])
  }

  /** ts_address_maintenance starts an apply. */
  predicate Due(s: Sys, ips: Addresses) {
    s.cache != Some(ips) || s.marker
  }

  // ---- Safety ------------------------------------------------------------------------------------------

  /** What is in force for an owed event: something on disk, or a process that will see to it. */
  predicate Recorded(s: Sys, n: nat) {
    || s.marker
    || s.cache.None?
    || n in s.marking
    || (s.holder.Some? && s.holder.value.handled == Some(n))
    || (At(s, Unmarked) && n in s.past.covering)
  }

  predicate Below(events: set<nat>, count: nat) {
    forall n | n in events :: n < count
  }

  predicate Applying(s: Sys) {
    At(s, Unmarked) || At(s, Building)
  }

  predicate AllRecorded(s: Sys) {
    && (forall n | n in s.past.owed :: Recorded(s, n))
    && Below(s.past.owed, s.past.count) && Below(s.past.covering, s.past.count) && Below(s.marking, s.past.count)
    && (s.holder.Some? && s.holder.value.phase != Working ==> s.holder.value.handled.None?)
    && (s.holder.Some? && s.holder.value.handled.Some? ==>
          s.holder.value.handled.value !in s.marking && s.holder.value.handled.value < s.past.count)
    // an event the running apply will not cover keeps its marker or its handler
    && (forall n | n in s.past.owed - s.past.covering && Applying(s) :: s.marker || n in s.marking)
  }

  /** Only a process still stands for this event, or nothing will once the running apply has ended. */
  predicate Exposed(s: Sys, n: nat) {
    !s.marker && (s.cache.Some? || (Applying(s) && n !in s.past.covering))
  }

  /** The steps that lose this event: its handler dies or cannot write the marker, the operation started for
      it ends before its apply begins, or the script dies or fails to remove the cache between the removals. */
  predicate Loses(s: Sys, e: Event, n: nat) {
    var covered := At(s, Unmarked) && n in s.past.covering;
    var handled := s.holder.Some? && s.holder.value.handled == Some(n);
    n in s.past.owed && Exposed(s, n) &&
    match e
    case Mark(m, works) => m == n && !works && !covered
    case HandlerKilled(m) => m == n && n in s.marking && !covered
    case Release => handled
    case Killed => n !in s.marking && (handled || covered)
    case Uncache(works) => !works && covered && n !in s.marking
    case _ => false
  }

  /** Exactly the losing steps break the invariant. */
  lemma StepLosesExactly(s: Sys, e: Event)
    requires AllRecorded(s)
    requires e.Mark? ==> e.event in s.marking
    ensures AllRecorded(Next(s, e)) <==> forall n | n in s.past.owed :: !Loses(s, e, n)
  {
  }

  /** The step loses no event, and only a waiting handler creates the marker. */
  predicate Harmless(s: Sys, e: Event) {
    && (e.Mark? ==> e.event in s.marking)
    && (forall n | n in s.past.owed :: !Loses(s, e, n))
  }

  predicate AllHarmless(s: Sys, events: seq<Event>) {
    forall i | 0 <= i < |events| :: Harmless(Run(s, events[..i]), events[i])
  }

  /** Over every interleaving: as long as no step loses an event, each stays recorded until it is covered. */
  lemma {:induction false} RunKeepsRecord(s: Sys, events: seq<Event>)
    requires AllRecorded(s)
    requires AllHarmless(s, events)
    ensures AllRecorded(Run(s, events))
    decreases |events|
  {
    hide Next, AllRecorded, Loses;
    if events != [] {
      assert Run(s, events[..0]) == s && Harmless(s, events[0]);
      var t := Next(s, events[0]);
      StepLosesExactly(s, events[0]);
      forall i | 0 <= i < |events| - 1 ensures Harmless(Run(t, events[1..][..i]), events[1..][i]) {
        assert events[..i + 1][0] == events[0] && events[..i + 1][1..] == events[1..][..i];
        assert Harmless(Run(s, events[..i + 1]), events[i + 1]);
      }
      RunKeepsRecord(t, events[1..]);
    }
  }

  /** Whatever harmless steps follow, every owed event stays recorded. */
  ghost predicate AlwaysRecorded(s: Sys) {
    forall events | AllHarmless(s, events) :: forall n | n in Run(s, events).past.owed :: Recorded(Run(s, events), n)
  }

  /** A losing step leads to an owed event without a record, at once or when the running apply ends. */
  lemma LossShows(s: Sys, e: Event, n: nat)
    requires AllRecorded(s) && n in s.past.owed && Loses(s, e, n)
    requires e.Mark? ==> e.event in s.marking
    ensures !AlwaysRecorded(Next(s, e))
  {
    var t := Next(s, e);
    var ends := ApplyEnds(Some(0));
    if t.cache.Some? {
      assert Run(t, []) == t;
      assert !Recorded(t, n);
      assert AllHarmless(t, []) && n in Run(t, []).past.owed;
    } else if At(t, Building) {
      assert [ends][..0] == [] && Run(t, [ends]) == Next(t, ends);
      assert AllHarmless(t, [ends]) && !Recorded(Run(t, [ends]), n);
    } else {
      var u, events := Next(t, Uncache(true)), [Uncache(true), ends];
      assert events[..0] == [] && events[..1] == [Uncache(true)] && Run(t, events[..1]) == u;
      assert events[1..] == [ends] && [ends][1..] == [] && Run(u, [ends]) == Next(u, ends);
      assert AllHarmless(t, events) && !Recorded(Run(t, events), n);
    }
  }

  /** Some continuation leaves an owed event without a record exactly after one of the losing steps. */
  lemma LosesExactly(s: Sys, e: Event)
    requires AllRecorded(s)
    requires e.Mark? ==> e.event in s.marking
    ensures AlwaysRecorded(Next(s, e)) <==> forall n | n in s.past.owed :: !Loses(s, e, n)
  {
    hide Next, Loses, Run;
    if n :| n in s.past.owed && Loses(s, e, n) {
      LossShows(s, e, n);
    } else {
      StepLosesExactly(s, e);
      forall events | AllHarmless(Next(s, e), events) ensures AllRecorded(Run(Next(s, e), events)) {
        RunKeepsRecord(Next(s, e), events);
      }
    }
  }

  /** A maintenance tick that finds the lock free, no handler under way and an event owed starts an apply,
      whatever the addresses are. */
  lemma TickIsDue(s: Sys, ips: Addresses)
    requires AllRecorded(s) && s.holder.None? && s.marking == {} && s.past.owed != {}
    ensures Due(s, ips)
  {
  }

  /** And when the steps of that apply work and its addresses are stored, no event is owed any more, and the next
      tick with those addresses starts none. */
  lemma MaintenanceCovers(s: Sys, ips: Addresses)
    requires AllRecorded(s) && s.holder.None? && s.marking == {}
    ensures var t := Next(Next(Next(Next(Next(s, Take), Unmark(true)), Uncache(true)), ApplyEnds(Some(ips))), Release);
            t.past.owed == {} && t.holder.None? && AllRecorded(t) && !Due(t, ips)
  {
  }

  predicate Handlers(events: seq<Event>) {
    forall e | e in events :: e.NatStart? || e.Mark? || e.HandlerKilled? || e.Uncache? || e.Take?
  }

  /** Whatever the handlers do meanwhile, an apply that ends with the addresses stored covers every event
      refused before it began, and only those. One that ends without them covers none and stores none. */
  lemma ApplyCovers(s: Sys, works: bool, events: seq<Event>, stored: Option<Addresses>)
    requires At(s, Working) && Handlers(events)
    requires At(Run(Next(s, Unmark(works)), events), Building)
    requires Below(s.past.owed, s.past.count)
    ensures var u := Run(Next(s, Unmark(works)), events);
            var t := Next(u, ApplyEnds(stored));
            && (stored.Some? ==> t.past.owed == u.past.owed - s.past.owed && t.cache == stored)
            && (stored.None? ==> t.past.owed == u.past.owed && t.cache == u.cache)
            && forall n | s.past.count <= n < t.past.count :: n in t.past.owed
  {
    CoverStays(Next(s, Unmark(works)), events, s.past);
  }

  lemma {:induction false} CoverStays(s: Sys, events: seq<Event>, p: Past)
    requires Applying(s) && s.past.covering == p.owed && Handlers(events)
    requires p.count <= s.past.count && (forall n | p.count <= n < s.past.count :: n in s.past.owed)
    requires Below(p.owed, p.count)
    ensures var t := Run(s, events);
            && Applying(t) && t.past.covering == p.owed && p.count <= t.past.count
            && forall n | p.count <= n < t.past.count :: n in t.past.owed
    decreases |events|
  {
    if events != [] {
      CoverStays(Next(s, events[0]), events[1..], p);
    }
  }

  const QUIET := Sys(false, Some(1), None, {}, Past({}, {}, 0))

  /** A kill between the two removals drops the marker of an event no apply will see to: ticks with the
      cached addresses start none. */
  lemma KillBetweenRemovalsLoses()
    ensures var t := Run(QUIET, [Take, NatStart, Mark(0, true), Unmark(true), Killed]);
            AllRecorded(QUIET) && t.past.owed == {0} && t.marking == {} && !Due(t, 1)
  {
  }

  /** An event that did get the lock is lost when its operation ends before its apply begins, as when the
      interrupted core transaction cannot be recovered or the configuration cannot be read. */
  lemma AdmittedEventCanBeLost()
    ensures var t := Next(Next(QUIET, NatStart), Release);
            AllRecorded(QUIET) && t.past.owed == {0} && t.holder.None? && t.marking == {} && !Due(t, 1)
  {
  }
}
