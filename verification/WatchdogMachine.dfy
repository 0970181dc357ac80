/** One tick of the automatic recovery of plugin/scripts/tailscale_lib.sh (ts_watchdog_run, ts_watch_read,
    ts_watch_confirm): the RAM counters, the ledger on flash, and the events that fall between ticks. */
module WatchdogMachine {
  import opened Wrappers

  /** A line of the ledger that ts_uint accepts, or any other line. */
  datatype Line = Number(value: nat) | Junk

  /** The facts the scripts take from one status sample. `parked` is a login or stopped state,
      `declined` a connection the user turned off. */
  datatype Status = Status(ok: bool, parked: bool, declined: bool, monitoring: bool, offline: bool, timedOut: bool) {
    predicate Exempt() { parked || declined }
    predicate Unhealthy() { monitoring && (offline || timedOut) }
  }

  datatype Kind = Exempt | Failing | Unhealthy | Healthy | Cleared

  /** What one tick finds: the gates, the clock, the first sample and the confirming one. */
  datatype Look = Look(pending: bool, readable: bool, enabled: bool, manualStop: bool, watchdog: bool,
                       clock: Option<nat>, sample: Option<Status>, alive: bool,
                       again: Option<Status>, aliveAgain: bool, wan: bool, restarted: Option<nat>)

  /** One write of the tick. The script may be killed at it, before or after it took effect. */
  datatype Fate = Done | Refused | Killed(landed: bool) {
    predicate Lands() { Done? || (Killed? && landed) }
  }

  /** `unwritten` are the lines of the new ledger whose append failed. */
  datatype Fates = Fates(grace: Fate, save: Fate, clear: Fate, unwritten: set<nat>, move: Fate, reset: Fate)

  datatype Counters = Counters(failures: nat, control: nat)

  datatype Files = Files(saved: Counters, ledger: seq<Line>, started: Option<nat>)

  /** One sampling tick: whether its sample was evaluated, and whether the counters it led to were saved. */
  datatype Seen = Seen(kind: Kind, now: nat, evaluated: bool, saved: bool) {
    predicate Counted() { evaluated && saved }
  }

  /** History: the samples, the times the ledger was replaced for, and the restarts that followed. */
  datatype Past = Past(seen: seq<Seen>, recorded: seq<nat>, restarts: seq<nat>)

  datatype Sys = Sys(files: Files, past: Past)

  datatype Trigger = Service | Control

  datatype Verdict = Go | Stay | Reset

  const DAY: nat := 86400
  const GAP: nat := 1800
  const GRACE: nat := 180
  const SPAN: nat := 600
  const ZERO := Counters(0, 0)

  // ---- Reading the ledger --------------------------------------------------------------------------

  predicate InWindow(v: nat, now: nat) {
    v <= now && now - v < DAY
  }

  /** The recorded times of the last day, oldest line first. */
  function History(ledger: seq<Line>, now: nat): seq<nat> {
    if ledger == [] then []
    else
      var h := History(ledger[..|ledger| - 1], now);
      match ledger[|ledger| - 1]
      case Number(v) => if InWindow(v, now) then h + [v] else h
      case Junk => h
  }

  /** The latest recorded time, in the future or not. */
  function Last(ledger: seq<Line>): nat {
    if ledger == [] then 0
    else
      var m := Last(ledger[..|ledger| - 1]);
      match ledger[|ledger| - 1]
      case Number(v) => if v <= m then m else v
      case Junk => m
  }

  /** The new ledger: the lines that could be appended. */
  function Staged(stamps: seq<nat>, unwritten: set<nat>): seq<Line> {
    if stamps == [] then []
    else
      var n := |stamps| - 1;
      var s := Staged(stamps[..n], unwritten);
      if n in unwritten then s else s + [Number(stamps[n])]
  }

  predicate Affordable(ledger: seq<Line>, now: nat) {
    now >= Last(ledger) && now - Last(ledger) >= GAP && |History(ledger, now)| < 2
  }

  // ---- Evaluating a sample ---------------------------------------------------------------------------

  function KindOf(sample: Option<Status>, alive: bool): Kind {
    if sample.Some? && sample.value.Exempt() then Exempt
    else if sample.None? || !sample.value.ok || !alive then Failing
    else if sample.value.Unhealthy() then Unhealthy
    else Healthy
  }

  function Evaluate(c: Counters, kind: Kind, now: nat): Counters {
    match kind
    case Failing => Counters(if c.failures >= 3 then c.failures else c.failures + 1, 0)
    case Unhealthy => Counters(0, if c.control > 0 then c.control else now)
    case _ => ZERO
  }

  function Triggered(c: Counters, kind: Kind, now: nat): Option<Trigger> {
    match kind
    case Failing => if c.failures >= 3 then Some(Service) else None
    case Unhealthy => if now >= c.control && now - c.control >= SPAN then Some(Control) else None
    case _ => None
  }

  function Confirm(t: Trigger, look: Look): Verdict {
    if look.again.Some? && look.again.value.Exempt() then Reset
    else
      var up := look.again.Some? && look.again.value.ok && look.aliveAgain;
      match t
      case Service => if up then Reset else Go
      case Control => if up && look.again.value.Unhealthy() then (if look.wan then Go else Stay) else Reset
  }

  // ---- The tick ----------------------------------------------------------------------------------------

  /** A sample whose counters are written back. */
  function Observe(s: Sys, kind: Kind, now: nat, c: Counters, f: Fate): Sys {
    Sys(if f.Lands() then s.files.(saved := c) else s.files,
        s.past.(seen := s.past.seen + [Seen(kind, now, true, f.Lands())]))
  }

  /** A sample nothing is done with. */
  function Glance(s: Sys, kind: Kind): Sys {
    s.(past := s.past.(seen := s.past.seen + [Seen(kind, 0, false, false)]))
  }

  predicate Gated(look: Look) {
    look.pending || !look.readable || !look.enabled || look.manualStop
  }

  /** The ledger is replaced, the counters are cleared, and the service is restarted. */
  function Recover(s: Sys, now: nat, look: Look, f: Fates): Sys {
    var t := if f.move.Lands() then
               Sys(s.files.(ledger := Staged(History(s.files.ledger, now) + [now], f.unwritten)),
                   s.past.(recorded := s.past.recorded + [now]))
             else s;
    if !f.move.Done? then t
    else
      var u := Observe(t, Cleared, now, ZERO, f.reset);
      if f.reset.Killed? then u
      else Sys(if look.restarted.Some? then u.files.(started := look.restarted) else u.files,
               u.past.(restarts := u.past.restarts + [now]))
  }

  /** From the saved counters to the budget. */
  function Act(s: Sys, kind: Kind, now: nat, look: Look, f: Fates): Sys {
    var c := Evaluate(s.files.saved, kind, now);
    var t := Observe(s, kind, now, c, f.save);
    var trigger := Triggered(c, kind, now);
    if f.save.Killed? || trigger.None? || !Affordable(s.files.ledger, now) then t
    else
      match Confirm(trigger.value, look)
      case Reset => Observe(t, Cleared, now, ZERO, f.clear)
      case Stay => t
      case Go => Recover(t, now, look, f)
  }

  function InGrace(started: nat, now: nat): bool {
    now < started || now - started < GRACE
  }

  function Tick(s: Sys, look: Look, f: Fates): Sys {
    var kind := KindOf(look.sample, look.alive);
    if Gated(look) then s
    else if !look.watchdog || look.clock.None? then Glance(s, kind)
    else if s.files.started.None? then
      Glance(if f.grace.Lands() then s.(files := s.files.(started := look.clock)) else s, kind)
    else if InGrace(s.files.started.value, look.clock.value) then Glance(s, kind)
    else Act(s, kind, look.clock.value, look, f)
  }

  /** Between ticks the service may be started by hand, and a power loss empties the RAM directory. */
  datatype Event = Ticked(look: Look, fates: Fates) | StartedAt(time: Option<nat>) | PowerLost

  function Next(s: Sys, e: Event): Sys {
    match e
    case Ticked(look, f) => Tick(s, look, f)
    case StartedAt(time) => s.(files := s.files.(started := time))
    case PowerLost => Sys(s.files.(saved := ZERO, started := None),
                          s.past.(seen := s.past.seen + [Seen(Cleared, 0, true, true)]))
  }

  function Run(s: Sys, events: seq<Event>): Sys
    decreases |events|
  {
    if events == [] then s else Next(Run(s, events[..|events| - 1]), events[|events| - 1])
  }

  /** No counters, no recovery yet; the ledger may already hold anything. */
  predicate Initial(s: Sys) {
    s.files.saved == ZERO && s.past == Past([], [], [])
  }
}
