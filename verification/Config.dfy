/** A settings submission of ts_mutation: snapshot, key-by-key apply, service steps and restore over a
    key-value store whose every write may be refused, or land and still report a failure. */
module Config {
  import opened Wrappers
  import Routes

  /** The ten switches in the order of ts_config_keys, the route list, and keys this code does not own. */
  datatype Key = Flag(i: nat) | RouteList | Other(i: nat)

  /** What one dbus write did. */
  datatype Write = Landed | Refused | LandedLate {
    predicate Effect() { Landed? || LandedLate? }
  }

  type Db = map<Key, string>

  const CONNECTOR := Flag(9)

  /** `dbus get`: a missing key reads as empty. */
  function Value(db: Db, k: Key): string {
    if k in db then db[k] else ""
  }

  function Outcome(writes: seq<Write>, i: nat): Write {
    if i < |writes| then writes[i] else Landed
  }

  predicate IsBit(v: string) {
    v == "0" || v == "1"
  }

  predicate IsSwitch(v: string) {
    v == "" || IsBit(v)
  }

  predicate BitsValid(bits: string) {
    (|bits| == 7 || |bits| == 9 || |bits| == 10) && forall i | 0 <= i < |bits| :: bits[i] == '0' || bits[i] == '1'
  }

  /** The files config.previous, config.routes.previous and config.routes.invalid. */
  datatype Saved = Saved(lines: seq<(nat, string)>, routes: Option<string>, invalid: bool)

  /** What a service step finds: which of its own steps work. `misread` are keys whose read fails. */
  datatype Service = Service(stops: bool, misread: set<Key>, installed: bool, daemon: bool, sampled: bool, connectorRead: bool,
                             connectorWrite: Write, planned: bool, cli: Write, finished: bool)

  datatype Env = Env(unread: set<Key>, helperAtSnapshot: bool, helperAtRestore: bool, apply: seq<Write>,
                     restore: seq<Write>, migrate: Write, first: Service, second: Service, running: bool)

  datatype Verdict = Rejected | NotSaved | Succeeded | Failed(restored: bool)

  function Canon(list: string): string {
    match Routes.Canonical(list)
    case Ok(c) => c
    case Err(_) => list
  }

  predicate Readable(list: string) {
    Routes.Canonical(list).Ok?
  }

  /** ts_read_bool */
  function ReadBool(db: Db, k: Key, default: string, misread: set<Key>): Option<string> {
    var v := if k in misread then "" else Value(db, k);
    if IsBit(v) then Some(v) else if v == "" then Some(default) else None
  }

  // ---- What the transaction promises ---------------------------------------------------------------------

  predicate Same(a: Db, b: Db, k: Key) {
    (k in a <==> k in b) && Value(a, k) == Value(b, k)
  }

  predicate Within(k: Key, n: nat) {
    match k
    case Flag(i) => i < n
    case RouteList => n != 7
    case Other(_) => false
  }

  /** Keys outside the submitted width, the connector aside. */
  ghost predicate Untouched(a: Db, b: Db, n: nat) {
    forall k: Key :: !Within(k, n) && k != CONNECTOR ==> Same(a, b, k)
  }

  /** The connector key is what it was, or, when it was empty, still empty or the daemon's own choice. */
  predicate ConnectorKept(a: Db, b: Db, choice: string) {
    var old_, new_ := Value(a, CONNECTOR), Value(b, CONNECTOR);
    new_ == old_ || (old_ == "" && new_ == choice)
  }

  /** The old settings again: an empty value and a missing key are the same, and a route list that can be read
      comes back in canonical form. One that cannot be read comes back as it was. */
  predicate RestoredTo(a: Db, b: Db, n: nat, helper: bool) {
    && SameFlags(a, b, n)
    && (n != 7 ==> Value(b, RouteList) == if helper then Canon(Value(a, RouteList)) else Value(a, RouteList))
  }

  /** The old settings again, the connector aside. */
  predicate Restored(a: Db, b: Db, n: nat, helper: bool) {
    RestoredTo(a, b, if n == 10 then 9 else n, helper)
  }

  /** The submitted settings. */
  predicate Submitted(b: Db, bits: string, routes: string) {
    && (forall i: nat | i < |bits| :: Value(b, Flag(i)) == [bits[i]])
    && (|bits| != 7 ==> Value(b, RouteList) == routes)
  }

  /** The first n switches as config.previous holds them. */
  predicate LinesOf(lines: seq<(nat, string)>, db: Db, n: nat) {
    |lines| == n && forall i | 0 <= i < n :: lines[i] == (i, Value(db, Flag(i))) && IsSwitch(lines[i].1)
  }

  predicate IsSnapshot(s: Saved, db: Db, n: nat) {
    LinesOf(s.lines, db, n) && s.routes == if n == 7 then None else Some(Value(db, RouteList))
  }

  // ---- When the steps work, from what they find ----------------------------------------------------------

  predicate SnapshotWorks(db: Db, n: nat, unread: set<Key>) {
    && (forall i: nat | i < n :: Flag(i) !in unread && IsSwitch(Value(db, Flag(i))))
    && (n != 7 ==> RouteList !in unread)
  }

  /** ts_config_read accepts every value. */
  predicate ConfigWorks(db: Db, misread: set<Key>) {
    && (forall i: nat | i < 10 :: Flag(i) in misread || IsSwitch(Value(db, Flag(i))))
    && RouteList !in misread && (Value(db, RouteList) == "" || Readable(Value(db, RouteList)))
  }

  predicate Enabled(db: Db, misread: set<Key>) {
    ReadBool(db, Flag(0), "0", misread) == Some("1")
  }

  /** ts_start gets as far as the sample with the daemon's own connector choice. */
  predicate Samples(db: Db, v: Service) {
    ConfigWorks(db, v.misread) && Enabled(db, v.misread) && v.installed && v.daemon && v.sampled
  }

  predicate StartWorks(db: Db, v: Service) {
    ConfigWorks(db, v.misread) &&
    (Enabled(db, v.misread) ==>
       && Samples(db, v) && v.connectorRead && (Value(db, CONNECTOR) == "" ==> v.connectorWrite.Landed?)
       && v.planned && v.cli.Landed? && v.finished)
  }

  /** The daemon runs with the connector setting of the store. */
  predicate Follows(db: Db, core: string) {
    Some(core) == ReadBool(db, CONNECTOR, "0", {})
  }

  /** A restart that works, with the service enabled and the connector setting read. */
  predicate Applies(db: Db, v: Service) {
    v.stops && StartWorks(db, v) && Enabled(db, v.misread) && v.connectorWrite.Landed? && CONNECTOR !in v.misread
  }

  /** The service step of a submission. */
  predicate ServeWorks(db: Db, v: Service) {
    ConfigWorks(db, v.misread) && v.stops && (Enabled(db, v.misread) ==> StartWorks(db, v))
  }

  /** The saved route list can be read again, or was marked as unreadable. */
  predicate CanUndo(db: Db, n: nat, env: Env) {
    n == 7 || !env.helperAtSnapshot || env.helperAtRestore || !Readable(Value(db, RouteList))
  }

  /** The store after the first n switches. */
  function WithFlags(db: Db, bits: string, n: nat): Db
    requires n <= |bits|
  {
    if n == 0 then db else WithFlags(db, bits, n - 1)[Flag(n - 1) := [bits[n - 1]]]
  }

  /** The store after a complete apply. */
  function Applied(db: Db, bits: string, routes: string): Db {
    var flags := WithFlags(db, bits, |bits|);
    if |bits| == 7 then flags else if routes != "" then flags[RouteList := routes] else flags - {RouteList}
  }

  /** The daemon's choice is captured: ten switches, no connector setting before, and a start that gets to its sample. */
  predicate Captures(db: Db, bits: string, routes: string, v: Service) {
    |bits| == 10 && Value(db, CONNECTOR) == "" && v.stops && Samples(Applied(db, bits, routes), v)
  }

  predicate Valid(bits: string, list: Option<string>) {
    BitsValid(bits) && if |bits| == 7 then list.None? else list.Some? && Readable(list.value)
  }

  function Routing(list: Option<string>): string {
    if list.Some? then Canon(list.value) else ""
  }

  /** How a valid submission ends, from the store and from what its steps meet. */
  function VerdictOf(db: Db, bits: string, routes: string, env: Env): Verdict {
    var n := |bits|;
    var undone := CanUndo(db, n, env) && AllLanded(env.restore, Writes(n));
    if !SnapshotWorks(db, n, env.unread) then NotSaved
    else if !AllLanded(env.apply, Writes(n)) then Failed(undone)
    else if ServeWorks(Applied(db, bits, routes), env.first) then Succeeded
    else Failed(undone && (Captures(db, bits, routes, env.first) ==> env.migrate.Landed?))
  }

  class ConfigStore {
    var db: Db
    var saved: Saved
    /** The connector preference the daemon runs with. */
    var core: string
    /** TS_CONNECTOR_CAPTURE and TS_CONNECTOR_BEFORE. */
    var capture: bool
    var before: string
    /** The marker manual-stop. */
    var manual: bool

    constructor (store: Db, choice: string, stopped: bool)
      ensures db == store && core == choice && manual == stopped && !capture && before == ""
    {
      db, core, manual, capture, before := store, choice, stopped, false, "";
      saved := Saved([], None, false);
    }

    method Set(k: Key, v: string, w: Write) returns (ok: bool)
      modifies this`db
      ensures db == if w.Effect() then old(db)[k := v] else old(db)
      ensures ok <==> w.Landed?
    {
      if w.Effect() { db := db[k := v]; }
      ok := w.Landed?;
    }

    method Remove(k: Key, w: Write) returns (ok: bool)
      modifies this`db
      ensures db == if w.Effect() then old(db) - {k} else old(db)
      ensures ok <==> w.Landed?
    {
      if w.Effect() { db := db - {k}; }
      ok := w.Landed?;
    }

    /** ts_config_snapshot: the first n switches are saved only if each reads as empty, 0 or 1; the route list
        is saved byte for byte, and marked when the helper cannot read it. */
    method Snapshot(n: nat, unread: set<Key>, helper: bool) returns (ok: bool)
      requires n == 7 || n == 9 || n == 10
      modifies this`saved
      ensures ok <==> SnapshotWorks(db, n, unread)
      ensures ok ==> IsSnapshot(saved, db, n)
      ensures ok && n != 7 ==> (saved.invalid <==> !helper || !Readable(Value(db, RouteList)))
    {
      hide Readable;
      saved := Saved([], None, false);
      for i := 0 to n
        invariant LinesOf(saved.lines, db, i) && saved.routes.None? && !saved.invalid
        invariant forall j: nat | j < i :: Flag(j) !in unread && IsSwitch(Value(db, Flag(j)))
      {
        if Flag(i) in unread { return false; }
        var value := Value(db, Flag(i));
        if !IsSwitch(value) { return false; }
        saved := saved.(lines := saved.lines + [(i, value)]);
      }
      if n == 7 { return true; }
      if RouteList in unread { return false; }
      saved := saved.(routes := Some(Value(db, RouteList)));
      if !helper || !Readable(Value(db, RouteList)) { saved := saved.(invalid := true); }
      ok := true;
    }

    /** ts_config_bits_apply: it stops at the first write that reports a failure. */
    method BitsApply(bits: string, routes: string, writes: seq<Write>) returns (ok: bool)
      requires BitsValid(bits)
      modifies this`db
      ensures forall k | !Within(k, |bits|) :: Same(old(db), db, k)
      ensures ok <==> AllLanded(writes, Writes(|bits|))
      ensures ok ==> Submitted(db, bits, routes) && db == Applied(old(db), bits, routes)
    {
      for i := 0 to |bits|
        invariant forall k | !Within(k, |bits|) :: Same(old(db), db, k)
        invariant forall j: nat | j < i :: Outcome(writes, j).Landed? && Value(db, Flag(j)) == [bits[j]]
        invariant db == WithFlags(old(db), bits, i)
      {
        var done := Set(Flag(i), [bits[i]], Outcome(writes, i));
        if !done { return false; }
      }
      if |bits| == 7 { return true; }
      if routes != "" {
        ok := Set(RouteList, routes, Outcome(writes, |bits|));
      } else {
        ok := Remove(RouteList, Outcome(writes, |bits|));
      }
    }

    /** One key put back: an empty old value removes it. */
    method PutBack(k: Key, v: string, w: Write) returns (ok: bool)
      modifies this`db
      ensures db == if !w.Effect() then old(db) else if v != "" then old(db)[k := v] else old(db) - {k}
      ensures ok <==> w.Landed?
    {
      if v != "" { ok := Set(k, v, w); } else { ok := Remove(k, w); }
    }

    /** The loop of ts_config_restore over config.previous. */
    method RestoreFlags(writes: seq<Write>, ghost a: Db, n: nat) returns (ok: bool)
      requires LinesOf(saved.lines, a, n)
      modifies this`db
      ensures SameOutside(old(db), db, n)
      ensures AllEffect(writes, n) ==> SameFlags(a, db, n)
      ensures ok <==> AllLanded(writes, n)
    {
      ok := true;
      for i := 0 to |saved.lines|
        invariant SameOutside(old(db), db, n)
        invariant AllEffect(writes, i) ==> SameFlags(a, db, i)
        invariant ok <==> AllLanded(writes, i)
      {
        var done := PutBack(Flag(saved.lines[i].0), saved.lines[i].1, Outcome(writes, i));
        assert AllEffect(writes, i + 1) ==> Outcome(writes, i).Effect() && AllEffect(writes, i);
        ok := ok && done;
      }
    }

    /** ts_config_restore: every key is tried, whatever the others report. `a` is the store the snapshot was
        taken of. If every write takes effect the settings are back, whatever the writes report. */
    method Restore(helper: bool, writes: seq<Write>, ghost a: Db, n: nat) returns (ok: bool)
      requires IsSnapshot(saved, a, n)
      modifies this`db
      ensures forall k | !Within(k, n) :: Same(old(db), db, k)
      ensures !CanRestore(saved, helper) ==> db == old(db)
      ensures CanRestore(saved, helper) && AllEffect(writes, Writes(n)) ==> RestoredTo(a, db, n, helper)
      ensures ok <==> CanRestore(saved, helper) && AllLanded(writes, Writes(n))
      ensures ok ==> RestoredTo(a, db, n, helper)
    {
      hide Readable, Canon;
      if !CanRestore(saved, helper) { return false; }
      ok := RestoreFlags(writes, a, n);
      label flags:
      if saved.routes.Some? {
        var routes := if helper then Canon(saved.routes.value) else saved.routes.value;
        var done := PutBack(RouteList, routes, Outcome(writes, n));
        assert SameFlags(a, old@flags(db), n) ==> SameFlags(a, db, n) by {
          assert forall i: nat | i < n :: Same(old@flags(db), db, Flag(i));
        }
        ok := ok && done;
      }
    }

    /** ts_config_read: what it makes of the switches, or nothing when one of the values is invalid. */
    method ConfigRead(misread: set<Key>) returns (ok: bool, enable: string, connector: string)
      ensures ok ==> IsBit(enable) && IsBit(connector)
      ensures ok ==> Some(enable) == ReadBool(db, Flag(0), "0", misread)
      ensures ok ==> Some(connector) == ReadBool(db, CONNECTOR, "0", misread)
      ensures ok <==> ConfigWorks(db, misread)
    {
      hide Readable;
      enable, connector := "0", "0";
      for i := 0 to 10
        invariant forall j: nat | j < i :: Flag(j) in misread || IsSwitch(Value(db, Flag(j)))
        invariant i > 0 ==> Some(enable) == ReadBool(db, Flag(0), "0", misread)
        invariant i > 9 ==> Some(connector) == ReadBool(db, CONNECTOR, "0", misread)
      {
        var v := ReadBool(db, Flag(i), if 1 <= i <= 4 || i == 6 then "1" else "0", misread);
        if v.None? { return false, enable, connector; }
        if i == 0 { enable := v.value; }
        if i == 9 { connector := v.value; }
      }
      if RouteList in misread { return false, enable, connector; }
      var list := Value(db, RouteList);
      ok := list == "" || Readable(list);
    }

    /** ts_start, as far as it touches the store and the daemon's preferences: an absent connector setting is
        taken over from the daemon before any preference is changed, and captured first when asked. */
    method Start(v: Service) returns (ok: bool)
      requires IsBit(core)
      modifies this`db, this`core, this`capture, this`before, this`manual
      ensures IsBit(core) && MigratedFrom(old(db), db, old(core))
      ensures core == old(core) || Value(db, CONNECTOR) != ""
      ensures if capture then old(capture) && core == old(core) && before == old(before)
              else before == if old(capture) then old(core) else old(before)
      ensures ok <==> StartWorks(old(db), v)
      ensures ok && Enabled(old(db), v.misread) && CONNECTOR !in v.misread ==> Follows(db, core)
      ensures CONNECTOR !in v.misread && core != old(core) ==> Value(db, CONNECTOR) == core
      ensures capture == (old(capture) && !(Samples(old(db), v)))
      ensures ok && Enabled(old(db), v.misread) ==> !manual
    {
      hide ConfigWorks, Readable;
      var read, enable, connector := ConfigRead(v.misread);
      if !read { return false; }
      if enable != "1" { return true; }
      if !v.installed { return false; }
      manual := false;
      if !v.daemon || !v.sampled { return false; }
      if capture { before, capture := core, false; }
      if !v.connectorRead { return false; }
      if Value(db, CONNECTOR) == "" {
        connector := core;
        var done := Set(CONNECTOR, connector, v.connectorWrite);
        if !done { return false; }
      }
      if !v.planned { return false; }
      if v.cli.Effect() { core := connector; }
      ok := v.cli.Landed? && v.finished;
    }

    /** ts_restart */
    method Restart(v: Service) returns (ok: bool)
      requires IsBit(core)
      modifies this`db, this`core, this`capture, this`before, this`manual
      ensures IsBit(core) && MigratedFrom(old(db), db, old(core))
      ensures core == old(core) || Value(db, CONNECTOR) != ""
      ensures if capture then old(capture) && core == old(core) && before == old(before)
              else before == if old(capture) then old(core) else old(before)
      ensures ok <==> v.stops && StartWorks(old(db), v)
      ensures ok && Enabled(old(db), v.misread) && CONNECTOR !in v.misread ==> Follows(db, core)
      ensures CONNECTOR !in v.misread && core != old(core) ==> Value(db, CONNECTOR) == core
      ensures capture == (old(capture) && !(v.stops && Samples(old(db), v)))
      ensures ok && Enabled(old(db), v.misread) ==> !manual
    {
      if !v.stops { return false; }
      ok := Start(v);
    }

    /** The web_submit branch: restart the service when it is enabled, stop it otherwise. */
    method Serve(v: Service) returns (ok: bool)
      requires IsBit(core)
      modifies this`db, this`core, this`capture, this`before, this`manual
      ensures IsBit(core) && MigratedFrom(old(db), db, old(core))
      ensures core == old(core) || Value(db, CONNECTOR) != ""
      ensures if capture then old(capture) && core == old(core) && before == old(before)
              else before == if old(capture) then old(core) else old(before)
      ensures ok <==> ServeWorks(old(db), v)
      ensures ok && Enabled(old(db), v.misread) && CONNECTOR !in v.misread ==> Follows(db, core)
      ensures CONNECTOR !in v.misread && core != old(core) ==> Value(db, CONNECTOR) == core
      ensures capture == (old(capture) && !(v.stops && Samples(old(db), v)))
      ensures ok ==> manual == !Enabled(old(db), v.misread)
    {
      var read, enable, connector := ConfigRead(v.misread);
      if !read { return false; }
      if enable == "1" {
        ok := Restart(v);
      } else {
        manual := true;
        ok := v.stops;
      }
    }

    /** The old service again, as far as it was running. */
    method GoOn(env: Env, wasManual: bool)
      requires IsBit(core)
      modifies this`db, this`core, this`capture, this`before, this`manual
      ensures MigratedFrom(old(db), db, old(core)) && manual == wasManual
      ensures env.running && Applies(db, env.second) ==> Follows(db, core)
    {
      hide ReadBool, Enabled, StartWorks, Samples, Follows, IsBit;
      if env.running {
        var again := Restart(env.second);
        if Applies(db, env.second) { AppliesBefore(old(db), db, old(core), env.second); }
      }
      manual := wasManual;
    }

    /** After a failed service step: the old settings, then the daemon's captured choice, then the old service. */
    method RollBack(env: Env, ghost a: Db, n: nat, wasManual: bool, ghost choice: string) returns (ok: bool)
      requires IsSnapshot(saved, a, n) && (n == 7 || n == 9 || n == 10) && IsBit(core) && IsBit(choice)
      requires before == "" || before == choice
      requires n < 10 ==> before == "" && ConnectorKept(a, db, choice)
      requires before != "" ==> Value(a, CONNECTOR) == ""
      requires before == "" && (n == 10 || Value(db, CONNECTOR) == "") && Value(a, CONNECTOR) == "" ==> core == choice
      modifies this`db, this`core, this`capture, this`before, this`manual
      ensures Untouched(old(db), db, n)
      ensures ok <==> && CanRestore(saved, env.helperAtRestore) && AllLanded(env.restore, Writes(n))
                      && (old(before) != "" ==> env.migrate.Landed?)
      ensures ok ==> manual == wasManual
      ensures CanRestore(saved, env.helperAtRestore) && AllEffect(env.restore, Writes(n)) ==>
                Restored(a, db, n, env.helperAtRestore) && ConnectorKept(a, db, choice)
      ensures n < 10 ==> ConnectorKept(a, db, choice)
      ensures ok && env.running && Applies(db, env.second) ==> Follows(db, core)
    {
      hide Canon, Readable, ReadBool, AllLanded, AllEffect, CanRestore, IsSnapshot, Enabled, StartWorks, Samples, Follows, Applies;
      ok := Restore(env.helperAtRestore, env.restore, a, n);
      assert n < 10 ==> Same(old(db), db, CONNECTOR);
      assert RestoredTo(a, db, n, env.helperAtRestore) && n == 10 ==> Value(db, Flag(9)) == Value(a, Flag(9));
      if ok && before != "" {
        ok := Set(CONNECTOR, before, env.migrate);
      }
      if ok {
        GoOn(env, wasManual);
      }
    }

    /** The switches are written; when a write reports a failure the old settings are written back at once. */
    method ApplyOrRestore(bits: string, routes: string, env: Env, ghost a: Db) returns (applied: bool, restored: bool)
      requires BitsValid(bits) && db == a && IsSnapshot(saved, a, |bits|)
      modifies this`db
      ensures Untouched(a, db, |bits|) && (|bits| < 10 ==> Same(a, db, CONNECTOR))
      ensures applied <==> AllLanded(env.apply, Writes(|bits|))
      ensures applied ==> db == Applied(a, bits, routes) && Submitted(db, bits, routes)
      ensures !applied ==> (restored <==> CanRestore(saved, env.helperAtRestore) && AllLanded(env.restore, Writes(|bits|)))
      ensures !applied && CanRestore(saved, env.helperAtRestore) && AllEffect(env.restore, Writes(|bits|)) ==>
                RestoredTo(a, db, |bits|, env.helperAtRestore)
    {
      hide Canon, Readable, Applied, Submitted, AllLanded, AllEffect, RestoredTo, CanRestore;
      restored := false;
      applied := BitsApply(bits, routes, env.apply);
      assert |bits| < 10 ==> Same(a, db, CONNECTOR);
      if !applied {
        ghost var applying := db;
        restored := Restore(env.helperAtRestore, env.restore, a, |bits|);
        assert |bits| < 10 ==> Same(applying, db, CONNECTOR);
      }
    }

    /** What has been validated is written under the lock: snapshot, apply, service, and restore on failure. */
    method Transact(bits: string, routes: string, env: Env) returns (verdict: Verdict)
      requires BitsValid(bits) && IsBit(core) && !capture && before == ""
      modifies this
      ensures verdict == VerdictOf(old(db), bits, routes, env) && !verdict.Rejected?
      ensures verdict.NotSaved? ==> db == old(db) && core == old(core)
      ensures verdict.Succeeded? ==> Submitted(db, bits, routes)
      ensures verdict.Succeeded? && Flag(0) !in env.first.misread ==> manual == (bits[0] == '0')
      ensures verdict.Failed? && CanUndo(old(db), |bits|, env) && AllEffect(env.restore, Writes(|bits|)) ==>
                Restored(old(db), db, |bits|, env.helperAtRestore) && ConnectorKept(old(db), db, old(core))
      ensures verdict.Failed? && verdict.restored ==> manual == old(manual)
      ensures Untouched(old(db), db, |bits|)
      ensures |bits| < 10 ==> ConnectorKept(old(db), db, old(core))
      ensures verdict.Succeeded? && bits[0] == '1' && Flag(0) !in env.first.misread && CONNECTOR !in env.first.misread ==>
                Follows(db, core) && (|bits| == 10 ==> core == [bits[9]])
      ensures verdict.Failed? && verdict.restored && AllLanded(env.apply, Writes(|bits|)) && env.running && Applies(db, env.second) ==>
                Follows(db, core)
    {
      hide Canon, Readable, AllLanded, AllEffect, ConfigWorks, SnapshotWorks, Applied;
      var n := |bits|;
      ghost var a, choice := db, core;
      var ready := Snapshot(n, env.unread, env.helperAtSnapshot);
      if !ready { return NotSaved; }
      assert CanRestore(saved, env.helperAtRestore) == CanUndo(a, n, env);
      if n == 10 && saved.lines[9].1 == "" { capture := true; }
      var wasManual := manual;
      var applied, restored := ApplyOrRestore(bits, routes, env, a);
      if !applied {
        assert RestoredTo(a, db, n, env.helperAtRestore) && n == 10 ==> Value(db, Flag(9)) == Value(a, Flag(9));
        return Failed(restored);
      }
      assert Value(db, Flag(0)) == [bits[0]];
      assert n == 10 ==> Value(db, Flag(9)) == [bits[9]];
      verdict := ServeOrRollBack(bits, routes, env, a, wasManual, choice);
    }

    /** The service step, and the way back when it fails. */
    method ServeOrRollBack(bits: string, routes: string, env: Env, ghost a: Db, wasManual: bool, ghost choice: string)
      returns (verdict: Verdict)
      requires BitsValid(bits) && IsSnapshot(saved, a, |bits|) && IsBit(core) && core == choice && before == ""
      requires db == Applied(a, bits, routes) && Submitted(db, bits, routes) && Untouched(a, db, |bits|)
      requires |bits| < 10 ==> Same(a, db, CONNECTOR)
      requires capture == (|bits| == 10 && Value(a, CONNECTOR) == "")
      modifies this`db, this`core, this`capture, this`before, this`manual
      ensures verdict == if ServeWorks(Applied(a, bits, routes), env.first) then Succeeded
                         else Failed(CanRestore(saved, env.helperAtRestore) && AllLanded(env.restore, Writes(|bits|))
                                     && (Captures(a, bits, routes, env.first) ==> env.migrate.Landed?))
      ensures verdict.Succeeded? ==> Submitted(db, bits, routes) && manual == !Enabled(Applied(a, bits, routes), env.first.misread)
      ensures verdict.Failed? && CanRestore(saved, env.helperAtRestore) && AllEffect(env.restore, Writes(|bits|)) ==>
                Restored(a, db, |bits|, env.helperAtRestore) && ConnectorKept(a, db, choice)
      ensures verdict.Failed? && verdict.restored ==> manual == wasManual
      ensures Untouched(a, db, |bits|)
      ensures |bits| < 10 ==> ConnectorKept(a, db, choice)
      ensures verdict.Succeeded? && Enabled(Applied(a, bits, routes), env.first.misread) && CONNECTOR !in env.first.misread ==>
                Follows(db, core)
      ensures verdict.Failed? && verdict.restored && env.running && Applies(db, env.second) ==> Follows(db, core)
    {
      hide Canon, Readable, ReadBool, AllLanded, AllEffect, ConfigWorks, Applied, ServeWorks, Samples, Restored,
           CanRestore, IsSnapshot, Follows, Applies, Enabled;
      var n := |bits|;
      assert n == 10 ==> Value(db, Flag(9)) == [bits[9]];
      var done := Serve(env.first);
      if done { return Succeeded; }
      var restored := RollBack(env, a, n, wasManual, choice);
      verdict := Failed(restored);
    }

    /** ts_mutation web_submit with a switch string and, for nine or ten switches, a decoded route list: nothing
        is written unless both are valid. */
    method WebSubmit(bits: string, list: Option<string>, env: Env) returns (verdict: Verdict)
      requires IsBit(core)
      modifies this
      ensures verdict == if Valid(bits, list) then VerdictOf(old(db), bits, Routing(list), env) else Rejected
      ensures verdict.Rejected? || verdict.NotSaved? ==> db == old(db) && core == old(core)
      ensures verdict.Succeeded? ==> Submitted(db, bits, Routing(list))
      ensures verdict.Succeeded? && Flag(0) !in env.first.misread ==> manual == (bits[0] == '0')
      ensures verdict.Failed? && CanUndo(old(db), |bits|, env) && AllEffect(env.restore, Writes(|bits|)) ==>
                Restored(old(db), db, |bits|, env.helperAtRestore) && ConnectorKept(old(db), db, old(core))
      ensures verdict.Failed? && verdict.restored ==> manual == old(manual)
      ensures Untouched(old(db), db, |bits|)
      ensures |bits| < 10 ==> ConnectorKept(old(db), db, old(core))
      ensures verdict.Succeeded? && bits[0] == '1' && Flag(0) !in env.first.misread && CONNECTOR !in env.first.misread ==>
                Follows(db, core) && (|bits| == 10 ==> core == [bits[9]])
      ensures verdict.Failed? && verdict.restored && AllLanded(env.apply, Writes(|bits|)) && env.running && Applies(db, env.second) ==>
                Follows(db, core)
    {
      hide Submitted, Restored, VerdictOf, CanUndo, Readable, Canon, AllEffect, BitsValid, Routes.Canonical;
      if !BitsValid(bits) || (if |bits| == 7 then list.Some? else list.None?) {
        return Rejected;
      }
      var routes := "";
      if list.Some? {
        CanonIs(list.value);
        var r := Routes.CustomRoutes(list.value);
        if r.Err? { return Rejected; }
        routes := r.value;
      }
      capture, before := false, "";
      verdict := Transact(bits, routes, env);
    }
  }

  /** What a start finds and what it leaves differ at most in the connector key, so it worked on both or neither. */
  lemma AppliesBefore(a: Db, b: Db, choice: string, v: Service)
    requires MigratedFrom(a, b, choice) && IsBit(choice) && Applies(b, v)
    ensures Applies(a, v)
  {
    hide Readable;
    assert Value(a, RouteList) == Value(b, RouteList) && Value(a, Flag(0)) == Value(b, Flag(0));
    assert forall i: nat | i < 10 && Flag(i) != CONNECTOR :: Value(a, Flag(i)) == Value(b, Flag(i));
  }

  lemma CanonIs(list: string)
    ensures Readable(list) == Routes.Canonical(list).Ok?
    ensures Readable(list) ==> Canon(list) == Routes.Canonical(list).value
  {
    hide Routes.Canonical;
  }

  /** ts_start writes one key, once: the connector, when it has no value. */
  predicate MigratedFrom(a: Db, b: Db, choice: string) {
    b == a || (Value(a, CONNECTOR) == "" && b == a[CONNECTOR := choice])
  }

  /** How many writes a submission of this width makes, and as many to undo it. */
  function Writes(n: nat): nat {
    if n == 7 then 7 else n + 1
  }

  predicate AllEffect(writes: seq<Write>, n: nat) {
    forall i: nat | i < n :: Outcome(writes, i).Effect()
  }

  predicate AllLanded(writes: seq<Write>, n: nat) {
    forall i: nat | i < n :: Outcome(writes, i).Landed?
  }

  /** Every key but the first n switches. */
  ghost predicate SameOutside(a: Db, b: Db, n: nat) {
    forall k: Key :: !(k.Flag? && k.i < n) ==> Same(a, b, k)
  }

  predicate SameFlags(a: Db, b: Db, n: nat) {
    forall i: nat | i < n :: Value(b, Flag(i)) == Value(a, Flag(i))
  }

  /** The saved route list can be read again, or is known to be unreadable. */
  predicate CanRestore(s: Saved, helper: bool) {
    s.routes.None? || s.invalid || (helper && Readable(s.routes.value))
  }
}
