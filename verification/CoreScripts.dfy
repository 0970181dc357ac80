/** ts_core_recover, ts_core_switch and ts_core_rollback as scripts that change files in place and meet an
    arbitrary outcome at every command. Each execution is proved to be a run of the core machine. */
module CoreScripts {
  import opened Wrappers
  import opened CoreMachine
  import opened CoreRollback
  import opened CoreSafety

  /** How a script ended: with status 0, with another one, or killed. */
  datatype Exit = Success | Failure | Killed

  function Stopped(f: Fate): Exit {
    if f.Died? then Killed else Failure
  }

  class CoreStore {
    var disk: Disk
    var enabled: bool
    var daemon: Option<Core>
    /** The CORE_ variables of the running script. */
    var vars: Journal

    /** What the commands meet, in order, and what the daemon does before each: rewrite the identity, exit. */
    const fates: nat -> Fate
    const acts: nat -> (Option<Bytes>, bool)
    /** How many commands have been run. */
    var count: nat

    /** The state of the machine, and how it was reached. */
    ghost var m: Sys
    ghost var start: Sys
    ghost var trace: seq<Event>

    ghost predicate Shows(s: Sys)
      reads this
    {
      s.disk == disk && s.enabled == enabled && s.daemon == daemon && s.vars == vars
    }

    ghost predicate Valid()
      reads this
    {
      Shows(m) && m == Run(start, trace)
    }

    /** The identity file and the daemon as the next command finds them. */
    ghost function Identity(): Bytes
      reads this
    {
      if acts(count).0.Some? && daemon.Some? then acts(count).0.value else disk.state
    }

    ghost function Daemon(): Option<Core>
      reads this
    {
      if acts(count).1 then None else daemon
    }

    /** No daemon rewrites the identity before the commands numbered from a up to b. */
    ghost predicate Untouched(a: nat, b: nat) {
      forall n | a <= n < b :: acts(n).0.None?
    }

    /** No daemon exits of its own before these commands. */
    ghost predicate Stays(a: nat, b: nat) {
      forall n | a <= n < b :: !acts(n).1
    }

    /** Among these commands only the one numbered h fails, without killing the script. */
    ghost predicate FailsAt(a: nat, b: nat, h: nat) {
      && (forall n | a <= n < b && n != h :: fates(n).Done?)
      && !fates(h).Done? && !fates(h).Died?
    }

    /** The commands numbered from a up to b meet no fault. */
    ghost predicate Smooth(a: nat, b: nat) {
      forall n | a <= n < b :: fates(n).Done?
    }

    constructor (s: Sys, what: nat -> Fate, daemonActs: nat -> (Option<Bytes>, bool))
      ensures Valid() && m == s == start && fates == what && acts == daemonActs && count == 0
    {
      fates, acts, count := what, daemonActs, 0;
      disk, enabled, daemon, vars := s.disk, s.enabled, s.daemon, s.vars;
      m, start, trace := s, s, [];
    }

    /** What the script has just done was this event. */
    ghost method Log(e: Event)
      requires m == Run(start, trace) && Shows(Next(m, e))
      modifies this`m, this`trace
      ensures Valid() && m == Next(old(m), e)
    {
      RunAppend(start, trace, e);
      m, trace := Next(m, e), trace + [e];
    }

    /** Before a command the daemon may rewrite the identity file and may exit; then the command meets its fate. */
    method Meet() returns (f: Fate)
      requires Valid()
      modifies this`disk, this`daemon, this`count, this`m, this`trace
      ensures Valid() && m.pc == old(m).pc && m.intent == old(m).intent && m.target == old(m).target
      ensures disk == old(disk).(state := old(Identity())) && daemon == old(Daemon())
      ensures f == fates(old(count)) && count == old(count) + 1
    {
      var (content, exits) := acts(count);
      if content.Some? && daemon.Some? {
        disk := disk.(state := content.value);
        Log(DaemonWrites(content.value));
      }
      if exits {
        daemon := None;
        Log(DaemonExits);
      }
      f := fates(count);
      count := count + 1;
    }

    /** ts_core_read_journal */
    method ReadJournal() returns (f: Fate)
      requires Valid() && m.pc == Recover(Enter) && disk.txn.Some?
      modifies this
      ensures Valid() && start == old(start) && f == fates(old(count)) && count == old(count) + 1
      ensures disk == old(disk).(state := old(Identity()))
      ensures daemon == old(Daemon())
      ensures f.Done? ==> m.intent == old(m).intent && m.target == old(m).target
      ensures f.Done? ==>
                vars == disk.txn.value && m.pc == Recover(if vars.phase.Committed? then LinkPrevious else Validate)
      ensures !f.Done? ==> m.pc.Idle?
    {
      hide Run;
      f := Meet();
      if f.Done? { vars := disk.txn.value; }
      Log(Do(f));
    }

    /** `atomic-link old previous` for a committed switch. A link to a missing directory is refused. */
    method KeepOldCore() returns (f: Fate)
      requires Valid() && m.pc == Recover(LinkPrevious)
      modifies this
      ensures Valid() && start == old(start) && f == fates(old(count)) && count == old(count) + 1
      ensures vars == old(vars)
      ensures !m.pc.Idle? ==> m.intent == old(m).intent && m.target == old(m).target
      ensures disk == old(disk).(state := old(Identity()), previous := disk.previous)
      ensures daemon == old(Daemon())
      ensures f.Done? && vars.from in disk.cores ==> disk.previous == Some(vars.from) && m.pc == Recover(DropTxn)
      ensures vars.from !in disk.cores ==> m.pc.Idle?
      ensures !f.Done? ==> m.pc.Idle?
    {
      hide Run;
      f := Meet();
      if f.Lands() && vars.from in disk.cores { disk := disk.(previous := Some(vars.from)); }
      Log(Do(f));
    }

    /** ts_core_valid */
    method CheckOldCore() returns (f: Fate)
      requires Valid() && m.pc == Recover(Validate)
      modifies this
      ensures Valid() && start == old(start) && f == fates(old(count)) && count == old(count) + 1
      ensures vars == old(vars)
      ensures !m.pc.Idle? ==> m.intent == old(m).intent && m.target == old(m).target
      ensures disk == old(disk).(state := old(Identity()))
      ensures daemon == old(Daemon())
      ensures if f.Done? && vars.from in disk.cores then m.pc == Recover(RecoverPc.StopDaemon) else m.pc.Idle?
      ensures !f.Done? ==> m.pc.Idle?
    {
      hide Run;
      f := Meet();
      Log(Do(f));
    }

    /** ts_stop */
    method StopAnyDaemon() returns (f: Fate)
      requires Valid() && m.pc == Recover(RecoverPc.StopDaemon)
      modifies this
      ensures Valid() && start == old(start) && f == fates(old(count)) && count == old(count) + 1
      ensures vars == old(vars)
      ensures !m.pc.Idle? ==> m.intent == old(m).intent && m.target == old(m).target
      ensures disk == old(disk).(state := old(Identity()))
      ensures f.Done? ==> daemon.None?
      ensures f.Done? ==> m.pc == Recover(LinkBack)
      ensures !f.Done? ==> m.pc.Idle?
    {
      hide Run;
      f := Meet();
      if f.Lands() { daemon := None; }
      Log(Do(f));
    }

    /** `atomic-link old current` */
    method PointBack() returns (f: Fate)
      requires Valid() && m.pc == Recover(LinkBack)
      modifies this
      ensures Valid() && start == old(start) && f == fates(old(count)) && count == old(count) + 1
      ensures vars == old(vars)
      ensures !m.pc.Idle? ==> m.intent == old(m).intent && m.target == old(m).target
      ensures disk == old(disk).(state := old(Identity()), current := disk.current)
      ensures daemon == old(Daemon())
      ensures f.Done? && vars.from in disk.cores ==> disk.current == vars.from && m.pc == Restoring(vars)
      ensures vars.from !in disk.cores ==> m.pc.Idle?
      ensures !f.Done? ==> m.pc.Idle?
    {
      hide Run;
      f := Meet();
      if f.Lands() && vars.from in disk.cores { disk := disk.(current := vars.from); }
      Log(Do(f));
    }

    /** `cp update.state STATE.recovery`; an empty snapshot stops the script. */
    method CopyIdentity() returns (f: Fate)
      requires Valid() && m.pc == Recover(CopySnapshot)
      modifies this
      ensures Valid() && start == old(start) && f == fates(old(count)) && count == old(count) + 1
      ensures vars == old(vars)
      ensures !m.pc.Idle? ==> m.intent == old(m).intent && m.target == old(m).target
      ensures disk == old(disk).(state := old(Identity()), spare := disk.spare)
      ensures daemon == old(Daemon())
      ensures f.Done? && disk.snap != Empty ==> disk.spare == disk.snap
      ensures if f.Done? && disk.snap != Empty then m.pc == Recover(MoveState) else m.pc.Idle?
      ensures !f.Done? ==> m.pc.Idle?
    {
      hide Run;
      f := Meet();
      if disk.snap != Empty { disk := disk.(spare := f.Copied(disk.snap)); }
      Log(Do(f));
    }

    /** `mv STATE.recovery STATE` */
    method MoveIdentity() returns (f: Fate)
      requires Valid() && m.pc == Recover(MoveState)
      modifies this
      ensures Valid() && start == old(start) && f == fates(old(count)) && count == old(count) + 1
      ensures vars == old(vars)
      ensures !m.pc.Idle? ==> m.intent == old(m).intent && m.target == old(m).target
      ensures disk == old(disk).(state := if f.Lands() then old(disk).spare else old(Identity()))
      ensures daemon == old(Daemon())
      ensures f.Done? ==> m.pc == Starting(vars)
      ensures !f.Done? ==> m.pc.Idle?
    {
      hide Run;
      f := Meet();
      if f.Lands() { disk := disk.(state := disk.spare); }
      Log(Do(f));
    }

    /** ts_start */
    method StartOldCore() returns (f: Fate)
      requires Valid() && m.pc == Recover(StartOld)
      modifies this
      ensures Valid() && start == old(start) && f == fates(old(count)) && count == old(count) + 1
      ensures vars == old(vars)
      ensures !m.pc.Idle? ==> m.intent == old(m).intent && m.target == old(m).target
      ensures disk == old(disk).(state := old(Identity()))
      ensures f.Done? ==> daemon == if old(Daemon()).None? then Some(disk.current) else old(Daemon())
      ensures f.Done? ==> m.pc == Recover(DropTxn)
      ensures !f.Done? ==> m.pc.Idle?
    {
      hide Run;
      f := Meet();
      if f.Lands() && daemon.None? { daemon := Some(disk.current); }
      Log(Do(f));
    }

    /** `rm -f update.txn`; its status is not looked at. */
    method RemoveJournal() returns (f: Fate)
      requires Valid() && m.pc == Recover(DropTxn)
      modifies this
      ensures Valid() && start == old(start) && f == fates(old(count)) && count == old(count) + 1
      ensures vars == old(vars)
      ensures !m.pc.Idle? ==> m.intent == old(m).intent && m.target == old(m).target
      ensures disk == old(disk).(state := old(Identity()), txn := disk.txn)
      ensures daemon == old(Daemon())
      ensures if f.Died? then m.pc.Idle? else m.pc == Recover(DropSnap)
      ensures f.Done? ==> disk.txn.None?
    {
      hide Run;
      f := Meet();
      if f.Lands() { disk := disk.(txn := None); }
      Log(Do(f));
    }

    /** `rm -f update.state` */
    method RemoveSnapshot() returns (f: Fate)
      requires Valid() && m.pc == Recover(DropSnap)
      modifies this
      ensures Valid() && start == old(start) && f == fates(old(count)) && count == old(count) + 1
      ensures vars == old(vars)
      ensures disk == old(disk).(state := old(Identity()), snap := disk.snap)
      ensures daemon == old(Daemon())
      ensures f.Died? || old(m).intent.None? ==> m.pc.Idle?
      ensures !f.Died? ==> m.pc == Goes(old(m).intent, disk)
      ensures m.pc == Switch(Entry) ==> disk.previous == Some(m.target)
    {
      hide Run;
      f := Meet();
      if f.Lands() { disk := disk.(snap := Empty); }
      RecoveredShows(DropSnapFile(m, f));
      Log(Do(f));
    }

    /** The checks at the head of ts_core_switch, and its variables. */
    method EnterSwitch(to: Core) returns (f: Fate)
      requires Valid() && m.pc == Switch(Entry) && m.target == to
      modifies this
      ensures Valid() && start == old(start) && f == fates(old(count)) && count == old(count) + 1
      ensures enabled == old(enabled)
      ensures disk == old(disk).(state := old(Identity()))
      ensures daemon == old(Daemon())
      ensures if f.Done? && disk.current in disk.cores && to != disk.current && to in disk.cores
              then m.pc == Switch(Prepare)
                   && vars == Journal(Prepared, disk.current, to, old(Identity()) != Empty, enabled)
              else m.pc.Idle?
    {
      hide Run;
      f := Meet();
      if !f.Died? && disk.current in disk.cores && to != disk.current && to in disk.cores {
        vars := Journal(Prepared, disk.current, to, disk.state != Empty, enabled);
      }
      Log(Do(f));
    }

    /** ts_core_journal prepared */
    method JournalPrepared() returns (f: Fate)
      requires Valid() && m.pc == Switch(Prepare)
      modifies this
      ensures Valid() && start == old(start) && f == fates(old(count)) && count == old(count) + 1
      ensures disk == old(disk).(state := old(Identity()), txn := disk.txn)
      ensures daemon == old(Daemon())
      ensures vars == old(vars).(phase := vars.phase)
      ensures if f.Done? then m.pc == Switch(Stop) else m.pc.Idle?
      ensures f.Done? ==> vars.phase == Prepared && disk.txn == Some(vars)
    {
      hide Run;
      f := Meet();
      if f.Lands() {
        vars := vars.(phase := Prepared);
        disk := disk.(txn := Some(vars));
      }
      Log(Do(f));
    }

    /** ts_stop */
    method StopForSwitch() returns (f: Fate)
      requires Valid() && m.pc == Switch(Stop)
      modifies this
      ensures Valid() && start == old(start) && f == fates(old(count)) && count == old(count) + 1
      ensures disk == old(disk).(state := old(Identity()))
      ensures f.Done? ==> daemon.None?
      ensures vars == old(vars)
      ensures if f.Done? then m.pc == Switch(if vars.had then BackUp else MarkBackedUp)
              else if f.Died? then m.pc.Idle? else Undoing(m)
    {
      hide Run;
      f := Meet();
      if f.Lands() { daemon := None; }
      Log(Do(f));
    }

    /** `cp STATE update.state`; a killed copy leaves anything. */
    method BackUpIdentity() returns (f: Fate)
      requires Valid() && m.pc == Switch(BackUp)
      modifies this
      ensures Valid() && start == old(start) && f == fates(old(count)) && count == old(count) + 1
      ensures disk == old(disk).(state := old(Identity()), snap := disk.snap)
      ensures daemon == old(Daemon())
      ensures vars == old(vars)
      ensures f.Done? ==> disk.snap == disk.state
      ensures if f.Done? then m.pc == Switch(MarkBackedUp)
              else if f.Died? then m.pc.Idle? else Undoing(m)
    {
      hide Run;
      f := Meet();
      disk := disk.(snap := f.Copied(disk.state));
      Log(Do(f));
    }

    /** ts_core_journal backed_up */
    method JournalBackedUp() returns (f: Fate)
      requires Valid() && m.pc == Switch(MarkBackedUp)
      modifies this
      ensures Valid() && start == old(start) && f == fates(old(count)) && count == old(count) + 1
      ensures disk == old(disk).(state := old(Identity()), txn := disk.txn)
      ensures daemon == old(Daemon())
      ensures vars == old(vars).(phase := vars.phase)
      ensures if f.Done? then m.pc == Switch(LinkNew)
              else if f.Died? then m.pc.Idle? else Undoing(m)
      ensures f.Done? ==> vars.phase == BackedUp && disk.txn == Some(vars)
    {
      hide Run;
      f := Meet();
      if f.Lands() {
        vars := vars.(phase := BackedUp);
        disk := disk.(txn := Some(vars));
      }
      Log(Do(f));
    }

    /** `atomic-link new current` */
    method PointForward() returns (f: Fate)
      requires Valid() && m.pc == Switch(LinkNew)
      modifies this
      ensures Valid() && start == old(start) && f == fates(old(count)) && count == old(count) + 1
      ensures disk == old(disk).(state := old(Identity()), current := disk.current)
      ensures daemon == old(Daemon())
      ensures vars == old(vars)
      ensures if f.Done? && vars.to in disk.cores
              then disk.current == vars.to && m.pc == Switch(MarkSwitched)
              else if f.Died? then m.pc.Idle? else Undoing(m)
    {
      hide Run;
      f := Meet();
      if f.Lands() && vars.to in disk.cores { disk := disk.(current := vars.to); }
      Log(Do(f));
    }

    /** ts_core_journal switched */
    method JournalSwitched() returns (f: Fate)
      requires Valid() && m.pc == Switch(MarkSwitched)
      modifies this
      ensures Valid() && start == old(start) && f == fates(old(count)) && count == old(count) + 1
      ensures disk == old(disk).(state := old(Identity()), txn := disk.txn)
      ensures daemon == old(Daemon())
      ensures vars == old(vars).(phase := vars.phase)
      ensures if f.Done? then m.pc == Switch(if vars.enabled then StartNew else Commit)
              else if f.Died? then m.pc.Idle? else Undoing(m)
      ensures f.Done? ==> vars.phase == Switched && disk.txn == Some(vars)
    {
      hide Run;
      f := Meet();
      if f.Lands() {
        vars := vars.(phase := Switched);
        disk := disk.(txn := Some(vars));
      }
      Log(Do(f));
    }

    /** ts_start */
    method StartNewCore() returns (f: Fate)
      requires Valid() && m.pc == Switch(StartNew)
      modifies this
      ensures Valid() && start == old(start) && f == fates(old(count)) && count == old(count) + 1
      ensures disk == old(disk).(state := old(Identity()))
      ensures f.Done? ==> daemon == if old(Daemon()).None? then Some(disk.current) else old(Daemon())
      ensures vars == old(vars)
      ensures if f.Done? then m.pc == Switch(Health)
              else if f.Died? then m.pc.Idle? else Undoing(m)
    {
      hide Run;
      f := Meet();
      if f.Lands() && daemon.None? { daemon := Some(disk.current); }
      Log(Do(f));
    }

    /** ts_core_health */
    method CheckHealth() returns (f: Fate)
      requires Valid() && m.pc == Switch(Health)
      modifies this
      ensures Valid() && start == old(start) && f == fates(old(count)) && count == old(count) + 1
      ensures disk == old(disk).(state := old(Identity()))
      ensures daemon == old(Daemon())
      ensures vars == old(vars)
      ensures if f.Done? then m.pc == Switch(Commit)
              else if f.Died? then m.pc.Idle? else Undoing(m)
    {
      hide Run;
      f := Meet();
      Log(Do(f));
    }

    /** ts_core_journal committed */
    method JournalCommitted() returns (f: Fate)
      requires Valid() && m.pc == Switch(Commit)
      modifies this
      ensures Valid() && start == old(start) && f == fates(old(count)) && count == old(count) + 1
      ensures disk == old(disk).(state := old(Identity()), txn := disk.txn)
      ensures daemon == old(Daemon())
      ensures vars == old(vars).(phase := vars.phase)
      ensures if f.Done? then m.pc == Switch(KeepPrevious) else m.pc.Idle?
    {
      hide Run;
      f := Meet();
      if f.Lands() {
        vars := vars.(phase := Committed);
        disk := disk.(txn := Some(vars));
      }
      Log(Do(f));
    }

    /** `atomic-link old previous` */
    method KeepPreviousCore() returns (f: Fate)
      requires Valid() && m.pc == Switch(KeepPrevious)
      modifies this
      ensures Valid() && start == old(start) && f == fates(old(count)) && count == old(count) + 1
      ensures disk == old(disk).(state := old(Identity()), previous := disk.previous)
      ensures daemon == old(Daemon())
      ensures vars == old(vars)
      ensures if f.Done? && vars.from in disk.cores then disk.previous == Some(vars.from) && m.pc == Switch(EndTxn)
              else m.pc.Idle?
    {
      hide Run;
      f := Meet();
      if f.Lands() && vars.from in disk.cores { disk := disk.(previous := Some(vars.from)); }
      Log(Do(f));
    }

    /** `rm -f update.txn` */
    method EndJournal() returns (f: Fate)
      requires Valid() && m.pc == Switch(EndTxn)
      modifies this
      ensures Valid() && start == old(start) && f == fates(old(count)) && count == old(count) + 1
      ensures disk == old(disk).(state := old(Identity()), txn := disk.txn)
      ensures daemon == old(Daemon())
      ensures if f.Died? then m.pc.Idle? else m.pc == Switch(EndSnap)
      ensures f.Done? ==> disk.txn.None?
    {
      hide Run;
      f := Meet();
      if f.Lands() { disk := disk.(txn := None); }
      Log(Do(f));
    }

    /** `rm -f update.state` */
    method EndSnapshot() returns (f: Fate)
      requires Valid() && m.pc == Switch(EndSnap)
      modifies this
      ensures Valid() && start == old(start) && f == fates(old(count)) && count == old(count) + 1
      ensures disk == old(disk).(state := old(Identity()), snap := disk.snap)
      ensures daemon == old(Daemon())
      ensures m.pc.Idle?
    {
      hide Run;
      f := Meet();
      if f.Lands() { disk := disk.(snap := Empty); }
      Log(Do(f));
    }

    /** The end of ts_core_recover. */
    method FinishRecovery() returns (r: Exit)
      requires Valid() && m.pc == Recover(DropTxn)
      modifies this
      ensures Valid() && start == old(start)
      ensures count >= old(count)
      ensures Smooth(old(count), count) ==> r.Success?
      ensures r.Success? && m.pc == Switch(Entry) ==> disk.previous == Some(m.target)
      ensures disk.cores == old(disk).cores && disk.current == old(disk).current && disk.previous == old(disk).previous
      ensures r.Success? ==> m.pc == Goes(old(m).intent, disk)
      ensures !r.Success? || old(m).intent.None? ==> m.pc.Idle?
      ensures r.Success? ==> count == old(count) + 2
      ensures Smooth(old(count), count) ==> disk.txn.None?
      ensures Untouched(old(count), count) ==> disk.state == old(disk).state
      ensures daemon.None? || daemon == old(daemon)
      ensures Stays(old(count), count) ==> daemon == old(daemon)
    {
      hide Run, Goes;
      var f := RemoveJournal();
      if f.Died? { return Killed; }
      f := RemoveSnapshot();
      r := if f.Died? then Killed else Success;
    }

    /** The identity, once the current link is back. */
    method RestoreIdentity() returns (r: Exit)
      requires Valid() && m.pc == Restoring(vars)
      modifies this
      ensures Valid() && start == old(start) && vars == old(vars)
      ensures count >= old(count)
      ensures Smooth(old(count), count) && Restorable(vars, old(disk)) ==> r.Success?
      ensures disk.cores == old(disk).cores && disk.current == old(disk).current && disk.previous == old(disk).previous
      ensures if r.Success? then m.pc == Starting(vars) && m.intent == old(m).intent else m.pc.Idle?
      ensures old(daemon).None? ==> daemon.None?
      ensures r.Success? && old(daemon).None? ==> disk.state == if vars.NeedsSnapshot() then old(disk).snap else old(disk).state
    {
      hide Run;
      if vars.NeedsSnapshot() {
        var f := CopyIdentity();
        if !f.Done? || disk.snap == Empty { return Stopped(f); }
        f := MoveIdentity();
        if !f.Done? { return Stopped(f); }
      }
      r := Success;
    }

    /** ts_core_recover before the commit: stop, point back, restore, start. */
    method RollBack() returns (r: Exit)
      requires Valid() && m.pc == Recover(Validate)
      modifies this
      ensures Valid() && start == old(start)
      ensures count >= old(count)
      ensures Smooth(old(count), count) && old(vars).from in disk.cores && Restorable(old(vars), old(disk)) ==> r.Success?
      ensures disk.cores == old(disk).cores && disk.previous == old(disk).previous
      ensures if r.Success? then m.pc == Recover(DropTxn) && m.intent == old(m).intent && disk.current == old(vars).from
              else m.pc.Idle?
      ensures vars == old(vars)
      ensures r.Success? ==> daemon == if vars.enabled then Some(vars.from) else None
      ensures r.Success? && vars.NeedsSnapshot() ==> disk.state == old(disk).snap
    {
      hide Run;
      var f := CheckOldCore();
      if !f.Done? || vars.from !in disk.cores { return Stopped(f); }
      f := StopAnyDaemon();
      if !f.Done? { return Stopped(f); }
      f := PointBack();
      if !f.Done? || vars.from !in disk.cores { return Stopped(f); }
      r := RestoreIdentity();
      if !r.Success? { return; }
      if vars.enabled {
        f := StartOldCore();
        if !f.Done? { return Stopped(f); }
      }
    }

    /** What a recovery leaves that undid the switch of this journal and ended just now: the daemon of the old
        core, if the service was enabled, and the identity of the snapshot, if there was one. */
    ghost predicate Restored(j: Journal, snap: Bytes)
      requires count >= 2
      reads this
    {
      && (daemon.None? || (j.enabled && daemon == Some(j.from)))
      && (j.enabled && Stays(count - 2, count) ==> daemon == Some(j.from))
      && (j.NeedsSnapshot() && Untouched(count - 2, count) ==> disk.state == snap)
    }

    /** ts_core_recover: on success the links are those of a finished or of an undone switch, as the journal
        says, and the script goes on with its request. */
    method RecoverCore() returns (r: Exit)
      requires Valid() && m.pc == Recover(Enter)
      modifies this
      ensures Valid() && start == old(start) && disk.cores == old(disk).cores
      ensures count >= old(count)
      ensures Smooth(old(count), count) && Recoverable(old(disk)) ==> r.Success?
      ensures r.Success? && m.pc == Switch(Entry) ==> disk.previous == Some(m.target)
      ensures r.Success? ==> m.pc == Goes(old(m).intent, disk)
      ensures !r.Success? || old(m).intent.None? ==> m.pc.Idle?
      ensures r.Success? ==>
                match old(disk).txn
                case None => disk == old(disk)
                case Some(j) =>
                  if j.phase.Committed? then disk.previous == Some(j.from) && disk.current == old(disk).current
                  else disk.current == j.from && disk.previous == old(disk).previous
      ensures Smooth(old(count), count) && Recoverable(old(disk)) ==> disk.txn.None?
      ensures r.Success? && old(disk).txn.Some? ==> count >= old(count) + 2
      ensures r.Success? && old(disk).txn.Some? && !old(disk).txn.value.phase.Committed? ==>
                Restored(old(disk).txn.value, old(disk).snap)
      ensures r.Success? && (old(disk).txn.Some? ==> old(disk).txn.value.phase.Committed?) ==>
                && (Stays(old(count), count) ==> daemon == old(daemon))
                && (Untouched(old(count), count) ==> disk.state == old(disk).state)
    {
      hide Run, Goes;
      if disk.txn.None? {
        NothingToRecover(m);
        Log(Do(Done));
        return Success;
      }
      var f := ReadJournal();
      if !f.Done? { return Stopped(f); }
      if vars.phase.Committed? {
        f := KeepOldCore();
        if !f.Done? || vars.from !in disk.cores { return Stopped(f); }
      } else {
        r := RollBack();
        if !r.Success? { return; }
      }
      r := FinishRecovery();
    }

    /** The failure branches of ts_core_switch. */
    method Undo(f: Fate) returns (r: Exit)
      requires Valid() && (if f.Died? then m.pc.Idle? else Undoing(m))
      modifies this
      ensures Valid() && start == old(start) && m.pc.Idle? && !r.Success? && count >= old(count)
      ensures var txn := old(disk).txn;
              !f.Died? && txn.Some? && !txn.value.phase.Committed? && Smooth(old(count), count) && Recoverable(old(disk)) ==>
                && r.Failure? && disk.txn.None? && disk.current == txn.value.from && disk.previous == old(disk).previous
                && count >= old(count) + 2 && Restored(txn.value, old(disk).snap)
    {
      if f.Died? { return Killed; }
      r := RecoverCore();
      if r.Success? { r := Failure; }
    }

    /** ts_core_switch up to its backup. */
    method PrepareSwitch() returns (r: Exit)
      requires Valid() && m.pc == Switch(Prepare)
      modifies this
      ensures Valid() && start == old(start)
      ensures count >= old(count)
      ensures Smooth(old(count), count) ==> r.Success?
      ensures Smooth(old(count), old(count) + if old(vars).had then 4 else 3) ==> r.Success?
      ensures r.Success? ==> m.pc == Switch(LinkNew) && vars.from == old(vars).from && vars.to == old(vars).to
                             && vars.enabled == old(vars).enabled && disk.cores == old(disk).cores
      ensures !r.Success? ==> m.pc.Idle?
      ensures r.Success? ==>
                && count == old(count) + (if vars.had then 4 else 3) && vars.had == old(vars).had
                && vars.phase.BackedUp? && disk.txn == Some(vars) && daemon.None? && disk.previous == old(disk).previous
                && disk.current == old(disk).current
                && (Untouched(old(count), old(count) + 2) ==> disk.state == old(disk).state)
                && (vars.had ==> disk.snap == disk.state)
    {
      hide Run;
      var f := JournalPrepared();
      if !f.Done? { return Stopped(f); }
      f := StopForSwitch();
      if !f.Done? { r := Undo(f); return; }
      if vars.had {
        f := BackUpIdentity();
        if !f.Done? { r := Undo(f); return; }
      }
      f := JournalBackedUp();
      if !f.Done? { r := Undo(f); return; }
      r := Success;
    }

    /** The new core is pointed to, started and checked. */
    method GoForward() returns (r: Exit)
      requires Valid() && m.pc == Switch(LinkNew)
      modifies this
      ensures Valid() && start == old(start)
      ensures count >= old(count)
      ensures Smooth(old(count), count) && old(vars).to in old(disk).cores ==> r.Success?
      ensures r.Success? ==> m.pc == Switch(Commit) && vars.from == old(vars).from && disk.current == old(vars).to
                             && disk.cores == old(disk).cores
      ensures !r.Success? ==> m.pc.Idle?
      ensures r.Success? && old(daemon).None? ==>
                && (daemon.None? || (old(vars).enabled && daemon == Some(old(vars).to)))
                && (old(vars).enabled && Stays(old(count), count) ==> daemon == Some(old(vars).to))
                && (Untouched(old(count), count) ==> disk.state == old(disk).state)
      ensures old(vars).enabled && FailsAt(old(count), count, old(count) + 3)
              && old(disk).txn == Some(old(vars)) && old(vars).phase.BackedUp?
              && old(vars).from in old(disk).cores && old(vars).to in old(disk).cores && Restorable(old(vars), old(disk)) ==>
                && r.Failure? && disk.txn.None? && disk.current == old(vars).from && disk.previous == old(disk).previous
                && count >= 2 && Restored(old(vars), old(disk).snap)
    {
      hide Run;
      var f := PointForward();
      if !f.Done? || vars.to !in disk.cores { r := Undo(f); return; }
      f := JournalSwitched();
      if !f.Done? { r := Undo(f); return; }
      if vars.enabled {
        f := StartNewCore();
        if !f.Done? { r := Undo(f); return; }
        f := CheckHealth();
        if !f.Done? { r := Undo(f); return; }
      }
      r := Success;
    }

    method CommitSwitch() returns (r: Exit)
      requires Valid() && m.pc == Switch(Commit)
      modifies this
      ensures Valid() && start == old(start) && m.pc.Idle?
      ensures count >= old(count)
      ensures Smooth(old(count), count) && old(vars).from in old(disk).cores ==> r.Success?
      ensures r.Success? ==> disk.current == old(disk).current && disk.previous == Some(old(vars).from)
      ensures r.Success? ==>
                && (daemon == old(daemon) || daemon.None?)
                && (Stays(old(count), count) ==> daemon == old(daemon))
                && (Untouched(old(count), count) ==> disk.state == old(disk).state)
    {
      hide Run;
      var f := JournalCommitted();
      if !f.Done? { return Stopped(f); }
      f := KeepPreviousCore();
      if !f.Done? || vars.from !in disk.cores { return Stopped(f); }
      f := EndJournal();
      if f.Died? { return Killed; }
      f := EndSnapshot();
      r := if f.Died? then Killed else Success;
    }

    /** ts_core_switch: with status 0 the new core is current and the old one is kept as previous, or the new
        core was current already. When only the health check fails, the old core is current and running again,
        and the identity is the one from before the stop, whatever the new daemon wrote. The last two commands
        are the removals, before which the old daemon is running again. */
    method SwitchCore(to: Core) returns (r: Exit)
      requires Valid() && m.pc == Switch(Entry) && m.target == to
      modifies this
      ensures Valid() && start == old(start) && m.pc.Idle?
      ensures count >= old(count)
      ensures Smooth(old(count), count) && old(disk).current in old(disk).cores && to in old(disk).cores ==> r.Success?
      ensures r.Success? ==> disk.current == to && (to == old(disk).current || disk.previous == Some(old(disk).current))
      ensures r.Success? && to != old(disk).current ==>
                && (daemon.None? || (old(enabled) && daemon == Some(to)))
                && (old(enabled) && Stays(old(count), count) ==> daemon == Some(to))
                && (Untouched(old(count), count) ==> disk.state == old(disk).state)
      ensures old(enabled) && to != old(disk).current && old(disk).current in old(disk).cores && to in old(disk).cores
              && Untouched(old(count), old(count) + 3)
              && FailsAt(old(count), count, old(count) + if old(disk).state == Empty then 7 else 8) ==>
                && r.Failure? && disk.txn.None? && disk.current == old(disk).current && disk.previous == old(disk).previous
                && count >= 2 && (Stays(count - 2, count) ==> daemon == Some(old(disk).current))
                && (old(disk).state != Empty && Untouched(count - 2, count) ==> disk.state == old(disk).state)
    {
      hide Run;
      var f := EnterSwitch(to);
      if !f.Done? || disk.current !in disk.cores { return Stopped(f); }
      if to == disk.current { return Success; }
      if to !in disk.cores { return Failure; }
      r := PrepareSwitch();
      if !r.Success? { return; }
      r := GoForward();
      if !r.Success? { return; }
      r := CommitSwitch();
    }

    /** The rollback request: ts_core_recover, then ts_core_rollback. A successful one exchanges the links that
        the journal, if there is one, stands for. */
    method RollbackCore() returns (r: Exit)
      requires Valid() && m.pc == Recover(Enter) && m.intent == Some(Rollback)
      modifies this
      ensures Valid() && start == old(start) && count >= old(count) && m.pc.Idle?
      ensures r.Success? && Links(old(disk)).1 != Some(Links(old(disk)).0) ==>
                disk.previous == Some(Links(old(disk)).0) && Some(disk.current) == Links(old(disk)).1
      ensures var (c, p) := Links(old(disk));
              Smooth(old(count), count) && Recoverable(old(disk)) && Present(c, p, old(disk)) ==> r.Success?
    {
      hide Run;
      r := RecoverCore();
      if !r.Success? { return; }
      assert (disk.current, disk.previous) == Links(old(disk));
      if disk.previous.None? || disk.previous.value !in disk.cores { return Failure; }
      r := SwitchCore(disk.previous.value);
    }
  }

  /** The snapshot is there if it is needed. */
  predicate Restorable(j: Journal, d: Disk) {
    j.NeedsSnapshot() ==> d.snap != Empty
  }

  predicate Present(c: Core, p: Option<Core>, d: Disk) {
    c in d.cores && p.Some? && p.value in d.cores
  }

  /** The current and previous core a recovery of this disk leads to. */
  function Links(d: Disk): (Core, Option<Core>) {
    match d.txn
    case None => (d.current, d.previous)
    case Some(j) => if j.phase.Committed? then (d.current, Some(j.from)) else (j.from, d.previous)
  }

  lemma NothingToRecover(s: Sys)
    requires s.pc == Recover(Enter) && s.disk.txn.None?
    ensures var t := Next(s, Do(Done));
            && t.disk == s.disk && t.enabled == s.enabled && t.daemon == s.daemon && t.vars == s.vars
            && t.pc == Goes(s.intent, s.disk) && (t.pc == Switch(Entry) ==> s.disk.previous == Some(t.target))
  {
  }

  ghost predicate Undoing(s: Sys) {
    s.pc == Recover(Enter) && s.intent.None?
  }

  /** Where recovery goes once the current link is back, and once the identity is. */
  function Restoring(j: Journal): Pc {
    if j.NeedsSnapshot() then Recover(CopySnapshot) else Starting(j)
  }

  function Starting(j: Journal): Pc {
    Recover(if j.enabled then StartOld else DropTxn)
  }

  /** Where the script goes on with its request after a successful recovery. */
  function Goes(i: Option<Intent>, d: Disk): Pc {
    match i
    case None => Idle
    case Some(Lifecycle(_, _)) => Before(Lifecycled)
    case Some(Update(to, low, _)) =>
      if d.current !in d.cores || d.current == to then Idle
      else if !low then Before(Install)
      else if d.previous.Some? && d.previous.value in d.cores && d.previous.value != d.current then Before(DropLink)
      else Idle
    case Some(Rollback) => if d.previous.Some? && d.previous.value in d.cores then Switch(Entry) else Idle
  }

  lemma RecoveredShows(s: Sys)
    ensures var t := Recovered(s);
            && t.disk == s.disk && t.enabled == s.enabled && t.daemon == s.daemon && t.vars == s.vars
            && t.pc == Goes(s.intent, s.disk) && (t.pc == Switch(Entry) ==> s.disk.previous == Some(t.target))
  {
  }
}
