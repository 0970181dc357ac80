/** What every run of the core machine keeps, and when an interrupted switch can be settled. */
module CoreSafety {
  import opened Wrappers
  import opened CoreMachine

  // ---- The invariant -----------------------------------------------------------

  /** The current link agrees with the one an atomic switch would show. */
  ghost predicate LinkInv(d: Disk, p: Past) {
    match d.txn
    case None => d.current == p.logical
    case Some(j) =>
      && j.from != j.to
      && (if j.phase.Committed? then d.current == p.logical == j.to
          else p.logical == j.from && (d.current == j.from || d.current == j.to))
      && (j.phase.Prepared? ==> d.current == j.from)
  }

  /** A snapshot the journal relies on is this transaction's own, or it is gone. */
  ghost predicate SnapshotInv(d: Disk, p: Past) {
    d.txn.Some? && d.txn.value.NeedsSnapshot() ==>
      (d.snap == p.stopped && p.snapSerial == p.serial) || d.snap == Empty
  }

  /** The identity is the one copied at stop, or only the old core has rewritten it since. */
  ghost predicate IdentityBack(s: Sys, j: Journal) {
    j.NeedsSnapshot() ==>
      && s.past.writers <= {j.from}
      && (s.past.writers == {} ==> s.disk.state == s.past.stopped)
  }

  ghost predicate RecoveryInv(s: Sys, at: RecoverPc) {
    var d, v := s.disk, s.vars;
    match at
    case Enter => true
    case LinkPrevious => d.txn == Some(v) && v.phase.Committed?
    case Validate | StopDaemon => d.txn == Some(v) && !v.phase.Committed?
    case LinkBack => d.txn == Some(v) && !v.phase.Committed? && s.daemon.None?
    case CopySnapshot => d.txn == Some(v) && v.NeedsSnapshot() && d.current == v.from && s.daemon.None?
    case MoveState =>
      d.txn == Some(v) && v.NeedsSnapshot() && d.current == v.from && s.daemon.None? && d.spare == s.past.stopped
    case StartOld =>
      d.txn == Some(v) && !v.phase.Committed? && d.current == v.from && s.daemon.None? && IdentityBack(s, v)
    case DropTxn =>
      && d.txn == Some(v)
      && (if v.phase.Committed? then d.previous == Some(v.from)
          else d.current == v.from && IdentityBack(s, v) && (s.daemon.None? || s.daemon == Some(v.from)))
    case DropSnap => d.current == s.past.logical
  }

  ghost predicate SwitchInv(s: Sys, at: SwitchPc) {
    var d, v, p := s.disk, s.vars, s.past;
    match at
    case Entry => d.current == p.logical
    case Prepare => d.current == p.logical == v.from && v.to != v.from && v.phase.Prepared?
    case Stop => d.txn == Some(v) && v.phase.Prepared? && d.current == v.from
    case BackUp => d.txn == Some(v) && v.phase.Prepared? && d.current == v.from && v.had
    case MarkBackedUp =>
      d.txn == Some(v) && v.phase.Prepared? && d.current == v.from &&
      (v.had ==> d.snap == p.stopped && p.snapSerial == p.serial)
    case LinkNew => d.txn == Some(v) && v.phase.BackedUp? && d.current == v.from
    case MarkSwitched => d.txn == Some(v) && v.phase.BackedUp? && d.current == v.to
    case StartNew | Health | Commit => d.txn == Some(v) && v.phase.Switched? && d.current == v.to
    case KeepPrevious => d.txn == Some(v) && v.phase.Committed?
    case EndTxn => d.txn == Some(v) && v.phase.Committed? && d.previous == Some(v.from)
    case EndSnap =>
      d.current == p.logical == v.to && d.previous == Some(v.from) &&
      (d.txn.Some? ==> d.txn == Some(v) && v.phase.Committed?)
  }

  ghost predicate BeforeInv(s: Sys, at: UpdatePc) {
    && s.disk.current == s.past.logical
    && s.intent.Some?
    && (at.Lifecycled? <==> s.intent.value.Lifecycle?)
    && (!at.Lifecycled? <==> s.intent.value.Update?)
    && (at.DropLink? || at.DropTree? ==> s.target != s.disk.current)
  }

  ghost predicate PcInv(s: Sys) {
    match s.pc
    case Idle => s.intent.None?
    case Recover(at) => RecoveryInv(s, at)
    case Before(at) => BeforeInv(s, at)
    case Switch(at) => SwitchInv(s, at)
  }

  ghost predicate Inv(s: Sys) {
    LinkInv(s.disk, s.past) && SnapshotInv(s.disk, s.past) && s.disk.current in s.disk.cores && PcInv(s)
  }

  /** Before the first transaction: no journal, a valid current core, no script running. */
  ghost predicate Fresh(s: Sys) {
    && s.pc.Idle? && s.intent.None? && s.disk.txn.None?
    && s.disk.current in s.disk.cores && s.past.logical == s.disk.current
  }

  lemma RecoverKeeps(s: Sys, at: RecoverPc, f: Fate)
    requires Inv(s) && s.pc == Recover(at) && !f.Died?
    ensures Inv(RecoverStep(s, at, f))
  {
    hide Inv, RecoverStep;
    match at
    case Enter => EnterKeeps(s, f);
    case LinkPrevious | Validate | StopDaemon => UndoBegins(s, at, f);
    case LinkBack | CopySnapshot | MoveState => UndoKeeps(s, at, f);
    case StartOld | DropTxn | DropSnap => UndoEnds(s, at, f);
  }

  lemma EnterKeeps(s: Sys, f: Fate)
    requires Inv(s) && s.pc == Recover(Enter) && !f.Died?
    ensures Inv(RecoverStep(s, Enter, f))
  {
  }

  lemma UndoBegins(s: Sys, at: RecoverPc, f: Fate)
    requires Inv(s) && s.pc == Recover(at) && !f.Died? && (at.LinkPrevious? || at.Validate? || at.StopDaemon?)
    ensures Inv(RecoverStep(s, at, f))
  {
  }

  lemma UndoKeeps(s: Sys, at: RecoverPc, f: Fate)
    requires Inv(s) && s.pc == Recover(at) && !f.Died? && (at.LinkBack? || at.CopySnapshot? || at.MoveState?)
    ensures Inv(RecoverStep(s, at, f))
  {
  }

  lemma UndoEnds(s: Sys, at: RecoverPc, f: Fate)
    requires Inv(s) && s.pc == Recover(at) && !f.Died? && (at.StartOld? || at.DropTxn? || at.DropSnap?)
    ensures Inv(RecoverStep(s, at, f))
  {
  }

  lemma BeforeKeeps(s: Sys, at: UpdatePc, f: Fate)
    requires Inv(s) && s.pc == Before(at) && !f.Died?
    ensures Inv(BeforeStep(s, at, s.intent.value, f))
  {
  }

  lemma SwitchKeeps(s: Sys, at: SwitchPc, f: Fate)
    requires Inv(s) && s.pc == Switch(at) && !f.Died?
    ensures Inv(SwitchStep(s, at, f))
  {
    hide Inv, SwitchStep;
    match at
    case Entry | Prepare | Stop => SwitchBegins(s, at, f);
    case BackUp | MarkBackedUp | LinkNew => SwitchBacksUp(s, at, f);
    case MarkSwitched | StartNew | Health | Commit => SwitchTriesNew(s, at, f);
    case KeepPrevious | EndTxn | EndSnap => SwitchEnds(s, at, f);
  }

  lemma SwitchBegins(s: Sys, at: SwitchPc, f: Fate)
    requires Inv(s) && s.pc == Switch(at) && !f.Died? && (at.Entry? || at.Prepare? || at.Stop?)
    ensures Inv(SwitchStep(s, at, f))
  {
  }

  lemma SwitchBacksUp(s: Sys, at: SwitchPc, f: Fate)
    requires Inv(s) && s.pc == Switch(at) && !f.Died? && (at.BackUp? || at.MarkBackedUp? || at.LinkNew?)
    ensures Inv(SwitchStep(s, at, f))
  {
  }

  lemma SwitchTriesNew(s: Sys, at: SwitchPc, f: Fate)
    requires Inv(s) && s.pc == Switch(at) && !f.Died?
    requires at.MarkSwitched? || at.StartNew? || at.Health? || at.Commit?
    ensures Inv(SwitchStep(s, at, f))
  {
  }

  lemma SwitchEnds(s: Sys, at: SwitchPc, f: Fate)
    requires Inv(s) && s.pc == Switch(at) && !f.Died? && (at.KeepPrevious? || at.EndTxn? || at.EndSnap?)
    ensures Inv(SwitchStep(s, at, f))
  {
  }

  lemma Inductive(s: Sys, e: Event)
    requires Inv(s)
    ensures Inv(Next(s, e))
  {
    match e
    case Begin(_) =>
    case Do(f) =>
      if !f.Died? {
        match s.pc
        case Idle =>
        case Recover(at) => RecoverKeeps(s, at, f);
        case Before(at) => BeforeKeeps(s, at, f);
        case Switch(at) => SwitchKeeps(s, at, f);
      }
    case Kill =>
    case PowerLoss =>
    case DaemonWrites(_) =>
    case DaemonExits =>
  }

  lemma {:induction false} RunKeeps(s: Sys, events: seq<Event>)
    requires Fresh(s) || Inv(s)
    ensures Inv(Run(s, events))
    decreases |events|
  {
    if events != [] {
      Inductive(s, events[0]);
      RunKeeps(Next(s, events[0]), events[1..]);
    }
  }

  // ---- What the journal records --------------------------------------------------

  /** The record agrees with what a switch found as it was entered. */
  predicate Says(j: Journal, found: Sight) {
    j.had == (found.identity != Empty) && j.enabled == found.wanted
  }

  predicate RecordInv(s: Sys) {
    && (s.disk.txn.Some? ==> Says(s.disk.txn.value, s.past.recorded))
    && (s.pc == Switch(Prepare) ==> Says(s.vars, s.past.seen))
    && (s.pc.Switch? && !s.pc.w.Entry? && !s.pc.w.Prepare? ==> Says(s.vars, s.past.recorded))
  }

  /** A step outside a switch neither writes a record nor moves its history. */
  ghost predicate LeavesRecord(s: Sys, t: Sys) {
    && t.past.seen == s.past.seen && t.past.recorded == s.past.recorded
    && (t.disk.txn == s.disk.txn || t.disk.txn.None?)
    && (t.pc.Switch? ==> t.pc.w.Entry?)
  }

  lemma RecoverLeavesRecord(s: Sys, at: RecoverPc, f: Fate)
    ensures LeavesRecord(s, RecoverStep(s, at, f))
  {
  }

  lemma BeforeLeavesRecord(s: Sys, at: UpdatePc, i: Intent, f: Fate)
    ensures LeavesRecord(s, BeforeStep(s, at, i, f))
  {
  }

  /** What a step of a switch does to the record, to its history, and where it leads. */
  ghost predicate MovesRecord(s: Sys, at: SwitchPc, f: Fate, t: Sys) {
    && (t.past.seen != s.past.seen || (at.Entry? && t.pc.Switch?) ==> at.Entry? && t.past.seen == Sight(s.disk.state, s.enabled))
    && t.past.recorded == (if at.Prepare? && f.Lands() then s.past.seen else s.past.recorded)
    && (t.disk.txn == s.disk.txn || t.disk.txn.None? || t.disk.txn == Some(t.vars))
    && (at.Prepare? ==> t.disk.txn == if f.Lands() then Some(t.vars) else s.disk.txn)
    && (!at.Entry? ==> t.vars.had == s.vars.had && t.vars.enabled == s.vars.enabled)
    && (t.disk.txn != s.disk.txn ==> !at.Entry?)
    && (at.Entry? && t.pc.Switch? ==> t.pc == Switch(Prepare) && Says(t.vars, Sight(s.disk.state, s.enabled)))
    && (at.Prepare? && t.pc.Switch? ==> t.pc == Switch(Stop) && f.Lands())
    && (!at.Entry? && t.pc.Switch? ==> !t.pc.w.Entry? && !t.pc.w.Prepare?)
  }

  lemma SwitchMovesRecord(s: Sys, at: SwitchPc, f: Fate)
    ensures MovesRecord(s, at, f, SwitchStep(s, at, f))
  {
  }

  lemma RecordStays(s: Sys, e: Event)
    requires RecordInv(s)
    ensures RecordInv(Next(s, e))
  {
    hide RecoverStep, BeforeStep, SwitchStep;
    if e.Do? && !e.fate.Died? {
      match s.pc
      case Idle =>
      case Recover(at) => RecoverLeavesRecord(s, at, e.fate);
      case Before(at) => if s.intent.Some? { BeforeLeavesRecord(s, at, s.intent.value, e.fate); }
      case Switch(at) => SwitchMovesRecord(s, at, e.fate);
    }
  }

  lemma {:induction false} RunKeepsRecord(s: Sys, events: seq<Event>)
    requires RecordInv(s)
    ensures RecordInv(Run(s, events))
    decreases |events|
  {
    hide RecordInv, Next;
    if events != [] {
      RecordStays(s, events[0]);
      RunKeepsRecord(Next(s, events[0]), events[1..]);
    }
  }

  /** In every reachable state a journal says truly whether an identity existed, and whether the service was
      enabled, when its switch was entered. */
  lemma JournalTellsTheTruth(s0: Sys, events: seq<Event>)
    requires Fresh(s0)
    ensures var s := Run(s0, events);
      s.disk.txn.Some? ==>
        && (s.disk.txn.value.had <==> s.past.recorded.identity != Empty)
        && (s.disk.txn.value.enabled <==> s.past.recorded.wanted)
  {
    RunKeepsRecord(s0, events);
  }

  /** Which steps move that history: the entry of a switch notes what it finds, its first record makes it count. */
  lemma WhatIsFound(s: Sys, e: Event)
    ensures var t := Next(s, e);
      && (t.past.seen != s.past.seen ==>
            s.pc == Switch(Entry) && e.Do? && t.past.seen == Sight(s.disk.state, s.enabled))
      && (t.past.recorded != s.past.recorded ==>
            s.pc == Switch(Prepare) && e.Do? && e.fate.Lands() && t.past.recorded == s.past.seen)
      && (s.pc == Switch(Entry) && t.pc == Switch(Prepare) ==> t.past.seen == Sight(s.disk.state, s.enabled))
      && (s.pc == Switch(Prepare) && t.pc == Switch(Stop) ==> t.past.recorded == s.past.seen)
  {
    hide RecoverStep, BeforeStep, SwitchStep, Says;
    if e.Do? && !e.fate.Died? {
      match s.pc
      case Idle =>
      case Recover(at) => RecoverLeavesRecord(s, at, e.fate);
      case Before(at) => if s.intent.Some? { BeforeLeavesRecord(s, at, s.intent.value, e.fate); }
      case Switch(at) => SwitchMovesRecord(s, at, e.fate);
    }
  }

  // ---- Atomicity ---------------------------------------------------------------

  /** Whenever no journal exists, `current` is what an atomic switch would show, and
      that value moves only when the record `committed` lands, from old to new. */
  lemma SwitchIsAtomic(s0: Sys, events: seq<Event>, e: Event)
    requires Fresh(s0)
    ensures var s := Run(s0, events);
      var t := Next(s, e);
      && (t.disk.txn.None? ==> t.disk.current == t.past.logical)
      && (t.past.logical != s.past.logical ==>
            && s.pc == Switch(Commit) && e.Do? && e.fate.Lands()
            && t.disk.txn == Some(s.vars.(phase := Committed))
            && s.past.logical == s.vars.from && t.past.logical == s.vars.to)
  {
    RunKeeps(s0, events);
    Inductive(Run(s0, events), e);
  }

  /** The journal is removed at two program points only. */
  lemma WhoRemovesTheJournal(s: Sys, e: Event)
    requires s.disk.txn.Some? && Next(s, e).disk.txn.None?
    ensures e.Do? && e.fate.Lands() && (s.pc == Recover(DropTxn) || s.pc == Switch(EndTxn))
  {
  }

  /** A step that removes the journal `j` leaves one of exactly two outcomes. When there was an identity as the
      switch was entered, and it got to its snapshot, the undone switch leaves the identity copied at stop or
      what the old daemon has written since. */
  ghost predicate Settled(j: Journal, t: Sys) {
    if j.phase.Committed? then t.disk.current == j.to && t.disk.previous == Some(j.from)
    else
      && t.disk.current == j.from
      && (t.daemon.None? || t.daemon == Some(j.from))
      && (t.past.recorded.identity != Empty && !j.phase.Prepared? ==>
            t.past.writers <= {j.from} && (t.past.writers == {} ==> t.disk.state == t.past.stopped))
  }

  /** From any crash point, and through any number of failed or killed recoveries, the step that
      finally removes the journal leaves the new core with the old one as `previous` exactly when
      `committed` was written, and otherwise the old core with the identity copied at stop. */
  lemma InterruptedSwitchSettles(s0: Sys, events: seq<Event>, e: Event)
    requires Fresh(s0)
    requires Run(s0, events).disk.txn.Some? && Next(Run(s0, events), e).disk.txn.None?
    ensures Settled(Run(s0, events).disk.txn.value, Next(Run(s0, events), e))
  {
    RunKeeps(s0, events);
    JournalTellsTheTruth(s0, events);
    WhoRemovesTheJournal(Run(s0, events), e);
  }

  /** Scripts write the identity at one point only, with the snapshot the open transaction took at
      its own stop: never after `committed`, never when no identity existed, never a leftover. */
  lemma WhoWritesTheIdentity(s0: Sys, events: seq<Event>, e: Event)
    requires Fresh(s0)
    ensures var s := Run(s0, events);
      Next(s, e).disk.state != s.disk.state ==>
        || (e.DaemonWrites? && s.daemon.Some?)
        || (s.pc == Recover(MoveState) && s.disk.txn.Some? && s.past.recorded.identity != Empty
            && (s.disk.txn.value.phase.BackedUp? || s.disk.txn.value.phase.Switched?)
            && Next(s, e).disk.state == s.past.stopped)
  {
    hide Run, Inv, RecoverStep, SwitchStep, BeforeStep;
    JournalTellsTheTruth(s0, events);
    RunKeeps(s0, events);
    var s := Run(s0, events);
    if e.Do? && !e.fate.Died? {
      match s.pc
      case Idle =>
      case Recover(at) => if RecoverStep(s, at, e.fate).disk.state != s.disk.state { WhatRecoverWrites(s, at, e.fate); }
      case Before(at) => if s.intent.Some? { WhatUpdatesWrite(s, at, s.intent.value, e.fate); }
      case Switch(at) => WhatSwitchWrites(s, at, e.fate);
    }
  }

  lemma WhatRecoverWrites(s: Sys, at: RecoverPc, f: Fate)
    requires Inv(s) && s.pc == Recover(at) && RecoverStep(s, at, f).disk.state != s.disk.state
    ensures at.MoveState? && s.disk.txn.Some? && s.disk.txn.value.NeedsSnapshot()
    ensures RecoverStep(s, at, f).disk.state == s.past.stopped
  {
  }

  lemma WhatUpdatesWrite(s: Sys, at: UpdatePc, i: Intent, f: Fate)
    ensures BeforeStep(s, at, i, f).disk.state == s.disk.state
  {
  }

  lemma WhatSwitchWrites(s: Sys, at: SwitchPc, f: Fate)
    ensures SwitchStep(s, at, f).disk.state == s.disk.state
  {
  }

  lemma RestoredSnapshotIsCurrent(s0: Sys, events: seq<Event>)
    requires Fresh(s0)
    ensures var s := Run(s0, events);
      s.pc == Recover(CopySnapshot) && s.disk.snap != Empty ==>
        s.past.snapSerial == s.past.serial && s.disk.snap == s.past.stopped
  {
    RunKeeps(s0, events);
  }

  // ---- Which interrupted transactions can still be settled -----------------------

  /** What a caller can check on disk: the old core is there, and the snapshot if it is needed. */
  predicate Recoverable(d: Disk) {
    d.txn.Some? ==>
      d.txn.value.from in d.cores && (d.txn.value.NeedsSnapshot() ==> d.snap != Empty)
  }

  function Faultless(n: nat): seq<Event> {
    if n == 0 then [] else [Do(Done)] + Faultless(n - 1)
  }

  /** Steps of a recovery that meets no further fault, up to the removal of the journal. */
  function RecoverySteps(j: Journal): nat {
    if j.phase.Committed? then 3
    else 5 + (if j.NeedsSnapshot() then 2 else 0) + (if j.enabled then 1 else 0)
  }

  lemma Unroll(s: Sys, e: Event, rest: seq<Event>)
    ensures Run(s, [e] + rest) == Run(Next(s, e), rest)
  {
  }

  lemma Steps(s: Sys, n: nat, k: nat) returns (t: Sys)
    requires k <= n && k <= 3
    ensures Run(s, Faultless(n)) == Run(t, Faultless(n - k))
    decreases n
    ensures t == if k == 0 then s else if k == 1 then Step(s, Done) else if k == 2 then Step(Step(s, Done), Done)
                 else Step(Step(Step(s, Done), Done), Done)
  {
    t := s;
    if k > 0 {
      Unroll(s, Do(Done), Faultless(n - 1));
      t := Steps(Step(s, Done), n - 1, k - 1);
    }
  }

  /** Before the commit: check, stop, point back, then the identity if it is needed, and the old service. */
  lemma UndoSucceeds(s: Sys, n: nat)
    requires s.pc == Recover(Validate) && s.disk.txn == Some(s.vars) && !s.vars.phase.Committed? && Recoverable(s.disk)
    requires n == 4 + (if s.vars.NeedsSnapshot() then 2 else 0) + (if s.vars.enabled then 1 else 0)
    ensures Run(s, Faultless(n)).disk.txn.None?
  {
    var t := Steps(s, n, 3);
    if s.vars.NeedsSnapshot() {
      t := Steps(t, n - 3, 2);
      RestEnds(t, n - 5);
    } else {
      RestEnds(t, n - 3);
    }
  }

  lemma RestEnds(s: Sys, n: nat)
    requires s.pc == Recover(if s.vars.enabled then StartOld else DropTxn) && n == if s.vars.enabled then 2 else 1
    ensures Run(s, Faultless(n)).disk.txn.None?
  {
    hide Run, RecoverStep;
    if s.vars.enabled {
      var t := Steps(s, 2, 1);
      StartLeads(s);
      DropEnds(t);
    } else {
      DropEnds(s);
    }
  }

  lemma StartLeads(s: Sys)
    requires s.pc == Recover(StartOld)
    ensures Step(s, Done).pc == Recover(DropTxn)
  {
  }

  lemma DropEnds(s: Sys)
    requires s.pc == Recover(DropTxn)
    ensures Run(s, Faultless(1)).disk.txn.None?
  {
    assert [Do(Done)] + Faultless(0) == Faultless(1) && Faultless(0) == [];
    Unroll(s, Do(Done), []);
  }

  /** A faultless recovery of an idle, recoverable disk removes the journal. */
  lemma RecoverySucceeds(s: Sys, i: Intent)
    requires s.pc.Idle? && s.disk.txn.Some? && Recoverable(s.disk)
    ensures Run(s, [Begin(i)] + Faultless(RecoverySteps(s.disk.txn.value))).disk.txn.None?
  {
    var n := RecoverySteps(s.disk.txn.value);
    Unroll(s, Begin(i), Faultless(n));
    if s.disk.txn.value.phase.Committed? {
      var t := Steps(Next(s, Begin(i)), n, 3);
    } else {
      var t := Steps(Next(s, Begin(i)), n, 1);
      UndoSucceeds(t, n - 1);
    }
  }

  /** The closed set an unrecoverable disk lives in: every recovery gives up again. */
  ghost predicate Wedged(s: Sys) {
    && s.disk.txn.Some?
    && !Recoverable(s.disk)
    && (match s.pc
        case Idle | Recover(Enter) => true
        case Recover(LinkPrevious) => s.vars == s.disk.txn.value && s.vars.phase.Committed?
        case Recover(Validate) => s.vars == s.disk.txn.value && !s.vars.phase.Committed?
        case Recover(StopDaemon) | Recover(LinkBack) | Recover(CopySnapshot) =>
          s.vars == s.disk.txn.value && !s.vars.phase.Committed? && s.vars.from in s.disk.cores
        case _ => false)
  }

  lemma WedgedStays(s: Sys, e: Event)
    requires Wedged(s)
    ensures Wedged(Next(s, e)) && Next(s, e).disk.txn == s.disk.txn
  {
  }

  lemma {:induction false} WedgedForever(s: Sys, events: seq<Event>)
    requires Wedged(s)
    ensures Run(s, events).disk.txn == s.disk.txn
    decreases |events|
  {
    if events != [] {
      WedgedStays(s, events[0]);
      WedgedForever(Next(s, events[0]), events[1..]);
    }
  }

  /** A crashed transaction can still be settled if and only if its old core directory is present
      and, when its phase needs the snapshot, the snapshot is not empty. */
  lemma SettleableExactlyWhenRecoverable(s: Sys)
    requires s.pc.Idle? && s.disk.txn.Some?
    ensures Recoverable(s.disk) <==> exists events :: Run(s, events).disk.txn.None?
  {
    if Recoverable(s.disk) {
      RecoverySucceeds(s, Rollback);
    } else {
      forall events ensures Run(s, events).disk.txn.Some? {
        WedgedForever(s, events);
      }
    }
  }

  // ---- Cleanup -------------------------------------------------------------------

  /** `rm -f` could not remove the journal, and its status is ignored. */
  predicate RefusedDrop(s: Sys, e: Event) {
    (s.pc == Recover(DropTxn) || s.pc == Switch(EndTxn)) && e.Do? && e.fate.Refused?
  }

  predicate NoRefusedDrop(s: Sys, events: seq<Event>)
    decreases |events|
  {
    events != [] ==> !RefusedDrop(s, events[0]) && NoRefusedDrop(Next(s, events[0]), events[1..])
  }

  /** Program points a script reaches only once the last journal should be gone. */
  predicate AfterJournal(pc: Pc) {
    match pc
    case Before(_) => true
    case Switch(at) => at.Entry? || at.Prepare? || at.EndSnap?
    case Recover(at) => at.DropSnap?
    case Idle => false
  }

  /** The cores of a live journal are present, and nothing is cleaned up while one is live. */
  ghost predicate JournalKept(s: Sys) {
    var d := s.disk;
    && (d.txn.Some? ==>
          && d.txn.value.from in d.cores && d.txn.value.to in d.cores
          && (d.txn.value.NeedsSnapshot() ==> d.snap == s.past.stopped))
    && (AfterJournal(s.pc) ==> d.txn.None?)
    && (s.pc == Switch(Prepare) ==> s.vars.from in d.cores && s.vars.to in d.cores)
  }

  lemma RecoverKeepsJournal(s: Sys, at: RecoverPc, f: Fate)
    requires Inv(s) && JournalKept(s) && !RefusedDrop(s, Do(f)) && s.pc == Recover(at) && !f.Died?
    ensures JournalKept(RecoverStep(s, at, f))
  {
  }

  lemma SwitchKeepsJournal(s: Sys, at: SwitchPc, f: Fate)
    requires Inv(s) && JournalKept(s) && !RefusedDrop(s, Do(f)) && s.pc == Switch(at) && !f.Died?
    ensures JournalKept(SwitchStep(s, at, f))
  {
    hide JournalKept, Inv, SwitchStep, RefusedDrop;
    if at.Entry? || at.Prepare? || at.Stop? || at.BackUp? || at.MarkBackedUp? || at.LinkNew? {
      SwitchKeepsJournalEarly(s, at, f);
    } else {
      SwitchKeepsJournalLate(s, at, f);
    }
  }

  lemma SwitchKeepsJournalEarly(s: Sys, at: SwitchPc, f: Fate)
    requires Inv(s) && JournalKept(s) && s.pc == Switch(at) && !f.Died?
    requires at.Entry? || at.Prepare? || at.Stop? || at.BackUp? || at.MarkBackedUp? || at.LinkNew?
    ensures JournalKept(SwitchStep(s, at, f))
  {
  }

  lemma SwitchKeepsJournalLate(s: Sys, at: SwitchPc, f: Fate)
    requires Inv(s) && JournalKept(s) && !RefusedDrop(s, Do(f)) && s.pc == Switch(at) && !f.Died?
    requires !(at.Entry? || at.Prepare? || at.Stop? || at.BackUp? || at.MarkBackedUp? || at.LinkNew?)
    ensures JournalKept(SwitchStep(s, at, f))
  {
  }

  lemma JournalStays(s: Sys, e: Event)
    requires Inv(s) && JournalKept(s) && !RefusedDrop(s, e)
    ensures JournalKept(Next(s, e))
  {
    if e.Do? && !e.fate.Died? {
      match s.pc
      case Recover(at) => RecoverKeepsJournal(s, at, e.fate);
      case Switch(at) => SwitchKeepsJournal(s, at, e.fate);
      case _ =>
    }
  }

  lemma {:induction false} CleanupKeepsTheJournal(s: Sys, events: seq<Event>)
    requires Inv(s) && JournalKept(s) && NoRefusedDrop(s, events)
    ensures JournalKept(Run(s, events)) && Inv(Run(s, events))
    decreases |events|
  {
    if events != [] {
      Inductive(s, events[0]);
      JournalStays(s, events[0]);
      CleanupKeepsTheJournal(Next(s, events[0]), events[1..]);
    }
  }

  /** Cleanup never removes the current core; as long as no removal of the journal was refused, it
      never runs beside a journal, and every crashed transaction stays recoverable unless the
      identity was already empty when it was copied. */
  lemma CleanupIsSafe(s0: Sys, events: seq<Event>)
    requires Fresh(s0)
    ensures var s := Run(s0, events);
      && (s.pc == Before(DropTree) ==> s.target != s.disk.current)
      && s.disk.current in s.disk.cores
      && (NoRefusedDrop(s0, events) ==>
            && (s.pc == Before(DropTree) ==> s.disk.txn.None?)
            && (s.past.stopped != Empty ==> Recoverable(s.disk)))
  {
    RunKeeps(s0, events);
    if NoRefusedDrop(s0, events) {
      CleanupKeepsTheJournal(s0, events);
    }
  }

  /** What a script knows of a journal its own recovery left: the core to remove is the one a committed journal
      keeps as previous, and is not the one an undone switch went back to. */
  ghost predicate LeftBehind(s: Sys, j: Journal) {
    if j.phase.Committed? then s.target == j.from else s.disk.current == j.from && s.target != j.from
  }

  ghost predicate CleanupInv(s: Sys) {
    var d := s.disk;
    match s.pc
    case Recover(Enter) => s.intent.Some? ==> !s.past.undropped
    case Recover(DropSnap) =>
      && (d.txn.Some? <==> s.past.undropped)
      && (d.txn.Some? ==> if d.txn.value.phase.Committed? then d.previous == Some(d.txn.value.from)
                          else d.current == d.txn.value.from)
    case Before(at) =>
      && (d.txn.Some? <==> s.past.undropped)
      && (d.txn.Some? && (at.DropLink? || at.DropTree?) ==> LeftBehind(s, d.txn.value))
    case _ => true
  }

  lemma CleanupStep(s: Sys, e: Event)
    requires Inv(s) && CleanupInv(s)
    ensures CleanupInv(Next(s, e))
  {
    hide RecoverStep, SwitchStep, BeforeStep, Inv, CleanupInv;
    IdleIsClean(s);
    match e
    case Begin(i) => BeginIsClean(s, i);
    case Do(f) =>
      if f.Died? {
        IdleIsClean(Next(s, e));
      } else {
        match s.pc
        case Idle =>
        case Recover(at) => RecoverCleanup(s, at, f);
        case Before(at) => if s.intent.Some? { BeforeCleanup(s, at, f); } else { IdleIsClean(Next(s, e)); }
        case Switch(at) => SwitchCleanup(s, at, f);
      }
    case Kill => IdleIsClean(Next(s, e));
    case PowerLoss => IdleIsClean(Next(s, e));
    case DaemonWrites(_) => SameIsClean(s, Next(s, e));
    case DaemonExits => SameIsClean(s, Next(s, e));
  }

  lemma IdleIsClean(s: Sys)
    ensures s.pc.Idle? ==> CleanupInv(s)
  {
  }

  lemma BeginIsClean(s: Sys, i: Intent)
    requires CleanupInv(s)
    ensures CleanupInv(Next(s, Begin(i)))
  {
  }

  lemma SameIsClean(s: Sys, t: Sys)
    requires CleanupInv(s) && t.pc == s.pc && t.intent == s.intent && t.target == s.target
    requires t.past.undropped == s.past.undropped && t.disk == s.disk.(state := t.disk.state)
    ensures CleanupInv(t)
  {
  }

  lemma RecoverCleanup(s: Sys, at: RecoverPc, f: Fate)
    requires Inv(s) && CleanupInv(s) && s.pc == Recover(at) && !f.Died?
    ensures CleanupInv(RecoverStep(s, at, f))
  {
  }

  lemma BeforeCleanup(s: Sys, at: UpdatePc, f: Fate)
    requires Inv(s) && CleanupInv(s) && s.pc == Before(at) && s.intent.Some? && !f.Died?
    ensures CleanupInv(BeforeStep(s, at, s.intent.value, f))
  {
  }

  lemma SwitchCleanup(s: Sys, at: SwitchPc, f: Fate)
    requires s.pc == Switch(at) && !f.Died?
    ensures CleanupInv(SwitchStep(s, at, f))
  {
  }

  lemma {:induction false} RunKeepsCleanup(s: Sys, events: seq<Event>)
    requires Inv(s) && CleanupInv(s)
    ensures Inv(Run(s, events)) && CleanupInv(Run(s, events))
    decreases |events|
  {
    hide Inv, CleanupInv, Next;
    if events != [] {
      Inductive(s, events[0]);
      CleanupStep(s, events[0]);
      RunKeepsCleanup(Next(s, events[0]), events[1..]);
    }
  }

  predicate Names(txn: Option<Journal>, c: Core) {
    txn.Some? && (c == txn.value.from || c == txn.value.to)
  }

  /** When cleanup is about to remove a core, a journal is live exactly when the recovery of this same script
      failed to remove it, and it names that core exactly when it is committed or `previous` was its new core. */
  lemma CleanupExactly(s0: Sys, events: seq<Event>)
    requires Fresh(s0) && Run(s0, events).pc == Before(DropTree)
    ensures var s := Run(s0, events);
      && (s.disk.txn.Some? <==> s.past.undropped)
      && (Names(s.disk.txn, s.target) <==>
            s.past.undropped && (s.disk.txn.value.phase.Committed? || s.target == s.disk.txn.value.to))
      && (s.past.undropped && s.disk.txn.value.phase.Committed? ==> s.target == s.disk.txn.value.from)
  {
    RunKeepsCleanup(s0, events);
  }

  /** That mark is set by one step of the running script: a removal of the journal that does not take effect. */
  lemma WhoLeavesTheJournal(s: Sys, e: Event)
    ensures Next(s, e).past.undropped != s.past.undropped ==>
              (e.Begin? && s.pc.Idle? && !Next(s, e).past.undropped)
              || (e.Do? && s.pc == Recover(DropTxn) && Next(s, e).past.undropped == !e.fate.Lands())
  {
  }

  lemma Play(s: Sys, a: Event, b: Event, c: Event, d: Event, rest: seq<Event>)
    ensures Run(s, [a, b, c, d] + rest) == Run(Next(Next(Next(Next(s, a), b), c), d), rest)
  {
    hide Next, Run;
    Unroll(Next(Next(Next(s, a), b), c), d, rest);
    Unroll(Next(Next(s, a), b), c, [d] + rest);
    assert [b, c, d] + rest == [b] + ([c] + ([d] + rest));
    Unroll(Next(s, a), b, [c] + ([d] + rest));
    assert [a, b, c, d] + rest == [a] + ([b, c, d] + rest);
    Unroll(s, a, [b, c, d] + rest);
  }

  const NOTHING := Sight(Empty, false)

  /** A core that runs alone, and the same machine once core 2 is linked but not yet committed. */
  ghost function Alone(cores: set<Core>): Sys {
    Sys(Disk(cores, 1, None, None, Empty, Empty, Empty), false, None, Idle, None,
        Journal(Prepared, 1, 2, false, false), 0, Past(1, 0, 0, Empty, {}, false, NOTHING, NOTHING))
  }

  ghost function Linked(cores: set<Core>): Sys {
    var j := Journal(BackedUp, 1, 2, false, false);
    Sys(Disk(cores, 2, None, Some(j), Empty, Empty, Empty), false, None, Switch(MarkSwitched), Some(Update(2, false, false)),
        j, 2, Past(1, 1, 0, Empty, {}, false, NOTHING, NOTHING))
  }

  lemma FirstHalf(cores: set<Core>, rest: seq<Event>)
    requires 1 in cores && 2 in cores
    ensures Run(Alone(cores), [Begin(Update(2, false, false)), Do(Done), Do(Done), Do(Done)]
                              + ([Do(Done), Do(Done), Do(Done), Do(Done)] + rest)) == Run(Linked(cores), rest)
  {
    var s, ok := Alone(cores), Do(Done);
    Play(s, Begin(Update(2, false, false)), ok, ok, ok, [ok, ok, ok, ok] + rest);
    assert cores + {2} == cores;
    var t := s.(pc := Switch(Prepare), intent := Some(Update(2, false, false)), target := 2);
    assert Next(Next(Next(Next(s, Begin(Update(2, false, false))), ok), ok), ok) == t;
    Play(t, ok, ok, ok, ok, rest);
  }

  /** The removal of the committed journal is refused, and a second script begins: an update to core 3
      that is short of space. */
  lemma SecondHalf(cores: set<Core>, rest: seq<Event>)
    requires 1 in cores && 2 in cores
    ensures var j := Journal(Committed, 1, 2, false, false);
      Run(Linked(cores), [Do(Done), Do(Done), Do(Done), Do(Fate.Refused(Empty))]
                         + ([Do(Done), Begin(Update(3, true, true)), Do(Done), Do(Done)] + rest))
      == Run(Sys(Disk(cores, 2, Some(1), Some(j), Empty, Empty, Empty), false, None, Recover(DropTxn),
                 Some(Update(3, true, true)), j, 2, Past(2, 1, 0, Empty, {}, false, NOTHING, NOTHING)), rest)
  {
    var s, ok, no := Linked(cores), Do(Done), Do(Fate.Refused(Empty));
    Play(s, ok, ok, ok, no, [ok, Begin(Update(3, true, true)), ok, ok] + rest);
    var j := Journal(Committed, 1, 2, false, false);
    var t := s.(pc := Switch(EndSnap), vars := j, disk := s.disk.(previous := Some(1), txn := Some(j)),
                past := s.past.(logical := 2));
    assert Next(Next(Next(Next(s, ok), ok), ok), no) == t;
    Play(t, ok, Begin(Update(3, true, true)), ok, ok, rest);
  }

  /** The guarantee is lost exactly there: if the second removal is refused too, the update deletes
      the core the journal still names, and no later run of any script can settle that journal. */
  lemma RefusedDropCanWedge() returns (s0: Sys, events: seq<Event>)
    ensures Fresh(s0) && Run(s0, events).pc.Idle? && Wedged(Run(s0, events))
  {
    var ok, no, cores := Do(Done), Do(Fate.Refused(Empty)), {1, 2};
    s0 := Alone(cores);
    var wedge := [no, ok, ok, ok] + [Kill];
    var commit := [ok, ok, ok, no] + ([ok, Begin(Update(3, true, true)), ok, ok] + wedge);
    events := [Begin(Update(2, false, false)), ok, ok, ok] + ([ok, ok, ok, ok] + commit);
    FirstHalf(cores, commit);
    SecondHalf(cores, wedge);
    var j := Journal(Committed, 1, 2, false, false);
    var s := Sys(Disk(cores, 2, Some(1), Some(j), Empty, Empty, Empty), false, None, Recover(DropTxn),
                 Some(Update(3, true, true)), j, 2, Past(2, 1, 0, Empty, {}, false, NOTHING, NOTHING));
    Play(s, no, ok, ok, ok, [Kill]);
  }
}
