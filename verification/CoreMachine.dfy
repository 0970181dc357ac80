/** The journalled core switch as a state machine: every durable write of
    ts_core_recover, ts_core_switch, ts_core_space and ts_core_update is one
    step, a kill or a power loss may fall between any two of them, and the
    running daemon may rewrite the identity file at any moment. */
module CoreMachine {
  import opened Wrappers

  /** A directory under cores/; the scripts only compare these names. */
  type Core = int

  /** The contents of an identity file; `Empty` stands for a missing or empty one. */
  type Bytes = int

  const Empty: Bytes := 0

  datatype Phase = Prepared | BackedUp | Switched | Committed

  datatype Journal = Journal(phase: Phase, from: Core, to: Core, had: bool, enabled: bool) {
    /** A rollback from here must put the identity snapshot back. */
    predicate NeedsSnapshot() {
      had && (phase.BackedUp? || phase.Switched?)
    }
  }

  /** The outcome of one step. `left` is what an interrupted copy leaves behind. */
  datatype Fate = Done | Refused(left: Bytes) | Late | Died(left: Bytes) {
    predicate Lands() { Done? || Late? }

    function Copied(source: Bytes): Bytes {
      if Lands() then source else left
    }
  }

  /** An update may find storage `low`, and that removing the previous core makes it fit. */
  datatype Intent =
    | Lifecycle(run: bool, enable: bool)
    | Update(to: Core, low: bool, fits: bool)
    | Rollback

  /** Program points of ts_core_recover, of the steps before a switch, and of ts_core_switch. */
  datatype RecoverPc = Enter | LinkPrevious | Validate | StopDaemon | LinkBack | CopySnapshot | MoveState
                     | StartOld | DropTxn | DropSnap
  datatype UpdatePc = Lifecycled | DropLink | DropTree | Install
  datatype SwitchPc = Entry | Prepare | Stop | BackUp | MarkBackedUp | LinkNew | MarkSwitched
                    | StartNew | Health | Commit | KeepPrevious | EndTxn | EndSnap

  datatype Pc = Idle | Recover(r: RecoverPc) | Before(u: UpdatePc) | Switch(w: SwitchPc)

  datatype Event =
    | Begin(intent: Intent)
    | Do(fate: Fate)
    | Kill
    | PowerLoss
    | DaemonWrites(content: Bytes)
    | DaemonExits

  /** The files the transaction works on. A link is refused when its target directory is missing. */
  datatype Disk = Disk(cores: set<Core>, current: Core, previous: Option<Core>,
                       txn: Option<Journal>, snap: Bytes, spare: Bytes, state: Bytes)
  {
    function Link(f: Fate, target: Core): Disk {
      if f.Lands() && target in cores then this.(current := target) else this
    }

    function LinkPrevious(f: Fate, target: Core): Disk {
      if f.Lands() && target in cores then this.(previous := Some(target)) else this
    }

    function Write(f: Fate, j: Journal): Disk {
      if f.Lands() then this.(txn := Some(j)) else this
    }
  }

  /** What a switch finds as it is entered: the identity file and the setting of the service. */
  datatype Sight = Sight(identity: Bytes, wanted: bool)

  /** History, read by no step: the current link an atomic switch would show, the number of
      transactions begun and the one that took the snapshot, the identity copied at stop,
      the cores whose daemon wrote the identity since it was last put back, whether the recovery
      of the running script failed to remove a journal, what the last switch to be entered found, and what
      the one found that opened the last journal. */
  datatype Past = Past(logical: Core, serial: nat, snapSerial: nat, stopped: Bytes, writers: set<Core>, undropped: bool,
                       seen: Sight, recorded: Sight)

  datatype Sys = Sys(disk: Disk, enabled: bool, daemon: Option<Core>,
                     pc: Pc, intent: Option<Intent>, vars: Journal, target: Core, past: Past)

  // ---- Steps -----------------------------------------------------------------

  function End(s: Sys): Sys {
    s.(pc := Idle, intent := None)
  }

  /** `ts_core_recover; return 1` inside ts_core_switch. */
  function Fail(s: Sys): Sys {
    s.(pc := Recover(Enter), intent := None)
  }

  /** Go on after a step that reported success, otherwise stop the script. */
  function OnDone(s: Sys, f: Fate, next: Pc): Sys {
    if f.Done? then s.(pc := next) else End(s)
  }

  /** Go on after a step that reported success, otherwise roll the switch back. */
  function OrFail(s: Sys, f: Fate, next: SwitchPc): Sys {
    if f.Done? then s.(pc := Switch(next)) else Fail(s)
  }

  /** Where the script goes on once ts_core_recover has returned 0. */
  function Recovered(s: Sys): Sys {
    var d := s.disk;
    match s.intent
    case None => End(s)
    case Some(Lifecycle(_, _)) => s.(pc := Before(Lifecycled))
    case Some(Update(to, low, _)) =>
      if d.current !in d.cores || d.current == to then End(s)
      else if !low then s.(pc := Before(Install), target := to)
      else if d.previous.Some? && d.previous.value in d.cores && d.previous.value != d.current then
        s.(pc := Before(DropLink), target := d.previous.value)
      else End(s)
    case Some(Rollback) =>
      if d.previous.Some? && d.previous.value in d.cores then s.(pc := Switch(Entry), target := d.previous.value)
      else End(s)
  }

  function AfterRestore(s: Sys): Sys {
    s.(pc := Recover(if s.vars.enabled then StartOld else DropTxn))
  }

  function StopIt(s: Sys, f: Fate): Sys {
    if f.Lands() then s.(daemon := None) else s
  }

  function StartIt(s: Sys, f: Fate): Sys {
    if f.Lands() && s.daemon.None? then s.(daemon := Some(s.disk.current)) else s
  }

  function DropTxnFile(s: Sys, f: Fate): Sys {
    if f.Lands() then s.(disk := s.disk.(txn := None)) else s
  }

  function DropSnapFile(s: Sys, f: Fate): Sys {
    if f.Lands() then s.(disk := s.disk.(snap := Empty)) else s
  }

  /** ts_core_journal: the whole record is renamed into place. */
  function Mark(s: Sys, f: Fate, phase: Phase): Sys {
    if f.Lands() then
      var j := s.vars.(phase := phase);
      s.(vars := j, disk := s.disk.Write(f, j))
    else s
  }

  function RecoverStep(s: Sys, at: RecoverPc, f: Fate): Sys {
    var d := s.disk;
    match at
    case Enter =>
      if d.txn.None? then Recovered(s)
      else if !f.Done? then End(s)
      else s.(vars := d.txn.value, pc := Recover(if d.txn.value.phase.Committed? then LinkPrevious else Validate))
    case LinkPrevious =>
      var t := s.(disk := d.LinkPrevious(f, s.vars.from));
      if s.vars.from in d.cores then OnDone(t, f, Recover(DropTxn)) else End(t)
    case Validate =>
      if s.vars.from in d.cores then OnDone(s, f, Recover(StopDaemon)) else End(s)
    case StopDaemon => OnDone(StopIt(s, f), f, Recover(LinkBack))
    case LinkBack =>
      var t := s.(disk := d.Link(f, s.vars.from));
      if !f.Done? || s.vars.from !in d.cores then End(t)
      else if s.vars.NeedsSnapshot() then t.(pc := Recover(CopySnapshot))
      else AfterRestore(t)
    case CopySnapshot =>
      if d.snap == Empty then End(s)
      else OnDone(s.(disk := d.(spare := f.Copied(d.snap))), f, Recover(MoveState))
    case MoveState =>
      var t := if f.Lands() then s.(disk := d.(state := d.spare), past := s.past.(writers := {})) else s;
      if f.Done? then AfterRestore(t) else End(t)
    case StartOld => OnDone(StartIt(s, f), f, Recover(DropTxn))
    case DropTxn =>
      var t := DropTxnFile(s, f);
      t.(pc := Recover(DropSnap), past := t.past.(undropped := !f.Lands()))
    case DropSnap => Recovered(DropSnapFile(s, f))
  }

  /** A lifecycle request, or ts_core_space and the installation that precede a switch. */
  function BeforeStep(s: Sys, at: UpdatePc, i: Intent, f: Fate): Sys {
    var d := s.disk;
    match (at, i)
    case (Lifecycled, Lifecycle(run, enable)) =>
      if !f.Lands() then End(s)
      else End((if run then StartIt(s, f) else StopIt(s, f)).(enabled := enable))
    case (DropLink, Update(_, _, _)) =>
      (if f.Lands() then s.(disk := d.(previous := None)) else s).(pc := Before(DropTree))
    case (DropTree, Update(to, _, fits)) =>
      // the status of rm is not looked at; the free space is measured again
      var t := if f.Lands() then s.(disk := d.(cores := d.cores - {s.target})) else s;
      if fits then t.(target := to, pc := Before(Install)) else End(t)
    case (Install, Update(to, _, _)) =>
      var t := if f.Lands() then s.(disk := d.(cores := d.cores + {to})) else s;
      OnDone(t.(target := to), f, Switch(Entry))
    case _ => End(s)
  }

  function SwitchStep(s: Sys, at: SwitchPc, f: Fate): Sys {
    var d := s.disk;
    match at
    case Entry =>
      if d.current !in d.cores || s.target == d.current || s.target !in d.cores then End(s)
      else
        var t := s.(vars := Journal(Prepared, d.current, s.target, d.state != Empty, s.enabled));
        OnDone(t.(past := s.past.(seen := Sight(d.state, s.enabled))), f, Switch(Prepare))
    case Prepare =>
      var t := if f.Lands() then Mark(s, f, Prepared).(past := s.past.(serial := s.past.serial + 1, recorded := s.past.seen)) else s;
      OnDone(t, f, Switch(Stop))
    case Stop => OrFail(StopIt(s, f), f, if s.vars.had then BackUp else MarkBackedUp)
    case BackUp =>
      var t := s.(disk := d.(snap := f.Copied(d.state)));
      OrFail(if f.Done? then t.(past := s.past.(stopped := d.state, snapSerial := s.past.serial)) else t, f, MarkBackedUp)
    case MarkBackedUp => OrFail(Mark(s, f, BackedUp), f, LinkNew)
    case LinkNew =>
      var t := s.(disk := d.Link(f, s.vars.to));
      if s.vars.to in d.cores then OrFail(t, f, MarkSwitched) else Fail(t)
    case MarkSwitched => OrFail(Mark(s, f, Switched), f, if s.vars.enabled then StartNew else Commit)
    case StartNew => OrFail(StartIt(s, f), f, Health)
    case Health => OrFail(s, f, Commit)
    case Commit =>
      var t := Mark(s, f, Committed);
      OnDone(if f.Lands() then t.(past := s.past.(logical := s.vars.to)) else t, f, Switch(KeepPrevious))
    case KeepPrevious =>
      var t := s.(disk := d.LinkPrevious(f, s.vars.from));
      if s.vars.from in d.cores then OnDone(t, f, Switch(EndTxn)) else End(t)
    case EndTxn => DropTxnFile(s, f).(pc := Switch(EndSnap))
    case EndSnap => End(DropSnapFile(s, f))
  }

  /** The script dies inside a step: only a copy can be left half written. */
  function Torn(s: Sys, left: Bytes): Sys {
    var d := s.disk;
    if s.pc == Switch(BackUp) then s.(disk := d.(snap := left))
    else if s.pc == Recover(CopySnapshot) && d.snap != Empty then s.(disk := d.(spare := left))
    else s
  }

  function Step(s: Sys, f: Fate): Sys {
    if f.Died? then End(Torn(s, f.left))
    else match s.pc
      case Idle => s
      case Recover(at) => RecoverStep(s, at, f)
      case Before(at) => if s.intent.Some? then BeforeStep(s, at, s.intent.value, f) else End(s)
      case Switch(at) => SwitchStep(s, at, f)
  }

  function Next(s: Sys, e: Event): Sys {
    match e
    case Begin(i) =>
      if s.pc.Idle? then s.(pc := Recover(Enter), intent := Some(i), past := s.past.(undropped := false)) else s
    case Do(f) => Step(s, f)
    case Kill => End(s)
    case PowerLoss => End(s).(daemon := None)
    case DaemonWrites(content) =>
      if s.daemon.Some? then
        s.(disk := s.disk.(state := content), past := s.past.(writers := s.past.writers + {s.daemon.value}))
      else s
    case DaemonExits => s.(daemon := None)
  }

  function Run(s: Sys, events: seq<Event>): Sys
    decreases |events|
  {
    if events == [] then s else Run(Next(s, events[0]), events[1..])
  }
}
