/** The job and polling state of the browser page (plugin/res/tailscale3.js): every callback of the page
    is one event. Rendering, the settings draft and message texts are not part of the state. */
module PageMachine {
  import opened Wrappers

  /** Where a load takes its ids from: a random number, and the id of the job it takes over, if any. */
  datatype Start = Start(random: nat, stored: Option<nat>)

  /** The user action a task was made for, by its number, the load it belongs to, and how many ids that load had
      drawn before. History: the page reads none of it. */
  datatype Birth = Birth(serial: nat, load: nat, start: Start, draw: nat)

  /** A request or job id, and what it was made for. */
  datatype Task = Task(id: nat, birth: Birth, config: bool, reload: bool, confirmed: bool, startedAt: int)

  datatype Due = At(time: int) | Never {
    predicate Before(other: Due) {
      At? && (other.Never? || time < other.time)
    }
    predicate Passed(now: int) {
      At? && time <= now
    }
  }

  /** The five polled reads, in the order ties are broken, and the submission of an action. */
  datatype Read = JobRead | LogRead | ConfigRead | StatusRead | InterfacesRead
  datatype Request = Submission(task: Task) | Poll(read: Read, expected: nat)

  datatype Sent = Sent(epoch: nat, request: Request)

  datatype Verdict = Running | Succeeded | Ended
  /** What a reply carries, whatever request it answers. */
  datatype Reply =
    | Failed
    | TooLong
    | Rejected
    | Accepted(id: nat)
    | Unknown(id: nat, free: bool)
    | Record(id: nat, verdict: Verdict)
    | Data
    | Malformed

  datatype Event =
    | Click(config: bool)
    | Timer
    | Answer(n: nat, reply: Reply)
    | KeepWaiting
    | RetryLog
    | Stop
    | Resume
    | Reload(random: nat)

  datatype Life = Life(started: bool, stopped: bool, inFlight: bool, epoch: nat, timer: bool)

  datatype Owner = Owner(busy: bool, pending: Option<Task>, submitted: Option<Task>, job: Option<Task>)

  datatype Dues = Dues(job: Due, log: Due, config: Due, status: Due, interfaces: Due)

  datatype Watch = Watch(configReady: bool, logTarget: Option<nat>, jobStarted: int, jobPaused: bool, dues: Dues)

  /** Requests still unanswered, by number; the next request and action numbers; the actions written; and the
      present load, its start and the ids it has drawn. */
  datatype Past = Past(open: map<nat, Sent>, requests: nat, serials: nat, writes: seq<Task>,
                       load: nat, start: Start, draws: nat)

  /** `store` is what the browser keeps across loads; writing it may fail silently. */
  datatype State = State(life: Life, own: Owner, watch: Watch, lastId: nat, store: Option<Task>, past: Past)

  const MAX_ID: nat := 99999999
  const JOB_WINDOW: int := 900000

  // ---- Helpers of the page -----------------------------------------------------------------------

  function NextId(last: nat): nat {
    last % MAX_ID + 1
  }

  function Schedule(s: State): State {
    if s.life.stopped || !s.life.started then s else s.(life := s.life.(timer := true))
  }

  function Stored(s: State, task: Option<Task>, works: bool): State {
    if works then s.(store := task) else s
  }

  /** request(): record the call and mark the page in flight. */
  function Send(s: State, r: Request): State {
    s.(life := s.life.(inFlight := true),
       past := s.past.(open := s.past.open[s.past.requests := Sent(s.life.epoch, r)], requests := s.past.requests + 1))
  }

  /** id() */
  function DrawId(s: State): State {
    s.(lastId := NextId(s.lastId), past := s.past.(draws := s.past.draws + 1))
  }

  /** rpc() draws a fresh transport id; plain GETs do not. */
  function SendRead(s: State, read: Read, expected: nat): State {
    Send(if read.LogRead? || read.ConfigRead? then s else DrawId(s), Poll(read, expected))
  }

  function BeginJob(s: State, a: Task, certain: bool, now: int, works: bool): State {
    var task := Task(a.id, a.birth, a.config, a.reload || a.config, certain,
                     if a.startedAt <= now then a.startedAt else now);
    Stored(s.(own := s.own.(job := Some(task)),
              watch := s.watch.(jobStarted := task.startedAt, jobPaused := false, logTarget := None,
                                dues := s.watch.dues.(job := At(0), log := Never))), Some(task), works)
  }

  function Submit(s: State, a: Task, works: bool): State {
    var t := s.(own := s.own.(pending := None, submitted := Some(a)),
                past := s.past.(writes := s.past.writes + [a]));
    Send(Stored(t, Some(a), works), Submission(a))
  }

  function DueOf(s: State, read: Read): Due {
    match read
    case JobRead => if s.own.job.Some? && !s.watch.jobPaused then s.watch.dues.job else Never
    case LogRead => if s.watch.logTarget.Some? then s.watch.dues.log else Never
    case ConfigRead => s.watch.dues.config
    case StatusRead => s.watch.dues.status
    case InterfacesRead => s.watch.dues.interfaces
  }

  function Older(s: State, a: Read, b: Read): Read {
    if DueOf(s, b).Before(DueOf(s, a)) then b else a
  }

  /** The oldest due read; ties keep the order of the list. */
  function Oldest(s: State): Read {
    Older(s, Older(s, Older(s, Older(s, JobRead, LogRead), ConfigRead), StatusRead), InterfacesRead)
  }

  function Target(s: State, read: Read): nat {
    if read.JobRead? && s.own.job.Some? then s.own.job.value.id
    else if read.LogRead? && s.watch.logTarget.Some? then s.watch.logTarget.value
    else 0
  }

  function Pause(s: State, now: int): State {
    if s.own.job.Some? && !s.watch.jobPaused && now - s.watch.jobStarted >= JOB_WINDOW then
      s.(watch := s.watch.(jobPaused := true))
    else s
  }

  // ---- Events -------------------------------------------------------------------------------------

  function Pump(s: State, now: int, works: bool): State {
    if s.life.stopped || !s.life.started || s.life.inFlight then s
    else if s.own.pending.Some? then Submit(s, s.own.pending.value, works)
    else
      var t := Pause(s, now);
      var next := Oldest(t);
      if DueOf(t, next).Passed(now) then SendRead(t, next, Target(t, next)) else Schedule(t)
  }

  function Act(s: State, config: bool, now: int): State {
    if s.own.busy || !s.watch.configReady || s.life.stopped then s
    else
      var t := DrawId(s);
      var a := Task(t.lastId, Birth(s.past.serials, s.past.load, s.past.start, s.past.draws), config, false, false, now);
      Schedule(t.(own := s.own.(busy := true, pending := Some(a)),
                  watch := s.watch.(logTarget := None, dues := s.watch.dues.(log := Never)),
                  past := t.past.(serials := s.past.serials + 1)))
  }

  function OnWrite(s: State, a: Task, reply: Reply, now: int, works: bool): State {
    var t := s.(own := s.own.(submitted := None));
    if (reply.TooLong? && a.config) || reply.Rejected? then Stored(t.(own := t.own.(busy := false)), None, works)
    else BeginJob(t, a, reply.Accepted? && reply.id == a.id, now, works)
  }

  function Released(own: Owner): Owner {
    own.(busy := false, job := None)
  }

  function OnJob(s: State, expected: nat, reply: Reply, now: int, works: bool): State {
    var d := s.watch.dues;
    if s.own.job.None? || s.own.job.value.id != expected then s
    else if reply.Unknown? && reply.id == expected && reply.free then
      Stored(s.(own := Released(s.own),
                watch := s.watch.(jobPaused := false, logTarget := None, configReady := false,
                                  dues := Dues(At(now + 1500), Never, At(0), At(0), At(0)))), None, works)
    else if !(reply.Record? && reply.id == expected) then
      s.(watch := s.watch.(dues := d.(job := At(now + 3000))))
    else
      var task := s.own.job.value.(confirmed := true);
      if reply.verdict.Running? then
        var log := if s.watch.logTarget == Some(expected) then d.log else At(0);
        Stored(s.(own := s.own.(job := Some(task)),
                  watch := s.watch.(logTarget := Some(expected), dues := d.(job := At(now + 1500), log := log))),
               Some(task), works)
      else
        Stored(s.(own := Released(s.own),
                  watch := s.watch.(jobPaused := false, logTarget := Some(expected),
                                    configReady := s.watch.configReady && !task.reload,
                                    dues := Dues(At(now + 1500), At(0), if task.reload then At(0) else d.config, At(0), At(0)))),
               None, works)
  }

  function OnLog(s: State, expected: nat, reply: Reply, now: int): State {
    if s.watch.logTarget != Some(expected) then s
    else
      var log := if s.own.job.None? then Never else At(now + if reply.Data? then 2500 else 5000);
      s.(watch := s.watch.(dues := s.watch.dues.(log := log)))
  }

  function OnConfig(s: State, reply: Reply, now: int): State {
    if reply.Data? then s.(watch := s.watch.(configReady := true, dues := s.watch.dues.(config := Never)))
    else s.(watch := s.watch.(dues := s.watch.dues.(config := At(now + 3000))))
  }

  function OnStatus(s: State, now: int): State {
    s.(watch := s.watch.(dues := s.watch.dues.(status := At(now + 5000))))
  }

  function OnInterfaces(s: State, reply: Reply, now: int): State {
    s.(watch := s.watch.(dues := s.watch.dues.(interfaces := At(now + if reply.Failed? then 5000 else 11000))))
  }

  function Handle(s: State, request: Request, reply: Reply, now: int, works: bool): State {
    match request
    case Submission(a) => OnWrite(s, a, reply, now, works)
    case Poll(read, expected) =>
      match read
      case JobRead => OnJob(s, expected, reply, now, works)
      case LogRead => OnLog(s, expected, reply, now)
      case ConfigRead => OnConfig(s, reply, now)
      case StatusRead => OnStatus(s, now)
      case InterfacesRead => OnInterfaces(s, reply, now)
  }

  /** complete(): a reply from an earlier epoch or to a stopped page does nothing. */
  function Complete(s: State, n: nat, reply: Reply, now: int, works: bool): State {
    if n !in s.past.open then s
    else
      var sent := s.past.open[n];
      var t := s.(past := s.past.(open := s.past.open - {n}));
      if s.life.stopped || sent.epoch != s.life.epoch then t
      else Schedule(Handle(t.(life := t.life.(inFlight := false)), sent.request, reply, now, works))
  }

  function StopPage(s: State, now: int, works: bool): State {
    var t := if s.own.submitted.Some? then
               var u := BeginJob(s, s.own.submitted.value, false, now, works);
               u.(own := u.own.(submitted := None))
             else s;
    t.(life := t.life.(stopped := true, epoch := t.life.epoch + 1, timer := false, inFlight := false))
  }

  function ResumePage(s: State): State {
    if !s.life.started || !s.life.stopped then s
    else Schedule(s.(life := s.life.(stopped := false),
                     watch := s.watch.(dues := s.watch.dues.(status := At(0), interfaces := At(0)))))
  }

  /** The requests of the old page object are gone, and ids start anew. */
  function Loaded(p: Past, random: nat, store: Option<Task>): Past {
    p.(open := map[], load := p.load + 1, draws := 0,
       start := Start(random, if store.Some? then Some(store.value.id) else None))
  }

  /** A new page object in the same browser tab, and its init(). */
  function Load(s: State, random: nat, now: int, works: bool): State {
    var zero := At(0);
    var page := State(Life(true, false, false, 0, false), Owner(false, None, None, None),
                      Watch(false, None, 0, false, Dues(zero, zero, zero, zero, zero)),
                      random % MAX_ID, s.store, Loaded(s.past, random, s.store));
    match s.store
    case None => Schedule(page)
    case Some(saved) =>
      var t := page.(lastId := if page.lastId < saved.id then saved.id else page.lastId, own := page.own.(busy := true));
      Schedule(BeginJob(t, saved, false, now, works))
  }

  function Wait(s: State, now: int, works: bool): State {
    if s.own.job.None? then s
    else
      var task := s.own.job.value.(startedAt := now, confirmed := false);
      Schedule(Stored(s.(own := s.own.(job := Some(task)),
                         watch := s.watch.(jobPaused := false, jobStarted := now, dues := s.watch.dues.(job := At(0)))),
                      Some(task), works))
  }

  function Retry(s: State): State {
    if s.watch.logTarget.Some? then Schedule(s.(watch := s.watch.(dues := s.watch.dues.(log := At(0))))) else s
  }

  function Fire(s: State, now: int, works: bool): State {
    if s.life.timer then Pump(s.(life := s.life.(timer := false)), now, works) else s
  }

  function Next(s: State, e: Event, now: int, works: bool): State {
    match e
    case Click(config) => Act(s, config, now)
    case Timer => Fire(s, now, works)
    case Answer(n, reply) => Complete(s, n, reply, now, works)
    case KeepWaiting => Wait(s, now, works)
    case RetryLog => Retry(s)
    case Stop => StopPage(s, now, works)
    case Resume => ResumePage(s)
    case Reload(random) => Load(s, random, now, works)
  }
}
