/** No read is forgotten: in every state the page can reach, what it follows has a time at which it is asked
    about again, and a followed job is asked about soon after. */
module PageDues {
  import opened Wrappers
  import opened PageMachine
  import opened PageSafety
  import opened PageFairness

  /** Due by this time. */
  predicate By(d: Due, time: int) {
    d.At? && d.time <= time
  }

  /** `latest` is the latest time any callback has seen. */
  predicate Timed(s: State, latest: int) {
    var d := s.watch.dues;
    && By(d.job, latest + 3000) && By(d.status, latest + 5000) && By(d.interfaces, latest + 11000)
    && (d.config.At? || !s.watch.configReady ==> By(d.config, latest + 3000))
    && (d.log.At? || (s.own.job.Some? && s.watch.logTarget.Some?) ==> By(d.log, latest + 5000))
  }

  function Max(a: int, b: int): int {
    if a <= b then b else a
  }

  function Latest(steps: seq<Step>): int {
    if steps == [] then 0 else Max(steps[0].now, Latest(steps[1..]))
  }

  lemma HandleTimes(s: State, request: Request, reply: Reply, now: int, works: bool, latest: int)
    requires Timed(s, latest) && latest >= 0 && now >= 0
    ensures Timed(Handle(s, request, reply, now, works), Max(latest, now))
  {
    hide Timed, OnWrite, OnJob, OnLog, OnConfig, OnStatus, OnInterfaces;
    match request
    case Submission(a) => WriteTimes(s, a, reply, now, works, latest);
    case Poll(read, id) =>
      if read == JobRead { JobTimes(s, id, reply, now, works, latest); } else { ReadTimes(s, read, id, reply, now, works, latest); }
  }

  lemma WriteTimes(s: State, a: Task, reply: Reply, now: int, works: bool, latest: int)
    requires Timed(s, latest) && latest >= 0 && now >= 0
    ensures Timed(OnWrite(s, a, reply, now, works), Max(latest, now))
  {
  }

  lemma JobTimes(s: State, id: nat, reply: Reply, now: int, works: bool, latest: int)
    requires Timed(s, latest) && latest >= 0 && now >= 0
    ensures Timed(OnJob(s, id, reply, now, works), Max(latest, now))
  {
  }

  lemma ReadTimes(s: State, read: Read, id: nat, reply: Reply, now: int, works: bool, latest: int)
    requires Timed(s, latest) && latest >= 0 && now >= 0 && read != JobRead
    ensures Timed(Handle(s, Poll(read, id), reply, now, works), Max(latest, now))
  {
  }

  lemma SameTimes(s: State, t: State, latest: int, later: int)
    requires Timed(s, latest) && latest <= later
    requires t.watch.dues == s.watch.dues && t.watch.configReady == s.watch.configReady
    requires t.watch.logTarget == s.watch.logTarget && t.own.job == s.own.job
    ensures Timed(t, later)
  {
  }

  lemma PumpLeavesTimes(s: State, now: int, works: bool)
    ensures var t := Pump(s, now, works);
      && t.watch.dues == s.watch.dues && t.watch.configReady == s.watch.configReady
      && t.watch.logTarget == s.watch.logTarget && t.own.job == s.own.job && t.life.started == s.life.started
  {
    hide Oldest, DueOf, Target;
  }

  lemma OwnTimes(s: State, e: Event, now: int, works: bool, latest: int)
    requires s.life.started ==> Timed(s, latest)
    requires latest >= 0 && now >= 0 && !e.Answer? && !e.Timer?
    ensures Next(s, e, now, works).life.started ==> Timed(Next(s, e, now, works), Max(latest, now))
  {
  }

  lemma EventTimes(s: State, e: Event, now: int, works: bool, latest: int)
    requires s.life.started ==> Timed(s, latest)
    requires latest >= 0 && now >= 0
    ensures Next(s, e, now, works).life.started ==> Timed(Next(s, e, now, works), Max(latest, now))
  {
    hide Timed, Pump, Handle;
    var t, later := Next(s, e, now, works), Max(latest, now);
    match e
    case Timer =>
      PumpLeavesTimes(s.(life := s.life.(timer := false)), now, works);
      if s.life.started { SameTimes(s, t, latest, later); }
    case Answer(n, reply) =>
      if s.life.started {
        SameTimes(s, s, latest, later);
        if n in s.past.open {
          var u := s.(past := s.past.(open := s.past.open - {n}));
          var v := u.(life := u.life.(inFlight := false));
          SameTimes(s, u, latest, later);
          SameTimes(s, v, latest, latest);
          var w := Handle(v, s.past.open[n].request, reply, now, works);
          HandleTimes(v, s.past.open[n].request, reply, now, works, latest);
          SameTimes(w, Schedule(w), later, later);
        }
      } else {
        AnswerStarts(s, n, reply, now, works);
      }
    case _ => OwnTimes(s, e, now, works, latest);
  }

  lemma AnswerStarts(s: State, n: nat, reply: Reply, now: int, works: bool)
    ensures Complete(s, n, reply, now, works).life.started == s.life.started
  {
  }

  lemma {:induction false} RunTimes(s: State, steps: seq<Step>, latest: int)
    requires s.life.started ==> Timed(s, latest)
    requires latest >= 0 && forall i | 0 <= i < |steps| :: steps[i].now >= 0
    ensures Run(s, steps).life.started ==> Timed(Run(s, steps), Max(latest, Latest(steps)))
    decreases |steps|
  {
    hide Timed, Next;
    if steps != [] {
      EventTimes(s, steps[0].event, steps[0].now, steps[0].works, latest);
      RunTimes(Next(s, steps[0].event, steps[0].now, steps[0].works), steps[1..], Max(latest, steps[0].now));
    } else if s.life.started {
      SameTimes(s, s, latest, Max(latest, 0));
    }
  }

  /** In every state of a loaded page: the job, the status and the interfaces have a time to be read at, and so
      have the settings unless they are there, and the log while a job's log is followed. None of them is more
      than eleven seconds after the latest callback, and that of a job not more than three. */
  lemma NothingIsForgotten(s: State, steps: seq<Step>)
    requires Blank(s) && forall i | 0 <= i < |steps| :: steps[i].now >= 0
    ensures Run(s, steps).life.started ==> Timed(Run(s, steps), Latest(steps))
  {
    RunTimes(s, steps, 0);
    LatestIsNat(steps);
  }

  lemma LatestIsNat(steps: seq<Step>)
    requires forall i | 0 <= i < |steps| :: steps[i].now >= 0
    ensures Latest(steps) >= 0
  {
  }

  // ---- A followed job is asked about again --------------------------------------------------------------

  /** Timers and answers at times when the job is due and its window is not over, none of them sending its query. */
  ghost predicate Unasked(s: State, steps: seq<Step>, due: int)
    decreases |steps|
  {
    && !IsPoll(Flight(s), JobRead)
    && (steps != [] ==>
          && (steps[0].event.Timer? || steps[0].event.Answer?)
          && due <= steps[0].now && steps[0].now - s.watch.jobStarted < JOB_WINDOW
          && Unasked(Next(s, steps[0].event, steps[0].now, steps[0].works), steps[1..], due))
  }

  /** The page follows a job that is not paused and is due by this time. */
  predicate Following(s: State, due: int) {
    s.own.job.Some? && !s.watch.jobPaused && By(s.watch.dues.job, due)
  }

  /** The user can have a paused job asked about again: it is followed from now on for another full window. */
  lemma WaitingFollows(s: State, now: int, works: bool)
    requires s.own.job.Some?
    ensures var t := Next(s, KeepWaiting, now, works);
      && Following(t, 0) && t.watch.jobStarted == now && t.own.job.value.id == s.own.job.value.id
      && (s.life.started && !s.life.stopped ==> t.life.timer)
  {
  }

  lemma AnswerFollows(s: State, n: nat, reply: Reply, now: int, works: bool, due: int)
    requires Ready(s) && Following(s, due) && !IsPoll(Flight(s), JobRead)
    ensures Following(Complete(s, n, reply, now, works), due)
  {
    hide Owned, WrittenOnce;
    if Current(s.life, s.past, n) {
      FlightIs(s, n);
      JobIsAlone(s.own);
    }
  }

  lemma JobIsAlone(own: Owner)
    requires Owned(own) && own.job.Some?
    ensures own.submitted.None? && own.pending.None?
  {
  }

  lemma FireFollows(s: State, now: int, works: bool, due: int)
    requires Ready(s) && Following(s, due) && now - s.watch.jobStarted < JOB_WINDOW
    ensures Following(Fire(s, now, works), due)
  {
    hide Oldest, DueOf, Target, SingleFlight, WrittenOnce;
  }

  lemma {:induction false} UnaskedWaits(s: State, steps: seq<Step>, due: int)
    requires Ready(s) && Following(s, due) && Unasked(s, steps, due)
    requires forall i | 0 <= i < |steps| :: steps[i].now >= 0
    ensures Waiting(s, steps, JobRead)
    decreases |steps|
  {
    hide Ready, Complete, Fire, Flight;
    if steps != [] {
      var e, now, works := steps[0].event, steps[0].now, steps[0].works;
      match e {
        case Timer => FireFollows(s, now, works, due);
        case Answer(n, reply) => AnswerFollows(s, n, reply, now, works, due);
      }
      EveryEventIsReady(s, e, now, works);
      UnaskedWaits(Next(s, e, now, works), steps[1..], due);
    }
  }

  lemma TimedFollows(s: State, latest: int)
    requires Timed(s, latest) && s.own.job.Some? && !s.watch.jobPaused
    ensures Following(s, latest + 3000)
  {
  }

  /** Whatever has happened before: from three seconds after the latest callback on, at most eleven other
      requests complete before the followed job is asked about. */
  lemma JobIsAskedAgain(s0: State, before: seq<Step>, steps: seq<Step>)
    requires Blank(s0) && Sound(s0.watch.dues)
    requires (forall i | 0 <= i < |before| :: before[i].now >= 0) && forall i | 0 <= i < |steps| :: steps[i].now >= 0
    requires var s := Run(s0, before);
      s.life.started && s.own.job.Some? && !s.watch.jobPaused && Unasked(s, steps, Latest(before) + 3000)
    ensures Completions(Run(s0, before), steps) <= 11
  {
    hide Ready, Blank, Sound, Timed, Unasked, Waiting, Completions, Run, Latest, Following;
    ReachableIsReady(s0, before);
    NothingIsForgotten(s0, before);
    TimedFollows(Run(s0, before), Latest(before));
    UnaskedWaits(Run(s0, before), steps, Latest(before) + 3000);
    PollingIsFair(Run(s0, before), steps, JobRead);
  }

  /** And while anything is due, a timer that fires with no request open sends one. */
  lemma TimerSends(s: State, now: int, works: bool, k: Read)
    requires s.life.started && !s.life.stopped && s.life.timer && DueOf(Pause(s, now), k).Passed(now)
    ensures Fire(s, now, works).life.inFlight
  {
    PausedDue(s, s.(life := s.life.(timer := false)), now, k);
    OldestIsFirst(Pause(s.(life := s.life.(timer := false)), now), k, now);
    hide Oldest, DueOf, Target;
  }
}
