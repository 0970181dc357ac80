/** Polling is fair: a read that is due waits for a bounded number of other requests. */
module PageFairness {
  import opened Wrappers
  import opened PageMachine
  import opened PageSafety

  /** The request of this epoch that is still open. */
  ghost function Flight(s: State): Option<Request> {
    if exists n :: Current(s.life, s.past, n) then
      var n :| Current(s.life, s.past, n);
      Some(s.past.open[n].request)
    else None
  }

  lemma FlightIs(s: State, n: nat)
    requires SingleFlight(s.life, s.own.submitted, s.past) && Current(s.life, s.past, n)
    ensures Flight(s) == Some(s.past.open[n].request)
  {
  }

  predicate IsPoll(flight: Option<Request>, read: Read) {
    flight.Some? && flight.value.Poll? && flight.value.read == read
  }

  /** An open job or log query asks for the job or log being followed; a new action may have ended
      the interest in the log. */
  predicate Matched(flight: Option<Request>, own: Owner, watch: Watch) {
    && (IsPoll(flight, JobRead) ==> own.job.Some? && own.job.value.id == flight.value.expected)
    && (IsPoll(flight, LogRead) ==> watch.logTarget.None? || watch.logTarget == Some(flight.value.expected))
  }

  predicate NonNegative(d: Due) {
    d.At? ==> d.time >= 0
  }

  predicate Sound(d: Dues) {
    NonNegative(d.job) && NonNegative(d.log) && NonNegative(d.config) && NonNegative(d.status) && NonNegative(d.interfaces)
  }

  // ---- The measure ------------------------------------------------------------------------------------

  predicate NotAfter(a: Due, b: Due) {
    a.At? && b.At? && a.time <= b.time
  }

  /** `j` may be served before `k`: it is due no later, or already in flight. */
  function Ahead(flight: Option<Request>, s: State, k: Read, j: Read): nat {
    if j != k && (IsPoll(flight, j) || NotAfter(DueOf(s, j), DueOf(s, k))) then 1 else 0
  }

  function Queue(flight: Option<Request>, s: State, k: Read): nat {
    Ahead(flight, s, k, JobRead) + Ahead(flight, s, k, LogRead) + Ahead(flight, s, k, ConfigRead)
    + Ahead(flight, s, k, StatusRead) + Ahead(flight, s, k, InterfacesRead)
  }

  /** Requests the present task can still put in front: its submission, the first job query, the first
      log, and the four reads a finished job makes due at once. */
  function Credit(s: State): nat {
    if s.own.pending.Some? || s.own.submitted.Some? then 7
    else match s.own.job
      case Some(job) => if s.watch.logTarget == Some(job.id) then 4 else 5
      case None => 0
  }

  function Measure(flight: Option<Request>, s: State, k: Read): (n: nat)
    ensures n <= 12
  {
    Queue(flight, s, k) + Credit(s)
  }

  // ---- Replies ------------------------------------------------------------------------------------------

  /** A reply to another request than `k`'s own takes at least one from the measure. */
  lemma WriteCounts(s: State, a: Task, reply: Reply, now: int, works: bool, k: Read)
    requires Owned(s.own) && s.own.submitted == Some(a) && DueOf(s, k).Passed(now) && Sound(s.watch.dues)
    ensures var t := OnWrite(s, a, reply, now, works);
      Measure(None, t, k) < Measure(Some(Submission(a)), s, k) && Sound(t.watch.dues)
  {
  }

  /** The job goes on: its query moves behind, and at most the log moves in front, once. */
  lemma OngoingJobCounts(s: State, id: nat, reply: Reply, now: int, works: bool, k: Read)
    requires Owned(s.own) && s.own.job.Some? && s.own.job.value.id == id && k != JobRead
    requires DueOf(s, k).Passed(now) && Sound(s.watch.dues)
    requires OnJob(s, id, reply, now, works).own.job.Some?
    ensures var t := OnJob(s, id, reply, now, works);
      Measure(None, t, k) < Measure(Some(Poll(JobRead, id)), s, k) && Sound(t.watch.dues)
  {
    var f, t := Some(Poll(JobRead, id)), OnJob(s, id, reply, now, works);
    assert t.watch.dues.config == s.watch.dues.config && t.watch.dues.status == s.watch.dues.status
        && t.watch.dues.interfaces == s.watch.dues.interfaces;
    assert t.watch.dues.job == At(now + 1500) || t.watch.dues.job == At(now + 3000);
    assert (t.watch.logTarget == s.watch.logTarget && t.watch.dues.log == s.watch.dues.log)
        || (s.watch.logTarget != Some(id) && t.watch.logTarget == Some(id) && t.watch.dues.log == At(0));
    Later(f, s, t, k);
  }

  lemma Later(f: Option<Request>, s: State, t: State, k: Read)
    requires IsPoll(f, JobRead) && k != JobRead && NotAfter(DueOf(t, k), DueOf(s, k)) && NonNegative(DueOf(t, k))
    requires !NotAfter(DueOf(t, JobRead), DueOf(t, k))
    requires t.watch.dues.config == s.watch.dues.config && t.watch.dues.status == s.watch.dues.status
    requires t.watch.dues.interfaces == s.watch.dues.interfaces
    requires s.own.job.Some? && t.own.job.Some? && t.own.job.value.id == s.own.job.value.id
    requires t.own.pending == s.own.pending == None && t.own.submitted == s.own.submitted == None
    requires (t.watch.logTarget == s.watch.logTarget && t.watch.dues.log == s.watch.dues.log)
          || (s.watch.logTarget != Some(s.own.job.value.id) && t.watch.logTarget == Some(s.own.job.value.id))
    ensures Measure(None, t, k) < Measure(f, s, k)
  {
  }

  /** The job is over: its query disappears and the four other reads may move in front. */
  lemma FinishedJobCounts(s: State, id: nat, reply: Reply, now: int, works: bool, k: Read)
    requires Owned(s.own) && s.own.job.Some? && s.own.job.value.id == id && k != JobRead
    requires DueOf(s, k).Passed(now) && Sound(s.watch.dues)
    requires OnJob(s, id, reply, now, works).own.job.None?
    ensures var t := OnJob(s, id, reply, now, works);
      Measure(None, t, k) < Measure(Some(Poll(JobRead, id)), s, k) && Sound(t.watch.dues)
  {
  }

  lemma LogCounts(s: State, id: nat, reply: Reply, now: int, k: Read)
    requires Owned(s.own) && k != LogRead && DueOf(s, k).Passed(now) && Sound(s.watch.dues)
    requires Matched(Some(Poll(LogRead, id)), s.own, s.watch)
    ensures var t := OnLog(s, id, reply, now);
      Measure(None, t, k) < Measure(Some(Poll(LogRead, id)), s, k) && Sound(t.watch.dues)
  {
  }

  /** A read that only puts its own due time behind leaves the queue. */
  lemma ReadMovesBehind(s: State, t: State, read: Read, id: nat, k: Read)
    requires read != k && read != JobRead && read != LogRead
    requires t.own == s.own && t.watch.logTarget == s.watch.logTarget && !NotAfter(DueOf(t, read), DueOf(t, k))
    requires forall j | j != read :: DueOf(t, j) == DueOf(s, j)
    ensures Measure(None, t, k) < Measure(Some(Poll(read, id)), s, k)
  {
    hide DueOf;
  }

  lemma ReadCounts(s: State, read: Read, id: nat, reply: Reply, now: int, works: bool, k: Read)
    requires Owned(s.own) && read != k && read != JobRead && DueOf(s, k).Passed(now) && Sound(s.watch.dues)
    requires Matched(Some(Poll(read, id)), s.own, s.watch)
    ensures var t := Handle(s, Poll(read, id), reply, now, works);
      Measure(None, t, k) < Measure(Some(Poll(read, id)), s, k) && Sound(t.watch.dues)
  {
    hide Measure, Matched, OnLog, Owned;
    if read == LogRead {
      LogCounts(s, id, reply, now, k);
    } else {
      ReadMovesBehind(s, Handle(s, Poll(read, id), reply, now, works), read, id, k);
    }
  }

  // ---- Runs -----------------------------------------------------------------------------------------------

  ghost predicate Ready(s: State) {
    Inv(s) && Matched(Flight(s), s.own, s.watch) && Sound(s.watch.dues)
  }

  /** A request of this epoch is answered. */
  ghost predicate Completes(s: State, e: Event) {
    e.Answer? && Current(s.life, s.past, e.n)
  }

  lemma SameMeasure(flight: Option<Request>, s: State, t: State, k: Read)
    requires t.own == s.own && t.watch == s.watch
    ensures Measure(flight, t, k) == Measure(flight, s, k) && DueOf(t, k) == DueOf(s, k)
  {
  }

  lemma NoFlight(s: State)
    requires SingleFlight(s.life, s.own.submitted, s.past) && !s.life.inFlight
    ensures Flight(s) == None
  {
  }

  lemma SameOpen(s: State, t: State)
    requires SingleFlight(s.life, s.own.submitted, s.past) && SingleFlight(t.life, t.own.submitted, t.past)
    requires forall m :: Current(s.life, s.past, m) <==> Current(t.life, t.past, m)
    requires forall m | Current(s.life, s.past, m) :: s.past.open[m] == t.past.open[m]
    ensures Flight(t) == Flight(s)
  {
  }

  lemma StaleAnswer(s: State, n: nat)
    requires Inv(s) && n in s.past.open && !Current(s.life, s.past, n)
    ensures var t := s.(past := s.past.(open := s.past.open - {n}));
      SingleFlight(t.life, t.own.submitted, t.past) && Flight(t) == Flight(s)
  {
    var t := s.(past := s.past.(open := s.past.open - {n}));
    AnswerKeeps(s.life, s.own.submitted, s.past, n);
    forall m ensures Current(s.life, s.past, m) <==> Current(t.life, t.past, m) {
      assert m in t.past.open <==> m in s.past.open && m != n;
    }
    SameOpen(s, t);
  }

  lemma HandleCounts(s: State, request: Request, reply: Reply, now: int, works: bool, k: Read)
    requires Owned(s.own) && DueOf(s, k).Passed(now) && Sound(s.watch.dues)
    requires Matched(Some(request), s.own, s.watch) && !IsPoll(Some(request), k)
    requires s.own.submitted == if request.Submission? then Some(request.task) else None
    ensures var t := Handle(s, request, reply, now, works);
      Measure(None, t, k) < Measure(Some(request), s, k) && Sound(t.watch.dues)
  {
    hide OnWrite, OnJob, Measure, Sound;
    match request
    case Submission(a) => WriteCounts(s, a, reply, now, works, k);
    case Poll(read, id) =>
      if read != JobRead {
        ReadCounts(s, read, id, reply, now, works, k);
      } else if OnJob(s, id, reply, now, works).own.job.Some? {
        OngoingJobCounts(s, id, reply, now, works, k);
      } else {
        FinishedJobCounts(s, id, reply, now, works, k);
      }
  }

  /** Answers: a completed request other than k's own lowers the measure, a stale one leaves it alone. */
  lemma AnswerLowers(s: State, n: nat, reply: Reply, now: int, works: bool, k: Read)
    requires Ready(s) && DueOf(s, k).Passed(now) && !IsPoll(Flight(s), k)
    ensures var t := Complete(s, n, reply, now, works);
      && Ready(t) && Measure(Flight(t), t, k) + (if Completes(s, Answer(n, reply)) then 1 else 0) <= Measure(Flight(s), s, k)
  {
    hide Handle, SingleFlight, Owned, WrittenOnce, Measure, Sound;
    var t := Complete(s, n, reply, now, works);
    CompleteKeeps(s, n, reply, now, works);
    if n in s.past.open {
      CurrentIsSubmission(s, n);
      if Current(s.life, s.past, n) {
        FlightIs(s, n);
        var request := s.past.open[n].request;
        var u := s.(past := s.past.(open := s.past.open - {n}), life := s.life.(inFlight := false));
        HandleCounts(u, request, reply, now, works, k);
        SameMeasure(Some(request), s, u, k);
        var v := Handle(u, request, reply, now, works);
        HandleKeeps(u, request, reply, now, works);
        AnswerKeeps(s.life, s.own.submitted, s.past, n);
        assert t == Schedule(v);
        NoFlight(t);
        SameMeasure(None, v, t, k);
      } else {
        StaleAnswer(s, n);
        SameMeasure(Flight(s), s, t, k);
      }
    }
  }

  // ---- Timers ---------------------------------------------------------------------------------------------

  lemma OldestIsFirst(s: State, k: Read, now: int)
    requires DueOf(s, k).Passed(now)
    ensures DueOf(s, Oldest(s)).Passed(now) && NotAfter(DueOf(s, Oldest(s)), DueOf(s, k))
  {
  }

  /** Sending leaves the new request in flight. */
  lemma SendFlies(s: State, r: Request)
    requires SingleFlight(s.life, None, s.past) && !s.life.inFlight && !s.life.stopped
    ensures var t := Send(s, r);
      SingleFlight(t.life, if r.Submission? then Some(r.task) else None, t.past) &&
      Flight(t.(own := t.own.(submitted := if r.Submission? then Some(r.task) else None))) == Some(r)
  {
    SendKeeps(s, r);
    var t := Send(s, r);
    var u := t.(own := t.own.(submitted := if r.Submission? then Some(r.task) else None));
    assert Current(u.life, u.past, s.past.requests);
    FlightIs(u, s.past.requests);
  }

  lemma SubmitNotMore(s: State, a: Task, works: bool, k: Read)
    requires Ready(s) && s.own.pending == Some(a) && !s.life.inFlight && !s.life.stopped
    ensures var t := Submit(s, a, works);
      Ready(t) && Measure(Flight(t), t, k) <= Measure(Flight(s), s, k)
  {
    SubmitKeeps(s, a, works);
    NoFlight(s);
    var u := s.(own := s.own.(pending := None, submitted := Some(a)), past := s.past.(writes := s.past.writes + [a]));
    SameFlight(s.life, s.life, None, s.past, u.past);
    SendFlies(Stored(u, Some(a), works), Submission(a));
    SubmitMeasure(s, Submit(s, a, works), a, k);
  }

  lemma SubmitMeasure(s: State, t: State, a: Task, k: Read)
    requires s.own.pending.Some? && t.own.submitted.Some? && t.own.job == s.own.job && t.watch == s.watch
    ensures Measure(Some(Submission(a)), t, k) <= Measure(None, s, k)
  {
  }

  lemma ReadNotMore(s: State, now: int, k: Read)
    requires Ready(s) && DueOf(s, k).Passed(now) && !s.life.inFlight && !s.life.stopped && s.own.submitted.None?
    requires DueOf(s, Oldest(s)).Passed(now)
    ensures var t := SendRead(s, Oldest(s), Target(s, Oldest(s)));
      Ready(t) && Measure(Flight(t), t, k) <= Measure(Flight(s), s, k)
  {
    hide SingleFlight, WrittenOnce, Owned, Oldest, Measure;
    var next := Oldest(s);
    ReadKeeps(s, next, Target(s, next));
    NoFlight(s);
    OldestIsFirst(s, k, now);
    var v := if next.LogRead? || next.ConfigRead? then s else DrawId(s);
    SameFlight(s.life, v.life, s.own.submitted, s.past, v.past);
    SendFlies(v, Poll(next, Target(s, next)));
    var t := SendRead(s, next, Target(s, next));
    assert t.(own := t.own.(submitted := None)) == t;
    ReadMeasure(s, next, Target(s, next), k);
    SameMeasure(Some(Poll(next, Target(s, next))), s, t, k);
  }

  lemma ReadMeasure(s: State, next: Read, id: nat, k: Read)
    requires NotAfter(DueOf(s, next), DueOf(s, k))
    ensures Measure(Some(Poll(next, id)), s, k) <= Measure(None, s, k)
  {
  }

  /** Pausing a long job can only take its query out of the queue. */
  lemma PauseNotMore(s: State, now: int, k: Read)
    requires Ready(s) && !s.life.inFlight && DueOf(Pause(s, now), k).Passed(now)
    ensures var t := Pause(s, now);
      Ready(t) && Flight(t) == Flight(s) == None && Measure(None, t, k) <= Measure(None, s, k)
  {
    NoFlight(s);
    NoFlight(Pause(s, now));
  }

  lemma PumpNotMore(s: State, now: int, works: bool, k: Read)
    requires Ready(s) && DueOf(Pause(s, now), k).Passed(now)
    ensures var t := Pump(s, now, works);
      Ready(t) && Measure(Flight(t), t, k) <= Measure(Flight(s), s, k)
  {
    hide Ready, Measure, Submit, SendRead, DueOf, Oldest, Target, Pause;
    var t := Pump(s, now, works);
    if !s.life.stopped && s.life.started && !s.life.inFlight {
      if s.own.pending.Some? {
        SubmitNotMore(s, s.own.pending.value, works, k);
      } else {
        PauseNotMore(s, now, k);
        var u := Pause(s, now);
        OldestIsFirst(u, k, now);
        NotSubmitted(s, now);
        ReadNotMore(u, now, k);
      }
    }
  }

  lemma NotSubmitted(s: State, now: int)
    requires Ready(s) && !s.life.inFlight
    ensures s.own.submitted.None? && Pause(s, now).own == s.own && Pause(s, now).life == s.life
  {
  }

  lemma FireNotMore(s: State, now: int, works: bool, k: Read)
    requires Ready(s) && DueOf(Pause(s, now), k).Passed(now)
    ensures var t := Fire(s, now, works);
      Ready(t) && Measure(Flight(t), t, k) <= Measure(Flight(s), s, k)
  {
    hide Pump, Measure, DueOf;
    if s.life.timer {
      var u := s.(life := s.life.(timer := false));
      SameFlight(s.life, u.life, s.own.submitted, s.past, s.past);
      SameOpen(s, u);
      SameMeasure(Flight(s), s, u, k);
      PausedDue(s, u, now, k);
      PumpNotMore(u, now, works, k);
    }
  }

  lemma PausedDue(s: State, u: State, now: int, k: Read)
    requires u.own == s.own && u.watch == s.watch
    ensures DueOf(Pause(u, now), k) == DueOf(Pause(s, now), k)
  {
  }

  // ---- The bound --------------------------------------------------------------------------------------------

  /** `k` is due at every callback of the run, the user does nothing, and `k` is not issued. */
  ghost predicate Waiting(s: State, steps: seq<Step>, k: Read)
    decreases |steps|
  {
    && !IsPoll(Flight(s), k)
    && (steps != [] ==>
          && (steps[0].event.Timer? || steps[0].event.Answer?)
          && DueOf(s, k).Passed(steps[0].now) && DueOf(Pause(s, steps[0].now), k).Passed(steps[0].now)
          && Waiting(Next(s, steps[0].event, steps[0].now, steps[0].works), steps[1..], k))
  }

  ghost function Completions(s: State, steps: seq<Step>): nat
    decreases |steps|
  {
    if steps == [] then 0
    else (if Completes(s, steps[0].event) then 1 else 0)
         + Completions(Next(s, steps[0].event, steps[0].now, steps[0].works), steps[1..])
  }

  lemma {:induction false} MeasureDecreases(s: State, steps: seq<Step>, k: Read)
    requires Ready(s) && Waiting(s, steps, k)
    ensures Completions(s, steps) <= Measure(Flight(s), s, k)
    decreases |steps|
  {
    hide Complete, Fire, Ready, Measure, DueOf;
    if steps != [] {
      var e, now, works := steps[0].event, steps[0].now, steps[0].works;
      match e {
        case Timer => FireNotMore(s, now, works, k);
        case Answer(n, reply) => AnswerLowers(s, n, reply, now, works, k);
      }
      MeasureDecreases(Next(s, e, now, works), steps[1..], k);
    }
  }

  lemma MeasureBound(flight: Option<Request>, s: State, k: Read)
    ensures Measure(flight, s, k) <= 11
  {
  }

  /** As long as a read stays due and unissued, and whatever the replies are, at most eleven other
      requests complete. */
  lemma PollingIsFair(s: State, steps: seq<Step>, k: Read)
    requires Ready(s) && Waiting(s, steps, k)
    ensures Completions(s, steps) <= 11
  {
    MeasureDecreases(s, steps, k);
    MeasureBound(Flight(s), s, k);
  }

  // ---- Every reachable state is ready ------------------------------------------------------------------------

  lemma HandleSound(s: State, request: Request, reply: Reply, now: int, works: bool)
    requires Sound(s.watch.dues) && now >= 0
    ensures Sound(Handle(s, request, reply, now, works).watch.dues)
  {
    hide OnWrite, OnJob, Sound;
    match request
    case Submission(a) => WriteSound(s, a, reply, now, works);
    case Poll(read, id) =>
      if read == JobRead { JobSound(s, id, reply, now, works); } else { ReadSound(s, read, id, reply, now, works); }
  }

  lemma WriteSound(s: State, a: Task, reply: Reply, now: int, works: bool)
    requires Sound(s.watch.dues) && now >= 0
    ensures Sound(OnWrite(s, a, reply, now, works).watch.dues)
  {
  }

  lemma JobSound(s: State, id: nat, reply: Reply, now: int, works: bool)
    requires Sound(s.watch.dues) && now >= 0
    ensures Sound(OnJob(s, id, reply, now, works).watch.dues)
  {
  }

  lemma ReadSound(s: State, read: Read, id: nat, reply: Reply, now: int, works: bool)
    requires Sound(s.watch.dues) && now >= 0 && read != JobRead
    ensures Sound(Handle(s, Poll(read, id), reply, now, works).watch.dues)
  {
  }

  lemma AnswerReady(s: State, n: nat, reply: Reply, now: int, works: bool)
    requires Ready(s) && now >= 0
    ensures Ready(Complete(s, n, reply, now, works))
  {
    hide Handle, SingleFlight, Owned, WrittenOnce, Sound;
    CompleteKeeps(s, n, reply, now, works);
    var t := Complete(s, n, reply, now, works);
    if n in s.past.open {
      CurrentIsSubmission(s, n);
      if Current(s.life, s.past, n) {
        var u := s.(past := s.past.(open := s.past.open - {n}), life := s.life.(inFlight := false));
        HandleSound(u, s.past.open[n].request, reply, now, works);
        HandleKeeps(u, s.past.open[n].request, reply, now, works);
        NoFlight(t);
      } else {
        StaleAnswer(s, n);
      }
    }
  }

  /** Reads keep the answers they wait for. */
  lemma PumpReady(s: State, now: int, works: bool)
    requires Ready(s)
    ensures Ready(Pump(s, now, works))
  {
    hide SingleFlight, WrittenOnce, Owned, Submit, DueOf, Measure;
    PumpKeeps(s, now, works);
    if !s.life.stopped && s.life.started {
      if s.life.inFlight {
      } else if s.own.pending.Some? {
        SubmitNotMore(s, s.own.pending.value, works, JobRead);
      } else {
        NotSubmitted(s, now);
        NoFlight(s);
        var u := Pause(s, now);
        NoFlight(u);
        var next := Oldest(u);
        if DueOf(u, next).Passed(now) {
          ReadNotMore(u, now, next);
        } else {
          SameFlight(u.life, Schedule(u).life, u.own.submitted, u.past, u.past);
          NoFlight(Schedule(u));
        }
      }
    }
  }

  lemma QuietReady(s: State, e: Event, now: int, works: bool)
    requires Ready(s) && now >= 0 && (e.Click? || e.KeepWaiting? || e.RetryLog? || e.Resume?)
    ensures Ready(Next(s, e, now, works))
  {
    Inductive(s, e, now, works);
    var t := Next(s, e, now, works);
    assert forall m :: Current(s.life, s.past, m) <==> Current(t.life, t.past, m);
    SameOpen(s, t);
    if n :| Current(s.life, s.past, n) {
      FlightIs(s, n);
    }
  }

  lemma EndReady(s: State, e: Event, now: int, works: bool)
    requires Ready(s) && now >= 0 && (e.Stop? || e.Reload?)
    ensures Ready(Next(s, e, now, works))
  {
    Inductive(s, e, now, works);
    NoFlight(Next(s, e, now, works));
  }

  lemma EveryEventIsReady(s: State, e: Event, now: int, works: bool)
    requires Ready(s) && now >= 0
    ensures Ready(Next(s, e, now, works))
  {
    hide Ready, Complete, Pump;
    match e
    case Answer(n, reply) => AnswerReady(s, n, reply, now, works);
    case Timer =>
      if s.life.timer {
        TimerReady(s);
        PumpReady(s.(life := s.life.(timer := false)), now, works);
      }
    case Stop => EndReady(s, e, now, works);
    case Reload(_) => EndReady(s, e, now, works);
    case Click(_) => QuietReady(s, e, now, works);
    case KeepWaiting => QuietReady(s, e, now, works);
    case RetryLog => QuietReady(s, e, now, works);
    case Resume => QuietReady(s, e, now, works);
  }

  lemma TimerReady(s: State)
    requires Ready(s)
    ensures Ready(s.(life := s.life.(timer := false)))
  {
    var t := s.(life := s.life.(timer := false));
    SameFlight(s.life, t.life, s.own.submitted, s.past, s.past);
    SameOpen(s, t);
  }

  lemma {:induction false} ReachableIsReady(s: State, steps: seq<Step>)
    requires Ready(s) || (Blank(s) && Sound(s.watch.dues))
    requires forall i | 0 <= i < |steps| :: steps[i].now >= 0
    ensures Ready(Run(s, steps))
    decreases |steps|
  {
    assert Ready(s);
    if steps != [] {
      EveryEventIsReady(s, steps[0].event, steps[0].now, steps[0].works);
      ReachableIsReady(Next(s, steps[0].event, steps[0].now, steps[0].works), steps[1..]);
    }
  }
}
