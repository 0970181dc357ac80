/** The way of one action through the page, from the click to the freed controls. */
module PageRuns {
  import opened Wrappers
  import opened PageMachine
  import opened PageSafety
  import opened PageFairness

  /** A loaded page with its settings, on which nothing is going on. */
  ghost predicate Quiet(s: State) {
    Ready(s) && s.life.started && !s.life.stopped && !s.life.inFlight && !s.own.busy && s.watch.configReady
  }

  function Clicked(s: State, config: bool, now: int): Task {
    Task(NextId(s.lastId), Birth(s.past.serials, s.past.load, s.past.start, s.past.draws), config, false, false, now)
  }

  /** A page that is loaded while no task is stored reads the settings first, and is quiet once they are there. */
  lemma LoadBecomesQuiet(s: State, random: nat, now: int, works: bool)
    requires Ready(s) && s.store.None? && now >= 0
    ensures var n := s.past.requests;
      var t := Next(Next(s, Reload(random), now, works), Timer, now, works);
      && t.past.open == map[n := Sent(0, Poll(ConfigRead, 0))]
      && Quiet(Next(t, Answer(n, Data), now, works))
  {
    hide Ready;
    var a := Next(s, Reload(random), now, works);
    var b := Next(a, Timer, now, works);
    EveryEventIsReady(s, Reload(random), now, works);
    EveryEventIsReady(a, Timer, now, works);
    EveryEventIsReady(b, Answer(s.past.requests, Data), now, works);
    assert Oldest(a) == ConfigRead;
  }

  /** The first timer after a click writes the action, once and under its own id. */
  lemma ClickIsWritten(s: State, config: bool, now: int, works: bool)
    requires Quiet(s)
    ensures var (a, n) := (Clicked(s, config, now), s.past.requests);
      var t := Next(Next(s, Click(config), now, works), Timer, now, works);
      && t.past.writes == s.past.writes + [a]
      && t.past.open == s.past.open[n := Sent(s.life.epoch, Submission(a))] && t.past.requests == n + 1
      && t.own == Owner(true, None, Some(a), None) && t.watch.dues == s.watch.dues.(log := Never)
      && t.life == s.life.(inFlight := true, timer := false) && t.watch.configReady
  {
  }

  /** An accepted submission is followed at once: the next timer asks about it, before anything else. */
  lemma AcceptedIsFollowed(s: State, a: Task, n: nat, now: int, works: bool)
    requires n in s.past.open && s.past.open[n] == Sent(s.life.epoch, Submission(a)) && s.own == Owner(true, None, Some(a), None)
    requires s.life.started && !s.life.stopped && Sound(s.watch.dues)
    requires now >= 0 && a.startedAt <= now < a.startedAt + JOB_WINDOW
    ensures var t := Next(Next(s, Answer(n, Accepted(a.id)), now, works), Timer, now, works);
      && t.own.busy && t.own.pending.None? && t.own.submitted.None?
      && t.own.job.Some? && t.own.job.value.id == a.id && t.own.job.value.confirmed
      && s.past.requests in t.past.open && t.past.open[s.past.requests] == Sent(s.life.epoch, Poll(JobRead, a.id))
      && t.past.writes == s.past.writes && t.life.epoch == s.life.epoch && !t.life.stopped && t.life.started
  {
    var u := Next(s, Answer(n, Accepted(a.id)), now, works);
    assert u.watch.dues.job == At(0) && u.watch.dues.log == Never && !u.watch.jobPaused;
  }

  /** A terminal record frees the controls and shows the log of the job. */
  lemma EndedIsFree(s: State, id: nat, n: nat, verdict: Verdict, now: int, works: bool)
    requires n in s.past.open && s.past.open[n] == Sent(s.life.epoch, Poll(JobRead, id)) && !s.life.stopped
    requires s.own.job.Some? && s.own.job.value.id == id && s.own.pending.None? && s.own.submitted.None? && !verdict.Running?
    ensures var t := Next(s, Answer(n, Record(id, verdict)), now, works);
      t.own == Owner(false, None, None, None) && t.watch.logTarget == Some(id) && t.watch.dues.log == At(0)
      && t.past.writes == s.past.writes
  {
  }

  /** From any quiet state of any run: a click, a timer, the acceptance, a timer and a terminal record take an
      action through the page. It has been written once, and the controls are free again. */
  lemma ActionRunsThrough(s: State, config: bool, verdict: Verdict, now: int, works: bool)
    requires Quiet(s) && now >= 0 && !verdict.Running?
    ensures var (a, n) := (Clicked(s, config, now), s.past.requests);
      var t := Run(s, [Step(Click(config), now, works), Step(Timer, now, works), Step(Answer(n, Accepted(a.id)), now, works),
                       Step(Timer, now, works), Step(Answer(n + 1, Record(a.id, verdict)), now, works)]);
      && t.own == Owner(false, None, None, None) && t.past.writes == s.past.writes + [a]
      && t.watch.logTarget == Some(a.id) && t.watch.dues.log == At(0)
  {
    hide Next;
    var a, n := Clicked(s, config, now), s.past.requests;
    ClickIsWritten(s, config, now, works);
    var t := Next(Next(s, Click(config), now, works), Timer, now, works);
    AcceptedIsFollowed(t, a, n, now, works);
    var u := Next(Next(t, Answer(n, Accepted(a.id)), now, works), Timer, now, works);
    EndedIsFree(u, a.id, n + 1, verdict, now, works);
    RunFive(s, Step(Click(config), now, works), Step(Timer, now, works), Step(Answer(n, Accepted(a.id)), now, works),
            Step(Timer, now, works), Step(Answer(n + 1, Record(a.id, verdict)), now, works));
  }

  function After(s: State, x: Step): State {
    Next(s, x.event, x.now, x.works)
  }

  lemma RunFive(s: State, a: Step, b: Step, c: Step, d: Step, e: Step)
    ensures Run(s, [a, b, c, d, e]) == After(After(After(After(After(s, a), b), c), d), e)
  {
    hide Next;
    assert [a, b, c, d, e][1..] == [b, c, d, e] && [b, c, d, e][1..] == [c, d, e] && [c, d, e][1..] == [d, e];
    assert [d, e][1..] == [e] && [e][1..] == [];
    assert Run(After(After(After(After(s, a), b), c), d), [e]) == After(After(After(After(After(s, a), b), c), d), e);
    assert Run(After(After(After(s, a), b), c), [d, e]) == Run(After(After(After(After(s, a), b), c), d), [e]);
    assert Run(After(After(s, a), b), [c, d, e]) == Run(After(After(After(s, a), b), c), [d, e]);
    assert Run(After(s, a), [b, c, d, e]) == Run(After(After(s, a), b), [c, d, e]);
  }
}
