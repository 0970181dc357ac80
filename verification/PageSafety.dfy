/** Ownership: who holds the busy flag, which request is outstanding, and what is never sent twice. */
module PageSafety {
  import opened Wrappers
  import opened PageMachine

  function One<T>(o: Option<T>): nat {
    if o.Some? then 1 else 0
  }

  /** `busy` is set exactly when exactly one of pending, submitted and job is. */
  ghost predicate Owned(own: Owner) {
    One(own.pending) + One(own.submitted) + One(own.job) == if own.busy then 1 else 0
  }

  ghost predicate Current(life: Life, past: Past, n: nat) {
    n in past.open && past.open[n].epoch == life.epoch
  }

  /** At most one request of the current epoch is unanswered; it is the submission if there is one. */
  ghost predicate SingleFlight(life: Life, submitted: Option<Task>, past: Past) {
    && (forall n | n in past.open :: n < past.requests && past.open[n].epoch <= life.epoch)
    && (forall n, m | Current(life, past, n) && Current(life, past, m) :: n == m)
    && (life.inFlight <==> exists n :: Current(life, past, n))
    && (life.stopped ==> !life.inFlight)
    && (submitted.Some? ==> life.inFlight)
    && (forall n | Current(life, past, n) ::
          submitted == if past.open[n].request.Submission? then Some(past.open[n].request.task) else None)
  }

  /** No action has been written twice, and the pending one not yet. */
  ghost predicate WrittenOnce(pending: Option<Task>, past: Past) {
    && (forall i, j | 0 <= i < j < |past.writes| :: past.writes[i].birth.serial != past.writes[j].birth.serial)
    && (forall i | 0 <= i < |past.writes| :: past.writes[i].birth.serial < past.serials)
    && (pending.Some? ==>
          && pending.value.birth.serial < past.serials
          && forall i | 0 <= i < |past.writes| :: past.writes[i].birth.serial != pending.value.birth.serial)
  }

  ghost predicate Inv(s: State) {
    Owned(s.own) && SingleFlight(s.life, s.own.submitted, s.past) && WrittenOnce(s.own.pending, s.past)
  }

  /** Before the page is loaded for the first time. */
  ghost predicate Blank(s: State) {
    && s.life == Life(false, false, false, 0, false) && s.own == Owner(false, None, None, None)
    && s.past.open == map[] && s.past.writes == []
  }

  // ---- Requests ------------------------------------------------------------------------------------

  /** Only the timer changed, or a stop was undone. */
  lemma SameFlight(life: Life, life': Life, submitted: Option<Task>, past: Past, past': Past)
    requires SingleFlight(life, submitted, past)
    requires past'.open == past.open && past'.requests == past.requests
    requires life'.epoch == life.epoch && life'.inFlight == life.inFlight && (life'.stopped ==> life.stopped)
    ensures SingleFlight(life', submitted, past')
  {
    assert forall n :: Current(life', past', n) <==> Current(life, past, n);
  }

  lemma SendKeeps(s: State, r: Request)
    requires SingleFlight(s.life, None, s.past) && !s.life.inFlight && !s.life.stopped
    ensures var t := Send(s, r);
      SingleFlight(t.life, if r.Submission? then Some(r.task) else None, t.past)
  {
    var t := Send(s, r);
    assert Current(t.life, t.past, s.past.requests);
    forall n | Current(t.life, t.past, n) ensures n == s.past.requests {
      assert n != s.past.requests ==> Current(s.life, s.past, n);
    }
  }

  /** An answered request is forgotten; if it was current, the page is no longer in flight. */
  lemma AnswerKeeps(life: Life, submitted: Option<Task>, past: Past, n: nat)
    requires SingleFlight(life, submitted, past) && n in past.open
    ensures var past' := past.(open := past.open - {n});
      if Current(life, past, n) then SingleFlight(life.(inFlight := false), None, past')
      else SingleFlight(life, submitted, past')
  {
    var past' := past.(open := past.open - {n});
    forall m ensures Current(life, past', m) <==> Current(life, past, m) && m != n {
      assert m in past'.open <==> m in past.open && m != n;
    }
    forall m ensures Current(life.(inFlight := false), past', m) <==> Current(life, past', m) {
    }
    forall m | m in past'.open ensures m < past.requests && past'.open[m].epoch <= life.epoch {
      assert m in past.open;
    }
  }

  // ---- Events --------------------------------------------------------------------------------------

  /** What a reply handler does to the owner of the busy flag: nothing else of the invariant is touched. */
  ghost predicate Handled(s: State, t: State) {
    t.life == s.life && t.past == s.past && t.own.pending == s.own.pending && t.own.submitted.None? && Owned(t.own)
  }

  lemma HandleKeeps(s: State, request: Request, reply: Reply, now: int, works: bool)
    requires Owned(s.own)
    requires s.own.submitted == if request.Submission? then Some(request.task) else None
    ensures Handled(s, Handle(s, request, reply, now, works))
  {
  }

  lemma CompleteKeeps(s: State, n: nat, reply: Reply, now: int, works: bool)
    requires Inv(s)
    ensures Inv(Complete(s, n, reply, now, works))
  {
    hide Handle, SingleFlight, Owned, WrittenOnce;
    if n in s.past.open {
      AnswerKeeps(s.life, s.own.submitted, s.past, n);
      CurrentIsSubmission(s, n);
      var t := s.(past := s.past.(open := s.past.open - {n}));
      if Current(s.life, s.past, n) {
        var u := t.(life := t.life.(inFlight := false));
        HandleKeeps(u, s.past.open[n].request, reply, now, works);
        var v := Handle(u, s.past.open[n].request, reply, now, works);
        SameFlight(u.life, Schedule(v).life, None, u.past, v.past);
      }
      PastKeeps(s.own.pending, s.past, t.past);
    }
  }

  lemma CurrentIsSubmission(s: State, n: nat)
    requires Inv(s) && n in s.past.open
    ensures Current(s.life, s.past, n) ==> !s.life.stopped
    ensures Current(s.life, s.past, n) ==>
      s.own.submitted == if s.past.open[n].request.Submission? then Some(s.past.open[n].request.task) else None
  {
  }

  lemma PastKeeps(pending: Option<Task>, past: Past, past': Past)
    requires WrittenOnce(pending, past) && past'.writes == past.writes && past'.serials == past.serials
    ensures WrittenOnce(pending, past')
  {
  }

  lemma SubmitKeeps(s: State, a: Task, works: bool)
    requires Inv(s) && s.own.pending == Some(a) && !s.life.inFlight && !s.life.stopped
    ensures Inv(Submit(s, a, works))
  {
    var t := s.(own := s.own.(pending := None, submitted := Some(a)), past := s.past.(writes := s.past.writes + [a]));
    assert forall n :: Current(t.life, t.past, n) <==> Current(s.life, s.past, n);
    SendKeeps(Stored(t, Some(a), works), Submission(a));
  }

  lemma ReadKeeps(s: State, read: Read, expected: nat)
    requires Inv(s) && !s.life.inFlight && !s.life.stopped
    ensures Inv(SendRead(s, read, expected))
  {
    var t := if read.LogRead? || read.ConfigRead? then s else DrawId(s);
    SameFlight(s.life, t.life, s.own.submitted, s.past, t.past);
    SendKeeps(t, Poll(read, expected));
  }

  lemma PumpKeeps(s: State, now: int, works: bool)
    requires Inv(s)
    ensures Inv(Pump(s, now, works))
  {
    hide SingleFlight, Owned, WrittenOnce, DueOf, Oldest, Target, Submit, SendRead;
    if !s.life.stopped && s.life.started && !s.life.inFlight {
      if s.own.pending.Some? {
        SubmitKeeps(s, s.own.pending.value, works);
      } else {
        var t := Pause(s, now);
        ReadKeeps(t, Oldest(t), Target(t, Oldest(t)));
        SameFlight(t.life, Schedule(t).life, t.own.submitted, t.past, t.past);
      }
    }
  }

  lemma ClickKeeps(s: State, config: bool, now: int)
    requires Inv(s)
    ensures Inv(Act(s, config, now))
  {
    var t := Act(s, config, now);
    SameFlight(s.life, t.life, s.own.submitted, s.past, t.past);
  }

  lemma StopKeeps(s: State, now: int, works: bool)
    requires Inv(s)
    ensures Inv(StopPage(s, now, works))
  {
  }

  lemma LoadKeeps(s: State, random: nat, now: int, works: bool)
    requires Inv(s)
    ensures Inv(Load(s, random, now, works))
  {
  }

  lemma ControlKeeps(s: State, e: Event, now: int, works: bool)
    requires Inv(s) && (e.KeepWaiting? || e.RetryLog? || e.Resume?)
    ensures Inv(Next(s, e, now, works))
  {
    var t := Next(s, e, now, works);
    SameFlight(s.life, t.life, s.own.submitted, s.past, t.past);
  }

  lemma Inductive(s: State, e: Event, now: int, works: bool)
    requires Inv(s)
    ensures Inv(Next(s, e, now, works))
  {
    hide Pump, Complete, Act, StopPage, Load, Wait, Retry, ResumePage, SingleFlight, Owned, WrittenOnce;
    match e
    case Click(config) => ClickKeeps(s, config, now);
    case Timer =>
      if s.life.timer {
        var t := s.(life := s.life.(timer := false));
        SameFlight(s.life, t.life, s.own.submitted, s.past, s.past);
        PumpKeeps(t, now, works);
      }
    case Answer(n, reply) => CompleteKeeps(s, n, reply, now, works);
    case Stop => StopKeeps(s, now, works);
    case Reload(random) => LoadKeeps(s, random, now, works);
    case KeepWaiting => ControlKeeps(s, e, now, works);
    case RetryLog => ControlKeeps(s, e, now, works);
    case Resume => ControlKeeps(s, e, now, works);
  }

  // ---- Runs ------------------------------------------------------------------------------------------

  datatype Step = Step(event: Event, now: int, works: bool)

  function Run(s: State, steps: seq<Step>): State
    decreases |steps|
  {
    if steps == [] then s else Run(Next(s, steps[0].event, steps[0].now, steps[0].works), steps[1..])
  }

  /** In every state the page can reach, across stops, resumes and reloads: the busy flag has exactly
      one owner, at most one request of this epoch is open, and no action was submitted twice. */
  lemma {:induction false} ReachableIsOwned(s: State, steps: seq<Step>)
    requires Blank(s) || Inv(s)
    ensures Inv(Run(s, steps))
    decreases |steps|
  {
    if steps != [] {
      assert Inv(s);
      Inductive(s, steps[0].event, steps[0].now, steps[0].works);
      ReachableIsOwned(Next(s, steps[0].event, steps[0].now, steps[0].works), steps[1..]);
    }
  }

  /** The replies that release the controls. */
  predicate Releases(request: Request, reply: Reply) {
    match request
    case Submission(a) => reply.Rejected? || (reply.TooLong? && a.config)
    case Poll(read, expected) =>
      read.JobRead? &&
      ((reply.Unknown? && reply.id == expected && reply.free) ||
       (reply.Record? && reply.id == expected && !reply.verdict.Running?))
  }

  /** Controls are freed only by an explicit rejection of the submission, a terminal record of the
      followed job, or word that no operation owns its missing record. Loading a page anew frees
      them only when the browser holds no unfinished task. */
  lemma WhoFreesTheControls(s: State, e: Event, now: int, works: bool)
    requires Inv(s) && s.own.busy && !Next(s, e, now, works).own.busy
    ensures e.Reload? || e.Answer?
    ensures e.Reload? ==> s.store.None?
    ensures e.Answer? ==>
      && Current(s.life, s.past, e.n) && !s.life.stopped
      && var request := s.past.open[e.n].request;
         Releases(request, e.reply) &&
         (if request.Submission? then s.own.submitted == Some(request.task)
          else s.own.job.Some? && s.own.job.value.id == request.expected)
  {
  }

  /** And every such reply to the open request does free them. */
  lemma FreesExactly(s: State, n: nat, reply: Reply, now: int, works: bool)
    requires Inv(s) && s.own.busy && Current(s.life, s.past, n)
    ensures !Complete(s, n, reply, now, works).own.busy <==>
      var request := s.past.open[n].request;
      Releases(request, reply) && (request.Submission? || (s.own.job.Some? && s.own.job.value.id == request.expected))
  {
    hide SingleFlight, WrittenOnce, Owned, Handle, Releases;
    CurrentIsSubmission(s, n);
    var u := s.(past := s.past.(open := s.past.open - {n}), life := s.life.(inFlight := false));
    HandleFrees(u, s.past.open[n].request, reply, now, works);
  }

  lemma HandleFrees(s: State, request: Request, reply: Reply, now: int, works: bool)
    requires Owned(s.own) && s.own.busy && s.own.submitted == if request.Submission? then Some(request.task) else None
    ensures !Handle(s, request, reply, now, works).own.busy <==>
      Releases(request, reply) && (request.Submission? || (s.own.job.Some? && s.own.job.value.id == request.expected))
  {
  }

  /** A started page that is not stopped has a timer set or a request open, so polling never stalls. */
  ghost predicate Awake(life: Life) {
    life.started && !life.stopped ==> life.timer || life.inFlight
  }

  lemma StaysAwake(s: State, e: Event, now: int, works: bool)
    requires Inv(s) && Awake(s.life)
    ensures Awake(Next(s, e, now, works).life)
  {
  }
}
