/** The ids under which actions are written: when two of them are the same, over every run of the page. */
module PageIds {
  import opened Wrappers
  import opened PageMachine
  import opened PageSafety

  /** Where the chain of ids of a load begins: at the random number, or at the job taken over if that is higher. */
  function Base(s: Start): nat {
    if s.stored.Some? && s.random % MAX_ID < s.stored.value then s.stored.value else s.random % MAX_ID
  }

  /** The id an action gets, from the start of its load and the ids drawn there before it. */
  function IdOf(b: Birth): nat {
    (Base(b.start) + b.draw) % MAX_ID + 1
  }

  /** The load and the draw of an action are those the page keeps count of. */
  ghost predicate Born(a: Task, p: Past) {
    && a.id == IdOf(a.birth) && a.birth.load <= p.load
    && (a.birth.load == p.load ==> a.birth.start == p.start && a.birth.draw < p.draws)
  }

  /** Later actions belong to later loads, or to later draws of the same one. */
  ghost predicate Later(a: Birth, b: Birth) {
    a.load < b.load || (a.load == b.load && a.start == b.start && a.draw < b.draw)
  }

  ghost predicate Chained(lastId: nat, pending: Option<Task>, p: Past) {
    && lastId % MAX_ID == (Base(p.start) + p.draws) % MAX_ID
    && (forall i | 0 <= i < |p.writes| :: Born(p.writes[i], p))
    && (forall i, j | 0 <= i < j < |p.writes| :: Later(p.writes[i].birth, p.writes[j].birth))
    && (pending.Some? ==>
          && Born(pending.value, p) && pending.value.birth.load == p.load
          && forall i | 0 <= i < |p.writes| :: Later(p.writes[i].birth, pending.value.birth))
  }

  ghost predicate IdInv(s: State) {
    Inv(s) && Chained(s.lastId, s.own.pending, s.past)
  }

  // ---- Events ----------------------------------------------------------------------------------------

  lemma NextIsOf(last: nat, base: nat, draws: nat)
    requires last % MAX_ID == (base + draws) % MAX_ID
    ensures NextId(last) == (base + draws) % MAX_ID + 1
    ensures NextId(last) % MAX_ID == (base + draws + 1) % MAX_ID
  {
  }

  lemma DrawKeeps(s: State)
    requires Chained(s.lastId, s.own.pending, s.past)
    ensures var t := DrawId(s);
            && Chained(t.lastId, s.own.pending, t.past)
            && t.lastId == IdOf(Birth(0, s.past.load, s.past.start, s.past.draws))
  {
    NextIsOf(s.lastId, Base(s.past.start), s.past.draws);
  }

  /** A step that draws no id, writes nothing and is no load. */
  lemma SameIds(s: State, t: State)
    requires Chained(s.lastId, s.own.pending, s.past)
    requires t.lastId == s.lastId && (t.own.pending == s.own.pending || t.own.pending.None?)
    requires t.past.writes == s.past.writes && t.past.load == s.past.load
    requires t.past.start == s.past.start && t.past.draws == s.past.draws
    ensures Chained(t.lastId, t.own.pending, t.past)
  {
  }

  lemma ClickChained(s: State, config: bool, now: int)
    requires Owned(s.own) && Chained(s.lastId, s.own.pending, s.past)
    ensures var t := Act(s, config, now); Chained(t.lastId, t.own.pending, t.past)
  {
    if !s.own.busy && s.watch.configReady && !s.life.stopped {
      DrawKeeps(s);
      var u, t := DrawId(s), Act(s, config, now);
      assert t.past.writes == s.past.writes && t.past.draws == u.past.draws;
      forall i | 0 <= i < |s.past.writes| ensures Later(s.past.writes[i].birth, t.own.pending.value.birth) {
        assert Born(s.past.writes[i], s.past);
      }
    }
  }

  lemma SubmitChained(s: State, works: bool)
    requires s.own.pending.Some? && Chained(s.lastId, s.own.pending, s.past)
    ensures var t := Submit(s, s.own.pending.value, works); Chained(t.lastId, t.own.pending, t.past)
  {
  }

  lemma PumpChained(s: State, now: int, works: bool)
    requires Chained(s.lastId, s.own.pending, s.past)
    ensures var t := Pump(s, now, works); Chained(t.lastId, t.own.pending, t.past)
  {
    hide Chained, Submit, DueOf, Oldest, Target;
    if !s.life.stopped && s.life.started && !s.life.inFlight {
      if s.own.pending.Some? {
        SubmitChained(s, works);
      } else {
        var u := Pause(s, now);
        var next := Oldest(u);
        SameIds(s, u);
        DrawKeeps(u);
        if next.LogRead? || next.ConfigRead? {
          SameIds(u, SendRead(u, next, Target(u, next)));
        } else {
          SameIds(DrawId(u), SendRead(u, next, Target(u, next)));
        }
        SameIds(u, Schedule(u));
      }
    }
  }

  lemma LoadChained(s: State, random: nat, now: int, works: bool)
    requires Chained(s.lastId, s.own.pending, s.past) || s.past.writes == []
    ensures var t := Load(s, random, now, works); Chained(t.lastId, t.own.pending, t.past)
  {
    var t := Load(s, random, now, works);
    assert t.past.writes == s.past.writes && t.own.pending.None? && t.past.load == s.past.load + 1;
    assert t.lastId == Base(t.past.start) && t.past.draws == 0;
  }

  lemma {:induction false} HandleChained(s: State, request: Request, reply: Reply, now: int, works: bool)
    ensures var t := Handle(s, request, reply, now, works);
            t.lastId == s.lastId && t.own.pending == s.own.pending && t.past == s.past
  {
  }

  lemma StepChained(s: State, e: Event, now: int, works: bool)
    requires IdInv(s)
    ensures IdInv(Next(s, e, now, works))
  {
    hide Chained, Inv, Act, Pump, Load, Handle;
    Inductive(s, e, now, works);
    var t := Next(s, e, now, works);
    match e
    case Click(config) => OwnedOf(s); ClickChained(s, config, now);
    case Timer =>
      if s.life.timer {
        var u := s.(life := s.life.(timer := false));
        SameIds(s, u);
        PumpChained(u, now, works);
      }
    case Answer(n, reply) =>
      if n in s.past.open {
        var u := s.(past := s.past.(open := s.past.open - {n}));
        var v := u.(life := u.life.(inFlight := false));
        HandleChained(v, s.past.open[n].request, reply, now, works);
        SameIds(s, t);
      }
    case Reload(random) => LoadChained(s, random, now, works);
    case Stop => SameIds(s, t);
    case Resume => SameIds(s, t);
    case KeepWaiting => SameIds(s, t);
    case RetryLog => SameIds(s, t);
  }

  lemma OwnedOf(s: State)
    requires Inv(s)
    ensures Owned(s.own)
  {
  }

  lemma {:induction false} RunChained(s: State, steps: seq<Step>)
    requires IdInv(s)
    ensures IdInv(Run(s, steps))
    decreases |steps|
  {
    hide IdInv, Next;
    if steps != [] {
      StepChained(s, steps[0].event, steps[0].now, steps[0].works);
      RunChained(Next(s, steps[0].event, steps[0].now, steps[0].works), steps[1..]);
    }
  }

  // ---- When ids repeat ----------------------------------------------------------------------------------

  lemma SameRemainder(a: nat, b: nat)
    ensures a % MAX_ID == b % MAX_ID <==> (a - b) % MAX_ID == 0
  {
  }

  /** Over every run from a first load, for any two writes of the page: within one load they carry the same id
      exactly when the ids drawn between them are a multiple of 99999999; across loads exactly when the starts
      and the draws of both make up a multiple of it. */
  lemma WritesRepeatExactly(s: State, random: nat, now: int, works: bool, steps: seq<Step>, i: nat, j: nat)
    requires Blank(s) && i < j < |Run(Load(s, random, now, works), steps).past.writes|
    ensures var w := Run(Load(s, random, now, works), steps).past.writes;
            var a, b := w[i].birth, w[j].birth;
            && a.load <= b.load
            && (a.load == b.load ==>
                  a.start == b.start && a.draw < b.draw && (w[i].id == w[j].id <==> (b.draw - a.draw) % MAX_ID == 0))
            && (w[i].id == w[j].id <==> (Base(b.start) + b.draw - (Base(a.start) + a.draw)) % MAX_ID == 0)
  {
    hide Load, Run, Chained;
    var t := Load(s, random, now, works);
    LoadKeeps(s, random, now, works);
    LoadChained(s, random, now, works);
    RunChained(t, steps);
    WritesOf(Run(t, steps), i, j);
    var w := Run(t, steps).past.writes;
    SameRemainder(Base(w[j].birth.start) + w[j].birth.draw, Base(w[i].birth.start) + w[i].birth.draw);
  }

  lemma WritesOf(s: State, i: nat, j: nat)
    requires Chained(s.lastId, s.own.pending, s.past) && i < j < |s.past.writes|
    ensures var a, b := s.past.writes[i], s.past.writes[j];
            a.id == IdOf(a.birth) && b.id == IdOf(b.birth) && Later(a.birth, b.birth)
  {
    assert Born(s.past.writes[i], s.past) && Born(s.past.writes[j], s.past);
  }

  // ---- A run that writes one id twice ---------------------------------------------------------------------

  /** A load without a job to take over, its settings read, a click, and the submission; all at time 0. */
  function OneWrite(s: State, random: nat): seq<Step> {
    [Step(Reload(random), 0, true), Step(Timer, 0, true), Step(Answer(s.past.requests, Data), 0, true),
     Step(Click(false), 0, true), Step(Timer, 0, true)]
  }

  function After(s: State, step: Step): State {
    Next(s, step.event, step.now, step.works)
  }

  lemma RunFive(s: State, a: Step, b: Step, c: Step, d: Step, e: Step)
    ensures Run(s, [a, b, c, d, e]) == After(After(After(After(After(s, a), b), c), d), e)
  {
    hide Next;
    assert [a, b, c, d, e][1..] == [b, c, d, e] && [b, c, d, e][1..] == [c, d, e];
    assert [c, d, e][1..] == [d, e] && [d, e][1..] == [e] && [e][1..] == [];
    var t := After(After(s, a), b);
    assert Run(s, [a, b, c, d, e]) == Run(t, [c, d, e]);
    assert Run(t, [c, d, e]) == Run(After(t, c), [d, e]);
    assert Run(After(t, c), [d, e]) == Run(After(After(t, c), d), [e]);
  }

  lemma LoadReads(s: State, random: nat)
    requires s.store.None?
    ensures var t := After(After(s, Step(Reload(random), 0, true)), Step(Timer, 0, true));
            var p := Loaded(s.past, random, None);
            && t.life == Life(true, false, true, 0, false) && t.own == Owner(false, None, None, None)
            && t.watch == Watch(false, None, 0, false, Dues(At(0), At(0), At(0), At(0), At(0)))
            && t.lastId == random % MAX_ID && t.store.None?
            && t.past == p.(open := map[p.requests := Sent(0, Poll(ConfigRead, 0))], requests := p.requests + 1)
  {
  }

  lemma ClickWrites(s: State, n: nat)
    requires s.life == Life(true, false, true, 0, false) && s.own == Owner(false, None, None, None)
    requires n in s.past.open && s.past.open[n] == Sent(0, Poll(ConfigRead, 0))
    ensures var t := After(After(After(s, Step(Answer(n, Data), 0, true)), Step(Click(false), 0, true)), Step(Timer, 0, true));
            && t.life == Life(true, false, true, 0, false) && t.past.requests == s.past.requests + 1
            && |t.past.writes| == |s.past.writes| + 1 && t.past.writes[..|s.past.writes|] == s.past.writes
            && var a := t.past.writes[|s.past.writes|];
               && a.id == NextId(s.lastId) && a.birth.load == s.past.load && a.birth.serial == s.past.serials
               && t.own == Owner(true, None, Some(a), None) && t.past.serials == s.past.serials + 1
               && s.past.requests in t.past.open && t.past.open[s.past.requests] == Sent(0, Submission(a))
               && t.past.load == s.past.load
  {
    var u := After(After(s, Step(Answer(n, Data), 0, true)), Step(Click(false), 0, true));
    assert u.own.pending.Some? && u.life.timer && !u.life.inFlight;
  }

  /** Each load with the same random number and nothing to take over writes its first action under the same id. */
  lemma LoadWrites(s: State, random: nat)
    requires s.store.None?
    ensures var t := Run(s, OneWrite(s, random)); var n := s.past.requests + 1;
            && t.life == Life(true, false, true, 0, false)
            && |t.past.writes| == |s.past.writes| + 1 && t.past.writes[..|s.past.writes|] == s.past.writes
            && var a := t.past.writes[|s.past.writes|];
               && a.id == random % MAX_ID + 1 && a.birth.load == s.past.load + 1 && a.birth.serial == s.past.serials
               && t.own == Owner(true, None, Some(a), None) && t.past.serials == s.past.serials + 1
               && n in t.past.open && t.past.open[n] == Sent(0, Submission(a)) && t.past.load == s.past.load + 1
  {
    hide Next, Run;
    var steps := OneWrite(s, random);
    RunFive(s, steps[0], steps[1], steps[2], steps[3], steps[4]);
    LoadReads(s, random);
    ClickWrites(After(After(s, steps[0]), steps[1]), s.past.requests);
  }

  /** The first action is rejected, which ends it and frees the page; then the page is loaded again. */
  lemma OneIdTwice(s: State, random: nat)
    requires s.store.None? && s.past.writes == []
    ensures var t := Run(s, OneWrite(s, random));
            var u := After(t, Step(Answer(s.past.requests + 1, Rejected), 0, true));
            var w := Run(u, OneWrite(u, random)).past.writes;
            && |w| == 2 && w[0].id == w[1].id == random % MAX_ID + 1
            && w[0].birth.serial != w[1].birth.serial && w[0].birth.load != w[1].birth.load
  {
    hide Run, OneWrite;
    LoadWrites(s, random);
    var t := Run(s, OneWrite(s, random));
    var u := After(t, Step(Answer(s.past.requests + 1, Rejected), 0, true));
    assert u.store.None? && u.past.writes == t.past.writes && u.past.serials == t.past.serials && u.past.load == t.past.load;
    LoadWrites(u, random);
  }
}
