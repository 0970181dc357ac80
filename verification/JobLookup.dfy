/** The lookup of plugin/scripts/tailscale_job against the operations it asks about: one lock, one record file
    per job, and any number of lookups and operations taking their steps in any order. */
module JobLookup {
  import opened Wrappers

  /** The lock, as flock on operation.lock hands it out. Operations without a request have no job id. */
  datatype Holder = Nobody | Operation(job: Option<nat>) | Lookup(l: nat)

  /** What was true when a lookup read the record for the second time: whether an operation held the lock,
      and whether the job had a record, had been accepted, and had lost its record again. */
  datatype Moment = Moment(operation: bool, record: bool, accepted: bool, gone: bool)

  datatype Stage =
    | Missed(job: nat)
    | Locked(job: nat)
    | Looked(job: nat, moment: Moment)
    | Free(job: nat, moment: Moment)
    | Busy(job: nat, held: bool)

  datatype Reply = Record(job: nat) | Unknown(job: nat, busy: bool, held: bool, moment: Option<Moment>)

  /** `records` are the readable record files; `accepted` and `gone` are history: jobs told `accepted`, and
      records that were pruned or lost. */
  datatype Sys = Sys(holder: Holder, records: set<nat>, lookups: map<nat, Stage>,
                     accepted: set<nat>, gone: set<nat>, sent: seq<Reply>)

  datatype Event =
    | Begin(request: Option<nat>)
    | Publish(pruned: set<nat>, works: bool)
    | End
    | First(l: nat, job: nat)
    | Lock(l: nat)
    | Second(l: nat)
    | Unlock(l: nat)
    | Answer(l: nat)
    | Dies(l: nat)
    | PowerLost

  function Drop(s: Sys, ids: set<nat>): Sys {
    s.(records := s.records - ids, gone := s.gone + s.records * ids)
  }

  function Put(s: Sys, l: nat, stage: Stage): Sys {
    s.(lookups := s.lookups[l := stage])
  }

  function Finish(s: Sys, l: nat, reply: Reply): Sys {
    s.(lookups := s.lookups - {l}, sent := s.sent + [reply])
  }

  /** ts_job_begin: old records are pruned, then the new one is renamed into place. */
  function Publishing(s: Sys, job: nat, pruned: set<nat>, works: bool): Sys {
    var t := Drop(s, pruned);
    if works then t.(records := t.records + {job}, accepted := t.accepted + {job}, gone := t.gone - {job})
    else t.(holder := Nobody)
  }

  /** A lookup that holds the lock and is killed lets it go. */
  function Gone(s: Sys, l: nat): Sys {
    s.(holder := if s.holder == Lookup(l) then Nobody else s.holder, lookups := s.lookups - {l})
  }

  function Take(s: Sys, l: nat): Sys
    requires l in s.lookups
  {
    match s.lookups[l]
    case Missed(job) =>
      if s.holder.Nobody? then Put(s.(holder := Lookup(l)), l, Locked(job)) else Put(s, l, Busy(job, !s.holder.Nobody?))
    case _ => s
  }

  function Read(s: Sys, l: nat): Sys
    requires l in s.lookups
  {
    match s.lookups[l]
    case Locked(job) =>
      Put(s, l, Looked(job, Moment(s.holder.Operation?, job in s.records, job in s.accepted, job in s.gone)))
    case _ => s
  }

  function Release(s: Sys, l: nat): Sys
    requires l in s.lookups
  {
    match s.lookups[l]
    case Looked(job, moment) =>
      var t := s.(holder := Nobody);
      if moment.record then Finish(t, l, Record(job)) else Put(t, l, Free(job, moment))
    case _ => s
  }

  function Send(s: Sys, l: nat): Sys
    requires l in s.lookups
  {
    match s.lookups[l]
    case Free(job, moment) => Finish(s, l, Unknown(job, false, false, Some(moment)))
    case Busy(job, held) => Finish(s, l, Unknown(job, true, held, None))
    case _ => s
  }

  function Next(s: Sys, e: Event): Sys {
    match e
    case Begin(job) => if s.holder.Nobody? then s.(holder := Operation(job)) else s
    case Publish(pruned, works) =>
      if s.holder.Operation? && s.holder.job.Some? then Publishing(s, s.holder.job.value, pruned, works) else s
    case End => if s.holder.Operation? then s.(holder := Nobody) else s
    case First(l, job) =>
      if l in s.lookups then s
      else if job in s.records then s.(sent := s.sent + [Record(job)])
      else Put(s, l, Missed(job))
    case Lock(l) => if l in s.lookups then Take(s, l) else s
    case Second(l) => if l in s.lookups then Read(s, l) else s
    case Unlock(l) => if l in s.lookups then Release(s, l) else s
    case Answer(l) => if l in s.lookups then Send(s, l) else s
    case Dies(l) => Gone(s, l)
    case PowerLost => Drop(s, s.records).(holder := Nobody, lookups := map[])
  }

  function Run(s: Sys, events: seq<Event>): Sys
    decreases |events|
  {
    if events == [] then s else Run(Next(s, events[0]), events[1..])
  }

  const IDLE := Sys(Nobody, {}, map[], {}, {}, [])

  // ---- Safety ---------------------------------------------------------------------------------------------

  predicate Holds(stage: Stage) {
    stage.Locked? || stage.Looked?
  }

  /** What a lookup that found nothing may claim. */
  predicate Honest(moment: Moment) {
    !moment.operation && (!moment.record ==> !moment.accepted || moment.gone)
  }

  predicate StageOk(s: Sys, l: nat)
    requires l in s.lookups
  {
    var stage := s.lookups[l];
    && (Holds(stage) <==> s.holder == Lookup(l))
    && (stage.Looked? ==> Honest(stage.moment) && (stage.moment.record || stage.job !in s.records))
    && (stage.Free? ==> Honest(stage.moment) && !stage.moment.record)
    && (stage.Busy? ==> stage.held)
  }

  predicate ReplyOk(r: Reply) {
    r.Unknown? ==>
      && (r.busy ==> r.held)
      && (!r.busy ==> r.moment.Some? && Honest(r.moment.value) && !r.moment.value.record)
  }

  predicate Inv(s: Sys) {
    && (forall l | l in s.lookups :: StageOk(s, l))
    && (s.holder.Lookup? ==> s.holder.l in s.lookups)
    && (forall j | j in s.accepted :: j in s.records || j in s.gone)
    && (forall r | r in s.sent :: ReplyOk(r))
  }

  lemma Inductive(s: Sys, e: Event)
    requires Inv(s)
    ensures Inv(Next(s, e))
  {
  }

  lemma {:induction false} RunKeeps(s: Sys, events: seq<Event>)
    requires Inv(s)
    ensures Inv(Run(s, events))
    decreases |events|
  {
    hide Inv, Next;
    if events != [] {
      Inductive(s, events[0]);
      RunKeeps(Next(s, events[0]), events[1..]);
    }
  }

  /** Every reply of every run that says operation_busy=false was true when the lock was held: no operation
      held it, the job had no record, and it had never been accepted unless its record had gone since. One that
      says operation_busy=true met a held lock. */
  lemma FreeRepliesAreTrue(events: seq<Event>, r: Reply)
    requires r in Run(IDLE, events).sent && r.Unknown?
    ensures r.busy ==> r.held
    ensures !r.busy ==>
            r.moment.Some? && !r.moment.value.operation && !r.moment.value.record
            && (r.moment.value.accepted ==> r.moment.value.gone)
  {
    RunKeeps(IDLE, events);
    assert ReplyOk(r);
  }

  /** While a lookup holds the lock nothing can take it or add a record, so what it read is still true
      when it lets go. */
  lemma LockedLookupIsAlone(s: Sys, e: Event, l: nat)
    requires Inv(s) && l in s.lookups && Holds(s.lookups[l])
    ensures var t := Next(s, e);
            l in t.lookups && Holds(t.lookups[l]) ==>
              t.holder == Lookup(l) && t.records <= s.records
  {
  }

  /** A lookup that nothing interrupts: without an operation it answers that none is busy, or with the record if
      there is one; while an operation holds the lock it answers that one is busy. */
  lemma LookupAnswers(s: Sys, l: nat, job: nat)
    requires Inv(s) && l !in s.lookups
    ensures job in s.records ==> Next(s, First(l, job)).sent == s.sent + [Record(job)]
    ensures job !in s.records && s.holder.Nobody? ==>
              var t := Next(Next(Next(Next(Next(s, First(l, job)), Lock(l)), Second(l)), Unlock(l)), Answer(l));
              t.sent == s.sent + [Unknown(job, false, false, Some(Moment(false, false, job in s.accepted, job in s.gone)))]
              && t.holder.Nobody?
    ensures job !in s.records && !s.holder.Nobody? ==>
              Next(Next(Next(s, First(l, job)), Lock(l)), Answer(l)).sent == s.sent + [Unknown(job, true, true, None)]
  {
  }

  /** A record published between the first look and the lock is what the lookup answers with. */
  lemma LateRecordIsFound(s: Sys, l: nat, job: nat)
    requires l in s.lookups && s.lookups[l] == Missed(job) && s.holder.Nobody? && job in s.records
    ensures Next(Next(Next(s, Lock(l)), Second(l)), Unlock(l)).sent == s.sent + [Record(job)]
  {
  }

  /** The reply speaks of that moment only: an operation for the same job may start before it is sent. */
  lemma OperationMayFollow(s: Sys, l: nat, job: nat, moment: Moment)
    requires l in s.lookups && s.lookups[l] == Looked(job, moment) && !moment.record
    ensures var t := Next(Next(Next(s, Unlock(l)), Begin(Some(job))), Answer(l));
            t.holder == Operation(Some(job)) && t.sent == s.sent + [Unknown(job, false, false, Some(moment))]
  {
  }

  /** What a reply with operation_busy=false says of a job. */
  predicate Idle(s: Sys, job: nat) {
    !s.holder.Operation? && job !in s.records
  }

  /** That holds now and after every one of these steps. */
  predicate StaysIdle(s: Sys, job: nat, events: seq<Event>) {
    forall i | 0 <= i <= |events| :: Idle(Run(s, events[..i]), job)
  }

  /** One of these steps gives the lock to an operation. */
  predicate OperationBegins(s: Sys, events: seq<Event>) {
    exists i | 0 <= i < |events| :: events[i].Begin? && Run(s, events[..i]).holder.Nobody?
  }

  lemma PrefixOfRest(s: Sys, events: seq<Event>, i: nat)
    requires 0 < i <= |events|
    ensures Run(s, events[..i]) == Run(Next(s, events[0]), events[1..][..i - 1])
  {
    assert events[..i][0] == events[0] && events[..i][1..] == events[1..][..i - 1];
  }

  lemma StaysIdleStep(s: Sys, job: nat, events: seq<Event>)
    requires events != []
    ensures StaysIdle(s, job, events) <==> Idle(s, job) && StaysIdle(Next(s, events[0]), job, events[1..])
  {
    hide Next, Idle;
    var t, rest := Next(s, events[0]), events[1..];
    assert events[..0] == [] && Run(s, []) == s;
    forall i | 0 < i <= |events| ensures Run(s, events[..i]) == Run(t, rest[..i - 1]) {
      PrefixOfRest(s, events, i);
    }
    if StaysIdle(s, job, events) {
      forall i | 0 <= i <= |rest| ensures Idle(Run(t, rest[..i]), job) {
        assert Idle(Run(s, events[..i + 1]), job);
      }
    }
    assert Idle(Run(s, events[..0]), job) <==> Idle(s, job);
  }

  lemma OperationBeginsStep(s: Sys, events: seq<Event>)
    requires events != []
    ensures OperationBegins(s, events) <==>
            (events[0].Begin? && s.holder.Nobody?) || OperationBegins(Next(s, events[0]), events[1..])
  {
    hide Next;
    var t, rest := Next(s, events[0]), events[1..];
    assert events[..0] == [] && Run(s, []) == s;
    if i :| 0 < i < |events| && events[i].Begin? && Run(s, events[..i]).holder.Nobody? {
      PrefixOfRest(s, events, i);
      assert rest[i - 1] == events[i];
    }
    if i :| 0 <= i < |rest| && rest[i].Begin? && Run(t, rest[..i]).holder.Nobody? {
      PrefixOfRest(s, events, i + 1);
      assert events[i + 1] == rest[i];
    }
    if events[0].Begin? && s.holder.Nobody? {
      assert Run(s, events[..0]).holder.Nobody?;
    }
  }

  lemma {:induction false} IdleExactly(s: Sys, job: nat, events: seq<Event>)
    ensures StaysIdle(s, job, events) <==> Idle(s, job) && !OperationBegins(s, events)
    decreases |events|
  {
    if events == [] {
      assert events[..0] == [] && Run(s, []) == s;
    } else {
      var t, rest := Next(s, events[0]), events[1..];
      StaysIdleStep(s, job, events);
      OperationBeginsStep(s, events);
      IdleExactly(t, job, rest);
      assert Idle(s, job) ==> (Idle(t, job) <==> !(events[0].Begin? && s.holder.Nobody?));
    }
  }

  /** From the moment a lookup that found nothing lets the lock go, whatever steps follow, what its reply says
      stays true exactly as long as no operation takes the lock. */
  lemma FreeReplyIsStillTrue(s: Sys, l: nat, job: nat, moment: Moment, events: seq<Event>)
    requires Inv(s) && l in s.lookups && s.lookups[l] == Looked(job, moment) && !moment.record
    ensures var t := Next(s, Unlock(l)); StaysIdle(t, job, events) <==> !OperationBegins(t, events)
  {
    assert StageOk(s, l);
    IdleExactly(Next(s, Unlock(l)), job, events);
  }
}
