/** The page object itself: the closure variables of plugin/res/tailscale3.js and the functions that
    update them in place, each proved to be one event of the page machine. */
module Page {
  import opened Wrappers
  import opened PageMachine

  class TaskPage {
    // the closure variables, grouped as in the machine
    var life: Life
    var own: Owner
    var watch: Watch
    var lastId: nat
    var storage: Option<Task>
    /** What the page itself does not keep: calls the browser holds open, and the history of its actions. */
    var past: Past

    ghost function View(): State
      reads this
    {
      State(life, own, watch, lastId, storage, past)
    }

    method ScheduleTimer()
      modifies this`life
      ensures View() == Schedule(old(View()))
    {
      if life.stopped || !life.started { return; }
      life := life.(timer := true);
    }

    method SavePending(value: Option<Task>, works: bool)
      modifies this`storage
      ensures View() == Stored(old(View()), value, works)
    {
      if works { storage := value; }
    }

    /** id() */
    method NewId() returns (id: nat)
      modifies this`lastId, this`past
      ensures View() == DrawId(old(View())) && id == lastId
    {
      lastId := lastId % MAX_ID + 1;
      past := past.(draws := past.draws + 1);
      id := lastId;
    }

    method SendRequest(r: Request)
      modifies this`life, this`past
      ensures View() == Send(old(View()), r)
    {
      life := life.(inFlight := true);
      past := past.(open := past.open[past.requests := Sent(life.epoch, r)], requests := past.requests + 1);
    }

    method StartJob(a: Task, certain: bool, now: int, works: bool)
      modifies this`own, this`watch, this`storage
      ensures View() == BeginJob(old(View()), a, certain, now, works)
    {
      var task := Task(a.id, a.birth, a.config, a.reload || a.config, certain,
                       if a.startedAt <= now then a.startedAt else now);
      own := own.(job := Some(task));
      watch := watch.(jobStarted := task.startedAt, jobPaused := false, logTarget := None,
                      dues := watch.dues.(job := At(0), log := Never));
      SavePending(Some(task), works);
    }

    method SubmitPending(works: bool)
      requires own.pending.Some?
      modifies this
      ensures View() == Submit(old(View()), old(own).pending.value, works)
    {
      var action := own.pending.value;
      own := own.(pending := None, submitted := Some(action));
      past := past.(writes := past.writes + [action]);
      SavePending(Some(action), works);
      SendRequest(Submission(action));
    }

    /** action(): false when the page is busy, not ready or stopped. */
    method Action(config: bool, now: int) returns (accepted: bool)
      modifies this
      ensures View() == Act(old(View()), config, now)
      ensures accepted <==> !old(own).busy && old(watch).configReady && !old(life).stopped
    {
      if own.busy || !watch.configReady || life.stopped { return false; }
      own := own.(busy := true);
      var birth := Birth(past.serials, past.load, past.start, past.draws);
      var id := NewId();
      own := own.(pending := Some(Task(id, birth, config, false, false, now)));
      past := past.(serials := past.serials + 1);
      watch := watch.(logTarget := None, dues := watch.dues.(log := Never));
      ScheduleTimer();
      accepted := true;
    }

    /** The list of reads in pump() is scanned for the oldest due one; the first wins a tie. */
    method FindOldest() returns (next: Read, due: Due)
      ensures next == Oldest(View()) && due == DueOf(View(), next)
    {
      var entries := [
        (JobRead, if own.job.Some? && !watch.jobPaused then watch.dues.job else Never),
        (LogRead, if watch.logTarget.Some? then watch.dues.log else Never),
        (ConfigRead, watch.dues.config),
        (StatusRead, watch.dues.status),
        (InterfacesRead, watch.dues.interfaces)];
      next, due := entries[0].0, entries[0].1;
      var i := 1;
      while i < 5
        invariant 1 <= i <= 5
        invariant due == DueOf(View(), next)
        invariant next == OldestOf(View(), i)
      {
        if entries[i].1.Before(due) { next, due := entries[i].0, entries[i].1; }
        i := i + 1;
      }
      assert OldestOf(View(), 3) == Older(View(), Older(View(), JobRead, LogRead), ConfigRead);
    }

    /** The oldest of the first n reads of the list. */
    static ghost function OldestOf(s: State, n: int): Read {
      if n <= 1 then JobRead
      else if n == 2 then Older(s, JobRead, LogRead)
      else if n == 3 then Older(s, OldestOf(s, 2), ConfigRead)
      else if n == 4 then Older(s, OldestOf(s, 3), StatusRead)
      else Older(s, OldestOf(s, 4), InterfacesRead)
    }

    /** pump() */
    method PumpOnce(now: int, works: bool)
      modifies this
      ensures View() == Pump(old(View()), now, works)
    {
      hide Oldest, DueOf;
      if life.stopped || !life.started || life.inFlight { return; }
      if own.pending.Some? {
        SubmitPending(works);
        return;
      }
      if own.job.Some? && !watch.jobPaused && now - watch.jobStarted >= JOB_WINDOW {
        watch := watch.(jobPaused := true);
      }
      assert View() == Pause(old(View()), now);
      var next, due := FindOldest();
      if due.Passed(now) {
        var expected := if next.JobRead? && own.job.Some? then own.job.value.id
                        else if next.LogRead? && watch.logTarget.Some? then watch.logTarget.value else 0;
        if !next.LogRead? && !next.ConfigRead? {
          var id := NewId();
        }
        SendRequest(Poll(next, expected));
      } else {
        ScheduleTimer();
      }
    }

    /** The callback of submit(). */
    method WriteAnswered(action: Task, reply: Reply, now: int, works: bool)
      modifies this
      ensures View() == OnWrite(old(View()), action, reply, now, works)
    {
      own := own.(submitted := None);
      if reply.TooLong? && action.config {
        SavePending(None, works);
        own := own.(busy := false);
      } else if reply.Rejected? {
        SavePending(None, works);
        own := own.(busy := false);
      } else if !reply.Accepted? || reply.id != action.id {
        StartJob(action, false, now, works);
      } else {
        StartJob(action, true, now, works);
      }
    }

    /** The callback of readJob(). */
    method JobAnswered(expected: nat, reply: Reply, now: int, works: bool)
      modifies this
      ensures View() == OnJob(old(View()), expected, reply, now, works)
    {
      if own.job.None? || own.job.value.id != expected { return; }
      watch := watch.(dues := watch.dues.(job := At(now + 1500)));
      if reply.Unknown? && reply.id == expected && reply.free {
        own := own.(job := None, busy := false);
        SavePending(None, works);
        watch := watch.(jobPaused := false, logTarget := None, configReady := false,
                        dues := Dues(watch.dues.job, Never, At(0), At(0), At(0)));
        return;
      }
      if !reply.Record? || reply.id != expected {
        watch := watch.(dues := watch.dues.(job := At(now + 3000)));
        return;
      }
      var task := own.job.value.(confirmed := true);
      if watch.logTarget != Some(expected) { watch := watch.(dues := watch.dues.(log := At(0))); }
      watch := watch.(logTarget := Some(expected));
      if reply.verdict.Running? {
        own := own.(job := Some(task));
        SavePending(Some(task), works);
      } else {
        if task.reload { watch := watch.(configReady := false, dues := watch.dues.(config := At(0))); }
        own := own.(busy := false, job := None);
        SavePending(None, works);
        watch := watch.(jobPaused := false,
                        dues := watch.dues.(log := At(0), status := At(0), interfaces := At(0)));
      }
    }

    method LogAnswered(expected: nat, reply: Reply, now: int)
      modifies this`watch
      ensures View() == OnLog(old(View()), expected, reply, now)
    {
      if watch.logTarget != Some(expected) { return; }
      var log := if own.job.None? then Never else At(now + if reply.Data? then 2500 else 5000);
      watch := watch.(dues := watch.dues.(log := log));
    }

    method ConfigAnswered(reply: Reply, now: int)
      modifies this`watch
      ensures View() == OnConfig(old(View()), reply, now)
    {
      if !reply.Data? {
        watch := watch.(dues := watch.dues.(config := At(now + 3000)));
        return;
      }
      watch := watch.(configReady := true, dues := watch.dues.(config := Never));
    }

    /** The callbacks of the five reads. */
    method ReadAnswered(read: Read, expected: nat, reply: Reply, now: int, works: bool)
      modifies this
      ensures View() == Handle(old(View()), Poll(read, expected), reply, now, works)
    {
      match read
      case JobRead => JobAnswered(expected, reply, now, works);
      case LogRead => LogAnswered(expected, reply, now);
      case ConfigRead => ConfigAnswered(reply, now);
      case StatusRead => watch := watch.(dues := watch.dues.(status := At(now + 5000)));
      case InterfacesRead =>
        watch := watch.(dues := watch.dues.(interfaces := At(now + if reply.Failed? then 5000 else 11000)));
    }

    /** complete() of a request: stale answers are dropped, others run their callback once. */
    method Answered(n: nat, sent: Sent, reply: Reply, now: int, works: bool)
      requires n in past.open && past.open[n] == sent
      modifies this
      ensures View() == Complete(old(View()), n, reply, now, works)
    {
      hide OnWrite, OnJob, OnLog, OnConfig, OnStatus, OnInterfaces;
      past := past.(open := past.open - {n});
      if life.stopped || sent.epoch != life.epoch { return; }
      life := life.(inFlight := false);
      match sent.request {
        case Submission(action) => WriteAnswered(action, reply, now, works);
        case Poll(read, expected) => ReadAnswered(read, expected, reply, now, works);
      }
      ScheduleTimer();
    }

    method StopNow(now: int, works: bool)
      modifies this
      ensures View() == StopPage(old(View()), now, works)
    {
      life := life.(stopped := true, epoch := life.epoch + 1);
      if own.submitted.Some? {
        StartJob(own.submitted.value, false, now, works);
        own := own.(submitted := None);
      }
      life := life.(timer := false, inFlight := false);
    }

    method ResumeNow()
      modifies this
      ensures View() == ResumePage(old(View()))
    {
      if !life.started || !life.stopped { return; }
      life := life.(stopped := false);
      watch := watch.(dues := watch.dues.(status := At(0), interfaces := At(0)));
      ScheduleTimer();
    }

    /** The buttons that wait on for a paused job and that read its log again. */
    method WaitOn(now: int, works: bool)
      modifies this
      ensures View() == Wait(old(View()), now, works)
    {
      if own.job.None? { return; }
      var task := own.job.value.(startedAt := now, confirmed := false);
      own := own.(job := Some(task));
      watch := watch.(jobPaused := false, jobStarted := now, dues := watch.dues.(job := At(0)));
      SavePending(Some(task), works);
      ScheduleTimer();
    }

    method ReadLogAgain()
      modifies this
      ensures View() == Retry(old(View()))
    {
      if watch.logTarget.None? { return; }
      watch := watch.(dues := watch.dues.(log := At(0)));
      ScheduleTimer();
    }

    method TimerFired(now: int, works: bool)
      modifies this
      ensures View() == Fire(old(View()), now, works)
    {
      if !life.timer { return; }
      life := life.(timer := false);
      PumpOnce(now, works);
    }

    /** The constructor function and init() of a new load, over what the browser stored. */
    constructor Init(earlier: State, stored: Option<Task>, random: nat, now: int, works: bool)
      requires earlier.store == stored
      ensures View() == Load(earlier, random, now, works)
    {
      life := Life(true, false, false, 0, false);
      own := Owner(false, None, None, None);
      watch := Watch(false, None, 0, false, Dues(At(0), At(0), At(0), At(0), At(0)));
      lastId := random % MAX_ID;
      storage := stored;
      past := Loaded(earlier.past, random, stored);
      new;
      if stored.Some? {
        if lastId < stored.value.id { lastId := stored.value.id; }
        own := own.(busy := true);
        StartJob(stored.value, false, now, works);
      }
      ScheduleTimer();
    }
  }
}
