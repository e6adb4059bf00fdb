/**
  When recurring tasks run. Time is the page's clock in nanoseconds; the timer computes in milliseconds,
  rounding down, and a timeout never fires before it is due.
 */
module TimerRates {
  import opened Wrappers
  import opened Timer

  /** The iterations so far kept their distance, or their slots. */
  ghost predicate Steady(job: Job) {
    var its := job.iterations;
    && (job.plan.Some? ==> forall k | 0 <= k < |its| :: LoopFits(job.plan.value, its[k].loop))
    && (forall k | 0 < k < |its| :: Follows(its[k - 1], its[k].loop, its[k].at))
    && (|its| > 0 ==> FitsFirst(its[0].loop, its[0].at))
  }

  /** `loop` may be the iteration after `last`, at that time or later. */
  predicate Follows(last: Iteration, loop: Loop, at: int) {
    match loop
    case Once => true
    case Periodic(period) => at >= last.at + period * 1_000_000
    case Fixed(period, slot) => last.loop.Fixed? && slot == last.loop.slot + period && Millis(at) >= slot
  }

  /** The slot of the first iteration is one period after it, as the timer computes it. */
  predicate FitsFirst(loop: Loop, at: int) {
    loop.Fixed? ==> loop.slot == Millis(at) + loop.period
  }

  predicate MayEnter(job: Job, loop: Loop, at: int) {
    if job.iterations == [] then FitsFirst(loop, at)
    else Follows(job.iterations[|job.iterations| - 1], loop, at)
  }

  ghost predicate PendingOk(w: World, handle: nat)
    requires handle in w.live
  {
    var timeout := w.live[handle];
    var job := w.JobOf(timeout.task);
    match timeout.body
    case First(_) => job.iterations == []
    case Again(loop) => job.iterations != [] && MayEnter(job, loop, timeout.due)
  }

  ghost predicate RunningOnTime(w: World) {
    w.running.Some? ==>
      var r := w.running.value;
      var job := w.JobOf(r.task);
      match r.phase
      case Entering => job.iterations != [] && MayEnter(job, r.loop, w.now)
      case InRun(startTime) => Started(job, r.loop, startTime, w.now)
      case Leaving(startTime) => Started(job, r.loop, startTime, w.now)
  }

  predicate Started(job: Job, loop: Loop, startTime: int, now: int) {
    |job.iterations| > 0 && job.iterations[|job.iterations| - 1] == Iteration(loop, startTime) && startTime <= now
  }

  ghost predicate OnTime(w: World) {
    && (forall task: nat :: Steady(w.JobOf(task)))
    && (forall handle | handle in w.live :: PendingOk(w, handle))
    && RunningOnTime(w)
  }

  lemma ArmKeepsOnTime(w: World, task: nat, delay: int, body: Body)
    requires OnTime(w) && !Runs(w, task)
    requires match body
      case First(_) => w.JobOf(task).iterations == []
      case Again(loop) => w.JobOf(task).iterations != [] && MayEnter(w.JobOf(task), loop, Due(w.now, delay))
    ensures OnTime(Arm(w, task, delay, body))
  {
    var v := Arm(w, task, delay, body);
    forall other: nat ensures Steady(v.JobOf(other)) {
      assert Steady(w.JobOf(other));
    }
    forall handle | handle in v.live ensures PendingOk(v, handle) {
      assert handle in w.live ==> PendingOk(w, handle);
    }
  }

  /** Events that add no iteration and arm nothing. */
  lemma SameIterations(w: World, v: World)
    requires OnTime(w) && RunningOnTime(v)
    requires forall handle | handle in v.live :: handle in w.live && v.live[handle] == w.live[handle]
    requires forall task: nat ::
      v.JobOf(task).iterations == w.JobOf(task).iterations && v.JobOf(task).plan == w.JobOf(task).plan
    ensures OnTime(v)
  {
    forall task: nat ensures Steady(v.JobOf(task)) {
      assert Steady(w.JobOf(task));
    }
    forall handle | handle in v.live ensures PendingOk(v, handle) {
      assert PendingOk(w, handle);
    }
  }

  lemma QuietEventsKeepOnTime(w: World, v: World)
    requires OnTime(w) && w.now <= v.now && v.running in {None, w.running}
    requires forall handle | handle in v.live :: handle in w.live && v.live[handle] == w.live[handle]
    requires forall task: nat ::
      v.JobOf(task).iterations == w.JobOf(task).iterations && v.JobOf(task).plan == w.JobOf(task).plan
    ensures OnTime(v)
  {
    assert RunningOnTime(w);
    SameIterations(w, v);
  }

  lemma ScheduleKeepsOnTime(w: World, timer: nat, task: nat, delay: int, plan: Plan)
    requires Ok(w) && OnTime(w)
    ensures OnTime(ScheduleTask(w, timer, task, delay, plan))
  {
    var job := w.JobOf(task);
    assert JobOk(w, task);
    if Acquired(job.state, timer, timer in w.canceledTimers) != None {
      var u := w.With(task, job.(state := job.state.(owner := Some(timer)), plan := Some(plan)));
      forall other: nat ensures Steady(u.JobOf(other)) {
        assert Steady(w.JobOf(other));
      }
      forall handle | handle in u.live ensures PendingOk(u, handle) {
        assert PendingOk(w, handle);
      }
      ArmKeepsOnTime(u, task, delay, First(plan));
    }
  }

  lemma OneMoreIsSteady(job: Job, loop: Loop, at: int, after: Job)
    requires Steady(job) && MayEnter(job, loop, at)
    requires job.plan.Some? ==> LoopFits(job.plan.value, loop)
    requires after.plan == job.plan && after.iterations == job.iterations + [Iteration(loop, at)]
    ensures Steady(after)
  {
    var its := after.iterations;
    forall k | 0 < k < |its| ensures Follows(its[k - 1], its[k].loop, its[k].at) {
      if k < |job.iterations| {
        assert Follows(job.iterations[k - 1], job.iterations[k].loop, job.iterations[k].at);
      }
    }
  }

  lemma EnterKeepsOnTime(w: World, r: Running)
    requires Ok(w) && w.running == Some(r) && r.phase == Entering && MayEnter(w.JobOf(r.task), r.loop, w.now)
    requires forall task: nat :: Steady(w.JobOf(task))
    requires forall handle | handle in w.live :: PendingOk(w, handle)
    ensures OnTime(EnterLoop(w, r))
  {
    var v := EnterLoop(w, r);
    OneMoreIsSteady(w.JobOf(r.task), r.loop, w.now, v.JobOf(r.task));
    forall task: nat ensures Steady(v.JobOf(task)) {
      assert Steady(w.JobOf(task));
      assert task != r.task ==> v.JobOf(task) == w.JobOf(task);
    }
    forall handle | handle in v.live ensures PendingOk(v, handle) {
      assert PendingOk(w, handle) && TimeoutOk(w, handle);
    }
  }

  lemma FireKeepsOnTime(w: World, handle: nat)
    requires Ok(w) && OnTime(w)
    ensures OnTime(FireTimeout(w, handle))
  {
    if handle in w.live && w.running == None && w.live[handle].due <= w.now {
      var r := Running(w.live[handle].task, LoopOf(w.live[handle].body, w.now), Entering);
      var v := Fired(w, handle, r);
      FiredIsOk(w, handle, r);
      assert PendingOk(w, handle) && TimeoutOk(w, handle);
      forall task: nat ensures Steady(v.JobOf(task)) {
        assert Steady(w.JobOf(task));
      }
      forall h | h in v.live ensures PendingOk(v, h) {
        assert PendingOk(w, h);
      }
      EnterKeepsOnTime(v, r);
    }
  }

  /** The next iteration of a loop is not due before its time. */
  lemma NextIsDue(loop: Loop, startTime: int, now: int)
    requires startTime <= now
    ensures match Continue(loop, startTime, now)
      case Complete => true
      case Rerun(next) => Follows(Iteration(loop, startTime), next, now)
      case Sleep(delay, next) => Follows(Iteration(loop, startTime), next, Due(now, delay))
  {
  }

  lemma LeaveKeepsOnTime(w: World, r: Running, startTime: int)
    requires Ok(w) && OnTime(w) && w.running == Some(r) && r.phase == Leaving(startTime)
    ensures OnTime(LeaveLoop(w, r, startTime))
  {
    NextIsDue(r.loop, startTime, w.now);
    match Continue(r.loop, startTime, w.now) {
      case Sleep(delay, loop) =>
        var u := w.(running := None);
        QuietEventsKeepOnTime(w, u);
        ArmKeepsOnTime(u, r.task, delay, Again(loop));
      case Complete => QuietEventsKeepOnTime(w, LeaveLoop(w, r, startTime));
      case Rerun(_) => SameIterations(w, LeaveLoop(w, r, startTime));
    }
  }

  lemma NextKeepsOnTime(w: World, event: Event)
    requires Ok(w) && OnTime(w)
    ensures OnTime(Next(w, event))
  {
    var v := Next(w, event);
    match event {
      case Schedule(timer, task, delay, plan) => ScheduleKeepsOnTime(w, timer, task, delay, plan);
      case Fire(handle) => FireKeepsOnTime(w, handle);
      case Pass(_) => QuietEventsKeepOnTime(w, v);
      case CancelTimer(_) => QuietEventsKeepOnTime(w, v);
      case CancelTask(_) => QuietEventsKeepOnTime(w, v);
      case _ =>
        if w.running.Some? {
          CallbackKeepsOnTime(w, w.running.value, event);
        }
    }
  }

  lemma CallbackKeepsOnTime(w: World, r: Running, event: Event)
    requires Ok(w) && OnTime(w) && w.running == Some(r) && event in {Reenter, Return, Throw, Leave}
    ensures OnTime(Next(w, event))
  {
    match (event, r.phase) {
      case (Reenter, Entering) => EnterKeepsOnTime(w, r);
      case (Return, InRun(_)) => SameIterations(w, Next(w, Return));
      case (Throw, InRun(_)) => QuietEventsKeepOnTime(w, ThrowOut(w, r));
      case (Leave, Leaving(startTime)) => LeaveKeepsOnTime(w, r, startTime);
      case _ =>
    }
  }

  lemma {:induction false} EveryRunIsOnTime(events: seq<Event>)
    ensures Ok(Execute(START, events)) && OnTime(Execute(START, events))
  {
    RunKeepsOk(START, events);
    if events != [] {
      var init := events[..|events| - 1];
      EveryRunIsOnTime(init);
      NextKeepsOnTime(Execute(START, init), events[|events| - 1]);
    }
  }

  // ---------------------------------------------------------------------------------------------
  // Fixed rate

  lemma {:induction false} SlotsAreEven(job: Job, period: int, k: nat)
    requires Steady(job) && job.plan == Some(AtFixedRate(period)) && k < |job.iterations|
    ensures job.iterations[k].loop == Fixed(period, job.iterations[0].loop.slot + k * period)
  {
    if k > 0 {
      SlotsAreEven(job, period, k - 1);
      assert Follows(job.iterations[k - 1], job.iterations[k].loop, job.iterations[k].at);
      assert k * period == (k - 1) * period + period;
    }
  }

  /**
    However long the runs take, iteration k is for slot s0 + k * period, where s0 is one period after the
    first iteration, and no iteration but the first begins before its slot.
   */
  lemma FixedRateKeepsItsSlots(events: seq<Event>, task: nat, period: int, k: nat)
    requires var job := Execute(START, events).JobOf(task);
      job.plan == Some(AtFixedRate(period)) && k < |job.iterations|
    ensures var its := Execute(START, events).JobOf(task).iterations;
      && its[0].loop.Fixed?
      && its[0].loop.slot == Millis(its[0].at) + period
      && its[k].loop == Fixed(period, its[0].loop.slot + k * period)
      && (k > 0 ==> Millis(its[k].at) >= its[0].loop.slot + k * period)
  {
    EveryRunIsOnTime(events);
    var job := Execute(START, events).JobOf(task);
    assert Steady(job);
    SlotsAreEven(job, period, k);
    SlotsAreEven(job, period, 0);
    if k > 0 {
      assert Follows(job.iterations[k - 1], job.iterations[k].loop, job.iterations[k].at);
    }
  }

  /** Whenever the loop goes to sleep, every slot up to now has had its iteration. */
  lemma NoSlotIsSkipped(events: seq<Event>, period: int, k: nat)
    requires period > 0
    requires var w := Execute(START, events);
      && w.running.Some? && w.running.value.phase.Leaving?
      && w.JobOf(w.running.value.task).plan == Some(AtFixedRate(period))
      && Next(w, Leave).running == None
    ensures var w := Execute(START, events);
      var its := w.JobOf(w.running.value.task).iterations;
      && |its| > 0 && its[0].loop.Fixed?
      && (its[0].loop.slot + k * period <= Millis(w.now) ==> k < |its|)
  {
    EveryRunIsOnTime(events);
    var w := Execute(START, events);
    var r := w.running.value;
    var job := w.JobOf(r.task);
    var its := job.iterations;
    assert Steady(job) && RunningOnTime(w);
    SlotsAreEven(job, period, |its| - 1);
    SlotsAreEven(job, period, 0);
    if k >= |its| {
      Product(k, |its|, period);
    }
  }

  lemma Product(k: int, n: int, period: int)
    requires k >= n && period > 0
    ensures k * period >= (n - 1) * period + period
  {
    assert (k - n) * period >= 0;
    assert k * period == (n - 1) * period + period + (k - n) * period;
  }

  // ---------------------------------------------------------------------------------------------
  // Periods

  /** Consecutive iterations of a periodic task begin at least one period apart. */
  lemma PeriodsAreKept(events: seq<Event>, task: nat, period: int, k: nat)
    requires var job := Execute(START, events).JobOf(task);
      job.plan == Some(Periodically(period)) && k + 1 < |job.iterations|
    ensures var its := Execute(START, events).JobOf(task).iterations;
      its[k + 1].at - its[k].at >= period * 1_000_000
  {
    EveryRunIsOnTime(events);
    var job := Execute(START, events).JobOf(task);
    assert Steady(job);
    assert Follows(job.iterations[k + 1 - 1], job.iterations[k + 1].loop, job.iterations[k + 1].at);
  }

  lemma LeaveArms(w: World, r: Running, startTime: int)
    requires w.running == Some(r) && r.phase == Leaving(startTime) && r.loop.Periodic?
    requires !w.JobOf(r.task).state.canceled
    ensures var v := Next(w, Leave);
      && v.running == None && v.now == w.now
      && w.handles in v.live
      && v.live[w.handles] == Timeout(r.task, Due(w.now, r.loop.period - Millis(w.now - startTime)), Again(r.loop))
      && v.JobOf(r.task).iterations == w.JobOf(r.task).iterations
  {
  }

  lemma FiringEnters(w: World, handle: nat)
    requires handle in w.live && w.live[handle].due <= w.now && w.running == None && w.live[handle].body.Again?
    ensures var task := w.live[handle].task;
      Next(w, Fire(handle)).JobOf(task).iterations
        == w.JobOf(task).iterations + [Iteration(w.live[handle].body.loop, w.now)]
  {
  }

  /** From leaving one iteration to entering the next, when the timeout fires as soon as it is due. */
  function NextPromptly(w: World, r: Running, startTime: int): World
    requires r.loop.Periodic?
  {
    var due := Due(w.now, r.loop.period - Millis(w.now - startTime));
    Next(Next(Next(w, Leave), Pass(due - w.now)), Fire(w.handles))
  }

  /**
    In every run: when a periodic task has finished an iteration and is not canceled, and the timeout it arms fires
    as soon as it is due, the next iteration is less than 1 ms late, or as late as the run was long.
   */
  lemma PromptPeriods(events: seq<Event>, period: int)
    requires var w := Execute(START, events);
      && w.running.Some? && w.running.value.phase.Leaving? && w.running.value.loop == Periodic(period)
      && !w.JobOf(w.running.value.task).state.canceled
    ensures var w := Execute(START, events);
      var r := w.running.value;
      var its := NextPromptly(w, r, r.phase.startTime).JobOf(r.task).iterations;
      && |its| == |w.JobOf(r.task).iterations| + 1 >= 2
      && its[|its| - 2].at == r.phase.startTime
      && PromptGap(its[|its| - 1].at - its[|its| - 2].at, w.now - r.phase.startTime, period)
  {
    EveryRunIsOnTime(events);
    var w := Execute(START, events);
    assert RunningOnTime(w);
    StartedIsPrompt(w, w.running.value, w.running.value.phase.startTime, period);
  }

  predicate PromptGap(gap: int, duration: int, period: int) {
    && (duration <= period * 1_000_000 ==> period * 1_000_000 <= gap < (period + 1) * 1_000_000)
    && (Millis(duration) > period ==> gap == duration)
  }

  lemma StartedIsPrompt(w: World, r: Running, startTime: int, period: int)
    requires w.running == Some(r) && r.phase == Leaving(startTime) && r.loop == Periodic(period)
    requires !w.JobOf(r.task).state.canceled && Started(w.JobOf(r.task), r.loop, startTime, w.now)
    ensures var its := NextPromptly(w, r, startTime).JobOf(r.task).iterations;
      && |its| == |w.JobOf(r.task).iterations| + 1
      && its[|its| - 2].at == startTime
      && PromptGap(its[|its| - 1].at - its[|its| - 2].at, w.now - startTime, period)
  {
    var v := Next(w, Leave);
    LeaveArms(w, r, startTime);
    var due := v.live[w.handles].due;
    var u := Next(v, Pass(due - w.now));
    FiringEnters(u, w.handles);
  }

  /** What leaving an iteration has armed fires as soon as it is due. */
  function FiredWhenDue(w: World): World {
    var v := Next(w, Leave);
    if w.handles in v.live && v.live[w.handles].due >= w.now then
      Next(Next(v, Pass(v.live[w.handles].due - w.now)), Fire(w.handles))
    else v
  }

  /** One more iteration has begun, for the next slot and in the millisecond of that slot. */
  ghost predicate InItsSlot(before: seq<Iteration>, after: seq<Iteration>, period: int, slot: int) {
    && |after| == |before| + 1 >= 2 && after[..|before|] == before
    && before[|before| - 1].loop == Fixed(period, slot)
    && after[|before|].loop == Fixed(period, slot + period) && Millis(after[|before|].at) == slot + period
  }

  /**
    In every run: when a fixed-rate loop goes to sleep and is not canceled, and its timeout fires as soon as it is
    due, the next iteration begins in the millisecond of its slot.
   */
  lemma PromptSlots(events: seq<Event>, period: int, slot: int)
    requires var w := Execute(START, events);
      && w.running.Some? && w.running.value.phase.Leaving? && w.running.value.loop == Fixed(period, slot)
      && !w.JobOf(w.running.value.task).state.canceled && Next(w, Leave).running == None
    ensures var w := Execute(START, events);
      var task := w.running.value.task;
      InItsSlot(w.JobOf(task).iterations, FiredWhenDue(w).JobOf(task).iterations, period, slot)
  {
    hide Execute;
    EveryRunIsOnTime(events);
    var w := Execute(START, events);
    assert RunningOnTime(w);
    StartedInSlot(w, w.running.value, w.running.value.phase.startTime, period, slot);
  }

  lemma StartedInSlot(w: World, r: Running, startTime: int, period: int, slot: int)
    requires w.running == Some(r) && r.phase == Leaving(startTime) && r.loop == Fixed(period, slot)
    requires !w.JobOf(r.task).state.canceled && Started(w.JobOf(r.task), r.loop, startTime, w.now)
    requires Next(w, Leave).running == None
    ensures InItsSlot(w.JobOf(r.task).iterations, FiredWhenDue(w).JobOf(r.task).iterations, period, slot)
  {
    var v := Next(w, Leave);
    var due := Due(w.now, slot + period - Millis(w.now));
    assert v.live[w.handles] == Timeout(r.task, due, Again(Fixed(period, slot + period)));
    assert Millis(due) == slot + period && due > w.now;
    FiringEnters(Next(v, Pass(due - w.now)), w.handles);
  }
}
