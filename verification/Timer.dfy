/**
  Timers whose tasks run from `setTimeout` callbacks on one event loop: one-shot tasks, periodic ones, and ones
  at a fixed rate. A task is a small record of flags; the timer re-arms it from the callback of its last timeout.
 */
module Timer {
  import opened Wrappers

  // ---------------------------------------------------------------------------------------------
  // One task

  /** How a task was scheduled. */
  datatype Plan = Single | Periodically(period: int) | AtFixedRate(period: int)

  /** Which loop the callback is in; at a fixed rate, with the slot this iteration is for. */
  datatype Loop = Once | Periodic(period: int) | Fixed(period: int, slot: int)

  /** What a timeout does when it fires. */
  datatype Body = First(plan: Plan) | Again(loop: Loop)

  datatype Timeout<K> = Timeout(task: K, due: int, body: Body)

  datatype TaskState<M> =
    TaskState(owner: Option<M>, canceled: bool, completed: bool, lastScheduled: int, handle: Option<nat>)

  const NEW_TASK: TaskState<nat> := TaskState(None, false, false, 0, None)

  function Millis(nanos: int): int {
    nanos / 1_000_000
  }

  /** When a timeout armed now is due; a delay that is not positive means at once. */
  function Due(now: int, delay: int): int {
    if delay > 0 then now + delay * 1_000_000 else now
  }

  /** `acquire`: nothing when it throws. */
  function Acquired<M>(s: TaskState<M>, timer: M, timerCanceled: bool): Option<TaskState<M>> {
    if timerCanceled || s.owner != None || s.canceled then None else Some(s.(owner := Some(timer)))
  }

  function Cancelled<M>(s: TaskState<M>): TaskState<M> {
    s.(canceled := true, handle := None)
  }

  /** What `TimerTask.cancel` returns. */
  predicate CancelResult<M>(s: TaskState<M>) {
    !s.canceled && s.owner != None && !s.completed
  }

  predicate MayRun<M>(s: TaskState<M>, ownerCanceled: bool) {
    !s.canceled && !ownerCanceled
  }

  function Thrown<M>(s: TaskState<M>): TaskState<M> {
    s.(canceled := true, completed := true)
  }

  /** The loop that the first timeout of a plan enters. */
  function LoopOf(body: Body, now: int): Loop {
    match body
    case First(Single) => Once
    case First(Periodically(period)) => Periodic(period)
    case First(AtFixedRate(period)) => Fixed(period, Millis(now) + period)
    case Again(loop) => loop
  }

  datatype Continuation = Complete | Rerun(loop: Loop) | Sleep(delay: int, loop: Loop)

  /** What a callback does after its run. */
  function Continue(loop: Loop, startTime: int, now: int): Continuation {
    match loop
    case Once => Complete
    case Periodic(period) => Sleep(period - Millis(now - startTime), loop)
    case Fixed(period, slot) =>
      var next := slot + period;
      if Millis(now) >= next then Rerun(Fixed(period, next)) else Sleep(next - Millis(now), Fixed(period, next))
  }

  // ---------------------------------------------------------------------------------------------
  // All tasks and timers together

  datatype Iteration = Iteration(loop: Loop, at: int)

  /** A task with what has happened to it so far. */
  datatype Job =
    Job(state: TaskState<nat>, plan: Option<Plan>, runs: nat, cancelsTrue: nat, iterations: seq<Iteration>)

  const NEW_JOB := Job(NEW_TASK, None, 0, 0, [])

  /** Entering is where a fixed-rate loop that calls itself is, before it reads the clock. */
  datatype Phase = Entering | InRun(startTime: int) | Leaving(startTime: int)

  datatype Running = Running(task: nat, loop: Loop, phase: Phase)

  datatype World = World(
    canceledTimers: set<nat>,
    jobs: map<nat, Job>,
    live: map<nat, Timeout<nat>>,
    handles: nat,
    running: Option<Running>,
    now: nat
  ) {
    function JobOf(task: nat): Job {
      if task in jobs then jobs[task] else NEW_JOB
    }

    function With(task: nat, job: Job): World {
      this.(jobs := jobs[task := job])
    }

    predicate OwnerCanceled(task: nat) {
      JobOf(task).state.owner.Some? && JobOf(task).state.owner.value in canceledTimers
    }
  }

  const START := World({}, map[], map[], 0, None, 0)

  /** What can happen next; time may pass between any two events, and tasks may call anything while they run. */
  datatype Event =
    | Pass(nanos: nat)
    | Schedule(timer: nat, task: nat, delay: int, plan: Plan)
    | CancelTask(task: nat)
    | CancelTimer(timer: nat)
    | Fire(handle: nat)
    | Reenter
    | Return
    | Throw
    | Leave

  /** `TimerTask.timeout` */
  function Arm(w: World, task: nat, delay: int, body: Body): World {
    var job := w.JobOf(task);
    if job.state.canceled then w
    else w.With(task, job.(state := job.state.(handle := Some(w.handles))))
          .(live := w.live[w.handles := Timeout(task, Due(w.now, delay), body)], handles := w.handles + 1)
  }

  function ScheduleTask(w: World, timer: nat, task: nat, delay: int, plan: Plan): World {
    var job := w.JobOf(task);
    match Acquired(job.state, timer, timer in w.canceledTimers)
    case None => w
    case Some(owned) => Arm(w.With(task, job.(state := owned, plan := Some(plan))), task, delay, First(plan))
  }

  function Cancel(w: World, task: nat): World {
    var job := w.JobOf(task);
    w.With(task, job.(
      state := Cancelled(job.state),
      cancelsTrue := job.cancelsTrue + if CancelResult(job.state) then 1 else 0
    )).(live := if job.state.handle.Some? then w.live - {job.state.handle.value} else w.live)
  }

  /** The loop reads the clock and calls `doRun`. */
  function EnterLoop(w: World, r: Running): World {
    var job := w.JobOf(r.task);
    var noted := job.(iterations := job.iterations + [Iteration(r.loop, w.now)]);
    if MayRun(job.state, w.OwnerCanceled(r.task)) then
      w.With(r.task, noted.(state := job.state.(lastScheduled := Millis(w.now)), runs := job.runs + 1))
       .(running := Some(r.(phase := InRun(w.now))))
    else
      w.With(r.task, noted).(running := Some(r.(phase := Leaving(w.now))))
  }

  /** A timeout fires when it is due and no callback is running; its callback enters the loop at once. */
  function FireTimeout(w: World, handle: nat): World {
    if handle in w.live && w.running == None && w.live[handle].due <= w.now then
      var r := Running(w.live[handle].task, LoopOf(w.live[handle].body, w.now), Entering);
      EnterLoop(Fired(w, handle, r), r)
    else w
  }

  function Fired(w: World, handle: nat, r: Running): World {
    w.(live := w.live - {handle}, running := Some(r))
  }

  /** The run throws: the rest of the callback is skipped. */
  function ThrowOut(w: World, r: Running): World {
    var job := w.JobOf(r.task);
    w.With(r.task, job.(state := Thrown(job.state))).(running := None)
  }

  function LeaveLoop(w: World, r: Running, startTime: int): World {
    match Continue(r.loop, startTime, w.now)
    case Complete =>
      var job := w.JobOf(r.task);
      w.With(r.task, job.(state := job.state.(completed := true))).(running := None)
    case Rerun(loop) => w.(running := Some(Running(r.task, loop, Entering)))
    case Sleep(delay, loop) => Arm(w.(running := None), r.task, delay, Again(loop))
  }

  /** One event; one that cannot happen now changes nothing. */
  function Next(w: World, event: Event): World {
    match event
    case Pass(nanos) => w.(now := w.now + nanos)
    case Schedule(timer, task, delay, plan) => ScheduleTask(w, timer, task, delay, plan)
    case CancelTask(task) => Cancel(w, task)
    case CancelTimer(timer) => w.(canceledTimers := w.canceledTimers + {timer})
    case Fire(handle) => FireTimeout(w, handle)
    case _ =>
      if w.running == None then w
      else
        var r := w.running.value;
        match (event, r.phase)
        case (Reenter, Entering) => EnterLoop(w, r)
        case (Return, InRun(startTime)) => w.(running := Some(r.(phase := Leaving(startTime))))
        case (Throw, InRun(_)) => ThrowOut(w, r)
        case (Leave, Leaving(startTime)) => LeaveLoop(w, r, startTime)
        case _ => w
  }

  function Execute(w: World, events: seq<Event>): World
    decreases |events|
  {
    if events == [] then w else Next(Execute(w, events[..|events| - 1]), events[|events| - 1])
  }

  // ---------------------------------------------------------------------------------------------
  // What every event keeps

  predicate LoopFits(plan: Plan, loop: Loop) {
    match plan
    case Single => loop == Once
    case Periodically(period) => loop == Periodic(period)
    case AtFixedRate(period) => loop.Fixed? && loop.period == period
  }

  predicate BodyFits(plan: Plan, body: Body) {
    match body
    case First(p) => p == plan
    case Again(loop) => loop != Once && LoopFits(plan, loop)
  }

  predicate Runs(w: World, task: nat) {
    w.running.Some? && w.running.value.task == task
  }

  /** A task that is scheduled is one for good, and `cancel` returned true at most once. */
  ghost predicate JobOk(w: World, task: nat) {
    var job := w.JobOf(task);
    && (job.plan == None <==> job.state.owner == None)
    && (job.plan == None ==> job.runs == 0 && job.iterations == [])
    && (job.plan == Some(Single) ==> job.runs <= 1)
    && (job.state.completed ==> job.state.canceled || job.plan == Some(Single))
    && job.cancelsTrue <= (if job.state.canceled then 1 else 0)
    && (job.state.handle.Some? ==> job.state.handle.value < w.handles)
    && (job.state.handle.Some? && job.state.handle.value in w.live ==> w.live[job.state.handle.value].task == task)
  }

  /** A live timeout is the one in its task's handle; the task is neither canceled nor in a callback. */
  ghost predicate TimeoutOk(w: World, handle: nat)
    requires handle in w.live
  {
    var job := w.JobOf(w.live[handle].task);
    && handle < w.handles
    && job.state.handle == Some(handle)
    && !job.state.canceled && !job.state.completed
    && !Runs(w, w.live[handle].task)
    && job.plan.Some? && BodyFits(job.plan.value, w.live[handle].body)
    && (job.plan == Some(Single) ==> job.runs == 0)
  }

  ghost predicate RunningOk(w: World) {
    w.running.Some? ==>
      var r := w.running.value;
      var job := w.JobOf(r.task);
      && job.plan.Some? && LoopFits(job.plan.value, r.loop)
      && (job.plan == Some(Single) && r.phase == Entering ==> job.runs == 0)
      && (job.state.completed ==> job.state.canceled)
      && (r.phase.InRun? ==> job.state.lastScheduled == Millis(r.phase.startTime))
  }

  /** A task that could still be canceled has its next timeout, or is in its callback. */
  ghost predicate StillGoing(w: World, task: nat) {
    var job := w.JobOf(task);
    CancelResult(job.state) && !Runs(w, task) ==>
      job.state.handle.Some? && job.state.handle.value in w.live && w.live[job.state.handle.value].task == task
  }

  ghost predicate Ok(w: World) {
    && (forall task: nat :: JobOk(w, task) && StillGoing(w, task))
    && (forall handle | handle in w.live :: TimeoutOk(w, handle))
    && RunningOk(w)
  }

  /** All but the going on of one task that is about to be armed. */
  ghost predicate OkBut(w: World, armed: nat) {
    && (forall task: nat :: JobOk(w, task) && (task != armed ==> StillGoing(w, task)))
    && (forall handle | handle in w.live :: TimeoutOk(w, handle) && w.live[handle].task != armed)
    && RunningOk(w)
  }

  lemma ArmKeepsOk(w: World, task: nat, delay: int, body: Body)
    requires OkBut(w, task) && !Runs(w, task)
    requires var job := w.JobOf(task);
      && job.plan.Some? && BodyFits(job.plan.value, body) && (job.plan == Some(Single) ==> job.runs == 0)
      && (job.state.completed ==> job.state.canceled)
    ensures Ok(Arm(w, task, delay, body))
  {
    var v := Arm(w, task, delay, body);
    forall other: nat ensures JobOk(v, other) && StillGoing(v, other) {
      assert JobOk(w, other);
    }
    forall handle | handle in v.live ensures TimeoutOk(v, handle) {
      assert JobOk(w, task);
    }
  }

  lemma ScheduleKeepsOk(w: World, timer: nat, task: nat, delay: int, plan: Plan)
    requires Ok(w)
    ensures Ok(ScheduleTask(w, timer, task, delay, plan))
  {
    var job := w.JobOf(task);
    assert JobOk(w, task);
    if Acquired(job.state, timer, timer in w.canceledTimers) != None {
      var u := w.With(task, job.(state := job.state.(owner := Some(timer)), plan := Some(plan)));
      forall other: nat ensures JobOk(u, other) && (other != task ==> StillGoing(u, other)) {
        assert JobOk(w, other) && StillGoing(w, other);
      }
      ArmKeepsOk(u, task, delay, First(plan));
    }
  }

  lemma CancelKeepsOk(w: World, task: nat)
    requires Ok(w)
    ensures Ok(Cancel(w, task))
  {
    var v := Cancel(w, task);
    assert JobOk(w, task);
    forall other: nat ensures JobOk(v, other) && StillGoing(v, other) {
      assert JobOk(w, other) && StillGoing(w, other);
    }
    forall handle | handle in v.live ensures TimeoutOk(v, handle) {
      assert TimeoutOk(w, handle);
    }
  }

  lemma EnterKeepsOk(w: World, r: Running)
    requires Ok(w) && w.running == Some(r) && r.phase == Entering
    ensures Ok(EnterLoop(w, r))
  {
    hide LoopFits, BodyFits, Millis;
    var v := EnterLoop(w, r);
    forall other: nat ensures JobOk(v, other) && StillGoing(v, other) {
      assert JobOk(w, other) && StillGoing(w, other);
    }
    forall handle | handle in v.live ensures TimeoutOk(v, handle) {
      assert TimeoutOk(w, handle);
    }
  }

  lemma FireKeepsOk(w: World, handle: nat)
    requires Ok(w)
    ensures Ok(FireTimeout(w, handle))
  {
    if handle in w.live && w.running == None && w.live[handle].due <= w.now {
      var r := Running(w.live[handle].task, LoopOf(w.live[handle].body, w.now), Entering);
      FiredIsOk(w, handle, r);
      EnterKeepsOk(Fired(w, handle, r), r);
    }
  }

  lemma FiredIsOk(w: World, handle: nat, r: Running)
    requires Ok(w) && handle in w.live && w.running == None
    requires r == Running(w.live[handle].task, LoopOf(w.live[handle].body, w.now), Entering)
    ensures Ok(Fired(w, handle, r))
  {
    var v := Fired(w, handle, r);
    assert TimeoutOk(w, handle);
    forall other: nat ensures JobOk(v, other) && StillGoing(v, other) {
      assert JobOk(w, other) && StillGoing(w, other);
    }
  }

  lemma ThrowKeepsOk(w: World, r: Running)
    requires Ok(w) && w.running == Some(r)
    ensures Ok(ThrowOut(w, r))
  {
    var v := ThrowOut(w, r);
    forall other: nat ensures JobOk(v, other) && StillGoing(v, other) {
      assert JobOk(w, other) && StillGoing(w, other);
    }
    forall handle | handle in v.live ensures TimeoutOk(v, handle) {
      assert TimeoutOk(w, handle);
    }
  }

  lemma LeaveKeepsOk(w: World, r: Running, startTime: int)
    requires Ok(w) && w.running == Some(r) && r.phase == Leaving(startTime)
    ensures Ok(LeaveLoop(w, r, startTime))
  {
    var v := LeaveLoop(w, r, startTime);
    match Continue(r.loop, startTime, w.now) {
      case Complete =>
        forall other: nat ensures JobOk(v, other) && StillGoing(v, other) {
          assert JobOk(w, other) && StillGoing(w, other);
        }
        forall handle | handle in v.live ensures TimeoutOk(v, handle) {
          assert TimeoutOk(w, handle);
        }
      case Rerun(_) =>
        forall other: nat ensures JobOk(v, other) && StillGoing(v, other) {
          assert JobOk(w, other) && StillGoing(w, other);
        }
      case Sleep(delay, loop) =>
        var u := w.(running := None);
        forall other: nat ensures JobOk(u, other) && (other != r.task ==> StillGoing(u, other)) {
          assert JobOk(w, other) && StillGoing(w, other);
        }
        ArmKeepsOk(u, r.task, delay, Again(loop));
    }
  }

  lemma NextKeepsOk(w: World, event: Event)
    requires Ok(w)
    ensures Ok(Next(w, event))
  {
    var v := Next(w, event);
    match event {
      case Schedule(timer, task, delay, plan) => ScheduleKeepsOk(w, timer, task, delay, plan);
      case CancelTask(task) => CancelKeepsOk(w, task);
      case Fire(handle) => FireKeepsOk(w, handle);
      case Pass(_) => SameJobsAreOk(w, v);
      case CancelTimer(_) => SameJobsAreOk(w, v);
      case _ =>
        if w.running.Some? {
          var r := w.running.value;
          match (event, r.phase) {
            case (Reenter, Entering) => EnterKeepsOk(w, r);
            case (Return, InRun(_)) => SameJobsAreOk(w, v);
            case (Throw, InRun(_)) => ThrowKeepsOk(w, r);
            case (Leave, Leaving(startTime)) => LeaveKeepsOk(w, r, startTime);
            case _ =>
          }
        }
    }
  }

  lemma SameJobsAreOk(w: World, v: World)
    requires Ok(w) && v.jobs == w.jobs && v.live == w.live && v.handles == w.handles
    requires v.running == w.running || (w.running.Some? && v.running.Some? && v.running.value.phase.Leaving?
                                        && v.running.value == w.running.value.(phase := v.running.value.phase))
    ensures Ok(v)
  {
    forall other: nat ensures JobOk(v, other) && StillGoing(v, other) {
      assert JobOk(w, other) && StillGoing(w, other);
    }
    forall handle | handle in v.live ensures TimeoutOk(v, handle) {
      assert TimeoutOk(w, handle);
    }
  }

  lemma {:induction false} RunKeepsOk(w: World, events: seq<Event>)
    requires Ok(w)
    ensures Ok(Execute(w, events))
  {
    if events != [] {
      RunKeepsOk(w, events[..|events| - 1]);
      NextKeepsOk(Execute(w, events[..|events| - 1]), events[|events| - 1]);
    }
  }

  // ---------------------------------------------------------------------------------------------
  // Whole runs

  lemma StartIsOk()
    ensures Ok(START)
  {
  }

  /**
    In every interleaving, from a page on which nothing is scheduled: a task has at most one live timeout, which is
    the one in its handle, and none once it is canceled or while it runs; a one-shot task has run at most once;
    `cancel` has returned true at most once.
   */
  lemma EveryRunIsSafe(events: seq<Event>, task: nat)
    ensures var w := Execute(START, events);
      var job := w.JobOf(task);
      && (forall h | h in w.live && w.live[h].task == task :: job.state.handle == Some(h))
      && (job.state.canceled || Runs(w, task) ==> forall h | h in w.live :: w.live[h].task != task)
      && (job.plan == Some(Single) ==> job.runs <= 1)
      && job.cancelsTrue <= 1
  {
    StartIsOk();
    RunKeepsOk(START, events);
    var w := Execute(START, events);
    assert JobOk(w, task);
    forall h | h in w.live ensures TimeoutOk(w, h) {
    }
  }

  /** Once scheduled, a task keeps its timer and its plan. */
  lemma {:induction false} OwnerIsForLife(w: World, events: seq<Event>, task: nat)
    requires w.JobOf(task).state.owner.Some?
    ensures var job := Execute(w, events).JobOf(task);
      job.state.owner == w.JobOf(task).state.owner && job.plan == w.JobOf(task).plan
  {
    if events != [] {
      var init := events[..|events| - 1];
      OwnerIsForLife(w, init, task);
      OwnerStays(Execute(w, init), events[|events| - 1], task);
    }
  }

  lemma OwnerStays(w: World, event: Event, task: nat)
    requires w.JobOf(task).state.owner.Some?
    ensures var job := Next(w, event).JobOf(task);
      job.state.owner == w.JobOf(task).state.owner && job.plan == w.JobOf(task).plan
  {
  }

  /** Nothing undoes a cancellation, and nothing runs a canceled task. */
  lemma CanceledStays(w: World, event: Event, task: nat)
    requires w.JobOf(task).state.canceled
    ensures var job := Next(w, event).JobOf(task);
      job.state.canceled && job.runs == w.JobOf(task).runs && job.cancelsTrue == w.JobOf(task).cancelsTrue
  {
  }

  /** After `TimerTask.cancel`, whatever happens, `run` is not invoked and `cancel` does not return true again. */
  lemma {:induction false} TaskCancelIsFinal(w: World, task: nat, events: seq<Event>)
    ensures var job := Execute(Next(w, CancelTask(task)), events).JobOf(task);
      && job.state.canceled
      && job.runs == w.JobOf(task).runs
      && job.cancelsTrue == Next(w, CancelTask(task)).JobOf(task).cancelsTrue
  {
    if events != [] {
      var init := events[..|events| - 1];
      TaskCancelIsFinal(w, task, init);
      CanceledStays(Execute(Next(w, CancelTask(task)), init), events[|events| - 1], task);
    }
  }

  /** A canceled timer gets no new tasks and runs none of those it has. */
  lemma CanceledTimerIsDead(w: World, event: Event, timer: nat, task: nat)
    requires timer in w.canceledTimers
    ensures var v := Next(w, event);
      && timer in v.canceledTimers
      && (v.JobOf(task).state.owner == Some(timer) ==>
            w.JobOf(task).state.owner == Some(timer) && v.JobOf(task).runs == w.JobOf(task).runs)
  {
  }

  /** After `Timer.cancel`, whatever happens, `run` is invoked on none of the timer's tasks. */
  lemma {:induction false} TimerCancelIsFinal(w: World, timer: nat, events: seq<Event>, task: nat)
    ensures var v := Execute(Next(w, CancelTimer(timer)), events);
      && timer in v.canceledTimers
      && (v.JobOf(task).state.owner == Some(timer) ==>
            w.JobOf(task).state.owner == Some(timer) && v.JobOf(task).runs == w.JobOf(task).runs)
  {
    if events != [] {
      var init := events[..|events| - 1];
      TimerCancelIsFinal(w, timer, init, task);
      CanceledTimerIsDead(Execute(Next(w, CancelTimer(timer)), init), events[|events| - 1], timer, task);
    }
  }

  /** Outside its callback, `cancel` returns true iff it clears a live timeout; inside, iff it is the first. */
  lemma CancelTellsTheTruth(events: seq<Event>, task: nat)
    ensures var w := Execute(START, events);
      var state := w.JobOf(task).state;
      if Runs(w, task) then CancelResult(state) <==> !state.canceled
      else CancelResult(state) <==> exists h :: h in w.live && w.live[h].task == task
  {
    StartIsOk();
    RunKeepsOk(START, events);
    var w := Execute(START, events);
    assert StillGoing(w, task) && JobOk(w, task);
    forall h | h in w.live ensures TimeoutOk(w, h) {
    }
  }

  /**
    Only canceling the task itself (or a run that throws) ends the timeouts of a recurring task: after
    `Timer.cancel` its callback goes on firing and doing nothing.
   */
  lemma OnlyTheTaskEndsTheTimeouts(events: seq<Event>, task: nat)
    ensures var w := Execute(START, events);
      var job := w.JobOf(task);
      job.plan.Some? && job.plan.value != Single && !Runs(w, task) ==>
        (!job.state.canceled <==> exists h :: h in w.live && w.live[h].task == task)
  {
    CancelTellsTheTruth(events, task);
    StartIsOk();
    RunKeepsOk(START, events);
    assert JobOk(Execute(START, events), task);
  }

  /** While a task runs, its scheduled execution time is when this run began. */
  lemma RunsKnowTheirTime(events: seq<Event>)
    ensures var w := Execute(START, events);
      w.running.Some? && w.running.value.phase.InRun? ==>
        w.JobOf(w.running.value.task).state.lastScheduled == Millis(w.running.value.phase.startTime)
  {
    StartIsOk();
    RunKeepsOk(START, events);
  }

  // ---------------------------------------------------------------------------------------------
  // Tasks do run

  /** As long as neither a task nor its timer has been canceled, every iteration has been a run. */
  ghost predicate RunsOk(w: World, task: nat) {
    var job := w.JobOf(task);
    && (!job.state.canceled && !w.OwnerCanceled(task) ==> job.runs == |job.iterations|)
    && (job.state.completed && !job.state.canceled ==> job.iterations != [])
    && (Runs(w, task) && w.running.value.phase != Entering ==> job.iterations != [])
  }

  lemma NextKeepsRunsOk(w: World, event: Event, task: nat)
    requires Ok(w) && RunsOk(w, task)
    ensures RunsOk(Next(w, event), task)
  {
    hide Millis, LoopOf, Due;
    match event
    case Schedule(timer, other, delay, plan) =>
      assert JobOk(w, task);
      ScheduleKeepsRunsOk(w, timer, other, delay, plan, task);
    case Fire(handle) =>
      if handle in w.live {
        assert TimeoutOk(w, handle) && JobOk(w, task);
      }
    case Leave =>
      if w.running.Some? && w.running.value.phase.Leaving? {
        LeaveKeepsRunsOk(w, w.running.value, w.running.value.phase.startTime, task);
      }
    case _ =>
  }

  lemma ScheduleKeepsRunsOk(w: World, timer: nat, other: nat, delay: int, plan: Plan, task: nat)
    requires JobOk(w, task) && RunsOk(w, task)
    ensures RunsOk(ScheduleTask(w, timer, other, delay, plan), task)
  {
  }

  lemma LeaveKeepsRunsOk(w: World, r: Running, startTime: int, task: nat)
    requires RunsOk(w, task) && w.running == Some(r) && r.phase == Leaving(startTime)
    ensures RunsOk(LeaveLoop(w, r, startTime), task)
  {
    hide Millis, Due;
  }

  lemma {:induction false} EveryIterationRuns(events: seq<Event>, task: nat)
    ensures RunsOk(Execute(START, events), task)
  {
    if events != [] {
      hide Next;
      var init := events[..|events| - 1];
      EveryIterationRuns(init, task);
      StartIsOk();
      RunKeepsOk(START, init);
      NextKeepsRunsOk(Execute(START, init), events[|events| - 1], task);
    }
  }

  /** A one-shot task that has completed, and was never canceled, on a timer never canceled, has run exactly once. */
  lemma CompletedHasRun(events: seq<Event>, task: nat)
    requires var w := Execute(START, events);
      var job := w.JobOf(task);
      job.plan == Some(Single) && job.state.completed && !job.state.canceled && !w.OwnerCanceled(task)
    ensures Execute(START, events).JobOf(task).runs == 1
  {
    EveryIterationRuns(events, task);
    StartIsOk();
    RunKeepsOk(START, events);
    assert JobOk(Execute(START, events), task);
  }

  /** In every run: a due timeout whose timer is not canceled runs its task when it fires. */
  lemma FiringRuns(events: seq<Event>, handle: nat)
    requires var w := Execute(START, events);
      && w.running == None && handle in w.live && w.live[handle].due <= w.now
      && !w.OwnerCanceled(w.live[handle].task)
    ensures var w := Execute(START, events);
      var task := w.live[handle].task;
      var v := Next(w, Fire(handle));
      && v.JobOf(task).runs == w.JobOf(task).runs + 1
      && v.JobOf(task).state.lastScheduled == Millis(w.now)
      && v.running.Some? && v.running.value.task == task && v.running.value.phase == InRun(w.now)
  {
    StartIsOk();
    RunKeepsOk(START, events);
    assert TimeoutOk(Execute(START, events), handle);
  }

  /** So does a fixed-rate loop that calls itself, unless something was canceled in the meantime. */
  lemma ReenteringRuns(w: World)
    requires w.running.Some? && w.running.value.phase == Entering
    requires !w.JobOf(w.running.value.task).state.canceled && !w.OwnerCanceled(w.running.value.task)
    ensures var task := w.running.value.task;
      var v := Next(w, Reenter);
      && v.JobOf(task).runs == w.JobOf(task).runs + 1
      && v.running.Some? && v.running.value.task == task && v.running.value.phase == InRun(w.now)
  {
  }

  /** A run that throws ends its task: it is canceled and completed, and nothing will fire for it any more. */
  lemma ThrowEndsTheTask(events: seq<Event>)
    requires var w := Execute(START, events); w.running.Some? && w.running.value.phase.InRun?
    ensures var w := Execute(START, events);
      var task, v := w.running.value.task, Next(w, Throw);
      && v.JobOf(task).state.canceled && v.JobOf(task).state.completed && v.running == None
      && forall handle | handle in v.live :: v.live[handle].task != task
  {
    StartIsOk();
    RunKeepsOk(START, events);
    forall handle | handle in Execute(START, events).live ensures TimeoutOk(Execute(START, events), handle) {
    }
  }

  /** A fresh task that is scheduled on a live timer runs as soon as its delay is over, and not before. */
  lemma ScheduledTaskRuns(events: seq<Event>, timer: nat, task: nat, delay: nat, plan: Plan, early: nat)
    requires var w := Execute(START, events);
      && w.running == None && timer !in w.canceledTimers
      && w.JobOf(task).state.owner == None && !w.JobOf(task).state.canceled
      && early < delay * 1_000_000
    ensures var w := Execute(START, events);
      var v := Next(w, Schedule(timer, task, delay, plan));
      var early', due := Next(v, Pass(early)), Next(v, Pass(delay * 1_000_000));
      && Next(early', Fire(w.handles)) == early'
      && Next(due, Fire(w.handles)).JobOf(task).runs == 1
      && Next(due, Fire(w.handles)).JobOf(task).iterations[..] ==
           [Iteration(LoopOf(First(plan), w.now + delay * 1_000_000), w.now + delay * 1_000_000)]
  {
    StartIsOk();
    RunKeepsOk(START, events);
    assert JobOk(Execute(START, events), task);
  }

  // ---------------------------------------------------------------------------------------------
  // The objects: what one call does to them is what one event does to the world

  /** The browser's timeouts. */
  class EventLoop {
    var live: map<nat, Timeout<TimerTask>>
    var handles: nat
    var now: nat

    constructor ()
      ensures live == map[] && handles == 0 && now == 0
    {
      live, handles, now := map[], 0, 0;
    }
  }

  class TimerTask {
    var owner: Timer?
    var canceled: bool
    var completed: bool
    var lastScheduled: int
    var handle: Option<nat>

    constructor ()
      ensures State() == TaskState(None, false, false, 0, None)
    {
      owner, canceled, completed, lastScheduled, handle := null, false, false, 0, None;
    }

    function State(): TaskState<Timer>
      reads this
    {
      var timer: Option<Timer> := if owner == null then None else Some(owner);
      TaskState(timer, canceled, completed, lastScheduled, handle)
    }

    method Cancel(page: EventLoop) returns (result: bool)
      modifies this, page`live
      ensures result == CancelResult(old(State())) && State() == Cancelled(old(State()))
      ensures page.live == if old(handle).Some? then old(page.live) - {old(handle).value} else old(page.live)
    {
      if handle != None {
        page.live := page.live - {handle.value};
        handle := None;
      }
      if canceled || owner == null || completed {
        canceled := true;
        return false;
      } else {
        canceled := true;
        return true;
      }
    }

    /** `timeout` */
    method Arm(page: EventLoop, delay: int, body: Body)
      modifies this`handle, page`live, page`handles
      ensures canceled ==> unchanged(this) && unchanged(page)
      ensures !canceled ==>
        && State() == old(State()).(handle := Some(old(page.handles)))
        && page.live == old(page.live)[old(page.handles) := Timeout(this, Due(page.now, delay), body)]
        && page.handles == old(page.handles) + 1
    {
      if !canceled {
        handle := Some(page.handles);
        page.live := page.live[page.handles := Timeout(this, Due(page.now, delay), body)];
        page.handles := page.handles + 1;
      }
    }

    /** `doRun` up to the call of `run`; tells whether there is one. */
    method BeginRun(page: EventLoop) returns (runs: bool)
      requires owner != null
      modifies this`lastScheduled
      ensures runs == MayRun(old(State()), owner.canceled)
      ensures State() == if runs then old(State()).(lastScheduled := Millis(page.now)) else old(State())
    {
      runs := false;
      if !canceled && !owner.canceled {
        lastScheduled := Millis(page.now);
        runs := true;
      }
    }

    /** The exception handler of `doRun`. */
    method FailRun()
      modifies this`canceled, this`completed
      ensures State() == Thrown(old(State()))
    {
      canceled, completed := true, true;
    }
  }

  class Timer {
    var canceled: bool

    constructor ()
      ensures !canceled
    {
      canceled := false;
    }

    method Cancel()
      modifies this
      ensures canceled
    {
      canceled := true;
    }

    method Acquire(task: TimerTask) returns (acquired: bool)
      modifies task`owner
      ensures var after := Acquired(old(task.State()), this, canceled);
        acquired == after.Some? && task.State() == if acquired then after.value else old(task.State())
    {
      if canceled {
        return false;
      }
      if task.owner != null || task.canceled {
        return false;
      }
      task.owner := this;
      return true;
    }

    /** `scheduleOnce`, `schedulePeriodically` and `scheduleFixed` differ in the callback only. */
    method Schedule(page: EventLoop, task: TimerTask, delay: int, plan: Plan) returns (scheduled: bool)
      modifies task`owner, task`handle, page`live, page`handles
      ensures scheduled == Acquired(old(task.State()), this, canceled).Some?
      ensures !scheduled ==> unchanged(task) && unchanged(page)
      ensures scheduled ==>
        && task.State() == Acquired(old(task.State()), this, canceled).value.(handle := Some(old(page.handles)))
        && page.live == old(page.live)[old(page.handles) := Timeout(task, Due(page.now, delay), First(plan))]
        && page.handles == old(page.handles) + 1
    {
      scheduled := Acquire(task);
      if scheduled {
        task.Arm(page, delay, First(plan));
      }
    }

    /** What the callback does once `doRun` has returned; a result is the loop calling itself. */
    method Leave(page: EventLoop, task: TimerTask, loop: Loop, startTime: int) returns (rerun: Option<Loop>)
      modifies task`completed, task`handle, page`live, page`handles
      ensures var next := Continue(loop, startTime, page.now);
        && rerun == (if next.Rerun? then Some(next.loop) else None)
        && (next.Complete? ==> task.State() == old(task.State()).(completed := true))
        && (next.Rerun? ==> unchanged(task))
        && (!next.Sleep? || task.canceled ==> unchanged(page))
        && (next.Sleep? && task.canceled ==> unchanged(task))
        && (next.Sleep? && !task.canceled ==>
              && task.State() == old(task.State()).(handle := Some(old(page.handles)))
              && page.handles == old(page.handles) + 1
              && page.live ==
                  old(page.live)[old(page.handles) := Timeout(task, Due(page.now, next.delay), Again(next.loop))])
    {
      rerun := None;
      match loop {
        case Once =>
          task.completed := true;
        case Periodic(period) =>
          var duration := Millis(page.now - startTime);
          task.Arm(page, period - duration, Again(loop));
        case Fixed(period, scheduledTime) =>
          var nextScheduledTime := scheduledTime + period;
          var nowTime := Millis(page.now);
          if nowTime >= nextScheduledTime {
            rerun := Some(Fixed(period, nextScheduledTime));
          } else {
            task.Arm(page, nextScheduledTime - nowTime, Again(Fixed(period, nextScheduledTime)));
          }
      }
    }
  }
}
