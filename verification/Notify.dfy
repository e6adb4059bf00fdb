/**
  `notify` on a Deferred. Settling locks the list for progress, so that nothing is notified any more; this follows
  that lock through every sequence of calls.
 */
module Notify {
  import opened Wrappers
  import opened Callbacks
  import opened Deferred

  predicate Settles(before: seq<Act>, act: Act) {
    FirstSettlement(before).None? && act.event.FireWith? && !act.which.OnProgress?
  }

  /** Adding a progress callback fires at once, and so unlocks, iff the list remembers a notification and is idle. */
  ghost predicate Unlocks(before: seq<Act>, act: Act) {
    var s := Deferred.Run(before).progress;
    act.which.OnProgress? && act.event.Add? && s.list.Some? && s.memory.Some? && !s.firing
  }

  /** Locked by the settlement, and not unlocked since. */
  ghost predicate StillLocked(acts: seq<Act>) {
    acts != [] &&
    var before, last := acts[..|acts| - 1], acts[|acts| - 1];
    Settles(before, last) || (StillLocked(before) && !Unlocks(before, last))
  }

  lemma {:induction false} ProgressRunKeepsLock(d: Promise)
    requires AllSound(d)
    ensures RunOwn(d, OnProgress).progress.locked == d.progress.locked
    decreases |d.progress.queue|, Left(d.progress)
  {
    var running := Running(d.progress);
    if running.Some? && running.value < USER {
      StepIsSound(d, OnProgress, Return(false));
      NextLock(d.progress, Return(false));
      var d' := Step(d, OnProgress, Return(false));
      if Closer(d'.progress, d.progress) {
        ProgressRunKeepsLock(d');
      }
    }
  }

  /** Of what users do to the progress list, only adding can unlock it; nothing they do locks it. */
  lemma NextLock(s: State, e: Event)
    requires Sound(s) && FromUser(e)
    ensures Callbacks.Next(MEMORY_ONLY, s, e).locked <==>
      s.locked && !(e.Add? && s.list.Some? && s.memory.Some? && !s.firing)
  {
    match e
    case Add(fns) =>
      if s.locked {
        LockSurvivesAddIff(MEMORY_ONLY, s, fns);
      } else if s.list.Some? && s.memory.Some? && !s.firing {
        PushAllKeepsRest(MEMORY_ONLY, Armed(s), fns);
        FireSetsLock(MEMORY_ONLY, PushAll(MEMORY_ONLY, Armed(s), fns));
      } else {
        PushAllKeepsRest(MEMORY_ONLY, s, fns);
      }
    case FireWith(args) =>
      if !s.locked && !s.firing {
        FireSetsLock(MEMORY_ONLY, s.(queue := s.queue + [args]));
      }
    case Return(_) =>
      if s.firing {
        ResumeKeepsLock(MEMORY_ONLY, s);
      }
  }

  /** In every sequence of calls: the list is locked iff the Deferred is settled and no `progress` has unlocked it. */
  lemma {:induction false} LockedSinceSettled(acts: seq<Act>)
    requires AllFromUser(acts)
    ensures Deferred.Run(acts).progress.locked <==> StillLocked(acts)
  {
    if acts != [] {
      var before, last := acts[..|acts| - 1], acts[|acts| - 1];
      LockedSinceSettled(before);
      FirstSettlementDecides(before);
      var d := Deferred.Run(before);
      assert FromUser(last.event);
      if last.which.OnProgress? {
        StepIsSound(d, OnProgress, last.event);
        NextLock(d.progress, last.event);
        ProgressRunKeepsLock(Step(d, OnProgress, last.event));
      } else if FirstSettlement(before).None? {
        PendingReacts(d, last.which, last.event);
      } else {
        SettledReacts(d, last.which, last.event, FirstSettlement(before).value);
      }
    }
  }

  lemma {:induction false} OnlyUserCodeRuns(acts: seq<Act>)
    ensures AllUserRuns(Deferred.Run(acts))
  {
    if acts != [] {
      var before, last := acts[..|acts| - 1], acts[|acts| - 1];
      OnlyUserCodeRuns(before);
      ReactEndsInUserCode(Deferred.Run(before), last.which, last.event);
    }
  }

  // ---------------------------------------------------------------------------------------------
  // What `notify` does

  lemma {:induction false} ResumeExtendsCalls(o: Options, s: State)
    requires -1 <= s.firingIndex && (s.list.Some? && s.firingIndex + 1 < |Items(s)| ==> s.memory.Some?)
    ensures s.calls <= Resume(o, s).calls
    decreases |s.queue|
  {
    if s.firingIndex + 1 >= |Items(s)| && s.queue != [] {
      ResumeExtendsCalls(o, s.(firingIndex := -1, memory := Some(s.queue[0]), queue := s.queue[1..]));
    }
  }

  lemma {:induction false} RunOwnExtendsCalls(d: Promise)
    requires AllSound(d)
    ensures d.progress.calls <= RunOwn(d, OnProgress).progress.calls
    decreases |d.progress.queue|, Left(d.progress)
  {
    hide Callbacks.Next, Left;
    var running := Running(d.progress);
    if running.Some? && running.value < USER {
      StepIsSound(d, OnProgress, Return(false));
      ReturnExtendsCalls(d.progress);
      var d' := Step(d, OnProgress, Return(false));
      if Closer(d'.progress, d.progress) {
        RunOwnExtendsCalls(d');
      }
    }
  }

  lemma ReturnExtendsCalls(s: State)
    requires Sound(s)
    ensures s.calls <= Callbacks.Next(MEMORY_ONLY, s, Return(false)).calls
  {
    if s.firing {
      ResumeExtendsCalls(MEMORY_ONLY, s);
    }
  }

  /** An idle list without callbacks that already remembers just these arguments. */
  predicate NothingToDo(s: State, args: Args) {
    !s.firing && Items(s) == [] && s.fired && s.memory == Some(args)
  }

  /** A notification that is not locked out is queued, or calls the first callback, or is at least remembered. */
  lemma NotifyStep(s: State, args: Args)
    requires Sound(s)
    ensures var r := Callbacks.Next(MEMORY_ONLY, s, Event.FireWith(args));
      if s.locked then r == s
      else if s.firing then r == s.(queue := s.queue + [args])
      else if Items(s) != [] then r.firing && r.calls == s.calls + [Call(Items(s)[0], args)]
      else !r.firing && (r == s <==> NothingToDo(s, args))
  {
    assert [] + [args] == [args] && [args][1..] == [];
  }

  /**
    In every sequence of calls, a notification is ignored iff the list is still locked since the settlement, or it is
    idle, has no callbacks and remembers these very arguments. Otherwise it is queued behind the running callback, or
    the first callback gets it.
   */
  lemma NotifyIsIgnoredIff(acts: seq<Act>, args: Args)
    requires AllFromUser(acts)
    ensures var d := Deferred.Run(acts);
      var r := React(d, OnProgress, Event.FireWith(args));
      && (r == d <==> StillLocked(acts) || NothingToDo(d.progress, args))
      && (!StillLocked(acts) && d.progress.firing ==> r.progress.queue == d.progress.queue + [args])
      && (!StillLocked(acts) && !d.progress.firing && Items(d.progress) != [] ==>
            d.progress.calls + [Call(Items(d.progress)[0], args)] <= r.progress.calls)
  {
    hide Callbacks.Next;
    var d := Deferred.Run(acts);
    var e := Event.FireWith(args);
    LockedSinceSettled(acts);
    OnlyUserCodeRuns(acts);
    StepIsSound(d, OnProgress, e);
    NotifyStep(d.progress, args);
    RunOwnExtendsCalls(Step(d, OnProgress, e));
    assert !d.progress.locked && d.progress.firing ==> d.progress.queue + [args] != d.progress.queue;
  }

  // ---------------------------------------------------------------------------------------------
  // A settled Deferred that notifies again

  const HANDLERS := Occurrence(FIRE_HANDLERS, 0)
  const LATE := Occurrence(USER, 1)

  /** Notified, resolved, given another progress callback, which returns, and notified again. */
  const COMEBACK: seq<Act> :=
    [Act(OnProgress, Event.FireWith([1])), Act(OnDone, Event.FireWith([2])), Act(OnProgress, Event.Add([USER])),
     Act(OnProgress, Event.Return(false)), Act(OnProgress, Event.FireWith([3]))]

  /** A list that is idle after it has made these calls. */
  function Idle(locked: bool, items: seq<Occurrence>, calls: seq<Call>, args: Args): State {
    State(false, Some(args), true, locked, Some(items), [], -1, items, {}, calls)
  }

  /** A list that is running entry `k`. */
  function Busy(items: seq<Occurrence>, k: nat, calls: seq<Call>, args: Args): State {
    State(true, Some(args), true, false, Some(items), [], k, items, {}, calls)
  }

  lemma IdleFires(items: seq<Occurrence>, calls: seq<Call>, before: Args, args: Args)
    requires items != [] && forall i | 0 <= i < |items| :: items[i].id == i
    ensures Sound(Idle(false, items, calls, before))
    ensures Callbacks.Next(MEMORY_ONLY, Idle(false, items, calls, before), Event.FireWith(args)) ==
      Busy(items, 0, calls + [Call(items[0], args)], args)
  {
    assert [] + [args] == [args] && [args][1..] == [];
  }

  lemma BusyReturns(items: seq<Occurrence>, k: nat, calls: seq<Call>, args: Args)
    requires k < |items| && forall i | 0 <= i < |items| :: items[i].id == i
    ensures Sound(Busy(items, k, calls, args))
    ensures Callbacks.Next(MEMORY_ONLY, Busy(items, k, calls, args), Return(false)) ==
      if k + 1 < |items| then Busy(items, k + 1, calls + [Call(items[k + 1], args)], args)
      else Idle(false, items, calls, args)
  {
  }

  /** Adding to a locked, idle list with memory calls the new callback and leaves the list unlocked. */
  lemma LockedAdds(calls: seq<Call>, args: Args)
    ensures Sound(Idle(true, [HANDLERS], calls, args))
    ensures Callbacks.Next(MEMORY_ONLY, Idle(true, [HANDLERS], calls, args), Event.Add([USER])) ==
      Busy([HANDLERS, LATE], 1, calls + [Call(LATE, args)], args)
  {
    var armed := Armed(Idle(true, [HANDLERS], calls, args));
    var pushed := armed.(list := Some([HANDLERS, LATE]), added := [HANDLERS, LATE]);
    assert [USER][..0] == [] && [HANDLERS] + [LATE] == [HANDLERS, LATE] && [] + [args] == [args] && [args][1..] == [];
    assert PushAll(MEMORY_ONLY, armed, []) == armed;
    assert PushAll(MEMORY_ONLY, armed, [USER]) == pushed;
    assert Fire(MEMORY_ONLY, pushed) == Busy([HANDLERS, LATE], 1, calls + [Call(LATE, args)], args);
  }

  /** A step after which user code runs, or nothing. */
  lemma ReactsAtOnce(d: Promise, e: Event, s: State)
    requires AllSound(d) && s == Callbacks.Next(MEMORY_ONLY, d.progress, e) && UserRuns(s)
    ensures React(d, OnProgress, e) == d.(progress := s)
  {
    StepIsSound(d, OnProgress, e);
  }

  /** A step after which the list runs its own callback, which returns. */
  lemma ReactsThroughOwn(d: Promise, e: Event, s: State, r: State)
    requires AllSound(d) && s == Callbacks.Next(MEMORY_ONLY, d.progress, e) && Running(s) == Some(FIRE_HANDLERS)
    requires Sound(s) && r == Callbacks.Next(MEMORY_ONLY, s, Return(false)) && UserRuns(r)
    ensures React(d, OnProgress, e) == d.(progress := r)
  {
    StepIsSound(d, OnProgress, e);
    var stepped := Step(d, OnProgress, e);
    assert stepped == d.(progress := s);
    StepIsSound(stepped, OnProgress, Return(false));
    assert Step(stepped, OnProgress, Return(false)) == d.(progress := r);
    assert RunOwn(d.(progress := r), OnProgress) == d.(progress := r);
  }

  lemma ProgressAfter(k: nat)
    requires k < |COMEBACK|
    ensures Deferred.Run(COMEBACK[..k + 1]) ==
      React(Deferred.Run(COMEBACK[..k]), COMEBACK[k].which, COMEBACK[k].event)
  {
    assert COMEBACK[..k + 1][..k] == COMEBACK[..k];
  }

  /** The first notification of a new Deferred runs the list's own callback only, and is remembered. */
  lemma FirstNotification()
    ensures Deferred.Run(COMEBACK[..1]).progress == Idle(false, [HANDLERS], [Call(HANDLERS, [1])], [1])
  {
    var s := Busy([HANDLERS], 0, [Call(HANDLERS, [1])], [1]);
    assert Callbacks.Next(MEMORY_ONLY, NEW_PROMISE.progress, Event.FireWith([1])) == s by {
      assert [] + [[1]] == [[1]] && [[1]][1..] == [];
    }
    BusyReturns([HANDLERS], 0, s.calls, [1]);
    assert s.calls[|s.calls| - 1].who.fn == FIRE_HANDLERS;
    ReactsThroughOwn(NEW_PROMISE, Event.FireWith([1]), s, Idle(false, [HANDLERS], s.calls, [1]));
    ProgressAfter(0);
    assert Deferred.Run(COMEBACK[..0]) == NEW_PROMISE;
  }

  /** Resolving locks the list. */
  lemma ThenResolved()
    ensures Deferred.Run(COMEBACK[..2]).progress == Idle(true, [HANDLERS], [Call(HANDLERS, [1])], [1])
  {
    hide RunOwn, React, Inv;
    FirstNotification();
    var one := COMEBACK[..1];
    assert one[..0] == [] && one == [Act(OnProgress, Event.FireWith([1]))];
    assert FirstSettlement([]) == None && FirstSettlement(one) == None;
    FirstSettlementDecides(one);
    PendingReacts(Deferred.Run(one), OnDone, Event.FireWith([2]));
    ProgressAfter(1);
  }

  /** The late callback is called with the first notification, and returns. */
  lemma ThenAdded()
    ensures Deferred.Run(COMEBACK[..4]).progress ==
      Idle(false, [HANDLERS, LATE], [Call(HANDLERS, [1]), Call(LATE, [1])], [1])
  {
    hide RunOwn, Callbacks.Next;
    ThenResolved();
    var calls := [Call(HANDLERS, [1])];
    LockedAdds(calls, [1]);
    ReactsAtOnce(Deferred.Run(COMEBACK[..2]), Event.Add([USER]),
                 Busy([HANDLERS, LATE], 1, calls + [Call(LATE, [1])], [1]));
    ProgressAfter(2);
    BusyReturns([HANDLERS, LATE], 1, calls + [Call(LATE, [1])], [1]);
    ReactsAtOnce(Deferred.Run(COMEBACK[..3]), Return(false),
                 Idle(false, [HANDLERS, LATE], calls + [Call(LATE, [1])], [1]));
    ProgressAfter(3);
  }

  /** A resolved Deferred calls a progress callback with a notification made long after it was resolved. */
  lemma NotifyComesBack()
    ensures AllFromUser(COMEBACK) && FirstSettlement(COMEBACK[..2]) == Some((Resolved, [2]))
    ensures Deferred.Run(COMEBACK).progress.calls ==
      [Call(HANDLERS, [1]), Call(LATE, [1]), Call(HANDLERS, [3]), Call(LATE, [3])]
  {
    hide RunOwn, Callbacks.Next;
    ThenAdded();
    var items, calls := [HANDLERS, LATE], [Call(HANDLERS, [1]), Call(LATE, [1])];
    var own := calls + [Call(HANDLERS, [3])];
    IdleFires(items, calls, [1], [3]);
    BusyReturns(items, 0, own, [3]);
    ReactsThroughOwn(Deferred.Run(COMEBACK[..4]), Event.FireWith([3]), Busy(items, 0, own, [3]),
                     Busy(items, 1, own + [Call(LATE, [3])], [3]));
    ProgressAfter(4);
    assert COMEBACK[..5] == COMEBACK && COMEBACK[..2][..1][..0] == [];
    assert COMEBACK[..2][..1] == [Act(OnProgress, Event.FireWith([1]))];
    assert FirstSettlement(COMEBACK[..2][..1]) == None;
  }
}
