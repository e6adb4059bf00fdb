/**
  jQuery.Deferred: a promise state kept by three callback lists. The lists for `resolve` and `reject` begin
  with callbacks that set the state, disable each other and lock the list for `notify`.
 */
module Deferred {
  import opened Wrappers
  import opened Callbacks

  datatype Settlement = Pending | Resolved | Rejected

  datatype Which = OnDone | OnFail | OnProgress

  /** The callbacks that every Deferred puts into its lists first; user callbacks are numbered from USER. */
  const SET_STATE: Fn := 0
  const DISABLE_OTHER: Fn := 1
  const LOCK_PROGRESS: Fn := 2
  const FIRE_HANDLERS: Fn := 3
  const USER: Fn := 4

  const MEMORY_ONLY := Options(false, true, false, false)

  datatype Promise = Promise(state: Settlement, done: State, fail: State, progress: State)

  function OptionsOf(which: Which): Options {
    if which.OnProgress? then MEMORY_ONLY else ONCE_MEMORY
  }

  function ListOf(d: Promise, which: Which): State {
    match which
    case OnDone => d.done
    case OnFail => d.fail
    case OnProgress => d.progress
  }

  function WithList(d: Promise, which: Which, s: State): Promise {
    match which
    case OnDone => d.(done := s)
    case OnFail => d.(fail := s)
    case OnProgress => d.(progress := s)
  }

  ghost predicate AllSound(d: Promise) {
    Sound(d.done) && Sound(d.fail) && Sound(d.progress)
  }

  function Step(d: Promise, which: Which, e: Event): Promise
    requires AllSound(d)
  {
    WithList(d, which, Next(OptionsOf(which), ListOf(d, which), e))
  }

  lemma StepIsSound(d: Promise, which: Which, e: Event)
    requires AllSound(d)
    ensures AllSound(Step(d, which, e))
  {
    NextIsSound(OptionsOf(which), ListOf(d, which), e);
  }

  /** What a callback of the Deferred itself does. */
  function Effect(d: Promise, which: Which, fn: Fn): Promise
    requires AllSound(d)
  {
    if which.OnProgress? then d
    else if fn == SET_STATE then d.(state := if which.OnDone? then Resolved else Rejected)
    else if fn == DISABLE_OTHER then Step(d, if which.OnDone? then OnFail else OnDone, Disable)
    else if fn == LOCK_PROGRESS then Step(d, OnProgress, Lock)
    else d
  }

  lemma EffectIsSound(d: Promise, which: Which, fn: Fn)
    requires AllSound(d)
    ensures AllSound(Effect(d, which, fn))
  {
  }

  /** The callback that is running, if the list is firing. */
  function Running(s: State): Option<Fn> {
    if s.firing && s.calls != [] then Some(s.calls[|s.calls| - 1].who.fn) else None
  }

  /** Entries still waiting in the current round. */
  function Left(s: State): nat {
    |Waiting(Items(s), s.firingIndex)|
  }

  /** The list has come closer to the end of firing. */
  predicate Closer(s': State, s: State) {
    |s'.queue| < |s.queue| || (|s'.queue| == |s.queue| && Left(s') < Left(s))
  }

  /** The Deferred's own callbacks run and return without user code in between. */
  function RunOwn(d: Promise, which: Which): Promise
    requires AllSound(d)
    decreases |ListOf(d, which).queue|, Left(ListOf(d, which))
  {
    var running := Running(ListOf(d, which));
    if running.None? || running.value >= USER then d
    else
      EffectIsSound(d, which, running.value);
      StepIsSound(Effect(d, which, running.value), which, Return(false));
      var d' := Step(Effect(d, which, running.value), which, Return(false));
      if Closer(ListOf(d', which), ListOf(d, which)) then RunOwn(d', which) else d'
  }

  /** A call to the Deferred, or the return of a user callback that one of its lists is running. */
  function React(d: Promise, which: Which, e: Event): Promise
    requires AllSound(d)
  {
    StepIsSound(d, which, e);
    RunOwn(Step(d, which, e), which)
  }

  /** Users reach the lists only through add (`done`, `fail`, `progress`) and fireWith (`resolveWith`...). */
  predicate FromUser(e: Event) {
    e.FireWith? || e.Return? || (e.Add? && forall i | 0 <= i < |e.fns| :: e.fns[i] >= USER)
  }

  lemma {:induction false} RunOwnIsSound(d: Promise, which: Which)
    requires AllSound(d)
    ensures AllSound(RunOwn(d, which))
    decreases |ListOf(d, which).queue|, Left(ListOf(d, which))
  {
    var running := Running(ListOf(d, which));
    if running.Some? && running.value < USER {
      EffectIsSound(d, which, running.value);
      StepIsSound(Effect(d, which, running.value), which, Return(false));
      var d' := Step(Effect(d, which, running.value), which, Return(false));
      if Closer(ListOf(d', which), ListOf(d, which)) {
        RunOwnIsSound(d', which);
      }
    }
  }

  const OWN_FNS: seq<Fn> := [SET_STATE, DISABLE_OTHER, LOCK_PROGRESS, FIRE_HANDLERS]

  /** A list that was only added to so far. */
  function Unfired(items: seq<Occurrence>): State {
    State(false, None, false, false, Some(items), [], -1, items, {}, [])
  }

  /** The state after construction: the lists for `resolve` and `reject` hold their own four callbacks. */
  const NEW_PROMISE := Promise(Pending, Unfired(Own()), Unfired(Own()), Unfired([Occurrence(FIRE_HANDLERS, 0)]))

  function Own(): (items: seq<Occurrence>)
    ensures |items| == 4 && forall k | 0 <= k < 4 :: items[k] == Occurrence(k, k)
  {
    seq(4, k requires 0 <= k < 4 => Occurrence(k, k))
  }

  /** A call to the Deferred, addressed to one of its lists. */
  datatype Act = Act(which: Which, event: Event)

  ghost predicate AllFromUser(acts: seq<Act>) {
    forall a | a in acts :: FromUser(a.event)
  }

  /** The Deferred after a sequence of calls, including calls made by callbacks while they run. */
  ghost function Run(acts: seq<Act>): (d: Promise)
    ensures AllSound(d)
  {
    if acts == [] then NEW_PROMISE
    else
      var before, last := Run(acts[..|acts| - 1]), acts[|acts| - 1];
      StepIsSound(before, last.which, last.event);
      RunOwnIsSound(Step(before, last.which, last.event), last.which);
      React(before, last.which, last.event)
  }

  /** The first resolveWith or rejectWith among the calls. */
  function FirstSettlement(acts: seq<Act>): Option<(Settlement, Args)> {
    if acts == [] then None
    else
      var before, last := FirstSettlement(acts[..|acts| - 1]), acts[|acts| - 1];
      if before.None? && last.event.FireWith? && !last.which.OnProgress? then
        Some((SettlementOf(last.which), last.event.args))
      else before
  }

  function SettlementOf(which: Which): Settlement {
    match which
    case OnDone => Resolved
    case OnFail => Rejected
    case OnProgress => Pending
  }

  function Other(which: Which): Which {
    if which.OnDone? then OnFail else OnDone
  }

  // ---------------------------------------------------------------------------------------------
  // The four own callbacks settle the promise before any user callback runs

  ghost predicate OwnFirst(items: seq<Occurrence>) {
    && |items| >= 4
    && (forall k | 0 <= k < |items| :: items[k].id == k)
    && (forall k | 0 <= k < 4 :: items[k].fn == k)
    && (forall k | 4 <= k < |items| :: items[k].fn >= USER)
  }

  function CallsOf(items: seq<Occurrence>, args: Args): (calls: seq<Call>)
    ensures |calls| == |items| && forall i | 0 <= i < |items| :: calls[i] == Call(items[i], args)
  {
    seq(|items|, i requires 0 <= i < |items| => Call(items[i], args))
  }

  /** A fired "once memory" list whose entry `k` is running. */
  function Stage(items: seq<Occurrence>, k: nat, args: Args): State
    requires k < |items|
  {
    State(true, Some(args), true, true, Some(items), [], k, items, {}, CallsOf(items[..k + 1], args))
  }

  /** A fired "once memory" list that is done with its entries. */
  function Finished(items: seq<Occurrence>, args: Args): State {
    State(false, Some(args), true, true, Some([]), [], -1, items, {}, CallsOf(items, args))
  }

  lemma StageReturns(items: seq<Occurrence>, k: nat, args: Args)
    requires OwnFirst(items) && k < |items|
    ensures Sound(Stage(items, k, args))
    ensures Next(ONCE_MEMORY, Stage(items, k, args), Return(false)) ==
      if k + 1 < |items| then Stage(items, k + 1, args) else Finished(items, args)
  {
    if k + 1 < |items| {
      assert items[..k + 2] == items[..k + 1] + [items[k + 1]];
      assert CallsOf(items[..k + 2], args) == CallsOf(items[..k + 1], args) + [Call(items[k + 1], args)];
    } else {
      assert items[..k + 1] == items;
    }
  }

  lemma UnfiredFires(items: seq<Occurrence>, args: Args)
    requires OwnFirst(items)
    ensures Sound(Unfired(items)) && Next(ONCE_MEMORY, Unfired(items), FireWith(args)) == Stage(items, 0, args)
  {
    assert [args][1..] == [] && [] + [args] == [args];
    assert CallsOf(items[..1], args) == [Call(items[0], args)];
  }

  function Disabled(s: State): State {
    s.(locked := true, queue := [], list := None, memory := None)
  }

  /** The state, and the other list, after own callback `k` has returned. */
  lemma OwnCallbackReturns(d: Promise, which: Which, items: seq<Occurrence>, k: nat, args: Args)
    requires !which.OnProgress? && OwnFirst(items) && k < 4 && AllSound(d) && ListOf(d, which) == Stage(items, k, args)
    ensures AllSound(Effect(d, which, k))
    ensures var e := Step(Effect(d, which, k), which, Return(false));
      && AllSound(e)
      && e.state == (if k == 0 then SettlementOf(which) else d.state)
      && ListOf(e, which) == (if k + 1 < |items| then Stage(items, k + 1, args) else Finished(items, args))
      && ListOf(e, Other(which)) == (if k == 1 then Disabled(ListOf(d, Other(which))) else ListOf(d, Other(which)))
      && e.progress == (if k == 2 then Next(MEMORY_ONLY, d.progress, Lock) else d.progress)
      && RunOwn(d, which) == RunOwn(e, which)
  {
    StageReturns(items, k, args);
    EffectIsSound(d, which, k);
    StepIsSound(Effect(d, which, k), which, Return(false));
    assert Running(ListOf(d, which)) == Some(k);
  }

  /** Where own callback `k` and those after it lead. */
  lemma {:induction false} OwnCallbacksSettle(d: Promise, which: Which, items: seq<Occurrence>, k: nat, args: Args)
    requires !which.OnProgress? && OwnFirst(items) && k < 4 && AllSound(d) && ListOf(d, which) == Stage(items, k, args)
    ensures var r := RunOwn(d, which);
      && r.state == (if k == 0 then SettlementOf(which) else d.state)
      && ListOf(r, which) == (if |items| > 4 then Stage(items, 4, args) else Finished(items, args))
      && ListOf(r, Other(which)) == (if k <= 1 then Disabled(ListOf(d, Other(which))) else ListOf(d, Other(which)))
      && r.progress == (if k <= 2 then Next(MEMORY_ONLY, d.progress, Lock) else d.progress)
    decreases 4 - k
  {
    OwnCallbackReturns(d, which, items, k, args);
    var e := Step(Effect(d, which, k), which, Return(false));
    if k < 3 {
      OwnCallbacksSettle(e, which, items, k + 1, args);
    } else if |items| > 4 {
      assert Running(ListOf(e, which)) == Some(items[4].fn);
    }
  }

  // ---------------------------------------------------------------------------------------------
  // What every sequence of calls keeps

  ghost predicate Unsettled(s: State) {
    s.list.Some? && OwnFirst(s.list.value) && s == Unfired(s.list.value)
  }

  /** A list that has fired and whose own callbacks have all run. */
  ghost predicate Settled(s: State, args: Args) {
    Ordered(s, Some(args)) && OwnDone(s)
  }

  ghost predicate OwnDone(s: State) {
    OwnFirst(s.added) && s.skipped == {} && |s.calls| >= if s.firing then 5 else 4
  }

  ghost predicate Dead(s: State) {
    Sound(s) && !s.firing && s.memory.None? && s.locked && s.list.None? && s.calls == []
  }

  ghost predicate Inv(d: Promise, first: Option<(Settlement, Args)>) {
    match first
    case None => d.state == Pending && Unsettled(d.done) && Unsettled(d.fail)
    case Some((state, args)) =>
      && d.state == state && state != Pending
      && (if state.Resolved? then Settled(d.done, args) && Dead(d.fail) else Settled(d.fail, args) && Dead(d.done))
  }

  lemma {:induction false} PushedByUser(s: State, fns: seq<Fn>)
    requires OwnFirst(s.added) && s.list.Some? && forall i | 0 <= i < |fns| :: fns[i] >= USER
    ensures var r := PushAll(ONCE_MEMORY, s, fns);
      && r == s.(list := r.list, added := r.added) && r.list.Some? && OwnFirst(r.added)
      && |r.added| == |s.added| + |fns| && s.added <= r.added && r.list.value == s.list.value + r.added[|s.added|..]
  {
    if fns != [] {
      PushedByUser(s, fns[..|fns| - 1]);
    }
  }

  /** A settled list stays settled, and only user callbacks run in it. */
  lemma SettledStays(s: State, args: Args, e: Event)
    requires Settled(s, args) && FromUser(e)
    ensures Settled(Next(ONCE_MEMORY, s, e), args)
  {
    NextStaysOrdered(s, e, Some(args));
    match e
    case Add(fns) =>
      if s.firing {
        QuietAddKeepsOwnDone(s, args, fns);
      } else {
        LateAddKeepsOwnDone(s, args, fns);
      }
    case Return(_) => ReturnKeepsOwnDone(s, args);
    case FireWith(_) =>
  }

  lemma QuietAddKeepsOwnDone(s: State, args: Args, fns: seq<Fn>)
    requires Settled(s, args) && s.firing && forall i | 0 <= i < |fns| :: fns[i] >= USER
    ensures OwnDone(AddTo(ONCE_MEMORY, s, fns))
  {
    PushedByUser(s, fns);
  }

  lemma LateAddKeepsOwnDone(s: State, args: Args, fns: seq<Fn>)
    requires Settled(s, args) && !s.firing && forall i | 0 <= i < |fns| :: fns[i] >= USER
    ensures OwnDone(AddTo(ONCE_MEMORY, s, fns))
  {
    ArmedIsLined(s, Some(args));
    PushedByUser(Armed(s), fns);
    NoEntriesWhileFiring(ONCE_MEMORY, PushAll(ONCE_MEMORY, Armed(s), fns));
  }

  lemma ReturnKeepsOwnDone(s: State, args: Args)
    requires Settled(s, args)
    ensures OwnDone(if s.firing then Resume(ONCE_MEMORY, s) else s)
  {
  }

  lemma SettledRunsUserCode(s: State, args: Args)
    requires Settled(s, args)
    ensures Running(s).None? || Running(s).value >= USER
  {
    var n := |s.calls|;
    KeptAll(s.added, s.skipped);
    assert (Called(s.calls) + Waiting(Items(s), s.firingIndex))[n - 1] == s.calls[n - 1].who;
  }

  lemma FreshlySettled(items: seq<Occurrence>, args: Args)
    requires OwnFirst(items)
    ensures Settled(if |items| > 4 then Stage(items, 4, args) else Finished(items, args), args)
  {
    var s := if |items| > 4 then Stage(items, 4, args) else Finished(items, args);
    KeptAll(items, {});
    assert Called(s.calls) + Waiting(Items(s), s.firingIndex) == items;
  }

  /** The progress list cannot touch the other two. */
  lemma ProgressIsApart(d: Promise, e: Event)
    requires AllSound(d)
    ensures var r := React(d, OnProgress, e); r.state == d.state && r.done == d.done && r.fail == d.fail
  {
    StepIsSound(d, OnProgress, e);
    ProgressRunsApart(Step(d, OnProgress, e));
  }

  lemma {:induction false} ProgressRunsApart(d: Promise)
    requires AllSound(d)
    ensures var r := RunOwn(d, OnProgress); r.state == d.state && r.done == d.done && r.fail == d.fail
    decreases |d.progress.queue|, Left(d.progress)
  {
    var running := Running(d.progress);
    if running.Some? && running.value < USER {
      StepIsSound(d, OnProgress, Return(false));
      var d' := Step(d, OnProgress, Return(false));
      if Closer(d'.progress, d.progress) {
        ProgressRunsApart(d');
      }
    }
  }

  lemma PendingSettles(d: Promise, which: Which, args: Args)
    requires Inv(d, None) && AllSound(d) && !which.OnProgress?
    ensures Inv(React(d, which, FireWith(args)), Some((SettlementOf(which), args)))
    ensures React(d, which, FireWith(args)).progress == Next(MEMORY_ONLY, d.progress, Lock)
  {
    var items := ListOf(d, which).list.value;
    StepIsSound(d, which, FireWith(args));
    UnfiredFires(items, args);
    OwnCallbacksSettle(Step(d, which, FireWith(args)), which, items, 0, args);
    FreshlySettled(items, args);
  }

  lemma PendingCollects(d: Promise, which: Which, fns: seq<Fn>)
    requires Inv(d, None) && AllSound(d) && !which.OnProgress? && forall i | 0 <= i < |fns| :: fns[i] >= USER
    ensures Inv(React(d, which, Add(fns)), None) && React(d, which, Add(fns)).progress == d.progress
  {
    var s := ListOf(d, which);
    StepIsSound(d, which, Add(fns));
    PushedByUser(s, fns);
    var s' := PushAll(ONCE_MEMORY, s, fns);
    assert s.added[|s.added|..] == [] && s'.list.value == s'.added;
    assert ListOf(React(d, which, Add(fns)), which) == s';
  }

  /** A promise that is still pending, called by a user. */
  lemma PendingReacts(d: Promise, which: Which, e: Event)
    requires Inv(d, None) && AllSound(d) && FromUser(e) && !which.OnProgress?
    ensures Inv(React(d, which, e), if e.FireWith? then Some((SettlementOf(which), e.args)) else None)
    ensures React(d, which, e).progress == if e.FireWith? then Next(MEMORY_ONLY, d.progress, Lock) else d.progress
  {
    match e
    case FireWith(args) => PendingSettles(d, which, args);
    case Add(fns) => PendingCollects(d, which, fns);
    case Return(_) => StepIsSound(d, which, e);
  }

  /** A settled promise, called by a user: the list that lost stays dead. */
  lemma SettledReacts(d: Promise, which: Which, e: Event, first: (Settlement, Args))
    requires Inv(d, Some(first)) && AllSound(d) && FromUser(e) && !which.OnProgress?
    ensures Inv(React(d, which, e), Some(first)) && React(d, which, e).progress == d.progress
    ensures e.FireWith? ==> React(d, which, e) == d
  {
    StepIsSound(d, which, e);
    if SettlementOf(which) == first.0 {
      SettledStays(ListOf(d, which), first.1, e);
      SettledRunsUserCode(ListOf(Step(d, which, e), which), first.1);
      if e.FireWith? {
        SettledRunsUserCode(ListOf(d, which), first.1);
      }
    }
  }

  /**
    For every sequence of calls, from outside or from running callbacks: the promise is pending until the first
    resolveWith or rejectWith, and from then on has that settlement; its winning list is a "once memory" list
    fired with those arguments; its losing list never runs anything.
   */
  lemma {:induction false} FirstSettlementDecides(acts: seq<Act>)
    requires AllFromUser(acts)
    ensures Inv(Run(acts), FirstSettlement(acts))
  {
    if acts != [] {
      var before, last := acts[..|acts| - 1], acts[|acts| - 1];
      FirstSettlementDecides(before);
      var d := Run(before);
      assert FromUser(last.event);
      if last.which.OnProgress? {
        ProgressIsApart(d, last.event);
      } else if FirstSettlement(before).None? {
        PendingReacts(d, last.which, last.event);
      } else {
        SettledReacts(d, last.which, last.event, FirstSettlement(before).value);
      }
    }
  }

  /** A later resolveWith or rejectWith changes nothing at all. */
  lemma LaterSettlementsChangeNothing(acts: seq<Act>, which: Which, args: Args)
    requires AllFromUser(acts) && FirstSettlement(acts).Some? && !which.OnProgress?
    ensures React(Run(acts), which, FireWith(args)) == Run(acts)
  {
    FirstSettlementDecides(acts);
    SettledReacts(Run(acts), which, FireWith(args), FirstSettlement(acts).value);
  }

  /** `done` and `fail` callbacks never both run, and none runs before the promise is settled. */
  lemma OnlyOneSideRuns(acts: seq<Act>)
    requires AllFromUser(acts)
    ensures Run(acts).done.calls == [] || Run(acts).fail.calls == []
    ensures Run(acts).done.calls != [] ==> Run(acts).state == Resolved
    ensures Run(acts).fail.calls != [] ==> Run(acts).state == Rejected
  {
    FirstSettlementDecides(acts);
  }

  /**
    Once resolved and idle, every `done` callback ever added has been called exactly once, in order of addition,
    with the arguments of the first resolveWith; and so for `fail`.
   */
  lemma EveryCallbackRunsOnce(acts: seq<Act>)
    requires AllFromUser(acts) && FirstSettlement(acts).Some?
    ensures var (state, args) := FirstSettlement(acts).value;
      var s := if state.Resolved? then Run(acts).done else Run(acts).fail;
      && (forall c | c in s.calls :: c.args == args)
      && (!s.firing ==> Called(s.calls) == s.added)
      && Called(s.calls) <= s.added
  {
    FirstSettlementDecides(acts);
    var (state, args) := FirstSettlement(acts).value;
    var s := if state.Resolved? then Run(acts).done else Run(acts).fail;
    KeptAll(s.added, s.skipped);
    assert !s.firing ==> Waiting(Items(s), s.firingIndex) == [];
  }

  /** More calls cannot take a settlement back. */
  lemma {:induction false} SettlementIsFinal(acts: seq<Act>, more: seq<Act>)
    requires AllFromUser(acts + more) && FirstSettlement(acts).Some?
    ensures FirstSettlement(acts + more) == FirstSettlement(acts)
    ensures Run(acts + more).state == FirstSettlement(acts).value.0
    decreases |more|
  {
    FirstSettlementDecides(acts + more);
    if more == [] {
      assert acts + more == acts;
    } else {
      assert (acts + more)[..|acts + more| - 1] == acts + more[..|more| - 1];
      assert forall a | a in acts + more[..|more| - 1] :: a in acts + more;
      SettlementIsFinal(acts, more[..|more| - 1]);
    }
  }

  // ---------------------------------------------------------------------------------------------
  // The object

  /** As long as a list goes on firing, every return brings it closer to the end. */
  lemma ReturnComesCloser(o: Options, s: State)
    requires Sound(s) && s.firing
    ensures var s' := Next(o, s, Return(false));
      if s'.firing then Closer(s', s) && |s'.calls| == |s.calls| + 1 else s'.calls == s.calls
  {
    ResumeComesCloser(o, s);
  }

  lemma {:induction false} ResumeComesCloser(o: Options, s: State)
    requires -1 <= s.firingIndex && (s.list.Some? && s.firingIndex + 1 < |Items(s)| ==> s.memory.Some?)
    ensures var s' := Resume(o, s);
      s.firing ==> if s'.firing then Closer(s', s) && |s'.calls| == |s.calls| + 1 else s'.calls == s.calls
    decreases |s.queue|
  {
    if s.firingIndex + 1 >= |Items(s)| && s.queue != [] {
      ResumeComesCloser(o, s.(firingIndex := -1, memory := Some(s.queue[0]), queue := s.queue[1..]));
    }
  }

  /** Whatever is running is user code. */
  ghost predicate UserRuns(s: State) {
    Running(s).None? || Running(s).value >= USER
  }

  ghost predicate AllUserRuns(d: Promise) {
    UserRuns(d.done) && UserRuns(d.fail) && UserRuns(d.progress)
  }

  /** An own callback does not change its own list, nor what the others are running. */
  lemma EffectKeepsRunning(d: Promise, which: Which, fn: Fn)
    requires AllSound(d)
    ensures ListOf(Effect(d, which, fn), which) == ListOf(d, which)
    ensures var e := Effect(d, which, fn);
      && Running(e.done) == Running(d.done)
      && Running(e.fail) == Running(d.fail)
      && Running(e.progress) == Running(d.progress)
  {
  }

  ghost predicate OthersRunUserCode(d: Promise, which: Which) {
    && (which.OnDone? || UserRuns(d.done))
    && (which.OnFail? || UserRuns(d.fail))
    && (which.OnProgress? || UserRuns(d.progress))
  }

  lemma {:induction false} RunOwnEndsInUserCode(d: Promise, which: Which)
    requires AllSound(d) && OthersRunUserCode(d, which)
    ensures OthersRunUserCode(RunOwn(d, which), which) && UserRuns(ListOf(RunOwn(d, which), which))
    decreases |ListOf(d, which).queue|, Left(ListOf(d, which))
  {
    var running := Running(ListOf(d, which));
    if running.Some? && running.value < USER {
      var e := Effect(d, which, running.value);
      EffectIsSound(d, which, running.value);
      EffectKeepsRunning(d, which, running.value);
      StepIsSound(e, which, Return(false));
      ReturnComesCloser(OptionsOf(which), ListOf(e, which));
      var d' := Step(e, which, Return(false));
      if Closer(ListOf(d', which), ListOf(d, which)) {
        RunOwnEndsInUserCode(d', which);
      } else {
        assert RunOwn(d, which) == d';
      }
    }
  }

  /** Between any two calls, only user code is running. */
  lemma ReactEndsInUserCode(d: Promise, which: Which, e: Event)
    requires AllSound(d) && AllUserRuns(d)
    ensures AllUserRuns(React(d, which, e))
  {
    StepIsSound(d, which, e);
    RunOwnEndsInUserCode(Step(d, which, e), which);
  }

  class DeferredObject {
    const done: CallbackList
    const fail: CallbackList
    const progress: CallbackList
    var state: Settlement

    ghost function Model(): Promise
      reads this, done, fail, progress
    {
      Promise(state, done.Model(), fail.Model(), progress.Model())
    }

    ghost predicate Valid()
      reads this, done, fail, progress
    {
      Linked() && AllUserRuns(Model())
    }

    constructor ()
      ensures Valid() && Model() == NEW_PROMISE && fresh(done) && fresh(fail) && fresh(progress)
    {
      done := new CallbackList(ONCE_MEMORY);
      fail := new CallbackList(ONCE_MEMORY);
      progress := new CallbackList(MEMORY_ONLY);
      state := Pending;
      new;
      OwnIsPushed();
      var _ := done.Add(OWN_FNS);
      var _ := fail.Add(OWN_FNS);
      var _ := progress.Add([FIRE_HANDLERS]);
    }

    function List(which: Which): CallbackList {
      match which
      case OnDone => done
      case OnFail => fail
      case OnProgress => progress
    }

    ghost predicate Linked()
      reads this, done, fail, progress
    {
      && done != fail && done != progress && fail != progress
      && done.Valid() && fail.Valid() && progress.Valid()
      && done.options == ONCE_MEMORY && fail.options == ONCE_MEMORY && progress.options == MEMORY_ONLY
    }

    /** `call` is the own callback that the list is running; if there is none, the list runs user code or nothing. */
    ghost predicate Hands(which: Which, call: Option<Call>)
      requires Linked()
      reads this, done, fail, progress
    {
      var s := List(which).Model();
      if call.Some? then s.firing && s.calls != [] && call.value == s.calls[|s.calls| - 1] else UserRuns(s)
    }

    /** Run the Deferred's own callbacks until user code runs or the list is done. */
    method RunOwnCallbacks(which: Which, first: Option<Call>)
      requires Linked() && Hands(which, first)
      modifies this, done, fail, progress
      ensures Linked() && Model() == RunOwn(old(Model()), which)
    {
      hide Callbacks.Next, Effect;
      var call := first;
      while call.Some? && call.value.who.fn < USER
        invariant Linked() && Hands(which, call)
        invariant RunOwn(Model(), which) == RunOwn(old(Model()), which)
        decreases call.Some?, |List(which).queue|, Left(List(which).Model())
      {
        call := RunOneOwn(which, call.value);
      }
    }

    /** One own callback runs and returns. */
    method RunOneOwn(which: Which, call: Call) returns (next: Option<Call>)
      requires Linked() && Hands(which, Some(call)) && call.who.fn < USER
      modifies this, done, fail, progress
      ensures Linked() && Hands(which, next) && RunOwn(Model(), which) == RunOwn(old(Model()), which)
      ensures next.Some? ==> Closer(List(which).Model(), old(List(which).Model()))
    {
      hide Callbacks.Next, Left, Effect;
      ReturnComesCloser(OptionsOf(which), List(which).Model());
      EffectKeepsRunning(Model(), which, call.who.fn);
      TakeEffect(which, call.who.fn);
      next := List(which).Return(false);
    }

    /** One of the Deferred's own callbacks. */
    method TakeEffect(which: Which, fn: Fn)
      requires Linked()
      modifies this, done, fail, progress
      ensures Linked() && Model() == Effect(old(Model()), which, fn)
    {
      if !which.OnProgress? {
        if fn == SET_STATE {
          state := if which.OnDone? then Resolved else Rejected;
        } else if fn == DISABLE_OTHER {
          List(Other(which)).Disable();
        } else if fn == LOCK_PROGRESS {
          progress.Lock();
        }
      }
    }

    /** `resolveWith`, `rejectWith`, `notifyWith` */
    method FireWith(which: Which, args: Args)
      requires Valid()
      modifies this, done, fail, progress
      ensures Valid() && Model() == React(old(Model()), which, Event.FireWith(args))
    {
      hide RunOwn, Next;
      ReactEndsInUserCode(Model(), which, Event.FireWith(args));
      NextHandsOver(OptionsOf(which), List(which).Model(), Event.FireWith(args));
      var call := List(which).FireWith(args);
      RunOwnCallbacks(which, call);
    }

    /** `done`, `fail`, `progress` */
    method Add(which: Which, fns: seq<Fn>)
      requires Valid()
      modifies this, done, fail, progress
      ensures Valid() && Model() == React(old(Model()), which, Event.Add(fns))
    {
      hide RunOwn, Next;
      ReactEndsInUserCode(Model(), which, Event.Add(fns));
      NextHandsOver(OptionsOf(which), List(which).Model(), Event.Add(fns));
      var call := List(which).Add(fns);
      RunOwnCallbacks(which, call);
    }

    /** The user callback that a list is running returns. */
    method Return(which: Which)
      requires Valid()
      modifies this, done, fail, progress
      ensures Valid() && Model() == React(old(Model()), which, Event.Return(false))
    {
      hide RunOwn, Next;
      ReactEndsInUserCode(Model(), which, Event.Return(false));
      NextHandsOver(OptionsOf(which), List(which).Model(), Event.Return(false));
      var call := List(which).Return(false);
      RunOwnCallbacks(which, call);
    }
  }

  /** Either the list has called something, or what it is running, if anything, is user code. */
  ghost predicate HandsOver(before: State, after: State) {
    if |after.calls| > |before.calls| then after.firing else UserRuns(after)
  }

  lemma NextHandsOver(o: Options, s: State, e: Event)
    requires Sound(s) && UserRuns(s) && (e.FireWith? || e.Add? || e == Return(false))
    ensures HandsOver(s, Next(o, s, e))
  {
    match e
    case FireWith(args) =>
      if !s.locked && !s.firing {
        FiringHandsOver(o, s.(queue := s.queue + [args]));
      }
    case Add(fns) =>
      if s.list.Some? && s.memory.Some? && !s.firing {
        PushAllKeepsRest(o, Armed(s), fns);
        FiringHandsOver(o, PushAll(o, Armed(s), fns));
      } else {
        PushAllKeepsRest(o, s, fns);
      }
    case Return(_) =>
      if s.firing {
        ReturnComesCloser(o, s);
      }
  }

  lemma FiringHandsOver(o: Options, s: State)
    requires s.queue != [] && -1 <= s.firingIndex
    ensures HandsOver(s, Fire(o, s))
  {
    ResumeComesCloser(o, Started(o, s));
  }

  function Numbered(fns: seq<Fn>): seq<Occurrence> {
    seq(|fns|, k requires 0 <= k < |fns| => Occurrence(fns[k], k))
  }

  lemma {:induction false} PushedInOrder(o: Options, fns: seq<Fn>)
    requires !o.unique
    ensures PushAll(o, INITIAL, fns) == Unfired(Numbered(fns))
  {
    if fns == [] {
      assert Numbered(fns) == [];
    } else {
      PushedInOrder(o, fns[..|fns| - 1]);
      assert Numbered(fns) == Numbered(fns[..|fns| - 1]) + [Occurrence(fns[|fns| - 1], |fns| - 1)];
    }
  }

  lemma OwnIsPushed()
    ensures AddTo(ONCE_MEMORY, INITIAL, OWN_FNS) == Unfired(Own())
    ensures AddTo(MEMORY_ONLY, INITIAL, [FIRE_HANDLERS]) == Unfired([Occurrence(FIRE_HANDLERS, 0)])
  {
    PushedInOrder(ONCE_MEMORY, OWN_FNS);
    PushedInOrder(MEMORY_ONLY, [FIRE_HANDLERS]);
    assert Numbered(OWN_FNS) == Own() && Numbered([FIRE_HANDLERS]) == [Occurrence(FIRE_HANDLERS, 0)];
  }
}