/**
  jQuery.when and its arguments together: every argument is a Deferred of its own, to which `when` has added one
  callback for `done` and one for `fail`. What reaches the master is what those callbacks are called with.
 */
module Subordinates {
  import opened Wrappers
  import opened Callbacks
  import opened Deferred
  import CallbackRuns
  import When

  /** The number of the callbacks that `when` adds; the users' own have other numbers. */
  const FOLLOW: Fn := USER

  /** A call to subordinate `i`, or the return of one of its callbacks; or a call to the master's promise. */
  datatype Moment = OnSub(i: nat, act: Act) | OnPromise(which: Which, event: Event)

  function ActsOf(es: seq<Moment>, i: nat): seq<Act> {
    if es == [] then []
    else
      var before, last := ActsOf(es[..|es| - 1], i), es[|es| - 1];
      if last.OnSub? && last.i == i then before + [last.act] else before
  }

  ghost function Sub(es: seq<Moment>, i: nat): Promise {
    Deferred.Run(ActsOf(es, i))
  }

  /** Users only use the public methods, and the master's promise has none that settles it. */
  ghost predicate Public(n: nat, es: seq<Moment>) {
    forall e | e in es :: IsPublic(n, e)
  }

  predicate IsPublic(n: nat, e: Moment) {
    match e
    case OnSub(i, act) => i < n && FromUser(act.event)
    case OnPromise(_, event) => FromUser(event) && !event.FireWith?
  }

  /** What the callbacks of `when` pass on at one moment; `pack` makes one value of the arguments. */
  ghost function News(es: seq<Moment>, e: Moment, pack: Args -> When.Value): seq<When.Happening> {
    match e
    case OnPromise(which, event) => [When.OnMaster(which, event)]
    case OnSub(i, act) =>
      var before := ListOf(Sub(es, i), act.which).calls;
      var call := NewCall(before, ListOf(React(Sub(es, i), act.which, act.event), act.which).calls);
      if act.which.OnProgress? || call.None? || call.value.who.fn != FOLLOW then []
      else [When.Settle(i, OutcomeOf(act.which, pack(call.value.args)))]
  }

  function OutcomeOf(which: Which, value: When.Value): When.Outcome {
    if which.OnDone? then When.Fulfilled(value) else When.Failed(value)
  }

  ghost function Heard(es: seq<Moment>, pack: Args -> When.Value): seq<When.Happening> {
    if es == [] then []
    else Heard(es[..|es| - 1], pack) + News(es[..|es| - 1], es[|es| - 1], pack)
  }

  // ---------------------------------------------------------------------------------------------
  // Counting the calls of `when`'s callbacks

  function CountCalls(calls: seq<Call>): nat {
    if calls == [] then 0
    else CountCalls(calls[..|calls| - 1]) + if calls[|calls| - 1].who.fn == FOLLOW then 1 else 0
  }

  function Follows(d: Promise): nat {
    CountCalls(d.done.calls) + CountCalls(d.fail.calls)
  }

  /** The list has gone on calling: at most the last of the new calls is a user's. */
  ghost predicate CallsOn(before: seq<Call>, after: seq<Call>) {
    before <= after && forall k | |before| <= k < |after| - 1 :: after[k].who.fn < USER
  }

  lemma {:induction false} CallsOnCounts(before: seq<Call>, after: seq<Call>)
    requires CallsOn(before, after)
    ensures var call := NewCall(before, after);
      CountCalls(after) == CountCalls(before) + if call.Some? && call.value.who.fn == FOLLOW then 1 else 0
    decreases |after|
  {
    if |after| > |before| {
      var init := after[..|after| - 1];
      assert |init| > |before| ==> init[|init| - 1] == after[|init| - 1] && after[|init| - 1].who.fn < USER;
      CallsOnCounts(before, init);
    } else {
      assert after == before;
    }
  }

  lemma {:induction false} ResumeCallsOne(o: Options, s: State)
    requires -1 <= s.firingIndex && (s.list.Some? && s.firingIndex + 1 < |Items(s)| ==> s.memory.Some?)
    ensures var r := Resume(o, s);
      s.calls <= r.calls && |r.calls| <= |s.calls| + 1 && (r.calls != s.calls ==> r.firing == s.firing)
    decreases |s.queue|
  {
    if s.firingIndex + 1 >= |Items(s)| && s.queue != [] {
      ResumeCallsOne(o, s.(firingIndex := -1, memory := Some(s.queue[0]), queue := s.queue[1..]));
    }
  }

  /** One call to a list, or the return of its callback, makes it call at most one more callback. */
  lemma NextCallsOne(o: Options, s: State, e: Event)
    requires Sound(s) && FromUser(e)
    ensures var r := Callbacks.Next(o, s, e); s.calls <= r.calls && |r.calls| <= |s.calls| + 1
  {
    match e
    case FireWith(args) =>
      if !s.locked && !s.firing {
        ResumeCallsOne(o, Callbacks.Started(o, s.(queue := s.queue + [args])));
      }
    case Add(fns) =>
      if s.list.Some? && s.memory.Some? && !s.firing {
        PushAllKeepsRest(o, Armed(s), fns);
        ResumeCallsOne(o, Callbacks.Started(o, PushAll(o, Armed(s), fns)));
      } else {
        PushAllKeepsRest(o, s, fns);
      }
    case Return(isFalse) =>
      if s.firing {
        ResumeCallsOne(o, if isFalse && o.stopOnFalse then s.(firingIndex := |Items(s)|, memory := None) else s);
      }
  }

  lemma RunOwnStops(d: Promise, which: Which)
    requires AllSound(d) && UserRuns(ListOf(d, which))
    ensures RunOwn(d, which) == d
  {
  }

  /** The Deferred's own callbacks, run one after another, and at most one user callback at the end. */
  lemma {:induction false} RunOwnCallsOn(d: Promise, which: Which, before: seq<Call>)
    requires AllSound(d) && CallsOn(before, ListOf(d, which).calls)
    ensures CallsOn(before, ListOf(RunOwn(d, which), which).calls)
    ensures forall other: Which | other != which ::
      ListOf(RunOwn(d, which), other).calls == ListOf(d, other).calls
    decreases |ListOf(d, which).queue|, Left(ListOf(d, which))
  {
    hide Left, Callbacks.Next;
    var s := ListOf(d, which);
    if UserRuns(s) {
      RunOwnStops(d, which);
    } else {
      OwnReturns(d, which);
      var e := Step(Effect(d, which, Running(s).value), which, Return(false));
      if ListOf(e, which).firing {
        RunOwnCallsOn(e, which, before);
      } else {
        RunOwnStops(e, which);
      }
    }
  }

  /** An own callback takes effect and returns: its list goes on, the others call nothing. */
  lemma OwnReturns(d: Promise, which: Which)
    requires AllSound(d) && !UserRuns(ListOf(d, which))
    ensures AllSound(Effect(d, which, Running(ListOf(d, which)).value))
    ensures var s := ListOf(d, which);
      var e := Step(Effect(d, which, Running(s).value), which, Return(false));
      && AllSound(e)
      && (ListOf(e, which).firing ==> Closer(ListOf(e, which), s))
      && CallsOn(s.calls, ListOf(e, which).calls) && |ListOf(e, which).calls| <= |s.calls| + 1
      && forall other: Which | other != which :: ListOf(e, other).calls == ListOf(d, other).calls
  {
    var s := ListOf(d, which);
    EffectIsSound(d, which, Running(s).value);
    EffectKeepsRunning(d, which, Running(s).value);
    StepIsSound(Effect(d, which, Running(s).value), which, Return(false));
    NextCallsOne(OptionsOf(which), s, Return(false));
    ReturnComesCloser(OptionsOf(which), s);
  }

  lemma ReactCallsOn(d: Promise, which: Which, e: Event)
    requires AllSound(d) && FromUser(e)
    ensures CallsOn(ListOf(d, which).calls, ListOf(React(d, which, e), which).calls)
    ensures forall other: Which | other != which ::
      ListOf(React(d, which, e), other).calls == ListOf(d, other).calls
  {
    hide RunOwn, Callbacks.Next;
    StepIsSound(d, which, e);
    NextCallsOne(OptionsOf(which), ListOf(d, which), e);
    RunOwnCallsOn(Step(d, which, e), which, ListOf(d, which).calls);
  }

  function Settles(hs: seq<When.Happening>, i: nat): nat {
    if hs == [] then 0
    else Settles(hs[..|hs| - 1], i) + if hs[|hs| - 1].Settle? && hs[|hs| - 1].i == i then 1 else 0
  }

  lemma PublicBefore(n: nat, es: seq<Moment>)
    requires Public(n, es) && es != []
    ensures Public(n, es[..|es| - 1]) && es[|es| - 1] in es
  {
    forall e | e in es[..|es| - 1] ensures e in es {
    }
  }

  /** One moment brings one subordinate on by one call. */
  lemma SubGoesOn(es: seq<Moment>, i: nat)
    requires es != []
    ensures var before, last := es[..|es| - 1], es[|es| - 1];
      Sub(es, i) ==
        if last.OnSub? && last.i == i then React(Sub(before, i), last.act.which, last.act.event) else Sub(before, i)
  {
    hide React;
    var acts := ActsOf(es[..|es| - 1], i);
    if es[|es| - 1].OnSub? {
      assert (acts + [es[|es| - 1].act])[..|acts|] == acts;
    }
  }

  lemma ReactCounts(d: Promise, act: Act)
    requires AllSound(d) && FromUser(act.event)
    ensures var r := React(d, act.which, act.event);
      var call := NewCall(ListOf(d, act.which).calls, ListOf(r, act.which).calls);
      Follows(r) == Follows(d)
        + if !act.which.OnProgress? && call.Some? && call.value.who.fn == FOLLOW then 1 else 0
  {
    hide React, CountCalls;
    ReactCallsOn(d, act.which, act.event);
    CallsOnCounts(ListOf(d, act.which).calls, ListOf(React(d, act.which, act.event), act.which).calls);
    var r := React(d, act.which, act.event);
    match act.which {
      case OnDone => assert ListOf(r, OnFail).calls == ListOf(d, OnFail).calls;
      case OnFail => assert ListOf(r, OnDone).calls == ListOf(d, OnDone).calls;
      case OnProgress =>
        assert ListOf(r, OnDone).calls == ListOf(d, OnDone).calls;
        assert ListOf(r, OnFail).calls == ListOf(d, OnFail).calls;
    }
  }

  lemma SettlesMore(hs: seq<When.Happening>, news: seq<When.Happening>, i: nat)
    requires |news| <= 1
    ensures Settles(hs + news, i) ==
      Settles(hs, i) + if news != [] && news[0].Settle? && news[0].i == i then 1 else 0
  {
    if news == [] {
      assert hs + news == hs;
    } else {
      assert (hs + news)[..|hs|] == hs;
    }
  }

  /** Of each subordinate the master hears exactly the calls of the two callbacks that `when` has added. */
  lemma {:induction false} HeardIsFollowed(n: nat, es: seq<Moment>, pack: Args -> When.Value, i: nat)
    requires Public(n, es)
    ensures Settles(Heard(es, pack), i) == Follows(Sub(es, i))
  {
    if es != [] {
      hide Settles, Follows, React, FromUser;
      var before, last := es[..|es| - 1], es[|es| - 1];
      PublicBefore(n, es);
      HeardIsFollowed(n, before, pack, i);
      SubGoesOn(es, i);
      SettlesMore(Heard(before, pack), News(before, last, pack), i);
      if last.OnSub? && last.i == i {
        ReactCounts(Sub(before, i), last.act);
      }
    } else {
      assert Sub(es, i) == NEW_PROMISE;
    }
  }

  // ---------------------------------------------------------------------------------------------
  // Each subordinate is heard of at most once

  function CountFns(fns: seq<Fn>): nat {
    if fns == [] then 0 else CountFns(fns[..|fns| - 1]) + if fns[|fns| - 1] == FOLLOW then 1 else 0
  }

  function CountEntries(items: seq<Occurrence>): nat {
    if items == [] then 0
    else CountEntries(items[..|items| - 1]) + if items[|items| - 1].fn == FOLLOW then 1 else 0
  }

  /** How often the callback of `when` is added to one list. */
  function FollowAdds(acts: seq<Act>, which: Which): nat {
    if acts == [] then 0
    else
      var last := acts[|acts| - 1];
      FollowAdds(acts[..|acts| - 1], which)
      + if last.which == which && last.event.Add? then CountFns(last.event.fns) else 0
  }

  /** `when` adds its callback to each of the two lists of an argument, once. */
  ghost predicate FollowedOnce(n: nat, es: seq<Moment>) {
    forall i: nat | i < n :: FollowAdds(ActsOf(es, i), OnDone) <= 1 && FollowAdds(ActsOf(es, i), OnFail) <= 1
  }

  lemma EntriesOneMore(items: seq<Occurrence>, entry: Occurrence)
    ensures CountEntries(items + [entry]) == CountEntries(items) + if entry.fn == FOLLOW then 1 else 0
  {
    assert (items + [entry])[..|items|] == items;
  }

  lemma {:induction false} PushAllAdds(o: Options, s: State, fns: seq<Fn>)
    requires !o.unique
    ensures CountEntries(PushAll(o, s, fns).added) == CountEntries(s.added) + if s.list.Some? then CountFns(fns) else 0
  {
    if fns != [] {
      var rest := PushAll(o, s, fns[..|fns| - 1]);
      PushAllAdds(o, s, fns[..|fns| - 1]);
      PushAllKeepsRest(o, s, fns[..|fns| - 1]);
      EntriesOneMore(rest.added, Occurrence(fns[|fns| - 1], |rest.added|));
    }
  }

  /** What is added to a list is what is given to `add`, as long as the list is not spent. */
  lemma NextAdds(o: Options, s: State, e: Event)
    requires Sound(s) && FromUser(e) && !o.unique
    ensures CountEntries(Callbacks.Next(o, s, e).added) ==
      CountEntries(s.added) + if e.Add? && s.list.Some? then CountFns(e.fns) else 0
    ensures !e.Add? ==> Callbacks.Next(o, s, e).added == s.added
  {
    match e
    case FireWith(args) =>
      if !s.locked && !s.firing {
        NoEntriesWhileFiring(o, s.(queue := s.queue + [args]));
      }
    case Add(fns) =>
      if s.list.Some? && s.memory.Some? && !s.firing {
        PushAllKeepsRest(o, Armed(s), fns);
        PushAllAdds(o, Armed(s), fns);
        NoEntriesWhileFiring(o, PushAll(o, Armed(s), fns));
      } else {
        PushAllAdds(o, s, fns);
      }
    case Return(isFalse) =>
      if s.firing {
        var stopped := s.(firingIndex := |Items(s)|, memory := None);
        NoEntriesWhileResuming(o, if isFalse && o.stopOnFalse then stopped else s);
      }
  }

  lemma {:induction false} RunOwnAddsNothing(d: Promise, which: Which, list: Which)
    requires AllSound(d)
    ensures ListOf(RunOwn(d, which), list).added == ListOf(d, list).added
    decreases |ListOf(d, which).queue|, Left(ListOf(d, which))
  {
    hide Left, Callbacks.Next;
    var s := ListOf(d, which);
    if UserRuns(s) {
      RunOwnStops(d, which);
    } else {
      OwnReturns(d, which);
      OwnAddsNothing(d, which, list);
      var e := Step(Effect(d, which, Running(s).value), which, Return(false));
      if ListOf(e, which).firing {
        RunOwnAddsNothing(e, which, list);
      } else {
        RunOwnStops(e, which);
      }
    }
  }

  lemma OwnAddsNothing(d: Promise, which: Which, list: Which)
    requires AllSound(d) && !UserRuns(ListOf(d, which))
    ensures AllSound(Effect(d, which, Running(ListOf(d, which)).value))
    ensures var e := Step(Effect(d, which, Running(ListOf(d, which)).value), which, Return(false));
      ListOf(e, list).added == ListOf(d, list).added
  {
    EffectIsSound(d, which, Running(ListOf(d, which)).value);
    EffectKeepsRunning(d, which, Running(ListOf(d, which)).value);
    NextAdds(OptionsOf(which), ListOf(d, which), Return(false));
  }

  lemma ReactAdds(d: Promise, act: Act, list: Which)
    requires AllSound(d) && FromUser(act.event)
    ensures CountEntries(ListOf(React(d, act.which, act.event), list).added) ==
      CountEntries(ListOf(d, list).added)
      + if list == act.which && act.event.Add? && ListOf(d, list).list.Some? then CountFns(act.event.fns) else 0
  {
    hide RunOwn, Callbacks.Next;
    StepIsSound(d, act.which, act.event);
    NextAdds(OptionsOf(act.which), ListOf(d, act.which), act.event);
    RunOwnAddsNothing(Step(d, act.which, act.event), act.which, list);
  }

  /** The list of a settlement; while it is pending, either list may become that. */
  predicate MayWin(first: Option<(Settlement, Args)>, which: Which) {
    !which.OnProgress? && (first.None? || first.value.0 == SettlementOf(which))
  }

  lemma {:induction false} EntriesAreFollowed(acts: seq<Act>, which: Which)
    requires AllFromUser(acts) && !which.OnProgress?
    ensures var count := CountEntries(ListOf(Deferred.Run(acts), which).added);
      && count <= FollowAdds(acts, which)
      && (MayWin(FirstSettlement(acts), which) ==> count == FollowAdds(acts, which))
  {
    if acts == [] {
      OwnIsNotFollowed();
    } else {
      hide React, CountEntries, CountFns;
      var before, last := acts[..|acts| - 1], acts[|acts| - 1];
      assert FromUser(last.event);
      EntriesAreFollowed(before, which);
      FirstSettlementDecides(before);
      ReactAdds(Deferred.Run(before), last, which);
    }
  }

  /** The functions that users have added to one list, in order. */
  function AddsTo(acts: seq<Act>, which: Which): seq<Fn> {
    if acts == [] then []
    else
      var last := acts[|acts| - 1];
      AddsTo(acts[..|acts| - 1], which) + if last.which == which && last.event.Add? then last.event.fns else []
  }

  lemma ReactAddsGiven(d: Promise, act: Act, list: Which)
    requires AllSound(d) && FromUser(act.event)
    ensures CallbackRuns.FnsOf(ListOf(React(d, act.which, act.event), list).added) ==
      CallbackRuns.FnsOf(ListOf(d, list).added)
      + if list == act.which && act.event.Add? && ListOf(d, list).list.Some? then act.event.fns else []
  {
    hide RunOwn, Callbacks.Next;
    StepIsSound(d, act.which, act.event);
    CallbackRuns.NextAddsGiven(OptionsOf(act.which), ListOf(d, act.which), act.event);
    RunOwnAddsNothing(Step(d, act.which, act.event), act.which, list);
    var fns := CallbackRuns.FnsOf(ListOf(d, list).added);
    assert fns + [] == fns;
  }

  /** The list of a settlement, or either list before it, holds the Deferred's own callbacks and what users added. */
  lemma {:induction false} UsersHaveAdded(acts: seq<Act>, which: Which)
    requires AllFromUser(acts) && MayWin(FirstSettlement(acts), which)
    ensures CallbackRuns.FnsOf(ListOf(Deferred.Run(acts), which).added) == OWN_FNS + AddsTo(acts, which)
  {
    if acts == [] {
      assert CallbackRuns.FnsOf(Own()) == OWN_FNS + [];
    } else {
      hide React, Deferred.Run, CallbackRuns.FnsOf;
      var before, last := acts[..|acts| - 1], acts[|acts| - 1];
      assert FromUser(last.event);
      UsersHaveAdded(before, which);
      OpenUntilLost(before, which);
      ReactAddsGiven(Deferred.Run(before), last, which);
      OneMoreAct(acts);
      Regroup(OWN_FNS, AddsTo(before, which), if last.event.Add? then last.event.fns else []);
    }
  }

  lemma OneMoreAct(acts: seq<Act>)
    requires acts != []
    ensures Deferred.Run(acts) ==
      React(Deferred.Run(acts[..|acts| - 1]), acts[|acts| - 1].which, acts[|acts| - 1].event)
  {
  }

  lemma OpenUntilLost(acts: seq<Act>, which: Which)
    requires AllFromUser(acts) && MayWin(FirstSettlement(acts), which)
    ensures ListOf(Deferred.Run(acts), which).list.Some?
  {
    FirstSettlementDecides(acts);
  }

  lemma Regroup(x: seq<Fn>, y: seq<Fn>, z: seq<Fn>)
    ensures x + y + z == x + (y + z) && x + y + [] == x + (y + [])
  {
  }

  /** Once settled and idle, a Deferred has called its own callbacks and then all that users added, in order. */
  lemma SettledHasCalledAll(acts: seq<Act>)
    requires AllFromUser(acts) && FirstSettlement(acts).Some?
    ensures var which := if FirstSettlement(acts).value.0.Resolved? then OnDone else OnFail;
      var s := ListOf(Deferred.Run(acts), which);
      !s.firing ==> CallbackRuns.FnsOf(Called(s.calls)) == OWN_FNS + AddsTo(acts, which)
  {
    hide React;
    EveryCallbackRunsOnce(acts);
    StateIsFirst(acts);
    UsersHaveAdded(acts, if FirstSettlement(acts).value.0.Resolved? then OnDone else OnFail);
  }

  lemma OwnIsNotFollowed()
    ensures CountEntries(Own()) == 0
  {
    var own := Own();
    assert own[..3][..2] == own[..2] && own[..2][..1] == own[..1] && own[..1][..0] == [];
    assert CountEntries(own[..1]) == 0 && CountEntries(own[..2]) == 0 && CountEntries(own[..3]) == 0;
  }

  lemma {:induction false} CallsAreEntries(calls: seq<Call>)
    ensures CountCalls(calls) == CountEntries(Called(calls))
  {
    if calls != [] {
      CallsAreEntries(calls[..|calls| - 1]);
      assert Called(calls)[..|calls| - 1] == Called(calls[..|calls| - 1]);
    }
  }

  lemma {:induction false} PrefixCounts(x: seq<Occurrence>, y: seq<Occurrence>)
    requires x <= y
    ensures CountEntries(x) <= CountEntries(y)
    decreases |y|
  {
    if |x| < |y| {
      PrefixCounts(x, y[..|y| - 1]);
    } else {
      assert x == y;
    }
  }

  /** A settled Deferred calls each callback at most once, and exactly once when it is done with its list. */
  lemma FollowsAtMostOnce(acts: seq<Act>)
    requires AllFromUser(acts) && FollowAdds(acts, OnDone) <= 1 && FollowAdds(acts, OnFail) <= 1
    ensures var d := Deferred.Run(acts);
      && Follows(d) <= 1
      && (d.state == Pending ==> Follows(d) == 0)
      && (d.state == Resolved && !d.done.firing ==> Follows(d) == FollowAdds(acts, OnDone))
      && (d.state == Rejected && !d.fail.firing ==> Follows(d) == FollowAdds(acts, OnFail))
  {
    hide CountCalls, CountEntries, FollowAdds, Called;
    var d := Deferred.Run(acts);
    FirstSettlementDecides(acts);
    OnlyOneSideRuns(acts);
    NoCallsNoFollows();
    if FirstSettlement(acts).Some? {
      var which := if FirstSettlement(acts).value.0.Resolved? then OnDone else OnFail;
      var s := ListOf(d, which);
      EveryCallbackRunsOnce(acts);
      EntriesAreFollowed(acts, which);
      CallsAreEntries(s.calls);
      PrefixCounts(Called(s.calls), s.added);
    }
  }

  lemma NoCallsNoFollows()
    ensures CountCalls([]) == 0
  {
  }

  /** Every act of a subordinate is a user's. */
  lemma {:induction false} SubsArePublic(n: nat, es: seq<Moment>, i: nat)
    requires Public(n, es)
    ensures AllFromUser(ActsOf(es, i))
  {
    if es != [] {
      PublicBefore(n, es);
      SubsArePublic(n, es[..|es| - 1], i);
    }
  }

  lemma {:induction false} SettlesCounts(hs: seq<When.Happening>, k: nat, i: nat)
    requires k < |hs| && hs[k].Settle? && hs[k].i == i
    ensures Settles(hs, i) >= 1
    decreases |hs|
  {
    if k < |hs| - 1 {
      SettlesCounts(hs[..|hs| - 1], k, i);
    }
  }

  lemma {:induction false} SettlesTwice(hs: seq<When.Happening>, k: nat, l: nat, i: nat)
    requires k < l < |hs| && hs[k].Settle? && hs[l].Settle? && hs[k].i == hs[l].i == i
    ensures Settles(hs, i) >= 2
    decreases |hs|
  {
    if l < |hs| - 1 {
      SettlesTwice(hs[..|hs| - 1], k, l, i);
    } else {
      SettlesCounts(hs[..|hs| - 1], k, i);
    }
  }

  lemma {:induction false} SettlesSomewhere(hs: seq<When.Happening>, i: nat) returns (k: nat)
    requires Settles(hs, i) >= 1
    ensures k < |hs| && hs[k].Settle? && hs[k].i == i
  {
    k := |hs| - 1;
    if !(hs[k].Settle? && hs[k].i == i) {
      k := SettlesSomewhere(hs[..k], i);
    }
  }

  /** What is heard of a subordinate is how it was settled, and only calls that users may make reach the master. */
  predicate Tells(es: seq<Moment>, n: nat, pack: Args -> When.Value, h: When.Happening) {
    match h
    case OnMaster(_, event) => FromUser(event) && !event.FireWith?
    case Settle(i, outcome) =>
      i < n && match FirstSettlement(ActsOf(es, i))
        case None => false
        case Some((state, args)) => outcome == OutcomeOf(if state.Resolved? then OnDone else OnFail, pack(args))
  }

  lemma {:induction false} HeardTells(n: nat, es: seq<Moment>, pack: Args -> When.Value, k: nat)
    requires Public(n, es) && k < |Heard(es, pack)|
    ensures Tells(es, n, pack, Heard(es, pack)[k])
    decreases |es|
  {
    var before, last := es[..|es| - 1], es[|es| - 1];
    PublicBefore(n, es);
    if k < |Heard(before, pack)| {
      HeardTells(n, before, pack, k);
      var h := Heard(before, pack)[k];
      if h.Settle? {
        SettlementStays(es, h.i);
      }
    } else {
      NewsTell(n, es, pack);
      assert Heard(es, pack)[k] == News(before, last, pack)[0];
    }
  }

  lemma SettlementStays(es: seq<Moment>, i: nat)
    requires es != [] && FirstSettlement(ActsOf(es[..|es| - 1], i)).Some?
    ensures FirstSettlement(ActsOf(es, i)) == FirstSettlement(ActsOf(es[..|es| - 1], i))
  {
    var acts, last := ActsOf(es[..|es| - 1], i), es[|es| - 1];
    if last.OnSub? && last.i == i {
      assert (acts + [last.act])[..|acts|] == acts;
    }
  }

  lemma NewsTell(n: nat, es: seq<Moment>, pack: Args -> When.Value)
    requires Public(n, es) && es != []
    ensures var before, last := es[..|es| - 1], es[|es| - 1];
      forall h | h in News(before, last, pack) :: Tells(es, n, pack, h)
  {
    var before, last := es[..|es| - 1], es[|es| - 1];
    PublicBefore(n, es);
    if last.OnSub? && News(before, last, pack) != [] {
      hide React, Deferred.Run;
      var acts, which := ActsOf(es, last.i), last.act.which;
      SubsArePublic(n, es, last.i);
      SubGoesOn(es, last.i);
      StateIsFirst(acts);
      OnlyOneSideRuns(acts);
      var calls := ListOf(Sub(es, last.i), which).calls;
      assert calls != [];
      EveryCallbackRunsOnce(acts);
      assert calls[|calls| - 1] in calls;
    }
  }

  // ---------------------------------------------------------------------------------------------
  // when and its arguments

  /** What the master hears can happen: no subordinate settles twice, and nobody else settles the master. */
  lemma ArgumentsSettleOnce(n: nat, es: seq<Moment>, pack: Args -> When.Value)
    requires Public(n, es) && FollowedOnce(n, es)
    ensures When.Possible(n, Heard(es, pack))
  {
    var hs := Heard(es, pack);
    forall k: nat | k < |hs| ensures Tells(es, n, pack, hs[k]) {
      HeardTells(n, es, pack, k);
    }
    forall k: nat, l: nat | k < l < |hs| && hs[k].Settle? && hs[l].Settle? ensures hs[k].i != hs[l].i {
      var i := hs[k].i;
      assert Tells(es, n, pack, hs[k]);
      if hs[l].i == i {
        SettlesTwice(hs, k, l, i);
        HeardIsFollowed(n, es, pack, i);
        SubsArePublic(n, es, i);
        FollowsAtMostOnce(ActsOf(es, i));
        assert false;
      }
    }
  }

  /** The callbacks of `when` have been added to argument `i`, and its lists have nothing left to call. */
  ghost predicate CaughtUp(es: seq<Moment>, i: nat) {
    && FollowAdds(ActsOf(es, i), OnDone) == FollowAdds(ActsOf(es, i), OnFail) == 1
    && !Sub(es, i).done.firing && !Sub(es, i).fail.firing
  }

  lemma {:induction false} ValueIsHeard(hs: seq<When.Happening>, i: nat) returns (k: nat)
    requires When.ValueOf(hs, i).Some?
    ensures k < |hs| && hs[k] == When.Settle(i, When.Fulfilled(When.ValueOf(hs, i).value))
  {
    k := |hs| - 1;
    if !(hs[k].Settle? && hs[k].i == i && hs[k].outcome.Fulfilled?) {
      k := ValueIsHeard(hs[..k], i);
    }
  }

  lemma {:induction false} HeardIsValue(hs: seq<When.Happening>, k: nat, i: nat)
    requires k < |hs| && hs[k].Settle? && hs[k].i == i && hs[k].outcome.Fulfilled?
    ensures When.ValueOf(hs, i).Some?
    decreases |hs|
  {
    if k < |hs| - 1 {
      HeardIsValue(hs[..|hs| - 1], k, i);
    }
  }

  lemma {:induction false} FailureIsHeard(hs: seq<When.Happening>) returns (k: nat)
    requires When.FirstFailure(hs).Some?
    ensures k < |hs| && hs[k].Settle? && hs[k].outcome == When.Failed(When.FirstFailure(hs).value)
  {
    k := |hs| - 1;
    if When.FirstFailure(hs[..k]).Some? {
      k := FailureIsHeard(hs[..k]);
    }
  }

  lemma {:induction false} HeardIsFailure(hs: seq<When.Happening>, k: nat)
    requires k < |hs| && hs[k].Settle? && hs[k].outcome.Failed?
    ensures When.FirstFailure(hs).Some?
    decreases |hs|
  {
    if k < |hs| - 1 {
      HeardIsFailure(hs[..|hs| - 1], k);
    }
  }

  /** Argument `i` has resolved, with this value. */
  ghost predicate ResolvedWith(es: seq<Moment>, i: nat, pack: Args -> When.Value, value: When.Value) {
    && Sub(es, i).state == Resolved
    && match FirstSettlement(ActsOf(es, i))
       case None => false
       case Some((_, args)) => value == pack(args)
  }

  /** The value of an argument is known to the master iff the argument has resolved, and is what it resolved with. */
  lemma ValueMeansResolved(n: nat, es: seq<Moment>, pack: Args -> When.Value, i: nat)
    requires Public(n, es) && FollowedOnce(n, es) && i < n
    ensures When.ValueOf(Heard(es, pack), i).Some? ==>
      ResolvedWith(es, i, pack, When.ValueOf(Heard(es, pack), i).value)
    ensures CaughtUp(es, i) && Sub(es, i).state == Resolved ==> When.ValueOf(Heard(es, pack), i).Some?
  {
    hide React, Heard, Deferred.Run, FollowAdds, CountCalls, Inv;
    var hs, acts := Heard(es, pack), ActsOf(es, i);
    SubsArePublic(n, es, i);
    StateIsFirst(acts);
    if When.ValueOf(hs, i).Some? {
      var k := ValueIsHeard(hs, i);
      HeardTells(n, es, pack, k);
    }
    if CaughtUp(es, i) && Sub(es, i).state == Resolved {
      FollowsAtMostOnce(acts);
      HeardIsFollowed(n, es, pack, i);
      var k := SettlesSomewhere(hs, i);
      HeardTells(n, es, pack, k);
      HeardIsValue(hs, k, i);
    }
  }

  lemma StateIsFirst(acts: seq<Act>)
    requires AllFromUser(acts)
    ensures Deferred.Run(acts).state == match FirstSettlement(acts)
      case None => Pending
      case Some((state, _)) => state
    ensures FirstSettlement(acts).Some? ==> FirstSettlement(acts).value.0 != Pending
  {
    FirstSettlementDecides(acts);
  }

  /** Argument `i` has been rejected, and these are the arguments that the master's callbacks are then given. */
  ghost predicate RejectedWith(es: seq<Moment>, i: nat, pack: Args -> When.Value, reasons: Args) {
    && Sub(es, i).state == Rejected
    && match FirstSettlement(ActsOf(es, i))
       case None => false
       case Some((_, args)) => reasons == [pack(args)]
  }

  lemma FailureMeansRejected(n: nat, es: seq<Moment>, pack: Args -> When.Value)
    requires Public(n, es) && FollowedOnce(n, es)
    ensures When.FirstFailure(Heard(es, pack)).Some? ==>
      exists i: nat :: i < n && RejectedWith(es, i, pack, [When.FirstFailure(Heard(es, pack)).value])
    ensures (exists i: nat :: i < n && CaughtUp(es, i) && Sub(es, i).state == Rejected) ==>
      When.FirstFailure(Heard(es, pack)).Some?
  {
    hide React, Heard, Deferred.Run, FollowAdds, CountCalls, Inv;
    var hs := Heard(es, pack);
    if When.FirstFailure(hs).Some? {
      var k := FailureIsHeard(hs);
      HeardTells(n, es, pack, k);
      SubsArePublic(n, es, hs[k].i);
      StateIsFirst(ActsOf(es, hs[k].i));
      assert RejectedWith(es, hs[k].i, pack, [When.FirstFailure(hs).value]);
    }
    if i: nat :| i < n && CaughtUp(es, i) && Sub(es, i).state == Rejected {
      SubsArePublic(n, es, i);
      StateIsFirst(ActsOf(es, i));
      FollowsAtMostOnce(ActsOf(es, i));
      HeardIsFollowed(n, es, pack, i);
      var k := SettlesSomewhere(hs, i);
      HeardTells(n, es, pack, k);
      HeardIsFailure(hs, k);
    }
  }

  ghost predicate AllSubsResolved(n: nat, es: seq<Moment>) {
    forall i: nat | i < n :: Sub(es, i).state == Resolved
  }

  ghost predicate SomeSubRejected(n: nat, es: seq<Moment>) {
    exists i: nat :: i < n && Sub(es, i).state == Rejected
  }

  /**
    For two or more Deferreds and every order of calls to them and to the master's promise, also from inside their
    callbacks: what the master is told is true of the arguments, with their values in argument order or with the
    reason of one that was rejected; and once every argument has called what it has to call, the master is resolved
    iff all are, and rejected iff one is.
   */
  lemma MasterFollowsItsArguments(arguments: seq<When.Value>, es: seq<Moment>, pack: Args -> When.Value)
    requires |arguments| >= 2 && Public(|arguments|, es) && FollowedOnce(|arguments|, es)
    ensures When.Possible(|arguments|, Heard(es, pack))
    ensures var n, master := |arguments|, When.Master(When.Aggregated(arguments, Heard(es, pack)));
      && (master.state == Resolved ==> AllSubsResolved(n, es))
      && (master.state == Rejected ==> SomeSubRejected(n, es))
      && (forall c | c in master.done.calls ::
            |c.args| == n && forall i: nat | i < n :: ResolvedWith(es, i, pack, c.args[i]))
      && (forall c | c in master.fail.calls :: exists i: nat :: i < n && RejectedWith(es, i, pack, c.args))
      && ((forall i: nat | i < n :: CaughtUp(es, i)) ==>
            && (master.state == Resolved <==> AllSubsResolved(n, es))
            && (master.state == Rejected <==> SomeSubRejected(n, es)))
  {
    hide React, Heard, Deferred.Run, FollowAdds, CountCalls, When.Aggregated, CaughtUp, When.ValueOf, When.Possible;
    var n, hs := |arguments|, Heard(es, pack);
    ArgumentsSettleOnce(n, es, pack);
    When.MasterFollows(arguments, hs);
    forall i: nat | i < n
      ensures When.ValueOf(hs, i).Some? ==> ResolvedWith(es, i, pack, When.ValueOf(hs, i).value)
      ensures CaughtUp(es, i) && Sub(es, i).state == Resolved ==> When.ValueOf(hs, i).Some?
    {
      ValueMeansResolved(n, es, pack, i);
    }
    FailureMeansRejected(n, es, pack);
  }
}
