/**
  What a callback list calls, told by the calls made to it alone: which functions are removed in time, in which order
  queued notifications are delivered, and what the options `unique`, `memory` and `stopOnFalse` and the methods
  `remove` and `disable` mean over whole sequences of calls.
 */
module CallbackRuns {
  import opened Wrappers
  import opened Callbacks

  /** The state after more calls. */
  ghost function After(o: Options, s: State, events: seq<Event>): (r: State)
    requires Sound(s)
    ensures Sound(r)
  {
    if events == [] then s
    else
      var before := After(o, s, events[..|events| - 1]);
      NextIsSound(o, before, events[|events| - 1]);
      Next(o, before, events[|events| - 1])
  }

  lemma {:induction false} RunGoesOn(o: Options, events: seq<Event>, more: seq<Event>)
    ensures Run(o, events + more) == After(o, Run(o, events), more)
    decreases |more|
  {
    if more == [] {
      assert events + more == events;
    } else {
      assert (events + more)[..|events + more| - 1] == events + more[..|more| - 1];
      RunGoesOn(o, events, more[..|more| - 1]);
    }
  }

  /** Only what is on the list is called, and the list loses nothing but everything. */
  lemma {:induction false} ResumeCallsEntries(o: Options, s: State)
    requires -1 <= s.firingIndex && (s.list.Some? && s.firingIndex + 1 < |Items(s)| ==> s.memory.Some?)
    ensures var r := Resume(o, s);
      && (Items(r) == Items(s) || Items(r) == [])
      && (r.calls == s.calls
          || (|r.calls| == |s.calls| + 1 && s.calls <= r.calls && r.calls[|s.calls|].who in Items(s)))
    decreases |s.queue|
  {
    if s.firingIndex + 1 >= |Items(s)| && s.queue != [] {
      ResumeCallsEntries(o, s.(firingIndex := -1, memory := Some(s.queue[0]), queue := s.queue[1..]));
    }
  }

  // ---------------------------------------------------------------------------------------------
  // remove

  /** The entries of other functions. */
  function Others(items: seq<Occurrence>, fns: seq<Fn>): seq<Occurrence> {
    if items == [] then []
    else Others(items[..|items| - 1], fns) + if items[|items| - 1].fn in fns then [] else [items[|items| - 1]]
  }

  lemma {:induction false} OthersOfConcat(x: seq<Occurrence>, y: seq<Occurrence>, fns: seq<Fn>)
    ensures Others(x + y, fns) == Others(x, fns) + Others(y, fns)
    decreases |y|
  {
    if y == [] {
      assert x + y == x;
    } else {
      assert (x + y)[..|x + y| - 1] == x + y[..|y| - 1];
      OthersOfConcat(x, y[..|y| - 1], fns);
    }
  }

  lemma {:induction false} OthersOneMore(items: seq<Occurrence>, fns: seq<Fn>)
    requires fns != []
    ensures Without(Others(items, fns[..|fns| - 1]), fns[|fns| - 1]) == Others(items, fns)
  {
    if items != [] {
      var last, init := items[|items| - 1], Others(items[..|items| - 1], fns[..|fns| - 1]);
      OthersOneMore(items[..|items| - 1], fns);
      assert last.fn in fns <==> last.fn in fns[..|fns| - 1] || last.fn == fns[|fns| - 1];
      assert (init + [last])[..|init|] == init && init + [] == init;
    }
  }

  lemma {:induction false} OthersOfNone(items: seq<Occurrence>)
    ensures Others(items, []) == items
  {
    if items != [] {
      OthersOfNone(items[..|items| - 1]);
    }
  }

  lemma {:induction false} OthersHaveNone(items: seq<Occurrence>, fns: seq<Fn>)
    ensures forall e | e in Others(items, fns) :: e in items && e.fn !in fns
    ensures forall e | e in items && e.fn !in fns :: e in Others(items, fns)
  {
    if items != [] {
      OthersHaveNone(items[..|items| - 1], fns);
      assert items == items[..|items| - 1] + [items[|items| - 1]];
    }
  }

  /**
    Whatever the options, and also while the list is firing: after `remove` the list, and what waits for its turn, are
    the entries of the other functions in their order, and nothing else has changed.
   */
  lemma {:induction false} RemoveTakesOut(s: State, fns: seq<Fn>)
    requires Sound(s)
    ensures var r := RemoveFrom(s, fns);
      && r == s.(list := r.list, firingIndex := r.firingIndex, skipped := r.skipped)
      && (r.list.Some? <==> s.list.Some?)
      && Items(r) == Others(Items(s), fns)
      && Waiting(Items(r), r.firingIndex) == Others(Waiting(Items(s), s.firingIndex), fns)
  {
    if fns == [] {
      OthersOfNone(Items(s));
      OthersOfNone(Waiting(Items(s), s.firingIndex));
    } else {
      var fn, before := fns[|fns| - 1], RemoveFrom(s, fns[..|fns| - 1]);
      RemoveTakesOut(s, fns[..|fns| - 1]);
      RemoveFromIsSound(s, fns[..|fns| - 1]);
      OneTakenOut(before, fn);
      OthersOneMore(Items(s), fns);
      OthersOneMore(Waiting(Items(s), s.firingIndex), fns);
    }
  }

  lemma OneTakenOut(s: State, fn: Fn)
    requires Sound(s)
    ensures var r := RemoveOne(s, fn);
      && r == s.(list := r.list, firingIndex := r.firingIndex, skipped := r.skipped)
      && (r.list.Some? <==> s.list.Some?)
      && Items(r) == Without(Items(s), fn)
      && Waiting(Items(r), r.firingIndex) == Without(Waiting(Items(s), s.firingIndex), fn)
  {
    hide Without, IdsOf;
    assert Without([], fn) == [] by {
      WithoutNothing([], fn);
    }
    if s.list.Some? {
      var items := s.list.value;
      var done, waiting := Done(items, s.firingIndex), Waiting(items, s.firingIndex);
      assert items == done + waiting;
      WithoutConcat(done, waiting, fn);
      WithoutIsShorter(done, fn);
      assert (Without(done, fn) + Without(waiting, fn))[|Without(done, fn)|..] == Without(waiting, fn);
    }
  }

  ghost predicate HasNone(s: State, fn: Fn) {
    forall e | e in Items(s) :: e.fn != fn
  }

  predicate Adds(e: Event, fn: Fn) {
    e.Add? && fn in e.fns
  }

  /** From here on the function has not been called. */
  ghost predicate NoneSince(before: seq<Call>, after: seq<Call>, fn: Fn) {
    before <= after && forall k | |before| <= k < |after| :: after[k].who.fn != fn
  }

  lemma {:induction false} PushedFnsOnly(o: Options, s: State, fns: seq<Fn>, fn: Fn)
    requires HasNone(s, fn) && fn !in fns
    ensures HasNone(PushAll(o, s, fns), fn)
  {
    if fns != [] {
      assert fn !in fns[..|fns| - 1];
      PushedFnsOnly(o, s, fns[..|fns| - 1], fn);
    }
  }

  lemma ResumeCallsOthers(o: Options, s: State, fn: Fn)
    requires -1 <= s.firingIndex && (s.list.Some? && s.firingIndex + 1 < |Items(s)| ==> s.memory.Some?)
    requires HasNone(s, fn)
    ensures HasNone(Resume(o, s), fn) && NoneSince(s.calls, Resume(o, s).calls, fn)
  {
    ResumeCallsEntries(o, s);
  }

  lemma NextCallsOthers(o: Options, s: State, e: Event, fn: Fn)
    requires Sound(s) && HasNone(s, fn) && !Adds(e, fn)
    ensures HasNone(Next(o, s, e), fn) && NoneSince(s.calls, Next(o, s, e).calls, fn)
  {
    hide Resume, PushAll, RemoveFrom;
    match e
    case Add(fns) =>
      PushedFnsOnly(o, s, fns, fn);
      PushAllKeepsRest(o, s, fns);
      if s.list.Some? && s.memory.Some? && !s.firing {
        PushAllKeepsRest(o, Armed(s), fns);
        PushedFnsOnly(o, Armed(s), fns, fn);
        ResumeCallsOthers(o, Started(o, PushAll(o, Armed(s), fns)), fn);
      }
    case Remove(fns) =>
      RemoveTakesOut(s, fns);
      OthersHaveNone(Items(s), fns);
    case FireWith(args) =>
      if !s.locked && !s.firing {
        ResumeCallsOthers(o, Started(o, s.(queue := s.queue + [args])), fn);
      }
    case Return(isFalse) =>
      if s.firing {
        ResumeCallsOthers(o, if isFalse && o.stopOnFalse then s.(firingIndex := |Items(s)|, memory := None) else s, fn);
      }
    case _ =>
  }

  lemma {:induction false} NotCalledUntilAdded(o: Options, s: State, events: seq<Event>, fn: Fn)
    requires Sound(s) && HasNone(s, fn) && forall e | e in events :: !Adds(e, fn)
    ensures HasNone(After(o, s, events), fn) && NoneSince(s.calls, After(o, s, events).calls, fn)
  {
    if events != [] {
      hide Next;
      var init := events[..|events| - 1];
      NotCalledUntilAdded(o, s, init, fn);
      NextCallsOthers(o, After(o, s, init), events[|events| - 1], fn);
    }
  }

  /**
    In every sequence of calls, whatever the options: once a function has been removed it is not called, until it is
    added again.
   */
  lemma RemovedIsNotCalled(o: Options, events: seq<Event>, fns: seq<Fn>, more: seq<Event>, fn: Fn)
    requires fn in fns && forall e | e in more :: !Adds(e, fn)
    ensures NoneSince(Run(o, events).calls, Run(o, events + [Remove(fns)] + more).calls, fn)
  {
    hide Next;
    var s := Run(o, events);
    RunGoesOn(o, events + [Remove(fns)], more);
    assert (events + [Remove(fns)])[..|events|] == events;
    NextIsSound(o, s, Remove(fns));
    RemovedIsOff(o, s, fns, fn);
    NotCalledUntilAdded(o, Run(o, events + [Remove(fns)]), more, fn);
  }

  lemma RemovedIsOff(o: Options, s: State, fns: seq<Fn>, fn: Fn)
    requires Sound(s) && fn in fns
    ensures HasNone(Next(o, s, Remove(fns)), fn) && Next(o, s, Remove(fns)).calls == s.calls
  {
    RemoveTakesOut(s, fns);
    OthersHaveNone(Items(s), fns);
  }

  // ---------------------------------------------------------------------------------------------
  // "once memory" by its history of calls

  ghost predicate WasCalled(calls: seq<Call>, id: nat) {
    exists k :: 0 <= k < |calls| && calls[k].who.id == id
  }

  /** At this call the entry was on the list, had not been called, and was removed. */
  ghost predicate RemovedAt(events: seq<Event>, j: nat, id: nat) {
    && j < |events| && events[j].Remove?
    && var s := Run(ONCE_MEMORY, events[..j]);
      id < |s.added| && s.added[id].fn in events[j].fns && !WasCalled(s.calls, id)
  }

  ghost predicate RemovedInTime(events: seq<Event>, id: nat) {
    exists j: nat :: RemovedAt(events, j, id)
  }

  lemma {:induction false} KeptAreAdded(added: seq<Occurrence>, skipped: set<nat>)
    requires forall i | 0 <= i < |added| :: added[i].id == i
    ensures forall e | e in Kept(added, skipped) :: e.id < |added| && e == added[e.id] && e.id !in skipped
    ensures forall id: nat | id < |added| && id !in skipped :: added[id] in Kept(added, skipped)
  {
    if added != [] {
      var last := |added| - 1;
      KeptAreAdded(added[..last], skipped);
      forall id: nat | id < |added| && id !in skipped ensures added[id] in Kept(added, skipped) {
        if id < last {
          assert added[..last][id] in Kept(added[..last], skipped);
        }
      }
    }
  }

  /** What still waits is what has been added and neither called nor removed. */
  lemma WaitingAreTheRest(s: State, first: Option<Args>, id: nat)
    requires Ordered(s, first) && id < |s.added|
    ensures s.added[id] in Waiting(Items(s), s.firingIndex) <==> id !in s.skipped && !WasCalled(s.calls, id)
  {
    var calls, waiting := Called(s.calls), Waiting(Items(s), s.firingIndex);
    var kept := Kept(s.added, s.skipped);
    KeptAreAdded(s.added, s.skipped);
    KeptIncreases(s.added, s.skipped);
    assert kept == calls + waiting;
    forall e | e in waiting ensures e in kept {
    }
    if s.added[id] in waiting {
      var i :| 0 <= i < |waiting| && waiting[i] == s.added[id];
      assert kept[|calls| + i] == s.added[id];
      forall k | 0 <= k < |s.calls| ensures s.calls[k].who.id != id {
        assert kept[k] == calls[k];
      }
    } else if id !in s.skipped {
      var i :| 0 <= i < |kept| && kept[i] == s.added[id];
      assert i < |calls| && s.calls[i].who.id == id;
    }
  }

  lemma {:induction false} RemoveSkips(s: State, fns: seq<Fn>, first: Option<Args>, id: nat)
    requires Ordered(s, first)
    ensures var r := RemoveFrom(s, fns);
      && r.added == s.added && r.calls == s.calls
      && (id in r.skipped <==>
            id in s.skipped || (id < |s.added| && s.added[id].fn in fns && !WasCalled(s.calls, id)))
  {
    if fns != [] {
      hide RemoveOne, Ordered, WasCalled;
      var before, fn := RemoveFrom(s, fns[..|fns| - 1]), fns[|fns| - 1];
      RemoveSkips(s, fns[..|fns| - 1], first, id);
      RemoveFromStaysOrdered(s, fns[..|fns| - 1], first);
      RemoveOneSkips(before, fn, first, id);
      assert id < |s.added| ==> (s.added[id].fn in fns <==> s.added[id].fn in fns[..|fns| - 1] || s.added[id].fn == fn);
    }
  }

  lemma RemoveOneSkips(s: State, fn: Fn, first: Option<Args>, id: nat)
    requires Ordered(s, first)
    ensures var r := RemoveOne(s, fn);
      && r.added == s.added && r.calls == s.calls
      && (id in r.skipped <==>
            id in s.skipped || (id < |s.added| && s.added[id].fn == fn && !WasCalled(s.calls, id)))
  {
    hide WasCalled, Kept, Called;
    var waiting := Waiting(Items(s), s.firingIndex);
    WaitingAreAdded(s, first);
    if id < |s.added| {
      WaitingAreTheRest(s, first, id);
      assert id in IdsOf(waiting, fn) <==> s.added[id] in waiting && s.added[id].fn == fn;
    }
  }

  lemma WaitingAreAdded(s: State, first: Option<Args>)
    requires Ordered(s, first)
    ensures forall e | e in Waiting(Items(s), s.firingIndex) :: e.id < |s.added| && e == s.added[e.id]
  {
    var calls, waiting := Called(s.calls), Waiting(Items(s), s.firingIndex);
    KeptAreAdded(s.added, s.skipped);
    forall e | e in waiting ensures e in calls + waiting {
    }
  }

  /** In every ordinary sequence of calls, what the list skips is what was removed before it was called. */
  lemma {:induction false} SkippedWereRemoved(events: seq<Event>, id: nat)
    requires forall e | e in events :: Ordinary(e)
    ensures id in Run(ONCE_MEMORY, events).skipped <==> RemovedInTime(events, id)
  {
    if events != [] {
      var last := |events| - 1;
      var before, e := Run(ONCE_MEMORY, events[..last]), events[last];
      SkippedWereRemoved(events[..last], id);
      ExactlyOnceInOrder(events[..last]);
      EarlierRemovals(events, id);
      match e
      case Remove(fns) => RemoveSkips(before, fns, FirstFire(events[..last]), id);
      case _ => SkipsNothing(before, e);
    }
  }

  lemma EarlierRemovals(events: seq<Event>, id: nat)
    requires events != []
    ensures RemovedInTime(events, id) <==>
      RemovedInTime(events[..|events| - 1], id) || RemovedAt(events, |events| - 1, id)
  {
    var last := |events| - 1;
    forall j: nat | j < last ensures RemovedAt(events, j, id) <==> RemovedAt(events[..last], j, id) {
      assert events[..last][..j] == events[..j];
    }
  }

  lemma SkipsNothing(s: State, e: Event)
    requires Sound(s) && Ordinary(e) && !e.Remove?
    ensures Next(ONCE_MEMORY, s, e).skipped == s.skipped
  {
    hide PushAll;
    match e
    case Add(fns) =>
      PushAllKeepsRest(ONCE_MEMORY, s, fns);
      if s.list.Some? && s.memory.Some? && !s.firing {
        PushAllKeepsRest(ONCE_MEMORY, Armed(s), fns);
        ResumeSkipsNothing(ONCE_MEMORY, Started(ONCE_MEMORY, PushAll(ONCE_MEMORY, Armed(s), fns)));
      }
    case FireWith(args) =>
      if !s.locked && !s.firing {
        ResumeSkipsNothing(ONCE_MEMORY, Started(ONCE_MEMORY, s.(queue := s.queue + [args])));
      }
    case Return(_) =>
      if s.firing {
        ResumeSkipsNothing(ONCE_MEMORY, s);
      }
  }

  lemma {:induction false} ResumeSkipsNothing(o: Options, s: State)
    requires -1 <= s.firingIndex && (s.list.Some? && s.firingIndex + 1 < |Items(s)| ==> s.memory.Some?)
    ensures Resume(o, s).skipped == s.skipped
    decreases |s.queue|
  {
    if s.firingIndex + 1 >= |Items(s)| && s.queue != [] {
      ResumeSkipsNothing(o, s.(firingIndex := -1, memory := Some(s.queue[0]), queue := s.queue[1..]));
    }
  }

  /**
    In every ordinary sequence of calls to a "once memory" list that has fired and is idle, an entry has been called iff
    it was not removed before it was called.
   */
  lemma CalledIffNotRemoved(events: seq<Event>, id: nat)
    requires forall e | e in events :: Ordinary(e)
    requires var s := Run(ONCE_MEMORY, events); id < |s.added| && s.fired && !s.firing
    ensures WasCalled(Run(ONCE_MEMORY, events).calls, id) <==> !RemovedInTime(events, id)
  {
    var s := Run(ONCE_MEMORY, events);
    ExactlyOnceInOrder(events);
    SkippedWereRemoved(events, id);
    WaitingAreTheRest(s, FirstFire(events), id);
    assert Waiting(Items(s), s.firingIndex) == [];
    if WasCalled(s.calls, id) {
      var k :| 0 <= k < |s.calls| && s.calls[k].who.id == id;
      KeptAreAdded(s.added, s.skipped);
      assert Called(s.calls)[k] in Kept(s.added, s.skipped);
    }
  }

  function FnsOf(items: seq<Occurrence>): (fns: seq<Fn>)
    ensures |fns| == |items| && forall i | 0 <= i < |items| :: fns[i] == items[i].fn
  {
    seq(|items|, i requires 0 <= i < |items| => items[i].fn)
  }

  /** All functions given to `add`, in order. */
  function AllAdded(events: seq<Event>): seq<Fn> {
    if events == [] then []
    else
      var last := events[|events| - 1];
      AllAdded(events[..|events| - 1]) + if last.Add? then last.fns else []
  }

  lemma {:induction false} PushedAreGiven(o: Options, s: State, fns: seq<Fn>)
    requires !o.unique && s.list.Some?
    ensures var r := PushAll(o, s, fns);
      r.list.Some? && FnsOf(r.added) == FnsOf(s.added) + fns && FnsOf(Items(r)) == FnsOf(Items(s)) + fns
  {
    if fns == [] {
      assert FnsOf(s.added) + fns == FnsOf(s.added) && FnsOf(Items(s)) + fns == FnsOf(Items(s));
    } else {
      PushedAreGiven(o, s, fns[..|fns| - 1]);
      assert fns == fns[..|fns| - 1] + [fns[|fns| - 1]];
    }
  }

  /** The entries of a "once memory" list are the functions given to `add`, in order. */
  lemma {:induction false} AddedAsGiven(events: seq<Event>)
    requires forall e | e in events :: Ordinary(e)
    ensures FnsOf(Run(ONCE_MEMORY, events).added) == AllAdded(events)
  {
    if events != [] {
      var init, e := events[..|events| - 1], events[|events| - 1];
      AddedAsGiven(init);
      ExactlyOnceInOrder(init);
      NextAddsGiven(ONCE_MEMORY, Run(ONCE_MEMORY, init), e);
      assert AllAdded(init) + [] == AllAdded(init);
    }
  }

  lemma NextAddsGiven(o: Options, s: State, e: Event)
    requires Sound(s) && !o.unique
    ensures FnsOf(Next(o, s, e).added) == FnsOf(s.added) + if e.Add? && s.list.Some? then e.fns else []
  {
    hide Resume, PushAll;
    assert FnsOf(s.added) + [] == FnsOf(s.added);
    match e
    case Add(fns) =>
      if s.list.Some? && s.memory.Some? && !s.firing {
        PushedAreGiven(o, Armed(s), fns);
        PushAllKeepsRest(o, Armed(s), fns);
        NoEntriesWhileFiring(o, PushAll(o, Armed(s), fns));
      } else if s.list.Some? {
        PushedAreGiven(o, s, fns);
      }
    case Remove(fns) => RemoveTakesOut(s, fns);
    case FireWith(args) =>
      if !s.locked && !s.firing {
        NoEntriesWhileFiring(o, s.(queue := s.queue + [args]));
      }
    case Return(isFalse) =>
      if s.firing {
        var stopped := s.(firingIndex := |Items(s)|, memory := None);
        NoEntriesWhileResuming(o, if isFalse && o.stopOnFalse then stopped else s);
      }
    case _ =>
  }

  // ---------------------------------------------------------------------------------------------
  // Queued notifications

  /** One round: every entry is called, with the same arguments. */
  function Round(items: seq<Occurrence>, args: Args): (calls: seq<Call>)
    ensures |calls| == |items| && forall i | 0 <= i < |items| :: calls[i] == Call(items[i], args)
  {
    seq(|items|, i requires 0 <= i < |items| => Call(items[i], args))
  }

  function Rounds(items: seq<Occurrence>, fires: seq<Args>): seq<Call> {
    if fires == [] then [] else Rounds(items, fires[..|fires| - 1]) + Round(items, fires[|fires| - 1])
  }

  function FiresIn(events: seq<Event>): seq<Args> {
    if events == [] then []
    else
      var last := events[|events| - 1];
      FiresIn(events[..|events| - 1]) + if last.FireWith? then [last.args] else []
  }

  /** The list only fires and its callbacks return, none of them ending the round. */
  predicate Delivers(o: Options, e: Event) {
    e.FireWith? || (e.Return? && !(e.isFalse && o.stopOnFalse))
  }

  /** The round of the `m`-th notification has come to entry `k`; later ones are in the queue. */
  ghost predicate AtEntry(s: State, items: seq<Occurrence>, before: seq<Call>, fires: seq<Args>, m: int, k: int) {
    && 0 < m <= |fires| && -1 <= k < |items|
    && s.firing && s.firingIndex == k && s.memory == Some(fires[m - 1]) && s.queue == fires[m..]
    && s.calls == before + Rounds(items, fires[..m - 1]) + Round(items, fires[m - 1])[..k + 1]
  }

  /** Every notification made so far has had its round, up to the entry that is running. */
  ghost predicate Delivered(s: State, items: seq<Occurrence>, before: seq<Call>, fires: seq<Args>) {
    && s.list == Some(items) && !s.locked
    && if s.firing then AtEntry(s, items, before, fires, |fires| - |s.queue|, s.firingIndex) && s.firingIndex >= 0
       else s.calls == before + Rounds(items, fires) && s.queue == [] && s.firingIndex == -1
  }

  lemma {:induction false} ResumeDelivers(o: Options, s: State, items: seq<Occurrence>, before: seq<Call>,
                                          fires: seq<Args>, m: nat, k: int)
    requires s.list == Some(items) && !s.locked && AtEntry(s, items, before, fires, m, k)
    ensures Delivered(Resume(o, s), items, before, fires)
    decreases |s.queue|
  {
    var round := Round(items, fires[m - 1]);
    if k + 1 < |items| {
      assert round[..k + 2] == round[..k + 1] + [round[k + 1]];
      assert before + Rounds(items, fires[..m - 1]) + round[..k + 1] + [round[k + 1]]
        == before + Rounds(items, fires[..m - 1]) + round[..k + 2];
    } else {
      assert round[..k + 1] == round;
      assert fires[..m][..m - 1] == fires[..m - 1];
      assert s.calls == before + Rounds(items, fires[..m]);
      if s.queue != [] {
        NextRound(s, items, before, fires, m);
        ResumeDelivers(o, s.(firingIndex := -1, memory := Some(s.queue[0]), queue := s.queue[1..]), items, before,
                       fires, m + 1, -1);
      } else {
        assert fires[..m] == fires;
      }
    }
  }

  lemma NextRound(s: State, items: seq<Occurrence>, before: seq<Call>, fires: seq<Args>, m: nat)
    requires 0 < m < |fires| && s.firing && s.queue == fires[m..] && s.calls == before + Rounds(items, fires[..m])
    ensures AtEntry(s.(firingIndex := -1, memory := Some(s.queue[0]), queue := s.queue[1..]), items, before,
                    fires, m + 1, -1)
  {
    var round := Round(items, fires[m]);
    assert round[..0] == [] && s.calls + [] == s.calls && fires[m..][1..] == fires[m + 1..];
  }

  lemma NextDelivers(o: Options, s: State, e: Event, items: seq<Occurrence>, before: seq<Call>, fires: seq<Args>)
    requires Sound(s) && !o.once && Delivers(o, e) && Delivered(s, items, before, fires)
    ensures Delivered(Next(o, s, e), items, before, fires + if e.FireWith? then [e.args] else [])
  {
    match e
    case FireWith(args) =>
      if s.firing {
        MoreInQueue(s, items, before, fires, args);
      } else {
        FirstInQueue(o, s, items, before, fires, args);
        ResumeDelivers(o, Started(o, s.(queue := s.queue + [args])), items, before, fires + [args], |fires| + 1, -1);
      }
    case Return(_) =>
      assert fires + [] == fires;
      if s.firing {
        ResumeDelivers(o, s, items, before, fires, |fires| - |s.queue|, s.firingIndex);
      }
  }

  lemma FirstInQueue(o: Options, s: State, items: seq<Occurrence>, before: seq<Call>, fires: seq<Args>, args: Args)
    requires !s.firing && !o.once && Delivered(s, items, before, fires)
    ensures var started := Started(o, s.(queue := s.queue + [args]));
      started.list == Some(items) && !started.locked
      && AtEntry(started, items, before, fires + [args], |fires| + 1, -1)
  {
    var more := fires + [args];
    assert more[..|fires|] == fires && more[|fires| + 1..] == [] && [args][1..] == [] && [] + [args] == [args];
    assert Round(items, args)[..0] == [] && s.calls + [] == s.calls;
  }

  lemma MoreInQueue(s: State, items: seq<Occurrence>, before: seq<Call>, fires: seq<Args>, args: Args)
    requires s.firing && Delivered(s, items, before, fires)
    ensures Delivered(s.(queue := s.queue + [args]), items, before, fires + [args])
  {
    var m, more := |fires| - |s.queue|, fires + [args];
    assert more[..m - 1] == fires[..m - 1] && more[m..] == fires[m..] + [args];
  }

  /**
    A list that is not "once", from any state in which it is idle and not locked: whenever `fire` is called, also by its
    own callbacks, every entry is called with every notification, entry by entry and in the order in which the
    notifications were made.
   */
  lemma {:induction false} EveryoneHearsEverything(o: Options, s: State, events: seq<Event>)
    requires Sound(s) && s.list.Some? && !s.firing && !s.locked && !o.once
    requires forall e | e in events :: Delivers(o, e)
    ensures Delivered(After(o, s, events), s.list.value, s.calls, FiresIn(events))
  {
    if events == [] {
      assert s.calls + [] == s.calls;
    } else {
      var init := events[..|events| - 1];
      EveryoneHearsEverything(o, s, init);
      NextDelivers(o, After(o, s, init), events[|events| - 1], s.list.value, s.calls, FiresIn(init));
    }
  }

  // ---------------------------------------------------------------------------------------------
  // The other options, and disable

  ghost predicate AllDifferent(items: seq<Occurrence>) {
    forall i, j | 0 <= i < j < |items| :: items[i].fn != items[j].fn
  }

  lemma {:induction false} OthersStayDifferent(items: seq<Occurrence>, fns: seq<Fn>)
    requires AllDifferent(items)
    ensures AllDifferent(Others(items, fns))
  {
    if items != [] {
      var init, last := items[..|items| - 1], items[|items| - 1];
      OthersStayDifferent(init, fns);
      OthersHaveNone(init, fns);
      forall i | 0 <= i < |Others(init, fns)| ensures Others(init, fns)[i].fn != last.fn {
        assert Others(init, fns)[i] in init;
      }
    }
  }

  lemma {:induction false} PushedStayDifferent(o: Options, s: State, fns: seq<Fn>)
    requires o.unique && AllDifferent(Items(s))
    ensures AllDifferent(Items(PushAll(o, s, fns)))
  {
    if fns != [] {
      PushedStayDifferent(o, s, fns[..|fns| - 1]);
    }
  }

  /** A "unique" list never holds a function twice. */
  lemma {:induction false} UniqueStaysUnique(o: Options, events: seq<Event>)
    requires o.unique
    ensures AllDifferent(Items(Run(o, events)))
  {
    if events != [] {
      UniqueStaysUnique(o, events[..|events| - 1]);
      NextStaysUnique(o, Run(o, events[..|events| - 1]), events[|events| - 1]);
    }
  }

  lemma NextStaysUnique(o: Options, s: State, e: Event)
    requires Sound(s) && o.unique && AllDifferent(Items(s))
    ensures AllDifferent(Items(Next(o, s, e)))
  {
    hide Resume, PushAll, RemoveFrom;
    match e
    case Add(fns) =>
      PushedStayDifferent(o, s, fns);
      PushAllKeepsRest(o, s, fns);
      if s.list.Some? && s.memory.Some? && !s.firing {
        PushAllKeepsRest(o, Armed(s), fns);
        PushedStayDifferent(o, Armed(s), fns);
        ResumeCallsEntries(o, Started(o, PushAll(o, Armed(s), fns)));
      }
    case Remove(fns) =>
      RemoveTakesOut(s, fns);
      OthersStayDifferent(Items(s), fns);
    case FireWith(args) =>
      if !s.locked && !s.firing {
        ResumeCallsEntries(o, Started(o, s.(queue := s.queue + [args])));
      }
    case Return(isFalse) =>
      if s.firing {
        ResumeCallsEntries(o, if isFalse && o.stopOnFalse then s.(firingIndex := |Items(s)|, memory := None) else s);
      }
    case _ =>
  }

  /** Adding puts every function on the list behind what is there: all of them in order, or the ones it has not got. */
  lemma {:induction false} AddPutsAll(o: Options, s: State, fns: seq<Fn>)
    requires s.list.Some?
    ensures var items := Items(PushAll(o, s, fns));
      && Items(s) <= items && (forall fn | fn in fns :: Has(items, fn))
      && (forall i | |Items(s)| <= i < |items| :: items[i].fn in fns)
      && (!o.unique ==> FnsOf(items) == FnsOf(Items(s)) + fns)
  {
    if !o.unique {
      PushedAreGiven(o, s, fns);
    }
    if fns != [] {
      AddPutsAll(o, s, fns[..|fns| - 1]);
      PushAllKeepsRest(o, s, fns[..|fns| - 1]);
      OneMorePut(o, PushAll(o, s, fns[..|fns| - 1]), fns);
    }
  }

  /** An idle list that remembers its last notification calls the new entries with it at once, and no others. */
  lemma LateAddCallsTheNew(o: Options, s: State, fns: seq<Fn>)
    requires Sound(s) && s.list.Some? && s.memory.Some? && !s.firing
    ensures Items(s) <= Items(PushAll(o, s, fns))
    ensures var r, news := Next(o, s, Add(fns)), Items(PushAll(o, s, fns))[|Items(s)|..];
      && r.firing == (news != [])
      && r.calls == s.calls + (if news == [] then [] else [Call(news[0], s.memory.value)])
      && (news != [] ==> Waiting(Items(r), r.firingIndex) == news[1..])
  {
    hide PushAll;
    AddPutsAll(o, s, fns);
    PushedAlike(o, s, fns);
    PushAllKeepsRest(o, Armed(s), fns);
    assert [s.memory.value][1..] == [] && [] + [s.memory.value] == [s.memory.value];
  }

  /** What adding puts on a list does not depend on its queue. */
  lemma {:induction false} PushedAlike(o: Options, s: State, fns: seq<Fn>)
    requires s.list.Some? && s.memory.Some?
    ensures var p, q := PushAll(o, s, fns), PushAll(o, Armed(s), fns); q.list == p.list && q.added == p.added
  {
    if fns != [] {
      PushedAlike(o, s, fns[..|fns| - 1]);
    }
  }

  lemma OneMorePut(o: Options, s: State, fns: seq<Fn>)
    requires s.list.Some? && fns != [] && forall fn | fn in fns[..|fns| - 1] :: Has(Items(s), fn)
    ensures var items := Items(Push(o, s, fns[|fns| - 1]));
      && Items(s) <= items <= Items(s) + [Occurrence(fns[|fns| - 1], |s.added|)]
      && forall fn | fn in fns :: Has(items, fn)
  {
    var items := Items(Push(o, s, fns[|fns| - 1]));
    assert fns == fns[..|fns| - 1] + [fns[|fns| - 1]];
    assert Has(items, fns[|fns| - 1]) by {
      if items != Items(s) {
        assert items[|items| - 1].fn == fns[|fns| - 1];
      }
    }
    forall fn | fn in fns ensures Has(items, fn) {
      if fn in fns[..|fns| - 1] {
        assert Has(Items(s), fn);
        var i :| 0 <= i < |Items(s)| && Items(s)[i].fn == fn;
        assert items[i].fn == fn;
      }
    }
  }

  /** Without "memory" an idle list remembers no arguments, so that adding to it calls nothing. */
  lemma {:induction false} NoMemoryIsKept(o: Options, events: seq<Event>)
    requires !o.memory
    ensures !Run(o, events).firing ==> Run(o, events).memory == None
  {
    if events != [] {
      NoMemoryIsKept(o, events[..|events| - 1]);
      NextForgets(o, Run(o, events[..|events| - 1]), events[|events| - 1]);
    }
  }

  lemma NextForgets(o: Options, s: State, e: Event)
    requires Sound(s) && !o.memory && (!s.firing ==> s.memory == None)
    ensures !Next(o, s, e).firing ==> Next(o, s, e).memory == None
    ensures e.Add? && !s.firing ==> Next(o, s, e).calls == s.calls
  {
    hide PushAll, RemoveFrom;
    match e
    case Add(fns) => PushAllKeepsRest(o, s, fns);
    case Remove(fns) => RemoveTakesOut(s, fns);
    case FireWith(args) =>
      if !s.locked && !s.firing {
        ResumeForgets(o, Started(o, s.(queue := s.queue + [args])));
      }
    case Return(isFalse) =>
      if s.firing {
        ResumeForgets(o, if isFalse && o.stopOnFalse then s.(firingIndex := |Items(s)|, memory := None) else s);
      }
    case _ =>
  }

  lemma {:induction false} ResumeForgets(o: Options, s: State)
    requires -1 <= s.firingIndex && (s.list.Some? && s.firingIndex + 1 < |Items(s)| ==> s.memory.Some?)
    requires !o.memory && s.firing
    ensures Resume(o, s).firing || Resume(o, s).memory == None
    decreases |s.queue|
  {
    if s.firingIndex + 1 >= |Items(s)| && s.queue != [] {
      ResumeForgets(o, s.(firingIndex := -1, memory := Some(s.queue[0]), queue := s.queue[1..]));
    }
  }

  /** A callback that returns false ends its round iff the list is "stopOnFalse"; the arguments are then forgotten. */
  lemma FalseEndsTheRound(o: Options, s: State)
    requires Sound(s) && s.firing && s.queue == [] && s.firingIndex + 1 < |Items(s)|
    ensures var r := Next(o, s, Return(true));
      if o.stopOnFalse then !r.firing && r.calls == s.calls && r.memory == None
      else r.firing && r.calls == s.calls + [Call(Items(s)[s.firingIndex + 1], s.memory.value)]
  {
  }

  /** After `disable` the list calls nothing any more, whatever is called on it. */
  lemma {:induction false} DisabledForGood(o: Options, s: State, events: seq<Event>)
    requires Sound(s)
    ensures Sound(Next(o, s, Disable))
    ensures var r := After(o, Next(o, s, Disable), events);
      r.list == None && r.locked && r.queue == [] && r.memory == None && r.calls == s.calls
  {
    NextIsSound(o, s, Disable);
    if events != [] {
      var r := After(o, Next(o, s, Disable), events[..|events| - 1]);
      DisabledForGood(o, s, events[..|events| - 1]);
      match events[|events| - 1]
      case Add(fns) => PushAllKeepsRest(o, r, fns);
      case Remove(fns) => RemoveTakesOut(r, fns);
      case _ =>
    }
  }
}
