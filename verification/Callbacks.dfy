/**
  jQuery.Callbacks: a callback list whose callbacks may add to, remove from and fire the list that is
  running them. `Next` gives the state after each call made to the list; between two calls a callback may
  be running, and `Return` is the moment it returns. The class is the list itself; the lemmas follow all
  sequences of calls.
 */
module Callbacks {
  import opened Wrappers

  type Fn = nat
  /** The arguments of one call. */
  type Args = seq<nat>

  datatype Options = Options(once: bool, memory: bool, unique: bool, stopOnFalse: bool)

  /** One entry of the list; `id` tells apart the entries of a function that was added more than once. */
  datatype Occurrence = Occurrence(fn: Fn, id: nat)

  datatype Call = Call(who: Occurrence, args: Args)

  /** The variables of a list, then its history: all entries ever made, those removed before their turn, all calls. */
  datatype State = State(
    firing: bool, memory: Option<Args>, fired: bool, locked: bool,
    list: Option<seq<Occurrence>>, queue: seq<Args>, firingIndex: int,
    added: seq<Occurrence>, skipped: set<nat>, calls: seq<Call>)

  datatype Event =
    | Add(fns: seq<Fn>)
    | Remove(fns: seq<Fn>)
    | Empty
    | Disable
    | Lock
    | FireWith(args: Args)
    | Return(isFalse: bool)

  const INITIAL := State(false, None, false, false, Some([]), [], -1, [], {}, [])

  function Items(s: State): seq<Occurrence> {
    if s.list.Some? then s.list.value else []
  }

  /** What holds between any two calls, whatever the options. */
  ghost predicate Sound(s: State) {
    && -1 <= s.firingIndex
    && (!s.firing ==> s.queue == [] && s.firingIndex == -1)
    && (s.firing && s.list.Some? ==> s.memory.Some?)
    && (forall i | 0 <= i < |s.added| :: s.added[i].id == i)
  }

  // ---------------------------------------------------------------------------------------------
  // The firing loop

  /** After the loop: forget what is not needed any more. */
  function Finish(o: Options, s: State): State {
    var memory := if o.memory then s.memory else None;
    s.(memory := memory, firing := false,
       list := if !s.locked then s.list else if memory.Some? then Some([]) else None)
  }

  /** From a finished callback (or the start) to the next callback, or to the end of the loop. */
  function Resume(o: Options, s: State): State
    requires -1 <= s.firingIndex && (s.list.Some? && s.firingIndex + 1 < |Items(s)| ==> s.memory.Some?)
    decreases |s.queue|
  {
    if s.firingIndex + 1 < |Items(s)| then
      s.(firingIndex := s.firingIndex + 1, calls := s.calls + [Call(Items(s)[s.firingIndex + 1], s.memory.value)])
    else if s.queue != [] then
      Resume(o, s.(firingIndex := -1, memory := Some(s.queue[0]), queue := s.queue[1..]))
    else
      Finish(o, s.(firingIndex := -1))
  }

  /** At the start of `fire()`: the first arguments of the queue are those of this round. */
  function Started(o: Options, s: State): State
    requires s.queue != []
  {
    s.(locked := o.once, fired := true, firing := true, memory := Some(s.queue[0]), queue := s.queue[1..])
  }

  /** `fire()`: only ever entered with something in the queue. */
  function Fire(o: Options, s: State): State
    requires s.queue != [] && -1 <= s.firingIndex
  {
    Resume(o, Started(o, s))
  }

  // ---------------------------------------------------------------------------------------------
  // The calls

  function Has(items: seq<Occurrence>, fn: Fn): bool {
    exists i | 0 <= i < |items| :: items[i].fn == fn
  }

  function Push(o: Options, s: State, fn: Fn): State {
    if s.list.None? || (o.unique && Has(s.list.value, fn)) then s
    else
      var entry := Occurrence(fn, |s.added|);
      s.(list := Some(s.list.value + [entry]), added := s.added + [entry])
  }

  function PushAll(o: Options, s: State, fns: seq<Fn>): State {
    if fns == [] then s else Push(o, PushAll(o, s, fns[..|fns| - 1]), fns[|fns| - 1])
  }

  /** Before adding to an idle list that remembers its last fire: make the new entries the next to be called. */
  function Armed(s: State): State
    requires s.list.Some? && s.memory.Some?
  {
    s.(firingIndex := |s.list.value| - 1, queue := s.queue + [s.memory.value])
  }

  function AddTo(o: Options, s: State, fns: seq<Fn>): State
    requires Sound(s)
  {
    if s.list.None? then s
    else if s.memory.Some? && !s.firing then
      PushAllKeepsRest(o, Armed(s), fns);
      Fire(o, PushAll(o, Armed(s), fns))
    else PushAll(o, s, fns)
  }

  lemma {:induction false} PushAllKeepsRest(o: Options, s: State, fns: seq<Fn>)
    ensures var r := PushAll(o, s, fns); r == s.(list := r.list, added := r.added) && (r.list.Some? <==> s.list.Some?)
  {
    if fns != [] {
      PushAllKeepsRest(o, s, fns[..|fns| - 1]);
    }
  }

  function Without(items: seq<Occurrence>, fn: Fn): seq<Occurrence> {
    if items == [] then []
    else Without(items[..|items| - 1], fn) + if items[|items| - 1].fn == fn then [] else [items[|items| - 1]]
  }

  /** The part of the list whose turn is over or has come. */
  function Done(items: seq<Occurrence>, firingIndex: int): seq<Occurrence> {
    if 0 <= firingIndex + 1 <= |items| then items[..firingIndex + 1] else items
  }

  /** The part of the list that still waits for its turn. */
  function Waiting(items: seq<Occurrence>, firingIndex: int): seq<Occurrence> {
    if 0 <= firingIndex + 1 <= |items| then items[firingIndex + 1..] else []
  }

  function IdsOf(items: seq<Occurrence>, fn: Fn): set<nat> {
    set i | 0 <= i < |items| && items[i].fn == fn :: items[i].id
  }

  function RemoveOne(s: State, fn: Fn): State {
    if s.list.None? then s
    else
      var done, waiting := Done(s.list.value, s.firingIndex), Waiting(s.list.value, s.firingIndex);
      s.(list := Some(Without(done, fn) + Without(waiting, fn)),
         firingIndex := s.firingIndex - (|done| - |Without(done, fn)|),
         skipped := s.skipped + IdsOf(waiting, fn))
  }

  function RemoveFrom(s: State, fns: seq<Fn>): State {
    if fns == [] then s else RemoveOne(RemoveFrom(s, fns[..|fns| - 1]), fns[|fns| - 1])
  }

  /** The state after one call made to the list, or after the running callback has returned. */
  function Next(o: Options, s: State, e: Event): State
    requires Sound(s)
  {
    match e
    case Add(fns) => AddTo(o, s, fns)
    case Remove(fns) => RemoveFrom(s, fns)
    case Empty => if s.list.Some? then s.(list := Some([])) else s
    case Disable => s.(locked := true, queue := [], list := None, memory := None)
    case Lock => s.(locked := true, queue := [], list := if s.memory.None? && !s.firing then None else s.list)
    case FireWith(args) =>
      if s.locked then s
      else if s.firing then s.(queue := s.queue + [args])
      else Fire(o, s.(queue := s.queue + [args]))
    case Return(isFalse) =>
      if !s.firing then s
      else if isFalse && o.stopOnFalse then Resume(o, s.(firingIndex := |Items(s)|, memory := None))
      else Resume(o, s)
  }

  lemma {:induction false} ResumeIsSound(o: Options, s: State)
    requires -1 <= s.firingIndex && s.firing && (s.list.Some? && s.firingIndex + 1 < |Items(s)| ==> s.memory.Some?)
    requires forall i | 0 <= i < |s.added| :: s.added[i].id == i
    ensures Sound(Resume(o, s))
    decreases |s.queue|
  {
    if s.firingIndex + 1 >= |Items(s)| && s.queue != [] {
      ResumeIsSound(o, s.(firingIndex := -1, memory := Some(s.queue[0]), queue := s.queue[1..]));
    }
  }

  lemma {:induction false} PushAllIsSound(o: Options, s: State, fns: seq<Fn>)
    requires forall i | 0 <= i < |s.added| :: s.added[i].id == i
    ensures forall i | 0 <= i < |PushAll(o, s, fns).added| :: PushAll(o, s, fns).added[i].id == i
  {
    if fns != [] {
      PushAllIsSound(o, s, fns[..|fns| - 1]);
    }
  }

  lemma {:induction false} RemoveFromIsSound(s: State, fns: seq<Fn>)
    requires Sound(s)
    ensures Sound(RemoveFrom(s, fns)) && RemoveFrom(s, fns).firing == s.firing
  {
    if fns != [] {
      RemoveFromIsSound(s, fns[..|fns| - 1]);
      var rest := RemoveFrom(s, fns[..|fns| - 1]);
      WithoutIsShorter(Done(Items(rest), rest.firingIndex), fns[|fns| - 1]);
    }
  }

  lemma {:induction false} WithoutIsShorter(items: seq<Occurrence>, fn: Fn)
    ensures |Without(items, fn)| <= |items|
  {
    if items != [] {
      WithoutIsShorter(items[..|items| - 1], fn);
    }
  }

  lemma NextIsSound(o: Options, s: State, e: Event)
    requires Sound(s)
    ensures Sound(Next(o, s, e))
  {
    match e
    case Add(fns) =>
      var s0 := if s.list.Some? && s.memory.Some? && !s.firing then Armed(s) else s;
      PushAllKeepsRest(o, s0, fns);
      PushAllIsSound(o, s0, fns);
      if s.list.Some? && s.memory.Some? && !s.firing {
        FireIsSound(o, PushAll(o, s0, fns));
      }
    case Remove(fns) => RemoveFromIsSound(s, fns);
    case FireWith(args) =>
      if !s.locked && !s.firing {
        FireIsSound(o, s.(queue := s.queue + [args]));
      }
    case Return(isFalse) =>
      if s.firing {
        ResumeIsSound(o, if isFalse && o.stopOnFalse then s.(firingIndex := |Items(s)|, memory := None) else s);
      }
    case _ =>
  }

  lemma FireIsSound(o: Options, s: State)
    requires s.queue != [] && -1 <= s.firingIndex && forall i | 0 <= i < |s.added| :: s.added[i].id == i
    ensures Sound(Fire(o, s))
  {
    ResumeIsSound(o, Started(o, s));
  }

  /** The state after a sequence of calls. */
  ghost function Run(o: Options, events: seq<Event>): (s: State)
    ensures Sound(s)
  {
    if events == [] then INITIAL
    else
      var before := Run(o, events[..|events| - 1]);
      NextIsSound(o, before, events[|events| - 1]);
      Next(o, before, events[|events| - 1])
  }

  // ---------------------------------------------------------------------------------------------
  // "once memory": exactly once each, in the order of addition

  const ONCE_MEMORY := Options(true, true, false, false)

  function Kept(added: seq<Occurrence>, skipped: set<nat>): seq<Occurrence> {
    if added == [] then []
    else Kept(added[..|added| - 1], skipped) + if added[|added| - 1].id in skipped then [] else [added[|added| - 1]]
  }

  function Called(calls: seq<Call>): (r: seq<Occurrence>)
    ensures |r| == |calls| && forall i | 0 <= i < |calls| :: r[i] == calls[i].who
  {
    seq(|calls|, i requires 0 <= i < |calls| => calls[i].who)
  }

  /** Only `Callbacks("once memory")` as Deferred uses it from outside: no empty, disable or lock. */
  predicate Ordinary(e: Event) {
    e.Add? || e.Remove? || e.FireWith? || e.Return?
  }

  ghost predicate Ordered(s: State, first: Option<Args>) {
    && Sound(s) && s.list.Some?
    && (forall id | id in s.skipped :: id < |s.added|)
    && s.fired == first.Some? && s.memory == first && s.locked == s.fired && s.queue == []
    && (!s.fired ==> !s.firing && s.calls == [])
    && (s.fired && !s.firing ==> s.list == Some([]))
    && (s.firing ==> s.firingIndex < |Items(s)|)
    && (forall c | c in s.calls :: Some(c.args) == first)
    && Called(s.calls) + Waiting(Items(s), s.firingIndex) == Kept(s.added, s.skipped)
  }

  /** The arguments of the first fire call. */
  function FirstFire(events: seq<Event>): Option<Args> {
    if events == [] then None
    else
      var before := FirstFire(events[..|events| - 1]);
      var last := events[|events| - 1];
      if before.None? && last.FireWith? then Some(last.args) else before
  }

  lemma {:induction false} KeptIncreases(added: seq<Occurrence>, skipped: set<nat>)
    requires forall i | 0 <= i < |added| :: added[i].id == i
    ensures forall i, j | 0 <= i < j < |Kept(added, skipped)| :: Kept(added, skipped)[i].id < Kept(added, skipped)[j].id
    ensures forall i | 0 <= i < |Kept(added, skipped)| :: Kept(added, skipped)[i].id < |added|
  {
    if added != [] {
      KeptIncreases(added[..|added| - 1], skipped);
    }
  }

  lemma {:induction false} KeptTwice(added: seq<Occurrence>, a: set<nat>, b: set<nat>)
    ensures Kept(added, a + b) == Kept(Kept(added, a), b)
  {
    if added != [] {
      var last := added[|added| - 1];
      KeptTwice(added[..|added| - 1], a, b);
      var front := Kept(added[..|added| - 1], a);
      if last.id in a {
        assert Kept(added, a) == front;
      } else {
        assert Kept(added, a) == front + [last] && (front + [last])[..|front|] == front;
      }
    }
  }

  lemma {:induction false} KeptConcat(x: seq<Occurrence>, y: seq<Occurrence>, ids: set<nat>)
    ensures Kept(x + y, ids) == Kept(x, ids) + Kept(y, ids)
    decreases |y|
  {
    if y == [] {
      assert x + y == x;
    } else {
      assert (x + y)[..|x + y| - 1] == x + y[..|y| - 1];
      KeptConcat(x, y[..|y| - 1], ids);
    }
  }

  lemma {:induction false} KeptAll(x: seq<Occurrence>, ids: set<nat>)
    requires forall i | 0 <= i < |x| :: x[i].id !in ids
    ensures Kept(x, ids) == x
  {
    if x != [] {
      KeptAll(x[..|x| - 1], ids);
    }
  }

  lemma {:induction false} WithoutIsKept(items: seq<Occurrence>, fn: Fn, ids: set<nat>)
    requires forall i | 0 <= i < |items| :: items[i].id in ids <==> items[i].fn == fn
    ensures Without(items, fn) == Kept(items, ids)
  {
    if items != [] {
      WithoutIsKept(items[..|items| - 1], fn, ids);
    }
  }

  /** Taking a function out of the waiting entries, in terms of everything ever added. */
  lemma RemoveWaiting(added: seq<Occurrence>, skipped: set<nat>, calls: seq<Occurrence>, waiting: seq<Occurrence>,
                      fn: Fn)
    requires forall i | 0 <= i < |added| :: added[i].id == i
    requires calls + waiting == Kept(added, skipped)
    ensures calls + Without(waiting, fn) == Kept(added, skipped + IdsOf(waiting, fn))
  {
    var gone := IdsOf(waiting, fn);
    KeptIncreases(added, skipped);
    IdsTellApart(calls, waiting, fn);
    KeptTwice(added, skipped, gone);
    KeptConcat(calls, waiting, gone);
    KeptAll(calls, gone);
    WithoutIsKept(waiting, fn, gone);
  }

  lemma WaitingIdsAreOld(added: seq<Occurrence>, skipped: set<nat>, calls: seq<Occurrence>, waiting: seq<Occurrence>,
                         fn: Fn)
    requires forall i | 0 <= i < |added| :: added[i].id == i
    requires calls + waiting == Kept(added, skipped)
    ensures forall id | id in IdsOf(waiting, fn) :: id < |added|
  {
    var all := calls + waiting;
    KeptIncreases(added, skipped);
    forall j | 0 <= j < |waiting| ensures waiting[j].id < |added| {
      assert all[|calls| + j].id < |added|;
    }
  }

  lemma IdsTellApart(calls: seq<Occurrence>, waiting: seq<Occurrence>, fn: Fn)
    requires forall i, j | 0 <= i < j < |calls + waiting| :: (calls + waiting)[i].id < (calls + waiting)[j].id
    ensures forall i | 0 <= i < |calls| :: calls[i].id !in IdsOf(waiting, fn)
    ensures forall i | 0 <= i < |waiting| :: waiting[i].id in IdsOf(waiting, fn) <==> waiting[i].fn == fn
  {
    var all := calls + waiting;
    forall i, j | 0 <= i < |calls| && 0 <= j < |waiting| ensures calls[i].id < waiting[j].id {
      assert all[i].id < all[|calls| + j].id;
    }
    forall i, j | 0 <= i < j < |waiting| ensures waiting[i].id < waiting[j].id {
      assert all[|calls| + i].id < all[|calls| + j].id;
    }
  }

  /** Removing a function takes its waiting entries out of what is still to be called, and nothing else. */
  lemma RemoveOneStaysOrdered(s: State, fn: Fn, first: Option<Args>)
    requires Ordered(s, first)
    ensures Ordered(RemoveOne(s, fn), first)
  {
    var items := s.list.value;
    var done, waiting := Done(items, s.firingIndex), Waiting(items, s.firingIndex);
    RemoveWaiting(s.added, s.skipped, Called(s.calls), waiting, fn);
    WaitingIdsAreOld(s.added, s.skipped, Called(s.calls), waiting, fn);
    WithoutIsShorter(done, fn);
    var s' := RemoveOne(s, fn);
    assert Waiting(Items(s'), s'.firingIndex) == Without(waiting, fn);
  }

  lemma {:induction false} RemoveFromStaysOrdered(s: State, fns: seq<Fn>, first: Option<Args>)
    requires Ordered(s, first)
    ensures Ordered(RemoveFrom(s, fns), first)
  {
    if fns != [] {
      RemoveFromStaysOrdered(s, fns[..|fns| - 1], first);
      RemoveOneStaysOrdered(RemoveFrom(s, fns[..|fns| - 1]), fns[|fns| - 1], first);
    }
  }

  /** What adding entries preserves, whether or not the list is about to fire them. */
  ghost predicate Lined(s: State) {
    && s.list.Some? && -1 <= s.firingIndex < |Items(s)|
    && (forall i | 0 <= i < |s.added| :: s.added[i].id == i)
    && (forall id | id in s.skipped :: id < |s.added|)
    && Called(s.calls) + Waiting(Items(s), s.firingIndex) == Kept(s.added, s.skipped)
  }

  lemma PushStaysLined(o: Options, s: State, fn: Fn)
    requires Lined(s)
    ensures Lined(Push(o, s, fn))
  {
    var s' := Push(o, s, fn);
    if s' != s {
      var entry := Occurrence(fn, |s.added|);
      var calls, waiting := Called(s.calls), Waiting(Items(s), s.firingIndex);
      assert (s.added + [entry])[..|s.added|] == s.added;
      assert Waiting(Items(s'), s'.firingIndex) == waiting + [entry];
      assert calls + (waiting + [entry]) == (calls + waiting) + [entry];
    }
  }

  lemma {:induction false} PushAllStaysLined(o: Options, s: State, fns: seq<Fn>)
    requires Lined(s)
    ensures Lined(PushAll(o, s, fns))
  {
    if fns != [] {
      PushAllStaysLined(o, s, fns[..|fns| - 1]);
      PushStaysLined(o, PushAll(o, s, fns[..|fns| - 1]), fns[|fns| - 1]);
    }
  }

  /** What resuming a "once memory" list preserves of the calls: the next waiting entry is called. */
  lemma CallsNextInLine(s: State, args: Args)
    requires Lined(s) && s.firingIndex + 1 < |Items(s)|
    ensures Lined(s.(firingIndex := s.firingIndex + 1, calls := s.calls + [Call(Items(s)[s.firingIndex + 1], args)]))
  {
    hide Kept;
    var i, calls, waiting := s.firingIndex + 1, Called(s.calls), Waiting(Items(s), s.firingIndex);
    var entry, rest := Items(s)[i], Waiting(Items(s), i);
    assert Called(s.calls + [Call(entry, args)]) == calls + [entry];
    assert waiting == [entry] + rest;
    assert calls + ([entry] + rest) == (calls + [entry]) + rest;
  }

  /** Resuming a "once memory" list calls the next waiting entry, or ends with none left. */
  lemma ResumeStaysOrdered(s: State, first: Option<Args>)
    requires Lined(s) && Sound(s)
    requires s.firing && s.fired && s.locked && s.queue == [] && first.Some? && s.memory == first
    requires forall c | c in s.calls :: Some(c.args) == first
    ensures Ordered(Resume(ONCE_MEMORY, s), first)
  {
    if s.firingIndex + 1 < |Items(s)| {
      CallsNextInLine(s, first.value);
    } else {
      assert Resume(ONCE_MEMORY, s) == s.(firingIndex := -1, firing := false, list := Some([]));
      assert Waiting(Items(s), s.firingIndex) == [] && Waiting([], -1) == [];
    }
  }

  /** Adding to a list that is running, or has never been fired, only makes the queue of entries longer. */
  lemma QuietAddStaysOrdered(s: State, fns: seq<Fn>, first: Option<Args>)
    requires Ordered(s, first) && (s.memory.None? || s.firing)
    ensures Ordered(AddTo(ONCE_MEMORY, s, fns), first)
  {
    var s' := PushAll(ONCE_MEMORY, s, fns);
    assert AddTo(ONCE_MEMORY, s, fns) == s';
    PushAllKeepsRest(ONCE_MEMORY, s, fns);
    PushAllStaysLined(ONCE_MEMORY, s, fns);
  }

  /** Adding to a list that has fired and is idle calls the new entries at once. */
  lemma LateAddStaysOrdered(s: State, fns: seq<Fn>, first: Option<Args>)
    requires Ordered(s, first) && s.memory.Some? && !s.firing
    ensures Ordered(AddTo(ONCE_MEMORY, s, fns), first)
  {
    ArmedIsLined(s, first);
    PushAllKeepsRest(ONCE_MEMORY, Armed(s), fns);
    PushAllStaysLined(ONCE_MEMORY, Armed(s), fns);
    FireStaysOrdered(PushAll(ONCE_MEMORY, Armed(s), fns), first);
  }

  lemma ArmedIsLined(s: State, first: Option<Args>)
    requires Ordered(s, first) && s.memory.Some? && !s.firing
    ensures Lined(Armed(s)) && Armed(s) == s.(queue := [first.value])
  {
  }

  lemma FireStaysOrdered(s: State, first: Option<Args>)
    requires Lined(s) && first.Some? && s.queue == [first.value]
    requires forall c | c in s.calls :: Some(c.args) == first
    ensures Ordered(Fire(ONCE_MEMORY, s), first)
  {
    var s' := s.(locked := true, fired := true, firing := true, memory := first, queue := []);
    assert Fire(ONCE_MEMORY, s) == Resume(ONCE_MEMORY, s');
    ResumeStaysOrdered(s', first);
  }

  lemma FirstFireStaysOrdered(s: State, args: Args)
    requires Ordered(s, None)
    ensures !s.locked && !s.firing && Ordered(Fire(ONCE_MEMORY, s.(queue := s.queue + [args])), Some(args))
  {
    assert s.queue + [args] == [args];
    FireStaysOrdered(s.(queue := [args]), Some(args));
  }

  lemma NextStaysOrdered(s: State, e: Event, first: Option<Args>)
    requires Ordered(s, first) && Ordinary(e)
    ensures Ordered(Next(ONCE_MEMORY, s, e), if first.None? && e.FireWith? then Some(e.args) else first)
  {
    hide Resume, Fire, PushAll, AddTo, RemoveFrom, Kept, Called;
    match e
    case Add(fns) =>
      if s.memory.None? || s.firing {
        QuietAddStaysOrdered(s, fns, first);
      } else {
        LateAddStaysOrdered(s, fns, first);
      }
    case Remove(fns) => RemoveFromStaysOrdered(s, fns, first);
    case FireWith(args) =>
      if first.None? {
        FirstFireStaysOrdered(s, args);
      }
    case Return(isFalse) =>
      if s.firing {
        ResumeStaysOrdered(s, first);
      }
  }

  /**
    For every sequence of calls to a "once memory" list: at any moment, the calls made so far followed by the
    entries still waiting are exactly the entries ever added, in order of addition, without those removed
    before their turn. When the list is idle after a fire, nothing is waiting. All calls got the first fire's
    arguments.
   */
  lemma {:induction false} ExactlyOnceInOrder(events: seq<Event>)
    requires forall e | e in events :: Ordinary(e)
    ensures var s := Run(ONCE_MEMORY, events);
      && Ordered(s, FirstFire(events))
      && (s.fired && !s.firing ==> Called(s.calls) == Kept(s.added, s.skipped))
  {
    if events == [] {
      assert Called([]) + Waiting([], -1) == [];
    } else {
      var before := events[..|events| - 1];
      ExactlyOnceInOrder(before);
      NextStaysOrdered(Run(ONCE_MEMORY, before), events[|events| - 1], FirstFire(before));
    }
    var s := Run(ONCE_MEMORY, events);
    assert s.fired && !s.firing ==> Waiting(Items(s), s.firingIndex) == [];
  }

  /** No entry is called twice, and entries are called in the order in which they were added. */
  lemma CallsIncrease(events: seq<Event>)
    requires forall e | e in events :: Ordinary(e)
    ensures var calls := Run(ONCE_MEMORY, events).calls;
      forall i, j | 0 <= i < j < |calls| :: calls[i].who.id < calls[j].who.id
  {
    ExactlyOnceInOrder(events);
    var s := Run(ONCE_MEMORY, events);
    KeptIncreases(s.added, s.skipped);
    forall i, j | 0 <= i < j < |s.calls| ensures s.calls[i].who.id < s.calls[j].who.id {
      assert Kept(s.added, s.skipped)[i] == Called(s.calls)[i] && Kept(s.added, s.skipped)[j] == Called(s.calls)[j];
    }
  }

  // ---------------------------------------------------------------------------------------------
  // Where the list falls short of its description

  /**
    `lock` is meant to disable `fire` for good. An `add` that fires at once from memory undoes it, unless the list
    is "once".
   */
  lemma LockSurvivesAddIff(o: Options, s: State, fns: seq<Fn>)
    requires Sound(s) && s.locked
    ensures AddTo(o, s, fns).locked <==> o.once || s.list.None? || s.memory.None? || s.firing
  {
    if s.list.Some? && s.memory.Some? && !s.firing {
      PushAllKeepsRest(o, Armed(s), fns);
      FireSetsLock(o, PushAll(o, Armed(s), fns));
    } else {
      PushAllKeepsRest(o, s, fns);
    }
  }

  lemma FireSetsLock(o: Options, s: State)
    requires s.queue != [] && -1 <= s.firingIndex
    ensures Fire(o, s).locked == o.once
  {
    ResumeKeepsLock(o, Started(o, s));
  }

  lemma {:induction false} ResumeKeepsLock(o: Options, s: State)
    requires -1 <= s.firingIndex && (s.list.Some? && s.firingIndex + 1 < |Items(s)| ==> s.memory.Some?)
    ensures Resume(o, s).locked == s.locked
    decreases |s.queue|
  {
    if s.firingIndex + 1 >= |Items(s)| && s.queue != [] {
      ResumeKeepsLock(o, s.(firingIndex := -1, memory := Some(s.queue[0]), queue := s.queue[1..]));
    }
  }

  /** What is added in several calls, one after the other. */
  ghost function AddEach(o: Options, s: State, batches: seq<seq<Fn>>): (r: State)
    requires Sound(s)
    ensures Sound(r)
  {
    if batches == [] then s
    else
      var before := AddEach(o, s, batches[..|batches| - 1]);
      NextIsSound(o, before, Add(batches[|batches| - 1]));
      Next(o, before, Add(batches[|batches| - 1]))
  }

  function Total(batches: seq<seq<Fn>>): nat {
    if batches == [] then 0 else Total(batches[..|batches| - 1]) + |batches[|batches| - 1]|
  }

  /**
    `empty` leaves firingIndex alone. Entries that a running callback adds after emptying the list are called
    only as far as they land beyond that index.
   */
  lemma EmptyWhileFiringSkips(o: Options, s: State, batches: seq<seq<Fn>>)
    requires Sound(s) && s.firing && s.list.Some? && !o.unique
    ensures Sound(Next(o, s, Empty))
    ensures var s' := AddEach(o, Next(o, s, Empty), batches);
      && |Items(s')| == Total(batches)
      && |Waiting(Items(s'), s'.firingIndex)| ==
           if s.firingIndex + 1 <= Total(batches) then Total(batches) - (s.firingIndex + 1) else 0
  {
    NextIsSound(o, s, Empty);
    AddedWhileFiring(o, Next(o, s, Empty), batches);
  }

  /** While a callback runs, adding only makes the list longer. */
  lemma {:induction false} AddedWhileFiring(o: Options, s: State, batches: seq<seq<Fn>>)
    requires Sound(s) && s.firing && s.list.Some? && !o.unique
    ensures var r := AddEach(o, s, batches);
      r == s.(list := r.list, added := r.added) && r.list.Some? && |Items(r)| == |Items(s)| + Total(batches)
  {
    if batches != [] {
      AddedWhileFiring(o, s, batches[..|batches| - 1]);
      PushAllCounts(o, AddEach(o, s, batches[..|batches| - 1]), batches[|batches| - 1]);
      PushAllKeepsRest(o, AddEach(o, s, batches[..|batches| - 1]), batches[|batches| - 1]);
    }
  }

  /** Callback 1 empties the list and adds callback 2. */
  const FORGETTING := [Add([1]), FireWith([7]), Empty, Add([2]), Return(false)]

  const ONE_ADDED := State(false, None, false, false, Some([Occurrence(1, 0)]), [], -1, [Occurrence(1, 0)], {}, [])

  const ONE_CALLED := State(true, Some([7]), true, true, Some([Occurrence(1, 0)]), [], 0, [Occurrence(1, 0)], {},
                            [Call(Occurrence(1, 0), [7])])

  const EMPTIED := ONE_CALLED.(list := Some([]))

  const TWO_ADDED := EMPTIED.(list := Some([Occurrence(2, 1)]), added := [Occurrence(1, 0), Occurrence(2, 1)])

  /** The loop ends without having come to callback 2, and takes it off the list. */
  lemma AddedButForgotten()
    ensures Run(ONCE_MEMORY, FORGETTING) == TWO_ADDED.(firing := false, list := Some([]), firingIndex := -1)
  {
    hide Next;
    RunOneMore(0);
    FirstAdded();
    RunOneMore(1);
    FirstCalled();
    RunOneMore(2);
    RunOneMore(3);
    SecondAdded();
    RunOneMore(4);
    NeverCalled();
    assert FORGETTING[..5] == FORGETTING;
  }

  lemma FirstAdded()
    ensures Sound(INITIAL) && Next(ONCE_MEMORY, INITIAL, Add([1])) == ONE_ADDED
  {
    PushOne(ONCE_MEMORY, INITIAL, 1);
    assert Push(ONCE_MEMORY, INITIAL, 1) == ONE_ADDED by {
      assert [] + [Occurrence(1, 0)] == [Occurrence(1, 0)];
    }
  }

  lemma FirstCalled()
    ensures Sound(ONE_ADDED) && Next(ONCE_MEMORY, ONE_ADDED, FireWith([7])) == ONE_CALLED
  {
    assert [] + [[7]] == [[7]] && [[7]][1..] == [];
  }

  lemma SecondAdded()
    ensures Sound(ONE_CALLED) && Next(ONCE_MEMORY, ONE_CALLED, Empty) == EMPTIED
    ensures Sound(EMPTIED) && Next(ONCE_MEMORY, EMPTIED, Add([2])) == TWO_ADDED
  {
    PushOne(ONCE_MEMORY, EMPTIED, 2);
    assert Push(ONCE_MEMORY, EMPTIED, 2) == TWO_ADDED by {
      assert [] + [Occurrence(2, 1)] == [Occurrence(2, 1)];
    }
  }

  lemma NeverCalled()
    ensures Sound(TWO_ADDED)
    ensures Next(ONCE_MEMORY, TWO_ADDED, Return(false)) ==
      TWO_ADDED.(firing := false, list := Some([]), firingIndex := -1)
  {
  }

  lemma PushOne(o: Options, s: State, fn: Fn)
    ensures PushAll(o, s, [fn]) == Push(o, s, fn)
  {
    assert [fn][..0] == [];
  }

  lemma RunOneMore(k: nat)
    requires k < |FORGETTING|
    ensures k == 0 ==> Run(ONCE_MEMORY, FORGETTING[..k]) == INITIAL
    ensures Run(ONCE_MEMORY, FORGETTING[..k + 1]) ==
      Next(ONCE_MEMORY, Run(ONCE_MEMORY, FORGETTING[..k]), FORGETTING[k])
  {
    assert FORGETTING[..k + 1][..k] == FORGETTING[..k];
  }

  lemma {:induction false} PushAllCounts(o: Options, s: State, fns: seq<Fn>)
    requires s.list.Some? && !o.unique
    ensures PushAll(o, s, fns).list.Some? && |Items(PushAll(o, s, fns))| == |Items(s)| + |fns|
  {
    if fns != [] {
      PushAllCounts(o, s, fns[..|fns| - 1]);
    }
  }

  // ---------------------------------------------------------------------------------------------
  // The list

  /** What the list hands control to: the callback it has just called, if any. */
  function NewCall(before: seq<Call>, after: seq<Call>): Option<Call> {
    if |after| > |before| then Some(after[|after| - 1]) else None
  }

  class CallbackList {
    const options: Options
    var firing: bool
    var memory: Option<Args>
    var fired: bool
    var locked: bool
    var list: Option<seq<Occurrence>>
    var queue: seq<Args>
    var firingIndex: int
    var nextId: nat
    ghost var added: seq<Occurrence>
    ghost var skipped: set<nat>
    ghost var calls: seq<Call>

    ghost function Model(): State
      reads this
    {
      State(firing, memory, fired, locked, list, queue, firingIndex, added, skipped, calls)
    }

    ghost predicate Valid()
      reads this
    {
      Sound(Model()) && nextId == |added|
    }

    constructor (options: Options)
      ensures Valid() && Model() == INITIAL && this.options == options
    {
      this.options := options;
      firing, memory, fired, locked, list, queue, firingIndex, nextId := false, None, false, false, Some([]), [], -1, 0;
      added, skipped, calls := [], {}, [];
    }

    /** The loop of `fire`, up to the next callback or to its end. */
    method Advance() returns (call: Option<Call>)
      requires -1 <= firingIndex && (list.Some? && firingIndex + 1 < |list.value| ==> memory.Some?)
      modifies this
      ensures Model() == Resume(options, old(Model())) && nextId == old(nextId) && call == NewCall(old(calls), calls)
    {
      hide Resume, Finish;
      call := None;
      while true
        invariant -1 <= firingIndex && (list.Some? && firingIndex + 1 < |list.value| ==> memory.Some?)
        invariant Resume(options, Model()) == Resume(options, old(Model()))
        invariant nextId == old(nextId) && calls == old(calls)
        decreases |queue|
      {
        ResumeStep(options, Model());
        if list.Some? && firingIndex + 1 < |list.value| {
          firingIndex := firingIndex + 1;
          call := Some(Call(list.value[firingIndex], memory.value));
          calls := calls + [call.value];
          return;
        }
        firingIndex := -1;
        if queue == [] {
          break;
        }
        memory, queue := Some(queue[0]), queue[1..];
      }
      Forget();
    }

    /** After the loop of `fire`. */
    method Forget()
      modifies this`memory, this`firing, this`list
      ensures Model() == Finish(options, old(Model()))
    {
      if !options.memory {
        memory := None;
      }
      firing := false;
      if locked {
        list := if memory.Some? then Some([]) else None;
      }
    }

    method StartFiring() returns (call: Option<Call>)
      requires queue != [] && -1 <= firingIndex
      modifies this
      ensures Model() == Fire(options, old(Model())) && nextId == old(nextId) && call == NewCall(old(calls), calls)
    {
      locked, fired, firing := options.once, true, true;
      memory, queue := Some(queue[0]), queue[1..];
      call := Advance();
    }

    /** The inner loop of `add`. */
    method PushEach(fns: seq<Fn>)
      requires nextId == |added|
      modifies this`list, this`nextId, this`added
      ensures Model() == PushAll(options, old(Model()), fns) && nextId == |added|
    {
      var i := 0;
      while i < |fns|
        invariant 0 <= i <= |fns| && nextId == |added|
        invariant Model() == PushAll(options, old(Model()), fns[..i])
      {
        assert fns[..i + 1][..i] == fns[..i];
        if list.Some? && (!options.unique || !Has(list.value, fns[i])) {
          var entry := Occurrence(fns[i], nextId);
          list, nextId, added := Some(list.value + [entry]), nextId + 1, added + [entry];
        }
        i := i + 1;
      }
      assert fns[..i] == fns;
    }

    method Add(fns: seq<Fn>) returns (call: Option<Call>)
      requires Valid()
      modifies this
      ensures Valid() && Model() == Next(options, old(Model()), Event.Add(fns)) && call == NewCall(old(calls), calls)
    {
      hide Resume, Fire, PushAll;
      NextIsSound(options, Model(), Event.Add(fns));
      call := None;
      if list.Some? {
        if memory.Some? && !firing {
          firingIndex := |list.value| - 1;
          queue := queue + [memory.value];
          PushAllKeepsRest(options, Model(), fns);
          PushEach(fns);
          NoEntriesWhileFiring(options, Model());
          call := StartFiring();
        } else {
          PushAllKeepsRest(options, Model(), fns);
          PushEach(fns);
        }
      }
    }

    method FireWith(args: Args) returns (call: Option<Call>)
      requires Valid()
      modifies this
      ensures Valid() && Model() == Next(options, old(Model()), Event.FireWith(args))
      ensures call == NewCall(old(calls), calls)
    {
      hide Resume, Fire;
      NextIsSound(options, Model(), Event.FireWith(args));
      call := None;
      if !locked {
        queue := queue + [args];
        if !firing {
          NoEntriesWhileFiring(options, Model());
          call := StartFiring();
        }
      }
    }

    /** The running callback returns. */
    method Return(isFalse: bool) returns (call: Option<Call>)
      requires Valid()
      modifies this
      ensures Valid() && Model() == Next(options, old(Model()), Event.Return(isFalse))
      ensures call == NewCall(old(calls), calls)
    {
      hide Resume;
      NextIsSound(options, Model(), Event.Return(isFalse));
      call := None;
      if firing {
        if isFalse && options.stopOnFalse {
          firingIndex := if list.Some? then |list.value| else 0;
          memory := None;
        }
        NoEntriesWhileResuming(options, Model());
        call := Advance();
      }
    }

    method Empty()
      requires Valid()
      modifies this`list
      ensures Valid() && Model() == Next(options, old(Model()), Event.Empty)
    {
      if list.Some? {
        list := Some([]);
      }
    }

    method Disable()
      requires Valid()
      modifies this
      ensures Valid() && Model() == Next(options, old(Model()), Event.Disable) && nextId == old(nextId)
    {
      locked, queue := true, [];
      list, memory := None, None;
    }

    method Lock()
      requires Valid()
      modifies this
      ensures Valid() && Model() == Next(options, old(Model()), Event.Lock) && nextId == old(nextId)
    {
      locked, queue := true, [];
      if memory.None? && !firing {
        list, memory := None, None;
      }
    }

    /** `remove`: splice out every entry of each function, moving firingIndex along. */
    method Remove(fns: seq<Fn>)
      requires Valid()
      modifies this
      ensures Valid() && Model() == Next(options, old(Model()), Event.Remove(fns))
    {
      var i := 0;
      while i < |fns|
        invariant 0 <= i <= |fns| && Valid() && Model() == RemoveFrom(old(Model()), fns[..i])
      {
        assert fns[..i + 1][..i] == fns[..i];
        RemoveEach(fns[i]);
        i := i + 1;
      }
      assert fns[..i] == fns;
    }

    method RemoveEach(fn: Fn)
      requires Valid()
      modifies this
      ensures Valid() && Model() == RemoveOne(old(Model()), fn)
    {
      hide Sound, Without, Done, Waiting, IdsOf;
      if list.Some? {
        RemoveOneIsTarget(Model(), fn);
        var items, index := SpliceOut(list.value, firingIndex, fn);
        skipped := skipped + IdsOf(Waiting(list.value, firingIndex), fn);
        list, firingIndex := Some(items), index;
      }
    }
  }

  /** `RemoveOne` in terms of what the splicing loop aims at. */
  lemma RemoveOneIsTarget(s: State, fn: Fn)
    requires Sound(s) && s.list.Some?
    ensures -1 <= s.firingIndex && Sound(RemoveOne(s, fn)) && RemoveOne(s, fn).added == s.added
    ensures var (items, index) := Target(s.list.value, s.firingIndex, fn);
      RemoveOne(s, fn) == s.(list := Some(items), firingIndex := index,
                             skipped := s.skipped + IdsOf(Waiting(s.list.value, s.firingIndex), fn))
  {
    hide Without, IdsOf;
    WithoutIsShorter(Done(s.list.value, s.firingIndex), fn);
  }

  /** One round of the loop of `fire`. */
  lemma ResumeStep(o: Options, s: State)
    requires -1 <= s.firingIndex && (s.list.Some? && s.firingIndex + 1 < |Items(s)| ==> s.memory.Some?)
    ensures Resume(o, s) ==
      if s.firingIndex + 1 < |Items(s)| then
        s.(firingIndex := s.firingIndex + 1, calls := s.calls + [Call(Items(s)[s.firingIndex + 1], s.memory.value)])
      else if s.queue != [] then Resume(o, s.(firingIndex := -1, memory := Some(s.queue[0]), queue := s.queue[1..]))
      else Finish(o, s.(firingIndex := -1))
  {
  }

  lemma NoEntriesWhileFiring(o: Options, s: State)
    requires s.queue != [] && -1 <= s.firingIndex
    ensures Fire(o, s).added == s.added
  {
    NoEntriesWhileResuming(o, Started(o, s));
  }

  lemma {:induction false} NoEntriesWhileResuming(o: Options, s: State)
    requires -1 <= s.firingIndex && (s.list.Some? && s.firingIndex + 1 < |Items(s)| ==> s.memory.Some?)
    ensures Resume(o, s).added == s.added
    decreases |s.queue|
  {
    if s.firingIndex + 1 >= |Items(s)| && s.queue != [] {
      NoEntriesWhileResuming(o, s.(firingIndex := -1, memory := Some(s.queue[0]), queue := s.queue[1..]));
    }
  }

  /** `jQuery.inArray( arg, list, index )` */
  method InArray(items: seq<Occurrence>, fn: Fn, from: nat) returns (index: int)
    requires from <= |items|
    ensures if index < 0 then index == -1 && forall k | from <= k < |items| :: items[k].fn != fn
            else from <= index < |items| && items[index].fn == fn && forall k | from <= k < index :: items[k].fn != fn
  {
    index := from;
    while index < |items|
      invariant from <= index <= |items|
      invariant forall k | from <= k < index :: items[k].fn != fn
    {
      if items[index].fn == fn {
        return;
      }
      index := index + 1;
    }
    index := -1;
  }

  lemma {:induction false} WithoutConcat(x: seq<Occurrence>, y: seq<Occurrence>, fn: Fn)
    ensures Without(x + y, fn) == Without(x, fn) + Without(y, fn)
    decreases |y|
  {
    if y == [] {
      assert x + y == x;
    } else {
      assert (x + y)[..|x + y| - 1] == x + y[..|y| - 1];
      WithoutConcat(x, y[..|y| - 1], fn);
    }
  }

  lemma {:induction false} WithoutNothing(items: seq<Occurrence>, fn: Fn)
    requires forall i | 0 <= i < |items| :: items[i].fn != fn
    ensures Without(items, fn) == items
  {
    if items != [] {
      WithoutNothing(items[..|items| - 1], fn);
    }
  }

  function Spliced(items: seq<Occurrence>, k: nat): seq<Occurrence>
    requires k < |items|
  {
    items[..k] + items[k + 1..]
  }

  lemma WithoutSpliced(items: seq<Occurrence>, k: nat, fn: Fn)
    requires k < |items| && items[k].fn == fn
    ensures Without(Spliced(items, k), fn) == Without(items, fn)
  {
    var x, y := items[..k], items[k + 1..];
    assert items == x + ([items[k]] + y);
    assert [items[k]][..0] == [] && Without([items[k]], fn) == [];
    WithoutConcat(x, [items[k]] + y, fn);
    WithoutConcat([items[k]], y, fn);
    WithoutConcat(x, y, fn);
  }

  /** Splicing at or before firingIndex, and moving firingIndex, leaves the waiting entries alone. */
  lemma SpliceBefore(items: seq<Occurrence>, firingIndex: int, k: nat)
    requires k < |items| && k <= firingIndex
    ensures var done := Done(items, firingIndex);
      && k < |done| && done[k] == items[k]
      && Done(Spliced(items, k), firingIndex - 1) == Spliced(done, k)
      && Waiting(Spliced(items, k), firingIndex - 1) == Waiting(items, firingIndex)
  {
    var n := firingIndex + 1;
    if n <= |items| {
      assert Spliced(items, k)[..n - 1] == Spliced(items[..n], k);
      assert Spliced(items, k)[n - 1..] == items[n..];
    }
  }

  /** Splicing after firingIndex leaves the entries that had their turn alone. */
  lemma SpliceAfter(items: seq<Occurrence>, firingIndex: int, k: nat)
    requires -1 <= firingIndex < k < |items|
    ensures var waiting, i := Waiting(items, firingIndex), k - firingIndex - 1;
      && i < |waiting| && waiting[i] == items[k]
      && Done(Spliced(items, k), firingIndex) == Done(items, firingIndex)
      && Waiting(Spliced(items, k), firingIndex) == Spliced(waiting, i)
  {
    var n := firingIndex + 1;
    assert Spliced(items, k)[..n] == items[..n];
    assert Spliced(items, k)[n..] == Spliced(items[n..], k - n);
  }

  /** A list in two parts, and its firingIndex, without `fn`. */
  function TargetOf(done: seq<Occurrence>, waiting: seq<Occurrence>, firingIndex: int, fn: Fn): (seq<Occurrence>, int) {
    (Without(done, fn) + Without(waiting, fn), firingIndex - (|done| - |Without(done, fn)|))
  }

  function Target(items: seq<Occurrence>, firingIndex: int, fn: Fn): (seq<Occurrence>, int) {
    TargetOf(Done(items, firingIndex), Waiting(items, firingIndex), firingIndex, fn)
  }

  lemma TargetSplicedBefore(done: seq<Occurrence>, waiting: seq<Occurrence>, firingIndex: int, k: nat, fn: Fn)
    requires k < |done| && done[k].fn == fn
    ensures TargetOf(Spliced(done, k), waiting, firingIndex - 1, fn) == TargetOf(done, waiting, firingIndex, fn)
  {
    WithoutSpliced(done, k, fn);
  }

  lemma TargetSplicedAfter(done: seq<Occurrence>, waiting: seq<Occurrence>, firingIndex: int, k: nat, fn: Fn)
    requires k < |waiting| && waiting[k].fn == fn
    ensures TargetOf(done, Spliced(waiting, k), firingIndex, fn) == TargetOf(done, waiting, firingIndex, fn)
  {
    WithoutSpliced(waiting, k, fn);
  }

  /** One step of `remove`: splice, and move firingIndex if the entry was at or before it. */
  method SpliceStep(items: seq<Occurrence>, firingIndex: int, k: nat, fn: Fn)
      returns (left: seq<Occurrence>, index: int)
    requires -1 <= firingIndex && k < |items| && items[k].fn == fn
    ensures Target(left, index, fn) == Target(items, firingIndex, fn)
    ensures -1 <= index && left == Spliced(items, k)
  {
    left, index := items[..k] + items[k + 1..], firingIndex;
    assert left == Spliced(items, k);
    if k <= index {
      SpliceBefore(items, firingIndex, k);
      TargetSplicedBefore(Done(items, firingIndex), Waiting(items, firingIndex), firingIndex, k, fn);
      index := index - 1;
    } else {
      SpliceAfter(items, firingIndex, k);
      TargetSplicedAfter(Done(items, firingIndex), Waiting(items, firingIndex), firingIndex, k - firingIndex - 1, fn);
    }
  }

  lemma NothingLeftToSplice(items: seq<Occurrence>, firingIndex: int, fn: Fn)
    requires -1 <= firingIndex && forall i | 0 <= i < |items| :: items[i].fn != fn
    ensures Target(items, firingIndex, fn) == (items, firingIndex)
  {
    var done, waiting := Done(items, firingIndex), Waiting(items, firingIndex);
    assert items == done + waiting;
    WithoutNothing(done, fn);
    WithoutNothing(waiting, fn);
  }

  /** The loop of `remove` for one function. */
  method SpliceOut(items: seq<Occurrence>, firingIndex: int, fn: Fn) returns (left: seq<Occurrence>, index: int)
    requires -1 <= firingIndex
    ensures (left, index) == Target(items, firingIndex, fn)
  {
    left, index := items, firingIndex;
    var found := InArray(left, fn, 0);
    while found > -1
      invariant -1 <= index && Target(left, index, fn) == Target(items, firingIndex, fn)
      invariant found == -1 ==> forall i | 0 <= i < |left| :: left[i].fn != fn
      invariant found != -1 ==> 0 <= found < |left| && left[found].fn == fn
      invariant found != -1 ==> forall i | 0 <= i < found :: left[i].fn != fn
      decreases |left|
    {
      left, index := SpliceStep(left, index, found, fn);
      found := InArray(left, fn, found);
    }
    NothingLeftToSplice(left, index, fn);
  }
}
