/**
  jQuery.when over two or more arguments: a master Deferred that resolves with all values in argument order
  once the last subordinate resolves, and rejects as soon as one rejects.
 */
module When {
  import opened Wrappers
  import opened Callbacks
  import opened Deferred

  type Value = nat

  datatype Outcome = Fulfilled(value: Value) | Failed(reason: Value)

  /** A subordinate settles (its `done` or `fail` callback runs), or a user of the master's promise calls it. */
  datatype Happening = Settle(i: nat, outcome: Outcome) | OnMaster(which: Which, event: Event)

  /** The variables of `when`; `acts` are the calls that have reached the master Deferred. */
  datatype Aggregate = Aggregate(remaining: int, values: seq<Value>, acts: seq<Act>)

  ghost function Master(w: Aggregate): Promise {
    Deferred.Run(w.acts)
  }

  function Start(arguments: seq<Value>): Aggregate {
    Aggregate(|arguments|, arguments, [])
  }

  function After(w: Aggregate, h: Happening): (r: Aggregate)
    requires h.Settle? ==> h.i < |w.values|
    ensures |r.values| == |w.values|
  {
    match h
    case Settle(i, Fulfilled(v)) =>
      var values := w.values[i := v];
      Aggregate(w.remaining - 1, values,
                if w.remaining - 1 == 0 then w.acts + [Act(OnDone, FireWith(values))] else w.acts)
    case Settle(_, Failed(e)) => w.(acts := w.acts + [Act(OnFail, FireWith([e]))])
    case OnMaster(which, event) => w.(acts := w.acts + [Act(which, event)])
  }

  /**
    Subordinates settle at most once (see Deferred.EveryCallbackRunsOnce); the promise offers no way to settle the
    master.
   */
  ghost predicate Possible(n: nat, hs: seq<Happening>) {
    && (forall k | 0 <= k < |hs| :: match hs[k]
          case Settle(i, _) => i < n
          case OnMaster(_, event) => FromUser(event) && !event.FireWith?)
    && (forall k, l | 0 <= k < l < |hs| :: hs[k].Settle? && hs[l].Settle? ==> hs[k].i != hs[l].i)
  }

  ghost function Aggregated(arguments: seq<Value>, hs: seq<Happening>): (w: Aggregate)
    requires Possible(|arguments|, hs)
    ensures |w.values| == |arguments|
  {
    if hs == [] then Start(arguments) else After(Aggregated(arguments, hs[..|hs| - 1]), hs[|hs| - 1])
  }

  // ---------------------------------------------------------------------------------------------
  // What the master must become

  /** The value of subordinate `i`, once it has resolved. */
  function ValueOf(hs: seq<Happening>, i: nat): Option<Value> {
    if hs == [] then None
    else
      var last := hs[|hs| - 1];
      if last.Settle? && last.i == i && last.outcome.Fulfilled? then Some(last.outcome.value)
      else ValueOf(hs[..|hs| - 1], i)
  }

  function FirstFailure(hs: seq<Happening>): Option<Value> {
    if hs == [] then None
    else
      var before, last := FirstFailure(hs[..|hs| - 1]), hs[|hs| - 1];
      if before.None? && last.Settle? && last.outcome.Failed? then Some(last.outcome.reason) else before
  }

  predicate AllResolved(n: nat, hs: seq<Happening>) {
    forall i: nat | i < n :: ValueOf(hs, i).Some?
  }

  function Values(n: nat, hs: seq<Happening>): seq<Value>
    requires AllResolved(n, hs)
  {
    seq(n, i requires 0 <= i < n => ValueOf(hs, i).value)
  }

  function Expected(n: nat, hs: seq<Happening>): Option<(Settlement, Args)> {
    if FirstFailure(hs).Some? then Some((Rejected, [FirstFailure(hs).value]))
    else if AllResolved(n, hs) then Some((Resolved, Values(n, hs)))
    else None
  }

  // ---------------------------------------------------------------------------------------------
  // Counting down `remaining`

  /** How many of the first `n` subordinates have resolved. */
  function ResolvedBelow(hs: seq<Happening>, n: nat): nat {
    if n == 0 then 0 else ResolvedBelow(hs, n - 1) + if ValueOf(hs, n - 1).Some? then 1 else 0
  }

  lemma {:induction false} AllResolvedIsAllCounted(n: nat, hs: seq<Happening>)
    ensures ResolvedBelow(hs, n) <= n
    ensures AllResolved(n, hs) <==> ResolvedBelow(hs, n) == n
  {
    if n > 0 {
      AllResolvedIsAllCounted(n - 1, hs);
      if AllResolved(n, hs) {
        assert AllResolved(n - 1, hs) && ValueOf(hs, n - 1).Some?;
      }
    }
  }

  predicate SettlesAt(hs: seq<Happening>, k: nat, i: nat) {
    k < |hs| && hs[k].Settle? && hs[k].i == i
  }

  lemma {:induction false} NoSettlementNoValue(hs: seq<Happening>, i: nat)
    requires forall k :: !SettlesAt(hs, k, i)
    ensures ValueOf(hs, i).None?
  {
    if hs != [] {
      var before := hs[..|hs| - 1];
      assert !SettlesAt(hs, |hs| - 1, i);
      forall k ensures !SettlesAt(before, k, i) {
        assert !SettlesAt(hs, k, i);
      }
      NoSettlementNoValue(before, i);
    }
  }

  /** The last settlement is about a subordinate that had not settled before. */
  lemma LastIsNew(n: nat, hs: seq<Happening>)
    requires Possible(n, hs) && hs != [] && hs[|hs| - 1].Settle?
    ensures ValueOf(hs[..|hs| - 1], hs[|hs| - 1].i).None?
  {
    var before, i := hs[..|hs| - 1], hs[|hs| - 1].i;
    assert forall k: nat | k < |before| :: before[k] == hs[k];
    forall k ensures !SettlesAt(before, k, i) {
    }
    NoSettlementNoValue(before, i);
  }

  lemma {:induction false} OneMoreResolved(hs: seq<Happening>, n: nat)
    requires hs != [] && hs[|hs| - 1].Settle? && ValueOf(hs[..|hs| - 1], hs[|hs| - 1].i).None?
    ensures var last := hs[|hs| - 1];
      ResolvedBelow(hs, n) == ResolvedBelow(hs[..|hs| - 1], n) + if last.outcome.Fulfilled? && last.i < n then 1 else 0
  {
    if n > 0 {
      OneMoreResolved(hs, n - 1);
    }
  }

  lemma {:induction false} NothingMoreResolved(hs: seq<Happening>, n: nat)
    requires hs != [] && !hs[|hs| - 1].Settle?
    ensures ResolvedBelow(hs, n) == ResolvedBelow(hs[..|hs| - 1], n)
  {
    if n > 0 {
      NothingMoreResolved(hs, n - 1);
    }
  }

  /** `remaining` counts the subordinates that have not resolved; the values of the others are in place. */
  lemma {:induction false} CountsResolutions(arguments: seq<Value>, hs: seq<Happening>)
    requires Possible(|arguments|, hs)
    ensures var w := Aggregated(arguments, hs);
      && w.remaining == |arguments| - ResolvedBelow(hs, |arguments|)
      && forall i: nat | i < |arguments| && ValueOf(hs, i).Some? :: w.values[i] == ValueOf(hs, i).value
  {
    if hs == [] {
      AllResolvedIsAllCounted(|arguments|, hs);
      NothingResolvedYet(|arguments|);
    } else {
      CountsResolutions(arguments, hs[..|hs| - 1]);
      if hs[|hs| - 1].Settle? {
        LastIsNew(|arguments|, hs);
        OneMoreResolved(hs, |arguments|);
      } else {
        NothingMoreResolved(hs, |arguments|);
      }
    }
  }

  lemma {:induction false} NothingResolvedYet(n: nat)
    ensures ResolvedBelow([], n) == 0
  {
    if n > 0 {
      NothingResolvedYet(n - 1);
    }
  }

  // ---------------------------------------------------------------------------------------------
  // The master does what it must

  function FailedIndex(hs: seq<Happening>): nat
    requires FirstFailure(hs).Some?
  {
    if FirstFailure(hs[..|hs| - 1]).Some? then FailedIndex(hs[..|hs| - 1]) else hs[|hs| - 1].i
  }

  /** A subordinate that failed never resolves, so not all of them do. */
  lemma {:induction false} FailureExcludesAll(n: nat, hs: seq<Happening>)
    requires Possible(n, hs) && FirstFailure(hs).Some?
    ensures FailedIndex(hs) < n && ValueOf(hs, FailedIndex(hs)).None?
    ensures exists k :: SettlesAt(hs, k, FailedIndex(hs))
    ensures !AllResolved(n, hs)
  {
    var before, last := hs[..|hs| - 1], hs[|hs| - 1];
    if FirstFailure(before).Some? {
      FailureExcludesAll(n, before);
      var k :| SettlesAt(before, k, FailedIndex(before));
      assert SettlesAt(hs, k, FailedIndex(hs));
    } else {
      LastIsNew(n, hs);
      assert SettlesAt(hs, |hs| - 1, FailedIndex(hs));
    }
  }

  lemma SameExpectation(n: nat, hs: seq<Happening>)
    requires hs != [] && hs[|hs| - 1].OnMaster?
    ensures Expected(n, hs) == Expected(n, hs[..|hs| - 1])
  {
    var before := hs[..|hs| - 1];
    assert forall i :: ValueOf(hs, i) == ValueOf(before, i);
    if AllResolved(n, hs) {
      assert Values(n, hs) == Values(n, before);
    }
  }

  lemma FirstSettlementSnoc(acts: seq<Act>, a: Act)
    ensures FirstSettlement(acts + [a]) ==
      if FirstSettlement(acts).None? && a.event.FireWith? && !a.which.OnProgress?
      then Some((SettlementOf(a.which), a.event.args))
      else FirstSettlement(acts)
  {
    assert (acts + [a])[..|acts|] == acts;
  }

  /** The first settlement that reaches the master is the expected one. */
  lemma {:induction false} MasterIsToldFirst(arguments: seq<Value>, hs: seq<Happening>)
    requires |arguments| >= 2 && Possible(|arguments|, hs)
    ensures FirstSettlement(Aggregated(arguments, hs).acts) == Expected(|arguments|, hs)
  {
    var n := |arguments|;
    if hs == [] {
      assert ValueOf(hs, 0).None?;
      return;
    }
    var before, last := hs[..|hs| - 1], hs[|hs| - 1];
    var w, r := Aggregated(arguments, before), Aggregated(arguments, hs);
    MasterIsToldFirst(arguments, before);
    if r.acts != w.acts {
      FirstSettlementSnoc(w.acts, r.acts[|w.acts|]);
    }
    match last
    case Settle(i, outcome) =>
      LastIsNew(n, hs);
      assert !AllResolved(n, before);
      CountsResolutions(arguments, hs);
      AllResolvedIsAllCounted(n, hs);
      if FirstFailure(hs).Some? {
        FailureExcludesAll(n, hs);
      } else if AllResolved(n, hs) {
        assert r.values == Values(n, hs);
      }
    case OnMaster(_, _) => SameExpectation(n, hs);
  }

  lemma {:induction false} MasterHearsUsers(arguments: seq<Value>, hs: seq<Happening>)
    requires Possible(|arguments|, hs)
    ensures AllFromUser(Aggregated(arguments, hs).acts)
  {
    if hs != [] {
      MasterHearsUsers(arguments, hs[..|hs| - 1]);
    }
  }

  /**
    For two or more arguments and every order of events: the master is rejected iff a subordinate was, with the
    first reason; it is resolved iff all subordinates resolved, with their values in argument order.
   */
  lemma MasterFollows(arguments: seq<Value>, hs: seq<Happening>)
    requires |arguments| >= 2 && Possible(|arguments|, hs)
    ensures var n, master := |arguments|, Master(Aggregated(arguments, hs));
      && (master.state == Rejected <==> FirstFailure(hs).Some?)
      && (master.state == Resolved <==> AllResolved(n, hs))
      && (forall c | c in master.fail.calls :: FirstFailure(hs).Some? && c.args == [FirstFailure(hs).value])
      && (forall c | c in master.done.calls :: AllResolved(n, hs) && c.args == Values(n, hs))
  {
    var acts := Aggregated(arguments, hs).acts;
    MasterIsToldFirst(arguments, hs);
    MasterHearsUsers(arguments, hs);
    FirstSettlementDecides(acts);
    if FirstFailure(hs).Some? {
      FailureExcludesAll(|arguments|, hs);
    }
    if FirstSettlement(acts).Some? {
      EveryCallbackRunsOnce(acts);
    }
  }

  // ---------------------------------------------------------------------------------------------
  // The object

  /** The settlements that `when` finds already made, from the last argument to the first. */
  function Adopted(found: seq<Option<Outcome>>, k: nat): seq<Happening>
    requires k <= |found|
    decreases |found| - k
  {
    if k == |found| then []
    else Adopted(found, k + 1) + if found[k].Some? then [Settle(k, found[k].value)] else []
  }

  lemma {:induction false} AdoptedIsPossible(found: seq<Option<Outcome>>, k: nat)
    requires k <= |found|
    ensures Possible(|found|, Adopted(found, k))
    ensures forall j | 0 <= j < |Adopted(found, k)| :: Adopted(found, k)[j].Settle? && k <= Adopted(found, k)[j].i
    decreases |found| - k
  {
    if k < |found| {
      AdoptedIsPossible(found, k + 1);
    }
  }

  /** The state after `when` has gone through the arguments down to `k`. */
  function AfterAdopting(arguments: seq<Value>, found: seq<Option<Outcome>>, k: nat): (w: Aggregate)
    requires k <= |found| == |arguments|
    ensures |w.values| == |arguments|
    decreases |found| - k
  {
    if k == |found| then Start(arguments)
    else if found[k].Some? then After(AfterAdopting(arguments, found, k + 1), Settle(k, found[k].value))
    else AfterAdopting(arguments, found, k + 1)
  }

  lemma {:induction false} AdoptingIsAggregating(arguments: seq<Value>, found: seq<Option<Outcome>>, k: nat)
    requires k <= |found| == |arguments|
    ensures Possible(|arguments|, Adopted(found, k))
    ensures AfterAdopting(arguments, found, k) == Aggregated(arguments, Adopted(found, k))
    decreases |found| - k
  {
    AdoptedIsPossible(found, k);
    if k < |found| {
      AdoptingIsAggregating(arguments, found, k + 1);
      var hs := Adopted(found, k + 1);
      if found[k].Some? {
        assert (hs + [Settle(k, found[k].value)])[..|hs|] == hs;
      } else {
        assert hs + [] == hs;
      }
    }
  }

  /** Of the arguments already rejected this is the last. */
  ghost predicate IsLastRejection(found: seq<Option<Outcome>>, i: nat) {
    && i < |found| && found[i].Some? && found[i].value.Failed?
    && forall j | i < j < |found| :: found[j].Some? ==> found[j].value.Fulfilled?
  }

  /** Adoption comes to it first. */
  lemma {:induction false} LastRejectionIsFirst(found: seq<Option<Outcome>>, i: nat, k: nat)
    requires IsLastRejection(found, i) && k <= |found|
    ensures FirstFailure(Adopted(found, k)) == if k <= i then Some(found[i].value.reason) else None
    decreases |found| - k
  {
    if k < |found| {
      LastRejectionIsFirst(found, i, k + 1);
      var rest := Adopted(found, k + 1);
      if found[k].Some? {
        assert (rest + [Settle(k, found[k].value)])[..|rest|] == rest;
      } else {
        assert rest + [] == rest;
      }
    }
  }

  class WhenCall {
    var remaining: int
    const resolveValues: array<Value>
    const master: DeferredObject
    ghost var acts: seq<Act>

    ghost predicate Valid()
      reads this, resolveValues, master, master.done, master.fail, master.progress
    {
      master.Valid() && master.Model() == Deferred.Run(acts)
    }

    ghost function Model(): Aggregate
      reads this, resolveValues
    {
      Aggregate(remaining, resolveValues[..], acts)
    }

    /** `when` over arguments of which some have settled before. A plain value counts as resolved with itself. */
    constructor (arguments: seq<Value>, found: seq<Option<Outcome>>)
      requires |found| == |arguments| >= 2
      ensures Valid() && Possible(|arguments|, Adopted(found, 0)) && Model() == Aggregated(arguments, Adopted(found, 0))
      ensures forall i: nat | IsLastRejection(found, i) ::
        FirstSettlement(acts) == Some((Rejected, [found[i].value.reason])) && master.state == Rejected
    {
      remaining, acts := |arguments|, [];
      resolveValues := new Value[|arguments|](i requires 0 <= i < |arguments| => arguments[i]);
      master := new DeferredObject();
      new;
      assert resolveValues[..] == arguments;
      var i := |arguments|;
      while i > 0
        invariant 0 <= i <= |arguments| && Valid() && fresh(resolveValues) && fresh(master)
        invariant fresh(master.done) && fresh(master.fail) && fresh(master.progress)
        invariant Model() == AfterAdopting(arguments, found, i)
      {
        i := i - 1;
        if found[i].Some? {
          Settled(i, found[i].value);
        }
      }
      AdoptingIsAggregating(arguments, found, 0);
      MasterIsToldFirst(arguments, Adopted(found, 0));
      MasterFollows(arguments, Adopted(found, 0));
      forall i: nat | IsLastRejection(found, i)
        ensures FirstFailure(Adopted(found, 0)) == Some(found[i].value.reason)
      {
        LastRejectionIsFirst(found, i, 0);
      }
    }

    /** A callback that `when` gave to subordinate `i` runs: `updateFunc( i )` or `master.reject`. */
    method Settled(i: nat, outcome: Outcome)
      requires Valid() && i < resolveValues.Length
      modifies this, resolveValues, master, master.done, master.fail, master.progress
      ensures Valid() && Model() == After(old(Model()), Settle(i, outcome))
    {
      match outcome
      case Fulfilled(value) =>
        resolveValues[i] := value;
        remaining := remaining - 1;
        if remaining == 0 {
          TellMaster(OnDone, resolveValues[..]);
        }
      case Failed(reason) =>
        TellMaster(OnFail, [reason]);
    }

    method TellMaster(which: Which, args: Args)
      requires Valid()
      modifies this`acts, master, master.done, master.fail, master.progress
      ensures Valid() && acts == old(acts) + [Act(which, FireWith(args))]
    {
      master.FireWith(which, args);
      acts := acts + [Act(which, FireWith(args))];
      assert acts[..|acts| - 1] == old(acts);
    }

    /** A user of the promise that `when` returned adds callbacks to it. */
    method AddToPromise(which: Which, fns: seq<Fn>)
      requires Valid()
      modifies this`acts, master, master.done, master.fail, master.progress
      ensures Valid() && Model() == After(old(Model()), OnMaster(which, Event.Add(fns)))
    {
      master.Add(which, fns);
      acts := acts + [Act(which, Event.Add(fns))];
      assert acts[..|acts| - 1] == old(acts);
    }

    /** A user callback of that promise returns. */
    method ReturnFromPromise(which: Which)
      requires Valid()
      modifies this`acts, master, master.done, master.fail, master.progress
      ensures Valid() && Model() == After(old(Model()), OnMaster(which, Event.Return(false)))
    {
      master.Return(which);
      acts := acts + [Act(which, Event.Return(false))];
      assert acts[..|acts| - 1] == old(acts);
    }
  }
}
