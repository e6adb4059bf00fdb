/**
  The animator of the debugger's page: it shows the frames of animations one timeout at a time, keeps at most
  `MAX_ANIMATIONS` budgeted ones going, and lets an animation replace the one with the same label. Both are done by
  wrapping the animation's `onComplete`; the wrappers are data here.
 */
module Animator {
  import opened Wrappers

  const MAX_ANIMATIONS := 32

  /** An `onComplete`: the animation's own, or one the animator has put around another. */
  datatype Callback = Own | Budget(inner: Callback) | Label(tag: nat, inner: Callback)

  /** What the animator keeps, for animations of type A. */
  datatype Desk<A> = Desk(total: int, labeled: map<nat, A>)

  /** An animation, then its history: how often its own callbacks have been called, and the frames it has shown. */
  datatype Show = Show(
    frame: int, totalFrames: int, onStart: bool, onComplete: Option<Callback>,
    starts: nat, completes: nat, shown: seq<int>)

  function NewShow(totalFrames: int): Show {
    Show(0, totalFrames, true, Some(Own), 0, 0, [])
  }

  /** Calling a callback of animation `a`: what becomes of the desk, and whether the animation's own is called. */
  function Called<A(==)>(d: Desk<A>, a: A, callback: Callback): (Desk<A>, bool)
    decreases callback
  {
    match callback
    case Own => (d, true)
    case Budget(inner) => Called(d.(total := d.total - 1), a, inner)
    case Label(tag, inner) =>
      if tag in d.labeled && d.labeled[tag] == a then Called(d.(labeled := d.labeled - {tag}), a, inner)
      else (d, false)
  }

  function Completed(s: Show, own: bool): Show {
    s.(completes := s.completes + if own then 1 else 0)
  }

  /** `Animation.stop` */
  function Stopped<A(==)>(d: Desk<A>, a: A, s: Show): (Desk<A>, Show) {
    match s.onComplete
    case None => (d, s.(frame := s.totalFrames))
    case Some(callback) =>
      var (e, own) := Called(d, a, callback);
      (e, Completed(s, own).(frame := s.totalFrames, onComplete := None))
  }

  function Begun(s: Show): Show {
    if s.onStart then s.(starts := s.starts + 1, onStart := false) else s
  }

  /** `Animation.nextFrame`; it wants another frame iff it had this one. */
  function Advanced<A(==)>(d: Desk<A>, a: A, s: Show): (Desk<A>, Show) {
    if s.frame < s.totalFrames then (d, Begun(s).(frame := s.frame + 1, shown := s.shown + [s.frame]))
    else Stopped(d, a, Begun(s))
  }

  /** `Animator.startBudgeted` of an animation with its callbacks set */
  function Admitted<A(==)>(d: Desk<A>, a: A, s: Show): (Desk<A>, Show)
    requires s.onComplete.Some?
  {
    if d.total < MAX_ANIMATIONS then
      Advanced(d.(total := d.total + 1), a, s.(onComplete := Some(Budget(s.onComplete.value))))
    else
      var (e, own) := Called(d, a, s.onComplete.value);
      (e, Completed(s.(starts := s.starts + 1), own))
  }

  // ---------------------------------------------------------------------------------------------
  // A page full of animations

  datatype Kind = Plain | Budgeted | Labeled(tag: nat, budgeted: bool)

  /** How an animation was started, and whether it was over budget or another one has taken its label. */
  datatype Entry = Entry(show: Show, kind: Kind, refused: bool, replaced: bool)

  /** Animations are numbered as they are started; `pending` are the ones with a timeout for their next frame. */
  datatype Page = Page(desk: Desk<nat>, entries: seq<Entry>, pending: set<nat>)

  const EMPTY_PAGE := Page(Desk(0, map[]), [], {})

  datatype Event = Start(totalFrames: int, kind: Kind) | Tick(id: nat)

  /** `start`, and each later call of its `nextFrame` */
  function Play(p: Page, id: nat): Page
    requires id < |p.entries|
  {
    var e := p.entries[id];
    var (desk, show) := Advanced(p.desk, id, e.show);
    Page(desk, p.entries[id := e.(show := show)],
         if e.show.frame < e.show.totalFrames then p.pending + {id} else p.pending - {id})
  }

  function StartBudgeted(p: Page, id: nat): Page
    requires id < |p.entries| && p.entries[id].show.onComplete.Some?
  {
    var e := p.entries[id];
    var (desk, show) := Admitted(p.desk, id, e.show);
    var refused := p.desk.total >= MAX_ANIMATIONS;
    Page(desk, p.entries[id := e.(show := show, refused := refused)],
         if !refused && e.show.frame < e.show.totalFrames then p.pending + {id} else p.pending)
  }

  /** Stopping whatever carries the label. */
  function StopLabeled(p: Page, tag: nat): Page {
    if tag in p.desk.labeled && p.desk.labeled[tag] < |p.entries| then
      var earlier := p.desk.labeled[tag];
      var (desk, show) := Stopped(p.desk, earlier, p.entries[earlier].show);
      p.(desk := desk, entries := p.entries[earlier := p.entries[earlier].(show := show, replaced := true)])
    else p
  }

  function Next(p: Page, event: Event): Page {
    match event
    case Tick(id) => if id in p.pending && id < |p.entries| then Play(p, id) else p
    case Start(totalFrames, kind) =>
      var id := |p.entries|;
      var e := Entry(NewShow(totalFrames), kind, false, false);
      match kind
      case Plain => Play(p.(entries := p.entries + [e]), id)
      case Budgeted => StartBudgeted(p.(entries := p.entries + [e]), id)
      case Labeled(tag, budgeted) =>
        var q := StopLabeled(p, tag);
        var marked := e.(show := e.show.(onComplete := Some(Label(tag, Own))));
        var r := q.(entries := q.entries + [marked], desk := q.desk.(labeled := q.desk.labeled[tag := id]));
        if budgeted then StartBudgeted(r, |q.entries|) else Play(r, |q.entries|)
  }

  function Execute(p: Page, events: seq<Event>): Page
    decreases |events|
  {
    if events == [] then p else Next(Execute(p, events[..|events| - 1]), events[|events| - 1])
  }

  // ---------------------------------------------------------------------------------------------
  // What every event keeps

  function Wrapped(kind: Kind): Callback {
    match kind
    case Plain => Own
    case Budgeted => Budget(Own)
    case Labeled(tag, budgeted) => if budgeted then Budget(Label(tag, Own)) else Label(tag, Own)
  }

  predicate IsBudgeted(kind: Kind) {
    kind == Budgeted || (kind.Labeled? && kind.budgeted)
  }

  predicate Unfinished(e: Entry) {
    e.show.onComplete.Some? && !e.refused
  }

  /** How many budgeted animations are not finished. */
  function CountBudgeted(entries: seq<Entry>): nat {
    if entries == [] then 0
    else CountBudgeted(entries[..|entries| - 1]) + Weight(entries[|entries| - 1])
  }

  function Weight(e: Entry): nat {
    if Unfinished(e) && IsBudgeted(e.kind) then 1 else 0
  }

  predicate EntryOk(p: Page, id: nat)
    requires id < |p.entries|
  {
    var e := p.entries[id];
    && e.show.starts == 1
    && e.show.completes == (if Unfinished(e) then 0 else 1)
    && (Unfinished(e) ==> e.show.onComplete == Some(Wrapped(e.kind)) && id in p.pending)
    && (id in p.pending ==> !e.refused && !e.show.onStart)
    && (e.show.onComplete == None ==> e.show.frame >= e.show.totalFrames)
    && (Unfinished(e) && e.kind.Labeled? ==> e.kind.tag in p.desk.labeled && p.desk.labeled[e.kind.tag] == id)
  }

  predicate LabelOk(p: Page, tag: nat)
    requires tag in p.desk.labeled
  {
    var id := p.desk.labeled[tag];
    id < |p.entries| && Unfinished(p.entries[id]) && p.entries[id].kind.Labeled? && p.entries[id].kind.tag == tag
  }

  ghost predicate Ok(p: Page) {
    && (forall id: nat | id < |p.entries| :: EntryOk(p, id))
    && (forall tag | tag in p.desk.labeled :: LabelOk(p, tag))
    && (forall id | id in p.pending :: id < |p.entries|)
    && p.desk.total == CountBudgeted(p.entries) <= MAX_ANIMATIONS
  }

  lemma {:induction false} CountChanges(entries: seq<Entry>, id: nat, e: Entry)
    requires id < |entries|
    ensures CountBudgeted(entries[id := e]) == CountBudgeted(entries) - Weight(entries[id]) + Weight(e)
  {
    var init := entries[..|entries| - 1];
    if id == |entries| - 1 {
      assert entries[id := e][..|entries| - 1] == init;
    } else {
      CountChanges(init, id, e);
      assert entries[id := e][..|entries| - 1] == init[id := e];
    }
  }

  lemma CountOneMore(entries: seq<Entry>, e: Entry)
    ensures CountBudgeted(entries + [e]) == CountBudgeted(entries) + Weight(e)
  {
    assert (entries + [e])[..|entries|] == entries;
  }

  /** An animation ends: its own callback is called, its slot and its label are free again. */
  lemma CompletionFrees(d: Desk<nat>, id: nat, kind: Kind)
    requires kind.Labeled? ==> kind.tag in d.labeled && d.labeled[kind.tag] == id
    ensures Called(d, id, Wrapped(kind)) ==
      (Desk(d.total - if IsBudgeted(kind) then 1 else 0,
            if kind.Labeled? then d.labeled - {kind.tag} else d.labeled), true)
  {
    if IsBudgeted(kind) {
      RefusalFrees(d.(total := d.total - 1), id, kind);
    } else if kind.Labeled? {
      assert Called(d.(labeled := d.labeled - {kind.tag}), id, Own).1;
    }
  }

  /** The same for one over budget, which has not been given a slot. */
  lemma RefusalFrees(d: Desk<nat>, id: nat, kind: Kind)
    requires IsBudgeted(kind)
    requires kind.Labeled? ==> kind.tag in d.labeled && d.labeled[kind.tag] == id
    ensures Called(d, id, Wrapped(kind).inner) ==
      (d.(labeled := if kind.Labeled? then d.labeled - {kind.tag} else d.labeled), true)
  {
    if kind.Labeled? {
      assert Called(d.(labeled := d.labeled - {kind.tag}), id, Own).1;
    }
  }

  /** An entry that is about to play: started just now, or ticked. */
  predicate Playing(p: Page, id: nat)
    requires id < |p.entries|
  {
    var e := p.entries[id];
    && !e.refused
    && e.show.starts == (if e.show.onStart then 0 else 1)
    && e.show.completes == (if e.show.onComplete.Some? then 0 else 1)
    && (e.show.onComplete == None ==> e.show.frame >= e.show.totalFrames)
    && (e.show.onComplete.Some? ==>
          && e.show.onComplete.value == Wrapped(e.kind)
          && (e.kind.Labeled? ==> e.kind.tag in p.desk.labeled && p.desk.labeled[e.kind.tag] == id))
  }

  /** All is well but for the entry that has just been added. */
  ghost predicate OkBut(p: Page, id: nat) {
    && (forall other: nat | other < |p.entries| && other != id :: EntryOk(p, other))
    && (forall tag | tag in p.desk.labeled :: LabelOk(p, tag))
    && (forall other | other in p.pending :: other < |p.entries|)
  }

  lemma PlayKeepsOk(p: Page, id: nat)
    requires id < |p.entries| && OkBut(p, id) && Playing(p, id)
    requires p.desk.total == CountBudgeted(p.entries) <= MAX_ANIMATIONS
    ensures Ok(Play(p, id))
  {
    var q := Play(p, id);
    var e := p.entries[id];
    if e.show.frame >= e.show.totalFrames && e.show.onComplete.Some? {
      CompletionFrees(p.desk, id, e.kind);
    }
    CountChanges(p.entries, id, q.entries[id]);
    forall tag | tag in q.desk.labeled ensures LabelOk(q, tag) {
      assert LabelOk(p, tag);
    }
    forall other: nat | other < |q.entries| ensures EntryOk(q, other) {
      assert other != id ==> EntryOk(p, other);
    }
  }

  lemma StopKeepsOk(p: Page, tag: nat)
    requires Ok(p)
    ensures Ok(StopLabeled(p, tag)) && tag !in StopLabeled(p, tag).desk.labeled
    ensures |StopLabeled(p, tag).entries| == |p.entries| && StopLabeled(p, tag).pending == p.pending
  {
    if tag in p.desk.labeled {
      assert LabelOk(p, tag);
      var earlier := p.desk.labeled[tag];
      assert EntryOk(p, earlier);
      CompletionFrees(p.desk, earlier, p.entries[earlier].kind);
      var q := StopLabeled(p, tag);
      CountChanges(p.entries, earlier, q.entries[earlier]);
      forall other | other in q.desk.labeled ensures LabelOk(q, other) {
        assert LabelOk(p, other);
      }
      forall id: nat | id < |q.entries| ensures EntryOk(q, id) {
        assert EntryOk(p, id);
      }
    }
  }

  /** An entry that is about to be started with a budget. */
  ghost predicate AtTheGate(p: Page, id: nat, inner: Callback) {
    && id < |p.entries| && OkBut(p, id) && id !in p.pending
    && p.desk.total + 1 == CountBudgeted(p.entries) && p.desk.total <= MAX_ANIMATIONS
    && var e := p.entries[id];
      && !e.refused && e.show.onStart && e.show.starts == 0 && e.show.completes == 0
      && e.show.onComplete == Some(inner) && Wrapped(e.kind) == Budget(inner) && IsBudgeted(e.kind)
      && (e.kind.Labeled? ==> e.kind.tag in p.desk.labeled && p.desk.labeled[e.kind.tag] == id)
  }

  /** The page on which a budgeted animation plays: it has taken its slot. */
  function WithSlot(p: Page, id: nat, inner: Callback): Page
    requires id < |p.entries|
  {
    var e := p.entries[id];
    p.(desk := p.desk.(total := p.desk.total + 1),
       entries := p.entries[id := e.(show := e.show.(onComplete := Some(Budget(inner))))])
  }

  lemma AdmittedPlays(p: Page, id: nat, inner: Callback)
    requires AtTheGate(p, id, inner) && p.desk.total < MAX_ANIMATIONS
    ensures StartBudgeted(p, id) == Play(WithSlot(p, id, inner), id)
  {
    var v, u := StartBudgeted(p, id), Play(WithSlot(p, id, inner), id);
    assert v.entries == u.entries && v.pending == u.pending;
  }

  lemma AdmittedKeepsOk(p: Page, id: nat, inner: Callback)
    requires AtTheGate(p, id, inner) && p.desk.total < MAX_ANIMATIONS
    ensures Ok(StartBudgeted(p, id))
  {
    hide Play, StartBudgeted, CountBudgeted;
    AdmittedPlays(p, id, inner);
    var q := WithSlot(p, id, inner);
    CountChanges(p.entries, id, q.entries[id]);
    forall tag | tag in q.desk.labeled ensures LabelOk(q, tag) {
      assert LabelOk(p, tag);
    }
    forall other: nat | other < |q.entries| && other != id ensures EntryOk(q, other) {
      assert EntryOk(p, other);
    }
    PlayKeepsOk(q, id);
  }

  lemma RefusedKeepsOk(p: Page, id: nat, inner: Callback)
    requires AtTheGate(p, id, inner) && p.desk.total >= MAX_ANIMATIONS
    ensures Ok(StartBudgeted(p, id))
  {
    var q := StartBudgeted(p, id);
    RefusalFrees(p.desk, id, p.entries[id].kind);
    CountChanges(p.entries, id, q.entries[id]);
    forall tag | tag in q.desk.labeled ensures LabelOk(q, tag) {
      assert LabelOk(p, tag);
    }
    forall other: nat | other < |q.entries| ensures EntryOk(q, other) {
      assert other != id ==> EntryOk(p, other);
    }
  }

  lemma StartBudgetedKeepsOk(p: Page, id: nat, inner: Callback)
    requires AtTheGate(p, id, inner)
    ensures Ok(StartBudgeted(p, id))
  {
    if p.desk.total < MAX_ANIMATIONS {
      AdmittedKeepsOk(p, id, inner);
    } else {
      RefusedKeepsOk(p, id, inner);
    }
  }

  /** Adding an entry, with its tag if it has one. */
  lemma AddingIsOkBut(p: Page, e: Entry, labeled: map<nat, nat>)
    requires Ok(p) && Unfinished(e)
    requires labeled == if e.kind.Labeled? then p.desk.labeled[e.kind.tag := |p.entries|] else p.desk.labeled
    requires e.kind.Labeled? ==> e.kind.tag !in p.desk.labeled
    ensures OkBut(p.(entries := p.entries + [e], desk := p.desk.(labeled := labeled)), |p.entries|)
    ensures |p.entries| !in p.pending
    ensures CountBudgeted(p.entries + [e]) == CountBudgeted(p.entries) + Weight(e)
  {
    var q := p.(entries := p.entries + [e], desk := p.desk.(labeled := labeled));
    CountOneMore(p.entries, e);
    forall tag | tag in q.desk.labeled ensures LabelOk(q, tag) {
      assert tag in p.desk.labeled ==> LabelOk(p, tag);
    }
    forall other: nat | other < |q.entries| && other != |p.entries| ensures EntryOk(q, other) {
      assert EntryOk(p, other);
    }
  }

  lemma NextKeepsOk(p: Page, event: Event)
    requires Ok(p)
    ensures Ok(Next(p, event))
  {
    match event {
      case Tick(id) =>
        if id in p.pending {
          assert EntryOk(p, id);
          PlayKeepsOk(p, id);
        }
      case Start(totalFrames, kind) =>
        var e := Entry(NewShow(totalFrames), kind, false, false);
        match kind {
          case Plain =>
            AddingIsOkBut(p, e, p.desk.labeled);
            PlayKeepsOk(p.(entries := p.entries + [e]), |p.entries|);
          case Budgeted =>
            AddingIsOkBut(p, e, p.desk.labeled);
            StartBudgetedKeepsOk(p.(entries := p.entries + [e]), |p.entries|, Own);
          case Labeled(tag, budgeted) => StartLabeledKeepsOk(p, e);
        }
    }
  }

  lemma StartLabeledKeepsOk(p: Page, e: Entry)
    requires Ok(p) && e.kind.Labeled? && e == Entry(NewShow(e.show.totalFrames), e.kind, false, false)
    ensures Ok(Next(p, Start(e.show.totalFrames, e.kind)))
  {
    var tag := e.kind.tag;
    StopKeepsOk(p, tag);
    var q := StopLabeled(p, tag);
    var marked := e.(show := e.show.(onComplete := Some(Label(tag, Own))));
    var labeled := q.desk.labeled[tag := |q.entries|];
    AddingIsOkBut(q, marked, labeled);
    var r := q.(entries := q.entries + [marked], desk := q.desk.(labeled := labeled));
    if e.kind.budgeted {
      StartBudgetedKeepsOk(r, |q.entries|, Label(tag, Own));
    } else {
      PlayKeepsOk(r, |q.entries|);
    }
  }

  lemma {:induction false} RunKeepsOk(p: Page, events: seq<Event>)
    requires Ok(p)
    ensures Ok(Execute(p, events)) && |p.entries| <= |Execute(p, events).entries|
  {
    if events != [] {
      var q := Execute(p, events[..|events| - 1]);
      RunKeepsOk(p, events[..|events| - 1]);
      NextKeepsOk(q, events[|events| - 1]);
    }
  }

  // ---------------------------------------------------------------------------------------------
  // Whole runs

  /**
    In every run, `totalAnimations` is the number of unfinished budgeted animations, between 0 and the maximum;
    every animation has been started once, and its own `onComplete` called once iff it is finished, replaced or
    over budget; one that is not finished will get another timeout, and one that is shows no frame if it does.
   */
  lemma EveryRunIsSafe(events: seq<Event>, id: nat)
    requires id < |Execute(EMPTY_PAGE, events).entries|
    ensures var p := Execute(EMPTY_PAGE, events);
      var e := p.entries[id];
      && 0 <= p.desk.total == CountBudgeted(p.entries) <= MAX_ANIMATIONS
      && e.show.starts == 1
      && e.show.completes == (if Unfinished(e) then 0 else 1)
      && (Unfinished(e) ==> id in p.pending)
      && (!Unfinished(e) && id in p.pending ==> e.show.frame >= e.show.totalFrames)
  {
    EmptyPageIsOk();
    RunKeepsOk(EMPTY_PAGE, events);
    assert EntryOk(Execute(EMPTY_PAGE, events), id);
  }

  lemma EmptyPageIsOk()
    ensures Ok(EMPTY_PAGE)
  {
  }

  /** At most one animation carries a label. */
  lemma LabelsAreExclusive(events: seq<Event>, i: nat, j: nat)
    requires var es := Execute(EMPTY_PAGE, events).entries;
      && i < |es| && j < |es| && Unfinished(es[i]) && Unfinished(es[j])
      && es[i].kind.Labeled? && es[j].kind.Labeled? && es[i].kind.tag == es[j].kind.tag
    ensures i == j
  {
    EmptyPageIsOk();
    RunKeepsOk(EMPTY_PAGE, events);
    var p := Execute(EMPTY_PAGE, events);
    assert EntryOk(p, i) && EntryOk(p, j);
  }

  /** How many more of its timeouts an animation needs. */
  function Remaining(p: Page, id: nat): nat
    requires id < |p.entries|
  {
    var show := p.entries[id].show;
    if !Unfinished(p.entries[id]) then 0
    else if show.frame < show.totalFrames then show.totalFrames - show.frame + 1
    else 1
  }

  function Ticks(events: seq<Event>, id: nat): nat {
    if events == [] then 0
    else Ticks(events[..|events| - 1], id) + if events[|events| - 1] == Tick(id) then 1 else 0
  }

  lemma TickIsProgress(p: Page, event: Event, id: nat)
    requires Ok(p) && id < |p.entries|
    ensures id < |Next(p, event).entries|
    ensures Remaining(Next(p, event), id) <= Remaining(p, id)
    ensures event == Tick(id) && Remaining(p, id) > 0 ==> Remaining(Next(p, event), id) < Remaining(p, id)
  {
    assert EntryOk(p, id);
  }

  /** Whatever else is started or replaced meanwhile, an animation that gets its timeouts ends. */
  lemma {:induction false} EveryAnimationEnds(p: Page, events: seq<Event>, id: nat)
    requires Ok(p) && id < |p.entries|
    ensures var q := Execute(p, events);
      && id < |q.entries|
      && (Ticks(events, id) <= Remaining(p, id) ==> Remaining(q, id) <= Remaining(p, id) - Ticks(events, id))
      && (Ticks(events, id) >= Remaining(p, id) ==> !Unfinished(q.entries[id]) && q.entries[id].show.completes == 1)
  {
    RunKeepsOk(p, events);
    if events != [] {
      var init := events[..|events| - 1];
      EveryAnimationEnds(p, init, id);
      RunKeepsOk(p, init);
      TickIsProgress(Execute(p, init), events[|events| - 1], id);
    }
    assert EntryOk(Execute(p, events), id);
  }

  // ---------------------------------------------------------------------------------------------
  // Which frames are shown

  function Upto(m: nat): (frames: seq<int>)
    ensures |frames| == m && forall k | 0 <= k < m :: frames[k] == k
  {
    seq(m, k => k)
  }

  function FramesOf(show: Show): nat {
    if show.totalFrames < 0 then 0 else show.totalFrames
  }

  /** The timeouts that an animation has had: ticks while it was pending. */
  function Timeouts(events: seq<Event>, id: nat): nat {
    if events == [] then 0
    else
      var init := events[..|events| - 1];
      Timeouts(init, id) + if events[|events| - 1] == Tick(id) && id in Execute(EMPTY_PAGE, init).pending then 1 else 0
  }

  /** The frames shown so far are the first ones, in order; an animation that ends by itself has shown all of them. */
  predicate FramesOk(e: Entry, timeouts: nat) {
    var m := |e.show.shown|;
    && e.show.shown == Upto(m) && m <= FramesOf(e.show)
    && (e.refused ==> m == 0)
    && (Unfinished(e) ==> !e.replaced && e.show.frame == m == timeouts + 1)
    && (!Unfinished(e) && !e.refused && !e.replaced ==> m == FramesOf(e.show) == timeouts)
  }

  /** One that has ended by itself gets no more timeouts. */
  predicate ShownOk(p: Page, id: nat, timeouts: nat)
    requires id < |p.entries|
  {
    FramesOk(p.entries[id], timeouts) && (!Unfinished(p.entries[id]) && id in p.pending ==> p.entries[id].replaced)
  }

  /** One more frame, or the end. */
  lemma PlayShows(p: Page, id: nat, timeouts: nat)
    requires id < |p.entries| && Unfinished(p.entries[id]) && !p.entries[id].replaced
    requires var show := p.entries[id].show; show.shown == Upto(timeouts) && show.frame == timeouts <= FramesOf(show)
    ensures ShownOk(Play(p, id), id, timeouts)
  {
    assert Upto(timeouts) + [timeouts as int] == Upto(timeouts + 1);
  }

  lemma StartBudgetedShows(p: Page, id: nat)
    requires id < |p.entries| && Unfinished(p.entries[id]) && !p.entries[id].replaced && id !in p.pending
    requires p.entries[id].show.shown == [] && p.entries[id].show.frame == 0
    ensures ShownOk(StartBudgeted(p, id), id, 0)
  {
    assert Upto(0) + [0] == Upto(1);
  }

  lemma OthersStay(p: Page, id: nat)
    requires id < |p.entries| && p.entries[id].show.onComplete.Some?
    ensures |Play(p, id).entries| == |StartBudgeted(p, id).entries| == |p.entries|
    ensures forall other: nat | other < |p.entries| && other != id ::
      && Play(p, id).entries[other] == p.entries[other] && StartBudgeted(p, id).entries[other] == p.entries[other]
      && (other in Play(p, id).pending <==> other in p.pending)
      && (other in StartBudgeted(p, id).pending <==> other in p.pending)
  {
  }

  /** What an animation starts as: added, with its label. */
  function Added(p: Page, totalFrames: int, kind: Kind): Page {
    var id, e := |p.entries|, Entry(NewShow(totalFrames), kind, false, false);
    match kind
    case Labeled(tag, _) =>
      var s := StopLabeled(p, tag);
      var marked := e.(show := e.show.(onComplete := Some(Label(tag, Own))));
      s.(entries := s.entries + [marked], desk := s.desk.(labeled := s.desk.labeled[tag := id]))
    case _ => p.(entries := p.entries + [e])
  }

  lemma StartAdds(p: Page, totalFrames: int, kind: Kind)
    requires Ok(p)
    ensures var q, id := Added(p, totalFrames, kind), |p.entries|;
      && |q.entries| == id + 1 && id !in q.pending && q.desk.total == CountBudgeted(q.entries[..id])
      && Unfinished(q.entries[id]) && !q.entries[id].replaced
      && q.entries[id].show.shown == [] && q.entries[id].show.frame == 0
      && Next(p, Start(totalFrames, kind)) == if IsBudgeted(kind) then StartBudgeted(q, id) else Play(q, id)
  {
    hide Play, StartBudgeted, StopLabeled;
    var id, q := |p.entries|, Added(p, totalFrames, kind);
    if kind.Labeled? {
      StopKeepsOk(p, kind.tag);
      assert q.entries[..id] == StopLabeled(p, kind.tag).entries;
    } else {
      assert q.entries[..id] == p.entries;
    }
  }

  /** A new animation shows its first frame at once, if it has one and is not refused; the others go on. */
  lemma StartShows(p: Page, totalFrames: int, kind: Kind, other: nat, timeouts: nat)
    requires Ok(p)
    requires other <= |p.entries| && if other < |p.entries| then ShownOk(p, other, timeouts) else timeouts == 0
    ensures |Next(p, Start(totalFrames, kind)).entries| == |p.entries| + 1
    ensures ShownOk(Next(p, Start(totalFrames, kind)), other, timeouts)
  {
    hide Play, StartBudgeted, FramesOk, StopLabeled, Next;
    var id, q := |p.entries|, Added(p, totalFrames, kind);
    StartAdds(p, totalFrames, kind);
    OthersStay(q, id);
    StartBudgetedShows(q, id);
    PlayShows(q, id, 0);
    if kind.Labeled? {
      StopShowsNothing(p, kind.tag, other, timeouts);
      StopKeepsOk(p, kind.tag);
    }
  }

  /** Taking a label shows nothing; the animation that had it is replaced. */
  lemma StopShowsNothing(p: Page, tag: nat, id: nat, timeouts: nat)
    requires Ok(p) && id < |p.entries| ==> ShownOk(p, id, timeouts)
    requires Ok(p)
    ensures |StopLabeled(p, tag).entries| == |p.entries|
    ensures id < |p.entries| ==> ShownOk(StopLabeled(p, tag), id, timeouts)
  {
    if tag in p.desk.labeled {
      assert LabelOk(p, tag);
    }
  }

  /** A timeout. */
  lemma TickShows(p: Page, other: nat, id: nat, timeouts: nat)
    requires Ok(p) && id < |p.entries| && ShownOk(p, id, timeouts)
    ensures id < |Next(p, Tick(other)).entries|
    ensures ShownOk(Next(p, Tick(other)), id, timeouts + if other == id && id in p.pending then 1 else 0)
  {
    if other in p.pending {
      if other == id && Unfinished(p.entries[id]) {
        PlayShows(p, id, timeouts + 1);
      } else {
        assert EntryOk(p, other);
      }
    }
  }

  lemma {:induction false} TimeoutsComeAfterStart(events: seq<Event>, id: nat)
    requires id >= |Execute(EMPTY_PAGE, events).entries|
    ensures Timeouts(events, id) == 0
  {
    EmptyPageIsOk();
    if events != [] {
      var init := events[..|events| - 1];
      RunKeepsOk(EMPTY_PAGE, init);
      RunKeepsOk(Execute(EMPTY_PAGE, init), [events[|events| - 1]]);
      assert [events[|events| - 1]][..0] == [];
      TimeoutsComeAfterStart(init, id);
    }
  }

  /**
    In every run: the frames an animation has shown are 0, 1, 2 and so on, in order. While it goes on it has shown one
    more than it has had timeouts; when it has ended by itself it has shown all its frames, with as many timeouts; and
    one that was refused has shown none.
   */
  lemma {:induction false} FramesAreShownInOrder(events: seq<Event>, id: nat)
    requires id < |Execute(EMPTY_PAGE, events).entries|
    ensures ShownOk(Execute(EMPTY_PAGE, events), id, Timeouts(events, id))
  {
    var init, last := events[..|events| - 1], events[|events| - 1];
    var p := Execute(EMPTY_PAGE, init);
    EmptyPageIsOk();
    RunKeepsOk(EMPTY_PAGE, init);
    if id < |p.entries| {
      FramesAreShownInOrder(init, id);
    } else {
      TimeoutsComeAfterStart(init, id);
    }
    match last
    case Start(totalFrames, kind) =>
      StartAdds(p, totalFrames, kind);
      OthersStay(Added(p, totalFrames, kind), |p.entries|);
      StartShows(p, totalFrames, kind, id, Timeouts(init, id));
    case Tick(other) => TickShows(p, other, id, Timeouts(init, id));
  }

  /** An animation is refused iff it is budgeted and as many others as the budget allows are unfinished. */
  lemma RefusedIffNoBudget(p: Page, totalFrames: int, kind: Kind)
    requires Ok(p)
    ensures var q := Next(p, Start(totalFrames, kind));
      && |q.entries| == |p.entries| + 1
      && (q.entries[|p.entries|].refused <==>
            IsBudgeted(kind) && CountBudgeted(q.entries[..|p.entries|]) >= MAX_ANIMATIONS)
  {
    var id, q := |p.entries|, Added(p, totalFrames, kind);
    StartAdds(p, totalFrames, kind);
    OthersStay(q, id);
    assert Next(p, Start(totalFrames, kind)).entries[..id] == q.entries[..id];
  }

  // ---------------------------------------------------------------------------------------------
  // The objects

  class RangeInterpolator {
    const totalFrames: int
    const from: real
    const end: real
    const func: (real, real, int, int) -> real
    var frame: int

    constructor (totalFrames: int, from: real, end: real, func: (real, real, int, int) -> real)
      ensures this.totalFrames == totalFrames && this.from == from && this.end == end && this.func == func
      ensures frame == 0
    {
      this.totalFrames, this.from, this.end, this.func := totalFrames, from, end, func;
      frame := 0;
    }

    predicate HasNext()
      reads this
    {
      frame < totalFrames
    }

    method Next() returns (v: real)
      modifies this
      ensures v == func(from, end, old(frame), totalFrames) && frame == old(frame) + 1
    {
      v := func(from, end, frame, totalFrames);
      frame := frame + 1;
    }

    method Stop()
      modifies this
      ensures frame == totalFrames
    {
      frame := totalFrames;
    }
  }

  class Animation {
    const interpolator: RangeInterpolator
    var onStart: bool
    var onComplete: Option<Callback>
    ghost var starts: nat
    ghost var completes: nat
    ghost var shown: seq<int>

    constructor (interpolator: RangeInterpolator)
      requires interpolator.frame == 0
      ensures this.interpolator == interpolator && State() == NewShow(interpolator.totalFrames)
    {
      this.interpolator := interpolator;
      onStart, onComplete := true, Some(Own);
      starts, completes, shown := 0, 0, [];
    }

    ghost function State(): Show
      reads this, interpolator
    {
      Show(interpolator.frame, interpolator.totalFrames, onStart, onComplete, starts, completes, shown)
    }

    /** A frame is what the setter is called with. */
    method NextFrame(animator: Animator) returns (more: bool, frame: Option<real>)
      modifies this, interpolator, animator
      ensures (animator.State(), State()) == Advanced(old(animator.State()), this, old(State()))
      ensures more == frame.Some? == (old(interpolator.frame) < interpolator.totalFrames)
      ensures more ==> shown != []
      ensures more ==>
        frame == Some(interpolator.func(interpolator.from, interpolator.end, shown[|shown| - 1],
                                        interpolator.totalFrames))
    {
      if onStart {
        starts := starts + 1;
        onStart := false;
      }
      if interpolator.HasNext() {
        shown := shown + [interpolator.frame];
        var v := interpolator.Next();
        more, frame := true, Some(v);
      } else {
        Stop(animator);
        more, frame := false, None;
      }
    }

    method Stop(animator: Animator)
      modifies this, interpolator, animator
      ensures (animator.State(), State()) == Stopped(old(animator.State()), this, old(State()))
    {
      interpolator.Stop();
      if onComplete.Some? {
        animator.Call(this, onComplete.value);
        onComplete := None;
      }
    }
  }

  class Animator {
    var totalAnimations: int
    var labeledAnimations: map<nat, Animation>

    constructor ()
      ensures State() == Desk(0, map[])
    {
      totalAnimations, labeledAnimations := 0, map[];
    }

    function State(): Desk<Animation>
      reads this
    {
      Desk(totalAnimations, labeledAnimations)
    }

    /** What the closures around an `onComplete` do. */
    method Call(ani: Animation, callback: Callback)
      modifies this, ani`completes
      ensures var (desk, own) := Called(old(State()), ani, callback);
        State() == desk && ani.completes == old(ani.completes) + if own then 1 else 0
      decreases callback
    {
      match callback {
        case Own =>
          ani.completes := ani.completes + 1;
        case Budget(inner) =>
          totalAnimations := totalAnimations - 1;
          Call(ani, inner);
        case Label(tag, inner) =>
          if tag in labeledAnimations && labeledAnimations[tag] == ani {
            labeledAnimations := labeledAnimations - {tag};
            Call(ani, inner);
          }
      }
    }

    /** Shows the first frame; tells whether there is to be a timeout for the next. */
    method Start(ani: Animation) returns (more: bool)
      modifies this, ani, ani.interpolator
      ensures (State(), ani.State()) == Advanced(old(State()), ani, old(ani.State()))
      ensures more == (old(ani.interpolator.frame) < ani.interpolator.totalFrames)
    {
      var frame: Option<real>;
      more, frame := ani.NextFrame(this);
    }

    /** Both callbacks are called without a check when there is no budget left. */
    method StartBudgeted(ani: Animation) returns (more: bool)
      requires ani.onStart && ani.onComplete.Some?
      modifies this, ani, ani.interpolator
      ensures (State(), ani.State()) == Admitted(old(State()), ani, old(ani.State()))
      ensures more ==
        (old(totalAnimations) < MAX_ANIMATIONS && old(ani.interpolator.frame) < ani.interpolator.totalFrames)
    {
      if totalAnimations < MAX_ANIMATIONS {
        totalAnimations := totalAnimations + 1;
        ani.onComplete := Some(Budget(ani.onComplete.value));
        more := Start(ani);
      } else {
        ani.starts := ani.starts + 1;
        Call(ani, ani.onComplete.value);
        more := false;
      }
    }

    /** The first half of `startLabeled`: the animation takes the label from whatever carries it. */
    method TakeLabel(ani: Animation, tag: nat)
      requires ani.onComplete.Some?
      requires tag in labeledAnimations ==>
        labeledAnimations[tag] != ani && labeledAnimations[tag].interpolator != ani.interpolator
      modifies this, ani`onComplete
      modifies if tag in labeledAnimations then {labeledAnimations[tag]} else {}
      modifies if tag in labeledAnimations then {labeledAnimations[tag].interpolator} else {}
      ensures ani.State() == old(ani.State()).(onComplete := Some(Label(tag, old(ani.onComplete).value)))
      ensures tag !in old(labeledAnimations) ==>
        State() == old(State()).(labeled := old(labeledAnimations)[tag := ani])
      ensures tag in old(labeledAnimations) ==>
        var earlier := old(labeledAnimations[tag]);
        var (desk, show) := Stopped(old(State()), earlier, old(earlier.State()));
        State() == desk.(labeled := desk.labeled[tag := ani]) && earlier.State() == show
    {
      ani.onComplete := Some(Label(tag, ani.onComplete.value));
      if tag in labeledAnimations {
        labeledAnimations[tag].Stop(this);
      }
      labeledAnimations := labeledAnimations[tag := ani];
    }

    method StartLabeled(ani: Animation, tag: nat, budgeted: bool) returns (more: bool)
      requires ani.onStart && ani.onComplete.Some?
      requires tag in labeledAnimations ==>
        labeledAnimations[tag] != ani && labeledAnimations[tag].interpolator != ani.interpolator
      modifies this, ani, ani.interpolator
      modifies if tag in labeledAnimations then {labeledAnimations[tag]} else {}
      modifies if tag in labeledAnimations then {labeledAnimations[tag].interpolator} else {}
      ensures var show := old(ani.State()).(onComplete := Some(Label(tag, old(ani.onComplete).value)));
        var freed :=
          if tag in old(labeledAnimations)
          then Stopped(old(State()), old(labeledAnimations)[tag], old(labeledAnimations[tag].State())).0
          else old(State());
        var desk := freed.(labeled := freed.labeled[tag := ani]);
        && (State(), ani.State()) == (if budgeted then Admitted(desk, ani, show) else Advanced(desk, ani, show))
        && more == (show.frame < show.totalFrames && (budgeted ==> desk.total < MAX_ANIMATIONS))
      ensures tag in old(labeledAnimations) ==>
        old(labeledAnimations[tag]).State()
          == Stopped(old(State()), old(labeledAnimations)[tag], old(labeledAnimations[tag].State())).1
    {
      TakeLabel(ani, tag);
      if budgeted {
        more := StartBudgeted(ani);
      } else {
        more := Start(ani);
      }
    }
  }
}
