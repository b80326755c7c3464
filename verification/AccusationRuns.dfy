/** What the accusation machine guarantees over whole runs, in whatever order windows arrive. */
module AccusationRuns {
  import opened Common
  import opened Accusations

  datatype Event =
    | Offer(entry: Entry, slash: Slash, mark: Option<Pair>)
    | Execute(run: seq<WindowKey>)
    | Age
    | Drop(consumer: ConsumerId)
    | Erase(consumer: ConsumerId)
    | Rotate(old': Pair, new': Pair)
    | MoveMark(old': Pair, new': Pair)
    | ClearMarks

  /** What the provider does at time now; an event that does not apply changes nothing. */
  ghost function Step(s: State, now: Time, horizon: Time, ev: Event): State {
    match ev
    case Offer(e, slash, mark) => if e.at == now && CanAccept(s, e, slash, mark) then Accept(s, e, slash, mark) else s
    case Execute(run) => if Runs(s, now, run) then Sweep(s, now, run) else s
    case Age => Prune(s, now, horizon)
    case Drop(c) => Cancel(s, c)
    case Erase(c) => Delete(s, c)
    case Rotate(p, q) => if Renames(s, p, q) then Rename(s, p, q) else s
    case MoveMark(p, q) =>
      if p in s.marks && p.consumer == q.consumer then s.(marks := s.marks - {p} + {q}) else s
    case ClearMarks => s.(marks := {})
  }

  datatype Stamped = Stamped(now: Time, event: Event)

  ghost function Run(s: State, horizon: Time, events: seq<Stamped>): State {
    if events == [] then s else
      Step(Run(s, horizon, events[..|events| - 1]), events[|events| - 1].now, horizon, events[|events| - 1].event)
  }

  lemma StepKeeps(s: State, now: Time, horizon: Time, ev: Event)
    requires Inv(s)
    ensures Inv(Step(s, now, horizon, ev))
  {
    if ev.Offer? || ev.Execute? || ev.Age? {
      StepKeepsWindows(s, now, horizon, ev);
    } else {
      StepKeepsOthers(s, now, horizon, ev);
    }
  }

  lemma StepKeepsWindows(s: State, now: Time, horizon: Time, ev: Event)
    requires Inv(s) && (ev.Offer? || ev.Execute? || ev.Age?)
    ensures Inv(Step(s, now, horizon, ev))
  {
    match ev
    case Offer(e, slash, mark) => if CanAccept(s, e, slash, mark) { AcceptKeeps(s, e, slash, mark); }
    case Execute(run) => if Runs(s, now, run) { SweepKeeps(s, now, run); }
    case Age => PruneKeeps(s, now, horizon);
  }

  lemma StepKeepsOthers(s: State, now: Time, horizon: Time, ev: Event)
    requires Inv(s) && !ev.Offer? && !ev.Execute? && !ev.Age?
    ensures Inv(Step(s, now, horizon, ev))
  {
    match ev
    case Drop(c) => CancelKeeps(s, c);
    case Erase(c) => DeleteKeeps(s, c);
    case Rotate(p, q) => if Renames(s, p, q) { RenameKeeps(s, p, q); }
    case MoveMark(p, q) => if p in s.marks && p.consumer == q.consumer { MarksIrrelevant(s, s.marks - {p} + {q}); }
    case ClearMarks => MarksIrrelevant(s, {});
  }

  lemma MarksIrrelevant(s: State, marks: set<Pair>)
    requires Inv(s) && forall p :: p in marks ==> p.consumer !in s.deleted
    ensures Inv(s.(marks := marks))
  {
    var s' := s.(marks := marks);
    FewerAccepted(s, s');
    forall i | 0 <= i < |s.history| && s.history[i].key.pair.consumer !in s.deleted ensures Guards(s', s.history[i]) {
      assert Guards(s, s.history[i]);
    }
  }

  lemma {:induction false} RunKeeps(s: State, horizon: Time, events: seq<Stamped>)
    requires Inv(s)
    ensures Inv(Run(s, horizon, events))
    decreases |events|
  {
    if events != [] {
      RunKeeps(s, horizon, events[..|events| - 1]);
      StepKeeps(Run(s, horizon, events[..|events| - 1]), events[|events| - 1].now, horizon, events[|events| - 1].event);
    }
  }

  predicate Covers(e: Entry, h: int) {
    e.start <= h <= e.key.end
  }

  /**
   * Over any run, no height of a pair is covered by two accepted windows, and none is slashed for twice: two
   * executions of one pair are executions of windows without a common height.
   */
  lemma NoHeightSlashedTwice(s: State, horizon: Time, events: seq<Stamped>, i: int, j: int, h: int)
    requires Inv(s)
    requires var end := Run(s, horizon, events);
             0 <= i < j < |end.executed| && end.executed[i].key.pair == end.executed[j].key.pair
    ensures var end := Run(s, horizon, events);
            !(Covers(end.executed[i], h) && Covers(end.executed[j], h)) && end.executed[i] in end.history
  {
    RunKeeps(s, horizon, events);
  }

  lemma AcceptedWindowsDisjoint(s: State, horizon: Time, events: seq<Stamped>, i: int, j: int, h: int)
    requires Inv(s)
    requires var end := Run(s, horizon, events);
             0 <= i < j < |end.history| && end.history[i].key.pair == end.history[j].key.pair
    ensures var end := Run(s, horizon, events); !(Covers(end.history[i], h) && Covers(end.history[j], h))
  {
    RunKeeps(s, horizon, events);
  }

  ghost const EMPTY: State := State(map[], map[], map[], {}, [], [], {}, [])

  lemma EmptyInv()
    ensures Inv(EMPTY)
  {
  }

  // Pruning is invisible.

  /** Each floor is the end of a window accepted longer than the horizon ago. */
  ghost predicate Aged(s: State, now: Time, horizon: Time) {
    && (forall p :: p in s.floors
          ==> exists i :: 0 <= i < |s.history| && Leaves(s.history[i], p, s.floors[p], now, horizon))
    && (forall i :: 0 <= i < |s.history| ==> s.history[i].at <= now)
  }

  predicate Leaves(e: Entry, p: Pair, floor: int, now: Time, horizon: Time) {
    e.key.pair == p && e.key.end == floor && now - e.at > horizon
  }

  predicate Chronological(events: seq<Stamped>, start: Time) {
    && (forall i :: 0 <= i < |events| ==> start <= events[i].now)
    && (forall i, j :: 0 <= i < j < |events| ==> events[i].now <= events[j].now)
  }

  lemma AgedLater(s: State, now: Time, later: Time, horizon: Time)
    requires Aged(s, now, horizon) && now <= later
    ensures Aged(s, later, horizon)
  {
    forall p | p in s.floors
      ensures exists i :: 0 <= i < |s.history| && Leaves(s.history[i], p, s.floors[p], later, horizon)
    {
      var i :| 0 <= i < |s.history| && Leaves(s.history[i], p, s.floors[p], now, horizon);
      assert Leaves(s.history[i], p, s.floors[p], later, horizon);
    }
  }

  lemma PruneAges(s: State, now: Time, horizon: Time)
    requires Logged(s) && Aged(s, now, horizon)
    ensures Aged(Prune(s, now, horizon), now, horizon)
  {
    var s', gone := Prune(s, now, horizon), PrunedKeys(s, now, horizon);
    forall p | p in s'.floors
      ensures exists i :: 0 <= i < |s.history| && Leaves(s.history[i], p, s'.floors[p], now, horizon)
    {
      FloorOverBounds(s.floors, gone, p);
      if p !in s.floors || s'.floors[p] != s.floors[p] {
        var k :| k in gone && k.pair == p && k.end == s'.floors[p];
        assert Pruned(s, k, now, horizon) && Prunable(s, k, now, horizon);
        assert EntryAt(s, k) in s.history;
        var i :| 0 <= i < |s.history| && s.history[i] == EntryAt(s, k);
        assert Leaves(s.history[i], p, s'.floors[p], now, horizon);
      }
    }
  }

  lemma AcceptAges(s: State, e: Entry, slash: Slash, mark: Option<Pair>, now: Time, horizon: Time)
    requires Aged(s, now, horizon) && e.at == now
    ensures Aged(Accept(s, e, slash, mark), now, horizon)
  {
    var s' := Accept(s, e, slash, mark);
    forall p | p in s'.floors
      ensures exists i :: 0 <= i < |s'.history| && Leaves(s'.history[i], p, s'.floors[p], now, horizon)
    {
      var i :| 0 <= i < |s.history| && Leaves(s.history[i], p, s.floors[p], now, horizon);
      assert s'.history[i] == s.history[i];
    }
  }

  lemma RenameAges(s: State, p: Pair, q: Pair, now: Time, horizon: Time)
    requires Aged(s, now, horizon) && Renames(s, p, q)
    ensures Aged(Rename(s, p, q), now, horizon)
  {
    var s' := Rename(s, p, q);
    forall r | r in s'.floors
      ensures exists i :: 0 <= i < |s'.history| && Leaves(s'.history[i], r, s'.floors[r], now, horizon)
    {
      var was := RenamedPair(r, q, p);
      var i :| 0 <= i < |s.history| && Leaves(s.history[i], was, s.floors[was], now, horizon);
      assert Leaves(s'.history[i], r, s'.floors[r], now, horizon);
    }
  }

  lemma DeleteAges(s: State, c: ConsumerId, now: Time, horizon: Time)
    requires Aged(s, now, horizon)
    ensures Aged(Delete(s, c), now, horizon)
  {
    var s' := Delete(s, c);
    forall p | p in s'.floors
      ensures exists i :: 0 <= i < |s'.history| && Leaves(s'.history[i], p, s'.floors[p], now, horizon)
    {
      assert p in s.floors && s'.floors[p] == s.floors[p];
    }
  }

  lemma StepAges(s: State, now: Time, horizon: Time, ev: Event)
    requires Inv(s) && Aged(s, now, horizon)
    ensures Aged(Step(s, now, horizon, ev), now, horizon)
  {
    match ev
    case Offer(e, slash, mark) => if e.at == now { AcceptAges(s, e, slash, mark, now, horizon); }
    case Age => PruneAges(s, now, horizon);
    case Erase(c) => DeleteAges(s, c, now, horizon);
    case Rotate(p, q) => if Renames(s, p, q) { RenameAges(s, p, q, now, horizon); }
    case Execute(_) =>
    case Drop(_) =>
    case MoveMark(_, _) =>
    case ClearMarks =>
  }

  lemma {:induction false} RunAges(s: State, horizon: Time, events: seq<Stamped>, start: Time) returns (now: Time)
    requires Inv(s) && Aged(s, start, horizon) && Chronological(events, start)
    ensures now == if events == [] then start else events[|events| - 1].now
    ensures Aged(Run(s, horizon, events), now, horizon)
    decreases |events|
  {
    if events == [] {
      return start;
    }
    var init, last := events[..|events| - 1], events[|events| - 1];
    var before := RunAges(s, horizon, init, start);
    RunKeeps(s, horizon, init);
    AgedLater(Run(s, horizon, init), before, last.now, horizon);
    StepAges(Run(s, horizon, init), last.now, horizon, last.event);
    return last.now;
  }

  /**
   * The facts about consumer time the decision rests on: window-end times rise with height, the anchor is a
   * lower bound on the evidence's, and every window had ended when it was accepted.
   */
  ghost predicate TimesAgree(s: State, e: Entry, endTime: int -> Time, anchor: Time) {
    && (forall g, h :: g <= h ==> endTime(g) <= endTime(h))
    && anchor <= endTime(e.key.end)
    && (forall i :: 0 <= i < |s.history| && s.history[i].key.pair == e.key.pair
          ==> endTime(s.history[i].key.end) <= s.history[i].at)
  }

  lemma NewIsAdmitted(s: State, e: Entry, endTime: int -> Time, anchor: Time, now: Time, maxAge: Time, challenge: Time)
    requires Inv(s) && Aged(s, now, challenge + maxAge) && challenge >= 0 && e.start <= e.key.end
    requires TimesAgree(s, e, endTime, anchor) && now - anchor <= maxAge
    requires forall i :: 0 <= i < |s.history| && s.history[i].key.pair == e.key.pair ==> Apart(s.history[i], e)
    ensures Admits(s, e)
  {
    if e.key.pair in s.floors {
      var i :| 0 <= i < |s.history| && Leaves(s.history[i], e.key.pair, s.floors[e.key.pair], now, challenge + maxAge);
      assert Apart(s.history[i], e);
      assert endTime(s.history[i].key.end) < endTime(e.key.end);
    }
    forall k | k in s.accepted && k.pair == e.key.pair ensures !(e.start <= k.end && s.accepted[k].start <= e.key.end) {
      assert EntryAt(s, k) in s.history;
      var i :| 0 <= i < |s.history| && s.history[i] == EntryAt(s, k);
      assert Apart(s.history[i], e);
    }
  }

  /**
   * For evidence that passes the age check, judging by the retained windows and the floor is judging by
   * every window ever accepted.
   */
  lemma PruningIsInvisible(
    s: State, e: Entry, endTime: int -> Time, anchor: Time, now: Time, maxAge: Time, challenge: Time)
    requires Inv(s) && Aged(s, now, challenge + maxAge) && challenge >= 0
    requires e.start <= e.key.end && e.key.pair.consumer !in s.deleted
    requires TimesAgree(s, e, endTime, anchor) && now - anchor <= maxAge
    ensures Admits(s, e)
      <==> forall i :: 0 <= i < |s.history| && s.history[i].key.pair == e.key.pair ==> Apart(s.history[i], e)
  {
    if Admits(s, e) {
      AdmittedIsNew(s, e);
    }
    if forall i :: 0 <= i < |s.history| && s.history[i].key.pair == e.key.pair ==> Apart(s.history[i], e) {
      NewIsAdmitted(s, e, endTime, anchor, now, maxAge, challenge);
    }
  }

  // Windows delivered back to back.

  datatype Delivery = Delivery(entry: Entry, slash: Slash, mark: Option<Pair>)

  ghost predicate Acceptable(s: State, d: Delivery) {
    CanAccept(s, d.entry, d.slash, d.mark)
  }

  ghost function Deliver(s: State, ds: seq<Delivery>): State {
    if ds == [] then s else
      var before, d := Deliver(s, ds[..|ds| - 1]), ds[|ds| - 1];
      if Acceptable(before, d) then Accept(before, d.entry, d.slash, d.mark) else before
  }

  ghost predicate Family(ds: seq<Delivery>) {
    && (forall i :: 0 <= i < |ds| ==> ds[i].entry.start <= ds[i].entry.key.end)
    && (forall i, j :: 0 <= i < j < |ds| && ds[i].entry.key.pair == ds[j].entry.key.pair
          ==> Apart(ds[i].entry, ds[j].entry))
  }

  /** s' holds what s held and exactly the windows of ds that s would accept. */
  ghost predicate Took(s: State, s': State, ds: seq<Delivery>) {
    && s'.floors == s.floors && s'.deleted == s.deleted
    && (forall k :: k in s'.accepted <==> k in s.accepted || Named(s, ds, k))
    && (forall k :: k in s.accepted && !Named(s, ds, k) ==> s'.accepted[k] == s.accepted[k])
    && (forall i :: 0 <= i < |ds| && Acceptable(s, ds[i])
          ==> ds[i].entry.key in s'.accepted
              && s'.accepted[ds[i].entry.key] == Accepted(ds[i].entry.start, ds[i].entry.at)
              && ds[i].entry.key in s'.pending && s'.pending[ds[i].entry.key] == ds[i].slash)
    && (forall k :: k in s'.pending <==> k in s.pending || Named(s, ds, k))
    && (forall k :: k in s.pending && !Named(s, ds, k) ==> s'.pending[k] == s.pending[k])
  }

  ghost predicate Named(s: State, ds: seq<Delivery>, k: WindowKey) {
    exists i :: 0 <= i < |ds| && ds[i].entry.key == k && Acceptable(s, ds[i])
  }

  /** Windows apart from each other are each accepted as if they came alone. */
  lemma {:induction false} DeliveredAsIfAlone(s: State, ds: seq<Delivery>)
    requires Family(ds)
    ensures Took(s, Deliver(s, ds), ds)
    decreases |ds|
  {
    if ds != [] {
      var init, d := ds[..|ds| - 1], ds[|ds| - 1];
      DeliveredAsIfAlone(s, init);
      assert ds == init + [d];
      SameVerdict(s, Deliver(s, init), init, d);
      NamedOneMore(s, ds);
      if Acceptable(s, d) {
        TookThis(s, Deliver(s, init), ds);
      } else {
        TookNothing(s, Deliver(s, init), ds);
      }
    }
  }

  ghost predicate OneMore(s: State, before: State, ds: seq<Delivery>) {
    && ds != [] && Family(ds) && Took(s, before, ds[..|ds| - 1])
    && forall k :: Named(s, ds, k) <==>
         Named(s, ds[..|ds| - 1], k) || (ds[|ds| - 1].entry.key == k && Acceptable(s, ds[|ds| - 1]))
  }

  lemma TookNothing(s: State, before: State, ds: seq<Delivery>)
    requires OneMore(s, before, ds) && !Acceptable(s, ds[|ds| - 1])
    ensures Took(s, before, ds)
  {
    var init := ds[..|ds| - 1];
    forall i | 0 <= i < |ds| && Acceptable(s, ds[i])
      ensures ds[i].entry.key in before.accepted
              && before.accepted[ds[i].entry.key] == Accepted(ds[i].entry.start, ds[i].entry.at)
              && ds[i].entry.key in before.pending && before.pending[ds[i].entry.key] == ds[i].slash
    {
      assert ds[i] == init[i];
    }
    assert forall k :: Named(s, ds, k) <==> Named(s, init, k);
  }

  lemma TookThis(s: State, before: State, ds: seq<Delivery>)
    requires OneMore(s, before, ds) && Acceptable(s, ds[|ds| - 1])
    ensures var d := ds[|ds| - 1]; Took(s, Accept(before, d.entry, d.slash, d.mark), ds)
  {
    var init, d := ds[..|ds| - 1], ds[|ds| - 1];
    var after := Accept(before, d.entry, d.slash, d.mark);
    forall i | 0 <= i < |init| ensures ds[i] == init[i] && ds[i].entry.key != d.entry.key {
      assert ds[i].entry.key.pair == d.entry.key.pair ==> Apart(ds[i].entry, d.entry);
    }
    forall i | 0 <= i < |ds| && Acceptable(s, ds[i])
      ensures ds[i].entry.key in after.accepted
              && after.accepted[ds[i].entry.key] == Accepted(ds[i].entry.start, ds[i].entry.at)
              && ds[i].entry.key in after.pending && after.pending[ds[i].entry.key] == ds[i].slash
    {
      if i < |init| {
        assert Acceptable(s, init[i]);
      }
    }
  }

  lemma NamedOneMore(s: State, ds: seq<Delivery>)
    requires ds != []
    ensures forall k :: Named(s, ds, k) <==>
      Named(s, ds[..|ds| - 1], k) || (ds[|ds| - 1].entry.key == k && Acceptable(s, ds[|ds| - 1]))
  {
    var init, d := ds[..|ds| - 1], ds[|ds| - 1];
    forall k | Named(s, init, k) ensures Named(s, ds, k) {
      var i :| 0 <= i < |init| && init[i].entry.key == k && Acceptable(s, init[i]);
      assert ds[i] == init[i];
    }
    forall k | Named(s, ds, k) && !(d.entry.key == k && Acceptable(s, d)) ensures Named(s, init, k) {
      var i :| 0 <= i < |ds| && ds[i].entry.key == k && Acceptable(s, ds[i]);
      assert init[i] == ds[i];
    }
  }

  lemma SameVerdict(s: State, s': State, init: seq<Delivery>, d: Delivery)
    requires Took(s, s', init) && Family(init + [d])
    ensures Acceptable(s', d) <==> Acceptable(s, d)
  {
    var all := init + [d];
    forall k | Named(s, init, k) && k.pair == d.entry.key.pair
      ensures !(d.entry.start <= k.end && s'.accepted[k].start <= d.entry.key.end)
    {
      var i :| 0 <= i < |init| && init[i].entry.key == k && Acceptable(s, init[i]);
      assert all[i] == init[i] && all[|init|] == d;
      assert Apart(init[i].entry, d.entry);
    }
    NamedAreNew(s, init);
  }

  lemma NamedAreNew(s: State, ds: seq<Delivery>)
    ensures forall k :: Named(s, ds, k) && k in s.accepted ==> s.accepted[k].start > k.end
  {
    forall k | Named(s, ds, k) && k in s.accepted ensures s.accepted[k].start > k.end {
      var i :| 0 <= i < |ds| && ds[i].entry.key == k && Acceptable(s, ds[i]);
    }
  }

  /** Two orders of delivery of one family of windows leave the same windows accepted and pending. */
  lemma BatchOrderIrrelevant(s: State, ds: seq<Delivery>, es: seq<Delivery>)
    requires Family(ds) && Family(es) && forall d :: d in ds <==> d in es
    ensures Deliver(s, ds).accepted == Deliver(s, es).accepted
    ensures Deliver(s, ds).pending == Deliver(s, es).pending
    ensures Deliver(s, ds).floors == Deliver(s, es).floors
  {
    DeliveredAsIfAlone(s, ds);
    DeliveredAsIfAlone(s, es);
    SameNames(s, ds, es);
    SameNames(s, es, ds);
    var a, b := Deliver(s, ds), Deliver(s, es);
    forall k | k in a.accepted ensures a.accepted[k] == b.accepted[k] {
      SameAt(s, ds, es, k);
    }
    forall k | k in a.pending ensures a.pending[k] == b.pending[k] {
      SameAt(s, ds, es, k);
    }
  }

  lemma SameNames(s: State, ds: seq<Delivery>, es: seq<Delivery>)
    requires forall d :: d in ds ==> d in es
    ensures forall k :: Named(s, ds, k) ==> Named(s, es, k)
  {
    forall k | Named(s, ds, k) ensures Named(s, es, k) {
      var i :| 0 <= i < |ds| && ds[i].entry.key == k && Acceptable(s, ds[i]);
      assert ds[i] in es;
      var j :| 0 <= j < |es| && es[j] == ds[i];
    }
  }

  lemma SameAt(s: State, ds: seq<Delivery>, es: seq<Delivery>, k: WindowKey)
    requires Took(s, Deliver(s, ds), ds) && Took(s, Deliver(s, es), es) && forall d :: d in ds <==> d in es
    requires Named(s, ds, k) <==> Named(s, es, k)
    ensures k in Deliver(s, ds).accepted ==> Deliver(s, es).accepted[k] == Deliver(s, ds).accepted[k]
    ensures k in Deliver(s, ds).pending ==> Deliver(s, es).pending[k] == Deliver(s, ds).pending[k]
  {
    if Named(s, ds, k) {
      var i :| 0 <= i < |ds| && ds[i].entry.key == k && Acceptable(s, ds[i]);
      assert ds[i] in es;
      var j :| 0 <= j < |es| && es[j] == ds[i];
    }
  }

  // Acceptance does not depend on the order of delivery, whatever else happens in between.

  /** A window, whenever it is offered or accepted. */
  datatype Window = Window(key: WindowKey, start: int)

  function WindowOf(e: Entry): Window {
    Window(e.key, e.start)
  }

  function Windows(es: seq<Entry>): set<Window> {
    set i | 0 <= i < |es| :: WindowOf(es[i])
  }

  predicate NoOverlap(v: Window, w: Window) {
    v.key.pair == w.key.pair ==> v.key.end < w.start || w.key.end < v.start
  }

  ghost predicate Clear(all: set<Window>, w: Window) {
    forall v :: v in all ==> NoOverlap(v, w)
  }

  /** What a run that starts with the windows of before and offers those of offered should end with. */
  ghost function Expected(before: set<Window>, offered: set<Window>): set<Window> {
    before + set w | w in offered && Clear(before, w)
  }

  function Offered(events: seq<Stamped>): set<Window> {
    set i | 0 <= i < |events| && events[i].event.Offer? :: WindowOf(events[i].event.entry)
  }

  /** The consumer's times of the heights, rising with them. */
  ghost predicate Rising(endTime: int -> Time) {
    forall g, h :: g <= h ==> endTime(g) <= endTime(h)
  }

  /** Every accepted window had ended by the time it was accepted. */
  ghost predicate Ended(es: seq<Entry>, endTime: int -> Time) {
    forall i :: 0 <= i < |es| ==> endTime(es[i].key.end) <= es[i].at
  }

  /** An offer of evidence that has ended and is not too old, or an execution, or a pruning. */
  ghost predicate Prompt(deleted: set<ConsumerId>, ev: Stamped, endTime: int -> Time, maxAge: Time) {
    match ev.event
    case Offer(e, slash, mark) =>
      && e.at == ev.now && e.start <= e.key.end && e.key.pair.consumer !in deleted && Matches(slash, e.key, e.start)
      && (mark.Some? ==> mark.value.consumer == e.key.pair.consumer)
      && endTime(e.key.end) <= ev.now && ev.now - endTime(e.key.end) <= maxAge
    case Execute(_) => true
    case Age => true
    case _ => false
  }

  ghost predicate AllPrompt(deleted: set<ConsumerId>, events: seq<Stamped>, endTime: int -> Time, maxAge: Time) {
    forall i :: 0 <= i < |events| ==> Prompt(deleted, events[i], endTime, maxAge)
  }

  /** Any two windows offered are the same or share no height of a pair. */
  ghost predicate Disjoint(offered: set<Window>) {
    forall v, w :: v in offered && w in offered ==> v == w || NoOverlap(v, w)
  }

  /** The windows offered once ev is. */
  ghost function OfferedWith(offered: set<Window>, ev: Event): set<Window> {
    offered + if ev.Offer? then {WindowOf(ev.entry)} else {}
  }

  lemma OneMoreOffered(events: seq<Stamped>)
    requires events != []
    ensures Offered(events) == OfferedWith(Offered(events[..|events| - 1]), events[|events| - 1].event)
  {
    var init, last := events[..|events| - 1], events[|events| - 1];
    forall w | w in Offered(init) ensures w in Offered(events) {
      var i :| 0 <= i < |init| && init[i].event.Offer? && WindowOf(init[i].event.entry) == w;
      assert events[i] == init[i];
    }
    forall w | w in Offered(events) && !(last.event.Offer? && w == WindowOf(last.event.entry))
      ensures w in Offered(init)
    {
      var i :| 0 <= i < |events| && events[i].event.Offer? && WindowOf(events[i].event.entry) == w;
      assert init[i] == events[i];
    }
  }

  /** Being apart from every entry of the pair is overlapping none of the windows. */
  lemma ClearIsApart(es: seq<Entry>, e: Entry)
    requires forall i :: 0 <= i < |es| && es[i].key.pair == e.key.pair ==> es[i].start <= es[i].key.end
    ensures Clear(Windows(es), WindowOf(e))
         <==> forall i :: 0 <= i < |es| && es[i].key.pair == e.key.pair ==> Apart(es[i], e)
  {
    if Clear(Windows(es), WindowOf(e)) {
      forall i | 0 <= i < |es| && es[i].key.pair == e.key.pair ensures Apart(es[i], e) {
        assert WindowOf(es[i]) in Windows(es);
      }
    }
  }

  /** The next window is new exactly when it meets none of those the run began with and was not offered before. */
  lemma ExpectedNext(before: set<Window>, offered: set<Window>, w: Window)
    requires Disjoint(offered + {w}) && w.start <= w.key.end
    ensures Clear(Expected(before, offered), w) <==> Clear(before, w) && w !in offered
    ensures Expected(before, offered + {w}) == Expected(before, offered) + if Clear(before, w) then {w} else {}
    ensures Clear(before, w) && w in offered ==> w in Expected(before, offered)
  {
    if Clear(before, w) && w !in offered {
      forall v | v in Expected(before, offered) ensures NoOverlap(v, w) {
        if v !in before {
          assert v in offered + {w} && w in offered + {w};
        }
      }
    }
    if w in offered && Clear(before, w) {
      assert w in Expected(before, offered) && !NoOverlap(w, w);
    }
  }

  lemma AppendedWindows(es: seq<Entry>, e: Entry)
    ensures Windows(es + [e]) == Windows(es) + {WindowOf(e)}
  {
    forall w | w in Windows(es) ensures w in Windows(es + [e]) {
      var i :| 0 <= i < |es| && WindowOf(es[i]) == w;
      assert (es + [e])[i] == es[i];
    }
    assert (es + [e])[|es|] == e;
  }

  /** What holds while a prompt run goes on. */
  ghost predicate OnTrack(
    s: State, now: Time, horizon: Time, endTime: int -> Time, before: set<Window>, offered: set<Window>)
  {
    && Inv(s) && Aged(s, now, horizon) && Ended(s.history, endTime)
    && Windows(s.history) == Expected(before, offered)
  }

  lemma TakenIfNew(s: State, e: Entry, endTime: int -> Time, now: Time, maxAge: Time, horizon: Time)
    requires Inv(s) && Aged(s, now, horizon) && Ended(s.history, endTime) && Rising(endTime) && horizon >= maxAge
    requires e.start <= e.key.end && e.key.pair.consumer !in s.deleted && now - endTime(e.key.end) <= maxAge
    ensures Admits(s, e) <==> Clear(Windows(s.history), WindowOf(e))
  {
    PruningIsInvisible(s, e, endTime, endTime(e.key.end), now, maxAge, horizon - maxAge);
    ClearIsApart(s.history, e);
  }

  lemma OfferHistory(s: State, now: Time, horizon: Time, e: Entry, slash: Slash, mark: Option<Pair>)
    requires e.at == now && e.start <= e.key.end && e.key.pair.consumer !in s.deleted && Matches(slash, e.key, e.start)
    requires mark.Some? ==> mark.value.consumer == e.key.pair.consumer
    ensures var s' := Step(s, now, horizon, Offer(e, slash, mark));
            s'.history == (if Admits(s, e) then s.history + [e] else s.history) && s'.deleted == s.deleted
  {
  }

  lemma UpkeepHistory(s: State, now: Time, horizon: Time, ev: Event)
    requires ev.Execute? || ev.Age?
    ensures Step(s, now, horizon, ev).history == s.history && Step(s, now, horizon, ev).deleted == s.deleted
  {
  }

  lemma StepSteady(s: State, s': State, now: Time, horizon: Time, ev: Event)
    requires Inv(s) && Aged(s, now, horizon) && s' == Step(s, now, horizon, ev)
    ensures Inv(s') && Aged(s', now, horizon)
  {
    StepKeeps(s, now, horizon, ev);
    StepAges(s, now, horizon, ev);
  }

  lemma EndedNext(es: seq<Entry>, e: Entry, endTime: int -> Time)
    requires Ended(es, endTime) && endTime(e.key.end) <= e.at
    ensures Ended(es + [e], endTime)
  {
  }

  /** The windows accepted once one more is offered. */
  lemma WindowsNext(s: State, s': State, e: Entry, before: set<Window>, offered: set<Window>)
    requires Windows(s.history) == Expected(before, offered) && Disjoint(offered + {WindowOf(e)})
    requires e.start <= e.key.end
    requires s'.history == if Clear(Windows(s.history), WindowOf(e)) then s.history + [e] else s.history
    ensures Windows(s'.history) == Expected(before, offered + {WindowOf(e)})
  {
    ExpectedNext(before, offered, WindowOf(e));
    AppendedWindows(s.history, e);
  }

  lemma OfferOnTrack(
    s: State, s': State, now: Time, horizon: Time, maxAge: Time, endTime: int -> Time, before: set<Window>,
    offered: set<Window>, e: Entry, slash: Slash, mark: Option<Pair>)
    requires OnTrack(s, now, horizon, endTime, before, offered) && Rising(endTime) && horizon >= maxAge
    requires Prompt(s.deleted, Stamped(now, Offer(e, slash, mark)), endTime, maxAge)
    requires Disjoint(offered + {WindowOf(e)})
    requires s' == Step(s, now, horizon, Offer(e, slash, mark))
    ensures OnTrack(s', now, horizon, endTime, before, offered + {WindowOf(e)}) && s'.deleted == s.deleted
  {
    StepSteady(s, s', now, horizon, Offer(e, slash, mark));
    OfferHistory(s, now, horizon, e, slash, mark);
    TakenIfNew(s, e, endTime, now, maxAge, horizon);
    WindowsNext(s, s', e, before, offered);
    EndedNext(s.history, e, endTime);
  }

  lemma UpkeepOnTrack(
    s: State, s': State, now: Time, horizon: Time, endTime: int -> Time, before: set<Window>, offered: set<Window>,
    ev: Event)
    requires OnTrack(s, now, horizon, endTime, before, offered) && (ev.Execute? || ev.Age?)
    requires s' == Step(s, now, horizon, ev)
    ensures OnTrack(s', now, horizon, endTime, before, offered) && s'.deleted == s.deleted
  {
    StepSteady(s, s', now, horizon, ev);
    UpkeepHistory(s, now, horizon, ev);
  }

  lemma PromptNext(
    s: State, s': State, ev: Stamped, horizon: Time, maxAge: Time, endTime: int -> Time, before: set<Window>,
    offered: set<Window>)
    requires OnTrack(s, ev.now, horizon, endTime, before, offered) && Rising(endTime) && horizon >= maxAge
    requires Prompt(s.deleted, ev, endTime, maxAge) && Disjoint(OfferedWith(offered, ev.event))
    requires s' == Step(s, ev.now, horizon, ev.event)
    ensures OnTrack(s', ev.now, horizon, endTime, before, OfferedWith(offered, ev.event)) && s'.deleted == s.deleted
  {
    if ev.event.Offer? {
      var e := ev.event.entry;
      assert ev == Stamped(ev.now, Offer(e, ev.event.slash, ev.event.mark));
      OfferOnTrack(s, s', ev.now, horizon, maxAge, endTime, before, offered, e, ev.event.slash, ev.event.mark);
    } else {
      assert OfferedWith(offered, ev.event) == offered;
      UpkeepOnTrack(s, s', ev.now, horizon, endTime, before, offered, ev.event);
    }
  }

  /** A run of prompt events that offers a disjoint family of windows, from a state that has aged well. */
  ghost predicate Delivers(
    s: State, events: seq<Stamped>, start: Time, horizon: Time, maxAge: Time, endTime: int -> Time)
  {
    && Inv(s) && Aged(s, start, horizon) && Ended(s.history, endTime) && Rising(endTime) && horizon >= maxAge
    && Chronological(events, start) && AllPrompt(s.deleted, events, endTime, maxAge) && Disjoint(Offered(events))
  }

  lemma DeliversBefore(
    s: State, init: seq<Stamped>, ev: Stamped, start: Time, horizon: Time, maxAge: Time, endTime: int -> Time)
    requires Delivers(s, init + [ev], start, horizon, maxAge, endTime)
    ensures Delivers(s, init, start, horizon, maxAge, endTime) && Prompt(s.deleted, ev, endTime, maxAge)
    ensures start <= ev.now && forall i :: 0 <= i < |init| ==> init[i].now <= ev.now
  {
    var all := init + [ev];
    assert forall i :: 0 <= i < |init| ==> all[i] == init[i];
    assert all[|init|] == ev && all[..|init|] == init;
    OneMoreOffered(all);
  }

  /**
   * However a disjoint family of windows is delivered - in any order, repeated, with executions and prunings in
   * between - exactly those that meet none of the windows accepted before are accepted.
   */
  lemma {:induction false} RunTakes(
    s: State, events: seq<Stamped>, start: Time, horizon: Time, maxAge: Time, endTime: int -> Time)
    requires Delivers(s, events, start, horizon, maxAge, endTime)
    ensures var end := Run(s, horizon, events);
            && end.deleted == s.deleted
            && OnTrack(end, ClockAfter(events, start), horizon, endTime, Windows(s.history), Offered(events))
    decreases |events|
  {
    if events != [] {
      var init, last := events[..|events| - 1], events[|events| - 1];
      assert events == init + [last];
      DeliversBefore(s, init, last, start, horizon, maxAge, endTime);
      RunTakes(s, init, start, horizon, maxAge, endTime);
      OnTrackLater(Run(s, horizon, init), ClockAfter(init, start), last.now, horizon, endTime, Windows(s.history),
                   Offered(init));
      OneMoreOffered(events);
      PromptNext(Run(s, horizon, init), Run(s, horizon, events), last, horizon, maxAge, endTime, Windows(s.history),
                 Offered(init));
    }
  }

  function ClockAfter(events: seq<Stamped>, start: Time): Time {
    if events == [] then start else events[|events| - 1].now
  }

  lemma OnTrackLater(
    s: State, now: Time, later: Time, horizon: Time, endTime: int -> Time, before: set<Window>, offered: set<Window>)
    requires OnTrack(s, now, horizon, endTime, before, offered) && now <= later
    ensures OnTrack(s, later, horizon, endTime, before, offered)
  {
    AgedLater(s, now, later, horizon);
  }

  /** Two such runs that offer the same windows accept the same windows. */
  lemma DeliveryOrderIrrelevant(
    s: State, xs: seq<Stamped>, ys: seq<Stamped>, start: Time, horizon: Time, maxAge: Time, endTime: int -> Time)
    requires Delivers(s, xs, start, horizon, maxAge, endTime) && Delivers(s, ys, start, horizon, maxAge, endTime)
    requires Offered(xs) == Offered(ys)
    ensures Windows(Run(s, horizon, xs).history) == Windows(Run(s, horizon, ys).history)
         == Expected(Windows(s.history), Offered(xs))
  {
    RunTakes(s, xs, start, horizon, maxAge, endTime);
    RunTakes(s, ys, start, horizon, maxAge, endTime);
  }
}
