/**
 * Downtime accusations on the provider, as values: the windows accepted, the slashes pending behind the
 * challenge window, the floors left by pruning, and the log of every window ever accepted or executed.
 */
module Accusations {
  import opened Common
  import opened Bitmaps
  import Ordering

  /** A validator on a consumer, under the provider consensus address its accusations resolve to. */
  datatype Pair = Pair(consumer: ConsumerId, addr: Address)

  /** Windows are keyed by pair and last height. */
  datatype WindowKey = WindowKey(pair: Pair, end: int)

  datatype Accepted = Accepted(start: int, at: Time)

  datatype Slash = Slash(
    consumer: ConsumerId,
    provider: Address,
    accused: Address,
    start: int,
    span: int,
    missed: int,
    bitmap: Bitmap,
    tokens: int,
    maturesAt: Time)

  /** An accepted window: heights start..key.end, accepted at a provider time. */
  datatype Entry = Entry(key: WindowKey, start: int, at: Time)

  /**
   * history lists every window ever accepted, accused the consumer address each of them named, and executed
   * those slashed for.
   */
  datatype State = State(
    accepted: map<WindowKey, Accepted>,
    pending: map<WindowKey, Slash>,
    floors: map<Pair, int>,
    marks: set<Pair>,
    history: seq<Entry>,
    executed: seq<Entry>,
    deleted: set<ConsumerId>,
    accused: seq<Address>)

  predicate Apart(a: Entry, b: Entry) {
    a.key.end < b.start || b.key.end < a.start
  }

  // Steps.

  /** What a window must pass to be accepted: above the pair's floor and apart from every retained window. */
  ghost predicate Admits(s: State, e: Entry) {
    && (e.key.pair in s.floors ==> e.start > s.floors[e.key.pair])
    && forall k :: k in s.accepted && k.pair == e.key.pair ==> !(e.start <= k.end && s.accepted[k].start <= e.key.end)
  }

  predicate Matches(slash: Slash, k: WindowKey, start: int) {
    && slash.consumer == k.pair.consumer && slash.provider == k.pair.addr
    && slash.start == start && slash.start + slash.span - 1 == k.end
  }

  ghost function Accept(s: State, e: Entry, slash: Slash, mark: Option<Pair>): State {
    s.(accepted := s.accepted[e.key := Accepted(e.start, e.at)],
       pending := s.pending[e.key := slash],
       marks := s.marks + (if mark.Some? then {mark.value} else {}),
       history := s.history + [e],
       accused := s.accused + [slash.accused])
  }

  predicate Matured(slash: Slash, now: Time) {
    slash.maturesAt <= now
  }

  function Unmatured(pending: map<WindowKey, Slash>, now: Time): map<WindowKey, Slash> {
    map k | k in pending && !Matured(pending[k], now) :: pending[k]
  }

  predicate Executable(s: State, k: WindowKey, now: Time) {
    k in s.pending && Matured(s.pending[k], now) && s.pending[k].tokens > 0
  }

  ghost function EntryAt(s: State, k: WindowKey): Entry
    requires k in s.accepted
  {
    Entry(k, s.accepted[k].start, s.accepted[k].at)
  }

  /** run lists the matured windows whose slash went through, in the order they were executed. */
  ghost predicate Runs(s: State, now: Time, run: seq<WindowKey>) {
    && (forall i :: 0 <= i < |run| ==> run[i] in s.accepted && Executable(s, run[i], now))
    && (forall i, j :: 0 <= i < j < |run| ==> run[i] != run[j])
  }

  ghost function RunEntries(s: State, run: seq<WindowKey>): seq<Entry>
    requires forall i :: 0 <= i < |run| ==> run[i] in s.accepted
  {
    seq(|run|, i requires 0 <= i < |run| => EntryAt(s, run[i]))
  }

  ghost function Sweep(s: State, now: Time, run: seq<WindowKey>): State
    requires Runs(s, now, run)
  {
    s.(pending := Unmatured(s.pending, now), executed := s.executed + RunEntries(s, run))
  }

  /** Old enough that no acceptable evidence can still intersect it, and resolved. */
  predicate Prunable(s: State, k: WindowKey, now: Time, horizon: Time)
    requires k in s.accepted
  {
    now - s.accepted[k].at > horizon && k !in s.pending
  }

  /** Pruning goes lowest-first: a window waits for every lower one of its pair. */
  ghost predicate Pruned(s: State, k: WindowKey, now: Time, horizon: Time) {
    && k in s.accepted
    && forall j :: j in s.accepted && j.pair == k.pair && j.end <= k.end ==> Prunable(s, j, now, horizon)
  }

  ghost function PrunedKeys(s: State, now: Time, horizon: Time): set<WindowKey> {
    set k | k in s.accepted && Pruned(s, k, now, horizon)
  }

  /** The floors once the windows with the given keys are gone. */
  ghost function Raised(floors: map<Pair, int>, keys: set<WindowKey>): map<Pair, int> {
    map p | p in floors.Keys + (set k | k in keys :: k.pair) :: FloorOver(floors, keys, p)
  }

  ghost function Ends(keys: set<WindowKey>, p: Pair): set<int> {
    set k | k in keys && k.pair == p :: k.end
  }

  ghost function FloorOver(floors: map<Pair, int>, keys: set<WindowKey>, p: Pair): int
    requires p in floors || exists k :: k in keys && k.pair == p
  {
    if p in floors then Ordering.Greatest(Ends(keys, p) + {floors[p]}) else
      var k :| k in keys && k.pair == p;
      assert k.end in Ends(keys, p);
      Ordering.Greatest(Ends(keys, p))
  }

  ghost function Prune(s: State, now: Time, horizon: Time): State {
    var gone := PrunedKeys(s, now, horizon);
    s.(accepted := s.accepted - gone, floors := Raised(s.floors, gone))
  }

  function WithoutConsumer<V>(m: map<WindowKey, V>, c: ConsumerId): map<WindowKey, V> {
    map k | k in m && k.pair.consumer != c :: m[k]
  }

  function PairsWithout(s: set<Pair>, c: ConsumerId): set<Pair> {
    set p | p in s && p.consumer != c
  }

  function FloorsWithout(m: map<Pair, int>, c: ConsumerId): map<Pair, int> {
    map p | p in m && p.consumer != c :: m[p]
  }

  /** A pause or a stop drops what is in flight and keeps what was accepted. */
  ghost function Cancel(s: State, c: ConsumerId): State {
    s.(pending := WithoutConsumer(s.pending, c), marks := PairsWithout(s.marks, c))
  }

  ghost function Delete(s: State, c: ConsumerId): State {
    Cancel(s, c).(accepted := WithoutConsumer(s.accepted, c), floors := FloorsWithout(s.floors, c),
                  deleted := s.deleted + {c})
  }

  // Renaming a pair, for the rotation of a consensus key.

  function RenamedPair(p: Pair, old': Pair, new': Pair): Pair {
    if p == old' then new' else p
  }

  function RenamedKey(k: WindowKey, old': Pair, new': Pair): WindowKey {
    WindowKey(RenamedPair(k.pair, old', new'), k.end)
  }

  function RenamedEntry(e: Entry, old': Pair, new': Pair): Entry {
    e.(key := RenamedKey(e.key, old', new'))
  }

  function RenamedSlash(slash: Slash, k: WindowKey, old': Pair, new': Pair): Slash {
    if k.pair == old' then slash.(provider := new'.addr) else slash
  }

  /** Nothing is recorded under the pair. */
  ghost predicate Fresh(s: State, p: Pair) {
    && (forall k :: k in s.accepted ==> k.pair != p)
    && (forall k :: k in s.pending ==> k.pair != p)
    && p !in s.floors
    && (forall i :: 0 <= i < |s.history| ==> s.history[i].key.pair != p)
    && (forall i :: 0 <= i < |s.executed| ==> s.executed[i].key.pair != p)
  }

  ghost function RenamedKeys<V>(m: map<WindowKey, V>, old': Pair, new': Pair): set<WindowKey> {
    set k | k in m :: RenamedKey(k, old', new')
  }

  ghost function RenamedWindows(m: map<WindowKey, Accepted>, old': Pair, new': Pair): map<WindowKey, Accepted>
    requires forall k :: k in m ==> k.pair != new'
  {
    map k | k in RenamedKeys(m, old', new') :: m[RenamedKey(k, new', old')]
  }

  ghost function RenamedPending(m: map<WindowKey, Slash>, old': Pair, new': Pair): map<WindowKey, Slash>
    requires forall k :: k in m ==> k.pair != new'
  {
    map k | k in RenamedKeys(m, old', new') ::
      RenamedSlash(m[RenamedKey(k, new', old')], RenamedKey(k, new', old'), old', new')
  }

  ghost function RenamedFloors(m: map<Pair, int>, old': Pair, new': Pair): map<Pair, int> {
    if old' in m then (m - {old'})[new' := m[old']] else m
  }

  ghost function RenamedLog(es: seq<Entry>, old': Pair, new': Pair): seq<Entry> {
    seq(|es|, i requires 0 <= i < |es| => RenamedEntry(es[i], old', new'))
  }

  ghost function Rename(s: State, old': Pair, new': Pair): State
    requires Fresh(s, new')
  {
    s.(accepted := RenamedWindows(s.accepted, old', new'),
       pending := RenamedPending(s.pending, old', new'),
       floors := RenamedFloors(s.floors, old', new'),
       history := RenamedLog(s.history, old', new'),
       executed := RenamedLog(s.executed, old', new'))
  }

  // The invariant.

  ghost predicate Logged(s: State) {
    forall k :: k in s.accepted ==> s.accepted[k].start <= k.end && EntryAt(s, k) in s.history
  }

  /** A pending slash always has its accepted window, and agrees with its key. */
  ghost predicate Backed(s: State) {
    forall k :: k in s.pending ==> k in s.accepted && Matches(s.pending[k], k, s.accepted[k].start)
  }

  /** No two windows of a pair share a height. */
  ghost predicate Separate(es: seq<Entry>) {
    && (forall i :: 0 <= i < |es| ==> es[i].start <= es[i].key.end)
    && (forall i, j :: 0 <= i < j < |es| && es[i].key.pair == es[j].key.pair ==> Apart(es[i], es[j]))
  }

  ghost predicate Guards(s: State, e: Entry) {
    || (e.key in s.accepted && s.accepted[e.key] == Accepted(e.start, e.at))
    || (e.key.pair in s.floors && e.key.end <= s.floors[e.key.pair])
  }

  /** Every window ever accepted is still retained or lies at or below its pair's floor. */
  ghost predicate Covered(s: State) {
    forall i :: 0 <= i < |s.history| && s.history[i].key.pair.consumer !in s.deleted ==> Guards(s, s.history[i])
  }

  ghost predicate FloorsBelow(s: State) {
    forall k :: k in s.accepted && k.pair in s.floors ==> s.floors[k.pair] < s.accepted[k].start
  }

  ghost predicate Spent(s: State) {
    forall i :: 0 <= i < |s.executed| ==> s.executed[i] in s.history && s.executed[i].key !in s.pending
  }

  /** A deleted consumer leaves nothing behind. */
  ghost predicate Erased(s: State) {
    && (forall k :: k in s.accepted ==> k.pair.consumer !in s.deleted)
    && (forall p :: p in s.floors ==> p.consumer !in s.deleted)
    && (forall p :: p in s.marks ==> p.consumer !in s.deleted)
  }

  ghost predicate Inv(s: State) {
    && Logged(s) && Backed(s) && Separate(s.history) && Covered(s) && FloorsBelow(s) && Spent(s) && Separate(s.executed)
    && Erased(s)
    && |s.accused| == |s.history|
  }

  lemma TwoOfAPair(es: seq<Entry>, a: Entry, b: Entry)
    requires Separate(es) && a in es && b in es && a != b && a.key.pair == b.key.pair
    ensures Apart(a, b)
  {
    var i :| 0 <= i < |es| && es[i] == a;
    var j :| 0 <= j < |es| && es[j] == b;
  }

  // Each step keeps the invariant.

  ghost predicate CanAccept(s: State, e: Entry, slash: Slash, mark: Option<Pair>) {
    && Admits(s, e) && e.start <= e.key.end && e.key.pair.consumer !in s.deleted
    && Matches(slash, e.key, e.start)
    && (mark.Some? ==> mark.value.consumer == e.key.pair.consumer)
  }

  /** What is admitted shares no height with any window ever accepted for the pair. */
  lemma AdmittedIsNew(s: State, e: Entry)
    requires Logged(s) && Covered(s) && FloorsBelow(s) && Separate(s.history)
    requires Admits(s, e) && e.start <= e.key.end && e.key.pair.consumer !in s.deleted
    ensures forall i :: 0 <= i < |s.history| && s.history[i].key.pair == e.key.pair ==> Apart(s.history[i], e)
  {
    forall i | 0 <= i < |s.history| && s.history[i].key.pair == e.key.pair ensures Apart(s.history[i], e) {
      assert Guards(s, s.history[i]);
    }
  }

  lemma AcceptKeeps(s: State, e: Entry, slash: Slash, mark: Option<Pair>)
    requires Inv(s) && CanAccept(s, e, slash, mark)
    ensures Inv(Accept(s, e, slash, mark))
  {
    AdmittedIsNew(s, e);
    assert e.key !in s.accepted;
    AcceptKeepsLogged(s, e, slash, mark);
    AcceptKeepsCovered(s, e, slash, mark);
    AcceptKeepsSpent(s, e, slash, mark);
  }

  lemma AcceptKeepsLogged(s: State, e: Entry, slash: Slash, mark: Option<Pair>)
    requires Logged(s) && e.start <= e.key.end
    ensures Logged(Accept(s, e, slash, mark))
  {
    var s' := Accept(s, e, slash, mark);
    assert s'.history[|s.history|] == e;
    forall k | k in s'.accepted ensures EntryAt(s', k) in s'.history && s'.accepted[k].start <= k.end {
      if k != e.key {
        assert EntryAt(s, k) in s.history;
      }
    }
  }

  lemma AcceptKeepsCovered(s: State, e: Entry, slash: Slash, mark: Option<Pair>)
    requires Covered(s) && e.key !in s.accepted
    ensures Covered(Accept(s, e, slash, mark))
  {
    var s' := Accept(s, e, slash, mark);
    forall i | 0 <= i < |s'.history| && s'.history[i].key.pair.consumer !in s'.deleted
      ensures Guards(s', s'.history[i])
    {
      if i < |s.history| {
        assert Guards(s, s.history[i]);
      }
    }
  }

  lemma AcceptKeepsSpent(s: State, e: Entry, slash: Slash, mark: Option<Pair>)
    requires Spent(s) && e.start <= e.key.end
    requires forall i :: 0 <= i < |s.history| && s.history[i].key.pair == e.key.pair ==> Apart(s.history[i], e)
    requires Separate(s.history)
    ensures Spent(Accept(s, e, slash, mark))
  {
    forall i | 0 <= i < |s.executed| ensures s.executed[i].key != e.key {
      var j :| 0 <= j < |s.history| && s.history[j] == s.executed[i];
    }
  }

  lemma SweepKeeps(s: State, now: Time, run: seq<WindowKey>)
    requires Inv(s) && Runs(s, now, run)
    ensures Inv(Sweep(s, now, run))
  {
    var s', more := Sweep(s, now, run), RunEntries(s, run);
    forall i | 0 <= i < |more| ensures more[i] in s.history && more[i].start <= more[i].key.end {
      assert run[i] in s.accepted;
    }
    SweepSeparate(s, more);
    assert Spent(s') by {
      forall i | 0 <= i < |s'.executed| ensures s'.executed[i] in s'.history && s'.executed[i].key !in s'.pending {
        if i >= |s.executed| {
          assert s'.executed[i] == more[i - |s.executed|];
        }
      }
    }
  }

  lemma SweepSeparate(s: State, more: seq<Entry>)
    requires Separate(s.history) && Separate(s.executed) && Spent(s)
    requires forall i :: 0 <= i < |more| ==> more[i] in s.history && more[i].key in s.pending
    requires forall i :: 0 <= i < |more| ==> more[i].start <= more[i].key.end
    requires forall i, j :: 0 <= i < j < |more| ==> more[i].key != more[j].key
    ensures Separate(s.executed + more)
  {
    var es := s.executed + more;
    forall i, j | 0 <= i < j < |es| && es[i].key.pair == es[j].key.pair ensures Apart(es[i], es[j]) {
      if j >= |s.executed| {
        assert es[j] == more[j - |s.executed|];
        assert i < |s.executed| ==> es[i] == s.executed[i];
        assert i >= |s.executed| ==> es[i] == more[i - |s.executed|];
        TwoOfAPair(s.history, es[i], es[j]);
      }
    }
  }

  lemma FloorOverBounds(floors: map<Pair, int>, keys: set<WindowKey>, p: Pair)
    requires p in floors || exists k :: k in keys && k.pair == p
    ensures p in floors ==> FloorOver(floors, keys, p) >= floors[p]
    ensures forall k :: k in keys && k.pair == p ==> FloorOver(floors, keys, p) >= k.end
    ensures (p in floors && FloorOver(floors, keys, p) == floors[p])
         || exists k :: k in keys && k.pair == p && k.end == FloorOver(floors, keys, p)
  {
    forall k | k in keys && k.pair == p ensures k.end in Ends(keys, p) {
    }
  }

  /** Dropping accepted windows with nothing pending behind them keeps the log and the backing. */
  lemma FewerAccepted(s: State, s': State)
    requires Logged(s) && Backed(s) && s'.history == s.history
    requires s'.accepted.Keys <= s.accepted.Keys && forall k :: k in s'.accepted ==> s'.accepted[k] == s.accepted[k]
    requires s'.pending.Keys <= s'.accepted.Keys * s.pending.Keys
    requires forall k :: k in s'.pending ==> s'.pending[k] == s.pending[k]
    ensures Logged(s') && Backed(s')
  {
    forall k | k in s'.accepted ensures EntryAt(s', k) in s'.history {
      assert EntryAt(s, k) in s.history;
    }
  }

  lemma PruneKeeps(s: State, now: Time, horizon: Time)
    requires Inv(s)
    ensures Inv(Prune(s, now, horizon))
  {
    PruneKeepsWindows(s, now, horizon);
    PruneKeepsCovered(s, now, horizon);
    PruneKeepsFloorsBelow(s, now, horizon);
    PruneKeepsErased(s, PrunedKeys(s, now, horizon));
  }

  lemma PruneKeepsWindows(s: State, now: Time, horizon: Time)
    requires Logged(s) && Backed(s)
    ensures Logged(Prune(s, now, horizon)) && Backed(Prune(s, now, horizon))
  {
    forall k | k in s.pending ensures k !in PrunedKeys(s, now, horizon) {
      if k in s.accepted {
        assert !Prunable(s, k, now, horizon);
      }
    }
    FewerAccepted(s, Prune(s, now, horizon));
  }

  lemma PruneKeepsFloorsBelow(s: State, now: Time, horizon: Time)
    requires Logged(s) && FloorsBelow(s) && Separate(s.history)
    ensures FloorsBelow(Prune(s, now, horizon))
  {
    var s' := Prune(s, now, horizon);
    forall k | k in s'.accepted && k.pair in s'.floors ensures s'.floors[k.pair] < s'.accepted[k].start {
      FloorStaysBelow(s, now, horizon, k);
    }
  }

  lemma PruneKeepsErased(s: State, gone: set<WindowKey>)
    requires Erased(s) && gone <= s.accepted.Keys
    ensures forall p :: p in Raised(s.floors, gone) ==> p.consumer !in s.deleted
  {
    forall p | p in Raised(s.floors, gone) ensures p.consumer !in s.deleted {
      if p !in s.floors {
        var k :| k in gone && k.pair == p;
        assert k in s.accepted;
      }
    }
  }

  lemma PruneKeepsCovered(s: State, now: Time, horizon: Time)
    requires Covered(s)
    ensures Covered(Prune(s, now, horizon))
  {
    forall i | 0 <= i < |s.history| && s.history[i].key.pair.consumer !in s.deleted
      ensures Guards(Prune(s, now, horizon), s.history[i])
    {
      PrunedStaysGuarded(s, now, horizon, s.history[i]);
    }
  }

  lemma PrunedStaysGuarded(s: State, now: Time, horizon: Time, e: Entry)
    requires Guards(s, e)
    ensures Guards(Prune(s, now, horizon), e)
  {
    var gone := PrunedKeys(s, now, horizon);
    if e.key in gone || e.key.pair in s.floors {
      FloorOverBounds(s.floors, gone, e.key.pair);
    }
  }

  lemma FloorStaysBelow(s: State, now: Time, horizon: Time, k: WindowKey)
    requires Logged(s) && FloorsBelow(s) && Separate(s.history)
    requires k in Prune(s, now, horizon).accepted && k.pair in Prune(s, now, horizon).floors
    ensures Prune(s, now, horizon).floors[k.pair] < s.accepted[k].start
  {
    var gone := PrunedKeys(s, now, horizon);
    FloorOverBounds(s.floors, gone, k.pair);
    forall j | j in gone && j.pair == k.pair ensures j.end < s.accepted[k].start {
      assert !Pruned(s, k, now, horizon);
      var held :| held in s.accepted && held.pair == k.pair && held.end <= k.end && !Prunable(s, held, now, horizon);
      assert j.end < held.end;
      assert EntryAt(s, j) in s.history && EntryAt(s, k) in s.history;
      TwoOfAPair(s.history, EntryAt(s, j), EntryAt(s, k));
    }
  }

  lemma CancelKeeps(s: State, c: ConsumerId)
    requires Inv(s)
    ensures Inv(Cancel(s, c))
  {
    FewerAccepted(s, Cancel(s, c));
    forall i | 0 <= i < |s.history| && s.history[i].key.pair.consumer !in s.deleted
      ensures Guards(Cancel(s, c), s.history[i])
    {
      assert Guards(s, s.history[i]);
    }
  }

  lemma DeleteKeeps(s: State, c: ConsumerId)
    requires Inv(s)
    ensures Inv(Delete(s, c))
  {
    DeleteKeepsWindows(s, c);
    DeleteKeepsCovered(s, c);
    DeleteErases(s, c);
  }

  lemma DeleteKeepsWindows(s: State, c: ConsumerId)
    requires Logged(s) && Backed(s) && FloorsBelow(s) && Spent(s)
    ensures var s' := Delete(s, c); Logged(s') && Backed(s') && FloorsBelow(s') && Spent(s')
  {
    FewerAccepted(s, Delete(s, c));
  }

  lemma DeleteErases(s: State, c: ConsumerId)
    requires Erased(s)
    ensures Erased(Delete(s, c))
  {
  }

  lemma DeleteKeepsCovered(s: State, c: ConsumerId)
    requires Covered(s)
    ensures Covered(Delete(s, c))
  {
    forall i | 0 <= i < |s.history| && s.history[i].key.pair.consumer !in s.deleted + {c}
      ensures Guards(Delete(s, c), s.history[i])
    {
      assert Guards(s, s.history[i]);
    }
  }

  /** The renamed maps, read at any key. */
  lemma RenamedAt(s: State, old': Pair, new': Pair, k: WindowKey)
    requires Fresh(s, new') && old' != new'
    ensures var s', was := Rename(s, old', new'), RenamedKey(k, new', old');
            && (k in s'.accepted <==> k.pair != old' && was in s.accepted)
            && (k in s'.pending <==> k.pair != old' && was in s.pending)
            && (k in s'.accepted ==> s'.accepted[k] == s.accepted[was])
            && (k in s'.pending ==> s'.pending[k] == RenamedSlash(s.pending[was], was, old', new'))
  {
    var was := RenamedKey(k, new', old');
    if k.pair != old' {
      assert RenamedKey(was, old', new') == k;
    } else {
      forall j ensures RenamedKey(j, old', new') != k {
      }
    }
    forall j | j in s.accepted || j in s.pending ensures RenamedKey(j, old', new') == k ==> j == was {
    }
  }

  lemma RenameKeepsSeparate(es: seq<Entry>, old': Pair, new': Pair)
    requires Separate(es) && forall i :: 0 <= i < |es| ==> es[i].key.pair != new'
    ensures Separate(RenamedLog(es, old', new'))
  {
  }

  ghost predicate Renames(s: State, old': Pair, new': Pair) {
    Fresh(s, new') && old' != new' && old'.consumer == new'.consumer
  }

  lemma RenameKeeps(s: State, old': Pair, new': Pair)
    requires Inv(s) && Renames(s, old', new')
    ensures Inv(Rename(s, old', new'))
  {
    RenameKeepsSeparate(s.history, old', new');
    RenameKeepsSeparate(s.executed, old', new');
    RenameKeepsWindows(s, old', new');
    RenameKeepsCovered(s, old', new');
    RenameKeepsSpent(s, old', new');
    RenameKeepsErased(s, old', new');
  }

  lemma RenameKeepsWindows(s: State, old': Pair, new': Pair)
    requires Logged(s) && Backed(s) && FloorsBelow(s) && Renames(s, old', new')
    ensures Logged(Rename(s, old', new')) && Backed(Rename(s, old', new')) && FloorsBelow(Rename(s, old', new'))
  {
    var s' := Rename(s, old', new');
    forall k | k in s'.accepted
      ensures s'.accepted[k].start <= k.end && EntryAt(s', k) in s'.history
      ensures k.pair in s'.floors ==> s'.floors[k.pair] < s'.accepted[k].start
    {
      RenameKeepsWindow(s, old', new', k);
    }
    forall k | k in s'.pending ensures k in s'.accepted && Matches(s'.pending[k], k, s'.accepted[k].start) {
      RenamedAt(s, old', new', k);
    }
  }

  lemma RenameKeepsWindow(s: State, old': Pair, new': Pair, k: WindowKey)
    requires Logged(s) && FloorsBelow(s) && Renames(s, old', new') && k in Rename(s, old', new').accepted
    ensures var s' := Rename(s, old', new');
            && s'.accepted[k].start <= k.end && EntryAt(s', k) in s'.history
            && (k.pair in s'.floors ==> s'.floors[k.pair] < s'.accepted[k].start)
  {
    RenamedAt(s, old', new', k);
    RenamedMember(s.history, EntryAt(s, RenamedKey(k, new', old')), old', new');
  }

  lemma RenameKeepsCovered(s: State, old': Pair, new': Pair)
    requires Covered(s) && Renames(s, old', new')
    ensures Covered(Rename(s, old', new'))
  {
    var s' := Rename(s, old', new');
    forall i | 0 <= i < |s'.history| && s'.history[i].key.pair.consumer !in s'.deleted
      ensures Guards(s', s'.history[i])
    {
      assert Guards(s, s.history[i]);
      RenamedGuards(s, old', new', s.history[i]);
    }
  }

  lemma RenamedGuards(s: State, old': Pair, new': Pair, e: Entry)
    requires Renames(s, old', new') && Guards(s, e) && e.key.pair != new'
    ensures Guards(Rename(s, old', new'), RenamedEntry(e, old', new'))
  {
    RenamedAt(s, old', new', RenamedKey(e.key, old', new'));
  }

  lemma RenameKeepsSpent(s: State, old': Pair, new': Pair)
    requires Spent(s) && Renames(s, old', new')
    ensures Spent(Rename(s, old', new'))
  {
    var s' := Rename(s, old', new');
    forall i | 0 <= i < |s'.executed| ensures s'.executed[i] in s'.history && s'.executed[i].key !in s'.pending {
      RenamedMember(s.history, s.executed[i], old', new');
      RenamedAt(s, old', new', s'.executed[i].key);
    }
  }

  lemma RenameKeepsErased(s: State, old': Pair, new': Pair)
    requires Erased(s) && Renames(s, old', new')
    ensures Erased(Rename(s, old', new'))
  {
    var s' := Rename(s, old', new');
    forall k | k in s'.accepted ensures k.pair.consumer !in s'.deleted {
      RenamedAt(s, old', new', k);
    }
  }

  lemma RenamedMember(es: seq<Entry>, e: Entry, old': Pair, new': Pair)
    requires e in es
    ensures RenamedEntry(e, old', new') in RenamedLog(es, old', new')
  {
    var i :| 0 <= i < |es| && es[i] == e;
    assert RenamedLog(es, old', new')[i] == RenamedEntry(e, old', new');
  }
}
