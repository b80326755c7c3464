/**
 * State export and import on the provider. Queues, share totals, pending-slash keys and the id sequence are
 * not exported: they are derived again. Bank balances travel with the bank's own genesis.
 */
module Genesis {
  import opened Common
  import opened MapSum
  import opened Accusations
  import L = Lifecycle
  import F = FeePool
  import Q = TimeQueue
  import FK = FeeKeeper
  import D = DowntimeLedger
  import K = KeyAssignment
  import E = Equivocation
  import Agreement

  datatype Item<K, V> = Item(key: K, value: V)

  /** A consumer's own fields; what is absent in the store is None, false or empty. */
  datatype ConsumerState = ConsumerState(
    id: ConsumerId,
    phase: L.Phase,
    spawnTime: Time,
    removalTime: Option<Time>,
    pauseExpiration: Option<Time>,
    pauseReason: Option<L.Reason>,
    pausedAt: Option<Time>,
    lastAck: Option<Time>,
    inDebt: bool)

  datatype GenesisState = GenesisState(
    consumers: seq<ConsumerState>,
    shares: seq<Item<(ConsumerId, Address), int>>,
    records: seq<Item<(ConsumerId, Address), F.Withheld>>,
    runs: seq<Item<(ConsumerId, Time), int>>,
    pending: seq<Slash>,
    accepted: seq<Item<WindowKey, Accepted>>,
    floors: seq<Item<Pair, int>>,
    marks: seq<Pair>,
    consumerKeys: seq<Item<Pair, K.ConsumerKey>>,
    reverse: seq<Item<Pair, Address>>,
    toPrune: seq<Item<Pair, Time>>,
    punished: seq<E.Record>)

  // Enumerates and maps.

  /** The list holds exactly the entries of the map, each once. */
  ghost predicate Enumerates<K, V>(items: seq<Item<K, V>>, m: map<K, V>) {
    && (forall i, j :: 0 <= i < j < |items| ==> items[i].key != items[j].key)
    && (forall i :: 0 <= i < |items| ==> items[i].key in m && m[items[i].key] == items[i].value)
    && (forall k :: k in m ==> Has(items, k))
  }

  ghost predicate Has<K, V>(items: seq<Item<K, V>>, k: K) {
    exists i :: 0 <= i < |items| && items[i].key == k
  }

  /** The map a list is loaded into, entry by entry. */
  function Loaded<K, V>(items: seq<Item<K, V>>): map<K, V> {
    if items == [] then map[] else Loaded(items[..|items| - 1])[items[|items| - 1].key := items[|items| - 1].value]
  }

  lemma HasAppend<K, V>(items: seq<Item<K, V>>, more: seq<Item<K, V>>, k: K)
    ensures Has(items + more, k) <==> Has(items, k) || Has(more, k)
  {
    var all := items + more;
    if Has(items, k) {
      var i :| 0 <= i < |items| && items[i].key == k;
      assert all[i].key == k;
    }
    if Has(more, k) {
      var i :| 0 <= i < |more| && more[i].key == k;
      assert all[|items| + i].key == k;
    }
  }

  lemma {:induction false} LoadedKeys<K, V>(items: seq<Item<K, V>>)
    ensures forall k :: k in Loaded(items) <==> Has(items, k)
    decreases |items|
  {
    if items != [] {
      var init, last := items[..|items| - 1], items[|items| - 1];
      LoadedKeys(init);
      assert items == init + [last];
      forall k ensures k in Loaded(items) <==> Has(items, k) {
        HasAppend(init, [last], k);
        assert [last][0].key == last.key;
      }
    }
  }

  /** Loading a map's list gives the map back. */
  lemma {:induction false} LoadedBack<K, V>(items: seq<Item<K, V>>, m: map<K, V>)
    requires Enumerates(items, m)
    ensures Loaded(items) == m
    decreases |items|
  {
    if items == [] {
      assert m == map[];
    } else {
      var init, last := items[..|items| - 1], items[|items| - 1];
      assert items == init + [last];
      forall k | k in m - {last.key} ensures Has(init, k) {
        HasAppend(init, [last], k);
      }
      LoadedBack(init, m - {last.key});
      assert (m - {last.key})[last.key := last.value] == m;
    }
  }

  method ExportMap<K(==), V>(m: map<K, V>) returns (items: seq<Item<K, V>>)
    ensures Enumerates(items, m)
  {
    items := [];
    var rest := m.Keys;
    while |rest| > 0
      invariant rest <= m.Keys
      invariant Enumerates(items, m - rest)
      decreases |rest|
    {
      var k :| k in rest;
      ListsNext(items, m, rest, k);
      items := items + [Item(k, m[k])];
      rest := rest - {k};
    }
    assert m - rest == m;
  }

  lemma ListsNext<K, V>(items: seq<Item<K, V>>, m: map<K, V>, rest: set<K>, k: K)
    requires rest <= m.Keys && k in rest && Enumerates(items, m - rest)
    ensures Enumerates(items + [Item(k, m[k])], m - (rest - {k}))
  {
    var more := [Item(k, m[k])];
    forall j | j in m - (rest - {k}) ensures Has(items + more, j) {
      HasAppend(items, more, j);
      assert more[0].key == k;
    }
  }

  method ImportMap<K(==), V>(items: seq<Item<K, V>>) returns (m: map<K, V>)
    ensures m == Loaded(items)
  {
    m := map[];
    for i := 0 to |items|
      invariant m == Loaded(items[..i])
    {
      assert items[..i + 1][..i] == items[..i];
      m := m[items[i].key := items[i].value];
    }
    assert items[..|items|] == items;
  }

  // Two-level tables: one row per consumer.

  function Row<K, V>(m: map<(ConsumerId, K), V>, c: ConsumerId): map<K, V> {
    map p | p in m && p.0 == c :: p.1 := m[p]
  }

  ghost function Flat<K, V>(table: map<ConsumerId, map<K, V>>): map<(ConsumerId, K), V> {
    map c, k | c in table && k in table[c] :: (c, k) := table[c][k]
  }

  lemma RowOfFlat<K, V>(table: map<ConsumerId, map<K, V>>, c: ConsumerId)
    ensures Row(Flat(table), c) == if c in table then table[c] else map[]
  {
    var flat := Flat(table);
    forall k ensures (c, k) in flat <==> c in table && k in table[c] {
    }
  }

  method ExportTable<K(==), V>(table: map<ConsumerId, map<K, V>>) returns (items: seq<Item<(ConsumerId, K), V>>)
    ensures Enumerates(items, Flat(table))
  {
    var flat := map c, k | c in table && k in table[c] :: (c, k) := table[c][k];
    items := ExportMap(flat);
  }

  // Consumers and queues.

  ghost function OptionAt<V>(m: map<ConsumerId, V>, c: ConsumerId): Option<V> {
    if c in m then Some(m[c]) else None
  }

  /** What is exported of one consumer. */
  ghost function StateOf(b: L.Book, lastAcks: map<ConsumerId, Time>, inDebt: bool, c: ConsumerId): ConsumerState
    requires c in b.phases && c in b.spawnTimes
  {
    ConsumerState(
      c, b.phases[c], b.spawnTimes[c], OptionAt(b.removalTimes, c), OptionAt(b.pauseExpirations, c),
      OptionAt(b.pauseReasons, c), OptionAt(b.pausedAt, c), OptionAt(lastAcks, c), inDebt)
  }

  predicate DistinctIds(cs: seq<ConsumerState>) {
    forall i, j :: 0 <= i < j < |cs| ==> cs[i].id != cs[j].id
  }

  ghost function IdsOf(cs: seq<ConsumerState>): set<ConsumerId> {
    set i | 0 <= i < |cs| :: cs[i].id
  }

  ghost predicate ExportsConsumers(
    cs: seq<ConsumerState>, b: L.Book, lastAcks: map<ConsumerId, Time>, inDebt: map<ConsumerId, bool>)
  {
    && DistinctIds(cs) && IdsOf(cs) == b.phases.Keys && b.spawnTimes.Keys == b.phases.Keys
    && forall i :: 0 <= i < |cs| ==> cs[i] == StateOf(b, lastAcks, DebtAt(inDebt, cs[i].id), cs[i].id)
  }

  function DebtAt(inDebt: map<ConsumerId, bool>, c: ConsumerId): bool {
    c in inDebt && inDebt[c]
  }

  ghost predicate SameOption<V>(o: Option<V>, m: map<ConsumerId, V>, c: ConsumerId) {
    OptionAt(m, c) == o
  }

  /** The per-consumer fields loaded from the list. */
  ghost predicate ImportsConsumers(cs: seq<ConsumerState>, b: L.Book, lastAcks: map<ConsumerId, Time>) {
    && b.phases.Keys == IdsOf(cs) && b.spawnTimes.Keys == IdsOf(cs)
    && b.removalTimes.Keys <= IdsOf(cs) && b.pauseExpirations.Keys <= IdsOf(cs) && b.pauseReasons.Keys <= IdsOf(cs)
    && b.pausedAt.Keys <= IdsOf(cs) && lastAcks.Keys <= IdsOf(cs)
    && forall i :: 0 <= i < |cs| ==> Restored(cs[i], b, lastAcks)
  }

  ghost predicate Restored(s: ConsumerState, b: L.Book, lastAcks: map<ConsumerId, Time>) {
    && s.id in b.phases && b.phases[s.id] == s.phase
    && s.id in b.spawnTimes && b.spawnTimes[s.id] == s.spawnTime
    && SameOption(s.removalTime, b.removalTimes, s.id)
    && SameOption(s.pauseExpiration, b.pauseExpirations, s.id)
    && SameOption(s.pauseReason, b.pauseReasons, s.id)
    && SameOption(s.pausedAt, b.pausedAt, s.id)
    && SameOption(s.lastAck, lastAcks, s.id)
  }

  lemma IdsOfAppend(cs: seq<ConsumerState>, s: ConsumerState)
    ensures IdsOf(cs + [s]) == IdsOf(cs) + {s.id}
  {
    var all := cs + [s];
    assert all[|cs|] == s && all[|cs|].id in IdsOf(all);
    forall i | 0 <= i < |cs| ensures all[i] == cs[i] && cs[i].id in IdsOf(all) && cs[i].id in IdsOf(cs) {
      assert all[i].id in IdsOf(all);
    }
    forall c | c in IdsOf(all) ensures c in IdsOf(cs) + {s.id} {
      var i :| 0 <= i < |all| && all[i].id == c;
      assert i < |cs| ==> all[i] == cs[i];
    }
  }

  /** One past the highest id, or zero. */
  ghost predicate NextAfter(cs: seq<ConsumerState>, next: nat) {
    && (forall i :: 0 <= i < |cs| ==> cs[i].id < next)
    && (cs == [] ==> next == 0)
    && (cs != [] ==> exists i :: 0 <= i < |cs| && cs[i].id + 1 == next)
  }

  /** Queues derived from the fields: every consumer in its phase's queue at its time. */
  ghost predicate QueuesDerived(b: L.Book) {
    && L.Lined(b.launches, b.phases, L.Initialized, b.spawnTimes, b.launching)
    && L.Lined(b.removals, b.phases, L.Stopped, b.removalTimes, b.removing)
    && L.Lined(b.autoStops, b.phases, L.Paused, b.pauseExpirations, b.stopping)
  }

  /** Two queues in step with the same times hold the same ids in every bucket. */
  lemma SameBuckets(q: Q.Buckets, q': Q.Buckets, times: map<ConsumerId, Time>)
    requires Q.Exact(q, times) && Q.Exact(q', times)
    ensures q.Keys == q'.Keys && forall t :: t in q ==> Q.Ids(q[t]) == Q.Ids(q'[t])
  {
    OneWay(q, q', times);
    OneWay(q', q, times);
    forall t ensures t in q <==> t in q' {
    }
    forall t | t in q ensures Q.Ids(q[t]) == Q.Ids(q'[t]) {
    }
  }

  lemma OneWay(q: Q.Buckets, q': Q.Buckets, times: map<ConsumerId, Time>)
    requires Q.Exact(q, times) && Q.Exact(q', times)
    ensures forall t :: t in q ==> t in q' && Q.Ids(q[t]) <= Q.Ids(q'[t])
  {
    forall t | t in q ensures t in q' && Q.Ids(q[t]) <= Q.Ids(q'[t]) {
      assert q[t][0] in times && times[q[t][0]] == t;
      forall c | c in q[t] ensures c in q'[t] {
        var i :| 0 <= i < |q[t]| && q[t][i] == c;
        assert times[c] == t;
      }
    }
  }

  lemma FieldRestored<V>(m: map<ConsumerId, V>, m': map<ConsumerId, V>, ids: set<ConsumerId>)
    requires m.Keys <= ids && m'.Keys <= ids && forall c :: c in ids ==> OptionAt(m, c) == OptionAt(m', c)
    ensures m == m'
  {
    forall c | c in m || c in m' ensures c in m && c in m' && m[c] == m'[c] {
      assert c in ids;
      assert OptionAt(m, c) == OptionAt(m', c);
    }
  }

  /** Import after export restores phases, times and the id sequence, and every queue bucket as a set. */
  lemma LifecycleRoundTrip(
    cs: seq<ConsumerState>, b: L.Book, lastAcks: map<ConsumerId, Time>, inDebt: map<ConsumerId, bool>, b': L.Book,
    lastAcks': map<ConsumerId, Time>)
    requires L.Good(b) && L.Idle(b) && lastAcks.Keys <= b.phases.Keys
    requires ExportsConsumers(cs, b, lastAcks, inDebt)
    requires ImportsConsumers(cs, b', lastAcks') && QueuesDerived(b') && L.Idle(b') && NextAfter(cs, b'.nextId)
    ensures SameLifecycle(b, b') && lastAcks' == lastAcks
  {
    FieldsRoundTrip(cs, b, lastAcks, inDebt, b', lastAcks');
    SequenceRoundTrip(cs, b, b'.nextId);
    SameBuckets(b.launches, b'.launches, L.Waiting(b.phases, L.Initialized, b.spawnTimes, {}));
    SameBuckets(b.removals, b'.removals, L.Waiting(b.phases, L.Stopped, b.removalTimes, {}));
    SameBuckets(b.autoStops, b'.autoStops, L.Waiting(b.phases, L.Paused, b.pauseExpirations, {}));
  }

  /** The same phases, times and sequence, and the same ids in every bucket of the queues. */
  ghost predicate SameLifecycle(b: L.Book, b': L.Book) {
    && b'.phases == b.phases && b'.spawnTimes == b.spawnTimes && b'.removalTimes == b.removalTimes
    && b'.pauseExpirations == b.pauseExpirations && b'.pauseReasons == b.pauseReasons && b'.pausedAt == b.pausedAt
    && b'.nextId == b.nextId && SameQueue(b.launches, b'.launches) && SameQueue(b.removals, b'.removals)
    && SameQueue(b.autoStops, b'.autoStops)
  }

  ghost predicate SameQueue(q: Q.Buckets, q': Q.Buckets) {
    q.Keys == q'.Keys && forall t :: t in q ==> Q.Ids(q[t]) == Q.Ids(q'[t])
  }

  lemma FieldsRoundTrip(
    cs: seq<ConsumerState>, b: L.Book, lastAcks: map<ConsumerId, Time>, inDebt: map<ConsumerId, bool>, b': L.Book,
    lastAcks': map<ConsumerId, Time>)
    requires L.Recorded(b) && lastAcks.Keys <= b.phases.Keys
    requires ExportsConsumers(cs, b, lastAcks, inDebt) && ImportsConsumers(cs, b', lastAcks')
    ensures b'.phases == b.phases && b'.spawnTimes == b.spawnTimes && b'.removalTimes == b.removalTimes
    ensures b'.pauseExpirations == b.pauseExpirations && b'.pauseReasons == b.pauseReasons && b'.pausedAt == b.pausedAt
    ensures lastAcks' == lastAcks
  {
    var ids := IdsOf(cs);
    forall c | c in ids ensures SameConsumer(b, lastAcks, b', lastAcks', c) {
      ConsumerRoundTrip(cs, b, lastAcks, inDebt, b', lastAcks', c);
    }
    LaunchFieldsRestored(b, lastAcks, b', lastAcks', ids);
    PauseFieldsRestored(b, lastAcks, b', lastAcks', ids);
  }

  lemma LaunchFieldsRestored(
    b: L.Book, lastAcks: map<ConsumerId, Time>, b': L.Book, lastAcks': map<ConsumerId, Time>, ids: set<ConsumerId>)
    requires forall c :: c in ids ==> SameConsumer(b, lastAcks, b', lastAcks', c)
    requires b.phases.Keys == ids && b'.phases.Keys == ids && b.spawnTimes.Keys == ids && b'.spawnTimes.Keys == ids
    requires lastAcks.Keys <= ids && lastAcks'.Keys <= ids
    ensures b'.phases == b.phases && b'.spawnTimes == b.spawnTimes && lastAcks' == lastAcks
  {
    FieldRestored(b.phases, b'.phases, ids);
    FieldRestored(b.spawnTimes, b'.spawnTimes, ids);
    FieldRestored(lastAcks, lastAcks', ids);
  }

  lemma PauseFieldsRestored(
    b: L.Book, lastAcks: map<ConsumerId, Time>, b': L.Book, lastAcks': map<ConsumerId, Time>, ids: set<ConsumerId>)
    requires forall c :: c in ids ==> SameConsumer(b, lastAcks, b', lastAcks', c)
    requires b.removalTimes.Keys <= ids && b'.removalTimes.Keys <= ids
    requires b.pauseExpirations.Keys <= ids && b'.pauseExpirations.Keys <= ids
    requires b.pauseReasons.Keys <= ids && b'.pauseReasons.Keys <= ids && b.pausedAt.Keys <= ids
    requires b'.pausedAt.Keys <= ids
    ensures b'.removalTimes == b.removalTimes && b'.pauseExpirations == b.pauseExpirations
    ensures b'.pauseReasons == b.pauseReasons && b'.pausedAt == b.pausedAt
  {
    FieldRestored(b.removalTimes, b'.removalTimes, ids);
    FieldRestored(b.pauseExpirations, b'.pauseExpirations, ids);
    FieldRestored(b.pauseReasons, b'.pauseReasons, ids);
    FieldRestored(b.pausedAt, b'.pausedAt, ids);
  }

  ghost predicate SameConsumer(
    b: L.Book, lastAcks: map<ConsumerId, Time>, b': L.Book, lastAcks': map<ConsumerId, Time>, c: ConsumerId)
  {
    && OptionAt(b.phases, c) == OptionAt(b'.phases, c)
    && OptionAt(b.spawnTimes, c) == OptionAt(b'.spawnTimes, c)
    && OptionAt(b.removalTimes, c) == OptionAt(b'.removalTimes, c)
    && OptionAt(b.pauseExpirations, c) == OptionAt(b'.pauseExpirations, c)
    && OptionAt(b.pauseReasons, c) == OptionAt(b'.pauseReasons, c)
    && OptionAt(b.pausedAt, c) == OptionAt(b'.pausedAt, c)
    && OptionAt(lastAcks, c) == OptionAt(lastAcks', c)
  }

  lemma ConsumerRoundTrip(
    cs: seq<ConsumerState>, b: L.Book, lastAcks: map<ConsumerId, Time>, inDebt: map<ConsumerId, bool>, b': L.Book,
    lastAcks': map<ConsumerId, Time>, c: ConsumerId)
    requires ExportsConsumers(cs, b, lastAcks, inDebt) && ImportsConsumers(cs, b', lastAcks') && c in IdsOf(cs)
    ensures SameConsumer(b, lastAcks, b', lastAcks', c)
  {
    var i :| 0 <= i < |cs| && cs[i].id == c;
    assert Restored(cs[i], b', lastAcks');
  }

  lemma SequenceRoundTrip(cs: seq<ConsumerState>, b: L.Book, next: nat)
    requires L.Recorded(b) && L.Numbered(b) && IdsOf(cs) == b.phases.Keys && NextAfter(cs, next)
    ensures next == b.nextId
  {
    forall i | 0 <= i < |cs| ensures cs[i].id in IdsOf(cs) && cs[i].id < b.nextId {
    }
    if b.nextId > 0 {
      assert b.nextId - 1 in IdsOf(cs);
      var i :| 0 <= i < |cs| && cs[i].id == b.nextId - 1;
      var j :| 0 <= j < |cs| && cs[j].id + 1 == next;
    }
  }

  method ExportConsumers(b: L.Registry, inDebt: map<ConsumerId, bool>) returns (cs: seq<ConsumerState>)
    requires b.spawnTimes.Keys == b.phases.Keys
    ensures ExportsConsumers(cs, b.Current(), b.lastAcks, inDebt)
  {
    cs := [];
    var rest := b.phases.Keys;
    ghost var done: set<ConsumerId> := {};
    while |rest| > 0
      invariant rest <= b.phases.Keys && done == b.phases.Keys - rest
      invariant ExportsThese(cs, done, b.Current(), b.lastAcks, inDebt)
      decreases |rest|
    {
      var c: ConsumerId :| c in rest;
      var s := ExportConsumer(b, DebtAt(inDebt, c), c);
      ExportsNext(cs, done, b.Current(), b.lastAcks, inDebt, c, s);
      cs := cs + [s];
      rest := rest - {c};
      done := done + {c};
    }
    assert done == b.phases.Keys;
  }

  ghost predicate ExportsThese(
    cs: seq<ConsumerState>, done: set<ConsumerId>, b: L.Book, lastAcks: map<ConsumerId, Time>,
    inDebt: map<ConsumerId, bool>)
  {
    && b.spawnTimes.Keys == b.phases.Keys && done <= b.phases.Keys
    && DistinctIds(cs) && IdsOf(cs) == done
    && forall i :: 0 <= i < |cs|
          ==> cs[i].id in done && cs[i] == StateOf(b, lastAcks, DebtAt(inDebt, cs[i].id), cs[i].id)
  }

  lemma ExportsNext(
    cs: seq<ConsumerState>, done: set<ConsumerId>, b: L.Book, lastAcks: map<ConsumerId, Time>,
    inDebt: map<ConsumerId, bool>, c: ConsumerId, s: ConsumerState)
    requires ExportsThese(cs, done, b, lastAcks, inDebt) && c in b.phases && c !in done
    requires s == StateOf(b, lastAcks, DebtAt(inDebt, c), c)
    ensures ExportsThese(cs + [s], done + {c}, b, lastAcks, inDebt)
  {
    IdsOfAppend(cs, s);
  }

  method ExportConsumer(b: L.Registry, inDebt: bool, c: ConsumerId) returns (s: ConsumerState)
    requires c in b.phases && c in b.spawnTimes
    ensures s == StateOf(b.Current(), b.lastAcks, inDebt, c)
  {
    s := ConsumerState(
      c, b.phases[c], b.spawnTimes[c],
      if c in b.removalTimes then Some(b.removalTimes[c]) else None,
      if c in b.pauseExpirations then Some(b.pauseExpirations[c]) else None,
      if c in b.pauseReasons then Some(b.pauseReasons[c]) else None,
      if c in b.pausedAt then Some(b.pausedAt[c]) else None,
      if c in b.lastAcks then Some(b.lastAcks[c]) else None,
      inDebt);
  }

  /** First pass: the per-consumer fields. */
  method ImportFields(r: L.Registry, cs: seq<ConsumerState>)
    requires DistinctIds(cs) && r.Current() == L.EMPTY_BOOK && r.lastAcks == map[]
    modifies r
    ensures ImportsConsumers(cs, r.Current(), r.lastAcks)
    ensures r.launching == {} && r.removing == {} && r.stopping == {} && r.nextId == 0
    ensures r.launches.buckets == map[] && r.removals.buckets == map[] && r.autoStops.buckets == map[]
  {
    var i := 0;
    ghost var done: seq<ConsumerState> := [];
    while i < |cs|
      invariant 0 <= i <= |cs| && done == cs[..i]
      invariant ImportsConsumers(done, r.Current(), r.lastAcks)
      invariant r.launching == {} && r.removing == {} && r.stopping == {} && r.nextId == 0
    {
      NotYet(cs, i);
      FilledImports(done, r.Current(), r.lastAcks, cs[i]);
      ImportField(r, cs[i]);
      done := done + [cs[i]];
      i := i + 1;
    }
    assert done == cs;
  }

  lemma NotYet(cs: seq<ConsumerState>, i: nat)
    requires DistinctIds(cs) && i < |cs|
    ensures cs[i].id !in IdsOf(cs[..i]) && cs[..i + 1] == cs[..i] + [cs[i]]
  {
  }

  /** Written only when the exported field is present. */
  function Placed<V>(m: map<ConsumerId, V>, c: ConsumerId, o: Option<V>): map<ConsumerId, V> {
    if o.Some? then m[c := o.value] else m
  }

  ghost function Filled(b: L.Book, s: ConsumerState): L.Book {
    b.(phases := b.phases[s.id := s.phase],
       spawnTimes := b.spawnTimes[s.id := s.spawnTime],
       removalTimes := Placed(b.removalTimes, s.id, s.removalTime),
       pauseExpirations := Placed(b.pauseExpirations, s.id, s.pauseExpiration),
       pauseReasons := Placed(b.pauseReasons, s.id, s.pauseReason),
       pausedAt := Placed(b.pausedAt, s.id, s.pausedAt))
  }

  lemma FilledImports(done: seq<ConsumerState>, b: L.Book, lastAcks: map<ConsumerId, Time>, s: ConsumerState)
    requires ImportsConsumers(done, b, lastAcks) && s.id !in IdsOf(done)
    ensures ImportsConsumers(done + [s], Filled(b, s), Placed(lastAcks, s.id, s.lastAck))
  {
    IdsOfAppend(done, s);
    forall i | 0 <= i < |done| ensures Restored(done[i], Filled(b, s), Placed(lastAcks, s.id, s.lastAck)) {
      assert done[i].id in IdsOf(done);
      OthersRestored(done[i], b, lastAcks, s);
    }
    FilledHere(b, lastAcks, s);
  }

  lemma OthersRestored(t: ConsumerState, b: L.Book, lastAcks: map<ConsumerId, Time>, s: ConsumerState)
    requires Restored(t, b, lastAcks) && t.id != s.id
    ensures Restored(t, Filled(b, s), Placed(lastAcks, s.id, s.lastAck))
  {
  }

  lemma FilledHere(b: L.Book, lastAcks: map<ConsumerId, Time>, s: ConsumerState)
    requires s.id !in b.removalTimes && s.id !in b.pauseExpirations && s.id !in b.pauseReasons && s.id !in b.pausedAt
    requires s.id !in lastAcks
    ensures Restored(s, Filled(b, s), Placed(lastAcks, s.id, s.lastAck))
  {
  }

  method ImportField(r: L.Registry, s: ConsumerState)
    modifies r`phases, r`spawnTimes, r`removalTimes, r`pauseExpirations, r`pauseReasons, r`pausedAt, r`lastAcks
    ensures r.Current() == Filled(old(r.Current()), s) && r.lastAcks == Placed(old(r.lastAcks), s.id, s.lastAck)
  {
    r.phases := r.phases[s.id := s.phase];
    r.spawnTimes := r.spawnTimes[s.id := s.spawnTime];
    r.removalTimes := Placed(r.removalTimes, s.id, s.removalTime);
    r.pauseExpirations := Placed(r.pauseExpirations, s.id, s.pauseExpiration);
    r.pauseReasons := Placed(r.pauseReasons, s.id, s.pauseReason);
    r.pausedAt := Placed(r.pausedAt, s.id, s.pausedAt);
    r.lastAcks := Placed(r.lastAcks, s.id, s.lastAck);
  }

  /** Second pass: each consumer joins the queue of its phase; the sequence moves past the highest id. */
  method ImportQueues(r: L.Registry, cs: seq<ConsumerState>)
    requires r.Apart() && DistinctIds(cs) && ImportsConsumers(cs, r.Current(), r.lastAcks)
    requires r.launches.buckets == map[] && r.removals.buckets == map[] && r.autoStops.buckets == map[]
    requires r.launching == {} && r.removing == {} && r.stopping == {}
    modifies r.launches, r.removals, r.autoStops, r`nextId
    ensures QueuesDerived(r.Current()) && NextAfter(cs, r.nextId)
  {
    r.nextId := 0;
    NobodyWaits(r, IdsOf(cs));
    ImportEach(r, cs);
    EveryoneWaits(r);
  }

  /** Queues every consumer, the id sequence starting over. */
  method ImportEach(r: L.Registry, cs: seq<ConsumerState>)
    requires r.Apart() && DistinctIds(cs) && ImportsConsumers(cs, r.Current(), r.lastAcks)
    requires r.nextId == 0 && Derived(r, IdsOf(cs))
    modifies r.launches, r.removals, r.autoStops, r`nextId
    ensures Derived(r, {}) && NextAfter(cs, r.nextId)
  {
    ghost var b := r.Current();
    FromStartToEnd(cs);
    var i := 0;
    while i < |cs|
      invariant 0 <= i <= |cs|
      invariant NextAfter(cs[..i], r.nextId) && Derived(r, IdsOf(cs[i..]))
    {
      RestoredStill(cs[i], b, r.Current(), r.lastAcks);
      ImportNext(r, cs, i);
      i := i + 1;
    }
  }

  method ImportNext(r: L.Registry, cs: seq<ConsumerState>, i: nat)
    requires r.Apart() && DistinctIds(cs) && i < |cs| && Restored(cs[i], r.Current(), r.lastAcks)
    requires NextAfter(cs[..i], r.nextId) && Derived(r, IdsOf(cs[i..]))
    modifies r.launches, r.removals, r.autoStops, r`nextId
    ensures NextAfter(cs[..i + 1], r.nextId) && Derived(r, IdsOf(cs[i + 1..]))
  {
    LeftNext(cs, i);
    NextNext(cs, i, r.nextId);
    ImportQueue(r, cs[i], IdsOf(cs[i..]));
    if cs[i].id + 1 > r.nextId {
      r.nextId := cs[i].id + 1;
    }
  }

  /** Queues and the id sequence have no part in what is restored of one consumer. */
  lemma RestoredStill(s: ConsumerState, b: L.Book, b': L.Book, lastAcks: map<ConsumerId, Time>)
    requires Restored(s, b, lastAcks)
    requires b'.phases == b.phases && b'.spawnTimes == b.spawnTimes && b'.removalTimes == b.removalTimes
    requires b'.pauseExpirations == b.pauseExpirations && b'.pauseReasons == b.pauseReasons && b'.pausedAt == b.pausedAt
    ensures Restored(s, b', lastAcks)
  {
  }

  lemma FromStartToEnd(cs: seq<ConsumerState>)
    ensures IdsOf(cs[0..]) == IdsOf(cs) && IdsOf(cs[|cs|..]) == {}
    ensures NextAfter(cs[..0], 0) && forall next :: NextAfter(cs[..|cs|], next) ==> NextAfter(cs, next)
  {
    assert cs[0..] == cs && cs[..|cs|] == cs;
  }

  /** The queues hold everyone but the ids still to come. */
  ghost predicate Derived(r: L.Registry, left: set<ConsumerId>)
    reads r, r.launches, r.removals, r.autoStops
  {
    && L.Lined(r.launches.buckets, r.phases, L.Initialized, r.spawnTimes, left)
    && L.Lined(r.removals.buckets, r.phases, L.Stopped, r.removalTimes, left)
    && L.Lined(r.autoStops.buckets, r.phases, L.Paused, r.pauseExpirations, left)
  }

  lemma NobodyWaits(r: L.Registry, ids: set<ConsumerId>)
    requires r.phases.Keys <= ids
    requires r.launches.buckets == map[] && r.removals.buckets == map[] && r.autoStops.buckets == map[]
    ensures Derived(r, ids)
  {
    assert L.Waiting(r.phases, L.Initialized, r.spawnTimes, ids) == map[];
    assert L.Waiting(r.phases, L.Stopped, r.removalTimes, ids) == map[];
    assert L.Waiting(r.phases, L.Paused, r.pauseExpirations, ids) == map[];
  }

  lemma EveryoneWaits(r: L.Registry)
    requires Derived(r, {}) && r.launching == {} && r.removing == {} && r.stopping == {}
    ensures QueuesDerived(r.Current())
  {
  }

  lemma LeftNext(cs: seq<ConsumerState>, i: nat)
    requires DistinctIds(cs) && i < |cs|
    ensures cs[i].id in IdsOf(cs[i..]) && IdsOf(cs[i..]) - {cs[i].id} == IdsOf(cs[i + 1..])
  {
    var rest := cs[i + 1..];
    assert cs[i..][0] == cs[i];
    forall c | c in IdsOf(rest) ensures c in IdsOf(cs[i..]) && c != cs[i].id {
      var j :| 0 <= j < |rest| && rest[j].id == c;
      assert cs[i..][j + 1].id == c;
    }
    forall c | c in IdsOf(cs[i..]) && c != cs[i].id ensures c in IdsOf(rest) {
      var j :| 0 <= j < |cs[i..]| && cs[i..][j].id == c;
      assert rest[j - 1].id == c;
    }
  }

  lemma NextNext(cs: seq<ConsumerState>, i: nat, next: nat)
    requires i < |cs| && NextAfter(cs[..i], next)
    ensures NextAfter(cs[..i + 1], if cs[i].id + 1 > next then cs[i].id + 1 else next)
  {
    var now := cs[..i + 1];
    assert now[i] == cs[i];
    if i > 0 {
      var j :| 0 <= j < i && cs[..i][j].id + 1 == next;
      assert now[j].id + 1 == next;
    }
  }

  method ImportQueue(r: L.Registry, s: ConsumerState, ghost left: set<ConsumerId>)
    requires r.Apart() && Derived(r, left) && s.id in left && Restored(s, r.Current(), r.lastAcks)
    modifies r.launches, r.removals, r.autoStops
    ensures Derived(r, left - {s.id})
  {
    ghost var c := s.id;
    JoinsOrNot(r.launches.buckets, r.phases, L.Initialized, r.spawnTimes, left, c);
    JoinsOrNot(r.removals.buckets, r.phases, L.Stopped, r.removalTimes, left, c);
    JoinsOrNot(r.autoStops.buckets, r.phases, L.Paused, r.pauseExpirations, left, c);
    if s.phase == L.Initialized {
      r.launches.Append(s.id, s.spawnTime);
    }
    if s.phase == L.Stopped && s.removalTime.Some? {
      r.removals.Append(s.id, s.removalTime.value);
    }
    if s.phase == L.Paused && s.pauseExpiration.Some? {
      r.autoStops.Append(s.id, s.pauseExpiration.value);
    }
  }

  lemma JoinsOrNot(
    q: Q.Buckets, phases: L.Phases, p: L.Phase, times: map<ConsumerId, Time>, left: set<ConsumerId>, c: ConsumerId)
    requires L.Lined(q, phases, p, times, left) && c in left && c in phases
    ensures if phases[c] == p && c in times then L.Lined(Q.Appended(q, c, times[c]), phases, p, times, left - {c})
            else L.Lined(q, phases, p, times, left - {c})
  {
    var waiting := L.Waiting(phases, p, times, left);
    if phases[c] == p && c in times {
      Q.AppendKeepsExact(q, waiting, c, times[c]);
      assert L.Waiting(phases, p, times, left - {c}) == waiting[c := times[c]];
    } else {
      assert L.Waiting(phases, p, times, left - {c}) == waiting;
    }
  }

  // Downtime bookkeeping.

  /** The key of an exported slash: its window end follows from its start and span. */
  function DerivedKey(slash: Slash): WindowKey {
    WindowKey(Pair(slash.consumer, slash.provider), slash.start + slash.span - 1)
  }

  predicate HasValues(items: seq<Item<WindowKey, Slash>>, slashes: seq<Slash>) {
    |items| == |slashes| && forall i :: 0 <= i < |items| ==> items[i].value == slashes[i]
  }

  ghost predicate ListsPending(slashes: seq<Slash>, pending: map<WindowKey, Slash>) {
    exists items: seq<Item<WindowKey, Slash>> :: Enumerates(items, pending) && HasValues(items, slashes)
  }

  method ExportPending(pending: map<WindowKey, Slash>) returns (slashes: seq<Slash>)
    ensures ListsPending(slashes, pending)
  {
    var items := ExportMap(pending);
    slashes := [];
    for i := 0 to |items|
      invariant |slashes| == i && forall j :: 0 <= j < i ==> items[j].value == slashes[j]
    {
      slashes := slashes + [items[i].value];
    }
  }

  ghost function Keyed(slashes: seq<Slash>): seq<Item<WindowKey, Slash>> {
    seq(|slashes|, i requires 0 <= i < |slashes| => Item(DerivedKey(slashes[i]), slashes[i]))
  }

  method ImportPending(slashes: seq<Slash>) returns (pending: map<WindowKey, Slash>)
    ensures pending == Loaded(Keyed(slashes))
  {
    pending := map[];
    for i := 0 to |slashes|
      invariant pending == Loaded(Keyed(slashes[..i]))
    {
      assert Keyed(slashes[..i + 1])[..i] == Keyed(slashes[..i]);
      pending := pending[DerivedKey(slashes[i]) := slashes[i]];
    }
    assert slashes[..|slashes|] == slashes;
  }

  /** Slashes come back under the keys they were stored under, because every key agrees with its slash. */
  lemma PendingRoundTrip(s: State, slashes: seq<Slash>)
    requires Backed(s) && ListsPending(slashes, s.pending)
    ensures Loaded(Keyed(slashes)) == s.pending
  {
    var items: seq<Item<WindowKey, Slash>> :| Enumerates(items, s.pending) && HasValues(items, slashes);
    ItemsKeyed(s, items, slashes);
    LoadedBack(items, s.pending);
  }

  lemma ItemsKeyed(s: State, items: seq<Item<WindowKey, Slash>>, slashes: seq<Slash>)
    requires Backed(s) && |items| == |slashes|
    requires forall i :: 0 <= i < |items| ==>
      items[i].key in s.pending && s.pending[items[i].key] == items[i].value && items[i].value == slashes[i]
    ensures items == Keyed(slashes)
  {
    forall i | 0 <= i < |items| ensures items[i] == Item(DerivedKey(slashes[i]), slashes[i]) {
      KeyDerived(s, items[i].key);
    }
  }

  lemma KeyDerived(s: State, k: WindowKey)
    requires Backed(s) && k in s.pending
    ensures DerivedKey(s.pending[k]) == k
  {
    assert Matches(s.pending[k], k, s.accepted[k].start);
  }

  method ExportSet<T(==)>(s: set<T>) returns (items: seq<T>)
    ensures forall x :: x in items <==> x in s
  {
    items := [];
    var rest := s;
    while |rest| > 0
      invariant rest <= s && forall x :: x in items <==> x in s - rest
      decreases |rest|
    {
      var x :| x in rest;
      items := items + [x];
      rest := rest - {x};
    }
  }

  method ImportSet<T(==)>(items: seq<T>) returns (s: set<T>)
    ensures forall x :: x in s <==> x in items
  {
    s := {};
    for i := 0 to |items|
      invariant forall x :: x in s <==> x in items[..i]
    {
      assert items[..i + 1] == items[..i] + [items[i]];
      s := s + {items[i]};
    }
    assert items[..|items|] == items;
  }

  // Fee pools.

  /** The share totals, added up while the shares are loaded. */
  method ImportShares(items: seq<Item<(ConsumerId, Address), int>>)
    returns (shares: map<(ConsumerId, Address), int>, totals: map<ConsumerId, int>)
    requires forall i, j :: 0 <= i < j < |items| ==> items[i].key != items[j].key
    ensures shares == Loaded(items) && TotalsOf(totals, shares)
  {
    shares, totals := map[], map[];
    var i := 0;
    while i < |items|
      invariant 0 <= i <= |items| && shares == Loaded(items[..i]) && TotalsOf(totals, shares)
    {
      assert items[..i + 1][..i] == items[..i];
      FreshItem(items, i);
      var key, v := items[i].key, items[i].value;
      TotalsNext(totals, shares, key, v);
      shares := shares[key := v];
      totals := totals[key.0 := if key.0 in totals then totals[key.0] + v else v];
      i := i + 1;
    }
    assert items[..i] == items;
  }

  /** Each consumer with shares has the sum of its shares, and nobody else has a total. */
  ghost predicate TotalsOf(totals: map<ConsumerId, int>, shares: map<(ConsumerId, Address), int>) {
    && (forall c :: c in totals <==> Row(shares, c) != map[])
    && (forall c :: c in totals ==> totals[c] == Sum(Row(shares, c)))
  }

  lemma FreshItem(items: seq<Item<(ConsumerId, Address), int>>, i: nat)
    requires i < |items| && forall j, k :: 0 <= j < k < |items| ==> items[j].key != items[k].key
    ensures items[i].key !in Loaded(items[..i])
  {
    LoadedKeys(items[..i]);
  }

  lemma TotalsNext(
    totals: map<ConsumerId, int>, shares: map<(ConsumerId, Address), int>, key: (ConsumerId, Address), v: int)
    requires TotalsOf(totals, shares) && key !in shares
    ensures TotalsOf(totals[key.0 := if key.0 in totals then totals[key.0] + v else v], shares[key := v])
  {
    var totals', more := totals[key.0 := if key.0 in totals then totals[key.0] + v else v], shares[key := v];
    forall c ensures (c in totals' <==> Row(more, c) != map[]) && (c in totals' ==> totals'[c] == Sum(Row(more, c))) {
      RowUpdate(shares, key, v, c);
      if c == key.0 {
        var row := Row(shares, c);
        SumUpdate(row, key.1, v);
        assert key.1 in row[key.1 := v];
        assert c !in totals ==> row == map[];
      }
    }
  }

  lemma RowUpdate(shares: map<(ConsumerId, Address), int>, key: (ConsumerId, Address), v: int, c: ConsumerId)
    requires key !in shares
    ensures Row(shares[key := v], c) == if c == key.0 then Row(shares, c)[key.1 := v] else Row(shares, c)
    ensures c == key.0 ==> key.1 !in Row(shares, c)
  {
    var a, b := Row(shares[key := v], c), if c == key.0 then Row(shares, c)[key.1 := v] else Row(shares, c);
    forall k ensures k in a <==> k in b {
      assert k in a <==> (c, k) in shares[key := v];
      assert k in Row(shares, c) <==> (c, k) in shares;
    }
  }

  /** A pool as import assembles it from the tables, the totals and the bank. */
  function Assembled(
    c: ConsumerId, balance: int, shares: map<(ConsumerId, Address), int>, totals: map<ConsumerId, int>,
    records: map<(ConsumerId, Address), F.Withheld>, runs: map<(ConsumerId, Time), int>, inDebt: bool,
    deleted: bool): F.Pool
  {
    var total := if c in totals then Some(totals[c]) else None;
    var p := F.Pool(balance, Row(shares, c), total, Row(records, c), inDebt, Row(runs, c));
    if !deleted && balance > 0 && c !in totals then F.Absorbed(p) else p
  }

  /**
   * A pool whose tokens are all accounted for comes back as it was, its total recomputed. The three tables
   * are the share, record and run tables the pools' own are flattened from.
   */
  lemma PoolRoundTrip(
    c: ConsumerId, p: F.Pool, deleted: bool, shareTable: map<ConsumerId, map<Address, int>>,
    recordTable: map<ConsumerId, map<Address, F.Withheld>>, runTable: map<ConsumerId, map<Time, int>>,
    totals: map<ConsumerId, int>)
    requires Claimed(p, deleted)
    requires c in shareTable && shareTable[c] == p.shares && c in recordTable && recordTable[c] == p.records
    requires c in runTable && runTable[c] == p.runs && TotalsOf(totals, Flat(shareTable))
    ensures Assembled(c, p.balance, Flat(shareTable), totals, Flat(recordTable), Flat(runTable), p.inDebt, deleted) == p
  {
    RowOfFlat(shareTable, c);
    RowOfFlat(recordTable, c);
    RowOfFlat(runTable, c);
  }

  /** A balance nobody held shares of is booked to the community pool instead: the one pool import changes. */
  lemma UnaccountedIsAbsorbed(
    c: ConsumerId, balance: int, shares: map<(ConsumerId, Address), int>, totals: map<ConsumerId, int>,
    records: map<(ConsumerId, Address), F.Withheld>, runs: map<(ConsumerId, Time), int>, inDebt: bool)
    requires balance > 0 && TotalsOf(totals, shares) && Row(shares, c) == map[]
    ensures var p := Assembled(c, balance, shares, totals, records, runs, inDebt, false);
            F.Accounted(p) && p.shares == map[F.DISTRIBUTION := balance] && p.balance == balance
  {
    F.SumOne(F.DISTRIBUTION, balance);
  }

  // The whole state.

  ghost function ShareTable(pools: map<ConsumerId, F.Pool>): map<ConsumerId, map<Address, int>> {
    map c | c in pools :: pools[c].shares
  }

  ghost function RecordTable(pools: map<ConsumerId, F.Pool>): map<ConsumerId, map<Address, F.Withheld>> {
    map c | c in pools :: pools[c].records
  }

  ghost function RunTable(pools: map<ConsumerId, F.Pool>): map<ConsumerId, map<Time, int>> {
    map c | c in pools :: pools[c].runs
  }

  ghost function DebtTable(pools: map<ConsumerId, F.Pool>): map<ConsumerId, bool> {
    map c | c in pools :: pools[c].inDebt
  }

  ghost predicate ExportsLedger(g: GenesisState, s: State) {
    && ListsPending(g.pending, s.pending) && Enumerates(g.accepted, s.accepted) && Enumerates(g.floors, s.floors)
    && forall p :: p in g.marks <==> p in s.marks
  }

  ghost predicate ExportsPools(g: GenesisState, pools: map<ConsumerId, F.Pool>) {
    && Enumerates(g.shares, Flat(ShareTable(pools))) && Enumerates(g.records, Flat(RecordTable(pools)))
    && Enumerates(g.runs, Flat(RunTable(pools)))
  }

  /** The key assignments with their mappings, those waiting to be pruned, and the punished equivocations. */
  ghost predicate ExportsKeys(g: GenesisState, keys: Keys) {
    && Enumerates(g.consumerKeys, keys.consumerKeys) && Enumerates(g.reverse, keys.reverse)
    && Enumerates(g.toPrune, keys.toPrune) && forall r :: r in g.punished <==> r in keys.punished
  }

  ghost function KeysOf(keys: K.KeyBook, equivocations: E.Equivocations): Keys
    reads keys, equivocations
  {
    Keys(keys.consumerKeys, keys.reverse, keys.toPrune, equivocations.punished)
  }

  method ExportGenesis(
    registry: L.Registry, ledger: D.Ledger, pools: FK.Pools, keys: K.KeyBook, equivocations: E.Equivocations)
    returns (g: GenesisState)
    requires registry.spawnTimes.Keys == registry.phases.Keys
    ensures ExportsKeys(g, KeysOf(keys, equivocations))
    ensures ExportsConsumers(g.consumers, registry.Current(), registry.lastAcks, DebtTable(pools.pools))
    ensures ExportsLedger(g, ledger.Current()) && ExportsPools(g, pools.pools)
  {
    var ps := pools.pools;
    var consumers := ExportConsumers(registry, map c | c in ps :: ps[c].inDebt);
    var shares := ExportTable(map c | c in ps :: ps[c].shares);
    var records := ExportTable(map c | c in ps :: ps[c].records);
    var runs := ExportTable(map c | c in ps :: ps[c].runs);
    var pending := ExportPending(ledger.pending);
    var accepted := ExportMap(ledger.accepted);
    var floors := ExportMap(ledger.floors);
    var marks := ExportSet(ledger.marks);
    var consumerKeys := ExportMap(keys.consumerKeys);
    var reverse := ExportMap(keys.reverse);
    var toPrune := ExportMap(keys.toPrune);
    var punished := ExportSet(equivocations.punished);
    g := GenesisState(consumers, shares, records, runs, pending, accepted, floors, marks, consumerKeys, reverse,
                      toPrune, punished);
  }

  method InitLifecycle(g: GenesisState) returns (r: L.Registry)
    requires DistinctIds(g.consumers)
    ensures ImportsConsumers(g.consumers, r.Current(), r.lastAcks) && QueuesDerived(r.Current())
    ensures L.Idle(r.Current()) && NextAfter(g.consumers, r.nextId)
  {
    r := new L.Registry();
    ImportFields(r, g.consumers);
    ImportQueues(r, g.consumers);
  }

  /** The log, which no genesis file holds, is that of the state before. */
  method InitLedger(g: GenesisState, ghost before: State) returns (ledger: D.Ledger)
    ensures ImportsLedger(g, before, ledger.Current())
  {
    ledger := new D.Ledger();
    ImportLedger(ledger, g, before);
  }

  method ImportLedger(ledger: D.Ledger, g: GenesisState, ghost before: State)
    modifies ledger
    ensures ImportsLedger(g, before, ledger.Current())
  {
    ledger.pending := ImportPending(g.pending);
    ledger.accepted := ImportMap(g.accepted);
    ledger.floors := ImportMap(g.floors);
    ledger.marks := ImportSet(g.marks);
    ledger.history, ledger.executed := before.history, before.executed;
    ledger.deleted, ledger.accused := before.deleted, before.accused;
  }

  ghost predicate ImportsLedger(g: GenesisState, before: State, s: State) {
    && s.pending == Loaded(Keyed(g.pending)) && s.accepted == Loaded(g.accepted) && s.floors == Loaded(g.floors)
    && (forall p :: p in s.marks <==> p in g.marks)
    && s.history == before.history && s.executed == before.executed
    && s.deleted == before.deleted && s.accused == before.accused
  }

  /** What a provider keeps about keys and equivocations; the consumers' stored sets are rebuilt from staking. */
  datatype Keys = Keys(
    consumerKeys: map<Pair, K.ConsumerKey>,
    reverse: map<Pair, Address>,
    toPrune: map<Pair, Time>,
    punished: set<E.Record>)

  method InitKeys(g: GenesisState) returns (keys: Keys)
    ensures ImportsKeys(g, keys)
  {
    var consumerKeys := ImportMap(g.consumerKeys);
    var reverse := ImportMap(g.reverse);
    var toPrune := ImportMap(g.toPrune);
    var punished := ImportSet(g.punished);
    keys := Keys(consumerKeys, reverse, toPrune, punished);
  }

  ghost predicate ImportsKeys(g: GenesisState, keys: Keys) {
    && keys.consumerKeys == Loaded(g.consumerKeys) && keys.reverse == Loaded(g.reverse)
    && keys.toPrune == Loaded(g.toPrune) && forall r :: r in keys.punished <==> r in g.punished
  }

  predicate DistinctShares(g: GenesisState) {
    forall i, j :: 0 <= i < j < |g.shares| ==> g.shares[i].key != g.shares[j].key
  }

  /** The pool of every imported consumer, against the balances the bank imported before. */
  ghost predicate ImportsPools(
    g: GenesisState, phases: L.Phases, balances: map<ConsumerId, int>, pools: map<ConsumerId, F.Pool>)
  {
    && pools.Keys == phases.Keys
    && exists totals :: TotalsOf(totals, Loaded(g.shares)) && forall c :: c in phases ==>
         pools[c] == PoolFrom(g, totals, c, BalanceAt(balances, c), phases[c] == L.Deleted)
  }

  /** What the lists of a genesis state say of one consumer's pool. */
  ghost function PoolFrom(
    g: GenesisState, totals: map<ConsumerId, int>, c: ConsumerId, balance: int, deleted: bool): F.Pool
  {
    Assembled(c, balance, Loaded(g.shares), totals, Loaded(g.records), Loaded(g.runs), InDebt(g.consumers, c), deleted)
  }

  function BalanceAt(balances: map<ConsumerId, int>, c: ConsumerId): int {
    if c in balances then balances[c] else 0
  }

  predicate InDebt(cs: seq<ConsumerState>, c: ConsumerId) {
    exists i :: 0 <= i < |cs| && cs[i].id == c && cs[i].inDebt
  }

  method InitPools(
    g: GenesisState, phases: L.Phases, balances: map<ConsumerId, int>) returns (pools: map<ConsumerId, F.Pool>)
    requires DistinctShares(g)
    ensures ImportsPools(g, phases, balances, pools)
  {
    var shares, totals := ImportShares(g.shares);
    var records := ImportMap(g.records);
    var runs := ImportMap(g.runs);
    pools := AssemblePools(g, phases, balances, shares, totals, records, runs);
  }

  method AssemblePools(
    g: GenesisState, phases: L.Phases, balances: map<ConsumerId, int>, shares: map<(ConsumerId, Address), int>,
    totals: map<ConsumerId, int>, records: map<(ConsumerId, Address), F.Withheld>, runs: map<(ConsumerId, Time), int>)
    returns (pools: map<ConsumerId, F.Pool>)
    requires shares == Loaded(g.shares) && records == Loaded(g.records) && runs == Loaded(g.runs)
    ensures pools.Keys == phases.Keys
    ensures forall c :: c in phases
              ==> pools[c] == PoolFrom(g, totals, c, BalanceAt(balances, c), phases[c] == L.Deleted)
  {
    pools := map c | c in phases ::
      Assembled(c, BalanceAt(balances, c), shares, totals, records, runs, InDebt(g.consumers, c),
                phases[c] == L.Deleted);
  }

  /** No pool of a living consumer holds a balance that no shares account for. */
  ghost predicate AllAccounted(phases: L.Phases, pools: map<ConsumerId, F.Pool>) {
    forall c :: c in phases ==> c in pools && Claimed(pools[c], phases[c] == L.Deleted)
  }

  ghost predicate Claimed(p: F.Pool, deleted: bool) {
    F.Accounted(p) && (p.balance > 0 && !deleted ==> p.total.Some?)
  }

  /** Importing what was exported restores the accusations: every key, window, floor and mark. */
  lemma LedgerRoundTrip(g: GenesisState, s: State, marks: set<Pair>)
    requires Backed(s) && ExportsLedger(g, s) && forall p :: p in marks <==> p in g.marks
    ensures Loaded(Keyed(g.pending)) == s.pending && Loaded(g.accepted) == s.accepted && Loaded(g.floors) == s.floors
    ensures marks == s.marks
  {
    PendingRoundTrip(s, g.pending);
    LoadedBack(g.accepted, s.accepted);
    LoadedBack(g.floors, s.floors);
  }

  /** Importing what was exported restores every consumer's pool: shares, recomputed total, records, debt and runs. */
  lemma PoolsRoundTrip(
    g: GenesisState, b: L.Book, lastAcks: map<ConsumerId, Time>, pools: map<ConsumerId, F.Pool>,
    balances: map<ConsumerId, int>, pools': map<ConsumerId, F.Pool>)
    requires AllAccounted(b.phases, pools) && ExportsPools(g, pools)
    requires ExportsConsumers(g.consumers, b, lastAcks, DebtTable(pools))
    requires forall c :: c in b.phases ==> BalanceAt(balances, c) == pools[c].balance
    requires ImportsPools(g, b.phases, balances, pools')
    ensures pools'.Keys == b.phases.Keys && forall c :: c in b.phases ==> pools'[c] == pools[c]
  {
    var totals :| TotalsOf(totals, Loaded(g.shares)) && forall c :: c in b.phases ==>
      pools'[c] == PoolFrom(g, totals, c, BalanceAt(balances, c), b.phases[c] == L.Deleted);
    forall c | c in b.phases ensures pools'[c] == pools[c] {
      OnePoolRoundTrip(g, b, lastAcks, pools, totals, c);
    }
  }

  lemma OnePoolRoundTrip(
    g: GenesisState, b: L.Book, lastAcks: map<ConsumerId, Time>, pools: map<ConsumerId, F.Pool>,
    totals: map<ConsumerId, int>, c: ConsumerId)
    requires ExportsPools(g, pools) && ExportsConsumers(g.consumers, b, lastAcks, DebtTable(pools))
    requires TotalsOf(totals, Loaded(g.shares)) && c in b.phases && c in pools
    requires Claimed(pools[c], b.phases[c] == L.Deleted)
    ensures PoolFrom(g, totals, c, pools[c].balance, b.phases[c] == L.Deleted) == pools[c]
  {
    TablesLoaded(g, pools);
    DebtRoundTrip(g.consumers, b, lastAcks, DebtTable(pools), c);
    ListedPoolRoundTrip(g, pools, totals, c, b.phases[c] == L.Deleted);
  }

  lemma TablesLoaded(g: GenesisState, pools: map<ConsumerId, F.Pool>)
    requires ExportsPools(g, pools)
    ensures Loaded(g.shares) == Flat(ShareTable(pools)) && Loaded(g.records) == Flat(RecordTable(pools))
    ensures Loaded(g.runs) == Flat(RunTable(pools))
  {
    LoadedBack(g.shares, Flat(ShareTable(pools)));
    LoadedBack(g.records, Flat(RecordTable(pools)));
    LoadedBack(g.runs, Flat(RunTable(pools)));
  }

  lemma ListedPoolRoundTrip(
    g: GenesisState, pools: map<ConsumerId, F.Pool>, totals: map<ConsumerId, int>, c: ConsumerId, deleted: bool)
    requires c in pools && Claimed(pools[c], deleted) && InDebt(g.consumers, c) == pools[c].inDebt
    requires Loaded(g.shares) == Flat(ShareTable(pools)) && Loaded(g.records) == Flat(RecordTable(pools))
    requires Loaded(g.runs) == Flat(RunTable(pools)) && TotalsOf(totals, Loaded(g.shares))
    ensures PoolFrom(g, totals, c, pools[c].balance, deleted) == pools[c]
  {
    PoolRoundTrip(c, pools[c], deleted, ShareTable(pools), RecordTable(pools), RunTable(pools), totals);
  }

  lemma DebtRoundTrip(
    cs: seq<ConsumerState>, b: L.Book, lastAcks: map<ConsumerId, Time>, inDebt: map<ConsumerId, bool>, c: ConsumerId)
    requires ExportsConsumers(cs, b, lastAcks, inDebt) && c in b.phases
    ensures InDebt(cs, c) <==> DebtAt(inDebt, c)
  {
    assert c in IdsOf(cs);
    var i :| 0 <= i < |cs| && cs[i].id == c;
    assert cs[i].inDebt == DebtAt(inDebt, c);
  }

  /** Importing what was exported restores key assignments, mappings, prune times and punished equivocations. */
  lemma KeysRoundTrip(g: GenesisState, keys: Keys, keys': Keys)
    requires ExportsKeys(g, keys) && ImportsKeys(g, keys')
    ensures keys' == keys
  {
    LoadedBack(g.consumerKeys, keys.consumerKeys);
    LoadedBack(g.reverse, keys.reverse);
    LoadedBack(g.toPrune, keys.toPrune);
    assert keys'.punished == keys.punished;
  }

  // The whole provider state.

  /** g is an export of the state. */
  ghost predicate Exports(
    g: GenesisState, b: L.Book, lastAcks: map<ConsumerId, Time>, s: State, pools: map<ConsumerId, F.Pool>)
  {
    && ExportsConsumers(g.consumers, b, lastAcks, DebtTable(pools)) && ExportsLedger(g, s) && ExportsPools(g, pools)
  }

  /** The three imports, with the ghost part of the ledger carried over. */
  ghost predicate Imports(
    g: GenesisState, balances: map<ConsumerId, int>, b: L.Book, lastAcks: map<ConsumerId, Time>, s: State, s': State,
    pools: map<ConsumerId, F.Pool>)
  {
    && ImportsConsumers(g.consumers, b, lastAcks) && QueuesDerived(b) && L.Idle(b) && NextAfter(g.consumers, b.nextId)
    && ImportsLedger(g, s, s')
    && ImportsPools(g, b.phases, balances, pools)
  }

  lemma LedgerRestored(g: GenesisState, s: State, s': State)
    requires Backed(s) && ExportsLedger(g, s) && ImportsLedger(g, s, s')
    ensures s' == s
  {
    LedgerRoundTrip(g, s, s'.marks);
  }

  /** A book with the same phases, times and sequence, its queues derived again, is as good. */
  lemma GoodAgain(b: L.Book, b': L.Book)
    requires L.Good(b) && L.Idle(b') && QueuesDerived(b')
    requires b'.phases == b.phases && b'.spawnTimes == b.spawnTimes && b'.removalTimes == b.removalTimes
    requires b'.nextId == b.nextId
    requires b'.pauseExpirations == b.pauseExpirations && b'.pauseReasons == b.pauseReasons && b'.pausedAt == b.pausedAt
    ensures L.Good(b')
  {
  }

  /**
   * Export and import of a consistent state between blocks gives a consistent state: the same ledger and pools,
   * the same phases, times and sequence, and queues that hold the same ids in every bucket.
   */
  lemma StateRoundTrip(
    g: GenesisState, balances: map<ConsumerId, int>, b: L.Book, lastAcks: map<ConsumerId, Time>, s: State,
    pools: map<ConsumerId, F.Pool>, b': L.Book, lastAcks': map<ConsumerId, Time>, s': State,
    pools': map<ConsumerId, F.Pool>, now: Time)
    requires Agreement.Consistent(b, s, pools, now) && L.Idle(b) && lastAcks.Keys <= b.phases.Keys
    requires AllAccounted(b.phases, pools) && forall c :: c in b.phases ==> BalanceAt(balances, c) == pools[c].balance
    requires Exports(g, b, lastAcks, s, pools) && Imports(g, balances, b', lastAcks', s, s', pools')
    ensures Agreement.Consistent(b', s', pools', now) && L.Idle(b') && s' == s && lastAcks' == lastAcks
    ensures SameLifecycle(b, b')
    ensures pools'.Keys == b.phases.Keys && forall c :: c in b.phases ==> pools'[c] == pools[c]
  {
    LifecycleRoundTrip(g.consumers, b, lastAcks, DebtTable(pools), b', lastAcks');
    GoodAgain(b, b');
    LedgerRestored(g, s, s');
    PoolsRoundTrip(g, b, lastAcks, pools, balances, pools');
    EscrowedAgain(b.phases, pools, pools', now);
  }

  lemma EscrowedAgain(phases: L.Phases, pools: map<ConsumerId, F.Pool>, pools': map<ConsumerId, F.Pool>, now: Time)
    requires Agreement.Escrowed(phases, pools, now)
    requires forall c :: c in pools' ==> c in pools && pools'[c] == pools[c]
    ensures Agreement.Escrowed(phases, pools', now)
  {
    forall c | c in pools' ensures Agreement.EscrowedPool(phases, c, pools'[c], now) {
      assert Agreement.EscrowedPool(phases, c, pools[c], now);
    }
  }

  /** What an export lists is fit for import. */
  lemma ExportIsFit(
    g: GenesisState, b: L.Book, lastAcks: map<ConsumerId, Time>, s: State, pools: map<ConsumerId, F.Pool>)
    requires Exports(g, b, lastAcks, s, pools)
    ensures DistinctIds(g.consumers) && DistinctShares(g)
  {
  }

  /** Builds the provider from a genesis state and the balances the bank has imported before. */
  method InitGenesis(g: GenesisState, balances: map<ConsumerId, int>, ghost before: State)
    returns (registry: L.Registry, ledger: D.Ledger, pools: map<ConsumerId, F.Pool>, keys: Keys)
    requires DistinctIds(g.consumers) && DistinctShares(g)
    ensures Imports(g, balances, registry.Current(), registry.lastAcks, before, ledger.Current(), pools)
    ensures ImportsKeys(g, keys)
  {
    ledger := InitLedger(g, before);
    keys := InitKeys(g);
    registry := InitLifecycle(g);
    pools := InitPools(g, registry.phases, balances);
  }

  /**
   * A restart from an exported genesis: the provider built by the import is the one exported, in a consistent state
   * and with the same keys and punished equivocations.
   */
  method GenesisRestart(
    registry: L.Registry, ledger: D.Ledger, pools: FK.Pools, keys: K.KeyBook, equivocations: E.Equivocations,
    balances: map<ConsumerId, int>, ghost now: Time)
    returns (registry': L.Registry, ledger': D.Ledger, pools': map<ConsumerId, F.Pool>, keys': Keys)
    requires Agreement.Consistent(registry.Current(), ledger.Current(), pools.pools, now) && L.Idle(registry.Current())
    requires registry.lastAcks.Keys <= registry.phases.Keys && AllAccounted(registry.phases, pools.pools)
    requires forall c :: c in registry.phases ==> BalanceAt(balances, c) == pools.pools[c].balance
    ensures Agreement.Consistent(registry'.Current(), ledger'.Current(), pools', now) && L.Idle(registry'.Current())
    ensures ledger'.Current() == ledger.Current() && registry'.lastAcks == registry.lastAcks
    ensures SameLifecycle(registry.Current(), registry'.Current())
    ensures pools'.Keys == registry.phases.Keys && forall c :: c in registry.phases ==> pools'[c] == pools.pools[c]
    ensures keys' == KeysOf(keys, equivocations)
  {
    var g := ExportGenesis(registry, ledger, pools, keys, equivocations);
    ghost var b, s, ps := registry.Current(), ledger.Current(), pools.pools;
    ExportIsFit(g, b, registry.lastAcks, s, ps);
    registry', ledger', pools', keys' := InitGenesis(g, balances, s);
    StateRoundTrip(g, balances, b, registry.lastAcks, s, ps,
                   registry'.Current(), registry'.lastAcks, ledger'.Current(), pools', now);
    KeysRoundTrip(g, KeysOf(keys, equivocations), keys');
  }
}
