/** How the provider's lifecycle, accusations and fee pools agree, as values, and what each step does to that. */
module Agreement {
  import opened Common
  import opened Bitmaps
  import opened Accusations
  import opened AccusationRuns
  import opened BlockSteps
  import opened Wire
  import opened MapSum
  import F = FeePool
  import FK = FeeKeeper
  import L = Lifecycle
  import K = KeyAssignment
  import AW = AccusedWindows
  import Q = TimeQueue
  import opened DowntimeLedger

  // How the three parts agree.

  /** Everything in flight belongs to a launched consumer. */
  ghost predicate InFlight(phases: L.Phases, pending: map<WindowKey, Slash>, marks: set<Pair>) {
    && (forall k :: k in pending ==> L.InPhase(phases, k.pair.consumer, L.Launched))
    && (forall p :: p in marks ==> L.InPhase(phases, p.consumer, L.Launched))
  }

  ghost predicate SameDeleted(phases: L.Phases, deleted: set<ConsumerId>) {
    forall c :: c in deleted <==> L.InPhase(phases, c, L.Deleted)
  }

  /** Withheld records exist only once launched; until a consumer stops its pool covers them. */
  ghost predicate Escrowed(phases: L.Phases, pools: map<ConsumerId, F.Pool>, now: Time) {
    forall c :: c in pools ==> EscrowedPool(phases, c, pools[c], now)
  }

  ghost predicate EscrowedPool(phases: L.Phases, c: ConsumerId, p: F.Pool, now: Time) {
    && (p.records == map[] || L.InPhase(phases, c, L.Launched) || L.InPhase(phases, c, L.Stopped))
    && (L.InPhase(phases, c, L.Stopped) || F.Solvent(p, now))
  }

  lemma NothingLeft(phases: L.Phases, s: State, c: ConsumerId, next: L.Phase)
    requires InFlight(phases, s.pending, s.marks)
    ensures InFlight(phases[c := next], Cancel(s, c).pending, Cancel(s, c).marks)
  {
  }

  lemma NothingInFlight(
    phases: L.Phases, pending: map<WindowKey, Slash>, marks: set<Pair>, c: ConsumerId, next: L.Phase)
    requires InFlight(phases, pending, marks) && !L.InPhase(phases, c, L.Launched)
    ensures InFlight(phases[c := next], pending, marks)
  {
  }

  lemma DeletedSame(phases: L.Phases, deleted: set<ConsumerId>, c: ConsumerId, next: L.Phase)
    requires SameDeleted(phases, deleted) && next != L.Deleted && !L.InPhase(phases, c, L.Deleted)
    ensures SameDeleted(phases[c := next], deleted)
  {
  }

  lemma DeletedMore(phases: L.Phases, deleted: set<ConsumerId>, c: ConsumerId)
    requires SameDeleted(phases, deleted)
    ensures SameDeleted(phases[c := L.Deleted], deleted + {c})
  {
  }

  /** One consumer changes phase, its pool ending as pools'[c]. */
  lemma EscrowedMove(
    phases: L.Phases, pools: map<ConsumerId, F.Pool>, pools': map<ConsumerId, F.Pool>, c: ConsumerId, next: L.Phase,
    now: Time)
    requires Escrowed(phases, pools, now)
    requires forall d :: d in pools' && d != c ==> d in pools && pools'[d] == pools[d]
    requires c in pools' ==> EscrowedPool(phases[c := next], c, pools'[c], now)
    ensures Escrowed(phases[c := next], pools', now)
  {
    forall d | d in pools' ensures EscrowedPool(phases[c := next], d, pools'[d], now) {
      if d != c {
        assert EscrowedPool(phases, d, pools[d], now);
      }
    }
  }

  lemma EscrowedLater(phases: L.Phases, pools: map<ConsumerId, F.Pool>, now: Time, later: Time)
    requires Escrowed(phases, pools, now) && now <= later
    ensures Escrowed(phases, pools, later)
  {
    forall c | c in pools ensures EscrowedPool(phases, c, pools[c], later) {
      assert EscrowedPool(phases, c, pools[c], now);
      if !L.InPhase(phases, c, L.Stopped) {
        F.SolventLater(pools[c], now, later);
      }
    }
  }

  lemma NoRecordsSolvent(p: F.Pool, now: Time)
    requires F.Sound(p) && p.records == map[]
    ensures F.Solvent(p, now)
  {
    assert F.LiveAmounts(p.records, now) == map[];
  }

  /** Every pool loses records or none, and nothing else: still escrowed. */
  lemma EscrowedWithFewer(phases: L.Phases, pools: map<ConsumerId, F.Pool>, pools': map<ConsumerId, F.Pool>, now: Time)
    requires Escrowed(phases, pools, now) && pools'.Keys <= pools.Keys
    requires forall c :: c in pools' ==> FewerRecords(pools[c], pools'[c])
    ensures Escrowed(phases, pools', now)
  {
    forall c | c in pools' ensures EscrowedPool(phases, c, pools'[c], now) {
      assert EscrowedPool(phases, c, pools[c], now);
      if !L.InPhase(phases, c, L.Stopped) {
        F.FewerRecords(pools[c], pools'[c].records, now);
      }
    }
  }

  ghost predicate FewerRecords(p: F.Pool, q: F.Pool) {
    && q.balance == p.balance
    && q.records.Keys <= p.records.Keys && forall a :: a in q.records ==> q.records[a] == p.records[a]
  }

  /** The lifecycle, the accusations and the pools, each in order and in step with the others. */
  ghost predicate Consistent(b: L.Book, s: State, pools: map<ConsumerId, F.Pool>, now: Time) {
    && L.Good(b) && Inv(s)
    && InFlight(b.phases, s.pending, s.marks)
    && SameDeleted(b.phases, s.deleted)
    && Escrowed(b.phases, pools, now)
  }

  ghost predicate AllSound(pools: map<ConsumerId, F.Pool>) {
    forall c :: c in pools ==> F.Sound(pools[c])
  }

  lemma InitialConsistent(b: L.Book, s: State, reverse: map<Pair, Address>, now: Time)
    requires b == L.EMPTY_BOOK && s == EMPTY
    ensures Consistent(b, s, map[], now) && L.Idle(b) && AW.Sound(AW.World(s, reverse))
  {
    EmptyInv();
    AW.EmptySound(reverse);
  }

  lemma ConsistentLater(b: L.Book, s: State, pools: map<ConsumerId, F.Pool>, now: Time, later: Time)
    requires Consistent(b, s, pools, now) && now <= later
    ensures Consistent(b, s, pools, later)
  {
    EscrowedLater(b.phases, pools, now, later);
  }

  /** A consumer that is neither launched, stopped nor deleted moves to another such phase, or to launched. */
  lemma QuietMove(phases: L.Phases, s: State, pools: map<ConsumerId, F.Pool>, c: ConsumerId, next: L.Phase, now: Time)
    requires InFlight(phases, s.pending, s.marks) && SameDeleted(phases, s.deleted) && Escrowed(phases, pools, now)
    requires c in phases ==> phases[c] != L.Launched && phases[c] != L.Stopped && phases[c] != L.Deleted
    requires next != L.Stopped && next != L.Deleted
    ensures InFlight(phases[c := next], s.pending, s.marks) && SameDeleted(phases[c := next], s.deleted)
    ensures Escrowed(phases[c := next], pools, now)
  {
    NothingInFlight(phases, s.pending, s.marks, c, next);
    DeletedSame(phases, s.deleted, c, next);
    if c in pools {
      assert EscrowedPool(phases, c, pools[c], now);
    }
    EscrowedMove(phases, pools, pools, c, next, now);
  }

  lemma CreateConsistent(b: L.Book, s: State, pools: map<ConsumerId, F.Pool>, spawnTime: Time, now: Time)
    requires Consistent(b, s, pools, now)
    ensures Consistent(L.Create(b, spawnTime), s, pools, now) && L.Legal(b.phases, L.Create(b, spawnTime).phases)
    ensures b.nextId !in b.phases
  {
    L.CreateKeeps(b, spawnTime);
    L.CreateKept(b, spawnTime);
    QuietMove(b.phases, s, pools, b.nextId, L.Scheduled(spawnTime), now);
  }

  lemma RespawnConsistent(
    b: L.Book, s: State, pools: map<ConsumerId, F.Pool>, c: ConsumerId, spawnTime: Time, now: Time)
    requires Consistent(b, s, pools, now) && c in b.phases && L.Prelaunched(b.phases[c]) && c !in b.launching
    ensures Consistent(L.Respawn(b, c, spawnTime), s, pools, now)
    ensures L.Legal(b.phases, L.Respawn(b, c, spawnTime).phases)
  {
    L.RespawnKeeps(b, c, spawnTime);
    QuietMove(b.phases, s, pools, c, L.Scheduled(spawnTime), now);
  }

  lemma UpdateConsistent(
    b: L.Book, s: State, pools: map<ConsumerId, F.Pool>, c: ConsumerId, spawnTime: Option<Time>, now: Time)
    requires Consistent(b, s, pools, now) && L.Updatable(b.phases, c, spawnTime) && c !in b.launching
    ensures c in b.spawnTimes && Consistent(L.Update(b, c, spawnTime), s, pools, now)
    ensures L.Legal(b.phases, L.Update(b, c, spawnTime).phases)
  {
    if L.Prelaunched(b.phases[c]) {
      RespawnConsistent(b, s, pools, c, spawnTime.GetOr(b.spawnTimes[c]), now);
    }
  }

  lemma LaunchConsistent(b: L.Book, s: State, pools: map<ConsumerId, F.Pool>, c: ConsumerId, succeeds: bool, now: Time)
    requires Consistent(b, s, pools, now) && c in b.launching
    ensures Consistent(L.Launch(b, c, succeeds), s, pools, now) && L.Legal(b.phases, L.Launch(b, c, succeeds).phases)
  {
    L.LaunchKeeps(b, c, succeeds);
    L.LaunchKept(b, c, succeeds);
    QuietMove(b.phases, s, pools, c, if succeeds then L.Launched else L.Registered, now);
  }

  lemma LaunchedConsistent(
    b: L.Book, b': L.Book, s: State, pools: map<ConsumerId, F.Pool>, c: ConsumerId, succeeds: bool, before: L.Phases,
    now: Time)
    requires Consistent(b, s, pools, now) && c in b.launching && b' == L.Launch(b, c, succeeds)
    requires L.Legal(before, b.phases)
    ensures Consistent(b', s, pools, now) && L.Legal(before, b'.phases)
  {
    LaunchConsistent(b, s, pools, c, succeeds, now);
    L.LegalTransitive(before, b.phases, b'.phases);
  }

  lemma ResumeConsistent(b: L.Book, s: State, pools: map<ConsumerId, F.Pool>, c: ConsumerId, now: Time)
    requires Consistent(b, s, pools, now) && L.InPhase(b.phases, c, L.Paused)
    ensures Consistent(L.Resume(b, c), s, pools, now) && L.Legal(b.phases, L.Resume(b, c).phases)
  {
    L.ResumeKeeps(b, c);
    QuietMove(b.phases, s, pools, c, L.Launched, now);
  }

  lemma ResumedConsistent(
    b: L.Book, b': L.Book, s: State, pools: map<ConsumerId, F.Pool>, resumed: bool, c: ConsumerId, now: Time)
    requires Consistent(b, s, pools, now) && (resumed ==> L.InPhase(b.phases, c, L.Paused))
    requires b' == if resumed then L.Resume(b, c) else b
    ensures Consistent(b', s, pools, now) && L.Legal(b.phases, b'.phases)
  {
    if resumed {
      ResumeConsistent(b, s, pools, c, now);
    } else {
      LegalReflexive(b.phases);
    }
  }

  /** Pausing empties the consumer's escrow and drops what is in flight. */
  lemma PauseConsistent(
    b: L.Book, s: State, pools: map<ConsumerId, F.Pool>, pools': map<ConsumerId, F.Pool>, c: ConsumerId,
    reason: L.Reason, now: Time, maxPause: Time)
    requires Consistent(b, s, pools, now) && L.InPhase(b.phases, c, L.Launched)
    requires OnlyChanges(pools, pools', c) && AllSound(pools') && (c in pools' ==> pools'[c].records == map[])
    ensures Consistent(L.Pause(b, c, reason, now, maxPause), Cancel(s, c), pools', now)
    ensures L.Legal(b.phases, L.Pause(b, c, reason, now, maxPause).phases)
  {
    L.PauseKeeps(b, c, reason, now, maxPause);
    CancelKeeps(s, c);
    NothingLeft(b.phases, s, c, L.Paused);
    DeletedSame(b.phases, s.deleted, c, L.Paused);
    EscrowCleared(b.phases, pools, pools', c, L.Paused, now);
  }

  lemma PausedConsistent(
    b: L.Book, s: State, pools: map<ConsumerId, F.Pool>, b': L.Book, s': State, pools': map<ConsumerId, F.Pool>,
    c: ConsumerId, reason: L.Reason, now: Time, maxPause: Time)
    requires Consistent(b, s, pools, now) && L.InPhase(b.phases, c, L.Launched)
    requires OnlyChanges(pools, pools', c) && AllSound(pools') && (c in pools' ==> pools'[c].records == map[])
    requires b' == L.Pause(b, c, reason, now, maxPause) && s' == Cancel(s, c)
    ensures Consistent(b', s', pools', now) && L.Legal(b.phases, b'.phases)
  {
    PauseConsistent(b, s, pools, pools', c, reason, now, maxPause);
  }

  lemma StopConsistent(b: L.Book, s: State, pools: map<ConsumerId, F.Pool>, c: ConsumerId, removalTime: Time, now: Time)
    requires Consistent(b, s, pools, now) && L.Running(b, c)
    ensures Consistent(L.Stop(b, c, removalTime), Cancel(s, c), pools, now)
    ensures L.Legal(b.phases, L.Stop(b, c, removalTime).phases)
  {
    L.StopKeeps(b, c, removalTime);
    CancelKeeps(s, c);
    NothingLeft(b.phases, s, c, L.Stopped);
    DeletedSame(b.phases, s.deleted, c, L.Stopped);
    StopEscrow(b.phases, pools, c, now);
  }

  lemma StopEscrow(phases: L.Phases, pools: map<ConsumerId, F.Pool>, c: ConsumerId, now: Time)
    requires Escrowed(phases, pools, now)
    ensures Escrowed(phases[c := L.Stopped], pools, now)
  {
    EscrowedMove(phases, pools, pools, c, L.Stopped, now);
  }

  lemma DeleteConsistent(
    b: L.Book, s: State, pools: map<ConsumerId, F.Pool>, pools': map<ConsumerId, F.Pool>, c: ConsumerId, now: Time)
    requires Consistent(b, s, pools, now) && L.Deletable(b, c)
    requires OnlyChanges(pools, pools', c) && AllSound(pools') && (c in pools' ==> pools'[c].records == map[])
    ensures c in b.phases && c in b.spawnTimes
    ensures Consistent(L.Delete(b, c), Delete(s, c), pools', now) && L.Legal(b.phases, L.Delete(b, c).phases)
  {
    L.DeleteKeeps(b, c);
    DeleteKeeps(s, c);
    NothingLeft(b.phases, s, c, L.Deleted);
    DeletedMore(b.phases, s.deleted, c);
    EscrowCleared(b.phases, pools, pools', c, L.Deleted, now);
  }

  lemma DeletedConsistent(
    b: L.Book, s: State, pools: map<ConsumerId, F.Pool>, b': L.Book, s': State, pools': map<ConsumerId, F.Pool>,
    c: ConsumerId, now: Time)
    requires Consistent(b, s, pools, now) && L.Deletable(b, c) && c in b.phases && c in b.spawnTimes && AllSound(pools')
    requires b' == L.Delete(b, c) && s' == Delete(s, c) && Changes(pools, pools', c, Emptied(PoolIn(pools, c)))
    ensures Consistent(b', s', pools', now) && L.Legal(b.phases, b'.phases)
  {
    ChangesOnly(pools, pools', c, Emptied(PoolIn(pools, c)));
    DeleteConsistent(b, s, pools, pools', c, now);
  }

  lemma ChangesOnly(pools: map<ConsumerId, F.Pool>, pools': map<ConsumerId, F.Pool>, c: ConsumerId, p: F.Pool)
    requires Changes(pools, pools', c, p)
    ensures OnlyChanges(pools, pools', c) && (c in pools' ==> pools'[c] == p)
  {
    assert forall d :: d in pools' ==> pools'[d] == PoolIn(pools', d);
  }

  /** pools' differs from pools only at c, reading an absent pool as an empty one. */
  ghost predicate OnlyChanges(pools: map<ConsumerId, F.Pool>, pools': map<ConsumerId, F.Pool>, c: ConsumerId) {
    forall d :: d in pools' && d != c ==> pools'[d] == (if d in pools then pools[d] else F.EMPTY_POOL)
  }

  /** Once its records are cleared a consumer may be in any phase. */
  lemma EscrowCleared(
    phases: L.Phases, pools: map<ConsumerId, F.Pool>, pools': map<ConsumerId, F.Pool>, c: ConsumerId, next: L.Phase,
    now: Time)
    requires Escrowed(phases, pools, now) && OnlyChanges(pools, pools', c) && AllSound(pools')
    requires c in pools' ==> pools'[c].records == map[]
    ensures Escrowed(phases[c := next], pools', now)
  {
    NoRecordsSolvent(F.EMPTY_POOL, now);
    forall d | d in pools' ensures EscrowedPool(phases[c := next], d, pools'[d], now) {
      if d == c {
        NoRecordsSolvent(pools'[c], now);
      } else if d in pools {
        assert EscrowedPool(phases, d, pools[d], now);
      }
    }
  }

  // Steps within one phase assignment.

  /** One pool changes and stays covered; phases stay. */
  lemma PoolConsistent(
    b: L.Book, s: State, pools: map<ConsumerId, F.Pool>, pools': map<ConsumerId, F.Pool>, c: ConsumerId, now: Time)
    requires Consistent(b, s, pools, now) && OnlyChanges(pools, pools', c)
    requires c in pools' ==> EscrowedPool(b.phases, c, pools'[c], now)
    ensures Consistent(b, s, pools', now)
  {
    NoRecordsSolvent(F.EMPTY_POOL, now);
    forall d | d in pools' ensures EscrowedPool(b.phases, d, pools'[d], now) {
      if d != c && d in pools {
        assert EscrowedPool(b.phases, d, pools[d], now);
      }
    }
  }

  lemma FewerRecordsConsistent(
    b: L.Book, s: State, pools: map<ConsumerId, F.Pool>, pools': map<ConsumerId, F.Pool>, now: Time)
    requires Consistent(b, s, pools, now) && pools'.Keys <= pools.Keys
    requires forall c :: c in pools' ==> FewerRecords(pools[c], pools'[c])
    ensures Consistent(b, s, pools', now)
  {
    EscrowedWithFewer(b.phases, pools, pools', now);
  }

  /** Accepting evidence about a launched consumer. */
  lemma AcceptConsistent(
    b: L.Book, s: State, s': State, pools: map<ConsumerId, F.Pool>, e: Entry, slash: Slash, mark: Option<Pair>,
    now: Time)
    requires Consistent(b, s, pools, now) && Inv(s') && s' == Accept(s, e, slash, mark)
    requires L.InPhase(b.phases, e.key.pair.consumer, L.Launched)
    requires mark.Some? ==> mark.value.consumer == e.key.pair.consumer
    ensures Consistent(b, s', pools, now)
  {
  }

  lemma QueuedConsistent(
    env: Surroundings, b: L.Book, s: State, s': State, pools: map<ConsumerId, F.Pool>, c: ConsumerId, p: EvidencePacket,
    now: Time)
    requires Consistent(b, s, pools, now) && Inv(s') && Queued(env, s, c, p, now, s')
    requires L.InPhase(b.phases, c, L.Launched)
    ensures Consistent(b, s', pools, now)
  {
    var mark :| MarkFor(env, c, p, mark) && s' == Accept(s, EntryFor(env, c, p, now), SlashFor(env, c, p, now), mark);
    AcceptConsistent(b, s, s', pools, EntryFor(env, c, p, now), SlashFor(env, c, p, now), mark, now);
  }

  lemma JudgedConsistent(
    env: Surroundings, b: L.Book, s: State, s': State, pools: map<ConsumerId, F.Pool>, error: Option<EvidenceError>,
    c: ConsumerId, p: EvidencePacket, now: Time)
    requires Consistent(b, s, pools, now) && Inv(s') && L.InPhase(b.phases, c, L.Launched)
    requires Judged(env, s, c, p, now, error, s')
    ensures Consistent(b, s', pools, now)
  {
    if error.None? {
      QueuedConsistent(env, b, s, s', pools, c, p, now);
    }
  }

  /** Evidence judged under the mappings as they are keeps every window findable and one accused's windows apart. */
  lemma JudgedSound(
    env: Surroundings, s: State, s': State, reverse: map<Pair, Address>, error: Option<EvidenceError>, c: ConsumerId,
    p: EvidencePacket, now: Time)
    requires AW.Sound(AW.World(s, reverse)) && Inv(s') && c !in s.deleted && env.reverse == reverse
    requires Judged(env, s, c, p, now, error, s')
    ensures AW.Sound(AW.World(s', reverse))
  {
    if error.None? {
      var mark := MarkTaken(env, s, c, p, now, s');
      SpanPositive(p);
      QueuedSound(env, s, reverse, c, p, now, mark);
    }
  }

  lemma SpanPositive(p: EvidencePacket)
    requires Validate(p).None?
    ensures p.windowStart <= p.windowEnd
  {
  }

  lemma MarkTaken(
    env: Surroundings, s: State, c: ConsumerId, p: EvidencePacket, now: Time, s': State) returns (mark: Option<Pair>)
    requires Queued(env, s, c, p, now, s')
    ensures (mark.Some? ==> mark.value.consumer == c)
            && s' == Accept(s, EntryFor(env, c, p, now), SlashFor(env, c, p, now), mark)
  {
    mark :| MarkFor(env, c, p, mark) && s' == Accept(s, EntryFor(env, c, p, now), SlashFor(env, c, p, now), mark);
  }

  lemma QueuedSound(
    env: Surroundings, s: State, reverse: map<Pair, Address>, c: ConsumerId, p: EvidencePacket, now: Time,
    mark: Option<Pair>)
    requires AW.Sound(AW.World(s, reverse)) && c !in s.deleted && env.reverse == reverse
    requires Admissible(env, s, c, p, now) && (mark.Some? ==> mark.value.consumer == c) && p.windowStart <= p.windowEnd
    ensures AW.Sound(AW.World(Accept(s, EntryFor(env, c, p, now), SlashFor(env, c, p, now), mark), reverse))
  {
    var e, slash := EntryFor(env, c, p, now), SlashFor(env, c, p, now);
    AW.EvidenceAccepted(AW.World(s, reverse), now, e, slash, mark);
  }

  lemma SweepConsistent(b: L.Book, s: State, s': State, pools: map<ConsumerId, F.Pool>, run: seq<WindowKey>, now: Time)
    requires Consistent(b, s, pools, now) && Runs(s, now, run) && s' == Sweep(s, now, run)
    ensures Consistent(b, s', pools, now)
  {
    SweepKeeps(s, now, run);
  }

  lemma PruneConsistent(b: L.Book, s: State, s': State, pools: map<ConsumerId, F.Pool>, now: Time, horizon: Time)
    requires Consistent(b, s, pools, now) && s' == Prune(s, now, horizon)
    ensures Consistent(b, s', pools, now)
  {
    PruneKeeps(s, now, horizon);
  }

  lemma MarksConsistent(b: L.Book, s: State, s': State, pools: map<ConsumerId, F.Pool>, now: Time)
    requires Consistent(b, s, pools, now) && s' == s.(marks := {})
    ensures Consistent(b, s', pools, now)
  {
    MarksIrrelevant(s, {});
  }

  lemma PendingLaunched(b: L.Book, s: State, pools: map<ConsumerId, F.Pool>, k: WindowKey, now: Time)
    requires Consistent(b, s, pools, now) && k in s.pending
    ensures L.InPhase(b.phases, k.pair.consumer, L.Launched)
  {
  }

  lemma LaunchedNotDeleted(b: L.Book, s: State, pools: map<ConsumerId, F.Pool>, c: ConsumerId, now: Time)
    requires Consistent(b, s, pools, now) && L.InPhase(b.phases, c, L.Launched)
    ensures c !in s.deleted && Inv(s)
  {
  }

  // Rotation of a validator's provider key.

  function MovedMark(marks: set<Pair>, p: Pair, q: Pair): set<Pair> {
    if p in marks then marks - {p} + {q} else marks
  }

  /** What a rotation does to one consumer's accusations: a renaming where the validator has an assigned key. */
  ghost function RotateOne(s: State, c: ConsumerId, hasKey: bool, oldAddr: Address, newAddr: Address): State {
    var p, q := Pair(c, oldAddr), Pair(c, newAddr);
    var renamed := if hasKey && Renames(s, p, q) then Rename(s, p, q) else s;
    renamed.(marks := MovedMark(s.marks, p, q))
  }

  ghost function RotateAll(
    s: State, ids: seq<ConsumerId>, keyed: set<ConsumerId>, oldAddr: Address, newAddr: Address): State
  {
    if ids == [] then s else
      var init, c := ids[..|ids| - 1], ids[|ids| - 1];
      RotateOne(RotateAll(s, init, keyed, oldAddr, newAddr), c, c in keyed, oldAddr, newAddr)
  }

  /** Nothing is recorded under the new address for any of the consumers. */
  ghost predicate AllFresh(s: State, keyed: set<ConsumerId>, newAddr: Address) {
    forall c :: c in keyed ==> Fresh(s, Pair(c, newAddr))
  }

  lemma FreshElsewhere(s: State, p: Pair, q: Pair, r: Pair)
    requires Renames(s, p, q) && Fresh(s, r) && r != q && r != p
    ensures Fresh(Rename(s, p, q), r)
  {
    var s' := Rename(s, p, q);
    forall k | k in s'.accepted || k in s'.pending ensures k.pair != r {
      RenamedAt(s, p, q, k);
    }
  }

  lemma {:induction false} StillFresh(
    s: State, ids: seq<ConsumerId>, keyed: set<ConsumerId>, oldAddr: Address, newAddr: Address, c: ConsumerId)
    requires AllFresh(s, keyed, newAddr) && oldAddr != newAddr && c in keyed && c !in ids
    ensures Fresh(RotateAll(s, ids, keyed, oldAddr, newAddr), Pair(c, newAddr))
    decreases |ids|
  {
    if ids != [] {
      var init, d := ids[..|ids| - 1], ids[|ids| - 1];
      StillFresh(s, init, keyed, oldAddr, newAddr, c);
      var before := RotateAll(s, init, keyed, oldAddr, newAddr);
      if d in keyed && Renames(before, Pair(d, oldAddr), Pair(d, newAddr)) {
        FreshElsewhere(before, Pair(d, oldAddr), Pair(d, newAddr), Pair(c, newAddr));
      }
    }
  }

  lemma RotateOneConsistent(
    b: L.Book, s: State, s': State, pools: map<ConsumerId, F.Pool>, c: ConsumerId, hasKey: bool, oldAddr: Address,
    newAddr: Address, now: Time)
    requires Consistent(b, s, pools, now) && s' == RotateOne(s, c, hasKey, oldAddr, newAddr)
    ensures Consistent(b, s', pools, now)
  {
    RotateOneKeeps(b.phases, s, c, hasKey, oldAddr, newAddr);
  }

  lemma RotateOneKeeps(phases: L.Phases, s: State, c: ConsumerId, hasKey: bool, oldAddr: Address, newAddr: Address)
    requires Inv(s) && InFlight(phases, s.pending, s.marks)
    ensures var s' := RotateOne(s, c, hasKey, oldAddr, newAddr);
            Inv(s') && InFlight(phases, s'.pending, s'.marks) && s'.deleted == s.deleted
  {
    var p, q := Pair(c, oldAddr), Pair(c, newAddr);
    if hasKey && Renames(s, p, q) {
      RenameKeeps(s, p, q);
      RotateOneInFlight(phases, s, Rename(s, p, q), p, q);
      MarksIrrelevant(Rename(s, p, q), MovedMark(s.marks, p, q));
    } else {
      RotateOneInFlight(phases, s, s, p, q);
      MarksIrrelevant(s, MovedMark(s.marks, p, q));
    }
  }

  lemma RotateOneInFlight(phases: L.Phases, s: State, renamed: State, p: Pair, q: Pair)
    requires InFlight(phases, s.pending, s.marks) && Erased(s) && p.consumer == q.consumer
    requires renamed == s || (Renames(s, p, q) && renamed == Rename(s, p, q))
    ensures InFlight(phases, renamed.pending, MovedMark(s.marks, p, q))
    ensures forall r :: r in MovedMark(s.marks, p, q) ==> r.consumer !in s.deleted
  {
    if renamed != s {
      forall k | k in renamed.pending ensures L.InPhase(phases, k.pair.consumer, L.Launched) {
        RenamedAt(s, p, q, k);
        assert RenamedKey(k, q, p) in s.pending;
      }
    }
  }

  /** A move of one withheld record keeps the consumer's escrow as it was. */
  lemma RecordMoveConsistent(
    b: L.Book, s: State, pools: map<ConsumerId, F.Pool>, pools': map<ConsumerId, F.Pool>, c: ConsumerId,
    oldAddr: Address, newAddr: Address, now: Time)
    requires Consistent(b, s, pools, now) && OnlyChanges(pools, pools', c) && oldAddr != newAddr
    requires c in pools' ==> pools'[c] == MovesRecord(oldAddr, newAddr)(PoolIn(pools, c))
    ensures Consistent(b, s, pools', now)
  {
    if c in pools' {
      var p := if c in pools then pools[c] else F.EMPTY_POOL;
      FK.MoveKeepsOutstanding(p, oldAddr, newAddr, now);
      NoRecordsSolvent(F.EMPTY_POOL, now);
      assert EscrowedPool(b.phases, c, p, now);
    }
    PoolConsistent(b, s, pools, pools', c, now);
  }

  /**
   * A rotation is a renaming: on the consumers with an assigned key every window, pending slash and floor of
   * the old pair stands under the new one, and everything else - other pairs, other consumers - is untouched.
   */
  lemma {:induction false} RotationIsRenaming(
    s: State, ids: seq<ConsumerId>, keyed: set<ConsumerId>, oldAddr: Address, newAddr: Address, k: WindowKey)
    requires AllFresh(s, keyed, newAddr) && oldAddr != newAddr
    requires forall i, j :: 0 <= i < j < |ids| ==> ids[i] != ids[j]
    ensures var c := k.pair.consumer;
            Followed(s, RotateAll(s, ids, keyed, oldAddr, newAddr), c in ids && c in keyed, oldAddr, newAddr, k)
    decreases |ids|
  {
    if ids != [] {
      var init, d := ids[..|ids| - 1], ids[|ids| - 1];
      RotationIsRenaming(s, init, keyed, oldAddr, newAddr, k);
      var before := RotateAll(s, init, keyed, oldAddr, newAddr);
      assert d !in init;
      assert ids == init + [d];
      if d in keyed {
        StillFresh(s, init, keyed, oldAddr, newAddr, d);
        RotationStep(before, Pair(d, oldAddr), Pair(d, newAddr), k);
        if k.pair.consumer == d {
          RotationIsRenaming(s, init, keyed, oldAddr, newAddr, WindowKey(Pair(d, oldAddr), k.end));
        }
      }
    }
  }

  /** Where k stands after a rotation: moved says whether its consumer is one on which the pair is renamed. */
  ghost predicate Followed(s: State, s': State, moved: bool, oldAddr: Address, newAddr: Address, k: WindowKey) {
    var was := WindowKey(Pair(k.pair.consumer, oldAddr), k.end);
    if moved && k.pair.addr == newAddr then
      && (k in s'.accepted <==> was in s.accepted) && (k in s'.accepted ==> s'.accepted[k] == s.accepted[was])
      && (k in s'.pending <==> was in s.pending)
      && (k in s'.pending ==> s'.pending[k] == s.pending[was].(provider := newAddr))
      && (k.pair in s'.floors <==> was.pair in s.floors)
      && (k.pair in s'.floors ==> s'.floors[k.pair] == s.floors[was.pair])
    else if moved && k.pair.addr == oldAddr then
      k !in s'.accepted && k !in s'.pending && k.pair !in s'.floors
    else SameAt(s, s', k)
  }

  ghost predicate SameAt(s: State, s': State, k: WindowKey) {
    && (k in s'.accepted <==> k in s.accepted) && (k in s'.accepted ==> s'.accepted[k] == s.accepted[k])
    && (k in s'.pending <==> k in s.pending) && (k in s'.pending ==> s'.pending[k] == s.pending[k])
    && (k.pair in s'.floors <==> k.pair in s.floors) && (k.pair in s'.floors ==> s'.floors[k.pair] == s.floors[k.pair])
  }

  lemma RotationStep(s: State, p: Pair, q: Pair, k: WindowKey)
    requires Renames(s, p, q)
    ensures Followed(s, Rename(s, p, q), k.pair.consumer == p.consumer, p.addr, q.addr, k)
  {
    RenamedAt(s, p, q, k);
  }

  function MovesRecord(oldAddr: Address, newAddr: Address): F.Pool -> F.Pool {
    (p: F.Pool) => p.(records := FK.RecordsMoved(p.records, oldAddr, newAddr))
  }

  lemma RotatedConsistent(
    b: L.Book, s: State, s': State, pools: map<ConsumerId, F.Pool>, pools': map<ConsumerId, F.Pool>, c: ConsumerId,
    hasKey: bool, oldAddr: Address, newAddr: Address, now: Time)
    requires Consistent(b, s, pools, now) && oldAddr != newAddr
    requires s' == RotateOne(s, c, hasKey, oldAddr, newAddr)
    requires Changes(pools, pools', c, MovesRecord(oldAddr, newAddr)(PoolIn(pools, c)))
    ensures Consistent(b, s', pools', now)
  {
    ChangesOnly(pools, pools', c, MovesRecord(oldAddr, newAddr)(PoolIn(pools, c)));
    RotateOneConsistent(b, s, s', pools, c, hasKey, oldAddr, newAddr, now);
    RecordMoveConsistent(b, s', pools, pools', c, oldAddr, newAddr, now);
  }

  /** The consumers on which the validator at oldAddr has an assigned key. */
  ghost predicate KeyedBy(k: K.KeyState, oldAddr: Address, keyed: set<ConsumerId>) {
    forall c :: c in keyed <==> Pair(c, oldAddr) in k.consumerKeys
  }

  /** Accusations, key state and withheld records once the consumers of done were handled. */
  ghost predicate RotatedTo(
    s: State, k: K.KeyState, pools: map<ConsumerId, F.Pool>, s': State, k': K.KeyState, pools': map<ConsumerId, F.Pool>,
    done: seq<ConsumerId>, keyed: set<ConsumerId>, oldAddr: Address, newAddr: Address)
  {
    && s' == RotateAll(s, done, keyed, oldAddr, newAddr)
    && k' == K.Migrated(k, Q.Ids(done) * keyed, oldAddr, newAddr)
    && ChangesAll(pools, pools', Q.Ids(done), MovesRecord(oldAddr, newAddr))
  }

  lemma RotatedNone(
    s: State, k: K.KeyState, pools: map<ConsumerId, F.Pool>, keyed: set<ConsumerId>, oldAddr: Address, newAddr: Address)
    requires K.Labelled(k.members)
    ensures RotatedTo(s, k, pools, s, k, pools, [], keyed, oldAddr, newAddr)
  {
    K.MigratedNone(k, oldAddr, newAddr);
    assert Q.Ids([]) * keyed == {};
  }

  lemma RotatedNext(
    s: State, k: K.KeyState, pools: map<ConsumerId, F.Pool>, s': State, k': K.KeyState, pools': map<ConsumerId, F.Pool>,
    done: seq<ConsumerId>, keyed: set<ConsumerId>, oldAddr: Address, newAddr: Address, c: ConsumerId, s'': State,
    k'': K.KeyState, pools'': map<ConsumerId, F.Pool>)
    requires RotatedTo(s, k, pools, s', k', pools', done, keyed, oldAddr, newAddr)
    requires oldAddr != newAddr && c !in done && K.Labelled(k.members)
    requires s'' == RotateOne(s', c, c in keyed, oldAddr, newAddr)
    requires k'' == if c in keyed then K.Migrated(k', {c}, oldAddr, newAddr) else k'
    requires Changes(pools', pools'', c, MovesRecord(oldAddr, newAddr)(PoolIn(pools', c)))
    ensures RotatedTo(s, k, pools, s'', k'', pools'', done + [c], keyed, oldAddr, newAddr)
  {
    assert Q.Ids(done + [c]) == Q.Ids(done) + {c};
    ActsNext(Q.Ids(done), keyed, c);
    RotateAllNext(s, done, c, keyed, oldAddr, newAddr);
    K.MigratedNext(k, Q.Ids(done) * keyed, c, oldAddr, newAddr);
    ChangesNext(pools, pools', Q.Ids(done), MovesRecord(oldAddr, newAddr), c, pools'');
  }

  /** The next consumer has an assignment to move exactly when it had one to begin with. */
  lemma StillKeyed(
    k: K.KeyState, who: set<ConsumerId>, keyed: set<ConsumerId>, c: ConsumerId, oldAddr: Address, newAddr: Address)
    requires KeyedBy(k, oldAddr, keyed) && c !in who && oldAddr != newAddr
    ensures Pair(c, oldAddr) in K.Migrated(k, who, oldAddr, newAddr).consumerKeys <==> c in keyed
  {
    K.MovedEntryAt(k.consumerKeys, who, oldAddr, newAddr, Pair(c, oldAddr));
  }

  /** A rotation moves windows between pairs of one consumer and changes nothing else in the log. */
  lemma {:induction false} RotationKeepsLog(
    s: State, ids: seq<ConsumerId>, keyed: set<ConsumerId>, oldAddr: Address, newAddr: Address)
    ensures SameLog(s, RotateAll(s, ids, keyed, oldAddr, newAddr))
    decreases |ids|
  {
    if ids != [] {
      RotationKeepsLog(s, ids[..|ids| - 1], keyed, oldAddr, newAddr);
    }
  }

  ghost predicate SameLog(s: State, s': State) {
    && s'.accused == s.accused && s'.deleted == s.deleted && |s'.history| == |s.history|
    && forall i :: 0 <= i < |s.history| ==> s'.history[i].key.pair.consumer == s.history[i].key.pair.consumer
  }

  lemma SameStanding(s: State, s': State, c: ConsumerId, a: Address)
    requires SameLog(s, s')
    ensures AW.Standing(s', c, a) <==> AW.Standing(s, c, a)
  {
    if AW.Standing(s, c, a) {
      var i :| 0 <= i < |s.history| && i < |s.accused| && s.history[i].key.pair.consumer == c && s.accused[i] == a;
      assert s'.history[i].key.pair.consumer == c;
    }
    if AW.Standing(s', c, a) {
      var i :| 0 <= i < |s'.history| && i < |s'.accused| && s'.history[i].key.pair.consumer == c && s'.accused[i] == a;
      assert s.history[i].key.pair.consumer == c;
    }
  }

  /** The marks have no part in the filing. */
  lemma FiledWithMarks(s: State, marks: set<Pair>, reverse: map<Pair, Address>, c: ConsumerId)
    ensures AW.FiledOn(AW.World(s.(marks := marks), reverse), c) <==> AW.FiledOn(AW.World(s, reverse), c)
  {
  }

  /** One more consumer handled: its own filing is decided by it, any other's is as before. */
  lemma FiledAfterOne(
    s: State, reverse: map<Pair, Address>, d: ConsumerId, oldAddr: Address, newAddr: Address, c: ConsumerId)
    requires Renames(s, Pair(d, oldAddr), Pair(d, newAddr)) && AW.FiledOn(AW.World(s, reverse), c)
    ensures AW.FiledOn(AW.World(RotateOne(s, d, true, oldAddr, newAddr), K.Repointed(reverse, d, oldAddr, newAddr)), c)
      <==> c != d || Pair(c, oldAddr) in reverse || !AW.Standing(s, c, oldAddr)
  {
    var w, p, q := AW.World(s, reverse), Pair(d, oldAddr), Pair(d, newAddr);
    FiledWithMarks(Rename(s, p, q), MovedMark(s.marks, p, q), K.Repointed(reverse, d, oldAddr, newAddr), c);
    if c == d {
      AW.RotationFiled(w, c, oldAddr, newAddr);
    } else {
      AW.OthersFiled(w, AW.Rotated(w, d, oldAddr, newAddr), d, c);
    }
  }

  /** Once lost by another consumer's rotation or not, a filing does not change with the rest. */
  lemma FiledElsewhere(
    s: State, reverse: map<Pair, Address>, d: ConsumerId, oldAddr: Address, newAddr: Address, c: ConsumerId)
    requires Renames(s, Pair(d, oldAddr), Pair(d, newAddr)) && c != d
    ensures AW.FiledOn(AW.World(RotateOne(s, d, true, oldAddr, newAddr), K.Repointed(reverse, d, oldAddr, newAddr)), c)
      <==> AW.FiledOn(AW.World(s, reverse), c)
  {
    var w, p, q := AW.World(s, reverse), Pair(d, oldAddr), Pair(d, newAddr);
    var w' := AW.Rotated(w, d, oldAddr, newAddr);
    FiledWithMarks(Rename(s, p, q), MovedMark(s.marks, p, q), w'.reverse, c);
    forall i | 0 <= i < |s.history| && |s.accused| == |s.history| && s.history[i].key.pair.consumer == c
      ensures AW.FiledUnder(w'.s.history[i], s.accused[i], w'.reverse)
           <==> AW.FiledUnder(s.history[i], s.accused[i], reverse)
    {
      assert w'.s.history[i] == s.history[i];
    }
  }

  /** When a rotation keeps consumer c's windows findable. */
  ghost predicate RotatesFaithfully(
    s: State, reverse: map<Pair, Address>, c: ConsumerId, ids: seq<ConsumerId>, keyed: set<ConsumerId>,
    oldAddr: Address)
  {
    c in ids && c in keyed ==> Pair(c, oldAddr) in reverse || !AW.Standing(s, c, oldAddr)
  }

  /** The accusations and the mappings once a rotation has been through the consumers of ids. */
  ghost function WorldRotated(
    s: State, reverse: map<Pair, Address>, ids: seq<ConsumerId>, keyed: set<ConsumerId>, oldAddr: Address,
    newAddr: Address): AW.World
    requires AllFresh(s, keyed, newAddr) && oldAddr != newAddr
    requires forall i, j :: 0 <= i < j < |ids| ==> ids[i] != ids[j]
  {
    AW.World(RotateAll(s, ids, keyed, oldAddr, newAddr), K.RepointedAll(reverse, Q.Ids(ids) * keyed, oldAddr, newAddr))
  }

  /**
   * A rotation keeps a consumer's windows findable exactly when, if the validator has an assigned key there, none
   * accused it by its own provider address with no mapping to say so.
   */
  lemma {:induction false} RotationFiledOn(
    s: State, reverse: map<Pair, Address>, ids: seq<ConsumerId>, keyed: set<ConsumerId>, oldAddr: Address,
    newAddr: Address, c: ConsumerId)
    requires AllFresh(s, keyed, newAddr) && oldAddr != newAddr && AW.FiledOn(AW.World(s, reverse), c)
    requires forall i, j :: 0 <= i < j < |ids| ==> ids[i] != ids[j]
    ensures AW.FiledOn(WorldRotated(s, reverse, ids, keyed, oldAddr, newAddr), c)
      <==> RotatesFaithfully(s, reverse, c, ids, keyed, oldAddr)
    decreases |ids|
  {
    if ids == [] {
      assert K.RepointedAll(reverse, Q.Ids(ids) * keyed, oldAddr, newAddr) == reverse;
    } else {
      var init, d := ids[..|ids| - 1], ids[|ids| - 1];
      var before := RotateAll(s, init, keyed, oldAddr, newAddr);
      var mapped := K.RepointedAll(reverse, Q.Ids(init) * keyed, oldAddr, newAddr);
      RotationFiledOn(s, reverse, init, keyed, oldAddr, newAddr, c);
      RotationKeepsLog(s, init, keyed, oldAddr, newAddr);
      SameStanding(s, before, c, oldAddr);
      assert ids == init + [d] && d !in init;
      if d in keyed {
        StillFresh(s, init, keyed, oldAddr, newAddr, d);
      }
      MappedNext(reverse, init, d, keyed, oldAddr, newAddr);
      FiledAtStep(before, mapped, d, keyed, oldAddr, newAddr, c);
    }
  }

  lemma RotationFiled(
    s: State, reverse: map<Pair, Address>, ids: seq<ConsumerId>, keyed: set<ConsumerId>, oldAddr: Address,
    newAddr: Address)
    requires AllFresh(s, keyed, newAddr) && oldAddr != newAddr && AW.Filed(AW.World(s, reverse))
    requires forall i, j :: 0 <= i < j < |ids| ==> ids[i] != ids[j]
    ensures AW.Filed(WorldRotated(s, reverse, ids, keyed, oldAddr, newAddr))
      <==> AllRotateFaithfully(s, reverse, ids, keyed, oldAddr)
  {
    var w := WorldRotated(s, reverse, ids, keyed, oldAddr, newAddr);
    RotationKeepsLog(s, ids, keyed, oldAddr, newAddr);
    forall c | c !in s.deleted ensures AW.FiledOn(w, c) <==> RotatesFaithfully(s, reverse, c, ids, keyed, oldAddr) {
      RotationFiledOn(s, reverse, ids, keyed, oldAddr, newAddr, c);
    }
  }

  ghost predicate AllRotateFaithfully(
    s: State, reverse: map<Pair, Address>, ids: seq<ConsumerId>, keyed: set<ConsumerId>, oldAddr: Address)
  {
    forall c :: c !in s.deleted ==> RotatesFaithfully(s, reverse, c, ids, keyed, oldAddr)
  }

  lemma MappedNext(
    reverse: map<Pair, Address>, init: seq<ConsumerId>, d: ConsumerId, keyed: set<ConsumerId>, oldAddr: Address,
    newAddr: Address)
    ensures K.RepointedAll(reverse, Q.Ids(init + [d]) * keyed, oldAddr, newAddr)
         == NextMapped(K.RepointedAll(reverse, Q.Ids(init) * keyed, oldAddr, newAddr), d, keyed, oldAddr, newAddr)
  {
    assert Q.Ids(init + [d]) == Q.Ids(init) + {d};
    ActsNext(Q.Ids(init), keyed, d);
  }

  function NextMapped(
    reverse: map<Pair, Address>, d: ConsumerId, keyed: set<ConsumerId>, oldAddr: Address, newAddr: Address)
    : map<Pair, Address>
  {
    if d in keyed then K.Repointed(reverse, d, oldAddr, newAddr) else reverse
  }

  lemma FiledAtStep(
    s: State, reverse: map<Pair, Address>, d: ConsumerId, keyed: set<ConsumerId>, oldAddr: Address, newAddr: Address,
    c: ConsumerId)
    requires d in keyed ==> Renames(s, Pair(d, oldAddr), Pair(d, newAddr))
    requires c == d && d in keyed ==> AW.FiledOn(AW.World(s, reverse), c)
    ensures var reverse' := NextMapped(reverse, d, keyed, oldAddr, newAddr);
            var filed := AW.FiledOn(AW.World(RotateOne(s, d, d in keyed, oldAddr, newAddr), reverse'), c);
            filed == if c == d && d in keyed then Pair(c, oldAddr) in reverse || !AW.Standing(s, c, oldAddr)
                     else AW.FiledOn(AW.World(s, reverse), c)
  {
    if d !in keyed {
      FiledWithMarks(s, MovedMark(s.marks, Pair(d, oldAddr), Pair(d, newAddr)), reverse, c);
    } else if c == d {
      FiledAfterOne(s, reverse, d, oldAddr, newAddr, c);
    } else {
      FiledElsewhere(s, reverse, d, oldAddr, newAddr, c);
    }
  }

  /** A rotation moves the epoch marks too, on every consumer whether or not a key is assigned there. */
  lemma {:induction false} RotationMovesMarks(
    s: State, ids: seq<ConsumerId>, keyed: set<ConsumerId>, oldAddr: Address, newAddr: Address, p: Pair)
    requires oldAddr != newAddr && forall i, j :: 0 <= i < j < |ids| ==> ids[i] != ids[j]
    ensures p in RotateAll(s, ids, keyed, oldAddr, newAddr).marks
      <==> if p.consumer !in ids then p in s.marks
           else (p.addr == newAddr && Pair(p.consumer, oldAddr) in s.marks) || (p.addr != oldAddr && p in s.marks)
    decreases |ids|
  {
    if ids != [] {
      var init, d := ids[..|ids| - 1], ids[|ids| - 1];
      RotationMovesMarks(s, init, keyed, oldAddr, newAddr, p);
      assert ids == init + [d] && d !in init;
      if p.consumer == d {
        RotationMovesMarks(s, init, keyed, oldAddr, newAddr, Pair(d, oldAddr));
      }
    }
  }

  lemma RotateAllNext(
    s: State, done: seq<ConsumerId>, c: ConsumerId, keyed: set<ConsumerId>, oldAddr: Address, newAddr: Address)
    ensures RotateAll(s, done + [c], keyed, oldAddr, newAddr)
         == RotateOne(RotateAll(s, done, keyed, oldAddr, newAddr), c, c in keyed, oldAddr, newAddr)
  {
    assert (done + [c])[..|done|] == done;
  }

  lemma TakeOneMore(ids: seq<ConsumerId>, i: nat)
    requires i < |ids|
    ensures ids[..i + 1] == ids[..i] + [ids[i]] && (Q.Unique(ids) ==> ids[i] !in ids[..i])
  {
  }

  lemma AllOf(ids: seq<ConsumerId>)
    ensures ids[..|ids|] == ids
  {
  }

  // Lemmas about a block's steps.

  lemma LegalReflexive(phases: L.Phases)
    ensures L.Legal(phases, phases)
  {
  }

  lemma IdsFromStart(ids: seq<ConsumerId>)
    ensures Q.Ids(ids[0..]) == Q.Ids(ids) && Q.Ids(ids[|ids|..]) == {} && Q.Ids(ids[..0]) == {}
  {
  }

  /** Acting, among the launched consumers, on those of who. */
  lemma ActedOn(ids: seq<ConsumerId>, phases: L.Phases, who: set<ConsumerId>)
    requires forall c :: c in ids <==> L.InPhase(phases, c, L.Launched)
    ensures Q.Ids(ids[..|ids|]) * who == InPhaseSet(phases, L.Launched) * who
  {
    AllOf(ids);
  }

  lemma IdsFrom(ids: seq<ConsumerId>, i: nat)
    requires Q.Unique(ids) && i < |ids|
    ensures ids[i] !in Q.Ids(ids[i + 1..]) && Q.Ids(ids[i..]) == {ids[i]} + Q.Ids(ids[i + 1..])
    ensures Q.Ids(ids[i..]) - {ids[i]} == Q.Ids(ids[i + 1..])
    ensures ids[i] !in Q.Ids(ids[..i]) && Q.Ids(ids[..i + 1]) == Q.Ids(ids[..i]) + {ids[i]}
  {
    assert ids[i..] == [ids[i]] + ids[i + 1..];
    assert ids[..i + 1] == ids[..i] + [ids[i]];
  }

  lemma LaunchesConsistent(b: L.Book, s: State, pools: map<ConsumerId, F.Pool>, now: Time)
    requires Consistent(b, s, pools, now) && b.launching == {}
    ensures Consistent(L.TakeLaunches(b, now), s, pools, now)
    ensures var ids := Q.Take(b.launches, now, L.QUEUE_LIMIT).ids;
            Q.Unique(ids) && L.TakeLaunches(b, now).launching == Q.Ids(ids)
  {
    L.TakeLaunchesKeeps(b, now);
    L.TakenFromLine(b.launches, b.phases, L.Initialized, b.spawnTimes, now, b.launching);
  }

  lemma RemovalsConsistent(b: L.Book, s: State, pools: map<ConsumerId, F.Pool>, now: Time)
    requires Consistent(b, s, pools, now) && b.removing == {}
    ensures Consistent(L.TakeRemovals(b, now), s, pools, now)
    ensures var ids := Q.Take(b.removals, now, L.QUEUE_LIMIT).ids;
            Q.Unique(ids) && L.TakeRemovals(b, now).removing == Q.Ids(ids)
  {
    L.TakeRemovalsKeeps(b, now);
    L.TakenFromLine(b.removals, b.phases, L.Stopped, b.removalTimes, now, b.removing);
  }

  lemma AutoStopsConsistent(b: L.Book, s: State, pools: map<ConsumerId, F.Pool>, now: Time)
    requires Consistent(b, s, pools, now) && b.stopping == {}
    ensures Consistent(L.TakeAutoStops(b, now), s, pools, now)
    ensures var ids := Q.Take(b.autoStops, now, L.QUEUE_LIMIT).ids;
            Q.Unique(ids) && L.TakeAutoStops(b, now).stopping == Q.Ids(ids)
    ensures AllExpired(b, now, DueToStop(b, now))
  {
    L.TakeAutoStopsKeeps(b, now);
    L.TakenFromLine(b.autoStops, b.phases, L.Paused, b.pauseExpirations, now, b.stopping);
  }

  lemma RemovingDeletable(b: L.Book, c: ConsumerId)
    requires L.Handling(b) && c in b.removing
    ensures L.Deletable(b, c)
  {
  }

  lemma StoppingPaused(b: L.Book, c: ConsumerId)
    requires L.Handling(b) && c in b.stopping
    ensures L.InPhase(b.phases, c, L.Paused) && L.Running(b, c)
  {
  }

  /** With nothing in flight for others than launched consumers, nothing is lost. */
  lemma AllSurvives(b: L.Book, s: State, pools: map<ConsumerId, F.Pool>, now: Time)
    requires Consistent(b, s, pools, now)
    ensures Surviving(s, b.phases) == s
  {
    NothingDeletedLeft(b.phases, s);
    AllInFlightSurvives(b.phases, s);
  }

  lemma NothingDeletedLeft(phases: L.Phases, s: State)
    requires Erased(s) && SameDeleted(phases, s.deleted)
    ensures Surviving(s, phases).accepted == s.accepted && Surviving(s, phases).floors == s.floors
    ensures Surviving(s, phases).deleted == s.deleted
  {
    forall k | k in s.accepted ensures !L.InPhase(phases, k.pair.consumer, L.Deleted) {
      assert k.pair.consumer !in s.deleted;
    }
  }

  lemma AllInFlightSurvives(phases: L.Phases, s: State)
    requires InFlight(phases, s.pending, s.marks)
    ensures Surviving(s, phases).pending == s.pending && Surviving(s, phases).marks == s.marks
  {
  }

  /** What executes was in flight, hence of launched consumers. */
  lemma RunLaunched(b: L.Book, s: State, pools: map<ConsumerId, F.Pool>, run: seq<WindowKey>, now: Time)
    requires Consistent(b, s, pools, now) && Runs(s, now, run)
    ensures forall k :: k in run ==> L.InPhase(b.phases, k.pair.consumer, L.Launched)
  {
    forall k | k in run ensures k in s.pending {
      var i :| 0 <= i < |run| && run[i] == k;
      assert Executable(s, run[i], now);
    }
  }

  lemma DistributedConsistent(
    b: L.Book, s: State, pools: map<ConsumerId, F.Pool>, pools': map<ConsumerId, F.Pool>, c: ConsumerId, fee: int,
    eligible: seq<Address>, excluded: seq<Address>, sends: bool, now: Time, window: Time)
    requires Consistent(b, s, pools, now) && L.InPhase(b.phases, c, L.Launched) && fee >= 0
    requires |eligible| + |excluded| > 0
    requires
      var p := if c in pools then pools[c] else F.EMPTY_POOL;
      && EscrowedPool(b.phases, c, p, now)
      && pools' == pools[c := F.Distributed(p, fee, eligible, excluded, sends, now, window)]
    ensures Consistent(b, s, pools', now)
  {
    var p := if c in pools then pools[c] else F.EMPTY_POOL;
    F.DistributionStaysSolvent(p, fee, eligible, excluded, sends, now, window);
    PoolConsistent(b, s, pools, pools', c, now);
  }

  /** What one block brings: the clock, the parameters and how the other modules answer. */
  datatype Block = Block(
    now: Time,
    launchable: set<ConsumerId>,
    frozen: set<ConsumerId>,
    grace: Time,
    maxPause: Time,
    unbonding: Time,
    payees: map<Address, Address>,
    sends: set<Address>,
    goesThrough: set<WindowKey>,
    params: InfractionParams,
    epochEnds: bool,
    fees: map<ConsumerId, int>,
    bonded: seq<F.Bonded>,
    feeSends: set<ConsumerId>)

  /** When a consumer stopped in the block is due for removal. */
  function RemovalTime(b: Block): Time {
    b.now + b.unbonding
  }

  predicate ValidBlock(b: Block) {
    && F.DistinctValidators(b.bonded)
    && (forall c :: c in b.fees ==> b.fees[c] >= 0)
    && b.maxPause > 0
  }

  /** The pool of a consumer c, empty if it never held anything. */
  function PoolIn(pools: map<ConsumerId, F.Pool>, c: ConsumerId): F.Pool {
    if c in pools then pools[c] else F.EMPTY_POOL
  }

  /** A pool whose unexpired records have been paid. */
  ghost function Repaid(p: F.Pool, payees: map<Address, Address>, sends: set<Address>, now: Time): F.Pool {
    p.(records := map[], balance := p.balance - Sum(FK.Owed(p.records, payees, sends, now)))
  }

  /** What a sweep leaves of a pool. */
  function Swept(p: F.Pool): F.Pool {
    p.(balance := 0, shares := map[], total := None)
  }

  lemma SweptPoolConsistent(
    b: L.Book, s: State, pools: map<ConsumerId, F.Pool>, pools': map<ConsumerId, F.Pool>, c: ConsumerId, now: Time)
    requires Consistent(b, s, pools, now) && !L.Running(b, c) && AllSound(pools')
    requires Changes(pools, pools', c, Swept(PoolIn(pools, c)))
    ensures Consistent(b, s, pools', now)
  {
    ChangesOnly(pools, pools', c, Swept(PoolIn(pools, c)));
    if c in pools' && !L.InPhase(b.phases, c, L.Stopped) {
      assert c in pools ==> EscrowedPool(b.phases, c, pools[c], now);
      NoRecordsSolvent(pools'[c], now);
    }
    PoolConsistent(b, s, pools, pools', c, now);
  }

  lemma ReceivedConsistent(
    b: L.Book, s: State, pools: map<ConsumerId, F.Pool>, pools': map<ConsumerId, F.Pool>, c: ConsumerId, amount: int,
    now: Time)
    requires Consistent(b, s, pools, now) && EscrowedPool(b.phases, c, PoolIn(pools, c), now) && amount >= 0
    requires pools' == pools[c := F.Received(PoolIn(pools, c), amount)]
    ensures Consistent(b, s, pools', now)
  {
    F.MoreBalance(PoolIn(pools, c), amount, now);
    PoolConsistent(b, s, pools, pools', c, now);
  }

  lemma WithdrawnConsistent(
    b: L.Book, s: State, pools: map<ConsumerId, F.Pool>, pools': map<ConsumerId, F.Pool>, c: ConsumerId,
    depositor: Address, amount: int, now: Time)
    requires Consistent(b, s, pools, now) && EscrowedPool(b.phases, c, PoolIn(pools, c), now)
    requires F.Sound(PoolIn(pools, c))
    requires F.Withdrawable(PoolIn(pools, c), depositor, amount, now)
    requires var p := PoolIn(pools, c);
             pools' == pools[c := F.Withdrawn(p, depositor, F.DrawFor(p, depositor, amount, now))]
    ensures Consistent(b, s, pools', now)
  {
    F.DrawWithinLimits(PoolIn(pools, c), depositor, amount, now);
    PoolConsistent(b, s, pools, pools', c, now);
  }

  /** What deletion leaves of a pool: the shares paid in past runs. */
  function Emptied(p: F.Pool): F.Pool {
    p.(balance := 0, shares := map[], total := None, records := map[], inDebt := false)
  }

  ghost function Repays(b: Block): F.Pool -> F.Pool {
    p => Repaid(p, b.payees, b.sends, b.now)
  }

  /** The pools of who have each changed by f, and no other. */
  ghost predicate ChangesAll(
    pools: map<ConsumerId, F.Pool>, pools': map<ConsumerId, F.Pool>, who: set<ConsumerId>, f: F.Pool -> F.Pool)
  {
    forall c :: PoolIn(pools', c) == if c in who then f(PoolIn(pools, c)) else PoolIn(pools, c)
  }

  /** pools' is pools with c's pool changed to p, reading an absent pool as an empty one. */
  ghost predicate Changes(pools: map<ConsumerId, F.Pool>, pools': map<ConsumerId, F.Pool>, c: ConsumerId, p: F.Pool) {
    forall d :: PoolIn(pools', d) == if d == c then p else PoolIn(pools, d)
  }

  /** The pairs with an executed accusation and nothing left pending. */
  ghost function SettledPairs(run: seq<WindowKey>, pending: map<WindowKey, Slash>): set<Pair> {
    (set k | k in run :: k.pair) - (set k | k in pending :: k.pair)
  }

  /** The records of settled pairs are gone. */
  ghost predicate SettledAll(
    pools: map<ConsumerId, F.Pool>, pools': map<ConsumerId, F.Pool>, run: seq<WindowKey>,
    pending: map<WindowKey, Slash>)
  {
    && pools'.Keys == pools.Keys
    && forall c :: c in pools' ==>
         pools'[c] == pools[c].(records := FK.WithoutSettled(c, pools[c].records, SettledPairs(run, pending)))
  }

  // What the steps of a block have done so far.

  /** The consumers of done, all due, have launched or fallen back. */
  ghost predicate LaunchedTo(
    b: L.Book, acks: map<ConsumerId, Time>, b': L.Book, acks': map<ConsumerId, Time>, launchable: set<ConsumerId>,
    done: set<ConsumerId>, now: Time)
  {
    Launches(b, b', done * launchable, done - launchable) && acks' == Put(acks, done * launchable, now)
  }

  /** The consumers of done are deleted, and nothing is left of them. */
  ghost predicate RemovedTo(
    b: L.Book, acks: map<ConsumerId, Time>, s: State, pools: map<ConsumerId, F.Pool>, b': L.Book,
    acks': map<ConsumerId, Time>, s': State, pools': map<ConsumerId, F.Pool>, done: set<ConsumerId>)
  {
    && Removes(b, b', done) && acks' == acks - done
    && s' == Surviving(s, b'.phases) && ChangesAll(pools, pools', done, Emptied)
  }

  /** The consumers of done are paused and repaid, and nothing is in flight for them. */
  ghost predicate PausedTo(
    b: L.Book, s: State, pools: map<ConsumerId, F.Pool>, b': L.Book, s': State, pools': map<ConsumerId, F.Pool>,
    block: Block, done: set<ConsumerId>)
  {
    && Pauses(b, b', done, L.LightClientAttack, block.now, block.maxPause)
    && s' == Surviving(s, b'.phases) && ChangesAll(pools, pools', done, Repays(block))
  }

  /** The consumers of done are stopped, and nothing is in flight for them. */
  ghost predicate StoppedTo(b: L.Book, s: State, b': L.Book, s': State, removalTime: Time, done: set<ConsumerId>) {
    Stops(b, b', done, removalTime) && s' == Surviving(s, b'.phases)
  }

  lemma ChangesNext(
    pools: map<ConsumerId, F.Pool>, pools': map<ConsumerId, F.Pool>, done: set<ConsumerId>, f: F.Pool -> F.Pool,
    c: ConsumerId, pools'': map<ConsumerId, F.Pool>)
    requires ChangesAll(pools, pools', done, f) && c !in done && Changes(pools', pools'', c, f(PoolIn(pools', c)))
    ensures ChangesAll(pools, pools'', done + {c}, f)
  {
  }

  lemma LaunchedNext(
    b: L.Book, acks: map<ConsumerId, Time>, b': L.Book, acks': map<ConsumerId, Time>, launchable: set<ConsumerId>,
    done: set<ConsumerId>, now: Time, c: ConsumerId, b'': L.Book, acks'': map<ConsumerId, Time>)
    requires LaunchedTo(b, acks, b', acks', launchable, done, now) && c !in done && c in b'.phases && c in b'.spawnTimes
    requires b'' == L.Launch(b', c, c in launchable) && acks'' == if c in launchable then acks'[c := now] else acks'
    ensures LaunchedTo(b, acks, b'', acks'', launchable, done + {c}, now)
  {
    DueNext(b, b', acks, launchable, done, c, now);
  }

  lemma LaunchingKnown(b: L.Book, c: ConsumerId)
    requires L.Recorded(b) && L.Handling(b) && c in b.launching
    ensures c in b.phases && c in b.spawnTimes
  {
  }

  lemma RemovedNext(
    b: L.Book, acks: map<ConsumerId, Time>, s: State, pools: map<ConsumerId, F.Pool>, b': L.Book,
    acks': map<ConsumerId, Time>, s': State, pools': map<ConsumerId, F.Pool>, done: set<ConsumerId>, c: ConsumerId,
    b'': L.Book, acks'': map<ConsumerId, Time>, s'': State, pools'': map<ConsumerId, F.Pool>)
    requires RemovedTo(b, acks, s, pools, b', acks', s', pools', done) && c !in done
    requires c in b'.phases && c in b'.spawnTimes && b'.phases[c] != L.Deleted
    requires Changes(pools', pools'', c, Emptied(PoolIn(pools', c)))
    requires b'' == L.Delete(b', c) && acks'' == acks' - {c} && s'' == Delete(s', c)
    ensures RemovedTo(b, acks, s, pools, b'', acks'', s'', pools'', done + {c})
  {
    ChangesNext(pools, pools', done, Emptied, c, pools'');
    RemovesNext(b, b', done, c);
    SurvivingDelete(s, b'.phases, c);
    assert acks - done - {c} == acks - (done + {c});
  }

  lemma PausedNext(
    b: L.Book, s: State, pools: map<ConsumerId, F.Pool>, b': L.Book, s': State, pools': map<ConsumerId, F.Pool>,
    block: Block, done: set<ConsumerId>, c: ConsumerId, b'': L.Book, s'': State, pools'': map<ConsumerId, F.Pool>)
    requires PausedTo(b, s, pools, b', s', pools', block, done) && c !in done && L.InPhase(b'.phases, c, L.Launched)
    requires Changes(pools', pools'', c, Repays(block)(PoolIn(pools', c)))
    requires b'' == L.Pause(b', c, L.LightClientAttack, block.now, block.maxPause) && s'' == Cancel(s', c)
    ensures PausedTo(b, s, pools, b'', s'', pools'', block, done + {c})
  {
    ChangesNext(pools, pools', done, Repays(block), c, pools'');
    PausesNext(b, b', done, L.LightClientAttack, block.now, block.maxPause, c);
    SurvivingCancel(s, b'.phases, c, L.Paused);
  }

  lemma StoppedNext(
    b: L.Book, s: State, b': L.Book, s': State, removalTime: Time, done: set<ConsumerId>, c: ConsumerId, b'': L.Book,
    s'': State)
    requires StoppedTo(b, s, b', s', removalTime, done) && c in b'.phases && b'.phases[c] != L.Deleted
    requires b'' == L.Stop(b', c, removalTime) && s'' == Cancel(s', c)
    ensures StoppedTo(b, s, b'', s'', removalTime, done + {c})
  {
    StopsNext(b, b', done, removalTime, c);
    SurvivingCancel(s, b'.phases, c, L.Stopped);
  }

  lemma NothingDone(b: L.Book, s: State, pools: map<ConsumerId, F.Pool>, b': L.Book, now: Time)
    requires Consistent(b, s, pools, now)
    requires b'.phases == b.phases && b'.spawnTimes == b.spawnTimes && b'.removalTimes == b.removalTimes
    requires SamePauses(b, b')
    ensures forall acks :: RemovedTo(b, acks, s, pools, b', acks, s, pools, {})
    ensures b'.autoStops == b.autoStops ==> forall block :: PausedTo(b, s, pools, b', s, pools, block, {})
    ensures forall t :: StoppedTo(b, s, b', s, t, {})
  {
    NothingYet(b, b');
    AllSurvives(b, s, pools, now);
  }

  // Where a block takes the phases.

  ghost function DueToLaunch(b: L.Book, now: Time): set<ConsumerId> {
    Q.Ids(Q.Take(b.launches, now, L.QUEUE_LIMIT).ids)
  }

  ghost function DueToRemove(b: L.Book, now: Time): set<ConsumerId> {
    Q.Ids(Q.Take(b.removals, now, L.QUEUE_LIMIT).ids)
  }

  ghost function DueToStop(b: L.Book, now: Time): set<ConsumerId> {
    Q.Ids(Q.Take(b.autoStops, now, L.QUEUE_LIMIT).ids)
  }

  /** The consumers of who are paused, and their pauses are over. */
  ghost predicate AllExpired(b: L.Book, now: Time, who: set<ConsumerId>) {
    forall c :: c in who ==> L.InPhase(b.phases, c, L.Paused) && c in b.pauseExpirations && b.pauseExpirations[c] <= now
  }

  ghost function AfterQueues(b: L.Book, block: Block): L.Phases {
    var due := DueToLaunch(b, block.now);
    Moved(Moved(Moved(b.phases, due * block.launchable, L.Launched), due - block.launchable, L.Registered),
          DueToRemove(b, block.now), L.Deleted)
  }

  ghost function FrozenIn(phases: L.Phases, block: Block): set<ConsumerId> {
    InPhaseSet(phases, L.Launched) * block.frozen
  }

  ghost function AfterFreeze(b: L.Book, block: Block): L.Phases {
    Moved(AfterQueues(b, block), FrozenIn(AfterQueues(b, block), block), L.Paused)
  }

  /** Acknowledgements once launches have started their clocks and removals have ended theirs. */
  ghost function AcksAfterQueues(b: L.Book, lastAcks: map<ConsumerId, Time>, block: Block): map<ConsumerId, Time> {
    Put(lastAcks, DueToLaunch(b, block.now) * block.launchable, block.now) - DueToRemove(b, block.now)
  }

  ghost function AfterLiveness(b: L.Book, lastAcks: map<ConsumerId, Time>, block: Block): L.Phases {
    var phases := AfterFreeze(b, block);
    Moved(phases, Silent(phases, AcksAfterQueues(b, lastAcks, block), block.now, block.grace), L.Stopped)
  }

  /**
   * Consumers due for launch launch or fall back, those due for removal are deleted, then the frozen launched
   * ones pause, then the silent launched ones stop, then those due to stop do, their pauses being over.
   */
  ghost predicate LifecyclesMoved(b: L.Book, lastAcks: map<ConsumerId, Time>, block: Block, phases': L.Phases) {
    && phases' == Moved(AfterLiveness(b, lastAcks, block), DueToStop(b, block.now), L.Stopped)
    && AllExpired(b, block.now, DueToStop(b, block.now))
  }

  /** The five lifecycle steps of a block, one after the other, take the phases where LifecyclesMoved says. */
  lemma LifecyclesChain(
    b0: L.Book, acks0: map<ConsumerId, Time>, b1: L.Book, acks1: map<ConsumerId, Time>, b2: L.Book,
    acks2: map<ConsumerId, Time>, b3: L.Book, b4: L.Book, phases5: L.Phases, block: Block)
    requires L.Good(b0) && b2.autoStops == b0.autoStops && b4.autoStops == b3.autoStops && block.maxPause > 0
    requires LaunchedTo(b0, acks0, b1, acks1, block.launchable, DueToLaunch(b0, block.now), block.now)
    requires b1.removals == b0.removals && Removes(b1, b2, DueToRemove(b1, block.now))
    requires acks2 == acks1 - DueToRemove(b1, block.now)
    requires PhasesFade(b2, b3, b4, phases5, acks2, block, DueToStop(b4, block.now))
    ensures LifecyclesMoved(b0, acks0, block, phases5) && b2.phases == AfterQueues(b0, block)
    ensures DueToRemove(b1, block.now) == DueToRemove(b0, block.now)
  {
    PhasesChain(b0, acks0, b1, acks1, b2, acks2, b3.phases, b4.phases, block);
    SameDueToStop(b2, b3, b4, FrozenIn(b2.phases, block), block);
    assert DueToStop(b0, block.now) == DueToStop(b2, block.now);
    DueExpired(b0, block.now);
  }

  lemma PhasesChain(
    b0: L.Book, acks0: map<ConsumerId, Time>, b1: L.Book, acks1: map<ConsumerId, Time>, b2: L.Book,
    acks2: map<ConsumerId, Time>, phases3: L.Phases, phases4: L.Phases, block: Block)
    requires LaunchedTo(b0, acks0, b1, acks1, block.launchable, DueToLaunch(b0, block.now), block.now)
    requires b1.removals == b0.removals && Removes(b1, b2, DueToRemove(b1, block.now))
    requires acks2 == acks1 - DueToRemove(b1, block.now)
    requires phases3 == Moved(b2.phases, FrozenIn(b2.phases, block), L.Paused)
    requires phases4 == Moved(phases3, Silent(phases3, acks2, block.now, block.grace), L.Stopped)
    ensures b2.phases == AfterQueues(b0, block) && phases4 == AfterLiveness(b0, acks0, block)
    ensures DueToRemove(b1, block.now) == DueToRemove(b0, block.now)
  {
    assert b2.phases == AfterQueues(b0, block);
    assert phases3 == AfterFreeze(b0, block);
    assert acks2 == AcksAfterQueues(b0, acks0, block);
  }

  /** Pauses begun in a block are not over in it. */
  lemma SameDueToStop(b2: L.Book, b3: L.Book, b4: L.Book, who: set<ConsumerId>, block: Block)
    requires Pauses(b2, b3, who, L.LightClientAttack, block.now, block.maxPause) && block.maxPause > 0
    requires b4.autoStops == b3.autoStops
    ensures DueToStop(b4, block.now) == DueToStop(b2, block.now)
  {
    Q.DueDecides(b2.autoStops, b4.autoStops, block.now, L.QUEUE_LIMIT);
  }

  lemma StopLeavesLine(b: L.Book, b': L.Book, c: ConsumerId, removalTime: Time)
    requires L.Recorded(b) && b' == L.Stop(b, c, removalTime) && L.InPhase(b.phases, c, L.Launched)
    ensures b'.autoStops == b.autoStops
  {
  }

  lemma DueExpired(b: L.Book, now: Time)
    requires L.Good(b)
    ensures AllExpired(b, now, DueToStop(b, now))
  {
    L.TakenFromLine(b.autoStops, b.phases, L.Paused, b.pauseExpirations, now, b.stopping);
  }

  /** No consumer is newly launched, and none comes back from deletion. */
  ghost predicate Fades(phases: L.Phases, phases': L.Phases) {
    forall c :: (L.InPhase(phases', c, L.Launched) ==> L.InPhase(phases, c, L.Launched))
             && (L.InPhase(phases, c, L.Deleted) ==> L.InPhase(phases', c, L.Deleted))
  }

  lemma SurvivingTwice(s: State, phases: L.Phases, phases': L.Phases)
    requires Fades(phases, phases')
    ensures Surviving(Surviving(s, phases), phases') == Surviving(s, phases')
  {
    SurvivingInFlightTwice(s, phases, phases');
    SurvivingWindowsTwice(s, phases, phases');
  }

  lemma SurvivingInFlightTwice(s: State, phases: L.Phases, phases': L.Phases)
    requires Fades(phases, phases')
    ensures Surviving(Surviving(s, phases), phases').pending == Surviving(s, phases').pending
    ensures Surviving(Surviving(s, phases), phases').marks == Surviving(s, phases').marks
  {
  }

  lemma SurvivingWindowsTwice(s: State, phases: L.Phases, phases': L.Phases)
    requires Fades(phases, phases')
    ensures Surviving(Surviving(s, phases), phases').accepted == Surviving(s, phases').accepted
    ensures Surviving(Surviving(s, phases), phases').floors == Surviving(s, phases').floors
    ensures Surviving(Surviving(s, phases), phases').deleted == Surviving(s, phases').deleted
  {
    forall c | c in InPhaseSet(phases, L.Deleted) ensures c in InPhaseSet(phases', L.Deleted) {
      assert L.InPhase(phases, c, L.Deleted);
    }
  }

  lemma MovedFades(phases: L.Phases, who: set<ConsumerId>, p: L.Phase, phases': L.Phases)
    requires phases' == Moved(phases, who, p) && p != L.Launched && p != L.Deleted
    requires forall c :: c in who ==> L.InPhase(phases, c, L.Launched) || L.InPhase(phases, c, L.Paused)
    ensures Fades(phases, phases')
  {
  }

  /** The last three lifecycle steps of a block only ever cancel. */
  lemma LedgerChain(
    b2: L.Book, b3: L.Book, b4: L.Book, b5: L.Book, acks: map<ConsumerId, Time>, block: Block, expired: set<ConsumerId>,
    s0: State, s2: State, s3: State, s4: State, s5: State)
    requires PhasesFade(b2, b3, b4, b5.phases, acks, block, expired)
    requires s2 == Surviving(s0, b2.phases) && s3 == Surviving(s2, b3.phases)
    requires s4 == Surviving(s3, b4.phases) && s5 == Surviving(s4, b5.phases)
    ensures s5 == Surviving(s0, b5.phases)
  {
    MovedFades(b2.phases, FrozenIn(b2.phases, block), L.Paused, b3.phases);
    MovedFades(b3.phases, Silent(b3.phases, acks, block.now, block.grace), L.Stopped, b4.phases);
    MovedFades(b4.phases, expired, L.Stopped, b5.phases);
    SurvivingTwice(s0, b2.phases, b3.phases);
    SurvivingTwice(s0, b3.phases, b4.phases);
    SurvivingTwice(s0, b4.phases, b5.phases);
  }

  ghost predicate PhasesFade(
    b2: L.Book, b3: L.Book, b4: L.Book, phases5: L.Phases, acks: map<ConsumerId, Time>, block: Block,
    expired: set<ConsumerId>)
  {
    && Pauses(b2, b3, FrozenIn(b2.phases, block), L.LightClientAttack, block.now, block.maxPause)
    && Stops(b3, b4, Silent(b3.phases, acks, block.now, block.grace), RemovalTime(block))
    && AllExpired(b4, block.now, expired) && phases5 == Moved(b4.phases, expired, L.Stopped)
  }

  lemma EmptiedThenRepaid(
    b: L.Book, b2: L.Book, pools: map<ConsumerId, F.Pool>, pools': map<ConsumerId, F.Pool>,
    pools'': map<ConsumerId, F.Pool>, block: Block)
    requires ChangesAll(pools, pools', DueToRemove(b, block.now), Emptied) && b2.phases == AfterQueues(b, block)
    requires ChangesAll(pools', pools'', FrozenIn(b2.phases, block), Repays(block))
    ensures EmptiedAndRepaid(b, pools, pools'', block)
  {
    forall c ensures EmptiedOrRepaid(b, PoolIn(pools, c), PoolIn(pools'', c), c, block) {
      var p := PoolIn(pools', c);
      assert PoolIn(pools'', c) == if c in FrozenIn(AfterQueues(b, block), block) then Repays(block)(p) else p;
    }
  }

  /** How long evidence and its challenge can still refer to what a block sees. */
  function Horizon(b: Block): Time {
    b.params.challengeWindow + b.params.maxAge
  }

  function OldestRun(b: Block): Time {
    b.now - Horizon(b)
  }

  function WithRunsSince(oldest: Time): F.Pool -> F.Pool {
    (p: F.Pool) => p.(runs := FK.RunsSince(p.runs, oldest))
  }

  function WithUnexpired(now: Time): F.Pool -> F.Pool {
    (p: F.Pool) => p.(records := FK.Unexpired(p.records, now))
  }

  /** Every pool has changed by f. */
  ghost predicate ChangesEvery(pools: map<ConsumerId, F.Pool>, pools': map<ConsumerId, F.Pool>, f: F.Pool -> F.Pool) {
    forall c :: PoolIn(pools', c) == f(PoolIn(pools, c))
  }

  /** What a block's prunings make of a pool. */
  ghost function Ages(b: Block): F.Pool -> F.Pool {
    p => WithUnexpired(b.now)(WithRunsSince(OldestRun(b))(p))
  }

  lemma AgesInTurn(
    pools: map<ConsumerId, F.Pool>, pools': map<ConsumerId, F.Pool>, pools'': map<ConsumerId, F.Pool>, b: Block)
    requires ChangesEvery(pools, pools', WithRunsSince(OldestRun(b)))
    requires ChangesEvery(pools', pools'', WithUnexpired(b.now))
    ensures ChangesEvery(pools, pools'', Ages(b))
  {
    forall c ensures PoolIn(pools'', c) == Ages(b)(PoolIn(pools, c)) {
      assert PoolIn(pools'', c) == WithUnexpired(b.now)(PoolIn(pools', c));
    }
  }

  ghost function AgedPool(p: F.Pool, c: ConsumerId, b: Block, marks: set<Pair>, launched: bool): F.Pool {
    var aged := Ages(b)(p);
    if b.epochEnds then Charged(aged, c, b, marks, launched) else aged
  }

  ghost function AgedLedger(s: State, b: Block): State {
    var aged := Prune(s, b.now, Horizon(b));
    if b.epochEnds then aged.(marks := {}) else aged
  }

  /** From s to s': run is the matured slashes, let through, of consumers still launched at the block's end. */
  ghost predicate Executes(s: State, s': State, phases: L.Phases, b: Block, run: seq<WindowKey>) {
    var left := Surviving(s, phases);
    && (forall k :: k in run
         <==> k in b.goesThrough && Executable(s, k, b.now) && L.InPhase(phases, k.pair.consumer, L.Launched))
    && Runs(left, b.now, run) && s' == AgedLedger(Sweep(left, b.now, run), b)
  }

  ghost predicate EmptiedOrRepaid(b: L.Book, p: F.Pool, p': F.Pool, c: ConsumerId, block: Block) {
    p' == QueuedPool(b, p, c, block)
  }

  /** The pool of c after the queues and the frozen clients were handled. */
  ghost function QueuedPool(b: L.Book, p: F.Pool, c: ConsumerId, block: Block): F.Pool {
    var q := if c in DueToRemove(b, block.now) then Emptied(p) else p;
    if c in FrozenIn(AfterQueues(b, block), block) then Repaid(q, block.payees, block.sends, block.now) else q
  }

  ghost function SettledPool(p: F.Pool, c: ConsumerId, run: seq<WindowKey>, pending: map<WindowKey, Slash>): F.Pool {
    p.(records := FK.WithoutSettled(c, p.records, SettledPairs(run, pending)))
  }

  /**
   * What a block makes of every pool: removal empties it, a freeze repays its records, settled accusations take
   * their records with them, and then it ages and, at an epoch's end, is charged.
   */
  ghost predicate BlockPools(
    b: L.Book, s: State, pools: map<ConsumerId, F.Pool>, pools': map<ConsumerId, F.Pool>, phases: L.Phases,
    block: Block, run: seq<WindowKey>)
  {
    var left := Surviving(s, phases);
    forall c :: PoolIn(pools', c)
      == AgedPool(SettledPool(QueuedPool(b, PoolIn(pools, c), c, block), c, run, Unmatured(left.pending, block.now)),
                  c, block, left.marks, L.InPhase(phases, c, L.Launched))
  }

  lemma BlockPoolsChain(
    b: L.Book, s: State, pools: map<ConsumerId, F.Pool>, moved: map<ConsumerId, F.Pool>,
    settled: map<ConsumerId, F.Pool>, pools': map<ConsumerId, F.Pool>, phases: L.Phases, block: Block,
    run: seq<WindowKey>)
    requires EmptiedAndRepaid(b, pools, moved, block)
    requires SettledAll(moved, settled, run, Unmatured(Surviving(s, phases).pending, block.now))
    requires AgedAll(settled, pools', block, Surviving(s, phases).marks, phases)
    ensures BlockPools(b, s, pools, pools', phases, block, run)
  {
    var left := Surviving(s, phases);
    forall c ensures PoolIn(pools', c)
      == AgedPool(SettledPool(QueuedPool(b, PoolIn(pools, c), c, block), c, run, Unmatured(left.pending, block.now)),
                  c, block, left.marks, L.InPhase(phases, c, L.Launched))
    {
      SettledAt(moved, settled, run, Unmatured(left.pending, block.now), c);
      assert EmptiedOrRepaid(b, PoolIn(pools, c), PoolIn(moved, c), c, block);
    }
  }

  lemma SettledAt(
    pools: map<ConsumerId, F.Pool>, pools': map<ConsumerId, F.Pool>, run: seq<WindowKey>,
    pending: map<WindowKey, Slash>, c: ConsumerId)
    requires SettledAll(pools, pools', run, pending)
    ensures PoolIn(pools', c) == SettledPool(PoolIn(pools, c), c, run, pending)
  {
  }

  lemma BlockSound(
    s: State, s': State, phases: L.Phases, b: Block, run: seq<WindowKey>, reverse: map<Pair, Address>,
    who: set<ConsumerId>)
    requires AW.Sound(AW.World(s, reverse)) && Inv(s') && Executes(s, s', phases, b, run)
    requires forall c :: c in who ==> L.InPhase(phases, c, L.Deleted)
    ensures AW.Sound(AW.World(s', K.Outside(reverse, who)))
  {
    AW.ErasedSound(AW.World(s, reverse), s', who);
  }

  /** Who is removed in a block is deleted at its end. */
  lemma RemovedStay(b: L.Book, lastAcks: map<ConsumerId, Time>, block: Block, phases': L.Phases)
    requires L.Good(b) && LifecyclesMoved(b, lastAcks, block, phases')
    ensures forall c :: c in DueToRemove(b, block.now) ==> L.InPhase(phases', c, L.Deleted)
  {
    L.TakenFromLine(b.removals, b.phases, L.Stopped, b.removalTimes, block.now, b.removing);
    forall c | c in DueToRemove(b, block.now) ensures L.InPhase(phases', c, L.Deleted) {
      assert L.InPhase(b.phases, c, L.Stopped);
      assert L.InPhase(AfterQueues(b, block), c, L.Deleted);
    }
  }

  lemma DeletedSound(s: State, s': State, reverse: map<Pair, Address>, c: ConsumerId)
    requires AW.Sound(AW.World(s, reverse)) && s' == Delete(s, c)
    ensures AW.Sound(AW.World(s', K.Outside(reverse, {c})))
  {
    DeleteKeeps(s, c);
    AW.ErasedSound(AW.World(s, reverse), s', {c});
  }

  lemma BlockExecutes(s: State, phases: L.Phases, b: Block, run: seq<WindowKey>, left: State, swept: State, s': State)
    requires left == Surviving(s, phases) && Runs(left, b.now, run) && swept == Sweep(left, b.now, run)
    requires forall k :: k in run <==> k in b.goesThrough && Executable(left, k, b.now)
    requires s' == AgedLedger(swept, b)
    ensures Executes(s, s', phases, b, run)
  {
    forall k
      ensures Executable(left, k, b.now) <==> Executable(s, k, b.now) && L.InPhase(phases, k.pair.consumer, L.Launched)
    {
    }
  }

  /** The consumers outside todo have been charged, if launched. */
  ghost predicate ChargedTo(
    pools: map<ConsumerId, F.Pool>, pools': map<ConsumerId, F.Pool>, b: Block, marks: set<Pair>, phases: L.Phases,
    todo: set<ConsumerId>)
  {
    forall c ::
      PoolIn(pools', c) == Charged(PoolIn(pools, c), c, b, marks, L.InPhase(phases, c, L.Launched) && c !in todo)
  }

  lemma ChargedNone(pools: map<ConsumerId, F.Pool>, b: Block, marks: set<Pair>, phases: L.Phases, todo: set<ConsumerId>)
    requires forall c :: L.InPhase(phases, c, L.Launched) ==> c in todo
    ensures ChargedTo(pools, pools, b, marks, phases, todo)
  {
  }

  lemma ChargedNobody(pools: map<ConsumerId, F.Pool>, b: Block, marks: set<Pair>, phases: L.Phases)
    requires b.bonded == []
    ensures ChargedTo(pools, pools, b, marks, phases, {})
  {
  }

  lemma ChargedNext(
    pools: map<ConsumerId, F.Pool>, pools': map<ConsumerId, F.Pool>, b: Block, marks: set<Pair>, phases: L.Phases,
    todo: set<ConsumerId>, c: ConsumerId, pools'': map<ConsumerId, F.Pool>)
    requires ChargedTo(pools, pools', b, marks, phases, todo) && c in todo && L.InPhase(phases, c, L.Launched)
    requires Changes(pools', pools'', c, Charged(PoolIn(pools', c), c, b, marks, true))
    ensures ChargedTo(pools, pools'', b, marks, phases, todo - {c})
  {
    assert PoolIn(pools', c) == PoolIn(pools, c);
  }

  /** Every pool has aged, and at the end of an epoch been charged. */
  ghost predicate AgedAll(
    pools: map<ConsumerId, F.Pool>, pools': map<ConsumerId, F.Pool>, b: Block, marks: set<Pair>, phases: L.Phases)
  {
    forall c :: PoolIn(pools', c) == AgedPool(PoolIn(pools, c), c, b, marks, L.InPhase(phases, c, L.Launched))
  }

  lemma AgedThenCharged(
    pools: map<ConsumerId, F.Pool>, aged: map<ConsumerId, F.Pool>, pools': map<ConsumerId, F.Pool>, b: Block,
    marks: set<Pair>, phases: L.Phases)
    requires ChangesEvery(pools, aged, Ages(b))
    requires if b.epochEnds then ChargedTo(aged, pools', b, marks, phases, {}) else pools' == aged
    ensures AgedAll(pools, pools', b, marks, phases)
  {
    forall c ensures PoolIn(pools', c) == AgedPool(PoolIn(pools, c), c, b, marks, L.InPhase(phases, c, L.Launched)) {
      assert PoolIn(aged, c) == Ages(b)(PoolIn(pools, c));
    }
  }

  lemma SweptConsistent(
    b: L.Book, s: State, s': State, pools: map<ConsumerId, F.Pool>, pools': map<ConsumerId, F.Pool>,
    run: seq<WindowKey>, now: Time)
    requires Consistent(b, s, pools, now) && Runs(s, now, run) && s' == Sweep(s, now, run)
    requires SettledAll(pools, pools', run, s'.pending)
    ensures Consistent(b, s', pools', now)
  {
    SweepConsistent(b, s, s', pools, run, now);
    FewerRecordsConsistent(b, s', pools, pools', now);
  }

  /** The removed consumers' pools are emptied and the frozen ones' records repaid; no other pool changes. */
  ghost predicate EmptiedAndRepaid(
    b: L.Book, pools: map<ConsumerId, F.Pool>, pools': map<ConsumerId, F.Pool>, block: Block)
  {
    forall c :: EmptiedOrRepaid(b, PoolIn(pools, c), PoolIn(pools', c), c, block)
  }

  ghost function Charged(p: F.Pool, c: ConsumerId, b: Block, marks: set<Pair>, launched: bool): F.Pool
  {
    if b.bonded == [] || !launched then p else
      FK.EveryoneCounted(b.bonded, c, marks);
      F.Distributed(p, FeeOf(b, c), FK.EligibleAccounts(b.bonded, c, marks), FK.ExcludedAddrs(b.bonded, c, marks),
                    c in b.feeSends, b.now, b.params.challengeWindow)
  }

  function FeeOf(b: Block, c: ConsumerId): int {
    if c in b.fees then b.fees[c] else 0
  }

  /** Every unexpired record of the pool was paid in full, whatever its clamp, and the escrow is empty. */
  ghost predicate RepaidInFull(
    p: F.Pool, p': F.Pool, accounts: map<Address, int>, accounts': map<Address, int>, payees: map<Address, Address>,
    sends: set<Address>, now: Time)
  {
    var owed := FK.Owed(p.records, payees, sends, now);
    && p' == Repaid(p, payees, sends, now)
    && forall x :: FK.AccountOf(accounts', x) == FK.AccountOf(accounts, x) + Sum(FK.OwedTo(owed, payees, x))
  }

  /** Repayment in full makes everyone whole. */
  lemma RepaidWhole(
    p: F.Pool, p': F.Pool, accounts: map<Address, int>, accounts': map<Address, int>, payees: map<Address, Address>,
    sends: set<Address>, now: Time)
    requires F.SoundRecords(p.records) && RepaidInFull(p, p', accounts, accounts', payees, sends, now)
    ensures FK.MadeWhole(p, p'.balance, accounts, accounts', payees, sends, now)
  {
    FK.OwedMakesWhole(p, p'.balance, accounts, accounts', payees, sends, now);
  }
}
