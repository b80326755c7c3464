/**
 * What the challenge window and the evidence age promise: how long a slash waits before it is executed, and how long
 * an accepted window is remembered, over every step of the provider while the parameters stay the same.
 */
module ChallengeWindow {
  import opened Common
  import opened Accusations
  import opened AccusationRuns
  import opened BlockSteps
  import opened Bitmaps
  import opened Wire
  import F = FeePool
  import L = Lifecycle
  import opened DowntimeLedger
  import opened Agreement

  /** Each pending slash falls due one challenge window after its window was accepted. */
  ghost predicate OnNotice(s: State, window: Time) {
    forall k :: k in s.pending ==> k in s.accepted && s.pending[k].maturesAt == s.accepted[k].at + window
  }

  /** Slashes wait a whole challenge window, and a floor stands only for windows that nothing acceptable can meet. */
  ghost predicate Timed(s: State, now: Time, params: InfractionParams) {
    OnNotice(s, params.challengeWindow) && Aged(s, now, params.challengeWindow + params.maxAge)
  }

  /** A step that keeps the promise, whatever the parameters are. */
  ghost predicate StaysTimed(s: State, s': State, now: Time) {
    forall params :: Timed(s, now, params) ==> Timed(s', now, params)
  }

  lemma TimedLater(s: State, now: Time, later: Time, params: InfractionParams)
    requires Timed(s, now, params) && now <= later
    ensures Timed(s, later, params)
  {
    AgedLater(s, now, later, params.challengeWindow + params.maxAge);
  }

  lemma InitiallyTimed(now: Time, params: InfractionParams)
    ensures Timed(EMPTY, now, params)
  {
  }

  // Acceptance.

  lemma AcceptTimed(s: State, e: Entry, slash: Slash, mark: Option<Pair>, now: Time, params: InfractionParams)
    requires Timed(s, now, params) && e.at == now && slash.maturesAt == now + params.challengeWindow
    ensures Timed(Accept(s, e, slash, mark), now, params)
  {
    AcceptAges(s, e, slash, mark, now, params.challengeWindow + params.maxAge);
  }

  lemma JudgedTimed(
    env: Surroundings, s: State, s': State, error: Option<EvidenceError>, c: ConsumerId, p: EvidencePacket, now: Time)
    requires Judged(env, s, c, p, now, error, s') && Timed(s, now, env.params)
    ensures Timed(s', now, env.params)
  {
    if error.None? {
      var mark := MarkTaken(env, s, c, p, now, s');
      AcceptTimed(s, EntryFor(env, c, p, now), SlashFor(env, c, p, now), mark, now, env.params);
    }
  }

  /** The consumer's parameters are acceptable and the packet reports more misses than they allow, of a member. */
  ghost predicate Charges(env: Surroundings, c: ConsumerId, p: EvidencePacket) {
    && Validate(p).None? && env.launched && env.acceptableParams && p.windowEnd >= env.minHeight
    && ValidDowntimeParams(p.params)
    && (p.params.window - |SetBits(p.missed, 0, p.Span())|) * ONE < p.params.minSigned.value * p.params.window
    && exists q :: HeldUnder(env, AccusedPair(env, c, p.validator), q)
  }

  /** The window ended at t: after the grace period, not too long ago, and recently enough to stay challengeable. */
  ghost predicate EndedInTime(env: Surroundings, t: Time, now: Time) {
    && (env.params.gracePeriod <= 0 || (env.spawnTime.Some? && t - env.spawnTime.value >= env.params.gracePeriod))
    && now - t <= env.params.maxAge
    && env.client.Some? && env.client.value.trustingPeriod.Some?
    && now + env.params.challengeWindow - t < env.client.value.trustingPeriod.value
  }

  /**
   * Evidence is accepted if and only if it charges a member, ended in time, can be priced, and its window shares no
   * height with any ever accepted for the pair, pruned or not - whatever time the window end is anchored to and
   * whatever the consumer's clock says consistently with that. Without such a time it is not accepted.
   */
  ghost predicate DecidedByHistory(
    env: Surroundings, s: State, c: ConsumerId, p: EvidencePacket, now: Time, accepted: bool)
  {
    var k := WindowKey(AccusedPair(env, c, p.validator), p.windowEnd);
    && (accepted ==> env.client.Some? && exists t :: Anchors(env.client.value.states, p.windowEnd, t))
    && (env.client.Some? ==>
          forall t, endTime ::
            Anchors(env.client.value.states, p.windowEnd, t) && ClockAgrees(env, s, k.pair, endTime) ==>
              (accepted <==>
                 && Charges(env, c, p) && EndedInTime(env, t, now) && env.price.Some?
                 && MeetsNone(s.history, Entry(k, p.windowStart, now))))
  }

  ghost predicate MeetsNone(es: seq<Entry>, e: Entry) {
    forall i :: 0 <= i < |es| && es[i].key.pair == e.key.pair ==> Apart(es[i], e)
  }

  lemma ChargesIsCredible(env: Surroundings, c: ConsumerId, p: EvidencePacket)
    ensures Credible(env, c, p) <==> Charges(env, c, p) && env.client.Some?
  {
    CountIsNumberOfSetBits(p.missed, 0, p.Span());
    var pair := AccusedPair(env, c, p.validator);
    var held := Pair(c, AccusedConsumerValidatorAddr(env, pair.addr));
    assert held.addr in env.validators <==> HeldUnder(env, pair, held);
    if Validate(p).None? {
      MaxMissedIsTheThreshold(p.params, p.MissedCount());
    }
  }

  lemma JudgedByHistory(
    env: Surroundings, s: State, s': State, error: Option<EvidenceError>, c: ConsumerId, p: EvidencePacket, now: Time)
    requires Inv(s) && c !in s.deleted && Timed(s, now, env.params)
    requires env.params.challengeWindow >= 0 && Judged(env, s, c, p, now, error, s')
    ensures DecidedByHistory(env, s, c, p, now, error.None?)
  {
    var e := EntryFor(env, c, p, now);
    ChargesIsCredible(env, c, p);
    if env.client.Some? {
      forall t, endTime |
        Anchors(env.client.value.states, p.windowEnd, t) && ClockAgrees(env, s, e.key.pair, endTime)
        ensures error.None? <==>
          Charges(env, c, p) && EndedInTime(env, t, now) && env.price.Some? && MeetsNone(s.history, e)
      {
        VerdictAt(env, s, c, p, now, t, endTime);
      }
    }
  }

  lemma VerdictAt(
    env: Surroundings, s: State, c: ConsumerId, p: EvidencePacket, now: Time, t: Time, endTime: int -> Time)
    requires Inv(s) && c !in s.deleted && Timed(s, now, env.params) && env.params.challengeWindow >= 0
    requires env.client.Some? && Anchors(env.client.value.states, p.windowEnd, t)
    requires ClockAgrees(env, s, EntryFor(env, c, p, now).key.pair, endTime)
    ensures Admissible(env, s, c, p, now) <==>
      && Credible(env, c, p) && EndedInTime(env, t, now) && env.price.Some?
      && MeetsNone(s.history, EntryFor(env, c, p, now))
  {
    if Credible(env, c, p) {
      if Timely(env, t, now) && env.price.Some? {
        DecidedByFullHistory(env, s, c, p, now, t, endTime);
      } else {
        NotAdmissible(env, s, c, p, now, t);
      }
    }
  }

  /** What the keeper concludes from a judgement. */
  lemma TimedVerdict(
    env: Surroundings, s: State, s': State, error: Option<EvidenceError>, c: ConsumerId, p: EvidencePacket, now: Time)
    requires Inv(s) && c !in s.deleted && Judged(env, s, c, p, now, error, s')
    ensures Timed(s, now, env.params) ==> Timed(s', now, env.params)
    ensures Timed(s, now, env.params) && env.params.challengeWindow >= 0 ==>
      DecidedByHistory(env, s, c, p, now, error.None?)
  {
    if Timed(s, now, env.params) {
      JudgedTimed(env, s, s', error, c, p, now);
      if env.params.challengeWindow >= 0 {
        JudgedByHistory(env, s, s', error, c, p, now);
      }
    }
  }

  lemma NotAdmissible(env: Surroundings, s: State, c: ConsumerId, p: EvidencePacket, now: Time, t: Time)
    requires Credible(env, c, p) && Anchors(env.client.value.states, p.windowEnd, t)
    requires !Timely(env, t, now) || env.price.None?
    ensures !Admissible(env, s, c, p, now)
  {
    if u :| Anchors(env.client.value.states, p.windowEnd, u) && Timely(env, u, now) {
      AnchorUnique(env.client.value.states, p.windowEnd, t, u);
    }
  }

  // Cancellation and deletion.

  lemma CancelTimed(s: State, c: ConsumerId, now: Time)
    ensures StaysTimed(s, Cancel(s, c), now)
  {
  }

  lemma DeleteTimed(s: State, c: ConsumerId, now: Time)
    ensures StaysTimed(s, Delete(s, c), now)
  {
    forall params | Timed(s, now, params) ensures Timed(Delete(s, c), now, params) {
      DeleteAges(s, c, now, params.challengeWindow + params.maxAge);
    }
  }

  // Rotation.

  lemma RenameOnNotice(s: State, p: Pair, q: Pair, window: Time)
    requires OnNotice(s, window) && Renames(s, p, q)
    ensures OnNotice(Rename(s, p, q), window)
  {
    var s' := Rename(s, p, q);
    forall k | k in s'.pending
      ensures k in s'.accepted && s'.pending[k].maturesAt == s'.accepted[k].at + window
    {
      RenamedAt(s, p, q, k);
    }
  }

  lemma RotateOneTimed(
    s: State, c: ConsumerId, hasKey: bool, oldAddr: Address, newAddr: Address, now: Time, params: InfractionParams)
    requires Timed(s, now, params)
    ensures Timed(RotateOne(s, c, hasKey, oldAddr, newAddr), now, params)
  {
    var p, q := Pair(c, oldAddr), Pair(c, newAddr);
    if hasKey && Renames(s, p, q) {
      RenameOnNotice(s, p, q, params.challengeWindow);
      RenameAges(s, p, q, now, params.challengeWindow + params.maxAge);
    }
  }

  lemma {:induction false} RotationTimed(
    s: State, ids: seq<ConsumerId>, keyed: set<ConsumerId>, oldAddr: Address, newAddr: Address, now: Time)
    ensures StaysTimed(s, RotateAll(s, ids, keyed, oldAddr, newAddr), now)
    decreases |ids|
  {
    if ids != [] {
      var init, c := ids[..|ids| - 1], ids[|ids| - 1];
      RotationTimed(s, init, keyed, oldAddr, newAddr, now);
      forall params | Timed(s, now, params)
        ensures Timed(RotateAll(s, ids, keyed, oldAddr, newAddr), now, params)
      {
        RotateOneTimed(RotateAll(s, init, keyed, oldAddr, newAddr), c, c in keyed, oldAddr, newAddr, now, params);
      }
    }
  }

  // Execution and pruning.

  /**
   * What a sweep at now makes of the pending slashes, those of consumers launched by phases: what is executed was
   * accepted at least a window ago; of those that old none is left pending; the younger ones all are.
   */
  ghost predicate NoticeServed(
    s: State, s': State, phases: L.Phases, goesThrough: set<WindowKey>, run: seq<WindowKey>, now: Time, window: Time)
  {
    && (forall k :: k in run <==>
          && k in s.pending && k in s.accepted && now - s.accepted[k].at >= window
          && s.pending[k].tokens > 0 && k in goesThrough && L.InPhase(phases, k.pair.consumer, L.Launched))
    && (forall k :: k in s'.pending <==>
          && k in s.pending && k in s.accepted && now - s.accepted[k].at < window
          && L.InPhase(phases, k.pair.consumer, L.Launched))
    && (forall k :: k in s'.pending ==> s'.pending[k] == s.pending[k])
    && ExecutedAfter(s, s', run)
  }

  /** The executed windows joined the log, in order. */
  ghost predicate ExecutedAfter(s: State, s': State, run: seq<WindowKey>) {
    && |s'.executed| == |s.executed| + |run| && s'.executed[..|s.executed|] == s.executed
    && forall i :: 0 <= i < |run| ==> s'.executed[|s.executed| + i].key == run[i]
  }

  lemma SweepOnNotice(s: State, now: Time, run: seq<WindowKey>, window: Time)
    requires OnNotice(s, window) && Runs(s, now, run)
    ensures OnNotice(Sweep(s, now, run), window)
  {
  }

  lemma SweepServes(
    s: State, s': State, phases: L.Phases, goesThrough: set<WindowKey>, run: seq<WindowKey>, now: Time, window: Time)
    requires OnNotice(s, window) && Runs(s, now, run) && s' == Sweep(s, now, run)
    requires forall k :: k in run <==> k in goesThrough && Executable(s, k, now)
    requires forall k :: k in s.pending ==> L.InPhase(phases, k.pair.consumer, L.Launched)
    ensures NoticeServed(s, s', phases, goesThrough, run, now, window)
  {
  }

  lemma SweptTimed(
    s: State, s': State, phases: L.Phases, goesThrough: set<WindowKey>, run: seq<WindowKey>, now: Time,
    params: InfractionParams)
    requires Timed(s, now, params) && Runs(s, now, run) && s' == Sweep(s, now, run)
    requires forall k :: k in run <==> k in goesThrough && Executable(s, k, now)
    requires forall k :: k in s.pending ==> L.InPhase(phases, k.pair.consumer, L.Launched)
    ensures Timed(s', now, params)
    ensures NoticeServed(s, s', phases, goesThrough, run, now, params.challengeWindow)
  {
    SweepOnNotice(s, now, run, params.challengeWindow);
    SweepServes(s, s', phases, goesThrough, run, now, params.challengeWindow);
  }

  /** The same for the keeper, whose pending slashes are all of launched consumers. */
  lemma AllSweptTimed(
    b: L.Book, s: State, pools: map<ConsumerId, F.Pool>, s': State, goesThrough: set<WindowKey>, run: seq<WindowKey>,
    now: Time)
    requires Consistent(b, s, pools, now) && Runs(s, now, run) && s' == Sweep(s, now, run)
    requires forall k :: k in run <==> k in goesThrough && Executable(s, k, now)
    ensures forall params :: Timed(s, now, params) ==>
      Timed(s', now, params) && NoticeServed(s, s', b.phases, goesThrough, run, now, params.challengeWindow)
  {
    forall params | Timed(s, now, params)
      ensures Timed(s', now, params) && NoticeServed(s, s', b.phases, goesThrough, run, now, params.challengeWindow)
    {
      SweptTimed(s, s', b.phases, goesThrough, run, now, params);
    }
  }

  lemma PruneOnNotice(s: State, now: Time, horizon: Time, window: Time)
    requires OnNotice(s, window)
    ensures OnNotice(Prune(s, now, horizon), window)
  {
    forall k | k in s.pending ensures k !in PrunedKeys(s, now, horizon) {
      if k in s.accepted {
        assert !Prunable(s, k, now, horizon);
      }
    }
  }

  lemma PruneTimed(s: State, s': State, now: Time, horizon: Time, params: InfractionParams)
    requires Logged(s) && Timed(s, now, params) && horizon == params.challengeWindow + params.maxAge
    requires s' == Prune(s, now, horizon)
    ensures Timed(s', now, params)
  {
    PruneOnNotice(s, now, horizon, params.challengeWindow);
    PruneAges(s, now, horizon);
  }

  /** The lowest window retained for a pair is recent or its slash is still pending. */
  ghost predicate NothingStale(s: State, now: Time, horizon: Time) {
    forall k :: k in s.accepted && LowestOf(s.accepted.Keys, k) ==> now - s.accepted[k].at <= horizon || k in s.pending
  }

  lemma StaleIsPruned(s: State, s': State, now: Time, horizon: Time, k: WindowKey)
    requires s' == Prune(s, now, horizon) && k in s'.accepted && LowestOf(s'.accepted.Keys, k)
    ensures !Prunable(s, k, now, horizon)
  {
    if Prunable(s, k, now, horizon) {
      forall j | j in s.accepted && j.pair == k.pair && j.end <= k.end ensures Prunable(s, j, now, horizon) {
        if j != k {
          assert j !in s'.accepted;
        }
      }
      assert Pruned(s, k, now, horizon);
    }
  }

  lemma PruneLeavesNothingStale(s: State, s': State, now: Time, horizon: Time)
    requires s' == Prune(s, now, horizon)
    ensures NothingStale(s', now, horizon)
  {
    forall k | k in s'.accepted && LowestOf(s'.accepted.Keys, k)
      ensures now - s'.accepted[k].at <= horizon || k in s'.pending
    {
      StaleIsPruned(s, s', now, horizon, k);
    }
  }

  // One block.

  lemma SurvivingTimed(s: State, left: State, phases: L.Phases, now: Time, params: InfractionParams)
    requires Logged(s) && Timed(s, now, params) && left == Surviving(s, phases)
    ensures Logged(left) && Timed(left, now, params)
  {
    var horizon := params.challengeWindow + params.maxAge;
    forall p | p in left.floors
      ensures exists i :: 0 <= i < |left.history| && Leaves(left.history[i], p, left.floors[p], now, horizon)
    {
      assert p in s.floors && left.floors[p] == s.floors[p];
    }
    forall k | k in left.accepted ensures left.accepted[k].start <= k.end && EntryAt(left, k) in left.history {
      assert EntryAt(s, k) in s.history;
    }
  }

  /** Slashes wait, windows are remembered long enough, and no longer. */
  lemma BlockTimed(
    s: State, left: State, swept: State, s': State, phases: L.Phases, b: Block, run: seq<WindowKey>, last: Time)
    requires Logged(s) && Timed(s, last, b.params) && last <= b.now && left == Surviving(s, phases)
    requires Runs(left, b.now, run) && swept == Sweep(left, b.now, run) && s' == AgedLedger(swept, b)
    requires forall k :: k in run <==> k in b.goesThrough && Executable(left, k, b.now)
    ensures Timed(s', b.now, b.params)
    ensures NoticeServed(s, s', phases, b.goesThrough, run, b.now, b.params.challengeWindow)
  {
    TimedLater(s, last, b.now, b.params);
    SurvivingTimed(s, left, phases, b.now, b.params);
    SweptTimed(left, swept, phases, b.goesThrough, run, b.now, b.params);
    AgedLedgerTimed(swept, s', b);
    ServedThroughout(s, left, swept, s', phases, b, run);
  }

  lemma AgedLedgerTimed(s: State, s': State, b: Block)
    requires Logged(s) && Timed(s, b.now, b.params) && s' == AgedLedger(s, b)
    ensures Timed(s', b.now, b.params) && s'.pending == s.pending && s'.executed == s.executed
  {
    PruneTimed(s, Prune(s, b.now, Horizon(b)), b.now, Horizon(b), b.params);
  }

  /** Neither the cancellations before the sweep nor the prunings after it change what the sweep serves. */
  lemma ServedThroughout(
    s: State, left: State, swept: State, s': State, phases: L.Phases, b: Block, run: seq<WindowKey>)
    requires OnNotice(s, b.params.challengeWindow) && left == Surviving(s, phases)
    requires NoticeServed(left, swept, phases, b.goesThrough, run, b.now, b.params.challengeWindow)
    requires s'.pending == swept.pending && s'.executed == swept.executed
    ensures NoticeServed(s, s', phases, b.goesThrough, run, b.now, b.params.challengeWindow)
  {
  }

  lemma BlockLeavesNothingStale(swept: State, s': State, b: Block)
    requires s' == AgedLedger(swept, b)
    ensures NothingStale(s', b.now, b.params.challengeWindow + b.params.maxAge)
  {
    PruneLeavesNothingStale(swept, Prune(swept, b.now, Horizon(b)), b.now, Horizon(b));
  }
}
