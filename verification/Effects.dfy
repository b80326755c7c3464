/**
 * What the keeper's steps mean for one consumer, one validator's record and one pool, read off the state before and
 * after without reference to how the steps are put together.
 */
module Effects {
  import opened Common
  import opened Accusations
  import opened BlockSteps
  import F = FeePool
  import FK = FeeKeeper
  import L = Lifecycle
  import K = KeyAssignment
  import Q = TimeQueue
  import opened DowntimeLedger
  import opened Agreement
  import opened ChallengeWindow

  // Queues that are not crowded are emptied of everything due.

  lemma {:induction false} SomethingQueued(q: Q.Buckets, t: Time)
    requires t in q && q[t] != []
    ensures Q.Flatten(q) != []
    decreases |q|
  {
    var least := Q.Ordering.Least(q.Keys);
    if least != t {
      SomethingQueued(q - {least}, t);
    }
  }

  /** Whose time has come. */
  ghost function DueBy(times: map<ConsumerId, Time>, now: Time): set<ConsumerId> {
    set c | c in times && times[c] <= now
  }

  lemma AllTaken(q: Q.Buckets, times: map<ConsumerId, Time>, now: Time, limit: nat)
    requires Q.Exact(q, times)
    ensures var taken := Q.Ids(Q.Take(q, now, limit).ids);
            taken <= DueBy(times, now) && (|DueBy(times, now)| <= limit ==> taken == DueBy(times, now))
  {
    var r, due := Q.Take(q, now, limit), DueBy(times, now);
    Q.TakeKeepsExact(q, now, limit, times);
    Q.TakesTheFirstDue(q, now, limit);
    forall c | c in due && c !in Q.Ids(r.ids) ensures |due| > limit {
      assert c in times - Q.Ids(r.ids) && (times - Q.Ids(r.ids))[c] == times[c];
      SomethingQueued(Q.Due(r.rest, now), times[c]);
      DistinctIds(r.ids);
      MoreThan(Q.Ids(r.ids), due, c);
    }
  }

  lemma {:induction false} DistinctIds(ids: seq<ConsumerId>)
    requires Q.Unique(ids)
    ensures |Q.Ids(ids)| == |ids|
    decreases |ids|
  {
    if ids != [] {
      var init, c := ids[..|ids| - 1], ids[|ids| - 1];
      DistinctIds(init);
      assert ids == init + [c];
      assert Q.Ids(ids) == Q.Ids(init) + {c};
    }
  }

  lemma MoreThan(some: set<ConsumerId>, all: set<ConsumerId>, c: ConsumerId)
    requires some <= all && c in all && c !in some
    ensures |all| > |some|
  {
    assert all == some + (all - some);
    assert c in all - some;
  }

  // What becomes of a consumer in a block.

  /** c waits in phase p for a time that has not come, or among more consumers than a block takes. */
  ghost predicate LeftWaiting(phases: L.Phases, p: L.Phase, times: map<ConsumerId, Time>, c: ConsumerId, now: Time) {
    && c in times
    && (times[c] > now || |set d | d in phases && phases[d] == p && d in times && times[d] <= now| > L.QUEUE_LIMIT)
  }

  ghost predicate TimeHasCome(times: map<ConsumerId, Time>, c: ConsumerId, now: Time) {
    c in times && times[c] <= now
  }

  /** The phase a consumer ends the block in, by the phase it begins it in, its own times and what the block brings. */
  ghost predicate Fate(b: L.Book, acks: map<ConsumerId, Time>, block: Block, c: ConsumerId, next: L.Phase)
    requires c in b.phases
  {
    match b.phases[c]
    case Registered => next == L.Registered
    case Initialized =>
      if next == L.Initialized then LeftWaiting(b.phases, L.Initialized, b.spawnTimes, c, block.now)
      else
        && TimeHasCome(b.spawnTimes, c, block.now)
        && next == if c !in block.launchable then L.Registered else if c in block.frozen then L.Paused else L.Launched
    case Launched =>
      next == if c in block.frozen then L.Paused
              else if c in acks && block.now - acks[c] > block.grace then L.Stopped else L.Launched
    case Paused =>
      if next == L.Paused then LeftWaiting(b.phases, L.Paused, b.pauseExpirations, c, block.now)
      else next == L.Stopped && TimeHasCome(b.pauseExpirations, c, block.now)
    case Stopped =>
      if next == L.Stopped then LeftWaiting(b.phases, L.Stopped, b.removalTimes, c, block.now)
      else next == L.Deleted && TimeHasCome(b.removalTimes, c, block.now)
    case Deleted => next == L.Deleted
  }

  ghost predicate Fates(b: L.Book, acks: map<ConsumerId, Time>, block: Block, phases': L.Phases) {
    phases'.Keys == b.phases.Keys && forall c :: c in b.phases ==> Fate(b, acks, block, c, phases'[c])
  }

  /** The ids a block takes off a queue are due, and all of those due unless they are too many. */
  lemma TakenOrWaiting(
    q: Q.Buckets, phases: L.Phases, p: L.Phase, times: map<ConsumerId, Time>, now: Time, c: ConsumerId)
    requires L.Lined(q, phases, p, times, {})
    ensures var taken := Q.Ids(Q.Take(q, now, L.QUEUE_LIMIT).ids);
            && (c in taken ==> L.InPhase(phases, c, p) && TimeHasCome(times, c, now))
            && (L.InPhase(phases, c, p) && c in times && c !in taken ==> LeftWaiting(phases, p, times, c, now))
  {
    var waiting := L.Waiting(phases, p, times, {});
    AllTaken(q, waiting, now, L.QUEUE_LIMIT);
    assert DueBy(waiting, now) == set d | d in phases && phases[d] == p && d in times && times[d] <= now;
  }

  lemma AfterQueuesAt(b: L.Book, block: Block, c: ConsumerId)
    requires c in b.phases
    ensures var due := c in DueToLaunch(b, block.now);
            c in AfterQueues(b, block) && AfterQueues(b, block)[c] ==
              if c in DueToRemove(b, block.now) then L.Deleted
              else if due && c !in block.launchable then L.Registered
              else if due then L.Launched else b.phases[c]
  {
  }

  lemma AfterLivenessAt(b: L.Book, acks: map<ConsumerId, Time>, block: Block, c: ConsumerId)
    requires c in AfterQueues(b, block)
    ensures var p := AfterQueues(b, block)[c];
            c in AfterLiveness(b, acks, block) && AfterLiveness(b, acks, block)[c] ==
              if p != L.Launched then p else if c in block.frozen then L.Paused
              else if block.now - LastAck(AcksAfterQueues(b, acks, block), c, block.now) > block.grace then L.Stopped
              else L.Launched
  {
  }

  lemma AckAfterQueues(b: L.Book, acks: map<ConsumerId, Time>, block: Block, c: ConsumerId)
    requires c !in DueToRemove(b, block.now)
    ensures LastAck(AcksAfterQueues(b, acks, block), c, block.now)
         == if c in DueToLaunch(b, block.now) * block.launchable then block.now else LastAck(acks, c, block.now)
  {
  }

  lemma EndsAs(b: L.Book, acks: map<ConsumerId, Time>, block: Block, phases': L.Phases, c: ConsumerId)
    requires LifecyclesMoved(b, acks, block, phases') && block.grace >= 0 && c in b.phases
    ensures c in phases'
    ensures c in DueToStop(b, block.now) ==> phases'[c] == L.Stopped
    ensures c !in DueToStop(b, block.now) && c in DueToRemove(b, block.now) ==> phases'[c] == L.Deleted
    ensures c !in DueToStop(b, block.now) && c !in DueToRemove(b, block.now) ==>
      var due := c in DueToLaunch(b, block.now);
      var p := if due then (if c in block.launchable then L.Launched else L.Registered) else b.phases[c];
      var silent := !due && block.now - LastAck(acks, c, block.now) > block.grace;
      phases'[c] == if p != L.Launched then p else if c in block.frozen then L.Paused
                    else if silent then L.Stopped else L.Launched
  {
    AfterQueuesAt(b, block, c);
    AfterLivenessAt(b, acks, block, c);
    if c !in DueToRemove(b, block.now) {
      AckAfterQueues(b, acks, block, c);
    }
  }

  lemma FateOf(b: L.Book, acks: map<ConsumerId, Time>, block: Block, phases': L.Phases, c: ConsumerId)
    requires L.Good(b) && L.Idle(b) && LifecyclesMoved(b, acks, block, phases') && block.grace >= 0 && c in b.phases
    ensures c in phases' && Fate(b, acks, block, c, phases'[c])
  {
    EndsAs(b, acks, block, phases', c);
    TakenOrWaiting(b.launches, b.phases, L.Initialized, b.spawnTimes, block.now, c);
    TakenOrWaiting(b.removals, b.phases, L.Stopped, b.removalTimes, block.now, c);
    TakenOrWaiting(b.autoStops, b.phases, L.Paused, b.pauseExpirations, block.now, c);
  }

  lemma SameConsumers(b: L.Book, acks: map<ConsumerId, Time>, block: Block, phases': L.Phases)
    requires LifecyclesMoved(b, acks, block, phases')
    ensures phases'.Keys == b.phases.Keys
  {
  }

  lemma FatesDecided(b: L.Book, acks: map<ConsumerId, Time>, block: Block, phases': L.Phases)
    requires L.Good(b) && L.Idle(b) && LifecyclesMoved(b, acks, block, phases') && block.grace >= 0
    ensures Fates(b, acks, block, phases')
  {
    SameConsumers(b, acks, block, phases');
    forall c | c in b.phases ensures c in phases' && Fate(b, acks, block, c, phases'[c]) {
      FateOf(b, acks, block, phases', c);
    }
  }

  /** The clocks of silence: started by a launch, dropped by a removal, and otherwise left alone. */
  ghost predicate AcksAfter(
    acks: map<ConsumerId, Time>, acks': map<ConsumerId, Time>, phases: L.Phases, phases': L.Phases, now: Time)
  {
    forall c ::
      if L.InPhase(phases, c, L.Stopped) && L.InPhase(phases', c, L.Deleted) then c !in acks'
      else if L.InPhase(phases, c, L.Initialized)
              && (L.InPhase(phases', c, L.Launched) || L.InPhase(phases', c, L.Paused))
      then c in acks' && acks'[c] == now
      else (c in acks' <==> c in acks) && (c in acks' ==> acks'[c] == acks[c])
  }

  lemma AcksAfterBlock(
    b: L.Book, acks: map<ConsumerId, Time>, acks': map<ConsumerId, Time>, block: Block, phases': L.Phases)
    requires L.Good(b) && L.Idle(b) && LifecyclesMoved(b, acks, block, phases') && block.grace >= 0
    requires acks' == AcksAfterQueues(b, acks, block)
    ensures AcksAfter(acks, acks', b.phases, phases', block.now)
  {
    SameConsumers(b, acks, block, phases');
    forall c
      ensures if L.InPhase(b.phases, c, L.Stopped) && L.InPhase(phases', c, L.Deleted) then c !in acks'
              else if L.InPhase(b.phases, c, L.Initialized)
                      && (L.InPhase(phases', c, L.Launched) || L.InPhase(phases', c, L.Paused))
              then c in acks' && acks'[c] == block.now
              else (c in acks' <==> c in acks) && (c in acks' ==> acks'[c] == acks[c])
    {
      AckAt(b, acks, acks', block, phases', c);
    }
  }

  lemma AckAt(
    b: L.Book, acks: map<ConsumerId, Time>, acks': map<ConsumerId, Time>, block: Block, phases': L.Phases,
    c: ConsumerId)
    requires L.Good(b) && L.Idle(b) && LifecyclesMoved(b, acks, block, phases') && block.grace >= 0
    requires acks' == AcksAfterQueues(b, acks, block)
    ensures
      var removed := L.InPhase(b.phases, c, L.Stopped) && L.InPhase(phases', c, L.Deleted);
      var launched := L.InPhase(b.phases, c, L.Initialized)
                      && (L.InPhase(phases', c, L.Launched) || L.InPhase(phases', c, L.Paused));
      if removed then c !in acks' else if launched then c in acks' && acks'[c] == block.now
      else (c in acks' <==> c in acks) && (c in acks' ==> acks'[c] == acks[c])
  {
    TakenOrWaiting(b.launches, b.phases, L.Initialized, b.spawnTimes, block.now, c);
    TakenOrWaiting(b.removals, b.phases, L.Stopped, b.removalTimes, block.now, c);
    TakenOrWaiting(b.autoStops, b.phases, L.Paused, b.pauseExpirations, block.now, c);
    if c in b.phases {
      EndsAs(b, acks, block, phases', c);
    }
  }

  // When waiting ends.

  /**
   * Whoever is stopped, paused or planned for launch after a block: since before it, with the times it had; or since
   * the block, to be removed an unbonding period later, or stopped when the pause limit is over.
   */
  ghost predicate Timeline(b: L.Book, b': L.Book, now: Time, removalTime: Time, maxPause: Time) {
    forall c ::
      && (L.InPhase(b'.phases, c, L.Stopped) ==>
            c in b'.removalTimes
            && if L.InPhase(b.phases, c, L.Stopped) then SameTime(b.removalTimes, b'.removalTimes, c)
               else b'.removalTimes[c] == removalTime)
      && (L.InPhase(b'.phases, c, L.Paused) ==>
            c in b'.pauseExpirations && c in b'.pausedAt
            && if L.InPhase(b.phases, c, L.Paused) then
                 SameTime(b.pauseExpirations, b'.pauseExpirations, c) && SameTime(b.pausedAt, b'.pausedAt, c)
               else b'.pausedAt[c] == now && b'.pauseExpirations[c] == now + maxPause)
      && (L.InPhase(b'.phases, c, L.Initialized) ==>
            L.InPhase(b.phases, c, L.Initialized) && SameTime(b.spawnTimes, b'.spawnTimes, c))
  }

  ghost predicate SameTime(times: map<ConsumerId, Time>, times': map<ConsumerId, Time>, c: ConsumerId) {
    c in times && c in times' && times'[c] == times[c]
  }

  /** Which consumers the lifecycle steps of a block moved. */
  datatype Moves = Moves(
    up: set<ConsumerId>,
    down: set<ConsumerId>,
    gone: set<ConsumerId>,
    frozen: set<ConsumerId>,
    silent: set<ConsumerId>,
    expired: set<ConsumerId>)

  /** The five lifecycle steps of a block, one after the other. */
  ghost predicate Stages(
    b0: L.Book, b1: L.Book, b2: L.Book, b3: L.Book, b4: L.Book, b5: L.Book, m: Moves, now: Time, removalTime: Time,
    maxPause: Time)
  {
    && Launches(b0, b1, m.up, m.down) && Removes(b1, b2, m.gone)
    && Pauses(b2, b3, m.frozen, L.LightClientAttack, now, maxPause)
    && Stops(b3, b4, m.silent, removalTime) && Stops(b4, b5, m.expired, removalTime)
  }

  /** Each step moves consumers out of the phase it is about. */
  ghost predicate StagesApply(b0: L.Book, b2: L.Book, b3: L.Book, b4: L.Book, m: Moves) {
    && (forall c :: c in m.up || c in m.down ==> L.InPhase(b0.phases, c, L.Initialized))
    && (forall c :: c in m.frozen ==> L.InPhase(b2.phases, c, L.Launched))
    && (forall c :: c in m.silent ==> L.InPhase(b3.phases, c, L.Launched))
    && (forall c :: c in m.expired ==> L.InPhase(b4.phases, c, L.Paused))
  }

  /** Where a consumer stands before the stops of a block. */
  lemma BeforeStops(
    b0: L.Book, b1: L.Book, b2: L.Book, b3: L.Book, m: Moves, now: Time, maxPause: Time, c: ConsumerId)
    requires Launches(b0, b1, m.up, m.down) && Removes(b1, b2, m.gone)
    requires Pauses(b2, b3, m.frozen, L.LightClientAttack, now, maxPause) && L.Recorded(b0)
    requires c in m.up || c in m.down ==> L.InPhase(b0.phases, c, L.Initialized)
    requires c in m.frozen ==> L.InPhase(b2.phases, c, L.Launched)
    ensures L.InPhase(b3.phases, c, L.Stopped) ==>
      L.InPhase(b0.phases, c, L.Stopped) && SameTime(b0.removalTimes, b3.removalTimes, c)
    ensures L.InPhase(b3.phases, c, L.Launched) || L.InPhase(b3.phases, c, L.Paused) ==>
      !L.InPhase(b0.phases, c, L.Stopped)
    ensures L.InPhase(b3.phases, c, L.Paused) ==>
      c in b3.pauseExpirations && c in b3.pausedAt
      && if L.InPhase(b0.phases, c, L.Paused) then
           SameTime(b0.pauseExpirations, b3.pauseExpirations, c) && SameTime(b0.pausedAt, b3.pausedAt, c)
         else b3.pausedAt[c] == now && b3.pauseExpirations[c] == now + maxPause
  {
    if L.InPhase(b3.phases, c, L.Paused) {
      PausedBeforeStops(b0, b1, b2, b3, m, now, maxPause, c);
    }
  }

  lemma PausedBeforeStops(
    b0: L.Book, b1: L.Book, b2: L.Book, b3: L.Book, m: Moves, now: Time, maxPause: Time, c: ConsumerId)
    requires Launches(b0, b1, m.up, m.down) && Removes(b1, b2, m.gone)
    requires Pauses(b2, b3, m.frozen, L.LightClientAttack, now, maxPause) && L.Recorded(b0)
    requires c in m.up || c in m.down ==> L.InPhase(b0.phases, c, L.Initialized)
    requires c in m.frozen ==> L.InPhase(b2.phases, c, L.Launched)
    requires L.InPhase(b3.phases, c, L.Paused)
    ensures c in b3.pauseExpirations && c in b3.pausedAt
    ensures if L.InPhase(b0.phases, c, L.Paused) then
              SameTime(b0.pauseExpirations, b3.pauseExpirations, c) && SameTime(b0.pausedAt, b3.pausedAt, c)
            else b3.pausedAt[c] == now && b3.pauseExpirations[c] == now + maxPause
  {
  }

  lemma StoppedSince(
    b0: L.Book, b1: L.Book, b2: L.Book, b3: L.Book, b4: L.Book, b5: L.Book, m: Moves, now: Time, removalTime: Time,
    maxPause: Time, c: ConsumerId)
    requires Stages(b0, b1, b2, b3, b4, b5, m, now, removalTime, maxPause) && StagesApply(b0, b2, b3, b4, m)
    requires L.Recorded(b0) && L.InPhase(b5.phases, c, L.Stopped)
    ensures c in b5.removalTimes
    ensures if L.InPhase(b0.phases, c, L.Stopped) then SameTime(b0.removalTimes, b5.removalTimes, c)
            else b5.removalTimes[c] == removalTime
  {
    BeforeStops(b0, b1, b2, b3, m, now, maxPause, c);
  }

  lemma PausedSince(
    b0: L.Book, b1: L.Book, b2: L.Book, b3: L.Book, b4: L.Book, b5: L.Book, m: Moves, now: Time, removalTime: Time,
    maxPause: Time, c: ConsumerId)
    requires Stages(b0, b1, b2, b3, b4, b5, m, now, removalTime, maxPause) && StagesApply(b0, b2, b3, b4, m)
    requires L.Recorded(b0) && L.InPhase(b5.phases, c, L.Paused)
    ensures c in b5.pauseExpirations && c in b5.pausedAt
    ensures if L.InPhase(b0.phases, c, L.Paused) then
              SameTime(b0.pauseExpirations, b5.pauseExpirations, c) && SameTime(b0.pausedAt, b5.pausedAt, c)
            else b5.pausedAt[c] == now && b5.pauseExpirations[c] == now + maxPause
  {
    BeforeStops(b0, b1, b2, b3, m, now, maxPause, c);
  }

  lemma PlannedSince(
    b0: L.Book, b1: L.Book, b2: L.Book, b3: L.Book, b4: L.Book, b5: L.Book, m: Moves, now: Time, removalTime: Time,
    maxPause: Time, c: ConsumerId)
    requires Stages(b0, b1, b2, b3, b4, b5, m, now, removalTime, maxPause)
    requires L.Recorded(b0) && L.InPhase(b5.phases, c, L.Initialized)
    ensures L.InPhase(b0.phases, c, L.Initialized) && SameTime(b0.spawnTimes, b5.spawnTimes, c)
  {
  }

  lemma StagesTimeline(
    b0: L.Book, b1: L.Book, b2: L.Book, b3: L.Book, b4: L.Book, b5: L.Book, m: Moves, now: Time, removalTime: Time,
    maxPause: Time)
    requires Stages(b0, b1, b2, b3, b4, b5, m, now, removalTime, maxPause) && StagesApply(b0, b2, b3, b4, m)
    requires L.Recorded(b0)
    ensures Timeline(b0, b5, now, removalTime, maxPause)
  {
    forall c | L.InPhase(b5.phases, c, L.Stopped)
      ensures c in b5.removalTimes
              && if L.InPhase(b0.phases, c, L.Stopped) then SameTime(b0.removalTimes, b5.removalTimes, c)
                 else b5.removalTimes[c] == removalTime
    {
      StoppedSince(b0, b1, b2, b3, b4, b5, m, now, removalTime, maxPause, c);
    }
    forall c | L.InPhase(b5.phases, c, L.Paused)
      ensures c in b5.pauseExpirations && c in b5.pausedAt
              && if L.InPhase(b0.phases, c, L.Paused) then
                   SameTime(b0.pauseExpirations, b5.pauseExpirations, c) && SameTime(b0.pausedAt, b5.pausedAt, c)
                 else b5.pausedAt[c] == now && b5.pauseExpirations[c] == now + maxPause
    {
      PausedSince(b0, b1, b2, b3, b4, b5, m, now, removalTime, maxPause, c);
    }
    forall c | L.InPhase(b5.phases, c, L.Initialized)
      ensures L.InPhase(b0.phases, c, L.Initialized) && SameTime(b0.spawnTimes, b5.spawnTimes, c)
    {
      PlannedSince(b0, b1, b2, b3, b4, b5, m, now, removalTime, maxPause, c);
    }
  }

  /** The consumers moved in a block, as its steps find them. */
  ghost function MovesOf(b0: L.Book, b1: L.Book, b2: L.Book, b3: L.Book, b4: L.Book, acks: map<ConsumerId, Time>,
                         block: Block): Moves
  {
    var due := DueToLaunch(b0, block.now);
    Moves(due * block.launchable, due - block.launchable, DueToRemove(b1, block.now), FrozenIn(b2.phases, block),
          Silent(b3.phases, acks, block.now, block.grace), DueToStop(b4, block.now))
  }

  lemma StagesOfBlockApply(
    b0: L.Book, b1: L.Book, b2: L.Book, b3: L.Book, b4: L.Book, acks: map<ConsumerId, Time>, block: Block, m: Moves)
    requires L.Good(b0) && L.Idle(b0) && AllExpired(b4, block.now, DueToStop(b4, block.now))
    requires m == MovesOf(b0, b1, b2, b3, b4, acks, block)
    ensures StagesApply(b0, b2, b3, b4, m)
  {
    forall c | c in DueToLaunch(b0, block.now) ensures L.InPhase(b0.phases, c, L.Initialized) {
      TakenOrWaiting(b0.launches, b0.phases, L.Initialized, b0.spawnTimes, block.now, c);
    }
  }

  lemma BlockTimeline(
    b0: L.Book, acks0: map<ConsumerId, Time>, s0: State, pools0: map<ConsumerId, F.Pool>, b1: L.Book,
    acks1: map<ConsumerId, Time>, b2: L.Book, acks2: map<ConsumerId, Time>, s2: State, pools2: map<ConsumerId, F.Pool>,
    b3: L.Book, s3: State, pools3: map<ConsumerId, F.Pool>, b4: L.Book, s4: State, b5: L.Book, s5: State, block: Block,
    removalTime: Time)
    requires L.Good(b0) && L.Idle(b0)
    requires LaunchedTo(b0, acks0, b1, acks1, block.launchable, DueToLaunch(b0, block.now), block.now)
    requires RemovedTo(b1, acks1, s0, pools0, b2, acks2, s2, pools2, DueToRemove(b1, block.now))
    requires PausedTo(b2, s2, pools2, b3, s3, pools3, block, FrozenIn(b2.phases, block))
    requires StoppedTo(b3, s3, b4, s4, removalTime, Silent(b3.phases, acks2, block.now, block.grace))
    requires StoppedTo(b4, s4, b5, s5, removalTime, DueToStop(b4, block.now))
    requires AllExpired(b4, block.now, DueToStop(b4, block.now))
    ensures Timeline(b0, b5, block.now, removalTime, block.maxPause)
  {
    var m := MovesOf(b0, b1, b2, b3, b4, acks2, block);
    StagesOfBlockApply(b0, b1, b2, b3, b4, acks2, block, m);
    StagesTimeline(b0, b1, b2, b3, b4, b5, m, block.now, removalTime, block.maxPause);
  }

  // What becomes of records and pools.

  /** The consumers that are not deleted. */
  function Living(phases: L.Phases): set<ConsumerId> {
    set c | c in phases && phases[c] != L.Deleted
  }

  /**
   * After a rotation, on every consumer that is not deleted: a record that stood at the old address alone stands at
   * the new one, with its amount and expiry. No other record changes, nor anything else about a pool.
   */
  ghost predicate RecordsFollowed(
    pools: map<ConsumerId, F.Pool>, pools': map<ConsumerId, F.Pool>, phases: L.Phases, oldAddr: Address,
    newAddr: Address)
  {
    forall c ::
      var p, q := PoolIn(pools, c), PoolIn(pools', c);
      if c in phases && phases[c] != L.Deleted then
        q == p.(records := q.records) && FK.RecordFollowed(p.records, q.records, oldAddr, newAddr)
      else q == p
  }

  lemma RecordsFollow(
    pools: map<ConsumerId, F.Pool>, pools': map<ConsumerId, F.Pool>, phases: L.Phases, ids: seq<ConsumerId>,
    oldAddr: Address, newAddr: Address)
    requires oldAddr != newAddr && ChangesAll(pools, pools', Q.Ids(ids), MovesRecord(oldAddr, newAddr))
    requires forall c :: c in ids <==> c in phases && phases[c] != L.Deleted
    ensures RecordsFollowed(pools, pools', phases, oldAddr, newAddr)
  {
  }

  /**
   * After a rotation: on the consumers of keyed every window, pending slash and floor of the old address stands under
   * the new one, on those of all the marks do, and every other is where it was.
   */
  ghost predicate AccusationsFollowed(
    s: State, s': State, all: set<ConsumerId>, keyed: set<ConsumerId>, oldAddr: Address, newAddr: Address)
  {
    && (forall k: WindowKey :: Followed(s, s', k.pair.consumer in keyed, oldAddr, newAddr, k))
    && (forall p: Pair ::
          p in s'.marks <==>
            if p.consumer in all && p.addr == oldAddr then false
            else p in s.marks || (p.consumer in all && p.addr == newAddr && Pair(p.consumer, oldAddr) in s.marks))
  }

  lemma AccusationsFollow(
    s: State, ids: seq<ConsumerId>, all: set<ConsumerId>, keyed: set<ConsumerId>, oldAddr: Address, newAddr: Address)
    requires oldAddr != newAddr && Agreement.AllFresh(s, keyed, newAddr) && Q.Unique(ids) && Q.Ids(ids) == all
    ensures AccusationsFollowed(s, RotateAll(s, ids, keyed, oldAddr, newAddr), all, all * keyed, oldAddr, newAddr)
  {
    var s' := RotateAll(s, ids, keyed, oldAddr, newAddr);
    forall k: WindowKey ensures Followed(s, s', k.pair.consumer in all * keyed, oldAddr, newAddr, k) {
      RotationIsRenaming(s, ids, keyed, oldAddr, newAddr, k);
      assert k.pair.consumer in ids <==> k.pair.consumer in all;
    }
    forall p: Pair
      ensures p in s'.marks <==>
        if p.consumer in all && p.addr == oldAddr then false
        else p in s.marks || (p.consumer in all && p.addr == newAddr && Pair(p.consumer, oldAddr) in s.marks)
    {
      RotationMovesMarks(s, ids, keyed, oldAddr, newAddr, p);
      assert p.consumer in ids <==> p.consumer in all;
    }
  }

  /** What a rotation means for records, keys and the promises about time. */
  lemma RotationEffects(
    s: State, k: K.KeyState, pools: map<ConsumerId, F.Pool>, s': State, k': K.KeyState, pools': map<ConsumerId, F.Pool>,
    ids: seq<ConsumerId>, keyed: set<ConsumerId>, oldAddr: Address, newAddr: Address, phases: L.Phases, now: Time)
    requires RotatedTo(s, k, pools, s', k', pools', ids, keyed, oldAddr, newAddr)
    requires oldAddr != newAddr && K.Labelled(k.members) && Agreement.AllFresh(s, keyed, newAddr) && Q.Unique(ids)
    requires forall c :: c in ids <==> c in phases && phases[c] != L.Deleted
    ensures AccusationsFollowed(s, s', Living(phases), Living(phases) * keyed, oldAddr, newAddr)
    ensures RecordsFollowed(pools, pools', phases, oldAddr, newAddr)
    ensures K.KeysFollow(k, k', Living(phases) * keyed, oldAddr, newAddr)
    ensures StaysTimed(s, s', now)
  {
    RecordsFollow(pools, pools', phases, ids, oldAddr, newAddr);
    assert Q.Ids(ids) == Living(phases);
    K.MigrationFollows(k, Q.Ids(ids) * keyed, oldAddr, newAddr);
    AccusationsFollow(s, ids, Living(phases), keyed, oldAddr, newAddr);
    RotationTimed(s, ids, keyed, oldAddr, newAddr, now);
  }

  /**
   * After a sweep: whoever was executed in run and has nothing left pending has lost its record; no other record
   * changes, nor anything else about a pool.
   */
  ghost predicate Forfeited(
    pools: map<ConsumerId, F.Pool>, pools': map<ConsumerId, F.Pool>, run: seq<WindowKey>,
    pending: map<WindowKey, Slash>)
  {
    forall c ::
      var p, q := PoolIn(pools, c), PoolIn(pools', c);
      && q == p.(records := q.records)
      && forall a ::
           if (exists k :: k in run && k.pair == Pair(c, a)) && (forall k :: k in pending ==> k.pair != Pair(c, a)) then
             a !in q.records
           else F.SameRecord(p.records, q.records, a)
  }

  lemma SettledForfeit(
    pools: map<ConsumerId, F.Pool>, pools': map<ConsumerId, F.Pool>, run: seq<WindowKey>,
    pending: map<WindowKey, Slash>)
    requires SettledAll(pools, pools', run, pending)
    ensures Forfeited(pools, pools', run, pending)
  {
    forall c, a
      ensures var p, q := PoolIn(pools, c), PoolIn(pools', c);
              if (exists k :: k in run && k.pair == Pair(c, a)) && (forall k :: k in pending ==> k.pair != Pair(c, a))
              then a !in q.records
              else F.SameRecord(p.records, q.records, a)
    {
      SettledOne(run, pending, Pair(c, a));
    }
  }

  lemma SettledOne(run: seq<WindowKey>, pending: map<WindowKey, Slash>, p: Pair)
    ensures p in SettledPairs(run, pending)
      <==> (exists k :: k in run && k.pair == p) && forall k :: k in pending ==> k.pair != p
  {
  }

  /** At an epoch's end every launched consumer's pool is charged its fee, and no other pool changes. */
  ghost predicate AllCharged(
    pools: map<ConsumerId, F.Pool>, pools': map<ConsumerId, F.Pool>, b: Block, marks: set<Pair>, phases: L.Phases)
  {
    forall c ::
      if L.InPhase(phases, c, L.Launched) && b.bonded != [] then
        FK.PoolCharged(PoolIn(pools, c), PoolIn(pools', c), c, if c in b.fees then b.fees[c] else 0, b.bonded, marks,
                       c in b.feeSends, b.now, b.params.challengeWindow)
      else PoolIn(pools', c) == PoolIn(pools, c)
  }

  lemma ChargedOne(p: F.Pool, q: F.Pool, c: ConsumerId, b: Block, marks: set<Pair>)
    requires F.SoundRecords(p.records) && ValidBlock(b) && b.bonded != [] && q == Charged(p, c, b, marks, true)
    ensures FK.PoolCharged(p, q, c, FeeOf(b, c), b.bonded, marks, c in b.feeSends, b.now, b.params.challengeWindow)
  {
    FK.EveryoneCounted(b.bonded, c, marks);
    FK.ChargedAsDue(p, q, c, FeeOf(b, c), b.bonded, marks, FK.EligibleAccounts(b.bonded, c, marks),
                    FK.ExcludedAddrs(b.bonded, c, marks), c in b.feeSends, b.now, b.params.challengeWindow);
  }

  lemma ChargedAll(
    pools: map<ConsumerId, F.Pool>, pools': map<ConsumerId, F.Pool>, b: Block, marks: set<Pair>, phases: L.Phases)
    requires AllSound(pools) && ValidBlock(b) && ChargedTo(pools, pools', b, marks, phases, {})
    ensures AllCharged(pools, pools', b, marks, phases)
  {
    forall c
      ensures if L.InPhase(phases, c, L.Launched) && b.bonded != [] then
                FK.PoolCharged(PoolIn(pools, c), PoolIn(pools', c), c, if c in b.fees then b.fees[c] else 0, b.bonded,
                               marks, c in b.feeSends, b.now, b.params.challengeWindow)
              else PoolIn(pools', c) == PoolIn(pools, c)
    {
      if L.InPhase(phases, c, L.Launched) && b.bonded != [] {
        ChargedOne(PoolIn(pools, c), PoolIn(pools', c), c, b, marks);
      }
    }
  }

  /** No record is left whose time is over; of the earlier runs those are that acceptable evidence can refer to. */
  ghost predicate UpToDate(p: F.Pool, q: F.Pool, block: Block) {
    && (block.params.challengeWindow > 0 ==> forall a :: a in q.records ==> q.records[a].expiresAt > block.now)
    && forall run :: run != block.now ==>
         && (run in q.runs <==> run in p.runs && block.now - run <= block.params.challengeWindow + block.params.maxAge)
         && (run in q.runs ==> q.runs[run] == p.runs[run])
  }

  /** What a block leaves of a consumer's pool: nothing of a removed one, no escrow of one that pauses. */
  ghost predicate PoolAfter(p: F.Pool, q: F.Pool, c: ConsumerId, phases: L.Phases, phases': L.Phases, block: Block) {
    && UpToDate(p, q, block)
    && (L.InPhase(phases, c, L.Stopped) && L.InPhase(phases', c, L.Deleted) ==>
          q.balance == 0 && q.shares == map[] && q.total.None? && q.records == map[])
    && (!L.InPhase(phases, c, L.Paused) && L.InPhase(phases', c, L.Paused) ==> q.records == map[])
  }

  ghost predicate PoolsAfter(
    pools: map<ConsumerId, F.Pool>, pools': map<ConsumerId, F.Pool>, phases: L.Phases, phases': L.Phases, block: Block)
  {
    forall c :: PoolAfter(PoolIn(pools, c), PoolIn(pools', c), c, phases, phases', block)
  }

  lemma AgesIs(p: F.Pool, q: F.Pool, block: Block)
    requires q == Ages(block)(p)
    ensures q == p.(runs := FK.RunsSince(p.runs, OldestRun(block)), records := FK.Unexpired(p.records, block.now))
  {
    assert WithRunsSince(OldestRun(block))(p) == p.(runs := FK.RunsSince(p.runs, OldestRun(block)));
  }

  lemma AgesUpToDate(p: F.Pool, q: F.Pool, block: Block)
    requires q == Ages(block)(p)
    ensures UpToDate(p, q, block)
  {
    AgesIs(p, q, block);
  }

  lemma ChargeKeepsUpToDate(p: F.Pool, aged: F.Pool, q: F.Pool, c: ConsumerId, block: Block, marks: set<Pair>)
    requires UpToDate(p, aged, block) && F.SoundRecords(aged.records) && ValidBlock(block) && block.bonded != []
    requires q == Charged(aged, c, block, marks, true)
    ensures UpToDate(p, q, block)
  {
    ChargedOne(aged, q, c, block, marks);
  }

  lemma RemovedInBlock(b: L.Book, acks: map<ConsumerId, Time>, block: Block, phases': L.Phases, c: ConsumerId)
    requires LifecyclesMoved(b, acks, block, phases') && block.grace >= 0 && L.Good(b) && L.Idle(b)
    requires L.InPhase(b.phases, c, L.Stopped) && L.InPhase(phases', c, L.Deleted)
    ensures c in DueToRemove(b, block.now) && c !in FrozenIn(AfterQueues(b, block), block)
  {
    EndsAs(b, acks, block, phases', c);
    AfterQueuesAt(b, block, c);
    TakenOrWaiting(b.launches, b.phases, L.Initialized, b.spawnTimes, block.now, c);
  }

  lemma FrozenInBlock(b: L.Book, acks: map<ConsumerId, Time>, block: Block, phases': L.Phases, c: ConsumerId)
    requires LifecyclesMoved(b, acks, block, phases') && block.grace >= 0
    requires c in b.phases && b.phases[c] != L.Paused && L.InPhase(phases', c, L.Paused)
    ensures c in FrozenIn(AfterQueues(b, block), block)
  {
    EndsAs(b, acks, block, phases', c);
    AfterQueuesAt(b, block, c);
  }

  /** The pool before the block's end: emptied if its consumer was removed, without records if it was paused. */
  lemma QueuedAfter(
    b: L.Book, acks: map<ConsumerId, Time>, block: Block, phases': L.Phases, p: F.Pool, q: F.Pool, c: ConsumerId)
    requires LifecyclesMoved(b, acks, block, phases') && block.grace >= 0 && L.Good(b) && L.Idle(b)
    requires q == QueuedPool(b, p, c, block)
    ensures q.runs == p.runs && (q.records == p.records || q.records == map[])
    ensures L.InPhase(b.phases, c, L.Stopped) && L.InPhase(phases', c, L.Deleted) ==>
      q.balance == 0 && q.shares == map[] && q.total.None? && q.records == map[]
    ensures !L.InPhase(b.phases, c, L.Paused) && L.InPhase(phases', c, L.Paused) ==> q.records == map[]
  {
    SameConsumers(b, acks, block, phases');
    if L.InPhase(b.phases, c, L.Stopped) && L.InPhase(phases', c, L.Deleted) {
      RemovedInBlock(b, acks, block, phases', c);
    } else if !L.InPhase(b.phases, c, L.Paused) && L.InPhase(phases', c, L.Paused) {
      FrozenInBlock(b, acks, block, phases', c);
    }
  }

  lemma PoolAfterBlock(
    p: F.Pool, queued: F.Pool, settled: F.Pool, aged: F.Pool, q: F.Pool, c: ConsumerId, phases: L.Phases,
    phases': L.Phases, block: Block, run: seq<WindowKey>, pending: map<WindowKey, Slash>, marks: set<Pair>)
    requires F.SoundRecords(p.records) && ValidBlock(block)
    requires queued.runs == p.runs && (queued.records == p.records || queued.records == map[])
    requires settled == SettledPool(queued, c, run, pending) && aged == Ages(block)(settled)
    requires q == if block.epochEnds then Charged(aged, c, block, marks, L.InPhase(phases', c, L.Launched)) else aged
    requires L.InPhase(phases, c, L.Stopped) && L.InPhase(phases', c, L.Deleted) ==>
      queued.balance == 0 && queued.shares == map[] && queued.total.None? && queued.records == map[]
    requires !L.InPhase(phases, c, L.Paused) && L.InPhase(phases', c, L.Paused) ==> queued.records == map[]
    ensures PoolAfter(p, q, c, phases, phases', block)
  {
    AgesUpToDate(settled, aged, block);
    AgedRecords(settled, aged, block);
    if block.epochEnds && block.bonded != [] && L.InPhase(phases', c, L.Launched) {
      ChargeKeepsUpToDate(settled, aged, q, c, block, marks);
    }
  }

  lemma AgedRecords(p: F.Pool, q: F.Pool, block: Block)
    requires q == Ages(block)(p)
    ensures q == p.(runs := q.runs, records := q.records)
    ensures q.records.Keys <= p.records.Keys && forall a :: a in q.records ==> q.records[a] == p.records[a]
  {
    AgesIs(p, q, block);
  }

  lemma PoolsAfterBlock(
    b: L.Book, acks: map<ConsumerId, Time>, s: State, pools: map<ConsumerId, F.Pool>, pools': map<ConsumerId, F.Pool>,
    phases': L.Phases, block: Block, run: seq<WindowKey>)
    requires L.Good(b) && L.Idle(b) && AllSound(pools) && ValidBlock(block) && block.grace >= 0
    requires LifecyclesMoved(b, acks, block, phases') && BlockPools(b, s, pools, pools', phases', block, run)
    ensures PoolsAfter(pools, pools', b.phases, phases', block)
  {
    forall c ensures PoolAfter(PoolIn(pools, c), PoolIn(pools', c), c, b.phases, phases', block) {
      var p, left := PoolIn(pools, c), Surviving(s, phases');
      var queued, pending := QueuedPool(b, p, c, block), Unmatured(left.pending, block.now);
      var settled := SettledPool(queued, c, run, pending);
      QueuedAfter(b, acks, block, phases', p, queued, c);
      PoolAfterBlock(p, queued, settled, Ages(block)(settled), PoolIn(pools', c), c, b.phases, phases', block, run,
                     pending, left.marks);
    }
  }

  /** The consumers deleted in a block. */
  function Removed(phases: L.Phases, phases': L.Phases): set<ConsumerId> {
    set c | c in phases && phases[c] == L.Stopped && c in phases' && phases'[c] == L.Deleted
  }

  /** The consumers whose keys a block forgets are those it deletes. */
  lemma RemovedAreDue(b: L.Book, acks: map<ConsumerId, Time>, block: Block, phases': L.Phases)
    requires L.Good(b) && L.Idle(b) && LifecyclesMoved(b, acks, block, phases') && block.grace >= 0
    ensures Removed(b.phases, phases') == DueToRemove(b, block.now)
  {
    RemovedStay(b, acks, block, phases');
    forall c | c in DueToRemove(b, block.now) ensures L.InPhase(b.phases, c, L.Stopped) {
      TakenOrWaiting(b.removals, b.phases, L.Stopped, b.removalTimes, block.now, c);
    }
    forall c | c in Removed(b.phases, phases') ensures c in DueToRemove(b, block.now) {
      RemovedInBlock(b, acks, block, phases', c);
    }
  }
}
