/** The provider's keeper: lifecycle, accusations and fee pools moving together. */
module Provider {
  import opened Common
  import opened Bitmaps
  import opened Accusations
  import opened BlockSteps
  import opened Wire
  import F = FeePool
  import FK = FeeKeeper
  import L = Lifecycle
  import K = KeyAssignment
  import AW = AccusedWindows
  import Q = TimeQueue
  import Ordering
  import opened DowntimeLedger
  import opened Agreement
  import opened ChallengeWindow
  import opened Effects

  class Keeper {
    const registry: L.Registry
    const ledger: Ledger
    const pools: FK.Pools
    const keys: K.KeyBook

    /** No two parts are one object. */
    ghost predicate Separate() {
      var r: object, l: object, p: object, k: object := registry, ledger, pools, keys;
      var a: object, b: object, c: object := registry.launches, registry.removals, registry.autoStops;
      && r != l && r != p && l != p && a != b && a != c && b != c
      && a != r && a != l && a != p && b != r && b != l && b != p && c != r && c != l && c != p
      && k != r && k != l && k != p && k != a && k != b && k != c
    }

    ghost predicate Valid(now: Time)
      reads registry, registry.launches, registry.removals, registry.autoStops, ledger, pools
    {
      && Separate() && registry.Apart() && pools.Valid()
      && Consistent(registry.Current(), ledger.Current(), pools.pools, now)
    }

    ghost predicate Idle()
      reads registry, registry.launches, registry.removals, registry.autoStops
    {
      L.Idle(registry.Current())
    }

    constructor ()
      ensures Valid(0) && Idle() && AW.Sound(World())
      ensures forall params :: Timed(ledger.Current(), 0, params)
    {
      ledger := new Ledger();
      pools := new FK.Pools();
      keys := new K.KeyBook();
      registry := new L.Registry();
      new;
      InitialConsistent(registry.Current(), ledger.Current(), keys.reverse, 0);
      forall params ensures Timed(ledger.Current(), 0, params) {
        InitiallyTimed(0, params);
      }
    }

    /** Time passing only lets records expire. */
    lemma ValidLater(now: Time, later: Time)
      requires Valid(now) && now <= later
      ensures Valid(later)
      ensures forall params :: Timed(ledger.Current(), now, params) ==> Timed(ledger.Current(), later, params)
    {
      ConsistentLater(registry.Current(), ledger.Current(), pools.pools, now, later);
      forall params | Timed(ledger.Current(), now, params) ensures Timed(ledger.Current(), later, params) {
        TimedLater(ledger.Current(), now, later, params);
      }
    }

    // Transactions on the lifecycle.

    method CreateConsumer(spawnTime: Time, ghost now: Time) returns (c: ConsumerId)
      requires Valid(now)
      modifies registry, registry.launches
      ensures Valid(now) && L.Legal(old(registry.phases), registry.phases)
      ensures c !in old(registry.phases) && registry.Current() == L.Create(old(registry.Current()), spawnTime)
      ensures c in registry.spawnTimes && registry.spawnTimes[c] == spawnTime
      ensures registry.phases
           == old(registry.phases)[c := if spawnTime == L.ZERO_TIME then L.Registered else L.Initialized]
    {
      CreateConsistent(registry.Current(), ledger.Current(), pools.pools, spawnTime, now);
      c := registry.CreateConsumer(spawnTime);
    }

    /** What an update changes besides the spawn time is not kept here. */
    method UpdateConsumer(c: ConsumerId, spawnTime: Option<Time>, ghost now: Time) returns (ok: bool)
      requires Valid(now) && Idle()
      modifies registry, registry.launches
      ensures Valid(now) && Idle() && L.Legal(old(registry.phases), registry.phases)
      ensures ok <==> L.Updatable(old(registry.phases), c, spawnTime)
      ensures ok ==> c in old(registry.spawnTimes)
      ensures registry.Current()
           == if ok then L.Update(old(registry.Current()), c, spawnTime) else old(registry.Current())
      ensures ok && old(registry.phases)[c] != L.Launched ==>
        var t := spawnTime.GetOr(old(registry.spawnTimes)[c]);
        && c in registry.spawnTimes && registry.spawnTimes[c] == t
        && registry.phases == old(registry.phases)[c := if t == L.ZERO_TIME then L.Registered else L.Initialized]
    {
      if L.Updatable(registry.phases, c, spawnTime) {
        UpdateConsistent(registry.Current(), ledger.Current(), pools.pools, c, spawnTime, now);
      }
      ok := registry.UpdateConsumer(c, spawnTime);
    }

    /** Until a consumer stops, its pool covers its escrow. */
    lemma SolventUntilStopped(c: ConsumerId, now: Time)
      requires Valid(now) && !L.InPhase(registry.phases, c, L.Stopped)
      ensures F.Solvent(pools.PoolOf(c), now)
    {
      if c in pools.pools {
        assert EscrowedPool(registry.phases, c, pools.pools[c], now);
      } else {
        NoRecordsSolvent(F.EMPTY_POOL, now);
      }
    }

    /** The consumer has been paused at now, for at most maxPause. */
    ghost predicate PausedFor(c: ConsumerId, reason: L.Reason, now: Time, maxPause: Time)
      reads registry
    {
      && c in registry.pausedAt && registry.pausedAt[c] == now
      && c in registry.pauseExpirations && registry.pauseExpirations[c] == now + maxPause
      && c in registry.pauseReasons && registry.pauseReasons[c] == reason
    }

    /** Repays what was withheld, pauses, and drops what is in flight, in that order. */
    method PauseConsumerChain(
      c: ConsumerId, reason: L.Reason, now: Time, maxPause: Time, payees: map<Address, Address>, sends: set<Address>)
      returns (ok: bool)
      requires Valid(now)
      modifies registry, registry.autoStops, ledger, pools
      ensures Valid(now) && L.Legal(old(registry.phases), registry.phases)
      ensures ok <==> L.InPhase(old(registry.phases), c, L.Launched)
      ensures !ok ==> registry.Current() == old(registry.Current()) && ledger.Current() == old(ledger.Current())
                      && pools.pools == old(pools.pools) && pools.accounts == old(pools.accounts)
      ensures ok ==>
        && registry.Current() == L.Pause(old(registry.Current()), c, reason, now, maxPause)
        && ledger.Current() == Cancel(old(ledger.Current()), c)
        && RepaidInFull(old(pools.PoolOf(c)), pools.PoolOf(c), old(pools.accounts), pools.accounts, payees, sends, now)
      ensures ok ==> Changes(old(pools.pools), pools.pools, c, Repaid(PoolIn(old(pools.pools), c), payees, sends, now))
      ensures ok ==> registry.phases == old(registry.phases)[c := L.Paused] && PausedFor(c, reason, now, maxPause)
      ensures ok ==> FK.MadeWhole(old(pools.PoolOf(c)), pools.PoolOf(c).balance, old(pools.accounts), pools.accounts,
                                  payees, sends, now)
      ensures registry.lastAcks == old(registry.lastAcks)
      ensures StaysTimed(old(ledger.Current()), ledger.Current(), now)
    {
      ok := c in registry.phases && registry.phases[c] == L.Launched;
      if ok {
        PauseLaunched(c, reason, now, maxPause, payees, sends);
      }
    }

    method PauseLaunched(
      c: ConsumerId, reason: L.Reason, now: Time, maxPause: Time, payees: map<Address, Address>, sends: set<Address>)
      requires Valid(now) && L.InPhase(registry.phases, c, L.Launched)
      modifies registry, registry.autoStops, ledger, pools
      ensures Valid(now) && L.Legal(old(registry.phases), registry.phases)
      ensures registry.Current() == L.Pause(old(registry.Current()), c, reason, now, maxPause)
      ensures ledger.Current() == Cancel(old(ledger.Current()), c)
      ensures registry.phases == old(registry.phases)[c := L.Paused]
      ensures PausedFor(c, reason, now, maxPause)
      ensures RepaidInFull(old(pools.PoolOf(c)), pools.PoolOf(c), old(pools.accounts), pools.accounts, payees, sends,
                           now)
      ensures registry.lastAcks == old(registry.lastAcks)
      ensures Changes(old(pools.pools), pools.pools, c, Repaid(PoolIn(old(pools.pools), c), payees, sends, now))
      ensures FK.MadeWhole(old(pools.PoolOf(c)), pools.PoolOf(c).balance, old(pools.accounts), pools.accounts, payees,
                           sends, now)
      ensures StaysTimed(old(ledger.Current()), ledger.Current(), now)
    {
      ghost var b, s, was := registry.Current(), ledger.Current(), pools.pools;
      ghost var p, accounts := pools.PoolOf(c), pools.accounts;
      SolventUntilStopped(c, now);
      pools.PoolAccounted(c);
      PauseInOrder(c, reason, now, maxPause, payees, sends);
      RepaidWhole(p, pools.PoolOf(c), accounts, pools.accounts, payees, sends, now);
      CancelTimed(s, c, now);
      PausedConsistent(b, s, was, registry.Current(), ledger.Current(), pools.pools, c, reason, now, maxPause);
    }

    method PauseInOrder(
      c: ConsumerId, reason: L.Reason, now: Time, maxPause: Time, payees: map<Address, Address>, sends: set<Address>)
      requires Separate() && registry.Apart() && pools.Valid() && F.Solvent(pools.PoolOf(c), now)
      modifies registry, registry.autoStops, ledger, pools
      ensures pools.Valid() && OnlyChanges(old(pools.pools), pools.pools, c) && pools.PoolOf(c).records == map[]
      ensures registry.Current() == L.Pause(old(registry.Current()), c, reason, now, maxPause)
      ensures ledger.Current() == Cancel(old(ledger.Current()), c)
      ensures RepaidInFull(old(pools.PoolOf(c)), pools.PoolOf(c), old(pools.accounts), pools.accounts, payees, sends,
                           now)
      ensures registry.lastAcks == old(registry.lastAcks)
      ensures Changes(old(pools.pools), pools.pools, c, Repaid(PoolIn(old(pools.pools), c), payees, sends, now))
    {
      RepayInPlace(c, payees, sends, now);
      registry.PauseConsumer(c, reason, now, maxPause);
      ledger.CancelConsumerDowntimeState(c);
    }

    method RepayInPlace(c: ConsumerId, payees: map<Address, Address>, sends: set<Address>, now: Time)
      requires pools.Valid() && F.Solvent(pools.PoolOf(c), now)
      modifies pools
      ensures pools.Valid() && OnlyChanges(old(pools.pools), pools.pools, c) && pools.PoolOf(c).records == map[]
      ensures RepaidInFull(old(pools.PoolOf(c)), pools.PoolOf(c), old(pools.accounts), pools.accounts, payees, sends,
                           now)
      ensures Changes(old(pools.pools), pools.pools, c, Repaid(PoolIn(old(pools.pools), c), payees, sends, now))
    {
      pools.PayWithheldFees(c, payees, sends, now);
    }

    method StopConsumerChain(c: ConsumerId, removalTime: Time, ghost now: Time)
      requires Valid(now) && L.Running(registry.Current(), c)
      modifies registry, registry.removals, registry.autoStops, ledger
      ensures Valid(now) && L.Legal(old(registry.phases), registry.phases)
      ensures registry.Current() == L.Stop(old(registry.Current()), c, removalTime)
      ensures ledger.Current() == Cancel(old(ledger.Current()), c)
      ensures registry.lastAcks == old(registry.lastAcks)
      ensures StaysTimed(old(ledger.Current()), ledger.Current(), now)
    {
      StopInOrder(c, removalTime);
      CancelTimed(old(ledger.Current()), c, now);
      StopConsistent(old(registry.Current()), old(ledger.Current()), pools.pools, c, removalTime, now);
    }

    method StopInOrder(c: ConsumerId, removalTime: Time)
      requires Separate() && registry.Apart()
      modifies registry, registry.removals, registry.autoStops, ledger
      ensures registry.Current() == L.Stop(old(registry.Current()), c, removalTime)
      ensures registry.lastAcks == old(registry.lastAcks)
      ensures ledger.Current() == Cancel(old(ledger.Current()), c)
    {
      registry.StopAndPrepareForConsumerRemoval(c, removalTime);
      ledger.CancelConsumerDowntimeState(c);
    }

    method ResumeConsumerChain(c: ConsumerId, clientActive: bool, snapshotSent: bool, now: Time, evidencePeriod: Time)
      returns (ok: bool)
      requires Valid(now)
      modifies registry, registry.autoStops
      ensures Valid(now) && L.Legal(old(registry.phases), registry.phases)
      ensures ok <==> old(registry.Resumable(c, clientActive, now, evidencePeriod)) && snapshotSent
      ensures ok ==>
        && L.InPhase(old(registry.phases), c, L.Paused) && clientActive && snapshotSent
        && c in old(registry.pauseReasons) && c in old(registry.pausedAt)
        && (old(registry.pauseReasons)[c] == L.LightClientAttack ==>
              now - old(registry.pausedAt)[c] >= evidencePeriod)
      ensures ok ==> registry.phases == old(registry.phases)[c := L.Launched] && registry.lastAcks
                     == old(registry.lastAcks)[c := now]
      ensures registry.Current() == if ok then L.Resume(old(registry.Current()), c) else old(registry.Current())
    {
      ghost var b := registry.Current();
      ok := registry.ResumeConsumerChain(c, clientActive, snapshotSent, now, evidencePeriod);
      ResumedConsistent(b, registry.Current(), ledger.Current(), pools.pools, ok, c, now);
    }

    /** Sweeps the pool, erases everything kept for the consumer and ends its life. */
    method DeleteConsumerChain(c: ConsumerId, ghost now: Time)
      requires Valid(now) && L.Deletable(registry.Current(), c)
      modifies registry, registry.launches, ledger, pools, keys
      ensures Valid(now) && L.Legal(old(registry.phases), registry.phases)
      ensures keys.Current() == K.Forgotten(old(keys.Current()), {c}) && (old(keys.Valid()) ==> keys.Valid())
      ensures K.ErasedFrom(old(keys.Current()), keys.Current(), {c})
      ensures old(AW.Sound(World())) ==> AW.Sound(World())
      ensures registry.Current() == L.Delete(old(registry.Current()), c)
      ensures ledger.Current() == Delete(old(ledger.Current()), c)
      ensures registry.lastAcks == old(registry.lastAcks) - {c}
      ensures Changes(old(pools.pools), pools.pools, c, Emptied(old(pools.PoolOf(c))))
      ensures pools.module' == old(pools.module')
      ensures StaysTimed(old(ledger.Current()), ledger.Current(), now)
    {
      ghost var b, s, was := registry.Current(), ledger.Current(), pools.pools;
      DeletableKnown(b, c);
      DeleteInOrder(c);
      DeleteTimed(s, c, now);
      K.ForgottenErased(old(keys.Current()), {c});
      DeletedConsistent(b, s, was, registry.Current(), ledger.Current(), pools.pools, c, now);
      if old(AW.Sound(World())) {
        DeletedSound(s, ledger.Current(), old(keys.reverse), c);
      }
    }

    lemma DeletableKnown(b: L.Book, c: ConsumerId)
      requires L.Recorded(b) && L.Deletable(b, c)
      ensures c in b.phases && c in b.spawnTimes
    {
    }

    method DeleteInOrder(c: ConsumerId)
      requires Separate() && registry.Apart() && pools.Valid() && c in registry.phases && c in registry.spawnTimes
      modifies registry, registry.launches, ledger, pools, keys
      ensures pools.Valid()
      ensures keys.Current() == K.Forgotten(old(keys.Current()), {c}) && (old(keys.Valid()) ==> keys.Valid())
      ensures registry.Current() == L.Delete(old(registry.Current()), c)
      ensures ledger.Current() == Delete(old(ledger.Current()), c)
      ensures registry.lastAcks == old(registry.lastAcks) - {c}
      ensures Changes(old(pools.pools), pools.pools, c, Emptied(old(pools.PoolOf(c))))
      ensures pools.module' == old(pools.module')
    {
      pools.SweepConsumerFeePoolDenom(c);
      pools.EraseConsumer(c);
      assert forall d :: PoolIn(pools.pools, d) == pools.PoolOf(d);
      keys.EraseConsumer(c);
      ledger.EraseConsumer(c);
      registry.DeleteConsumer(c);
    }

    /**
     * A consumer that never launched is deleted at once; one that runs is stopped first, and due for removal once the
     * unbonding time has passed.
     */
    method RemoveConsumer(c: ConsumerId, now: Time, unbonding: Time) returns (ok: bool, removalTime: Time)
      requires Valid(now) && Idle()
      modifies registry, registry.launches, registry.removals, registry.autoStops, ledger, pools, keys
      ensures removalTime == now + unbonding
      ensures Valid(now) && Idle() && L.Legal(old(registry.phases), registry.phases)
      ensures ok <==> c in old(registry.phases)
                      && (L.Prelaunched(old(registry.phases)[c]) || L.Running(old(registry.Current()), c))
      ensures ok ==> c in old(registry.spawnTimes)
      ensures registry.Current() ==
        if !ok then old(registry.Current())
        else if L.Prelaunched(old(registry.phases)[c]) then L.Delete(old(registry.Current()), c)
        else L.Stop(old(registry.Current()), c, removalTime)
      ensures ledger.Current() ==
        if !ok then old(ledger.Current())
        else if L.Prelaunched(old(registry.phases)[c]) then Delete(old(ledger.Current()), c)
        else Cancel(old(ledger.Current()), c)
      ensures StaysTimed(old(ledger.Current()), ledger.Current(), now)
    {
      removalTime := now + unbonding;
      if c !in registry.phases {
        return false, removalTime;
      }
      if L.Prelaunched(registry.phases[c]) {
        DeleteConsumerChain(c, now);
        return true, removalTime;
      }
      if registry.phases[c] != L.Launched && registry.phases[c] != L.Paused {
        return false, removalTime;
      }
      StopConsumerChain(c, removalTime, now);
      return true, removalTime;
    }

    // Transactions on the fee pools.

    /** Deposits are open until a consumer is deleted. */
    method FundConsumerFeePool(c: ConsumerId, depositor: Address, amount: int, ghost now: Time) returns (ok: bool)
      requires Valid(now) && amount > 0
      modifies pools
      ensures Valid(now)
      ensures ok <==> c in registry.phases && registry.phases[c] != L.Deleted
                      && F.SharesToMint(F.Settled(old(pools.PoolOf(c))), amount) > 0
                      && old(pools.Spendable(depositor)) >= amount
      ensures ok ==>
        var p := F.Settled(old(pools.PoolOf(c)));
        && pools.pools == old(pools.pools)[c := F.Deposited(p, depositor, amount, F.SharesToMint(p, amount))]
        && pools.Spendable(depositor) == old(pools.Spendable(depositor)) - amount
      ensures ok ==> F.Credits(F.Settled(old(pools.PoolOf(c))), pools.PoolOf(c), depositor, amount)
      ensures forall x :: x != depositor ==> pools.Spendable(x) == old(pools.Spendable(x))
      ensures !ok ==> pools.pools == old(pools.pools) && pools.Spendable(depositor) == old(pools.Spendable(depositor))
    {
      if c !in registry.phases || registry.phases[c] == L.Deleted {
        return false;
      }
      ghost var was, p := pools.pools, pools.PoolOf(c);
      PoolEscrowed(c, now);
      var error := pools.FundConsumerFeePool(c, depositor, amount);
      if error.None? {
        F.DepositStaysSolventWhen(p, depositor, amount, now);
        PoolConsistent(registry.Current(), ledger.Current(), was, pools.pools, c, now);
      }
      ok := error.None?;
    }

    /** A community-pool spend addressed straight at a pool: the tokens stay unaccounted until someone deposits. */
    method ReceiveUnaccounted(c: ConsumerId, amount: int, ghost now: Time) returns (ok: bool)
      requires Valid(now) && amount > 0
      modifies pools
      ensures Valid(now)
      ensures ok <==> old(pools.community) >= amount
      ensures ok ==> pools.pools == old(pools.pools)[c := F.Received(old(pools.PoolOf(c)), amount)]
                     && pools.community == old(pools.community) - amount
      ensures !ok ==> pools.pools == old(pools.pools) && pools.community == old(pools.community)
    {
      ghost var was := pools.pools;
      PoolEscrowed(c, now);
      ok := pools.ReceiveUnaccounted(c, amount);
      if ok {
        ReceivedConsistent(registry.Current(), ledger.Current(), was, pools.pools, c, amount, now);
      }
    }

    lemma PoolEscrowed(c: ConsumerId, now: Time)
      requires Valid(now)
      ensures EscrowedPool(registry.phases, c, pools.PoolOf(c), now)
    {
      if c in pools.pools {
        assert EscrowedPool(registry.phases, c, pools.pools[c], now);
      } else {
        NoRecordsSolvent(F.EMPTY_POOL, now);
      }
    }

    /** Whether the consumer's phase lets the depositor withdraw: governance always may, others not while it runs. */
    predicate WithdrawalOpen(c: ConsumerId, depositor: Address)
      reads registry
    {
      && c in registry.phases && registry.phases[c] != L.Deleted
      && (depositor == F.DISTRIBUTION || (registry.phases[c] != L.Launched && registry.phases[c] != L.Paused))
    }

    /** Depositors are locked out while the consumer is launched or paused; governance is not. */
    method WithdrawConsumerFeePool(
      c: ConsumerId, depositor: Address, amount: int, now: Time) returns (ok: bool, tokens: int)
      requires Valid(now)
      modifies pools
      ensures Valid(now)
      ensures ok == (WithdrawalOpen(c, depositor) && F.Withdrawable(old(pools.PoolOf(c)), depositor, amount, now))
      ensures ok ==>
        var p := old(pools.PoolOf(c));
        var d := F.DrawFor(p, depositor, amount, now);
        && tokens == d.tokens <= amount && tokens <= p.balance - F.Outstanding(p, now)
        && pools.pools == old(pools.pools)[c := F.Withdrawn(p, depositor, d)]
      ensures ok <==> WithdrawalOpen(c, depositor) && !F.Unwithdrawable(old(pools.PoolOf(c)), depositor, amount, now)
      ensures ok ==> depositor == F.DISTRIBUTION || !L.Running(registry.Current(), c)
      ensures ok ==> F.Withdraws(old(pools.PoolOf(c)), pools.PoolOf(c), depositor,
                                 F.Limit(old(pools.PoolOf(c)), amount, now), tokens)
      ensures pools.Spendable(depositor) == old(pools.Spendable(depositor)) + tokens
      ensures forall x :: x != depositor ==> pools.Spendable(x) == old(pools.Spendable(x))
      ensures !ok ==> pools.pools == old(pools.pools) && tokens == 0
    {
      ghost var p := pools.PoolOf(c);
      pools.PoolAccounted(c);
      F.WithdrawalIsAmple(p, depositor, amount, now);
      ok, tokens := WithdrawIfOpen(c, depositor, amount, now);
    }

    /** The withdrawal by the phase, the shares and the escrow. */
    method WithdrawIfOpen(
      c: ConsumerId, depositor: Address, amount: int, now: Time) returns (ok: bool, tokens: int)
      requires Valid(now)
      modifies pools
      ensures Valid(now)
      ensures ok == (WithdrawalOpen(c, depositor) && F.Withdrawable(old(pools.PoolOf(c)), depositor, amount, now))
      ensures ok ==>
        var p := old(pools.PoolOf(c));
        var d := F.DrawFor(p, depositor, amount, now);
        && tokens == d.tokens <= amount && tokens <= p.balance - F.Outstanding(p, now)
        && pools.pools == old(pools.pools)[c := F.Withdrawn(p, depositor, d)]
      ensures pools.Spendable(depositor) == old(pools.Spendable(depositor)) + tokens
      ensures forall x :: x != depositor ==> pools.Spendable(x) == old(pools.Spendable(x))
      ensures !ok ==> pools.pools == old(pools.pools) && tokens == 0
    {
      if c !in registry.phases || registry.phases[c] == L.Deleted {
        return false, 0;
      }
      if depositor != F.DISTRIBUTION && (registry.phases[c] == L.Launched || registry.phases[c] == L.Paused) {
        return false, 0;
      }
      ghost var was, p := pools.pools, pools.PoolOf(c);
      PoolEscrowed(c, now);
      pools.PoolAccounted(c);
      var error, t := pools.WithdrawShares(c, depositor, amount, now);
      if error.None? {
        F.DrawWithinLimits(p, depositor, amount, now);
        WithdrawnConsistent(registry.Current(), ledger.Current(), was, pools.pools, c, depositor, amount, now);
      }
      return error.None?, t;
    }

    /** The owner may sweep before launch and once stopped. */
    method SweepConsumerFeePool(c: ConsumerId, ghost now: Time) returns (ok: bool)
      requires Valid(now)
      modifies pools
      ensures Valid(now) && pools.module' == old(pools.module')
      ensures ok <==> c in registry.phases && registry.phases[c] != L.Deleted && !L.Running(registry.Current(), c)
      ensures ok ==> Changes(old(pools.pools), pools.pools, c, Swept(PoolIn(old(pools.pools), c)))
      ensures ok ==> FK.SweepPays(F.Settled(PoolIn(old(pools.pools), c)), old(pools.accounts), pools.accounts,
                                  pools.community - old(pools.community))
      ensures !ok ==> pools.pools == old(pools.pools) && pools.accounts == old(pools.accounts)
    {
      if c !in registry.phases || registry.phases[c] == L.Deleted {
        return false;
      }
      if registry.phases[c] == L.Launched || registry.phases[c] == L.Paused {
        return false;
      }
      SweepOpenPool(c, now);
      return true;
    }

    method SweepOpenPool(c: ConsumerId, ghost now: Time)
      requires Valid(now) && !L.Running(registry.Current(), c)
      modifies pools
      ensures Valid(now) && pools.module' == old(pools.module')
      ensures Changes(old(pools.pools), pools.pools, c, Swept(PoolIn(old(pools.pools), c)))
      ensures FK.SweepPays(F.Settled(PoolIn(old(pools.pools), c)), old(pools.accounts), pools.accounts,
                           pools.community - old(pools.community))
    {
      ghost var was := pools.pools;
      SweepInPlace(c);
      SweptPoolConsistent(registry.Current(), ledger.Current(), was, pools.pools, c, now);
    }

    method SweepInPlace(c: ConsumerId)
      requires pools.Valid()
      modifies pools
      ensures pools.Valid() && pools.module' == old(pools.module')
      ensures Changes(old(pools.pools), pools.pools, c, Swept(PoolIn(old(pools.pools), c)))
      ensures FK.SweepPays(F.Settled(PoolIn(old(pools.pools), c)), old(pools.accounts), pools.accounts,
                           pools.community - old(pools.community))
    {
      pools.SweepConsumerFeePoolDenom(c);
      assert forall d :: PoolIn(pools.pools, d) == pools.PoolOf(d);
    }

    // Evidence and challenges.

    /** The accusations with the mappings they are resolved by. */
    ghost function World(): AW.World
      reads ledger, keys
    {
      AW.World(ledger.Current(), keys.reverse)
    }

    /** What the evidence handler sees of consumer c's keys, stored set and paid epochs is what the keeper holds. */
    ghost predicate Seen(env: Surroundings, c: ConsumerId)
      reads keys, pools
    {
      && env.reverse == keys.reverse && env.validators == K.MembersOf(keys.members, c)
      && env.shares == pools.PoolOf(c).runs
    }

    /** Judges a consumer's evidence packet; only a launched consumer is heard. */
    method HandleConsumerEvidencePacket(env: Surroundings, c: ConsumerId, p: EvidencePacket, now: Time)
      returns (error: Option<EvidenceError>)
      requires Valid(now) && (env.launched <==> L.InPhase(registry.phases, c, L.Launched))
      requires Seen(env, c)
      requires env.client.Some? ==> AscendingStates(env.client.value.states)
      modifies ledger
      ensures Valid(now)
      ensures Judged(env, old(ledger.Current()), c, p, now, error, ledger.Current())
      ensures old(AW.Sound(World())) ==> AW.Sound(World())
      ensures Timed(old(ledger.Current()), now, env.params) ==> Timed(ledger.Current(), now, env.params)
      ensures Timed(old(ledger.Current()), now, env.params) && env.params.challengeWindow >= 0 ==>
        DecidedByHistory(env, old(ledger.Current()), c, p, now, error.None?)
      ensures error.None? ==>
        env.client.Some? && env.price.Some? && Stands(env, old(ledger.Current()), ledger.Current(), c, p, now)
    {
      if !env.launched {
        NotCredible(env, ledger.Current(), c, p, now);
        return Some(if Validate(p).Some? then Invalid else NotLaunched);
      }
      error := HandleConsumerDowntime(env, c, p, now);
    }

    method HandleConsumerDowntime(env: Surroundings, c: ConsumerId, p: EvidencePacket, now: Time)
      returns (error: Option<EvidenceError>)
      requires Valid(now) && L.InPhase(registry.phases, c, L.Launched)
      requires Seen(env, c)
      requires env.client.Some? ==> AscendingStates(env.client.value.states)
      modifies ledger
      ensures Valid(now)
      ensures Judged(env, old(ledger.Current()), c, p, now, error, ledger.Current())
      ensures old(AW.Sound(World())) ==> AW.Sound(World())
      ensures Timed(old(ledger.Current()), now, env.params) ==> Timed(ledger.Current(), now, env.params)
      ensures Timed(old(ledger.Current()), now, env.params) && env.params.challengeWindow >= 0 ==>
        DecidedByHistory(env, old(ledger.Current()), c, p, now, error.None?)
      ensures error.None? ==>
        env.client.Some? && env.price.Some? && Stands(env, old(ledger.Current()), ledger.Current(), c, p, now)
    {
      LaunchedNotDeleted(registry.Current(), ledger.Current(), pools.pools, c, now);
      error := Judge(env, c, p, now);
      TimedVerdict(env, old(ledger.Current()), ledger.Current(), error, c, p, now);
      JudgedConsistent(env, registry.Current(), old(ledger.Current()), ledger.Current(), pools.pools, error, c, p, now);
      if old(AW.Sound(World())) {
        JudgedSound(env, old(ledger.Current()), ledger.Current(), keys.reverse, error, c, p, now);
      }
    }

    /** The judgement touches the ledger alone. */
    method Judge(env: Surroundings, c: ConsumerId, p: EvidencePacket, now: Time) returns (error: Option<EvidenceError>)
      requires Separate() && Inv(ledger.Current()) && c !in ledger.deleted
      requires env.client.Some? ==> AscendingStates(env.client.value.states)
      modifies ledger
      ensures Inv(ledger.Current()) && Judged(env, old(ledger.Current()), c, p, now, error, ledger.Current())
      ensures error.None? ==>
        env.client.Some? && env.price.Some? && Stands(env, old(ledger.Current()), ledger.Current(), c, p, now)
      ensures registry.Current() == old(registry.Current()) && pools.pools == old(pools.pools)
    {
      error := ledger.HandleConsumerDowntime(env, c, p, now);
    }

    lemma NotCredible(env: Surroundings, s: State, c: ConsumerId, p: EvidencePacket, now: Time)
      requires !env.launched
      ensures !Admissible(env, s, c, p, now)
    {
    }

    /**
     * A challenge pauses the consumer exactly when it is about a pending slash that reports the height as
     * missed, and its header, commit and signature check out.
     */
    method HandleChallengeConsumerDowntime(
      c: ConsumerId, accused: Address, height: int, verified: bool, now: Time, maxPause: Time,
      payees: map<Address, Address>, sends: set<Address>) returns (ok: bool, found: Option<WindowKey>)
      requires Valid(now)
      modifies registry, registry.autoStops, ledger, pools
      ensures Valid(now) && L.Legal(old(registry.phases), registry.phases)
      ensures Challenged(old(ledger.pending), c, K.Resolves(keys.reverse, c, accused), accused, height, found)
      ensures ok == (verified && Reported(old(ledger.pending), found, height))
      ensures OnlyAbout(old(ledger.pending), Pair(c, K.Resolves(keys.reverse, c, accused)), height, found)
      ensures ok ==> registry.Current() == L.Pause(old(registry.Current()), c, L.DowntimeChallenge, now, maxPause)
                     && ledger.Current() == Cancel(old(ledger.Current()), c)
      ensures ok ==> registry.phases == old(registry.phases)[c := L.Paused]
                     && PausedFor(c, L.DowntimeChallenge, now, maxPause)
      ensures ok ==> RepaidInFull(old(pools.PoolOf(c)), pools.PoolOf(c), old(pools.accounts), pools.accounts, payees,
                                  sends, now)
      ensures ok ==> FK.MadeWhole(old(pools.PoolOf(c)), pools.PoolOf(c).balance, old(pools.accounts), pools.accounts,
                                  payees, sends, now)
      ensures !ok ==> registry.Current() == old(registry.Current()) && ledger.Current() == old(ledger.Current())
                      && pools.pools == old(pools.pools) && pools.accounts == old(pools.accounts)
      ensures StaysTimed(old(ledger.Current()), ledger.Current(), now)
    {
      var proven;
      found, proven := Proves(c, accused, height, verified);
      if !proven {
        return false, found;
      }
      PendingLaunched(registry.Current(), ledger.Current(), pools.pools, found.value, now);
      ok := PauseConsumerChain(c, L.DowntimeChallenge, now, maxPause, payees, sends);
    }

    /** The checks of a challenge. */
    method Proves(c: ConsumerId, accused: Address, height: int, verified: bool)
      returns (found: Option<WindowKey>, proven: bool)
      requires Inv(ledger.Current())
      ensures Challenged(ledger.pending, c, K.Resolves(keys.reverse, c, accused), accused, height, found)
      ensures proven == (verified && Reported(ledger.pending, found, height))
      ensures OnlyAbout(ledger.pending, Pair(c, K.Resolves(keys.reverse, c, accused)), height, found)
    {
      found := ledger.FindPendingDowntimeSlashContaining(c, K.Resolves(keys.reverse, c, accused), accused, height);
      FindsOnly(ledger.Current(), c, K.Resolves(keys.reverse, c, accused), accused, height, found);
      if found.None? {
        return found, false;
      }
      var slash := ledger.pending[found.value];
      if !BitmapIsSet(slash.bitmap, height - slash.start) {
        return found, false;
      }
      if !verified {
        return found, false;
      }
      proven := true;
    }

    // Rotation of a validator's provider key, onto an address nothing is recorded under.

    /** One consumer's part: windows, slashes and floor with the key assignment, mark and escrow in any case. */
    method RotateOnConsumer(c: ConsumerId, hasKey: bool, oldAddr: Address, newAddr: Address, ghost now: Time)
      requires Valid(now) && oldAddr != newAddr && (hasKey ==> Fresh(ledger.Current(), Pair(c, newAddr)))
      modifies ledger, pools
      ensures Valid(now) && ledger.Current() == RotateOne(old(ledger.Current()), c, hasKey, oldAddr, newAddr)
      ensures Changes(old(pools.pools), pools.pools, c, MovesRecord(oldAddr, newAddr)(PoolIn(old(pools.pools), c)))
    {
      ghost var b, s, was := registry.Current(), ledger.Current(), pools.pools;
      RotateInOrder(c, hasKey, oldAddr, newAddr);
      RotatedConsistent(b, s, ledger.Current(), was, pools.pools, c, hasKey, oldAddr, newAddr, now);
    }

    method RotateInOrder(c: ConsumerId, hasKey: bool, oldAddr: Address, newAddr: Address)
      requires Separate() && pools.Valid() && oldAddr != newAddr
      requires (hasKey ==> Fresh(ledger.Current(), Pair(c, newAddr)))
      modifies ledger, pools
      ensures pools.Valid() && ledger.Current() == RotateOne(old(ledger.Current()), c, hasKey, oldAddr, newAddr)
      ensures Changes(old(pools.pools), pools.pools, c, MovesRecord(oldAddr, newAddr)(PoolIn(old(pools.pools), c)))
    {
      if hasKey {
        ledger.MigrateDowntimeAcceptance(c, oldAddr, newAddr);
      }
      ledger.MigrateMark(Pair(c, oldAddr), Pair(c, newAddr));
      MoveRecord(c, oldAddr, newAddr);
    }

    method MoveRecord(c: ConsumerId, oldAddr: Address, newAddr: Address)
      requires pools.Valid() && oldAddr != newAddr
      modifies pools
      ensures pools.Valid()
      ensures Changes(old(pools.pools), pools.pools, c, MovesRecord(oldAddr, newAddr)(PoolIn(old(pools.pools), c)))
    {
      pools.MigrateWithheldRecord(c, oldAddr, newAddr);
      assert forall d :: PoolIn(pools.pools, d) == pools.PoolOf(d);
    }

    /** The consumers that are not deleted, in order. */
    method NonDeletedConsumerIds() returns (ids: seq<ConsumerId>)
      ensures forall c :: c in ids <==> c in registry.phases && registry.phases[c] != L.Deleted
      ensures Q.Unique(ids)
    {
      var order := Ordering.Iterate(registry.phases.Keys);
      ids := [];
      for i := 0 to |order|
        invariant forall c :: c in ids <==> c in order[..i] && c in registry.phases && registry.phases[c] != L.Deleted
        invariant forall j, k :: 0 <= j < k < |ids| ==> ids[j] != ids[k]
      {
        assert order[..i + 1] == order[..i] + [order[i]];
        assert order[i] in Ordering.Elements(order) && order[i] !in order[..i];
        if registry.phases[order[i]] != L.Deleted {
          ids := ids + [order[i]];
        }
      }
      assert order[..|order|] == order;
      forall c | c in registry.phases && registry.phases[c] != L.Deleted ensures c in ids {
        assert c in Ordering.Elements(order);
      }
    }

    /** The consumers on which the validator at the address has an assigned key. */
    ghost function Keyed(addr: Address): set<ConsumerId>
      reads keys
    {
      set p | p in keys.consumerKeys && p.addr == addr :: p.consumer
    }

    /**
     * Everything recorded about the validator at the old address follows it to the new one, on every consumer
     * that is not deleted: marks and withheld records on all, the rest where it has an assigned key.
     */
    method MigrateStateOnConsPubKeyRotation(
      oldAddr: Address, newAddr: Address, ghost now: Time) returns (ids: seq<ConsumerId>)
      requires Valid(now) && keys.Valid() && oldAddr != newAddr && AllFresh(ledger.Current(), Keyed(oldAddr), newAddr)
      modifies ledger, pools, keys
      ensures Valid(now) && keys.Valid()
      ensures Q.Unique(ids) && forall c :: c in ids <==> c in registry.phases && registry.phases[c] != L.Deleted
      ensures RotatedTo(old(ledger.Current()), old(keys.Current()), old(pools.pools), ledger.Current(), keys.Current(),
                        pools.pools, ids, old(Keyed(oldAddr)), oldAddr, newAddr)
      ensures old(AW.Filed(World())) ==>
        var s, reverse := old(ledger.Current()), old(keys.reverse);
        (AW.Filed(World()) <==> AllRotateFaithfully(s, reverse, ids, old(Keyed(oldAddr)), oldAddr))
      ensures AccusationsFollowed(old(ledger.Current()), ledger.Current(), Living(registry.phases),
                                  Living(registry.phases) * old(Keyed(oldAddr)), oldAddr, newAddr)
      ensures RecordsFollowed(old(pools.pools), pools.pools, registry.phases, oldAddr, newAddr)
      ensures K.KeysFollow(old(keys.Current()), keys.Current(), Living(registry.phases) * old(Keyed(oldAddr)), oldAddr,
                           newAddr)
      ensures StaysTimed(old(ledger.Current()), ledger.Current(), now)
    {
      ghost var s, k, was, keyed := ledger.Current(), keys.Current(), pools.pools, Keyed(oldAddr);
      ids := RotateState(oldAddr, newAddr, now);
      RotationEffects(s, k, was, ledger.Current(), keys.Current(), pools.pools, ids, keyed, oldAddr, newAddr,
                      registry.phases, now);
    }

    /** The loop over the consumers. */
    method RotateState(oldAddr: Address, newAddr: Address, ghost now: Time) returns (ids: seq<ConsumerId>)
      requires Valid(now) && keys.Valid() && oldAddr != newAddr && AllFresh(ledger.Current(), Keyed(oldAddr), newAddr)
      modifies ledger, pools, keys
      ensures Valid(now) && keys.Valid()
      ensures Q.Unique(ids) && forall c :: c in ids <==> c in registry.phases && registry.phases[c] != L.Deleted
      ensures RotatedTo(old(ledger.Current()), old(keys.Current()), old(pools.pools), ledger.Current(), keys.Current(),
                        pools.pools, ids, old(Keyed(oldAddr)), oldAddr, newAddr)
      ensures old(AW.Filed(World())) ==>
        var s, reverse := old(ledger.Current()), old(keys.reverse);
        (AW.Filed(World()) <==> AllRotateFaithfully(s, reverse, ids, old(Keyed(oldAddr)), oldAddr))
    {
      ids := NonDeletedConsumerIds();
      ghost var s, keyed, k, was := ledger.Current(), Keyed(oldAddr), keys.Current(), pools.pools;
      forall c ensures c in keyed <==> Pair(c, oldAddr) in k.consumerKeys {
        KeyedAt(c, oldAddr, k.consumerKeys, keyed);
      }
      RotatedNone(s, k, was, keyed, oldAddr, newAddr);
      if AW.Filed(World()) {
        RotationFiled(s, k.reverse, ids, keyed, oldAddr, newAddr);
      }
      RotateEach(ids, s, k, was, keyed, oldAddr, newAddr, now);
    }

    /**
     * Assigns a consumer key. The windows accepted so far stay findable exactly when none of them accused the
     * key's address before, nor the one dropped with it, unless that is the provider address itself.
     */
    method AssignConsumerKey(
      c: ConsumerId, provider: Address, key: K.ConsumerKey, claimed: bool, holder: Option<Address>, pruneAt: Time,
      ghost now: Time)
      returns (ok: bool)
      requires Valid(now) && keys.Valid()
      modifies keys
      ensures Valid(now) && keys.Valid()
      ensures ok
           <==> K.Assignable(old(keys.consumerKeys), old(keys.reverse), c, provider, key, Active(c), claimed, holder)
      ensures ok <==>
        && c in registry.phases && registry.phases[c] != L.Stopped && registry.phases[c] != L.Deleted && !claimed
        && (holder == None || (holder == Some(provider) && Pair(c, provider) in old(keys.consumerKeys)))
        && Pair(c, K.AddrOf(key)) !in old(keys.reverse)
      ensures ok ==> keys.consumerKeys == old(keys.consumerKeys)[Pair(c, provider) := key]
                     && Pair(c, K.AddrOf(key)) in keys.reverse && keys.reverse[Pair(c, K.AddrOf(key))] == provider
      ensures ok ==> K.Replaces(old(keys.Current()), keys.Current(), c, provider, key, Served(c), pruneAt)
      ensures !ok ==> keys.Current() == old(keys.Current())
      ensures ok && old(AW.Sound(World())) ==>
        var s, dropped := ledger.Current(), K.Dropped(old(keys.consumerKeys), c, provider, Served(c));
        var safe := dropped.Some? ==> AW.Unmoved(s, c, dropped.value, provider);
        (AW.Filed(World()) <==> AW.Unmoved(s, c, K.AddrOf(key), provider) && safe)
    {
      ghost var w, dropped := World(), K.Dropped(keys.consumerKeys, c, provider, Served(c));
      ok := keys.AssignConsumerKey(c, provider, key, Active(c), Served(c), claimed, holder, pruneAt);
      if ok && AW.Sound(w) {
        AW.RemappedFiled(w, keys.reverse);
        AW.AssignmentFindable(w.s, w.reverse, c, dropped, K.AddrOf(key), provider);
      }
    }

    /**
     * Forgets the launched consumers' superseded addresses whose time has come. The windows accepted so far stay
     * findable exactly when none of them accused one of these addresses that did not resolve to itself.
     */
    method EndBlockPruneKeyAssignments(now: Time)
      requires Valid(now) && keys.Valid()
      modifies keys
      ensures Valid(now) && keys.Valid()
      ensures keys.reverse == old(keys.reverse) - DueOfLaunched(old(keys.toPrune), now)
      ensures keys.toPrune == old(keys.toPrune) - DueOfLaunched(old(keys.toPrune), now)
      ensures forall t :: t in old(keys.reverse) ==>
        (t !in keys.reverse <==>
           t in old(keys.toPrune) && old(keys.toPrune)[t] <= now && L.InPhase(registry.phases, t.consumer, L.Launched))
      ensures forall t :: t in keys.reverse ==> t in old(keys.reverse) && keys.reverse[t] == old(keys.reverse)[t]
      ensures old(AW.Sound(World())) ==> (AW.Filed(World()) <==>
        forall t :: t in DueOfLaunched(old(keys.toPrune), now)
          ==> AW.Unmoved(ledger.Current(), t.consumer, t.addr, old(keys.reverse)[t]))
    {
      ghost var w, due := World(), DueOfLaunched(keys.toPrune, now);
      PruneEach(now);
      if AW.Sound(w) {
        AW.RemappedFiled(w, keys.reverse);
        AW.PruningFindable(w.s, w.reverse, due);
      }
    }

    ghost function DueOfLaunched(toPrune: map<Pair, Time>, now: Time): set<Pair>
      reads registry
    {
      K.DueToPrune(toPrune, InPhaseSet(registry.phases, L.Launched), now)
    }

    method PruneEach(now: Time)
      requires keys.Valid()
      modifies keys
      ensures keys.Valid()
      ensures keys.reverse == old(keys.reverse) - DueOfLaunched(old(keys.toPrune), now)
      ensures keys.toPrune == old(keys.toPrune) - DueOfLaunched(old(keys.toPrune), now)
    {
      var ids := registry.GetAllLaunchedConsumerIds();
      ghost var reverse, toPrune := keys.reverse, keys.toPrune;
      ghost var done: set<ConsumerId> := {};
      for i := 0 to |ids|
        invariant keys.Valid() && done == Q.Ids(ids[..i])
        invariant keys.reverse == reverse - K.DueToPrune(toPrune, done, now)
        invariant keys.toPrune == toPrune - K.DueToPrune(toPrune, done, now)
      {
        K.PrunedNext(reverse, toPrune, done, ids[i], now);
        keys.PruneKeyAssignments(ids[i], now);
        IdsFrom(ids, i);
        done := done + {ids[i]};
      }
      AllOf(ids);
      assert done == InPhaseSet(registry.phases, L.Launched);
    }

    /** Launched or paused: the consumer still runs a validator set. */
    predicate Served(c: ConsumerId)
      reads registry
    {
      c in registry.phases && (registry.phases[c] == L.Launched || registry.phases[c] == L.Paused)
    }

    /** Registered, initialized, launched or paused. */
    predicate Active(c: ConsumerId)
      reads registry
    {
      c in registry.phases && registry.phases[c] != L.Stopped && registry.phases[c] != L.Deleted
    }

    ghost predicate RotatedSoFar(
      s: State, k: K.KeyState, was: map<ConsumerId, F.Pool>, done: seq<ConsumerId>, keyed: set<ConsumerId>,
      oldAddr: Address, newAddr: Address, now: Time)
      reads registry, registry.launches, registry.removals, registry.autoStops, ledger, pools, keys
    {
      && Valid(now) && keys.Valid()
      && RotatedTo(s, k, was, ledger.Current(), keys.Current(), pools.pools, done, keyed, oldAddr, newAddr)
    }

    method RotateEach(
      ids: seq<ConsumerId>, ghost s: State, ghost k: K.KeyState, ghost was: map<ConsumerId, F.Pool>,
      ghost keyed: set<ConsumerId>, oldAddr: Address, newAddr: Address, ghost now: Time)
      requires oldAddr != newAddr && AllFresh(s, keyed, newAddr) && KeyedBy(k, oldAddr, keyed) && K.Labelled(k.members)
      requires Q.Unique(ids)
      requires RotatedSoFar(s, k, was, [], keyed, oldAddr, newAddr, now)
      modifies ledger, pools, keys
      ensures RotatedSoFar(s, k, was, ids, keyed, oldAddr, newAddr, now)
    {
      var i := 0;
      while i < |ids|
        invariant 0 <= i <= |ids|
        // stated as an equation, so that the verifier keeps the predicate folded
        invariant RotatedSoFar(s, k, was, ids[..i], keyed, oldAddr, newAddr, now) == true
      {
        TakeOneMore(ids, i);
        RotateNext(ids[i], s, k, was, ids[..i], keyed, oldAddr, newAddr, now);
        i := i + 1;
      }
      AllOf(ids);
    }

    method RotateNext(
      c: ConsumerId, ghost s: State, ghost k: K.KeyState, ghost was: map<ConsumerId, F.Pool>,
      ghost done: seq<ConsumerId>, ghost keyed: set<ConsumerId>, oldAddr: Address, newAddr: Address, ghost now: Time)
      requires oldAddr != newAddr && AllFresh(s, keyed, newAddr) && c !in done && KeyedBy(k, oldAddr, keyed)
      requires K.Labelled(k.members)
      requires RotatedSoFar(s, k, was, done, keyed, oldAddr, newAddr, now)
      modifies ledger, pools, keys
      ensures RotatedSoFar(s, k, was, done + [c], keyed, oldAddr, newAddr, now)
    {
      ghost var s', k', pools' := ledger.Current(), keys.Current(), pools.pools;
      StillKeyed(k, Q.Ids(done) * keyed, keyed, c, oldAddr, newAddr);
      var hasKey := MigrateKey(c, oldAddr, newAddr);
      if c in keyed {
        StillFresh(s, done, keyed, oldAddr, newAddr, c);
      }
      RotateOnConsumer(c, hasKey, oldAddr, newAddr, now);
      RotatedNext(s, k, was, s', k', pools', done, keyed, oldAddr, newAddr, c, ledger.Current(), keys.Current(),
                  pools.pools);
    }

    lemma KeyedAt(c: ConsumerId, oldAddr: Address, assignments: map<Pair, K.ConsumerKey>, keyed: set<ConsumerId>)
      requires keyed == set p | p in assignments && p.addr == oldAddr :: p.consumer
      ensures c in keyed <==> Pair(c, oldAddr) in assignments
    {
      if Pair(c, oldAddr) in assignments {
        assert Pair(c, oldAddr).consumer == c;
      }
    }

    /** The key assignment, its mappings and, where there is one, the stored member. */
    method MigrateKey(c: ConsumerId, oldAddr: Address, newAddr: Address) returns (hasKey: bool)
      requires keys.Valid() && oldAddr != newAddr
      modifies keys
      ensures keys.Valid() && (hasKey <==> Pair(c, oldAddr) in old(keys.consumerKeys))
      ensures keys.Current()
           == if hasKey then K.Migrated(old(keys.Current()), {c}, oldAddr, newAddr) else old(keys.Current())
    {
      K.MigratedOne(keys.Current(), c, oldAddr, newAddr);
      hasKey := keys.MigrateKeyAssignment(c, oldAddr, newAddr);
      if hasKey {
        keys.MigrateConsumerValidator(c, oldAddr, newAddr);
      }
    }

    // The block boundary.

    /** A consistent state with the given ids taken off the queues, reached legally from the phases before. */
    ghost predicate Working(
      now: Time, before: L.Phases, launching: set<ConsumerId>, removing: set<ConsumerId>, stopping: set<ConsumerId>)
      reads registry, registry.launches, registry.removals, registry.autoStops, ledger, pools
    {
      && Valid(now) && L.Legal(before, registry.phases)
      && registry.launching == launching && registry.removing == removing && registry.stopping == stopping
    }

    ghost predicate LaunchedSoFar(
      b: L.Book, acks: map<ConsumerId, Time>, launchable: set<ConsumerId>, done: set<ConsumerId>, now: Time)
      reads registry, registry.launches, registry.removals, registry.autoStops
    {
      LaunchedTo(b, acks, registry.Current(), registry.lastAcks, launchable, done, now)
    }

    method LaunchNext(
      c: ConsumerId, launchable: set<ConsumerId>, now: Time, ghost before: L.Phases, ghost rest: set<ConsumerId>,
      ghost b: L.Book, ghost acks: map<ConsumerId, Time>, ghost done: set<ConsumerId>)
      requires Working(now, before, {c} + rest, {}, {}) && c !in rest && c !in done
      requires LaunchedSoFar(b, acks, launchable, done, now)
      modifies registry
      ensures Working(now, before, rest, {}, {}) && LaunchedSoFar(b, acks, launchable, done + {c}, now)
    {
      ghost var b', acks' := registry.Current(), registry.lastAcks;
      LaunchingKnown(b', c);
      registry.LaunchConsumer(c, c in launchable, now);
      LaunchedConsistent(b', registry.Current(), ledger.Current(), pools.pools, c, c in launchable, before, now);
      LaunchedNext(b, acks, b', acks', launchable, done, now, c, registry.Current(), registry.lastAcks);
    }

    /** Launches the consumers whose spawn time has come, as many as a block takes. */
    method BeginBlockLaunchConsumers(now: Time, launchable: set<ConsumerId>, ghost before: L.Phases)
      requires Working(now, before, {}, {}, {})
      modifies registry, registry.launches
      ensures Working(now, before, {}, {}, {})
      ensures LaunchedSoFar(old(registry.Current()), old(registry.lastAcks), launchable,
                            DueToLaunch(old(registry.Current()), now), now)
    {
      ghost var b, acks := registry.Current(), registry.lastAcks;
      LaunchesConsistent(b, ledger.Current(), pools.pools, now);
      var ids := registry.FetchLaunches(now);
      NothingYet(b, registry.Current());
      var i := 0;
      IdsFromStart(ids);
      while i < |ids|
        invariant 0 <= i <= |ids| && Q.Unique(ids)
        invariant Working(now, before, Q.Ids(ids[i..]), {}, {})
        invariant LaunchedSoFar(b, acks, launchable, Q.Ids(ids[..i]), now)
      {
        IdsFrom(ids, i);
        LaunchNext(ids[i], launchable, now, before, Q.Ids(ids[i + 1..]), b, acks, Q.Ids(ids[..i]));
        i := i + 1;
      }
      AllOf(ids);
    }

    ghost predicate RemovedSoFar(
      b: L.Book, acks: map<ConsumerId, Time>, s: State, was: map<ConsumerId, F.Pool>, k: K.KeyState,
      done: set<ConsumerId>)
      reads registry, registry.launches, registry.removals, registry.autoStops, ledger, pools, keys
    {
      && RemovedTo(b, acks, s, was, registry.Current(), registry.lastAcks, ledger.Current(), pools.pools, done)
      && keys.Current() == K.Forgotten(k, done)
    }

    method DeleteNext(
      c: ConsumerId, now: Time, ghost before: L.Phases, ghost rest: set<ConsumerId>, ghost b: L.Book,
      ghost acks: map<ConsumerId, Time>, ghost s: State, ghost was: map<ConsumerId, F.Pool>, ghost k: K.KeyState,
      ghost done: set<ConsumerId>)
      requires Working(now, before, {}, {c} + rest, {}) && c !in rest && c !in done
      requires RemovedSoFar(b, acks, s, was, k, done)
      modifies registry, registry.launches, ledger, pools, keys
      ensures Working(now, before, {}, rest, {}) && RemovedSoFar(b, acks, s, was, k, done + {c})
    {
      ghost var b', acks', phases := registry.Current(), registry.lastAcks, registry.phases;
      ghost var s', pools' := ledger.Current(), pools.pools;
      RemovingDeletable(b', c);
      DeletableKnown(b', c);
      DeleteConsumerChain(c, now);
      L.LegalTransitive(before, phases, registry.phases);
      K.ForgottenNext(k, done, c);
      RemovedNext(b, acks, s, was, b', acks', s', pools', done, c, registry.Current(), registry.lastAcks,
                  ledger.Current(), pools.pools);
    }

    /** Deletes the consumers whose removal time has come, as many as a block takes. */
    method BeginBlockRemoveConsumers(now: Time, ghost before: L.Phases)
      requires Working(now, before, {}, {}, {})
      modifies registry, registry.launches, registry.removals, ledger, pools, keys
      ensures Working(now, before, {}, {}, {})
      ensures RemovedSoFar(old(registry.Current()), old(registry.lastAcks), old(ledger.Current()), old(pools.pools),
                           old(keys.Current()), DueToRemove(old(registry.Current()), now))
    {
      ghost var b, acks, s, was := registry.Current(), registry.lastAcks, ledger.Current(), pools.pools;
      RemovalsConsistent(b, s, was, now);
      ghost var k := keys.Current();
      K.ForgottenNone(k);
      var ids := registry.FetchRemovals(now);
      NothingDone(b, s, was, registry.Current(), now);
      var i := 0;
      IdsFromStart(ids);
      while i < |ids|
        invariant 0 <= i <= |ids| && Q.Unique(ids)
        invariant Working(now, before, {}, Q.Ids(ids[i..]), {})
        invariant RemovedSoFar(b, acks, s, was, k, Q.Ids(ids[..i]))
      {
        IdsFrom(ids, i);
        DeleteNext(ids[i], now, before, Q.Ids(ids[i + 1..]), b, acks, s, was, k, Q.Ids(ids[..i]));
        i := i + 1;
      }
      AllOf(ids);
    }

    ghost predicate PausedSoFar(b: L.Book, s: State, was: map<ConsumerId, F.Pool>, block: Block, done: set<ConsumerId>)
      reads registry, registry.launches, registry.removals, registry.autoStops, ledger, pools
    {
      PausedTo(b, s, was, registry.Current(), ledger.Current(), pools.pools, block, done)
    }

    /** A pause over a frozen client, under the block's clock and parameters. */
    method PauseInBlock(c: ConsumerId, block: Block)
      requires Valid(block.now) && L.InPhase(registry.phases, c, L.Launched)
      modifies registry, registry.autoStops, ledger, pools
      ensures Valid(block.now) && L.Legal(old(registry.phases), registry.phases)
      ensures registry.Current() == L.Pause(old(registry.Current()), c, L.LightClientAttack, block.now, block.maxPause)
      ensures ledger.Current() == Cancel(old(ledger.Current()), c) && registry.lastAcks == old(registry.lastAcks)
      ensures Changes(old(pools.pools), pools.pools, c, Repays(block)(PoolIn(old(pools.pools), c)))
    {
      var paused := PauseConsumerChain(c, L.LightClientAttack, block.now, block.maxPause, block.payees, block.sends);
    }

    method PauseFrozen(
      c: ConsumerId, block: Block, ghost before: L.Phases, ghost b: L.Book, ghost s: State,
      ghost was: map<ConsumerId, F.Pool>, ghost done: set<ConsumerId>)
      requires Working(block.now, before, {}, {}, {}) && L.InPhase(registry.phases, c, L.Launched)
      requires PausedSoFar(b, s, was, block, done) && c !in done
      modifies registry, registry.autoStops, ledger, pools
      ensures Working(block.now, before, {}, {}, {}) && PausedSoFar(b, s, was, block, done + {c})
      ensures registry.lastAcks == old(registry.lastAcks)
    {
      ghost var b', s', pools', phases := registry.Current(), ledger.Current(), pools.pools, registry.phases;
      PauseInBlock(c, block);
      L.LegalTransitive(before, phases, registry.phases);
      PausedNext(b, s, was, b', s', pools', block, done, c, registry.Current(), ledger.Current(), pools.pools);
    }

    method PauseIfFrozen(
      c: ConsumerId, block: Block, ghost before: L.Phases, ghost b: L.Book, ghost s: State,
      ghost was: map<ConsumerId, F.Pool>, ghost done: set<ConsumerId>)
      requires Working(block.now, before, {}, {}, {}) && L.InPhase(b.phases, c, L.Launched)
      requires PausedSoFar(b, s, was, block, done * block.frozen) && c !in done
      modifies registry, registry.autoStops, ledger, pools
      ensures Working(block.now, before, {}, {}, {})
      ensures PausedSoFar(b, s, was, block, (done + {c}) * block.frozen)
      ensures registry.lastAcks == old(registry.lastAcks)
    {
      ActsNext(done, block.frozen, c);
      MovedElsewhere(b.phases, done * block.frozen, L.Paused, c);
      if c in block.frozen {
        PauseFrozen(c, block, before, b, s, was, done * block.frozen);
      }
    }

    /** Pauses every launched consumer whose client was frozen. */
    method PauseConsumersWithFrozenClients(block: Block, ghost before: L.Phases)
      requires Working(block.now, before, {}, {}, {})
      modifies registry, registry.autoStops, ledger, pools
      ensures Working(block.now, before, {}, {}, {}) && registry.lastAcks == old(registry.lastAcks)
      ensures PausedSoFar(old(registry.Current()), old(ledger.Current()), old(pools.pools), block,
                          FrozenIn(old(registry.phases), block))
    {
      ghost var b, s, was := registry.Current(), ledger.Current(), pools.pools;
      NothingDone(b, s, was, b, block.now);
      var ids := registry.GetAllLaunchedConsumerIds();
      IdsFromStart(ids);
      ActsOnNone(block.frozen);
      var i := 0;
      while i < |ids|
        invariant 0 <= i <= |ids|
        invariant Working(block.now, before, {}, {}, {}) && registry.lastAcks == old(registry.lastAcks)
        invariant PausedSoFar(b, s, was, block, Q.Ids(ids[..i]) * block.frozen)
      {
        IdsFrom(ids, i);
        PauseIfFrozen(ids[i], block, before, b, s, was, Q.Ids(ids[..i]));
        i := i + 1;
      }
      ActedOn(ids, b.phases, block.frozen);
    }

    ghost predicate StoppedSoFar(b: L.Book, s: State, removalTime: Time, done: set<ConsumerId>)
      reads registry, registry.launches, registry.removals, registry.autoStops, ledger
    {
      StoppedTo(b, s, registry.Current(), ledger.Current(), removalTime, done)
    }

    method StopNext(
      c: ConsumerId, now: Time, removalTime: Time, ghost before: L.Phases, ghost rest: set<ConsumerId>, ghost b: L.Book,
      ghost s: State, ghost done: set<ConsumerId>)
      requires Working(now, before, {}, {}, registry.stopping) && registry.stopping - {c} == rest
      requires L.Running(registry.Current(), c) && StoppedSoFar(b, s, removalTime, done)
      modifies registry, registry.removals, registry.autoStops, ledger
      ensures Working(now, before, {}, {}, rest) && StoppedSoFar(b, s, removalTime, done + {c})
      ensures registry.lastAcks == old(registry.lastAcks)
      ensures L.InPhase(old(registry.phases), c, L.Launched) ==>
        registry.autoStops.buckets == old(registry.autoStops.buckets)
    {
      ghost var b', s', phases := registry.Current(), ledger.Current(), registry.phases;
      StopConsumerChain(c, removalTime, now);
      if L.InPhase(phases, c, L.Launched) {
        StopLeavesLine(b', registry.Current(), c, removalTime);
      }
      StoppedNext(b, s, b', s', removalTime, done, c, registry.Current(), ledger.Current());
      L.LegalTransitive(before, phases, registry.phases);
    }

    method StopIfSilent(
      c: ConsumerId, block: Block, ghost before: L.Phases, ghost silent: set<ConsumerId>, ghost b: L.Book,
      ghost s: State, ghost done: set<ConsumerId>)
      requires Working(block.now, before, {}, {}, {}) && L.InPhase(b.phases, c, L.Launched) && c !in done
      requires silent == Silent(b.phases, registry.lastAcks, block.now, block.grace)
      requires StoppedSoFar(b, s, RemovalTime(block), done * silent)
      modifies registry, registry.removals, registry.autoStops, ledger
      ensures Working(block.now, before, {}, {}, {})
      ensures StoppedSoFar(b, s, RemovalTime(block), (done + {c}) * silent)
      ensures registry.autoStops.buckets == old(registry.autoStops.buckets)
      ensures registry.lastAcks == old(registry.lastAcks)
    {
      ActsNext(done, silent, c);
      MovedElsewhere(b.phases, done * silent, L.Stopped, c);
      if block.now - LastAck(registry.lastAcks, c, block.now) > block.grace {
        StopNext(c, block.now, RemovalTime(block), before, {}, b, s, done * silent);
      }
    }

    /** Stops every launched consumer silent past the grace period. */
    method SweepUnresponsiveConsumers(block: Block, ghost before: L.Phases)
      requires Working(block.now, before, {}, {}, {})
      modifies registry, registry.removals, registry.autoStops, ledger
      ensures Working(block.now, before, {}, {}, {})
      ensures StoppedSoFar(old(registry.Current()), old(ledger.Current()), RemovalTime(block),
                           Silent(old(registry.phases), old(registry.lastAcks), block.now, block.grace))
      ensures registry.lastAcks == old(registry.lastAcks)
      ensures registry.autoStops.buckets == old(registry.autoStops.buckets)
    {
      ghost var b, s, acks := registry.Current(), ledger.Current(), registry.lastAcks;
      NothingDone(b, s, pools.pools, b, block.now);
      ghost var silent := Silent(registry.phases, acks, block.now, block.grace);
      var ids := registry.GetAllLaunchedConsumerIds();
      IdsFromStart(ids);
      ActsOnNone(silent);
      var i := 0;
      while i < |ids|
        invariant 0 <= i <= |ids|
        invariant Working(block.now, before, {}, {}, {}) && registry.lastAcks == acks
        invariant StoppedSoFar(b, s, RemovalTime(block), Q.Ids(ids[..i]) * silent)
        invariant registry.autoStops.buckets == b.autoStops
      {
        IdsFrom(ids, i);
        StopIfSilent(ids[i], block, before, silent, b, s, Q.Ids(ids[..i]));
        i := i + 1;
      }
      ActedOn(ids, b.phases, silent);
      SilentLaunched(b.phases, acks, block.now, block.grace);
    }

    method AutoStop(
      c: ConsumerId, block: Block, ghost before: L.Phases, ghost rest: set<ConsumerId>, ghost b: L.Book, ghost s: State,
      ghost done: set<ConsumerId>)
      requires Working(block.now, before, {}, {}, {c} + rest) && c !in rest
      requires StoppedSoFar(b, s, RemovalTime(block), done)
      modifies registry, registry.removals, registry.autoStops, ledger
      ensures Working(block.now, before, {}, {}, rest)
      ensures StoppedSoFar(b, s, RemovalTime(block), done + {c}) && registry.lastAcks == old(registry.lastAcks)
    {
      StoppingPaused(registry.Current(), c);
      if registry.phases[c] == L.Paused {
        StopNext(c, block.now, RemovalTime(block), before, rest, b, s, done);
      }
    }

    /** Stops the consumers whose pause has outlived its limit, as many as a block takes. */
    method BeginBlockAutoStopPausedConsumers(block: Block, ghost before: L.Phases)
      requires Working(block.now, before, {}, {}, {})
      modifies registry, registry.removals, registry.autoStops, ledger
      ensures Working(block.now, before, {}, {}, {})
      ensures StoppedSoFar(old(registry.Current()), old(ledger.Current()), RemovalTime(block),
                           DueToStop(old(registry.Current()), block.now))
      ensures AllExpired(old(registry.Current()), block.now, DueToStop(old(registry.Current()), block.now))
      ensures registry.lastAcks == old(registry.lastAcks)
    {
      ghost var b, s := registry.Current(), ledger.Current();
      AutoStopsConsistent(b, s, pools.pools, block.now);
      var ids := registry.FetchAutoStops(block.now);
      NothingDone(b, s, pools.pools, registry.Current(), block.now);
      var i := 0;
      IdsFromStart(ids);
      while i < |ids|
        invariant 0 <= i <= |ids| && Q.Unique(ids)
        invariant Working(block.now, before, {}, {}, Q.Ids(ids[i..])) && registry.lastAcks == old(registry.lastAcks)
        invariant StoppedSoFar(b, s, RemovalTime(block), Q.Ids(ids[..i]))
      {
        IdsFrom(ids, i);
        AutoStop(ids[i], block, before, Q.Ids(ids[i + 1..]), b, s, Q.Ids(ids[..i]));
        i := i + 1;
      }
      AllOf(ids);
    }

    /** Executes the matured slashes that staking lets through; every one is of a consumer still launched. */
    method SweepPendingDowntimeSlashes(now: Time, goesThrough: set<WindowKey>) returns (run: seq<WindowKey>)
      requires Valid(now)
      modifies ledger, pools
      ensures Valid(now)
      ensures Runs(old(ledger.Current()), now, run) && ledger.Current() == Sweep(old(ledger.Current()), now, run)
      ensures forall k :: k in run <==> k in goesThrough && Executable(old(ledger.Current()), k, now)
      ensures forall k :: k in run ==> L.InPhase(registry.phases, k.pair.consumer, L.Launched)
      ensures SettledAll(old(pools.pools), pools.pools, run, ledger.pending)
      ensures forall params :: Timed(old(ledger.Current()), now, params) ==>
        && Timed(ledger.Current(), now, params)
        && NoticeServed(old(ledger.Current()), ledger.Current(), registry.phases, goesThrough, run, now,
                        params.challengeWindow)
      ensures Forfeited(old(pools.pools), pools.pools, run, ledger.pending)
    {
      ghost var b, s, was := registry.Current(), ledger.Current(), pools.pools;
      run := SweepInOrder(now, goesThrough);
      RunLaunched(b, s, was, run, now);
      SweptConsistent(b, s, ledger.Current(), was, pools.pools, run, now);
      AllSweptTimed(b, s, was, ledger.Current(), goesThrough, run, now);
      SettledForfeit(was, pools.pools, run, ledger.pending);
    }

    method SweepInOrder(now: Time, goesThrough: set<WindowKey>) returns (run: seq<WindowKey>)
      requires Separate() && pools.Valid() && Backed(ledger.Current())
      modifies ledger, pools
      ensures pools.Valid()
      ensures Runs(old(ledger.Current()), now, run) && ledger.Current() == Sweep(old(ledger.Current()), now, run)
      ensures forall k :: k in run <==> k in goesThrough && Executable(old(ledger.Current()), k, now)
      ensures SettledAll(old(pools.pools), pools.pools, run, ledger.pending)
    {
      var settled;
      run, settled := ledger.SweepPendingDowntimeSlashes(now, goesThrough);
      pools.DeleteSettledRecords(settled);
      assert settled == SettledPairs(run, ledger.pending);
    }

    method PruneEpochShareRecords(now: Time, olderThan: Time)
      requires Valid(now)
      modifies pools
      ensures Valid(now)
      ensures ChangesEvery(old(pools.pools), pools.pools, WithRunsSince(olderThan))
    {
      ghost var was := pools.pools;
      pools.PruneEpochShareRecords(olderThan);
      FewerRecordsConsistent(registry.Current(), ledger.Current(), was, pools.pools, now);
    }

    method SweepExpiredWithheldFeeRecords(now: Time)
      requires Valid(now)
      modifies pools
      ensures Valid(now)
      ensures ChangesEvery(old(pools.pools), pools.pools, WithUnexpired(now))
    {
      ghost var was := pools.pools;
      pools.SweepExpiredWithheldFeeRecords(now);
      FewerRecordsConsistent(registry.Current(), ledger.Current(), was, pools.pools, now);
    }

    method PruneAcceptedDowntimeWindows(now: Time, horizon: Time)
      requires Valid(now)
      modifies ledger
      ensures Valid(now) && ledger.Current() == Prune(old(ledger.Current()), now, horizon)
      ensures NothingStale(ledger.Current(), now, horizon)
    {
      ghost var b, s, was := registry.Current(), ledger.Current(), pools.pools;
      ledger.PruneAcceptedDowntimeWindows(now, horizon);
      PruneConsistent(b, s, ledger.Current(), was, now, horizon);
      PruneLeavesNothingStale(s, ledger.Current(), now, horizon);
    }

    method DistributeNext(c: ConsumerId, b: Block)
      requires Valid(b.now) && ValidBlock(b) && b.bonded != [] && L.InPhase(registry.phases, c, L.Launched)
      modifies pools
      ensures Valid(b.now)
      ensures Changes(old(pools.pools), pools.pools, c, Charged(PoolIn(old(pools.pools), c), c, b, ledger.marks, true))
    {
      ghost var was := pools.pools;
      PoolEscrowed(c, b.now);
      pools.PoolAccounted(c);
      pools.DistributeToOne(c, FeeOf(b, c), b.bonded, ledger.marks, c in b.feeSends, b.now, b.params.challengeWindow);
      DistributedConsistent(
        registry.Current(), ledger.Current(), was, pools.pools, c, FeeOf(b, c),
        FK.EligibleAccounts(b.bonded, c, ledger.marks), FK.ExcludedAddrs(b.bonded, c, ledger.marks), c in b.feeSends,
        b.now, b.params.challengeWindow);
    }

    /** Charges every launched consumer its epoch fee. */
    method DistributeConsumerFees(b: Block)
      requires Valid(b.now) && ValidBlock(b)
      modifies pools
      ensures Valid(b.now) && ChargedTo(old(pools.pools), pools.pools, b, ledger.marks, registry.phases, {})
      ensures AllCharged(old(pools.pools), pools.pools, b, ledger.marks, registry.phases)
    {
      ghost var was := pools.pools;
      ChargeEach(b);
      ChargedAll(was, pools.pools, b, ledger.marks, registry.phases);
    }

    method ChargeEach(b: Block)
      requires Valid(b.now) && ValidBlock(b)
      modifies pools
      ensures Valid(b.now) && ChargedTo(old(pools.pools), pools.pools, b, ledger.marks, registry.phases, {})
    {
      ghost var was := pools.pools;
      if b.bonded == [] {
        ChargedNobody(was, b, ledger.marks, registry.phases);
        return;
      }
      var ids := registry.GetAllLaunchedConsumerIds();
      IdsFromStart(ids);
      ChargedNone(was, b, ledger.marks, registry.phases, Q.Ids(ids));
      var i := 0;
      while i < |ids|
        invariant 0 <= i <= |ids| && Valid(b.now)
        invariant ChargedTo(was, pools.pools, b, ledger.marks, registry.phases, Q.Ids(ids[i..]))
      {
        ghost var pools' := pools.pools;
        IdsFrom(ids, i);
        DistributeNext(ids[i], b);
        ChargedNext(was, pools', b, ledger.marks, registry.phases, Q.Ids(ids[i..]), ids[i], pools.pools);
        i := i + 1;
      }
    }

    method ClearEpochDowntime(ghost now: Time)
      requires Valid(now)
      modifies ledger
      ensures Valid(now) && ledger.Current() == old(ledger.Current()).(marks := {})
    {
      ghost var b, s, was := registry.Current(), ledger.Current(), pools.pools;
      ledger.ClearEpochDowntime();
      MarksConsistent(b, s, ledger.Current(), was, now);
    }

    /** The lifecycle steps of a block, all before the slash sweep. */
    method MoveLifecycles(b: Block)
      requires Valid(b.now) && Idle() && ValidBlock(b)
      modifies registry, registry.launches, registry.removals, registry.autoStops, ledger, pools, keys
      ensures Valid(b.now) && Idle() && L.Legal(old(registry.phases), registry.phases)
      ensures keys.Current() == K.Forgotten(old(keys.Current()), DueToRemove(old(registry.Current()), b.now))
      ensures LifecyclesMoved(old(registry.Current()), old(registry.lastAcks), b, registry.phases)
      ensures Timeline(old(registry.Current()), registry.Current(), b.now, b.now + b.unbonding, b.maxPause)
      ensures registry.lastAcks == AcksAfterQueues(old(registry.Current()), old(registry.lastAcks), b)
      ensures ledger.Current() == Surviving(old(ledger.Current()), registry.phases)
      ensures EmptiedAndRepaid(old(registry.Current()), old(pools.pools), pools.pools, b)
    {
      ghost var before := registry.phases;
      assert Working(b.now, before, {}, {}, {}) by {
        LegalReflexive(before);
      }
      ghost var b0, acks0, s0, pools0 := registry.Current(), registry.lastAcks, ledger.Current(), pools.pools;
      BeginBlockLaunchConsumers(b.now, b.launchable, before);
      ghost var b1, acks1 := registry.Current(), registry.lastAcks;
      BeginBlockRemoveConsumers(b.now, before);
      ghost var b2, acks2, s2, pools2 := registry.Current(), registry.lastAcks, ledger.Current(), pools.pools;
      PauseConsumersWithFrozenClients(b, before);
      ghost var b3, s3 := registry.Current(), ledger.Current();
      SweepUnresponsiveConsumers(b, before);
      ghost var b4, s4 := registry.Current(), ledger.Current();
      BeginBlockAutoStopPausedConsumers(b, before);
      LifecyclesChain(b0, acks0, b1, acks1, b2, acks2, b3, b4, registry.phases, b);
      LedgerChain(b2, b3, b4, registry.Current(), acks2, b, DueToStop(b4, b.now), s0, s2, s3, s4, ledger.Current());
      EmptiedThenRepaid(b0, b2, pools0, pools2, pools.pools, b);
      BlockTimeline(b0, acks0, s0, pools0, b1, acks1, b2, acks2, s2, pools2, b3, s3, pools.pools, b4, s4,
                    registry.Current(), ledger.Current(), b, RemovalTime(b));
    }

    /**
     * One block: lifecycles move, then matured slashes execute, then bookkeeping ages out, and at an epoch's
     * end fees are distributed. What executes is exactly the matured slashes of the consumers still launched.
     */
    method BeginBlock(b: Block, ghost last: Time) returns (run: seq<WindowKey>)
      requires Valid(last) && last <= b.now && Idle() && ValidBlock(b)
      modifies registry, registry.launches, registry.removals, registry.autoStops, ledger, pools, keys
      ensures Valid(b.now) && Idle() && L.Legal(old(registry.phases), registry.phases)
      ensures keys.Current() == K.Forgotten(old(keys.Current()), DueToRemove(old(registry.Current()), b.now))
      ensures LifecyclesMoved(old(registry.Current()), old(registry.lastAcks), b, registry.phases)
      ensures Executes(old(ledger.Current()), ledger.Current(), registry.phases, b, run)
      ensures BlockPools(old(registry.Current()), old(ledger.Current()), old(pools.pools), pools.pools,
                         registry.phases, b, run)
      ensures old(keys.Valid()) ==> keys.Valid()
      ensures old(AW.Sound(World())) ==> AW.Sound(World())
      ensures Timed(old(ledger.Current()), last, b.params) ==>
        && Timed(ledger.Current(), b.now, b.params)
        && NoticeServed(old(ledger.Current()), ledger.Current(), registry.phases, b.goesThrough, run, b.now,
                        b.params.challengeWindow)
      ensures NothingStale(ledger.Current(), b.now, b.params.challengeWindow + b.params.maxAge)
      ensures Timeline(old(registry.Current()), registry.Current(), b.now, b.now + b.unbonding, b.maxPause)
      ensures b.grace >= 0 ==>
        && Fates(old(registry.Current()), old(registry.lastAcks), b, registry.phases)
        && AcksAfter(old(registry.lastAcks), registry.lastAcks, old(registry.phases), registry.phases, b.now)
        && PoolsAfter(old(pools.pools), pools.pools, old(registry.phases), registry.phases, b)
        && K.ErasedFrom(old(keys.Current()), keys.Current(), Removed(old(registry.phases), registry.phases))
    {
      ValidLater(last, b.now);
      ghost var book, acks, k := registry.Current(), registry.lastAcks, keys.Current();
      ghost var s, was := ledger.Current(), pools.pools;
      MoveLifecycles(b);
      ghost var left, moved := ledger.Current(), pools.pools;
      run := SweepPendingDowntimeSlashes(b.now, b.goesThrough);
      ghost var swept, settled := ledger.Current(), pools.pools;
      AgeAndPay(b);
      BlockExecutes(s, registry.phases, b, run, left, swept, ledger.Current());
      BlockLeavesNothingStale(swept, ledger.Current(), b);
      if Timed(s, last, b.params) {
        BlockTimed(s, left, swept, ledger.Current(), registry.phases, b, run, last);
      }
      BlockPoolsChain(book, s, was, moved, settled, pools.pools, registry.phases, b, run);
      RemovedStay(book, acks, b, registry.phases);
      if b.grace >= 0 {
        FatesDecided(book, acks, b, registry.phases);
        AcksAfterBlock(book, acks, registry.lastAcks, b, registry.phases);
        PoolsAfterBlock(book, acks, s, was, pools.pools, registry.phases, b, run);
        RemovedAreDue(book, acks, b, registry.phases);
        K.ForgottenErased(k, DueToRemove(book, b.now));
      }
      if old(keys.Valid()) {
        K.ForgottenInOrder(k, DueToRemove(book, b.now));
      }
      if old(AW.Sound(World())) {
        BlockSound(s, ledger.Current(), registry.phases, b, run, k.reverse, DueToRemove(book, b.now));
      }
    }

    /** The rest of the block touches neither phases nor queues. */
    method AgeAndPay(b: Block)
      requires Valid(b.now) && ValidBlock(b)
      modifies ledger, pools
      ensures Valid(b.now)
      ensures ledger.Current() == AgedLedger(old(ledger.Current()), b)
      ensures AgedAll(old(pools.pools), pools.pools, b, old(ledger.marks), registry.phases)
    {
      ghost var was, marks := pools.pools, ledger.marks;
      Age(b);
      ghost var aged := pools.pools;
      if b.epochEnds {
        DistributeConsumerFees(b);
        ClearEpochDowntime(b.now);
      }
      AgedThenCharged(was, aged, pools.pools, b, marks, registry.phases);
    }

    /** The three prunings. */
    method Age(b: Block)
      requires Valid(b.now)
      modifies ledger, pools
      ensures Valid(b.now)
      ensures ledger.Current() == Prune(old(ledger.Current()), b.now, Horizon(b))
      ensures ChangesEvery(old(pools.pools), pools.pools, Ages(b))
    {
      ghost var was := pools.pools;
      PruneEpochShareRecords(b.now, OldestRun(b));
      ghost var recent := pools.pools;
      SweepExpiredWithheldFeeRecords(b.now);
      AgesInTurn(was, recent, pools.pools, b);
      PruneAcceptedDowntimeWindows(b.now, Horizon(b));
    }
  }
}
