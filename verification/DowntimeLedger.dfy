/** The provider's downtime bookkeeping: acceptance, maturity, pruning, cancellation and re-keying, in place. */
module DowntimeLedger {
  import opened Common
  import opened Bitmaps
  import opened Wire
  import opened Accusations
  import AccusationRuns
  import K = KeyAssignment
  import Ordering

  datatype InfractionParams = InfractionParams(gracePeriod: Time, maxAge: Time, challengeWindow: Time)

  /** A consensus state stored by the consumer's client. */
  datatype Anchor = Anchor(height: int, time: Time)

  datatype Client = Client(states: seq<Anchor>, trustingPeriod: Option<Time>)

  /** What the handler reads from the rest of the chain about one consumer. */
  datatype Surroundings = Surroundings(
    launched: bool,
    acceptableParams: bool,
    minHeight: int,
    reverse: map<Pair, Address>,
    validators: set<Address>,
    live: map<Address, Address>,
    client: Option<Client>,
    spawnTime: Option<Time>,
    params: InfractionParams,
    shares: map<Time, int>,
    price: Option<int>)

  datatype EvidenceError =
    | Invalid | NotLaunched | UnacceptableParams | BelowThreshold | TooOld | NotInSet | NoClient | NotAnchored
    | NoInitParams | InGracePeriod | Stale | NoTrustingPeriod | NotChallengeable | BelowFloor | Intersects | Unpriced

  // Reading the surroundings.

  /** The address the consumer's set holds the accused under: the accused one, or the one rotated to. */
  function AccusedConsumerValidatorAddr(env: Surroundings, accused: Address): Address {
    if accused in env.validators then accused else Redirected(env.live, accused)
  }

  predicate AscendingStates(states: seq<Anchor>) {
    forall i, j :: 0 <= i < j < |states| ==> states[i].height < states[j].height
  }

  /** time is that of the highest state at or below the window end, and some state reaches it. */
  ghost predicate Anchors(states: seq<Anchor>, windowEnd: int, time: Time) {
    && (exists i :: 0 <= i < |states| && windowEnd <= states[i].height)
    && exists i :: 0 <= i < |states| && states[i].height <= windowEnd && states[i].time == time
         && forall j :: i < j < |states| ==> windowEnd < states[j].height
  }

  method WindowEndTimestamp(states: seq<Anchor>, windowEnd: int) returns (time: Option<Time>)
    requires AscendingStates(states)
    ensures time.Some? ==> Anchors(states, windowEnd, time.value)
    ensures time.None? ==> !exists t :: Anchors(states, windowEnd, t)
  {
    var anchor: Option<Time> := None;
    var i := 0;
    while i < |states|
      invariant 0 <= i <= |states|
      invariant forall j :: 0 <= j < i ==> states[j].height < windowEnd
      invariant i > 0 ==> anchor == Some(states[i - 1].time)
      invariant i == 0 ==> anchor.None?
    {
      if states[i].height <= windowEnd {
        anchor := Some(states[i].time);
      }
      if states[i].height >= windowEnd {
        return anchor;
      }
      i := i + 1;
    }
    return None;
  }

  /** With states that carry the heights' own times, the anchor is a lower bound on the window-end time. */
  lemma AnchorIsLowerBound(states: seq<Anchor>, windowEnd: int, time: Time, endTime: int -> Time)
    requires Anchors(states, windowEnd, time)
    requires forall g, h :: g <= h ==> endTime(g) <= endTime(h)
    requires forall i :: 0 <= i < |states| ==> states[i].time == endTime(states[i].height)
    ensures time <= endTime(windowEnd)
  {
  }

  lemma AnchorUnique(states: seq<Anchor>, windowEnd: int, t: Time, u: Time)
    requires Anchors(states, windowEnd, t) && Anchors(states, windowEnd, u)
    ensures t == u
  {
  }

  /** The share of the earliest distribution run at or after t. */
  ghost predicate SharePaidFor(shares: map<Time, int>, t: Time, run: Time) {
    run in shares && t <= run && forall r :: r in shares && t <= r ==> run <= r
  }

  method ResolveEpochShare(shares: map<Time, int>, t: Time) returns (share: Option<int>)
    ensures share.Some? ==> exists run :: SharePaidFor(shares, t, run) && share.value == shares[run]
    ensures share.None? <==> Undistributed(shares, t)
  {
    var runs := Ordering.Iterate(shares.Keys);
    var i := 0;
    while i < |runs|
      invariant 0 <= i <= |runs|
      invariant forall j :: 0 <= j < i ==> runs[j] < t
    {
      assert runs[i] in Ordering.Elements(runs);
      if t <= runs[i] {
        assert SharePaidFor(shares, t, runs[i]) by {
          forall r | r in shares && t <= r ensures runs[i] <= r {
            assert r in Ordering.Elements(runs);
            var j :| 0 <= j < |runs| && runs[j] == r;
          }
        }
        return Some(shares[runs[i]]);
      }
      i := i + 1;
    }
    forall r | r in shares ensures r < t {
      assert r in Ordering.Elements(runs);
    }
    return None;
  }

  // The judgement.

  ghost predicate Credible(env: Surroundings, c: ConsumerId, p: EvidencePacket) {
    && Validate(p).None? && env.launched && env.acceptableParams
    && p.MissedCount() > MaxMissed(p.params)
    && p.windowEnd >= env.minHeight
    && AccusedConsumerValidatorAddr(env, K.Resolves(env.reverse, c, p.validator)) in env.validators
    && env.client.Some?
  }

  /** Past the grace period, not stale, and challengeable for the whole challenge window. */
  predicate Timely(env: Surroundings, t: Time, now: Time)
    requires env.client.Some?
  {
    var age := now - t;
    && (env.params.gracePeriod > 0 ==> env.spawnTime.Some? && t >= env.spawnTime.value + env.params.gracePeriod)
    && age <= env.params.maxAge
    && env.client.value.trustingPeriod.Some?
    && age + env.params.challengeWindow < env.client.value.trustingPeriod.value
  }

  function EntryFor(env: Surroundings, c: ConsumerId, p: EvidencePacket, now: Time): Entry {
    Entry(WindowKey(Pair(c, K.Resolves(env.reverse, c, p.validator)), p.windowEnd), p.windowStart, now)
  }

  ghost predicate Admissible(env: Surroundings, s: State, c: ConsumerId, p: EvidencePacket, now: Time) {
    && Credible(env, c, p)
    && (exists t :: Anchors(env.client.value.states, p.windowEnd, t) && Timely(env, t, now))
    && Admits(s, EntryFor(env, c, p, now))
    && env.price.Some?
  }

  function SlashFor(env: Surroundings, c: ConsumerId, p: EvidencePacket, now: Time): Slash
    requires env.price.Some?
  {
    Slash(c, K.Resolves(env.reverse, c, p.validator), p.validator, p.windowStart, p.Span(), p.MissedCount(), p.missed,
          env.price.value, now + env.params.challengeWindow)
  }

  /** The mark is set only for a window in the epoch not distributed yet, at the address the set holds. */
  ghost predicate MarkFor(env: Surroundings, c: ConsumerId, p: EvidencePacket, mark: Option<Pair>)
    requires env.client.Some?
  {
    var marked := Pair(c, AccusedConsumerValidatorAddr(env, K.Resolves(env.reverse, c, p.validator)));
    exists t ::
      && Anchors(env.client.value.states, p.windowEnd, t)
      && mark == (if Undistributed(env.shares, t) then Some(marked) else None)
  }

  ghost predicate Undistributed(shares: map<Time, int>, t: Time) {
    forall run :: run in shares ==> run < t
  }

  /** s' is s with the accusation queued and its window accepted. */
  ghost predicate Queued(env: Surroundings, s: State, c: ConsumerId, p: EvidencePacket, now: Time, s': State) {
    && env.client.Some? && env.price.Some?
    && exists mark ::
         && MarkFor(env, c, p, mark)
         && s' == Accept(s, EntryFor(env, c, p, now), SlashFor(env, c, p, now), mark)
  }

  /** Admissible evidence is queued; anything else is refused with the state as it was. */
  ghost predicate Judged(
    env: Surroundings, s: State, c: ConsumerId, p: EvidencePacket, now: Time, error: Option<EvidenceError>, s': State)
  {
    && (error.None? <==> Admissible(env, s, c, p, now))
    && if error.None? then Queued(env, s, c, p, now, s') else s' == s
  }

  /** The pair a packet's window is filed under. */
  function AccusedPair(env: Surroundings, c: ConsumerId, a: Address): Pair {
    Pair(c, if Pair(c, a) in env.reverse then env.reverse[Pair(c, a)] else a)
  }

  /** The address of the consumer's set that a pair stands for: its own, or the one it was rotated to. */
  predicate HeldUnder(env: Surroundings, p: Pair, q: Pair) {
    && q.consumer == p.consumer && q.addr in env.validators
    && (q == p || (p.addr !in env.validators && p.addr in env.live && q.addr == env.live[p.addr]))
  }

  /**
   * What accepted evidence leaves: its window; a slash at today's price, due one challenge window from now, that
   * reports just the heights the packet does; and the mark of the validator in the consumer's set, if the epoch the
   * window ends in was not distributed yet. Nothing else changes.
   */
  ghost predicate Stands(env: Surroundings, s: State, s': State, c: ConsumerId, p: EvidencePacket, now: Time)
    requires env.client.Some? && env.price.Some?
  {
    var k := WindowKey(AccusedPair(env, c, p.validator), p.windowEnd);
    && k in s'.accepted && s'.accepted[k] == Accepted(p.windowStart, now)
    && k in s'.pending && s'.pending[k].accused == p.validator && s'.pending[k].tokens == env.price.value
    && s'.pending[k].maturesAt == now + env.params.challengeWindow
    && (forall h :: Reported(s'.pending, Some(k), h) <==> BitmapIsSet(p.missed, h - p.windowStart))
    && (forall h :: Contains(s'.pending[k], h) <==> p.windowStart <= h <= p.windowEnd)
    && (forall j :: j != k ==> SameWindow(s, s', j))
    && s'.floors == s.floors && s'.deleted == s.deleted
    && (forall t :: Anchors(env.client.value.states, p.windowEnd, t) ==>
          if forall run :: run in env.shares ==> run < t then
            exists q :: HeldUnder(env, k.pair, q) && s'.marks == s.marks + {q}
          else s'.marks == s.marks)
  }

  ghost predicate SameWindow(s: State, s': State, k: WindowKey) {
    && (k in s'.accepted <==> k in s.accepted) && (k in s'.accepted ==> s'.accepted[k] == s.accepted[k])
    && (k in s'.pending <==> k in s.pending) && (k in s'.pending ==> s'.pending[k] == s.pending[k])
  }

  lemma QueuedStands(env: Surroundings, s: State, s': State, c: ConsumerId, p: EvidencePacket, now: Time)
    requires Credible(env, c, p) && Queued(env, s, c, p, now, s')
    ensures Stands(env, s, s', c, p, now)
  {
    var mark :| MarkFor(env, c, p, mark) && s' == Accept(s, EntryFor(env, c, p, now), SlashFor(env, c, p, now), mark);
    var k := WindowKey(AccusedPair(env, c, p.validator), p.windowEnd);
    assert k == EntryFor(env, c, p, now).key;
    forall t | Anchors(env.client.value.states, p.windowEnd, t)
      ensures if forall run :: run in env.shares ==> run < t then
                exists q :: HeldUnder(env, k.pair, q) && s'.marks == s.marks + {q}
              else s'.marks == s.marks
    {
      MarkStands(env, s, s', c, p, k.pair, mark, t);
    }
  }

  lemma MarkStands(
    env: Surroundings, s: State, s': State, c: ConsumerId, p: EvidencePacket, pair: Pair, mark: Option<Pair>, t: Time)
    requires Credible(env, c, p) && MarkFor(env, c, p, mark) && pair == AccusedPair(env, c, p.validator)
    requires s'.marks == s.marks + (if mark.Some? then {mark.value} else {})
    requires Anchors(env.client.value.states, p.windowEnd, t)
    ensures if forall run :: run in env.shares ==> run < t then
              exists q :: HeldUnder(env, pair, q) && s'.marks == s.marks + {q}
            else s'.marks == s.marks
  {
    var q := Pair(c, AccusedConsumerValidatorAddr(env, K.Resolves(env.reverse, c, p.validator)));
    var u :| Anchors(env.client.value.states, p.windowEnd, u)
             && mark == if Undistributed(env.shares, u) then Some(q) else None;
    AnchorUnique(env.client.value.states, p.windowEnd, t, u);
    assert HeldUnder(env, pair, q);
  }

  method CheckTiming(env: Surroundings, t: Time, now: Time) returns (error: Option<EvidenceError>)
    requires env.client.Some?
    ensures error.None? <==> Timely(env, t, now)
  {
    if env.params.gracePeriod > 0 {
      if env.spawnTime.None? {
        return Some(NoInitParams);
      }
      if t < env.spawnTime.value + env.params.gracePeriod {
        return Some(InGracePeriod);
      }
    }
    var age := now - t;
    if age > env.params.maxAge {
      return Some(Stale);
    }
    if env.client.value.trustingPeriod.None? {
      return Some(NoTrustingPeriod);
    }
    if age + env.params.challengeWindow >= env.client.value.trustingPeriod.value {
      return Some(NotChallengeable);
    }
    return None;
  }

  /** The checks that need nothing but the packet and the surroundings. */
  method CheckPacket(env: Surroundings, c: ConsumerId, p: EvidencePacket) returns (error: Option<EvidenceError>)
    ensures error.None? <==> Credible(env, c, p)
  {
    if Validate(p).Some? {
      return Some(Invalid);
    }
    if !env.launched {
      return Some(NotLaunched);
    }
    if !env.acceptableParams {
      return Some(UnacceptableParams);
    }
    var missed := CountMissed(p);
    if missed <= MaxMissed(p.params) {
      return Some(BelowThreshold);
    }
    if p.windowEnd < env.minHeight {
      return Some(TooOld);
    }
    var setAddr := AccusedConsumerValidatorAddr(env, K.Resolves(env.reverse, c, p.validator));
    if setAddr !in env.validators {
      return Some(NotInSet);
    }
    if env.client.None? {
      return Some(NoClient);
    }
    return None;
  }

  /** The consumer's clock as far as the decision rests on it: heights in order, states with their own times. */
  ghost predicate ClockAgrees(env: Surroundings, s: State, pair: Pair, endTime: int -> Time)
    requires env.client.Some?
  {
    && (forall g, h :: g <= h ==> endTime(g) <= endTime(h))
    && (forall i :: 0 <= i < |env.client.value.states|
          ==> env.client.value.states[i].time == endTime(env.client.value.states[i].height))
    && (forall i :: 0 <= i < |s.history| && s.history[i].key.pair == pair
          ==> endTime(s.history[i].key.end) <= s.history[i].at)
  }

  /**
   * Credible, timely and priced evidence is accepted exactly when its window shares no height with any window
   * ever accepted for the pair, pruned or not.
   */
  lemma DecidedByFullHistory(
    env: Surroundings, s: State, c: ConsumerId, p: EvidencePacket, now: Time, t: Time, endTime: int -> Time)
    requires Inv(s) && c !in s.deleted && Credible(env, c, p) && env.price.Some? && env.params.challengeWindow >= 0
    requires AccusationRuns.Aged(s, now, env.params.challengeWindow + env.params.maxAge)
    requires Anchors(env.client.value.states, p.windowEnd, t) && Timely(env, t, now)
    requires ClockAgrees(env, s, EntryFor(env, c, p, now).key.pair, endTime)
    ensures Admissible(env, s, c, p, now)
      <==> forall i :: 0 <= i < |s.history| && s.history[i].key.pair == EntryFor(env, c, p, now).key.pair
             ==> Apart(s.history[i], EntryFor(env, c, p, now))
  {
    AnchorIsLowerBound(env.client.value.states, p.windowEnd, t, endTime);
    AccusationRuns.PruningIsInvisible(
      s, EntryFor(env, c, p, now), endTime, t, now, env.params.maxAge, env.params.challengeWindow);
  }

  // Lemmas about the loops.

  lemma PrunedNext(s: State, now: Time, horizon: Time, order: seq<WindowKey>, i: nat)
    requires i < |order| && PrunableInOrder(s, now, horizon, order)
    ensures var left := s.accepted.Keys - PrunedAmong(s, now, horizon, order[..i]);
            && order[i] in left
            && (Pruned(s, order[i], now, horizon) <==> LowestOf(left, order[i]))
  {
    var key, gone := order[i], PrunedAmong(s, now, horizon, order[..i]);
    var left := s.accepted.Keys - gone;
    assert key !in order[..i];
    if Pruned(s, key, now, horizon) {
      forall k | k in s.accepted && k.pair == key.pair && k.end < key.end ensures k in gone {
        LowerPrunedEarlier(s, now, horizon, order, i, k);
      }
    } else {
      var held :|
        held in s.accepted && held.pair == key.pair && held.end <= key.end && !Prunable(s, held, now, horizon);
      assert Prunable(s, key, now, horizon);
      assert held.end < key.end by {
        assert held != key;
      }
      assert held !in gone;
    }
  }

  lemma LowerPrunedEarlier(s: State, now: Time, horizon: Time, order: seq<WindowKey>, i: nat, k: WindowKey)
    requires i < |order| && PrunableInOrder(s, now, horizon, order) && Pruned(s, order[i], now, horizon)
    requires k in s.accepted && k.pair == order[i].pair && k.end < order[i].end
    ensures k in PrunedAmong(s, now, horizon, order[..i])
  {
    assert Prunable(s, k, now, horizon);
    var j :| 0 <= j < |order| && order[j] == k;
    assert order[..i][j] == k;
  }

  ghost predicate LowestOf(keys: set<WindowKey>, key: WindowKey) {
    forall k :: k in keys && k.pair == key.pair ==> key.end <= k.end
  }

  /** The prunable windows, each once, a pair's in ascending order. */
  ghost predicate PrunableInOrder(s: State, now: Time, horizon: Time, order: seq<WindowKey>) {
    && (forall k :: k in order <==> k in s.accepted && Prunable(s, k, now, horizon))
    && PairwiseAscending(order)
  }

  predicate PairwiseAscending(order: seq<WindowKey>) {
    forall i, j :: 0 <= i < j < |order|
          ==> order[i] != order[j] && (order[i].pair == order[j].pair ==> order[i].end < order[j].end)
  }

  ghost function PrunedAmong(s: State, now: Time, horizon: Time, keys: seq<WindowKey>): set<WindowKey> {
    set k | k in keys && Pruned(s, k, now, horizon)
  }

  lemma PrunedAmongAll(s: State, now: Time, horizon: Time, order: seq<WindowKey>)
    requires PrunableInOrder(s, now, horizon, order)
    ensures PrunedAmong(s, now, horizon, order) == PrunedKeys(s, now, horizon)
  {
  }

  lemma PrunedAmongNext(s: State, now: Time, horizon: Time, order: seq<WindowKey>, i: nat)
    requires i < |order|
    ensures PrunedAmong(s, now, horizon, order[..i + 1])
         == PrunedAmong(s, now, horizon, order[..i]) + if Pruned(s, order[i], now, horizon) then {order[i]} else {}
  {
    assert order[..i + 1] == order[..i] + [order[i]];
  }

  /** Raising the floors by one more window. */
  lemma RaisedOneMore(floors: map<Pair, int>, keys: set<WindowKey>, k: WindowKey)
    ensures var now := Raised(floors, keys);
            Raised(floors, keys + {k})
              == now[k.pair := if k.pair in now && now[k.pair] >= k.end then now[k.pair] else k.end]
  {
    var a, more := Raised(floors, keys), keys + {k};
    var b := a[k.pair := if k.pair in a && a[k.pair] >= k.end then a[k.pair] else k.end];
    assert k in more;
    forall p | p in Raised(floors, more) ensures p in b && Raised(floors, more)[p] == b[p] {
      FloorOverBounds(floors, more, p);
      if p in a {
        FloorOverBounds(floors, keys, p);
      }
    }
    forall p | p in b ensures p in Raised(floors, more) {
    }
  }

  /** The bookkeeping once the windows in gone were pruned. */
  ghost predicate PrunedSoFar(
    was: State, gone: set<WindowKey>, accepted: map<WindowKey, Accepted>, floors: map<Pair, int>)
  {
    accepted == was.accepted - gone && floors == Raised(was.floors, gone)
  }

  /** The keys, each once, those of one pair in ascending order. */
  method InOrder(keys: set<WindowKey>) returns (order: seq<WindowKey>)
    ensures forall k :: k in order <==> k in keys
    ensures PairwiseAscending(order)
  {
    order := [];
    var rest := keys;
    while rest != {}
      invariant rest <= keys && PairwiseAscending(order)
      invariant forall k :: k in order <==> k in keys - rest
      invariant forall i, k :: 0 <= i < |order| && k in rest && order[i].pair == k.pair ==> order[i].end < k.end
      decreases |rest|
    {
      var any :| any in rest;
      var ends := set k | k in rest && k.pair == any.pair :: k.end;
      assert any.end in ends;
      var next := WindowKey(any.pair, Ordering.Least(ends));
      assert next in rest;
      assert forall k :: k in rest && k.pair == any.pair ==> k.end in ends;
      order := order + [next];
      rest := rest - {next};
    }
  }

  // Challenges.

  predicate Contains(slash: Slash, height: int) {
    slash.start <= height < slash.start + slash.span
  }

  /** A slash about consumer c that named the accused when it was accepted and whose window contains the height. */
  predicate Accuses(pending: map<WindowKey, Slash>, c: ConsumerId, accused: Address, height: int, k: WindowKey) {
    k in pending && k.pair.consumer == c && pending[k].accused == accused && Contains(pending[k], height)
  }

  ghost predicate OnlySlash(pending: map<WindowKey, Slash>, found: WindowKey, height: int) {
    forall k :: k in pending && k.pair == found.pair && Contains(pending[k], height) ==> k == found
  }

  /** No slash about the pair contains the height. */
  ghost predicate NoneUnder(pending: map<WindowKey, Slash>, p: Pair, height: int) {
    forall k :: k in pending && k.pair == p ==> !Contains(pending[k], height)
  }

  /**
   * found is the consumer's pending slash a challenge of the height is about: the one under the address the
   * accused resolves to now, or, if there is none, the first in key order that named the accused when it was
   * accepted.
   */
  ghost predicate Challenged(
    pending: map<WindowKey, Slash>, c: ConsumerId, resolved: Address, accused: Address, height: int,
    found: Option<WindowKey>)
  {
    if found.None? then
      NoneUnder(pending, Pair(c, resolved), height) && forall k :: !Accuses(pending, c, accused, height, k)
    else if found.value.pair == Pair(c, resolved) then
      found.value in pending && Contains(pending[found.value], height)
    else
      && NoneUnder(pending, Pair(c, resolved), height) && Accuses(pending, c, accused, height, found.value)
      && forall k :: Accuses(pending, c, accused, height, k) ==> found.value.pair.addr <= k.pair.addr
  }

  /** The slash found reports the height as missed. */
  predicate Reported(pending: map<WindowKey, Slash>, found: Option<WindowKey>, height: int) {
    && found.Some? && found.value in pending
    && BitmapIsSet(pending[found.value].bitmap, height - pending[found.value].start)
  }

  /**
   * A challenge of a height a slash holds is about that slash, if the accused resolves to the address it is kept
   * under; and it is about some slash that holds the height, if it names whom the slash accused.
   */
  lemma ChallengeFindsSlash(
    s: State, c: ConsumerId, resolved: Address, accused: Address, height: int, found: Option<WindowKey>, k: WindowKey)
    requires Inv(s) && Challenged(s.pending, c, resolved, accused, height, found)
    requires k in s.pending && Contains(s.pending[k], height)
    ensures k.pair == Pair(c, resolved) ==> found == Some(k)
    ensures k.pair.consumer == c && s.pending[k].accused == accused ==>
      found.Some? && found.value in s.pending && found.value.pair.consumer == c
      && Contains(s.pending[found.value], height)
  {
    if k.pair == Pair(c, resolved) {
      var j := found.value;
      assert EntryAt(s, k) in s.history && EntryAt(s, j) in s.history;
      if j != k {
        TwoOfAPair(s.history, EntryAt(s, j), EntryAt(s, k));
      }
    }
    if k.pair.consumer == c && s.pending[k].accused == accused {
      assert Accuses(s.pending, c, accused, height, k);
    }
  }

  /** A slash of the pair that holds the height is the one found. */
  ghost predicate OnlyAbout(pending: map<WindowKey, Slash>, p: Pair, height: int, found: Option<WindowKey>) {
    forall k :: k in pending && k.pair == p && Contains(pending[k], height) ==> found == Some(k)
  }

  lemma FindsOnly(
    s: State, c: ConsumerId, resolved: Address, accused: Address, height: int, found: Option<WindowKey>)
    requires Inv(s) && Challenged(s.pending, c, resolved, accused, height, found)
    ensures OnlyAbout(s.pending, Pair(c, resolved), height, found)
  {
    forall k | k in s.pending && k.pair == Pair(c, resolved) && Contains(s.pending[k], height)
      ensures found == Some(k)
    {
      ChallengeFindsSlash(s, c, resolved, accused, height, found, k);
    }
  }

  class Ledger {
    var accepted: map<WindowKey, Accepted>
    var pending: map<WindowKey, Slash>
    var floors: map<Pair, int>
    var marks: set<Pair>

    ghost var history: seq<Entry>
    ghost var executed: seq<Entry>
    ghost var deleted: set<ConsumerId>
    ghost var accused: seq<Address>   // whom each window of the history accused

    constructor ()
      ensures Current() == State(map[], map[], map[], {}, [], [], {}, []) && Inv(Current())
    {
      accepted, pending, floors, marks := map[], map[], map[], {};
      history, executed, deleted, accused := [], [], {}, [];
    }

    ghost function Current(): State
      reads this
    {
      State(accepted, pending, floors, marks, history, executed, deleted, accused)
    }

    /** Whether a window meets one retained for the pair. */
    method IntersectsAccepted(pair: Pair, start: int, end: int) returns (b: bool)
      ensures b <==> exists k :: k in accepted && k.pair == pair && start <= k.end && accepted[k].start <= end
    {
      var rest := accepted.Keys;
      while rest != {}
        invariant rest <= accepted.Keys
        invariant forall k :: k in accepted && k !in rest && k.pair == pair
                    ==> !(start <= k.end && accepted[k].start <= end)
        decreases |rest|
      {
        var k :| k in rest;
        if k.pair == pair && start <= k.end && accepted[k].start <= end {
          return true;
        }
        rest := rest - {k};
      }
      return false;
    }

    /** Judges a packet about consumer c; an accepted one is queued behind the challenge window. */
    method HandleConsumerDowntime(env: Surroundings, c: ConsumerId, p: EvidencePacket, now: Time)
      returns (error: Option<EvidenceError>)
      requires Inv(Current()) && c !in deleted
      requires env.client.Some? ==> AscendingStates(env.client.value.states)
      modifies this
      ensures Inv(Current())
      ensures Judged(env, old(Current()), c, p, now, error, Current())
      ensures error.None? ==>
        env.client.Some? && env.price.Some? && Stands(env, old(Current()), Current(), c, p, now)
    {
      error := CheckPacket(env, c, p);
      if error.Some? {
        return;
      }
      var t := WindowEndTimestamp(env.client.value.states, p.windowEnd);
      if t.None? {
        return Some(NotAnchored);
      }
      TimelyOnce(env, p, t.value, now);
      error := CheckTiming(env, t.value, now);
      if error.Some? {
        return;
      }
      error := CheckWindow(env, c, p, now);
      if error.Some? {
        return;
      }
      Record(env, c, p, t.value, now);
      QueuedStands(env, old(Current()), Current(), c, p, now);
    }

    /** What acceptance asks of the bookkeeping, then the price. */
    method CheckWindow(env: Surroundings, c: ConsumerId, p: EvidencePacket, now: Time)
      returns (error: Option<EvidenceError>)
      ensures error.None? <==> Admits(Current(), EntryFor(env, c, p, now)) && env.price.Some?
    {
      var pair := Pair(c, K.Resolves(env.reverse, c, p.validator));
      if pair in floors && p.windowStart <= floors[pair] {
        return Some(BelowFloor);
      }
      var meets := IntersectsAccepted(pair, p.windowStart, p.windowEnd);
      if meets {
        return Some(Intersects);
      }
      if env.price.None? {
        return Some(Unpriced);
      }
      return None;
    }

    method Record(env: Surroundings, c: ConsumerId, p: EvidencePacket, t: Time, now: Time)
      requires Inv(Current()) && c !in deleted && env.client.Some? && env.price.Some? && p.windowStart <= p.windowEnd
      requires Anchors(env.client.value.states, p.windowEnd, t) && Admits(Current(), EntryFor(env, c, p, now))
      modifies this
      ensures Inv(Current())
      ensures Queued(env, old(Current()), c, p, now, Current())
    {
      var mark := MarkOf(env, c, p, t);
      ghost var s := Current();
      CanRecord(env, s, c, p, now, mark);
      AcceptKeeps(s, EntryFor(env, c, p, now), SlashFor(env, c, p, now), mark);
      QueuedWith(env, s, c, p, now, mark);
      Store(EntryFor(env, c, p, now), SlashFor(env, c, p, now), mark);
    }

    lemma CanRecord(env: Surroundings, s: State, c: ConsumerId, p: EvidencePacket, now: Time, mark: Option<Pair>)
      requires c !in s.deleted && env.price.Some? && p.windowStart <= p.windowEnd && Admits(s, EntryFor(env, c, p, now))
      requires mark.Some? ==> mark.value.consumer == c
      ensures CanAccept(s, EntryFor(env, c, p, now), SlashFor(env, c, p, now), mark)
    {
    }

    lemma QueuedWith(env: Surroundings, s: State, c: ConsumerId, p: EvidencePacket, now: Time, mark: Option<Pair>)
      requires env.client.Some? && env.price.Some? && MarkFor(env, c, p, mark)
      ensures Queued(env, s, c, p, now, Accept(s, EntryFor(env, c, p, now), SlashFor(env, c, p, now), mark))
    {
    }

    /** The mark to set, unless the window's epoch was already distributed. */
    method MarkOf(env: Surroundings, c: ConsumerId, p: EvidencePacket, t: Time) returns (mark: Option<Pair>)
      requires env.client.Some? && Anchors(env.client.value.states, p.windowEnd, t)
      ensures MarkFor(env, c, p, mark) && (mark.Some? ==> mark.value.consumer == c)
    {
      var distributed := ResolveEpochShare(env.shares, t);
      if distributed.None? {
        return Some(Pair(c, AccusedConsumerValidatorAddr(env, K.Resolves(env.reverse, c, p.validator))));
      }
      return None;
    }

    method Store(entry: Entry, slash: Slash, mark: Option<Pair>)
      modifies this
      ensures Current() == Accept(old(Current()), entry, slash, mark)
    {
      if mark.Some? {
        marks := marks + {mark.value};
      }
      pending := pending[entry.key := slash];
      accepted := accepted[entry.key := Accepted(entry.start, entry.at)];
      history := history + [entry];
      accused := accused + [slash.accused];
    }

    lemma TimelyOnce(env: Surroundings, p: EvidencePacket, t: Time, now: Time)
      requires env.client.Some? && Anchors(env.client.value.states, p.windowEnd, t)
      ensures (exists u :: Anchors(env.client.value.states, p.windowEnd, u) && Timely(env, u, now))
           <==> Timely(env, t, now)
    {
      if u :| Anchors(env.client.value.states, p.windowEnd, u) && Timely(env, u, now) {
        AnchorUnique(env.client.value.states, p.windowEnd, t, u);
      }
    }

    /**
     * Executes the slashes whose challenge window is over. Staking goes through for the windows of the
     * given set. Returns the executed windows in order and the pairs with an execution and nothing left pending.
     */
    method SweepPendingDowntimeSlashes(now: Time, goesThrough: set<WindowKey>)
      returns (run: seq<WindowKey>, settled: set<Pair>)
      requires Backed(Current())
      modifies this`pending, this`executed
      ensures Runs(old(Current()), now, run) && Current() == Sweep(old(Current()), now, run)
      ensures forall k :: k in run <==> k in goesThrough && k in old(pending) && Executable(old(Current()), k, now)
      ensures forall p :: p in settled
                <==> (exists k :: k in run && k.pair == p) && forall k :: k in pending ==> k.pair != p
    {
      ghost var was := Current();
      var matured := set k | k in pending && Matured(pending[k], now);
      run := ExecuteAll(matured, now, goesThrough);
      pending := pending - matured;
      assert pending == Unmatured(was.pending, now);
      executed := executed + RunEntries(was, run);
      settled := (set k | k in run :: k.pair) - (set k | k in pending :: k.pair);
    }

    method ExecuteAll(matured: set<WindowKey>, now: Time, goesThrough: set<WindowKey>) returns (run: seq<WindowKey>)
      requires Backed(Current()) && forall k :: k in matured <==> k in pending && Matured(pending[k], now)
      ensures Runs(Current(), now, run)
      ensures forall k :: k in run <==> k in goesThrough && k in pending && Executable(Current(), k, now)
    {
      var order := InOrder(matured);
      run := [];
      var i := 0;
      while i < |order|
        invariant 0 <= i <= |order|
        invariant Runs(Current(), now, run)
        invariant forall k :: k in run <==> k in order[..i] && k in goesThrough && pending[k].tokens > 0
      {
        assert order[..i + 1] == order[..i] + [order[i]];
        assert order[i] in matured && order[i] !in order[..i];
        if pending[order[i]].tokens > 0 && order[i] in goesThrough {
          run := run + [order[i]];
        }
        i := i + 1;
      }
      assert order[..i] == order;
    }

    /** Drops the windows too old to matter, lowest first, leaving the pairs' floors in their stead. */
    method PruneAcceptedDowntimeWindows(now: Time, horizon: Time)
      modifies this`accepted, this`floors
      ensures Current() == Prune(old(Current()), now, horizon)
    {
      ghost var was := Current();
      var old' := set k | k in accepted && now - accepted[k].at > horizon && k !in pending;
      var order := InOrder(old');
      var i := 0;
      RaisedByNone(floors);
      while i < |order|
        invariant 0 <= i <= |order| && PrunableInOrder(was, now, horizon, order)
        invariant PrunedSoFar(was, PrunedAmong(was, now, horizon, order[..i]), accepted, floors)
      {
        PrunedNext(was, now, horizon, order, i);
        PrunedAmongNext(was, now, horizon, order, i);
        PruneIfLowest(was, PrunedAmong(was, now, horizon, order[..i]), order[i]);
        i := i + 1;
      }
      assert order[..i] == order;
      PrunedAmongAll(was, now, horizon, order);
    }

    /** One turn of the pruning loop: a window goes only if no lower one of its pair is retained. */
    method PruneIfLowest(ghost was: State, ghost gone: set<WindowKey>, key: WindowKey)
      requires PrunedSoFar(was, gone, accepted, floors) && key in was.accepted.Keys - gone
      modifies this`accepted, this`floors
      ensures PrunedSoFar(was, gone + (if LowestOf(was.accepted.Keys - gone, key) then {key} else {}), accepted, floors)
    {
      var lowest := LowestAcceptedWindowEnd(key.pair);
      if lowest.None? || lowest.value >= key.end {
        RaisedOneMore(was.floors, gone, key);
        PruneOne(key);
        assert was.accepted - (gone + {key}) == was.accepted - gone - {key};
      } else {
        assert gone + {} == gone;
      }
    }

    method PruneOne(key: WindowKey)
      modifies this`accepted, this`floors
      ensures floors == old(floors)[key.pair :=
                if key.pair in old(floors) && old(floors)[key.pair] >= key.end then old(floors)[key.pair] else key.end]
      ensures accepted == old(accepted) - {key}
    {
      if key.pair !in floors || key.end > floors[key.pair] {
        floors := floors[key.pair := key.end];
      }
      accepted := accepted - {key};
    }

    method LowestAcceptedWindowEnd(pair: Pair) returns (end: Option<int>)
      ensures end.None? <==> forall k :: k in accepted ==> k.pair != pair
      ensures end.Some? ==> WindowKey(pair, end.value) in accepted
                            && forall k :: k in accepted && k.pair == pair ==> end.value <= k.end
    {
      var ends := set k | k in accepted && k.pair == pair :: k.end;
      assert forall k :: k in accepted && k.pair == pair ==> k.end in ends;
      if ends == {} {
        return None;
      }
      return Some(Ordering.Least(ends));
    }

    /** Clears what is in flight for a consumer that pauses, stops or is deleted. */
    method CancelConsumerDowntimeState(c: ConsumerId)
      modifies this`pending, this`marks
      ensures Current() == Cancel(old(Current()), c)
    {
      pending := WithoutConsumer(pending, c);
      marks := PairsWithout(marks, c);
    }

    /** Erases everything about a consumer. */
    method EraseConsumer(c: ConsumerId)
      modifies this
      ensures Current() == Delete(old(Current()), c)
    {
      CancelConsumerDowntimeState(c);
      accepted := WithoutConsumer(accepted, c);
      floors := FloorsWithout(floors, c);
      deleted := deleted + {c};
    }

    method ClearEpochDowntime()
      modifies this`marks
      ensures marks == {}
    {
      marks := {};
    }

    /** Moves the windows and the floor of a rotating validator to its new, fresh address. */
    method MigrateDowntimeAcceptance(c: ConsumerId, oldAddr: Address, newAddr: Address)
      requires Renames(Current(), Pair(c, oldAddr), Pair(c, newAddr))
      modifies this
      ensures Current() == Rename(old(Current()), Pair(c, oldAddr), Pair(c, newAddr))
    {
      ghost var p, q := Pair(c, oldAddr), Pair(c, newAddr);
      MigratePending(Pair(c, oldAddr), Pair(c, newAddr));
      MigrateAccepted(Pair(c, oldAddr), Pair(c, newAddr));
      MigrateDowntimeWindowFloor(Pair(c, oldAddr), Pair(c, newAddr));
      history, executed := RenamedLog(history, p, q), RenamedLog(executed, p, q);
    }

    method MigratePending(p: Pair, q: Pair)
      requires p != q && forall k :: k in pending ==> k.pair != q
      modifies this`pending
      ensures pending == RenamedPending(old(pending), p, q)
    {
      ghost var was := pending;
      var todo := set k | k in pending && k.pair == p;
      while todo != {}
        invariant forall k :: k in todo ==> k in was && k.pair == p
        invariant forall k :: k in pending <==>
          || (k in was && (k.pair != p || k in todo))
          || (k.pair == q && WindowKey(p, k.end) in was && WindowKey(p, k.end) !in todo)
        invariant forall k :: k in pending && k.pair != q ==> k in was && pending[k] == was[k]
        invariant forall k :: k in pending && k.pair == q ==>
          WindowKey(p, k.end) in was && pending[k] == RenamedSlash(was[WindowKey(p, k.end)], WindowKey(p, k.end), p, q)
        decreases |todo|
      {
        var k :| k in todo;
        pending := pending[WindowKey(q, k.end) := pending[k].(provider := q.addr)];
        pending := pending - {k};
        todo := todo - {k};
      }
      PendingMoved(was, pending, p, q);
    }

    method MigrateAccepted(p: Pair, q: Pair)
      requires p != q && forall k :: k in accepted ==> k.pair != q
      modifies this`accepted
      ensures accepted == RenamedWindows(old(accepted), p, q)
    {
      ghost var was := accepted;
      var todo := set k | k in accepted && k.pair == p;
      while todo != {}
        invariant forall k :: k in todo ==> k in was && k.pair == p
        invariant forall k :: k in accepted <==>
          || (k in was && (k.pair != p || k in todo))
          || (k.pair == q && WindowKey(p, k.end) in was && WindowKey(p, k.end) !in todo)
        invariant forall k :: k in accepted && k.pair != q ==> k in was && accepted[k] == was[k]
        invariant forall k :: k in accepted && k.pair == q ==>
          WindowKey(p, k.end) in was && accepted[k] == was[WindowKey(p, k.end)]
        decreases |todo|
      {
        var k :| k in todo;
        accepted := accepted[WindowKey(q, k.end) := accepted[k]];
        accepted := accepted - {k};
        todo := todo - {k};
      }
      AcceptedMoved(was, accepted, p, q);
    }

    /** The higher of the two floors, should the new pair already carry one. */
    method MigrateDowntimeWindowFloor(p: Pair, q: Pair)
      requires p != q
      modifies this`floors
      ensures floors == if p !in old(floors) then old(floors) else (old(floors) - {p})[q :=
                          if q in old(floors) then Max(old(floors)[p], old(floors)[q]) else old(floors)[p]]
      ensures q !in old(floors) ==> floors == RenamedFloors(old(floors), p, q)
    {
      if p !in floors {
        return;
      }
      var floor := floors[p];
      if q in floors && floors[q] > floor {
        floor := floors[q];
      }
      floors := floors[q := floor];
      floors := floors - {p};
    }

    /** The fee-exclusion mark follows the live address, whatever the key assignments. */
    method MigrateMark(p: Pair, q: Pair)
      requires p.consumer == q.consumer && p != q
      modifies this`marks
      ensures marks == if p in old(marks) then old(marks) - {p} + {q} else old(marks)
    {
      if p in marks {
        marks := marks + {q};
        marks := marks - {p};
      }
    }

    /**
     * The pending slash a challenge is about: the one kept under the address the accused resolves to now, else the
     * first in key order that named the accused when it was accepted.
     */
    method FindPendingDowntimeSlashContaining(c: ConsumerId, resolved: Address, accused: Address, height: int)
      returns (found: Option<WindowKey>)
      requires Inv(Current())
      ensures Challenged(pending, c, resolved, accused, height, found)
      ensures found.Some? ==> OnlySlash(pending, found.value, height)
    {
      found := FindPendingDowntimeSlashUnderProviderAddr(Pair(c, resolved), height);
      if found.Some? {
        return;
      }
      var rest := pending.Keys;
      while rest != {}
        invariant rest <= pending.Keys
        invariant found.Some? ==> Accuses(pending, c, accused, height, found.value)
        invariant forall k :: Accuses(pending, c, accused, height, k) && k !in rest
                    ==> found.Some? && found.value.pair.addr <= k.pair.addr
        decreases |rest|
      {
        var k :| k in rest;
        if k.pair.consumer == c && pending[k].accused == accused && Contains(pending[k], height) {
          if found.None? || k.pair.addr < found.value.pair.addr {
            found := Some(k);
          }
        }
        rest := rest - {k};
      }
      if found.Some? {
        OnlyOneHolds(found.value, height);
      }
    }

    method FindPendingDowntimeSlashUnderProviderAddr(p: Pair, height: int) returns (found: Option<WindowKey>)
      requires Inv(Current())
      ensures found.Some? ==> found.value in pending && found.value.pair == p && Contains(pending[found.value], height)
      ensures found.Some? ==> OnlySlash(pending, found.value, height)
      ensures found.None? ==> NoneUnder(pending, p, height)
    {
      var rest := pending.Keys;
      while rest != {}
        invariant rest <= pending.Keys
        invariant forall k :: k in pending && k !in rest && k.pair == p ==> !Contains(pending[k], height)
        decreases |rest|
      {
        var k :| k in rest;
        if k.pair == p && Contains(pending[k], height) {
          OnlyOneHolds(k, height);
          return Some(k);
        }
        rest := rest - {k};
      }
      return None;
    }

    lemma OnlyOneHolds(k: WindowKey, height: int)
      requires Inv(Current()) && k in pending && Contains(pending[k], height)
      ensures OnlySlash(pending, k, height)
    {
      var s := Current();
      assert EntryAt(s, k) in s.history;
      forall j | j in pending && j.pair == k.pair && Contains(pending[j], height) ensures j == k {
        assert EntryAt(s, j) in s.history;
        if EntryAt(s, j) != EntryAt(s, k) {
          TwoOfAPair(s.history, EntryAt(s, j), EntryAt(s, k));
        }
      }
    }
  }

  lemma RaisedByNone(floors: map<Pair, int>)
    ensures Raised(floors, {}) == floors
  {
    forall p | p in floors ensures FloorOver(floors, {}, p) == floors[p] {
      FloorOverBounds(floors, {}, p);
    }
  }

  lemma PendingMoved(was: map<WindowKey, Slash>, now: map<WindowKey, Slash>, p: Pair, q: Pair)
    requires p != q && forall k :: k in was ==> k.pair != q
    requires forall k :: k in now <==> (k in was && k.pair != p) || (k.pair == q && WindowKey(p, k.end) in was)
    requires forall k :: k in now && k.pair != q ==> k in was && now[k] == was[k]
    requires forall k :: k in now && k.pair == q ==>
      WindowKey(p, k.end) in was && now[k] == RenamedSlash(was[WindowKey(p, k.end)], WindowKey(p, k.end), p, q)
    ensures now == RenamedPending(was, p, q)
  {
    var target := RenamedPending(was, p, q);
    forall k ensures k in now <==> k in target {
      RenamedKeyIn(was, p, q, k);
    }
  }

  lemma AcceptedMoved(was: map<WindowKey, Accepted>, now: map<WindowKey, Accepted>, p: Pair, q: Pair)
    requires p != q && forall k :: k in was ==> k.pair != q
    requires forall k :: k in now <==> (k in was && k.pair != p) || (k.pair == q && WindowKey(p, k.end) in was)
    requires forall k :: k in now && k.pair != q ==> k in was && now[k] == was[k]
    requires forall k :: k in now && k.pair == q ==> WindowKey(p, k.end) in was && now[k] == was[WindowKey(p, k.end)]
    ensures now == RenamedWindows(was, p, q)
  {
    var target := RenamedWindows(was, p, q);
    forall k ensures k in now <==> k in target {
      RenamedKeyIn(was, p, q, k);
    }
  }

  lemma RenamedKeyIn<V>(m: map<WindowKey, V>, p: Pair, q: Pair, k: WindowKey)
    requires p != q && forall j :: j in m ==> j.pair != q
    ensures k in RenamedKeys(m, p, q) <==> (k in m && k.pair != p) || (k.pair == q && WindowKey(p, k.end) in m)
  {
    if k in m && k.pair != p {
      assert RenamedKey(k, p, q) == k;
    }
    if k.pair == q && WindowKey(p, k.end) in m {
      assert RenamedKey(WindowKey(p, k.end), p, q) == k;
    }
  }
}
