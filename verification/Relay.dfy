/** Validator-set-change packets on the consumer: authentication, the watermark, accumulation and the flush. */
module Relay {
  import opened Common
  import opened Wire
  import opened ValidatorUpdates
  import opened DowntimeTracking
  import Ordering

  type ChainId = nat

  /** A client identifier; the empty string is 0. */
  type ClientId = nat

  const NO_CLIENT: ClientId := 0

  datatype ClientState = Tendermint(chainId: ChainId) | OtherClient

  datatype VscPacket = VscPacket(
    id: nat,
    updates: seq<Update>,
    snapshot: bool,
    params: Option<DowntimeParams>,
    inDebt: bool)

  datatype RelayError = InvalidPacket | InvalidProviderClient | EmptyValidatorSet

  datatype Outcome = Accepted | Skipped | Rejected(error: RelayError)

  predicate ValidPacket(p: VscPacket) {
    && p.id != 0
    && forall i :: 0 <= i < |p.updates| ==> Decodes(p.updates[i].key) && p.updates[i].power >= 0
  }

  method ValidateVsc(p: VscPacket) returns (ok: bool)
    ensures ok <==> ValidPacket(p)
  {
    if p.id == 0 {
      return false;
    }
    for i := 0 to |p.updates|
      invariant forall j :: 0 <= j < i ==> Decodes(p.updates[j].key) && p.updates[j].power >= 0
    {
      if !Decodes(p.updates[i].key) || p.updates[i].power < 0 {
        return false;
      }
    }
    return true;
  }

  // The abstract behaviour: the stored set, the set it becomes at the next flush, and the watermark.

  datatype View = View(vals: ValSet, target: ValSet, highest: Option<nat>)

  datatype Event = Deliver(packet: VscPacket, authentic: bool) | BlockEnd

  /** Applying the packet would leave no validator. */
  ghost predicate Empties(v: View, p: VscPacket) {
    if p.snapshot then !HasPositive(p.updates) else Overlay(v.target, p.updates) == map[]
  }

  ghost function Judge(v: View, p: VscPacket, authentic: bool): Outcome {
    if !ValidPacket(p) then Rejected(InvalidPacket)
    else if !authentic then Rejected(InvalidProviderClient)
    else if v.highest.Some? && p.id <= v.highest.value then Skipped
    else if Empties(v, p) then Rejected(EmptyValidatorSet)
    else Accepted
  }

  /** A snapshot starts over from nothing, a diff from what was already due. */
  ghost function Received(v: View, p: VscPacket): View {
    View(v.vals, Overlay(if p.snapshot then map[] else v.target, p.updates), Some(p.id))
  }

  ghost predicate Takes(v: View, e: Event) {
    e.Deliver? && Judge(v, e.packet, e.authentic) == Accepted
  }

  ghost function Step(v: View, e: Event): View {
    if e.BlockEnd? then v.(vals := v.target)
    else if Takes(v, e) then Received(v, e.packet)
    else v
  }

  ghost function Run(v: View, events: seq<Event>): View {
    if events == [] then v else Step(Run(v, events[..|events| - 1]), events[|events| - 1])
  }

  // Convergence.

  /** The provider's validator set at each update id. */
  type SetHistory = nat -> ValSet

  /** The packet carries the provider's set, or the change that led to it. */
  ghost predicate Faithful(p: VscPacket, sets: SetHistory) {
    p.id > 0 && Overlay(if p.snapshot then map[] else sets(p.id - 1), p.updates) == sets(p.id)
  }

  ghost predicate Synced(v: View, sets: SetHistory) {
    v.highest.Some? && v.target == sets(v.highest.value)
  }

  /** Only faithful packets pass authentication, and every accepted diff follows directly on the watermark. */
  ghost predicate Consecutive(v: View, events: seq<Event>, sets: SetHistory) {
    if events == [] then true else
      var init, e := events[..|events| - 1], events[|events| - 1];
      && Consecutive(v, init, sets)
      && (Takes(Run(v, init), e) ==> Faithful(e.packet, sets) && Follows(e.packet, Run(v, init).highest))
  }

  predicate Follows(p: VscPacket, highest: Option<nat>) {
    p.snapshot || (highest.Some? && p.id == highest.value + 1)
  }

  /** Whatever the consumer held, an accepted faithful snapshot leaves exactly its set due. */
  lemma SnapshotSyncs(v: View, p: VscPacket, sets: SetHistory)
    requires Faithful(p, sets) && p.snapshot && Judge(v, p, true) == Accepted
    ensures Synced(Step(v, Deliver(p, true)), sets)
    ensures Step(Step(v, Deliver(p, true)), BlockEnd).vals == sets(p.id) == Overlay(map[], p.updates)
  {
  }

  lemma {:induction false} RunStaysSynced(v: View, events: seq<Event>, sets: SetHistory)
    requires Synced(v, sets) && Consecutive(v, events, sets)
    ensures Synced(Run(v, events), sets)
    decreases |events|
  {
    if events != [] {
      RunStaysSynced(v, events[..|events| - 1], sets);
    }
  }

  /**
   * From any state, once a snapshot was accepted and only faithful consecutive diffs or snapshots were
   * accepted since - whatever else was lost, repeated, reordered or refused - the set after the end of a
   * block is the provider's set at the watermark.
   */
  lemma Convergence(v: View, p: VscPacket, later: seq<Event>, sets: SetHistory)
    requires Faithful(p, sets) && p.snapshot && Judge(v, p, true) == Accepted
    requires Consecutive(Step(v, Deliver(p, true)), later, sets)
    ensures
      var end := Step(Run(Step(v, Deliver(p, true)), later), BlockEnd);
      end.highest.Some? && end.highest.value >= p.id && end.vals == sets(end.highest.value)
  {
    var start := Step(v, Deliver(p, true));
    SnapshotSyncs(v, p, sets);
    RunStaysSynced(start, later, sets);
    WatermarkRises(start, later);
  }

  /** The provider's own next packet is never refused by a synced consumer. */
  lemma FaithfulAccepted(v: View, p: VscPacket, sets: SetHistory)
    requires ValidPacket(p) && Faithful(p, sets) && sets(p.id) != map[]
    requires v.highest.None? || p.id > v.highest.value
    requires p.snapshot || (Synced(v, sets) && p.id == v.highest.value + 1)
    ensures Judge(v, p, true) == Accepted
  {
    if p.snapshot {
      LastPositiveWrite(p.updates);
    }
  }

  /** The ids accepted over a run, in order. */
  ghost function AcceptedIds(v: View, events: seq<Event>): seq<nat> {
    if events == [] then [] else
      var init, e := events[..|events| - 1], events[|events| - 1];
      AcceptedIds(v, init)
      + if Takes(Run(v, init), e) then [e.packet.id] else []
  }

  /** The ids strictly rise, above the first watermark, and the last watermark is the last of them. */
  ghost predicate Rises(first: Option<nat>, ids: seq<nat>, last: Option<nat>) {
    && (forall i, j :: 0 <= i < j < |ids| ==> ids[i] < ids[j])
    && (first.Some? ==> forall i :: 0 <= i < |ids| ==> ids[i] > first.value)
    && last == (if ids == [] then first else Some(ids[|ids| - 1]))
  }

  lemma RisesOneMore(first: Option<nat>, ids: seq<nat>, last: Option<nat>, id: nat)
    requires Rises(first, ids, last) && (last.Some? ==> id > last.value)
    ensures Rises(first, ids + [id], Some(id))
  {
  }

  /** Over any run, what was accepted rises. */
  lemma {:induction false} WatermarkRises(v: View, events: seq<Event>)
    ensures Rises(v.highest, AcceptedIds(v, events), Run(v, events).highest)
    decreases |events|
  {
    if events != [] {
      var init, e := events[..|events| - 1], events[|events| - 1];
      WatermarkRises(v, init);
      if Takes(Run(v, init), e) {
        RisesOneMore(v.highest, AcceptedIds(v, init), Run(v, init).highest, e.packet.id);
      } else {
        assert AcceptedIds(v, init) + [] == AcceptedIds(v, init);
      }
    }
  }

  // The set never empties.

  predicate LastWriteOfItsKey(us: seq<Update>, i: int) {
    0 <= i < |us| && forall j :: i < j < |us| ==> us[j].key != us[i].key
  }

  lemma {:induction false} LastWriteKept(us: seq<Update>, i: int)
    requires LastWriteOfItsKey(us, i)
    ensures us[i].key in LastWrites(us) && LastWrites(us)[us[i].key] == us[i].power
    decreases |us|
  {
    if i < |us| - 1 {
      var init := us[..|us| - 1];
      assert forall j :: i < j < |init| ==> init[j] == us[j];
      LastWriteKept(init, i);
    }
  }

  lemma {:induction false} WriteHasLast(us: seq<Update>, k: PubKey) returns (i: int)
    requires k in LastWrites(us)
    ensures LastWriteOfItsKey(us, i) && us[i] == Update(k, LastWrites(us)[k])
    decreases |us|
  {
    if us[|us| - 1].key == k {
      i := |us| - 1;
    } else {
      var init := us[..|us| - 1];
      i := WriteHasLast(init, k);
      assert init[i] == us[i];
      assert forall j :: i < j < |init| ==> init[j] == us[j];
    }
  }

  /** The set a list of updates builds from nothing is non-empty exactly when some key's last write is positive. */
  lemma LastPositiveWrite(us: seq<Update>)
    ensures Overlay(map[], us) != map[] <==> exists i :: LastWriteOfItsKey(us, i) && us[i].power > 0
    ensures Overlay(map[], us) != map[] ==> HasPositive(us)
  {
    var none: ValSet := map[];
    OverlayIsMerge(none, us);
    var writes := LastWrites(us);
    if Overlay(none, us) != map[] {
      var k := Ordering.Pick(Overlay(none, us).Keys);
      var i := WriteHasLast(us, k);
      assert us[i].power > 0;
    }
    forall i | LastWriteOfItsKey(us, i) && us[i].power > 0 ensures us[i].key in Overlay(none, us) {
      LastWriteKept(us, i);
    }
  }

  /** With distinct keys the guard is exact for snapshots too: it refuses exactly the empty targets. */
  lemma SnapshotGuardExact(us: seq<Update>)
    requires DistinctKeys(us)
    ensures HasPositive(us) <==> Overlay(map[], us) != map[]
  {
    LastPositiveWrite(us);
    if HasPositive(us) {
      var i :| 0 <= i < |us| && us[i].power > 0;
      assert LastWriteOfItsKey(us, i);
    }
  }

  /** A snapshot that repeats a key passes the guard and empties the set all the same. */
  lemma RepeatedKeyDefeatsGuard(k: PubKey)
    requires Decodes(k)
    ensures
      var p := VscPacket(1, [Update(k, 1), Update(k, 0)], true, None, false);
      && Judge(View(map[k := 1], map[k := 1], None), p, true) == Accepted
      && Step(View(map[k := 1], map[k := 1], None), Deliver(p, true)).target == map[]
  {
    var us := [Update(k, 1), Update(k, 0)];
    assert us[0].power > 0;
    assert us[..1] == [Update(k, 1)] && us[..1][..0] == [];
    assert Overlay(map[], us[..1]) == map[k := 1];
  }

  /** Accepted snapshots keep the set alive exactly when some key's last write is positive; diffs always do. */
  lemma AcceptedTarget(v: View, p: VscPacket)
    requires Judge(v, p, true) == Accepted
    ensures Received(v, p).target != map[]
      <==> (p.snapshot ==> exists i :: LastWriteOfItsKey(p.updates, i) && p.updates[i].power > 0)
  {
    LastPositiveWrite(p.updates);
  }

  ghost predicate Alive(v: View) {
    v.vals != map[] && v.target != map[]
  }

  /** Over any run whose snapshots have distinct keys, the set is never empty. */
  lemma {:induction false} NeverEmpties(v: View, events: seq<Event>)
    requires Alive(v)
    requires forall i :: 0 <= i < |events| && events[i].Deliver? && events[i].packet.snapshot
               ==> DistinctKeys(events[i].packet.updates)
    ensures Alive(Run(v, events))
    decreases |events|
  {
    if events != [] {
      var init, e := events[..|events| - 1], events[|events| - 1];
      NeverEmpties(v, init);
      assert e == events[|events| - 1];
      if e.Deliver? && e.packet.snapshot {
        SnapshotGuardExact(e.packet.updates);
      }
    }
  }

  // What the consensus engine is told.

  /** The updates forwarded: removals of validators already gone are dropped. */
  function Forwarded(vals: ValSet, us: seq<Update>): seq<Update> {
    if us == [] then [] else
      var init, u := us[..|us| - 1], us[|us| - 1];
      Forwarded(vals, init) + if u.power < 1 && u.key !in Overlay(vals, init) then [] else [u]
  }

  /** CometBFT accepts distinct non-negative updates that remove only members and leave a non-empty set. */
  ghost predicate EngineAccepts(vals: ValSet, us: seq<Update>) {
    && DistinctKeys(us) && NonNegative(us)
    && (forall i :: 0 <= i < |us| && us[i].power == 0 ==> us[i].key in vals)
    && Overlay(vals, us) != map[]
  }

  lemma OverlaySnoc(vals: ValSet, us: seq<Update>, u: Update)
    ensures Overlay(vals, us + [u]) == Updated(Overlay(vals, us), u)
  {
    assert (us + [u])[..|us|] == us;
  }

  lemma {:induction false} ForwardedOverlays(vals: ValSet, us: seq<Update>)
    ensures Overlay(vals, Forwarded(vals, us)) == Overlay(vals, us)
    decreases |us|
  {
    if us != [] {
      var init, u := us[..|us| - 1], us[|us| - 1];
      ForwardedOverlays(vals, init);
      ForwardedStep(vals, init, u);
      assert us == init + [u];
    }
  }

  lemma ForwardedStep(vals: ValSet, init: seq<Update>, u: Update)
    requires Overlay(vals, Forwarded(vals, init)) == Overlay(vals, init)
    ensures Overlay(vals, Forwarded(vals, init + [u])) == Overlay(vals, init + [u])
  {
    assert (init + [u])[..|init|] == init;
    OverlaySnoc(vals, init, u);
    OverlaySnoc(vals, Forwarded(vals, init), u);
    var set' := Overlay(vals, init);
    assert u.key !in set' ==> set' - {u.key} == set';
    assert Forwarded(vals, init) + [] == Forwarded(vals, init);
  }

  lemma {:induction false} UntouchedStays(vals: ValSet, us: seq<Update>, k: PubKey)
    requires forall i :: 0 <= i < |us| ==> us[i].key != k
    ensures k in Overlay(vals, us) <==> k in vals
    decreases |us|
  {
    if us != [] {
      UntouchedStays(vals, us[..|us| - 1], k);
    }
  }

  lemma {:induction false} ForwardedFromList(vals: ValSet, us: seq<Update>)
    requires DistinctKeys(us) && NonNegative(us)
    ensures DistinctKeys(Forwarded(vals, us)) && NonNegative(Forwarded(vals, us))
    ensures forall i :: 0 <= i < |Forwarded(vals, us)| ==>
      var u := Forwarded(vals, us)[i];
      u in us && (u.power == 0 ==> u.key in vals)
    decreases |us|
  {
    if us != [] {
      var init, u := us[..|us| - 1], us[|us| - 1];
      ForwardedFromList(vals, init);
      UntouchedStays(vals, init, u.key);
      OtherKeys(Forwarded(vals, init), us);
    }
  }

  lemma OtherKeys(kept: seq<Update>, us: seq<Update>)
    requires us != [] && DistinctKeys(us)
    requires forall i :: 0 <= i < |kept| ==> kept[i] in us[..|us| - 1]
    ensures forall i :: 0 <= i < |kept| ==> kept[i].key != us[|us| - 1].key
  {
    var init := us[..|us| - 1];
    forall i | 0 <= i < |kept| ensures kept[i].key != us[|us| - 1].key {
      var j :| 0 <= j < |init| && init[j] == kept[i];
      assert us[j] == init[j];
    }
  }

  /** What a flush reports turns the engine's set into the stored one, and the engine accepts it. */
  lemma EngineFollows(vals: ValSet, us: seq<Update>)
    requires DistinctKeys(us) && NonNegative(us) && Overlay(vals, us) != map[]
    ensures EngineAccepts(vals, Forwarded(vals, us))
    ensures Overlay(vals, Forwarded(vals, us)) == Overlay(vals, us)
  {
    ForwardedOverlays(vals, us);
    ForwardedFromList(vals, us);
  }

  // The keeper.

  /** A removal of each of the keys, in some order. */
  ghost predicate Removes(us: seq<Update>, keys: set<PubKey>) {
    DistinctKeys(us) && Keys(us) == keys && forall i :: 0 <= i < |us| ==> us[i].power == 0
  }

  lemma {:induction false} KeysWritten(us: seq<Update>)
    ensures LastWrites(us).Keys == Keys(us)
    decreases |us|
  {
    if us != [] {
      var init, last := us[..|us| - 1], us[|us| - 1];
      KeysWritten(init);
      assert us == init + [last];
      KeysConcat(init, [last]);
      assert [last][0].key in Keys([last]);
    }
  }

  /** Overlaying a set with a target and a removal of everyone else gives the target alone. */
  lemma ReplaceReachesTarget(vals: ValSet, target: seq<Update>, gone: seq<Update>)
    requires Removes(gone, vals.Keys - Keys(target))
    ensures Overlay(vals, target + gone) == Overlay(map[], target)
  {
    OverlayIsMerge(vals, target + gone);
    OverlayIsMerge(map[], target);
    LastWritesAppend(target, gone);
    KeysWritten(target);
    KeysWritten(gone);
    var zeros := LastWrites(gone);
    forall k | k in zeros ensures zeros[k] == 0 {
      var i := WriteHasLast(gone, k);
    }
    MergeReplaces(vals, LastWrites(target), zeros);
  }

  lemma MergeReplaces(vals: ValSet, target: map<PubKey, int>, zeros: map<PubKey, int>)
    requires zeros.Keys == vals.Keys - target.Keys
    requires forall k :: k in zeros ==> zeros[k] == 0
    ensures Merge(vals, target + zeros) == Merge(map[], target)
  {
    var a, b := Merge(vals, target + zeros), Merge(map[], target);
    forall k ensures k in a <==> k in b {
    }
  }

  lemma ReplaceKeepsDistinct(vals: ValSet, target: seq<Update>, gone: seq<Update>)
    requires Removes(gone, vals.Keys - Keys(target)) && DistinctKeys(target)
    ensures DistinctKeys(target + gone)
  {
    forall i | 0 <= i < |target| ensures target[i].key in Keys(target) {
    }
    forall i | 0 <= i < |gone| ensures gone[i].key in Keys(gone) {
    }
  }

  lemma RemovesOneMore(us: seq<Update>, keys: set<PubKey>, k: PubKey)
    requires Removes(us, keys) && k !in keys
    ensures Removes(us + [Update(k, 0)], keys + {k})
  {
    KeysConcat(us, [Update(k, 0)]);
    assert [Update(k, 0)][0].key in Keys([Update(k, 0)]);
    forall i | 0 <= i < |us| ensures us[i].key in Keys(us) {
    }
  }

  lemma OnListed(vals: ValSet, us: seq<Update>)
    requires Lists(us, vals) && AllPositive(vals)
    ensures LastWrites(us) == vals
  {
    ListedWrites(us, vals);
  }

  lemma PositiveListed(us: seq<Update>, writes: map<PubKey, int>)
    requires Lists(us, writes)
    ensures HasPositive(us) <==> Merge(map[], writes) != map[]
  {
    if HasPositive(us) {
      var i :| 0 <= i < |us| && us[i].power > 0;
      assert us[i].key in Keys(us);
      assert us[i].key in Merge(map[], writes);
    }
    if Merge(map[], writes) != map[] {
      var k := Ordering.Pick(Merge(map[], writes).Keys);
      assert k in Keys(us);
      var i :| 0 <= i < |us| && us[i].key == k;
      assert us[i].power > 0;
    }
  }

  lemma MergeOverListing(vals: ValSet, writes: map<PubKey, int>)
    requires AllPositive(vals)
    ensures Merge(map[], vals + writes) == Merge(vals, writes)
  {
    var a, b := Merge(map[], vals + writes), Merge(vals, writes);
    forall k ensures k in a <==> k in b {
    }
  }

  method HasPositivePower(us: seq<Update>) returns (b: bool)
    ensures b <==> HasPositive(us)
  {
    for i := 0 to |us|
      invariant forall j :: 0 <= j < i ==> us[j].power <= 0
    {
      if us[i].power > 0 {
        return true;
      }
    }
    return false;
  }

  class Consumer {
    var vals: ValSet
    var pending: Option<seq<Update>>
    var highest: Option<nat>
    var providerChainId: Option<ChainId>
    var pinnedClient: Option<ClientId>
    var lastRecv: Option<Time>
    var inDebt: bool
    const tracker: Tracker

    /** A new chain: the genesis set, a pinned chain id or none, and no client pinned. */
    constructor (vals: ValSet, providerChainId: Option<ChainId>, tracker: Tracker)
      requires AllPositive(vals)
      ensures Valid() && this.vals == vals && pending.None? && highest.None?
      ensures this.providerChainId == providerChainId && pinnedClient.None? && this.tracker == tracker
    {
      this.vals, this.pending, this.highest := vals, None, None;
      this.providerChainId, this.pinnedClient, this.lastRecv, this.inDebt := providerChainId, None, None, false;
      this.tracker := tracker;
    }

    ghost predicate Valid()
      reads this
    {
      AllPositive(vals) && NonNegative(pending.GetOr([]))
    }

    ghost function Current(): View
      reads this
    {
      View(vals, Overlay(vals, pending.GetOr([])), highest)
    }

    /** The client tracks the pinned chain (or none is pinned yet) and is itself the pinned client. */
    predicate Authentic(client: ClientId, state: Option<ClientState>)
      reads this
    {
      && state.Some? && state.value.Tendermint?
      && (providerChainId.None? || providerChainId.value == state.value.chainId)
      && pinnedClient.Some? && pinnedClient.value != NO_CLIENT && pinnedClient.value == client
    }

    method AuthenticateProviderChainID(state: Option<ClientState>) returns (ok: bool)
      modifies this`providerChainId
      ensures ok <==> state.Some? && state.value.Tendermint?
                      && (old(providerChainId).None? || old(providerChainId).value == state.value.chainId)
      ensures providerChainId == if ok then Some(state.value.chainId) else old(providerChainId)
    {
      if state.None? || !state.value.Tendermint? {
        return false;
      }
      if providerChainId.None? {
        providerChainId := Some(state.value.chainId);
        return true;
      }
      return providerChainId.value == state.value.chainId;
    }

    method EnforcePinnedProviderClient(client: ClientId) returns (ok: bool)
      ensures ok <==> pinnedClient.Some? && pinnedClient.value != NO_CLIENT && pinnedClient.value == client
    {
      if pinnedClient.None? || pinnedClient.value == NO_CLIENT {
        return false;
      }
      return pinnedClient.value == client;
    }

    method WouldEmptyValidatorSet(p: VscPacket) returns (b: bool)
      requires Valid()
      ensures b <==> Empties(Current(), p)
    {
      if p.snapshot {
        var positive := HasPositivePower(p.updates);
        return !positive;
      }
      var resulting := WalkMap(vals);
      OnListed(vals, resulting);
      ghost var writes := vals;
      if pending.Some? {
        resulting := AccumulateChanges(resulting, pending.value);
        writes := vals + LastWrites(pending.value);
        ListedWrites(resulting, writes);
      }
      assert writes == vals + LastWrites(pending.GetOr([]));
      resulting := AccumulateChanges(resulting, p.updates);
      PositiveListed(resulting, writes + LastWrites(p.updates));
      EmptiesByWrites(p, writes + LastWrites(p.updates));
      var positive := HasPositivePower(resulting);
      b := !positive;
    }

    lemma EmptiesByWrites(p: VscPacket, writes: map<PubKey, int>)
      requires Valid() && !p.snapshot
      requires writes == vals + LastWrites(pending.GetOr([])) + LastWrites(p.updates)
      ensures Empties(Current(), p) <==> Merge(map[], writes) == map[]
    {
      var us := pending.GetOr([]);
      OverlayIsMerge(vals, us);
      OverlayIsMerge(Overlay(vals, us), p.updates);
      MergeTwice(vals, LastWrites(us), LastWrites(p.updates));
      MergeOverListing(vals, LastWrites(us) + LastWrites(p.updates));
      PlusAssociative(vals, LastWrites(us), LastWrites(p.updates));
    }

    /** The target plus a removal of every current validator absent from it. */
    method ComputeReplaceUpdates(target: seq<Update>) returns (updates: seq<Update>)
      requires NonNegative(target)
      ensures NonNegative(updates)
      ensures Overlay(vals, updates) == Overlay(map[], target)
      ensures DistinctKeys(target) ==> DistinctKeys(updates)
    {
      var inTarget := KeySet(target);
      var gone := RemovalsOutside(inTarget);
      updates := target + gone;
      ReplaceReachesTarget(vals, target, gone);
      if DistinctKeys(target) {
        ReplaceKeepsDistinct(vals, target, gone);
      }
    }

    /** A removal for each current validator outside the target. */
    method RemovalsOutside(inTarget: set<PubKey>) returns (gone: seq<Update>)
      ensures Removes(gone, vals.Keys - inTarget)
    {
      gone := [];
      ghost var done: set<PubKey> := {};
      var rest := vals.Keys;
      while rest != {}
        invariant done !! rest && done + rest == vals.Keys
        invariant Removes(gone, done - inTarget)
        decreases |rest|
      {
        var k := Ordering.Least(rest);
        if k !in inTarget {
          RemovesOneMore(gone, done - inTarget, k);
          assert done - inTarget + {k} == done + {k} - inTarget;
          gone := gone + [Update(k, 0)];
        } else {
          assert done + {k} - inTarget == done - inTarget;
        }
        done := done + {k};
        rest := rest - {k};
      }
      assert done == vals.Keys;
    }

    static method KeySet(us: seq<Update>) returns (keys: set<PubKey>)
      ensures keys == Keys(us)
    {
      keys := {};
      for i := 0 to |us|
        invariant keys == Keys(us[..i])
      {
        assert us[..i + 1] == us[..i] + [us[i]];
        KeysConcat(us[..i], [us[i]]);
        assert [us[i]][0].key in Keys([us[i]]);
        keys := keys + {us[i].key};
      }
      assert us[..|us|] == us;
    }

    /** What is pending once the packet is taken in. */
    method PendingAfter(p: VscPacket) returns (next: seq<Update>)
      requires Valid() && ValidPacket(p)
      ensures NonNegative(next)
      ensures Overlay(vals, next) == Received(Current(), p).target
      ensures (p.snapshot ==> DistinctKeys(p.updates)) ==> DistinctKeys(next)
    {
      if p.snapshot {
        next := ComputeReplaceUpdates(p.updates);
      } else {
        var current := pending.GetOr([]);
        next := AccumulateChanges(current, p.updates);
        AccumulateOverlays(vals, current, p.updates, next);
        AccumulateNonNegative(next, current, p.updates);
      }
    }

    /**
     * There are validators, and there will be after the next flush, whose list names each key once: what keeps
     * the consensus engine accepting every flush.
     */
    ghost predicate Healthy()
      reads this
    {
      Alive(Current()) && DistinctKeys(pending.GetOr([]))
    }

    /** Authentication: the packet's client tracks the pinned chain and is the pinned client. */
    method Authenticate(client: ClientId, state: Option<ClientState>) returns (ok: bool)
      modifies this`providerChainId
      ensures ok <==> old(Authentic(client, state))
      ensures old(providerChainId).Some? ==> providerChainId == old(providerChainId)
    {
      ok := AuthenticateProviderChainID(state);
      if ok {
        ok := EnforcePinnedProviderClient(client);
      }
    }

    method OnRecvVSCPacketV2(client: ClientId, state: Option<ClientState>, p: VscPacket, now: Time)
      returns (outcome: Outcome)
      requires Valid() && tracker.Valid()
      modifies this`pending, this`highest, this`providerChainId, this`lastRecv, this`inDebt, tracker`staged
      ensures Valid() && tracker.Valid()
      ensures outcome == Judge(old(Current()), p, old(Authentic(client, state)))
      ensures outcome == Accepted <==>
        && p.id > 0 && (forall i :: 0 <= i < |p.updates| ==> Decodes(p.updates[i].key) && p.updates[i].power >= 0)
        && state.Some? && state.value.Tendermint? && client != NO_CLIENT && old(pinnedClient) == Some(client)
        && (old(providerChainId).Some? ==> old(providerChainId) == Some(state.value.chainId))
        && (old(highest).Some? ==> p.id > old(highest).value)
        && if p.snapshot then exists i :: 0 <= i < |p.updates| && p.updates[i].power > 0
           else Overlay(old(Current()).target, p.updates) != map[]
      ensures outcome == Accepted && p.params.Some? && ValidDowntimeParams(p.params.value) ==>
        tracker.staged.GetOr(tracker.params) == p.params.value
      ensures outcome == Accepted ==>
        && TookIn(p, now)
        && Current() == Received(old(Current()), p)
        && tracker.staged == StagedAfter(old(tracker.staged), tracker.params, p.params)
      ensures outcome != Accepted ==>
        && pending == old(pending) && highest == old(highest) && lastRecv == old(lastRecv) && inDebt == old(inDebt)
        && tracker.staged == old(tracker.staged)
      ensures old(providerChainId).Some? ==> providerChainId == old(providerChainId)
      ensures old(Healthy()) && (p.snapshot ==> DistinctKeys(p.updates)) ==> Healthy()
    {
      outcome := Receive(client, state, p, now);
    }

    /** The checks in order, and what an accepted packet changes. */
    method Receive(client: ClientId, state: Option<ClientState>, p: VscPacket, now: Time) returns (outcome: Outcome)
      requires Valid() && tracker.Valid()
      modifies this`pending, this`highest, this`providerChainId, this`lastRecv, this`inDebt, tracker`staged
      ensures Valid() && tracker.Valid()
      ensures outcome == Judge(old(Current()), p, old(Authentic(client, state)))
      ensures outcome == Accepted ==>
        && TookIn(p, now)
        && Current() == Received(old(Current()), p)
        && tracker.staged == StagedAfter(old(tracker.staged), tracker.params, p.params)
      ensures outcome != Accepted ==>
        && pending == old(pending) && highest == old(highest) && lastRecv == old(lastRecv) && inDebt == old(inDebt)
        && tracker.staged == old(tracker.staged)
      ensures old(providerChainId).Some? ==> providerChainId == old(providerChainId)
      ensures old(Healthy()) && (p.snapshot ==> DistinctKeys(p.updates)) ==> Healthy()
    {
      if p.snapshot && DistinctKeys(p.updates) {
        SnapshotGuardExact(p.updates);
      }
      var valid := ValidateVsc(p);
      if !valid {
        return Rejected(InvalidPacket);
      }
      var authentic := Authenticate(client, state);
      if !authentic {
        return Rejected(InvalidProviderClient);
      }
      if highest.Some? && p.id <= highest.value {
        return Skipped;
      }
      var empty := WouldEmptyValidatorSet(p);
      if empty {
        return Rejected(EmptyValidatorSet);
      }
      TakeIn(p, now);
      return Accepted;
    }

    ghost predicate TookIn(p: VscPacket, now: Time)
      reads this
    {
      && lastRecv == Some(now) && inDebt == p.inDebt
      && ((p.snapshot ==> DistinctKeys(p.updates)) ==> DistinctKeys(pending.GetOr([])))
    }

    method StageEchoed(params: Option<DowntimeParams>)
      requires tracker.Valid()
      modifies tracker`staged
      ensures tracker.Valid() && tracker.staged == StagedAfter(old(tracker.staged), tracker.params, params)
    {
      if params.Some? {
        tracker.StageDowntimeParams(params.value);
      }
    }

    /** Everything an accepted packet changes. */
    method TakeIn(p: VscPacket, now: Time)
      requires Valid() && tracker.Valid() && ValidPacket(p)
      modifies this`pending, this`highest, this`lastRecv, this`inDebt, tracker`staged
      ensures Valid() && tracker.Valid() && TookIn(p, now)
      ensures Current() == Received(old(Current()), p)
      ensures tracker.staged == StagedAfter(old(tracker.staged), tracker.params, p.params)
    {
      var next := PendingAfter(p);
      lastRecv := Some(now);
      StageEchoed(p.params);
      inDebt := p.inDebt;
      pending := Some(next);
      highest := Some(p.id);
    }

    method ApplyVaasValidatorChanges(changes: seq<Update>) returns (ret: seq<Update>)
      requires Valid()
      modifies this`vals
      ensures Valid()
      ensures vals == Overlay(old(vals), changes) && ret == Forwarded(old(vals), changes)
    {
      ret := [];
      assert changes[..0] == [];
      for i := 0 to |changes|
        invariant Valid()
        invariant vals == Overlay(old(vals), changes[..i]) && ret == Forwarded(old(vals), changes[..i])
      {
        var change := changes[i];
        assert changes[..i + 1][..i] == changes[..i];
        if change.key in vals {
          if change.power < 1 {
            vals := vals - {change.key};
          } else {
            vals := vals[change.key := change.power];
          }
        } else if change.power > 0 {
          vals := vals[change.key := change.power];
        } else {
          assert vals - {change.key} == vals;
          continue;
        }
        ret := ret + [change];
      }
      assert changes[..|changes|] == changes;
    }

    /** Flushes what is pending; the updates returned go to the consensus engine. */
    method EndBlock() returns (updates: seq<Update>)
      requires Valid()
      modifies this`vals, this`pending
      ensures Valid() && pending.None?
      ensures Current() == Step(old(Current()), BlockEnd)
      ensures Overlay(old(vals), updates) == vals
      ensures DistinctKeys(old(pending).GetOr([])) && vals != map[] ==> EngineAccepts(old(vals), updates)
      ensures old(Healthy()) ==> Healthy() && EngineAccepts(old(vals), updates)
    {
      if pending.None? {
        return [];
      }
      updates := ApplyVaasValidatorChanges(pending.value);
      ForwardedOverlays(old(vals), pending.value);
      if DistinctKeys(pending.value) && vals != map[] {
        EngineFollows(old(vals), pending.value);
      }
      pending := None;
    }
  }

  lemma AccumulateNonNegative(out: seq<Update>, a: seq<Update>, b: seq<Update>)
    requires Accumulates(out, a, b) && NonNegative(a) && NonNegative(b)
    ensures NonNegative(out)
  {
    WritesNonNegative(a);
    WritesNonNegative(b);
    forall i | 0 <= i < |out| ensures out[i].power >= 0 {
      assert out[i].key in Keys(out);
    }
  }

  lemma {:induction false} WritesNonNegative(us: seq<Update>)
    requires NonNegative(us)
    ensures forall k :: k in LastWrites(us) ==> LastWrites(us)[k] >= 0
    decreases |us|
  {
    if us != [] {
      WritesNonNegative(us[..|us| - 1]);
    }
  }

  /** What is staged for the next window once a packet's parameters are taken in. */
  function StagedAfter(staged: Option<DowntimeParams>, active: DowntimeParams, echoed: Option<DowntimeParams>)
    : Option<DowntimeParams>
  {
    if echoed.None? || !ValidDowntimeParams(echoed.value) then staged
    else if echoed.value == active then None
    else echoed
  }
}
