/** The keys validators have assigned on consumers, and how they follow a rotation of the provider key. */
module KeyAssignment {
  import opened Common
  import opened Accusations

  type ConsumerKey = nat

  /** The consumer address of a key; distinct keys have distinct addresses. */
  function AddrOf(key: ConsumerKey): Address {
    key + 1
  }

  /** An entry of a consumer's stored validator set, which repeats the address it is kept under. */
  datatype Member = Member(provider: Address, power: int)

  function Repointed(
    reverse: map<Pair, Address>, c: ConsumerId, oldAddr: Address, newAddr: Address): map<Pair, Address>
  {
    map p | p in reverse :: if p.consumer == c && reverse[p] == oldAddr then newAddr else reverse[p]
  }

  /** The address an accusation of a on consumer c resolves to. */
  function Resolves(reverse: map<Pair, Address>, c: ConsumerId, a: Address): Address {
    if Pair(c, a) in reverse then reverse[Pair(c, a)] else a
  }

  function MembersOf(members: map<Pair, Member>, c: ConsumerId): set<Address> {
    set p | p in members && p.consumer == c :: p.addr
  }

  /**
   * On a consumer where the validator has an assigned key, an accusation that resolved to the old address
   * through a mapping resolves to the new one; every other resolution stays as it was.
   */
  lemma ResolutionFollows(
    reverse: map<Pair, Address>, c: ConsumerId, oldAddr: Address, newAddr: Address, d: ConsumerId, a: Address)
    ensures Resolves(Repointed(reverse, c, oldAddr, newAddr), d, a)
         == if d == c && Pair(c, a) in reverse && reverse[Pair(c, a)] == oldAddr then newAddr
            else Resolves(reverse, d, a)
  {
  }

  /**
   * The pair an accusation is filed under moves with the windows recorded under it, unless it names the
   * rotating validator by its own provider address and no mapping says so.
   */
  lemma ResolutionIsRenaming(reverse: map<Pair, Address>, c: ConsumerId, oldAddr: Address, newAddr: Address, a: Address)
    requires oldAddr != newAddr
    ensures Pair(c, Resolves(Repointed(reverse, c, oldAddr, newAddr), c, a))
         == RenamedPair(Pair(c, Resolves(reverse, c, a)), Pair(c, oldAddr), Pair(c, newAddr))
      <==> !(a == oldAddr && Pair(c, a) !in reverse)
  {
  }

  datatype KeyState = KeyState(
    consumerKeys: map<Pair, ConsumerKey>,
    reverse: map<Pair, Address>,
    members: map<Pair, Member>,
    toPrune: map<Pair, Time>)

  /** The entries under the old address stand under the new one, on the consumers of who. */
  function MovedEntries<V>(m: map<Pair, V>, who: set<ConsumerId>, oldAddr: Address, newAddr: Address): map<Pair, V> {
    map p | p in m.Keys + (set q | q in m && q.consumer in who && q.addr == oldAddr :: Pair(q.consumer, newAddr))
            && !(p.consumer in who && p.addr == oldAddr)
      :: if p.consumer in who && p.addr == newAddr && Pair(p.consumer, oldAddr) in m
         then m[Pair(p.consumer, oldAddr)] else m[p]
  }

  /** The entry under the old pair, if there is one, stands under the new one. */
  function MovedEntry<V>(m: map<Pair, V>, p: Pair, q: Pair): map<Pair, V> {
    if p in m then (m - {p})[q := m[p]] else m
  }

  lemma MovedEntryAt<V>(m: map<Pair, V>, who: set<ConsumerId>, oldAddr: Address, newAddr: Address, p: Pair)
    requires oldAddr != newAddr
    ensures var old' := Pair(p.consumer, oldAddr);
            var was := if p.consumer in who && p.addr == newAddr && old' in m then old' else p;
            var now := MovedEntries(m, who, oldAddr, newAddr);
            && (p in now <==> was in m && !(p.consumer in who && p.addr == oldAddr))
            && (p in now ==> now[p] == m[was])
  {
  }

  lemma MovedOneEntry<V>(m: map<Pair, V>, c: ConsumerId, oldAddr: Address, newAddr: Address)
    requires oldAddr != newAddr
    ensures MovedEntries(m, {c}, oldAddr, newAddr) == MovedEntry(m, Pair(c, oldAddr), Pair(c, newAddr))
  {
    forall p
      ensures p in MovedEntries(m, {c}, oldAddr, newAddr) <==> p in MovedEntry(m, Pair(c, oldAddr), Pair(c, newAddr))
    {
      MovedEntryAt(m, {c}, oldAddr, newAddr, p);
    }
  }

  lemma MovedNoEntry<V>(m: map<Pair, V>, oldAddr: Address, newAddr: Address)
    ensures MovedEntries(m, {}, oldAddr, newAddr) == m
  {
  }

  lemma MovedEntriesNext<V>(m: map<Pair, V>, who: set<ConsumerId>, c: ConsumerId, oldAddr: Address, newAddr: Address)
    requires oldAddr != newAddr && c !in who
    ensures MovedEntries(MovedEntries(m, who, oldAddr, newAddr), {c}, oldAddr, newAddr)
        == MovedEntries(m, who + {c}, oldAddr, newAddr)
    ensures Pair(c, oldAddr) in MovedEntries(m, who, oldAddr, newAddr) <==> Pair(c, oldAddr) in m
  {
    var some, all := MovedEntries(m, who, oldAddr, newAddr), MovedEntries(m, who + {c}, oldAddr, newAddr);
    var next := MovedEntries(some, {c}, oldAddr, newAddr);
    forall p ensures (p in next <==> p in all) && (p in next ==> next[p] == all[p]) {
      MovedEntryAt(m, who, oldAddr, newAddr, p);
      MovedEntryAt(m, who, oldAddr, newAddr, Pair(c, oldAddr));
      MovedEntryAt(m, who + {c}, oldAddr, newAddr, p);
      MovedEntryAt(some, {c}, oldAddr, newAddr, p);
    }
  }

  function Relabelled(members: map<Pair, Member>): map<Pair, Member> {
    map p | p in members :: members[p].(provider := p.addr)
  }

  function RepointedAll(
    reverse: map<Pair, Address>, who: set<ConsumerId>, oldAddr: Address, newAddr: Address): map<Pair, Address>
  {
    map p | p in reverse :: if p.consumer in who && reverse[p] == oldAddr then newAddr else reverse[p]
  }

  /** Assignments, members and mappings follow the rotation on the consumers of who; elsewhere nothing changes. */
  function Migrated(k: KeyState, who: set<ConsumerId>, oldAddr: Address, newAddr: Address): KeyState {
    KeyState(MovedEntries(k.consumerKeys, who, oldAddr, newAddr), RepointedAll(k.reverse, who, oldAddr, newAddr),
             Relabelled(MovedEntries(k.members, who, oldAddr, newAddr)), k.toPrune)
  }

  /** What is kept about consumers outside who. */
  function Outside<V>(m: map<Pair, V>, who: set<ConsumerId>): map<Pair, V> {
    map p | p in m && p.consumer !in who :: m[p]
  }

  /** The keys once the consumers of who are deleted. */
  function Forgotten(k: KeyState, who: set<ConsumerId>): KeyState {
    KeyState(Outside(k.consumerKeys, who), Outside(k.reverse, who), Outside(k.members, who), Outside(k.toPrune, who))
  }

  /** Nothing is kept about the consumers of who, and about the others everything. */
  ghost predicate ErasedFrom(k: KeyState, k': KeyState, who: set<ConsumerId>) {
    forall p: Pair ::
      if p.consumer in who then
        p !in k'.consumerKeys && p !in k'.reverse && p !in k'.members && p !in k'.toPrune
      else
        && (p in k'.consumerKeys <==> p in k.consumerKeys)
        && (p in k'.consumerKeys ==> k'.consumerKeys[p] == k.consumerKeys[p])
        && (p in k'.reverse <==> p in k.reverse) && (p in k'.reverse ==> k'.reverse[p] == k.reverse[p])
        && (p in k'.members <==> p in k.members) && (p in k'.members ==> k'.members[p] == k.members[p])
        && (p in k'.toPrune <==> p in k.toPrune) && (p in k'.toPrune ==> k'.toPrune[p] == k.toPrune[p])
  }

  lemma ForgottenErased(k: KeyState, who: set<ConsumerId>)
    ensures ErasedFrom(k, Forgotten(k, who), who)
  {
  }

  lemma ForgottenNone(k: KeyState)
    ensures Forgotten(k, {}) == k
  {
    assert Outside(k.consumerKeys, {}) == k.consumerKeys && Outside(k.reverse, {}) == k.reverse;
    assert Outside(k.members, {}) == k.members && Outside(k.toPrune, {}) == k.toPrune;
  }

  lemma OutsideNext<V>(m: map<Pair, V>, who: set<ConsumerId>, c: ConsumerId)
    ensures Outside(Outside(m, who), {c}) == Outside(m, who + {c})
  {
  }

  lemma ForgottenNext(k: KeyState, who: set<ConsumerId>, c: ConsumerId)
    ensures Forgotten(Forgotten(k, who), {c}) == Forgotten(k, who + {c})
  {
    OutsideNext(k.consumerKeys, who, c);
    OutsideNext(k.reverse, who, c);
    OutsideNext(k.members, who, c);
    OutsideNext(k.toPrune, who, c);
  }

  /** Every assigned key has its mapping. */
  predicate Mapped(consumerKeys: map<Pair, ConsumerKey>, reverse: map<Pair, Address>) {
    forall p :: p in consumerKeys ==>
      && Pair(p.consumer, AddrOf(consumerKeys[p])) in reverse
      && reverse[Pair(p.consumer, AddrOf(consumerKeys[p]))] == p.addr
  }

  /** What waits to be pruned is mapped but no longer assigned. */
  predicate Superseded(toPrune: map<Pair, Time>, consumerKeys: map<Pair, ConsumerKey>, reverse: map<Pair, Address>) {
    forall t :: t in toPrune ==>
      t in reverse && forall p :: p in consumerKeys && p.consumer == t.consumer ==> AddrOf(consumerKeys[p]) != t.addr
  }

  /** The keys are in order without some consumers, too. */
  lemma ForgottenInOrder(k: KeyState, who: set<ConsumerId>)
    requires Labelled(k.members) && Mapped(k.consumerKeys, k.reverse)
    requires Superseded(k.toPrune, k.consumerKeys, k.reverse)
    ensures var left := Forgotten(k, who);
            && Labelled(left.members) && Mapped(left.consumerKeys, left.reverse)
            && Superseded(left.toPrune, left.consumerKeys, left.reverse)
  {
  }

  /**
   * A key may be assigned on an active consumer if no rotation of this block claims it, no other validator runs
   * it on the provider, it is not the default key of a validator without another, and nobody has or had it there.
   */
  predicate Assignable(
    consumerKeys: map<Pair, ConsumerKey>, reverse: map<Pair, Address>, c: ConsumerId, provider: Address,
    key: ConsumerKey, active: bool, claimed: bool, holder: Option<Address>)
  {
    && active && !claimed
    && (holder.Some? ==> holder.value == provider && Pair(c, provider) in consumerKeys)
    && Pair(c, AddrOf(key)) !in reverse
  }

  /** The consumer address whose mapping goes at once: that of a key replaced before the consumer launched. */
  function Dropped(
    consumerKeys: map<Pair, ConsumerKey>, c: ConsumerId, provider: Address, launched: bool): Option<Address>
  {
    if Pair(c, provider) in consumerKeys && !launched then Some(AddrOf(consumerKeys[Pair(c, provider)])) else None
  }

  function WithoutDropped(reverse: map<Pair, Address>, c: ConsumerId, dropped: Option<Address>): map<Pair, Address> {
    if dropped.Some? then reverse - {Pair(c, dropped.value)} else reverse
  }

  function DueToPrune(toPrune: map<Pair, Time>, who: set<ConsumerId>, now: Time): set<Pair> {
    set t | t in toPrune && t.consumer in who && toPrune[t] <= now
  }

  /** Pruning one more consumer's mappings. */
  lemma PrunedNext(
    reverse: map<Pair, Address>, toPrune: map<Pair, Time>, who: set<ConsumerId>, c: ConsumerId, now: Time)
    ensures var left := toPrune - DueToPrune(toPrune, who, now);
            && toPrune - DueToPrune(toPrune, who + {c}, now) == left - DueToPrune(left, {c}, now)
            && reverse - DueToPrune(toPrune, who + {c}, now)
               == reverse - DueToPrune(toPrune, who, now) - DueToPrune(left, {c}, now)
  {
    var left := toPrune - DueToPrune(toPrune, who, now);
    assert DueToPrune(toPrune, who + {c}, now) == DueToPrune(toPrune, who, now) + DueToPrune(left, {c}, now);
  }

  predicate Labelled(members: map<Pair, Member>) {
    forall p :: p in members ==> members[p].provider == p.addr
  }

  lemma MigratedNone(k: KeyState, oldAddr: Address, newAddr: Address)
    requires Labelled(k.members)
    ensures Migrated(k, {}, oldAddr, newAddr) == k
  {
    MovedNoEntry(k.consumerKeys, oldAddr, newAddr);
    MovedNoEntry(k.members, oldAddr, newAddr);
  }

  lemma MigratedNext(k: KeyState, who: set<ConsumerId>, c: ConsumerId, oldAddr: Address, newAddr: Address)
    requires oldAddr != newAddr && c !in who && Labelled(k.members)
    ensures Migrated(Migrated(k, who, oldAddr, newAddr), {c}, oldAddr, newAddr)
        == Migrated(k, who + {c}, oldAddr, newAddr)
  {
    MovedEntriesNext(k.consumerKeys, who, c, oldAddr, newAddr);
    MembersNext(k.members, who, c, oldAddr, newAddr);
    RepointedNext(k.reverse, who, c, oldAddr, newAddr);
  }

  lemma RepointedNext(
    reverse: map<Pair, Address>, who: set<ConsumerId>, c: ConsumerId, oldAddr: Address, newAddr: Address)
    requires oldAddr != newAddr
    ensures RepointedAll(RepointedAll(reverse, who, oldAddr, newAddr), {c}, oldAddr, newAddr)
         == RepointedAll(reverse, who + {c}, oldAddr, newAddr)
  {
  }

  lemma MembersNext(members: map<Pair, Member>, who: set<ConsumerId>, c: ConsumerId, oldAddr: Address, newAddr: Address)
    requires oldAddr != newAddr && c !in who
    ensures Relabelled(MovedEntries(Relabelled(MovedEntries(members, who, oldAddr, newAddr)), {c}, oldAddr, newAddr))
         == Relabelled(MovedEntries(members, who + {c}, oldAddr, newAddr))
  {
    MovedEntriesNext(members, who, c, oldAddr, newAddr);
    RelabelledMove(MovedEntries(members, who, oldAddr, newAddr), c, oldAddr, newAddr);
  }

  lemma RelabelledMove(members: map<Pair, Member>, c: ConsumerId, oldAddr: Address, newAddr: Address)
    requires oldAddr != newAddr
    ensures Relabelled(MovedEntries(Relabelled(members), {c}, oldAddr, newAddr))
        == Relabelled(MovedEntries(members, {c}, oldAddr, newAddr))
  {
    var a, b := MovedEntries(Relabelled(members), {c}, oldAddr, newAddr), MovedEntries(members, {c}, oldAddr, newAddr);
    forall p ensures (p in a <==> p in b) && (p in a ==> a[p].(provider := p.addr) == b[p].(provider := p.addr)) {
      MovedEntryAt(Relabelled(members), {c}, oldAddr, newAddr, p);
      MovedEntryAt(members, {c}, oldAddr, newAddr, p);
    }
  }

  /** A member moves with the address it carries. */
  function MovedMember(members: map<Pair, Member>, p: Pair, q: Pair): map<Pair, Member> {
    if p in members then (members - {p})[q := members[p].(provider := q.addr)] else members
  }

  /** What one consumer's migration amounts to. */
  lemma MigratedOne(k: KeyState, c: ConsumerId, oldAddr: Address, newAddr: Address)
    requires oldAddr != newAddr && Labelled(k.members)
    ensures var now := Migrated(k, {c}, oldAddr, newAddr);
            && now.consumerKeys == MovedEntry(k.consumerKeys, Pair(c, oldAddr), Pair(c, newAddr))
            && now.reverse == Repointed(k.reverse, c, oldAddr, newAddr)
            && now.members == MovedMember(k.members, Pair(c, oldAddr), Pair(c, newAddr))
  {
    MovedOneEntry(k.consumerKeys, c, oldAddr, newAddr);
    MovedOneEntry(k.members, c, oldAddr, newAddr);
  }

  /**
   * Where the keys stand after a rotation on the consumers of who, on which the validator had a key: that key and the
   * stored power are kept under the new address and no longer under the old one, and what was mapped to the old
   * address is mapped to the new one. Nothing else changes.
   */
  ghost predicate KeysFollow(k: KeyState, k': KeyState, who: set<ConsumerId>, oldAddr: Address, newAddr: Address) {
    && (forall c :: c in who && Pair(c, oldAddr) in k.consumerKeys ==>
          && Pair(c, oldAddr) !in k'.consumerKeys && Pair(c, newAddr) in k'.consumerKeys
          && k'.consumerKeys[Pair(c, newAddr)] == k.consumerKeys[Pair(c, oldAddr)])
    && (forall c :: c in who && Pair(c, oldAddr) in k.members ==>
          && Pair(c, oldAddr) !in k'.members && Pair(c, newAddr) in k'.members
          && k'.members[Pair(c, newAddr)] == Member(newAddr, k.members[Pair(c, oldAddr)].power))
    && (forall p: Pair :: p.consumer !in who || (p.addr != oldAddr && p.addr != newAddr) ==>
          && (p in k'.consumerKeys <==> p in k.consumerKeys)
          && (p in k'.consumerKeys ==> k'.consumerKeys[p] == k.consumerKeys[p])
          && (p in k'.members <==> p in k.members) && (p in k'.members ==> k'.members[p] == k.members[p]))
    && k'.reverse.Keys == k.reverse.Keys && k'.toPrune == k.toPrune
    && (forall p :: p in k.reverse ==>
          k'.reverse[p] == if p.consumer in who && k.reverse[p] == oldAddr then newAddr else k.reverse[p])
  }

  lemma MigrationFollows(k: KeyState, who: set<ConsumerId>, oldAddr: Address, newAddr: Address)
    requires oldAddr != newAddr && Labelled(k.members)
    ensures KeysFollow(k, Migrated(k, who, oldAddr, newAddr), who, oldAddr, newAddr)
  {
  }

  /**
   * What an assignment does to the mappings: the new key's address is mapped. The address of the key it replaces stays
   * mapped until pruneAt if the consumer serves its set, and otherwise goes at once; no other mapping changes.
   */
  ghost predicate Replaces(
    k: KeyState, k': KeyState, c: ConsumerId, provider: Address, key: ConsumerKey, served: bool, pruneAt: Time)
  {
    var had := Pair(c, provider) in k.consumerKeys;
    && (forall t: Pair :: t != Pair(c, AddrOf(key)) ==>
          if had && t == Pair(c, AddrOf(k.consumerKeys[Pair(c, provider)])) then
            if served then t in k'.reverse && k'.reverse[t] == provider && t in k'.toPrune && k'.toPrune[t] == pruneAt
            else t !in k'.reverse
          else
            && (t in k'.reverse <==> t in k.reverse) && (t in k'.reverse ==> k'.reverse[t] == k.reverse[t])
            && (t in k'.toPrune <==> t in k.toPrune) && (t in k'.toPrune ==> k'.toPrune[t] == k.toPrune[t]))
    && Pair(c, AddrOf(key)) in k'.reverse && k'.reverse[Pair(c, AddrOf(key))] == provider
    && k'.consumerKeys == k.consumerKeys[Pair(c, provider) := key] && k'.members == k.members
  }

  class KeyBook {
    var consumerKeys: map<Pair, ConsumerKey>
    var reverse: map<Pair, Address>
    var members: map<Pair, Member>
    var toPrune: map<Pair, Time>

    /** Members are kept under the address they carry, and every mapping in use is there. */
    ghost predicate Valid()
      reads this
    {
      Labelled(members) && Mapped(consumerKeys, reverse) && Superseded(toPrune, consumerKeys, reverse)
    }

    ghost function Current(): KeyState
      reads this
    {
      KeyState(consumerKeys, reverse, members, toPrune)
    }

    constructor ()
      ensures Valid() && consumerKeys == map[] && reverse == map[] && members == map[] && toPrune == map[]
    {
      consumerKeys, reverse, members, toPrune := map[], map[], map[], map[];
    }

    /**
     * Assigns a key. launched says whether the consumer has launched and is not stopped: only then must the
     * replaced key stay resolvable, until it is pruned.
     */
    method AssignConsumerKey(
      c: ConsumerId, provider: Address, key: ConsumerKey, active: bool, launched: bool, claimed: bool,
      holder: Option<Address>, pruneAt: Time) returns (ok: bool)
      requires Valid()
      modifies this`consumerKeys, this`reverse, this`toPrune
      ensures Valid()
      ensures ok <==> Assignable(old(consumerKeys), old(reverse), c, provider, key, active, claimed, holder)
      ensures ok ==>
        var left := WithoutDropped(old(reverse), c, Dropped(old(consumerKeys), c, provider, launched));
        && consumerKeys == old(consumerKeys)[Pair(c, provider) := key]
        && reverse == left[Pair(c, AddrOf(key)) := provider]
        && toPrune == if Pair(c, provider) in old(consumerKeys) && launched
                      then old(toPrune)[Pair(c, AddrOf(old(consumerKeys)[Pair(c, provider)])) := pruneAt]
                      else old(toPrune)
      ensures !ok ==> Current() == old(Current())
      ensures ok ==> Replaces(old(Current()), Current(), c, provider, key, launched, pruneAt)
    {
      if !active || claimed {
        return false;
      }
      if holder.Some? && (holder.value != provider || Pair(c, provider) !in consumerKeys) {
        return false;
      }
      if Pair(c, AddrOf(key)) in reverse {
        return false;
      }
      if Pair(c, provider) in consumerKeys {
        var replaced := Pair(c, AddrOf(consumerKeys[Pair(c, provider)]));
        if launched {
          toPrune := toPrune[replaced := pruneAt];
        } else {
          reverse := reverse - {replaced};
        }
      }
      consumerKeys := consumerKeys[Pair(c, provider) := key];
      reverse := reverse[Pair(c, AddrOf(key)) := provider];
      return true;
    }

    /** Forgets the consumer's superseded addresses whose time has come. */
    method PruneKeyAssignments(c: ConsumerId, now: Time)
      requires Valid()
      modifies this`reverse, this`toPrune
      ensures Valid()
      ensures reverse == old(reverse) - DueToPrune(old(toPrune), {c}, now)
      ensures toPrune == old(toPrune) - DueToPrune(old(toPrune), {c}, now)
    {
      var due := DueToPrune(toPrune, {c}, now);
      reverse := reverse - due;
      toPrune := toPrune - due;
    }

    /** Deletes a consumer's key assignments, mappings and stored set. */
    method EraseConsumer(c: ConsumerId)
      modifies this
      ensures Current() == Forgotten(old(Current()), {c}) && (old(Valid()) ==> Valid())
    {
      consumerKeys := Outside(consumerKeys, {c});
      reverse := Outside(reverse, {c});
      toPrune := Outside(toPrune, {c});
      members := Outside(members, {c});
    }

    /** Moves the assignment and repoints every reverse mapping; reports whether there was an assignment. */
    method MigrateKeyAssignment(c: ConsumerId, oldAddr: Address, newAddr: Address) returns (hadKey: bool)
      requires Valid() && oldAddr != newAddr
      modifies this`consumerKeys, this`reverse
      ensures Valid()
      ensures hadKey <==> Pair(c, oldAddr) in old(consumerKeys)
      ensures consumerKeys == MovedEntry(old(consumerKeys), Pair(c, oldAddr), Pair(c, newAddr))
      ensures reverse == if hadKey then Repointed(old(reverse), c, oldAddr, newAddr) else old(reverse)
    {
      if Pair(c, oldAddr) !in consumerKeys {
        return false;
      }
      var key := consumerKeys[Pair(c, oldAddr)];
      consumerKeys := consumerKeys - {Pair(c, oldAddr)};
      consumerKeys := consumerKeys[Pair(c, newAddr) := key];
      RepointReverse(c, oldAddr, newAddr);
      return true;
    }

    method RepointReverse(c: ConsumerId, oldAddr: Address, newAddr: Address)
      requires oldAddr != newAddr
      modifies this`reverse
      ensures reverse == Repointed(old(reverse), c, oldAddr, newAddr)
    {
      var todo := reverse.Keys;
      while todo != {}
        invariant todo <= reverse.Keys && reverse.Keys == old(reverse).Keys
        invariant forall p :: p in todo ==> reverse[p] == old(reverse)[p]
        invariant forall p :: p in reverse && p !in todo
                    ==> reverse[p] == Repointed(old(reverse), c, oldAddr, newAddr)[p]
        decreases |todo|
      {
        var p :| p in todo;
        if p.consumer == c && reverse[p] == oldAddr {
          reverse := reverse[p := newAddr];
        }
        todo := todo - {p};
      }
    }

    /** Moves the validator's entry in the consumer's stored set. */
    method MigrateConsumerValidator(c: ConsumerId, oldAddr: Address, newAddr: Address)
      requires Valid() && oldAddr != newAddr
      modifies this`members
      ensures Valid()
      ensures members == MovedMember(old(members), Pair(c, oldAddr), Pair(c, newAddr))
    {
      if Pair(c, oldAddr) !in members {
        return;
      }
      var member := members[Pair(c, oldAddr)];
      members := members - {Pair(c, oldAddr)};
      members := members[Pair(c, newAddr) := member.(provider := newAddr)];
    }
  }
}
