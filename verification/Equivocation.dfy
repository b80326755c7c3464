/**
 * Double signing on consumers: one slash per infraction, guarded by a tombstone or by a record that follows
 * the validator's live address. A chain id belongs to one consumer; it retires with that consumer's deletion.
 */
module Equivocation {
  import opened Common

  type ChainId = nat

  type Validator = nat

  /** A punished infraction, as recorded: chain id, live provider address, height. */
  datatype Record = Record(chain: ChainId, addr: Address, height: int)

  /** The infraction itself, whoever the validator is called. */
  datatype Offence = Offence(chain: ChainId, validator: Validator, height: int)

  /**
   * owner answers for every address a validator ever held, live gives its present one. chains are the chain
   * ids of the consumers alive, retired those of deleted ones.
   */
  datatype State = State(
    punished: set<Record>,
    tombstoned: set<Validator>,
    owner: map<Address, Validator>,
    live: map<Validator, Address>,
    chains: set<ChainId>,
    retired: set<ChainId>,
    slashed: seq<Offence>)

  datatype Outcome = Rejected | AlreadyPunished | AlreadyTombstoned | Slashed

  /** verified stands for the checks of phase, minimum height and signatures; jails for the jailing going through. */
  datatype Submission = Submission(
    chain: ChainId,
    accused: Address,
    height: int,
    verified: bool,
    unbonded: bool,
    jails: bool,
    tombstones: bool)

  /** Each address ever held by a validator with the one it holds now. */
  function LiveAddrs(s: State): map<Address, Address> {
    map a | a in s.owner && s.owner[a] in s.live :: s.live[s.owner[a]]
  }

  function RecordOf(s: State, e: Submission): Record {
    Record(e.chain, Redirected(LiveAddrs(s), e.accused), e.height)
  }

  /** The records without those of one chain and address. */
  function Forgotten(punished: set<Record>, chain: ChainId, addr: Address): set<Record> {
    set r | r in punished && !(r.chain == chain && r.addr == addr)
  }

  function Judge(s: State, e: Submission): Outcome {
    if !e.verified || e.chain !in s.chains then Rejected
    else if RecordOf(s, e) in s.punished then AlreadyPunished
    else if e.accused !in s.owner || e.unbonded then Rejected
    else if s.owner[e.accused] in s.tombstoned then AlreadyTombstoned
    else if !e.jails then Rejected
    else Slashed
  }

  function Submit(s: State, e: Submission): State {
    match Judge(s, e)
    case Rejected => s
    case AlreadyPunished => s
    case AlreadyTombstoned => s.(punished := Forgotten(s.punished, e.chain, Redirected(LiveAddrs(s), e.accused)))
    case Slashed => Punish(s, e, s.owner[e.accused])
  }

  function Punish(s: State, e: Submission, v: Validator): State {
    s.(slashed := s.slashed + [Offence(e.chain, v, e.height)],
       tombstoned := if e.tombstones then s.tombstoned + {v} else s.tombstoned,
       punished := if e.tombstones then Forgotten(s.punished, e.chain, Redirected(LiveAddrs(s), e.accused))
                   else s.punished + {RecordOf(s, e)})
  }

  function MovedRecord(r: Record, chains: set<ChainId>, oldAddr: Address, newAddr: Address): Record {
    if r.chain in chains && r.addr == oldAddr then r.(addr := newAddr) else r
  }

  /** The validator takes a new address; the records of living consumers follow it. */
  function Rotate(s: State, v: Validator, newAddr: Address): State
    requires v in s.live
  {
    s.(owner := s.owner[newAddr := v],
       live := s.live[v := newAddr],
       punished := set r | r in s.punished :: MovedRecord(r, s.chains, s.live[v], newAddr))
  }

  datatype Event =
    | Evidence(submission: Submission)
    | Rotation(validator: Validator, addr: Address)
    | Bond(validator: Validator, addr: Address)
    | Register(chain: ChainId)
    | Retire(chain: ChainId)

  /** A rotation or a new validator needs an address nobody holds or held; a chain id is registered once. */
  function Step(s: State, ev: Event): State {
    match ev
    case Evidence(e) => Submit(s, e)
    case Rotation(v, a) => if v in s.live && a !in s.owner then Rotate(s, v, a) else s
    case Bond(v, a) => if v !in s.live && a !in s.owner then s.(owner := s.owner[a := v], live := s.live[v := a]) else s
    case Register(c) => if c !in s.chains + s.retired then s.(chains := s.chains + {c}) else s
    case Retire(c) => if c in s.chains then s.(chains := s.chains - {c}, retired := s.retired + {c}) else s
  }

  function Run(s: State, events: seq<Event>): State {
    if events == [] then s else Step(Run(s, events[..|events| - 1]), events[|events| - 1])
  }

  // The invariant.

  ghost predicate Addresses(s: State) {
    && (forall v :: v in s.live ==> s.live[v] in s.owner && s.owner[s.live[v]] == v)
    && (forall a :: a in s.owner ==> s.owner[a] in s.live)
    && (forall r :: r in s.punished && r.chain in s.chains ==> r.addr in s.owner)
  }

  predicate Guards(s: State, o: Offence) {
    && o.validator in s.live
    && (o.validator in s.tombstoned || Record(o.chain, s.live[o.validator], o.height) in s.punished)
  }

  /** Every punished infraction on a living chain is guarded by a tombstone or by a record at the live address. */
  ghost predicate Guarded(s: State) {
    forall i :: 0 <= i < |s.slashed| && s.slashed[i].chain in s.chains ==> Guards(s, s.slashed[i])
  }

  /** Every record stands for an infraction that was punished. */
  ghost predicate Deserved(s: State) {
    forall r :: r in s.punished && r.chain in s.chains && r.addr in s.owner
      ==> Offence(r.chain, s.owner[r.addr], r.height) in s.slashed
  }

  ghost predicate Distinct(slashed: seq<Offence>) {
    forall i, j :: 0 <= i < j < |slashed| ==> slashed[i] != slashed[j]
  }

  ghost predicate Lifetimes(s: State) {
    && s.chains !! s.retired
    && (forall i :: 0 <= i < |s.slashed| ==> s.slashed[i].chain in s.chains + s.retired)
    && (forall r :: r in s.punished ==> r.chain in s.chains + s.retired)
  }

  ghost predicate Inv(s: State) {
    Addresses(s) && Guarded(s) && Deserved(s) && Distinct(s.slashed) && Lifetimes(s)
  }

  /** A submission slashes exactly when it proves a new infraction of a validator that is not tombstoned. */
  lemma SlashesExactlyNew(s: State, e: Submission)
    requires Inv(s)
    ensures Judge(s, e) == Slashed
      <==> e.verified && e.chain in s.chains && e.accused in s.owner && !e.unbonded && e.jails
           && s.owner[e.accused] !in s.tombstoned && Offence(e.chain, s.owner[e.accused], e.height) !in s.slashed
  {
    if e.chain in s.chains && e.accused in s.owner {
      var o := Offence(e.chain, s.owner[e.accused], e.height);
      if o in s.slashed {
        var i :| 0 <= i < |s.slashed| && s.slashed[i] == o;
        assert Guards(s, s.slashed[i]);
      }
    }
  }

  /** The submission is about the infraction, under whatever address of the validator. */
  predicate Proves(s: State, e: Submission, o: Offence) {
    e.chain == o.chain && e.height == o.height && e.accused in s.owner && s.owner[e.accused] == o.validator
  }

  /**
   * What a submission leaves behind: a slash is logged once, tombstones if it should, and is not repeated; a
   * tombstoned validator has no record left on the chain; no other record or tombstone changes.
   */
  lemma SubmissionLeaves(s: State, e: Submission)
    requires Inv(s)
    ensures
      var s', outcome := Submit(s, e), Judge(s, e);
      && (outcome == Slashed ==>
            var o := Offence(e.chain, s.owner[e.accused], e.height);
            && s'.slashed == s.slashed + [o]
            && s'.tombstoned == (if e.tombstones then s.tombstoned + {o.validator} else s.tombstoned)
            && forall again :: Proves(s, again, o) ==> Judge(s', again) != Slashed)
      && (outcome == AlreadyTombstoned || (outcome == Slashed && e.tombstones) ==>
            forall r :: r in s'.punished && r.chain == e.chain ==> r.addr != s.live[s.owner[e.accused]])
      && (outcome != Slashed ==> s'.slashed == s.slashed && s'.tombstoned == s.tombstoned)
      && (outcome == Rejected || outcome == AlreadyPunished ==> s' == s)
      && s'.owner == s.owner && s'.live == s.live && s'.chains == s.chains && s'.retired == s.retired
      && (forall r: Record :: r.chain != e.chain || e.accused !in s.owner || r.addr != s.live[s.owner[e.accused]] ==>
            (r in s'.punished <==> r in s.punished))
  {
  }

  /** Records of living consumers follow the validator to its new address; all others stay where they are. */
  lemma RecordsFollowRotation(s: State, v: Validator, newAddr: Address, r: Record)
    requires v in s.live && s.live[v] != newAddr
    ensures r in Rotate(s, v, newAddr).punished <==>
      if r.chain in s.chains && r.addr == s.live[v] then false
      else r in s.punished || (r.chain in s.chains && r.addr == newAddr && r.(addr := s.live[v]) in s.punished)
  {
    var was := r.(addr := s.live[v]);
    assert MovedRecord(was, s.chains, s.live[v], newAddr) == if r.chain in s.chains then r.(addr := newAddr) else was;
    assert MovedRecord(r, s.chains, s.live[v], newAddr)
        == if r.chain in s.chains && r.addr == s.live[v] then r.(addr := newAddr) else r;
  }

  lemma SubmitKeeps(s: State, e: Submission)
    requires Inv(s)
    ensures Inv(Submit(s, e))
  {
    SlashesExactlyNew(s, e);
    if Judge(s, e) == Slashed {
      PunishKeeps(s, e, s.owner[e.accused]);
    } else if Judge(s, e) == AlreadyTombstoned {
      ForgetKeeps(s, e.chain, s.owner[e.accused]);
    }
  }

  /** A tombstoned validator's records are redundant. */
  lemma ForgetKeeps(s: State, chain: ChainId, v: Validator)
    requires Inv(s) && v in s.tombstoned && v in s.live
    ensures Inv(s.(punished := Forgotten(s.punished, chain, s.live[v])))
  {
    var s' := s.(punished := Forgotten(s.punished, chain, s.live[v]));
    forall i | 0 <= i < |s.slashed| && s.slashed[i].chain in s.chains ensures Guards(s', s.slashed[i]) {
      assert Guards(s, s.slashed[i]);
    }
  }

  lemma PunishKeeps(s: State, e: Submission, v: Validator)
    requires Inv(s) && e.chain in s.chains && e.accused in s.owner && v == s.owner[e.accused]
    requires Offence(e.chain, v, e.height) !in s.slashed
    ensures Inv(Punish(s, e, v))
  {
    var s', o := Punish(s, e, v), Offence(e.chain, v, e.height);
    assert s'.slashed[|s.slashed|] == o;
    forall i | 0 <= i < |s'.slashed| && s'.slashed[i].chain in s'.chains ensures Guards(s', s'.slashed[i]) {
      if i < |s.slashed| {
        assert Guards(s, s.slashed[i]);
      }
    }
    forall r | r in s'.punished && r.chain in s'.chains && r.addr in s'.owner
      ensures Offence(r.chain, s'.owner[r.addr], r.height) in s'.slashed
    {
      if r in s.punished {
        assert Offence(r.chain, s.owner[r.addr], r.height) in s.slashed;
      }
    }
    assert forall i :: 0 <= i < |s.slashed| ==> s.slashed[i] != o;
  }

  lemma RotateKeeps(s: State, v: Validator, newAddr: Address)
    requires Inv(s) && v in s.live && newAddr !in s.owner
    ensures Inv(Rotate(s, v, newAddr))
  {
    var s' := Rotate(s, v, newAddr);
    forall i | 0 <= i < |s'.slashed| && s'.slashed[i].chain in s'.chains ensures Guards(s', s'.slashed[i]) {
      var o := s.slashed[i];
      assert Guards(s, o);
      var r := Record(o.chain, s.live[o.validator], o.height);
      if r in s.punished {
        assert MovedRecord(r, s.chains, s.live[v], newAddr) in s'.punished;
      }
    }
    forall r | r in s'.punished && r.chain in s'.chains && r.addr in s'.owner
      ensures Offence(r.chain, s'.owner[r.addr], r.height) in s'.slashed
    {
      var was :| was in s.punished && MovedRecord(was, s.chains, s.live[v], newAddr) == r;
      assert was.addr in s.owner;
    }
  }

  lemma StepKeeps(s: State, ev: Event)
    requires Inv(s)
    ensures Inv(Step(s, ev))
  {
    match ev
    case Evidence(e) => SubmitKeeps(s, e);
    case Rotation(v, a) => if v in s.live && a !in s.owner { RotateKeeps(s, v, a); }
    case Bond(v, a) => BondKeeps(s, v, a);
    case Register(c) => RegisterKeeps(s, c);
    case Retire(c) => RetireKeeps(s, c);
  }

  lemma BondKeeps(s: State, v: Validator, a: Address)
    requires Inv(s)
    ensures Inv(Step(s, Bond(v, a)))
  {
    var s' := Step(s, Bond(v, a));
    forall i | 0 <= i < |s.slashed| && s.slashed[i].chain in s.chains ensures Guards(s', s.slashed[i]) {
      assert Guards(s, s.slashed[i]);
    }
  }

  lemma RegisterKeeps(s: State, c: ChainId)
    requires Inv(s)
    ensures Inv(Step(s, Register(c)))
  {
    var s' := Step(s, Register(c));
    forall i | 0 <= i < |s.slashed| && s.slashed[i].chain in s'.chains ensures Guards(s', s.slashed[i]) {
      assert s.slashed[i].chain in s.chains + s.retired;
      assert s.slashed[i].chain in s.chains ==> Guards(s, s.slashed[i]);
    }
  }

  lemma RetireKeeps(s: State, c: ChainId)
    requires Inv(s)
    ensures Inv(Step(s, Retire(c)))
  {
    var s' := Step(s, Retire(c));
    forall i | 0 <= i < |s.slashed| && s.slashed[i].chain in s'.chains ensures Guards(s', s.slashed[i]) {
      assert Guards(s, s.slashed[i]);
    }
  }

  lemma {:induction false} RunKeeps(s: State, events: seq<Event>)
    requires Inv(s)
    ensures Inv(Run(s, events))
    decreases |events|
  {
    if events != [] {
      RunKeeps(s, events[..|events| - 1]);
      StepKeeps(Run(s, events[..|events| - 1]), events[|events| - 1]);
    }
  }

  /**
   * Over any run of submissions, changes of the tombstone policy, rotations and registrations, each
   * infraction of each validator is slashed at most once.
   */
  lemma PunishedOnce(s: State, events: seq<Event>, o: Offence, i: int, j: int)
    requires Inv(s)
    requires var end := Run(s, events).slashed; 0 <= i < |end| && 0 <= j < |end| && end[i] == o && end[j] == o
    ensures i == j
  {
    RunKeeps(s, events);
  }

  /** The keeper's records, and what it asks of the staking and slashing modules, in place. */
  class Equivocations {
    var punished: set<Record>
    var tombstoned: set<Validator>
    var owner: map<Address, Validator>
    var live: map<Validator, Address>
    var chains: set<ChainId>
    ghost var retired: set<ChainId>
    ghost var slashed: seq<Offence>

    constructor ()
      ensures Inv(Current())
    {
      punished, tombstoned, owner, live, chains := {}, {}, map[], map[], {};
      retired, slashed := {}, [];
    }

    ghost function Current(): State
      reads this
    {
      State(punished, tombstoned, owner, live, chains, retired, slashed)
    }

    /** The address x/staking says the validator runs now; unknown addresses stay as they are. */
    method LiveProviderConsAddr(a: Address) returns (r: Address)
      ensures r == Redirected(LiveAddrs(Current()), a)
    {
      if a !in owner || owner[a] !in live {
        return a;
      }
      return live[owner[a]];
    }

    /** Slashes, jails and, by policy, tombstones; a failure after the slash rolls the slash back. */
    method PunishEquivocation(e: Submission) returns (outcome: Outcome)
      requires e.verified && e.chain in chains && RecordOf(Current(), e) !in punished
      modifies this`tombstoned, this`slashed
      ensures outcome == Judge(old(Current()), e)
      ensures outcome == Slashed ==>
        && slashed == old(slashed) + [Offence(e.chain, owner[e.accused], e.height)]
        && tombstoned == (if e.tombstones then old(tombstoned) + {owner[e.accused]} else old(tombstoned))
      ensures outcome != Slashed ==> slashed == old(slashed) && tombstoned == old(tombstoned)
    {
      if e.accused !in owner || e.unbonded {
        return Rejected;
      }
      if owner[e.accused] in tombstoned {
        return AlreadyTombstoned;
      }
      slashed := slashed + [Offence(e.chain, owner[e.accused], e.height)];
      var jailed := JailAndTombstoneValidator(e);
      if !jailed {
        slashed := slashed[..|slashed| - 1];
        return Rejected;
      }
      return Slashed;
    }

    method JailAndTombstoneValidator(e: Submission) returns (ok: bool)
      requires e.accused in owner
      modifies this`tombstoned
      ensures ok == e.jails
      ensures tombstoned == if ok && e.tombstones then old(tombstoned) + {owner[e.accused]} else old(tombstoned)
    {
      if !e.jails {
        return false;
      }
      if e.tombstones {
        tombstoned := tombstoned + {owner[e.accused]};
      }
      return true;
    }

    method HandleConsumerDoubleVoting(e: Submission) returns (outcome: Outcome)
      modifies this`punished, this`tombstoned, this`slashed
      ensures outcome == Judge(old(Current()), e) && Current() == Submit(old(Current()), e)
    {
      if !e.verified || e.chain !in chains {
        return Rejected;
      }
      var addr := LiveProviderConsAddr(e.accused);
      var key := Record(e.chain, addr, e.height);
      if key in punished {
        return AlreadyPunished;
      }
      outcome := PunishEquivocation(e);
      if outcome == Rejected {
        return;
      }
      if outcome == AlreadyTombstoned || e.tombstones {
        punished := Forgotten(punished, e.chain, addr);
      } else {
        punished := punished + {key};
      }
    }

    /** Moves the validator's records on every living consumer to its new address, one at a time. */
    method MigratePunishedEquivocations(oldAddr: Address, newAddr: Address)
      requires oldAddr != newAddr
      modifies this`punished
      ensures punished == set r | r in old(punished) :: MovedRecord(r, chains, oldAddr, newAddr)
    {
      var todo := set r | r in punished && r.chain in chains && r.addr == oldAddr;
      while todo != {}
        invariant forall r :: r in todo ==> r in old(punished) && r.chain in chains && r.addr == oldAddr
        invariant forall r :: r in punished <==>
          || (r in old(punished) && (!(r.chain in chains && r.addr == oldAddr) || r in todo))
          || (r.chain in chains && r.addr == newAddr && r.(addr := oldAddr) in old(punished) - todo)
        decreases |todo|
      {
        var r :| r in todo;
        punished := punished + {r.(addr := newAddr)};
        punished := punished - {r};
        todo := todo - {r};
      }
      forall r
        ensures r in punished <==> exists was :: was in old(punished) && MovedRecord(was, chains, oldAddr, newAddr) == r
      {
        MovedAt(old(punished), r, oldAddr, newAddr);
      }
    }

    lemma MovedAt(was: set<Record>, r: Record, oldAddr: Address, newAddr: Address)
      requires oldAddr != newAddr
      ensures (exists w :: w in was && MovedRecord(w, chains, oldAddr, newAddr) == r) <==>
        || (r in was && !(r.chain in chains && r.addr == oldAddr))
        || (r.chain in chains && r.addr == newAddr && r.(addr := oldAddr) in was)
    {
      if r in was && !(r.chain in chains && r.addr == oldAddr) {
        assert MovedRecord(r, chains, oldAddr, newAddr) == r;
      }
      if r.chain in chains && r.addr == newAddr && r.(addr := oldAddr) in was {
        assert MovedRecord(r.(addr := oldAddr), chains, oldAddr, newAddr) == r;
      }
    }

    /** x/staking repoints the validator, the hook moves its records. */
    method AfterConsensusPubKeyUpdate(v: Validator, newAddr: Address)
      requires v in live && live[v] in owner && newAddr !in owner
      modifies this`owner, this`live, this`punished
      ensures Current() == Rotate(old(Current()), v, newAddr)
    {
      var oldAddr := live[v];
      owner := owner[newAddr := v];
      live := live[v := newAddr];
      MigratePunishedEquivocations(oldAddr, newAddr);
    }
  }
}
