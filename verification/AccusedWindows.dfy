/**
 * Windows by the consumer address they accused. They are filed under the provider address the accused
 * resolved to, so they stay apart as long as the filing follows the key mappings.
 */
module AccusedWindows {
  import opened Common
  import opened Wire
  import opened Accusations
  import AccusationRuns
  import D = DowntimeLedger
  import K = KeyAssignment

  /** The accusations together with the mappings consumer address -> provider address. */
  datatype World = World(s: State, reverse: map<Pair, Address>)

  predicate FiledUnder(e: Entry, a: Address, reverse: map<Pair, Address>) {
    e.key.pair.addr == K.Resolves(reverse, e.key.pair.consumer, a)
  }

  /** Consumer c's windows stand under the pairs their accused resolve to now. */
  ghost predicate FiledOn(w: World, c: ConsumerId) {
    && |w.s.accused| == |w.s.history|
    && forall i :: 0 <= i < |w.s.history| && w.s.history[i].key.pair.consumer == c
         ==> FiledUnder(w.s.history[i], w.s.accused[i], w.reverse)
  }

  /** So does every window about a consumer that is not deleted. */
  ghost predicate Filed(w: World) {
    forall c :: c !in w.s.deleted ==> FiledOn(w, c)
  }

  /** Windows about one accused address on one consumer share no height. */
  ghost predicate AccusedApart(s: State) {
    && |s.accused| == |s.history|
    && forall i, j :: 0 <= i < j < |s.history| && SameAccused(s, i, j) ==> Apart(s.history[i], s.history[j])
  }

  predicate SameAccused(s: State, i: int, j: int)
    requires |s.accused| == |s.history| && 0 <= i < |s.history| && 0 <= j < |s.history|
  {
    s.history[i].key.pair.consumer == s.history[j].key.pair.consumer && s.accused[i] == s.accused[j]
  }

  /** A window accepted about consumer c accused a. */
  ghost predicate Standing(s: State, c: ConsumerId, a: Address) {
    exists i :: 0 <= i < |s.history| && i < |s.accused| && s.history[i].key.pair.consumer == c && s.accused[i] == a
  }

  // One consumer's keys move.

  ghost function Rotated(w: World, c: ConsumerId, oldAddr: Address, newAddr: Address): World
    requires Fresh(w.s, Pair(c, newAddr))
  {
    World(Rename(w.s, Pair(c, oldAddr), Pair(c, newAddr)), K.Repointed(w.reverse, c, oldAddr, newAddr))
  }

  function Assigned(w: World, c: ConsumerId, a: Address, provider: Address): World {
    w.(reverse := w.reverse[Pair(c, a) := provider])
  }

  function Unassigned(w: World, c: ConsumerId, a: Address): World {
    w.(reverse := w.reverse - {Pair(c, a)})
  }

  /**
   * A rotation on a consumer with an assigned key keeps the filing exactly when no window there accused the
   * validator by its own provider address with no mapping to say so.
   */
  lemma RotationFiled(w: World, c: ConsumerId, oldAddr: Address, newAddr: Address)
    requires FiledOn(w, c) && Renames(w.s, Pair(c, oldAddr), Pair(c, newAddr))
    ensures FiledOn(Rotated(w, c, oldAddr, newAddr), c)
      <==> Pair(c, oldAddr) in w.reverse || !Standing(w.s, c, oldAddr)
  {
    var w' := Rotated(w, c, oldAddr, newAddr);
    forall i | 0 <= i < |w.s.history| && w.s.history[i].key.pair.consumer == c
      ensures FiledUnder(w'.s.history[i], w'.s.accused[i], w'.reverse)
         <==> !(w.s.accused[i] == oldAddr && Pair(c, oldAddr) !in w.reverse)
    {
      assert FiledUnder(w.s.history[i], w.s.accused[i], w.reverse);
      K.ResolutionIsRenaming(w.reverse, c, oldAddr, newAddr, w.s.accused[i]);
    }
    if Pair(c, oldAddr) !in w.reverse && Standing(w.s, c, oldAddr) {
      var i :| 0 <= i < |w.s.history| && w.s.history[i].key.pair.consumer == c && w.s.accused[i] == oldAddr;
      assert w'.s.history[i].key.pair.consumer == c;
      assert !FiledUnder(w'.s.history[i], w'.s.accused[i], w'.reverse);
    }
  }

  /** A first mapping of an address keeps the filing exactly when it changes nothing or nothing accused it yet. */
  lemma AssignmentFiled(w: World, c: ConsumerId, a: Address, provider: Address)
    requires FiledOn(w, c) && Pair(c, a) !in w.reverse
    ensures FiledOn(Assigned(w, c, a, provider), c) <==> provider == a || !Standing(w.s, c, a)
  {
    var w' := Assigned(w, c, a, provider);
    if provider != a && Standing(w.s, c, a) {
      var i :| 0 <= i < |w.s.history| && w.s.history[i].key.pair.consumer == c && w.s.accused[i] == a;
      assert FiledUnder(w.s.history[i], w.s.accused[i], w.reverse);
      assert !FiledUnder(w'.s.history[i], w'.s.accused[i], w'.reverse);
    } else {
      forall i | 0 <= i < |w.s.history| && w.s.history[i].key.pair.consumer == c
        ensures FiledUnder(w'.s.history[i], w'.s.accused[i], w'.reverse)
      {
        assert FiledUnder(w.s.history[i], w.s.accused[i], w.reverse);
      }
    }
  }

  /** So does the pruning of a mapping. */
  lemma PruningFiled(w: World, c: ConsumerId, a: Address)
    requires FiledOn(w, c) && Pair(c, a) in w.reverse
    ensures FiledOn(Unassigned(w, c, a), c) <==> w.reverse[Pair(c, a)] == a || !Standing(w.s, c, a)
  {
    var w' := Unassigned(w, c, a);
    if w.reverse[Pair(c, a)] != a && Standing(w.s, c, a) {
      var i :| 0 <= i < |w.s.history| && w.s.history[i].key.pair.consumer == c && w.s.accused[i] == a;
      assert FiledUnder(w.s.history[i], w.s.accused[i], w.reverse);
      assert !FiledUnder(w'.s.history[i], w'.s.accused[i], w'.reverse);
    } else {
      forall i | 0 <= i < |w.s.history| && w.s.history[i].key.pair.consumer == c
        ensures FiledUnder(w'.s.history[i], w'.s.accused[i], w'.reverse)
      {
        assert FiledUnder(w.s.history[i], w.s.accused[i], w.reverse);
      }
    }
  }

  /** A change of c's windows and mappings alone leaves every other consumer's filing as it was. */
  lemma OthersFiled(w: World, w': World, c: ConsumerId, d: ConsumerId)
    requires FiledOn(w, d) && c != d && |w'.s.history| == |w.s.history| && w'.s.accused == w.s.accused
    requires forall i :: 0 <= i < |w.s.history| && w.s.history[i].key.pair.consumer != c
              ==> w'.s.history[i] == w.s.history[i]
    requires forall i :: 0 <= i < |w.s.history|
              ==> w'.s.history[i].key.pair.consumer == w.s.history[i].key.pair.consumer
    requires forall a :: K.Resolves(w'.reverse, d, a) == K.Resolves(w.reverse, d, a)
    ensures FiledOn(w', d)
  {
    forall i | 0 <= i < |w'.s.history| && w'.s.history[i].key.pair.consumer == d
      ensures FiledUnder(w'.s.history[i], w'.s.accused[i], w'.reverse)
    {
      assert FiledUnder(w.s.history[i], w.s.accused[i], w.reverse);
    }
  }

  /** Whom the windows accepted so far accused resolves under reverse' as it did under reverse. */
  ghost predicate Findable(s: State, reverse: map<Pair, Address>, reverse': map<Pair, Address>) {
    forall c, a :: c !in s.deleted && Standing(s, c, a) ==> K.Resolves(reverse', c, a) == K.Resolves(reverse, c, a)
  }

  /** A change of mappings keeps the filing exactly when every window ever accepted still resolves as before. */
  lemma RemappedFiled(w: World, reverse: map<Pair, Address>)
    requires Filed(w) && |w.s.accused| == |w.s.history|
    ensures Filed(w.(reverse := reverse)) <==> Findable(w.s, w.reverse, reverse)
  {
    var w' := w.(reverse := reverse);
    if Filed(w') {
      forall c, a | c !in w.s.deleted && Standing(w.s, c, a)
        ensures K.Resolves(reverse, c, a) == K.Resolves(w.reverse, c, a)
      {
        var i :| 0 <= i < |w.s.history| && i < |w.s.accused| && w.s.history[i].key.pair.consumer == c
              && w.s.accused[i] == a;
        assert FiledOn(w, c) && FiledOn(w', c);
        assert FiledUnder(w.s.history[i], a, w.reverse) && FiledUnder(w'.s.history[i], a, reverse);
      }
    }
    if Findable(w.s, w.reverse, reverse) {
      forall c | c !in w.s.deleted ensures FiledOn(w', c) {
        assert FiledOn(w, c);
        forall i | 0 <= i < |w.s.history| && w.s.history[i].key.pair.consumer == c
          ensures FiledUnder(w'.s.history[i], w'.s.accused[i], reverse)
        {
          assert FiledUnder(w.s.history[i], w.s.accused[i], w.reverse);
          assert Standing(w.s, c, w.s.accused[i]);
        }
      }
    }
  }

  /** The address keeps resolving to itself, or no window accused it. */
  ghost predicate Unmoved(s: State, c: ConsumerId, a: Address, resolved: Address) {
    resolved == a || c in s.deleted || !Standing(s, c, a)
  }

  /** Assigning a key is safe when its address, and the address dropped with it, are Unmoved. */
  lemma AssignmentFindable(
    s: State, reverse: map<Pair, Address>, c: ConsumerId, dropped: Option<Address>, a: Address, provider: Address)
    requires Pair(c, a) !in reverse
    requires (dropped.Some? ==> Pair(c, dropped.value) in reverse && reverse[Pair(c, dropped.value)] == provider)
    ensures Findable(s, reverse, K.WithoutDropped(reverse, c, dropped)[Pair(c, a) := provider])
      <==> Unmoved(s, c, a, provider) && (dropped.Some? ==> Unmoved(s, c, dropped.value, provider))
  {
    var reverse' := K.WithoutDropped(reverse, c, dropped)[Pair(c, a) := provider];
    forall d, b ensures K.Resolves(reverse', d, b) == K.Resolves(reverse, d, b)
                   <==> !(d == c && provider != b && (b == a || (dropped.Some? && b == dropped.value))) {
    }
  }

  /** Pruning mappings is safe when each address pruned is Unmoved. */
  lemma PruningFindable(s: State, reverse: map<Pair, Address>, due: set<Pair>)
    requires due <= reverse.Keys
    ensures Findable(s, reverse, reverse - due) <==> forall t :: t in due ==> Unmoved(s, t.consumer, t.addr, reverse[t])
  {
    forall d, b ensures K.Resolves(reverse - due, d, b) == K.Resolves(reverse, d, b)
                   <==> !(Pair(d, b) in due && reverse[Pair(d, b)] != b) {
    }
    if Findable(s, reverse, reverse - due) {
      forall t | t in due ensures Unmoved(s, t.consumer, t.addr, reverse[t]) {
        assert t == Pair(t.consumer, t.addr);
      }
    }
  }

  // Runs.

  /** Upkeep is every step that neither accepts a window nor moves a key. */
  datatype Event =
    | Evidence(entry: Entry, slash: Slash, mark: Option<Pair>)
    | Upkeep(event: AccusationRuns.Event)
    | Rotate(consumer: ConsumerId, oldAddr: Address, newAddr: Address)
    | Assign(consumer: ConsumerId, addr: Address, provider: Address)
    | Prune(consumer: ConsumerId, addr: Address)

  datatype Stamped = Stamped(now: Time, event: Event)

  /** Evidence is filed under the address its accused resolves to; an event that does not apply changes nothing. */
  ghost function Step(w: World, now: Time, horizon: Time, ev: Event): World {
    match ev
    case Evidence(e, slash, mark) =>
      if FiledUnder(e, slash.accused, w.reverse)
      then w.(s := AccusationRuns.Step(w.s, now, horizon, AccusationRuns.Offer(e, slash, mark))) else w
    case Upkeep(up) =>
      if up.Offer? || up.Rotate? then w else w.(s := AccusationRuns.Step(w.s, now, horizon, up))
    case Rotate(c, p, q) => if Renames(w.s, Pair(c, p), Pair(c, q)) then Rotated(w, c, p, q) else w
    case Assign(c, a, p) => if Pair(c, a) in w.reverse then w else Assigned(w, c, a, p)
    case Prune(c, a) => if Pair(c, a) in w.reverse then Unassigned(w, c, a) else w
  }

  ghost function Run(w: World, horizon: Time, events: seq<Stamped>): World {
    if events == [] then w else
      Step(Run(w, horizon, events[..|events| - 1]), events[|events| - 1].now, horizon, events[|events| - 1].event)
  }

  /** The key moves that keep every window findable: the exact conditions of the three lemmas above. */
  ghost predicate Faithful(w: World, ev: Event) {
    match ev
    case Rotate(c, p, q) =>
      !Renames(w.s, Pair(c, p), Pair(c, q)) || c in w.s.deleted || Pair(c, p) in w.reverse || !Standing(w.s, c, p)
    case Assign(c, a, p) => Pair(c, a) in w.reverse || c in w.s.deleted || p == a || !Standing(w.s, c, a)
    case Prune(c, a) =>
      Pair(c, a) !in w.reverse || c in w.s.deleted || w.reverse[Pair(c, a)] == a || !Standing(w.s, c, a)
    case Evidence(_, _, _) => true
    case Upkeep(_) => true
  }

  ghost predicate Sound(w: World) {
    Inv(w.s) && Filed(w) && AccusedApart(w.s)
  }

  /** A step keeps every window findable exactly when it is faithful. */
  lemma StepFiled(w: World, now: Time, horizon: Time, ev: Event)
    requires Sound(w)
    ensures Filed(Step(w, now, horizon, ev)) <==> Faithful(w, ev)
  {
    match ev
    case Rotate(c, p, q) => if Renames(w.s, Pair(c, p), Pair(c, q)) { RotateFiled(w, c, p, q); }
    case Assign(c, a, p) => if Pair(c, a) !in w.reverse { AssignFiled(w, c, a, p); }
    case Prune(c, a) => if Pair(c, a) in w.reverse { PruneFiled(w, c, a); }
    case Evidence(e, slash, mark) => EvidenceFiled(w, now, horizon, e, slash, mark);
    case Upkeep(up) => UpkeepFiled(w, now, horizon, up);
  }

  lemma RotateFiled(w: World, c: ConsumerId, p: Address, q: Address)
    requires Sound(w) && Renames(w.s, Pair(c, p), Pair(c, q))
    ensures Filed(Rotated(w, c, p, q)) <==> Faithful(w, Rotate(c, p, q))
  {
    var w' := Rotated(w, c, p, q);
    forall d | d !in w.s.deleted && d != c ensures FiledOn(w', d) {
      OthersFiled(w, w', c, d);
    }
    if c !in w.s.deleted {
      RotationFiled(w, c, p, q);
    }
  }

  lemma AssignFiled(w: World, c: ConsumerId, a: Address, p: Address)
    requires Sound(w) && Pair(c, a) !in w.reverse
    ensures Filed(Assigned(w, c, a, p)) <==> Faithful(w, Assign(c, a, p))
  {
    var w' := Assigned(w, c, a, p);
    forall d | d !in w.s.deleted && d != c ensures FiledOn(w', d) {
      OthersFiled(w, w', c, d);
    }
    if c !in w.s.deleted {
      AssignmentFiled(w, c, a, p);
    }
  }

  lemma PruneFiled(w: World, c: ConsumerId, a: Address)
    requires Sound(w) && Pair(c, a) in w.reverse
    ensures Filed(Unassigned(w, c, a)) <==> Faithful(w, Prune(c, a))
  {
    var w' := Unassigned(w, c, a);
    forall d | d !in w.s.deleted && d != c ensures FiledOn(w', d) {
      OthersFiled(w, w', c, d);
    }
    if c !in w.s.deleted {
      PruningFiled(w, c, a);
    }
  }

  lemma EvidenceFiled(w: World, now: Time, horizon: Time, e: Entry, slash: Slash, mark: Option<Pair>)
    requires Sound(w)
    ensures Filed(Step(w, now, horizon, Evidence(e, slash, mark)))
  {
    var w' := Step(w, now, horizon, Evidence(e, slash, mark));
    forall c | c !in w'.s.deleted ensures FiledOn(w', c) {
      assert FiledOn(w, c);
    }
  }

  lemma UpkeepFiled(w: World, now: Time, horizon: Time, up: AccusationRuns.Event)
    requires Sound(w)
    ensures Filed(Step(w, now, horizon, Upkeep(up)))
  {
    var w' := Step(w, now, horizon, Upkeep(up));
    forall c | c !in w'.s.deleted ensures FiledOn(w', c) {
      assert FiledOn(w, c);
    }
  }

  /** A step that leaves the log alone, or only deletes consumers, changes no filing. */
  lemma LogKeptSound(w: World, s': State)
    requires Sound(w) && Inv(s') && s'.history == w.s.history && s'.accused == w.s.accused && w.s.deleted <= s'.deleted
    ensures Sound(w.(s := s'))
  {
    LogKeptFiled(w, s');
  }

  lemma LogKeptFiled(w: World, s': State)
    requires Filed(w) && s'.history == w.s.history && s'.accused == w.s.accused && w.s.deleted <= s'.deleted
    ensures Filed(w.(s := s')) && (AccusedApart(w.s) ==> AccusedApart(s'))
  {
    forall c | c !in s'.deleted ensures FiledOn(w.(s := s'), c) {
      assert FiledOn(w, c);
    }
  }

  /** Deleting consumers takes their mappings along and changes no other filing. */
  lemma ErasedSound(w: World, s': State, who: set<ConsumerId>)
    requires Sound(w) && Inv(s') && s'.history == w.s.history && s'.accused == w.s.accused && w.s.deleted <= s'.deleted
    requires who <= s'.deleted
    ensures Sound(World(s', K.Outside(w.reverse, who)))
  {
    LogKeptSound(w, s');
    RemappedFiled(w.(s := s'), K.Outside(w.reverse, who));
    OutsideFindable(s', w.reverse, who);
  }

  lemma OutsideFindable(s: State, reverse: map<Pair, Address>, who: set<ConsumerId>)
    requires who <= s.deleted
    ensures Findable(s, reverse, K.Outside(reverse, who))
  {
  }

  lemma EvidenceAccepted(w: World, now: Time, e: Entry, slash: Slash, mark: Option<Pair>)
    requires Sound(w) && FiledUnder(e, slash.accused, w.reverse) && e.at == now && CanAccept(w.s, e, slash, mark)
    ensures Sound(w.(s := Accept(w.s, e, slash, mark)))
  {
    StepSound(w, now, 0, Evidence(e, slash, mark));
  }

  /** No step, faithful or not, accepts a second window of one accused over a height while every window is findable. */
  lemma StepApart(w: World, now: Time, horizon: Time, ev: Event)
    requires Sound(w)
    ensures AccusedApart(Step(w, now, horizon, ev).s)
  {
    match ev
    case Evidence(e, slash, mark) => EvidenceApart(w, now, horizon, e, slash, mark);
    case Rotate(c, p, q) => if Renames(w.s, Pair(c, p), Pair(c, q)) { RenamedApart(w.s, Pair(c, p), Pair(c, q)); }
    case Assign(_, _, _) =>
    case Prune(_, _) =>
    case Upkeep(up) => if !up.Offer? && !up.Rotate? { UpkeepApart(w.s, now, horizon, up); }
  }

  lemma UpkeepApart(s: State, now: Time, horizon: Time, up: AccusationRuns.Event)
    requires AccusedApart(s) && !up.Offer? && !up.Rotate?
    ensures AccusedApart(AccusationRuns.Step(s, now, horizon, up))
  {
  }

  lemma EvidenceApart(w: World, now: Time, horizon: Time, e: Entry, slash: Slash, mark: Option<Pair>)
    requires Sound(w)
    ensures AccusedApart(Step(w, now, horizon, Evidence(e, slash, mark)).s)
  {
    if FiledUnder(e, slash.accused, w.reverse) && e.at == now && CanAccept(w.s, e, slash, mark) {
      AdmittedIsNew(w.s, e);
      forall i | 0 <= i < |w.s.history| && w.s.history[i].key.pair.consumer == e.key.pair.consumer
            && w.s.accused[i] == slash.accused
        ensures Apart(w.s.history[i], e)
      {
        assert FiledOn(w, e.key.pair.consumer);
        assert FiledUnder(w.s.history[i], w.s.accused[i], w.reverse);
      }
    }
  }

  lemma RenamedApart(s: State, p: Pair, q: Pair)
    requires AccusedApart(s) && Renames(s, p, q)
    ensures AccusedApart(Rename(s, p, q))
  {
    var s' := Rename(s, p, q);
    forall i, j | 0 <= i < j < |s'.history| && SameAccused(s', i, j) ensures Apart(s'.history[i], s'.history[j]) {
      assert SameAccused(s, i, j);
    }
  }

  lemma StepSound(w: World, now: Time, horizon: Time, ev: Event)
    requires Sound(w) && Faithful(w, ev)
    ensures Sound(Step(w, now, horizon, ev))
  {
    StepFiled(w, now, horizon, ev);
    StepApart(w, now, horizon, ev);
    match ev
    case Evidence(e, slash, mark) =>
      if FiledUnder(e, slash.accused, w.reverse) {
        AccusationRuns.StepKeeps(w.s, now, horizon, AccusationRuns.Offer(e, slash, mark));
      }
    case Upkeep(up) => if !up.Offer? && !up.Rotate? { AccusationRuns.StepKeeps(w.s, now, horizon, up); }
    case Rotate(c, p, q) => if Renames(w.s, Pair(c, p), Pair(c, q)) { RenameKeeps(w.s, Pair(c, p), Pair(c, q)); }
    case Assign(_, _, _) =>
    case Prune(_, _) =>
  }

  /** Every key move of the run is faithful where it happens. */
  ghost predicate AllFaithful(w: World, horizon: Time, events: seq<Stamped>) {
    if events == [] then true else
      var init, last := events[..|events| - 1], events[|events| - 1];
      AllFaithful(w, horizon, init) && Faithful(Run(w, horizon, init), last.event)
  }

  lemma {:induction false} RunSound(w: World, horizon: Time, events: seq<Stamped>)
    requires Sound(w) && AllFaithful(w, horizon, events)
    ensures Sound(Run(w, horizon, events))
    decreases |events|
  {
    if events != [] {
      var init, last := events[..|events| - 1], events[|events| - 1];
      RunSound(w, horizon, init);
      StepSound(Run(w, horizon, init), last.now, horizon, last.event);
    }
  }

  /**
   * Over any run whose key moves are faithful, no height of one accused address on one consumer is covered by
   * two accepted windows.
   */
  lemma AccusedOnce(w: World, horizon: Time, events: seq<Stamped>, i: int, j: int, h: int)
    requires Sound(w) && AllFaithful(w, horizon, events)
    requires var end := Run(w, horizon, events).s;
             && |end.accused| == |end.history| && 0 <= i < j < |end.history| && SameAccused(end, i, j)
    ensures var end := Run(w, horizon, events).s;
            !(AccusationRuns.Covers(end.history[i], h) && AccusationRuns.Covers(end.history[j], h))
  {
    RunSound(w, horizon, events);
    AccusedApartAt(Run(w, horizon, events).s, i, j);
  }

  lemma AccusedApartAt(s: State, i: int, j: int)
    requires AccusedApart(s) && 0 <= i < j < |s.history| && SameAccused(s, i, j)
    ensures Apart(s.history[i], s.history[j])
  {
  }

  /** Nor is one slashed for twice: executions of windows that accused one address share no height. */
  lemma AccusedSlashedOnce(w: World, horizon: Time, events: seq<Stamped>, x: int, y: int, i: int, j: int, h: int)
    requires Sound(w) && AllFaithful(w, horizon, events)
    requires var end := Run(w, horizon, events).s;
             && |end.accused| == |end.history| && 0 <= x < y < |end.executed|
             && 0 <= i < |end.history| && 0 <= j < |end.history| && SameAccused(end, i, j)
             && end.history[i] == end.executed[x] && end.history[j] == end.executed[y]
    ensures var end := Run(w, horizon, events).s;
            !(AccusationRuns.Covers(end.executed[x], h) && AccusationRuns.Covers(end.executed[y], h))
  {
    RunSound(w, horizon, events);
    ExecutedApart(Run(w, horizon, events).s, x, y, i, j);
  }

  lemma ExecutedApart(s: State, x: int, y: int, i: int, j: int)
    requires AccusedApart(s) && Separate(s.executed) && 0 <= x < y < |s.executed|
    requires 0 <= i < |s.history| && 0 <= j < |s.history| && SameAccused(s, i, j)
    requires s.history[i] == s.executed[x] && s.history[j] == s.executed[y]
    ensures Apart(s.executed[x], s.executed[y])
  {
    if j < i {
      assert SameAccused(s, j, i);
    }
  }

  /** Once the window has moved to the new address, the old one is free to take it again. */
  lemma FreeAgain(s: State, e: Entry, slash: Slash, mark: Option<Pair>, q: Pair)
    requires Renames(s, e.key.pair, q) && e.start <= e.key.end && e.key.pair.consumer !in s.deleted
    requires Matches(slash, e.key, e.start) && (mark.Some? ==> mark.value.consumer == q.consumer)
    ensures CanAccept(Rename(s, e.key.pair, q), e, slash, mark)
  {
    var s' := Rename(s, e.key.pair, q);
    forall k | k in s'.accepted ensures k.pair != e.key.pair {
      RenamedAt(s, e.key.pair, q, k);
    }
  }

  lemma OffersWhatIsFree(w: World, e: Entry, slash: Slash, now: Time)
    requires FiledUnder(e, slash.accused, w.reverse) && e.at == now && CanAccept(w.s, e, slash, None)
    ensures Step(w, now, 0, Evidence(e, slash, None)).s == Accept(w.s, e, slash, None)
  {
  }

  lemma OverlapsAgain(s: State, e: Entry, slash: Slash, i: int)
    requires |s.accused| == |s.history| && 0 <= i < |s.history| && e.start <= e.key.end
    requires s.history[i].key.pair.consumer == e.key.pair.consumer && s.accused[i] == slash.accused
    requires s.history[i].start == e.start && s.history[i].key.end == e.key.end
    ensures !AccusedApart(Accept(s, e, slash, None))
  {
    var again := Accept(s, e, slash, None);
    assert SameAccused(again, i, |s.history|) && !Apart(again.history[i], again.history[|s.history|]);
  }

  /**
   * The condition cannot be dropped: after a rotation that is not faithful, the evidence of a window it lost
   * track of is accepted a second time.
   */
  lemma UnfaithfulReadmits(w: World, c: ConsumerId, p: Address, q: Address, i: int, slash: Slash, now: Time)
    requires Sound(w) && Renames(w.s, Pair(c, p), Pair(c, q)) && c !in w.s.deleted && Pair(c, p) !in w.reverse
    requires 0 <= i < |w.s.history| && w.s.history[i].key.pair == Pair(c, p) && w.s.accused[i] == p
    requires slash.accused == p && Matches(slash, w.s.history[i].key, w.s.history[i].start)
    ensures var e := w.s.history[i].(at := now);
            var again := Step(Rotated(w, c, p, q), now, 0, Evidence(e, slash, None)).s;
            again == Accept(Rename(w.s, Pair(c, p), Pair(c, q)), e, slash, None) && !AccusedApart(again)
  {
    var e, w' := w.s.history[i].(at := now), Rotated(w, c, p, q);
    FreeAgain(w.s, e, slash, None, Pair(c, q));
    OffersWhatIsFree(w', e, slash, now);
    assert w'.s.history[i] == RenamedEntry(w.s.history[i], Pair(c, p), Pair(c, q));
    OverlapsAgain(w'.s, e, slash, i);
  }

  // The evidence handler lets it happen.

  /** What the handler reads once the validator at p has rotated to q: the mappings, the set, its live address. */
  function SeenAfter(env: D.Surroundings, reverse: map<Pair, Address>, p: Address, q: Address): D.Surroundings {
    env.(reverse := reverse, validators := env.validators - {p} + {q}, live := env.live[p := q])
  }

  /**
   * A packet that names the default key, credible and priced before a rotation with an assigned key, is admissible
   * after it, whatever was accepted under that key before - the packet itself, for one.
   */
  lemma SamePacketStaysAdmissible(
    env: D.Surroundings, w: World, c: ConsumerId, p: EvidencePacket, q: Address, later: Time)
    requires D.Credible(env, c, p) && env.price.Some?
    requires Pair(c, p.validator) !in w.reverse && Renames(w.s, Pair(c, p.validator), Pair(c, q))
    requires exists t :: D.Anchors(env.client.value.states, p.windowEnd, t) && D.Timely(env, t, later)
    ensures var w' := Rotated(w, c, p.validator, q);
            D.Admissible(SeenAfter(env, w'.reverse, p.validator, q), w'.s, c, p, later)
  {
    var w' := Rotated(w, c, p.validator, q);
    assert K.Resolves(w'.reverse, c, p.validator) == p.validator;
    MeetsNothing(w.s, Pair(c, p.validator), Pair(c, q), p.windowEnd, p.windowStart, later);
    AdmissibleAfter(env, w'.reverse, w'.s, c, p, q, p.validator, later);
  }

  /** The set holds the validator under q; old and new accusations alike lead there. */
  lemma AdmissibleAfter(
    env: D.Surroundings, reverse: map<Pair, Address>, s: State, c: ConsumerId, p: EvidencePacket, q: Address,
    accused: ValidatorAddress, later: Time)
    requires D.Credible(env, c, p) && env.price.Some?
    requires K.Resolves(reverse, c, accused) == accused && (accused == p.validator || accused == q)
    requires exists t :: D.Anchors(env.client.value.states, p.windowEnd, t) && D.Timely(env, t, later)
    requires Admits(s, Entry(WindowKey(Pair(c, accused), p.windowEnd), p.windowStart, later))
    ensures D.Admissible(SeenAfter(env, reverse, p.validator, q), s, c, p.(validator := accused), later)
  {
    CredibleAfter(env, reverse, c, p, q, accused);
    AdmittedIsAdmissible(SeenAfter(env, reverse, p.validator, q), s, c, p.(validator := accused), accused, later);
  }

  lemma CredibleAfter(
    env: D.Surroundings, reverse: map<Pair, Address>, c: ConsumerId, p: EvidencePacket, q: Address,
    accused: ValidatorAddress)
    requires D.Credible(env, c, p) && K.Resolves(reverse, c, accused) == accused
    requires (accused == p.validator || accused == q)
    ensures D.Credible(SeenAfter(env, reverse, p.validator, q), c, p.(validator := accused))
  {
    assert p.(validator := accused).MissedCount() == p.MissedCount();
  }

  lemma AdmittedIsAdmissible(
    env: D.Surroundings, s: State, c: ConsumerId, p: EvidencePacket, resolved: Address, now: Time)
    requires D.Credible(env, c, p) && env.price.Some? && K.Resolves(env.reverse, c, p.validator) == resolved
    requires exists t :: D.Anchors(env.client.value.states, p.windowEnd, t) && D.Timely(env, t, now)
    requires Admits(s, Entry(WindowKey(Pair(c, resolved), p.windowEnd), p.windowStart, now))
    ensures D.Admissible(env, s, c, p, now)
  {
  }

  /** A pair renamed away holds nothing a new window could meet. */
  lemma MeetsNothing(s: State, p: Pair, q: Pair, end: int, start: int, at: Time)
    requires Renames(s, p, q)
    ensures Admits(Rename(s, p, q), Entry(WindowKey(p, end), start, at))
  {
  }

  /**
   * Concretely: a validator at address 5 has a key assigned on consumer 1 (mapping 7 -> 5) and is accused of
   * heights 10 to 19 as 5, the key it ran before. It rotates to 6, its windows now stand under 6 while 5 still
   * resolves to 5, and the same packet is accepted again: two slashes for the same heights are due.
   */
  ghost const WINDOW: Entry := Entry(WindowKey(Pair(1, 5), 19), 10, 0)
  ghost const PRICED: Slash := Slash(1, 5, 5, 10, 10, 6, [], 1, 0)
  ghost const BEFORE: World := World(AccusationRuns.EMPTY, map[Pair(1, 7) := 5])

  lemma RotationForgetsDefaultKey()
    ensures Sound(BEFORE)
    ensures var w := Step(BEFORE, 0, 0, Evidence(WINDOW, PRICED, None));
            Sound(w) && !Faithful(w, Rotate(1, 5, 6))
            && var end := Step(Step(w, 0, 0, Rotate(1, 5, 6)), 0, 0, Evidence(WINDOW, PRICED, None)).s;
               !AccusedApart(end) && Executable(end, WINDOW.key, 0) && Executable(end, WindowKey(Pair(1, 6), 19), 0)
  {
    FirstAccepted();
    var w := World(Accept(BEFORE.s, WINDOW, PRICED, None), BEFORE.reverse);
    UnfaithfulReadmits(w, 1, 5, 6, 0, PRICED, 0);
    RenamedAt(w.s, Pair(1, 5), Pair(1, 6), WindowKey(Pair(1, 6), 19));
  }

  lemma FirstAccepted()
    ensures Sound(BEFORE)
    ensures var w := World(Accept(BEFORE.s, WINDOW, PRICED, None), BEFORE.reverse);
            && w == Step(BEFORE, 0, 0, Evidence(WINDOW, PRICED, None)) && Sound(w)
            && Renames(w.s, Pair(1, 5), Pair(1, 6)) && !Faithful(w, Rotate(1, 5, 6))
            && w.s.history == [WINDOW] && WINDOW.(at := 0) == WINDOW
  {
    AcceptedFirst(WINDOW, PRICED, BEFORE.reverse, Pair(1, 6));
  }

  lemma AcceptedFirst(e: Entry, slash: Slash, reverse: map<Pair, Address>, q: Pair)
    requires e.at == 0 && e.start <= e.key.end && Matches(slash, e.key, e.start) && slash.accused == e.key.pair.addr
    requires e.key.pair !in reverse && q != e.key.pair && q.consumer == e.key.pair.consumer
    ensures var w := World(AccusationRuns.EMPTY, reverse);
            var w' := World(Accept(w.s, e, slash, None), reverse);
            && Sound(w) && w' == Step(w, 0, 0, Evidence(e, slash, None)) && Sound(w')
            && Renames(w'.s, e.key.pair, q) && !Faithful(w', Rotate(q.consumer, e.key.pair.addr, q.addr))
            && w'.s.history == [e]
  {
    var w := World(AccusationRuns.EMPTY, reverse);
    EmptySound(reverse);
    OffersWhatIsFree(w, e, slash, 0);
    StepSound(w, 0, 0, Evidence(e, slash, None));
    FreshElsewhere(e, slash, reverse, q);
  }

  lemma EmptySound(reverse: map<Pair, Address>)
    ensures Sound(World(AccusationRuns.EMPTY, reverse))
  {
    AccusationRuns.EmptyInv();
  }

  lemma FreshElsewhere(e: Entry, slash: Slash, reverse: map<Pair, Address>, q: Pair)
    requires e.key.pair !in reverse && q != e.key.pair && q.consumer == e.key.pair.consumer
    requires slash.accused == e.key.pair.addr
    ensures var s := Accept(AccusationRuns.EMPTY, e, slash, None);
            && s.history == [e] && Renames(s, e.key.pair, q)
            && !Faithful(World(s, reverse), Rotate(q.consumer, e.key.pair.addr, q.addr))
  {
    assert Accept(AccusationRuns.EMPTY, e, slash, None).history[0] == e;
  }
}
