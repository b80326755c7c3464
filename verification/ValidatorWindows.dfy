/**
 * Windows by validator. A validator may own several provider addresses, its present one and those it rotated
 * away from, and the keeper compares a window with those of one address only.
 */
module ValidatorWindows {
  import opened Common
  import opened Wire
  import opened Accusations
  import opened AccusationRuns
  import AW = AccusedWindows
  import D = DowntimeLedger
  import K = KeyAssignment

  type Validator = int

  /** Two windows about one validator on one consumer. */
  predicate SameValidator(a: Entry, b: Entry, owner: Address -> Validator) {
    a.key.pair.consumer == b.key.pair.consumer && owner(a.key.pair.addr) == owner(b.key.pair.addr)
  }

  /** A validator's windows on a consumer share no height, under whichever of its addresses they stand. */
  ghost predicate ValidatorApart(es: seq<Entry>, owner: Address -> Validator) {
    forall i, j :: 0 <= i < j < |es| && SameValidator(es[i], es[j], owner) ==> Apart(es[i], es[j])
  }

  /** The pair is another address of the accused validator on the same consumer. */
  predicate OtherAddress(q: Pair, e: Entry, owner: Address -> Validator) {
    q.consumer == e.key.pair.consumer && owner(q.addr) == owner(e.key.pair.addr) && q != e.key.pair
  }

  function Under(e: Entry, q: Pair): Entry {
    e.(key := WindowKey(q, e.key.end))
  }

  /** What the keeper asks of the window's own address, asked of the validator's other addresses. */
  ghost predicate AdmittedElsewhere(s: State, e: Entry, owner: Address -> Validator) {
    forall q: Pair :: OtherAddress(q, e, owner) ==> Admits(s, Under(e, q))
  }

  /** The window meets none ever accepted under another address of its validator. */
  ghost predicate ClearElsewhere(es: seq<Entry>, e: Entry, owner: Address -> Validator) {
    forall i :: 0 <= i < |es| && OtherAddress(es[i].key.pair, e, owner) ==> Apart(es[i], e)
  }

  ghost predicate Takes(s: State, now: Time, ev: Event) {
    ev.Offer? && ev.entry.at == now && CanAccept(s, ev.entry, ev.slash, ev.mark)
  }

  /** Window-end times rise, every accepted window had ended, and what was pruned is older than evidence may be. */
  ghost predicate Dated(s: State, now: Time, horizon: Time, endTime: int -> Time, maxAge: Time) {
    Aged(s, now, horizon) && Ended(s.history, endTime) && Rising(endTime) && horizon >= maxAge
  }

  /** Evidence offered is about a window that has ended and is not too old; a rotation stays with its validator. */
  predicate InOrder(ev: Stamped, endTime: int -> Time, maxAge: Time, owner: Address -> Validator) {
    match ev.event
    case Offer(e, _, _) => endTime(e.key.end) <= ev.now <= endTime(e.key.end) + maxAge
    case Rotate(p, q) => owner(p.addr) == owner(q.addr)
    case _ => true
  }

  /** What the stored windows and floors say about the other addresses is what every window ever accepted says. */
  lemma ElsewhereByStoredState(
    s: State, now: Time, horizon: Time, endTime: int -> Time, maxAge: Time, e: Entry, owner: Address -> Validator)
    requires Inv(s) && Dated(s, now, horizon, endTime, maxAge)
    requires e.start <= e.key.end && e.key.pair.consumer !in s.deleted && now <= endTime(e.key.end) + maxAge
    ensures AdmittedElsewhere(s, e, owner) <==> ClearElsewhere(s.history, e, owner)
  {
    forall q: Pair | OtherAddress(q, e, owner)
      ensures Admits(s, Under(e, q))
        <==> forall i :: 0 <= i < |s.history| && s.history[i].key.pair == q ==> Apart(s.history[i], e)
    {
      PruningIsInvisible(s, Under(e, q), endTime, endTime(e.key.end), now, maxAge, horizon - maxAge);
    }
    if AdmittedElsewhere(s, e, owner) {
      forall i | 0 <= i < |s.history| && OtherAddress(s.history[i].key.pair, e, owner) ensures Apart(s.history[i], e) {
        assert Admits(s, Under(e, s.history[i].key.pair));
      }
    }
  }

  /**
   * A step keeps a validator's windows apart exactly when evidence it takes would pass the keeper's own floor and
   * intersection check under every other address of the validator, too.
   */
  lemma StepValidatorApart(
    s: State, ev: Stamped, horizon: Time, endTime: int -> Time, maxAge: Time, owner: Address -> Validator)
    requires Inv(s) && ValidatorApart(s.history, owner)
    requires Dated(s, ev.now, horizon, endTime, maxAge) && InOrder(ev, endTime, maxAge, owner)
    ensures ValidatorApart(Step(s, ev.now, horizon, ev.event).history, owner)
      <==> (Takes(s, ev.now, ev.event) ==> AdmittedElsewhere(s, ev.event.entry, owner))
  {
    if Takes(s, ev.now, ev.event) {
      AdmittedIsNew(s, ev.event.entry);
      AppendedApart(s.history, ev.event.entry, owner);
      ElsewhereByStoredState(s, ev.now, horizon, endTime, maxAge, ev.event.entry, owner);
    } else if ev.event.Rotate? && Renames(s, ev.event.old', ev.event.new') {
      RenamedValidatorApart(s.history, ev.event.old', ev.event.new', owner);
    } else {
      assert Step(s, ev.now, horizon, ev.event).history == s.history;
    }
  }

  lemma AppendedApart(es: seq<Entry>, e: Entry, owner: Address -> Validator)
    requires ValidatorApart(es, owner)
    requires forall i :: 0 <= i < |es| && es[i].key.pair == e.key.pair ==> Apart(es[i], e)
    ensures ValidatorApart(es + [e], owner) <==> ClearElsewhere(es, e, owner)
  {
    var more := es + [e];
    if ValidatorApart(more, owner) {
      forall i | 0 <= i < |es| && SameValidator(es[i], e, owner) ensures Apart(es[i], e) {
        assert more[i] == es[i] && more[|es|] == e;
      }
    } else {
      assert forall i :: 0 <= i < |es| && SameValidator(es[i], e, owner)
                ==> es[i].key.pair == e.key.pair || OtherAddress(es[i].key.pair, e, owner);
    }
  }

  /**
   * So it is for the evidence handler: what it accepts keeps the validator's windows apart exactly when it would have
   * passed under the validator's other addresses.
   */
  lemma JudgedValidatorApart(
    env: D.Surroundings, s: State, s': State, c: ConsumerId, p: EvidencePacket, now: Time,
    error: Option<D.EvidenceError>, horizon: Time, endTime: int -> Time, owner: Address -> Validator)
    requires Inv(s) && ValidatorApart(s.history, owner) && c !in s.deleted
    requires Dated(s, now, horizon, endTime, env.params.maxAge) && D.Judged(env, s, c, p, now, error, s')
    requires env.client.Some? ==> forall i :: 0 <= i < |env.client.value.states| ==>
      env.client.value.states[i].time == endTime(env.client.value.states[i].height)
    ensures ValidatorApart(s'.history, owner)
      <==> (error.None? ==> AdmittedElsewhere(s, D.EntryFor(env, c, p, now), owner))
  {
    if error.None? {
      var e := D.EntryFor(env, c, p, now);
      AcceptedInTime(env, s, c, p, now, endTime);
      AdmittedIsNew(s, e);
      AppendedApart(s.history, e, owner);
      ElsewhereByStoredState(s, now, horizon, endTime, env.params.maxAge, e, owner);
    }
  }

  lemma AcceptedInTime(env: D.Surroundings, s: State, c: ConsumerId, p: EvidencePacket, now: Time, endTime: int -> Time)
    requires D.Admissible(env, s, c, p, now) && Rising(endTime)
    requires forall i :: 0 <= i < |env.client.value.states| ==>
      env.client.value.states[i].time == endTime(env.client.value.states[i].height)
    ensures p.windowStart <= p.windowEnd && now <= endTime(p.windowEnd) + env.params.maxAge
  {
    var t :| D.Anchors(env.client.value.states, p.windowEnd, t) && D.Timely(env, t, now);
    D.AnchorIsLowerBound(env.client.value.states, p.windowEnd, t, endTime);
  }

  lemma RenamedValidatorApart(es: seq<Entry>, p: Pair, q: Pair, owner: Address -> Validator)
    requires ValidatorApart(es, owner) && p.consumer == q.consumer && owner(p.addr) == owner(q.addr)
    ensures ValidatorApart(RenamedLog(es, p, q), owner)
  {
  }

  /** What holds while a cautious run goes on. */
  ghost predicate OnCourse(
    s: State, now: Time, horizon: Time, endTime: int -> Time, maxAge: Time, owner: Address -> Validator)
  {
    Inv(s) && ValidatorApart(s.history, owner) && Dated(s, now, horizon, endTime, maxAge)
  }

  /** A chronological run of such events in which evidence taken is admitted under the validator's other addresses. */
  ghost predicate Cautious(
    s: State, events: seq<Stamped>, start: Time, horizon: Time, endTime: int -> Time, maxAge: Time,
    owner: Address -> Validator)
  {
    && OnCourse(s, start, horizon, endTime, maxAge, owner) && Chronological(events, start)
    && (forall i :: 0 <= i < |events| ==> InOrder(events[i], endTime, maxAge, owner))
    && (forall i :: 0 <= i < |events| ==> CautiousStep(Run(s, horizon, events[..i]), events[i], owner))
  }

  ghost predicate CautiousStep(s: State, ev: Stamped, owner: Address -> Validator) {
    Takes(s, ev.now, ev.event) ==> AdmittedElsewhere(s, ev.event.entry, owner)
  }

  lemma CautiousBefore(
    s: State, init: seq<Stamped>, ev: Stamped, start: Time, horizon: Time, endTime: int -> Time, maxAge: Time,
    owner: Address -> Validator)
    requires Cautious(s, init + [ev], start, horizon, endTime, maxAge, owner)
    ensures Cautious(s, init, start, horizon, endTime, maxAge, owner)
    ensures InOrder(ev, endTime, maxAge, owner) && CautiousStep(Run(s, horizon, init), ev, owner)
    ensures start <= ev.now && forall i :: 0 <= i < |init| ==> init[i].now <= ev.now
  {
    var all := init + [ev];
    assert all[|init|] == ev && all[..|init|] == init;
    forall i | 0 <= i < |init|
      ensures InOrder(init[i], endTime, maxAge, owner) && CautiousStep(Run(s, horizon, init[..i]), init[i], owner)
    {
      assert init[i] == all[i] && init[..i] == all[..i];
    }
    assert forall i :: 0 <= i < |init| ==> init[i] == all[i];
  }

  lemma StepEnded(s: State, ev: Stamped, horizon: Time, endTime: int -> Time, maxAge: Time, owner: Address -> Validator)
    requires Ended(s.history, endTime) && InOrder(ev, endTime, maxAge, owner)
    ensures Ended(Step(s, ev.now, horizon, ev.event).history, endTime)
  {
  }

  lemma StepOnCourse(
    s: State, s': State, ev: Stamped, horizon: Time, endTime: int -> Time, maxAge: Time, owner: Address -> Validator)
    requires OnCourse(s, ev.now, horizon, endTime, maxAge, owner) && s' == Step(s, ev.now, horizon, ev.event)
    requires InOrder(ev, endTime, maxAge, owner) && CautiousStep(s, ev, owner)
    ensures OnCourse(s', ev.now, horizon, endTime, maxAge, owner)
  {
    StepSteady(s, s', ev.now, horizon, ev.event);
    StepEnded(s, ev, horizon, endTime, maxAge, owner);
    StepValidatorApart(s, ev, horizon, endTime, maxAge, owner);
  }

  lemma OnCourseLater(
    s: State, now: Time, later: Time, horizon: Time, endTime: int -> Time, maxAge: Time, owner: Address -> Validator)
    requires OnCourse(s, now, horizon, endTime, maxAge, owner) && now <= later
    ensures OnCourse(s, later, horizon, endTime, maxAge, owner)
  {
    AgedLater(s, now, later, horizon);
  }

  lemma {:induction false} RunValidatorApart(
    s: State, events: seq<Stamped>, start: Time, horizon: Time, endTime: int -> Time, maxAge: Time,
    owner: Address -> Validator)
    requires Cautious(s, events, start, horizon, endTime, maxAge, owner)
    ensures OnCourse(Run(s, horizon, events), ClockAfter(events, start), horizon, endTime, maxAge, owner)
    decreases |events|
  {
    if events != [] {
      var init, last := events[..|events| - 1], events[|events| - 1];
      assert events == init + [last];
      CautiousBefore(s, init, last, start, horizon, endTime, maxAge, owner);
      RunValidatorApart(s, init, start, horizon, endTime, maxAge, owner);
      OnCourseLater(Run(s, horizon, init), ClockAfter(init, start), last.now, horizon, endTime, maxAge, owner);
      StepOnCourse(Run(s, horizon, init), Run(s, horizon, events), last, horizon, endTime, maxAge, owner);
    }
  }

  /**
   * Over any run in which evidence taken is admitted under every address of its validator, no height of a
   * validator on a consumer is slashed for twice, however much of its windows is pruned in between.
   */
  lemma ValidatorSlashedOnce(
    s: State, events: seq<Stamped>, start: Time, horizon: Time, endTime: int -> Time, maxAge: Time,
    owner: Address -> Validator, i: int, j: int, h: int)
    requires Cautious(s, events, start, horizon, endTime, maxAge, owner)
    requires var end := Run(s, horizon, events);
             0 <= i < j < |end.executed| && SameValidator(end.executed[i], end.executed[j], owner)
    ensures var end := Run(s, horizon, events); !(Covers(end.executed[i], h) && Covers(end.executed[j], h))
  {
    RunValidatorApart(s, events, start, horizon, endTime, maxAge, owner);
    ExecutedOfValidatorApart(Run(s, horizon, events), owner, i, j);
  }

  lemma ExecutedOfValidatorApart(s: State, owner: Address -> Validator, i: int, j: int)
    requires Inv(s) && ValidatorApart(s.history, owner)
    requires 0 <= i < j < |s.executed| && SameValidator(s.executed[i], s.executed[j], owner)
    ensures Apart(s.executed[i], s.executed[j])
  {
    if s.executed[i].key.pair != s.executed[j].key.pair {
      var x :| 0 <= x < |s.history| && s.history[x] == s.executed[i];
      var y :| 0 <= y < |s.history| && s.history[y] == s.executed[j];
      assert SameValidator(s.history[x], s.history[y], owner) && SameValidator(s.history[y], s.history[x], owner);
    }
  }

  /**
   * The condition cannot be dropped: a validator with a window under one of its addresses is accused of the same
   * heights again under another that nothing is recorded under - after a rotation without an assigned key, say,
   * which moves no windows - and both slashes stand.
   */
  lemma AccusedUnderBothAddresses(s: State, i: int, slash: Slash, q: Pair, now: Time, owner: Address -> Validator)
    requires Inv(s) && 0 <= i < |s.history| && Fresh(s, q) && q.consumer !in s.deleted
    requires q.consumer == s.history[i].key.pair.consumer && owner(q.addr) == owner(s.history[i].key.pair.addr)
    requires Matches(slash, WindowKey(q, s.history[i].key.end), s.history[i].start)
    ensures var e := Entry(WindowKey(q, s.history[i].key.end), s.history[i].start, now);
            var s' := Step(s, now, 0, Offer(e, slash, None));
            && s' == Accept(s, e, slash, None) && !ValidatorApart(s'.history, owner)
            && forall k :: k in s.pending ==> k in s'.pending && s'.pending[k] == s.pending[k]
  {
    var e := Entry(WindowKey(q, s.history[i].key.end), s.history[i].start, now);
    assert Takes(s, now, Offer(e, slash, None));
    var after := s.history + [e];
    assert after[i] == s.history[i] && after[|s.history|] == e && SameValidator(after[i], e, owner);
  }

  /**
   * The evidence handler lets it happen: a packet credible and priced before a rotation is admissible after it when
   * it names the new address, whatever was accepted under the old one before - the packet itself, for one.
   */
  lemma SameHeightsStayAdmissible(
    env: D.Surroundings, s: State, reverse: map<Pair, Address>, c: ConsumerId, p: EvidencePacket, q: ValidatorAddress,
    later: Time)
    requires D.Credible(env, c, p) && env.price.Some?
    requires Pair(c, q) !in reverse && Fresh(s, Pair(c, q))
    requires exists t :: D.Anchors(env.client.value.states, p.windowEnd, t) && D.Timely(env, t, later)
    ensures var again, env' := p.(validator := q), AW.SeenAfter(env, reverse, p.validator, q);
            D.Admissible(env', s, c, again, later) && D.EntryFor(env', c, again, later).key.pair == Pair(c, q)
  {
    assert K.Resolves(reverse, c, q) == q;
    AW.AdmissibleAfter(env, reverse, s, c, p, q, q, later);
  }

  /**
   * Concretely: a validator at address 5 without an assigned key on consumer 1 is accused of heights 10 to 19. It
   * rotates to 6, which moves its epoch mark and no window, and is accused of the same heights under 6: two
   * slashes are due.
   */
  ghost const BEFORE: Entry := Entry(WindowKey(Pair(1, 5), 19), 10, 0)
  ghost const AFTER: Entry := Entry(WindowKey(Pair(1, 6), 19), 10, 0)
  ghost const PRICED_BEFORE: Slash := Slash(1, 5, 5, 10, 10, 6, [], 1, 0)
  ghost const PRICED_AFTER: Slash := Slash(1, 6, 6, 10, 10, 6, [], 1, 0)

  lemma RotationLeavesWindowsBehind(owner: Address -> Validator)
    requires owner(5) == owner(6)
    ensures var s := Step(EMPTY, 0, 0, Offer(BEFORE, PRICED_BEFORE, Some(Pair(1, 5))));
            var rotated := Step(s, 0, 0, MoveMark(Pair(1, 5), Pair(1, 6)));
            var end := Step(rotated, 0, 0, Offer(AFTER, PRICED_AFTER, None));
            && Inv(end) && rotated.marks == {Pair(1, 6)}
            && !AdmittedElsewhere(rotated, AFTER, owner) && !ValidatorApart(end.history, owner)
            && Executable(end, BEFORE.key, 0) && Executable(end, AFTER.key, 0)
  {
    AccusedFirst(BEFORE, PRICED_BEFORE, Pair(1, 6));
    var rotated := Accept(EMPTY, BEFORE, PRICED_BEFORE, Some(Pair(1, 5))).(marks := {Pair(1, 6)});
    AccusedAgain(rotated, BEFORE, PRICED_BEFORE, AFTER, PRICED_AFTER, owner);
  }

  lemma AccusedFirst(e: Entry, slash: Slash, q: Pair)
    requires e.at == 0 && e.start <= e.key.end && Matches(slash, e.key, e.start)
    requires q != e.key.pair && q.consumer == e.key.pair.consumer
    ensures var s := Accept(EMPTY, e, slash, Some(e.key.pair));
            var rotated := s.(marks := {q});
            && s == Step(EMPTY, 0, 0, Offer(e, slash, Some(e.key.pair)))
            && rotated == Step(s, 0, 0, MoveMark(e.key.pair, q))
            && Inv(rotated) && Fresh(rotated, q) && rotated.history == [e] && rotated.deleted == {}
            && rotated.pending == map[e.key := slash]
  {
    EmptyInv();
    AcceptedAlone(EMPTY, e, slash, q);
    MarkMoved(Accept(EMPTY, e, slash, Some(e.key.pair)), e.key.pair, q);
  }

  lemma AcceptedAlone(s: State, e: Entry, slash: Slash, q: Pair)
    requires Inv(s) && s.accepted == map[] && s.pending == map[] && s.floors == map[] && s.marks == {}
    requires s.history == []
    requires s.executed == [] && s.deleted == {}
    requires e.at == 0 && e.start <= e.key.end && Matches(slash, e.key, e.start) && q != e.key.pair
    ensures var s' := Accept(s, e, slash, Some(e.key.pair));
            && s' == Step(s, 0, 0, Offer(e, slash, Some(e.key.pair))) && Inv(s')
            && Fresh(s', q) && s'.history == [e] && s'.deleted == {} && s'.marks == {e.key.pair}
            && s'.pending == map[e.key := slash]
  {
    AcceptKeeps(s, e, slash, Some(e.key.pair));
  }

  lemma MarkMoved(s: State, p: Pair, q: Pair)
    requires Inv(s) && s.marks == {p} && p != q && p.consumer == q.consumer && Fresh(s, q)
    ensures s.(marks := {q}) == Step(s, 0, 0, MoveMark(p, q)) && Inv(s.(marks := {q})) && Fresh(s.(marks := {q}), q)
  {
    assert s.marks - {p} + {q} == {q};
    StepKeeps(s, 0, 0, MoveMark(p, q));
  }

  lemma AccusedAgain(s: State, e: Entry, slash: Slash, again: Entry, priced: Slash, owner: Address -> Validator)
    requires Inv(s) && Fresh(s, again.key.pair) && s.history == [e] && s.pending == map[e.key := slash]
    requires again == Under(e, again.key.pair) && OtherAddress(again.key.pair, e, owner) && e.at == 0
    requires Matches(priced, again.key, again.start) && again.key.pair.consumer !in s.deleted
    ensures var end := Step(s, 0, 0, Offer(again, priced, None));
            && Inv(end) && !ValidatorApart(end.history, owner)
            && end.pending == map[e.key := slash, again.key := priced]
    ensures !AdmittedElsewhere(s, again, owner)
  {
    assert OtherAddress(e.key.pair, again, owner) && Guards(s, s.history[0]);
    assert !Admits(s, Under(again, e.key.pair));
    StepKeeps(s, 0, 0, Offer(again, priced, None));
    assert s.history[0] == e;
    AccusedUnderBothAddresses(s, 0, priced, again.key.pair, 0, owner);
  }
}
