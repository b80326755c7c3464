/** What each step of a block does to all the consumers it concerns, said at once. */
module BlockSteps {
  import opened Common
  import opened Accusations
  import L = Lifecycle
  import Q = TimeQueue

  /** The consumers of who have changed to one phase, the others to none. */
  function Moved(phases: L.Phases, who: set<ConsumerId>, p: L.Phase): L.Phases {
    map c | c in phases :: if c in who then p else phases[c]
  }

  lemma MovedNext(phases: L.Phases, who: set<ConsumerId>, p: L.Phase, c: ConsumerId)
    requires c in phases
    ensures Moved(phases, who, p)[c := p] == Moved(phases, who + {c}, p)
  {
  }

  /** Outside who, the phases stand. */
  lemma MovedElsewhere(phases: L.Phases, who: set<ConsumerId>, p: L.Phase, c: ConsumerId)
    ensures c in Moved(phases, who, p) <==> c in phases
    ensures c in phases && c !in who ==> Moved(phases, who, p)[c] == phases[c]
  {
  }

  /** A loop over all launched consumers that acts on those in who. */
  lemma ActsNext(done: set<ConsumerId>, who: set<ConsumerId>, c: ConsumerId)
    ensures (done + {c}) * who == if c in who then done * who + {c} else done * who
  {
  }

  lemma ActsOnNone(who: set<ConsumerId>)
    ensures {} * who == {}
  {
  }

  lemma SilentLaunched(phases: L.Phases, lastAcks: map<ConsumerId, Time>, now: Time, grace: Time)
    ensures InPhaseSet(phases, L.Launched) * Silent(phases, lastAcks, now, grace)
         == Silent(phases, lastAcks, now, grace)
  {
  }

  /** A value set for every consumer of who. */
  function Put<V>(m: map<ConsumerId, V>, who: set<ConsumerId>, v: V): map<ConsumerId, V> {
    map c | c in m.Keys + who :: if c in who then v else m[c]
  }

  lemma PutNext<V>(m: map<ConsumerId, V>, who: set<ConsumerId>, v: V, c: ConsumerId)
    ensures Put(m, who, v)[c := v] == Put(m, who + {c}, v)
  {
  }

  lemma PutAlso<V>(
    m: map<ConsumerId, V>, m': map<ConsumerId, V>, m'': map<ConsumerId, V>, who: set<ConsumerId>, v: V, c: ConsumerId)
    requires m' == Put(m, who, v) && m'' == m'[c := v]
    ensures m'' == Put(m, who + {c}, v)
  {
    PutNext(m, who, v, c);
  }

  function InPhaseSet(phases: L.Phases, p: L.Phase): set<ConsumerId> {
    set c | c in phases && phases[c] == p
  }

  /** A consumer without a recorded acknowledgement counts as having just acknowledged. */
  function LastAck(lastAcks: map<ConsumerId, Time>, c: ConsumerId, now: Time): Time {
    if c in lastAcks then lastAcks[c] else now
  }

  /** The launched consumers silent for longer than the grace period. */
  function Silent(phases: L.Phases, lastAcks: map<ConsumerId, Time>, now: Time, grace: Time): set<ConsumerId> {
    set c | c in phases && phases[c] == L.Launched && now - LastAck(lastAcks, c, now) > grace
  }

  /** The consumers of up have launched; those of down fell back to registered, without a spawn time. */
  ghost predicate Launches(b: L.Book, b': L.Book, up: set<ConsumerId>, down: set<ConsumerId>) {
    && b'.phases == Moved(Moved(b.phases, up, L.Launched), down, L.Registered)
    && b'.spawnTimes == (map c | c in b.spawnTimes :: if c in down then L.ZERO_TIME else b.spawnTimes[c])
    && b'.removalTimes == b.removalTimes && SamePauses(b, b')
  }

  ghost predicate SamePauses(b: L.Book, b': L.Book) {
    b'.pauseExpirations == b.pauseExpirations && b'.pauseReasons == b.pauseReasons && b'.pausedAt == b.pausedAt
  }

  /** The consumers of who are deleted. */
  ghost predicate Removes(b: L.Book, b': L.Book, who: set<ConsumerId>) {
    && b'.phases == Moved(b.phases, who, L.Deleted) && b'.spawnTimes == b.spawnTimes
    && b'.removalTimes == b.removalTimes - who && SamePauses(b, b')
  }

  /** The consumers of who are paused for one reason, their auto-stops set to one time. */
  ghost predicate Pauses(b: L.Book, b': L.Book, who: set<ConsumerId>, reason: L.Reason, now: Time, maxPause: Time) {
    && b'.phases == Moved(b.phases, who, L.Paused)
    && b'.spawnTimes == b.spawnTimes && b'.removalTimes == b.removalTimes
    && b'.pauseExpirations == Put(b.pauseExpirations, who, now + maxPause)
    && b'.pauseReasons == Put(b.pauseReasons, who, reason)
    && b'.pausedAt == Put(b.pausedAt, who, now)
    && (maxPause > 0 ==> Q.Due(b'.autoStops, now) == Q.Due(b.autoStops, now))
  }

  /** The consumers of who are stopped, paused no more, and due for removal at one time. */
  ghost predicate Stops(b: L.Book, b': L.Book, who: set<ConsumerId>, removalTime: Time) {
    && b'.phases == Moved(b.phases, who, L.Stopped) && b'.spawnTimes == b.spawnTimes
    && b'.removalTimes == Put(b.removalTimes, who, removalTime)
    && b'.pauseExpirations == b.pauseExpirations - who
    && b'.pauseReasons == b.pauseReasons - who && b'.pausedAt == b.pausedAt - who
  }

  /**
   * What is left of the accusations once the phases have changed: in flight only what concerns launched
   * consumers, and of deleted ones nothing at all.
   */
  ghost function Surviving(s: State, phases: L.Phases): State {
    State(map k | k in s.accepted && !L.InPhase(phases, k.pair.consumer, L.Deleted) :: s.accepted[k],
          map k | k in s.pending && L.InPhase(phases, k.pair.consumer, L.Launched) :: s.pending[k],
          map p | p in s.floors && !L.InPhase(phases, p.consumer, L.Deleted) :: s.floors[p],
          (set p | p in s.marks && L.InPhase(phases, p.consumer, L.Launched)),
          s.history, s.executed, s.deleted + InPhaseSet(phases, L.Deleted), s.accused)
  }

  // One consumer more.

  lemma NothingYet(b: L.Book, b': L.Book)
    requires b'.phases == b.phases && b'.spawnTimes == b.spawnTimes && b'.removalTimes == b.removalTimes
    requires SamePauses(b, b')
    ensures Launches(b, b', {}, {}) && Removes(b, b', {}) && forall t :: Stops(b, b', {}, t)
    ensures b'.autoStops == b.autoStops ==> forall reason, now, t :: Pauses(b, b', {}, reason, now, t)
  {
  }

  lemma LaunchesNext(b: L.Book, b': L.Book, up: set<ConsumerId>, down: set<ConsumerId>, c: ConsumerId, succeeds: bool)
    requires Launches(b, b', up, down) && c in b.phases && c in b.spawnTimes && c !in up && c !in down
    ensures var up', down' := if succeeds then up + {c} else up, if succeeds then down else down + {c};
            Launches(b, L.Launch(b', c, succeeds), up', down')
  {
  }

  /** One more due consumer is launched, if it can be. */
  lemma DueNext(
    b: L.Book, b': L.Book, acks: map<ConsumerId, Time>, launchable: set<ConsumerId>, done: set<ConsumerId>,
    c: ConsumerId, now: Time)
    requires Launches(b, b', done * launchable, done - launchable) && c in b'.phases && c in b'.spawnTimes && c !in done
    ensures Launches(b, L.Launch(b', c, c in launchable), (done + {c}) * launchable, done + {c} - launchable)
    ensures Put(acks, (done + {c}) * launchable, now)
         == if c in launchable then Put(acks, done * launchable, now)[c := now] else Put(acks, done * launchable, now)
  {
    LaunchesNext(b, b', done * launchable, done - launchable, c, c in launchable);
    PutNext(acks, done * launchable, now, c);
    assert (done + {c}) * launchable == if c in launchable then done * launchable + {c} else done * launchable;
    assert done + {c} - launchable == if c in launchable then done - launchable else done - launchable + {c};
  }

  lemma RemovesNext(b: L.Book, b': L.Book, who: set<ConsumerId>, c: ConsumerId)
    requires Removes(b, b', who) && c in b'.phases && c in b'.spawnTimes
    ensures Removes(b, L.Delete(b', c), who + {c})
  {
    MovedNext(b.phases, who, L.Deleted, c);
  }

  lemma PausesNext(
    b: L.Book, b': L.Book, who: set<ConsumerId>, reason: L.Reason, now: Time, maxPause: Time, c: ConsumerId)
    requires Pauses(b, b', who, reason, now, maxPause) && c in b'.phases
    ensures Pauses(b, L.Pause(b', c, reason, now, maxPause), who + {c}, reason, now, maxPause)
  {
    MovedElsewhere(b.phases, who, L.Paused, c);
    MovedNext(b.phases, who, L.Paused, c);
    var b'' := L.Pause(b', c, reason, now, maxPause);
    PutAlso(b.pauseExpirations, b'.pauseExpirations, b''.pauseExpirations, who, now + maxPause, c);
    PutAlso(b.pauseReasons, b'.pauseReasons, b''.pauseReasons, who, reason, c);
    PutAlso(b.pausedAt, b'.pausedAt, b''.pausedAt, who, now, c);
    if maxPause > 0 {
      Q.AppendedLater(b'.autoStops, c, now + maxPause, now);
    }
  }

  lemma StopsNext(b: L.Book, b': L.Book, who: set<ConsumerId>, removalTime: Time, c: ConsumerId)
    requires Stops(b, b', who, removalTime) && c in b'.phases
    ensures Stops(b, L.Stop(b', c, removalTime), who + {c}, removalTime)
  {
    MovedElsewhere(b.phases, who, L.Stopped, c);
    MovedNext(b.phases, who, L.Stopped, c);
    PutNext(b.removalTimes, who, removalTime, c);
    assert b.pauseExpirations - who - {c} == b.pauseExpirations - (who + {c});
    assert b.pauseReasons - who - {c} == b.pauseReasons - (who + {c});
    assert b.pausedAt - who - {c} == b.pausedAt - (who + {c});
  }

  /** A pause or a stop cancels what concerns the consumer. */
  lemma SurvivingCancel(s: State, phases: L.Phases, c: ConsumerId, next: L.Phase)
    requires c in phases && phases[c] != L.Deleted && next != L.Deleted && next != L.Launched
    ensures Surviving(s, phases[c := next]) == Cancel(Surviving(s, phases), c)
  {
    SameDeletedSet(phases, c, next);
    InFlightWithout(s, phases, c, next);
    WindowsWith(s, phases, c, next);
  }

  lemma InFlightWithout(s: State, phases: L.Phases, c: ConsumerId, next: L.Phase)
    requires next != L.Launched
    ensures Surviving(s, phases[c := next]).pending == WithoutConsumer(Surviving(s, phases).pending, c)
    ensures Surviving(s, phases[c := next]).marks == PairsWithout(Surviving(s, phases).marks, c)
  {
  }

  lemma WindowsWith(s: State, phases: L.Phases, c: ConsumerId, next: L.Phase)
    requires c in phases && phases[c] != L.Deleted && next != L.Deleted
    ensures Surviving(s, phases[c := next]).accepted == Surviving(s, phases).accepted
    ensures Surviving(s, phases[c := next]).floors == Surviving(s, phases).floors
  {
  }

  lemma SameDeletedSet(phases: L.Phases, c: ConsumerId, next: L.Phase)
    requires c in phases && phases[c] != L.Deleted
    ensures InPhaseSet(phases[c := next], L.Deleted)
         == InPhaseSet(phases, L.Deleted) + if next == L.Deleted then {c} else {}
  {
  }

  lemma SurvivingDelete(s: State, phases: L.Phases, c: ConsumerId)
    requires c in phases && phases[c] != L.Deleted
    ensures Surviving(s, phases[c := L.Deleted]) == Delete(Surviving(s, phases), c)
  {
    SameDeletedSet(phases, c, L.Deleted);
    SurvivingDeleteMaps(s, phases, c);
  }

  lemma SurvivingDeleteMaps(s: State, phases: L.Phases, c: ConsumerId)
    requires c in phases
    ensures var now := Surviving(s, phases[c := L.Deleted]);
            now.accepted == WithoutConsumer(Surviving(s, phases).accepted, c)
            && now.floors == FloorsWithout(Surviving(s, phases).floors, c)
  {
  }
}
