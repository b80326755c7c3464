/** Phases of a consumer on the provider, and the three time queues that move them on. */
module Lifecycle {
  import opened Common
  import opened TimeQueue

  datatype Phase = Registered | Initialized | Launched | Paused | Stopped | Deleted

  datatype Reason = DowntimeChallenge | LightClientAttack

  /** The zero time: no spawn time is set. */
  const ZERO_TIME: Time := 0

  /** How many ids a block takes off each queue. */
  const QUEUE_LIMIT: nat := 200

  type Phases = map<ConsumerId, Phase>

  predicate Prelaunched(p: Phase) {
    p == Registered || p == Initialized
  }

  /** Whether a consumer in phase p can ever be in phase q. */
  predicate Leads(p: Phase, q: Phase) {
    match p
    case Registered => true
    case Initialized => true
    case Launched => !Prelaunched(q)
    case Paused => !Prelaunched(q)
    case Stopped => q == Stopped || q == Deleted
    case Deleted => q == Deleted
  }

  /** No consumer disappears, and each moves only where its phase leads. */
  ghost predicate Legal(before: Phases, after: Phases) {
    forall c :: c in before ==> c in after && Leads(before[c], after[c])
  }

  lemma LegalTransitive(a: Phases, b: Phases, c: Phases)
    requires Legal(a, b) && Legal(b, c)
    ensures Legal(a, c)
  {
  }

  ghost predicate InPhase(phases: Phases, c: ConsumerId, p: Phase) {
    c in phases && phases[c] == p
  }

  /** The consumers in a phase with their recorded times, except those already taken off the queue. */
  ghost function Waiting(phases: Phases, p: Phase, times: map<ConsumerId, Time>, taken: set<ConsumerId>)
    : map<ConsumerId, Time>
  {
    map c | c in phases && phases[c] == p && c in times && c !in taken :: times[c]
  }

  /** Each consumer waiting in phase p sits exactly once in q, at its recorded time, and nobody else does. */
  ghost predicate Lined(q: Buckets, phases: Phases, p: Phase, times: map<ConsumerId, Time>, taken: set<ConsumerId>) {
    Exact(q, Waiting(phases, p, times, taken))
  }

  /**
   * The lifecycle state. The last three sets are the ids a block has taken off a queue and not handled yet:
   * empty between blocks.
   */
  datatype Book = Book(
    phases: Phases,
    spawnTimes: map<ConsumerId, Time>,
    removalTimes: map<ConsumerId, Time>,
    pauseExpirations: map<ConsumerId, Time>,
    pauseReasons: map<ConsumerId, Reason>,
    pausedAt: map<ConsumerId, Time>,
    nextId: nat,
    launches: Buckets,
    removals: Buckets,
    autoStops: Buckets,
    launching: set<ConsumerId>,
    removing: set<ConsumerId>,
    stopping: set<ConsumerId>)

  const EMPTY_BOOK: Book :=
    Book(map[], map[], map[], map[], map[], map[], 0, map[], map[], map[], {}, {}, {})

  // The invariant.

  ghost predicate Recorded(b: Book) {
    && (forall c :: c in b.phases ==> c < b.nextId)
    && b.spawnTimes.Keys == b.phases.Keys
    && (forall c :: c in b.phases && b.phases[c] == Registered ==> b.spawnTimes[c] == ZERO_TIME)
    && (forall c :: c in b.phases && b.phases[c] == Initialized ==> b.spawnTimes[c] != ZERO_TIME)
    && (forall c :: c in b.removalTimes <==> InPhase(b.phases, c, Stopped))
    && (forall c :: c in b.pauseExpirations <==> InPhase(b.phases, c, Paused))
    && b.pauseReasons.Keys == b.pauseExpirations.Keys
    && b.pausedAt.Keys == b.pauseExpirations.Keys
  }

  /** Ids are given out in order and never taken back. */
  ghost predicate Numbered(b: Book) {
    forall c: ConsumerId :: c < b.nextId ==> c in b.phases
  }

  ghost predicate Handling(b: Book) {
    && (forall c :: c in b.launching ==> InPhase(b.phases, c, Initialized))
    && (forall c :: c in b.removing ==> InPhase(b.phases, c, Stopped))
    && (forall c :: c in b.stopping ==> InPhase(b.phases, c, Paused))
  }

  ghost predicate Good(b: Book) {
    && Recorded(b) && Handling(b) && Numbered(b)
    && Lined(b.launches, b.phases, Initialized, b.spawnTimes, b.launching)
    && Lined(b.removals, b.phases, Stopped, b.removalTimes, b.removing)
    && Lined(b.autoStops, b.phases, Paused, b.pauseExpirations, b.stopping)
  }

  ghost predicate Idle(b: Book) {
    b.launching == {} && b.removing == {} && b.stopping == {}
  }

  /** Between blocks every initialized, paused or stopped consumer is queued once, in its own queue, at its time. */
  lemma EachInItsOwnQueue(b: Book, c: ConsumerId)
    requires Good(b) && Idle(b)
    ensures InPhase(b.phases, c, Initialized) <==> exists t :: t in b.launches && c in b.launches[t]
    ensures InPhase(b.phases, c, Stopped) <==> exists t :: t in b.removals && c in b.removals[t]
    ensures InPhase(b.phases, c, Paused) <==> exists t :: t in b.autoStops && c in b.autoStops[t]
    ensures InPhase(b.phases, c, Initialized) ==> QueuedOnce(b.launches, c, b.spawnTimes[c])
    ensures InPhase(b.phases, c, Stopped) ==> QueuedOnce(b.removals, c, b.removalTimes[c])
    ensures InPhase(b.phases, c, Paused) ==> QueuedOnce(b.autoStops, c, b.pauseExpirations[c])
  {
    OneQueue(b.launches, Waiting(b.phases, Initialized, b.spawnTimes, b.launching), c);
    OneQueue(b.removals, Waiting(b.phases, Stopped, b.removalTimes, b.removing), c);
    OneQueue(b.autoStops, Waiting(b.phases, Paused, b.pauseExpirations, b.stopping), c);
  }

  /** c sits in q at one place, and that in the bucket of time t. */
  ghost predicate QueuedOnce(q: Buckets, c: ConsumerId, t: Time) {
    && t in q && c in q[t]
    && (forall u :: u in q && c in q[u] ==> u == t)
    && forall i, j :: 0 <= i < j < |q[t]| ==> !(q[t][i] == c && q[t][j] == c)
  }

  lemma OneQueue(q: Buckets, times: map<ConsumerId, Time>, c: ConsumerId)
    requires Exact(q, times)
    ensures c in times <==> exists t :: t in q && c in q[t]
    ensures c in times ==> QueuedOnce(q, c, times[c])
  {
    forall t | t in q && c in q[t] ensures c in times && times[c] == t {
      var i :| 0 <= i < |q[t]| && q[t][i] == c;
    }
    if c in times {
      var t := times[c];
      forall i, j | 0 <= i < j < |q[t]| ensures !(q[t][i] == c && q[t][j] == c) {
        assert q[t][i] != q[t][j];
      }
    }
  }

  // The steps.

  /** A consumer whose spawn time is set waits for its launch; otherwise it is only registered. */
  function Scheduled(spawnTime: Time): Phase {
    if spawnTime == ZERO_TIME then Registered else Initialized
  }

  ghost function Create(b: Book, spawnTime: Time): Book {
    b.(phases := b.phases[b.nextId := Scheduled(spawnTime)],
       spawnTimes := b.spawnTimes[b.nextId := spawnTime],
       nextId := b.nextId + 1,
       launches := if spawnTime == ZERO_TIME then b.launches else Appended(b.launches, b.nextId, spawnTime))
  }

  ghost function Unscheduled(b: Book, c: ConsumerId): Buckets
    requires c in b.phases && c in b.spawnTimes
  {
    if b.phases[c] == Initialized then Removed(b.launches, c, b.spawnTimes[c]) else b.launches
  }

  ghost function Respawn(b: Book, c: ConsumerId, spawnTime: Time): Book
    requires c in b.phases && c in b.spawnTimes
  {
    b.(phases := b.phases[c := Scheduled(spawnTime)],
       spawnTimes := b.spawnTimes[c := spawnTime],
       launches := if spawnTime == ZERO_TIME then Unscheduled(b, c) else Appended(Unscheduled(b, c), c, spawnTime))
  }

  /** An update may come with a new spawn time only before launch; without one it plans the launch again as it was. */
  predicate Updatable(phases: Phases, c: ConsumerId, spawnTime: Option<Time>) {
    c in phases && (Prelaunched(phases[c]) || (phases[c] == Launched && spawnTime.None?))
  }

  ghost function Update(b: Book, c: ConsumerId, spawnTime: Option<Time>): Book
    requires c in b.phases && c in b.spawnTimes
  {
    if Prelaunched(b.phases[c]) then Respawn(b, c, spawnTime.GetOr(b.spawnTimes[c])) else b
  }

  ghost function TakeLaunches(b: Book, now: Time): Book {
    var r := Take(b.launches, now, QUEUE_LIMIT);
    b.(launches := r.rest, launching := b.launching + Ids(r.ids))
  }

  ghost function TakeRemovals(b: Book, now: Time): Book {
    var r := Take(b.removals, now, QUEUE_LIMIT);
    b.(removals := r.rest, removing := b.removing + Ids(r.ids))
  }

  ghost function TakeAutoStops(b: Book, now: Time): Book {
    var r := Take(b.autoStops, now, QUEUE_LIMIT);
    b.(autoStops := r.rest, stopping := b.stopping + Ids(r.ids))
  }

  /** A consumer taken for launch is launched, or falls back to registered without a spawn time. */
  ghost function Launch(b: Book, c: ConsumerId, succeeds: bool): Book {
    b.(phases := b.phases[c := if succeeds then Launched else Registered],
       spawnTimes := if succeeds then b.spawnTimes else b.spawnTimes[c := ZERO_TIME],
       launching := b.launching - {c})
  }

  ghost function Unpaused(b: Book, c: ConsumerId): Book {
    b.(autoStops := if c in b.pauseExpirations then Removed(b.autoStops, c, b.pauseExpirations[c]) else b.autoStops,
       pauseExpirations := b.pauseExpirations - {c},
       pauseReasons := b.pauseReasons - {c},
       pausedAt := b.pausedAt - {c},
       stopping := b.stopping - {c})
  }

  ghost function Stop(b: Book, c: ConsumerId, removalTime: Time): Book {
    Unpaused(b, c).(phases := b.phases[c := Stopped],
                    removalTimes := b.removalTimes[c := removalTime],
                    removals := Appended(b.removals, c, removalTime))
  }

  ghost function Pause(b: Book, c: ConsumerId, reason: Reason, now: Time, maxPause: Time): Book {
    b.(phases := b.phases[c := Paused],
       pauseExpirations := b.pauseExpirations[c := now + maxPause],
       pauseReasons := b.pauseReasons[c := reason],
       pausedAt := b.pausedAt[c := now],
       autoStops := Appended(b.autoStops, c, now + maxPause))
  }

  ghost function Resume(b: Book, c: ConsumerId): Book {
    Unpaused(b, c).(phases := b.phases[c := Launched])
  }

  ghost function Delete(b: Book, c: ConsumerId): Book
    requires c in b.phases && c in b.spawnTimes
  {
    b.(phases := b.phases[c := Deleted],
       launches := Unscheduled(b, c),
       removalTimes := b.removalTimes - {c},
       removing := b.removing - {c})
  }

  // Each step keeps the invariant.

  /** A change of c between other phases leaves a phase's line alone. */
  lemma OtherLine(
    q: Buckets, phases: Phases, c: ConsumerId, next: Phase, p: Phase, times: map<ConsumerId, Time>,
    times': map<ConsumerId, Time>, taken: set<ConsumerId>)
    requires Lined(q, phases, p, times, taken)
    requires (c in phases ==> phases[c] != p || c in taken) && next != p && c in phases + map[c := next]
    requires times'.Keys + {c} == times.Keys + {c} && forall d :: d in times && d != c ==> times'[d] == times[d]
    ensures Lined(q, phases[c := next], p, times', taken - {c})
  {
    assert Waiting(phases[c := next], p, times', taken - {c}) == Waiting(phases, p, times, taken);
  }

  lemma JoinsLine(
    q: Buckets, phases: Phases, c: ConsumerId, p: Phase, times: map<ConsumerId, Time>, taken: set<ConsumerId>, t: Time)
    requires Lined(q, phases, p, times, taken) && c !in taken && (c in phases ==> phases[c] != p)
    ensures Lined(Appended(q, c, t), phases[c := p], p, times[c := t], taken)
  {
    AppendKeepsExact(q, Waiting(phases, p, times, taken), c, t);
    assert Waiting(phases[c := p], p, times[c := t], taken) == Waiting(phases, p, times, taken)[c := t];
  }

  lemma LeavesLine(
    q: Buckets, phases: Phases, c: ConsumerId, next: Phase, p: Phase, times: map<ConsumerId, Time>,
    times': map<ConsumerId, Time>, taken: set<ConsumerId>)
    requires Lined(q, phases, p, times, taken) && next != p && c in times
    requires times'.Keys + {c} == times.Keys + {c} && forall d :: d in times && d != c ==> times'[d] == times[d]
    ensures Lined(Removed(q, c, times[c]), phases[c := next], p, times', taken - {c})
  {
    RemovedKeepsExact(q, Waiting(phases, p, times, taken), c, times[c]);
    assert Waiting(phases[c := next], p, times', taken - {c}) == Waiting(phases, p, times, taken) - {c};
  }

  lemma TakenFromLine(
    q: Buckets, phases: Phases, p: Phase, times: map<ConsumerId, Time>, now: Time, taken: set<ConsumerId>)
    requires Lined(q, phases, p, times, taken)
    ensures var r := Take(q, now, QUEUE_LIMIT);
            && Lined(r.rest, phases, p, times, taken + Ids(r.ids))
            && (forall i :: 0 <= i < |r.ids|
                  ==> InPhase(phases, r.ids[i], p) && r.ids[i] in times && times[r.ids[i]] <= now)
            && Unique(r.ids)
  {
    var waiting, r := Waiting(phases, p, times, taken), Take(q, now, QUEUE_LIMIT);
    TakeKeepsExact(q, now, QUEUE_LIMIT, waiting);
    assert Waiting(phases, p, times, taken + Ids(r.ids)) == waiting - Ids(r.ids);
    assert forall i :: 0 <= i < |r.ids| ==> r.ids[i] in waiting;
  }

  lemma LaunchesUntouched(b: Book, c: ConsumerId, next: Phase)
    requires Lined(b.launches, b.phases, Initialized, b.spawnTimes, b.launching) && Handling(b)
    requires c in b.phases && b.phases[c] != Initialized && next != Initialized
    ensures Lined(b.launches, b.phases[c := next], Initialized, b.spawnTimes, b.launching)
  {
    assert b.launching - {c} == b.launching;
    OtherLine(b.launches, b.phases, c, next, Initialized, b.spawnTimes, b.spawnTimes, b.launching);
  }

  lemma RemovalsUntouched(b: Book, c: ConsumerId, next: Phase)
    requires Lined(b.removals, b.phases, Stopped, b.removalTimes, b.removing) && Handling(b)
    requires (c in b.phases ==> b.phases[c] != Stopped) && next != Stopped
    ensures Lined(b.removals, b.phases[c := next], Stopped, b.removalTimes, b.removing)
  {
    assert b.removing - {c} == b.removing;
    OtherLine(b.removals, b.phases, c, next, Stopped, b.removalTimes, b.removalTimes, b.removing);
  }

  lemma AutoStopsUntouched(b: Book, c: ConsumerId, next: Phase)
    requires Lined(b.autoStops, b.phases, Paused, b.pauseExpirations, b.stopping) && Handling(b)
    requires (c in b.phases ==> b.phases[c] != Paused) && next != Paused
    ensures Lined(b.autoStops, b.phases[c := next], Paused, b.pauseExpirations, b.stopping)
  {
    assert b.stopping - {c} == b.stopping;
    OtherLine(b.autoStops, b.phases, c, next, Paused, b.pauseExpirations, b.pauseExpirations, b.stopping);
  }

  ghost predicate Kept(b: Book, b': Book) {
    Recorded(b') && Handling(b') && Legal(b.phases, b'.phases)
  }

  lemma CreateKeeps(b: Book, spawnTime: Time)
    requires Good(b)
    ensures Good(Create(b, spawnTime)) && Legal(b.phases, Create(b, spawnTime).phases)
  {
    CreateKept(b, spawnTime);
    RemovalsUntouched(b, b.nextId, Scheduled(spawnTime));
    AutoStopsUntouched(b, b.nextId, Scheduled(spawnTime));
    CreateLine(b, spawnTime);
  }

  lemma CreateKept(b: Book, spawnTime: Time)
    requires Recorded(b) && Handling(b)
    ensures Kept(b, Create(b, spawnTime)) && b.nextId !in b.phases
  {
  }

  lemma CreateLine(b: Book, spawnTime: Time)
    requires Lined(b.launches, b.phases, Initialized, b.spawnTimes, b.launching) && Recorded(b) && Handling(b)
    ensures var b' := Create(b, spawnTime); Lined(b'.launches, b'.phases, Initialized, b'.spawnTimes, b'.launching)
  {
    assert b.launching - {b.nextId} == b.launching;
    if spawnTime == ZERO_TIME {
      OtherLine(b.launches, b.phases, b.nextId, Registered, Initialized, b.spawnTimes,
                b.spawnTimes[b.nextId := spawnTime], b.launching);
    } else {
      JoinsLine(b.launches, b.phases, b.nextId, Initialized, b.spawnTimes, b.launching, spawnTime);
    }
  }

  lemma RespawnKeeps(b: Book, c: ConsumerId, spawnTime: Time)
    requires Good(b) && c in b.phases && Prelaunched(b.phases[c]) && c !in b.launching
    ensures Good(Respawn(b, c, spawnTime)) && Legal(b.phases, Respawn(b, c, spawnTime).phases)
  {
    RespawnKept(b, c, spawnTime);
    RemovalsUntouched(b, c, Scheduled(spawnTime));
    AutoStopsUntouched(b, c, Scheduled(spawnTime));
    RespawnLine(b, c, spawnTime);
  }

  lemma RespawnKept(b: Book, c: ConsumerId, spawnTime: Time)
    requires Recorded(b) && Handling(b) && c in b.phases && Prelaunched(b.phases[c]) && c !in b.launching
    ensures Kept(b, Respawn(b, c, spawnTime))
  {
  }

  lemma RespawnLine(b: Book, c: ConsumerId, spawnTime: Time)
    requires Lined(b.launches, b.phases, Initialized, b.spawnTimes, b.launching) && c in b.phases && c in b.spawnTimes
    requires c !in b.launching
    ensures var b' := Respawn(b, c, spawnTime); Lined(b'.launches, b'.phases, Initialized, b'.spawnTimes, b'.launching)
  {
    UnscheduledLine(b, c, Registered, b.spawnTimes[c := spawnTime]);
    if spawnTime != ZERO_TIME {
      JoinsLine(Unscheduled(b, c), b.phases[c := Registered], c, Initialized, b.spawnTimes[c := spawnTime], b.launching,
                spawnTime);
      assert b.phases[c := Registered][c := Initialized] == b.phases[c := Initialized];
      assert b.spawnTimes[c := spawnTime][c := spawnTime] == b.spawnTimes[c := spawnTime];
    }
  }

  lemma UnscheduledLine(b: Book, c: ConsumerId, next: Phase, times': map<ConsumerId, Time>)
    requires Lined(b.launches, b.phases, Initialized, b.spawnTimes, b.launching) && c in b.phases && c in b.spawnTimes
    requires next != Initialized && c !in b.launching
    requires times'.Keys == b.spawnTimes.Keys && forall d :: d in times' && d != c ==> times'[d] == b.spawnTimes[d]
    ensures Lined(Unscheduled(b, c), b.phases[c := next], Initialized, times', b.launching)
  {
    assert b.launching - {c} == b.launching;
    if b.phases[c] == Initialized {
      LeavesLine(b.launches, b.phases, c, next, Initialized, b.spawnTimes, times', b.launching);
    } else {
      OtherLine(b.launches, b.phases, c, next, Initialized, b.spawnTimes, times', b.launching);
    }
  }

  lemma TakeLaunchesKeeps(b: Book, now: Time)
    requires Good(b)
    ensures Good(TakeLaunches(b, now))
  {
    TakenFromLine(b.launches, b.phases, Initialized, b.spawnTimes, now, b.launching);
  }

  lemma TakeRemovalsKeeps(b: Book, now: Time)
    requires Good(b)
    ensures Good(TakeRemovals(b, now))
  {
    TakenFromLine(b.removals, b.phases, Stopped, b.removalTimes, now, b.removing);
  }

  lemma TakeAutoStopsKeeps(b: Book, now: Time)
    requires Good(b)
    ensures Good(TakeAutoStops(b, now))
  {
    TakenFromLine(b.autoStops, b.phases, Paused, b.pauseExpirations, now, b.stopping);
  }

  lemma LaunchKeeps(b: Book, c: ConsumerId, succeeds: bool)
    requires Good(b) && c in b.launching
    ensures Good(Launch(b, c, succeeds)) && Legal(b.phases, Launch(b, c, succeeds).phases)
  {
    var p := if succeeds then Launched else Registered;
    LaunchKept(b, c, succeeds);
    RemovalsUntouched(b, c, p);
    AutoStopsUntouched(b, c, p);
    OtherLine(b.launches, b.phases, c, p, Initialized, b.spawnTimes, Launch(b, c, succeeds).spawnTimes, b.launching);
  }

  lemma LaunchKept(b: Book, c: ConsumerId, succeeds: bool)
    requires Recorded(b) && Handling(b) && c in b.launching
    ensures Kept(b, Launch(b, c, succeeds)) && c in b.spawnTimes && InPhase(b.phases, c, Initialized)
  {
  }

  ghost predicate Running(b: Book, c: ConsumerId) {
    InPhase(b.phases, c, Launched) || InPhase(b.phases, c, Paused)
  }

  /** The auto-stop queue once c is no longer paused. */
  lemma UnpausedLine(b: Book, c: ConsumerId, next: Phase)
    requires Lined(b.autoStops, b.phases, Paused, b.pauseExpirations, b.stopping) && Recorded(b)
    requires Running(b, c) && next != Paused
    ensures Lined(Unpaused(b, c).autoStops, b.phases[c := next], Paused, b.pauseExpirations - {c}, b.stopping - {c})
  {
    if c in b.pauseExpirations {
      LeavesLine(b.autoStops, b.phases, c, next, Paused, b.pauseExpirations, b.pauseExpirations - {c}, b.stopping);
    } else {
      OtherLine(b.autoStops, b.phases, c, next, Paused, b.pauseExpirations, b.pauseExpirations - {c}, b.stopping);
    }
  }

  lemma StopKeeps(b: Book, c: ConsumerId, removalTime: Time)
    requires Good(b) && Running(b, c)
    ensures Good(Stop(b, c, removalTime)) && Legal(b.phases, Stop(b, c, removalTime).phases)
  {
    StopKept(b, c, removalTime);
    UnpausedLine(b, c, Stopped);
    LaunchesUntouched(b, c, Stopped);
    JoinsLine(b.removals, b.phases, c, Stopped, b.removalTimes, b.removing, removalTime);
  }

  lemma StopKept(b: Book, c: ConsumerId, removalTime: Time)
    requires Recorded(b) && Handling(b) && Running(b, c)
    ensures Kept(b, Stop(b, c, removalTime)) && c !in b.removing
  {
    StopRecorded(b, c, removalTime);
  }

  lemma StopRecorded(b: Book, c: ConsumerId, removalTime: Time)
    requires Recorded(b) && Running(b, c)
    ensures Recorded(Stop(b, c, removalTime))
  {
  }

  lemma PauseKeeps(b: Book, c: ConsumerId, reason: Reason, now: Time, maxPause: Time)
    requires Good(b) && InPhase(b.phases, c, Launched)
    ensures Good(Pause(b, c, reason, now, maxPause)) && Legal(b.phases, Pause(b, c, reason, now, maxPause).phases)
  {
    PauseKept(b, c, reason, now, maxPause);
    LaunchesUntouched(b, c, Paused);
    RemovalsUntouched(b, c, Paused);
    PauseLine(b, Pause(b, c, reason, now, maxPause), c, now + maxPause);
  }

  lemma PauseLine(b: Book, b': Book, c: ConsumerId, t: Time)
    requires Lined(b.autoStops, b.phases, Paused, b.pauseExpirations, b.stopping) && Handling(b)
    requires InPhase(b.phases, c, Launched) && b'.phases == b.phases[c := Paused] && b'.stopping == b.stopping
    requires b'.pauseExpirations == b.pauseExpirations[c := t] && b'.autoStops == Appended(b.autoStops, c, t)
    ensures Lined(b'.autoStops, b'.phases, Paused, b'.pauseExpirations, b'.stopping)
  {
    JoinsLine(b.autoStops, b.phases, c, Paused, b.pauseExpirations, b.stopping, t);
  }

  lemma PauseKept(b: Book, c: ConsumerId, reason: Reason, now: Time, maxPause: Time)
    requires Recorded(b) && Handling(b) && InPhase(b.phases, c, Launched)
    ensures Kept(b, Pause(b, c, reason, now, maxPause)) && c !in b.stopping
  {
    PauseRecorded(b, c, reason, now, maxPause);
  }

  lemma PauseRecorded(b: Book, c: ConsumerId, reason: Reason, now: Time, maxPause: Time)
    requires Recorded(b) && InPhase(b.phases, c, Launched)
    ensures Recorded(Pause(b, c, reason, now, maxPause))
  {
  }

  lemma ResumeKeeps(b: Book, c: ConsumerId)
    requires Good(b) && InPhase(b.phases, c, Paused)
    ensures Good(Resume(b, c)) && Legal(b.phases, Resume(b, c).phases)
  {
    ResumeKept(b, c);
    UnpausedLine(b, c, Launched);
    LaunchesUntouched(b, c, Launched);
    RemovalsUntouched(b, c, Launched);
  }

  lemma ResumeKept(b: Book, c: ConsumerId)
    requires Recorded(b) && Handling(b) && InPhase(b.phases, c, Paused)
    ensures Kept(b, Resume(b, c))
  {
  }

  ghost predicate Deletable(b: Book, c: ConsumerId) {
    c in b.phases && ((Prelaunched(b.phases[c]) && c !in b.launching) || c in b.removing)
  }

  lemma DeleteKeeps(b: Book, c: ConsumerId)
    requires Good(b) && Deletable(b, c)
    ensures Good(Delete(b, c)) && Legal(b.phases, Delete(b, c).phases)
  {
    DeleteKept(b, c);
    UnscheduledLine(b, c, Deleted, b.spawnTimes);
    AutoStopsUntouched(b, c, Deleted);
    OtherLine(b.removals, b.phases, c, Deleted, Stopped, b.removalTimes, b.removalTimes - {c}, b.removing);
  }

  lemma DeleteKept(b: Book, c: ConsumerId)
    requires Recorded(b) && Handling(b) && Deletable(b, c)
    ensures Kept(b, Delete(b, c)) && c !in b.launching && (InPhase(b.phases, c, Stopped) ==> c in b.removing)
  {
  }

  /** The keeper's lifecycle state, updated in place. */
  class Registry {
    var phases: Phases
    var spawnTimes: map<ConsumerId, Time>
    var removalTimes: map<ConsumerId, Time>
    var pauseExpirations: map<ConsumerId, Time>
    var pauseReasons: map<ConsumerId, Reason>
    var pausedAt: map<ConsumerId, Time>
    var lastAcks: map<ConsumerId, Time>
    var nextId: nat
    const launches: Queue
    const removals: Queue
    const autoStops: Queue
    ghost var launching: set<ConsumerId>
    ghost var removing: set<ConsumerId>
    ghost var stopping: set<ConsumerId>

    ghost predicate Apart() {
      launches != removals && launches != autoStops && removals != autoStops
    }

    ghost function Current(): Book
      reads this, launches, removals, autoStops
    {
      Book(phases, spawnTimes, removalTimes, pauseExpirations, pauseReasons, pausedAt, nextId,
           launches.buckets, removals.buckets, autoStops.buckets, launching, removing, stopping)
    }

    ghost predicate Valid()
      reads this, launches, removals, autoStops
    {
      Apart() && Good(Current())
    }

    constructor ()
      ensures Valid() && Current() == EMPTY_BOOK && lastAcks == map[]
      ensures fresh(launches) && fresh(removals) && fresh(autoStops)
    {
      phases, spawnTimes, removalTimes, pauseExpirations := map[], map[], map[], map[];
      pauseReasons, pausedAt, lastAcks, nextId := map[], map[], map[], 0;
      launching, removing, stopping := {}, {}, {};
      launches := new Queue();
      removals := new Queue();
      autoStops := new Queue();
    }

    method InitializeConsumer(c: ConsumerId) returns (initialized: bool)
      requires c in phases && c in spawnTimes
      modifies this`phases
      ensures initialized <==> Prelaunched(old(phases)[c]) && spawnTimes[c] != ZERO_TIME
      ensures phases == if initialized then old(phases)[c := Initialized] else old(phases)
    {
      if phases[c] != Registered && phases[c] != Initialized {
        return false;
      }
      if spawnTimes[c] == ZERO_TIME {
        return false;
      }
      phases := phases[c := Initialized];
      return true;
    }

    /** Moves the launch of a consumer from its previous spawn time, if it had one, to the new one. */
    method PrepareConsumerForLaunch(c: ConsumerId, previous: Time, spawnTime: Time) returns (ok: bool)
      modifies launches
      ensures ok
           <==> previous == ZERO_TIME || (previous in old(launches.buckets) && c in old(launches.buckets)[previous])
      ensures launches.buckets ==
        (if !ok then old(launches.buckets)
         else if previous == ZERO_TIME then Appended(old(launches.buckets), c, spawnTime)
         else Appended(Removed(old(launches.buckets), c, previous), c, spawnTime))
    {
      if previous != ZERO_TIME {
        ok := launches.Remove(c, previous);
        if !ok {
          return;
        }
      }
      launches.Append(c, spawnTime);
      return true;
    }

    method CreateConsumer(spawnTime: Time) returns (c: ConsumerId)
      requires Apart()
      modifies this, launches
      ensures c == old(nextId) && Current() == Create(old(Current()), spawnTime) && lastAcks == old(lastAcks)
    {
      c := nextId;
      nextId := nextId + 1;
      phases := phases[c := Registered];
      spawnTimes := spawnTimes[c := spawnTime];
      Initialize(c, spawnTime);
    }

    /** Queues a new consumer for launch if its spawn time is set. */
    method Initialize(c: ConsumerId, spawnTime: Time)
      requires Apart() && c in phases && phases[c] == Registered && c in spawnTimes && spawnTimes[c] == spawnTime
      modifies this`phases, launches
      ensures phases == old(phases)[c := Scheduled(spawnTime)]
      ensures launches.buckets ==
        if spawnTime == ZERO_TIME then old(launches.buckets) else Appended(old(launches.buckets), c, spawnTime)
    {
      var initialized := InitializeConsumer(c);
      if initialized {
        var prepared := PrepareConsumerForLaunch(c, ZERO_TIME, spawnTime);
      }
    }

    ghost predicate QueuedAt(c: ConsumerId, t: Time)
      reads this, launches
    {
      t in launches.buckets && c in launches.buckets[t]
    }

    /** An initialized consumer is always found in the launch queue at its spawn time. */
    lemma InitializedIsQueued(c: ConsumerId)
      requires Good(Current()) && InPhase(phases, c, Initialized) && c !in launching
      ensures c in spawnTimes && spawnTimes[c] != ZERO_TIME
      ensures QueuedAt(c, spawnTimes[c])
    {
      OneQueue(launches.buckets, Waiting(phases, Initialized, spawnTimes, launching), c);
    }

    /** Updates a consumer that has not launched, with or without a new spawn time, or a launched one without. */
    method UpdateConsumer(c: ConsumerId, spawnTime: Option<Time>) returns (ok: bool)
      requires Valid() && c !in launching
      modifies this`phases, this`spawnTimes, launches
      ensures ok <==> Updatable(old(phases), c, spawnTime)
      ensures ok ==> c in old(spawnTimes)
      ensures Current() == if ok then Update(old(Current()), c, spawnTime) else old(Current())
    {
      if c !in phases || !(Prelaunched(phases[c]) || phases[c] == Launched) {
        return false;
      }
      if phases[c] == Launched {
        return spawnTime.None?;
      }
      if phases[c] == Initialized {
        InitializedIsQueued(c);
      }
      Reschedule(c, spawnTime.GetOr(spawnTimes[c]));
      return true;
    }

    method Reschedule(c: ConsumerId, spawnTime: Time)
      requires Apart() && c in phases && c in spawnTimes && Prelaunched(phases[c])
      requires phases[c] == Registered ==> spawnTimes[c] == ZERO_TIME
      requires phases[c] == Initialized ==> spawnTimes[c] != ZERO_TIME && QueuedAt(c, spawnTimes[c])
      modifies this`phases, this`spawnTimes, launches
      ensures Current() == Respawn(old(Current()), c, spawnTime)
    {
      var previous := spawnTimes[c];
      if spawnTime == ZERO_TIME && phases[c] == Initialized {
        var removed := launches.Remove(c, previous);
        phases := phases[c := Registered];
      }
      spawnTimes := spawnTimes[c := spawnTime];
      var initialized := InitializeConsumer(c);
      if initialized {
        var prepared := PrepareConsumerForLaunch(c, previous, spawnTime);
      }
      assert phases == old(phases)[c := Scheduled(spawnTime)];
    }

    method FetchLaunches(now: Time) returns (ids: seq<ConsumerId>)
      requires Apart()
      modifies this`launching, launches
      ensures ids == Take(old(launches.buckets), now, QUEUE_LIMIT).ids
      ensures Current() == TakeLaunches(old(Current()), now)
    {
      ids := launches.ConsumeIdsFromTimeQueue(now, QUEUE_LIMIT);
      launching := launching + Ids(ids);
    }

    method FetchRemovals(now: Time) returns (ids: seq<ConsumerId>)
      requires Apart()
      modifies this`removing, removals
      ensures ids == Take(old(removals.buckets), now, QUEUE_LIMIT).ids
      ensures Current() == TakeRemovals(old(Current()), now)
    {
      ids := removals.ConsumeIdsFromTimeQueue(now, QUEUE_LIMIT);
      removing := removing + Ids(ids);
    }

    method FetchAutoStops(now: Time) returns (ids: seq<ConsumerId>)
      requires Apart()
      modifies this`stopping, autoStops
      ensures ids == Take(old(autoStops.buckets), now, QUEUE_LIMIT).ids
      ensures Current() == TakeAutoStops(old(Current()), now)
    {
      ids := autoStops.ConsumeIdsFromTimeQueue(now, QUEUE_LIMIT);
      stopping := stopping + Ids(ids);
    }

    method LaunchConsumer(c: ConsumerId, succeeds: bool, now: Time)
      modifies this`phases, this`spawnTimes, this`lastAcks, this`launching
      ensures Current() == Launch(old(Current()), c, succeeds)
      ensures lastAcks == if succeeds then old(lastAcks)[c := now] else old(lastAcks)
    {
      if succeeds {
        phases := phases[c := Launched];
        lastAcks := lastAcks[c := now];
      } else {
        spawnTimes := spawnTimes[c := ZERO_TIME];
        phases := phases[c := Registered];
      }
      launching := launching - {c};
    }

    /** Removes a scheduled auto-stop, with its queue entry if that is still there, and the reason. */
    method CancelConsumerPause(c: ConsumerId)
      requires Apart()
      modifies this`pauseExpirations, this`pauseReasons, this`pausedAt, this`stopping, autoStops
      ensures Current() == Unpaused(old(Current()), c)
    {
      pauseReasons := pauseReasons - {c};
      pausedAt := pausedAt - {c};
      if c in pauseExpirations {
        var t := pauseExpirations[c];
        if t in autoStops.buckets && c in autoStops.buckets[t] {
          var removed := autoStops.Remove(c, t);
        }
        pauseExpirations := pauseExpirations - {c};
      } else {
        assert pauseExpirations - {c} == pauseExpirations;
      }
      stopping := stopping - {c};
    }

    method StopAndPrepareForConsumerRemoval(c: ConsumerId, removalTime: Time)
      requires Apart()
      modifies this, removals, autoStops
      ensures Current() == Stop(old(Current()), c, removalTime) && lastAcks == old(lastAcks)
    {
      phases := phases[c := Stopped];
      CancelConsumerPause(c);
      removalTimes := removalTimes[c := removalTime];
      removals.Append(c, removalTime);
    }

    method PauseConsumer(c: ConsumerId, reason: Reason, now: Time, maxPause: Time)
      requires Apart()
      modifies this`phases, this`pauseExpirations, this`pauseReasons, this`pausedAt, autoStops
      ensures Current() == Pause(old(Current()), c, reason, now, maxPause)
    {
      phases := phases[c := Paused];
      pauseReasons := pauseReasons[c := reason];
      pausedAt := pausedAt[c := now];
      pauseExpirations := pauseExpirations[c := now + maxPause];
      autoStops.Append(c, now + maxPause);
    }

    /** What a resume needs: an active client, and after a light-client pause the fork's evidence aged out. */
    predicate Resumable(c: ConsumerId, clientActive: bool, now: Time, evidencePeriod: Time)
      reads this
    {
      && c in phases && phases[c] == Paused && clientActive
      && (c in pauseReasons && pauseReasons[c] == LightClientAttack ==>
            c in pausedAt && now >= pausedAt[c] + evidencePeriod)
    }

    /** Resumes a paused consumer; a snapshot that cannot be sent rolls everything back. */
    method ResumeConsumerChain(c: ConsumerId, clientActive: bool, snapshotSent: bool, now: Time, evidencePeriod: Time)
      returns (ok: bool)
      requires Apart()
      modifies this, autoStops
      ensures ok <==> old(Resumable(c, clientActive, now, evidencePeriod)) && snapshotSent
      ensures Current() == if ok then Resume(old(Current()), c) else old(Current())
      ensures lastAcks == if ok then old(lastAcks)[c := now] else old(lastAcks)
    {
      if c !in phases || phases[c] != Paused {
        return false;
      }
      if !clientActive {
        return false;
      }
      if c in pauseReasons && pauseReasons[c] == LightClientAttack {
        if c !in pausedAt || now < pausedAt[c] + evidencePeriod {
          return false;
        }
      }
      if !snapshotSent {
        return false;
      }
      CancelConsumerPause(c);
      phases := phases[c := Launched];
      lastAcks := lastAcks[c := now];
      return true;
    }

    method DeleteConsumer(c: ConsumerId)
      requires Apart() && c in phases && c in spawnTimes
      modifies this, launches
      ensures Current() == Delete(old(Current()), c) && lastAcks == old(lastAcks) - {c}
    {
      if phases[c] == Initialized {
        var removed := launches.Remove(c, spawnTimes[c]);
      }
      removalTimes := removalTimes - {c};
      lastAcks := lastAcks - {c};
      phases := phases[c := Deleted];
      removing := removing - {c};
    }

    /** The launched consumers, in the order of their ids. */
    method GetAllLaunchedConsumerIds() returns (ids: seq<ConsumerId>)
      ensures forall c :: c in ids <==> InPhase(phases, c, Launched)
      ensures Unique(ids)
    {
      var order := Ordering.Iterate(phases.Keys);
      ids := [];
      for i := 0 to |order|
        invariant forall c :: c in ids <==> c in order[..i] && InPhase(phases, c, Launched)
        invariant forall j, k :: 0 <= j < k < |ids| ==> ids[j] != ids[k]
      {
        assert order[..i + 1] == order[..i] + [order[i]];
        assert order[i] in Ordering.Elements(order) && order[i] !in order[..i];
        if phases[order[i]] == Launched {
          ids := ids + [order[i]];
        }
      }
      assert order[..|order|] == order;
      forall c | InPhase(phases, c, Launched) ensures c in ids {
        assert c in Ordering.Elements(order);
      }
    }
  }
}
