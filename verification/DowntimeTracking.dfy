/**
 * Tumbling missed-block windows on the consumer. The history of votes, the closed spans and the packets
 * ever queued are kept in ghost fields that Valid() ties to the stored bitmaps.
 */
module DowntimeTracking {
  import opened Common
  import opened Bitmaps
  import opened Wire
  import opened EvidenceQueue

  datatype Vote = Vote(validator: ValidatorAddress, absent: bool)

  /** The votes of one commit. */
  type Votes = seq<Vote>

  /** The votes recorded so far, by height. */
  type VoteHistory = map<int, Votes>

  datatype Span = Span(start: int, end: int)

  predicate Seen(votes: Votes, a: Address) {
    exists i :: 0 <= i < |votes| && votes[i].validator == a
  }

  predicate Absent(votes: Votes, a: Address) {
    exists i :: 0 <= i < |votes| && votes[i].validator == a && votes[i].absent
  }

  predicate MissedAt(history: VoteHistory, a: Address, h: int) {
    h in history && Absent(history[h], a)
  }

  predicate SeenAt(history: VoteHistory, a: Address, h: int) {
    h in history && Seen(history[h], a)
  }

  /** At how many of the heights lo..hi the validator was absent. */
  function AbsentCount(history: VoteHistory, a: Address, lo: int, hi: int): int
    decreases hi - lo
  {
    if lo >= hi then 0
    else AbsentCount(history, a, lo, hi - 1) + if MissedAt(history, a, hi - 1) then 1 else 0
  }

  function WindowStart(h: int, window: int): int
    requires window > 0
  {
    (h / window) * window
  }

  /** Height h is the last of its window. */
  predicate Closes(h: int, window: int)
    requires window > 0
  {
    h == WindowStart(h, window) + window - 1
  }

  lemma WindowOf(h: int, window: int)
    requires window > 0
    ensures WindowStart(h, window) <= h < WindowStart(h, window) + window
    ensures !Closes(h, window) ==> WindowStart(h + 1, window) == WindowStart(h, window)
  {
    var q := h / window;
    assert h == q * window + h % window;
    if !Closes(h, window) {
      assert h + 1 == q * window + (h % window + 1);
      QuotientIs(h + 1, window, q, h % window + 1);
    }
  }

  /** Windows end at the heights before the multiples of their length. */
  lemma ClosesBeforeMultiple(h: int, window: int)
    requires window > 0
    ensures Closes(h, window) <==> (h + 1) % window == 0
  {
    var q := h / window;
    assert h == q * window + h % window;
    if Closes(h, window) {
      assert h + 1 == (q + 1) * window + 0;
      QuotientIs(h + 1, window, q + 1, 0);
    } else {
      assert h + 1 == q * window + (h % window + 1);
      QuotientIs(h + 1, window, q, h % window + 1);
    }
  }

  lemma QuotientIs(x: int, d: int, q: int, r: int)
    requires d > 0 && 0 <= r < d && x == q * d + r
    ensures x / d == q
  {
    var k := x / d - q;
    assert k * d == r - x % d;
    MultipleBounds(k, d);
  }

  lemma MultipleBounds(k: int, d: int)
    requires d > 0
    ensures k >= 1 ==> k * d >= d
    ensures k <= -1 ==> k * d <= -d
  {
  }

  /** The closed spans cover base..next without gap or overlap. */
  ghost predicate Partition(base: int, spans: seq<Span>, next: int) {
    && (spans == [] ==> base == next)
    && (spans != [] ==> spans[0].start == base && spans[|spans| - 1].end + 1 == next)
    && (forall i :: 0 <= i < |spans| ==> spans[i].start <= spans[i].end)
    && (forall i, j :: 0 <= i < j < |spans| ==> spans[i].end < spans[j].start)
    && (forall i :: 0 < i < |spans| ==> spans[i].start == spans[i - 1].end + 1)
  }

  lemma {:induction false} EveryHeightInOneSpan(base: int, spans: seq<Span>, next: int, h: int) returns (i: int)
    requires Partition(base, spans, next)
    requires base <= h < next
    ensures 0 <= i < |spans| && spans[i].start <= h <= spans[i].end
    ensures forall j :: 0 <= j < |spans| && spans[j].start <= h <= spans[j].end ==> j == i
    decreases |spans|
  {
    var last := |spans| - 1;
    if h >= spans[last].start {
      i := last;
    } else {
      i := EveryHeightInOneSpan(base, spans[..last], spans[last].start, h);
      assert spans[..last][i] == spans[i];
    }
  }

  /** firstTracked holds each validator's first sighting among the heights start..next. */
  ghost predicate TracksFirst(first: map<Address, int>, history: VoteHistory, start: int, next: int) {
    && (forall a :: a in first ==> start <= first[a] < next && SeenAt(history, a, first[a]))
    && (forall a, h :: start <= h < next && SeenAt(history, a, h) ==> a in first && first[a] <= h)
  }

  /** Each stored bitmap marks exactly the absences among the heights start..next; origin is the height of bit 0. */
  ghost predicate TracksMissed(
    missed: map<Address, Bitmap>, history: VoteHistory, origin: int, window: int, start: int, next: int)
  {
    && (forall a :: a in missed ==> |missed[a]| == (window + 7) / 8)
    && (forall a, i :: a in missed
          ==> (BitmapIsSet(missed[a], i) <==> start <= origin + i < next && MissedAt(history, a, origin + i)))
    && (forall a, h :: start <= h < next && MissedAt(history, a, h) ==> a in missed)
  }

  /** What every packet ever queued promises: it passes the provider's stateless checks and reports the votes. */
  ghost predicate Honest(p: EvidencePacket, history: VoteHistory, spans: seq<Span>) {
    && Validate(p).None?
    && p.MissedCount() > MaxMissed(p.params)
    && (forall i :: BitmapIsSet(p.missed, i)
          <==> 0 <= i < p.Span() && MissedAt(history, p.validator, p.windowStart + i))
    && (exists i :: 0 <= i < |spans| && spans[i].start <= p.windowStart && p.windowEnd == spans[i].end)
  }

  ghost predicate LogHonest(log: seq<EvidencePacket>, history: VoteHistory, spans: seq<Span>) {
    forall i :: 0 <= i < |log| ==> Honest(log[i], history, spans)
  }

  /** Windows reported for one validator are disjoint, later ones higher. */
  ghost predicate LogDisjoint(log: seq<EvidencePacket>) {
    forall i, j :: 0 <= i < j < |log| && log[i].validator == log[j].validator
      ==> log[i].windowEnd < log[j].windowStart
  }

  method CountMissedBits(bitmap: Bitmap, lo: int, hi: int) returns (count: int)
    requires lo <= hi
    ensures count == CountBits(bitmap, lo, hi)
  {
    count := 0;
    var i := lo;
    while i < hi
      invariant lo <= i <= hi
      invariant count == CountBits(bitmap, lo, i)
    {
      if BitmapIsSet(bitmap, i) {
        count := count + 1;
      }
      i := i + 1;
    }
  }

  /** A bitmap whose bit i is the source's bit offset + i, for the span's bits, and nothing else. */
  method RebaseBitmap(bitmap: Bitmap, offset: int, span: int) returns (out: Bitmap)
    requires 0 <= span
    ensures |out| == ByteLen(span)
    ensures forall i :: BitmapIsSet(out, i) <==> 0 <= i < span && BitmapIsSet(bitmap, offset + i)
  {
    var bytes := new bv8[ByteLen(span)](_ => 0);
    var i := 0;
    while i < span
      invariant 0 <= i <= span
      invariant forall j :: BitmapIsSet(bytes[..], j) <==> 0 <= j < i && BitmapIsSet(bitmap, offset + j)
    {
      if BitmapIsSet(bitmap, offset + i) {
        BitmapSet(bytes, i);
      }
      i := i + 1;
    }
    out := bytes[..];
  }

  /** Taking one more vote of height h into account. */
  lemma AppendVote(history: VoteHistory, h: int, votes: Votes, n: nat, before: VoteHistory, after: VoteHistory)
    requires n < |votes|
    requires before == history[h := votes[..n]] && after == history[h := votes[..n + 1]]
    ensures AddsSighting(before, after, h, votes[n].validator)
    ensures AddsAbsence(before, after, h, votes[n].validator, votes[n].absent)
  {
    var was, now := votes[..n], votes[..n + 1];
    assert now == was + [votes[n]];
    forall a ensures Seen(now, a) <==> Seen(was, a) || a == votes[n].validator {
      if a == votes[n].validator {
        assert now[n] == votes[n];
      }
      if Seen(was, a) {
        var i :| 0 <= i < n && was[i].validator == a;
        assert now[i].validator == a;
      }
    }
    forall a ensures Absent(now, a) <==> Absent(was, a) || (a == votes[n].validator && votes[n].absent) {
      if a == votes[n].validator && votes[n].absent {
        assert now[n] == votes[n];
      }
      if Absent(was, a) {
        var i :| 0 <= i < n && was[i].validator == a && was[i].absent;
        assert now[i].validator == a;
      }
    }
  }

  /** A height without votes adds nothing. */
  lemma NoVotesYet(history: VoteHistory, h: int, after: VoteHistory)
    requires h !in history && after == history[h := []]
    ensures forall a, g :: SeenAt(after, a, g) <==> SeenAt(history, a, g)
    ensures forall a, g :: MissedAt(after, a, g) <==> MissedAt(history, a, g)
  {
  }

  /** now is was with bit idx of a's bitmap set, in a bitmap of at least the window's length. */
  ghost predicate Marked(was: map<Address, Bitmap>, now: map<Address, Bitmap>, a: Address, idx: int, window: int) {
    && now.Keys == was.Keys + {a}
    && (forall b :: b in was && b != a ==> now[b] == was[b])
    && (a in was && |was[a]| >= (window + 7) / 8 ==> |now[a]| == |was[a]|)
    && (a !in was ==> |now[a]| == (window + 7) / 8)
    && (forall i :: BitmapIsSet(now[a], i) <==> i == idx || (a in was && BitmapIsSet(was[a], i)))
  }

  /** A sighting of a at height h. */
  ghost predicate AddsSighting(before: VoteHistory, after: VoteHistory, h: int, a: Address) {
    forall b, g :: SeenAt(after, b, g) <==> SeenAt(before, b, g) || (g == h && b == a)
  }

  /** An absence of a at height h, if missing. */
  ghost predicate AddsAbsence(before: VoteHistory, after: VoteHistory, h: int, a: Address, missing: bool) {
    forall b, g :: MissedAt(after, b, g) <==> MissedAt(before, b, g) || (g == h && b == a && missing)
  }

  lemma SightingTracked(
    first: map<Address, int>, before: VoteHistory, after: VoteHistory, a: Address, h: int, start: int)
    requires TracksFirst(first, before, start, h + 1) && AddsSighting(before, after, h, a) && start <= h
    ensures TracksFirst(if a in first then first else first[a := h], after, start, h + 1)
  {
  }

  lemma AbsenceTracked(
    was: map<Address, Bitmap>, now: map<Address, Bitmap>, before: VoteHistory, after: VoteHistory, a: Address,
    missing: bool, h: int, origin: int, window: int, start: int)
    requires TracksMissed(was, before, origin, window, start, h + 1) && AddsAbsence(before, after, h, a, missing)
    requires if missing then Marked(was, now, a, h - origin, window) else now == was
    requires start <= h
    ensures TracksMissed(now, after, origin, window, start, h + 1)
  {
    if missing {
      forall i ensures BitmapIsSet(now[a], i)
          <==> start <= origin + i < h + 1 && MissedAt(after, a, origin + i) {
        if a !in was && start <= origin + i < h + 1 && i != h - origin {
          assert !MissedAt(before, a, origin + i);
        }
      }
    }
  }

  lemma {:induction false} CountsAgree(bitmap: Bitmap, history: VoteHistory, a: Address, origin: int, lo: int, hi: int)
    requires forall g :: lo <= g < hi ==> (BitmapIsSet(bitmap, g - origin) <==> MissedAt(history, a, g))
    ensures CountBits(bitmap, lo - origin, hi - origin) == AbsentCount(history, a, lo, hi)
    decreases hi - lo
  {
    if lo < hi {
      CountsAgree(bitmap, history, a, origin, lo, hi - 1);
      assert BitmapIsSet(bitmap, hi - 1 - origin) <==> MissedAt(history, a, hi - 1);
    }
  }

  lemma {:induction false} NoAbsenceBefore(history: VoteHistory, a: Address, lo: int, mid: int, hi: int)
    requires lo <= mid <= hi
    requires forall g :: lo <= g < mid ==> !MissedAt(history, a, g)
    ensures AbsentCount(history, a, lo, hi) == AbsentCount(history, a, mid, hi)
    decreases hi - lo
  {
    if mid < hi {
      NoAbsenceBefore(history, a, lo, mid, hi - 1);
    } else if lo < mid {
      NoAbsenceBefore(history, a, lo, mid - 1, mid - 1);
    }
  }

  lemma AbsentImpliesSeen(history: VoteHistory, a: Address, h: int)
    requires MissedAt(history, a, h)
    ensures SeenAt(history, a, h)
  {
    var i :| 0 <= i < |history[h]| && history[h][i].validator == a && history[h][i].absent;
  }

  lemma {:induction false} AbsentSomewhere(history: VoteHistory, a: Address, lo: int, hi: int)
    requires AbsentCount(history, a, lo, hi) > 0
    ensures exists h :: lo <= h < hi && MissedAt(history, a, h)
    decreases hi - lo
  {
    if !MissedAt(history, a, hi - 1) {
      AbsentSomewhere(history, a, lo, hi - 1);
    }
  }

  /** The packet reports exactly a's absences at the heights start..hi, from its first sighting on. */
  ghost predicate Reports(
    p: EvidencePacket, history: VoteHistory, a: Address, params: DowntimeParams, start: int, hi: int)
  {
    && p.validator == a && p.params == params
    && start <= p.windowStart <= p.windowEnd == hi - 1
    && Validate(p).None?
    && p.MissedCount() == AbsentCount(history, a, start, hi) > MaxMissed(params)
    && (forall i :: BitmapIsSet(p.missed, i) <==> 0 <= i < p.Span() && MissedAt(history, a, p.windowStart + i))
  }

  /** One packet for each validator whose absences exceed the threshold, and no other packet. */
  ghost predicate OnePerOffender(
    packets: seq<EvidencePacket>, history: VoteHistory, params: DowntimeParams, start: int, hi: int)
    requires params.minSigned.Some?
  {
    && (forall i :: 0 <= i < |packets| ==> Reports(packets[i], history, packets[i].validator, params, start, hi))
    && (forall i, j :: 0 <= i < j < |packets| ==> packets[i].validator != packets[j].validator)
    && (forall a :: AbsentCount(history, a, start, hi) > MaxMissed(params)
          ==> exists i :: 0 <= i < |packets| && packets[i].validator == a)
  }

  /** From the first sighting on, the bits of the window count the absences of the whole window. */
  lemma WindowCount(
    bitmap: Bitmap, first: map<Address, int>, history: VoteHistory, a: Address, origin: int, start: int, hi: int)
    requires a in first && TracksFirst(first, history, start, hi)
    requires forall i :: BitmapIsSet(bitmap, i) <==> start <= origin + i < hi && MissedAt(history, a, origin + i)
    ensures CountBits(bitmap, first[a] - origin, hi - origin) == AbsentCount(history, a, start, hi)
  {
    forall g | start <= g < first[a] ensures !MissedAt(history, a, g) {
      if MissedAt(history, a, g) {
        AbsentImpliesSeen(history, a, g);
      }
    }
    NoAbsenceBefore(history, a, start, first[a], hi);
    forall g | first[a] <= g < hi ensures BitmapIsSet(bitmap, g - origin) <==> MissedAt(history, a, g) {
      assert origin + (g - origin) == g;
    }
    CountsAgree(bitmap, history, a, origin, first[a], hi);
  }

  lemma RebasedBits(
    bitmap: Bitmap, rebased: Bitmap, history: VoteHistory, a: Address, origin: int, lo: int, start: int, hi: int)
    requires start <= lo < hi && origin <= start
    requires forall i :: BitmapIsSet(bitmap, i) <==> start <= origin + i < hi && MissedAt(history, a, origin + i)
    requires forall i :: BitmapIsSet(rebased, i) <==> 0 <= i < hi - lo && BitmapIsSet(bitmap, lo - origin + i)
    ensures forall i :: BitmapIsSet(rebased, i) <==> 0 <= i < hi - lo && MissedAt(history, a, lo + i)
    ensures CountBits(rebased, 0, hi - lo) == CountBits(bitmap, lo - origin, hi - origin)
  {
    forall i ensures BitmapIsSet(rebased, i) <==> 0 <= i < hi - lo && MissedAt(history, a, lo + i) {
      assert origin + (lo - origin + i) == lo + i;
    }
    CountBitsShift(rebased, bitmap, 0, hi - lo, lo - origin);
  }

  /** The packet built from the bits of the window reports the absences and passes the stateless checks. */
  lemma BuildsReport(
    rebased: Bitmap, history: VoteHistory, a: Address, params: DowntimeParams, lo: int, start: int, hi: int)
    requires ValidDowntimeParams(params) && a != NO_ADDRESS
    requires 1 <= start <= lo < hi <= lo + params.window
    requires |rebased| == ByteLen(hi - lo)
    requires forall i :: BitmapIsSet(rebased, i) <==> 0 <= i < hi - lo && MissedAt(history, a, lo + i)
    requires CountBits(rebased, 0, hi - lo) == AbsentCount(history, a, start, hi) > MaxMissed(params)
    ensures Reports(NewEvidencePacket(a, lo, rebased, hi - lo, params), history, a, params, start, hi)
  {
    MaxMissedNonNegative(params);
  }

  /** Votes of a new height change nothing about the packets of closed windows. */
  lemma HonestAfterVotes(
    log: seq<EvidencePacket>, history: VoteHistory, after: VoteHistory, spans: seq<Span>, h: int, votes: Votes)
    requires LogHonest(log, history, spans) && after == history[h := votes]
    requires forall i :: 0 <= i < |log| ==> log[i].windowEnd < h
    ensures LogHonest(log, after, spans)
  {
    forall i | 0 <= i < |log| ensures Honest(log[i], after, spans) {
      var p := log[i];
      assert Honest(p, history, spans);
      forall k ensures BitmapIsSet(p.missed, k)
          <==> 0 <= k < p.Span() && MissedAt(after, p.validator, p.windowStart + k) {
        if 0 <= k < p.Span() {
          assert MissedAt(after, p.validator, p.windowStart + k) <==> MissedAt(history, p.validator, p.windowStart + k);
        }
      }
    }
  }

  lemma ClosePartition(base: int, spans: seq<Span>, start: int, hi: int)
    requires Partition(base, spans, start) && start < hi
    ensures Partition(base, spans + [Span(start, hi - 1)], hi)
  {
  }

  lemma HonestAfterClose(p: EvidencePacket, history: VoteHistory, spans: seq<Span>, last: Span)
    requires Honest(p, history, spans)
    ensures Honest(p, history, spans + [last])
  {
    var k :| 0 <= k < |spans| && spans[k].start <= p.windowStart && p.windowEnd == spans[k].end;
    assert (spans + [last])[k] == spans[k];
  }

  lemma ReportIsHonest(
    p: EvidencePacket, history: VoteHistory, params: DowntimeParams, spans: seq<Span>, start: int, hi: int)
    requires Reports(p, history, p.validator, params, start, hi)
    ensures Honest(p, history, spans + [Span(start, hi - 1)])
  {
    assert (spans + [Span(start, hi - 1)])[|spans|] == Span(start, hi - 1);
  }

  /** Closing a window adds honest packets above every earlier one. */
  lemma CloseLog(
    log: seq<EvidencePacket>, packets: seq<EvidencePacket>, history: VoteHistory, params: DowntimeParams,
    spans: seq<Span>, start: int, hi: int)
    requires LogHonest(log, history, spans)
    requires params.minSigned.Some? && OnePerOffender(packets, history, params, start, hi)
    ensures LogHonest(log + packets, history, spans + [Span(start, hi - 1)])
  {
    forall i | 0 <= i < |log + packets| ensures Honest((log + packets)[i], history, spans + [Span(start, hi - 1)]) {
      if i < |log| {
        HonestAfterClose(log[i], history, spans, Span(start, hi - 1));
      } else {
        ReportIsHonest(packets[i - |log|], history, params, spans, start, hi);
      }
    }
  }

  lemma CloseDisjoint(
    log: seq<EvidencePacket>, packets: seq<EvidencePacket>, history: VoteHistory, params: DowntimeParams, start: int,
    hi: int)
    requires LogDisjoint(log) && start < hi
    requires forall i :: 0 <= i < |log| ==> log[i].windowEnd < start
    requires params.minSigned.Some? && OnePerOffender(packets, history, params, start, hi)
    ensures LogDisjoint(log + packets)
    ensures forall i :: 0 <= i < |log + packets| ==> (log + packets)[i].windowEnd < hi
  {
    assert forall i :: 0 <= i < |packets| ==> packets[i].windowEnd == hi - 1 && start <= packets[i].windowStart;
  }

  /** The windows closed before start partition its past, and the packets sent for them are honest and disjoint. */
  ghost predicate PastRecorded(
    base: int, spans: seq<Span>, start: int, history: VoteHistory, log: seq<EvidencePacket>)
  {
    && Partition(base, spans, start)
    && LogHonest(log, history, spans)
    && LogDisjoint(log)
    && (forall i :: 0 <= i < |log| ==> log[i].windowEnd < start)
  }

  lemma ClosePast(
    base: int, spans: seq<Span>, start: int, history: VoteHistory, log: seq<EvidencePacket>,
    packets: seq<EvidencePacket>, params: DowntimeParams, hi: int, spans': seq<Span>, log': seq<EvidencePacket>)
    requires PastRecorded(base, spans, start, history, log) && start < hi
    requires params.minSigned.Some? && OnePerOffender(packets, history, params, start, hi)
    requires spans' == spans + [Span(start, hi - 1)] && log' == log + packets
    ensures PastRecorded(base, spans', hi, history, log')
  {
    CloseLog(log, packets, history, params, spans, start, hi);
    CloseDisjoint(log, packets, history, params, start, hi);
    ClosePartition(base, spans, start, hi);
  }

  /** OnePerOffender among the validators in done. */
  ghost predicate OnePerOffenderIn(
    packets: seq<EvidencePacket>, history: VoteHistory, params: DowntimeParams, start: int, hi: int, done: set<Address>)
    requires params.minSigned.Some?
  {
    && (forall i :: 0 <= i < |packets| ==> Reports(packets[i], history, packets[i].validator, params, start, hi)
                                           && packets[i].validator in done)
    && (forall i, j :: 0 <= i < j < |packets| ==> packets[i].validator != packets[j].validator)
    && (forall a :: a in done && AbsentCount(history, a, start, hi) > MaxMissed(params)
          ==> exists i :: 0 <= i < |packets| && packets[i].validator == a)
  }

  lemma EvaluateOneMore(
    packets: seq<EvidencePacket>, packet: Option<EvidencePacket>, history: VoteHistory, params: DowntimeParams,
    start: int, hi: int, done: set<Address>, a: Address) returns (after: seq<EvidencePacket>)
    requires params.minSigned.Some? && a !in done
    requires OnePerOffenderIn(packets, history, params, start, hi, done)
    requires packet.Some? <==> AbsentCount(history, a, start, hi) > MaxMissed(params)
    requires packet.Some? ==> Reports(packet.value, history, a, params, start, hi)
    ensures after == if packet.Some? then packets + [packet.value] else packets
    ensures OnePerOffenderIn(after, history, params, start, hi, done + {a})
  {
    after := if packet.Some? then packets + [packet.value] else packets;
    forall b | b in done + {a} && AbsentCount(history, b, start, hi) > MaxMissed(params)
      ensures exists i :: 0 <= i < |after| && after[i].validator == b {
      if b == a {
        assert after[|packets|].validator == b;
      } else {
        var i :| 0 <= i < |packets| && packets[i].validator == b;
        assert after[i].validator == b;
      }
    }
  }

  /** Whoever was absent often enough was tracked, so judging the tracked validators misses no offender. */
  lemma EveryOffenderTracked(
    packets: seq<EvidencePacket>, missed: map<Address, Bitmap>, history: VoteHistory, params: DowntimeParams,
    origin: int, start: int, hi: int)
    requires ValidDowntimeParams(params) && TracksMissed(missed, history, origin, params.window, start, hi)
    requires OnePerOffenderIn(packets, history, params, start, hi, missed.Keys)
    ensures OnePerOffender(packets, history, params, start, hi)
  {
    forall a | AbsentCount(history, a, start, hi) > MaxMissed(params) ensures a in missed {
      MaxMissedNonNegative(params);
      AbsentSomewhere(history, a, start, hi);
    }
  }

  class Tracker {
    var params: DowntimeParams
    var staged: Option<DowntimeParams>
    var missed: map<Address, Bitmap>
    var first: map<Address, int>
    const queue: Queue

    ghost var height: int            // the last block begun
    ghost var history: VoteHistory
    ghost var base: int              // the first height tracked
    ghost var start: int             // the first height of the window in progress
    ghost var spans: seq<Span>       // the windows closed so far
    ghost var log: seq<EvidencePacket>

    /** The height whose votes the next block delivers; no height below 1 has votes. */
    ghost function Next(): int
      reads this
    {
      if height < 1 then 1 else height
    }

    ghost predicate Valid()
      reads this
    {
      && Configured()
      && Recorded()
      && WindowStart(start, params.window) == WindowStart(Next(), params.window)
      && Tracked(WindowStart(start, params.window))
    }

    /** The evidence queue is another object. */
    ghost predicate Separate() {
      var q: object := queue;
      q != this
    }

    ghost predicate Configured()
      reads this
    {
      && Separate()
      && ValidDowntimeParams(params)
      && (staged.Some? ==> ValidDowntimeParams(staged.value))
    }

    /** The stored bitmaps and first sightings, bit 0 standing for height origin. */
    ghost predicate Tracked(origin: int)
      reads this
    {
      && missed.Keys <= first.Keys
      && TracksFirst(first, history, start, Next())
      && TracksMissed(missed, history, origin, params.window, start, Next())
    }

    /** The part of the invariant about the past. */
    ghost predicate Recorded()
      reads this
    {
      && 1 <= base <= start <= Next()
      && (forall h :: h in history <==> base <= h < Next())
      && PastRecorded(base, spans, start, history, log)
    }

    constructor (height: int, params: DowntimeParams, queue: Queue)
      requires ValidDowntimeParams(params)
      ensures Valid()
      ensures this.params == params && this.queue == queue && this.height == height && log == [] && spans == []
    {
      this.params, this.staged, this.missed, this.first := params, None, map[], map[];
      this.queue := queue;
      this.height, this.history, this.spans, this.log := height, map[], [], [];
      var next := if height < 1 then 1 else height;
      this.base, this.start := next, next;
    }

    /** Sets bit idx of a's bitmap, padding a bitmap that is missing or too short. */
    method MarkMissed(a: Address, idx: nat, window: int)
      requires idx < window
      modifies this`missed
      ensures Marked(old(missed), missed, a, idx, window)
    {
      var bitmap: Bitmap := if a in missed then missed[a] else [];
      var len := if |bitmap| < (window + 7) / 8 then (window + 7) / 8 else |bitmap|;
      var bytes := new bv8[len](i requires 0 <= i < len => if i < |bitmap| then bitmap[i] else 0);
      assert forall i :: BitmapIsSet(bytes[..], i) <==> BitmapIsSet(bitmap, i);
      BitmapSet(bytes, idx);
      missed := missed[a := bytes[..]];
    }

    /** Records the votes of the height just committed. */
    method RecordVotes(voteHeight: int, votes: Votes, origin: int)
      requires start <= voteHeight && origin <= voteHeight < origin + params.window && voteHeight !in history
      requires missed.Keys <= first.Keys
      requires TracksFirst(first, history, start, voteHeight)
      requires TracksMissed(missed, history, origin, params.window, start, voteHeight)
      modifies this`missed, this`first
      ensures missed.Keys <= first.Keys
      ensures TracksFirst(first, history[voteHeight := votes], start, voteHeight + 1)
      ensures TracksMissed(missed, history[voteHeight := votes], origin, params.window, start, voteHeight + 1)
    {
      ghost var h0 := history;
      assert votes[..0] == [];
      NoVotesYet(h0, voteHeight, h0[voteHeight := votes[..0]]);
      var n := 0;
      while n < |votes|
        invariant 0 <= n <= |votes| && missed.Keys <= first.Keys
        invariant TracksFirst(first, h0[voteHeight := votes[..n]], start, voteHeight + 1)
        invariant TracksMissed(missed, h0[voteHeight := votes[..n]], origin, params.window, start, voteHeight + 1)
      {
        var a := votes[n].validator;
        ghost var before, after := h0[voteHeight := votes[..n]], h0[voteHeight := votes[..n + 1]];
        AppendVote(h0, voteHeight, votes, n, before, after);
        SightingTracked(first, before, after, a, voteHeight, start);
        if a !in first {
          first := first[a := voteHeight];
        }
        ghost var was := missed;
        if votes[n].absent {
          MarkMissed(a, voteHeight - origin, params.window);
        }
        AbsenceTracked(was, missed, before, after, a, votes[n].absent, voteHeight, origin, params.window, start);
        n := n + 1;
      }
      assert votes[..n] == votes;
    }

    /** The window origin..hi is complete, its votes recorded. */
    ghost predicate Closing(origin: int, hi: int)
      reads this
    {
      && Separate() && ValidDowntimeParams(params) && missed.Keys <= first.Keys
      && 1 <= start < hi && origin <= start && hi == origin + params.window
      && TracksFirst(first, history, start, hi)
      && TracksMissed(missed, history, origin, params.window, start, hi)
    }

    /** Judges one validator over the window start..hi that just closed. */
    method Evaluate(a: Address, origin: int, hi: int) returns (packet: Option<EvidencePacket>)
      requires Closing(origin, hi) && a in missed
      ensures packet.Some? <==> AbsentCount(history, a, start, hi) > MaxMissed(params)
      ensures packet.Some? ==> Reports(packet.value, history, a, params, start, hi)
    {
      var window := params.window;
      var firstTracked := if a in first then first[a] else origin;
      var lo := if firstTracked > origin then firstTracked else origin;
      var offset := lo - origin;
      WindowCount(missed[a], first, history, a, origin, start, hi);
      var count := CountMissedBits(missed[a], offset, window);
      if count <= MaxMissed(params) {
        packet := None;
      } else {
        var report := Report(a, origin, lo, hi);
        packet := Some(report);
      }
    }

    /** The packet about an offender, whose first sighting is lo or earlier than the window. */
    method Report(a: Address, origin: int, lo: int, hi: int) returns (packet: EvidencePacket)
      requires Closing(origin, hi) && a in missed && start <= lo < hi && a != NO_ADDRESS
      requires CountBits(missed[a], lo - origin, hi - origin) == AbsentCount(history, a, start, hi) > MaxMissed(params)
      ensures Reports(packet, history, a, params, start, hi)
    {
      var rebased := RebaseBitmap(missed[a], lo - origin, hi - lo);
      RebasedBits(missed[a], rebased, history, a, origin, lo, start, hi);
      BuildsReport(rebased, history, a, params, lo, start, hi);
      packet := NewEvidencePacket(a, lo, rebased, hi - lo, params);
    }

    /** Evaluates one more validator and queues its packet. */
    method EvaluateNext(
      a: Address, origin: int, hi: int, packets: seq<EvidencePacket>, ghost done: set<Address>, ghost before: Pending)
      returns (after: seq<EvidencePacket>)
      requires Closing(origin, hi) && a in missed && a !in done
      requires OnePerOffenderIn(packets, history, params, start, hi, done)
      requires queue.pending == QueuedAll(before, packets)
      modifies queue
      ensures OnePerOffenderIn(after, history, params, start, hi, done + {a})
      ensures queue.pending == QueuedAll(before, after)
    {
      var packet := Evaluate(a, origin, hi);
      ghost var next := EvaluateOneMore(packets, packet, history, params, start, hi, done, a);
      if packet.Some? {
        queue.QueueNext(packet.value, before, packets);
        after := packets + [packet.value];
      } else {
        after := packets;
      }
    }

    /** Queues one packet per offender. */
    method EvaluateAll(origin: int, hi: int) returns (packets: seq<EvidencePacket>)
      requires Closing(origin, hi)
      modifies queue
      ensures OnePerOffenderIn(packets, history, params, start, hi, missed.Keys)
      ensures queue.pending == QueuedAll(old(queue.pending), packets)
    {
      packets := [];
      var todo := missed.Keys;
      ghost var done: set<Address> := {};
      while todo != {}
        invariant done !! todo && done + todo == missed.Keys
        invariant OnePerOffenderIn(packets, history, params, start, hi, done)
        invariant queue.pending == QueuedAll(old(queue.pending), packets)
        decreases |todo|
      {
        var a :| a in todo;
        packets := EvaluateNext(a, origin, hi, packets, done, old(queue.pending));
        todo := todo - {a};
        done := done + {a};
      }
      assert done == missed.Keys;
    }

    method JudgeWindow(origin: int, hi: int) returns (packets: seq<EvidencePacket>)
      requires Closing(origin, hi)
      modifies queue
      ensures OnePerOffender(packets, history, params, start, hi)
      ensures queue.pending == QueuedAll(old(queue.pending), packets)
    {
      packets := EvaluateAll(origin, hi);
      EveryOffenderTracked(packets, missed, history, params, origin, start, hi);
    }

    /** Evaluates every tracked validator, queues one packet per offender and starts the next window. */
    method CloseWindow(origin: int, hi: int) returns (packets: seq<EvidencePacket>)
      requires Closing(origin, hi)
      modifies this`missed, this`first, this`params, this`staged, queue
      ensures OnePerOffender(packets, history, old(params), start, hi)
      ensures queue.pending == QueuedAll(old(queue.pending), packets)
      ensures missed == map[] && first == map[] && staged.None?
      ensures params == if old(staged).Some? then old(staged).value else old(params)
    {
      packets := JudgeWindow(origin, hi);
      missed, first := map[], map[];
      ApplyStagedDowntimeParams();
    }

    method ApplyStagedDowntimeParams()
      modifies this`params, this`staged
      ensures staged.None? && params == if old(staged).Some? then old(staged).value else old(params)
    {
      if staged.Some? {
        params := staged.value;
        staged := None;
      }
    }

    /** Stages a change for the next window boundary; a revert to the active parameters unstages. */
    method StageDowntimeParams(p: DowntimeParams)
      requires Valid()
      modifies this`staged
      ensures Valid()
      ensures staged == if !ValidDowntimeParams(p) then old(staged) else if p == params then None else Some(p)
      ensures staged.GetOr(params) == if ValidDowntimeParams(p) then p else old(staged).GetOr(params)
    {
      if !ValidDowntimeParams(p) {
        return;
      }
      if p == params {
        staged := None;
        return;
      }
      staged := Some(p);
    }

    /**
     * Begins a block: records the votes of the previous height and, when that height ends a window,
     * closes it. Returns the packets queued.
     */
    method TrackMissedBlocks(blockHeight: int, votes: Votes) returns (packets: seq<EvidencePacket>)
      requires Valid() && blockHeight == height + 1
      modifies this, queue
      ensures Valid() && height == blockHeight && base == old(base)
      ensures history == if old(height) < 1 then old(history) else old(history)[old(height) := votes]
      ensures log == old(log) + packets && queue.pending == QueuedAll(old(queue.pending), packets)
      ensures
        if old(height) >= 1 && Closes(old(height), old(params).window) then
          && spans == old(spans) + [Span(old(start), old(height))] && start == blockHeight
          && OnePerOffender(packets, history, old(params), old(start), blockHeight)
          && staged.None? && params == (if old(staged).Some? then old(staged).value else old(params))
        else
          && spans == old(spans) && start == old(start)
          && packets == [] && staged == old(staged) && params == old(params)
      ensures spans == old(spans) <==> old(height) < 1 || blockHeight % old(params).window != 0
    {
      var voteHeight := blockHeight - 1;
      ClosesBeforeMultiple(voteHeight, params.window);
      if voteHeight <= 0 {
        packets := [];
        height := blockHeight;
        assert log == log + packets;
        return;
      }
      var window := params.window;
      if window <= 0 {
        packets := [];
        return;
      }
      packets := TrackVotes(blockHeight, votes);
    }

    /** The window that began at start0 has been closed before height hi, its offenders reported. */
    ghost predicate ClosedAt(
      hi: int, packets: seq<EvidencePacket>, spans0: seq<Span>, start0: int, params0: DowntimeParams,
      staged0: Option<DowntimeParams>)
      reads this
    {
      && spans == spans0 + [Span(start0, hi - 1)] && start == hi
      && params0.minSigned.Some? && OnePerOffender(packets, history, params0, start0, hi)
      && staged.None? && params == (if staged0.Some? then staged0.value else params0)
    }

    /** The window in progress goes on. */
    ghost predicate StillOpen(
      packets: seq<EvidencePacket>, spans0: seq<Span>, start0: int, params0: DowntimeParams,
      staged0: Option<DowntimeParams>)
      reads this
    {
      spans == spans0 && start == start0 && packets == [] && staged == staged0 && params == params0
    }

    /** TrackMissedBlocks once the votes of a height are at hand. */
    method TrackVotes(blockHeight: int, votes: Votes) returns (packets: seq<EvidencePacket>)
      requires Valid() && blockHeight == height + 1 >= 2
      modifies this, queue
      ensures Valid() && height == blockHeight && base == old(base)
      ensures history == old(history)[old(height) := votes]
      ensures log == old(log) + packets && queue.pending == QueuedAll(old(queue.pending), packets)
      ensures Closes(old(height), old(params).window) ==>
          ClosedAt(blockHeight, packets, old(spans), old(start), old(params), old(staged))
      ensures !Closes(old(height), old(params).window) ==>
          StillOpen(packets, old(spans), old(start), old(params), old(staged))
    {
      var voteHeight, window := blockHeight - 1, params.window;
      var windowStart := (voteHeight / window) * window;
      WindowOf(voteHeight, window);
      WindowOf(start, window);
      packets := RecordAndClose(blockHeight, votes, windowStart);
    }

    /** Records the votes, and closes the window that starts at origin if they are its last. */
    method RecordAndClose(blockHeight: int, votes: Votes, origin: int) returns (packets: seq<EvidencePacket>)
      requires Configured() && Recorded() && Tracked(origin) && blockHeight == height + 1 >= 2
      requires origin <= start && origin <= height < origin + params.window
      requires origin == WindowStart(start, params.window)
      requires height != origin + params.window - 1 ==> origin == WindowStart(blockHeight, params.window)
      modifies this, queue
      ensures Valid() && height == blockHeight && base == old(base)
      ensures history == old(history)[old(height) := votes]
      ensures log == old(log) + packets && queue.pending == QueuedAll(old(queue.pending), packets)
      ensures old(height) == origin + old(params).window - 1 ==>
          ClosedAt(blockHeight, packets, old(spans), old(start), old(params), old(staged))
      ensures old(height) != origin + old(params).window - 1 ==>
          StillOpen(packets, old(spans), old(start), old(params), old(staged))
    {
      Record(blockHeight, votes, origin);
      packets := CloseIfLast(origin, blockHeight);
    }

    /** Closes the window that starts at origin if hi is the height after its last one. */
    method CloseIfLast(origin: int, hi: int) returns (packets: seq<EvidencePacket>)
      requires Configured() && Recorded() && Tracked(origin)
      requires origin <= start < height == hi == Next() && hi <= origin + params.window
      requires origin == WindowStart(start, params.window)
      requires hi != origin + params.window ==> origin == WindowStart(hi, params.window)
      modifies this, queue
      ensures Valid() && height == old(height) && base == old(base) && history == old(history)
      ensures log == old(log) + packets && queue.pending == QueuedAll(old(queue.pending), packets)
      ensures hi == origin + old(params).window ==>
          ClosedAt(hi, packets, old(spans), old(start), old(params), old(staged))
      ensures hi != origin + old(params).window ==>
          StillOpen(packets, old(spans), old(start), old(params), old(staged))
    {
      if hi == origin + params.window {
        packets := Close(origin, hi);
      } else {
        packets := [];
        assert log == log + packets;
        StaysOpen(origin, hi);
      }
    }

    /** A window with heights to come leaves everything in place. */
    lemma StaysOpen(origin: int, hi: int)
      requires Configured() && Recorded() && Tracked(origin)
      requires hi == Next() && origin == WindowStart(start, params.window) == WindowStart(hi, params.window)
      ensures Valid()
    {
    }

    method Record(blockHeight: int, votes: Votes, origin: int)
      requires Configured() && Recorded() && blockHeight == height + 1 >= 2
      requires origin <= height < origin + params.window && Tracked(origin)
      modifies this`missed, this`first, this`history, this`height
      ensures Recorded() && Tracked(origin) && height == blockHeight
      ensures history == old(history)[old(height) := votes]
    {
      RecordVotes(blockHeight - 1, votes, origin);
      HonestAfterVotes(log, history, history[height := votes], spans, height, votes);
      history := history[height := votes];
      height := blockHeight;
    }

    method Close(origin: int, hi: int) returns (packets: seq<EvidencePacket>)
      requires Configured() && Recorded() && Tracked(origin)
      requires origin <= start && hi == height == Next() == origin + params.window && start < height
      modifies this, queue
      ensures Valid() && height == old(height) && base == old(base) && history == old(history)
      ensures log == old(log) + packets && queue.pending == QueuedAll(old(queue.pending), packets)
      ensures ClosedAt(hi, packets, old(spans), old(start), old(params), old(staged))
    {
      packets := CloseWindow(origin, hi);
      EnterInRecord(packets, old(params), old(staged));
    }

    /** The window just closed and its packets enter the record; the next one starts. */
    ghost method EnterInRecord(packets: seq<EvidencePacket>, closed: DowntimeParams, change: Option<DowntimeParams>)
      requires Configured() && Recorded() && missed == map[] && first == map[] && start < height == Next()
      requires closed.minSigned.Some? && OnePerOffender(packets, history, closed, start, height)
      requires staged.None? && params == if change.Some? then change.value else closed
      modifies this`log, this`spans, this`start
      ensures Valid() && log == old(log) + packets
      ensures ClosedAt(height, packets, old(spans), old(start), closed, change)
    {
      var spans', log' := spans + [Span(start, height - 1)], log + packets;
      ClosePast(base, spans, start, history, log, packets, closed, height, spans', log');
      log, spans, start := log', spans', height;
      NothingTracked();
    }

    lemma NothingTracked()
      requires Configured() && Recorded() && missed == map[] && first == map[] && start == Next()
      ensures Valid()
    {
    }
  }
}
