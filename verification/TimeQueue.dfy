/** The provider's time queues: buckets of consumer ids keyed by the time they are due. */
module TimeQueue {
  import opened Common
  import Ordering

  type Buckets = map<Time, seq<ConsumerId>>

  /** All ids, in time order and within a bucket in the order they were appended. */
  ghost function Flatten(q: Buckets): seq<ConsumerId>
    decreases |q|
  {
    if q == map[] then [] else
      var t := Ordering.Least(q.Keys);
      q[t] + Flatten(q - {t})
  }

  /** The buckets whose time has come. */
  ghost function Due(q: Buckets, now: Time): Buckets {
    map t | t in q && t <= now :: q[t]
  }

  datatype Taken = Taken(ids: seq<ConsumerId>, rest: Buckets)

  /** What is taken, bucket by bucket, and what stays. */
  ghost function Take(q: Buckets, now: Time, limit: nat): Taken
    decreases |q|
  {
    if limit == 0 || q == map[] || Ordering.Least(q.Keys) > now then Taken([], q) else
      var t := Ordering.Least(q.Keys);
      if limit >= |q[t]| then
        var more := Take(q - {t}, now, limit - |q[t]|);
        Taken(q[t] + more.ids, more.rest)
      else
        Taken(q[t][..limit], q[t := q[t][limit..]])
  }

  lemma DueTail(q: Buckets, now: Time)
    requires q != map[] && Ordering.Least(q.Keys) <= now
    ensures var t := Ordering.Least(q.Keys);
            Flatten(Due(q, now)) == q[t] + Flatten(Due(q - {t}, now))
  {
    var t := Ordering.Least(q.Keys);
    var due := Due(q, now);
    assert t in due && due - {t} == Due(q - {t}, now);
    LeastIs(due.Keys, t);
  }

  lemma LeastIs(s: set<int>, t: int)
    requires t in s && forall x :: x in s ==> t <= x
    ensures Ordering.Least(s) == t
  {
  }

  lemma NothingDue(q: Buckets, now: Time)
    requires q == map[] || Ordering.Least(q.Keys) > now
    ensures Due(q, now) == map[]
  {
    if q != map[] {
      assert forall t :: t in q ==> t in q.Keys;
    }
  }

  lemma SplitBucket(q: Buckets, t: Time, ids: seq<ConsumerId>)
    requires q != map[] && t == Ordering.Least(q.Keys)
    ensures Flatten(q[t := ids]) == ids + Flatten(q - {t})
    ensures q[t := ids] - {t} == q - {t} && Ordering.Least(q[t := ids].Keys) == t
  {
    var q' := q[t := ids];
    assert q'.Keys == q.Keys;
    assert q' - {t} == q - {t};
    LeastIs(q'.Keys, t);
  }

  /** r takes the first min(limit, due) ids in time order, and nothing is lost, repeated or reordered. */
  ghost predicate TakesFirst(q: Buckets, now: Time, limit: nat, r: Taken) {
    var due := Flatten(Due(q, now));
    && |r.ids| == Min(limit, |due|)
    && r.ids == due[..|r.ids|]
    && Flatten(Due(r.rest, now)) == due[|r.ids|..]
    && r.ids + Flatten(r.rest) == Flatten(q)
  }

  lemma {:induction false} TakesTheFirstDue(q: Buckets, now: Time, limit: nat)
    ensures TakesFirst(q, now, limit, Take(q, now, limit))
    decreases |q|
  {
    if q == map[] || Ordering.Least(q.Keys) > now {
      NothingDue(q, now);
    } else if limit > 0 {
      var t := Ordering.Least(q.Keys);
      DueTail(q, now);
      if limit >= |q[t]| {
        TakesTheFirstDue(q - {t}, now, limit - |q[t]|);
        TakesWholeBucket(q, now, limit, Take(q - {t}, now, limit - |q[t]|));
      } else {
        TakesPartOfBucket(q, now, limit);
      }
    }
  }

  lemma TakesWholeBucket(q: Buckets, now: Time, limit: nat, more: Taken)
    requires q != map[] && Ordering.Least(q.Keys) <= now && limit >= |q[Ordering.Least(q.Keys)]|
    requires TakesFirst(q - {Ordering.Least(q.Keys)}, now, limit - |q[Ordering.Least(q.Keys)]|, more)
    ensures TakesFirst(q, now, limit, Taken(q[Ordering.Least(q.Keys)] + more.ids, more.rest))
  {
    var t := Ordering.Least(q.Keys);
    DueTail(q, now);
    TakeWhole(q[t], Flatten(Due(q - {t}, now)), more.ids);
    assert q[t] + more.ids + Flatten(more.rest) == q[t] + (more.ids + Flatten(more.rest));
  }

  lemma TakesPartOfBucket(q: Buckets, now: Time, limit: nat)
    requires q != map[] && Ordering.Least(q.Keys) <= now && limit < |q[Ordering.Least(q.Keys)]|
    ensures var t := Ordering.Least(q.Keys); TakesFirst(q, now, limit, Taken(q[t][..limit], q[t := q[t][limit..]]))
  {
    var t := Ordering.Least(q.Keys);
    DueTail(q, now);
    SplitBucket(q, t, q[t][limit..]);
    DueTail(q[t := q[t][limit..]], now);
    TakePart(q[t], Flatten(Due(q - {t}, now)), limit);
    TakePart(q[t], Flatten(q - {t}), limit);
  }

  lemma TakeWhole(bucket: seq<ConsumerId>, due: seq<ConsumerId>, ids: seq<ConsumerId>)
    requires |ids| <= |due| && ids == due[..|ids|]
    ensures (bucket + due)[..|bucket + ids|] == bucket + ids
    ensures (bucket + due)[|bucket + ids|..] == due[|ids|..]
  {
  }

  lemma TakePart(bucket: seq<ConsumerId>, later: seq<ConsumerId>, n: nat)
    requires n < |bucket|
    ensures (bucket + later)[..n] == bucket[..n]
    ensures (bucket + later)[n..] == bucket[n..] + later
    ensures bucket[..n] + (bucket[n..] + later) == bucket + later
  {
  }

  /** What stays after a number of calls in a row. */
  ghost function Repeated(q: Buckets, now: Time, limit: nat, calls: nat): Buckets {
    if calls == 0 then q else Take(Repeated(q, now, limit, calls - 1), now, limit).rest
  }

  /** Every due id is taken after ceil(n / limit) calls, and not before. */
  lemma {:induction false} DrainsInCeilCalls(q: Buckets, now: Time, limit: nat, calls: nat)
    requires limit > 0
    ensures |Flatten(Due(Repeated(q, now, limit, calls), now))|
         == |Flatten(Due(q, now))| - Min(calls * limit, |Flatten(Due(q, now))|)
    ensures Flatten(Due(Repeated(q, now, limit, calls), now)) == []
         <==> calls >= (|Flatten(Due(q, now))| + limit - 1) / limit
    decreases calls
  {
    var n := |Flatten(Due(q, now))|;
    if calls > 0 {
      DrainsInCeilCalls(q, now, limit, calls - 1);
      TakesTheFirstDue(Repeated(q, now, limit, calls - 1), now, limit);
      assert calls * limit == (calls - 1) * limit + limit;
    }
    CeilQuotient(n, limit, calls);
  }

  lemma CeilQuotient(n: nat, d: nat, k: nat)
    requires d > 0
    ensures k * d >= n <==> k >= (n + d - 1) / d
  {
    var c := (n + d - 1) / d;
    assert n + d - 1 == c * d + (n + d - 1) % d;
    assert c * d >= n && (c - 1) * d < n by {
      assert (c - 1) * d == c * d - d;
    }
    if k >= c {
      Scaled(c, k, d);
    } else {
      Scaled(k, c - 1, d);
    }
  }

  lemma Scaled(a: int, b: int, d: nat)
    requires a <= b
    ensures a * d <= b * d
  {
    assert (b - a) * d >= 0;
  }

  // A queue in step with the times recorded elsewhere.

  /** Each id sits exactly once, in the bucket of its recorded time, and no bucket is empty. */
  ghost predicate Exact(q: Buckets, times: map<ConsumerId, Time>) {
    && (forall t :: t in q ==> q[t] != [])
    && (forall t, i :: t in q && 0 <= i < |q[t]| ==> q[t][i] in times && times[q[t][i]] == t)
    && (forall t, i, j :: t in q && 0 <= i < j < |q[t]| ==> q[t][i] != q[t][j])
    && (forall c :: c in times ==> times[c] in q && c in q[times[c]])
  }

  ghost predicate Unique(ids: seq<ConsumerId>) {
    forall i, j :: 0 <= i < j < |ids| ==> ids[i] != ids[j]
  }

  ghost function Ids(s: seq<ConsumerId>): set<ConsumerId> {
    set c | c in s
  }

  /** Distinct recorded ids whose time has come. */
  ghost predicate AllDue(ids: seq<ConsumerId>, times: map<ConsumerId, Time>, now: Time) {
    && (forall i :: 0 <= i < |ids| ==> ids[i] in times && times[ids[i]] <= now)
    && (forall i, j :: 0 <= i < j < |ids| ==> ids[i] != ids[j])
  }

  lemma AllDueConcat(a: seq<ConsumerId>, b: seq<ConsumerId>, times: map<ConsumerId, Time>, now: Time)
    requires AllDue(a, times, now) && AllDue(b, times - Ids(a), now)
    ensures AllDue(a + b, times, now)
    ensures times - Ids(a) - Ids(b) == times - Ids(a + b)
  {
    assert Ids(a + b) == Ids(a) + Ids(b);
    assert forall i :: 0 <= i < |a| ==> a[i] in Ids(a);
  }

  lemma {:induction false} TakeKeepsExact(q: Buckets, now: Time, limit: nat, times: map<ConsumerId, Time>)
    requires Exact(q, times)
    ensures var r := Take(q, now, limit);
            AllDue(r.ids, times, now) && Exact(r.rest, times - Ids(r.ids))
    decreases |q|
  {
    if limit == 0 || q == map[] || Ordering.Least(q.Keys) > now {
      assert times - Ids([]) == times;
    } else {
      var t := Ordering.Least(q.Keys);
      if limit >= |q[t]| {
        DropBucket(q, times, t);
        TakeKeepsExact(q - {t}, now, limit - |q[t]|, times - Ids(q[t]));
        AllDueConcat(q[t], Take(q - {t}, now, limit - |q[t]|).ids, times, now);
      } else {
        DropFront(q, times, t, limit);
      }
    }
  }

  lemma DropBucket(q: Buckets, times: map<ConsumerId, Time>, t: Time)
    requires Exact(q, times) && t in q
    ensures Exact(q - {t}, times - Ids(q[t]))
  {
    forall c | c in times && c !in q[t] ensures times[c] != t {
    }
  }

  lemma DropFront(q: Buckets, times: map<ConsumerId, Time>, t: Time, n: nat)
    requires Exact(q, times) && t in q && n < |q[t]|
    ensures Exact(q[t := q[t][n..]], times - Ids(q[t][..n]))
  {
    var q', times' := q[t := q[t][n..]], times - Ids(q[t][..n]);
    forall c | c in times' ensures times'[c] in q' && c in q'[times'[c]] {
      if times[c] == t {
        var i :| 0 <= i < |q[t]| && q[t][i] == c;
        InFront(q[t], n, i);
        assert i >= n ==> q'[t][i - n] == c;
      }
    }
    forall s, i | s in q' && 0 <= i < |q'[s]| ensures q'[s][i] in times' && times'[q'[s][i]] == s {
      if s == t {
        assert q'[t][i] == q[t][n + i];
        FrontApart(q[t], n, i);
      } else {
        assert times[q[s][i]] == s;
      }
    }
  }

  lemma FrontApart(ids: seq<ConsumerId>, n: nat, i: nat)
    requires n + i < |ids| && forall j, k :: 0 <= j < k < |ids| ==> ids[j] != ids[k]
    ensures ids[n + i] !in Ids(ids[..n])
  {
    forall j | 0 <= j < n ensures ids[..n][j] != ids[n + i] {
    }
  }

  lemma InFront<T>(s: seq<T>, n: nat, i: nat)
    requires n <= |s| && i < |s|
    ensures i < n ==> s[i] in s[..n]
  {
    if i < n {
      assert s[..n][i] == s[i];
    }
  }

  function Appended(q: Buckets, c: ConsumerId, t: Time): Buckets {
    q[t := (if t in q then q[t] else []) + [c]]
  }

  /** What is appended for later is not due now. */
  lemma AppendedLater(q: Buckets, c: ConsumerId, t: Time, now: Time)
    requires t > now
    ensures Due(Appended(q, c, t), now) == Due(q, now)
  {
  }

  lemma DueDecides(q: Buckets, q': Buckets, now: Time, limit: nat)
    requires Due(q', now) == Due(q, now)
    ensures Take(q', now, limit).ids == Take(q, now, limit).ids
  {
    TakesTheFirstDue(q, now, limit);
    TakesTheFirstDue(q', now, limit);
  }

  lemma AppendKeepsExact(q: Buckets, times: map<ConsumerId, Time>, c: ConsumerId, t: Time)
    requires Exact(q, times) && c !in times
    ensures Exact(Appended(q, c, t), times[c := t])
  {
    var q', times' := Appended(q, c, t), times[c := t];
    forall d | d in times' ensures times'[d] in q' && d in q'[times'[d]] {
      if d == c {
        assert q'[t][|q'[t]| - 1] == c;
      } else if times[d] == t {
        var i :| 0 <= i < |q[t]| && q[t][i] == d;
        assert q'[t][i] == d;
      }
    }
  }

  /** The bucket without the entry at index i; an emptied bucket is deleted. */
  function Without(q: Buckets, t: Time, i: nat): Buckets
    requires t in q && i < |q[t]|
  {
    if |q[t]| == 1 then q - {t} else q[t := q[t][..i] + q[t][i + 1..]]
  }

  function FirstIndex(ids: seq<ConsumerId>, c: ConsumerId): (i: nat)
    requires c in ids
    ensures i < |ids| && ids[i] == c && forall j :: 0 <= j < i ==> ids[j] != c
  {
    if ids[0] == c then 0 else 1 + FirstIndex(ids[1..], c)
  }

  /** The queue without c's first entry at time t, if it has one. */
  function Removed(q: Buckets, c: ConsumerId, t: Time): Buckets {
    if t in q && c in q[t] then Without(q, t, FirstIndex(q[t], c)) else q
  }

  lemma RemovedKeepsExact(q: Buckets, times: map<ConsumerId, Time>, c: ConsumerId, t: Time)
    requires Exact(q, times) && (c in times ==> times[c] == t)
    ensures Exact(Removed(q, c, t), times - {c})
    ensures c in times ==> t in q && c in q[t]
  {
    if t in q && c in q[t] {
      RemoveKeepsExact(q, times, t, FirstIndex(q[t], c));
    } else {
      assert times - {c} == times;
    }
  }

  lemma RemoveKeepsExact(q: Buckets, times: map<ConsumerId, Time>, t: Time, i: nat)
    requires Exact(q, times) && t in q && i < |q[t]|
    ensures Exact(Without(q, t, i), times - {q[t][i]})
  {
    var q', times' := Without(q, t, i), times - {q[t][i]};
    forall d | d in times' ensures times'[d] in q' && d in q'[times'[d]] {
      if times[d] == t {
        var j :| 0 <= j < |q[t]| && q[t][j] == d;
        assert |q[t]| > 1;
        assert q'[t][if j < i then j else j - 1] == d;
      }
    }
    if t in q' {
      forall j | 0 <= j < |q'[t]| ensures q'[t][j] == q[t][if j < i then j else j + 1] {
      }
    }
  }

  /** A time queue of the keeper. */
  class Queue {
    var buckets: Buckets

    constructor ()
      ensures buckets == map[]
    {
      buckets := map[];
    }

    method Append(c: ConsumerId, t: Time)
      modifies this
      ensures buckets == Appended(old(buckets), c, t)
    {
      var ids := if t in buckets then buckets[t] else [];
      buckets := buckets[t := ids + [c]];
    }

    /** Removes the first entry of c at time t; fails, changing nothing, when there is none. */
    method Remove(c: ConsumerId, t: Time) returns (ok: bool)
      modifies this
      ensures ok <==> t in old(buckets) && c in old(buckets)[t]
      ensures buckets == Removed(old(buckets), c, t)
    {
      var ids := if t in buckets then buckets[t] else [];
      if |ids| == 0 {
        return false;
      }
      var index := 0;
      while index < |ids| && ids[index] != c
        invariant 0 <= index <= |ids|
        invariant forall j :: 0 <= j < index ==> ids[j] != c
      {
        index := index + 1;
      }
      if index == |ids| {
        return false;
      }
      if |ids| == 1 {
        buckets := buckets - {t};
        return true;
      }
      buckets := buckets[t := ids[..index] + ids[index + 1..]];
      return true;
    }

    /** Takes at most limit due ids off the queue, oldest first; a bucket taken in part keeps the rest. */
    method ConsumeIdsFromTimeQueue(now: Time, limit: nat) returns (result: seq<ConsumerId>)
      modifies this
      ensures Taken(result, buckets) == Take(old(buckets), now, limit)
    {
      var timestampsToDelete, nextTime;
      result, timestampsToDelete, nextTime := Visit(now, limit);
      Rewrite(timestampsToDelete, nextTime);
    }

    /** Walks the buckets in time order until one is not due yet or the limit is reached. */
    method Visit(now: Time, limit: nat)
      returns (result: seq<ConsumerId>, timestampsToDelete: seq<Time>, nextTime: seq<ConsumerId>)
      ensures Visited(buckets, now, limit, result, timestampsToDelete, nextTime)
    {
      result, nextTime, timestampsToDelete := [], [], [];
      var times := Ordering.Iterate(buckets.Keys);
      var i := 0;
      ghost var left := buckets - Ordering.Elements(times[..0]);   // the buckets not visited yet
      GoesFromStart(buckets, now, limit, times);
      while i < |times|
        invariant 0 <= i <= |times| && |result| <= limit
        invariant timestampsToDelete == times[..i] && left == buckets - Ordering.Elements(times[..i])
        invariant Goes(buckets, left, now, limit, result)
      {
        var ts := times[i];
        if |result| >= limit {
          StopsBetween(buckets, now, limit, result, times, i);
          return;
        }
        NextBucket(buckets, times, i);
        if ts > now {
          StopsBetween(buckets, now, limit, result, times, i);
          return;
        }
        var ids := buckets[ts];
        timestampsToDelete := timestampsToDelete + [ts];
        var availableSlots := limit - |result|;
        if availableSlots >= |ids| {
          GoesOn(buckets, left, now, limit, result);
          result := result + ids;
          left := left - {ts};
        } else {
          StopsWithin(buckets, now, limit, result, times, i);
          return result + ids[..availableSlots], timestampsToDelete, ids[availableSlots..];
        }
        i := i + 1;
      }
      StopsBetween(buckets, now, limit, result, times, i);
    }

    /** Deletes the buckets visited and stores back, under the last of them, what was left of it. */
    method Rewrite(timestampsToDelete: seq<Time>, nextTime: seq<ConsumerId>)
      requires Ordering.Ascending(timestampsToDelete)
      requires timestampsToDelete == [] ==> nextTime == []
      modifies this
      ensures buckets == Kept(old(buckets), timestampsToDelete, nextTime)
    {
      var n := |timestampsToDelete|;
      for i := 0 to n
        invariant i < n || nextTime == [] ==> buckets == old(buckets) - Ordering.Elements(timestampsToDelete[..i])
        invariant i == n && nextTime != [] ==>
          buckets == old(buckets) - Ordering.Elements(timestampsToDelete) + map[timestampsToDelete[n - 1] := nextTime]
      {
        var ts := timestampsToDelete[i];
        assert timestampsToDelete[..i + 1] == timestampsToDelete[..i] + [ts];
        buckets := buckets - {ts};
        assert buckets == old(buckets) - Ordering.Elements(timestampsToDelete[..i + 1]);
        if i == n - 1 {
          assert timestampsToDelete[..i + 1] == timestampsToDelete;
          AppendAll(nextTime, ts);
        }
      }
      assert timestampsToDelete[..n] == timestampsToDelete;
    }

    method AppendAll(ids: seq<ConsumerId>, t: Time)
      requires t !in buckets
      modifies this
      ensures buckets == old(buckets) + if ids == [] then map[] else map[t := ids]
    {
      for i := 0 to |ids|
        invariant buckets == old(buckets) + if i == 0 then map[] else map[t := ids[..i]]
      {
        Append(ids[i], t);
        assert ids[..i + 1] == ids[..i] + [ids[i]];
      }
      assert ids[..|ids|] == ids;
    }
  }

  /** The buckets without those visited, except for what was left of the last one. */
  ghost function Kept(q: Buckets, visited: seq<Time>, nextTime: seq<ConsumerId>): Buckets
    requires visited == [] ==> nextTime == []
  {
    q - Ordering.Elements(visited) + if nextTime == [] then map[] else map[visited[|visited| - 1] := nextTime]
  }

  /** Taking from q is what was taken so far followed by taking from what is left. */
  ghost predicate Goes(q: Buckets, left: Buckets, now: Time, limit: nat, result: seq<ConsumerId>)
    requires |result| <= limit
  {
    var more := Take(left, now, limit - |result|);
    Take(q, now, limit) == Taken(result + more.ids, more.rest)
  }

  lemma TakesNothing(q: Buckets, now: Time, limit: nat)
    ensures limit == 0 || q == map[] || Ordering.Least(q.Keys) > now ==> Take(q, now, limit) == Taken([], q)
  {
  }

  lemma GoesOn(q: Buckets, left: Buckets, now: Time, limit: nat, result: seq<ConsumerId>)
    requires |result| < limit && Goes(q, left, now, limit, result)
    requires left != map[] && Ordering.Least(left.Keys) <= now
    requires limit - |result| >= |left[Ordering.Least(left.Keys)]|
    ensures var t := Ordering.Least(left.Keys); Goes(q, left - {t}, now, limit, result + left[t])
  {
    var t := Ordering.Least(left.Keys);
    var more := Take(left - {t}, now, limit - |result| - |left[t]|);
    assert result + (left[t] + more.ids) == result + left[t] + more.ids;
  }

  ghost predicate Visited(
    q: Buckets, now: Time, limit: nat, result: seq<ConsumerId>, visited: seq<Time>, nextTime: seq<ConsumerId>)
  {
    && Ordering.Ascending(visited) && (visited == [] ==> nextTime == [])
    && Taken(result, Kept(q, visited, nextTime)) == Take(q, now, limit)
  }

  lemma GoesFromStart(q: Buckets, now: Time, limit: nat, times: seq<Time>)
    ensures Goes(q, q - Ordering.Elements(times[..0]), now, limit, [])
  {
    assert q - Ordering.Elements(times[..0]) == q;
    var more := Take(q, now, limit);
    assert [] + more.ids == more.ids;
  }

  /** The walk ends before bucket i. */
  lemma StopsBetween(q: Buckets, now: Time, limit: nat, result: seq<ConsumerId>, times: seq<Time>, i: nat)
    requires Ordering.Ascending(times) && i <= |times| && Ordering.Elements(times) == q.Keys && |result| <= limit
    requires Goes(q, q - Ordering.Elements(times[..i]), now, limit, result)
    requires i < |times| ==> |result| == limit || times[i] > now
    ensures Visited(q, now, limit, result, times[..i], [])
  {
    var left := q - Ordering.Elements(times[..i]);
    assert Kept(q, times[..i], []) == left;
    if i < |times| {
      NextBucket(q, times, i);
    } else {
      assert times[..i] == times;
      assert left == map[];
    }
    TakesNothing(left, now, limit - |result|);
    assert result + [] == result;
  }

  lemma KeptSome(q: Buckets, times: seq<Time>, i: nat, nextTime: seq<ConsumerId>)
    requires i < |times| && times[i] in q && times[i] !in Ordering.Elements(times[..i]) && nextTime != []
    ensures Kept(q, times[..i] + [times[i]], nextTime) == (q - Ordering.Elements(times[..i]))[times[i] := nextTime]
  {
    assert Ordering.Elements(times[..i] + [times[i]]) == Ordering.Elements(times[..i]) + {times[i]};
  }

  /** The walk ends inside bucket i. */
  lemma StopsWithin(q: Buckets, now: Time, limit: nat, result: seq<ConsumerId>, times: seq<Time>, i: nat)
    requires Ordering.Ascending(times) && i < |times| && Ordering.Elements(times) == q.Keys && |result| < limit
    requires Goes(q, q - Ordering.Elements(times[..i]), now, limit, result)
    requires times[i] in q && times[i] <= now && limit - |result| < |q[times[i]]|
    ensures var room := limit - |result|;
            Visited(q, now, limit, result + q[times[i]][..room], times[..i] + [times[i]], q[times[i]][room..])
  {
    NextBucket(q, times, i);
    KeptSome(q, times, i, q[times[i]][limit - |result|..]);
  }

  lemma NextBucket(q: Buckets, times: seq<Time>, i: nat)
    requires Ordering.Ascending(times) && Ordering.Elements(times) == q.Keys && i < |times|
    ensures var left := q - Ordering.Elements(times[..i]);
            && times[i] in left && Ordering.Least(left.Keys) == times[i] && left[times[i]] == q[times[i]]
            && times[i] !in Ordering.Elements(times[..i])
            && times[..i + 1] == times[..i] + [times[i]]
            && left - {times[i]} == q - Ordering.Elements(times[..i + 1])
  {
    var left, ts := q - Ordering.Elements(times[..i]), times[i];
    assert ts in Ordering.Elements(times);
    assert times[..i + 1] == times[..i] + [ts];
    forall t | t in left ensures ts <= t {
      assert t in Ordering.Elements(times);
      var j :| 0 <= j < |times| && times[j] == t;
      InFront(times, i, j);
    }
    LeastIs(left.Keys, ts);
  }
}
