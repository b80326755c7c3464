/** The consumer's bounded queue of evidence packets waiting for the provider. */
module EvidenceQueue {
  import opened Common
  import opened Wire
  import opened Ordering

  const MAX_PENDING_PER_VALIDATOR := 16
  const MAX_SENDS_PER_BLOCK := 50

  /** One entry per validator and window. */
  datatype Key = Key(validator: Address, end: int)

  /** The stored bytes, which normally decode to a packet. */
  datatype Stored = Decodable(packet: EvidencePacket) | Undecodable

  type Pending = map<Key, Stored>

  function KeyOf(p: EvidencePacket): Key {
    Key(p.validator, p.windowEnd)
  }

  function Ends(q: Pending, v: Address): set<int> {
    set k | k in q && k.validator == v :: k.end
  }

  function NewerEnds(q: Pending, k: Key): set<int> {
    set e | e in Ends(q, k.validator) && e > k.end
  }

  predicate Kept(q: Pending, v: Address, k: Key) {
    k.validator == v ==> |NewerEnds(q, k)| < MAX_PENDING_PER_VALIDATOR
  }

  /** The queue with validator v cut down to its highest window ends. */
  function Trimmed(q: Pending, v: Address): Pending {
    map k | k in q && Kept(q, v, k) :: q[k]
  }

  function Queued(q: Pending, p: EvidencePacket): Pending {
    Trimmed(q[KeyOf(p) := Decodable(p)], p.validator)
  }

  function QueuedAll(q: Pending, packets: seq<EvidencePacket>): Pending {
    if packets == [] then q else Queued(QueuedAll(q, packets[..|packets| - 1]), packets[|packets| - 1])
  }

  lemma QueuedAllAppend(q: Pending, packets: seq<EvidencePacket>, p: EvidencePacket)
    ensures QueuedAll(q, packets + [p]) == Queued(QueuedAll(q, packets), p)
  {
    assert (packets + [p])[..|packets|] == packets;
  }

  predicate WithinBounds(q: Pending) {
    forall k :: k in q ==> |Ends(q, k.validator)| <= MAX_PENDING_PER_VALIDATOR
  }

  /** Without its lowest ends a validator is left with those to keep. */
  lemma EvictedToTail(was: Pending, v: Address, ends: seq<int>, i: nat, now: Pending)
    requires Ascending(ends) && Elements(ends) == Ends(was, v) && i <= |ends|
    requires |ends| - i <= MAX_PENDING_PER_VALIDATOR && (i > 0 ==> |ends| - i >= MAX_PENDING_PER_VALIDATOR)
    requires now == map k | k in was && !(k.validator == v && k.end in ends[..i]) :: was[k]
    ensures now == Trimmed(was, v)
  {
    forall k | k in was ensures k in now <==> Kept(was, v, k) {
      if k.validator == v {
        assert k.end in Ends(was, v);
        var j :| 0 <= j < |ends| && ends[j] == k.end;
        LargerAreLater(ends, j);
        assert NewerEnds(was, k) == set x | x in ends && x > ends[j];
      }
    }
  }

  class Queue {
    var pending: Pending

    constructor ()
      ensures pending == map[]
    {
      pending := map[];
    }

    method QueueEvidencePacket(packet: EvidencePacket)
      modifies this
      ensures pending == Queued(old(pending), packet)
    {
      pending := pending[KeyOf(packet) := Decodable(packet)];
      EvictOldestPendingEvidence(packet.validator);
    }

    /** Queueing one more packet after a list of them. */
    method QueueNext(packet: EvidencePacket, ghost before: Pending, ghost packets: seq<EvidencePacket>)
      requires pending == QueuedAll(before, packets)
      modifies this
      ensures pending == QueuedAll(before, packets + [packet])
    {
      QueuedAllAppend(before, packets, packet);
      QueueEvidencePacket(packet);
    }

    method EvictOldestPendingEvidence(v: Address)
      modifies this
      ensures pending == Trimmed(old(pending), v)
    {
      ghost var was := pending;
      var ends := Iterate(Ends(pending, v));
      var i := 0;
      while |ends| - i > MAX_PENDING_PER_VALIDATOR
        invariant 0 <= i <= |ends|
        invariant i > 0 ==> |ends| - i >= MAX_PENDING_PER_VALIDATOR
        invariant pending == map k | k in was && !(k.validator == v && k.end in ends[..i]) :: was[k]
      {
        pending := pending - {Key(v, ends[i])};
        i := i + 1;
      }
      EvictedToTail(was, v, ends, i, pending);
    }

    /** Puts a timed-out packet back; an undecodable or invalid payload is refused. */
    method RequeueEvidencePacket(payload: Stored) returns (ok: bool)
      modifies this
      ensures ok <==> payload.Decodable? && Validate(payload.packet).None?
      ensures pending == if ok then Queued(old(pending), payload.packet) else old(pending)
    {
      ok := payload.Decodable? && Validate(payload.packet).None?;
      if ok {
        QueueEvidencePacket(payload.packet);
      }
    }

    /**
     * One send pass. `ready` is whether the provider client is pinned, active and has a counterparty;
     * `commits` says which packets IBC accepts.
     */
    method SendEvidencePackets(ready: bool, commits: Key -> bool) returns (sent: seq<Key>)
      modifies this
      ensures ready || (sent == [] && pending == old(pending))
      ensures |sent| <= MAX_SENDS_PER_BLOCK
      ensures forall i, j :: 0 <= i < j < |sent| ==> Precedes(sent[i], sent[j])
      ensures forall k :: k in sent ==> Sendable(old(pending), commits, k)
      ensures forall k :: k in pending ==> k in old(pending) && pending[k] == old(pending)[k]
      ensures forall k :: k in old(pending) && old(pending)[k].Decodable? ==> (k in pending <==> k !in sent)
      ensures forall k :: ready && k in old(pending)
                ==> (k in pending <==> Spared(sent, k) || !Movable(old(pending), commits, k))
    {
      sent := [];
      if !ready {
        return;
      }
      var toDelete;
      ghost var rest;
      sent, toDelete, rest := SendPass(commits);
      PassDone(pending, commits, rest, toDelete, sent);
      pending := pending - toDelete;
    }

    /** Walks the queue in key order until the block's limit; rest is what it did not come to. */
    method SendPass(commits: Key -> bool) returns (sent: seq<Key>, toDelete: set<Key>, ghost left: set<Key>)
      ensures SentSoFar(pending, commits, left, toDelete, sent)
      ensures left == {} || |sent| == MAX_SENDS_PER_BLOCK
    {
      sent, toDelete := [], {};
      var rest := pending.Keys;
      while rest != {}
        invariant SentSoFar(pending, commits, rest, toDelete, sent)
        decreases |rest|
      {
        if |sent| >= MAX_SENDS_PER_BLOCK {
          return sent, toDelete, rest;
        }
        FirstExists(rest);
        var k :| IsFirst(rest, k);
        SendsNext(pending, commits, rest, toDelete, sent, k);
        rest := rest - {k};
        if pending[k].Undecodable? {
          toDelete := toDelete + {k};
        } else if commits(k) {
          toDelete := toDelete + {k};
          sent := sent + [k];
        }
      }
      left := rest;
    }
  }

  lemma PassDone(was: Pending, commits: Key -> bool, rest: set<Key>, toDelete: set<Key>, sent: seq<Key>)
    requires SentSoFar(was, commits, rest, toDelete, sent) && (rest == {} || |sent| == MAX_SENDS_PER_BLOCK)
    ensures forall k :: k in was && was[k].Decodable? ==> (k in toDelete <==> k in sent)
    ensures forall k :: k in was ==> (k !in toDelete <==> Spared(sent, k) || !Movable(was, commits, k))
  {
  }

  /** The block's limit was reached before k's turn. */
  predicate Spared(sent: seq<Key>, k: Key) {
    |sent| == MAX_SENDS_PER_BLOCK && forall j :: j in sent ==> Precedes(j, k)
  }

  /** What leaves the queue in its turn: entries that cannot be decoded and packets IBC accepts. */
  predicate Movable(q: Pending, commits: Key -> bool, k: Key) {
    k in q && (q[k].Undecodable? || commits(k))
  }

  /** A send pass over the entries outside rest: sent in order, and deleted exactly when sent or undecodable. */
  ghost predicate SentSoFar(was: Pending, commits: Key -> bool, rest: set<Key>, toDelete: set<Key>, sent: seq<Key>) {
    && rest <= was.Keys && toDelete <= was.Keys - rest && |sent| <= MAX_SENDS_PER_BLOCK
    && (forall i, j :: 0 <= i < j < |sent| ==> Precedes(sent[i], sent[j]))
    && (forall j, k :: j in was.Keys - rest && k in rest ==> Precedes(j, k))
    && (forall k :: k in sent ==> k !in rest && Sendable(was, commits, k))
    && (forall k :: k in was.Keys - rest && was[k].Decodable? ==> (k in toDelete <==> k in sent))
    && (forall k :: k in was.Keys - rest ==> (k in toDelete <==> Movable(was, commits, k)))
    && (forall k :: k in was.Keys - rest ==> !Spared(sent, k))
  }

  lemma SendsNext(was: Pending, commits: Key -> bool, rest: set<Key>, toDelete: set<Key>, sent: seq<Key>, k: Key)
    requires SentSoFar(was, commits, rest, toDelete, sent) && IsFirst(rest, k) && |sent| < MAX_SENDS_PER_BLOCK
    ensures
      if was[k].Undecodable? then SentSoFar(was, commits, rest - {k}, toDelete + {k}, sent)
      else if commits(k) then SentSoFar(was, commits, rest - {k}, toDelete + {k}, sent + [k])
      else SentSoFar(was, commits, rest - {k}, toDelete, sent)
  {
  }

  predicate Precedes(a: Key, b: Key) {
    a.validator < b.validator || (a.validator == b.validator && a.end < b.end)
  }

  predicate Sendable(q: Pending, commits: Key -> bool, k: Key) {
    k in q && q[k].Decodable? && commits(k)
  }

  predicate IsFirst(s: set<Key>, k: Key) {
    k in s && forall x :: x in s && x != k ==> Precedes(k, x)
  }

  lemma {:induction false} FirstExists(s: set<Key>)
    requires s != {}
    ensures exists k :: IsFirst(s, k)
    decreases |s|
  {
    var k :| k in s;
    var rest := s - {k};
    assert s == rest + {k};
    if rest == {} {
      assert IsFirst(s, k);
    } else {
      FirstExists(rest);
      var n :| IsFirst(rest, n);
      FirstOfOneMore(rest, n, k);
    }
  }

  lemma FirstOfOneMore(rest: set<Key>, n: Key, k: Key)
    requires IsFirst(rest, n) && k !in rest
    ensures IsFirst(rest + {k}, if Precedes(k, n) then k else n)
  {
  }

  /**
   * Queueing leaves a validator exactly the MAX_PENDING_PER_VALIDATOR highest window ends of its old
   * set and the new one, with the packets that stood there, and touches no other validator.
   */
  lemma QueueKeepsHighest(q: Pending, p: EvidencePacket)
    ensures
      var all := Ends(q, p.validator) + {p.windowEnd};
      var kept := Ends(Queued(q, p), p.validator);
      && kept <= all
      && |kept| == (if |all| < MAX_PENDING_PER_VALIDATOR then |all| else MAX_PENDING_PER_VALIDATOR)
      && forall x, y :: x in kept && y in all - kept ==> y < x
    ensures forall k :: k in Queued(q, p)
              ==> if k == KeyOf(p) then Queued(q, p)[k] == Decodable(p) else k in q && Queued(q, p)[k] == q[k]
    ensures forall k: Key :: k.validator != p.validator ==> (k in Queued(q, p) <==> k in q)
  {
    var v := p.validator;
    var q': Pending := q[KeyOf(p) := Decodable(p)];
    var all := Ends(q, v) + {p.windowEnd};
    assert Ends(q', v) == all by {
      assert KeyOf(p) in q';
      forall e | e in all ensures e in Ends(q', v) {
        assert Key(v, e) in q';
      }
    }
    TopIsTail(q', v);
  }

  function Cut(n: nat): nat {
    if n < MAX_PENDING_PER_VALIDATOR then 0 else n - MAX_PENDING_PER_VALIDATOR
  }

  /** In the ascending list of a validator's ends, exactly the last ones are kept. */
  lemma KeptByRank(q: Pending, v: Address, ends: seq<int>, j: nat)
    requires Ascending(ends) && Elements(ends) == Ends(q, v) && j < |ends|
    ensures ends[j] in Ends(Trimmed(q, v), v) <==> j >= Cut(|ends|)
  {
    var k := Key(v, ends[j]);
    assert ends[j] in Elements(ends);
    assert k in q;
    assert NewerEnds(q, k) == set x | x in ends && x > ends[j] by {
      forall x ensures x in Ends(q, v) <==> x in ends {
        assert x in Elements(ends) <==> x in ends;
      }
    }
    LargerAreLater(ends, j);
    assert ends[j] in Ends(Trimmed(q, v), v) <==> k in Trimmed(q, v);
  }

  lemma KeptIsTail(q: Pending, v: Address, ends: seq<int>)
    requires Ascending(ends) && Elements(ends) == Ends(q, v)
    ensures Ends(Trimmed(q, v), v) == Elements(ends[Cut(|ends|)..])
  {
    var c, kept := Cut(|ends|), Ends(Trimmed(q, v), v);
    forall e | e in kept ensures e in ends[c..] {
      assert e in Ends(q, v);
      assert e in Elements(ends);
      var j :| 0 <= j < |ends| && ends[j] == e;
      KeptByRank(q, v, ends, j);
      assert ends[c..][j - c] == e;
    }
    forall e | e in ends[c..] ensures e in kept {
      var i :| 0 <= i < |ends[c..]| && ends[c..][i] == e;
      KeptByRank(q, v, ends, c + i);
    }
  }

  lemma TopIsTail(q: Pending, v: Address)
    ensures
      var ends := Ends(q, v);
      var kept := Ends(Trimmed(q, v), v);
      && kept <= ends
      && |kept| == (if |ends| < MAX_PENDING_PER_VALIDATOR then |ends| else MAX_PENDING_PER_VALIDATOR)
      && forall x, y :: x in kept && y in ends - kept ==> y < x
  {
    var ends := Sorted(Ends(q, v));
    TailSize(ends, 0);
    assert ends[0..] == ends;
    KeptIsTail(q, v, ends);
    TailSize(ends, Cut(|ends|));
    forall x, y | x in Ends(Trimmed(q, v), v) && y in Ends(q, v) - Ends(Trimmed(q, v), v) ensures y < x {
      assert x in Elements(ends) && y in Elements(ends);
      var i :| 0 <= i < |ends| && ends[i] == x;
      var j :| 0 <= j < |ends| && ends[j] == y;
      KeptByRank(q, v, ends, i);
      KeptByRank(q, v, ends, j);
    }
  }

  lemma QueueStaysWithinBounds(q: Pending, p: EvidencePacket)
    requires WithinBounds(q)
    ensures WithinBounds(Queued(q, p))
  {
    var q' := Queued(q, p);
    forall k | k in q' ensures |Ends(q', k.validator)| <= MAX_PENDING_PER_VALIDATOR {
      QueueKeepsHighest(q, p);
      if k.validator != p.validator {
        assert Ends(q', k.validator) == Ends(q, k.validator);
      }
    }
  }

  // What becomes of a packet over a run.

  /** The queue with the keys ever queued, ever committed to IBC, and ever evicted. */
  datatype Trace = Trace(pending: Pending, queued: set<Key>, sent: set<Key>, evicted: set<Key>)

  /** A send pass commits some packets and drops some undecodable entries. */
  datatype Event = Enqueue(packet: EvidencePacket) | Resend(payload: Stored) | Pass(sent: set<Key>, dropped: set<Key>)

  predicate DecodableIn(q: Pending, k: Key) {
    k in q && q[k].Decodable?
  }

  function Enqueued(t: Trace, p: EvidencePacket): Trace {
    var all: Pending := t.pending[KeyOf(p) := Decodable(p)];
    Trace(Queued(t.pending, p), t.queued + {KeyOf(p)}, t.sent, t.evicted + (all.Keys - Queued(t.pending, p).Keys))
  }

  /** An event that does not apply changes nothing. */
  function Step(t: Trace, ev: Event): Trace {
    match ev
    case Enqueue(p) => Enqueued(t, p)
    case Resend(payload) =>
      if payload.Decodable? && Validate(payload.packet).None? then Enqueued(t, payload.packet) else t
    case Pass(sent, dropped) =>
      if && (forall k :: k in sent ==> DecodableIn(t.pending, k))
         && (forall k :: k in dropped ==> k in t.pending && t.pending[k].Undecodable?)
      then t.(pending := t.pending - sent - dropped, sent := t.sent + sent) else t
  }

  function Run(t: Trace, events: seq<Event>): Trace {
    if events == [] then t else Step(Run(t, events[..|events| - 1]), events[|events| - 1])
  }

  /** The windows ever queued for k's validator that end above it. */
  function NewerQueued(queued: set<Key>, k: Key): set<int> {
    set j | j in queued && j.validator == k.validator && j.end > k.end :: j.end
  }

  /**
   * Every key ever queued is pending with a packet, or was sent, or was evicted; and what was evicted gave way to
   * as many newer windows of its validator as the queue holds.
   */
  ghost predicate Traced(t: Trace) {
    && t.pending.Keys <= t.queued
    && (forall k :: k in t.queued ==> DecodableIn(t.pending, k) || k in t.sent || k in t.evicted)
    && (forall k :: k in t.evicted ==> |NewerQueued(t.queued, k)| >= MAX_PENDING_PER_VALIDATOR)
  }

  lemma {:induction false} SubsetSize<T>(a: set<T>, b: set<T>)
    requires a <= b
    ensures |a| <= |b|
    decreases |a|
  {
    if a != {} {
      var x :| x in a;
      SubsetSize(a - {x}, b - {x});
    }
  }

  lemma EnqueuedTraced(t: Trace, p: EvidencePacket)
    requires Traced(t)
    ensures Traced(Enqueued(t, p))
  {
    var t', all: Pending := Enqueued(t, p), t.pending[KeyOf(p) := Decodable(p)];
    forall k | k in t'.evicted ensures |NewerQueued(t'.queued, k)| >= MAX_PENDING_PER_VALIDATOR {
      if k in t.evicted {
        SubsetSize(NewerQueued(t.queued, k), NewerQueued(t'.queued, k));
      } else {
        EvictedForNewer(all, t'.queued, p.validator, k);
      }
    }
  }

  lemma EvictedForNewer(all: Pending, queued: set<Key>, v: Address, k: Key)
    requires all.Keys <= queued && k in all && !Kept(all, v, k)
    ensures |NewerQueued(queued, k)| >= MAX_PENDING_PER_VALIDATOR
  {
    forall e | e in NewerEnds(all, k) ensures e in NewerQueued(queued, k) {
      assert Key(k.validator, e) in all;
    }
    SubsetSize(NewerEnds(all, k), NewerQueued(queued, k));
  }

  lemma {:induction false} RunTraced(t: Trace, events: seq<Event>)
    requires Traced(t)
    ensures Traced(Run(t, events))
    decreases |events|
  {
    if events != [] {
      var init, last := events[..|events| - 1], events[|events| - 1];
      RunTraced(t, init);
      match last
      case Enqueue(p) => EnqueuedTraced(Run(t, init), p);
      case Resend(payload) => if payload.Decodable? { EnqueuedTraced(Run(t, init), payload.packet); }
      case Pass(_, _) =>
    }
  }

  /**
   * From an empty queue, a packet that was ever queued is pending, or was sent, or was evicted in favour of newer
   * windows of the same validator, whatever was queued, requeued and sent in between.
   */
  lemma PendingSentOrEvicted(events: seq<Event>, k: Key)
    requires k in Run(Trace(map[], {}, {}, {}), events).queued
    ensures var t := Run(Trace(map[], {}, {}, {}), events);
            DecodableIn(t.pending, k) || k in t.sent
            || (k in t.evicted && |NewerQueued(t.queued, k)| >= MAX_PENDING_PER_VALIDATOR)
  {
    RunTraced(Trace(map[], {}, {}, {}), events);
  }

  /** A send pass of the queue is such a step: it commits what it sent and drops undecodable entries only. */
  lemma PassIsStep(was: Pending, now: Pending, sent: set<Key>, t: Trace)
    requires t.pending == was
    requires forall k :: k in sent ==> DecodableIn(was, k)
    requires forall k :: k in now ==> k in was && now[k] == was[k]
    requires forall k :: k in was && was[k].Decodable? ==> (k in now <==> k !in sent)
    ensures Step(t, Pass(sent, was.Keys - now.Keys - sent)) == t.(pending := now, sent := t.sent + sent)
  {
    assert was - sent - (was.Keys - now.Keys - sent) == now;
  }
}
