/** Lists of validator updates: how they accumulate, and the validator set they lead to. */
module ValidatorUpdates {
  import Ordering

  /**
   * Public keys, in the order of their strings; the key-to-address map is injective and left implicit.
   * Keys of a type or length the consensus engine does not support are the negative ones.
   */
  type PubKey = int

  predicate Decodes(k: PubKey) {
    k >= 0
  }

  datatype Update = Update(key: PubKey, power: int)

  /** A stored validator set: the power of each member. */
  type ValSet = map<PubKey, int>

  predicate AllPositive(vals: ValSet) {
    forall k :: k in vals ==> vals[k] >= 1
  }

  predicate DistinctKeys(us: seq<Update>) {
    forall i, j :: 0 <= i < j < |us| ==> us[i].key != us[j].key
  }

  predicate NonNegative(us: seq<Update>) {
    forall i :: 0 <= i < |us| ==> us[i].power >= 0
  }

  predicate HasPositive(us: seq<Update>) {
    exists i :: 0 <= i < |us| && us[i].power > 0
  }

  /** The last power written for each key. */
  function LastWrites(us: seq<Update>): map<PubKey, int> {
    if us == [] then map[] else LastWrites(us[..|us| - 1])[us[|us| - 1].key := us[|us| - 1].power]
  }

  /** A set after one update: a power below 1 removes. */
  function Updated(vals: ValSet, u: Update): ValSet {
    if u.power < 1 then vals - {u.key} else vals[u.key := u.power]
  }

  /** A set after a list of updates in turn. */
  function Overlay(vals: ValSet, us: seq<Update>): ValSet {
    if us == [] then vals else Updated(Overlay(vals, us[..|us| - 1]), us[|us| - 1])
  }

  /** A set overlaid with the last write of each key, in one go. */
  function Merge(vals: ValSet, writes: map<PubKey, int>): ValSet {
    map k | k in vals.Keys + writes.Keys && (k in writes ==> writes[k] >= 1) ::
      if k in writes then writes[k] else vals[k]
  }

  lemma {:induction false} OverlayIsMerge(vals: ValSet, us: seq<Update>)
    ensures Overlay(vals, us) == Merge(vals, LastWrites(us))
    decreases |us|
  {
    if us != [] {
      OverlayIsMerge(vals, us[..|us| - 1]);
    }
  }

  lemma MergeTwice(vals: ValSet, a: map<PubKey, int>, b: map<PubKey, int>)
    ensures Merge(Merge(vals, a), b) == Merge(vals, a + b)
  {
  }

  lemma {:induction false} LastWritesAppend(a: seq<Update>, b: seq<Update>)
    ensures LastWrites(a + b) == LastWrites(a) + LastWrites(b)
    decreases |b|
  {
    if b == [] {
      assert a + b == a;
    } else {
      var c := b[..|b| - 1];
      LastWritesAppend(a, c);
      assert (a + b)[..|a + b| - 1] == a + c;
    }
  }

  lemma OverlayAppend(vals: ValSet, a: seq<Update>, b: seq<Update>)
    ensures Overlay(vals, a + b) == Overlay(Overlay(vals, a), b)
  {
    OverlayIsMerge(vals, a + b);
    LastWritesAppend(a, b);
    OverlayIsMerge(vals, a);
    OverlayIsMerge(Overlay(vals, a), b);
    MergeTwice(vals, LastWrites(a), LastWrites(b));
  }

  // The order in which accumulated updates are listed.

  predicate Before(a: Update, b: Update) {
    a.power > b.power || (a.power == b.power && a.key > b.key)
  }

  predicate InOrder(us: seq<Update>) {
    forall i, j :: 0 <= i < j < |us| ==> Before(us[i], us[j])
  }

  ghost function Keys(us: seq<Update>): set<PubKey> {
    set i | 0 <= i < |us| :: us[i].key
  }

  lemma KeysConcat(a: seq<Update>, b: seq<Update>)
    ensures Keys(a + b) == Keys(a) + Keys(b)
  {
    forall k | k in Keys(b) ensures k in Keys(a + b) {
      var i :| 0 <= i < |b| && b[i].key == k;
      assert (a + b)[|a| + i].key == k;
    }
    forall k | k in Keys(a) ensures k in Keys(a + b) {
      var i :| 0 <= i < |a| && a[i].key == k;
      assert (a + b)[i].key == k;
    }
  }

  /** us lists exactly the writes, each once. */
  ghost predicate Lists(us: seq<Update>, writes: map<PubKey, int>) {
    && DistinctKeys(us)
    && Keys(us) == writes.Keys
    && forall i :: 0 <= i < |us| ==> writes[us[i].key] == us[i].power
  }

  /** A listing starts and ends with any of its parts removed: the rest lists what is left. */
  lemma ListsSplit(a: seq<Update>, u: Update, b: seq<Update>, writes: map<PubKey, int>)
    requires Lists(a + [u] + b, writes)
    ensures u.key in writes && writes[u.key] == u.power
    ensures Lists(a + b, writes - {u.key})
  {
    var us := a + [u] + b;
    KeysConcat(a + [u], b);
    KeysConcat(a, [u]);
    KeysConcat(a, b);
    assert us[|a|] == u;
    var ab := a + b;
    forall i | 0 <= i < |ab|
      ensures ab[i].key != u.key && writes[ab[i].key] == ab[i].power && ab[i] == us[if i < |a| then i else i + 1]
    {
      var j := if i < |a| then i else i + 1;
      assert ab[i] == us[j] && (j < |a| || |a| < j);
    }
    forall i, j | 0 <= i < j < |ab| ensures ab[i].key != ab[j].key {
      assert ab[i] == us[if i < |a| then i else i + 1] && ab[j] == us[if j < |a| then j else j + 1];
    }
    forall k | k in Keys(a + b) ensures k != u.key {
      var i :| 0 <= i < |a + b| && (a + b)[i].key == k;
    }
    assert Keys([u]) == {u.key};
  }

  lemma ListsJoin(a: seq<Update>, u: Update, b: seq<Update>, writes: map<PubKey, int>)
    requires Lists(a + b, writes) && u.key !in writes
    ensures Lists(a + [u] + b, writes[u.key := u.power])
  {
    var us := a + [u] + b;
    KeysConcat(a + [u], b);
    KeysConcat(a, [u]);
    KeysConcat(a, b);
    assert Keys([u]) == {u.key} by {
      assert [u][0].key == u.key;
    }
    forall i | 0 <= i < |us| && i != |a|
      ensures us[i] == (a + b)[if i < |a| then i else i - 1] && us[i].key in Keys(a + b)
    {
    }
  }

  lemma {:induction false} ListedWrites(us: seq<Update>, writes: map<PubKey, int>)
    requires Lists(us, writes)
    ensures LastWrites(us) == writes
    decreases |us|
  {
    if us == [] {
      assert writes == map[];
    } else {
      var u := us[|us| - 1];
      InitLists(us, writes);
      ListedWrites(us[..|us| - 1], writes - {u.key});
      assert (writes - {u.key})[u.key := u.power] == writes;
    }
  }

  lemma InitLists(us: seq<Update>, writes: map<PubKey, int>)
    requires us != [] && Lists(us, writes)
    ensures us[|us| - 1].key in writes && writes[us[|us| - 1].key] == us[|us| - 1].power
    ensures Lists(us[..|us| - 1], writes - {us[|us| - 1].key})
  {
    var u, init := us[|us| - 1], us[..|us| - 1];
    assert us == init + [u] + [] && init == init + [];
    ListsSplit(init, u, [], writes);
  }

  lemma PrependLists(u: Update, us: seq<Update>, writes: map<PubKey, int>)
    requires Lists(us, writes) && u.key !in writes
    ensures Lists([u] + us, writes[u.key := u.power])
  {
    assert [] + us == us && [] + [u] + us == [u] + us;
    ListsJoin([], u, us, writes);
  }

  lemma TailLists(us: seq<Update>, writes: map<PubKey, int>)
    requires us != [] && Lists(us, writes)
    ensures us[0].key in writes && writes[us[0].key] == us[0].power
    ensures Lists(us[1..], writes - {us[0].key})
  {
    assert us == [] + [us[0]] + us[1..] && us[1..] == [] + us[1..];
    ListsSplit([], us[0], us[1..], writes);
  }

  lemma HeadComesFirst(us: seq<Update>, i: nat)
    requires i < |us| && InOrder(us)
    ensures us[i] == us[0] || Before(us[0], us[i])
  {
  }

  /** There is one sorted listing of a map, whatever order the map was walked in. */
  lemma {:induction false} SortedListingUnique(a: seq<Update>, b: seq<Update>, writes: map<PubKey, int>)
    requires Lists(a, writes) && Lists(b, writes) && InOrder(a) && InOrder(b)
    ensures a == b
    decreases |a|
  {
    assert a != [] ==> a[0].key in Keys(a);
    assert b != [] ==> b[0].key in Keys(b);
    if a != [] {
      var i :| 0 <= i < |b| && b[i].key == a[0].key;
      var j :| 0 <= j < |a| && a[j].key == b[0].key;
      assert b[i] == a[0] && a[j] == b[0];
      HeadComesFirst(b, i);
      HeadComesFirst(a, j);
      TailLists(a, writes);
      TailLists(b, writes);
      SortedListingUnique(a[1..], b[1..], writes - {a[0].key});
    }
  }

  /** sort.Slice under Before, as an insertion sort. */
  function Insert(u: Update, us: seq<Update>): seq<Update> {
    if us == [] || Before(u, us[0]) then [u] + us else [us[0]] + Insert(u, us[1..])
  }

  function Sort(us: seq<Update>): seq<Update> {
    if us == [] then [] else Insert(us[0], Sort(us[1..]))
  }

  lemma {:induction false} InsertLists(u: Update, us: seq<Update>, writes: map<PubKey, int>)
    requires Lists(us, writes) && InOrder(us) && u.key !in writes
    ensures Lists(Insert(u, us), writes[u.key := u.power]) && InOrder(Insert(u, us))
    decreases |us|
  {
    if us == [] || Before(u, us[0]) {
      PrependLists(u, us, writes);
      HeadFits(u, us);
    } else {
      var head, inner, rest := us[0], Insert(u, us[1..]), writes - {us[0].key};
      TailLists(us, writes);
      InsertLists(u, us[1..], rest);
      assert rest[u.key := u.power][head.key := head.power] == writes[u.key := u.power];
      NotBothBefore(u, head);
      HeadStays(u, us, inner);
      PrependLists(head, inner, rest[u.key := u.power]);
    }
  }

  lemma {:induction false} InsertMembers(u: Update, us: seq<Update>)
    ensures forall i :: 0 <= i < |Insert(u, us)| ==> Insert(u, us)[i] == u || Insert(u, us)[i] in us
    decreases |us|
  {
    if us != [] {
      InsertMembers(u, us[1..]);
    }
  }

  lemma NotBothBefore(a: Update, b: Update)
    requires a.key != b.key
    ensures Before(a, b) <==> !Before(b, a)
  {
  }

  lemma HeadFits(u: Update, us: seq<Update>)
    requires InOrder(us) && (us == [] || Before(u, us[0]))
    ensures InOrder([u] + us)
  {
    forall i | 0 <= i < |us| ensures Before(u, us[i]) {
      HeadComesFirst(us, i);
    }
  }

  lemma HeadStays(u: Update, us: seq<Update>, inner: seq<Update>)
    requires us != [] && InOrder(us) && Before(us[0], u) && inner == Insert(u, us[1..]) && InOrder(inner)
    ensures InOrder([us[0]] + inner)
  {
    InsertMembers(u, us[1..]);
    forall i | 0 <= i < |inner| ensures Before(us[0], inner[i]) {
      if inner[i] != u {
        var j :| 0 <= j < |us[1..]| && us[1..][j] == inner[i];
        assert us[j + 1] == inner[i];
      }
    }
  }

  lemma {:induction false} SortLists(us: seq<Update>, writes: map<PubKey, int>)
    requires Lists(us, writes)
    ensures Lists(Sort(us), writes) && InOrder(Sort(us))
    decreases |us|
  {
    if us != [] {
      TailLists(us, writes);
      SortLists(us[1..], writes - {us[0].key});
      InsertLists(us[0], Sort(us[1..]), writes - {us[0].key});
      assert (writes - {us[0].key})[us[0].key := us[0].power] == writes;
    }
  }

  /** The updates a list of pending changes and a list of new ones accumulate to. */
  ghost predicate Accumulates(out: seq<Update>, current: seq<Update>, changes: seq<Update>) {
    Lists(out, LastWrites(current) + LastWrites(changes)) && InOrder(out)
  }

  /** Overwrites current by changes, key by key, and lists the outcome in order. */
  method AccumulateChanges(current: seq<Update>, changes: seq<Update>) returns (out: seq<Update>)
    ensures Accumulates(out, current, changes)
  {
    var m: map<PubKey, int> := map[];
    for i := 0 to |current|
      invariant m == LastWrites(current[..i])
    {
      assert current[..i + 1][..i] == current[..i];
      m := m[current[i].key := current[i].power];
    }
    assert current[..|current|] == current;
    for i := 0 to |changes|
      invariant m == LastWrites(current) + LastWrites(changes[..i])
    {
      assert changes[..i + 1][..i] == changes[..i];
      m := m[changes[i].key := changes[i].power];
    }
    assert changes[..|changes|] == changes;
    out := WalkMap(m);
    SortLists(out, m);
    out := Sort(out);
  }

  /** The entries of a map, each once. */
  method WalkMap(m: map<PubKey, int>) returns (out: seq<Update>)
    ensures Lists(out, m)
  {
    out := [];
    var rest := m.Keys;
    while rest != {}
      invariant rest <= m.Keys
      invariant Lists(out, m - rest)
      decreases |rest|
    {
      var k := Ordering.Least(rest);
      WalkStep(out, m, rest, k);
      out := out + [Update(k, m[k])];
      rest := rest - {k};
    }
    assert m - rest == m;
  }

  lemma WalkStep(out: seq<Update>, m: map<PubKey, int>, rest: set<PubKey>, k: PubKey)
    requires Lists(out, m - rest) && k in rest && rest <= m.Keys
    ensures Lists(out + [Update(k, m[k])], m - (rest - {k}))
  {
    assert out + [] == out && out + [Update(k, m[k])] + [] == out + [Update(k, m[k])];
    ListsJoin(out, Update(k, m[k]), [], m - rest);
    assert (m - rest)[k := m[k]] == m - (rest - {k});
  }

  /** Whatever order the maps are walked in, accumulation has one outcome, and it groups either way. */
  lemma AccumulateAssociative(
    a: seq<Update>, b: seq<Update>, c: seq<Update>, ab: seq<Update>, bc: seq<Update>, left: seq<Update>,
    right: seq<Update>)
    requires Accumulates(ab, a, b) && Accumulates(bc, b, c)
    requires Accumulates(left, ab, c) && Accumulates(right, a, bc)
    ensures left == right
  {
    AccumulatedWrites(ab, a, b);
    AccumulatedWrites(bc, b, c);
    var x, y, z := LastWrites(a), LastWrites(b), LastWrites(c);
    PlusAssociative(x, y, z);
    SortedListingUnique(left, right, x + (y + z));
  }

  lemma PlusAssociative(x: map<PubKey, int>, y: map<PubKey, int>, z: map<PubKey, int>)
    ensures x + y + z == x + (y + z)
  {
  }

  lemma AccumulatedWrites(out: seq<Update>, a: seq<Update>, b: seq<Update>)
    requires Accumulates(out, a, b)
    ensures LastWrites(out) == LastWrites(a) + LastWrites(b)
  {
    ListedWrites(out, LastWrites(a) + LastWrites(b));
  }

  /** Applying the accumulated list is applying the two lists in turn. */
  lemma AccumulateOverlays(vals: ValSet, a: seq<Update>, b: seq<Update>, out: seq<Update>)
    requires Accumulates(out, a, b)
    ensures DistinctKeys(out)
    ensures Overlay(vals, out) == Overlay(Overlay(vals, a), b)
  {
    AccumulatedWrites(out, a, b);
    LastWritesAppend(a, b);
    OverlayIsMerge(vals, out);
    OverlayIsMerge(vals, a + b);
    OverlayAppend(vals, a, b);
  }
}
