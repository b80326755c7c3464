/** Ascending iteration, as the key-value store enumerates integer keys. */
module Ordering {
  predicate Ascending(s: seq<int>) {
    forall i, j :: 0 <= i < j < |s| ==> s[i] < s[j]
  }

  ghost function Elements(s: seq<int>): set<int> {
    set x | x in s
  }

  ghost function Pick<T>(s: set<T>): (x: T)
    requires s != {}
    ensures x in s
  {
    var x :| x in s;
    x
  }

  lemma {:induction false} LeastExists(s: set<int>)
    requires s != {}
    ensures exists m :: m in s && forall x :: x in s ==> m <= x
    decreases |s|
  {
    var m := Pick(s);
    var rest := s - {m};
    assert s == rest + {m};
    if rest == {} {
      assert forall x :: x in s ==> m <= x;
    } else {
      LeastExists(rest);
      var n :| n in rest && forall x :: x in rest ==> n <= x;
      var least := if m < n then m else n;
      assert least in s && forall x :: x in s ==> least <= x;
    }
  }

  function Least(s: set<int>): (m: int)
    requires s != {}
    ensures m in s && forall x :: x in s ==> m <= x
  {
    LeastExists(s);
    var m :| m in s && forall x :: x in s ==> m <= x;
    m
  }

  ghost function Greatest(s: set<int>): (m: int)
    requires s != {}
    ensures m in s && forall x :: x in s ==> x <= m
  {
    var negated := set x | x in s :: -x;
    var y := Pick(s);
    assert -y in negated;
    var n := Least(negated);
    assert forall x :: x in s ==> -x in negated;
    -n
  }

  ghost function Sorted(s: set<int>): (r: seq<int>)
    ensures Ascending(r) && Elements(r) == s
    decreases |s|
  {
    if s == {} then [] else
      var tail := Sorted(s - {Least(s)});
      PrependLeast(Least(s), tail);
      [Least(s)] + tail
  }

  lemma PrependLeast(m: int, tail: seq<int>)
    requires Ascending(tail)
    requires forall x :: x in Elements(tail) ==> m < x
    ensures Ascending([m] + tail)
    ensures Elements([m] + tail) == {m} + Elements(tail)
  {
    assert forall i :: 0 <= i < |tail| ==> tail[i] in Elements(tail);
  }

  /** The keys of a store in iteration order. */
  method Iterate(keys: set<int>) returns (s: seq<int>)
    ensures Ascending(s)
    ensures Elements(s) == keys
  {
    s := [];
    var rest := keys;
    while rest != {}
      invariant IteratedSoFar(keys, rest, s)
      decreases |rest|
    {
      IteratesNext(keys, rest, s);
      var m := Least(rest);
      s := s + [m];
      rest := rest - {m};
    }
  }

  ghost predicate IteratedSoFar(keys: set<int>, rest: set<int>, s: seq<int>) {
    && rest <= keys && Ascending(s) && Elements(s) == keys - rest
    && forall i, y :: 0 <= i < |s| && y in rest ==> s[i] < y
  }

  lemma IteratesNext(keys: set<int>, rest: set<int>, s: seq<int>)
    requires rest != {} && IteratedSoFar(keys, rest, s)
    ensures IteratedSoFar(keys, rest - {Least(rest)}, s + [Least(rest)])
  {
    assert Elements(s + [Least(rest)]) == Elements(s) + {Least(rest)};
  }

  /** In an ascending sequence the number of larger elements is the number of later ones. */
  lemma {:induction false} LargerAreLater(s: seq<int>, j: nat)
    requires Ascending(s) && j < |s|
    ensures |set x | x in s && x > s[j]| == |s| - 1 - j
    decreases |s| - j
  {
    LargerIsTail(s, j);
    TailSize(s, j + 1);
  }

  lemma LargerIsTail(s: seq<int>, j: nat)
    requires Ascending(s) && j < |s|
    ensures (set x | x in s && x > s[j]) == Elements(s[j + 1..])
  {
    forall x | x in s && x > s[j] ensures x in s[j + 1..] {
      var i :| 0 <= i < |s| && s[i] == x;
      assert s[j + 1..][i - j - 1] == x;
    }
  }

  lemma {:induction false} TailSize(s: seq<int>, j: nat)
    requires Ascending(s) && j <= |s|
    ensures |Elements(s[j..])| == |s| - j
    decreases |s| - j
  {
    if j < |s| {
      TailSize(s, j + 1);
      assert s[j..] == [s[j]] + s[j + 1..];
      assert Elements(s[j..]) == {s[j]} + Elements(s[j + 1..]);
    } else {
      assert Elements(s[j..]) == {};
    }
  }
}
