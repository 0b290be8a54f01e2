/** Insertion sort as a function of a sequence, over any strict weak order. */
module StableSort {
  ghost predicate StrictWeak<T(!new)>(lt: (T, T) -> bool) {
    && (forall x :: !lt(x, x))
    && (forall x, y, z :: lt(x, y) && lt(y, z) ==> lt(x, z))
    && (forall x, y, z :: lt(x, z) ==> lt(x, y) || lt(y, z))
  }

  ghost predicate Ordered<T>(s: seq<T>, lt: (T, T) -> bool) {
    forall i, j :: 0 <= i < j < |s| ==> !lt(s[j], s[i])
  }

  /** Put x behind everything it does not go before, scanning from the end. */
  function Insert<T>(s: seq<T>, x: T, lt: (T, T) -> bool): (r: seq<T>)
    ensures |r| == |s| + 1
  {
    if s == [] || !lt(x, s[|s| - 1]) then s + [x]
    else Insert(s[..|s| - 1], x, lt) + [s[|s| - 1]]
  }

  function Sort<T>(s: seq<T>, lt: (T, T) -> bool): (r: seq<T>)
    ensures |r| == |s|
  {
    if s == [] then [] else Insert(Sort(s[..|s| - 1], lt), s[|s| - 1], lt)
  }

  /** The elements tied with x, in order of appearance. */
  function Ties<T>(s: seq<T>, x: T, lt: (T, T) -> bool): seq<T> {
    if s == [] then []
    else
      var y := s[|s| - 1];
      Ties(s[..|s| - 1], x, lt) + if lt(x, y) || lt(y, x) then [] else [y]
  }

  lemma {:induction false} TiesMember<T>(s: seq<T>, x: T, y: T, lt: (T, T) -> bool)
    ensures y in Ties(s, x, lt) <==> y in s && !lt(x, y) && !lt(y, x)
  {
    if s != [] {
      TiesMember(s[..|s| - 1], x, y, lt);
      assert s == s[..|s| - 1] + [s[|s| - 1]];
    }
  }

  lemma {:induction false} InsertMultiset<T>(s: seq<T>, x: T, lt: (T, T) -> bool)
    ensures multiset(Insert(s, x, lt)) == multiset(s) + multiset{x}
  {
    if s != [] && lt(x, s[|s| - 1]) {
      InsertMultiset(s[..|s| - 1], x, lt);
      assert s == s[..|s| - 1] + [s[|s| - 1]];
    }
  }

  lemma {:induction false} SortMultiset<T>(s: seq<T>, lt: (T, T) -> bool)
    ensures multiset(Sort(s, lt)) == multiset(s)
  {
    if s != [] {
      var n := |s| - 1;
      SortMultiset(s[..n], lt);
      InsertMultiset(Sort(s[..n], lt), s[n], lt);
      assert s == s[..n] + [s[n]];
    }
  }

  lemma {:induction false} InsertOrdered<T(!new)>(s: seq<T>, x: T, lt: (T, T) -> bool)
    requires StrictWeak(lt) && Ordered(s, lt)
    ensures Ordered(Insert(s, x, lt), lt)
  {
    if s != [] && lt(x, s[|s| - 1]) {
      var n := |s| - 1;
      InsertOrdered(s[..n], x, lt);
      InsertMultiset(s[..n], x, lt);
      var r := Insert(s[..n], x, lt);
      forall i | 0 <= i < |r| ensures !lt(s[n], r[i]) {
        assert r[i] in multiset(r);
        assert r[i] in s[..n] || r[i] == x;
      }
    } else {
      var r := Insert(s, x, lt);
      forall i | 0 <= i < |s| ensures !lt(x, s[i]) {
        assert i < |s| - 1 ==> !lt(s[|s| - 1], s[i]);
      }
    }
  }

  lemma {:induction false} SortOrdered<T(!new)>(s: seq<T>, lt: (T, T) -> bool)
    requires StrictWeak(lt)
    ensures Ordered(Sort(s, lt), lt)
  {
    if s != [] {
      SortOrdered(s[..|s| - 1], lt);
      InsertOrdered(Sort(s[..|s| - 1], lt), s[|s| - 1], lt);
    }
  }

  lemma TiesSnoc<T>(s: seq<T>, y: T, k: T, lt: (T, T) -> bool)
    ensures Ties(s + [y], k, lt) == Ties(s, k, lt) + if lt(k, y) || lt(y, k) then [] else [y]
  {
    assert (s + [y])[..|s|] == s;
  }

  /** Elements in order do not both tie with k. */
  ghost predicate Separates<T(!new)>(k: T, lt: (T, T) -> bool) {
    forall x, y :: lt(x, y) ==> lt(x, k) || lt(k, y)
  }

  /** So they may swap places. */
  lemma TiesSwap<T>(s: seq<T>, x: T, y: T, k: T, lt: (T, T) -> bool)
    requires lt(x, k) || lt(k, y)
    ensures Ties(s + [x] + [y], k, lt) == Ties(s + [y] + [x], k, lt)
  {
    TiesSnoc(s, x, k, lt);
    TiesSnoc(s + [x], y, k, lt);
    TiesSnoc(s, y, k, lt);
    TiesSnoc(s + [y], x, k, lt);
  }

  /** Ties of r and t stay the same when both get y behind them. */
  lemma TiesCong<T>(r: seq<T>, t: seq<T>, y: T, k: T, lt: (T, T) -> bool)
    requires Ties(r, k, lt) == Ties(t, k, lt)
    ensures Ties(r + [y], k, lt) == Ties(t + [y], k, lt)
  {
    TiesSnoc(r, y, k, lt);
    TiesSnoc(t, y, k, lt);
  }

  lemma {:induction false} TiesInsert<T(!new)>(s: seq<T>, x: T, k: T, lt: (T, T) -> bool)
    requires Separates(k, lt)
    ensures Ties(Insert(s, x, lt), k, lt) == Ties(s + [x], k, lt)
  {
    if s != [] && lt(x, s[|s| - 1]) {
      var n := |s| - 1;
      var y := s[n];
      TiesInsert(s[..n], x, k, lt);
      TiesCong(Insert(s[..n], x, lt), s[..n] + [x], y, k, lt);
      TiesSwap(s[..n], x, y, k, lt);
      assert s[..n] + [y] == s;
    }
  }

  lemma TiesInsertCong<T(!new)>(r: seq<T>, t: seq<T>, x: T, k: T, lt: (T, T) -> bool)
    requires Separates(k, lt) && Ties(r, k, lt) == Ties(t, k, lt)
    ensures Ties(Insert(r, x, lt), k, lt) == Ties(t + [x], k, lt)
  {
    TiesInsert(r, x, k, lt);
    TiesCong(r, t, x, k, lt);
  }

  /** The sort is stable: ties keep their order. */
  lemma {:induction false} SortStable<T(!new)>(s: seq<T>, k: T, lt: (T, T) -> bool)
    requires Separates(k, lt)
    ensures Ties(Sort(s, lt), k, lt) == Ties(s, k, lt)
  {
    if s != [] {
      var n := |s| - 1;
      SortStable(s[..n], k, lt);
      TiesInsertCong(Sort(s[..n], lt), s[..n], s[n], k, lt);
      assert s == s[..n] + [s[n]];
    }
  }

  ghost predicate SameTies<T(!new)>(a: seq<T>, b: seq<T>, lt: (T, T) -> bool) {
    forall k :: Ties(a, k, lt) == Ties(b, k, lt)
  }

  /** a's elements appear in b, so if a has one, b has one. */
  lemma TiesPresent<T(!new)>(a: seq<T>, b: seq<T>, i: nat, lt: (T, T) -> bool)
    requires StrictWeak(lt) && SameTies(a, b, lt) && i < |a|
    ensures a[i] in b
  {
    TiesMember(a, a[i], a[i], lt);
    TiesMember(b, a[i], a[i], lt);
    assert Ties(a, a[i], lt) == Ties(b, a[i], lt);
  }

  lemma LastNotAfter<T(!new)>(a: seq<T>, b: seq<T>, lt: (T, T) -> bool)
    requires StrictWeak(lt) && Ordered(a, lt) && a != [] && b != [] && SameTies(b, a, lt)
    ensures !lt(a[|a| - 1], b[|b| - 1])
  {
    TiesPresent(b, a, |b| - 1, lt);
    var i :| 0 <= i < |a| && a[i] == b[|b| - 1];
  }

  lemma LastTie<T>(s: seq<T>, k: T, lt: (T, T) -> bool)
    requires s != [] && !lt(k, s[|s| - 1]) && !lt(s[|s| - 1], k)
    ensures Ties(s, k, lt) != [] && Ties(s, k, lt)[|Ties(s, k, lt)| - 1] == s[|s| - 1]
  {}

  lemma LastSame<T(!new)>(a: seq<T>, b: seq<T>, lt: (T, T) -> bool)
    requires StrictWeak(lt) && Ordered(a, lt) && Ordered(b, lt) && a != [] && b != []
    requires SameTies(a, b, lt)
    ensures a[|a| - 1] == b[|b| - 1]
  {
    LastNotAfter(a, b, lt);
    LastNotAfter(b, a, lt);
    LastTie(a, a[|a| - 1], lt);
    LastTie(b, a[|a| - 1], lt);
    assert Ties(a, a[|a| - 1], lt) == Ties(b, a[|a| - 1], lt);
  }

  lemma CancelRight<T>(p: seq<T>, q: seq<T>, d: seq<T>)
    requires p + d == q + d
    ensures p == q
  {
    assert |p| == |q|;
    assert p == (p + d)[..|p|] && q == (q + d)[..|p|];
  }

  lemma TiesInitAt<T>(a: seq<T>, b: seq<T>, k: T, lt: (T, T) -> bool)
    requires a != [] && b != [] && a[|a| - 1] == b[|b| - 1] && Ties(a, k, lt) == Ties(b, k, lt)
    ensures Ties(a[..|a| - 1], k, lt) == Ties(b[..|b| - 1], k, lt)
  {
    var x := a[|a| - 1];
    var d: seq<T> := if lt(k, x) || lt(x, k) then [] else [x];
    CancelRight(Ties(a[..|a| - 1], k, lt), Ties(b[..|b| - 1], k, lt), d);
  }

  lemma TiesInit<T(!new)>(a: seq<T>, b: seq<T>, lt: (T, T) -> bool)
    requires a != [] && b != [] && a[|a| - 1] == b[|b| - 1] && SameTies(a, b, lt)
    ensures SameTies(a[..|a| - 1], b[..|b| - 1], lt)
  {
    var a', b' := a[..|a| - 1], b[..|b| - 1];
    forall k ensures Ties(a', k, lt) == Ties(b', k, lt) {
      assert Ties(a, k, lt) == Ties(b, k, lt);
      TiesInitAt(a, b, k, lt);
    }
  }

  /** Order and ties determine a sequence. */
  lemma {:induction false} OrderAndTiesDetermine<T(!new)>(a: seq<T>, b: seq<T>, lt: (T, T) -> bool)
    requires StrictWeak(lt) && Ordered(a, lt) && Ordered(b, lt) && SameTies(a, b, lt)
    ensures a == b
    decreases |a|
  {
    if a != [] {
      TiesPresent(a, b, 0, lt);
    }
    if b != [] {
      TiesPresent(b, a, 0, lt);
    }
    if a != [] {
      LastSame(a, b, lt);
      TiesInit(a, b, lt);
      OrderAndTiesDetermine(a[..|a| - 1], b[..|b| - 1], lt);
      assert a == a[..|a| - 1] + [a[|a| - 1]] && b == b[..|b| - 1] + [a[|a| - 1]];
    }
  }

  lemma SortSameTies<T(!new)>(s: seq<T>, lt: (T, T) -> bool)
    requires StrictWeak(lt)
    ensures SameTies(Sort(s, lt), s, lt)
  {
    forall k ensures Ties(Sort(s, lt), k, lt) == Ties(s, k, lt) {
      assert Separates(k, lt);
      SortStable(s, k, lt);
    }
  }

  /** What is ordered and keeps ties in their order is Sort's result, and nothing else is. */
  lemma SortIsTheStableSort<T(!new)>(s: seq<T>, r: seq<T>, lt: (T, T) -> bool)
    requires StrictWeak(lt)
    ensures r == Sort(s, lt) <==> Ordered(r, lt) && SameTies(r, s, lt)
  {
    SortOrdered(s, lt);
    SortSameTies(s, lt);
    if Ordered(r, lt) && SameTies(r, s, lt) {
      OrderAndTiesDetermine(r, Sort(s, lt), lt);
    }
  }

  /** One shift of the in-place loop: the tail from k on is already behind x. */
  lemma {:induction false} InsertSplit<T>(s: seq<T>, x: T, k: nat, lt: (T, T) -> bool)
    requires k <= |s| && forall i :: k <= i < |s| ==> lt(x, s[i])
    ensures Insert(s, x, lt) == Insert(s[..k], x, lt) + s[k..]
  {
    if k < |s| {
      var n := |s| - 1;
      InsertSplit(s[..n], x, k, lt);
      assert s[..n][..k] == s[..k] && s[k..] == s[..n][k..] + [s[n]];
    } else {
      assert s[..k] == s;
    }
  }

  /** t is p with its elements from k on moved up by one; they all go behind x. */
  ghost predicate Shifted<T>(t: seq<T>, p: seq<T>, k: nat, x: T, lt: (T, T) -> bool) {
    && k <= |p| && |t| == |p| + 1
    && (forall i :: 0 <= i < k ==> t[i] == p[i])
    && (forall i :: k <= i < |p| ==> lt(x, p[i]) && t[i + 1] == p[i])
  }

  lemma ShiftOne<T>(t: seq<T>, p: seq<T>, k: nat, x: T, lt: (T, T) -> bool)
    requires 0 < k && Shifted(t, p, k, x, lt) && lt(x, p[k - 1])
    ensures Shifted(t[k := t[k - 1]], p, k - 1, x, lt)
  {}

  lemma Placed<T>(t: seq<T>, p: seq<T>, k: nat, x: T, lt: (T, T) -> bool)
    requires Shifted(t, p, k, x, lt) && (k > 0 ==> !lt(x, p[k - 1]))
    ensures t[k := x] == Insert(p, x, lt)
  {
    InsertSplit(p, x, k, lt);
    assert p[..k] == t[..k] && p[k..] == t[k + 1..];
    assert t[k := x] == (p[..k] + [x]) + p[k..];
  }

  /** Move a[i] down to its place among the i elements before it. */
  method InsertAt<T>(a: array<T>, i: nat, lt: (T, T) -> bool)
    requires i < a.Length
    modifies a
    ensures a[..i + 1] == Insert(old(a[..i]), old(a[i]), lt)
    ensures a[i + 1..] == old(a[i + 1..])
  {
    ghost var p := a[..i];
    var cur := a[i];
    var j := i - 1;
    while j >= 0 && lt(cur, a[j])
      invariant -1 <= j < i && Shifted(a[..i + 1], p, j + 1, cur, lt)
      invariant a[i + 1..] == old(a[i + 1..])
    {
      ShiftOne(a[..i + 1], p, j + 1, cur, lt);
      ghost var t := a[..i + 1];
      a[j + 1] := a[j];
      assert a[..i + 1] == t[j + 1 := t[j]];
      j := j - 1;
    }
    Placed(a[..i + 1], p, j + 1, cur, lt);
    ghost var t := a[..i + 1];
    a[j + 1] := cur;
    assert a[..i + 1] == t[j + 1 := cur];
  }

  /** The in-place insertion sort. */
  method SortInPlace<T>(a: array<T>, lt: (T, T) -> bool)
    modifies a
    ensures a[..] == Sort(old(a[..]), lt)
  {
    ghost var was := a[..];
    if a.Length == 0 {
      return;
    }
    assert was[..1][..0] == [] && a[..1] == [was[0]];
    for i := 1 to a.Length
      invariant a[..i] == Sort(was[..i], lt) && a[i..] == was[i..]
    {
      assert a[i] == a[i..][0] && a[i + 1..] == a[i..][1..] && was[i + 1..] == was[i..][1..];
      assert was[..i + 1][..i] == was[..i] && was[..i + 1][i] == was[i];
      InsertAt(a, i, lt);
    }
    assert a[..a.Length] == a[..] && was[..a.Length] == was;
  }
}
