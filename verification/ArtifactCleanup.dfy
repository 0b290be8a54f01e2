/** Artifact cleanup by age, then by size (fuzz_artifacts.go:139-170). */
module ArtifactCleanup {
  import opened StableSort

  datatype File = File(path: string, size: nat, modUnix: int)

  predicate Expired(f: File, ttlSec: int, now: int) { ttlSec > 0 && now - f.modUnix > ttlSec }

  predicate PathLess(a: string, b: string) {
    b != "" && (a == "" || a[0] < b[0] || (a[0] == b[0] && PathLess(a[1..], b[1..])))
  }

  predicate Older(a: File, b: File) {
    if a.modUnix == b.modUnix then PathLess(a.path, b.path) else a.modUnix < b.modUnix
  }

  lemma {:induction false} PathLessIrreflexive(a: string)
    ensures !PathLess(a, a)
  {
    if a != "" {
      PathLessIrreflexive(a[1..]);
    }
  }

  lemma {:induction false} PathLessTransitive(a: string, b: string, c: string)
    requires PathLess(a, b) && PathLess(b, c)
    ensures PathLess(a, c)
  {
    if a != "" && a[0] == b[0] == c[0] {
      PathLessTransitive(a[1..], b[1..], c[1..]);
    }
  }

  lemma {:induction false} PathLessSplits(a: string, b: string, c: string)
    requires PathLess(a, c)
    ensures PathLess(a, b) || PathLess(b, c)
  {
    if a != "" && b != "" && a[0] == b[0] == c[0] {
      PathLessSplits(a[1..], b[1..], c[1..]);
    }
  }

  lemma OlderIsStrictWeak()
    ensures StrictWeak(Older)
  {
    forall x: File ensures !Older(x, x) {
      PathLessIrreflexive(x.path);
    }
    forall x, y, z | Older(x, y) && Older(y, z) ensures Older(x, z) {
      if x.modUnix == y.modUnix == z.modUnix {
        PathLessTransitive(x.path, y.path, z.path);
      }
    }
    forall x, y, z | Older(x, z) ensures Older(x, y) || Older(y, z) {
      if x.modUnix == y.modUnix == z.modUnix {
        PathLessSplits(x.path, y.path, z.path);
      }
    }
  }

  function Bytes(s: seq<File>): nat {
    if s == [] then 0 else Bytes(s[..|s| - 1]) + s[|s| - 1].size
  }

  lemma {:induction false} BytesAppend(a: seq<File>, b: seq<File>)
    ensures Bytes(a + b) == Bytes(a) + Bytes(b)
  {
    if b == [] {
      assert a + b == a;
    } else {
      assert (a + b)[..|a + b| - 1] == a + b[..|b| - 1];
      BytesAppend(a, b[..|b| - 1]);
    }
  }

  lemma {:induction false} BytesInsert(s: seq<File>, x: File, lt: (File, File) -> bool)
    ensures Bytes(Insert(s, x, lt)) == Bytes(s) + x.size
  {
    if s != [] && lt(x, s[|s| - 1]) {
      var r := Insert(s[..|s| - 1], x, lt);
      BytesInsert(s[..|s| - 1], x, lt);
      assert (r + [s[|s| - 1]])[..|r|] == r;
    } else {
      assert (s + [x])[..|s|] == s;
    }
  }

  lemma {:induction false} BytesSort(s: seq<File>, lt: (File, File) -> bool)
    ensures Bytes(Sort(s, lt)) == Bytes(s)
  {
    if s != [] {
      BytesSort(s[..|s| - 1], lt);
      BytesInsert(Sort(s[..|s| - 1], lt), s[|s| - 1], lt);
    }
  }

  /** The files young enough to stay. */
  function Live(s: seq<File>, ttlSec: int, now: int): seq<File> {
    if s == [] then []
    else
      var f := s[|s| - 1];
      Live(s[..|s| - 1], ttlSec, now) + if Expired(f, ttlSec, now) then [] else [f]
  }

  lemma {:induction false} LiveMember(s: seq<File>, ttlSec: int, now: int, f: File)
    ensures f in Live(s, ttlSec, now) <==> f in s && !Expired(f, ttlSec, now)
  {
    if s != [] {
      LiveMember(s[..|s| - 1], ttlSec, now, f);
      assert s == s[..|s| - 1] + [s[|s| - 1]];
    }
  }

  /** What a pass removed and what it could not: removed + left is the input. */
  ghost predicate Split(s: seq<File>, removed: seq<File>, left: seq<File>) {
    multiset(s) == multiset(removed) + multiset(left) && Bytes(s) == Bytes(removed) + Bytes(left)
  }

  lemma SplitSnoc(s: seq<File>, removed: seq<File>, left: seq<File>, f: File)
    requires Split(s, removed, left)
    ensures Split(s + [f], removed + [f], left) && Split(s + [f], removed, left + [f])
  {
    BytesAppend(s, [f]);
    BytesAppend(removed, [f]);
    BytesAppend(left, [f]);
  }

  /** State of the age pass after the files s. */
  ghost predicate Aging(s: seq<File>, removed: seq<File>, kept: seq<File>, failures: nat, ttlSec: int, now: int) {
    && Split(s, removed, kept)
    && (forall f :: f in removed ==> Expired(f, ttlSec, now))
    && (failures == 0 ==> kept == Live(s, ttlSec, now))
  }

  lemma AgeRemove(s: seq<File>, removed: seq<File>, kept: seq<File>, failures: nat, ttlSec: int, now: int, f: File)
    requires Aging(s, removed, kept, failures, ttlSec, now) && Expired(f, ttlSec, now)
    ensures Aging(s + [f], removed + [f], kept, failures, ttlSec, now)
  {
    SplitSnoc(s, removed, kept, f);
    assert (s + [f])[..|s|] == s;
  }

  lemma AgeKeep(s: seq<File>, removed: seq<File>, kept: seq<File>, failures: nat, ttlSec: int, now: int, f: File)
    requires Aging(s, removed, kept, failures, ttlSec, now)
    ensures Aging(s + [f], removed, kept + [f], if Expired(f, ttlSec, now) then failures + 1 else failures, ttlSec, now)
  {
    SplitSnoc(s, removed, kept, f);
    assert (s + [f])[..|s|] == s;
  }

  /** The age pass; a removal may fail, and then the file is kept. */
  method RemoveExpired(files: seq<File>, ttlSec: int, now: int)
    returns (kept: seq<File>, removed: seq<File>, failures: nat)
    ensures Aging(files, removed, kept, failures, ttlSec, now)
  {
    kept, removed, failures := [], [], 0;
    for i := 0 to |files|
      invariant Aging(files[..i], removed, kept, failures, ttlSec, now)
    {
      var f := files[i];
      ghost var before := files[..i];
      assert files[..i + 1] == before + [f];
      if Expired(f, ttlSec, now) {
        var ok: bool := *;
        if ok {
          AgeRemove(before, removed, kept, failures, ttlSec, now, f);
          removed := removed + [f];
          continue;
        }
      }
      AgeKeep(before, removed, kept, failures, ttlSec, now, f);
      failures := if Expired(f, ttlSec, now) then failures + 1 else failures;
      kept := kept + [f];
    }
    assert files[..|files|] == files;
  }

  /** Dropping k files brings the rest to the cap, and dropping fewer does not. */
  predicate ShortestPrefix(s: seq<File>, maxBytes: int, k: nat) {
    k <= |s| && RestBytes(s, k) <= maxBytes && StillOver(s, maxBytes, k)
  }

  /** Dropping fewer than i files leaves too much. */
  predicate StillOver(s: seq<File>, maxBytes: int, i: nat)
    requires i <= |s|
  {
    forall j: nat :: j < i ==> RestBytes(s, j) > maxBytes
  }

  function RestBytes(s: seq<File>, j: nat): nat
    requires j <= |s|
  {
    Bytes(s[j..])
  }

  /** State of the size pass at position i of the sorted files. */
  ghost predicate Evicting(sorted: seq<File>, i: nat, evicted: seq<File>, left: seq<File>, total: int, failures: nat, maxBytes: int) {
    && i <= |sorted| && Split(sorted[..i], evicted, left) && failures == |left|
    && total == Bytes(left) + RestBytes(sorted, i)
    && (failures == 0 ==> evicted == sorted[..i] && StillOver(sorted, maxBytes, i))
  }

  lemma EvictInit(sorted: seq<File>, maxBytes: int)
    ensures Evicting(sorted, 0, [], [], Bytes(sorted), 0, maxBytes)
  {
    assert sorted[..0] == [] && sorted[0..] == sorted;
  }

  lemma EvictOne(sorted: seq<File>, i: nat, evicted: seq<File>, left: seq<File>, total: int, failures: nat, maxBytes: int,
                 evicted': seq<File>, total': int)
    requires Evicting(sorted, i, evicted, left, total, failures, maxBytes) && i < |sorted| && total > maxBytes
    requires evicted' == evicted + [sorted[i]] && total' == total - sorted[i].size
    ensures Evicting(sorted, i + 1, evicted', left, total', failures, maxBytes)
  {
    var f := sorted[i];
    assert sorted[..i + 1] == sorted[..i] + [f] && sorted[i..] == [f] + sorted[i + 1..];
    SplitSnoc(sorted[..i], evicted, left, f);
    BytesAppend([f], sorted[i + 1..]);
  }

  lemma EvictFails(sorted: seq<File>, i: nat, evicted: seq<File>, left: seq<File>, total: int, failures: nat, maxBytes: int,
                   left': seq<File>)
    requires Evicting(sorted, i, evicted, left, total, failures, maxBytes) && i < |sorted|
    requires left' == left + [sorted[i]]
    ensures Evicting(sorted, i + 1, evicted, left', total, failures + 1, maxBytes)
  {
    var f := sorted[i];
    assert sorted[..i + 1] == sorted[..i] + [f] && sorted[i..] == [f] + sorted[i + 1..];
    SplitSnoc(sorted[..i], evicted, left, f);
    BytesAppend([f], sorted[i + 1..]);
    BytesAppend(left, [f]);
  }

  lemma EvictDone(sorted: seq<File>, i: nat, evicted: seq<File>, left: seq<File>, total: int, failures: nat, maxBytes: int)
    requires Evicting(sorted, i, evicted, left, total, failures, maxBytes) && (i == |sorted| || total <= maxBytes)
    ensures Split(sorted, evicted, left + sorted[i..]) && Bytes(left + sorted[i..]) == total
    ensures failures == 0 && maxBytes > 0 ==> ShortestPrefix(sorted, maxBytes, |evicted|) && evicted == sorted[..|evicted|]
    ensures total > maxBytes ==> failures == |left + sorted[i..]|
  {
    assert sorted == sorted[..i] + sorted[i..];
    BytesAppend(sorted[..i], sorted[i..]);
    BytesAppend(left, sorted[i..]);
  }

  /** Remove one file; the removal may fail. */
  method EvictFile(sorted: seq<File>, i: nat, evicted: seq<File>, left: seq<File>, total: int, failures: nat, ghost maxBytes: int)
    returns (evicted': seq<File>, left': seq<File>, total': int, failures': nat)
    requires Evicting(sorted, i, evicted, left, total, failures, maxBytes) && i < |sorted| && total > maxBytes
    ensures Evicting(sorted, i + 1, evicted', left', total', failures', maxBytes)
  {
    evicted', left', total', failures' := evicted, left, total, failures;
    var ok: bool := *;
    if ok {
      evicted', total' := evicted + [sorted[i]], total - sorted[i].size;
      EvictOne(sorted, i, evicted, left, total, failures, maxBytes, evicted', total');
    } else {
      left', failures' := left + [sorted[i]], failures + 1;
      EvictFails(sorted, i, evicted, left, total, failures, maxBytes, left');
    }
  }

  /** The eviction loop over the sorted files. */
  method EvictLoop(sorted: seq<File>, maxBytes: int)
    returns (evicted: seq<File>, left: seq<File>, failures: nat, total: int, i: nat)
    ensures Evicting(sorted, i, evicted, left, total, failures, maxBytes)
    ensures i == |sorted| || total <= maxBytes
  {
    evicted, left, failures, total, i := [], [], 0, Bytes(sorted), 0;
    EvictInit(sorted, maxBytes);
    while i < |sorted| && total > maxBytes
      invariant Evicting(sorted, i, evicted, left, total, failures, maxBytes)
    {
      evicted, left, total, failures := EvictFile(sorted, i, evicted, left, total, failures, maxBytes);
      i := i + 1;
    }
  }

  method EvictSorted(sorted: seq<File>, maxBytes: int)
    returns (evicted: seq<File>, left: seq<File>, failures: nat)
    requires maxBytes > 0
    ensures Split(sorted, evicted, left)
    ensures failures == 0 ==> ShortestPrefix(sorted, maxBytes, |evicted|) && evicted == sorted[..|evicted|]
    ensures Bytes(left) > maxBytes ==> failures == |left|
  {
    var failed, total, i;
    evicted, failed, failures, total, i := EvictLoop(sorted, maxBytes);
    EvictDone(sorted, i, evicted, failed, total, failures, maxBytes);
    left := failed + sorted[i..];
  }

  lemma SortKeepsAll(kept: seq<File>)
    ensures multiset(Sort(kept, Older)) == multiset(kept) && Bytes(Sort(kept, Older)) == Bytes(kept)
  {
    SortMultiset(kept, Older);
    BytesSort(kept, Older);
  }

  /** The size pass: oldest first until the total is small enough; a removal may fail. When the
      total stays too large, every file that is left resisted removal. */
  method EvictOldest(kept: seq<File>, maxBytes: int)
    returns (evicted: seq<File>, left: seq<File>, failures: nat)
    ensures Split(kept, evicted, left)
    ensures maxBytes <= 0 || Bytes(kept) <= maxBytes ==> evicted == [] && failures == 0
    ensures maxBytes > 0 && failures == 0 ==>
              ShortestPrefix(Sort(kept, Older), maxBytes, |evicted|) && evicted == Sort(kept, Older)[..|evicted|]
    ensures maxBytes > 0 && Bytes(left) > maxBytes ==> failures == |left|
  {
    SortKeepsAll(kept);
    if maxBytes > 0 && Bytes(kept) > maxBytes && |kept| > 0 {
      evicted, left, failures := EvictSorted(Sort(kept, Older), maxBytes);
    } else {
      evicted, left, failures := [], kept, 0;
      assert Sort(kept, Older)[0..] == Sort(kept, Older);
    }
  }

  lemma LeftIsYoung(files: seq<File>, ttlSec: int, now: int, evicted: seq<File>, left: seq<File>)
    requires Split(Live(files, ttlSec, now), evicted, left)
    ensures forall f :: f in left ==> !Expired(f, ttlSec, now)
  {
    forall f | f in left ensures !Expired(f, ttlSec, now) {
      assert f in multiset(Live(files, ttlSec, now));
      LiveMember(files, ttlSec, now, f);
    }
  }

  /** What is left after evicting the first k of the order is the rest of the order. */
  lemma LeftIsRest(kept: seq<File>, order: seq<File>, k: nat, left: seq<File>)
    requires multiset(order) == multiset(kept) && Bytes(order) == Bytes(kept)
    requires k <= |order| && Split(kept, order[..k], left)
    ensures multiset(left) == multiset(order[k..]) && Bytes(left) == Bytes(order[k..])
  {
    var a, b := order[..k], order[k..];
    assert order == a + b;
    BytesAppend(a, b);
    CancelLeft(multiset(a), multiset(b), multiset(left));
  }

  lemma CancelLeft(a: multiset<File>, b: multiset<File>, c: multiset<File>)
    requires a + b == a + c
    ensures b == c
  {
    assert b == (a + b) - a && c == (a + c) - a;
  }

  /** The eviction order is by age, ties by path. */
  lemma OldestFirst(kept: seq<File>, i: nat, j: nat)
    requires i < j < |kept|
    ensures var order := Sort(kept, Older); !Older(order[j], order[i]) && order[i].modUnix <= order[j].modUnix
  {
    OlderIsStrictWeak();
    SortOrdered(kept, Older);
  }

  lemma SplitSizes(s: seq<File>, removed: seq<File>, left: seq<File>)
    requires Split(s, removed, left)
    ensures |s| == |removed| + |left| && multiset(left) <= multiset(s)
  {
    assert |multiset(s)| == |multiset(removed)| + |multiset(left)|;
  }

  /** runFuzzArtifactCleanup: both passes. `remaining` is what is left on disk, `evicted` what the size
      pass removed. */
  method Cleanup(files: seq<File>, ttlSec: int, maxBytes: int, now: int)
    returns (deletedFiles: nat, deletedBytes: nat, remaining: seq<File>, failures: nat, evicted: seq<File>)
    ensures Bytes(files) == deletedBytes + Bytes(remaining)
    ensures |files| == deletedFiles + |remaining|
    ensures multiset(remaining) <= multiset(files)
    ensures failures == 0 ==> forall f :: f in remaining ==> !Expired(f, ttlSec, now)
    ensures failures == 0 && maxBytes <= 0 ==> evicted == []
    ensures failures == 0 && maxBytes > 0 ==>
              var order := Sort(Live(files, ttlSec, now), Older);
              && Bytes(remaining) <= maxBytes
              && ShortestPrefix(order, maxBytes, |evicted|)
              && evicted == order[..|evicted|] && multiset(remaining) == multiset(order[|evicted|..])
    ensures maxBytes > 0 && Bytes(remaining) > maxBytes ==> failures >= |remaining|
  {
    var kept, removed, f1 := RemoveExpired(files, ttlSec, now);
    var left, f2;
    evicted, left, f2 := EvictOldest(kept, maxBytes);
    remaining, failures := left, f1 + f2;
    SplitSizes(files, removed, kept);
    SplitSizes(kept, evicted, left);
    deletedFiles, deletedBytes := |removed| + |evicted|, Bytes(removed) + Bytes(evicted);
    if failures == 0 {
      LeftIsYoung(files, ttlSec, now, evicted, left);
      if maxBytes > 0 {
        SortKeepsAll(kept);
        LeftIsRest(kept, Sort(kept, Older), |evicted|, left);
      }
    }
  }
}
