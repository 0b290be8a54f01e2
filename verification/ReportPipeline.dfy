/** The findings part of a campaign report (fuzz_campaigns.go:235-256, 2263-2291, 2454-2458;
    fuzz_report_product.go:320-438). */
module ReportPipeline {
  import opened Text
  import opened StableSort

  /** A finding; `detail` stands for the parsed detail map. */
  datatype Finding = Finding(id: string, kind: string, severity: string, detail: string, createdAt: int)

  /** IsCrashClass and StableFindingKeyFromDetail, left open. */
  datatype Classes = Classes(crashKind: string -> bool, bucketOf: (string, string) -> string)

  const TOP_LIMIT := 5
  const HYGIENE_LIMIT := 25
  const NOISE_LIMIT := 25
  const HYGIENE_KIND := "sanitizer_informational"

  datatype Level = Critical | High | Medium | Low | Other

  function NormalizeSeverity(v: string): string {
    var t := Lower(Trim(v));
    if t == "med" then "medium" else t
  }

  function LevelOf(v: string): Level {
    var t := NormalizeSeverity(v);
    if t == "critical" then Critical
    else if t == "high" then High
    else if t == "medium" then Medium
    else if t == "low" then Low
    else Other
  }

  function Rank(l: Level): int {
    match l
    case Critical => 5
    case High => 4
    case Medium => 3
    case Low => 2
    case Other => 1
  }

  predicate IsCrash(cls: Classes, f: Finding) { cls.crashKind(f.kind) }

  function Bucket(cls: Classes, f: Finding): string { cls.bucketOf(f.kind, f.detail) }

  function RankOf(f: Finding): int { Rank(LevelOf(f.severity)) }

  /** cur moves in front of prev: more severe, or a crash where prev is none, or newer. */
  predicate Before(cls: Classes, cur: Finding, prev: Finding) {
    if RankOf(cur) > RankOf(prev) then true
    else if RankOf(cur) == RankOf(prev) then
      (IsCrash(cls, cur) && !IsCrash(cls, prev)) || (IsCrash(cls, cur) == IsCrash(cls, prev) && cur.createdAt > prev.createdAt)
    else false
  }

  function Order(cls: Classes): (Finding, Finding) -> bool { (a, b) => Before(cls, a, b) }

  lemma OrderIsStrictWeak(cls: Classes)
    ensures StrictWeak(Order(cls))
  {
    var lt := Order(cls);
    forall x, y, z | lt(x, y) && lt(y, z) ensures lt(x, z) {
      OrderTransitive(cls, x, y, z);
    }
    forall x, y, z | lt(x, z) ensures lt(x, y) || lt(y, z) {
      OrderNegativelyTransitive(cls, x, y, z);
    }
  }

  lemma OrderTransitive(cls: Classes, x: Finding, y: Finding, z: Finding)
    requires Before(cls, x, y) && Before(cls, y, z)
    ensures Before(cls, x, z)
  {}

  lemma OrderNegativelyTransitive(cls: Classes, x: Finding, y: Finding, z: Finding)
    requires Before(cls, x, z)
    ensures Before(cls, x, y) || Before(cls, y, z)
  {}

  /** The in-place insertion sort of buildFuzzReport. */
  method SortFindings(cls: Classes, a: array<Finding>)
    modifies a
    ensures a[..] == Sort(old(a[..]), Order(cls))
  {
    SortInPlace(a, Order(cls));
  }

  function Keep(s: seq<Finding>, p: Finding -> bool): seq<Finding> {
    if s == [] then []
    else Keep(s[..|s| - 1], p) + if p(s[|s| - 1]) then [s[|s| - 1]] else []
  }

  lemma {:induction false} KeepMember(s: seq<Finding>, p: Finding -> bool, f: Finding)
    ensures f in Keep(s, p) <==> f in s && p(f)
  {
    if s != [] {
      KeepMember(s[..|s| - 1], p, f);
      assert s == s[..|s| - 1] + [s[|s| - 1]];
    }
  }

  lemma KeepSnoc(s: seq<Finding>, f: Finding, p: Finding -> bool)
    ensures Keep(s + [f], p) == Keep(s, p) + if p(f) then [f] else []
  {
    assert (s + [f])[..|s|] == s;
  }

  function Crashes(cls: Classes): Finding -> bool { f => IsCrash(cls, f) }
  function NonCrashes(cls: Classes): Finding -> bool { f => !IsCrash(cls, f) }

  /** The crash buckets of s. */
  function Buckets(cls: Classes, s: seq<Finding>): set<string> {
    if s == [] then {}
    else
      var f := s[|s| - 1];
      Buckets(cls, s[..|s| - 1]) + if IsCrash(cls, f) then {Bucket(cls, f)} else {}
  }

  /** The rows of s that are no crashes or the first of their bucket. */
  function Shown(cls: Classes, s: seq<Finding>): (r: seq<Finding>)
    ensures |r| <= |s|
  {
    if s == [] then []
    else
      var f := s[|s| - 1];
      Shown(cls, s[..|s| - 1]) + if IsCrash(cls, f) && Bucket(cls, f) in Buckets(cls, s[..|s| - 1]) then [] else [f]
  }

  lemma {:induction false} BucketSeen(cls: Classes, s: seq<Finding>, i: nat)
    requires i < |s| && IsCrash(cls, s[i])
    ensures Bucket(cls, s[i]) in Buckets(cls, s)
  {
    if i < |s| - 1 {
      BucketSeen(cls, s[..|s| - 1], i);
    }
  }

  lemma {:induction false} BucketFrom(cls: Classes, s: seq<Finding>, k: string) returns (i: nat)
    requires k in Buckets(cls, s)
    ensures i < |s| && IsCrash(cls, s[i]) && Bucket(cls, s[i]) == k
  {
    var t := s[..|s| - 1];
    if k in Buckets(cls, t) {
      i := BucketFrom(cls, t, k);
      assert t[i] == s[i];
    } else {
      i := |s| - 1;
    }
  }

  lemma {:induction false} ShownFrom(cls: Classes, s: seq<Finding>, k: nat) returns (i: nat)
    requires k < |Shown(cls, s)|
    ensures i < |s| && Shown(cls, s)[k] == s[i]
  {
    var t := s[..|s| - 1];
    if k < |Shown(cls, t)| {
      i := ShownFrom(cls, t, k);
    } else {
      i := |s| - 1;
    }
  }

  /** collapseCrashFindingsForReport. */
  method Collapse(cls: Classes, findings: seq<Finding>)
    returns (display: seq<Finding>, crashUnique: nat, crashDup: nat)
    ensures display == Shown(cls, findings)
    ensures crashUnique == |Buckets(cls, findings)|
    ensures |display| + crashDup == |findings|
  {
    display, crashUnique, crashDup := [], 0, 0;
    var seen: set<string> := {};
    for i := 0 to |findings|
      invariant display == Shown(cls, findings[..i]) && seen == Buckets(cls, findings[..i])
      invariant |display| + crashDup == i
    {
      var f := findings[i];
      ghost var next := findings[..i + 1];
      assert next[..i] == findings[..i] && next[i] == f;
      if !IsCrash(cls, f) {
        display := display + [f];
        continue;
      }
      var key := Bucket(cls, f);
      if key in seen {
        crashDup := crashDup + 1;
        continue;
      }
      seen := seen + {key};
      display := display + [f];
    }
    crashUnique := |seen|;
    assert findings[..|findings|] == findings;
  }

  lemma ShownSnoc(cls: Classes, t: seq<Finding>, f: Finding)
    ensures Shown(cls, t + [f]) ==
              if IsCrash(cls, f) && Bucket(cls, f) in Buckets(cls, t) then Shown(cls, t) else Shown(cls, t) + [f]
    ensures |Buckets(cls, t + [f])| == |Buckets(cls, t)| + if IsCrash(cls, f) && Bucket(cls, f) !in Buckets(cls, t) then 1 else 0
  {
    assert (t + [f])[..|t|] == t;
    if IsCrash(cls, f) && Bucket(cls, f) in Buckets(cls, t) {
      assert Buckets(cls, t) + {Bucket(cls, f)} == Buckets(cls, t);
    }
  }

  lemma OthersStep(cls: Classes, shown: seq<Finding>, shown': seq<Finding>, t: seq<Finding>, f: Finding)
    requires Keep(shown, NonCrashes(cls)) == Keep(t, NonCrashes(cls))
    requires shown' == shown + [f] || (shown' == shown && IsCrash(cls, f))
    ensures Keep(shown', NonCrashes(cls)) == Keep(t + [f], NonCrashes(cls))
  {
    KeepSnoc(shown, f, NonCrashes(cls));
    KeepSnoc(t, f, NonCrashes(cls));
  }

  lemma OthersSnoc(cls: Classes, t: seq<Finding>, f: Finding)
    requires Keep(Shown(cls, t), NonCrashes(cls)) == Keep(t, NonCrashes(cls))
    ensures Keep(Shown(cls, t + [f]), NonCrashes(cls)) == Keep(t + [f], NonCrashes(cls))
  {
    ShownSnoc(cls, t, f);
    OthersStep(cls, Shown(cls, t), Shown(cls, t + [f]), t, f);
  }

  /** Collapsing keeps every row that is no crash, in order. */
  lemma {:induction false} ShownKeepsOthers(cls: Classes, s: seq<Finding>)
    ensures Keep(Shown(cls, s), NonCrashes(cls)) == Keep(s, NonCrashes(cls))
  {
    if s != [] {
      ShownKeepsOthers(cls, s[..|s| - 1]);
      OthersSnoc(cls, s[..|s| - 1], s[|s| - 1]);
      assert s == s[..|s| - 1] + [s[|s| - 1]];
    }
  }

  lemma CrashesSnoc(cls: Classes, t: seq<Finding>, f: Finding)
    ensures |Keep(Shown(cls, t + [f]), Crashes(cls))| - |Keep(Shown(cls, t), Crashes(cls))|
         == |Buckets(cls, t + [f])| - |Buckets(cls, t)|
  {
    ShownSnoc(cls, t, f);
    KeepSnoc(Shown(cls, t), f, Crashes(cls));
  }

  /** One crash row is shown for each bucket. */
  lemma {:induction false} ShownCrashes(cls: Classes, s: seq<Finding>)
    ensures |Keep(Shown(cls, s), Crashes(cls))| == |Buckets(cls, s)|
  {
    if s != [] {
      ShownCrashes(cls, s[..|s| - 1]);
      CrashesSnoc(cls, s[..|s| - 1], s[|s| - 1]);
      assert s == s[..|s| - 1] + [s[|s| - 1]];
    }
  }

  /** Crash rows in are unique buckets plus the rows dropped. */
  lemma {:induction false} CrashesIn(cls: Classes, s: seq<Finding>)
    ensures |Keep(s, Crashes(cls))| == |Buckets(cls, s)| + (|s| - |Shown(cls, s)|)
  {
    if s != [] {
      var t, f := s[..|s| - 1], s[|s| - 1];
      CrashesIn(cls, t);
      if IsCrash(cls, f) && Bucket(cls, f) in Buckets(cls, t) {
        assert Buckets(cls, s) == Buckets(cls, t);
      }
    }
  }

  lemma {:induction false} ShownPrefix(cls: Classes, s: seq<Finding>, n: nat)
    requires n <= |s|
    ensures Shown(cls, s[..n]) <= Shown(cls, s)
  {
    if n < |s| {
      ShownPrefix(cls, s[..|s| - 1], n);
      assert s[..|s| - 1][..n] == s[..n];
    } else {
      assert s[..n] == s;
    }
  }

  lemma EarlierIsAsSevere(cls: Classes, s: seq<Finding>, j: nat, i: nat)
    requires Ordered(s, Order(cls)) && j < i < |s|
    ensures RankOf(s[j]) >= RankOf(s[i])
  {
    assert !Order(cls)(s[i], s[j]);
  }

  /** The first crash of a bucket is shown. */
  lemma FirstIsShown(cls: Classes, s: seq<Finding>, i: nat)
    requires i < |s| && IsCrash(cls, s[i]) && Bucket(cls, s[i]) !in Buckets(cls, s[..i])
    ensures s[i] in Shown(cls, s)
  {
    ShownPrefix(cls, s, i + 1);
    assert s[..i + 1] == s[..i] + [s[i]];
    ShownSnoc(cls, s[..i], s[i]);
    assert s[i] in Shown(cls, s[..i + 1]);
  }

  /** In a sorted list every crash finding is shown by a row of its bucket at least as severe. */
  lemma {:induction false} BucketRepresented(cls: Classes, s: seq<Finding>, i: nat) returns (d: Finding)
    requires Ordered(s, Order(cls)) && i < |s| && IsCrash(cls, s[i])
    ensures d in Shown(cls, s) && IsCrash(cls, d) && Bucket(cls, d) == Bucket(cls, s[i])
    ensures RankOf(d) >= RankOf(s[i])
  {
    if Bucket(cls, s[i]) in Buckets(cls, s[..i]) {
      var j := BucketFrom(cls, s[..i], Bucket(cls, s[i]));
      assert s[j] == s[..i][j];
      d := BucketRepresented(cls, s, j);
      EarlierIsAsSevere(cls, s, j, i);
    } else {
      d := s[i];
      FirstIsShown(cls, s, i);
    }
  }

  /** No two shown crash rows share a bucket. */
  lemma {:induction false} BucketsDistinct(cls: Classes, s: seq<Finding>, k: nat, l: nat)
    requires k < l < |Shown(cls, s)| && IsCrash(cls, Shown(cls, s)[k]) && IsCrash(cls, Shown(cls, s)[l])
    ensures Bucket(cls, Shown(cls, s)[k]) != Bucket(cls, Shown(cls, s)[l])
  {
    var t := Shown(cls, s[..|s| - 1]);
    if l < |t| {
      BucketsDistinct(cls, s[..|s| - 1], k, l);
    } else {
      var i := ShownFrom(cls, s[..|s| - 1], k);
      BucketSeen(cls, s[..|s| - 1], i);
    }
  }

  /** Collapsing a sorted list leaves it sorted. */
  lemma {:induction false} ShownOrdered(cls: Classes, s: seq<Finding>)
    requires Ordered(s, Order(cls))
    ensures Ordered(Shown(cls, s), Order(cls))
  {
    if s != [] {
      var t, f := s[..|s| - 1], s[|s| - 1];
      ShownOrdered(cls, t);
      forall k: nat | k < |Shown(cls, t)| ensures !Order(cls)(f, Shown(cls, t)[k]) {
        var i := ShownFrom(cls, t, k);
        assert s[i] == t[i];
      }
    }
  }

  predicate IsHygiene(cls: Classes, f: Finding) { !IsCrash(cls, f) && f.kind == HYGIENE_KIND }

  function Hygiene(cls: Classes): Finding -> bool { f => IsHygiene(cls, f) }
  function Noise(cls: Classes): Finding -> bool { f => !IsCrash(cls, f) && !IsHygiene(cls, f) }

  function Prefix(s: seq<Finding>, n: nat): seq<Finding> { if |s| <= n then s else s[..n] }

  lemma PrefixSnoc(s: seq<Finding>, f: Finding, n: nat)
    ensures Prefix(s + [f], n) == if |Prefix(s, n)| < n then Prefix(s, n) + [f] else Prefix(s, n)
  {}

  function LimitOr(limit: int, dflt: nat): nat { if limit <= 0 then dflt else limit }

  /** partitionFindingsCrashFirst: the first rows of each group, and the group sizes. Rows stand for
      their rendered issues. */
  method Partition(cls: Classes, findings: seq<Finding>, topLimit: int, noiseLimit: int)
    returns (top: seq<Finding>, hygiene: seq<Finding>, noise: seq<Finding>,
             crashCount: nat, hygieneCount: nat, noiseCount: nat)
    ensures top == Prefix(Keep(findings, Crashes(cls)), LimitOr(topLimit, TOP_LIMIT))
    ensures hygiene == Prefix(Keep(findings, Hygiene(cls)), HYGIENE_LIMIT)
    ensures noise == Prefix(Keep(findings, Noise(cls)), LimitOr(noiseLimit, NOISE_LIMIT))
    ensures crashCount == |Keep(findings, Crashes(cls))|
    ensures hygieneCount == |Keep(findings, Hygiene(cls))|
    ensures noiseCount == |Keep(findings, Noise(cls))|
    ensures crashCount + hygieneCount + noiseCount == |findings|
  {
    var tl, nl := LimitOr(topLimit, TOP_LIMIT), LimitOr(noiseLimit, NOISE_LIMIT);
    top, hygiene, noise := [], [], [];
    crashCount, hygieneCount, noiseCount := 0, 0, 0;
    for i := 0 to |findings|
      invariant Group(findings[..i], Crashes(cls), tl, top, crashCount)
      invariant Group(findings[..i], Hygiene(cls), HYGIENE_LIMIT, hygiene, hygieneCount)
      invariant Group(findings[..i], Noise(cls), nl, noise, noiseCount)
      invariant crashCount + hygieneCount + noiseCount == i
    {
      var f := findings[i];
      assert findings[..i + 1] == findings[..i] + [f];
      GroupSnoc(findings[..i], Crashes(cls), tl, top, crashCount, f);
      GroupSnoc(findings[..i], Hygiene(cls), HYGIENE_LIMIT, hygiene, hygieneCount, f);
      GroupSnoc(findings[..i], Noise(cls), nl, noise, noiseCount, f);
      if IsCrash(cls, f) {
        crashCount := crashCount + 1;
        if |top| < tl {
          top := top + [f];
        }
      } else if f.kind == HYGIENE_KIND {
        hygieneCount := hygieneCount + 1;
        if |hygiene| < HYGIENE_LIMIT {
          hygiene := hygiene + [f];
        }
      } else {
        noiseCount := noiseCount + 1;
        if |noise| < nl {
          noise := noise + [f];
        }
      }
    }
    assert findings[..|findings|] == findings;
  }

  /** shown and count are the first `limit` rows of a group and its size. */
  predicate Group(s: seq<Finding>, p: Finding -> bool, limit: nat, shown: seq<Finding>, count: nat) {
    shown == Prefix(Keep(s, p), limit) && count == |Keep(s, p)|
  }

  lemma GroupSnoc(s: seq<Finding>, p: Finding -> bool, limit: nat, shown: seq<Finding>, count: nat, f: Finding)
    requires Group(s, p, limit, shown, count)
    ensures Group(s + [f], p, limit, if p(f) && |shown| < limit then shown + [f] else shown, if p(f) then count + 1 else count)
  {
    KeepSnoc(s, f, p);
    PrefixSnoc(Keep(s, p), f, limit);
  }

  datatype Counts = Counts(critical: nat, high: nat, medium: nat, low: nat, info: nat)

  function AtLevel(cls: Classes, l: Level): Finding -> bool { f => IsCrash(cls, f) && LevelOf(f.severity) == l }

  function CountsOf(cls: Classes, s: seq<Finding>): Counts {
    Counts(|Keep(s, AtLevel(cls, Critical))|, |Keep(s, AtLevel(cls, High))|, |Keep(s, AtLevel(cls, Medium))|,
           |Keep(s, AtLevel(cls, Low))|, |Keep(s, AtLevel(cls, Other))|)
  }

  function Bump(c: Counts, l: Level): Counts {
    match l
    case Critical => c.(critical := c.critical + 1)
    case High => c.(high := c.high + 1)
    case Medium => c.(medium := c.medium + 1)
    case Low => c.(low := c.low + 1)
    case Other => c.(info := c.info + 1)
  }

  lemma CountsSnoc(cls: Classes, s: seq<Finding>, f: Finding)
    ensures CountsOf(cls, s + [f]) == if IsCrash(cls, f) then Bump(CountsOf(cls, s), LevelOf(f.severity)) else CountsOf(cls, s)
  {
    KeepSnoc(s, f, AtLevel(cls, Critical));
    KeepSnoc(s, f, AtLevel(cls, High));
    KeepSnoc(s, f, AtLevel(cls, Medium));
    KeepSnoc(s, f, AtLevel(cls, Low));
    KeepSnoc(s, f, AtLevel(cls, Other));
  }

  /** crashClassSeverityCounts. */
  method CountCrashes(cls: Classes, findings: seq<Finding>) returns (c: Counts)
    ensures c == CountsOf(cls, findings)
  {
    c := Counts(0, 0, 0, 0, 0);
    for i := 0 to |findings|
      invariant c == CountsOf(cls, findings[..i])
    {
      assert findings[..i + 1] == findings[..i] + [findings[i]];
      CountsSnoc(cls, findings[..i], findings[i]);
      if IsCrash(cls, findings[i]) {
        c := Bump(c, LevelOf(findings[i].severity));
      }
    }
    assert findings[..|findings|] == findings;
  }

  function Score(c: Counts): nat {
    c.critical * 100 + c.high * 40 + c.medium * 10 + c.low * 3 + c.info
  }

  lemma ScoreZeroCounts(c: Counts)
    ensures Score(c) == 0 <==> c == Counts(0, 0, 0, 0, 0)
  {}

  lemma AtLevelCovers(cls: Classes, s: seq<Finding>, f: Finding)
    requires f in s && IsCrash(cls, f)
    ensures CountsOf(cls, s) != Counts(0, 0, 0, 0, 0)
  {
    var l := LevelOf(f.severity);
    KeepMember(s, AtLevel(cls, l), f);
    assert AtLevel(cls, l)(f) && f in Keep(s, AtLevel(cls, l));
  }

  lemma {:induction false} NoCrashNoCounts(cls: Classes, s: seq<Finding>)
    requires forall f :: f in s ==> !IsCrash(cls, f)
    ensures CountsOf(cls, s) == Counts(0, 0, 0, 0, 0)
  {
    if s != [] {
      NoCrashNoCounts(cls, s[..|s| - 1]);
      assert s == s[..|s| - 1] + [s[|s| - 1]];
      CountsSnoc(cls, s[..|s| - 1], s[|s| - 1]);
    }
  }

  lemma CountsZeroIff(cls: Classes, s: seq<Finding>, c: Counts)
    requires c == CountsOf(cls, s)
    ensures c == Counts(0, 0, 0, 0, 0) <==> forall f :: f in s ==> !IsCrash(cls, f)
  {
    if c == Counts(0, 0, 0, 0, 0) {
      forall f | f in s ensures !IsCrash(cls, f) {
        if IsCrash(cls, f) {
          AtLevelCovers(cls, s, f);
        }
      }
    } else if forall f :: f in s ==> !IsCrash(cls, f) {
      NoCrashNoCounts(cls, s);
    }
  }

  /** A zero score means no crash-class finding at any level, and conversely. */
  lemma ScoreZeroMeansNoCrash(cls: Classes, s: seq<Finding>, c: Counts)
    requires c == CountsOf(cls, s)
    ensures Score(c) == 0 <==> forall f :: f in s ==> !IsCrash(cls, f)
  {
    ScoreZeroCounts(c);
    CountsZeroIff(cls, s, c);
  }
}
