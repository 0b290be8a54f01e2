/** Verdict and release gate of a campaign report (fuzz_campaigns.go:2292-2458, 2756-2832). */
module ReportGate {
  import opened Text
  import opened ReportPipeline
  import opened StableSort

  datatype Option<T> = None | Some(value: T)

  datatype Verdict =
    | Clean | FailCritical | FailHigh | WarnMedium | WarnCrash
    | WarnPoolFindings | SyncFailed | Incomplete | Cancelled

  /** What the report reads of the campaign row; syncError is a failed coordinator refresh. */
  datatype Campaign = Campaign(pool: bool, syncError: bool, runsDone: int, executions: int,
                               uniqueCrashes: int, crashCount: int, cancelled: bool)

  function Runs(c: Campaign): int { if c.runsDone == 0 then c.executions else c.runsDone }

  function PoolHint(c: Campaign): int { if c.uniqueCrashes == 0 then c.crashCount else c.uniqueCrashes }

  /** The campaign did work, and a pool campaign is in step with its coordinator. */
  predicate Healthy(c: Campaign) {
    Runs(c) > 0 && (c.pool ==> !c.syncError && PoolHint(c) <= 0)
  }

  /** Exactly when the embedded gate passes; crashCount counts shown crash rows of the window, counts
      and score the crash findings of the campaign. */
  predicate Passes(counts: Counts, score: nat, crashCount: nat, c: Campaign) {
    counts.critical == 0 && counts.high == 0 && score == 0
    && (Healthy(c) || counts.medium > 0 || crashCount > 0)
  }

  /** Exactly when the verdict is clean. */
  predicate IsClean(counts: Counts, crashCount: nat, c: Campaign) {
    counts.critical == 0 && counts.high == 0 && counts.medium == 0 && crashCount == 0 && Healthy(c)
  }

  /** Verdict and embedded gate. */
  method Judge(counts: Counts, score: nat, crashCount: nat, c: Campaign) returns (verdict: Verdict, pass: bool)
    ensures pass <==> Passes(counts, score, crashCount, c)
    ensures verdict == Clean <==> IsClean(counts, crashCount, c)
    ensures verdict == FailCritical <==> counts.critical > 0
    ensures verdict == FailHigh <==> counts.critical == 0 && counts.high > 0
    ensures verdict == WarnMedium <==> counts.critical == 0 && counts.high == 0 && counts.medium > 0
    ensures verdict.WarnPoolFindings? || verdict.SyncFailed? ==> c.pool
    ensures verdict.Incomplete? || verdict.Cancelled? ==> Runs(c) <= 0 && (verdict.Cancelled? <==> c.cancelled)
  {
    verdict := Clean;
    if counts.critical > 0 {
      verdict := FailCritical;
    } else if counts.high > 0 {
      verdict := FailHigh;
    } else if counts.medium > 0 {
      verdict := WarnMedium;
    } else if crashCount > 0 {
      verdict := WarnCrash;
    }
    var runs, hint := Runs(c), PoolHint(c);
    if c.pool && crashCount == 0 && hint > 0 && verdict == Clean {
      verdict := WarnPoolFindings;
    }
    if c.pool && c.syncError && verdict == Clean && runs > 0 {
      verdict := SyncFailed;
    }
    if verdict == Clean && runs <= 0 {
      verdict := if c.cancelled then Cancelled else Incomplete;
    }
    pass := counts.critical <= 0 && counts.high <= 0 && score <= 0;
    if verdict == Incomplete || verdict == Cancelled {
      pass := false;
    } else if verdict == WarnPoolFindings {
      pass := false;
    } else if verdict == SyncFailed {
      pass := false;
    }
  }

  datatype Thresholds = Thresholds(maxCritical: nat, maxHigh: nat, maxScore: nat, minSample: nat, minRuns: nat)

  const DEFAULTS := Thresholds(0, 0, 0, 0, 0)

  /** The grouped rows of the report and their numbers. */
  datatype Rows = Rows(top: seq<Finding>, hygiene: seq<Finding>, noise: seq<Finding>,
                       crashCount: nat, crashUnique: nat, crashDup: nat, visible: nat, hidden: nat)

  datatype Report = Report(findings: seq<Finding>, rows: Rows, counts: Counts, score: nat, runs: int, verdict: Verdict, pass: bool)

  /** The /gate endpoint, which decides from the counts and ignores the verdict. */
  predicate GateEndpoint(r: Report, t: Thresholds) {
    && r.counts.critical <= t.maxCritical && r.counts.high <= t.maxHigh && r.score <= t.maxScore
    && |r.findings| >= t.minSample && r.runs >= t.minRuns
  }

  /** The campaign's findings in the order of the query, newest first. */
  predicate NewestFirst(all: seq<Finding>) {
    forall i, j :: 0 <= i < j < |all| ==> all[i].createdAt >= all[j].createdAt
  }

  ghost predicate NoCrash(cls: Classes, all: seq<Finding>) {
    forall f :: f in all ==> !IsCrash(cls, f)
  }

  /** The rows a report reads: the newest `limit` findings. */
  function Window(all: seq<Finding>, limit: nat): seq<Finding> { Prefix(all, limit) }

  /** Crash findings of the campaign lie beyond the rows read, and none within. */
  ghost predicate Missed(cls: Classes, all: seq<Finding>, limit: nat) {
    limit < |all| && NoCrash(cls, Window(all, limit)) && !NoCrash(cls, all[limit..])
  }

  lemma MissedIff(cls: Classes, all: seq<Finding>, limit: nat)
    ensures Missed(cls, all, limit) <==> NoCrash(cls, Window(all, limit)) && !NoCrash(cls, all)
    ensures |all| <= limit ==> !Missed(cls, all, limit)
  {
    if limit < |all| {
      assert all == all[..limit] + all[limit..];
      assert forall f :: f in all <==> f in all[..limit] || f in all[limit..];
    }
  }

  lemma SortMember(cls: Classes, rows: seq<Finding>, f: Finding)
    ensures f in Sort(rows, Order(cls)) <==> f in rows
  {
    SortMultiset(rows, Order(cls));
    assert f in multiset(Sort(rows, Order(cls))) <==> f in multiset(rows);
  }

  lemma SortNoCrash(cls: Classes, rows: seq<Finding>)
    ensures NoCrash(cls, Sort(rows, Order(cls))) <==> NoCrash(cls, rows)
  {
    forall f ensures f in Sort(rows, Order(cls)) <==> f in rows {
      SortMember(cls, rows, f);
    }
  }

  /** The crash rows shown are none exactly when no row is a crash. */
  lemma NoneShownIff(cls: Classes, s: seq<Finding>)
    ensures Keep(Shown(cls, s), Crashes(cls)) == [] <==> NoCrash(cls, s)
  {
    if f :| f in s && IsCrash(cls, f) {
      var i: nat :| i < |s| && s[i] == f;
      BucketSeen(cls, s, i);
      ShownCrashes(cls, s);
    } else if Keep(Shown(cls, s), Crashes(cls)) != [] {
      ShownFromCrash(cls, s);
    }
  }

  lemma ShownFromCrash(cls: Classes, s: seq<Finding>)
    requires Keep(Shown(cls, s), Crashes(cls)) != []
    ensures exists f :: f in s && IsCrash(cls, f)
  {
    var f := Keep(Shown(cls, s), Crashes(cls))[0];
    KeepMember(Shown(cls, s), Crashes(cls), f);
    var k: nat :| k < |Shown(cls, s)| && Shown(cls, s)[k] == f;
    var i := ShownFrom(cls, s, k);
    assert s[i] in s;
  }

  /** The first rows of each group are shown, and every number adds up. */
  predicate Tallied(cls: Classes, findings: seq<Finding>, r: Rows) {
    && r.top == Prefix(Keep(Shown(cls, findings), Crashes(cls)), TOP_LIMIT)
    && r.hygiene == Prefix(Keep(Shown(cls, findings), Hygiene(cls)), HYGIENE_LIMIT)
    && r.noise == Prefix(Keep(Shown(cls, findings), Noise(cls)), NOISE_LIMIT)
    && r.crashCount == r.crashUnique == |Keep(Shown(cls, findings), Crashes(cls))|
    && |Keep(findings, Crashes(cls))| == r.crashUnique + r.crashDup
    && r.visible == |r.top| + |r.hygiene| + |r.noise|
    && r.visible + r.hidden == |Shown(cls, findings)| == |findings| - r.crashDup
  }

  /** Collapse, group and count; the hidden rows never come out negative. */
  method GroupRows(cls: Classes, findings: seq<Finding>) returns (r: Rows)
    ensures Tallied(cls, findings, r)
  {
    var display, crashUnique, crashDup := Collapse(cls, findings);
    ShownCrashes(cls, findings);
    CrashesIn(cls, findings);
    var top, hygiene, noise, crashCount, hygieneCount, noiseCount := Partition(cls, display, TOP_LIMIT, NOISE_LIMIT);
    var visible := |top| + |hygiene| + |noise|;
    var hidden := (crashCount - |top|) + (hygieneCount - |hygiene|) + (noiseCount - |noise|);
    if hidden < 0 {
      hidden := 0;
    }
    r := Rows(top, hygiene, noise, crashCount, crashUnique, crashDup, visible, hidden);
  }

  /** What the verdict and the gate of a report rest on. covered are the findings its counts cover:
      all of the campaign's, or the rows read when the query over the whole campaign failed. */
  ghost predicate Judged(cls: Classes, r: Report, covered: seq<Finding>, read: seq<Finding>, c: Campaign) {
    && (r.score == 0 <==> NoCrash(cls, covered))
    && (r.score == 0 <==> r.counts == Counts(0, 0, 0, 0, 0))
    && (r.rows.crashCount == 0 <==> NoCrash(cls, read))
    && (NoCrash(cls, covered) ==> NoCrash(cls, read))
    && r.runs == Runs(c)
    && r.pass == Passes(r.counts, r.score, r.rows.crashCount, c)
    && (r.verdict == Clean <==> IsClean(r.counts, r.rows.crashCount, c))
  }

  function Covered(all: seq<Finding>, limit: nat, full: bool): seq<Finding> {
    if full then all else Window(all, limit)
  }

  lemma CoveredHasWindow(cls: Classes, all: seq<Finding>, limit: nat, full: bool)
    ensures NoCrash(cls, Covered(all, limit, full)) ==> NoCrash(cls, Window(all, limit))
  {
    assert forall f :: f in Window(all, limit) ==> f in all;
  }

  /** The counts over the rows read, which the sort permutes, tell whether one of them is a crash. */
  lemma WindowScore(cls: Classes, read: seq<Finding>, counts: Counts)
    requires counts == CountsOf(cls, Sort(read, Order(cls)))
    ensures Score(counts) == 0 <==> NoCrash(cls, read)
  {
    SortNoCrash(cls, read);
    ScoreZeroMeansNoCrash(cls, Sort(read, Order(cls)), counts);
  }

  /** And so does the number of crash rows shown. */
  lemma WindowCrashRows(cls: Classes, read: seq<Finding>, n: nat)
    requires n == |Keep(Shown(cls, Sort(read, Order(cls))), Crashes(cls))|
    ensures n == 0 <==> NoCrash(cls, read)
  {
    SortNoCrash(cls, read);
    NoneShownIff(cls, Sort(read, Order(cls)));
  }

  /** Counts and score: of the whole campaign when its query went through, of the rows read otherwise. */
  method CountAndScore(cls: Classes, findings: seq<Finding>, full: Option<Counts>, ghost all: seq<Finding>, ghost read: seq<Finding>)
    returns (counts: Counts, score: nat)
    requires findings == Sort(read, Order(cls))
    requires full.Some? ==> full.value == CountsOf(cls, all)
    ensures counts == (if full.Some? then full.value else CountsOf(cls, findings)) && score == Score(counts)
    ensures score == 0 <==> counts == Counts(0, 0, 0, 0, 0)
    ensures score == 0 <==> NoCrash(cls, if full.Some? then all else read)
  {
    counts := CountCrashes(cls, findings);
    WindowScore(cls, read, counts);
    if full.Some? {
      counts := full.value;
      ScoreZeroMeansNoCrash(cls, all, counts);
    }
    score := Score(counts);
    ScoreZeroCounts(counts);
  }

  /** Everything after the sort. */
  method Assemble(cls: Classes, findings: seq<Finding>, full: Option<Counts>, c: Campaign, ghost all: seq<Finding>, ghost limit: nat)
    returns (r: Report)
    requires findings == Sort(Window(all, limit), Order(cls))
    requires full.Some? ==> full.value == CountsOf(cls, all)
    ensures r.findings == findings && Tallied(cls, findings, r.rows)
    ensures r.counts == (if full.Some? then full.value else CountsOf(cls, findings)) && r.score == Score(r.counts)
    ensures Judged(cls, r, Covered(all, limit, full.Some?), Window(all, limit), c)
  {
    var grouped := GroupRows(cls, findings);
    WindowCrashRows(cls, Window(all, limit), grouped.crashCount);
    var counts, score := CountAndScore(cls, findings, full, all, Window(all, limit));
    CoveredHasWindow(cls, all, limit, full.Some?);
    r := JudgeReport(cls, findings, grouped, counts, score, c, Covered(all, limit, full.Some?), Window(all, limit));
  }

  method JudgeReport(cls: Classes, findings: seq<Finding>, rows: Rows, counts: Counts, score: nat, c: Campaign,
                     ghost covered: seq<Finding>, ghost read: seq<Finding>)
    returns (r: Report)
    requires score == 0 <==> NoCrash(cls, covered)
    requires score == 0 <==> counts == Counts(0, 0, 0, 0, 0)
    requires rows.crashCount == 0 <==> NoCrash(cls, read)
    requires NoCrash(cls, covered) ==> NoCrash(cls, read)
    ensures r.findings == findings && r.rows == rows && r.counts == counts && r.score == score
    ensures Judged(cls, r, covered, read, c)
  {
    var verdict, pass := Judge(counts, score, rows.crashCount, c);
    r := Report(findings, rows, counts, score, Runs(c), verdict, pass);
  }

  /** buildFuzzReport over the rows read. full is fullCrashClassSeverityCounts, which may fail. */
  method BuildReport(cls: Classes, rows: array<Finding>, full: Option<Counts>, c: Campaign,
                     ghost all: seq<Finding>, ghost limit: nat)
    returns (r: Report)
    requires limit >= 1 && NewestFirst(all) && rows[..] == Window(all, limit)
    requires full.Some? ==> full.value == CountsOf(cls, all)
    modifies rows
    ensures r.findings == rows[..] == Sort(Window(all, limit), Order(cls)) && Tallied(cls, r.findings, r.rows)
    ensures r.counts == (if full.Some? then full.value else CountsOf(cls, r.findings)) && r.score == Score(r.counts)
    ensures Judged(cls, r, Covered(all, limit, full.Some?), Window(all, limit), c)
  {
    SortFindings(cls, rows);
    r := Assemble(cls, rows[..], full, c, all, limit);
  }

  /** The gate, both ways: it passes exactly when the findings its counts cover hold no crash, and
      the campaign is healthy; the verdict is then clean and the endpoint passes by default. */
  lemma PassesIff(cls: Classes, r: Report, covered: seq<Finding>, read: seq<Finding>, c: Campaign)
    requires Judged(cls, r, covered, read, c)
    ensures r.pass <==> NoCrash(cls, covered) && Healthy(c)
    ensures r.pass ==> r.verdict == Clean && GateEndpoint(r, DEFAULTS)
  {
  }

  /** A pass with a crash in the campaign: exactly when the whole-campaign query failed, the campaign
      is healthy, and its crashes all lie beyond the rows read. A campaign with no more findings than
      the limit is never judged wrongly. */
  lemma UnsoundPassIff(cls: Classes, r: Report, all: seq<Finding>, limit: nat, full: bool, c: Campaign)
    requires Judged(cls, r, Covered(all, limit, full), Window(all, limit), c)
    ensures r.pass && !NoCrash(cls, all) <==> !full && Healthy(c) && Missed(cls, all, limit)
    ensures |all| <= limit ==> (r.pass <==> NoCrash(cls, all) && Healthy(c))
  {
    PassesIff(cls, r, Covered(all, limit, full), Window(all, limit), c);
    MissedIff(cls, all, limit);
  }

  /** A clean verdict without a pass: exactly when the whole-campaign query went through and found
      crashes of low or unclassified severity only, all beyond the rows read. */
  lemma CleanWithoutPassIff(cls: Classes, r: Report, all: seq<Finding>, limit: nat, full: bool, c: Campaign)
    requires Judged(cls, r, Covered(all, limit, full), Window(all, limit), c)
    ensures r.verdict == Clean && !r.pass <==>
              && full && Healthy(c) && Missed(cls, all, limit)
              && r.counts.critical == 0 && r.counts.high == 0 && r.counts.medium == 0
  {
    PassesIff(cls, r, Covered(all, limit, full), Window(all, limit), c);
    MissedIff(cls, all, limit);
  }

  /** `limit` newer findings that are no crashes, over one old crash. */
  function Buried(limit: nat, quiet: string, crash: string, severity: string): (all: seq<Finding>)
    ensures |all| == limit + 1
  {
    seq(limit + 1, i requires 0 <= i <= limit =>
      Finding(Decimal(i), if i < limit then quiet else crash, if i < limit then "info" else severity, "", limit - i))
  }

  lemma BuriedIds(limit: nat, quiet: string, crash: string, severity: string)
    ensures var all := Buried(limit, quiet, crash, severity);
            NewestFirst(all) && forall i, j :: 0 <= i < j < |all| ==> all[i].id != all[j].id
  {
    var all := Buried(limit, quiet, crash, severity);
    forall i, j | 0 <= i < j < |all| ensures all[i].id != all[j].id {
      if all[i].id == all[j].id {
        DecimalInjective(i, j);
      }
    }
  }

  lemma BuriedCounts(cls: Classes, limit: nat, quiet: string, crash: string, severity: string)
    requires !cls.crashKind(quiet) && cls.crashKind(crash)
    ensures var all := Buried(limit, quiet, crash, severity);
            && NoCrash(cls, Window(all, limit)) && IsCrash(cls, all[limit])
            && CountsOf(cls, all) == Bump(Counts(0, 0, 0, 0, 0), LevelOf(severity))
  {
    var all := Buried(limit, quiet, crash, severity);
    var w, f := all[..limit], all[limit];
    assert forall i :: 0 <= i < limit ==> w[i] == all[i];
    assert all == w + [f];
    NoCrashNoCounts(cls, w);
    CountsSnoc(cls, w, f);
  }

  /** Such campaigns exist for every limit, with findings of distinct ids. */
  lemma BuriedIsMissed(cls: Classes, limit: nat, quiet: string, crash: string, severity: string)
    requires limit >= 1 && !cls.crashKind(quiet) && cls.crashKind(crash)
    ensures var all := Buried(limit, quiet, crash, severity);
            && NewestFirst(all) && Missed(cls, all, limit)
            && (forall i, j :: 0 <= i < j < |all| ==> all[i].id != all[j].id)
            && CountsOf(cls, all) == Bump(Counts(0, 0, 0, 0, 0), LevelOf(severity))
  {
    var all := Buried(limit, quiet, crash, severity);
    BuriedIds(limit, quiet, crash, severity);
    BuriedCounts(cls, limit, quiet, crash, severity);
    MissedIff(cls, all, limit);
    assert all[limit] in all;
  }

  /** The /gate endpoint ignores the campaign's health: of all reports, those it passes by default and
      the embedded gate does not are the ones without a counted crash on a campaign that is not healthy
      and whose runs are not negative. */
  lemma EndpointIgnoresHealth(cls: Classes, r: Report, covered: seq<Finding>, read: seq<Finding>, c: Campaign)
    requires Judged(cls, r, covered, read, c)
    ensures r.pass <==> GateEndpoint(r, DEFAULTS) && Healthy(c)
    ensures GateEndpoint(r, DEFAULTS) && !r.pass <==> NoCrash(cls, covered) && Runs(c) >= 0 && !Healthy(c)
  {
    PassesIff(cls, r, covered, read, c);
  }
}
