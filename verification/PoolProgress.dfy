/** Merging coordinator snapshots into the local campaign row
    (applyPoolCampaignProgressFromCoordinator, fuzz_pool_progress.go:346-428). */
module PoolProgress {
  datatype Option<T> = None | Some(value: T)

  /** A status, trimmed and in lower case. */
  datatype Status = Completed | Cancelled | Other(name: string)

  predicate Terminal(s: Status) { s.Completed? || s.Cancelled? }

  datatype Snapshot = Snapshot(status: Status, runsDone: int, findings: int, failedChecks: int, findingsTotal: int)

  /** The merged part of a campaign row. */
  datatype Row = Row(status: Status, runsDone: int, uniqueCrashes: int, crashCount: int,
                     failedChecks: int, findingsTotal: int, completedAt: int)

  /** Snapshots without runs count only when they are terminal. */
  predicate Accepted(s: Snapshot) { s.runsDone > 0 || Terminal(s.status) }

  function Max(a: int, b: int): int { if a < b then b else a }

  function NextStatus(status: Status, budget: int, s: Snapshot): Status {
    if budget > 0 && s.runsDone >= budget then Completed
    else if Terminal(s.status) then s.status
    else status
  }

  /** The row after an accepted snapshot is merged and saved. */
  function Merge(row: Row, budget: int, s: Snapshot, now: int): Row {
    var next := NextStatus(row.status, budget, s);
    var crashes := if s.findings > row.uniqueCrashes then s.findings else row.crashCount;
    var merged := Row(next, Max(row.runsDone, s.runsDone), Max(row.uniqueCrashes, s.findings), crashes,
                      Max(row.failedChecks, s.failedChecks), Max(row.findingsTotal, s.findingsTotal), row.completedAt);
    if merged != row && Terminal(next) && row.completedAt == 0 then merged.(completedAt := now) else merged
  }

  /** The campaign table's row for one campaign, if there is one. */
  class Campaign {
    const budget: int
    var row: Option<Row>

    constructor (budget: int, row: Option<Row>)
      ensures this.budget == budget && this.row == row
    {
      this.budget, this.row := budget, row;
    }

    /** One sync. fetched is None when the coordinator knows nothing; the UPDATE may fail. closes
        tells whether the escrow close is triggered. */
    method Apply(fetched: Option<Snapshot>, closeEscrow: bool, now: int) returns (closes: bool, err: bool)
      modifies this`row
      ensures fetched.None? || !Accepted(fetched.value) || old(row).None? ==> row == old(row) && !closes && !err
      ensures err ==> row == old(row) && !closes
      ensures fetched.Some? && Accepted(fetched.value) && old(row).Some? && !err ==>
                && row == Some(Merge(old(row).value, budget, fetched.value, now))
                && closes == (closeEscrow && Terminal(row.value.status))
    {
      closes, err := false, false;
      if fetched.None? {
        return;
      }
      var rc := fetched.value;
      if rc.runsDone <= 0 && rc.status != Completed && rc.status != Cancelled {
        return;
      }
      if row.None? {
        return;
      }
      var r, changed := row.value, false;
      ghost var was := r;
      if rc.runsDone > r.runsDone {
        r, changed := r.(runsDone := rc.runsDone), true;
      }
      if rc.findings > r.uniqueCrashes {
        r, changed := r.(uniqueCrashes := rc.findings, crashCount := rc.findings), true;
      }
      if rc.failedChecks > r.failedChecks {
        r, changed := r.(failedChecks := rc.failedChecks), true;
      }
      if rc.findingsTotal > r.findingsTotal {
        r, changed := r.(findingsTotal := rc.findingsTotal), true;
      }
      var nextStatus := r.status;
      if budget > 0 && rc.runsDone >= budget {
        nextStatus := Completed;
      } else if rc.status == Completed || rc.status == Cancelled {
        nextStatus := rc.status;
      }
      if nextStatus != r.status {
        changed := true;
      }
      assert changed <==> r.(status := nextStatus) != was;
      if !changed {
        return closeEscrow && Terminal(nextStatus), false;
      }
      var saved: bool := *;
      if !saved {
        return false, true;
      }
      r := r.(status := nextStatus, completedAt := if Terminal(nextStatus) && r.completedAt == 0 then now else r.completedAt);
      row := Some(r);
      return closeEscrow && Terminal(nextStatus), false;
    }
  }

  /** A snapshot as it arrived: when, and whether its UPDATE went through. */
  datatype Arrival = Arrival(snap: Snapshot, saved: bool, now: int)

  predicate Counts(a: Arrival) { Accepted(a.snap) && a.saved }

  function MergeAll(row: Row, budget: int, arrivals: seq<Arrival>): Row {
    if arrivals == [] then row
    else
      var a := arrivals[|arrivals| - 1];
      var before := MergeAll(row, budget, arrivals[..|arrivals| - 1]);
      if Counts(a) then Merge(before, budget, a.snap, a.now) else before
  }

  datatype Counter = RunsDone | UniqueCrashes | FailedChecks | FindingsTotal

  function InRow(r: Row, c: Counter): int {
    match c
    case RunsDone => r.runsDone
    case UniqueCrashes => r.uniqueCrashes
    case FailedChecks => r.failedChecks
    case FindingsTotal => r.findingsTotal
  }

  function InSnapshot(s: Snapshot, c: Counter): int {
    match c
    case RunsDone => s.runsDone
    case UniqueCrashes => s.findings
    case FailedChecks => s.failedChecks
    case FindingsTotal => s.findingsTotal
  }

  /** v is the greatest of the start value and the values of the counted snapshots. */
  ghost predicate IsMaximum(v: int, start: int, arrivals: seq<Arrival>, c: Counter) {
    && v >= start
    && (forall a :: a in arrivals && Counts(a) ==> v >= InSnapshot(a.snap, c))
    && (v == start || exists a :: a in arrivals && Counts(a) && v == InSnapshot(a.snap, c))
  }

  /** Every counter ends at the maximum. */
  lemma {:induction false} CountersAreMaxima(row: Row, budget: int, arrivals: seq<Arrival>, c: Counter)
    ensures IsMaximum(InRow(MergeAll(row, budget, arrivals), c), InRow(row, c), arrivals, c)
  {
    if arrivals != [] {
      var n := |arrivals| - 1;
      CountersAreMaxima(row, budget, arrivals[..n], c);
      assert arrivals == arrivals[..n] + [arrivals[n]];
      assert arrivals[n] in arrivals;
    }
  }

  /** Some counted arrival carries this snapshot, at whatever time. */
  ghost predicate Arrived(arrivals: seq<Arrival>, s: Snapshot) {
    exists a :: a in arrivals && Counts(a) && a.snap == s
  }

  /** Lists of arrivals that carry the same snapshots, in any order, any number of times and at any
      times, leave the same counters. */
  lemma OrderAndRepetitionIrrelevant(row: Row, budget: int, xs: seq<Arrival>, ys: seq<Arrival>, c: Counter)
    requires forall s :: Arrived(xs, s) <==> Arrived(ys, s)
    ensures InRow(MergeAll(row, budget, xs), c) == InRow(MergeAll(row, budget, ys), c)
  {
    CounterAtLeast(row, budget, xs, ys, c);
    CounterAtLeast(row, budget, ys, xs, c);
  }

  lemma CounterAtLeast(row: Row, budget: int, xs: seq<Arrival>, ys: seq<Arrival>, c: Counter)
    requires forall s :: Arrived(xs, s) ==> Arrived(ys, s)
    ensures InRow(MergeAll(row, budget, xs), c) <= InRow(MergeAll(row, budget, ys), c)
  {
    CountersAreMaxima(row, budget, xs, c);
    CountersAreMaxima(row, budget, ys, c);
    if a :| a in xs && Counts(a) && InRow(MergeAll(row, budget, xs), c) == InSnapshot(a.snap, c) {
      assert Arrived(xs, a.snap) && Arrived(ys, a.snap);
      var b :| b in ys && Counts(b) && b.snap == a.snap;
    }
  }

  /** crash_count is no maximum: it follows unique_crashes once that has risen, and only then. */
  lemma {:induction false} CrashCountFollows(row: Row, budget: int, arrivals: seq<Arrival>)
    ensures var r := MergeAll(row, budget, arrivals);
            r.crashCount == if r.uniqueCrashes > row.uniqueCrashes then r.uniqueCrashes else row.crashCount
  {
    if arrivals != [] {
      CrashCountFollows(row, budget, arrivals[..|arrivals| - 1]);
      CountersAreMaxima(row, budget, arrivals[..|arrivals| - 1], UniqueCrashes);
    }
  }

  /** So a sync lowers crash_count exactly when unique_crashes rises to less than it. */
  lemma CrashCountFallsIff(row: Row, budget: int, arrivals: seq<Arrival>)
    ensures var r := MergeAll(row, budget, arrivals);
            r.crashCount < row.crashCount <==> row.uniqueCrashes < r.uniqueCrashes < row.crashCount
  {
    CrashCountFollows(row, budget, arrivals);
  }

  /** A terminal status stays terminal, and the completion time is set once. */
  lemma {:induction false} TerminalStays(row: Row, budget: int, arrivals: seq<Arrival>)
    requires Terminal(row.status)
    ensures Terminal(MergeAll(row, budget, arrivals).status)
    ensures row.completedAt != 0 ==> MergeAll(row, budget, arrivals).completedAt == row.completedAt
  {
    if arrivals != [] {
      TerminalStays(row, budget, arrivals[..|arrivals| - 1]);
    }
  }

  /** Which terminal status it is does depend on the order of the snapshots. */
  lemma StatusDependsOnOrder(row: Row)
    ensures var a := Arrival(Snapshot(Completed, 1, 0, 0, 0), true, 1);
            var b := Arrival(Snapshot(Cancelled, 1, 0, 0, 0), true, 1);
            MergeAll(row, 0, [a, b]).status == Cancelled && MergeAll(row, 0, [b, a]).status == Completed
  {
    var a := Arrival(Snapshot(Completed, 1, 0, 0, 0), true, 1);
    var b := Arrival(Snapshot(Cancelled, 1, 0, 0, 0), true, 1);
    assert [a, b][..1] == [a] && [b, a][..1] == [b];
  }

  /** The arrival decides a status: it reports the whole budget or is terminal itself. */
  predicate Decides(a: Arrival, budget: int) {
    Counts(a) && ((budget > 0 && a.snap.runsDone >= budget) || Terminal(a.snap.status))
  }

  /** The last deciding arrival sets the final status. */
  lemma {:induction false} LastDecisionWins(row: Row, budget: int, arrivals: seq<Arrival>, k: nat)
    requires k < |arrivals| && Decides(arrivals[k], budget)
    requires forall i :: k < i < |arrivals| ==> !Decides(arrivals[i], budget)
    ensures MergeAll(row, budget, arrivals).status == NextStatus(row.status, budget, arrivals[k].snap)
  {
    if k < |arrivals| - 1 {
      LastDecisionWins(row, budget, arrivals[..|arrivals| - 1], k);
    }
  }
}
