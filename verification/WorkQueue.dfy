/** The lease-based work queue of one campaign (fuzz_runner.go:79-254, 434-458, 622-694). */
module WorkQueue {
  datatype Option<T> = None | Some(value: T)

  datatype Status = Pending | Leased | Done | Failed

  /** A row of fuzz_work_items. Rows are kept in id order; nothing deletes them. */
  datatype Item = Item(inputN: nat, status: Status, attempts: nat, leaseUntil: int, resultOk: bool)

  /** What executeWorkItem did: an error before any status write, a trap, or a finished check.
      A trap's status write may be lost, because its error is dropped. */
  datatype Outcome = Aborted | TrapUnrecorded | Trapped | Finished(pass: bool)

  predicate Recorded(o: Outcome) { o.Trapped? || o.Finished? }

  predicate Settled(it: Item) { it.status == Done || it.status == Failed }

  /** The SELECT of claimWorkItem. */
  predicate Claimable(it: Item, max: nat, now: int) {
    it.attempts < max && (it.status == Pending || (it.status == Leased && it.leaseUntil < now))
  }

  /** The guard of the conditional UPDATE, which does not look at attempts. */
  predicate Takeable(it: Item, now: int) {
    it.status == Pending || (it.status == Leased && it.leaseUntil < now)
  }

  /** The lowest claimable id from k on, or the number of items. */
  function Lowest(items: seq<Item>, max: nat, now: int, k: nat): (id: nat)
    requires k <= |items|
    ensures k <= id <= |items|
    ensures id < |items| ==> Claimable(items[id], max, now)
    ensures forall i :: k <= i < id ==> !Claimable(items[i], max, now)
    decreases |items| - k
  {
    if k == |items| || Claimable(items[k], max, now) then k else Lowest(items, max, now, k + 1)
  }

  function Lease(it: Item, until: int): Item { it.(status := Leased, leaseUntil := until) }

  /** The status write that ends an execution claimed at `attempts`. */
  function Record(it: Item, attempts: nat, max: nat, o: Outcome): Item {
    match o
    case Aborted => it
    case TrapUnrecorded => it
    case Trapped =>
      it.(status := if attempts + 1 >= max then Failed else Pending, attempts := it.attempts + 1, leaseUntil := 0)
    case Finished(pass) =>
      it.(status := Done, attempts := it.attempts + 1, leaseUntil := 0, resultOk := pass)
  }

  /** Row number i of a queue with this attempt limit. */
  predicate ItemOk(it: Item, i: nat, max: nat) {
    && it.inputN == i + 1
    && it.attempts <= max
    && (it.status == Failed ==> it.attempts == max > 0)
    && (!Settled(it) && max > 0 ==> it.attempts < max)
    && (max == 0 ==> it.status == Pending)
  }

  predicate QueueOk(items: seq<Item>, max: nat, budget: nat) {
    |items| <= budget && forall i :: 0 <= i < |items| ==> ItemOk(items[i], i, max)
  }

  /** Attempts left over the unfinished items. */
  function AttemptsLeft(items: seq<Item>, max: nat): nat {
    if items == [] then 0
    else
      var it := items[|items| - 1];
      AttemptsLeft(items[..|items| - 1], max) + if Settled(it) || it.attempts > max then 0 else max - it.attempts
  }

  /** Attempts left, with the items still to be created. */
  function Potential(items: seq<Item>, max: nat, budget: nat): nat
    requires |items| <= budget
  {
    AttemptsLeft(items, max) + max * (budget - |items|)
  }

  /** How far one row's update moves the sum. */
  lemma {:induction false} AttemptsLeftUpdate(items: seq<Item>, max: nat, id: nat, it: Item)
    requires id < |items| && items[id].attempts <= max && it.attempts <= max
    ensures AttemptsLeft(items[id := it], max)
         == AttemptsLeft(items, max)
            - (if Settled(items[id]) then 0 else max - items[id].attempts)
            + (if Settled(it) then 0 else max - it.attempts)
  {
    var n := |items| - 1;
    if id == n {
      assert items[id := it][..n] == items[..n];
    } else {
      assert items[id := it][..n] == items[..n][id := it];
      AttemptsLeftUpdate(items[..n], max, id, it);
    }
  }

  lemma {:induction false} AttemptsLeftZero(items: seq<Item>, max: nat)
    requires max > 0 && forall i :: 0 <= i < |items| ==> ItemOk(items[i], i, max)
    ensures AttemptsLeft(items, max) == 0 <==> forall i :: 0 <= i < |items| ==> Settled(items[i])
  {
    if items != [] {
      var n := |items| - 1;
      assert forall i :: 0 <= i < n ==> items[..n][i] == items[i];
      AttemptsLeftZero(items[..n], max);
      assert ItemOk(items[n], n, max);
      if forall i :: 0 <= i < |items| ==> Settled(items[i]) {
        forall i | 0 <= i < n ensures Settled(items[..n][i]) {
          assert items[..n][i] == items[i];
        }
      }
    }
  }

  /** A recorded execution of a leased row uses up at least one attempt; anything else uses none. */
  lemma RecordFalls(items: seq<Item>, max: nat, budget: nat, id: nat, o: Outcome)
    requires QueueOk(items, max, budget) && id < |items| && items[id].status == Leased
    ensures var after := items[id := Record(items[id], items[id].attempts, max, o)];
            && QueueOk(after, max, budget)
            && Potential(after, max, budget) + (if Recorded(o) then 1 else 0) <= Potential(items, max, budget)
  {
    assert ItemOk(items[id], id, max);
    AttemptsLeftUpdate(items, max, id, Record(items[id], items[id].attempts, max, o));
  }

  lemma LeaseKeeps(items: seq<Item>, max: nat, budget: nat, id: nat, until: int)
    requires QueueOk(items, max, budget) && id < |items| && !Settled(items[id]) && max > 0
    ensures var after := items[id := Lease(items[id], until)];
            QueueOk(after, max, budget) && Potential(after, max, budget) == Potential(items, max, budget)
  {
    assert ItemOk(items[id], id, max);
    AttemptsLeftUpdate(items, max, id, Lease(items[id], until));
  }

  lemma AddKeeps(items: seq<Item>, max: nat, budget: nat)
    requires QueueOk(items, max, budget) && |items| < budget
    ensures var after := items + [Item(|items| + 1, Pending, 0, 0, false)];
            QueueOk(after, max, budget) && Potential(after, max, budget) == Potential(items, max, budget)
  {
    var after := items + [Item(|items| + 1, Pending, 0, 0, false)];
    assert after[..|items|] == items;
    var gap := budget - |items|;
    assert max * gap == max * (gap - 1) + max;
  }

  /** No potential left: every item of the budget exists and is done or failed. */
  lemma PotentialZero(items: seq<Item>, max: nat, budget: nat)
    requires QueueOk(items, max, budget) && max > 0
    ensures Potential(items, max, budget) == 0 <==>
              |items| == budget && forall i :: 0 <= i < |items| ==> Settled(items[i])
  {
    AttemptsLeftZero(items, max);
    ProductZero(max, budget - |items|);
  }

  lemma ProductZero(a: nat, b: nat)
    requires a > 0
    ensures a * b == 0 <==> b == 0
  {
    if b > 0 {
      assert a * b >= b;
    }
  }

  function CountDone(items: seq<Item>): (n: nat)
    ensures n <= |items|
  {
    if items == [] then 0
    else CountDone(items[..|items| - 1]) + if items[|items| - 1].status == Done then 1 else 0
  }

  lemma {:induction false} CountDoneFull(items: seq<Item>)
    ensures CountDone(items) == |items| <==> forall i :: 0 <= i < |items| ==> items[i].status == Done
  {
    if items != [] {
      var n := |items| - 1;
      CountDoneFull(items[..n]);
      assert forall i :: 0 <= i < n ==> items[..n][i] == items[i];
      if forall i :: 0 <= i < |items| ==> items[i].status == Done {
        forall i | 0 <= i < n ensures items[..n][i].status == Done {
          assert items[..n][i] == items[i];
        }
      }
    }
  }

  /** Rows only move forward: a settled row never changes, input numbers stay, attempts never fall. */
  predicate Forward(a: seq<Item>, b: seq<Item>) {
    && |a| <= |b|
    && (forall i :: 0 <= i < |a| ==>
          (Settled(a[i]) ==> b[i] == a[i]) && b[i].inputN == a[i].inputN && a[i].attempts <= b[i].attempts)
  }

  lemma ForwardTrans(a: seq<Item>, b: seq<Item>, c: seq<Item>)
    requires Forward(a, b) && Forward(b, c)
    ensures Forward(a, c)
  {}

  predicate AnyClaimable(items: seq<Item>, max: nat, now: int) {
    exists i :: 0 <= i < |items| && Claimable(items[i], max, now)
  }

  /** status after recomputeCampaignProgress, with done rows counted (fuzz_runner.go:679-688). */
  predicate Completes(items: seq<Item>, budgetRuns: int, budgetSeconds: int, startedAt: int, now: int) {
    || (budgetRuns > 0 && CountDone(items) >= budgetRuns)
    || (budgetSeconds > 0 && startedAt > 0 && now - startedAt >= budgetSeconds)
  }

  /** Without a time budget a campaign completes exactly when its whole run budget is done, so one
      failed item keeps it open. */
  lemma CompletesIffAllDone(items: seq<Item>, max: nat, budget: nat, startedAt: int, now: int)
    requires QueueOk(items, max, budget)
    ensures Completes(items, budget, 0, startedAt, now) <==>
              budget > 0 && |items| == budget && forall i :: 0 <= i < |items| ==> items[i].status == Done
  {
    CountDoneFull(items);
  }

  lemma FailedNeverCompletes(a: seq<Item>, b: seq<Item>, max: nat, budget: nat, id: nat, startedAt: int, now: int)
    requires QueueOk(b, max, budget) && Forward(a, b) && id < |a| && a[id].status == Failed
    ensures !Completes(b, budget, 0, startedAt, now)
  {
    CompletesIffAllDone(b, max, budget, startedAt, now);
    assert b[id] == a[id];
  }

  /** One campaign's queue, worked by one runner at a time. */
  class Queue {
    const max: nat
    const budget: nat
    const leaseSec: nat
    var items: seq<Item>

    ghost predicate Valid()
      reads this
    {
      QueueOk(items, max, budget)
    }

    ghost function Left(): nat
      requires Valid()
      reads this
    {
      Potential(items, max, budget)
    }

    constructor (max: nat, budget: nat, leaseSec: nat)
      ensures Valid() && items == [] && Left() == max * budget
      ensures this.max == max && this.budget == budget
    {
      this.max, this.budget, this.leaseSec := max, budget, leaseSec;
      items := [];
    }

    /** ensureWorkItemsForCampaign: the next input numbers, at most queueDepth of them. INSERT OR
        IGNORE skips a number that exists; an insert may fail. */
    method EnsureItems(queueDepth: nat) returns (err: bool)
      requires Valid()
      modifies this`items
      ensures Valid() && Left() == old(Left()) && old(items) <= items
      ensures forall i :: |old(items)| <= i < |items| ==> items[i] == Item(i + 1, Pending, 0, 0, false)
      ensures !err ==> |items| == if |old(items)| + queueDepth < budget then |old(items)| + queueDepth else budget
    {
      var existing := |items|;
      if existing >= budget {
        return false;
      }
      var toCreate := budget - existing;
      if toCreate > queueDepth {
        toCreate := queueDepth;
      }
      for i := 0 to toCreate
        invariant Valid() && Left() == old(Left()) && |items| == existing + i && old(items) <= items
        invariant forall k :: existing <= k < |items| ==> items[k] == Item(k + 1, Pending, 0, 0, false)
      {
        var failed: bool := *;
        if failed {
          return true;
        }
        var inputN := existing + i + 1;
        if forall k :: 0 <= k < |items| ==> items[k].inputN != inputN {
          AddKeeps(items, max, budget);
          items := items + [Item(inputN, Pending, 0, 0, false)];
        } else {
          assert false;
        }
      }
      return false;
    }

    /** claimWorkItem: the lowest claimable row, leased from now on. */
    method Claim(now: int) returns (id: Option<nat>)
      requires Valid()
      modifies this`items
      ensures Valid() && Left() == old(Left()) && Forward(old(items), items)
      ensures id.None? <==> !AnyClaimable(old(items), max, now)
      ensures id.None? ==> items == old(items)
      ensures id.Some? ==>
                && id.value < |items| == |old(items)| && Claimable(old(items)[id.value], max, now)
                && (forall j :: 0 <= j < id.value ==> !Claimable(old(items)[j], max, now))
                && items == old(items)[id.value := Lease(old(items)[id.value], now + leaseSec)]
    {
      var k := Lowest(items, max, now, 0);
      if k == |items| {
        return None;
      }
      assert Takeable(items[k], now);
      LeaseKeeps(items, max, budget, k, now + leaseSec);
      items := items[k := Lease(items[k], now + leaseSec)];
      return Some(k);
    }

    /** The status write of executeWorkItem for a row this runner holds. */
    method Execute(id: nat, o: Outcome)
      requires Valid() && id < |items| && items[id].status == Leased
      modifies this`items
      ensures Valid() && Forward(old(items), items)
      ensures items == old(items)[id := Record(old(items)[id], old(items)[id].attempts, max, o)]
      ensures Left() + (if Recorded(o) then 1 else 0) <= old(Left())
    {
      RecordFalls(items, max, budget, id, o);
      items := items[id := Record(items[id], items[id].attempts, max, o)];
    }

    /** The work loop of fuzzAutoRunnerTick; outcomes are whatever the executions did. A tick that
        ends without an error and below its batch has left nothing to claim. */
    method Tick(queueDepth: nat, batch: nat, now: int) returns (recorded: nat, lost: nat, err: bool)
      requires Valid()
      modifies this`items
      ensures Valid() && Forward(old(items), items)
      ensures Left() + recorded <= old(Left())
      ensures recorded + lost <= batch
      ensures !err && batch > 0 && AnyClaimable(old(items), max, now) ==> recorded + lost > 0
      ensures !err && recorded + lost < batch ==> !AnyClaimable(items, max, now)
    {
      recorded, lost := 0, 0;
      err := EnsureItems(queueDepth);
      if err {
        return;
      }
      ghost var items1 := items;
      assert AnyClaimable(old(items), max, now) ==> AnyClaimable(items1, max, now) by {
        if AnyClaimable(old(items), max, now) {
          var i: nat :| i < |old(items)| && Claimable(old(items)[i], max, now);
          assert Claimable(items1[i], max, now);
        }
      }
      for i := 0 to batch
        invariant Valid() && Forward(items1, items) && Left() + recorded <= old(Left())
        invariant recorded + lost == i
        invariant i == 0 ==> items == items1
      {
        ghost var before := items;
        var id := Claim(now);
        if id.None? {
          break;
        }
        ghost var leased := items;
        var o: Outcome := *;
        Execute(id.value, o);
        ForwardTrans(before, leased, items);
        ForwardTrans(items1, before, items);
        if Recorded(o) {
          recorded := recorded + 1;
        } else {
          lost := lost + 1;
        }
      }
    }

    /** Any number of ticks records at most max * budget executions; when it records that many,
        every item of the budget is done or failed and nothing is claimable any more. */
    method Ticks(n: nat, queueDepth: nat, batch: nat) returns (recorded: nat)
      requires Valid() && Left() <= max * budget
      modifies this`items
      ensures Valid() && Forward(old(items), items)
      ensures Left() + recorded <= max * budget
      ensures recorded == max * budget && max > 0 ==>
                && |items| == budget && (forall i :: 0 <= i < |items| ==> Settled(items[i]))
                && forall now :: !AnyClaimable(items, max, now)
    {
      recorded := 0;
      for t := 0 to n
        invariant Valid() && Forward(old(items), items) && Left() + recorded <= max * budget
      {
        var now: int := *;
        ghost var before := items;
        var r, l, err := Tick(queueDepth, batch, now);
        ForwardTrans(old(items), before, items);
        recorded := recorded + r;
      }
      if max > 0 {
        PotentialZero(items, max, budget);
      }
    }
  }
}
