/** No refund overtakes a payout: inside one pass a finalize is applied only after every pay row
    of its campaign is settled (fuzz_settle_pull.go:84-133, 250-257). */
module RefundOrder {
  import opened EscrowLedger
  import opened SettleOutbox
  import opened Settlement
  import opened SettleProtocol

  /** Action a of somebody else than puller p leaves campaign c's escrow row alone. */
  ghost predicate Quiet(cfg: Config, s: Sys, a: Action, p: nat, c: Campaign) {
    if a.OwnedBy(p) then !a.Crash? && !a.Fetch?
    else
      var t := Do(cfg, s, a);
      && t.PullerAt(p) == s.PullerAt(p)
      && (c in t.ledger.escrows <==> c in s.ledger.escrows)
      && (c in s.ledger.escrows ==> t.ledger.escrows[c] == s.ledger.escrows[c])
  }

  ghost predicate QuietRun(cfg: Config, s: Sys, as_: seq<Action>, p: nat, c: Campaign) {
    as_ != [] ==>
      var pre := as_[..|as_| - 1];
      QuietRun(cfg, s, pre, p, c) && Quiet(cfg, Execute(cfg, s, pre), as_[|as_| - 1], p, c)
  }

  /** The first k rows of the ordered batch are handled: each pay row of c among them is settled,
      or has put c into the failed set, or met an escrow that pays nothing any more. */
  ghost predicate Handled(s: Sys, w: Local, order: seq<Row>, k: nat, c: Campaign) {
    && k <= |order| && w.todo == order[k..]
    && (forall i :: 0 <= i < k && order[i].campaign == c && !order[i].kind.IsFinal() ==> Dealt(s, w, order[i], c))
  }

  ghost predicate Dealt(s: Sys, w: Local, r: Row, c: Campaign) {
    || Settled(s.ledger, s.closedOnce, r)
    || c in w.failed || c !in s.ledger.escrows || s.ledger.escrows[c].status == Closed
  }

  /** About to refund c: nothing of c failed, and the escrow is still open. */
  ghost predicate Clear(s: Sys, u: Puller, c: Campaign) {
    u.Paying? && u.local.todo != [] && u.local.todo[0].campaign == c && u.local.todo[0].kind.IsFinal() ==>
      && c !in u.local.failed && c in s.ledger.escrows && s.ledger.escrows[c].status != Closed
  }

  ghost predicate PassInv(s: Sys, p: nat, order: seq<Row>, c: Campaign) {
    && !s.PullerAt(p).Idle?
    && (exists k: nat :: Handled(s, s.PullerAt(p).local, order, k, c))
    && Clear(s, s.PullerAt(p), c)
  }

  lemma LookPass(cfg: Config, s: Sys, p: nat, order: seq<Row>, k: nat, c: Campaign)
    requires cfg.Valid() && Inv(s) && Enabled(s, Look(p)) && Handled(s, s.PullerAt(p).local, order, k, c)
    ensures PassInv(Step(cfg, s, Look(p)), p, order, c)
  {
    var w := s.PullerAt(p).local;
    var r := w.todo[0];
    var t := Step(cfg, s, Look(p));
    assert r == order[k] && r in w.todo;
    assert w.todo[1..] == order[k + 1..];
    if r.campaign in s.ledger.escrows {
      assert s.ledger.escrows[r.campaign].Valid();
      if OutboxAction(s.ledger.escrows[r.campaign].status, r.kind) == Drain {
        DrainSettles(s.ledger, s.closedOnce, r);
      }
    }
    if t.PullerAt(p).At? {
      assert Handled(t, t.PullerAt(p).local, order, k + 1, c);
    } else {
      assert Handled(t, t.PullerAt(p).local, order, k, c);
    }
  }

  /** Applying a row creates no escrow and opens none. */
  lemma ClosedStays(cfg: Config, s: Sys, r: Row, checksPass: bool, c: Campaign)
    requires cfg.Valid() && Sound(s.ledger)
    ensures var l := ApplyRow(s.ledger, cfg, r, checksPass).0;
            && l.escrows.Keys == s.ledger.escrows.Keys
            && (c in l.escrows && s.ledger.escrows[c].status == Closed ==> l.escrows[c].status == Closed)
  {
    if ApplyRow(s.ledger, cfg, r, checksPass).1.Fresh? {
      PayKindGrows(s.ledger, cfg, r.kind, r.campaign, r.miner, ParseSeverity(r.severity), checksPass);
    }
  }

  lemma PayDealtStays(cfg: Config, s: Sys, p: nat, checksPass: bool, q: Row, c: Campaign)
    requires cfg.Valid() && Inv(s) && Enabled(s, Pay(p, checksPass)) && Dealt(s, s.PullerAt(p).local, q, c)
    ensures var t := Step(cfg, s, Pay(p, checksPass)); Dealt(t, t.PullerAt(p).local, q, c)
  {
    var r := s.PullerAt(p).local.todo[0];
    var t := Step(cfg, s, Pay(p, checksPass));
    PayInv(cfg, s, p, checksPass);
    ApplyRowGrows(s.ledger, cfg, r, checksPass);
    ClosedStays(cfg, s, r, checksPass, c);
    if Settled(s.ledger, s.closedOnce, q) {
      SettledStable(s.ledger, t.ledger, s.closedOnce, t.closedOnce, q);
    }
  }

  lemma PayDeals(cfg: Config, s: Sys, p: nat, checksPass: bool, c: Campaign)
    requires cfg.Valid() && Inv(s) && Enabled(s, Pay(p, checksPass))
    ensures var r := s.PullerAt(p).local.todo[0]; var t := Step(cfg, s, Pay(p, checksPass));
            r.campaign == c && !r.kind.IsFinal() ==> Dealt(t, t.PullerAt(p).local, r, c)
  {
    var r := s.PullerAt(p).local.todo[0];
    assert r in s.PullerAt(p).local.todo;
    if Terminal(ApplyRow(s.ledger, cfg, r, checksPass).1) {
      PaySettles(cfg, s, r, checksPass);
    }
  }

  lemma PayPass(cfg: Config, s: Sys, p: nat, checksPass: bool, order: seq<Row>, k: nat, c: Campaign)
    requires cfg.Valid() && Inv(s) && Enabled(s, Pay(p, checksPass)) && Handled(s, s.PullerAt(p).local, order, k, c)
    ensures PassInv(Step(cfg, s, Pay(p, checksPass)), p, order, c)
  {
    var w := s.PullerAt(p).local;
    var t := Step(cfg, s, Pay(p, checksPass));
    assert w.todo[0] == order[k] && w.todo[1..] == order[k + 1..];
    forall i | 0 <= i < k && Dealt(s, w, order[i], c) ensures Dealt(t, t.PullerAt(p).local, order[i], c) {
      PayDealtStays(cfg, s, p, checksPass, order[i], c);
    }
    PayDeals(cfg, s, p, checksPass, c);
    assert Handled(t, t.PullerAt(p).local, order, k + 1, c);
  }

  lemma OtherPass(cfg: Config, s: Sys, a: Action, p: nat, order: seq<Row>, c: Campaign)
    requires cfg.Valid() && Inv(s) && PassInv(s, p, order, c) && !a.OwnedBy(p) && Quiet(cfg, s, a, p, c)
    ensures PassInv(Do(cfg, s, a), p, order, c)
  {
    var t := Do(cfg, s, a);
    var w := s.PullerAt(p).local;
    var k: nat :| Handled(s, w, order, k, c);
    StepInv(cfg, s, a);
    StepGrows(cfg, s, a);
    forall i | 0 <= i < k && Settled(s.ledger, s.closedOnce, order[i])
      ensures Settled(t.ledger, t.closedOnce, order[i])
    {
      SettledStable(s.ledger, t.ledger, s.closedOnce, t.closedOnce, order[i]);
    }
    assert Handled(t, w, order, k, c);
  }

  lemma StepGrows(cfg: Config, s: Sys, a: Action)
    requires cfg.Valid() && Inv(s)
    ensures Grows(s.ledger, Do(cfg, s, a).ledger) && s.closedOnce <= Do(cfg, s, a).closedOnce
  {
    if Enabled(s, a) {
      match a
      case Pay(p, checksPass) => ApplyRowGrows(s.ledger, cfg, s.PullerAt(p).local.todo[0], checksPass);
      case RelayApply(id, checksPass) => ApplyRowGrows(s.ledger, cfg, s.outbox.rows[id], checksPass);
      case AdminSettle(ev, kind, c, miner, severity, checksPass) =>
        ApplyOnceGrows(s.ledger, cfg, ev, kind, c, miner, severity, checksPass);
      case CloseNow(c, checksPass) => CloseEscrowGrows(s.ledger, c, checksPass);
      case ReopenNow(c, checksPass) => ReopenGrows(s.ledger, c, checksPass);
      case OpenNow(c, rp, bp, pr, sp) => OpenEscrowGrows(s.ledger, c, rp, bp, pr, sp);
      case Enqueue(_) =>
      case Fetch(_, _) =>
      case Look(_) =>
      case AckNext(_) =>
      case Crash(_) =>
      case RelayAck(_) =>
    }
  }

  lemma AckPass(cfg: Config, s: Sys, p: nat, order: seq<Row>, k: nat, c: Campaign)
    requires Enabled(s, AckNext(p)) && Handled(s, s.PullerAt(p).local, order, k, c)
    ensures PassInv(Step(cfg, s, AckNext(p)), p, order, c)
  {
    var t := Step(cfg, s, AckNext(p));
    assert Handled(t, t.PullerAt(p).local, order, k, c);
  }

  lemma OwnPass(cfg: Config, s: Sys, a: Action, p: nat, order: seq<Row>, c: Campaign)
    requires cfg.Valid() && Inv(s) && PassInv(s, p, order, c) && a.OwnedBy(p) && !a.Crash? && !a.Fetch?
    ensures PassInv(Do(cfg, s, a), p, order, c)
  {
    if Enabled(s, a) {
      var k: nat :| Handled(s, s.PullerAt(p).local, order, k, c);
      if a.Look? {
        LookPass(cfg, s, p, order, k, c);
      } else if a.Pay? {
        PayPass(cfg, s, p, a.checksPass, order, k, c);
      } else {
        AckPass(cfg, s, p, order, k, c);
      }
    }
  }

  lemma {:induction false} QuietPass(cfg: Config, s: Sys, p: nat, items: seq<Row>, as_: seq<Action>, c: Campaign)
    requires cfg.Valid() && Inv(s) && Enabled(s, Fetch(p, items))
    requires QuietRun(cfg, Step(cfg, s, Fetch(p, items)), as_, p, c)
    ensures var t := Execute(cfg, Step(cfg, s, Fetch(p, items)), as_);
            Inv(t) && PassInv(t, p, FinalsLast(items), c)
  {
    var s1 := Step(cfg, s, Fetch(p, items));
    FetchInv(cfg, s, p, items);
    if as_ == [] {
      assert Handled(s1, s1.PullerAt(p).local, FinalsLast(items), 0, c);
    } else {
      var pre, a := as_[..|as_| - 1], as_[|as_| - 1];
      QuietPass(cfg, s, p, items, pre, c);
      var t := Execute(cfg, s1, pre);
      StepInv(cfg, t, a);
      if a.OwnedBy(p) {
        OwnPass(cfg, t, a, p, FinalsLast(items), c);
      } else {
        OtherPass(cfg, t, a, p, FinalsLast(items), c);
      }
    }
  }

  lemma FinalsAfter(items: seq<Row>, k: nat, r: Row)
    requires k < |FinalsLast(items)| && FinalsLast(items)[k].kind.IsFinal()
    requires r in items && !r.kind.IsFinal()
    ensures r in FinalsLast(items)[..k]
  {
    FinalsLastFacts(items);
    var x := NonFinals(items);
    var i :| 0 <= i < |x| && x[i] == r;
    assert forall j :: 0 <= j < |x| ==> x[j] in x && !x[j].kind.IsFinal();
    assert k >= |x|;
    assert FinalsLast(items)[..k][i] == r;
  }

  /** p, in pass `order`, is about to apply the final row f. */
  ghost predicate AboutToApply(t: Sys, p: nat, f: Row) {
    var u := t.PullerAt(p);
    u.Paying? && u.local.todo != [] && u.local.todo[0] == f && f.kind.IsFinal()
  }

  lemma BatchSettled(t: Sys, p: nat, items: seq<Row>, f: Row, r: Row)
    requires PassInv(t, p, FinalsLast(items), f.campaign) && AboutToApply(t, p, f)
    requires r in items && r.campaign == f.campaign && !r.kind.IsFinal()
    ensures Settled(t.ledger, t.closedOnce, r) && f in items
  {
    var order := FinalsLast(items);
    var k: nat :| Handled(t, t.PullerAt(p).local, order, k, f.campaign);
    assert order[k] == f;
    FinalsLastFacts(items);
    FinalsAfter(items, k, r);
    var i :| 0 <= i < k && order[i] == r;
  }

  lemma FinalInBatch(t: Sys, p: nat, items: seq<Row>, f: Row)
    requires PassInv(t, p, FinalsLast(items), f.campaign) && AboutToApply(t, p, f)
    ensures f in items
  {
    var order := FinalsLast(items);
    var k: nat :| Handled(t, t.PullerAt(p).local, order, k, f.campaign);
    assert order[k] == f;
    FinalsLastFacts(items);
  }

  /** When a puller is about to apply a finalize or close of campaign c, in a pass during which no
      one else touched c's escrow, every pay row of c in its batch is settled. When the batch held
      every pending pay row of c, every pay row of c enqueued before the fetch is settled, so the
      refund leaves no miner of c unpaid. A batch with a finalize always does; HoldsPaysIff says when
      a batch with a close does. */
  lemma RefundAfterPayouts(cfg: Config, s: Sys, p: nat, items: seq<Row>, as_: seq<Action>, f: Row, r: Row)
    requires cfg.Valid() && Inv(s) && Enabled(s, Fetch(p, items))
    requires QuietRun(cfg, Step(cfg, s, Fetch(p, items)), as_, p, f.campaign)
    requires AboutToApply(Execute(cfg, Step(cfg, s, Fetch(p, items)), as_), p, f)
    requires r.campaign == f.campaign && !r.kind.IsFinal()
    requires r in items ||
             (r.id in s.outbox.rows && s.outbox.rows[r.id] == r && (f.kind.Finalize? || HoldsPays(s.outbox, items, f.campaign)))
    ensures var t := Execute(cfg, Step(cfg, s, Fetch(p, items)), as_); Settled(t.ledger, t.closedOnce, r)
  {
    var s1 := Step(cfg, s, Fetch(p, items));
    var t := Execute(cfg, s1, as_);
    QuietPass(cfg, s, p, items, as_, f.campaign);
    FinalInBatch(t, p, items, f);
    if r !in items && Pending(s.outbox, r.id) && f.kind.Finalize? {
      WindowFinalizeLast(s.outbox, items, f, r);
    }
    if r in items {
      BatchSettled(t, p, items, f, r);
    } else {
      FetchInv(cfg, s, p, items);
      ExecuteGrows(cfg, s1, as_);
      SettledStable(s.ledger, t.ledger, s.closedOnce, t.closedOnce, r);
    }
  }

  /** The kinds that the coordinator enqueues. */
  predicate CoordinatorKind(k: Kind) { k.Run? || k.RunFloor? || k.Finding? || k.CrashBonus? || k.Finalize? }

  predicate CoordinatorRun(as_: seq<Action>) {
    forall i :: 0 <= i < |as_| && as_[i].Enqueue? ==> CoordinatorKind(as_[i].key.kind)
  }

  lemma StepKinds(cfg: Config, s: Sys, a: Action)
    requires Inv(s) && (a.Enqueue? ==> CoordinatorKind(a.key.kind))
    requires forall id :: id in s.outbox.rows ==> CoordinatorKind(s.outbox.rows[id].kind)
    ensures forall id :: id in Do(cfg, s, a).outbox.rows ==> CoordinatorKind(Do(cfg, s, a).outbox.rows[id].kind)
  {}

  /** On a run in which only those kinds are enqueued the outbox never holds a close row. */
  lemma {:induction false} OnlyCoordinatorKinds(cfg: Config, s: Sys, as_: seq<Action>)
    requires cfg.Valid() && Init(s) && CoordinatorRun(as_)
    ensures var t := Execute(cfg, s, as_);
            Inv(t) && forall id :: id in t.outbox.rows ==> CoordinatorKind(t.outbox.rows[id].kind)
  {
    InitInv(s);
    if as_ != [] {
      var pre := as_[..|as_| - 1];
      OnlyCoordinatorKinds(cfg, s, pre);
      StepInv(cfg, Execute(cfg, s, pre), as_[|as_| - 1]);
      StepKinds(cfg, Execute(cfg, s, pre), as_[|as_| - 1]);
    }
  }

  /** So on every run of the system, a refund applied in a quiet pass finds every pay row of the
      campaign that was enqueued before the fetch settled. */
  lemma RefundAfterAllPayouts(cfg: Config, s0: Sys, before: seq<Action>, p: nat, items: seq<Row>, as_: seq<Action>, f: Row, r: Row)
    requires cfg.Valid() && Init(s0) && CoordinatorRun(before)
    requires Enabled(Execute(cfg, s0, before), Fetch(p, items))
    requires QuietRun(cfg, Step(cfg, Execute(cfg, s0, before), Fetch(p, items)), as_, p, f.campaign)
    requires AboutToApply(Execute(cfg, Step(cfg, Execute(cfg, s0, before), Fetch(p, items)), as_), p, f)
    requires r.campaign == f.campaign && !r.kind.IsFinal()
    requires r.id in Execute(cfg, s0, before).outbox.rows && Execute(cfg, s0, before).outbox.rows[r.id] == r
    ensures var t := Execute(cfg, Step(cfg, Execute(cfg, s0, before), Fetch(p, items)), as_);
            f.kind == Finalize && Settled(t.ledger, t.closedOnce, r)
  {
    var s := Execute(cfg, s0, before);
    OnlyCoordinatorKinds(cfg, s0, before);
    QuietPass(cfg, s, p, items, as_, f.campaign);
    FinalInBatch(Execute(cfg, Step(cfg, s, Fetch(p, items)), as_), p, items, f);
    assert Pending(s.outbox, f.id) && s.outbox.rows[f.id] == f;
    RefundAfterPayouts(cfg, s, p, items, as_, f, r);
  }

  lemma GrowsTransitive(a: Ledger, b: Ledger, c: Ledger)
    requires Grows(a, b) && Grows(b, c)
    ensures Grows(a, c)
  {}

  lemma {:induction false} ExecuteGrows(cfg: Config, s: Sys, as_: seq<Action>)
    requires cfg.Valid() && Inv(s)
    ensures var t := Execute(cfg, s, as_); Inv(t) && Grows(s.ledger, t.ledger) && s.closedOnce <= t.closedOnce
  {
    if as_ != [] {
      var pre := as_[..|as_| - 1];
      ExecuteGrows(cfg, s, pre);
      StepInv(cfg, Execute(cfg, s, pre), as_[|as_| - 1]);
      StepGrows(cfg, Execute(cfg, s, pre), as_[|as_| - 1]);
      GrowsTransitive(s.ledger, Execute(cfg, s, pre).ledger, Execute(cfg, s, as_).ledger);
    }
  }
}
