/** What holds on every run of the settlement protocol. */
module SettleSafety {
  import opened EscrowLedger
  import opened SettleOutbox
  import opened Settlement
  import opened EventAccounting
  import opened SettleProtocol

  // ---------------------------------------------------------------- no payout is lost

  /** On every run, a row has left the outbox only if it was paid under its own event id, or the
      ledger holds the permanent reason it cannot be: a run only when the runs pool went to miners
      to the last unit, a bonus or finding only when one was paid or the pool is gone, and a
      finalize only when the escrow has been closed. */
  lemma NoPayoutLost(cfg: Config, s: Sys, as_: seq<Action>, id: nat)
    requires cfg.Valid() && Init(s) && id in Execute(cfg, s, as_).outbox.acked
    ensures var t := Execute(cfg, s, as_);
            && id in t.outbox.rows && t.outbox.rows[id].campaign in t.ledger.escrows
            && var r := t.outbox.rows[id]; var e := t.ledger.escrows[r.campaign];
               && (r.kind.IsRun() ==> Paid(t.ledger, r) || e.runsPaid == e.runsPool)
               && (r.kind.IsCrash() ==> Paid(t.ledger, r) || CrashUnpayable(e))
               && (r.kind.IsBounty() ==> Paid(t.ledger, r) || e.bountyPaid > 0 || e.refunded > 0 || e.bountyPool <= e.crashPaid)
               && (r.kind.IsFinal() ==> r.campaign in t.closedOnce)
  {
    InitInv(s);
    ExecuteInv(cfg, s, as_);
  }

  // ---------------------------------------------------------------- money is conserved

  lemma StepMoney(cfg: Config, s: Sys, a: Action)
    requires cfg.Valid() && Inv(s)
    ensures Money(Do(cfg, s, a).ledger) == Money(s.ledger)
  {
    if Enabled(s, a) {
      match a
      case Pay(p, checksPass) =>
        var r := s.PullerAt(p).local.todo[0];
        ApplyOnceKeeps(s.ledger, cfg, EventId(r.campaign, r.id), r.kind, r.campaign, r.miner, ParseSeverity(r.severity), checksPass);
      case RelayApply(id, checksPass) =>
        var r := s.outbox.rows[id];
        ApplyOnceKeeps(s.ledger, cfg, EventId(r.campaign, r.id), r.kind, r.campaign, r.miner, ParseSeverity(r.severity), checksPass);
      case AdminSettle(ev, kind, c, miner, severity, checksPass) =>
        ApplyOnceKeeps(s.ledger, cfg, ev, kind, c, miner, severity, checksPass);
      case CloseNow(c, checksPass) => CloseEscrowKeeps(s.ledger, c, checksPass);
      case ReopenNow(c, checksPass) => ReopenKeeps(s.ledger, c, checksPass);
      case OpenNow(c, rp, bp, pr, sp) => OpenEscrowKeeps(s.ledger, c, rp, bp, pr, sp);
      case Enqueue(_) =>
      case Fetch(_, _) =>
      case Look(_) =>
      case AckNext(_) =>
      case Crash(_) =>
      case RelayAck(_) =>
    }
  }

  /** Every run conserves money: balances plus what open escrows hold never changes, and of each
      bounty pool nothing is unaccounted for. */
  lemma {:induction false} MoneyConserved(cfg: Config, s: Sys, as_: seq<Action>)
    requires cfg.Valid() && Init(s)
    ensures var t := Execute(cfg, s, as_);
            && Money(t.ledger) == Money(s.ledger)
            && (forall c :: c in t.ledger.escrows ==>
                  var e := t.ledger.escrows[c];
                  && e.bountyPool == e.bountyPaid + e.crashPaid + e.refunded + e.BountyLeft()
                  && e.runsPaid <= e.runsPool
                  && (e.status == Closed ==> e.Locked() == 0 && e.BountyLeft() == 0)
                  && (e.status != Closed ==> e.Locked() == e.runsPool - e.runsPaid + e.BountyLeft()))
  {
    InitInv(s);
    ExecuteInv(cfg, s, as_);
    var t := Execute(cfg, s, as_);
    forall c | c in t.ledger.escrows ensures t.ledger.escrows[c].Valid() {}
    if as_ != [] {
      var pre := as_[..|as_| - 1];
      MoneyConserved(cfg, s, pre);
      ExecuteInv(cfg, s, pre);
      StepMoney(cfg, Execute(cfg, s, pre), as_[|as_| - 1]);
    }
  }

  // ---------------------------------------------------------------- at most once

  /** Action a, taken in state s, credits the settle intent `key` for the first time. */
  ghost predicate CreditsKey(cfg: Config, s: Sys, a: Action, key: Row) {
    && Enabled(s, a)
    && match a
       case Pay(p, checksPass) =>
         var r := s.PullerAt(p).local.todo[0];
         SameKey(r, key) && ApplyRow(s.ledger, cfg, r, checksPass).1.Fresh?
       case RelayApply(id, checksPass) =>
         SameKey(s.outbox.rows[id], key) && ApplyRow(s.ledger, cfg, s.outbox.rows[id], checksPass).1.Fresh?
       case _ => false
  }

  ghost predicate PaidKey(s: Sys, key: Row) {
    exists id :: id in s.outbox.rows && SameKey(s.outbox.rows[id], key) && Paid(s.ledger, s.outbox.rows[id])
  }

  ghost function CreditCount(cfg: Config, s: Sys, as_: seq<Action>, key: Row): nat {
    if as_ == [] then 0
    else
      var pre := as_[..|as_| - 1];
      CreditCount(cfg, s, pre, key) + (if CreditsKey(cfg, Execute(cfg, s, pre), as_[|as_| - 1], key) then 1 else 0)
  }

  /** Applying row r records its own event and touches no other row's. */
  lemma ApplyRowPaid(cfg: Config, s: Sys, r: Row, checksPass: bool, q: Row)
    requires cfg.Valid() && Inv(s)
    ensures var (k, out) := ApplyRow(s.ledger, cfg, r, checksPass);
            && (out.Fresh? && (r.campaign != q.campaign || r.id != q.id) ==> (Paid(k, q) <==> Paid(s.ledger, q)))
            && (out.Fresh? ==> Paid(k, r) && !Paid(s.ledger, r))
            && (!out.Fresh? ==> k == s.ledger)
  {
    if ApplyRow(s.ledger, cfg, r, checksPass).1.Fresh? {
      PayKindGrows(s.ledger, cfg, r.kind, r.campaign, r.miner, ParseSeverity(r.severity), checksPass);
      if EventId(r.campaign, r.id) == EventId(q.campaign, q.id) {
        EventIdInjective(r.campaign, r.id, q.campaign, q.id);
      }
    }
  }

  lemma ApplyRowPaidKey(cfg: Config, s: Sys, r: Row, checksPass: bool, key: Row)
    requires cfg.Valid() && Inv(s) && r.id in s.outbox.rows && s.outbox.rows[r.id] == r
    ensures var (k, out) := ApplyRow(s.ledger, cfg, r, checksPass);
            && (PaidKey(WithLedger(s, k), key) <==> PaidKey(s, key) || (SameKey(r, key) && out.Fresh?))
            && (SameKey(r, key) && out.Fresh? ==> !PaidKey(s, key))
  {
    var (k, out) := ApplyRow(s.ledger, cfg, r, checksPass);
    forall id | id in s.outbox.rows
      ensures Paid(k, s.outbox.rows[id]) <==> Paid(s.ledger, s.outbox.rows[id]) || (id == r.id && out.Fresh?)
      ensures id == r.id && out.Fresh? ==> !Paid(s.ledger, s.outbox.rows[id])
      ensures SameKey(s.outbox.rows[id], r) ==> id == r.id
    {
      ApplyRowPaid(cfg, s, r, checksPass, s.outbox.rows[id]);
    }
  }

  lemma SamePaidKey(s: Sys, t: Sys, key: Row)
    requires s.outbox.rows == t.outbox.rows && s.ledger.applied == t.ledger.applied
    ensures PaidKey(s, key) <==> PaidKey(t, key)
  {
    assert forall r: Row :: Paid(s.ledger, r) == Paid(t.ledger, r);
  }

  /** A row enqueued just now is not paid: no recorded event can be its own. */
  lemma NewRowUnpaid(s: Sys, r: Row)
    requires Inv(s) && r.id !in s.outbox.rows
    ensures !Paid(s.ledger, r)
  {
    var ev := EventId(r.campaign, r.id);
    if ev in s.ledger.applied {
      assert IsOutboxEvent(ev);
      var j :| j in s.outbox.rows && EventId(s.outbox.rows[j].campaign, j) == ev;
      EventIdInjective(r.campaign, r.id, s.outbox.rows[j].campaign, j);
      assert false;
    }
  }

  lemma EnqueuePaidKey(s: Sys, row: Row, key: Row)
    requires Inv(s)
    ensures PaidKey(s.(outbox := SettleOutbox.Enqueue(s.outbox, row).0), key) <==> PaidKey(s, key)
  {
    if row.campaign != "" {
      var (o, id) := SettleOutbox.Enqueue(s.outbox, row);
      EnqueueReplaySafe(s.outbox, row);
      if id !in s.outbox.rows {
        NewRowUnpaid(s, o.rows[id]);
      }
      forall i ensures i in o.rows && SameKey(o.rows[i], key) && Paid(s.ledger, o.rows[i])
                  <==> i in s.outbox.rows && SameKey(s.outbox.rows[i], key) && Paid(s.ledger, s.outbox.rows[i]) {
        assert i in o.rows ==> i in s.outbox.rows || i == id;
      }
    }
  }

  lemma AdminPaidKey(cfg: Config, s: Sys, a: Action, key: Row)
    requires cfg.Valid() && Inv(s) && Enabled(s, a) && a.AdminSettle?
    ensures PaidKey(Step(cfg, s, a), key) <==> PaidKey(s, key)
  {
    var k := ApplyOnce(s.ledger, cfg, a.ev, a.kind, a.c, a.miner, a.severity, a.checksPass).0;
    if ApplyOnce(s.ledger, cfg, a.ev, a.kind, a.c, a.miner, a.severity, a.checksPass).1.Fresh? {
      PayKindGrows(s.ledger, cfg, a.kind, a.c, a.miner, a.severity, a.checksPass);
    }
    forall r: Row ensures Paid(k, r) <==> Paid(s.ledger, r) {
      assert IsOutboxEvent(EventId(r.campaign, r.id));
    }
  }

  lemma PayPaidKey(cfg: Config, s: Sys, p: nat, checksPass: bool, key: Row)
    requires cfg.Valid() && Inv(s) && Enabled(s, Pay(p, checksPass))
    ensures PaidKey(Step(cfg, s, Pay(p, checksPass)), key) <==> PaidKey(s, key) || CreditsKey(cfg, s, Pay(p, checksPass), key)
    ensures CreditsKey(cfg, s, Pay(p, checksPass), key) ==> !PaidKey(s, key)
  {
    var r := s.PullerAt(p).local.todo[0];
    assert r in s.PullerAt(p).local.todo;
    ApplyRowPaidKey(cfg, s, r, checksPass, key);
    SamePaidKey(WithLedger(s, ApplyRow(s.ledger, cfg, r, checksPass).0), Step(cfg, s, Pay(p, checksPass)), key);
  }

  /** An action that neither adds a row nor records an event. */
  predicate PaysNobody(a: Action) {
    !a.Enqueue? && !a.Pay? && !a.RelayApply? && !a.AdminSettle?
  }

  lemma NobodyPaidKey(cfg: Config, s: Sys, a: Action, key: Row)
    requires Enabled(s, a) && PaysNobody(a)
    ensures PaidKey(Step(cfg, s, a), key) <==> PaidKey(s, key)
  {
    SamePaidKey(s, Step(cfg, s, a), key);
  }

  lemma StepPaidKey(cfg: Config, s: Sys, a: Action, key: Row)
    requires cfg.Valid() && Inv(s)
    ensures PaidKey(Do(cfg, s, a), key) <==> PaidKey(s, key) || CreditsKey(cfg, s, a, key)
    ensures CreditsKey(cfg, s, a, key) ==> !PaidKey(s, key)
  {
    if Enabled(s, a) {
      if PaysNobody(a) {
        NobodyPaidKey(cfg, s, a, key);
      } else if a.Enqueue? {
        EnqueuePaidKey(s, a.key, key);
      } else if a.Pay? {
        PayPaidKey(cfg, s, a.p, a.checksPass, key);
      } else if a.RelayApply? {
        ApplyRowPaidKey(cfg, s, s.outbox.rows[a.id], a.checksPass, key);
      } else {
        AdminPaidKey(cfg, s, a, key);
      }
    }
  }

  /** On every run, however often rows are enqueued again, fetched again after a lost reply, or
      pulled by several pullers and the relay at once: a settle intent (campaign, kind, miner,
      severity, work item) is credited at most once, and exactly when it shows as paid. */
  lemma {:induction false} IntentCreditedAtMostOnce(cfg: Config, s: Sys, as_: seq<Action>, key: Row)
    requires cfg.Valid() && Init(s)
    ensures CreditCount(cfg, s, as_, key) == if PaidKey(Execute(cfg, s, as_), key) then 1 else 0
  {
    InitInv(s);
    if as_ != [] {
      var pre := as_[..|as_| - 1];
      IntentCreditedAtMostOnce(cfg, s, pre, key);
      ExecuteInv(cfg, s, pre);
      StepPaidKey(cfg, Execute(cfg, s, pre), as_[|as_| - 1], key);
    }
  }

  lemma EventHasCredit(l: Ledger, ev: string, g: Group)
    requires Accounted(l) && ev in l.applied && l.applied[ev].campaign in l.escrows && g.Has(l.applied[ev].kind)
    ensures Credits(l.escrows[l.applied[ev].campaign], g) > 0
  {
    var c := l.applied[ev].campaign;
    assert ev in Events(l.applied, c, g);
    assert |Events(l.applied, c, g)| == Credits(l.escrows[c], g);
  }

  lemma OneOfGroup(l: Ledger, ev: string, ev': string, g: Group)
    requires Accounted(l) && ev in l.applied && ev' in l.applied && l.applied[ev].campaign in l.escrows
    requires l.applied[ev].campaign == l.applied[ev'].campaign
    requires !g.Runs? && g.Has(l.applied[ev].kind) && g.Has(l.applied[ev'].kind)
    ensures ev == ev'
  {
    var c := l.applied[ev].campaign;
    assert |Events(l.applied, c, g)| == Credits(l.escrows[c], g);
    Singleton(Events(l.applied, c, g), ev, ev');
  }

  /** On every run a recorded event is a credit its escrow counts, a campaign pays one bounty and
      one crash bonus at most, and for runs at most its rate times the recorded run events. */
  lemma OneBountyOneBonus(cfg: Config, s: Sys, as_: seq<Action>, ev: string, ev': string)
    requires cfg.Valid() && Init(s)
    requires var l := Execute(cfg, s, as_).ledger;
             ev in l.applied && ev' in l.applied && l.applied[ev].campaign == l.applied[ev'].campaign
    ensures var l := Execute(cfg, s, as_).ledger;
            var k, k', c := l.applied[ev].kind, l.applied[ev'].kind, l.applied[ev].campaign;
            && c in l.escrows
            && (k.IsBounty() ==> l.escrows[c].bountyPaid > 0)
            && (k.IsCrash() ==> l.escrows[c].crashPaid > 0)
            && (k.IsBounty() && k'.IsBounty() ==> ev == ev')
            && (k.IsCrash() && k'.IsCrash() ==> ev == ev')
            && l.escrows[c].runsPaid <= |Events(l.applied, c, Runs)| * l.escrows[c].perRun
  {
    InitInv(s);
    ExecuteInv(cfg, s, as_);
    var l := Execute(cfg, s, as_).ledger;
    var k, k', c := l.applied[ev].kind, l.applied[ev'].kind, l.applied[ev].campaign;
    assert |Events(l.applied, c, Runs)| == Credits(l.escrows[c], Runs);
    if k.IsBounty() {
      EventHasCredit(l, ev, Bounties);
      if k'.IsBounty() {
        OneOfGroup(l, ev, ev', Bounties);
      }
    }
    if k.IsCrash() {
      EventHasCredit(l, ev, Crashes);
      if k'.IsCrash() {
        OneOfGroup(l, ev, ev', Crashes);
      }
    }
  }

  lemma Singleton<T>(x: set<T>, a: T, b: T)
    requires |x| <= 1 && a in x && b in x
    ensures a == b
  {
    assert |x - {a}| == |x| - 1;
    assert x - {a} == {};
  }
}
