/** What it means for an outbox row to be settled, and why settled stays settled. */
module Settlement {
  import opened Text
  import opened EscrowLedger
  import opened SettleOutbox

  /** The ledger reads severities after TrimSpace and ToLower. */
  function ParseSeverity(s: string): Severity {
    var t := Trim(Lower(s));
    if t == "critical" then Critical else if t == "high" then High else if t == "medium" then Medium else OtherSeverity(t)
  }

  /** applyLocalFuzzSettleOnce: pay one outbox row under its durable event id. */
  function ApplyRow(l: Ledger, cfg: Config, r: Row, checksPass: bool): (Ledger, Outcome) {
    if r.id == 0 then (l, Rejected(MissingField))
    else ApplyOnce(l, cfg, EventId(r.campaign, r.id), r.kind, r.campaign, r.miner, ParseSeverity(r.severity), checksPass)
  }

  /** fuzzSettleOutboxDrainOnErr: errors after which nothing can ever be paid. */
  predicate DrainOnErr(e: Error) { e == Depleted || e == AlreadyPaid }

  /** A ledger answer on which the puller acknowledges the row. */
  predicate Terminal(out: Outcome) { out.Fresh? || out.Replayed? || (out.Rejected? && DrainOnErr(out.error)) }

  datatype Decision = Apply | Drain | Keep

  /** fuzzSettleOutboxAction. */
  function OutboxAction(status: Status, kind: Kind): Decision {
    match status
    case Closed => if kind.IsFinal() then Drain else Keep
    case Open => Apply
    case BountyPaid => if kind.IsRun() || kind.IsCrash() || kind.IsFinal() then Apply else Drain
    case OtherStatus => Keep
  }

  /** The crash bonus of this escrow can never be paid again. */
  predicate CrashUnpayable(e: Escrow) {
    var bonus := CrashBonusUnits(e.bountyPool, e.split);
    e.crashPaid > 0 || e.refunded > 0 || bonus == 0 || e.bountyPool < e.bountyPaid + bonus
  }

  /** Paid under the row's own event id. */
  predicate Paid(l: Ledger, r: Row) {
    var ev := EventId(r.campaign, r.id);
    ev in l.applied && l.applied[ev] == Entry(r.campaign, r.kind)
  }

  /** A row whose leaving the outbox costs a miner nothing: it was paid, or the ledger holds the
      permanent reason why it cannot be. A finalize is settled once its escrow has been closed. */
  predicate Settled(l: Ledger, closedOnce: set<Campaign>, r: Row) {
    && r.campaign in l.escrows
    && var e := l.escrows[r.campaign];
       match r.kind
       case Run | RunFloor => Paid(l, r) || e.runsPaid == e.runsPool
       case CrashBonus | UniqueCrash => Paid(l, r) || CrashUnpayable(e)
       case Finding | Bounty => Paid(l, r) || e.bountyPaid > 0 || e.refunded > 0 || e.bountyPool <= e.crashPaid
       case Finalize | Close => r.campaign in closedOnce
       case OtherKind(_) => e.bountyPaid > 0
  }

  // ---------------------------------------------------------------- what no operation undoes

  predicate EscrowGrows(e: Escrow, f: Escrow) {
    && f.runsPool == e.runsPool && f.bountyPool == e.bountyPool && f.perRun == e.perRun && f.split == e.split
    && e.runsPaid <= f.runsPaid && e.bountyPaid <= f.bountyPaid && e.crashPaid <= f.crashPaid && e.refunded <= f.refunded
  }

  ghost predicate Grows(l: Ledger, k: Ledger) {
    && (forall ev :: ev in l.applied ==> ev in k.applied && k.applied[ev] == l.applied[ev])
    && (forall c :: c in l.escrows ==> c in k.escrows && EscrowGrows(l.escrows[c], k.escrows[c]))
  }

  /** Settled is stable: no later ledger operation makes a row payable again. */
  lemma SettledStable(l: Ledger, k: Ledger, closed: set<Campaign>, closed': set<Campaign>, r: Row)
    requires Sound(l) && Sound(k) && Grows(l, k) && closed <= closed' && Settled(l, closed, r)
    ensures Settled(k, closed', r)
  {
    assert k.escrows[r.campaign].Valid();
  }

  /** From l to k only campaign c's escrow changes, and it grows. */
  ghost predicate GrowsAt(l: Ledger, k: Ledger, c: Campaign) {
    && k.applied == l.applied && c in l.escrows && k.escrows.Keys == l.escrows.Keys
    && EscrowGrows(l.escrows[c], k.escrows[c])
    && (forall d :: d in l.escrows && d != c ==> k.escrows[d] == l.escrows[d])
  }

  lemma RunGrows(l: Ledger, c: Campaign, miner: Address, bps: nat)
    requires PayRun(l, c, miner, bps).Ok?
    ensures GrowsAt(l, PayRun(l, c, miner, bps).value, c)
  {}

  lemma CrashGrows(l: Ledger, c: Campaign, miner: Address)
    requires PayCrashBonus(l, c, miner).Ok?
    ensures GrowsAt(l, PayCrashBonus(l, c, miner).value, c)
  {}

  lemma BountyGrows(l: Ledger, cfg: Config, c: Campaign, miner: Address, severity: Severity)
    requires PayBounty(l, cfg, c, miner, severity).Ok?
    ensures var k := PayBounty(l, cfg, c, miner, severity).value;
            && GrowsAt(l, k, c) && l.escrows[c].bountyPaid == 0 && k.escrows[c].bountyPaid > 0
            && k.escrows[c] == l.escrows[c].(bountyPaid := k.escrows[c].bountyPaid, winner := miner, status := BountyPaid)
  {
    var paid := PayBountyShape(l, cfg, c, miner, severity);
  }

  lemma CloseGrows(l: Ledger, c: Campaign, checksPass: bool)
    requires CloseEscrow(l, c, checksPass).Ok?
    ensures var k := CloseEscrow(l, c, checksPass).value; GrowsAt(l, k, c) && k.escrows[c].status == Closed
  {}

  lemma PayKindGrows(l: Ledger, cfg: Config, kind: Kind, c: Campaign, miner: Address, severity: Severity, checksPass: bool)
    requires PayKind(l, cfg, kind, c, miner, severity, checksPass).Ok?
    ensures var k := PayKind(l, cfg, kind, c, miner, severity, checksPass).value;
            GrowsAt(l, k, c) && (kind.IsFinal() ==> k.escrows[c].status == Closed)
  {
    match kind
    case Run => RunGrows(l, c, miner, 0);
    case RunFloor => RunGrows(l, c, miner, cfg.floorBps);
    case Finding | Bounty => BountyGrows(l, cfg, c, miner, severity);
    case CrashBonus | UniqueCrash => CrashGrows(l, c, miner);
    case Finalize | Close => CloseGrows(l, c, checksPass);
  }

  lemma ApplyOnceGrows(l: Ledger, cfg: Config, ev: string, kind: Kind, c: Campaign, miner: Address,
                       severity: Severity, checksPass: bool)
    requires Sound(l)
    ensures Grows(l, ApplyOnce(l, cfg, ev, kind, c, miner, severity, checksPass).0)
  {
    if PayKind(l, cfg, kind, c, miner, severity, checksPass).Ok? {
      PayKindGrows(l, cfg, kind, c, miner, severity, checksPass);
    }
  }

  lemma ApplyRowGrows(l: Ledger, cfg: Config, r: Row, checksPass: bool)
    requires Sound(l)
    ensures Grows(l, ApplyRow(l, cfg, r, checksPass).0)
  {
    ApplyOnceGrows(l, cfg, EventId(r.campaign, r.id), r.kind, r.campaign, r.miner, ParseSeverity(r.severity), checksPass);
  }

  lemma CloseEscrowGrows(l: Ledger, c: Campaign, checksPass: bool)
    requires CloseEscrow(l, c, checksPass).Ok?
    ensures Grows(l, CloseEscrow(l, c, checksPass).value)
  {}

  lemma ReopenGrows(l: Ledger, c: Campaign, checksPass: bool)
    requires Reopen(l, c, checksPass).Ok?
    ensures Grows(l, Reopen(l, c, checksPass).value)
  {}

  lemma OpenEscrowGrows(l: Ledger, c: Campaign, runsPool: nat, bountyPool: nat, perRun: nat, split: Split)
    requires OpenEscrow(l, c, runsPool, bountyPool, perRun, split).Ok?
    ensures Grows(l, OpenEscrow(l, c, runsPool, bountyPool, perRun, split).value)
  {}

  /** The entry of event ev is that of the outbox row the event is named after. */
  ghost predicate OwnedByRow(o: Outbox, ev: string, en: Entry) {
    exists id :: id in o.rows && EventId(o.rows[id].campaign, id) == ev && en == Entry(o.rows[id].campaign, o.rows[id].kind)
  }

  /** A recorded outbox event belongs to that row, and a recorded finalize closed its escrow. */
  ghost predicate EventsFaithful(l: Ledger, closedOnce: set<Campaign>, o: Outbox) {
    && (forall ev :: ev in l.applied ==>
          && l.applied[ev].campaign in l.escrows && !l.applied[ev].kind.OtherKind?
          && (l.applied[ev].kind.IsFinal() ==> l.applied[ev].campaign in closedOnce))
    && (forall ev :: ev in l.applied && IsOutboxEvent(ev) ==> OwnedByRow(o, ev, l.applied[ev]))
  }

  /** Recording one more event, of an outbox row if it has an outbox form. */
  lemma RecordFaithful(l: Ledger, k: Ledger, closed: set<Campaign>, closed': set<Campaign>, o: Outbox, ev: string, en: Entry)
    requires EventsFaithful(l, closed, o) && closed <= closed' && l.escrows.Keys <= k.escrows.Keys
    requires k.applied == l.applied[ev := en] && en.campaign in k.escrows && !en.kind.OtherKind?
    requires en.kind.IsFinal() ==> en.campaign in closed'
    requires IsOutboxEvent(ev) ==> OwnedByRow(o, ev, en)
    ensures EventsFaithful(k, closed', o)
  {
    forall x | x in k.applied && IsOutboxEvent(x) ensures OwnedByRow(o, x, k.applied[x]) {
      if x != ev {
        assert OwnedByRow(o, x, l.applied[x]);
      }
    }
  }

  lemma OutboxEventIsOwn(l: Ledger, o: Outbox, closedOnce: set<Campaign>, r: Row)
    requires Valid(o) && EventsFaithful(l, closedOnce, o) && r.id in o.rows && o.rows[r.id] == r
    requires EventId(r.campaign, r.id) in l.applied
    ensures Paid(l, r)
  {
    var ev := EventId(r.campaign, r.id);
    assert IsOutboxEvent(ev);
    var id :| id in o.rows && EventId(o.rows[id].campaign, id) == ev
              && l.applied[ev] == Entry(o.rows[id].campaign, o.rows[id].kind);
    EventIdInjective(r.campaign, r.id, o.rows[id].campaign, id);
  }

  lemma FreshMeans(l: Ledger, cfg: Config, r: Row, checksPass: bool)
    requires cfg.Valid() && Sound(l) && ApplyRow(l, cfg, r, checksPass).1.Fresh?
    ensures var k := ApplyRow(l, cfg, r, checksPass).0;
            && Paid(k, r) && r.campaign in k.escrows && !r.kind.OtherKind?
            && k.escrows.Keys == l.escrows.Keys
            && k.applied == l.applied[EventId(r.campaign, r.id) := Entry(r.campaign, r.kind)]
            && (r.kind.IsFinal() ==> k.escrows[r.campaign].status == Closed)
  {
    PayKindGrows(l, cfg, r.kind, r.campaign, r.miner, ParseSeverity(r.severity), checksPass);
  }

  /** Whatever the puller takes as a terminal answer does settle the row. */
  lemma TerminalSettles(l: Ledger, cfg: Config, o: Outbox, closedOnce: set<Campaign>, r: Row, checksPass: bool)
    requires cfg.Valid() && Sound(l) && Valid(o) && EventsFaithful(l, closedOnce, o)
    requires r.id in o.rows && o.rows[r.id] == r
    requires Terminal(ApplyRow(l, cfg, r, checksPass).1)
    ensures var (k, out) := ApplyRow(l, cfg, r, checksPass);
            Settled(k, if r.kind.IsFinal() && out.Fresh? then closedOnce + {r.campaign} else closedOnce, r)
  {
    var (k, out) := ApplyRow(l, cfg, r, checksPass);
    match out
    case Fresh => FreshMeans(l, cfg, r, checksPass);
    case Replayed => OutboxEventIsOwn(l, o, closedOnce, r);
    case Rejected(_) =>
      RejectedMeans(l, cfg, r, checksPass);
  }

  lemma RunDrains(l: Ledger, c: Campaign, miner: Address, bps: nat)
    requires Sound(l)
    ensures var p := PayRun(l, c, miner, bps);
            p.Err? && DrainOnErr(p.error) ==> c in l.escrows && l.escrows[c].runsPaid == l.escrows[c].runsPool
  {
    if c in l.escrows {
      assert l.escrows[c].Valid();
    }
  }

  lemma CrashDrains(l: Ledger, c: Campaign, miner: Address)
    ensures var p := PayCrashBonus(l, c, miner);
            p.Err? && DrainOnErr(p.error) ==> c in l.escrows && CrashUnpayable(l.escrows[c])
  {}

  lemma BountyDrains(l: Ledger, cfg: Config, c: Campaign, miner: Address, severity: Severity)
    requires Sound(l)
    ensures var p := PayBounty(l, cfg, c, miner, severity);
            p.Err? && DrainOnErr(p.error) ==>
              && c in l.escrows
              && var e := l.escrows[c]; e.bountyPaid > 0 || e.refunded > 0 || e.bountyPool <= e.crashPaid
  {
    if c in l.escrows {
      assert l.escrows[c].Valid();
    }
  }

  /** A drain error is only ever given for a permanent reason. */
  lemma RejectedMeans(l: Ledger, cfg: Config, r: Row, checksPass: bool)
    requires cfg.Valid() && Sound(l)
    ensures var (k, out) := ApplyRow(l, cfg, r, checksPass);
            out.Rejected? && DrainOnErr(out.error) ==> k == l && !r.kind.IsFinal() && Settled(l, {}, r)
  {
    var severity := ParseSeverity(r.severity);
    match r.kind
    case Run => RunDrains(l, r.campaign, r.miner, 0);
    case RunFloor => RunDrains(l, r.campaign, r.miner, cfg.floorBps);
    case Finding => BountyDrains(l, cfg, r.campaign, r.miner, severity);
    case Bounty => BountyDrains(l, cfg, r.campaign, r.miner, severity);
    case CrashBonus => CrashDrains(l, r.campaign, r.miner);
    case UniqueCrash => CrashDrains(l, r.campaign, r.miner);
    case Finalize =>
    case Close =>
    case OtherKind(_) =>
  }

  /** A row the action table drains without a ledger call is settled already. */
  lemma DrainSettles(l: Ledger, closedOnce: set<Campaign>, r: Row)
    requires Sound(l) && r.campaign in l.escrows
    requires l.escrows[r.campaign].status == Closed ==> r.campaign in closedOnce
    requires OutboxAction(l.escrows[r.campaign].status, r.kind) == Drain
    ensures Settled(l, closedOnce, r)
  {
    assert l.escrows[r.campaign].Valid();
  }
}
