/** Credits and recorded events agree one to one (internal/chain/fuzz_settle_once.go). */
module EventAccounting {
  import opened EscrowLedger
  import opened Settlement

  /** The three kinds of credit an escrow counts separately. */
  datatype Group = Runs | Bounties | Crashes {
    predicate Has(k: Kind) {
      match this
      case Runs => k.IsRun()
      case Bounties => k.IsBounty()
      case Crashes => k.IsCrash()
    }
  }

  function Events(applied: map<string, Entry>, c: Campaign, g: Group): set<string> {
    set ev | ev in applied && applied[ev].campaign == c && g.Has(applied[ev].kind)
  }

  /** How many credits of the group the escrow row has taken. */
  function Credits(e: Escrow, g: Group): nat {
    match g
    case Runs => e.runsDone
    case Bounties => if e.bountyPaid > 0 then 1 else 0
    case Crashes => if e.crashPaid > 0 then 1 else 0
  }

  /** Every credit belongs to exactly one recorded event, so a campaign pays one bounty and one
      crash bonus at most, and no more for runs than the rate times the recorded run events. */
  ghost predicate Accounted(l: Ledger) {
    && (forall c, g :: c in l.escrows ==> |Events(l.applied, c, g)| == Credits(l.escrows[c], g))
    && (forall c :: c in l.escrows ==> l.escrows[c].runsPaid <= l.escrows[c].runsDone * l.escrows[c].perRun)
    && (forall ev :: ev in l.applied ==> l.applied[ev].campaign in l.escrows)
  }

  lemma EventsInsert(applied: map<string, Entry>, ev: string, en: Entry, c: Campaign, g: Group)
    requires ev !in applied
    ensures Events(applied[ev := en], c, g) == Events(applied, c, g) + (if en.campaign == c && g.Has(en.kind) then {ev} else {})
    ensures ev !in Events(applied, c, g)
  {
    var k := applied[ev := en];
    forall x | x != ev ensures x in Events(k, c, g) <==> x in Events(applied, c, g) {
      assert x in k <==> x in applied;
    }
  }

  lemma EventsCount(applied: map<string, Entry>, ev: string, en: Entry, c: Campaign, g: Group)
    requires ev !in applied
    ensures |Events(applied[ev := en], c, g)| == |Events(applied, c, g)| + (if en.campaign == c && g.Has(en.kind) then 1 else 0)
  {
    EventsInsert(applied, ev, en, c, g);
  }

  lemma RunPayAtMost(e: Escrow, bps: nat)
    requires bps <= 10_000 && e.Valid()
    ensures RunPay(e, bps) <= e.perRun
  {
    assert e.perRun * bps <= e.perRun * 10_000;
  }

  /** From e to f the escrow takes one credit of the group of this kind, and runs within the rate. */
  ghost predicate CreditsOne(e: Escrow, f: Escrow, kind: Kind) {
    && (forall g: Group :: Credits(f, g) == Credits(e, g) + (if g.Has(kind) then 1 else 0))
    && f.perRun == e.perRun
    && f.runsPaid <= e.runsPaid + (if kind.IsRun() then e.perRun else 0)
  }

  lemma RunTakesOne(l: Ledger, c: Campaign, miner: Address, bps: nat, kind: Kind)
    requires Sound(l) && bps <= 10_000 && PayRun(l, c, miner, bps).Ok? && kind.IsRun()
    ensures GrowsAt(l, PayRun(l, c, miner, bps).value, c)
    ensures CreditsOne(l.escrows[c], PayRun(l, c, miner, bps).value.escrows[c], kind)
  {
    RunPayAtMost(l.escrows[c], bps);
    RunGrows(l, c, miner, bps);
  }

  lemma CrashTakesOne(l: Ledger, c: Campaign, miner: Address, kind: Kind)
    requires PayCrashBonus(l, c, miner).Ok? && kind.IsCrash()
    ensures GrowsAt(l, PayCrashBonus(l, c, miner).value, c)
    ensures CreditsOne(l.escrows[c], PayCrashBonus(l, c, miner).value.escrows[c], kind)
  {
    CrashGrows(l, c, miner);
  }

  lemma BountyTakesOne(l: Ledger, cfg: Config, c: Campaign, miner: Address, severity: Severity, kind: Kind)
    requires PayBounty(l, cfg, c, miner, severity).Ok? && kind.IsBounty()
    ensures GrowsAt(l, PayBounty(l, cfg, c, miner, severity).value, c)
    ensures CreditsOne(l.escrows[c], PayBounty(l, cfg, c, miner, severity).value.escrows[c], kind)
  {
    BountyGrows(l, cfg, c, miner, severity);
  }

  lemma CloseTakesNone(l: Ledger, c: Campaign, checksPass: bool, kind: Kind)
    requires CloseEscrow(l, c, checksPass).Ok? && kind.IsFinal()
    ensures GrowsAt(l, CloseEscrow(l, c, checksPass).value, c)
    ensures CreditsOne(l.escrows[c], CloseEscrow(l, c, checksPass).value.escrows[c], kind)
  {
    CloseGrows(l, c, checksPass);
  }

  /** One payment adds one credit to the group of its kind, in its campaign only. */
  lemma PayKindCredits(l: Ledger, cfg: Config, kind: Kind, c: Campaign, miner: Address, severity: Severity, checksPass: bool)
    requires cfg.Valid() && Sound(l) && PayKind(l, cfg, kind, c, miner, severity, checksPass).Ok?
    ensures var k := PayKind(l, cfg, kind, c, miner, severity, checksPass).value;
            GrowsAt(l, k, c) && CreditsOne(l.escrows[c], k.escrows[c], kind)
  {
    match kind
    case Run => RunTakesOne(l, c, miner, 0, kind);
    case RunFloor => RunTakesOne(l, c, miner, cfg.floorBps, kind);
    case Finding | Bounty => BountyTakesOne(l, cfg, c, miner, severity, kind);
    case CrashBonus | UniqueCrash => CrashTakesOne(l, c, miner, kind);
    case Finalize | Close => CloseTakesNone(l, c, checksPass, kind);
  }

  lemma RunsAtRate(e: Escrow, f: Escrow, more: nat)
    requires e.runsPaid <= e.runsDone * e.perRun && f.perRun == e.perRun && f.runsDone == e.runsDone + more && more <= 1
    requires f.runsPaid <= e.runsPaid + (if more == 1 then e.perRun else 0)
    ensures f.runsPaid <= f.runsDone * f.perRun
  {
    assert (e.runsDone + 1) * e.perRun == e.runsDone * e.perRun + e.perRun;
  }

  /** One event recorded together with one credit of its group. */
  lemma RecordedTogether(l: Ledger, k: Ledger, ev: string, kind: Kind, c: Campaign)
    requires Accounted(l) && ev !in l.applied && c in l.escrows
    requires k.applied == l.applied[ev := Entry(c, kind)] && k.escrows.Keys == l.escrows.Keys
    requires forall d :: d in l.escrows && d != c ==> k.escrows[d] == l.escrows[d]
    requires CreditsOne(l.escrows[c], k.escrows[c], kind)
    ensures Accounted(k)
  {
    forall d, g: Group | d in k.escrows ensures |Events(k.applied, d, g)| == Credits(k.escrows[d], g) {
      EventsCount(l.applied, ev, Entry(c, kind), d, g);
      assert |Events(l.applied, d, g)| == Credits(l.escrows[d], g);
    }
    var e, f := l.escrows[c], k.escrows[c];
    assert Credits(f, Runs) == Credits(e, Runs) + (if Runs.Has(kind) then 1 else 0);
    RunsAtRate(e, f, if kind.IsRun() then 1 else 0);
  }

  /** ApplyFuzzSettleOnce keeps the accounts in step with the event table. */
  lemma ApplyOnceAccounted(l: Ledger, cfg: Config, ev: string, kind: Kind, c: Campaign, miner: Address,
                           severity: Severity, checksPass: bool)
    requires cfg.Valid() && Sound(l) && Accounted(l)
    ensures Accounted(ApplyOnce(l, cfg, ev, kind, c, miner, severity, checksPass).0)
  {
    var (k, out) := ApplyOnce(l, cfg, ev, kind, c, miner, severity, checksPass);
    if out.Fresh? {
      PayKindCredits(l, cfg, kind, c, miner, severity, checksPass);
      RecordedTogether(l, k, ev, kind, c);
    }
  }

  lemma CloseEscrowAccounted(l: Ledger, c: Campaign, checksPass: bool)
    requires Accounted(l) && CloseEscrow(l, c, checksPass).Ok?
    ensures Accounted(CloseEscrow(l, c, checksPass).value)
  {
    var k := CloseEscrow(l, c, checksPass).value;
    forall d, g | d in k.escrows ensures |Events(k.applied, d, g)| == Credits(k.escrows[d], g) {
      assert Credits(k.escrows[d], g) == Credits(l.escrows[d], g);
    }
  }

  lemma ReopenAccounted(l: Ledger, c: Campaign, checksPass: bool)
    requires Accounted(l) && Reopen(l, c, checksPass).Ok?
    ensures Accounted(Reopen(l, c, checksPass).value)
  {
    var k := Reopen(l, c, checksPass).value;
    forall d, g | d in k.escrows ensures |Events(k.applied, d, g)| == Credits(k.escrows[d], g) {
      assert Credits(k.escrows[d], g) == Credits(l.escrows[d], g);
    }
  }

  lemma OpenEscrowAccounted(l: Ledger, c: Campaign, runsPool: nat, bountyPool: nat, perRun: nat, split: Split)
    requires Accounted(l) && OpenEscrow(l, c, runsPool, bountyPool, perRun, split).Ok?
    ensures Accounted(OpenEscrow(l, c, runsPool, bountyPool, perRun, split).value)
  {
    var k := OpenEscrow(l, c, runsPool, bountyPool, perRun, split).value;
    forall d, g | d in k.escrows ensures |Events(k.applied, d, g)| == Credits(k.escrows[d], g) {
      if d == c {
        assert Events(k.applied, d, g) == {};
      } else {
        assert Credits(k.escrows[d], g) == Credits(l.escrows[d], g);
      }
    }
  }
}
