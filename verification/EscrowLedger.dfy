/** The origin node's escrow ledger (internal/chain/fuzz_escrow.go, fuzz_settle_once.go).

    A ledger operation is one SQLite transaction: it yields a new ledger or an error, and
    an error means rollback, so the ledger is a value and an operation is a function on it. */
module EscrowLedger {
  import opened Sums
  import opened Text

  type Campaign = string
  type Address = string

  const MAX_U64: nat := 0xFFFF_FFFF_FFFF_FFFF
  /** MaxCampaignBudgetHMC (500 HMC) in units of 1e-8 HMC. */
  const MAX_BUDGET_UNITS: nat := 50_000_000_000
  const MIN_PER_RUN_UNITS: nat := 10_000
  const CRASH_BONUS_MAX_UNITS: nat := 1_000_000
  const HUNT_CRASH_BONUS_MAX_UNITS: nat := 5_000_000
  const ADDRESS_LENGTH: nat := 20

  datatype Kind =
    | Run | RunFloor | Finding | Bounty | CrashBonus | UniqueCrash | Finalize | Close
    | OtherKind(name: string)
  {
    predicate IsRun() { Run? || RunFloor? }
    predicate IsBounty() { Finding? || Bounty? }
    predicate IsCrash() { CrashBonus? || UniqueCrash? }
    predicate IsFinal() { Finalize? || Close? }
  }

  datatype Status = Open | BountyPaid | Closed | OtherStatus

  /** A severity after TrimSpace and ToLower. */
  datatype Severity = Critical | High | Medium | OtherSeverity(text: string)

  datatype Split = Split2080 | Split4060 | Split5050

  /** One row of fuzz_campaign_escrow. */
  datatype Escrow = Escrow(
    runsPool: nat, bountyPool: nat,
    runsPaid: nat, bountyPaid: nat, crashPaid: nat, refunded: nat,
    perRun: nat, runsDone: nat, winner: Address, status: Status, split: Split)
  {
    /** bountyLeftUnits: what of the bounty pool is neither paid nor refunded. */
    function BountyLeft(): nat {
      var used := bountyPaid + crashPaid + refunded;
      if bountyPool <= used then 0 else bountyPool - used
    }

    /** The money the escrow still holds. */
    function Locked(): nat {
      if status == Closed || runsPool < runsPaid then 0 else runsPool - runsPaid + BountyLeft()
    }

    predicate Valid() {
      && 0 < perRun && runsPaid <= runsPool && runsPool + bountyPool <= MAX_BUDGET_UNITS
      && bountyPaid + crashPaid + refunded <= bountyPool
      && (bountyPaid > 0 <==> winner != "")
      && (status == BountyPaid ==> bountyPaid > 0)
      && (status == Closed ==> BountyLeft() == 0)
      && status != OtherStatus
    }
  }

  /** A row of fuzz_settle_applied, keyed by event id. */
  datatype Entry = Entry(campaign: Campaign, kind: Kind)

  datatype Ledger = Ledger(
    escrows: map<Campaign, Escrow>,
    applied: map<string, Entry>,
    accounts: map<Address, nat>,
    wallet: Address,
    walletUnits: nat)

  /** Node settings: the Hunt floor rate in basis points and the platform fee account. */
  datatype Config = Config(floorBps: nat, feeAddress: Address) {
    predicate Valid() { 1 <= floorBps <= 10_000 && feeAddress != "" }
  }

  datatype Error =
    | NotFound | EscrowClosed | Depleted | AlreadyPaid
    | BadMiner | BadSeverity | NotPayable | BalanceOverflow | InsufficientBalance
    | UnknownKind | MissingField | NotClosed | NothingToRelock | AlreadyExists | InvariantFailed

  datatype Result<+T> = Ok(value: T) | Err(error: Error)

  function EventKey(c: Campaign, id: nat): string {
    if c == "" then Decimal(id) else c + ":" + Decimal(id)
  }

  /** chain.FuzzSettleEventID on a trimmed campaign id. */
  function EventId(c: Campaign, id: nat): string {
    OUTBOX_PREFIX + EventKey(c, id)
  }

  const OUTBOX_PREFIX := "outbox:"

  predicate IsOutboxEvent(ev: string) { HasPrefix(ev, OUTBOX_PREFIX) }

  /** Only the last colon of s can stand before a colon-free tail. */
  lemma LastColon(a: string, x: string, b: string, y: string)
    requires ':' !in x && ':' !in y
    requires a + ":" + x == b + ":" + y
    ensures a == b && x == y
  {
    var s := a + ":" + x;
    assert s[|a|] == ':' && s[|b|] == ':';
    assert forall i :: |a| < i < |s| ==> s[i] == x[i - |a| - 1];
    assert forall i :: |b| < i < |s| ==> s[i] == y[i - |b| - 1];
    assert |a| == |b|;
    assert a == s[..|a|] == b;
    assert x == s[|a| + 1..] == y;
  }

  lemma EventKeyInjective(c: Campaign, i: nat, d: Campaign, j: nat)
    requires EventKey(c, i) == EventKey(d, j)
    ensures c == d && i == j
  {
    assert c != "" ==> EventKey(c, i)[|c|] == ':';
    assert d != "" ==> EventKey(d, j)[|d|] == ':';
    if c != "" {
      LastColon(c, Decimal(i), d, Decimal(j));
    }
    DecimalInjective(i, j);
  }

  /** Distinct outbox rows have distinct event ids, whatever characters a campaign id holds. */
  lemma EventIdInjective(c: Campaign, i: nat, d: Campaign, j: nat)
    requires EventId(c, i) == EventId(d, j)
    ensures c == d && i == j
  {
    assert EventKey(c, i) == EventId(c, i)[|OUTBOX_PREFIX|..] == EventKey(d, j);
    EventKeyInjective(c, i, d, j);
  }

  predicate ValidMiner(a: Address) { HasPrefix(a, "HMC-") && |a| == ADDRESS_LENGTH }

  /** fuzzescrow.BountyPayoutUnits: the 5% platform fee taken out of a bounty slice. */
  function BountyFee(slice: nat): (fee: nat)
    ensures fee <= slice
  {
    slice / 20
  }

  /** fuzzescrow.UniqueCrashBonusUnitsForSplit. */
  function CrashBonusUnits(pool: nat, split: Split): (bonus: nat)
    ensures bonus <= pool
    ensures bonus > 0 ==> MIN_PER_RUN_UNITS <= bonus < pool
  {
    var cap := if split == Split5050 then HUNT_CRASH_BONUS_MAX_UNITS else CRASH_BONUS_MAX_UNITS;
    var share := if pool / 100 > cap then cap else pool / 100;
    var tenth := pool / 10;
    var bonus := if tenth > 0 && share > tenth then tenth else share;
    if bonus < MIN_PER_RUN_UNITS then 0 else if bonus > pool then pool else bonus
  }

  /** fuzzescrow.HuntBountyPayoutUnits: the share of the remaining pool a Hunt severity earns. */
  function HuntSlice(remaining: nat, severity: Severity): Result<nat> {
    if (severity != Critical && severity != High) || remaining == 0 then Err(NotPayable)
    else
      var slice := if severity == Critical then remaining else remaining * 6 / 10;
      if slice < MIN_PER_RUN_UNITS then Err(NotPayable) else Ok(slice)
  }

  /** creditUnits: accounts and, for the primary wallet, its mirror row. */
  function Credit(l: Ledger, to: Address, units: nat): Result<Ledger> {
    if to == "" || units == 0 then Ok(l)
    else
      var cur := if to in l.accounts then l.accounts[to] else 0;
      if cur + units > MAX_U64 then Err(BalanceOverflow)
      else Ok(l.(accounts := l.accounts[to := cur + units],
                 walletUnits := if to == l.wallet then l.walletUnits + units else l.walletUnits))
  }

  function SetEscrow(l: Ledger, c: Campaign, e: Escrow): Ledger {
    l.(escrows := l.escrows[c := e])
  }

  function RunPay(e: Escrow, bps: nat): nat {
    var floored := e.perRun * bps / 10_000;
    var want := if bps == 0 then e.perRun
                else if floored == 0 && e.perRun > 0 then 1 else floored;
    if e.runsPaid + want > e.runsPool && e.runsPaid <= e.runsPool then e.runsPool - e.runsPaid else want
  }

  /** payFuzzRunAmountTx; bps == 0 pays the full rate. */
  function PayRun(l: Ledger, c: Campaign, miner: Address, bps: nat): Result<Ledger> {
    if !ValidMiner(miner) then Err(BadMiner)
    else if c !in l.escrows then Err(NotFound)
    else
      var e := l.escrows[c];
      if e.status != Open && e.status != BountyPaid then Err(EscrowClosed)
      else
        var pay := RunPay(e, bps);
        if pay == 0 then Err(Depleted)
        else
          match Credit(l, miner, pay)
          case Err(x) => Err(x)
          case Ok(k) => Ok(SetEscrow(k, c, e.(runsPaid := e.runsPaid + pay, runsDone := e.runsDone + 1)))
  }

  /** payFuzzCrashBonusTx. */
  function PayCrashBonus(l: Ledger, c: Campaign, miner: Address): Result<Ledger> {
    if !ValidMiner(miner) then Err(BadMiner)
    else if c !in l.escrows then Err(NotFound)
    else
      var e := l.escrows[c];
      if e.status != Open && e.status != BountyPaid then Err(EscrowClosed)
      else if e.crashPaid > 0 then Err(AlreadyPaid)
      else if e.refunded > 0 then Err(Depleted)
      else if e.bountyPool <= e.bountyPaid then Err(Depleted)
      else
        var bonus := CrashBonusUnits(e.bountyPool, e.split);
        if bonus == 0 || bonus > e.bountyPool - e.bountyPaid then Err(Depleted)
        else
          match Credit(l, miner, bonus)
          case Err(x) => Err(x)
          case Ok(k) => Ok(SetEscrow(k, c, e.(crashPaid := bonus)))
  }

  /** What a finding of this severity takes from the bounty pool, fee included. */
  function BountySlice(e: Escrow, severity: Severity): (r: Result<nat>)
    requires e.crashPaid < e.bountyPool
    ensures r.Ok? ==> 0 < r.value <= e.bountyPool - e.crashPaid
  {
    var remaining := e.bountyPool - e.crashPaid;
    if e.split == Split5050 then HuntSlice(remaining, severity) else Ok(remaining)
  }

  /** payFuzzBountyTx. */
  function PayBounty(l: Ledger, cfg: Config, c: Campaign, miner: Address, severity: Severity): Result<Ledger> {
    if !ValidMiner(miner) then Err(BadMiner)
    else if severity.OtherSeverity? then Err(BadSeverity)
    else if c !in l.escrows then Err(NotFound)
    else
      var e := l.escrows[c];
      if e.status == BountyPaid then Err(AlreadyPaid)
      else if e.status != Open then Err(EscrowClosed)
      else if e.bountyPaid > 0 || e.winner != "" then Err(AlreadyPaid)
      else if e.refunded > 0 then Err(Depleted)
      else if e.bountyPool <= e.crashPaid then Err(Depleted)
      else
        match BountySlice(e, severity)
        case Err(x) => Err(x)
        case Ok(paid) =>
          match Credit(l, miner, paid - BountyFee(paid))
          case Err(x) => Err(x)
          case Ok(k) =>
            match Credit(k, cfg.feeAddress, BountyFee(paid))
            case Err(x) => Err(x)
            case Ok(k2) =>
              Ok(SetEscrow(k2, c, e.(bountyPaid := paid, winner := miner, status := BountyPaid)))
  }

  /** finalizeFuzzEscrowTx, which CancelFuzzEscrow repeats: refund what is left and close.
      checksPass is the verdict of checkEconomicInvariants, which reads tables outside this model. */
  function CloseEscrow(l: Ledger, c: Campaign, checksPass: bool): Result<Ledger> {
    if c !in l.escrows then Err(NotFound)
    else
      var e := l.escrows[c];
      if e.status == Closed then Ok(l)
      else
        match Credit(l, l.wallet, (if e.runsPool < e.runsPaid then 0 else e.runsPool - e.runsPaid) + e.BountyLeft())
        case Err(x) => Err(x)
        case Ok(k) =>
          if !checksPass then Err(InvariantFailed)
          else Ok(SetEscrow(k, c, e.(status := Closed, refunded := e.refunded + e.BountyLeft())))
  }

  /** ReopenFuzzEscrowForSettleDrain: take the unpaid run pool back from the wallet. */
  function Reopen(l: Ledger, c: Campaign, checksPass: bool): Result<Ledger> {
    if c !in l.escrows then Err(NotFound)
    else
      var e := l.escrows[c];
      if e.status != Closed then Err(NotClosed)
      else if e.runsPool <= e.runsPaid then Err(NothingToRelock)
      else
        var need := e.runsPool - e.runsPaid;
        if l.walletUnits < need || l.wallet !in l.accounts || l.accounts[l.wallet] < need then Err(InsufficientBalance)
        else if !checksPass then Err(InvariantFailed)
        else Ok(SetEscrow(Debit(l, need), c, e.(status := Open)))
  }

  function Debit(l: Ledger, units: nat): Ledger
    requires l.wallet in l.accounts && units <= l.accounts[l.wallet] && units <= l.walletUnits
  {
    l.(accounts := l.accounts[l.wallet := l.accounts[l.wallet] - units], walletUnits := l.walletUnits - units)
  }

  /** The escrow lock of OpenFuzzEscrowWithFee, for a split already computed. */
  function OpenEscrow(l: Ledger, c: Campaign, runsPool: nat, bountyPool: nat, perRun: nat, split: Split): Result<Ledger> {
    var total := runsPool + bountyPool;
    if c == "" || perRun == 0 || total > MAX_BUDGET_UNITS then Err(MissingField)
    else if c in l.escrows then Err(AlreadyExists)
    else if l.walletUnits < total || l.wallet !in l.accounts || l.accounts[l.wallet] < total then Err(InsufficientBalance)
    else Ok(SetEscrow(Debit(l, total), c, Escrow(runsPool, bountyPool, 0, 0, 0, 0, perRun, 0, "", Open, split)))
  }

  function PayKind(l: Ledger, cfg: Config, kind: Kind, c: Campaign, miner: Address, severity: Severity, checksPass: bool): Result<Ledger> {
    match kind
    case Run => PayRun(l, c, miner, 0)
    case RunFloor => PayRun(l, c, miner, cfg.floorBps)
    case Finding | Bounty => PayBounty(l, cfg, c, miner, severity)
    case CrashBonus | UniqueCrash => PayCrashBonus(l, c, miner)
    case Finalize | Close => CloseEscrow(l, c, checksPass)
    case OtherKind(_) => Err(UnknownKind)
  }

  /** Fresh: paid and recorded. Replayed: recorded before, nothing done. Rejected: rolled back. */
  datatype Outcome = Fresh | Replayed | Rejected(error: Error)

  /** ApplyFuzzSettleOnce: the event row and the payment share one transaction. */
  function ApplyOnce(l: Ledger, cfg: Config, ev: string, kind: Kind, c: Campaign, miner: Address,
                     severity: Severity, checksPass: bool): (Ledger, Outcome)
  {
    if ev == "" || c == "" then (l, Rejected(MissingField))
    else if ev in l.applied then (l, if c in l.escrows then Replayed else Rejected(NotFound))
    else
      match PayKind(l, cfg, kind, c, miner, severity, checksPass)
      case Err(x) => (l, Rejected(x))
      case Ok(k) => (k.(applied := k.applied[ev := Entry(c, kind)]), Fresh)
  }

  // ---------------------------------------------------------------- conservation

  ghost function LockedMap(es: map<Campaign, Escrow>): map<Campaign, nat> {
    map c | c in es :: es[c].Locked()
  }

  /** Everything the ledger holds: account balances plus money locked in escrows. */
  ghost function Money(l: Ledger): nat { Total(l.accounts) + Total(LockedMap(l.escrows)) }

  /** Escrow rows are consistent, and the wallet row mirrors the wallet's account. */
  ghost predicate Sound(l: Ledger) {
    && l.wallet != "" && l.wallet in l.accounts && l.walletUnits == l.accounts[l.wallet]
    && (forall c :: c in l.escrows ==> c != "" && l.escrows[c].Valid())
  }

  /** What every ledger operation does: rows stay consistent and no money appears or is lost. */
  ghost predicate Keeps(l: Ledger, k: Ledger) { Sound(k) && Money(k) == Money(l) }

  lemma CreditKeeps(l: Ledger, to: Address, units: nat)
    requires Sound(l) && Credit(l, to, units).Ok?
    ensures var k := Credit(l, to, units).value;
            && Sound(k) && k.escrows == l.escrows && k.applied == l.applied && k.wallet == l.wallet
            && Total(k.accounts) == Total(l.accounts) + (if to == "" then 0 else units)
  {
    var cur := if to in l.accounts then l.accounts[to] else 0;
    TotalUpdate(l.accounts, to, cur + units);
  }

  lemma SetEscrowMoney(l: Ledger, c: Campaign, e: Escrow)
    ensures Money(SetEscrow(l, c, e)) + (if c in l.escrows then l.escrows[c].Locked() else 0)
         == Money(l) + e.Locked()
  {
    TotalUpdate(LockedMap(l.escrows), c, e.Locked());
    assert LockedMap(l.escrows[c := e]) == LockedMap(l.escrows)[c := e.Locked()];
  }

  /** Paid money leaves the escrow as it reaches the accounts. */
  lemma PaidFromEscrow(l: Ledger, k: Ledger, c: Campaign, e: Escrow, paid: nat)
    requires Sound(l) && Sound(k) && k.escrows == l.escrows && c in l.escrows
    requires Total(k.accounts) == Total(l.accounts) + paid
    requires e.Valid() && e.Locked() + paid == l.escrows[c].Locked()
    ensures Keeps(l, SetEscrow(k, c, e))
  {
    SetEscrowMoney(k, c, e);
  }

  lemma PaidOut(l: Ledger, k: Ledger, to: Address, units: nat, c: Campaign, e: Escrow)
    requires Sound(l) && to != "" && Credit(l, to, units).Ok? && c in l.escrows
    requires e.Valid() && e.Locked() + units == l.escrows[c].Locked()
    requires k == SetEscrow(Credit(l, to, units).value, c, e)
    ensures Keeps(l, k)
  {
    CreditKeeps(l, to, units);
    PaidFromEscrow(l, Credit(l, to, units).value, c, e, units);
  }

  lemma RunEscrow(e: Escrow, pay: nat)
    requires e.Valid() && e.status != Closed && e.runsPaid + pay <= e.runsPool
    ensures var f := e.(runsPaid := e.runsPaid + pay, runsDone := e.runsDone + 1);
            f.Valid() && f.Locked() + pay == e.Locked()
  {}

  lemma PayRunShape(l: Ledger, c: Campaign, miner: Address, bps: nat) returns (pay: nat)
    requires PayRun(l, c, miner, bps).Ok?
    ensures c in l.escrows && miner != "" && l.escrows[c].status != Closed
    ensures var e := l.escrows[c];
            && 0 < pay && (e.runsPaid <= e.runsPool ==> e.runsPaid + pay <= e.runsPool) && Credit(l, miner, pay).Ok?
            && PayRun(l, c, miner, bps).value ==
                 SetEscrow(Credit(l, miner, pay).value, c, e.(runsPaid := e.runsPaid + pay, runsDone := e.runsDone + 1))
  {
    pay := RunPay(l.escrows[c], bps);
  }

  lemma PayRunKeeps(l: Ledger, c: Campaign, miner: Address, bps: nat)
    requires Sound(l) && PayRun(l, c, miner, bps).Ok?
    ensures Keeps(l, PayRun(l, c, miner, bps).value)
  {
    var pay := PayRunShape(l, c, miner, bps);
    var e := l.escrows[c];
    RunEscrow(e, pay);
    PaidOut(l, PayRun(l, c, miner, bps).value, miner, pay, c, e.(runsPaid := e.runsPaid + pay, runsDone := e.runsDone + 1));
  }

  lemma PayCrashBonusKeeps(l: Ledger, c: Campaign, miner: Address)
    requires Sound(l) && PayCrashBonus(l, c, miner).Ok?
    ensures Keeps(l, PayCrashBonus(l, c, miner).value)
  {
    var e := l.escrows[c];
    var bonus := CrashBonusUnits(e.bountyPool, e.split);
    PaidOut(l, PayCrashBonus(l, c, miner).value, miner, bonus, c, e.(crashPaid := bonus));
  }

  lemma CreditTwiceKeeps(l: Ledger, to: Address, units: nat, to2: Address, units2: nat)
    requires Sound(l) && to != "" && to2 != "" && Credit(l, to, units).Ok?
    requires Credit(Credit(l, to, units).value, to2, units2).Ok?
    ensures var k := Credit(Credit(l, to, units).value, to2, units2).value;
            && Sound(k) && k.escrows == l.escrows && Total(k.accounts) == Total(l.accounts) + units + units2
  {
    CreditKeeps(l, to, units);
    CreditKeeps(Credit(l, to, units).value, to2, units2);
  }

  lemma BountyEscrow(e: Escrow, severity: Severity, miner: Address)
    requires e.Valid() && e.status == Open && e.bountyPaid == 0 && e.refunded == 0
    requires e.crashPaid < e.bountyPool && BountySlice(e, severity).Ok? && miner != ""
    ensures var paid := BountySlice(e, severity).value; var f := e.(bountyPaid := paid, winner := miner, status := BountyPaid);
            f.Valid() && f.Locked() + paid == e.Locked()
  {}

  /** The two credits of a bounty. */
  function BountyCredits(l: Ledger, cfg: Config, miner: Address, paid: nat): Result<Ledger> {
    match Credit(l, miner, paid - BountyFee(paid))
    case Err(x) => Err(x)
    case Ok(k) => Credit(k, cfg.feeAddress, BountyFee(paid))
  }

  lemma BountyCreditsKeep(l: Ledger, cfg: Config, miner: Address, paid: nat)
    requires cfg.Valid() && Sound(l) && miner != "" && BountyCredits(l, cfg, miner, paid).Ok?
    ensures var k := BountyCredits(l, cfg, miner, paid).value;
            Sound(k) && k.escrows == l.escrows && Total(k.accounts) == Total(l.accounts) + paid
  {
    CreditTwiceKeeps(l, miner, paid - BountyFee(paid), cfg.feeAddress, BountyFee(paid));
  }

  lemma PayBountyShape(l: Ledger, cfg: Config, c: Campaign, miner: Address, severity: Severity) returns (paid: nat)
    requires PayBounty(l, cfg, c, miner, severity).Ok?
    ensures c in l.escrows && miner != ""
    ensures var e := l.escrows[c];
            && e.status == Open && e.bountyPaid == 0 && e.refunded == 0 && e.crashPaid < e.bountyPool
            && BountySlice(e, severity) == Result.Ok(paid)
            && BountyCredits(l, cfg, miner, paid).Ok?
            && PayBounty(l, cfg, c, miner, severity).value ==
                 SetEscrow(BountyCredits(l, cfg, miner, paid).value, c, e.(bountyPaid := paid, winner := miner, status := BountyPaid))
  {
    paid := BountySlice(l.escrows[c], severity).value;
  }

  lemma PayBountyKeeps(l: Ledger, cfg: Config, c: Campaign, miner: Address, severity: Severity)
    requires cfg.Valid() && Sound(l) && PayBounty(l, cfg, c, miner, severity).Ok?
    ensures Keeps(l, PayBounty(l, cfg, c, miner, severity).value)
  {
    var paid := PayBountyShape(l, cfg, c, miner, severity);
    BountyCreditsKeep(l, cfg, miner, paid);
    BountyEscrow(l.escrows[c], severity, miner);
    PaidFromEscrow(l, BountyCredits(l, cfg, miner, paid).value, c,
                   l.escrows[c].(bountyPaid := paid, winner := miner, status := BountyPaid), paid);
  }

  /** A refund takes all an escrow still holds. */
  lemma ClosedEscrow(e: Escrow)
    requires e.Valid() && e.status != Closed
    ensures var f := e.(status := Closed, refunded := e.refunded + e.BountyLeft());
            f.Valid() && f.Locked() == 0 && e.Locked() == e.runsPool - e.runsPaid + e.BountyLeft()
  {}

  lemma CloseEscrowKeeps(l: Ledger, c: Campaign, checksPass: bool)
    requires Sound(l) && CloseEscrow(l, c, checksPass).Ok?
    ensures var k := CloseEscrow(l, c, checksPass).value;
            Keeps(l, k) && k.escrows[c].status == Closed && k.escrows[c].Locked() == 0
  {
    var e := l.escrows[c];
    if e.status != Closed {
      ClosedEscrow(e);
      PaidOut(l, CloseEscrow(l, c, checksPass).value, l.wallet, e.Locked(), c, e.(status := Closed, refunded := e.refunded + e.BountyLeft()));
    }
  }

  lemma DebitKeeps(l: Ledger, units: nat)
    requires Sound(l) && units <= l.walletUnits
    ensures var k := Debit(l, units);
            Sound(k) && k.escrows == l.escrows && Total(k.accounts) + units == Total(l.accounts)
  {
    TotalUpdate(l.accounts, l.wallet, l.accounts[l.wallet] - units);
  }

  /** Money taken out of the wallet is what the escrow holds more. */
  lemma LockedFromWallet(l: Ledger, d: Ledger, k: Ledger, c: Campaign, e: Escrow, units: nat)
    requires Sound(d) && d.escrows == l.escrows && Total(d.accounts) + units == Total(l.accounts)
    requires c != "" && e.Valid()
    requires e.Locked() == units + (if c in l.escrows then l.escrows[c].Locked() else 0)
    requires k == SetEscrow(d, c, e)
    ensures Keeps(l, k)
  {
    SetEscrowMoney(d, c, e);
  }

  lemma ReopenKeeps(l: Ledger, c: Campaign, checksPass: bool)
    requires Sound(l) && Reopen(l, c, checksPass).Ok?
    ensures Keeps(l, Reopen(l, c, checksPass).value)
  {
    var e := l.escrows[c];
    var need := e.runsPool - e.runsPaid;
    DebitKeeps(l, need);
    LockedFromWallet(l, Debit(l, need), Reopen(l, c, checksPass).value, c, e.(status := Open), need);
  }

  lemma OpenEscrowKeeps(l: Ledger, c: Campaign, runsPool: nat, bountyPool: nat, perRun: nat, split: Split)
    requires Sound(l) && OpenEscrow(l, c, runsPool, bountyPool, perRun, split).Ok?
    ensures Keeps(l, OpenEscrow(l, c, runsPool, bountyPool, perRun, split).value)
  {
    var total := runsPool + bountyPool;
    DebitKeeps(l, total);
    LockedFromWallet(l, Debit(l, total), OpenEscrow(l, c, runsPool, bountyPool, perRun, split).value, c,
                     Escrow(runsPool, bountyPool, 0, 0, 0, 0, perRun, 0, "", Open, split), total);
  }

  lemma PayKindKeeps(l: Ledger, cfg: Config, kind: Kind, c: Campaign, miner: Address, severity: Severity, checksPass: bool)
    requires cfg.Valid() && Sound(l) && PayKind(l, cfg, kind, c, miner, severity, checksPass).Ok?
    ensures Keeps(l, PayKind(l, cfg, kind, c, miner, severity, checksPass).value)
  {
    match kind
    case Run => PayRunKeeps(l, c, miner, 0);
    case RunFloor => PayRunKeeps(l, c, miner, cfg.floorBps);
    case Finding | Bounty => PayBountyKeeps(l, cfg, c, miner, severity);
    case CrashBonus | UniqueCrash => PayCrashBonusKeeps(l, c, miner);
    case Finalize | Close => CloseEscrowKeeps(l, c, checksPass);
  }

  lemma ApplyOnceKeeps(l: Ledger, cfg: Config, ev: string, kind: Kind, c: Campaign, miner: Address,
                       severity: Severity, checksPass: bool)
    requires cfg.Valid() && Sound(l)
    ensures Keeps(l, ApplyOnce(l, cfg, ev, kind, c, miner, severity, checksPass).0)
  {
    if ev != "" && c != "" && ev !in l.applied && PayKind(l, cfg, kind, c, miner, severity, checksPass).Ok? {
      PayKindKeeps(l, cfg, kind, c, miner, severity, checksPass);
    }
  }
}
