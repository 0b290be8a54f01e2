/** The settlement protocol as a state machine: a coordinator's outbox, the origin node's ledger,
    any number of concurrent pullers, the coordinator's HTTP relay, and the operator. Every step a
    puller takes between two of its reads or writes of shared state is one action, so a run is an
    arbitrary interleaving, with crashes and lost replies anywhere. */
module SettleProtocol {
  import opened EscrowLedger
  import opened SettleOutbox
  import opened Settlement
  import opened EventAccounting

  const FETCH_LIMIT: nat := 256

  /** A puller's local variables inside one pass (fuzz_settle_pull.go:81-96). */
  datatype Local = Local(todo: seq<Row>, acked: seq<nat>, failed: set<Campaign>)

  datatype Puller =
    | Idle
    | At(local: Local)       // about to read the status of todo[0], or to acknowledge
    | Paying(local: Local)   // has decided to apply todo[0]

  datatype Sys = Sys(outbox: Outbox, ledger: Ledger, closedOnce: set<Campaign>, pullers: map<nat, Puller>) {
    function PullerAt(p: nat): Puller { if p in pullers then pullers[p] else Idle }
  }

  datatype Action =
    | Enqueue(key: Row)
    | Fetch(p: nat, items: seq<Row>)
    | Look(p: nat)
    | Pay(p: nat, checksPass: bool)
    | AckNext(p: nat)
    | Crash(p: nat)                       // the pass ends: a crash, an error, or nothing left to do
    | RelayApply(id: nat, checksPass: bool)
    | RelayAck(id: nat)
    | AdminSettle(ev: string, kind: Kind, c: Campaign, miner: Address, severity: Severity, checksPass: bool)
    | CloseNow(c: Campaign, checksPass: bool)
    | ReopenNow(c: Campaign, checksPass: bool)
    | OpenNow(c: Campaign, runsPool: nat, bountyPool: nat, perRun: nat, split: Split)
  {
    predicate OwnedBy(q: nat) { (Fetch? || Look? || Pay? || AckNext? || Crash?) && p == q }
  }

  /** Runs, bonuses and findings first, finalize and close last (fuzz_settle_pull.go:84-95). */
  function FinalsLast(items: seq<Row>): seq<Row> {
    NonFinals(items) + Finals(items)
  }

  function NonFinals(items: seq<Row>): seq<Row> {
    if items == [] then []
    else NonFinals(items[..|items| - 1]) + (if items[|items| - 1].kind.IsFinal() then [] else [items[|items| - 1]])
  }

  function Finals(items: seq<Row>): seq<Row> {
    if items == [] then []
    else Finals(items[..|items| - 1]) + (if items[|items| - 1].kind.IsFinal() then [items[|items| - 1]] else [])
  }

  lemma {:induction false} FinalsLastFacts(items: seq<Row>)
    ensures forall r :: r in NonFinals(items) <==> r in items && !r.kind.IsFinal()
    ensures forall r :: r in Finals(items) <==> r in items && r.kind.IsFinal()
    ensures |FinalsLast(items)| == |items|
    ensures forall r :: r in FinalsLast(items) <==> r in items
  {
    if items != [] {
      FinalsLastFacts(items[..|items| - 1]);
      assert items == items[..|items| - 1] + [items[|items| - 1]];
    }
  }

  function ClosedNow(l: Ledger): set<Campaign> {
    set c | c in l.escrows && l.escrows[c].status == Closed
  }

  /** A ledger write; closedOnce remembers which escrows have ever been closed. */
  function WithLedger(s: Sys, l: Ledger): Sys {
    s.(ledger := l, closedOnce := s.closedOnce + ClosedNow(l))
  }

  function WithPuller(s: Sys, p: nat, u: Puller): Sys { s.(pullers := s.pullers[p := u]) }

  /** One turn of the row loop up to the ledger call (fuzz_settle_pull.go:98-120). */
  function LookAt(l: Ledger, w: Local): Puller
    requires w.todo != []
  {
    var r := w.todo[0];
    var next := w.(todo := w.todo[1..]);
    if r.campaign !in l.escrows then At(next)
    else if r.kind.IsFinal() && r.campaign in w.failed then At(next)
    else
      match OutboxAction(l.escrows[r.campaign].status, r.kind)
      case Drain => At(next.(acked := w.acked + [r.id]))
      case Keep => At(next)
      case Apply => Paying(w)
  }

  /** The rest of the turn, on the ledger's answer (fuzz_settle_pull.go:121-132). */
  function Answered(w: Local, out: Outcome): Local
    requires w.todo != []
  {
    var r := w.todo[0];
    var next := w.(todo := w.todo[1..]);
    if Terminal(out) then next.(acked := w.acked + [r.id])
    else if r.kind.IsFinal() then next
    else next.(failed := w.failed + {r.campaign})
  }

  predicate Enabled(s: Sys, a: Action) {
    match a
    case Enqueue(_) => true
    case Fetch(p, items) => s.PullerAt(p).Idle? && IsWindow(s.outbox, items) && |items| <= FETCH_LIMIT
    case Look(p) => s.PullerAt(p).At? && s.PullerAt(p).local.todo != []
    case Pay(p, _) => s.PullerAt(p).Paying? && s.PullerAt(p).local.todo != []
    case AckNext(p) => s.PullerAt(p).At? && s.PullerAt(p).local.todo == [] && s.PullerAt(p).local.acked != []
    case Crash(_) => true
    case RelayApply(id, _) => id in s.outbox.rows
    case RelayAck(id) => id in s.outbox.rows && Paid(s.ledger, s.outbox.rows[id])
    case AdminSettle(ev, _, _, _, _, _) => !IsOutboxEvent(ev)
    case CloseNow(c, checksPass) => CloseEscrow(s.ledger, c, checksPass).Ok?
    case ReopenNow(c, checksPass) => Reopen(s.ledger, c, checksPass).Ok?
    case OpenNow(c, rp, bp, pr, sp) => OpenEscrow(s.ledger, c, rp, bp, pr, sp).Ok?
  }

  function Step(cfg: Config, s: Sys, a: Action): Sys
    requires Enabled(s, a)
  {
    match a
    case Enqueue(key) => s.(outbox := SettleOutbox.Enqueue(s.outbox, key).0)
    case Fetch(p, items) => WithPuller(s, p, At(Local(FinalsLast(items), [], {})))
    case Look(p) => WithPuller(s, p, LookAt(s.ledger, s.PullerAt(p).local))
    case Pay(p, checksPass) =>
      var w := s.PullerAt(p).local;
      var (k, out) := ApplyRow(s.ledger, cfg, w.todo[0], checksPass);
      WithPuller(WithLedger(s, k), p, At(Answered(w, out)))
    case AckNext(p) =>
      var w := s.PullerAt(p).local;
      WithPuller(s.(outbox := AckOne(s.outbox, w.acked[0])), p, At(w.(acked := w.acked[1..])))
    case Crash(p) => WithPuller(s, p, Idle)
    case RelayApply(id, checksPass) => WithLedger(s, ApplyRow(s.ledger, cfg, s.outbox.rows[id], checksPass).0)
    case RelayAck(id) => s.(outbox := AckOne(s.outbox, id))
    case AdminSettle(ev, kind, c, miner, severity, checksPass) =>
      WithLedger(s, ApplyOnce(s.ledger, cfg, ev, kind, c, miner, severity, checksPass).0)
    case CloseNow(c, checksPass) => WithLedger(s, CloseEscrow(s.ledger, c, checksPass).value)
    case ReopenNow(c, checksPass) => WithLedger(s, Reopen(s.ledger, c, checksPass).value)
    case OpenNow(c, rp, bp, pr, sp) => WithLedger(s, OpenEscrow(s.ledger, c, rp, bp, pr, sp).value)
  }

  /** A disabled action does nothing. */
  function Do(cfg: Config, s: Sys, a: Action): Sys {
    if Enabled(s, a) then Step(cfg, s, a) else s
  }

  function Execute(cfg: Config, s: Sys, as_: seq<Action>): Sys {
    if as_ == [] then s else Do(cfg, Execute(cfg, s, as_[..|as_| - 1]), as_[|as_| - 1])
  }

  // ---------------------------------------------------------------- the invariant

  ghost predicate LocalOk(s: Sys, w: Local) {
    && (forall r :: r in w.todo ==> r.id in s.outbox.rows && s.outbox.rows[r.id] == r)
    && (forall id :: id in w.acked ==> id in s.outbox.rows && Settled(s.ledger, s.closedOnce, s.outbox.rows[id]))
  }

  ghost predicate Inv(s: Sys) {
    && Valid(s.outbox) && Sound(s.ledger) && Accounted(s.ledger)
    && ClosedNow(s.ledger) <= s.closedOnce
    && EventsFaithful(s.ledger, s.closedOnce, s.outbox)
    && (forall id :: id in s.outbox.acked ==> Settled(s.ledger, s.closedOnce, s.outbox.rows[id]))
    && (forall p :: p in s.pullers && !s.pullers[p].Idle? ==> LocalOk(s, s.pullers[p].local))
  }

  /** A fresh coordinator, a sound ledger without recorded events, nobody pulling. */
  ghost predicate Init(s: Sys) {
    && s.outbox == Outbox(map[], {}, 1) && s.ledger.applied == map[] && s.pullers == map[]
    && Sound(s.ledger) && s.closedOnce == ClosedNow(s.ledger)
    && (forall c :: c in s.ledger.escrows ==>
          var e := s.ledger.escrows[c]; e.runsDone == 0 && e.runsPaid == 0 && e.bountyPaid == 0 && e.crashPaid == 0)
  }

  lemma InitInv(s: Sys)
    requires Init(s)
    ensures Inv(s)
  {
    forall c, g: Group | c in s.ledger.escrows
      ensures |Events(s.ledger.applied, c, g)| == Credits(s.ledger.escrows[c], g)
    {
      assert Events(s.ledger.applied, c, g) == {};
    }
  }

  /** A ledger write that only grows the ledger keeps everything settled. */
  lemma LedgerWriteInv(s: Sys, k: Ledger)
    requires Inv(s) && Sound(k) && Accounted(k) && Grows(s.ledger, k)
    requires EventsFaithful(k, s.closedOnce + ClosedNow(k), s.outbox)
    ensures Inv(WithLedger(s, k))
  {
    var t := WithLedger(s, k);
    forall id | id in s.outbox.rows && Settled(s.ledger, s.closedOnce, s.outbox.rows[id])
      ensures Settled(k, t.closedOnce, s.outbox.rows[id])
    {
      SettledStable(s.ledger, k, s.closedOnce, t.closedOnce, s.outbox.rows[id]);
    }
  }

  lemma ApplyRowInv(cfg: Config, s: Sys, id: nat, checksPass: bool)
    requires cfg.Valid() && Inv(s) && id in s.outbox.rows
    ensures Inv(WithLedger(s, ApplyRow(s.ledger, cfg, s.outbox.rows[id], checksPass).0))
  {
    var r := s.outbox.rows[id];
    var (k, out) := ApplyRow(s.ledger, cfg, r, checksPass);
    var ev := EventId(r.campaign, r.id);
    ApplyOnceKeeps(s.ledger, cfg, ev, r.kind, r.campaign, r.miner, ParseSeverity(r.severity), checksPass);
    ApplyOnceGrows(s.ledger, cfg, ev, r.kind, r.campaign, r.miner, ParseSeverity(r.severity), checksPass);
    ApplyOnceAccounted(s.ledger, cfg, ev, r.kind, r.campaign, r.miner, ParseSeverity(r.severity), checksPass);
    ApplyRowFaithful(cfg, s, r, checksPass);
    LedgerWriteInv(s, k);
  }

  lemma ApplyRowFaithful(cfg: Config, s: Sys, r: Row, checksPass: bool)
    requires cfg.Valid() && Inv(s) && r.id in s.outbox.rows && s.outbox.rows[r.id] == r
    ensures var k := ApplyRow(s.ledger, cfg, r, checksPass).0;
            EventsFaithful(k, s.closedOnce + ClosedNow(k), s.outbox)
  {
    var (k, out) := ApplyRow(s.ledger, cfg, r, checksPass);
    if out.Fresh? {
      var ev := EventId(r.campaign, r.id);
      FreshMeans(s.ledger, cfg, r, checksPass);
      RecordFaithful(s.ledger, k, s.closedOnce, s.closedOnce + ClosedNow(k), s.outbox, ev, Entry(r.campaign, r.kind));
    }
  }

  lemma AdminFaithful(cfg: Config, s: Sys, ev: string, kind: Kind, c: Campaign, miner: Address, severity: Severity, checksPass: bool)
    requires cfg.Valid() && Inv(s) && !IsOutboxEvent(ev)
    ensures var k := ApplyOnce(s.ledger, cfg, ev, kind, c, miner, severity, checksPass).0;
            EventsFaithful(k, s.closedOnce + ClosedNow(k), s.outbox)
  {
    var (k, out) := ApplyOnce(s.ledger, cfg, ev, kind, c, miner, severity, checksPass);
    if out.Fresh? {
      PayKindGrows(s.ledger, cfg, kind, c, miner, severity, checksPass);
      RecordFaithful(s.ledger, k, s.closedOnce, s.closedOnce + ClosedNow(k), s.outbox, ev, Entry(c, kind));
    }
  }

  lemma AdminSettleInv(cfg: Config, s: Sys, ev: string, kind: Kind, c: Campaign, miner: Address, severity: Severity, checksPass: bool)
    requires cfg.Valid() && Inv(s) && !IsOutboxEvent(ev)
    ensures Inv(WithLedger(s, ApplyOnce(s.ledger, cfg, ev, kind, c, miner, severity, checksPass).0))
  {
    ApplyOnceKeeps(s.ledger, cfg, ev, kind, c, miner, severity, checksPass);
    ApplyOnceGrows(s.ledger, cfg, ev, kind, c, miner, severity, checksPass);
    ApplyOnceAccounted(s.ledger, cfg, ev, kind, c, miner, severity, checksPass);
    AdminFaithful(cfg, s, ev, kind, c, miner, severity, checksPass);
    LedgerWriteInv(s, ApplyOnce(s.ledger, cfg, ev, kind, c, miner, severity, checksPass).0);
  }

  lemma EnqueueInv(s: Sys, key: Row)
    requires Inv(s)
    ensures Inv(s.(outbox := SettleOutbox.Enqueue(s.outbox, key).0))
  {
    if key.campaign != "" {
      EnqueueReplaySafe(s.outbox, key);
    }
  }

  lemma PullerInv(s: Sys, p: nat, u: Puller)
    requires Inv(s) && (u.Idle? || LocalOk(s, u.local))
    ensures Inv(WithPuller(s, p, u))
  {
    var t := WithPuller(s, p, u);
    forall q | q in t.pullers && !t.pullers[q].Idle? ensures LocalOk(t, t.pullers[q].local) {
      if q != p {
        assert LocalOk(s, s.pullers[q].local);
      }
    }
  }

  lemma AckInv(s: Sys, id: nat)
    requires Inv(s) && id in s.outbox.rows && Settled(s.ledger, s.closedOnce, s.outbox.rows[id])
    ensures Inv(s.(outbox := AckOne(s.outbox, id)))
  {
    var t := s.(outbox := AckOne(s.outbox, id));
    forall q | q in t.pullers && !t.pullers[q].Idle? ensures LocalOk(t, t.pullers[q].local) {
      assert LocalOk(s, s.pullers[q].local);
    }
  }

  lemma PaySettles(cfg: Config, s: Sys, r: Row, checksPass: bool)
    requires cfg.Valid() && Inv(s) && r.id in s.outbox.rows && s.outbox.rows[r.id] == r
    requires Terminal(ApplyRow(s.ledger, cfg, r, checksPass).1)
    ensures var k := ApplyRow(s.ledger, cfg, r, checksPass).0; Settled(k, s.closedOnce + ClosedNow(k), r)
  {
    TerminalSettles(s.ledger, cfg, s.outbox, s.closedOnce, r, checksPass);
    if ApplyRow(s.ledger, cfg, r, checksPass).1.Fresh? {
      FreshMeans(s.ledger, cfg, r, checksPass);
    }
  }

  lemma AnsweredOk(t: Sys, w: Local, out: Outcome)
    requires LocalOk(t, w) && w.todo != []
    requires Terminal(out) ==> Settled(t.ledger, t.closedOnce, w.todo[0])
    ensures LocalOk(t, Answered(w, out))
  {
    assert w.todo[0] in w.todo;
  }

  lemma PayInv(cfg: Config, s: Sys, p: nat, checksPass: bool)
    requires cfg.Valid() && Inv(s) && Enabled(s, Pay(p, checksPass))
    ensures Inv(Step(cfg, s, Pay(p, checksPass)))
  {
    var w := s.PullerAt(p).local;
    var r := w.todo[0];
    assert r in w.todo;
    var out := ApplyRow(s.ledger, cfg, r, checksPass).1;
    var t := WithLedger(s, ApplyRow(s.ledger, cfg, r, checksPass).0);
    ApplyRowInv(cfg, s, r.id, checksPass);
    if Terminal(out) {
      PaySettles(cfg, s, r, checksPass);
    }
    AnsweredOk(t, w, out);
    PullerInv(t, p, At(Answered(w, out)));
  }

  lemma LookInv(cfg: Config, s: Sys, p: nat)
    requires cfg.Valid() && Inv(s) && Enabled(s, Look(p))
    ensures Inv(Step(cfg, s, Look(p)))
  {
    var w := s.PullerAt(p).local;
    var r := w.todo[0];
    assert r in w.todo;
    if r.campaign in s.ledger.escrows && OutboxAction(s.ledger.escrows[r.campaign].status, r.kind) == Drain {
      DrainSettles(s.ledger, s.closedOnce, r);
    }
    PullerInv(s, p, LookAt(s.ledger, w));
  }

  lemma FetchInv(cfg: Config, s: Sys, p: nat, items: seq<Row>)
    requires Inv(s) && Enabled(s, Fetch(p, items))
    ensures Inv(Step(cfg, s, Fetch(p, items)))
  {
    FinalsLastFacts(items);
    PullerInv(s, p, At(Local(FinalsLast(items), [], {})));
  }

  lemma AckNextInv(cfg: Config, s: Sys, p: nat)
    requires Inv(s) && Enabled(s, AckNext(p))
    ensures Inv(Step(cfg, s, AckNext(p)))
  {
    var w := s.PullerAt(p).local;
    assert w.acked[0] in w.acked;
    AckInv(s, w.acked[0]);
    var t := s.(outbox := AckOne(s.outbox, w.acked[0]));
    assert LocalOk(t, w);
    PullerInv(t, p, At(w.(acked := w.acked[1..])));
  }

  /** An operator's write records no event. */
  lemma UnrecordedWriteInv(s: Sys, k: Ledger)
    requires Inv(s) && Sound(k) && Accounted(k) && Grows(s.ledger, k) && k.applied == s.ledger.applied
    ensures Inv(WithLedger(s, k))
  {
    assert EventsFaithful(k, s.closedOnce + ClosedNow(k), s.outbox);
    LedgerWriteInv(s, k);
  }

  lemma CloseInv(s: Sys, c: Campaign, checksPass: bool)
    requires Inv(s) && CloseEscrow(s.ledger, c, checksPass).Ok?
    ensures Inv(WithLedger(s, CloseEscrow(s.ledger, c, checksPass).value))
  {
    CloseEscrowKeeps(s.ledger, c, checksPass);
    CloseEscrowGrows(s.ledger, c, checksPass);
    CloseEscrowAccounted(s.ledger, c, checksPass);
    UnrecordedWriteInv(s, CloseEscrow(s.ledger, c, checksPass).value);
  }

  lemma ReopenInv(s: Sys, c: Campaign, checksPass: bool)
    requires Inv(s) && Reopen(s.ledger, c, checksPass).Ok?
    ensures Inv(WithLedger(s, Reopen(s.ledger, c, checksPass).value))
  {
    ReopenKeeps(s.ledger, c, checksPass);
    ReopenGrows(s.ledger, c, checksPass);
    ReopenAccounted(s.ledger, c, checksPass);
    UnrecordedWriteInv(s, Reopen(s.ledger, c, checksPass).value);
  }

  lemma OpenInv(s: Sys, c: Campaign, runsPool: nat, bountyPool: nat, perRun: nat, split: Split)
    requires Inv(s) && OpenEscrow(s.ledger, c, runsPool, bountyPool, perRun, split).Ok?
    ensures Inv(WithLedger(s, OpenEscrow(s.ledger, c, runsPool, bountyPool, perRun, split).value))
  {
    OpenEscrowKeeps(s.ledger, c, runsPool, bountyPool, perRun, split);
    OpenEscrowGrows(s.ledger, c, runsPool, bountyPool, perRun, split);
    OpenEscrowAccounted(s.ledger, c, runsPool, bountyPool, perRun, split);
    UnrecordedWriteInv(s, OpenEscrow(s.ledger, c, runsPool, bountyPool, perRun, split).value);
  }

  /** Every action of every party keeps the invariant. */
  lemma StepInv(cfg: Config, s: Sys, a: Action)
    requires cfg.Valid() && Inv(s)
    ensures Inv(Do(cfg, s, a))
  {
    if Enabled(s, a) {
      match a
      case Enqueue(key) => EnqueueInv(s, key);
      case Fetch(p, items) => FetchInv(cfg, s, p, items);
      case Look(p) => LookInv(cfg, s, p);
      case Pay(p, checksPass) => PayInv(cfg, s, p, checksPass);
      case AckNext(p) => AckNextInv(cfg, s, p);
      case Crash(p) => PullerInv(s, p, Idle);
      case RelayApply(id, checksPass) => ApplyRowInv(cfg, s, id, checksPass);
      case RelayAck(id) => RelayAckInv(s, id);
      case AdminSettle(ev, kind, c, miner, severity, checksPass) =>
        AdminSettleInv(cfg, s, ev, kind, c, miner, severity, checksPass);
      case CloseNow(c, checksPass) => CloseInv(s, c, checksPass);
      case ReopenNow(c, checksPass) => ReopenInv(s, c, checksPass);
      case OpenNow(c, rp, bp, pr, sp) => OpenInv(s, c, rp, bp, pr, sp);
    }
  }

  lemma RelayAckInv(s: Sys, id: nat)
    requires Inv(s) && id in s.outbox.rows && Paid(s.ledger, s.outbox.rows[id])
    ensures Inv(s.(outbox := AckOne(s.outbox, id)))
  {
    AckInv(s, id);
  }

  lemma {:induction false} ExecuteInv(cfg: Config, s: Sys, as_: seq<Action>)
    requires cfg.Valid() && Inv(s)
    ensures Inv(Execute(cfg, s, as_))
  {
    if as_ != [] {
      ExecuteInv(cfg, s, as_[..|as_| - 1]);
      StepInv(cfg, Execute(cfg, s, as_[..|as_| - 1]), as_[|as_| - 1]);
    }
  }
}
