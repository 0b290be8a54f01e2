/** The origin node's settle pull and close drain (fuzz_settle_pull.go, fuzz_campaigns.go:1089-1189).

    A Node runs beside the coordinator, other pullers and the operator. Between any two of its
    reads or writes of shared state, Interfere lets them take any number of protocol actions, and
    log records every action in order; Valid says that the shared state is exactly what a run of
    the protocol makes of that log. So whatever SettleSafety proves of runs holds of this code. */
module SettlePull {
  import opened Text
  import opened EscrowLedger
  import opened SettleOutbox
  import opened Settlement
  import opened SettleProtocol
  import opened SettleHistory
  import FairWindow
  import RefundOrder

  const MAX_PASSES: nat := 32
  const MAX_LOCAL_ESCROWS: nat := 500
  const MAX_DRAIN_ATTEMPTS: nat := 12

  datatype Option<T> = None | Some(value: T)

  /** How an HTTP call to the coordinator can fail (SettleOutboxErrAuth, SettleOutboxErrTransient). */
  datatype NetError = AuthError | TransientError | PermanentError

  datatype PullResult =
    | PullOk
    | NetFailed(net: NetError)
    | PayBlocked         // pay failures blocked drain
    | Undrainable        // errSettleOutboxUndrainableHead
    | NotDrained         // outbox not drained
    | StillPending       // still pending after 32 passes

  /** The statuses that close an escrow, after TrimSpace and ToLower. */
  predicate EndsCampaign(status: string) {
    Trim(Lower(status)) == "cancelled" || Trim(Lower(status)) == "completed"
  }

  /** What one turn of the row loop did. */
  datatype Turn = NotLocal | Skipped | Drained | Kept | Settles | PayError

  function AfterTurn(w: Local, turn: Turn): Local
    requires w.todo != []
  {
    var r := w.todo[0];
    var next := w.(todo := w.todo[1..]);
    match turn
    case Drained | Settles => next.(acked := w.acked + [r.id])
    case PayError => if r.kind.IsFinal() then next else next.(failed := w.failed + {r.campaign})
    case NotLocal | Skipped | Kept => next
  }

  /** fuzzSettleSkipFinalizeAfterPayFail. */
  predicate SkipFinalize(r: Row, payFailed: set<Campaign>) {
    r.kind.IsFinal() && r.campaign in payFailed
  }

  predicate InScope(r: Row, scope: Option<Campaign>) {
    scope.Some? ==> r.campaign == scope.value
  }

  /** localOpenFuzzEscrowCampaignIDs, in no particular order. */
  function OpenCampaigns(l: Ledger): set<Campaign> {
    set c | c in l.escrows && (l.escrows[c].status == Open || l.escrows[c].status == BountyPaid)
  }

  /** The turns that handed the row back undrainable, or those that found an escrow on this node. */
  function CountTurns(turns: seq<Turn>, undrainable: bool): (n: nat)
    ensures n <= |turns|
  {
    if turns == [] then 0
    else
      var t := turns[|turns| - 1];
      CountTurns(turns[..|turns| - 1], undrainable)
      + (if if undrainable then t == NotLocal || t == Kept else t != NotLocal then 1 else 0)
  }

  lemma CountSnoc(turns: seq<Turn>, t: Turn)
    ensures CountTurns(turns + [t], false) == CountTurns(turns, false) + if t != NotLocal then 1 else 0
    ensures CountTurns(turns + [t], true) == CountTurns(turns, true) + if t == NotLocal || t == Kept then 1 else 0
  {
    assert (turns + [t])[..|turns|] == turns;
  }

  /** What a hit count among the first n rows says, when ledger l was the one at the start: every
      row of an escrow of l is a hit. */
  ghost predicate Hits(rows: seq<Row>, n: nat, l: Ledger, hits: nat) {
    && n <= |rows|
    && ((forall k :: 0 <= k < n ==> rows[k].campaign in l.escrows) ==> hits == n)
    && (hits == 0 ==> forall k :: 0 <= k < n ==> rows[k].campaign !in l.escrows)
  }

  lemma CloseDoes(cfg: Config, s: Sys, c: Campaign, checksPass: bool)
    requires CloseEscrow(s.ledger, c, checksPass).Ok?
    ensures var t := Do(cfg, s, CloseNow(c, checksPass));
            t.pullers == s.pullers && c in t.ledger.escrows && t.ledger.escrows[c].status == Closed
  {}

  lemma AckDoes(cfg: Config, s: Sys, p: nat, w: Local)
    requires Inv(s) && s.PullerAt(p) == At(w) && w.todo == [] && w.acked != []
    ensures var t := Do(cfg, s, AckNext(p));
            t.PullerAt(p) == At(w.(acked := w.acked[1..])) && w.acked[0] in t.outbox.acked
    ensures Do(cfg, s, Crash(p)).PullerAt(p).Idle?
  {
    assert w.acked[0] in w.acked;
  }

  class Node {
    const cfg: Config
    const me: nat
    const genesis: Sys
    var sys: Sys
    var log: seq<Action>

    ghost predicate Valid()
      reads this
    {
      cfg.Valid() && Init(genesis) && sys == Execute(cfg, genesis, log)
    }

    constructor (cfg: Config, me: nat, start: Sys)
      requires cfg.Valid() && Init(start)
      ensures Valid() && sys == start && log == []
    {
      this.cfg := cfg;
      this.me := me;
      genesis := start;
      sys := start;
      log := [];
    }

    lemma ValidInv()
      requires Valid()
      ensures Inv(sys)
    {
      InitInv(genesis);
      ExecuteInv(cfg, genesis, log);
    }

    /** One atomic step of the run. */
    method Act(a: Action)
      requires Valid()
      modifies this
      ensures Valid() && log == old(log) + [a] && sys == Do(cfg, old(sys), a)
      ensures Onward(old(sys), sys)
    {
      ExecuteSnoc(cfg, genesis, log, a);
      ValidInv();
      StepOnward(cfg, sys, a);
      sys := Do(cfg, sys, a);
      log := log + [a];
    }

    /** Everybody else acts, in any way and any number of times. */
    method Interfere()
      requires Valid()
      modifies this
      ensures Valid() && old(log) <= log && sys.PullerAt(me) == old(sys).PullerAt(me)
      ensures Onward(old(sys), sys)
    {
      var others: seq<Action> := *;
      for i := 0 to |others|
        invariant Valid() && old(log) <= log && sys.PullerAt(me) == old(sys).PullerAt(me)
        invariant Onward(old(sys), sys)
      {
        if !others[i].OwnedBy(me) {
          OthersKeepPuller(cfg, sys, others[i], me);
          Act(others[i]);
        }
      }
    }

    /** The status lookup, the decision, and where it says so the payment of one row
        (fuzz_settle_pull.go:98-132). */
    method HandleRow(it: Row, ghost w: Local, payFailed: set<Campaign>) returns (turn: Turn)
      requires Valid() && sys.PullerAt(me) == At(w)
      requires w.todo != [] && w.todo[0] == it && w.failed == payFailed
      modifies this
      ensures Valid() && old(log) <= log && sys.PullerAt(me) == At(AfterTurn(w, turn))
      ensures Onward(old(sys), sys)
      ensures it.campaign in old(sys).ledger.escrows ==> turn != NotLocal
    {
      Interfere();
      LookDoes(cfg, sys, me, w);
      if it.campaign !in sys.ledger.escrows {
        Act(Look(me));
        return NotLocal;
      }
      if SkipFinalize(it, payFailed) {
        Act(Look(me));
        return Skipped;
      }
      var decision := OutboxAction(sys.ledger.escrows[it.campaign].status, it.kind);
      Act(Look(me));
      if decision == Drain {
        return Drained;
      }
      if decision == Keep {
        return Kept;
      }
      turn := PayTurn(it, w);
    }

    /** The ledger call of one turn. */
    method PayTurn(it: Row, ghost w: Local) returns (turn: Turn)
      requires Valid() && sys.PullerAt(me) == Paying(w) && w.todo != [] && w.todo[0] == it
      modifies this
      ensures Valid() && old(log) <= log && sys.PullerAt(me) == At(AfterTurn(w, turn))
      ensures Onward(old(sys), sys)
      ensures turn == Settles || turn == PayError
    {
      Interfere();
      var checksPass: bool := *;
      var answer := ApplyRow(sys.ledger, cfg, it, checksPass).1;
      PayDoes(cfg, sys, me, checksPass, w);
      Act(Pay(me, checksPass));
      turn := if Terminal(answer) then Settles else PayError;
    }

    /** The row loop over one batch, with the counters the pass is judged by. */
    method HandleBatch(ordered: seq<Row>)
      returns (acked: seq<nat>, payFailed: set<Campaign>, localHits: nat, undrainable: nat, ghost turns: seq<Turn>)
      requires Valid() && sys.PullerAt(me) == At(Local(ordered, [], {}))
      modifies this
      ensures Valid() && old(log) <= log && sys.PullerAt(me) == At(Local([], acked, payFailed))
      ensures Onward(old(sys), sys)
      ensures Hits(ordered, |ordered|, old(sys).ledger, localHits)
      ensures |turns| == |ordered| && localHits == CountTurns(turns, false) && undrainable == CountTurns(turns, true)
    {
      acked, payFailed, localHits, undrainable, turns := [], {}, 0, 0, [];
      for i := 0 to |ordered|
        invariant Valid() && old(log) <= log
        invariant sys.PullerAt(me) == At(Local(ordered[i..], acked, payFailed))
        invariant Onward(old(sys), sys)
        invariant Hits(ordered, i, old(sys).ledger, localHits)
        invariant |turns| == i && localHits == CountTurns(turns, false) && undrainable == CountTurns(turns, true)
      {
        var it := ordered[i];
        var turn := HandleRow(it, Local(ordered[i..], acked, payFailed), payFailed);
        assert ordered[i..][1..] == ordered[i + 1..];
        CountSnoc(turns, turn);
        turns := turns + [turn];
        if turn != NotLocal {
          localHits := localHits + 1;
        }
        match turn {
          case Drained | Settles => acked := acked + [it.id];
          case NotLocal | Kept => undrainable := undrainable + 1;
          case PayError =>
            if !it.kind.IsFinal() {
              payFailed := payFailed + {it.campaign};
            }
          case Skipped =>
        }
      }
      assert ordered[|ordered|..] == [];
    }

    /** One row of the acknowledgement; the call may be lost before it. */
    method AckOneRow(id: nat, ghost w: Local) returns (r: PullResult)
      requires Valid() && sys.PullerAt(me) == At(w) && w.todo == [] && w.acked != [] && w.acked[0] == id
      modifies this
      ensures Valid() && old(log) <= log && Onward(old(sys), sys)
      ensures r.PullOk? || r.NetFailed?
      ensures r.NetFailed? ==> sys.PullerAt(me).Idle?
      ensures r.PullOk? ==> sys.PullerAt(me) == At(w.(acked := w.acked[1..])) && id in sys.outbox.acked
    {
      Interfere();
      ValidInv();
      AckDoes(cfg, sys, me, w);
      var lost: bool := *;
      if lost {
        var net: NetError := *;
        Act(Crash(me));
        return NetFailed(net);
      }
      Act(AckNext(me));
      return PullOk;
    }

    /** Acknowledge the batch; the call may fail before, between or after rows. */
    method AckAll(acked: seq<nat>) returns (r: PullResult)
      requires Valid() && sys.PullerAt(me).At? && sys.PullerAt(me).local.todo == [] && sys.PullerAt(me).local.acked == acked
      modifies this
      ensures Valid() && old(log) <= log && sys.PullerAt(me).Idle?
      ensures Onward(old(sys), sys)
      ensures r.PullOk? || r.NetFailed?
      ensures r.PullOk? ==> forall id :: id in acked ==> id in sys.outbox.acked
    {
      for i := 0 to |acked|
        invariant Valid() && old(log) <= log && sys.PullerAt(me).At? && Onward(old(sys), sys)
        invariant sys.PullerAt(me).local.todo == [] && sys.PullerAt(me).local.acked == acked[i..]
        invariant forall k :: 0 <= k < i ==> acked[k] in sys.outbox.acked
      {
        var one := AckOneRow(acked[i], sys.PullerAt(me).local);
        if one.NetFailed? {
          return one;
        }
      }
      Act(Crash(me));
      return PullOk;
    }

    /** The two passes over a fetched window that put finalize and close last
        (fuzz_settle_pull.go:84-95). */
    method Order(items: seq<Row>) returns (ordered: seq<Row>)
      ensures ordered == FinalsLast(items)
    {
      ordered := [];
      var finals: seq<Row> := [];
      for i := 0 to |items|
        invariant ordered == NonFinals(items[..i]) && finals == Finals(items[..i])
      {
        assert items[..i + 1][..i] == items[..i];
        if items[i].kind.IsFinal() {
          finals := finals + [items[i]];
        } else {
          ordered := ordered + [items[i]];
        }
      }
      assert items[..|items|] == items;
      ordered := ordered + finals;
    }

    /** The coordinator's answer to a fetch: the window of one campaign, or the fair global one. */
    method ReadWindow(scope: Option<Campaign>) returns (items: seq<Row>)
      requires Valid()
      ensures IsWindow(sys.outbox, items) && |items| <= FETCH_LIMIT
      ensures forall r :: r in items ==> InScope(r, scope)
      ensures items == [] ==> forall id :: Pending(sys.outbox, id) ==> !InScope(sys.outbox.rows[id], scope)
    {
      ValidInv();
      match scope {
        case Some(c) =>
          ListForCampaignIsWindow(sys.outbox, c, FETCH_LIMIT);
          CountZero(sys.outbox, c);
          items := ListForCampaign(sys.outbox, c, FETCH_LIMIT);
        case None =>
          var now: nat := *;
          items := FairWindow.ListPending(sys.outbox, FETCH_LIMIT, now);
      }
    }

    /** What a pull that answered nil has seen, at moment k of the log: an empty window, which means
        no pending row in scope, or a window of rows whose campaigns have no escrow on this node. */
    ghost predicate NothingForUs(scope: Option<Campaign>, window: seq<Row>, k: nat)
      requires k <= |log|
      reads this
    {
      var m := Moment(cfg, genesis, log, k);
      && IsWindow(m.outbox, window)
      && (window == [] ==> forall id :: Pending(m.outbox, id) ==> !InScope(m.outbox.rows[id], scope))
      && (forall r :: r in window ==> InScope(r, scope) && r.campaign !in m.ledger.escrows)
    }

    /** Judge a batch that acknowledged nothing (fuzz_settle_pull.go:134-152). */
    function Verdict(payFailed: set<Campaign>, fetched: nat, localHits: nat, undrainable: nat): PullResult {
      if payFailed != {} then PayBlocked
      else if undrainable == fetched then (if localHits == 0 then PullOk else Undrainable)
      else NotDrained
    }

    /** Take the window, put finalize and close last, and work through it. */
    method ApplyBatch(items: seq<Row>)
      returns (acked: seq<nat>, payFailed: set<Campaign>, localHits: nat, undrainable: nat)
      requires Valid() && sys.PullerAt(me).Idle? && Enabled(sys, Fetch(me, items))
      modifies this
      ensures Valid() && old(log) <= log && sys.PullerAt(me) == At(Local([], acked, payFailed)) && Onward(old(sys), sys)
      ensures localHits == 0 ==> forall r :: r in items ==> r.campaign !in old(sys).ledger.escrows
    {
      Act(Fetch(me, items));
      var ordered := Order(items);
      FinalsLastFacts(items);
      ghost var turns;
      acked, payFailed, localHits, undrainable, turns := HandleBatch(ordered);
    }

    /** From a fetched, non-empty window to the end of the pass. */
    method ApplyAndAck(items: seq<Row>) returns (stop: Option<PullResult>, acks: nat)
      requires Valid() && sys.PullerAt(me).Idle? && Enabled(sys, Fetch(me, items)) && items != []
      modifies this
      ensures Valid() && old(log) <= log && sys.PullerAt(me).Idle? && Onward(old(sys), sys)
      ensures stop.None? ==> acks >= 1
      ensures stop.Some? ==> !stop.value.StillPending?
      ensures stop == Some(PullOk) ==> forall r :: r in items ==> r.campaign !in old(sys).ledger.escrows
    {
      var acked, payFailed, localHits, undrainable := ApplyBatch(items);
      if acked == [] {
        Act(Crash(me));
        return Some(Verdict(payFailed, |items|, localHits, undrainable)), 0;
      }
      var sent := AckAll(acked);
      return if sent.PullOk? then None else Some(sent), |acked|;
    }

    /** One pass: fetch, order, apply, acknowledge. */
    method OnePass(scope: Option<Campaign>)
      returns (stop: Option<PullResult>, acks: nat, ghost window: seq<Row>, ghost at: nat)
      requires Valid() && sys.PullerAt(me).Idle?
      modifies this
      ensures Valid() && old(log) <= log && sys.PullerAt(me).Idle? && Onward(old(sys), sys)
      ensures stop.None? ==> acks >= 1
      ensures stop.Some? ==> !stop.value.StillPending?
      ensures stop == Some(PullOk) ==> |old(log)| <= at <= |log| && NothingForUs(scope, window, at)
      ensures stop == Some(PullOk) && scope.Some? ==>
                DrainedSince(cfg, genesis, log, |old(log)|, scope.value) || scope.value !in old(sys).ledger.escrows
    {
      Interfere();
      window, at := [], |log|;
      var failed: bool := *;
      if failed {
        var net: NetError := *;
        return Some(NetFailed(net)), 0, window, at;
      }
      var items := ReadWindow(scope);
      window := items;
      if items == [] {
        EmptySeen(scope, items, at, |old(log)|);
        return Some(PullOk), 0, window, at;
      }
      label before:
      stop, acks := ApplyAndAck(items);
      assert log[..at] == old@before(log);
      if stop == Some(PullOk) {
        ForeignSeen(scope, items, at);
      }
    }

    /** pullFuzzSettleOutboxWindow. It makes at most 32 passes; every pass after which it goes on
        has acknowledged at least one row. */
    method PullWindow(scope: Option<Campaign>)
      returns (r: PullResult, passes: nat, totalAcked: nat, ghost window: seq<Row>, ghost at: nat)
      requires Valid() && sys.PullerAt(me).Idle?
      modifies this
      ensures Valid() && old(log) <= log && sys.PullerAt(me).Idle? && Onward(old(sys), sys)
      ensures passes <= MAX_PASSES && passes <= totalAcked
      ensures r.StillPending? <==> passes == MAX_PASSES
      ensures r.PullOk? ==> |old(log)| <= at <= |log| && NothingForUs(scope, window, at)
      ensures r.PullOk? && scope.Some? ==>
                DrainedSince(cfg, genesis, log, |old(log)|, scope.value) || scope.value !in old(sys).ledger.escrows
    {
      passes, totalAcked, window, at := 0, 0, [], 0;
      while passes < MAX_PASSES
        invariant Valid() && old(log) <= log && sys.PullerAt(me).Idle? && Onward(old(sys), sys)
        invariant passes <= MAX_PASSES && passes <= totalAcked
      {
        ghost var from := |log|;
        var stop, acks;
        stop, acks, window, at := OnePass(scope);
        if stop.Some? {
          if stop.value.PullOk? && scope.Some? && DrainedSince(cfg, genesis, log, from, scope.value) {
            DrainedLater(cfg, genesis, log, log, from, |old(log)|, scope.value);
          }
          return stop.value, passes, totalAcked, window, at;
        }
        totalAcked := totalAcked + acks;
        passes := passes + 1;
      }
      r := StillPending;
    }

    lemma EmptySeen(scope: Option<Campaign>, items: seq<Row>, at: nat, from: nat)
      requires Valid() && at == |log| && from <= |log| && items == [] && IsWindow(sys.outbox, items)
      requires forall id :: Pending(sys.outbox, id) ==> !InScope(sys.outbox.rows[id], scope)
      ensures NothingForUs(scope, items, at)
      ensures scope.Some? ==> DrainedSince(cfg, genesis, log, from, scope.value)
    {
      assert log[..at] == log;
      ValidInv();
      if scope.Some? {
        CountZero(sys.outbox, scope.value);
        assert EmptyAt(cfg, genesis, log, at, scope.value);
      }
    }

    lemma ForeignSeen(scope: Option<Campaign>, items: seq<Row>, at: nat)
      requires Valid() && at <= |log| && items != []
      requires var m := Moment(cfg, genesis, log, at);
               IsWindow(m.outbox, items) && (forall r :: r in items ==> r.campaign !in m.ledger.escrows)
      requires forall r :: r in items ==> InScope(r, scope)
      ensures NothingForUs(scope, items, at)
      ensures scope.Some? ==> scope.value !in Moment(cfg, genesis, log, at).ledger.escrows
    {
      assert items[0] in items;
    }

    /** pullLocalFuzzSettleEscrows: one scoped pull for each local open escrow, 500 at most. When
        it answers nil, each of them was seen drained. */
    method PullLocal() returns (r: PullResult)
      requires Valid() && sys.PullerAt(me).Idle?
      modifies this
      ensures Valid() && old(log) <= log && sys.PullerAt(me).Idle? && Onward(old(sys), sys)
      ensures r.PullOk? && |OpenCampaigns(old(sys).ledger)| <= MAX_LOCAL_ESCROWS ==>
                forall c :: c in OpenCampaigns(old(sys).ledger) ==> DrainedSince(cfg, genesis, log, |old(log)|, c)
    {
      r := PullOk;
      var rest := OpenCampaigns(sys.ledger);
      ghost var all := rest;
      var n := 0;
      while rest != {} && n < MAX_LOCAL_ESCROWS
        invariant Valid() && old(log) <= log && sys.PullerAt(me).Idle? && Onward(old(sys), sys)
        invariant rest <= all && |rest| + n == |all|
        invariant r.PullOk? ==> forall c :: c in all - rest ==> DrainedSince(cfg, genesis, log, |old(log)|, c)
        decreases rest
      {
        var c :| c in rest;
        ghost var from, was := |log|, log;
        var one, passes, acks;
        ghost var window, at;
        one, passes, acks, window, at := PullWindow(Some(c));
        if one.PullOk? {
          DrainedLater(cfg, genesis, log, log, from, |old(log)|, c);
        } else if r.PullOk? {
          r := one;
        }
        forall d | d in all - rest && r.PullOk? ensures DrainedSince(cfg, genesis, log, |old(log)|, d) {
          DrainedLater(cfg, genesis, was, log, |old(log)|, |old(log)|, d);
        }
        rest, n := rest - {c}, n + 1;
      }
    }

    /** pullFuzzSettleOutbox. Answering nil means that every escrow open on this node when the list
        was read, at moment `listed`, was seen drained afterwards. */
    method Pull(configured: bool, scopedToken: bool) returns (r: PullResult, ghost listed: nat)
      requires Valid() && sys.PullerAt(me).Idle?
      modifies this
      ensures Valid() && old(log) <= log && sys.PullerAt(me).Idle? && Onward(old(sys), sys)
      ensures |old(log)| <= listed <= |log|
      ensures r.PullOk? && configured ==>
                var open := OpenCampaigns(Moment(cfg, genesis, log, listed).ledger);
                |open| <= MAX_LOCAL_ESCROWS ==> forall c :: c in open ==> DrainedSince(cfg, genesis, log, listed, c)
    {
      listed := |log|;
      if !configured {
        return PullOk, listed;
      }
      var global := PullOk;
      if !scopedToken {
        var passes, acks;
        ghost var window, at;
        global, passes, acks, window, at := PullWindow(None);
        listed := |log|;
      }
      assert log[..listed] == log;
      label list:
      r := PullLocal();
      assert log[..listed] == old@list(log);
      if !global.PullOk? {
        r := global;
      }
    }

    /** drainFuzzSettleBeforeClose, on a trimmed campaign id. It answers true only after at least
        two attempts, and then the coordinator's exact count was zero at moment `at` of this call,
        so every row of the campaign enqueued until then is settled. */
    method DrainBeforeClose(c: Campaign, configured: bool, scopedToken: bool)
      returns (ok: bool, attempts: nat, ghost at: nat)
      requires Valid() && sys.PullerAt(me).Idle?
      modifies this
      ensures Valid() && old(log) <= log && sys.PullerAt(me).Idle? && Onward(old(sys), sys)
      ensures ok ==> 2 <= attempts <= MAX_DRAIN_ATTEMPTS
      ensures ok && configured && c != "" ==>
                && |old(log)| <= at <= |log| && EmptyAt(cfg, genesis, log, at, c) && SettledFrom(cfg, genesis, log, at, c)
    {
      at := |log|;
      attempts := 0;
      while attempts < MAX_DRAIN_ATTEMPTS
        invariant Valid() && old(log) <= log && sys.PullerAt(me).Idle? && Onward(old(sys), sys)
      {
        if attempts > 0 {
          var cancelled: bool := *;
          if cancelled {
            return false, attempts, at;
          }
        }
        var pulled;
        ghost var listed;
        pulled, listed := Pull(configured, scopedToken);
        var attempt := attempts;
        attempts := attempts + 1;
        if !pulled.PullOk? && !pulled.Undrainable? {
          if pulled == NetFailed(TransientError) && attempts < MAX_DRAIN_ATTEMPTS {
            continue;
          }
          return false, attempts, at;
        }
        Interfere();
        at := |log|;
        ValidInv();
        var pending := false;
        if configured && c != "" {
          var lost: bool := *;
          if lost {
            var net: NetError := *;
            if net == TransientError && attempts < MAX_DRAIN_ATTEMPTS {
              continue;
            }
            return false, attempts, at;
          }
          pending := Count(sys.outbox, c) > 0;
        }
        if pending || attempt == 0 {
          continue;
        }
        assert log[..at] == log;
        if configured && c != "" {
          EmptyMeansSettled(cfg, genesis, log, at, c);
        }
        return true, attempts, at;
      }
      return false, attempts, at;
    }

    /** The ledger call that refunds what is left and closes the escrow; it may be refused. */
    method Refund(c: Campaign) returns (closed: bool)
      requires Valid() && sys.PullerAt(me).Idle?
      modifies this
      ensures Valid() && old(log) <= log && sys.PullerAt(me).Idle? && Onward(old(sys), sys)
      ensures closed ==> c in sys.ledger.escrows && sys.ledger.escrows[c].status == Closed
    {
      Interfere();
      var checksPass: bool := *;
      if CloseEscrow(sys.ledger, c, checksPass).Err? {
        return false;
      }
      CloseDoes(cfg, sys, c, checksPass);
      Act(CloseNow(c, checksPass));
      return true;
    }

    /** tryCloseFuzzEscrowForStatus: FinalizeFuzzEscrow and CancelFuzzEscrow write the same ledger
        rows. Any other status closes nothing. If this call issued the refund, every row of the
        campaign that the coordinator held at the zero count is settled in the ledger it leaves. */
    method TryClose(c: Campaign, status: string, configured: bool, scopedToken: bool) returns (closed: bool, ghost at: nat)
      requires Valid() && sys.PullerAt(me).Idle?
      modifies this
      ensures Valid() && old(log) <= log && sys.PullerAt(me).Idle? && Onward(old(sys), sys)
      ensures !EndsCampaign(status) ==> !closed && log == old(log) && sys == old(sys)
      ensures closed ==> c in sys.ledger.escrows && sys.ledger.escrows[c].status == Closed
      ensures closed && configured && c != "" ==>
                && |old(log)| <= at <= |log| && EmptyAt(cfg, genesis, log, at, c) && SettledFrom(cfg, genesis, log, at, c)
    {
      if !EndsCampaign(status) {
        return false, |log|;
      }
      var ok, attempts;
      ok, attempts, at := DrainBeforeClose(c, configured, scopedToken);
      if !ok {
        return false, at;
      }
      ghost var drained := log;
      closed := Refund(c);
      if closed && configured && c != "" {
        SettledFromLater(cfg, genesis, drained, log, at, c);
      }
    }
  }
}
