/** Moments of a run: what held when an outbox was last seen empty, and what that implies later. */
module SettleHistory {
  import opened EscrowLedger
  import opened SettleOutbox
  import opened Settlement
  import opened SettleProtocol
  import RefundOrder

  lemma ExecuteSnoc(cfg: Config, s: Sys, as_: seq<Action>, a: Action)
    ensures Execute(cfg, s, as_ + [a]) == Do(cfg, Execute(cfg, s, as_), a)
  {
    assert (as_ + [a])[..|as_ + [a]| - 1] == as_;
  }

  lemma {:induction false} ExecuteSplit(cfg: Config, s: Sys, xs: seq<Action>, ys: seq<Action>)
    ensures Execute(cfg, s, xs + ys) == Execute(cfg, Execute(cfg, s, xs), ys)
  {
    if ys == [] {
      assert xs + ys == xs;
    } else {
      var y := ys[..|ys| - 1];
      ExecuteSplit(cfg, s, xs, y);
      ExecuteSnoc(cfg, s, xs + y, ys[|ys| - 1]);
      assert xs + ys == xs + y + [ys[|ys| - 1]];
    }
  }

  /** Nobody but puller p moves puller p. */
  lemma OthersKeepPuller(cfg: Config, s: Sys, a: Action, p: nat)
    requires !a.OwnedBy(p)
    ensures Do(cfg, s, a).PullerAt(p) == s.PullerAt(p)
  {}

  /** What every action leaves in place: escrows, outbox rows, acknowledgements. */
  ghost predicate Onward(s: Sys, t: Sys) {
    && s.ledger.escrows.Keys <= t.ledger.escrows.Keys
    && s.outbox.acked <= t.outbox.acked
    && (forall id :: id in s.outbox.rows ==> id in t.outbox.rows && t.outbox.rows[id] == s.outbox.rows[id])
  }

  lemma StepOnward(cfg: Config, s: Sys, a: Action)
    requires cfg.Valid() && Inv(s)
    ensures Onward(s, Do(cfg, s, a))
  {
    RefundOrder.StepGrows(cfg, s, a);
    if a.Enqueue? && a.key.campaign != "" {
      EnqueueReplaySafe(s.outbox, a.key);
    }
  }

  lemma LookDoes(cfg: Config, s: Sys, p: nat, w: Local)
    requires s.PullerAt(p) == At(w) && w.todo != []
    ensures Do(cfg, s, Look(p)).PullerAt(p) == LookAt(s.ledger, w)
  {}

  lemma PayDoes(cfg: Config, s: Sys, p: nat, checksPass: bool, w: Local)
    requires s.PullerAt(p) == Paying(w) && w.todo != []
    ensures Do(cfg, s, Pay(p, checksPass)).PullerAt(p)
         == At(Answered(w, ApplyRow(s.ledger, cfg, w.todo[0], checksPass).1))
  {}

  /** The state the run had after its first k actions. */
  function Moment(cfg: Config, s: Sys, log: seq<Action>, k: nat): Sys
    requires k <= |log|
  {
    Execute(cfg, s, log[..k])
  }

  /** At moment k the coordinator had no pending row of campaign c. */
  predicate EmptyAt(cfg: Config, s: Sys, log: seq<Action>, k: nat, c: Campaign)
    requires k <= |log|
  {
    var o := Moment(cfg, s, log, k).outbox;
    o.nextId > 0 && Count(o, c) == 0
  }

  ghost predicate DrainedSince(cfg: Config, s: Sys, log: seq<Action>, from: nat, c: Campaign) {
    exists k: nat :: from <= k <= |log| && EmptyAt(cfg, s, log, k, c)
  }

  lemma DrainedLater(cfg: Config, s: Sys, log: seq<Action>, log': seq<Action>, from: nat, from': nat, c: Campaign)
    requires log <= log' && from' <= from && DrainedSince(cfg, s, log, from, c)
    ensures DrainedSince(cfg, s, log', from', c)
  {
    var k: nat :| from <= k <= |log| && EmptyAt(cfg, s, log, k, c);
    assert log[..k] == log'[..k];
    assert EmptyAt(cfg, s, log', k, c);
  }

  /** Every row of c that existed at moment k is settled by the end of the log. */
  ghost predicate SettledFrom(cfg: Config, s: Sys, log: seq<Action>, k: nat, c: Campaign)
    requires k <= |log|
  {
    var m, t := Moment(cfg, s, log, k), Execute(cfg, s, log);
    forall id :: id in m.outbox.rows && m.outbox.rows[id].campaign == c ==>
      Settled(t.ledger, t.closedOnce, m.outbox.rows[id])
  }

  lemma EmptyMeansSettled(cfg: Config, s: Sys, log: seq<Action>, k: nat, c: Campaign)
    requires cfg.Valid() && Init(s) && k <= |log| && EmptyAt(cfg, s, log, k, c)
    ensures SettledFrom(cfg, s, log, k, c)
  {
    var m, t := Moment(cfg, s, log, k), Execute(cfg, s, log);
    InitInv(s);
    ExecuteInv(cfg, s, log[..k]);
    ExecuteSplit(cfg, s, log[..k], log[k..]);
    assert log[..k] + log[k..] == log;
    RefundOrder.ExecuteGrows(cfg, m, log[k..]);
    CountZero(m.outbox, c);
    forall id | id in m.outbox.rows && m.outbox.rows[id].campaign == c
      ensures Settled(t.ledger, t.closedOnce, m.outbox.rows[id])
    {
      assert !Pending(m.outbox, id);
      SettledStable(m.ledger, t.ledger, m.closedOnce, t.closedOnce, m.outbox.rows[id]);
    }
  }

  lemma SettledFromLater(cfg: Config, s: Sys, log: seq<Action>, log': seq<Action>, k: nat, c: Campaign)
    requires cfg.Valid() && Init(s) && k <= |log| && log <= log' && EmptyAt(cfg, s, log, k, c)
    ensures EmptyAt(cfg, s, log', k, c) && SettledFrom(cfg, s, log', k, c)
  {
    assert log[..k] == log'[..k];
    EmptyMeansSettled(cfg, s, log', k, c);
  }
}
