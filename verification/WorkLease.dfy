/** Many claimers on one work queue (fuzz_runner.go:215-254, 434-458): the select, the conditional
    update and the completion write are separate steps and interleave freely. */
module WorkLease {
  import opened WorkQueue

  /** A claimer between steps. Its `now` was read earlier and may be stale. */
  datatype Claimer =
    | Idle
    | Selected(id: nat, now: int, attempts: nat)
    | Holding(id: nat, until: int, attempts: nat)

  /** lease is the lease length in seconds, and max the attempt limit, of every claimer. */
  datatype Sys = Sys(items: seq<Item>, clock: int, claimers: seq<Claimer>, max: nat, lease: nat)

  datatype Action =
    | Advance(seconds: nat)
    | Add
    | Look(c: nat, now: int)
    | Take(c: nat)
    | Finish(c: nat, outcome: Outcome)

  predicate Enabled(s: Sys, a: Action) {
    match a
    case Advance(_) => true
    case Add => true
    case Look(c, now) => c < |s.claimers| && s.claimers[c].Idle? && now <= s.clock
    case Take(c) => c < |s.claimers| && s.claimers[c].Selected? && s.claimers[c].id < |s.items|
    case Finish(c, _) => c < |s.claimers| && s.claimers[c].Holding? && s.claimers[c].id < |s.items|
  }

  function Step(s: Sys, a: Action): Sys
    requires Enabled(s, a)
  {
    match a
    case Advance(dt) => s.(clock := s.clock + dt)
    case Add => s.(items := s.items + [Item(|s.items| + 1, Pending, 0, 0, false)])
    case Look(c, now) =>
      var k := Lowest(s.items, s.max, now, 0);
      if k == |s.items| then s else s.(claimers := s.claimers[c := Selected(k, now, s.items[k].attempts)])
    case Take(c) =>
      var me := s.claimers[c];
      if Takeable(s.items[me.id], me.now) then
        var until := me.now + s.lease;
        s.(items := s.items[me.id := Lease(s.items[me.id], until)],
           claimers := s.claimers[c := Holding(me.id, until, me.attempts)])
      else
        s.(claimers := s.claimers[c := Idle])
    case Finish(c, o) =>
      var me := s.claimers[c];
      s.(items := s.items[me.id := Record(s.items[me.id], me.attempts, s.max, o)],
         claimers := s.claimers[c := Idle])
  }

  /** Claimer c holds an unexpired lease on row id. */
  predicate Live(s: Sys, c: nat, id: nat) {
    c < |s.claimers| && s.claimers[c].Holding? && s.claimers[c].id == id && s.claimers[c].until >= s.clock
  }

  /** No row has two claimers holding unexpired leases. */
  ghost predicate Exclusive(s: Sys) {
    forall c: nat, d: nat, id: nat :: c != d && Live(s, c, id) ==> !Live(s, d, id)
  }

  /** An unexpired lease is the one the row carries, and its row is not up for grabs. */
  ghost predicate Backed(s: Sys) {
    forall c: nat, id: nat :: Live(s, c, id) ==>
      && id < |s.items|
      && s.items[id].status != Pending
      && (s.items[id].status == Leased ==> s.claimers[c].until == s.items[id].leaseUntil)
  }

  predicate NowPast(s: Sys) {
    forall c :: 0 <= c < |s.claimers| && s.claimers[c].Selected? ==> s.claimers[c].now <= s.clock
  }

  ghost predicate Inv(s: Sys) {
    Exclusive(s) && Backed(s) && NowPast(s)
  }

  lemma InitInv(s: Sys)
    requires forall c :: 0 <= c < |s.claimers| ==> s.claimers[c].Idle?
    ensures Inv(s)
  {}

  /** A row that can be taken at a past reading of the clock has no unexpired holder. */
  lemma TakeableIsFree(s: Sys, id: nat, now: int)
    requires Inv(s) && id < |s.items| && now <= s.clock && Takeable(s.items[id], now)
    ensures forall c: nat :: !Live(s, c, id)
  {}

  lemma TakeKeepsInv(s: Sys, c: nat)
    requires Inv(s) && Enabled(s, Take(c))
    ensures Inv(Step(s, Take(c)))
  {
    var me, t := s.claimers[c], Step(s, Take(c));
    assert forall d: nat, id: nat :: Live(t, d, id) ==> Live(s, d, id) || (d == c && id == me.id);
    if Takeable(s.items[me.id], me.now) {
      TakeableIsFree(s, me.id, me.now);
    }
  }

  /** The completion hands the row back while nobody else holds an unexpired lease on it. */
  ghost predicate Clean(s: Sys, c: nat, o: Outcome)
    requires Enabled(s, Finish(c, o))
  {
    Record(s.items[s.claimers[c].id], s.claimers[c].attempts, s.max, o).status == Pending ==>
      forall d: nat :: d != c ==> !Live(s, d, s.claimers[c].id)
  }

  /** Completions carry no owner check; a clean one keeps the invariant, and no other does. */
  lemma FinishKeepsInvIff(s: Sys, c: nat, o: Outcome)
    requires Inv(s) && Enabled(s, Finish(c, o))
    ensures Inv(Step(s, Finish(c, o))) <==> Clean(s, c, o)
  {
    var t := Step(s, Finish(c, o));
    var id := s.claimers[c].id;
    assert forall d: nat, k: nat :: Live(t, d, k) <==> d != c && Live(s, d, k);
    if !Clean(s, c, o) {
      var d: nat :| d != c && Live(s, d, id);
      assert Live(t, d, id) && t.items[id].status == Pending;
    }
  }

  /** No completion gives an item a second holder by itself; what matters is what it lets others do. */
  lemma FinishNeverOverlaps(s: Sys, c: nat, o: Outcome)
    requires Exclusive(s) && Enabled(s, Finish(c, o))
    ensures Exclusive(Step(s, Finish(c, o)))
  {
    var t := Step(s, Finish(c, o));
    assert forall d: nat, k: nat :: Live(t, d, k) ==> Live(s, d, k);
  }

  /** Finishing inside one's own lease is always clean. */
  lemma OwnLeaseIsClean(s: Sys, c: nat, o: Outcome)
    requires Inv(s) && Enabled(s, Finish(c, o)) && s.claimers[c].until >= s.clock
    ensures Clean(s, c, o)
  {
    assert Live(s, c, s.claimers[c].id);
  }

  lemma StepInv(s: Sys, a: Action)
    requires Inv(s) && Enabled(s, a) && (a.Finish? ==> Clean(s, a.c, a.outcome))
    ensures Inv(Step(s, a))
  {
    var t := Step(s, a);
    match a
    case Advance(dt) => assert forall d: nat, k: nat :: Live(t, d, k) ==> Live(s, d, k);
    case Add => assert forall d: nat, k: nat :: Live(t, d, k) ==> Live(s, d, k);
    case Look(c, now) => assert forall d: nat, k: nat :: Live(t, d, k) ==> Live(s, d, k);
    case Take(c) => TakeKeepsInv(s, c);
    case Finish(c, o) => FinishKeepsInvIff(s, c, o);
  }

  /** The states of a run are tr[0], tr[1], and so on. */
  predicate IsRun(tr: seq<Sys>, acts: seq<Action>) {
    && |tr| == |acts| + 1
    && (forall i :: 0 <= i < |acts| ==> Enabled(tr[i], acts[i]) && tr[i + 1] == Step(tr[i], acts[i]))
  }

  /** Completions of the run are clean; claims alone always are. */
  ghost predicate CleanRun(tr: seq<Sys>, acts: seq<Action>)
    requires IsRun(tr, acts)
  {
    forall i :: 0 <= i < |acts| && acts[i].Finish? ==> Clean(tr[i], acts[i].c, acts[i].outcome)
  }

  /** Lease exclusion in every state of every interleaving whose completions are clean. */
  lemma {:induction false} LeaseExclusion(tr: seq<Sys>, acts: seq<Action>, k: nat)
    requires IsRun(tr, acts) && CleanRun(tr, acts) && k < |tr|
    requires forall c :: 0 <= c < |tr[0].claimers| ==> tr[0].claimers[c].Idle?
    ensures Inv(tr[k]) && Exclusive(tr[k])
  {
    if k == 0 {
      InitInv(tr[0]);
    } else {
      LeaseExclusion(tr, acts, k - 1);
      StepInv(tr[k - 1], acts[k - 1]);
    }
  }

  /** Without completions exclusion needs no condition at all. */
  lemma ClaimsAloneExclusive(tr: seq<Sys>, acts: seq<Action>, k: nat)
    requires IsRun(tr, acts) && k < |tr| && forall i :: 0 <= i < |acts| ==> !acts[i].Finish?
    requires forall c :: 0 <= c < |tr[0].claimers| ==> tr[0].claimers[c].Idle?
    ensures Exclusive(tr[k])
  {
    LeaseExclusion(tr, acts, k);
  }

  // ---------------------------------------------------------------- what a runner can check

  /** Every trap of the run that hands its row back is reported within the reporter's own lease. */
  predicate TrapsInLease(tr: seq<Sys>, acts: seq<Action>)
    requires IsRun(tr, acts)
  {
    forall i :: 0 <= i < |acts| && acts[i].Finish? && acts[i].outcome.Trapped? ==>
      tr[i].claimers[acts[i].c].attempts + 1 >= tr[i].max || tr[i].claimers[acts[i].c].until >= tr[i].clock
  }

  /** Only a trap below the attempt limit hands a row back, so other completions are always clean. */
  lemma OthersAreClean(s: Sys, c: nat, o: Outcome)
    requires Inv(s) && Enabled(s, Finish(c, o))
    requires !o.Trapped? || s.claimers[c].attempts + 1 >= s.max
    ensures Clean(s, c, o)
  {}

  lemma StepInLease(s: Sys, a: Action)
    requires Inv(s) && Enabled(s, a)
    requires a.Finish? && a.outcome.Trapped? ==> s.claimers[a.c].attempts + 1 >= s.max || s.claimers[a.c].until >= s.clock
    ensures Inv(Step(s, a))
  {
    if a.Finish? {
      if a.outcome.Trapped? && s.claimers[a.c].attempts + 1 < s.max {
        OwnLeaseIsClean(s, a.c, a.outcome);
      } else {
        OthersAreClean(s, a.c, a.outcome);
      }
    }
    StepInv(s, a);
  }

  /** Reporting traps within one's own lease keeps exclusion in every state of every interleaving. */
  lemma {:induction false} TrapsInLeaseExclusion(tr: seq<Sys>, acts: seq<Action>, k: nat)
    requires IsRun(tr, acts) && TrapsInLease(tr, acts) && k < |tr|
    requires forall c :: 0 <= c < |tr[0].claimers| ==> tr[0].claimers[c].Idle?
    ensures Inv(tr[k]) && Exclusive(tr[k])
  {
    if k == 0 {
      InitInv(tr[0]);
    } else {
      TrapsInLeaseExclusion(tr, acts, k - 1);
      StepInLease(tr[k - 1], acts[k - 1]);
    }
  }

  // ---------------------------------------------------------------- what an unclean completion leads to

  function Run(s: Sys, acts: seq<Action>): Sys {
    if acts == [] then s
    else
      var t := Run(s, acts[..|acts| - 1]);
      if Enabled(t, acts[|acts| - 1]) then Step(t, acts[|acts| - 1]) else t
  }

  /** Every completion among these steps is clean. */
  ghost predicate CleanSteps(s: Sys, acts: seq<Action>) {
    acts != [] ==>
      var t, a := Run(s, acts[..|acts| - 1]), acts[|acts| - 1];
      CleanSteps(s, acts[..|acts| - 1]) && (Enabled(t, a) && a.Finish? ==> Clean(t, a.c, a.outcome))
  }

  lemma CleanStepsSnoc(s: Sys, acts: seq<Action>, a: Action)
    ensures Run(s, acts + [a]) == if Enabled(Run(s, acts), a) then Step(Run(s, acts), a) else Run(s, acts)
    ensures CleanSteps(s, acts + [a]) <==>
              CleanSteps(s, acts) && (Enabled(Run(s, acts), a) && a.Finish? ==> Clean(Run(s, acts), a.c, a.outcome))
  {
    assert (acts + [a])[..|acts|] == acts;
  }

  /** The row can still be handed to somebody: by a new select, or by one made earlier whose lease
      would not have run out already. */
  predicate CanBeTaken(s: Sys, id: nat)
    requires id < |s.items|
  {
    || s.items[id].attempts < s.max
    || exists e :: 0 <= e < |s.claimers| && StillSelected(s, e, id)
  }

  predicate StillSelected(s: Sys, e: nat, id: nat) {
    e < |s.claimers| && s.claimers[e].Selected? && s.claimers[e].id == id && s.claimers[e].now + s.lease >= s.clock
  }

  /** The invariant but for the row `id`, which has run out of attempts and has no live select. */
  ghost predicate Stuck(s: Sys, id: nat) {
    && id < |s.items| && s.items[id].attempts >= s.max && !CanBeTaken(s, id)
    && Exclusive(s) && BackedBut(s, id) && NowPast(s)
  }

  ghost predicate BackedBut(s: Sys, id: nat) {
    forall c: nat, k: nat :: Live(s, c, k) && k != id ==>
      && k < |s.items|
      && s.items[k].status != Pending
      && (s.items[k].status == Leased ==> s.claimers[c].until == s.items[k].leaseUntil)
  }

  lemma StuckTake(s: Sys, id: nat, c: nat)
    requires Stuck(s, id) && Enabled(s, Take(c))
    ensures Stuck(Step(s, Take(c)), id)
  {
    var me, t := s.claimers[c], Step(s, Take(c));
    if me.id == id {
      assert !StillSelected(s, c, id);
      assert forall d: nat, k: nat :: Live(t, d, k) ==> Live(s, d, k);
    } else {
      assert forall d: nat, k: nat :: Live(t, d, k) ==> Live(s, d, k) || (d == c && k == me.id);
      if Takeable(s.items[me.id], me.now) {
        assert forall d: nat :: !Live(s, d, me.id);
      }
    }
    assert forall e: nat :: StillSelected(t, e, id) ==> StillSelected(s, e, id);
  }

  lemma StuckFinish(s: Sys, id: nat, c: nat, o: Outcome)
    requires Stuck(s, id) && Enabled(s, Finish(c, o)) && Clean(s, c, o)
    ensures Stuck(Step(s, Finish(c, o)), id)
  {
    var t := Step(s, Finish(c, o));
    var me := s.claimers[c].id;
    assert forall d: nat, k: nat :: Live(t, d, k) <==> d != c && Live(s, d, k);
    assert forall e: nat :: StillSelected(t, e, id) ==> StillSelected(s, e, id);
  }

  lemma StuckStep(s: Sys, id: nat, a: Action)
    requires Stuck(s, id) && Enabled(s, a) && (a.Finish? ==> Clean(s, a.c, a.outcome))
    ensures Stuck(Step(s, a), id)
  {
    var t := Step(s, a);
    match a
    case Take(c) => StuckTake(s, id, c);
    case Finish(c, o) => StuckFinish(s, id, c, o);
    case Advance(dt) =>
      assert forall d: nat, k: nat :: Live(t, d, k) ==> Live(s, d, k);
      assert forall e: nat :: StillSelected(t, e, id) ==> StillSelected(s, e, id);
    case Add =>
      assert forall d: nat, k: nat :: Live(t, d, k) ==> Live(s, d, k);
      assert forall e: nat :: StillSelected(t, e, id) ==> StillSelected(s, e, id);
    case Look(c, now) =>
      assert forall d: nat, k: nat :: Live(t, d, k) ==> Live(s, d, k);
      assert forall e: nat :: StillSelected(t, e, id) ==> StillSelected(s, e, id);
  }

  lemma {:induction false} StuckForEver(s: Sys, id: nat, acts: seq<Action>)
    requires Stuck(s, id) && CleanSteps(s, acts)
    ensures Stuck(Run(s, acts), id)
  {
    if acts != [] {
      StuckForEver(s, id, acts[..|acts| - 1]);
      var t, a := Run(s, acts[..|acts| - 1]), acts[|acts| - 1];
      if Enabled(t, a) {
        StuckStep(t, id, a);
      }
    }
  }

  /** An unclean completion leaves its row pending under a live holder. */
  lemma UncleanLeaves(s: Sys, c: nat, o: Outcome) returns (d: nat)
    requires Inv(s) && Enabled(s, Finish(c, o)) && !Clean(s, c, o)
    ensures var t, id := Step(s, Finish(c, o)), s.claimers[c].id;
            && Live(t, d, id) && d != c && t.claimers[c].Idle? && t.items[id].status == Pending
            && Exclusive(t) && BackedBut(t, id) && NowPast(t)
  {
    var t, id := Step(s, Finish(c, o)), s.claimers[c].id;
    d :| d != c && Live(s, d, id);
    assert forall e: nat, k: nat :: Live(t, e, k) <==> e != c && Live(s, e, k);
  }

  // One idle claimer works off what is claimable below the row, then claims the row itself.

  /** Claimable rows below id at the present second. */
  function Below(s: Sys, id: nat): nat
    requires id <= |s.items|
    decreases id
  {
    if id == 0 then 0 else Below(s, id - 1) + if Claimable(s.items[id - 1], s.max, s.clock) then 1 else 0
  }

  lemma {:induction false} BelowFalls(s: Sys, t: Sys, id: nat, k: nat)
    requires id <= |s.items| == |t.items| && t.max == s.max && t.clock == s.clock
    requires forall i :: 0 <= i < id && i != k ==> t.items[i] == s.items[i]
    requires k < |s.items| && Claimable(s.items[k], s.max, s.clock) && !Claimable(t.items[k], t.max, t.clock)
    ensures Below(t, id) == Below(s, id) - if k < id then 1 else 0
  {
    if id > 0 {
      BelowFalls(s, t, id - 1, k);
    }
  }

  lemma {:induction false} NoneBelow(s: Sys, id: nat)
    requires id < |s.items| && Below(s, id) == 0 && Claimable(s.items[id], s.max, s.clock)
    ensures Lowest(s.items, s.max, s.clock, 0) == id
  {
    var k := Lowest(s.items, s.max, s.clock, 0);
    if k < id {
      BelowCounts(s, id, k);
    }
  }

  lemma {:induction false} BelowCounts(s: Sys, id: nat, k: nat)
    requires k < id <= |s.items| && Claimable(s.items[k], s.max, s.clock)
    ensures Below(s, id) > 0
  {
    if k < id - 1 {
      BelowCounts(s, id - 1, k);
    }
  }

  /** Row id is pending with attempts to spare, claimer d holds it live, and claimer c is idle. */
  predicate Exposed(s: Sys, id: nat, c: nat, d: nat) {
    && id < |s.items| && s.items[id].status == Pending && s.items[id].attempts < s.max
    && c < |s.claimers| && s.claimers[c].Idle? && c != d && Live(s, d, id)
  }

  /** One more step, if it is no completion or a clean one. */
  lemma OneMore(s: Sys, acts: seq<Action>, a: Action, t: Sys)
    requires Run(s, acts) == t && CleanSteps(s, acts) && Enabled(t, a)
    requires a.Finish? ==> Clean(t, a.c, a.outcome)
    ensures Run(s, acts + [a]) == Step(t, a) && CleanSteps(s, acts + [a])
  {
    CleanStepsSnoc(s, acts, a);
  }

  lemma TwoSteps(s: Sys, a: Action, b: Action)
    requires Enabled(s, a) && !a.Finish? && Enabled(Step(s, a), b) && !b.Finish?
    ensures Run(s, [a, b]) == Step(Step(s, a), b) && CleanSteps(s, [a, b])
  {
    assert [] + [a] == [a] && [a] + [b] == [a, b];
    OneMore(s, [], a, s);
    OneMore(s, [a], b, Step(s, a));
  }

  lemma LookThenTake(s: Sys, c: nat, k: nat)
    requires c < |s.claimers| && s.claimers[c].Idle?
    requires k == Lowest(s.items, s.max, s.clock, 0) && k < |s.items|
    ensures var s1 := s.(claimers := s.claimers[c := Selected(k, s.clock, s.items[k].attempts)]);
            && Enabled(s, Look(c, s.clock)) && Step(s, Look(c, s.clock)) == s1 && Enabled(s1, Take(c))
            && Step(s1, Take(c)) == s1.(items := s.items[k := Lease(s.items[k], s.clock + s.lease)],
                                        claimers := s1.claimers[c := Holding(k, s.clock + s.lease, s.items[k].attempts)])
  {
    assert Takeable(s.items[k], s.clock);
  }

  /** Select and take the lowest claimable row, now. */
  lemma ClaimLowest(s: Sys, c: nat) returns (t: Sys)
    requires c < |s.claimers| && s.claimers[c].Idle?
    requires Lowest(s.items, s.max, s.clock, 0) < |s.items|
    ensures var k := Lowest(s.items, s.max, s.clock, 0);
            && t == Run(s, [Look(c, s.clock), Take(c)]) && CleanSteps(s, [Look(c, s.clock), Take(c)])
            && t == s.(items := s.items[k := Lease(s.items[k], s.clock + s.lease)],
                       claimers := s.claimers[c := Holding(k, s.clock + s.lease, s.items[k].attempts)])
  {
    var k := Lowest(s.items, s.max, s.clock, 0);
    LookThenTake(s, c, k);
    TwoSteps(s, Look(c, s.clock), Take(c));
    t := Step(Step(s, Look(c, s.clock)), Take(c));
    var h := Holding(k, s.clock + s.lease, s.items[k].attempts);
    assert s.claimers[c := Selected(k, s.clock, s.items[k].attempts)][c := h] == s.claimers[c := h];
  }

  /** Claim the lowest row below id and finish it: one claimable row fewer, and id exposed as before. */
  lemma WorkOffOne(s: Sys, id: nat, c: nat, d: nat) returns (t: Sys, acts: seq<Action>)
    requires Exposed(s, id, c, d) && Below(s, id) > 0
    ensures Exposed(t, id, c, d) && t == Run(s, acts) && CleanSteps(s, acts)
    ensures |t.items| == |s.items| && Below(t, id) < Below(s, id)
  {
    LowestIsBelow(s, id);
    var k := Lowest(s.items, s.max, s.clock, 0);
    var s1 := ClaimLowest(s, c);
    var two := [Look(c, s.clock), Take(c)];
    var fin := Finish(c, Finished(true));
    acts := two + [fin];
    CleanStepsSnoc(s, two, fin);
    t := Step(s1, fin);
    BelowFalls(s, t, id, k);
    assert t.claimers[d] == s.claimers[d];
  }

  lemma {:induction false} LowestIsBelow(s: Sys, id: nat)
    requires id < |s.items| && Below(s, id) > 0
    ensures Lowest(s.items, s.max, s.clock, 0) < id
  {
    var k := Lowest(s.items, s.max, s.clock, 0);
    if k >= id {
      NothingBelow(s, id);
    }
  }

  lemma {:induction false} NothingBelow(s: Sys, id: nat)
    requires id <= |s.items| && forall i :: 0 <= i < id ==> !Claimable(s.items[i], s.max, s.clock)
    ensures Below(s, id) == 0
  {
    if id > 0 {
      NothingBelow(s, id - 1);
    }
  }

  lemma {:induction false} RunSplit(s: Sys, xs: seq<Action>, ys: seq<Action>)
    ensures Run(s, xs + ys) == Run(Run(s, xs), ys)
    ensures CleanSteps(s, xs) && CleanSteps(Run(s, xs), ys) ==> CleanSteps(s, xs + ys)
  {
    if ys == [] {
      assert xs + ys == xs;
    } else {
      var y, a := ys[..|ys| - 1], ys[|ys| - 1];
      RunSplit(s, xs, y);
      CleanStepsSnoc(s, xs + y, a);
      CleanStepsSnoc(Run(s, xs), y, a);
      assert xs + ys == xs + y + [a] && ys == y + [a];
    }
  }

  /** From an exposed row a second live holder is reached, by clean steps only. */
  lemma {:induction false} ExposedOverlaps(s: Sys, id: nat, c: nat, d: nat) returns (acts: seq<Action>)
    requires Exposed(s, id, c, d)
    ensures CleanSteps(s, acts) && !Exclusive(Run(s, acts))
    decreases if id < |s.items| then Below(s, id) else 0
  {
    if Below(s, id) == 0 {
      NoneBelow(s, id);
      var t := ClaimLowest(s, c);
      acts := [Look(c, s.clock), Take(c)];
      assert t.claimers[d] == s.claimers[d];
      assert Live(t, c, id) && Live(t, d, id);
    } else {
      var t, first := WorkOffOne(s, id, c, d);
      var more := ExposedOverlaps(t, id, c, d);
      acts := first + more;
      RunSplit(s, first, more);
    }
  }

  /** An earlier select of the pending row, if fresh enough, does it in one step. */
  lemma SelectOverlaps(s: Sys, id: nat, e: nat, d: nat)
    requires id < |s.items| && s.items[id].status == Pending && StillSelected(s, e, id) && Live(s, d, id)
    ensures CleanSteps(s, [Take(e)]) && !Exclusive(Run(s, [Take(e)]))
  {
    CleanStepsSnoc(s, [], Take(e));
    assert [] + [Take(e)] == [Take(e)];
    var t := Step(s, Take(e));
    assert t.claimers[d] == s.claimers[d];
    assert Live(t, e, id) && Live(t, d, id);
  }

  ghost predicate LeadsToOverlap(s: Sys) {
    exists acts :: CleanSteps(s, acts) && !Exclusive(Run(s, acts))
  }

  /** The fate of an unclean completion, exactly: a later state with two unexpired leases on one item
      can be reached by clean steps if and only if the row handed back can still be taken. */
  lemma UncleanOverlapsIff(s: Sys, c: nat, o: Outcome)
    requires Inv(s) && Enabled(s, Finish(c, o)) && !Clean(s, c, o)
    ensures LeadsToOverlap(Step(s, Finish(c, o))) <==> CanBeTaken(Step(s, Finish(c, o)), s.claimers[c].id)
  {
    var t, id := Step(s, Finish(c, o)), s.claimers[c].id;
    var d := UncleanLeaves(s, c, o);
    if t.items[id].attempts < t.max {
      var acts := ExposedOverlaps(t, id, c, d);
      assert LeadsToOverlap(t);
    } else if CanBeTaken(t, id) {
      var e: nat :| e < |t.claimers| && StillSelected(t, e, id);
      SelectOverlaps(t, id, e, d);
      assert LeadsToOverlap(t);
    } else {
      assert Stuck(t, id);
      forall acts | CleanSteps(t, acts) ensures Exclusive(Run(t, acts)) {
        StuckForEver(t, id, acts);
      }
    }
  }

  /** A clean completion leads to no overlap while completions stay clean. */
  lemma {:induction false} CleanNeverOverlaps(s: Sys, acts: seq<Action>)
    requires Inv(s) && CleanSteps(s, acts)
    ensures Inv(Run(s, acts)) && Exclusive(Run(s, acts))
  {
    if acts != [] {
      CleanNeverOverlaps(s, acts[..|acts| - 1]);
      var t, a := Run(s, acts[..|acts| - 1]), acts[|acts| - 1];
      if Enabled(t, a) {
        StepInv(t, a);
      }
    }
  }

  // ---------------------------------------------------------------- when done is final

  /** One step leaves a done row done exactly when it is not a trap reported on that row. */
  lemma DoneStaysIff(s: Sys, a: Action, id: nat)
    requires Enabled(s, a) && id < |s.items| && s.items[id].status == Done
    ensures Step(s, a).items[id].status == Done <==> !(a.Finish? && a.outcome.Trapped? && s.claimers[a.c].id == id)
  {}

  /** Every recorded completion of the run happens within the reporter's own lease. */
  predicate RecordsInLease(tr: seq<Sys>, acts: seq<Action>)
    requires IsRun(tr, acts)
  {
    forall i :: 0 <= i < |acts| && acts[i].Finish? && Recorded(acts[i].outcome) ==>
      tr[i].claimers[acts[i].c].until >= tr[i].clock
  }

  /** A settled row has no live holder. */
  ghost predicate SettledFree(s: Sys) {
    forall c: nat, id: nat :: Live(s, c, id) && id < |s.items| ==> !Settled(s.items[id])
  }

  lemma StepSettledFree(s: Sys, a: Action)
    requires Inv(s) && SettledFree(s) && Enabled(s, a)
    requires a.Finish? && Recorded(a.outcome) ==> s.claimers[a.c].until >= s.clock
    ensures SettledFree(Step(s, a))
    ensures forall id: nat :: id < |s.items| && Settled(s.items[id]) ==> Step(s, a).items[id] == s.items[id]
  {
    var t := Step(s, a);
    match a
    case Advance(dt) => assert forall d: nat, k: nat :: Live(t, d, k) ==> Live(s, d, k);
    case Add =>
      assert forall d: nat, k: nat :: Live(t, d, k) ==> Live(s, d, k);
    case Look(c, now) => assert forall d: nat, k: nat :: Live(t, d, k) ==> Live(s, d, k);
    case Take(c) =>
      assert forall d: nat, k: nat :: Live(t, d, k) ==> Live(s, d, k) || (d == c && k == s.claimers[c].id);
    case Finish(c, o) =>
      assert forall d: nat, k: nat :: Live(t, d, k) <==> d != c && Live(s, d, k);
      assert Recorded(o) ==> Live(s, c, s.claimers[c].id);
  }

  /** When every completion is recorded within its own lease, no item ever has two unexpired leases,
      and done and failed rows never change again. */
  lemma {:induction false} RecordsInLeaseFinal(tr: seq<Sys>, acts: seq<Action>, j: nat, k: nat, id: nat)
    requires IsRun(tr, acts) && RecordsInLease(tr, acts) && j <= k < |tr|
    requires forall c :: 0 <= c < |tr[0].claimers| ==> tr[0].claimers[c].Idle?
    ensures Inv(tr[k]) && Exclusive(tr[k]) && SettledFree(tr[k])
    ensures id < |tr[j].items| && Settled(tr[j].items[id]) ==> id < |tr[k].items| && tr[k].items[id] == tr[j].items[id]
  {
    if k == 0 {
      InitInv(tr[0]);
    } else {
      RecordsInLeaseFinal(tr, acts, if j < k then j else k - 1, k - 1, id);
      StepInLease(tr[k - 1], acts[k - 1]);
      StepSettledFree(tr[k - 1], acts[k - 1]);
    }
  }

  // ---------------------------------------------------------------- a run that needs the condition

  /** One pending item, two idle claimers, four attempts, leases of ten seconds. */
  const START := Sys([Item(1, Pending, 0, 0, false)], 0, [Idle, Idle], 4, 10)

  /** Both claimers hold the item at second 11, the first one's lease having run out at 10. */
  const OVERLAP := Sys([Item(1, Leased, 0, 21, false)], 11, [Holding(0, 10, 0), Holding(0, 21, 0)], 4, 10)

  const TO_OVERLAP := [Look(0, 0), Take(0), Advance(11), Look(1, 11), Take(1)]

  lemma OverlapReached()
    ensures Run(START, TO_OVERLAP) == OVERLAP && CleanSteps(START, TO_OVERLAP)
  {
    var s2 := Sys([Item(1, Leased, 0, 10, false)], 0, [Holding(0, 10, 0), Idle], 4, 10);
    var s3 := s2.(clock := 11);
    var first, third, last := [Look(0, 0), Take(0)], [Advance(11)], [Look(1, 11), Take(1)];
    TwoSteps(START, Look(0, 0), Take(0));
    assert Step(Step(START, Look(0, 0)), Take(0)) == s2;
    OneMore(START, first, Advance(11), s2);
    TwoSteps(s3, Look(1, 11), Take(1));
    assert Step(Step(s3, Look(1, 11)), Take(1)) == OVERLAP;
    RunSplit(START, first + third, last);
    assert TO_OVERLAP == first + third + last;
  }

  /** A trap reported there, after the lease was lost, leads to two unexpired leases on the item. */
  lemma StaleTrapBreaksExclusion()
    ensures Inv(OVERLAP) && Enabled(OVERLAP, Finish(0, Trapped)) && !Clean(OVERLAP, 0, Trapped)
    ensures LeadsToOverlap(Step(OVERLAP, Finish(0, Trapped)))
  {
    assert Live(OVERLAP, 1, 0);
    UncleanOverlapsIff(OVERLAP, 0, Trapped);
  }

  /** And "done" is not final there: the stale trap after the new holder's completion reopens the item. */
  lemma StaleTrapReopensDone()
    ensures Enabled(OVERLAP, Finish(1, Finished(true)))
    ensures var s1 := Step(OVERLAP, Finish(1, Finished(true)));
            && s1.items[0].status == Done && Enabled(s1, Finish(0, Trapped))
            && Step(s1, Finish(0, Trapped)).items[0].status == Pending
  {
  }
}
