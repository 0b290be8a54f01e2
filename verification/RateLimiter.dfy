/** The per-second limiter with a burst lockout (allowRate, main.go:4756-4802). */
module RateLimiter {
  datatype Slot = Slot(sec: int, count: nat)

  const MAX_KEYS: nat := 4096
  const LOCKOUT := 15

  datatype State = State(hits: map<string, Slot>, ban: map<string, int>)

  function DropOld(hits: map<string, Slot>, now: int): map<string, Slot> {
    map k | k in hits && now - hits[k].sec <= 2 :: hits[k]
  }

  function DropExpired(ban: map<string, int>, now: int): map<string, int> {
    map k | k in ban && ban[k] > now :: ban[k]
  }

  predicate Banned(st: State, key: string, now: int) { key in st.ban && st.ban[key] > now }

  /** The tables after the lapsed ban of this key and, when full, old entries are removed. */
  function Cleaned(st: State, key: string, now: int): State {
    var st := st.(ban := st.ban - {key});
    if |st.hits| >= MAX_KEYS then State(DropOld(st.hits, now), DropExpired(st.ban, now)) else st
  }

  /** The slot's count in this second. */
  function CountAt(hits: map<string, Slot>, key: string, now: int): nat {
    if key in hits && hits[key].sec == now then hits[key].count else 0
  }

  /** The tables after counting this call. */
  function Counted(t: State, key: string, limit: nat, now: int): State {
    var n := CountAt(t.hits, key, now) + 1;
    State(t.hits[key := Slot(now, n)], if n > limit * 3 then t.ban[key := now + LOCKOUT] else t.ban)
  }

  /** One call with a positive limit: the new tables, and whether it is admitted. */
  function Step(st: State, key: string, limit: nat, now: int): (State, bool) {
    if Banned(st, key, now) then (st, false)
    else
      var t := Cleaned(st, key, now);
      if |t.hits| >= MAX_KEYS then (t, false)
      else (Counted(t, key, limit, now), CountAt(t.hits, key, now) < limit)
  }

  lemma StepCounts(st: State, key: string, limit: nat, now: int, t: State)
    requires !Banned(st, key, now) && t == Cleaned(st, key, now)
    ensures Step(st, key, limit, now) ==
              if |t.hits| >= MAX_KEYS then (t, false) else (Counted(t, key, limit, now), CountAt(t.hits, key, now) < limit)
  {}

  /** The limiter of the program; zero is the second of an absent slot. */
  class Limiter {
    var hits: map<string, Slot>
    var ban: map<string, int>

    constructor ()
      ensures hits == map[] && ban == map[]
    {
      hits, ban := map[], map[];
    }

    method EvictHits(now: int)
      modifies this`hits
      ensures hits == DropOld(old(hits), now)
    {
      var todo := hits.Keys;
      while todo != {}
        invariant todo <= hits.Keys
        invariant forall k :: k in hits ==> k in old(hits) && hits[k] == old(hits)[k]
        invariant forall k :: k in old(hits) && k !in hits ==> now - old(hits)[k].sec > 2
        invariant forall k :: k in hits && k !in todo ==> now - hits[k].sec <= 2
        decreases todo
      {
        var k :| k in todo;
        todo := todo - {k};
        if now - hits[k].sec > 2 {
          hits := hits - {k};
        }
      }
    }

    method EvictBans(now: int)
      modifies this`ban
      ensures ban == DropExpired(old(ban), now)
    {
      var todo := ban.Keys;
      while todo != {}
        invariant todo <= ban.Keys
        invariant forall k :: k in ban ==> k in old(ban) && ban[k] == old(ban)[k]
        invariant forall k :: k in old(ban) && k !in ban ==> old(ban)[k] <= now
        invariant forall k :: k in ban && k !in todo ==> ban[k] > now
        decreases todo
      {
        var k :| k in todo;
        todo := todo - {k};
        if ban[k] <= now {
          ban := ban - {k};
        }
      }
    }

    method AllowRate(key: string, limitPerSec: int, now: int) returns (ok: bool)
      modifies this
      ensures limitPerSec <= 0 ==> ok && hits == old(hits) && ban == old(ban)
      ensures limitPerSec > 0 ==> (State(hits, ban), ok) == Step(old(State(hits, ban)), key, limitPerSec, now)
    {
      if limitPerSec <= 0 {
        return true;
      }
      if key in ban {
        if ban[key] > now {
          return false;
        }
        ban := ban - {key};
      }
      assert ban == old(ban) - {key};
      StepCounts(old(State(hits, ban)), key, limitPerSec, now, Cleaned(old(State(hits, ban)), key, now));
      if |hits| >= MAX_KEYS {
        EvictHits(now);
        EvictBans(now);
        if |hits| >= MAX_KEYS {
          return false;
        }
      }
      assert State(hits, ban) == Cleaned(old(State(hits, ban)), key, now);
      var slot := if key in hits then hits[key] else Slot(0, 0);
      if slot.sec != now {
        slot := Slot(now, 0);
      }
      slot := slot.(count := slot.count + 1);
      hits := hits[key := slot];
      if slot.count > limitPerSec * 3 {
        ban := ban[key := now + LOCKOUT];
      }
      return slot.count <= limitPerSec;
    }
  }

  /** A call and its answer; tripped marks the call that set a lockout. */
  datatype Call = Call(key: string, now: int, allowed: bool, tripped: bool)

  function Admitted(log: seq<Call>, key: string, sec: int): nat {
    if log == [] then 0
    else
      var c := log[|log| - 1];
      Admitted(log[..|log| - 1], key, sec) + if c.key == key && c.now == sec && c.allowed then 1 else 0
  }

  function Record(st: State, key: string, limit: nat, now: int): Call {
    var (after, ok) := Step(st, key, limit, now);
    Call(key, now, ok, !Banned(st, key, now) && Banned(after, key, now))
  }

  /** A request stream: keys and clock readings. */
  datatype Request = Request(key: string, now: int)

  predicate InOrder(reqs: seq<Request>) {
    forall i, j :: 0 <= i < j < |reqs| ==> reqs[i].now <= reqs[j].now
  }

  function RunState(reqs: seq<Request>, limits: string -> nat): State {
    if reqs == [] then State(map[], map[])
    else
      var q := reqs[|reqs| - 1];
      Step(RunState(reqs[..|reqs| - 1], limits), q.key, limits(q.key), q.now).0
  }

  function RunLog(reqs: seq<Request>, limits: string -> nat): (log: seq<Call>)
    ensures |log| == |reqs|
    ensures forall i :: 0 <= i < |log| ==> log[i].key == reqs[i].key && log[i].now == reqs[i].now
  {
    if reqs == [] then []
    else
      var q := reqs[|reqs| - 1];
      RunLog(reqs[..|reqs| - 1], limits) + [Record(RunState(reqs[..|reqs| - 1], limits), q.key, limits(q.key), q.now)]
  }

  /** No call lies after `clock`. */
  predicate UpTo(log: seq<Call>, clock: int) {
    forall i :: 0 <= i < |log| ==> log[i].now <= clock
  }

  lemma {:induction false} NoneYet(log: seq<Call>, clock: int, key: string, sec: int)
    requires UpTo(log, clock) && sec > clock
    ensures Admitted(log, key, sec) == 0
  {
    if log != [] {
      NoneYet(log[..|log| - 1], clock, key, sec);
    }
  }

  lemma AdmittedSnoc(log: seq<Call>, c: Call, key: string, sec: int)
    ensures Admitted(log + [c], key, sec) == Admitted(log, key, sec) + if c.key == key && c.now == sec && c.allowed then 1 else 0
  {
    assert (log + [c])[..|log|] == log;
  }

  /** Admissions of the current second are covered by the slot; every second stays in its limit. */
  ghost predicate WithinLimits(st: State, log: seq<Call>, clock: int, limits: string -> nat) {
    && (forall key, sec {:trigger Admitted(log, key, sec)} :: Admitted(log, key, sec) <= limits(key))
    && (forall key :: Admitted(log, key, clock) <= CountAt(st.hits, key, clock))
  }

  /** A slot never counts past three limits and one; in the second it does, its key is locked out. */
  predicate SlotOk(st: State, k: string, clock: int, limit: nat) {
    k in st.hits ==>
      && st.hits[k].sec <= clock && st.hits[k].count <= 3 * limit + 1
      && (st.hits[k].count > 3 * limit ==> Banned(st, k, clock) || clock > st.hits[k].sec)
  }

  ghost predicate SlotsBounded(st: State, clock: int, limits: string -> nat) {
    |st.hits| <= MAX_KEYS && forall k :: SlotOk(st, k, clock, limits(k))
  }

  /** The lockouts of the past that still run are in the table. */
  ghost predicate LockoutsHeld(st: State, log: seq<Call>, clock: int) {
    forall i :: 0 <= i < |log| && log[i].tripped && clock < log[i].now + LOCKOUT ==>
      log[i].key in st.ban && st.ban[log[i].key] >= log[i].now + LOCKOUT
  }

  /** Every call within a lockout was refused. */
  predicate LockoutsObeyed(log: seq<Call>) {
    forall i, j :: 0 <= i < j < |log| && log[i].tripped && log[j].key == log[i].key && log[j].now < log[i].now + LOCKOUT ==>
      !log[j].allowed
  }

  lemma CountAtCleaned(st: State, key: string, k: string, now: int)
    ensures CountAt(Cleaned(st, key, now).hits, k, now) == CountAt(st.hits, k, now)
  {}

  lemma DropOldSmaller(hits: map<string, Slot>, now: int)
    ensures |DropOld(hits, now)| <= |hits|
  {
    var d := DropOld(hits, now);
    assert d.Keys <= hits.Keys;
    SubsetSmaller(d.Keys, hits.Keys);
    assert |d| == |d.Keys| && |hits| == |hits.Keys|;
  }

  lemma SubsetSmaller(a: set<string>, b: set<string>)
    requires a <= b
    ensures |a| <= |b|
  {
    assert b == a + (b - a);
  }

  lemma CleanedSlot(st: State, clock: int, key: string, now: int, k: string, limit: nat)
    requires SlotOk(st, k, clock, limit) && clock <= now && !Banned(st, key, now)
    ensures SlotOk(Cleaned(st, key, now), k, now, limit)
  {}

  lemma CountedOwnSlot(t: State, key: string, limit: nat, now: int)
    requires SlotOk(t, key, now, limit) && key !in t.ban
    ensures SlotOk(Counted(t, key, limit, now), key, now, limit)
  {}

  lemma CountedOtherSlot(t: State, key: string, limit: nat, now: int, k: string, other: nat)
    requires SlotOk(t, k, now, other) && k != key
    ensures SlotOk(Counted(t, key, limit, now), k, now, other)
  {}

  lemma StepSlot(st: State, clock: int, key: string, now: int, k: string, limits: string -> nat)
    requires SlotOk(st, k, clock, limits(k)) && clock <= now
    ensures SlotOk(Step(st, key, limits(key), now).0, k, now, limits(k))
  {
    if !Banned(st, key, now) {
      CleanedSlot(st, clock, key, now, k, limits(k));
      var t := Cleaned(st, key, now);
      assert key !in t.ban;
      if k == key {
        CountedOwnSlot(t, key, limits(key), now);
      } else {
        CountedOtherSlot(t, key, limits(key), now, k, limits(k));
      }
    }
  }

  lemma StepSize(st: State, key: string, limit: nat, now: int)
    requires |st.hits| <= MAX_KEYS
    ensures |Step(st, key, limit, now).0.hits| <= MAX_KEYS
  {
    DropOldSmaller(st.hits, now);
    var t := Cleaned(st, key, now);
    if !Banned(st, key, now) && |t.hits| < MAX_KEYS {
      var h := Step(st, key, limit, now).0.hits;
      assert h.Keys == t.hits.Keys + {key};
      assert |h| == |h.Keys| && |t.hits| == |t.hits.Keys|;
    }
  }

  lemma StepSlots(st: State, clock: int, key: string, now: int, limits: string -> nat)
    requires SlotsBounded(st, clock, limits) && clock <= now
    ensures SlotsBounded(Step(st, key, limits(key), now).0, now, limits)
  {
    StepSize(st, key, limits(key), now);
    var after := Step(st, key, limits(key), now).0;
    forall k ensures SlotOk(after, k, now, limits(k)) {
      assert SlotOk(st, k, clock, limits(k));
      StepSlot(st, clock, key, now, k, limits);
    }
  }

  lemma StepLimits(st: State, log: seq<Call>, clock: int, key: string, now: int, limits: string -> nat)
    requires WithinLimits(st, log, clock, limits) && UpTo(log, clock) && clock <= now && limits(key) > 0
    ensures WithinLimits(Step(st, key, limits(key), now).0, log + [Record(st, key, limits(key), now)], now, limits)
  {
    var after, c := Step(st, key, limits(key), now).0, Record(st, key, limits(key), now);
    forall k, sec ensures Admitted(log + [c], k, sec) <= limits(k) && (sec == now ==> Admitted(log + [c], k, sec) <= CountAt(after.hits, k, now)) {
      AdmittedSnoc(log, c, k, sec);
      CountAtCleaned(st, key, k, now);
      if sec == now && now > clock {
        NoneYet(log, clock, k, now);
      }
      assert sec == now ==> Admitted(log, k, now) <= CountAt(st.hits, k, now);
    }
  }

  lemma StepLockouts(st: State, log: seq<Call>, clock: int, key: string, now: int, limits: string -> nat)
    requires LockoutsHeld(st, log, clock) && LockoutsObeyed(log) && clock <= now && limits(key) > 0
    ensures var log' := log + [Record(st, key, limits(key), now)];
            LockoutsHeld(Step(st, key, limits(key), now).0, log', now) && LockoutsObeyed(log')
  {
    var c := Record(st, key, limits(key), now);
    var after, log' := Step(st, key, limits(key), now).0, log + [c];
    forall i | 0 <= i < |log| && log[i].tripped && log[i].key == key && now < log[i].now + LOCKOUT ensures !c.allowed && Banned(st, key, now) {
    }
    forall i | 0 <= i < |log'| && log'[i].tripped && now < log'[i].now + LOCKOUT
      ensures log'[i].key in after.ban && after.ban[log'[i].key] >= log'[i].now + LOCKOUT
    {
      if i < |log| {
        assert log'[i] == log[i] && clock < log[i].now + LOCKOUT;
      }
    }
  }

  ghost predicate Safe(st: State, log: seq<Call>, clock: int, limits: string -> nat) {
    && SlotsBounded(st, clock, limits)
    && WithinLimits(st, log, clock, limits)
    && LockoutsHeld(st, log, clock) && LockoutsObeyed(log) && UpTo(log, clock)
  }

  lemma StepSafe(st: State, log: seq<Call>, clock: int, key: string, now: int, limits: string -> nat)
    requires Safe(st, log, clock, limits) && clock <= now && limits(key) > 0
    ensures Safe(Step(st, key, limits(key), now).0, log + [Record(st, key, limits(key), now)], now, limits)
  {
    StepSlots(st, clock, key, now, limits);
    StepLimits(st, log, clock, key, now, limits);
    StepLockouts(st, log, clock, key, now, limits);
  }

  lemma InitSafe(clock: int, limits: string -> nat)
    ensures Safe(State(map[], map[]), [], clock, limits)
  {}

  /** Requests in clock order with positive limits. */
  predicate Admissible(reqs: seq<Request>, limits: string -> nat) {
    InOrder(reqs) && forall i :: 0 <= i < |reqs| ==> limits(reqs[i].key) > 0
  }

  /** Over any request stream with a nondecreasing clock and a fixed positive limit for each key: no
      key gets more than its limit in a second, slots count to 3*limit+1 at most, a tripped key is
      refused for 15 seconds, and at most 4096 keys are tracked. */
  lemma {:induction false} LimiterSafe(reqs: seq<Request>, limits: string -> nat)
    requires reqs != [] && Admissible(reqs, limits)
    ensures Safe(RunState(reqs, limits), RunLog(reqs, limits), reqs[|reqs| - 1].now, limits)
  {
    var n := |reqs| - 1;
    var q := reqs[n];
    if n == 0 {
      InitSafe(q.now, limits);
      assert RunState(reqs[..n], limits) == State(map[], map[]) && RunLog(reqs[..n], limits) == [];
      StepSafe(State(map[], map[]), [], q.now, q.key, q.now, limits);
    } else {
      LimiterSafe(reqs[..n], limits);
      StepSafe(RunState(reqs[..n], limits), RunLog(reqs[..n], limits), reqs[n - 1].now, q.key, q.now, limits);
    }
  }
}
