/** The coordinator's settle outbox (internal/poolfuzz/settle_outbox.go): durable rows,
    replay-safe enqueue, acknowledgement, and the fair window a puller is given. */
module SettleOutbox {
  import opened EscrowLedger

  /** One row. Kind and campaign are stored trimmed, the kind also in lower case. */
  datatype Row = Row(id: nat, campaign: Campaign, kind: Kind, miner: Address, severity: string, workItem: nat)

  /** rows never disappear; acked holds the ids whose status column reads "applied". */
  datatype Outbox = Outbox(rows: map<nat, Row>, acked: set<nat>, nextId: nat)

  predicate SameKey(r: Row, q: Row) {
    r.(id := 0) == q.(id := 0)
  }

  ghost predicate Valid(o: Outbox) {
    && 0 < o.nextId
    && o.acked <= o.rows.Keys
    && (forall id :: id in o.rows ==> 0 < id < o.nextId && o.rows[id].id == id && o.rows[id].campaign != "")
    && (forall i, j :: i in o.rows && j in o.rows && SameKey(o.rows[i], o.rows[j]) ==> i == j)
  }

  predicate Pending(o: Outbox, id: nat) { id in o.rows && id !in o.acked }

  // ---------------------------------------------------------------- enqueue and acknowledge

  /** The id of an existing row with r's key, or 0: the lookup of EnqueueSettleOutbox. */
  function FindKey(o: Outbox, r: Row, i: nat): (id: nat)
    requires i <= o.nextId
    ensures id != 0 ==> id in o.rows && SameKey(o.rows[id], r)
    ensures id == 0 ==> forall k :: k in o.rows && i <= k < o.nextId && 0 < k ==> !SameKey(o.rows[k], r)
    decreases o.nextId - i
  {
    if i == o.nextId then 0
    else if i in o.rows && SameKey(o.rows[i], r) && i > 0 then i
    else FindKey(o, r, i + 1)
  }

  /** EnqueueSettleOutbox on a trimmed key; an empty campaign is refused with id 0. */
  function Enqueue(o: Outbox, key: Row): (Outbox, nat)
  {
    if key.campaign == "" then (o, 0)
    else
      var found := FindKey(o, key, 0);
      if found != 0 then (o, found)
      else (o.(rows := o.rows[o.nextId := key.(id := o.nextId)], nextId := o.nextId + 1), o.nextId)
  }

  /** Enqueue is replay-safe: one id per key, an existing row never changes, and repeating
      the call changes nothing and answers the same id. */
  lemma EnqueueReplaySafe(o: Outbox, key: Row)
    requires Valid(o) && key.campaign != ""
    ensures var (p, id) := Enqueue(o, key);
            && Valid(p) && p.acked == o.acked
            && (forall i :: i in o.rows ==> i in p.rows && p.rows[i] == o.rows[i])
            && p.rows.Keys <= o.rows.Keys + {id}
            && id in p.rows && SameKey(p.rows[id], key)
            && Enqueue(p, key) == (p, id)
  {
    var (p, id) := Enqueue(o, key);
    assert id in p.rows && SameKey(p.rows[id], key) && 0 < id < p.nextId;
    var again := FindKey(p, key, 0);
    assert SameKey(p.rows[again], p.rows[id]);
  }

  /** One id of ackSettleOutbox: a pending row becomes applied, anything else is untouched. */
  function AckOne(o: Outbox, id: nat): Outbox {
    if Pending(o, id) then o.(acked := o.acked + {id}) else o
  }

  // ---------------------------------------------------------------- per-campaign queue

  predicate Taken(o: Outbox, c: Campaign, last: bool, i: nat) {
    Pending(o, i) && o.rows[i].campaign == c && o.rows[i].kind.Finalize? == last
  }

  /** Pending rows of c, by ascending id, on one side of the "kind is finalize" sort key. */
  function Scan(o: Outbox, c: Campaign, last: bool, i: nat): seq<Row>
    requires i <= o.nextId
    decreases o.nextId - i
  {
    if i == o.nextId then []
    else if Taken(o, c, last, i) then [o.rows[i]] + Scan(o, c, last, i + 1)
    else Scan(o, c, last, i + 1)
  }

  /** ORDER BY (kind = 'finalize'), id over the pending rows of one campaign. */
  function Queue(o: Outbox, c: Campaign): seq<Row> {
    Scan(o, c, false, 0) + Scan(o, c, true, 0)
  }

  /** ListPendingSettleOutboxForCampaign. */
  function ListForCampaign(o: Outbox, c: Campaign, limit: nat): seq<Row> {
    Take(Queue(o, c), limit)
  }

  function Take<T>(s: seq<T>, n: nat): seq<T> { if |s| <= n then s else s[..n] }

  /** CountPendingSettleOutbox. */
  function Count(o: Outbox, c: Campaign): nat { |Queue(o, c)| }

  /** r is a pending row of the campaign in this half of the queue, with an id of i or more. */
  predicate Scanned(o: Outbox, c: Campaign, last: bool, i: nat, r: Row) {
    Pending(o, r.id) && o.rows[r.id] == r && i <= r.id && r.campaign == c && r.kind.Finalize? == last
  }

  lemma {:induction false} ScanMember(o: Outbox, c: Campaign, last: bool, i: nat, r: Row)
    requires Valid(o) && i <= o.nextId
    ensures r in Scan(o, c, last, i) <==> Scanned(o, c, last, i, r)
    decreases o.nextId - i
  {
    if i < o.nextId {
      ScanMember(o, c, last, i + 1, r);
    }
  }

  predicate Ascending(s: seq<Row>) {
    forall a, b :: 0 <= a < b < |s| ==> s[a].id < s[b].id
  }

  lemma AscendingCons(x: Row, s: seq<Row>)
    requires Ascending(s) && forall r :: r in s ==> x.id < r.id
    ensures Ascending([x] + s)
  {
    assert forall a :: 0 <= a < |s| ==> s[a] in s;
  }

  lemma {:induction false} ScanSorted(o: Outbox, c: Campaign, last: bool, i: nat)
    requires Valid(o) && i <= o.nextId
    ensures Ascending(Scan(o, c, last, i))
    decreases o.nextId - i
  {
    if i < o.nextId {
      ScanSorted(o, c, last, i + 1);
      if Taken(o, c, last, i) {
        ScanAbove(o, c, last, i);
        AscendingCons(o.rows[i], Scan(o, c, last, i + 1));
      }
    }
  }

  lemma ScanAbove(o: Outbox, c: Campaign, last: bool, i: nat)
    requires Valid(o) && i < o.nextId && i in o.rows
    ensures forall r :: r in Scan(o, c, last, i + 1) ==> o.rows[i].id < r.id
  {
    forall r | r in Scan(o, c, last, i + 1) ensures o.rows[i].id < r.id {
      ScanMember(o, c, last, i + 1, r);
    }
  }

  lemma ScanFacts(o: Outbox, c: Campaign, last: bool)
    requires Valid(o)
    ensures forall r :: r in Scan(o, c, last, 0) <==> Scanned(o, c, last, 0, r)
    ensures Ascending(Scan(o, c, last, 0))
  {
    forall r ensures r in Scan(o, c, last, 0) <==> Scanned(o, c, last, 0, r) {
      ScanMember(o, c, last, 0, r);
    }
    ScanSorted(o, c, last, 0);
  }

  predicate Distinct(s: seq<Row>) {
    forall a, b :: 0 <= a < b < |s| ==> s[a].id != s[b].id
  }

  lemma QueueMember(o: Outbox, c: Campaign, r: Row)
    requires Valid(o)
    ensures r in Queue(o, c) <==> Pending(o, r.id) && o.rows[r.id] == r && r.campaign == c
  {
    ScanMember(o, c, false, 0, r);
    ScanMember(o, c, true, 0, r);
  }

  lemma QueueOrder(o: Outbox, c: Campaign)
    requires Valid(o)
    ensures Distinct(Queue(o, c))
    ensures forall a, b :: 0 <= a < b < |Queue(o, c)| && Queue(o, c)[a].kind.Finalize? ==> Queue(o, c)[b].kind.Finalize?
  {
    ScanFacts(o, c, false);
    ScanFacts(o, c, true);
    ScansApart(Scan(o, c, false, 0), Scan(o, c, true, 0), o, c);
  }

  lemma ScansApart(x: seq<Row>, y: seq<Row>, o: Outbox, c: Campaign)
    requires forall r :: r in x ==> Scanned(o, c, false, 0, r)
    requires forall r :: r in y ==> Scanned(o, c, true, 0, r)
    requires Ascending(x) && Ascending(y)
    ensures Distinct(x + y)
    ensures forall a, b :: 0 <= a < b < |x + y| && (x + y)[a].kind.Finalize? ==> (x + y)[b].kind.Finalize?
  {
    var q := x + y;
    forall a, b | 0 <= a < b < |q|
      ensures q[a].id != q[b].id
      ensures q[a].kind.Finalize? ==> q[b].kind.Finalize?
    {
      assert a < |x| ==> q[a] in x;
      assert |x| <= b ==> q[b] in y;
      assert b < |x| ==> q[b] in x;
      assert |x| <= a ==> q[a] in y;
    }
  }

  lemma QueueFacts(o: Outbox, c: Campaign)
    requires Valid(o)
    ensures forall r :: r in Queue(o, c) <==> Pending(o, r.id) && o.rows[r.id] == r && r.campaign == c
    ensures Distinct(Queue(o, c))
    ensures forall a, b :: 0 <= a < b < |Queue(o, c)| && Queue(o, c)[a].kind.Finalize? ==> Queue(o, c)[b].kind.Finalize?
  {
    forall r ensures r in Queue(o, c) <==> Pending(o, r.id) && o.rows[r.id] == r && r.campaign == c {
      QueueMember(o, c, r);
    }
    QueueOrder(o, c);
  }

  /** The count is exact: zero means no pending row of the campaign exists. */
  lemma CountZero(o: Outbox, c: Campaign)
    requires Valid(o)
    ensures Count(o, c) == 0 <==> forall id :: Pending(o, id) ==> o.rows[id].campaign != c
  {
    if Count(o, c) != 0 {
      QueueMember(o, c, Queue(o, c)[0]);
    }
    forall id | Pending(o, id) ensures o.rows[id] in Queue(o, c) <==> o.rows[id].campaign == c {
      QueueMember(o, c, o.rows[id]);
    }
  }

  // ---------------------------------------------------------------- windows

  function Proj(s: seq<Row>, c: Campaign): seq<Row> {
    if s == [] then []
    else Proj(s[..|s| - 1], c) + (if s[|s| - 1].campaign == c then [s[|s| - 1]] else [])
  }

  lemma ProjSnoc(s: seq<Row>, x: Row, c: Campaign)
    ensures Proj(s + [x], c) == Proj(s, c) + (if x.campaign == c then [x] else [])
  {
    assert (s + [x])[..|s + [x]| - 1] == s;
  }

  lemma {:induction false} ProjIn(s: seq<Row>, c: Campaign)
    ensures |Proj(s, c)| <= |s|
    ensures forall r :: r in Proj(s, c) <==> r in s && r.campaign == c
  {
    if s != [] {
      ProjIn(s[..|s| - 1], c);
      assert s == s[..|s| - 1] + [s[|s| - 1]];
    }
  }

  lemma {:induction false} ProjConcat(s: seq<Row>, t: seq<Row>, c: Campaign)
    ensures Proj(s + t, c) == Proj(s, c) + Proj(t, c)
  {
    if t == [] {
      assert s + t == s;
    } else {
      ProjConcat(s, t[..|t| - 1], c);
      ProjSnoc(s + t[..|t| - 1], t[|t| - 1], c);
      assert s + t == s + t[..|t| - 1] + [t[|t| - 1]];
    }
  }

  lemma {:induction false} ProjAll(s: seq<Row>, c: Campaign)
    requires forall r :: r in s ==> r.campaign == c
    ensures Proj(s, c) == s
  {
    if s != [] {
      ProjAll(s[..|s| - 1], c);
      assert s == s[..|s| - 1] + [s[|s| - 1]];
    }
  }

  lemma {:induction false} ProjNone(s: seq<Row>, c: Campaign)
    requires forall r :: r in s ==> r.campaign != c
    ensures Proj(s, c) == []
  {
    if s != [] {
      ProjNone(s[..|s| - 1], c);
    }
  }

  /** What a fetch promises: pending rows without repetition, and of each campaign a prefix
      of its queue, so a finalize is present only when every other pending row is. */
  predicate IsWindow(o: Outbox, items: seq<Row>) {
    && Distinct(items)
    && (forall r :: r in items ==> Pending(o, r.id) && o.rows[r.id] == r)
    && (forall r :: r in items ==> Proj(items, r.campaign) <= Queue(o, r.campaign))
  }

  lemma WindowFinalizeLast(o: Outbox, items: seq<Row>, f: Row, r: Row)
    requires Valid(o) && IsWindow(o, items) && f in items && f.kind.Finalize?
    requires Pending(o, r.id) && o.rows[r.id] == r && r.campaign == f.campaign && !r.kind.Finalize?
    ensures r in items
  {
    var c := f.campaign;
    QueueFacts(o, c);
    ProjIn(items, c);
    var a :| 0 <= a < |Proj(items, c)| && Proj(items, c)[a] == f;
    var b :| 0 <= b < |Queue(o, c)| && Queue(o, c)[b] == r;
    assert Queue(o, c)[a] == f;
    assert b < a;
    assert Proj(items, c)[b] == r;
  }

  /** Beyond its first n rows campaign c's queue holds no pay row. */
  predicate PaysWithin(o: Outbox, c: Campaign, n: nat) {
    forall i :: n <= i < |Queue(o, c)| ==> Queue(o, c)[i].kind.IsFinal()
  }

  /** Every pending pay row of campaign c is in the window. */
  ghost predicate HoldsPays(o: Outbox, items: seq<Row>, c: Campaign) {
    forall id :: Pending(o, id) && o.rows[id].campaign == c && !o.rows[id].kind.IsFinal() ==> o.rows[id] in items
  }

  lemma ProjIsPrefix(o: Outbox, items: seq<Row>, c: Campaign)
    requires IsWindow(o, items)
    ensures Proj(items, c) <= Queue(o, c)
  {
    ProjIn(items, c);
    if Proj(items, c) != [] {
      assert Proj(items, c)[0] in items;
    }
  }

  lemma WithinWindow(o: Outbox, items: seq<Row>, c: Campaign, i: nat)
    requires Valid(o) && IsWindow(o, items) && i < |Queue(o, c)|
    ensures Queue(o, c)[i] in items <==> i < |Proj(items, c)|
  {
    var q, p := Queue(o, c), Proj(items, c);
    QueueFacts(o, c);
    ProjIsPrefix(o, items, c);
    ProjIn(items, c);
    assert q[i] in q;
    assert forall j :: 0 <= j < |p| ==> p[j] == q[j];
    assert q[i] in p <==> i < |p|;
  }

  /** A window holds every pending pay row of a campaign exactly when the rows of the campaign's queue
      that it leaves out are all final. Whatever the kinds in the queue, it does when the window has
      room for all pending rows of the campaign, which is what the count tells. */
  lemma HoldsPaysIff(o: Outbox, items: seq<Row>, c: Campaign)
    requires Valid(o) && IsWindow(o, items)
    ensures HoldsPays(o, items, c) <==> PaysWithin(o, c, |Proj(items, c)|)
    ensures |Proj(items, c)| == Count(o, c) ==> HoldsPays(o, items, c)
  {
    var q := Queue(o, c);
    QueueFacts(o, c);
    forall i: nat | i < |q| ensures q[i] in items <==> i < |Proj(items, c)| {
      WithinWindow(o, items, c, i);
    }
    assert forall i :: 0 <= i < |q| ==> q[i] in q;
    if PaysWithin(o, c, |Proj(items, c)|) {
      forall id | Pending(o, id) && o.rows[id].campaign == c && !o.rows[id].kind.IsFinal() ensures o.rows[id] in items {
        assert o.rows[id] in q;
      }
    }
  }

  lemma ListForCampaignIsWindow(o: Outbox, c: Campaign, limit: nat)
    requires Valid(o)
    ensures IsWindow(o, ListForCampaign(o, c, limit)) && |ListForCampaign(o, c, limit)| <= limit
    ensures forall r :: r in ListForCampaign(o, c, limit) ==> r.campaign == c
    ensures limit > 0 && Count(o, c) > 0 ==> ListForCampaign(o, c, limit) != []
  {
    QueueFacts(o, c);
    var q, items := Queue(o, c), ListForCampaign(o, c, limit);
    forall r | r in items ensures r in q {}
    forall d ensures Proj(items, d) <= Queue(o, d) {
      if d == c {
        ProjAll(items, c);
      } else {
        ProjNone(items, d);
      }
    }
  }
}
