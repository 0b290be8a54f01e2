/** The coordinator's multi-campaign fetch window (internal/poolfuzz/settle_outbox.go:185-372). */
module FairWindow {
  import opened EscrowLedger
  import opened SettleOutbox

  const CAMPAIGN_SCAN_CAP: nat := 512
  const CAMPAIGN_WINDOW: nat := 32
  const ROTATE_SECONDS: nat := 30

  function Min(a: nat, b: nat): nat { if a <= b then a else b }

  // ---------------------------------------------------------------- which campaigns

  /** GROUP BY campaign_id ORDER BY MIN(id): campaigns with pending rows, by first pending id. */
  function Campaigns(o: Outbox, i: nat): (cs: seq<Campaign>)
    requires i <= o.nextId
    ensures forall c :: c in cs <==> exists id :: 0 <= id < i && Pending(o, id) && o.rows[id].campaign == c
    ensures forall a, b :: 0 <= a < b < |cs| ==> cs[a] != cs[b]
  {
    if i == 0 then []
    else
      var before := Campaigns(o, i - 1);
      if Pending(o, i - 1) && o.rows[i - 1].campaign !in before then before + [o.rows[i - 1].campaign] else before
  }

  function Wrap(start: nat, i: nat, n: nat): nat
    requires n > 0
  {
    (start + i) % n
  }

  /** rotateCampaignWindow. */
  function Rotate(cs: seq<Campaign>, now: nat, window: nat): (r: seq<Campaign>)
    ensures |r| == Min(|cs|, window)
  {
    if window == 0 || cs == [] then []
    else if |cs| <= window then cs
    else
      var start := (now / ROTATE_SECONDS) % |cs|;
      seq(window, i requires 0 <= i < window => cs[Wrap(start, i, |cs|)])
  }

  lemma MulAtLeast(k: int, n: int)
    requires 1 <= k && 0 <= n
    ensures k * n >= n
  {
    assert k * n == n + (k - 1) * n;
    assert (k - 1) * n >= 0;
  }

  lemma DivModUnique(x: nat, n: nat, q: nat, r: nat)
    requires n > 0 && x == q * n + r && r < n
    ensures x / n == q && x % n == r
  {
    var d, m := x / n, x % n;
    assert x == d * n + m;
    if d < q {
      assert (q - d) * n == q * n - d * n;
      MulAtLeast(q - d, n);
    } else if q < d {
      assert (d - q) * n == d * n - q * n;
      MulAtLeast(d - q, n);
    }
  }

  lemma WrapIs(start: nat, i: nat, n: nat)
    requires start < n && i < n
    ensures Wrap(start, i, n) == if start + i < n then start + i else start + i - n
  {
    if start + i < n {
      DivModUnique(start + i, n, 0, start + i);
    } else {
      DivModUnique(start + i, n, 1, start + i - n);
    }
  }

  lemma RotateFacts(cs: seq<Campaign>, now: nat, window: nat)
    requires forall a, b :: 0 <= a < b < |cs| ==> cs[a] != cs[b]
    ensures forall c :: c in Rotate(cs, now, window) ==> c in cs
    ensures var r := Rotate(cs, now, window); forall a, b :: 0 <= a < b < |r| ==> r[a] != r[b]
  {
    if 0 < window < |cs| {
      var start := (now / ROTATE_SECONDS) % |cs|;
      var r := Rotate(cs, now, window);
      forall a, b | 0 <= a < b < |r| ensures r[a] != r[b] {
        WrapIs(start, a, |cs|);
        WrapIs(start, b, |cs|);
      }
    }
  }

  lemma SlotFor(n: nat, j: nat, slot: nat) returns (t: nat)
    requires j < n
    ensures slot <= t < slot + n && t % n == j
  {
    var q, s := slot / n, slot % n;
    if s <= j {
      t := slot + (j - s);
      DivModUnique(t, n, q, j);
    } else {
      t := slot + (j - s + n);
      assert (q + 1) * n == q * n + n;
      DivModUnique(t, n, q + 1, j);
    }
  }

  /** No starvation: among any |cs| consecutive 30 s slots, every campaign is in the window of one. */
  lemma RotateNoStarvation(cs: seq<Campaign>, j: nat, slot: nat, window: nat) returns (t: nat)
    requires j < |cs| && window > 0
    ensures slot <= t < slot + |cs| && cs[j] in Rotate(cs, t * ROTATE_SECONDS, window)
  {
    t := SlotFor(|cs|, j, slot);
    if |cs| > window {
      WrapIs(j, 0, |cs|);
      var now := t * ROTATE_SECONDS;
      assert (now / ROTATE_SECONDS) % |cs| == j;
      assert Rotate(cs, now, window)[0] == cs[j];
    }
  }

  // ---------------------------------------------------------------- the fair round robin

  function Ids(s: seq<Row>): set<nat> { set r | r in s :: r.id }

  function CampaignSet(s: seq<Row>): set<Campaign> { set r | r in s :: r.campaign }

  lemma {:induction false} IdsSize(s: seq<Row>)
    ensures |Ids(s)| <= |s|
    ensures Distinct(s) ==> |Ids(s)| == |s|
  {
    if s != [] {
      var t, x := s[..|s| - 1], s[|s| - 1];
      assert s == t + [x];
      assert Ids(s) == Ids(t) + {x.id};
      IdsSize(t);
      if Distinct(s) {
        LastIsNew(t, x);
      }
    }
  }

  lemma LastIsNew(t: seq<Row>, x: Row)
    requires Distinct(t + [x])
    ensures x.id !in Ids(t) && Distinct(t)
  {
    var s := t + [x];
    assert s[|t|] == x && forall k :: 0 <= k < |t| ==> s[k] == t[k];
    forall r | r in t ensures r.id != x.id {
      var k :| 0 <= k < |t| && t[k] == r;
      assert s[k] == r;
    }
  }

  lemma {:induction false} DistinctSize(cs: seq<Campaign>)
    requires forall a, b :: 0 <= a < b < |cs| ==> cs[a] != cs[b]
    ensures |set c | c in cs| == |cs|
  {
    if cs != [] {
      var t, x := cs[..|cs| - 1], cs[|cs| - 1];
      assert cs == t + [x];
      assert (set c | c in cs) == (set c | c in t) + {x};
      DistinctSize(t);
    }
  }

  lemma {:induction false} ProjDistinct(s: seq<Row>, c: Campaign)
    requires Distinct(s)
    ensures Distinct(Proj(s, c))
  {
    if s != [] {
      var t := s[..|s| - 1];
      ProjDistinct(t, c);
      ProjIn(t, c);
      var p := Proj(t, c);
      forall a | 0 <= a < |p| ensures p[a].id != s[|s| - 1].id {
        assert p[a] in t;
      }
    }
  }

  /** out's rows of campaign c are the first ones items has. */
  predicate InFront(items: seq<Row>, out: seq<Row>, c: Campaign) { Proj(out, c) <= Proj(items, c) }

  /** out holds, of each campaign, the first rows that items holds of it. */
  ghost predicate Prefixes(items: seq<Row>, out: seq<Row>) {
    Distinct(out) && forall c :: InFront(items, out, c)
  }

  lemma PrefixesIn(items: seq<Row>, out: seq<Row>)
    requires Prefixes(items, out)
    ensures forall r :: r in out ==> r in items
  {
    forall r | r in out ensures r in items {
      ProjIn(out, r.campaign);
      ProjIn(items, r.campaign);
      assert r in Proj(out, r.campaign) && InFront(items, out, r.campaign);
    }
  }

  lemma NextIsFresh(items: seq<Row>, out: seq<Row>, c: Campaign, k: nat)
    requires Distinct(items) && Prefixes(items, out)
    requires k < |Proj(items, c)| && Proj(out, c) == Proj(items, c)[..k]
    ensures var x := Proj(items, c)[k]; x in items && x.campaign == c && x.id !in Ids(out)
  {
    var x := Proj(items, c)[k];
    ProjIn(items, c);
    ProjIn(out, c);
    ProjDistinct(items, c);
    PrefixesIn(items, out);
    assert x in Proj(items, c);
    forall r | r in out ensures r.id != x.id {
      if r.campaign == c {
        assert r in Proj(out, c);
        var j :| 0 <= j < k && Proj(items, c)[j] == r;
      } else {
        assert r.id == x.id ==> r == x;
      }
    }
  }

  lemma ExtendAt(items: seq<Row>, out: seq<Row>, c: Campaign, k: nat, d: Campaign)
    requires InFront(items, out, d)
    requires k < |Proj(items, c)| && Proj(items, c)[k].campaign == c && Proj(out, c) == Proj(items, c)[..k]
    ensures var x := Proj(items, c)[k];
            && InFront(items, out + [x], d)
            && Proj(out + [x], d) == if d == c then Proj(items, c)[..k + 1] else Proj(out, d)
  {
    ProjSnoc(out, Proj(items, c)[k], d);
  }

  /** Appending the next row of one campaign keeps the prefixes. */
  lemma Extend(items: seq<Row>, out: seq<Row>, c: Campaign, k: nat)
    requires Distinct(items) && Prefixes(items, out)
    requires k < |Proj(items, c)| && Proj(out, c) == Proj(items, c)[..k]
    ensures var x := Proj(items, c)[k];
            && x in items && x.campaign == c
            && Prefixes(items, out + [x])
            && Proj(out + [x], c) == Proj(items, c)[..k + 1]
            && (forall d :: d != c ==> Proj(out + [x], d) == Proj(out, d))
  {
    var x := Proj(items, c)[k];
    NextIsFresh(items, out, c, k);
    DistinctSnoc(out, x);
    forall d ensures InFront(items, out + [x], d)
             ensures Proj(out + [x], d) == if d == c then Proj(items, c)[..k + 1] else Proj(out, d) {
      assert InFront(items, out, d);
      ExtendAt(items, out, c, k, d);
    }
  }

  lemma DistinctSnoc(out: seq<Row>, x: Row)
    requires Distinct(out) && x.id !in Ids(out)
    ensures Distinct(out + [x])
  {
    forall a | 0 <= a < |out| ensures out[a].id != x.id {
      assert out[a] in out;
    }
  }

  lemma ProjMono(items: seq<Row>, i: nat, c: Campaign)
    requires i <= |items|
    ensures Proj(items[..i], c) <= Proj(items, c)
  {
    assert items == items[..i] + items[i..];
    ProjConcat(items[..i], items[i..], c);
  }

  lemma ProjAt(items: seq<Row>, i: nat)
    requires i < |items|
    ensures var c := items[i].campaign; var j := |Proj(items[..i], c)|;
            && j < |Proj(items, c)| && Proj(items, c)[j] == items[i]
            && Proj(items[..i + 1], c) == Proj(items, c)[..j + 1]
    ensures forall d :: d != items[i].campaign ==> Proj(items[..i + 1], d) == Proj(items[..i], d)
  {
    var c := items[i].campaign;
    assert items[..i + 1] == items[..i] + [items[i]];
    ProjMono(items, i + 1, c);
    forall d ensures Proj(items[..i + 1], d) == Proj(items[..i], d) + (if d == c then [items[i]] else []) {
      ProjSnoc(items[..i], items[i], d);
    }
  }

  /** The queue of campaign c holds its rows of s; campaigns without rows have none. */
  predicate QueueOk(s: seq<Row>, queues: map<Campaign, seq<Row>>, c: Campaign) {
    if c in queues then queues[c] == Proj(s, c) && queues[c] != [] else Proj(s, c) == []
  }

  /** order lists the campaigns of s without repetition, and queues their rows. */
  ghost predicate Grouped(s: seq<Row>, order: seq<Campaign>, queues: map<Campaign, seq<Row>>) {
    && (forall c :: c in order <==> c in queues)
    && (forall c :: QueueOk(s, queues, c))
    && (forall a, b :: 0 <= a < b < |order| ==> order[a] != order[b])
  }

  lemma QueueSnoc(s: seq<Row>, x: Row, queues: map<Campaign, seq<Row>>, queues': map<Campaign, seq<Row>>, c: Campaign)
    requires QueueOk(s, queues, c)
    requires queues' == queues[x.campaign := (if x.campaign in queues then queues[x.campaign] else []) + [x]]
    ensures QueueOk(s + [x], queues', c)
  {
    ProjSnoc(s, x, c);
  }

  lemma QueuesSnoc(s: seq<Row>, x: Row, queues: map<Campaign, seq<Row>>, queues': map<Campaign, seq<Row>>)
    requires forall c :: QueueOk(s, queues, c)
    requires queues' == queues[x.campaign := (if x.campaign in queues then queues[x.campaign] else []) + [x]]
    ensures forall c :: QueueOk(s + [x], queues', c)
  {
    forall c ensures QueueOk(s + [x], queues', c) {
      assert QueueOk(s, queues, c);
      QueueSnoc(s, x, queues, queues', c);
    }
  }

  lemma GroupOld(s: seq<Row>, x: Row, order: seq<Campaign>, queues: map<Campaign, seq<Row>>)
    requires Grouped(s, order, queues) && x.campaign in queues
    ensures Grouped(s + [x], order, queues[x.campaign := queues[x.campaign] + [x]])
  {
    QueuesSnoc(s, x, queues, queues[x.campaign := queues[x.campaign] + [x]]);
  }

  lemma GroupNew(s: seq<Row>, x: Row, order: seq<Campaign>, queues: map<Campaign, seq<Row>>)
    requires Grouped(s, order, queues) && x.campaign !in queues
    ensures Grouped(s + [x], order + [x.campaign], queues[x.campaign := [x]])
  {
    assert [] + [x] == [x];
    QueuesSnoc(s, x, queues, queues[x.campaign := [x]]);
  }

  lemma GroupedCampaigns(s: seq<Row>, order: seq<Campaign>, queues: map<Campaign, seq<Row>>)
    requires Grouped(s, order, queues)
    ensures |order| == |CampaignSet(s)|
  {
    DistinctSize(order);
    forall c ensures c in order <==> c in CampaignSet(s) {
      ProjIn(s, c);
      assert QueueOk(s, queues, c);
      if c in order {
        assert Proj(s, c)[0] in s;
      }
      if c in CampaignSet(s) {
        var r :| r in s && r.campaign == c;
        assert r in Proj(s, c);
      }
    }
    assert CampaignSet(s) == set c | c in order;
  }

  /** The campaign of every row is in the order. */
  lemma RowGrouped(s: seq<Row>, order: seq<Campaign>, queues: map<Campaign, seq<Row>>, r: Row)
    requires Grouped(s, order, queues) && r in s
    ensures r.campaign in order
  {
    ProjIn(s, r.campaign);
    assert r in Proj(s, r.campaign);
    assert QueueOk(s, queues, r.campaign);
  }

  /** The first loop of fairSettleOutboxWindow: one queue per campaign, in order of appearance. */
  method GroupByCampaign(items: seq<Row>) returns (order: seq<Campaign>, queues: map<Campaign, seq<Row>>)
    ensures Grouped(items, order, queues) && |order| == |CampaignSet(items)|
  {
    order, queues := [], map[];
    for i := 0 to |items|
      invariant Grouped(items[..i], order, queues)
    {
      var it := items[i];
      ghost var before := items[..i];
      assert items[..i + 1] == before + [it];
      if it.campaign in queues {
        GroupOld(before, it, order, queues);
        queues := queues[it.campaign := queues[it.campaign] + [it]];
      } else {
        GroupNew(before, it, order, queues);
        order := order + [it.campaign];
        queues := queues[it.campaign := [it]];
      }
    }
    assert items[..|items|] == items;
    GroupedCampaigns(items, order, queues);
  }

  /** idx[c] rows of campaign c have been dealt. */
  ghost predicate Dealt(items: seq<Row>, queues: map<Campaign, seq<Row>>, idx: map<Campaign, nat>, out: seq<Row>) {
    && idx.Keys == queues.Keys
    && Prefixes(items, out)
    && (forall c :: c in queues ==> queues[c] == Proj(items, c))
    && (forall c :: c in queues ==> idx[c] <= |queues[c]| && Proj(out, c) == queues[c][..idx[c]])
  }

  lemma DealStep(items: seq<Row>, queues: map<Campaign, seq<Row>>, idx: map<Campaign, nat>, out: seq<Row>, c: Campaign)
    requires Distinct(items) && Dealt(items, queues, idx, out) && c in queues && idx[c] < |queues[c]|
    ensures Dealt(items, queues, idx[c := idx[c] + 1], out + [queues[c][idx[c]]])
  {
    Extend(items, out, c, idx[c]);
  }

  lemma NothingDealt(items: seq<Row>, order: seq<Campaign>, queues: map<Campaign, seq<Row>>, idx: map<Campaign, nat>)
    requires Grouped(items, order, queues) && idx == map c | c in queues :: 0
    ensures Rounding(items, order, queues, 0, [], [], idx)
  {
    forall c | c in queues ensures queues[c] == Proj(items, c) && Proj([], c) == queues[c][..0] {
      assert QueueOk(items, queues, c);
    }
  }

  /** State of a round before the k-th campaign. */
  ghost predicate Rounding(items: seq<Row>, order: seq<Campaign>, queues: map<Campaign, seq<Row>>, k: nat,
                           start: seq<Row>, out: seq<Row>, idx: map<Campaign, nat>) {
    && Grouped(items, order, queues)
    && k <= |order| && Dealt(items, queues, idx, out) && |start| <= |out| <= |start| + k
    && (forall a :: 0 <= a < k ==> order[a] in idx && idx[order[a]] > 0)
  }

  /** No campaign's count falls. */
  ghost predicate Raised(idx0: map<Campaign, nat>, idx: map<Campaign, nat>) {
    forall c :: c in idx0 ==> c in idx && idx0[c] <= idx[c]
  }

  lemma RoundTake(items: seq<Row>, order: seq<Campaign>, queues: map<Campaign, seq<Row>>, k: nat,
                  start: seq<Row>, out: seq<Row>, idx: map<Campaign, nat>)
    requires Distinct(items) && Rounding(items, order, queues, k, start, out, idx) && k < |order|
    requires order[k] in queues && idx[order[k]] < |queues[order[k]]|
    ensures var c := order[k];
            Rounding(items, order, queues, k + 1, start, out + [queues[c][idx[c]]], idx[c := idx[c] + 1])
  {
    DealStep(items, queues, idx, out, order[k]);
  }

  lemma RoundSkip(items: seq<Row>, order: seq<Campaign>, queues: map<Campaign, seq<Row>>, k: nat,
                  start: seq<Row>, out: seq<Row>, idx: map<Campaign, nat>)
    requires Rounding(items, order, queues, k, start, out, idx) && k < |order|
    requires order[k] in queues && idx[order[k]] > 0
    ensures Rounding(items, order, queues, k + 1, start, out, idx)
  {}

  /** The turn of one campaign: its next row, unless the cap or the queue's end is reached. */
  method DealOne(ghost items: seq<Row>, order: seq<Campaign>, queues: map<Campaign, seq<Row>>, perCamp: nat, k: nat,
                 ghost start: seq<Row>, out: seq<Row>, idx: map<Campaign, nat>)
    returns (out': seq<Row>, idx': map<Campaign, nat>, took: bool)
    requires Distinct(items) && perCamp > 0 && Rounding(items, order, queues, k, start, out, idx) && k < |order|
    ensures Rounding(items, order, queues, k + 1, start, out', idx')
    ensures |out'| == |out| + (if took then 1 else 0) && Raised(idx, idx')
  {
    var cid := order[k];
    assert QueueOk(items, queues, cid);
    var taken := idx[cid];
    if taken < perCamp && taken < |queues[cid]| {
      RoundTake(items, order, queues, k, start, out, idx);
      return out + [queues[cid][taken]], idx[cid := taken + 1], true;
    }
    RoundSkip(items, order, queues, k, start, out, idx);
    return out, idx, false;
  }

  lemma RaisedTrans(a: map<Campaign, nat>, b: map<Campaign, nat>, c: map<Campaign, nat>)
    requires Raised(a, b) && Raised(b, c)
    ensures Raised(a, c)
  {}

  /** One turn of the round-robin loop: at most one more row for each campaign, in order. */
  method DealRound(ghost items: seq<Row>, order: seq<Campaign>, queues: map<Campaign, seq<Row>>, perCamp: nat,
                   limit: nat, start: seq<Row>, idx0: map<Campaign, nat>)
    returns (out: seq<Row>, idx: map<Campaign, nat>, progress: bool)
    requires Distinct(items) && perCamp > 0
    requires Rounding(items, order, queues, 0, start, start, idx0) && |start| <= limit
    ensures |start| <= |out| <= limit && Raised(idx0, idx)
    ensures progress ==> |start| < |out|
    ensures Rounding(items, order, queues, if start == [] && |order| <= limit then |order| else 0, out, out, idx)
  {
    out, idx, progress := start, idx0, false;
    var k := 0;
    while k < |order| && |out| < limit
      invariant Rounding(items, order, queues, k, start, out, idx) && |out| <= limit
      invariant progress ==> |start| < |out|
      invariant Raised(idx0, idx)
    {
      ghost var was := idx;
      var took;
      out, idx, took := DealOne(items, order, queues, perCamp, k, start, out, idx);
      RaisedTrans(idx0, was, idx);
      progress := progress || took;
      k := k + 1;
    }
    RoundOver(items, order, queues, k, start, out, idx, limit);
  }

  /** After a round that did not fill the window every campaign has a row, and so it stays. */
  lemma RoundOver(items: seq<Row>, order: seq<Campaign>, queues: map<Campaign, seq<Row>>, k: nat,
                  start: seq<Row>, out: seq<Row>, idx: map<Campaign, nat>, limit: nat)
    requires Rounding(items, order, queues, k, start, out, idx) && (k == |order| || |out| >= limit)
    ensures Rounding(items, order, queues, if start == [] && |order| <= limit then |order| else 0, out, out, idx)
  {}

  /** The round-robin loop: at most perCamp rows of each campaign, one per round. */
  method RoundRobin(ghost items: seq<Row>, order: seq<Campaign>, queues: map<Campaign, seq<Row>>, perCamp: nat, limit: nat)
    returns (out: seq<Row>)
    requires Distinct(items) && perCamp > 0 && limit > 0 && Grouped(items, order, queues)
    ensures Prefixes(items, out) && |out| <= limit
    ensures |order| <= limit ==> forall c :: c in order ==> Proj(out, c) != []
  {
    out := [];
    var idx: map<Campaign, nat> := map c | c in queues :: 0;
    NothingDealt(items, order, queues, idx);
    ghost var k: nat := 0;
    ghost var first := true;
    while |out| < limit
      invariant Rounding(items, order, queues, k, out, out, idx) && |out| <= limit
      invariant if first then out == [] && k == 0 else |order| <= limit ==> k == |order|
      decreases limit - |out|
    {
      ghost var was, start := idx, out;
      Restart(items, order, queues, k, out, idx);
      var progress;
      out, idx, progress := DealRound(items, order, queues, perCamp, limit, out, idx);
      StillRaised(items, order, queues, k, start, out, was, idx);
      if first && |order| <= limit {
        k := |order|;
      }
      first := false;
      if !progress {
        break;
      }
    }
    RoundedCovers(items, order, queues, k, out, idx);
  }

  lemma Restart(items: seq<Row>, order: seq<Campaign>, queues: map<Campaign, seq<Row>>, k: nat, out: seq<Row>, idx: map<Campaign, nat>)
    requires Rounding(items, order, queues, k, out, out, idx)
    ensures Rounding(items, order, queues, 0, out, out, idx)
  {}

  lemma StillRaised(items: seq<Row>, order: seq<Campaign>, queues: map<Campaign, seq<Row>>, k: nat, start: seq<Row>, out: seq<Row>,
                    was: map<Campaign, nat>, idx: map<Campaign, nat>)
    requires Rounding(items, order, queues, k, start, start, was) && Raised(was, idx)
    requires Rounding(items, order, queues, 0, out, out, idx) || Rounding(items, order, queues, |order|, out, out, idx)
    ensures Rounding(items, order, queues, k, out, out, idx)
  {}

  lemma RoundedCovers(items: seq<Row>, order: seq<Campaign>, queues: map<Campaign, seq<Row>>, k: nat, out: seq<Row>, idx: map<Campaign, nat>)
    requires Rounding(items, order, queues, k, out, out, idx)
    ensures Prefixes(items, out)
    ensures k == |order| ==> forall c :: c in order ==> Proj(out, c) != []
  {
    forall c | c in order && k == |order| ensures Proj(out, c) != [] {
      var a :| 0 <= a < |order| && order[a] == c;
      assert QueueOk(items, queues, c);
    }
  }

  /** out holds every row of items[..i], and of each campaign a prefix. */
  ghost predicate Filled(items: seq<Row>, out: seq<Row>, i: nat)
    requires i <= |items|
  {
    Prefixes(items, out) && forall c :: InFront(out, items[..i], c)
  }

  lemma FilledRow(items: seq<Row>, out: seq<Row>, i: nat)
    requires Distinct(items) && i < |items| && Filled(items, out, i)
    ensures var c, j := items[i].campaign, |Proj(items[..i], items[i].campaign)|;
            && j < |Proj(items, c)| && Proj(items, c)[j] == items[i]
            && (items[i].id in Ids(out) <==> |Proj(out, c)| > j)
            && (|Proj(out, c)| > j ==> Proj(out, c)[j] == items[i])
            && (|Proj(out, c)| <= j ==> Proj(out, c) == Proj(items, c)[..j])
  {
    var it := items[i];
    var c := it.campaign;
    var j := |Proj(items[..i], c)|;
    ProjAt(items, i);
    assert InFront(items, out, c) && InFront(out, items[..i], c);
    if |Proj(out, c)| > j {
      ProjIn(out, c);
      assert Proj(out, c)[j] == it;
      assert it in out;
    } else {
      NextIsFresh(items, out, c, j);
    }
  }

  lemma FillStep(items: seq<Row>, out: seq<Row>, i: nat)
    requires Distinct(items) && i < |items| && Filled(items, out, i)
    ensures items[i].id in Ids(out) ==> Filled(items, out, i + 1)
    ensures items[i].id !in Ids(out) ==> Filled(items, out + [items[i]], i + 1)
  {
    var it := items[i];
    var c := it.campaign;
    var j := |Proj(items[..i], c)|;
    FilledRow(items, out, i);
    ProjAt(items, i);
    var out' := if it.id in Ids(out) then out else out + [it];
    if it.id !in Ids(out) {
      Extend(items, out, c, j);
    }
    var next := items[..i + 1];
    forall d ensures InFront(out', next, d) {
      assert InFront(out, items[..i], d) && InFront(items, out', d);
    }
  }

  lemma SeenOrNot(items: seq<Row>, out: seq<Row>, seen: set<nat>, i: nat)
    requires Distinct(items) && i < |items| && seen <= Ids(out) <= seen + Ids(items[..i])
    ensures items[i].id in Ids(out) <==> items[i].id in seen
    ensures Ids(out + [items[i]]) == Ids(out) + {items[i].id}
    ensures Ids(items[..i + 1]) == Ids(items[..i]) + {items[i].id}
  {
    assert items[..i + 1] == items[..i] + [items[i]];
    forall r | r in items[..i] ensures r.id != items[i].id {
      var k :| 0 <= k < i && items[k] == r;
    }
  }

  /** State of the filling loop before row i. */
  ghost predicate Filling(items: seq<Row>, out: seq<Row>, i: nat, seen: set<nat>) {
    i <= |items| && Filled(items, out, i) && seen <= Ids(out) <= seen + Ids(items[..i])
  }

  lemma FillSeen(items: seq<Row>, out: seq<Row>, i: nat, seen: set<nat>)
    requires Distinct(items) && i < |items| && Filling(items, out, i, seen) && items[i].id in seen
    ensures Filling(items, out, i + 1, seen)
  {
    FillStep(items, out, i);
    SeenOrNot(items, out, seen, i);
  }

  lemma FillNew(items: seq<Row>, out: seq<Row>, i: nat, seen: set<nat>)
    requires Distinct(items) && i < |items| && Filling(items, out, i, seen) && items[i].id !in seen
    ensures Filling(items, out + [items[i]], i + 1, seen)
  {
    FillStep(items, out, i);
    SeenOrNot(items, out, seen, i);
  }

  lemma FillInit(items: seq<Row>, start: seq<Row>)
    requires Prefixes(items, start)
    ensures Filling(items, start, 0, Ids(start))
  {}

  /** The last loop: fill the room the caps left, oldest campaign first. */
  method FillRest(items: seq<Row>, start: seq<Row>, limit: nat) returns (out: seq<Row>)
    requires Distinct(items) && Prefixes(items, start) && |start| <= limit <= |items|
    ensures Prefixes(items, out) && |out| == limit && start <= out
  {
    out := start;
    var seen, i := Ids(start), 0;
    FillInit(items, start);
    while i < |items| && |out| < limit
      invariant Filling(items, out, i, seen) && |out| <= limit && start <= out
    {
      if items[i].id in seen {
        FillSeen(items, out, i, seen);
      } else {
        FillNew(items, out, i, seen);
        out := out + [items[i]];
      }
      i := i + 1;
    }
    if |out| < limit {
      AllIncluded(items, out);
    }
  }

  lemma AllIncluded(items: seq<Row>, out: seq<Row>)
    requires Distinct(items) && Filled(items, out, |items|)
    ensures |items| <= |out|
  {
    assert items[..|items|] == items;
    IdsSize(items);
    IdsSize(out);
    forall r | r in items ensures r in out {
      ProjIn(items, r.campaign);
      ProjIn(out, r.campaign);
      assert r in Proj(items, r.campaign) && InFront(out, items[..|items|], r.campaign);
    }
    assert Ids(items) <= Ids(out);
    SubsetSize(Ids(items), Ids(out));
  }

  lemma SubsetSize<T>(a: set<T>, b: set<T>)
    requires a <= b
    ensures |a| <= |b|
  {
    assert b == a + (b - a);
  }

  /** fairSettleOutboxWindow. The window is full when it can be, keeps each campaign's order
      without gaps, and leaves no campaign out when the window has room for all of them. */
  method FairWindow(items: seq<Row>, limit: nat) returns (out: seq<Row>)
    requires Distinct(items)
    ensures Prefixes(items, out)
    ensures |out| == Min(|items|, limit)
    ensures |CampaignSet(items)| <= limit ==> forall c :: c in CampaignSet(items) ==> Proj(out, c) != []
  {
    if limit == 0 || items == [] {
      return [];
    }
    if |items| <= limit {
      SelfWindow(items);
      return items;
    }
    var order, queues := GroupByCampaign(items);
    if |order| <= 1 {
      OneCampaign(items, order, queues, limit);
      return items[..limit];
    }
    var perCamp := if |order| > 2 then limit / Min(|order|, 8) else limit / 2;
    if perCamp < 8 {
      perCamp := 8;
    }
    if perCamp > limit {
      perCamp := limit;
    }
    out := RoundRobin(items, order, queues, perCamp, limit);
    ghost var dealt := out;
    if |out| < limit {
      out := FillRest(items, out, limit);
    }
    if |order| <= limit {
      StillCovered(items, order, queues, dealt, out);
    }
  }

  /** Filling the window keeps every campaign that was dealt a row. */
  lemma StillCovered(items: seq<Row>, order: seq<Campaign>, queues: map<Campaign, seq<Row>>, dealt: seq<Row>, out: seq<Row>)
    requires Grouped(items, order, queues) && dealt <= out
    requires forall c :: c in order ==> Proj(dealt, c) != []
    ensures forall c :: c in CampaignSet(items) ==> Proj(out, c) != []
  {
    assert out[..|dealt|] == dealt;
    forall c | c in CampaignSet(items) ensures Proj(out, c) != [] {
      var r :| r in items && r.campaign == c;
      RowGrouped(items, order, queues, r);
      ProjMono(out, |dealt|, c);
    }
  }

  lemma SelfWindow(items: seq<Row>)
    requires Distinct(items)
    ensures Prefixes(items, items)
    ensures forall c :: c in CampaignSet(items) ==> Proj(items, c) != []
  {
    forall c | c in CampaignSet(items) ensures Proj(items, c) != [] {
      var r :| r in items && r.campaign == c;
      ProjIn(items, c);
      assert r in Proj(items, c);
    }
  }

  lemma OneCampaign(items: seq<Row>, order: seq<Campaign>, queues: map<Campaign, seq<Row>>, limit: nat)
    requires Distinct(items) && 0 < limit < |items| && Grouped(items, order, queues) && |order| <= 1
    ensures Prefixes(items, items[..limit])
    ensures forall c :: c in CampaignSet(items) ==> Proj(items[..limit], c) != []
  {
    forall c ensures InFront(items, items[..limit], c) {
      ProjMono(items, limit, c);
    }
    var d := items[0].campaign;
    RowGrouped(items, order, queues, items[0]);
    forall r | r in items ensures r.campaign == d {
      RowGrouped(items, order, queues, r);
    }
    ProjIn(items[..limit], d);
    assert items[..limit][0] in Proj(items[..limit], d);
  }

  function PerCampaign(campaigns: nat, limit: nat): (n: nat)
    requires campaigns > 0
    ensures limit > 0 ==> n > 0
  {
    var share := if campaigns > 1 then limit / Min(campaigns, 8) else limit;
    var floored := if campaigns > 1 && share < 8 then 8 else share;
    Min(floored, limit)
  }

  /** The per-campaign queries, until twice the limit is gathered. */
  method Gather(o: Outbox, camps: seq<Campaign>, perCamp: nat, limit: nat) returns (raw: seq<Row>)
    requires Valid(o) && camps != []
    requires forall a, b :: 0 <= a < b < |camps| ==> camps[a] != camps[b]
    requires forall c :: c in camps ==> exists id :: Pending(o, id) && o.rows[id].campaign == c
    ensures IsWindow(o, raw)
    ensures perCamp > 0 ==> raw != []
  {
    raw := [];
    var k := 0;
    EmptyIsWindow(o);
    while k < |camps| && (k == 0 || |raw| < limit * 2)
      invariant 0 <= k <= |camps|
      invariant IsWindow(o, raw)
      invariant forall r :: r in raw ==> r.campaign in camps[..k]
      invariant 0 < k && 0 < perCamp ==> raw != []
    {
      assert camps[k] in camps;
      AppendCampaign(o, raw, camps[..k], camps[k], perCamp);
      assert camps[..k + 1] == camps[..k] + [camps[k]];
      raw := raw + ListForCampaign(o, camps[k], perCamp);
      k := k + 1;
    }
  }

  /** ListPendingSettleOutbox: the global window; `now` is the clock that picks the campaigns. */
  method ListPending(o: Outbox, limit: nat, now: nat) returns (out: seq<Row>)
    requires Valid(o)
    ensures IsWindow(o, out) && |out| <= limit
    ensures limit > 0 && (exists id :: Pending(o, id)) ==> out != []
  {
    var all := Campaigns(o, o.nextId);
    var scanned := Take(all, CAMPAIGN_SCAN_CAP);
    var camps := Rotate(scanned, now, CAMPAIGN_WINDOW);
    RotateFacts(scanned, now, CAMPAIGN_WINDOW);
    if camps == [] {
      NothingPending(o, all);
      EmptyIsWindow(o);
      return [];
    }
    forall c | c in camps ensures exists id :: Pending(o, id) && o.rows[id].campaign == c {
      assert c in scanned && c in all;
    }
    var raw := Gather(o, camps, PerCampaign(|camps|, limit), limit);
    out := FairWindow(raw, limit);
    PrefixesOfWindow(o, raw, out);
  }

  lemma EmptyIsWindow(o: Outbox)
    ensures IsWindow(o, [])
  {}

  lemma NothingPending(o: Outbox, all: seq<Campaign>)
    requires Valid(o) && all == Campaigns(o, o.nextId) && all == []
    ensures forall id :: !Pending(o, id)
  {
    assert forall id :: Pending(o, id) ==> o.rows[id].campaign in all;
  }

  lemma AppendCampaign(o: Outbox, raw: seq<Row>, done: seq<Campaign>, c: Campaign, perCamp: nat)
    requires Valid(o) && IsWindow(o, raw) && c !in done
    requires forall r :: r in raw ==> r.campaign in done
    requires exists id :: Pending(o, id) && o.rows[id].campaign == c
    ensures var out := raw + ListForCampaign(o, c, perCamp);
            && IsWindow(o, out)
            && (perCamp > 0 ==> out != [])
            && (forall r :: r in out ==> r.campaign in done + [c])
  {
    var mine := ListForCampaign(o, c, perCamp);
    ListForCampaignIsWindow(o, c, perCamp);
    CountZero(o, c);
    forall r | r in raw + mine ensures Proj(raw + mine, r.campaign) <= Queue(o, r.campaign) {
      ProjConcat(raw, mine, r.campaign);
      if r.campaign == c {
        ProjNone(raw, c);
        ProjAll(mine, c);
      } else {
        ProjNone(mine, r.campaign);
      }
    }
    forall x, y | x in raw && y in mine ensures x.id != y.id {
      assert x.campaign != y.campaign;
      assert o.rows[x.id] == x && o.rows[y.id] == y;
    }
  }

  lemma PrefixesOfWindow(o: Outbox, raw: seq<Row>, out: seq<Row>)
    requires IsWindow(o, raw) && Prefixes(raw, out)
    ensures IsWindow(o, out)
  {
    PrefixesIn(raw, out);
    forall r | r in out ensures Proj(out, r.campaign) <= Queue(o, r.campaign) {
      assert InFront(raw, out, r.campaign) && Proj(raw, r.campaign) <= Queue(o, r.campaign);
    }
  }
}
