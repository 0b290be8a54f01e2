/** Follower block sync (main.go:5080-5668, internal/p2p/manager.go:485-610,
    internal/chain/import.go): blocks are checked, staged by hash, and a contiguous tail of the
    stage is imported. There is no reorganisation. */
module FollowerSync {
  import opened Text

  datatype Option<T> = None | Some(value: T)

  datatype Block = Block(index: nat, hash: string, prev: string, kind: string, rest: string)

  const POH_KIND := "poh"

  /** The parts of the program left open: JSON decoding, the header hash, and
      verifySyncBlockSignature under one fixed policy. */
  datatype Rules = Rules(parse: string -> Option<Block>, headerHash: Block -> string, signed: Block -> bool)

  /** A row of p2p_sync_stage. */
  datatype Staged = Staged(index: nat, hash: string, prev: string, raw: string)

  /** The checks a block passes before it is staged, and again before it is applied. */
  predicate Checked(rules: Rules, b: Block) {
    b.hash != "" && rules.headerHash(b) == b.hash && rules.signed(b)
  }

  predicate RowOk(rules: Rules, row: Staged) {
    var p := rules.parse(row.raw);
    p.Some? && Checked(rules, p.value) && row == Staged(p.value.index, p.value.hash, p.value.prev, row.raw)
  }

  predicate SameHash(a: string, b: string) { Trim(a) == Trim(b) }

  /** A chain from genesis: indices count up, and each block names its parent. */
  predicate Linked(chain: seq<Block>) {
    && |chain| > 0
    && (forall i :: 0 <= i < |chain| ==> chain[i].index == i)
    && (forall i :: 0 < i < |chain| ==> SameHash(chain[i].prev, chain[i - 1].hash))
  }

  function Height(chain: seq<Block>): nat
    requires |chain| > 0
  {
    chain[|chain| - 1].index
  }

  function TipHash(chain: seq<Block>): string
    requires |chain| > 0
  {
    chain[|chain| - 1].hash
  }

  /** index and prev continue a chain of this height and tip. */
  predicate Continues(index: nat, prev: string, height: nat, tip: string) {
    index == height + 1 && SameHash(prev, tip)
  }

  datatype Reason =
    | Applied | EmptyStage | ContinuityBreak | NoBlocksApplied | UnsupportedKind | ImportFailed

  datatype ApplyResult = ApplyResult(ok: bool, applied: nat, fromHeight: nat, toHeight: nat, newTip: string, reason: Reason)

  /** The distinct hashes of a row sequence sorted by index. */
  predicate Ordered(w: seq<Staged>) {
    forall i, j :: 0 <= i < j < |w| ==> w[i].index <= w[j].index && w[i].hash != w[j].hash
  }

  /** w was taken out of the stage lowest index first, and rest is what remains. */
  ghost predicate Split(stage: map<string, Staged>, rest: map<string, Staged>, w: seq<Staged>) {
    && Ordered(w)
    && (forall i :: 0 <= i < |w| ==> w[i].hash in stage && stage[w[i].hash] == w[i] && w[i].hash !in rest)
    && (forall h :: h in rest ==> h in stage && rest[h] == stage[h])
    && (forall h :: h in stage && h !in rest ==> stage[h] in w)
    && (forall h, i :: h in rest && 0 <= i < |w| ==> w[i].index <= rest[h].index)
  }

  /** SELECT ... ORDER BY block_index ASC LIMIT n over the stage. */
  ghost predicate IsStageWindow(stage: map<string, Staged>, n: nat, w: seq<Staged>) {
    |w| <= n && exists rest :: Split(stage, rest, w) && (|w| < n ==> rest == map[])
  }

  lemma SplitStep(stage: map<string, Staged>, rest: map<string, Staged>, w: seq<Staged>, h: string)
    requires Split(stage, rest, w) && h in rest && rest[h].hash == h
    requires forall k :: k in rest ==> rest[h].index <= rest[k].index
    ensures Split(stage, rest - {h}, w + [rest[h]])
  {
    var v := w + [rest[h]];
    forall k | k in stage && k !in rest - {h} ensures stage[k] in v {
      if k == h {
        assert v[|w|] == stage[h];
      } else {
        assert stage[k] in w;
      }
    }
  }

  /** xs continues a chain of this height and tip, row after row. */
  predicate Tail(xs: seq<Staged>, height: nat, tip: string) {
    && (xs != [] ==> Continues(xs[0].index, xs[0].prev, height, tip))
    && (forall i :: 0 < i < |xs| ==> Continues(xs[i].index, xs[i].prev, height + i, xs[i - 1].hash))
  }

  predicate RowsOk(rules: Rules, xs: seq<Staged>) {
    forall i :: 0 <= i < |xs| ==> RowOk(rules, xs[i])
  }

  /** Rows of xs still staged are staged as xs has them. */
  predicate Current(stage: map<string, Staged>, xs: seq<Staged>) {
    forall i :: 0 <= i < |xs| && xs[i].hash in stage ==> stage[xs[i].hash] == xs[i]
  }

  predicate HasLink(xs: seq<Staged>, height: nat, tip: string) {
    exists i :: 0 <= i < |xs| && Continues(xs[i].index, xs[i].prev, height, tip)
  }

  /** Every row that left the stage was behind the new tip's parent, or is the block now at its index. */
  ghost predicate OnlyDone(before: map<string, Staged>, after: map<string, Staged>, height: nat, chain: seq<Block>) {
    && (forall h :: h in after ==> h in before && after[h] == before[h])
    && (forall h :: h in before && h !in after ==>
          before[h].index <= height + 1 || (before[h].index < |chain| && chain[before[h].index].hash == h))
  }

  /** Why the import of a checked row that continues the tip is turned down: its kind, or a refusal of
      ImportPoHBlock on other grounds than the link. */
  function WhyRefused(rules: Rules, c: Staged, otherwiseRefused: bool): Option<Reason>
  {
    if rules.parse(c.raw).Some? && Trim(rules.parse(c.raw).value.kind) != POH_KIND then Some(UnsupportedKind)
    else if otherwiseRefused then Some(ImportFailed)
    else None
  }

  /** Every block from position k on passed the hash, signature and kind checks. */
  predicate Vetted(rules: Rules, chain: seq<Block>, k: nat) {
    forall i :: k <= i < |chain| ==> Checked(rules, chain[i]) && Trim(chain[i].kind) == POH_KIND
  }

  /** A header of the peer's chain window; headers with an empty hash are already left out. */
  datatype Header = Header(index: nat, hash: string, prev: string)

  datatype Plan = NoWindow | MissingGenesis | NoDirectTailMatch | Fetch(hashes: seq<string>)

  predicate Bootstrap(height: nat, tip: string) { height == 0 && Trim(tip) == "" }

  predicate HeaderFits(h: Header, height: nat, tip: string) { Continues(h.index, h.prev, height, tip) }

  predicate IsGenesis(h: Header) { h.index == 0 && Trim(h.hash) != "" }

  /** hs[start..] links to the tip and then header to header for n headers. */
  predicate HeaderRun(hs: seq<Header>, start: nat, n: nat, height: nat, tip: string) {
    && start + n <= |hs|
    && (n > 0 ==> HeaderFits(hs[start], height, tip))
    && (forall j :: start < j < start + n ==> hs[j].index == height + 1 + j - start && Trim(hs[j].prev) == hs[j - 1].hash)
  }

  /** depth_limit 0 means 64, and 512 is the most (manager.go:486-491). */
  function Depth(requested: nat): nat {
    if requested == 0 then 64 else if requested > 512 then 512 else requested
  }

  /** BuildLinearPullPreview once the peer has answered (manager.go:549-609). */
  method PlanPull(hs: seq<Header>, height: nat, tip: string, requested: nat) returns (plan: Plan, ghost start: nat)
    ensures plan == NoWindow <==> hs == []
    ensures hs != [] && !Bootstrap(height, tip) ==>
              (plan.NoDirectTailMatch? <==> forall h :: h in hs ==> !HeaderFits(h, height, tip))
    ensures hs != [] && !Bootstrap(height, tip) ==> plan.NoDirectTailMatch? || plan.Fetch?
    ensures plan.NoDirectTailMatch? ==> !Bootstrap(height, tip)
    ensures hs != [] && Bootstrap(height, tip) ==>
              if exists i :: 0 <= i < |hs| && IsGenesis(hs[i])
              then start < |hs| && IsGenesis(hs[start]) && plan == Fetch([hs[start].hash])
              else plan == MissingGenesis
    ensures plan.Fetch? && !Bootstrap(height, tip) ==>
              var n := |plan.hashes|;
              && 0 < n <= Depth(requested) && HeaderRun(hs, start, n, height, tip)
              && (forall i :: 0 <= i < n ==> plan.hashes[i] == hs[start + i].hash)
              && (forall i :: 0 <= i < start ==> !HeaderFits(hs[i], height, tip))
              && (n < Depth(requested) ==> !HeaderRun(hs, start, n + 1, height, tip))
  {
    start := 0;
    if hs == [] {
      return NoWindow, start;
    }
    if Bootstrap(height, tip) {
      for i := 0 to |hs|
        invariant forall k :: 0 <= k < i ==> !IsGenesis(hs[k])
      {
        if IsGenesis(hs[i]) {
          return Fetch([hs[i].hash]), i;
        }
      }
      return MissingGenesis, start;
    }
    var first := FirstFit(hs, height, tip);
    if first == |hs| {
      return NoDirectTailMatch, start;
    }
    start := first;
    assert hs[first] in hs;
    var hashes := CollectHashes(hs, first, height, tip, Depth(requested));
    if hashes == [] {
      assert false;
    }
    return Fetch(hashes), start;
  }

  method FirstFit(hs: seq<Header>, height: nat, tip: string) returns (first: nat)
    ensures first <= |hs| && (first < |hs| ==> HeaderFits(hs[first], height, tip))
    ensures forall i :: 0 <= i < first ==> !HeaderFits(hs[i], height, tip)
  {
    first := 0;
    while first < |hs| && !HeaderFits(hs[first], height, tip)
      invariant first <= |hs|
      invariant forall i :: 0 <= i < first ==> !HeaderFits(hs[i], height, tip)
    {
      first := first + 1;
    }
  }

  /** hashes are those of n linked headers from first on. */
  predicate Collected(hs: seq<Header>, first: nat, hashes: seq<string>, height: nat, tip: string) {
    && HeaderRun(hs, first, |hashes|, height, tip)
    && (forall k :: 0 <= k < |hashes| ==> hashes[k] == hs[first + k].hash)
  }

  lemma CollectOne(hs: seq<Header>, first: nat, hashes: seq<string>, height: nat, tip: string)
    requires Collected(hs, first, hashes, height, tip) && first + |hashes| < |hs|
    ensures var i := first + |hashes|;
            var fits := hs[i].index == height + 1 + |hashes| && Trim(hs[i].prev) == if hashes == [] then Trim(tip) else hashes[|hashes| - 1];
            && (fits ==> Collected(hs, first, hashes + [hs[i].hash], height, tip))
            && (!fits ==> !HeaderRun(hs, first, |hashes| + 1, height, tip))
  {}

  /** The loop that takes linked headers up to the depth limit. */
  method CollectHashes(hs: seq<Header>, first: nat, height: nat, tip: string, depth: nat) returns (hashes: seq<string>)
    requires first < |hs| && HeaderFits(hs[first], height, tip) && depth > 0
    ensures 0 < |hashes| <= depth && Collected(hs, first, hashes, height, tip)
    ensures |hashes| < depth ==> !HeaderRun(hs, first, |hashes| + 1, height, tip)
  {
    hashes := [];
    var prevHash, wantIdx := Trim(tip), height + 1;
    var i := first;
    while i < |hs| && |hashes| < depth
      invariant i == first + |hashes| && |hashes| <= depth && wantIdx == height + 1 + |hashes|
      invariant Collected(hs, first, hashes, height, tip)
      invariant prevHash == if hashes == [] then Trim(tip) else hashes[|hashes| - 1]
    {
      var h := hs[i];
      CollectOne(hs, first, hashes, height, tip);
      if h.index != wantIdx || Trim(h.prev) != prevHash {
        break;
      }
      hashes, prevHash, wantIdx := hashes + [h.hash], h.hash, wantIdx + 1;
      i := i + 1;
    }
  }

  datatype Outcome = Fork | PullFailed | ApplyFailed | Ran(result: ApplyResult)

  /** One operation on the follower, with whatever the peer sends it. */
  datatype Op =
    | Pull(raws: seq<string>)
    | Apply(maxApply: nat)
    | Run(window: seq<Header>, fetched: Option<seq<string>>, depth: nat, limit: nat)

  class Follower {
    const rules: Rules
    var chain: seq<Block>
    var stage: map<string, Staged>

    ghost predicate Valid()
      reads this
    {
      && Linked(chain)
      && (forall h :: h in stage ==> stage[h].hash == h && RowOk(rules, stage[h]))
    }

    constructor (rules: Rules, chain: seq<Block>)
      requires Linked(chain)
      ensures Valid() && this.chain == chain && stage == map[] && this.rules == rules
    {
      this.rules := rules;
      this.chain := chain;
      stage := map[];
    }

    /** The staging loop of handleP2PSyncPull and p2pSyncRunExecute: blocks that fail a check are
        skipped, and an insert may fail. */
    method StageBlocks(raws: seq<string>) returns (failures: nat)
      requires Valid()
      modifies this`stage
      ensures Valid()
      ensures forall h :: h in old(stage) ==> h in stage
      ensures failures == 0 ==> forall i :: 0 <= i < |raws| && Passes(raws[i]) ==> rules.parse(raws[i]).value.hash in stage
      ensures forall h :: h in stage && (h !in old(stage) || stage[h] != old(stage)[h]) ==> stage[h].raw in raws
    {
      failures := 0;
      for i := 0 to |raws|
        invariant Valid()
        invariant forall h :: h in old(stage) ==> h in stage
        invariant failures == 0 ==> forall k :: 0 <= k < i && Passes(raws[k]) ==> rules.parse(raws[k]).value.hash in stage
        invariant forall h :: h in stage && (h !in old(stage) || stage[h] != old(stage)[h]) ==> stage[h].raw in raws
      {
        var parsed := rules.parse(raws[i]);
        if parsed.None? {
          continue;
        }
        var b := parsed.value;
        if b.hash == "" || rules.headerHash(b) != b.hash {
          continue;
        }
        if !rules.signed(b) {
          continue;
        }
        var inserted: bool := *;
        if inserted {
          stage := stage[b.hash := Staged(b.index, b.hash, b.prev, raws[i])];
        } else {
          failures := failures + 1;
        }
      }
    }

    /** A fetched body that decodes to a block passing the checks. */
    predicate Passes(raw: string) {
      rules.parse(raw).Some? && Checked(rules, rules.parse(raw).value)
    }

    /** DELETE FROM p2p_sync_stage for some rows, each of which may fail unnoticed. */
    method DropRows(rows: seq<Staged>) returns (failures: nat)
      modifies this`stage
      ensures failures == 0 ==> forall i :: 0 <= i < |rows| ==> rows[i].hash !in stage
      ensures forall h :: h in stage ==> h in old(stage) && stage[h] == old(stage)[h]
      ensures forall h :: h in old(stage) && h !in stage ==> exists i :: 0 <= i < |rows| && rows[i].hash == h
    {
      failures := 0;
      for i := 0 to |rows|
        invariant failures == 0 ==> forall k :: 0 <= k < i ==> rows[k].hash !in stage
        invariant forall h :: h in stage ==> h in old(stage) && stage[h] == old(stage)[h]
        invariant forall h :: h in old(stage) && h !in stage ==> exists k :: 0 <= k < i && rows[k].hash == h
      {
        var done: bool := *;
        if done {
          stage := stage - {rows[i].hash};
        } else {
          failures := failures + 1;
        }
      }
    }

    /** ImportPoHBlock: it checks the link itself, may refuse for other reasons (payload, rewards,
        order escrow), and otherwise appends exactly the given block. */
    method Import(b: Block) returns (ok: bool, ghost otherwiseRefused: bool)
      requires Linked(chain)
      modifies this`chain
      ensures Linked(chain)
      ensures ok <==> !otherwiseRefused && Continues(b.index, b.prev, Height(old(chain)), TipHash(old(chain)))
      ensures ok ==> chain == old(chain) + [b]
      ensures !ok ==> chain == old(chain)
    {
      var refused: bool := *;
      otherwiseRefused := refused;
      if refused || b.index != Height(chain) + 1 || Trim(b.prev) != Trim(TipHash(chain)) {
        return false, refused;
      }
      chain := chain + [b];
      return true, refused;
    }

    /** The rows read by applyStagedLinearTail; the order among equal indices is the database's. */
    method ReadStage(n: nat) returns (w: seq<Staged>)
      requires Valid()
      ensures IsStageWindow(stage, n, w)
    {
      w := [];
      var rest := stage;
      while |w| < n && rest != map[]
        invariant |w| <= n && Split(stage, rest, w)
        decreases rest.Keys
      {
        var h := LowestRow(rest);
        SplitStep(stage, rest, w, h);
        w, rest := w + [rest[h]], rest - {h};
      }
    }

    method LowestRow(rows: map<string, Staged>) returns (low: string)
      requires rows != map[]
      ensures low in rows && forall h :: h in rows ==> rows[low].index <= rows[h].index
    {
      assert rows.Keys != {};
      low :| low in rows.Keys;
      var todo := rows.Keys - {low};
      while todo != {}
        invariant low in rows && todo <= rows.Keys
        invariant forall h :: h in rows && h !in todo ==> rows[low].index <= rows[h].index
        decreases todo
      {
        var h :| h in todo;
        if rows[h].index < rows[low].index {
          low := h;
        }
        todo := todo - {h};
      }
    }

    /** Rows read from the stage in index order, as it still has them. */
    ghost predicate Fetched(w: seq<Staged>)
      reads this
    {
      Ordered(w) && RowsOk(rules, w) && Current(stage, w)
    }

    /** Sort out the rows at or below the local height: in index order they come first. */
    static method SplitStale(w: seq<Staged>, height: nat) returns (stale: seq<Staged>, live: seq<Staged>)
      requires Ordered(w)
      ensures |stale| <= |w| && stale == w[..|stale|] && live == w[|stale|..]
      ensures forall i :: 0 <= i < |stale| ==> w[i].index <= height
      ensures forall i :: |stale| <= i < |w| ==> w[i].index > height
    {
      stale, live := [], [];
      for i := 0 to |w|
        invariant |stale| <= i && live == w[|stale|..i] && stale == w[..|stale|]
        invariant forall j :: 0 <= j < |stale| ==> w[j].index <= height
        invariant forall j :: |stale| <= j < i ==> w[j].index > height
      {
        if w[i].index <= height {
          assert w[|stale|].index <= w[i].index;
          assert |stale| == i;
          stale := stale + [w[i]];
        } else {
          live := live + [w[i]];
        }
      }
    }

    /** Rows dropped at or below the local height were behind the tip. */
    lemma DropsStale(before: map<string, Staged>, after: map<string, Staged>, stale: seq<Staged>, height: nat)
      requires forall i :: 0 <= i < |stale| ==> stale[i].index <= height
      requires Current(before, stale)
      requires forall h :: h in after ==> h in before && after[h] == before[h]
      requires forall h :: h in before && h !in after ==> exists i :: 0 <= i < |stale| && stale[i].hash == h
      ensures OnlyDone(before, after, height, chain)
    {
      forall h | h in before && h !in after ensures before[h].index <= height {
        var i :| 0 <= i < |stale| && stale[i].hash == h;
        assert before[stale[i].hash] == stale[i];
      }
    }

    /** Delete the rows at or below the local height and keep the others (main.go:5483-5498). */
    method DropStale(w: seq<Staged>, height: nat) returns (live: seq<Staged>, failures: nat, ghost k: nat)
      requires Valid() && Fetched(w)
      modifies this`stage
      ensures Valid() && OnlyDone(old(stage), stage, height, chain)
      ensures k <= |w| && live == w[k..] && Fetched(live)
      ensures forall i :: 0 <= i < k ==> w[i].index <= height
      ensures forall i :: k <= i < |w| ==> w[i].index > height
      ensures failures == 0 ==> forall i :: 0 <= i < k ==> w[i].hash !in stage
    {
      var stale;
      stale, live := SplitStale(w, height);
      k := |stale|;
      failures := DropRows(stale);
      DropsStale(old(stage), stage, stale, height);
    }

    /** Skip, and delete, what precedes the first row that continues the local tip
        (main.go:5503-5519). */
    method SkipSiblings(live: seq<Staged>, height: nat, tip: string)
      returns (rest: seq<Staged>, failures: nat, ghost k: nat)
      requires Valid() && live != [] && Ordered(live) && RowsOk(rules, live)
      requires Current(stage, live)
      modifies this`stage
      ensures Valid() && OnlyDone(old(stage), stage, height, chain)
      ensures k < |live| && rest == live[k..] && RowsOk(rules, rest) && Current(stage, rest)
      ensures forall i :: 0 <= i < k ==> !Continues(live[i].index, live[i].prev, height, tip)
      ensures if HasLink(live, height, tip) then Continues(rest[0].index, rest[0].prev, height, tip) else k == 0
      ensures failures == 0 ==> forall i :: 0 <= i < k ==> live[i].hash !in stage
    {
      rest, failures, k := live, 0, 0;
      if !Continues(live[0].index, live[0].prev, height, tip) {
        var start := 0;
        while start < |live| && !Continues(live[start].index, live[start].prev, height, tip)
          invariant 0 <= start <= |live|
          invariant forall k :: 0 <= k < start ==> !Continues(live[k].index, live[k].prev, height, tip)
        {
          start := start + 1;
        }
        if 0 < start < |live| {
          failures := DropRows(live[..start]);
          rest, k := live[start..], start;
        }
      }
    }

    /** The longest run of rows that continue the tip (main.go:5520-5583). The genesis branch and the
        exits for bad JSON, a bad hash or a bad signature are dead: rows at or below the local height
        are gone, and every staged row passed those checks under the same policy. */
    method CollectTail(cands: seq<Staged>, height: nat, tip: string) returns (list: seq<Staged>, broken: bool)
      requires cands != [] && RowsOk(rules, cands)
      requires forall i :: 0 <= i < |cands| ==> cands[i].index > height
      ensures list <= cands && Tail(list, height, tip) && RowsOk(rules, list)
      ensures broken <==> list == []
      ensures Continues(cands[0].index, cands[0].prev, height, tip) ==> list != []
      ensures |list| < |cands| ==>
                !Continues(cands[|list|].index, cands[|list|].prev, height + |list|, if list == [] then tip else list[|list| - 1].hash)
    {
      list, broken := [], false;
      var curTip, curHeight := tip, height;
      for i := 0 to |cands|
        invariant list == cands[..i] && Tail(list, height, tip) && !broken
        invariant curHeight == height + i && curTip == if i == 0 then tip else list[i - 1].hash
      {
        var c := cands[i];
        if curHeight == 0 && Trim(curTip) == "" && c.index == 0 {
          assert false;
        }
        if c.index != curHeight + 1 || Trim(c.prev) != Trim(curTip) {
          if i == 0 {
            broken := true;
          }
          return;
        }
        var parsed := rules.parse(c.raw);
        if parsed.None? || !Checked(rules, parsed.value) || parsed.value.hash != c.hash {
          assert false;
        }
        list := list + [c];
        curTip, curHeight := c.hash, c.index;
      }
    }

    /** Import one row and delete it from the stage. */
    method ImportRow(c: Staged)
      returns (imported: bool, dbError: bool, reason: Option<Reason>, ghost otherwiseRefused: bool)
      requires Valid() && RowOk(rules, c) && Continues(c.index, c.prev, Height(chain), TipHash(chain))
      modifies this
      ensures Valid()
      ensures imported <==> reason.None?
      ensures reason.Some? ==> reason.value == UnsupportedKind || reason.value == ImportFailed
      ensures reason == WhyRefused(rules, c, otherwiseRefused)
      ensures Vetted(rules, chain, |old(chain)|)
      ensures imported ==> |chain| == |old(chain)| + 1 && old(chain) <= chain && TipHash(chain) == c.hash && Height(chain) == c.index
      ensures !imported ==> chain == old(chain) && stage == old(stage) && !dbError
      ensures stage == old(stage) || (imported && stage == old(stage) - {c.hash})
      ensures imported && !dbError ==> stage == old(stage) - {c.hash}
    {
      var b := rules.parse(c.raw).value;
      if Trim(b.kind) != POH_KIND {
        return false, false, Some(UnsupportedKind), false;
      }
      var ok, other := Import(b);
      if !ok {
        return false, false, Some(ImportFailed), other;
      }
      var deleted: bool := *;
      if deleted {
        stage := stage - {c.hash};
      }
      return true, !deleted, None, other;
    }

    /** Import the collected rows in order (main.go:5590-5655). `applied` counts the imports; dbError
        is the failed delete that makes the caller return an error. ImportRow's precondition is the
        claim that every import call gets a block whose index is the current height plus one and
        whose parent is the current tip. */
    method ImportTail(list: seq<Staged>)
      returns (applied: nat, dbError: bool, reason: Option<Reason>, ghost otherwiseRefused: bool)
      requires Valid() && RowsOk(rules, list) && Tail(list, Height(chain), TipHash(chain)) && Current(stage, list)
      modifies this
      ensures Valid() && Grown(rules, old(chain), chain, old(stage), stage) && applied <= |list|
      ensures !dbError ==> Importing(list, applied, old(chain), chain, old(stage), stage)
      ensures !dbError && reason.None? ==> applied == |list|
      ensures reason.Some? ==> applied < |list| && !dbError && reason == WhyRefused(rules, list[applied], otherwiseRefused)
    {
      applied, dbError, reason, otherwiseRefused := 0, false, None, false;
      ImportingInit(list, chain, stage);
      while applied < |list| && !dbError && reason.None?
        invariant Valid()
        invariant ImportState(list, applied, dbError, reason, otherwiseRefused, old(chain), chain, old(stage), stage)
        decreases |list| - applied, if dbError || reason.Some? then 0 else 1
      {
        applied, dbError, reason, otherwiseRefused := ImportNext(list, applied, old(chain), old(stage));
      }
    }

    /** State of the import loop, whether or not it has to stop. */
    ghost predicate ImportState(list: seq<Staged>, k: nat, dbError: bool, reason: Option<Reason>, otherwiseRefused: bool,
                                ch0: seq<Block>, ch: seq<Block>, st0: map<string, Staged>, st: map<string, Staged>) {
      && |ch0| > 0 && Grown(rules, ch0, ch, st0, st) && k <= |list|
      && (!dbError ==> Importing(list, k, ch0, ch, st0, st))
      && (reason.Some? ==> k < |list| && !dbError && reason == WhyRefused(rules, list[k], otherwiseRefused))
    }

    /** State of the import loop after k rows. */
    ghost predicate Importing(list: seq<Staged>, k: nat, ch0: seq<Block>, ch: seq<Block>, st0: map<string, Staged>, st: map<string, Staged>) {
      && |ch0| > 0 && |ch| == |ch0| + k && Grown(rules, ch0, ch, st0, st)
      && Left(list, k, ch, st) && Imported(list, k, ch0, ch)
    }

    lemma ImportingFacts(list: seq<Staged>, k: nat, ch0: seq<Block>, ch: seq<Block>, st0: map<string, Staged>, st: map<string, Staged>)
      requires Importing(list, k, ch0, ch, st0, st)
      ensures k <= |list| && |ch| == |ch0| + k && Imported(list, k, ch0, ch)
      ensures k > 0 ==> TipHash(ch) == list[k - 1].hash && list[k - 1].index == Height(ch)
    {}

    lemma ImportingInit(list: seq<Staged>, ch: seq<Block>, st: map<string, Staged>)
      requires |ch| > 0 && Tail(list, Height(ch), TipHash(ch)) && Current(st, list)
      ensures Importing(list, 0, ch, ch, st, st)
    {
      assert list[0..] == list;
    }

    /** One turn of the import loop. */
    method ImportNext(list: seq<Staged>, k: nat, ghost ch0: seq<Block>, ghost st0: map<string, Staged>)
      returns (next: nat, dbError: bool, reason: Option<Reason>, ghost otherwiseRefused: bool)
      requires Valid() && k < |list| && RowsOk(rules, list) && Importing(list, k, ch0, chain, st0, stage)
      modifies this
      ensures Valid() && k <= next && (!dbError && reason.None? ==> next == k + 1)
      ensures ImportState(list, next, dbError, reason, otherwiseRefused, ch0, chain, st0, stage)
    {
      TailHead(list, k, Height(chain), TipHash(chain));
      var imported;
      imported, dbError, reason, otherwiseRefused := ImportRow(list[k]);
      next := k;
      if imported {
        GrownStep(rules, ch0, old(chain), chain, st0, old(stage), stage, list[k]);
        if !dbError {
          LeftStep(list, k, old(chain), chain, old(stage), stage);
          ImportedStep(list, k, ch0, old(chain), chain);
          next := k + 1;
        }
      }
    }

    /** The first k rows of list are the blocks after ch. */
    static predicate Imported(list: seq<Staged>, k: nat, ch: seq<Block>, ch': seq<Block>) {
      k <= |list| && |ch| + k <= |ch'| && forall i :: 0 <= i < k ==> ch'[|ch| + i].hash == list[i].hash
    }

    static lemma ImportedStep(list: seq<Staged>, k: nat, ch: seq<Block>, was: seq<Block>, now: seq<Block>)
      requires Imported(list, k, ch, was) && k < |list| && |was| == |ch| + k
      requires was <= now && |now| == |was| + 1 && now[|was|].hash == list[k].hash
      ensures Imported(list, k + 1, ch, now)
    {}

    /** What importing rows does to the chain and the stage. */
    static ghost predicate Grown(rules: Rules, ch: seq<Block>, ch': seq<Block>, st: map<string, Staged>, st': map<string, Staged>)
      requires |ch| > 0
    {
      ch <= ch' && Vetted(rules, ch', |ch|) && OnlyDone(st, st', Height(ch), ch')
    }

    /** list[k..] is still to be imported on top of ch. */
    static ghost predicate Left(list: seq<Staged>, k: nat, ch: seq<Block>, st: map<string, Staged>)
      requires |ch| > 0
    {
      && k <= |list| && Current(st, list) && Tail(list[k..], Height(ch), TipHash(ch))
      && (k > 0 ==> TipHash(ch) == list[k - 1].hash && list[k - 1].index == Height(ch))
    }

    static lemma GrownStep(rules: Rules, ch0: seq<Block>, ch: seq<Block>, ch': seq<Block>,
                           st0: map<string, Staged>, st: map<string, Staged>, st': map<string, Staged>, c: Staged)
      requires |ch0| > 0 && Grown(rules, ch0, ch, st0, st)
      requires ch <= ch' && |ch'| == |ch| + 1 && Vetted(rules, ch', |ch|) && Linked(ch')
      requires TipHash(ch') == c.hash && Height(ch') == c.index
      requires st' == st || st' == st - {c.hash}
      requires c.hash in st ==> st[c.hash] == c
      ensures Grown(rules, ch0, ch', st0, st')
    {
      forall h | h in st0 && h !in st'
        ensures st0[h].index <= Height(ch0) + 1 || (st0[h].index < |ch'| && ch'[st0[h].index].hash == h)
      {
        if h in st {
          assert h == c.hash && st0[h] == c;
        }
      }
    }

    static lemma LeftStep(list: seq<Staged>, k: nat, ch: seq<Block>, ch': seq<Block>,
                          st: map<string, Staged>, st': map<string, Staged>)
      requires k < |list| && |ch| > 0 && |ch'| > 0 && Left(list, k, ch, st)
      requires TipHash(ch') == list[k].hash && Height(ch') == list[k].index
      requires forall h :: h in st' ==> h in st && st'[h] == st[h]
      ensures Left(list, k + 1, ch', st')
    {
      TailHead(list, k, Height(ch), TipHash(ch));
      TailNext(list, k, Height(ch), TipHash(ch));
    }

    static lemma TailHead(list: seq<Staged>, k: nat, height: nat, tip: string)
      requires k < |list| && Tail(list[k..], height, tip)
      ensures Continues(list[k].index, list[k].prev, height, tip)
    {
      assert list[k..][0] == list[k];
    }

    static lemma TailNext(list: seq<Staged>, k: nat, height: nat, tip: string)
      requires k < |list| && Tail(list[k..], height, tip)
      ensures Tail(list[k + 1..], height + 1, list[k].hash)
    {
      var xs, ys := list[k..], list[k + 1..];
      assert xs[0] == list[k];
      assert ys != [] ==> ys[0] == xs[1];
      forall i | 0 < i < |ys| ensures Continues(ys[i].index, ys[i].prev, height + 1 + i, ys[i - 1].hash) {
        assert ys[i] == xs[i + 1] && ys[i - 1] == xs[i];
      }
    }

    /** list is the part of the window to import: it starts at the first row that continues the tip
        and goes on as long as rows link. */
    static ghost predicate TailOfWindow(window: seq<Staged>, list: seq<Staged>, from: nat, height: nat, tip: string) {
      && from + |list| <= |window| && list == window[from..from + |list|]
      && Tail(list, height, tip)
      && (forall i :: 0 <= i < from ==> !Continues(window[i].index, window[i].prev, height, tip))
      && (list != [] && from + |list| < |window| ==>
            var next := window[from + |list|];
            !Continues(next.index, next.prev, height + |list|, list[|list| - 1].hash))
      && (list == [] ==> !HasLink(window, height, tip))
    }

    static lemma TailFound(w: seq<Staged>, live: seq<Staged>, cands: seq<Staged>, list: seq<Staged>, a: nat, b: nat, height: nat, tip: string)
      requires a <= |w| && live == w[a..] && b < |live| && cands == live[b..] && list <= cands && Tail(list, height, tip)
      requires forall i :: 0 <= i < a ==> w[i].index <= height
      requires forall i :: 0 <= i < b ==> !Continues(live[i].index, live[i].prev, height, tip)
      requires if HasLink(live, height, tip) then Continues(cands[0].index, cands[0].prev, height, tip) else b == 0
      requires Continues(cands[0].index, cands[0].prev, height, tip) ==> list != []
      requires |list| < |cands| ==>
                 !Continues(cands[|list|].index, cands[|list|].prev, height + |list|, if list == [] then tip else list[|list| - 1].hash)
      ensures TailOfWindow(w, list, a + b, height, tip)
    {
      assert cands == w[a + b..];
      forall i | 0 <= i < a + b ensures !Continues(w[i].index, w[i].prev, height, tip) {
        assert i >= a ==> w[i] == live[i - a];
      }
      if list == [] {
        forall i | 0 <= i < |w| ensures !Continues(w[i].index, w[i].prev, height, tip) {
          assert i >= a ==> w[i] == live[i - a];
        }
      }
    }

    /** Every row of the window is at or below the local height. */
    static predicate AllStale(window: seq<Staged>, height: nat) {
      forall r :: r in window ==> r.index <= height
    }

    /** applyStagedLinearTail up to the apply loop: the rows to import, or the reason for none. */
    method PrepareTail(w: seq<Staged>) returns (list: seq<Staged>, none: Option<Reason>, ghost from: nat)
      requires Valid() && Fetched(w)
      modifies this`stage
      ensures Valid() && OnlyDone(old(stage), stage, Height(chain), chain)
      ensures RowsOk(rules, list) && Current(stage, list)
      ensures TailOfWindow(w, list, from, Height(chain), TipHash(chain))
      ensures none == NoneReason(list, w, Height(chain))
    {
      ghost var a, b;
      var live, failures;
      live, failures, a := DropStale(w, Height(chain));
      LiveIff(w, live, a, Height(chain));
      list, b := [], 0;
      if live == [] {
        NothingLive(w, Height(chain), TipHash(chain));
      } else {
        list, b := TailOfLive(live, Height(chain), TipHash(chain), w, a, old(stage));
      }
      none := if list != [] then None else if live == [] then Some(EmptyStage) else Some(ContinuityBreak);
      from := a + b;
    }

    static lemma LiveIff(w: seq<Staged>, live: seq<Staged>, a: nat, height: nat)
      requires a <= |w| && live == w[a..]
      requires forall i :: 0 <= i < a ==> w[i].index <= height
      requires forall i :: a <= i < |w| ==> w[i].index > height
      ensures live == [] <==> AllStale(w, height)
    {
      if live != [] {
        assert live[0] == w[a] && w[a] in w;
      }
    }

    /** Why there is nothing to import, if there is nothing. */
    static function NoneReason(list: seq<Staged>, window: seq<Staged>, height: nat): Option<Reason> {
      if list != [] then None else if AllStale(window, height) then Some(EmptyStage) else Some(ContinuityBreak)
    }

    static lemma NothingLive(w: seq<Staged>, height: nat, tip: string)
      requires forall i :: 0 <= i < |w| ==> w[i].index <= height
      ensures TailOfWindow(w, [], |w|, height, tip) && AllStale(w, height)
    {}

    /** The live rows are searched for the tail (main.go:5503-5583). */
    method TailOfLive(live: seq<Staged>, height: nat, tip: string, ghost w: seq<Staged>, ghost a: nat, ghost before: map<string, Staged>)
      returns (list: seq<Staged>, ghost b: nat)
      requires Valid() && live != [] && Fetched(live)
      requires a <= |w| && live == w[a..] && (forall i :: 0 <= i < a ==> w[i].index <= height)
      requires forall i :: a <= i < |w| ==> w[i].index > height
      requires OnlyDone(before, stage, height, chain)
      modifies this`stage
      ensures Valid() && OnlyDone(before, stage, height, chain)
      ensures RowsOk(rules, list) && Current(stage, list) && TailOfWindow(w, list, a + b, height, tip)
    {
      var cands, failures;
      cands, failures, b := SkipSiblings(live, height, tip);
      OnlyDoneChain(before, old(stage), stage, height, chain, chain);
      var broken;
      list, broken := CollectTail(cands, height, tip);
      TailFound(w, live, cands, list, a, b, height, tip);
    }

    /** What applying the window w with the chain ch0 gives: the blocks imported are those of its linked
        tail, all of it unless an import is refused, that of the row after the ones applied. */
    ghost predicate AppliedTail(res: ApplyResult, refused: bool, otherwiseRefused: bool, w: seq<Staged>, tail: seq<Staged>,
                                ch0: seq<Block>, ch: seq<Block>)
    {
      && |ch0| > 0 && |ch| == |ch0| + res.applied && Imported(tail, res.applied, ch0, ch)
      && (!refused ==> res.applied == |tail|)
      && (res.applied > 0 ==>
            && res.fromHeight == Height(ch0) + 1
            && res.toHeight + 1 == res.fromHeight + res.applied
            && res.toHeight == Height(ch) && res.newTip == TipHash(ch))
      && (!refused && HasLink(w, Height(ch0), TipHash(ch0)) ==> res.applied > 0)
      && (!refused ==>
            res.reason == if tail != [] then Applied else if AllStale(w, Height(ch0)) then EmptyStage else ContinuityBreak)
      && (refused ==> res.applied < |tail| && Some(res.reason) == WhyRefused(rules, tail[res.applied], otherwiseRefused))
      && (res.ok <==> res.reason == Applied || res.reason == EmptyStage)
    }

    /** applyStagedLinearTail on the rows it has read. */
    method ApplyWindow(w: seq<Staged>)
      returns (res: ApplyResult, dbError: bool, ghost refused: bool, ghost otherwiseRefused: bool,
               ghost tail: seq<Staged>, ghost from: nat)
      requires Valid() && Fetched(w)
      modifies this
      ensures Valid() && Grown(rules, old(chain), chain, old(stage), stage)
      ensures TailOfWindow(w, tail, from, Height(old(chain)), TipHash(old(chain)))
      ensures !dbError ==> AppliedTail(res, refused, otherwiseRefused, w, tail, old(chain), chain)
    {
      dbError, refused, otherwiseRefused := false, false, false;
      var height := Height(chain);
      var list, none;
      list, none, from := PrepareTail(w);
      tail := list;
      if none.Some? {
        res := ApplyResult(none.value == EmptyStage, 0, 0, 0, "", none.value);
        return;
      }
      ghost var stage1 := stage;
      var applied, reason;
      applied, dbError, reason, otherwiseRefused := ImportTail(list);
      OnlyDoneChain(old(stage), stage1, stage, height, old(chain), chain);
      refused := reason.Some?;
      res := Summarize(list, applied, height, reason);
      if !dbError {
        ImportingFacts(list, applied, old(chain), chain, stage1, stage);
      }
    }

    /** applyStagedLinearTail with a single applier. */
    method ApplyStagedTail(maxApply: nat)
      returns (res: ApplyResult, dbError: bool, ghost refused: bool, ghost otherwiseRefused: bool,
               ghost window: seq<Staged>, ghost tail: seq<Staged>, ghost from: nat)
      requires Valid()
      modifies this
      ensures Valid() && Grown(rules, old(chain), chain, old(stage), stage)
      ensures IsStageWindow(old(stage), maxApply, window)
      ensures TailOfWindow(window, tail, from, Height(old(chain)), TipHash(old(chain)))
      ensures !dbError ==> AppliedTail(res, refused, otherwiseRefused, window, tail, old(chain), chain)
    {
      var w := ReadStage(maxApply);
      WindowFacts(maxApply, w);
      window := w;
      res, dbError, refused, otherwiseRefused, tail, from := ApplyWindow(w);
    }

    /** The result fields after the apply loop (main.go:5656-5667). */
    static method Summarize(list: seq<Staged>, applied: nat, height: nat, reason: Option<Reason>) returns (res: ApplyResult)
      requires applied <= |list|
      ensures res.applied == applied && (res.ok <==> applied > 0 && reason.None?)
      ensures res.reason == if reason.Some? then reason.value else if applied > 0 then Applied else NoBlocksApplied
      ensures applied > 0 ==>
                res.fromHeight == height + 1 && res.toHeight == list[applied - 1].index && res.newTip == list[applied - 1].hash
    {
      if applied > 0 {
        res := ApplyResult(reason.None?, applied, height + 1, list[applied - 1].index, list[applied - 1].hash, Applied);
      } else {
        res := ApplyResult(false, 0, 0, 0, "", NoBlocksApplied);
      }
      if reason.Some? {
        res := res.(reason := reason.value);
      }
    }

    /** p2pSyncRunExecute: plan, fetch, stage and apply. An empty window stands for every way of
        getting no headers; the fetched bodies need not match the plan. */
    method RunExecute(window: seq<Header>, fetched: Option<seq<string>>, depth: nat, maxApply: nat) returns (out: Outcome)
      requires Valid()
      modifies this
      ensures Valid() && old(chain) <= chain && Vetted(rules, chain, |old(chain)|)
      ensures out.Fork? <==>
                && window != [] && !Bootstrap(Height(old(chain)), TipHash(old(chain)))
                && forall h :: h in window ==> !HeaderFits(h, Height(old(chain)), TipHash(old(chain)))
      ensures out.Fork? || out.PullFailed? ==> chain == old(chain) && stage == old(stage)
      ensures out.Ran? ==> |chain| == |old(chain)| + out.result.applied
      ensures forall h :: h in stage && (h !in old(stage) || stage[h] != old(stage)[h]) ==>
                fetched.Some? && stage[h].raw in fetched.value
    {
      var plan, start := PlanPull(window, Height(chain), TipHash(chain), depth);
      if plan.NoDirectTailMatch? {
        return Fork;
      }
      if plan.Fetch? {
        if fetched.None? {
          return PullFailed;
        }
        var failures := StageBlocks(fetched.value);
      }
      var res, dbError, refused, other, w, tail, from := ApplyStagedTail(maxApply);
      out := if dbError then ApplyFailed else Ran(res);
    }

    /** Any sequence of operations: the old chain stays a prefix, the chain stays linked, and only
        blocks that passed every check are added. */
    method AnyRun(ops: seq<Op>)
      requires Valid()
      modifies this
      ensures Valid() && old(chain) <= chain && Vetted(rules, chain, |old(chain)|)
    {
      for i := 0 to |ops|
        invariant Valid() && old(chain) <= chain && Vetted(rules, chain, |old(chain)|)
      {
        match ops[i]
        case Pull(raws) =>
          var failures := StageBlocks(raws);
        case Apply(n) =>
          var res, dbError, refused, other, w, tail, from := ApplyStagedTail(n);
        case Run(window, fetched, depth, limit) =>
          var out := RunExecute(window, fetched, depth, limit);
      }
    }

    lemma WindowFacts(n: nat, w: seq<Staged>)
      requires Valid() && IsStageWindow(stage, n, w)
      ensures Fetched(w)
    {
      var rest :| Split(stage, rest, w);
    }

    lemma OnlyDoneChain(a: map<string, Staged>, b: map<string, Staged>, c: map<string, Staged>, height: nat,
                        ch: seq<Block>, ch': seq<Block>)
      requires OnlyDone(a, b, height, ch) && OnlyDone(b, c, height, ch') && ch <= ch'
      ensures OnlyDone(a, c, height, ch')
    {}
  }
}
