/** Collapsing a log into runs of one class (the loop of sanitizeWorkerLogLines, main.go:3540-3678),
    over any classifier and rendering. */
module LogCollapse {
  datatype Class = Plain | Html | Cuda | Finding

  /** classOf sorts a line; status is the HTML status after one more line; the others render a run
      from its status or last line and its length. */
  datatype Rules = Rules(classOf: string -> Class,
                         status: (string, string) -> string,
                         html: (string, nat) -> string,
                         cuda: (string, nat) -> string,
                         finding: (string, nat) -> string)

  /** Where the last maximal run of lines of one class begins. */
  function RunStart(r: Rules, s: seq<string>): (k: nat)
    requires s != []
    ensures k < |s|
  {
    var n := |s| - 1;
    if n > 0 && r.classOf(s[n - 1]) == r.classOf(s[n]) then RunStart(r, s[..n]) else n
  }

  /** RunStart means what it says: one class from there on, another one just before. */
  lemma {:induction false} RunStartIsMaximal(r: Rules, s: seq<string>)
    requires s != []
    ensures var k := RunStart(r, s);
            && (forall i :: k <= i < |s| ==> r.classOf(s[i]) == r.classOf(s[|s| - 1]))
            && (k > 0 ==> r.classOf(s[k - 1]) != r.classOf(s[k]))
  {
    var n := |s| - 1;
    if n > 0 && r.classOf(s[n - 1]) == r.classOf(s[n]) {
      RunStartIsMaximal(r, s[..n]);
      var k := RunStart(r, s);
      forall i | k <= i < |s| ensures r.classOf(s[i]) == r.classOf(s[n]) {
        if i < n {
          assert s[..n][i] == s[i];
        }
      }
    }
  }

  function StatusOf(r: Rules, lines: seq<string>): string {
    if lines == [] then "" else r.status(StatusOf(r, lines[..|lines| - 1]), lines[|lines| - 1])
  }

  /** The one line shown for a run. */
  function Render(r: Rules, c: Class, run: seq<string>): string
    requires run != []
  {
    match c
    case Plain => run[|run| - 1]
    case Html => r.html(StatusOf(r, run), |run|)
    case Cuda => r.cuda(run[|run| - 1], |run|)
    case Finding => r.finding(run[|run| - 1], |run|)
  }

  /** The simple form: plain lines as they are, each maximal run of another class as one line. */
  function Summaries(r: Rules, s: seq<string>): seq<string> {
    if s == [] then []
    else
      var c, n := r.classOf(s[|s| - 1]), |s| - 1;
      if c == Plain then Summaries(r, s[..n]) + [s[n]]
      else
        var k := RunStart(r, s);
        Summaries(r, s[..k]) + [Render(r, c, s[k..])]
  }

  /** The loop's variables. */
  datatype State = State(out: seq<string>, htmlN: nat, htmlStatus: string,
                         cudaN: nat, cudaLast: string, findN: nat, findLast: string)

  function FlushHtml(r: Rules, t: State): State {
    if t.htmlN == 0 then t else t.(out := t.out + [r.html(t.htmlStatus, t.htmlN)], htmlN := 0, htmlStatus := "")
  }

  function FlushCuda(r: Rules, t: State): State {
    if t.cudaN == 0 then t else t.(out := t.out + [r.cuda(t.cudaLast, t.cudaN)], cudaN := 0, cudaLast := "")
  }

  function FlushFindings(r: Rules, t: State): State {
    if t.findN == 0 then t else t.(out := t.out + [r.finding(t.findLast, t.findN)], findN := 0, findLast := "")
  }

  /** After the lines s at most one counter is nonzero, and it counts the run s ends with. */
  predicate Tracks(r: Rules, s: seq<string>, t: State) {
    if s == [] || r.classOf(s[|s| - 1]) == Plain then
      t == State(Summaries(r, s), 0, "", 0, "", 0, "")
    else
      var k, last := RunStart(r, s), s[|s| - 1];
      var done, n := Summaries(r, s[..k]), |s| - k;
      match r.classOf(last)
      case Html => t == State(done, n, StatusOf(r, s[k..]), 0, "", 0, "")
      case Cuda => t == State(done, 0, "", n, last, 0, "")
      case Finding => t == State(done, 0, "", 0, "", n, last)
  }

  /** Flushing everything completes the summaries. */
  lemma FlushCompletes(r: Rules, s: seq<string>, t: State)
    requires Tracks(r, s, t)
    ensures FlushFindings(r, FlushCuda(r, FlushHtml(r, t))) == State(Summaries(r, s), 0, "", 0, "", 0, "")
  {}

  lemma ExtendRun(r: Rules, s: seq<string>, x: string)
    requires s != [] && r.classOf(s[|s| - 1]) == r.classOf(x)
    ensures RunStart(r, s + [x]) == RunStart(r, s)
    ensures (s + [x])[RunStart(r, s)..] == s[RunStart(r, s)..] + [x]
    ensures (s + [x])[..RunStart(r, s)] == s[..RunStart(r, s)]
  {
    assert (s + [x])[..|s|] == s;
  }

  lemma StartRun(r: Rules, s: seq<string>, x: string)
    requires s == [] || r.classOf(s[|s| - 1]) != r.classOf(x)
    ensures RunStart(r, s + [x]) == |s| && (s + [x])[..|s|] == s && (s + [x])[|s|..] == [x]
  {}

  lemma StatusSnoc(r: Rules, run: seq<string>, x: string)
    ensures StatusOf(r, run + [x]) == r.status(StatusOf(r, run), x)
  {
    assert (run + [x])[..|run|] == run;
  }

  lemma TrackHtml(r: Rules, s: seq<string>, x: string, t: State, t': State)
    requires Tracks(r, s, t) && r.classOf(x) == Html
    requires var u := FlushFindings(r, FlushCuda(r, t));
             t' == u.(htmlN := u.htmlN + 1, htmlStatus := r.status(u.htmlStatus, x))
    ensures Tracks(r, s + [x], t')
  {
    if s != [] && r.classOf(s[|s| - 1]) == Html {
      ExtendRun(r, s, x);
      StatusSnoc(r, s[RunStart(r, s)..], x);
    } else {
      StartRun(r, s, x);
      StatusSnoc(r, [], x);
      assert [] + [x] == [x];
    }
  }

  lemma TrackCuda(r: Rules, s: seq<string>, x: string, t: State, t': State)
    requires Tracks(r, s, t) && r.classOf(x) == Cuda
    requires var u := FlushFindings(r, FlushHtml(r, t)); t' == u.(cudaN := u.cudaN + 1, cudaLast := x)
    ensures Tracks(r, s + [x], t')
  {
    if s != [] && r.classOf(s[|s| - 1]) == Cuda {
      ExtendRun(r, s, x);
    } else {
      StartRun(r, s, x);
    }
  }

  lemma TrackFinding(r: Rules, s: seq<string>, x: string, t: State, t': State)
    requires Tracks(r, s, t) && r.classOf(x) == Finding
    requires var u := FlushCuda(r, FlushHtml(r, t)); t' == u.(findN := u.findN + 1, findLast := x)
    ensures Tracks(r, s + [x], t')
  {
    if s != [] && r.classOf(s[|s| - 1]) == Finding {
      ExtendRun(r, s, x);
    } else {
      StartRun(r, s, x);
    }
  }

  lemma TrackPlain(r: Rules, s: seq<string>, x: string, t: State, t': State)
    requires Tracks(r, s, t) && r.classOf(x) == Plain
    requires var u := FlushFindings(r, FlushCuda(r, FlushHtml(r, t))); t' == u.(out := u.out + [x])
    ensures Tracks(r, s + [x], t')
  {
    FlushCompletes(r, s, t);
    assert (s + [x])[..|s|] == s;
  }

  /** The loop computes the simple form. */
  method Sanitize(r: Rules, lines: seq<string>) returns (out: seq<string>)
    ensures out == Summaries(r, lines)
  {
    if lines == [] {
      return lines;
    }
    var t := State([], 0, "", 0, "", 0, "");
    for i := 0 to |lines|
      invariant Tracks(r, lines[..i], t)
    {
      var s := lines[i];
      ghost var before, was := lines[..i], t;
      assert lines[..i + 1] == before + [s];
      match r.classOf(s)
      case Html =>
        t := FlushFindings(r, FlushCuda(r, t));
        t := t.(htmlN := t.htmlN + 1, htmlStatus := r.status(t.htmlStatus, s));
        TrackHtml(r, before, s, was, t);
      case Cuda =>
        t := FlushFindings(r, FlushHtml(r, t));
        t := t.(cudaN := t.cudaN + 1, cudaLast := s);
        TrackCuda(r, before, s, was, t);
      case Finding =>
        t := FlushCuda(r, FlushHtml(r, t));
        t := t.(findN := t.findN + 1, findLast := s);
        TrackFinding(r, before, s, was, t);
      case Plain =>
        t := FlushFindings(r, FlushCuda(r, FlushHtml(r, t)));
        t := t.(out := t.out + [s]);
        TrackPlain(r, before, s, was, t);
    }
    assert lines[..|lines|] == lines;
    FlushCompletes(r, lines, t);
    t := FlushFindings(r, FlushCuda(r, FlushHtml(r, t)));
    return t.out;
  }

  /** One counter at a time, whatever was read. */
  lemma OneCounter(r: Rules, s: seq<string>, t: State)
    requires Tracks(r, s, t)
    ensures (t.htmlN == 0 && t.cudaN == 0) || (t.htmlN == 0 && t.findN == 0) || (t.cudaN == 0 && t.findN == 0)
    ensures t.htmlN + t.cudaN + t.findN > 0 <==> s != [] && r.classOf(s[|s| - 1]) != Plain
  {}

  /** A single CUDA or finding line is shown as it is. */
  ghost predicate Verbatim(r: Rules) {
    forall x :: r.cuda(x, 1) == x && r.finding(x, 1) == x
  }

  /** No two neighbours belong to one run, and every HTML line renders to itself. */
  predicate Stable(r: Rules, s: seq<string>) {
    && (forall i :: 0 < i < |s| && r.classOf(s[i]) != Plain ==> r.classOf(s[i - 1]) != r.classOf(s[i]))
    && (forall i :: 0 <= i < |s| && r.classOf(s[i]) == Html ==> r.html(r.status("", s[i]), 1) == s[i])
  }

  lemma {:induction false} NoLonger(r: Rules, s: seq<string>)
    ensures |Summaries(r, s)| <= |s|
  {
    if s != [] {
      var n := |s| - 1;
      NoLonger(r, if r.classOf(s[n]) == Plain then s[..n] else s[..RunStart(r, s)]);
    }
  }

  /** One more line, when it is shown by itself. */
  lemma UnchangedSnoc(r: Rules, t: seq<string>, x: string, y: string)
    ensures Summaries(r, t) + [y] == t + [x] <==> Summaries(r, t) == t && y == x
  {
    if Summaries(r, t) + [y] == t + [x] {
      assert |Summaries(r, t)| == |t|;
      assert Summaries(r, t) == (Summaries(r, t) + [y])[..|t|] == (t + [x])[..|t|] == t;
      assert y == (Summaries(r, t) + [y])[|t|];
    }
  }

  /** The text unchanged by collapsing is exactly the stable text. */
  lemma {:induction false} UnchangedIffStable(r: Rules, s: seq<string>)
    requires Verbatim(r)
    ensures Summaries(r, s) == s <==> Stable(r, s)
  {
    if s != [] {
      var n := |s| - 1;
      UnchangedIffStable(r, s[..n]);
      assert s == s[..n] + [s[n]];
      StableInit(r, s);
      if r.classOf(s[n]) == Plain {
        UnchangedSnoc(r, s[..n], s[n], s[n]);
      } else if RunStart(r, s) == n {
        UnchangedRunOfOne(r, s);
      } else {
        LongRunChanges(r, s);
      }
    }
  }

  lemma UnchangedRunOfOne(r: Rules, s: seq<string>)
    requires Verbatim(r) && s != [] && r.classOf(s[|s| - 1]) != Plain && RunStart(r, s) == |s| - 1
    requires Summaries(r, s[..|s| - 1]) == s[..|s| - 1] <==> Stable(r, s[..|s| - 1])
    ensures Summaries(r, s) == s <==> Stable(r, s)
  {
    var n := |s| - 1;
    var y := Render(r, r.classOf(s[n]), s[n..]);
    SingleRun(r, s);
    StableInit(r, s);
    RunStartIsMaximal(r, s);
    UnchangedSnoc(r, s[..n], s[n], y);
    assert s == s[..n] + [s[n]];
    assert Summaries(r, s) == Summaries(r, s[..n]) + [y];
  }

  lemma LongRunChanges(r: Rules, s: seq<string>)
    requires s != [] && r.classOf(s[|s| - 1]) != Plain && RunStart(r, s) != |s| - 1
    ensures Summaries(r, s) != s && !Stable(r, s)
  {
    var k := RunStart(r, s);
    NoLonger(r, s[..k]);
    RunStartIsMaximal(r, s);
    assert |Summaries(r, s)| <= k + 1 < |s|;
    assert r.classOf(s[|s| - 2]) == r.classOf(s[|s| - 1]);
  }

  lemma SingleRun(r: Rules, s: seq<string>)
    requires s != [] && RunStart(r, s) == |s| - 1
    ensures s[|s| - 1..] == [s[|s| - 1]] && StatusOf(r, s[|s| - 1..]) == r.status("", s[|s| - 1])
  {
    StatusSnoc(r, [], s[|s| - 1]);
    assert [] + [s[|s| - 1]] == s[|s| - 1..];
  }

  lemma StableInit(r: Rules, s: seq<string>)
    requires s != []
    ensures var n := |s| - 1;
            Stable(r, s) <==>
              && Stable(r, s[..n])
              && (n > 0 && r.classOf(s[n]) != Plain ==> r.classOf(s[n - 1]) != r.classOf(s[n]))
              && (r.classOf(s[n]) == Html ==> r.html(r.status("", s[n]), 1) == s[n])
  {
    var n := |s| - 1;
    if Stable(r, s[..n]) {
      assert forall i :: 0 <= i < n ==> s[..n][i] == s[i];
    }
  }

  // ---------------------------------------------------------------- collapsing twice, told from the input

  /** s[a..b] is a maximal run of lines of one class that is not plain. */
  predicate IsRun(r: Rules, s: seq<string>, a: nat, b: nat) {
    && a < b <= |s| && r.classOf(s[a]) != Plain
    && (forall i :: a <= i < b ==> r.classOf(s[i]) == r.classOf(s[a]))
    && (a > 0 ==> r.classOf(s[a - 1]) != r.classOf(s[a]))
    && (b < |s| ==> r.classOf(s[b]) != r.classOf(s[a]))
  }

  /** The class that the summary line of a run falls into. */
  function SummaryClass(r: Rules, s: seq<string>, a: nat, b: nat): Class
    requires a < b <= |s|
  {
    r.classOf(Render(r, r.classOf(s[a]), s[a..b]))
  }

  /** The summary of this run is no HTML line, and that of an HTML run does not fall into the class of a
      neighbouring line. */
  predicate RunSettles(r: Rules, s: seq<string>, a: nat, b: nat)
    requires a < b <= |s|
  {
    var k := SummaryClass(r, s, a, b);
    && k != Html
    && (r.classOf(s[a]) == Html && k != Plain ==>
          (a > 0 ==> r.classOf(s[a - 1]) != k) && (b < |s| ==> r.classOf(s[b]) != k))
  }

  ghost predicate AllSettle(r: Rules, s: seq<string>) {
    forall a: nat, b: nat :: IsRun(r, s, a, b) ==> RunSettles(r, s, a, b)
  }

  /** HTML lines never render to themselves; a summary of CUDA or finding lines keeps their class or
      reads as HTML. */
  ghost predicate Restless(r: Rules) {
    && Verbatim(r)
    && (forall x :: r.classOf(x) == Html ==> r.html(r.status("", x), 1) != x)
    && (forall x, n :: n > 0 && r.classOf(x) == Cuda ==> r.classOf(r.cuda(x, n)) == Cuda || r.classOf(r.cuda(x, n)) == Html)
    && (forall x, n :: n > 0 && r.classOf(x) == Finding ==> r.classOf(r.finding(x, n)) == Finding || r.classOf(r.finding(x, n)) == Html)
  }

  /** No HTML line, and no two neighbours of one class that is not plain. */
  predicate Calm(r: Rules, s: seq<string>) {
    && (forall i :: 0 <= i < |s| ==> r.classOf(s[i]) != Html)
    && (forall i :: 0 < i < |s| && r.classOf(s[i]) != Plain ==> r.classOf(s[i - 1]) != r.classOf(s[i]))
  }

  lemma CalmIffStable(r: Rules, s: seq<string>)
    requires Restless(r)
    ensures Calm(r, s) <==> Stable(r, s)
  {
    assert forall i :: 0 <= i < |s| && r.classOf(s[i]) == Html ==> r.html(r.status("", s[i]), 1) != s[i];
  }

  lemma CalmSnoc(r: Rules, s: seq<string>, y: string)
    ensures Calm(r, s + [y]) <==>
              && Calm(r, s) && r.classOf(y) != Html
              && (s != [] && r.classOf(y) != Plain ==> r.classOf(s[|s| - 1]) != r.classOf(y))
  {
    var t := s + [y];
    assert t[|s|] == y && forall i :: 0 <= i < |s| ==> t[i] == s[i];
    if Calm(r, t) {
      assert forall i :: 0 <= i < |s| ==> r.classOf(t[i]) != Html;
      assert forall i :: 0 < i < |s| && r.classOf(t[i]) != Plain ==> r.classOf(t[i - 1]) != r.classOf(t[i]);
    }
  }

  /** The last run of s, if s ends with one. */
  lemma LastIsRun(r: Rules, s: seq<string>)
    requires s != [] && r.classOf(s[|s| - 1]) != Plain
    ensures IsRun(r, s, RunStart(r, s), |s|)
    ensures forall a: nat :: IsRun(r, s, a, |s|) ==> a == RunStart(r, s)
  {
    RunStartIsMaximal(r, s);
    var k := RunStart(r, s);
    forall a: nat | IsRun(r, s, a, |s|) ensures a == k {
      var i, j := if a < k then k - 1 else a, if k < a then a - 1 else k;
      assert r.classOf(s[i]) == r.classOf(s[a]) && r.classOf(s[j]) == r.classOf(s[|s| - 1]);
    }
  }

  /** A run inside a front part of s is a run of s, unless s continues it, and conversely. */
  lemma RunsOfFront(r: Rules, s: seq<string>, k: nat, a: nat, b: nat)
    requires k < |s| && b <= k && (k > 0 ==> r.classOf(s[k - 1]) != r.classOf(s[k]) || r.classOf(s[k]) == Plain)
    ensures IsRun(r, s, a, b) <==> IsRun(r, s[..k], a, b)
  {
    assert forall i :: 0 <= i < k ==> s[..k][i] == s[i];
  }

  /** A run of s that reaches beyond k starts there. */
  lemma RunsBeyond(r: Rules, s: seq<string>, k: nat, a: nat, b: nat)
    requires k < |s| && k < b && IsRun(r, s, a, b) && (k > 0 ==> r.classOf(s[k - 1]) != r.classOf(s[k]) || r.classOf(s[k]) == Plain)
    ensures k <= a && r.classOf(s[a]) != Plain
  {
    var i, j := if a < k then k - 1 else a, if a < k then k else a;
    assert r.classOf(s[i]) == r.classOf(s[a]) && r.classOf(s[j]) == r.classOf(s[a]);
  }

  /** What settles a run of the front part settles it in s, if the line after it agrees. */
  lemma SettlesInFront(r: Rules, s: seq<string>, k: nat, a: nat, b: nat)
    requires k < |s| && a < b <= k
    ensures s[..k][a..b] == s[a..b]
    ensures RunSettles(r, s, a, b) <==>
              RunSettles(r, s[..k], a, b) &&
              (b == k && r.classOf(s[a]) == Html && SummaryClass(r, s, a, b) != Plain ==> r.classOf(s[k]) != SummaryClass(r, s, a, b))
  {
    assert s[..k][a..b] == s[a..b];
    assert forall i :: 0 <= i < k ==> s[..k][i] == s[i];
  }

  /** The class of the last summary line: plain after a plain line, otherwise that of the last run. */
  lemma LastSummary(r: Rules, s: seq<string>)
    requires s != []
    ensures var out := Summaries(r, s);
            && out != []
            && r.classOf(out[|out| - 1]) ==
                 if r.classOf(s[|s| - 1]) == Plain then Plain else SummaryClass(r, s, RunStart(r, s), |s|)
  {
    RunStartIsMaximal(r, s);
    assert s[RunStart(r, s)..] == s[RunStart(r, s)..|s|];
  }

  /** AllSettle of s in terms of the part before position k, where a new summary line begins. */
  ghost predicate FrontSettles(r: Rules, s: seq<string>, k: nat)
    requires k < |s|
  {
    && AllSettle(r, s[..k])
    && (forall a: nat :: IsRun(r, s[..k], a, k) && r.classOf(s[a]) == Html && SummaryClass(r, s, a, k) != Plain ==>
          r.classOf(s[k]) != SummaryClass(r, s, a, k))
  }

  lemma SplitSettles(r: Rules, s: seq<string>, k: nat)
    requires k < |s| && (k > 0 ==> r.classOf(s[k - 1]) != r.classOf(s[k]) || r.classOf(s[k]) == Plain)
    ensures AllSettle(r, s) <==>
              FrontSettles(r, s, k) && forall a: nat, b: nat :: k <= a && IsRun(r, s, a, b) ==> RunSettles(r, s, a, b)
  {
    if AllSettle(r, s) {
      forall a: nat, b: nat | IsRun(r, s[..k], a, b)
        ensures RunSettles(r, s[..k], a, b)
        ensures b == k && r.classOf(s[a]) == Html && SummaryClass(r, s, a, k) != Plain ==> r.classOf(s[k]) != SummaryClass(r, s, a, k)
      {
        RunsOfFront(r, s, k, a, b);
        SettlesInFront(r, s, k, a, b);
      }
    }
    if FrontSettles(r, s, k) && forall a: nat, b: nat :: k <= a && IsRun(r, s, a, b) ==> RunSettles(r, s, a, b) {
      forall a: nat, b: nat | IsRun(r, s, a, b) ensures RunSettles(r, s, a, b) {
        if b <= k {
          RunsOfFront(r, s, k, a, b);
          SettlesInFront(r, s, k, a, b);
        } else {
          RunsBeyond(r, s, k, a, b);
        }
      }
    }
  }

  /** The summary is calm exactly when every run of the input settles. */
  lemma {:induction false} CalmIffAllSettle(r: Rules, s: seq<string>)
    requires Restless(r)
    ensures Calm(r, Summaries(r, s)) <==> AllSettle(r, s)
    decreases |s|
  {
    if s != [] {
      var n := |s| - 1;
      if r.classOf(s[n]) == Plain {
        CalmIffAllSettle(r, s[..n]);
        CalmSnoc(r, Summaries(r, s[..n]), s[n]);
        SplitSettles(r, s, n);
        NoRunAfter(r, s);
        assert AllSettle(r, s) <==> AllSettle(r, s[..n]);
      } else {
        var k := RunStart(r, s);
        RunStartIsMaximal(r, s);
        CalmIffAllSettle(r, s[..k]);
        CalmRun(r, s, k);
      }
    }
  }

  /** After a plain line at the end no run begins. */
  lemma NoRunAfter(r: Rules, s: seq<string>)
    requires s != [] && r.classOf(s[|s| - 1]) == Plain
    ensures forall a: nat, b: nat :: |s| - 1 <= a ==> !IsRun(r, s, a, b)
  {}

  /** The summary of text that ends with a run, and the class of its last line. */
  lemma SummariesRun(r: Rules, s: seq<string>, k: nat) returns (y: string)
    requires s != [] && r.classOf(s[|s| - 1]) != Plain && k == RunStart(r, s)
    ensures Summaries(r, s) == Summaries(r, s[..k]) + [y] && r.classOf(y) == SummaryClass(r, s, k, |s|)
  {
    RunStartIsMaximal(r, s);
    assert s[k..] == s[k..|s|];
    y := Render(r, r.classOf(s[|s| - 1]), s[k..]);
  }

  lemma SettlesWithRun(r: Rules, s: seq<string>, k: nat)
    requires s != [] && r.classOf(s[|s| - 1]) != Plain && k == RunStart(r, s)
    ensures AllSettle(r, s) <==> FrontSettles(r, s, k) && RunSettles(r, s, k, |s|)
  {
    RunStartIsMaximal(r, s);
    SplitSettles(r, s, k);
    OneRunFrom(r, s, k);
  }

  /** The step of the proof for a run at the end. */
  lemma CalmRun(r: Rules, s: seq<string>, k: nat)
    requires Restless(r) && s != [] && r.classOf(s[|s| - 1]) != Plain && k == RunStart(r, s)
    requires Calm(r, Summaries(r, s[..k])) <==> AllSettle(r, s[..k])
    ensures Calm(r, Summaries(r, s)) <==> AllSettle(r, s)
  {
    var y := SummariesRun(r, s, k);
    CalmSnoc(r, Summaries(r, s[..k]), y);
    SettlesWithRun(r, s, k);
    if k == 0 {
      RunAtFront(r, s);
    } else if AllSettle(r, s[..k]) {
      JoinRun(r, s, k);
    }
  }

  lemma RunAtFront(r: Rules, s: seq<string>)
    requires s != [] && r.classOf(s[|s| - 1]) != Plain && 0 == RunStart(r, s)
    ensures FrontSettles(r, s, 0) && Calm(r, Summaries(r, s[..0]))
    ensures RunSettles(r, s, 0, |s|) <==> SummaryClass(r, s, 0, |s|) != Html
  {}

  lemma OneRunFrom(r: Rules, s: seq<string>, k: nat)
    requires s != [] && r.classOf(s[|s| - 1]) != Plain && k == RunStart(r, s)
    ensures (forall a: nat, b: nat :: k <= a && IsRun(r, s, a, b) ==> RunSettles(r, s, a, b)) <==> RunSettles(r, s, k, |s|)
  {
    RunStartIsMaximal(r, s);
    LastIsRun(r, s);
    forall a: nat, b: nat | k <= a && IsRun(r, s, a, b) ensures a == k && b == |s| {
      var i := if b < |s| then b else a;
      assert r.classOf(s[i]) == r.classOf(s[|s| - 1]);
    }
  }

  /** A run's summary keeps the class or reads as HTML, unless the run is one of HTML lines. */
  lemma SummaryKeeps(r: Rules, s: seq<string>, a: nat, b: nat)
    requires Restless(r) && IsRun(r, s, a, b) && r.classOf(s[a]) != Html
    ensures SummaryClass(r, s, a, b) == r.classOf(s[a]) || SummaryClass(r, s, a, b) == Html
  {
    var run := s[a..b];
    assert run[|run| - 1] == s[b - 1] && r.classOf(s[b - 1]) == r.classOf(s[a]);
  }

  /** Two neighbouring runs of classes d and c, whose summaries fall into e and y. */
  lemma JoinClasses(d: Class, c: Class, e: Class, y: Class)
    requires d != Plain && c != Plain && d != c && e != Html
    requires d != Html ==> e == d
    requires c != Html ==> y == c || y == Html
    ensures (d == Html && e != Plain ==> c != e) && y != Html && (c == Html && y != Plain ==> d != y)
            <==> y != Html && (y != Plain ==> e != y)
  {}

  lemma JoinAfterPlain(r: Rules, s: seq<string>, k: nat)
    requires Restless(r) && 0 < k < |s| && r.classOf(s[k - 1]) == Plain && IsRun(r, s, k, |s|) && AllSettle(r, s[..k])
    ensures FrontSettles(r, s, k)
    ensures RunSettles(r, s, k, |s|) <==> SummaryClass(r, s, k, |s|) != Html
  {
    forall a: nat ensures !IsRun(r, s[..k], a, k) {
      assert a < k ==> s[..k][k - 1] == s[k - 1] && s[..k][a] == s[a];
    }
  }

  lemma JoinAfterRun(r: Rules, s: seq<string>, k: nat, a: nat)
    requires Restless(r) && a < k < |s| && IsRun(r, s, k, |s|) && AllSettle(r, s[..k])
    requires IsRun(r, s[..k], a, k) && forall b: nat :: IsRun(r, s[..k], b, k) ==> b == a
    ensures var e, y := SummaryClass(r, s, a, k), SummaryClass(r, s, k, |s|);
            FrontSettles(r, s, k) && RunSettles(r, s, k, |s|) <==> y != Html && (y != Plain ==> e != y)
  {
    SettlesInFront(r, s, k, a, k);
    assert s[..k][a] == s[a] && s[..k][k - 1] == s[k - 1];
    assert RunSettles(r, s[..k], a, k);
    var d, c := r.classOf(s[a]), r.classOf(s[k]);
    var e, y := SummaryClass(r, s, a, k), SummaryClass(r, s, k, |s|);
    assert SummaryClass(r, s[..k], a, k) == e;
    assert r.classOf(s[k - 1]) == d;
    if d != Html {
      SummaryKeeps(r, s[..k], a, k);
    }
    if c != Html {
      SummaryKeeps(r, s, k, |s|);
    }
    JoinClasses(d, c, e, y);
  }

  /** Where the front part settles, the new run's neighbour conditions are those of calm text. */
  lemma JoinRun(r: Rules, s: seq<string>, k: nat)
    requires Restless(r) && s != [] && r.classOf(s[|s| - 1]) != Plain && k == RunStart(r, s) && k > 0
    requires AllSettle(r, s[..k])
    ensures var out, y := Summaries(r, s[..k]), SummaryClass(r, s, k, |s|);
            out != [] &&
            (FrontSettles(r, s, k) && RunSettles(r, s, k, |s|) <==>
               y != Html && (y != Plain ==> r.classOf(out[|out| - 1]) != y))
  {
    var t := s[..k];
    LastIsRun(r, s);
    LastSummary(r, t);
    assert t[k - 1] == s[k - 1];
    if r.classOf(s[k - 1]) == Plain {
      JoinAfterPlain(r, s, k);
    } else {
      LastIsRun(r, t);
      var a := RunStart(r, t);
      JoinAfterRun(r, s, k, a);
      SettlesInFront(r, s, k, a, k);
      assert t[a] == s[a];
    }
  }

  /** Collapsing twice is collapsing once exactly when every run of the input settles. */
  lemma TwiceIff(r: Rules, s: seq<string>)
    requires Restless(r)
    ensures Summaries(r, Summaries(r, s)) == Summaries(r, s) <==> AllSettle(r, s)
  {
    CalmIffAllSettle(r, s);
    CalmIffStable(r, Summaries(r, s));
    UnchangedIffStable(r, Summaries(r, s));
  }

  /** bad says which CUDA and finding runs, by last line and length, collapse to an HTML line. */
  ghost predicate SpoiledBy(r: Rules, bad: (string, nat) -> bool) {
    && (forall x, n :: n > 0 && r.classOf(x) == Cuda ==> r.classOf(r.cuda(x, n)) == if bad(x, n) then Html else Cuda)
    && (forall x, n :: n > 0 && r.classOf(x) == Finding ==> r.classOf(r.finding(x, n)) == if bad(x, n) then Html else Finding)
  }

  /** Whether the run s[a..b] collapses to a line that a second pass leaves alone: a CUDA or finding
      run, unless it is a bad one; an HTML run, when its summary is no HTML line and not of the class
      of a neighbouring line. */
  predicate SettlesOnce(r: Rules, bad: (string, nat) -> bool, s: seq<string>, a: nat, b: nat)
    requires a < b <= |s|
  {
    if r.classOf(s[a]) == Html then
      var k := r.classOf(r.html(StatusOf(r, s[a..b]), b - a));
      && k != Html
      && (k != Plain ==> (a > 0 ==> r.classOf(s[a - 1]) != k) && (b < |s| ==> r.classOf(s[b]) != k))
    else
      !bad(s[b - 1], b - a)
  }

  lemma SettlesOnceIff(r: Rules, bad: (string, nat) -> bool, s: seq<string>, a: nat, b: nat)
    requires SpoiledBy(r, bad) && IsRun(r, s, a, b)
    ensures SettlesOnce(r, bad, s, a, b) <==> RunSettles(r, s, a, b)
  {
    var run := s[a..b];
    assert |run| == b - a && run[|run| - 1] == s[b - 1];
    assert r.classOf(s[b - 1]) == r.classOf(s[a]);
  }

  /** Collapsing twice is collapsing once exactly when every run of the input settles. */
  lemma TwiceIffSettles(r: Rules, bad: (string, nat) -> bool, s: seq<string>)
    requires Restless(r) && SpoiledBy(r, bad)
    ensures Summaries(r, Summaries(r, s)) == Summaries(r, s) <==>
              forall a: nat, b: nat :: IsRun(r, s, a, b) ==> SettlesOnce(r, bad, s, a, b)
  {
    TwiceIff(r, s);
    forall a: nat, b: nat | IsRun(r, s, a, b) ensures SettlesOnce(r, bad, s, a, b) <==> RunSettles(r, s, a, b) {
      SettlesOnceIff(r, bad, s, a, b);
    }
  }

  /** The summary of every HTML run reads as a plain line. */
  ghost predicate HtmlReadsPlain(r: Rules, s: seq<string>) {
    forall a: nat, b: nat :: IsRun(r, s, a, b) && r.classOf(s[a]) == Html ==>
      r.classOf(r.html(StatusOf(r, s[a..b]), b - a)) == Plain
  }

  /** Where no run is long enough to be bad, it is enough that the HTML summaries read as plain lines. */
  lemma OnceWhenHtmlPlain(r: Rules, bad: (string, nat) -> bool, s: seq<string>)
    requires Restless(r) && SpoiledBy(r, bad) && HtmlReadsPlain(r, s)
    requires forall x, n :: 0 < n <= |s| ==> !bad(x, n)
    ensures Summaries(r, Summaries(r, s)) == Summaries(r, s)
  {
    TwiceIffSettles(r, bad, s);
  }
}
