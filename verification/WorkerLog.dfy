/** The classes and summary lines of the worker log (main.go:3490-3644). */
module WorkerLog {
  import opened Text
  import opened LogCollapse

  function ThreeDigits(s: string): string {
    if |s| >= 3 && (forall i :: 0 <= i < 3 ==> '0' <= s[i] <= '9') then s[..3] else ""
  }

  /** extractHTTPStatusToken. */
  function HttpStatusToken(s: string): string {
    var low := Lower(s);
    var i := Index(low, "http ");
    if i >= 0 then ThreeDigits(Trim(s[i + 5..]))
    else
      var j := Index(low, "http");
      if j < 0 then ""
      else
        var rest := s[j..];
        if |rest| >= 8 && (rest[4] == ' ' || rest[4] == '\t') then ThreeDigits(Trim(rest[5..])) else ""
  }

  /** extractHTMLTitle. */
  function HtmlTitle(s: string): string {
    var i := Index(Lower(s), "<title>");
    if i < 0 then ""
    else
      var rest := s[i + 7..];
      var j := Index(Lower(rest), "</title>");
      if j < 0 then "" else Trim(rest[..j])
  }

  const JUNK_PREFIXES: seq<string> := [
    "<!doctype", "<html", "<head", "</head", "<body", "</body",
    "<center", "</center", "<title", "</title", "<hr", "<h1"
  ]

  predicate IsJunk(s: string) {
    var low := Lower(Trim(s));
    low != "" &&
    ((exists i :: 0 <= i < |JUNK_PREFIXES| && HasPrefix(low, JUNK_PREFIXES[i]))
      || low == "</html>"
      || (Contains(low, "<html") && (Contains(low, "502") || Contains(low, "bad gateway") || Contains(low, "claim:"))))
  }

  predicate IsClaimHtml(s: string) {
    var low := Lower(s);
    Contains(low, "claim:") && Contains(low, "http") && Contains(low, "<html")
  }

  predicate IsCuda(s: string) { Contains(Lower(s), "cuda search") || Contains(Lower(s), "gpupoh: cuda search") }

  predicate IsDetectorFinding(s: string) {
    Contains(s, "FINDING") && Contains(s, "semantics=detector") &&
    (HasPrefix(s, "workerpoh-fuzz:") || HasPrefix(s, "workerfuzz:"))
  }

  function ClassOf(s: string): Class {
    if IsJunk(s) || IsClaimHtml(s) then Html
    else if IsCuda(s) then Cuda
    else if IsDetectorFinding(s) then Finding
    else Plain
  }

  /** htmlStatus after one more HTML line. */
  function NextStatus(status: string, s: string): string {
    var code, title := HttpStatusToken(s), HtmlTitle(s);
    var st := if code != "" then "workerfuzz: claim: HTTP " + code else status;
    if title != "" then
      if st == "" then "workerfuzz: claim: " + title
      else if !Contains(st, title) then st + " " + title
      else st
    else if st != "" && !Contains(Lower(st), "bad gateway") && Contains(Lower(s), "502") then st + " Bad Gateway"
    else st
  }

  function RenderHtml(status: string, n: nat): string {
    var msg := if status == "" then "workerfuzz: claim: HTTP 502 Bad Gateway" else status;
    if n > 1 then msg + " ×" + Decimal(n) + " (html collapsed)" else msg
  }

  function RenderCuda(last: string, n: nat): string {
    if n == 1 then last else last + "  ·  ×" + Decimal(n) + " cuda samples collapsed"
  }

  function CampaignIn(s: string): string {
    var i := Index(s, "campaign=");
    if i < 0 then "campaign"
    else
      var rest := s[i + 9..];
      var j := Index(rest, " ");
      if j > 0 then rest[..j] else rest
  }

  function RenderFinding(last: string, n: nat): string {
    if n == 1 then last
    else
      (if HasPrefix(last, "workerfuzz:") then "workerfuzz" else "workerpoh-fuzz")
      + ": FINDING campaign=" + CampaignIn(last) + " semantics=detector  ·  ×" + Decimal(n) + " detector findings collapsed"
  }

  const WORKER := Rules(ClassOf, NextStatus, RenderHtml, RenderCuda, RenderFinding)

  /** sanitizeWorkerLogLines. */
  method SanitizeWorkerLogLines(lines: seq<string>) returns (out: seq<string>)
    ensures out == Summaries(WORKER, lines)
  {
    out := Sanitize(WORKER, lines);
  }

  lemma WorkerVerbatim()
    ensures Verbatim(WORKER)
  {}

  // ---------------------------------------------------------------- what makes a line read as HTML

  /** The text of an HTML error page, or a claim that failed with one. */
  predicate PageText(low: string) {
    Contains(low, "<html") && (Contains(low, "502") || Contains(low, "bad gateway") || Contains(low, "claim:"))
  }

  predicate TagFirst(low: string) {
    (exists i :: 0 <= i < |JUNK_PREFIXES| && HasPrefix(low, JUNK_PREFIXES[i])) || low == "</html>"
  }

  lemma PageTextTrimmed(s: string)
    ensures PageText(Lower(Trim(s))) <==> PageText(Lower(s))
  {
    ContainsTrimmed(s, "<html");
    ContainsTrimmed(s, "502");
    ContainsTrimmed(s, "bad gateway");
    ContainsTrimmed(s, "claim:");
  }

  lemma PageTextNotEmpty(low: string)
    requires Contains(low, "<html")
    ensures low != ""
  {}

  /** The HTML class, without the second test of the program, which the first one covers. */
  lemma HtmlIff(s: string)
    ensures ClassOf(s) == Html <==> TagFirst(Lower(Trim(s))) || PageText(Lower(s))
  {
    PageTextTrimmed(s);
    TagsNotEmpty();
    if PageText(Lower(s)) {
      PageTextNotEmpty(Lower(Trim(s)));
    }
  }

  lemma TagsNotEmpty()
    ensures forall i :: 0 <= i < |JUNK_PREFIXES| ==> 0 < |JUNK_PREFIXES[i]| <= 9 && JUNK_PREFIXES[i][0] == '<'
    ensures !TagFirst("")
  {}

  /** HTML lines have a tag bracket. */
  lemma HtmlHasBracket(s: string)
    requires ClassOf(s) == Html
    ensures Contains(Lower(s), "<")
  {
    HtmlIff(s);
    TagsNotEmpty();
    if TagFirst(Lower(Trim(s))) {
      var low := Lower(Trim(s));
      assert low != "" && low[0] == '<';
      assert low[0..0 + 1] == "<" && OccursAt(low, "<", 0);
      ContainsTrimmed(s, "<");
    } else {
      BracketIn(Lower(s), "<html");
    }
  }

  lemma BracketIn(s: string, t: string)
    requires Contains(s, t) && t != "" && t[0] == '<'
    ensures Contains(s, "<")
  {
    var i: nat :| i <= |s| && OccursAt(s, t, i);
    OccursChar(s, t, i, 0);
    assert s[i..i + 1] == "<" && OccursAt(s, "<", i);
  }

  lemma CudaIff(s: string)
    ensures IsCuda(s) <==> Contains(Lower(s), "cuda search")
  {
    var low := Lower(s);
    if Contains(low, "gpupoh: cuda search") {
      var i: nat :| i <= |low| && OccursAt(low, "gpupoh: cuda search", i);
      assert "gpupoh: cuda search"[8..19] == "cuda search";
      assert low[i + 8..i + 19] == low[i..i + 19][8..19];
      OccursIn(low, "cuda search", i + 8);
    }
  }

  // ---------------------------------------------------------------- HTML summaries never stand still

  /** A status line without a title has no bracket. */
  lemma StatusHasNoBracket(code: string)
    requires forall c :: c in code ==> '0' <= c <= '9'
    ensures '<' !in "workerfuzz: claim: HTTP " + code && '<' !in "workerfuzz: claim: HTTP " + code + " Bad Gateway"
  {}

  lemma CodeIsDigits(s: string)
    ensures forall c :: c in HttpStatusToken(s) ==> '0' <= c <= '9'
  {
    assert forall t: string, c :: c in ThreeDigits(t) ==> '0' <= c <= '9';
  }

  /** No bracket means no bracket in lower case either. */
  lemma LowerBracket(s: string)
    requires '<' !in s
    ensures '<' !in Lower(s)
  {
    forall i | 0 <= i < |s| ensures Lower(s)[i] != '<' {
      assert s[i] in s;
    }
  }

  /** A title ends before the first closing tag, so it holds none. */
  lemma TitleHasNoTag(s: string)
    requires HtmlTitle(s) != ""
    ensures !Contains(Lower(HtmlTitle(s)), "</title>") && Contains(Lower(s), "</title>")
  {
    var i := Index(Lower(s), "<title>");
    var rest := s[i + 7..];
    var j := Index(Lower(rest), "</title>");
    OccursIn(Lower(rest), "</title>", j);
    RestHas(s, i + 7, "</title>");
    NoEarlierTag(rest, j);
    ContainsTrimmed(rest[..j], "</title>");
  }

  lemma RestHas(s: string, i: nat, t: string)
    requires i <= |s| && Contains(Lower(s[i..]), t)
    ensures Contains(Lower(s), t)
  {
    assert s == s[..i] + s[i..];
    LowerConcat(s[..i], s[i..]);
    ContainsRight(Lower(s[..i]), Lower(s[i..]), t);
  }

  lemma NoEarlierTag(rest: string, j: nat)
    requires j <= |rest| && forall k: nat :: k < j ==> !OccursAt(Lower(rest), "</title>", k)
    ensures !Contains(Lower(rest[..j]), "</title>")
  {
    assert rest == rest[..j] + rest[j..];
    LowerConcat(rest[..j], rest[j..]);
    forall k: nat | k <= j ensures !OccursAt(Lower(rest[..j]), "</title>", k) {
      if OccursAt(Lower(rest[..j]), "</title>", k) {
        OccursInFront(Lower(rest[..j]), "</title>", Lower(rest[j..]), k);
      }
    }
  }

  /** A bracket-free prefix before a title that holds no closing tag. */
  lemma NoTagAfter(prefix: string, title: string)
    requires '<' !in prefix && !Contains(Lower(title), "</title>")
    ensures !Contains(Lower(prefix + title), "</title>")
  {
    LowerConcat(prefix, title);
    LowerBracket(prefix);
    NotStartingIn(Lower(prefix), Lower(title), "</title>");
  }

  /** What an HTML line renders to has no bracket, or no closing title tag though the line has one. */
  lemma RenderedStatus(s: string)
    ensures var y := RenderHtml(NextStatus("", s), 1);
            '<' !in y || (HtmlTitle(s) != "" && !Contains(Lower(y), "</title>"))
  {
    var code, title := HttpStatusToken(s), HtmlTitle(s);
    CodeIsDigits(s);
    StatusHasNoBracket(code);
    if title != "" {
      TitleHasNoTag(s);
      NoTagAfter("workerfuzz: claim: ", title);
      NoTagAfter("workerfuzz: claim: HTTP " + code + " ", title);
    }
  }

  lemma HtmlNeverStandsStill(s: string)
    requires ClassOf(s) == Html
    ensures RenderHtml(NextStatus("", s), 1) != s
  {
    RenderedStatus(s);
    HtmlHasBracket(s);
    if HtmlTitle(s) != "" {
      TitleHasNoTag(s);
    }
    if '<' !in s {
      LowerBracket(s);
      LacksChar(Lower(s), "<", 0);
    }
  }

  // ---------------------------------------------------------------- what a summary adds to its line

  /** Letters of the fixed parts of summaries: lower case, and none that the texts of a page need. */
  predicate Quiet(c: char) {
    LowerChar(c) == c && c != '<' && !('0' <= c <= '9') && c != 'y' && c != ':' && c != 'h'
  }

  predicate AllQuiet(s: string) { forall i :: 0 <= i < |s| ==> Quiet(s[i]) }

  lemma QuietText(s: string)
    requires AllQuiet(s)
    ensures Lower(s) == s
    ensures forall c :: c in s ==> Quiet(c)
  {
    LowerFixed(s);
  }

  lemma CodeLetters()
    ensures forall c :: c in "502" ==> '0' <= c <= '9'
  {}

  predicate AllDigits(d: string) { forall c :: c in d ==> '0' <= c <= '9' }

  lemma DigitsText(d: string)
    requires AllDigits(d)
    ensures Lower(d) == d
  {
    assert forall i :: 0 <= i < |d| ==> d[i] in d;
    LowerFixed(d);
  }

  /** The four texts in a line that is followed by a mark, a count and a tail. */
  lemma AfterCode(low: string, mark: string, d: string, tail: string)
    requires AllQuiet(mark) && AllQuiet(tail) && mark != "" && tail != ""
    ensures Contains(low + mark + d + tail, "502") <==> Contains(low, "502") || Contains(d, "502")
  {
    CodeLetters();
    QuietText(mark);
    QuietText(tail);
    assert low + mark + d + tail == low + mark + (d + tail);
    NotAcross(low, mark, d + tail, "502");
    assert d + tail == d + tail + "";
    NotAcross(d, tail, "", "502");
  }

  lemma RestLacks(rest: string, d: string, tail: string, c: char)
    requires AllQuiet(rest) && AllDigits(d) && AllQuiet(tail) && !Quiet(c) && !('0' <= c <= '9')
    ensures c !in rest + d + tail
  {
    QuietText(rest);
    QuietText(tail);
  }

  lemma AfterTag(low: string, rest: string, d: string, tail: string)
    requires AllQuiet(rest) && AllDigits(d) && AllQuiet(tail)
    ensures Contains(low + " " + (rest + d + tail), "<html") <==> Contains(low, "<html")
  {
    RestLacks(rest, d, tail, '<');
    LacksChar(rest + d + tail, "<html", 0);
    NotAcross(low, " ", rest + d + tail, "<html");
  }

  lemma AfterWords(low: string, mark: string, d: string, tail: string)
    requires AllQuiet(mark) && AllDigits(d) && AllQuiet(tail)
    ensures Contains(low + (mark + d + tail), "bad gateway") <==> Contains(low, "bad gateway")
    ensures Contains(low + (mark + d + tail), "claim:") <==> Contains(low, "claim:")
  {
    RestLacks(mark, d, tail, 'y');
    RestLacks(mark, d, tail, ':');
    NotEndingIn(low, mark + d + tail, "bad gateway");
    NotEndingIn(low, mark + d + tail, "claim:");
  }

  /** A line without the text of a page gets it from a summary's addition exactly when it has the tag
      and the count has the code. */
  lemma AfterPage(low: string, rest: string, d: string, tail: string)
    requires AllQuiet(rest) && AllDigits(d) && AllQuiet(tail) && tail != ""
    requires !PageText(low)
    ensures PageText(low + " " + rest + d + tail) <==> Contains(low, "<html") && Contains(d, "502")
  {
    var mark := " " + rest;
    assert AllQuiet(mark);
    assert low + " " + rest + d + tail == low + mark + d + tail
        == low + (mark + d + tail) == low + " " + (rest + d + tail);
    AfterTag(low, rest, d, tail);
    AfterCode(low, mark, d, tail);
    AfterWords(low, mark, d, tail);
  }

  // ---------------------------------------------------------------- CUDA summaries

  const CUDA_MARK := " ·  ×"
  const CUDA_TAIL := " cuda samples collapsed"

  lemma CudaParts()
    ensures AllQuiet(CUDA_MARK) && AllQuiet(CUDA_TAIL)
  {}

  function CudaMany(x: string, n: nat): string { x + " " + CUDA_MARK + Decimal(n) + CUDA_TAIL }

  lemma CudaManyRendered(x: string, n: nat)
    requires n > 1
    ensures RenderCuda(x, n) == CudaMany(x, n)
  {
    assert "  ·  ×" == " " + CUDA_MARK;
    assert x + "  ·  ×" == x + " " + CUDA_MARK;
  }

  /** A line with a mark, a count and a tail behind it, in lower case. */
  lemma MarkedLower(h: string, rest: string, d: string, tail: string)
    requires AllQuiet(rest) && AllDigits(d) && AllQuiet(tail)
    ensures Lower(h + " " + rest + d + tail) == Lower(h) + " " + rest + d + tail
  {
    QuietText(rest);
    QuietText(tail);
    DigitsText(d);
    LowerFixed(" ");
    LowerParts(h, " ", rest, d, tail);
  }

  lemma LowerParts(a: string, b: string, c: string, d: string, e: string)
    ensures Lower(a + b + c + d + e) == Lower(a) + Lower(b) + Lower(c) + Lower(d) + Lower(e)
  {
    LowerConcat(a + b + c + d, e);
    LowerConcat(a + b + c, d);
    LowerConcat(a + b, c);
    LowerConcat(a, b);
  }

  lemma CudaManyLower(x: string, n: nat)
    ensures Lower(CudaMany(x, n)) == Lower(x) + " " + CUDA_MARK + Decimal(n) + CUDA_TAIL
  {
    CudaParts();
    DecimalDigits(n);
    MarkedLower(x, CUDA_MARK, Decimal(n), CUDA_TAIL);
  }

  lemma CudaManyPage(x: string, n: nat)
    requires !PageText(Lower(x))
    ensures PageText(Lower(CudaMany(x, n))) <==> Contains(Lower(x), "<html") && Contains(Decimal(n), "502")
  {
    CudaManyLower(x, n);
    CudaParts();
    DecimalDigits(n);
    AfterPage(Lower(x), CUDA_MARK, Decimal(n), CUDA_TAIL);
  }

  lemma CudaManyIsCuda(x: string, n: nat)
    requires IsCuda(x)
    ensures IsCuda(CudaMany(x, n))
  {
    CudaIff(x);
    CudaIff(CudaMany(x, n));
    CudaManyLower(x, n);
    ContainsLeft(Lower(x), " ", "cuda search");
    ContainsLeft(Lower(x) + " ", CUDA_MARK, "cuda search");
    ContainsLeft(Lower(x) + " " + CUDA_MARK, Decimal(n), "cuda search");
    ContainsLeft(Lower(x) + " " + CUDA_MARK + Decimal(n), CUDA_TAIL, "cuda search");
  }

  /** Trimming a line that goes on behind a long text keeps the text's front. */
  lemma TrimFront(x: string, tail: string)
    requires Trim(x) != "" && tail != "" && !IsSpace(tail[|tail| - 1])
    ensures Trim(x) <= Trim(x + tail)
  {
    var l, r := TrimParts(x);
    TrimLeftOnly(l, Trim(x) + r + tail);
    assert x + tail == l + (Trim(x) + r + tail);
    TrimStarts(x);
    assert TrimLeft(x + tail) == Trim(x) + r + tail;
  }

  lemma {:induction false} TrimLeftOnly(l: string, s: string)
    requires AllSpace(l)
    ensures TrimLeft(l + s) == TrimLeft(s)
  {
    if l != "" {
      assert l[0] in l;
      TrimLeftOnly(l[1..], s);
      assert (l + s)[1..] == l[1..] + s;
    } else {
      assert l + s == s;
    }
  }

  lemma TrimStarts(x: string)
    requires Trim(x) != ""
    ensures !IsSpace(Trim(x)[0])
  {
    TrimLeftStarts(x);
    TrimRightPrefix(TrimLeft(x));
  }

  lemma {:induction false} TrimLeftStarts(x: string)
    ensures TrimLeft(x) != "" ==> !IsSpace(TrimLeft(x)[0])
  {
    if x != "" && IsSpace(x[0]) {
      TrimLeftStarts(x[1..]);
    }
  }

  lemma {:induction false} TrimRightPrefix(x: string)
    ensures TrimRight(x) <= x
  {
    if x != "" && IsSpace(x[|x| - 1]) {
      TrimRightPrefix(x[..|x| - 1]);
    }
  }

  lemma LowerPrefix(a: string, b: string)
    requires a <= b
    ensures Lower(a) <= Lower(b)
  {
    assert b == a + b[|a|..];
    LowerConcat(a, b[|a|..]);
  }

  /** A text that goes on a line of ten letters or more starts with a tag only if the line does. */
  lemma TagFirstInFront(a: string, b: string)
    requires a <= b && |a| >= 10
    ensures TagFirst(b) <==> TagFirst(a)
  {
    TagsNotEmpty();
    forall i | 0 <= i < |JUNK_PREFIXES| ensures HasPrefix(b, JUNK_PREFIXES[i]) <==> HasPrefix(a, JUNK_PREFIXES[i]) {
      assert b[..|JUNK_PREFIXES[i]|] == a[..|JUNK_PREFIXES[i]|];
    }
  }

  lemma LongEnough(s: string, t: string)
    requires Contains(s, t)
    ensures |s| >= |t|
  {}

  lemma CudaManyTagFirst(x: string, n: nat)
    requires IsCuda(x) && !TagFirst(Lower(Trim(x)))
    ensures !TagFirst(Lower(Trim(CudaMany(x, n))))
  {
    CudaIff(x);
    ContainsTrimmed(x, "cuda search");
    LongEnough(Lower(Trim(x)), "cuda search");
    var tail := " " + CUDA_MARK + Decimal(n) + CUDA_TAIL;
    assert CudaMany(x, n) == x + tail && tail[|tail| - 1] == 'd';
    TrimFront(x, tail);
    LowerPrefix(Trim(x), Trim(CudaMany(x, n)));
    TagFirstInFront(Lower(Trim(x)), Lower(Trim(CudaMany(x, n))));
  }

  /** The class of a line that is of the CUDA kind and starts with no tag. */
  lemma CudaClass(y: string)
    requires IsCuda(y) && !TagFirst(Lower(Trim(y)))
    ensures ClassOf(y) == if PageText(Lower(y)) then Html else Cuda
  {
    HtmlIff(y);
  }

  /** The class of a CUDA summary, exactly. */
  lemma CudaSummaryClass(x: string, n: nat)
    requires ClassOf(x) == Cuda && n > 0
    ensures ClassOf(RenderCuda(x, n)) ==
              if n > 1 && Contains(Lower(x), "<html") && Contains(Decimal(n), "502") then Html else Cuda
  {
    if n > 1 {
      HtmlIff(x);
      CudaManyRendered(x, n);
      CudaManyPage(x, n);
      CudaManyTagFirst(x, n);
      CudaManyIsCuda(x, n);
      CudaClass(CudaMany(x, n));
    }
  }

  // ---------------------------------------------------------------- finding summaries

  const FIND_MARK := "semantics=detector  ·  ×"
  const FIND_TAIL := " detector findings collapsed"

  lemma FindParts()
    ensures AllQuiet(FIND_MARK) && AllQuiet(FIND_TAIL)
  {}

  /** The worker's name in a finding summary. */
  function FinderOf(x: string): string { if HasPrefix(x, "workerfuzz:") then "workerfuzz" else "workerpoh-fuzz" }

  function FindHead(x: string): string { FinderOf(x) + ": FINDING campaign" }

  function FindMany(x: string, n: nat): string {
    FindFront(x) + " " + FIND_MARK + Decimal(n) + FIND_TAIL
  }

  lemma FindManyRendered(x: string, n: nat)
    requires n > 1
    ensures RenderFinding(x, n) == FindMany(x, n)
  {
    assert ": FINDING campaign=" == ": FINDING campaign" + "=";
    assert " semantics=detector  ·  ×" == " " + FIND_MARK;
    assert FinderOf(x) + ": FINDING campaign=" == FindHead(x) + "=";
    assert FindHead(x) + "=" + CampaignIn(x) + " semantics=detector  ·  ×" == FindHead(x) + "=" + CampaignIn(x) + " " + FIND_MARK;
  }

  /** The head of a finding summary holds none of the texts that make a class. */
  predicate Inert(s: string) { '<' !in s && '5' !in s && 'y' !in s && 'l' !in s && 's' !in s }

  predicate InertChar(c: char) { c != '<' && c != '5' && c != 'y' && c != 'l' && c != 's' && c != 'Y' && c != 'L' && c != 'S' }

  predicate AllInert(s: string) { forall i :: 0 <= i < |s| ==> InertChar(s[i]) }

  lemma InertLower(s: string)
    requires AllInert(s)
    ensures Inert(Lower(s))
  {
    forall i | 0 <= i < |s| ensures InertChar(Lower(s)[i]) {
    }
  }

  lemma FinderParts()
    ensures AllInert("workerfuzz") && AllInert("workerpoh-fuzz") && AllInert(": FINDING campaign") && AllInert("campaign")
  {}

  lemma InertConcat(a: string, b: string)
    requires AllInert(a) && AllInert(b)
    ensures AllInert(a + b)
  {}

  lemma HeadIsInert(x: string)
    ensures Inert(Lower(FindHead(x))) && FindHead(x)[0] == 'w'
  {
    FinderParts();
    InertConcat(FinderOf(x), ": FINDING campaign");
    InertLower(FindHead(x));
    assert FinderOf(x)[0] == 'w';
  }

  lemma InertLacks(s: string)
    requires Inert(s)
    ensures !Contains(s, "<html") && !Contains(s, "502") && !Contains(s, "bad gateway") && !Contains(s, "claim:")
    ensures !Contains(s, "cuda search")
  {
    LacksChar(s, "<html", 0);
    LacksChar(s, "502", 0);
    LacksChar(s, "bad gateway", 10);
    LacksChar(s, "claim:", 1);
    LacksChar(s, "cuda search", 5);
  }

  /** Nor does anything straddle the equals sign behind it. */
  lemma BehindHead(head: string, low: string)
    requires Inert(head)
    ensures Contains(head + "=" + low, "<html") <==> Contains(low, "<html")
    ensures Contains(head + "=" + low, "502") <==> Contains(low, "502")
    ensures Contains(head + "=" + low, "bad gateway") <==> Contains(low, "bad gateway")
    ensures Contains(head + "=" + low, "claim:") <==> Contains(low, "claim:")
    ensures Contains(head + "=" + low, "cuda search") <==> Contains(low, "cuda search")
  {
    InertLacks(head);
    NotAcross(head, "=", low, "<html");
    NotAcross(head, "=", low, "502");
    NotAcross(head, "=", low, "bad gateway");
    NotAcross(head, "=", low, "claim:");
    NotAcross(head, "=", low, "cuda search");
  }

  lemma CutAtSpace(rest: string) returns (r: string)
    ensures var j := Index(rest, " "); rest == (if j > 0 then rest[..j] else rest) + r
  {
    var j := Index(rest, " ");
    r := if j > 0 then rest[j..] else "";
  }

  /** The campaign named in a line is part of the line, or the default. */
  lemma CampaignPart(x: string) returns (l: string, r: string)
    ensures x == l + (CampaignIn(x) + r) || CampaignIn(x) == "campaign"
  {
    var i := Index(x, "campaign=");
    l, r := "", "";
    if i >= 0 {
      r := CutAtSpace(x[i + 9..]);
      l := x[..i + 9];
      assert x == l + x[i + 9..];
    }
  }

  lemma CampaignHas(x: string, t: string)
    requires Contains(Lower(CampaignIn(x)), t) && !Contains(Lower("campaign"), t)
    ensures Contains(Lower(x), t)
  {
    var l, r := CampaignPart(x);
    if CampaignIn(x) != "campaign" {
      LowerConcat(l, CampaignIn(x) + r);
      LowerConcat(CampaignIn(x), r);
      ContainsLeft(Lower(CampaignIn(x)), Lower(r), t);
      ContainsRight(Lower(l), Lower(CampaignIn(x) + r), t);
    }
  }

  lemma DefaultLacks()
    ensures var low := Lower("campaign");
            && !Contains(low, "<html") && !Contains(low, "502") && !Contains(low, "bad gateway") && !Contains(low, "claim:")
            && !Contains(low, "cuda search")
  {
    FinderParts();
    InertLower("campaign");
    InertLacks(Lower("campaign"));
  }

  /** So a campaign name has no text of a page, nor of a CUDA line, that its line lacks. */
  lemma CampaignHarmless(x: string)
    requires !PageText(Lower(x)) && !Contains(Lower(x), "cuda search")
    ensures !PageText(Lower(CampaignIn(x))) && !Contains(Lower(CampaignIn(x)), "cuda search")
  {
    var low := Lower(CampaignIn(x));
    DefaultLacks();
    if Contains(low, "<html") { CampaignHas(x, "<html"); }
    if Contains(low, "502") { CampaignHas(x, "502"); }
    if Contains(low, "bad gateway") { CampaignHas(x, "bad gateway"); }
    if Contains(low, "claim:") { CampaignHas(x, "claim:"); }
    if Contains(low, "cuda search") { CampaignHas(x, "cuda search"); }
  }

  /** The part of a finding summary before its mark. */
  function FindFront(x: string): string { FindHead(x) + "=" + CampaignIn(x) }

  lemma FindFrontLower(x: string)
    ensures Lower(FindFront(x)) == Lower(FindHead(x)) + "=" + Lower(CampaignIn(x))
  {
    LowerFixed("=");
    LowerConcat(FindHead(x) + "=", CampaignIn(x));
    LowerConcat(FindHead(x), "=");
  }

  lemma FindManyLower(x: string, n: nat)
    ensures Lower(FindMany(x, n)) == Lower(FindFront(x)) + " " + FIND_MARK + Decimal(n) + FIND_TAIL
  {
    FindParts();
    DecimalDigits(n);
    MarkedLower(FindFront(x), FIND_MARK, Decimal(n), FIND_TAIL);
  }

  /** The front holds of the texts only what the campaign's name holds. */
  lemma FindFrontHas(x: string)
    ensures Contains(Lower(FindFront(x)), "<html") <==> Contains(Lower(CampaignIn(x)), "<html")
    ensures PageText(Lower(FindFront(x))) <==> PageText(Lower(CampaignIn(x)))
    ensures Contains(Lower(FindFront(x)), "cuda search") <==> Contains(Lower(CampaignIn(x)), "cuda search")
  {
    FindFrontLower(x);
    HeadIsInert(x);
    BehindHead(Lower(FindHead(x)), Lower(CampaignIn(x)));
  }

  lemma FindManyPage(x: string, n: nat)
    requires !PageText(Lower(x)) && !Contains(Lower(x), "cuda search")
    ensures PageText(Lower(FindMany(x, n))) <==> Contains(Lower(CampaignIn(x)), "<html") && Contains(Decimal(n), "502")
  {
    FindManyLower(x, n);
    CampaignHarmless(x);
    FindFrontHas(x);
    FindParts();
    DecimalDigits(n);
    AfterPage(Lower(FindFront(x)), FIND_MARK, Decimal(n), FIND_TAIL);
  }

  lemma AfterSearch(low: string, rest: string, d: string, tail: string)
    requires AllQuiet(rest) && AllDigits(d) && AllQuiet(tail)
    ensures Contains(low + " " + rest + d + tail, "cuda search") <==> Contains(low, "cuda search")
  {
    var mark := " " + rest;
    assert AllQuiet(mark);
    RestLacks(mark, d, tail, 'h');
    assert low + " " + rest + d + tail == low + (mark + d + tail);
    NotEndingIn(low, mark + d + tail, "cuda search");
  }

  lemma FindManyNotCuda(x: string, n: nat)
    requires !PageText(Lower(x)) && !IsCuda(x)
    ensures !IsCuda(FindMany(x, n))
  {
    CudaIff(x);
    CudaIff(FindMany(x, n));
    CampaignHarmless(x);
    FindFrontHas(x);
    FindManyLower(x, n);
    FindParts();
    DecimalDigits(n);
    AfterSearch(Lower(FindFront(x)), FIND_MARK, Decimal(n), FIND_TAIL);
  }

  lemma FindManyTagFirst(x: string, n: nat)
    ensures !TagFirst(Lower(Trim(FindMany(x, n))))
  {
    HeadIsInert(x);
    var y := FindMany(x, n);
    assert y[0] == 'w';
    TrimKeepsFirst(y);
    TagsNotEmpty();
  }

  lemma TrimKeepsFirst(y: string)
    requires y != "" && !IsSpace(y[0])
    ensures Trim(y) != "" && Trim(y)[0] == y[0]
  {
    TrimRightKeepsFirst(y);
  }

  lemma {:induction false} TrimRightKeepsFirst(y: string)
    requires y != "" && !IsSpace(y[0])
    ensures TrimRight(y) != "" && TrimRight(y)[0] == y[0]
  {
    if IsSpace(y[|y| - 1]) {
      TrimRightKeepsFirst(y[..|y| - 1]);
    }
  }

  /** What the head of a summary says or starts with, the summary says and starts with. */
  lemma FindManyKeepsHead(x: string, n: nat, p: string, t: string)
    requires HasPrefix(FindHead(x), p) && Contains(FindHead(x), t)
    ensures HasPrefix(FindMany(x, n), p) && Contains(FindMany(x, n), t)
  {
    var a := FindHead(x) + "=";
    var b := a + CampaignIn(x) + " ";
    var c := b + FIND_MARK;
    KeepBoth(FindHead(x), "=", p, t);
    KeepBoth(a, CampaignIn(x), p, t);
    KeepBoth(a + CampaignIn(x), " ", p, t);
    KeepBoth(b, FIND_MARK, p, t);
    KeepBoth(c, Decimal(n), p, t);
    KeepBoth(c + Decimal(n), FIND_TAIL, p, t);
  }

  lemma KeepBoth(a: string, b: string, p: string, t: string)
    requires HasPrefix(a, p) && Contains(a, t)
    ensures HasPrefix(a + b, p) && Contains(a + b, t)
  {
    ContainsLeft(a, b, t);
  }

  lemma FindManyMarks(x: string, n: nat)
    ensures Contains(FindMany(x, n), "semantics=detector")
  {
    MarkHas();
    var front := FindFront(x) + " ";
    ContainsRight(front, FIND_MARK, "semantics=detector");
    ContainsLeft(front + FIND_MARK, Decimal(n), "semantics=detector");
    ContainsLeft(front + FIND_MARK + Decimal(n), FIND_TAIL, "semantics=detector");
  }

  lemma HeadStarts(x: string)
    ensures HasPrefix(FindHead(x), FinderOf(x) + ":")
  {
    assert FindHead(x)[..|FinderOf(x)| + 1] == FinderOf(x) + ":";
  }

  lemma FinderNames(x: string)
    ensures FinderOf(x) + ":" == "workerfuzz:" || FinderOf(x) + ":" == "workerpoh-fuzz:"
  {}

  lemma FindManyIsFinding(x: string, n: nat)
    ensures IsDetectorFinding(FindMany(x, n))
  {
    FindHeadHas(x);
    HeadStarts(x);
    FindManyKeepsHead(x, n, FinderOf(x) + ":", "FINDING");
    FindManyMarks(x, n);
    FinderNames(x);
  }

  lemma FindHeadHas(x: string)
    ensures Contains(FindHead(x), "FINDING")
  {
    OccursMiddle(": ", "FINDING", " campaign");
    assert ": " + "FINDING" + " campaign" == ": FINDING campaign";
    OccursIn(": FINDING campaign", "FINDING", 2);
    ContainsRight(FinderOf(x), ": FINDING campaign", "FINDING");
  }

  lemma MarkHas()
    ensures Contains(FIND_MARK, "semantics=detector")
  {
    OccursMiddle("", "semantics=detector", "  ·  ×");
    assert "" + "semantics=detector" + "  ·  ×" == FIND_MARK;
    OccursIn(FIND_MARK, "semantics=detector", 0);
  }

  /** The class of a finding line that starts with no tag and is none of the CUDA kind. */
  lemma FindingClass(y: string)
    requires IsDetectorFinding(y) && !IsCuda(y) && !TagFirst(Lower(Trim(y)))
    ensures ClassOf(y) == if PageText(Lower(y)) then Html else Finding
  {
    HtmlIff(y);
  }

  /** The class of a finding summary, exactly. */
  lemma FindingSummaryClass(x: string, n: nat)
    requires ClassOf(x) == Finding && n > 0
    ensures ClassOf(RenderFinding(x, n)) ==
              if n > 1 && Contains(Lower(CampaignIn(x)), "<html") && Contains(Decimal(n), "502") then Html else Finding
  {
    if n > 1 {
      HtmlIff(x);
      CudaIff(x);
      FindManyRendered(x, n);
      FindManyPage(x, n);
      FindManyTagFirst(x, n);
      FindManyNotCuda(x, n);
      FindManyIsFinding(x, n);
      FindingClass(FindMany(x, n));
    }
  }

  // ---------------------------------------------------------------- sanitizing twice

  lemma WorkerRestless()
    ensures Restless(WORKER)
  {
    WorkerVerbatim();
    forall x | ClassOf(x) == Html ensures RenderHtml(NextStatus("", x), 1) != x {
      HtmlNeverStandsStill(x);
    }
    forall x, n: nat | n > 0 && ClassOf(x) == Cuda
      ensures ClassOf(RenderCuda(x, n)) == Cuda || ClassOf(RenderCuda(x, n)) == Html
    {
      CudaSummaryClass(x, n);
    }
    forall x, n: nat | n > 0 && ClassOf(x) == Finding
      ensures ClassOf(RenderFinding(x, n)) == Finding || ClassOf(RenderFinding(x, n)) == Html
    {
      FindingSummaryClass(x, n);
    }
  }

  /** The tag in what a CUDA or finding summary keeps of a line. */
  predicate KeepsTag(x: string) {
    Contains(Lower(if ClassOf(x) == Finding then CampaignIn(x) else x), "<html")
  }

  /** A run of this length that ends with this line collapses to a line that reads as an HTML page: what
      is kept of the line has the tag, and the length printed behind it has the code. */
  predicate Spoiled(x: string, n: nat) { n > 1 && KeepsTag(x) && Contains(Decimal(n), "502") }

  lemma WorkerSpoiledBy()
    ensures SpoiledBy(WORKER, Spoiled)
  {
    forall x, n: nat | n > 0 && ClassOf(x) == Cuda
      ensures ClassOf(RenderCuda(x, n)) == if Spoiled(x, n) then Html else Cuda
    {
      CudaSummaryClass(x, n);
    }
    forall x, n: nat | n > 0 && ClassOf(x) == Finding
      ensures ClassOf(RenderFinding(x, n)) == if Spoiled(x, n) then Html else Finding
    {
      FindingSummaryClass(x, n);
    }
  }

  /** Sanitizing twice is sanitizing once exactly when every run of the input settles. */
  lemma SanitizeTwiceIff(lines: seq<string>)
    ensures Summaries(WORKER, Summaries(WORKER, lines)) == Summaries(WORKER, lines) <==>
              forall a: nat, b: nat :: IsRun(WORKER, lines, a, b) ==> SettlesOnce(WORKER, Spoiled, lines, a, b)
  {
    WorkerRestless();
    WorkerSpoiledBy();
    TwiceIffSettles(WORKER, Spoiled, lines);
  }

  lemma Decimal502()
    ensures Decimal(502) == "502"
  {
    assert Decimal(5) == "5" && Decimal(50) == "50";
  }

  /** No count below 502 has the code in it. */
  lemma ShortCounts(n: nat)
    requires n < 502
    ensures !Contains(Decimal(n), "502")
  {
    var d := Decimal(n);
    DecimalDigits(n);
    Decimal502();
    forall i: nat | i <= |d| ensures !OccursAt(d, "502", i) {
      if OccursAt(d, "502", i) {
        assert i == 0 && d == d[0..0 + 3];
        DecimalInjective(n, 502);
      }
    }
  }

  /** Logs of fewer than 502 lines (the program's callers pass 120 and 40 at most): sanitizing twice is
      sanitizing once when the summaries of HTML runs read as plain lines. */
  lemma ShortLogsOnce(lines: seq<string>)
    requires |lines| < 502 && HtmlReadsPlain(WORKER, lines)
    ensures Summaries(WORKER, Summaries(WORKER, lines)) == Summaries(WORKER, lines)
  {
    WorkerRestless();
    WorkerSpoiledBy();
    forall x, n: nat | 0 < n <= |lines| ensures !Spoiled(x, n) {
      ShortCounts(n);
    }
    OnceWhenHtmlPlain(WORKER, Spoiled, lines);
  }

  /** A burst that does not settle: 502 CUDA lines that mention the tag. No caller passes so many. */
  lemma LongBurstChanges(x: string, lines: seq<string>)
    requires ClassOf(x) == Cuda && Contains(Lower(x), "<html")
    requires |lines| == 502 && forall i :: 0 <= i < |lines| ==> lines[i] == x
    ensures Summaries(WORKER, Summaries(WORKER, lines)) != Summaries(WORKER, lines)
  {
    SanitizeTwiceIff(lines);
    Decimal502();
    assert lines[0] == x && lines[501] == x;
    assert IsRun(WORKER, lines, 0, 502);
    assert OccursAt(Decimal(502), "502", 0);
    assert Spoiled(x, 502);
    assert !SettlesOnce(WORKER, Spoiled, lines, 0, 502);
  }

  predicate AllHarmless(s: string) { forall i :: 0 <= i < |s| ==> LowerChar(s[i]) == s[i] && s[i] != '5' && s[i] != 'y' && s[i] != ':' }

  lemma SampleParts()
    ensures AllHarmless("cuda search") && AllHarmless(" ") && AllHarmless("<html")
  {}

  lemma HarmlessLine(x: string)
    requires AllHarmless(x) && HasPrefix(x, "cuda search")
    ensures ClassOf(x) == Cuda && Lower(x) == x
  {
    LowerFixed(x);
    assert x[0] == "cuda search"[0] == 'c';
    assert x[0..0 + |"cuda search"|] == "cuda search";
    OccursIn(x, "cuda search", 0);
    TrimKeepsFirst(x);
    TagsNotEmpty();
    LacksChar(x, "502", 0);
    LacksChar(x, "bad gateway", 10);
    LacksChar(x, "claim:", 5);
    CudaClass(x);
  }

  /** Such a line exists. */
  lemma BurstLineExists() returns (x: string)
    ensures ClassOf(x) == Cuda && Contains(Lower(x), "<html")
  {
    SampleParts();
    x := "cuda search" + " " + "<html";
    HarmlessLine(x);
    assert x + "" == x;
    OccursMiddle("cuda search" + " ", "<html", "");
    OccursIn(x, "<html", |"cuda search" + " "|);
  }
}
