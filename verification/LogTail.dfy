/** tailFileLastLines (main.go:3234-3276): the last lines of a file from its last bytes. */
module LogTail {
  import opened Text

  /** strings.ReplaceAll(s, "\r\n", "\n"). */
  function Unix(s: string): string {
    if s == "" then ""
    else if |s| >= 2 && s[0] == '\r' && s[1] == '\n' then "\n" + Unix(s[2..])
    else [s[0]] + Unix(s[1..])
  }

  /** strings.Split(s, "\n"). */
  function Split(s: string): (r: seq<string>)
    ensures r != []
  {
    if s == "" then [""]
    else
      var t := Split(s[1..]);
      if s[0] == '\n' then [""] + t else [[s[0]] + t[0]] + t[1..]
  }

  function Lines(s: string): (r: seq<string>)
    ensures r != []
  {
    Split(Unix(s))
  }

  predicate Blank(line: string) { Trim(line) == "" }

  function DropBlanks(p: seq<string>): seq<string> {
    if p != [] && Blank(p[|p| - 1]) then DropBlanks(p[..|p| - 1]) else p
  }

  function Last(p: seq<string>, n: nat): seq<string> {
    if |p| > n then p[|p| - n..] else p
  }

  predicate IsSuffix(p: seq<string>, q: seq<string>) {
    |p| <= |q| && q[|q| - |p|..] == p
  }

  function LineLimit(maxLines: int): nat { if maxLines <= 0 then 80 else maxLines }

  function ReadLimit(maxRead: int): nat { if maxRead <= 0 then 512 * 1024 else maxRead }

  /** The simple form: split the whole file, drop trailing blank lines, take the last n. */
  function SimpleTail(file: string, maxLines: int): seq<string> {
    Last(DropBlanks(Lines(file)), LineLimit(maxLines))
  }

  /** The lines of the bytes read, without the first one, which the cut may have broken. */
  function Complete(file: string, cut: nat): seq<string>
    requires cut <= |file|
  {
    Lines(file[cut..])[1..]
  }

  /** The complete lines found in the bytes read. */
  function Found(file: string, maxRead: int): seq<string> {
    var limit := ReadLimit(maxRead);
    DropBlanks(if |file| > limit then Complete(file, |file| - limit) else Lines(file))
  }

  lemma SuffixTrans(p: seq<string>, q: seq<string>, r: seq<string>)
    requires IsSuffix(p, q) && IsSuffix(q, r)
    ensures IsSuffix(p, r)
  {
    assert forall i :: 0 <= i < |p| ==> p[i] == q[|q| - |p|..][i] == q[|q| - |p| + i];
    assert forall i :: 0 <= i < |q| ==> q[i] == r[|r| - |q|..][i] == r[|r| - |q| + i];
  }

  /** A byte in front leaves the complete lines after it alone, also a CR in front of an LF. */
  lemma LinesCons(c: char, s: string)
    ensures IsSuffix(Lines(s)[1..], Lines([c] + s)[1..])
  {
    var t := [c] + s;
    assert t[1..] == s;
    if s != "" && c == '\r' && s[0] == '\n' {
      assert t[2..] == s[1..];
      assert Unix(s) == "\n" + Unix(s[1..]);
    } else {
      var u := [c] + Unix(s);
      assert Unix(t) == u && u[1..] == Unix(s);
      if c == '\n' {
        assert Lines(t)[1..] == Lines(s);
      } else {
        assert Lines(t)[1..] == Lines(s)[1..];
      }
    }
  }

  /** Cutting a file anywhere, the lines after the cut are the file's last lines. */
  lemma {:induction false} LinesAfterCut(a: string, b: string)
    ensures IsSuffix(Lines(b)[1..], Lines(a + b)[1..])
  {
    if a == "" {
      assert a + b == b;
    } else {
      LinesAfterCut(a[1..], b);
      assert [a[0]] + (a[1..] + b) == a + b;
      LinesCons(a[0], a[1..] + b);
      SuffixTrans(Lines(b)[1..], Lines(a[1..] + b)[1..], Lines(a + b)[1..]);
    }
  }

  lemma {:induction false} DropBlanksAppend(r: seq<string>, p: seq<string>)
    ensures DropBlanks(r + p) == if DropBlanks(p) == [] then DropBlanks(r) else r + DropBlanks(p)
  {
    if p == [] {
      assert r + p == r;
    } else if Blank(p[|p| - 1]) {
      assert (r + p)[..|r + p| - 1] == r + p[..|p| - 1];
      DropBlanksAppend(r, p[..|p| - 1]);
    }
  }

  lemma {:induction false} DropBlanksEmpty(p: seq<string>)
    ensures DropBlanks(p) == [] <==> forall i :: 0 <= i < |p| ==> Blank(p[i])
  {
    if p != [] && Blank(p[|p| - 1]) {
      DropBlanksEmpty(p[..|p| - 1]);
      assert forall i :: 0 <= i < |p| - 1 ==> p[..|p| - 1][i] == p[i];
    }
  }

  /** All lines of the file are the ones before the cut, at least one, then the complete ones. */
  lemma LinesAtCut(file: string, cut: nat) returns (front: seq<string>)
    requires cut <= |file|
    ensures front != [] && Lines(file) == front + Complete(file, cut)
  {
    LinesAfterCut(file[..cut], file[cut..]);
    assert file[..cut] + file[cut..] == file;
    front := FrontOf(Lines(file), Complete(file, cut));
  }

  lemma FrontOf(all: seq<string>, found: seq<string>) returns (front: seq<string>)
    requires all != [] && IsSuffix(found, all[1..])
    ensures front != [] && all == front + found
  {
    front := all[..|all| - |found|];
    var rest := all[1..];
    assert rest[|rest| - |found|..] == all[|all| - |found|..];
  }

  /** The bytes read give the end of the simple result, and all of it exactly when the file fits, or
      enough lines were found, or the whole file is blank. */
  lemma TailRefines(file: string, maxLines: int, maxRead: int)
    ensures IsSuffix(Last(Found(file, maxRead), LineLimit(maxLines)), SimpleTail(file, maxLines))
    ensures Last(Found(file, maxRead), LineLimit(maxLines)) == SimpleTail(file, maxLines) <==>
              || |file| <= ReadLimit(maxRead)
              || |Found(file, maxRead)| >= LineLimit(maxLines)
              || (forall line :: line in Lines(file) ==> Blank(line))
  {
    if |file| > ReadLimit(maxRead) {
      var n := LineLimit(maxLines);
      var found := Complete(file, |file| - ReadLimit(maxRead));
      var front := LinesAtCut(file, |file| - ReadLimit(maxRead));
      DropBlanksAppend(front, found);
      DropBlanksEmpty(Lines(file));
      DropBlanksEmpty(found);
      var part, whole := Found(file, maxRead), DropBlanks(Lines(file));
      if part != [] {
        assert whole == front + part;
        assert whole != [];
        LastOfAppend(front, part, n);
      }
    }
  }

  lemma LastOfAppend(front: seq<string>, part: seq<string>, n: nat)
    requires front != [] && part != []
    ensures IsSuffix(Last(part, n), Last(front + part, n))
    ensures Last(part, n) == Last(front + part, n) <==> |part| >= n
  {
    var w := front + part;
    if |part| >= n {
      assert w[|w| - n..] == part[|part| - n..];
    }
  }

  /** The loop that pops blank lines. */
  method PopBlanks(lines: seq<string>) returns (parts: seq<string>)
    ensures parts == DropBlanks(lines)
  {
    parts := lines;
    while |parts| > 0 && Trim(parts[|parts| - 1]) == ""
      invariant DropBlanks(parts) == DropBlanks(lines)
    {
      parts := parts[..|parts| - 1];
    }
  }

  /** The part of the file that is read, as lines. */
  method ReadEnd(file: string, limit: nat) returns (parts: seq<string>)
    ensures parts == if |file| > limit then Complete(file, |file| - limit) else Lines(file)
  {
    var start := 0;
    if |file| > limit {
      start := |file| - limit;
    }
    parts := Lines(file[start..]);
    if start > 0 && |parts| > 0 {
      parts := parts[1..];
    }
    assert start == 0 ==> file[start..] == file;
  }

  lemma EnoughLines(file: string, maxLines: int, maxRead: int)
    ensures var parts := Last(Found(file, maxRead), LineLimit(maxLines));
            && IsSuffix(parts, SimpleTail(file, maxLines))
            && (|file| <= ReadLimit(maxRead) || |parts| == LineLimit(maxLines) ==> parts == SimpleTail(file, maxLines))
  {
    TailRefines(file, maxLines, maxRead);
  }

  /** tailFileLastLines on the file's content. */
  method TailLastLines(file: string, maxLines: int, maxRead: int) returns (parts: seq<string>)
    ensures parts == Last(Found(file, maxRead), LineLimit(maxLines))
    ensures IsSuffix(parts, SimpleTail(file, maxLines))
    ensures |file| <= ReadLimit(maxRead) || |parts| == LineLimit(maxLines) ==> parts == SimpleTail(file, maxLines)
  {
    var n, limit := LineLimit(maxLines), ReadLimit(maxRead);
    var lines := ReadEnd(file, limit);
    var full := PopBlanks(lines);
    parts := full;
    if |parts| > n {
      parts := parts[|parts| - n..];
    }
    assert full == Found(file, maxRead) && parts == Last(full, n);
    EnoughLines(file, maxLines, maxRead);
  }
}
