/** Strings as the program uses them: decimal rendering, ASCII case and white space,
    prefix and substring tests. */
module Text {

  function Digit(d: nat): char
    requires d < 10
  {
    "0123456789"[d]
  }

  /** strconv.Itoa on a non-negative number. */
  function Decimal(n: nat): (s: string)
    ensures |s| >= 1
    ensures ':' !in s
  {
    if n < 10 then [Digit(n)] else Decimal(n / 10) + [Digit(n % 10)]
  }

  lemma {:induction false} DecimalInjective(a: nat, b: nat)
    requires Decimal(a) == Decimal(b)
    ensures a == b
  {
    if a >= 10 && b >= 10 {
      var x, y := Decimal(a / 10), Decimal(b / 10);
      assert x == Decimal(a)[..|Decimal(a)| - 1] == y;
      assert Digit(a % 10) == Decimal(a)[|Decimal(a)| - 1] == Digit(b % 10);
      DecimalInjective(a / 10, b / 10);
    }
  }

  predicate IsSpace(c: char) {
    c == ' ' || c == '\t' || c == '\n' || c == '\r'
  }

  function TrimLeft(s: string): string {
    if s != "" && IsSpace(s[0]) then TrimLeft(s[1..]) else s
  }

  function TrimRight(s: string): string {
    if s != "" && IsSpace(s[|s| - 1]) then TrimRight(s[..|s| - 1]) else s
  }

  /** strings.TrimSpace, restricted to ASCII white space. */
  function Trim(s: string): string {
    TrimRight(TrimLeft(s))
  }

  function LowerChar(c: char): char {
    if 'A' <= c <= 'Z' then (c as int + 32) as char else c
  }

  /** strings.ToLower, restricted to ASCII letters. */
  function Lower(s: string): (r: string)
    ensures |r| == |s|
    ensures forall i :: 0 <= i < |s| ==> r[i] == LowerChar(s[i])
  {
    if s == "" then "" else [LowerChar(s[0])] + Lower(s[1..])
  }

  predicate HasPrefix(s: string, p: string) {
    p <= s
  }

  predicate OccursAt(s: string, t: string, i: nat) {
    i + |t| <= |s| && s[i..i + |t|] == t
  }

  /** strings.Contains. */
  predicate Contains(s: string, t: string) {
    exists i: nat | i <= |s| :: OccursAt(s, t, i)
  }

  /** strings.Index: the first occurrence of t in s from i on, or -1. */
  function IndexFrom(s: string, t: string, i: nat): (k: int)
    requires i <= |s| + 1
    ensures k == -1 || (i <= k <= |s| && OccursAt(s, t, k))
    ensures forall j: nat :: i <= j && (k == -1 || j < k) ==> !OccursAt(s, t, j)
    decreases |s| + 1 - i
  {
    if i > |s| then -1 else if OccursAt(s, t, i) then i else IndexFrom(s, t, i + 1)
  }

  function Index(s: string, t: string): (k: int)
    ensures k == -1 || (0 <= k <= |s| && OccursAt(s, t, k))
    ensures forall j: nat :: k == -1 || j < k ==> !OccursAt(s, t, j)
  {
    IndexFrom(s, t, 0)
  }

  /** s does not contain t when it lacks one of t's characters. */
  lemma LacksChar(s: string, t: string, k: nat)
    requires k < |t| && t[k] !in s
    ensures !Contains(s, t)
  {
    forall i: nat | i + |t| <= |s| ensures !OccursAt(s, t, i) {
      OccursHere(s, t, k, i);
    }
  }

  lemma OccursHere(s: string, t: string, k: nat, i: nat)
    requires k < |t| && i + |t| <= |s|
    ensures OccursAt(s, t, i) ==> t[k] in s
  {
    assert s[i..i + |t|][k] == s[i + k];
  }

  lemma LowerFixed(s: string)
    requires forall i :: 0 <= i < |s| ==> LowerChar(s[i]) == s[i]
    ensures Lower(s) == s
  {}

  lemma OccursMiddle(a: string, t: string, b: string)
    ensures OccursAt(a + t + b, t, |a|)
  {}

  lemma OccursInFront(a: string, t: string, b: string, i: nat)
    requires OccursAt(a, t, i)
    ensures OccursAt(a + b, t, i)
  {
    assert (a + b)[i..i + |t|] == a[i..i + |t|];
  }

  // ---------------------------------------------------------------- where a substring can lie

  lemma OccursIn(s: string, t: string, i: nat)
    requires OccursAt(s, t, i)
    ensures Contains(s, t)
  {}

  /** Character k of an occurrence. */
  lemma OccursChar(s: string, t: string, i: nat, k: nat)
    requires OccursAt(s, t, i) && k < |t|
    ensures s[i + k] == t[k]
  {
    assert s[i..i + |t|][k] == s[i + k];
  }

  lemma OccursLeft(a: string, b: string, t: string, i: nat)
    requires OccursAt(a + b, t, i) && i + |t| <= |a|
    ensures OccursAt(a, t, i)
  {
    assert (a + b)[i..i + |t|] == a[i..i + |t|];
  }

  lemma OccursRight(a: string, b: string, t: string, i: nat)
    requires OccursAt(a + b, t, i) && i >= |a|
    ensures OccursAt(b, t, i - |a|)
  {
    assert (a + b)[i..i + |t|] == b[i - |a|..i - |a| + |t|];
  }

  lemma ContainsLeft(a: string, b: string, t: string)
    requires Contains(a, t)
    ensures Contains(a + b, t)
  {
    var i: nat :| i <= |a| && OccursAt(a, t, i);
    OccursInFront(a, t, b, i);
  }

  lemma ContainsRight(a: string, b: string, t: string)
    requires Contains(b, t)
    ensures Contains(a + b, t)
  {
    var i: nat :| i <= |b| && OccursAt(b, t, i);
    assert (a + b)[|a| + i..|a| + i + |t|] == b[i..i + |t|];
    OccursIn(a + b, t, |a| + i);
  }

  /** An occurrence whose last character is not in b ends within a. */
  lemma NotEndingIn(a: string, b: string, t: string)
    requires t != "" && t[|t| - 1] !in b
    ensures Contains(a + b, t) <==> Contains(a, t)
  {
    if Contains(a, t) {
      ContainsLeft(a, b, t);
    }
    if Contains(a + b, t) {
      var i: nat :| i <= |a + b| && OccursAt(a + b, t, i);
      OccursChar(a + b, t, i, |t| - 1);
      OccursLeft(a, b, t, i);
    }
  }

  /** An occurrence whose first character is not in a begins within b. */
  lemma NotStartingIn(a: string, b: string, t: string)
    requires t != "" && t[0] !in a
    ensures Contains(a + b, t) <==> Contains(b, t)
  {
    if Contains(b, t) {
      ContainsRight(a, b, t);
    }
    if Contains(a + b, t) {
      var i: nat :| i <= |a + b| && OccursAt(a + b, t, i);
      OccursChar(a + b, t, i, 0);
      OccursRight(a, b, t, i);
    }
  }

  /** No occurrence touches a middle part that shares no character with t. */
  lemma NotAcross(a: string, m: string, b: string, t: string)
    requires m != "" && forall c :: c in m ==> c !in t
    ensures Contains(a + m + b, t) <==> t == "" || Contains(a, t) || Contains(b, t)
  {
    if Contains(a, t) {
      ContainsLeft(a, m, t);
      ContainsLeft(a + m, b, t);
    }
    if Contains(b, t) {
      ContainsRight(a + m, b, t);
    }
    if t == "" {
      assert OccursAt(a + m + b, t, 0);
    } else if Contains(a + m + b, t) {
      var i: nat :| i <= |a + m + b| && OccursAt(a + m + b, t, i);
      if i + |t| <= |a| {
        assert a + m + b == a + (m + b);
        OccursLeft(a, m + b, t, i);
      } else if i < |a + m| {
        AcrossTouches(a, m, b, t, i);
      } else {
        OccursRight(a + m, b, t, i);
      }
    }
  }

  /** An occurrence that begins before the end of m and ends behind a shares a character with m. */
  lemma AcrossTouches(a: string, m: string, b: string, t: string, i: nat)
    requires OccursAt(a + m + b, t, i) && i < |a + m| && i + |t| > |a| && m != "" && t != ""
    ensures exists c :: c in m && c in t
  {
    var k: nat := if i < |a| then |a| - i else 0;
    OccursChar(a + m + b, t, i, k);
    assert (a + m + b)[i + k] == m[i + k - |a|];
    assert m[i + k - |a|] in m && t[k] in t;
  }

  /** r is s in lower case, told by positions. */
  predicate LowerOf(s: string, r: string) { |r| == |s| && forall i :: 0 <= i < |s| ==> r[i] == LowerChar(s[i]) }

  lemma LowerOfUnique(s: string, r: string, r': string)
    requires LowerOf(s, r) && LowerOf(s, r')
    ensures r == r'
  {}

  lemma LowerOfConcat(a: string, x: string, b: string, y: string)
    requires LowerOf(a, x) && LowerOf(b, y)
    ensures LowerOf(a + b, x + y)
  {}

  lemma {:induction false} LowerConcat(a: string, b: string)
    ensures Lower(a + b) == Lower(a) + Lower(b)
  {
    LowerOfConcat(a, Lower(a), b, Lower(b));
    LowerOfUnique(a + b, Lower(a + b), Lower(a) + Lower(b));
  }

  predicate AllSpace(s: string) { forall c :: c in s ==> IsSpace(c) }

  lemma {:induction false} TrimLeftParts(s: string) returns (l: string)
    ensures s == l + TrimLeft(s) && AllSpace(l)
  {
    if s != "" && IsSpace(s[0]) {
      l := TrimLeftParts(s[1..]);
      l := [s[0]] + l;
    } else {
      l := "";
    }
  }

  lemma {:induction false} TrimRightParts(s: string) returns (r: string)
    ensures s == TrimRight(s) + r && AllSpace(r)
  {
    if s != "" && IsSpace(s[|s| - 1]) {
      r := TrimRightParts(s[..|s| - 1]);
      r := r + [s[|s| - 1]];
    } else {
      r := "";
    }
  }

  lemma TrimParts(s: string) returns (l: string, r: string)
    ensures s == l + Trim(s) + r && AllSpace(l) && AllSpace(r)
  {
    l := TrimLeftParts(s);
    r := TrimRightParts(TrimLeft(s));
  }

  lemma LowerSpace(s: string)
    requires AllSpace(s)
    ensures AllSpace(Lower(s))
  {
    forall c | c in Lower(s) ensures IsSpace(c) {
      var i :| 0 <= i < |s| && Lower(s)[i] == c;
      assert s[i] in s;
    }
  }

  /** Trimming keeps what neither starts nor ends with a space. */
  lemma ContainsTrimmed(s: string, t: string)
    requires t != "" && !IsSpace(t[0]) && !IsSpace(t[|t| - 1])
    ensures Contains(Lower(Trim(s)), t) <==> Contains(Lower(s), t)
  {
    var l, r := TrimParts(s);
    LowerConcat(l + Trim(s), r);
    LowerConcat(l, Trim(s));
    LowerSpace(l);
    LowerSpace(r);
    NotEndingIn(Lower(l) + Lower(Trim(s)), Lower(r), t);
    NotStartingIn(Lower(l), Lower(Trim(s)), t);
  }

  lemma {:induction false} DecimalDigits(n: nat)
    ensures forall c :: c in Decimal(n) ==> '0' <= c <= '9'
    ensures n < 10 ==> |Decimal(n)| == 1
    ensures n < 100 ==> |Decimal(n)| <= 2
    ensures n < 1000 ==> |Decimal(n)| <= 3
  {
    if n >= 10 {
      DecimalDigits(n / 10);
    }
  }
}
