/** String helpers shared by the planner: Python's str.join and str.split on a
    fixed separator, the greedy parenthesis search used to read path names back,
    decimal rendering of naturals, ASCII lower-casing and code-point order. */
module Text {
  import opened Wrappers

  /** The separator the planner puts between node names. */
  const Arrow: string := " -> "

  /** Python's sep.join(parts). */
  function Join(parts: seq<string>, sep: string): string
  {
    if |parts| == 0 then ""
    else if |parts| == 1 then parts[0]
    else parts[0] + sep + Join(parts[1..], sep)
  }

  /** `pat` occurs in `s` starting at index i. */
  predicate OccursAt(s: string, pat: string, i: nat)
  {
    i + |pat| <= |s| && s[i..i + |pat|] == pat
  }

  predicate Contains(s: string, pat: string)
  {
    exists i: nat | i <= |s| :: OccursAt(s, pat, i)
  }

  predicate EndsWith(s: string, suffix: string)
  {
    |suffix| <= |s| && s[|s| - |suffix|..] == suffix
  }

  /** Index of the leftmost occurrence of `pat` in `s`, as str.find. */
  function IndexOf(s: string, pat: string): (r: Option<nat>)
    ensures r.Some? ==> OccursAt(s, pat, r.value)
    ensures r.Some? ==> forall j: nat :: j < r.value ==> !OccursAt(s, pat, j)
    ensures r.None? ==> forall j: nat :: !OccursAt(s, pat, j)
    decreases |s|
  {
    if |s| < |pat| then None
    else if s[..|pat|] == pat then Some(0)
    else
      match IndexOf(s[1..], pat)
      case None =>
        assert forall j: nat :: 1 <= j ==> (OccursAt(s, pat, j) <==> OccursAt(s[1..], pat, j - 1));
        None
      case Some(k) =>
        assert forall j: nat :: 1 <= j ==> (OccursAt(s, pat, j) <==> OccursAt(s[1..], pat, j - 1));
        Some(k + 1)
  }

  /** Python's s.split(sep) for a non-empty separator. */
  function Split(s: string, sep: string): (r: seq<string>)
    requires |sep| > 0
    ensures |r| >= 1
    decreases |s|
  {
    match IndexOf(s, sep)
    case None => [s]
    case Some(k) => [s[..k]] + Split(s[k + |sep|..], sep)
  }

  /** A node name that survives a join/split round trip on Arrow: it contains no
      Arrow and does not end with " ->", whose trailing blank-free tail would
      combine with the next separator's leading blank into an Arrow. */
  predicate SafeName(n: string)
  {
    !Contains(n, Arrow) && !EndsWith(n, " ->")
  }

  /** After a safe name, the first Arrow is the separator that follows it. */
  lemma FirstArrowAfterSafeName(x: string, rest: string)
    requires SafeName(x)
    ensures IndexOf(x + Arrow + rest, Arrow) == Some(|x|)
  {
    var s := x + Arrow + rest;
    assert s[|x|..|x| + 4] == Arrow;
    assert OccursAt(s, Arrow, |x|);
    forall j: nat | j < |x|
      ensures !OccursAt(s, Arrow, j)
    {
      if j + 4 <= |x| {
        assert x[j..j + 4] == s[j..j + 4];
        assert !OccursAt(x, Arrow, j);
      } else if j == |x| - 3 {
        assert s[j..j + 4][..3] == x[|x| - 3..];
        assert x[|x| - 3..] != " ->";
      } else if j == |x| - 2 {
        assert s[j..j + 4][2] == ' ';
      } else if j + 4 <= |s| {
        assert s[j..j + 4][1] == ' ';
      }
    }
    match IndexOf(s, Arrow)
    case None =>
    case Some(k) =>
      if k < |x| {
      } else if k > |x| {
      }
  }

  /** Splitting a join of safe names gives the names back. */
  lemma {:induction false} SplitJoin(parts: seq<string>)
    requires |parts| >= 1
    requires forall i :: 0 <= i < |parts| ==> SafeName(parts[i])
    ensures Split(Join(parts, Arrow), Arrow) == parts
    decreases |parts|
  {
    if |parts| == 1 {
      assert !Contains(parts[0], Arrow);
      assert IndexOf(parts[0], Arrow) == None;
    } else {
      var x, rest := parts[0], Join(parts[1..], Arrow);
      FirstArrowAfterSafeName(x, rest);
      var s := x + Arrow + rest;
      assert s[..|x|] == x;
      assert s[|x| + 4..] == rest;
      SplitJoin(parts[1..]);
    }
  }

  /** Only the one-name list [""] joins to the empty text. */
  lemma JoinEmpty(parts: seq<string>)
    ensures |parts| >= 1 && Join(parts, Arrow) == "" ==> parts == [""]
  {
    if |parts| > 1 {
      assert Join(parts, Arrow) == parts[0] + Arrow + Join(parts[1..], Arrow);
    }
  }

  /** The round trip fails for a name ending with " ->": two different lists
      join to the same text. */
  lemma JoinNotInjective()
    ensures Join(["a ->", "b"], Arrow) == Join(["a", "-> b"], Arrow)
    ensures Split(Join(["a ->", "b"], Arrow), Arrow) == ["a", "-> b"]
  {
    var s := Join(["a ->", "b"], Arrow);
    assert s == "a -> -> b";
    assert OccursAt(s, Arrow, 1);
    assert s[0..4][0] == 'a';
    assert IndexOf(s, Arrow) == Some(1);
    assert s[5..] == "-> b";
    assert !OccursAt("-> b", Arrow, 0);
    assert IndexOf("-> b", Arrow) == None;
    assert Split(s[5..], Arrow) == ["-> b"];
    assert s[..1] == "a";
  }

  predicate IsDigit(c: char)
  {
    '0' <= c <= '9'
  }

  /** Python's str(n) for a natural number. */
  function NatToString(n: nat): (r: string)
    ensures |r| >= 1
    ensures forall i :: 0 <= i < |r| ==> IsDigit(r[i])
  {
    if n < 10 then [DigitChar(n)]
    else NatToString(n / 10) + [DigitChar(n % 10)]
  }

  function DigitChar(d: nat): (c: char)
    requires d < 10
    ensures IsDigit(c)
  {
    ['0', '1', '2', '3', '4', '5', '6', '7', '8', '9'][d]
  }

  /** Distinct naturals have distinct decimal renderings. */
  lemma {:induction false} NatToStringInjective(a: nat, b: nat)
    requires NatToString(a) == NatToString(b)
    ensures a == b
    decreases a
  {
    var digits := ['0', '1', '2', '3', '4', '5', '6', '7', '8', '9'];
    assert forall x, y :: 0 <= x < y < 10 ==> digits[x] != digits[y];
    if a >= 10 && b >= 10 {
      var sa, sb := NatToString(a), NatToString(b);
      assert sa[|sa| - 1] == DigitChar(a % 10) && sb[|sb| - 1] == DigitChar(b % 10);
      assert sa[..|sa| - 1] == NatToString(a / 10) && sb[..|sb| - 1] == NatToString(b / 10);
      NatToStringInjective(a / 10, b / 10);
    }
  }

  /** A join avoids a character that its parts and separator avoid. */
  lemma {:induction false} JoinAvoids(parts: seq<string>, sep: string, c: char)
    requires forall i :: 0 <= i < |parts| ==> c !in parts[i]
    requires c !in sep
    ensures c !in Join(parts, sep)
    decreases |parts|
  {
    if |parts| > 1 {
      JoinAvoids(parts[1..], sep, c);
    }
  }

  /** Index of the last ')' in s[lo..hi], if any. */
  function LastClose(s: string, lo: nat, hi: nat): (r: Option<nat>)
    requires lo <= hi <= |s|
    ensures r.Some? ==> lo <= r.value < hi && s[r.value] == ')'
    ensures r.Some? ==> forall j :: r.value < j < hi ==> s[j] != ')'
    ensures r.None? ==> forall j :: lo <= j < hi ==> s[j] != ')'
    decreases hi - lo
  {
    if lo == hi then None
    else if s[hi - 1] == ')' then Some(hi - 1)
    else LastClose(s, lo, hi - 1)
  }

  /** End of the run of non-newline characters that starts at lo. */
  function LineEnd(s: string, lo: nat): (e: nat)
    requires lo <= |s|
    ensures lo <= e <= |s|
    ensures forall j :: lo <= j < e ==> s[j] != '\n'
    ensures e < |s| ==> s[e] == '\n'
    decreases |s| - lo
  {
    if lo == |s| || s[lo] == '\n' then lo else LineEnd(s, lo + 1)
  }

  /** Group 1 of re.search(r'\((.*)\)', s), trying start positions from i on:
      the leftmost '(' that has a ')' later on its line, up to the last such ')'. */
  function ParenGroupFrom(s: string, i: nat): Option<string>
    requires i <= |s|
    decreases |s| - i
  {
    if i == |s| then None
    else if s[i] == '(' then
      match LastClose(s, i + 1, LineEnd(s, i + 1))
      case Some(j) => Some(s[i + 1..j])
      case None => ParenGroupFrom(s, i + 1)
    else ParenGroupFrom(s, i + 1)
  }

  function ParenGroup(s: string): Option<string>
  {
    ParenGroupFrom(s, 0)
  }

  /** A text made of a '('-free head, '(', a newline-free body and a final ')'
      yields the body as its parenthesised group. */
  lemma ParenGroupOfWrapped(head: string, body: string)
    requires forall j :: 0 <= j < |head| ==> head[j] != '('
    requires forall j :: 0 <= j < |body| ==> body[j] != '\n'
    ensures ParenGroup(head + "(" + body + ")") == Some(body)
  {
    var s := head + "(" + body + ")";
    var k := |head|;
    assert s[k] == '(';
    assert forall j :: k + 1 <= j < |s| ==> s[j] != '\n' by {
      forall j | k + 1 <= j < |s| ensures s[j] != '\n' {
        if j < |s| - 1 { assert s[j] == body[j - k - 1]; }
      }
    }
    assert LineEnd(s, k + 1) == |s|;
    assert LastClose(s, k + 1, |s|) == Some(|s| - 1);
    assert s[k + 1..|s| - 1] == body;
    var i := k;
    while i > 0
      invariant 0 <= i <= k
      invariant ParenGroupFrom(s, i) == Some(body)
      decreases i
    {
      assert s[i - 1] == head[i - 1];
      i := i - 1;
    }
  }

  /** ASCII lower-casing, standing in for Python's str.lower(). */
  function Lower(s: string): (r: string)
    ensures |r| == |s|
  {
    seq(|s|, i requires 0 <= i < |s| => LowerChar(s[i]))
  }

  function LowerChar(c: char): char
  {
    if 'A' <= c <= 'Z' then (c as int + 32) as char else c
  }

  /** Python's string order: lexicographic by code point. */
  predicate StrLess(a: string, b: string)
    decreases |a|
  {
    if |a| == 0 then |b| > 0
    else |b| > 0 && (a[0] < b[0] || (a[0] == b[0] && StrLess(a[1..], b[1..])))
  }

  lemma {:induction false} StrLessIrreflexive(a: string)
    ensures !StrLess(a, a)
    decreases |a|
  {
    if |a| > 0 { StrLessIrreflexive(a[1..]); }
  }

  lemma {:induction false} StrLessTotal(a: string, b: string)
    requires a != b
    ensures StrLess(a, b) || StrLess(b, a)
    decreases |a|
  {
    if |a| > 0 && |b| > 0 && a[0] == b[0] {
      assert a == [a[0]] + a[1..] && b == [b[0]] + b[1..];
      StrLessTotal(a[1..], b[1..]);
    }
  }

  lemma {:induction false} StrLessAsymmetric(a: string, b: string)
    requires StrLess(a, b)
    ensures !StrLess(b, a)
    decreases |a|
  {
    if |a| > 0 && a[0] == b[0] { StrLessAsymmetric(a[1..], b[1..]); }
  }

  lemma {:induction false} StrLessTransitive(a: string, b: string, c: string)
    requires StrLess(a, b) && StrLess(b, c)
    ensures StrLess(a, c)
    decreases |a|
  {
    if |a| > 0 && a[0] == b[0] && b[0] == c[0] {
      StrLessTransitive(a[1..], b[1..], c[1..]);
    }
  }
}
