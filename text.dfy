/** The few Python string operations the sprint engine relies on
    (`str.isspace`, `strip`, `split()[0]`, `in`/`rfind`, `startswith`,
    `endswith`, `lower`, `join`, `str(int)`), each with a contract that
    characterises it. */
module Text {
  import opened Wrappers

  /** Python's `str.isspace` for one character: the characters that
      `str.split()` separates on and `str.strip()` removes. */
  predicate IsSpace(c: char) {
    || c == ' '
    || ('\t' <= c <= '\r')
    || ('\U{1C}' <= c <= '\U{1F}')
    || c == '\U{85}' || c == '\U{A0}' || c == '\U{1680}'
    || ('\U{2000}' <= c <= '\U{200A}')
    || c == '\U{2028}' || c == '\U{2029}' || c == '\U{202F}' || c == '\U{205F}' || c == '\U{3000}'
  }

  predicate AllSpace(s: string) {
    forall k :: 0 <= k < |s| ==> IsSpace(s[k])
  }

  predicate NoSpace(s: string) {
    forall k :: 0 <= k < |s| ==> !IsSpace(s[k])
  }

  /** Number of whitespace characters at the start of `s`. */
  function LeadingSpace(s: string): (n: nat)
    ensures n <= |s| && AllSpace(s[..n])
    ensures n < |s| ==> !IsSpace(s[n])
  {
    if s != [] && IsSpace(s[0]) then
      var m := LeadingSpace(s[1..]);
      assert s[..1 + m] == [s[0]] + s[1..][..m];
      1 + m
    else 0
  }

  /** Number of whitespace characters at the end of `s`. */
  function TrailingSpace(s: string): (n: nat)
    ensures n <= |s| && AllSpace(s[|s| - n..])
    ensures n < |s| ==> !IsSpace(s[|s| - n - 1])
  {
    if s != [] && IsSpace(s[|s| - 1]) then
      var init := s[..|s| - 1];
      var m := TrailingSpace(init);
      assert s[|s| - (1 + m)..] == init[|init| - m..] + [s[|s| - 1]];
      1 + m
    else 0
  }

  /** Python's `str.strip()`: `s` without its leading and trailing whitespace.
      The two clauses determine the result uniquely (see StripPadded). */
  function Strip(s: string): (r: string)
    ensures exists i, j :: 0 <= i <= j <= |s| && r == s[i..j] && AllSpace(s[..i]) && AllSpace(s[j..])
    ensures r != [] ==> !IsSpace(r[0]) && !IsSpace(r[|r| - 1])
  {
    var i := LeadingSpace(s);
    if i == |s| then
      assert AllSpace(s[..i]) && AllSpace(s[i..]);
      s[i..i]
    else
      var j := |s| - TrailingSpace(s);
      assert i < j by {
        if j <= i {
          assert false;
        }
      }
      s[i..j]
  }

  lemma {:induction false} LeadingSpaceOfPadded(a: string, t: string)
    requires AllSpace(a) && t != [] && !IsSpace(t[0])
    ensures LeadingSpace(a + t) == |a|
  {
    if a == [] {
      assert a + t == t;
    } else {
      assert (a + t)[1..] == a[1..] + t;
      LeadingSpaceOfPadded(a[1..], t);
    }
  }

  lemma {:induction false} TrailingSpaceOfPadded(t: string, b: string)
    requires AllSpace(b) && t != [] && !IsSpace(t[|t| - 1])
    ensures TrailingSpace(t + b) == |b|
  {
    if b == [] {
      assert t + b == t;
    } else {
      var s := t + b;
      assert s[..|s| - 1] == t + b[..|b| - 1];
      TrailingSpaceOfPadded(t, b[..|b| - 1]);
    }
  }

  /** Stripping whitespace padding around a string that neither starts nor
      ends with whitespace gives that string back. */
  lemma StripPadded(a: string, t: string, b: string)
    requires AllSpace(a) && AllSpace(b)
    requires t != [] ==> !IsSpace(t[0]) && !IsSpace(t[|t| - 1])
    ensures Strip(a + t + b) == t
  {
    var s := a + t + b;
    if t == [] {
      assert AllSpace(s);
    } else {
      assert s == a + (t + b) == (a + t) + b;
      LeadingSpaceOfPadded(a, t + b);
      TrailingSpaceOfPadded(a + t, b);
      assert s[|a|..|s| - |b|] == t;
    }
  }

  /** Stripping twice is stripping once. */
  lemma StripIdempotent(s: string)
    ensures Strip(Strip(s)) == Strip(s)
  {
    StripPadded([], Strip(s), []);
    assert [] + Strip(s) + [] == Strip(s);
  }

  /** Length of the longest prefix of `s` without whitespace. */
  function TokenLength(s: string): (n: nat)
    ensures n <= |s| && NoSpace(s[..n])
    ensures n < |s| ==> IsSpace(s[n])
  {
    if s != [] && !IsSpace(s[0]) then
      var m := TokenLength(s[1..]);
      assert s[..1 + m] == [s[0]] + s[1..][..m];
      1 + m
    else 0
  }

  /** Python's `s.split()[0]`: the first whitespace-separated token of `s`,
      or None where Python raises IndexError because `s` has no token. */
  function FirstToken(s: string): (r: Option<string>)
    ensures r.None? <==> AllSpace(s)
    ensures r.Some? ==> r.value != [] && NoSpace(r.value)
    ensures r.Some? ==> exists i :: 0 <= i && i + |r.value| <= |s| && AllSpace(s[..i])
                           && s[i..i + |r.value|] == r.value
                           && (i + |r.value| == |s| || IsSpace(s[i + |r.value|]))
  {
    var i := LeadingSpace(s);
    if i == |s| then
      assert s[..i] == s;
      None
    else
      var n := TokenLength(s[i..]);
      assert s[i..][..n] == s[i..i + n];
      assert n > 0;
      Some(s[i..i + n])
  }

  lemma {:induction false} TokenLengthOfPrefix(tok: string, rest: string)
    requires NoSpace(tok)
    requires rest == [] || IsSpace(rest[0])
    ensures TokenLength(tok + rest) == |tok|
  {
    if tok == [] {
      assert tok + rest == rest;
    } else {
      assert (tok + rest)[0] == tok[0];
      assert (tok + rest)[1..] == tok[1..] + rest;
      TokenLengthOfPrefix(tok[1..], rest);
    }
  }

  /** A token followed by whitespace or by nothing is the first token. */
  lemma FirstTokenOfPrefix(tok: string, rest: string)
    requires tok != [] && NoSpace(tok)
    requires rest == [] || IsSpace(rest[0])
    ensures FirstToken(tok + rest) == Some(tok)
  {
    var s := tok + rest;
    assert s[0] == tok[0];
    assert LeadingSpace(s) == 0;
    TokenLengthOfPrefix(tok, rest);
    assert s[0..] == s;
    assert s[0..|tok|] == tok;
  }

  /** `pat` occurs in `s` at index `i`. */
  predicate OccursAt(s: string, pat: string, i: nat) {
    i + |pat| <= |s| && s[i..i + |pat|] == pat
  }

  /** Python's `s.rfind(pat)`: the index of the last occurrence of `pat`
      in `s`, or None where Python gives -1. */
  function LastIndexOf(s: string, pat: string): (r: Option<nat>)
    ensures r.Some? ==> OccursAt(s, pat, r.value)
    ensures r.Some? ==> forall j: nat :: r.value < j ==> !OccursAt(s, pat, j)
    ensures r.None? ==> forall j: nat :: !OccursAt(s, pat, j)
    decreases |s|
  {
    if |s| < |pat| then None
    else if s[|s| - |pat|..] == pat then Some(|s| - |pat|)
    else
      var init := s[..|s| - 1];
      var r := LastIndexOf(init, pat);
      assert forall j: nat :: OccursAt(s, pat, j) ==> OccursAt(init, pat, j) by {
        forall j: nat | OccursAt(s, pat, j)
          ensures OccursAt(init, pat, j)
        {
          if j + |pat| < |s| {
            assert init[j..j + |pat|] == s[j..j + |pat|];
          }
        }
      }
      assert r.Some? ==> OccursAt(s, pat, r.value) by {
        if r.Some? {
          assert init[r.value..r.value + |pat|] == s[r.value..r.value + |pat|];
        }
      }
      r
  }

  /** Python's `pat in s`. */
  predicate Contains(s: string, pat: string) {
    LastIndexOf(s, pat).Some?
  }

  lemma ContainsIff(s: string, pat: string, i: nat)
    requires OccursAt(s, pat, i)
    ensures Contains(s, pat)
  {
  }

  /** An occurrence survives text appended after it ... */
  lemma OccursBefore(a: string, b: string, pat: string, j: nat)
    ensures OccursAt(a, pat, j) ==> OccursAt(a + b, pat, j)
  {
    if OccursAt(a, pat, j) {
      assert (a + b)[j..j + |pat|] == a[j..j + |pat|];
    }
  }

  /** ... and moves along with text prepended before it. */
  lemma OccursAfter(a: string, b: string, pat: string, j: nat)
    ensures OccursAt(b, pat, j) ==> OccursAt(a + b, pat, |a| + j)
  {
    if OccursAt(b, pat, j) {
      assert (a + b)[|a| + j..|a| + j + |pat|] == b[j..j + |pat|];
    }
  }

  /** Text that contains a pattern still does with more text after it ... */
  lemma ContainedLeft(a: string, b: string, pat: string)
    ensures Contains(a, pat) ==> Contains(a + b, pat)
  {
    if Contains(a, pat) {
      var j := LastIndexOf(a, pat).value;
      OccursBefore(a, b, pat, j);
      ContainsIff(a + b, pat, j);
    }
  }

  /** ... or before it. */
  lemma ContainedRight(a: string, b: string, pat: string)
    ensures Contains(b, pat) ==> Contains(a + b, pat)
  {
    if Contains(b, pat) {
      var j := LastIndexOf(b, pat).value;
      OccursAfter(a, b, pat, j);
      ContainsIff(a + b, pat, |a| + j);
    }
  }

  predicate StartsWith(s: string, prefix: string) {
    |prefix| <= |s| && s[..|prefix|] == prefix
  }

  predicate EndsWith(s: string, suffix: string) {
    |suffix| <= |s| && s[|s| - |suffix|..] == suffix
  }

  /** Python's `str.lower()` on one character, for ASCII letters. */
  function LowerChar(c: char): char {
    if 'A' <= c <= 'Z' then (c as int + 32) as char else c
  }

  /** Python's `str.lower()`, for ASCII letters. */
  function Lower(s: string): (r: string)
    ensures |r| == |s|
  {
    seq(|s|, k requires 0 <= k < |s| => LowerChar(s[k]))
  }

  /** Python's `sep.join(parts)`. */
  function Join(sep: string, parts: seq<string>): string
    decreases |parts|
  {
    if parts == [] then ""
    else if |parts| == 1 then parts[0]
    else parts[0] + sep + Join(sep, parts[1..])
  }

  /** Every part occurs in the joined string. */
  lemma {:induction false} JoinHasParts(sep: string, parts: seq<string>, a: nat)
    requires a < |parts|
    ensures Contains(Join(sep, parts), parts[a])
    decreases |parts|
  {
    if |parts| == 1 {
      assert OccursAt(parts[0], parts[0], 0);
      ContainsIff(parts[0], parts[0], 0);
    } else {
      var rest := Join(sep, parts[1..]);
      assert Join(sep, parts) == parts[0] + sep + rest;
      if a == 0 {
        assert OccursAt(parts[0], parts[0], 0);
        OccursBefore(parts[0], sep + rest, parts[0], 0);
        assert parts[0] + sep + rest == parts[0] + (sep + rest);
        ContainsIff(Join(sep, parts), parts[0], 0);
      } else {
        JoinHasParts(sep, parts[1..], a - 1);
        var j := LastIndexOf(rest, parts[a]).value;
        OccursAfter(parts[0] + sep, rest, parts[a], j);
        ContainsIff(Join(sep, parts), parts[a], |parts[0] + sep| + j);
      }
    }
  }

  /** Joining splits at any part boundary into the two joins and one separator. */
  lemma {:induction false} JoinSplit(sep: string, parts: seq<string>, n: nat)
    requires 0 < n < |parts|
    ensures Join(sep, parts) == Join(sep, parts[..n]) + sep + Join(sep, parts[n..])
    decreases n
  {
    if n == 1 {
      assert parts[..1] == [parts[0]];
    } else {
      JoinSplit(sep, parts[1..], n - 1);
      assert parts[1..][..n - 1] == parts[..n][1..];
      assert parts[1..][n - 1..] == parts[n..];
    }
  }

  /** One more part is added at the end, after one separator. */
  lemma JoinSnoc(sep: string, parts: seq<string>, x: string)
    requires parts != []
    ensures Join(sep, parts + [x]) == Join(sep, parts) + sep + x
  {
    JoinSplit(sep, parts + [x], |parts|);
    assert (parts + [x])[..|parts|] == parts;
    assert (parts + [x])[|parts|..] == [x];
  }

  /** A join ends with its last part. */
  lemma JoinEndsWithLast(sep: string, parts: seq<string>) returns (before: string)
    requires parts != []
    ensures Join(sep, parts) == before + parts[|parts| - 1]
  {
    if |parts| == 1 {
      before := "";
    } else {
      var init := parts[..|parts| - 1];
      assert init + [parts[|parts| - 1]] == parts;
      JoinSnoc(sep, init, parts[|parts| - 1]);
      before := Join(sep, init) + sep;
    }
  }

  /** A join starts with its first part. */
  lemma JoinStartsWithFirst(sep: string, parts: seq<string>) returns (after: string)
    requires parts != []
    ensures Join(sep, parts) == parts[0] + after
  {
    after := if |parts| == 1 then "" else sep + Join(sep, parts[1..]);
  }

  /** `x + sep + y` occurs where a text ending in `x` meets, across `sep`,
      a text starting with `y`. */
  lemma ContainsJunction(before: string, x: string, sep: string, y: string, after: string)
    ensures Contains((before + x) + sep + (y + after), x + sep + y)
  {
    var mid := x + sep + y;
    assert (before + x) + sep + (y + after) == before + mid + after;
    assert OccursAt(mid, mid, 0);
    ContainsIff(mid, mid, 0);
    ContainedRight(before, mid, mid);
    ContainedLeft(before + mid, after, mid);
  }

  /** Consecutive parts occur in the join with exactly one separator between them. */
  lemma JoinAdjacent(sep: string, parts: seq<string>, a: nat)
    requires a + 1 < |parts|
    ensures Contains(Join(sep, parts), parts[a] + sep + parts[a + 1])
  {
    JoinSplit(sep, parts, a + 1);
    var left := parts[..a + 1];
    var right := parts[a + 1..];
    var before := JoinEndsWithLast(sep, left);
    var after := JoinStartsWithFirst(sep, right);
    assert left[|left| - 1] == parts[a] && right[0] == parts[a + 1];
    ContainsJunction(before, parts[a], sep, parts[a + 1], after);
  }

  predicate IsDigit(c: char) {
    '0' <= c <= '9'
  }

  predicate AllDigits(s: string) {
    forall k :: 0 <= k < |s| ==> IsDigit(s[k])
  }

  function DigitChar(d: nat): (c: char)
    requires d < 10
    ensures IsDigit(c) && c as int - '0' as int == d
  {
    ('0' as int + d) as char
  }

  /** The number a string of decimal digits denotes. */
  function DecimalValue(s: string): nat
    requires AllDigits(s)
    decreases |s|
  {
    if s == [] then 0
    else 10 * DecimalValue(s[..|s| - 1]) + (s[|s| - 1] as int - '0' as int)
  }

  /** Python's `str(n)` for a natural number: its decimal digits, with no
      leading zero unless `n` is zero. */
  function NatToString(n: nat): (r: string)
    ensures r != [] && AllDigits(r)
    ensures r[0] == '0' ==> n == 0
    decreases n
  {
    if n < 10 then [DigitChar(n)]
    else NatToString(n / 10) + [DigitChar(n % 10)]
  }

  /** Reading the digits of `str(n)` back gives `n`. */
  lemma {:induction false} DecimalRoundTrip(n: nat)
    ensures DecimalValue(NatToString(n)) == n
  {
    if n >= 10 {
      DecimalRoundTrip(n / 10);
      var s := NatToString(n);
      assert s[..|s| - 1] == NatToString(n / 10);
    }
  }

  /** Distinct numbers print differently. */
  lemma NatToStringInjective(m: nat, n: nat)
    requires NatToString(m) == NatToString(n)
    ensures m == n
  {
    DecimalRoundTrip(m);
    DecimalRoundTrip(n);
  }

  /** Python's `str(i)` for an integer. */
  function IntToString(i: int): string {
    if i < 0 then "-" + NatToString(-i) else NatToString(i)
  }
}
