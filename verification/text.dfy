/** String helpers from Go's `strings`, `strconv` and `unicode` packages that
    the modelled code calls. Strings are sequences of Unicode code points
    (Go runes); case mapping is modelled for ASCII letters only. */
module Text {

  predicate IsAsciiLower(c: char) {
    'a' <= c <= 'z'
  }

  predicate IsAsciiUpper(c: char) {
    'A' <= c <= 'Z'
  }

  /** `unicode.ToUpper` restricted to ASCII: other code points are unchanged. */
  function UpperChar(c: char): (r: char)
    ensures IsAsciiLower(c) ==> IsAsciiUpper(r) && r as int == c as int - 32
    ensures !IsAsciiLower(c) ==> r == c
  {
    if IsAsciiLower(c) then (c as int - 32) as char else c
  }

  /** `unicode.ToLower` restricted to ASCII: other code points are unchanged. */
  function LowerChar(c: char): (r: char)
    ensures IsAsciiUpper(c) ==> IsAsciiLower(r) && r as int == c as int + 32
    ensures !IsAsciiUpper(c) ==> r == c
  {
    if IsAsciiUpper(c) then (c as int + 32) as char else c
  }

  /** `strings.ToUpper`, ASCII letters only. */
  function ToUpper(s: string): (r: string)
    ensures |r| == |s|
    ensures forall i :: 0 <= i < |s| ==> r[i] == UpperChar(s[i])
  {
    seq(|s|, i requires 0 <= i < |s| => UpperChar(s[i]))
  }

  /** `strings.ToLower`, ASCII letters only. */
  function ToLower(s: string): (r: string)
    ensures |r| == |s|
    ensures forall i :: 0 <= i < |s| ==> r[i] == LowerChar(s[i])
  {
    seq(|s|, i requires 0 <= i < |s| => LowerChar(s[i]))
  }

  predicate StartsWith(s: string, prefix: string) {
    |prefix| <= |s| && s[..|prefix|] == prefix
  }

  /** `sub` occurs in `s` starting at position `i`. */
  predicate OccursAt(s: string, sub: string, i: int) {
    0 <= i && i + |sub| <= |s| && s[i..i + |sub|] == sub
  }

  /** `strings.Contains`. */
  predicate Contains(s: string, sub: string) {
    exists i | 0 <= i <= |s| - |sub| :: OccursAt(s, sub, i)
  }

  /** Position of the first occurrence of `c` in `s`. */
  function IndexOf(s: string, c: char): (i: nat)
    requires c in s
    ensures i < |s| && s[i] == c && c !in s[..i]
  {
    if s[0] == c then 0 else 1 + IndexOf(s[1..], c)
  }

  /** `strings.Split(s, string(sep))`: the maximal pieces of `s` between
      occurrences of `sep`; there is always at least one piece. */
  function Split(s: string, sep: char): (parts: seq<string>)
    ensures |parts| >= 1
    ensures forall i :: 0 <= i < |parts| ==> sep !in parts[i]
    decreases |s|
  {
    if sep !in s then [s]
    else
      var i := IndexOf(s, sep);
      [s[..i]] + Split(s[i + 1..], sep)
  }

  /** `strings.Join`. */
  function Join(parts: seq<string>, sep: string): string {
    if |parts| == 0 then ""
    else if |parts| == 1 then parts[0]
    else parts[0] + sep + Join(parts[1..], sep)
  }

  /** Joining the pieces of a split with the separator gives the input back. */
  lemma {:induction false} JoinSplit(s: string, sep: char)
    ensures Join(Split(s, sep), [sep]) == s
    decreases |s|
  {
    if sep in s {
      var i := IndexOf(s, sep);
      var rest := Split(s[i + 1..], sep);
      JoinSplit(s[i + 1..], sep);
      assert Split(s, sep)[1..] == rest;
      assert Join(Split(s, sep), [sep]) == s[..i] + [sep] + Join(rest, [sep]);
      assert s == s[..i] + [sep] + s[i + 1..];
    }
  }

  /** Appending one more piece adds one separator (unless it is the first piece). */
  lemma {:induction false} JoinAppend(parts: seq<string>, x: string, sep: string)
    ensures Join(parts + [x], sep) == Join(parts, sep) + (if |parts| > 0 then sep else "") + x
    decreases |parts|
  {
    if |parts| > 1 {
      assert (parts + [x])[1..] == parts[1..] + [x];
      JoinAppend(parts[1..], x, sep);
    } else if |parts| == 1 {
      assert (parts + [x])[1..] == [x];
    }
  }

  /** `strings.Repeat`. */
  function Repeat(s: string, n: nat): (r: string)
    ensures |r| == n * |s|
  {
    if n == 0 then "" else s + Repeat(s, n - 1)
  }

  function Concat(parts: seq<string>): string {
    if |parts| == 0 then "" else parts[0] + Concat(parts[1..])
  }

  lemma {:induction false} ConcatAppend(parts: seq<string>, x: string)
    ensures Concat(parts + [x]) == Concat(parts) + x
    decreases |parts|
  {
    if |parts| > 0 {
      assert (parts + [x])[1..] == parts[1..] + [x];
      ConcatAppend(parts[1..], x);
    }
  }

  predicate IsDigit(c: char) {
    '0' <= c <= '9'
  }

  function DigitChar(d: nat): char
    requires d < 10
  {
    ('0' as int + d) as char
  }

  /** `strconv.Itoa` for non-negative numbers: decimal digits, no leading zero. */
  function NatToString(n: nat): (r: string)
    ensures |r| >= 1
    ensures forall i :: 0 <= i < |r| ==> IsDigit(r[i])
    ensures |r| > 1 ==> r[0] != '0'
    decreases n
  {
    if n < 10 then [DigitChar(n)] else NatToString(n / 10) + [DigitChar(n % 10)]
  }

  /** Reads a string of decimal digits back as a number. */
  function ParseDigits(s: string): nat
    requires forall i :: 0 <= i < |s| ==> IsDigit(s[i])
  {
    if |s| == 0 then 0
    else
      assert IsDigit(s[|s| - 1]);
      ParseDigits(s[..|s| - 1]) * 10 + (s[|s| - 1] as int - '0' as int)
  }

  /** Decimal rendering is injective: parsing it back gives the number. */
  lemma {:induction false} NatToStringRoundTrip(n: nat)
    ensures ParseDigits(NatToString(n)) == n
    decreases n
  {
    if n >= 10 {
      var s := NatToString(n);
      assert s[..|s| - 1] == NatToString(n / 10);
      NatToStringRoundTrip(n / 10);
    }
  }

  /** `strings.ReplaceAll(s, old, new)` for a non-empty `old`: scans left to
      right and replaces each non-overlapping occurrence. */
  function ReplaceAll(s: string, pat: string, rep: string): string
    requires |pat| > 0
    decreases |s|
  {
    if |s| == 0 then ""
    else if StartsWith(s, pat) then rep + ReplaceAll(s[|pat|..], pat, rep)
    else [s[0]] + ReplaceAll(s[1..], pat, rep)
  }

  /** A string with no occurrence of the pattern is returned unchanged. */
  lemma {:induction false} ReplaceAllAbsent(s: string, pat: string, rep: string)
    requires |pat| > 0
    requires !Contains(s, pat)
    ensures ReplaceAll(s, pat, rep) == s
    decreases |s|
  {
    if |s| > 0 {
      assert !OccursAt(s, pat, 0);
      forall j | 0 <= j
        ensures OccursAt(s[1..], pat, j) <==> OccursAt(s, pat, j + 1)
      {
        if j + |pat| <= |s| - 1 {
          assert s[1..][j..j + |pat|] == s[j + 1..j + 1 + |pat|];
        }
      }
      ReplaceAllAbsent(s[1..], pat, rep);
    }
  }

  /** A tail without the pattern's last character is never touched: every
      occurrence ends inside the head. */
  lemma {:induction false} ReplaceAllKeepsTail(p: string, q: string, pat: string, rep: string)
    requires |pat| > 0
    requires pat[|pat| - 1] !in q
    ensures ReplaceAll(p + q, pat, rep) == ReplaceAll(p, pat, rep) + q
    decreases |p|
  {
    if |p| == 0 {
      assert p + q == q;
      WithoutLastChar(q, pat);
      ReplaceAllAbsent(q, pat, rep);
    } else {
      StartsWithBeforeTail(p, q, pat);
      if StartsWith(p, pat) {
        assert (p + q)[|pat|..] == p[|pat|..] + q;
        ReplaceAllKeepsTail(p[|pat|..], q, pat, rep);
      } else {
        assert (p + q)[1..] == p[1..] + q;
        ReplaceAllKeepsTail(p[1..], q, pat, rep);
      }
    }
  }

  /** An occurrence at the front of `p + q`, for a head `p` without `%`,
      reaches past the head: the head ends with a character of the pattern
      before its first `%` (at `j`), and the tail starts with one up to it. */
  lemma Straddle(p: string, q: string, pat: string, j: nat)
    requires j < |pat| && pat[j] == '%'
    requires '%' !in p && |p| > 0
    ensures StartsWith(p + q, pat) ==> p[|p| - 1] in pat[..j] && q != [] && q[0] in pat[..j + 1]
  {
    if StartsWith(p + q, pat) {
      assert (p + q)[j] == pat[j] == '%';
      assert j >= |p|;
      assert p[|p| - 1] == (p + q)[..|pat|][|p| - 1] == pat[..j][|p| - 1];
      assert q != [] && q[0] == (p + q)[..|pat|][|p|] == pat[..j + 1][|p|];
    }
  }

  /** A head without `%` is never touched when no occurrence can start in
      it: the pattern's first `%` (at `j`) cannot fall in the head, and an
      occurrence reaching past it would need the head to end with, or the
      tail to start with, a character of the pattern before that `%`. */
  lemma {:induction false} ReplaceAllKeepsHead(p: string, q: string, pat: string, rep: string, j: nat)
    requires j < |pat| && pat[j] == '%' && '%' !in pat[..j]
    requires '%' !in p
    requires (|p| > 0 && p[|p| - 1] !in pat[..j]) || q == [] || q[0] !in pat[..j + 1]
    ensures ReplaceAll(p + q, pat, rep) == p + ReplaceAll(q, pat, rep)
    decreases |p|
  {
    if |p| == 0 {
      assert p + q == q;
    } else {
      Straddle(p, q, pat, j);
      assert !StartsWith(p + q, pat);
      assert (p + q)[1..] == p[1..] + q;
      if |p| > 1 {
        assert p[1..][|p[1..]| - 1] == p[|p| - 1];
        ReplaceAllKeepsHead(p[1..], q, pat, rep, j);
      } else {
        assert p[1..] + q == q;
      }
    }
  }

  /** A text that does not start with the pattern keeps its first character. */
  lemma ReplaceAllKeepsFirst(q: string, pat: string, rep: string)
    requires |pat| > 0 && |q| > 0 && q[0] != pat[0]
    ensures |ReplaceAll(q, pat, rep)| > 0 && ReplaceAll(q, pat, rep)[0] == q[0]
  {
    assert !StartsWith(q, pat) by {
      if |pat| <= |q| {
        assert q[..|pat|][0] == q[0];
      }
    }
  }

  /** A text without the pattern's last character does not contain it. */
  lemma WithoutLastChar(q: string, pat: string)
    requires |pat| > 0 && pat[|pat| - 1] !in q
    ensures !Contains(q, pat)
  {
    forall i | 0 <= i <= |q| - |pat|
      ensures !OccursAt(q, pat, i)
    {
      assert q[i..i + |pat|][|pat| - 1] == q[i + |pat| - 1];
    }
  }

  /** An occurrence at the start cannot end inside a tail that lacks the
      pattern's last character. */
  lemma StartsWithBeforeTail(p: string, q: string, pat: string)
    requires |pat| > 0 && pat[|pat| - 1] !in q
    ensures StartsWith(p + q, pat) <==> StartsWith(p, pat)
  {
    if |pat| <= |p| {
      assert (p + q)[..|pat|] == p[..|pat|];
    } else if |pat| <= |p| + |q| {
      assert (p + q)[..|pat|][|pat| - 1] == q[|pat| - 1 - |p|];
    }
  }
}
