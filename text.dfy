/**
 * The string operations the `/roll` handler relies on: the digit tests of its
 * two regular expressions, `Integer.parseInt` and `"" + int`,
 * `String.equalsIgnoreCase`, `StringUtils.join` and literal `replaceAll`.
 */
module Text {

  predicate IsDigit(c: char) {
    '0' <= c <= '9'
  }

  predicate AllDigits(s: string) {
    forall i :: 0 <= i < |s| ==> IsDigit(s[i])
  }

  /** The whole string matches `[0-9]+`. */
  predicate IsNumeral(s: string) {
    |s| > 0 && AllDigits(s)
  }

  /** No character is an opening brace, so no `{NAME}` placeholder can start in it. */
  predicate BraceFree(s: string) {
    forall i :: 0 <= i < |s| ==> s[i] != '{'
  }

  /** No character is a comma, so no `", "` separator can start in it. */
  predicate CommaFree(s: string) {
    forall i :: 0 <= i < |s| ==> s[i] != ','
  }

  // ---------------------------------------------------------------- decimal

  /** The number a string of decimal digits denotes, leading zeros allowed. */
  function DigitsValue(s: string): nat
    requires AllDigits(s)
  {
    if s == [] then 0 else 10 * DigitsValue(s[..|s| - 1]) + (s[|s| - 1] as int - '0' as int)
  }

  function DigitChar(d: nat): (c: char)
    requires d < 10
    ensures IsDigit(c) && c as int - '0' as int == d
  {
    ('0' as int + d) as char
  }

  /** The decimal spelling of a natural number, without leading zeros. */
  function DecimalString(n: nat): (s: string)
    ensures IsNumeral(s)
    ensures |s| > 1 ==> s[0] != '0'
  {
    if n < 10 then [DigitChar(n)] else DecimalString(n / 10) + [DigitChar(n % 10)]
  }

  /** Reading back a printed number gives the number. */
  lemma {:induction false} DecimalStringRoundTrip(n: nat)
    ensures DigitsValue(DecimalString(n)) == n
  {
    if n >= 10 {
      var s := DecimalString(n);
      assert s[..|s| - 1] == DecimalString(n / 10);
      DecimalStringRoundTrip(n / 10);
    }
  }

  /** Java's `"" + x` for an `int` x. */
  function IntString(x: int): (s: string)
    ensures |s| > 0 && BraceFree(s) && CommaFree(s)
    ensures x >= 0 <==> IsNumeral(s)
    ensures x >= 0 ==> DigitsValue(s) == x
    ensures x < 0 ==> s[0] == '-' && IsNumeral(s[1..]) && DigitsValue(s[1..]) == -x
  {
    if x < 0 then
      var s := "-" + DecimalString(-x);
      assert s[0] == '-' && s[1..] == DecimalString(-x);
      DecimalStringRoundTrip(-x);
      s
    else DecimalStringRoundTrip(x); DecimalString(x)
  }

  // ------------------------------------------------------ case-insensitivity

  function ToLowerAscii(c: char): char {
    if 'A' <= c <= 'Z' then (c as int + 32) as char else c
  }

  /**
   * `String.equalsIgnoreCase`, with ASCII case folding: equal lengths and
   * equal characters once upper-case ASCII letters are made lower-case.
   */
  predicate EqualsIgnoreCase(a: string, b: string) {
    |a| == |b| && forall i :: 0 <= i < |a| ==> ToLowerAscii(a[i]) == ToLowerAscii(b[i])
  }

  // ------------------------------------------------------ join and replace

  /** `StringUtils.join(parts, sep)`: the parts in order with `sep` between neighbours. */
  function Join(parts: seq<string>, sep: string): string {
    if |parts| == 0 then ""
    else if |parts| == 1 then parts[0]
    else parts[0] + sep + Join(parts[1..], sep)
  }

  /** `pat` occurs in `s` starting at index `i`. */
  predicate OccursAt(s: string, pat: string, i: nat) {
    i + |pat| <= |s| && s[i..i + |pat|] == pat
  }

  ghost predicate Contains(s: string, pat: string) {
    exists i: nat :: OccursAt(s, pat, i)
  }

  /**
   * `s.replaceAll(quote(pat), rep)` with a literal replacement: every
   * occurrence of `pat` found scanning left to right, without overlaps and
   * without rescanning what was put in, becomes `rep`.
   */
  function ReplaceAll(s: string, pat: string, rep: string): string
    requires |pat| > 0
    decreases |s|
  {
    if |s| < |pat| then s
    else if s[..|pat|] == pat then rep + ReplaceAll(s[|pat|..], pat, rep)
    else [s[0]] + ReplaceAll(s[1..], pat, rep)
  }

  /**
   * The pieces of `s` between the occurrences of `pat` that `ReplaceAll`
   * finds: an independent description of what `ReplaceAll` keeps.
   */
  function Split(s: string, pat: string): (parts: seq<string>)
    requires |pat| > 0
    ensures |parts| >= 1
    ensures parts[0] <= s
    decreases |s|
  {
    if |s| < |pat| then [s]
    else if s[..|pat|] == pat then [""] + Split(s[|pat|..], pat)
    else
      var t := Split(s[1..], pat);
      [[s[0]] + t[0]] + t[1..]
  }

  lemma JoinCons(p: string, rest: seq<string>, sep: string)
    requires |rest| >= 1
    ensures Join([p] + rest, sep) == p + sep + Join(rest, sep)
  {
    assert ([p] + rest)[1..] == rest;
  }

  /** A character put before the first piece comes first in the joined string. */
  lemma JoinPrepend(c: char, t: seq<string>, sep: string)
    requires |t| >= 1
    ensures Join([[c] + t[0]] + t[1..], sep) == [c] + Join(t, sep)
  {
    if |t| == 1 {
      assert [[c] + t[0]] + t[1..] == [[c] + t[0]];
    } else {
      JoinCons([c] + t[0], t[1..], sep);
      JoinCons(t[0], t[1..], sep);
      assert t == [t[0]] + t[1..];
    }
  }

  /** The round trip for a string that starts with the pattern, given it for the rest. */
  lemma SplitJoinAtPattern(s: string, pat: string)
    requires 0 < |pat| <= |s| && s[..|pat|] == pat
    requires Join(Split(s[|pat|..], pat), pat) == s[|pat|..]
    ensures Join(Split(s, pat), pat) == s
  {
    var rest := s[|pat|..];
    var parts := Split(rest, pat);
    assert Split(s, pat) == [""] + parts;
    JoinCons("", parts, pat);
    assert "" + pat == pat;
    TakeDrop(s, |pat|);
  }

  lemma TakeDrop(s: string, n: nat)
    requires n <= |s|
    ensures s == s[..n] + s[n..]
  {
  }

  /** The round trip for a string that does not start with the pattern, given it for its tail. */
  lemma SplitJoinPastChar(s: string, pat: string)
    requires 0 < |pat| <= |s| && s[..|pat|] != pat
    requires Join(Split(s[1..], pat), pat) == s[1..]
    ensures Join(Split(s, pat), pat) == s
  {
    var t := Split(s[1..], pat);
    assert Split(s, pat) == [[s[0]] + t[0]] + t[1..];
    JoinPrepend(s[0], t, pat);
    assert s == [s[0]] + s[1..];
  }

  /** Putting the pattern back between the pieces rebuilds the string. */
  lemma {:induction false} SplitJoinRoundTrip(s: string, pat: string)
    requires |pat| > 0
    ensures Join(Split(s, pat), pat) == s
    decreases |s|
  {
    if |s| < |pat| {
    } else if s[..|pat|] == pat {
      SplitJoinRoundTrip(s[|pat|..], pat);
      SplitJoinAtPattern(s, pat);
    } else {
      SplitJoinRoundTrip(s[1..], pat);
      SplitJoinPastChar(s, pat);
    }
  }

  /** Replacing is joining the pieces with the replacement in place of the pattern. */
  lemma {:induction false} ReplaceAllIsJoinOfSplit(s: string, pat: string, rep: string)
    requires |pat| > 0
    ensures ReplaceAll(s, pat, rep) == Join(Split(s, pat), rep)
    decreases |s|
  {
    if |s| < |pat| {
    } else if s[..|pat|] == pat {
      ReplaceAllIsJoinOfSplit(s[|pat|..], pat, rep);
      JoinCons("", Split(s[|pat|..], pat), rep);
    } else {
      var t := Split(s[1..], pat);
      ReplaceAllIsJoinOfSplit(s[1..], pat, rep);
      assert ReplaceAll(s, pat, rep) == [s[0]] + Join(t, rep);
      assert Split(s, pat) == [[s[0]] + t[0]] + t[1..];
      JoinPrepend(s[0], t, rep);
    }
  }

  lemma OccursAtShift(c: char, s: string, pat: string, i: nat)
    requires OccursAt(s, pat, i)
    ensures OccursAt([c] + s, pat, i + 1)
  {
    assert ([c] + s)[i + 1..i + 1 + |pat|] == s[i..i + |pat|];
  }

  /** No piece contains the pattern: `ReplaceAll` leaves no occurrence behind in what it keeps. */
  lemma {:induction false} SplitPartsFree(s: string, pat: string)
    requires |pat| > 0
    ensures forall k :: 0 <= k < |Split(s, pat)| ==> !Contains(Split(s, pat)[k], pat)
    decreases |s|
  {
    var parts := Split(s, pat);
    if |s| < |pat| {
      forall i: nat ensures !OccursAt(s, pat, i) { }
    } else if s[..|pat|] == pat {
      SplitPartsFree(s[|pat|..], pat);
      assert parts == [""] + Split(s[|pat|..], pat);
      forall i: nat ensures !OccursAt("", pat, i) { }
    } else {
      var t := Split(s[1..], pat);
      SplitPartsFree(s[1..], pat);
      assert parts == [[s[0]] + t[0]] + t[1..];
      var head := [s[0]] + t[0];
      forall i: nat ensures !OccursAt(head, pat, i) {
        if i == 0 {
          if |pat| <= |head| {
            assert head <= s;
            assert head[..|pat|] == s[..|pat|];
          }
        } else if i + |pat| <= |head| {
          assert head[i..i + |pat|] == t[0][i - 1..i - 1 + |pat|];
          assert !OccursAt(t[0], pat, i - 1);
        }
      }
      forall k | 1 <= k < |parts| ensures !Contains(parts[k], pat) {
        assert parts[k] == t[k];
      }
    }
  }

  /** A string without the pattern comes out of `ReplaceAll` unchanged. */
  lemma {:induction false} ReplaceAllAbsent(s: string, pat: string, rep: string)
    requires |pat| > 0 && !Contains(s, pat)
    ensures ReplaceAll(s, pat, rep) == s
    decreases |s|
  {
    if |s| >= |pat| {
      assert !OccursAt(s, pat, 0);
      assert [s[0]] + s[1..] == s;
      forall i: nat ensures !OccursAt(s[1..], pat, i) {
        if OccursAt(s[1..], pat, i) {
          OccursAtShift(s[0], s[1..], pat, i);
        }
      }
      ReplaceAllAbsent(s[1..], pat, rep);
    }
  }

  /** A placeholder starts with a brace, so it does not occur in a brace-free string. */
  lemma BraceFreeHasNoPlaceholder(s: string, pat: string)
    requires |pat| > 0 && pat[0] == '{' && BraceFree(s)
    ensures !Contains(s, pat)
  {
    forall i: nat ensures !OccursAt(s, pat, i) {
      if i + |pat| <= |s| {
        assert s[i..i + |pat|][0] == s[i];
      }
    }
  }

  lemma BraceFreeReplaceAll(s: string, pat: string, rep: string)
    requires |pat| > 0 && pat[0] == '{' && BraceFree(s)
    ensures ReplaceAll(s, pat, rep) == s
  {
    BraceFreeHasNoPlaceholder(s, pat);
    ReplaceAllAbsent(s, pat, rep);
  }

  /** A brace-free prefix passes through a placeholder `ReplaceAll` unchanged, whatever follows it. */
  lemma {:induction false} ReplaceAllSkipsBraceFree(a: string, b: string, pat: string, rep: string)
    requires |pat| > 0 && pat[0] == '{' && BraceFree(a)
    ensures ReplaceAll(a + b, pat, rep) == a + ReplaceAll(b, pat, rep)
    decreases |a|
  {
    if a == [] {
      assert a + b == b;
    } else if |a + b| < |pat| {
      assert ReplaceAll(b, pat, rep) == b;
    } else {
      assert (a + b)[..|pat|][0] == a[0];
      assert (a + b)[1..] == a[1..] + b;
      ReplaceAllSkipsBraceFree(a[1..], b, pat, rep);
      assert [a[0]] + a[1..] == a;
    }
  }

  /** An occurrence of the pattern at the front is replaced, and the scan goes on after it. */
  lemma ReplaceAllAtFront(b: string, pat: string, rep: string)
    requires |pat| > 0
    ensures ReplaceAll(pat + b, pat, rep) == rep + ReplaceAll(b, pat, rep)
  {
    assert (pat + b)[..|pat|] == pat;
    assert (pat + b)[|pat|..] == b;
  }

  /** Brace-free text, then the pattern: the text is kept and the pattern replaced. */
  lemma ReplaceAllPastBraceFree(a: string, b: string, pat: string, rep: string)
    requires |pat| > 0 && pat[0] == '{' && BraceFree(a)
    ensures ReplaceAll(a + pat + b, pat, rep) == a + rep + ReplaceAll(b, pat, rep)
  {
    assert a + pat + b == a + (pat + b);
    ReplaceAllSkipsBraceFree(a, pat + b, pat, rep);
    ReplaceAllAtFront(b, pat, rep);
  }

  /**
   * Another placeholder at the front (one that differs from the pattern in
   * its second character and has no further brace) passes through unchanged.
   */
  lemma ReplaceAllSkipsOtherPlaceholder(q: string, b: string, pat: string, rep: string)
    requires |pat| >= 2 && pat[0] == '{' && |q| >= 2 && q[1] != pat[1] && BraceFree(q[1..])
    ensures ReplaceAll(q + b, pat, rep) == q + ReplaceAll(b, pat, rep)
  {
    var s := q + b;
    if |s| < |pat| {
      assert |b| < |pat|;
      assert ReplaceAll(b, pat, rep) == b;
    } else {
      assert s[..|pat|] != pat by { assert s[..|pat|][1] == q[1]; }
      assert s[1..] == q[1..] + b;
      assert ReplaceAll(s, pat, rep) == [q[0]] + ReplaceAll(q[1..] + b, pat, rep);
      ReplaceAllSkipsBraceFree(q[1..], b, pat, rep);
      assert [q[0]] + q[1..] == q;
    }
  }

  /** Joining comma-free pieces with `", "` keeps them brace-free if they were. */
  lemma {:induction false} JoinBraceFree(parts: seq<string>, sep: string)
    requires BraceFree(sep) && forall k :: 0 <= k < |parts| ==> BraceFree(parts[k])
    ensures BraceFree(Join(parts, sep))
  {
    if |parts| > 1 {
      JoinBraceFree(parts[1..], sep);
    }
  }

  lemma SplitCommaFree(a: string, sep: string)
    requires |sep| > 0 && sep[0] == ',' && CommaFree(a)
    ensures Split(a, sep) == [a]
    decreases |a|
  {
    if |a| >= |sep| {
      assert a[..|sep|][0] == a[0];
      SplitCommaFree(a[1..], sep);
      assert [a[0]] + a[1..] == a;
    }
  }

  lemma SplitAfterCommaFree(a: string, sep: string, rest: string)
    requires |sep| > 0 && sep[0] == ',' && CommaFree(a)
    ensures Split(a + sep + rest, sep) == [a] + Split(rest, sep)
    decreases |a|
  {
    var s := a + sep + rest;
    if |a| == 0 {
      assert s == sep + rest;
      assert s[..|sep|] == sep;
      assert s[|sep|..] == rest;
    } else {
      assert s[..|sep|][0] == a[0];
      assert s[1..] == a[1..] + sep + rest;
      SplitAfterCommaFree(a[1..], sep, rest);
      assert [a[0]] + a[1..] == a;
    }
  }

  /**
   * Pieces without a comma, joined by a separator that starts with one, are
   * split back into exactly those pieces, in order.
   */
  lemma {:induction false} SplitOfJoin(parts: seq<string>, sep: string)
    requires |parts| > 0 && |sep| > 0 && sep[0] == ','
    requires forall k :: 0 <= k < |parts| ==> CommaFree(parts[k])
    ensures Split(Join(parts, sep), sep) == parts
  {
    if |parts| == 1 {
      SplitCommaFree(parts[0], sep);
    } else {
      SplitOfJoin(parts[1..], sep);
      SplitAfterCommaFree(parts[0], sep, Join(parts[1..], sep));
      assert parts == [parts[0]] + parts[1..];
    }
  }
}
