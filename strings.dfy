/**
 * The JavaScript string operations the application relies on, written out over
 * `seq<char>`: the `\s` / `trim()` whitespace set, `\d`, the line terminators
 * that `.` does not match, `indexOf`-style search, `split` on one character,
 * `join`, and `parseInt` of a run of decimal digits.
 */
module Strings {
  import opened Options

  /** One character of JavaScript's `\s` class; `String.prototype.trim` strips exactly this set. */
  predicate IsWs(c: char) {
    || c == '\t' || c == '\n' || c == '\U{B}' || c == '\U{C}' || c == '\r' || c == ' '
    || c == '\U{A0}' || c == '\U{1680}' || ('\U{2000}' <= c <= '\U{200A}')
    || c == '\U{2028}' || c == '\U{2029}' || c == '\U{202F}' || c == '\U{205F}'
    || c == '\U{3000}' || c == '\U{FEFF}'
  }

  /** The characters that `.` refuses to match when the `s` flag is absent. */
  predicate IsLineTerminator(c: char) {
    c == '\n' || c == '\r' || c == '\U{2028}' || c == '\U{2029}'
  }

  /** JavaScript's `\d`: the ASCII digits only. */
  predicate IsDigit(c: char) {
    '0' <= c <= '9'
  }

  predicate AllWs(s: string) {
    forall k :: 0 <= k < |s| ==> IsWs(s[k])
  }

  predicate AllDigits(s: string) {
    forall k :: 0 <= k < |s| ==> IsDigit(s[k])
  }

  /** `pat` occurs in `s` at index `i`. */
  predicate StartsWithAt(s: string, i: nat, pat: string) {
    i + |pat| <= |s| && s[i..i + |pat|] == pat
  }

  /** `String.prototype.startsWith`. */
  predicate StartsWith(s: string, pat: string) {
    StartsWithAt(s, 0, pat)
  }

  // ---------------------------------------------------------------------------
  // Whitespace and trim
  // ---------------------------------------------------------------------------

  /** The index just past the whitespace run that starts at `i`: where a greedy `\s*` stops. */
  function SkipWs(s: string, i: nat): (j: nat)
    requires i <= |s|
    ensures i <= j <= |s|
    ensures forall k :: i <= k < j ==> IsWs(s[k])
    ensures j == |s| || !IsWs(s[j])
    decreases |s| - i
  {
    if i < |s| && IsWs(s[i]) then SkipWs(s, i + 1) else i
  }

  /** The index where the whitespace run that ends at `j` begins. */
  function SkipWsBack(s: string, j: nat): (i: nat)
    requires j <= |s|
    ensures i <= j
    ensures forall k :: i <= k < j ==> IsWs(s[k])
    ensures i == 0 || !IsWs(s[i - 1])
  {
    if j > 0 && IsWs(s[j - 1]) then SkipWsBack(s, j - 1) else j
  }

  /** Neither end of `s` is whitespace. */
  predicate Trimmed(s: string) {
    |s| == 0 || (!IsWs(s[0]) && !IsWs(s[|s| - 1]))
  }

  /** `r` is the slice of `s` at offset `a`, and only whitespace lies around it. */
  predicate PaddedBy(s: string, a: nat, r: string) {
    a + |r| <= |s| && s[a..a + |r|] == r && AllWs(s[..a]) && AllWs(s[a + |r|..])
  }

  /** `String.prototype.trim`: the slice of `s` left after removing whitespace from both ends. */
  function Trim(s: string): (r: string)
    ensures Trimmed(r)
    ensures exists a :: PaddedBy(s, a, r)
  {
    var i := SkipWs(s, 0);
    if i == |s| then
      assert PaddedBy(s, 0, "");
      ""
    else
      var j := SkipWsBack(s, |s|);
      assert i < j;
      assert PaddedBy(s, i, s[i..j]);
      s[i..j]
  }

  /** A non-empty slice padded only by whitespace, with no whitespace at its ends, starts and stops where trim does. */
  lemma PaddedBounds(s: string, a: nat, r: string)
    requires Trimmed(r) && PaddedBy(s, a, r) && |r| > 0
    ensures a == SkipWs(s, 0) && a + |r| == SkipWsBack(s, |s|)
  {
    assert s[a] == r[0] && s[a + |r| - 1] == r[|r| - 1];
    assert forall k :: 0 <= k < a ==> IsWs(s[k]) by {
      forall k | 0 <= k < a ensures IsWs(s[k]) { assert s[..a][k] == s[k]; }
    }
    assert forall k :: a + |r| <= k < |s| ==> IsWs(s[k]) by {
      forall k | a + |r| <= k < |s| ensures IsWs(s[k]) { assert s[a + |r|..][k - a - |r|] == s[k]; }
    }
  }

  /** Trim is determined by its two properties: a trimmed slice padded only by whitespace is the trim. */
  lemma TrimUnique(s: string, a: nat, r: string)
    requires Trimmed(r) && PaddedBy(s, a, r)
    ensures r == Trim(s)
  {
    if |r| == 0 {
      assert forall k :: 0 <= k < |s| ==> IsWs(s[k]) by {
        forall k | 0 <= k < |s| ensures IsWs(s[k]) {
          if k < a { assert s[..a][k] == s[k]; } else { assert s[a..][k - a] == s[k]; }
        }
      }
    } else {
      PaddedBounds(s, a, r);
    }
  }

  /** Trimming an already trimmed string changes nothing; in particular trim is idempotent. */
  lemma TrimTrimmed(s: string)
    requires Trimmed(s)
    ensures Trim(s) == s
  {
    assert s[..0] == "" && s[|s|..] == "" && s[0..|s|] == s;
    TrimUnique(s, 0, s);
  }

  /** A string without whitespace is its own trim. */
  lemma TrimNoWs(s: string)
    requires forall k :: 0 <= k < |s| ==> !IsWs(s[k])
    ensures Trim(s) == s
  {
    TrimTrimmed(s);
  }

  // ---------------------------------------------------------------------------
  // Search
  // ---------------------------------------------------------------------------

  /** The first index at or after `from` where `pat` occurs, if any (what a regex search for a literal finds). */
  function FindFrom(s: string, pat: string, from: nat): (r: Option<nat>)
    requires from <= |s|
    ensures r.Some? ==> from <= r.value && StartsWithAt(s, r.value, pat)
    ensures r.Some? ==> forall k :: from <= k < r.value ==> !StartsWithAt(s, k, pat)
    ensures r.None? ==> forall k :: from <= k ==> !StartsWithAt(s, k, pat)
    decreases |s| - from
  {
    if StartsWithAt(s, from, pat) then Some(from)
    else if from < |s| then FindFrom(s, pat, from + 1)
    else None
  }

  /** An occurrence of `pat` at `k` fixes the characters of `s` from `k` on. */
  lemma OccurrenceChar(s: string, k: nat, pat: string, i: nat)
    requires i < |pat|
    ensures StartsWithAt(s, k, pat) ==> s[k + i] == pat[i]
  {
    if StartsWithAt(s, k, pat) {
      assert s[k..k + |pat|][i] == s[k + i];
    }
  }

  /** A prefix of `a` is a prefix of anything that extends `a`. */
  lemma StartsWithExtended(a: string, b: string, pat: string)
    requires StartsWith(a, pat)
    ensures StartsWith(a + b, pat)
  {
    assert (a + b)[..|pat|] == a[..|pat|];
  }

  /** An occurrence of `a + b` at `k` is an occurrence of `a` at `k` followed by one of `b`. */
  lemma OccurrenceSplit(s: string, k: nat, a: string, b: string)
    requires StartsWithAt(s, k, a + b)
    ensures StartsWithAt(s, k, a) && StartsWithAt(s, k + |a|, b)
  {
    assert s[k..k + |a|] == s[k..k + |a + b|][..|a|];
    assert s[k + |a|..k + |a| + |b|] == s[k..k + |a + b|][|a|..];
  }

  /** A pattern whose first character `a` lacks occurs in `a + b` only where it occurs in `b`. */
  lemma NoOccurrenceAfterPrefix(a: string, b: string, pat: string)
    requires |pat| > 0 && pat[0] !in a
    requires forall k: nat :: !StartsWithAt(b, k, pat)
    ensures forall k: nat :: !StartsWithAt(a + b, k, pat)
  {
    forall k: nat ensures !StartsWithAt(a + b, k, pat) {
      OccurrenceChar(a + b, k, pat, 0);
      if k < |a| {
        assert (a + b)[k] == a[k];
      } else if k + |pat| <= |a + b| {
        var j := k - |a|;
        assert (a + b)[|a|..] == b;
        assert (a + b)[k..k + |pat|] == b[j..j + |pat|];
        assert StartsWithAt(a + b, k, pat) <==> StartsWithAt(b, j, pat);
      }
    }
  }

  /** Any end of a maximal whitespace run from `i` is where `SkipWs` stops. */
  lemma SkipWsUnique(s: string, i: nat, w: nat)
    requires i <= w <= |s|
    requires forall k :: i <= k < w ==> IsWs(s[k])
    requires w == |s| || !IsWs(s[w])
    ensures SkipWs(s, i) == w
  {
  }

  /** Any first occurrence of `pat` at or after `from` is what `FindFrom` reports. */
  lemma FindFromUnique(s: string, pat: string, from: nat, t: nat)
    requires from <= t
    requires StartsWithAt(s, t, pat)
    requires forall k :: from <= k < t ==> !StartsWithAt(s, k, pat)
    ensures FindFrom(s, pat, from) == Some(t)
  {
  }

  /** `c` occurs in `s`, so this is its first index. */
  function IndexOf(s: string, c: char): (i: nat)
    requires c in s
    ensures i < |s| && s[i] == c && c !in s[..i]
  {
    if s[0] == c then 0
    else
      var i := IndexOf(s[1..], c);
      assert s[1..][..i] == s[1..i + 1];
      assert s[..i + 1] == [s[0]] + s[1..i + 1];
      i + 1
  }

  /** The number of occurrences of `c` in `s`. */
  function CountChar(s: string, c: char): (n: nat)
    ensures n <= |s|
    ensures n == 0 <==> c !in s
  {
    if |s| == 0 then 0
    else
      assert s == [s[0]] + s[1..];
      (if s[0] == c then 1 else 0) + CountChar(s[1..], c)
  }

  lemma {:induction false} CountCharConcat(a: string, b: string, c: char)
    ensures CountChar(a + b, c) == CountChar(a, c) + CountChar(b, c)
  {
    if |a| == 0 {
      assert a + b == b;
    } else {
      assert (a + b)[0] == a[0] && (a + b)[1..] == a[1..] + b;
      CountCharConcat(a[1..], b, c);
    }
  }

  // ---------------------------------------------------------------------------
  // split and join
  // ---------------------------------------------------------------------------

  /** `Array.prototype.join(sep)`: the parts with `sep` between neighbours; `[]` gives `""`. */
  function Join(parts: seq<string>, sep: char): string {
    if |parts| == 0 then ""
    else if |parts| == 1 then parts[0]
    else parts[0] + [sep] + Join(parts[1..], sep)
  }

  /**
   * `String.prototype.split(sep)` for a one-character separator: k separators
   * give k + 1 pieces, none holding the separator, and joining them back with
   * the separator restores `s` (so `"a,,b"` gives `["a", "", "b"]`, `""` gives `[""]`).
   */
  function Split(s: string, sep: char): (parts: seq<string>)
    ensures |parts| == CountChar(s, sep) + 1
    ensures forall k :: 0 <= k < |parts| ==> sep !in parts[k]
    ensures Join(parts, sep) == s
    decreases |s|
  {
    if sep !in s then [s]
    else
      var i := IndexOf(s, sep);
      var rest := Split(s[i + 1..], sep);
      assert s == s[..i] + [sep] + s[i + 1..];
      CountCharConcat(s[..i] + [sep], s[i + 1..], sep);
      CountCharConcat(s[..i], [sep], sep);
      assert ([s[..i]] + rest)[1..] == rest;
      [s[..i]] + rest
  }

  /** The first separator of `p0 + [sep] + rest` is the one right after `p0` when `p0` holds none. */
  lemma FirstSeparator(p0: string, sep: char, rest: string)
    requires sep !in p0
    ensures sep in p0 + [sep] + rest
    ensures IndexOf(p0 + [sep] + rest, sep) == |p0|
  {
    var s := p0 + [sep] + rest;
    assert s[|p0|] == sep;
    var i := IndexOf(s, sep);
    assert s[..|p0|] == p0;
    assert forall k :: 0 <= k < i ==> s[..i][k] == s[k];
  }

  /** The first field of a split is a prefix, ended by the end of the input or by a separator. */
  lemma SplitHead(s: string, sep: char)
    ensures StartsWith(s, Split(s, sep)[0])
    ensures |Split(s, sep)[0]| == |s| || s[|Split(s, sep)[0]|] == sep
  {
  }

  /** With a separator in `s`, the fields after the first are those of the text after the first separator. */
  lemma SplitTail(s: string, sep: char)
    requires sep in s
    ensures Split(s, sep)[1..] == Split(s[IndexOf(s, sep) + 1..], sep)
  {
  }

  /** The second field of a split starts right after the first separator and ends at the end or at a separator. */
  lemma SecondField(s: string, sep: char, i: nat, t: string)
    requires sep in s && i == IndexOf(s, sep)
    requires |Split(s, sep)| >= 2 && t == Split(s, sep)[1]
    ensures StartsWithAt(s, i + 1, t)
    ensures i + 1 + |t| == |s| || s[i + 1 + |t|] == sep
  {
    SplitTail(s, sep);
    assert t == Split(s[i + 1..], sep)[0];
    SplitHead(s[i + 1..], sep);
    FieldInSuffix(s, i + 1, t, sep);
  }

  /** A field at the start of `s[j..]` is a field of `s` at `j`. */
  lemma FieldInSuffix(s: string, j: nat, t: string, sep: char)
    requires j <= |s| && StartsWith(s[j..], t)
    requires |t| == |s[j..]| || s[j..][|t|] == sep
    ensures StartsWithAt(s, j, t)
    ensures j + |t| == |s| || s[j + |t|] == sep
  {
    assert s[j..j + |t|] == s[j..][..|t|];
  }

  /** Splitting `a + [sep] + b` with no separator in `a` gives `a`, then the fields of `b`. */
  lemma SplitAfterFirst(a: string, sep: char, b: string)
    requires sep !in a
    ensures Split(a + [sep] + b, sep) == [a] + Split(b, sep)
  {
    var s := a + [sep] + b;
    FirstSeparator(a, sep, b);
    assert s[..|a|] == a;
    assert s[|a| + 1..] == b;
  }

  /** Joining is injective on non-empty lists of separator-free parts. */
  lemma {:induction false} JoinInjective(a: seq<string>, b: seq<string>, sep: char)
    requires |a| >= 1 && |b| >= 1
    requires forall k :: 0 <= k < |a| ==> sep !in a[k]
    requires forall k :: 0 <= k < |b| ==> sep !in b[k]
    requires Join(a, sep) == Join(b, sep)
    ensures a == b
  {
    var s := Join(a, sep);
    if |a| == 1 && |b| == 1 {
    } else if |a| == 1 {
      FirstSeparator(b[0], sep, Join(b[1..], sep));
    } else if |b| == 1 {
      FirstSeparator(a[0], sep, Join(a[1..], sep));
    } else {
      FirstSeparator(a[0], sep, Join(a[1..], sep));
      FirstSeparator(b[0], sep, Join(b[1..], sep));
      assert |a[0]| == |b[0]|;
      assert a[0] == s[..|a[0]|] == b[0];
      assert Join(a[1..], sep) == s[|a[0]| + 1..] == Join(b[1..], sep);
      JoinInjective(a[1..], b[1..], sep);
      assert a == [a[0]] + a[1..] && b == [b[0]] + b[1..];
    }
  }

  /** Splitting undoes joining when no part holds the separator. */
  lemma SplitJoin(parts: seq<string>, sep: char)
    requires |parts| >= 1
    requires forall k :: 0 <= k < |parts| ==> sep !in parts[k]
    ensures Split(Join(parts, sep), sep) == parts
  {
    JoinInjective(Split(Join(parts, sep), sep), parts, sep);
  }

  // ---------------------------------------------------------------------------
  // Decimal digits
  // ---------------------------------------------------------------------------

  /** The index just past the run of digits that starts at `i`: where a greedy `\d+` stops. */
  function DigitRunEnd(s: string, i: nat): (e: nat)
    requires i <= |s|
    ensures i <= e <= |s|
    ensures forall k :: i <= k < e ==> IsDigit(s[k])
    ensures e == |s| || !IsDigit(s[e])
    decreases |s| - i
  {
    if i < |s| && IsDigit(s[i]) then DigitRunEnd(s, i + 1) else i
  }

  /** Any end of a maximal digit run from `i` is where `DigitRunEnd` stops. */
  lemma DigitRunEndUnique(s: string, i: nat, e: nat)
    requires i <= e <= |s|
    requires forall k :: i <= k < e ==> IsDigit(s[k])
    requires e == |s| || !IsDigit(s[e])
    ensures DigitRunEnd(s, i) == e
  {
  }

  function DigitValue(c: char): (d: nat)
    requires IsDigit(c)
    ensures d < 10
  {
    (c as int) - ('0' as int)
  }

  /** `parseInt` applied to a string of decimal digits (any length, leading zeros allowed). */
  function DecimalValue(s: string): nat
    requires AllDigits(s)
  {
    if |s| == 0 then 0 else DecimalValue(s[..|s| - 1]) * 10 + DigitValue(s[|s| - 1])
  }

  function DigitChar(d: nat): (c: char)
    requires d < 10
    ensures IsDigit(c) && DigitValue(c) == d
  {
    (('0' as int) + d) as char
  }

  /** The decimal rendering of `n`, with no leading zeros, as a client writes a numeric id into text. */
  function ShowNat(n: nat): (s: string)
    ensures |s| >= 1 && AllDigits(s)
  {
    if n < 10 then [DigitChar(n)] else ShowNat(n / 10) + [DigitChar(n % 10)]
  }

  /** Reading back the decimal rendering of a number gives the number. */
  lemma {:induction false} DecimalValueShowNat(n: nat)
    ensures DecimalValue(ShowNat(n)) == n
  {
    var s := ShowNat(n);
    if n >= 10 {
      assert s[..|s| - 1] == ShowNat(n / 10);
      DecimalValueShowNat(n / 10);
    }
  }
}
