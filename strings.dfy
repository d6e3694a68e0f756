/**
 * The parts of Python's `str` that the modelled code relies on: whitespace,
 * `strip`, `find`, `split`, `join`, `replace`, `*` and `str(int)`.
 */
module Strings {

  /** Concatenation regrouped. */
  lemma SeqAssoc<T>(a: seq<T>, b: seq<T>, c: seq<T>)
    ensures a + (b + c) == (a + b) + c
  {
  }

  /** The head and the tail of a concatenation whose first part is not empty. */
  lemma ConsConcat<T>(a: seq<T>, b: seq<T>)
    requires a != []
    ensures (a + b)[0] == a[0] && (a + b)[1..] == a[1..] + b
  {
  }

  /** Dropping a prefix of the first part of a concatenation. */
  lemma DropConcat<T>(a: seq<T>, b: seq<T>, k: nat)
    requires k <= |a|
    ensures (a + b)[k..] == a[k..] + b
  {
  }

  /** The front and the last element of a concatenation whose second part is not empty. */
  lemma SnocConcat<T>(a: seq<T>, b: seq<T>)
    requires b != []
    ensures (a + b)[|a + b| - 1] == b[|b| - 1] && (a + b)[..|a + b| - 1] == a + b[..|b| - 1]
  {
  }

  /** A slice cut in two at a point inside it. */
  lemma SliceSplit<T>(s: seq<T>, i: nat, j: nat, k: nat)
    requires i <= j <= k <= |s|
    ensures s[i..k] == s[i..j] + s[j..k]
  {
  }

  /** A suffix cut in two at a point inside it. */
  lemma SuffixSplit<T>(s: seq<T>, i: nat, j: nat)
    requires i <= j <= |s|
    ensures s[i..] == s[i..j] + s[j..]
  {
  }

  /** `c.isspace()`; also the characters `\s` matches in a `str` pattern. */
  predicate IsSpace(c: char) {
    || ('\t' <= c <= '\r')
    || ('\U{1C}' <= c <= ' ')
    || c == '\U{85}' || c == '\U{A0}' || c == '\U{1680}'
    || ('\U{2000}' <= c <= '\U{200A}')
    || c == '\U{2028}' || c == '\U{2029}' || c == '\U{202F}' || c == '\U{205F}' || c == '\U{3000}'
  }

  predicate AllSpace(s: string) {
    forall i :: 0 <= i < |s| ==> IsSpace(s[i])
  }

  /** A string that `strip()` leaves alone. */
  predicate IsStripped(s: string) {
    s == [] || (!IsSpace(s[0]) && !IsSpace(s[|s| - 1]))
  }

  /** `s.lstrip()`. */
  function StripLeft(s: string): (r: string)
    ensures |r| <= |s| && r == s[|s| - |r|..]
    ensures AllSpace(s[..|s| - |r|])
    ensures r == [] || !IsSpace(r[0])
  {
    if s != [] && IsSpace(s[0]) then
      var t := s[1..];
      var r := StripLeft(t);
      assert s[..|s| - |r|] == [s[0]] + t[..|t| - |r|];
      r
    else s
  }

  /** `s.rstrip()`. */
  function StripRight(s: string): (r: string)
    ensures |r| <= |s| && r == s[..|r|]
    ensures AllSpace(s[|r|..])
    ensures r == [] || !IsSpace(r[|r| - 1])
  {
    if s != [] && IsSpace(s[|s| - 1]) then
      var t := s[..|s| - 1];
      var r := StripRight(t);
      assert s[|r|..] == t[|r|..] + [s[|s| - 1]];
      r
    else s
  }

  /** `s.strip()`: whitespace removed from both ends, nothing else. */
  function Strip(s: string): (r: string)
    ensures IsStripped(r)
    ensures |r| <= |s|
  {
    var t := StripLeft(s);
    var r := StripRight(t);
    assert r != [] ==> r[0] == t[0];
    r
  }

  lemma StripLeftOfStripped(s: string)
    requires s == [] || !IsSpace(s[0])
    ensures StripLeft(s) == s
  {
  }

  lemma StripRightOfStripped(s: string)
    requires s == [] || !IsSpace(s[|s| - 1])
    ensures StripRight(s) == s
  {
  }

  /** `strip()` changes nothing exactly when there is nothing to strip. */
  lemma StripIdentity(s: string)
    ensures Strip(s) == s <==> IsStripped(s)
  {
    if IsStripped(s) {
      StripLeftOfStripped(s);
      StripRightOfStripped(s);
    }
  }

  /** Stripping twice is stripping once. */
  lemma StripIdempotent(s: string)
    ensures Strip(Strip(s)) == Strip(s)
  {
    StripIdentity(Strip(s));
  }

  lemma {:induction false} StripLeftPadded(a: string, s: string)
    requires AllSpace(a)
    ensures StripLeft(a + s) == StripLeft(s)
    decreases |a|
  {
    if a != [] {
      assert (a + s)[0] == a[0] && IsSpace(a[0]);
      assert (a + s)[1..] == a[1..] + s;
      StripLeftPadded(a[1..], s);
    } else {
      assert a + s == s;
    }
  }

  lemma {:induction false} StripRightPadded(s: string, b: string)
    requires AllSpace(b)
    ensures StripRight(s + b) == StripRight(s)
    decreases |b|
  {
    if b != [] {
      SnocConcat(s, b);
      StripRightPadded(s, b[..|b| - 1]);
    } else {
      assert s + b == s;
    }
  }

  /** `(a + s + b).strip() == s.strip()` when `a` and `b` are whitespace. */
  lemma StripPadded(a: string, s: string, b: string)
    requires AllSpace(a) && AllSpace(b)
    ensures Strip(a + s + b) == Strip(s)
  {
    assert a + s + b == a + (s + b);
    StripLeftPadded(a, s + b);
    StripLeftBeforeSpaces(s, b);
    var t := StripLeft(s);
    assert StripLeft(a + s + b) == if t == [] then [] else t + b;
    if t != [] {
      StripRightPadded(t, b);
    }
  }

  /** Whitespace appended after `s` survives `lstrip` unless `s` is all whitespace. */
  lemma {:induction false} StripLeftBeforeSpaces(s: string, b: string)
    requires AllSpace(b)
    ensures StripLeft(s + b) == if StripLeft(s) == [] then [] else StripLeft(s) + b
    decreases |s|
  {
    if s == [] {
      assert s + b == b;
      AllSpaceStripLeft(b);
    } else {
      assert (s + b)[0] == s[0];
      if IsSpace(s[0]) {
        assert (s + b)[1..] == s[1..] + b;
        StripLeftBeforeSpaces(s[1..], b);
      }
    }
  }

  lemma AllSpaceConcat(x: string, y: string)
    requires AllSpace(x) && AllSpace(y)
    ensures AllSpace(x + y)
  {
    forall i | 0 <= i < |x + y| ensures IsSpace((x + y)[i]) {
      if i < |x| {
        assert (x + y)[i] == x[i];
      } else {
        assert (x + y)[i] == y[i - |x|];
      }
    }
  }

  lemma {:induction false} AllSpaceStripLeft(s: string)
    requires AllSpace(s)
    ensures StripLeft(s) == []
    decreases |s|
  {
    if s != [] {
      AllSpaceStripLeft(s[1..]);
    }
  }

  /** `pat` occurs in `s` starting at index `i`. */
  predicate OccursAt(s: string, pat: string, i: int) {
    0 <= i && i + |pat| <= |s| && s[i..i + |pat|] == pat
  }

  predicate Contains(s: string, pat: string) {
    exists i | 0 <= i <= |s| :: OccursAt(s, pat, i)
  }

  /** `s.find(pat, from)`: the lowest index at or after `from` where `pat` occurs, or -1. */
  function Find(s: string, pat: string, from: nat): (r: int)
    ensures r == -1 || (from <= r && OccursAt(s, pat, r))
    ensures forall i :: from <= i && (r == -1 || i < r) ==> !OccursAt(s, pat, i)
    decreases |s| - from
  {
    if from + |pat| > |s| then -1
    else if OccursAt(s, pat, from) then from
    else Find(s, pat, from + 1)
  }

  /** `find` reports an occurrence that nothing between `from` and it precedes. */
  lemma FindAt(s: string, pat: string, from: nat, i: nat)
    requires from <= i && OccursAt(s, pat, i)
    requires forall k :: from <= k < i ==> !OccursAt(s, pat, k)
    ensures Find(s, pat, from) == i
  {
  }

  /** No occurrence starts where the text differs from the pattern's first character. */
  lemma NotOccursAt(s: string, pat: string, k: nat)
    requires pat != [] && k < |s| && s[k] != pat[0]
    ensures !OccursAt(s, pat, k)
  {
    if k + |pat| <= |s| {
      assert s[k..k + |pat|][0] == s[k];
    }
  }

  /** An occurrence inside a prefix is an occurrence in the whole string. */
  lemma OccursInPrefix(s: string, pat: string, n: nat, i: int)
    requires n <= |s| && OccursAt(s[..n], pat, i)
    ensures OccursAt(s, pat, i)
  {
    assert s[..n][i..i + |pat|] == s[i..i + |pat|];
  }

  /** An occurrence inside a suffix is an occurrence in the whole string. */
  lemma OccursInSuffix(s: string, pat: string, n: nat, i: int)
    requires n <= |s| && OccursAt(s[n..], pat, i)
    ensures OccursAt(s, pat, n + i)
  {
    assert s[n..][i..i + |pat|] == s[n + i..n + i + |pat|];
  }

  /** `sep.join(parts)`. */
  function Join(sep: string, parts: seq<string>): string {
    if parts == [] then ""
    else if |parts| == 1 then parts[0]
    else parts[0] + sep + Join(sep, parts[1..])
  }

  /**
   * `s.split(sep)` for a non-empty separator: the pieces between the
   * leftmost non-overlapping occurrences of `sep`.
   */
  function Split(s: string, sep: string): (parts: seq<string>)
    requires sep != []
    ensures |parts| >= 1
    ensures forall k :: 0 <= k < |parts| ==> !Contains(parts[k], sep)
    ensures Join(sep, parts) == s
    decreases |s|
  {
    var i := Find(s, sep, 0);
    if i == -1 then [s]
    else
      var rest := Split(s[i + |sep|..], sep);
      assert !Contains(s[..i], sep) by {
        forall j | OccursAt(s[..i], sep, j) ensures false {
          OccursInPrefix(s, sep, i, j);
        }
      }
      assert s == s[..i] + sep + s[i + |sep|..] by {
        assert s[i..i + |sep|] == sep;
      }
      [s[..i]] + rest
  }

  /** A string without the one-character separator is a single piece. */
  lemma SplitNoChar(x: string, sep: string)
    requires |sep| == 1 && sep[0] !in x
    ensures Split(x, sep) == [x]
  {
    forall i | 0 <= i < |x| ensures !OccursAt(x, sep, i) {
      assert x[i] != sep[0];
    }
  }

  /** Splitting on a one-character separator stops at its first occurrence. */
  lemma SplitAtChar(x: string, sep: string, w: string)
    requires |sep| == 1 && sep[0] !in x
    ensures Split(x + sep + w, sep) == [x] + Split(w, sep)
  {
    var s := x + sep + w;
    forall k | 0 <= k < |x| ensures !OccursAt(s, sep, k) {
      assert s[k] == x[k];
    }
    assert s[|x|..|x| + 1] == sep;
    FindAt(s, sep, 0, |x|);
    assert s[..|x|] == x;
    assert s[|x| + 1..] == w;
  }

  /**
   * `s.replace(target, replacement)`: every leftmost non-overlapping
   * occurrence of `target` becomes `replacement`; an empty `target` puts
   * `replacement` before every character and at the end.
   */
  function Replace(s: string, target: string, replacement: string): string
    decreases |s|
  {
    if target == [] then
      (if s == [] then replacement else replacement + [s[0]] + Replace(s[1..], target, replacement))
    else
      var i := Find(s, target, 0);
      if i == -1 then s else s[..i] + replacement + Replace(s[i + |target|..], target, replacement)
  }

  /**
   * Python's identity `s.replace(t, r) == r.join(s.split(t))`: the string is
   * cut at the occurrences of `t`, none of the pieces holds `t`, and every
   * cut is filled with the same `r`.
   */
  lemma {:induction false} ReplaceIsJoinOfSplit(s: string, t: string, r: string)
    requires t != []
    ensures Replace(s, t, r) == Join(r, Split(s, t))
    decreases |s|
  {
    var i := Find(s, t, 0);
    if i != -1 {
      ReplaceIsJoinOfSplit(s[i + |t|..], t, r);
      var rest := Split(s[i + |t|..], t);
      assert Split(s, t) == [s[..i]] + rest;
      assert ([s[..i]] + rest)[1..] == rest;
    }
  }

  /** Replacing a string by itself changes nothing. */
  lemma ReplaceBySelf(s: string, t: string)
    requires t != []
    ensures Replace(s, t, t) == s
  {
    ReplaceIsJoinOfSplit(s, t, t);
  }

  /** Replacing a string that does not occur changes nothing. */
  lemma ReplaceAbsent(s: string, t: string, r: string)
    requires t != [] && !Contains(s, t)
    ensures Replace(s, t, r) == s
  {
  }

  /** `s * n`. */
  function Repeat(s: string, n: nat): string {
    if n == 0 then "" else s + Repeat(s, n - 1)
  }

  function DigitChar(d: nat): char
    requires d < 10
  {
    ['0', '1', '2', '3', '4', '5', '6', '7', '8', '9'][d]
  }

  /** Decimal digits of a natural number, most significant first, without leading zeros. */
  function NatToString(n: nat): (r: string)
    ensures |r| >= 1
    ensures forall i :: 0 <= i < |r| ==> '0' <= r[i] <= '9'
    ensures |r| > 1 ==> r[0] != '0'
  {
    if n < 10 then [DigitChar(n)] else NatToString(n / 10) + [DigitChar(n % 10)]
  }

  /** The number a string of decimal digits denotes, most significant digit first. */
  function DecimalValue(r: string): nat
    requires forall i :: 0 <= i < |r| ==> '0' <= r[i] <= '9'
  {
    if r == [] then 0 else DecimalValue(r[..|r| - 1]) * 10 + (r[|r| - 1] as int - '0' as int)
  }

  /** `str(n)` reads back as `n`: `int(str(n)) == n`. */
  lemma {:induction false} NatToStringValue(n: nat)
    ensures DecimalValue(NatToString(n)) == n
  {
    if n < 10 {
      DigitCharValue(n);
    } else {
      NatToStringValue(n / 10);
      DigitCharValue(n % 10);
      var r := NatToString(n);
      assert r[..|r| - 1] == NatToString(n / 10) && r[|r| - 1] == DigitChar(n % 10);
      assert DecimalValue(r) == DecimalValue(NatToString(n / 10)) * 10 + n % 10;
    }
  }

  /** The digit `DigitChar(d)` stands for `d`. */
  lemma DigitCharValue(d: nat)
    requires d < 10
    ensures DigitChar(d) as int - '0' as int == d
  {
  }

  /** Python's `str(n)` for an `int`. */
  function IntToString(n: int): string {
    if n < 0 then "-" + NatToString(-n) else NatToString(n)
  }
}
