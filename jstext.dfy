/** The JavaScript string operations the cart relies on: `String.prototype.trim`,
    the global replacement `replace(/\s+/g, '-')`, and the decimal rendering of a
    non-negative integer inside a template literal. */
module JsText {

  /** ECMAScript WhiteSpace and LineTerminator code points: the set that both
      `trim()` removes and the regular-expression class `\s` matches. */
  function IsSpace(c: char): (b: bool)
    ensures c == ' ' || c == '\t' || c == '\n' || c == '\r' ==> b
    ensures '0' <= c <= '9' || 'a' <= c <= 'z' || 'A' <= c <= 'Z' || c == '-' ==> !b
  {
    var k := c as int;
    || k == 0x09 || k == 0x0A || k == 0x0B || k == 0x0C || k == 0x0D
    || k == 0x20 || k == 0xA0 || k == 0x1680
    || (0x2000 <= k <= 0x200A)
    || k == 0x2028 || k == 0x2029 || k == 0x202F || k == 0x205F
    || k == 0x3000 || k == 0xFEFF
  }

  predicate NoSpace(s: string) {
    forall i :: 0 <= i < |s| ==> !IsSpace(s[i])
  }

  predicate AllSpace(s: string) {
    forall i :: 0 <= i < |s| ==> IsSpace(s[i])
  }

  /** Neither the first nor the last character is whitespace. */
  predicate Trimmed(s: string) {
    s == [] || (!IsSpace(s[0]) && !IsSpace(s[|s| - 1]))
  }

  /** The length of the whitespace run that starts `s`. */
  function LeadingSpaces(s: string): (n: nat)
    ensures n <= |s|
    ensures forall i :: 0 <= i < n ==> IsSpace(s[i])
    ensures n < |s| ==> !IsSpace(s[n])
  {
    if s != [] && IsSpace(s[0]) then 1 + LeadingSpaces(s[1..]) else 0
  }

  /** The length of the whitespace run that ends `s`. */
  function TrailingSpaces(s: string): (n: nat)
    ensures n <= |s|
    ensures forall i :: |s| - n <= i < |s| ==> IsSpace(s[i])
    ensures n < |s| ==> !IsSpace(s[|s| - n - 1])
  {
    if s != [] && IsSpace(s[|s| - 1]) then 1 + TrailingSpaces(s[..|s| - 1]) else 0
  }

  /** `s` without its leading whitespace run. */
  function TrimStart(s: string): string {
    s[LeadingSpaces(s)..]
  }

  /** `s` without its trailing whitespace run. */
  function TrimEnd(s: string): string {
    s[..|s| - TrailingSpaces(s)]
  }

  /** `s.trim()`: whitespace at neither end. */
  function Trim(s: string): (r: string)
    ensures Trimmed(r)
  {
    TrimEnd(TrimStart(s))
  }

  /** `trim()` only removes whitespace, and only at the two ends: `s` is its
      trimmed form between a whitespace prefix and a whitespace suffix. */
  lemma TrimSplits(s: string) returns (w1: string, w2: string)
    ensures AllSpace(w1) && AllSpace(w2) && s == w1 + Trim(s) + w2
  {
    var k := LeadingSpaces(s);
    var m := TrailingSpaces(s[k..]);
    TrimIsSlice(s, k, m);
    TrimDropsSpaces(s, k, m);
    w1, w2 := s[..k], s[|s| - m..];
    SplitThree(s, k, |s| - m);
  }

  lemma SplitThree(s: string, i: nat, j: nat)
    requires i <= j <= |s|
    ensures s == s[..i] + s[i..j] + s[j..]
  {
  }

  /** With `k` the length of the leading whitespace run and `m` that of the
      trailing run of the rest, the trimmed form is `s[k..|s| - m]`. */
  lemma TrimIsSlice(s: string, k: nat, m: nat)
    requires k == LeadingSpaces(s) && m == TrailingSpaces(s[k..])
    ensures k + m <= |s| && Trim(s) == s[k..|s| - m]
  {
    SliceOfSuffix(s, k, m);
  }

  /** What `trim()` drops, at either end, is whitespace only. */
  lemma TrimDropsSpaces(s: string, k: nat, m: nat)
    requires k == LeadingSpaces(s) && m == TrailingSpaces(s[k..])
    ensures k + m <= |s| && AllSpace(s[..k]) && AllSpace(s[|s| - m..])
  {
    SliceOfSuffix(s, k, m);
    var t := s[k..];
    forall i | |s| - m <= i < |s|
      ensures IsSpace(s[i])
    {
      assert s[i] == t[i - k];
    }
  }

  lemma SliceOfSuffix(s: string, k: nat, m: nat)
    requires k + m <= |s|
    ensures s[k..][..|s| - k - m] == s[k..|s| - m]
    ensures s[k..][|s| - k - m..] == s[|s| - m..]
  {
  }

  lemma {:induction false} TrimStartAfterSpaces(w: string, b: string)
    requires AllSpace(w)
    requires b == [] || !IsSpace(b[0])
    ensures LeadingSpaces(w + b) == |w| && TrimStart(w + b) == b
    decreases |w|
  {
    if w != [] {
      assert (w + b)[1..] == w[1..] + b;
      TrimStartAfterSpaces(w[1..], b);
    } else {
      assert w + b == b;
    }
  }

  lemma {:induction false} TrimStartAppend(a: string, b: string)
    requires LeadingSpaces(a) < |a|
    ensures LeadingSpaces(a + b) == LeadingSpaces(a) && TrimStart(a + b) == TrimStart(a) + b
    decreases |a|
  {
    if IsSpace(a[0]) {
      assert (a + b)[1..] == a[1..] + b;
      TrimStartAppend(a[1..], b);
    }
  }

  lemma {:induction false} TrimEndBeforeSpaces(b: string, w: string)
    requires AllSpace(w)
    requires b == [] || !IsSpace(b[|b| - 1])
    ensures TrailingSpaces(b + w) == |w| && TrimEnd(b + w) == b
    decreases |w|
  {
    if w != [] {
      assert (b + w)[..|b + w| - 1] == b + w[..|w| - 1];
      TrimEndBeforeSpaces(b, w[..|w| - 1]);
    } else {
      assert b + w == b;
    }
  }

  /** `trim()` removes exactly the whitespace around a trimmed core. */
  lemma TrimSurrounded(w1: string, s: string, w2: string)
    requires AllSpace(w1) && AllSpace(w2) && Trimmed(s)
    ensures Trim(w1 + s + w2) == s
  {
    if s == [] {
      assert w1 + s + w2 == w1 + w2;
      assert AllSpace(w1 + w2);
      TrimStartAfterSpaces(w1 + w2, []);
      assert w1 + w2 + [] == w1 + w2;
      TrimEndBeforeSpaces([], []);
    } else {
      assert w1 + s + w2 == w1 + (s + w2);
      TrimStartAfterSpaces(w1, s + w2);
      TrimEndBeforeSpaces(s, w2);
    }
  }

  /** `trim()` leaves a trimmed string as it is, so trimming twice is trimming once. */
  lemma TrimIdempotent(s: string)
    ensures Trimmed(s) ==> Trim(s) == s
    ensures Trim(Trim(s)) == Trim(s)
  {
    if Trimmed(s) {
      TrimSurrounded([], s, []);
      assert [] + s + [] == s;
    }
    var t := Trim(s);
    TrimSurrounded([], t, []);
    assert [] + t + [] == t;
  }

  /** `s.replace(/\s+/g, '-')`: every maximal run of whitespace becomes one '-',
      so the result is never longer than `s`. */
  function FoldSpaces(s: string): (r: string)
    ensures |r| <= |s|
    decreases |s|
  {
    if s == [] then []
    else if IsSpace(s[0]) then "-" + FoldSpaces(TrimStart(s))
    else [s[0]] + FoldSpaces(s[1..])
  }

  /** No whitespace survives the replacement. */
  lemma {:induction false} FoldSpacesNoSpace(s: string)
    ensures NoSpace(FoldSpaces(s))
    decreases |s|
  {
    if s != [] {
      if IsSpace(s[0]) {
        FoldSpacesNoSpace(TrimStart(s));
      } else {
        FoldSpacesNoSpace(s[1..]);
      }
    }
  }

  /** Text without whitespace is returned as it is. */
  lemma {:induction false} FoldSpacesOfWord(s: string)
    requires NoSpace(s)
    ensures FoldSpaces(s) == s
    decreases |s|
  {
    if s != [] {
      FoldSpacesOfWord(s[1..]);
      assert s == [s[0]] + s[1..];
    }
  }

  /** A whitespace run followed by a non-space (or by nothing) becomes one '-'. */
  lemma FoldSpacesRun(w: string, b: string)
    requires w != [] && AllSpace(w)
    requires b == [] || !IsSpace(b[0])
    ensures FoldSpaces(w + b) == "-" + FoldSpaces(b)
  {
    assert (w + b)[0] == w[0];
    TrimStartAfterSpaces(w, b);
  }

  /** Folding distributes over a split point that no whitespace run straddles. */
  lemma {:induction false} FoldSpacesAppend(a: string, b: string)
    requires a == [] || !IsSpace(a[|a| - 1])
    ensures FoldSpaces(a + b) == FoldSpaces(a) + FoldSpaces(b)
    decreases |a|, 1
  {
    if a == [] {
      assert a + b == b;
    } else if IsSpace(a[0]) {
      FoldSpacesAppendAtRun(a, b);
    } else {
      FoldSpacesAppendAtWord(a, b);
    }
  }

  lemma {:induction false} FoldSpacesAppendAtRun(a: string, b: string)
    requires a != [] && IsSpace(a[0]) && !IsSpace(a[|a| - 1])
    ensures FoldSpaces(a + b) == FoldSpaces(a) + FoldSpaces(b)
    decreases |a|, 0
  {
    var k := LeadingSpaces(a);
    assert k < |a| by {
      assert !IsSpace(a[|a| - 1]);
    }
    TrimStartAppend(a, b);
    var t := TrimStart(a);
    FoldSpacesAppend(t, b);
    SpaceHeadFolds(a + b);
    SpaceHeadFolds(a);
  }

  lemma {:induction false} FoldSpacesAppendAtWord(a: string, b: string)
    requires a != [] && !IsSpace(a[0]) && !IsSpace(a[|a| - 1])
    ensures FoldSpaces(a + b) == FoldSpaces(a) + FoldSpaces(b)
    decreases |a|, 0
  {
    var a' := a[1..];
    assert (a + b)[1..] == a' + b;
    FoldSpacesAppend(a', b);
    WordHeadFolds(a + b);
    WordHeadFolds(a);
  }

  lemma SpaceHeadFolds(s: string)
    requires s != [] && IsSpace(s[0])
    ensures FoldSpaces(s) == "-" + FoldSpaces(TrimStart(s))
  {
  }

  lemma WordHeadFolds(s: string)
    requires s != [] && !IsSpace(s[0])
    ensures FoldSpaces(s) == [s[0]] + FoldSpaces(s[1..])
  {
  }

  predicate IsDigit(c: char) {
    '0' <= c <= '9'
  }

  predicate AllDigits(s: string) {
    forall i :: 0 <= i < |s| ==> IsDigit(s[i])
  }

  function DigitChar(d: int): (c: char)
    requires 0 <= d < 10
    ensures IsDigit(c) && c as int - '0' as int == d
  {
    ('0' as int + d) as char
  }

  /** The decimal text a template literal gives a non-negative integer: only
      digits, at least one, and no leading zero unless the number is zero. */
  function DecimalString(n: nat): (r: string)
    ensures |r| >= 1 && AllDigits(r)
    ensures r[0] == '0' ==> n == 0
  {
    if n < 10 then [DigitChar(n)] else DecimalString(n / 10) + [DigitChar(n % 10)]
  }

  /** The number a string of decimal digits denotes. */
  function DecimalValue(s: string): nat
    requires AllDigits(s)
  {
    if s == [] then 0
    else 10 * DecimalValue(s[..|s| - 1]) + (s[|s| - 1] as int - '0' as int)
  }

  lemma {:induction false} DecimalRoundTrip(n: nat)
    ensures DecimalValue(DecimalString(n)) == n
  {
    var r := DecimalString(n);
    if n >= 10 {
      DecimalRoundTrip(n / 10);
      assert r[..|r| - 1] == DecimalString(n / 10);
    } else {
      assert r[..0] == [];
    }
  }
}
