/** Values that may be absent: Python's None and JavaScript's undefined/null. */
module Optional {

  datatype Option<+T> = None | Some(value: T) {

    /** The wrapped value, or `default` when there is none. */
    function GetOr(default: T): T {
      match this
      case Some(v) => v
      case None => default
    }
  }

  /**
   * Truthiness of an optional string in Python and JavaScript: present and
   * not empty.
   */
  predicate Given(s: Option<string>) {
    s.Some? && s.value != ""
  }

  /** `a || b` for optional strings: `a` when it is truthy, else `b`. */
  function OrElse(a: Option<string>, b: Option<string>): (r: Option<string>)
    ensures Given(r) <==> Given(a) || Given(b)
    ensures Given(a) ==> r == a
    ensures !Given(a) ==> r == b
  {
    if Given(a) then a else b
  }
}

/**
 * String helpers shared by the backend and the client: Python's `str.strip`,
 * `str.lower`, substring search, slicing, `str.join` and the decimal
 * rendering used by f-strings.
 */
module Text {

  /** Characters for which Python's `str.isspace()` holds; `str.strip()` removes these. */
  predicate IsSpace(c: char) {
    || ('\t' <= c <= '\r')
    || ('\U{1c}' <= c <= '\U{1f}')
    || c == ' '
    || c == '\U{85}'
    || c == '\U{a0}'
    || c == '\U{1680}'
    || ('\U{2000}' <= c <= '\U{200a}')
    || c == '\U{2028}'
    || c == '\U{2029}'
    || c == '\U{202f}'
    || c == '\U{205f}'
    || c == '\U{3000}'
  }

  /** A non-empty string that neither starts nor ends with whitespace: what `strip` leaves. */
  predicate Stripped(s: string) {
    s != [] && !IsSpace(s[0]) && !IsSpace(s[|s| - 1])
  }

  predicate AllSpace(s: string) {
    forall k :: 0 <= k < |s| ==> IsSpace(s[k])
  }

  /** Number of whitespace characters at the front of `s`. */
  function LeadingSpaces(s: string): (n: nat)
    ensures n <= |s|
    ensures AllSpace(s[..n])
    ensures n < |s| ==> !IsSpace(s[n])
  {
    if s == [] || !IsSpace(s[0]) then 0
    else
      var n := 1 + LeadingSpaces(s[1..]);
      assert s[..n] == [s[0]] + s[1..][..n - 1];
      n
  }

  /**
   * Python's `s.strip()`: whitespace is cut from the front, then from the
   * back; the result neither starts nor ends with whitespace
   * (StripEmptyIffAllSpace and StripCutsOnlySpace say what was cut).
   */
  function Strip(s: string): (r: string)
    ensures r != [] ==> Stripped(r)
    decreases |s|
  {
    if s == [] then []
    else if IsSpace(s[0]) then Strip(s[1..])
    else if IsSpace(s[|s| - 1]) then Strip(s[..|s| - 1])
    else s
  }

  /** `s.strip()` is empty exactly when `s` is all whitespace. */
  lemma {:induction false} StripEmptyIffAllSpace(s: string)
    ensures Strip(s) == [] <==> AllSpace(s)
    decreases |s|
  {
    if s == [] {
    } else if IsSpace(s[0]) {
      StripEmptyIffAllSpace(s[1..]);
      assert forall k :: 1 <= k < |s| ==> s[k] == s[1..][k - 1];
    } else {
      assert !AllSpace(s);
      if IsSpace(s[|s| - 1]) {
        var t := s[..|s| - 1];
        assert t[0] == s[0];
        StripEmptyIffAllSpace(t);
      }
    }
  }

  /** What `Strip` keeps is the slice after the leading spaces, followed only by spaces. */
  ghost predicate StripSlice(s: string) {
    var i, r := LeadingSpaces(s), Strip(s);
    i + |r| <= |s| && r == s[i..i + |r|] && AllSpace(s[i + |r|..])
  }

  lemma {:induction false} StripIsSlice(s: string)
    ensures StripSlice(s)
    decreases |s|
  {
    if s == [] {
    } else if IsSpace(s[0]) {
      StripIsSlice(s[1..]);
      StripSliceFront(s);
    } else if IsSpace(s[|s| - 1]) {
      StripIsSlice(s[..|s| - 1]);
      StripSliceBack(s);
    }
  }

  lemma StripSliceFront(s: string)
    requires s != [] && IsSpace(s[0]) && StripSlice(s[1..])
    ensures StripSlice(s)
  {
    var i, r := LeadingSpaces(s), Strip(s);
    assert i == LeadingSpaces(s[1..]) + 1 && r == Strip(s[1..]);
    SliceAfterFirst(s, i - 1, |r|);
  }

  lemma StripSliceBack(s: string)
    requires s != [] && !IsSpace(s[0]) && IsSpace(s[|s| - 1]) && StripSlice(s[..|s| - 1])
    ensures StripSlice(s)
  {
    var t := s[..|s| - 1];
    assert t[0] == s[0];
    var r := Strip(s);
    assert LeadingSpaces(s) == 0 && LeadingSpaces(t) == 0 && r == Strip(t);
    SliceBeforeLast(s, |r|);
    AllSpaceAppend(t[|r|..], s[|s| - 1]);
  }

  /** Slices of `s[1..]` are slices of `s` shifted by one. */
  lemma SliceAfterFirst(s: string, j: nat, n: nat)
    requires 1 <= |s| && j + n <= |s| - 1
    ensures s[1..][j..j + n] == s[j + 1..j + 1 + n]
    ensures s[1..][j + n..] == s[j + 1 + n..]
  {
  }

  /** Slices of `s` without its last character. */
  lemma SliceBeforeLast(s: string, n: nat)
    requires n <= |s| - 1
    ensures s[..|s| - 1][..n] == s[..n]
    ensures s[n..] == s[..|s| - 1][n..] + [s[|s| - 1]]
  {
  }

  lemma AllSpaceAppend(a: string, c: char)
    requires AllSpace(a) && IsSpace(c)
    ensures AllSpace(a + [c])
  {
    assert forall k :: 0 <= k < |a| ==> (a + [c])[k] == a[k];
  }

  /**
   * `s.strip()` cuts whitespace, and only whitespace, from the two ends of
   * `s`: the leading spaces before what it keeps, only spaces after it.
   */
  lemma StripCutsOnlySpace(s: string)
    ensures var i, r := LeadingSpaces(s), Strip(s);
            && i + |r| <= |s| && r == s[i..i + |r|]
            && AllSpace(s[..i]) && AllSpace(s[i + |r|..])
  {
    StripIsSlice(s);
  }

  /** A string is its three consecutive slices glued together. */
  lemma SliceThree(s: string, i: nat, j: nat)
    requires i <= j <= |s|
    ensures s == s[..i] + s[i..j] + s[j..]
  {
  }

  /** Python's `c.lower()` restricted to ASCII letters. */
  function LowerChar(c: char): (d: char)
    ensures !('A' <= d <= 'Z')
    ensures !('A' <= c <= 'Z') ==> d == c
    ensures 'A' <= c <= 'Z' ==> d as int == c as int + 32
  {
    if 'A' <= c <= 'Z' then (c as int + 32) as char else c
  }

  /** Python's `s.lower()`, ASCII letters only: same length, no upper-case ASCII letter left. */
  function Lower(s: string): (r: string)
    ensures |r| == |s|
    ensures forall k :: 0 <= k < |s| ==> r[k] == LowerChar(s[k])
  {
    seq(|s|, k requires 0 <= k < |s| => LowerChar(s[k]))
  }

  /** Lower-casing an already lower-cased string changes nothing. */
  lemma LowerIdempotent(s: string)
    ensures Lower(Lower(s)) == Lower(s)
  {
    assert forall k :: 0 <= k < |s| ==> LowerChar(LowerChar(s[k])) == LowerChar(s[k]);
  }

  /** `pattern` occurs in `s` starting at index `k`. */
  predicate OccursAt(s: string, pattern: string, k: nat) {
    k + |pattern| <= |s| && s[k..k + |pattern|] == pattern
  }

  /** Python's `pattern in s` (what `re.search` of a literal decides). */
  predicate Contains(s: string, pattern: string)
    decreases |s|
  {
    |pattern| <= |s| && (s[..|pattern|] == pattern || Contains(s[1..], pattern))
  }

  /** `Contains` holds exactly when the pattern occurs at some index. */
  lemma {:induction false} ContainsIff(s: string, pattern: string)
    ensures Contains(s, pattern) <==> exists k: nat :: OccursAt(s, pattern, k)
    decreases |s|
  {
    if |pattern| <= |s| {
      if s[..|pattern|] == pattern {
        assert OccursAt(s, pattern, 0);
        return;
      }
      ContainsIff(s[1..], pattern);
      if Contains(s[1..], pattern) {
        var k: nat :| OccursAt(s[1..], pattern, k);
        assert s[1..][k..k + |pattern|] == s[k + 1..k + 1 + |pattern|];
        assert OccursAt(s, pattern, k + 1);
      } else {
        forall k: nat | OccursAt(s, pattern, k) ensures false {
          assert k > 0;
          assert s[1..][k - 1..k - 1 + |pattern|] == s[k..k + |pattern|];
          assert OccursAt(s[1..], pattern, k - 1);
        }
      }
    } else {
      forall k: nat | OccursAt(s, pattern, k) ensures false {
      }
    }
  }

  /** A string contains every prefix of each pattern it contains. */
  lemma ContainsPrefixOf(s: string, longer: string, shorter: string)
    requires |shorter| <= |longer| && longer[..|shorter|] == shorter
    ensures Contains(s, longer) ==> Contains(s, shorter)
  {
    ContainsIff(s, longer);
    ContainsIff(s, shorter);
    if Contains(s, longer) {
      var k: nat :| OccursAt(s, longer, k);
      assert s[k..k + |shorter|] == s[k..k + |longer|][..|shorter|];
      assert OccursAt(s, shorter, k);
    }
  }

  /** Python's `s[:n]` for a non-negative `n`. */
  function Take(s: string, n: nat): (r: string)
    ensures |r| == if n < |s| then n else |s|
    ensures r == s[..|r|]
  {
    if n < |s| then s[..n] else s
  }

  /** Python's `s.replace("\n", " ")`. */
  function NewlinesToSpaces(s: string): (r: string)
    ensures |r| == |s|
    ensures forall k :: 0 <= k < |r| ==> r[k] != '\n'
    ensures forall k :: 0 <= k < |s| && s[k] != '\n' ==> r[k] == s[k]
    ensures forall k :: 0 <= k < |s| && s[k] == '\n' ==> r[k] == ' '
  {
    seq(|s|, k requires 0 <= k < |s| => if s[k] == '\n' then ' ' else s[k])
  }

  /** Python's `sep.join(parts)`. */
  function Join(parts: seq<string>, sep: string): string {
    if parts == [] then []
    else if |parts| == 1 then parts[0]
    else parts[0] + sep + Join(parts[1..], sep)
  }

  /** Concatenation of all strings of `parts`, in order. */
  function Concat(parts: seq<string>): string {
    if parts == [] then [] else parts[0] + Concat(parts[1..])
  }

  lemma {:induction false} ConcatAppend(a: seq<string>, b: seq<string>)
    ensures Concat(a + b) == Concat(a) + Concat(b)
  {
    if a == [] {
      assert a + b == b;
    } else {
      assert (a + b)[1..] == a[1..] + b;
      ConcatAppend(a[1..], b);
    }
  }

  /** The digits '0'..'9'. */
  predicate IsDigit(c: char) {
    '0' <= c <= '9'
  }

  function DigitChar(d: nat): (c: char)
    requires d < 10
    ensures IsDigit(c) && DigitValue(c) == d
  {
    ('0' as int + d) as char
  }

  /** The decimal text Python's f-string gives a non-negative int. */
  function Decimal(n: nat): (r: string)
    ensures |r| >= 1
    ensures forall k :: 0 <= k < |r| ==> IsDigit(r[k])
    ensures |r| > 1 ==> r[0] != '0'
  {
    if n < 10 then [DigitChar(n)]
    else Decimal(n / 10) + [DigitChar(n % 10)]
  }

  function DigitValue(c: char): (d: nat)
    requires IsDigit(c)
    ensures d < 10
  {
    c as int - '0' as int
  }

  /** The value a string of decimal digits denotes. */
  function DecimalValue(s: string): nat
    requires forall k :: 0 <= k < |s| ==> IsDigit(s[k])
  {
    if s == [] then 0
    else 10 * DecimalValue(s[..|s| - 1]) + DigitValue(s[|s| - 1])
  }

  /** Reading back the decimal text of `n` gives `n`. */
  lemma {:induction false} DecimalRoundTrip(n: nat)
    ensures DecimalValue(Decimal(n)) == n
  {
    if n >= 10 {
      var r := Decimal(n);
      assert r[..|r| - 1] == Decimal(n / 10);
      DecimalRoundTrip(n / 10);
    }
  }

  /** Distinct numbers have distinct decimal texts. */
  lemma DecimalInjective(a: nat, b: nat)
    requires Decimal(a) == Decimal(b)
    ensures a == b
  {
    DecimalRoundTrip(a);
    DecimalRoundTrip(b);
  }
}
