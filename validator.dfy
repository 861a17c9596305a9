/**
 * The parts of the `validator` library the request validators rely on and
 * whose rules can be stated: `trim` and `isLength`. Both throw on a value that
 * is not a string; callers model that by checking `Str?` first.
 */
module Validator {

  /** The characters of the JavaScript regular-expression class `\s`. */
  predicate IsWhitespace(c: char) {
    c == ' ' || c == '\t' || c == '\n' || c == '\U{B}' || c == '\U{C}' || c == '\r' ||
    c == '\U{A0}' || c == '\U{1680}' || ('\U{2000}' <= c <= '\U{200A}') ||
    c == '\U{2028}' || c == '\U{2029}' || c == '\U{202F}' || c == '\U{205F}' ||
    c == '\U{3000}' || c == '\U{FEFF}'
  }

  /** Length of the whitespace run at the start of s (what `ltrim` strips). */
  function LeadingSpace(s: string): (k: nat)
    ensures k <= |s|
  {
    if s == [] || !IsWhitespace(s[0]) then 0
    else 1 + LeadingSpace(s[1..])
  }

  /** Length of the whitespace run at the end of s (what `rtrim` strips). */
  function TrailingSpace(s: string): (k: nat)
    ensures k <= |s|
  {
    if s == [] || !IsWhitespace(s[|s| - 1]) then 0
    else 1 + TrailingSpace(s[..|s| - 1])
  }

  /** Every character LeadingSpace counts is blank. */
  lemma {:induction false} LeadingSpaceBlank(s: string)
    ensures forall i :: 0 <= i < LeadingSpace(s) ==> IsWhitespace(s[i])
  {
    if s != [] && IsWhitespace(s[0]) {
      var t := s[1..];
      LeadingSpaceBlank(t);
      forall i | 0 <= i < LeadingSpace(s) ensures IsWhitespace(s[i]) {
        if i > 0 { assert s[i] == t[i - 1]; }
      }
    }
  }

  /** The leading run stops at a non-blank character or at the end. */
  lemma {:induction false} LeadingSpaceStops(s: string)
    ensures LeadingSpace(s) < |s| ==> !IsWhitespace(s[LeadingSpace(s)])
  {
    if s != [] && IsWhitespace(s[0]) {
      var t := s[1..];
      LeadingSpaceStops(t);
      if LeadingSpace(s) < |s| {
        assert s[LeadingSpace(s)] == t[LeadingSpace(t)];
      }
    }
  }

  /** Every character TrailingSpace counts is blank. */
  lemma {:induction false} TrailingSpaceBlank(s: string)
    ensures forall i :: |s| - TrailingSpace(s) <= i < |s| ==> IsWhitespace(s[i])
  {
    if s != [] && IsWhitespace(s[|s| - 1]) {
      var t := s[..|s| - 1];
      TrailingSpaceBlank(t);
      forall i | |s| - TrailingSpace(s) <= i < |s| ensures IsWhitespace(s[i]) {
        if i < |s| - 1 { assert s[i] == t[i]; }
      }
    }
  }

  /** The trailing run starts after a non-blank character or at the start. */
  lemma {:induction false} TrailingSpaceStops(s: string)
    ensures TrailingSpace(s) < |s| ==> !IsWhitespace(s[|s| - 1 - TrailingSpace(s)])
  {
    if s != [] && IsWhitespace(s[|s| - 1]) {
      var t := s[..|s| - 1];
      TrailingSpaceStops(t);
      if TrailingSpace(s) < |s| {
        assert s[|s| - 1 - TrailingSpace(s)] == t[|t| - 1 - TrailingSpace(t)];
      }
    }
  }

  /** `validator.ltrim(s)`. */
  function TrimStart(s: string): string {
    s[LeadingSpace(s)..]
  }

  /** `validator.rtrim(s)`. */
  function TrimEnd(s: string): string {
    s[..|s| - TrailingSpace(s)]
  }

  /** `validator.trim(s)`, which is `rtrim(ltrim(s))`. */
  function Trim(s: string): string {
    TrimEnd(TrimStart(s))
  }

  /**
   * The declarative reading of trimming: r is the slice of s left after
   * removing a whitespace prefix and a whitespace suffix, and r itself neither
   * starts nor ends with whitespace.
   */
  ghost predicate StripsTo(s: string, r: string) {
    exists i, j ::
      0 <= i <= j <= |s| && r == s[i..j] &&
      (forall k :: 0 <= k < i ==> IsWhitespace(s[k])) &&
      (forall k :: j <= k < |s| ==> IsWhitespace(s[k])) &&
      NoOuterSpace(r)
  }

  predicate NoOuterSpace(r: string) {
    r == [] || (!IsWhitespace(r[0]) && !IsWhitespace(r[|r| - 1]))
  }

  /** A whitespace run that ends at a non-blank character is the leading run. */
  lemma {:induction false} LeadingSpaceUnique(s: string, i: nat)
    requires i <= |s|
    requires forall k :: 0 <= k < i ==> IsWhitespace(s[k])
    requires i < |s| ==> !IsWhitespace(s[i])
    ensures i == LeadingSpace(s)
  {
    if i > 0 {
      assert IsWhitespace(s[0]);
      var t := s[1..];
      forall k | 0 <= k < i - 1 ensures IsWhitespace(t[k]) {
        assert t[k] == s[k + 1];
      }
      if i - 1 < |t| {
        assert t[i - 1] == s[i];
      }
      LeadingSpaceUnique(t, i - 1);
    }
  }

  /** A whitespace run that starts after a non-blank character is the trailing run. */
  lemma {:induction false} TrailingSpaceUnique(s: string, k: nat)
    requires k <= |s|
    requires forall i :: |s| - k <= i < |s| ==> IsWhitespace(s[i])
    requires k < |s| ==> !IsWhitespace(s[|s| - 1 - k])
    ensures k == TrailingSpace(s)
  {
    if k > 0 {
      assert IsWhitespace(s[|s| - 1]);
      var t := s[..|s| - 1];
      forall i | |t| - (k - 1) <= i < |t| ensures IsWhitespace(t[i]) {
        assert t[i] == s[i];
      }
      if k - 1 < |t| {
        assert t[|t| - 1 - (k - 1)] == s[|s| - 1 - k];
      }
      TrailingSpaceUnique(t, k - 1);
    }
  }

  /** Trim(s) is the slice between the leading and the trailing whitespace run. */
  lemma TrimSlice(s: string)
    ensures LeadingSpace(s) == |s| ==> Trim(s) == []
    ensures LeadingSpace(s) < |s| ==>
      LeadingSpace(s) < |s| - TrailingSpace(s) &&
      Trim(s) == s[LeadingSpace(s)..|s| - TrailingSpace(s)]
  {
    if LeadingSpace(s) == |s| {
      TrimOfBlank(s);
    } else {
      LeadingSpaceStops(s);
      NonBlankBeforeTrailing(s, LeadingSpace(s));
      TrailingSpaceOfSuffix(s, LeadingSpace(s), TrailingSpace(s));
      TrimBetween(s, LeadingSpace(s), TrailingSpace(s));
    }
  }

  lemma TrimOfBlank(s: string)
    requires LeadingSpace(s) == |s|
    ensures Trim(s) == []
  {
    assert TrimStart(s) == [];
    assert TrailingSpace([]) == 0;
  }

  /** A non-blank character lies before the trailing whitespace run. */
  lemma NonBlankBeforeTrailing(s: string, a: nat)
    requires a < |s| && !IsWhitespace(s[a])
    ensures a < |s| - TrailingSpace(s)
  {
    TrailingSpaceBlank(s);
  }

  lemma TrimBetween(s: string, a: nat, k: nat)
    requires a == LeadingSpace(s) && a < |s| - k
    requires TrailingSpace(s[a..]) == k
    ensures Trim(s) == s[a..|s| - k]
  {
    var t := s[a..];
    assert TrimStart(s) == t;
    assert TrimEnd(t) == t[..|t| - k];
    assert t[..|t| - k] == s[a..|s| - k];
  }

  /** Dropping a prefix that ends before the trailing run keeps the trailing run. */
  lemma TrailingSpaceOfSuffix(s: string, a: nat, k: nat)
    requires a < |s| - k && k == TrailingSpace(s)
    ensures TrailingSpace(s[a..]) == k
  {
    TrailingSpaceBlank(s);
    TrailingSpaceStops(s);
    var t := s[a..];
    forall i | |t| - k <= i < |t| ensures IsWhitespace(t[i]) {
      assert t[i] == s[a + i];
    }
    assert t[|t| - 1 - k] == s[|s| - 1 - k];
    TrailingSpaceUnique(t, k);
  }

  /** The bounds of the slice Trim keeps, with the facts StripsTo asks of them. */
  lemma TrimBounds(s: string) returns (i: nat, j: nat)
    ensures i <= j <= |s| && Trim(s) == s[i..j]
    ensures forall k :: 0 <= k < i ==> IsWhitespace(s[k])
    ensures forall k :: j <= k < |s| ==> IsWhitespace(s[k])
    ensures NoOuterSpace(Trim(s))
  {
    TrimSlice(s);
    LeadingSpaceBlank(s);
    LeadingSpaceStops(s);
    TrailingSpaceBlank(s);
    TrailingSpaceStops(s);
    i := LeadingSpace(s);
    if i == |s| {
      j := i;
    } else {
      j := |s| - TrailingSpace(s);
      assert Trim(s)[0] == s[i];
      assert Trim(s)[|Trim(s)| - 1] == s[j - 1];
    }
  }

  /** Trim does what StripsTo describes. */
  lemma TrimStrips(s: string)
    ensures StripsTo(s, Trim(s))
  {
    var i, j := TrimBounds(s);
    StripsToIntro(s, Trim(s), i, j);
  }

  /** Only one string satisfies StripsTo, so StripsTo characterises Trim completely. */
  lemma StripsToUnique(s: string, r: string)
    requires StripsTo(s, r)
    ensures r == Trim(s)
  {
    var i, j := StripsToBounds(s, r);
    SliceIsTrim(s, r, i, j);
  }

  /** The bounds StripsTo promises. */
  lemma StripsToBounds(s: string, r: string) returns (i: nat, j: nat)
    requires StripsTo(s, r)
    ensures i <= j <= |s| && r == s[i..j]
    ensures forall k :: 0 <= k < i ==> IsWhitespace(s[k])
    ensures forall k :: j <= k < |s| ==> IsWhitespace(s[k])
    ensures NoOuterSpace(r)
  {
    i, j :| 0 <= i <= j <= |s| && r == s[i..j] &&
      (forall k :: 0 <= k < i ==> IsWhitespace(s[k])) &&
      (forall k :: j <= k < |s| ==> IsWhitespace(s[k])) &&
      NoOuterSpace(r);
  }

  /** A slice between two whitespace runs that has no outer whitespace is the trim. */
  lemma SliceIsTrim(s: string, r: string, i: nat, j: nat)
    requires i <= j <= |s| && r == s[i..j]
    requires forall k :: 0 <= k < i ==> IsWhitespace(s[k])
    requires forall k :: j <= k < |s| ==> IsWhitespace(s[k])
    requires NoOuterSpace(r)
    ensures r == Trim(s)
  {
    if i == j {
      BlankTrim(s, i);
    } else {
      assert s[i] == r[0] && s[j - 1] == r[|r| - 1];
      InnerSliceIsTrim(s, i, j);
    }
  }

  /** A string whose every character is blank (split anywhere) trims to nothing. */
  lemma BlankTrim(s: string, i: nat)
    requires i <= |s|
    requires forall k :: 0 <= k < i ==> IsWhitespace(s[k])
    requires forall k :: i <= k < |s| ==> IsWhitespace(s[k])
    ensures Trim(s) == []
  {
    forall k | 0 <= k < |s| ensures IsWhitespace(s[k]) {
      if k < i { } else { }
    }
    LeadingSpaceUnique(s, |s|);
    TrimSlice(s);
  }

  /** A non-empty slice between two whitespace runs that ends on non-blanks is the trim. */
  lemma InnerSliceIsTrim(s: string, i: nat, j: nat)
    requires i < j <= |s|
    requires forall k :: 0 <= k < i ==> IsWhitespace(s[k])
    requires forall k :: j <= k < |s| ==> IsWhitespace(s[k])
    requires !IsWhitespace(s[i]) && !IsWhitespace(s[j - 1])
    ensures Trim(s) == s[i..j]
  {
    LeadingSpaceUnique(s, i);
    TrailingSpaceUnique(s, |s| - j);
    TrimSlice(s);
  }

  /** Trimming twice is trimming once. */
  lemma TrimIdempotent(s: string)
    ensures Trim(Trim(s)) == Trim(s)
  {
    var _, _ := TrimBounds(s);
    TrimNoOuterSpace(Trim(s));
  }

  /** A string without outer whitespace is its own trim. */
  lemma TrimNoOuterSpace(s: string)
    requires NoOuterSpace(s)
    ensures Trim(s) == s
  {
    if s == [] {
      BlankTrim(s, 0);
    } else {
      assert s == s[0..|s|];
      InnerSliceIsTrim(s, 0, |s|);
    }
  }

  /** A witness for StripsTo. */
  lemma StripsToIntro(s: string, r: string, i: int, j: int)
    requires 0 <= i <= j <= |s| && r == s[i..j]
    requires forall k :: 0 <= k < i ==> IsWhitespace(s[k])
    requires forall k :: j <= k < |s| ==> IsWhitespace(s[k])
    requires NoOuterSpace(r)
    ensures StripsTo(s, r)
  {
  }

  /** Whitespace added around a string does not change its trim. */
  lemma TrimPadding(p: string, s: string, q: string)
    requires forall k :: 0 <= k < |p| ==> IsWhitespace(p[k])
    requires forall k :: 0 <= k < |q| ==> IsWhitespace(q[k])
    ensures Trim(p + s + q) == Trim(s)
  {
    var i, j := TrimBounds(s);
    PaddedSlice(p, s, q, i, j);
    var w := p + s + q;
    if i == j {
      BlankTrim(w, |p| + i);
    } else {
      assert w[|p| + i] == s[i] && w[|p| + j - 1] == s[j - 1];
      InnerSliceIsTrim(w, |p| + i, |p| + j);
    }
  }

  lemma PaddedSlice(p: string, s: string, q: string, i: int, j: int)
    requires 0 <= i <= j <= |s|
    requires forall k :: 0 <= k < |p| ==> IsWhitespace(p[k])
    requires forall k :: 0 <= k < |q| ==> IsWhitespace(q[k])
    requires forall k :: 0 <= k < i ==> IsWhitespace(s[k])
    requires forall k :: j <= k < |s| ==> IsWhitespace(s[k])
    ensures (p + s + q)[|p| + i..|p| + j] == s[i..j]
    ensures forall k :: 0 <= k < |p| + i ==> IsWhitespace((p + s + q)[k])
    ensures forall k :: |p| + j <= k < |p + s + q| ==> IsWhitespace((p + s + q)[k])
  {
    var w := p + s + q;
    forall k | 0 <= k < |p| + i ensures IsWhitespace(w[k]) {
      if k < |p| { assert w[k] == p[k]; } else { assert w[k] == s[k - |p|]; }
    }
    forall k | |p| + j <= k < |w| ensures IsWhitespace(w[k]) {
      if k < |p| + |s| { assert w[k] == s[k - |p|]; } else { assert w[k] == q[k - |p| - |s|]; }
    }
  }

  /** Trimming a concrete name that becomes one character long. */
  lemma TrimShortExample()
    ensures Trim(" A  ") == "A"
  {
    assert " A  " == " " + "A" + "  ";
    TrimPadding(" ", "A", "  ");
    TrimNoOuterSpace("A");
  }

  /** `validator.isLength(s, {min, max})`, counting Unicode scalar values. */
  predicate IsLength(s: string, min: nat, max: nat) {
    min <= |s| <= max
  }
}
