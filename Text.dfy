/**
 * String primitives the evaluation engine relies on: Python's `str.isspace`,
 * `str.strip`, `str.lower`, the `in` substring test, and the clean-up that
 * the fuzzy action comparison applies (delete `"` and white space).
 */
module Text {

  /** Python's `str.isspace`: the characters `strip()` removes and the regex class `\s` matches. */
  predicate IsSpace(c: char) {
    || c == ' '
    || ('\t' <= c <= '\r')
    || ('\U{1c}' <= c <= '\U{1f}')
    || c == '\U{85}' || c == '\U{a0}' || c == '\U{1680}'
    || ('\U{2000}' <= c <= '\U{200a}')
    || c == '\U{2028}' || c == '\U{2029}' || c == '\U{202f}' || c == '\U{205f}' || c == '\U{3000}'
  }

  /** Every character of `s[i..j]` is white space. */
  predicate SpaceBetween(s: string, i: nat, j: nat)
    requires i <= j <= |s|
  {
    forall k :: i <= k < j ==> IsSpace(s[k])
  }

  /** ASCII lower-casing of one character. */
  function LowerChar(c: char): char {
    if 'A' <= c <= 'Z' then (c as int + 32) as char else c
  }

  /** Python's `str.lower`, restricted to ASCII letters. */
  function Lower(s: string): (r: string)
    ensures |r| == |s|
    ensures forall k :: 0 <= k < |s| ==> r[k] == LowerChar(s[k])
  {
    seq(|s|, k requires 0 <= k < |s| => LowerChar(s[k]))
  }

  /* ---------------------------------------------------------------- strip */

  /** The first index at or after `i` whose character is not white space, or `|s|`. */
  function SkipSpace(s: string, i: nat): (a: nat)
    requires i <= |s|
    ensures i <= a <= |s|
    ensures SpaceBetween(s, i, a)
    ensures a < |s| ==> !IsSpace(s[a])
    decreases |s| - i
  {
    if i < |s| && IsSpace(s[i]) then SkipSpace(s, i + 1) else i
  }

  /** The index just past the last non-space character of `s[a..j]`, or `a`. */
  function SkipSpaceBack(s: string, a: nat, j: nat): (b: nat)
    requires a <= j <= |s|
    ensures a <= b <= j
    ensures SpaceBetween(s, b, j)
    ensures a < b ==> !IsSpace(s[b - 1])
    decreases j
  {
    if a < j && IsSpace(s[j - 1]) then SkipSpaceBack(s, a, j - 1) else j
  }

  /**
   * `r` is what stripping `s` leaves when the kept part starts at `a`: a slice
   * of `s` with only white space around it and no white space at either end.
   */
  predicate IsStripOf(s: string, r: string, a: nat) {
    && a + |r| <= |s|
    && s[a..a + |r|] == r
    && SpaceBetween(s, 0, a)
    && SpaceBetween(s, a + |r|, |s|)
    && (r != [] ==> !IsSpace(r[0]) && !IsSpace(r[|r| - 1]))
  }

  /** Python's `str.strip()` with no argument. */
  function Strip(s: string): (r: string)
    ensures IsStripOf(s, r, SkipSpace(s, 0))
  {
    var a := SkipSpace(s, 0);
    s[a..SkipSpaceBack(s, a, |s|)]
  }

  /** The characterisation `IsStripOf` determines the stripped string. */
  lemma StripUnique(s: string, r1: string, a1: nat, r2: string, a2: nat)
    requires IsStripOf(s, r1, a1) && IsStripOf(s, r2, a2)
    ensures r1 == r2
  {
    if r1 != [] && r2 != [] {
      // both start at the first non-space character and end after the last one
      assert s[a1] == r1[0] && s[a2] == r2[0];
      assert a1 == a2;
      var e1, e2 := a1 + |r1|, a2 + |r2|;
      assert s[e1 - 1] == r1[|r1| - 1] && s[e2 - 1] == r2[|r2| - 1];
      assert e1 == e2;
    }
  }

  /** Stripping twice is stripping once. */
  lemma StripIdempotent(s: string)
    ensures Strip(Strip(s)) == Strip(s)
  {
    var r := Strip(s);
    assert r[0..|r|] == r;
    assert IsStripOf(r, r, 0);
    StripUnique(r, Strip(r), SkipSpace(r, 0), r, 0);
  }

  /** A string with no white space at either end is its own strip. */
  lemma StripUnpadded(s: string)
    requires s != [] && !IsSpace(s[0]) && !IsSpace(s[|s| - 1])
    ensures Strip(s) == s
  {
    assert s[0..|s|] == s;
    assert IsStripOf(s, s, 0);
    StripUnique(s, Strip(s), SkipSpace(s, 0), s, 0);
  }

  /* ------------------------------------------------------- substring test */

  predicate OccursAt(s: string, t: string, i: nat) {
    i + |t| <= |s| && s[i..i + |t|] == t
  }

  /** Whether `t` occurs in `s` at index `i` or later, by trying each index in turn. */
  function ContainsFrom(s: string, t: string, i: nat): bool
    requires i <= |s|
    decreases |s| - i
  {
    if OccursAt(s, t, i) then true
    else if i == |s| then false
    else ContainsFrom(s, t, i + 1)
  }

  /** Python's `t in s` on strings. */
  function Contains(s: string, t: string): bool {
    ContainsFrom(s, t, 0)
  }

  lemma {:induction false} ContainsFromIsOccurrence(s: string, t: string, i: nat)
    requires i <= |s|
    ensures ContainsFrom(s, t, i) <==> exists j: nat :: i <= j && OccursAt(s, t, j)
    decreases |s| - i
  {
    if !OccursAt(s, t, i) && i < |s| {
      ContainsFromIsOccurrence(s, t, i + 1);
      if exists j: nat :: i <= j && OccursAt(s, t, j) {
        var j: nat :| i <= j && OccursAt(s, t, j);
        assert i + 1 <= j;
      }
    }
  }

  /** `t in s` holds exactly when `t` occurs in `s` at some index. */
  lemma ContainsIsOccurrence(s: string, t: string)
    ensures Contains(s, t) <==> exists j: nat :: OccursAt(s, t, j)
  {
    ContainsFromIsOccurrence(s, t, 0);
  }

  /* ----------------------------------------------------- fuzzy clean-up */

  /** The characters `re.sub(r'["\s]', '', ...)` deletes. */
  predicate IsDeleted(c: char) {
    c == '"' || IsSpace(c)
  }

  /** `re.sub(r'["\s]', '', s)`: `s` without any `"` or white-space character. */
  function DeleteQuotesAndSpace(s: string): (r: string)
    ensures |r| <= |s|
    ensures forall k :: 0 <= k < |r| ==> !IsDeleted(r[k])
    decreases |s|
  {
    if s == [] then []
    else if IsDeleted(s[0]) then DeleteQuotesAndSpace(s[1..])
    else [s[0]] + DeleteQuotesAndSpace(s[1..])
  }

  /** A string with nothing to delete is its own cleaned form. */
  lemma {:induction false} DeleteNothing(s: string)
    requires forall k :: 0 <= k < |s| ==> !IsDeleted(s[k])
    ensures DeleteQuotesAndSpace(s) == s
    decreases |s|
  {
    if s != [] {
      DeleteNothing(s[1..]);
    }
  }

  lemma {:induction false} DeleteAppend(a: string, b: string)
    ensures DeleteQuotesAndSpace(a + b) == DeleteQuotesAndSpace(a) + DeleteQuotesAndSpace(b)
    decreases |a|
  {
    if a != [] {
      assert (a + b)[0] == a[0];
      assert (a + b)[1..] == a[1..] + b;
      DeleteAppend(a[1..], b);
    } else {
      assert a + b == b;
    }
  }

  /** A string made only of deleted characters vanishes. */
  lemma {:induction false} DeleteEverything(s: string)
    requires forall k :: 0 <= k < |s| ==> IsDeleted(s[k])
    ensures DeleteQuotesAndSpace(s) == []
    decreases |s|
  {
    if s != [] {
      DeleteEverything(s[1..]);
    }
  }

  /** Cutting a string at `i` and `j` and joining the pieces gives it back. */
  lemma SplitThree(s: string, i: nat, j: nat)
    requires i <= j <= |s|
    ensures s == s[..i] + (s[i..j] + s[j..])
  {
  }

  /** Deleting works on three pieces as on two. */
  lemma DeleteThree(whole: string, front: string, middle: string, back: string)
    requires whole == front + (middle + back)
    ensures DeleteQuotesAndSpace(whole)
         == DeleteQuotesAndSpace(front) + (DeleteQuotesAndSpace(middle) + DeleteQuotesAndSpace(back))
  {
    DeleteAppend(middle, back);
    DeleteAppend(front, middle + back);
  }

  /** A prefix made only of deleted characters vanishes. */
  lemma DeletePrefix(s: string, i: nat)
    requires i <= |s|
    requires forall k :: 0 <= k < i ==> IsDeleted(s[k])
    ensures DeleteQuotesAndSpace(s[..i]) == []
  {
    forall k | 0 <= k < i
      ensures IsDeleted(s[..i][k])
    {
      assert s[..i][k] == s[k];
    }
    DeleteEverything(s[..i]);
  }

  /** A suffix made only of deleted characters vanishes. */
  lemma DeleteSuffix(s: string, j: nat)
    requires j <= |s|
    requires forall k :: j <= k < |s| ==> IsDeleted(s[k])
    ensures DeleteQuotesAndSpace(s[j..]) == []
  {
    forall k | 0 <= k < |s| - j
      ensures IsDeleted(s[j..][k])
    {
      assert s[j..][k] == s[j + k];
    }
    DeleteEverything(s[j..]);
  }

  /** Deleting from a string whose deleted characters all lie outside `s[i..j]`. */
  lemma DeleteOutside(s: string, i: nat, j: nat)
    requires i <= j <= |s|
    requires forall k :: 0 <= k < i ==> IsDeleted(s[k])
    requires forall k :: j <= k < |s| ==> IsDeleted(s[k])
    ensures DeleteQuotesAndSpace(s) == DeleteQuotesAndSpace(s[i..j])
  {
    SplitThree(s, i, j);
    DeleteThree(s, s[..i], s[i..j], s[j..]);
    DeletePrefix(s, i);
    DeleteSuffix(s, j);
    assert [] + (DeleteQuotesAndSpace(s[i..j]) + []) == DeleteQuotesAndSpace(s[i..j]);
  }

  /** The normal form the fuzzy comparison uses: lower-case, then delete `"` and white space. */
  function Clean(s: string): (r: string)
    ensures |r| <= |s|
  {
    DeleteQuotesAndSpace(Lower(s))
  }

  lemma LowerAppend(a: string, b: string)
    ensures Lower(a + b) == Lower(a) + Lower(b)
  {
  }

  /** Cleaning works piece by piece. */
  lemma CleanAppend(a: string, b: string)
    ensures Clean(a + b) == Clean(a) + Clean(b)
  {
    assert Lower(a + b) == Lower(a) + Lower(b);
    DeleteAppend(Lower(a), Lower(b));
  }

  /** White space around the kept slice does not change the clean form. */
  lemma CleanOfStripOf(s: string, r: string, a: nat)
    requires IsStripOf(s, r, a)
    ensures Clean(r) == Clean(s)
  {
    var e := a + |r|;
    var l := Lower(s);
    assert l[a..e] == Lower(r) by {
      forall k | 0 <= k < |r|
        ensures l[a..e][k] == Lower(r)[k]
      {
        assert r[k] == s[a + k];
      }
    }
    forall k | 0 <= k < a
      ensures IsDeleted(l[k])
    {
      assert IsSpace(s[k]);
    }
    forall k | e <= k < |l|
      ensures IsDeleted(l[k])
    {
      assert IsSpace(s[k]);
    }
    DeleteOutside(l, a, e);
  }

  /** White space around a string does not change its clean form. */
  lemma CleanIgnoresStrip(s: string)
    ensures Clean(Strip(s)) == Clean(s)
  {
    CleanOfStripOf(s, Strip(s), SkipSpace(s, 0));
  }
}
