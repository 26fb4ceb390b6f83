/**
 * The fixed action patterns `KIND\(["']([^"']*)["']\)` that both action parsers
 * search for, with Python's `re.search(pattern, text, re.IGNORECASE)` written out
 * as a hand-rolled scanner.
 *
 * At a given start position the pattern has at most one match: the captured run
 * `[^"']*` cannot contain a quote, so it ends at the first quote after the opening
 * one, and that quote must be followed by `)`. `re.search` reports the match with
 * the leftmost start position. Ignoring case only matters for the kind name; the
 * captured target is returned as it stands in the text.
 *
 * The scanner is stated for any kind name; `ActionType.Name()` supplies the five
 * names the source uses.
 */
module ActionPatterns {
  import opened Wrappers
  import opened Text

  /** The action kinds the patterns recognise; `Unknown` is what a failed parse reports. */
  datatype ActionType = Click | Scroll | Type | Swipe | LongPress | Unknown {
    /** The upper-case name that heads the pattern and the canonical form. */
    function Name(): string {
      match this
      case Click => "CLICK"
      case Scroll => "SCROLL"
      case Type => "TYPE"
      case Swipe => "SWIPE"
      case LongPress => "LONG_PRESS"
      case Unknown => "UNKNOWN"
    }
  }

  /** The kinds the agent's canonicaliser tries, in this order (LONG_PRESS is not among them). */
  const AgentKinds: seq<ActionType> := [Click, Scroll, Type, Swipe]

  /** The kinds the structured parser tries, in the insertion order of its pattern table. */
  const ParserKinds: seq<ActionType> := [Click, Scroll, Type, Swipe, LongPress]

  predicate IsQuote(c: char) {
    c == '"' || c == '\''
  }

  predicate NoQuoteBetween(s: string, i: nat, j: nat)
    requires i <= j <= |s|
  {
    forall k :: i <= k < j ==> !IsQuote(s[k])
  }

  /** A name that can head a pattern: it starts with a capital letter and holds no quote. */
  predicate PatternName(name: string) {
    && |name| > 0
    && 'A' <= name[0] <= 'Z'
    && NoQuoteBetween(name, 0, |name|)
  }

  lemma KindNames(kind: ActionType)
    ensures PatternName(kind.Name())
  {
  }

  /** `s[p..]` starts with `name`, letters compared without regard to case. */
  predicate NameAt(s: string, p: nat, name: string)
    requires p + |name| <= |s|
  {
    forall k :: 0 <= k < |name| ==> LowerChar(s[p + k]) == LowerChar(name[k])
  }

  /** `NAME(` and an opening quote at position `p`, the name compared case-insensitively. */
  predicate HeaderAt(s: string, name: string, p: nat) {
    && p + |name| + 2 <= |s|
    && NameAt(s, p, name)
    && s[p + |name|] == '('
    && IsQuote(s[p + |name| + 1])
  }

  /** Where the captured target starts when the pattern for `name` is tried at `p`. */
  function TargetStart(name: string, p: nat): nat {
    p + |name| + 2
  }

  /** The pattern for `name` matches at `p`, with its closing quote at `q`. */
  predicate MatchSpan(s: string, name: string, p: nat, q: nat) {
    && HeaderAt(s, name, p)
    && TargetStart(name, p) <= q
    && q + 1 < |s|
    && NoQuoteBetween(s, TargetStart(name, p), q)
    && IsQuote(s[q])
    && s[q + 1] == ')'
  }

  /** A match at a given start position has only one possible closing quote. */
  lemma MatchSpanUnique(s: string, name: string, p: nat, q1: nat, q2: nat)
    requires MatchSpan(s, name, p, q1) && MatchSpan(s, name, p, q2)
    ensures q1 == q2
  {
  }

  /** The first quote at or after `i`, or `|s|`. */
  function FirstQuote(s: string, i: nat): (q: nat)
    requires i <= |s|
    ensures i <= q <= |s|
    ensures NoQuoteBetween(s, i, q)
    ensures q < |s| ==> IsQuote(s[q])
    decreases |s| - i
  {
    if i < |s| && !IsQuote(s[i]) then FirstQuote(s, i + 1) else i
  }

  /** The group the pattern for `name` captures when tried at position `p`, if it matches there. */
  function MatchAt(s: string, name: string, p: nat): (r: Option<string>)
    ensures r.Some? ==> MatchSpan(s, name, p, TargetStart(name, p) + |r.value|)
    ensures r.Some? ==> r.value == s[TargetStart(name, p)..TargetStart(name, p) + |r.value|]
    ensures r.None? ==> forall q: nat :: !MatchSpan(s, name, p, q)
  {
    if !HeaderAt(s, name, p) then None
    else
      var start := TargetStart(name, p);
      var q := FirstQuote(s, start);
      if q + 1 < |s| && s[q + 1] == ')' then Some(s[start..q]) else None
  }

  /** Position and captured target of a match. */
  datatype Found = Found(pos: nat, target: string)

  /** The leftmost match of the pattern for `name` starting at `i` or later. */
  function SearchFrom(s: string, name: string, i: nat): (r: Option<Found>)
    requires i <= |s|
    ensures r.Some? ==> i <= r.value.pos && MatchAt(s, name, r.value.pos) == Some(r.value.target)
    ensures r.Some? ==> forall p: nat :: i <= p < r.value.pos ==> MatchAt(s, name, p).None?
    ensures r.None? ==> forall p: nat :: i <= p ==> MatchAt(s, name, p).None?
    decreases |s| - i
  {
    if i == |s| then None
    else match MatchAt(s, name, i)
      case Some(t) => Some(Found(i, t))
      case None => SearchFrom(s, name, i + 1)
  }

  /** `re.search` for the pattern of `name`: the leftmost match in `s`. */
  function Search(s: string, name: string): (r: Option<Found>)
    ensures r.Some? ==> MatchAt(s, name, r.value.pos) == Some(r.value.target)
    ensures r.Some? ==> forall p: nat :: p < r.value.pos ==> MatchAt(s, name, p).None?
    ensures r.None? ==> forall p: nat :: MatchAt(s, name, p).None?
  {
    SearchFrom(s, name, 0)
  }

  /** The first of `names[i..]` whose pattern occurs in `s`, or `|names|` if none does. */
  function FirstKindFrom(s: string, names: seq<string>, i: nat): (j: nat)
    requires i <= |names|
    ensures i <= j <= |names|
    ensures forall m :: i <= m < j ==> Search(s, names[m]).None?
    ensures j < |names| ==> Search(s, names[j]).Some?
    decreases |names| - i
  {
    if i == |names| || Search(s, names[i]).Some? then i else FirstKindFrom(s, names, i + 1)
  }

  /** The pattern-table loop with early return: index of the first name whose pattern matches. */
  function FirstKind(s: string, names: seq<string>): (j: nat)
    ensures j <= |names|
    ensures forall m :: 0 <= m < j ==> Search(s, names[m]).None?
    ensures j < |names| ==> Search(s, names[j]).Some?
  {
    FirstKindFrom(s, names, 0)
  }

  /** The names heading the patterns of `kinds`, in the same order. */
  function Names(kinds: seq<ActionType>): (names: seq<string>)
    ensures |names| == |kinds|
    ensures forall m :: 0 <= m < |kinds| ==> names[m] == kinds[m].Name()
  {
    seq(|kinds|, m requires 0 <= m < |kinds| => kinds[m].Name())
  }

  /** The first matching name is determined by which names match. */
  lemma FirstKindIs(s: string, names: seq<string>, j: nat)
    requires j < |names| && Search(s, names[j]).Some?
    requires forall m :: 0 <= m < j ==> Search(s, names[m]).None?
    ensures FirstKind(s, names) == j
  {
  }

  /** A captured target never holds a quote. */
  lemma TargetHasNoQuote(s: string, name: string)
    requires Search(s, name).Some?
    ensures NoQuoteBetween(Search(s, name).value.target, 0, |Search(s, name).value.target|)
  {
    var f := Search(s, name).value;
    var st := TargetStart(name, f.pos);
    assert MatchSpan(s, name, f.pos, st + |f.target|);
    assert forall k :: 0 <= k < |f.target| ==> f.target[k] == s[st + k];
  }

  /** A match spans the name, `(`, two quotes and `)`, so a shorter text has none. */
  lemma NoMatchInShortText(s: string, name: string)
    requires |s| < |name| + 4
    ensures Search(s, name).None?
  {
    if Search(s, name).Some? {
      assert false;
    }
  }

  /** The canonical string `NAME("target")`. */
  function Canonical(name: string, target: string): string {
    name + "(\"" + target + "\")"
  }

  /* --------------------------------------------------- matches in slices */

  /** A match inside a slice is a match of the whole string, with the same target. */
  lemma MatchSpanInSlice(s: string, a: nat, b: nat, name: string, p: nat, q: nat)
    requires a <= b <= |s|
    requires MatchSpan(s[a..b], name, p, q)
    ensures MatchSpan(s, name, a + p, a + q)
  {
  }

  /** A match of the whole string lying inside `s[a..b]` is a match of that slice. */
  lemma MatchSpanToSlice(s: string, a: nat, b: nat, name: string, p: nat, q: nat)
    requires a <= p && q + 2 <= b <= |s|
    requires MatchSpan(s, name, p, q)
    ensures MatchSpan(s[a..b], name, p - a, q - a)
  {
  }

  /** A match ending at the closing quote `q` is what `MatchAt` reports at `p`. */
  lemma MatchAtFromSpan(s: string, name: string, p: nat, q: nat)
    requires MatchSpan(s, name, p, q)
    ensures MatchAt(s, name, p).Some?
    ensures MatchAt(s, name, p).value == s[TargetStart(name, p)..q]
  {
    var t := MatchAt(s, name, p).value;
    MatchSpanUnique(s, name, p, q, TargetStart(name, p) + |t|);
  }

  lemma SliceOfSlice(s: string, a: nat, b: nat, i: nat, j: nat)
    requires a <= b <= |s| && i <= j <= b - a
    ensures s[a..b][i..j] == s[a + i..a + j]
  {
    assert forall k :: 0 <= k < j - i ==> s[a..b][i..j][k] == s[a + i + k];
  }

  /** A match of a slice is a match of the whole string, with the same target. */
  lemma MatchAtInSlice(s: string, a: nat, b: nat, name: string, p: nat)
    requires a <= b <= |s|
    requires MatchAt(s[a..b], name, p).Some?
    ensures MatchAt(s, name, a + p).Some?
    ensures MatchAt(s, name, a + p).value == MatchAt(s[a..b], name, p).value
  {
    var t := MatchAt(s[a..b], name, p).value;
    var st := TargetStart(name, p);
    MatchSpanInSlice(s, a, b, name, p, st + |t|);
    MatchAtFromSpan(s, name, a + p, a + st + |t|);
    SliceOfSlice(s, a, b, st, st + |t|);
  }

  /** A pattern that does not occur in a string does not occur in any slice of it. */
  lemma NoMatchInSlice(s: string, a: nat, b: nat, name: string)
    requires a <= b <= |s|
    requires Search(s, name).None?
    ensures Search(s[a..b], name).None?
  {
    if Search(s[a..b], name).Some? {
      MatchAtInSlice(s, a, b, name, Search(s[a..b], name).value.pos);
      assert false;
    }
  }

  /* ------------------------------------------------ the canonical form */

  /** No kind name ends with another kind name, even ignoring case. */
  lemma NameNotSuffixOfOther(kind: ActionType, other: ActionType, p: nat)
    requires kind != other && p + |other.Name()| == |kind.Name()|
    ensures !NameAt(kind.Name(), p, other.Name())
  {
    // the last letters differ, except for TYPE and SWIPE, which differ three from the end
    var m := |other.Name()|;
    var k := if kind == Swipe && other == Type then m - 3 else m - 1;
    assert LowerChar(kind.Name()[p + k]) != LowerChar(other.Name()[k]);
  }

  /** Whether a name occurs at `p` depends only on the characters it spans. */
  lemma NameAtPrefix(s: string, n: nat, p: nat, name: string)
    requires p + |name| <= n <= |s|
    ensures NameAt(s, p, name) == NameAt(s[..n], p, name)
  {
  }

  /** The layout of `NAME("target")`. */
  lemma CanonicalLayout(name: string, target: string)
    requires PatternName(name) && NoQuoteBetween(target, 0, |target|)
    ensures var c := Canonical(name, target); var n := |name|;
      && |c| == n + 4 + |target|
      && c[..n] == name
      && c[n] == '(' && c[n + 1] == '"'
      && c[n + 2..n + 2 + |target|] == target
      && c[n + 2 + |target|] == '"' && c[n + 3 + |target|] == ')'
      && NoQuoteBetween(c, 0, n + 1)
      && NoQuoteBetween(c, n + 2, n + 2 + |target|)
  {
    var c := Canonical(name, target);
    var n := |name|;
    assert forall i :: 0 <= i < n ==> c[i] == name[i];
    assert forall i :: n + 2 <= i < n + 2 + |target| ==> c[i] == target[i - n - 2];
  }

  /** In `NAME("target")` the pattern of NAME matches at the start and captures the target. */
  lemma CanonicalMatchAtStart(name: string, target: string)
    requires PatternName(name) && NoQuoteBetween(target, 0, |target|)
    ensures MatchAt(Canonical(name, target), name, 0).Some?
    ensures MatchAt(Canonical(name, target), name, 0).value == target
  {
    var c := Canonical(name, target);
    var n := |name|;
    CanonicalLayout(name, target);
    NameAtPrefix(c, n, 0, name);
    assert c[..n][0..n] == c[..n];
    assert HeaderAt(c, name, 0);
    assert FirstQuote(c, n + 2) == n + 2 + |target|;
  }

  /** Searching `NAME("target")` for NAME finds the whole string and captures the target. */
  lemma CanonicalMatchesItself(name: string, target: string)
    requires PatternName(name) && NoQuoteBetween(target, 0, |target|)
    ensures Search(Canonical(name, target), name) == Some(Found(0, target))
  {
    CanonicalMatchAtStart(name, target);
  }

  /** `NAME("target")` has exactly two quotes: the one after `(` and the one before `)`. */
  lemma CanonicalQuotes(name: string, target: string, i: nat)
    requires PatternName(name) && NoQuoteBetween(target, 0, |target|)
    requires i < |Canonical(name, target)| && IsQuote(Canonical(name, target)[i])
    ensures i == |name| + 1 || i == |name| + 2 + |target|
  {
    CanonicalLayout(name, target);
  }

  /** A pattern can match in `NAME("target")` only if its name is a suffix of NAME, ignoring case. */
  lemma CanonicalMatchIsSuffix(name: string, target: string, other: string)
    requires PatternName(name) && NoQuoteBetween(target, 0, |target|)
    requires Search(Canonical(name, target), other).Some?
    ensures |other| <= |name| && NameAt(name, |name| - |other|, other)
  {
    var c := Canonical(name, target);
    var n := |name|;
    CanonicalLayout(name, target);
    var f := Search(c, other).value;
    var q := TargetStart(other, f.pos) + |f.target|;
    assert MatchSpan(c, other, f.pos, q);
    // the opening quote of the match can only be the one after `NAME(`
    CanonicalQuotes(name, target, f.pos + |other| + 1);
    CanonicalQuotes(name, target, q);
    assert f.pos + |other| == n;
    NameAtPrefix(c, n, f.pos, other);
  }

  /** In `KIND("target")` no other kind's pattern matches anywhere. */
  lemma CanonicalMatchesNoOther(kind: ActionType, target: string, other: ActionType)
    requires NoQuoteBetween(target, 0, |target|)
    requires other != kind
    ensures Search(Canonical(kind.Name(), target), other.Name()).None?
  {
    KindNames(kind);
    if Search(Canonical(kind.Name(), target), other.Name()).Some? {
      CanonicalMatchIsSuffix(kind.Name(), target, other.Name());
      NameNotSuffixOfOther(kind, other, |kind.Name()| - |other.Name()|);
      assert false;
    }
  }

  /* ------------------------------------------- matches and white space */

  /** A match starts with a letter and ends with `)`, so it lies inside the stripped text. */
  lemma MatchInsideStrip(s: string, r: string, a: nat, name: string, p: nat, q: nat)
    requires IsStripOf(s, r, a)
    requires PatternName(name) && MatchSpan(s, name, p, q)
    ensures a <= p && q + 2 <= a + |r|
  {
    assert 'a' <= LowerChar(name[0]) <= 'z';
    assert LowerChar(s[p]) == LowerChar(name[0]);
    assert !IsSpace(s[p]);
    assert !IsSpace(s[q + 1]);
  }

  /** When the leftmost match lies inside `s[a..e]`, the slice has a match no later than it. */
  lemma SliceHasMatch(s: string, a: nat, e: nat, name: string)
    requires a <= e <= |s|
    requires Search(s, name).Some?
    requires a <= Search(s, name).value.pos
    requires TargetStart(name, Search(s, name).value.pos) + |Search(s, name).value.target| + 2 <= e
    ensures Search(s[a..e], name).Some?
    ensures a + Search(s[a..e], name).value.pos <= Search(s, name).value.pos
  {
    var f := Search(s, name).value;
    MatchSpanToSlice(s, a, e, name, f.pos, TargetStart(name, f.pos) + |f.target|);
    assert MatchAt(s[a..e], name, f.pos - a).Some?;
  }

  /** A match no later than the leftmost one is the leftmost one. */
  lemma LeftmostIs(s: string, name: string, p: nat)
    requires MatchAt(s, name, p).Some?
    requires Search(s, name).Some? && p <= Search(s, name).value.pos
    ensures Search(s, name).value == Found(p, MatchAt(s, name, p).value)
  {
  }

  /** When the leftmost match lies inside `s[a..e]`, it is also the slice's leftmost match. */
  lemma LeftmostMatchInSlice(s: string, a: nat, e: nat, name: string)
    requires a <= e <= |s|
    requires Search(s, name).Some?
    requires a <= Search(s, name).value.pos
    requires TargetStart(name, Search(s, name).value.pos) + |Search(s, name).value.target| + 2 <= e
    ensures Search(s[a..e], name).Some?
    ensures Search(s[a..e], name).value.target == Search(s, name).value.target
  {
    SliceHasMatch(s, a, e, name);
    var g := Search(s[a..e], name).value;
    MatchAtInSlice(s, a, e, name, g.pos);
    LeftmostIs(s, name, a + g.pos);
  }

  /** The leftmost match lies inside what stripping keeps, so it survives with the same target. */
  lemma LeftmostMatchInStripOf(s: string, r: string, a: nat, name: string)
    requires IsStripOf(s, r, a)
    requires PatternName(name) && Search(s, name).Some?
    ensures Search(r, name).Some?
    ensures Search(r, name).value.target == Search(s, name).value.target
  {
    var e := a + |r|;
    assert s[a..e] == r;
    var f := Search(s, name).value;
    MatchInsideStrip(s, r, a, name, f.pos, TargetStart(name, f.pos) + |f.target|);
    LeftmostMatchInSlice(s, a, e, name);
  }

  /** The leftmost match survives stripping, with the same target. */
  lemma StripKeepsLeftmostMatch(s: string, name: string)
    requires PatternName(name) && Search(s, name).Some?
    ensures Search(Strip(s), name).Some?
    ensures Search(Strip(s), name).value.target == Search(s, name).value.target
  {
    LeftmostMatchInStripOf(s, Strip(s), SkipSpace(s, 0), name);
  }

  /** A slice left by stripping has no match if the whole text has none. */
  lemma NoMatchInStripOf(s: string, r: string, a: nat, name: string)
    requires IsStripOf(s, r, a) && Search(s, name).None?
    ensures Search(r, name).None?
  {
    NoMatchInSlice(s, a, a + |r|, name);
  }

  /** Stripping cannot create a match. */
  lemma StripAddsNoMatch(s: string, name: string)
    requires Search(s, name).None?
    ensures Search(Strip(s), name).None?
  {
    NoMatchInStripOf(s, Strip(s), SkipSpace(s, 0), name);
  }

  /** Stripping the text changes neither whether a pattern occurs nor what its leftmost match captures. */
  lemma SearchIgnoresStrip(s: string, name: string)
    requires PatternName(name)
    ensures Search(Strip(s), name).Some? <==> Search(s, name).Some?
    ensures Search(s, name).Some? ==> Search(Strip(s), name).value.target == Search(s, name).value.target
  {
    if Search(s, name).Some? {
      StripKeepsLeftmostMatch(s, name);
    } else {
      StripAddsNoMatch(s, name);
    }
  }
}
