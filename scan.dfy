/**
 * The pieces of Python `re` (MULTILINE, and DOTALL where noted) that the spec parsers'
 * patterns are built from, written as scans over positions of a string. Each pattern in the
 * parsers has a fixed shape (a literal prefix, a character run, optional blanks, an
 * end-of-line anchor, a lazily matched body), so no general matcher is needed; the
 * functions below follow the engine's leftmost, greedy-then-backtrack order.
 */
module Scan {
  import opened Wrappers
  import opened Strings

  /** MULTILINE `^`: the start of the string, or just after a newline. */
  predicate AtLineStart(s: string, p: int) {
    p == 0 || (0 < p <= |s| && s[p - 1] == '\n')
  }

  /** MULTILINE `$`: the end of the string, or just before a newline. */
  predicate AtLineEnd(s: string, p: int) {
    p == |s| || (0 <= p < |s| && s[p] == '\n')
  }

  /** The character classes the patterns repeat: `\w`, `\s`, `[\w\s]` and `[-]`. */
  datatype CharClass = Word | Space | WordOrSpace | Dash

  predicate InClass(c: char, k: CharClass) {
    match k
    case Word => IsWordChar(c)
    case Space => IsSpace(c)
    case WordOrSpace => IsWordChar(c) || IsSpace(c)
    case Dash => c == '-'
  }

  /** Where a greedy `[class]*` starting at `p` stops. */
  function RunEnd(s: string, p: nat, k: CharClass): (e: nat)
    requires p <= |s|
    ensures p <= e <= |s|
    ensures forall i :: p <= i < e ==> InClass(s[i], k)
    ensures e == |s| || !InClass(s[e], k)
    decreases |s| - p
  {
    if p < |s| && InClass(s[p], k) then RunEnd(s, p + 1, k) else p
  }

  /** A run that is in the class up to `e` and stops there ends at `e`. */
  lemma {:induction false} RunEndAt(s: string, p: nat, k: CharClass, e: nat)
    requires p <= e <= |s|
    requires forall i :: p <= i < e ==> InClass(s[i], k)
    requires e == |s| || !InClass(s[e], k)
    ensures RunEnd(s, p, k) == e
    decreases e - p
  {
    if p < e {
      RunEndAt(s, p + 1, k, e);
    }
  }

  /** The largest `q` in `[lo, hi]` at which `$` holds: a greedy `\s*` backing off to `$`. */
  function LastLineEnd(s: string, lo: nat, hi: int): (r: Option<nat>)
    requires hi <= |s|
    ensures r.Some? ==> lo <= r.value <= hi && AtLineEnd(s, r.value)
    ensures r.Some? ==> forall q :: r.value < q <= hi ==> !AtLineEnd(s, q)
    ensures r.None? ==> forall q :: lo <= q <= hi ==> !AtLineEnd(s, q)
    decreases hi
  {
    if hi < lo then None
    else if AtLineEnd(s, hi) then Some(hi)
    else LastLineEnd(s, lo, hi - 1)
  }

  /**
   * `(?P<name>[class]+)\s*$` once the name run has been scanned up to `k`: the engine tries
   * name ends from the longest down to one character (`lo`), and for each, whitespace runs
   * from the longest down, until `$` holds. Yields (name end, match end).
   */
  function BacktrackName(s: string, lo: nat, k: int): (r: Option<(nat, nat)>)
    requires k <= |s|
    ensures r.Some? ==> lo <= r.value.0 <= k && r.value.0 <= r.value.1 <= |s|
    ensures r.Some? ==> AtLineEnd(s, r.value.1)
    ensures r.Some? ==> forall i :: r.value.0 <= i < r.value.1 ==> IsSpace(s[i])
    decreases k
  {
    if k < lo then None
    else
      var wsEnd := RunEnd(s, k, Space);
      match LastLineEnd(s, k, wsEnd)
      case Some(q) => Some((k, q))
      case None => BacktrackName(s, lo, k - 1)
  }

  /**
   * The lookahead `(?=\n\n|^##|\Z)` that ends a lazily matched table body: a blank line
   * follows, a line starting `##` begins here, or the string ends (Python's `\Z` is the very
   * end). The enum tables' `(?=\n\n|^###|^##|\Z)` is the same test, as `^###` implies `^##`.
   */
  predicate BodyStopsAt(s: string, q: int) {
    HasAt(s, q, "\n\n") || (AtLineStart(s, q) && HasAt(s, q, "##")) || q == |s|
  }

  /** Where the DOTALL `.*?` body starting at `q` ends: the first stop at or after `q`. */
  function BodyEnd(s: string, q: nat): (e: nat)
    requires q <= |s|
    ensures q <= e <= |s| && BodyStopsAt(s, e)
    ensures forall i :: q <= i < e ==> !BodyStopsAt(s, i)
    decreases |s| - q
  {
    if BodyStopsAt(s, q) then q else BodyEnd(s, q + 1)
  }

  /** Away from the start of a suffix, the body lookahead sees what it sees in the whole string. */
  lemma BodyStopsAtShift(s: string, a: nat, i: nat)
    requires a <= |s| && 1 <= i <= |s| - a
    ensures BodyStopsAt(s[a..], i) <==> BodyStopsAt(s, a + i)
  {
    HasAtShift(s, a, i, "\n\n");
    HasAtShift(s, a, i, "##");
    assert s[a..][i - 1] == s[a + i - 1];
  }

  /** A body scanned in a suffix ends where it ends in the whole string. */
  lemma {:induction false} BodyEndShift(s: string, a: nat, q: nat, t: nat)
    requires a <= |s| && 1 <= q <= |s| - a && t == a + q
    ensures a + BodyEnd(s[a..], q) == BodyEnd(s, t)
    decreases |s| - a - q
  {
    BodyStopsAtShift(s, a, q);
    if !BodyStopsAt(s, t) {
      BodyEndShift(s, a, q + 1, t + 1);
    }
  }

  /**
   * Appending a blank line to a string whose body runs to the end moves the body's end back by
   * at most the one newline the string already ended with.
   */
  lemma {:induction false} BodyEndBlankLine(c: string, q: nat)
    requires q <= |c| && BodyEnd(c, q) == |c|
    ensures BodyEnd(c + "\n\n", q) == |c| || (BodyEnd(c + "\n\n", q) == |c| - 1 && q < |c| && c[|c| - 1] == '\n')
    decreases |c| - q
  {
    var d := c + "\n\n";
    if q < |c| {
      assert q == 0 || d[q - 1] == c[q - 1];
      if q < |c| - 1 {
        assert !BodyStopsAt(c, q);
        assert d[q..q + 2] == c[q..q + 2];
        assert !BodyStopsAt(d, q);
        BodyEndBlankLine(c, q + 1);
      } else {
        assert d[q..q + 2] == [c[q], '\n'];
        if !BodyStopsAt(d, q) {
          assert HasAt(d, q + 1, "\n\n");
        }
      }
    } else {
      assert HasAt(d, q, "\n\n");
    }
  }

  /** Where the lazy `.*?\)` starting at `i` stops: the first `)`, unless a newline comes first (`.` does not match it). */
  function CloseOnLine(t: string, i: nat): (r: Option<nat>)
    requires i <= |t|
    ensures r.Some? ==> i <= r.value < |t| && t[r.value] == ')'
    ensures r.Some? ==> forall j :: i <= j < r.value ==> t[j] != ')' && t[j] != '\n'
    decreases |t| - i
  {
    if i == |t| then None
    else if t[i] == ')' then Some(i)
    else if t[i] == '\n' then None
    else CloseOnLine(t, i + 1)
  }

  /**
   * `re.search(r"\((.*?)\)", t)` from `i`: the leftmost `(` whose line holds a later `)`;
   * yields the bounds of the group between them.
   */
  function ParenGroup(t: string, i: nat): (r: Option<(nat, nat)>)
    requires i <= |t|
    ensures r.Some? ==> i < r.value.0 <= r.value.1 < |t| && t[r.value.0 - 1] == '(' && t[r.value.1] == ')'
    decreases |t| - i
  {
    if i == |t| then None
    else if t[i] == '(' && CloseOnLine(t, i + 1).Some? then Some((i + 1, CloseOnLine(t, i + 1).value))
    else ParenGroup(t, i + 1)
  }

  /** Without a `(` from `i` on, there is no group. */
  lemma {:induction false} NoParenGroup(t: string, i: nat)
    requires i <= |t| && forall j :: i <= j < |t| ==> t[j] != '('
    ensures ParenGroup(t, i).None?
    decreases |t| - i
  {
    if i < |t| {
      NoParenGroup(t, i + 1);
    }
  }

  /** A `(` followed on its line by a `)` is found when no `(` comes before it. */
  lemma {:induction false} ParenGroupAt(t: string, i: nat, o: nat, c: nat)
    requires i <= o < c < |t| && t[o] == '(' && t[c] == ')'
    requires forall j :: i <= j < o ==> t[j] != '('
    requires forall j :: o < j < c ==> t[j] != ')' && t[j] != '\n'
    ensures ParenGroup(t, i) == Some((o + 1, c))
    decreases o - i
  {
    if i < o {
      ParenGroupAt(t, i + 1, o, c);
    } else {
      CloseOnLineAt(t, o + 1, c);
    }
  }

  lemma {:induction false} CloseOnLineAt(t: string, i: nat, c: nat)
    requires i <= c < |t| && t[c] == ')'
    requires forall j :: i <= j < c ==> t[j] != ')' && t[j] != '\n'
    ensures CloseOnLine(t, i) == Some(c)
    decreases c - i
  {
    if i < c {
      CloseOnLineAt(t, i + 1, c);
    }
  }

  // ---------------------------------------------------------------------------
  // Headings: `^<prefix>(?P<name>[class]+)\s*$`, MULTILINE, found by `search` and `finditer`

  /** A heading pattern: a literal line prefix, then a name made of one character class. */
  datatype HeadingPattern = HeadingPattern(prefix: string, name: CharClass)

  /** One heading match: where it starts, where its name ends and where the match ends. */
  datatype Heading = Heading(start: nat, nameEnd: nat, end: nat)

  /** The heading match that starts at `p`, if any (its shape: `HeadingAtShape`). */
  function HeadingAt(s: string, p: nat, pat: HeadingPattern): (r: Option<Heading>)
    requires p <= |s|
    ensures r.Some? ==> r.value.start == p && p + |pat.prefix| < r.value.nameEnd <= r.value.end <= |s|
  {
    if AtLineStart(s, p) && HasAt(s, p, pat.prefix) then
      match BacktrackName(s, p + |pat.prefix| + 1, RunEnd(s, p + |pat.prefix|, pat.name))
      case Some((n, e)) => Some(Heading(p, n, e))
      case None => None
    else None
  }

  /**
   * A heading match starts a line with the prefix, continues with a non-empty run of the
   * name's class and then blanks, and ends at the end of a line.
   */
  lemma HeadingAtShape(s: string, p: nat, pat: HeadingPattern)
    requires p <= |s| && HeadingAt(s, p, pat).Some?
    ensures AtLineStart(s, p) && HasAt(s, p, pat.prefix) && AtLineEnd(s, HeadingAt(s, p, pat).value.end)
    ensures forall i :: p + |pat.prefix| <= i < HeadingAt(s, p, pat).value.nameEnd ==> InClass(s[i], pat.name)
    ensures forall i :: HeadingAt(s, p, pat).value.nameEnd <= i < HeadingAt(s, p, pat).value.end ==> IsSpace(s[i])
  {
  }

  /** The heading's name group. */
  function HeadingName(s: string, h: Heading, pat: HeadingPattern): string
    requires h.start + |pat.prefix| <= h.nameEnd <= |s|
  {
    s[h.start + |pat.prefix|..h.nameEnd]
  }

  /** `search` from `pos`: the leftmost heading match at or after `pos` (see `NextHeadingIsLeftmost`). */
  function NextHeading(s: string, pos: nat, pat: HeadingPattern): (r: Option<Heading>)
    requires pos <= |s|
    ensures r.Some? ==> pos <= r.value.start && r.value.start + |pat.prefix| < r.value.nameEnd <= r.value.end <= |s|
    decreases |s| - pos
  {
    var h := HeadingAt(s, pos, pat);
    if h.Some? then h
    else if pos == |s| then None
    else NextHeading(s, pos + 1, pat)
  }

  /** `search` finds a heading match, and no match starts between `pos` and the one it finds. */
  lemma {:induction false} NextHeadingIsLeftmost(s: string, pos: nat, pat: HeadingPattern)
    requires pos <= |s|
    ensures NextHeading(s, pos, pat).Some? ==> HeadingAt(s, NextHeading(s, pos, pat).value.start, pat) == NextHeading(s, pos, pat)
    ensures NextHeading(s, pos, pat).Some? ==> forall p :: pos <= p < NextHeading(s, pos, pat).value.start ==> HeadingAt(s, p, pat).None?
    ensures NextHeading(s, pos, pat).None? ==> forall p :: pos <= p <= |s| ==> HeadingAt(s, p, pat).None?
    decreases |s| - pos
  {
    if HeadingAt(s, pos, pat).None? && pos < |s| {
      var next := NextHeading(s, pos + 1, pat);
      assert NextHeading(s, pos, pat) == next;
      NextHeadingIsLeftmost(s, pos + 1, pat);
      var end := if next.Some? then next.value.start else |s| + 1;
      forall p | pos <= p < end ensures HeadingAt(s, p, pat).None? {
        if p == pos {
        }
      }
    }
  }

  /**
   * Where a section that starts at `from` ends: at the next heading of its own kind, else at
   * the next heading of the other kind, else at the end of the text.
   */
  function SectionEnd(s: string, from: nat, own: HeadingPattern, other: HeadingPattern): (e: nat)
    requires from <= |s|
    ensures from <= e <= |s|
  {
    match NextHeading(s, from, own)
    case Some(n) => n.start
    case None =>
      match NextHeading(s, from, other)
      case Some(l) => l.start
      case None => |s|
  }

  /** No heading of the section's own kind starts inside it. */
  lemma SectionHasNoOwn(s: string, from: nat, own: HeadingPattern, other: HeadingPattern)
    requires from <= |s|
    ensures forall p :: from <= p < SectionEnd(s, from, own, other) ==> HeadingAt(s, p, own).None?
  {
    var next := NextHeading(s, from, own);
    var bound := if next.Some? then next.value.start else |s| + 1;
    assert forall p :: from <= p < bound ==> HeadingAt(s, p, own).None? by {
      NextHeadingIsLeftmost(s, from, own);
    }
    assert SectionEnd(s, from, own, other) <= bound;
  }

  /** A section ends at the first heading of its own kind at or after `p`, if there is one at `p`. */
  lemma SectionEndsAtOwn(s: string, from: nat, own: HeadingPattern, other: HeadingPattern, p: nat)
    requires from <= p <= |s| && HeadingAt(s, p, own).Some?
    ensures HeadingAt(s, SectionEnd(s, from, own, other), own).Some? && SectionEnd(s, from, own, other) <= p
  {
    NextHeadingFinds(s, from, own, p);
    NextHeadingMatches(s, from, own);
  }

  /** Without a heading of its own kind after it, a section ends at the first heading of the other kind, or at the end. */
  lemma SectionEndsAtOther(s: string, from: nat, own: HeadingPattern, other: HeadingPattern)
    requires from <= |s|
    requires forall p :: from <= p <= |s| ==> HeadingAt(s, p, own).None?
    ensures forall p :: from <= p < SectionEnd(s, from, own, other) ==> HeadingAt(s, p, other).None?
    ensures SectionEnd(s, from, own, other) == |s| || HeadingAt(s, SectionEnd(s, from, own, other), other).Some?
  {
    var next := NextHeading(s, from, own);
    assert next.None? by {
      if next.Some? {
        NextHeadingMatches(s, from, own);
        assert HeadingAt(s, next.value.start, own).Some?;
      }
    }
    var list := NextHeading(s, from, other);
    var bound := if list.Some? then list.value.start else |s|;
    assert forall p :: from <= p < bound ==> HeadingAt(s, p, other).None? by {
      NextHeadingIsLeftmost(s, from, other);
    }
    assert list.Some? ==> HeadingAt(s, bound, other).Some? by {
      NextHeadingMatches(s, from, other);
    }
    assert SectionEnd(s, from, own, other) == bound;
  }

  /** A search that passes over a heading finds one at or before it. */
  lemma {:induction false} NextHeadingFinds(s: string, pos: nat, pat: HeadingPattern, p: nat)
    requires pos <= p <= |s| && HeadingAt(s, p, pat).Some?
    ensures NextHeading(s, pos, pat).Some? && NextHeading(s, pos, pat).value.start <= p
    decreases p - pos
  {
    if HeadingAt(s, pos, pat).None? {
      NextHeadingFinds(s, pos + 1, pat, p);
    }
  }

  lemma {:induction false} NextHeadingMatches(s: string, pos: nat, pat: HeadingPattern)
    requires pos <= |s|
    ensures NextHeading(s, pos, pat).Some? ==> HeadingAt(s, NextHeading(s, pos, pat).value.start, pat) == NextHeading(s, pos, pat)
    decreases |s| - pos
  {
    if HeadingAt(s, pos, pat).None? && pos < |s| {
      NextHeadingMatches(s, pos + 1, pat);
    }
  }

  /** `finditer` from `pos`: each search resumes where the previous match ended. */
  function HeadingsFrom(s: string, pos: nat, pat: HeadingPattern): (hs: seq<Heading>)
    requires pos <= |s|
    ensures forall k :: 0 <= k < |hs| ==> pos <= hs[k].start && hs[k].start + |pat.prefix| < hs[k].nameEnd <= hs[k].end <= |s|
    decreases |s| - pos
  {
    match NextHeading(s, pos, pat)
    case None => []
    case Some(h) => [h] + HeadingsFrom(s, h.end, pat)
  }

  /** The matches `finditer` yields do not overlap and come in document order. */
  lemma {:induction false} HeadingsOrdered(s: string, pos: nat, pat: HeadingPattern)
    requires pos <= |s|
    ensures forall k, l :: 0 <= k < l < |HeadingsFrom(s, pos, pat)| ==> HeadingsFrom(s, pos, pat)[k].end <= HeadingsFrom(s, pos, pat)[l].start
    decreases |s| - pos
  {
    var hs := HeadingsFrom(s, pos, pat);
    if hs != [] {
      var h := NextHeading(s, pos, pat).value;
      HeadingsOrdered(s, h.end, pat);
      assert hs == [h] + HeadingsFrom(s, h.end, pat);
    }
  }

  /** Every match `finditer` yields is a heading match at its own start. */
  lemma HeadingsMatch(s: string, pos: nat, pat: HeadingPattern)
    requires pos <= |s|
    ensures forall k :: 0 <= k < |HeadingsFrom(s, pos, pat)| ==> HeadingAt(s, HeadingsFrom(s, pos, pat)[k].start, pat) == Some(HeadingsFrom(s, pos, pat)[k])
  {
    forall k | 0 <= k < |HeadingsFrom(s, pos, pat)| ensures HeadingAt(s, HeadingsFrom(s, pos, pat)[k].start, pat) == Some(HeadingsFrom(s, pos, pat)[k]) {
      HeadingMatchAt(s, pos, pat, k);
    }
  }

  lemma {:induction false} HeadingMatchAt(s: string, pos: nat, pat: HeadingPattern, k: nat)
    requires pos <= |s| && k < |HeadingsFrom(s, pos, pat)|
    ensures HeadingAt(s, HeadingsFrom(s, pos, pat)[k].start, pat) == Some(HeadingsFrom(s, pos, pat)[k])
    decreases |s| - pos
  {
    var hs := HeadingsFrom(s, pos, pat);
    var next := NextHeading(s, pos, pat);
    assert next.Some?;
    var h := next.value;
    var rest := HeadingsFrom(s, h.end, pat);
    assert hs == [h] + rest;
    if k == 0 {
      assert hs[0] == h;
      NextHeadingMatches(s, pos, pat);
    } else {
      assert hs[k] == rest[k - 1];
      HeadingMatchAt(s, h.end, pat, k - 1);
    }
  }
}
