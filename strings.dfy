/**
 * The fragment of Python's `str` behaviour that the spec tools and the store rely on:
 * whitespace and word characters as Python's `re` and `str.strip` see them (restricted to
 * ASCII), case mapping, `strip`, `rstrip(chars)`, `split(sep)`, `join`, `replace`,
 * the `in`, `startswith` and `endswith` tests, and decimal rendering of a count.
 */
module Strings {

  /** `str.isspace()` / regex `\s` on ASCII: space, \t \n \v \f \r and the separators 0x1C-0x1F. */
  predicate IsSpace(c: char) {
    c == ' ' || (9 <= c as int <= 13) || (28 <= c as int <= 31)
  }

  /** Regex `\w` on ASCII. */
  predicate IsWordChar(c: char) {
    ('a' <= c <= 'z') || ('A' <= c <= 'Z') || ('0' <= c <= '9') || c == '_'
  }

  predicate IsUpperLetter(c: char) { 'A' <= c <= 'Z' }
  predicate IsLowerLetter(c: char) { 'a' <= c <= 'z' }

  function LowerChar(c: char): (d: char)
    ensures IsSpace(d) <==> IsSpace(c)
    ensures !IsUpperLetter(d)
  {
    if IsUpperLetter(c) then (c as int + 32) as char else c
  }

  function UpperChar(c: char): (d: char)
    ensures IsWordChar(d) <==> IsWordChar(c)
    ensures !IsLowerLetter(d)
  {
    if IsLowerLetter(c) then (c as int - 32) as char else c
  }

  /** `s.lower()` */
  function Lower(s: string): (r: string)
    ensures |r| == |s|
    ensures forall i :: 0 <= i < |s| ==> r[i] == LowerChar(s[i])
  {
    seq(|s|, i requires 0 <= i < |s| => LowerChar(s[i]))
  }

  /** `s.upper()` */
  function Upper(s: string): (r: string)
    ensures |r| == |s|
    ensures forall i :: 0 <= i < |s| ==> r[i] == UpperChar(s[i])
  {
    seq(|s|, i requires 0 <= i < |s| => UpperChar(s[i]))
  }

  predicate AllSpace(s: string) {
    forall i :: 0 <= i < |s| ==> IsSpace(s[i])
  }

  /** `s.rstrip()` (what it keeps: `RStripShape`) */
  function RStrip(s: string): string
  {
    if |s| > 0 && IsSpace(s[|s| - 1]) then RStrip(s[..|s| - 1]) else s
  }

  /** `s.lstrip()` (what it keeps: `LStripShape`) */
  function LStrip(s: string): string
  {
    if |s| > 0 && IsSpace(s[0]) then LStrip(s[1..]) else s
  }

  /** `s.strip()`: the slice between the leading and the trailing run of whitespace. */
  function Strip(s: string): string
  {
    LStrip(RStrip(s))
  }

  /** `rstrip` keeps a prefix that does not end in whitespace, and drops only whitespace. */
  lemma {:induction false} RStripShape(s: string)
    ensures |RStrip(s)| <= |s| && RStrip(s) == s[..|RStrip(s)|]
    ensures RStrip(s) == [] || !IsSpace(RStrip(s)[|RStrip(s)| - 1])
    ensures forall i :: |RStrip(s)| <= i < |s| ==> IsSpace(s[i])
  {
    if |s| > 0 && IsSpace(s[|s| - 1]) {
      RStripShape(s[..|s| - 1]);
    }
  }

  /** `lstrip` keeps a suffix that does not start with whitespace, and drops only whitespace. */
  lemma {:induction false} LStripShape(s: string)
    ensures |LStrip(s)| <= |s| && LStrip(s) == s[|s| - |LStrip(s)|..]
    ensures LStrip(s) == [] || !IsSpace(LStrip(s)[0])
    ensures forall i :: 0 <= i < |s| - |LStrip(s)| ==> IsSpace(s[i])
  {
    if |s| > 0 && IsSpace(s[0]) {
      LStripShape(s[1..]);
    }
  }

  /** A string without surrounding whitespace, as `strip()` leaves it. */
  predicate Trimmed(s: string) {
    s == [] || (!IsSpace(s[0]) && !IsSpace(s[|s| - 1]))
  }

  /** `s.rstrip(c)` for a single character `c`. */
  function RStripChar(s: string, c: char): (r: string)
    ensures |r| <= |s| && r == s[..|r|]
    ensures r == [] || r[|r| - 1] != c
  {
    if |s| > 0 && s[|s| - 1] == c then RStripChar(s[..|s| - 1], c) else s
  }

  predicate StartsWith(s: string, p: string) {
    |p| <= |s| && s[..|p|] == p
  }

  predicate EndsWith(s: string, p: string) {
    |p| <= |s| && s[|s| - |p|..] == p
  }

  /** `p` occurs in `s` starting at index `i`. */
  predicate HasAt(s: string, i: int, p: string) {
    0 <= i && i + |p| <= |s| && s[i..i + |p|] == p
  }

  /** Python's `p in s`: `p` occurs at the start of `s` or further on. */
  predicate Contains(s: string, p: string)
    decreases |s|
  {
    HasAt(s, 0, p) || (|s| > 0 && Contains(s[1..], p))
  }

  /** `p in s` holds exactly when `p` occurs at some index of `s`. */
  lemma {:induction false} ContainsIff(s: string, p: string, i: nat)
    ensures HasAt(s, i, p) ==> Contains(s, p)
    ensures Contains(s, p) ==> exists j :: 0 <= j <= |s| && HasAt(s, j, p)
    decreases |s|
  {
    if |s| > 0 {
      if i > 0 {
        ContainsIff(s[1..], p, i - 1);
        if HasAt(s, i, p) {
          assert s[1..][i - 1..i - 1 + |p|] == s[i..i + |p|];
        }
      } else {
        ContainsIff(s[1..], p, 0);
      }
      if Contains(s[1..], p) && !HasAt(s, 0, p) {
        var j :| 0 <= j <= |s[1..]| && HasAt(s[1..], j, p);
        assert s[1..][j..j + |p|] == s[j + 1..j + 1 + |p|];
        assert HasAt(s, j + 1, p);
      }
    }
  }

  /** An occurrence in a suffix is an occurrence in the whole string, shifted. */
  lemma HasAtShift(s: string, a: nat, i: nat, p: string)
    requires a <= |s|
    ensures HasAt(s[a..], i, p) <==> HasAt(s, a + i, p)
  {
    if HasAt(s[a..], i, p) || HasAt(s, a + i, p) {
      assert s[a..][i..i + |p|] == s[a + i..a + i + |p|];
    }
  }

  /** An occurrence inside a slice is an occurrence in the whole string, shifted. */
  lemma HasAtSlice(s: string, a: nat, b: nat, i: nat, p: string)
    requires a <= b <= |s| && HasAt(s[a..b], i, p)
    ensures HasAt(s, a + i, p)
  {
    forall k | 0 <= k < |p| ensures s[a + i + k] == p[k] {
      assert p[k] == s[a..b][i..i + |p|][k] == s[a..b][i + k];
    }
  }

  /** `a + b` occurs at `i` exactly when `a` does and `b` follows it. */
  lemma HasAtConcat(s: string, i: nat, a: string, b: string)
    ensures HasAt(s, i, a + b) <==> HasAt(s, i, a) && HasAt(s, i + |a|, b)
  {
    if i + |a| + |b| <= |s| {
      var t := s[i..i + |a| + |b|];
      assert t[..|a|] == s[i..i + |a|] && t[|a|..] == s[i + |a|..i + |a| + |b|];
      assert (a + b)[..|a|] == a && (a + b)[|a|..] == b;
      assert t == s[i..i + |a|] + s[i + |a|..i + |a| + |b|];
    }
  }

  /** `s.replace(pat, rep)`: left-to-right, non-overlapping occurrences. */
  function Replace(s: string, pat: string, rep: string): string
    requires |pat| > 0
    decreases |s|
  {
    if |s| < |pat| then s
    else if s[..|pat|] == pat then rep + Replace(s[|pat|..], pat, rep)
    else [s[0]] + Replace(s[1..], pat, rep)
  }

  /** `s.split(sep)` for a one-character separator: always at least one part. */
  function Split(s: string, sep: char): (parts: seq<string>)
    ensures |parts| >= 1
    ensures forall k :: 0 <= k < |parts| ==> sep !in parts[k]
    decreases |s|
  {
    if |s| == 0 then [""]
    else if s[0] == sep then [""] + Split(s[1..], sep)
    else
      var rest := Split(s[1..], sep);
      [[s[0]] + rest[0]] + rest[1..]
  }

  /** `sep.join(parts)` */
  function Join(parts: seq<string>, sep: string): string
  {
    if |parts| == 0 then ""
    else if |parts| == 1 then parts[0]
    else parts[0] + sep + Join(parts[1..], sep)
  }

  // ---------------------------------------------------------------------------
  // Facts about the operations above

  lemma TrimmedStripIsIdentity(s: string)
    requires Trimmed(s)
    ensures Strip(s) == s
  {
  }

  lemma {:induction false} StripIsTrimmed(s: string)
    ensures Trimmed(Strip(s))
  {
    var r := RStrip(s);
    var l := LStrip(r);
    RStripShape(s);
    LStripShape(r);
    if l != [] {
      assert l[|l| - 1] == r[|r| - 1];
    }
  }

  /** `s.replace(c, "")`: the characters of `s` other than `c`. */
  function Without(s: string, c: char): (r: string)
    ensures |r| <= |s|
  {
    if s == [] then [] else if s[0] == c then Without(s[1..], c) else [s[0]] + Without(s[1..], c)
  }

  lemma {:induction false} ReplaceCharByNothing(s: string, c: char)
    ensures Replace(s, [c], "") == Without(s, c)
  {
    if |s| >= 1 {
      ReplaceCharByNothing(s[1..], c);
      if s[..1] == [c] {
        assert s[0] == c;
      } else {
        assert s[0] != c;
      }
    }
  }

  lemma {:induction false} WithoutMembers(s: string, c: char, x: char)
    ensures x in Without(s, c) <==> x in s && x != c
  {
    if s != [] {
      WithoutMembers(s[1..], c, x);
      assert s == [s[0]] + s[1..];
    }
  }

  lemma {:induction false} SplitWithoutSeparator(a: string, sep: char)
    requires sep !in a
    ensures Split(a, sep) == [a]
  {
    if a != [] {
      SplitWithoutSeparator(a[1..], sep);
      assert [a[0]] + a[1..] == a;
    }
  }

  lemma {:induction false} SplitAtSeparator(a: string, sep: char, b: string)
    requires sep !in a
    ensures Split(a + [sep] + b, sep) == [a] + Split(b, sep)
  {
    if a == [] {
      assert a + [sep] + b == [sep] + b;
      assert ([sep] + b)[1..] == b;
    } else {
      var s := a + [sep] + b;
      assert s[1..] == a[1..] + [sep] + b;
      SplitAtSeparator(a[1..], sep, b);
      assert [a[0]] + a[1..] == a;
    }
  }

  /** A string that is already trimmed survives `strip()` after a leading space is added. */
  lemma StripAfterSpace(v: string)
    requires Trimmed(v)
    ensures Strip([' '] + v) == v
  {
    var w := [' '] + v;
    if v == [] {
      assert RStrip(w) == RStrip(w[..0]);
    } else {
      assert RStrip(w) == w;
      assert w[1..] == v;
      assert LStrip(w) == LStrip(v);
    }
  }

  /** `strip()` only removes characters: what it keeps was there. */
  lemma StripKeeps(s: string, c: char)
    requires c !in s
    ensures c !in Strip(s)
  {
    var r := RStrip(s);
    RStripShape(s);
    LStripShape(r);
  }

  /** A trimmed text with one blank on each side strips back to itself. */
  lemma StripPadded(v: string)
    requires Trimmed(v)
    ensures Strip(" " + v + " ") == v
  {
    var w := " " + v + " ";
    assert w[..|w| - 1] == " " + v;
    assert RStrip(w) == RStrip(" " + v);
    StripAfterSpace(v);
  }

  /** A character that is neither in any part nor in the separator is not in the joined string. */
  lemma {:induction false} JoinAvoids(parts: seq<string>, sep: string, c: char)
    requires c !in sep
    requires forall k :: 0 <= k < |parts| ==> c !in parts[k]
    ensures c !in Join(parts, sep)
  {
    if |parts| > 1 {
      JoinAvoids(parts[1..], sep, c);
    }
  }

  /** Splitting a joined list on its one-character separator gives the list back. */
  lemma {:induction false} SplitJoin(parts: seq<string>, sep: char)
    requires |parts| >= 1
    requires forall k :: 0 <= k < |parts| ==> sep !in parts[k]
    ensures Split(Join(parts, [sep]), sep) == parts
  {
    if |parts| == 1 {
      SplitWithoutSeparator(parts[0], sep);
    } else {
      SplitJoin(parts[1..], sep);
      SplitAtSeparator(parts[0], sep, Join(parts[1..], [sep]));
      assert [parts[0]] + parts[1..] == parts;
    }
  }

  // ---------------------------------------------------------------------------
  // Removing text: `s.replace(pat, "")` and `strip()` only ever take characters away

  /** Removing a pattern never lengthens a string, and removes nothing exactly when the length is kept. */
  lemma {:induction false} RemoveShrinks(s: string, pat: string)
    requires |pat| > 0
    ensures |Replace(s, pat, "")| <= |s|
    ensures |Replace(s, pat, "")| == |s| ==> Replace(s, pat, "") == s
    ensures Contains(s, pat) ==> |Replace(s, pat, "")| < |s|
    decreases |s|
  {
    if |s| >= |pat| {
      if s[..|pat|] == pat {
        RemoveShrinks(s[|pat|..], pat);
      } else {
        RemoveShrinks(s[1..], pat);
        assert [s[0]] + s[1..] == s;
        if Contains(s, pat) {
          assert !HasAt(s, 0, pat);
        }
      }
    } else {
      ContainsIff(s, pat, 0);
    }
  }

  /** Removing a pattern keeps only characters of the original. */
  lemma {:induction false} RemoveKeeps(s: string, pat: string, c: char)
    requires |pat| > 0 && c in Replace(s, pat, "")
    ensures c in s
    decreases |s|
  {
    if |s| >= |pat| {
      if s[..|pat|] == pat {
        RemoveKeeps(s[|pat|..], pat, c);
      } else if c != s[0] {
        RemoveKeeps(s[1..], pat, c);
      }
    }
  }

  /** `strip()` never lengthens a string, and keeps it exactly when the length is kept. */
  lemma StripShrinks(s: string)
    ensures |Strip(s)| <= |s|
    ensures |Strip(s)| == |s| ==> Strip(s) == s
    ensures forall c :: c in Strip(s) ==> c in s
  {
    var r := RStrip(s);
    RStripShape(s);
    LStripShape(r);
    forall c | c in Strip(s) ensures c in s {
      var k :| 0 <= k < |Strip(s)| && Strip(s)[k] == c;
      assert c == r[|r| - |Strip(s)| + k];
    }
  }

  /** `s.lower()` leaves a string without capital letters as it is. */
  lemma LowerOfLower(s: string)
    requires forall c :: c in s ==> !IsUpperLetter(c)
    ensures Lower(s) == s
  {
  }

  // ---------------------------------------------------------------------------
  // Decimal rendering (`str(n)` / f-string of an int)

  function DigitChar(d: nat): (c: char)
    requires d < 10
  {
    ('0' as int + d) as char
  }

  predicate IsDigit(c: char) { '0' <= c <= '9' }

  function DigitValue(c: char): nat
    requires IsDigit(c)
  {
    c as int - '0' as int
  }

  function NatToDecimal(n: nat): (s: string)
    ensures |s| >= 1
    ensures forall i :: 0 <= i < |s| ==> IsDigit(s[i])
  {
    if n < 10 then [DigitChar(n)] else NatToDecimal(n / 10) + [DigitChar(n % 10)]
  }

  /** The number a string of decimal digits denotes (`int(s)`). */
  function DecimalValue(s: string): nat
    requires forall i :: 0 <= i < |s| ==> IsDigit(s[i])
  {
    if s == [] then 0 else DecimalValue(s[..|s| - 1]) * 10 + DigitValue(s[|s| - 1])
  }

  /** `int(str(n)) == n` */
  lemma {:induction false} DecimalRoundTrip(n: nat)
    ensures DecimalValue(NatToDecimal(n)) == n
  {
    if n >= 10 {
      var s := NatToDecimal(n);
      assert s[..|s| - 1] == NatToDecimal(n / 10);
      DecimalRoundTrip(n / 10);
    }
  }

  /** A pattern longer than the text does not occur in it. */
  lemma LongerNotContained(s: string, p: string)
    requires |p| > |s|
    ensures !Contains(s, p)
  {
    ContainsIff(s, p, 0);
  }

  /** A pattern as long as the text occurs in it only when it is the text. */
  lemma SameLengthContained(s: string, p: string)
    requires |p| == |s|
    ensures Contains(s, p) ==> s == p
  {
    ContainsIff(s, p, 0);
    if Contains(s, p) {
      var j :| 0 <= j <= |s| && HasAt(s, j, p);
      assert s[0..|p|] == s;
    }
  }

  /** Removing a pattern that does not occur changes nothing. */
  lemma {:induction false} RemoveAbsent(s: string, pat: string)
    requires |pat| > 0 && !Contains(s, pat)
    ensures Replace(s, pat, "") == s
    decreases |s|
  {
    if |s| >= |pat| {
      RemoveAbsent(s[1..], pat);
    }
  }

  /** An occurring pattern's first character occurs. */
  lemma ContainsFirstChar(s: string, p: string)
    requires |p| > 0 && Contains(s, p)
    ensures p[0] in s
  {
    ContainsIff(s, p, 0);
    var j :| 0 <= j <= |s| && HasAt(s, j, p);
    assert s[j] == p[0];
  }

  /** Replacing one character by another works position by position. */
  lemma {:induction false} ReplaceChar(s: string, c: char, d: char)
    ensures |Replace(s, [c], [d])| == |s|
    ensures forall i :: 0 <= i < |s| ==> Replace(s, [c], [d])[i] == (if s[i] == c then d else s[i])
    decreases |s|
  {
    if |s| >= 1 {
      ReplaceChar(s[1..], c, d);
      assert s[..1] == [c] <==> s[0] == c;
    }
  }
}
