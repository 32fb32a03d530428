/**
 * The AdCOM 1.0 dialect of the specification parser. Objects are `## Object: Name` headings
 * whose attribute table lies between the heading and the next object heading (or, after the
 * last object, the first `### List:` heading); enumerations are `### List: Name` headings
 * followed within 2000 characters by a `| Value | Description |` table. Header rows accept one
 * optional blank around each title and separator rows of any number of dashes.
 */
module AdcomParser {
  import opened Wrappers
  import opened Strings
  import opened Scan
  import opened MdTables

  // ---------------------------------------------------------------------------
  // Table headers: fixed shapes with optional blanks (` ?`) and dash runs (`[-]+`)

  /** One piece of a header pattern. */
  datatype Piece = Text(text: string) | OptionalSpace | Dashes

  /** A character that ends a run of blanks or dashes. */
  predicate EndsRun(ch: char) {
    ch != ' ' && ch != '-'
  }

  /** `t` occurs in `c` at `i`, stated character by character. */
  predicate TextAt(c: string, i: nat, t: string) {
    i + |t| <= |c| && forall k :: 0 <= k < |t| ==> c[i + k] == t[k]
  }

  lemma TextAtIsHasAt(c: string, i: nat, t: string)
    ensures TextAt(c, i, t) <==> HasAt(c, i, t)
  {
    if TextAt(c, i, t) {
      assert c[i..i + |t|] == t;
    }
    if HasAt(c, i, t) {
      forall k | 0 <= k < |t| ensures c[i + k] == t[k] {
        assert c[i + k] == c[i..i + |t|][k];
      }
    }
  }

  /**
   * Where one piece matches from `i`, if it does: the literal, one blank if there is one, or
   * the whole run of dashes (at least one).
   */
  function MatchPiece(c: string, i: nat, p: Piece): (r: Option<nat>)
    requires i <= |c|
    ensures r.Some? ==> i <= r.value <= |c|
  {
    match p
    case Text(t) => if TextAt(c, i, t) then Some(i + |t|) else None
    case OptionalSpace => Some(if i < |c| && c[i] == ' ' then i + 1 else i)
    case Dashes =>
      var e := RunEnd(c, i, Dash);
      if e == i then None else Some(e)
  }

  /**
   * Where the pieces match from `i`, if they do. The engine's backtracking is not needed:
   * in both header patterns every ` ?` and `[-]+` is followed by text starting with a letter
   * or `|` (`Delimited`), so giving back a blank or a dash never lets the rest match.
   */
  function MatchPieces(c: string, i: nat, ps: seq<Piece>): (r: Option<nat>)
    requires i <= |c|
    ensures r.Some? ==> i <= r.value <= |c|
    decreases |ps|
  {
    if ps == [] then Some(i)
    else
      match MatchPiece(c, i, ps[0])
      case None => None
      case Some(j) => MatchPieces(c, j, ps[1..])
  }

  /** Every optional or repeated piece is followed by non-empty text it cannot consume. */
  predicate Delimited(ps: seq<Piece>)
    decreases |ps|
  {
    ps == [] ||
    ((ps[0].Text? || (|ps| > 1 && ps[1].Text? && ps[1].text != [] && EndsRun(ps[1].text[0]))) && Delimited(ps[1..]))
  }

  /** `n` dashes. */
  function DashRun(n: nat): (r: string)
    ensures |r| == n && forall i :: 0 <= i < n ==> r[i] == '-'
  {
    if n == 0 then [] else DashRun(n - 1) + "-"
  }

  /** The text one piece stands for: its literal, `n` blanks (0 or 1) or `n` dashes. */
  function PieceText(p: Piece, n: nat): string {
    match p
    case Text(t) => t
    case OptionalSpace => if n == 0 then "" else " "
    case Dashes => DashRun(n)
  }

  /** A count the piece allows: at most one blank, at least one dash. */
  predicate ValidCount(p: Piece, n: nat) {
    (p.OptionalSpace? ==> n <= 1) && (p.Dashes? ==> n >= 1)
  }

  /** A fill gives each piece a count it allows: one count per piece, in order. */
  predicate ValidFill(ps: seq<Piece>, fill: seq<nat>)
    decreases |ps|
  {
    |fill| == |ps| && (ps == [] || (ValidCount(ps[0], fill[0]) && ValidFill(ps[1..], fill[1..])))
  }

  /** The header text a fill spells out. */
  function Rendered(ps: seq<Piece>, fill: seq<nat>): string
    requires |fill| == |ps|
  {
    if ps == [] then [] else PieceText(ps[0], fill[0]) + Rendered(ps[1..], fill[1..])
  }

  lemma ValidFillCons(ps: seq<Piece>, n: nat, fill: seq<nat>)
    requires ps != [] && ValidCount(ps[0], n) && ValidFill(ps[1..], fill)
    ensures ValidFill(ps, [n] + fill)
  {
    assert ([n] + fill)[0] == n && ([n] + fill)[1..] == fill;
  }

  /** A piece's text is matched in full when what follows it cannot extend it. */
  lemma PieceMatches(c: string, i: nat, p: Piece, n: nat)
    requires ValidCount(p, n) && i <= |c| && TextAt(c, i, PieceText(p, n))
    requires !p.Text? ==> i + n < |c| && EndsRun(c[i + n])
    ensures MatchPiece(c, i, p) == Some(i + |PieceText(p, n)|)
  {
    if p.Dashes? {
      forall j | i <= j < i + n ensures InClass(c[j], Dash) {
        assert c[i + (j - i)] == DashRun(n)[j - i];
      }
      RunEndAt(c, i, Dash, i + n);
    } else if p.OptionalSpace? && n == 1 {
      assert c[i + 0] == " "[0];
    }
  }

  /** What a piece matches is its text for some allowed count. */
  lemma PieceMatched(c: string, i: nat, p: Piece) returns (n: nat)
    requires i <= |c| && MatchPiece(c, i, p).Some?
    ensures ValidCount(p, n) && TextAt(c, i, PieceText(p, n))
    ensures MatchPiece(c, i, p).value == i + |PieceText(p, n)|
  {
    n := MatchPiece(c, i, p).value - i;
    if p.Dashes? {
      forall k | 0 <= k < n ensures c[i + k] == DashRun(n)[k] {
        assert InClass(c[i + k], Dash);
      }
    }
  }

  /** Any text the pattern describes is matched, in full. */
  lemma RenderedMatches(c: string, i: nat, ps: seq<Piece>, fill: seq<nat>)
    requires Delimited(ps) && ValidFill(ps, fill)
    requires i <= |c| && HasAt(c, i, Rendered(ps, fill))
    ensures MatchPieces(c, i, ps) == Some(i + |Rendered(ps, fill)|)
  {
    RenderedSpans(c, i, ps, fill);
    SpanMatches(c, i, ps, fill, i + |Rendered(ps, fill)|);
  }

  /** The pieces' texts, filled in by `fill`, lie one after the other in `c` from `i` to `j`. */
  predicate Span(c: string, i: nat, ps: seq<Piece>, fill: seq<nat>, j: nat)
    requires |fill| == |ps|
    decreases |ps|
  {
    if ps == [] then i == j
    else TextAt(c, i, PieceText(ps[0], fill[0])) && Span(c, i + |PieceText(ps[0], fill[0])|, ps[1..], fill[1..], j)
  }

  lemma RenderedSpans(c: string, i: nat, ps: seq<Piece>, fill: seq<nat>)
    requires |fill| == |ps| && i <= |c| && HasAt(c, i, Rendered(ps, fill))
    ensures Span(c, i, ps, fill, i + |Rendered(ps, fill)|)
  {
    TextAtIsHasAt(c, i, Rendered(ps, fill));
    TextSpans(c, i, ps, fill);
  }

  lemma {:induction false} TextSpans(c: string, i: nat, ps: seq<Piece>, fill: seq<nat>)
    requires |fill| == |ps| && TextAt(c, i, Rendered(ps, fill))
    ensures Span(c, i, ps, fill, i + |Rendered(ps, fill)|)
    decreases |ps|
  {
    if ps != [] {
      var head := PieceText(ps[0], fill[0]);
      var rest := Rendered(ps[1..], fill[1..]);
      assert Rendered(ps, fill) == head + rest;
      TextAtConcat(c, i, head, rest);
      TextSpans(c, i + |head|, ps[1..], fill[1..]);
    }
  }

  /** Text made of two parts lies at `i` when the first does and the second follows it. */
  lemma TextAtConcat(c: string, i: nat, a: string, b: string)
    requires TextAt(c, i, a + b)
    ensures TextAt(c, i, a) && TextAt(c, i + |a|, b)
  {
    forall k | 0 <= k < |a| ensures c[i + k] == a[k] {
      assert (a + b)[k] == a[k];
    }
    forall k | 0 <= k < |b| ensures c[i + |a| + k] == b[k] {
      assert (a + b)[|a| + k] == b[k];
    }
  }

  lemma {:induction false} SpanMatches(c: string, i: nat, ps: seq<Piece>, fill: seq<nat>, j: nat)
    requires Delimited(ps) && ValidFill(ps, fill)
    requires i <= |c| && Span(c, i, ps, fill, j)
    ensures MatchPieces(c, i, ps) == Some(j)
    decreases |ps|
  {
    if ps != [] {
      var next := SpanStep(c, i, ps, fill, j);
      SpanMatches(c, next, ps[1..], fill[1..], j);
    }
  }

  /** One step of `SpanMatches`: the first piece matches its text, and the rest is set up likewise. */
  lemma SpanStep(c: string, i: nat, ps: seq<Piece>, fill: seq<nat>, j: nat) returns (next: nat)
    requires ps != [] && Delimited(ps) && ValidFill(ps, fill)
    requires i <= |c| && Span(c, i, ps, fill, j)
    ensures next <= |c| && Span(c, next, ps[1..], fill[1..], j)
    ensures Delimited(ps[1..]) && ValidFill(ps[1..], fill[1..])
    ensures MatchPieces(c, i, ps) == MatchPieces(c, next, ps[1..])
  {
    next := i + |PieceText(ps[0], fill[0])|;
    DelimitedTail(ps);
    FirstPieceAt(c, i, ps, fill, j);
    MatchPiecesStep(c, i, ps, next);
  }

  /** The first piece of a span matches exactly its own text. */
  lemma FirstPieceAt(c: string, i: nat, ps: seq<Piece>, fill: seq<nat>, j: nat)
    requires ps != [] && Delimited(ps) && ValidFill(ps, fill)
    requires i <= |c| && Span(c, i, ps, fill, j)
    ensures MatchPiece(c, i, ps[0]) == Some(i + |PieceText(ps[0], fill[0])|)
  {
    var next := i + |PieceText(ps[0], fill[0])|;
    if !ps[0].Text? {
      DelimitedTail(ps);
      assert TextAt(c, next, ps[1].text);
      assert c[next + 0] == ps[1].text[0];
    }
    PieceMatches(c, i, ps[0], fill[0]);
  }

  /** The pieces match from `i` as the rest do from where the first one ends. */
  lemma MatchPiecesStep(c: string, i: nat, ps: seq<Piece>, j: nat)
    requires i <= |c| && ps != [] && MatchPiece(c, i, ps[0]) == Some(j)
    ensures j <= |c| && MatchPieces(c, i, ps) == MatchPieces(c, j, ps[1..])
  {
  }

  /** In a delimited pattern, a piece other than text is followed by text that begins with neither a space nor a dash. */
  lemma DelimitedTail(ps: seq<Piece>)
    requires ps != [] && Delimited(ps)
    ensures Delimited(ps[1..])
    ensures !ps[0].Text? ==> |ps| > 1 && ps[1].Text? && ps[1].text != [] && EndsRun(ps[1].text[0])
  {
  }

  /** Only text the pattern describes is matched: a match spells out some valid fill. */
  lemma MatchedIsRendered(c: string, i: nat, ps: seq<Piece>) returns (fill: seq<nat>)
    requires i <= |c| && MatchPieces(c, i, ps).Some?
    ensures ValidFill(ps, fill)
    ensures HasAt(c, i, Rendered(ps, fill)) && MatchPieces(c, i, ps).value == i + |Rendered(ps, fill)|
  {
    fill := MatchedSpan(c, i, ps);
    SpanRendered(c, i, ps, fill, MatchPieces(c, i, ps).value);
  }

  lemma {:induction false} MatchedSpan(c: string, i: nat, ps: seq<Piece>) returns (fill: seq<nat>)
    requires i <= |c| && MatchPieces(c, i, ps).Some?
    ensures ValidFill(ps, fill) && Span(c, i, ps, fill, MatchPieces(c, i, ps).value)
    decreases |ps|
  {
    if ps == [] {
      fill := [];
    } else {
      var n := PieceMatched(c, i, ps[0]);
      var next := i + |PieceText(ps[0], n)|;
      MatchPiecesStep(c, i, ps, next);
      var restFill := MatchedSpan(c, next, ps[1..]);
      fill := [n] + restFill;
      assert fill[0] == n && fill[1..] == restFill;
      ValidFillCons(ps, n, restFill);
    }
  }

  lemma {:induction false} SpanRendered(c: string, i: nat, ps: seq<Piece>, fill: seq<nat>, j: nat)
    requires |fill| == |ps| && i <= |c| && Span(c, i, ps, fill, j)
    ensures HasAt(c, i, Rendered(ps, fill)) && j == i + |Rendered(ps, fill)|
    decreases |ps|
  {
    if ps == [] {
      assert c[i..i] == [];
    } else {
      var head := PieceText(ps[0], fill[0]);
      SpanRendered(c, i + |head|, ps[1..], fill[1..], j);
      TextAtIsHasAt(c, i, head);
      HasAtConcat(c, i, head, Rendered(ps[1..], fill[1..]));
    }
  }

  /** A span in `w` is a span in `s`, shifted by `a`, when `w`'s characters are those of `s` from `a` on. */
  lemma {:induction false} SpanInPart(s: string, w: string, a: nat, i: nat, ps: seq<Piece>, fill: seq<nat>, j: nat)
    requires a + |w| <= |s| && forall k :: 0 <= k < |w| ==> w[k] == s[a + k]
    requires |fill| == |ps| && Span(w, i, ps, fill, j)
    ensures Span(s, a + i, ps, fill, a + j)
    decreases |ps|
  {
    if ps != [] {
      var head := PieceText(ps[0], fill[0]);
      TextInPart(s, w, a, i, head);
      SpanInPart(s, w, a, i + |head|, ps[1..], fill[1..], j);
    }
  }

  lemma TextInPart(s: string, w: string, a: nat, i: nat, t: string)
    requires a + |w| <= |s| && forall k :: 0 <= k < |w| ==> w[k] == s[a + k]
    requires TextAt(w, i, t)
    ensures TextAt(s, a + i, t)
  {
    forall k | 0 <= k < |t| ensures s[a + i + k] == t[k] {
      assert w[i + k] == t[k];
    }
  }

  /** `search` from `pos`: the leftmost start where the pieces match, with the match's end. */
  function FindHeader(c: string, pos: nat, ps: seq<Piece>): (r: Option<(nat, nat)>)
    requires pos <= |c|
    ensures r.Some? ==> pos <= r.value.0 <= r.value.1 <= |c|
    decreases |c| - pos
  {
    match MatchPieces(c, pos, ps)
    case Some(e) => Some((pos, e))
    case None => if pos == |c| then None else FindHeader(c, pos + 1, ps)
  }

  /** What the search reports is a match. */
  lemma {:induction false} FindHeaderMatches(c: string, pos: nat, ps: seq<Piece>)
    requires pos <= |c|
    ensures FindHeader(c, pos, ps).Some? ==>
      MatchPieces(c, FindHeader(c, pos, ps).value.0, ps) == Some(FindHeader(c, pos, ps).value.1)
    decreases |c| - pos
  {
    if MatchPieces(c, pos, ps).None? && pos < |c| {
      FindHeaderMatches(c, pos + 1, ps);
    }
  }

  lemma {:induction false} FindHeaderIsLeftmost(c: string, pos: nat, ps: seq<Piece>)
    requires pos <= |c|
    ensures FindHeader(c, pos, ps).Some? ==>
      MatchPieces(c, FindHeader(c, pos, ps).value.0, ps) == Some(FindHeader(c, pos, ps).value.1)
    ensures FindHeader(c, pos, ps).Some? ==>
      forall p :: pos <= p < FindHeader(c, pos, ps).value.0 ==> MatchPieces(c, p, ps).None?
    ensures FindHeader(c, pos, ps).None? ==> forall p :: pos <= p <= |c| ==> MatchPieces(c, p, ps).None?
    decreases |c| - pos
  {
    if MatchPieces(c, pos, ps).None? && pos < |c| {
      FindHeaderIsLeftmost(c, pos + 1, ps);
      var next := FindHeader(c, pos + 1, ps);
      assert FindHeader(c, pos, ps) == next;
      var end := if next.Some? then next.value.0 else |c| + 1;
      forall p | pos <= p < end ensures MatchPieces(c, p, ps).None? {
        if p == pos {
        }
      }
    }
  }

  /** A match inside a slice is a match at the same place of the whole string. */
  lemma MatchInSlice(s: string, a: nat, b: nat, i: nat, ps: seq<Piece>)
    requires a <= b <= |s| && i <= b - a && Delimited(ps)
    requires MatchPieces(s[a..b], i, ps).Some?
    ensures MatchPieces(s, a + i, ps) == Some(a + MatchPieces(s[a..b], i, ps).value)
  {
    MatchInPart(s, s[a..b], a, i, ps);
  }

  /** `MatchInSlice` for any `w` whose characters are those of `s` from `a` on. */
  lemma MatchInPart(s: string, w: string, a: nat, i: nat, ps: seq<Piece>)
    requires a + |w| <= |s| && i <= |w| && Delimited(ps)
    requires forall k :: 0 <= k < |w| ==> w[k] == s[a + k]
    requires MatchPieces(w, i, ps).Some?
    ensures MatchPieces(s, a + i, ps) == Some(a + MatchPieces(w, i, ps).value)
  {
    var fill := MatchedSpan(w, i, ps);
    SpanInPart(s, w, a, i, ps, fill, MatchPieces(w, i, ps).value);
    SpanMatches(s, a + i, ps, fill, a + MatchPieces(w, i, ps).value);
  }

  /** A match found by searching a slice is a match in the whole text, inside the slice. */
  lemma FoundInSlice(s: string, a: nat, b: nat, ps: seq<Piece>) returns (p: nat)
    requires a <= b <= |s| && Delimited(ps) && FindHeader(s[a..b], 0, ps).Some?
    ensures a <= p <= b && MatchPieces(s, p, ps).Some? && MatchPieces(s, p, ps).value <= b
  {
    p := FoundInPart(s, s[a..b], a, ps);
  }

  /** `FoundInSlice` for any `w` whose characters are those of `s` from `a` on. */
  lemma FoundInPart(s: string, w: string, a: nat, ps: seq<Piece>) returns (p: nat)
    requires a + |w| <= |s| && forall k :: 0 <= k < |w| ==> w[k] == s[a + k]
    requires Delimited(ps) && FindHeader(w, 0, ps).Some?
    ensures a <= p <= a + |w| && MatchPieces(s, p, ps).Some? && MatchPieces(s, p, ps).value <= a + |w|
  {
    var found := FindHeader(w, 0, ps).value;
    FindHeaderMatches(w, 0, ps);
    MatchInPart(s, w, a, found.0, ps);
    p := a + found.0;
  }

  /**
   * A header: a title row `\| ?T1 ?\| ?T2 ?\| … ?\|` and a rule row `\|[-]+\|[-]+…\|`, each
   * followed by a newline, with one dash run per title.
   */
  function HeaderPattern(titles: seq<string>): seq<Piece> {
    [Text("|")] + TitleCells(titles) + [Text("\n|")] + RuleCells(|titles|) + [Text("\n")]
  }

  function TitleCells(titles: seq<string>): seq<Piece> {
    if titles == [] then []
    else [OptionalSpace, Text(titles[0]), OptionalSpace, Text("|")] + TitleCells(titles[1..])
  }

  function RuleCells(n: nat): seq<Piece> {
    if n == 0 then [] else [Dashes, Text("|")] + RuleCells(n - 1)
  }

  /** `\| ?Attribute ?\| ?Description ?\| ?Type ?\|\n\|[-]+\|[-]+\|[-]+\|\n` */
  function AttributeHeader(): seq<Piece> {
    HeaderPattern(AttributeTitles)
  }
  const AttributeTitles: seq<string> := ["Attribute", "Description", "Type"]

  /** `\| ?Value ?\| ?Description ?\|\n\|[-]+\|[-]+\|\n` */
  function ValueHeader(): seq<Piece> {
    HeaderPattern(ValueTitles)
  }
  const ValueTitles: seq<string> := ["Value", "Description"]

  lemma {:induction false} DelimitedAppend(a: seq<Piece>, b: seq<Piece>)
    requires Delimited(a) && Delimited(b)
    ensures Delimited(a + b)
    decreases |a|
  {
    if a != [] {
      var ab := a + b;
      DelimitedAppend(a[1..], b);
      assert ab[1..] == a[1..] + b;
      assert ab[0] == a[0];
      if |a| > 1 {
        assert ab[1] == a[1];
      }
    } else {
      assert a + b == b;
    }
  }

  /** A title the optional blanks around it cannot eat into. */
  predicate TitleWord(t: string) {
    t != [] && EndsRun(t[0])
  }

  lemma {:induction false} TitleCellsDelimited(titles: seq<string>)
    requires forall k :: 0 <= k < |titles| ==> TitleWord(titles[k])
    ensures Delimited(TitleCells(titles))
    decreases |titles|
  {
    if titles != [] {
      var cell := [OptionalSpace, Text(titles[0]), OptionalSpace, Text("|")];
      assert Delimited(cell[3..]);
      assert cell[2..][1..] == cell[3..];
      assert cell[1..][1..] == cell[2..];
      assert cell[1..] == [] + cell[1..];
      TitleCellsDelimited(titles[1..]);
      DelimitedAppend(cell, TitleCells(titles[1..]));
    }
  }

  lemma {:induction false} RuleCellsDelimited(n: nat)
    ensures Delimited(RuleCells(n))
  {
    if n > 0 {
      var cell := [Dashes, Text("|")];
      assert cell[1..][1..] == [];
      RuleCellsDelimited(n - 1);
      DelimitedAppend(cell, RuleCells(n - 1));
    }
  }

  lemma HeaderDelimited(titles: seq<string>)
    requires forall k :: 0 <= k < |titles| ==> TitleWord(titles[k])
    ensures Delimited(HeaderPattern(titles))
  {
    TitleCellsDelimited(titles);
    RuleCellsDelimited(|titles|);
    var close: seq<Piece> := [Text("\n")];
    assert close[1..] == [];
    DelimitedAppend(RuleCells(|titles|), close);
    var open: seq<Piece> := [Text("\n|")];
    assert open[1..] == [];
    DelimitedAppend(open, RuleCells(|titles|) + close);
    DelimitedAppend(TitleCells(titles), open + (RuleCells(|titles|) + close));
    var bar: seq<Piece> := [Text("|")];
    assert bar[1..] == [];
    DelimitedAppend(bar, TitleCells(titles) + (open + (RuleCells(|titles|) + close)));
    assert HeaderPattern(titles) == bar + (TitleCells(titles) + (open + (RuleCells(|titles|) + close)));
  }

  lemma HeadersDelimited()
    ensures Delimited(AttributeHeader()) && Delimited(ValueHeader())
  {
    HeaderDelimited(AttributeTitles);
    HeaderDelimited(ValueTitles);
  }
  // ---------------------------------------------------------------------------
  // Attribute rows: the `|`-cells are stripped and the empty ones dropped before indexing

  /** The non-empty cells, in order. */
  function NonEmptyCells(cells: seq<string>): (r: seq<string>)
    ensures |r| <= |cells|
    ensures forall k :: 0 <= k < |r| ==> r[k] != []
  {
    if cells == [] then []
    else NonEmptyCells(cells[..|cells| - 1]) + (if cells[|cells| - 1] == [] then [] else [cells[|cells| - 1]])
  }

  lemma {:induction false} NonEmptyCellsAppend(a: seq<string>, b: seq<string>)
    ensures NonEmptyCells(a + b) == NonEmptyCells(a) + NonEmptyCells(b)
    decreases |b|
  {
    if b == [] {
      assert a + b == a;
    } else {
      var init := b[..|b| - 1];
      assert (a + b)[..|a + b| - 1] == a + init;
      NonEmptyCellsAppend(a, init);
    }
  }

  /** Dropping empty cells keeps exactly the non-empty ones. */
  lemma {:induction false} NonEmptyCellsMembers(cells: seq<string>, x: string)
    ensures x in NonEmptyCells(cells) <==> x in cells && x != []
  {
    if cells != [] {
      var init := cells[..|cells| - 1];
      NonEmptyCellsMembers(init, x);
      assert cells == init + [cells[|cells| - 1]];
    }
  }

  /** No cell is kept exactly when every cell is empty. */
  lemma NoNonEmptyCells(cells: seq<string>)
    ensures NonEmptyCells(cells) == [] <==> forall k :: 0 <= k < |cells| ==> cells[k] == []
  {
    if NonEmptyCells(cells) != [] {
      NonEmptyCellsMembers(cells, NonEmptyCells(cells)[0]);
    }
    forall k | 0 <= k < |cells| && cells[k] != [] ensures NonEmptyCells(cells) != [] {
      NonEmptyCellsMembers(cells, cells[k]);
    }
  }

  /** The first cell kept is the first non-empty cell: every cell before it is empty. */
  lemma {:induction false} FirstNonEmptyCell(cells: seq<string>) returns (i: nat)
    requires NonEmptyCells(cells) != []
    ensures i < |cells| && cells[i] == NonEmptyCells(cells)[0]
    ensures forall j :: 0 <= j < i ==> cells[j] == []
  {
    var init := cells[..|cells| - 1];
    if NonEmptyCells(init) != [] {
      i := FirstNonEmptyCell(init);
    } else {
      NoNonEmptyCells(init);
      i := |cells| - 1;
    }
  }

  /** The cells a row is read from. */
  function RowCells(raw: string): seq<string> {
    NonEmptyCells(StripEach(Split(Strip(raw), '|')))
  }

  /** The field an attribute row yields, or None for a row the loop skips. */
  function AdcomRow(raw: string): Option<FieldDef> {
    if Strip(raw) == [] then None else FieldFromParts(RowCells(raw))
  }

  /** Attribute, description and type are the first three non-empty cells. */
  function FieldFromParts(parts: seq<string>): Option<FieldDef> {
    if |parts| < 3 then None
    else
      var attr, desc, typ := parts[0], parts[1], parts[2];
      if attr == [] || typ == [] then None
      else Some(FieldDef(Strip(RStripChar(attr, '*')), Strip(desc), Strip(typ), RequiredCell(attr, desc)))
  }

  /** The cells of a row are trimmed and non-empty. */
  lemma RowCellsTrimmed(raw: string)
    ensures forall k :: 0 <= k < |RowCells(raw)| ==> Trimmed(RowCells(raw)[k]) && RowCells(raw)[k] != []
  {
    var stripped := StripEach(Split(Strip(raw), '|'));
    forall k | 0 <= k < |RowCells(raw)| ensures Trimmed(RowCells(raw)[k]) {
      var x := RowCells(raw)[k];
      NonEmptyCellsMembers(stripped, x);
      var j :| 0 <= j < |stripped| && stripped[j] == x;
      StripIsTrimmed(Split(Strip(raw), '|')[j]);
    }
  }

  /**
   * A row yields a field exactly when it has at least three non-empty cells; the field's
   * description and type are the second and third of them, its attribute the first without
   * trailing `*`s, and it is required exactly when that cell ends with `*` or the description
   * mentions "required" in any case.
   */
  lemma AdcomRowShape(raw: string)
    ensures AdcomRow(raw).Some? <==> |RowCells(raw)| >= 3
    ensures AdcomRow(raw).Some? ==>
      var parts, f := RowCells(raw), AdcomRow(raw).value;
      && f.attribute == Strip(RStripChar(parts[0], '*')) && Trimmed(f.attribute)
      && f.description == parts[1]
      && f.typeRaw == parts[2] && f.typeRaw != [] && Trimmed(f.typeRaw)
      && (f.required <==> EndsWith(parts[0], "*") || Contains(Lower(parts[1]), "required"))
  {
    var parts := RowCells(raw);
    if Strip(raw) == [] {
      assert Split(Strip(raw), '|') == [""];
      assert StripEach([""]) == [Strip("")];
      assert NonEmptyCells([""]) == NonEmptyCells([]) + [];
    }
    if |parts| >= 3 {
      RowCellsTrimmed(raw);
      TrimmedStripIsIdentity(parts[1]);
      TrimmedStripIsIdentity(parts[2]);
      StripIsTrimmed(RStripChar(parts[0], '*'));
    }
  }

  lemma {:induction false} NonEmptyCellsAll(xs: seq<string>)
    requires forall k :: 0 <= k < |xs| ==> xs[k] != []
    ensures NonEmptyCells(xs) == xs
  {
    if xs != [] {
      NonEmptyCellsAll(xs[..|xs| - 1]);
    }
  }

  /** The outer bars of a row give empty cells at both ends, which are dropped. */
  lemma NonEmptyCellsPadded(xs: seq<string>)
    ensures NonEmptyCells([""] + xs + [""]) == NonEmptyCells(xs)
  {
    NonEmptyCellsAppend([""] + xs, [""]);
    NonEmptyCellsAppend([""], xs);
    assert NonEmptyCells([""]) == NonEmptyCells([]) + [];
  }

  /** The stripped cells of a rendered row. */
  lemma RenderedRowParts(f: FieldDef)
    requires RowRenderable(f)
    ensures Strip(RenderRow(f)) == RenderRow(f)
    ensures StripEach(Split(RenderRow(f), '|')) == [""] + [AttributeCell(f), f.description, f.typeRaw] + [""]
  {
    var cell := AttributeCell(f);
    RenderedRowIsData(f);
    TrimmedStripIsIdentity(RenderRow(f));
    RenderedCells(f);
    assert Trimmed(cell);
    TrimmedStripIsIdentity(cell);
    TrimmedStripIsIdentity(f.description);
    TrimmedStripIsIdentity(f.typeRaw);
  }

  /** A field with a non-empty description survives being written as a row and read back. */
  lemma AdcomRowRoundTrip(f: FieldDef)
    requires RowRenderable(f) && f.description != []
    ensures AdcomRow(RenderRow(f)) == Some(f)
  {
    var cell := AttributeCell(f);
    var inner := [cell, f.description, f.typeRaw];
    assert RowCells(RenderRow(f)) == inner by {
      RenderedRowParts(f);
      NonEmptyCellsPadded(inner);
      NonEmptyCellsAll(inner);
    }
    StripStarMarker(f.attribute, f.required);
    TrimmedStripIsIdentity(f.attribute);
    TrimmedStripIsIdentity(f.description);
    TrimmedStripIsIdentity(f.typeRaw);
  }

  /**
   * The generic dialect keeps a row whose description is empty; this one drops the empty
   * cell, is left with two cells and skips the row.
   */
  lemma EmptyDescriptionSkipsRow(f: FieldDef)
    requires RowRenderable(f) && f.description == []
    ensures ParseRow(RenderRow(f)) == Some(f)
    ensures AdcomRow(RenderRow(f)).None?
  {
    assert ParseRow(RenderRow(f)) == Some(f) by {
      RowRoundTrip(f);
    }
    var cell := AttributeCell(f);
    assert |RowCells(RenderRow(f))| == 2 by {
      var cells := [cell, f.description, f.typeRaw];
      RenderedRowParts(f);
      NonEmptyCellsPadded(cells);
      assert cells[..2] == [cell, f.description] && [cell, f.description][..1] == [cell] && [cell][..0] == [];
      assert NonEmptyCells(cells) == NonEmptyCells([cell, f.description]) + [f.typeRaw];
      assert NonEmptyCells([cell, f.description]) == NonEmptyCells([cell]);
      assert NonEmptyCells([cell]) == [cell];
    }
    AdcomRowShape(RenderRow(f));
  }

  /** Each line's row result, in line order. */
  function AdcomRows(lines: seq<string>): (r: seq<Option<FieldDef>>)
    ensures |r| == |lines|
  {
    if lines == [] then [] else AdcomRows(lines[..|lines| - 1]) + [AdcomRow(lines[|lines| - 1])]
  }

  lemma {:induction false} AdcomRowsAt(lines: seq<string>, i: nat)
    requires i < |lines|
    ensures AdcomRows(lines)[i] == AdcomRow(lines[i])
  {
    if i < |lines| - 1 {
      AdcomRowsAt(lines[..|lines| - 1], i);
    }
  }

  /** The fields of a table body, as `ParseAdcomTableBody` computes them. */
  function AdcomTableFields(body: string): seq<FieldDef> {
    Somes(AdcomRows(Split(body, '\n')))
  }

  /** `AdcomRow` behind a call boundary, for the table loop. */
  function RowResult(raw: string): (r: Option<FieldDef>)
    ensures r == AdcomRow(raw)
  {
    AdcomRow(raw)
  }

  /** `parse_table_body`: one pass over the body's lines, appending each row's field. */
  method ParseAdcomTableBody(body: string) returns (fields: seq<FieldDef>)
    ensures fields == AdcomTableFields(body)
  {
    var lines := Split(body, '\n');
    fields := [];
    var i := 0;
    while i < |lines|
      invariant 0 <= i <= |lines|
      invariant fields == Somes(AdcomRows(lines[..i]))
    {
      var row := RowResult(lines[i]);
      assert lines[..i + 1][..i] == lines[..i];
      SomesAppend(AdcomRows(lines[..i]), row);
      fields := fields + ToSeq(row);
      i := i + 1;
    }
    assert lines[..i] == lines;
  }

  /**
   * Each field of a table body comes from its own line, in line order, and every line that
   * yields a field contributes it.
   */
  lemma AdcomFieldsFromLines(body: string) returns (idx: seq<nat>)
    ensures |idx| == |AdcomTableFields(body)| <= |Split(body, '\n')|
    ensures forall k :: 0 <= k < |idx| ==>
      idx[k] < |Split(body, '\n')| && AdcomRow(Split(body, '\n')[idx[k]]) == Some(AdcomTableFields(body)[k])
    ensures forall k, l :: 0 <= k < l < |idx| ==> idx[k] < idx[l]
    ensures forall i :: 0 <= i < |Split(body, '\n')| && AdcomRow(Split(body, '\n')[i]).Some? ==>
      AdcomRow(Split(body, '\n')[i]).value in AdcomTableFields(body)
  {
    var lines := Split(body, '\n');
    var rows := AdcomRows(lines);
    idx := SomesOrigin(rows);
    forall k | 0 <= k < |idx| ensures AdcomRow(lines[idx[k]]) == Some(Somes(rows)[k]) {
      AdcomRowsAt(lines, idx[k]);
    }
    forall i | 0 <= i < |lines| && AdcomRow(lines[i]).Some? ensures AdcomRow(lines[i]).value in Somes(rows) {
      AdcomRowsAt(lines, i);
      SomesComplete(rows, i);
    }
  }

  // ---------------------------------------------------------------------------
  // Enumeration rows: `| value | description |`

  /** The (value, description) pair an enumeration row yields, or None for a row the loop skips. */
  function EnumRow(raw: string): Option<(string, string)> {
    var line := Strip(raw);
    if line == [] || !StartsWith(line, "|") then None
    else
      var parts := StripEach(Split(line, '|'));
      if |parts| < 3 then None
      else if parts[1] != [] && parts[2] != [] then Some((parts[1], parts[2]))
      else None
  }

  /**
   * Only lines starting with `|` count; the value and description are the second and third
   * `|`-parts, stripped, and a pair is kept exactly when both are non-empty.
   */
  lemma EnumRowShape(raw: string)
    ensures EnumRow(raw).Some? <==>
      var line := Strip(raw);
      && StartsWith(line, "|") && |Split(line, '|')| >= 3
      && Strip(Split(line, '|')[1]) != [] && Strip(Split(line, '|')[2]) != []
    ensures EnumRow(raw).Some? ==>
      var parts := Split(Strip(raw), '|');
      EnumRow(raw).value == (Strip(parts[1]), Strip(parts[2]))
      && Trimmed(EnumRow(raw).value.0) && Trimmed(EnumRow(raw).value.1)
      && '|' !in EnumRow(raw).value.0 && '|' !in EnumRow(raw).value.1
  {
    var parts := Split(Strip(raw), '|');
    if EnumRow(raw).Some? {
      StripIsTrimmed(parts[1]);
      StripIsTrimmed(parts[2]);
      StripKeeps(parts[1], '|');
      StripKeeps(parts[2], '|');
    }
  }

  /** The row that writes down one pair. */
  function RenderEnumRow(value: string, description: string): string {
    "| " + value + " | " + description + " |"
  }

  /** A pair of trimmed one-line texts survives being written as a row and read back. */
  lemma EnumRowRoundTrip(value: string, description: string)
    requires CellText(value) && CellText(description) && value != [] && description != []
    ensures EnumRow(RenderEnumRow(value, description)) == Some((value, description))
  {
    var line := RenderEnumRow(value, description);
    assert Trimmed(line);
    TrimmedStripIsIdentity(line);
    var c1 := " " + value + " ";
    var c2 := " " + description + " ";
    assert line == [] + "|" + (c1 + "|" + (c2 + "|" + ""));
    assert '|' !in c1 && '|' !in c2;
    SplitAtSeparator(c2, '|', "");
    assert c2 + "|" + "" == c2 + "|";
    SplitAtSeparator(c1, '|', c2 + "|");
    SplitAtSeparator([], '|', c1 + "|" + (c2 + "|"));
    assert Split("", '|') == [""];
    assert Split(line, '|') == ["", c1, c2, ""];
    StripPadded(value);
    StripPadded(description);
  }

  /** Each line's pair, in line order. */
  function EnumRows(lines: seq<string>): (r: seq<Option<(string, string)>>)
    ensures |r| == |lines|
  {
    if lines == [] then [] else EnumRows(lines[..|lines| - 1]) + [EnumRow(lines[|lines| - 1])]
  }

  lemma {:induction false} EnumRowsAt(lines: seq<string>, i: nat)
    requires i < |lines|
    ensures EnumRows(lines)[i] == EnumRow(lines[i])
  {
    if i < |lines| - 1 {
      EnumRowsAt(lines[..|lines| - 1], i);
    }
  }

  /** The pairs of an enumeration table body, as `ParseEnumBody` computes them. */
  function EnumBodyValues(body: string): seq<(string, string)> {
    Somes(EnumRows(Split(body, '\n')))
  }

  /** `EnumRow` behind a call boundary, for the body loop. */
  function EnumRowResult(raw: string): (r: Option<(string, string)>)
    ensures r == EnumRow(raw)
  {
    EnumRow(raw)
  }

  /** `parse_enum_body`: one pass over the body's lines, appending each row's pair. */
  method ParseEnumBody(body: string) returns (values: seq<(string, string)>)
    ensures values == EnumBodyValues(body)
  {
    var lines := Split(body, '\n');
    values := [];
    var i := 0;
    while i < |lines|
      invariant 0 <= i <= |lines|
      invariant values == Somes(EnumRows(lines[..i]))
    {
      var row := EnumRowResult(lines[i]);
      assert lines[..i + 1][..i] == lines[..i];
      SomesAppend(EnumRows(lines[..i]), row);
      values := values + ToSeq(row);
      i := i + 1;
    }
    assert lines[..i] == lines;
  }

  /** Pairs keep the order of their lines, one per line, and no row's pair is lost. */
  lemma EnumValuesFromLines(body: string) returns (idx: seq<nat>)
    ensures |idx| == |EnumBodyValues(body)| <= |Split(body, '\n')|
    ensures forall k :: 0 <= k < |idx| ==>
      idx[k] < |Split(body, '\n')| && EnumRow(Split(body, '\n')[idx[k]]) == Some(EnumBodyValues(body)[k])
    ensures forall k, l :: 0 <= k < l < |idx| ==> idx[k] < idx[l]
    ensures forall i :: 0 <= i < |Split(body, '\n')| && EnumRow(Split(body, '\n')[i]).Some? ==>
      EnumRow(Split(body, '\n')[i]).value in EnumBodyValues(body)
  {
    var lines := Split(body, '\n');
    var rows := EnumRows(lines);
    idx := SomesOrigin(rows);
    forall k | 0 <= k < |idx| ensures EnumRow(lines[idx[k]]) == Some(Somes(rows)[k]) {
      EnumRowsAt(lines, idx[k]);
    }
    forall i | 0 <= i < |lines| && EnumRow(lines[i]).Some? ensures EnumRow(lines[i]).value in Somes(rows) {
      EnumRowsAt(lines, i);
      SomesComplete(rows, i);
    }
  }
  // ---------------------------------------------------------------------------
  // Enumerations: `^### List: (?P<name>[\w\s]+)\s*$` headings, each with a value table close below

  const ListPrefix := "### List: "
  const ListHeading := HeadingPattern(ListPrefix, WordOrSpace)

  /** How many characters after a list heading its table is searched in. */
  const LookAhead := 2000

  function ListHeadings(s: string): seq<Heading> {
    HeadingsFrom(s, 0, ListHeading)
  }

  /** `content[start : start + 2000]`: the slice is cut short at the end of the document. */
  function Window(s: string, h: Heading): string
    requires h.end <= |s|
  {
    s[h.end..if h.end + LookAhead <= |s| then h.end + LookAhead else |s|]
  }

  /** The pairs of the first value table in `w`, when there is a table. */
  function WindowValues(w: string): Option<seq<(string, string)>> {
    match FindHeader(w, 0, ValueHeader())
    case Some((_, q)) => Some(EnumBodyValues(TableBody(w, q)))
    case None => None
  }

  /** The dictionary key of a list: its stripped name with every space removed. */
  function ListKey(name: string): string {
    Replace(Strip(name), " ", "")
  }

  /** What one list section contributes: its key and pairs, when its table yields any pair. */
  function ListEntry(s: string, h: Heading): Option<(string, seq<(string, string)>)>
    requires h.start + |ListPrefix| <= h.nameEnd <= h.end <= |s|
  {
    match WindowValues(Window(s, h))
    case Some(values) => if values != [] then Some((ListKey(HeadingName(s, h, ListHeading)), values)) else None
    case None => None
  }

  predicate ListBounds(s: string, hs: seq<Heading>) {
    forall k :: 0 <= k < |hs| ==> hs[k].start + |ListPrefix| <= hs[k].nameEnd <= hs[k].end <= |s|
  }

  /** The dictionary after the sections `hs`, in order: a later entry replaces an earlier one. */
  function EnumEntries(s: string, hs: seq<Heading>): map<string, seq<(string, string)>>
    requires ListBounds(s, hs)
  {
    if hs == [] then map[]
    else
      var m := EnumEntries(s, hs[..|hs| - 1]);
      match ListEntry(s, hs[|hs| - 1])
      case Some((key, values)) => m[key := values]
      case None => m
  }

  function DocumentEnums(s: string): map<string, seq<(string, string)>> {
    EnumEntries(s, ListHeadings(s))
  }

  /**
   * One step of `extract_enums`: search the window after the heading for a value table, parse
   * its stripped body, and report the key and pairs if there are any.
   */
  method EnumAfterHeading(content: string, h: Heading) returns (entry: Option<(string, seq<(string, string)>)>)
    requires h.start + |ListPrefix| <= h.nameEnd <= h.end <= |content|
    ensures entry == ListEntry(content, h)
  {
    var chunk := Window(content, h);
    var table := FindHeader(chunk, 0, ValueHeader());
    if table.None? {
      return None;
    }
    var values := ParseEnumBody(TableBody(chunk, table.value.1));
    if values == [] {
      return None;
    }
    entry := Some((ListKey(HeadingName(content, h, ListHeading)), values));
  }

  /** `extract_enums`: every list section in document order, each entry written into the dictionary. */
  method ExtractEnums(content: string) returns (enums: map<string, seq<(string, string)>>)
    ensures enums == DocumentEnums(content)
  {
    var hs := ListHeadings(content);
    enums := map[];
    for i := 0 to |hs|
      invariant ListBounds(content, hs[..i])
      invariant enums == EnumEntries(content, hs[..i])
    {
      var entry := EnumAfterHeading(content, hs[i]);
      EnumEntriesStep(content, hs, i);
      match entry {
        case Some((key, values)) => enums := enums[key := values];
        case None =>
      }
    }
    assert hs[..|hs|] == hs;
  }

  /** The dictionary after one more section of `hs`. */
  lemma EnumEntriesStep(s: string, hs: seq<Heading>, i: nat)
    requires ListBounds(s, hs) && i < |hs|
    ensures ListBounds(s, hs[..i]) && ListBounds(s, hs[..i + 1])
    ensures EnumEntries(s, hs[..i + 1]) ==
      match ListEntry(s, hs[i])
      case Some((key, values)) => EnumEntries(s, hs[..i])[key := values]
      case None => EnumEntries(s, hs[..i])
  {
    assert hs[..i + 1][..i] == hs[..i];
  }

  /** A kept section has at least one pair and a key without spaces. */
  lemma ListEntryShape(s: string, h: Heading)
    requires h.start + |ListPrefix| <= h.nameEnd <= h.end <= |s| && ListEntry(s, h).Some?
    ensures ListEntry(s, h).value.1 != []
    ensures ' ' !in ListEntry(s, h).value.0
    ensures forall c :: c in ListEntry(s, h).value.0 <==> c in Strip(HeadingName(s, h, ListHeading)) && c != ' '
  {
    var name := Strip(HeadingName(s, h, ListHeading));
    ReplaceCharByNothing(name, ' ');
    forall c ensures c in ListKey(HeadingName(s, h, ListHeading)) <==> c in name && c != ' ' {
      WithoutMembers(name, ' ', c);
    }
  }

  /** A kept section has a value table in its window. */
  lemma ListEntryHasTable(s: string, h: Heading)
    requires h.start + |ListPrefix| <= h.nameEnd <= h.end <= |s| && ListEntry(s, h).Some?
    ensures FindHeader(Window(s, h), 0, ValueHeader()).Some?
  {
  }

  /**
   * The value table must lie within the look-ahead: when the window holds a value header,
   * the document has one that starts after the list heading and ends no more than 2000
   * characters after it.
   */
  lemma EnumTableInWindow(s: string, h: Heading) returns (p: nat)
    requires h.end <= |s| && FindHeader(Window(s, h), 0, ValueHeader()).Some?
    ensures h.end <= p <= |s| && MatchPieces(s, p, ValueHeader()).Some?
    ensures MatchPieces(s, p, ValueHeader()).value <= h.end + LookAhead
  {
    var b := if h.end + LookAhead <= |s| then h.end + LookAhead else |s|;
    assert Window(s, h) == s[h.end..b];
    HeadersDelimited();
    p := FoundInSlice(s, h.end, b, ValueHeader());
  }

  /** Where a kept section's entry comes from: the last section with that key. */
  lemma {:induction false} EnumEntryOrigin(s: string, hs: seq<Heading>, key: string) returns (i: nat)
    requires ListBounds(s, hs) && key in EnumEntries(s, hs)
    ensures i < |hs| && ListEntry(s, hs[i]) == Some((key, EnumEntries(s, hs)[key]))
    ensures forall j :: i < j < |hs| ==> ListEntry(s, hs[j]).None? || ListEntry(s, hs[j]).value.0 != key
  {
    var init := hs[..|hs| - 1];
    var last := ListEntry(s, hs[|hs| - 1]);
    if last.Some? && last.value.0 == key {
      i := |hs| - 1;
    } else {
      assert ListBounds(s, init);
      i := EnumEntryOrigin(s, init, key);
      forall j | i < j < |hs| ensures ListEntry(s, hs[j]).None? || ListEntry(s, hs[j]).value.0 != key {
        if j < |hs| - 1 {
          assert hs[j] == init[j];
        }
      }
    }
  }

  /** Every section that yields pairs has an entry under its key. */
  lemma {:induction false} EnumEntryPresent(s: string, hs: seq<Heading>, i: nat)
    requires ListBounds(s, hs) && i < |hs| && ListEntry(s, hs[i]).Some?
    ensures ListEntry(s, hs[i]).value.0 in EnumEntries(s, hs)
  {
    var init := hs[..|hs| - 1];
    assert ListBounds(s, init);
    if i < |hs| - 1 {
      assert hs[i] == init[i];
      EnumEntryPresent(s, init, i);
    }
  }

  /** Only sections that yield pairs make entries. */
  lemma {:induction false} EnumEntriesNonEmpty(s: string, hs: seq<Heading>)
    requires ListBounds(s, hs)
    ensures forall key :: key in EnumEntries(s, hs) ==> EnumEntries(s, hs)[key] != [] && ' ' !in key
  {
    forall key | key in EnumEntries(s, hs) ensures EnumEntries(s, hs)[key] != [] && ' ' !in key {
      var i := EnumEntryOrigin(s, hs, key);
      ListEntryShape(s, hs[i]);
    }
  }

  // ---------------------------------------------------------------------------
  // Objects

  /**
   * Where an object's chunk ends: at the next object heading found from one past the
   * heading's end, else at the first list heading found from there, else at the end.
   */
  function ChunkEnd(s: string, h: Heading): (e: nat)
    requires h.end <= |s|
    ensures h.end <= e <= |s|
  {
    SectionEnd(s, ChunkFrom(s, h), ObjectHeading, ListHeading)
  }

  /** `start + 1`, where the searches for the chunk's end begin (clamped to the end of the text). */
  function ChunkFrom(s: string, h: Heading): (from: nat)
    requires h.end <= |s|
    ensures from <= |s| && (h.end < |s| ==> from == h.end + 1)
  {
    if h.end < |s| then h.end + 1 else |s|
  }

  /** No object heading starts inside a chunk. */
  lemma ChunkHasNoObject(s: string, h: Heading)
    requires h.end <= |s|
    ensures forall p :: h.end < p < ChunkEnd(s, h) ==> HeadingAt(s, p, ObjectHeading).None?
  {
    SectionHasNoOwn(s, ChunkFrom(s, h), ObjectHeading, ListHeading);
  }

  /** A chunk ends at the first object heading after its start, when there is one. */
  lemma ChunkEndsAtObject(s: string, h: Heading, p: nat)
    requires h.end < p <= |s| && HeadingAt(s, p, ObjectHeading).Some?
    ensures HeadingAt(s, ChunkEnd(s, h), ObjectHeading).Some? && ChunkEnd(s, h) <= p
  {
    SectionEndsAtOwn(s, ChunkFrom(s, h), ObjectHeading, ListHeading, p);
  }

  /**
   * Without an object heading after it, a chunk ends at the first list heading after its
   * start, or at the end of the document.
   */
  lemma ChunkEndsAtList(s: string, h: Heading)
    requires h.end <= |s|
    requires forall p :: h.end < p <= |s| ==> HeadingAt(s, p, ObjectHeading).None?
    ensures forall p :: h.end < p < ChunkEnd(s, h) ==> HeadingAt(s, p, ListHeading).None?
    ensures ChunkEnd(s, h) == |s| || HeadingAt(s, ChunkEnd(s, h), ListHeading).Some?
  {
    SectionEndsAtOther(s, ChunkFrom(s, h), ObjectHeading, ListHeading);
  }

  /** The text between an object heading and the end of its chunk. */
  function Chunk(s: string, h: Heading): string
    requires h.end <= |s|
  {
    s[h.end..ChunkEnd(s, h)]
  }

  /** The first non-blank line of the stripped text, stripped; None when the text is blank. */
  function Description(text: string): Option<string> {
    var lines := NonEmptyCells(StripEach(Split(Strip(text), '\n')));
    if lines == [] then None else Some(lines[0])
  }

  /**
   * The description is the first line of the stripped text that is not blank once stripped;
   * there is none exactly when every line is blank.
   */
  lemma DescriptionIsFirstLine(text: string, lines: seq<string>) returns (i: nat)
    requires lines == Split(Strip(text), '\n')
    ensures Description(text).None? <==> forall k :: 0 <= k < |lines| ==> Strip(lines[k]) == []
    ensures Description(text).Some? ==>
      && i < |lines| && Strip(lines[i]) == Description(text).value
      && forall j :: 0 <= j < i ==> Strip(lines[j]) == []
  {
    i := FirstNonBlankLine(lines);
  }

  /** `FirstNonEmptyCell` for the stripped lines. */
  lemma FirstNonBlankLine(lines: seq<string>) returns (i: nat)
    ensures var kept := NonEmptyCells(StripEach(lines));
      && (kept == [] <==> forall k :: 0 <= k < |lines| ==> Strip(lines[k]) == [])
      && (kept != [] ==>
        && i < |lines| && Strip(lines[i]) == kept[0]
        && forall j :: 0 <= j < i ==> Strip(lines[j]) == [])
  {
    var stripped := StripEach(lines);
    NoNonEmptyCells(stripped);
    i := 0;
    if NonEmptyCells(stripped) != [] {
      i := FirstNonEmptyCell(stripped);
    }
  }

  /** A description is one non-empty line with no surrounding whitespace. */
  lemma DescriptionShape(text: string)
    requires Description(text).Some?
    ensures Description(text).value != [] && Trimmed(Description(text).value)
    ensures '\n' !in Description(text).value
  {
    var lines := Split(Strip(text), '\n');
    var i := DescriptionIsFirstLine(text, lines);
    var line := lines[i];
    StripIsTrimmed(line);
    StripKeeps(line, '\n');
  }

  /** The object a heading yields: its chunk's table must yield at least one field. */
  function AdcomObjectFor(s: string, h: Heading): (r: Option<ObjectDef>)
    requires h.start + |ObjectPrefix| <= h.nameEnd <= h.end <= |s|
  {
    var chunk := Chunk(s, h);
    match FindHeader(chunk, 0, AttributeHeader())
    case None => None
    case Some((p, q)) =>
      var fields := AdcomTableFields(TableBody(chunk, q));
      if fields == [] then None
      else Some(ObjectDef(HeadingName(s, h, ObjectHeading), fields, Some("adcom"), Description(chunk[..p])))
  }

  predicate ObjectBounds(s: string, hs: seq<Heading>) {
    forall k :: 0 <= k < |hs| ==> hs[k].start + |ObjectPrefix| <= hs[k].nameEnd <= hs[k].end <= |s|
  }

  /** What each heading contributes, heading by heading. */
  function AdcomObjects(s: string, hs: seq<Heading>): (r: seq<Option<ObjectDef>>)
    requires ObjectBounds(s, hs)
    ensures |r| == |hs|
  {
    if hs == [] then [] else AdcomObjects(s, hs[..|hs| - 1]) + [AdcomObjectFor(s, hs[|hs| - 1])]
  }

  lemma {:induction false} AdcomObjectsAt(s: string, hs: seq<Heading>, k: nat)
    requires ObjectBounds(s, hs) && k < |hs|
    ensures AdcomObjects(s, hs)[k] == AdcomObjectFor(s, hs[k])
  {
    if k < |hs| - 1 {
      assert ObjectBounds(s, hs[..|hs| - 1]);
      AdcomObjectsAt(s, hs[..|hs| - 1], k);
    }
  }

  /** The objects of a document: one per heading whose chunk's table yields a field, in heading order. */
  function AdcomDocumentObjects(s: string): seq<ObjectDef> {
    Somes(AdcomObjects(s, Headings(s)))
  }

  /**
   * One step of `extract_objects`: cut the heading's chunk, search it for an attribute table,
   * parse its stripped body, and make an object of the fields if there are any, described by
   * the text before the table.
   */
  method ObjectInChunk(content: string, h: Heading) returns (found: Option<ObjectDef>)
    requires h.start + |ObjectPrefix| <= h.nameEnd <= h.end <= |content|
    ensures found == AdcomObjectFor(content, h)
  {
    var chunk := Chunk(content, h);
    var table := FindHeader(chunk, 0, AttributeHeader());
    if table.None? {
      return None;
    }
    var fields := ParseAdcomTableBody(TableBody(chunk, table.value.1));
    if fields == [] {
      return None;
    }
    var description := Description(chunk[..table.value.0]);
    found := Some(ObjectDef(HeadingName(content, h, ObjectHeading), fields, Some("adcom"), description));
  }

  /** `extract_objects`: every object heading in document order, keeping those with fields. */
  method ExtractAdcomObjects(content: string) returns (objects: seq<ObjectDef>)
    ensures objects == AdcomDocumentObjects(content)
  {
    var hs := Headings(content);
    ghost var results := AdcomObjects(content, hs);
    objects := [];
    for i := 0 to |hs|
      invariant objects == Somes(results[..i])
    {
      var found := ObjectInChunk(content, hs[i]);
      AdcomObjectsAt(content, hs, i);
      SomesPrefixStep(results, i);
      objects := objects + ToSeq(found);
    }
    assert results[..|hs|] == results;
  }

  /**
   * An object made for a heading carries the heading's name, the fields of the first attribute
   * table in its chunk (at least one), the section "adcom" and the description of the text
   * before that table.
   */
  lemma AdcomObjectForShape(s: string, h: Heading)
    requires h.start + |ObjectPrefix| <= h.nameEnd <= h.end <= |s|
    requires AdcomObjectFor(s, h).Some?
    ensures var chunk, o := Chunk(s, h), AdcomObjectFor(s, h).value;
      && FindHeader(chunk, 0, AttributeHeader()).Some?
      && var (p, q) := FindHeader(chunk, 0, AttributeHeader()).value;
      && o.name == HeadingName(s, h, ObjectHeading)
      && o.fields == AdcomTableFields(TableBody(chunk, q)) && o.fields != []
      && o.section == Some("adcom")
      && o.description == Description(chunk[..p])
  {
  }

  /**
   * `extract_objects` keeps document order: each object comes from its own heading, the
   * headings of later objects come later in the document, and every object has fields and
   * the section "adcom".
   */
  lemma AdcomObjectsInOrder(s: string) returns (idx: seq<nat>)
    ensures |idx| == |AdcomDocumentObjects(s)|
    ensures forall k :: 0 <= k < |idx| ==> idx[k] < |Headings(s)|
    ensures forall k :: 0 <= k < |idx| ==> AdcomObjectFor(s, Headings(s)[idx[k]]) == Some(AdcomDocumentObjects(s)[k])
    ensures forall k, l :: 0 <= k < l < |idx| ==> idx[k] < idx[l]
    ensures forall k, l :: 0 <= k < l < |idx| ==> Headings(s)[idx[k]].end <= Headings(s)[idx[l]].start
    ensures forall k :: 0 <= k < |idx| ==>
      AdcomDocumentObjects(s)[k].fields != [] && AdcomDocumentObjects(s)[k].section == Some("adcom")
  {
    var hs := Headings(s);
    var results := AdcomObjects(s, hs);
    idx := SomesOrigin(results);
    HeadingsOrdered(s, 0, ObjectHeading);
    forall k | 0 <= k < |idx| ensures AdcomObjectFor(s, hs[idx[k]]) == Some(AdcomDocumentObjects(s)[k]) {
      AdcomObjectsAt(s, hs, idx[k]);
    }
    forall k | 0 <= k < |idx|
      ensures AdcomDocumentObjects(s)[k].fields != [] && AdcomDocumentObjects(s)[k].section == Some("adcom")
    {
      AdcomObjectForShape(s, hs[idx[k]]);
    }
  }

  /** No heading whose chunk yields fields is dropped. */
  lemma AdcomObjectsComplete(s: string, k: nat)
    requires k < |Headings(s)| && AdcomObjectFor(s, Headings(s)[k]).Some?
    ensures AdcomObjectFor(s, Headings(s)[k]).value in AdcomDocumentObjects(s)
  {
    var hs := Headings(s);
    AdcomObjectsAt(s, hs, k);
    SomesComplete(AdcomObjects(s, hs), k);
  }

  /** `parse`: the objects, then the enumerations. */
  method Parse(content: string) returns (objects: seq<ObjectDef>, enums: map<string, seq<(string, string)>>)
    ensures objects == AdcomDocumentObjects(content) && enums == DocumentEnums(content)
  {
    objects := ExtractAdcomObjects(content);
    enums := ExtractEnums(content);
  }
}
