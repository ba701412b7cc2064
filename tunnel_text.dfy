// The tunnel example's discrete parts: the 3x5 stroke font, the lines a
// text label turns into, the order in which the debug export collects
// tunnel and text lines, the vertex/colour/edge buffers of the PLY export,
// and the order in which the push callback runs its effects. Line positions
// and colours come from float geometry and are not modelled; each line is
// named by where it comes from.

module TunnelText {
  import opened EngineTypes

  // ---------------------------------------------------------------------------
  // The font
  // ---------------------------------------------------------------------------

  /** A glyph: five rows, top to bottom, of three cells each, '.' or '#'. */
  datatype Glyph = Glyph(rows: seq<string>)

  predicate WellFormed(g: Glyph)
  {
    |g.rows| == 5 &&
    RowOk(g.rows[0]) && RowOk(g.rows[1]) && RowOk(g.rows[2]) && RowOk(g.rows[3]) && RowOk(g.rows[4])
  }

  /** Three cells, each '.' or '#'. */
  predicate RowOk(r: string)
  {
    |r| == 3 && CellOk(r[0]) && CellOk(r[1]) && CellOk(r[2])
  }

  predicate CellOk(c: char) { c == '.' || c == '#' }

  predicate IsUpper(c: char) { 'A' <= c <= 'Z' }

  predicate IsLower(c: char) { 'a' <= c <= 'z' }

  /** `toupper` in the C locale: only 'a'..'z' change. */
  function ToUpper(c: char): (r: char)
    ensures IsLower(c) ==> IsUpper(r)
    ensures !IsLower(c) ==> r == c
  {
    if IsLower(c) then (c as int - 32) as char else c
  }

  /** The glyphs of 'A' to 'Z', in order. */
  const Font: seq<Glyph> := [
    /* A */ Glyph([".#.", "#.#", "###", "#.#", "#.#"]),
    /* B */ Glyph(["##.", "#.#", "##.", "#.#", "##."]),
    /* C */ Glyph([".##", "#..", "#..", "#..", ".##"]),
    /* D */ Glyph(["##.", "#.#", "#.#", "#.#", "##."]),
    /* E */ Glyph(["###", "#..", "##.", "#..", "###"]),
    /* F */ Glyph(["###", "#..", "##.", "#..", "#.."]),
    /* G */ Glyph([".##", "#..", "#.#", "#.#", ".##"]),
    /* H */ Glyph(["#.#", "#.#", "###", "#.#", "#.#"]),
    /* I */ Glyph(["###", ".#.", ".#.", ".#.", "###"]),
    /* J */ Glyph(["..#", "..#", "..#", "#.#", ".#."]),
    /* K */ Glyph(["#.#", "#.#", "##.", "#.#", "#.#"]),
    /* L */ Glyph(["#..", "#..", "#..", "#..", "###"]),
    /* M */ Glyph(["#.#", "###", "###", "#.#", "#.#"]),
    /* N */ Glyph(["#.#", "##.", "##.", "#.#", "#.#"]),
    /* O */ Glyph([".#.", "#.#", "#.#", "#.#", ".#."]),
    /* P */ Glyph(["##.", "#.#", "##.", "#..", "#.."]),
    /* Q */ Glyph([".#.", "#.#", "#.#", ".#.", "..#"]),
    /* R */ Glyph(["##.", "#.#", "##.", "#.#", "#.#"]),
    /* S */ Glyph([".##", "#..", ".#.", "..#", "##."]),
    /* T */ Glyph(["###", ".#.", ".#.", ".#.", ".#."]),
    /* U */ Glyph(["#.#", "#.#", "#.#", "#.#", ".#."]),
    /* V */ Glyph(["#.#", "#.#", "#.#", "#.#", ".#."]),
    /* W */ Glyph(["#.#", "#.#", "###", "###", "#.#"]),
    /* X */ Glyph(["#.#", "#.#", ".#.", "#.#", "#.#"]),
    /* Y */ Glyph(["#.#", "#.#", ".#.", ".#.", ".#."]),
    /* Z */ Glyph(["###", "..#", ".#.", "#..", "###"])
  ]

  /** `get_font_glyph`: upper-case the character, then look it up among A-Z. */
  function GetFontGlyph(c: char): (r: Option<Glyph>)
  {
    var u := ToUpper(c);
    if IsUpper(u) then Some(Font[u as int - 'A' as int]) else None
  }

  /** A glyph exists exactly for the letters of either case. */
  lemma GlyphExactlyForLetters(c: char)
    ensures GetFontGlyph(c).Some? <==> IsUpper(c) || IsLower(c)
  {
  }

  /** The lookup ignores case. */
  lemma GlyphIgnoresCase(c: char)
    requires IsLower(c)
    ensures GetFontGlyph(c) == GetFontGlyph(ToUpper(c))
  {
  }

  /** Every glyph in the table has five rows of three '.'/'#' cells. */
  lemma GlyphsWellFormed(c: char)
    requires GetFontGlyph(c).Some?
    ensures WellFormed(GetFontGlyph(c).value)
  {
    GlyphAWellFormed();
    GlyphBWellFormed();
    GlyphCWellFormed();
    GlyphDWellFormed();
    GlyphEWellFormed();
    GlyphFWellFormed();
    GlyphGWellFormed();
    GlyphHWellFormed();
    GlyphIWellFormed();
    GlyphJWellFormed();
    GlyphKWellFormed();
    GlyphLWellFormed();
    GlyphMWellFormed();
    GlyphNWellFormed();
    GlyphOWellFormed();
    GlyphPWellFormed();
    GlyphQWellFormed();
    GlyphRWellFormed();
    GlyphSWellFormed();
    GlyphTWellFormed();
    GlyphUWellFormed();
    GlyphVWellFormed();
    GlyphWWellFormed();
    GlyphXWellFormed();
    GlyphYWellFormed();
    GlyphZWellFormed();
  }

  // The table checked one glyph at a time.

  lemma GlyphAWellFormed() ensures WellFormed(Font[0]) { }
  lemma GlyphBWellFormed() ensures WellFormed(Font[1]) { }
  lemma GlyphCWellFormed() ensures WellFormed(Font[2]) { }
  lemma GlyphDWellFormed() ensures WellFormed(Font[3]) { }
  lemma GlyphEWellFormed() ensures WellFormed(Font[4]) { }
  lemma GlyphFWellFormed() ensures WellFormed(Font[5]) { }
  lemma GlyphGWellFormed() ensures WellFormed(Font[6]) { }
  lemma GlyphHWellFormed() ensures WellFormed(Font[7]) { }
  lemma GlyphIWellFormed() ensures WellFormed(Font[8]) { }
  lemma GlyphJWellFormed() ensures WellFormed(Font[9]) { }
  lemma GlyphKWellFormed() ensures WellFormed(Font[10]) { }
  lemma GlyphLWellFormed() ensures WellFormed(Font[11]) { }
  lemma GlyphMWellFormed() ensures WellFormed(Font[12]) { }
  lemma GlyphNWellFormed() ensures WellFormed(Font[13]) { }
  lemma GlyphOWellFormed() ensures WellFormed(Font[14]) { }
  lemma GlyphPWellFormed() ensures WellFormed(Font[15]) { }
  lemma GlyphQWellFormed() ensures WellFormed(Font[16]) { }
  lemma GlyphRWellFormed() ensures WellFormed(Font[17]) { }
  lemma GlyphSWellFormed() ensures WellFormed(Font[18]) { }
  lemma GlyphTWellFormed() ensures WellFormed(Font[19]) { }
  lemma GlyphUWellFormed() ensures WellFormed(Font[20]) { }
  lemma GlyphVWellFormed() ensures WellFormed(Font[21]) { }
  lemma GlyphWWellFormed() ensures WellFormed(Font[22]) { }
  lemma GlyphXWellFormed() ensures WellFormed(Font[23]) { }
  lemma GlyphYWellFormed() ensures WellFormed(Font[24]) { }
  lemma GlyphZWellFormed() ensures WellFormed(Font[25]) { }

  /** 'U' and 'V' share one shape. */
  lemma UAndVAlike()
    ensures GetFontGlyph('U') == GetFontGlyph('V')
    ensures GetFontGlyph('U').Some?
  {
  }

  // ---------------------------------------------------------------------------
  // Text labels as lines
  // ---------------------------------------------------------------------------

  /** Side `side` (0..3: bottom, right, top, left) of cell (row, col) of character `idx` of label `label`. */
  datatype TextEdge = TextEdge(li: nat, idx: nat, row: nat, col: nat, side: nat)

  /** The four outline lines of one '#' cell. */
  function CellEdges(li: nat, idx: nat, row: nat, col: nat): seq<TextEdge>
  {
    [TextEdge(li, idx, row, col, 0), TextEdge(li, idx, row, col, 1),
     TextEdge(li, idx, row, col, 2), TextEdge(li, idx, row, col, 3)]
  }

  /** Columns 0 .. n - 1 of one glyph row. */
  function RowEdges(li: nat, idx: nat, row: nat, cells: string, n: nat): seq<TextEdge>
    requires n <= |cells|
  {
    if n == 0 then []
    else RowEdges(li, idx, row, cells, n - 1) +
         (if cells[n - 1] == '#' then CellEdges(li, idx, row, n - 1) else [])
  }

  /** Rows 0 .. n - 1 of a glyph. */
  function GlyphEdges(li: nat, idx: nat, rows: seq<string>, n: nat): seq<TextEdge>
    requires n <= |rows|
  {
    if n == 0 then []
    else GlyphEdges(li, idx, rows, n - 1) +
         RowEdges(li, idx, n - 1, rows[n - 1], |rows[n - 1]|)
  }

  /**
   * A glyph lookup. The text code below takes the lookup as a parameter and
   * the entry points pass `GetFontGlyph`, so that reasoning about the loops
   * does not unfold the font table.
   */
  type FontFn = char -> Option<Glyph>

  /** A space or a character without a glyph draws nothing. */
  function CharEdges(li: nat, idx: nat, c: char, font: FontFn): seq<TextEdge>
  {
    if c == ' ' then []
    else match font(c)
      case None => []
      case Some(g) => GlyphEdges(li, idx, g.rows, |g.rows|)
  }

  /** Characters 0 .. n - 1 of a label's text. */
  function TextEdges(li: nat, text: string, n: nat, font: FontFn): seq<TextEdge>
    requires n <= |text|
  {
    if n == 0 then []
    else TextEdges(li, text, n - 1, font) + CharEdges(li, n - 1, text[n - 1], font)
  }

  /** All rows of a glyph, top to bottom, as one string. */
  function Join(rows: seq<string>): string
  {
    if rows == [] then [] else Join(rows[..|rows| - 1]) + rows[|rows| - 1]
  }

  /** The inked cells of a character: its glyph's '#' count, none for a space or unknown. */
  function Ink(c: char, font: FontFn): nat
  {
    if c == ' ' then 0
    else match font(c)
      case None => 0
      case Some(g) => Inked(Join(g.rows))
  }

  /** The inked cells of a text. */
  function TextInk(text: string, font: FontFn): nat
  {
    if text == [] then 0 else TextInk(text[..|text| - 1], font) + Ink(text[|text| - 1], font)
  }

  /** The number of '#' cells in a string. */
  function Inked(s: string): nat
  {
    if s == [] then 0 else Inked(s[..|s| - 1]) + (if s[|s| - 1] == '#' then 1 else 0)
  }

  lemma {:induction false} InkedAppend(a: string, b: string)
    ensures Inked(a + b) == Inked(a) + Inked(b)
  {
    if b != [] {
      var b' := b[..|b| - 1];
      InkedAppend(a, b');
      assert (a + b)[..|a + b| - 1] == a + b';
    } else {
      assert a + b == a;
    }
  }

  lemma RowEdgesSnoc(li: nat, idx: nat, row: nat, cells: string, n: nat)
    requires 0 < n <= |cells|
    ensures |RowEdges(li, idx, row, cells, n)| ==
              |RowEdges(li, idx, row, cells, n - 1)| + (if cells[n - 1] == '#' then 4 else 0)
  {
  }

  lemma {:induction false} RowEdgesCount(li: nat, idx: nat, row: nat, cells: string, n: nat)
    requires n <= |cells|
    ensures |RowEdges(li, idx, row, cells, n)| == 4 * Inked(cells[..n])
  {
    if n > 0 {
      RowEdgesCount(li, idx, row, cells, n - 1);
      RowEdgesSnoc(li, idx, row, cells, n);
      var p := cells[..n];
      assert p[..|p| - 1] == cells[..n - 1];
      assert Inked(p) == Inked(cells[..n - 1]) + (if cells[n - 1] == '#' then 1 else 0);
    }
  }

  lemma {:induction false} GlyphEdgesCount(li: nat, idx: nat, rows: seq<string>, n: nat)
    requires n <= |rows|
    ensures |GlyphEdges(li, idx, rows, n)| == 4 * Inked(Join(rows[..n]))
  {
    if n > 0 {
      GlyphEdgesCount(li, idx, rows, n - 1);
      var r := rows[n - 1];
      RowEdgesCount(li, idx, n - 1, r, |r|);
      assert r[..|r|] == r;
      assert rows[..n][..n - 1] == rows[..n - 1];
      assert Join(rows[..n]) == Join(rows[..n - 1]) + r;
      InkedAppend(Join(rows[..n - 1]), r);
    }
  }

  /** A character draws exactly four lines per '#' cell of its glyph. */
  lemma CharEdgesCount(li: nat, idx: nat, c: char, font: FontFn)
    ensures |CharEdges(li, idx, c, font)| == 4 * Ink(c, font)
  {
    if c != ' ' && font(c).Some? {
      var g := font(c).value;
      GlyphEdgesCount(li, idx, g.rows, |g.rows|);
      assert g.rows[..|g.rows|] == g.rows;
    }
  }

  /** A label's text draws exactly four lines per inked cell. */
  lemma {:induction false} TextEdgesCount(li: nat, text: string, n: nat, font: FontFn)
    requires n <= |text|
    ensures |TextEdges(li, text, n, font)| == 4 * TextInk(text[..n], font)
  {
    if n > 0 {
      TextEdgesCount(li, text, n - 1, font);
      CharEdgesCount(li, n - 1, text[n - 1], font);
      assert text[..n][..n - 1] == text[..n - 1];
    }
  }

  /** Spaces and characters without a glyph draw nothing, whatever their position. */
  lemma BlankCharsDrawNothing(li: nat, idx: nat, c: char)
    requires !(IsUpper(c) || IsLower(c))
    ensures CharEdges(li, idx, c, GetFontGlyph) == []
  {
    GlyphExactlyForLetters(c);
  }

  /** The glyph loops for character `idx` (rows, then columns, four lines per '#'). */
  method EmitGlyph(li: nat, idx: nat, g: Glyph) returns (out: seq<TextEdge>)
    ensures out == GlyphEdges(li, idx, g.rows, |g.rows|)
  {
    out := [];
    var row := 0;
    while row < |g.rows|
      invariant 0 <= row <= |g.rows|
      invariant out == GlyphEdges(li, idx, g.rows, row)
    {
      ghost var before := out;
      var cells := g.rows[row];
      var col := 0;
      while col < |cells|
        invariant 0 <= col <= |cells|
        invariant out == before + RowEdges(li, idx, row, cells, col)
      {
        if cells[col] == '#' {
          out := out + CellEdges(li, idx, row, col);
        }
        col := col + 1;
      }
      row := row + 1;
    }
  }

  lemma TextEdgesSnoc(li: nat, text: string, n: nat, font: FontFn)
    requires 0 < n <= |text|
    ensures TextEdges(li, text, n, font) == TextEdges(li, text, n - 1, font) +
              (if text[n - 1] == ' ' || font(text[n - 1]).None? then []
               else GlyphEdges(li, n - 1, font(text[n - 1]).value.rows,
                               |font(text[n - 1]).value.rows|))
  {
  }

  /** The character loop shared by `draw_range` and `collect_text_lines`. */
  method EmitText(li: nat, text: string, font: FontFn) returns (out: seq<TextEdge>)
    ensures out == TextEdges(li, text, |text|, font)
  {
    out := [];
    var idx := 0;
    while idx < |text|
      invariant 0 <= idx <= |text|
      invariant out == TextEdges(li, text, idx, font)
    {
      var c := text[idx];
      TextEdgesSnoc(li, text, idx + 1, font);
      if c != ' ' {
        var glyph := font(c);
        if glyph.Some? {
          var lines := EmitGlyph(li, idx, glyph.value);
          out := out + lines;
        }
      }
      idx := idx + 1;
    }
  }

  /** A text label: its position along the path and its message. */
  datatype TextLabel = TextLabel(s: real, text: string)

  /** Whether a label draws: it has text and, when `clip` is set, lies in [lo, hi]. */
  predicate Draws(lab: TextLabel, lo: real, hi: real, clip: bool)
  {
    !(clip && (lab.s < lo || lab.s > hi)) && lab.text != []
  }

  /** The lines of label `li`, or none when it does not draw. */
  function LabelEdges(li: nat, lab: TextLabel, lo: real, hi: real, clip: bool, font: FontFn): seq<TextEdge>
  {
    if Draws(lab, lo, hi, clip) then TextEdges(li, lab.text, |lab.text|, font) else []
  }

  /** Labels 0 .. n - 1, in order. */
  function LabelsEdges(labels: seq<TextLabel>, n: nat, lo: real, hi: real, clip: bool, font: FontFn): seq<TextEdge>
    requires n <= |labels|
  {
    if n == 0 then []
    else LabelsEdges(labels, n - 1, lo, hi, clip, font) + LabelEdges(n - 1, labels[n - 1], lo, hi, clip, font)
  }

  /** The body of the label loop: one label's lines. */
  method EmitLabel(li: nat, lab: TextLabel, lo: real, hi: real, clip: bool, font: FontFn) returns (lines: seq<TextEdge>)
    ensures lines == LabelEdges(li, lab, lo, hi, clip, font)
  {
    lines := [];
    if !(clip && (lab.s < lo || lab.s > hi)) && lab.text != [] {
      lines := EmitText(li, lab.text, font);
    }
  }

  /**
   * The label loop of `draw_range` and `collect_text_lines`: every label with
   * text, in order, and when `clip` is set only those positioned in [lo, hi].
   */
  method EmitLabels(labels: seq<TextLabel>, lo: real, hi: real, clip: bool, font: FontFn) returns (out: seq<TextEdge>)
    ensures out == LabelsEdges(labels, |labels|, lo, hi, clip, font)
  {
    out := [];
    var i := 0;
    while i < |labels|
      invariant 0 <= i <= |labels|
      invariant out == LabelsEdges(labels, i, lo, hi, clip, font)
    {
      out := EmitLabelsStep(labels, lo, hi, clip, font, i, out);
      i := i + 1;
    }
  }

  /** One turn of the label loop: append label i's lines. */
  method EmitLabelsStep(labels: seq<TextLabel>, lo: real, hi: real, clip: bool, font: FontFn,
                        i: nat, out: seq<TextEdge>) returns (out': seq<TextEdge>)
    requires i < |labels| && out == LabelsEdges(labels, i, lo, hi, clip, font)
    ensures out' == LabelsEdges(labels, i + 1, lo, hi, clip, font)
  {
    var lines := EmitLabel(i, labels[i], lo, hi, clip, font);
    out' := out + lines;
  }

  /**
   * `collect_text_lines`: nothing when the tunnel has no length or there are
   * no labels; otherwise every label with text, in order, wherever it lies.
   */
  method CollectTextLines(labels: seq<TextLabel>, pathLength: real) returns (out: seq<TextEdge>)
    ensures out == (if pathLength <= 0.0 then [] else LabelsEdges(labels, |labels|, 0.0, 0.0, false, GetFontGlyph))
  {
    if pathLength <= 0.0 {
      return [];
    }
    if labels == [] {
      return [];
    }
    out := EmitLabels(labels, 0.0, 0.0, false, GetFontGlyph);
  }

  /**
   * `TextOnWires::draw_range`: the range is clipped to [0, pathLength];
   * nothing when it is empty; otherwise the labels with text whose
   * position lies in the clipped range, in order.
   */
  method DrawRange(labels: seq<TextLabel>, pathLength: real, sStart: real, sEnd: real)
    returns (out: seq<TextEdge>)
    ensures var lo := if sStart < 0.0 then 0.0 else sStart;
            var hi := if sEnd > pathLength then pathLength else sEnd;
            out == (if pathLength <= 0.0 || hi <= lo then [] else LabelsEdges(labels, |labels|, lo, hi, true, GetFontGlyph))
  {
    if labels == [] {
      return [];
    }
    if pathLength <= 0.0 {
      return [];
    }
    var lo := if sStart < 0.0 then 0.0 else sStart;
    var hi := if sEnd > pathLength then pathLength else sEnd;
    if hi <= lo {
      return [];
    }
    out := EmitLabels(labels, lo, hi, true, GetFontGlyph);
  }

  /**
   * The export draws the same text as the renderer: over the whole path,
   * with every label on the path, `draw_range` and `collect_text_lines`
   * produce the same lines.
   */
  lemma {:induction false} ExportMatchesDrawRange(labels: seq<TextLabel>, pathLength: real, n: nat, font: FontFn)
    requires n <= |labels| && pathLength > 0.0
    requires forall i :: 0 <= i < |labels| ==> 0.0 <= labels[i].s <= pathLength
    ensures LabelsEdges(labels, n, 0.0, pathLength, true, font) == LabelsEdges(labels, n, 0.0, 0.0, false, font)
  {
    if n > 0 {
      ExportMatchesDrawRange(labels, pathLength, n - 1, font);
    }
  }

  // ---------------------------------------------------------------------------
  // Collecting the debug export
  // ---------------------------------------------------------------------------

  datatype SectionKind = Tunnel | Empty | RingField

  /** An exported line: piece `k` of section `section`'s tunnel geometry, or a text line. */
  datatype DebugLine = Geometry(section: nat, k: nat) | Text(edge: TextEdge)

  /** Pieces 0 .. n - 1 of one section's geometry. */
  function Pieces(section: nat, n: nat): seq<DebugLine>
  {
    if n == 0 then [] else Pieces(section, n - 1) + [Geometry(section, n - 1)]
  }

  /** The geometry of sections 0 .. n - 1; only Tunnel sections contribute. */
  function SectionsGeometry(kinds: seq<SectionKind>, geometry: nat -> nat, n: nat): seq<DebugLine>
    requires n <= |kinds|
  {
    if n == 0 then []
    else SectionsGeometry(kinds, geometry, n - 1) +
         (if kinds[n - 1] == Tunnel then Pieces(n - 1, geometry(n - 1)) else [])
  }

  function AsDebug(edges: seq<TextEdge>): (r: seq<DebugLine>)
    ensures |r| == |edges|
    ensures forall k :: 0 <= k < |edges| ==> r[k] == Text(edges[k])
  {
    if edges == [] then [] else AsDebug(edges[..|edges| - 1]) + [Text(edges[|edges| - 1])]
  }

  /**
   * `collect_all_tunnel_debug_lines`: the output starts empty, then every
   * Tunnel section's geometry in section order, then the text lines. The
   * geometry of `collect_tunnel_section_lines` (rings, bars and core clipped
   * to the section) is float work; `geometry(s)` is how many lines it gives
   * for section s.
   */
  method CollectAllTunnelDebugLines(kinds: seq<SectionKind>, geometry: nat -> nat,
                                    labels: seq<TextLabel>, pathLength: real)
    returns (out: seq<DebugLine>)
    ensures out == SectionsGeometry(kinds, geometry, |kinds|) +
                   AsDebug(if pathLength <= 0.0 then [] else LabelsEdges(labels, |labels|, 0.0, 0.0, false, GetFontGlyph))
  {
    out := [];
    var s := 0;
    while s < |kinds|
      invariant 0 <= s <= |kinds|
      invariant out == SectionsGeometry(kinds, geometry, s)
    {
      if kinds[s] == Tunnel {
        var k := 0;
        while k < geometry(s)
          invariant 0 <= k <= geometry(s)
          invariant out == SectionsGeometry(kinds, geometry, s) + Pieces(s, k)
        {
          out := out + [Geometry(s, k)];
          k := k + 1;
        }
      }
      s := s + 1;
    }
    var text := CollectTextLines(labels, pathLength);
    out := out + AsDebug(text);
  }

  lemma {:induction false} PiecesExactly(section: nat, n: nat, s: nat, k: nat)
    ensures Geometry(s, k) in Pieces(section, n) <==> s == section && k < n
  {
    if n > 0 {
      PiecesExactly(section, n - 1, s, k);
    }
  }

  /**
   * Geometry piece k of section s is exported exactly when section s is a
   * Tunnel section and k is below its line count.
   */
  lemma {:induction false} GeometryExactlyFromTunnels(kinds: seq<SectionKind>, geometry: nat -> nat, n: nat, s: nat, k: nat)
    requires n <= |kinds|
    ensures Geometry(s, k) in SectionsGeometry(kinds, geometry, n) <==>
              s < n && kinds[s] == Tunnel && k < geometry(s)
  {
    if n > 0 {
      GeometryExactlyFromTunnels(kinds, geometry, n - 1, s, k);
      PiecesExactly(n - 1, geometry(n - 1), s, k);
    }
  }

  lemma {:induction false} SectionsGeometryAllGeometry(kinds: seq<SectionKind>, geometry: nat -> nat, n: nat)
    requires n <= |kinds|
    ensures forall x :: x in SectionsGeometry(kinds, geometry, n) ==> x.Geometry?
  {
    if n > 0 {
      SectionsGeometryAllGeometry(kinds, geometry, n - 1);
      forall x | x in Pieces(n - 1, geometry(n - 1)) ensures x.Geometry? {
        PiecesAllGeometry(n - 1, geometry(n - 1));
      }
    }
  }

  lemma {:induction false} PiecesAllGeometry(section: nat, n: nat)
    ensures forall x :: x in Pieces(section, n) ==> x.Geometry?
  {
    if n > 0 {
      PiecesAllGeometry(section, n - 1);
    }
  }

  /**
   * In the collected export every tunnel line comes before every text line:
   * for any text lines `text`, once a text line appears, all lines after it
   * are text lines.
   */
  lemma TunnelLinesBeforeText(kinds: seq<SectionKind>, geometry: nat -> nat,
                              text: seq<TextEdge>, i: nat, j: nat)
    requires var out := SectionsGeometry(kinds, geometry, |kinds|) + AsDebug(text);
             i < j < |out| && out[i].Text?
    ensures var g := SectionsGeometry(kinds, geometry, |kinds|);
            var out := g + AsDebug(text);
            |g| <= i && out[j].Text? && out[j].edge == text[j - |g|]
  {
    var g := SectionsGeometry(kinds, geometry, |kinds|);
    var t := AsDebug(text);
    var out := g + t;
    SectionsGeometryAllGeometry(kinds, geometry, |kinds|);
    forall k | 0 <= k < |g|
      ensures out[k].Geometry?
    {
      assert out[k] == g[k] && g[k] in g;
    }
    assert out[j] == t[j - |g|];
  }

  // ---------------------------------------------------------------------------
  // The PLY buffers
  // ---------------------------------------------------------------------------

  /** A line as the export stores it: two endpoints and one colour. */
  datatype ExportLine = ExportLine(a: Vec3, b: Vec3, color: Vec3)

  /** `to_u8_color` with the default exposure 0.6: scale to 0..255, clamp, truncate. */
  function ToU8Color(c: real): (r: bv8)
    ensures c <= 0.0 ==> r == 0
    ensures c * 0.6 * 255.0 >= 255.0 ==> r == 255
  {
    var v := c * 0.6 * 255.0;
    var clamped := if v < 0.0 then 0.0 else if v > 255.0 then 255.0 else v;
    clamped.Floor as bv8
  }

  function Rgb8(color: Vec3): seq<bv8>
  {
    [ToU8Color(color.x), ToU8Color(color.y), ToU8Color(color.z)]
  }

  /** The buffers handed to the PLY writer. */
  datatype PlyBuffers = PlyBuffers(vertices: seq<real>, colors: seq<bv8>, edges: seq<nat>)

  /**
   * The buffers of `export_tunnel_debug_ply` for `lines`: per line its two
   * endpoints, the line colour once per endpoint, and an edge joining the
   * two new vertices. No lines, no file.
   */
  method PlyLayout(lines: seq<ExportLine>) returns (r: Option<PlyBuffers>)
    ensures lines == [] <==> r.None?
    ensures r.Some? ==>
              var n := |lines|;
              |r.value.vertices| == 6 * n && |r.value.colors| == 6 * n && |r.value.edges| == 2 * n
    ensures r.Some? ==>
              forall i :: 0 <= i < |lines| ==>
                r.value.edges[2 * i] == 2 * i && r.value.edges[2 * i + 1] == 2 * i + 1
    ensures r.Some? ==>
              forall i :: 0 <= i < |lines| ==>
                r.value.vertices[6 * i..6 * i + 6] ==
                  [lines[i].a.x, lines[i].a.y, lines[i].a.z, lines[i].b.x, lines[i].b.y, lines[i].b.z] &&
                r.value.colors[6 * i..6 * i + 6] == Rgb8(lines[i].color) + Rgb8(lines[i].color)
  {
    if lines == [] {
      return None;
    }
    var vertices: seq<real> := [];
    var colors: seq<bv8> := [];
    var edges: seq<nat> := [];
    var currentVertexIndex: nat := 0;
    var k := 0;
    while k < |lines|
      invariant 0 <= k <= |lines|
      invariant currentVertexIndex == 2 * k
      invariant |vertices| == 6 * k && |colors| == 6 * k && |edges| == 2 * k
      invariant forall i :: 0 <= i < k ==> edges[2 * i] == 2 * i && edges[2 * i + 1] == 2 * i + 1
      invariant forall i :: 0 <= i < k ==>
                  vertices[6 * i..6 * i + 6] ==
                    [lines[i].a.x, lines[i].a.y, lines[i].a.z, lines[i].b.x, lines[i].b.y, lines[i].b.z] &&
                  colors[6 * i..6 * i + 6] == Rgb8(lines[i].color) + Rgb8(lines[i].color)
    {
      var l := lines[k];
      var rgb := Rgb8(l.color);
      ghost var v0, c0 := vertices, colors;
      vertices := vertices + [l.a.x, l.a.y, l.a.z];
      colors := colors + rgb;
      var idx0 := currentVertexIndex;
      currentVertexIndex := currentVertexIndex + 1;
      vertices := vertices + [l.b.x, l.b.y, l.b.z];
      colors := colors + rgb;
      var idx1 := currentVertexIndex;
      currentVertexIndex := currentVertexIndex + 1;
      edges := edges + [idx0, idx1];
      PrefixSlices(v0, vertices, k);
      PrefixSlices(c0, colors, k);
      k := k + 1;
    }
    return Some(PlyBuffers(vertices, colors, edges));
  }

  /** Appending after 6 * k entries leaves the first k six-entry records alone. */
  lemma PrefixSlices<T>(old_: seq<T>, new_: seq<T>, k: nat)
    requires |old_| == 6 * k && |new_| >= |old_| && new_[..|old_|] == old_
    ensures forall i :: 0 <= i < k ==> new_[6 * i..6 * i + 6] == old_[6 * i..6 * i + 6]
  {
    forall i | 0 <= i < k
      ensures new_[6 * i..6 * i + 6] == old_[6 * i..6 * i + 6]
    {
      assert new_[6 * i..6 * i + 6] == new_[..|old_|][6 * i..6 * i + 6];
    }
  }

  /** Edge i joins vertices 2i and 2i + 1: the edges pair up the vertices without sharing. */
  lemma EdgesPairVertices(b: PlyBuffers, n: nat, i: nat, j: nat)
    requires |b.edges| == 2 * n
    requires forall k :: 0 <= k < n ==> b.edges[2 * k] == 2 * k && b.edges[2 * k + 1] == 2 * k + 1
    requires i < n && j < n && i != j
    ensures {b.edges[2 * i], b.edges[2 * i + 1]} !! {b.edges[2 * j], b.edges[2 * j + 1]}
    ensures b.edges[2 * i + 1] < 2 * n
  {
  }

  // ---------------------------------------------------------------------------
  // Effect dispatch
  // ---------------------------------------------------------------------------

  /** An effect entry: the effect it runs, or None for a null `fn`. */
  datatype Effect = Effect(fn: Option<nat>)

  /** The effect lists and sections of the `Universe`. */
  datatype Universe = Universe(
    worldEffects: seq<Effect>,
    sections: seq<SectionKind>,
    tunnelEffects: seq<Effect>,
    emptyEffects: seq<Effect>,
    ringFieldEffects: seq<Effect>)

  /** What the callback does: run an effect (for a section, or world-wide) or flush. */
  datatype Call = Run(fn: nat, section: Option<nat>) | FlushCall

  /** The effect list a section kind selects. */
  function ListFor(u: Universe, kind: SectionKind): seq<Effect>
  {
    match kind
    case Tunnel => u.tunnelEffects
    case Empty => u.emptyEffects
    case RingField => u.ringFieldEffects
  }

  /** Entries 0 .. n - 1 of `list` for `section`, null entries skipped. */
  function RunList(list: seq<Effect>, section: Option<nat>, n: nat): seq<Call>
    requires n <= |list|
  {
    if n == 0 then []
    else RunList(list, section, n - 1) +
         (if list[n - 1].fn.Some? then [Run(list[n - 1].fn.value, section)] else [])
  }

  /** The section effects of sections 0 .. n - 1. */
  function SectionRuns(u: Universe, n: nat): seq<Call>
    requires n <= |u.sections|
  {
    if n == 0 then []
    else
      var list := ListFor(u, u.sections[n - 1]);
      SectionRuns(u, n - 1) + RunList(list, Some(n - 1), |list|)
  }

  /** Runs `list` for `section`, skipping null entries. */
  method RunEffects(list: seq<Effect>, section: Option<nat>) returns (calls: seq<Call>)
    ensures calls == RunList(list, section, |list|)
  {
    calls := [];
    var e := 0;
    while e < |list|
      invariant 0 <= e <= |list|
      invariant calls == RunList(list, section, e)
    {
      if list[e].fn.Some? {
        calls := calls + [Run(list[e].fn.value, section)];
      }
      e := e + 1;
    }
  }

  /**
   * `line_push_callback` of the tunnel example: nothing without a universe;
   * otherwise the world effects, then each section's list by kind, then one
   * flush.
   */
  method TunnelLinePushCallback(u: Option<Universe>) returns (calls: seq<Call>)
    ensures u.None? ==> calls == []
    ensures u.Some? ==>
              calls == RunList(u.value.worldEffects, None, |u.value.worldEffects|) +
                       SectionRuns(u.value, |u.value.sections|) + [FlushCall]
  {
    if u.None? {
      return [];
    }
    var uni := u.value;
    calls := RunEffects(uni.worldEffects, None);
    var s := 0;
    while s < |uni.sections|
      invariant 0 <= s <= |uni.sections|
      invariant calls == RunList(uni.worldEffects, None, |uni.worldEffects|) + SectionRuns(uni, s)
    {
      calls := RunSection(uni, s, calls);
      s := s + 1;
    }
    calls := calls + [FlushCall];
  }

  /** One turn of the section loop: run the list section s's kind selects. */
  method RunSection(uni: Universe, s: nat, calls: seq<Call>) returns (calls': seq<Call>)
    requires s < |uni.sections|
    ensures calls' == calls + RunList(ListFor(uni, uni.sections[s]), Some(s), |ListFor(uni, uni.sections[s])|)
  {
    var list := ListFor(uni, uni.sections[s]);
    var run := RunEffects(list, Some(s));
    calls' := calls + run;
  }

  /** Where a call sits in the order: world-wide first, then by section index. */
  function Stage(c: Call): nat
  {
    match c
    case Run(_, None) => 0
    case Run(_, Some(s)) => s + 1
    case FlushCall => 0
  }

  lemma {:induction false} RunListShape(list: seq<Effect>, section: Option<nat>, n: nat)
    requires n <= |list|
    ensures forall c :: c in RunList(list, section, n) ==>
              c.Run? && c.section == section && Effect(Some(c.fn)) in list[..n]
  {
    if n > 0 {
      RunListShape(list, section, n - 1);
      assert list[..n] == list[..n - 1] + [list[n - 1]];
    }
  }

  /** Each section effect comes from a non-null entry of the list its section's kind selects. */
  lemma {:induction false} SectionRunsFrom(u: Universe, n: nat)
    requires n <= |u.sections|
    ensures forall c :: c in SectionRuns(u, n) ==>
              c.Run? && c.section.Some? && c.section.value < n &&
              Effect(Some(c.fn)) in ListFor(u, u.sections[c.section.value])
  {
    if n > 0 {
      SectionRunsFrom(u, n - 1);
      var prev := SectionRuns(u, n - 1);
      var list := ListFor(u, u.sections[n - 1]);
      var last := RunList(list, Some(n - 1), |list|);
      RunListShape(list, Some(n - 1), |list|);
      assert list[..|list|] == list;
      assert SectionRuns(u, n) == prev + last;
    }
  }

  /** Stages never decrease along `cs`. */
  predicate StagesSorted(cs: seq<Call>)
  {
    forall i, j :: 0 <= i < j < |cs| ==> Stage(cs[i]) <= Stage(cs[j])
  }

  /** Every stage along `cs` lies in lo .. hi. */
  predicate StagesWithin(cs: seq<Call>, lo: nat, hi: nat)
  {
    forall k :: 0 <= k < |cs| ==> lo <= Stage(cs[k]) <= hi
  }

  lemma SortedAppend(a: seq<Call>, b: seq<Call>, m: nat)
    requires m >= 1 && StagesSorted(a) && StagesWithin(a, 1, m - 1) && StagesWithin(b, m, m)
    ensures StagesSorted(a + b) && StagesWithin(a + b, 1, m)
  {
    var ab := a + b;
    forall k | 0 <= k < |ab|
      ensures 1 <= Stage(ab[k]) <= m
      ensures k < |a| ==> Stage(ab[k]) < m
      ensures k >= |a| ==> Stage(ab[k]) == m
    {
      if k < |a| {
        assert ab[k] == a[k];
      } else {
        assert ab[k] == b[k - |a|];
      }
    }
    forall i, j | 0 <= i < j < |ab|
      ensures Stage(ab[i]) <= Stage(ab[j])
    {
      if j < |a| {
        assert ab[i] == a[i] && ab[j] == a[j];
      }
    }
  }

  /** Section effects run in section order: stages 1 .. n, never decreasing. */
  lemma {:induction false} SectionRunsOrdered(u: Universe, n: nat)
    requires n <= |u.sections|
    ensures StagesSorted(SectionRuns(u, n)) && StagesWithin(SectionRuns(u, n), 1, n)
  {
    if n > 0 {
      SectionRunsOrdered(u, n - 1);
      var prev := SectionRuns(u, n - 1);
      var list := ListFor(u, u.sections[n - 1]);
      var last := RunList(list, Some(n - 1), |list|);
      RunListShape(list, Some(n - 1), |list|);
      forall k | 0 <= k < |last|
        ensures n <= Stage(last[k]) <= n
      {
        assert last[k] in last;
      }
      SortedAppend(prev, last, n);
      assert SectionRuns(u, n) == prev + last;
    } else {
      assert SectionRuns(u, n) == [];
    }
  }

  /**
   * The callback's calls: world effects first, then section effects in
   * section order, and the flush last.
   */
  lemma DispatchOrder(u: Universe, i: nat, j: nat)
    requires var calls := RunList(u.worldEffects, None, |u.worldEffects|) +
                          SectionRuns(u, |u.sections|) + [FlushCall];
             i < j < |calls| - 1
    ensures var calls := RunList(u.worldEffects, None, |u.worldEffects|) +
                         SectionRuns(u, |u.sections|) + [FlushCall];
            calls[i].Run? && calls[j].Run? && Stage(calls[i]) <= Stage(calls[j]) &&
            calls[|calls| - 1] == FlushCall
  {
    var w := RunList(u.worldEffects, None, |u.worldEffects|);
    var sr := SectionRuns(u, |u.sections|);
    RunListShape(u.worldEffects, None, |u.worldEffects|);
    SectionRunsOrdered(u, |u.sections|);
    SectionRunsFrom(u, |u.sections|);
    var calls := w + sr + [FlushCall];
    if j < |w| {
      assert calls[i] == w[i] && calls[i] in w;
      assert calls[j] == w[j] && calls[j] in w;
    } else if i < |w| {
      assert calls[i] == w[i] && calls[i] in w;
      assert calls[j] == sr[j - |w|] && calls[j] in sr;
    } else {
      assert calls[i] == sr[i - |w|];
      assert calls[j] == sr[j - |w|] && calls[j] in sr;
    }
  }
}
