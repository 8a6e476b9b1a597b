/**
 * Row extraction for the owner-list table (`normalizeMarkdown` and
 * `markdownToRows` in app/lib/ai/postValidators.ts): OCR markdown lines become
 * `RawRow`s, one per line whose label cell is a lot number or the marker "CRN",
 * with wrapped continuation lines appended to the open row.
 */
module Rows {
  import opened Wrappers
  import opened Text

  /** One physical table row: label, unit and the four content cells. */
  datatype RawRow = RawRow(
    lotOrCrn: string,
    unit: string,
    ownerCell: string,
    corrCell: string,
    levyCell: string,
    phoneCell: string)

  // ---------------------------------------------------------------------------
  // normalizeMarkdown

  /** The text after position `k` of `t`, past any whitespace, starts with a pipe. */
  predicate PipeAfter(t: string, k: nat)
    requires k <= |t|
  {
    var rest := TrimLeft(t[k..]);
    |rest| > 0 && rest[0] == '|'
  }

  /**
   * `/^(?:\s*(?:CRN|[A-Z]?\d+[A-Z]?))\s*\|/` (case-sensitive): a table line whose
   * leading pipe is missing. Each optional letter and the digit run can only be
   * taken whole, so the match is decided without backtracking.
   */
  predicate LooksLikeUnpipedRow(line: string) {
    var t := TrimLeft(line);
    ("CRN" <= t && PipeAfter(t, 3)) ||
    (var a := if |t| > 0 && IsUpper(t[0]) then 1 else 0;
     var b := RunEnd(t, a, IsDigit);
     b > a && PipeAfter(t, if b < |t| && IsUpper(t[b]) then b + 1 else b))
  }

  /** The replacer passed to `replace`: it repairs the text it is handed when that text looks like an unpiped row. */
  function RepairLine(matched: string): string {
    if LooksLikeUnpipedRow(matched) then "| " + Trim(matched) else matched
  }

  /** The negative lookahead `(?!(\s*\|))` at a line start. */
  predicate StartsWithPipe(line: string) {
    var t := TrimLeft(line);
    |t| > 0 && t[0] == '|'
  }

  /**
   * `normalizeMarkdown` as written: at every line start not followed by
   * `\s*\|`, the zero-width match (the empty string) is replaced by what the
   * replacer returns for it. The replacer never sees the line itself.
   * (The lookahead's `\s*` may run past a line end in JavaScript; the inserted
   * text is the same either way.)
   */
  function NormalizeLine(line: string): string {
    if StartsWithPipe(line) then line else RepairLine("") + line
  }

  /**
   * `normalizeMarkdown`: the replace over every line start. The repair never
   * fires, because the replacer is handed the empty match, which does not look
   * like a row; so the markdown is returned unchanged.
   */
  function NormalizeMarkdown(md: string): (r: string)
    ensures r == md
  {
    var lines := Split(md, '\n');
    NormalizedLinesKept(lines);
    JoinSplit(md, '\n');
    Join(seq(|lines|, k requires 0 <= k < |lines| => NormalizeLine(lines[k])), '\n')
  }

  /** Every line is kept as it is. */
  lemma NormalizedLinesKept(lines: seq<string>)
    ensures seq(|lines|, k requires 0 <= k < |lines| => NormalizeLine(lines[k])) == lines
  {
    forall k | 0 <= k < |lines| ensures NormalizeLine(lines[k]) == lines[k] {
      NormalizeLineIsIdentity(lines[k]);
    }
  }

  /** The empty match does not look like a row, so it is handed back as it is. */
  lemma RepairOfEmptyMatch()
    ensures RepairLine("") == ""
  {
    assert TrimLeft("") == "";
    assert !LooksLikeUnpipedRow("");
  }

  /** Each line is kept: the only text ever inserted is the replacer's "" for the empty match. */
  lemma NormalizeLineIsIdentity(line: string)
    ensures NormalizeLine(line) == line
  {
    RepairOfEmptyMatch();
    assert "" + line == line;
  }

  /** The repair the replacer would make, had it been handed a line. */
  lemma RepairWouldFixUnpipedRow()
    ensures RepairLine("7|") == "| 7|"
    ensures NormalizeLine("7|") == "7|"
  {
    var t := "7|";
    assert LeadingSpaces(t) == 0 && TrimLeft(t) == t;
    assert t[1..] == "|" && LeadingSpaces("|") == 0;
    assert RunEnd(t, 0, IsDigit) == 1 by { assert RunEnd(t, 1, IsDigit) == 1; }
    assert PipeAfter(t, 1);
    assert LooksLikeUnpipedRow(t);
    assert TrailingSpaces(t) == 0 && Trim(t) == t;
    assert RepairLine("") == "" by { assert !LooksLikeUnpipedRow(""); }
  }

  // ---------------------------------------------------------------------------
  // markdownToRows

  /**
   * `/^(?:[A-Z]*\d+[A-Z]*|CRN)$/i`: a lot label such as 12, G3 or 7A, or the
   * continuation marker CRN in any case. The letter and digit runs can only be
   * taken whole, so the match is decided without backtracking.
   */
  predicate IsRowLabel(s: string) {
    CiEq(s, "CRN") ||
    (var a := RunEnd(s, 0, IsLetter);
     var b := RunEnd(s, a, IsDigit);
     b > a && AllChars(s[b..], IsLetter))
  }

  /** A line that counts as a table line: it starts with a pipe once trimmed. */
  predicate IsTableLine(raw: string) {
    var t := Trim(raw);
    |t| > 0 && t[0] == '|'
  }

  /** Backticks removed, line-break tags turned into "\n", split on pipes, each cell trimmed. */
  function Cells(raw: string): seq<string> {
    var parts := Split(ReplaceBr(RemoveChar(raw, '`'), "\n"), '|');
    seq(|parts|, k requires 0 <= k < |parts| => Trim(parts[k]))
  }

  /** `cells[k] || ""`. */
  function Cell(cells: seq<string>, k: nat): string {
    if k < |cells| then cells[k] else ""
  }

  /** How one line is treated: ignored, the start of a new row, or a continuation. */
  datatype LineKind = Ignored | Label(cells: seq<string>) | Continuation(cells: seq<string>)

  function Classify(raw: string): LineKind {
    if !IsTableLine(raw) then Ignored
    else
      var cells := Cells(raw);
      if IsRowLabel(Cell(cells, 1)) then Label(cells) else Continuation(cells)
  }

  predicate IsLabelLine(raw: string) {
    Classify(raw).Label?
  }

  function RowOf(cells: seq<string>): RawRow {
    RawRow(Cell(cells, 1), Cell(cells, 2), Cell(cells, 3), Cell(cells, 4), Cell(cells, 5), Cell(cells, 6))
  }

  /** A continuation line's content cells, appended after a newline to the open row's. */
  function Extend(row: RawRow, cells: seq<string>): RawRow {
    row.(ownerCell := row.ownerCell + "\n" + Cell(cells, 3),
         corrCell := row.corrCell + "\n" + Cell(cells, 4),
         levyCell := row.levyCell + "\n" + Cell(cells, 5),
         phoneCell := row.phoneCell + "\n" + Cell(cells, 6))
  }

  function Emit(open: Option<RawRow>): seq<RawRow> {
    if open.Some? then [open.value] else []
  }

  /** The treatment of each line, in order. */
  function Kinds(lines: seq<string>): (ks: seq<LineKind>)
    ensures |ks| == |lines|
  {
    seq(|lines|, k requires 0 <= k < |lines| => Classify(lines[k]))
  }

  /** The rows still to come from lines of the given kinds when `open` is the row being built. */
  function Scan(kinds: seq<LineKind>, open: Option<RawRow>): seq<RawRow>
  {
    if |kinds| == 0 then Emit(open)
    else match kinds[0]
      case Ignored => Scan(kinds[1..], open)
      case Label(cells) => Emit(open) + Scan(kinds[1..], Some(RowOf(cells)))
      case Continuation(cells) => Scan(kinds[1..], if open.Some? then Some(Extend(open.value, cells)) else None)
  }

  function Lines(md: string): seq<string> {
    Split(NormalizeMarkdown(md), '\n')
  }

  /** What `markdownToRows` returns for `md`. */
  function MarkdownRows(md: string): seq<RawRow> {
    Scan(Kinds(Lines(md)), None)
  }

  /** The rows finished so far and the row being built, after some prefix of the lines. */
  datatype ScanState = ScanState(rows: seq<RawRow>, open: Option<RawRow>)

  /** The effect of one line on the scan. */
  function Step(st: ScanState, kind: LineKind): ScanState {
    match kind
    case Ignored => st
    case Label(cells) => ScanState(st.rows + Emit(st.open), Some(RowOf(cells)))
    case Continuation(cells) =>
      st.(open := if st.open.Some? then Some(Extend(st.open.value, cells)) else None)
  }

  /** The scan state after lines of the given kinds, read from the first. */
  function Fold(kinds: seq<LineKind>): ScanState {
    if |kinds| == 0 then ScanState([], None)
    else Step(Fold(kinds[..|kinds| - 1]), kinds[|kinds| - 1])
  }

  /**
   * Reading a prefix line by line and then scanning the rest gives the rows of
   * the whole: the loop's state is a faithful summary of the lines it has read.
   */
  lemma {:induction false} FoldThenScan(done: seq<LineKind>, rest: seq<LineKind>)
    ensures Fold(done).rows + Scan(rest, Fold(done).open) == Scan(done + rest, None)
  {
    if |done| == 0 {
      assert done + rest == rest;
    } else {
      var prev := done[..|done| - 1];
      var k := done[|done| - 1];
      assert done + rest == prev + ([k] + rest);
      FoldThenScan(prev, [k] + rest);
      assert ([k] + rest)[1..] == rest;
      var st := Fold(prev);
      match k
      case Ignored =>
      case Label(cells) =>
        assert st.rows + (Emit(st.open) + Scan(rest, Some(RowOf(cells)))) ==
               (st.rows + Emit(st.open)) + Scan(rest, Some(RowOf(cells)));
      case Continuation(cells) =>
    }
  }

  /** Reading line `i` adds its kind to those seen and one step to the fold. */
  lemma ReadOneMore(lines: seq<string>, i: nat, seen: seq<LineKind>)
    requires i < |lines| && seen == Kinds(lines[..i])
    ensures Kinds(lines[..i + 1]) == seen + [Classify(lines[i])]
    ensures Fold(seen + [Classify(lines[i])]) == Step(Fold(seen), Classify(lines[i]))
  {
    var kind := Classify(lines[i]);
    assert (seen + [kind])[..|seen|] == seen;
    assert Kinds(lines[..i + 1]) == seen + [kind];
  }

  method MarkdownToRows(md: string) returns (rows: seq<RawRow>)
    ensures rows == MarkdownRows(md)
  {
    var lines := Split(NormalizeMarkdown(md), '\n');
    rows := [];
    var current: Option<RawRow> := None;
    ghost var seen: seq<LineKind> := [];
    for i := 0 to |lines|
      invariant seen == Kinds(lines[..i])
      invariant ScanState(rows, current) == Fold(seen)
    {
      var raw := lines[i];
      ghost var kind := Classify(raw);
      ReadOneMore(lines, i, seen);
      seen := seen + [kind];
      if !IsTableLine(raw) {
        continue;
      }
      var cells := Cells(raw);
      var lot := Cell(cells, 1);
      var unit := Cell(cells, 2);
      if IsRowLabel(lot) {
        if current.Some? {
          rows := rows + [current.value];
        }
        current := Some(RawRow(lot, unit, Cell(cells, 3), Cell(cells, 4), Cell(cells, 5), Cell(cells, 6)));
        continue;
      }
      if current.Some? {
        var row := current.value;
        current := Some(row.(ownerCell := row.ownerCell + "\n" + Cell(cells, 3),
                             corrCell := row.corrCell + "\n" + Cell(cells, 4),
                             levyCell := row.levyCell + "\n" + Cell(cells, 5),
                             phoneCell := row.phoneCell + "\n" + Cell(cells, 6)));
      }
    }
    assert lines[..|lines|] == lines;
    FoldThenScan(seen, []);
    assert seen + [] == seen;
    if current.Some? {
      rows := rows + [current.value];
    }
  }

  // ---------------------------------------------------------------------------
  // What the extracted rows are

  /** The label and unit of a row: what continuation lines never change. */
  function Head(r: RawRow): (string, string) {
    (r.lotOrCrn, r.unit)
  }

  function Heads(rows: seq<RawRow>): seq<(string, string)> {
    if |rows| == 0 then [] else [Head(rows[0])] + Heads(rows[1..])
  }

  lemma {:induction false} HeadsAppend(a: seq<RawRow>, b: seq<RawRow>)
    ensures Heads(a + b) == Heads(a) + Heads(b)
  {
    if |a| > 0 {
      assert (a + b)[1..] == a[1..] + b;
      HeadsAppend(a[1..], b);
    } else {
      assert a + b == b;
    }
  }

  /** The label and unit cells of the label lines, in order. */
  function LabelHeads(kinds: seq<LineKind>): (hs: seq<(string, string)>)
    ensures |hs| <= |kinds|
  {
    if |kinds| == 0 then []
    else if kinds[0].Label? then
      [(Cell(kinds[0].cells, 1), Cell(kinds[0].cells, 2))] + LabelHeads(kinds[1..])
    else LabelHeads(kinds[1..])
  }

  lemma {:induction false} ScanHeads(kinds: seq<LineKind>, open: Option<RawRow>)
    ensures Heads(Scan(kinds, open)) == Heads(Emit(open)) + LabelHeads(kinds)
  {
    if |kinds| > 0 {
      match kinds[0]
      case Ignored =>
        ScanHeads(kinds[1..], open);
      case Label(cells) =>
        var next := Some(RowOf(cells));
        ScanHeads(kinds[1..], next);
        HeadsAppend(Emit(open), Scan(kinds[1..], next));
      case Continuation(cells) =>
        var next := if open.Some? then Some(Extend(open.value, cells)) else None;
        ScanHeads(kinds[1..], next);
        assert Heads(Emit(next)) == Heads(Emit(open));
    }
  }

  lemma {:induction false} HeadsLength(rows: seq<RawRow>)
    ensures |Heads(rows)| == |rows|
  {
    if |rows| > 0 { HeadsLength(rows[1..]); }
  }

  lemma {:induction false} ScanLabels(kinds: seq<LineKind>, open: Option<RawRow>)
    requires open.Some? ==> IsRowLabel(open.value.lotOrCrn)
    requires forall k :: 0 <= k < |kinds| && kinds[k].Label? ==> IsRowLabel(Cell(kinds[k].cells, 1))
    ensures forall r <- Scan(kinds, open) :: IsRowLabel(r.lotOrCrn)
  {
    if |kinds| > 0 {
      assert forall k :: 0 <= k < |kinds| - 1 ==> kinds[1..][k] == kinds[k + 1];
      match kinds[0]
      case Ignored =>
        ScanLabels(kinds[1..], open);
      case Label(cells) =>
        ScanLabels(kinds[1..], Some(RowOf(cells)));
      case Continuation(cells) =>
        ScanLabels(kinds[1..], if open.Some? then Some(Extend(open.value, cells)) else None);
    }
  }

  lemma LabelCellsAreLabels(lines: seq<string>)
    ensures forall k :: 0 <= k < |lines| && Kinds(lines)[k].Label? ==> IsRowLabel(Cell(Kinds(lines)[k].cells, 1))
  {
  }

  /**
   * One row per label line, in order, carrying that line's label and unit cells
   * unchanged (continuation lines touch only the four content cells); so there are
   * never more rows than lines of markdown, and every row's label is a lot label
   * or the marker.
   */
  lemma RowsFollowLabelLines(md: string)
    ensures Heads(MarkdownRows(md)) == LabelHeads(Kinds(Split(md, '\n')))
    ensures |MarkdownRows(md)| <= |Split(md, '\n')|
    ensures forall r <- MarkdownRows(md) :: IsRowLabel(r.lotOrCrn)
  {
    var kinds := Kinds(Lines(md));
    ScanHeads(kinds, None);
    HeadsLength(MarkdownRows(md));
    LabelCellsAreLabels(Lines(md));
    ScanLabels(kinds, None);
  }

  /**
   * Lines before the first label line contribute nothing, whatever they hold:
   * no row is open to take them.
   */
  lemma {:induction false} LinesBeforeFirstLabelDropped(pre: seq<LineKind>, rest: seq<LineKind>)
    requires forall k :: 0 <= k < |pre| ==> !pre[k].Label?
    ensures Scan(pre + rest, None) == Scan(rest, None)
  {
    if |pre| > 0 {
      assert (pre + rest)[0] == pre[0];
      assert (pre + rest)[1..] == pre[1..] + rest;
      assert forall k :: 0 <= k < |pre| - 1 ==> pre[1..][k] == pre[k + 1];
      LinesBeforeFirstLabelDropped(pre[1..], rest);
      assert !pre[0].Label?;
      assert Scan(pre + rest, None) == Scan(pre[1..] + rest, None);
    } else {
      assert pre + rest == rest;
    }
  }
}
