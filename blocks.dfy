/**
 * Row pairing (`groupRows` in app/lib/ai/postValidators.ts): each lot row is
 * paired with the marker row ("CRN") right after it, or with an empty marker
 * placeholder when there is none; a marker row with no lot row before it is
 * skipped.
 */
module Blocks {
  import opened Text
  import opened Rows

  /** A lot row and its marker row. */
  datatype OwnerBlock = OwnerBlock(first: RawRow, second: RawRow)

  /** The row's label, upper-cased, is "CRN": three characters, C, R and N in either case. */
  predicate IsMarker(r: RawRow) {
    var l := r.lotOrCrn;
    |l| == 3 && UpperChar(l[0]) == 'C' && UpperChar(l[1]) == 'R' && UpperChar(l[2]) == 'N'
  }

  /** The partner used for a lot row with no marker row after it. */
  const Placeholder := RawRow("CRN", "", "", "", "", "")

  /** The blocks `groupRows` builds from `rows`. */
  function Group(rows: seq<RawRow>): (blocks: seq<OwnerBlock>)
    ensures |blocks| <= |rows|
    decreases |rows|
  {
    if |rows| == 0 then []
    else if IsMarker(rows[0]) then Group(rows[1..])
    else if |rows| > 1 && IsMarker(rows[1]) then [OwnerBlock(rows[0], rows[1])] + Group(rows[2..])
    else [OwnerBlock(rows[0], Placeholder)] + Group(rows[1..])
  }

  method GroupRows(rows: seq<RawRow>) returns (blocks: seq<OwnerBlock>)
    ensures blocks == Group(rows)
  {
    blocks := [];
    var i := 0;
    while i < |rows|
      invariant i <= |rows|
      invariant blocks + Group(rows[i..]) == Group(rows)
      decreases |rows| - i
    {
      var first := rows[i];
      if IsMarker(first) {
        GroupSkip(rows, i);
        i := i + 1;
        continue;
      }
      var paired := i + 1 < |rows| && IsMarker(rows[i + 1]);
      var second := if paired then rows[i + 1] else Placeholder;
      var next := if paired then i + 2 else i + 1;
      GroupStep(rows, i, paired, blocks);
      blocks := blocks + [OwnerBlock(first, second)];
      i := next;
    }
    assert rows[|rows|..] == [];
  }

  /** A marker row at `i` adds no block. */
  lemma GroupSkip(rows: seq<RawRow>, i: nat)
    requires i < |rows| && IsMarker(rows[i])
    ensures Group(rows[i..]) == Group(rows[i + 1..])
  {
    assert rows[i..][1..] == rows[i + 1..];
  }

  /** A lot row at `i` adds one block, with the next row when it is a marker and the placeholder otherwise. */
  lemma GroupTake(rows: seq<RawRow>, i: nat, paired: bool)
    requires i < |rows| && !IsMarker(rows[i])
    requires paired == (i + 1 < |rows| && IsMarker(rows[i + 1]))
    ensures paired ==> Group(rows[i..]) == [OwnerBlock(rows[i], rows[i + 1])] + Group(rows[i + 2..])
    ensures !paired ==> Group(rows[i..]) == [OwnerBlock(rows[i], Placeholder)] + Group(rows[i + 1..])
  {
    if paired {
      assert rows[i..][2..] == rows[i + 2..];
    } else {
      assert rows[i..][1..] == rows[i + 1..];
    }
  }

  /** The loop's step at a lot row: its block is appended and the rest is grouped from after its partner. */
  lemma GroupStep(rows: seq<RawRow>, i: nat, paired: bool, blocks: seq<OwnerBlock>)
    requires i < |rows| && !IsMarker(rows[i])
    requires paired == (i + 1 < |rows| && IsMarker(rows[i + 1]))
    requires blocks + Group(rows[i..]) == Group(rows)
    ensures var next := if paired then i + 2 else i + 1;
      next <= |rows| &&
      (blocks + [OwnerBlock(rows[i], if paired then rows[i + 1] else Placeholder)]) + Group(rows[next..]) == Group(rows)
  {
    var next := if paired then i + 2 else i + 1;
    var block := OwnerBlock(rows[i], if paired then rows[i + 1] else Placeholder);
    GroupTake(rows, i, paired);
    assert (blocks + [block]) + Group(rows[next..]) == blocks + ([block] + Group(rows[next..]));
  }

  /** The rows that are not markers, in order. */
  function LotRows(rows: seq<RawRow>): (r: seq<RawRow>)
    ensures |r| <= |rows|
  {
    if |rows| == 0 then []
    else if IsMarker(rows[0]) then LotRows(rows[1..])
    else [rows[0]] + LotRows(rows[1..])
  }

  function Firsts(blocks: seq<OwnerBlock>): seq<RawRow> {
    seq(|blocks|, k requires 0 <= k < |blocks| => blocks[k].first)
  }

  /**
   * The blocks' lot rows are exactly the input's non-marker rows, in input
   * order: one block per lot row, none dropped, none repeated.
   */
  lemma {:induction false} GroupFirstsAreLotRows(rows: seq<RawRow>)
    ensures Firsts(Group(rows)) == LotRows(rows)
    ensures |Group(rows)| == |LotRows(rows)| <= |rows|
    decreases |rows|
  {
    if |rows| > 0 {
      if IsMarker(rows[0]) {
        GroupFirstsAreLotRows(rows[1..]);
      } else if |rows| > 1 && IsMarker(rows[1]) {
        GroupFirstsAreLotRows(rows[2..]);
        assert rows[1..][1..] == rows[2..];
        assert LotRows(rows[1..]) == LotRows(rows[2..]);
        assert Firsts(Group(rows)) == [rows[0]] + Firsts(Group(rows[2..]));
      } else {
        GroupFirstsAreLotRows(rows[1..]);
        assert Firsts(Group(rows)) == [rows[0]] + Firsts(Group(rows[1..]));
      }
    }
  }

  /**
   * Every block starts with a lot row and ends with a marker row, which is
   * either the placeholder or one of the input rows.
   */
  lemma {:induction false} GroupShape(rows: seq<RawRow>)
    ensures forall b <- Group(rows) ::
      !IsMarker(b.first) && b.first in rows &&
      IsMarker(b.second) && (b.second == Placeholder || b.second in rows)
    decreases |rows|
  {
    if |rows| > 0 {
      if IsMarker(rows[0]) {
        GroupShape(rows[1..]);
      } else if |rows| > 1 && IsMarker(rows[1]) {
        GroupShape(rows[2..]);
      } else {
        GroupShape(rows[1..]);
      }
    }
  }

  /** The partner of the lot row at `i`: the next row when it is a marker, else the placeholder. */
  function PartnerOf(rows: seq<RawRow>, i: nat): RawRow
    requires i < |rows|
  {
    if i + 1 < |rows| && IsMarker(rows[i + 1]) then rows[i + 1] else Placeholder
  }

  /**
   * The pairing at any position: the lot row at `i`, which is the `b`-th lot row,
   * makes the `b`-th block, partnered with the row right after it when that row
   * is a marker and with the placeholder otherwise.
   */
  lemma {:induction false} PairingAt(rows: seq<RawRow>, i: nat)
    requires i < |rows| && !IsMarker(rows[i])
    ensures var b := |LotRows(rows[..i])|;
      b < |Group(rows)| && Group(rows)[b] == OwnerBlock(rows[i], PartnerOf(rows, i))
    decreases |rows|
  {
    if i == 0 {
      assert rows[..0] == [];
    } else {
      var k := SkipLen(rows);
      SkipKeepsLot(rows, i);
      PairingAt(rows[k..], i - k);
      PairingShift(rows, i);
    }
  }

  /** How many rows `Group` consumes at the front: a marker, a lot row, or a lot row and its marker. */
  function SkipLen(rows: seq<RawRow>): (k: nat)
    requires |rows| > 0
    ensures 1 <= k <= 2 && k <= |rows|
  {
    if !IsMarker(rows[0]) && |rows| > 1 && IsMarker(rows[1]) then 2 else 1
  }

  /** A lot row after the front is still there once the front is consumed. */
  lemma SkipKeepsLot(rows: seq<RawRow>, i: nat)
    requires 0 < i < |rows| && !IsMarker(rows[i])
    ensures SkipLen(rows) <= i && rows[SkipLen(rows)..][i - SkipLen(rows)] == rows[i]
    ensures PartnerOf(rows[SkipLen(rows)..], i - SkipLen(rows)) == PartnerOf(rows, i)
  {
    var k := SkipLen(rows);
    if k == 2 { assert IsMarker(rows[1]); }
    var rest := rows[k..];
    if i + 1 < |rows| { assert rest[i - k + 1] == rows[i + 1]; }
  }

  /** The pairing at `i - SkipLen(rows)` in the rest is the pairing at `i` in the whole. */
  lemma PairingShift(rows: seq<RawRow>, i: nat)
    requires 0 < i < |rows| && !IsMarker(rows[i])
    requires SkipLen(rows) <= i
    requires var rest := rows[SkipLen(rows)..]; var b := |LotRows(rest[..i - SkipLen(rows)])|;
      b < |Group(rest)| && Group(rest)[b] == OwnerBlock(rows[i], PartnerOf(rows, i))
    ensures var b := |LotRows(rows[..i])|;
      b < |Group(rows)| && Group(rows)[b] == OwnerBlock(rows[i], PartnerOf(rows, i))
  {
    var k := SkipLen(rows);
    var rest := rows[k..];
    LotRowsSkip(rows, i, k);
    var head := if IsMarker(rows[0]) then [] else [OwnerBlock(rows[0], PartnerOf(rows, 0))];
    var b' := |LotRows(rest[..i - k])|;
    assert Group(rows) == head + Group(rest);
    assert |LotRows(rows[..i])| == |head| + b';
    assert (head + Group(rest))[|head| + b'] == Group(rest)[b'];
  }

  /** Skipping the first `k` rows (a marker, or a lot row and its marker) shifts the lot-row count as `Group` does. */
  lemma LotRowsSkip(rows: seq<RawRow>, i: nat, k: nat)
    requires 0 < k <= i < |rows|
    requires k == SkipLen(rows)
    ensures |LotRows(rows[..i])| == (if IsMarker(rows[0]) then 0 else 1) + |LotRows(rows[k..][..i - k])|
    ensures Group(rows) == (if IsMarker(rows[0]) then [] else [OwnerBlock(rows[0], PartnerOf(rows, 0))]) + Group(rows[k..])
  {
    var pre := rows[..i];
    assert pre[0] == rows[0];
    if k == 2 {
      assert pre[1..][0] == rows[1];
      assert pre[1..][1..] == rows[k..][..i - k];
    } else {
      assert pre[1..] == rows[k..][..i - k];
    }
  }

  /** Marker rows at the front, with no lot row before them, are skipped. */
  lemma {:induction false} StrayMarkersSkipped(strays: seq<RawRow>, rest: seq<RawRow>)
    requires forall r <- strays :: IsMarker(r)
    ensures Group(strays + rest) == Group(rest)
    decreases |strays|
  {
    if |strays| > 0 {
      assert strays[0] in strays;
      assert (strays + rest)[1..] == strays[1..] + rest;
      StrayMarkersSkipped(strays[1..], rest);
    } else {
      assert strays + rest == rest;
    }
  }
}
