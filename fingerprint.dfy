/**
  * The board fingerprint (`hash_state`): the decimal text of every cell, row by row, run
  * together. Cells hold -1, 0 or 1, so the text is over `-`, `0` and `1`, and a `-` is
  * always followed by `1`; this is what makes the fingerprint decodable and so injective.
  */
module Fingerprint {
  import opened Options
  import opened Geometry

  /** `str(v)` for a cell value. */
  function CellText(v: int): string
    requires -1 <= v <= 1
  {
    if v == -1 then "-1" else if v == 0 then "0" else "1"
  }

  predicate CellValues(cs: seq<int>) {
    forall k | 0 <= k < |cs| :: -1 <= cs[k] <= 1
  }

  /** The text of a run of cells. */
  function EncodeCells(cs: seq<int>): string
    requires CellValues(cs)
  {
    if cs == [] then "" else CellText(cs[0]) + EncodeCells(cs[1..])
  }

  /** The cells of `g` in scan order, up to scan point `(i, j)`. */
  function CellsUpTo(g: Grid, i: int, j: int): (r: seq<int>)
    requires WellFormed(g) && ScanPoint(i, j)
    ensures CellValues(r)
    decreases i, j
  {
    if j > 0 then CellsUpTo(g, i, j - 1) + [g[i][j - 1]]
    else if i > 0 then CellsUpTo(g, i - 1, 8)
    else []
  }

  function Cells(g: Grid): seq<int>
    requires WellFormed(g)
  {
    CellsUpTo(g, 8, 0)
  }

  /** The fingerprint of a grid. */
  function Encode(g: Grid): string
    requires WellFormed(g)
  {
    EncodeCells(Cells(g))
  }

  /** Reads a fingerprint back into cell values; `None` for text no grid produces. */
  function Decode(s: string): Option<seq<int>>
    decreases |s|
  {
    if s == [] then Some([])
    else
      var rest := if s[0] == '-' && |s| >= 2 && s[1] == '1' then s[2..] else s[1..];
      var v := if s[0] == '-' then -1 else if s[0] == '0' then 0 else 1;
      if !(s[0] == '0' || s[0] == '1' || (s[0] == '-' && |s| >= 2 && s[1] == '1')) then None
      else
        match Decode(rest)
        case None => None
        case Some(cs) => Some([v] + cs)
  }

  // ---------------------------------------------------------------------------

  lemma {:induction false} EncodeSnoc(cs: seq<int>, v: int)
    requires CellValues(cs) && -1 <= v <= 1
    ensures CellValues(cs + [v])
    ensures EncodeCells(cs + [v]) == EncodeCells(cs) + CellText(v)
  {
    if cs != [] {
      assert (cs + [v])[1..] == cs[1..] + [v];
      EncodeSnoc(cs[1..], v);
    }
  }

  /** Decoding undoes encoding. */
  lemma {:induction false} DecodeEncode(cs: seq<int>)
    requires CellValues(cs)
    ensures Decode(EncodeCells(cs)) == Some(cs)
  {
    if cs != [] {
      DecodeEncode(cs[1..]);
      var s := EncodeCells(cs);
      assert s == CellText(cs[0]) + EncodeCells(cs[1..]);
      if cs[0] == -1 {
        assert s[2..] == EncodeCells(cs[1..]);
      } else {
        assert s[1..] == EncodeCells(cs[1..]);
      }
      assert [cs[0]] + cs[1..] == cs;
    }
  }

  /** `t` lists the first `n` cells of `g` in scan order. */
  predicate Placed(g: Grid, t: seq<int>, n: int)
    requires WellFormed(g)
  {
    |t| == n && forall r, c | 0 <= r < 8 && 0 <= c < 8 && 8 * r + c < n :: t[8 * r + c] == g[r][c]
  }

  lemma PlacedSnoc(g: Grid, t: seq<int>, i: int, j: int)
    requires WellFormed(g) && 0 <= i < 8 && 0 <= j < 8
    requires Placed(g, t, 8 * i + j)
    ensures Placed(g, t + [g[i][j]], 8 * i + j + 1)
  {
    var t' := t + [g[i][j]];
    forall r, c | 0 <= r < 8 && 0 <= c < 8 && 8 * r + c < 8 * i + j + 1
      ensures t'[8 * r + c] == g[r][c]
    {
      if 8 * r + c == 8 * i + j {
        assert r == i && c == j;
      }
    }
  }

  /** Cell `(r, c)` sits at position `8 * r + c` of the scan. */
  lemma {:induction false} CellsAt(g: Grid, i: int, j: int)
    requires WellFormed(g) && ScanPoint(i, j)
    ensures Placed(g, CellsUpTo(g, i, j), 8 * i + j)
    decreases i, j
  {
    if j > 0 {
      CellsAt(g, i, j - 1);
      PlacedSnoc(g, CellsUpTo(g, i, j - 1), i, j - 1);
    } else if i > 0 {
      CellsAt(g, i - 1, 8);
    }
  }

  /** Two grids with the same fingerprint are the same grid. */
  lemma FingerprintInjective(g: Grid, h: Grid)
    requires WellFormed(g) && WellFormed(h)
    requires Encode(g) == Encode(h)
    ensures g == h
  {
    DecodeEncode(Cells(g));
    DecodeEncode(Cells(h));
    CellsAt(g, 8, 0);
    CellsAt(h, 8, 0);
    forall r, c | 0 <= r < 8 && 0 <= c < 8
      ensures g[r][c] == h[r][c]
    {
      assert Cells(g)[8 * r + c] == Cells(h)[8 * r + c];
    }
    GridExtensionality(g, h);
  }

  /** `hash_state()`: the loops over rows and columns appending each cell's text. */
  method HashGrid(g: Grid) returns (text: string)
    requires WellFormed(g)
    ensures text == Encode(g)
    ensures Decode(text) == Some(Cells(g))
  {
    text := "";
    for row := 0 to 8
      invariant text == EncodeCells(CellsUpTo(g, row, 0))
    {
      for col := 0 to 8
        invariant text == EncodeCells(CellsUpTo(g, row, col))
      {
        EncodeSnoc(CellsUpTo(g, row, col), g[row][col]);
        text := text + CellText(g[row][col]);
      }
    }
    DecodeEncode(Cells(g));
  }
}
