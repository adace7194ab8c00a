/**
  * The connectivity test of the current board (`is_connected`): a two-pass labelling of the
  * cells holding one colour. The first pass scans the board row by row and gives each such
  * cell a label from four earlier neighbours (left, upper-left, upper-right, upper): a fresh
  * label when all four are 0, the first distinct non-zero neighbour label otherwise, and
  * when the neighbours disagree it records one equivalence, of the left label with the
  * upper-left one. The second pass replaces each label by the least of itself and its
  * recorded equivalents and keeps the greatest result. The colour counts as connected when
  * that greatest label is 1.
  *
  * The test is modelled as written. It resolves no chains of equivalences and records only
  * the left/upper-left pair, so it can call a connected group split (`VShapeSplit`).
  */
module Labelling {
  import opened Geometry

  /** A label per cell, row by row. */
  type Labels = seq<seq<int>>

  predicate LabelGrid(l: Labels) {
    |l| == 8 && forall i | 0 <= i < 8 :: |l[i]| == 8
  }

  const NoRow: seq<int> := [0, 0, 0, 0, 0, 0, 0, 0]

  const NoLabels: Labels := [NoRow, NoRow, NoRow, NoRow, NoRow, NoRow, NoRow, NoRow]

  /** The first pass so far: the labels, the last label handed out (`cur_label`), the recorded equivalences. */
  datatype Pass = Pass(labels: Labels, cur: int, equiv: map<int, seq<int>>)

  const StartPass: Pass := Pass(NoLabels, 0, map[])

  function Relabel(l: Labels, i: int, j: int, v: int): (r: Labels)
    requires LabelGrid(l) && 0 <= i < 8 && 0 <= j < 8
    ensures LabelGrid(r)
  {
    l[i := l[i][j := v]]
  }

  /** `[left, lefttop, righttop, top]` of cell `(i, j)`, 0 beyond the edges of the board. */
  function NeighbourLabels(l: Labels, i: int, j: int): (r: seq<int>)
    requires LabelGrid(l) && 0 <= i < 8 && 0 <= j < 8
    ensures |r| == 4
  {
    [if j == 0 then 0 else l[i][j - 1],
     if j == 0 || i == 0 then 0 else l[i - 1][j - 1],
     if i == 0 || j == 7 then 0 else l[i - 1][j + 1],
     if i == 0 then 0 else l[i - 1][j]]
  }

  /** How many of the first `k` labels are 0 (`len(zeros)` after `k` rounds). */
  function ZerosIn(four: seq<int>, k: nat): nat
    requires k <= |four|
  {
    if k == 0 then 0 else ZerosIn(four, k - 1) + (if four[k - 1] == 0 then 1 else 0)
  }

  /** The distinct non-zero labels among the first `k`, in order of first appearance (`non_zeros`). */
  function NonZerosIn(four: seq<int>, k: nat): seq<int>
    requires k <= |four|
  {
    if k == 0 then []
    else
      var nz := NonZerosIn(four, k - 1);
      if four[k - 1] == 0 || four[k - 1] in nz then nz else nz + [four[k - 1]]
  }

  /**
    * `non_zeros` holds exactly the non-zero labels seen, each once, and it is empty exactly
    * when every label seen was 0.
    */
  lemma {:induction false} NonZerosFacts(four: seq<int>, k: nat)
    requires k <= |four|
    ensures forall x :: x in NonZerosIn(four, k) <==> x != 0 && x in four[..k]
    ensures forall a, b | 0 <= a < b < |NonZerosIn(four, k)| :: NonZerosIn(four, k)[a] != NonZerosIn(four, k)[b]
    ensures ZerosIn(four, k) <= k
    ensures NonZerosIn(four, k) == [] <==> ZerosIn(four, k) == k
  {
    if k > 0 {
      NonZerosFacts(four, k - 1);
      assert four[..k] == four[..k - 1] + [four[k - 1]];
    }
  }

  /** `equiv_labels[key].append(v)`, or a new list `[v]` when `key` is not yet recorded. */
  function Record(equiv: map<int, seq<int>>, key: int, v: int): map<int, seq<int>> {
    if key in equiv then equiv[key := equiv[key] + [v]] else equiv[key := [v]]
  }

  /** The first pass at a cell holding the colour. */
  function LabelCell(st: Pass, i: int, j: int): (r: Pass)
    requires LabelGrid(st.labels) && 0 <= i < 8 && 0 <= j < 8
    ensures LabelGrid(r.labels)
  {
    var four := NeighbourLabels(st.labels, i, j);
    var nz := NonZerosIn(four, 4);
    NonZerosFacts(four, 4);
    if ZerosIn(four, 4) == 4 then Pass(Relabel(st.labels, i, j, st.cur + 1), st.cur + 1, st.equiv)
    else if |nz| == 1 then Pass(Relabel(st.labels, i, j, nz[0]), st.cur, st.equiv)
    else Pass(Relabel(st.labels, i, j, nz[0]), st.cur, Record(st.equiv, four[0], four[1]))
  }

  /** The first pass up to scan point `(i, j)`. */
  function FirstPassUpTo(g: Grid, color: Color, i: int, j: int): (r: Pass)
    requires WellFormed(g) && ScanPoint(i, j)
    ensures LabelGrid(r.labels)
    decreases i, j
  {
    if j > 0 then
      if At(g, Pos(i, j - 1)) == color then LabelCell(FirstPassUpTo(g, color, i, j - 1), i, j - 1)
      else FirstPassUpTo(g, color, i, j - 1)
    else if i > 0 then FirstPassUpTo(g, color, i - 1, 8)
    else StartPass
  }

  /** The least of `x` and the labels of `s` (`min(x, *s)`). */
  function LeastOf(x: int, s: seq<int>): (r: int)
    ensures r <= x && forall y | y in s :: r <= y
    ensures r == x || r in s
  {
    if s == [] then x
    else
      var m := LeastOf(x, s[1..]);
      assert forall y | y in s :: y == s[0] || y in s[1..];
      if s[0] < m then s[0] else m
  }

  /** A label after the second pass has consulted the recorded equivalences. */
  function Resolve(tag: int, equiv: map<int, seq<int>>): int {
    if tag in equiv then LeastOf(tag, equiv[tag]) else tag
  }

  /** The greatest resolved label of the second pass up to scan point `(i, j)` (`max_label`). */
  function MaxUpTo(g: Grid, color: Color, st: Pass, i: int, j: int): int
    requires WellFormed(g) && LabelGrid(st.labels) && ScanPoint(i, j)
    decreases i, j
  {
    if j > 0 then
      var m := MaxUpTo(g, color, st, i, j - 1);
      if At(g, Pos(i, j - 1)) == color then
        var v := Resolve(st.labels[i][j - 1], st.equiv);
        if v > m then v else m
      else m
    else if i > 0 then MaxUpTo(g, color, st, i - 1, 8)
    else 0
  }

  /** `is_connected()` for the pieces of `color`. */
  predicate Connected(g: Grid, color: Color)
    requires WellFormed(g)
  {
    MaxUpTo(g, color, FirstPassUpTo(g, color, 8, 0), 8, 0) == 1
  }

  // ---------------------------------------------------------------------------
  // The two passes, as the Python loops compute them.

  /** The loop over the four neighbour labels that sorts them into zeros and distinct non-zeros. */
  method SortNeighbours(four: seq<int>) returns (zeros: nat, nonZeros: seq<int>)
    requires |four| == 4
    ensures zeros == ZerosIn(four, 4) && nonZeros == NonZerosIn(four, 4)
  {
    zeros, nonZeros := 0, [];
    for k := 0 to 4
      invariant zeros == ZerosIn(four, k) && nonZeros == NonZerosIn(four, k)
    {
      if four[k] == 0 {
        zeros := zeros + 1;
      } else if four[k] !in nonZeros {
        nonZeros := nonZeros + [four[k]];
      }
    }
  }

  /** One step of the first pass, at a cell holding the colour. */
  method LabelStep(st: Pass, i: int, j: int) returns (next: Pass)
    requires LabelGrid(st.labels) && 0 <= i < 8 && 0 <= j < 8
    ensures next == LabelCell(st, i, j)
  {
    var four := NeighbourLabels(st.labels, i, j);
    var zeros, nonZeros := SortNeighbours(four);
    NonZerosFacts(four, 4);
    if zeros == 4 {
      next := Pass(Relabel(st.labels, i, j, st.cur + 1), st.cur + 1, st.equiv);
    } else if |nonZeros| == 1 {
      next := Pass(Relabel(st.labels, i, j, nonZeros[0]), st.cur, st.equiv);
    } else {
      var equiv := st.equiv;
      if four[0] in equiv {
        equiv := equiv[four[0] := equiv[four[0]] + [four[1]]];
      } else {
        equiv := equiv[four[0] := [four[1]]];
      }
      next := Pass(Relabel(st.labels, i, j, nonZeros[0]), st.cur, equiv);
    }
  }

  method FirstPass(g: Grid, color: Color) returns (st: Pass)
    requires WellFormed(g)
    ensures st == FirstPassUpTo(g, color, 8, 0)
  {
    st := StartPass;
    for i := 0 to 8
      invariant st == FirstPassUpTo(g, color, i, 0)
    {
      for j := 0 to 8
        invariant st == FirstPassUpTo(g, color, i, j)
      {
        if g[i][j] == color {
          st := LabelStep(st, i, j);
        }
      }
      assert 8 * i + 8 == 8 * (i + 1);
    }
  }

  method SecondPass(g: Grid, color: Color, st: Pass) returns (maxLabel: int)
    requires WellFormed(g) && LabelGrid(st.labels)
    ensures maxLabel == MaxUpTo(g, color, st, 8, 0)
  {
    maxLabel := 0;
    for i := 0 to 8
      invariant maxLabel == MaxUpTo(g, color, st, i, 0)
    {
      for j := 0 to 8
        invariant maxLabel == MaxUpTo(g, color, st, i, j)
      {
        if g[i][j] == color {
          var tag := st.labels[i][j];
          if tag in st.equiv {
            tag := LeastOf(tag, st.equiv[tag]);
          }
          if tag > maxLabel {
            maxLabel := tag;
          }
        }
      }
    }
  }

  /** `is_connected()`: both passes. */
  method IsConnected(g: Grid, color: Color) returns (connected: bool)
    requires WellFormed(g)
    ensures connected == Connected(g, color)
  {
    var st := FirstPass(g, color);
    var maxLabel := SecondPass(g, color, st);
    connected := maxLabel == 1;
  }

  // ---------------------------------------------------------------------------
  // What the test reports.

  /** No cell with raster index in `[lo, hi)` holds `color`. */
  ghost predicate Absent(g: Grid, color: Color, lo: int, hi: int)
    requires WellFormed(g)
  {
    forall r, c | 0 <= r < 8 && 0 <= c < 8 && lo <= 8 * r + c < hi :: At(g, Pos(r, c)) != color
  }

  /** Scanning cells that do not hold the colour leaves the first pass as it was. */
  lemma {:induction false} SkipFirst(g: Grid, color: Color, i0: int, j0: int, i: int, j: int)
    requires WellFormed(g) && ScanPoint(i0, j0) && ScanPoint(i, j)
    requires 8 * i0 + j0 <= 8 * i + j && Absent(g, color, 8 * i0 + j0, 8 * i + j)
    ensures FirstPassUpTo(g, color, i, j) == FirstPassUpTo(g, color, i0, j0)
    decreases i, j
  {
    if i == i0 && j == j0 {
    } else if 8 * i + j == 8 * i0 + j0 {
      if j == 0 {
        SkipFirst(g, color, i0, j0, i - 1, 8);
      } else {
        assert i0 == i + 1 && j0 == 0;
      }
    } else if j > 0 {
      SkipFirst(g, color, i0, j0, i, j - 1);
      assert At(g, Pos(i, j - 1)) != color;
    } else {
      SkipFirst(g, color, i0, j0, i - 1, 8);
    }
  }

  /** Scanning cells that do not hold the colour leaves the greatest label as it was. */
  lemma {:induction false} SkipSecond(g: Grid, color: Color, st: Pass, i0: int, j0: int, i: int, j: int)
    requires WellFormed(g) && LabelGrid(st.labels) && ScanPoint(i0, j0) && ScanPoint(i, j)
    requires 8 * i0 + j0 <= 8 * i + j && Absent(g, color, 8 * i0 + j0, 8 * i + j)
    ensures MaxUpTo(g, color, st, i, j) == MaxUpTo(g, color, st, i0, j0)
    decreases i, j
  {
    if i == i0 && j == j0 {
    } else if 8 * i + j == 8 * i0 + j0 {
      if j == 0 {
        SkipSecond(g, color, st, i0, j0, i - 1, 8);
      } else {
        assert i0 == i + 1 && j0 == 0;
      }
    } else if j > 0 {
      SkipSecond(g, color, st, i0, j0, i, j - 1);
      assert At(g, Pos(i, j - 1)) != color;
    } else {
      SkipSecond(g, color, st, i0, j0, i - 1, 8);
    }
  }

  /** A colour without pieces is not connected: the greatest label stays 0. */
  lemma NoPiecesNotConnected(g: Grid, color: Color)
    requires WellFormed(g)
    requires forall p | InBoard(p) :: At(g, p) != color
    ensures !Connected(g, color)
  {
    SkipSecond(g, color, FirstPassUpTo(g, color, 8, 0), 0, 0, 8, 0);
  }

  /** A cell whose four neighbours are unlabelled gets the next fresh label. */
  lemma FreshLabel(st: Pass, i: int, j: int)
    requires LabelGrid(st.labels) && 0 <= i < 8 && 0 <= j < 8
    requires NeighbourLabels(st.labels, i, j) == [0, 0, 0, 0]
    ensures LabelCell(st, i, j) == Pass(Relabel(st.labels, i, j, st.cur + 1), st.cur + 1, st.equiv)
  {
    var four := NeighbourLabels(st.labels, i, j);
    assert ZerosIn(four, 1) == 1 && ZerosIn(four, 2) == 2 && ZerosIn(four, 3) == 3;
  }

  lemma NoNeighbourLabels(i: int, j: int)
    requires 0 <= i < 8 && 0 <= j < 8
    ensures NeighbourLabels(NoLabels, i, j) == [0, 0, 0, 0]
  {
    assert forall a, b | 0 <= a < 8 && 0 <= b < 8 :: NoLabels[a][b] == 0;
  }

  /** Away from the only piece of the colour, nothing holds the colour. */
  lemma AbsentAround(g: Grid, color: Color, p: Pos, lo: int, hi: int)
    requires WellFormed(g) && InBoard(p)
    requires forall q | InBoard(q) && q != p :: At(g, q) != color
    requires hi <= 8 * p.row + p.col || 8 * p.row + p.col < lo
    ensures Absent(g, color, lo, hi)
  {
  }

  /** The first pass over a single piece labels it 1 and records nothing. */
  lemma SinglePieceLabel(g: Grid, color: Color, p: Pos)
    requires WellFormed(g) && InBoard(p) && At(g, p) == color
    requires forall q | InBoard(q) && q != p :: At(g, q) != color
    ensures FirstPassUpTo(g, color, 8, 0) == Pass(Relabel(NoLabels, p.row, p.col, 1), 1, map[])
  {
    var i, j := p.row, p.col;
    AbsentAround(g, color, p, 0, 8 * i + j);
    SkipFirst(g, color, 0, 0, i, j);
    var before := FirstPassUpTo(g, color, i, j);
    assert before == StartPass;
    NoNeighbourLabels(i, j);
    FreshLabel(before, i, j);
    assert FirstPassUpTo(g, color, i, j + 1) == LabelCell(before, i, j);
    AbsentAround(g, color, p, 8 * i + j + 1, 64);
    SkipFirst(g, color, i, j + 1, 8, 0);
  }

  /** A single piece is connected: it gets label 1 and nothing else is labelled. */
  lemma SinglePieceConnected(g: Grid, color: Color, p: Pos)
    requires WellFormed(g) && InBoard(p) && At(g, p) == color
    requires forall q | InBoard(q) && q != p :: At(g, q) != color
    ensures Connected(g, color)
  {
    var i, j := p.row, p.col;
    SinglePieceLabel(g, color, p);
    var st := FirstPassUpTo(g, color, 8, 0);
    assert st.labels[i][j] == 1 && st.equiv == map[];
    SkipSecond(g, color, st, 0, 0, i, j);
    assert MaxUpTo(g, color, st, i, j + 1) == 1;
    SkipSecond(g, color, st, i, j + 1, 8, 0);
  }

  /** Pieces on (0, 0), (0, 2) and (1, 1): one group, joined through (1, 1). */
  const VShape: Grid := seq(8, i => seq(8, j => if (i == 0 && (j == 0 || j == 2)) || (i == 1 && j == 1) then 1 else 0))

  lemma VShapeCells()
    ensures WellFormed(VShape)
    ensures forall r, c | 0 <= r < 8 && 0 <= c < 8 ::
      At(VShape, Pos(r, c)) == if (r == 0 && (c == 0 || c == 2)) || (r == 1 && c == 1) then 1 else 0
  {
  }

  /**
    * The labelling calls the V shape split: (0, 0) and (0, 2) get labels 1 and 2, (1, 1)
    * records the equivalence of its left label 0 with its upper-left label 1, and label 2
    * survives the second pass.
    */
  lemma VShapeSplit()
    ensures WellFormed(VShape)
    ensures !Connected(VShape, Black)
  {
    VShapeCells();
    var g := VShape;
    var s1 := FirstPassUpTo(g, Black, 0, 1);
    assert s1 == Pass(Relabel(NoLabels, 0, 0, 1), 1, map[]) by {
      assert NeighbourLabels(NoLabels, 0, 0) == [0, 0, 0, 0];
      FreshLabel(StartPass, 0, 0);
    }
    var s2 := FirstPassUpTo(g, Black, 0, 3);
    assert s2 == Pass(Relabel(s1.labels, 0, 2, 2), 2, map[]) by {
      assert FirstPassUpTo(g, Black, 0, 2) == s1;
      assert NeighbourLabels(s1.labels, 0, 2) == [0, 0, 0, 0];
      FreshLabel(s1, 0, 2);
    }
    SkipFirst(g, Black, 0, 3, 1, 1);
    var s3 := FirstPassUpTo(g, Black, 1, 2);
    var four := NeighbourLabels(s2.labels, 1, 1);
    assert four == [0, 1, 2, 0];
    assert ZerosIn(four, 1) == 1 && ZerosIn(four, 2) == 1 && ZerosIn(four, 3) == 1 && ZerosIn(four, 4) == 2;
    assert NonZerosIn(four, 1) == [];
    assert NonZerosIn(four, 2) == [1];
    assert NonZerosIn(four, 3) == [1, 2];
    assert NonZerosIn(four, 4) == [1, 2];
    assert s3 == Pass(Relabel(s2.labels, 1, 1, 1), 2, map[0 := [1]]);
    SkipFirst(g, Black, 1, 2, 8, 0);
    var st := FirstPassUpTo(g, Black, 8, 0);
    assert st == s3;
    assert st.labels[0][2] == 2 && 2 !in st.equiv;
    assert MaxUpTo(g, Black, st, 0, 3) >= 2;
    MaxGrows(g, Black, st, 0, 3, 8, 0);
  }

  /** Pieces on (0, 0), (1, 1) and (2, 2): a diagonal run. */
  const DiagonalRun: Grid := seq(8, i => seq(8, j => if i == j && i < 3 then 1 else 0))

  /** Pieces on (0, 0) and (2, 2): the run with its middle piece taken away. */
  const DiagonalGap: Grid := seq(8, i => seq(8, j => if i == j && (i == 0 || i == 2) then 1 else 0))

  lemma DiagonalCells()
    ensures WellFormed(DiagonalRun) && WellFormed(DiagonalGap)
    ensures forall r, c | 0 <= r < 8 && 0 <= c < 8 ::
      At(DiagonalRun, Pos(r, c)) == if r == c && r < 3 then 1 else 0
    ensures forall r, c | 0 <= r < 8 && 0 <= c < 8 ::
      At(DiagonalGap, Pos(r, c)) == if r == c && (r == 0 || r == 2) then 1 else 0
  {
  }

  /** A cell whose only labelled neighbour is its upper-left one takes that label and records nothing. */
  lemma UpperLeftLabel(st: Pass, i: int, j: int)
    requires LabelGrid(st.labels) && 0 < i < 8 && 0 < j < 8
    requires NeighbourLabels(st.labels, i, j) == [0, st.labels[i - 1][j - 1], 0, 0]
    requires st.labels[i - 1][j - 1] != 0
    ensures LabelCell(st, i, j) == Pass(Relabel(st.labels, i, j, st.labels[i - 1][j - 1]), st.cur, st.equiv)
  {
    var four := NeighbourLabels(st.labels, i, j);
    var v := st.labels[i - 1][j - 1];
    assert NonZerosIn(four, 1) == [] && NonZerosIn(four, 2) == [v] && NonZerosIn(four, 3) == [v];
    assert NonZerosIn(four, 4) == [v];
    assert ZerosIn(four, 1) == 1 && ZerosIn(four, 2) == 1 && ZerosIn(four, 3) == 2 && ZerosIn(four, 4) == 3;
  }

  /** The diagonal run is one group: every piece takes label 1 from its upper-left neighbour. */
  lemma DiagonalRunConnected()
    ensures WellFormed(DiagonalRun)
    ensures Connected(DiagonalRun, Black)
  {
    DiagonalCells();
    var g := DiagonalRun;
    var s1 := FirstPassUpTo(g, Black, 0, 1);
    assert s1 == Pass(Relabel(NoLabels, 0, 0, 1), 1, map[]) by {
      assert NeighbourLabels(NoLabels, 0, 0) == [0, 0, 0, 0];
      FreshLabel(StartPass, 0, 0);
    }
    SkipFirst(g, Black, 0, 1, 1, 1);
    UpperLeftLabel(s1, 1, 1);
    var s2 := FirstPassUpTo(g, Black, 1, 2);
    assert s2 == Pass(Relabel(s1.labels, 1, 1, 1), 1, map[]);
    SkipFirst(g, Black, 1, 2, 2, 2);
    UpperLeftLabel(s2, 2, 2);
    var s3 := FirstPassUpTo(g, Black, 2, 3);
    assert s3 == Pass(Relabel(s2.labels, 2, 2, 1), 1, map[]);
    SkipFirst(g, Black, 2, 3, 8, 0);
    var st := FirstPassUpTo(g, Black, 8, 0);
    assert st == s3;
    assert st.labels[0][0] == 1 && st.labels[1][1] == 1 && st.labels[2][2] == 1 && st.equiv == map[];
    assert MaxUpTo(g, Black, st, 0, 1) == 1;
    SkipSecond(g, Black, st, 0, 1, 1, 1);
    assert MaxUpTo(g, Black, st, 1, 2) == 1;
    SkipSecond(g, Black, st, 1, 2, 2, 2);
    assert MaxUpTo(g, Black, st, 2, 3) == 1;
    SkipSecond(g, Black, st, 2, 3, 8, 0);
  }

  /** Without its middle piece the run falls apart: (2, 2) has no labelled neighbour and gets label 2. */
  lemma DiagonalGapSplit()
    ensures WellFormed(DiagonalGap)
    ensures !Connected(DiagonalGap, Black)
  {
    DiagonalCells();
    var g := DiagonalGap;
    var s1 := FirstPassUpTo(g, Black, 0, 1);
    assert s1 == Pass(Relabel(NoLabels, 0, 0, 1), 1, map[]) by {
      assert NeighbourLabels(NoLabels, 0, 0) == [0, 0, 0, 0];
      FreshLabel(StartPass, 0, 0);
    }
    SkipFirst(g, Black, 0, 1, 2, 2);
    assert NeighbourLabels(s1.labels, 2, 2) == [0, 0, 0, 0];
    FreshLabel(s1, 2, 2);
    var s2 := FirstPassUpTo(g, Black, 2, 3);
    assert s2 == Pass(Relabel(s1.labels, 2, 2, 2), 2, map[]);
    SkipFirst(g, Black, 2, 3, 8, 0);
    var st := FirstPassUpTo(g, Black, 8, 0);
    assert st == s2;
    assert st.labels[2][2] == 2 && st.equiv == map[];
    assert MaxUpTo(g, Black, st, 2, 3) >= 2;
    MaxGrows(g, Black, st, 2, 3, 8, 0);
  }

  /** The greatest label never decreases as the second pass goes on. */
  lemma {:induction false} MaxGrows(g: Grid, color: Color, st: Pass, i0: int, j0: int, i: int, j: int)
    requires WellFormed(g) && LabelGrid(st.labels) && ScanPoint(i0, j0) && ScanPoint(i, j)
    requires 8 * i0 + j0 <= 8 * i + j
    ensures MaxUpTo(g, color, st, i0, j0) <= MaxUpTo(g, color, st, i, j)
    decreases i, j
  {
    if i == i0 && j == j0 {
    } else if 8 * i + j == 8 * i0 + j0 {
      if j == 0 {
        MaxGrows(g, color, st, i0, j0, i - 1, 8);
      } else {
        assert i0 == i + 1 && j0 == 0;
      }
    } else if j > 0 {
      MaxGrows(g, color, st, i0, j0, i, j - 1);
    } else {
      MaxGrows(g, color, st, i0, j0, i - 1, 8);
    }
  }
}
