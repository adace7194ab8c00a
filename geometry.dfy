/**
  * The 8×8 board shared by both board variants: colours, positions, the cell matrix,
  * the four kinds of lines and the occupancy counters kept for them.
  *
  * Cells hold 0 (empty), 1 (Black) or -1 (White), exactly as in the Python matrix.
  */
module Geometry {

  /** A side: Black is 1 and White is -1, so the opponent of `c` is `-c`. */
  type Color = c: int | c == 1 || c == -1 witness 1

  const Black: Color := 1
  const White: Color := -1

  /** The other side, `-color`. */
  function Opponent(c: Color): Color {
    if c == Black then White else Black
  }

  datatype Pos = Pos(row: int, col: int)

  predicate InBoard(p: Pos) {
    0 <= p.row < 8 && 0 <= p.col < 8
  }

  /** The cell matrix, row by row. */
  type Grid = seq<seq<int>>

  predicate WellFormed(g: Grid) {
    |g| == 8 &&
    (forall i | 0 <= i < 8 :: |g[i]| == 8) &&
    (forall i, j | 0 <= i < 8 && 0 <= j < 8 :: -1 <= g[i][j] <= 1)
  }

  function At(g: Grid, p: Pos): int
    requires WellFormed(g) && InBoard(p)
  {
    g[p.row][p.col]
  }

  /** `matrix[row][col] = v`. */
  function Put(g: Grid, p: Pos, v: int): (r: Grid)
    requires WellFormed(g) && InBoard(p) && -1 <= v <= 1
    ensures WellFormed(r)
    ensures forall q | InBoard(q) :: At(r, q) == if q == p then v else At(g, q)
  {
    g[p.row := g[p.row][p.col := v]]
  }

  /** Two well-formed grids that agree on every cell are equal. */
  lemma GridExtensionality(g: Grid, h: Grid)
    requires WellFormed(g) && WellFormed(h)
    requires forall p | InBoard(p) :: At(g, p) == At(h, p)
    ensures g == h
  {
    forall i | 0 <= i < 8
      ensures g[i] == h[i]
    {
      forall j | 0 <= j < 8
        ensures g[i][j] == h[i][j]
      {
        assert At(g, Pos(i, j)) == At(h, Pos(i, j));
      }
    }
  }

  // ---------------------------------------------------------------------------
  // Raster order: cell k of the row-major scan is (k / 8, k % 8).

  function RasterPos(k: int): Pos {
    Pos(k / 8, k % 8)
  }

  function RasterIndex(p: Pos): int {
    p.row * 8 + p.col
  }

  /** A point of the raster scan: before cell `(i, j)` of the board, or at the end. */
  predicate ScanPoint(i: int, j: int) {
    (0 <= i < 8 && 0 <= j <= 8) || (i == 8 && j == 0)
  }

  lemma RasterRoundTrip(k: int, p: Pos)
    ensures 0 <= k < 64 ==> InBoard(RasterPos(k)) && RasterIndex(RasterPos(k)) == k
    ensures InBoard(p) ==> 0 <= RasterIndex(p) < 64 && RasterPos(RasterIndex(p)) == p
    ensures InBoard(p) && 0 <= k < 64 ==> (RasterPos(k) == p <==> k == RasterIndex(p))
  {
  }

  // ---------------------------------------------------------------------------
  // Lines and counting.

  /**
    * A row, a column, a main diagonal or an anti-diagonal. Diagonals are numbered as the
    * Python counter lists index them: `col - row` and `7 - col - row`, which range over
    * -7..7 and reach the 15-element lists through Python's negative indexing.
    */
  datatype Line = Row(r: int) | Col(c: int) | Main(m: int) | Anti(a: int)

  /** Python's list indexing: a negative index `x` (down to `-len`) means `len + x`. */
  function PyIndex(x: int, len: int): int {
    if x < 0 then len + x else x
  }

  /** The slot of `maindiag_checkers` read and written for cell `p`, from the value `col - row`. */
  function MainIndex(p: Pos): int {
    PyIndex(p.col - p.row, 15)
  }

  /** The slot of `paradiag_checkers` read and written for cell `p`, from the value `7 - col - row`. */
  function AntiIndex(p: Pos): int {
    PyIndex(7 - p.col - p.row, 15)
  }

  predicate OnLine(l: Line, p: Pos) {
    match l
    case Row(r) => p.row == r
    case Col(c) => p.col == c
    case Main(m) => MainIndex(p) == m
    case Anti(a) => AntiIndex(p) == a
  }

  /** What a count counts: the pieces on a line, or the cells holding a value. */
  datatype Selector = NonEmptyOn(line: Line) | Holding(value: int)

  predicate Selects(s: Selector, p: Pos, x: int) {
    match s
    case NonEmptyOn(l) => x != 0 && OnLine(l, p)
    case Holding(v) => x == v
  }

  /** The number of the first `n` cells in raster order that `s` selects. */
  function CountUpTo(g: Grid, s: Selector, n: nat): nat
    requires WellFormed(g) && n <= 64
  {
    if n == 0 then 0
    else
      CountUpTo(g, s, n - 1) + (if Selects(s, RasterPos(n - 1), At(g, RasterPos(n - 1))) then 1 else 0)
  }

  /** The number of pieces, of either colour, on line `l`. */
  function Occupancy(g: Grid, l: Line): nat
    requires WellFormed(g)
  {
    CountUpTo(g, NonEmptyOn(l), 64)
  }

  /** The number of cells holding `v`. */
  function PieceCount(g: Grid, v: int): nat
    requires WellFormed(g)
  {
    CountUpTo(g, Holding(v), 64)
  }

  /** Writing `v` into cell `p` changes the number of cells holding `c` by what `p` held and now holds. */
  lemma PieceCountAfterPut(g: Grid, p: Pos, v: int, c: int)
    requires WellFormed(g) && InBoard(p) && -1 <= v <= 1
    ensures PieceCount(Put(g, p, v), c)
         == PieceCount(g, c) - (if At(g, p) == c then 1 else 0) + (if v == c then 1 else 0)
  {
    CountAfterPut(g, Holding(c), p, v, 64);
  }

  /** Writing one cell changes every count by what the old and the new value contribute there. */
  lemma {:induction false} CountAfterPut(g: Grid, s: Selector, p: Pos, v: int, n: nat)
    requires WellFormed(g) && InBoard(p) && -1 <= v <= 1 && n <= 64
    ensures CountUpTo(Put(g, p, v), s, n)
         == CountUpTo(g, s, n)
          - (if RasterIndex(p) < n && Selects(s, p, At(g, p)) then 1 else 0)
          + (if RasterIndex(p) < n && Selects(s, p, v) then 1 else 0)
  {
    if n > 0 {
      CountAfterPut(g, s, p, v, n - 1);
      RasterRoundTrip(n - 1, p);
    }
  }

  /** A selected cell makes the count positive. */
  lemma {:induction false} CountPositive(g: Grid, s: Selector, p: Pos, n: nat)
    requires WellFormed(g) && InBoard(p) && n <= 64
    requires RasterIndex(p) < n && Selects(s, p, At(g, p))
    ensures CountUpTo(g, s, n) >= 1
  {
    RasterRoundTrip(n - 1, p);
    if RasterIndex(p) < n - 1 {
      CountPositive(g, s, p, n - 1);
    }
  }

  /** No cell selected among the first `n` cells is the same as a zero count. */
  lemma {:induction false} CountZero(g: Grid, s: Selector, n: nat)
    requires WellFormed(g) && n <= 64
    ensures CountUpTo(g, s, n) == 0
        <==> forall k | 0 <= k < n :: !Selects(s, RasterPos(k), At(g, RasterPos(k)))
  {
    if n > 0 {
      CountZero(g, s, n - 1);
    }
  }

  /** Whether cell `p` adds one to a count. */
  function Tally(g: Grid, s: Selector, p: Pos): nat
    requires WellFormed(g) && InBoard(p)
  {
    if Selects(s, p, At(g, p)) then 1 else 0
  }

  /** The contribution of row `r` to a count, written out cell by cell. */
  function RowTally(g: Grid, s: Selector, r: int): nat
    requires WellFormed(g) && 0 <= r < 8
  {
    Tally(g, s, Pos(r, 0)) + Tally(g, s, Pos(r, 1)) + Tally(g, s, Pos(r, 2)) + Tally(g, s, Pos(r, 3)) +
    Tally(g, s, Pos(r, 4)) + Tally(g, s, Pos(r, 5)) + Tally(g, s, Pos(r, 6)) + Tally(g, s, Pos(r, 7))
  }

  function RowsTally(g: Grid, s: Selector): nat
    requires WellFormed(g)
  {
    RowTally(g, s, 0) + RowTally(g, s, 1) + RowTally(g, s, 2) + RowTally(g, s, 3) +
    RowTally(g, s, 4) + RowTally(g, s, 5) + RowTally(g, s, 6) + RowTally(g, s, 7)
  }

  /** Cell `(r, c)` is scanned as the `8r + c`-th cell. */
  lemma CountStep(g: Grid, s: Selector, r: int, c: int)
    requires WellFormed(g) && 0 <= r < 8 && 0 <= c < 8
    ensures CountUpTo(g, s, 8 * r + c + 1) == CountUpTo(g, s, 8 * r + c) + Tally(g, s, Pos(r, c))
  {
    RasterRoundTrip(8 * r + c, Pos(r, c));
  }

  lemma CountRow(g: Grid, s: Selector, r: int)
    requires WellFormed(g) && 0 <= r < 8
    ensures CountUpTo(g, s, 8 * r + 8) == CountUpTo(g, s, 8 * r) + RowTally(g, s, r)
  {
    CountStep(g, s, r, 0); CountStep(g, s, r, 1);
    CountStep(g, s, r, 2); CountStep(g, s, r, 3);
    CountStep(g, s, r, 4); CountStep(g, s, r, 5);
    CountStep(g, s, r, 6); CountStep(g, s, r, 7);
  }

  /** A count over the whole board, row by row. */
  lemma CountByRows(g: Grid, s: Selector)
    requires WellFormed(g)
    ensures CountUpTo(g, s, 64) == RowsTally(g, s)
  {
    CountRow(g, s, 0); CountRow(g, s, 1); CountRow(g, s, 2); CountRow(g, s, 3);
    CountRow(g, s, 4); CountRow(g, s, 5); CountRow(g, s, 6); CountRow(g, s, 7);
  }

  // ---------------------------------------------------------------------------
  // Occupancy counters.

  /** `row_checkers`, `col_checkers`, `maindiag_checkers`, `paradiag_checkers`. */
  datatype Checkers = Checkers(rows: seq<int>, cols: seq<int>, mains: seq<int>, antis: seq<int>)

  predicate Shaped(ch: Checkers) {
    |ch.rows| == 8 && |ch.cols| == 8 && |ch.mains| == 15 && |ch.antis| == 15
  }

  /** Every counter is non-negative: what the move generator needs to stay on the board. */
  predicate NonNegative(ch: Checkers)
    requires Shaped(ch)
  {
    (forall k | 0 <= k < 8 :: ch.rows[k] >= 0 && ch.cols[k] >= 0) &&
    (forall k | 0 <= k < 15 :: ch.mains[k] >= 0 && ch.antis[k] >= 0)
  }

  /** The counter invariant: each counter equals the number of pieces on its line. */
  predicate CountersMatch(g: Grid, ch: Checkers)
    requires WellFormed(g)
  {
    Shaped(ch) &&
    (forall r | 0 <= r < 8 :: ch.rows[r] == Occupancy(g, Row(r))) &&
    (forall c | 0 <= c < 8 :: ch.cols[c] == Occupancy(g, Col(c))) &&
    (forall m | 0 <= m < 15 :: ch.mains[m] == Occupancy(g, Main(m))) &&
    (forall a | 0 <= a < 15 :: ch.antis[a] == Occupancy(g, Anti(a)))
  }

  /** Adds `delta` to the four counters of the lines through `p`. */
  function Bump(ch: Checkers, p: Pos, delta: int): Checkers
    requires Shaped(ch) && InBoard(p)
  {
    Checkers(
      ch.rows[p.row := ch.rows[p.row] + delta],
      ch.cols[p.col := ch.cols[p.col] + delta],
      ch.mains[MainIndex(p) := ch.mains[MainIndex(p)] + delta],
      ch.antis[AntiIndex(p) := ch.antis[AntiIndex(p)] + delta])
  }

  /** Moving the counters through a cell by 0 leaves them as they were. */
  lemma BumpZero(ch: Checkers, p: Pos)
    requires Shaped(ch) && InBoard(p)
    ensures Bump(ch, p, 0) == ch
  {
  }

  /** The only lines through a cell are its row, its column and its two diagonals. */
  lemma LinesThrough(p: Pos, l: Line)
    requires InBoard(p)
    ensures OnLine(l, p) <==> l == Row(p.row) || l == Col(p.col) || l == Main(MainIndex(p)) || l == Anti(AntiIndex(p))
  {
  }

  /**
    * Writing `v` into cell `p` keeps the counter invariant when the four counters through `p`
    * move by what the cell's occupancy changed by.
    */
  lemma CountersAfterPut(g: Grid, ch: Checkers, p: Pos, v: int)
    requires WellFormed(g) && InBoard(p) && -1 <= v <= 1
    requires CountersMatch(g, ch)
    ensures CountersMatch(Put(g, p, v), Bump(ch, p, (if v != 0 then 1 else 0) - (if At(g, p) != 0 then 1 else 0)))
  {
    var g' := Put(g, p, v);
    var delta := (if v != 0 then 1 else 0) - (if At(g, p) != 0 then 1 else 0);
    var ch' := Bump(ch, p, delta);
    forall r | 0 <= r < 8
      ensures ch'.rows[r] == Occupancy(g', Row(r))
    {
      OccupancyAfterPut(g, p, v, Row(r));
    }
    forall c | 0 <= c < 8
      ensures ch'.cols[c] == Occupancy(g', Col(c))
    {
      OccupancyAfterPut(g, p, v, Col(c));
    }
    forall m | 0 <= m < 15
      ensures ch'.mains[m] == Occupancy(g', Main(m))
    {
      OccupancyAfterPut(g, p, v, Main(m));
    }
    forall a | 0 <= a < 15
      ensures ch'.antis[a] == Occupancy(g', Anti(a))
    {
      OccupancyAfterPut(g, p, v, Anti(a));
    }
  }

  lemma OccupancyAfterPut(g: Grid, p: Pos, v: int, l: Line)
    requires WellFormed(g) && InBoard(p) && -1 <= v <= 1
    ensures Occupancy(Put(g, p, v), l)
         == Occupancy(g, l) + (if OnLine(l, p) then (if v != 0 then 1 else 0) - (if At(g, p) != 0 then 1 else 0) else 0)
  {
    CountAfterPut(g, NonEmptyOn(l), p, v, 64);
  }

  /** The counters a grid calls for: one count per row, column and diagonal. */
  function CountersOf(g: Grid): (ch: Checkers)
    requires WellFormed(g)
    ensures CountersMatch(g, ch)
  {
    Checkers(seq(8, r => Occupancy(g, Row(r))), seq(8, c => Occupancy(g, Col(c))),
             seq(15, m => Occupancy(g, Main(m))), seq(15, a => Occupancy(g, Anti(a))))
  }

  /** Counters that match a grid are non-negative. */
  lemma MatchingCountersNonNegative(g: Grid, ch: Checkers)
    requires WellFormed(g) && CountersMatch(g, ch)
    ensures NonNegative(ch)
  {
  }

  // ---------------------------------------------------------------------------
  // The standard set-up (`Board.__init__` in both variants).

  /** Black on the interior of rows 0 and 7, White on the interior of columns 0 and 7. */
  function InitialCell(p: Pos): int {
    if (p.row == 0 || p.row == 7) && 1 <= p.col <= 6 then 1
    else if (p.col == 0 || p.col == 7) && 1 <= p.row <= 6 then -1
    else 0
  }

  const EdgeRow: seq<int> := [0, 1, 1, 1, 1, 1, 1, 0]
  const InnerRow: seq<int> := [-1, 0, 0, 0, 0, 0, 0, -1]

  const InitialGrid: Grid := [EdgeRow, InnerRow, InnerRow, InnerRow, InnerRow, InnerRow, InnerRow, EdgeRow]

  /** The literal counter lists of the constructor. */
  const InitialCheckers: Checkers := Checkers(
    [6, 2, 2, 2, 2, 2, 2, 6],
    [6, 2, 2, 2, 2, 2, 2, 6],
    [0, 2, 2, 2, 2, 2, 2, 0, 0, 2, 2, 2, 2, 2, 2],
    [0, 2, 2, 2, 2, 2, 2, 0, 0, 2, 2, 2, 2, 2, 2])

  /** The counter invariant holds for the literal lists of the constructor. */
  lemma InitialCountersMatch()
    ensures WellFormed(InitialGrid)
    ensures CountersMatch(InitialGrid, InitialCheckers)
  {
    InitialRowCounters();
    InitialColCounters();
    InitialMainCounters();
    InitialAntiCounters();
  }

  lemma InitialRowCounters()
    ensures WellFormed(InitialGrid)
    ensures forall r | 0 <= r < 8 :: InitialCheckers.rows[r] == Occupancy(InitialGrid, Row(r))
  {
    forall r | 0 <= r < 8
      ensures InitialCheckers.rows[r] == Occupancy(InitialGrid, Row(r))
    {
      CountByRows(InitialGrid, NonEmptyOn(Row(r)));
    }
  }

  lemma InitialColCounters()
    ensures WellFormed(InitialGrid)
    ensures forall c | 0 <= c < 8 :: InitialCheckers.cols[c] == Occupancy(InitialGrid, Col(c))
  {
    forall c | 0 <= c < 8
      ensures InitialCheckers.cols[c] == Occupancy(InitialGrid, Col(c))
    {
      CountByRows(InitialGrid, NonEmptyOn(Col(c)));
    }
  }

  /** On a main diagonal, row `r` holds at most one cell: column `r + d` for the diagonal's `col - row` value `d`. */
  function DiagonalOffset(k: int): int {
    if k < 8 then k else k - 15
  }

  lemma MainRowTally(g: Grid, m: int, r: int)
    requires WellFormed(g) && 0 <= m < 15 && 0 <= r < 8
    ensures RowTally(g, NonEmptyOn(Main(m)), r) == MainCell(g, m, r)
  {
  }

  lemma AntiRowTally(g: Grid, a: int, r: int)
    requires WellFormed(g) && 0 <= a < 15 && 0 <= r < 8
    ensures RowTally(g, NonEmptyOn(Anti(a)), r) == AntiCell(g, a, r)
  {
  }

  /** Whether row `r` holds a piece on main diagonal `m`. */
  function MainCell(g: Grid, m: int, r: int): nat
    requires WellFormed(g) && 0 <= r < 8
  {
    var c := r + DiagonalOffset(m); if 0 <= c < 8 && At(g, Pos(r, c)) != 0 then 1 else 0
  }

  /** Whether row `r` holds a piece on anti-diagonal `a`. */
  function AntiCell(g: Grid, a: int, r: int): nat
    requires WellFormed(g) && 0 <= r < 8
  {
    var c := 7 - r - DiagonalOffset(a); if 0 <= c < 8 && At(g, Pos(r, c)) != 0 then 1 else 0
  }

  /** The occupancy of a main diagonal counts one cell per row. */
  lemma MainOccupancy(g: Grid, m: int)
    requires WellFormed(g) && 0 <= m < 15
    ensures Occupancy(g, Main(m)) == MainCell(g, m, 0) + MainCell(g, m, 1) + MainCell(g, m, 2) + MainCell(g, m, 3)
                                   + MainCell(g, m, 4) + MainCell(g, m, 5) + MainCell(g, m, 6) + MainCell(g, m, 7)
  {
    CountByRows(g, NonEmptyOn(Main(m)));
    MainRowTally(g, m, 0); MainRowTally(g, m, 1);
    MainRowTally(g, m, 2); MainRowTally(g, m, 3);
    MainRowTally(g, m, 4); MainRowTally(g, m, 5);
    MainRowTally(g, m, 6); MainRowTally(g, m, 7);
  }

  /** The occupancy of an anti-diagonal counts one cell per row. */
  lemma AntiOccupancy(g: Grid, a: int)
    requires WellFormed(g) && 0 <= a < 15
    ensures Occupancy(g, Anti(a)) == AntiCell(g, a, 0) + AntiCell(g, a, 1) + AntiCell(g, a, 2) + AntiCell(g, a, 3)
                                   + AntiCell(g, a, 4) + AntiCell(g, a, 5) + AntiCell(g, a, 6) + AntiCell(g, a, 7)
  {
    CountByRows(g, NonEmptyOn(Anti(a)));
    AntiRowTally(g, a, 0); AntiRowTally(g, a, 1);
    AntiRowTally(g, a, 2); AntiRowTally(g, a, 3);
    AntiRowTally(g, a, 4); AntiRowTally(g, a, 5);
    AntiRowTally(g, a, 6); AntiRowTally(g, a, 7);
  }

  lemma InitialMainCounters()
    ensures WellFormed(InitialGrid)
    ensures forall m | 0 <= m < 15 :: InitialCheckers.mains[m] == Occupancy(InitialGrid, Main(m))
  {
    InitialMainLow();
    InitialMainMiddle();
    InitialMainHigh();
  }

  /** The mains literal for slots 0 to 4. */
  lemma InitialMainLow()
    ensures WellFormed(InitialGrid)
    ensures forall m | 0 <= m < 5 :: InitialCheckers.mains[m] == Occupancy(InitialGrid, Main(m))
  {
    InitialLayout();
    forall m | 0 <= m < 5
      ensures InitialCheckers.mains[m] == Occupancy(InitialGrid, Main(m))
    {
      MainOccupancy(InitialGrid, m);
    }
  }

  /** The mains literal for slots 5 to 9. */
  lemma InitialMainMiddle()
    ensures WellFormed(InitialGrid)
    ensures forall m | 5 <= m < 10 :: InitialCheckers.mains[m] == Occupancy(InitialGrid, Main(m))
  {
    InitialLayout();
    forall m | 5 <= m < 10
      ensures InitialCheckers.mains[m] == Occupancy(InitialGrid, Main(m))
    {
      MainOccupancy(InitialGrid, m);
    }
  }

  /** The mains literal for slots 10 to 14. */
  lemma InitialMainHigh()
    ensures WellFormed(InitialGrid)
    ensures forall m | 10 <= m < 15 :: InitialCheckers.mains[m] == Occupancy(InitialGrid, Main(m))
  {
    InitialLayout();
    forall m | 10 <= m < 15
      ensures InitialCheckers.mains[m] == Occupancy(InitialGrid, Main(m))
    {
      MainOccupancy(InitialGrid, m);
    }
  }

  lemma InitialAntiCounters()
    ensures WellFormed(InitialGrid)
    ensures forall a | 0 <= a < 15 :: InitialCheckers.antis[a] == Occupancy(InitialGrid, Anti(a))
  {
    InitialAntiLow();
    InitialAntiMiddle();
    InitialAntiHigh();
  }

  /** The antis literal for slots 0 to 4. */
  lemma InitialAntiLow()
    ensures WellFormed(InitialGrid)
    ensures forall a | 0 <= a < 5 :: InitialCheckers.antis[a] == Occupancy(InitialGrid, Anti(a))
  {
    InitialLayout();
    forall a | 0 <= a < 5
      ensures InitialCheckers.antis[a] == Occupancy(InitialGrid, Anti(a))
    {
      AntiOccupancy(InitialGrid, a);
    }
  }

  /** The antis literal for slots 5 to 9. */
  lemma InitialAntiMiddle()
    ensures WellFormed(InitialGrid)
    ensures forall a | 5 <= a < 10 :: InitialCheckers.antis[a] == Occupancy(InitialGrid, Anti(a))
  {
    InitialLayout();
    forall a | 5 <= a < 10
      ensures InitialCheckers.antis[a] == Occupancy(InitialGrid, Anti(a))
    {
      AntiOccupancy(InitialGrid, a);
    }
  }

  /** The antis literal for slots 10 to 14. */
  lemma InitialAntiHigh()
    ensures WellFormed(InitialGrid)
    ensures forall a | 10 <= a < 15 :: InitialCheckers.antis[a] == Occupancy(InitialGrid, Anti(a))
  {
    InitialLayout();
    forall a | 10 <= a < 15
      ensures InitialCheckers.antis[a] == Occupancy(InitialGrid, Anti(a))
    {
      AntiOccupancy(InitialGrid, a);
    }
  }

  /** Twelve pieces each at the start. */
  lemma InitialPieceCounts()
    ensures WellFormed(InitialGrid)
    ensures PieceCount(InitialGrid, Black) == 12 && PieceCount(InitialGrid, White) == 12
  {
    InitialLayout();
    InitialRowPieces();
    CountByRows(InitialGrid, Holding(Black));
    CountByRows(InitialGrid, Holding(White));
  }

  /** Rows 0 and 7 hold six black pieces each; every other row holds two white ones. */
  lemma InitialRowPieces()
    ensures WellFormed(InitialGrid)
    ensures forall r | 0 <= r < 8 :: RowTally(InitialGrid, Holding(Black), r) == if r == 0 || r == 7 then 6 else 0
    ensures forall r | 0 <= r < 8 :: RowTally(InitialGrid, Holding(White), r) == if r == 0 || r == 7 then 0 else 2
  {
    InitialLayout();
  }

  lemma InitialLayout()
    ensures WellFormed(InitialGrid)
    ensures forall p | InBoard(p) :: At(InitialGrid, p) == InitialCell(p)
  {
  }

  const EmptyRow: seq<int> := [0, 0, 0, 0, 0, 0, 0, 0]

  const EmptyGrid: Grid := [EmptyRow, EmptyRow, EmptyRow, EmptyRow, EmptyRow, EmptyRow, EmptyRow, EmptyRow]

  /** The set-up after rounds `1 .. n - 1` of the constructor's loop. */
  function SetupCell(n: int, p: Pos): int {
    if (p.row == 0 || p.row == 7) && 1 <= p.col < n then 1
    else if (p.col == 0 || p.col == 7) && 1 <= p.row < n then -1
    else 0
  }

  /** The loop of `__init__` that places the pieces on an empty matrix. */
  method SetupGrid() returns (m: Grid)
    ensures m == InitialGrid
  {
    m := EmptyGrid;
    assert forall x | InBoard(x) :: At(m, x) == SetupCell(1, x);
    for i := 1 to 7
      invariant WellFormed(m)
      invariant forall x | InBoard(x) :: At(m, x) == SetupCell(i, x)
    {
      m := Put(m, Pos(0, i), 1);
      m := Put(m, Pos(7, i), 1);
      m := Put(m, Pos(i, 0), -1);
      m := Put(m, Pos(i, 7), -1);
    }
    InitialLayout();
    GridExtensionality(m, InitialGrid);
  }
}
