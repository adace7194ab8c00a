/**
  * The older board. It keeps the matrix, the four counter lists, the side to move, a move table
  * per colour and a score per colour, but its `exec(color, loc)` only writes `color` at `loc`,
  * regenerates the table of the other colour and passes the turn: no counter, score or capture
  * is ever updated. Its generator reads the diagonal counters the other way round for the four
  * diagonal directions (`Rules.Older`).
  */
module OldBoard {
  import opened Geometry
  import opened Moves

  /** The cell `matrix[row][col]` names, negative coordinates counting from the end. */
  function Loc(row: int, col: int): (p: Pos)
    requires -8 <= row < 8 && -8 <= col < 8
    ensures InBoard(p)
    ensures 0 <= row ==> p.row == row
    ensures row < 0 ==> p.row == row + 8
    ensures 0 <= col ==> p.col == col
    ensures col < 0 ==> p.col == col + 8
  {
    Pos(PyIndex(row, 8), PyIndex(col, 8))
  }

  class Board {
    var matrix: Grid
    var rowCheckers: seq<int>
    var colCheckers: seq<int>
    var mainDiagCheckers: seq<int>
    var paraDiagCheckers: seq<int>
    var color: Color
    var availSteps: map<Color, Table>
    var scores: map<Color, int>

    function Counters(): Checkers
      reads this
    {
      Checkers(rowCheckers, colCheckers, mainDiagCheckers, paraDiagCheckers)
    }

    /** No method changes the counters, so they stay the literals of the constructor. */
    predicate Valid()
      reads this
    {
      WellFormed(matrix) && Counters() == InitialCheckers &&
      Black in availSteps && White in availSteps &&
      WellFormedTable(availSteps[Black]) && WellFormedTable(availSteps[White])
    }

    /** `__init__`: the standard set-up, Black to move, scores 8 and 8. */
    constructor ()
      ensures Valid()
      ensures matrix == InitialGrid && Counters() == InitialCheckers && color == Black
      ensures availSteps == map[Black := AvailTable(InitialGrid, InitialCheckers, Older, Black), White := []]
      ensures scores == map[Black := 8, White := 8]
    {
      var m := SetupGrid();
      InitialCountersMatch();
      MatchingCountersNonNegative(InitialGrid, InitialCheckers);
      var blackSteps := GenerateSteps(m, InitialCheckers, Older, Black);
      AvailTableWellFormed(m, InitialCheckers, Older, Black);
      matrix := m;
      rowCheckers := [6, 2, 2, 2, 2, 2, 2, 6];
      colCheckers := [6, 2, 2, 2, 2, 2, 2, 6];
      mainDiagCheckers := [0, 2, 2, 2, 2, 2, 2, 0, 0, 2, 2, 2, 2, 2, 2];
      paraDiagCheckers := [0, 2, 2, 2, 2, 2, 2, 0, 0, 2, 2, 2, 2, 2, 2];
      color := Black;
      availSteps := map[Black := blackSteps, White := []];
      scores := map[Black := 8, White := 8];
    }

    /**
      * `exec(color, loc)`: `false` where Python raises `IndexError`, that is when a coordinate
      * lies outside `-8 .. 7`; then nothing has changed.
      */
    method Exec(c: Color, row: int, col: int) returns (ok: bool)
      requires Valid()
      modifies this
      ensures Valid()
      ensures ok <==> -8 <= row < 8 && -8 <= col < 8
      ensures Counters() == old(Counters()) && scores == old(scores)
      ensures !ok ==> matrix == old(matrix) && color == old(color) && availSteps == old(availSteps)
      ensures ok ==> matrix == Put(old(matrix), Loc(row, col), c)
      ensures ok ==> forall x | InBoard(x) && x != Loc(row, col) :: At(matrix, x) == At(old(matrix), x)
      ensures ok ==> availSteps[Opponent(c)] == AvailTable(matrix, Counters(), Older, Opponent(c))
      ensures ok ==> availSteps[c] == old(availSteps)[c] && color == Opponent(old(color))
    {
      if !(-8 <= row < 8 && -8 <= col < 8) {
        return false;
      }
      Place(Loc(row, col), c);
      Retable(Opponent(c));
      color := Opponent(color);
      ok := true;
    }

    /** `matrix[row][col] = color`. */
    method Place(p: Pos, c: Color)
      requires WellFormed(matrix) && InBoard(p)
      modifies this
      ensures matrix == Put(old(matrix), p, c)
      ensures Counters() == old(Counters()) && availSteps == old(availSteps) && scores == old(scores) && color == old(color)
    {
      matrix := Put(matrix, p, c);
    }

    /** `avail_steps[c] = get_avail_steps(c)`. */
    method Retable(c: Color)
      requires Valid()
      modifies this
      ensures Valid()
      ensures availSteps[c] == AvailTable(matrix, Counters(), Older, c)
      ensures availSteps[Opponent(c)] == old(availSteps)[Opponent(c)]
      ensures matrix == old(matrix) && Counters() == old(Counters()) && scores == old(scores) && color == old(color)
    {
      var steps := GetAvailSteps(c);
      availSteps := availSteps[c := steps];
    }

    /** `get_avail_steps(c)` with the older diagonal counters. */
    method GetAvailSteps(c: Color) returns (steps: Table)
      requires Valid()
      ensures steps == AvailTable(matrix, Counters(), Older, c)
      ensures WellFormedTable(steps)
    {
      InitialCountersMatch();
      MatchingCountersNonNegative(InitialGrid, InitialCheckers);
      steps := GenerateSteps(matrix, Counters(), Older, c);
      AvailTableWellFormed(matrix, Counters(), Older, c);
    }

    /** `get_avail_steps_in(loc, c)`: the cached targets of `loc`, or none. */
    function GetAvailStepsIn(loc: Pos, c: Color): (r: seq<Pos>)
      requires Valid()
      reads this
      ensures !HasKey(availSteps[c], loc) ==> r == []
      ensures availSteps[c] == AvailTable(matrix, InitialCheckers, Older, c) ==>
        forall q :: q in r <==> IsMove(matrix, InitialCheckers, Older, c, loc, q)
    {
      InitialCountersMatch();
      MatchingCountersNonNegative(InitialGrid, InitialCheckers);
      LegalTargets(matrix, InitialCheckers, Older, c, loc);
      StepsIn(availSteps[c], loc)
    }

    /** `can_color_go(c)`: the cached table of `c` is not empty. */
    function CanColorGo(c: Color): (r: bool)
      requires Valid()
      reads this
      ensures r <==> exists p, q :: q in StepsIn(availSteps[c], p)
      ensures availSteps[c] == AvailTable(matrix, InitialCheckers, Older, c) ==>
        (r <==> exists p, q :: IsMove(matrix, InitialCheckers, Older, c, p, q))
    {
      TableNonEmpty(availSteps[c]);
      InitialCountersMatch();
      MatchingCountersNonNegative(InitialGrid, InitialCheckers);
      AvailTableNonEmpty(matrix, InitialCheckers, Older, c);
      |availSteps[c]| > 0
    }
  }
}
