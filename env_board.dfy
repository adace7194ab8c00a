/**
  * The current game board: the cell matrix, the four line counters, the side to move, a
  * cached move table per colour, a piece count per colour and the end-of-game flag.
  *
  * `State` is the value of a board and `ExecSpec` what one call of `exec` does to it; the
  * class `Board` holds the same fields and its methods update them in place. What the game
  * promises (tables that list exactly the legal moves, piece counts that match the
  * matrix, a side to move that can move) is stated as `Consistent` and proved to
  * survive every move made from a running game.
  */
module EnvBoard {
  import opened Options
  import opened Geometry
  import opened Moves
  import Labelling
  import Fingerprint

  datatype State = State(
    matrix: Grid,
    checkers: Checkers,
    color: Color,
    steps: map<Color, Table>,
    counts: map<Color, int>,
    terminal: bool)

  /** The shape every board keeps: a well-formed matrix, counters that match it, both tables and counts present. */
  predicate ValidState(s: State) {
    Arranged(Placement(s.matrix, s.checkers)) && Books(s.steps, s.counts)
  }

  /**
    * What a running game promises: the counts are the numbers of pieces, and unless the game
    * is over the side to move has a fresh move table with at least one move in it.
    */
  predicate Consistent(s: State)
    requires ValidState(s)
  {
    s.counts[Black] == PieceCount(s.matrix, Black) && s.counts[White] == PieceCount(s.matrix, White) &&
    (!s.terminal ==>
       s.steps[s.color] == AvailTable(s.matrix, s.checkers, Current, s.color) && s.steps[s.color] != [])
  }

  /** The board after `__init__`. */
  function InitialState(): (s: State)
    ensures ValidState(s)
  {
    InitialCountersMatch();
    MatchingCountersNonNegative(InitialGrid, InitialCheckers);
    AvailTableWellFormed(InitialGrid, InitialCheckers, Current, Black);
    State(InitialGrid, InitialCheckers, Black,
          map[Black := AvailTable(InitialGrid, InitialCheckers, Current, Black), White := []],
          map[Black := 12, White := 12], false)
  }

  datatype Outcome = Applied(next: State) | Rejected

  /**
    * The checks `exec` makes before it changes anything: the source holds a piece of the side
    * to move and the target is listed for it in that side's table.
    */
  predicate Accepts(s: State, p: Pos, q: Pos)
    requires ValidState(s)
  {
    InBoard(p) && At(s.matrix, p) == s.color && q in StepsIn(s.steps[s.color], p)
  }

  /** Where the pieces stand: a matrix and counters that match it. */
  datatype Placement = Placement(matrix: Grid, checkers: Checkers)

  predicate Arranged(pl: Placement) {
    WellFormed(pl.matrix) && CountersMatch(pl.matrix, pl.checkers) && NonNegative(pl.checkers)
  }

  /**
    * The piece of colour `c` lifted from `p` and set down on `q`: the source's four counters
    * drop by one and, when `q` was empty, the target's four rise by one. The counters go on
    * matching the matrix, and only the two cells change.
    */
  function Relocate(g: Grid, ch: Checkers, p: Pos, q: Pos, c: Color): (r: Placement)
    requires WellFormed(g) && CountersMatch(g, ch) && InBoard(p) && InBoard(q) && At(g, p) == c
    ensures Arranged(r)
    ensures forall x | InBoard(x) :: At(r.matrix, x) == if x == q then c else if x == p then 0 else At(g, x)
  {
    var cleared := Put(g, p, 0);
    var lifted := Bump(ch, p, -1);
    MoveKeepsCounters(g, ch, p, q, c);
    var r := Placement(Put(cleared, q, c), if At(cleared, q) == 0 then Bump(lifted, q, 1) else lifted);
    MatchingCountersNonNegative(r.matrix, r.checkers);
    r
  }

  /** Lifting the piece from `p` and setting it down on `q` keeps the counters matching. */
  lemma MoveKeepsCounters(g: Grid, ch: Checkers, p: Pos, q: Pos, c: Color)
    requires WellFormed(g) && CountersMatch(g, ch) && InBoard(p) && InBoard(q) && At(g, p) == c
    ensures var cleared := Put(g, p, 0);
            var lifted := Bump(ch, p, -1);
            CountersMatch(Put(cleared, q, c), if At(cleared, q) == 0 then Bump(lifted, q, 1) else lifted)
  {
    var cleared := Put(g, p, 0);
    var lifted := Bump(ch, p, -1);
    CountersAfterPut(g, ch, p, 0);
    CountersAfterPut(cleared, lifted, q, c);
    if At(cleared, q) != 0 {
      BumpZero(lifted, q);
    }
  }

  /** A piece moved onto a cell that is not its own: the mover keeps its count, the opponent loses one on a capture. */
  lemma RelocateCounts(g: Grid, ch: Checkers, p: Pos, q: Pos, c: Color)
    requires WellFormed(g) && CountersMatch(g, ch) && InBoard(p) && InBoard(q) && At(g, p) == c
    requires p != q && At(g, q) != c
    ensures var m := Relocate(g, ch, p, q, c).matrix;
      PieceCount(m, c) == PieceCount(g, c) &&
      PieceCount(m, Opponent(c)) == PieceCount(g, Opponent(c)) - (if At(g, q) == Opponent(c) then 1 else 0)
  {
    var cleared := Put(g, p, 0);
    PieceCountAfterPut(g, p, 0, c);
    PieceCountAfterPut(g, p, 0, Opponent(c));
    PieceCountAfterPut(cleared, q, c, c);
    PieceCountAfterPut(cleared, q, c, Opponent(c));
  }

  /** Both tables and both counts present and the tables well formed. */
  predicate Books(steps: map<Color, Table>, counts: map<Color, int>) {
    Black in steps && White in steps && Black in counts && White in counts &&
    WellFormedTable(steps[Black]) && WellFormedTable(steps[White])
  }

  /** The tables after both colours' lists are regenerated. */
  function Retabled(steps: map<Color, Table>, counts: map<Color, int>, c: Color, own: Table, opp: Table): (r: map<Color, Table>)
    requires Books(steps, counts) && WellFormedTable(own) && WellFormedTable(opp)
    ensures Books(r, counts) && r[c] == own && r[Opponent(c)] == opp
  {
    steps[Opponent(c) := opp][c := own]
  }

  /**
    * The end of `exec` once the piece has moved: regenerate the opponent's table, end the game
    * when the opponent is down to one piece or the mover is connected, and then pass the turn
    * if the opponent can move; otherwise regenerate the mover's table, which ends the game
    * when it too is empty.
    */
  function Settle(c: Color, pl: Placement, steps: map<Color, Table>, counts: map<Color, int>, terminal: bool): (r: State)
    requires Arranged(pl) && Books(steps, counts)
    ensures ValidState(r)
    ensures r.matrix == pl.matrix && r.checkers == pl.checkers && r.counts == counts
    ensures r.color == Opponent(c) <==> |AvailTable(pl.matrix, pl.checkers, Current, Opponent(c))| > 0
    ensures r.steps[r.color] == AvailTable(pl.matrix, pl.checkers, Current, r.color)
    ensures r.steps[Opponent(r.color)] ==
      (if r.color == c then AvailTable(pl.matrix, pl.checkers, Current, Opponent(c)) else steps[c])
    ensures r.terminal <==>
      terminal || counts[Opponent(c)] == 1 || Labelling.Connected(pl.matrix, c) ||
      (|AvailTable(pl.matrix, pl.checkers, Current, Opponent(c))| == 0 && |AvailTable(pl.matrix, pl.checkers, Current, c)| == 0)
  {
    var o := Opponent(c);
    var oppSteps := AvailTable(pl.matrix, pl.checkers, Current, o);
    var ownSteps := AvailTable(pl.matrix, pl.checkers, Current, c);
    AvailTableWellFormed(pl.matrix, pl.checkers, Current, o);
    AvailTableWellFormed(pl.matrix, pl.checkers, Current, c);
    var ended := terminal || counts[o] == 1 || Labelling.Connected(pl.matrix, c);
    if |oppSteps| == 0 then
      State(pl.matrix, pl.checkers, c, Retabled(steps, counts, c, ownSteps, oppSteps), counts, ended || |ownSteps| == 0)
    else
      State(pl.matrix, pl.checkers, o, steps[o := oppSteps], counts, ended)
  }

  /** The piece counts after a move: the opponent's drops by one on a capture. */
  function Recount(counts: map<Color, int>, o: Color, captured: bool): (r: map<Color, int>)
    requires Black in counts && White in counts
    ensures Black in r && White in r
    ensures r[o] == counts[o] - (if captured then 1 else 0) && r[Opponent(o)] == counts[Opponent(o)]
  {
    if captured then counts[o := counts[o] - 1] else counts
  }

  /**
    * The part of `exec` after the checks. The capture test reads the target after the source
    * is cleared; the source holds the mover's colour, so that is the target's old content.
    */
  function MoveSpec(s: State, p: Pos, q: Pos): (r: State)
    requires ValidState(s) && Accepts(s, p, q)
    ensures ValidState(r)
    ensures InBoard(q) && Placement(r.matrix, r.checkers) == Relocate(s.matrix, s.checkers, p, q, s.color)
    ensures r.counts == Recount(s.counts, Opponent(s.color), At(s.matrix, q) == Opponent(s.color))
    ensures r.color == Opponent(s.color) <==> |AvailTable(r.matrix, r.checkers, Current, Opponent(s.color))| > 0
    ensures r.steps[r.color] == AvailTable(r.matrix, r.checkers, Current, r.color)
    ensures r.steps[Opponent(r.color)] ==
      (if r.color == s.color then AvailTable(r.matrix, r.checkers, Current, Opponent(s.color)) else s.steps[s.color])
    ensures r.terminal <==>
      s.terminal || r.counts[Opponent(s.color)] == 1 || Labelling.Connected(r.matrix, s.color) ||
      (|AvailTable(r.matrix, r.checkers, Current, Opponent(s.color))| == 0 && |AvailTable(r.matrix, r.checkers, Current, s.color)| == 0)
  {
    var c, o := s.color, Opponent(s.color);
    StepsInOnBoard(s.steps[c], p, q);
    Settle(c, Relocate(s.matrix, s.checkers, p, q, c), s.steps, Recount(s.counts, o, At(s.matrix, q) == o), s.terminal)
  }

  /**
    * `exec(source, target)`. A missing source does nothing; a side to move that is already
    * connected ends the game and passes the turn; a missing target, a source without a piece
    * of the side to move, or a target not in its table is refused (the Python code raises).
    */
  function ExecSpec(s: State, source: Option<Pos>, target: Option<Pos>): (r: Outcome)
    requires ValidState(s)
    ensures r.Applied? ==> ValidState(r.next)
  {
    if source.None? then Applied(s)
    else if Labelling.Connected(s.matrix, s.color) then Applied(s.(terminal := true, color := Opponent(s.color)))
    else if target.None? || !Accepts(s, source.value, target.value) then Rejected
    else Applied(MoveSpec(s, source.value, target.value))
  }

  // ---------------------------------------------------------------------------
  // What a move does.

  /** The opening board keeps the promises of a running game. */
  lemma InitialConsistent()
    ensures Consistent(InitialState())
    ensures !InitialState().terminal && InitialState().color == Black
  {
    var s := InitialState();
    assert s.matrix == InitialGrid && s.checkers == InitialCheckers && s.color == Black;
    InitialPieceCounts();
    assert s.counts[Black] == PieceCount(s.matrix, Black) && s.counts[White] == PieceCount(s.matrix, White);
    OpeningMove();
    AvailTableNonEmpty(InitialGrid, InitialCheckers, Current, Black);
    assert s.steps[s.color] == AvailTable(InitialGrid, InitialCheckers, Current, Black);
  }

  /**
    * The opening board: Black on rows 0 and 7 and White on columns 0 and 7, corners empty,
    * twelve pieces a side in both the counts and the matrix, and no table for White.
    */
  lemma InitialBoard()
    ensures var s := InitialState();
      (forall p | InBoard(p) :: At(s.matrix, p) == InitialCell(p)) &&
      s.counts[Black] == 12 && s.counts[White] == 12 &&
      PieceCount(s.matrix, Black) == 12 && PieceCount(s.matrix, White) == 12 &&
      s.steps[White] == [] && s.color == Black && !s.terminal
  {
    InitialLayout();
    InitialPieceCounts();
  }

  /** At the start Black may move the piece at (0, 1) two cells down its column. */
  lemma OpeningMove()
    ensures WellFormed(InitialGrid) && Shaped(InitialCheckers) && NonNegative(InitialCheckers)
    ensures IsMove(InitialGrid, InitialCheckers, Current, Black, Pos(0, 1), Pos(2, 1))
  {
    InitialLayout();
    InitialCountersMatch();
    MatchingCountersNonNegative(InitialGrid, InitialCheckers);
    var g, ch := InitialGrid, InitialCheckers;
    assert Distance(ch, Current, Pos(0, 1), Down) == 2;
    assert ClearPath(g, Black, Pos(0, 1), Down, 2) by {
      forall k | 1 <= k < 2 ensures At(g, Shift(Pos(0, 1), Down, k)) != Opponent(Black) {
        assert k == 1;
      }
    }
    assert Slides(g, ch, Current, Black, Pos(0, 1), Down);
  }

  /**
    * At the start the piece at (0, 1) may jump the five Black pieces beside it: row 0 holds
    * six pieces, so it slides six cells right to the empty corner (0, 7).
    */
  lemma OpeningJump()
    ensures Pos(0, 7) in StepsIn(InitialState().steps[Black], Pos(0, 1))
  {
    InitialLayout();
    InitialCountersMatch();
    MatchingCountersNonNegative(InitialGrid, InitialCheckers);
    var g, ch := InitialGrid, InitialCheckers;
    assert Distance(ch, Current, Pos(0, 1), Right) == 6;
    assert ClearPath(g, Black, Pos(0, 1), Right, 6) by {
      forall k | 1 <= k < 6 ensures At(g, Shift(Pos(0, 1), Right, k)) != Opponent(Black) {
        assert InitialCell(Pos(0, 1 + k)) == Black;
      }
    }
    assert Slides(g, ch, Current, Black, Pos(0, 1), Right);
    assert IsMove(g, ch, Current, Black, Pos(0, 1), Pos(0, 7));
    GeneratedMoves(g, ch, Current, Black, Pos(0, 1), Pos(0, 7));
  }

  /** A running game accepts exactly the legal moves of the side to move. */
  lemma AcceptsLegalMoves(s: State, p: Pos, q: Pos)
    requires ValidState(s) && Consistent(s) && !s.terminal
    ensures Accepts(s, p, q) <==> IsMove(s.matrix, s.checkers, Current, s.color, p, q)
  {
    GeneratedMoves(s.matrix, s.checkers, Current, s.color, p, q);
  }

  /**
    * A move from a running game empties its source, puts the mover's colour on its target and
    * leaves every other cell alone; the mover keeps all its pieces, and the opponent loses one
    * exactly when the target held one of the opponent's pieces, which the counts follow.
    */
  lemma MoveEffect(s: State, p: Pos, q: Pos)
    requires ValidState(s) && Consistent(s) && !s.terminal && Accepts(s, p, q)
    ensures InBoard(q) && q != p
    ensures var r := MoveSpec(s, p, q);
      (forall x | InBoard(x) :: At(r.matrix, x) == if x == q then s.color else if x == p then 0 else At(s.matrix, x)) &&
      PieceCount(r.matrix, s.color) == PieceCount(s.matrix, s.color) &&
      PieceCount(r.matrix, Opponent(s.color))
        == PieceCount(s.matrix, Opponent(s.color)) - (if At(s.matrix, q) == Opponent(s.color) then 1 else 0) &&
      r.counts[Black] == PieceCount(r.matrix, Black) && r.counts[White] == PieceCount(r.matrix, White)
  {
    AcceptsLegalMoves(s, p, q);
    MoveLeavesSource(s.matrix, s.checkers, s.color, p, q);
    RelocateCounts(s.matrix, s.checkers, p, q, s.color);
    var r := MoveSpec(s, p, q);
    assert r.matrix == Relocate(s.matrix, s.checkers, p, q, s.color).matrix;
    EachColour(s.counts, s.matrix, s.color);
    BothColours(r.counts, r.matrix, s.color);
  }

  /** Counts that are right for Black and White are right for a colour and its opponent. */
  lemma EachColour(counts: map<Color, int>, g: Grid, c: Color)
    requires WellFormed(g) && Black in counts && White in counts
    requires counts[Black] == PieceCount(g, Black) && counts[White] == PieceCount(g, White)
    ensures c in counts && Opponent(c) in counts
    ensures counts[c] == PieceCount(g, c) && counts[Opponent(c)] == PieceCount(g, Opponent(c))
  {
  }

  /** Counts that are right for a colour and its opponent are right for Black and White. */
  lemma BothColours(counts: map<Color, int>, g: Grid, c: Color)
    requires WellFormed(g) && c in counts && Opponent(c) in counts
    requires counts[c] == PieceCount(g, c) && counts[Opponent(c)] == PieceCount(g, Opponent(c))
    ensures Black in counts && White in counts
    ensures counts[Black] == PieceCount(g, Black) && counts[White] == PieceCount(g, White)
  {
  }

  /**
    * After a move the turn passes exactly when the opponent has a legal move; either way the
    * side now to move has a freshly generated table.
    */
  lemma TurnPassing(s: State, p: Pos, q: Pos)
    requires ValidState(s) && Accepts(s, p, q)
    ensures var r := MoveSpec(s, p, q);
      (r.color == Opponent(s.color) <==> exists a, b :: IsMove(r.matrix, r.checkers, Current, Opponent(s.color), a, b)) &&
      r.steps[r.color] == AvailTable(r.matrix, r.checkers, Current, r.color)
  {
    var r := MoveSpec(s, p, q);
    AvailTableNonEmpty(r.matrix, r.checkers, Current, Opponent(s.color));
  }

  /**
    * A move from a running game ends it exactly when the opponent is down to one piece, the
    * mover's pieces are connected, or neither side has a legal move.
    */
  lemma EndOfGame(s: State, p: Pos, q: Pos)
    requires ValidState(s) && Consistent(s) && !s.terminal && Accepts(s, p, q)
    ensures var r := MoveSpec(s, p, q);
      r.terminal <==>
        PieceCount(r.matrix, Opponent(s.color)) == 1 ||
        Labelling.Connected(r.matrix, s.color) ||
        ((forall a, b :: !IsMove(r.matrix, r.checkers, Current, Opponent(s.color), a, b)) &&
         (forall a, b :: !IsMove(r.matrix, r.checkers, Current, s.color, a, b)))
  {
    var r := MoveSpec(s, p, q);
    MoveEffect(s, p, q);
    AvailTableNonEmpty(r.matrix, r.checkers, Current, Opponent(s.color));
    AvailTableNonEmpty(r.matrix, r.checkers, Current, s.color);
  }

  /** Every call of `exec` on a running game leaves a board that keeps the promises. */
  lemma ExecKeepsConsistent(s: State, source: Option<Pos>, target: Option<Pos>)
    requires ValidState(s) && Consistent(s) && !s.terminal
    requires ExecSpec(s, source, target).Applied?
    ensures Consistent(ExecSpec(s, source, target).next)
  {
    if source.Some? && !Labelling.Connected(s.matrix, s.color) {
      var p, q := source.value, target.value;
      MoveEffect(s, p, q);
      TurnPassing(s, p, q);
      var r := MoveSpec(s, p, q);
      AvailTableNonEmpty(r.matrix, r.checkers, Current, r.color);
    }
  }

  /**
    * Before any move: without a source `exec` changes nothing, and when the side to move is
    * already connected it only ends the game and passes the turn, leaving the pieces, counters,
    * counts and tables as they were.
    */
  lemma ExecBeforeMove(s: State, source: Option<Pos>, target: Option<Pos>)
    requires ValidState(s)
    ensures source.None? ==> ExecSpec(s, source, target) == Applied(s)
    ensures source.Some? && Labelling.Connected(s.matrix, s.color) ==>
      var r := ExecSpec(s, source, target).next;
      r.matrix == s.matrix && r.checkers == s.checkers && r.counts == s.counts && r.steps == s.steps &&
      r.terminal && r.color == Opponent(s.color)
  {
  }

  /** Once the game is over, no call of `exec` reopens it. */
  lemma TerminalStays(s: State, source: Option<Pos>, target: Option<Pos>)
    requires ValidState(s) && s.terminal
    requires ExecSpec(s, source, target).Applied?
    ensures ExecSpec(s, source, target).next.terminal
  {
  }

  /** A refused call changes nothing, and only a present source with a piece of the side to move can be accepted as a move. */
  lemma ExecRefusals(s: State, source: Option<Pos>, target: Option<Pos>)
    requires ValidState(s)
    ensures ExecSpec(s, source, target).Rejected? <==>
      source.Some? && !Labelling.Connected(s.matrix, s.color) &&
      (target.None? || !InBoard(source.value) || At(s.matrix, source.value) != s.color ||
       target.value !in StepsIn(s.steps[s.color], source.value))
  {
  }

  // ---------------------------------------------------------------------------
  // The board object.

  class Board {
    var matrix: Grid
    var rowCheckers: seq<int>
    var colCheckers: seq<int>
    var mainDiagCheckers: seq<int>
    var paraDiagCheckers: seq<int>
    var color: Color
    var availSteps: map<Color, Table>
    var counts: map<Color, int>
    var isTerminal: bool

    function Counters(): Checkers
      reads this
    {
      Checkers(rowCheckers, colCheckers, mainDiagCheckers, paraDiagCheckers)
    }

    function Snapshot(): State
      reads this
    {
      State(matrix, Counters(), color, availSteps, counts, isTerminal)
    }

    predicate Valid()
      reads this
    {
      ValidState(Snapshot())
    }

    /** `__init__`: the standard set-up, Black to move with its table generated. */
    constructor ()
      ensures Snapshot() == InitialState()
    {
      var m := SetupGrid();
      InitialCountersMatch();
      MatchingCountersNonNegative(InitialGrid, InitialCheckers);
      var blackSteps := GenerateSteps(m, InitialCheckers, Current, Black);
      matrix := m;
      rowCheckers := [6, 2, 2, 2, 2, 2, 2, 6];
      colCheckers := [6, 2, 2, 2, 2, 2, 2, 6];
      mainDiagCheckers := [0, 2, 2, 2, 2, 2, 2, 0, 0, 2, 2, 2, 2, 2, 2];
      paraDiagCheckers := [0, 2, 2, 2, 2, 2, 2, 0, 0, 2, 2, 2, 2, 2, 2];
      color := Black;
      availSteps := map[Black := blackSteps, White := []];
      counts := map[Black := 12, White := 12];
      isTerminal := false;
    }

    /** `deepcopy(board)`: a new board with the same value. */
    constructor Copy(other: Board)
      ensures Snapshot() == other.Snapshot()
    {
      matrix := other.matrix;
      rowCheckers := other.rowCheckers;
      colCheckers := other.colCheckers;
      mainDiagCheckers := other.mainDiagCheckers;
      paraDiagCheckers := other.paraDiagCheckers;
      color := other.color;
      availSteps := other.availSteps;
      counts := other.counts;
      isTerminal := other.isTerminal;
    }

    /** `get_avail_steps(c)` on the current matrix and counters. */
    method GetAvailSteps(c: Color) returns (steps: Table)
      requires WellFormed(matrix) && Shaped(Counters()) && NonNegative(Counters())
      ensures steps == AvailTable(matrix, Counters(), Current, c)
      ensures WellFormedTable(steps)
    {
      steps := GenerateSteps(matrix, Counters(), Current, c);
      AvailTableWellFormed(matrix, Counters(), Current, c);
    }

    /** `is_connected()` for the side to move. */
    method IsConnected() returns (connected: bool)
      requires WellFormed(matrix)
      ensures connected == Labelling.Connected(matrix, color)
    {
      connected := Labelling.IsConnected(matrix, color);
    }

    /** `get_avail_steps_in(loc, c)`: the cached targets of `loc`, or none. */
    function GetAvailStepsIn(loc: Pos, c: Color): (r: seq<Pos>)
      requires Valid()
      reads this
      ensures !HasKey(availSteps[c], loc) ==> r == []
      ensures Consistent(Snapshot()) && !isTerminal && c == color ==>
        forall q :: q in r <==> IsMove(matrix, Counters(), Current, c, loc, q)
    {
      LegalTargets(matrix, Counters(), Current, c, loc);
      StepsIn(availSteps[c], loc)
    }

    /** `can_color_go(c)`: the cached table of `c` is not empty. */
    function CanColorGo(c: Color): (r: bool)
      requires Valid()
      reads this
      ensures r <==> exists p, q :: q in StepsIn(availSteps[c], p)
      ensures Consistent(Snapshot()) && !isTerminal && c == color ==>
        r && exists p, q :: IsMove(matrix, Counters(), Current, c, p, q)
    {
      TableNonEmpty(availSteps[c]);
      AvailTableNonEmpty(matrix, Counters(), Current, c);
      |availSteps[c]| > 0
    }

    /** `hash_state()`: the cell values as text, row by row. */
    method HashState() returns (text: string)
      requires WellFormed(matrix)
      ensures text == Fingerprint.Encode(matrix)
      ensures Fingerprint.Decode(text) == Some(Fingerprint.Cells(matrix))
    {
      text := Fingerprint.HashGrid(matrix);
    }

    /** `exec(source, target)`; `false` where the Python code raises, and then nothing has changed. */
    method Exec(source: Option<Pos>, target: Option<Pos>) returns (accepted: bool)
      requires Valid()
      modifies this
      ensures Valid()
      ensures accepted ==> ExecSpec(old(Snapshot()), source, target) == Applied(Snapshot())
      ensures !accepted ==> ExecSpec(old(Snapshot()), source, target) == Rejected && Snapshot() == old(Snapshot())
    {
      if source.None? {
        return true;
      }
      var connected := IsConnected();
      if connected {
        isTerminal := true;
        color := Opponent(color);
        return true;
      }
      if target.None? {
        return false;
      }
      var p, q := source.value, target.value;
      if !InBoard(p) || matrix[p.row][p.col] != color {
        return false;
      }
      var listed := GetAvailStepsIn(p, color);
      if q !in listed {
        return false;
      }
      Move(p, q);
      accepted := true;
    }

    /** The body of `exec` once its checks have passed. */
    method Move(p: Pos, q: Pos)
      requires Valid() && Accepts(Snapshot(), p, q)
      modifies this
      ensures Snapshot() == MoveSpec(old(Snapshot()), p, q)
    {
      StepsInOnBoard(availSteps[color], p, q);
      Relocation(p, q);
      Regenerate();
    }

    /** Lift the piece from `p`, count a capture, keep the counters in step and set the piece down on `q`. */
    method Relocation(p: Pos, q: Pos)
      requires WellFormed(matrix) && CountersMatch(matrix, Counters()) && Black in counts && White in counts
      requires InBoard(p) && InBoard(q) && At(matrix, p) == color
      modifies this
      ensures color == old(color) && availSteps == old(availSteps) && isTerminal == old(isTerminal)
      ensures Placement(matrix, Counters()) == Relocate(old(matrix), old(Counters()), p, q, old(color))
      ensures counts == Recount(old(counts), Opponent(old(color)), At(old(matrix), q) == Opponent(old(color)))
    {
      ghost var g0, ch0, counts0 := matrix, Counters(), counts;
      var c, o := color, Opponent(color);
      MoveKeepsCounters(matrix, Counters(), p, q, c);
      matrix := Put(matrix, p, 0);
      if matrix[q.row][q.col] == o {
        counts := counts[o := counts[o] - 1];
      }
      assert counts == Recount(counts0, o, At(g0, q) == o);
      ShiftCounters(p, -1);
      if matrix[q.row][q.col] == 0 {
        ShiftCounters(q, 1);
      } else {
        BumpZero(Counters(), q);
      }
      matrix := Put(matrix, q, c);
    }

    /** The four counters of the lines through `p` change by `delta`. */
    method ShiftCounters(p: Pos, delta: int)
      requires Shaped(Counters()) && InBoard(p)
      modifies this
      ensures Counters() == Bump(old(Counters()), p, delta)
      ensures matrix == old(matrix) && color == old(color) && availSteps == old(availSteps)
      ensures counts == old(counts) && isTerminal == old(isTerminal)
    {
      rowCheckers := rowCheckers[p.row := rowCheckers[p.row] + delta];
      colCheckers := colCheckers[p.col := colCheckers[p.col] + delta];
      mainDiagCheckers := mainDiagCheckers[MainIndex(p) := mainDiagCheckers[MainIndex(p)] + delta];
      paraDiagCheckers := paraDiagCheckers[AntiIndex(p) := paraDiagCheckers[AntiIndex(p)] + delta];
    }

    /** The end of `exec`: regenerate the tables, decide the end of the game and the turn. */
    method Regenerate()
      requires Arranged(Placement(matrix, Counters())) && Books(availSteps, counts)
      modifies this
      ensures Snapshot() == Settle(old(color), old(Placement(matrix, Counters())), old(availSteps), old(counts), old(isTerminal))
    {
      var g, ch, c, o := matrix, Counters(), color, Opponent(color);
      var oppSteps := GenerateSteps(g, ch, Current, o);
      AvailTableWellFormed(g, ch, Current, o);
      var ended := isTerminal;
      if counts[o] == 1 {
        ended := true;
      } else {
        var connected := Labelling.IsConnected(g, c);
        if connected {
          ended := true;
        }
      }
      if |oppSteps| == 0 {
        var ownSteps := GenerateSteps(g, ch, Current, c);
        AvailTableWellFormed(g, ch, Current, c);
        availSteps := Retabled(availSteps, counts, c, ownSteps, oppSteps);
        isTerminal := ended || |ownSteps| == 0;
      } else {
        availSteps := availSteps[o := oppSteps];
        isTerminal := ended;
        color := o;
      }
    }
  }
}
