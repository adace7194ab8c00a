/**
  * Move generation by the distance-sliding rule of Lines of Action, shared by both board
  * variants: a piece moves along one of eight directions exactly as many cells as the
  * counter of the line reports, may jump its own pieces but not the opponent's, and may
  * land on an empty cell or on an opponent's piece (a capture).
  *
  * The two variants differ only in which diagonal counter each diagonal direction reads;
  * `Rules` tells them apart.
  */
module Moves {
  import opened Options
  import opened Geometry

  /** The eight directions in the order the generator tries them. */
  datatype Direction = Right | Left | Down | Up | UpRight | DownLeft | UpLeft | DownRight

  const Directions: seq<Direction> := [Right, Left, Down, Up, UpRight, DownLeft, UpLeft, DownRight]

  /** The cell `n` steps from `p` in direction `d` (rows grow downwards). */
  function Shift(p: Pos, d: Direction, n: int): Pos {
    match d
    case Right => Pos(p.row, p.col + n)
    case Left => Pos(p.row, p.col - n)
    case Down => Pos(p.row + n, p.col)
    case Up => Pos(p.row - n, p.col)
    case UpRight => Pos(p.row - n, p.col + n)
    case DownLeft => Pos(p.row + n, p.col - n)
    case UpLeft => Pos(p.row - n, p.col - n)
    case DownRight => Pos(p.row + n, p.col + n)
  }

  /** The line a move in direction `d` from `p` travels along. */
  function AxisLine(p: Pos, d: Direction): Line {
    match d
    case Right | Left => Row(p.row)
    case Down | Up => Col(p.col)
    case UpRight | DownLeft => Anti(AntiIndex(p))
    case UpLeft | DownRight => Main(MainIndex(p))
  }

  /** `Current` is the generator of the current board; `Older` that of the older board. */
  datatype Rules = Current | Older

  /** The line whose counter the generator reads for direction `d`. */
  function CounterLine(rules: Rules, p: Pos, d: Direction): Line {
    match d
    case Right | Left => Row(p.row)
    case Down | Up => Col(p.col)
    case UpRight | DownLeft => if rules == Current then Anti(AntiIndex(p)) else Main(MainIndex(p))
    case UpLeft | DownRight => if rules == Current then Main(MainIndex(p)) else Anti(AntiIndex(p))
  }

  /** The sliding distance: `n_row`, `n_col`, `n_md` or `n_pd`, as the rules pick it. */
  function Distance(ch: Checkers, rules: Rules, p: Pos, d: Direction): int
    requires Shaped(ch) && InBoard(p)
  {
    match CounterLine(rules, p, d)
    case Row(_) => ch.rows[p.row]
    case Col(_) => ch.cols[p.col]
    case Main(_) => ch.mains[MainIndex(p)]
    case Anti(_) => ch.antis[AntiIndex(p)]
  }

  /** No cell strictly between `p` and the cell `n` steps away holds an opponent's piece. */
  predicate ClearPath(g: Grid, color: Color, p: Pos, d: Direction, n: int)
    requires WellFormed(g) && InBoard(p) && InBoard(Shift(p, d, n)) && n >= 0
  {
    forall s | 1 <= s < n :: At(g, Shift(p, d, s)) != Opponent(color)
  }

  function SlideTarget(ch: Checkers, rules: Rules, p: Pos, d: Direction): Pos
    requires Shaped(ch) && InBoard(p)
  {
    Shift(p, d, Distance(ch, rules, p, d))
  }

  /** The move from `p` in direction `d` is generated: on the board, not onto an own piece, no enemy jumped. */
  predicate Slides(g: Grid, ch: Checkers, rules: Rules, color: Color, p: Pos, d: Direction)
    requires WellFormed(g) && Shaped(ch) && NonNegative(ch) && InBoard(p)
  {
    var n := Distance(ch, rules, p, d);
    var q := Shift(p, d, n);
    InBoard(q) && At(g, q) != color && ClearPath(g, color, p, d, n)
  }

  /** The targets found by trying the first `k` directions from `p`, in order. */
  function TargetsOver(g: Grid, ch: Checkers, rules: Rules, color: Color, p: Pos, k: nat): seq<Pos>
    requires WellFormed(g) && Shaped(ch) && NonNegative(ch) && InBoard(p) && k <= 8
  {
    if k == 0 then []
    else
      TargetsOver(g, ch, rules, color, p, k - 1)
      + (if Slides(g, ch, rules, color, p, Directions[k - 1]) then [SlideTarget(ch, rules, p, Directions[k - 1])] else [])
  }

  /** The target list the generator builds for a piece at `p`. */
  function TargetsAt(g: Grid, ch: Checkers, rules: Rules, color: Color, p: Pos): seq<Pos>
    requires WellFormed(g) && Shaped(ch) && NonNegative(ch) && InBoard(p)
  {
    TargetsOver(g, ch, rules, color, p, 8)
  }

  // ---------------------------------------------------------------------------
  // Move tables: the dictionary `{source: [target, ...]}` in insertion order.

  datatype Move = Move(source: Pos, target: Pos)

  datatype Entry = Entry(source: Pos, targets: seq<Pos>)

  type Table = seq<Entry>

  /** The entry the scan adds for cell `p`: present when `p` holds `color` and has targets. */
  function CellPart(g: Grid, ch: Checkers, rules: Rules, color: Color, p: Pos): Table
    requires WellFormed(g) && Shaped(ch) && NonNegative(ch) && InBoard(p)
  {
    var ts := if At(g, p) == color then TargetsAt(g, ch, rules, color, p) else [];
    if ts != [] then [Entry(p, ts)] else []
  }

  /** The table built by the raster scan before cell `(i, j)`; `(8, 0)` is the end of the scan. */
  function TableUpTo(g: Grid, ch: Checkers, rules: Rules, color: Color, i: int, j: int): Table
    requires WellFormed(g) && Shaped(ch) && NonNegative(ch) && ScanPoint(i, j)
    decreases i, j
  {
    if j > 0 then TableUpTo(g, ch, rules, color, i, j - 1) + CellPart(g, ch, rules, color, Pos(i, j - 1))
    else if i > 0 then TableUpTo(g, ch, rules, color, i - 1, 8)
    else []
  }

  /** `get_avail_steps(color)`. */
  function AvailTable(g: Grid, ch: Checkers, rules: Rules, color: Color): Table
    requires WellFormed(g) && Shaped(ch) && NonNegative(ch)
  {
    TableUpTo(g, ch, rules, color, 8, 0)
  }

  predicate HasKey(t: Table, p: Pos) {
    exists k | 0 <= k < |t| :: t[k].source == p
  }

  /** The dictionary lookup `t[p]`, or `[]` when `p` is not a key (`get_avail_steps_in`). */
  function StepsIn(t: Table, p: Pos): (r: seq<Pos>)
    ensures !HasKey(t, p) ==> r == []
  {
    if t == [] then []
    else if t[|t| - 1].source == p then t[|t| - 1].targets
    else StepsIn(t[..|t| - 1], p)
  }

  /** What every generated table satisfies: keys on the board and distinct, lists non-empty and on the board. */
  predicate WellFormedTable(t: Table) {
    (forall k | 0 <= k < |t| :: InBoard(t[k].source) && t[k].targets != []) &&
    (forall k, q | 0 <= k < |t| && q in t[k].targets :: InBoard(q)) &&
    (forall k, l | 0 <= k < l < |t| :: t[k].source != t[l].source)
  }

  /** A legal move under the sliding rule: an own piece and one of its eight slides. */
  predicate IsMove(g: Grid, ch: Checkers, rules: Rules, color: Color, p: Pos, q: Pos)
    requires WellFormed(g) && Shaped(ch) && NonNegative(ch)
  {
    InBoard(p) && At(g, p) == color &&
    exists d: Direction :: Slides(g, ch, rules, color, p, d) && q == SlideTarget(ch, rules, p, d)
  }

  /** The `(source, target)` pairs of one entry, in list order. */
  function Pairs(e: Entry): seq<Move> {
    seq(|e.targets|, k requires 0 <= k < |e.targets| => Move(e.source, e.targets[k]))
  }

  /** All `(source, target)` pairs, in key order and then list order. */
  function Flatten(t: Table): seq<Move> {
    if t == [] then [] else Flatten(t[..|t| - 1]) + Pairs(t[|t| - 1])
  }

  /** The target of `m` holds an opponent's piece. */
  predicate Captures(g: Grid, color: Color, m: Move)
    requires WellFormed(g)
  {
    InBoard(m.target) && At(g, m.target) == Opponent(color)
  }

  /** The first capturing move of a list, if any. */
  function FirstCapture(g: Grid, color: Color, ms: seq<Move>): (r: Option<Move>)
    requires WellFormed(g)
    ensures r.None? <==> forall k | 0 <= k < |ms| :: !Captures(g, color, ms[k])
    ensures r.Some? ==> exists k | 0 <= k < |ms| ::
      ms[k] == r.value && Captures(g, color, ms[k]) && forall l | 0 <= l < k :: !Captures(g, color, ms[l])
  {
    if ms == [] then None
    else if Captures(g, color, ms[0]) then Some(ms[0])
    else FirstCapture(g, color, ms[1..])
  }

  // ---------------------------------------------------------------------------
  // The generator, as the Python loops compute it.

  /** A cell between two cells on the board lies on the board. */
  lemma ShiftBetween(p: Pos, d: Direction, n: int, s: int)
    requires InBoard(p) && InBoard(Shift(p, d, n)) && 0 <= s <= n
    ensures InBoard(Shift(p, d, s))
  {
  }

  /** The inner `no_enemy` scan over the cells strictly between the piece and its target. */
  method NoEnemyBetween(g: Grid, color: Color, p: Pos, d: Direction, n: int) returns (noEnemy: bool)
    requires WellFormed(g) && InBoard(p) && InBoard(Shift(p, d, n)) && n >= 0
    ensures noEnemy == ClearPath(g, color, p, d, n)
  {
    var s := 1;
    while s < n
      invariant 1 <= s && (n >= 1 ==> s <= n)
      invariant forall s' | 1 <= s' < s :: InBoard(Shift(p, d, s')) && At(g, Shift(p, d, s')) != Opponent(color)
    {
      ShiftBetween(p, d, n, s);
      if At(g, Shift(p, d, s)) == Opponent(color) {
        return false;
      }
      s := s + 1;
    }
    return true;
  }

  /** The eight direction blocks of `get_avail_steps` for the piece at `p`, in their order. */
  method TargetsAtCell(g: Grid, ch: Checkers, rules: Rules, color: Color, p: Pos) returns (ts: seq<Pos>)
    requires WellFormed(g) && Shaped(ch) && NonNegative(ch) && InBoard(p)
    ensures ts == TargetsAt(g, ch, rules, color, p)
  {
    ts := [];
    for k := 0 to 8
      invariant ts == TargetsOver(g, ch, rules, color, p, k)
    {
      var d := Directions[k];
      var n := Distance(ch, rules, p, d);
      var q := Shift(p, d, n);
      if InBoard(q) && At(g, q) != color {
        var noEnemy := NoEnemyBetween(g, color, p, d, n);
        if noEnemy {
          ts := ts + [q];
        }
      }
    }
  }

  /** `get_avail_steps(color)`: the nested raster loops over the matrix. */
  method GenerateSteps(g: Grid, ch: Checkers, rules: Rules, color: Color) returns (steps: Table)
    requires WellFormed(g) && Shaped(ch) && NonNegative(ch)
    ensures steps == AvailTable(g, ch, rules, color)
  {
    steps := [];
    for i := 0 to 8
      invariant steps == TableUpTo(g, ch, rules, color, i, 0)
    {
      for j := 0 to 8
        invariant steps == TableUpTo(g, ch, rules, color, i, j)
      {
        var added := CellEntry(g, ch, rules, color, Pos(i, j));
        steps := steps + added;
      }
    }
  }

  /** The body of the raster loops for one cell: its entry, if the cell holds `color` and has targets. */
  method CellEntry(g: Grid, ch: Checkers, rules: Rules, color: Color, p: Pos) returns (added: Table)
    requires WellFormed(g) && Shaped(ch) && NonNegative(ch) && InBoard(p)
    ensures added == CellPart(g, ch, rules, color, p)
  {
    added := [];
    if At(g, p) == color {
      var ts := TargetsAtCell(g, ch, rules, color, p);
      if ts != [] {
        added := [Entry(p, ts)];
      }
    }
  }

  // ---------------------------------------------------------------------------
  // What a target list holds.

  /** The position of each direction in `Directions`. */
  function DirectionIndex(d: Direction): (k: nat)
    ensures k < |Directions| && Directions[k] == d
  {
    match d
    case Right => 0
    case Left => 1
    case Down => 2
    case Up => 3
    case UpRight => 4
    case DownLeft => 5
    case UpLeft => 6
    case DownRight => 7
  }

  /** `q` is the landing cell of a slide in one of the first `k` directions. */
  predicate SlidesToAmong(g: Grid, ch: Checkers, rules: Rules, color: Color, p: Pos, k: nat, q: Pos)
    requires WellFormed(g) && Shaped(ch) && NonNegative(ch) && InBoard(p) && k <= 8
  {
    exists m | 0 <= m < k :: Slides(g, ch, rules, color, p, Directions[m]) && q == SlideTarget(ch, rules, p, Directions[m])
  }

  lemma SlidesToAmongStep(g: Grid, ch: Checkers, rules: Rules, color: Color, p: Pos, k: nat, q: Pos)
    requires WellFormed(g) && Shaped(ch) && NonNegative(ch) && InBoard(p) && 0 < k <= 8
    ensures SlidesToAmong(g, ch, rules, color, p, k, q)
        <==> (SlidesToAmong(g, ch, rules, color, p, k - 1, q) ||
              (Slides(g, ch, rules, color, p, Directions[k - 1]) && q == SlideTarget(ch, rules, p, Directions[k - 1])))
  {
  }

  lemma {:induction false} TargetsOverMembers(g: Grid, ch: Checkers, rules: Rules, color: Color, p: Pos, k: nat, q: Pos)
    requires WellFormed(g) && Shaped(ch) && NonNegative(ch) && InBoard(p) && k <= 8
    ensures q in TargetsOver(g, ch, rules, color, p, k) <==> SlidesToAmong(g, ch, rules, color, p, k, q)
  {
    if k > 0 {
      TargetsOverMembers(g, ch, rules, color, p, k - 1, q);
      SlidesToAmongStep(g, ch, rules, color, p, k, q);
    }
  }

  /** A target of `p` is exactly the landing cell of one of its eight slides. */
  lemma TargetsAtMembers(g: Grid, ch: Checkers, rules: Rules, color: Color, p: Pos, q: Pos)
    requires WellFormed(g) && Shaped(ch) && NonNegative(ch) && InBoard(p)
    ensures q in TargetsAt(g, ch, rules, color, p)
        <==> exists d: Direction :: Slides(g, ch, rules, color, p, d) && q == SlideTarget(ch, rules, p, d)
  {
    TargetsOverMembers(g, ch, rules, color, p, 8, q);
    if exists d: Direction :: Slides(g, ch, rules, color, p, d) && q == SlideTarget(ch, rules, p, d) {
      var d: Direction :| Slides(g, ch, rules, color, p, d) && q == SlideTarget(ch, rules, p, d);
      var m := DirectionIndex(d);
      assert Slides(g, ch, rules, color, p, Directions[m]);
    }
  }

  /** Every target is on the board and does not hold `color`. */
  lemma TargetsOnBoard(g: Grid, ch: Checkers, rules: Rules, color: Color, p: Pos)
    requires WellFormed(g) && Shaped(ch) && NonNegative(ch) && InBoard(p)
    ensures forall q | q in TargetsAt(g, ch, rules, color, p) :: InBoard(q) && At(g, q) != color
  {
    forall q | q in TargetsAt(g, ch, rules, color, p)
      ensures InBoard(q) && At(g, q) != color
    {
      TargetsAtMembers(g, ch, rules, color, p, q);
    }
  }

  // ---------------------------------------------------------------------------
  // What a table holds.

  /** Cell `p` comes before scan point `(i, j)`. */
  predicate Before(p: Pos, i: int, j: int) {
    p.row < i || (p.row == i && p.col < j)
  }

  /** A cell before scan point `(i, j)` has a smaller raster index than the cell at `(i, j)`. */
  lemma BeforeRaster(p: Pos, i: int, j: int)
    requires InBoard(p) && Before(p, i, j) && 0 <= j
    ensures RasterIndex(p) < 8 * i + j
  {
  }

  /** What the scan has built up to `(i, j)`: keys scanned so far in raster order, each an own piece with its full, non-empty target list. */
  predicate ScanFacts(g: Grid, ch: Checkers, rules: Rules, color: Color, t: Table, i: int, j: int)
    requires WellFormed(g) && Shaped(ch) && NonNegative(ch)
  {
    (forall k | 0 <= k < |t| ::
       InBoard(t[k].source) && Before(t[k].source, i, j) && At(g, t[k].source) == color &&
       t[k].targets == TargetsAt(g, ch, rules, color, t[k].source) && t[k].targets != []) &&
    (forall k, l | 0 <= k < l < |t| :: RasterIndex(t[k].source) < RasterIndex(t[l].source))
  }

  /** The scan facts before a cell still hold one cell later when nothing is added. */
  lemma FactsWiden(g: Grid, ch: Checkers, rules: Rules, color: Color, t: Table, i: int, j: int)
    requires WellFormed(g) && Shaped(ch) && NonNegative(ch) && 0 <= i < 8 && 0 < j <= 8
    requires ScanFacts(g, ch, rules, color, t, i, j - 1)
    ensures ScanFacts(g, ch, rules, color, t, i, j)
  {
  }

  /** Appending the entry of the scanned cell keeps the scan facts. */
  lemma FactsSnoc(g: Grid, ch: Checkers, rules: Rules, color: Color, t: Table, e: Entry, i: int, j: int)
    requires WellFormed(g) && Shaped(ch) && NonNegative(ch) && 0 <= i < 8 && 0 < j <= 8
    requires ScanFacts(g, ch, rules, color, t, i, j - 1)
    requires e.source == Pos(i, j - 1) && At(g, e.source) == color
    requires e.targets == TargetsAt(g, ch, rules, color, e.source) && e.targets != []
    ensures ScanFacts(g, ch, rules, color, t + [e], i, j)
  {
    var t' := t + [e];
    forall k | 0 <= k < |t|
      ensures RasterIndex(t[k].source) < RasterIndex(e.source)
    {
      BeforeRaster(t[k].source, i, j - 1);
    }
    assert forall k | 0 <= k < |t| :: t'[k] == t[k];
    assert t'[|t|] == e;
  }

  /** Scanning cell `(i, j - 1)` keeps the scan facts. */
  lemma FactsNextCell(g: Grid, ch: Checkers, rules: Rules, color: Color, i: int, j: int)
    requires WellFormed(g) && Shaped(ch) && NonNegative(ch) && 0 <= i < 8 && 0 < j <= 8
    requires ScanFacts(g, ch, rules, color, TableUpTo(g, ch, rules, color, i, j - 1), i, j - 1)
    ensures ScanFacts(g, ch, rules, color, TableUpTo(g, ch, rules, color, i, j), i, j)
  {
    var t := TableUpTo(g, ch, rules, color, i, j - 1);
    var p := Pos(i, j - 1);
    var c := CellPart(g, ch, rules, color, p);
    assert TableUpTo(g, ch, rules, color, i, j) == t + c;
    if c == [] {
      assert t + c == t;
      FactsWiden(g, ch, rules, color, t, i, j);
    } else {
      assert c == [Entry(p, TargetsAt(g, ch, rules, color, p))] && At(g, p) == color;
      FactsSnoc(g, ch, rules, color, t, c[0], i, j);
    }
  }

  /** Passing from the end of row `i - 1` to the start of row `i` keeps the scan facts. */
  lemma FactsNextRow(g: Grid, ch: Checkers, rules: Rules, color: Color, i: int)
    requires WellFormed(g) && Shaped(ch) && NonNegative(ch) && 0 < i <= 8
    requires ScanFacts(g, ch, rules, color, TableUpTo(g, ch, rules, color, i - 1, 8), i - 1, 8)
    ensures ScanFacts(g, ch, rules, color, TableUpTo(g, ch, rules, color, i, 0), i, 0)
  {
    assert TableUpTo(g, ch, rules, color, i, 0) == TableUpTo(g, ch, rules, color, i - 1, 8);
  }

  lemma {:induction false} TableFacts(g: Grid, ch: Checkers, rules: Rules, color: Color, i: int, j: int)
    requires WellFormed(g) && Shaped(ch) && NonNegative(ch) && ScanPoint(i, j)
    ensures ScanFacts(g, ch, rules, color, TableUpTo(g, ch, rules, color, i, j), i, j)
    decreases i, j
  {
    if j > 0 {
      TableFacts(g, ch, rules, color, i, j - 1);
      FactsNextCell(g, ch, rules, color, i, j);
    } else if i > 0 {
      assert j == 0;
      TableFacts(g, ch, rules, color, i - 1, 8);
      FactsNextRow(g, ch, rules, color, i);
    } else {
      assert TableUpTo(g, ch, rules, color, i, j) == [];
    }
  }

  /** A lookup after appending at most one entry. */
  lemma StepsInSnoc(t: Table, c: Table, p: Pos)
    requires |c| <= 1
    ensures StepsIn(t + c, p) == if |c| == 1 && c[0].source == p then c[0].targets else StepsIn(t, p)
  {
    if c == [] {
      assert t + c == t;
    } else {
      assert (t + c)[..|t|] == t;
    }
  }

  /** The lookup in a partial table: the targets of an own piece already scanned, else `[]`. */
  predicate LookupInScan(g: Grid, ch: Checkers, rules: Rules, color: Color, i: int, j: int, p: Pos)
    requires WellFormed(g) && Shaped(ch) && NonNegative(ch) && ScanPoint(i, j)
  {
    StepsIn(TableUpTo(g, ch, rules, color, i, j), p)
      == if InBoard(p) && Before(p, i, j) && At(g, p) == color then TargetsAt(g, ch, rules, color, p) else []
  }

  /** Passing from the end of row `i - 1` to the start of row `i` keeps the lookup. */
  lemma LookupNextRow(g: Grid, ch: Checkers, rules: Rules, color: Color, i: int, p: Pos)
    requires WellFormed(g) && Shaped(ch) && NonNegative(ch) && 0 < i <= 8
    requires LookupInScan(g, ch, rules, color, i - 1, 8, p)
    ensures LookupInScan(g, ch, rules, color, i, 0, p)
  {
    assert TableUpTo(g, ch, rules, color, i, 0) == TableUpTo(g, ch, rules, color, i - 1, 8);
    assert InBoard(p) ==> (Before(p, i, 0) <==> Before(p, i - 1, 8));
  }

  /** Scanning cell `(i, j - 1)` keeps the lookup. */
  lemma LookupNextCell(g: Grid, ch: Checkers, rules: Rules, color: Color, i: int, j: int, p: Pos)
    requires WellFormed(g) && Shaped(ch) && NonNegative(ch) && 0 <= i < 8 && 0 < j <= 8
    requires LookupInScan(g, ch, rules, color, i, j - 1, p)
    ensures LookupInScan(g, ch, rules, color, i, j, p)
  {
    var q := Pos(i, j - 1);
    var c := CellPart(g, ch, rules, color, q);
    StepsInSnoc(TableUpTo(g, ch, rules, color, i, j - 1), c, p);
    if p == q {
      assert !Before(p, i, j - 1);
    } else {
      assert Before(p, i, j) == Before(p, i, j - 1);
      assert |c| == 1 ==> c[0].source != p;
    }
  }

  lemma {:induction false} StepsInScan(g: Grid, ch: Checkers, rules: Rules, color: Color, i: int, j: int, p: Pos)
    requires WellFormed(g) && Shaped(ch) && NonNegative(ch) && ScanPoint(i, j)
    ensures LookupInScan(g, ch, rules, color, i, j, p)
    decreases i, j
  {
    if j > 0 {
      StepsInScan(g, ch, rules, color, i, j - 1, p);
      LookupNextCell(g, ch, rules, color, i, j, p);
    } else if i > 0 {
      assert j == 0;
      StepsInScan(g, ch, rules, color, i - 1, 8, p);
      LookupNextRow(g, ch, rules, color, i, p);
    } else {
      assert TableUpTo(g, ch, rules, color, i, j) == [];
    }
  }

  /** Every generated table is well formed: no key maps to an empty list. */
  lemma AvailTableWellFormed(g: Grid, ch: Checkers, rules: Rules, color: Color)
    requires WellFormed(g) && Shaped(ch) && NonNegative(ch)
    ensures WellFormedTable(AvailTable(g, ch, rules, color))
  {
    var t := AvailTable(g, ch, rules, color);
    TableFacts(g, ch, rules, color, 8, 0);
    forall k, q | 0 <= k < |t| && q in t[k].targets
      ensures InBoard(q)
    {
      TargetsOnBoard(g, ch, rules, color, t[k].source);
    }
  }

  /** `get_avail_steps_in` on a generated table: the targets of an own piece, `[]` for any other cell. */
  lemma AvailStepsIn(g: Grid, ch: Checkers, rules: Rules, color: Color, p: Pos)
    requires WellFormed(g) && Shaped(ch) && NonNegative(ch)
    ensures StepsIn(AvailTable(g, ch, rules, color), p)
         == if InBoard(p) && At(g, p) == color then TargetsAt(g, ch, rules, color, p) else []
  {
    StepsInScan(g, ch, rules, color, 8, 0, p);
    assert LookupInScan(g, ch, rules, color, 8, 0, p);
  }

  /** Keys of a generated table are exactly the own pieces with at least one target. */
  lemma AvailKeys(g: Grid, ch: Checkers, rules: Rules, color: Color, p: Pos)
    requires WellFormed(g) && Shaped(ch) && NonNegative(ch)
    ensures HasKey(AvailTable(g, ch, rules, color), p)
        <==> InBoard(p) && At(g, p) == color && TargetsAt(g, ch, rules, color, p) != []
  {
    AvailStepsIn(g, ch, rules, color, p);
    TableFacts(g, ch, rules, color, 8, 0);
  }

  /** The generator is sound and complete for the sliding rule. */
  lemma GeneratedMoves(g: Grid, ch: Checkers, rules: Rules, color: Color, p: Pos, q: Pos)
    requires WellFormed(g) && Shaped(ch) && NonNegative(ch)
    ensures q in StepsIn(AvailTable(g, ch, rules, color), p) <==> IsMove(g, ch, rules, color, p, q)
  {
    AvailStepsIn(g, ch, rules, color, p);
    if InBoard(p) {
      TargetsAtMembers(g, ch, rules, color, p, q);
    }
  }

  /** `can_color_go`: a generated table is non-empty exactly when some legal move exists. */
  lemma AvailTableNonEmpty(g: Grid, ch: Checkers, rules: Rules, color: Color)
    requires WellFormed(g) && Shaped(ch) && NonNegative(ch)
    ensures |AvailTable(g, ch, rules, color)| > 0 <==> exists p, q :: IsMove(g, ch, rules, color, p, q)
  {
    var t := AvailTable(g, ch, rules, color);
    if |t| > 0 {
      TableFacts(g, ch, rules, color, 8, 0);
      var p := t[0].source;
      var q := t[0].targets[0];
      AvailStepsIn(g, ch, rules, color, p);
      GeneratedMoves(g, ch, rules, color, p, q);
    }
    if exists p, q :: IsMove(g, ch, rules, color, p, q) {
      var p, q :| IsMove(g, ch, rules, color, p, q);
      GeneratedMoves(g, ch, rules, color, p, q);
    }
  }

  // ---------------------------------------------------------------------------
  // The sliding distance and the two rule sets.

  /** Every cell a move in direction `d` passes over lies on the line of the move. */
  lemma AxisLineThrough(p: Pos, d: Direction, n: int)
    ensures OnLine(AxisLine(p, d), Shift(p, d, n))
  {
  }

  /** The current rules read the counter of the line the move travels along; the older rules do so only for rows and columns. */
  lemma CounterLines(p: Pos, d: Direction)
    ensures CounterLine(Current, p, d) == AxisLine(p, d)
    ensures CounterLine(Older, p, d) == AxisLine(p, d) <==> d in {Right, Left, Down, Up}
  {
  }

  /** With counters that match the grid, the distance is the number of pieces on the line whose counter is read. */
  lemma DistanceIsOccupancy(g: Grid, ch: Checkers, rules: Rules, p: Pos, d: Direction)
    requires WellFormed(g) && CountersMatch(g, ch) && InBoard(p)
    ensures Distance(ch, rules, p, d) == Occupancy(g, CounterLine(rules, p, d))
  {
  }

  /**
    * Under the current rules a piece moves exactly as many cells as there are pieces on the
    * line of its move, and at least one cell, since the piece counts itself.
    */
  lemma CurrentDistance(g: Grid, ch: Checkers, p: Pos, d: Direction)
    requires WellFormed(g) && CountersMatch(g, ch) && InBoard(p)
    ensures Distance(ch, Current, p, d) == Occupancy(g, AxisLine(p, d))
    ensures At(g, p) != 0 ==> Distance(ch, Current, p, d) >= 1
  {
    DistanceIsOccupancy(g, ch, Current, p, d);
    if At(g, p) != 0 {
      AxisLineThrough(p, d, 0);
      assert Shift(p, d, 0) == p;
      CountPositive(g, NonEmptyOn(AxisLine(p, d)), p, 64);
    }
  }

  /** The two diagonal counters through `p` agree. */
  predicate DiagonalsAgree(ch: Checkers, p: Pos)
    requires Shaped(ch) && InBoard(p)
  {
    ch.mains[MainIndex(p)] == ch.antis[AntiIndex(p)]
  }

  lemma SlidesAgree(g: Grid, ch: Checkers, color: Color, p: Pos, d: Direction)
    requires WellFormed(g) && Shaped(ch) && NonNegative(ch) && InBoard(p)
    requires DiagonalsAgree(ch, p)
    ensures Slides(g, ch, Older, color, p, d) == Slides(g, ch, Current, color, p, d)
    ensures SlideTarget(ch, Older, p, d) == SlideTarget(ch, Current, p, d)
  {
    assert Distance(ch, Older, p, d) == Distance(ch, Current, p, d);
  }

  /** Along rows and columns the older generator reads the same counters, on every board. */
  lemma StraightSlidesAgree(g: Grid, ch: Checkers, color: Color, p: Pos, d: Direction)
    requires WellFormed(g) && Shaped(ch) && NonNegative(ch) && InBoard(p)
    requires d == Right || d == Left || d == Down || d == Up
    ensures Slides(g, ch, Older, color, p, d) == Slides(g, ch, Current, color, p, d)
    ensures SlideTarget(ch, Older, p, d) == SlideTarget(ch, Current, p, d)
    ensures Distance(ch, Older, p, d) == if d == Right || d == Left then ch.rows[p.row] else ch.cols[p.col]
  {
  }

  lemma {:induction false} TargetsOverAgree(g: Grid, ch: Checkers, color: Color, p: Pos, k: nat)
    requires WellFormed(g) && Shaped(ch) && NonNegative(ch) && InBoard(p) && k <= 8
    requires DiagonalsAgree(ch, p)
    ensures TargetsOver(g, ch, Older, color, p, k) == TargetsOver(g, ch, Current, color, p, k)
  {
    if k > 0 {
      TargetsOverAgree(g, ch, color, p, k - 1);
      SlidesAgree(g, ch, color, p, Directions[k - 1]);
    }
  }

  /** Every own piece sees equal counts on its two diagonals. */
  ghost predicate OwnDiagonalsAgree(g: Grid, ch: Checkers, color: Color)
    requires WellFormed(g) && Shaped(ch)
  {
    forall p | InBoard(p) && At(g, p) == color :: DiagonalsAgree(ch, p)
  }

  predicate ScansAgree(g: Grid, ch: Checkers, color: Color, i: int, j: int)
    requires WellFormed(g) && Shaped(ch) && NonNegative(ch) && ScanPoint(i, j)
  {
    TableUpTo(g, ch, Older, color, i, j) == TableUpTo(g, ch, Current, color, i, j)
  }

  lemma CellPartsAgree(g: Grid, ch: Checkers, color: Color, i: int, j: int)
    requires WellFormed(g) && Shaped(ch) && NonNegative(ch) && 0 <= i < 8 && 0 < j <= 8
    requires OwnDiagonalsAgree(g, ch, color)
    requires ScansAgree(g, ch, color, i, j - 1)
    ensures ScansAgree(g, ch, color, i, j)
  {
    var p := Pos(i, j - 1);
    if At(g, p) == color {
      TargetsOverAgree(g, ch, color, p, 8);
    }
    assert CellPart(g, ch, Older, color, p) == CellPart(g, ch, Current, color, p);
  }

  lemma RowsAgree(g: Grid, ch: Checkers, color: Color, i: int)
    requires WellFormed(g) && Shaped(ch) && NonNegative(ch) && 0 < i <= 8
    requires ScansAgree(g, ch, color, i - 1, 8)
    ensures ScansAgree(g, ch, color, i, 0)
  {
  }

  lemma {:induction false} TablesAgree(g: Grid, ch: Checkers, color: Color, i: int, j: int)
    requires WellFormed(g) && Shaped(ch) && NonNegative(ch) && ScanPoint(i, j)
    requires OwnDiagonalsAgree(g, ch, color)
    ensures ScansAgree(g, ch, color, i, j)
    decreases i, j
  {
    if j > 0 {
      TablesAgree(g, ch, color, i, j - 1);
      CellPartsAgree(g, ch, color, i, j);
    } else if i > 0 {
      assert j == 0;
      TablesAgree(g, ch, color, i - 1, 8);
      RowsAgree(g, ch, color, i);
    }
  }

  /** Where the two diagonal counters agree for every own piece, both generators build the same table. */
  lemma AvailTablesAgree(g: Grid, ch: Checkers, color: Color)
    requires WellFormed(g) && Shaped(ch) && NonNegative(ch)
    requires OwnDiagonalsAgree(g, ch, color)
    ensures AvailTable(g, ch, Older, color) == AvailTable(g, ch, Current, color)
  {
    TablesAgree(g, ch, color, 8, 0);
  }

  /** On the standard set-up every piece sits on two diagonals that each hold two pieces. */
  lemma InitialDiagonalsAgree(color: Color)
    ensures WellFormed(InitialGrid) && Shaped(InitialCheckers)
    ensures OwnDiagonalsAgree(InitialGrid, InitialCheckers, color)
  {
    InitialLayout();
    var ch := InitialCheckers;
    assert forall x | 1 <= x <= 6 || 9 <= x <= 14 :: ch.mains[x] == 2 && ch.antis[x] == 2;
    forall p | InBoard(p) && At(InitialGrid, p) == color
      ensures DiagonalsAgree(ch, p)
    {
      assert InitialCell(p) != 0;
    }
  }

  /** Both generators build the same opening table for either colour. */
  lemma InitialTablesAgree(color: Color)
    ensures WellFormed(InitialGrid) && CountersMatch(InitialGrid, InitialCheckers)
    ensures AvailTable(InitialGrid, InitialCheckers, Older, color) == AvailTable(InitialGrid, InitialCheckers, Current, color)
  {
    InitialCountersMatch();
    MatchingCountersNonNegative(InitialGrid, InitialCheckers);
    InitialDiagonalsAgree(color);
    AvailTablesAgree(InitialGrid, InitialCheckers, color);
  }

  // ---------------------------------------------------------------------------
  // Move length: the rule of the game against the older generator.

  /**
    * Under the current rules every generated move travels, along some direction, exactly as
    * many cells as there are pieces on the line of that move.
    */
  lemma CurrentMovesMatchLines(g: Grid, ch: Checkers, color: Color, p: Pos, q: Pos)
    requires WellFormed(g) && CountersMatch(g, ch) && NonNegative(ch)
    requires IsMove(g, ch, Current, color, p, q)
    ensures exists d: Direction :: q == Shift(p, d, Occupancy(g, AxisLine(p, d))) && Occupancy(g, AxisLine(p, d)) >= 1
  {
    var d: Direction :| Slides(g, ch, Current, color, p, d) && q == SlideTarget(ch, Current, p, d);
    CurrentDistance(g, ch, p, d);
  }

  /** Black on (3, 3) and (4, 4), every other cell empty. */
  const TwoOnDiagonal: Grid := seq(8, i => seq(8, j => if (i == 3 && j == 3) || (i == 4 && j == 4) then 1 else 0))

  lemma TwoOnDiagonalCells()
    ensures WellFormed(TwoOnDiagonal)
    ensures forall i, j | 0 <= i < 8 && 0 <= j < 8 ::
      At(TwoOnDiagonal, Pos(i, j)) == (if (i == 3 && j == 3) || (i == 4 && j == 4) then 1 else 0)
  {
  }

  /**
    * The older generator reads the main-diagonal counter for an up-right move. On
    * `TwoOnDiagonal` it lets the piece on (4, 4) slide two cells up-right to (2, 6), although
    * the anti-diagonal it travels along holds only that one piece; the current generator
    * does not produce this move.
    */
  lemma OlderDiagonalMiscount()
    ensures WellFormed(TwoOnDiagonal)
    ensures IsMove(TwoOnDiagonal, CountersOf(TwoOnDiagonal), Older, Black, Pos(4, 4), Pos(2, 6))
    ensures !exists d: Direction :: Pos(2, 6) == Shift(Pos(4, 4), d, Occupancy(TwoOnDiagonal, AxisLine(Pos(4, 4), d)))
    ensures !IsMove(TwoOnDiagonal, CountersOf(TwoOnDiagonal), Current, Black, Pos(4, 4), Pos(2, 6))
  {
    TwoOnDiagonalCells();
    var g := TwoOnDiagonal;
    var ch := CountersOf(g);
    MatchingCountersNonNegative(g, ch);
    MainOccupancy(g, 0);
    assert MainCell(g, 0, 3) == 1 && MainCell(g, 0, 4) == 1;
    assert Occupancy(g, Main(0)) == 2;
    AntiOccupancy(g, 14);
    assert Occupancy(g, Anti(14)) == 1;
    assert Distance(ch, Older, Pos(4, 4), UpRight) == 2;
    assert ClearPath(g, Black, Pos(4, 4), UpRight, 2) by {
      forall s | 1 <= s < 2 ensures At(g, Shift(Pos(4, 4), UpRight, s)) != Opponent(Black) {
        assert s == 1;
      }
    }
    assert Slides(g, ch, Older, Black, Pos(4, 4), UpRight);
    forall d: Direction
      ensures Pos(2, 6) != Shift(Pos(4, 4), d, Occupancy(g, AxisLine(Pos(4, 4), d)))
    {
      if d == UpRight {
        assert AxisLine(Pos(4, 4), d) == Anti(14);
      }
    }
    if IsMove(g, ch, Current, Black, Pos(4, 4), Pos(2, 6)) {
      CurrentMovesMatchLines(g, ch, Black, Pos(4, 4), Pos(2, 6));
    }
  }

  // ---------------------------------------------------------------------------
  // Tables as lists of moves.

  /** Some entry of `t` has key `p` and lists `q`. */
  predicate Listed(t: Table, p: Pos, q: Pos) {
    exists k | 0 <= k < |t| :: t[k].source == p && q in t[k].targets
  }

  lemma ListedSnoc(t: Table, e: Entry, p: Pos, q: Pos)
    ensures Listed(t + [e], p, q) <==> Listed(t, p, q) || (e.source == p && q in e.targets)
  {
    if Listed(t, p, q) {
      var k :| 0 <= k < |t| && t[k].source == p && q in t[k].targets;
      assert (t + [e])[k] == t[k];
    }
    if Listed(t + [e], p, q) {
      var k :| 0 <= k < |t| + 1 && (t + [e])[k].source == p && q in (t + [e])[k].targets;
      if k < |t| {
        assert t[k] == (t + [e])[k];
      }
    }
    if e.source == p && q in e.targets {
      assert (t + [e])[|t|] == e;
    }
  }

  /** With distinct keys, a lookup lists exactly what the entry with that key lists. */
  lemma {:induction false} StepsInListed(t: Table, p: Pos, q: Pos)
    requires forall a, b | 0 <= a < b < |t| :: t[a].source != t[b].source
    ensures q in StepsIn(t, p) <==> Listed(t, p, q)
    decreases |t|
  {
    if t != [] {
      var init, e := t[..|t| - 1], t[|t| - 1];
      assert t == init + [e];
      ListedSnoc(init, e, p, q);
      StepsInListed(init, p, q);
    }
  }

  lemma PairsMembers(e: Entry, m: Move)
    ensures m in Pairs(e) <==> m.source == e.source && m.target in e.targets
  {
    if m.source == e.source && m.target in e.targets {
      var k :| 0 <= k < |e.targets| && e.targets[k] == m.target;
      assert Pairs(e)[k] == m;
    }
  }

  lemma {:induction false} FlattenListed(t: Table, m: Move)
    ensures m in Flatten(t) <==> Listed(t, m.source, m.target)
    decreases |t|
  {
    if t != [] {
      var init, e := t[..|t| - 1], t[|t| - 1];
      assert t == init + [e];
      ListedSnoc(init, e, m.source, m.target);
      FlattenListed(init, m);
      PairsMembers(e, m);
    }
  }

  lemma {:induction false} FlattenAppend(a: Table, b: Table)
    ensures Flatten(a + b) == Flatten(a) + Flatten(b)
    decreases |b|
  {
    if b == [] {
      assert a + b == a;
    } else {
      var init, e := b[..|b| - 1], b[|b| - 1];
      var ab := a + b;
      assert ab[..|ab| - 1] == a + init && ab[|ab| - 1] == e;
      assert Flatten(ab) == Flatten(a + init) + Pairs(e);
      assert Flatten(b) == Flatten(init) + Pairs(e);
      FlattenAppend(a, init);
    }
  }

  /**
    * The list of moves of a well-formed table holds exactly the pairs its lookups return, and
    * it is empty exactly when the table is.
    */
  lemma FlattenMoves(t: Table, m: Move)
    requires WellFormedTable(t)
    ensures m in Flatten(t) <==> m.target in StepsIn(t, m.source)
    ensures Flatten(t) == [] <==> t == []
  {
    FlattenListed(t, m);
    StepsInListed(t, m.source, m.target);
    if t != [] {
      var e := t[|t| - 1];
      assert Pairs(e)[0] == Move(e.source, e.targets[0]);
    }
  }

  /** The moves of a generated table are exactly the legal moves. */
  lemma AvailMoves(g: Grid, ch: Checkers, rules: Rules, color: Color, m: Move)
    requires WellFormed(g) && Shaped(ch) && NonNegative(ch)
    ensures m in Flatten(AvailTable(g, ch, rules, color)) <==> IsMove(g, ch, rules, color, m.source, m.target)
  {
    AvailTableWellFormed(g, ch, rules, color);
    FlattenMoves(AvailTable(g, ch, rules, color), m);
    GeneratedMoves(g, ch, rules, color, m.source, m.target);
  }

  /** The first capture of a concatenation is that of the front part, if it has one. */
  lemma {:induction false} FirstCaptureAppend(g: Grid, color: Color, a: seq<Move>, b: seq<Move>)
    requires WellFormed(g)
    ensures FirstCapture(g, color, a + b)
         == if FirstCapture(g, color, a).Some? then FirstCapture(g, color, a) else FirstCapture(g, color, b)
  {
    if a != [] {
      assert (a + b)[0] == a[0] && (a + b)[1..] == a[1..] + b;
      FirstCaptureAppend(g, color, a[1..], b);
    } else {
      assert a + b == b;
    }
  }

  /** What a lookup in a well-formed table returns lies on the board. */
  lemma StepsInOnBoard(t: Table, p: Pos, q: Pos)
    requires WellFormedTable(t) && q in StepsIn(t, p)
    ensures InBoard(q)
  {
    StepsInListed(t, p, q);
  }

  /** Under matching counters a move never stays in place: the piece itself counts on its line. */
  lemma MoveLeavesSource(g: Grid, ch: Checkers, color: Color, p: Pos, q: Pos)
    requires WellFormed(g) && CountersMatch(g, ch) && NonNegative(ch)
    requires IsMove(g, ch, Current, color, p, q)
    ensures q != p && InBoard(p) && InBoard(q)
    ensures At(g, p) == color && At(g, q) != color
  {
    var d: Direction :| Slides(g, ch, Current, color, p, d) && q == SlideTarget(ch, Current, p, d);
    CurrentDistance(g, ch, p, d);
  }

  /** The lookup of any cell in a generated table lists exactly that cell's legal targets. */
  lemma LegalTargets(g: Grid, ch: Checkers, rules: Rules, color: Color, p: Pos)
    requires WellFormed(g) && Shaped(ch) && NonNegative(ch)
    ensures forall q :: q in StepsIn(AvailTable(g, ch, rules, color), p) <==> IsMove(g, ch, rules, color, p, q)
  {
    forall q
      ensures q in StepsIn(AvailTable(g, ch, rules, color), p) <==> IsMove(g, ch, rules, color, p, q)
    {
      GeneratedMoves(g, ch, rules, color, p, q);
    }
  }

  /** A well-formed table is non-empty exactly when some lookup in it lists a target. */
  lemma TableNonEmpty(t: Table)
    requires WellFormedTable(t)
    ensures |t| > 0 <==> exists p, q :: q in StepsIn(t, p)
  {
    if |t| > 0 {
      StepsInListed(t, t[0].source, t[0].targets[0]);
    }
    if exists p, q :: q in StepsIn(t, p) {
      var p, q :| q in StepsIn(t, p);
      StepsInListed(t, p, q);
    }
  }

  /** With distinct keys, looking up the key of entry `k` gives that entry's list. */
  lemma {:induction false} StepsInAtKey(t: Table, k: int)
    requires forall a, b | 0 <= a < b < |t| :: t[a].source != t[b].source
    requires 0 <= k < |t|
    ensures StepsIn(t, t[k].source) == t[k].targets
    decreases |t|
  {
    if k < |t| - 1 {
      var init := t[..|t| - 1];
      assert init[k] == t[k];
      StepsInAtKey(init, k);
    }
  }
}
