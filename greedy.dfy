/**
  * The greedy engine: the first capturing move in table order, and otherwise a move picked at
  * random, first a key and then one of its targets. The two random picks are given as draws:
  * `random.choice(xs)` is `xs[draw % |xs|]`, so every key and every target can be picked.
  */
module Greedy {
  import opened Options
  import opened Geometry
  import opened Moves
  import EnvBoard

  /** The move the engine returns for table `t` of the side to move `color` on grid `g`. */
  function Choice(g: Grid, color: Color, t: Table, keyDraw: nat, targetDraw: nat): (r: Option<Move>)
    requires WellFormed(g) && WellFormedTable(t)
  {
    if |t| == 0 then None
    else
      match FirstCapture(g, color, Flatten(t))
      case Some(m) => Some(m)
      case None =>
        var k := keyDraw % |t|;
        StepsInAtKey(t, k);
        var targets := StepsIn(t, t[k].source);
        Some(Move(t[k].source, targets[targetDraw % |targets|]))
  }

  class GreedyEngine {
    /** `exec(board)`; the board is only read. */
    method Exec(board: EnvBoard.Board, keyDraw: nat, targetDraw: nat) returns (r: Option<Move>)
      requires board.Valid()
      ensures r == Choice(board.matrix, board.color, board.availSteps[board.color], keyDraw, targetDraw)
    {
      var g, color, t := board.matrix, board.color, board.availSteps[board.color];
      assert WellFormedTable(t) by {
        assert color == Black || color == White;
      }
      if |t| == 0 {
        return None;
      }
      for k := 0 to |t|
        invariant FirstCapture(g, color, Flatten(t[..k])).None?
      {
        StepsInAtKey(t, k);
        var source := t[k].source;
        var targets := StepsIn(t, source);
        for l := 0 to |targets|
          invariant forall i | 0 <= i < l :: !Captures(g, color, Pairs(t[k])[i])
        {
          var target := targets[l];
          assert InBoard(target) by {
            assert target in t[k].targets;
          }
          if g[target.row][target.col] == Opponent(color) {
            FoundCapture(g, color, t, k, l);
            return Some(Move(source, target));
          }
        }
        NoCaptureInEntry(g, color, t, k);
      }
      assert t[..|t|] == t;
      var k := keyDraw % |t|;
      StepsInAtKey(t, k);
      var source := t[k].source;
      var targets := StepsIn(t, source);
      r := Some(Move(source, targets[targetDraw % |targets|]));
    }
  }

  lemma SmallDraw(a: nat, n: nat)
    requires a < n
    ensures a % n == a
  {
  }

  /** The first capture of a list is the capture that no earlier move of the list makes. */
  lemma FirstCaptureAt(g: Grid, color: Color, ms: seq<Move>, l: int)
    requires WellFormed(g) && 0 <= l < |ms| && Captures(g, color, ms[l])
    requires forall i | 0 <= i < l :: !Captures(g, color, ms[i])
    ensures FirstCapture(g, color, ms) == Some(ms[l])
  {
  }

  lemma FlattenSplit(t: Table, k: int)
    requires 0 <= k < |t|
    ensures Flatten(t) == Flatten(t[..k]) + Pairs(t[k]) + Flatten(t[k + 1..])
  {
    var a := t[..k + 1];
    assert t == a + t[k + 1..];
    FlattenAppend(a, t[k + 1..]);
    assert a[..|a| - 1] == t[..k];
    assert a[|a| - 1] == t[k];
    assert Flatten(a) == Flatten(t[..k]) + Pairs(t[k]);
  }

  /** A capture found at target `l` of entry `k`, with none before it, is the first capture of the whole table. */
  lemma FoundCapture(g: Grid, color: Color, t: Table, k: int, l: int)
    requires WellFormed(g) && WellFormedTable(t) && 0 <= k < |t| && 0 <= l < |t[k].targets|
    requires FirstCapture(g, color, Flatten(t[..k])).None?
    requires forall i | 0 <= i < l :: !Captures(g, color, Pairs(t[k])[i])
    requires At(g, t[k].targets[l]) == Opponent(color)
    ensures FirstCapture(g, color, Flatten(t)) == Some(Move(t[k].source, t[k].targets[l]))
  {
    FlattenSplit(t, k);
    FirstCaptureAt(g, color, Pairs(t[k]), l);
    FirstCaptureAppend(g, color, Flatten(t[..k]), Pairs(t[k]));
    FirstCaptureAppend(g, color, Flatten(t[..k]) + Pairs(t[k]), Flatten(t[k + 1..]));
  }

  /** Entry `k` without a capture leaves the scan of the first `k + 1` entries without one. */
  lemma NoCaptureInEntry(g: Grid, color: Color, t: Table, k: int)
    requires WellFormed(g) && 0 <= k < |t|
    requires FirstCapture(g, color, Flatten(t[..k])).None?
    requires forall i | 0 <= i < |t[k].targets| :: !Captures(g, color, Pairs(t[k])[i])
    ensures FirstCapture(g, color, Flatten(t[..k + 1])).None?
  {
    assert t[..k + 1][..k] == t[..k];
    FirstCaptureAppend(g, color, Flatten(t[..k]), Pairs(t[k]));
  }

  // ---------------------------------------------------------------------------
  // What the engine promises.

  /** The engine returns nothing exactly when the table is empty. */
  lemma ChoiceNone(g: Grid, color: Color, t: Table, keyDraw: nat, targetDraw: nat)
    requires WellFormed(g) && WellFormedTable(t)
    ensures Choice(g, color, t, keyDraw, targetDraw).None? <==> |t| == 0
  {
  }

  /** Whatever the draws, a returned move is a pair of the table. */
  lemma ChoiceInTable(g: Grid, color: Color, t: Table, keyDraw: nat, targetDraw: nat)
    requires WellFormed(g) && WellFormedTable(t)
    ensures var r := Choice(g, color, t, keyDraw, targetDraw);
      r.Some? ==> r.value in Flatten(t)
  {
    var r := Choice(g, color, t, keyDraw, targetDraw);
    if r.Some? {
      var m := r.value;
      FlattenListed(t, m);
      if FirstCapture(g, color, Flatten(t)).None? {
        var k := keyDraw % |t|;
        StepsInAtKey(t, k);
        assert t[k].source == m.source && m.target in t[k].targets;
      }
    }
  }

  /**
    * When some listed target holds an opponent's piece, the engine returns the first such pair
    * in key order and then list order, whatever the draws.
    */
  lemma ChoiceCaptures(g: Grid, color: Color, t: Table, keyDraw: nat, targetDraw: nat, m: Move)
    requires WellFormed(g) && WellFormedTable(t)
    requires m in Flatten(t) && Captures(g, color, m)
    ensures var r := Choice(g, color, t, keyDraw, targetDraw);
      r.Some? && Captures(g, color, r.value) && r.value in Flatten(t) &&
      exists j | 0 <= j < |Flatten(t)| :: Flatten(t)[j] == r.value &&
        forall i | 0 <= i < j :: !Captures(g, color, Flatten(t)[i])
  {
    var j :| 0 <= j < |Flatten(t)| && Flatten(t)[j] == m;
    assert |t| > 0;
  }

  /** Without a capture, every pair of the table is returned for some draws: the random fallback may pick any of them. */
  lemma ChoiceCoversTable(g: Grid, color: Color, t: Table, m: Move)
    requires WellFormed(g) && WellFormedTable(t)
    requires m in Flatten(t) && forall n | n in Flatten(t) :: !Captures(g, color, n)
    ensures exists keyDraw: nat, targetDraw: nat :: Choice(g, color, t, keyDraw, targetDraw) == Some(m)
  {
    FlattenListed(t, m);
    var k :| 0 <= k < |t| && t[k].source == m.source && m.target in t[k].targets;
    var i :| 0 <= i < |t[k].targets| && t[k].targets[i] == m.target;
    StepsInAtKey(t, k);
    var ms := Flatten(t);
    assert forall j | 0 <= j < |ms| :: !Captures(g, color, ms[j]) by {
      forall j | 0 <= j < |ms| ensures !Captures(g, color, ms[j]) {
        assert ms[j] in ms;
      }
    }
    SmallDraw(k, |t|);
    SmallDraw(i, |t[k].targets|);
    assert Choice(g, color, t, k, i) == Some(m);
  }

  /** On a running game, the engine's move is a legal move of the side to move. */
  lemma ChoiceIsLegal(s: EnvBoard.State, keyDraw: nat, targetDraw: nat)
    requires EnvBoard.ValidState(s) && EnvBoard.Consistent(s) && !s.terminal
    ensures var r := Choice(s.matrix, s.color, s.steps[s.color], keyDraw, targetDraw);
      r.Some? && IsMove(s.matrix, s.checkers, Current, s.color, r.value.source, r.value.target)
  {
    var r := Choice(s.matrix, s.color, s.steps[s.color], keyDraw, targetDraw);
    ChoiceInTable(s.matrix, s.color, s.steps[s.color], keyDraw, targetDraw);
    AvailMoves(s.matrix, s.checkers, Current, s.color, r.value);
  }
}
