/**
  * The adapter that lets a tree search drive the board: the moves of a state, the state after a
  * move, whether the game is over, and the reward of the side to move. The search itself is not
  * part of this model.
  */
module MctsEngine {
  import opened Options
  import opened Geometry
  import opened Moves
  import EnvBoard

  class GameState {
    var board: EnvBoard.Board

    constructor (board: EnvBoard.Board)
      ensures this.board == board
    {
      this.board := board;
    }

    /** `getPossibleActions()`: every `(source, target)` pair of the table of the side to move. */
    method GetPossibleActions() returns (actions: seq<Move>)
      requires board.Valid()
      ensures actions == Flatten(board.availSteps[board.color])
      ensures EnvBoard.Consistent(board.Snapshot()) && !board.isTerminal ==>
        actions != [] &&
        forall m :: m in actions <==> IsMove(board.matrix, board.Counters(), Current, board.color, m.source, m.target)
    {
      var t := board.availSteps[board.color];
      assert WellFormedTable(t) by {
        assert board.color == Black || board.color == White;
      }
      actions := [];
      for k := 0 to |t|
        invariant actions == Flatten(t[..k])
      {
        StepsInAtKey(t, k);
        var source := t[k].source;
        var targets := StepsIn(t, source);
        for l := 0 to |targets|
          invariant actions == Flatten(t[..k]) + Pairs(t[k])[..l]
        {
          actions := actions + [Move(source, targets[l])];
          assert Pairs(t[k])[..l + 1] == Pairs(t[k])[..l] + [Move(source, targets[l])];
        }
        NextEntry(t, k);
      }
      assert t[..|t|] == t;
      ghost var s := board.Snapshot();
      if EnvBoard.Consistent(s) && !s.terminal {
        forall m
          ensures m in actions <==> IsMove(s.matrix, s.checkers, Current, s.color, m.source, m.target)
        {
          AvailMoves(s.matrix, s.checkers, Current, s.color, m);
        }
        AvailTableNonEmpty(s.matrix, s.checkers, Current, s.color);
        var p, q :| IsMove(s.matrix, s.checkers, Current, s.color, p, q);
        assert Move(p, q) in actions;
      }
    }

    /**
      * `takeAction(action)`: a copy of the board with `exec(source, target)` applied; `None`
      * where that `exec` raises. The board of this state is left as it was.
      */
    method TakeAction(action: Move) returns (next: Option<GameState>)
      requires board.Valid()
      ensures board.Snapshot() == old(board.Snapshot())
      ensures next.Some? <==> EnvBoard.ExecSpec(board.Snapshot(), Some(action.source), Some(action.target)).Applied?
      ensures next.Some? ==>
        fresh(next.value) && fresh(next.value.board) && next.value.board.Valid() &&
        next.value.board.Snapshot() == EnvBoard.ExecSpec(board.Snapshot(), Some(action.source), Some(action.target)).next
      ensures next.Some? && EnvBoard.Consistent(board.Snapshot()) && !board.isTerminal ==>
        EnvBoard.Consistent(next.value.board.Snapshot())
    {
      var copy := new EnvBoard.Board.Copy(board);
      var accepted := copy.Exec(Some(action.source), Some(action.target));
      if !accepted {
        return None;
      }
      var s := new GameState(copy);
      next := Some(s);
      if EnvBoard.Consistent(board.Snapshot()) && !board.isTerminal {
        EnvBoard.ExecKeepsConsistent(board.Snapshot(), Some(action.source), Some(action.target));
      }
    }

    /** `isTerminal()`: the board's flag; a game that is not over has a legal move for the side to move. */
    function IsTerminal(): (r: bool)
      requires board.Valid()
      reads this, board
      ensures !r && EnvBoard.Consistent(board.Snapshot()) ==>
        exists p, q :: IsMove(board.matrix, board.Counters(), Current, board.color, p, q)
    {
      AvailTableNonEmpty(board.matrix, board.Counters(), Current, board.color);
      board.isTerminal
    }

    /** `getReward()`: on a consistent board, whether the side to move has strictly more pieces than the opponent. */
    function GetReward(): (r: bool)
      requires board.Valid()
      reads this, board
      ensures EnvBoard.Consistent(board.Snapshot()) ==>
        (r <==> PieceCount(board.matrix, board.color) > PieceCount(board.matrix, Opponent(board.color)))
    {
      board.counts[board.color] > board.counts[Opponent(board.color)]
    }
  }

  lemma NextEntry(t: Table, k: int)
    requires 0 <= k < |t|
    ensures Flatten(t[..k + 1]) == Flatten(t[..k]) + Pairs(t[k])[..|t[k].targets|]
  {
    var a := t[..k + 1];
    assert a[..|a| - 1] == t[..k];
    assert Pairs(t[k])[..|t[k].targets|] == Pairs(t[k]);
  }
}
