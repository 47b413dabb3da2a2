/** Facts that join the move selector of src/wopr/ai.ts and the rules engine
    of src/App.tsx: what a chosen move does to the outcome of the game. */
module Play {
  import opened Options
  import opened Grid
  import opened Ai
  import opened Rules

  /** While the game is not over there is always a square left for the opponent. */
  lemma NotOverHasMove(b: Board, p: Player)
    requires !IsGameOver(b)
    ensures ChooseMove(b, p).Some?
  {
  }

  /** Taking the square `findWinningMove` reports, on a board nobody has won yet,
      makes the mover the winner and ends the game. */
  lemma {:induction false} WinningMoveWins(b: Board, p: Player)
    requires GetWinner(b).None?
    requires FindWinningMove(b, p).Some?
    ensures var next := b[FindWinningMove(b, p).value := p];
            GetWinner(next) == Some(p) && IsGameOver(next)
  {
    var i := FindWinningMove(b, p).value;
    var next := b[i := p];
    var l :| l in WinLines && l.Contains(i) && Threatens(b, l, p);
    FillingThreatCompletes(b, l, p, i);
    NewLinesAreMovers(b, i, p);
    WinnerOfOwnedLine(next, l, p);
  }

  /** Filling the empty square of a threatened line gives the line to the threatener. */
  lemma FillingThreatCompletes(b: Board, l: Line, p: Player, i: Index)
    requires Threatens(b, l, p) && l.Contains(i) && b[i] == Empty
    ensures OwnedBy(b[i := p], l, p)
  {
  }

  /** On a board with no complete line, any line completed by one new mark
      belongs to the player who placed it. */
  lemma NewLinesAreMovers(b: Board, i: Index, p: Player)
    requires forall l :: l in WinLines ==> !Complete(b, l)
    ensures forall m :: m in WinLines ==> !OwnedBy(b[i := p], m, Opponent(p))
  {
    var next := b[i := p];
    forall m | m in WinLines && OwnedBy(next, m, Opponent(p)) ensures false {
    }
  }
}
