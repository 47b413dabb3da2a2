/** The rules engine of src/App.tsx: who has won, whether it is a draw, and
    whether the game is over. All three are derived from the board alone. */
module Rules {
  import opened Options
  import opened Grid

  /** The test of `getWinner`: the first square is occupied and the other two match it. */
  predicate Complete(b: Board, l: Line) {
    b[l.a] != Empty && b[l.a] == b[l.b] && b[l.a] == b[l.c]
  }

  /** All three squares of the line hold `p`. */
  predicate OwnedBy(b: Board, l: Line, p: Player) {
    b[l.a] == p && b[l.b] == p && b[l.c] == p
  }

  /** `lines[j]` is the first complete line at or after `k`. */
  ghost predicate FirstCompleteAt(b: Board, lines: seq<Line>, k: nat, j: int) {
    k <= j < |lines| && Complete(b, lines[j]) &&
    forall i :: k <= i < j ==> !Complete(b, lines[i])
  }

  /** The scan of `getWinner` over `lines` from number `k` on. */
  function GetWinnerFrom(b: Board, lines: seq<Line>, k: nat): (r: Option<Player>)
    requires k <= |lines|
    ensures r.None? <==> forall j :: k <= j < |lines| ==> !Complete(b, lines[j])
    ensures r.Some? ==> exists j :: FirstCompleteAt(b, lines, k, j) && r.value == b[lines[j].a]
    decreases |lines| - k
  {
    if k == |lines| then None
    else if Complete(b, lines[k]) then
      assert FirstCompleteAt(b, lines, k, k);
      Some(b[lines[k].a])
    else GetWinnerFrom(b, lines, k + 1)
  }

  /** `getWinner`: the mark of the first complete line in table order, if any. */
  function GetWinner(b: Board): (r: Option<Player>)
    ensures r.Some? ==> exists l :: l in WinLines && OwnedBy(b, l, r.value)
    ensures r.None? <==> forall l :: l in WinLines ==> !Complete(b, l)
    ensures r.Some? ==> exists j :: FirstCompleteAt(b, WinLines, 0, j) && r.value == b[WinLines[j].a]
  {
    var r := GetWinnerFrom(b, WinLines, 0);
    assert r.Some? ==> exists l :: l in WinLines && OwnedBy(b, l, r.value) by {
      if r.Some? {
        var j :| FirstCompleteAt(b, WinLines, 0, j) && r.value == b[WinLines[j].a];
        assert WinLines[j] in WinLines;
      }
    }
    r
  }

  /** `isDraw`: the board is full and nobody has won. */
  function IsDraw(b: Board): (r: bool)
    ensures r <==> IsFull(b) && forall l :: l in WinLines ==> !Complete(b, l)
  {
    IsFull(b) && GetWinner(b).None?
  }

  /** `gameOver` in App: somebody has won or it is a draw. */
  function IsGameOver(b: Board): (r: bool)
    ensures r <==> IsFull(b) || exists l :: l in WinLines && Complete(b, l)
  {
    GetWinner(b).Some? || IsDraw(b)
  }

  /** A line of `p`'s, and none of the opponent's, makes `p` the winner. */
  lemma WinnerOfOwnedLine(b: Board, l: Line, p: Player)
    requires l in WinLines && OwnedBy(b, l, p)
    requires forall m :: m in WinLines ==> !OwnedBy(b, m, Opponent(p))
    ensures GetWinner(b) == Some(p)
  {
    assert Complete(b, l);
    var q := GetWinner(b).value;
    var m :| m in WinLines && OwnedBy(b, m, q);
    assert q == p || q == Opponent(p);
  }

  /** A draw and a winner never hold together. */
  lemma DrawHasNoWinner(b: Board)
    requires IsDraw(b)
    ensures GetWinner(b).None? && IsGameOver(b)
  {
  }
}
