/** The rule-based opponent of src/wopr/ai.ts: a one-ply heuristic that wins
    now, else blocks, else takes the centre, a corner or a side. */
module Ai {
  import opened Options
  import opened Grid

  /** How many of the line's three squares hold `v`. */
  function CountOnLine(b: Board, l: Line, v: Cell): nat {
    (if b[l.a] == v then 1 else 0) + (if b[l.b] == v then 1 else 0) + (if b[l.c] == v then 1 else 0)
  }

  /** `p` holds two squares of the line and the third is empty. */
  predicate Threatens(b: Board, l: Line, p: Player) {
    CountOnLine(b, l, p) == 2 && CountOnLine(b, l, Empty) == 1
  }

  /** The empty square of a line, looked for at `a`, then `b`, then `c`. */
  function GapOf(b: Board, l: Line): (i: Index)
    requires CountOnLine(b, l, Empty) >= 1
    ensures b[i] == Empty && l.Contains(i)
  {
    if b[l.a] == Empty then l.a else if b[l.b] == Empty then l.b else l.c
  }

  /** A winning move: an empty square on some
      winning line that `p` threatens. */
  ghost predicate IsWinningMove(b: Board, p: Player, i: int) {
    0 <= i < 9 && b[i] == Empty &&
    exists l :: l in WinLines && l.Contains(i) && Threatens(b, l, p)
  }

  /** `lines[j]` is the first line at or after `k` that `p` threatens. */
  ghost predicate FirstThreatAt(b: Board, p: Player, lines: seq<Line>, k: nat, j: int) {
    k <= j < |lines| && Threatens(b, lines[j], p) &&
    forall i :: k <= i < j ==> !Threatens(b, lines[i], p)
  }

  /** The scan of `findWinningMove` over `lines` from number `k` on. */
  function FindWinningMoveFrom(b: Board, p: Player, lines: seq<Line>, k: nat): (r: Option<int>)
    requires k <= |lines|
    ensures r.None? <==> forall j :: k <= j < |lines| ==> !Threatens(b, lines[j], p)
    ensures r.Some? ==> exists j :: FirstThreatAt(b, p, lines, k, j) && r.value == GapOf(b, lines[j])
    decreases |lines| - k
  {
    if k == |lines| then None
    else if Threatens(b, lines[k], p) then
      assert FirstThreatAt(b, p, lines, k, k);
      Some(GapOf(b, lines[k]))
    else FindWinningMoveFrom(b, p, lines, k + 1)
  }

  /** `findWinningMove`: the gap of the first threatened line in table order. */
  function FindWinningMove(b: Board, p: Player): (r: Option<int>)
    ensures r.Some? ==> 0 <= r.value < 9 && b[r.value] == Empty && IsWinningMove(b, p, r.value)
    ensures r.None? <==> forall i :: !IsWinningMove(b, p, i)
    ensures r.Some? ==> exists j :: FirstThreatAt(b, p, WinLines, 0, j) && r.value == GapOf(b, WinLines[j])
  {
    ScanMatchesWinningMoves(b, p);
    FindWinningMoveFrom(b, p, WinLines, 0)
  }

  /** The full scan finds something exactly when a winning move exists, and what it finds is one. */
  lemma ScanMatchesWinningMoves(b: Board, p: Player)
    ensures var r := FindWinningMoveFrom(b, p, WinLines, 0);
            (r.Some? ==> IsWinningMove(b, p, r.value)) &&
            (r.None? <==> forall i :: !IsWinningMove(b, p, i))
  {
    var r := FindWinningMoveFrom(b, p, WinLines, 0);
    if r.Some? {
      var j :| FirstThreatAt(b, p, WinLines, 0, j) && r.value == GapOf(b, WinLines[j]);
      assert WinLines[j] in WinLines;
      assert IsWinningMove(b, p, r.value);
    }
  }

  const Center: Index := 4
  const Corners: seq<Index> := [0, 2, 6, 8]
  const Sides: seq<Index> := [1, 3, 5, 7]

  /** The positional preference once no line is threatened: centre, corners, sides. */
  const Preference: seq<Index> := [Center] + Corners + Sides

  /** The first empty square among `cands`, in the order given. */
  function FirstEmpty(b: Board, cands: seq<Index>): (r: Option<int>)
    ensures r.None? <==> forall k :: 0 <= k < |cands| ==> b[cands[k]] != Empty
    ensures r.Some? ==> exists k :: 0 <= k < |cands| && cands[k] == r.value &&
                          b[cands[k]] == Empty && forall j :: 0 <= j < k ==> b[cands[j]] != Empty
  {
    if cands == [] then None
    else if b[cands[0]] == Empty then Some(cands[0])
    else
      var r := FirstEmpty(b, cands[1..]);
      assert forall k :: 1 <= k < |cands| ==> cands[k] == cands[1..][k - 1];
      if r.Some? then
        var k :| 0 <= k < |cands[1..]| && cands[1..][k] == r.value && b[cands[1..][k]] == Empty &&
                 forall j :: 0 <= j < k ==> b[cands[1..][j]] != Empty;
        assert cands[k + 1] == r.value;
        r
      else r
  }

  /** `chooseMove`: win now, else block, else centre, corners, sides; `None` when nothing is left. */
  function ChooseMove(b: Board, p: Player): (r: Option<int>)
    ensures r.Some? ==> 0 <= r.value < 9 && b[r.value] == Empty
    ensures r.None? <==> IsFull(b)
  {
    var winNow := FindWinningMove(b, p);
    if winNow.Some? then winNow
    else
      var block := FindWinningMove(b, Opponent(p));
      if block.Some? then block
      else if b[Center] == Empty then Some(Center)
      else
        var corner := FirstEmpty(b, Corners);
        if corner.Some? then corner
        else
          var side := FirstEmpty(b, Sides);
          assert side.None? ==> IsFull(b) by {
            if side.None? {
              forall i | 0 <= i < 9 ensures b[i] != Empty {
                if i % 2 == 0 && i != 4 {
                  assert Corners[i / 2 - (if i > 4 then 1 else 0)] == i;
                } else if i != 4 {
                  assert Sides[i / 2] == i;
                }
              }
            }
          }
          side
  }

  /** Finding the first empty square of `s + t` looks in `s` first. */
  lemma {:induction false} FirstEmptyAppend(b: Board, s: seq<Index>, t: seq<Index>)
    ensures FirstEmpty(b, s + t) == if FirstEmpty(b, s).Some? then FirstEmpty(b, s) else FirstEmpty(b, t)
  {
    if s != [] {
      assert (s + t)[0] == s[0];
      assert (s + t)[1..] == s[1..] + t;
      FirstEmptyAppend(b, s[1..], t);
    } else {
      assert s + t == t;
    }
  }

  /** A win on the board is always taken, ahead of any block. */
  lemma ChooseMoveWinsFirst(b: Board, p: Player)
    requires exists i :: IsWinningMove(b, p, i)
    ensures ChooseMove(b, p) == FindWinningMove(b, p)
    ensures ChooseMove(b, p).Some? && IsWinningMove(b, p, ChooseMove(b, p).value)
  {
  }

  /** With no win of its own, the mover blocks the opponent's win. */
  lemma ChooseMoveBlocks(b: Board, p: Player)
    requires forall i :: !IsWinningMove(b, p, i)
    requires exists i :: IsWinningMove(b, Opponent(p), i)
    ensures ChooseMove(b, p) == FindWinningMove(b, Opponent(p))
    ensures ChooseMove(b, p).Some? && IsWinningMove(b, Opponent(p), ChooseMove(b, p).value)
  {
  }

  /** With nothing to win or block, the move is the first empty square of
      centre, corners [0, 2, 6, 8], sides [1, 3, 5, 7]. */
  lemma ChooseMovePositional(b: Board, p: Player)
    requires forall i :: !IsWinningMove(b, p, i)
    requires forall i :: !IsWinningMove(b, Opponent(p), i)
    ensures ChooseMove(b, p) == FirstEmpty(b, Preference)
  {
    FirstEmptyAppend(b, [Center], Corners + Sides);
    FirstEmptyAppend(b, Corners, Sides);
    assert Preference == [Center] + (Corners + Sides);
    assert FirstEmpty(b, [Center]) == if b[Center] == Empty then Some(Center) else None by {
      assert [Center][1..] == [];
    }
  }

  /** On an empty board either player takes the centre. */
  lemma ChooseMoveEmptyBoard(p: Player)
    ensures ChooseMove(EmptyBoard, p) == Some(4)
  {
    assert !Threatens(EmptyBoard, WinLines[0], p);
    assert forall l :: l in WinLines ==> !Threatens(EmptyBoard, l, p);
    assert forall l :: l in WinLines ==> !Threatens(EmptyBoard, l, Opponent(p));
  }

  /** X at 0, 2, 4 and O at 1, 3, 5: X has two winning squares (6 and 8); the
      diagonal 0-4-8 comes first in the table, so X takes 8, never 7. */
  lemma ScenarioDiagonalWin()
    ensures ChooseMove([X, O, X, O, X, O, Empty, Empty, Empty], X) == Some(8)
    ensures ChooseMove([X, O, X, O, X, O, Empty, Empty, Empty], X) != Some(7)
  {
    var b: Board := [X, O, X, O, X, O, Empty, Empty, Empty];
    assert forall j :: 0 <= j < 6 ==> !Threatens(b, WinLines[j], X);
    assert Threatens(b, WinLines[6], X);
    assert FindWinningMoveFrom(b, X, WinLines, 6) == Some(8);
  }

  /** X threatens the top row; O blocks at 2. */
  lemma ScenarioBlock()
    ensures ChooseMove([X, X, Empty, Empty, Empty, Empty, Empty, Empty, Empty], O) == Some(2)
  {
    var b: Board := [X, X, Empty, Empty, Empty, Empty, Empty, Empty, Empty];
    assert forall j :: 0 <= j < |WinLines| ==> !Threatens(b, WinLines[j], O);
    assert Threatens(b, WinLines[0], X);
    assert FindWinningMoveFrom(b, X, WinLines, 0) == Some(2);
  }
}
