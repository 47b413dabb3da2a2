/** The board, the two marks and the table of eight winning lines shared by the
    move selector (src/wopr/ai.ts) and the rules engine (src/App.tsx). */
module Grid {

  /** One square: empty, or holding X's or O's mark. */
  datatype Cell = Empty | X | O

  /** A mark a player puts down: X or O, never an empty square. */
  type Player = c: Cell | c != Empty witness X

  /** A square number, row-major: 0-2 top row, 3-5 middle row, 6-8 bottom row. */
  type Index = i: int | 0 <= i < 9

  /** A board snapshot: nine squares. */
  type Board = s: seq<Cell> | |s| == 9 witness [Empty, Empty, Empty, Empty, Empty, Empty, Empty, Empty, Empty]

  /** The board of a new game: all nine squares empty. */
  const EmptyBoard: Board := [Empty, Empty, Empty, Empty, Empty, Empty, Empty, Empty, Empty]

  /** The other player. */
  function Opponent(p: Player): (q: Player)
    ensures q != p
  {
    if p == X then O else X
  }

  /** A winning line: three square numbers. */
  datatype Line = Line(a: Index, b: Index, c: Index) {
    predicate Contains(i: int) {
      i == a || i == b || i == c
    }
  }

  /** The eight lines in declaration order: rows, then columns, then diagonals.
      The source keeps two identical copies of this table, one per file. */
  const WinLines: seq<Line> := [
    Line(0, 1, 2), Line(3, 4, 5), Line(6, 7, 8),
    Line(0, 3, 6), Line(1, 4, 7), Line(2, 5, 8),
    Line(0, 4, 8), Line(2, 4, 6)
  ]

  /** Every square is occupied. */
  predicate IsFull(b: Board) {
    forall i :: 0 <= i < 9 ==> b[i] != Empty
  }

  /** The number of squares of `s` holding `m`. */
  function CountMark(s: seq<Cell>, m: Cell): (n: nat)
    ensures n <= |s|
    ensures n == 0 <==> forall i :: 0 <= i < |s| ==> s[i] != m
  {
    if s == [] then 0 else (if s[0] == m then 1 else 0) + CountMark(s[1..], m)
  }

  /** Writing `v` into square `i` changes the count of `m` only by what left and what arrived. */
  lemma {:induction false} CountMarkUpdate(s: seq<Cell>, i: int, v: Cell, m: Cell)
    requires 0 <= i < |s|
    ensures CountMark(s[i := v], m)
         == CountMark(s, m) - (if s[i] == m then 1 else 0) + (if v == m then 1 else 0)
  {
    if i == 0 {
      assert s[i := v][1..] == s[1..];
    } else {
      assert s[i := v][1..] == s[1..][i - 1 := v];
      CountMarkUpdate(s[1..], i - 1, v, m);
    }
  }
}
