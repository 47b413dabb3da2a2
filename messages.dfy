/** The pure helpers of src/wopr/messages.ts: the text picture of the board,
    the canned commentary lines, square names, the transcript window and the
    choice between a generated reply and the canned line. */
module Messages {
  import opened Options
  import opened Grid

  /** The two occasions for commentary: after a move, and at the end of a game. */
  datatype Phase = Move | End

  const VictoryLine: string := "Victory assured. Thank you for a stimulating game."
  const ImprobableLine: string := "Improbable outcome. You have prevailed this time."
  const StrangeGameLine: string := "A strange game. The only winning move is not to play."
  const MoveCompleteLine: string := "Processing... Move complete."

  /** The character shown for a square: the mark, or a middle dot when empty. */
  function CellChar(c: Cell): (ch: char)
    ensures ch == '·' <==> c == Empty
  {
    match c
    case X => 'X'
    case O => 'O'
    case Empty => '·'
  }

  /** The squares' characters, one per square, in order. */
  function CellsText(s: seq<Cell>): (r: string)
    ensures |r| == |s|
    ensures forall i :: 0 <= i < |s| ==> r[i] == CellChar(s[i])
  {
    if s == [] then "" else [CellChar(s[0])] + CellsText(s[1..])
  }

  /** `renderBoard`: three rows of three characters separated by newlines. */
  function RenderBoard(b: Board): (r: string)
    ensures |r| == 11 && r[3] == '\n' && r[7] == '\n'
    ensures forall i :: 0 <= i < 9 ==> r[i + i / 3] == CellChar(b[i])
  {
    var cells := CellsText(b);
    RowsKeepCells(cells);
    cells[0..3] + "\n" + cells[3..6] + "\n" + cells[6..9]
  }

  /** Cutting nine characters into three rows puts character `i` at `i + i / 3`. */
  lemma RowsKeepCells(cells: string)
    requires |cells| == 9
    ensures var r := cells[0..3] + "\n" + cells[3..6] + "\n" + cells[6..9];
            |r| == 11 && r[3] == '\n' && r[7] == '\n' &&
            forall i :: 0 <= i < 9 ==> r[i + i / 3] == cells[i]
  {
    var r := cells[0..3] + "\n" + cells[3..6] + "\n" + cells[6..9];
    forall i | 0 <= i < 9 ensures r[i + i / 3] == cells[i] {
      if i < 3 {
        assert r[i] == cells[i];
      } else if i < 6 {
        assert r[i + 1] == cells[3..6][i - 3];
      } else {
        assert r[i + 2] == cells[6..9][i - 6];
      }
    }
  }

  /** Different boards render differently: the picture determines the board. */
  lemma RenderBoardInjective(b1: Board, b2: Board)
    requires RenderBoard(b1) == RenderBoard(b2)
    ensures b1 == b2
  {
    forall i | 0 <= i < 9 ensures b1[i] == b2[i] {
      assert CellChar(b1[i]) == RenderBoard(b1)[i + i / 3];
      assert CellChar(b2[i]) == RenderBoard(b2)[i + i / 3];
    }
  }

  /** `fallbackMessage`: the canned line for the phase and outcome. At the end
      the winner is looked at before the draw flag. */
  function FallbackMessage(phase: Phase, winner: Option<Player>, draw: bool): (r: string)
    ensures r == VictoryLine <==> phase == End && winner == Some(O)
    ensures r == ImprobableLine <==> phase == End && winner == Some(X)
    ensures r == StrangeGameLine <==> phase == End && winner.None? && draw
    ensures r == MoveCompleteLine <==> phase == Move || (winner.None? && !draw)
  {
    if phase == End && winner == Some(O) then VictoryLine
    else if phase == End && winner == Some(X) then ImprobableLine
    else if phase == End && draw then StrangeGameLine
    else
      assert phase == Move || winner.None?;
      assert phase == Move || !draw;
      MoveCompleteLine
  }

  /** After a move the line is the same whatever the outcome arguments say. */
  lemma FallbackMoveIgnoresOutcome(w1: Option<Player>, d1: bool, w2: Option<Player>, d2: bool)
    ensures FallbackMessage(Move, w1, d1) == FallbackMessage(Move, w2, d2) == MoveCompleteLine
  {
  }

  const PositionNames: seq<string> :=
    ["top-left", "top", "top-right", "left", "center", "right", "bottom-left", "bottom", "bottom-right"]

  /** `indexToPositionName`: the square's name, or "unknown" outside 0..8. */
  function IndexToPositionName(index: int): (r: string)
    ensures r == "unknown" <==> !(0 <= index < 9)
  {
    if 0 <= index < |PositionNames| then PositionNames[index] else "unknown"
  }

  /** The row-and-column name of a square: a row word ("top", "", "bottom")
      and a column word ("left", "", "right"), joined by a dash when both are
      present, and "center" when neither is. */
  function GridName(row: int, col: int): string
    requires 0 <= row < 3 && 0 <= col < 3
  {
    var r := ["top", "", "bottom"][row];
    var c := ["left", "", "right"][col];
    if r == "" && c == "" then "center"
    else if r == "" then c
    else if c == "" then r
    else r + "-" + c
  }

  /** The table names the squares row-major, as the grid naming does. */
  lemma PositionNameIsGridName(i: Index)
    ensures IndexToPositionName(i) == GridName(i / 3, i % 3)
  {
  }

  /** Distinct squares get distinct names. */
  lemma PositionNamesDistinct(i: Index, j: Index)
    requires i != j
    ensures IndexToPositionName(i) != IndexToPositionName(j)
  {
  }

  /** The last eight entries, or all of them when there are fewer. */
  function LastEight(s: seq<string>): (r: seq<string>)
    ensures |r| == if |s| < 8 then |s| else 8
    ensures forall k :: 0 <= k < |r| ==> r[k] == s[|s| - |r| + k]
  {
    if |s| <= 8 then s else s[|s| - 8..]
  }

  /** Each message with "WOPR: " put in front, in order. */
  function Prefixed(s: seq<string>): (r: seq<string>)
    ensures |r| == |s|
    ensures forall k :: 0 <= k < |s| ==> r[k] == "WOPR: " + s[k]
  {
    if s == [] then [] else ["WOPR: " + s[0]] + Prefixed(s[1..])
  }

  /** The transcript lines: the last (at most) eight previous messages, in order, each prefixed. */
  function TranscriptLines(previous: seq<string>): (r: seq<string>)
    ensures |r| == if |previous| < 8 then |previous| else 8
    ensures forall k :: 0 <= k < |r| ==> r[k] == "WOPR: " + previous[|previous| - |r| + k]
  {
    var last := LastEight(previous);
    var r := Prefixed(last);
    assert forall k :: 0 <= k < |r| ==> r[k] == "WOPR: " + last[k];
    r
  }

  /** The lines with `sep` between each two neighbours. */
  function Join(lines: seq<string>, sep: string): (r: string)
    ensures lines != [] ==> lines[0] <= r
    ensures lines == [] ==> r == ""
  {
    if lines == [] then ""
    else if |lines| == 1 then lines[0]
    else lines[0] + sep + Join(lines[1..], sep)
  }

  /** The transcript text; it is empty exactly when there were no previous messages,
      which is when the prompt leaves out its dialogue section. */
  function Transcript(previous: seq<string>): (r: string)
    ensures r == "" <==> previous == []
  {
    var lines := TranscriptLines(previous);
    assert lines != [] ==> |lines[0]| >= 6;
    Join(lines, "\n")
  }

  /** The characters JavaScript's `trim` removes: white space and line terminators. */
  predicate IsJsWhitespace(c: char) {
    c in JsWhitespace
  }

  const JsWhitespace: set<char> := {
    '\t', '\n', '\U{000B}', '\U{000C}', '\r', ' ', '\U{00A0}', '\U{1680}',
    '\U{2000}', '\U{2001}', '\U{2002}', '\U{2003}', '\U{2004}', '\U{2005}',
    '\U{2006}', '\U{2007}', '\U{2008}', '\U{2009}', '\U{200A}',
    '\U{2028}', '\U{2029}', '\U{202F}', '\U{205F}', '\U{3000}', '\U{FEFF}'
  }

  predicate AllWhitespace(s: string) {
    forall k :: 0 <= k < |s| ==> IsJsWhitespace(s[k])
  }

  /** The number of white-space characters `s` starts with. */
  function LeadingSpace(s: string): (n: nat)
    ensures n <= |s|
    ensures forall k :: 0 <= k < n ==> IsJsWhitespace(s[k])
    ensures n < |s| ==> !IsJsWhitespace(s[n])
  {
    if s != "" && IsJsWhitespace(s[0]) then 1 + LeadingSpace(s[1..]) else 0
  }

  /** The number of white-space characters `s` ends with. */
  function TrailingSpace(s: string): (n: nat)
    ensures n <= |s|
    ensures forall k :: |s| - n <= k < |s| ==> IsJsWhitespace(s[k])
    ensures n < |s| ==> !IsJsWhitespace(s[|s| - n - 1])
  {
    if s != "" && IsJsWhitespace(s[|s| - 1]) then 1 + TrailingSpace(s[..|s| - 1]) else 0
  }

  /** `trim`: what is left of `s` between its leading and its trailing white space. */
  function Trim(s: string): (r: string)
    ensures var i := LeadingSpace(s);
            i + |r| <= |s| && r == s[i..i + |r|] &&
            forall k :: i + |r| <= k < |s| ==> IsJsWhitespace(s[k])
    ensures r == "" <==> AllWhitespace(s)
    ensures r != "" ==> !IsJsWhitespace(r[0]) && !IsJsWhitespace(r[|r| - 1])
  {
    var i := LeadingSpace(s);
    var j := TrailingSpace(s[i..]);
    TrimmedPart(s, i, j);
    s[i..|s| - j]
  }

  /** What is left between `i` leading and `j` trailing white-space characters. */
  lemma TrimmedPart(s: string, i: nat, j: nat)
    requires i == LeadingSpace(s) && j == TrailingSpace(s[i..])
    ensures i + j <= |s|
    ensures var r := s[i..|s| - j];
            (forall k :: |s| - j <= k < |s| ==> IsJsWhitespace(s[k])) &&
            (r == "" <==> AllWhitespace(s)) &&
            (r != "" ==> !IsJsWhitespace(r[0]) && !IsJsWhitespace(r[|r| - 1]))
  {
    var t := s[i..];
    forall k | |s| - j <= k < |s| ensures IsJsWhitespace(s[k]) {
      assert s[k] == t[k - i];
    }
    var r := s[i..|s| - j];
    if r == "" {
      assert AllWhitespace(s);
    } else {
      assert r[0] == s[i];
      assert r[|r| - 1] == t[|t| - j - 1];
    }
  }

  /** Trimming twice is trimming once. */
  lemma TrimIdempotent(s: string)
    ensures Trim(Trim(s)) == Trim(s)
  {
    var r := Trim(s);
    if r != "" {
      assert LeadingSpace(r) == 0;
      assert TrailingSpace(r) == 0;
      assert r[0..|r|] == r;
    }
  }

  /** What the text service did with a request. */
  datatype ApiResult = RequestFailed | Responded(outputText: Option<string>)

  /** A key that is missing or empty counts as no key. */
  predicate HasKey(apiKey: Option<string>) {
    apiKey.Some? && apiKey.value != ""
  }

  /** The text a response carries, `''` when it carries none. */
  function ResponseText(api: ApiResult): string {
    if api.Responded? then api.outputText.GetOr("") else ""
  }

  /** The reply `getWoprMessage` resolves to, given the key lookup and the
      result of the service call: the trimmed response when it is not blank,
      and the canned line otherwise. Never empty. */
  function WoprMessage(phase: Phase, winner: Option<Player>, draw: bool,
                       apiKey: Option<string>, api: ApiResult): (r: string)
    ensures r != ""
    ensures (!HasKey(apiKey) || api.RequestFailed? || AllWhitespace(ResponseText(api)))
              ==> r == FallbackMessage(phase, winner, draw)
    ensures (HasKey(apiKey) && api.Responded? && !AllWhitespace(ResponseText(api)))
              ==> r == Trim(ResponseText(api))
  {
    if !HasKey(apiKey) then FallbackMessage(phase, winner, draw)
    else match api
      case RequestFailed => FallbackMessage(phase, winner, draw)
      case Responded(text) =>
        var t := Trim(text.GetOr(""));
        if t != "" then t else FallbackMessage(phase, winner, draw)
  }
}
