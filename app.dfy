/** The game component of src/App.tsx: the React state (`board`, `current`,
    `messages` and the two latches held in refs) as a class, and the four
    steps that change it (a click, the opponent's effect, the end-of-game
    effect and a new game) as its methods. */
module App {
  import opened Options
  import opened Grid
  import opened Ai
  import opened Rules
  import opened Messages
  import opened Play

  const Greeting: string := "Would you like to play a game?"

  /** Placing the mover's mark on an empty square and passing the turn keeps
      X exactly one mark ahead of O while O is to move, and level otherwise. */
  lemma PlacingKeepsBalance(b: Board, i: Index, turn: Player)
    requires b[i] == Empty
    requires CountMark(b, X) == CountMark(b, O) + (if turn == O then 1 else 0)
    ensures CountMark(b[i := turn], X) == CountMark(b[i := turn], O) + (if Opponent(turn) == O then 1 else 0)
  {
    CountMarkUpdate(b, i, turn, X);
    CountMarkUpdate(b, i, turn, O);
  }

  /** The empty board is level: no marks of either player. */
  lemma EmptyBoardLevel()
    ensures CountMark(EmptyBoard, X) == 0 && CountMark(EmptyBoard, O) == 0
  {
  }

  /** The text App appends when a game ends; it hard-codes the same lines
      as the canned end-of-game commentary. */
  lemma AnnouncementsDistinctFromMove()
    ensures MoveCompleteLine != VictoryLine && MoveCompleteLine != ImprobableLine
    ensures MoveCompleteLine != StrangeGameLine
  {
    assert FallbackMessage(Move, None, false) == MoveCompleteLine;
  }

  /** An end-of-game line. */
  predicate IsAnnouncement(m: string) {
    m == VictoryLine || m == ImprobableLine || m == StrangeGameLine
  }

  /** How many end-of-game lines `ms` holds. */
  function Announcements(ms: seq<string>): (n: nat)
    ensures n <= |ms|
    ensures n == 0 <==> forall k :: 0 <= k < |ms| ==> !IsAnnouncement(ms[k])
  {
    if ms == [] then 0 else (if IsAnnouncement(ms[0]) then 1 else 0) + Announcements(ms[1..])
  }

  lemma {:induction false} AnnouncementsAppend(ms: seq<string>, m: string)
    ensures Announcements(ms + [m]) == Announcements(ms) + (if IsAnnouncement(m) then 1 else 0)
  {
    if ms == [] {
      assert [m][1..] == [];
    } else {
      assert (ms + [m])[1..] == ms[1..] + [m];
      AnnouncementsAppend(ms[1..], m);
    }
  }

  /** `ms` extends `base` by lines holding at most one end-of-game line, none
      at all if the latch was already set at the start, and one only if the
      latch is set now. */
  ghost predicate AnnouncedAtMostOnce(ms: seq<string>, base: seq<string>, latch: bool, latchedAtStart: bool) {
    |base| <= |ms| && ms[..|base|] == base &&
    Announcements(ms[|base|..]) <= (if latchedAtStart then 0 else 1) &&
    (Announcements(ms[|base|..]) == 1 ==> latch) &&
    (latchedAtStart ==> latch)
  }

  /** A step that appends at most one line, and an end-of-game line only while
      setting the latch, keeps `AnnouncedAtMostOnce`. */
  lemma StepKeepsAnnouncements(before: seq<string>, after: seq<string>, base: seq<string>,
                               latched: bool, latchedAfter: bool, latchedAtStart: bool)
    requires AnnouncedAtMostOnce(before, base, latched, latchedAtStart)
    requires latched ==> latchedAfter
    requires after == before ||
             (|after| == |before| + 1 && after[..|before|] == before &&
              (IsAnnouncement(after[|after| - 1]) ==> !latched && latchedAfter))
    ensures AnnouncedAtMostOnce(after, base, latchedAfter, latchedAtStart)
  {
    if after != before {
      var m := after[|after| - 1];
      assert after == before + [m];
      assert after[|base|..] == before[|base|..] + [m];
      AnnouncementsAppend(before[|base|..], m);
    }
  }

  /** One run of an event handler or effect, for driving the state machine. */
  datatype Event = Click(index: Index) | OpponentTurn | EndgameCheck

  class AppState {
    var board: Board
    var current: Player
    var messages: seq<string>
    var initializedRef: bool
    var endgameAnnouncedRef: bool

    /** The announcement latch is only ever set on a finished game, and X has
        moved once more than O exactly when it is O's turn. */
    ghost predicate Valid()
      reads this
    {
      (endgameAnnouncedRef ==> IsGameOver(board)) &&
      CountMark(board, X) == CountMark(board, O) + (if current == O then 1 else 0)
    }

    /** The `useState` and `useRef` initial values. */
    constructor ()
      ensures Valid()
      ensures board == EmptyBoard && current == X && messages == []
      ensures !initializedRef && !endgameAnnouncedRef
    {
      board := EmptyBoard;
      current := X;
      messages := [];
      initializedRef := false;
      endgameAnnouncedRef := false;
      new;
      EmptyBoardLevel();
    }

    /** `enqueueMessage`. */
    method EnqueueMessage(text: string)
      modifies this`messages
      ensures messages == old(messages) + [text]
    {
      messages := messages + [text];
    }

    /** `startNewGame`: an empty board, X to move, only the greeting, latch cleared. */
    method StartNewGame()
      modifies this`board, this`current, this`messages, this`endgameAnnouncedRef
      ensures Valid()
      ensures board == EmptyBoard && current == X && messages == [Greeting]
      ensures !endgameAnnouncedRef
    {
      board := EmptyBoard;
      current := X;
      messages := [Greeting];
      endgameAnnouncedRef := false;
      EmptyBoardLevel();
    }

    /** The mount effect: starts the first game once, however often it runs. */
    method Initialize()
      requires Valid()
      modifies this
      ensures Valid() && initializedRef
      ensures old(initializedRef) ==>
                board == old(board) && current == old(current) && messages == old(messages) &&
                endgameAnnouncedRef == old(endgameAnnouncedRef)
      ensures !old(initializedRef) ==>
                board == EmptyBoard && current == X && messages == [Greeting] && !endgameAnnouncedRef
    {
      if initializedRef {
        return;
      }
      initializedRef := true;
      StartNewGame();
    }

    /** `handleClick`: on a running game and an empty square, the mover's mark
        goes there and the turn passes; otherwise nothing changes. */
    method HandleClick(index: Index)
      requires Valid()
      modifies this`board, this`current
      ensures Valid()
      ensures IsGameOver(old(board)) || old(board)[index] != Empty ==>
                board == old(board) && current == old(current)
      ensures !IsGameOver(old(board)) && old(board)[index] == Empty ==>
                board == old(board)[index := old(current)] && current == Opponent(old(current))
    {
      if IsGameOver(board) || board[index] != Empty {
        return;
      }
      PlaceAndPass(index);
    }

    /** The shared update of a click and of the opponent's move: a copy of the
        board with the mover's mark in square `i`, and the turn passed on. */
    method PlaceAndPass(i: Index)
      requires Valid() && !endgameAnnouncedRef && board[i] == Empty
      modifies this`board, this`current
      ensures Valid()
      ensures board == old(board)[i := old(current)] && current == Opponent(old(current))
    {
      var nextBoard := board[i := current];
      var nextPlayer := Opponent(current);
      PlacingKeepsBalance(board, i, current);
      board := nextBoard;
      current := nextPlayer;
    }

    /** The opponent's effect: when the game runs and it is O's turn, O takes the
        square `chooseMove` picks, the turn passes to X and one line is appended. */
    method OpponentMove()
      requires Valid()
      modifies this`board, this`current, this`messages
      ensures Valid()
      ensures IsGameOver(old(board)) || old(current) != O ==>
                board == old(board) && current == old(current) && messages == old(messages)
      ensures !IsGameOver(old(board)) && old(current) == O ==>
                var move := ChooseMove(old(board), O);
                move.Some? && board == old(board)[move.value := O] && current == X &&
                messages == old(messages) + [MoveCompleteLine]
    {
      if IsGameOver(board) || current != O {
        return;
      }
      var move := ChooseMove(board, O);
      NotOverHasMove(board, O);
      if move.Some? {
        PlaceAndPass(move.value);
        EnqueueMessage(MoveCompleteLine);
      }
    }

    /** The end-of-game effect: clears the latch while the game runs; on a
        finished game appends the announcement once and sets the latch. */
    method EndgameEffect()
      requires Valid()
      modifies this`messages, this`endgameAnnouncedRef
      ensures Valid()
      ensures endgameAnnouncedRef == IsGameOver(board)
      ensures IsGameOver(board) && !old(endgameAnnouncedRef) ==>
                messages == old(messages) + [FallbackMessage(End, GetWinner(board), IsDraw(board))]
      ensures !IsGameOver(board) || old(endgameAnnouncedRef) ==> messages == old(messages)
    {
      if !IsGameOver(board) {
        endgameAnnouncedRef := false;
        return;
      }
      if endgameAnnouncedRef {
        return;
      }
      endgameAnnouncedRef := true;
      AnnounceOutcome();
    }

    /** The announcement chosen by the end-of-game effect: O's win, then X's
        win, then the draw; the same line the canned end-of-game commentary picks. */
    method AnnounceOutcome()
      requires IsGameOver(board)
      modifies this`messages
      ensures messages == old(messages) + [FallbackMessage(End, GetWinner(board), IsDraw(board))]
    {
      var winner := GetWinner(board);
      var draw := IsDraw(board);
      if winner == Some(O) {
        EnqueueMessage(VictoryLine);
      } else if winner == Some(X) {
        EnqueueMessage(ImprobableLine);
      } else if draw {
        EnqueueMessage(StrangeGameLine);
      }
    }

    /** Runs one handler or effect. It appends at most one line, and an
        end-of-game line only when it also sets the latch. */
    method Step(e: Event)
      requires Valid()
      modifies this`board, this`current, this`messages, this`endgameAnnouncedRef
      ensures Valid()
      ensures old(endgameAnnouncedRef) ==> endgameAnnouncedRef && board == old(board)
      ensures messages == old(messages) ||
              (|messages| == |old(messages)| + 1 && messages[..|old(messages)|] == old(messages) &&
               (IsAnnouncement(messages[|messages| - 1]) ==> !old(endgameAnnouncedRef) && endgameAnnouncedRef))
    {
      AnnouncementsDistinctFromMove();
      match e {
        case Click(i) => HandleClick(i);
        case OpponentTurn => OpponentMove();
        case EndgameCheck => EndgameEffect();
      }
    }

    /** Any schedule of clicks and effect runs within one game (no reset)
        appends at most one end-of-game line, and none if one was already made. */
    method PlayOneGame(events: seq<Event>)
      requires Valid()
      modifies this`board, this`current, this`messages, this`endgameAnnouncedRef
      ensures Valid()
      ensures old(messages) <= messages
      ensures Announcements(messages[|old(messages)|..]) <= (if old(endgameAnnouncedRef) then 0 else 1)
    {
      var n := 0;
      assert messages[|messages|..] == [];
      while n < |events|
        invariant 0 <= n <= |events|
        invariant Valid()
        invariant AnnouncedAtMostOnce(messages, old(messages), endgameAnnouncedRef, old(endgameAnnouncedRef))
      {
        ghost var before, latched := messages, endgameAnnouncedRef;
        Step(events[n]);
        StepKeepsAnnouncements(before, messages, old(messages), latched, endgameAnnouncedRef,
                               old(endgameAnnouncedRef));
        n := n + 1;
      }
    }

    /** Once the game is over, any schedule of clicks and effect runs leaves the
        board alone and appends the announcement exactly once if an end-of-game
        check runs and none was made before, and nothing otherwise. */
    method RunWhileOver(events: seq<Event>)
      requires Valid() && IsGameOver(board)
      modifies this`board, this`current, this`messages, this`endgameAnnouncedRef
      ensures Valid()
      ensures board == old(board) && current == old(current)
      ensures endgameAnnouncedRef == (old(endgameAnnouncedRef) || EndgameCheck in events)
      ensures messages == old(messages) +
                (if !old(endgameAnnouncedRef) && EndgameCheck in events
                 then [FallbackMessage(End, GetWinner(board), IsDraw(board))] else [])
    {
      var n := 0;
      while n < |events|
        invariant 0 <= n <= |events|
        invariant Valid()
        invariant board == old(board) && current == old(current)
        invariant endgameAnnouncedRef == (old(endgameAnnouncedRef) || EndgameCheck in events[..n])
        invariant messages == old(messages) +
                    (if !old(endgameAnnouncedRef) && EndgameCheck in events[..n]
                     then [FallbackMessage(End, GetWinner(board), IsDraw(board))] else [])
      {
        assert events[..n + 1] == events[..n] + [events[n]];
        match events[n] {
          case Click(i) => HandleClick(i);
          case OpponentTurn => OpponentMove();
          case EndgameCheck => EndgameEffect();
        }
        n := n + 1;
      }
      assert events[..n] == events;
    }
  }
}
