/**
  Two defects of the move branch of the inbound handler. For each one a
  concrete input shows the behaviour as written (`ReceiveAsWritten`,
  `RemoteMove`). Beside it is the property of the repaired behaviour
  (`Receive`, `GuardedRemoteMove`) that the rest of the model uses.
 */
module Findings {
  import opened Optional
  import opened Board
  import opened Wire
  import opened GameScreen
  import opened Invariants

  // ---------------------------------------------------------------------
  // A message with a comma that does not name a cell

  /**
    The handler as written throws on "3,0", whose row is off the board, and
    on "7,", which yields a single number for the two-element
    destructuring. The repaired handler ignores both.
   */
  lemma MalformedMoveThrows(s: Session)
    requires s.HandshakeCompleted()
    ensures ReceiveAsWritten(s, MoveText(3, 0)) == Thrown(IndexOutOfBounds)
    ensures ReceiveAsWritten(s, "7,") == Thrown(MissingCoordinate)
    ensures Receive(s, MoveText(3, 0)) == s && Receive(s, "7,") == s
  {
    ClassifyMoveText(3, 0);
    DanglingCommaParsed();
  }

  /** "7," splits into "7" and an empty piece, of which only the first parses. */
  lemma DanglingCommaParsed()
    ensures Classify("7,") == Move([7])
  {
    SplitAtFirstComma("7", "");
    SplitWithoutComma("");
    assert "7," == "7" + "," + "";
    assert ParsedInts(["7", ""]) == [7];
  }

  // ---------------------------------------------------------------------
  // A remote move that ignores the turn and the result

  /** Our side ("X", token 7 against 3) has completed the bottom row; the
      opponent holds the two left cells of the top row. */
  function LateMoveBoard(): (b: Grid)
    ensures HasLine(Tris, b, X) && !HasLine(Tris, b, O) && !Full(b)
  {
    [[Mark(O), Mark(O), Empty], [Empty, Empty, Empty], [Mark(X), Mark(X), Mark(X)]]
  }

  /** The finished game of `LateMoveBoard`, already counted for us. */
  function FinishedGame(): Session {
    Session(Tris, 7, Some(LinkFor(7, 3)), X, O, LateMoveBoard(), Won(X), NoReplay, Score(1, 0, true))
  }

  /** A fresh game in which it is our turn. */
  function OurTurn(): Session {
    Session(Tris, 7, Some(LinkFor(7, 3)), X, X, EmptyGrid(), Pending, NoReplay, Score(0, 0, false))
  }

  /** Both scenarios are states a screen can be in. */
  lemma ScenariosAreValid()
    ensures Valid(FinishedGame()) && FinishedGame().winner == Won(X)
    ensures Valid(OurTurn()) && OurTurn().MyTurn() && OurTurn().winner == Pending
  {
    var b := LateMoveBoard();
    SoleLineWins(Tris, b, X);
    assert FinishedGame().winner == CheckWinner(Tris, b);
    BlankUndecided(Tris, OurTurn().board);
  }

  /**
    As written, a move "0,2" that arrives after we have won completes the
    opponent's top row. Rows are scanned first, so the shown winner becomes
    "O". A move that arrives on our turn is taken too, and the opponent has
    then moved twice in a row. The guarded move rejects both.
   */
  lemma LateMoveOverturnsWinner()
    ensures RemoteMove(FinishedGame(), 0, 2).winner == Won(O)
    ensures GuardedRemoteMove(FinishedGame(), 0, 2) == FinishedGame()
    ensures RemoteMove(OurTurn(), 1, 1).board[1][1] == Mark(O)
    ensures GuardedRemoteMove(OurTurn(), 1, 1) == OurTurn()
  {
    var s := FinishedGame();
    var b := Place(s.board, 0, 2, Mark(O));
    assert b[0][0] == Mark(O) && b[0][1] == Mark(O) && b[0][2] == Mark(O);
    assert RemoteMove(s, 0, 2).board == b;
  }

  /** `r` still shows the board and the result of `s`, or a new game. */
  predicate KeepsResult(s: Session, r: Session) {
    || (r.board == s.board && r.winner == s.winner)
    || (Blank(r.board) && r.winner == Pending)
  }

  lemma ScoreEffectKeepsResult(s: Session, t: Session)
    requires KeepsResult(s, t)
    ensures KeepsResult(s, UpdateScore(t))
  {
  }

  lemma InboundKeepsResult(s: Session, msg: string)
    requires Valid(s) && s.winner != Pending
    ensures KeepsResult(s, Receive(s, msg))
  {
    var r := Receive(s, msg);
    if s.HandshakeCompleted() {
      match Classify(msg)
      case ReplayRequest => assert r == PeerRequested(s);
      case ReplayAccepted => assert r == PeerAccepted(s);
      case ReplayDeclined => assert r == PeerDeclined(s);
      case Move(n) =>
        if Addressable(n) { assert r == GuardedRemoteMove(s, n[0], n[1]); }
      case Unrecognised =>
    }
  }

  lemma TapKeepsResult(s: Session, e: Event)
    requires s.winner != Pending && EventOk(e) && !e.Inbound?
    ensures KeepsResult(s, Transition(s, e).next)
  {
    var t := Transition(s, e).next;
    match e
    case CellClick(row, col) =>
      assert t == ClickCell(s, row, col).next;
      assert t == s;
    case ReplayClick =>
      assert t == ClickReplay(s).next;
    case AcceptClick =>
      assert t == ClickAccept(s).next;
    case DeclineClick =>
      assert t == ClickDecline(s).next;
  }

  /**
    With the guard, a result stands until a new game starts. Every event
    either keeps the board and the result, or clears the board for a new
    game.
   */
  lemma DecidedResultIsFinal(s: Session, e: Event)
    requires Valid(s) && s.winner != Pending && EventOk(e)
    ensures var r := Apply(s, e).next;
      || (r.board == s.board && r.winner == s.winner)
      || (Blank(r.board) && r.winner == Pending)
  {
    var t := Transition(s, e).next;
    if e.Inbound? {
      InboundKeepsResult(s, e.msg);
      assert t == Receive(s, e.msg);
    } else {
      TapKeepsResult(s, e);
    }
    ScoreEffectKeepsResult(s, t);
    assert Apply(s, e).next == UpdateScore(t);
  }
}
