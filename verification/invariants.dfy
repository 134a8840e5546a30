/**
  Invariants of one screen's session: what holds after `Launch` and after
  every event, how the score moves, and why the screen's own messages are
  harmless when they come back through the message list. The handler never
  looks at who sent a message. The self-echo test on the handshake shows
  that the screen's own messages do appear in that list.
 */
module Invariants {
  import opened Optional
  import opened Board
  import opened Wire
  import opened GameScreen

  /** Everything a reachable state satisfies, except that the score effect
      may still be due. */
  predicate Consistent(s: Session) {
    && s.localToken < MaxToken
    && (s.link.Some? ==> s.link.value == LinkFor(s.localToken, s.link.value.remoteToken))
    && s.winner == CheckWinner(s.variant, s.board)
    && (s.link.None? ==> Pristine(s))
    && !(s.replay.sent && s.replay.received)
    && (s.replay.sent ==> s.winner != Pending)
    && (s.variant == Chat ==> s.startingPlayer == X && s.score == Score(0, 0, false))
    && (s.variant == Tris && s.score.updated ==> s.winner != Pending)
  }

  /** The states a screen can reach: consistent, with the score effect done. */
  predicate Valid(s: Session) {
    Consistent(s) && Settled(s)
  }

  lemma LaunchIsValid(v: Variant, token: nat)
    requires token < MaxToken
    ensures Valid(Launch(v, token).next)
  {
    PristineIsValid(Launch(v, token).next);
  }

  lemma PristineIsValid(s: Session)
    requires Pristine(s) && s.localToken < MaxToken
    ensures Valid(s)
  {
    BlankUndecided(s.variant, s.board);
  }

  /** The score effect completes a consistent state. */
  lemma UpdateScoreRestoresValid(s: Session)
    requires Consistent(s)
    ensures Valid(UpdateScore(s))
  {
  }

  lemma LinkedIsConsistent(s: Session, t: int)
    requires Valid(s) && !s.HandshakeCompleted()
    ensures Consistent(Linked(s, t))
  {
  }

  lemma HandshakeIsConsistent(s: Session, msg: string)
    requires Valid(s) && !s.HandshakeCompleted()
    ensures Consistent(ReceiveHandshake(s, msg))
  {
    match HandshakeToken(msg, s.localToken)
    case Some(t) => LinkedIsConsistent(s, t);
    case None =>
  }

  lemma ResetIsConsistent(s: Session)
    requires Valid(s) && s.HandshakeCompleted()
    ensures Consistent(Reset(s))
  {
    BlankUndecided(s.variant, Reset(s).board);
  }

  lemma ClickCellIsConsistent(s: Session, row: int, col: int)
    requires Valid(s) && InRange(row) && InRange(col)
    ensures Consistent(ClickCell(s, row, col).next)
  {
  }

  lemma RemoteMoveIsConsistent(s: Session, row: int, col: int)
    requires Valid(s) && s.HandshakeCompleted() && InRange(row) && InRange(col)
    ensures Consistent(GuardedRemoteMove(s, row, col))
  {
  }

  /** The move as written, taken whatever the turn or the result: a result
      already on the board survives it, so the invariant still holds. */
  lemma UnguardedRemoteMoveIsConsistent(s: Session, row: int, col: int)
    requires Valid(s) && s.HandshakeCompleted() && InRange(row) && InRange(col)
    ensures Consistent(RemoteMove(s, row, col))
  {
    if s.board[row][col] == Empty && s.winner != Pending {
      PlaceKeepsDecided(s.variant, s.board, row, col, Mark(s.link.value.opponent));
    }
  }

  lemma PeerRequestedIsConsistent(s: Session)
    requires Valid(s) && s.HandshakeCompleted()
    ensures Consistent(PeerRequested(s))
  {
  }

  lemma PeerAcceptedIsConsistent(s: Session)
    requires Valid(s) && s.HandshakeCompleted()
    ensures Consistent(PeerAccepted(s))
  {
    if s.replay.sent {
      ResetIsConsistent(s);
      assert PeerAccepted(s) == Reset(s);
    } else {
      assert PeerAccepted(s) == s;
    }
  }

  lemma PeerDeclinedIsConsistent(s: Session)
    requires Valid(s) && s.HandshakeCompleted()
    ensures Consistent(PeerDeclined(s))
  {
  }

  lemma ReceiveIsConsistent(s: Session, msg: string)
    requires Valid(s)
    ensures Consistent(Receive(s, msg))
  {
    var r := Receive(s, msg);
    if !s.HandshakeCompleted() {
      HandshakeIsConsistent(s, msg);
      assert r == ReceiveHandshake(s, msg);
    } else {
      match Classify(msg)
      case ReplayRequest =>
        PeerRequestedIsConsistent(s);
        assert r == PeerRequested(s);
      case ReplayAccepted =>
        PeerAcceptedIsConsistent(s);
        assert r == PeerAccepted(s);
      case ReplayDeclined =>
        PeerDeclinedIsConsistent(s);
        assert r == PeerDeclined(s);
      case Move(n) =>
        if Addressable(n) {
          RemoteMoveIsConsistent(s, n[0], n[1]);
          assert r == GuardedRemoteMove(s, n[0], n[1]);
        } else {
          assert r == s;
        }
      case Unrecognised =>
        assert r == s;
    }
  }

  /**
    The handler as written keeps the invariant too, whenever it does not
    throw: only the repaired handler's guard on remote moves is dropped, and
    the invariant does not depend on it.
   */
  lemma ReceiveAsWrittenIsConsistent(s: Session, msg: string)
    requires Valid(s)
    ensures ReceiveAsWritten(s, msg).Handled? ==> Consistent(ReceiveAsWritten(s, msg).next)
  {
    var h := ReceiveAsWritten(s, msg);
    if !s.HandshakeCompleted() {
      HandshakeIsConsistent(s, msg);
      assert h == Handled(ReceiveHandshake(s, msg));
    } else {
      match Classify(msg)
      case ReplayRequest =>
        PeerRequestedIsConsistent(s);
        assert h == Handled(PeerRequested(s));
      case ReplayAccepted =>
        PeerAcceptedIsConsistent(s);
        assert h == Handled(PeerAccepted(s));
      case ReplayDeclined =>
        PeerDeclinedIsConsistent(s);
        assert h == Handled(PeerDeclined(s));
      case Move(n) =>
        if Addressable(n) {
          UnguardedRemoteMoveIsConsistent(s, n[0], n[1]);
          assert h == Handled(RemoteMove(s, n[0], n[1]));
        }
      case Unrecognised =>
        assert h == Handled(s);
    }
  }

  lemma TransitionIsConsistent(s: Session, e: Event)
    requires Valid(s) && EventOk(e)
    ensures Consistent(Transition(s, e).next)
  {
    match e
    case Inbound(msg) => ReceiveIsConsistent(s, msg);
    case CellClick(row, col) => ClickCellIsConsistent(s, row, col);
    case AcceptClick => if AnswerOffered(s) { ResetIsConsistent(s); }
    case _ =>
  }

  /** Every event keeps a reachable state reachable. */
  lemma ApplyPreservesValid(s: Session, e: Event)
    requires Valid(s) && EventOk(e)
    ensures Valid(Apply(s, e).next)
  {
    TransitionIsConsistent(s, e);
    UpdateScoreRestoresValid(Transition(s, e).next);
  }

  // ---------------------------------------------------------------------
  // Score

  /** What a transition may do to the score: nothing, or clear the counted
      flag when it starts a new game. A transition that changes the roles
      leaves the game undecided. */
  predicate ScoreKept(s: Session, t: Session) {
    && t.variant == s.variant
    && (t.link == s.link || t.winner == Pending)
    && (t.score == s.score || (t.score == s.score.(updated := false) && t.winner == Pending))
  }

  lemma HandshakeKeepsScore(s: Session, msg: string)
    requires Valid(s) && !s.HandshakeCompleted()
    ensures ScoreKept(s, ReceiveHandshake(s, msg))
  {
  }

  lemma PeerKeepsScore(s: Session)
    requires Valid(s) && s.HandshakeCompleted()
    ensures ScoreKept(s, PeerRequested(s)) && ScoreKept(s, PeerAccepted(s)) && ScoreKept(s, PeerDeclined(s))
  {
  }

  lemma RemoteMoveKeepsScore(s: Session, row: int, col: int)
    requires Valid(s) && s.HandshakeCompleted() && InRange(row) && InRange(col)
    ensures ScoreKept(s, GuardedRemoteMove(s, row, col))
  {
  }

  lemma ReceiveKeepsScore(s: Session, msg: string)
    requires Valid(s)
    ensures ScoreKept(s, Receive(s, msg))
  {
    var r := Receive(s, msg);
    if !s.HandshakeCompleted() {
      HandshakeKeepsScore(s, msg);
      assert r == ReceiveHandshake(s, msg);
    } else {
      PeerKeepsScore(s);
      match Classify(msg)
      case ReplayRequest => assert r == PeerRequested(s);
      case ReplayAccepted => assert r == PeerAccepted(s);
      case ReplayDeclined => assert r == PeerDeclined(s);
      case Move(n) =>
        if Addressable(n) {
          RemoteMoveKeepsScore(s, n[0], n[1]);
          assert r == GuardedRemoteMove(s, n[0], n[1]);
        } else {
          assert r == s;
        }
      case Unrecognised => assert r == s;
    }
  }

  lemma TransitionKeepsScore(s: Session, e: Event)
    requires Valid(s) && EventOk(e)
    ensures ScoreKept(s, Transition(s, e).next)
  {
    var t := Transition(s, e).next;
    match e
    case Inbound(msg) =>
      ReceiveKeepsScore(s, msg);
      assert t == Receive(s, msg);
    case CellClick(row, col) =>
      assert t == ClickCell(s, row, col).next;
    case ReplayClick =>
      assert t == ClickReplay(s).next;
    case AcceptClick =>
      assert t == ClickAccept(s).next;
    case DeclineClick =>
      assert t == ClickDecline(s).next;
  }

  lemma ScoreAfter(s: Session, t: Session)
    requires Valid(s) && Consistent(t) && s.variant == Tris && ScoreKept(s, t)
    ensures var r := UpdateScore(t);
      && r.score.player >= s.score.player && r.score.opponent >= s.score.opponent
      && r.score.player + r.score.opponent
         == s.score.player + s.score.opponent + (if s.winner == Pending && r.winner.Won? then 1 else 0)
      && (r.score.player > s.score.player <==> s.winner == Pending && s.link.Some? && r.winner == Won(s.link.value.player))
  {
  }

  /**
    In the newer build the score changes only when a game becomes decided:
    the total goes up by one exactly when an undecided game is won, the
    point goes to our side exactly when our symbol won, and no score ever
    goes down.
   */
  lemma ScoredOncePerGame(s: Session, e: Event)
    requires Valid(s) && EventOk(e) && s.variant == Tris
    ensures var r := Apply(s, e).next;
      && r.score.player >= s.score.player && r.score.opponent >= s.score.opponent
      && r.score.player + r.score.opponent
         == s.score.player + s.score.opponent + (if s.winner == Pending && r.winner.Won? then 1 else 0)
      && (r.score.player > s.score.player <==> s.winner == Pending && s.link.Some? && r.winner == Won(s.link.value.player))
  {
    TransitionIsConsistent(s, e);
    TransitionKeepsScore(s, e);
    ScoreAfter(s, Transition(s, e).next);
  }

  /** The older build never scores. */
  lemma ChatNeverScores(s: Session, e: Event)
    requires Valid(s) && EventOk(e) && s.variant == Chat
    ensures Apply(s, e).next.score == Score(0, 0, false)
  {
    var t := Transition(s, e).next;
    TransitionKeepsScore(s, e);
    assert t.score == s.score;
    assert Apply(s, e).next == UpdateScore(t);
  }

  // ---------------------------------------------------------------------
  // The screen's own messages read back

  /** A handshake that arrives once the roles are fixed changes nothing. */
  lemma LateHandshakeIgnored(s: Session, token: nat)
    requires s.HandshakeCompleted()
    ensures Receive(s, HandshakeText(token)) == s
  {
    ClassifyHandshakeText(token);
  }

  /** A move onto an occupied cell changes nothing. */
  lemma OccupiedCellIgnored(a: Session, row: nat, col: nat)
    requires a.HandshakeCompleted() && Settled(a) && InRange(row) && InRange(col)
    requires a.board[row][col] != Empty
    ensures Apply(a, Inbound(MoveText(row, col))).next == a
  {
    ClassifyMoveText(row, col);
    assert Addressable([row, col]);
    assert Receive(a, MoveText(row, col)) == GuardedRemoteMove(a, row, col);
  }

  lemma OwnMoveIgnored(s: Session, row: int, col: int)
    requires InRange(row) && InRange(col) && MayPlay(s, row, col)
    ensures var a := Apply(s, CellClick(row, col)).next;
      Apply(a, Inbound(MoveText(row, col))).next == a
  {
    var t := ClickCell(s, row, col).next;
    var a := Apply(s, CellClick(row, col)).next;
    assert a == UpdateScore(t);
    assert a.board == t.board && a.link == t.link;
    OccupiedCellIgnored(a, row, col);
  }

  lemma ReplayTextsClassified()
    ensures Classify(ReplayRequestText) == ReplayRequest
    ensures Classify(ReplayAcceptedText) == ReplayAccepted
    ensures Classify(ReplayDeclinedText) == ReplayDeclined
  {
    assert StartsWith(ReplayRequestText, ReplayRequestText);
    assert !StartsWith(ReplayAcceptedText, ReplayRequestText) by {
      assert ReplayAcceptedText[7] != ReplayRequestText[7];
    }
    assert StartsWith(ReplayAcceptedText, ReplayAcceptedText);
    assert !StartsWith(ReplayDeclinedText, ReplayRequestText) by {
      assert ReplayDeclinedText[7] != ReplayRequestText[7];
    }
    assert !StartsWith(ReplayDeclinedText, ReplayAcceptedText) by {
      assert ReplayDeclinedText[7] != ReplayAcceptedText[7];
    }
    assert StartsWith(ReplayDeclinedText, ReplayDeclinedText);
  }

  lemma OwnRequestIgnored(s: Session)
    requires ReplayOffered(s) && Settled(s)
    ensures var a := Apply(s, ReplayClick).next;
      Apply(a, Inbound(ReplayRequestText)).next == a
  {
    var a := Apply(s, ReplayClick).next;
    ReplayTextsClassified();
    assert a == s.(replay := s.replay.(sent := true));
    assert Receive(a, ReplayRequestText) == PeerRequested(a);
  }

  lemma OwnAcceptIgnored(s: Session)
    requires AnswerOffered(s)
    ensures var a := Apply(s, AcceptClick).next;
      Apply(a, Inbound(ReplayAcceptedText)).next == a
  {
    var a := Apply(s, AcceptClick).next;
    ReplayTextsClassified();
    assert a == UpdateScore(Reset(s));
    assert !a.replay.sent && a.HandshakeCompleted();
    assert Receive(a, ReplayAcceptedText) == PeerAccepted(a);
  }

  lemma OwnDeclineIgnored(s: Session)
    requires AnswerOffered(s) && Settled(s)
    ensures var a := Apply(s, DeclineClick).next;
      Apply(a, Inbound(ReplayDeclinedText)).next == a
  {
    var a := Apply(s, DeclineClick).next;
    ReplayTextsClassified();
    assert a == s.(replay := s.replay.(received := false));
    assert Receive(a, ReplayDeclinedText) == PeerDeclined(a);
  }

  /** A step that sent nothing, or one message whose echo is harmless. */
  predicate EchoFree(t: Step) {
    forall k :: 0 <= k < |t.sent| ==> Apply(t.next, Inbound(Transmitted(t.sent[k]))).next == t.next
  }

  lemma SilentStepEchoFree(t: Step)
    requires t.sent == []
    ensures EchoFree(t)
  {
  }

  lemma SingleEchoFree(t: Step, o: Outbound)
    requires t.sent == [o] && Apply(t.next, Inbound(Transmitted(o))).next == t.next
    ensures EchoFree(t)
  {
  }

  lemma CellClickEchoFree(s: Session, row: int, col: int)
    requires InRange(row) && InRange(col)
    ensures EchoFree(Apply(s, CellClick(row, col)))
  {
    var t := Apply(s, CellClick(row, col));
    if MayPlay(s, row, col) {
      OwnMoveIgnored(s, row, col);
      SingleEchoFree(t, SendMove(row, col));
    } else {
      SilentStepEchoFree(t);
    }
  }

  lemma ReplayClickEchoFree(s: Session)
    requires Settled(s)
    ensures EchoFree(Apply(s, ReplayClick))
  {
    var t := Apply(s, ReplayClick);
    if ReplayOffered(s) {
      OwnRequestIgnored(s);
      SingleEchoFree(t, SendReplay(ReplayRequestText));
    } else {
      SilentStepEchoFree(t);
    }
  }

  lemma AcceptClickEchoFree(s: Session)
    ensures EchoFree(Apply(s, AcceptClick))
  {
    var t := Apply(s, AcceptClick);
    if AnswerOffered(s) {
      OwnAcceptIgnored(s);
      SingleEchoFree(t, SendReplay(ReplayAcceptedText));
    } else {
      SilentStepEchoFree(t);
    }
  }

  lemma DeclineClickEchoFree(s: Session)
    requires Settled(s)
    ensures EchoFree(Apply(s, DeclineClick))
  {
    var t := Apply(s, DeclineClick);
    if AnswerOffered(s) {
      assert t.sent == [SendReplay(ReplayDeclinedText)];
      OwnDeclineIgnored(s);
      SingleEchoFree(t, SendReplay(ReplayDeclinedText));
    } else {
      SilentStepEchoFree(t);
    }
  }

  /**
    After any user action, every message that action sent, read back as if
    it had arrived from the peer, leaves the session unchanged: our own move
    lands on an occupied cell, our own request is masked by
    `replayRequestSent`, our own acceptance and refusal find no request of
    ours pending.
   */
  lemma EchoesAreHarmless(s: Session, e: Event)
    requires Settled(s) && EventOk(e) && !e.Inbound?
    ensures var t := Apply(s, e);
      forall k :: 0 <= k < |t.sent| ==> Apply(t.next, Inbound(Transmitted(t.sent[k]))).next == t.next
  {
    match e
    case CellClick(row, col) => CellClickEchoFree(s, row, col);
    case ReplayClick => ReplayClickEchoFree(s);
    case AcceptClick => AcceptClickEchoFree(s);
    case DeclineClick => DeclineClickEchoFree(s);
  }
}
