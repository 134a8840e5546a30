/**
  Two screens of the same build talking to each other. Every message one
  screen sends reaches the other once, unaltered and in order. The lemmas
  follow the exchanges of a session: the handshake, a move, and a rematch
  request answered either way.
 */
module Peers {
  import opened Board
  import opened Wire
  import opened GameScreen
  import opened Invariants

  /**
    The correspondence between two linked screens that have seen the same
    moves. Each holds the other's token, and their roles are complementary.
    They agree on the board, the turn, the result, who starts and whether
    the result was counted. Each one's points are the other's opponent
    points.
   */
  predicate Facing(a: Session, b: Session) {
    && a.variant == b.variant
    && a.link.Some? && b.link.Some?
    && a.link.value.remoteToken == b.localToken && b.link.value.remoteToken == a.localToken
    && a.link.value.player == b.link.value.opponent && a.link.value.opponent == b.link.value.player
    && a.link.value.opponent == Other(a.link.value.player)
    && a.board == b.board && a.currentPlayer == b.currentPlayer
    && a.winner == b.winner && a.startingPlayer == b.startingPlayer
    && a.score.player == b.score.opponent && a.score.opponent == b.score.player
    && a.score.updated == b.score.updated
  }

  /** Two reachable screens facing each other, no rematch request pending. */
  predicate Mirror(a: Session, b: Session) {
    Valid(a) && Valid(b) && Facing(a, b) && a.replay == NoReplay && b.replay == NoReplay
  }

  // ---------------------------------------------------------------------
  // Handshake

  lemma LinkedFacing(a: Session, b: Session)
    requires Pristine(a) && Pristine(b) && a.variant == b.variant
    requires a.localToken != b.localToken
    ensures Facing(Linked(a, b.localToken), Linked(b, a.localToken))
  {
    var p := RoleFor(a.localToken, b.localToken);
    var q := RoleFor(b.localToken, a.localToken);
    assert p != q;
  }

  lemma PeerHandshakeTaken(v: Variant, local: nat, remote: nat)
    requires local < MaxToken && remote < MaxToken && local != remote
    ensures var s := Launch(v, local).next;
      Apply(s, Inbound(HandshakeText(remote))).next == Linked(s, remote)
  {
    var s := Launch(v, local).next;
    HandshakeTokenOfPeer(remote, local);
    assert Receive(s, HandshakeText(remote)) == Linked(s, remote);
  }

  /**
    Two screens with different tokens that each read the other's handshake
    end up facing each other. The one with the larger token plays "X".
    Nobody has moved yet and nothing is decided.
   */
  lemma HandshakeEstablishesMirror(v: Variant, ta: nat, tb: nat)
    requires ta < MaxToken && tb < MaxToken && ta != tb
    ensures var a := Launch(v, ta);
      var b := Launch(v, tb);
      var a1 := Apply(a.next, Inbound(HandshakeText(tb))).next;
      var b1 := Apply(b.next, Inbound(HandshakeText(ta))).next;
      && a.sent == [SendHandshake(ta)] && b.sent == [SendHandshake(tb)]
      && Mirror(a1, b1)
      && a1.link.value.player == (if ta > tb then X else O)
      && Blank(a1.board) && a1.winner == Pending
  {
    var a := Launch(v, ta).next;
    var b := Launch(v, tb).next;
    PeerHandshakeTaken(v, ta, tb);
    PeerHandshakeTaken(v, tb, ta);
    LaunchIsValid(v, ta);
    LaunchIsValid(v, tb);
    ApplyPreservesValid(a, Inbound(HandshakeText(tb)));
    ApplyPreservesValid(b, Inbound(HandshakeText(ta)));
    LinkedFacing(a, b);
  }

  /**
    Two screens that drew the same token stall. Each reads the other's
    handshake as its own echo and ignores it, so neither ever leaves the
    waiting screen.
   */
  lemma EqualTokensStall(v: Variant, token: nat)
    requires token < MaxToken
    ensures var s := Launch(v, token);
      && s.sent == [SendHandshake(token)]
      && Apply(s.next, Inbound(HandshakeText(token))).next == s.next
      && !s.next.HandshakeCompleted()
  {
    var s := Launch(v, token).next;
    HandshakeTokenOfPeer(token, token);
    assert Receive(s, HandshakeText(token)) == s;
  }

  // ---------------------------------------------------------------------
  // Moves

  /** The score effect treats two facing screens alike. */
  lemma ScoreEffectKeepsFacing(a: Session, b: Session)
    requires Facing(a, b)
    ensures Facing(UpdateScore(a), UpdateScore(b))
  {
  }

  /** A move allowed on our side is allowed on the peer's side, and both
      sides place the same mark on the same cell. */
  lemma OpponentSeesMove(a: Session, b: Session, row: int, col: int)
    requires Facing(a, b) && InRange(row) && InRange(col) && MayPlay(a, row, col)
    ensures OpponentMayPlay(b, row, col)
    ensures Facing(Play(a, row, col, a.link.value.player, a.link.value.opponent),
                   Play(b, row, col, b.link.value.opponent, b.link.value.player))
  {
  }

  lemma MoveDelivered(b: Session, row: int, col: int)
    requires b.HandshakeCompleted() && InRange(row) && InRange(col) && OpponentMayPlay(b, row, col)
    ensures Apply(b, Inbound(MoveText(row, col))).next
      == UpdateScore(Play(b, row, col, b.link.value.opponent, b.link.value.player))
  {
    ClassifyMoveText(row, col);
    assert Addressable([row, col]);
    assert Receive(b, MoveText(row, col)) == GuardedRemoteMove(b, row, col);
  }

  /**
    A move made on one screen and delivered to the other keeps the two
    screens facing each other: the same cell now holds the mover's mark on
    both, the turn has passed to the other side on both, and a result, if
    any, is counted once, for the winner, on both.
   */
  lemma MoveKeepsMirror(a: Session, b: Session, row: int, col: int)
    requires Mirror(a, b) && InRange(row) && InRange(col) && MayPlay(a, row, col)
    ensures var t := Apply(a, CellClick(row, col));
      && t.sent == [SendMove(row, col)]
      && Mirror(t.next, Apply(b, Inbound(MoveText(row, col))).next)
  {
    var t := Apply(a, CellClick(row, col));
    var pa := Play(a, row, col, a.link.value.player, a.link.value.opponent);
    var pb := Play(b, row, col, b.link.value.opponent, b.link.value.player);
    assert t.next == UpdateScore(pa) && t.sent == [SendMove(row, col)];
    var tb := Apply(b, Inbound(MoveText(row, col))).next;
    OpponentSeesMove(a, b, row, col);
    MoveDelivered(b, row, col);
    assert tb == UpdateScore(pb);
    ScoreEffectKeepsFacing(pa, pb);
    ApplyPreservesValid(a, CellClick(row, col));
    ApplyPreservesValid(b, Inbound(MoveText(row, col)));
    assert pa.replay == a.replay && pb.replay == b.replay;
  }

  // ---------------------------------------------------------------------
  // Rematch

  /** The request leaves the asker waiting and shows the peer the question. */
  lemma RequestDelivered(a: Session, b: Session)
    requires Mirror(a, b) && a.winner != Pending
    ensures var t := Apply(a, ReplayClick);
      && t.sent == [SendReplay(ReplayRequestText)]
      && t.next == a.(replay := Replay(true, false))
      && Apply(b, Inbound(ReplayRequestText)).next == b.(replay := Replay(false, true))
  {
    ReplayTextsClassified();
    assert Receive(b, ReplayRequestText) == PeerRequested(b);
  }

  lemma ResetKeepsFacing(a: Session, b: Session)
    requires Facing(a, b)
    ensures Facing(Reset(a), Reset(b))
  {
  }

  /** The acceptance resets the accepting screen at once and the asking
      screen when it arrives. */
  lemma AcceptDelivered(a: Session, b: Session)
    requires a.HandshakeCompleted() && b.HandshakeCompleted()
    requires a.replay == Replay(true, false) && b.replay == Replay(false, true)
    ensures var t := Apply(b, AcceptClick);
      && t.sent == [SendReplay(ReplayAcceptedText)]
      && t.next == Reset(b)
      && Apply(a, Inbound(ReplayAcceptedText)).next == Reset(a)
  {
    ReplayTextsClassified();
    assert Receive(a, ReplayAcceptedText) == PeerAccepted(a);
  }

  /** A finished game stays reachable while a request is pending. */
  lemma PendingRequestIsValid(a: Session, r: Replay)
    requires Valid(a) && a.winner != Pending && !(r.sent && r.received)
    ensures Valid(a.(replay := r))
  {
  }

  lemma ResetIsValid(a: Session)
    requires Valid(a) && a.HandshakeCompleted()
    ensures Valid(Reset(a))
  {
    ResetIsConsistent(a);
  }

  /** The refusal withdraws the question on the refusing screen at once and
      the request on the asking screen when it arrives. */
  lemma DeclineDelivered(a: Session, b: Session)
    requires a.HandshakeCompleted() && b.HandshakeCompleted() && Settled(a) && Settled(b)
    requires a.replay == Replay(true, false) && b.replay == Replay(false, true)
    ensures var t := Apply(b, DeclineClick);
      && t.sent == [SendReplay(ReplayDeclinedText)]
      && t.next == b.(replay := b.replay.(received := false))
      && Apply(a, Inbound(ReplayDeclinedText)).next == a.(replay := a.replay.(sent := false))
  {
    ReplayTextsClassified();
    assert Receive(a, ReplayDeclinedText) == PeerDeclined(a);
  }

  /**
    A finished game, a request from one side and an acceptance from the
    other: both screens start the same new game. The board is empty and
    the result cleared. The newer build hands the first move to the other
    symbol. The older build gives it to "X". The points stay as they were.
   */
  lemma RematchKeepsMirror(a: Session, b: Session)
    requires Mirror(a, b) && a.winner != Pending
    ensures var a1 := Apply(a, ReplayClick);
      var b1 := Apply(b, Inbound(ReplayRequestText)).next;
      var b2 := Apply(b1, AcceptClick);
      var a2 := Apply(a1.next, Inbound(ReplayAcceptedText)).next;
      && a1.sent == [SendReplay(ReplayRequestText)] && b2.sent == [SendReplay(ReplayAcceptedText)]
      && Mirror(a2, b2.next)
      && Blank(a2.board) && a2.winner == Pending
      && (a.variant == Tris ==> a2.startingPlayer == Other(a.startingPlayer) && a2.currentPlayer == a2.startingPlayer)
      && (a.variant == Chat ==> a2.currentPlayer == X)
      && a2.score.player == a.score.player && a2.score.opponent == a.score.opponent
  {
    RematchSteps(a, b);
    ResetsFaceEachOther(a, b);
  }

  /** The four steps of an accepted rematch, spelled out. */
  lemma RematchSteps(a: Session, b: Session)
    requires Mirror(a, b) && a.winner != Pending
    ensures var a1 := Apply(a, ReplayClick);
      var b1 := Apply(b, Inbound(ReplayRequestText)).next;
      var b2 := Apply(b1, AcceptClick);
      var a2 := Apply(a1.next, Inbound(ReplayAcceptedText)).next;
      && a1.sent == [SendReplay(ReplayRequestText)] && b2.sent == [SendReplay(ReplayAcceptedText)]
      && a2 == Reset(a.(replay := Replay(true, false)))
      && b2.next == Reset(b.(replay := Replay(false, true)))
  {
    var a1 := a.(replay := Replay(true, false));
    var b1 := b.(replay := Replay(false, true));
    RequestDelivered(a, b);
    AcceptDelivered(a1, b1);
  }

  lemma ResetsFaceEachOther(a: Session, b: Session)
    requires Mirror(a, b) && a.winner != Pending
    ensures var a2 := Reset(a.(replay := Replay(true, false)));
      var b2 := Reset(b.(replay := Replay(false, true)));
      && Mirror(a2, b2)
      && Blank(a2.board) && a2.winner == Pending
      && (a.variant == Tris ==> a2.startingPlayer == Other(a.startingPlayer) && a2.currentPlayer == a2.startingPlayer)
      && (a.variant == Chat ==> a2.currentPlayer == X)
      && a2.score.player == a.score.player && a2.score.opponent == a.score.opponent
  {
    var a1 := a.(replay := Replay(true, false));
    var b1 := b.(replay := Replay(false, true));
    assert Facing(a1, b1);
    ResetKeepsFacing(a1, b1);
    PendingRequestIsValid(a, Replay(true, false));
    PendingRequestIsValid(b, Replay(false, true));
    ResetIsValid(a1);
    ResetIsValid(b1);
  }

  /**
    A request that the peer declines leaves both screens exactly as they
    were before the request: the finished board is kept and "Rigioca" is
    offered again.
   */
  lemma DeclineRestoresMirror(a: Session, b: Session)
    requires Mirror(a, b) && a.winner != Pending
    ensures var a1 := Apply(a, ReplayClick);
      var b1 := Apply(b, Inbound(ReplayRequestText)).next;
      var b2 := Apply(b1, DeclineClick);
      var a2 := Apply(a1.next, Inbound(ReplayDeclinedText)).next;
      && a1.sent == [SendReplay(ReplayRequestText)]
      && b2.sent == [SendReplay(ReplayDeclinedText)]
      && a2 == a && b2.next == b
      && ReplayOffered(a2)
  {
    var a1 := a.(replay := Replay(true, false));
    var b1 := b.(replay := Replay(false, true));
    RequestDelivered(a, b);
    DeclineDelivered(a1, b1);
    assert a1.(replay := a1.replay.(sent := false)) == a;
    assert b1.(replay := b1.replay.(received := false)) == b;
  }

  /**
    When both players press "Rigioca" before the other's request arrives,
    each request is ignored because the receiver has asked too. Neither
    screen then shows a button or accepts a move, so the session can never
    leave the finished game.
   */
  lemma SimultaneousRequestsStall(a: Session, b: Session)
    requires Mirror(a, b) && a.winner != Pending
    ensures var a1 := Apply(a, ReplayClick);
      var b1 := Apply(b, ReplayClick);
      var a2 := Apply(a1.next, Inbound(ReplayRequestText)).next;
      var b2 := Apply(b1.next, Inbound(ReplayRequestText)).next;
      && a1.sent == [SendReplay(ReplayRequestText)] && b1.sent == [SendReplay(ReplayRequestText)]
      && a2 == a1.next && b2 == b1.next
      && !ReplayOffered(a2) && !AnswerOffered(a2) && !ReplayOffered(b2) && !AnswerOffered(b2)
      && (forall row, col :: InRange(row) && InRange(col) ==> !MayPlay(a2, row, col) && !MayPlay(b2, row, col))
  {
    ReplayTextsClassified();
    var a1 := a.(replay := Replay(true, false));
    var b1 := b.(replay := Replay(true, false));
    assert Apply(a, ReplayClick).next == a1;
    assert Apply(b, ReplayClick).next == b1;
    assert Receive(a1, ReplayRequestText) == PeerRequested(a1);
    assert Receive(b1, ReplayRequestText) == PeerRequested(b1);
  }
}
