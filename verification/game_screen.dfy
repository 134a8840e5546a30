/**
  The game logic of `TrisGameScreen`, pulled out of the Compose function
  into an immutable `Session` value and pure transitions.

  The screen's `remember`ed variables become the fields of `Session`. Its
  three send callbacks (`onSendHandshake`, `onSendMove`, `onSendReplay`)
  become the `Outbound` values a step returns. The random token is a
  parameter of `Launch`. The two builds of the screen are told apart by
  `Session.variant`. The `bluetoothtris` build alternates the starting
  player and keeps scores. The older `bluetoothchat` build always restarts
  with "X" and keeps no scores.

  Inbound messages are consumed one per step. The screen itself re-reads
  `state.messages.lastOrNull()` whenever the list changes. When two
  messages are appended before the effect runs, it handles only the
  second one. This model does not represent that loss.
 */
module GameScreen {
  import opened Optional
  import opened Board
  import opened Wire

  /** `Random.nextInt(0, 10000)` draws the local token below this bound. */
  const MaxToken: nat := 10000

  /** What the handshake fixes: `remoteRandomNumber`, `playerSymbol` and
      `opponentSymbol`. */
  datatype Link = Link(remoteToken: int, player: Symbol, opponent: Symbol)

  /** `replayRequestSent` and `replayRequestReceived`. */
  datatype Replay = Replay(sent: bool, received: bool)

  /** `playerScore`, `opponentScore` and `scoreUpdated` (newer build only). */
  datatype Score = Score(player: nat, opponent: nat, updated: bool)

  const NoReplay := Replay(false, false)

  datatype Session = Session(
    variant: Variant,
    localToken: nat,
    link: Option<Link>,         // None while `handshakeCompleted` is false
    startingPlayer: Symbol,
    currentPlayer: Symbol,
    board: Grid,
    winner: Verdict,
    replay: Replay,
    score: Score)
  {
    predicate HandshakeCompleted() { link.Some? }

    /** `currentPlayer == playerSymbol`; before the handshake `playerSymbol`
        is the empty string, which never equals a mark. */
    predicate MyTurn() { link.Some? && currentPlayer == link.value.player }
  }

  /** A call of one of the screen's send callbacks. */
  datatype Outbound = SendHandshake(token: nat) | SendMove(row: nat, col: nat) | SendReplay(text: string)

  /** The session after a step, and the callbacks the step invoked, in order. */
  datatype Step = Step(next: Session, sent: seq<Outbound>)

  /** The text a peer receives for each callback. The encoders are not part
      of this model; these are the forms the inbound handler decodes. */
  function Transmitted(o: Outbound): string {
    match o
    case SendHandshake(t) => HandshakeText(t)
    case SendMove(row, col) => MoveText(row, col)
    case SendReplay(text) => text
  }

  // ---------------------------------------------------------------------
  // Start and handshake

  /** The state before any message: no roles, "X" to start and to move,
      empty board, no winner, no replay request, no points. */
  predicate Pristine(s: Session) {
    && s.link.None?
    && s.startingPlayer == X
    && s.currentPlayer == X
    && s.board == EmptyGrid()
    && s.winner == Pending
    && s.replay == NoReplay
    && s.score == Score(0, 0, false)
  }

  /** The screen's first composition: the `remember` initialisers, then the
      `LaunchedEffect(Unit)` that sends the handshake once. */
  function Launch(v: Variant, token: nat): (r: Step)
    requires token < MaxToken
    ensures Pristine(r.next) && r.next.variant == v && r.next.localToken == token
    ensures r.sent == [SendHandshake(token)]
  {
    var s := Session(v, token, None, X, X, EmptyGrid(), Pending, NoReplay, Score(0, 0, false));
    Step(s, [SendHandshake(token)])
  }

  /** The tie-break: the peer whose token is not smaller plays "X", so equal
      tokens would give "X" to both sides. */
  function RoleFor(localToken: int, remoteToken: int): (r: Symbol)
    ensures r == X <==> localToken >= remoteToken
  {
    if localToken >= remoteToken then X else O
  }

  /** The link a handshake carrying `remoteToken` establishes. */
  function LinkFor(localToken: int, remoteToken: int): (l: Link)
    ensures l.remoteToken == remoteToken
    ensures l.player == RoleFor(localToken, remoteToken)
    ensures l.opponent == Other(l.player)
  {
    var p := RoleFor(localToken, remoteToken);
    Link(remoteToken, p, Other(p))
  }

  /** The state right after a handshake carrying `remoteToken` is taken. */
  function Linked(s: Session, remoteToken: int): Session {
    var turn := if s.variant == Tris then s.startingPlayer else s.currentPlayer;
    s.(link := Some(LinkFor(s.localToken, remoteToken)), currentPlayer := turn)
  }

  /**
    A message received before the handshake. Only a handshake that is not
    the text of our own and whose suffix parses as an `Int` is taken. It
    fixes both roles and, in the newer build, sets the turn to
    `startingPlayer`. Anything else, a move included, is ignored.
   */
  function ReceiveHandshake(s: Session, msg: string): (r: Session)
    requires !s.HandshakeCompleted()
    ensures HandshakeToken(msg, s.localToken).None? ==> r == s
    ensures HandshakeToken(msg, s.localToken).Some? ==>
      var t := HandshakeToken(msg, s.localToken).value;
      && r.link == Some(LinkFor(s.localToken, t))
      && r.currentPlayer == (if s.variant == Tris then s.startingPlayer else s.currentPlayer)
      && r.board == s.board && r.winner == s.winner && r.startingPlayer == s.startingPlayer
      && r.replay == s.replay && r.score == s.score
      && r.variant == s.variant && r.localToken == s.localToken
  {
    match HandshakeToken(msg, s.localToken)
    case None => s
    case Some(t) => Linked(s, t)
  }

  // ---------------------------------------------------------------------
  // Moves

  /** The guard of `onCellClick`: our turn, an empty cell, no result yet. */
  predicate MayPlay(s: Session, row: int, col: int)
    requires InRange(row) && InRange(col)
  {
    s.MyTurn() && s.board[row][col] == Empty && s.winner == Pending
  }

  /** Both endpoints of a move agree on everything but the board, the turn
      and the winner. */
  predicate SameButPlay(s: Session, r: Session) {
    && r.variant == s.variant && r.localToken == s.localToken && r.link == s.link
    && r.startingPlayer == s.startingPlayer && r.replay == s.replay && r.score == s.score
  }

  /** `r` is `s` with cell (`row`, `col`) set to `c` and every other cell
      kept (see `Place`). */
  predicate OnlyCellSet(s: Grid, r: Grid, row: int, col: int, c: Cell)
    requires InRange(row) && InRange(col)
  {
    r == s[row := s[row][col := c]]
  }

  /**
    A mark `m` placed on cell (`row`, `col`), the turn handed to `next` and
    the winner recomputed: the common tail of the local and the remote move.
   */
  function Play(s: Session, row: int, col: int, m: Symbol, next: Symbol): (r: Session)
    requires InRange(row) && InRange(col)
    ensures OnlyCellSet(s.board, r.board, row, col, Mark(m))
    ensures r.currentPlayer == next
    ensures r.winner == CheckWinner(s.variant, r.board)
    ensures SameButPlay(s, r)
  {
    var b := Place(s.board, row, col, Mark(m));
    s.(board := b, currentPlayer := next, winner := CheckWinner(s.variant, b))
  }

  /**
    A tap on cell (`row`, `col`) of the grid. When `MayPlay` holds it marks
    exactly that cell with our symbol, sends the move once and passes the
    turn to the opponent. Otherwise nothing changes and nothing is sent.
   */
  function ClickCell(s: Session, row: int, col: int): (r: Step)
    requires InRange(row) && InRange(col)
    ensures |r.sent| <= 1
    ensures r.sent != [] <==> MayPlay(s, row, col)
    ensures !MayPlay(s, row, col) ==> r.next == s
    ensures MayPlay(s, row, col) ==>
      r.sent == [SendMove(row, col)] && r.next == Play(s, row, col, s.link.value.player, s.link.value.opponent)
  {
    if MayPlay(s, row, col) then
      Step(Play(s, row, col, s.link.value.player, s.link.value.opponent), [SendMove(row, col)])
    else
      Step(s, [])
  }

  /**
    The move branch of the inbound handler as written: an empty cell gets
    the opponent's symbol and the turn comes back to us. An occupied cell
    changes nothing. Neither the turn nor an already decided game is
    checked.
   */
  function RemoteMove(s: Session, row: int, col: int): (r: Session)
    requires s.HandshakeCompleted() && InRange(row) && InRange(col)
    ensures s.board[row][col] != Empty ==> r == s
    ensures s.board[row][col] == Empty ==> r == Play(s, row, col, s.link.value.opponent, s.link.value.player)
  {
    if s.board[row][col] == Empty then Play(s, row, col, s.link.value.opponent, s.link.value.player)
    else s
  }

  /** The guard the local tap applies, seen from the opponent's side. */
  predicate OpponentMayPlay(s: Session, row: int, col: int)
    requires s.HandshakeCompleted() && InRange(row) && InRange(col)
  {
    s.currentPlayer == s.link.value.opponent && s.board[row][col] == Empty && s.winner == Pending
  }

  /**
    The remote move with the local guard mirrored: it is taken only on the
    opponent's turn, on an empty cell, while the game is undecided, and then
    it does what `RemoteMove` does.
   */
  function GuardedRemoteMove(s: Session, row: int, col: int): (r: Session)
    requires s.HandshakeCompleted() && InRange(row) && InRange(col)
    ensures r != s <==> OpponentMayPlay(s, row, col)
    ensures OpponentMayPlay(s, row, col) ==> r == RemoteMove(s, row, col)
  {
    if OpponentMayPlay(s, row, col) then RemoteMove(s, row, col) else s
  }

  // ---------------------------------------------------------------------
  // Rematch

  /**
    `resetGame`: a new game with the same roles and scores. The board is
    cleared, the winner and both replay flags are reset. The newer build
    flips `startingPlayer`, gives it the turn and clears `scoreUpdated`. The
    older build always gives the turn to "X".
   */
  function Reset(s: Session): (r: Session)
    ensures r.board == EmptyGrid() && r.winner == Pending && r.replay == NoReplay
    ensures s.variant == Tris ==>
      && r.startingPlayer == Other(s.startingPlayer) && r.currentPlayer == r.startingPlayer
      && r.score == s.score.(updated := false)
    ensures s.variant == Chat ==>
      r.currentPlayer == X && r.startingPlayer == s.startingPlayer && r.score == s.score
    ensures r.variant == s.variant && r.localToken == s.localToken && r.link == s.link
  {
    var cleared := s.(board := EmptyGrid(), winner := Pending, replay := NoReplay);
    if s.variant == Tris then
      var start := Other(s.startingPlayer);
      cleared.(startingPlayer := start, currentPlayer := start, score := s.score.(updated := false))
    else
      cleared.(currentPlayer := X)
  }

  /** The "Rigioca" button is shown once the game is decided and no request
      is pending in either direction. */
  predicate ReplayOffered(s: Session) {
    s.HandshakeCompleted() && s.winner != Pending && s.replay == NoReplay
  }

  /** The accept and decline buttons are shown when the peer asked and we
      did not ask ourselves. */
  predicate AnswerOffered(s: Session) {
    s.HandshakeCompleted() && s.replay.received && !s.replay.sent
  }

  /** "Rigioca": send the request and remember it was sent. */
  function ClickReplay(s: Session): (r: Step)
    ensures ReplayOffered(s) ==>
      r.sent == [SendReplay(ReplayRequestText)] && r.next == s.(replay := s.replay.(sent := true))
    ensures !ReplayOffered(s) ==> r == Step(s, [])
  {
    if ReplayOffered(s) then Step(s.(replay := s.replay.(sent := true)), [SendReplay(ReplayRequestText)])
    else Step(s, [])
  }

  /** "Accetta": send the acceptance, then start the new game locally. */
  function ClickAccept(s: Session): (r: Step)
    ensures AnswerOffered(s) ==> r.sent == [SendReplay(ReplayAcceptedText)] && r.next == Reset(s)
    ensures !AnswerOffered(s) ==> r == Step(s, [])
  {
    if AnswerOffered(s) then Step(Reset(s), [SendReplay(ReplayAcceptedText)]) else Step(s, [])
  }

  /** "Rifiuta": send the refusal and drop the received request; the board
      is kept. */
  function ClickDecline(s: Session): (r: Step)
    ensures AnswerOffered(s) ==>
      r.sent == [SendReplay(ReplayDeclinedText)] && r.next == s.(replay := s.replay.(received := false))
    ensures !AnswerOffered(s) ==> r == Step(s, [])
  {
    if AnswerOffered(s) then Step(s.(replay := s.replay.(received := false)), [SendReplay(ReplayDeclinedText)])
    else Step(s, [])
  }

  /** REPLAY_REQUEST from the peer: noted only if we have not asked ourselves,
      and then the accept and decline buttons appear. */
  function PeerRequested(s: Session): (r: Session)
    ensures s.replay.sent ==> r == s
    ensures !s.replay.sent ==> r == s.(replay := s.replay.(received := true))
    ensures s.HandshakeCompleted() ==> (AnswerOffered(r) <==> !s.replay.sent)
  {
    if s.replay.sent then s else s.(replay := s.replay.(received := true))
  }

  /** REPLAY_ACCEPTED from the peer: a new game, only if we had asked; either
      way no request of ours is left pending. */
  function PeerAccepted(s: Session): (r: Session)
    ensures s.replay.sent ==> r == Reset(s)
    ensures !s.replay.sent ==> r == s
    ensures !r.replay.sent
  {
    if s.replay.sent then Reset(s) else s
  }

  /** REPLAY_DECLINED from the peer: our request is withdrawn; the board, the
      result and the peer's own pending request are kept. */
  function PeerDeclined(s: Session): (r: Session)
    ensures r == s.(replay := s.replay.(sent := false))
    ensures !r.replay.sent && r.replay.received == s.replay.received
    ensures s.HandshakeCompleted() && s.replay.received ==> AnswerOffered(r)
  {
    s.(replay := s.replay.(sent := false))
  }

  // ---------------------------------------------------------------------
  // Inbound messages after the handshake

  /** Why the move branch of the handler throws: the destructuring
      `val (row, col)` needs two parsed numbers, and `board[row][col]` needs
      both in 0..2. */
  datatype Fault = MissingCoordinate | IndexOutOfBounds

  /** The handler either finishes with a new session or throws. */
  datatype Handling = Handled(next: Session) | Thrown(fault: Fault)

  /** Two parsed numbers, both usable as board indices. */
  predicate Addressable(numbers: seq<int>) {
    |numbers| >= 2 && InRange(numbers[0]) && InRange(numbers[1])
  }

  /**
    The inbound handler as written. Before the handshake only a handshake is
    considered. Afterwards the replay messages are matched by prefix, in
    the order request, accepted, declined. Then any message with a comma is
    a move, which throws unless it carries two numbers in 0..2. Anything
    else is ignored.
   */
  function ReceiveAsWritten(s: Session, msg: string): (r: Handling)
    ensures r.Thrown? <==> s.HandshakeCompleted() && Classify(msg).Move? && !Addressable(Classify(msg).numbers)
    ensures r.Thrown? && |Classify(msg).numbers| < 2 ==> r.fault == MissingCoordinate
    ensures !s.HandshakeCompleted() ==> r == Handled(ReceiveHandshake(s, msg))
    ensures s.HandshakeCompleted() ==>
      match Classify(msg)
      case ReplayRequest => r == Handled(PeerRequested(s))
      case ReplayAccepted => r == Handled(PeerAccepted(s))
      case ReplayDeclined => r == Handled(PeerDeclined(s))
      case Unrecognised => r == Handled(s)
      case Move(n) => Addressable(n) ==> r == Handled(RemoteMove(s, n[0], n[1]))
  {
    if !s.HandshakeCompleted() then Handled(ReceiveHandshake(s, msg))
    else
      match Classify(msg)
      case ReplayRequest => Handled(PeerRequested(s))
      case ReplayAccepted => Handled(PeerAccepted(s))
      case ReplayDeclined => Handled(PeerDeclined(s))
      case Move(n) =>
        if |n| < 2 then Thrown(MissingCoordinate)
        else if !InRange(n[0]) || !InRange(n[1]) then Thrown(IndexOutOfBounds)
        else Handled(RemoteMove(s, n[0], n[1]))
      case Unrecognised => Handled(s)
  }

  /**
    The inbound handler with both defects of the move branch repaired: a
    move that does not name a cell is dropped like any other unrecognised
    message, and a move is taken only under `OpponentMayPlay`. Every other
    message is handled exactly as written.
   */
  function Receive(s: Session, msg: string): (r: Session)
    ensures ReceiveAsWritten(s, msg).Thrown? ==> r == s
    ensures !Classify(msg).Move? || !s.HandshakeCompleted() ==> ReceiveAsWritten(s, msg) == Handled(r)
    ensures s.HandshakeCompleted() && Classify(msg).Move? && Addressable(Classify(msg).numbers) ==>
      var n := Classify(msg).numbers;
      r == GuardedRemoteMove(s, n[0], n[1])
  {
    if !s.HandshakeCompleted() then ReceiveHandshake(s, msg)
    else
      match Classify(msg)
      case ReplayRequest => PeerRequested(s)
      case ReplayAccepted => PeerAccepted(s)
      case ReplayDeclined => PeerDeclined(s)
      case Move(n) => if Addressable(n) then GuardedRemoteMove(s, n[0], n[1]) else s
      case Unrecognised => s
  }

  // ---------------------------------------------------------------------
  // Score

  /** Nothing left for the score effect to do: no score kept, no result
      yet, or the result already counted. */
  predicate Settled(s: Session) {
    s.variant == Chat || s.winner == Pending || s.score.updated
  }

  /**
    The newer build's `LaunchedEffect(winner)`: once per game, when a result
    exists and has not been counted, a win adds one point to the side that
    won (to `playerScore` when the winner is our symbol, to `opponentScore`
    otherwise) and a tie adds none; the game is then marked as counted. The
    older build keeps no score.
   */
  function UpdateScore(s: Session): (r: Session)
    ensures Settled(s) ==> r == s
    ensures !Settled(s) ==>
      && r.score.updated
      && r.score.player == s.score.player + (if s.link.Some? && s.winner == Won(s.link.value.player) then 1 else 0)
      && r.score.player + r.score.opponent == s.score.player + s.score.opponent + (if s.winner.Won? then 1 else 0)
      && r == s.(score := r.score)
    ensures Settled(r)
  {
    if !Settled(s) then
      if s.winner == Tie then s.(score := s.score.(updated := true))
      else if s.link.Some? && s.winner == Won(s.link.value.player) then
        s.(score := Score(s.score.player + 1, s.score.opponent, true))
      else
        s.(score := Score(s.score.player, s.score.opponent + 1, true))
    else
      s
  }

  // ---------------------------------------------------------------------
  // Events

  /** What can happen to a screen: a message arrives, or the user taps a
      cell or one of the three replay buttons. */
  datatype Event = Inbound(msg: string) | CellClick(row: int, col: int) | ReplayClick | AcceptClick | DeclineClick

  /** The grid only reports taps on its nine cells. */
  predicate EventOk(e: Event) {
    e.CellClick? ==> InRange(e.row) && InRange(e.col)
  }

  /** The state change and sends of one event, before the score effect. */
  function Transition(s: Session, e: Event): Step
    requires EventOk(e)
  {
    match e
    case Inbound(msg) => Step(Receive(s, msg), [])
    case CellClick(row, col) => ClickCell(s, row, col)
    case ReplayClick => ClickReplay(s)
    case AcceptClick => ClickAccept(s)
    case DeclineClick => ClickDecline(s)
  }

  /** One event, followed by the score effect that reacts to the winner. */
  function Apply(s: Session, e: Event): (r: Step)
    requires EventOk(e)
    ensures Settled(r.next)
    ensures e.Inbound? ==> r.sent == []
  {
    var t := Transition(s, e);
    Step(UpdateScore(t.next), t.sent)
  }
}
