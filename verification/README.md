# Tris session protocol

A Dafny model of the game logic behind `TrisGameScreen`. That screen is the
Bluetooth tic-tac-toe ("Tris") game of the Android app, written in Jetpack
Compose. Two screens on two phones exchange plain text messages:

- `HANDSHAKE:<token>` carries a random token. The two tokens decide who plays "X".
- `row,col` is a move.
- `REPLAY_REQUEST`, `REPLAY_ACCEPTED` and `REPLAY_DECLINED` negotiate a rematch.

The screen keeps its state in `remember`ed variables. The model turns them
into an immutable `Session` value with pure transitions:

- one for each inbound message;
- one for each tap on a cell or on the "Rigioca" ("play again"), "Accetta" ("accept") and "Rifiuta" ("decline") buttons;
- the score effect, which runs after every event.

The app ships two builds of the screen, and `Session.variant` tells them apart:

- `Tris` is the `bluetoothtris` build. Its `checkWinner` tests both diagonals. A rematch hands the first move to the other symbol. It keeps a score.
- `Chat` is the older `bluetoothchat` build. It tests rows and columns only. A rematch always starts with "X". It keeps no score.

The project has seven modules, one per file:

- `Optional` (`optional.dfy`): the `Option` type.
- `Board` (`board.dfy`): the 3×3 grid and `checkWinner`, written as the scan of the source and proved against an independent definition of the winning lines.
- `Wire` (`wire.dfy`): the message texts and the Kotlin string operations the handler uses. These are `startsWith`, `split(",")`, `toIntOrNull()` and decimal rendering, with round-trip lemmas.
- `GameScreen` (`game_screen.dfy`): `Session`, the transitions, and the handler in two forms: as written and repaired.
- `Invariants` (`invariants.dfy`): the invariant every reachable state keeps, the once-per-game score, and why a screen's own messages are harmless when they come back to it.
- `Peers` (`peers.dfy`): two screens talking to each other. It covers the handshake, a move and both outcomes of a rematch request.
- `Findings` (`findings.dfy`): the two defects of the move branch, with concrete inputs.

An event (`Transition`, `Apply`) hands an inbound message to the repaired handler `Receive`. That handler drops a move that names no cell and takes a remote move only on the opponent's turn in an undecided game. So the event-level invariant, score and two-screen lemmas describe the repaired screen. The handler as written is `ReceiveAsWritten`. `Invariants.ReceiveAsWrittenIsConsistent` shows it keeps the same invariant whenever it does not throw, and the "## Findings" lemmas show where the two differ.

## Model

| member | source | states |
|---|---|---|
| Board.Place | app/src/main/java/com/plcoding/bluetoothtris/presentation/components/TrisGameScreen.kt:153 | Writing a mark sets exactly the named cell; the eight other cells keep their contents. |
| Board.CheckWinner | app/src/main/java/com/plcoding/bluetoothtris/presentation/components/TrisGameScreen.kt:227-244 | A returned mark fills a line the build counts: a row or a column, or in the newer build a diagonal. |
| Board.LineDecides | app/src/main/java/com/plcoding/bluetoothtris/presentation/components/TrisGameScreen.kt:228-240 | Any line filled by one mark makes the result that of a mark, never "Tie" or `null`. |
| Board.CheckWinnerCorrect | app/src/main/java/com/plcoding/bluetoothtris/presentation/components/TrisGameScreen.kt:227-244 | The result is a mark iff some mark fills a counted line (a full board whose last move completes a line is a win, not a tie); "Tie" iff no filled line and no empty cell; `null` iff no filled line and some empty cell. The same holds for the older build's `checkWinner` (app/src/main/java/com/plcoding/bluetoothchat/presentation/components/TrisGameScreen.kt lines 190-196), whose winning lines are the rows and columns only. |
| Board.SoleLineWins | app/src/main/java/com/plcoding/bluetoothtris/presentation/components/TrisGameScreen.kt:228-240 | When only one mark fills a counted line, that mark is returned, whichever line the scan reaches first. |
| Board.DiagonalOnlyInNewerBuild | app/src/main/java/com/plcoding/bluetoothchat/presentation/components/TrisGameScreen.kt:190-195 | A board whose only filled line is a diagonal is a win in the newer build and never a win in the older one. |
| Board.PlaceKeepsDecided | app/src/main/java/com/plcoding/bluetoothtris/presentation/components/TrisGameScreen.kt:104-107 | A mark placed on an empty cell of a decided board leaves it decided, so a late move can change the winner but never clear it. |
| Board.BlankUndecided | app/src/main/java/com/plcoding/bluetoothtris/presentation/components/TrisGameScreen.kt:51-52 | A cleared board has no winner and is not a tie, in both builds, so `resetGame`'s `winner = null` agrees with `checkWinner`. |
| Wire.Split | app/src/main/java/com/plcoding/bluetoothtris/presentation/components/TrisGameScreen.kt:103 | `split(",")` yields at least one piece, no piece holds a comma, and there is more than one piece iff the message holds a comma. |
| Wire.JoinSplit | app/src/main/java/com/plcoding/bluetoothtris/presentation/components/TrisGameScreen.kt:103 | Splitting loses nothing: gluing the pieces back with commas gives the message. |
| Wire.SplitJoin | app/src/main/java/com/plcoding/bluetoothtris/presentation/components/TrisGameScreen.kt:103 | Comma-free pieces glued with commas split back into the same pieces, empty ones included. |
| Wire.SplitAtFirstComma | app/src/main/java/com/plcoding/bluetoothtris/presentation/components/TrisGameScreen.kt:103 | The text before the first comma is the first piece and the rest splits independently. |
| Wire.ToIntOrNull | app/src/main/java/com/plcoding/bluetoothtris/presentation/components/TrisGameScreen.kt:86 | A value comes only from a run of ASCII digits, optionally after one '+' or '-', and lies in the 32-bit `Int` range; such a run parses to its value, negated after '-', exactly when that value fits, and to `null` otherwise; every other text, the empty one included, gives `null`. |
| Wire.ParseDecimal | app/src/main/java/com/plcoding/bluetoothtris/presentation/components/TrisGameScreen.kt:86 | `toIntOrNull` reads back every non-negative `Int` rendered in decimal. |
| Wire.ParsePlus | app/src/main/java/com/plcoding/bluetoothtris/presentation/components/TrisGameScreen.kt:86 | A leading '+' is accepted and does not change the value. |
| Wire.ParseMinus | app/src/main/java/com/plcoding/bluetoothtris/presentation/components/TrisGameScreen.kt:86 | A leading '-' negates the value, down to `Int.MIN_VALUE`. |
| Wire.ParseOverflow | app/src/main/java/com/plcoding/bluetoothtris/presentation/components/TrisGameScreen.kt:86 | A decimal beyond `Int.MAX_VALUE` gives `null`. |
| Wire.DecimalInjective | app/src/main/java/com/plcoding/bluetoothtris/presentation/components/TrisGameScreen.kt:85 | Distinct tokens render to distinct handshake texts, so the self-echo test matches only our own token. |
| Wire.ParsedInts | app/src/main/java/com/plcoding/bluetoothtris/presentation/components/TrisGameScreen.kt:103 | `mapNotNull { it.toIntOrNull() }` keeps at most one number per piece, each in the `Int` range; when every piece parses the result is their values in order, and when none does it is empty. |
| Wire.Classify | app/src/main/java/com/plcoding/bluetoothtris/presentation/components/TrisGameScreen.kt:98-102 | The `when` tests REPLAY_REQUEST, REPLAY_ACCEPTED, REPLAY_DECLINED as prefixes in that order, then a comma; each outcome holds iff its test is the first that succeeds, and a move carries the numbers parsed from the comma-split message. |
| Wire.ClassifyMoveText | app/src/main/java/com/plcoding/bluetoothtris/presentation/components/TrisGameScreen.kt:102-103 | A move text "row,col" is read back as exactly the numbers row and col. |
| Wire.ClassifyHandshakeText | app/src/main/java/com/plcoding/bluetoothtris/presentation/components/TrisGameScreen.kt:98-109 | A handshake matches no replay prefix and has no comma, so after the handshake it is ignored. |
| Wire.HandshakeToken | app/src/main/java/com/plcoding/bluetoothtris/presentation/components/TrisGameScreen.kt:85-86 | No token without the "HANDSHAKE:" prefix or when the message is the text of our own handshake; otherwise the token is `toIntOrNull` of the suffix. |
| Wire.HandshakeTokenOfPeer | app/src/main/java/com/plcoding/bluetoothtris/presentation/components/TrisGameScreen.kt:85-86 | The peer's handshake yields the peer's token iff the two tokens differ; an equal token is taken for our own echo. |
| GameScreen.Launch | app/src/main/java/com/plcoding/bluetoothtris/presentation/components/TrisGameScreen.kt:25-64 | The first composition has no roles, "X" to start and to move, an empty board, no winner, no request and no points, and sends the handshake once. |
| GameScreen.RoleFor | app/src/main/java/com/plcoding/bluetoothtris/presentation/components/TrisGameScreen.kt:89 | The local screen plays "X" iff its token is not smaller than the remote one. |
| GameScreen.LinkFor | app/src/main/java/com/plcoding/bluetoothtris/presentation/components/TrisGameScreen.kt:88-90 | The handshake records the remote token, our symbol by the role rule, and the other symbol for the opponent. |
| GameScreen.ReceiveHandshake | app/src/main/java/com/plcoding/bluetoothtris/presentation/components/TrisGameScreen.kt:84-96 | Before the handshake, a message without a usable foreign token changes nothing; a usable one fixes both symbols, gives the turn to `startingPlayer` in the newer build, and leaves board, result, flags, scores, the local token and the build alone. In the older build (app/src/main/java/com/plcoding/bluetoothchat/presentation/components/TrisGameScreen.kt lines 57-66) the turn stays where it was, "X" initially. |
| GameScreen.Play | app/src/main/java/com/plcoding/bluetoothtris/presentation/components/TrisGameScreen.kt:153-156 | The shared tail of a move: only the named cell changes, the turn passes as given, the winner is recomputed on the new board, and nothing else in the session changes. |
| GameScreen.ClickCell | app/src/main/java/com/plcoding/bluetoothtris/presentation/components/TrisGameScreen.kt:151-157 | A tap sends a move iff it is our turn, the cell is empty and there is no result; then exactly that cell gets our symbol, one move is sent and the turn passes to the opponent; otherwise nothing changes and nothing is sent. The older build's tap (app/src/main/java/com/plcoding/bluetoothchat/presentation/components/TrisGameScreen.kt lines 112-118) is the same. |
| GameScreen.RemoteMove | app/src/main/java/com/plcoding/bluetoothtris/presentation/components/TrisGameScreen.kt:102-109 | As written: an occupied cell changes nothing; an empty one gets the opponent's symbol, the turn comes back to us and the winner is recomputed, whatever the turn or result was. The older build (app/src/main/java/com/plcoding/bluetoothchat/presentation/components/TrisGameScreen.kt lines 72-79) is the same. |
| GameScreen.GuardedRemoteMove | app/src/main/java/com/plcoding/bluetoothtris/presentation/components/TrisGameScreen.kt:102-109 | Repaired: the session changes iff it is the opponent's turn, the cell is empty and there is no result, and then exactly as the move as written. |
| GameScreen.Reset | app/src/main/java/com/plcoding/bluetoothtris/presentation/components/TrisGameScreen.kt:50-59 | `resetGame` clears the board, the result and both replay flags, flips `startingPlayer`, gives it the turn and clears `scoreUpdated`; roles, tokens and points are untouched. The older `resetGame` (app/src/main/java/com/plcoding/bluetoothchat/presentation/components/TrisGameScreen.kt lines 40-46) clears the same but always gives the turn to "X" and keeps `startingPlayer`. |
| GameScreen.ClickReplay | app/src/main/java/com/plcoding/bluetoothtris/presentation/components/TrisGameScreen.kt:162-169 | "Rigioca" acts only when the game is decided and no request is pending either way; it sends REPLAY_REQUEST and marks the request as sent, and changes nothing else. |
| GameScreen.ClickAccept | app/src/main/java/com/plcoding/bluetoothtris/presentation/components/TrisGameScreen.kt:171-182 | "Accetta" acts only when the peer asked and we did not; it sends REPLAY_ACCEPTED and starts the new game. |
| GameScreen.ClickDecline | app/src/main/java/com/plcoding/bluetoothtris/presentation/components/TrisGameScreen.kt:184-189 | "Rifiuta" acts under the same condition; it sends REPLAY_DECLINED and drops the received request, keeping the board. |
| GameScreen.PeerRequested | app/src/main/java/com/plcoding/bluetoothtris/presentation/components/TrisGameScreen.kt:99 | A peer's REPLAY_REQUEST is noted only when we have not asked ourselves; otherwise nothing changes. Once the handshake is done, the accept and decline buttons appear iff we had not asked. The older build does the same at app/src/main/java/com/plcoding/bluetoothchat/presentation/components/TrisGameScreen.kt line 69. |
| GameScreen.PeerAccepted | app/src/main/java/com/plcoding/bluetoothtris/presentation/components/TrisGameScreen.kt:100 | A peer's REPLAY_ACCEPTED starts a new game (`resetGame`) iff we had asked; otherwise nothing changes. Either way no request of ours stays pending. The older build does the same at app/src/main/java/com/plcoding/bluetoothchat/presentation/components/TrisGameScreen.kt line 70. |
| GameScreen.PeerDeclined | app/src/main/java/com/plcoding/bluetoothtris/presentation/components/TrisGameScreen.kt:101 | A peer's REPLAY_DECLINED withdraws our request and changes nothing else; a request the peer made earlier stays answerable. The older build does the same at app/src/main/java/com/plcoding/bluetoothchat/presentation/components/TrisGameScreen.kt line 71. |
| GameScreen.ReceiveAsWritten | app/src/main/java/com/plcoding/bluetoothtris/presentation/components/TrisGameScreen.kt:81-113 | The handler as written throws iff, after the handshake, a message that reaches the comma branch (no replay prefix, a comma) does not yield two numbers in 0..2 (fewer than two numbers is the destructuring fault); before the handshake it is the handshake rule; after it each replay prefix has its reaction and a message matching nothing is ignored. The older build's handler (app/src/main/java/com/plcoding/bluetoothchat/presentation/components/TrisGameScreen.kt lines 54-83) is the same. |
| GameScreen.Receive | app/src/main/java/com/plcoding/bluetoothtris/presentation/components/TrisGameScreen.kt:81-113 | Repaired handler: where the original throws, nothing changes; every non-move message is handled exactly as written; a well-formed move goes through the guarded remote move. |
| GameScreen.UpdateScore | app/src/main/java/com/plcoding/bluetoothtris/presentation/components/TrisGameScreen.kt:67-78 | Once per game, a result adds one point to the winner's side (ours iff the winner is our symbol) and a tie none, and marks the game counted; a counted, pending or scoreless session is untouched; afterwards nothing is left to count. |
| GameScreen.Apply | app/src/main/java/com/plcoding/bluetoothtris/presentation/components/TrisGameScreen.kt:66-78 | After any event and the score effect nothing is left to count, and an inbound message never makes the screen send anything. |
| Invariants.LaunchIsValid | app/src/main/java/com/plcoding/bluetoothtris/presentation/components/TrisGameScreen.kt:25-46 | The initial state satisfies the session invariant (roles match the role rule, the winner is `checkWinner` of the board, no request is both sent and received, a request we sent implies a result, a counted game has a result, the older build never scores). |
| Invariants.UpdateScoreRestoresValid | app/src/main/java/com/plcoding/bluetoothtris/presentation/components/TrisGameScreen.kt:67-78 | The score effect turns a consistent state into a fully valid one. |
| Invariants.ResetIsConsistent | app/src/main/java/com/plcoding/bluetoothtris/presentation/components/TrisGameScreen.kt:50-59 | A reset of a linked valid session keeps the invariant. |
| Invariants.ClickCellIsConsistent | app/src/main/java/com/plcoding/bluetoothtris/presentation/components/TrisGameScreen.kt:151-157 | A tap keeps the invariant (the stored winner is `checkWinner` of the new board). |
| Invariants.ReceiveIsConsistent | app/src/main/java/com/plcoding/bluetoothtris/presentation/components/TrisGameScreen.kt:81-113 | Every inbound message keeps the invariant, under the repaired handler `Receive` that every event uses. |
| Invariants.UnguardedRemoteMoveIsConsistent | app/src/main/java/com/plcoding/bluetoothtris/presentation/components/TrisGameScreen.kt:102-108 | The remote move as written, taken whatever the turn or the result, keeps the invariant: a result already on the board survives it. |
| Invariants.ReceiveAsWrittenIsConsistent | app/src/main/java/com/plcoding/bluetoothtris/presentation/components/TrisGameScreen.kt:81-113 | The handler as written keeps the invariant on every message it does not throw on. |
| Invariants.ApplyPreservesValid | app/src/main/java/com/plcoding/bluetoothtris/presentation/components/TrisGameScreen.kt:50-190 | Every event followed by the score effect maps a valid session to a valid one; inbound messages go through the repaired handler (see `Invariants.ReceiveAsWrittenIsConsistent` for the handler as written). |
| Invariants.TransitionKeepsScore | app/src/main/java/com/plcoding/bluetoothtris/presentation/components/TrisGameScreen.kt:81-113 | No event other than the score effect changes the points; only a new game clears the counted flag, and a change of roles leaves the game undecided. |
| Invariants.ScoredOncePerGame | app/src/main/java/com/plcoding/bluetoothtris/presentation/components/TrisGameScreen.kt:66-78 | Along any event, points never fall, their total grows by at most one, and ours grows iff this event produced a win for our symbol. |
| Invariants.ChatNeverScores | app/src/main/java/com/plcoding/bluetoothchat/presentation/components/TrisGameScreen.kt:25-37 | The older build stays at no points through every event. |
| Invariants.LateHandshakeIgnored | app/src/main/java/com/plcoding/bluetoothtris/presentation/components/TrisGameScreen.kt:97-110 | After the handshake, any handshake message leaves the session unchanged. |
| Invariants.OccupiedCellIgnored | app/src/main/java/com/plcoding/bluetoothtris/presentation/components/TrisGameScreen.kt:104 | A move onto an occupied cell changes nothing. |
| Invariants.OwnMoveIgnored | app/src/main/java/com/plcoding/bluetoothtris/presentation/components/TrisGameScreen.kt:102-109 | Our own move, read back from the message list, changes nothing. |
| Invariants.ReplayTextsClassified | app/src/main/java/com/plcoding/bluetoothtris/presentation/components/TrisGameScreen.kt:98-101 | Each of the three replay texts reaches its own branch despite the prefix tests. |
| Invariants.OwnRequestIgnored | app/src/main/java/com/plcoding/bluetoothtris/presentation/components/TrisGameScreen.kt:99 | Our own REPLAY_REQUEST read back changes nothing, because we have asked. |
| Invariants.OwnAcceptIgnored | app/src/main/java/com/plcoding/bluetoothtris/presentation/components/TrisGameScreen.kt:100 | Our own REPLAY_ACCEPTED read back changes nothing, because the reset cleared our request flag. |
| Invariants.OwnDeclineIgnored | app/src/main/java/com/plcoding/bluetoothtris/presentation/components/TrisGameScreen.kt:101 | Our own REPLAY_DECLINED read back changes nothing, because we had not asked. |
| Invariants.EchoesAreHarmless | app/src/main/java/com/plcoding/bluetoothtris/presentation/components/TrisGameScreen.kt:81-113 | Every message a tap sends, if handled by the sender itself, leaves the sender's session unchanged. |
| Peers.HandshakeEstablishesMirror | app/src/main/java/com/plcoding/bluetoothtris/presentation/components/TrisGameScreen.kt:84-96 | Two launched screens with different tokens that read each other's handshake become valid, facing each other with complementary symbols (the larger token plays "X"), on an empty, undecided board. |
| Peers.EqualTokensStall | app/src/main/java/com/plcoding/bluetoothtris/presentation/components/TrisGameScreen.kt:85 | Two screens with the same token each ignore the other's handshake and never leave the waiting state. |
| Peers.OpponentSeesMove | app/src/main/java/com/plcoding/bluetoothtris/presentation/components/TrisGameScreen.kt:152 | A move our side may make is one the peer's repaired guard accepts, and both sides place the same mark on the same cell. |
| Peers.MoveDelivered | app/src/main/java/com/plcoding/bluetoothtris/presentation/components/TrisGameScreen.kt:102-108 | The peer receiving the move text places the opponent's mark on that cell and takes the turn. |
| Peers.MoveKeepsMirror | app/src/main/java/com/plcoding/bluetoothtris/presentation/components/TrisGameScreen.kt:151-157 | A local move sends one move message; once delivered, both screens are again valid and facing each other (same board, turn and result, mirrored points). |
| Peers.RequestDelivered | app/src/main/java/com/plcoding/bluetoothtris/presentation/components/TrisGameScreen.kt:162-169 | After a decided game the request marks the asker as waiting and the receiver as asked. |
| Peers.AcceptDelivered | app/src/main/java/com/plcoding/bluetoothtris/presentation/components/TrisGameScreen.kt:177-182 | Accepting resets the accepting screen at once and the asking screen when REPLAY_ACCEPTED arrives. |
| Peers.DeclineDelivered | app/src/main/java/com/plcoding/bluetoothtris/presentation/components/TrisGameScreen.kt:184-189 | Declining drops the question on one side and the pending request on the other. |
| Peers.ResetKeepsFacing | app/src/main/java/com/plcoding/bluetoothtris/presentation/components/TrisGameScreen.kt:50-59 | Both screens reset into the same new game, so they still face each other. |
| Peers.RematchKeepsMirror | app/src/main/java/com/plcoding/bluetoothtris/presentation/components/TrisGameScreen.kt:162-190 | Request plus acceptance leaves both screens facing each other on an empty, undecided board, with the first move to the other symbol (newer build) or to "X" (older build), and with the points kept. |
| Peers.DeclineRestoresMirror | app/src/main/java/com/plcoding/bluetoothtris/presentation/components/TrisGameScreen.kt:184-189 | Request plus refusal brings both screens back exactly to where they were, with "Rigioca" offered again. |
| Peers.SimultaneousRequestsStall | app/src/main/java/com/plcoding/bluetoothtris/presentation/components/TrisGameScreen.kt:99 | When both sides press "Rigioca" before the other's request arrives, each request is ignored; neither side then offers a button or accepts a move. |
| Findings.MalformedMoveThrows | app/src/main/java/com/plcoding/bluetoothtris/presentation/components/TrisGameScreen.kt:103-104 | "3,0" throws an index fault and "7," a destructuring fault in the handler as written; the repaired handler ignores both. |
| Findings.LateMoveOverturnsWinner | app/src/main/java/com/plcoding/bluetoothtris/presentation/components/TrisGameScreen.kt:102-108 | As written, a move after our win that completes the opponent's top row turns the shown winner into "O", and a move on our turn is placed; the guarded move rejects both. |
| Findings.DecidedResultIsFinal | app/src/main/java/com/plcoding/bluetoothtris/presentation/components/TrisGameScreen.kt:102-108 | With the guard, once a game is decided every event keeps the board and the result or starts a new game. |

## Left out

- The Compose rendering: `TrisGrid`, texts, buttons, layout and the status line. It shows state and holds no logic beyond the button conditions, which are modelled as `ReplayOffered` and `AnswerOffered`.
- `Random.nextInt(0, 10000)`: the local token is a parameter of `Launch`, bounded by `MaxToken`.
- The send callbacks `onSendHandshake`, `onSendMove`, `onSendReplay` and the Bluetooth transport: a step returns the callbacks it calls. Their encoders are not part of this model. `Transmitted` assumes the texts the handler decodes: "HANDSHAKE:" plus the decimal token, and "row,col".
- `state.messages.lastOrNull()` and `LaunchedEffect` timing: messages are handled one per step. When two messages arrive before the effect runs, the screen handles only the last one. That loss is not modelled.
- The score effect is keyed on `winner`. It is modelled as running after every event. It does nothing unless a result is uncounted, so the two agree.
- In-place mutation of `board[row][col]` and the recomposition it may or may not trigger: the board is an immutable value.
- GameScreen.UpdateScore: the points are unbounded `nat`s. The source's `playerScore++` and `opponentScore++` act on 32-bit `Int`s and would wrap to `Int.MIN_VALUE` after 2^31-1 points. That wrap is not modelled; no real session plays that many games.
- Invariants.ScoredOncePerGame: "points never fall" holds for the unbounded counters only. The source's 32-bit counters would fall when they wrap after 2^31-1 points, which is not modelled.
- Wire.ToIntOrNull: Kotlin also accepts non-ASCII Unicode decimal digits. The model accepts ASCII '0'..'9' only.
- Exceptions: a throwing handler is the `Thrown` result of `ReceiveAsWritten`. What the coroutine does after the exception is not modelled.
- Wire.ParsedInts: its contract pins the result when every piece parses or none does. A mix of parsing and non-parsing pieces is pinned only by the definition. `Classify`'s move case and `ClassifyMoveText` cover the texts the handler actually decodes.
- `BluetoothUiState`, `BluetoothMessage`, `BluetoothDevice`, the device mapper, dependency wiring and theme: records and platform glue with no game logic. A message is its text.

## Findings

| source | as written | input that shows it | evidently intended | confidence | as-written member | corrected member |
|---|---|---|---|---|---|---|
| app/src/main/java/com/plcoding/bluetoothtris/presentation/components/TrisGameScreen.kt:103-104 | A message with a comma is destructured into two numbers and used as board indices unchecked. The handler throws when fewer than two numbers parse or an index is outside 0..2. The older build has the same lines at 73-74. | "3,0" (row off the board); "7," (one number) | a message that names no cell is ignored | not executed | Findings.MalformedMoveThrows | GameScreen.Receive |
| app/src/main/java/com/plcoding/bluetoothtris/presentation/components/TrisGameScreen.kt:102-108 | A remote move is applied to any empty cell, whoever's turn it is and even after a result. The older build has the same lines at 72-78. | X has won on the bottom row and O holds (0,0) and (0,1). The move "0,2" turns the winner into O. A move on our turn is also taken. | the peer's move is taken only on its turn in an undecided game, mirroring the local guard | not executed | Findings.LateMoveOverturnsWinner | Findings.DecidedResultIsFinal |
