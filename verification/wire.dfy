/**
  The text messages exchanged by the two screens and the Kotlin string
  operations the inbound handler applies to them: `startsWith`,
  `contains(",")`, `split(",")`, `toIntOrNull()` and the decimal rendering of
  an `Int` inside a string template.
 */
module Wire {
  import opened Optional

  const HandshakePrefix: string := "HANDSHAKE:"
  const ReplayRequestText: string := "REPLAY_REQUEST"
  const ReplayAcceptedText: string := "REPLAY_ACCEPTED"
  const ReplayDeclinedText: string := "REPLAY_DECLINED"

  /** Kotlin `Int.MIN_VALUE` and `Int.MAX_VALUE`. */
  const IntMin: int := -0x8000_0000
  const IntMax: int := 0x7fff_ffff

  predicate StartsWith(s: string, prefix: string) {
    |prefix| <= |s| && s[..|prefix|] == prefix
  }

  // ---------------------------------------------------------------------
  // split(",")

  /** `s.split(",")`: the pieces between commas, empty pieces included. */
  function Split(s: string): (parts: seq<string>)
    ensures |parts| >= 1
    ensures forall k :: 0 <= k < |parts| ==> ',' !in parts[k]
    ensures |parts| == 1 <==> ',' !in s
    decreases |s|
  {
    if |s| == 0 then [""]
    else if s[0] == ',' then [""] + Split(s[1..])
    else
      var rest := Split(s[1..]);
      [[s[0]] + rest[0]] + rest[1..]
  }

  /** The pieces glued back together with commas. */
  function Join(parts: seq<string>): string
    requires |parts| >= 1
    decreases |parts|
  {
    if |parts| == 1 then parts[0] else parts[0] + "," + Join(parts[1..])
  }

  /** A leading comma closes an empty first piece. */
  lemma SplitComma(t: string)
    ensures Split([','] + t) == [""] + Split(t)
  {
    assert ([','] + t)[1..] == t;
  }

  /** Any other leading character starts the first piece. */
  lemma SplitCons(c: char, t: string)
    requires c != ','
    ensures Split([c] + t) == [[c] + Split(t)[0]] + Split(t)[1..]
  {
    assert ([c] + t)[1..] == t;
  }

  /** Splitting loses nothing: gluing the pieces back gives the message. */
  lemma {:induction false} JoinSplit(s: string)
    ensures Join(Split(s)) == s
    decreases |s|
  {
    if |s| > 0 {
      var t := s[1..];
      assert s == [s[0]] + t;
      JoinSplit(t);
      var rest := Split(t);
      if s[0] == ',' {
        SplitComma(t);
        assert Join(Split(s)) == "" + "," + Join(rest);
      } else {
        SplitCons(s[0], t);
        var parts := Split(s);
        if |rest| == 1 {
          assert Join(parts) == [s[0]] + rest[0];
        } else {
          assert parts[1..] == rest[1..];
          assert Join(rest) == rest[0] + "," + Join(rest[1..]);
          assert Join(parts) == ([s[0]] + rest[0]) + "," + Join(rest[1..]);
        }
      }
    }
  }

  /** A comma-free piece followed by a comma is split off as the first piece. */
  lemma {:induction false} SplitAtFirstComma(a: string, t: string)
    requires ',' !in a
    ensures Split(a + "," + t) == [a] + Split(t)
    decreases |a|
  {
    if |a| == 0 {
      assert a + "," + t == [','] + t;
      SplitComma(t);
    } else {
      var u := a[1..] + "," + t;
      assert a + "," + t == [a[0]] + u;
      assert a == [a[0]] + a[1..];
      SplitAtFirstComma(a[1..], t);
      SplitCons(a[0], u);
    }
  }

  /** Gluing comma-free pieces and splitting again gives the same pieces. */
  lemma {:induction false} SplitJoin(parts: seq<string>)
    requires |parts| >= 1
    requires forall k :: 0 <= k < |parts| ==> ',' !in parts[k]
    ensures Split(Join(parts)) == parts
    decreases |parts|
  {
    if |parts| == 1 {
      SplitWithoutComma(parts[0]);
    } else {
      SplitJoin(parts[1..]);
      SplitAtFirstComma(parts[0], Join(parts[1..]));
    }
  }

  lemma {:induction false} SplitWithoutComma(s: string)
    requires ',' !in s
    ensures Split(s) == [s]
    decreases |s|
  {
    if |s| > 0 {
      SplitWithoutComma(s[1..]);
      assert s == [s[0]] + s[1..];
    }
  }

  // ---------------------------------------------------------------------
  // toIntOrNull() and decimal rendering

  predicate IsDigit(c: char) { '0' <= c <= '9' }

  predicate AllDigits(s: string) {
    forall k :: 0 <= k < |s| ==> IsDigit(s[k])
  }

  /** The value of a run of decimal digits, read left to right. */
  function DigitsValue(s: string): nat
    requires AllDigits(s)
    decreases |s|
  {
    if |s| == 0 then 0
    else DigitsValue(s[..|s| - 1]) * 10 + (s[|s| - 1] as int - '0' as int)
  }

  /**
    `String.toIntOrNull()`: an optional '+' or '-' followed by at least one
    digit, whose value fits in a 32-bit `Int`; anything else is `null`.
   */
  function ToIntOrNull(s: string): (r: Option<int>)
    ensures r.Some? ==> IntMin <= r.value <= IntMax
    ensures r.Some? ==> |s| >= 1 && (AllDigits(s) || ((s[0] == '+' || s[0] == '-') && |s| >= 2 && AllDigits(s[1..])))
    ensures r.Some? && IsDigit(s[0]) ==> AllDigits(s) && r.value == DigitsValue(s)
    ensures |s| == 0 || (|s| == 1 && !IsDigit(s[0])) ==> r == None
    ensures |s| >= 1 && AllDigits(s) ==> r == (if DigitsValue(s) <= IntMax then Some(DigitsValue(s)) else None)
    ensures |s| >= 2 && s[0] == '+' && AllDigits(s[1..]) ==>
      r == (if DigitsValue(s[1..]) <= IntMax then Some(DigitsValue(s[1..])) else None)
    ensures |s| >= 2 && s[0] == '-' && AllDigits(s[1..]) ==>
      r == (if -(DigitsValue(s[1..]) as int) >= IntMin then Some(-(DigitsValue(s[1..]) as int)) else None)
  {
    if |s| == 0 then None
    else
      var negative := s[0] == '-';
      var digits := if s[0] == '-' || s[0] == '+' then s[1..] else s;
      if |digits| == 0 || !AllDigits(digits) then None
      else
        var m: int := DigitsValue(digits);
        if negative then (if -m < IntMin then None else Some(-m))
        else if m > IntMax then None
        else Some(m)
  }

  function DigitChar(d: int): (c: char)
    requires 0 <= d < 10
    ensures IsDigit(c) && c as int - '0' as int == d
  {
    ('0' as int + d) as char
  }

  /** The text of a non-negative `Int` in a string template: decimal digits,
      no sign, no leading zeros. */
  function Decimal(n: nat): (r: string)
    ensures |r| >= 1 && AllDigits(r)
    ensures ',' !in r
    decreases n
  {
    if n < 10 then [DigitChar(n)] else Decimal(n / 10) + [DigitChar(n % 10)]
  }

  /** Reading the digits back gives the number. */
  lemma {:induction false} DecimalValue(n: nat)
    ensures DigitsValue(Decimal(n)) == n
    decreases n
  {
    if n >= 10 {
      DecimalValue(n / 10);
      var d := Decimal(n);
      assert d[..|d| - 1] == Decimal(n / 10);
    }
  }

  /** `toIntOrNull` inverts the decimal rendering of every non-negative `Int`. */
  lemma ParseDecimal(n: nat)
    requires n <= IntMax
    ensures ToIntOrNull(Decimal(n)) == Some(n)
  {
    DecimalValue(n);
  }

  /** A leading '+' is accepted. */
  lemma ParsePlus(n: nat)
    requires n <= IntMax
    ensures ToIntOrNull("+" + Decimal(n)) == Some(n)
  {
    DecimalValue(n);
    assert ("+" + Decimal(n))[1..] == Decimal(n);
  }

  /** A leading '-' negates, down to `Int.MIN_VALUE`. */
  lemma ParseMinus(n: nat)
    requires n <= -IntMin
    ensures ToIntOrNull("-" + Decimal(n)) == Some(-(n as int))
  {
    DecimalValue(n);
    assert ("-" + Decimal(n))[1..] == Decimal(n);
  }

  /** A value beyond `Int.MAX_VALUE` is rejected. */
  lemma ParseOverflow(n: nat)
    requires n > IntMax
    ensures ToIntOrNull(Decimal(n)) == None
  {
    DecimalValue(n);
  }

  /** Distinct numbers render to distinct texts. */
  lemma DecimalInjective(a: nat, b: nat)
    requires Decimal(a) == Decimal(b)
    ensures a == b
  {
    DecimalValue(a);
    DecimalValue(b);
  }

  // ---------------------------------------------------------------------
  // Messages

  /** The handshake carrying token `token`: the text the handler compares
      against `"HANDSHAKE:$localRandomNumber"`. */
  function HandshakeText(token: nat): string {
    HandshakePrefix + Decimal(token)
  }

  /** A move as the handler decodes it: row, comma, column. */
  function MoveText(row: nat, col: nat): string {
    Decimal(row) + "," + Decimal(col)
  }

  /** `split(",").mapNotNull { it.toIntOrNull() }`: the pieces that parse, in order. */
  function ParsedInts(parts: seq<string>): (r: seq<int>)
    ensures |r| <= |parts|
    ensures forall k :: 0 <= k < |r| ==> IntMin <= r[k] <= IntMax
    ensures (forall k :: 0 <= k < |parts| ==> ToIntOrNull(parts[k]).Some?) ==>
      |r| == |parts| && forall k :: 0 <= k < |r| ==> Some(r[k]) == ToIntOrNull(parts[k])
    ensures (forall k :: 0 <= k < |parts| ==> ToIntOrNull(parts[k]).None?) ==> r == []
  {
    if |parts| == 0 then []
    else
      match ToIntOrNull(parts[0])
      case Some(n) => [n] + ParsedInts(parts[1..])
      case None => ParsedInts(parts[1..])
  }

  /** How a message is read once the handshake is done. */
  datatype Kind = ReplayRequest | ReplayAccepted | ReplayDeclined | Move(numbers: seq<int>) | Unrecognised

  /**
    The `when` of the inbound handler: the three replay prefixes are tested
    in this order, then the presence of a comma; a message matching none of
    them is ignored.
   */
  function Classify(msg: string): (k: Kind)
    ensures k == ReplayRequest <==> StartsWith(msg, ReplayRequestText)
    ensures k == ReplayAccepted <==> !StartsWith(msg, ReplayRequestText) && StartsWith(msg, ReplayAcceptedText)
    ensures k == ReplayDeclined <==>
      !StartsWith(msg, ReplayRequestText) && !StartsWith(msg, ReplayAcceptedText) && StartsWith(msg, ReplayDeclinedText)
    ensures k.Move? ==> ',' in msg && k.numbers == ParsedInts(Split(msg))
    ensures k == Unrecognised <==>
      !StartsWith(msg, ReplayRequestText) && !StartsWith(msg, ReplayAcceptedText)
      && !StartsWith(msg, ReplayDeclinedText) && ',' !in msg
  {
    if StartsWith(msg, ReplayRequestText) then ReplayRequest
    else if StartsWith(msg, ReplayAcceptedText) then ReplayAccepted
    else if StartsWith(msg, ReplayDeclinedText) then ReplayDeclined
    else if ',' in msg then Move(ParsedInts(Split(msg)))
    else Unrecognised
  }

  /** A message starting with a digit is never a replay message. */
  lemma DigitLeadIsNotReplay(msg: string)
    requires |msg| >= 1 && IsDigit(msg[0])
    ensures !StartsWith(msg, ReplayRequestText)
    ensures !StartsWith(msg, ReplayAcceptedText)
    ensures !StartsWith(msg, ReplayDeclinedText)
  {
    assert ReplayRequestText[0] == 'R' && ReplayAcceptedText[0] == 'R' && ReplayDeclinedText[0] == 'R';
  }

  /** A move message decodes to exactly its row and column. */
  lemma ClassifyMoveText(row: nat, col: nat)
    requires row <= IntMax && col <= IntMax
    ensures Classify(MoveText(row, col)) == Move([row, col])
  {
    var m := MoveText(row, col);
    assert m[0] == Decimal(row)[0];
    DigitLeadIsNotReplay(m);
    assert m[|Decimal(row)|] == ',';
    MoveTextSplits(row, col);
    ParsedPair(row, col);
  }

  /** A move text splits back into its two decimal pieces. */
  lemma MoveTextSplits(row: nat, col: nat)
    ensures Split(MoveText(row, col)) == [Decimal(row), Decimal(col)]
  {
    assert Join([Decimal(row), Decimal(col)]) == MoveText(row, col);
    SplitJoin([Decimal(row), Decimal(col)]);
  }

  /** Two decimal pieces parse back to the two numbers. */
  lemma ParsedPair(row: nat, col: nat)
    requires row <= IntMax && col <= IntMax
    ensures ParsedInts([Decimal(row), Decimal(col)]) == [row, col]
  {
    ParseDecimal(row);
    ParseDecimal(col);
    assert [Decimal(row), Decimal(col)][1..] == [Decimal(col)];
    assert ParsedInts([Decimal(col)]) == [col];
  }

  /** A handshake is no replay message and has no comma, so once the roles
      are fixed the handler ignores it. */
  lemma ClassifyHandshakeText(token: nat)
    ensures Classify(HandshakeText(token)) == Unrecognised
  {
    var m := HandshakeText(token);
    assert m[0] == 'H';
    assert ',' !in HandshakePrefix;
  }

  /** The value carried by a handshake: `startsWith("HANDSHAKE:")`, not the
      text of our own handshake, and a suffix that `toIntOrNull` accepts. */
  function HandshakeToken(msg: string, localToken: nat): (r: Option<int>)
    ensures !StartsWith(msg, HandshakePrefix) || msg == HandshakeText(localToken) ==> r == None
    ensures StartsWith(msg, HandshakePrefix) && msg != HandshakeText(localToken) ==>
      r == ToIntOrNull(msg[|HandshakePrefix|..])
  {
    if StartsWith(msg, HandshakePrefix) && msg != HandshakeText(localToken) then
      ToIntOrNull(msg[|HandshakePrefix|..])
    else
      None
  }

  /** A peer's handshake is read back as the peer's token exactly when the
      two tokens differ; an equal token is mistaken for our own echo. */
  lemma HandshakeTokenOfPeer(remote: nat, localToken: nat)
    requires remote <= IntMax
    ensures remote != localToken ==> HandshakeToken(HandshakeText(remote), localToken) == Some(remote)
    ensures remote == localToken ==> HandshakeToken(HandshakeText(remote), localToken) == None
  {
    var m := HandshakeText(remote);
    assert m[..|HandshakePrefix|] == HandshakePrefix;
    assert m[|HandshakePrefix|..] == Decimal(remote);
    ParseDecimal(remote);
    if remote != localToken && m == HandshakeText(localToken) {
      assert Decimal(remote) == Decimal(localToken);
      DecimalInjective(remote, localToken);
    }
  }
}
