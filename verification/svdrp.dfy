/** The client side of VDR's SVDRP control protocol as the tool speaks it:
    commands are written as CRLF-terminated lines, and at fixed points the
    tool reads one reply line and insists that it starts with an expected
    three-digit status code. */
module Svdrp {
  import opened Utf8
  import opened Strconv
  import opened Wrappers

  /** The reply codes the tool waits for. */
  const ServiceReady: int := 220
  const ServiceClosing: int := 221
  const ActionOk: int := 250
  const StartSending: int := 354

  /** One step of the conversation: a single write of `lines`, each
      followed by CRLF, or a wait for one reply that must carry `code`. */
  datatype Action = Send(lines: seq<string>) | Expect(code: int)

  /** Why a wait for a reply ended the process. */
  datatype Failure =
    | ReadFailed   // the peer closed the connection before a full line
    | ShortReply   // fewer than three bytes, so taking the status panics
    | WrongCode    // the status is not the expected code

  /** The bytes one `Send` puts on the wire. */
  function Wire(lines: seq<string>): (bs: seq<byte>)
    ensures |bs| >= 2 * |lines|
  {
    if |lines| == 0 then []
    else EncodeString(lines[0] + "\r\n") + Wire(lines[1..])
  }

  /** One line goes out as its bytes followed by CR LF. */
  lemma WireLine(line: string)
    ensures Wire([line]) == EncodeString(line) + [13, 10]
  {
    EncodeStringAppend(line, "\r\n");
    assert [line][1..] == [];
  }

  /** The bytes of several lines are those of each line in turn, so a write
      of any lines ends with CR LF, and two writes in a row put the same
      bytes on the wire as one write of all their lines. */
  lemma {:induction false} WireAppend(a: seq<string>, b: seq<string>)
    ensures Wire(a + b) == Wire(a) + Wire(b)
  {
    if |a| > 0 {
      assert (a + b)[0] == a[0];
      assert (a + b)[1..] == a[1..] + b;
      WireAppend(a[1..], b);
    } else {
      assert a + b == b;
    }
  }

  /** A non-empty write ends with CR LF. */
  lemma WireEnds(lines: seq<string>)
    requires |lines| > 0
    ensures var bs := Wire(lines);
            |bs| >= 2 && bs[|bs| - 2..] == [13, 10]
  {
    var init := lines[..|lines| - 1];
    assert lines == init + [lines[|lines| - 1]];
    WireAppend(init, [lines[|lines| - 1]]);
    WireLine(lines[|lines| - 1]);
  }

  /** `svdrp_wait_for_reply`'s test: the first three bytes of the line read
      (its newline included) are the decimal text of `code`. */
  predicate ReplyOk(line: seq<byte>, code: int) {
    |line| >= 3 && line[..3] == EncodeString(FormatInt(code))
  }

  /** The outcome of one wait: `None` when the line is accepted. */
  function CheckReply(line: seq<byte>, code: int): (f: Option<Failure>)
    requires 100 <= code <= 999
    ensures f.None? <==> ReplyOk(line, code)
    ensures f == Some(ShortReply) <==> |line| < 3
  {
    if |line| < 3 then Some(ShortReply)
    else if line[..3] != EncodeString(FormatInt(code)) then Some(WrongCode)
    else None
  }

  function DigitByte(d: int): byte
    requires 0 <= d < 10
  {
    48 + d
  }

  predicate IsDigitByte(b: byte) {
    48 <= b < 58
  }

  /** The bytes of a three-digit code: its three ASCII digits. */
  lemma ThreeDigitBytes(code: int)
    requires 100 <= code <= 999
    ensures EncodeString(FormatInt(code)) == [DigitByte(code / 100), DigitByte(code / 10 % 10), DigitByte(code % 10)]
  {
    FormatThreeDigits(code);
    var s := FormatInt(code);
    EncodeAscii(s);
  }

  lemma DecimalUnique(a: int, b: int, c: int, code: int)
    requires 0 <= a < 10 && 0 <= b < 10 && 0 <= c < 10 && a * 100 + b * 10 + c == code
    ensures a == code / 100 && b == code / 10 % 10 && c == code % 10
  {
    assert code / 10 == a * 10 + b;
  }

  lemma DecimalDigits(code: int)
    requires 100 <= code <= 999
    ensures 0 <= code / 100 < 10 && 0 <= code / 10 % 10 < 10 && 0 <= code % 10 < 10
    ensures (code / 100) * 100 + (code / 10 % 10) * 10 + code % 10 == code
  {
    assert code / 10 == (code / 100) * 10 + code / 10 % 10;
  }

  /** The line starts with three ASCII digits spelling `code` in decimal. */
  predicate NumericReply(line: seq<byte>, code: int) {
    |line| >= 3 && IsDigitByte(line[0]) && IsDigitByte(line[1]) && IsDigitByte(line[2]) &&
    (line[0] as int - 48) * 100 + (line[1] as int - 48) * 10 + (line[2] as int - 48) == code
  }

  /** The numeric reading of the reply test: for a three-digit code, a
      line passes exactly when it starts with three ASCII digits whose
      decimal value is the code. */
  lemma ReplyOkNumeric(line: seq<byte>, code: int)
    requires 100 <= code <= 999
    ensures ReplyOk(line, code) <==> NumericReply(line, code)
  {
    if ReplyOk(line, code) {
      ReplyOkIsNumeric(line, code);
    }
    if NumericReply(line, code) {
      NumericIsReplyOk(line, code);
    }
  }

  lemma ReplyOkIsNumeric(line: seq<byte>, code: int)
    requires 100 <= code <= 999 && ReplyOk(line, code)
    ensures NumericReply(line, code)
  {
    ThreeDigitBytes(code);
    DecimalDigits(code);
    var expected := [DigitByte(code / 100), DigitByte(code / 10 % 10), DigitByte(code % 10)];
    assert line[..3] == expected;
    assert line[0] == expected[0] && line[1] == expected[1] && line[2] == expected[2];
  }

  lemma NumericIsReplyOk(line: seq<byte>, code: int)
    requires 100 <= code <= 999 && NumericReply(line, code)
    ensures ReplyOk(line, code)
  {
    ThreeDigitBytes(code);
    DecimalUnique(line[0] as int - 48, line[1] as int - 48, line[2] as int - 48, code);
    var expected := [DigitByte(code / 100), DigitByte(code / 10 % 10), DigitByte(code % 10)];
    assert line[..3] == expected;
  }

  /** The codes of the waits in `trace`, in order. */
  function Expected(trace: seq<Action>): (codes: seq<int>)
    ensures |codes| <= |trace|
  {
    if |trace| == 0 then []
    else if trace[0].Expect? then [trace[0].code] + Expected(trace[1..])
    else Expected(trace[1..])
  }

  /** How the conversation ends when the peer sends `replies` in order. */
  datatype Outcome = Completed | Failed(wait: nat, why: Failure)

  /** Every wait in `trace` is for a three-digit code. */
  predicate ThreeDigitCodes(trace: seq<Action>) {
    forall i :: 0 <= i < |trace| && trace[i].Expect? ==> 100 <= trace[i].code <= 999
  }

  /** The first `n` replies pass the first `n` waits of `codes`. */
  predicate AcceptedUpTo(replies: seq<seq<byte>>, codes: seq<int>, n: nat)
    requires n <= |codes|
  {
    n <= |replies| && forall j :: 0 <= j < n ==> ReplyOk(replies[j], codes[j])
  }

  /** The outcome of the rest of a conversation after one more wait
      passed. */
  function Later(o: Outcome): Outcome {
    match o
    case Completed => Completed
    case Failed(w, why) => Failed(w + 1, why)
  }

  /** Plays `trace` against the peer: writes always succeed (their errors
      are ignored), and each wait consumes the next reply line. A failure
      names the wait it happened at, counting from 0. */
  function Replay(trace: seq<Action>, replies: seq<seq<byte>>): (o: Outcome)
    requires ThreeDigitCodes(trace)
    ensures o.Failed? ==> o.wait < |Expected(trace)|
  {
    if |trace| == 0 then Completed
    else match trace[0]
      case Send(_) => Replay(trace[1..], replies)
      case Expect(code) =>
        if |replies| == 0 then Failed(0, ReadFailed)
        else match CheckReply(replies[0], code)
          case Some(why) => Failed(0, why)
          case None => Later(Replay(trace[1..], replies[1..]))
  }

  lemma ExpectedTail(trace: seq<Action>)
    requires |trace| > 0
    ensures Expected(trace) == if trace[0].Expect? then [trace[0].code] + Expected(trace[1..]) else Expected(trace[1..])
  {
  }

  /** A pairwise test holds on the first `n + 1` pairs exactly when it
      holds on the first pair and on the first `n` pairs after it. */
  lemma PairwiseShift<A, B>(xs: seq<A>, ys: seq<B>, n: nat, ok: (A, B) -> bool)
    requires n + 1 <= |xs| && n + 1 <= |ys| && ok(xs[0], ys[0])
    ensures (forall j :: 0 <= j < n + 1 ==> ok(xs[j], ys[j])) <==> (forall j :: 0 <= j < n ==> ok(xs[1..][j], ys[1..][j]))
  {
    if forall j :: 0 <= j < n ==> ok(xs[1..][j], ys[1..][j]) {
      forall j | 0 <= j < n + 1
        ensures ok(xs[j], ys[j])
      {
        if j > 0 {
          assert xs[j] == xs[1..][j - 1] && ys[j] == ys[1..][j - 1];
        }
      }
    }
  }

  /** Shifting past one accepted wait. */
  lemma AcceptedShift(replies: seq<seq<byte>>, code: int, rest: seq<int>)
    requires |replies| > 0 && ReplyOk(replies[0], code)
    ensures AcceptedUpTo(replies, [code] + rest, |rest| + 1) <==> AcceptedUpTo(replies[1..], rest, |rest|)
  {
    var codes := [code] + rest;
    assert codes[1..] == rest;
    if |rest| + 1 <= |replies| {
      PairwiseShift(replies, codes, |rest|, (r, c) => ReplyOk(r, c));
    }
  }

  /** The conversation completes exactly when every wait finds its code. */
  lemma {:induction false} ReplayCompletes(trace: seq<Action>, replies: seq<seq<byte>>)
    requires ThreeDigitCodes(trace)
    ensures Replay(trace, replies).Completed? <==> AcceptedUpTo(replies, Expected(trace), |Expected(trace)|)
  {
    if |trace| > 0 {
      ExpectedTail(trace);
      var rest := Expected(trace[1..]);
      match trace[0]
      case Send(_) =>
        ReplayCompletes(trace[1..], replies);
      case Expect(code) =>
        assert Expected(trace) == [code] + rest;
        if |replies| > 0 && ReplyOk(replies[0], code) {
          ReplayCompletes(trace[1..], replies[1..]);
          AcceptedShift(replies, code, rest);
        }
    }
  }

  /** A failed conversation stops at the first wait whose reply is missing
      or wrong: all earlier waits passed, the reply runs out exactly when
      the failure is a read error, and a reply too short to hold a code is
      reported as such. */
  lemma {:induction false} ReplayFailsFirst(trace: seq<Action>, replies: seq<seq<byte>>)
    requires ThreeDigitCodes(trace)
    ensures var o := Replay(trace, replies);
            o.Failed? ==>
              var n := o.wait;
              AcceptedUpTo(replies, Expected(trace), n) &&
              (o.why == ReadFailed <==> n == |replies|) &&
              (n < |replies| ==> !ReplyOk(replies[n], Expected(trace)[n])) &&
              (o.why == ShortReply <==> n < |replies| && |replies[n]| < 3)
  {
    if |trace| > 0 {
      var codes := Expected(trace);
      var rest := Expected(trace[1..]);
      ExpectedTail(trace);
      ReplayFailsFirst(trace[1..], if trace[0].Expect? && |replies| > 0 then replies[1..] else replies);
      if trace[0].Expect? && |replies| > 0 && ReplyOk(replies[0], trace[0].code) {
        var o := Replay(trace[1..], replies[1..]);
        if o.Failed? {
          var n := o.wait;
          assert codes == [trace[0].code] + rest;
          forall j | 0 <= j < n + 1
            ensures ReplyOk(replies[j], codes[j])
          {
            if j > 0 {
              assert replies[j] == replies[1..][j - 1] && codes[j] == rest[j - 1];
            }
          }
          if n + 1 < |replies| {
            assert replies[n + 1] == replies[1..][n] && codes[n + 1] == rest[n];
          }
        }
      }
    }
  }
}
