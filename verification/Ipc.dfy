/** Newline-delimited frames between clients and the daemon, and the loop that answers a connection. */
module Ipc {
  import opened Wrappers

  type byte = n: nat | n < 256

  const NEWLINE: byte := 10
  const MAX_MESSAGE_BYTES: nat := 1024 * 1024
  const PROTOCOL_VERSION: nat := 1

  // ----- messages; `Json` stands for a JSON value

  type Json = string
  type Uuid = nat
  const NIL: Uuid := 0

  datatype Operation =
    | HostList | HostShow | HostTest | ForwardList | ForwardAdd | ForwardEditActive | ForwardImport
    | ForwardRemove | ForwardStart | ForwardStop | SettingsGet | SettingsUpdate | Status | Subscribe

  datatype Request = Request(version: nat, id: Uuid, operation: Operation, payload: Json)

  datatype Code =
    | InvalidRequest | MessageTooLarge | UnsupportedVersion | NotFound | Conflict | Unavailable | Internal

  datatype Response =
    | Success(version: nat, id: Uuid, result: Json)
    | Failure(version: nat, id: Uuid, code: Code)

  /** Compact JSON (section 7 of RFC 8259): what is encoded decodes to itself and holds no raw newline. */
  datatype Codec<!T(!new)> = Codec(encode: T -> seq<byte>, decode: seq<byte> -> Option<T>)

  ghost predicate Lawful<T(!new)>(c: Codec<T>) {
    forall x :: c.decode(c.encode(x)) == Some(x) && NEWLINE !in c.encode(x)
  }

  // ----- frames

  // What the peer sends until it closes the stream, or until reading breaks off with an error.
  datatype Stream = Stream(bytes: seq<byte>, broken: bool)

  datatype TransportError = Io | TooLarge | Disconnected | InvalidMessage

  function NextNewline(bytes: seq<byte>): (i: nat)
    ensures i <= |bytes|
    ensures i < |bytes| ==> bytes[i] == NEWLINE
    ensures NEWLINE !in bytes[..i]
  {
    if bytes == [] || bytes[0] == NEWLINE then 0
    else
      var j := NextNewline(bytes[1..]);
      assert bytes[..j + 1] == [bytes[0]] + bytes[1..][..j];
      j + 1
  }

  lemma NextNewlineAt(bytes: seq<byte>, i: nat)
    requires i < |bytes| && bytes[i] == NEWLINE && NEWLINE !in bytes[..i]
    ensures NextNewline(bytes) == i
  {
    var j := NextNewline(bytes);
    assert forall k :: 0 <= k < i ==> bytes[k] == bytes[..i][k];
    assert forall k :: 0 <= k < j ==> bytes[k] == bytes[..j][k];
  }

  // The bytes of one frame without its newline; at most two bytes more than a message are looked at.
  function ReadBytes(s: Stream): (r: Result<seq<byte>, TransportError>)
    ensures r.Ok? ==> |r.value| < |s.bytes|
  {
    var i := NextNewline(s.bytes);
    if i < |s.bytes| && i < MAX_MESSAGE_BYTES + 2 then
      if i > MAX_MESSAGE_BYTES then Err(TooLarge) else Ok(s.bytes[..i])
    else if |s.bytes| >= MAX_MESSAGE_BYTES + 2 then Err(TooLarge)
    else if s.broken then Err(Io)
    else if s.bytes == [] then Err(Disconnected)
    else Err(TooLarge)
  }

  function ReadFrame<T>(decode: seq<byte> -> Option<T>, s: Stream): Result<(T, Stream), TransportError> {
    var bytes :- ReadBytes(s);
    match decode(bytes)
    case None => Err(InvalidMessage)
    case Some(x) => Ok((x, s.(bytes := s.bytes[|bytes| + 1..])))
  }

  function WriteFrame<T>(encode: T -> seq<byte>, x: T): Result<seq<byte>, TransportError> {
    if |encode(x)| > MAX_MESSAGE_BYTES then Err(TooLarge) else Ok(encode(x) + [NEWLINE])
  }

  /** A written frame is read back, and nothing after it is consumed. */
  lemma FrameRoundTrip<T(!new)>(c: Codec<T>, x: T, rest: seq<byte>, broken: bool)
    requires Lawful(c) && WriteFrame(c.encode, x).Ok?
    ensures ReadFrame(c.decode, Stream(WriteFrame(c.encode, x).value + rest, broken)) == Ok((x, Stream(rest, broken)))
  {
    var bytes := c.encode(x);
    var all := WriteFrame(c.encode, x).value + rest;
    assert all[..|bytes|] == bytes && all[|bytes| + 1..] == rest;
    NextNewlineAt(all, |bytes|);
  }

  function WriteAll<T>(encode: T -> seq<byte>, xs: seq<T>): seq<byte>
    requires forall x :: x in xs ==> WriteFrame(encode, x).Ok?
  {
    if xs == [] then [] else WriteFrame(encode, xs[0]).value + WriteAll(encode, xs[1..])
  }

  // The results of `n` reads one after another.
  function ReadMany<T>(decode: seq<byte> -> Option<T>, s: Stream, n: nat): Result<(seq<T>, Stream), TransportError>
    decreases n
  {
    if n == 0 then Ok(([], s))
    else
      var (first, rest) :- ReadFrame(decode, s);
      var (others, end) :- ReadMany(decode, rest, n - 1);
      Ok(([first] + others, end))
  }

  /** Reading a concatenation of written frames gives the same messages and leaves what follows untouched. */
  lemma {:induction false} FramesRoundTrip<T(!new)>(c: Codec<T>, xs: seq<T>, rest: seq<byte>, broken: bool)
    requires Lawful(c) && forall x :: x in xs ==> WriteFrame(c.encode, x).Ok?
    ensures ReadMany(c.decode, Stream(WriteAll(c.encode, xs) + rest, broken), |xs|) == Ok((xs, Stream(rest, broken)))
    decreases xs
  {
    if xs == [] {
      assert WriteAll(c.encode, xs) + rest == rest;
    } else {
      var first, others := WriteFrame(c.encode, xs[0]).value, WriteAll(c.encode, xs[1..]);
      assert WriteAll(c.encode, xs) + rest == first + (others + rest);
      FrameRoundTrip(c, xs[0], others + rest, broken);
      FramesRoundTrip(c, xs[1..], rest, broken);
      hide ReadFrame, Lawful;
      assert [xs[0]] + xs[1..] == xs;
    }
  }

  // ----- the answer to one request

  // The daemon's own work on the k-th request of the connection.
  type Handler = (nat, Request) -> Result<Json, Code>

  function Answer(handler: Handler, k: nat, request: Request): (response: Response)
    ensures response.id == request.id && response.version == PROTOCOL_VERSION
    ensures response.Success? <==> request.version == 1 && handler(k, request).Ok?
    ensures response.Success? ==> response.result == handler(k, request).value
    ensures response.Failure? && request.version == 1 ==> response.code == handler(k, request).error
    ensures request.version != 1 ==> response.Failure? && response.code == UnsupportedVersion
  {
    if request.version != PROTOCOL_VERSION then Failure(PROTOCOL_VERSION, request.id, UnsupportedVersion)
    else
      match handler(k, request)
      case Ok(value) => Success(PROTOCOL_VERSION, request.id, value)
      case Err(code) => Failure(PROTOCOL_VERSION, request.id, code)
  }

  // The reply to a frame that is no request, if it gets one.
  function Complaint(e: TransportError): seq<Response> {
    match e
    case TooLarge => [Failure(PROTOCOL_VERSION, NIL, MessageTooLarge)]
    case InvalidMessage => [Failure(PROTOCOL_VERSION, NIL, InvalidRequest)]
    case _ => []
  }

  // How the connection ends: closed, broken, or handed over to the event stream.
  datatype Ending = Closed | Failed | Streaming

  // What goes out on a stream when writing always succeeds, from the k-th request on.
  function Served(decode: seq<byte> -> Option<Request>, handler: Handler, s: Stream, k: nat): (seq<Response>, Ending)
    decreases |s.bytes|
  {
    match ReadFrame(decode, s)
    case Err(e) => (Complaint(e), if e == Io then Failed else Closed)
    case Ok((request, rest)) =>
      var answer := Answer(handler, k, request);
      if request.operation == Subscribe then ([answer], Streaming)
      else
        var (more, ending) := Served(decode, handler, rest, k + 1);
        ([answer] + more, ending)
  }

  lemma ServedUnfolds(decode: seq<byte> -> Option<Request>, handler: Handler, s: Stream, k: nat)
    ensures ReadFrame(decode, s).Err? ==>
      var e := ReadFrame(decode, s).error;
      Served(decode, handler, s, k) == (Complaint(e), if e == Io then Failed else Closed)
    ensures ReadFrame(decode, s).Ok? ==>
      var (request, rest) := ReadFrame(decode, s).value;
      var answer := Answer(handler, k, request);
      Served(decode, handler, s, k) ==
        if request.operation == Subscribe then ([answer], Streaming)
        else ([answer] + Served(decode, handler, rest, k + 1).0, Served(decode, handler, rest, k + 1).1)
  {
    hide ReadFrame, Answer, Complaint;
  }

  predicate Fits(encode: Response -> seq<byte>, response: Response) { |encode(response)| <= MAX_MESSAGE_BYTES }

  /**
   * The loop of one connection. Writing fails if a response is too large or the peer is gone after
   * `capacity` frames; what was sent is then a beginning of what would have been sent.
   */
  method ServeConnection(
    encode: Response -> seq<byte>, decode: seq<byte> -> Option<Request>, handler: Handler, input: Stream, capacity: nat)
    returns (sent: seq<Response>, ending: Ending)
    ensures sent <= Served(decode, handler, input, 0).0
    ensures forall r :: r in sent ==> Fits(encode, r)
    ensures |sent| < |Served(decode, handler, input, 0).0| ==>
              |sent| >= capacity || !Fits(encode, Served(decode, handler, input, 0).0[|sent|])
    ensures (forall r :: r in Served(decode, handler, input, 0).0 ==> Fits(encode, r))
            && capacity >= |Served(decode, handler, input, 0).0| ==>
              (sent, ending) == Served(decode, handler, input, 0)
  {
    hide Fits, Answer, ReadFrame, Served;
    sent := [];
    var s := input;
    ghost var all := Served(decode, handler, input, 0);
    assert [] + all.0 == all.0;
    while true
      invariant all == (sent + Served(decode, handler, s, |sent|).0, Served(decode, handler, s, |sent|).1)
      invariant |sent| <= capacity && forall r :: r in sent ==> Fits(encode, r)
      decreases |s.bytes|
    {
      var read := ReadFrame(decode, s);
      ServedUnfolds(decode, handler, s, |sent|);
      if read.Err? {
        ending := if read.error == Io then Failed else Closed;
        var complaint := Complaint(read.error);
        assert all == (sent + complaint, ending);
        assert complaint != [] ==> complaint[0] in all.0;
        assert sent + [] == sent;
        if complaint != [] && Fits(encode, complaint[0]) && |sent| < capacity {
          sent := sent + complaint;
        }
        return;
      }
      var request := read.value.0;
      var response := Answer(handler, |sent|, request);
      assert all.0[|sent|] == response;
      ShorterAfter(decode, s);
      if !Fits(encode, response) || |sent| >= capacity {
        ending := Failed;
        return;
      }
      ghost var more := Served(decode, handler, read.value.1, |sent| + 1).0;
      if request.operation == Subscribe {
        sent := sent + [response];
        ending := Streaming;
        return;
      }
      assert sent + ([response] + more) == (sent + [response]) + more;
      sent := sent + [response];
      s := read.value.1;
    }
  }

  lemma ShorterAfter(decode: seq<byte> -> Option<Request>, s: Stream)
    requires ReadFrame(decode, s).Ok?
    ensures |ReadFrame(decode, s).value.1.bytes| < |s.bytes|
  {
  }

  // ----- the same, told from the lines of the stream

  // The complete lines of the stream, and what follows the last newline.
  function Lines(bytes: seq<byte>): seq<seq<byte>>
    decreases |bytes|
  {
    var i := NextNewline(bytes);
    if i == |bytes| then [] else [bytes[..i]] + Lines(bytes[i + 1..])
  }

  function Tail(bytes: seq<byte>): seq<byte>
    decreases |bytes|
  {
    var i := NextNewline(bytes);
    if i == |bytes| then bytes else Tail(bytes[i + 1..])
  }

  predicate WellFormed(decode: seq<byte> -> Option<Request>, line: seq<byte>) {
    |line| <= MAX_MESSAGE_BYTES && decode(line).Some?
  }

  predicate Last(decode: seq<byte> -> Option<Request>, line: seq<byte>) {
    decode(line).Some? && decode(line).value.operation == Subscribe
  }

  // How many leading lines are requests to answer: up to a bad line, or up to and including a Subscribe.
  function Requests(decode: seq<byte> -> Option<Request>, lines: seq<seq<byte>>): (n: nat)
    ensures n <= |lines|
    ensures forall i :: 0 <= i < n ==> WellFormed(decode, lines[i])
    ensures forall i :: 0 <= i < n - 1 ==> !Last(decode, lines[i])
    ensures n < |lines| ==> !WellFormed(decode, lines[n]) || (n > 0 && Last(decode, lines[n - 1]))
  {
    if lines == [] || !WellFormed(decode, lines[0]) then 0
    else if Last(decode, lines[0]) then 1
    else
      var m := Requests(decode, lines[1..]);
      assert forall i :: 0 < i <= m ==> lines[i] == lines[1..][i - 1];
      m + 1
  }

  lemma LinesUnfold(bytes: seq<byte>)
    ensures var i := NextNewline(bytes);
      && Lines(bytes) == (if i == |bytes| then [] else [bytes[..i]] + Lines(bytes[i + 1..]))
      && Tail(bytes) == (if i == |bytes| then bytes else Tail(bytes[i + 1..]))
  {
    hide NextNewline;
    if NextNewline(bytes) < |bytes| {
      FirstLine(bytes);
      SameTail(bytes);
    }
  }

  lemma FirstLine(bytes: seq<byte>)
    requires NextNewline(bytes) < |bytes|
    ensures Lines(bytes) == [bytes[..NextNewline(bytes)]] + Lines(bytes[NextNewline(bytes) + 1..])
  {
    hide NextNewline, Tail;
  }

  lemma SameTail(bytes: seq<byte>)
    requires NextNewline(bytes) < |bytes|
    ensures Tail(bytes) == Tail(bytes[NextNewline(bytes) + 1..])
  {
    hide NextNewline, Lines;
  }

  lemma LinesStep(decode: seq<byte> -> Option<Request>, s: Stream)
    ensures ReadFrame(decode, s).Ok? <==> Lines(s.bytes) != [] && WellFormed(decode, Lines(s.bytes)[0])
    ensures ReadFrame(decode, s).Ok? ==>
      var rest := ReadFrame(decode, s).value.1;
      && decode(Lines(s.bytes)[0]) == Some(ReadFrame(decode, s).value.0)
      && Lines(s.bytes)[1..] == Lines(rest.bytes) && Tail(s.bytes) == Tail(rest.bytes) && rest.broken == s.broken
  {
    LinesUnfold(s.bytes);
    hide Lines, Tail, NextNewline;
  }

  // The answers to these lines, each with the id of its own request.
  function Answers(decode: seq<byte> -> Option<Request>, handler: Handler, lines: seq<seq<byte>>,
                   k: nat): (r: seq<Response>)
    requires forall line :: line in lines ==> decode(line).Some?
    ensures |r| == |lines|
    ensures forall i :: 0 <= i < |r| ==> r[i].id == decode(lines[i]).value.id
  {
    seq(|lines|, i requires 0 <= i < |lines| => Answer(handler, k + i, decode(lines[i]).value))
  }

  // The one reply, with the nil id, to a bad line or to an unfinished last line; none after a Subscribe.
  function FinalReply(
    decode: seq<byte> -> Option<Request>, lines: seq<seq<byte>>, tail: seq<byte>, broken: bool): seq<Response>
  {
    var n := Requests(decode, lines);
    if n > 0 && Last(decode, lines[n - 1]) then []
    else if n < |lines| then
      [Failure(PROTOCOL_VERSION, NIL, if |lines[n]| > MAX_MESSAGE_BYTES then MessageTooLarge else InvalidRequest)]
    else if tail == [] || (broken && |tail| < MAX_MESSAGE_BYTES + 2) then []
    else [Failure(PROTOCOL_VERSION, NIL, MessageTooLarge)]
  }

  lemma NothingServed(decode: seq<byte> -> Option<Request>, handler: Handler, s: Stream, k: nat)
    requires ReadFrame(decode, s).Err?
    ensures Requests(decode, Lines(s.bytes)) == 0
    ensures Served(decode, handler, s, k).0 == FinalReply(decode, Lines(s.bytes), Tail(s.bytes), s.broken)
  {
    LinesStep(decode, s);
    LinesUnfold(s.bytes);
    hide Lines, Tail, NextNewline;
  }

  lemma OneServed(decode: seq<byte> -> Option<Request>, lines: seq<seq<byte>>, tail: seq<byte>, broken: bool)
    requires lines != [] && WellFormed(decode, lines[0]) && !Last(decode, lines[0])
    ensures Requests(decode, lines) == Requests(decode, lines[1..]) + 1
    ensures FinalReply(decode, lines, tail, broken) == FinalReply(decode, lines[1..], tail, broken)
  {
    var m := Requests(decode, lines[1..]);
    assert m > 0 ==> lines[1..][m - 1] == lines[m];
    assert m < |lines[1..]| ==> lines[1..][m] == lines[m + 1];
  }

  /**
   * On any byte stream, the leading well-formed lines, up to the first bad one or up to and including the
   * first Subscribe, are answered exactly once each, in order and with their own ids; a bad line gets one
   * reply with the nil id, and nothing else is sent.
   */
  lemma {:induction false} AnswersEachRequestOnce(
    decode: seq<byte> -> Option<Request>, handler: Handler, s: Stream, k: nat)
    ensures var lines := Lines(s.bytes);
      var n := Requests(decode, lines);
      Served(decode, handler, s, k).0 ==
        Answers(decode, handler, lines[..n], k) + FinalReply(decode, lines, Tail(s.bytes), s.broken)
    decreases |s.bytes|
  {
    hide Answer, ReadFrame, Lines, Tail, FinalReply;
    var lines := Lines(s.bytes);
    if ReadFrame(decode, s).Err? {
      NothingServed(decode, handler, s, k);
      assert Answers(decode, handler, lines[..0], k) == [];
    } else {
      LinesStep(decode, s);
      ShorterAfter(decode, s);
      var (request, rest) := ReadFrame(decode, s).value;
      var answer := Answer(handler, k, request);
      if request.operation == Subscribe {
        assert Requests(decode, lines) == 1 && Last(decode, lines[0]);
        assert Answers(decode, handler, lines[..1], k) == [answer];
        NoReplyAfterSubscribe(decode, lines, Tail(s.bytes), s.broken);
      } else {
        OneServed(decode, lines, Tail(s.bytes), s.broken);
        AnswersEachRequestOnce(decode, handler, rest, k + 1);
        var m := Requests(decode, lines[1..]);
        hide Requests;
        assert lines[..m + 1][1..] == lines[1..][..m];
        AnswersUnfold(decode, handler, lines[..m + 1], k);
      }
    }
  }

  lemma NoReplyAfterSubscribe(decode: seq<byte> -> Option<Request>, lines: seq<seq<byte>>, tail: seq<byte>,
                              broken: bool)
    requires Requests(decode, lines) == 1 && Last(decode, lines[0])
    ensures FinalReply(decode, lines, tail, broken) == []
  {
  }

  lemma AnswersUnfold(decode: seq<byte> -> Option<Request>, handler: Handler, lines: seq<seq<byte>>, k: nat)
    requires lines != [] && forall line :: line in lines ==> decode(line).Some?
    ensures Answers(decode, handler, lines, k) ==
            [Answer(handler, k, decode(lines[0]).value)] + Answers(decode, handler, lines[1..], k + 1)
  {
    hide Answer;
    var all, rest := Answers(decode, handler, lines, k), Answers(decode, handler, lines[1..], k + 1);
    forall i | 0 <= i < |rest| ensures rest[i] == all[i + 1] {
      assert lines[1..][i] == lines[i + 1];
    }
  }
}
