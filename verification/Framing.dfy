/** Newline framing between client and daemon (crates/usage-daemon/src/server.rs,
    crates/usage-cli/src/client.rs): reading a frame from a buffered stream, the server's session
    loop, the size-bounded response encoder, and the client's pipelined batch. */
module Framing {
  import opened Sequences

  const NEWLINE: Byte := 10
  const CARRIAGE_RETURN: Byte := 13
  const MAX_REQUEST_BYTES := 64 * 1024
  const MAX_RESPONSE_BYTES := 8 * 1024 * 1024

  datatype Frame = Line(body: Bytes) | TooLarge | EndOfStream

  // ----- One frame of a stream -----

  /** Position of the first newline, or the length when there is none. */
  function NewlineAt(s: Bytes): (n: nat)
    ensures n <= |s| && (forall i :: 0 <= i < n ==> s[i] != NEWLINE) && (n < |s| ==> s[n] == NEWLINE)
  {
    if s == [] || s[0] == NEWLINE then 0
    else 1 + NewlineAt(s[1..])
  }

  function TrimCarriageReturn(line: Bytes): Bytes {
    if line != [] && line[|line| - 1] == CARRIAGE_RETURN then line[..|line| - 1] else line
  }

  /** The first frame of the stream, seen as a whole. */
  function FirstFrame(s: Bytes, limit: nat): Frame {
    var n := NewlineAt(s);
    if s == [] then EndOfStream
    else if n == |s| then if n > limit then TooLarge else Line(s)
    else if n + 1 > limit then TooLarge
    else Line(TrimCarriageReturn(s[..n]))
  }

  /** What follows the first frame. */
  function AfterFrame(s: Bytes): (rest: Bytes)
    ensures s != [] ==> |rest| < |s|
  {
    var n := NewlineAt(s);
    if n == |s| then [] else s[n + 1..]
  }

  lemma LineMeansMore(s: Bytes, limit: nat)
    ensures FirstFrame(s, limit).Line? ==> s != []
  {
  }

  lemma NewlineAtIs(s: Bytes, n: nat)
    requires n <= |s| && (forall i :: 0 <= i < n ==> s[i] != NEWLINE) && (n < |s| ==> s[n] == NEWLINE)
    ensures NewlineAt(s) == n
  {
  }

  // ----- Reading from buffers -----

  function Flatten(pieces: seq<Bytes>): Bytes {
    if pieces == [] then [] else pieces[0] + Flatten(pieces[1..])
  }

  /** A stream that arrives in buffers; no buffer is empty until the stream ends. */
  class BufReader {
    var buffers: seq<Bytes>

    ghost predicate Valid()
      reads this
    {
      forall b :: b in buffers ==> b != []
    }

    ghost function Contents(): Bytes
      reads this
    {
      Flatten(buffers)
    }

    constructor (pieces: seq<Bytes>)
      requires forall b :: b in pieces ==> b != []
      ensures Valid() && Contents() == Flatten(pieces)
    {
      buffers := pieces;
    }

    /** The buffered bytes; empty at the end of the stream. */
    method FillBuf() returns (available: Bytes)
      requires Valid()
      ensures available == [] <==> Contents() == []
      ensures available <= Contents() && (available != [] ==> buffers != [] && available == buffers[0])
    {
      available := if buffers == [] then [] else buffers[0];
      assert buffers != [] ==> buffers[0] in buffers;
    }

    method Consume(count: nat)
      requires Valid() && buffers != [] && 0 < count <= |buffers[0]|
      modifies this
      ensures Valid() && count <= |old(Contents())| && Contents() == old(Contents())[count..]
    {
      var rest, later := buffers[0][count..], buffers[1..];
      assert Contents()[count..] == rest + Flatten(later);
      assert forall b :: b in later ==> b in buffers;
      if rest == [] {
        buffers := later;
      } else {
        buffers := [rest] + later;
        assert buffers[1..] == later;
      }
    }

    /** `read_request_frame`, and `read_bounded_response` with the other limit. */
    method ReadFrame(limit: nat) returns (frame: Frame)
      requires Valid()
      modifies this
      ensures Valid() && frame == FirstFrame(old(Contents()), limit)
      ensures !frame.TooLarge? ==> Contents() == AfterFrame(old(Contents()))
    {
      hide FirstFrame;
      hide AfterFrame;
      hide Flatten;
      hide TrimCarriageReturn;
      ghost var stream := Contents();
      var line: Bytes := [];
      while true
        invariant Valid() && line + Contents() == stream
        invariant NEWLINE !in line && |line| <= limit
        decreases |Contents()|
      {
        var available := FillBuf();
        if available == [] {
          assert line == stream;
          WholeStreamIsOneFrame(stream, limit);
          return if line == [] then EndOfStream else Line(line);
        }
        var newline := NewlineAt(available);
        var take := if newline == |available| then |available| else newline + 1;
        FrameSoFar(stream, line, Contents(), available, limit);
        Resplit(line, Contents(), available, take);
        Consume(take);
        if |line| + take > limit {
          return TooLarge;
        }
        ghost var line0 := line;
        line := line + available[..take];
        if newline < |available| {
          assert line[..|line| - 1] == line0 + available[..newline];
          return Line(TrimCarriageReturn(line[..|line| - 1]));
        }
      }
    }
  }

  lemma Resplit(line: Bytes, coming: Bytes, available: Bytes, take: nat)
    requires take <= |available| && available <= coming
    ensures line + coming == (line + available[..take]) + coming[take..]
    ensures |coming[take..]| == |coming| - take
  {
    assert coming == available[..take] + coming[take..];
  }

  lemma WholeStreamIsOneFrame(s: Bytes, limit: nat)
    requires NEWLINE !in s && |s| <= limit
    ensures FirstFrame(s, limit) == (if s == [] then EndOfStream else Line(s)) && AfterFrame(s) == []
  {
    NewlineAtIs(s, |s|);
  }

  lemma FirstNewline(line: Bytes, coming: Bytes, available: Bytes)
    requires NEWLINE !in line && available <= coming
    ensures var n, s := NewlineAt(available), line + coming;
      if n < |available| then NewlineAt(s) == |line| + n < |s| else NewlineAt(s) >= |line| + n
  {
    var n, s := NewlineAt(available), line + coming;
    assert forall i :: 0 <= i < |line| ==> s[i] == line[i] && line[i] in line;
    assert forall i :: 0 <= i < |available| ==> s[|line| + i] == available[i];
    assert forall i :: |line| <= i < |line| + n ==> s[i] == available[i - |line|];
    if n < |available| {
      NewlineAtIs(s, |line| + n);
    }
  }

  /** What the next buffer says about the frame that `line` starts. */
  lemma FrameSoFar(s: Bytes, line: Bytes, coming: Bytes, available: Bytes, limit: nat)
    requires NEWLINE !in line && available != [] && available <= coming && s == line + coming
    ensures var n := NewlineAt(available);
      if n < |available| then
        && FirstFrame(s, limit)
           == (if |line| + n + 1 > limit then TooLarge else Line(TrimCarriageReturn(line + available[..n])))
        && AfterFrame(s) == coming[n + 1..]
      else
        && NEWLINE !in line + available
        && (|line + available| > limit ==> FirstFrame(s, limit) == TooLarge)
  {
    FirstNewline(line, coming, available);
    if NewlineAt(available) < |available| {
      NewlineEndsFrame(s, line, coming, available, limit);
    } else {
      assert forall i :: 0 <= i < |available| ==> available[i] != NEWLINE;
    }
  }

  lemma NewlineEndsFrame(s: Bytes, line: Bytes, coming: Bytes, available: Bytes, limit: nat)
    requires available <= coming && s == line + coming
    requires NewlineAt(available) < |available| && NewlineAt(s) == |line| + NewlineAt(available) < |s|
    ensures var n := NewlineAt(available);
      && FirstFrame(s, limit)
         == (if |line| + n + 1 > limit then TooLarge else Line(TrimCarriageReturn(line + available[..n])))
      && AfterFrame(s) == coming[n + 1..]
  {
    var n := NewlineAt(available);
    hide NewlineAt;
    hide TrimCarriageReturn;
    assert s[..|line| + n] == line + available[..n];
    assert s[|line| + n + 1..] == coming[n + 1..];
  }

  // ----- Bounded encoding -----

  /** `BoundedResponseWriter`: refuses the write that would exceed the bound. */
  class BoundedWriter {
    var buffer: Bytes
    const maxBytes: nat
    var limitExceeded: bool

    constructor (maxBytes: nat)
      ensures buffer == [] && this.maxBytes == maxBytes && !limitExceeded
    {
      this.buffer, this.maxBytes, this.limitExceeded := [], maxBytes, false;
    }

    method Write(bytes: Bytes) returns (ok: bool)
      requires |buffer| <= maxBytes
      modifies this
      ensures ok == (|old(buffer)| + |bytes| <= maxBytes)
      ensures buffer == if ok then old(buffer) + bytes else old(buffer)
      ensures limitExceeded == (old(limitExceeded) || !ok)
    {
      if |bytes| > maxBytes - |buffer| {
        limitExceeded := true;
        return false;
      }
      buffer := buffer + bytes;
      ok := true;
    }
  }

  /** One encoded response, and whether the connection closes behind it. */
  datatype Encoded = Encoded(bytes: Bytes, close: bool)

  function Encode(body: Bytes, overflow: Bytes, max: nat): Encoded {
    if |body| + 1 <= max || body == [] then Encoded(body + [NEWLINE], false)
    else Encoded(overflow + [NEWLINE], true)
  }

  /** `encode_response`: the serializer writes the body in pieces; `overflow` is the error envelope. */
  method EncodeResponse(pieces: seq<Bytes>, overflow: Bytes, max: nat) returns (response: Encoded)
    ensures response == Encode(Flatten(pieces), overflow, max)
  {
    var writer := new BoundedWriter(if max == 0 then 0 else max - 1);
    var i := 0;
    while i < |pieces| && !writer.limitExceeded
      invariant 0 <= i <= |pieces| && |writer.buffer| <= writer.maxBytes
      invariant !writer.limitExceeded ==> writer.buffer == Flatten(pieces[..i])
      invariant writer.limitExceeded ==> |Flatten(pieces)| > writer.maxBytes
    {
      FlattenSplits(pieces[..i], pieces[i..]);
      FlattenSplits(pieces[..i + 1], pieces[i + 1..]);
      FlattenSplits(pieces[..i], [pieces[i]]);
      assert pieces[..i] + pieces[i..] == pieces && pieces[..i + 1] + pieces[i + 1..] == pieces;
      assert pieces[..i + 1] == pieces[..i] + [pieces[i]];
      var ok := writer.Write(pieces[i]);
      i := i + 1;
    }
    assert pieces[..|pieces|] == pieces;
    if !writer.limitExceeded {
      response := Encoded(writer.buffer + [NEWLINE], false);
    } else {
      response := Encoded(overflow + [NEWLINE], true);
    }
  }

  lemma {:induction false} FlattenSplits(a: seq<Bytes>, b: seq<Bytes>)
    ensures Flatten(a + b) == Flatten(a) + Flatten(b)
  {
    if a == [] {
      assert a + b == b;
    } else {
      assert (a + b)[0] == a[0] && (a + b)[1..] == a[1..] + b;
      FlattenSplits(a[1..], b);
      Associative(a[0], Flatten(a[1..]), Flatten(b));
    }
  }

  // ----- The server's session -----

  lemma FlattenOne(body: Bytes)
    ensures Flatten([body]) == body
  {
    var only := [body];
    assert only[1..] == [] && body + [] == body;
  }

  /** How the daemon answers the `n`th request of a connection, as the pieces of the serialized envelope:
      its state may have changed in between, so equal lines may get different answers. The other two are
      the envelopes for a request and for a response that is too large. */
  datatype Service = Service(answer: (nat, Bytes) -> seq<Bytes>, requestTooLarge: Bytes, responseTooLarge: Bytes)

  predicate Blank(line: Bytes) {
    forall b :: b in line ==> b == 32 || b == 9 || b == 10 || b == 12 || b == 13
  }

  function Reply(n: nat, line: Bytes, service: Service): Encoded {
    Encode(Flatten(service.answer(n, line)), service.responseTooLarge, MAX_RESPONSE_BYTES)
  }

  /** Everything the server writes for an input stream, once it has answered `n` requests. */
  function Session(s: Bytes, n: nat, service: Service): Bytes
    decreases |s|
  {
    match FirstFrame(s, MAX_REQUEST_BYTES)
    case EndOfStream => []
    case TooLarge => Encode(service.requestTooLarge, service.responseTooLarge, MAX_RESPONSE_BYTES).bytes
    case Line(line) =>
      if Blank(line) then Session(AfterFrame(s), n, service)
      else
        var reply := Reply(n, line, service);
        if reply.close then reply.bytes else reply.bytes + Session(AfterFrame(s), n + 1, service)
  }

  /** `handle_client`. */
  method HandleClient(reader: BufReader, service: Service) returns (output: Bytes)
    requires reader.Valid()
    modifies reader
    ensures output == Session(old(reader.Contents()), 0, service)
  {
    hide FirstFrame;
    hide AfterFrame;
    hide Encode;
    hide Blank;
    hide Flatten;
    output := [];
    var n := 0;
    ghost var all := Session(reader.Contents(), 0, service);
    while true
      invariant reader.Valid() && 0 <= n && all == output + Session(reader.Contents(), n, service)
      decreases |reader.Contents()|
    {
      LineMeansMore(reader.Contents(), MAX_REQUEST_BYTES);
      var frame := reader.ReadFrame(MAX_REQUEST_BYTES);
      if frame.EndOfStream? {
        return;
      }
      if frame.TooLarge? {
        var refusal := EncodeResponse([service.requestTooLarge], service.responseTooLarge, MAX_RESPONSE_BYTES);
        FlattenOne(service.requestTooLarge);
        return output + refusal.bytes;
      }
      if !Blank(frame.body) {
        var reply := EncodeResponse(service.answer(n, frame.body), service.responseTooLarge, MAX_RESPONSE_BYTES);
        n := n + 1;
        Associative(output, reply.bytes, Session(reader.Contents(), n, service));
        output := output + reply.bytes;
        if reply.close {
          return;
        }
      }
    }
  }

  // ----- The client's batch -----

  datatype BatchResult = Responses(bodies: seq<Bytes>) | ResponseTooLarge | Closed(after: nat)

  /** The first `n` responses on the stream, of which `sofar` have been read. */
  function Batch(s: Bytes, n: nat, sofar: seq<Bytes>): BatchResult
    requires |sofar| <= n
    decreases n - |sofar|
  {
    if |sofar| == n then Responses(sofar)
    else
      match FirstFrame(s, MAX_RESPONSE_BYTES)
      case EndOfStream => Closed(|sofar|)
      case TooLarge => ResponseTooLarge
      case Line(body) => Batch(AfterFrame(s), n, sofar + [body])
  }

  /** `encode_requests`. */
  method EncodeRequests(requests: seq<Bytes>) returns (payload: Bytes)
    ensures payload == Lines(requests)
  {
    payload := [];
    for i := 0 to |requests|
      invariant payload == Lines(requests[..i])
    {
      LinesSplit(requests[..i], [requests[i]]);
      assert requests[..i + 1] == requests[..i] + [requests[i]];
      payload := payload + requests[i] + [NEWLINE];
    }
    assert requests[..|requests|] == requests;
  }

  /** The response loop of `request_batch_inner`. */
  method ReadResponses(reader: BufReader, n: nat) returns (result: BatchResult)
    requires reader.Valid()
    modifies reader
    ensures result == Batch(old(reader.Contents()), n, [])
  {
    ghost var all := Batch(reader.Contents(), n, []);
    var responses: seq<Bytes> := [];
    for index := 0 to n
      invariant reader.Valid() && |responses| == index
      invariant all == Batch(reader.Contents(), n, responses)
    {
      var frame := reader.ReadFrame(MAX_RESPONSE_BYTES);
      match frame {
        case EndOfStream => return Closed(index);
        case TooLarge => return ResponseTooLarge;
        case Line(body) => responses := responses + [body];
      }
    }
    result := Responses(responses);
  }

  // ----- Round trips -----

  /** The bodies, one per line. */
  function Lines(bodies: seq<Bytes>): Bytes {
    if bodies == [] then [] else bodies[0] + [NEWLINE] + Lines(bodies[1..])
  }

  lemma {:induction false} LinesSplit(a: seq<Bytes>, b: seq<Bytes>)
    ensures Lines(a + b) == Lines(a) + Lines(b)
  {
    if a == [] {
      assert a + b == b;
    } else {
      assert (a + b)[0] == a[0] && (a + b)[1..] == a[1..] + b;
      LinesSplit(a[1..], b);
      Associative(a[0] + [NEWLINE], Lines(a[1..]), Lines(b));
    }
  }

  /** A body that survives framing under the limit: serialized JSON has no raw newline, and does not
      end in a carriage return. */
  predicate Framable(body: Bytes, limit: nat) {
    10 !in body && (body != [] ==> body[|body| - 1] != 13) && |body| + 1 <= limit
  }

  lemma FrameRoundTrip(body: Bytes, rest: Bytes, limit: nat)
    requires Framable(body, limit)
    ensures var s := body + [NEWLINE] + rest;
            FirstFrame(s, limit) == Line(body) && AfterFrame(s) == rest
  {
    var s := body + [NEWLINE] + rest;
    assert forall i :: 0 <= i < |body| ==> s[i] == body[i] && body[i] in body;
    NewlineAtIs(s, |body|);
    assert s[..|body|] == body && s[|body| + 1..] == rest;
  }

  /** Every response the server encodes is accepted whole by the client, provided the overflow
      envelope itself fits. */
  lemma EncodedResponseIsAccepted(body: Bytes, overflow: Bytes, rest: Bytes)
    requires Framable(body, |body| + 1) && Framable(overflow, 8_388_608)
    ensures var response := Encode(body, overflow, MAX_RESPONSE_BYTES);
      && FirstFrame(response.bytes + rest, MAX_RESPONSE_BYTES) == Line(if response.close then overflow else body)
      && AfterFrame(response.bytes + rest) == rest
      && (response.close <==> |body| + 1 > 8_388_608)
  {
    FrameRoundTrip(if Encode(body, overflow, MAX_RESPONSE_BYTES).close then overflow else body, rest, MAX_RESPONSE_BYTES);
  }

  lemma OneResponse(body: Bytes, rest: Bytes, n: nat, sofar: seq<Bytes>)
    requires |sofar| < n && Framable(body, MAX_RESPONSE_BYTES)
    ensures Batch(body + [NEWLINE] + rest, n, sofar) == Batch(rest, n, sofar + [body])
  {
    hide Framable;
    FrameRoundTrip(body, rest, MAX_RESPONSE_BYTES);
    hide FirstFrame;
    hide AfterFrame;
  }

  lemma {:induction false} BatchOfLines(bodies: seq<Bytes>, rest: Bytes, n: nat, sofar: seq<Bytes>)
    requires |sofar| + |bodies| <= n && forall b :: b in bodies ==> Framable(b, MAX_RESPONSE_BYTES)
    ensures Batch(Lines(bodies) + rest, n, sofar) == Batch(rest, n, sofar + bodies)
  {
    hide Batch;
    hide Framable;
    if bodies == [] {
      assert Lines(bodies) + rest == rest && sofar + bodies == sofar;
    } else {
      var later := bodies[1..];
      Associative(bodies[0] + [NEWLINE], Lines(later), rest);
      OneResponse(bodies[0], Lines(later) + rest, n, sofar);
      BatchOfLines(later, rest, n, sofar + [bodies[0]]);
      assert sofar + [bodies[0]] + later == sofar + bodies;
    }
  }

  /** A line with something on it: not only spaces, tabs, newlines, form feeds and carriage returns. */
  predicate SaysSomething(line: Bytes) {
    exists b :: b in line && b != 32 && b != 9 && b != 10 && b != 12 && b != 13
  }

  predicate GoodRequest(request: Bytes) {
    Framable(request, 65_536) && SaysSomething(request)
  }

  /** A line that says nothing is not a request: the session goes on behind it as if it were not there. */
  lemma SilentLineIsSkipped(line: Bytes, rest: Bytes, n: nat, service: Service)
    requires Framable(line, 65_536) && !SaysSomething(line)
    ensures Session(line + [NEWLINE] + rest, n, service) == Session(rest, n, service)
  {
    FrameRoundTrip(line, rest, MAX_REQUEST_BYTES);
    hide FirstFrame;
    hide AfterFrame;
    hide Framable;
  }

  /** A carriage return in front of the newline does not belong to the line. */
  lemma CarriageReturnIsDropped(request: Bytes, rest: Bytes, limit: nat)
    requires 10 !in request && |request| + 2 <= limit
    ensures var s := request + [13] + [10] + rest;
            FirstFrame(s, limit) == Line(request) && AfterFrame(s) == rest
  {
    var body := request + [13];
    var s := body + [10] + rest;
    assert forall i :: 0 <= i < |body| ==> s[i] == body[i] && (i < |request| ==> body[i] in request);
    NewlineAtIs(s, |body|);
    assert s[..|body|] == body && s[|body| + 1..] == rest && body[..|request|] == request;
  }

  /** A request that with its newline takes more than 64 KiB is refused, and nothing after it is read. */
  lemma OversizedRequestIsRefused(request: Bytes, rest: Bytes, n: nat, service: Service)
    requires 10 !in request && |request| + 1 > 65_536
    ensures Session(request + [10] + rest, n, service)
            == Encode(service.requestTooLarge, service.responseTooLarge, MAX_RESPONSE_BYTES).bytes
  {
    var s := request + [10] + rest;
    assert forall i :: 0 <= i < |request| ==> s[i] == request[i] && request[i] in request;
    NewlineAtIs(s, |request|);
  }

  /** The answers to requests that are the `first`th and following ones. */
  function Answers(requests: seq<Bytes>, first: nat, service: Service): (bodies: seq<Bytes>)
    ensures |bodies| == |requests|
  {
    seq(|requests|, i requires 0 <= i < |requests| => Flatten(service.answer(first + i, requests[i])))
  }

  predicate AnswersFit(requests: seq<Bytes>, first: nat, service: Service) {
    forall i :: 0 <= i < |requests| ==> Framable(Answers(requests, first, service)[i], 8_388_608)
  }

  lemma OneRequest(request: Bytes, rest: Bytes, n: nat, service: Service)
    requires GoodRequest(request)
    ensures var reply := Reply(n, request, service);
            Session(request + [NEWLINE] + rest, n, service)
            == if reply.close then reply.bytes else reply.bytes + Session(rest, n + 1, service)
  {
    FrameRoundTrip(request, rest, MAX_REQUEST_BYTES);
    hide FirstFrame;
    hide AfterFrame;
    hide Reply;
  }

  lemma {:induction false} SessionOfRequests(requests: seq<Bytes>, rest: Bytes, n: nat, service: Service)
    requires (forall r :: r in requests ==> GoodRequest(r)) && AnswersFit(requests, n, service)
    ensures Session(Lines(requests) + rest, n, service)
            == Lines(Answers(requests, n, service)) + Session(rest, n + |requests|, service)
    decreases |requests|
  {
    hide Session;
    hide GoodRequest;
    hide Framable;
    if requests == [] {
      assert Lines(requests) + rest == rest;
    } else {
      var first, later := requests[0], requests[1..];
      var answers := Answers(requests, n, service);
      assert first in requests && Framable(answers[0], MAX_RESPONSE_BYTES);
      Associative(first + [NEWLINE], Lines(later), rest);
      OneRequest(first, Lines(later) + rest, n, service);
      assert answers[1..] == Answers(later, n + 1, service);
      SessionOfRequests(later, rest, n + 1, service);
      FramableIsSent(answers[0], service);
      Associative(answers[0] + [NEWLINE], Lines(answers[1..]), Session(rest, n + |requests|, service));
    }
  }

  lemma FramableIsSent(body: Bytes, service: Service)
    requires Framable(body, MAX_RESPONSE_BYTES)
    ensures Encode(body, service.responseTooLarge, MAX_RESPONSE_BYTES) == Encoded(body + [NEWLINE], false)
  {
  }

  /** End to end: the client's batch gets exactly the daemon's answers, in order, each as the daemon stood
      when it came to that request. */
  lemma BatchIsAnsweredInOrder(requests: seq<Bytes>, service: Service)
    requires (forall r :: r in requests ==> GoodRequest(r)) && AnswersFit(requests, 0, service)
    ensures Batch(Session(Lines(requests), 0, service), |requests|, []) == Responses(Answers(requests, 0, service))
  {
    hide Session;
    hide Batch;
    hide GoodRequest;
    hide Framable;
    var answers := Answers(requests, 0, service);
    SessionOfRequests(requests, [], 0, service);
    assert Lines(requests) + [] == Lines(requests) && Lines(answers) + [] == Lines(answers);
    EmptySession(|requests|, service);
    AnswersAreFramable(requests, service);
    BatchOfLines(answers, [], |requests|, []);
    assert [] + answers == answers;
    BatchAtEnd(|requests|, answers);
  }

  lemma EmptySession(n: nat, service: Service)
    ensures Session([], n, service) == []
  {
  }

  /** An answer that is too large ends the session: the client gets the answers before it, the error
      envelope in its place, and then a closed connection. */
  lemma OversizedAnswerEndsTheBatch(before: seq<Bytes>, request: Bytes, later: Bytes, n: nat, service: Service)
    requires (forall r :: r in before ==> GoodRequest(r)) && AnswersFit(before, 0, service) && |before| < n
    requires GoodRequest(request) && |Flatten(service.answer(|before|, request))| + 1 > 8_388_608
    requires Framable(service.responseTooLarge, 8_388_608)
    ensures var received := Answers(before, 0, service) + [service.responseTooLarge];
            Batch(Session(Lines(before + [request]) + later, 0, service), n, [])
            == if n == |before| + 1 then Responses(received) else Closed(|before| + 1)
  {
    hide Session;
    hide Batch;
    hide GoodRequest;
    hide Framable;
    var answers, overflow := Answers(before, 0, service), service.responseTooLarge;
    var tail := request + [NEWLINE] + later;
    LinesSplit(before, [request]);
    OnlyLine(request);
    Associative(Lines(before), request + [NEWLINE], later);
    SessionOfRequests(before, tail, 0, service);
    OneRequest(request, later, |before|, service);
    AnswersAreFramable(before, service);
    BatchOfLines(answers, overflow + [NEWLINE], n, []);
    assert overflow + [NEWLINE] + [] == overflow + [NEWLINE] && [] + answers == answers;
    OneResponse(overflow, [], n, answers);
    BatchAtEnd(n, answers + [overflow]);
  }

  lemma OnlyLine(body: Bytes)
    ensures Lines([body]) == body + [NEWLINE]
  {
    var only := [body];
    assert only[1..] == [] && body + [NEWLINE] + [] == body + [NEWLINE];
  }

  lemma BatchAtEnd(n: nat, received: seq<Bytes>)
    requires |received| <= n
    ensures Batch([], n, received) == if n == |received| then Responses(received) else Closed(|received|)
  {
  }

  lemma AnswersAreFramable(requests: seq<Bytes>, service: Service)
    requires AnswersFit(requests, 0, service)
    ensures forall b :: b in Answers(requests, 0, service) ==> Framable(b, MAX_RESPONSE_BYTES)
  {
    hide Framable;
    hide Answers;
  }

  // ----- Frames against a one-shot split -----

  /** All frames of a stream, up to the first one that is too large. */
  function Frames(s: Bytes, limit: nat): seq<Frame>
    decreases |s|
  {
    match FirstFrame(s, limit)
    case EndOfStream => []
    case TooLarge => [TooLarge]
    case Line(body) => [Line(body)] + Frames(AfterFrame(s), limit)
  }

  /** The stream cut at every newline, in one go; what follows the last newline is kept when it is not
      empty. */
  function Cut(s: Bytes, from: nat, to: nat): seq<Bytes>
    requires from <= to <= |s|
    decreases |s| - to
  {
    if to == |s| then if from == to then [] else [s[from..]]
    else if s[to] == NEWLINE then [s[from..to + 1]] + Cut(s, to + 1, to + 1)
    else Cut(s, from, to + 1)
  }

  /** A cut piece as a frame: its newline and then one carriage return stripped. */
  function AsFrame(piece: Bytes, limit: nat): (frame: Frame)
    requires piece != []
    ensures !frame.EndOfStream?
  {
    if |piece| > limit then TooLarge
    else if piece[|piece| - 1] == NEWLINE then Line(TrimCarriageReturn(piece[..|piece| - 1]))
    else Line(piece)
  }

  lemma {:induction false} CutAtNewline(s: Bytes, from: nat, to: nat)
    requires from <= to <= |s| && to <= from + NewlineAt(s[from..])
    ensures var n := NewlineAt(s[from..]);
      Cut(s, from, to)
      == if from + n < |s| then [s[from..from + n + 1]] + Cut(s, from + n + 1, from + n + 1)
         else if from == |s| then [] else [s[from..]]
    decreases |s| - to
  {
    var n := NewlineAt(s[from..]);
    if to < from + n {
      assert s[from..][to - from] == s[to];
      CutAtNewline(s, from, to + 1);
    } else if to < |s| {
      assert s[from..][n] == s[to];
    }
  }

  /** Reading frame by frame is the one-shot split, ended by the first piece that is too large. */
  lemma {:induction false} FramesAreThePieces(s: Bytes, from: nat, limit: nat)
    requires from <= |s|
    ensures var pieces := Cut(s, from, from);
      && (forall p :: p in pieces ==> p != [])
      && Frames(s[from..], limit) == UpToTooLarge(pieces, limit)
    decreases |s| - from
  {
    hide FirstFrame;
    hide AsFrame;
    hide AfterFrame;
    hide Cut;
    var tail := s[from..];
    CutAtNewline(s, from, from);
    var n := NewlineAt(tail);
    if n < |tail| {
      hide UpToTooLarge;
      hide Frames;
      hide NewlineAt;
      var next := from + n + 1;
      FramesAreThePieces(s, next, limit);
      assert tail[n + 1..] == s[next..] && tail[..n + 1] == s[from..next];
      NextPiece(tail, Cut(s, next, next), limit);
    } else if tail != [] {
      LastPiece(tail, limit);
    } else {
      EmptyStream(limit);
    }
  }

  lemma NextPiece(tail: Bytes, later: seq<Bytes>, limit: nat)
    requires NewlineAt(tail) < |tail| && forall p :: p in later ==> p != []
    requires Frames(tail[NewlineAt(tail) + 1..], limit) == UpToTooLarge(later, limit)
    ensures var pieces := [tail[..NewlineAt(tail) + 1]] + later;
            (forall p :: p in pieces ==> p != []) && Frames(tail, limit) == UpToTooLarge(pieces, limit)
  {
    hide FirstFrame;
    hide AsFrame;
    hide AfterFrame;
    hide UpToTooLarge;
    PieceIsFrame(tail, limit);
    PieceAhead(tail[..NewlineAt(tail) + 1], later, limit);
  }

  lemma LastPiece(tail: Bytes, limit: nat)
    requires tail != [] && NewlineAt(tail) == |tail|
    ensures Frames(tail, limit) == UpToTooLarge([tail], limit)
  {
    hide FirstFrame;
    hide AsFrame;
    hide AfterFrame;
    PieceIsFrame(tail, limit);
    PieceAhead(tail, [], limit);
    EmptyStream(limit);
    assert [tail] + [] == [tail];
  }

  lemma EmptyStream(limit: nat)
    ensures FirstFrame([], limit) == EndOfStream
  {
  }

  lemma PieceAhead(piece: Bytes, later: seq<Bytes>, limit: nat)
    requires piece != [] && forall p :: p in later ==> p != []
    ensures forall p :: p in [piece] + later ==> p != []
    ensures UpToTooLarge([piece] + later, limit)
            == if AsFrame(piece, limit).TooLarge? then [TooLarge] else [AsFrame(piece, limit)] + UpToTooLarge(later, limit)
  {
    hide AsFrame;
    assert ([piece] + later)[0] == piece && ([piece] + later)[1..] == later;
  }

  /** The first frame is the stream's first piece. */
  lemma PieceIsFrame(tail: Bytes, limit: nat)
    requires tail != []
    ensures var n := NewlineAt(tail);
      && FirstFrame(tail, limit) == AsFrame(if n < |tail| then tail[..n + 1] else tail, limit)
      && AfterFrame(tail) == if n < |tail| then tail[n + 1..] else []
  {
    var n := NewlineAt(tail);
    if n < |tail| {
      assert tail[..n + 1][..n] == tail[..n];
    }
  }

  function UpToTooLarge(pieces: seq<Bytes>, limit: nat): seq<Frame>
    requires forall p :: p in pieces ==> p != []
  {
    if pieces == [] then []
    else
      assert pieces[0] in pieces;
      assert forall p :: p in pieces[1..] ==> p in pieces;
      if AsFrame(pieces[0], limit).TooLarge? then [TooLarge]
      else [AsFrame(pieces[0], limit)] + UpToTooLarge(pieces[1..], limit)
  }

  lemma {:induction false} CutKeepsEverything(s: Bytes, from: nat, to: nat)
    requires from <= to <= |s|
    ensures Flatten(Cut(s, from, to)) == s[from..]
    decreases |s| - to
  {
    if to == |s| {
      assert from < to ==> [s[from..]][1..] == [];
    } else if s[to] == NEWLINE {
      CutKeepsEverything(s, to + 1, to + 1);
      assert ([s[from..to + 1]] + Cut(s, to + 1, to + 1))[1..] == Cut(s, to + 1, to + 1);
      assert s[from..to + 1] + s[to + 1..] == s[from..];
    } else {
      CutKeepsEverything(s, from, to + 1);
    }
  }

  /** What the server writes for a sequence of frames, once it has answered `n` requests. */
  function RepliesTo(frames: seq<Frame>, n: nat, service: Service): Bytes {
    if frames == [] || frames[0].EndOfStream? then []
    else if frames[0].TooLarge? then
      Encode(service.requestTooLarge, service.responseTooLarge, MAX_RESPONSE_BYTES).bytes
    else if Blank(frames[0].body) then RepliesTo(frames[1..], n, service)
    else
      var reply := Reply(n, frames[0].body, service);
      if reply.close then reply.bytes else reply.bytes + RepliesTo(frames[1..], n + 1, service)
  }

  lemma {:induction false} SessionAnswersFrames(s: Bytes, n: nat, service: Service)
    ensures Session(s, n, service) == RepliesTo(Frames(s, MAX_REQUEST_BYTES), n, service)
    decreases |s|
  {
    hide Reply;
    hide Blank;
    var frame := FirstFrame(s, MAX_REQUEST_BYTES);
    if frame.Line? {
      LineMeansMore(s, MAX_REQUEST_BYTES);
      hide FirstFrame;
      hide AfterFrame;
      SessionAnswersFrames(AfterFrame(s), if Blank(frame.body) then n else n + 1, service);
      assert Frames(s, MAX_REQUEST_BYTES)[1..] == Frames(AfterFrame(s), MAX_REQUEST_BYTES);
    }
  }

  /** The whole session, from buffers of any size, is what a one-shot newline split of the input
      says. */
  lemma SessionIsOneShot(s: Bytes, service: Service)
    ensures forall p :: p in Cut(s, 0, 0) ==> p != []
    ensures Session(s, 0, service) == RepliesTo(UpToTooLarge(Cut(s, 0, 0), MAX_REQUEST_BYTES), 0, service)
  {
    FramesAreThePieces(s, 0, MAX_REQUEST_BYTES);
    assert s[0..] == s;
    SessionAnswersFrames(s, 0, service);
  }
}
