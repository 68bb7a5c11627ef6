/** The two byte streams of a socket client: requests to the broker, frames from the broker. */
module Wire {
  import opened Bytes
  import opened Protocol

  // ----- Fields

  /** A text field: bytes up to a NUL, which must be there, in valid UTF-8. */
  function TakeField(buf: seq<byte>): (r: Result<(Text, seq<byte>)>)
    ensures r.Ok? ==> buf == r.value.0 + ([NUL] + r.value.1) && NulFree(r.value.0) && Utf8(r.value.0)
  {
    var k := Cut(buf);
    if !Utf8(buf[..k]) || k == |buf| then Err(Data) else Ok((buf[..k], buf[k + 1..]))
  }

  /** A field is read back exactly when it holds no NUL; otherwise whatever is read is shorter. */
  lemma FieldRoundTrip(t: Text, rest: seq<byte>)
    requires Utf8(t)
    ensures TakeField(t + ([NUL] + rest)) == Ok((t, rest)) <==> NulFree(t)
    ensures var r := TakeField(t + ([NUL] + rest)); !NulFree(t) && r.Ok? ==> |r.value.0| < |t|
  {
    CutField(t, rest);
    var s := t + ([NUL] + rest);
    assert s[..|t|] == t && s[|t| + 1..] == rest;
  }

  // ----- Requests: what an IPC client writes

  datatype Call =
    | Send(target: Text, payload: seq<byte>)
    | ZcSend(target: Text, header: seq<byte>, payload: seq<byte>)
    | SendBroadcast(target: Text, payload: seq<byte>)
    | Publish(target: Text, payload: seq<byte>)
    | PublishFor(target: Text, receiver: Text, payload: seq<byte>)
    | TopicList(list: FrameOp, payload: seq<byte>)
  {
    function Op(): FrameOp {
      match this
      case Send(_, _) => Message
      case ZcSend(_, _, _) => Message
      case SendBroadcast(_, _) => Broadcast
      case Publish(_, _) => PublishTopic
      case PublishFor(_, _, _) => PublishTopicFor
      case TopicList(op, _) => op
    }

    /** What the receivers are meant to get. */
    function Content(): seq<byte> {
      if ZcSend? then header + payload else payload
    }

    /** Everything after the nine header bytes. */
    function Body(): seq<byte> {
      match this
      case TopicList(_, payload) => payload
      case PublishFor(target, receiver, payload) => target + ([NUL] + (receiver + ([NUL] + payload)))
      case _ => target + ([NUL] + Content())
    }

    /** Rust strings are UTF-8, and the topic-list calls use the four list operations only. */
    predicate Typed() {
      && (TopicList? ==> list.IsTopicList())
      && (!TopicList? ==> Utf8(target))
      && (PublishFor? ==> Utf8(receiver))
    }
  }

  datatype Request = Ping | Frame(id: nat, qos: QoS, call: Call)

  const PING_FRAME: seq<byte> := [0, 0, 0, 0, 0, 0, 0, 0, 0]

  function Encode(r: Request): seq<byte> {
    match r
    case Ping => PING_FRAME
    case Frame(id, qos, call) =>
      Le32(id) + [Flags(call.Op(), qos)] + Le32(|call.Body()|) + call.Body()
  }

  /** The layout of a request: the id, lowest byte first; six bits of operation under two of quality of service;
      the length of the body, lowest byte first; the body. */
  lemma RequestBytes(id: nat, qos: QoS, call: Call)
    ensures var b := Encode(Frame(id, qos, call));
      && |b| == 9 + |call.Body()| && LowestFirst(b[..4], id) && LowestFirst(b[5..9], |call.Body()|)
      && b[4] == OperationByte(call)
           + (if qos.No? then 0 else if qos.Processed? then 0x40 else if qos.Realtime? then 0x80 else 0xC0)
      && b[9..] == call.Body()
  {
    Le32Bytes(id);
    Le32Bytes(|call.Body()|);
    assert Flags(call.Op(), qos) == OperationByte(call)
      + (if qos.No? then 0 else if qos.Processed? then 0x40 else if qos.Realtime? then 0x80 else 0xC0);
    var b := Encode(Frame(id, qos, call));
    hide Le32, Flags, Call.Body, LowestFirst;
    assert b[..4] == Le32(id) && b[5..9] == Le32(|call.Body()|);
  }

  /** The body: names in front of NULs, then what is sent. */
  lemma BodyBytes(call: Call)
    ensures call.Send? || call.SendBroadcast? || call.Publish? ==> call.Body() == call.target + [0] + call.payload
    ensures call.ZcSend? ==> call.Body() == call.target + [0] + call.header + call.payload
    ensures call.PublishFor? ==> call.Body() == call.target + [0] + call.receiver + [0] + call.payload
    ensures call.TopicList? ==> call.Body() == call.payload
  {
  }

  /** The operation codes of the protocol. */
  function OperationByte(call: Call): byte {
    match call
    case Send(_, _) => 0x12
    case ZcSend(_, _, _) => 0x12
    case SendBroadcast(_, _) => 0x13
    case Publish(_, _) => 0x01
    case PublishFor(_, _, _) => 0x06
    case TopicList(op, _) =>
      match op
      case SubscribeTopic => 0x02
      case UnsubscribeTopic => 0x03
      case ExcludeTopic => 0x04
      case UnexcludeTopic => 0x05
      case Message => 0x12
      case Broadcast => 0x13
      case PublishTopic => 0x01
      case PublishTopicFor => 0x06
      case Nop => 0x00
  }

  function EncodeAll(rs: seq<Request>): seq<byte> {
    if rs == [] then [] else Encode(rs[0]) + EncodeAll(rs[1..])
  }

  // ----- Requests: what the broker's reader loop takes from the stream

  datatype Incoming = Incoming(idBytes: seq<byte>, op: FrameOp, qos: QoS, body: seq<byte>)

  datatype Taken =
    | Pinged(rest: seq<byte>)
    | Got(frame: Incoming, rest: seq<byte>)
    | Closed(end: Result<()>)

  /** One turn of the reader loop, before the operation is looked at. The end of the stream in a
      header is a regular end; in a body it is an error. */
  function TakeFrame(input: seq<byte>, limit: Option<nat>): (t: Taken)
    ensures t.Pinged? || t.Got? ==> |t.rest| < |input|
    ensures t.Got? ==> |t.frame.idBytes| == 4
  {
    if |input| < 9 then Closed(Ok(()))
    else if input[4] == 0 then Pinged(input[9..])
    else
      var op := FlagsOp(input[4]);
      var qos := FlagsQoS(input[4]);
      var len := FromLe32(input[5..9]);
      if op.Err? then Closed(Err(op.error))
      else if qos.Err? then Closed(Err(qos.error))
      else if limit.Some? && len > limit.value then Closed(Err(Data))
      else if |input| < 9 + len then Closed(Err(Eof))
      else Got(Incoming(input[..4], op.value, qos.value, input[9..9 + len]), input[9 + len..])
  }

  function TakeAll(input: seq<byte>, limit: Option<nat>): (seq<Incoming>, Result<()>)
    decreases |input|
  {
    match TakeFrame(input, limit)
    case Pinged(rest) => TakeAll(rest, limit)
    case Got(frame, rest) => var (frames, end) := TakeAll(rest, limit); ([frame] + frames, end)
    case Closed(end) => ([], end)
  }

  /** The reader loop on a whole stream. */
  method ReadRequests(input: seq<byte>, limit: Option<nat>)
    returns (frames: seq<Incoming>, end: Result<()>)
    ensures (frames, end) == TakeAll(input, limit)
  {
    frames := [];
    var rest := input;
    assert frames + TakeAll(input, limit).0 == TakeAll(input, limit).0;
    while true
      invariant var (more, last) := TakeAll(rest, limit);
        TakeAll(input, limit) == (frames + more, last)
      decreases |rest|
    {
      var t := TakeFrame(rest, limit);
      match t {
        case Pinged(r) => rest := r;
        case Got(frame, r) =>
          assert frames + ([frame] + TakeAll(r, limit).0) == frames + [frame] + TakeAll(r, limit).0;
          frames, rest := frames + [frame], r;
        case Closed(e) =>
          assert frames + [] == frames;
          return frames, e;
      }
    }
  }

  /** What a frame asks for. */
  datatype Action =
    | Topics(topics: seq<Text>)
    | Route(target: Text, receiver: Option<Text>, payloadPos: nat)
    | Ignored

  function SplitAll(s: seq<byte>): (r: seq<seq<byte>>)
    ensures |r| > 0
    decreases |s|
  {
    var k := Cut(s);
    if k == |s| then [s] else [s[..k]] + SplitAll(s[k + 1..])
  }

  /** The part of the reader loop that looks into the body; every failure ends the connection. */
  function Interpret(f: Incoming): (r: Result<Action>)
    ensures r.Ok? && r.value.Route? ==> r.value.payloadPos <= |f.body|
  {
    if f.op.IsTopicList() then
      var topics := SplitAll(f.body);
      if forall t | t in topics :: Utf8(t) then Ok(Topics(topics)) else Err(Data)
    else
      var target := TakeField(f.body);
      if target.Err? then Err(target.error)
      else if f.op.PublishTopicFor? then
        var receiver := TakeField(target.value.1);
        if receiver.Err? then Err(receiver.error)
        else Ok(Route(target.value.0, Some(receiver.value.0), |target.value.0| + 1 + |receiver.value.0| + 1))
      else if f.op.Nop? then Ok(Ignored)
      else Ok(Route(target.value.0, None, |target.value.0| + 1))
  }

  /** Pieces with a NUL between them. */
  function Glued(parts: seq<seq<byte>>): seq<byte>
    requires parts != []
  {
    if |parts| == 1 then parts[0] else parts[0] + ([NUL] + Glued(parts[1..]))
  }

  /** A list of topics is cut at every NUL, and nowhere else. */
  lemma {:induction false} SplitExactly(s: seq<byte>)
    ensures Glued(SplitAll(s)) == s && forall t | t in SplitAll(s) :: NulFree(t)
    decreases |s|
  {
    var k := Cut(s);
    if k == |s| {
      assert SplitAll(s) == [s];
    } else {
      var first, rest := s[..k], s[k + 1..];
      SplitExactly(rest);
      assert SplitAll(s) == [first] + SplitAll(rest) && SplitAll(s)[1..] == SplitAll(rest);
      assert s == first + ([NUL] + rest);
    }
  }

  /** A field is what stands in front of the first NUL, if that is valid text. */
  lemma FieldExactly(t: seq<byte>, rest: seq<byte>)
    ensures NUL !in t ==> TakeField(t) == Err(Data)
    ensures NUL !in t ==> TakeField(t + ([NUL] + rest)) == if Utf8(t) then Ok((t, rest)) else Err(Data)
  {
    hide Utf8;
    CutField(t, rest);
    var s := t + ([NUL] + rest);
    assert s[..|t|] == t && s[|t| + 1..] == rest;
  }

  /** Lists of topics are understood if all topics are valid text. */
  lemma ListUnderstood(f: Incoming)
    ensures f.op in {SubscribeTopic, UnsubscribeTopic, ExcludeTopic, UnexcludeTopic} ==>
      Interpret(f) == if forall p | p in SplitAll(f.body) :: Utf8(p) then Ok(Topics(SplitAll(f.body))) else Err(Data)
    ensures f.op !in {SubscribeTopic, UnsubscribeTopic, ExcludeTopic, UnexcludeTopic} ==>
      Interpret(f).Err? || !Interpret(f).value.Topics?
  {
    hide Utf8, SplitAll, TakeField;
  }

  /** The other operations: a target in front of a NUL. */
  lemma RouteUnderstood(f: Incoming, t: seq<byte>, rest: seq<byte>)
    requires f.op in {Message, Broadcast, PublishTopic, Nop} && NUL !in t
    ensures f.body == t ==> Interpret(f) == Err(Data)
    ensures f.body == t + ([NUL] + rest) ==>
      Interpret(f) ==
        if !Utf8(t) then Err(Data) else if f.op.Nop? then Ok(Ignored) else Ok(Route(t, None, |t| + 1))
  {
    FieldExactly(t, rest);
    hide Utf8, SplitAll, TakeField;
  }

  /** A publication for one receiver: a topic and a receiver, each in front of a NUL. */
  lemma PairUnderstood(f: Incoming, t: seq<byte>, u: seq<byte>, rest: seq<byte>)
    requires f.op.PublishTopicFor? && NUL !in t && NUL !in u && f.body == t + ([NUL] + (u + ([NUL] + rest)))
    ensures Interpret(f) == if !Utf8(t) || !Utf8(u) then Err(Data) else Ok(Route(t, Some(u), |t| + |u| + 2))
  {
    var tail := u + ([NUL] + rest);
    FieldExactly(t, tail);
    FieldExactly(u, rest);
    hide *;
    InterpretFields(f, if Utf8(t) then Ok((t, tail)) else Err(Data), if Utf8(u) then Ok((u, rest)) else Err(Data));
  }

  lemma InterpretFields(f: Incoming, first: Result<(Text, seq<byte>)>, second: Result<(Text, seq<byte>)>)
    requires f.op.PublishTopicFor? && TakeField(f.body) == first
    requires first.Ok? ==> TakeField(first.value.1) == second
    ensures Interpret(f) ==
      if first.Err? then Err(first.error) else if second.Err? then Err(second.error)
      else Ok(Route(first.value.0, Some(second.value.0), |first.value.0| + |second.value.0| + 2))
  {
    hide TakeField;
  }

  lemma PairIncomplete(f: Incoming, t: seq<byte>, u: seq<byte>)
    requires f.op.PublishTopicFor? && NUL !in t && NUL !in u
    requires f.body == t || f.body == t + ([NUL] + u)
    ensures Interpret(f) == Err(Data)
  {
    FieldExactly(t, u);
    FieldExactly(u, []);
    hide Utf8, SplitAll, TakeField;
  }

  function IncomingOf(id: nat, qos: QoS, call: Call): Incoming {
    Incoming(Le32(id), call.Op(), qos, call.Body())
  }

  /** A request is taken whole, leaving the stream at the next one, exactly when its body is shorter
      than 2^32 bytes; a longer one is announced with a truncated length. */
  lemma TakeEncoded(id: nat, qos: QoS, call: Call, rest: seq<byte>)
    requires call.Typed()
    ensures TakeFrame(Encode(Frame(id, qos, call)) + rest, None) == Got(IncomingOf(id, qos, call), rest)
       <==> |call.Body()| < TWO32
  {
    var body := call.Body();
    var head := Le32(id) + [Flags(call.Op(), qos)] + Le32(|body|);
    EncodedHead(id, qos, call);
    EncodedParts(id, qos, call, rest);
    hide *;
    TakeHead(head, body + rest, call.Op(), qos, |body| % TWO32);
    CutBody(body, rest);
    IncomingParts(id, qos, call);
  }

  lemma EncodedParts(id: nat, qos: QoS, call: Call, rest: seq<byte>)
    ensures Encode(Frame(id, qos, call)) + rest ==
      Le32(id) + [Flags(call.Op(), qos)] + Le32(|call.Body()|) + (call.Body() + rest)
  {
    hide Le32, Flags, Call.Body, Call.Op;
  }

  lemma EncodedHead(id: nat, qos: QoS, call: Call)
    requires call.Typed()
    ensures var head := Le32(id) + [Flags(call.Op(), qos)] + Le32(|call.Body()|);
      && |head| == 9 && head[..4] == Le32(id) && head[4] != 0
      && FlagsOp(head[4]) == Ok(call.Op()) && FlagsQoS(head[4]) == Ok(qos)
      && FromLe32(head[5..9]) == |call.Body()| % TWO32
  {
    var head := Le32(id) + [Flags(call.Op(), qos)] + Le32(|call.Body()|);
    assert head[..4] == Le32(id) && head[4] == Flags(call.Op(), qos) && head[5..9] == Le32(|call.Body()|);
    FlagsRoundTrip(call.Op(), qos);
    Le32RoundTrip(|call.Body()|);
    assert call.Op() != Nop;
    hide *;
  }

  lemma TakeHead(head: seq<byte>, tail: seq<byte>, op: FrameOp, qos: QoS, len: nat)
    requires |head| == 9 && head[4] != 0 && FlagsOp(head[4]) == Ok(op) && FlagsQoS(head[4]) == Ok(qos)
    requires FromLe32(head[5..9]) == len
    ensures TakeFrame(head + tail, None) ==
      if |tail| < len then Closed(Err(Eof)) else Got(Incoming(head[..4], op, qos, tail[..len]), tail[len..])
  {
    hide FlagsOp, FlagsQoS, FromLe32;
    var input := head + tail;
    assert input[..4] == head[..4] && input[4] == head[4] && input[5..9] == head[5..9];
    if |tail| >= len {
      assert input[9..9 + len] == tail[..len] && input[9 + len..] == tail[len..];
    }
  }

  lemma CutBody(body: seq<byte>, rest: seq<byte>)
    ensures |body| < TWO32 ==> (body + rest)[..|body|] == body && (body + rest)[|body|..] == rest
    ensures |body| % TWO32 <= |body| && (|body| % TWO32 == |body| <==> |body| < TWO32)
    ensures (body + rest)[..|body| % TWO32] == body <==> |body| < TWO32
  {
    if |body| >= TWO32 {
      assert |(body + rest)[..|body| % TWO32]| < |body|;
    }
  }

  lemma IncomingParts(id: nat, qos: QoS, call: Call)
    ensures IncomingOf(id, qos, call) == Incoming(Le32(id), call.Op(), qos, call.Body())
  {
  }

  /** A limit on the payload refuses a frame exactly if its announced length exceeds it; a stream that ends in
      a header ends regularly, one that ends in a body does not. */
  lemma TakeCutShort(id: nat, qos: QoS, call: Call, rest: seq<byte>, limit: nat, k: nat)
    requires call.Typed() && |call.Body()| < TWO32
    ensures TakeFrame(Encode(Frame(id, qos, call)) + rest, Some(limit)) ==
      if |call.Body()| > limit then Closed(Err(Data)) else Got(IncomingOf(id, qos, call), rest)
    ensures k < |Encode(Frame(id, qos, call))| ==>
      TakeFrame(Encode(Frame(id, qos, call))[..k], None) == Closed(if k < 9 then Ok(()) else Err(Eof))
  {
    var body := call.Body();
    var head := Le32(id) + [Flags(call.Op(), qos)] + Le32(|body|);
    EncodedHead(id, qos, call);
    EncodedParts(id, qos, call, rest);
    TakeEncoded(id, qos, call, rest);
    var input := Encode(Frame(id, qos, call)) + rest;
    hide Call.Body, Call.Op, Le32, FromLe32, Flags, FlagsOp, FlagsQoS, Call.Typed;
    assert input == head + (body + rest);
    assert input[..4] == head[..4] && input[4] == head[4] && input[5..9] == head[5..9];
    if k < |head + body| {
      HeadCut(head, body, call.Op(), qos, k);
      assert Encode(Frame(id, qos, call)) == head + body;
    }
  }

  lemma HeadCut(head: seq<byte>, body: seq<byte>, op: FrameOp, qos: QoS, k: nat)
    requires |head| == 9 && head[4] != 0 && FlagsOp(head[4]) == Ok(op) && FlagsQoS(head[4]) == Ok(qos)
    requires FromLe32(head[5..9]) == |body| && k < |head + body|
    ensures TakeFrame((head + body)[..k], None) == Closed(if k < 9 then Ok(()) else Err(Eof))
  {
    hide FlagsOp, FlagsQoS, FromLe32;
    var input := (head + body)[..k];
    if k >= 9 {
      assert input[4] == head[4] && input[5..9] == head[5..9];
    }
  }

  lemma TakePing(rest: seq<byte>, limit: Option<nat>)
    ensures TakeFrame(PING_FRAME + rest, limit) == Pinged(rest)
  {
  }

  predicate Carriable(r: Request) {
    r.Frame? ==> r.call.Typed() && |r.call.Body()| < TWO32
  }

  function Incomings(rs: seq<Request>): seq<Incoming> {
    if rs == [] then []
    else (if rs[0].Frame? then [IncomingOf(rs[0].id, rs[0].qos, rs[0].call)] else []) + Incomings(rs[1..])
  }

  /** Any number of requests, pings in between, is taken from the stream one by one and in order. */
  lemma {:induction false} TakeAllEncoded(rs: seq<Request>)
    requires forall r | r in rs :: Carriable(r)
    ensures TakeAll(EncodeAll(rs), None) == (Incomings(rs), Ok(()))
  {
    if rs != [] {
      var rest := EncodeAll(rs[1..]);
      TakeAllEncoded(rs[1..]);
      assert Carriable(rs[0]);
      match rs[0] {
        case Ping =>
          TakePing(rest, None);
          assert Incomings(rs) == [] + Incomings(rs[1..]) == Incomings(rs[1..]);
        case Frame(id, qos, call) => TakeEncoded(id, qos, call, rest);
      }
    }
  }

  /** The position of the payload in the body. */
  function PayloadPos(call: Call): nat
    requires !call.TopicList?
  {
    |call.target| + 1 + (if call.PublishFor? then |call.receiver| + 1 else 0)
  }

  function ActionOf(call: Call): Action
    requires !call.TopicList?
  {
    Route(call.target, if call.PublishFor? then Some(call.receiver) else None, PayloadPos(call))
  }

  /** The names in a request are understood as they were meant exactly when they hold no NUL. */
  lemma InterpretCall(id: nat, qos: QoS, call: Call)
    requires call.Typed() && !call.TopicList?
    ensures Interpret(IncomingOf(id, qos, call)) == Ok(ActionOf(call))
       <==> NulFree(call.target) && (call.PublishFor? ==> NulFree(call.receiver))
  {
    hide TakeField, Utf8, Cut;
    if call.PublishFor? {
      FieldRoundTrip(call.target, call.receiver + ([NUL] + call.payload));
      FieldRoundTrip(call.receiver, call.payload);
    } else {
      FieldRoundTrip(call.target, call.Content());
    }
  }

  /** Sending a frame on: the incoming buffer is passed along, with the payload marked in it. */
  function Forwarded(f: Incoming, action: Action, sender: Text): FrameData
    requires action.Route?
  {
    var (kind, topic) :=
      if f.op.Message? then (KMessage, None)
      else if f.op.Broadcast? then (KBroadcast, None)
      else (KPublish, Some(action.target));
    FrameData(kind, Some(sender), topic, None, f.body, action.payloadPos, f.qos in {Realtime, RealtimeProcessed})
  }

  // ----- Frames: what the broker's writer loop puts on the stream

  /** An optional field in front of some bytes. */
  function Field(s: Option<Text>, rest: seq<byte>): seq<byte> {
    if s.Some? then s.value + ([NUL] + rest) else rest
  }

  function FieldLen(s: Option<Text>): nat {
    if s.Some? then |s.value| + 1 else 0
  }

  function Announced(f: FrameData): seq<byte>
    requires f.Valid()
  {
    Field(f.sender, Field(f.topic, f.Content()))
  }

  function WriteFrame(f: FrameData): seq<byte>
    requires f.Valid()
  {
    if f.kind == KPrepared then f.buf
    else
      [f.kind.Code()] + Le32(|Announced(f)|) + [if f.realtime then 1 else 0] + Announced(f)
  }

  /** The layout of an ordinary frame: its kind, the length of what follows, the realtime mark; then the names in
      front of NULs, the header if it has one, and the payload. */
  lemma FrameBytes(f: FrameData)
    requires f.Valid() && f.kind in {KMessage, KBroadcast, KPublish, KNop}
    ensures var b := WriteFrame(f);
      && |b| == 6 + |Announced(f)| && LowestFirst(b[1..5], |Announced(f)|) && b[6..] == Announced(f)
      && b[0] == (if f.kind == KMessage then 0x12 else if f.kind == KBroadcast then 0x13
                  else if f.kind == KPublish then 0x01 else 0x00)
      && b[5] == if f.realtime then 1 else 0
  {
    Le32Bytes(|Announced(f)|);
    var b := WriteFrame(f);
    hide Le32, Announced, LowestFirst;
    assert b[1..5] == Le32(|Announced(f)|);
  }

  lemma AnnouncedBytes(f: FrameData)
    requires f.Valid() && f.sender.Some?
    ensures var names := f.sender.value + [0] + if f.topic.Some? then f.topic.value + [0] else [];
      Announced(f) == names + (if f.header.Some? then f.header.value else []) + f.buf[f.payloadPos..]
  {
  }

  function WriteAll(queue: seq<FrameData>): seq<byte>
    requires forall f | f in queue :: f.Valid()
  {
    if queue == [] then [] else WriteFrame(queue[0]) + WriteAll(queue[1..])
  }

  lemma WriteAllSnoc(queue: seq<FrameData>, f: FrameData)
    requires f.Valid() && forall g | g in queue :: g.Valid()
    ensures WriteAll(queue + [f]) == WriteAll(queue) + WriteFrame(f)
  {
    hide WriteFrame;
    if queue == [] {
      assert WriteAll([f]) == WriteFrame(f) + [] && ([] + [f])[1..] == [];
    } else {
      WriteAllSnoc(queue[1..], f);
      assert (queue + [f])[1..] == queue[1..] + [f];
    }
  }

  /** What the writer loop does with an ordinary frame: a local buffer for the head and the names,
      then the header, if there is one, and the payload. */
  method WriteParts(frame: FrameData) returns (bytes: seq<byte>)
    requires frame.Valid() && frame.kind != KPrepared
    ensures bytes == WriteFrame(frame)
  {
    hide *;
    var extraLen := if frame.sender.Some? then |frame.sender.value| + 1 else 0;
    if frame.topic.Some? {
      extraLen := extraLen + |frame.topic.value| + 1;
    }
    if frame.header.Some? {
      extraLen := extraLen + |frame.header.value|;
    }
    AnnouncedLength(frame);
    var buf := [frame.kind.Code()];
    buf := buf + Le32(extraLen + |frame.buf| - frame.payloadPos);
    buf := buf + [if frame.realtime then 1 else 0];
    ghost var head := buf;
    buf := WriteField(buf, frame.sender);
    buf := WriteField(buf, frame.topic);
    bytes := buf;
    if frame.header.Some? {
      bytes := bytes + frame.header.value;
    }
    bytes := bytes + frame.Payload();
    ContentLast(frame, buf);
    NamesInFront(head, frame.sender, frame.topic, frame.Content());
    WrittenAsHead(frame, head);
  }

  method WriteField(buf: seq<byte>, s: Option<Text>) returns (buf': seq<byte>)
    ensures buf' == buf + Field(s, [])
  {
    buf' := buf;
    if s.Some? {
      buf' := buf' + s.value;
      buf' := buf' + [NUL];
    }
  }

  lemma AnnouncedLength(f: FrameData)
    requires f.Valid()
    ensures |Announced(f)| ==
      (if f.sender.Some? then |f.sender.value| + 1 else 0) + (if f.topic.Some? then |f.topic.value| + 1 else 0)
      + (if f.header.Some? then |f.header.value| else 0) + |f.buf| - f.payloadPos
  {
    FieldsInFront(f.sender, f.topic, f.Content());
  }

  lemma ContentLast(f: FrameData, buf: seq<byte>)
    requires f.Valid()
    ensures buf + f.Content() == if f.header.Some? then buf + f.header.value + f.Payload() else buf + f.Payload()
  {
    assert [] + f.Payload() == f.Payload();
  }

  lemma WrittenAsHead(f: FrameData, head: seq<byte>)
    requires f.Valid() && f.kind != KPrepared
    requires head == [f.kind.Code()] + Le32(|Announced(f)|) + [if f.realtime then 1 else 0]
    ensures WriteFrame(f) == head + Field(f.sender, Field(f.topic, f.Content()))
  {
  }

  lemma NamesInFront(head: seq<byte>, s: Option<Text>, t: Option<Text>, rest: seq<byte>)
    ensures head + Field(s, []) + Field(t, []) + rest == head + Field(s, Field(t, rest))
  {
    FieldThen(t, rest);
    FieldThen(s, Field(t, rest));
    hide Field;
    var a, b := Field(s, []), Field(t, []);
    assert head + a + b + rest == head + (a + (b + rest));
  }

  lemma FieldThen(s: Option<Text>, rest: seq<byte>)
    ensures Field(s, []) + rest == Field(s, rest)
  {
    if s.Some? {
      assert s.value + ([NUL] + []) + rest == s.value + ([NUL] + rest);
    }
  }

  lemma FieldsInFront(s: Option<Text>, t: Option<Text>, rest: seq<byte>)
    ensures |Field(s, Field(t, rest))| == FieldLen(s) + FieldLen(t) + |rest|
    ensures Field(s, Field(t, rest))[FieldLen(s) + FieldLen(t)..] == rest
  {
  }

  /** The writer loop: one local buffer, cleared and refilled for every frame, then up to three writes. */
  method WriteQueue(queue: seq<FrameData>) returns (sink: seq<byte>)
    requires forall f | f in queue :: f.Valid()
    ensures sink == WriteAll(queue)
  {
    sink := [];
    for i := 0 to |queue|
      invariant sink == WriteAll(queue[..i])
    {
      var frame := queue[i];
      assert queue[..i + 1] == queue[..i] + [frame];
      WriteAllSnoc(queue[..i], frame);
      if frame.kind == KPrepared {
        sink := sink + frame.buf;
      } else {
        var bytes := WriteParts(frame);
        sink := sink + bytes;
      }
    }
    assert queue[..|queue|] == queue;
  }

  // ----- Frames: what the client's reader loop takes from the stream

  datatype Heard = Nothing | Acked(id: nat, code: byte) | Arrived(frame: FrameData)

  datatype Listened = Next(heard: Heard, rest: seq<byte>) | Failed(error: ErrorKind)

  function Listen(input: seq<byte>): (l: Listened)
    ensures l.Next? ==> |l.rest| < |input|
  {
    if |input| < 6 then Failed(Eof)
    else
      var kind := FrameKind.FromCode(input[0]);
      if kind.Err? then Failed(kind.error)
      else if kind.value == KNop then Next(Nothing, input[6..])
      else if kind.value == KAcknowledge then Next(Acked(FromLe32(input[1..5]), input[5]), input[6..])
      else
        var len := FromLe32(input[1..5]);
        if |input| < 6 + len then Failed(Eof)
        else
          var frame := ParseFrame(kind.value, input[5] != 0, input[6..6 + len]);
          if frame.Err? then Failed(frame.error) else Next(Arrived(frame.value), input[6 + len..])
  }

  function ParseFrame(kind: FrameKind, realtime: bool, buf: seq<byte>): (r: Result<FrameData>)
    ensures r.Ok? ==> r.value.Valid() && r.value.buf == buf
  {
    var sender := TakeField(buf);
    if sender.Err? then Err(sender.error)
    else if kind == KPublish then
      var topic := TakeField(sender.value.1);
      if topic.Err? then Err(topic.error)
      else Ok(FrameData(kind, Some(sender.value.0), Some(topic.value.0), None, buf,
                        |sender.value.0| + |topic.value.0| + 2, realtime))
    else Ok(FrameData(kind, Some(sender.value.0), None, None, buf, |sender.value.0| + 1, realtime))
  }

  function ListenAll(input: seq<byte>): (seq<Heard>, ErrorKind)
    decreases |input|
  {
    match Listen(input)
    case Next(heard, rest) => var (more, error) := ListenAll(rest); ([heard] + more, error)
    case Failed(error) => ([], error)
  }

  /** Frames the broker puts in a queue: acknowledgements, pings, and frames with a sender. */
  predicate Queueable(f: FrameData) {
    && f.Valid()
    && match f.kind
       case KPrepared => |f.buf| == 6 && f.buf[0] == OP_ACK
       case KNop => f == NOP_FRAME
       case KAcknowledge => false
       case KPublish => f.sender.Some? && f.topic.Some? && Utf8(f.sender.value) && Utf8(f.topic.value)
       case _ => f.sender.Some? && f.topic.None? && Utf8(f.sender.value)
  }

  predicate NamesNulFree(f: FrameData) {
    && (f.sender.Some? ==> NulFree(f.sender.value))
    && (f.topic.Some? ==> NulFree(f.topic.value))
  }

  /** The frame as the client sees it: header and payload merged behind the names. */
  function Carried(f: FrameData): FrameData
    requires f.Valid()
  {
    FieldsInFront(f.sender, f.topic, f.Content());
    FrameData(f.kind, f.sender, f.topic, None, Announced(f), FieldLen(f.sender) + FieldLen(f.topic), f.realtime)
  }

  function HeardOf(f: FrameData): Heard
    requires Queueable(f)
  {
    if f.kind == KPrepared then Acked(FromLe32(f.buf[1..5]), f.buf[5])
    else if f.kind == KNop then Nothing
    else Arrived(Carried(f))
  }

  /** Nothing but the layout changes on the way. */
  lemma CarriedSame(f: FrameData)
    requires f.Valid()
    ensures var c := Carried(f);
      && c.Valid() && c.Content() == f.Content()
      && c.kind == f.kind && c.sender == f.sender && c.topic == f.topic && c.realtime == f.realtime
  {
    FieldsInFront(f.sender, f.topic, f.Content());
    assert [] + f.Content() == f.Content();
  }

  lemma ParseAnnounced(f: FrameData)
    requires Queueable(f) && f.kind in {KMessage, KBroadcast, KPublish}
    ensures ParseFrame(f.kind, f.realtime, Announced(f)) == Ok(Carried(f)) <==> NamesNulFree(f)
  {
    hide TakeField, Utf8, Cut;
    FieldsInFront(f.sender, f.topic, f.Content());
    FieldRoundTrip(f.sender.value, Field(f.topic, f.Content()));
    if f.kind == KPublish {
      FieldRoundTrip(f.topic.value, f.Content());
    }
  }

  /** A queued frame is read back, from exactly the bytes written for it, whenever the names in it hold no NUL
      and its announced length, names included, is below 2^32, and only then. */
  lemma ListenWritten(f: FrameData, rest: seq<byte>)
    requires Queueable(f)
    ensures Listen(WriteFrame(f) + rest) == Next(HeardOf(f), rest)
       <==> f.kind in {KPrepared, KNop} || (NamesNulFree(f) && |Announced(f)| < TWO32)
  {
    if f.kind == KPrepared {
      ListenPrepared(f, rest);
    } else if f.kind == KNop {
      ListenPing(rest);
    } else {
      ListenHead(f, rest);
      hide TakeField, Utf8, Cut, Le32, FromLe32, ParseFrame;
      assert HeardOf(f) == Arrived(Carried(f)) && Carried(f).buf == Announced(f);
      hide Carried, Listen;
      if |Announced(f)| < TWO32 {
        ParseAnnounced(f);
      }
    }
  }

  /** Pings and acknowledgements are six bytes, whatever else is in them. */
  lemma ListenShort(input: seq<byte>)
    requires |input| >= 6
    ensures input[0] == 0x00 ==> Listen(input) == Next(Nothing, input[6..])
    ensures input[0] == 0xFE ==> Listen(input) == Next(Acked(FromLe32(input[1..5]), input[5]), input[6..])
  {
    hide ParseFrame, FromLe32;
  }

  /** A stream that ends in the middle of a frame has come to its end. */
  lemma ListenCutShort(f: FrameData, k: nat)
    requires Queueable(f) && f.kind in {KMessage, KBroadcast, KPublish} && |Announced(f)| < TWO32
    requires k < |WriteFrame(f)|
    ensures Listen(WriteFrame(f)[..k]) == Failed(Eof)
  {
    hide ParseFrame, Announced, FromLe32, Le32, Utf8;
    var body := Announced(f);
    var head := [f.kind.Code()] + Le32(|body|) + [if f.realtime then 1 else 0];
    assert WriteFrame(f) == head + body;
    Le32RoundTrip(|body|);
    var input := (head + body)[..k];
    if k >= 6 {
      assert input[0] == head[0] && input[1..5] == head[1..5] == Le32(|body|);
    }
  }

  lemma ListenPrepared(f: FrameData, rest: seq<byte>)
    requires Queueable(f) && f.kind == KPrepared
    ensures Listen(WriteFrame(f) + rest) == Next(HeardOf(f), rest)
  {
    hide FromLe32, ParseFrame;
    var input := f.buf + rest;
    assert input[0] == f.buf[0] && input[5] == f.buf[5] && input[1..5] == f.buf[1..5] && input[6..] == rest;
  }

  lemma ListenPing(rest: seq<byte>)
    ensures Queueable(NOP_FRAME) && Listen(WriteFrame(NOP_FRAME) + rest) == Next(HeardOf(NOP_FRAME), rest)
  {
    hide ParseFrame;
    assert Announced(NOP_FRAME) == [];
    assert (WriteFrame(NOP_FRAME) + rest)[6..] == rest;
  }

  /** The announced length wraps at 2^32, and what is read is as much as it says. */
  lemma ListenHead(f: FrameData, rest: seq<byte>)
    requires f.Valid() && f.kind in {KMessage, KBroadcast, KPublish}
    ensures var len := |Announced(f)| % TWO32;
      var p := ParseFrame(f.kind, f.realtime, Announced(f)[..len]);
      Listen(WriteFrame(f) + rest) ==
      if p.Err? then Failed(p.error) else Next(Arrived(p.value), Announced(f)[len..] + rest)
    ensures |Announced(f)| < TWO32 ==> (
      && |Announced(f)| % TWO32 == |Announced(f)| && Announced(f)[..|Announced(f)|] == Announced(f)
      && Announced(f)[|Announced(f)|..] + rest == rest)
  {
    hide ParseFrame, Announced, FromLe32, Le32;
    var input, body := WriteFrame(f) + rest, Announced(f);
    var head := [f.kind.Code()] + Le32(|body|) + [if f.realtime then 1 else 0];
    assert input == head + (body + rest);
    assert head[1..5] == Le32(|body|) && input[1..5] == head[1..5];
    Le32RoundTrip(|body|);
    var len := |body| % TWO32;
    assert input[6..] == body + rest;
    assert (body + rest)[..len] == body[..len] && (body + rest)[len..] == body[len..] + rest;
    assert input[6..6 + len] == input[6..][..len] && input[6 + len..] == input[6..][len..];
  }

  function HeardAll(queue: seq<FrameData>): (h: seq<Heard>)
    requires forall f | f in queue :: Queueable(f)
    ensures |h| == |queue|
  {
    if queue == [] then [] else [HeardOf(queue[0])] + HeardAll(queue[1..])
  }

  predicate Deliverable(f: FrameData) {
    Queueable(f) && |Announced(f)| < TWO32 && NamesNulFree(f)
  }

  /** The stream written for any queue is read back as exactly that queue. */
  lemma {:induction false} ListenAllWritten(queue: seq<FrameData>)
    requires forall f | f in queue :: Deliverable(f)
    ensures forall f | f in queue :: f.Valid() && Queueable(f)
    ensures ListenAll(WriteAll(queue)) == (HeardAll(queue), Eof)
  {
    if queue != [] {
      assert Deliverable(queue[0]);
      ListenAllWritten(queue[1..]);
      ListenWritten(queue[0], WriteAll(queue[1..]));
    }
  }

  // ----- End to end

  /** What matters of a message to the people at both ends. */
  datatype Letter = Letter(kind: FrameKind, sender: Text, topic: Option<Text>, content: seq<byte>, realtime: bool)

  function KindOf(call: Call): FrameKind
    requires !call.TopicList?
  {
    match call
    case SendBroadcast(_, _) => KBroadcast
    case Publish(_, _) => KPublish
    case PublishFor(_, _, _) => KPublish
    case _ => KMessage
  }

  function Sent(sender: Text, qos: QoS, call: Call): Letter
    requires !call.TopicList?
  {
    var topic := if KindOf(call) == KPublish then Some(call.target) else None;
    Letter(KindOf(call), sender, topic, call.Content(), qos.IsRealtime())
  }

  /** The letter of a request; `meant` says whether the receiver looked at is among its addressees. */
  function SentOne(r: Request, sender: Text, meant: bool): seq<Letter> {
    if r.Frame? && !r.call.TopicList? && meant then [Sent(sender, r.qos, r.call)] else []
  }

  /** What is meant for one receiver; `meant` is the broker's routing, frame by frame. */
  function AllSent(rs: seq<Request>, sender: Text, meant: seq<bool>): seq<Letter>
    requires |meant| == |Incomings(rs)|
  {
    if rs == [] then []
    else if rs[0].Ping? then AllSent(rs[1..], sender, meant)
    else SentOne(rs[0], sender, meant[0]) + AllSent(rs[1..], sender, meant[1..])
  }

  function RoutedOne(f: Incoming, sender: Text, meant: bool): seq<FrameData> {
    var a := Interpret(f);
    if a.Ok? && a.value.Route? && meant then [Forwarded(f, a.value, sender)] else []
  }

  /** What the broker puts in the queue of that receiver for the incoming frames. */
  function Routed(frames: seq<Incoming>, sender: Text, meant: seq<bool>): seq<FrameData>
    requires |meant| == |frames|
  {
    if frames == [] then [] else RoutedOne(frames[0], sender, meant[0]) + Routed(frames[1..], sender, meant[1..])
  }

  predicate Readable(h: Heard) {
    h.Arrived? ==> h.frame.Valid() && h.frame.sender.Some?
  }

  function ReceivedOne(h: Heard): seq<Letter>
    requires Readable(h)
  {
    if h.Arrived? then
      var f := h.frame;
      [Letter(f.kind, f.sender.value, f.topic, f.Content(), f.realtime)]
    else []
  }

  function AllReceived(heard: seq<Heard>): seq<Letter>
    requires forall h | h in heard :: Readable(h)
  {
    if heard == [] then [] else ReceivedOne(heard[0]) + AllReceived(heard[1..])
  }

  /** Requests that both hops can carry: typed, names without NUL, lengths below 2^32. */
  predicate Postable(r: Request, sender: Text) {
    r.Frame? ==>
      && Carriable(r)
      && (!r.call.TopicList? ==>
            && NulFree(r.call.target) && (r.call.PublishFor? ==> NulFree(r.call.receiver))
            && |sender| + |r.call.Body()| + 2 < TWO32)
  }

  lemma ForwardedCall(id: nat, qos: QoS, call: Call, sender: Text)
    requires call.Typed() && !call.TopicList? && Utf8(sender) && NulFree(sender)
    requires Postable(Frame(id, qos, call), sender)
    ensures Interpret(IncomingOf(id, qos, call)) == Ok(ActionOf(call))
    ensures var f := Forwarded(IncomingOf(id, qos, call), ActionOf(call), sender);
      && Deliverable(f)
      && Sent(sender, qos, call) == Letter(f.kind, sender, f.topic, f.Content(), f.realtime)
  {
    hide TakeField, Utf8, Cut, Interpret, Le32;
    InterpretCall(id, qos, call);
    var f := Forwarded(IncomingOf(id, qos, call), ActionOf(call), sender);
    assert f.Valid();
    assert call.Body()[PayloadPos(call)..] == call.Content();
    assert f.Content() == call.Content() by { assert [] + f.Payload() == f.Payload(); }
  }

  /** One request: what reaches the queue is readable at the other end as what was sent. */
  lemma OneRequest(id: nat, qos: QoS, call: Call, sender: Text, meant: bool)
    requires Utf8(sender) && NulFree(sender) && Postable(Frame(id, qos, call), sender)
    ensures var q := RoutedOne(IncomingOf(id, qos, call), sender, meant);
      && |q| <= 1 && (forall f | f in q :: Queueable(f) && Deliverable(f) && Readable(HeardOf(f)))
      && SentOne(Frame(id, qos, call), sender, meant) == if q == [] then [] else ReceivedOne(HeardOf(q[0]))
  {
    if call.TopicList? {
      TopicListGoesNowhere(id, qos, call, sender, meant);
    } else {
      hide Utf8, Cut, TakeField, Interpret, Postable;
      ForwardedCall(id, qos, call, sender);
      CallGoesOn(id, qos, call, sender);
    }
  }

  lemma CallGoesOn(id: nat, qos: QoS, call: Call, sender: Text)
    requires !call.TopicList? && Deliverable(Forwarded(IncomingOf(id, qos, call), ActionOf(call), sender))
    requires var f := Forwarded(IncomingOf(id, qos, call), ActionOf(call), sender);
      Sent(sender, qos, call) == Letter(f.kind, sender, f.topic, f.Content(), f.realtime)
    ensures var h := HeardOf(Forwarded(IncomingOf(id, qos, call), ActionOf(call), sender));
      Readable(h) && ReceivedOne(h) == [Sent(sender, qos, call)]
  {
    hide Utf8, Announced;
    CarriedSame(Forwarded(IncomingOf(id, qos, call), ActionOf(call), sender));
  }

  lemma TopicListGoesNowhere(id: nat, qos: QoS, call: Call, sender: Text, meant: bool)
    requires call.TopicList? && call.Typed()
    ensures RoutedOne(IncomingOf(id, qos, call), sender, meant) == []
  {
    hide SplitAll, Utf8, Le32;
  }

  lemma HeardCons(f: FrameData, queue: seq<FrameData>)
    requires Queueable(f) && Readable(HeardOf(f))
    requires forall g | g in queue :: Queueable(g)
    requires forall h | h in HeardAll(queue) :: Readable(h)
    ensures forall g | g in [f] + queue :: Queueable(g)
    ensures HeardAll([f] + queue) == [HeardOf(f)] + HeardAll(queue)
    ensures forall h | h in HeardAll([f] + queue) :: Readable(h)
    ensures AllReceived(HeardAll([f] + queue)) == ReceivedOne(HeardOf(f)) + AllReceived(HeardAll(queue))
  {
    var q := [f] + queue;
    assert q[1..] == queue;
    assert forall g | g in q :: g == f || g in queue;
    hide HeardOf, ReceivedOne, Readable, Announced, Utf8, NamesNulFree, Queueable;
    assert HeardAll(q) == [HeardOf(f)] + HeardAll(queue);
    assert HeardAll(q)[1..] == HeardAll(queue);
  }

  /** The first request, once it has become a frame or not, in front of the others. */
  lemma RoutedFirst(rs: seq<Request>, sender: Text, meant: seq<bool>)
    requires rs != [] && |meant| == |Incomings(rs)|
    ensures rs[0].Ping? ==>
      && |meant| == |Incomings(rs[1..])|
      && Routed(Incomings(rs), sender, meant) == Routed(Incomings(rs[1..]), sender, meant)
    ensures rs[0].Frame? ==>
      && |meant| == |Incomings(rs[1..])| + 1
      && Routed(Incomings(rs), sender, meant) ==
           RoutedOne(IncomingOf(rs[0].id, rs[0].qos, rs[0].call), sender, meant[0])
           + Routed(Incomings(rs[1..]), sender, meant[1..])
  {
    hide RoutedOne, IncomingOf;
    var incs := Incomings(rs[1..]);
    match rs[0] {
      case Ping => assert [] + incs == incs;
      case Frame(id, qos, call) => assert ([IncomingOf(id, qos, call)] + incs)[1..] == incs;
    }
  }

  predicate AllDeliverable(queue: seq<FrameData>) {
    && (forall f | f in queue :: Deliverable(f) && Queueable(f))
    && (forall h | h in HeardAll(queue) :: Readable(h))
  }

  lemma {:induction false} RoutedLetters(rs: seq<Request>, sender: Text, meant: seq<bool>)
    requires Utf8(sender) && NulFree(sender) && (forall r | r in rs :: Postable(r, sender))
    requires |meant| == |Incomings(rs)|
    ensures var queue := Routed(Incomings(rs), sender, meant);
      AllDeliverable(queue) && AllReceived(HeardAll(queue)) == AllSent(rs, sender, meant)
  {
    if rs != [] {
      RoutedFirst(rs, sender, meant);
      var later := if rs[0].Ping? then meant else meant[1..];
      RoutedLetters(rs[1..], sender, later);
      SentFirst(rs, sender, meant);
      assert Postable(rs[0], sender);
      hide Postable, RoutedOne, SentOne, IncomingOf, Utf8, AllDeliverable, HeardAll, AllReceived, Routed;
      hide Incomings, AllSent;
      if rs[0].Frame? {
        OneRequest(rs[0].id, rs[0].qos, rs[0].call, sender, meant[0]);
        LettersFirst(RoutedOne(IncomingOf(rs[0].id, rs[0].qos, rs[0].call), sender, meant[0]),
                     Routed(Incomings(rs[1..]), sender, later));
      }
    }
  }

  lemma SentFirst(rs: seq<Request>, sender: Text, meant: seq<bool>)
    requires rs != [] && |meant| == |Incomings(rs)|
    ensures rs[0].Ping? ==>
      |meant| == |Incomings(rs[1..])| && AllSent(rs, sender, meant) == AllSent(rs[1..], sender, meant)
    ensures rs[0].Frame? ==>
      && |meant| == |Incomings(rs[1..])| + 1
      && AllSent(rs, sender, meant) == SentOne(rs[0], sender, meant[0]) + AllSent(rs[1..], sender, meant[1..])
  {
  }

  lemma LettersFirst(q: seq<FrameData>, queue: seq<FrameData>)
    requires |q| <= 1 && (forall f | f in q :: Queueable(f) && Deliverable(f) && Readable(HeardOf(f)))
    requires AllDeliverable(queue)
    ensures AllDeliverable(q + queue)
    ensures AllReceived(HeardAll(q + queue)) ==
      (if q == [] then [] else ReceivedOne(HeardOf(q[0]))) + AllReceived(HeardAll(queue))
  {
    hide ReceivedOne, Readable, HeardOf, Deliverable, Queueable;
    if q == [] {
      assert q + queue == queue;
      assert [] + AllReceived(HeardAll(queue)) == AllReceived(HeardAll(queue));
    } else {
      assert q == [q[0]] && q[0] in q;
      HeardCons(q[0], queue);
    }
  }

  /** Whatever a client sends, each receiver gets exactly the messages meant for it, in order, with
      the same sender, topic, content and realtime mark: through the client's encoder, the broker's
      reader, the receiver's queue, the broker's writer and the receiver's reader. */
  lemma EndToEnd(rs: seq<Request>, sender: Text, meant: seq<bool>)
    requires Utf8(sender) && NulFree(sender) && (forall r | r in rs :: Postable(r, sender))
    requires |meant| == |Incomings(rs)|
    ensures var (frames, end) := TakeAll(EncodeAll(rs), None);
      && end == Ok(()) && |frames| == |meant|
      && var queue := Routed(frames, sender, meant);
         && (forall f | f in queue :: f.Valid())
         && var (heard, last) := ListenAll(WriteAll(queue));
            && last == Eof
            && (forall h | h in heard :: Readable(h))
            && AllReceived(heard) == AllSent(rs, sender, meant)
  {
    assert forall r | r in rs :: Postable(r, sender) ==> Carriable(r);
    TakeAllEncoded(rs);
    RoutedLetters(rs, sender, meant);
    var queue := Routed(Incomings(rs), sender, meant);
    assert forall f | f in queue :: Deliverable(f) ==> f.Valid();
    ListenAllWritten(queue);
  }
}
