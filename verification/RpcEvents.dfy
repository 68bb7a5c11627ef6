/** RPC messages inside frames. Between threads the RPC header is a field of its own in the frame;
    over a socket it arrives merged with the payload. Both must mean the same. */
module RpcEvents {
  import opened Bytes
  import opened Protocol
  import opened Wire

  const RPC_NOTIFICATION: byte := 0x00
  const RPC_REQUEST: byte := 0x01
  const RPC_REPLY: byte := 0x11
  const RPC_ERROR: byte := 0x12

  datatype RpcKind = Notification | Request | Reply | ErrorReply

  newtype i16 = x: int | -0x8000 <= x < 0x8000

  /** `i16::to_le_bytes`: two's complement. */
  function Le16Signed(code: i16): (b: seq<byte>)
    ensures |b| == 2
  {
    Le16(if code < 0 then code as int + TWO16 else code as int)
  }

  function FromLe16Signed(b: seq<byte>): i16
    requires |b| == 2
  {
    var n := FromLe16(b);
    (if n < 0x8000 then n else n - TWO16) as i16
  }

  lemma SignedRoundTrip(code: i16)
    ensures FromLe16Signed(Le16Signed(code)) == code
  {
    Le16RoundTrip(if code < 0 then code as int + TWO16 else code as int);
  }

  /** An event as parsed from a frame; where to find its parts is remembered, not copied. */
  datatype RpcEvent = RpcEvent(kind: RpcKind, frame: FrameData, payloadPos: nat, useHeader: bool) {

    /** The bytes holding id and error code. */
    function Head(): seq<byte>
      requires frame.Valid()
    {
      if useHeader && frame.header.Some? then frame.header.value else frame.Payload()
    }

    /** No accessor of the event slices out of bounds. */
    predicate InBounds() {
      && frame.Valid() && payloadPos <= |frame.Payload()|
      && (useHeader ==> frame.header.Some?)
      && (kind != Notification ==> 5 <= |Head()|)
      && (kind == ErrorReply ==> 7 <= |Head()|)
      && (kind == Request ==> if useHeader then 6 <= |Head()| else 6 <= payloadPos)
    }

    function Payload(): seq<byte>
      requires InBounds()
    {
      frame.Payload()[payloadPos..]
    }

    function Id(): nat
      requires InBounds() && kind != Notification
    {
      FromLe32(Head()[1..5])
    }

    function Method(): seq<byte>
      requires InBounds() && kind == Request
    {
      if useHeader then Head()[5..|Head()| - 1] else frame.Payload()[5..payloadPos - 1]
    }

    function Code(): i16
      requires InBounds()
    {
      if kind == ErrorReply then FromLe16Signed(Head()[5..7]) else 0
    }
  }

  /** `TryFrom<Frame> for RpcEvent`. */
  function ParseEvent(frame: FrameData): Result<RpcEvent>
    requires frame.Valid()
  {
    var useHeader := frame.header.Some?;
    var body := if useHeader then frame.header.value else frame.Payload();
    if body == [] then Err(Data)
    else if body[0] == RPC_NOTIFICATION then
      Ok(RpcEvent(Notification, frame, if useHeader then 0 else 1, false))
    else if body[0] == RPC_REQUEST then
      if |body| < 6 then Err(Data)
      else if useHeader then Ok(RpcEvent(Request, frame, 0, true))
      else
        var k := Cut(body[5..]);
        if k == |body[5..]| then Err(Data) else Ok(RpcEvent(Request, frame, 6 + k, false))
    else if body[0] == RPC_REPLY then
      if |body| < 5 then Err(Data) else Ok(RpcEvent(Reply, frame, if useHeader then 0 else 5, useHeader))
    else if body[0] == RPC_ERROR then
      if |body| < 7 then Err(Data) else Ok(RpcEvent(ErrorReply, frame, if useHeader then 0 else 7, useHeader))
    else Err(Data)
  }

  /** Exactly these frames are accepted, everything else is bad data, and the code byte says what it is. */
  lemma ParsedExactly(frame: FrameData)
    requires frame.Valid()
    ensures var body := if frame.header.Some? then frame.header.value else frame.Payload();
      var e := ParseEvent(frame);
      if body != [] && body[0] == 0x00 then e.Ok? && e.value.kind == Notification
      else if body != [] && body[0] == 0x01 && |body| >= 6 && (frame.header.Some? || NUL in body[5..]) then
        e.Ok? && e.value.kind == Request
      else if body != [] && body[0] == 0x11 && |body| >= 5 then e.Ok? && e.value.kind == Reply
      else if body != [] && body[0] == 0x12 && |body| >= 7 then e.Ok? && e.value.kind == ErrorReply
      else e == Err(Data)
  {
    var body := if frame.header.Some? then frame.header.value else frame.Payload();
    if |body| >= 6 {
      var tail := body[5..];
      assert NUL in tail <==> Cut(tail) < |tail|;
    }
  }

  /** Whatever bytes arrive, a frame accepted as an event can be taken apart safely. */
  lemma ParsedInBounds(frame: FrameData)
    requires frame.Valid() && ParseEvent(frame).Ok?
    ensures var e := ParseEvent(frame).value;
      && e.InBounds() && e.frame == frame
      && |e.Payload()| + (if frame.header.Some? then 0 else e.payloadPos) == |frame.Payload()|
  {
  }

  // ----- What the RPC layer sends

  datatype Message =
    | Notify(data: seq<byte>)
    | Call(id: nat, name: seq<byte>, params: seq<byte>)
    | ReplyTo(id: nat, result: Option<seq<byte>>)
    | Fail(id: nat, code: i16, extra: Option<seq<byte>>)
  {
    /** Call ids are 32-bit, and 0 when no reply is wanted. */
    predicate Typed() {
      Notify? || id < TWO32
    }

    function Header(): seq<byte> {
      match this
      case Notify(_) => [RPC_NOTIFICATION]
      case Call(id, m, _) => [RPC_REQUEST] + Le32(id) + m + [NUL]
      case ReplyTo(id, _) => [RPC_REPLY] + Le32(id)
      case Fail(id, code, _) => [RPC_ERROR] + Le32(id) + Le16Signed(code)
    }

    function Body(): seq<byte> {
      match this
      case Notify(data) => data
      case Call(_, _, params) => params
      case ReplyTo(_, result) => if result.Some? then result.value else []
      case Fail(_, _, data) => if data.Some? then data.value else []
    }
  }

  /** `prepare_call_payload`: the header of a call. With an id in four bytes, a frame that carries it as its
      header is understood as a request with that id and method. */
  method PrepareCallPayload(m: seq<byte>, idBytes: seq<byte>) returns (payload: seq<byte>)
    ensures forall id: nat, params: seq<byte> | idBytes == Le32(id) :: payload == Call(id, m, params).Header()
    ensures forall id: nat, frame: FrameData |
      idBytes == Le32(id) && id < TWO32 && frame.Valid() && frame.header == Some(payload) ::
        var e := ParseEvent(frame);
        e.Ok? && e.value.InBounds() && ViewOf(e.value) == View(Request, Some(id), Some(m), 0, frame.Payload())
  {
    payload := [];
    payload := payload + [RPC_REQUEST];
    payload := payload + idBytes;
    payload := payload + m;
    payload := payload + [NUL];
    assert payload == [RPC_REQUEST] + idBytes + m + [NUL];
    forall id: nat, frame: FrameData |
      idBytes == Le32(id) && id < TWO32 && frame.Valid() && frame.header == Some(payload)
      ensures var e := ParseEvent(frame);
        e.Ok? && e.value.InBounds() && ViewOf(e.value) == View(Request, Some(id), Some(m), 0, frame.Payload())
    {
      CallUnderstood(id, m, frame);
    }
  }

  lemma CallUnderstood(id: nat, m: seq<byte>, frame: FrameData)
    requires id < TWO32 && frame.Valid() && frame.header == Some([RPC_REQUEST] + Le32(id) + m + [NUL])
    ensures var e := ParseEvent(frame);
      e.Ok? && e.value.InBounds() && ViewOf(e.value) == View(Request, Some(id), Some(m), 0, frame.Payload())
  {
    hide Le32, ParseEvent, ViewOf;
    SeparateHeader(Call(id, m, frame.Payload()), frame);
  }

  /** The header of a reply, or of an error reply, to the call with that id. */
  method PrepareReply(id: nat, error: Option<i16>) returns (payload: seq<byte>)
    ensures payload == (if error.None? then ReplyTo(id, None) else Fail(id, error.value, None)).Header()
  {
    payload := [];
    if error.None? {
      payload := payload + [RPC_REPLY];
      payload := payload + Le32(id);
    } else {
      payload := payload + [RPC_ERROR];
      payload := payload + Le32(id);
      payload := payload + Le16Signed(error.value);
    }
  }

  /** What a receiver can tell about an event. */
  datatype View = View(kind: RpcKind, id: Option<nat>, name: Option<seq<byte>>, code: i16, payload: seq<byte>)

  function ViewOf(e: RpcEvent): View
    requires e.InBounds()
  {
    View(e.kind,
         if e.kind == Notification then None else Some(e.Id()),
         if e.kind == Request then Some(e.Method()) else None,
         e.Code(), e.Payload())
  }

  function Meant(m: Message): View {
    match m
    case Notify(data) => View(Notification, None, None, 0, data)
    case Call(id, name, params) => View(Request, Some(id), Some(name), 0, params)
    case ReplyTo(id, _) => View(Reply, Some(id), None, 0, m.Body())
    case Fail(id, code, _) => View(ErrorReply, Some(id), None, code, m.Body())
  }

  lemma HeaderParts(m: Message)
    requires m.Typed()
    ensures var h := m.Header();
      && |h| > 0
      && h[0] == (if m.Notify? then 0x00 else if m.Call? then 0x01 else if m.ReplyTo? then 0x11 else 0x12)
      && (!m.Notify? ==> |h| >= 5 && FromLe32(h[1..5]) == m.id)
      && (m.Call? ==> h[5..] == m.name + [NUL] && h[5..|h| - 1] == m.name)
      && (m.Fail? ==> |h| == 7 && FromLe16Signed(h[5..7]) == m.code)
  {
    hide Le32, FromLe32, Le16Signed, FromLe16Signed;
    var h := m.Header();
    if !m.Notify? {
      assert h[1..5] == Le32(m.id);
      Le32RoundTrip(m.id);
      if m.Call? {
        assert h[5..] == m.name + [NUL] && h[5..|h| - 1] == m.name;
      }
      if m.Fail? {
        assert h[5..7] == Le16Signed(m.code);
        SignedRoundTrip(m.code);
      }
    }
  }

  /** Between threads a message always means what was sent. */
  lemma SeparateHeader(m: Message, frame: FrameData)
    requires m.Typed() && frame.Valid()
    requires frame.header == Some(m.Header()) && frame.Payload() == m.Body()
    ensures var e := ParseEvent(frame);
      e.Ok? && e.value.InBounds() && ViewOf(e.value) == Meant(m)
  {
    HeaderParts(m);
    ParsedInBounds(frame);
  }

  /** Merged into one buffer, a message means what was sent exactly when its method name, if it is a
      call, holds no NUL. */
  lemma MergedHeader(m: Message, frame: FrameData)
    requires m.Typed() && frame.Valid()
    requires frame.header == None && frame.Payload() == m.Header() + m.Body()
    ensures var e := ParseEvent(frame);
      && e.Ok? && e.value.InBounds()
      && (ViewOf(e.value) == Meant(m) <==> (m.Call? ==> NulFree(m.name)))
  {
    if m.Call? {
      MergedCall(m, frame);
    } else {
      MergedOther(m, frame);
    }
  }

  lemma MergedOther(m: Message, frame: FrameData)
    requires m.Typed() && !m.Call? && frame.Valid()
    requires frame.header == None && frame.Payload() == m.Header() + m.Body()
    ensures var e := ParseEvent(frame);
      e.Ok? && e.value.InBounds() && ViewOf(e.value) == Meant(m)
  {
    HeaderParts(m);
    var h, body := m.Header(), frame.Payload();
    assert body[0] == h[0] && body[|h|..] == m.Body();
    if !m.Notify? { assert body[1..5] == h[1..5]; }
    if m.Fail? { assert body[5..7] == h[5..7]; }
    hide Le32, FromLe32, Le16Signed, FromLe16Signed, Cut;
  }

  lemma MergedCall(m: Message, frame: FrameData)
    requires m.Typed() && m.Call? && frame.Valid()
    requires frame.header == None && frame.Payload() == m.Header() + m.Body()
    ensures var e := ParseEvent(frame);
      && e.Ok? && e.value.InBounds()
      && (ViewOf(e.value) == Meant(m) <==> NulFree(m.name))
  {
    hide *;
    MergedCallParts(m, frame.Payload());
    CutField(m.name, m.params);
    MergedCallView(frame, m.name, m.params);
    CallMeant(m);
    if !NulFree(m.name) {
      assert |m.name[..Cut(frame.Payload()[5..])]| < |m.name|;
    }
  }

  lemma CallMeant(m: Message)
    requires m.Call?
    ensures Meant(m) == View(Request, Some(m.id), Some(m.name), 0, m.params)
  {
  }

  /** What a merged request is taken for: its method ends at the first NUL. */
  lemma MergedCallView(frame: FrameData, name: seq<byte>, params: seq<byte>)
    requires frame.Valid() && frame.header == None
    requires |frame.Payload()| >= 6 && frame.Payload()[0] == RPC_REQUEST
    requires frame.Payload()[5..] == name + ([NUL] + params)
    requires Cut(frame.Payload()[5..]) <= |name|
    ensures var e, k := ParseEvent(frame), Cut(frame.Payload()[5..]);
      && e.Ok? && e.value.InBounds() && ViewOf(e.value).name == Some(name[..k])
      && (k == |name| ==>
            ViewOf(e.value) == View(Request, Some(FromLe32(frame.Payload()[1..5])), Some(name), 0, params))
  {
    hide FromLe32, Cut, FrameData.Payload;
    var body := frame.Payload();
    var tail := body[5..];
    var k := Cut(tail);
    assert body[5..5 + k] == tail[..k] == name[..k];
    assert body[6 + k..] == tail[k + 1..];
    if k == |name| {
      assert tail[k + 1..] == params && name[..k] == name;
    }
  }

  lemma MergedCallParts(m: Message, body: seq<byte>)
    requires m.Typed() && m.Call? && body == m.Header() + m.Body()
    ensures |body| >= 6 && body[0] == RPC_REQUEST && FromLe32(body[1..5]) == m.id
    ensures body[5..] == m.name + ([NUL] + m.params)
  {
    HeaderParts(m);
    var h := m.Header();
    assert h[0] == RPC_REQUEST;
    BehindHeader(h, m.name, m.params);
    hide Message.Header, Le32, FromLe32;
    assert body == h + m.params;
  }

  lemma BehindHeader(h: seq<byte>, name: seq<byte>, rest: seq<byte>)
    requires |h| >= 5 && h[5..] == name + [NUL]
    ensures (h + rest)[5..] == name + ([NUL] + rest)
    ensures (h + rest)[0] == h[0] && (h + rest)[1..5] == h[1..5]
  {
    assert (h + rest)[5..] == h[5..] + rest;
    assert name + [NUL] + rest == name + ([NUL] + rest);
  }

  /** Transport independence: the two ways of carrying a message agree exactly when its method name,
      if it is a call, holds no NUL. */
  lemma TransportIndependent(m: Message, separate: FrameData, merged: FrameData)
    requires m.Typed() && separate.Valid() && merged.Valid()
    requires separate.header == Some(m.Header()) && separate.Payload() == m.Body()
    requires merged.header == None && merged.Payload() == m.Header() + m.Body()
    ensures var e, f := ParseEvent(separate), ParseEvent(merged);
      && e.Ok? && f.Ok? && e.value.InBounds() && f.value.InBounds()
      && (ViewOf(e.value) == ViewOf(f.value) <==> (m.Call? ==> NulFree(m.name)))
  {
    SeparateHeader(m, separate);
    MergedHeader(m, merged);
  }

  /** What `zc_send` hands over arrives as one payload, header first. */
  lemma ZcSendArrives(id: nat, qos: QoS, target: Text, header: seq<byte>, payload: seq<byte>, sender: Text)
    requires Utf8(target) && Utf8(sender) && NulFree(sender)
    requires Postable(Frame(id, qos, ZcSend(target, header, payload)), sender)
    ensures var call := ZcSend(target, header, payload);
      var inc := IncomingOf(id, qos, call);
      && TakeFrame(Encode(Frame(id, qos, call)), None) == Got(inc, [])
      && Interpret(inc) == Ok(ActionOf(call))
      && var f := Forwarded(inc, ActionOf(call), sender);
         && f.Valid() && Queueable(f)
         && Listen(WriteFrame(f)) == Next(Arrived(Carried(f)), [])
         && Carried(f).Valid() && Carried(f).header == None && Carried(f).Payload() == header + payload
  {
    var call := ZcSend(target, header, payload);
    ZcPostable(id, qos, target, header, payload, sender);
    hide TakeFrame, Encode, Interpret, Listen, WriteFrame, Utf8, Announced, Postable, Call.Body, Cut, Le32;
    TakeEncoded(id, qos, call, []);
    assert Encode(Frame(id, qos, call)) + [] == Encode(Frame(id, qos, call));
    ForwardedCall(id, qos, call, sender);
    var f := Forwarded(IncomingOf(id, qos, call), ActionOf(call), sender);
    ListenForwarded(f);
    CarriedSame(f);
    assert [] + Carried(f).Payload() == Carried(f).Payload();
  }

  lemma ZcPostable(id: nat, qos: QoS, target: Text, header: seq<byte>, payload: seq<byte>, sender: Text)
    requires Postable(Frame(id, qos, ZcSend(target, header, payload)), sender)
    ensures var call := ZcSend(target, header, payload); call.Typed() && |call.Body()| < TWO32
  {
    hide Utf8;
  }

  lemma ListenForwarded(f: FrameData)
    requires Deliverable(f) && f.kind == KMessage
    ensures f.Valid() && Listen(WriteFrame(f)) == Next(Arrived(Carried(f)), [])
  {
    hide Listen, WriteFrame, Utf8, Announced, Carried;
    ListenWritten(f, []);
    assert WriteFrame(f) + [] == WriteFrame(f);
  }

  /** A message sent through the broker's sockets with `zc_send` means at the other end what was sent:
      encoder, broker and decoder carry header and payload as one content. */
  lemma MessageOverSockets(m: Message, id: nat, qos: QoS, target: Text, sender: Text)
    requires m.Typed() && (m.Call? ==> NulFree(m.name))
    requires Utf8(target) && Utf8(sender) && NulFree(sender)
    requires Postable(Frame(id, qos, ZcSend(target, m.Header(), m.Body())), sender)
    ensures var call := ZcSend(target, m.Header(), m.Body());
      var inc := IncomingOf(id, qos, call);
      && TakeFrame(Encode(Frame(id, qos, call)), None) == Got(inc, [])
      && Interpret(inc) == Ok(ActionOf(call))
      && var f := Forwarded(inc, ActionOf(call), sender);
         && f.Valid() && Queueable(f)
         && Listen(WriteFrame(f)) == Next(Arrived(Carried(f)), [])
         && Carried(f).Valid()
         && var e := ParseEvent(Carried(f)); e.Ok? && e.value.InBounds() && ViewOf(e.value) == Meant(m)
  {
    hide TakeFrame, Encode, Interpret, Listen, WriteFrame, ParseEvent, ViewOf, Meant, Utf8, Queueable, Carried,
      Postable, Announced, Message.Header, Message.Body, RpcEvent.InBounds, Forwarded, IncomingOf, FrameData.Payload;
    ZcSendArrives(id, qos, target, m.Header(), m.Body(), sender);
    var call := ZcSend(target, m.Header(), m.Body());
    MergedHeader(m, Carried(Forwarded(IncomingOf(id, qos, call), ActionOf(call), sender)));
  }
}
