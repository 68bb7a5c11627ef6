/** Operation codes, quality of service, error codes and the frame record shared by every layer. */
module Protocol {
  import opened Bytes

  datatype Option<+T> = None | Some(value: T)

  datatype Result<+T> = Ok(value: T) | Err(error: ErrorKind)

  /** One value per error code; a message text is not modelled. */
  datatype ErrorKind =
    | NotRegistered | NotSupported | Io | Timeout | Data | Busy | NotDelivered | Access | Other | Eof
  {
    function Code(): byte {
      match this
      case NotRegistered => 0x71
      case Data => 0x72
      case Io => 0x73
      case Other => 0x74
      case NotSupported => 0x75
      case Busy => 0x76
      case NotDelivered => 0x77
      case Timeout => 0x78
      case Access => 0x79
      case Eof => 0xFF
    }

    static function FromCode(code: byte): ErrorKind {
      if code == 0x71 then NotRegistered
      else if code == 0x75 then NotSupported
      else if code == 0x73 then Io
      else if code == 0x72 then Data
      else if code == 0x76 then Busy
      else if code == 0x77 then NotDelivered
      else if code == 0x79 then Access
      else Other
    }
  }

  const RESPONSE_OK: byte := 0x01
  const ERR_ACCESS: byte := 0x79
  const OP_ACK: byte := 0xFE

  /** `to_busrt_result`: what an acknowledgement code means to the caller. */
  function ToResult(code: byte): Result<()> {
    if code == RESPONSE_OK then Ok(()) else Err(ErrorKind.FromCode(code))
  }

  /** An error sent as an acknowledgement code is never mistaken for success, and comes back as
      itself exactly when it is neither a timeout nor an end of file; those two come back as `Other`. */
  lemma ErrorThroughAck(e: ErrorKind)
    ensures ToResult(e.Code()).Err?
    ensures ToResult(e.Code()).error == e <==> e !in {Timeout, Eof}
    ensures e in {Timeout, Eof} ==> ToResult(e.Code()).error == Other
    ensures ToResult(0x01) == Ok(()) && forall c: byte | c != 0x01 :: ToResult(c).Err?
    ensures e.Code() ==
      if e.NotRegistered? then 0x71 else if e.Data? then 0x72 else if e.Io? then 0x73 else if e.Other? then 0x74
      else if e.NotSupported? then 0x75 else if e.Busy? then 0x76 else if e.NotDelivered? then 0x77
      else if e.Timeout? then 0x78 else if e.Access? then 0x79 else 0xFF
  {
    assert e.Code() != RESPONSE_OK;
  }

  datatype FrameOp =
    | Nop | Message | Broadcast | PublishTopic | PublishTopicFor
    | SubscribeTopic | UnsubscribeTopic | ExcludeTopic | UnexcludeTopic
  {
    function Code(): byte {
      match this
      case Nop => 0x00
      case PublishTopic => 0x01
      case SubscribeTopic => 0x02
      case UnsubscribeTopic => 0x03
      case ExcludeTopic => 0x04
      case UnexcludeTopic => 0x05
      case PublishTopicFor => 0x06
      case Message => 0x12
      case Broadcast => 0x13
    }

    static function FromCode(code: byte): Result<FrameOp> {
      if code == 0x00 then Ok(Nop)
      else if code == 0x12 then Ok(Message)
      else if code == 0x13 then Ok(Broadcast)
      else if code == 0x01 then Ok(PublishTopic)
      else if code == 0x06 then Ok(PublishTopicFor)
      else if code == 0x02 then Ok(SubscribeTopic)
      else if code == 0x03 then Ok(UnsubscribeTopic)
      else if code == 0x04 then Ok(ExcludeTopic)
      else if code == 0x05 then Ok(UnexcludeTopic)
      else Err(Data)
    }

    /** Operations whose body is a list of topics. */
    predicate IsTopicList() {
      SubscribeTopic? || UnsubscribeTopic? || ExcludeTopic? || UnexcludeTopic?
    }
  }

  datatype QoS = No | Processed | Realtime | RealtimeProcessed {
    function Code(): byte {
      match this
      case No => 0
      case Processed => 1
      case Realtime => 2
      case RealtimeProcessed => 3
    }

    /** Bit 1 of the code. */
    predicate IsRealtime(): (r: bool)
      ensures r <==> this in {Realtime, RealtimeProcessed}
    {
      Code() / 2 % 2 != 0
    }

    /** Bit 0 of the code. */
    predicate NeedsAck(): (r: bool)
      ensures r <==> this in {Processed, RealtimeProcessed}
    {
      Code() % 2 != 0
    }

    static function FromCode(code: byte): Result<QoS> {
      if code == 0 then Ok(No)
      else if code == 1 then Ok(Processed)
      else if code == 2 then Ok(Realtime)
      else if code == 3 then Ok(RealtimeProcessed)
      else Err(Data)
    }
  }

  /** `op as u8 | (qos as u8) << 6`; the operation codes leave the upper two bits clear. */
  function Flags(op: FrameOp, qos: QoS): byte {
    op.Code() + 0x40 * qos.Code()
  }

  /** `flags & 0b0011_1111` and `flags >> 6`. */
  function FlagsOp(flags: byte): Result<FrameOp> {
    FrameOp.FromCode(flags % 0x40)
  }

  function FlagsQoS(flags: byte): Result<QoS> {
    QoS.FromCode(flags / 0x40)
  }

  /** The flags byte carries both values, and is zero for a plain ping alone. */
  lemma FlagsRoundTrip(op: FrameOp, qos: QoS)
    ensures FlagsOp(Flags(op, qos)) == Ok(op)
    ensures FlagsQoS(Flags(op, qos)) == Ok(qos)
    ensures Flags(op, qos) == 0 <==> op == Nop && qos == No
  {
    assert op.Code() < 0x40 && qos.Code() < 4;
  }

  datatype FrameKind = KPrepared | KMessage | KBroadcast | KPublish | KAcknowledge | KNop {
    function Code(): byte {
      match this
      case KPrepared => 0xFF
      case KMessage => 0x12
      case KBroadcast => 0x13
      case KPublish => 0x01
      case KAcknowledge => 0xFE
      case KNop => 0x00
    }

    /** A prepared frame is never announced on the wire, so its code is not accepted. */
    static function FromCode(code: byte): Result<FrameKind> {
      if code == 0x12 then Ok(KMessage)
      else if code == 0x13 then Ok(KBroadcast)
      else if code == 0x01 then Ok(KPublish)
      else if code == 0xFE then Ok(KAcknowledge)
      else if code == 0x00 then Ok(KNop)
      else Err(Data)
    }
  }

  /** A frame in a client's queue: the whole incoming buffer and the position of the payload in it. */
  datatype FrameData = FrameData(
    kind: FrameKind,
    sender: Option<Text>,
    topic: Option<Text>,
    header: Option<seq<byte>>,
    buf: seq<byte>,
    payloadPos: nat,
    realtime: bool)
  {
    predicate Valid() {
      payloadPos <= |buf|
    }

    function Payload(): seq<byte>
      requires Valid()
    {
      buf[payloadPos..]
    }

    /** Everything the sender gave: the zero-copy header, if any, then the payload. */
    function Content(): seq<byte>
      requires Valid()
    {
      (if header.Some? then header.value else []) + Payload()
    }
  }

  /** `FrameData::new_nop`. */
  const NOP_FRAME := FrameData(KNop, None, None, None, [], 0, false)

  /** A code is accepted for what it is the code of, and refused as bad data otherwise; the client takes neither
      prepared frames for what they are inside the broker. */
  lemma OnlyTheseCodes(code: byte)
    ensures if exists op: FrameOp :: op.Code() == code
      then FrameOp.FromCode(code).Ok? && FrameOp.FromCode(code).value.Code() == code
      else FrameOp.FromCode(code) == Err(Data)
    ensures if exists q: QoS :: q.Code() == code
      then QoS.FromCode(code).Ok? && QoS.FromCode(code).value.Code() == code else QoS.FromCode(code) == Err(Data)
    ensures if exists k: FrameKind :: k != KPrepared && k.Code() == code
      then FrameKind.FromCode(code).Ok? && FrameKind.FromCode(code).value.Code() == code
      else FrameKind.FromCode(code) == Err(Data)
  {
    assert FrameOp.FromCode(code).Ok? ==> FrameOp.FromCode(code).value.Code() == code;
    assert QoS.FromCode(code).Ok? ==> QoS.FromCode(code).value.Code() == code;
    assert FrameKind.FromCode(code).Ok? ==> FrameKind.FromCode(code).value.Code() == code;
  }

  /** A ready-made acknowledgement: marker, the four bytes of the frame id, result code. */
  function AckFrame(idBytes: seq<byte>, code: byte, realtime: bool): FrameData
    requires |idBytes| == 4
  {
    FrameData(KPrepared, None, None, None, [OP_ACK] + idBytes + [code], 0, realtime)
  }
}
