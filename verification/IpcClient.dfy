/** The socket client: its frame counter, the waiters for acknowledgements, and what it writes. */
module IpcClient {
  import opened Bytes
  import opened Protocol
  import opened Ids
  import opened Wire
  import opened Acks

  /** Topic lists travel as one payload, with a NUL between the topics. */
  function JoinedTopics(topics: seq<Text>): seq<byte> {
    if topics == [] then []
    else
      var before := JoinedTopics(topics[..|topics| - 1]);
      (if before == [] then [] else before + [NUL]) + topics[|topics| - 1]
  }

  /** The topics without the empty ones in front. */
  function WithoutLeadingEmpty(topics: seq<Text>): seq<Text> {
    if topics == [] || topics[0] != [] then topics else WithoutLeadingEmpty(topics[1..])
  }

  lemma WithoutLeadingEmptySnoc(topics: seq<Text>, t: Text)
    ensures WithoutLeadingEmpty(topics + [t]) ==
      if WithoutLeadingEmpty(topics) != [] then WithoutLeadingEmpty(topics) + [t]
      else if t == [] then [] else [t]
  {
    if topics == [] {
      assert topics + [t] == [t];
    } else {
      assert (topics + [t])[1..] == topics[1..] + [t];
      WithoutLeadingEmptySnoc(topics[1..], t);
    }
  }

  lemma {:induction false} SplitSnoc(s: seq<byte>, t: Text)
    requires NulFree(t)
    ensures SplitAll(s + [NUL] + t) == SplitAll(s) + [t]
    decreases |s|
  {
    hide *;
    var u, k := s + [NUL] + t, Cut(s);
    CutInFront(s, t);
    if k == |s| {
      SplitCut(u, k);
      SplitCut(s, k);
      CutOfNulFree(t);
      assert u[..k] == s && u[k + 1..] == t;
    } else {
      SplitCut(u, k);
      SplitCut(s, k);
      SplitSnoc(s[k + 1..], t);
      assert u[..k] == s[..k] && u[k + 1..] == s[k + 1..] + [NUL] + t;
      assert [s[..k]] + SplitAll(s[k + 1..]) + [t] == [s[..k]] + (SplitAll(s[k + 1..]) + [t]);
    }
  }

  lemma {:induction false} CutInFront(s: seq<byte>, t: Text)
    ensures Cut(s + [NUL] + t) == Cut(s)
  {
    var u, k, m := s + [NUL] + t, Cut(s), Cut(s + [NUL] + t);
    assert u[k] == NUL;
    assert forall i | 0 <= i < k :: u[i] == s[i];
    hide Cut;
  }

  lemma {:induction false} SplitCut(s: seq<byte>, k: nat)
    requires k == Cut(s)
    ensures SplitAll(s) == if k == |s| then [s] else [s[..k]] + SplitAll(s[k + 1..])
  {
  }

  lemma CutOfNulFree(t: Text)
    requires NulFree(t)
    ensures SplitAll(t) == [t]
  {
    assert forall i | 0 <= i < |t| :: t[i] in t;
  }

  /** What the broker understands of a topic list: the leading empty topics are lost, and one empty
      topic is left if no other is. */
  lemma {:induction false} SplitJoined(topics: seq<Text>)
    requires forall t | t in topics :: NulFree(t)
    ensures var kept := WithoutLeadingEmpty(topics);
      && (JoinedTopics(topics) == [] <==> kept == [])
      && SplitAll(JoinedTopics(topics)) == if kept == [] then [[]] else kept
  {
    if topics != [] {
      var init, t := topics[..|topics| - 1], topics[|topics| - 1];
      assert topics == init + [t] && t in topics;
      SplitJoined(init);
      WithoutLeadingEmptySnoc(init, t);
      if JoinedTopics(init) == [] {
        assert JoinedTopics(topics) == t;
        CutOfNulFree(t);
      } else {
        SplitSnoc(JoinedTopics(init), t);
      }
    }
  }

  /** So a list is understood as it was given exactly when its first topic is not empty, or the
      empty topic is all it holds. */
  lemma BulkListSurvives(topics: seq<Text>)
    requires forall t | t in topics :: NulFree(t)
    ensures SplitAll(JoinedTopics(topics)) == topics
       <==> topics != [] && (topics[0] != [] || |topics| == 1)
  {
    SplitJoined(topics);
    KeptLength(topics);
  }

  lemma KeptLength(topics: seq<Text>)
    ensures |WithoutLeadingEmpty(topics)| <= |topics|
    ensures topics != [] && topics[0] == [] ==> |WithoutLeadingEmpty(topics)| < |topics|
  {
  }

  class Client {
    var frameId: nat
    var issued: nat  // numbers the waiters, each a channel of its own in the source
    var responses: map<nat, nat>
    var results: map<nat, Result<()>>
    var wire: seq<byte>
    var inbox: seq<FrameData>

    ghost predicate Valid()
      reads this
    {
      frameId == IdAfter(issued)
    }

    function DeskNow(): Desk
      reads this
    {
      Desk(responses, results)
    }

    constructor ()
      ensures Valid() && issued == 0 && wire == [] && inbox == []
      ensures DeskNow() == Desk(map[], map[])
    {
      frameId, issued := 0, 0;
      responses, results := map[], map[];
      wire, inbox := [], [];
    }

    method IncrementFrameId()
      requires Valid()
      modifies this`frameId, this`issued
      ensures Valid() && issued == old(issued) + 1
    {
      if frameId == MAX {
        frameId := 1;
      } else {
        frameId := frameId + 1;
      }
      issued := issued + 1;
    }

    /** A new frame id, then the first five bytes of the frame. */
    method PrepareFrameBuf(op: FrameOp, qos: QoS) returns (buf: seq<byte>)
      requires Valid()
      modifies this`frameId, this`issued
      ensures Valid() && issued == old(issued) + 1
      ensures buf == Le32(frameId) + [Flags(op, qos)]
    {
      IncrementFrameId();
      buf := Le32(frameId);
      buf := buf + [Flags(op, qos)];
    }

    /** The waiter is entered first, under the id of the frame; then the frame is written. */
    method SendFrameAndConfirm(buf: seq<byte>, payload: seq<byte>, qos: QoS)
      requires Valid()
      modifies this`responses, this`wire
      ensures wire == old(wire) + buf + payload
      ensures responses == if qos.NeedsAck() then old(responses)[frameId := issued] else old(responses)
    {
      if qos.NeedsAck() {
        responses := responses[frameId := issued];
      }
      wire := wire + buf;
      wire := wire + payload;
    }

    /** What every sending call comes to: one more frame, encoded on the wire, and a waiter for it. */
    twostate predicate SentFrame(qos: QoS, call: Call)
      reads this
    {
      && Valid() && issued == old(issued) + 1
      && wire == old(wire) + Encode(Frame(frameId, qos, call))
      && responses ==
           (if qos in {Processed, RealtimeProcessed} then old(responses)[frameId := issued] else old(responses))
      && results == old(results) && inbox == old(inbox)
    }

    method SendFrame(target: Text, payload: seq<byte>, op: FrameOp, qos: QoS)
      requires Valid() && op in {Message, Broadcast, PublishTopic}
      modifies this`frameId, this`issued, this`responses, this`wire
      ensures SentFrame(qos,
        match op
        case Message => Send(target, payload)
        case Broadcast => SendBroadcast(target, payload)
        case _ => Publish(target, payload))
    {
      var buf := PrepareFrameBuf(op, qos);
      buf := buf + Le32(|target| + |payload| + 1);
      ghost var head := buf;
      buf := buf + target;
      buf := buf + [NUL];
      SendFrameAndConfirm(buf, payload, qos);
      BodyWritten(head, target, payload);
      assert wire == old(wire) + (buf + payload);
    }

    method SendZcFrame(target: Text, header: seq<byte>, payload: seq<byte>, qos: QoS)
      requires Valid()
      modifies this`frameId, this`issued, this`responses, this`wire
      ensures SentFrame(qos, ZcSend(target, header, payload))
    {
      var buf := PrepareFrameBuf(Message, qos);
      buf := buf + Le32(|target| + |payload| + |header| + 1);
      ghost var head := buf;
      buf := buf + target;
      buf := buf + [NUL];
      buf := buf + header;
      SendFrameAndConfirm(buf, payload, qos);
      BodyWritten(head, target, header + payload);
      assert buf + payload == head + target + [NUL] + (header + payload);
      assert wire == old(wire) + (buf + payload);
    }

    method SendFrameFor(target: Text, receiver: Text, payload: seq<byte>, qos: QoS)
      requires Valid()
      modifies this`frameId, this`issued, this`responses, this`wire
      ensures SentFrame(qos, PublishFor(target, receiver, payload))
    {
      var buf := PrepareFrameBuf(PublishTopicFor, qos);
      buf := buf + Le32(|target| + |receiver| + |payload| + 2);
      ghost var head := buf;
      buf := buf + target;
      buf := buf + [NUL];
      ghost var first := buf;
      buf := buf + receiver;
      buf := buf + [NUL];
      SendFrameAndConfirm(buf, payload, qos);
      BodyWritten(first, receiver, payload);
      BodyWritten(head, target, receiver + ([NUL] + payload));
      assert wire == old(wire) + (buf + payload);
    }

    method SendListFrame(payload: seq<byte>, op: FrameOp, qos: QoS)
      requires Valid() && op.IsTopicList()
      modifies this`frameId, this`issued, this`responses, this`wire
      ensures SentFrame(qos, TopicList(op, payload))
    {
      var buf := PrepareFrameBuf(op, qos);
      buf := buf + Le32(|payload|);
      SendFrameAndConfirm(buf, payload, qos);
      assert wire == old(wire) + (buf + payload);
    }

    /** `subscribe_bulk` and its three siblings: the topics are joined by a loop, then sent. */
    method SendTopics(topics: seq<Text>, op: FrameOp, qos: QoS)
      requires Valid() && op.IsTopicList()
      modifies this`frameId, this`issued, this`responses, this`wire
      ensures SentFrame(qos, TopicList(op, JoinedTopics(topics)))
    {
      var payload: seq<byte> := [];
      for i := 0 to |topics|
        invariant payload == JoinedTopics(topics[..i])
      {
        assert topics[..i + 1][..i] == topics[..i];
        if payload != [] {
          payload := payload + [NUL];
        }
        payload := payload + topics[i];
      }
      assert topics[..|topics|] == topics;
      SendListFrame(payload, op, qos);
    }

    /** What the reader loop does with one frame: an acknowledgement completes the waiter of its id,
        if there is one, and removes it; other frames go to the inbox. */
    method Handle(h: Heard)
      modifies this`responses, this`results, this`inbox
      ensures inbox == old(inbox) + if h.Arrived? then [h.frame] else []
      ensures DeskNow() == if h.Acked? then OnAck(old(DeskNow()), h.id, h.code) else old(DeskNow())
    {
      match h {
        case Nothing =>
        case Acked(id, code) =>
          if id in responses {
            var waiter := responses[id];
            responses := responses - {id};
            results := results[waiter := ToResult(code)];
          }
        case Arrived(frame) =>
          inbox := inbox + [frame];
      }
    }

    /** The reader loop, on the bytes up to the end of the connection. */
    method HandleRead(input: seq<byte>) returns (error: ErrorKind)
      modifies this`responses, this`results, this`inbox
      ensures error == ListenAll(input).1
      ensures inbox == old(inbox) + Frames(ListenAll(input).0)
      ensures DeskNow() == OnHeard(old(DeskNow()), ListenAll(input).0)
    {
      hide Listen, OnAck, DeskNow;
      var rest := input;
      ghost var past: seq<Heard> := [];
      ghost var desk := DeskNow();
      assert past + ListenAll(input).0 == ListenAll(input).0;
      while true
        invariant ListenAll(input) == (past + ListenAll(rest).0, ListenAll(rest).1)
        invariant inbox == old(inbox) + Frames(past)
        invariant DeskNow() == OnHeard(desk, past)
        decreases |rest|
      {
        var l := Listen(rest);
        if l.Failed? {
          assert past + [] == past;
          return l.error;
        }
        FramesSnoc(past, l.heard);
        assert (past + [l.heard])[..|past|] == past;
        assert past + ([l.heard] + ListenAll(l.rest).0) == past + [l.heard] + ListenAll(l.rest).0;
        past := past + [l.heard];
        Handle(l.heard);
        rest := l.rest;
      }
    }
  }

  lemma BodyWritten(head: seq<byte>, target: Text, rest: seq<byte>)
    ensures head + target + [NUL] + rest == head + (target + ([NUL] + rest))
  {
  }

  function Frames(heard: seq<Heard>): seq<FrameData> {
    if heard == [] then []
    else (if heard[0].Arrived? then [heard[0].frame] else []) + Frames(heard[1..])
  }

  lemma FramesSnoc(heard: seq<Heard>, h: Heard)
    ensures Frames(heard + [h]) == Frames(heard) + if h.Arrived? then [h.frame] else []
  {
    if heard != [] {
      assert (heard + [h])[1..] == heard[1..] + [h];
      FramesSnoc(heard[1..], h);
    }
  }
}
