/** Acknowledgements: what the broker answers to a frame, and whom the answer completes. */
module Acks {
  import opened Bytes
  import opened Protocol
  import opened Ids
  import opened Wire

  // ----- The broker's side

  /** One ERR_ACCESS for every topic that may not be subscribed to. */
  function Denials(topics: seq<Text>, allow: Text -> bool): (codes: seq<byte>)
    ensures forall c | c in codes :: c == ERR_ACCESS
    ensures codes == [] <==> forall t | t in topics :: allow(t)
  {
    if topics == [] then []
    else (if allow(topics[0]) then [] else [ERR_ACCESS]) + Denials(topics[1..], allow)
  }

  /** As many as topics are denied. */
  lemma {:induction false} DenialsCount(topics: seq<Text>, allow: Text -> bool)
    ensures |Denials(topics, allow)| == |set i | 0 <= i < |topics| && !allow(topics[i])|
  {
    var denied := set i | 0 <= i < |topics| && !allow(topics[i]);
    if topics != [] {
      var n := |topics| - 1;
      var init := topics[..n];
      DenialsCount(init, allow);
      DenialsSnoc(init, topics[n], allow);
      assert topics == init + [topics[n]];
      var before := set i | 0 <= i < |init| && !allow(init[i]);
      assert denied == before + if allow(topics[n]) then {} else {n};
    }
  }

  lemma {:induction false} DenialsSnoc(topics: seq<Text>, t: Text, allow: Text -> bool)
    ensures Denials(topics + [t], allow) == Denials(topics, allow) + if allow(t) then [] else [ERR_ACCESS]
  {
    if topics != [] {
      assert (topics + [t])[1..] == topics[1..] + [t];
      DenialsSnoc(topics[1..], t, allow);
    } else {
      assert [] + [t] == [t];
    }
  }

  /** The codes sent back for a frame whose handling does not end the connection. `allow` is the
      access list for the operation, `outcome` what sending a direct message came to. */
  function AckCodes(f: Incoming, action: Action, allow: Text -> bool, outcome: Result<()>): seq<byte> {
    if !f.qos.NeedsAck() then []
    else
      match action
      case Topics(topics) =>
        (if f.op.SubscribeTopic? then Denials(topics, allow) else []) + [RESPONSE_OK]
      case Route(target, _, _) =>
        if !allow(target) then [ERR_ACCESS]
        else if f.op.Message? && outcome.Err? then [outcome.error.Code()]
        else [RESPONSE_OK]
      case Ignored => []
  }

  /** Every frame that asks for an acknowledgement gets exactly one, except a subscription, which gets one more
      per denied topic, and a no-operation frame with quality-of-service bits, which gets none. What the one
      for a message, a broadcast or a publication says: access denied, or, for a direct message that was not
      delivered, why not, or else success. */
  lemma AckCount(f: Incoming, action: Action, allow: Text -> bool, outcome: Result<()>)
    requires Interpret(f) == Ok(action)
    ensures var codes := AckCodes(f, action, allow, outcome);
      && (codes == [] <==> f.qos in {No, Realtime} || f.op.Nop?)
      && (f.qos in {Processed, RealtimeProcessed} && !f.op.Nop? && !f.op.SubscribeTopic? ==> |codes| == 1)
      && (f.qos in {Processed, RealtimeProcessed} && action.Route? ==>
            var told := ToResult(codes[0]);
            if !allow(action.target) then told == Err(Access)
            else if f.op.Message? && outcome.Err? then
              told == Err(if outcome.error in {Timeout, Eof} then Other else outcome.error)
            else told == Ok(()))
      && (f.qos in {Processed, RealtimeProcessed} && f.op in {UnsubscribeTopic, ExcludeTopic, UnexcludeTopic} ==>
            ToResult(codes[0]) == Ok(()))
  {
    hide SplitAll, Utf8, TakeField;
    assert action.Ignored? <==> f.op.Nop?;
    assert action.Topics? <==> f.op.IsTopicList();
    hide Interpret, ToResult;
    assert ToResult(RESPONSE_OK) == Ok(()) && ToResult(ERR_ACCESS) == Err(Access) by { CodesDiffer(); }
    if outcome.Err? {
      ErrorThroughAck(outcome.error);
    }
  }

  lemma CodesDiffer()
    ensures ToResult(RESPONSE_OK) == Ok(()) && ToResult(ERR_ACCESS) == Err(Access)
  {
  }

  /** A subscription is confirmed as successful exactly when every topic was allowed: the caller
      sees the first acknowledgement only, and the denials come first. */
  lemma SubscribeFirstAck(f: Incoming, action: Action, allow: Text -> bool, outcome: Result<()>)
    requires Interpret(f) == Ok(action) && f.op.SubscribeTopic? && f.qos in {Processed, RealtimeProcessed}
    ensures var codes := AckCodes(f, action, allow, outcome);
      && codes != []
      && (ToResult(codes[0]).Ok? <==> forall t | t in action.topics :: allow(t))
      && (ToResult(codes[0]).Err? ==> ToResult(codes[0]).error == Access)
      && |codes| == 1 + |set i | 0 <= i < |action.topics| && !allow(action.topics[i])|
      && ToResult(codes[|codes| - 1]) == Ok(())
  {
    DenialsCount(action.topics, allow);
    hide SplitAll, Utf8;
    assert action.Topics?;
    var denials := Denials(action.topics, allow);
    hide Interpret;
    assert AckCodes(f, action, allow, outcome) == denials + [RESPONSE_OK];
    assert denials != [] ==> denials[0] in denials;
  }

  // ----- The client's side

  /** Who waits for which frame id, and what each waiter has been told; waiters are numbered like
      the frames, from 1. */
  datatype Desk = Desk(responses: map<nat, nat>, results: map<nat, Result<()>>)

  function OnAck(d: Desk, id: nat, code: byte): Desk {
    if id in d.responses then
      Desk(d.responses - {id}, d.results[d.responses[id] := ToResult(code)])
    else d
  }

  function OnHeard(d: Desk, heard: seq<Heard>): Desk {
    if heard == [] then d
    else
      var last := heard[|heard| - 1];
      var before := OnHeard(d, heard[..|heard| - 1]);
      if last.Acked? then OnAck(before, last.id, last.code) else before
  }

  // ----- A session: requests going out, acknowledgements coming in

  /** The codes sent for each request of a session, in order; a request without any is one that
      does not ask for an acknowledgement. */
  type Plan = seq<seq<byte>>

  /** `sent` requests are out; the acknowledgements of the first `done` have all arrived, and `pos`
      of those of the next one. */
  datatype Session = Session(sent: nat, done: nat, pos: nat, desk: Desk)

  const START := Session(0, 0, 0, Desk(map[], map[]))

  /** The waiter is entered before its frame is written. At most 2^32 - 1 requests are under way. */
  predicate Sends(p: Plan, s: Session, s': Session)
  {
    && s.sent < |p| && s.sent - s.done < MAX
    && var id := IdAfter(s.sent + 1);
       var responses := if p[s.sent] != [] then s.desk.responses[id := s.sent + 1] else s.desk.responses;
       s' == s.(sent := s.sent + 1, desk := s.desk.(responses := responses))
  }

  /** The broker handles one request after the other, so their acknowledgements arrive in order. */
  predicate Receives(p: Plan, s: Session, s': Session)
  {
    && s.done < s.sent && s.done < |p|
    && if s.pos < |p[s.done]| then
         s' == s.(pos := s.pos + 1, desk := OnAck(s.desk, IdAfter(s.done + 1), p[s.done][s.pos]))
       else s' == s.(done := s.done + 1, pos := 0)
  }

  predicate IsSession(p: Plan, run: seq<Session>)
  {
    && run != [] && run[0] == START
    && forall i | 0 <= i < |run| - 1 :: Sends(p, run[i], run[i + 1]) || Receives(p, run[i], run[i + 1])
  }

  predicate Waiting(p: Plan, s: Session, k: nat)
    requires s.sent <= |p|
  {
    s.done < k <= s.sent && p[k - 1] != [] && (k == s.done + 1 ==> s.pos == 0)
  }

  predicate Answered(s: Session, k: nat) {
    1 <= k <= s.done || (k == s.done + 1 && s.pos > 0)
  }

  /** Every waiter is entered under its own id, and everybody answered was told the first code. */
  ghost predicate DeskSound(p: Plan, s: Session)
  {
    && s.done <= s.sent <= |p| && s.sent - s.done <= MAX
    && (s.pos > 0 ==> s.done < s.sent && s.pos <= |p[s.done]|)
    && (forall id | id in s.desk.responses ::
          Waiting(p, s, s.desk.responses[id]) && IdAfter(s.desk.responses[id]) == id)
    && (forall k: nat | Waiting(p, s, k) ::
          IdAfter(k) in s.desk.responses && s.desk.responses[IdAfter(k)] == k)
    && (forall k: nat | k in s.desk.results ::
          Answered(s, k) && p[k - 1] != [] && s.desk.results[k] == ToResult(p[k - 1][0]))
    && (forall k: nat | Answered(s, k) && p[k - 1] != [] :: k in s.desk.results)
  }

  lemma SendKeepsDesk(p: Plan, s: Session, s': Session)
    requires DeskSound(p, s) && Sends(p, s, s')
    ensures DeskSound(p, s')
  {
    var k0 := s.sent + 1;
    forall k: nat | Waiting(p, s, k) ensures IdAfter(k) != IdAfter(k0) {
      IdsRepeat(k, k0);
    }
    assert forall k: nat :: Waiting(p, s', k) <==> Waiting(p, s, k) || (k == k0 && p[s.sent] != []);
  }

  lemma ReceiveKeepsDesk(p: Plan, s: Session, s': Session)
    requires DeskSound(p, s) && Receives(p, s, s')
    ensures DeskSound(p, s')
  {
    var k0 := s.done + 1;
    forall k: nat | Waiting(p, s, k) && k != k0 ensures IdAfter(k) != IdAfter(k0) {
      IdsRepeat(k0, k);
    }
    if s.pos < |p[s.done]| {
      CodeKeepsDesk(p, s, s');
    } else {
      hide IdAfter;
      assert forall k: nat :: Answered(s', k) <==> Answered(s, k) || k == k0;
    }
  }

  lemma CodeKeepsDesk(p: Plan, s: Session, s': Session)
    requires DeskSound(p, s) && Receives(p, s, s') && s.pos < |p[s.done]|
    requires forall k: nat | Waiting(p, s, k) && k != s.done + 1 :: IdAfter(k) != IdAfter(s.done + 1)
    ensures DeskSound(p, s')
  {
    hide IdAfter, ToResult;
    var k0 := s.done + 1;
    assert forall k: nat :: Waiting(p, s', k) <==> Waiting(p, s, k) && k != k0;
    assert forall k: nat :: Answered(s', k) <==> Answered(s, k) || k == k0;
    if s.pos == 0 {
      assert Waiting(p, s, k0);
    } else {
      assert IdAfter(k0) !in s.desk.responses;
    }
  }

  lemma {:induction false} SessionSound(p: Plan, run: seq<Session>, i: nat)
    requires IsSession(p, run) && i < |run|
    ensures DeskSound(p, run[i])
  {
    if i > 0 {
      SessionSound(p, run, i - 1);
      if Sends(p, run[i - 1], run[i]) {
        SendKeepsDesk(p, run[i - 1], run[i]);
      } else {
        ReceiveKeepsDesk(p, run[i - 1], run[i]);
      }
    }
  }

  /** In every interleaving a request is told the first code sent for it, nobody else's, and it is
      told as soon as that code arrives; later codes for it change nothing. */
  lemma WaiterGetsFirstCode(p: Plan, run: seq<Session>, i: nat, k: nat)
    requires IsSession(p, run) && i < |run| && 1 <= k <= |p|
    ensures k in run[i].desk.results <==> Answered(run[i], k) && p[k - 1] != []
    ensures k in run[i].desk.results ==> run[i].desk.results[k] == ToResult(p[k - 1][0])
  {
    SessionSound(p, run, i);
  }

  /** A subscription sent in any session resolves to success exactly when all its topics are allowed. */
  lemma SubscribeResolves(
    p: Plan, run: seq<Session>, i: nat, k: nat, f: Incoming, action: Action, allow: Text -> bool,
    outcome: Result<()>)
    requires IsSession(p, run) && i < |run| && 1 <= k <= |p|
    requires Interpret(f) == Ok(action) && f.op.SubscribeTopic? && f.qos.NeedsAck()
    requires p[k - 1] == AckCodes(f, action, allow, outcome)
    requires k in run[i].desk.results
    ensures run[i].desk.results[k].Ok? <==> forall t | t in action.topics :: allow(t)
  {
    WaiterGetsFirstCode(p, run, i, k);
    SubscribeFirstAck(f, action, allow, outcome);
  }
}
