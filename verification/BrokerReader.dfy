/** The broker's reader loop: what it does with each frame a socket client sends. */
module BrokerReader {
  import opened Bytes
  import opened Protocol
  import opened BrokerClient
  import opened DeliverySpec
  import opened Routing
  import opened Wire
  import opened ReaderSpec
  import opened BrokerDb

  /** The client, as it is now, cannot be sent the acknowledgement. */
  predicate Blocked(f: Incoming, client: BusRtClient)
    reads client`closed, client`queue
  {
    Unanswerable(f, client.closed, |client.queue| >= client.capacity)
  }

  // ----- Lists of topics

  /** A refused topic is reported at once. */
  method Judge(db: BrokerDb, client: BusRtClient, f: Incoming, allowed: bool) returns (ok: bool)
    requires db.Valid() && client in db.all && |f.idBytes| == 4
    modifies db`traffic, client`traffic, client`queue, client`log
    ensures db.Valid()
    ensures ok ==> client.log == old(client.log) + Verdict(f, allowed)
    ensures !ok ==> client.log == old(client.log) && Blocked(f, client)
  {
    hide BrokerDb.ValidBut;
    ghost var before := client.log;
    assert before + [] == before;
    ok := true;
    if !allowed && f.qos.NeedsAck() {
      ok := SendOne(db, client, f, ERR_ACCESS);
    }
  }

  method SendOne(db: BrokerDb, client: BusRtClient, f: Incoming, code: byte) returns (ok: bool)
    requires db.Valid() && client in db.all && |f.idBytes| == 4
    modifies db`traffic, client`traffic, client`queue, client`log
    ensures db.Valid() && db.Snap() == old(db.Snap())
    ensures client in old(db.BoxesNow()) && client in db.BoxesNow()
    ensures ok ==>
      && !client.closed && client.log == old(client.log) + [AckFrame(f.idBytes, code, f.qos.IsRealtime())]
      && FedTo(old(db.BoxesNow()), db.BoxesNow(), {client}, AckFrame(f.idBytes, code, f.qos.IsRealtime()), false)
    ensures !ok ==>
      && (client.closed || |client.queue| >= client.capacity) && client.log == old(client.log)
      && db.BoxesNow() == old(db.BoxesNow())
  {
    hide *;
    db.BoxOf(client);
    ok := db.SendAck(client, f, code);
    db.BoxOf(client);
  }

  /** The first half of a subscription: every topic is checked. */
  method CheckTopics(db: BrokerDb, client: BusRtClient, f: Incoming, parts: seq<seq<byte>>, allow: Text -> bool,
                     ghost before: seq<FrameData>)
    returns (ok: bool, list: seq<Text>, ghost told: nat)
    requires db.Valid() && client in db.all && |f.idBytes| == 4
    requires Checked(before, client.log, f, [], allow, [])
    modifies db`traffic, client`traffic, client`queue, client`log
    ensures db.Valid()
    ensures ok ==> Checked(before, client.log, f, parts, allow, list)
    ensures !ok ==> CheckEnded(before, client.log, f, parts, allow, told, Blocked(f, client))
  {
    hide *;
    ok, list, told := true, [], 0;
    assert parts[..0] == [];
    var i := 0;
    while ok && i < |parts|
      invariant i <= |parts| && db.Valid()
      invariant ok ==> Checked(before, client.log, f, parts[..i], allow, list)
      invariant !ok ==> CheckEnded(before, client.log, f, parts, allow, told, Blocked(f, client))
    {
      assert parts[..i + 1] == parts[..i] + [parts[i]];
      ghost var log, soFar := client.log, list;
      ok, list := CheckNext(db, client, f, parts[..i], parts[i], allow, list, before);
      if !ok {
        told := i;
        CheckingEnds(before, log, f, parts, allow, soFar, i, Blocked(f, client));
      }
      i := i + 1;
    }
    assert ok ==> parts[..i] == parts;
  }

  method CheckNext(db: BrokerDb, client: BusRtClient, f: Incoming, ghost done: seq<seq<byte>>, t: seq<byte>,
                   allow: Text -> bool, soFar: seq<Text>, ghost before: seq<FrameData>)
    returns (ok: bool, list: seq<Text>)
    requires db.Valid() && client in db.all && |f.idBytes| == 4
    requires Checked(before, client.log, f, done, allow, soFar)
    modifies db`traffic, client`traffic, client`queue, client`log
    ensures db.Valid()
    ensures ok ==> Checked(before, client.log, f, done + [t], allow, list)
    ensures !ok ==> client.log == old(client.log) && (!Utf8(t) || Blocked(f, client))
  {
    hide *;
    list := soFar;
    if !Utf8(t) {
      return false, list;
    }
    CheckedOneMore(before, client.log, f, done, allow, soFar, t);
    if allow(t) {
      list := list + [t];
    }
    ok := Judge(db, client, f, allow(t));
  }

  /** The RESPONSE_OK at the end of a list. */
  method Finish(db: BrokerDb, client: BusRtClient, f: Incoming) returns (ok: bool)
    requires db.Valid() && client in db.all && |f.idBytes| == 4
    modifies db`traffic, client`traffic, client`queue, client`log
    ensures db.Valid()
    ensures ok ==> client.log == old(client.log) + Confirmation(f)
    ensures !ok ==> client.log == old(client.log) && Blocked(f, client)
  {
    hide BrokerDb.ValidBut;
    ghost var before := client.log;
    assert before + [] == before;
    ok := true;
    if f.qos.NeedsAck() {
      ok := SendOne(db, client, f, RESPONSE_OK);
    }
  }

  /** SubscribeTopic. */
  method HandleSubscribe(db: BrokerDb, client: BusRtClient, f: Incoming, allow: Text -> bool)
    returns (ok: bool, ghost told: nat)
    requires db.Valid() && client in db.all && |f.idBytes| == 4 && f.op.SubscribeTopic?
    modifies db`topics, db`traffic, client`traffic, client`queue, client`log
    ensures db.Valid()
    ensures ListHandled(ok, f, allow, client.name, client.name in db.subscribers, old(client.log), client.log,
                        old(db.topics), db.topics, client.exclusions, client.exclusions, Blocked(f, client), told)
  {
    hide *;
    ghost var log, topics := client.log, db.topics;
    db.Receive(client, |f.body|);
    var parts := SplitAll(f.body);
    NothingChecked(log, f, allow);
    var list;
    ok, list, told := CheckTopics(db, client, f, parts, allow, log);
    ghost var log1 := client.log;
    if ok {
      told := |parts|;
      db.SubscribeAll(client, list);
      ok := Finish(db, client, f);
      SubscriptionHandled(ok, f, allow, client.name, client.name in db.subscribers, list, log, log1, topics,
                          db.topics, client.exclusions, Blocked(f, client));
    } else {
      SubscriptionRefused(f, allow, client.name, client.name in db.subscribers, log, log1, topics,
                          client.exclusions, Blocked(f, client), told);
    }
  }

  /** UnsubscribeTopic. */
  method HandleUnsubscribe(db: BrokerDb, client: BusRtClient, f: Incoming, ghost allow: Text -> bool)
    returns (ok: bool)
    requires db.Valid() && client in db.all && |f.idBytes| == 4 && f.op.UnsubscribeTopic?
    modifies db`topics, db`traffic, client`traffic, client`queue, client`log
    ensures db.Valid()
    ensures ListHandled(ok, f, allow, client.name, client.name in db.subscribers, old(client.log), client.log,
                        old(db.topics), db.topics, client.exclusions, client.exclusions, Blocked(f, client), 0)
  {
    hide *;
    ghost var log, topics := client.log, db.topics;
    db.Receive(client, |f.body|);
    ok := db.UnsubscribeParts(client, SplitAll(f.body));
    ghost var valid := ok;
    if ok {
      ok := Finish(db, client, f);
    }
    RemovalHandled(ok, valid, f, allow, client.name, client.name in db.subscribers, log, client.log, topics,
                   db.topics, client.exclusions, Blocked(f, client));
  }

  /** ExcludeTopic and UnexcludeTopic: an invalid topic ends the connection with the flag left behind. */
  method HandleExclusions(db: BrokerDb, client: BusRtClient, f: Incoming, ghost allow: Text -> bool)
    returns (ok: bool)
    requires db.Valid() && client in db.all && |f.idBytes| == 4 && (f.op.ExcludeTopic? || f.op.UnexcludeTopic?)
    modifies db`traffic, client`traffic, client`queue, client`log, client`exclusions, client`hasExclusions
    ensures db.ValidBut({client}) && (ok ==> db.Valid())
    ensures ListHandled(ok, f, allow, client.name, client.name in db.subscribers, old(client.log), client.log,
                        db.topics, db.topics, old(client.exclusions), client.exclusions, Blocked(f, client), 0)
    ensures ok && old(client.Cached()) ==> client.Cached()
  {
    hide *;
    ghost var log, exclusions := client.log, client.exclusions;
    db.Receive(client, |f.body|);
    if f.op.ExcludeTopic? {
      ok := db.ExcludeList(client, SplitAll(f.body));
    } else {
      ok := db.UnexcludeList(client, SplitAll(f.body));
    }
    ghost var valid := ok;
    if ok {
      ok := Finish(db, client, f);
      db.ValidButMore({client});
    }
    ExclusionHandled(ok, valid, f, allow, client.name, client.name in db.subscribers, log, client.log, db.topics,
                     exclusions, client.exclusions, Blocked(f, client));
  }

  lemma FourKinds(op: FrameOp)
    requires op.IsTopicList()
    ensures op.SubscribeTopic? || op.UnsubscribeTopic? || op.ExcludeTopic? || op.UnexcludeTopic?
  {
  }

  /** The four operations on lists of topics. */
  method HandleTopics(db: BrokerDb, client: BusRtClient, f: Incoming, allow: Text -> bool)
    returns (ok: bool, ghost told: nat)
    requires db.Valid() && client in db.all && |f.idBytes| == 4 && f.op.IsTopicList()
    modifies db`topics, db`traffic
    modifies client`traffic, client`queue, client`log, client`exclusions, client`hasExclusions
    ensures db.ValidBut({client}) && (ok ==> db.Valid())
    ensures ListHandled(ok, f, allow, client.name, client.name in db.subscribers, old(client.log), client.log,
                        old(db.topics), db.topics, old(client.exclusions), client.exclusions,
                        Blocked(f, client), told)
    ensures ok && old(client.Cached()) ==> client.Cached()
  {
    hide *;
    FourKinds(f.op);
    told := 0;
    if f.op.SubscribeTopic? {
      ok, told := HandleSubscribe(db, client, f, allow);
      db.ValidButMore({client});
    } else if f.op.UnsubscribeTopic? {
      ok := HandleUnsubscribe(db, client, f, allow);
      db.ValidButMore({client});
    } else {
      ok := HandleExclusions(db, client, f, allow);
    }
  }

  /** A list of topics, as a step of the broker. */
  method HandleList(db: BrokerDb, client: BusRtClient, f: Incoming, allow: Text -> bool)
    returns (ok: bool, ghost told: nat)
    requires db.Valid() && client in db.all && |f.idBytes| == 4 && f.op.IsTopicList()
    modifies db`topics, db`traffic
    modifies client`traffic, client`queue, client`log, client`exclusions, client`hasExclusions
    ensures db.ValidBut({client}) && (ok ==> db.Valid())
    ensures var g, g' := old(db.StageNow()), db.StageNow();
      if ok then FrameStep(db.matching, client, f, allow, Ok(()), g, g')
      else FrameBroken(db.matching, client, f, allow, g, g', {}, told)
  {
    hide BrokerDb.Valid, BrokerDb.ValidBut, BrokerDb.StageNow, ListHandled, FrameStep, FrameBroken;
    ok, told := HandleTopics(db, client, f, allow);
    db.OnlyListEffects(client);
    ListConcludes(db.matching, client, f, allow, old(db.StageNow()), db.StageNow(), ok, told);
  }

  // ----- Frames with a target

  function LoadOf(f: Incoming, action: Action): Load
    requires action.Route?
  {
    Load(None, f.body, action.payloadPos, f.qos.IsRealtime())
  }

  lemma FramedMessage(f: Incoming, action: Action, sender: Text)
    requires action.Route?
    ensures Forwarded(f, action, sender) ==
      var load := LoadOf(f, action);
      if f.op.Message? then FrameData(KMessage, Some(sender), None,
                                      load.header, load.buf, load.payloadPos, load.realtime)
      else if f.op.Broadcast? then FrameData(KBroadcast, Some(sender), None,
                                             load.header, load.buf, load.payloadPos, load.realtime)
      else FrameData(KPublish, Some(sender), Some(action.target), load.header, load.buf, load.payloadPos, load.realtime)
  {
  }

  /** Passing an allowed frame on; only a direct message can fail without ending the connection. */
  method Dispatch(db: BrokerDb, client: BusRtClient, f: Incoming, action: Action, ghost allow: Text -> bool)
    returns (ended: bool, outcome: Result<()>, ghost reached: set<BusRtClient>)
    requires db.Valid() && client in db.all && action.Route? && allow(action.target)
    modifies db`clients, db`subscribers, db`topics, db`broadcasts, db`traffic, db`cut
    modifies db.all`registered, db.all`secondaries, db.all`secondariesLocked, db.all`disconnected
    modifies db.all`queue, db.all`log, db.all`closed, db.all`traffic
    ensures db.Valid()
    ensures PassedOn(db.matching, client, f, action, allow, old(db.StageNow()), db.StageNow(),
                     ended, outcome, reached)
  {
    db.StageParts();
    ghost var g := db.StageNow();
    FramedMessage(f, action, client.name);
    hide *;
    outcome := Ok(());
    if f.op.Message? {
      db.SnapKnows(action.target);
      var out := db.SendMessage(client, action.target, LoadOf(f, action), |f.body|);
      ended := out.GivenUp?;
      outcome := if out.Refused? then Err(out.error) else Ok(());
      reached := Target(g.reg, action.target);
      db.StageParts();
      MessagePassedOn(db.matching, client, f, action, allow, g, db.StageNow(), out);
    } else if f.op.Broadcast? {
      var whole;
      whole, reached := db.SendBroadcast(client, action.target, LoadOf(f, action), |f.body|);
      ended := !whole;
      db.StageParts();
      ManyPassedOn(db.matching, client, f, action, allow, g, db.StageNow(), ended, reached);
    } else {
      var whole;
      whole, reached := db.Publish(client, action.target, action.receiver, LoadOf(f, action), |f.body|);
      ended := !whole;
      db.StageParts();
      ManyPassedOn(db.matching, client, f, action, allow, g, db.StageNow(), ended, reached);
    }
  }

  /** A frame is passed on if its sender may send it. */
  method PassOn(db: BrokerDb, client: BusRtClient, f: Incoming, action: Action, allow: Text -> bool)
    returns (ended: bool, outcome: Result<()>, ghost reached: set<BusRtClient>)
    requires db.Valid() && client in db.all && action.Route?
    modifies db`clients, db`subscribers, db`topics, db`broadcasts, db`traffic, db`cut
    modifies db.all`registered, db.all`secondaries, db.all`secondariesLocked, db.all`disconnected
    modifies db.all`queue, db.all`log, db.all`closed, db.all`traffic
    ensures db.Valid()
    ensures PassedOn(db.matching, client, f, action, allow, old(db.StageNow()), db.StageNow(),
                     ended, outcome, reached)
  {
    hide *;
    if !allow(action.target) {
      ForbiddenIsPassedOn(db.matching, client, f, action, allow, db.StageNow());
      return false, Ok(()), {};
    }
    ended, outcome, reached := Dispatch(db, client, f, action, allow);
  }

  /** The acknowledgement of a frame with a target that has been passed on. */
  method Acknowledge(
    db: BrokerDb, client: BusRtClient, f: Incoming, action: Action, allow: Text -> bool, outcome: Result<()>,
    ghost g: Stage, ghost reached: set<BusRtClient>)
    returns (ok: bool)
    requires db.Valid() && client in db.all && |f.idBytes| == 4 && action.Route? && client in g.boxes
    requires PassedOn(db.matching, client, f, action, allow, g, db.StageNow(), false, outcome, reached)
    modifies db`traffic, client`traffic, client`queue, client`log
    ensures db.Valid() && db.Snap() == old(db.Snap()) && client in db.BoxesNow()
    ensures ok ==> RouteServed(f, action, allow, outcome, client, g.boxes, db.BoxesNow(), reached)
    ensures ok ==> SameClosed(old(db.BoxesNow()), db.BoxesNow())
    ensures !ok ==>
      && db.BoxesNow() == old(db.BoxesNow())
      && Unanswerable(f, db.BoxesNow()[client].closed, db.BoxesNow()[client].full)
  {
    db.StageParts();
    hide *;
    ghost var g1 := db.StageNow();
    var code := AckCode(f, action, allow, outcome);
    ok := true;
    db.BoxOf(client);
    if f.qos.NeedsAck() {
      ok := SendOne(db, client, f, code);
    }
    db.BoxOf(client);
    if ok {
      RouteIsDone(db.matching, client, f, action, allow, outcome, g, g1, db.BoxesNow(), reached);
      if f.qos.NeedsAck() {
        AckClosesNothing(g1.boxes, db.BoxesNow(), client, AckFrame(f.idBytes, code, f.qos.IsRealtime()));
      } else {
        SameClosedAsBefore(g1.boxes);
      }
    } else {
      CannotAnswer(f, client.closed, |client.queue| >= client.capacity);
    }
  }

  /** Message, Broadcast, PublishTopic, PublishTopicFor. */
  method HandleRoute(db: BrokerDb, client: BusRtClient, f: Incoming, action: Action, allow: Text -> bool)
    returns (ok: bool, outcome: Result<()>, ghost reached: set<BusRtClient>)
    requires db.Valid() && client in db.all && |f.idBytes| == 4
    requires Interpret(f) == Ok(action) && action.Route? && !f.op.IsTopicList()
    modifies db`clients, db`subscribers, db`topics, db`broadcasts, db`traffic, db`cut
    modifies db.all`registered, db.all`secondaries, db.all`secondariesLocked, db.all`disconnected
    modifies db.all`queue, db.all`log, db.all`closed, db.all`traffic
    ensures db.Valid()
    ensures var g, g' := old(db.StageNow()), db.StageNow();
      if ok then FrameStep(db.matching, client, f, allow, outcome, g, g')
      else FrameBroken(db.matching, client, f, allow, g, g', reached, 0)
  {
    db.StageParts();
    ghost var g := db.StageNow();
    hide *;
    db.BoxOf(client);
    var ended;
    ended, outcome, reached := PassOn(db, client, f, action, allow);
    ghost var g1 := db.StageNow();
    db.StageParts();
    ok := false;
    if !ended {
      ok := Acknowledge(db, client, f, action, allow, outcome, g, reached);
    }
    db.StageParts();
    RouteConcludes(db.matching, client, f, allow, outcome, g, g1, db.StageNow(), reached, ended, ok);
  }

  // ----- Any frame

  /** One frame: it takes the broker a step on, or ends the connection for a reason. */
  method HandleFrame(db: BrokerDb, client: BusRtClient, f: Incoming, allow: Text -> bool)
    returns (ok: bool, outcome: Result<()>, ghost reached: set<BusRtClient>, ghost told: nat)
    requires db.Valid() && client in db.all && |f.idBytes| == 4
    modifies db`clients, db`subscribers, db`topics, db`broadcasts, db`traffic, db`cut
    modifies db.all`registered, db.all`secondaries, db.all`secondariesLocked, db.all`disconnected
    modifies db.all`queue, db.all`log, db.all`closed, db.all`traffic, client`exclusions, client`hasExclusions
    ensures db.ValidBut({client}) && (ok ==> db.Valid())
    ensures var g, g' := old(db.StageNow()), db.StageNow();
      if ok then FrameStep(db.matching, client, f, allow, outcome, g, g')
      else FrameBroken(db.matching, client, f, allow, g, g', reached, told)
  {
    db.StageParts();
    hide *;
    outcome, reached, told := Ok(()), {}, 0;
    if f.op.IsTopicList() {
      ok, told := HandleList(db, client, f, allow);
      return;
    }
    db.BoxOf(client);
    var action := Interpret(f);
    if action.Err? {
      MalformedIsBroken(db.matching, client, f, allow, db.StageNow());
      db.ValidButMore({client});
      return false, outcome, reached, told;
    }
    ActionKinds(f);
    if action.value == Ignored {
      IgnoredIsStep(db.matching, client, f, allow, db.StageNow());
      db.ValidButMore({client});
      return true, outcome, reached, told;
    }
    ok, outcome, reached := HandleRoute(db, client, f, action.value, allow);
    db.ValidButMore({client});
  }
}
