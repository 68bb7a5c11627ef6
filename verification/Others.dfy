/** What happens in the broker between two frames of one connection: any operations of everybody else. */
module Others {
  import opened Bytes
  import opened Protocol
  import opened BrokerClient
  import opened RegistrySpec
  import opened DeliverySpec
  import opened Routing
  import opened Wire
  import opened Acks
  import opened ReaderSpec
  import opened BrokerDb
  import opened BrokerReader

  // ----- As far as one client can tell

  /** Put in the queue of `c` by somebody other than `client`: a ping, an acknowledgement, which goes to
      nobody but the sender of the frame it answers, or a message under the name of its sender. */
  ghost predicate FromOther(client: BusRtClient, c: BusRtClient, f: FrameData, b: Boxes) {
    || f == NOP_FRAME
    || (f.kind == KPrepared && f.sender == None && c != client)
    || (f.kind != KPrepared && exists o :: o in b && o != client && f.sender == Some(o.name))
  }

  /** The broker's invariant, as far as a stage shows it. */
  ghost predicate Steady(g: Stage) {
    && Aligned(g.reg) && g.boxes.Keys == g.reg.all
    && forall c | c in g.boxes && c in g.reg.registered && g.boxes[c].closed :: c.kind == Internal
  }

  /** Frames of others have been added to what a client has been sent; its channel may have been closed. */
  ghost predicate Grown(client: BusRtClient, c: BusRtClient, x: Box, y: Box, b: Boxes) {
    && x.log <= y.log && (x.closed ==> y.closed)
    && forall f | f in y.log[|x.log|..] :: FromOther(client, c, f, b)
  }

  /** From one stage to a later one without a frame of `client`: clients may have come and gone. */
  ghost predicate Between(client: BusRtClient, g: Stage, g': Stage) {
    && Steady(g')
    && forall c | c in g.boxes :: c in g'.boxes && Grown(client, c, g.boxes[c], g'.boxes[c], g'.boxes)
  }

  lemma GrownTwice(client: BusRtClient, c: BusRtClient, x: Box, y: Box, z: Box, b: Boxes, b': Boxes)
    requires Grown(client, c, x, y, b) && Grown(client, c, y, z, b') && forall o | o in b :: o in b'
    ensures Grown(client, c, x, z, b')
  {
    forall f | f in z.log[|x.log|..] ensures FromOther(client, c, f, b') {
      assert z.log[|x.log|..] == y.log[|x.log|..] + z.log[|y.log|..];
      assert f in y.log[|x.log|..] ==> FromOther(client, c, f, b);
    }
  }

  lemma BetweenTwice(client: BusRtClient, g: Stage, g1: Stage, g2: Stage)
    requires Between(client, g, g1) && Between(client, g1, g2)
    ensures Between(client, g, g2)
  {
    hide Steady, Grown;
    forall c | c in g.boxes ensures c in g2.boxes && Grown(client, c, g.boxes[c], g2.boxes[c], g2.boxes) {
      GrownTwice(client, c, g.boxes[c], g1.boxes[c], g2.boxes[c], g1.boxes, g2.boxes);
    }
  }

  /** Nothing has been put in any queue. */
  ghost predicate Quiet(b: Boxes, b': Boxes) {
    forall c | c in b :: c in b' && b'[c].log == b[c].log && (b[c].closed ==> b'[c].closed)
  }

  lemma QuietIsBetween(client: BusRtClient, g: Stage, g': Stage)
    requires Quiet(g.boxes, g'.boxes) && Steady(g')
    ensures Between(client, g, g')
  {
    hide Steady;
  }

  lemma QuietClosing(b: Boxes, c: BusRtClient)
    ensures Quiet(b, WithClosed(b, c))
  {
  }

  lemma QuietConsuming(b: Boxes, b': Boxes)
    requires Consumed(b, b')
    ensures Quiet(b, b')
  {
  }

  /** All that has been queued comes from `o`: pings to it, acknowledgements for it, messages of it. */
  ghost predicate Spread(o: BusRtClient, b: Boxes, b': Boxes) {
    b'.Keys == b.Keys && forall c | c in b :: SentBy(o, c, b[c], b'[c])
  }

  ghost predicate SentBy(o: BusRtClient, c: BusRtClient, x: Box, y: Box) {
    && x.log <= y.log && (x.closed ==> y.closed)
    && forall f | f in y.log[|x.log|..] ::
         f == NOP_FRAME || if f.kind == KPrepared then f.sender == None && c == o else f.sender == Some(o.name)
  }

  lemma SpreadIsBetween(client: BusRtClient, o: BusRtClient, g: Stage, g': Stage)
    requires o != client && o in g.boxes && Spread(o, g.boxes, g'.boxes) && Steady(g')
    ensures Between(client, g, g')
  {
    hide Steady;
    forall c | c in g.boxes ensures Grown(client, c, g.boxes[c], g'.boxes[c], g'.boxes) {
      assert SentBy(o, c, g.boxes[c], g'.boxes[c]);
    }
  }

  lemma KeptIsSentBy(o: BusRtClient, c: BusRtClient, x: Box, y: Box)
    requires y.log == x.log && (x.closed ==> y.closed)
    ensures SentBy(o, c, x, y)
  {
  }

  lemma TookIsSentBy(o: BusRtClient, c: BusRtClient, x: Box, y: Box, frame: FrameData, givenUp: bool)
    requires Took(c.kind, x, y, frame, givenUp)
    requires frame == NOP_FRAME || (frame.kind != KPrepared && frame.sender == Some(o.name))
    ensures SentBy(o, c, x, y)
  {
  }

  lemma FedIsSpread(o: BusRtClient, b: Boxes, b': Boxes, reached: set<BusRtClient>, frame: FrameData, givenUp: bool)
    requires FedTo(b, b', reached, frame, givenUp)
    requires frame == NOP_FRAME || (frame.kind != KPrepared && frame.sender == Some(o.name))
    ensures Spread(o, b, b')
  {
    hide SentBy, Took;
    forall c | c in b ensures SentBy(o, c, b[c], b'[c]) {
      if c in reached {
        TookIsSentBy(o, c, b[c], b'[c], frame, givenUp);
      } else {
        KeptIsSentBy(o, c, b[c], b'[c]);
      }
    }
  }

  /** The sender's own side: its own copy of the frame, then acknowledgements. */
  lemma OwnIsSentBy(o: BusRtClient, x: Box, y: Box, own: seq<FrameData>, acks: seq<FrameData>)
    requires y.log == x.log + own + acks && (x.closed ==> y.closed)
    requires forall f | f in own :: f.kind != KPrepared && f.sender == Some(o.name)
    requires forall f | f in acks :: f.kind == KPrepared && f.sender == None
    ensures SentBy(o, o, x, y)
  {
    assert y.log == x.log + (own + acks);
  }

  lemma AcksPrepared(f: Incoming, codes: seq<byte>)
    requires |f.idBytes| == 4
    ensures forall x | x in AckFrames(f, codes) :: x.kind == KPrepared && x.sender == None
  {
  }

  lemma ForwardedBy(f: Incoming, action: Action, sender: Text)
    requires action.Route?
    ensures Forwarded(f, action, sender).kind != KPrepared && Forwarded(f, action, sender).sender == Some(sender)
  {
  }

  lemma OthersSpread(
    o: BusRtClient, b: Boxes, b': Boxes, reached: set<BusRtClient>, frame: FrameData, givenUp: bool)
    requires FedOthers(b, b', reached, frame, o, givenUp) && o in b && o in b' && SentBy(o, o, b[o], b'[o])
    requires frame.kind != KPrepared && frame.sender == Some(o.name)
    ensures Spread(o, b, b')
  {
    hide SentBy, Took;
    forall c | c in b ensures SentBy(o, c, b[c], b'[c]) {
      if c != o && c in reached {
        TookIsSentBy(o, c, b[c], b'[c], frame, givenUp);
      } else if c != o {
        KeptIsSentBy(o, c, b[c], b'[c]);
      }
    }
  }

  lemma ListSpread(o: BusRtClient, b: Boxes, b': Boxes)
    requires OthersKept(o, b, b') && o in b && o in b' && SentBy(o, o, b[o], b'[o])
    ensures Spread(o, b, b')
  {
    hide SentBy;
    forall c | c in b && c != o ensures SentBy(o, c, b[c], b'[c]) {
      KeptIsSentBy(o, c, b[c], b'[c]);
    }
  }

  lemma ConsumedSpread(o: BusRtClient, b: Boxes, b': Boxes)
    requires Consumed(b, b')
    ensures Spread(o, b, b')
  {
    hide SentBy;
    forall c | c in b ensures SentBy(o, c, b[c], b'[c]) {
      KeptIsSentBy(o, c, b[c], b'[c]);
    }
  }

  lemma StepSpreadsOnly(
    m: Matching, o: BusRtClient, f: Incoming, allow: Text -> bool, outcome: Result<()>, g: Stage, g': Stage)
    requires FrameStep(m, o, f, allow, outcome, g, g')
    ensures Spread(o, g.boxes, g'.boxes)
  {
    var x, y := g.boxes[o], g'.boxes[o];
    match Interpret(f).value {
      case Topics(_) =>
        AcksPrepared(f, AckCodes(f, Interpret(f).value, allow, Ok(())));
        hide Interpret, AckFrames, OthersKept, Spread, SentBy, AckCodes;
        assert x.log + [] == x.log;
        OwnIsSentBy(o, x, y, [], Due(f, allow, Ok(())));
        ListSpread(o, g.boxes, g'.boxes);
      case Route(_, _, _) =>
        var action, to := Interpret(f).value, FrameAddressees(m, g, f, allow);
        var frame := Forwarded(f, action, o.name);
        var own := if RouteDone(f, action, allow, outcome, o, g.boxes, g'.boxes, to, []) then [] else [frame];
        assert RouteDone(f, action, allow, outcome, o, g.boxes, g'.boxes, to, own);
        hide FrameStep, RouteServed, Interpret, FrameAddressees, Spread, SentBy;
        RouteSpread(o, f, action, allow, outcome, g.boxes, g'.boxes, to, own);
      case Ignored =>
        hide Interpret, Spread;
        ConsumedSpread(o, g.boxes, g'.boxes);
    }
  }

  lemma RouteSpread(
    o: BusRtClient, f: Incoming, action: Action, allow: Text -> bool, outcome: Result<()>, b: Boxes, b': Boxes,
    to: set<BusRtClient>, own: seq<FrameData>)
    requires |f.idBytes| == 4 && action.Route?
    requires RouteDone(f, action, allow, outcome, o, b, b', to, own)
    ensures Spread(o, b, b')
  {
    hide Spread, SentBy, FedOthers, Confirms, AllTookBut, AckFrames, AckCodes, Forwarded;
    ForwardedBy(f, action, o.name);
    AcksPrepared(f, AckCodes(f, action, allow, outcome));
    OwnIsSentBy(o, b[o], b'[o], own, AckFrames(f, AckCodes(f, action, allow, outcome)));
    OthersSpread(o, b, b', to, Forwarded(f, action, o.name), false);
  }

  lemma BrokenSpreadsOnly(
    m: Matching, o: BusRtClient, f: Incoming, allow: Text -> bool, g: Stage, g': Stage, reached: set<BusRtClient>,
    told: nat)
    requires FrameBroken(m, o, f, allow, g, g', reached, told)
    ensures Spread(o, g.boxes, g'.boxes)
  {
    var x, y := g.boxes[o], g'.boxes[o];
    assert x.log + [] == x.log;
    hide EndReason, Spread, SentBy, Interpret;
    if f.op.IsTopicList() {
      hide OthersKept, SplitAll;
      var topics := if f.op.SubscribeTopic? then SplitAll(f.body)[..told] else [];
      AcksPrepared(f, if f.qos.NeedsAck() then Denials(topics, allow) else []);
      hide AckFrames;
      OwnIsSentBy(o, x, y, [], if f.op.SubscribeTopic? then DenialsSent(f, topics, allow) else []);
      ListSpread(o, g.boxes, g'.boxes);
    } else if Interpret(f).Ok? && Interpret(f).value.Route? {
      var frame, to := Forwarded(f, Interpret(f).value, o.name), FrameAddressees(m, g, f, allow);
      hide Forwarded, FedTo, FrameAddressees, Cost, Stuck;
      ForwardedBy(f, Interpret(f).value, o.name);
      FedIsSpread(o, g.boxes, g'.boxes, reached, frame, Stuck(g.boxes, g'.boxes, to));
    } else {
      ConsumedSpread(o, g.boxes, g'.boxes);
    }
  }

  // ----- What the others do

  lemma SteadyNow(db: BrokerDb)
    requires db.Valid()
    ensures Steady(db.StageNow())
  {
    hide Aligned;
    hide BrokerDb.BoxesNow;
    forall c | c in db.all ensures c in db.BoxesNow() && db.BoxesNow()[c].closed == c.closed {
      db.BoxOf(c);
    }
    db.SnapKnows([]);
  }

  /** Somebody connects, or an internal client is created. */
  method Arrive(db: BrokerDb, client: BusRtClient)
    requires db.Valid() && client in db.all
    modifies db`all, db`clients, db`subscribers, db`topics, db`broadcasts
    modifies db.all`registered, db.all`secondaries, db.all`secondariesLocked, db.all`disconnected
    ensures db.Valid() && old(db.all) <= db.all && fresh(db.all - old(db.all))
    ensures Between(client, old(db.StageNow()), db.StageNow())
  {
    hide *;
    ghost var g := db.StageNow();
    db.StageParts();
    var name: Text := *;
    var kind: ClientKind := *;
    var capacity: Capacity := *;
    var newcomer, error := db.Register(name, kind, capacity);
    db.BoxesKept();
    db.StageParts();
    SteadyNow(db);
    KeptIsQuiet(g.boxes, db.BoxesNow());
    QuietIsBetween(client, g, db.StageNow());
  }

  lemma KeptIsQuiet(b: Boxes, b': Boxes)
    requires forall c | c in b :: c in b' && b'[c] == b[c]
    ensures Quiet(b, b')
  {
  }

  /** Somebody is dropped, told to disconnect, stops receiving, or the consumers are at work. */
  method Go(db: BrokerDb, client: BusRtClient)
    requires db.Valid() && client in db.all
    modifies db`clients, db`subscribers, db`topics, db`broadcasts
    modifies db.all`registered, db.all`secondaries, db.all`secondariesLocked, db.all`disconnected
    modifies db.all`closed, db.all`queue
    ensures db.Valid() && Between(client, old(db.StageNow()), db.StageNow())
  {
    hide *;
    ghost var g := db.StageNow();
    db.StageParts();
    KeptIsQuiet(g.boxes, g.boxes);
    var o :| o in db.all;
    var choice: int := *;
    if choice == 0 {
      db.Unregister(o);
    } else if choice == 1 {
      var name: Text := *;
      var error := db.TriggerDisconnect(name);
    } else if choice == 2 {
      db.ConsumeValid();
      db.StageParts();
      QuietConsuming(g.boxes, db.BoxesNow());
    } else if o.kind == Internal {
      db.DropReceiver(o);
      QuietClosing(g.boxes, o);
    }
    db.StageParts();
    SteadyNow(db);
    QuietIsBetween(client, g, db.StageNow());
  }

  /** Somebody inside the process subscribes, excludes topics, or takes these back. */
  method Choose(db: BrokerDb, client: BusRtClient)
    requires db.Valid() && client in db.all
    modifies db`topics, db.all`exclusions, db.all`hasExclusions
    ensures db.Valid() && Between(client, old(db.StageNow()), db.StageNow())
  {
    hide *;
    ghost var g := db.StageNow();
    db.StageParts();
    KeptIsQuiet(g.boxes, g.boxes);
    var o :| o in db.all;
    var topic: Text := *;
    db.SnapKnows(topic);
    var choice: int := *;
    if choice == 0 {
      var ok := db.Subscribe(o, topic);
    } else if choice == 1 {
      var ok := db.Unsubscribe(o, topic);
    } else {
      var topics: seq<Text> := *;
      var on: bool := *;
      db.ChangeExclusions(o, topics, on);
      KeptAllAround(db.all, g.boxes, db.BoxesNow());
    }
    db.StageParts();
    SteadyNow(db);
    QuietIsBetween(client, g, db.StageNow());
  }

  lemma KeptAllAround(all: set<BusRtClient>, b: Boxes, b': Boxes)
    requires b.Keys == all
    requires forall c | c in all :: c in b && c in b' && b'[c].log == b[c].log && b'[c].closed == b[c].closed
    ensures Quiet(b, b')
  {
  }

  lemma DeliveredIsSpread(o: BusRtClient, b: Boxes, b': Boxes, tgt: BusRtClient, frame: FrameData, out: Delivery)
    requires Delivered(b, b', tgt, frame, out) && frame.kind != KPrepared && frame.sender == Some(o.name)
    ensures Spread(o, b, b')
  {
    hide Spread;
    FedIsSpread(o, b, b', {tgt}, frame, out.GivenUp?);
  }

  lemma SameIsSpread(o: BusRtClient, b: Boxes)
    ensures Spread(o, b, b)
  {
  }

  /** Somebody inside the process sends, with a header of its own or without. */
  method Speak(db: BrokerDb, client: BusRtClient, o: BusRtClient)
    requires db.Valid() && client in db.all && o in db.all && o != client
    modifies db`clients, db`subscribers, db`topics, db`broadcasts, db`traffic, db`cut
    modifies db.all`registered, db.all`secondaries, db.all`secondariesLocked, db.all`disconnected
    modifies db.all`queue, db.all`log, db.all`closed, db.all`traffic
    ensures db.Valid() && Between(client, old(db.StageNow()), db.StageNow())
  {
    hide *;
    ghost var g := db.StageNow();
    db.StageParts();
    db.BoxOf(o);
    var target: Text, load: Load, len: nat := *, *, *;
    var choice: int := *;
    if choice == 0 {
      ghost var frame := FrameData(KMessage, Some(o.name), None, load.header, load.buf, load.payloadPos, load.realtime);
      ghost var known, tgt := target in db.clients, if target in db.clients then db.clients[target] else o;
      var out := db.SendMessage(o, target, load, len);
      if known {
        DeliveredIsSpread(o, g.boxes, db.BoxesNow(), tgt, frame, out);
      } else {
        SameIsSpread(o, g.boxes);
      }
    } else if choice == 1 {
      ghost var reached;
      var whole;
      ghost var frame := FrameData(KBroadcast, Some(o.name), None,
                                   load.header, load.buf, load.payloadPos, load.realtime);
      whole, reached := db.SendBroadcast(o, target, load, len);
      FedIsSpread(o, g.boxes, db.BoxesNow(), reached, frame, !whole);
    } else {
      var receiver: Option<Text> := *;
      ghost var reached;
      var whole;
      ghost var frame := FrameData(KPublish, Some(o.name), Some(target),
                                   load.header, load.buf, load.payloadPos, load.realtime);
      whole, reached := db.Publish(o, target, receiver, load, len);
      FedIsSpread(o, g.boxes, db.BoxesNow(), reached, frame, !whole);
    }
    db.StageParts();
    SteadyNow(db);
    SpreadIsBetween(client, o, g, db.StageNow());
  }

  /** Somebody else's connection: a frame of it is handled, or a ping is due, or it ends. */
  method Connected(db: BrokerDb, client: BusRtClient, o: BusRtClient)
    requires db.Valid() && client in db.all && o in db.all && o != client
    modifies db`clients, db`subscribers, db`topics, db`broadcasts, db`traffic, db`cut
    modifies db.all`registered, db.all`secondaries, db.all`secondariesLocked, db.all`disconnected
    modifies db.all`queue, db.all`log, db.all`closed, db.all`traffic, o`exclusions, o`hasExclusions
    ensures db.Valid() && Between(client, old(db.StageNow()), db.StageNow())
  {
    hide *;
    ghost var g := db.StageNow();
    db.StageParts();
    db.BoxOf(o);
    SameIsSpread(o, g.boxes);
    db.ValidButMore({o});
    var ok := false;
    var f: Incoming := *;
    var ping: bool := *;
    if ping {
      ok := db.Ping(o);
      if ok {
        FedIsSpread(o, g.boxes, db.BoxesNow(), {o}, NOP_FRAME, false);
      }
      db.ValidButMore({o});
    } else if |f.idBytes| == 4 {
      var allow: Text -> bool := *;
      var outcome;
      ghost var reached, told;
      ok, outcome, reached, told := HandleFrame(db, o, f, allow);
      if ok {
        StepSpreadsOnly(db.matching, o, f, allow, outcome, g, db.StageNow());
      } else {
        BrokenSpreadsOnly(db.matching, o, f, allow, g, db.StageNow(), reached, told);
      }
    }
    db.StageParts();
    ghost var b := db.BoxesNow();
    if !ok {
      db.LeaveAtLast(o);
      SpreadThenClosed(o, g.boxes, b, o);
    }
    db.StageParts();
    SteadyNow(db);
    SpreadIsBetween(client, o, g, db.StageNow());
  }

  lemma SpreadThenClosed(o: BusRtClient, b: Boxes, b': Boxes, c: BusRtClient)
    requires Spread(o, b, b')
    ensures Spread(o, b, WithClosed(b', c))
  {
    forall x | x in b ensures SentBy(o, x, b[x], WithClosed(b', c)[x]) {
      assert SentBy(o, x, b[x], b'[x]);
    }
  }

  /** The connection's own pinger, as long as there is room. */
  method OwnPing(db: BrokerDb, client: BusRtClient)
    requires db.Valid() && client in db.all
    modifies client`queue, client`log
    ensures db.Valid() && Between(client, old(db.StageNow()), db.StageNow())
  {
    hide *;
    ghost var g := db.StageNow();
    db.StageParts();
    SteadyNow(db);
    KeptIsQuiet(g.boxes, g.boxes);
    QuietIsBetween(client, g, g);
    if !client.QueueFull() {
      var ok := db.Ping(client);
      db.StageParts();
      SteadyNow(db);
      if ok {
        PingIsBetween(client, g, db.StageNow());
      }
    }
  }

  lemma PingIsBetween(client: BusRtClient, g: Stage, g': Stage)
    requires FedTo(g.boxes, g'.boxes, {client}, NOP_FRAME, false) && Steady(g')
    ensures Between(client, g, g')
  {
    hide Steady;
    forall c | c in g.boxes ensures Grown(client, c, g.boxes[c], g'.boxes[c], g'.boxes) {
      if c == client {
        assert Took(c.kind, g.boxes[c], g'.boxes[c], NOP_FRAME, false);
      } else {
        assert Kept(g.boxes[c], g'.boxes[c]);
      }
    }
  }

  /** Any number of operations of the others, in any order. */
  method LetOthersAct(db: BrokerDb, client: BusRtClient)
    requires db.Valid() && client in db.all
    modifies db`all, db`clients, db`subscribers, db`topics, db`broadcasts, db`traffic, db`cut
    modifies db.all`registered, db.all`secondaries, db.all`secondariesLocked, db.all`disconnected
    modifies db.all`queue, db.all`log, db.all`closed, db.all`traffic, db.all`exclusions, db.all`hasExclusions
    ensures db.Valid() && old(db.all) <= db.all && fresh(db.all - old(db.all))
    ensures Between(client, old(db.StageNow()), db.StageNow())
  {
    hide *;
    ghost var g := db.StageNow();
    SteadyNow(db);
    QuietIsBetween(client, g, g) by { KeptIsQuiet(g.boxes, g.boxes); }
    var n: nat := *;
    while n > 0
      invariant db.Valid() && old(db.all) <= db.all && fresh(db.all - old(db.all))
      invariant Between(client, g, db.StageNow())
    {
      ghost var g1 := db.StageNow();
      ActOnce(db, client);
      BetweenTwice(client, g, g1, db.StageNow());
      n := n - 1;
    }
  }

  method ActOnce(db: BrokerDb, client: BusRtClient)
    requires db.Valid() && client in db.all
    modifies db`all, db`clients, db`subscribers, db`topics, db`broadcasts, db`traffic, db`cut
    modifies db.all`registered, db.all`secondaries, db.all`secondariesLocked, db.all`disconnected
    modifies db.all`queue, db.all`log, db.all`closed, db.all`traffic, db.all`exclusions, db.all`hasExclusions
    ensures db.Valid() && old(db.all) <= db.all && fresh(db.all - old(db.all))
    ensures Between(client, old(db.StageNow()), db.StageNow())
  {
    hide *;
    var o :| o in db.all;
    var choice: int := *;
    if choice == 0 {
      Arrive(db, client);
    } else if choice == 1 {
      Choose(db, client);
    } else if choice == 2 && o != client {
      Speak(db, client, o);
    } else if choice == 3 && o != client {
      Connected(db, client, o);
    } else if choice == 4 {
      OwnPing(db, client);
    } else {
      Go(db, client);
    }
  }
}
