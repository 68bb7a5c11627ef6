/** What a frame from a socket client does to the broker, as a relation between snapshots. */
module ReaderSpec {
  import opened Bytes
  import opened Protocol
  import opened BrokerClient
  import opened RegistrySpec
  import opened DeliverySpec
  import opened Routing
  import opened Wire
  import opened Acks

  // ----- Acknowledgements as they are queued

  function AckFrames(f: Incoming, codes: seq<byte>): (acks: seq<FrameData>)
    requires |f.idBytes| == 4
    ensures |acks| == |codes|
  {
    seq(|codes|, i requires 0 <= i < |codes| => AckFrame(f.idBytes, codes[i], f.qos.IsRealtime()))
  }

  lemma AckFramesSnoc(f: Incoming, codes: seq<byte>, code: byte)
    requires |f.idBytes| == 4
    ensures AckFrames(f, codes + [code]) == AckFrames(f, codes) + [AckFrame(f.idBytes, code, f.qos.IsRealtime())]
  {
  }

  /** The acknowledgements due for a frame. */
  function Due(f: Incoming, allow: Text -> bool, outcome: Result<()>): seq<FrameData>
    requires |f.idBytes| == 4 && Interpret(f).Ok?
  {
    AckFrames(f, AckCodes(f, Interpret(f).value, allow, outcome))
  }

  /** What a subscriber has been sent for the topics refused so far. */
  function DenialsSent(f: Incoming, topics: seq<Text>, allow: Text -> bool): seq<FrameData>
    requires |f.idBytes| == 4
  {
    AckFrames(f, if f.qos.NeedsAck() then Denials(topics, allow) else [])
  }

  function Verdict(f: Incoming, allowed: bool): seq<FrameData>
    requires |f.idBytes| == 4
  {
    if allowed || !f.qos.NeedsAck() then [] else [AckFrame(f.idBytes, ERR_ACCESS, f.qos.IsRealtime())]
  }

  lemma DenialsSentSnoc(f: Incoming, topics: seq<Text>, t: Text, allow: Text -> bool)
    requires |f.idBytes| == 4
    ensures DenialsSent(f, topics + [t], allow) == DenialsSent(f, topics, allow) + Verdict(f, allow(t))
  {
    DenialsSnoc(topics, t, allow);
    if f.qos.NeedsAck() && !allow(t) {
      AckFramesSnoc(f, Denials(topics, allow), ERR_ACCESS);
    }
  }

  function Confirmation(f: Incoming): seq<FrameData>
    requires |f.idBytes| == 4
  {
    if f.qos.NeedsAck() then [AckFrame(f.idBytes, RESPONSE_OK, f.qos.IsRealtime())] else []
  }

  lemma DueForList(f: Incoming, allow: Text -> bool)
    requires |f.idBytes| == 4 && f.op.IsTopicList() && forall t | t in SplitAll(f.body) :: Utf8(t)
    ensures Interpret(f) == Ok(Topics(SplitAll(f.body)))
    ensures Due(f, allow, Ok(())) ==
      (if f.op.SubscribeTopic? then DenialsSent(f, SplitAll(f.body), allow) else []) + Confirmation(f)
  {
    hide SplitAll, Utf8;
    var parts := SplitAll(f.body);
    if f.qos.NeedsAck() {
      AckFramesSnoc(f, if f.op.SubscribeTopic? then Denials(parts, allow) else [], RESPONSE_OK);
    }
  }

  lemma Regroup<T>(a: seq<T>, b: seq<T>, c: seq<T>)
    ensures a + b + c == a + (b + c)
  {
  }

  /** Some topics are checked: they are valid, refusals have been reported, the others are listed. */
  ghost predicate Checked(
    before: seq<FrameData>, log: seq<FrameData>, f: Incoming, parts: seq<seq<byte>>, allow: Text -> bool,
    list: seq<Text>)
    requires |f.idBytes| == 4
  {
    && (forall t | t in parts :: Utf8(t))
    && log == before + DenialsSent(f, parts, allow)
    && forall t :: t in list <==> t in parts && allow(t)
  }

  lemma CheckedOneMore(
    before: seq<FrameData>, log: seq<FrameData>, f: Incoming, parts: seq<seq<byte>>, allow: Text -> bool,
    list: seq<Text>, t: Text)
    requires |f.idBytes| == 4 && Checked(before, log, f, parts, allow, list) && Utf8(t)
    ensures Checked(before, log + Verdict(f, allow(t)), f, parts + [t], allow,
      if allow(t) then list + [t] else list)
  {
    hide Utf8, DenialsSent, Verdict;
    DenialsSentSnoc(f, parts, t, allow);
  }

  lemma NothingChecked(log: seq<FrameData>, f: Incoming, allow: Text -> bool)
    requires |f.idBytes| == 4
    ensures Checked(log, log, f, [], allow, [])
  {
    assert DenialsSent(f, [], allow) == [];
  }

  /** Checking has ended early: at a topic that is not valid, or whose refusal cannot be reported. */
  ghost predicate CheckEnded(
    before: seq<FrameData>, log: seq<FrameData>, f: Incoming, parts: seq<seq<byte>>, allow: Text -> bool,
    told: nat, blocked: bool)
    requires |f.idBytes| == 4
  {
    && told < |parts| && log == before + DenialsSent(f, parts[..told], allow)
    && (!Utf8(parts[told]) || blocked)
  }

  lemma CheckingEnds(
    before: seq<FrameData>, log: seq<FrameData>, f: Incoming, parts: seq<seq<byte>>, allow: Text -> bool,
    list: seq<Text>, told: nat, blocked: bool)
    requires |f.idBytes| == 4 && told < |parts| && Checked(before, log, f, parts[..told], allow, list)
    requires !Utf8(parts[told]) || blocked
    ensures CheckEnded(before, log, f, parts, allow, told, blocked)
  {
    hide Utf8, DenialsSent;
  }

  // ----- Lists of topics

  /** What is subscribed to after a list of topics, if the subscription map has a client of that name. */
  function TopicsAfter(op: FrameOp, parts: seq<Text>, allow: Text -> bool, name: Text, topics: set<(Text, Text)>)
    : set<(Text, Text)>
  {
    if op.SubscribeTopic? then topics + set t | t in parts && allow(t) :: (t, name)
    else if op.UnsubscribeTopic? then topics - set t | t in parts :: (t, name)
    else topics
  }

  function ExclusionsAfter(op: FrameOp, parts: seq<Text>, exclusions: set<Text>): set<Text> {
    if op.ExcludeTopic? then exclusions + set t | t in parts
    else if op.UnexcludeTopic? then exclusions - set t | t in parts
    else exclusions
  }

  predicate FlagRight(x: Box) {
    x.hasExclusions <==> x.exclusions != {}
  }

  /** The sender of a handled list has been sent the acknowledgements due, and its exclusions are what the
      list makes of them. */
  ghost predicate ListAnswered(f: Incoming, allow: Text -> bool, x: Box, y: Box)
    requires |f.idBytes| == 4
  {
    && Interpret(f) == Ok(Topics(SplitAll(f.body)))
    && y.log == x.log + Due(f, allow, Ok(())) && y.closed == x.closed
    && y.exclusions == ExclusionsAfter(f.op, SplitAll(f.body), x.exclusions)
    && (FlagRight(x) ==> FlagRight(y))
  }

  /** Subscriptions change exactly as the list says, and nothing else in the directory does. */
  ghost predicate ListEntered(f: Incoming, allow: Text -> bool, name: Text, s: Reg, s': Reg) {
    s' == s.(topics := if name in s.subscribers
                       then TopicsAfter(f.op, SplitAll(f.body), allow, name, s.topics) else s.topics)
  }

  /** What a handler of a list has done: all of it, or, if a topic is not valid or an acknowledgement cannot
      be sent, some of it. */
  ghost predicate ListHandled(
    ok: bool, f: Incoming, allow: Text -> bool, name: Text, present: bool, log: seq<FrameData>, log': seq<FrameData>,
    topics: set<(Text, Text)>, topics': set<(Text, Text)>, exclusions: set<Text>, exclusions': set<Text>,
    blocked: bool, told: nat)
    requires |f.idBytes| == 4
  {
    var parts := SplitAll(f.body);
    if ok then
      && (forall t | t in parts :: Utf8(t))
      && log' == log + ((if f.op.SubscribeTopic? then DenialsSent(f, parts, allow) else []) + Confirmation(f))
      && topics' == (if present then TopicsAfter(f.op, parts, allow, name, topics) else topics)
      && exclusions' == ExclusionsAfter(f.op, parts, exclusions)
    else
      && (blocked || exists t :: t in parts && !Utf8(t))
      && told <= |parts|
      && log' == log + (if f.op.SubscribeTopic? then DenialsSent(f, parts[..told], allow) else [])
      && OthersTopicsKept(name, topics, topics')
  }

  lemma SubscriptionHandled(
    ok: bool, f: Incoming, allow: Text -> bool, name: Text, present: bool, list: seq<Text>, log: seq<FrameData>,
    log1: seq<FrameData>, topics: set<(Text, Text)>, topics': set<(Text, Text)>, exclusions: set<Text>, blocked: bool)
    requires |f.idBytes| == 4 && f.op.SubscribeTopic? && (!ok ==> blocked)
    requires Checked(log, log1, f, SplitAll(f.body), allow, list)
    requires topics' == if present then topics + (set t | t in list :: (t, name)) else topics
    ensures ListHandled(ok, f, allow, name, present, log, if ok then log1 + Confirmation(f) else log1,
                        topics, topics', exclusions, exclusions, blocked, |SplitAll(f.body)|)
  {
    hide SplitAll, Utf8, DenialsSent, Confirmation;
    var parts := SplitAll(f.body);
    assert parts[..|parts|] == parts;
    Regroup(log, DenialsSent(f, parts, allow), Confirmation(f));
  }

  lemma SubscriptionRefused(
    f: Incoming, allow: Text -> bool, name: Text, present: bool, log: seq<FrameData>, log1: seq<FrameData>,
    topics: set<(Text, Text)>, exclusions: set<Text>, blocked: bool, told: nat)
    requires |f.idBytes| == 4 && f.op.SubscribeTopic?
    requires CheckEnded(log, log1, f, SplitAll(f.body), allow, told, blocked)
    ensures ListHandled(false, f, allow, name, present, log, log1, topics, topics, exclusions, exclusions,
                        blocked, told)
  {
    hide SplitAll, Utf8, DenialsSent;
  }

  lemma RemovalHandled(
    ok: bool, valid: bool, f: Incoming, allow: Text -> bool, name: Text, present: bool, log: seq<FrameData>,
    log': seq<FrameData>, topics: set<(Text, Text)>, topics': set<(Text, Text)>, exclusions: set<Text>, blocked: bool)
    requires |f.idBytes| == 4 && f.op.UnsubscribeTopic?
    requires ok ==> valid && log' == log + Confirmation(f)
    requires !ok ==> log' == log && (blocked || !valid)
    requires valid <==> forall t | t in SplitAll(f.body) :: Utf8(t)
    requires valid && present ==> topics' == topics - set t | t in SplitAll(f.body) :: (t, name)
    requires !present ==> topics' == topics
    requires OthersTopicsKept(name, topics, topics')
    ensures ListHandled(ok, f, allow, name, present, log, log', topics, topics', exclusions, exclusions, blocked, 0)
  {
    hide SplitAll, Utf8, DenialsSent, Confirmation, OthersTopicsKept;
    assert valid && present ==> topics' == TopicsAfter(f.op, SplitAll(f.body), allow, name, topics);
    hide TopicsAfter;
    assert [] + Confirmation(f) == Confirmation(f) && log + [] == log;
  }

  lemma ExclusionHandled(
    ok: bool, valid: bool, f: Incoming, allow: Text -> bool, name: Text, present: bool, log: seq<FrameData>,
    log': seq<FrameData>, topics: set<(Text, Text)>, exclusions: set<Text>, exclusions': set<Text>, blocked: bool)
    requires |f.idBytes| == 4 && (f.op.ExcludeTopic? || f.op.UnexcludeTopic?)
    requires ok ==> valid && log' == log + Confirmation(f)
    requires !ok ==> log' == log && (blocked || !valid)
    requires valid <==> forall t | t in SplitAll(f.body) :: Utf8(t)
    requires valid && f.op.ExcludeTopic? ==> exclusions' == exclusions + set t | t in SplitAll(f.body)
    requires valid && f.op.UnexcludeTopic? ==> exclusions' == exclusions - set t | t in SplitAll(f.body)
    ensures ListHandled(ok, f, allow, name, present, log, log', topics, topics, exclusions, exclusions', blocked, 0)
  {
    hide SplitAll, Utf8, DenialsSent, Confirmation;
    assert [] + Confirmation(f) == Confirmation(f) && log + [] == log;
  }

  /** Nobody else's queue has changed, except by its consumer. */
  ghost predicate OthersKept(client: BusRtClient, b: Boxes, b': Boxes) {
    b'.Keys == b.Keys && forall c | c in b && c != client :: Kept(b[c], b'[c])
  }

  // ----- Frames with a target

  /** A direct message is confirmed exactly if there is an addressee and it has taken the frame; if not,
      the error says whether there was none, its queue was full, or its channel was closed. */
  ghost predicate Confirms(outcome: Result<()>, b: Boxes, reached: set<BusRtClient>, taken: bool) {
    && (outcome.Ok? <==> reached != {} && taken)
    && (outcome.Err? ==>
          if reached == {} then outcome.error == NotRegistered
          else exists c :: c in reached && Refuses(b, c, outcome.error))
  }

  /** Why a client does not take a message. */
  predicate Refuses(b: Boxes, c: BusRtClient, error: ErrorKind) {
    c in b && ((error == NotDelivered && Overruns(b, c)) || (error == Eof && b[c].closed))
  }

  ghost predicate AllTook(b: Boxes, b': Boxes, reached: set<BusRtClient>, frame: FrameData) {
    forall c | c in reached :: c in b && c in b' && b'[c].log == b[c].log + [frame]
  }

  /** The same where the sender, who gets its own copy before the acknowledgement, may be among them. */
  ghost predicate AllTookBut(
    b: Boxes, b': Boxes, reached: set<BusRtClient>, frame: FrameData, client: BusRtClient, own: seq<FrameData>)
  {
    forall c | c in reached ::
      c in b && c in b' && if c == client then own == [frame] else b'[c].log == b[c].log + [frame]
  }

  /** The sender's own side of a frame that has been passed on. */
  ghost predicate OwnSide(
    client: BusRtClient, x: Box, y: Box, reached: set<BusRtClient>, frame: FrameData, own: seq<FrameData>)
  {
    && (own == [] || (own == [frame] && client in reached))
    && y.exclusions == x.exclusions && y.hasExclusions == x.hasExclusions
    && (x.closed ==> y.closed)
    && (y.closed && !x.closed ==> client in reached && x.full && client.kind != Internal)
  }

  /** A frame has been passed on: the addressees have it, nobody else has got anything, and the sender
      has been sent, after its own copy if it is an addressee, the one acknowledgement it asked for. */
  ghost predicate RouteDone(
    f: Incoming, action: Action, allow: Text -> bool, outcome: Result<()>, client: BusRtClient,
    b: Boxes, b': Boxes, reached: set<BusRtClient>, own: seq<FrameData>)
    requires |f.idBytes| == 4 && action.Route?
  {
    var frame := Forwarded(f, action, client.name);
    && client in b && client in b' && FedOthers(b, b', reached, frame, client, false)
    && OwnSide(client, b[client], b'[client], reached, frame, own)
    && (client in reached && own == [] ==> b'[client].closed)
    && b'[client].log == b[client].log + own + AckFrames(f, AckCodes(f, action, allow, outcome))
    && (f.op.Message? && allow(action.target) ==>
          Confirms(outcome, b, reached, AllTookBut(b, b', reached, frame, client, own)))
  }

  ghost predicate RouteServed(
    f: Incoming, action: Action, allow: Text -> bool, outcome: Result<()>, client: BusRtClient,
    b: Boxes, b': Boxes, reached: set<BusRtClient>)
    requires |f.idBytes| == 4 && action.Route?
  {
    || RouteDone(f, action, allow, outcome, client, b, b', reached, [])
    || RouteDone(f, action, allow, outcome, client, b, b', reached, [Forwarded(f, action, client.name)])
  }

  // ----- Any frame

  /** What a frame does if its handling does not end the connection. */
  ghost predicate FrameStep(
    m: Matching, client: BusRtClient, f: Incoming, allow: Text -> bool, outcome: Result<()>, g: Stage, g': Stage)
  {
    && |f.idBytes| == 4 && Interpret(f).Ok?
    && client in g.boxes && client in g'.boxes && g'.boxes.Keys == g.boxes.Keys
    && match Interpret(f).value
       case Topics(_) =>
         && OthersKept(client, g.boxes, g'.boxes)
         && ListAnswered(f, allow, g.boxes[client], g'.boxes[client])
         && ListEntered(f, allow, client.name, g.reg, g'.reg)
       case Route(_, _, _) =>
         var to := FrameAddressees(m, g, f, allow);
         && RouteServed(f, Interpret(f).value, allow, outcome, client, g.boxes, g'.boxes, to)
         && Cost(g.reg, g'.reg, g.boxes, g'.boxes, to)
       case Ignored => Consumed(g.boxes, g'.boxes) && g'.reg == g.reg
  }

  /** Why an acknowledgement is not sent: the channel is closed, or waiting for room has been given up. */
  predicate Unanswerable(f: Incoming, closed: bool, full: bool) {
    f.qos.NeedsAck() && (closed || full)
  }

  /** Why a frame ends the connection: it is malformed, it cannot be acknowledged, or waiting for room in
      the queue of an addressee has been given up. */
  ghost predicate EndReason(
    m: Matching, client: BusRtClient, f: Incoming, allow: Text -> bool, g: Stage, g': Stage)
  {
    || Interpret(f).Err?
    || (client in g'.boxes && Unanswerable(f, g'.boxes[client].closed, g'.boxes[client].full))
    || Stuck(g.boxes, g'.boxes, FrameAddressees(m, g, f, allow))
  }

  /** What a frame that ends the connection leaves behind: refusals of some topics at the front of its
      list and changes to its sender's own subscriptions and exclusions; or its message in some of the
      addressees' queues. */
  ghost predicate FrameBroken(
    m: Matching, client: BusRtClient, f: Incoming, allow: Text -> bool, g: Stage, g': Stage,
    reached: set<BusRtClient>, told: nat)
  {
    && |f.idBytes| == 4 && client in g.boxes && client in g'.boxes && g'.boxes.Keys == g.boxes.Keys
    && EndReason(m, client, f, allow, g, g')
    && if f.op.IsTopicList() then
         && OthersKept(client, g.boxes, g'.boxes) && told <= |SplitAll(f.body)|
         && g'.boxes[client].closed == g.boxes[client].closed
         && g'.boxes[client].log == g.boxes[client].log +
              (if f.op.SubscribeTopic? then DenialsSent(f, SplitAll(f.body)[..told], allow) else [])
         && g'.reg == g.reg.(topics := g'.reg.topics)
         && OthersTopicsKept(client.name, g.reg.topics, g'.reg.topics)
       else if Interpret(f).Ok? && Interpret(f).value.Route? then
         var frame := Forwarded(f, Interpret(f).value, client.name);
         var to := FrameAddressees(m, g, f, allow);
         && reached <= to && (reached == to || Stuck(g.boxes, g'.boxes, to))
         && FedTo(g.boxes, g'.boxes, reached, frame, Stuck(g.boxes, g'.boxes, to))
         && Cost(g.reg, g'.reg, g.boxes, g'.boxes, to)
       else Consumed(g.boxes, g'.boxes) && g'.reg == g.reg
  }

  // ----- From what the handlers do to what a frame does

  lemma ListMalformed(f: Incoming)
    requires f.op.IsTopicList() && exists t :: t in SplitAll(f.body) && !Utf8(t)
    ensures Interpret(f).Err?
  {
    hide SplitAll, Utf8;
  }

  lemma ListIsStep(
    m: Matching, client: BusRtClient, f: Incoming, allow: Text -> bool, g: Stage, g': Stage, told: nat)
    requires |f.idBytes| == 4 && f.op.IsTopicList() && client in g.boxes && client in g'.boxes
    requires OthersKept(client, g.boxes, g'.boxes) && g'.reg == g.reg.(topics := g'.reg.topics)
    requires var x, y := g.boxes[client], g'.boxes[client];
      && y.closed == x.closed && (FlagRight(x) ==> FlagRight(y))
      && ListHandled(true, f, allow, client.name, client.name in g.reg.subscribers, x.log, y.log,
                     g.reg.topics, g'.reg.topics, x.exclusions, y.exclusions, Unanswerable(f, y.closed, y.full), told)
    ensures FrameStep(m, client, f, allow, Ok(()), g, g')
  {
    DueForList(f, allow);
    hide SplitAll, Utf8, Due, DenialsSent, Confirmation, TopicsAfter, ExclusionsAfter, OthersKept, Interpret;
  }

  lemma ListIsBroken(
    m: Matching, client: BusRtClient, f: Incoming, allow: Text -> bool, g: Stage, g': Stage, told: nat)
    requires |f.idBytes| == 4 && f.op.IsTopicList() && client in g.boxes && client in g'.boxes
    requires OthersKept(client, g.boxes, g'.boxes) && g'.reg == g.reg.(topics := g'.reg.topics)
    requires var x, y := g.boxes[client], g'.boxes[client];
      && y.closed == x.closed
      && ListHandled(false, f, allow, client.name, client.name in g.reg.subscribers, x.log, y.log,
                     g.reg.topics, g'.reg.topics, x.exclusions, y.exclusions, Unanswerable(f, y.closed, y.full), told)
    ensures FrameBroken(m, client, f, allow, g, g', {}, told)
  {
    if !Unanswerable(f, g'.boxes[client].closed, g'.boxes[client].full) {
      ListMalformed(f);
    }
    hide SplitAll, Utf8, DenialsSent, OthersTopicsKept, Interpret, Stuck, Unanswerable, OthersKept;
    assert g'.boxes.Keys == g.boxes.Keys by { KeysKept(client, g.boxes, g'.boxes); }
  }

  lemma KeysKept(client: BusRtClient, b: Boxes, b': Boxes)
    requires OthersKept(client, b, b')
    ensures b'.Keys == b.Keys
  {
  }

  /** A frame on its way: passed on to everybody it is for, or cut short. */
  ghost predicate PassedOn(
    m: Matching, client: BusRtClient, f: Incoming, action: Action, allow: Text -> bool, g: Stage, g': Stage,
    ended: bool, outcome: Result<()>, reached: set<BusRtClient>)
    requires action.Route?
  {
    var to, frame := Addressees(m, g, f, action, allow), Forwarded(f, action, client.name);
    && reached <= to && (!ended ==> reached == to)
    && FedTo(g.boxes, g'.boxes, reached, frame, ended)
    && (ended ==> Stuck(g.boxes, g'.boxes, to))
    && Cost(g.reg, g'.reg, g.boxes, g'.boxes, to)
    && (!ended && f.op.Message? && allow(action.target) ==>
          Confirms(outcome, g.boxes, reached, AllTook(g.boxes, g'.boxes, reached, frame)))
  }

  lemma ForbiddenIsPassedOn(
    m: Matching, client: BusRtClient, f: Incoming, action: Action, allow: Text -> bool, g: Stage)
    requires action.Route? && !allow(action.target)
    ensures PassedOn(m, client, f, action, allow, g, g, false, Ok(()), {})
  {
    FedNobody(g.boxes, Forwarded(f, action, client.name));
    NoCost(g.reg, g.boxes, {});
    hide FedTo, Cost, Forwarded;
  }

  function AckCode(f: Incoming, action: Action, allow: Text -> bool, outcome: Result<()>): byte
    requires action.Route?
  {
    if !allow(action.target) then ERR_ACCESS
    else if f.op.Message? && outcome.Err? then outcome.error.Code() else RESPONSE_OK
  }

  lemma DueForRoute(f: Incoming, action: Action, allow: Text -> bool, outcome: Result<()>)
    requires |f.idBytes| == 4 && action.Route?
    ensures AckFrames(f, AckCodes(f, action, allow, outcome)) ==
      if f.qos.NeedsAck() then [AckFrame(f.idBytes, AckCode(f, action, allow, outcome), f.qos.IsRealtime())] else []
  {
  }

  /** After the frame has been passed on and, if need be, acknowledged. */
  lemma RouteIsDone(
    m: Matching, client: BusRtClient, f: Incoming, action: Action, allow: Text -> bool, outcome: Result<()>,
    g: Stage, g1: Stage, b2: Boxes, reached: set<BusRtClient>)
    requires |f.idBytes| == 4 && action.Route? && client in g.boxes
    requires PassedOn(m, client, f, action, allow, g, g1, false, outcome, reached)
    requires var ack := AckFrame(f.idBytes, AckCode(f, action, allow, outcome), f.qos.IsRealtime());
      if f.qos.NeedsAck()
      then client in b2 && FedTo(g1.boxes, b2, {client}, ack, false) && !b2[client].closed
      else b2 == g1.boxes
    ensures RouteServed(f, action, allow, outcome, client, g.boxes, b2, reached)
  {
    DueForRoute(f, action, allow, outcome);
    var frame := Forwarded(f, action, client.name);
    var own := if client in reached && !g1.boxes[client].closed then [frame] else [];
    var acks := AckFrames(f, AckCodes(f, action, allow, outcome));
    hide Addressees, Forwarded, AckCodes, AckFrames, AckCode, Cost;
    assert g1.boxes[client].log == g.boxes[client].log + own;
    assert b2[client].log == g.boxes[client].log + own + acks by {
      assert g.boxes[client].log + own + [] == g.boxes[client].log + own;
    }
    OthersAfterAck(g.boxes, g1.boxes, b2, reached, frame, client, acks);
    SameTakers(g.boxes, g1.boxes, b2, reached, frame, client, own);
    assert RouteDone(f, action, allow, outcome, client, g.boxes, b2, reached, own);
  }

  lemma OthersAfterAck(
    b: Boxes, b1: Boxes, b2: Boxes, reached: set<BusRtClient>, frame: FrameData, client: BusRtClient,
    acks: seq<FrameData>)
    requires FedTo(b, b1, reached, frame, false)
    requires b2 == b1 || (acks != [] && FedTo(b1, b2, {client}, acks[0], false))
    ensures FedOthers(b, b2, reached, frame, client, false)
  {
  }

  lemma SameTakers(
    b: Boxes, b1: Boxes, b2: Boxes, reached: set<BusRtClient>, frame: FrameData, client: BusRtClient,
    own: seq<FrameData>)
    requires b1.Keys == b.Keys && b2.Keys == b.Keys && client in b
    requires b1[client].log == b[client].log + own && (own == [] || own == [frame])
    requires forall c | c in b && c != client :: b2[c].log == b1[c].log
    ensures AllTookBut(b, b2, reached, frame, client, own) <==> AllTook(b, b1, reached, frame)
  {
  }

  lemma RouteIsStep(
    m: Matching, client: BusRtClient, f: Incoming, allow: Text -> bool, outcome: Result<()>, g: Stage, g': Stage)
    requires |f.idBytes| == 4 && Interpret(f).Ok? && Interpret(f).value.Route?
    requires var to := Addressees(m, g, f, Interpret(f).value, allow);
      && RouteServed(f, Interpret(f).value, allow, outcome, client, g.boxes, g'.boxes, to)
      && Cost(g.reg, g'.reg, g.boxes, g'.boxes, to)
    ensures FrameStep(m, client, f, allow, outcome, g, g')
  {
    hide Interpret, Addressees, Cost, AckFrames, AckCodes, Forwarded, Took;
  }

  /** A frame cut short, or passed on and then impossible to acknowledge. */
  lemma RouteIsBroken(
    m: Matching, client: BusRtClient, f: Incoming, allow: Text -> bool, g: Stage, g': Stage, ended: bool,
    outcome: Result<()>, reached: set<BusRtClient>)
    requires |f.idBytes| == 4 && Interpret(f).Ok? && Interpret(f).value.Route? && !f.op.IsTopicList()
    requires PassedOn(m, client, f, Interpret(f).value, allow, g, g', ended, outcome, reached)
    requires client in g.boxes && (ended || Unanswerable(f, g'.boxes[client].closed, g'.boxes[client].full))
    ensures FrameBroken(m, client, f, allow, g, g', reached, 0)
  {
    var frame, to := Forwarded(f, Interpret(f).value, client.name), FrameAddressees(m, g, f, allow);
    FedToLoosened(g.boxes, g'.boxes, reached, frame, ended, Stuck(g.boxes, g'.boxes, to));
    assert g'.boxes.Keys == g.boxes.Keys by { assert FedTo(g.boxes, g'.boxes, reached, frame, ended); }
    hide Interpret, Addressees, Cost, Forwarded, Confirms, FedTo, Stuck;
  }

  lemma FedToLoosened(
    b: Boxes, b': Boxes, reached: set<BusRtClient>, frame: FrameData, givenUp: bool, more: bool)
    requires givenUp ==> more
    ensures FedTo(b, b', reached, frame, givenUp) ==> FedTo(b, b', reached, frame, more)
  {
  }

  lemma MalformedIsBroken(m: Matching, client: BusRtClient, f: Incoming, allow: Text -> bool, g: Stage)
    requires |f.idBytes| == 4 && client in g.boxes && Interpret(f).Err? && !f.op.IsTopicList()
    ensures FrameBroken(m, client, f, allow, g, g, {}, 0)
  {
    hide Interpret, Stuck;
  }

  lemma IgnoredIsStep(m: Matching, client: BusRtClient, f: Incoming, allow: Text -> bool, g: Stage)
    requires |f.idBytes| == 4 && client in g.boxes && Interpret(f) == Ok(Ignored)
    ensures FrameStep(m, client, f, allow, Ok(()), g, g)
  {
    hide Interpret;
  }

  lemma ActionKinds(f: Incoming)
    requires Interpret(f).Ok? && !f.op.IsTopicList()
    ensures Interpret(f).value.Route? <==> f.op != Nop
    ensures Interpret(f).value.Route? || Interpret(f) == Ok(Ignored)
  {
    hide TakeField;
  }

  // ----- Conclusions of the handlers

  lemma ListConcludes(
    m: Matching, client: BusRtClient, f: Incoming, allow: Text -> bool, g: Stage, g': Stage, ok: bool, told: nat)
    requires |f.idBytes| == 4 && f.op.IsTopicList() && client in g.boxes && client in g'.boxes
    requires g'.boxes.Keys == g.boxes.Keys && g'.reg == g.reg.(topics := g'.reg.topics)
    requires forall c | c in g.boxes && c != client :: g'.boxes[c] == g.boxes[c]
    requires var x, y := g.boxes[client], g'.boxes[client];
      && y.closed == x.closed && (ok && FlagRight(x) ==> FlagRight(y))
      && ListHandled(ok, f, allow, client.name, client.name in g.reg.subscribers, x.log, y.log,
                     g.reg.topics, g'.reg.topics, x.exclusions, y.exclusions,
                     Unanswerable(f, y.closed, y.full), told)
    ensures if ok then FrameStep(m, client, f, allow, Ok(()), g, g')
      else FrameBroken(m, client, f, allow, g, g', {}, told)
  {
    assert OthersKept(client, g.boxes, g'.boxes);
    hide ListHandled, FlagRight, OthersKept, FrameStep, FrameBroken;
    if ok {
      ListIsStep(m, client, f, allow, g, g', told);
    } else {
      ListIsBroken(m, client, f, allow, g, g', told);
    }
  }

  lemma CannotAnswer(f: Incoming, closed: bool, full: bool)
    requires f.qos.NeedsAck() && (closed || full)
    ensures Unanswerable(f, closed, full)
  {
  }

  lemma MessagePassedOn(
    m: Matching, client: BusRtClient, f: Incoming, action: Action, allow: Text -> bool, g: Stage, g': Stage,
    out: Delivery)
    requires action.Route? && f.op.Message? && allow(action.target)
    requires Ready(g.reg, g.boxes, Target(g.reg, action.target))
    requires action.target !in g.reg.clients ==> out == Refused(NotRegistered) && g' == g
    requires action.target in g.reg.clients ==>
      var tgt := g.reg.clients[action.target];
      && tgt in g.reg.secondaries && Delivered(g.boxes, g'.boxes, tgt, Forwarded(f, action, client.name), out)
      && g'.reg == if Overruns(g.boxes, tgt) then Dropped(g.reg, tgt) else g.reg
    ensures PassedOn(m, client, f, action, allow, g, g', out.GivenUp?,
                     if out.Refused? then Err(out.error) else Ok(()), Target(g.reg, action.target))
  {
    var frame, to := Forwarded(f, action, client.name), Target(g.reg, action.target);
    hide Took, GoesWith, Forwarded, Aligned, Dropped, Cost, Confirms, Stuck, FedTo, Delivered, Overruns, Ready;
    if action.target in g.reg.clients {
      var tgt := g.reg.clients[action.target];
      assert to == {tgt};
      MessageCosts(g, g', tgt, frame, out);
      MessageConfirmed(g.boxes, g'.boxes, tgt, frame, out);
    } else {
      NoCost(g.reg, g.boxes, to);
      FedNobody(g.boxes, frame);
      NobodyConfirms(g.boxes, frame);
    }
  }

  lemma MessageCosts(g: Stage, g': Stage, tgt: BusRtClient, frame: FrameData, out: Delivery)
    requires Ready(g.reg, g.boxes, {tgt}) && tgt in g.reg.secondaries && Delivered(g.boxes, g'.boxes, tgt, frame, out)
    requires g'.reg == if Overruns(g.boxes, tgt) then Dropped(g.reg, tgt) else g.reg
    ensures Cost(g.reg, g'.reg, g.boxes, g'.boxes, {tgt})
  {
    hide Aligned, Dropped, Cost, FedTo, Overruns, Delivered;
    assert tgt in {tgt};
    NoCost(g.reg, g.boxes, {tgt});
    ClosedNextBy(g.boxes, g.boxes, g'.boxes, {tgt}, tgt, frame, out);
    CostOneMore(g.reg, g.reg, g'.reg, g.boxes, g.boxes, g'.boxes, {tgt}, tgt);
  }

  lemma NobodyConfirms(b: Boxes, frame: FrameData)
    ensures Confirms(Err(NotRegistered), b, {}, AllTook(b, b, {}, frame))
  {
  }

  lemma MessageConfirmed(b: Boxes, b': Boxes, tgt: BusRtClient, frame: FrameData, out: Delivery)
    requires Delivered(b, b', tgt, frame, out)
    ensures FedTo(b, b', {tgt}, frame, out.GivenUp?)
    ensures out.GivenUp? ==> Stuck(b, b', {tgt})
    ensures !out.GivenUp? ==>
      Confirms(if out.Refused? then Err(out.error) else Ok(()), b, {tgt}, AllTook(b, b', {tgt}, frame))
  {
    if out.GivenUp? {
      assert tgt in {tgt} && Waits(tgt.kind, b[tgt], b'[tgt]);
    }
    if out.Refused? {
      assert tgt in {tgt} && Refuses(b, tgt, out.error);
    }
  }

  lemma ManyPassedOn(
    m: Matching, client: BusRtClient, f: Incoming, action: Action, allow: Text -> bool, g: Stage, g': Stage,
    ended: bool, reached: set<BusRtClient>)
    requires action.Route? && !f.op.Message? && allow(action.target)
    requires var to, frame := (if f.op.Broadcast? then Named(m, g.reg, action.target)
                               else Audience(m, g, action.target, action.receiver)),
                              Forwarded(f, action, client.name);
      && reached <= to && (!ended ==> reached == to) && FedTo(g.boxes, g'.boxes, reached, frame, ended)
      && (ended ==> Stuck(g.boxes, g'.boxes, to)) && Cost(g.reg, g'.reg, g.boxes, g'.boxes, to)
    ensures PassedOn(m, client, f, action, allow, g, g', ended, Ok(()), reached)
  {
    hide Named, Audience, Forwarded, FedTo, Stuck, Cost;
  }

  lemma RouteConcludes(
    m: Matching, client: BusRtClient, f: Incoming, allow: Text -> bool, outcome: Result<()>,
    g: Stage, g1: Stage, g2: Stage, reached: set<BusRtClient>, ended: bool, ok: bool)
    requires |f.idBytes| == 4 && Interpret(f).Ok? && Interpret(f).value.Route? && !f.op.IsTopicList()
    requires client in g.boxes
    requires PassedOn(m, client, f, Interpret(f).value, allow, g, g1, ended, outcome, reached)
    requires g2.reg == g1.reg && (ended ==> g2 == g1 && !ok)
    requires !ended && ok ==>
      && RouteServed(f, Interpret(f).value, allow, outcome, client, g.boxes, g2.boxes, reached)
      && SameClosed(g1.boxes, g2.boxes)
    requires !ended && !ok ==>
      && g2.boxes == g1.boxes && client in g2.boxes
      && Unanswerable(f, g2.boxes[client].closed, g2.boxes[client].full)
    ensures if ok then FrameStep(m, client, f, allow, outcome, g, g2)
      else FrameBroken(m, client, f, allow, g, g2, reached, 0)
  {
    if ok {
      hide Interpret, Addressees, Forwarded, Cost, RouteServed, FedTo, FrameStep, Stuck, Confirms;
      CostOfClosing(g.reg, g1.reg, g.boxes, g1.boxes, g2.boxes, reached);
      RouteIsStep(m, client, f, allow, outcome, g, g2);
    } else {
      assert g2 == g1;
      hide PassedOn, FrameBroken, Interpret, Unanswerable;
      RouteIsBroken(m, client, f, allow, g, g2, ended, outcome, reached);
    }
  }
}
