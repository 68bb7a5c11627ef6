/** A whole connection: the reader loop from the first byte to the last, and what follows for everybody. */
module Connection {
  import opened Bytes
  import opened Protocol
  import opened BrokerClient
  import opened RegistrySpec
  import opened DeliverySpec
  import opened Routing
  import opened Wire
  import opened Acks
  import opened ReaderSpec
  import opened BrokerDb
  import opened BrokerReader
  import opened Others

  /** The frames of a connection handled one after the other. Before each, the others have acted, from the
      stage the frame before has left to the stage `mids` has; from there the frame takes the broker to the
      next stage as its operation says. */
  ghost predicate Served(
    m: Matching, client: BusRtClient, allow: FrameOp -> Text -> bool, frames: seq<Incoming>,
    outcomes: seq<Result<()>>, stages: seq<Stage>, mids: seq<Stage>)
  {
    && |outcomes| == |mids| == |frames| && |stages| == |frames| + 1
    && (forall i | 0 <= i < |frames| :: Between(client, stages[i], mids[i]))
    && forall i | 0 <= i < |frames| ::
         FrameStep(m, client, frames[i], allow(frames[i].op), outcomes[i], mids[i], stages[i + 1])
  }

  lemma ServedOneMore(
    m: Matching, client: BusRtClient, allow: FrameOp -> Text -> bool, frames: seq<Incoming>,
    outcomes: seq<Result<()>>, stages: seq<Stage>, mids: seq<Stage>, f: Incoming, outcome: Result<()>, mid: Stage,
    g: Stage)
    requires Served(m, client, allow, frames, outcomes, stages, mids) && Between(client, stages[|frames|], mid)
    requires FrameStep(m, client, f, allow(f.op), outcome, mid, g)
    ensures Served(m, client, allow, frames + [f], outcomes + [outcome], stages + [g], mids + [mid])
  {
    hide FrameStep, Between;
    var fs, os, ss, ms := frames + [f], outcomes + [outcome], stages + [g], mids + [mid];
    forall i | 0 <= i < |fs|
      ensures Between(client, ss[i], ms[i]) && FrameStep(m, client, fs[i], allow(fs[i].op), os[i], ms[i], ss[i + 1])
    {
      if i < |frames| {
        assert FrameStep(m, client, frames[i], allow(frames[i].op), outcomes[i], mids[i], stages[i + 1]);
      }
    }
  }

  /** The loop's place in the stream. */
  ghost predicate Taking(input: seq<byte>, rest: seq<byte>, limit: Option<nat>, frames: seq<Incoming>) {
    TakeAll(input, limit) == (frames + TakeAll(rest, limit).0, TakeAll(rest, limit).1)
  }

  lemma TakingBegins(input: seq<byte>, limit: Option<nat>)
    ensures Taking(input, input, limit, [])
  {
    hide TakeAll;
    assert [] + TakeAll(input, limit).0 == TakeAll(input, limit).0;
  }

  lemma TakingGoesOn(input: seq<byte>, rest: seq<byte>, limit: Option<nat>, frames: seq<Incoming>)
    requires Taking(input, rest, limit, frames)
    ensures var t := TakeFrame(rest, limit);
      && (t.Pinged? ==> Taking(input, t.rest, limit, frames))
      && (t.Got? ==>
            && Taking(input, t.rest, limit, frames + [t.frame]) && |frames| < |TakeAll(input, limit).0|
            && TakeAll(input, limit).0[..|frames|] == frames && TakeAll(input, limit).0[|frames|] == t.frame)
      && (t.Closed? ==> TakeAll(input, limit) == (frames, t.end))
  {
    hide TakeFrame;
    match TakeFrame(rest, limit) {
      case Pinged(r) =>
      case Got(f, r) => Regroup(frames, [f], TakeAll(r, limit).0);
      case Closed(_) => assert frames + [] == frames;
    }
  }

  /** How a connection has gone: its frames were served up to its regular end or up to the one that ended
      it, which left the broker in the stage `end`. */
  ghost predicate Went(
    m: Matching, client: BusRtClient, allow: FrameOp -> Text -> bool, sent: seq<Incoming>, complete: bool,
    frames: seq<Incoming>, outcomes: seq<Result<()>>, stages: seq<Stage>, mids: seq<Stage>, last: Stage, end: Stage,
    reached: set<BusRtClient>, told: nat)
  {
    && Served(m, client, allow, frames, outcomes, stages, mids)
    && Between(client, stages[|frames|], last)
    && if complete then sent == frames && end == last
       else
         && |frames| < |sent| && frames == sent[..|frames|]
         && FrameBroken(m, client, sent[|frames|], allow(sent[|frames|].op), last, end, reached, told)
  }

  /** `handle_reader` on the bytes up to the end of the connection, the others acting before every frame;
      then the client is unregistered and its channel is gone. */
  method HandleReader(
    db: BrokerDb, client: BusRtClient, input: seq<byte>, limit: Option<nat>, allow: FrameOp -> Text -> bool)
    returns (complete: bool, ghost frames: seq<Incoming>, ghost outcomes: seq<Result<()>>,
             ghost stages: seq<Stage>, ghost mids: seq<Stage>, ghost last: Stage, ghost end: Stage,
             ghost reached: set<BusRtClient>, ghost told: nat)
    requires db.Valid() && client in db.all
    modifies db`all, db`clients, db`subscribers, db`topics, db`broadcasts, db`traffic, db`cut
    modifies db.all`registered, db.all`secondaries, db.all`secondariesLocked, db.all`disconnected
    modifies db.all`queue, db.all`log, db.all`closed, db.all`traffic, db.all`exclusions, db.all`hasExclusions
    ensures Went(db.matching, client, allow, TakeAll(input, limit).0, complete, frames, outcomes, stages, mids, last,
                 end, reached, told)
    ensures stages[0] == old(db.StageNow())
    ensures db.Valid() && !client.registered
    ensures client in end.reg.secondaries
      && db.StageNow() == Stage(Dropped(end.reg, client), WithClosed(end.boxes, client))
  {
    hide *;
    complete, frames, outcomes, stages, mids, last, reached, told :=
      ReadLoop(db, client, input, limit, allow, db.StageNow());
    end := db.StageNow();
    db.StageParts();
    db.LeaveAtLast(client);
    db.StageParts();
  }

  method ReadLoop(
    db: BrokerDb, client: BusRtClient, input: seq<byte>, limit: Option<nat>, allow: FrameOp -> Text -> bool,
    ghost start: Stage)
    returns (complete: bool, ghost frames: seq<Incoming>, ghost outcomes: seq<Result<()>>, ghost stages: seq<Stage>,
             ghost mids: seq<Stage>, ghost last: Stage, ghost reached: set<BusRtClient>, ghost told: nat)
    requires db.Valid() && client in db.all && start == db.StageNow()
    modifies db`all, db`clients, db`subscribers, db`topics, db`broadcasts, db`traffic, db`cut
    modifies db.all`registered, db.all`secondaries, db.all`secondariesLocked, db.all`disconnected
    modifies db.all`queue, db.all`log, db.all`closed, db.all`traffic, db.all`exclusions, db.all`hasExclusions
    ensures db.ValidBut({client}) && client in db.all && fresh(db.all - old(db.all))
    ensures Went(db.matching, client, allow, TakeAll(input, limit).0, complete, frames, outcomes, stages, mids, last,
                 db.StageNow(), reached, told)
    ensures stages[0] == start
  {
    hide *;
    var rest := input;
    frames, outcomes, stages, mids, reached, told := [], [], [start], [], {}, 0;
    TakingBegins(input, limit);
    ServingBegins(db.matching, client, allow, start);
    SteadyNow(db);
    NothingBetween(client, start);
    while true
      invariant db.Valid() && client in db.all && fresh(db.all - old(db.all)) && Taking(input, rest, limit, frames)
      invariant Served(db.matching, client, allow, frames, outcomes, stages, mids)
      invariant |stages| == |frames| + 1 && stages[0] == start && Between(client, stages[|frames|], db.StageNow())
      decreases |rest|
    {
      ghost var g := db.StageNow();
      LetOthersAct(db, client);
      last := db.StageNow();
      BetweenTwice(client, stages[|frames|], g, last);
      TakingGoesOn(input, rest, limit, frames);
      var t := TakeFrame(rest, limit);
      match t {
        case Pinged(r) => rest := r;
        case Got(f, r) =>
          var ok, outcome;
          ok, outcome, reached, told := HandleFrame(db, client, f, allow(f.op));
          if !ok {
            WentUpTo(db.matching, client, allow, TakeAll(input, limit).0, frames, outcomes, stages, mids, last,
                     db.StageNow(), reached, told);
            return false, frames, outcomes, stages, mids, last, reached, told;
          }
          SteadyNow(db);
          NothingBetween(client, db.StageNow());
          ServedOneMore(db.matching, client, allow, frames, outcomes, stages, mids, f, outcome, last, db.StageNow());
          frames, outcomes, rest := frames + [f], outcomes + [outcome], r;
          stages, mids := stages + [db.StageNow()], mids + [last];
        case Closed(_) =>
          WentThrough(db.matching, client, allow, frames, outcomes, stages, mids, last, reached, told);
          db.ValidButMore({client});
          return true, frames, outcomes, stages, mids, last, reached, told;
      }
    }
  }

  lemma ServingBegins(m: Matching, client: BusRtClient, allow: FrameOp -> Text -> bool, g: Stage)
    ensures Served(m, client, allow, [], [], [g], [])
  {
  }

  lemma NothingBetween(client: BusRtClient, g: Stage)
    requires Steady(g)
    ensures Between(client, g, g)
  {
    hide Steady;
    KeptIsQuiet(g.boxes, g.boxes);
    QuietIsBetween(client, g, g);
  }

  lemma WentThrough(
    m: Matching, client: BusRtClient, allow: FrameOp -> Text -> bool, frames: seq<Incoming>,
    outcomes: seq<Result<()>>, stages: seq<Stage>, mids: seq<Stage>, last: Stage, reached: set<BusRtClient>, told: nat)
    requires Served(m, client, allow, frames, outcomes, stages, mids) && |stages| == |frames| + 1
    requires Between(client, stages[|frames|], last)
    ensures Went(m, client, allow, frames, true, frames, outcomes, stages, mids, last, last, reached, told)
  {
    hide FrameStep, Between;
  }

  lemma WentUpTo(
    m: Matching, client: BusRtClient, allow: FrameOp -> Text -> bool, sent: seq<Incoming>, frames: seq<Incoming>,
    outcomes: seq<Result<()>>, stages: seq<Stage>, mids: seq<Stage>, last: Stage, end: Stage,
    reached: set<BusRtClient>, told: nat)
    requires Served(m, client, allow, frames, outcomes, stages, mids) && |stages| == |frames| + 1
    requires |frames| < |sent| && frames == sent[..|frames|] && Between(client, stages[|frames|], last)
    requires FrameBroken(m, client, sent[|frames|], allow(sent[|frames|].op), last, end, reached, told)
    ensures Went(m, client, allow, sent, false, frames, outcomes, stages, mids, last, end, reached, told)
  {
    hide FrameStep, FrameBroken, Between;
  }

  // ----- Acknowledgements over a connection

  /** The acknowledgements among the frames a client has been sent. */
  function Confirmed(log: seq<FrameData>): seq<FrameData> {
    if log == [] then []
    else (if log[0].kind == KPrepared then [log[0]] else []) + Confirmed(log[1..])
  }

  lemma {:induction false} ConfirmedConcat(a: seq<FrameData>, b: seq<FrameData>)
    ensures Confirmed(a + b) == Confirmed(a) + Confirmed(b)
  {
    if a == [] {
      assert a + b == b;
    } else {
      ConfirmedConcat(a[1..], b);
      assert (a + b)[1..] == a[1..] + b;
      Regroup(if a[0].kind == KPrepared then [a[0]] else [], Confirmed(a[1..]), Confirmed(b));
    }
  }

  lemma {:induction false} ConfirmedAcks(log: seq<FrameData>)
    ensures (forall x | x in log :: x.kind == KPrepared) ==> Confirmed(log) == log
    ensures (forall x | x in log :: x.kind != KPrepared) ==> Confirmed(log) == []
  {
    if log != [] {
      ConfirmedAcks(log[1..]);
      assert log == [log[0]] + log[1..];
    }
  }

  lemma {:induction false} DueIsAcks(f: Incoming, allow: Text -> bool, outcome: Result<()>)
    requires |f.idBytes| == 4 && Interpret(f).Ok?
    ensures Confirmed(Due(f, allow, outcome)) == Due(f, allow, outcome)
  {
    hide Interpret, AckCodes, Confirmed;
    ConfirmedAcks(Due(f, allow, outcome));
  }

  lemma DueOfOthers(f: Incoming, allow: Text -> bool, outcome: Result<()>)
    requires |f.idBytes| == 4 && Interpret(f).Ok?
    ensures Interpret(f).value.Topics? ==> Due(f, allow, outcome) == Due(f, allow, Ok(()))
    ensures Interpret(f).value.Ignored? ==> Due(f, allow, outcome) == []
  {
    hide Interpret, Denials;
  }

  /** What a frame has had its sender sent. */
  lemma {:induction false} StepConfirms(
    m: Matching, client: BusRtClient, f: Incoming, allow: Text -> bool, outcome: Result<()>, g: Stage, g': Stage)
    requires FrameStep(m, client, f, allow, outcome, g, g')
    ensures |f.idBytes| == 4 && Interpret(f).Ok? && client in g.boxes && client in g'.boxes
    ensures Confirmed(g'.boxes[client].log) == Confirmed(g.boxes[client].log) + Due(f, allow, outcome)
  {
    DueOfOthers(f, allow, outcome);
    DueIsAcks(f, allow, outcome);
    var log, due := g.boxes[client].log, Due(f, allow, outcome);
    match Interpret(f).value {
      case Topics(_) =>
        ConfirmedConcat(log, due);
      case Route(_, _, _) =>
        var action := Interpret(f).value;
        var frame := Forwarded(f, action, client.name);
        var to := FrameAddressees(m, g, f, allow);
        var own := if RouteDone(f, action, allow, outcome, client, g.boxes, g'.boxes, to, []) then [] else [frame];
        assert g'.boxes[client].log == log + own + due;
        ConfirmedConcat(log + own, due);
        ConfirmedConcat(log, own);
        ConfirmedAcks(own);
        assert Confirmed(log) + [] == Confirmed(log);
      case Ignored =>
        assert Confirmed(log) + [] == Confirmed(log);
    }
    hide *;
  }

  /** Told by the values in the frame: who asks for no acknowledgement gets none, who asks gets at least one, but
      for a no-operation frame; each carries the id of the frame, and the realtime mark if the frame had it. */
  lemma {:induction false} AnsweredAsAsked(
    m: Matching, client: BusRtClient, f: Incoming, allow: Text -> bool, outcome: Result<()>, g: Stage, g': Stage)
    requires FrameStep(m, client, f, allow, outcome, g, g')
    ensures client in g.boxes && client in g'.boxes
    ensures var before, after := Confirmed(g.boxes[client].log), Confirmed(g'.boxes[client].log);
      && before <= after
      && (after == before <==> f.qos in {No, Realtime} || f.op.Nop?)
      && (f.qos in {Processed, RealtimeProcessed} && f.op !in {Nop, SubscribeTopic} ==> |after| == |before| + 1)
      && forall a | a in after[|before|..] ::
           && a.kind == KPrepared && |a.buf| == 6 && a.buf[0] == 0xFE && a.buf[1..5] == f.idBytes
           && (a.realtime <==> f.qos == RealtimeProcessed)
  {
    StepConfirms(m, client, f, allow, outcome, g, g');
    assert |f.idBytes| == 4 && Interpret(f).Ok?;
    hide FrameStep, Confirmed;
    var action := Interpret(f).value;
    AckCount(f, action, allow, outcome);
    var codes := AckCodes(f, action, allow, outcome);
    hide Interpret, ToResult;
    forall a | a in AckFrames(f, codes) ensures
      && a.kind == KPrepared && |a.buf| == 6 && a.buf[0] == 0xFE && a.buf[1..5] == f.idBytes
      && (codes != [] ==> (a.realtime <==> f.qos == RealtimeProcessed))
    {
      var i :| 0 <= i < |codes| && a == AckFrame(f.idBytes, codes[i], f.qos.IsRealtime());
    }
    hide AckCodes, AckFrames;
    var before := Confirmed(g.boxes[client].log);
    assert (before + AckFrames(f, codes))[|before|..] == AckFrames(f, codes);
  }

  predicate Handled(frames: seq<Incoming>) {
    forall f | f in frames :: |f.idBytes| == 4 && Interpret(f).Ok?
  }

  /** The acknowledgements due for some frames, in order. */
  function AllDue(frames: seq<Incoming>, outcomes: seq<Result<()>>, allow: FrameOp -> Text -> bool): seq<FrameData>
    requires Handled(frames) && |outcomes| == |frames|
  {
    if frames == [] then []
    else
      var n := |frames| - 1;
      AllDue(frames[..n], outcomes[..n], allow) + Due(frames[n], allow(frames[n].op), outcomes[n])
  }

  lemma ServedPrefix(
    m: Matching, client: BusRtClient, allow: FrameOp -> Text -> bool, frames: seq<Incoming>,
    outcomes: seq<Result<()>>, stages: seq<Stage>, mids: seq<Stage>, n: nat)
    requires Served(m, client, allow, frames, outcomes, stages, mids) && n <= |frames|
    ensures Served(m, client, allow, frames[..n], outcomes[..n], stages[..n + 1], mids[..n])
  {
    hide FrameStep, Between;
  }

  /** All but the last frame, and the last one. */
  lemma ServedFront(
    m: Matching, client: BusRtClient, allow: FrameOp -> Text -> bool, frames: seq<Incoming>,
    outcomes: seq<Result<()>>, stages: seq<Stage>, mids: seq<Stage>)
    requires Served(m, client, allow, frames, outcomes, stages, mids) && frames != []
    ensures |outcomes| == |mids| == |frames| && |stages| == |frames| + 1
    ensures var n := |frames| - 1;
      && Served(m, client, allow, frames[..n], outcomes[..n], stages[..n + 1], mids[..n])
      && stages[..n + 1][0] == stages[0] && stages[..n + 1][|frames[..n]|] == stages[n]
      && Between(client, stages[n], mids[n])
      && FrameStep(m, client, frames[n], allow(frames[n].op), outcomes[n], mids[n], stages[n + 1])
  {
    hide FrameStep, Between;
    ServedPrefix(m, client, allow, frames, outcomes, stages, mids, |frames| - 1);
  }

  lemma ServedLengths(
    m: Matching, client: BusRtClient, allow: FrameOp -> Text -> bool, frames: seq<Incoming>,
    outcomes: seq<Result<()>>, stages: seq<Stage>, mids: seq<Stage>)
    requires Served(m, client, allow, frames, outcomes, stages, mids)
    ensures |outcomes| == |mids| == |frames| && |stages| == |frames| + 1
  {
  }

  /** What the others do does not acknowledge anything to this client. */
  lemma {:induction false} BetweenConfirmsNothing(client: BusRtClient, g: Stage, g': Stage)
    requires Between(client, g, g') && client in g.boxes
    ensures client in g'.boxes && Confirmed(g'.boxes[client].log) == Confirmed(g.boxes[client].log)
  {
    hide Steady;
    var log, log' := g.boxes[client].log, g'.boxes[client].log;
    assert Grown(client, client, g.boxes[client], g'.boxes[client], g'.boxes);
    var more := log'[|log|..];
    assert log' == log + more;
    ConfirmedConcat(log, more);
    ConfirmedAcks(more);
    assert Confirmed(log) + [] == Confirmed(log);
  }

  /** The frames served have been acknowledged as due, in order, whatever the others have done in between. */
  lemma {:induction false} ServedAreConfirmed(
    m: Matching, client: BusRtClient, allow: FrameOp -> Text -> bool, frames: seq<Incoming>,
    outcomes: seq<Result<()>>, stages: seq<Stage>, mids: seq<Stage>)
    requires Served(m, client, allow, frames, outcomes, stages, mids) && client in stages[0].boxes
    ensures Handled(frames) && client in stages[|frames|].boxes
    ensures Confirmed(stages[|frames|].boxes[client].log) ==
      Confirmed(stages[0].boxes[client].log) + AllDue(frames, outcomes, allow)
    decreases |frames|
  {
    ServedLengths(m, client, allow, frames, outcomes, stages, mids);
    hide FrameStep, Between, Confirmed, Due, Interpret, Served;
    if frames == [] {
      assert Confirmed(stages[0].boxes[client].log) + [] == Confirmed(stages[0].boxes[client].log);
    } else {
      hide Handled;
      var n := |frames| - 1;
      ServedFront(m, client, allow, frames, outcomes, stages, mids);
      ServedAreConfirmed(m, client, allow, frames[..n], outcomes[..n], stages[..n + 1], mids[..n]);
      BetweenConfirmsNothing(client, stages[n], mids[n]);
      StepConfirms(m, client, frames[n], allow(frames[n].op), outcomes[n], mids[n], stages[n + 1]);
      HandledSnoc(frames);
      Regroup(Confirmed(stages[0].boxes[client].log), AllDue(frames[..n], outcomes[..n], allow),
              Due(frames[n], allow(frames[n].op), outcomes[n]));
    }
  }

  lemma HandledSnoc(frames: seq<Incoming>)
    requires frames != [] && Handled(frames[..|frames| - 1])
    requires |frames[|frames| - 1].idBytes| == 4 && Interpret(frames[|frames| - 1]).Ok?
    ensures Handled(frames)
  {
    hide Interpret;
    forall f | f in frames ensures |f.idBytes| == 4 && Interpret(f).Ok? {
      assert f == frames[|frames| - 1] || f in frames[..|frames| - 1];
    }
  }

  /** The sender of a direct message that asks for it is told of success exactly if it may send it and a
      client is registered under the target name and has taken it. */
  lemma MessageConfirmedTruly(
    m: Matching, client: BusRtClient, f: Incoming, allow: Text -> bool, outcome: Result<()>, g: Stage, g': Stage)
    requires FrameStep(m, client, f, allow, outcome, g, g') && f.op.Message? && f.qos.NeedsAck()
    ensures Interpret(f).value.Route?
    ensures var action := Interpret(f).value;
      var codes := AckCodes(f, action, allow, outcome);
      && |codes| == 1
      && (ToResult(codes[0]).Ok? <==>
            && allow(action.target) && action.target in g.reg.clients
            && var tgt := g.reg.clients[action.target];
               && tgt in g.boxes && tgt in g'.boxes
               && g.boxes[tgt].log + [Forwarded(f, action, client.name)] <= g'.boxes[tgt].log)
  {
    ActionKinds(f);
    var action := Interpret(f).value;
    AckCount(f, action, allow, outcome);
    if allow(action.target) {
      var to, frame := Target(g.reg, action.target), Forwarded(f, action, client.name);
      assert FrameAddressees(m, g, f, allow) == to;
      var own := if RouteDone(f, action, allow, outcome, client, g.boxes, g'.boxes, to, []) then [] else [frame];
      assert RouteDone(f, action, allow, outcome, client, g.boxes, g'.boxes, to, own);
      hide Interpret, FrameStep, ToResult, RouteServed, FrameAddressees;
      MessageTaken(f, action, allow, outcome, client, g.boxes, g'.boxes, to, own);
    }
  }

  lemma MessageTaken(
    f: Incoming, action: Action, allow: Text -> bool, outcome: Result<()>, client: BusRtClient,
    b: Boxes, b': Boxes, to: set<BusRtClient>, own: seq<FrameData>)
    requires |f.idBytes| == 4 && action.Route? && f.op.Message? && allow(action.target) && |to| <= 1
    requires RouteDone(f, action, allow, outcome, client, b, b', to, own)
    ensures outcome.Ok? <==> to != {} && forall c | c in to ::
      c in b && c in b' && b[c].log + [Forwarded(f, action, client.name)] <= b'[c].log
  {
    var frame := Forwarded(f, action, client.name);
    var acks := AckFrames(f, AckCodes(f, action, allow, outcome));
    assert forall x | x in acks :: x.kind == KPrepared;
    assert frame.kind == KMessage;
    OwnInFront(b[client].log, own, frame, acks);
    forall c | c in to && c in b && c in b' && c != client
      ensures b'[c].log == b[c].log + [frame] <==> b[c].log + [frame] <= b'[c].log
    {
      assert Took(c.kind, b[c], b'[c], frame, false);
      assert |b[c].log + [frame]| == |b[c].log| + 1;
    }
    hide Forwarded, AckFrames, AckCodes, Took, OwnSide, FedOthers;
  }

  lemma OwnInFront(log: seq<FrameData>, own: seq<FrameData>, frame: FrameData, acks: seq<FrameData>)
    requires (own == [] || own == [frame]) && forall x | x in acks :: x != frame
    ensures own == [frame] <==> log + [frame] <= log + own + acks
  {
    assert (log + [frame] + acks)[..|log| + 1] == log + [frame];
    assert (log + [frame])[|log|] == frame;
    assert acks != [] ==> acks[0] in acks && (log + [] + acks)[|log|] == acks[0];
  }

  // ----- Messages over a connection

  /** Which of the frames are for a client, told at the moment each was handled. */
  ghost function MeantFor(
    m: Matching, allow: FrameOp -> Text -> bool, frames: seq<Incoming>, mids: seq<Stage>, c: BusRtClient)
    : (meant: seq<bool>)
    requires |mids| == |frames|
    ensures |meant| == |frames|
  {
    seq(|frames|, i requires 0 <= i < |frames| => c in FrameAddressees(m, mids[i], frames[i], allow(frames[i].op)))
  }

  /** What has been put in a client's queue from one stage to a later one. */
  function Since(g: Stage, g': Stage, c: BusRtClient): seq<FrameData> {
    if c in g.boxes && c in g'.boxes && |g.boxes[c].log| <= |g'.boxes[c].log|
    then g'.boxes[c].log[|g.boxes[c].log|..] else []
  }

  /** What the others have put there before each frame. */
  function Gaps(stages: seq<Stage>, mids: seq<Stage>, c: BusRtClient): (gaps: seq<seq<FrameData>>)
    requires |stages| == |mids| + 1
    ensures |gaps| == |mids|
  {
    seq(|mids|, i requires 0 <= i < |mids| => Since(stages[i], mids[i], c))
  }

  /** All that is put in the queue: what the others send, and the messages of this connection meant for it. */
  function Woven(gaps: seq<seq<FrameData>>, frames: seq<Incoming>, sender: Text, meant: seq<bool>): seq<FrameData>
    requires |gaps| == |frames| == |meant|
    decreases |frames|
  {
    if frames == [] then []
    else
      var n := |frames| - 1;
      Woven(gaps[..n], frames[..n], sender, meant[..n]) + gaps[n] + RoutedOne(frames[n], sender, meant[n])
  }

  /** What one frame does to another client: it is sent the message if it is an addressee and not closed,
      it is closed only as an addressee with a full queue, and nothing else happens to it. */
  lemma StepSpreads(
    m: Matching, client: BusRtClient, f: Incoming, allow: Text -> bool, outcome: Result<()>, g: Stage, g': Stage,
    c: BusRtClient)
    requires FrameStep(m, client, f, allow, outcome, g, g') && c in g.boxes && c != client
    ensures c in g'.boxes
    ensures var x, y, meant := g.boxes[c], g'.boxes[c], c in FrameAddressees(m, g, f, allow);
      && (x.closed ==> y.closed)
      && (y.closed && !x.closed ==> meant && x.full && c.kind != Internal)
      && y.log == x.log + if y.closed then [] else RoutedOne(f, client.name, meant)
  {
    hide Interpret, Due, Confirms, AllTookBut, OwnSide, Cost, AckFrames, AckCodes, Forwarded, Addressees;
    hide ExclusionsAfter;
    var x, y := g.boxes[c], g'.boxes[c];
    assert x.log + [] == x.log;
  }

  /** Every other client that is not closed has been sent exactly the messages meant for it, in order, among
      what the others have sent it, and nothing else. */
  lemma {:induction false} ServedAreSpread(
    m: Matching, client: BusRtClient, allow: FrameOp -> Text -> bool, frames: seq<Incoming>,
    outcomes: seq<Result<()>>, stages: seq<Stage>, mids: seq<Stage>, c: BusRtClient)
    requires Served(m, client, allow, frames, outcomes, stages, mids) && c in stages[0].boxes && c != client
    ensures c in stages[|frames|].boxes
    ensures stages[0].boxes[c].closed ==> stages[|frames|].boxes[c].closed
    ensures !stages[|frames|].boxes[c].closed ==>
      stages[|frames|].boxes[c].log == stages[0].boxes[c].log
        + Woven(Gaps(stages, mids, c), frames, client.name, MeantFor(m, allow, frames, mids, c))
    decreases |frames|
  {
    ServedLengths(m, client, allow, frames, outcomes, stages, mids);
    hide FrameStep, Between, Served, RoutedOne, FrameAddressees, Since;
    if frames == [] {
      assert stages[0].boxes[c].log + [] == stages[0].boxes[c].log;
    } else {
      hide Woven, Gaps, MeantFor;
      var n := |frames| - 1;
      ServedFront(m, client, allow, frames, outcomes, stages, mids);
      ServedAreSpread(m, client, allow, frames[..n], outcomes[..n], stages[..n + 1], mids[..n], c);
      GapLeft(client, stages[n], mids[n], c);
      StepSpreads(m, client, frames[n], allow(frames[n].op), outcomes[n], mids[n], stages[n + 1], c);
      WovenOneMore(m, allow, frames, stages, mids, client.name, c, stages[0].boxes[c].log);
    }
  }

  lemma GapLeft(client: BusRtClient, g: Stage, g': Stage, c: BusRtClient)
    requires Between(client, g, g') && c in g.boxes
    ensures c in g'.boxes && (g.boxes[c].closed ==> g'.boxes[c].closed)
    ensures g'.boxes[c].log == g.boxes[c].log + Since(g, g', c)
    ensures forall f | f in Since(g, g', c) :: FromOther(client, c, f, g'.boxes)
  {
    hide Steady, FromOther;
    assert Grown(client, c, g.boxes[c], g'.boxes[c], g'.boxes);
  }

  lemma WovenOneMore(
    m: Matching, allow: FrameOp -> Text -> bool, frames: seq<Incoming>, stages: seq<Stage>, mids: seq<Stage>,
    sender: Text, c: BusRtClient, before: seq<FrameData>)
    requires frames != [] && |stages| == |frames| + 1 && |mids| == |frames|
    ensures var n := |frames| - 1;
      before + Woven(Gaps(stages, mids, c), frames, sender, MeantFor(m, allow, frames, mids, c)) ==
        before + Woven(Gaps(stages[..n + 1], mids[..n], c), frames[..n], sender,
                       MeantFor(m, allow, frames[..n], mids[..n], c))
        + Since(stages[n], mids[n], c)
        + RoutedOne(frames[n], sender, c in FrameAddressees(m, mids[n], frames[n], allow(frames[n].op)))
  {
    hide RoutedOne, FrameAddressees, Since;
    var n := |frames| - 1;
    var meant, gaps := MeantFor(m, allow, frames, mids, c), Gaps(stages, mids, c);
    assert meant[..n] == MeantFor(m, allow, frames[..n], mids[..n], c);
    assert gaps[..n] == Gaps(stages[..n + 1], mids[..n], c);
  }

  /** A client is closed only by the others, or by a message of this connection meant for it that finds its
      queue full, and then it is not an internal one. */
  lemma {:induction false} ClosedByOverrun(
    m: Matching, client: BusRtClient, allow: FrameOp -> Text -> bool, frames: seq<Incoming>,
    outcomes: seq<Result<()>>, stages: seq<Stage>, mids: seq<Stage>, c: BusRtClient)
    returns (i: nat)
    requires Served(m, client, allow, frames, outcomes, stages, mids) && c in stages[0].boxes && c != client
    requires c in stages[|frames|].boxes && stages[|frames|].boxes[c].closed && !stages[0].boxes[c].closed
    ensures i < |frames| && c in stages[i].boxes && c in mids[i].boxes && !stages[i].boxes[c].closed
    ensures !mids[i].boxes[c].closed ==>
      mids[i].boxes[c].full && c.kind != Internal && MeantFor(m, allow, frames, mids, c)[i]
    decreases |frames|
  {
    assert frames != [];
    hide FrameStep, Between, Served, Woven, RoutedOne, FrameAddressees, Since;
    var n := |frames| - 1;
    ServedFront(m, client, allow, frames, outcomes, stages, mids);
    ServedAreSpread(m, client, allow, frames[..n], outcomes[..n], stages[..n + 1], mids[..n], c);
    GapLeft(client, stages[n], mids[n], c);
    StepSpreads(m, client, frames[n], allow(frames[n].op), outcomes[n], mids[n], stages[n + 1], c);
    if stages[n].boxes[c].closed {
      i := ClosedByOverrun(m, client, allow, frames[..n], outcomes[..n], stages[..n + 1], mids[..n], c);
      assert MeantFor(m, allow, frames[..n], mids[..n], c)[i] == MeantFor(m, allow, frames, mids, c)[i];
    } else {
      i := n;
    }
  }
}
