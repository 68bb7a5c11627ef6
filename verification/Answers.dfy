/** Acknowledgements from end to end: requests out, the broker's reader, its writer, the client's waiters. */
module Answers {
  import opened Bytes
  import opened Protocol
  import opened BrokerClient
  import opened Routing
  import opened Ids
  import opened Wire
  import opened Acks
  import opened ReaderSpec
  import opened Connection
  import IpcClient

  /** The codes due for each of some frames. */
  function PlanOf(frames: seq<Incoming>, outcomes: seq<Result<()>>, allow: FrameOp -> Text -> bool): (p: Plan)
    requires |outcomes| == |frames|
    ensures |p| == |frames|
  {
    seq(|frames|, i requires 0 <= i < |frames| => CodesFor(frames[i], allow(frames[i].op), outcomes[i]))
  }

  function CodesFor(f: Incoming, allow: Text -> bool, outcome: Result<()>): seq<byte> {
    if Interpret(f).Ok? then AckCodes(f, Interpret(f).value, allow, outcome) else []
  }

  /** Frames as one client numbers them; it never sends a no-operation frame with a body. */
  predicate Numbered(frames: seq<Incoming>) {
    forall k | 0 <= k < |frames| :: frames[k].idBytes == Le32(IdAfter(k + 1)) && frames[k].op != Nop
  }

  lemma PlanAsks(frames: seq<Incoming>, outcomes: seq<Result<()>>, allow: FrameOp -> Text -> bool, k: nat)
    requires Handled(frames) && |outcomes| == |frames| && Numbered(frames) && k < |frames|
    ensures PlanOf(frames, outcomes, allow)[k] == [] <==> !frames[k].qos.NeedsAck()
  {
    assert frames[k] in frames;
    AckCount(frames[k], Interpret(frames[k]).value, allow(frames[k].op), outcomes[k]);
    hide Interpret, AckCodes;
  }

  // ----- The acknowledgements as the client hears them

  function CodesHeard(id: nat, codes: seq<byte>): (h: seq<Heard>)
    ensures |h| == |codes|
  {
    seq(|codes|, i requires 0 <= i < |codes| => Acked(id, codes[i]))
  }

  function AllCodesHeard(p: Plan, k: nat): seq<Heard>
    requires k <= |p|
  {
    if k == 0 then [] else AllCodesHeard(p, k - 1) + CodesHeard(IdAfter(k), p[k - 1])
  }

  lemma {:induction false} HeardAllConcat(a: seq<FrameData>, b: seq<FrameData>)
    requires forall f | f in a + b :: Queueable(f)
    ensures (forall f | f in a :: Queueable(f)) && (forall f | f in b :: Queueable(f))
    ensures HeardAll(a + b) == HeardAll(a) + HeardAll(b)
  {
    hide Queueable, HeardOf;
    assert forall f | f in a :: f in a + b;
    assert forall f | f in b :: f in a + b;
    if a == [] {
      assert a + b == b;
    } else {
      assert (a + b)[1..] == a[1..] + b;
      HeardAllConcat(a[1..], b);
      Regroup([HeardOf(a[0])], HeardAll(a[1..]), HeardAll(b));
    }
  }

  lemma AckHeard(id: nat, code: byte, realtime: bool)
    requires id < TWO32
    ensures var f := AckFrame(Le32(id), code, realtime); Queueable(f) && HeardOf(f) == Acked(id, code)
  {
    hide Le32, FromLe32;
    var f := AckFrame(Le32(id), code, realtime);
    assert f.buf[1..5] == Le32(id);
    Le32RoundTrip(id);
  }

  lemma {:induction false} AcksHeard(f: Incoming, id: nat, codes: seq<byte>)
    requires f.idBytes == Le32(id) && id < TWO32
    ensures forall x | x in AckFrames(f, codes) :: Queueable(x)
    ensures HeardAll(AckFrames(f, codes)) == CodesHeard(id, codes)
  {
    if codes == [] {
      assert AckFrames(f, codes) == [];
    } else {
      AcksHeard(f, id, codes[1..]);
      AckHeard(id, codes[0], f.qos.IsRealtime());
      var acks := AckFrames(f, codes);
      assert acks[1..] == AckFrames(f, codes[1..]);
      assert forall x | x in acks :: x == acks[0] || x in acks[1..];
      hide HeardOf, Queueable, AckFrame, Le32;
      assert CodesHeard(id, codes) == [Acked(id, codes[0])] + CodesHeard(id, codes[1..]);
    }
  }

  lemma {:induction false} DueHeard(
    frames: seq<Incoming>, outcomes: seq<Result<()>>, allow: FrameOp -> Text -> bool, k: nat)
    requires Handled(frames) && |outcomes| == |frames| && Numbered(frames) && k <= |frames|
    requires Handled(frames[..k])
    ensures forall x | x in AllDue(frames[..k], outcomes[..k], allow) :: Queueable(x)
    ensures HeardAll(AllDue(frames[..k], outcomes[..k], allow)) == AllCodesHeard(PlanOf(frames, outcomes, allow), k)
  {
    if k > 0 {
      hide Queueable, HeardAll, AllDue, Interpret, PlanOf, Numbered;
      var fs, os := frames[..k], outcomes[..k];
      var f := frames[k - 1];
      assert fs[..k - 1] == frames[..k - 1] && os[..k - 1] == outcomes[..k - 1];
      HandledFront(fs);
      DueHeard(frames, outcomes, allow, k - 1);
      assert f in fs;
      hide Handled;
      OneMoreHeard(frames, outcomes, allow, k);
    } else {
      hide Queueable, Interpret, PlanOf, Numbered, Handled, HeardOf;
      assert frames[..k] == [] && outcomes[..k] == [];
    }
  }

  lemma {:induction false} OneMoreHeard(
    frames: seq<Incoming>, outcomes: seq<Result<()>>, allow: FrameOp -> Text -> bool, k: nat)
    requires Handled(frames) && |outcomes| == |frames| && Numbered(frames) && 0 < k <= |frames|
    requires Handled(frames[..k]) && Handled(frames[..k - 1])
    requires forall x | x in AllDue(frames[..k - 1], outcomes[..k - 1], allow) :: Queueable(x)
    requires HeardAll(AllDue(frames[..k - 1], outcomes[..k - 1], allow)) ==
      AllCodesHeard(PlanOf(frames, outcomes, allow), k - 1)
    ensures forall x | x in AllDue(frames[..k], outcomes[..k], allow) :: Queueable(x)
    ensures HeardAll(AllDue(frames[..k], outcomes[..k], allow)) == AllCodesHeard(PlanOf(frames, outcomes, allow), k)
  {
    var f := frames[k - 1];
    assert f in frames;
    IdFits(k);
    AcksHeard(f, IdAfter(k), PlanOf(frames, outcomes, allow)[k - 1]);
    var before, due := AllDue(frames[..k - 1], outcomes[..k - 1], allow), Due(f, allow(f.op), outcomes[k - 1]);
    DueSplits(frames, outcomes, allow, k);
    assert forall x | x in before + due :: x in before || x in due;
    hide Queueable, AckCodes, Interpret, Handled, IdAfter, AckFrames, AllDue, HeardAll;
    HeardAllConcat(before, due);
  }

  lemma {:induction false} DueSplits(
    frames: seq<Incoming>, outcomes: seq<Result<()>>, allow: FrameOp -> Text -> bool, k: nat)
    requires |outcomes| == |frames| && 0 < k <= |frames| && Handled(frames[..k]) && Handled(frames[..k - 1])
    requires |frames[k - 1].idBytes| == 4 && Interpret(frames[k - 1]).Ok?
    ensures AllDue(frames[..k], outcomes[..k], allow) ==
      AllDue(frames[..k - 1], outcomes[..k - 1], allow)
      + Due(frames[k - 1], allow(frames[k - 1].op), outcomes[k - 1])
  {
    hide Due, Interpret, Handled;
    assert frames[..k][..k - 1] == frames[..k - 1] && outcomes[..k][..k - 1] == outcomes[..k - 1];
  }

  lemma HandledFront(frames: seq<Incoming>)
    requires frames != [] && Handled(frames)
    ensures Handled(frames[..|frames| - 1])
  {
    hide Interpret;
  }

  lemma IdFits(k: nat)
    requires k > 0
    ensures IdAfter(k) < TWO32
  {
    IdsRepeat(k, k);
  }

  function AcksOf(heard: seq<Heard>): seq<Heard> {
    if heard == [] then [] else (if heard[0].Acked? then [heard[0]] else []) + AcksOf(heard[1..])
  }

  lemma {:induction false} AcksAmong(log: seq<FrameData>)
    requires forall f | f in log :: Queueable(f)
    ensures forall f | f in Confirmed(log) :: Queueable(f)
    ensures AcksOf(HeardAll(log)) == HeardAll(Confirmed(log))
  {
    if log != [] {
      var f, rest := log[0], log[1..];
      assert f in log;
      AcksAmong(rest);
      assert HeardOf(f).Acked? <==> f.kind == KPrepared;
      hide Queueable, HeardOf;
      assert HeardAll(log)[1..] == HeardAll(rest);
      if f.kind == KPrepared {
        assert ([f] + Confirmed(rest))[1..] == Confirmed(rest);
      } else {
        assert [] + Confirmed(rest) == Confirmed(rest);
      }
    }
  }

  /** The acknowledgements read from the stream written for a queue. */
  function AcksWritten(log: seq<FrameData>): seq<Heard> {
    if forall f | f in log :: f.Valid() then AcksOf(ListenAll(WriteAll(log)).0) else []
  }

  /** The acknowledgements on the stream of a connection are the codes due, frame by frame. */
  lemma AnswersHeard(
    frames: seq<Incoming>, outcomes: seq<Result<()>>, allow: FrameOp -> Text -> bool, log: seq<FrameData>)
    requires Handled(frames) && |outcomes| == |frames| && Numbered(frames)
    requires Confirmed(log) == Confirmed([]) + AllDue(frames, outcomes, allow)
    requires forall f | f in log :: Deliverable(f)
    ensures AcksWritten(log) == AllCodesHeard(PlanOf(frames, outcomes, allow), |frames|)
  {
    ListenAllWritten(log);
    AcksAmong(log);
    assert frames[..|frames|] == frames && outcomes[..|frames|] == outcomes;
    DueHeard(frames, outcomes, allow, |frames|);
    assert Confirmed(log) == AllDue(frames, outcomes, allow);
    hide *;
  }

  lemma {:induction false} CodesPrefix(p: Plan, k: nat, l: nat)
    requires k <= l <= |p|
    ensures |AllCodesHeard(p, k)| <= |AllCodesHeard(p, l)|
    ensures AllCodesHeard(p, l)[..|AllCodesHeard(p, k)|] == AllCodesHeard(p, k)
  {
    hide IdAfter;
    if k < l {
      CodesPrefix(p, k, l - 1);
      assert AllCodesHeard(p, l) == AllCodesHeard(p, l - 1) + CodesHeard(IdAfter(l), p[l - 1]);
    }
  }

  lemma CodeAt(p: Plan, k: nat, pos: nat)
    requires k < |p| && pos < |p[k]|
    ensures var n := |AllCodesHeard(p, k)| + pos;
      n < |AllCodesHeard(p, |p|)| && AllCodesHeard(p, |p|)[n] == Acked(IdAfter(k + 1), p[k][pos])
  {
    hide IdAfter;
    CodesPrefix(p, k + 1, |p|);
    var n, codes := |AllCodesHeard(p, k)| + pos, AllCodesHeard(p, k + 1);
    assert codes == AllCodesHeard(p, k) + CodesHeard(IdAfter(k + 1), p[k]);
    assert codes[n] == Acked(IdAfter(k + 1), p[k][pos]);
    assert AllCodesHeard(p, |p|)[..|codes|][n] == codes[n];
  }

  // ----- The life of a client

  /** How far a client has come: requests sent, acknowledgements heard, its waiters. */
  datatype Place = Place(sent: nat, heard: nat, desk: Desk)

  const BEGINNING := Place(0, 0, Desk(map[], map[]))

  /** The waiter of the k-th request is entered if the request asks for an acknowledgement. */
  function Entered(d: Desk, f: Incoming, k: nat): Desk {
    if f.qos.NeedsAck() then d.(responses := d.responses[IdAfter(k) := k]) else d
  }

  /** Of the requests sent, all but fewer than 2^32 - 1 have been answered in full. */
  ghost predicate RoomForMore(p: Plan, a: Place) {
    exists k: nat :: k <= a.sent && k <= |p| && a.sent - k < MAX && |AllCodesHeard(p, k)| <= a.heard
  }

  ghost predicate SendsNext(frames: seq<Incoming>, p: Plan, a: Place, b: Place) {
    && a.sent < |frames| && RoomForMore(p, a)
    && b == a.(sent := a.sent + 1, desk := Entered(a.desk, frames[a.sent], a.sent + 1))
  }

  /** The next acknowledgement on the stream is heard; the request it answers has been sent. */
  predicate HearsNext(p: Plan, codes: seq<Heard>, a: Place, b: Place) {
    && a.heard < |codes| && codes[a.heard].Acked?
    && a.sent <= |p| && a.heard < |AllCodesHeard(p, a.sent)|
    && b == a.(heard := a.heard + 1, desk := OnAck(a.desk, codes[a.heard].id, codes[a.heard].code))
  }

  /** Sending and hearing in any order. */
  ghost predicate IsLife(frames: seq<Incoming>, p: Plan, codes: seq<Heard>, places: seq<Place>) {
    && places != [] && places[0] == BEGINNING
    && forall i | 0 <= i < |places| - 1 ::
         SendsNext(frames, p, places[i], places[i + 1]) || HearsNext(p, codes, places[i], places[i + 1])
  }

  // ----- Every such life is a session

  /** The run is at this place of the client's life. */
  ghost predicate At(p: Plan, run: seq<Session>, a: Place) {
    && IsSession(p, run)
    && var s := run[|run| - 1];
       && s.sent == a.sent <= |p| && s.desk == a.desk && s.done <= s.sent
       && a.heard == |AllCodesHeard(p, s.done)| + s.pos
       && (s.pos > 0 ==> s.done < s.sent && s.pos <= |p[s.done]|)
  }

  lemma SessionGoesOn(p: Plan, run: seq<Session>, s: Session)
    requires IsSession(p, run) && (Sends(p, run[|run| - 1], s) || Receives(p, run[|run| - 1], s))
    ensures IsSession(p, run + [s])
  {
    hide Sends, Receives;
    var run' := run + [s];
    forall i | 0 <= i < |run'| - 1 ensures Sends(p, run'[i], run'[i + 1]) || Receives(p, run'[i], run'[i + 1]) {
      if i < |run| - 1 {
        assert run'[i] == run[i] && run'[i + 1] == run[i + 1];
      }
    }
  }

  /** Requests answered in full are done with. */
  lemma {:induction false} CatchUp(p: Plan, run: seq<Session>, a: Place, k: nat) returns (run': seq<Session>)
    requires At(p, run, a) && k <= a.sent && |AllCodesHeard(p, k)| <= a.heard
    ensures At(p, run', a) && k <= run'[|run'| - 1].done
    decreases k - run[|run| - 1].done
  {
    var s := run[|run| - 1];
    if k <= s.done {
      run' := run;
    } else {
      CodesPrefix(p, s.done + 1, k);
      var s' := s.(done := s.done + 1, pos := 0);
      hide IdAfter, IsSession;
      assert Receives(p, s, s');
      SessionGoesOn(p, run, s');
      run' := CatchUp(p, run + [s'], a, k);
    }
  }

  lemma {:induction false} RequestAnswered(p: Plan, sent: nat, heard: nat) returns (k: nat)
    requires sent <= |p| && heard < |AllCodesHeard(p, sent)|
    ensures k < sent && |AllCodesHeard(p, k)| <= heard < |AllCodesHeard(p, k + 1)|
  {
    if heard < |AllCodesHeard(p, sent - 1)| {
      k := RequestAnswered(p, sent - 1, heard);
    } else {
      k := sent - 1;
    }
  }

  lemma SendingIsSession(frames: seq<Incoming>, p: Plan, run: seq<Session>, a: Place, b: Place)
    returns (run': seq<Session>)
    requires At(p, run, a) && SendsNext(frames, p, a, b) && |p| == |frames|
    requires p[a.sent] != [] <==> frames[a.sent].qos.NeedsAck()
    ensures At(p, run', b)
  {
    var k: nat :| k <= a.sent && k <= |p| && a.sent - k < MAX && |AllCodesHeard(p, k)| <= a.heard;
    run' := CatchUp(p, run, a, k);
    var s := run'[|run'| - 1];
    var s' := s.(sent := b.sent, desk := b.desk);
    hide IdAfter, IsSession, RoomForMore;
    assert Sends(p, s, s');
    SessionGoesOn(p, run', s');
    run' := run' + [s'];
  }

  lemma HearingIsSession(p: Plan, run: seq<Session>, a: Place, b: Place) returns (run': seq<Session>)
    requires At(p, run, a) && HearsNext(p, AllCodesHeard(p, |p|), a, b)
    ensures At(p, run', b)
  {
    var k := RequestAnswered(p, a.sent, a.heard);
    run' := CatchUp(p, run, a, k);
    var s := run'[|run'| - 1];
    if k + 1 <= s.done {
      CodesPrefix(p, k + 1, s.done);
    }
    assert s.done == k;
    CodeAt(p, k, s.pos);
    var s' := s.(pos := s.pos + 1, desk := b.desk);
    hide IdAfter, IsSession, OnAck;
    assert Receives(p, s, s');
    SessionGoesOn(p, run', s');
    run' := run' + [s'];
  }

  lemma {:induction false} LifeIsSession(frames: seq<Incoming>, p: Plan, places: seq<Place>, i: nat)
    returns (run: seq<Session>)
    requires IsLife(frames, p, AllCodesHeard(p, |p|), places) && i < |places| && |p| == |frames|
    requires forall k | 0 <= k < |p| :: p[k] != [] <==> frames[k].qos.NeedsAck()
    ensures At(p, run, places[i])
    decreases i
  {
    hide SendsNext, HearsNext;
    if i == 0 {
      run := [START];
    } else {
      run := LifeIsSession(frames, p, places, i - 1);
      hide At;
      if SendsNext(frames, p, places[i - 1], places[i]) {
        SentIsThere(frames, p, places[i - 1], places[i]);
        run := SendingIsSession(frames, p, run, places[i - 1], places[i]);
      } else {
        run := HearingIsSession(p, run, places[i - 1], places[i]);
      }
    }
  }

  lemma SentIsThere(frames: seq<Incoming>, p: Plan, a: Place, b: Place)
    requires SendsNext(frames, p, a, b)
    ensures a.sent < |frames|
  {
  }

  // ----- What one client sends

  /** Requests as one client sends them, the k-th under the k-th id. */
  predicate SentInOrder(rs: seq<Request>) {
    forall k | 0 <= k < |rs| :: rs[k].Frame? && rs[k].id == IdAfter(k + 1) && Carriable(rs[k])
  }

  lemma {:induction false} IncomingsInOrder(rs: seq<Request>)
    requires forall k | 0 <= k < |rs| :: rs[k].Frame?
    ensures |Incomings(rs)| == |rs|
    ensures forall k | 0 <= k < |rs| :: Incomings(rs)[k] == IncomingOf(rs[k].id, rs[k].qos, rs[k].call)
  {
    hide IncomingOf;
    if rs != [] {
      IncomingsInOrder(rs[1..]);
    }
  }

  lemma NumberedRequests(rs: seq<Request>)
    requires SentInOrder(rs)
    ensures |Incomings(rs)| == |rs| && Numbered(Incomings(rs))
  {
    IncomingsInOrder(rs);
    hide Le32, IdAfter, Call.Body, Utf8;
    forall k | 0 <= k < |rs| ensures Incomings(rs)[k].idBytes == Le32(IdAfter(k + 1)) && Incomings(rs)[k].op != Nop {
      assert Carriable(rs[k]);
    }
  }

  lemma {:induction false} EncodeAllSnoc(rs: seq<Request>, r: Request)
    ensures EncodeAll(rs + [r]) == EncodeAll(rs) + Encode(r)
  {
    hide Encode;
    if rs == [] {
      assert EncodeAll([r]) == Encode(r) + [] && ([] + [r])[1..] == [];
    } else {
      EncodeAllSnoc(rs[1..], r);
      assert (rs + [r])[1..] == rs[1..] + [r];
      Regroup(Encode(rs[0]), EncodeAll(rs[1..]), Encode(r));
    }
  }

  lemma OrderOneMore(rs: seq<Request>, r: Request)
    requires SentInOrder(rs) && r.Frame? && r.id == IdAfter(|rs| + 1) && Carriable(r)
    ensures SentInOrder(rs + [r]) && forall k | 0 <= k < |rs| :: rs[k].Frame?
  {
    hide Carriable, IdAfter;
  }

  lemma {:induction false} OneMoreIncoming(rs: seq<Request>, r: Request)
    requires r.Frame? && forall k | 0 <= k < |rs| :: rs[k].Frame?
    ensures Incomings(rs + [r]) == Incomings(rs) + [IncomingOf(r.id, r.qos, r.call)]
    ensures |Incomings(rs)| == |rs|
  {
    IncomingsInOrder(rs);
    IncomingsInOrder(rs + [r]);
    hide IncomingOf, Incomings;
  }

  /** Every sending call of a client writes one more such request, and enters its waiter. */
  twostate lemma ClientWrites(c: IpcClient.Client, rs: seq<Request>, qos: QoS, call: Call)
    requires old(c.Valid()) && c.SentFrame(qos, call) && Carriable(Frame(c.frameId, qos, call))
    requires SentInOrder(rs) && old(c.issued) == |rs| && old(c.wire) == EncodeAll(rs)
    ensures var r := Frame(IdAfter(|rs| + 1), qos, call);
      && SentInOrder(rs + [r]) && c.issued == |rs + [r]| && c.wire == EncodeAll(rs + [r])
      && Incomings(rs + [r]) == Incomings(rs) + [IncomingOf(r.id, r.qos, r.call)]
      && c.DeskNow() == Entered(old(c.DeskNow()), IncomingOf(r.id, r.qos, r.call), |rs| + 1)
  {
    var r := Frame(IdAfter(|rs| + 1), qos, call);
    EncodeAllSnoc(rs, r);
    OrderOneMore(rs, r);
    OneMoreIncoming(rs, r);
    QosKept(r);
    hide EncodeAll, Encode, IdAfter, Carriable, SentInOrder, Incomings, IncomingOf;
  }

  lemma QosKept(r: Request)
    requires r.Frame?
    ensures IncomingOf(r.id, r.qos, r.call).qos == r.qos
  {
  }

  lemma FramesOf(rs: seq<Request>)
    requires SentInOrder(rs)
    ensures var frames := TakeAll(EncodeAll(rs), None).0; |frames| == |rs| && Numbered(frames)
  {
    NumberedRequests(rs);
    assert forall r | r in rs :: Carriable(r);
    TakeAllEncoded(rs);
  }

  // ----- Put together

  /** Each request that asked for it has been told the first code due for it as soon as that has been heard,
      no other request anything. */
  ghost predicate Told(
    frames: seq<Incoming>, outcomes: seq<Result<()>>, allow: FrameOp -> Text -> bool, a: Place)
    requires |outcomes| == |frames|
  {
    var p := PlanOf(frames, outcomes, allow);
    forall k | 0 <= k < |frames| ::
      && (k + 1 in a.desk.results <==> frames[k].qos.NeedsAck() && |AllCodesHeard(p, k)| < a.heard)
      && (k + 1 in a.desk.results ==> p[k] != [] && a.desk.results[k + 1] == ToResult(p[k][0]))
  }

  lemma AnsweredSoFar(p: Plan, s: Session, heard: nat, k: nat)
    requires k < |p| && s.done <= |p| && heard == |AllCodesHeard(p, s.done)| + s.pos
    requires s.pos > 0 ==> s.done < |p| && s.pos <= |p[s.done]|
    ensures p[k] != [] ==> (Answered(s, k + 1) <==> |AllCodesHeard(p, k)| < heard)
  {
    hide AllCodesHeard;
    CodesNext(p, k);
    if k < s.done {
      CodesPrefix(p, k + 1, s.done);
    } else if k > s.done {
      CodesNext(p, s.done);
      CodesPrefix(p, s.done + 1, k);
    }
  }

  lemma CodesNext(p: Plan, k: nat)
    requires k < |p|
    ensures |AllCodesHeard(p, k + 1)| == |AllCodesHeard(p, k)| + |p[k]|
  {
    hide IdAfter;
  }

  lemma ToldAt(p: Plan, run: seq<Session>, a: Place, k: nat)
    requires At(p, run, a) && k < |p|
    ensures k + 1 in a.desk.results <==> p[k] != [] && |AllCodesHeard(p, k)| < a.heard
    ensures k + 1 in a.desk.results ==> a.desk.results[k + 1] == ToResult(p[k][0])
  {
    hide AllCodesHeard, ToResult, Answered;
    assert run != [] && IsSession(p, run);
    hide IsSession;
    AnsweredSoFar(p, run[|run| - 1], a.heard, k);
    WaiterGetsFirstCode(p, run, |run| - 1, k + 1);
  }

  lemma ToldInSession(
    frames: seq<Incoming>, outcomes: seq<Result<()>>, allow: FrameOp -> Text -> bool, run: seq<Session>, a: Place)
    requires Handled(frames) && |outcomes| == |frames| && Numbered(frames)
    requires At(PlanOf(frames, outcomes, allow), run, a)
    ensures Told(frames, outcomes, allow, a)
  {
    var p := PlanOf(frames, outcomes, allow);
    hide PlanOf, AllCodesHeard, At, ToResult, Handled, Numbered;
    forall k | 0 <= k < |frames|
      ensures (k + 1 in a.desk.results <==> frames[k].qos.NeedsAck() && |AllCodesHeard(p, k)| < a.heard)
      ensures k + 1 in a.desk.results ==> p[k] != [] && a.desk.results[k + 1] == ToResult(p[k][0])
    {
      PlanAsks(frames, outcomes, allow, k);
      ToldAt(p, run, a, k);
    }
  }

  /** Over a new connection, everybody else going on in between: the requests a client has sent, read and served
      by the broker, whose writer puts all that is queued for the client on the stream. However sending and
      hearing alternate at the client, each request that asked for an acknowledgement is told the first code due
      for it as soon as that has been heard, and no other request anything. */
  lemma {:induction false} WaitersAreTold(
    m: Matching, client: BusRtClient, allow: FrameOp -> Text -> bool, rs: seq<Request>, frames: seq<Incoming>,
    outcomes: seq<Result<()>>, stages: seq<Stage>, mids: seq<Stage>, places: seq<Place>, i: nat)
    requires SentInOrder(rs) && frames == TakeAll(EncodeAll(rs), None).0
    requires Served(m, client, allow, frames, outcomes, stages, mids)
    requires client in stages[0].boxes && stages[0].boxes[client].log == []
    requires client in stages[|frames|].boxes && forall f | f in stages[|frames|].boxes[client].log :: Deliverable(f)
    requires IsLife(frames, PlanOf(frames, outcomes, allow), AcksWritten(stages[|frames|].boxes[client].log), places)
    requires i < |places|
    ensures |frames| == |rs| && Told(frames, outcomes, allow, places[i])
    ensures AcksWritten(stages[|frames|].boxes[client].log) ==
      AllCodesHeard(PlanOf(frames, outcomes, allow), |frames|)
  {
    FramesOf(rs);
    ServedAreConfirmed(m, client, allow, frames, outcomes, stages, mids);
    var log, p := stages[|frames|].boxes[client].log, PlanOf(frames, outcomes, allow);
    forall k | 0 <= k < |p| ensures p[k] != [] <==> frames[k].qos.NeedsAck() {
      PlanAsks(frames, outcomes, allow, k);
    }
    hide Served, TakeAll, EncodeAll, Handled, Numbered, SentInOrder, IsLife, AllCodesHeard, Told, AcksWritten;
    AnswersHeard(frames, outcomes, allow, log);
    var run := LifeIsSession(frames, p, places, i);
    ToldInSession(frames, outcomes, allow, run, places[i]);
  }
}
