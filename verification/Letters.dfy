/** Messages from end to end over one connection, while everybody else keeps sending too. */
module Letters {
  import opened Bytes
  import opened Protocol
  import opened BrokerClient
  import opened DeliverySpec
  import opened Routing
  import opened Wire
  import opened ReaderSpec
  import opened Others
  import opened Connection

  // ----- One sender's frames among all that a client has been sent

  function From(sender: Text, log: seq<FrameData>): seq<FrameData> {
    if log == [] then []
    else (if log[0].sender == Some(sender) then [log[0]] else []) + From(sender, log[1..])
  }

  lemma {:induction false} FromConcat(sender: Text, a: seq<FrameData>, b: seq<FrameData>)
    ensures From(sender, a + b) == From(sender, a) + From(sender, b)
  {
    if a == [] {
      assert a + b == b;
    } else {
      FromConcat(sender, a[1..], b);
      assert (a + b)[1..] == a[1..] + b;
      Regroup(if a[0].sender == Some(sender) then [a[0]] else [], From(sender, a[1..]), From(sender, b));
    }
  }

  lemma {:induction false} FromOneSender(sender: Text, log: seq<FrameData>)
    ensures (forall f | f in log :: f.sender == Some(sender)) ==> From(sender, log) == log
    ensures (forall f | f in log :: f.sender != Some(sender)) ==> From(sender, log) == []
  {
    if log != [] {
      FromOneSender(sender, log[1..]);
      assert log == [log[0]] + log[1..];
    }
  }

  lemma {:induction false} FromFinds(sender: Text, log: seq<FrameData>, f: FrameData)
    requires f in log && f.sender == Some(sender)
    ensures f in From(sender, log)
  {
    if f != log[0] {
      FromFinds(sender, log[1..], f);
    }
  }

  lemma {:induction false} RoutedSnoc(frames: seq<Incoming>, sender: Text, meant: seq<bool>, f: Incoming, b: bool)
    requires |meant| == |frames|
    ensures Routed(frames + [f], sender, meant + [b]) == Routed(frames, sender, meant) + RoutedOne(f, sender, b)
  {
    hide RoutedOne;
    if frames == [] {
      assert RoutedOne(f, sender, b) + [] == RoutedOne(f, sender, b);
    } else {
      RoutedSnoc(frames[1..], sender, meant[1..], f, b);
      assert (frames + [f])[1..] == frames[1..] + [f] && (meant + [b])[1..] == meant[1..] + [b];
      Regroup(RoutedOne(frames[0], sender, meant[0]), Routed(frames[1..], sender, meant[1..]), RoutedOne(f, sender, b));
    }
  }

  lemma RoutedFromSender(f: Incoming, sender: Text, meant: bool)
    ensures forall x | x in RoutedOne(f, sender, meant) :: x.sender == Some(sender)
  {
    hide Interpret;
  }

  /** Where the others bear other names, the sender's frames are the messages meant for the receiver. */
  lemma {:induction false} WovenFrom(
    gaps: seq<seq<FrameData>>, frames: seq<Incoming>, sender: Text, meant: seq<bool>)
    requires |gaps| == |frames| == |meant|
    requires forall i | 0 <= i < |gaps| :: forall f | f in gaps[i] :: f.sender != Some(sender)
    ensures From(sender, Woven(gaps, frames, sender, meant)) == Routed(frames, sender, meant)
    decreases |frames|
  {
    if frames != [] {
      var n := |frames| - 1;
      assert forall i | 0 <= i < n :: gaps[..n][i] == gaps[i];
      WovenFrom(gaps[..n], frames[..n], sender, meant[..n]);
      FromOneSender(sender, gaps[n]);
      WovenSnoc(gaps, frames, sender, meant);
    }
  }

  lemma {:induction false} WovenSnoc(
    gaps: seq<seq<FrameData>>, frames: seq<Incoming>, sender: Text, meant: seq<bool>)
    requires |gaps| == |frames| == |meant| > 0 && From(sender, gaps[|gaps| - 1]) == []
    requires var n := |frames| - 1;
      From(sender, Woven(gaps[..n], frames[..n], sender, meant[..n])) == Routed(frames[..n], sender, meant[..n])
    ensures From(sender, Woven(gaps, frames, sender, meant)) == Routed(frames, sender, meant)
  {
    hide From, Routed, RoutedOne;
    var n := |frames| - 1;
    var before, own := Woven(gaps[..n], frames[..n], sender, meant[..n]), RoutedOne(frames[n], sender, meant[n]);
    assert Woven(gaps, frames, sender, meant) == before + gaps[n] + own;
    hide *;
    RoutedFromSender(frames[n], sender, meant[n]);
    FromOneSender(sender, own);
    FromConcat(sender, before, gaps[n]);
    FromConcat(sender, before + gaps[n], own);
    assert From(sender, before) + [] == From(sender, before);
    RoutedSnoc(frames[..n], sender, meant[..n], frames[n], meant[n]);
    assert frames == frames[..n] + [frames[n]] && meant == meant[..n] + [meant[n]];
  }

  // ----- Over a connection

  /** No other client object bears the name. */
  ghost predicate Alone(client: BusRtClient, b: Boxes) {
    forall o | o in b && o != client :: o.name != client.name
  }

  lemma StepKeepsRecords(
    m: Matching, client: BusRtClient, f: Incoming, allow: Text -> bool, outcome: Result<()>, g: Stage, g': Stage)
    requires FrameStep(m, client, f, allow, outcome, g, g')
    ensures g'.boxes.Keys == g.boxes.Keys
  {
    hide Interpret;
  }

  lemma BetweenKeepsRecords(client: BusRtClient, g: Stage, g': Stage)
    requires Between(client, g, g')
    ensures forall o | o in g.boxes :: o in g'.boxes
  {
    hide Steady, Grown;
  }

  lemma TurnKeepsRecords(
    m: Matching, client: BusRtClient, allow: FrameOp -> Text -> bool, frames: seq<Incoming>,
    outcomes: seq<Result<()>>, stages: seq<Stage>, mids: seq<Stage>, i: nat)
    requires Served(m, client, allow, frames, outcomes, stages, mids) && i < |frames|
    ensures forall o | o in stages[i].boxes :: o in mids[i].boxes
    ensures mids[i].boxes.Keys == stages[i + 1].boxes.Keys
  {
    hide FrameStep, Between;
    BetweenKeepsRecords(client, stages[i], mids[i]);
    StepKeepsRecords(m, client, frames[i], allow(frames[i].op), outcomes[i], mids[i], stages[i + 1]);
  }

  /** Clients, once created, stay on record. */
  lemma {:induction false} RecordsStay(
    m: Matching, client: BusRtClient, allow: FrameOp -> Text -> bool, frames: seq<Incoming>,
    outcomes: seq<Result<()>>, stages: seq<Stage>, mids: seq<Stage>, i: nat, j: nat)
    requires Served(m, client, allow, frames, outcomes, stages, mids) && i <= j <= |frames|
    ensures forall o | o in stages[i].boxes :: o in stages[j].boxes
    decreases j
  {
    hide FrameStep, Between;
    if i < j {
      RecordsStay(m, client, allow, frames, outcomes, stages, mids, i, j - 1);
      TurnKeepsRecords(m, client, allow, frames, outcomes, stages, mids, j - 1);
    }
  }

  lemma GapsOfOthers(
    m: Matching, client: BusRtClient, allow: FrameOp -> Text -> bool, frames: seq<Incoming>,
    outcomes: seq<Result<()>>, stages: seq<Stage>, mids: seq<Stage>, c: BusRtClient, i: nat)
    requires Served(m, client, allow, frames, outcomes, stages, mids) && i < |frames| && c in stages[i].boxes
    requires Alone(client, stages[|frames|].boxes)
    ensures forall f | f in Gaps(stages, mids, c)[i] :: f.sender != Some(client.name)
  {
    hide FrameStep, Between, FromOther, Alone;
    RecordsStay(m, client, allow, frames, outcomes, stages, mids, i + 1, |frames|);
    TurnKeepsRecords(m, client, allow, frames, outcomes, stages, mids, i);
    GapLeft(client, stages[i], mids[i], c);
    hide Served, Since;
    forall f | f in Since(stages[i], mids[i], c) ensures f.sender != Some(client.name) {
      NotUnderThisName(client, c, f, mids[i].boxes, stages[|frames|].boxes);
    }
  }

  lemma NotUnderThisName(client: BusRtClient, c: BusRtClient, f: FrameData, b: Boxes, b': Boxes)
    requires FromOther(client, c, f, b) && Alone(client, b') && forall o | o in b :: o in b'
    ensures f.sender != Some(client.name)
  {
  }

  /** While nobody else bears the sender's name: of all that any other client has been sent, the frames under
      that name are exactly the messages meant for it, in order. */
  lemma {:induction false} OwnLettersInOrder(
    m: Matching, client: BusRtClient, allow: FrameOp -> Text -> bool, frames: seq<Incoming>,
    outcomes: seq<Result<()>>, stages: seq<Stage>, mids: seq<Stage>, c: BusRtClient)
    requires Served(m, client, allow, frames, outcomes, stages, mids) && c in stages[0].boxes && c != client
    requires Alone(client, stages[|frames|].boxes)
    requires c in stages[|frames|].boxes && !stages[|frames|].boxes[c].closed
    ensures From(client.name, Since(stages[0], stages[|frames|], c)) ==
      Routed(frames, client.name, MeantFor(m, allow, frames, mids, c))
  {
    ServedAreSpread(m, client, allow, frames, outcomes, stages, mids, c);
    forall i | 0 <= i < |frames|
      ensures forall f | f in Gaps(stages, mids, c)[i] :: f.sender != Some(client.name)
    {
      RecordsStay(m, client, allow, frames, outcomes, stages, mids, 0, i);
      GapsOfOthers(m, client, allow, frames, outcomes, stages, mids, c, i);
    }
    WovenFrom(Gaps(stages, mids, c), frames, client.name, MeantFor(m, allow, frames, mids, c));
    hide *;
  }

  // ----- Read at the other end

  function LettersOf(sender: Text, letters: seq<Letter>): seq<Letter> {
    if letters == [] then []
    else (if letters[0].sender == sender then [letters[0]] else []) + LettersOf(sender, letters[1..])
  }

  lemma {:induction false} LettersOfConcat(sender: Text, a: seq<Letter>, b: seq<Letter>)
    ensures LettersOf(sender, a + b) == LettersOf(sender, a) + LettersOf(sender, b)
  {
    if a == [] {
      assert a + b == b;
    } else {
      LettersOfConcat(sender, a[1..], b);
      assert (a + b)[1..] == a[1..] + b;
      Regroup(if a[0].sender == sender then [a[0]] else [], LettersOf(sender, a[1..]), LettersOf(sender, b));
    }
  }

  lemma LetterUnderItsName(sender: Text, f: FrameData)
    requires Queueable(f)
    ensures Readable(HeardOf(f))
    ensures LettersOf(sender, ReceivedOne(HeardOf(f))) ==
      if f.sender == Some(sender) then ReceivedOne(HeardOf(f)) else []
  {
    CarriedSame(f);
    hide Utf8, Announced;
    var letters := ReceivedOne(HeardOf(f));
    assert letters != [] ==> letters[1..] == [] && letters == [letters[0]];
  }

  /** Reading all and keeping one sender's letters is reading that sender's frames. */
  lemma {:induction false} HeardFrom(sender: Text, log: seq<FrameData>)
    requires forall f | f in log :: Queueable(f)
    ensures forall f | f in From(sender, log) :: Queueable(f)
    ensures forall h | h in HeardAll(log) :: Readable(h)
    ensures forall h | h in HeardAll(From(sender, log)) :: Readable(h)
    ensures LettersOf(sender, AllReceived(HeardAll(log))) == AllReceived(HeardAll(From(sender, log)))
  {
    if log != [] {
      var f, rest := log[0], log[1..];
      HeardFrom(sender, rest);
      LetterUnderItsName(sender, f);
      assert log == [f] + rest && f in log;
      hide Queueable, HeardOf, ReceivedOne, Readable, HeardAll, AllReceived;
      HeardCons(f, rest);
      LettersOfConcat(sender, ReceivedOne(HeardOf(f)), AllReceived(HeardAll(rest)));
      hide LettersOf;
      if f.sender == Some(sender) {
        HeardCons(f, From(sender, rest));
      } else {
        assert [] + From(sender, rest) == From(sender, rest);
        assert [] + AllReceived(HeardAll(From(sender, rest))) == AllReceived(HeardAll(From(sender, rest)));
      }
    }
  }

  /** Put together: the requests a client has written, read by the broker in one connection and served while
      everybody else goes on, put into the queue of another client among the frames of the others, written to
      its socket and read there: the letters under the sender's name are exactly those that were for it, told
      from the broker's directory at the moment each was handled. */
  lemma LettersArrive(
    m: Matching, client: BusRtClient, allow: FrameOp -> Text -> bool, rs: seq<Request>, frames: seq<Incoming>,
    outcomes: seq<Result<()>>, stages: seq<Stage>, mids: seq<Stage>, c: BusRtClient)
    requires Utf8(client.name) && NulFree(client.name) && (forall r | r in rs :: Postable(r, client.name))
    requires frames == TakeAll(EncodeAll(rs), None).0
    requires Served(m, client, allow, frames, outcomes, stages, mids)
    requires c in stages[0].boxes && c != client && Alone(client, stages[|frames|].boxes)
    requires c in stages[|frames|].boxes && !stages[|frames|].boxes[c].closed
    requires forall f | f in Since(stages[0], stages[|frames|], c) ::
      f.sender == Some(client.name) || Deliverable(f)
    ensures |frames| == |Incomings(rs)|
    ensures var queued := Since(stages[0], stages[|frames|], c);
      && (forall f | f in queued :: f.Valid())
      && var (heard, last) := ListenAll(WriteAll(queued));
         && last == Eof && (forall h | h in heard :: Readable(h))
         && LettersOf(client.name, AllReceived(heard)) ==
              AllSent(rs, client.name, MeantFor(m, allow, frames, mids, c))
  {
    AllTaken(rs, client.name);
    var meant := MeantFor(m, allow, frames, mids, c);
    var queued := Since(stages[0], stages[|frames|], c);
    OwnLettersInOrder(m, client, allow, frames, outcomes, stages, mids, c);
    RoutedLetters(rs, client.name, meant);
    hide Served, Alone, Routed, TakeAll, EncodeAll, WriteAll, ListenAll, Postable, AllSent;
    ReadAmongOthers(client.name, queued, Routed(frames, client.name, meant));
  }

  lemma ReadAmongOthers(sender: Text, queued: seq<FrameData>, own: seq<FrameData>)
    requires From(sender, queued) == own && AllDeliverable(own)
    requires forall f | f in queued :: f.sender == Some(sender) || Deliverable(f)
    ensures forall f | f in queued :: f.Valid()
    ensures var (heard, last) := ListenAll(WriteAll(queued));
      && last == Eof && (forall h | h in heard :: Readable(h))
      && (forall h | h in HeardAll(own) :: Readable(h))
      && LettersOf(sender, AllReceived(heard)) == AllReceived(HeardAll(own))
  {
    forall f | f in queued ensures Deliverable(f) {
      if f.sender == Some(sender) {
        FromFinds(sender, queued, f);
      }
    }
    ListenAllWritten(queued);
    assert forall f | f in queued :: Deliverable(f) ==> Queueable(f);
    hide Deliverable, Queueable, From, LettersOf, Readable;
    HeardFrom(sender, queued);
  }

  lemma AllTaken(rs: seq<Request>, sender: Text)
    requires forall r | r in rs :: Postable(r, sender)
    ensures TakeAll(EncodeAll(rs), None).0 == Incomings(rs)
  {
    assert forall r | r in rs :: Postable(r, sender) ==> Carriable(r);
    TakeAllEncoded(rs);
  }
}
