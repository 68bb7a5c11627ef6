/** What deliveries do to the clients' queues, on snapshots of them. */
module DeliverySpec {
  import opened Bytes
  import opened Protocol
  import opened BrokerClient

  /** A client's incoming side: every frame taken so far, whether the queue is full, whether the channel
      is closed; and its exclusion list with the flag that caches whether the list is in use. */
  datatype Box = Box(log: seq<FrameData>, full: bool, closed: bool, hasExclusions: bool, exclusions: set<Text>)

  /** What became of a frame on its way into a queue. */
  datatype Delivery = Accepted | Refused(error: ErrorKind) | GivenUp

  type Boxes = map<BusRtClient, Box>

  /** What a sender hands over. */
  datatype Load = Load(header: Option<seq<byte>>, buf: seq<byte>, payloadPos: nat, realtime: bool)

  /** The receiver of a client's channel has gone. */
  ghost function WithClosed(b: Boxes, c: BusRtClient): Boxes {
    if c in b then b[c := b[c].(closed := true)] else b
  }

  /** Nothing has happened to a client but that its consumer may have taken frames from the queue. */
  predicate Kept(x: Box, y: Box) {
    && y.log == x.log && y.closed == x.closed
    && y.hasExclusions == x.hasExclusions && y.exclusions == x.exclusions
    && (y.full ==> x.full)
  }

  ghost predicate Consumed(b: Boxes, b': Boxes) {
    b'.Keys == b.Keys && forall c | c in b :: Kept(b[c], b'[c])
  }

  /** A wait for room that has been given up: the queue of an open internal client is still full. */
  predicate Waits(kind: ClientKind, x: Box, y: Box) {
    kind == Internal && x.full && y.full && !y.closed && y.log == x.log
  }

  /** The client has taken the frame, unless its channel is closed, which happens to a client that is not
      internal when its queue is full; or the wait for room has been given up. */
  predicate Took(kind: ClientKind, x: Box, y: Box, frame: FrameData, givenUp: bool) {
    && y.hasExclusions == x.hasExclusions && y.exclusions == x.exclusions
    && (x.closed ==> y.closed)
    && (y.closed && !x.closed ==> x.full && kind != Internal)
    && if y.closed then y.log == x.log
       else y.log == x.log + [frame] || (givenUp && Waits(kind, x, y))
  }

  /** The reached clients have got the frame, nobody else has got anything. */
  ghost predicate FedTo(b: Boxes, b': Boxes, reached: set<BusRtClient>, frame: FrameData, givenUp: bool) {
    && b'.Keys == b.Keys
    && forall c | c in b :: if c in reached then Took(c.kind, b[c], b'[c], frame, givenUp) else Kept(b[c], b'[c])
  }

  /** Some chosen client's queue is what the sender waited for in vain. */
  ghost predicate Stuck(b: Boxes, b': Boxes, chosen: set<BusRtClient>) {
    exists c :: c in chosen && c in b && c in b' && Waits(c.kind, b[c], b'[c])
  }

  lemma FedNobody(b: Boxes, frame: FrameData)
    ensures FedTo(b, b, {}, frame, false)
  {
  }

  lemma FedOneMore(
    b: Boxes, b1: Boxes, b2: Boxes, reached: set<BusRtClient>, c: BusRtClient, frame: FrameData, givenUp: bool)
    requires FedTo(b, b1, reached, frame, false) && c !in reached
    requires FedTo(b1, b2, {c}, frame, givenUp)
    ensures FedTo(b, b2, reached + {c}, frame, givenUp)
  {
  }

  /** Consumers at work make no difference to what a delivery has achieved. */
  lemma FedThenConsumed(b: Boxes, b1: Boxes, b2: Boxes, reached: set<BusRtClient>, frame: FrameData)
    requires FedTo(b, b1, reached, frame, false) && Consumed(b1, b2)
    ensures FedTo(b, b2, reached, frame, false)
  {
  }

  /** The same channels are open. */
  ghost predicate SameClosed(b: Boxes, b': Boxes) {
    b'.Keys == b.Keys && forall c | c in b :: b'[c].closed == b[c].closed
  }

  lemma SameClosedAsBefore(b: Boxes)
    ensures SameClosed(b, b)
  {
  }

  lemma ConsumedClosesNothing(b: Boxes, b': Boxes)
    requires Consumed(b, b')
    ensures SameClosed(b, b')
  {
  }

  /** Nor does an acknowledgement that has been queued. */
  lemma AckClosesNothing(b: Boxes, b': Boxes, client: BusRtClient, ack: FrameData)
    requires client in b && FedTo(b, b', {client}, ack, false) && !b'[client].closed
    ensures SameClosed(b, b')
  {
  }

  lemma ConsumedTwice(b: Boxes, b1: Boxes, b2: Boxes)
    requires Consumed(b, b1) && Consumed(b1, b2)
    ensures Consumed(b, b2)
  {
  }

  /** A client whose queue is full loses its registration unless it is internal. */
  predicate Overruns(b: Boxes, c: BusRtClient)
    requires c in b
  {
    b[c].full && c.kind != Internal
  }

  /** The client's channel has been closed meanwhile. */
  predicate NewlyClosed(b: Boxes, b': Boxes, c: BusRtClient) {
    c in b && c in b' && !b[c].closed && b'[c].closed
  }

  /** A client the loop has not come to yet has as much room as at the start, or more. */
  lemma StillRoom(b: Boxes, b1: Boxes, reached: set<BusRtClient>, c: BusRtClient, frame: FrameData)
    requires FedTo(b, b1, reached, frame, false) && c !in reached && c in b
    ensures c in b1 && Kept(b[c], b1[c])
  {
  }

  /** A delivery closes the channel of a client exactly if its queue overruns, and nobody else's. */
  lemma ClosedIfOverrun(b: Boxes, b': Boxes, tgt: BusRtClient, frame: FrameData, out: Delivery)
    requires Delivered(b, b', tgt, frame, out) && (b[tgt].closed ==> tgt.kind == Internal)
    ensures b'.Keys == b.Keys && (b'[tgt].closed <==> b[tgt].closed || Overruns(b, tgt))
    ensures Overruns(b, tgt) ==> !b[tgt].closed
    ensures forall c | c in b && c != tgt :: b'[c].closed == b[c].closed
  {
  }

  /** One delivery: the client takes the frame unless its channel is closed, its queue overruns, or the
      wait for room in a full queue is given up. */
  ghost predicate Delivered(b: Boxes, b': Boxes, tgt: BusRtClient, frame: FrameData, out: Delivery) {
    && tgt in b && FedTo(b, b', {tgt}, frame, out.GivenUp?)
    && (out.Accepted? <==> b'[tgt].log == b[tgt].log + [frame])
    && (out.GivenUp? ==> Waits(tgt.kind, b[tgt], b'[tgt]))
    && if Overruns(b, tgt) then out == Refused(NotDelivered)
       else (out.Refused? <==> b[tgt].closed) && (out.Refused? ==> out.error == Eof)
  }

  /** The same, leaving open what happens in the queue of the sender, who may be among the receivers and
      gets the acknowledgement besides. */
  ghost predicate FedOthers(
    b: Boxes, b': Boxes, reached: set<BusRtClient>, frame: FrameData, sender: BusRtClient, givenUp: bool)
  {
    && b'.Keys == b.Keys
    && forall c | c in b && c != sender ::
         if c in reached then Took(c.kind, b[c], b'[c], frame, givenUp) else Kept(b[c], b'[c])
  }
}
