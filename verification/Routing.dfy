/** Who is to get a frame, and what a delivery may cost, told from a snapshot of the broker. */
module Routing {
  import opened Bytes
  import opened Names
  import opened Protocol
  import opened BrokerClient
  import opened RegistrySpec
  import opened DeliverySpec
  import opened Wire

  /** Mask matching of the three kinds of maps, which the `submap` crate does: topic masks against
      topics, exclusion masks against topics, broadcast masks against client names. */
  datatype Matching = Matching(
    topic: (Text, Text) -> bool, exclusion: (Text, Text) -> bool, name: (Text, Text) -> bool)

  /** The directory and the queues at one moment. */
  datatype Stage = Stage(reg: Reg, boxes: Boxes)

  /** Some mask the client of that name subscribed to matches the topic. */
  predicate SubscribedTo(m: Matching, topics: set<(Text, Text)>, name: Text, topic: Text) {
    exists t :: t in topics && t.1 == name && m.topic(t.0, topic)
  }

  predicate Excludes(m: Matching, exclusions: set<Text>, topic: Text) {
    exists x :: x in exclusions && m.exclusion(x, topic)
  }

  /** Who is to get a publication: the registered subscribers that do not exclude the topic, of
      these only the ones with the given primary name if a receiver is named. */
  ghost function Audience(m: Matching, g: Stage, topic: Text, receiver: Option<Text>): set<BusRtClient> {
    set c | c in g.reg.registered && c in g.boxes && SubscribedTo(m, g.reg.topics, c.name, topic)
         && !Excludes(m, g.boxes[c].exclusions, topic)
         && (receiver.Some? ==> c.PrimaryName() == receiver.value)
  }

  /** The same, written out. */
  lemma AudienceExactly(m: Matching, g: Stage, topic: Text, receiver: Option<Text>)
    ensures forall c :: c in Audience(m, g, topic, receiver) <==>
      && c in g.reg.registered && c in g.boxes
      && (exists mask :: (mask, c.name) in g.reg.topics && m.topic(mask, topic))
      && (forall x | x in g.boxes[c].exclusions :: !m.exclusion(x, topic))
      && (receiver.Some? ==> PrimaryOf(c.name) == receiver.value)
  {
    hide PrimaryOf;
    forall name: Text ensures SubscribedTo(m, g.reg.topics, name, topic) <==>
      exists mask :: (mask, name) in g.reg.topics && m.topic(mask, topic)
    {
      if t :| t in g.reg.topics && t.1 == name && m.topic(t.0, topic) {
        assert (t.0, name) in g.reg.topics;
      }
      if mask :| (mask, name) in g.reg.topics && m.topic(mask, topic) {
        assert (mask, name).1 == name && (mask, name).0 == mask;
      }
    }
    hide SubscribedTo;
  }

  /** Who is to get a broadcast: the registered clients whose name the mask matches. */
  ghost function Named(m: Matching, s: Reg, mask: Text): set<BusRtClient> {
    set c | c in s.registered && m.name(mask, c.name)
  }

  /** Who is to get a message: the client registered under the target name. */
  ghost function Target(s: Reg, name: Text): set<BusRtClient> {
    if name in s.clients then {s.clients[name]} else {}
  }

  /** Who is to get a frame: nobody if the sender may not send it; else the client of that name, the
      clients the mask matches, or the audience of the topic. */
  ghost function Addressees(m: Matching, g: Stage, f: Incoming, action: Action, allow: Text -> bool)
    : set<BusRtClient>
    requires action.Route?
  {
    if !allow(action.target) then {}
    else if f.op.Message? then Target(g.reg, action.target)
    else if f.op.Broadcast? then Named(m, g.reg, action.target)
    else Audience(m, g, action.target, action.receiver)
  }

  /** The same for any frame, well-formed or not. */
  ghost function FrameAddressees(m: Matching, g: Stage, f: Incoming, allow: Text -> bool): set<BusRtClient> {
    var a := Interpret(f);
    if a.Ok? && a.value.Route? then Addressees(m, g, f, a.value, allow) else {}
  }

  /** Consumers at work do not change who is to get a frame. */
  lemma SameAddressees(m: Matching, g: Stage, g1: Stage, f: Incoming, allow: Text -> bool)
    requires g1.reg == g.reg && Consumed(g.boxes, g1.boxes)
    ensures FrameAddressees(m, g1, f, allow) == FrameAddressees(m, g, f, allow)
  {
    hide Interpret, SubscribedTo, Excludes;
    forall topic, receiver ensures Audience(m, g1, topic, receiver) == Audience(m, g, topic, receiver) {
    }
  }

  /** Only subscriptions of the client of that name have changed. */
  predicate OthersTopicsKept(name: Text, topics: set<(Text, Text)>, topics': set<(Text, Text)>) {
    && (forall t | t in topics' && t.1 != name :: t in topics)
    && (forall t | t in topics && t.1 != name :: t in topics')
  }

  /** A name goes with a chosen client whose channel has been closed meanwhile. */
  ghost predicate Gone(n: Text, b: Boxes, b': Boxes, chosen: set<BusRtClient>) {
    exists c :: c in chosen && NewlyClosed(b, b', c) && GoesWith(n, c)
  }

  /** What a delivery has cost: exactly the chosen clients whose channels have been closed and, for
      primaries, their secondaries have left the registry. */
  ghost predicate Cost(s: Reg, s': Reg, b: Boxes, b': Boxes, chosen: set<BusRtClient>) {
    && s'.all == s.all
    && s'.registered == (set o | o in s.registered && !Gone(o.name, b, b', chosen))
    && s'.clients == (map n | n in s.clients && !Gone(n, b, b', chosen) :: s.clients[n])
    && s'.topics == (set t | t in s.topics && !Gone(t.1, b, b', chosen))
    && Warned(s, s', b, b', chosen)
    && (Aligned(s) ==> Aligned(s'))
    && ((forall c | c in chosen :: !NewlyClosed(b, b', c)) ==> s' == s)
  }

  /** Who has been told to disconnect: of the clients that left, internal ones excepted, all that have not
      been closed themselves, and nobody else. */
  ghost predicate Warned(s: Reg, s': Reg, b: Boxes, b': Boxes, chosen: set<BusRtClient>) {
    && s.disconnected <= s'.disconnected
    && (forall o | o in s'.disconnected && o !in s.disconnected ::
          o in s.registered && o !in s'.registered && o.kind != Internal)
    && (forall o | o in s.registered && o !in s'.registered && o.kind != Internal ::
          o in s'.disconnected || (o in chosen && NewlyClosed(b, b', o)))
  }

  /** The moment before a delivery: those chosen are registered, so only internal ones can be closed. */
  ghost predicate Ready(s: Reg, b: Boxes, chosen: set<BusRtClient>) {
    && Aligned(s) && chosen <= s.registered
    && forall c | c in chosen :: c in b && (b[c].closed ==> c.kind == Internal)
  }

  lemma NoCost(s: Reg, b: Boxes, chosen: set<BusRtClient>)
    ensures Cost(s, s, b, b, chosen)
  {
    hide Aligned, GoesWith;
    assert forall n :: !Gone(n, b, b, chosen);
  }

  /** Only the closing of channels matters. */
  lemma CostOfClosing(s: Reg, s': Reg, b: Boxes, b1: Boxes, b2: Boxes, chosen: set<BusRtClient>)
    requires Cost(s, s', b, b1, chosen)
    requires SameClosed(b1, b2)
    ensures Cost(s, s', b, b2, chosen)
  {
    hide Aligned, GoesWith;
    assert forall c :: NewlyClosed(b, b2, c) <==> NewlyClosed(b, b1, c);
    forall n ensures Gone(n, b, b2, chosen) <==> Gone(n, b, b1, chosen) {
    }
    hide NewlyClosed, Gone;
  }

  /** One more chosen client has had its turn. */
  ghost predicate ClosedNext(b: Boxes, b1: Boxes, b2: Boxes, chosen: set<BusRtClient>, c: BusRtClient) {
    && c in chosen && c in b && c in b1 && Kept(b[c], b1[c])
    && (NewlyClosed(b, b2, c) <==> Overruns(b1, c))
    && forall x | x in chosen && x != c :: NewlyClosed(b, b2, x) <==> NewlyClosed(b, b1, x)
  }

  lemma ClosedNextBy(
    b: Boxes, b1: Boxes, b2: Boxes, chosen: set<BusRtClient>, c: BusRtClient, frame: FrameData, out: Delivery)
    requires c in chosen && c in b && c in b1 && Kept(b[c], b1[c]) && (b[c].closed ==> c.kind == Internal)
    requires Delivered(b1, b2, c, frame, out)
    ensures ClosedNext(b, b1, b2, chosen, c)
  {
    ClosedIfOverrun(b1, b2, c, frame, out);
    hide Delivered, Overruns, FedTo;
  }

  lemma GoneOneMore(b: Boxes, b1: Boxes, b2: Boxes, chosen: set<BusRtClient>, c: BusRtClient, n: Text)
    requires ClosedNext(b, b1, b2, chosen, c)
    ensures Gone(n, b, b2, chosen) <==> Gone(n, b, b1, chosen) || (Overruns(b1, c) && GoesWith(n, c))
  {
    hide GoesWith;
    assert !NewlyClosed(b, b1, c);
    hide NewlyClosed;
    if x :| x in chosen && NewlyClosed(b, b1, x) && GoesWith(n, x) {
      assert NewlyClosed(b, b2, x);
    }
  }

  /** The names gone after one more turn, and whether anybody has been closed. */
  lemma GoneNext(b: Boxes, b1: Boxes, b2: Boxes, chosen: set<BusRtClient>, c: BusRtClient)
    requires ClosedNext(b, b1, b2, chosen, c)
    ensures forall n :: Gone(n, b, b2, chosen) <==> Gone(n, b, b1, chosen) || (Overruns(b1, c) && GoesWith(n, c))
    ensures Overruns(b1, c) ==> NewlyClosed(b, b2, c)
    ensures !Overruns(b1, c) ==> forall x | x in chosen :: NewlyClosed(b, b2, x) <==> NewlyClosed(b, b1, x)
    ensures forall x | x in chosen :: NewlyClosed(b, b1, x) ==> NewlyClosed(b, b2, x)
  {
    forall n ensures Gone(n, b, b2, chosen) <==> Gone(n, b, b1, chosen) || (Overruns(b1, c) && GoesWith(n, c)) {
      GoneOneMore(b, b1, b2, chosen, c, n);
    }
    assert !NewlyClosed(b, b1, c);
    hide Gone, GoesWith, NewlyClosed;
  }

  lemma CostOneMore(
    s: Reg, s1: Reg, s2: Reg, b: Boxes, b1: Boxes, b2: Boxes, chosen: set<BusRtClient>, c: BusRtClient)
    requires Aligned(s) && chosen <= s.registered && Cost(s, s1, b, b1, chosen)
    requires ClosedNext(b, b1, b2, chosen, c) && c in s1.secondaries
    requires s2 == if Overruns(b1, c) then Dropped(s1, c) else s1
    ensures Cost(s, s2, b, b2, chosen)
  {
    GoneNext(b, b1, b2, chosen, c);
    hide ClosedNext, Aligned, Gone, Dropped, Overruns, NewlyClosed, GoesWith;
    if Overruns(b1, c) {
      if c in s1.registered {
        CostOfDrop(s, s1, b, b1, b2, chosen, c);
      } else {
        NoFlagNoDrop(s1, c);
        AlreadyGone(s, b, b1, chosen, c);
        hide Cost;
        CostAsBefore(s, s1, b, b1, b2, chosen);
      }
    } else {
      hide Cost;
      CostAsBefore(s, s1, b, b1, b2, chosen);
    }
  }

  lemma CostAsBefore(s: Reg, s1: Reg, b: Boxes, b1: Boxes, b2: Boxes, chosen: set<BusRtClient>)
    requires Cost(s, s1, b, b1, chosen)
    requires forall n | Gone(n, b, b2, chosen) :: Gone(n, b, b1, chosen)
    requires forall x | x in chosen :: NewlyClosed(b, b1, x) ==> NewlyClosed(b, b2, x)
    ensures Cost(s, s1, b, b2, chosen)
  {
    hide Aligned, GoesWith, NewlyClosed;
    forall n ensures Gone(n, b, b2, chosen) <==> Gone(n, b, b1, chosen) {
    }
    hide Gone;
  }

  /** A chosen client that has left with its primary takes nobody else with it. */
  lemma AlreadyGone(s: Reg, b: Boxes, b1: Boxes, chosen: set<BusRtClient>, c: BusRtClient)
    requires Aligned(s) && chosen <= s.registered && c in chosen
    requires Gone(c.name, b, b1, chosen) && !NewlyClosed(b, b1, c)
    ensures forall n | GoesWith(n, c) :: Gone(n, b, b1, chosen)
  {
    hide NewlyClosed, SecondariesAligned, PrimariesPresent;
    var x :| x in chosen && NewlyClosed(b, b1, x) && GoesWith(c.name, x);
    assert s.clients[x.name] == x && s.clients[c.name] == c;
    assert !c.Primary();
  }

  lemma CostOfDrop(
    s: Reg, s1: Reg, b: Boxes, b1: Boxes, b2: Boxes, chosen: set<BusRtClient>, c: BusRtClient)
    requires Aligned(s) && Cost(s, s1, b, b1, chosen) && c in chosen && c in s1.registered
    requires NewlyClosed(b, b2, c)
    requires forall x | x in chosen :: NewlyClosed(b, b1, x) ==> NewlyClosed(b, b2, x)
    requires forall n :: Gone(n, b, b2, chosen) <==> Gone(n, b, b1, chosen) || GoesWith(n, c)
    ensures c in s1.secondaries && Cost(s, Dropped(s1, c), b, b2, chosen)
  {
    hide Aligned, Dropped, Gone, GoesWith, NewlyClosed, Warned;
    DropIsExact(s1, c);
    WarnedOneMore(s, s1, Dropped(s1, c), b, b1, b2, chosen, c);
  }

  lemma WarnedOneMore(
    s: Reg, s1: Reg, s2: Reg, b: Boxes, b1: Boxes, b2: Boxes, chosen: set<BusRtClient>, c: BusRtClient)
    requires Warned(s, s1, b, b1, chosen) && c in chosen && NewlyClosed(b, b2, c)
    requires s1.registered <= s.registered && s2.registered <= s1.registered
    requires forall x | x in chosen :: NewlyClosed(b, b1, x) ==> NewlyClosed(b, b2, x)
    requires s2.registered == set o | o in s1.registered && !GoesWith(o.name, c)
    requires s2.disconnected == s1.disconnected +
               (set o | o in s1.registered && GoesWith(o.name, c) && o != c && o.kind != Internal)
    ensures Warned(s, s2, b, b2, chosen)
  {
    hide GoesWith, NewlyClosed;
  }

  lemma DropIsExact(s: Reg, c: BusRtClient)
    requires Aligned(s) && c in s.registered
    ensures c in s.secondaries
    ensures var d := Dropped(s, c);
      && Aligned(d) && d.all == s.all && d.registered <= s.registered
      && d.clients == (map n | n in s.clients && !GoesWith(n, c) :: s.clients[n])
      && d.topics == (set t | t in s.topics && !GoesWith(t.1, c))
      && d.registered == (set o | o in s.registered && !GoesWith(o.name, c))
      && d.disconnected == s.disconnected +
           (set o | o in s.registered && GoesWith(o.name, c) && o != c && o.kind != Internal)
  {
    DropOnlyClears(s, c);
    DropRemovesExactly(s, c);
    hide Dropped, GoesWith;
  }

  lemma NoFlagNoDrop(s: Reg, c: BusRtClient)
    requires c in s.secondaries
    ensures c !in s.registered ==> Dropped(s, c) == s
  {
  }
}
