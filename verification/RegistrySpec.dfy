/** What the client registry's operations do, as functions on a snapshot of the registry, and what
    every sequence of them keeps. Client objects stand for themselves; equal names do not make
    two objects equal. */
module RegistrySpec {
  import opened Bytes
  import opened Names
  import opened Protocol
  import opened BrokerClient

  const BROKER_WARN_TOPIC: Text := [0x2E, 0x62, 0x72, 0x6F, 0x6B, 0x65, 0x72, 0x2F, 0x77, 0x61, 0x72, 0x6E]

  datatype Reg = Reg(
    all: set<BusRtClient>,             // every client object created so far
    clients: map<Text, BusRtClient>,
    subscribers: map<Text, BusRtClient>, // members of the subscription map
    topics: set<(Text, Text)>,         // (topic mask, client name)
    broadcasts: map<Text, BusRtClient>,
    registered: set<BusRtClient>,      // objects whose flag is set
    secondaries: map<BusRtClient, set<Text>>,
    locked: set<BusRtClient>,          // objects whose `secondaries` lock is taken
    disconnected: set<BusRtClient>)    // objects whose disconnect trigger has fired

  /** Names of the secondaries of `primary` present in the registry. */
  ghost function SecondariesOf(s: Reg, primary: Text): set<Text> {
    set n | n in s.clients && n != primary && PrimaryOf(n) == primary
  }

  /** The three maps hold the same clients, each under its own name, and their flags agree. */
  ghost predicate MapsAligned(s: Reg) {
    && s.registered <= s.all
    && s.subscribers == s.clients && s.broadcasts == s.clients
    && (forall n {:trigger s.clients[n]} | n in s.clients ::
          s.clients[n] in s.registered && s.clients[n].name == n)
    && (forall c {:trigger c in s.registered} | c in s.registered ::
          c.name in s.clients && s.clients[c.name] == c)
    && (forall t | t in s.topics :: t.1 in s.clients)
  }

  /** The primary of every registered client is registered. */
  ghost predicate PrimariesPresent(s: Reg) {
    forall n {:trigger PrimaryOf(n)} | n in s.clients :: PrimaryOf(n) in s.clients
  }

  /** Each registered primary knows exactly its registered secondaries; nobody else knows any. */
  ghost predicate SecondariesAligned(s: Reg) {
    && s.secondaries.Keys == s.all && s.locked == {}
    && (forall c {:trigger s.secondaries[c]} | c in s.all :: s.secondaries[c] ==
          if c in s.registered && c.Primary() then SecondariesOf(s, c.name) else {})
  }

  /** The registry invariant. */
  ghost predicate Aligned(s: Reg) {
    MapsAligned(s) && PrimariesPresent(s) && SecondariesAligned(s)
  }

  ghost const EMPTY := Reg({}, map[], map[], {}, map[], {}, map[], {}, {})

  // ----- Dropping a client

  /** The registry without some names and objects, the triggers of `fired` having fired. */
  ghost function Removed(
    s: Reg, names: set<Text>, objects: set<BusRtClient>, fired: set<BusRtClient>): Reg
  {
    s.(clients := s.clients - names,
       subscribers := s.subscribers - names,
       topics := (set t | t in s.topics && t.1 !in names),
       broadcasts := s.broadcasts - names,
       registered := s.registered - objects,
       disconnected := s.disconnected + fired)
  }

  lemma RemovedTwice(
    s: Reg, names: set<Text>, objects: set<BusRtClient>, fired: set<BusRtClient>, n: Text, o: BusRtClient,
    more: set<BusRtClient>)
    ensures Removed(Removed(s, names, objects, fired), {n}, {o}, more)
         == Removed(s, names + {n}, objects + {o}, fired + more)
  {
    var r := Removed(Removed(s, names, objects, fired), {n}, {o}, more);
    var r' := Removed(s, names + {n}, objects + {o}, fired + more);
    assert r.clients == r'.clients && r.subscribers == r'.subscribers && r.broadcasts == r'.broadcasts;
    assert r.topics == r'.topics && r.registered == r'.registered && r.disconnected == r'.disconnected;
  }

  ghost function NamesFound(s: Reg, names: set<Text>): set<Text> {
    set n | n in names && n in s.clients
  }

  ghost function ObjectsFound(s: Reg, names: set<Text>): set<BusRtClient> {
    set o | o in s.registered && o.name in names && o.name in s.clients && s.clients[o.name] == o
  }

  ghost function Remote(objects: set<BusRtClient>): set<BusRtClient> {
    set o | o in objects && o.kind != Internal
  }

  /** The names a drop cascades to. */
  ghost function Cascade(s: Reg, c: BusRtClient): set<Text>
    requires c in s.secondaries
  {
    if c.Primary() then s.secondaries[c] else {}
  }

  /** The effect of `drop_client`, in closed form: the client goes, and for a primary whatever is
      found under the names in its `secondaries`. */
  ghost function Dropped(s: Reg, c: BusRtClient): Reg
    requires c in s.secondaries
  {
    if c !in s.registered then s else
    var names := Cascade(s, c);
    var objects := ObjectsFound(s, names);
    Removed(s, {c.name} + NamesFound(s, names), {c} + objects, Remote(objects))
      .(secondaries := SecondariesAfterDrop(s, c))
  }

  ghost function SecondariesAfterDrop(s: Reg, c: BusRtClient): map<BusRtClient, set<Text>>
    requires c in s.secondaries
  {
    if c.Primary() then s.secondaries[c := {}]
    else if c.PrimaryName() in s.clients && s.clients[c.PrimaryName()] in s.secondaries then
      var p := s.clients[c.PrimaryName()];
      s.secondaries[p := s.secondaries[p] - {c.name}]
    else s.secondaries
  }

  /** What `drop_client` relies on; weaker than the invariant, since a takeover calls it after the
      name is already free, and the cascade calls it on a registry without the primary. */
  ghost predicate Droppable(s: Reg, c: BusRtClient) {
    && c in s.all && s.registered <= s.all && s.secondaries.Keys == s.all && c !in s.locked
    && (forall n | n in s.clients ::
          s.clients[n] in s.all && s.clients[n].name == n && s.clients[n] !in s.locked)
    && (c in s.registered && c.Primary() ==> forall n | n in s.secondaries[c] && n in s.clients ::
          var o := s.clients[n];
          o in s.registered && !o.Primary() && o.PrimaryName() == c.name)
  }

  /** Progress of the cascade: the primary is out and locked, and the `done` names are dropped. */
  ghost function PartlyDropped(s: Reg, c: BusRtClient, done: set<Text>): Reg {
    var objects := ObjectsFound(s, done);
    Removed(s, {c.name} + NamesFound(s, done), {c} + objects, Remote(objects))
      .(locked := s.locked + {c})
  }

  /** The trigger fired by the cascade before the nested drop. */
  ghost function Fired(s: Reg, o: BusRtClient): Reg {
    if o.kind != Internal then s.(disconnected := s.disconnected + {o}) else s
  }

  /** One turn of the cascade loop: dropping the client found under the next name. The nested drop
      does not find the primary any more, so it never asks for the lock held by the loop. */
  lemma CascadeStep(s: Reg, c: BusRtClient, done: set<Text>, n: Text)
    requires Droppable(s, c) && c in s.registered && c.Primary()
    requires done <= s.secondaries[c] && n in s.secondaries[c] && n !in done
    ensures var t := PartlyDropped(s, c, done);
      if n in t.clients then
        var o := t.clients[n];
        && o != c && Droppable(Fired(t, o), o) && o.PrimaryName() !in t.clients
        && Dropped(Fired(t, o), o) == PartlyDropped(s, c, done + {n})
      else PartlyDropped(s, c, done + {n}) == t
  {
    var t := PartlyDropped(s, c, done);
    if n in t.clients {
      var o := t.clients[n];
      assert o in s.registered && !o.Primary() && o.PrimaryName() == c.name && o.name == n;
      CascadeStepDrops(s, c, done, o);
    } else {
      assert n !in s.clients;
      CascadeStepMisses(s, c, done, n);
    }
  }

  lemma CascadeStepDrops(s: Reg, c: BusRtClient, done: set<Text>, o: BusRtClient)
    requires c in s.secondaries && o in s.secondaries && o in s.registered
    requires o != c && !o.Primary() && o.PrimaryName() == c.name
    requires o.name !in done && o.name in s.clients && s.clients[o.name] == o
    ensures Dropped(Fired(PartlyDropped(s, c, done), o), o) == PartlyDropped(s, c, done + {o.name})
  {
    var t := PartlyDropped(s, c, done);
    NestedDrop(t, o);
    OneMoreFound(s, done, o);
    var found := ObjectsFound(s, done);
    RemovedTwice(s, {c.name} + NamesFound(s, done), {c} + found, Remote(found), o.name, o, Remote({o}));
    hide Dropped, Fired, Remote, ObjectsFound, NamesFound, PrimaryOf;
    assert {c.name} + NamesFound(s, done) + {o.name} == {c.name} + NamesFound(s, done + {o.name});
    assert {c} + found + {o} == {c} + ObjectsFound(s, done + {o.name});
  }

  lemma NestedDrop(t: Reg, o: BusRtClient)
    requires o in t.secondaries && o in t.registered && !o.Primary() && o.PrimaryName() !in t.clients
    ensures Dropped(Fired(t, o), o) == Removed(t, {o.name}, {o}, Remote({o}))
  {
    var f := Fired(t, o);
    assert NamesFound(f, {}) == {} && ObjectsFound(f, {}) == {} && Remote({}) == {};
    assert {o.name} + {} == {o.name} && {o} + {} == {o};
    assert f.disconnected + {} == t.disconnected + Remote({o});
    hide PrimaryOf;
  }

  lemma OneMoreFound(s: Reg, done: set<Text>, o: BusRtClient)
    requires o in s.registered && o.name in s.clients && s.clients[o.name] == o
    ensures NamesFound(s, done + {o.name}) == NamesFound(s, done) + {o.name}
    ensures ObjectsFound(s, done + {o.name}) == ObjectsFound(s, done) + {o}
    ensures Remote(ObjectsFound(s, done + {o.name})) == Remote(ObjectsFound(s, done)) + Remote({o})
  {
  }

  lemma CascadeStepMisses(s: Reg, c: BusRtClient, done: set<Text>, n: Text)
    requires n !in s.clients
    ensures PartlyDropped(s, c, done + {n}) == PartlyDropped(s, c, done)
  {
    assert NamesFound(s, done + {n}) == NamesFound(s, done);
    assert ObjectsFound(s, done + {n}) == ObjectsFound(s, done);
  }

  lemma CascadeStart(s: Reg, c: BusRtClient)
    ensures PartlyDropped(s, c, {}) == Removed(s, {c.name}, {c}, {}).(locked := s.locked + {c})
  {
    assert NamesFound(s, {}) == {} && ObjectsFound(s, {}) == {} && Remote({}) == {};
    assert {c.name} + {} == {c.name} && {c} + {} == {c};
  }

  lemma CascadeEnd(s: Reg, c: BusRtClient)
    requires Droppable(s, c) && c in s.registered && c.Primary()
    ensures var t := PartlyDropped(s, c, s.secondaries[c]);
      t.(secondaries := t.secondaries[c := {}], locked := t.locked - {c}) == Dropped(s, c)
  {
    assert s.locked + {c} - {c} == s.locked;
  }

  lemma LoneDrop(s: Reg, c: BusRtClient)
    requires Droppable(s, c) && c in s.registered && !c.Primary()
    ensures var t := Removed(s, {c.name}, {c}, {});
      && Dropped(s, c) == t.(secondaries := SecondariesAfterDrop(t, c))
  {
    assert NamesFound(s, {}) == {} && ObjectsFound(s, {}) == {} && Remote({}) == {};
    assert {c.name} + {} == {c.name} && {c} + {} == {c};
  }

  /** Names removed by dropping a registered client, told from the names alone. */
  predicate GoesWith(n: Text, c: BusRtClient) {
    n == c.name || (c.Primary() && PrimaryOf(n) == c.name)
  }

  lemma GoneIsGoesWith(s: Reg, c: BusRtClient)
    requires Aligned(s) && c in s.registered
    ensures Droppable(s, c)
    ensures {c.name} + NamesFound(s, Cascade(s, c)) == set n | n in s.clients && GoesWith(n, c)
    ensures {c} + ObjectsFound(s, Cascade(s, c)) == set o | o in s.registered && GoesWith(o.name, c)
    ensures c !in ObjectsFound(s, Cascade(s, c))
  {
    assert c.Primary() ==> s.secondaries[c] == SecondariesOf(s, c.name);
  }

  /** Dropping a registered client removes it and, for a primary, its secondaries, and nothing else,
      from the three maps; what it removes is unregistered, the rest keeps its flag. */
  lemma DropRemovesExactly(s: Reg, c: BusRtClient)
    requires Aligned(s) && c in s.registered
    ensures var d := Dropped(s, c);
      && d.clients == (map n | n in s.clients && !GoesWith(n, c) :: s.clients[n])
      && d.subscribers == d.clients && d.broadcasts == d.clients
      && d.topics == (set t | t in s.topics && !GoesWith(t.1, c))
      && d.registered == (set o | o in s.registered && !GoesWith(o.name, c))
      && d.disconnected == s.disconnected +
           (set o | o in s.registered && GoesWith(o.name, c) && o != c && o.kind != Internal)
  {
    GoneIsGoesWith(s, c);
  }

  lemma DropKeepsAligned(s: Reg, c: BusRtClient)
    requires Aligned(s) && c in s.all
    ensures Droppable(s, c)
    ensures Aligned(Dropped(s, c))
  {
    if c in s.registered {
      DropRemovesExactly(s, c);
      GoneIsGoesWith(s, c);
      DropKeepsPrimaries(s, c);
      DropKeepsSecondaries(s, c);
    }
  }

  lemma DropOnlyClears(s: Reg, c: BusRtClient)
    requires Aligned(s) && c in s.all
    ensures Droppable(s, c) && Aligned(Dropped(s, c))
    ensures Dropped(s, c).registered <= s.registered - {c} && Dropped(s, c).all == s.all
  {
    DropKeepsAligned(s, c);
  }

  lemma DropKeepsPrimaries(s: Reg, c: BusRtClient)
    requires Aligned(s) && c in s.registered
    ensures PrimariesPresent(Dropped(s, c))
  {
    DropRemovesExactly(s, c);
    var d := Dropped(s, c);
    forall n | n in d.clients ensures PrimaryOf(n) in d.clients {
      PrimaryOfIsPrimary(n);
      assert PrimaryOf(n) in s.clients;
    }
  }

  lemma DropKeepsSecondaries(s: Reg, c: BusRtClient)
    requires Aligned(s) && c in s.registered
    ensures SecondariesAligned(Dropped(s, c))
  {
    DropRemovesExactly(s, c);
    PrimaryOfIsPrimary(c.name);
    var d := Dropped(s, c);
    if !c.Primary() {
      assert PrimaryOf(c.name) in s.clients;
    }
    forall o | o in d.all
      ensures d.secondaries[o] ==
        if o in d.registered && o.Primary() then SecondariesOf(d, o.name) else {}
    {
      assert s.secondaries[o] == if o in s.registered && o.Primary() then SecondariesOf(s, o.name) else {};
      if o in d.registered && o.Primary() {
        assert SecondariesOf(d, o.name) ==
          set n | n in SecondariesOf(s, o.name) && !GoesWith(n, c);
      }
    }
  }

  // ----- Inserting a client

  /** Why `insert_client` refuses a client, if it does; the primary is looked up first. */
  ghost function InsertError(s: Reg, c: BusRtClient): Option<ErrorKind> {
    if !c.Primary() && c.PrimaryName() !in s.clients then Some(NotRegistered)
    else if c.name in s.clients then Some(Busy)
    else None
  }

  ghost function Inserted(s: Reg, c: BusRtClient): Reg
    requires InsertError(s, c) == None
    requires !c.Primary() ==> s.clients[c.PrimaryName()] in s.secondaries
  {
    s.(secondaries :=
         if c.Primary() then s.secondaries
         else
           var p := s.clients[c.PrimaryName()];
           s.secondaries[p := s.secondaries[p] + {c.name}],
       broadcasts := WithClient(s.broadcasts, c),
       subscribers := WithClient(s.subscribers, c),
       topics := s.topics + {(BROKER_WARN_TOPIC, c.name)},
       registered := s.registered + {c},
       clients := s.clients[c.name := c])
  }

  /** Clients compare by name digest: an entry of that name is kept. */
  ghost function WithClient(m: map<Text, BusRtClient>, c: BusRtClient): map<Text, BusRtClient> {
    if c.name in m then m else m[c.name := c]
  }

  lemma PrimaryUnlocked(s: Reg, name: Text)
    requires Aligned(s) && name in s.clients
    ensures s.clients[name] in s.all && s.clients[name] !in s.locked && s.clients[name] in s.secondaries
  {
  }

  lemma InsertKeepsAligned(s: Reg, c: BusRtClient)
    requires Aligned(s) && c in s.all && c !in s.registered
    requires InsertError(s, c) == None
    ensures Aligned(Inserted(s, c))
  {
    InsertKeepsSecondaries(s, c);
    InsertKeepsPrimaries(s, c);
    InsertKeepsMaps(s, c);
    hide MapsAligned, PrimariesPresent, SecondariesAligned, PrimaryOf;
  }

  lemma InsertKeepsMaps(s: Reg, c: BusRtClient)
    requires Aligned(s) && c in s.all && c !in s.registered
    requires InsertError(s, c) == None
    ensures MapsAligned(Inserted(s, c))
  {
    hide PrimariesPresent, PrimaryOf;
  }

  lemma InsertKeepsPrimaries(s: Reg, c: BusRtClient)
    requires Aligned(s) && c in s.all && c !in s.registered
    requires InsertError(s, c) == None
    ensures PrimariesPresent(Inserted(s, c))
  {
    var d := Inserted(s, c);
    forall n | n in d.clients ensures PrimaryOf(n) in d.clients {
      assert n in s.clients ==> PrimaryOf(n) in s.clients;
    }
  }

  lemma InsertKeepsSecondaries(s: Reg, c: BusRtClient)
    requires Aligned(s) && c in s.all && c !in s.registered
    requires InsertError(s, c) == None
    ensures SecondariesAligned(Inserted(s, c))
  {
    var d := Inserted(s, c);
    forall o | o in d.all
      ensures d.secondaries[o] == if o in d.registered && o.Primary() then SecondariesOf(d, o.name) else {}
    {
      InsertKeepsSecondariesOf(s, c, o);
    }
    hide MapsAligned, PrimariesPresent, SecondariesOf, PrimaryOf;
  }

  lemma InsertKeepsSecondariesOf(s: Reg, c: BusRtClient, o: BusRtClient)
    requires Aligned(s) && c in s.all && c !in s.registered && o in s.all
    requires InsertError(s, c) == None
    ensures var d := Inserted(s, c);
      d.secondaries[o] == if o in d.registered && o.Primary() then SecondariesOf(d, o.name) else {}
  {
    PrimaryOfIsPrimary(c.name);
    hide PrimaryOf;
    assert s.secondaries[o] == if o in s.registered && o.Primary() then SecondariesOf(s, o.name) else {};
    if o == c {
      NewPrimaryHasNone(s, c);
    } else if o in s.registered {
      assert s.clients[o.name] == o && o.name != c.name;
      OldPrimaryGains(s, c, o.name);
    }
    hide SecondariesOf;
  }

  lemma NewPrimaryHasNone(s: Reg, c: BusRtClient)
    requires PrimariesPresent(s) && InsertError(s, c) == None
    requires !c.Primary() ==> s.clients[c.PrimaryName()] in s.secondaries
    ensures c.Primary() ==> SecondariesOf(Inserted(s, c), c.name) == {}
  {
    hide PrimaryOf;
    forall n | n in s.clients ensures PrimaryOf(n) != c.name {
      assert PrimaryOf(n) in s.clients;
    }
  }

  lemma OldPrimaryGains(s: Reg, c: BusRtClient, primary: Text)
    requires InsertError(s, c) == None && primary != c.name
    requires !c.Primary() ==> s.clients[c.PrimaryName()] in s.secondaries
    ensures SecondariesOf(Inserted(s, c), primary) ==
      SecondariesOf(s, primary) + if c.PrimaryName() == primary then {c.name} else {}
  {
    hide PrimaryOf;
  }

  lemma TopicsKeepAligned(s: Reg, topics: set<(Text, Text)>)
    requires Aligned(s) && forall t | t in topics && t !in s.topics :: t.1 in s.subscribers
    ensures Aligned(s.(topics := topics))
  {
    var d := s.(topics := topics);
    assert forall c | c in s.all :: SecondariesOf(d, c.name) == SecondariesOf(s, c.name);
  }

  // ----- Registering a client, with takeover

  /** When a busy name may be taken over: the option is on and, in builds with the broker's own RPC,
      the client is a primary. */
  datatype Policy = Policy(force: bool, brokerRpc: bool) {
    predicate Allows(c: BusRtClient) {
      force && (c.Primary() || !brokerRpc)
    }
  }

  /** The registry after the previous instance of the name is evicted. */
  ghost function Evicted(s: Reg, c: BusRtClient): Reg
    requires c.name in s.clients && s.clients[c.name] in s.secondaries
  {
    var prev := s.clients[c.name];
    var d := Dropped(s.(clients := s.clients - {c.name}), prev);
    d.(disconnected := d.disconnected + {prev})
  }

  ghost function Registered(s: Reg, c: BusRtClient, policy: Policy): (r: (Reg, Option<ErrorKind>))
    requires Aligned(s) && c in s.all && c !in s.registered
  {
    var e := InsertError(s, c);
    if e == None then (Inserted(s, c), None)
    else if e == Some(Busy) && policy.Allows(c) then
      EvictionMakesRoom(s, c);
      (Inserted(Evicted(s, c), c), None)
    else (s, e)
  }

  /** Dropping an instance whose name is already free has the effect of a plain drop. */
  lemma EvictedIsDropped(s: Reg, prev: BusRtClient)
    requires Aligned(s) && prev in s.registered
    ensures Droppable(s.(clients := s.clients - {prev.name}), prev)
    ensures Dropped(s.(clients := s.clients - {prev.name}), prev) == Dropped(s, prev)
  {
    var s1 := s.(clients := s.clients - {prev.name});
    GoneIsGoesWith(s, prev);
    var names := Cascade(s, prev);
    assert prev.Primary() ==> names == SecondariesOf(s, prev.name);
    assert SecondariesAfterDrop(s1, prev) == SecondariesAfterDrop(s, prev);
    assert NamesFound(s1, names) == NamesFound(s, names);
    assert ObjectsFound(s1, names) == ObjectsFound(s, names);
    var gone := {prev.name} + NamesFound(s, names);
    assert s1.clients - gone == s.clients - gone;
  }

  lemma FiringKeepsAligned(s: Reg, o: BusRtClient)
    requires Aligned(s)
    ensures Aligned(s.(disconnected := s.disconnected + {o}))
  {
    var d := s.(disconnected := s.disconnected + {o});
    assert forall c | c in s.all :: SecondariesOf(d, c.name) == SecondariesOf(s, c.name);
  }

  /** Evicting leaves a sound registry in which the name is free, exactly as a plain drop would. */
  lemma EvictionMakesRoom(s: Reg, c: BusRtClient)
    requires Aligned(s) && c in s.all && c !in s.registered
    requires InsertError(s, c) == Some(Busy)
    ensures var prev := s.clients[c.name];
      && Droppable(s.(clients := s.clients - {c.name}), prev)
      && Evicted(s, c) == (var d := Dropped(s, prev); d.(disconnected := d.disconnected + {prev}))
    ensures Aligned(Evicted(s, c)) && InsertError(Evicted(s, c), c) == None
    ensures c !in Evicted(s, c).registered
  {
    var prev := s.clients[c.name];
    PrimaryOfIsPrimary(c.name);
    EvictedIsDropped(s, prev);
    DropKeepsAligned(s, prev);
    FiringKeepsAligned(Dropped(s, prev), prev);
    DropRemovesExactly(s, prev);
    assert !c.Primary() ==> c.PrimaryName() in Dropped(s, prev).clients;
  }

  /** Registration keeps the invariant; it fails exactly for a secondary without its primary and for
      a taken name that may not be taken over, and then changes nothing. */
  lemma RegisterKeepsAligned(s: Reg, c: BusRtClient, policy: Policy)
    requires Aligned(s) && c in s.all && c !in s.registered
    ensures var (r, e) := Registered(s, c, policy);
      && Aligned(r)
      && (e == Some(NotRegistered) <==> !c.Primary() && c.PrimaryName() !in s.clients)
      && (e == Some(Busy) <==> c.name in s.clients && !policy.Allows(c))
      && (e == None ==> r.clients[c.name] == c && c in r.registered)
      && (e != None ==> r == s && e.value in {NotRegistered, Busy})
  {
    PrimaryOfIsPrimary(c.name);
    var e := InsertError(s, c);
    if e == None {
      InsertKeepsAligned(s, c);
    } else if e == Some(Busy) && policy.Allows(c) {
      EvictionMakesRoom(s, c);
      assert c in Evicted(s, c).all;
      InsertKeepsAligned(Evicted(s, c), c);
    }
    assert c.name in s.clients ==> PrimaryOf(c.name) in s.clients;
  }

  /** A takeover puts the new instance under the name, removes the previous one together with its
      secondaries, tells each of them to disconnect (internal secondaries excepted), and touches no other client. */
  lemma TakeoverReplaces(s: Reg, c: BusRtClient, policy: Policy)
    requires Aligned(s) && c in s.all && c !in s.registered
    requires c.name in s.clients && policy.Allows(c)
    ensures var prev := s.clients[c.name];
      var (r, e) := Registered(s, c, policy);
      && e == None && Aligned(r) && prev != c
      && r.clients == (map n | n in s.clients && !GoesWith(n, prev) :: s.clients[n])[c.name := c]
      && r.registered == (set o | o in s.registered && !GoesWith(o.name, prev)) + {c}
      && r.disconnected == s.disconnected + {prev} +
           (set o | o in s.registered && GoesWith(o.name, prev) && o.kind != Internal)
  {
    RegisterKeepsAligned(s, c, policy);
    TakenIsBusy(s, c);
    EvictedExactly(s, c);
    hide Aligned, Evicted, InsertError, PrimaryOf, GoesWith;
    assert Registered(s, c, policy).0 == Inserted(Evicted(s, c), c);
  }

  lemma EvictedExactly(s: Reg, c: BusRtClient)
    requires Aligned(s) && c in s.all && c !in s.registered
    requires InsertError(s, c) == Some(Busy)
    ensures var prev, v := s.clients[c.name], Evicted(s, c);
      && prev != c
      && v.clients == (map n | n in s.clients && !GoesWith(n, prev) :: s.clients[n])
      && v.registered == (set o | o in s.registered && !GoesWith(o.name, prev))
      && v.disconnected == s.disconnected + {prev} +
           (set o | o in s.registered && GoesWith(o.name, prev) && o.kind != Internal)
  {
    var prev := s.clients[c.name];
    EvictionMakesRoom(s, c);
    DropRemovesExactly(s, prev);
    assert prev in s.registered && GoesWith(prev.name, prev);
    hide Aligned, Dropped, Evicted, InsertError, PrimaryOf, GoesWith;
  }

  lemma TakenIsBusy(s: Reg, c: BusRtClient)
    requires Aligned(s) && c.name in s.clients
    ensures InsertError(s, c) == Some(Busy)
  {
    assert PrimaryOf(c.name) in s.clients;
  }

  // ----- What registering comes to, told from the names alone

  /** A name that makes way for the client: its own, if it is taken, and those of the secondaries of the
      instance that has it. */
  ghost predicate MakesWay(s: Reg, c: BusRtClient, n: Text) {
    c.name in s.clients && (n == c.name || (PrimaryOf(c.name) == c.name && PrimaryOf(n) == c.name))
  }

  ghost function Replacing(s: Reg, c: BusRtClient, m: map<Text, BusRtClient>): map<Text, BusRtClient> {
    (map n | n in m && !MakesWay(s, c, n) :: m[n])[c.name := c]
  }

  /** The client is in all three maps with its flag and its one subscription. Whoever makes way is gone, has
      been told to disconnect, internal secondaries excepted, and has no secondaries any more. Everybody else
      keeps everything; the client's primary knows it. */
  ghost predicate Entered(s: Reg, r: Reg, c: BusRtClient) {
    && r.all == s.all && r.locked == s.locked
    && r.clients == Replacing(s, c, s.clients)
    && r.subscribers == Replacing(s, c, s.subscribers)
    && r.broadcasts == Replacing(s, c, s.broadcasts)
    && r.topics == (set t | t in s.topics && !MakesWay(s, c, t.1)) + {(BROKER_WARN_TOPIC, c.name)}
    && r.registered == (set o | o in s.registered && !MakesWay(s, c, o.name)) + {c}
    && r.disconnected == s.disconnected + (set o | o in s.registered && MakesWay(s, c, o.name)
                                                && (o.name == c.name || o.kind != Internal))
    && r.secondaries.Keys == s.secondaries.Keys
    && forall o | o in s.secondaries ::
         r.secondaries[o] ==
           if o !in s.registered then s.secondaries[o]
           else if MakesWay(s, c, o.name) then {}
           else if o.name == PrimaryOf(c.name) then s.secondaries[o] + {c.name} else s.secondaries[o]
  }

  /** Registered as above, or refused for a missing primary or a name that may not be taken over, and then
      nothing has changed. */
  ghost predicate Registration(s: Reg, r: Reg, c: BusRtClient, error: Option<ErrorKind>, policy: Policy) {
    && (error == Some(NotRegistered) <==> PrimaryOf(c.name) != c.name && PrimaryOf(c.name) !in s.clients)
    && (error == Some(Busy) <==>
          c.name in s.clients && !(policy.force && (PrimaryOf(c.name) == c.name || !policy.brokerRpc)))
    && (error.Some? ==> error.value in {NotRegistered, Busy} && r == s)
    && (error.None? ==> Entered(s, r, c))
  }

  lemma SecondariesEntered(s: Reg, r: Reg, c: BusRtClient, o: BusRtClient)
    requires Aligned(s) && Aligned(r) && c in s.all && c !in s.registered && r.all == s.all && o in s.all
    requires r.clients == Replacing(s, c, s.clients)
    requires r.registered == (set x | x in s.registered && !MakesWay(s, c, x.name)) + {c}
    ensures o in r.secondaries && o in s.secondaries
    ensures r.secondaries[o] ==
      if o !in s.registered then s.secondaries[o]
      else if MakesWay(s, c, o.name) then {}
      else if o.name == PrimaryOf(c.name) then s.secondaries[o] + {c.name} else s.secondaries[o]
  {
    hide SecondariesOf, Replacing, PrimaryOf;
    SecondariesNow(s, o);
    SecondariesNow(r, o);
    PrimaryOfIsPrimary(c.name);
    if o == c {
      NoneUnderNewPrimary(s, r, c);
      hide Aligned, MakesWay;
    } else if o in s.registered && o.Primary() && !MakesWay(s, c, o.name) {
      RegisteredUnderName(s, o);
      OthersUnderPrimary(s, r, c, o.name);
      hide Aligned, MakesWay;
    } else {
      hide Aligned;
    }
  }

  lemma SecondariesNow(s: Reg, o: BusRtClient)
    requires Aligned(s) && o in s.all
    ensures o in s.secondaries
    ensures s.secondaries[o] == if o in s.registered && o.Primary() then SecondariesOf(s, o.name) else {}
  {
  }

  lemma RegisteredUnderName(s: Reg, o: BusRtClient)
    requires Aligned(s) && o in s.registered
    ensures o.name in s.clients && s.clients[o.name] == o
  {
  }

  /** A client under a new or vacated name starts without secondaries. */
  lemma NoneUnderNewPrimary(s: Reg, r: Reg, c: BusRtClient)
    requires PrimariesPresent(s) && r.clients == Replacing(s, c, s.clients)
    ensures c.Primary() ==> SecondariesOf(r, c.name) == {}
  {
    hide PrimaryOf;
    forall n | n in s.clients && PrimaryOf(n) == c.name && c.Primary() ensures MakesWay(s, c, n) {
      assert PrimaryOf(n) in s.clients;
    }
  }

  lemma OthersUnderPrimary(s: Reg, r: Reg, c: BusRtClient, primary: Text)
    requires r.clients == Replacing(s, c, s.clients) && primary != c.name && PrimaryOf(primary) == primary
    ensures SecondariesOf(r, primary) ==
      SecondariesOf(s, primary) + if PrimaryOf(c.name) == primary then {c.name} else {}
  {
    hide PrimaryOf;
  }

  lemma EnteredFromParts(s: Reg, r: Reg, c: BusRtClient)
    requires Aligned(s) && Aligned(r) && c in s.all && c !in s.registered && r.all == s.all
    requires r.clients == Replacing(s, c, s.clients)
    requires r.topics == (set t | t in s.topics && !MakesWay(s, c, t.1)) + {(BROKER_WARN_TOPIC, c.name)}
    requires r.registered == (set o | o in s.registered && !MakesWay(s, c, o.name)) + {c}
    requires r.disconnected == s.disconnected + (set o | o in s.registered && MakesWay(s, c, o.name)
                                                      && (o.name == c.name || o.kind != Internal))
    ensures Entered(s, r, c)
  {
    hide Aligned, MakesWay, PrimaryOf, Replacing;
    MapsNow(s);
    MapsNow(r);
    forall o | o in s.all ensures o in r.secondaries && o in s.secondaries && r.secondaries[o] ==
      if o !in s.registered then s.secondaries[o]
      else if MakesWay(s, c, o.name) then {}
      else if o.name == PrimaryOf(c.name) then s.secondaries[o] + {c.name} else s.secondaries[o]
    {
      SecondariesEntered(s, r, c, o);
    }
  }

  lemma MapsNow(s: Reg)
    requires Aligned(s)
    ensures s.subscribers == s.clients && s.broadcasts == s.clients && s.locked == {} && s.secondaries.Keys == s.all
  {
  }

  /** Into a free name. */
  lemma EnteredFree(s: Reg, c: BusRtClient)
    requires Aligned(s) && c in s.all && c !in s.registered && InsertError(s, c) == None
    ensures Entered(s, Inserted(s, c), c)
  {
    InsertKeepsAligned(s, c);
    NobodyMakesWay(s, c);
    var r := Inserted(s, c);
    hide Aligned, PrimaryOf, MakesWay, Replacing;
    EnteredFromParts(s, r, c);
  }

  lemma NobodyMakesWay(s: Reg, c: BusRtClient)
    requires c.name !in s.clients
    ensures Replacing(s, c, s.clients) == s.clients[c.name := c]
    ensures (set t | t in s.topics && !MakesWay(s, c, t.1)) == s.topics
    ensures (set o | o in s.registered && !MakesWay(s, c, o.name)) == s.registered
    ensures (set o | o in s.registered && MakesWay(s, c, o.name) && (o.name == c.name || o.kind != Internal)) == {}
  {
    hide PrimaryOf;
  }

  /** Who makes way is who goes with the instance evicted. */
  lemma WhoMakesWay(s: Reg, c: BusRtClient, n: Text)
    requires Aligned(s) && c.name in s.clients
    ensures MakesWay(s, c, n) <==> GoesWith(n, s.clients[c.name])
  {
    hide PrimaryOf;
  }

  lemma EvictedParts(s: Reg, c: BusRtClient)
    requires Aligned(s) && c in s.all && c !in s.registered && InsertError(s, c) == Some(Busy)
    ensures var v := Evicted(s, c);
      && Aligned(v) && InsertError(v, c) == None && v.all == s.all && c !in v.registered
      && v.clients == (map n | n in s.clients && !MakesWay(s, c, n) :: s.clients[n])
      && v.topics == (set t | t in s.topics && !MakesWay(s, c, t.1))
      && v.registered == (set o | o in s.registered && !MakesWay(s, c, o.name))
      && v.disconnected == s.disconnected + (set o | o in s.registered && MakesWay(s, c, o.name)
                                                  && (o.name == c.name || o.kind != Internal))
  {
    assert c.name in s.clients;
    EvictionMakesRoom(s, c);
    hide Aligned, PrimaryOf, MakesWay, Dropped, Evicted, InsertError;
    LeftByEvicted(s, c, s.clients[c.name], Evicted(s, c));
  }

  lemma LeftByEvicted(s: Reg, c: BusRtClient, prev: BusRtClient, v: Reg)
    requires Aligned(s) && c.name in s.clients && s.clients[c.name] == prev && prev in s.secondaries
    requires v == (var d := Dropped(s, prev); d.(disconnected := d.disconnected + {prev}))
    ensures v.all == s.all
    ensures v.clients == (map n | n in s.clients && !MakesWay(s, c, n) :: s.clients[n])
    ensures v.topics == (set t | t in s.topics && !MakesWay(s, c, t.1))
    ensures v.registered == (set o | o in s.registered && !MakesWay(s, c, o.name))
    ensures v.disconnected == s.disconnected + (set o | o in s.registered && MakesWay(s, c, o.name)
                                                     && (o.name == c.name || o.kind != Internal))
  {
    RegisteredHere(s, c.name);
    hide Aligned, MakesWay, GoesWith, Dropped;
    forall n ensures MakesWay(s, c, n) <==> GoesWith(n, prev) {
      WhoMakesWay(s, c, n);
    }
    DropOnlyClears(s, prev);
    DroppedByWay(s, c, prev);
    ToldToGo(s, c, prev);
  }

  lemma DroppedByWay(s: Reg, c: BusRtClient, prev: BusRtClient)
    requires Aligned(s) && prev in s.registered
    requires forall n :: MakesWay(s, c, n) <==> GoesWith(n, prev)
    ensures prev in s.secondaries
    ensures var d := Dropped(s, prev);
      && d.clients == (map n | n in s.clients && !MakesWay(s, c, n) :: s.clients[n])
      && d.topics == (set t | t in s.topics && !MakesWay(s, c, t.1))
      && d.registered == (set o | o in s.registered && !MakesWay(s, c, o.name))
      && d.disconnected == s.disconnected +
           (set o | o in s.registered && GoesWith(o.name, prev) && o != prev && o.kind != Internal)
  {
    DropRemovesExactly(s, prev);
    hide Aligned, MakesWay, GoesWith, Dropped;
  }

  lemma ToldToGo(s: Reg, c: BusRtClient, prev: BusRtClient)
    requires Aligned(s) && prev in s.registered && prev.name == c.name
    requires forall n :: MakesWay(s, c, n) <==> GoesWith(n, prev)
    ensures (set o | o in s.registered && GoesWith(o.name, prev) && o != prev && o.kind != Internal) + {prev}
      == set o | o in s.registered && MakesWay(s, c, o.name) && (o.name == c.name || o.kind != Internal)
  {
    forall o | o in s.registered ensures o.name == c.name <==> o == prev {
      RegisteredUnderName(s, o);
      RegisteredUnderName(s, prev);
    }
    assert GoesWith(prev.name, prev);
    hide Aligned, MakesWay, GoesWith;
  }

  lemma RegisteredHere(s: Reg, n: Text)
    requires Aligned(s) && n in s.clients
    ensures s.clients[n] in s.registered && s.clients[n].name == n && s.registered <= s.all
  {
  }

  /** Into the place of the instance evicted. */
  lemma EnteredByForce(s: Reg, c: BusRtClient)
    requires Aligned(s) && c in s.all && c !in s.registered && InsertError(s, c) == Some(Busy)
    ensures Aligned(Evicted(s, c)) && InsertError(Evicted(s, c), c) == None
    ensures Entered(s, Inserted(Evicted(s, c), c), c)
  {
    EvictedParts(s, c);
    var v := Evicted(s, c);
    hide Evicted, MakesWay, PrimaryOf;
    InsertKeepsAligned(v, c);
    var r := Inserted(v, c);
    hide Aligned;
    EnteredFromParts(s, r, c);
  }

  lemma RegistrationExact(s: Reg, c: BusRtClient, policy: Policy)
    requires Aligned(s) && c in s.all && c !in s.registered
    ensures var (r, e) := Registered(s, c, policy); Registration(s, r, c, e, policy)
  {
    RegisterKeepsAligned(s, c, policy);
    if InsertError(s, c) == None {
      EnteredFree(s, c);
    } else if InsertError(s, c) == Some(Busy) {
      EnteredByForce(s, c);
    }
    hide Aligned, Inserted, Evicted, Entered, PrimaryOf;
  }

  // ----- Any sequence of operations

  datatype RegOp =
    | Register(c: BusRtClient)   // a freshly created object
    | Drop(c: BusRtClient)       // `drop_client` and `unregister_client`
    | Disconnect(name: Text)     // `trigger_disconnect`
    | Subscribe(name: Text, mask: Text)
    | Unsubscribe(name: Text, mask: Text)

  /** An object is registered at most once, right after it is created. */
  ghost predicate Possible(s: Reg, op: RegOp) {
    match op
    case Register(c) => c !in s.all
    case Drop(c) => c in s.all
    case _ => true
  }

  ghost function Created(s: Reg, c: BusRtClient): Reg {
    s.(all := s.all + {c}, secondaries := s.secondaries[c := {}])
  }

  lemma CreateKeepsAligned(s: Reg, c: BusRtClient)
    requires Aligned(s) && c !in s.all
    ensures Aligned(Created(s, c)) && c in Created(s, c).all && c !in Created(s, c).registered
  {
    assert c !in s.registered;
    CreateKeepsSecondaries(s, c);
    hide SecondariesAligned, PrimaryOf;
  }

  lemma CreateKeepsSecondaries(s: Reg, c: BusRtClient)
    requires SecondariesAligned(s) && c !in s.all && c !in s.registered
    ensures SecondariesAligned(Created(s, c))
  {
    var d := Created(s, c);
    hide PrimaryOf;
    forall o | o in d.all
      ensures d.secondaries[o] == if o in d.registered && o.Primary() then SecondariesOf(d, o.name) else {}
    {
      assert SecondariesOf(d, o.name) == SecondariesOf(s, o.name);
      if o != c {
        assert d.secondaries[o] == s.secondaries[o];
      }
    }
  }

  /** `trigger_disconnect`: refused for a name that is not registered and for an internal client. */
  ghost function Disconnected(s: Reg, name: Text): (Reg, Option<ErrorKind>) {
    if name !in s.clients then (s, Some(NotRegistered))
    else if s.clients[name].kind == Internal then (s, Some(NotSupported))
    else (s.(disconnected := s.disconnected + {s.clients[name]}), None)
  }

  /** A fresh client object is created and registered. */
  ghost function Joining(s: Reg, c: BusRtClient, policy: Policy): (Reg, Option<ErrorKind>)
    requires Aligned(s) && c !in s.all
  {
    CreateKeepsAligned(s, c);
    Registered(Created(s, c), c, policy)
  }

  lemma JoiningFacts(s: Reg, c: BusRtClient, policy: Policy)
    requires Aligned(s) && c !in s.all
    ensures var (r, e) := Joining(s, c, policy);
      && Aligned(r) && r.all == s.all + {c} && r.registered <= s.registered + {c}
      && (e == None <==> c in r.registered)
      && (e == Some(NotRegistered) <==> !c.Primary() && c.PrimaryName() !in s.clients)
      && (e == Some(Busy) <==> c.name in s.clients && !policy.Allows(c))
      && (e.Some? ==> e.value in {NotRegistered, Busy})
  {
    CreateKeepsAligned(s, c);
    RegisterKeepsAligned(Created(s, c), c, policy);
    OnlyNewFlag(Created(s, c), c, policy);
  }

  ghost function Apply(s: Reg, op: RegOp, policy: Policy): Reg
    requires Aligned(s)
  {
    if !Possible(s, op) then s else
    match op
    case Register(c) => Joining(s, c, policy).0
    case Drop(c) => Dropped(s, c)
    case Disconnect(name) => Disconnected(s, name).0
    case Subscribe(name, mask) =>
      if name in s.subscribers then s.(topics := s.topics + {(mask, name)}) else s
    case Unsubscribe(name, mask) =>
      if name in s.subscribers then s.(topics := s.topics - {(mask, name)}) else s
  }

  lemma ApplyKeepsAligned(s: Reg, op: RegOp, policy: Policy)
    requires Aligned(s)
    ensures Aligned(Apply(s, op, policy))
  {
    if Possible(s, op) {
      match op
      case Register(c) =>
        CreateKeepsAligned(s, c);
        RegisterKeepsAligned(Created(s, c), c, policy);
      case Drop(c) =>
        DropKeepsAligned(s, c);
      case Disconnect(name) =>
        if name in s.clients {
          FiringKeepsAligned(s, s.clients[name]);
        }
      case Subscribe(name, mask) =>
        TopicsKeepAligned(s, if name in s.subscribers then s.topics + {(mask, name)} else s.topics);
      case Unsubscribe(name, mask) =>
        TopicsKeepAligned(s, s.topics - {(mask, name)});
    }
  }

  ghost predicate IsRun(states: seq<Reg>, ops: seq<RegOp>, policy: Policy) {
    && |states| == |ops| + 1
    && Aligned(states[0])
    && forall i | 0 <= i < |ops| :: Aligned(states[i]) ==> states[i + 1] == Apply(states[i], ops[i], policy)
  }

  /** Every state reached by any sequence of plain or forced registrations, drops, disconnect
      requests, subscriptions and their removals satisfies the registry invariant. */
  lemma {:induction false} RunKeepsAligned(states: seq<Reg>, ops: seq<RegOp>, policy: Policy, i: nat)
    requires IsRun(states, ops, policy) && i < |states|
    ensures Aligned(states[i])
  {
    if i > 0 {
      RunKeepsAligned(states, ops, policy, i - 1);
      ApplyKeepsAligned(states[i - 1], ops[i - 1], policy);
    }
  }

  lemma EmptyRegistryAligned()
    ensures Aligned(EMPTY)
  {
  }

  /** No operation sets a flag but that of the client it registers. */
  lemma OnlyNewFlag(s: Reg, c: BusRtClient, policy: Policy)
    requires Aligned(s) && c in s.all && c !in s.registered
    ensures Registered(s, c, policy).0.registered <= s.registered + {c}
    ensures Registered(s, c, policy).0.all == s.all
  {
    if InsertError(s, c) == Some(Busy) && policy.Allows(c) {
      EvictionMakesRoom(s, c);
    }
  }

  lemma OutStaysOutOnce(s: Reg, op: RegOp, policy: Policy, c: BusRtClient)
    requires Aligned(s) && c in s.all && c !in s.registered
    ensures var r := Apply(s, op, policy); c in r.all && c !in r.registered
  {
    if Possible(s, op) && op.Register? {
      CreateKeepsAligned(s, op.c);
      var d := Created(s, op.c);
      if InsertError(d, op.c) == Some(Busy) && policy.Allows(op.c) {
        EvictionMakesRoom(d, op.c);
      }
    }
  }

  /** An object that has lost its registration never gets it back, whatever else happens: it is in
      none of the maps, and dropping it again changes nothing. So after a takeover no late cleanup
      of the evicted instance or its secondaries can remove the new instance, although removal is
      by name. */
  lemma {:induction false} EvictedStaysOut(
    states: seq<Reg>, ops: seq<RegOp>, policy: Policy, c: BusRtClient, i: nat)
    requires IsRun(states, ops, policy) && i < |states|
    requires c in states[0].all && c !in states[0].registered
    ensures Aligned(states[i]) && c in states[i].all && c !in states[i].registered
    ensures c !in states[i].clients.Values && c !in states[i].subscribers.Values
      && c !in states[i].broadcasts.Values
    ensures Apply(states[i], Drop(c), policy) == states[i]
  {
    if i > 0 {
      EvictedStaysOut(states, ops, policy, c, i - 1);
      OutStaysOutOnce(states[i - 1], ops[i - 1], policy, c);
    }
    RunKeepsAligned(states, ops, policy, i);
  }

  lemma {:induction false} DropsOfTheUnregistered(
    states: seq<Reg>, ops: seq<RegOp>, policy: Policy, i: nat)
    requires IsRun(states, ops, policy) && i < |states|
    requires forall op | op in ops :: op.Drop? && op.c !in states[0].registered
    ensures states[i] == states[0]
  {
    if i > 0 {
      DropsOfTheUnregistered(states, ops, policy, i - 1);
      assert ops[i - 1] in ops;
      assert states[i] == Apply(states[i - 1], ops[i - 1], policy);
    }
  }

  /** A takeover followed by any number of drops of the evicted instance and of the secondaries that
      went with it: the registry stays as the takeover left it, the new instance in place. */
  lemma TakeoverSurvivesCleanup(
    s: Reg, c: BusRtClient, policy: Policy, states: seq<Reg>, ops: seq<RegOp>, i: nat)
    requires Aligned(s) && c in s.all && c !in s.registered
    requires c.name in s.clients && policy.Allows(c)
    requires IsRun(states, ops, policy) && i < |states|
    requires states[0] == Registered(s, c, policy).0
    requires forall op | op in ops ::
      op.Drop? && op.c in s.registered && GoesWith(op.c.name, s.clients[c.name])
    ensures states[i] == states[0] && c.name in states[i].clients && states[i].clients[c.name] == c
  {
    TakeoverReplaces(s, c, policy);
    DropsOfTheUnregistered(states, ops, policy, i);
  }
}
