/** The broker's shared state and the operations on it, one operation at a time. */
module BrokerDb {
  import opened Bytes
  import opened Names
  import opened Protocol
  import opened BrokerClient
  import opened RegistrySpec
  import opened TrafficSpec
  import opened DeliverySpec
  import opened Routing
  import opened Wire

  class BrokerDb {
    var clients: map<Text, BusRtClient>
    var subscribers: map<Text, BusRtClient>
    var topics: set<(Text, Text)>
    var broadcasts: map<Text, BusRtClient>
    var traffic: Traffic
    const policy: Policy
    const matching: Matching
    var all: set<BusRtClient>  // every client object created so far, each with a task emptying its queue
    ghost var cut: bool  // some broadcast or publication has been cut short

    constructor (policy: Policy, matching: Matching)
      ensures this.policy == policy && this.matching == matching
      ensures Valid() && Snap() == EMPTY && !cut
    {
      clients, subscribers, topics, broadcasts := map[], map[], {}, map[];
      traffic := NO_TRAFFIC;
      this.policy, this.matching := policy, matching;
      all, cut := {}, false;
      new;
      assert TallyNow().per == map[];
      assert Snap() == EMPTY;
    }

    // ----- What the state means

    ghost function Snap(): Reg
      reads this`all, this`clients, this`subscribers, this`topics, this`broadcasts
      reads all`registered, all`secondaries, all`secondariesLocked, all`disconnected
    {
      Reg(all, clients, subscribers, topics, broadcasts,
          set c | c in all && c.registered,
          map c | c in all :: c.secondaries,
          set c | c in all && c.secondariesLocked,
          set c | c in all && c.disconnected)
    }

    ghost function TallyNow(): Tally
      reads this`all, this`traffic, all`traffic
    {
      Tally(traffic, map c | c in all :: c.traffic)
    }

    ghost function BoxesNow(): Boxes
      reads this`all, all`queue, all`log, all`closed, all`hasExclusions, all`exclusions
    {
      map c | c in all :: Box(c.log, |c.queue| >= c.capacity, c.closed, c.hasExclusions, c.exclusions)
    }

    ghost function StageNow(): Stage
      reads this`all, this`clients, this`subscribers, this`topics, this`broadcasts
      reads all`registered, all`secondaries, all`secondariesLocked, all`disconnected
      reads all`queue, all`log, all`closed, all`hasExclusions, all`exclusions
    {
      Stage(Snap(), BoxesNow())
    }

    /** The flag says whether the exclusion list is in use, for every registered client but one. */
    ghost predicate CachedBut(except: set<BusRtClient>)
      reads this`all, all`registered, all`hasExclusions, all`exclusions
    {
      forall c | c in all && c.registered && c !in except :: c.Cached()
    }

    /** Whoever is registered can be sent to; only the receiver of an internal client may have gone before. */
    ghost predicate OpenWhileThere()
      reads this`all, all`registered, all`closed
    {
      forall c | c in all && c.registered && c.closed :: c.kind == Internal
    }

    /** Everything but the counters. */
    ghost predicate SoundBut(except: set<BusRtClient>)
      reads this`all, this`clients, this`subscribers, this`topics, this`broadcasts
      reads all`registered, all`secondaries, all`secondariesLocked, all`disconnected
      reads all`hasExclusions, all`exclusions, all`queue, all`log, all`closed
    {
      Aligned(Snap()) && CachedBut(except) && OpenWhileThere() && forall c | c in all :: c.Logged()
    }

    ghost predicate ValidBut(except: set<BusRtClient>)
      reads this`all, this`clients, this`subscribers, this`topics, this`broadcasts, this`traffic, this`cut
      reads all`registered, all`secondaries, all`secondariesLocked, all`disconnected
      reads all`hasExclusions, all`exclusions, all`queue, all`log, all`closed, all`traffic
    {
      SoundBut(except) && Conserved(TallyNow(), cut)
    }

    /** The invariant between operations. */
    ghost predicate Valid()
      reads this`all, this`clients, this`subscribers, this`topics, this`broadcasts, this`traffic, this`cut
      reads all`registered, all`secondaries, all`secondariesLocked, all`disconnected
      reads all`hasExclusions, all`exclusions, all`queue, all`log, all`closed, all`traffic
    {
      ValidBut({})
    }

    lemma ValidButMore(except: set<BusRtClient>)
      requires Valid()
      ensures ValidBut(except)
    {
      hide Aligned, Conserved, Snap, TallyNow;
    }

    // ----- The registry

    /** The first half of `drop_client`: the flag is cleared and the client leaves the three maps. */
    method Detach(client: BusRtClient)
      requires client in all
      modifies this`clients, this`subscribers, this`topics, this`broadcasts, client`registered
      ensures Snap() == Removed(old(Snap()), {client.name}, {client}, {})
    {
      client.registered := false;
      topics := set t | t in topics && t.1 !in {client.name};
      subscribers := subscribers - {client.name};
      broadcasts := broadcasts - {client.name};
      clients := clients - {client.name};
      assert Snap().disconnected == old(Snap()).disconnected + {};
      assert Snap().registered == old(Snap()).registered - {client};
    }

    /** The cascade of `drop_client`, under the lock of the client's `secondaries`. */
    method DropSecondaries(client: BusRtClient, ghost s: Reg)
      requires Droppable(s, client) && client in s.registered && client.Primary()
      requires Snap() == Removed(s, {client.name}, {client}, {})
      modifies this`clients, this`subscribers, this`topics, this`broadcasts
      modifies all`registered, all`secondaries, all`secondariesLocked, all`disconnected
      ensures Snap() == Dropped(s, client)
      decreases 1, 2
    {
      CascadeStart(s, client);
      LockSecondaries(client);
      CascadeLoop(client, s);
      CascadeEnd(s, client);
      ClearSecondaries(client);
    }

    method CascadeLoop(client: BusRtClient, ghost s: Reg)
      requires Droppable(s, client) && client in s.registered && client.Primary()
      requires Snap() == PartlyDropped(s, client, {})
      modifies this`clients, this`subscribers, this`topics, this`broadcasts
      modifies all`registered, all`secondaries, all`secondariesLocked, all`disconnected
      ensures Snap() == PartlyDropped(s, client, s.secondaries[client])
      decreases 1, 1
    {
      var todo := client.secondaries;
      assert todo == Snap().secondaries[client];
      ghost var done := {};
      while todo != {}
        invariant todo !! done && done + todo == s.secondaries[client]
        invariant Snap() == PartlyDropped(s, client, done)
        decreases |todo|
      {
        var secondary :| secondary in todo;
        DropSecondary(client, secondary, s, done);
        todo, done := todo - {secondary}, done + {secondary};
      }
      assert done == s.secondaries[client];
    }

    /** One turn of the cascade loop. */
    method DropSecondary(client: BusRtClient, secondary: Text, ghost s: Reg, ghost done: set<Text>)
      requires Droppable(s, client) && client in s.registered && client.Primary()
      requires done <= s.secondaries[client] && secondary in s.secondaries[client] && secondary !in done
      requires Snap() == PartlyDropped(s, client, done)
      modifies this`clients, this`subscribers, this`topics, this`broadcasts
      modifies all`registered, all`secondaries, all`secondariesLocked, all`disconnected
      ensures Snap() == PartlyDropped(s, client, done + {secondary})
      decreases 1, 0
    {
      CascadeStep(s, client, done, secondary);
      if secondary in clients {
        var sec := clients[secondary];
        Fire(sec);
        DropClient(sec);
      }
    }

    method LockSecondaries(client: BusRtClient)
      requires client in all && !client.secondariesLocked
      modifies client`secondariesLocked
      ensures Snap() == old(Snap()).(locked := old(Snap()).locked + {client})
    {
      client.secondariesLocked := true;
      assert Snap().locked == old(Snap()).locked + {client};
    }

    /** `secondaries.clear()`, then the guard goes out of scope. */
    method ClearSecondaries(client: BusRtClient)
      requires client in all && client.secondariesLocked
      modifies client`secondaries, client`secondariesLocked
      ensures var t := old(Snap());
        Snap() == t.(secondaries := t.secondaries[client := {}], locked := t.locked - {client})
    {
      client.secondaries := {};
      client.secondariesLocked := false;
      assert Snap().secondaries == old(Snap()).secondaries[client := {}];
      assert Snap().locked == old(Snap()).locked - {client};
    }

    method Fire(sec: BusRtClient)
      requires sec in all
      modifies sec`disconnected
      ensures Snap() == Fired(old(Snap()), sec)
    {
      if sec.kind != Internal {
        sec.disconnected := true;
      }
      assert sec.kind != Internal ==> Snap().disconnected == old(Snap()).disconnected + {sec};
      assert sec.kind == Internal ==> Snap().disconnected == old(Snap()).disconnected;
    }

    /** `drop_client`: a client without the flag is left alone; a primary takes its secondaries with
        it. The `secondaries` lock is held over the cascade, and no nested call asks for it again. */
    method DropClient(client: BusRtClient)
      requires Droppable(Snap(), client)
      modifies this`clients, this`subscribers, this`topics, this`broadcasts
      modifies all`registered, all`secondaries, all`secondariesLocked, all`disconnected
      ensures Snap() == Dropped(old(Snap()), client)
      decreases if client.Primary() then 2 else 0
    {
      ghost var s := Snap();
      if client.registered {
        Detach(client);
        if client.Primary() {
          DropSecondaries(client, s);
        } else {
          LeavePrimary(client, s);
        }
      }
    }

    /** A secondary is forgotten by its primary, if that is still there. */
    method LeavePrimary(client: BusRtClient, ghost s: Reg)
      requires Droppable(s, client) && client in s.registered && !client.Primary()
      requires Snap() == Removed(s, {client.name}, {client}, {})
      modifies all`secondaries
      ensures Snap() == Dropped(s, client)
    {
      LoneDrop(s, client);
      hide Dropped;
      if client.PrimaryName() in clients {
        var primary := clients[client.PrimaryName()];
        assert !primary.secondariesLocked by { assert primary !in s.locked; }
        ghost var t := Snap();
        primary.secondaries := primary.secondaries - {client.name};
        assert Snap() == t.(secondaries := t.secondaries[primary := t.secondaries[primary] - {client.name}]);
      }
    }

    /** `insert_client`: the client is entered everywhere, or refused and nothing changes. */
    method InsertClient(client: BusRtClient) returns (error: Option<ErrorKind>)
      requires Aligned(Snap()) && client in all && !client.registered
      modifies this`clients, this`subscribers, this`topics, this`broadcasts
      modifies all`registered, all`secondaries
      ensures error == InsertError(old(Snap()), client)
      ensures Snap() == if error == None then Inserted(old(Snap()), client) else old(Snap())
    {
      hide Aligned, PrimaryOf;
      ghost var s := Snap();
      if !client.Primary() && client.PrimaryName() !in clients {
        return Some(NotRegistered);
      }
      if client.name in clients {
        return Some(Busy);
      }
      EnterClient(client);
      return None;
    }

    method EnterClient(client: BusRtClient)
      requires Aligned(Snap()) && client in all && InsertError(Snap(), client) == None
      modifies this`clients, this`subscribers, this`topics, this`broadcasts
      modifies all`registered, all`secondaries
      ensures Snap() == Inserted(old(Snap()), client)
    {
      hide Aligned, PrimaryOf;
      ghost var s := Snap();
      if !client.Primary() {
        var primary := clients[client.PrimaryName()];
        PrimaryUnlocked(s, client.PrimaryName());
        AddSecondary(primary, client.name);
      }
      JoinMaps(client);
      PutClient(client);
    }

    method PutClient(client: BusRtClient)
      requires client in all
      modifies this`clients, client`registered
      ensures var s := old(Snap());
        Snap() == s.(registered := s.registered + {client}, clients := s.clients[client.name := client])
    {
      client.registered := true;
      assert Snap().registered == old(Snap()).registered + {client};
      clients := clients[client.name := client];
    }

    method JoinMaps(client: BusRtClient)
      modifies this`subscribers, this`topics, this`broadcasts
      ensures var s := old(Snap());
        Snap() == s.(broadcasts := WithClient(s.broadcasts, client), subscribers := WithClient(s.subscribers, client),
                     topics := s.topics + {(BROKER_WARN_TOPIC, client.name)})
    {
      if client.name !in broadcasts {
        broadcasts := broadcasts[client.name := client];
      }
      if client.name !in subscribers {
        subscribers := subscribers[client.name := client];
      }
      topics := topics + {(BROKER_WARN_TOPIC, client.name)};
    }

    method AddSecondary(primary: BusRtClient, name: Text)
      requires primary in all && !primary.secondariesLocked
      modifies primary`secondaries
      ensures var s := old(Snap());
        Snap() == s.(secondaries := s.secondaries[primary := s.secondaries[primary] + {name}])
    {
      primary.secondaries := primary.secondaries + {name};
      assert Snap().secondaries == old(Snap()).secondaries[primary := primary.secondaries];
    }

    /** `register_client`: a taken name is taken over if the policy allows it. */
    method RegisterClient(client: BusRtClient) returns (error: Option<ErrorKind>)
      requires Aligned(Snap()) && client in all && !client.registered
      modifies this`clients, this`subscribers, this`topics, this`broadcasts
      modifies all`registered, all`secondaries, all`secondariesLocked, all`disconnected
      ensures (Snap(), error) == Registered(old(Snap()), client, policy)
      ensures Aligned(Snap()) && Registration(old(Snap()), Snap(), client, error, policy)
    {
      ghost var s := Snap();
      RegistrationExact(s, client, policy);
      RegisterKeepsAligned(s, client, policy);
      hide Registration;
      error := InsertClient(client);
      if error == Some(Busy) && policy.Allows(client) {
        EvictionMakesRoom(s, client);
        Evict(client);
        error := InsertClient(client);
      }
    }

    /** The previous instance leaves the map first, then is dropped, then told to disconnect. */
    method Evict(client: BusRtClient)
      requires client.name in clients && clients[client.name] in all
      requires Droppable(Snap().(clients := clients - {client.name}), clients[client.name])
      modifies this`clients, this`subscribers, this`topics, this`broadcasts
      modifies all`registered, all`secondaries, all`secondariesLocked, all`disconnected
      ensures Snap() == Evicted(old(Snap()), client)
    {
      hide Dropped, Droppable;
      var prev := clients[client.name];
      Vacate(client.name);
      DropClient(prev);
      Disconnect(prev);
    }

    method Vacate(name: Text)
      modifies this`clients
      ensures Snap() == old(Snap()).(clients := old(clients) - {name})
    {
      clients := clients - {name};
    }

    method Disconnect(client: BusRtClient)
      requires client in all
      modifies client`disconnected
      ensures var s := old(Snap()); Snap() == s.(disconnected := s.disconnected + {client})
    {
      client.disconnected := true;
      assert Snap().disconnected == old(Snap()).disconnected + {client};
    }

    /** What a change of the registry alone leaves alone. */
    twostate predicate OnlyRegistry()
      reads this, all
    {
      && old(all) <= all && traffic == old(traffic) && cut == old(cut)
      && forall c | c in old(all) ::
           && c.traffic == old(c.traffic) && c.queue == old(c.queue) && c.log == old(c.log)
           && c.closed == old(c.closed)
           && c.hasExclusions == old(c.hasExclusions) && c.exclusions == old(c.exclusions)
    }

    twostate lemma RegistryKeepsSound(except: set<BusRtClient>)
      requires old(SoundBut(except)) && OnlyRegistry() && all == old(all) && Aligned(Snap())
      requires Snap().registered <= old(Snap()).registered
      ensures SoundBut(except) && TallyNow() == old(TallyNow())
    {
      hide Aligned;
      forall c | c in all && c.registered ensures old(c.registered) {
        assert c in Snap().registered && c in old(Snap()).registered;
      }
      forall c | c in all ensures c.Logged() {
        assert old(c.Logged());
      }
    }

    /** A client is created and registered: the whole effect on the registry, and nothing else. */
    method Register(name: Text, kind: ClientKind, capacity: Capacity)
      returns (client: BusRtClient, error: Option<ErrorKind>)
      requires Valid()
      modifies this`all, this`clients, this`subscribers, this`topics, this`broadcasts
      modifies all`registered, all`secondaries, all`secondariesLocked, all`disconnected
      ensures Valid() && fresh(client) && all == old(all) + {client} && client.name == name
      ensures (Snap(), error) == Joining(old(Snap()), client, policy)
      ensures var s := old(Snap());
        Registration(s.(all := s.all + {client}, secondaries := s.secondaries[client := {}]), Snap(), client, error,
                     policy)
      ensures OnlyRegistry()
    {
      hide Aligned, Conserved, Registered, SoundBut, CachedBut, Registration, Snap, TallyNow, OpenWhileThere;
      ghost var s := Snap();
      ValidIsAligned();
      KnownIsAll();
      client := Create(name, kind, capacity);
      CreateKeepsAligned(s, client);
      hide ValidBut;
      error := RegisterAdmitted(client);
    }

    method Create(name: Text, kind: ClientKind, capacity: Capacity) returns (client: BusRtClient)
      requires Valid()
      modifies this`all
      ensures ValidBut({client}) && fresh(client) && all == old(all) + {client} && client.name == name
      ensures !client.registered && client.exclusions == {} && !client.hasExclusions && !client.closed
      ensures Snap() == Created(old(Snap()), client)
    {
      hide Aligned, Conserved, SoundBut, Snap, TallyNow, Created;
      client := new BusRtClient(name, kind, capacity);
      Admit(client);
    }

    /** Nothing has been put in a queue, nobody's channel has been closed. */
    twostate lemma BoxesKept()
      requires OnlyRegistry()
      ensures forall c | c in old(BoxesNow()) :: c in BoxesNow() && BoxesNow()[c] == old(BoxesNow())[c]
    {
    }

    lemma KnownIsAll()
      ensures Snap().all == all
    {
    }

    lemma ValidIsAligned()
      requires Valid()
      ensures Aligned(Snap())
    {
    }

    method RegisterAdmitted(client: BusRtClient) returns (error: Option<ErrorKind>)
      requires ValidBut({client}) && client in all && !client.registered
      requires client.exclusions == {} && !client.hasExclusions && !client.closed
      modifies this`clients, this`subscribers, this`topics, this`broadcasts
      modifies all`registered, all`secondaries, all`secondariesLocked, all`disconnected
      ensures Valid() && OnlyRegistry()
      ensures (Snap(), error) == Registered(old(Snap()), client, policy)
      ensures Registration(old(Snap()), Snap(), client, error, policy)
    {
      hide Aligned, Conserved, Registered, Registration;
      OnlyNewFlag(Snap(), client, policy);
      hide ValidBut;
      error := RegisterClient(client);
      NewcomerKeepsValid(client);
    }

    twostate lemma NewcomerKeepsValid(client: BusRtClient)
      requires old(ValidBut({client})) && OnlyRegistry() && all == old(all) && client in all && Aligned(Snap())
      requires Snap().registered <= old(Snap()).registered + {client}
      requires client.exclusions == {} && !client.hasExclusions && !client.closed
      ensures Valid()
    {
      hide Aligned, Conserved;
      assert TallyNow() == old(TallyNow());
      forall c | c in all && c.registered ensures c == client || old(c.registered) {
        assert c in Snap().registered;
        assert c != client ==> c in old(Snap()).registered;
      }
      forall c | c in all ensures c.Logged() {
        assert old(c.Logged());
      }
    }

    method Admit(client: BusRtClient)
      requires Valid() && client !in all && client.traffic == NO_TRAFFIC && client.Logged()
      requires !client.registered && client.secondaries == {} && !client.secondariesLocked && !client.disconnected
      modifies this`all
      ensures ValidBut({client}) && all == old(all) + {client}
      ensures Snap() == Created(old(Snap()), client)
    {
      hide Aligned, Conserved, Created;
      CreatedConserves(TallyNow(), cut, client);
      CreateKeepsAligned(Snap(), client);
      all := all + {client};
      Added(client);
    }

    twostate lemma Added(client: BusRtClient)
      requires client !in old(all) && all == old(all) + {client} && client.traffic == NO_TRAFFIC
      requires !client.registered && client.secondaries == {} && !client.secondariesLocked && !client.disconnected
      requires clients == old(clients) && subscribers == old(subscribers) && topics == old(topics)
      requires broadcasts == old(broadcasts) && traffic == old(traffic) && unchanged(all)
      ensures Snap() == Created(old(Snap()), client)
      ensures TallyNow() == Tally(traffic, old(TallyNow()).per[client := NO_TRAFFIC])
    {
      assert Snap().secondaries == old(Snap()).secondaries[client := {}];
      assert Snap().registered == old(Snap()).registered;
      assert Snap().locked == old(Snap()).locked;
      assert Snap().disconnected == old(Snap()).disconnected;
      assert TallyNow().per == old(TallyNow()).per[client := NO_TRAFFIC];
    }

    /** A further client under a generated secondary name; only a primary may ask for one. */
    method RegisterSecondaryFor(client: BusRtClient, id: Text, capacity: Capacity) returns (r: Result<BusRtClient>)
      requires Valid()
      modifies this`all, this`clients, this`subscribers, this`topics, this`broadcasts
      modifies all`registered, all`secondaries, all`secondariesLocked, all`disconnected
      ensures Valid()
      ensures !client.Primary() ==> r == Err(NotSupported) && Snap() == old(Snap())
      ensures r.Ok? ==>
        && fresh(r.value) && r.value.name == SecondaryName(client.name, id) && r.value.registered
        && (Snap(), None) == Joining(old(Snap()), r.value, policy)
      ensures client.Primary() ==>
        var name := SecondaryName(client.name, id);
        && (r == Err(NotRegistered) <==> PrimaryOf(name) !in old(clients))
        && (r == Err(Busy) <==> name in old(clients) && !(policy.force && !policy.brokerRpc))
        && (r.Err? ==> r.error in {NotRegistered, Busy})
      ensures OnlyRegistry()
    {
      hide Aligned, Conserved, Joining, PrimaryOf, SecondaryName;
      if !client.Primary() {
        return Err(NotSupported);
      }
      SecondaryNameOwner(client.name, id);
      ValidIsAligned();
      ghost var s := Snap();
      var secondary, error := Register(SecondaryName(client.name, id), Internal, capacity);
      JoiningFacts(s, secondary, policy);
      if error.Some? {
        return Err(error.value);
      }
      assert secondary in Snap().registered;
      return Ok(secondary);
    }

    /** `unregister_client`, and the cleanup when a client handle or a connection goes away. */
    method Unregister(client: BusRtClient)
      requires Valid() && client in all
      modifies this`clients, this`subscribers, this`topics, this`broadcasts
      modifies all`registered, all`secondaries, all`secondariesLocked, all`disconnected
      ensures Valid()
      ensures Snap() == Dropped(old(Snap()), client)
      ensures OnlyRegistry() && !client.registered
    {
      Leave(client, {});
      DropOnlyClears(old(Snap()), client);
      assert client !in Snap().registered;
    }

    method Leave(client: BusRtClient, ghost except: set<BusRtClient>)
      requires SoundBut(except) && client in all
      modifies this`clients, this`subscribers, this`topics, this`broadcasts
      modifies all`registered, all`secondaries, all`secondariesLocked, all`disconnected
      ensures SoundBut(except) && OnlyRegistry() && TallyNow() == old(TallyNow())
      ensures BoxesNow() == old(BoxesNow())
      ensures Snap() == Dropped(old(Snap()), client)
    {
      hide Aligned, Dropped, Droppable, BoxesNow;
      DropOnlyClears(Snap(), client);
      hide SoundBut, Snap;
      DropClient(client);
      RegistryKeepsSound(except);
    }

    /** The end of a connection, whose client may have been left with its flag behind: the client is dropped
        and the receiver of its channel goes with the connection. */
    method LeaveAtLast(client: BusRtClient)
      requires ValidBut({client}) && client in all
      modifies this`clients, this`subscribers, this`topics, this`broadcasts
      modifies all`registered, all`secondaries, all`secondariesLocked, all`disconnected, client`closed
      ensures Valid() && !client.registered
      ensures client in old(Snap()).secondaries && Snap() == Dropped(old(Snap()), client)
      ensures BoxesNow() == WithClosed(old(BoxesNow()), client)
    {
      hide Aligned, Dropped, Conserved, BoxesNow, WithClosed;
      DropOnlyClears(Snap(), client);
      Leave(client, {client});
      assert client !in Snap().registered;
      Close(client, {client});
    }

    /** `trigger_disconnect`. */
    method TriggerDisconnect(name: Text) returns (error: Option<ErrorKind>)
      requires Valid()
      modifies all`disconnected
      ensures Valid()
      ensures (Snap(), error) == Disconnected(old(Snap()), name)
      ensures error == Some(NotRegistered) <==> name !in old(clients)
      ensures error == Some(NotSupported) <==> name in old(clients) && old(clients)[name].kind == Internal
      ensures error.Some? ==> error.value in {NotRegistered, NotSupported} && Snap() == old(Snap())
      ensures error.None? ==>
        Snap() == old(Snap()).(disconnected := old(Snap()).disconnected + {old(clients)[name]})
    {
      hide Aligned, Conserved;
      if name !in clients {
        return Some(NotRegistered);
      }
      var client := clients[name];
      if client.kind == Internal {
        return Some(NotSupported);
      }
      PrimaryUnlocked(Snap(), name);
      FiringKeepsAligned(Snap(), client);
      hide SoundBut, Snap;
      Disconnect(client);
      RegistryKeepsSound({});
      return None;
    }

    // ----- Delivery

    /** How an audience is found: the subscribers, then a filter that looks into an exclusion list only
        if the client's flag is set. */
    method FindAudience(topic: Text, receiver: Option<Text>) returns (subs: set<BusRtClient>)
      requires Valid()
      ensures subs == Audience(matching, StageNow(), topic, receiver) <= Snap().registered
      ensures forall c :: c in subs <==>
        && c in all && c.registered && (exists mask :: (mask, c.name) in topics && matching.topic(mask, topic))
        && (forall x | x in c.exclusions :: !matching.exclusion(x, topic))
        && (receiver.Some? ==> PrimaryOf(c.name) == receiver.value)
    {
      var found := set n | n in subscribers && SubscribedTo(matching, topics, n, topic) :: subscribers[n];
      subs := set c | c in found && (receiver.Some? ==> c.PrimaryName() == receiver.value)
                   && (!c.hasExclusions || !Excludes(matching, c.exclusions, topic));
      AudienceIsFound(topic, receiver, found, subs);
      AudienceExactly(matching, StageNow(), topic, receiver);
      hide SubscribedTo, Excludes, Audience;
    }

    lemma AudienceIsFound(topic: Text, receiver: Option<Text>, found: set<BusRtClient>, subs: set<BusRtClient>)
      requires Valid()
      requires found == set n | n in subscribers && SubscribedTo(matching, topics, n, topic) :: subscribers[n]
      requires subs == set c | c in found && (receiver.Some? ==> c.PrimaryName() == receiver.value)
                            && (!c.hasExclusions || !Excludes(matching, c.exclusions, topic))
      ensures subs == Audience(matching, StageNow(), topic, receiver) <= Snap().registered
    {
      FoundAreRegistered(topic, found);
      NothingExcluded(topic);
      hide Aligned, Conserved, SubscribedTo, Excludes, PrimaryOf;
    }

    lemma NothingExcluded(topic: Text)
      ensures forall c | c in all && c.exclusions == {} :: !Excludes(matching, c.exclusions, topic)
    {
    }

    lemma FoundAreRegistered(topic: Text, found: set<BusRtClient>)
      requires Valid()
      requires found == set n | n in subscribers && SubscribedTo(matching, topics, n, topic) :: subscribers[n]
      ensures found == set c | c in all && c.registered && SubscribedTo(matching, topics, c.name, topic)
    {
      hide SubscribedTo;
      var s := Snap();
      forall c | c in all && c.registered && SubscribedTo(matching, topics, c.name, topic) ensures c in found {
        assert c in s.registered && s.clients[c.name] == c;
      }
      forall c | c in found ensures c in all && c.registered && SubscribedTo(matching, topics, c.name, topic) {
        var n :| n in subscribers && SubscribedTo(matching, topics, n, topic) && subscribers[n] == c;
        assert s.clients[n] in s.registered;
      }
    }

    /** The consumers at work: every client's task takes any number of frames from its queue. */
    method Consume(ghost except: set<BusRtClient>)
      requires SoundBut(except)
      modifies all`queue
      ensures SoundBut(except) && Consumed(old(BoxesNow()), BoxesNow()) && Snap() == old(Snap())
      ensures TallyNow() == old(TallyNow())
    {
      hide *;
      ghost var b, s, t := BoxesNow(), Snap(), TallyNow();
      NothingConsumed(b);
      var todo := all;
      while todo != {}
        invariant todo <= all
        invariant SoundBut(except) && Consumed(b, BoxesNow()) && Snap() == s && TallyNow() == t
        decreases |todo|
      {
        var c :| c in todo;
        ghost var b1 := BoxesNow();
        ConsumeFrom(c, except);
        ConsumedTwice(b, b1, BoxesNow());
        todo := todo - {c};
      }
    }

    method ConsumeValid()
      requires Valid()
      modifies all`queue
      ensures Valid()
      ensures StageNow().reg == old(StageNow()).reg && Consumed(old(StageNow()).boxes, StageNow().boxes)
    {
      hide SoundBut, Conserved, Snap, BoxesNow, TallyNow, Consumed;
      Consume({});
    }

    lemma NothingConsumed(b: Boxes)
      ensures Consumed(b, b)
    {
    }

    method ConsumeFrom(c: BusRtClient, ghost except: set<BusRtClient>)
      requires SoundBut(except) && c in all
      modifies c`queue
      ensures SoundBut(except) && Consumed(old(BoxesNow()), BoxesNow()) && Snap() == old(Snap())
      ensures TallyNow() == old(TallyNow())
    {
      hide Aligned, BoxesNow, Consumed, TallyNow;
      LoggedNow(c, except);
      TakeSome(c);
    }

    method TakeSome(c: BusRtClient)
      requires c in all && c.Logged()
      modifies c`queue
      ensures c.Logged() && Consumed(old(BoxesNow()), BoxesNow())
    {
      var k :| 0 <= k <= |c.queue|;
      c.queue := c.queue[k..];
    }

    /** The consumer takes at least one frame. */
    method MakeRoom(tgt: BusRtClient)
      requires tgt.Logged() && tgt.queue != []
      modifies tgt`queue
      ensures tgt.Logged() && |tgt.queue| < tgt.capacity
    {
      var k :| 0 < k <= |tgt.queue|;
      tgt.queue := tgt.queue[k..];
    }

    method Push(tgt: BusRtClient, frame: FrameData)
      requires tgt.Logged() && |tgt.queue| < tgt.capacity
      modifies tgt`queue, tgt`log
      ensures tgt.Logged() && tgt.log == old(tgt.log) + [frame]
    {
      tgt.queue := tgt.queue + [frame];
      tgt.log := tgt.log + [frame];
    }

    /** Sending into the channel: waits for room, fails if the channel is closed, and may be given up
        while waiting if a timeout or the caller's own cancellation ends the wait. */
    method Offer(tgt: BusRtClient, frame: FrameData) returns (out: Delivery)
      requires tgt in all && tgt.Logged()
      modifies tgt`queue, tgt`log
      ensures tgt.Logged() && Only(tgt, old(BoxesNow()))
      ensures !out.GivenUp? ==> Took(tgt.kind, old(BoxesNow())[tgt], BoxesNow()[tgt], frame, false)
      ensures out.Accepted? <==> tgt.log == old(tgt.log) + [frame]
      ensures out.GivenUp? ==> BoxesNow() == old(BoxesNow()) && |tgt.queue| >= tgt.capacity
      ensures out.Refused? <==> tgt.closed
      ensures out.Refused? ==> out.error == Eof && BoxesNow() == old(BoxesNow())
    {
      if tgt.closed {
        return Refused(Eof);
      }
      if tgt.QueueFull() {
        var gaveUp: bool := *;
        if gaveUp {
          return GivenUp;
        }
        MakeRoom(tgt);
      }
      Push(tgt, frame);
      return Accepted;
    }

    /** No queue but that of one client has changed. */
    ghost predicate Only(tgt: BusRtClient, b: Boxes)
      requires tgt in all
      reads this`all, all`queue, all`log, all`closed, all`hasExclusions, all`exclusions
    {
      tgt in b && BoxesNow() == b[tgt := BoxesNow()[tgt]]
    }

    /** `safe_send_frame!`: a full queue blocks the sender if the client is internal, and costs any
        other client its registration. */
    method Deliver(tgt: BusRtClient, frame: FrameData) returns (out: Delivery)
      requires SoundBut({}) && tgt in all
      modifies this`clients, this`subscribers, this`topics, this`broadcasts
      modifies all`registered, all`secondaries, all`secondariesLocked, all`disconnected
      modifies tgt`queue, tgt`log, tgt`closed
      ensures SoundBut({}) && TallyNow() == old(TallyNow())
      ensures Delivered(old(BoxesNow()), BoxesNow(), tgt, frame, out)
      ensures Snap() == if Overruns(old(BoxesNow()), tgt) then Dropped(old(Snap()), tgt) else old(Snap())
      ensures !old(tgt.closed) && |old(tgt.queue)| < tgt.capacity ==>
        out == Accepted && tgt.log == old(tgt.log) + [frame] && !tgt.closed && Snap() == old(Snap())
      ensures tgt.kind != Internal && |old(tgt.queue)| >= tgt.capacity ==>
        out == Refused(NotDelivered) && tgt.log == old(tgt.log) && tgt.closed && tgt !in Snap().registered
    {
      OverflowDrops(tgt);
      hide Dropped, TallyNow, SoundBut, Snap, FedTo;
      if tgt.QueueFull() && tgt.kind != Internal {
        Overflow(tgt, frame);
        return Refused(NotDelivered);
      }
      out := OfferKept(tgt, frame, {});
      if out.GivenUp? {
        GivenUpChangesNothing(tgt, frame);
      }
    }

    lemma GivenUpChangesNothing(tgt: BusRtClient, frame: FrameData)
      requires tgt in all && |tgt.queue| >= tgt.capacity && tgt.kind == Internal && !tgt.closed
      ensures var b := BoxesNow(); tgt in b && FedTo(b, b, {tgt}, frame, true) && Waits(tgt.kind, b[tgt], b[tgt])
    {
    }

    method OfferKept(tgt: BusRtClient, frame: FrameData, ghost except: set<BusRtClient>) returns (out: Delivery)
      requires SoundBut(except) && tgt in all
      modifies tgt`queue, tgt`log
      ensures SoundBut(except) && Snap() == old(Snap()) && tgt in old(BoxesNow()) && tgt in BoxesNow()
      ensures out.GivenUp? ==> BoxesNow() == old(BoxesNow()) && |tgt.queue| >= tgt.capacity
      ensures !out.GivenUp? ==> FedTo(old(BoxesNow()), BoxesNow(), {tgt}, frame, false)
      ensures out.Accepted? <==> tgt.log == old(tgt.log) + [frame]
      ensures out.Refused? <==> tgt.closed
      ensures out.Refused? ==> out.error == Eof && BoxesNow() == old(BoxesNow())
    {
      hide Aligned, BoxesNow;
      LoggedNow(tgt, except);
      out := Offer(tgt, frame);
    }

    method Overflow(tgt: BusRtClient, ghost frame: FrameData)
      requires SoundBut({}) && tgt in all && |tgt.queue| >= tgt.capacity && tgt.kind != Internal
      modifies this`clients, this`subscribers, this`topics, this`broadcasts
      modifies all`registered, all`secondaries, all`secondariesLocked, all`disconnected, tgt`closed
      ensures SoundBut({}) && TallyNow() == old(TallyNow())
      ensures FedTo(old(BoxesNow()), BoxesNow(), {tgt}, frame, false)
      ensures Snap() == Dropped(old(Snap()), tgt)
      ensures tgt.log == old(tgt.log)
    {
      OverflowDrops(tgt);
      hide SoundBut, Dropped, TallyNow, Snap;
      Leave(tgt, {});
      Close(tgt, {});
    }

    lemma OverflowDrops(tgt: BusRtClient)
      requires SoundBut({}) && tgt in all
      ensures tgt in Snap().secondaries && tgt !in Dropped(Snap(), tgt).registered
    {
      hide Dropped;
      DropOnlyClears(Snap(), tgt);
    }

    /** The receiver of the channel goes away. */
    method Close(tgt: BusRtClient, ghost except: set<BusRtClient>)
      requires SoundBut(except) && tgt in all && (tgt in Snap().registered ==> tgt.kind == Internal)
      modifies tgt`closed
      ensures SoundBut(except) && TallyNow() == old(TallyNow()) && Snap() == old(Snap())
      ensures BoxesNow() == WithClosed(old(BoxesNow()), tgt)
    {
      hide Aligned, BoxesNow, TallyNow, WithClosed;
      Shut(tgt);
    }

    method Shut(tgt: BusRtClient)
      requires tgt in all
      modifies tgt`closed
      ensures BoxesNow() == WithClosed(old(BoxesNow()), tgt)
    {
      tgt.closed := true;
    }

    twostate lemma OnlyOneBox(client: BusRtClient)
      requires all == old(all)
      requires forall c | c in all && c != client ::
        && c.queue == old(c.queue) && c.log == old(c.log) && c.closed == old(c.closed)
        && c.hasExclusions == old(c.hasExclusions) && c.exclusions == old(c.exclusions)
      ensures BoxesNow().Keys == old(BoxesNow()).Keys
      ensures forall c | c in old(BoxesNow()) && c != client :: BoxesNow()[c] == old(BoxesNow())[c]
    {
    }

    lemma BoxOf(c: BusRtClient)
      requires c in all
      ensures c in BoxesNow()
      ensures BoxesNow()[c] == Box(c.log, |c.queue| >= c.capacity, c.closed, c.hasExclusions, c.exclusions)
    {
    }

    /** What can have changed while a list of topics was handled. */
    twostate lemma OnlyListEffects(client: BusRtClient)
      requires client in all && all == old(all) && clients == old(clients) && subscribers == old(subscribers)
      requires broadcasts == old(broadcasts)
      requires forall c | c in all ::
        && c.registered == old(c.registered) && c.secondaries == old(c.secondaries)
        && c.secondariesLocked == old(c.secondariesLocked) && c.disconnected == old(c.disconnected)
      requires forall c | c in all && c != client ::
        && c.queue == old(c.queue) && c.log == old(c.log) && c.closed == old(c.closed)
        && c.hasExclusions == old(c.hasExclusions) && c.exclusions == old(c.exclusions)
      ensures var g, g' := old(StageNow()), StageNow();
        && client in g.boxes && client in g'.boxes && g'.boxes.Keys == g.boxes.Keys
        && g'.reg == g.reg.(topics := topics) && g.reg.topics == old(topics) && g.reg.subscribers == subscribers
        && (forall c | c in g.boxes && c != client :: g'.boxes[c] == g.boxes[c])
        && g.boxes[client] ==
             old(Box(client.log, |client.queue| >= client.capacity, client.closed, client.hasExclusions,
                     client.exclusions))
        && g'.boxes[client] ==
             Box(client.log, |client.queue| >= client.capacity, client.closed, client.hasExclusions,
                     client.exclusions)
    {
      OnlyOneBox(client);
      OnlyTopics();
      hide Snap;
    }

    lemma StageParts()
      ensures StageNow() == Stage(Snap(), BoxesNow())
    {
    }

    lemma SnapKnows(target: Text)
      requires Valid()
      ensures Snap().clients == clients && BoxesNow().Keys == all
      ensures Ready(Snap(), BoxesNow(), Target(Snap(), target))
    {
      assert target in clients ==> Snap().clients[target] in Snap().registered;
      ReadyNow(Target(Snap(), target));
    }

    twostate lemma OnlyTopics()
      requires all == old(all) && clients == old(clients) && subscribers == old(subscribers)
      requires broadcasts == old(broadcasts)
      requires forall c | c in all ::
        && c.registered == old(c.registered) && c.secondaries == old(c.secondaries)
        && c.secondariesLocked == old(c.secondariesLocked) && c.disconnected == old(c.disconnected)
      ensures Snap() == old(Snap()).(topics := topics)
    {
      assert Snap().registered == old(Snap()).registered;
      assert Snap().secondaries == old(Snap()).secondaries;
      assert Snap().locked == old(Snap()).locked;
      assert Snap().disconnected == old(Snap()).disconnected;
    }

    lemma LoggedNow(tgt: BusRtClient, except: set<BusRtClient>)
      requires SoundBut(except) && tgt in all
      ensures tgt.Logged()
    {
    }

    // ----- Counters

    /** Counting a frame that came in. */
    method Receive(client: BusRtClient, len: nat)
      requires Valid() && client in all
      modifies this`traffic, client`traffic
      ensures Valid() && TallyNow() == Received(old(TallyNow()), client, len)
      ensures traffic == old(traffic).(rFrames := old(traffic.rFrames) + 1, rBytes := old(traffic.rBytes) + len)
      ensures client.traffic ==
        old(client.traffic).(rFrames := old(client.traffic.rFrames) + 1, rBytes := old(client.traffic.rBytes) + len)
    {
      hide SoundBut, Conserved, Sum;
      ghost var t := TallyNow();
      ReceivedConserves(t, cut, client, len);
      traffic := traffic.Plus(In(len));
      client.traffic := client.traffic.Plus(In(len));
      assert TallyNow().per == t.per[client := t.per[client].Plus(In(len))];
    }

    /** Counting a frame about to go out to one client, on that client's side. */
    method Credit(tgt: BusRtClient, len: nat)
      requires tgt in all
      modifies tgt`traffic
      ensures TallyNow().per == Credited(old(TallyNow()).per, {tgt}, len)
    {
      tgt.traffic := tgt.traffic.Plus(Out(1, len));
      assert TallyNow().per == Credited(old(TallyNow()).per, {tgt}, len);
    }

    /** Counting on both sides. */
    method CountOut(tgt: BusRtClient, len: nat)
      requires Valid() && tgt in all
      modifies this`traffic, tgt`traffic
      ensures Valid() && TallyNow() == SentTo(old(TallyNow()), {tgt}, len)
      ensures Snap() == old(Snap()) && BoxesNow() == old(BoxesNow())
    {
      hide SoundBut, Conserved, Sum, Credited, Snap, BoxesNow;
      SentConserves(TallyNow(), cut, {tgt}, len);
      assert |{tgt}| == 1;
      ghost var per := TallyNow().per;
      traffic := traffic.Plus(Out(1, len));
      assert TallyNow().per == per;
      Credit(tgt, len);
    }

    // ----- One frame to many

    /** One turn of the delivery loop. */
    method FeedOne(sub: BusRtClient, frame: FrameData, len: nat) returns (out: Delivery)
      requires SoundBut({}) && sub in all
      modifies this`clients, this`subscribers, this`topics, this`broadcasts
      modifies all`registered, all`secondaries, all`secondariesLocked, all`disconnected
      modifies sub`queue, sub`log, sub`closed, sub`traffic
      ensures SoundBut({}) && Delivered(old(BoxesNow()), BoxesNow(), sub, frame, out)
      ensures TallyNow().per == Credited(old(TallyNow()).per, {sub}, len)
      ensures Snap() == if Overruns(old(BoxesNow()), sub) then Dropped(old(Snap()), sub) else old(Snap())
    {
      hide SoundBut, Credited, Dropped, Delivered, Overruns, TallyNow, Snap, BoxesNow;
      Credit(sub, len);
      out := Deliver(sub, frame);
    }

    /** What a delivery loop that started from `b` and `s` has achieved so far. */
    ghost predicate FedSoFar(b: Boxes, per: map<BusRtClient, Traffic>, s: Reg, chosen: set<BusRtClient>,
                             reached: set<BusRtClient>, frame: FrameData, len: nat, givenUp: bool)
      reads this`all, this`clients, this`subscribers, this`topics, this`broadcasts, this`traffic
      reads all`registered, all`secondaries, all`secondariesLocked, all`disconnected, all`traffic
      reads all`queue, all`log, all`closed, all`hasExclusions, all`exclusions
    {
      && SoundBut({}) && FedTo(b, BoxesNow(), reached, frame, givenUp)
      && TallyNow().per == Credited(per, reached, len)
      && Cost(s, Snap(), b, BoxesNow(), chosen)
      && (givenUp ==> Stuck(b, BoxesNow(), chosen))
    }

    /** The consumers have been at work, then it is the next client's turn. */
    method FeedNext(sub: BusRtClient, frame: FrameData, len: nat, ghost b: Boxes, ghost per: map<BusRtClient, Traffic>,
                    ghost s: Reg, ghost chosen: set<BusRtClient>, ghost reached: set<BusRtClient>)
      returns (out: Delivery)
      requires sub in chosen && sub !in reached && chosen <= all && b.Keys == all && Ready(s, b, chosen)
      requires FedSoFar(b, per, s, chosen, reached, frame, len, false)
      modifies this`clients, this`subscribers, this`topics, this`broadcasts
      modifies all`registered, all`secondaries, all`secondariesLocked, all`disconnected
      modifies all`queue, all`log, all`closed, all`traffic
      ensures FedSoFar(b, per, s, chosen, reached + {sub}, frame, len, out.GivenUp?)
    {
      hide SoundBut, Credited, Snap, BoxesNow, FedTo, TallyNow, Cost, Stuck, Dropped, Overruns, Delivered, Consumed;
      hide Ready;
      ghost var b0 := BoxesNow();
      Consume({});
      ghost var b1, s1 := BoxesNow(), Snap();
      FedThenConsumed(b, b0, b1, reached, frame);
      ConsumedClosesNothing(b0, b1);
      CostOfClosing(s, s1, b, b0, b1, chosen);
      SnapFacts(sub, {});
      out := FeedOne(sub, frame, len);
      FedNextFacts(b, b1, BoxesNow(), s, s1, Snap(), chosen, reached, sub, frame, out);
      OneMoreCredited(per, reached, sub, len);
    }

    lemma FedNextFacts(b: Boxes, b1: Boxes, b2: Boxes, s: Reg, s1: Reg, s2: Reg, chosen: set<BusRtClient>,
                       reached: set<BusRtClient>, sub: BusRtClient, frame: FrameData, out: Delivery)
      requires FedTo(b, b1, reached, frame, false) && Delivered(b1, b2, sub, frame, out)
      requires sub in chosen && sub !in reached && sub in b && sub in b1
      requires Ready(s, b, chosen) && Cost(s, s1, b, b1, chosen) && sub in s1.secondaries
      requires s2 == if Overruns(b1, sub) then Dropped(s1, sub) else s1
      ensures FedTo(b, b2, reached + {sub}, frame, out.GivenUp?)
      ensures Cost(s, s2, b, b2, chosen)
      ensures out.GivenUp? ==> Stuck(b, b2, chosen)
    {
      hide Cost, Aligned, Dropped;
      StillRoom(b, b1, reached, sub, frame);
      FedOneMore(b, b1, b2, reached, sub, frame, out.GivenUp?);
      ClosedNextBy(b, b1, b2, chosen, sub, frame, out);
      CostOneMore(s, s1, s2, b, b1, b2, chosen, sub);
      hide FedTo;
      if out.GivenUp? {
        assert Waits(sub.kind, b[sub], b2[sub]);
      }
    }

    lemma SnapFacts(sub: BusRtClient, except: set<BusRtClient>)
      requires SoundBut(except) && sub in all
      ensures sub in Snap().secondaries && sub in BoxesNow()
    {
      hide Aligned;
    }

    lemma FeedingBegins(chosen: set<BusRtClient>, frame: FrameData, len: nat)
      requires SoundBut({}) && chosen <= Snap().registered
      ensures BoxesNow().Keys == all && Ready(Snap(), BoxesNow(), chosen) && chosen <= all
      ensures FedSoFar(BoxesNow(), TallyNow().per, Snap(), chosen, {}, frame, len, false)
    {
      ReadyNow(chosen);
      hide SoundBut, Cost, Ready;
      FedNobody(BoxesNow(), frame);
      NobodyCredited(TallyNow().per, len);
      NoCost(Snap(), BoxesNow(), chosen);
    }

    lemma ReadyNow(chosen: set<BusRtClient>)
      requires SoundBut({}) && chosen <= Snap().registered
      ensures Ready(Snap(), BoxesNow(), chosen) && chosen <= all
    {
      hide Aligned;
    }

    method FanoutLoop(chosen: set<BusRtClient>, frame: FrameData, len: nat, ghost b: Boxes,
                      ghost per: map<BusRtClient, Traffic>, ghost s: Reg)
      returns (whole: bool, ghost reached: set<BusRtClient>)
      requires chosen <= all && b.Keys == all && Ready(s, b, chosen)
      requires FedSoFar(b, per, s, chosen, {}, frame, len, false)
      modifies this`clients, this`subscribers, this`topics, this`broadcasts
      modifies all`registered, all`secondaries, all`secondariesLocked, all`disconnected
      modifies all`queue, all`log, all`closed, all`traffic
      ensures FedSoFar(b, per, s, chosen, reached, frame, len, !whole)
      ensures reached <= chosen && (whole ==> reached == chosen)
    {
      hide *;
      reached := {};
      whole := true;
      var todo := chosen;
      while whole && todo != {}
        invariant reached <= chosen && (whole ==> todo == chosen - reached)
        invariant FedSoFar(b, per, s, chosen, reached, frame, len, !whole)
        decreases |todo|
      {
        var sub :| sub in todo;
        var out := FeedNext(sub, frame, len, b, per, s, chosen, reached);
        todo := todo - {sub};
        reached := reached + {sub};
        whole := !out.GivenUp?;
      }
    }

    /** The delivery of a broadcast or a publication. The broker's counters are raised for all receivers
        in advance, each receiver's own in its turn. The loop is cut short only where waiting for room in
        the full queue of an internal client is given up. */
    method Fanout(chosen: set<BusRtClient>, frame: FrameData, len: nat)
      returns (whole: bool, ghost reached: set<BusRtClient>)
      requires Valid() && chosen <= Snap().registered
      modifies this`clients, this`subscribers, this`topics, this`broadcasts, this`traffic, this`cut
      modifies all`registered, all`secondaries, all`secondariesLocked, all`disconnected
      modifies all`queue, all`log, all`closed, all`traffic
      ensures Valid() && reached <= chosen
      ensures FedTo(old(BoxesNow()), BoxesNow(), reached, frame, !whole)
      ensures TallyNow() == SentPartly(old(TallyNow()), chosen, reached, len)
      ensures if whole then reached == chosen && cut == old(cut) else cut
      ensures !whole ==> Stuck(old(BoxesNow()), BoxesNow(), chosen)
      ensures Cost(old(Snap()), Snap(), old(BoxesNow()), BoxesNow(), chosen)
    {
      hide SoundBut, Conserved, Cost, Snap, BoxesNow, FedTo, Stuck, Ready;
      ghost var t := TallyNow();
      if chosen == {} {
        FedNobody(BoxesNow(), frame);
        SentToNobody(t, len);
        NoCost(Snap(), BoxesNow(), chosen);
        return true, {};
      }
      CountAhead(|chosen|, len);
      FeedingBegins(chosen, frame, len);
      whole, reached := FanoutLoop(chosen, frame, len, BoxesNow(), t.per, Snap());
      hide Credited;
      Settle(t, chosen, reached, len, whole);
    }

    ghost method Settle(t: Tally, chosen: set<BusRtClient>, reached: set<BusRtClient>, len: nat, whole: bool)
      requires SoundBut({}) && Conserved(t, cut) && reached <= chosen <= t.per.Keys
      requires TallyNow() == SentPartly(t, chosen, reached, len) && (whole ==> reached == chosen)
      modifies this`cut
      ensures Valid() && cut == (old(cut) || !whole)
    {
      hide SoundBut, Conserved, Sum, Credited;
      CutShortConserves(t, cut, chosen, reached, len);
      if whole {
        SentConserves(t, cut, chosen, len);
      } else {
        cut := true;
      }
    }

    method CountAhead(n: nat, len: nat)
      modifies this`traffic
      ensures TallyNow() == Tally(old(traffic).Plus(Out(n, len)), old(TallyNow()).per)
    {
      traffic := traffic.Plus(Out(n, len));
      assert TallyNow().per == old(TallyNow()).per;
    }

    // ----- Sending

    /** `send!`: to the client registered under the target name. */
    method SendMessage(client: BusRtClient, target: Text, load: Load, len: nat) returns (out: Delivery)
      requires Valid() && client in all
      modifies this`clients, this`subscribers, this`topics, this`broadcasts, this`traffic
      modifies all`registered, all`secondaries, all`secondariesLocked, all`disconnected
      modifies all`queue, all`log, all`closed, all`traffic
      ensures Valid()
      ensures target !in old(clients) ==>
        && out == Refused(NotRegistered) && Snap() == old(Snap()) && BoxesNow() == old(BoxesNow())
        && TallyNow() == Received(old(TallyNow()), client, len)
      ensures target in old(clients) ==>
        var tgt, b := old(clients)[target], old(BoxesNow());
        var frame := FrameData(KMessage, Some(client.name), None,
                               load.header, load.buf, load.payloadPos, load.realtime);
        && tgt in all && tgt.name == target
        && TallyNow() == SentTo(Received(old(TallyNow()), client, len), {tgt}, len)
        && Delivered(b, BoxesNow(), tgt, frame, out)
        && Snap() == (if Overruns(b, tgt) then Dropped(old(Snap()), tgt) else old(Snap()))
        && (!old(tgt.closed) && |old(tgt.queue)| < tgt.capacity ==>
              out == Accepted && tgt.log == old(tgt.log) + [frame] && !tgt.closed && Snap() == old(Snap()))
        && (tgt.kind != Internal && |old(tgt.queue)| >= tgt.capacity ==>
              out == Refused(NotDelivered) && tgt.log == old(tgt.log) && tgt.closed && tgt !in Snap().registered)
    {
      hide SoundBut, Conserved, Received, SentTo, Dropped, Delivered, Overruns, Snap, BoxesNow, TallyNow;
      Receive(client, len);
      if target !in clients {
        return Refused(NotRegistered);
      }
      var tgt := clients[target];
      FoundByName(target);
      CountOut(tgt, len);
      out := Deliver(tgt, FrameData(KMessage, Some(client.name), None,
                                    load.header, load.buf, load.payloadPos, load.realtime));
    }

    lemma FoundByName(target: Text)
      requires Valid() && target in clients
      ensures clients[target] in all && clients[target].name == target
    {
      assert clients[target] == Snap().clients[target];
    }

    /** `send_broadcast!`: to every registered client whose name the mask matches. */
    method SendBroadcast(client: BusRtClient, mask: Text, load: Load, len: nat)
      returns (whole: bool, ghost reached: set<BusRtClient>)
      requires Valid() && client in all
      modifies this`clients, this`subscribers, this`topics, this`broadcasts, this`traffic, this`cut
      modifies all`registered, all`secondaries, all`secondariesLocked, all`disconnected
      modifies all`queue, all`log, all`closed, all`traffic
      ensures var chosen := Named(matching, old(Snap()), mask);
        var frame := FrameData(KBroadcast, Some(client.name), None,
                               load.header, load.buf, load.payloadPos, load.realtime);
        && Valid() && reached <= chosen
        && FedTo(old(BoxesNow()), BoxesNow(), reached, frame, !whole)
        && TallyNow() == SentPartly(Received(old(TallyNow()), client, len), chosen, reached, len)
        && (if whole then reached == chosen && cut == old(cut) else cut)
        && (!whole ==> Stuck(old(BoxesNow()), BoxesNow(), chosen))
        && Cost(old(Snap()), Snap(), old(BoxesNow()), BoxesNow(), chosen)
    {
      hide *;
      Receive(client, len);
      var subs := FindNamed(mask);
      var frame := FrameData(KBroadcast, Some(client.name), None,
                             load.header, load.buf, load.payloadPos, load.realtime);
      whole, reached := Fanout(subs, frame, len);
    }

    method FindNamed(mask: Text) returns (subs: set<BusRtClient>)
      requires Valid()
      ensures subs == Named(matching, Snap(), mask) <= Snap().registered
    {
      hide Aligned, Conserved;
      subs := set n | n in broadcasts && matching.name(mask, n) :: broadcasts[n];
      NamedAreRegistered(mask, subs);
    }

    lemma NamedAreRegistered(mask: Text, found: set<BusRtClient>)
      requires Valid() && found == set n | n in broadcasts && matching.name(mask, n) :: broadcasts[n]
      ensures found == Named(matching, Snap(), mask)
    {
      var s := Snap();
      forall c | c in Named(matching, s, mask) ensures c in found {
        assert c in s.registered && s.clients[c.name] == c;
      }
      forall c | c in found ensures c in Named(matching, s, mask) {
        var n :| n in broadcasts && matching.name(mask, n) && broadcasts[n] == c;
        assert s.clients[n] in s.registered;
      }
    }

    /** `publish!`: to the audience of the topic, or to the part of it with a given primary name. */
    method Publish(client: BusRtClient, topic: Text, receiver: Option<Text>, load: Load, len: nat)
      returns (whole: bool, ghost reached: set<BusRtClient>)
      requires Valid() && client in all
      modifies this`clients, this`subscribers, this`topics, this`broadcasts, this`traffic, this`cut
      modifies all`registered, all`secondaries, all`secondariesLocked, all`disconnected
      modifies all`queue, all`log, all`closed, all`traffic
      ensures var chosen := Audience(matching, old(StageNow()), topic, receiver);
        var frame := FrameData(KPublish, Some(client.name), Some(topic),
                               load.header, load.buf, load.payloadPos, load.realtime);
        && Valid() && reached <= chosen
        && FedTo(old(BoxesNow()), BoxesNow(), reached, frame, !whole)
        && TallyNow() == SentPartly(Received(old(TallyNow()), client, len), chosen, reached, len)
        && (if whole then reached == chosen && cut == old(cut) else cut)
        && (!whole ==> Stuck(old(BoxesNow()), BoxesNow(), chosen))
        && Cost(old(Snap()), Snap(), old(BoxesNow()), BoxesNow(), chosen)
    {
      hide *;
      Receive(client, len);
      var subs := FindAudience(topic, receiver);
      var frame := FrameData(KPublish, Some(client.name), Some(topic),
                             load.header, load.buf, load.payloadPos, load.realtime);
      whole, reached := Fanout(subs, frame, len);
    }

    // ----- Subscriptions, exclusions, acknowledgements

    /** Subscribing takes effect only while the subscription map has a client of that name. */
    method Subscribe(client: BusRtClient, topic: Text) returns (ok: bool)
      requires Valid()
      modifies this`topics
      ensures Valid() && ok == (client.name in subscribers)
      ensures topics == if ok then old(topics) + {(topic, client.name)} else old(topics)
    {
      hide Aligned, Conserved;
      if client.name !in subscribers {
        return false;
      }
      SetTopics(topics + {(topic, client.name)});
      return true;
    }

    method Unsubscribe(client: BusRtClient, topic: Text) returns (ok: bool)
      requires Valid()
      modifies this`topics
      ensures Valid() && ok == (client.name in subscribers)
      ensures topics == if ok then old(topics) - {(topic, client.name)} else old(topics)
    {
      hide Aligned, Conserved;
      if client.name !in subscribers {
        return false;
      }
      SetTopics(topics - {(topic, client.name)});
      return true;
    }

    method SetTopics(masks: set<(Text, Text)>)
      requires Valid() && forall t | t in masks && t !in topics :: t.1 in subscribers
      modifies this`topics
      ensures Valid() && topics == masks
    {
      hide Aligned, Conserved;
      ghost var s := Snap();
      TopicsKeepAligned(s, masks);
      topics := masks;
      assert Snap() == s.(topics := masks);
    }

    method SubscribeAll(client: BusRtClient, list: seq<Text>)
      requires Valid()
      modifies this`topics
      ensures Valid()
      ensures topics ==
        if client.name in subscribers then old(topics) + (set t | t in list :: (t, client.name)) else old(topics)
    {
      hide ValidBut;
      for i := 0 to |list|
        invariant Valid()
        invariant topics == if client.name in subscribers
          then old(topics) + (set t | t in list[..i] :: (t, client.name)) else old(topics)
      {
        assert list[..i + 1] == list[..i] + [list[i]];
        var _ := Subscribe(client, list[i]);
      }
      assert list[..|list|] == list;
    }

    method UnsubscribeParts(client: BusRtClient, parts: seq<seq<byte>>) returns (ok: bool)
      requires Valid()
      modifies this`topics
      ensures Valid() && (ok <==> forall t | t in parts :: Utf8(t))
      ensures ok && client.name in subscribers ==> topics == old(topics) - set t | t in parts :: (t, client.name)
      ensures client.name !in subscribers ==> topics == old(topics)
      ensures OthersTopicsKept(client.name, old(topics), topics)
    {
      hide ValidBut, Utf8;
      for i := 0 to |parts|
        invariant Valid() && forall t | t in parts[..i] :: Utf8(t)
        invariant topics == if client.name in subscribers
          then old(topics) - (set t | t in parts[..i] :: (t, client.name)) else old(topics)
      {
        if !Utf8(parts[i]) {
          assert parts[i] in parts;
          return false;
        }
        assert parts[..i + 1] == parts[..i] + [parts[i]];
        var _ := Unsubscribe(client, parts[i]);
      }
      assert parts[..|parts|] == parts;
      return true;
    }

    method ExcludeList(client: BusRtClient, parts: seq<seq<byte>>) returns (ok: bool)
      requires Valid() && client in all && parts != []
      modifies client`exclusions, client`hasExclusions
      ensures ValidBut({client}) && (ok ==> Valid())
      ensures ok <==> forall t | t in parts :: Utf8(t)
      ensures ok ==> client.exclusions == old(client.exclusions) + set t | t in parts
      ensures ok && old(client.Cached()) ==> client.Cached()
    {
      hide Aligned, Conserved, Snap, TallyNow;
      ok := client.ExcludeParts(parts);
      assert SoundBut({client});
    }

    method UnexcludeList(client: BusRtClient, parts: seq<seq<byte>>) returns (ok: bool)
      requires Valid() && client in all
      modifies client`exclusions, client`hasExclusions
      ensures ValidBut({client}) && (ok ==> Valid())
      ensures ok <==> forall t | t in parts :: Utf8(t)
      ensures ok ==> client.exclusions == old(client.exclusions) - set t | t in parts
      ensures ok && old(client.Cached()) ==> client.Cached()
    {
      hide Aligned, Conserved, Snap, TallyNow;
      ok := client.UnexcludeParts(parts);
      assert SoundBut({client});
    }

    /** What a client inside the process can do to its own exclusions. */
    method ChangeExclusions(client: BusRtClient, topics: seq<Text>, on: bool)
      requires Valid() && client in all
      modifies client`exclusions, client`hasExclusions
      ensures Valid()
      ensures forall c | c in all ::
        && c in old(BoxesNow()) && c in BoxesNow()
        && BoxesNow()[c].log == old(BoxesNow())[c].log && BoxesNow()[c].closed == old(BoxesNow())[c].closed
    {
      hide Aligned, Conserved, Snap, TallyNow;
      if on && |topics| == 1 {
        client.Exclude(topics[0]);
      } else if on {
        client.ExcludeBulk(topics);
      } else if |topics| == 1 {
        client.Unexclude(topics[0]);
      } else {
        client.UnexcludeBulk(topics);
      }
      assert SoundBut({client});
    }

    /** An internal client stops receiving while it stays registered. */
    method DropReceiver(client: BusRtClient)
      requires Valid() && client in all && client.kind == Internal
      modifies client`closed
      ensures Valid() && Snap() == old(Snap()) && BoxesNow() == WithClosed(old(BoxesNow()), client)
    {
      hide SoundBut, Conserved, Snap, TallyNow, BoxesNow;
      Close(client, {});
    }

    /** The pinger: a full queue ends the connection, else a ping is queued. */
    method Ping(client: BusRtClient) returns (ok: bool)
      requires Valid() && client in all
      modifies client`queue, client`log
      ensures Valid() && Snap() == old(Snap())
      ensures client in old(BoxesNow()) && client in BoxesNow()
      ensures ok ==> FedTo(old(BoxesNow()), BoxesNow(), {client}, NOP_FRAME, false)
      ensures !ok ==> (client.closed || |client.queue| >= client.capacity) && BoxesNow() == old(BoxesNow())
    {
      hide SoundBut, Conserved, Snap, TallyNow, BoxesNow, FedTo;
      BoxOf(client);
      if client.QueueFull() {
        return false;
      }
      var out := OfferKept(client, NOP_FRAME, {});
      ok := out.Accepted?;
    }

    /** Six bytes counted, then queued, unless the channel is closed or the wait for room in the full
        queue is given up; in both cases nothing has been sent. */
    method SendAck(client: BusRtClient, f: Incoming, code: byte) returns (ok: bool)
      requires Valid() && client in all && |f.idBytes| == 4
      modifies this`traffic, client`traffic, client`queue, client`log
      ensures Valid() && TallyNow() == SentTo(old(TallyNow()), {client}, 6) && Snap() == old(Snap())
      ensures client in old(BoxesNow()) && client in BoxesNow()
      ensures ok ==> FedTo(old(BoxesNow()), BoxesNow(), {client}, AckFrame(f.idBytes, code, f.qos.IsRealtime()), false)
      ensures ok ==> !client.closed && client.log == old(client.log) + [AckFrame(f.idBytes, code, f.qos.IsRealtime())]
      ensures !ok ==> (client.closed || |client.queue| >= client.capacity) && BoxesNow() == old(BoxesNow())
      ensures AckFrame(f.idBytes, code, f.qos.IsRealtime()) ==
        FrameData(KPrepared, None, None, None, [0xFE] + f.idBytes + [code], 0, f.qos in {Realtime, RealtimeProcessed})
    {
      hide SoundBut, Conserved, SentTo, Snap, BoxesNow, FedTo;
      CountOut(client, 6);
      hide TallyNow;
      var out := OfferKept(client, AckFrame(f.idBytes, code, f.qos.IsRealtime()), {});
      ok := out.Accepted?;
    }
  }
}
