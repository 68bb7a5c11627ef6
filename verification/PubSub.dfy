/** The topic broker: handlers for whole topics and for topic prefixes. */
module PubSub {
  import opened Bytes
  import opened Protocol

  /** Byte-wise lexicographic order, the order of the keys in the source's ordered map. */
  predicate Below(a: Text, b: Text)
    decreases |a|
  {
    if b == [] then false
    else if a == [] then true
    else a[0] < b[0] || (a[0] == b[0] && Below(a[1..], b[1..]))
  }

  /** The first difference decides, or else which ends first. */
  lemma {:induction false} BelowExactly(a: Text, b: Text)
    ensures Below(a, b) <==> a < b || exists i :: 0 <= i < |a| && i < |b| && a[..i] == b[..i] && a[i] < b[i]
    decreases |a|
  {
    if a != [] && b != [] && a[0] == b[0] {
      BelowExactly(a[1..], b[1..]);
      assert a == [a[0]] + a[1..] && b == [b[0]] + b[1..];
      if i :| 0 <= i < |a[1..]| && i < |b[1..]| && a[1..][..i] == b[1..][..i] && a[1..][i] < b[1..][i] {
        assert a[..i + 1] == [a[0]] + a[1..][..i] && b[..i + 1] == [b[0]] + b[1..][..i];
        assert a[i + 1] < b[i + 1];
      }
      if i :| 0 <= i < |a| && i < |b| && a[..i] == b[..i] && a[i] < b[i] {
        assert i > 0;
        assert a[1..][..i - 1] == a[..i][1..] && b[1..][..i - 1] == b[..i][1..];
        assert a[1..][i - 1] < b[1..][i - 1];
      }
    } else if a != [] && b != [] {
      assert a[..0] == b[..0] == [];
      assert !(a < b);
      forall i | 0 < i < |a| && i < |b| ensures a[..i] != b[..i] {
        assert a[..i][0] != b[..i][0];
      }
    }
  }

  lemma BelowTotal(a: Text, b: Text)
    ensures a == b || Below(a, b) || Below(b, a)
    ensures !(Below(a, b) && Below(b, a)) && !Below(a, a)
    decreases |a|
  {
    if a != [] && b != [] {
      BelowTotal(a[1..], b[1..]);
      assert a == [a[0]] + a[1..] && b == [b[0]] + b[1..];
    }
  }

  lemma BelowTransitive(a: Text, b: Text, c: Text)
    requires Below(a, b) && Below(b, c)
    ensures Below(a, c)
    decreases |a|
  {
    if a != [] && a[0] == b[0] == c[0] {
      BelowTransitive(a[1..], b[1..], c[1..]);
    }
  }

  /** Among the prefixes of one topic the order is the order of length. */
  lemma {:induction false} PrefixesOrderedByLength(a: Text, b: Text, topic: Text)
    requires a <= topic && b <= topic
    ensures Below(a, b) <==> |a| < |b|
    decreases |a|
  {
    if a != [] && b != [] {
      PrefixesOrderedByLength(a[1..], b[1..], topic[1..]);
    }
  }

  datatype Handler = Handler(channel: Channel, id: nat)

  datatype Entry = Entry(key: Text, handler: Handler)

  datatype Publication = Publication(subtopicPos: nat, frame: FrameData, handlerId: nat) {
    function Topic(): Text
      requires frame.topic.Some?
    {
      frame.topic.value
    }

    function Subtopic(): Text
      requires frame.topic.Some? && subtopicPos <= |frame.topic.value|
    {
      frame.topic.value[subtopicPos..]
    }
  }

  /** A handler's channel; waiting for room in it is not modelled. */
  class Channel {
    var queue: seq<Publication>
    var closed: bool

    constructor ()
      ensures queue == [] && !closed
    {
      queue, closed := [], false;
    }

    method Send(p: Publication) returns (r: Result<()>)
      modifies this`queue
      ensures r == if closed then Err(Eof) else Ok(())
      ensures queue == if closed then old(queue) else old(queue) + [p]
    {
      if closed {
        return Err(Eof);
      }
      queue := queue + [p];
      return Ok(());
    }
  }

  /** Keys strictly ascending: what iterating over the ordered map visits, in order. */
  ghost predicate Ascending(m: seq<Entry>) {
    forall i, j | 0 <= i < j < |m| :: Below(m[i].key, m[j].key)
  }

  predicate InsertedAt(m: seq<Entry>, i: nat, e: Entry, m': seq<Entry>) {
    i <= |m| && m' == m[..i] + [e] + m[i..]
  }

  ghost predicate HasKey(m: seq<Entry>, key: Text) {
    exists i :: 0 <= i < |m| && m[i].key == key
  }

  /** Who gets a frame, and how much of its topic is the prefix it was registered for. */
  datatype Claim = Claim(handler: Handler, pos: nat)

  /** The `i`-th prefix is the shortest registered one that the topic starts with. */
  ghost predicate Shortest(prefixes: seq<Entry>, topic: Text, i: nat) {
    && i < |prefixes| && prefixes[i].key <= topic
    && forall j | 0 <= j < |prefixes| && prefixes[j].key <= topic :: |prefixes[i].key| <= |prefixes[j].key|
  }

  /** The handler of the topic itself, or else that of its shortest registered prefix. */
  ghost predicate Responsible(topics: map<Text, Handler>, prefixes: seq<Entry>, topic: Text, c: Claim) {
    if topic in topics then c == Claim(topics[topic], 0)
    else exists i: nat :: Shortest(prefixes, topic, i) && c == Claim(prefixes[i].handler, |prefixes[i].key|)
  }

  ghost predicate Unclaimed(topics: map<Text, Handler>, prefixes: seq<Entry>, topic: Text) {
    topic !in topics && forall i | 0 <= i < |prefixes| :: !(prefixes[i].key <= topic)
  }

  /** No two handlers are responsible for a topic, and none is if nothing matches it. */
  lemma OneResponsible(topics: map<Text, Handler>, prefixes: seq<Entry>, topic: Text, c: Claim, c': Claim)
    requires Ascending(prefixes)
    requires Responsible(topics, prefixes, topic, c) && Responsible(topics, prefixes, topic, c')
    ensures c == c' && !Unclaimed(topics, prefixes, topic)
  {
    if topic !in topics {
      var i: nat :| Shortest(prefixes, topic, i) && c == Claim(prefixes[i].handler, |prefixes[i].key|);
      var k: nat :| Shortest(prefixes, topic, k) && c' == Claim(prefixes[k].handler, |prefixes[k].key|);
      assert prefixes[i].key == prefixes[k].key;
      BelowTotal(prefixes[i].key, prefixes[i].key);
    }
  }

  class TopicBroker {
    var topics: map<Text, Handler>
    var prefixes: seq<Entry>

    ghost predicate Valid()
      reads this
    {
      Ascending(prefixes)
    }

    constructor ()
      ensures Valid() && topics == map[] && prefixes == []
    {
      topics, prefixes := map[], [];
    }

    /** A topic gets a handler once; a second registration is refused and changes nothing. */
    method RegisterTopic(topic: Text, handler: Handler) returns (r: Result<()>)
      requires Valid()
      modifies this`topics
      ensures Valid()
      ensures r == if topic in old(topics) then Err(Busy) else Ok(())
      ensures topics == if topic in old(topics) then old(topics) else old(topics)[topic := handler]
    {
      if topic in topics {
        return Err(Busy);
      }
      topics := topics[topic := handler];
      return Ok(());
    }

    /** Likewise for a prefix; the new entry is put where the order of the keys wants it. */
    method RegisterPrefix(prefix: Text, handler: Handler) returns (r: Result<()>)
      requires Valid()
      modifies this`prefixes
      ensures Valid()
      ensures r == if HasKey(old(prefixes), prefix) then Err(Busy) else Ok(())
      ensures r.Err? ==> prefixes == old(prefixes)
      ensures r.Ok? ==> exists i: nat :: InsertedAt(old(prefixes), i, Entry(prefix, handler), prefixes)
    {
      var i := 0;
      while i < |prefixes| && Below(prefixes[i].key, prefix)
        invariant 0 <= i <= |prefixes|
        invariant forall j | 0 <= j < i :: Below(prefixes[j].key, prefix)
      {
        i := i + 1;
      }
      forall j | 0 <= j < i ensures prefixes[j].key != prefix {
        BelowTotal(prefix, prefix);
      }
      if i < |prefixes| {
        BelowTotal(prefixes[i].key, prefix);
        if prefixes[i].key == prefix {
          return Err(Busy);
        }
        forall j | i < j < |prefixes| ensures Below(prefix, prefixes[j].key) {
          BelowTransitive(prefix, prefixes[i].key, prefixes[j].key);
        }
        forall j | i <= j < |prefixes| ensures prefixes[j].key != prefix {
          BelowTotal(prefix, prefix);
        }
      }
      prefixes := prefixes[..i] + [Entry(prefix, handler)] + prefixes[i..];
      assert InsertedAt(old(prefixes), i, Entry(prefix, handler), prefixes);
      return Ok(());
    }

    /** A frame with a topic goes to the one responsible handler, which sees the topic as prefix and
        subtopic; the frame comes back exactly if it has no topic or nothing matches it. */
    method Process(frame: FrameData) returns (r: Result<Option<FrameData>>, ghost to: Option<Claim>)
      requires Valid()
      modifies (set t | t in topics.Keys :: topics[t].channel)`queue
      modifies (set e | e in prefixes :: e.handler.channel)`queue
      ensures to.None? <==> frame.topic.None? || Unclaimed(topics, prefixes, frame.topic.value)
      ensures to.None? ==>
        && r == Ok(Some(frame))
        && (forall t | t in topics :: topics[t].channel.queue == old(topics[t].channel.queue))
        && (forall e | e in prefixes :: e.handler.channel.queue == old(e.handler.channel.queue))
      ensures to.Some? ==>
        && Responsible(topics, prefixes, frame.topic.value, to.value)
        && var h, p := to.value.handler, Publication(to.value.pos, frame, to.value.handler.id);
        && p.subtopicPos <= |p.Topic()| && p.Topic() == p.Topic()[..to.value.pos] + p.Subtopic()
        && r == (if h.channel.closed then Err(Eof) else Ok(None))
        && h.channel.queue == old(h.channel.queue) + (if h.channel.closed then [] else [p])
        && (forall t | t in topics && topics[t].channel != h.channel ::
              topics[t].channel.queue == old(topics[t].channel.queue))
        && (forall e | e in prefixes && e.handler.channel != h.channel ::
              e.handler.channel.queue == old(e.handler.channel.queue))
    {
      to := None;
      if frame.topic.Some? {
        var topic := frame.topic.value;
        if topic in topics {
          var handler := topics[topic];
          to := Some(Claim(handler, 0));
          var sent := handler.channel.Send(Publication(0, frame, handler.id));
          r := if sent.Err? then Err(sent.error) else Ok(None);
          return;
        }
        for i := 0 to |prefixes|
          invariant to == None
          invariant forall j | 0 <= j < i :: !(prefixes[j].key <= topic)
        {
          var entry := prefixes[i];
          if entry.key <= topic {
            FirstIsShortest(prefixes, topic, i);
            to := Some(Claim(entry.handler, |entry.key|));
            var sent := entry.handler.channel.Send(Publication(|entry.key|, frame, entry.handler.id));
            r := if sent.Err? then Err(sent.error) else Ok(None);
            return;
          }
        }
      }
      r := Ok(Some(frame));
    }
  }

  /** The first match in the order of the keys is the shortest one. */
  lemma FirstIsShortest(prefixes: seq<Entry>, topic: Text, i: nat)
    requires Ascending(prefixes) && i < |prefixes| && prefixes[i].key <= topic
    requires forall j | 0 <= j < i :: !(prefixes[j].key <= topic)
    ensures Shortest(prefixes, topic, i)
  {
    forall j | 0 <= j < |prefixes| && prefixes[j].key <= topic
      ensures |prefixes[i].key| <= |prefixes[j].key|
    {
      if i < j { PrefixesOrderedByLength(prefixes[i].key, prefixes[j].key, topic); }
    }
  }
}
