/** The broker's record of one connected client. */
module BrokerClient {
  import opened Bytes
  import opened Names
  import opened Protocol

  datatype ClientKind = Internal | LocalIpc | Tcp | WebSocket

  /** The four traffic counters, kept per client and for the whole broker. */
  datatype Traffic = Traffic(rFrames: nat, rBytes: nat, wFrames: nat, wBytes: nat) {
    function Plus(t: Traffic): Traffic {
      Traffic(rFrames + t.rFrames, rBytes + t.rBytes, wFrames + t.wFrames, wBytes + t.wBytes)
    }
  }

  const NO_TRAFFIC := Traffic(0, 0, 0, 0)

  /** What one frame of `len` bytes adds to the receiving side of its sender. */
  function In(len: nat): Traffic {
    Traffic(1, len, 0, 0)
  }

  /** What `n` frames of `len` bytes each add to the sending side. */
  function Out(n: nat, len: nat): Traffic {
    Traffic(0, 0, n, len * n)
  }

  /** Room in a client's queue; the channel type admits no empty queue. */
  type Capacity = n: nat | n > 0 witness 1

  class BusRtClient {
    const name: Text
    const kind: ClientKind
    const capacity: Capacity
    var registered: bool
    var secondaries: set<Text>
    var secondariesLocked: bool
    var disconnected: bool
    var queue: seq<FrameData>
    ghost var log: seq<FrameData>  // every frame the queue has ever taken
    var closed: bool
    var traffic: Traffic
    var hasExclusions: bool
    var exclusions: set<Text>

    constructor (name: Text, kind: ClientKind, capacity: Capacity)
      ensures this.name == name && this.kind == kind && this.capacity == capacity
      ensures !registered && secondaries == {} && !secondariesLocked && !disconnected
      ensures queue == [] && log == [] && !closed && traffic == NO_TRAFFIC
      ensures !hasExclusions && exclusions == {}
    {
      this.name, this.kind, this.capacity := name, kind, capacity;
      registered, secondaries, secondariesLocked, disconnected := false, {}, false, false;
      queue, log, closed, traffic := [], [], false, NO_TRAFFIC;
      hasExclusions, exclusions := false, {};
    }

    function PrimaryName(): Text {
      PrimaryOf(name)
    }

    predicate Primary() {
      name == PrimaryName()
    }

    /** `tx.is_full()`. */
    predicate QueueFull()
      reads this`queue
    {
      |queue| >= capacity
    }

    /** The queue holds the latest of the frames it has taken. */
    ghost predicate Logged()
      reads this`queue, this`log
    {
      |queue| <= |log| && queue == log[|log| - |queue|..] && |queue| <= capacity
    }

    /** The flag caches whether the exclusion list is in use. */
    predicate Cached()
      reads this`hasExclusions, this`exclusions
    {
      hasExclusions <==> exclusions != {}
    }

    method Exclude(topic: Text)
      modifies this`hasExclusions, this`exclusions
      ensures Cached() && exclusions == old(exclusions) + {topic}
    {
      hasExclusions := true;
      exclusions := exclusions + {topic};
    }

    method Unexclude(topic: Text)
      modifies this`hasExclusions, this`exclusions
      ensures old(Cached()) ==> Cached()
      ensures exclusions == old(exclusions) - {topic}
    {
      exclusions := exclusions - {topic};
      if exclusions == {} {
        hasExclusions := false;
      }
    }

    method ExcludeBulk(topics: seq<Text>)
      modifies this`hasExclusions, this`exclusions
      ensures old(Cached()) ==> Cached()
      ensures exclusions == old(exclusions) + set t | t in topics
    {
      if topics != [] {
        hasExclusions := true;
      }
      for i := 0 to |topics|
        invariant exclusions == old(exclusions) + set t | t in topics[..i]
        invariant hasExclusions == (topics != [] || old(hasExclusions))
      {
        exclusions := exclusions + {topics[i]};
        assert topics[..i + 1] == topics[..i] + [topics[i]];
      }
      assert topics[..|topics|] == topics;
      assert topics != [] ==> topics[0] in exclusions;
    }

    method UnexcludeBulk(topics: seq<Text>)
      modifies this`hasExclusions, this`exclusions
      ensures old(Cached()) ==> Cached()
      ensures exclusions == old(exclusions) - set t | t in topics
    {
      for i := 0 to |topics|
        invariant exclusions == old(exclusions) - set t | t in topics[..i]
        invariant hasExclusions == old(hasExclusions)
      {
        exclusions := exclusions - {topics[i]};
        assert topics[..i + 1] == topics[..i] + [topics[i]];
      }
      assert topics[..|topics|] == topics;
      if exclusions == {} {
        hasExclusions := false;
      }
    }

    /** The reader loop's variant for a list from a frame: the flag is set after the list, and stays
        behind if a topic turns out not to be valid UTF-8. */
    method ExcludeParts(parts: seq<seq<byte>>) returns (ok: bool)
      requires parts != []
      modifies this`hasExclusions, this`exclusions
      ensures ok <==> forall t | t in parts :: Utf8(t)
      ensures ok ==> Cached() && exclusions == old(exclusions) + set t | t in parts
    {
      hide Utf8;
      for i := 0 to |parts|
        invariant forall t | t in parts[..i] :: Utf8(t)
        invariant exclusions == old(exclusions) + set t | t in parts[..i]
      {
        if !Utf8(parts[i]) {
          assert parts[i] in parts;
          return false;
        }
        exclusions := exclusions + {parts[i]};
        assert parts[..i + 1] == parts[..i] + [parts[i]];
      }
      assert parts[..|parts|] == parts;
      assert parts[0] in exclusions;
      hasExclusions := true;
      return true;
    }

    method UnexcludeParts(parts: seq<seq<byte>>) returns (ok: bool)
      modifies this`hasExclusions, this`exclusions
      ensures ok <==> forall t | t in parts :: Utf8(t)
      ensures ok && old(Cached()) ==> Cached()
      ensures ok ==> exclusions == old(exclusions) - set t | t in parts
    {
      hide Utf8;
      for i := 0 to |parts|
        invariant forall t | t in parts[..i] :: Utf8(t)
        invariant exclusions == old(exclusions) - set t | t in parts[..i]
        invariant hasExclusions == old(hasExclusions)
      {
        if !Utf8(parts[i]) {
          assert parts[i] in parts;
          return false;
        }
        exclusions := exclusions - {parts[i]};
        assert parts[..i + 1] == parts[..i] + [parts[i]];
      }
      assert parts[..|parts|] == parts;
      if exclusions == {} {
        hasExclusions := false;
      }
      return true;
    }
  }
}
