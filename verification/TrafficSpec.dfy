/** The traffic counters: the broker's own against the sums over all clients ever created. */
module TrafficSpec {
  import opened BrokerClient

  /** The broker's counters and every client's. */
  datatype Tally = Tally(total: Traffic, per: map<BusRtClient, Traffic>)

  ghost function Sum(per: map<BusRtClient, Traffic>): Traffic
    decreases |per|
  {
    if per == map[] then NO_TRAFFIC
    else
      var c :| c in per;
      per[c].Plus(Sum(per - {c}))
  }

  lemma {:induction false} SumWithout(per: map<BusRtClient, Traffic>, c: BusRtClient)
    requires c in per
    ensures Sum(per) == per[c].Plus(Sum(per - {c}))
    decreases |per|
  {
    var d :| d in per && Sum(per) == per[d].Plus(Sum(per - {d}));
    if d != c {
      hide Sum;
      var rest := per - {d} - {c};
      assert rest == per - {c} - {d};
      SumWithout(per - {d}, c);
      SumWithout(per - {c}, d);
      assert Sum(per - {d}) == per[c].Plus(Sum(rest)) && Sum(per - {c}) == per[d].Plus(Sum(rest));
      PlusSwap(per[d], per[c], Sum(rest));
    }
  }

  lemma PlusSwap(a: Traffic, b: Traffic, c: Traffic)
    ensures a.Plus(b.Plus(c)) == b.Plus(a.Plus(c))
  {
  }

  lemma SumBumped(per: map<BusRtClient, Traffic>, c: BusRtClient, t: Traffic)
    requires c in per
    ensures Sum(per[c := per[c].Plus(t)]) == Sum(per).Plus(t)
  {
    hide Sum;
    var per' := per[c := per[c].Plus(t)];
    SumWithout(per, c);
    SumWithout(per', c);
    assert per' - {c} == per - {c};
  }

  lemma SumExtended(per: map<BusRtClient, Traffic>, c: BusRtClient)
    requires c !in per
    ensures Sum(per[c := NO_TRAFFIC]) == Sum(per)
  {
    hide Sum;
    SumWithout(per[c := NO_TRAFFIC], c);
    assert per[c := NO_TRAFFIC] - {c} == per;
  }

  /** Every chosen client is credited one outgoing frame. */
  ghost function Credited(per: map<BusRtClient, Traffic>, chosen: set<BusRtClient>, len: nat)
    : map<BusRtClient, Traffic>
  {
    map c | c in per :: if c in chosen then per[c].Plus(Out(1, len)) else per[c]
  }

  lemma NobodyCredited(per: map<BusRtClient, Traffic>, len: nat)
    ensures Credited(per, {}, len) == per
  {
  }

  lemma OneMoreCredited(per: map<BusRtClient, Traffic>, chosen: set<BusRtClient>, c: BusRtClient, len: nat)
    requires c !in chosen
    ensures Credited(Credited(per, chosen, len), {c}, len) == Credited(per, chosen + {c}, len)
  {
  }

  lemma {:induction false} SumCredited(per: map<BusRtClient, Traffic>, chosen: set<BusRtClient>, len: nat)
    requires chosen <= per.Keys
    ensures Sum(Credited(per, chosen, len)) == Sum(per).Plus(Out(|chosen|, len))
    decreases |chosen|
  {
    hide Sum;
    if chosen == {} {
      assert Credited(per, chosen, len) == per;
    } else {
      var c :| c in chosen;
      var rest := chosen - {c};
      SumCredited(per, rest, len);
      var before := Credited(per, rest, len);
      SumBumped(before, c, Out(1, len));
      assert Credited(per, chosen, len) == before[c := before[c].Plus(Out(1, len))];
      assert |chosen| == |rest| + 1;
      OneMoreOut(|rest|, len);
    }
  }

  lemma OneMoreOut(n: nat, len: nat)
    ensures Out(n, len).Plus(Out(1, len)) == Out(n + 1, len)
  {
    assert len * (n + 1) == len * n + len;
  }

  /** What was received is accounted for exactly; what was sent at least, and exactly as long as no
      broadcast or publication has been cut short. */
  ghost predicate Conserved(t: Tally, cut: bool) {
    var sum := Sum(t.per);
    && t.total.rFrames == sum.rFrames && t.total.rBytes == sum.rBytes
    && t.total.wFrames >= sum.wFrames && t.total.wBytes >= sum.wBytes
    && (!cut ==> t.total == sum)
  }

  /** A frame comes in from `c`. */
  ghost function Received(t: Tally, c: BusRtClient, len: nat): Tally
    requires c in t.per
  {
    Tally(t.total.Plus(In(len)), t.per[c := t.per[c].Plus(In(len))])
  }

  /** A frame goes out to every chosen client. */
  ghost function SentTo(t: Tally, chosen: set<BusRtClient>, len: nat): Tally {
    Tally(t.total.Plus(Out(|chosen|, len)), Credited(t.per, chosen, len))
  }

  /** It was to go out to every chosen client, and went out to the `reached` ones. */
  ghost function SentPartly(t: Tally, chosen: set<BusRtClient>, reached: set<BusRtClient>, len: nat): Tally {
    Tally(t.total.Plus(Out(|chosen|, len)), Credited(t.per, reached, len))
  }

  /** One frame and its bytes, on the broker's side and the sender's. */
  lemma ReceivedExactly(t: Tally, c: BusRtClient, len: nat)
    requires c in t.per
    ensures var r, x := Received(t, c, len), t.per[c];
      && r.total == t.total.(rFrames := t.total.rFrames + 1, rBytes := t.total.rBytes + len)
      && r.per == t.per[c := x.(rFrames := x.rFrames + 1, rBytes := x.rBytes + len)]
  {
  }

  /** One frame and its bytes for everybody chosen on the broker's side, for everybody reached on theirs. */
  lemma SentExactly(t: Tally, chosen: set<BusRtClient>, reached: set<BusRtClient>, len: nat)
    ensures SentTo(t, chosen, len) == SentPartly(t, chosen, chosen, len)
    ensures var r := SentPartly(t, chosen, reached, len);
      && r.total == t.total.(wFrames := t.total.wFrames + |chosen|, wBytes := t.total.wBytes + |chosen| * len)
      && r.per.Keys == t.per.Keys
      && forall c | c in t.per :: r.per[c] ==
           var x := t.per[c];
           if c in reached then x.(wFrames := x.wFrames + 1, wBytes := x.wBytes + len) else x
  {
    assert len * |chosen| == |chosen| * len;
  }

  lemma SentToNobody(t: Tally, len: nat)
    ensures SentPartly(t, {}, {}, len) == t
  {
    NobodyCredited(t.per, len);
  }

  lemma ReceivedConserves(t: Tally, cut: bool, c: BusRtClient, len: nat)
    requires Conserved(t, cut) && c in t.per
    ensures Conserved(Received(t, c, len), cut)
  {
    hide Sum;
    SumBumped(t.per, c, In(len));
  }

  lemma SentConserves(t: Tally, cut: bool, chosen: set<BusRtClient>, len: nat)
    requires Conserved(t, cut) && chosen <= t.per.Keys
    ensures Conserved(SentTo(t, chosen, len), cut)
  {
    hide Sum;
    SumCredited(t.per, chosen, len);
  }

  /** A loop cut short leaves the broker's counters ahead by what was not sent, never behind. */
  lemma CutShortConserves(t: Tally, cut: bool, chosen: set<BusRtClient>, reached: set<BusRtClient>, len: nat)
    requires Conserved(t, cut) && reached <= chosen <= t.per.Keys
    ensures Conserved(SentPartly(t, chosen, reached, len), true)
    ensures !cut ==>
      var r := SentPartly(t, chosen, reached, len);
      r.total == Sum(r.per).Plus(Out(|chosen - reached|, len))
  {
    hide Sum;
    SumCredited(t.per, reached, len);
    assert chosen == reached + (chosen - reached);
    assert |chosen| == |reached| + |chosen - reached|;
    assert len * |chosen| == len * |reached| + len * |chosen - reached|;
  }

  lemma CreatedConserves(t: Tally, cut: bool, c: BusRtClient)
    requires Conserved(t, cut) && c !in t.per
    ensures Conserved(t.(per := t.per[c := NO_TRAFFIC]), cut)
  {
    hide Sum;
    SumExtended(t.per, c);
  }
}
