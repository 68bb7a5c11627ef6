/** The table of RPC calls that wait for a reply: any number of concurrent calls, each stepping
    through issue, registration, sending, confirmation and reply, and a processor that receives
    replies, genuine or not, in any order. */
module RpcCalls {
  import opened Bytes
  import opened Ids

  /** A reply or error reply as the processor sees it. */
  datatype Reply = Reply(id: nat, content: seq<byte>)

  datatype Phase =
    | Issued                       // has its id, not yet in the table
    | Sending | Confirming | Waiting
    | Replied(reply: Reply)        // returned with a reply
    | Failed                       // returned with an error
  {
    /** In the table, or its reply is on the way to it. */
    predicate Open() {
      Sending? || Confirming? || Waiting?
    }

    predicate Returned() {
      Replied? || Failed?
    }
  }

  /** Calls are numbered from 1 in the order of their ids; `inbox` is the one-shot channel of each. */
  datatype State = State(
    issued: nat,
    calls: map<nat, nat>,          // call id -> call that waits for it
    phases: map<nat, Phase>,
    inbox: map<nat, Reply>)

  const START := State(0, map[], map[], map[])

  datatype Step =
    | Issue
    | Enter(k: nat)
    | Sent(k: nat, confirm: bool) | SendFails(k: nat)
    | Confirmed(k: nat) | ConfirmFails(k: nat)
    | Arrives(reply: Reply)
    | Takes(k: nat)
    | Orphaned(k: nat)             // the sender of the one-shot channel is gone

  /** Fewer than 2^32 - 1 ids are issued during the lifetime of a call. */
  predicate Window(s: State) {
    forall k | k in s.phases && !s.phases[k].Returned() :: 0 < k <= s.issued < k + MAX
  }

  predicate In(s: State, k: nat, phase: Phase) {
    k in s.phases && s.phases[k] == phase
  }

  predicate Can(s: State, step: Step) {
    match step
    case Issue => true
    case Enter(k) => In(s, k, Issued)
    case Sent(k, _) => In(s, k, Sending)
    case SendFails(k) => In(s, k, Sending)
    case Confirmed(k) => In(s, k, Confirming)
    case ConfirmFails(k) => In(s, k, Confirming)
    case Arrives(_) => true
    case Takes(k) => In(s, k, Waiting) && k in s.inbox
    case Orphaned(k) => In(s, k, Waiting) && k !in s.inbox && k !in s.calls.Values
  }

  function Move(s: State, k: nat, phase: Phase): State {
    s.(phases := s.phases[k := phase])
  }

  function Apply(s: State, step: Step): State
    requires Can(s, step)
  {
    match step
    case Issue => Move(s.(issued := s.issued + 1), s.issued + 1, Issued)
    case Enter(k) => Move(s.(calls := s.calls[IdAfter(k) := k]), k, Sending)
    case Sent(k, confirm) => Move(s, k, if confirm then Confirming else Waiting)
    case SendFails(k) => Move(s.(calls := s.calls - {IdAfter(k)}), k, Failed)
    case Confirmed(k) => Move(s, k, Waiting)
    case ConfirmFails(k) => Move(s.(calls := s.calls - {IdAfter(k)}), k, Failed)
    case Arrives(reply) =>
      if reply.id in s.calls then
        s.(calls := s.calls - {reply.id}, inbox := s.inbox[s.calls[reply.id] := reply])
      else s
    case Takes(k) => Move(s, k, Replied(s.inbox[k]))
    case Orphaned(k) => Move(s, k, Failed)
  }

  predicate IsRun(run: seq<State>, steps: seq<Step>) {
    && |run| == |steps| + 1 && run[0] == START
    && (forall i | 0 <= i < |run| :: Window(run[i]))
    && forall i | 0 <= i < |steps| :: Can(run[i], steps[i]) && run[i + 1] == Apply(run[i], steps[i])
  }

  /** The table holds exactly the open calls that have no reply yet, each under its own id; a reply
      given to a call carries the id of that call. */
  predicate TableSound(s: State) {
    && (forall k | k in s.phases :: 0 < k <= s.issued)
    && (forall id | id in s.calls ::
          var k := s.calls[id];
          IdAfter(k) == id && k in s.phases && s.phases[k].Open() && k !in s.inbox)
    && (forall k | k in s.phases && s.phases[k].Open() ::
          k in s.inbox || (IdAfter(k) in s.calls && s.calls[IdAfter(k)] == k))
    && (forall k | k in s.inbox ::
          s.inbox[k].id == IdAfter(k) && k in s.phases && !s.phases[k].Issued?)
    && (forall k | k in s.phases && s.phases[k].Replied? :: k in s.inbox && s.inbox[k] == s.phases[k].reply)
  }

  /** Live calls have different ids. */
  lemma LiveIdsDiffer(s: State, j: nat, k: nat)
    requires TableSound(s) && Window(s) && j in s.phases && k in s.phases && j != k
    requires !s.phases[j].Returned() && !s.phases[k].Returned()
    ensures IdAfter(j) != IdAfter(k)
  {
    if j < k { IdsRepeat(j, k); } else { IdsRepeat(k, j); }
  }

  lemma EnterKeepsTable(s: State, k: nat)
    requires TableSound(s) && Window(s) && Can(s, Enter(k))
    ensures TableSound(Apply(s, Enter(k)))
  {
    ForOthers(s, k);
    hide IdAfter, Window;
  }

  lemma FailKeepsTable(s: State, k: nat)
    requires TableSound(s) && Window(s) && k in s.phases && s.phases[k].Open()
    ensures TableSound(Move(s.(calls := s.calls - {IdAfter(k)}), k, Failed))
  {
    ForOthers(s, k);
    FailKeepsEntries(s, k);
    FailKeepsOpen(s, k);
    hide IdAfter, Window;
  }

  lemma FailKeepsOpen(s: State, k: nat)
    requires TableSound(s) && k in s.phases
    requires forall j | j in s.phases && s.phases[j].Open() && j != k :: IdAfter(j) != IdAfter(k)
    ensures var d := Move(s.(calls := s.calls - {IdAfter(k)}), k, Failed);
      forall j | j in d.phases && d.phases[j].Open() ::
        j in d.inbox || (IdAfter(j) in d.calls && d.calls[IdAfter(j)] == j)
  {
    hide IdAfter;
    var d := Move(s.(calls := s.calls - {IdAfter(k)}), k, Failed);
    forall j | j in d.phases && d.phases[j].Open()
      ensures j in d.inbox || (IdAfter(j) in d.calls && d.calls[IdAfter(j)] == j)
    {
      assert j != k && IdAfter(j) != IdAfter(k);
    }
  }

  lemma FailKeepsEntries(s: State, k: nat)
    requires TableSound(s) && k in s.phases
    requires forall j | j in s.phases && s.phases[j].Open() && j != k :: IdAfter(j) != IdAfter(k)
    ensures var d := Move(s.(calls := s.calls - {IdAfter(k)}), k, Failed);
      forall id | id in d.calls ::
        var j := d.calls[id];
        IdAfter(j) == id && j in d.phases && d.phases[j].Open() && j !in d.inbox
  {
    hide IdAfter;
    var d := Move(s.(calls := s.calls - {IdAfter(k)}), k, Failed);
    forall id | id in d.calls
      ensures var j := d.calls[id];
        IdAfter(j) == id && j in d.phases && d.phases[j].Open() && j !in d.inbox
    {
      assert s.calls[id] == d.calls[id] && IdAfter(s.calls[id]) == id && id != IdAfter(k);
    }
  }

  lemma ArrivalKeepsTable(s: State, reply: Reply)
    requires TableSound(s)
    ensures TableSound(Apply(s, Arrives(reply)))
  {
    hide IdAfter;
  }

  /** A call that goes from one open phase to another, or returns once its reply is there or missed. */
  lemma MoveKeepsTable(s: State, k: nat, phase: Phase)
    requires TableSound(s) && k in s.phases
    requires s.phases[k].Open() && (phase.Open() || (phase.Replied? && k in s.inbox && s.inbox[k] == phase.reply))
    ensures TableSound(Move(s, k, phase))
  {
    hide IdAfter;
  }

  lemma IssueKeepsTable(s: State)
    requires TableSound(s)
    ensures TableSound(Apply(s, Issue))
  {
    hide IdAfter;
  }

  lemma NeverOrphaned(s: State, k: nat)
    requires TableSound(s)
    ensures !Can(s, Orphaned(k))
  {
    hide IdAfter;
  }

  lemma StepKeepsTable(s: State, step: Step)
    requires TableSound(s) && Window(s) && Can(s, step)
    ensures TableSound(Apply(s, step))
  {
    hide TableSound, Window, IdAfter;
    match step {
      case Issue => IssueKeepsTable(s);
      case Enter(k) => EnterKeepsTable(s, k);
      case Sent(k, confirm) => MoveKeepsTable(s, k, if confirm then Confirming else Waiting);
      case SendFails(k) => FailKeepsTable(s, k);
      case Confirmed(k) => MoveKeepsTable(s, k, Waiting);
      case ConfirmFails(k) => FailKeepsTable(s, k);
      case Arrives(reply) => ArrivalKeepsTable(s, reply);
      case Takes(k) => MoveKeepsTable(s, k, Replied(s.inbox[k]));
      case Orphaned(k) => NeverOrphaned(s, k);
    }
  }

  lemma ForOthers(s: State, k: nat)
    requires TableSound(s) && Window(s) && k in s.phases && !s.phases[k].Returned()
    ensures forall j | j in s.phases && s.phases[j].Open() && j != k :: IdAfter(j) != IdAfter(k)
  {
    forall j | j in s.phases && s.phases[j].Open() && j != k ensures IdAfter(j) != IdAfter(k) {
      LiveIdsDiffer(s, j, k);
    }
  }

  lemma {:induction false} RunKeepsTable(run: seq<State>, steps: seq<Step>, i: nat)
    requires IsRun(run, steps) && i < |run|
    ensures TableSound(run[i])
  {
    if i > 0 {
      RunKeepsTable(run, steps, i - 1);
      StepKeepsTable(run[i - 1], steps[i - 1]);
    }
  }

  /** In every run an id is in the table only for a call that has been issued it and has not returned;
      a call that returns with a reply got one with its own id; no call loses its channel; and a
      reply with id 0, which no call is ever issued, is never delivered. */
  lemma TableAtAllTimes(run: seq<State>, steps: seq<Step>, i: nat)
    requires IsRun(run, steps) && i < |run|
    ensures forall id | id in run[i].calls ::
      var k := run[i].calls[id];
      id == IdAfter(k) && k in run[i].phases && !run[i].phases[k].Returned()
    ensures forall k | k in run[i].phases && run[i].phases[k].Returned() :: k !in run[i].calls.Values
    ensures forall k | k in run[i].phases && run[i].phases[k].Replied? ::
      run[i].phases[k].reply.id == IdAfter(k)
    ensures forall k :: !Can(run[i], Orphaned(k))
    ensures 0 !in run[i].calls
  {
    RunKeepsTable(run, steps, i);
    if 0 in run[i].calls {
      IdsRepeat(run[i].calls[0], run[i].calls[0]);
    }
  }

  /** A reply reaches at most one call, the one issued that id, and at most one reply reaches a call:
      what a call has been given stays, and nobody else's phase or channel changes. */
  lemma ReplyReachesOne(run: seq<State>, steps: seq<Step>, i: nat)
    requires IsRun(run, steps) && i < |steps| && steps[i].Arrives?
    ensures run[i + 1].phases == run[i].phases
    ensures forall k | k in run[i].inbox :: k in run[i + 1].inbox && run[i + 1].inbox[k] == run[i].inbox[k]
    ensures forall k | k in run[i + 1].inbox && k !in run[i].inbox ::
      run[i + 1].inbox[k] == steps[i].reply && IdAfter(k) == steps[i].reply.id
      && run[i + 1].inbox.Keys == run[i].inbox.Keys + {k}
  {
    RunKeepsTable(run, steps, i);
  }

  lemma {:induction false} DeliveredStays(run: seq<State>, steps: seq<Step>, i: nat, j: nat, k: nat)
    requires IsRun(run, steps) && i <= j < |run| && k in run[i].inbox
    ensures k in run[j].inbox && run[j].inbox[k] == run[i].inbox[k]
  {
    if i < j {
      DeliveredStays(run, steps, i, j - 1, k);
      RunKeepsTable(run, steps, j - 1);
      InboxStays(run[j - 1], steps[j - 1], k);
    }
  }

  lemma InboxStays(s: State, step: Step, k: nat)
    requires TableSound(s) && Can(s, step) && k in s.inbox
    ensures k in Apply(s, step).inbox && Apply(s, step).inbox[k] == s.inbox[k]
  {
    hide IdAfter;
  }

  /** A call in progress is completed by the first reply that carries its id: that reply, and no later
      one, is what the call returns with if it returns with a reply. */
  lemma FirstReplyCompletes(run: seq<State>, steps: seq<Step>, i: nat, j: nat, k: nat)
    requires IsRun(run, steps) && i < j < |run|
    requires k in run[i].phases && run[i].phases[k].Open() && k !in run[i].inbox
    requires steps[i].Arrives? && steps[i].reply.id == IdAfter(k)
    ensures k in run[j].inbox && run[j].inbox[k] == steps[i].reply
    ensures k in run[j].phases && run[j].phases[k].Replied? ==> run[j].phases[k].reply == steps[i].reply
  {
    RunKeepsTable(run, steps, i);
    DeliveredStays(run, steps, i + 1, j, k);
    RunKeepsTable(run, steps, j);
  }

  // ----- A call that goes well

  predicate At(run: seq<State>, steps: seq<Step>, s: State) {
    IsRun(run, steps) && run[|steps|] == s
  }

  /** One step of a call in progress. */
  lemma Extend(run: seq<State>, steps: seq<Step>, s: State, k: nat, p: Phase, step: Step)
    returns (run': seq<State>, steps': seq<Step>)
    requires At(run, steps, s) && k in s.phases && !s.phases[k].Returned() && Can(s, step)
    requires var s' := Apply(s, step); s'.issued == s.issued && s'.phases == s.phases[k := p]
    ensures steps' == steps + [step] && At(run', steps', Apply(s, step))
  {
    var s' := Apply(s, step);
    assert Window(s);
    assert Window(s') by {
      forall j | j in s'.phases && !s'.phases[j].Returned() ensures 0 < j <= s'.issued < j + MAX {
        assert j in s.phases && !s.phases[j].Returned();
      }
    }
    hide Window, Can, Apply;
    run', steps' := run + [s'], steps + [step];
  }

  /** The steps of a call that is answered; a frame that is not confirmed is not waited for. */
  function GoodSteps(k: nat, confirm: bool, content: seq<byte>): seq<Step> {
    [Enter(k), Sent(k, confirm)] + (if confirm then [Confirmed(k)] else [])
      + [Arrives(Reply(IdAfter(k), content)), Takes(k)]
  }

  /** From any point of any run a call that has its id can go through with the steps above, and then it returns
      with the reply sent to its id, leaves no entry, and has changed nothing for the others. */
  lemma CallCompletes(run: seq<State>, steps: seq<Step>, k: nat, confirm: bool, content: seq<byte>)
    returns (run': seq<State>, steps': seq<Step>)
    requires IsRun(run, steps) && In(run[|steps|], k, Issued)
    ensures steps' == steps + GoodSteps(k, confirm, content) && IdAfter(k) !in run[|steps|].calls
    ensures var s := run[|steps|];
      At(run', steps',
         s.(phases := s.phases[k := Replied(Reply(IdAfter(k), content))],
            inbox := s.inbox[k := Reply(IdAfter(k), content)]))
  {
    var s := run[|steps|];
    RunKeepsTable(run, steps, |steps|);
    IdIsFree(s, k);
    assert At(run, steps, s);
    hide IdAfter, TableSound, IsRun, At;
    run', steps' := Asked(run, steps, s, k, confirm);
    run', steps' := Answered(run', steps', s, k, content);
  }

  lemma Asked(run: seq<State>, steps: seq<Step>, s: State, k: nat, confirm: bool)
    returns (run': seq<State>, steps': seq<Step>)
    requires At(run, steps, s) && In(s, k, Issued)
    ensures steps' == steps + [Enter(k), Sent(k, confirm)] + if confirm then [Confirmed(k)] else []
    ensures At(run', steps', s.(calls := s.calls[IdAfter(k) := k], phases := s.phases[k := Waiting]))
  {
    hide IdAfter, IsRun, At;
    var phase := if confirm then Confirming else Waiting;
    run', steps' := Extend(run, steps, s, k, Sending, Enter(k));
    var t := s.(calls := s.calls[IdAfter(k) := k], phases := s.phases[k := Sending]);
    run', steps' := Extend(run', steps', t, k, phase, Sent(k, confirm));
    assert t.phases[k := phase] == s.phases[k := phase];
    if confirm {
      t := s.(calls := s.calls[IdAfter(k) := k], phases := s.phases[k := phase]);
      run', steps' := Extend(run', steps', t, k, Waiting, Confirmed(k));
      assert t.phases[k := Waiting] == s.phases[k := Waiting];
    }
  }

  lemma Answered(run: seq<State>, steps: seq<Step>, s: State, k: nat, content: seq<byte>)
    returns (run': seq<State>, steps': seq<Step>)
    requires IdAfter(k) !in s.calls
    requires At(run, steps, s.(calls := s.calls[IdAfter(k) := k], phases := s.phases[k := Waiting]))
    ensures steps' == steps + [Arrives(Reply(IdAfter(k), content)), Takes(k)]
    ensures At(run', steps',
               s.(phases := s.phases[k := Replied(Reply(IdAfter(k), content))],
                  inbox := s.inbox[k := Reply(IdAfter(k), content)]))
  {
    hide IdAfter, IsRun, At;
    var reply := Reply(IdAfter(k), content);
    var t := s.(calls := s.calls[IdAfter(k) := k], phases := s.phases[k := Waiting]);
    assert t.phases[k := Waiting] == t.phases && t.calls - {IdAfter(k)} == s.calls;
    run', steps' := Extend(run, steps, t, k, Waiting, Arrives(reply));
    t := s.(phases := s.phases[k := Waiting], inbox := s.inbox[k := reply]);
    run', steps' := Extend(run', steps', t, k, Replied(reply), Takes(k));
    assert t.phases[k := Replied(reply)] == s.phases[k := Replied(reply)];
  }

  /** A call that has just been issued its id finds the id free. */
  lemma IdIsFree(s: State, k: nat)
    requires TableSound(s) && Window(s) && In(s, k, Issued)
    ensures IdAfter(k) !in s.calls && k !in s.inbox
  {
    if IdAfter(k) in s.calls {
      LiveIdsDiffer(s, s.calls[IdAfter(k)], k);
    }
  }
}
