/** The registry at lock granularity: threads inserting, evicting and dropping clients, listing them
    and looking them up, one lock operation at a time. The locks are not reentrant, and `clients` and
    a client's `secondaries` are taken in both orders; nevertheless no deadlock is reachable. */
module LockOrder {
  import opened Bytes
  import opened Names
  import opened Protocol

  /** A client object; several may share a name. */
  datatype Client = Client(name: Text, serial: nat)

  datatype Lock = Clients | Subscriptions | Broadcasts | Secondaries(of: Client)

  /** A cascade in progress: the owner's `secondaries` lock is held, and these names remain. */
  datatype Cascade = Cascade(owner: Client, todo: set<Text>)

  datatype DropAt =
    | Check | Clear
    | WantSubs | HaveSubs | WantBcast | HaveBcast
    | WantClients | HaveClients                         // removal by name
    | WantSecs                                          // a primary: lock its `secondaries`
    | WantParent | HaveParent | WantParentSecs(p: Client) | HaveParentSecs(p: Client)

  datatype LoopAt = Pick | WantGet(n: Text) | HaveGet(n: Text)

  /** Where a thread is. `stack` holds the cascades a drop is nested in, `next` the client whose
      insertion is retried after an eviction. */
  datatype Thread =
    | Idle
    | LeafWant(leaf: Lock) | LeafHave(leaf: Lock)       // one map alone, e.g. to find subscribers
    | LookupWant | LookupHave                           // `trigger_disconnect`, target of a message
    | ListWant | ListHave(left: set<Client>)            // `client_list`
    | ListWantSecs(left: set<Client>, p: Client) | ListHaveSecs(left: set<Client>, p: Client)
    | InsWant(c: Client, retry: bool) | InsHave(c: Client, retry: bool)
    | InsWantSecs(c: Client, p: Client) | InsHaveSecs(c: Client, p: Client)
    | InsWantBcast(c: Client) | InsHaveBcast(c: Client)
    | InsWantSubs(c: Client) | InsHaveSubs(c: Client)
    | InsFlag(c: Client) | InsPut(c: Client)
    | EvictWant(c: Client) | EvictHave(c: Client)
    | Drop(c: Client, at: DropAt, stack: seq<Cascade>, next: Option<Client>)
    | Loop(stack: seq<Cascade>, next: Option<Client>, turn: LoopAt)

  datatype State = State(
    threads: map<nat, Thread>,
    clients: map<Text, Client>,
    flags: set<Client>,                // the `registered` flags
    secs: map<Client, set<Text>>,
    started: set<Client>,              // clients whose registration has begun
    flagged: set<Client>)              // clients whose flag has ever been set

  function SecsOf(s: State, c: Client): set<Text> {
    if c in s.secs then s.secs[c] else {}
  }

  // ----- Locks, told from where a thread is

  function Wants(t: Thread): Option<Lock> {
    match t
    case LeafWant(l) => Some(l)
    case LookupWant => Some(Clients)
    case ListWant => Some(Clients)
    case ListWantSecs(_, p) => Some(Secondaries(p))
    case InsWant(_, _) => Some(Clients)
    case InsWantSecs(_, p) => Some(Secondaries(p))
    case InsWantBcast(_) => Some(Broadcasts)
    case InsWantSubs(_) => Some(Subscriptions)
    case EvictWant(_) => Some(Clients)
    case Drop(c, at, _, _) => (
      match at
      case WantSubs => Some(Subscriptions)
      case WantBcast => Some(Broadcasts)
      case WantClients => Some(Clients)
      case WantSecs => Some(Secondaries(c))
      case WantParent => Some(Clients)
      case WantParentSecs(p) => Some(Secondaries(p))
      case _ => None)
    case Loop(_, _, WantGet(_)) => Some(Clients)
    case _ => None
  }

  /** Locks of the enclosing cascades. */
  function StackLocks(t: Thread): set<Lock> {
    if t.Drop? || t.Loop? then OwnerLocks(t.stack) else {}
  }

  function OwnerLocks(stack: seq<Cascade>): set<Lock> {
    set f | f in stack :: Secondaries(f.owner)
  }

  /** Locks taken for the current step. */
  function StepLocks(t: Thread): set<Lock> {
    match t
    case LeafHave(l) => {l}
    case LookupHave => {Clients}
    case ListHave(_) => {Clients}
    case ListWantSecs(_, _) => {Clients}
    case ListHaveSecs(_, p) => {Clients, Secondaries(p)}
    case InsHave(_, _) => {Clients}
    case InsWantSecs(_, _) => {Clients}
    case InsHaveSecs(_, p) => {Clients, Secondaries(p)}
    case InsWantBcast(_) => {Clients}
    case InsHaveBcast(_) => {Clients, Broadcasts}
    case InsWantSubs(_) => {Clients}
    case InsHaveSubs(_) => {Clients, Subscriptions}
    case InsFlag(_) => {Clients}
    case InsPut(_) => {Clients}
    case EvictHave(_) => {Clients}
    case Drop(_, at, _, _) => (
      match at
      case HaveSubs => {Subscriptions}
      case HaveBcast => {Broadcasts}
      case HaveClients => {Clients}
      case HaveParent => {Clients}
      case WantParentSecs(_) => {Clients}
      case HaveParentSecs(p) => {Clients, Secondaries(p)}
      case _ => {})
    case Loop(_, _, HaveGet(_)) => {Clients}
    case _ => {}
  }

  function Holds(t: Thread): set<Lock> {
    StackLocks(t) + StepLocks(t)
  }

  predicate Free(s: State, l: Lock) {
    forall j | j in s.threads :: l !in Holds(s.threads[j])
  }

  /** A busy thread can go on unless it waits for a lock somebody holds, itself included. */
  predicate Enabled(s: State, i: nat)
    requires i in s.threads
  {
    !s.threads[i].Idle? && (Wants(s.threads[i]).Some? ==> Free(s, Wants(s.threads[i]).value))
  }

  // ----- Steps

  /** The end of a drop: back to the enclosing cascade, to the insertion it made room for, or done. */
  function Return(stack: seq<Cascade>, next: Option<Client>): Thread {
    if stack != [] then Loop(stack, next, Pick)
    else if next.Some? then InsWant(next.value, false)
    else Idle
  }

  /** An idle thread may begin any operation. A client is registered once; it may be dropped at any
      time, by several threads at once. */
  predicate MayStart(s: State, t: Thread) {
    match t
    case LeafWant(l) => l in {Subscriptions, Broadcasts}
    case LookupWant => true
    case ListWant => true
    case InsWant(c, _) => c !in s.started
    case Drop(c, at, stack, next) => c in s.started && at == Check && stack == [] && next == None
    case _ => false
  }

  datatype Move = Move(thread: nat, start: Thread, name: Text, client: Client)

  predicate CanMove(s: State, m: Move) {
    && m.thread in s.threads
    && var t := s.threads[m.thread];
       if t.Idle? then MayStart(s, m.start)
       else
         && Enabled(s, m.thread)
         && (t.Loop? ==> t.stack != [])
         && (t.Loop? && t.turn.Pick? && Top(t.stack).todo != {} ==> m.name in Top(t.stack).todo)
         && (t.ListHave? && t.left != {} ==> m.client in t.left)
  }

  function Top(stack: seq<Cascade>): Cascade
    requires stack != []
  {
    stack[|stack| - 1]
  }

  function Below(stack: seq<Cascade>): seq<Cascade>
    requires stack != []
  {
    stack[..|stack| - 1]
  }

  /** The primary clients in the map. */
  function Primaries(s: State): set<Client> {
    set n | n in s.clients && IsPrimary(s.clients[n].name) :: s.clients[n]
  }

  /** Where the thread goes. */
  function Goes(s: State, m: Move): Thread
    requires CanMove(s, m)
  {
    var t := s.threads[m.thread];
    match t
    case Idle => m.start
    case LeafWant(l) => LeafHave(l)
    case LeafHave(_) => Idle
    case LookupWant => LookupHave
    case LookupHave => Idle
    case ListWant => ListHave(Primaries(s))
    case ListHave(left) => if left == {} then Idle else ListWantSecs(left, m.client)
    case ListWantSecs(left, p) => ListHaveSecs(left, p)
    case ListHaveSecs(left, p) => ListHave(left - {p})
    case InsWant(c, retry) => InsHave(c, retry)
    case InsHave(c, retry) =>
      if !IsPrimary(c.name) && PrimaryOf(c.name) !in s.clients then Idle
      else if c.name in s.clients then (if retry then EvictWant(c) else Idle)
      else if IsPrimary(c.name) then InsWantBcast(c)
      else InsWantSecs(c, s.clients[PrimaryOf(c.name)])
    case InsWantSecs(c, p) => InsHaveSecs(c, p)
    case InsHaveSecs(c, _) => InsWantBcast(c)
    case InsWantBcast(c) => InsHaveBcast(c)
    case InsHaveBcast(c) => InsWantSubs(c)
    case InsWantSubs(c) => InsHaveSubs(c)
    case InsHaveSubs(c) => InsFlag(c)
    case InsFlag(c) => InsPut(c)
    case InsPut(_) => Idle
    case EvictWant(c) => EvictHave(c)
    case EvictHave(c) =>
      if c.name in s.clients then Drop(s.clients[c.name], Check, [], Some(c)) else InsWant(c, false)
    case Drop(c, at, stack, next) => DropGoes(s, c, at, stack, next)
    case Loop(stack, next, turn) => LoopGoes(s, stack, next, turn, m.name)
  }

  function LoopGoes(s: State, stack: seq<Cascade>, next: Option<Client>, turn: LoopAt, name: Text): Thread
    requires stack != []
  {
    match turn
    case Pick => if Top(stack).todo == {} then Return(Below(stack), next) else Loop(stack, next, WantGet(name))
    case WantGet(n) => Loop(stack, next, HaveGet(n))
    case HaveGet(n) =>
      var rest := Below(stack) + [Cascade(Top(stack).owner, Top(stack).todo - {n})];
      if n in s.clients then Drop(s.clients[n], Check, rest, next) else Loop(rest, next, Pick)
  }

  function DropGoes(s: State, c: Client, at: DropAt, stack: seq<Cascade>, next: Option<Client>): Thread {
    match at
    case Check => if c in s.flags then Drop(c, Clear, stack, next) else Return(stack, next)
    case Clear => Drop(c, WantSubs, stack, next)
    case WantSubs => Drop(c, HaveSubs, stack, next)
    case HaveSubs => Drop(c, WantBcast, stack, next)
    case WantBcast => Drop(c, HaveBcast, stack, next)
    case HaveBcast => Drop(c, WantClients, stack, next)
    case WantClients => Drop(c, HaveClients, stack, next)
    case HaveClients => Drop(c, if IsPrimary(c.name) then WantSecs else WantParent, stack, next)
    case WantSecs => Loop(stack + [Cascade(c, SecsOf(s, c))], next, Pick)
    case WantParent => Drop(c, HaveParent, stack, next)
    case HaveParent =>
      if PrimaryOf(c.name) in s.clients
      then Drop(c, WantParentSecs(s.clients[PrimaryOf(c.name)]), stack, next)
      else Return(stack, next)
    case WantParentSecs(p) => Drop(c, HaveParentSecs(p), stack, next)
    case HaveParentSecs(_) => Return(stack, next)
  }

  /** What the step does to the shared state. */
  function Changes(s: State, m: Move): State
    requires CanMove(s, m)
  {
    var t := s.threads[m.thread];
    match t
    case Idle => if m.start.InsWant? then s.(started := s.started + {m.start.c}) else s
    case InsHaveSecs(c, p) => s.(secs := s.secs[p := SecsOf(s, p) + {c.name}])
    case InsFlag(c) => s.(flags := s.flags + {c}, flagged := s.flagged + {c})
    case InsPut(c) => s.(clients := s.clients[c.name := c])
    case EvictHave(c) => s.(clients := s.clients - {c.name})
    case Drop(c, Clear, _, _) => s.(flags := s.flags - {c})
    case Drop(c, HaveClients, _, _) => s.(clients := s.clients - {c.name})
    case Drop(c, HaveParentSecs(p), _, _) => s.(secs := s.secs[p := SecsOf(s, p) - {c.name}])
    case Loop(stack, _, Pick) => if Top(stack).todo == {} then s.(secs := s.secs[Top(stack).owner := {}]) else s
    case _ => s
  }

  function Next(s: State, m: Move): State
    requires CanMove(s, m)
  {
    Changes(s, m).(threads := s.threads[m.thread := Goes(s, m)])
  }

  /** Any number of threads, all idle, and an empty registry. */
  predicate Init(s: State) {
    && (forall i | i in s.threads :: s.threads[i].Idle?)
    && s.clients == map[] && s.flags == {} && s.secs == map[] && s.started == {} && s.flagged == {}
  }

  predicate IsRun(run: seq<State>, moves: seq<Move>) {
    && |run| == |moves| + 1 && Init(run[0])
    && forall k | 0 <= k < |moves| :: CanMove(run[k], moves[k]) && run[k + 1] == Next(run[k], moves[k])
  }

  // ----- What every step keeps

  /** The client a thread is going to insert, if any. */
  function Inserting(t: Thread): Option<Client> {
    match t
    case InsWant(c, _) => Some(c)
    case InsHave(c, _) => Some(c)
    case InsWantSecs(c, _) => Some(c)
    case InsHaveSecs(c, _) => Some(c)
    case InsWantBcast(c) => Some(c)
    case InsHaveBcast(c) => Some(c)
    case InsWantSubs(c) => Some(c)
    case InsHaveSubs(c) => Some(c)
    case InsFlag(c) => Some(c)
    case InsPut(c) => Some(c)
    case EvictWant(c) => Some(c)
    case EvictHave(c) => Some(c)
    case Drop(_, _, _, next) => next
    case Loop(_, next, _) => next
    case _ => None
  }

  predicate Present(s: State, c: Client) {
    c.name in s.clients && s.clients[c.name] == c
  }

  /** Out of the map for good: its one insertion is over. */
  predicate Gone(s: State, c: Client) {
    && c in s.flagged && !Present(s, c)
    && forall j | j in s.threads :: s.threads[j] != InsPut(c)
  }

  predicate CascadeSound(s: State, f: Cascade) {
    Gone(s, f.owner) && forall n | n in f.todo :: !IsPrimary(n)
  }

  predicate StackSound(s: State, stack: seq<Cascade>) {
    forall f | f in stack :: CascadeSound(s, f)
  }

  /** Past the check of its flag, a drop knows the client was inserted; past the removal by name, that
      it is gone. Only secondaries are dropped inside a cascade. */
  predicate DropSound(s: State, c: Client, at: DropAt, stack: seq<Cascade>) {
    && (!at.Check? ==> c in s.flagged)
    && (at.WantSecs? ==> Gone(s, c) && IsPrimary(c.name))
    && (at.WantParentSecs? || at.HaveParentSecs? ==> Present(s, at.p))
    && (stack != [] ==> !IsPrimary(c.name))
  }

  predicate ThreadSound(s: State, t: Thread) {
    && (Inserting(t).Some? ==> Inserting(t).value in s.started)
    && (Inserting(t).Some? && !t.InsPut? ==>
          Inserting(t).value !in s.flagged && !Present(s, Inserting(t).value))
    && match t
       case LeafWant(l) => l in {Subscriptions, Broadcasts}
       case LeafHave(l) => l in {Subscriptions, Broadcasts}
       case ListHave(left) => forall p | p in left :: Present(s, p)
       case ListWantSecs(left, p) => Present(s, p) && forall q | q in left :: Present(s, q)
       case ListHaveSecs(left, p) => Present(s, p) && forall q | q in left :: Present(s, q)
       case InsWantSecs(c, p) => Present(s, p) && !IsPrimary(c.name)
       case InsHaveSecs(c, p) => Present(s, p) && !IsPrimary(c.name)
       case InsPut(c) => c in s.flagged
       case Drop(c, at, stack, _) => DropSound(s, c, at, stack) && StackSound(s, stack)
       case Loop(stack, _, turn) =>
         && stack != [] && StackSound(s, stack)
         && (turn.WantGet? || turn.HaveGet? ==> !IsPrimary(turn.n))
       case _ => true
  }

  predicate Exclusive(s: State) {
    forall i, j | i in s.threads && j in s.threads && i != j ::
      Holds(s.threads[i]) !! Holds(s.threads[j])
  }

  predicate InsertsOnce(s: State) {
    forall i, j | i in s.threads && j in s.threads && i != j && Inserting(s.threads[i]).Some? ::
      Inserting(s.threads[i]) != Inserting(s.threads[j])
  }

  predicate SharedSound(s: State) {
    && (forall n | n in s.clients :: s.clients[n].name == n && s.clients[n] in s.flagged)
    && s.flags <= s.flagged <= s.started
    && OnlySecondaries(s.secs)
  }

  predicate Inv(s: State) {
    && Exclusive(s) && InsertsOnce(s) && SharedSound(s)
    && forall i | i in s.threads :: ThreadSound(s, s.threads[i])
  }

  // ----- No deadlock

  /** A deadlock: threads each waiting for a lock that one of them holds. */
  ghost predicate Deadlocked(s: State, d: set<nat>) {
    && d != {} && (forall i | i in d :: i in s.threads)
    && forall i | i in d ::
         && Wants(s.threads[i]).Some?
         && exists j :: j in d && Wants(s.threads[i]).value in Holds(s.threads[j])
  }

  /** Whoever holds one of the two leaf locks waits for nothing. */
  lemma LeafHolders(s: State, t: Thread, l: Lock)
    requires ThreadSound(s, t) && l in Holds(t) && l in {Subscriptions, Broadcasts}
    ensures Wants(t) == None
  {
  }

  /** Whoever holds `clients` waits for a leaf lock, or for the `secondaries` of a present client. */
  lemma ClientsHolders(s: State, t: Thread)
    requires ThreadSound(s, t) && Clients in Holds(t) && Wants(t).Some?
    ensures var l := Wants(t).value;
      l in {Subscriptions, Broadcasts} || (l.Secondaries? && Present(s, l.of))
  {
  }

  /** The `secondaries` of a present client are held only together with `clients`, and only by
      somebody who waits for nothing. */
  lemma PresentSecondariesHolders(s: State, t: Thread, p: Client)
    requires ThreadSound(s, t) && Secondaries(p) in Holds(t) && Present(s, p)
    ensures Wants(t) == None
  {
  }

  /** Waiting for `secondaries` without holding `clients` is the start of a cascade, which holds nothing. */
  lemma CascadeStarters(s: State, t: Thread)
    requires ThreadSound(s, t) && Wants(t).Some? && Wants(t).value.Secondaries? && Clients !in Holds(t)
    ensures Holds(t) == {}
  {
  }

  lemma Holder(s: State, d: set<nat>, i: nat) returns (j: nat)
    requires Deadlocked(s, d) && i in d
    ensures i in s.threads && j in d && j in s.threads
    ensures Wants(s.threads[i]).Some? && Wants(s.threads[i]).value in Holds(s.threads[j])
    ensures Wants(s.threads[j]).Some?
  {
    hide Wants, Holds;
    j :| j in d && Wants(s.threads[i]).value in Holds(s.threads[j]);
  }

  lemma NoLeafWaiter(s: State, d: set<nat>, i: nat)
    requires Inv(s) && Deadlocked(s, d) && i in d && i in s.threads
    ensures Wants(s.threads[i]).Some? && Wants(s.threads[i]).value !in {Subscriptions, Broadcasts}
  {
    hide Wants, Holds, ThreadSound, Exclusive, InsertsOnce, SharedSound, Deadlocked;
    var j := Holder(s, d, i);
    var l := Wants(s.threads[i]).value;
    if l in {Subscriptions, Broadcasts} {
      LeafHolders(s, s.threads[j], l);
    }
  }

  lemma NoClientsHolder(s: State, d: set<nat>, i: nat)
    requires Inv(s) && Deadlocked(s, d) && i in d && i in s.threads
    ensures Clients !in Holds(s.threads[i])
  {
    hide Wants, Holds, ThreadSound, Exclusive, InsertsOnce, SharedSound, Deadlocked;
    if Clients in Holds(s.threads[i]) {
      NoLeafWaiter(s, d, i);
      ClientsHolders(s, s.threads[i]);
      var j := Holder(s, d, i);
      PresentSecondariesHolders(s, s.threads[j], Wants(s.threads[i]).value.of);
    }
  }

  lemma HolderHoldsNothing(s: State, d: set<nat>, i: nat) returns (j: nat)
    requires Inv(s) && Deadlocked(s, d) && i in d
    ensures i in s.threads && j in s.threads && Wants(s.threads[i]).Some?
    ensures Wants(s.threads[i]).value in Holds(s.threads[j]) && Holds(s.threads[j]) == {}
  {
    hide Wants, Holds, ThreadSound, Exclusive, InsertsOnce, SharedSound, Deadlocked;
    j := Holder(s, d, i);
    var k := Holder(s, d, j);
    NoLeafWaiter(s, d, j);
    NoClientsHolder(s, d, j);
    NoClientsHolder(s, d, k);
    CascadeStarters(s, s.threads[j]);
  }

  /** In a deadlocked set nobody waits for a leaf lock, so nobody in it holds `clients`, so everybody
      waits for `secondaries` without holding anything: nobody holds what is waited for. */
  lemma SoundHasNoDeadlock(s: State, d: set<nat>)
    requires Inv(s)
    ensures !Deadlocked(s, d)
  {
    hide Wants, Holds, ThreadSound, Exclusive, InsertsOnce, SharedSound;
    if Deadlocked(s, d) {
      var i :| i in d;
      var j := HolderHoldsNothing(s, d, i);
    }
  }

  // ----- The invariant is kept

  function Wanted(t: Thread): set<Lock> {
    if Wants(t).Some? then {Wants(t).value} else {}
  }

  lemma HoldsAfter(s: State, m: Move)
    requires Inv(s) && CanMove(s, m)
    ensures Holds(Goes(s, m)) <= Holds(s.threads[m.thread]) + Wanted(s.threads[m.thread])
  {
    var t := s.threads[m.thread];
    if t.Drop? {
      hide Inv, Holds, Wanted;
      DropHoldsAfter(s, t.c, t.at, t.stack, t.next);
    } else if t.Loop? {
      hide Inv, Holds, Wanted;
      LoopHoldsAfter(s, t.stack, t.next, t.turn, m.name);
    } else {
      PlainHoldsAfter(s, m);
    }
  }

  lemma PlainHoldsAfter(s: State, m: Move)
    requires CanMove(s, m) && !s.threads[m.thread].Drop? && !s.threads[m.thread].Loop?
    ensures Holds(Goes(s, m)) <= Holds(s.threads[m.thread]) + Wanted(s.threads[m.thread])
  {
    hide IsPrimary, PrimaryOf, Primaries, Enabled;
  }

  lemma DropHoldsAfter(s: State, c: Client, at: DropAt, stack: seq<Cascade>, next: Option<Client>)
    ensures var t := Drop(c, at, stack, next);
      Holds(DropGoes(s, c, at, stack, next)) <= Holds(t) + Wanted(t)
  {
    OwnersOfSnoc(stack, Cascade(c, SecsOf(s, c)));
    hide IsPrimary, PrimaryOf, OwnerLocks, SecsOf;
  }

  lemma LoopHoldsAfter(s: State, stack: seq<Cascade>, next: Option<Client>, turn: LoopAt, name: Text)
    requires stack != []
    ensures var t := Loop(stack, next, turn);
      Holds(LoopGoes(s, stack, next, turn, name)) <= Holds(t) + Wanted(t)
  {
    OwnersStay(stack, Top(stack).todo - if turn.Pick? then {} else {turn.n});
    hide OwnerLocks, Below, Top;
  }

  lemma OwnersStay(stack: seq<Cascade>, todo: set<Text>)
    requires stack != []
    ensures OwnerLocks(Below(stack)) <= OwnerLocks(stack)
    ensures OwnerLocks(Below(stack) + [Cascade(Top(stack).owner, todo)]) == OwnerLocks(stack)
  {
    var top, rest := Top(stack), Below(stack);
    assert stack == rest + [top];
    OwnersOfSnoc(rest, top);
    OwnersOfSnoc(rest, Cascade(top.owner, todo));
  }

  lemma OwnersOfSnoc(stack: seq<Cascade>, f: Cascade)
    ensures OwnerLocks(stack + [f]) == OwnerLocks(stack) + {Secondaries(f.owner)}
  {
    assert (stack + [f])[|stack|] == f;
    assert forall l | l in OwnerLocks(stack) :: l in OwnerLocks(stack + [f]);
  }

  lemma KeepsExclusive(s: State, m: Move)
    requires Inv(s) && CanMove(s, m)
    ensures Exclusive(Next(s, m))
  {
    HoldsAfter(s, m);
    hide Holds, Wants, Goes, Changes, ThreadSound, InsertsOnce, SharedSound;
    var s' := Next(s, m);
    var t := s.threads[m.thread];
    forall j | j in s.threads && j != m.thread ensures Holds(s'.threads[j]) !! Holds(s'.threads[m.thread]) {
      assert Holds(s.threads[j]) !! Holds(t);
      assert !t.Idle? ==> Wanted(t) !! Holds(s.threads[j]);
      assert t.Idle? ==> Wanted(t) == {} by { WantsOfIdle(); }
    }
  }

  lemma WantsOfIdle()
    ensures Wants(Idle) == None
  {
  }

  lemma InsertingAfter(s: State, m: Move)
    requires Inv(s) && CanMove(s, m)
    ensures var before, after := Inserting(s.threads[m.thread]), Inserting(Goes(s, m));
      after.None? || after == before || after.value !in s.started
  {
    hide Exclusive, InsertsOnce, SharedSound, IsPrimary, PrimaryOf, Primaries, Holds;
    assert ThreadSound(s, s.threads[m.thread]);
  }

  lemma KeepsInsertsOnce(s: State, m: Move)
    requires Inv(s) && CanMove(s, m)
    ensures InsertsOnce(Next(s, m))
  {
    InsertingAfter(s, m);
    forall j | j in s.threads && Inserting(s.threads[j]).Some? ensures Inserting(s.threads[j]).value in s.started {
      assert ThreadSound(s, s.threads[j]);
    }
    hide Inserting, Goes, Changes, ThreadSound, Exclusive, SharedSound;
  }

  lemma KeepsShared(s: State, m: Move)
    requires Inv(s) && CanMove(s, m)
    ensures SharedSound(Next(s, m))
  {
    var t := s.threads[m.thread];
    if t.Drop? {
      DropKeepsShared(s, m);
    } else if t.Loop? {
      LoopKeepsShared(s, m);
    } else {
      InsertKeepsShared(s, m);
    }
  }

  lemma DropKeepsShared(s: State, m: Move)
    requires Inv(s) && CanMove(s, m) && s.threads[m.thread].Drop?
    ensures SharedSound(Next(s, m))
  {
    var t := s.threads[m.thread];
    if t.at.HaveParentSecs? {
      SecondariesLose(s, t.at.p, t.c.name);
    }
    hide Exclusive, InsertsOnce, ThreadSound, IsPrimary, Goes, Enabled, SecsOf, OnlySecondaries;
  }

  lemma LoopKeepsShared(s: State, m: Move)
    requires Inv(s) && CanMove(s, m) && s.threads[m.thread].Loop?
    ensures SharedSound(Next(s, m))
  {
    var t := s.threads[m.thread];
    SecondariesClear(s, Top(t.stack).owner);
    hide Exclusive, InsertsOnce, ThreadSound, Goes, Enabled, OnlySecondaries;
  }

  lemma InsertKeepsShared(s: State, m: Move)
    requires Inv(s) && CanMove(s, m) && !s.threads[m.thread].Drop? && !s.threads[m.thread].Loop?
    ensures SharedSound(Next(s, m))
  {
    var t := s.threads[m.thread];
    assert ThreadSound(s, t);
    if t.InsHaveSecs? {
      SecondariesGain(s, t.p, t.c.name);
    }
    hide Exclusive, InsertsOnce, IsPrimary, PrimaryOf, Goes, Holds, Enabled, SecsOf, OnlySecondaries, StackSound, Gone;
  }

  lemma SecondariesClear(s: State, p: Client)
    requires OnlySecondaries(s.secs)
    ensures OnlySecondaries(s.secs[p := {}])
  {
  }

  predicate OnlySecondaries(secs: map<Client, set<Text>>) {
    forall c | c in secs :: forall n | n in secs[c] :: !IsPrimary(n)
  }

  lemma SecondariesGain(s: State, p: Client, n: Text)
    requires OnlySecondaries(s.secs) && !IsPrimary(n)
    ensures OnlySecondaries(s.secs[p := SecsOf(s, p) + {n}])
  {
    hide IsPrimary;
  }

  lemma SecondariesLose(s: State, p: Client, n: Text)
    requires OnlySecondaries(s.secs)
    ensures OnlySecondaries(s.secs[p := SecsOf(s, p) - {n}])
  {
    hide IsPrimary;
  }

  /** Only the holder of `clients` changes the map. */
  lemma MapChangesUnderLock(s: State, m: Move)
    requires CanMove(s, m) && Clients !in Holds(s.threads[m.thread])
    ensures Next(s, m).clients == s.clients
  {
  }

  lemma GoneStays(s: State, m: Move, c: Client)
    requires Inv(s) && CanMove(s, m) && Gone(s, c)
    ensures Gone(Next(s, m), c)
  {
    var t := s.threads[m.thread];
    assert ThreadSound(s, t);
    assert t == InsFlag(c) ==> c !in s.flagged;
    if Present(Next(s, m), c) && !Present(s, c) { PresentAfter(s, m, c); }
    if Goes(s, m) == InsPut(c) { PutComesFromFlag(s, m, c); }
    FlaggedGrows(s, m);
    hide Inv, ThreadSound, CanMove, Goes, Changes, Present;
  }

  lemma PutComesFromFlag(s: State, m: Move, c: Client)
    requires CanMove(s, m) && Goes(s, m) == InsPut(c)
    ensures s.threads[m.thread] == InsFlag(c)
  {
    hide IsPrimary, PrimaryOf, Enabled, Primaries, DropGoes, LoopGoes;
    var t := s.threads[m.thread];
    if t.Drop? {
      DropNeverPuts(s, t.c, t.at, t.stack, t.next);
    } else if t.Loop? {
      LoopNeverPuts(s, t.stack, t.next, t.turn, m.name);
    }
  }

  lemma DropNeverPuts(s: State, c: Client, at: DropAt, stack: seq<Cascade>, next: Option<Client>)
    ensures !DropGoes(s, c, at, stack, next).InsPut?
  {
    hide IsPrimary, PrimaryOf;
  }

  lemma LoopNeverPuts(s: State, stack: seq<Cascade>, next: Option<Client>, turn: LoopAt, name: Text)
    requires stack != []
    ensures !LoopGoes(s, stack, next, turn, name).InsPut?
  {
  }

  lemma FlaggedGrows(s: State, m: Move)
    requires CanMove(s, m)
    ensures s.flagged <= Next(s, m).flagged
  {
    hide Goes, Enabled;
  }

  lemma PresentAfter(s: State, m: Move, c: Client)
    requires Inv(s) && CanMove(s, m) && Present(Next(s, m), c) && !Present(s, c)
    ensures s.threads[m.thread] == InsPut(c)
  {
    hide Exclusive, InsertsOnce, IsPrimary, PrimaryOf, Holds, Enabled, Goes;
  }

  lemma FlaggedAfter(s: State, m: Move, c: Client)
    requires CanMove(s, m) && c in Next(s, m).flagged && c !in s.flagged
    ensures s.threads[m.thread] == InsFlag(c)
  {
  }

  lemma StackStays(s: State, m: Move, stack: seq<Cascade>)
    requires Inv(s) && CanMove(s, m) && StackSound(s, stack)
    ensures StackSound(Next(s, m), stack)
  {
    forall f | f in stack ensures CascadeSound(Next(s, m), f) {
      assert CascadeSound(s, f);
      GoneStays(s, m, f.owner);
    }
  }

  lemma InsertingStays(s: State, m: Move, j: nat)
    requires Inv(s) && CanMove(s, m) && j in s.threads && j != m.thread
    requires Inserting(s.threads[j]).Some?
    ensures var t, s' := s.threads[j], Next(s, m);
      && Inserting(t).value in s'.started
      && (!t.InsPut? ==> Inserting(t).value !in s'.flagged && !Present(s', Inserting(t).value))
  {
    var t, s' := s.threads[j], Next(s, m);
    var c := Inserting(t).value;
    assert ThreadSound(s, t);
    assert Inserting(s.threads[m.thread]) != Some(c);
    if c in s'.flagged && c !in s.flagged { FlaggedAfter(s, m, c); }
    if Present(s', c) && !Present(s, c) { PresentAfter(s, m, c); }
    hide Exclusive, InsertsOnce, IsPrimary, PrimaryOf, Goes, StackSound, Gone, Enabled, Present;
  }

  lemma SameMapUnder(s: State, m: Move, j: nat)
    requires Inv(s) && CanMove(s, m) && j in s.threads && j != m.thread && Clients in Holds(s.threads[j])
    ensures Next(s, m).clients == s.clients
  {
    hide Holds, InsertsOnce, SharedSound, ThreadSound, Goes, Changes;
    assert Holds(s.threads[m.thread]) !! Holds(s.threads[j]);
    MapChangesUnderLock(s, m);
  }

  /** What a thread relies on is still there after a step of another thread. */
  predicate Undisturbed(s: State, s': State, t: Thread) {
    && s.flagged <= s'.flagged
    && (Clients in Holds(t) ==> s'.clients == s.clients)
    && (t.Drop? || t.Loop? ==> StackSound(s', t.stack))
    && (t.Drop? && t.at.WantSecs? ==> Gone(s', t.c))
    && (Inserting(t).Some? ==> Inserting(t).value in s'.started)
    && (Inserting(t).Some? && !t.InsPut? ==>
          Inserting(t).value !in s'.flagged && !Present(s', Inserting(t).value))
  }

  lemma UndisturbedIsSound(s: State, s': State, t: Thread)
    requires ThreadSound(s, t) && Undisturbed(s, s', t)
    ensures ThreadSound(s', t)
  {
    hide IsPrimary, PrimaryOf, StackSound, Gone;
    if Clients in Holds(t) {
      assert forall c :: Present(s', c) <==> Present(s, c);
    }
    hide Present;
  }

  lemma OtherStaysSound(s: State, m: Move, j: nat)
    requires Inv(s) && CanMove(s, m) && j in s.threads && j != m.thread
    ensures ThreadSound(Next(s, m), s.threads[j])
  {
    var t, s' := s.threads[j], Next(s, m);
    assert ThreadSound(s, t);
    assert Undisturbed(s, s', t) by { OtherUndisturbed(s, m, j); }
    hide *;
    UndisturbedIsSound(s, s', t);
  }

  lemma OtherUndisturbed(s: State, m: Move, j: nat)
    requires Inv(s) && CanMove(s, m) && j in s.threads && j != m.thread
    ensures Undisturbed(s, Next(s, m), s.threads[j])
  {
    var t, s' := s.threads[j], Next(s, m);
    assert ThreadSound(s, t);
    FlaggedGrows(s, m);
    if Inserting(t).Some? { InsertingStays(s, m, j); }
    if Clients in Holds(t) { SameMapUnder(s, m, j); }
    if t.Drop? {
      assert StackSound(s, t.stack) && (t.at.WantSecs? ==> Gone(s, t.c));
      StackStays(s, m, t.stack);
      if t.at.WantSecs? { GoneStays(s, m, t.c); }
    } else if t.Loop? {
      assert StackSound(s, t.stack);
      StackStays(s, m, t.stack);
    }
    hide Inv, ThreadSound, Next, StackSound, Gone, CanMove, Present, Holds, Inserting;
  }

  lemma SelfStaysSound(s: State, m: Move)
    requires Inv(s) && CanMove(s, m)
    ensures ThreadSound(Next(s, m), Goes(s, m))
  {
    var t := s.threads[m.thread];
    if t.Drop? {
      DropStaysSound(s, m);
    } else if t.Loop? {
      LoopStaysSound(s, m);
    } else if t.ListWant? || t.ListHave? || t.ListWantSecs? || t.ListHaveSecs? {
      ListStaysSound(s, m);
    } else {
      InsertStaysSound(s, m);
    }
  }

  lemma ListStaysSound(s: State, m: Move)
    requires Inv(s) && CanMove(s, m)
    requires var t := s.threads[m.thread]; t.ListWant? || t.ListHave? || t.ListWantSecs? || t.ListHaveSecs?
    ensures ThreadSound(Next(s, m), Goes(s, m))
  {
    hide Exclusive, InsertsOnce, IsPrimary, PrimaryOf, Enabled, Holds;
    assert ThreadSound(s, s.threads[m.thread]);
  }

  lemma InsertStaysSound(s: State, m: Move)
    requires Inv(s) && CanMove(s, m)
    requires var t := s.threads[m.thread];
      !t.Drop? && !t.Loop? && !t.ListWant? && !t.ListHave? && !t.ListWantSecs? && !t.ListHaveSecs?
    ensures ThreadSound(Next(s, m), Goes(s, m))
  {
    hide Exclusive, InsertsOnce, IsPrimary, PrimaryOf, Enabled, Holds, Primaries;
    assert ThreadSound(s, s.threads[m.thread]);
  }

  lemma StackPush(s: State, stack: seq<Cascade>, f: Cascade)
    requires StackSound(s, stack) && CascadeSound(s, f)
    ensures StackSound(s, stack + [f])
  {
    hide CascadeSound;
  }

  lemma StackPop(s: State, stack: seq<Cascade>)
    requires StackSound(s, stack) && stack != []
    ensures StackSound(s, Below(stack)) && CascadeSound(s, Top(stack))
  {
    hide CascadeSound;
  }

  /** The end of a drop leaves the thread in a sound place. */
  lemma ReturnIsSound(s: State, stack: seq<Cascade>, next: Option<Client>)
    requires StackSound(s, stack)
    requires next.Some? ==>
      next.value in s.started && next.value !in s.flagged && !Present(s, next.value)
    ensures ThreadSound(s, Return(stack, next))
  {
    hide StackSound, Present;
  }

  /** After the removal by name, under the lock, the dropped object is gone for good. */
  lemma RemovedIsGone(s: State, m: Move, c: Client)
    requires Inv(s) && CanMove(s, m)
    requires var t := s.threads[m.thread]; t.Drop? && t.c == c && t.at == HaveClients
    ensures Gone(Next(s, m), c)
  {
    hide InsertsOnce, SharedSound, StackSound, IsPrimary, PrimaryOf, Enabled;
    var t := s.threads[m.thread];
    assert ThreadSound(s, t) && Clients in Holds(t);
    if Goes(s, m) == InsPut(c) { PutComesFromFlag(s, m, c); }
    hide Goes, DropGoes;
    forall j | j in s.threads && j != m.thread ensures s.threads[j] != InsPut(c) {
      assert Holds(s.threads[j]) !! Holds(t);
    }
  }

  predicate NextSound(s: State, next: Option<Client>) {
    next.Some? ==> next.value in s.started && next.value !in s.flagged && !Present(s, next.value)
  }

  lemma NextStays(s: State, m: Move)
    requires Inv(s) && CanMove(s, m) && (s.threads[m.thread].Drop? || s.threads[m.thread].Loop?)
    ensures NextSound(Next(s, m), s.threads[m.thread].next)
  {
    hide Exclusive, InsertsOnce, StackSound, IsPrimary, PrimaryOf, Enabled, Holds, Goes;
    assert ThreadSound(s, s.threads[m.thread]);
  }

  lemma DropStaysSound(s: State, m: Move)
    requires Inv(s) && CanMove(s, m) && s.threads[m.thread].Drop?
    ensures ThreadSound(Next(s, m), Goes(s, m))
  {
    var t := s.threads[m.thread];
    if t.at.WantSecs? {
      CascadeBegins(s, m);
    } else if t.at.HaveClients? {
      RemovalStaysSound(s, m);
    } else {
      PlainDropStaysSound(s, m);
    }
  }

  lemma RemovalStaysSound(s: State, m: Move)
    requires Inv(s) && CanMove(s, m) && s.threads[m.thread].Drop? && s.threads[m.thread].at.HaveClients?
    ensures ThreadSound(Next(s, m), Goes(s, m))
  {
    var t := s.threads[m.thread];
    assert ThreadSound(s, t);
    assert t.stack != [] ==> !IsPrimary(t.c.name);
    StackStays(s, m, t.stack);
    NextStays(s, m);
    RemovedIsGone(s, m, t.c);
    hide Inv, ThreadSound, CanMove, StackSound, Gone, NextSound, IsPrimary, Next;
    RemovalSound(Next(s, m), t.c, t.stack, t.next);
  }

  lemma RemovalSound(s': State, c: Client, stack: seq<Cascade>, next: Option<Client>)
    requires StackSound(s', stack) && NextSound(s', next) && Gone(s', c)
    requires stack != [] ==> !IsPrimary(c.name)
    ensures ThreadSound(s', Drop(c, if IsPrimary(c.name) then WantSecs else WantParent, stack, next))
  {
    hide StackSound, IsPrimary;
  }

  /** The steps of a drop that neither remove the client nor begin a cascade. */
  lemma PlainDropSound(s: State, s': State, c: Client, at: DropAt, stack: seq<Cascade>, next: Option<Client>)
    requires DropSound(s, c, at, stack) && !at.WantSecs? && !at.HaveClients?
    requires StackSound(s', stack) && NextSound(s', next) && ThreadSound(s', Return(stack, next))
    requires s.flags <= s.flagged <= s'.flagged && s'.clients == s.clients
    requires forall n | n in s.clients :: s.clients[n].name == n
    ensures ThreadSound(s', DropGoes(s, c, at, stack, next))
  {
    hide StackSound, Return, Gone, IsPrimary, PrimaryOf;
  }

  lemma PlainDropStaysSound(s: State, m: Move)
    requires Inv(s) && CanMove(s, m) && s.threads[m.thread].Drop?
    requires !s.threads[m.thread].at.WantSecs? && !s.threads[m.thread].at.HaveClients?
    ensures ThreadSound(Next(s, m), Goes(s, m))
  {
    var t, s' := s.threads[m.thread], Next(s, m);
    assert ThreadSound(s, t);
    StackStays(s, m, t.stack);
    NextStays(s, m);
    ReturnIsSound(s', t.stack, t.next);
    assert s'.clients == s.clients && s.flags <= s.flagged == s'.flagged;
    hide StackSound, Return, Next, DropGoes, DropSound;
    PlainDropSound(s, s', t.c, t.at, t.stack, t.next);
  }

  lemma CascadeBegins(s: State, m: Move)
    requires Inv(s) && CanMove(s, m) && s.threads[m.thread].Drop? && s.threads[m.thread].at.WantSecs?
    ensures ThreadSound(Next(s, m), Goes(s, m))
  {
    var t, s' := s.threads[m.thread], Next(s, m);
    assert ThreadSound(s, t);
    GoneStays(s, m, t.c);
    StackStays(s, m, t.stack);
    NextStays(s, m);
    assert forall n | n in SecsOf(s, t.c) :: !IsPrimary(n);
    hide Inv, ThreadSound, CanMove, StackSound, Gone, Next, NextSound, SecsOf, IsPrimary;
    StackPush(s', t.stack, Cascade(t.c, SecsOf(s, t.c)));
    LoopSound(s', t.stack + [Cascade(t.c, SecsOf(s, t.c))], t.next, Pick);
  }

  lemma LoopSound(s': State, stack: seq<Cascade>, next: Option<Client>, turn: LoopAt)
    requires stack != [] && StackSound(s', stack) && NextSound(s', next)
    requires turn.WantGet? || turn.HaveGet? ==> !IsPrimary(turn.n)
    ensures ThreadSound(s', Loop(stack, next, turn))
  {
    hide StackSound, IsPrimary;
  }

  lemma LoopStaysSound(s: State, m: Move)
    requires Inv(s) && CanMove(s, m) && s.threads[m.thread].Loop?
    ensures ThreadSound(Next(s, m), Goes(s, m))
  {
    var t, s' := s.threads[m.thread], Next(s, m);
    assert ThreadSound(s, t);
    StackStays(s, m, t.stack);
    NextStays(s, m);
    LoopFacts(s, m);
    hide Inv, ThreadSound, CanMove, StackSound, Next, NextSound, IsPrimary, LoopGoes;
    LoopGoesSound(s, s', t.stack, t.next, t.turn, m.name);
  }

  lemma LoopFacts(s: State, m: Move)
    requires Inv(s) && CanMove(s, m) && s.threads[m.thread].Loop?
    ensures var t := s.threads[m.thread];
      && t.stack != []
      && (t.turn.WantGet? || t.turn.HaveGet? ==> !IsPrimary(t.turn.n))
      && (t.turn.Pick? && Top(t.stack).todo != {} ==> !IsPrimary(m.name))
      && (t.turn.HaveGet? && t.turn.n in s.clients ==> s.clients[t.turn.n].name == t.turn.n)
  {
    hide IsPrimary, Exclusive, InsertsOnce;
    var t := s.threads[m.thread];
    assert ThreadSound(s, t);
    assert Top(t.stack) in t.stack;
    assert CascadeSound(s, Top(t.stack));
  }

  lemma LoopGoesSound(s: State, s': State, stack: seq<Cascade>, next: Option<Client>, turn: LoopAt, name: Text)
    requires stack != [] && StackSound(s', stack) && NextSound(s', next)
    requires turn.WantGet? || turn.HaveGet? ==> !IsPrimary(turn.n)
    requires turn.Pick? && Top(stack).todo != {} ==> !IsPrimary(name)
    requires turn.HaveGet? && turn.n in s.clients ==> s.clients[turn.n].name == turn.n
    ensures ThreadSound(s', LoopGoes(s, stack, next, turn, name))
  {
    StackPop(s', stack);
    match turn {
      case Pick =>
        if Top(stack).todo == {} {
          ReturnIsSound(s', Below(stack), next);
        } else {
          hide StackSound, NextSound, IsPrimary, ThreadSound;
          LoopSound(s', stack, next, WantGet(name));
        }
      case WantGet(n) =>
        hide StackSound, NextSound, IsPrimary, ThreadSound;
        LoopSound(s', stack, next, HaveGet(n));
      case HaveGet(n) =>
        var f := Cascade(Top(stack).owner, Top(stack).todo - {n});
        StackPush(s', Below(stack), f);
        hide StackSound, IsPrimary, Top, Below;
        if n in s.clients {
          assert DropSound(s', s.clients[n], Check, Below(stack) + [f]);
        } else {
          LoopSound(s', Below(stack) + [f], next, Pick);
        }
    }
  }

  lemma StepKeepsInv(s: State, m: Move)
    requires Inv(s) && CanMove(s, m)
    ensures Inv(Next(s, m))
  {
    KeepsExclusive(s, m);
    KeepsInsertsOnce(s, m);
    KeepsShared(s, m);
    SelfStaysSound(s, m);
    forall j | j in s.threads && j != m.thread ensures ThreadSound(Next(s, m), s.threads[j]) {
      OtherStaysSound(s, m, j);
    }
    hide ThreadSound, Exclusive, InsertsOnce, SharedSound, Goes, Changes;
  }

  lemma {:induction false} RunKeepsInv(run: seq<State>, moves: seq<Move>, k: nat)
    requires IsRun(run, moves) && k < |run|
    ensures Inv(run[k])
  {
    if k > 0 {
      RunKeepsInv(run, moves, k - 1);
      StepKeepsInv(run[k - 1], moves[k - 1]);
    }
  }

  /** Over every interleaving of any number of operations no deadlock is ever reached. */
  lemma NeverDeadlocked(run: seq<State>, moves: seq<Move>, k: nat, d: set<nat>)
    requires IsRun(run, moves) && k < |run|
    ensures !Deadlocked(run[k], d)
  {
    RunKeepsInv(run, moves, k);
    SoundHasNoDeadlock(run[k], d);
  }

  /** A thread that is not blocked has a step to take. */
  lemma EnabledCanMove(s: State, i: nat) returns (m: Move)
    requires Inv(s) && i in s.threads && Enabled(s, i)
    ensures m.thread == i && CanMove(s, m)
  {
    hide Exclusive, InsertsOnce, SharedSound, Free, Wants;
    var t := s.threads[i];
    assert ThreadSound(s, t);
    var n: Text := [];
    var c := Client([], 0);
    if t.Loop? && t.turn.Pick? && Top(t.stack).todo != {} {
      n :| n in Top(t.stack).todo;
    } else if t.ListHave? && t.left != {} {
      c :| c in t.left;
    }
    m := Move(i, Idle, n, c);
    assert t.Loop? ==> t.stack != [];
  }

  lemma IdleHoldsNothing()
    ensures Holds(Idle) == {}
  {
  }

  ghost function Busy(s: State): set<nat> {
    set i | i in s.threads && !s.threads[i].Idle?
  }

  lemma BlockedByBusy(s: State, i: nat)
    requires i in Busy(s) && !Enabled(s, i)
    ensures Wants(s.threads[i]).Some?
    ensures exists j :: j in Busy(s) && Wants(s.threads[i]).value in Holds(s.threads[j])
  {
    IdleHoldsNothing();
    hide Wants, Holds;
    var j :| j in s.threads && Wants(s.threads[i]).value in Holds(s.threads[j]);
    assert j in Busy(s);
  }

  lemma AllBlockedIsDeadlock(s: State)
    requires Busy(s) != {} && forall i | i in Busy(s) :: !Enabled(s, i)
    ensures Deadlocked(s, Busy(s))
  {
    hide Wants, Holds, Enabled;
    forall i | i in Busy(s)
      ensures Wants(s.threads[i]).Some?
      ensures exists j :: j in Busy(s) && Wants(s.threads[i]).value in Holds(s.threads[j])
    {
      BlockedByBusy(s, i);
    }
  }

  /** As long as an operation is under way, some operation can take its next step. */
  lemma SomebodyCanMove(run: seq<State>, moves: seq<Move>, k: nat) returns (m: Move)
    requires IsRun(run, moves) && k < |run| && Busy(run[k]) != {}
    ensures CanMove(run[k], m) && m.thread in Busy(run[k])
  {
    var s := run[k];
    RunKeepsInv(run, moves, k);
    SoundHasNoDeadlock(s, Busy(s));
    hide Inv, Wants, Holds, CanMove, Deadlocked, Enabled;
    if forall i | i in Busy(s) :: !Enabled(s, i) {
      AllBlockedIsDeadlock(s);
    }
    var i :| i in Busy(s) && Enabled(s, i);
    m := EnabledCanMove(s, i);
  }
}
