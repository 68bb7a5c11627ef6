/** Dropping by name at lock granularity: `drop_client` checks the flag of an object and removes its name
    later, without a lock in between. When a new instance of the name can fall victim to that, and when not. */
module StaleDrop {
  import opened Bytes
  import opened Names
  import opened Protocol
  import opened LockOrder
  import opened SoloRuns

  // ----- Drops that will remove by name

  /** The flag has been cleared, the name has not been removed yet. */
  predicate Late(at: DropAt) {
    at in {WantSubs, HaveSubs, WantBcast, HaveBcast, WantClients, HaveClients}
  }

  /** The check of the flag is passed, the name has not been removed yet. */
  predicate Removing(t: Thread, c: Client) {
    t.Drop? && t.c == c && (t.at == Clear || Late(t.at))
  }

  /** The thread will go on to remove the name of `c`: it has passed the check of the flag, or will. */
  predicate Dooms(s: State, t: Thread, c: Client) {
    Removing(t, c) || (t.Drop? && t.c == c && t.at == Check && c in s.flags)
  }

  /** Some thread is about to remove the name of `c` on behalf of another object. */
  ghost predicate Endangered(s: State, c: Client) {
    exists j, d :: j in s.threads && d != c && d.name == c.name && Dooms(s, s.threads[j], d)
  }

  /** No client is put under its name while another object of that name is on its way out. */
  ghost predicate Separate(run: seq<State>, moves: seq<Move>) {
    |run| == |moves| + 1 && forall k | 0 <= k < |moves| :: PutsSafely(run[k], moves[k])
  }

  ghost predicate PutsSafely(s: State, m: Move) {
    m.thread in s.threads && s.threads[m.thread].InsPut? ==> !Endangered(s, s.threads[m.thread].c)
  }

  // ----- What every run keeps

  /** An insertion that has found its name free and still holds `clients`. */
  predicate Filling(t: Thread) {
    t.InsWantSecs? || t.InsHaveSecs? || t.InsWantBcast? || t.InsHaveBcast? || t.InsWantSubs? || t.InsHaveSubs?
    || t.InsFlag? || t.InsPut?
  }

  predicate Somewhere(s: State, t: Thread) {
    exists j :: j in s.threads && s.threads[j] == t
  }

  ghost predicate Leaving(s: State, c: Client) {
    exists j :: j in s.threads && s.threads[j].Drop? && s.threads[j].c == c && Late(s.threads[j].at)
  }

  /** Once its flag is cleared an object never has it again. */
  ghost predicate ClearedForGood(s: State) {
    forall j | j in s.threads :: s.threads[j].Drop? && Late(s.threads[j].at) ==> s.threads[j].c !in s.flags
  }

  ghost predicate FillsFreeNames(s: State) {
    forall j | j in s.threads :: Filling(s.threads[j]) ==> Inserting(s.threads[j]).value.name !in s.clients
  }

  /** An object in the map, or about to be, without its flag is on its way out. */
  ghost predicate UnflaggedLeave(s: State) {
    forall c | c in s.flagged && c !in s.flags && (Present(s, c) || Somewhere(s, InsPut(c))) :: Leaving(s, c)
  }

  ghost predicate Always(s: State) {
    ClearedForGood(s) && FillsFreeNames(s) && UnflaggedLeave(s)
  }

  lemma LateComes(s: State, m: Move)
    requires CanMove(s, m) && Goes(s, m).Drop? && Late(Goes(s, m).at)
    ensures var t := s.threads[m.thread];
      t.Drop? && t.c == Goes(s, m).c && (t.at == Clear || Late(t.at))
  {
    hide IsPrimary, PrimaryOf, Enabled, Primaries;
  }

  lemma FillingComes(s: State, m: Move)
    requires CanMove(s, m) && Filling(Goes(s, m))
    ensures var t := s.threads[m.thread];
      && Inserting(Goes(s, m)).Some? && Inserting(t) == Inserting(Goes(s, m)) && Next(s, m).clients == s.clients
      && (Filling(t) || Inserting(t).value.name !in s.clients)
  {
    hide IsPrimary, PrimaryOf, Enabled, Primaries;
  }

  lemma FillerHolds(t: Thread)
    requires Filling(t)
    ensures Clients in Holds(t) && Inserting(t).Some?
  {
  }

  lemma LateGoesOn(s: State, m: Move)
    requires CanMove(s, m) && s.threads[m.thread].Drop?
    ensures var t := s.threads[m.thread];
      && (t.at == Check && t.c in s.flags ==> Goes(s, m) == t.(at := Clear))
      && (t.at == Clear ==> Goes(s, m) == t.(at := WantSubs))
      && (Late(t.at) && t.at != HaveClients ==> Goes(s, m).Drop? && Goes(s, m).c == t.c && Late(Goes(s, m).at))
  {
    hide IsPrimary, PrimaryOf, Enabled;
  }

  lemma KeepsCleared(s: State, m: Move)
    requires Inv(s) && ClearedForGood(s) && CanMove(s, m)
    ensures ClearedForGood(Next(s, m))
  {
    var s' := Next(s, m);
    forall j | j in s'.threads && s'.threads[j].Drop? && Late(s'.threads[j].at) ensures s'.threads[j].c !in s'.flags {
      var c := s'.threads[j].c;
      if j == m.thread {
        LateComes(s, m);
      }
      hide Goes, Changes, Inv, CanMove;
      DroppedWasFlagged(s, j);
      FlagIsNew(s, m);
      FlagsAfter(s, m, c);
    }
  }

  lemma DroppedWasFlagged(s: State, j: nat)
    requires Inv(s) && j in s.threads
    ensures s.threads[j].Drop? && s.threads[j].at != Check ==> s.threads[j].c in s.flagged
  {
    hide Exclusive, InsertsOnce, SharedSound, StackSound, Gone;
    assert ThreadSound(s, s.threads[j]);
  }

  lemma FlagIsNew(s: State, m: Move)
    requires Inv(s) && CanMove(s, m)
    ensures s.threads[m.thread].InsFlag? ==> s.threads[m.thread].c !in s.flagged
  {
    hide Exclusive, InsertsOnce, SharedSound;
    assert ThreadSound(s, s.threads[m.thread]);
  }

  lemma KeepsFree(s: State, m: Move)
    requires Inv(s) && FillsFreeNames(s) && CanMove(s, m)
    ensures FillsFreeNames(Next(s, m))
  {
    var s' := Next(s, m);
    forall j | j in s'.threads && Filling(s'.threads[j])
      ensures Inserting(s'.threads[j]).Some? && Inserting(s'.threads[j]).value.name !in s'.clients
    {
      FillerHolds(s'.threads[j]);
      if j == m.thread {
        FillingComes(s, m);
      } else {
        SameMapUnder(s, m, j);
      }
      hide Goes, Changes, Filling, Inv, CanMove;
    }
  }

  /** Who holds `clients` is alone in doing so. */
  lemma OneHolder(s: State, i: nat, j: nat)
    requires Inv(s) && i in s.threads && j in s.threads
    requires Clients in Holds(s.threads[i]) && Clients in Holds(s.threads[j])
    ensures i == j
  {
    hide Holds, InsertsOnce, SharedSound, ThreadSound;
  }

  lemma PutComesNext(s: State, m: Move, c: Client)
    requires CanMove(s, m)
    ensures Goes(s, m) == InsPut(c) <==> s.threads[m.thread] == InsFlag(c)
  {
    if Goes(s, m) == InsPut(c) {
      PutComesFromFlag(s, m, c);
    }
  }

  /** How the flags change. */
  lemma FlagsAfter(s: State, m: Move, c: Client)
    requires CanMove(s, m)
    ensures var t, s' := s.threads[m.thread], Next(s, m);
      && (c in s'.flags && c !in s.flags ==> t == InsFlag(c))
      && (t == InsFlag(c) ==> c in s'.flags)
      && (c in s.flags && c !in s'.flags <==> c in s.flags && t.Drop? && t.c == c && t.at == Clear)
      && (c in s'.flagged && c !in s.flagged ==> t == InsFlag(c))
  {
    hide Goes, Enabled;
  }

  /** How the map changes. */
  lemma MapAfter(s: State, m: Move)
    requires CanMove(s, m)
    ensures var t, s' := s.threads[m.thread], Next(s, m);
      s'.clients ==
        if t.InsPut? then s.clients[t.c.name := t.c]
        else if t.EvictHave? || (t.Drop? && t.at == HaveClients) then s.clients - {t.c.name}
        else s.clients
  {
    hide Goes, Enabled;
  }

  lemma KeepsUnflaggedLeave(s: State, m: Move)
    requires Inv(s) && Always(s) && CanMove(s, m)
    ensures UnflaggedLeave(Next(s, m))
  {
    var s' := Next(s, m);
    forall c | c in s'.flagged && c !in s'.flags && (Present(s', c) || Somewhere(s', InsPut(c)))
      ensures Leaving(s', c)
    {
      StillLeaving(s, m, c);
    }
  }

  lemma StillLeaving(s: State, m: Move, c: Client)
    requires Inv(s) && Always(s) && CanMove(s, m)
    requires var s' := Next(s, m);
      c in s'.flagged && c !in s'.flags && (Present(s', c) || Somewhere(s', InsPut(c)))
    ensures Leaving(Next(s, m), c)
  {
    FlagsAfter(s, m, c);
    if c in s.flags {
      hide Inv, Always;
      LateGoesOn(s, m);
      assert Next(s, m).threads[m.thread] == s.threads[m.thread].(at := WantSubs);
    } else {
      WasThere(s, m, c);
      assert Leaving(s, c);
      hide Always, Leaving;
      LeavingGoesOn(s, m, c);
    }
  }

  lemma WasThere(s: State, m: Move, c: Client)
    requires CanMove(s, m) && c !in Next(s, m).flags
    requires Present(Next(s, m), c) || Somewhere(Next(s, m), InsPut(c))
    ensures Present(s, c) || Somewhere(s, InsPut(c))
  {
    FlagsAfter(s, m, c);
    MapAfter(s, m);
    PutComesNext(s, m, c);
    var t := s.threads[m.thread];
    hide Goes, Changes, CanMove;
    if Somewhere(Next(s, m), InsPut(c)) {
      var j :| j in s.threads && Next(s, m).threads[j] == InsPut(c);
      assert j != m.thread && s.threads[j] == InsPut(c);
    } else if t.InsPut? {
      assert t == InsPut(c) || Present(s, c);
    }
  }

  lemma LeavingGoesOn(s: State, m: Move, c: Client)
    requires Inv(s) && CanMove(s, m) && Leaving(s, c)
    requires Present(Next(s, m), c) || Somewhere(Next(s, m), InsPut(c))
    ensures Leaving(Next(s, m), c)
  {
    var j :| j in s.threads && s.threads[j].Drop? && s.threads[j].c == c && Late(s.threads[j].at);
    if j == m.thread {
      LateGoesOn(s, m);
      if s.threads[j].at == HaveClients {
        RemovalEndsIt(s, m, c);
      }
    }
    hide Inv, Goes, Changes, CanMove;
    assert j in Next(s, m).threads && Late(Next(s, m).threads[j].at);
  }

  lemma RemovalEndsIt(s: State, m: Move, c: Client)
    requires Inv(s) && CanMove(s, m)
    requires var t := s.threads[m.thread]; t.Drop? && t.c == c && t.at == HaveClients
    ensures !Present(Next(s, m), c) && !Somewhere(Next(s, m), InsPut(c))
  {
    MapAfter(s, m);
    PutComesNext(s, m, c);
    assert Goes(s, m) != InsPut(c) && Clients in Holds(s.threads[m.thread]);
    hide Goes, Changes, CanMove, Inv, Holds;
    if j :| j in s.threads && Next(s, m).threads[j] == InsPut(c) {
      FillerHolds(s.threads[j]);
      OneHolder(s, m.thread, j);
    }
  }

  lemma KeepsAlways(s: State, m: Move)
    requires Inv(s) && Always(s) && CanMove(s, m)
    ensures Always(Next(s, m))
  {
    hide Inv, CanMove, ClearedForGood, FillsFreeNames, UnflaggedLeave;
    KeepsCleared(s, m);
    KeepsFree(s, m);
    KeepsUnflaggedLeave(s, m);
  }

  // ----- What a run keeps in which insertions and drops of one name do not meet

  /** The name of `c` is free or its own. */
  predicate Named(s: State, c: Client) {
    c.name in s.clients ==> s.clients[c.name] == c
  }

  ghost predicate Doomed(s: State, c: Client) {
    exists j :: j in s.threads && s.threads[j].Drop? && s.threads[j].c == c && s.threads[j].at in {Check, Clear}
  }

  ghost predicate OwnNames(s: State) {
    && (forall c | c in s.flags :: Named(s, c))
    && (forall j | j in s.threads && s.threads[j].Drop? && (s.threads[j].at == Clear || Late(s.threads[j].at)) ::
          Named(s, s.threads[j].c))
  }

  /** An object with its flag that is not in the map is about to be put there or to be dropped. */
  ghost predicate FlaggedAccounted(s: State) {
    forall c | c in s.flags && !Present(s, c) :: Somewhere(s, InsPut(c)) || Doomed(s, c)
  }

  ghost predicate Orderly(s: State) {
    OwnNames(s) && FlaggedAccounted(s)
  }

  /** Nobody is put in the place of an object with its flag or on its way out. */
  lemma NotReplaced(s: State, m: Move, c: Client, j: nat)
    requires Inv(s) && Always(s) && FlaggedAccounted(s) && CanMove(s, m) && PutsSafely(s, m)
    requires c in s.flags || (j in s.threads && Removing(s.threads[j], c))
    ensures s.threads[m.thread].InsPut? ==> s.threads[m.thread].c == c || s.threads[m.thread].c.name != c.name
  {
    var t := s.threads[m.thread];
    hide CanMove, Endangered, Inv, Always, FlaggedAccounted;
    if t.InsPut? && t.c != c && t.c.name == c.name {
      WouldEndanger(s, m.thread, c, j);
    }
  }

  lemma WouldEndanger(s: State, i: nat, c: Client, j: nat)
    requires Inv(s) && Always(s) && FlaggedAccounted(s)
    requires i in s.threads && s.threads[i].InsPut? && s.threads[i].c != c && s.threads[i].c.name == c.name
    requires c in s.flags || (j in s.threads && Removing(s.threads[j], c))
    ensures Endangered(s, s.threads[i].c)
  {
    hide Endangered;
    if j in s.threads && Removing(s.threads[j], c) {
      RemovingEndangers(s, c, s.threads[i].c, j);
    } else {
      assert Filling(s.threads[i]);
      hide Inv, Always, Doomed;
      FlaggedElsewhere(s, c, i);
      DoomedEndangers(s, c, s.threads[i].c);
    }
  }

  lemma RemovingEndangers(s: State, c: Client, d: Client, j: nat)
    requires j in s.threads && Removing(s.threads[j], c) && c != d && c.name == d.name
    ensures Endangered(s, d)
  {
    assert Dooms(s, s.threads[j], c);
  }

  lemma DoomedEndangers(s: State, c: Client, d: Client)
    requires Doomed(s, c) && c in s.flags && c != d && c.name == d.name
    ensures Endangered(s, d)
  {
    var k :| k in s.threads && s.threads[k].Drop? && s.threads[k].c == c && s.threads[k].at in {Check, Clear};
    assert Dooms(s, s.threads[k], c);
  }

  lemma FlaggedElsewhere(s: State, c: Client, i: nat)
    requires Inv(s) && FlaggedAccounted(s) && c in s.flags && !Present(s, c)
    requires i in s.threads && s.threads[i].InsPut? && s.threads[i].c != c
    ensures Doomed(s, c)
  {
    hide Inv;
    if !Doomed(s, c) {
      var k :| k in s.threads && s.threads[k] == InsPut(c);
      OneHolder(s, i, k);
    }
  }

  lemma NamedStays(s: State, m: Move, c: Client)
    requires CanMove(s, m) && Named(s, c)
    requires s.threads[m.thread].InsPut? ==> s.threads[m.thread].c == c || s.threads[m.thread].c.name != c.name
    ensures Named(Next(s, m), c)
  {
    MapAfter(s, m);
    hide Goes, Changes, CanMove;
  }

  lemma KeepsOwnNames(s: State, m: Move)
    requires Inv(s) && Always(s) && Orderly(s) && CanMove(s, m) && PutsSafely(s, m)
    ensures OwnNames(Next(s, m))
  {
    var s' := Next(s, m);
    forall c | c in s'.flags ensures Named(s', c) {
      FlagsAfter(s, m, c);
      if c in s.flags {
        hide Inv, Always, PutsSafely, Goes, Changes, CanMove, Named;
        NotReplaced(s, m, c, m.thread);
        NamedStays(s, m, c);
      } else {
        assert Filling(s.threads[m.thread]);
        hide Inv, Goes, CanMove;
      }
    }
    forall j | j in s'.threads && s'.threads[j].Drop? && (s'.threads[j].at == Clear || Late(s'.threads[j].at))
      ensures Named(s', s'.threads[j].c)
    {
      var c := s'.threads[j].c;
      hide Inv, Always, PutsSafely, Changes, CanMove, Named;
      RemovingComes(s, m, j);
      hide Goes;
      NotReplaced(s, m, c, j);
      NamedStays(s, m, c);
    }
  }

  lemma RemovingComes(s: State, m: Move, j: nat)
    requires CanMove(s, m) && j in s.threads
    requires var t' := Next(s, m).threads[j]; t'.Drop? && (t'.at == Clear || Late(t'.at))
    ensures var t, t' := s.threads[j], Next(s, m).threads[j];
      t.Drop? && t.c == t'.c && (t.at == Clear || Late(t.at) || (t.at == Check && t.c in s.flags))
  {
    hide IsPrimary, PrimaryOf, Enabled, Primaries, Changes;
  }

  lemma KeepsAccounted(s: State, m: Move)
    requires Inv(s) && Always(s) && Orderly(s) && CanMove(s, m)
    ensures FlaggedAccounted(Next(s, m))
  {
    var s' := Next(s, m);
    forall c | c in s'.flags && !Present(s', c) ensures Somewhere(s', InsPut(c)) || Doomed(s', c) {
      FlagsAfter(s, m, c);
      if c !in s.flags {
        hide Inv, Always, Orderly;
        PutComesNext(s, m, c);
        assert s'.threads[m.thread] == InsPut(c);
      } else if Present(s, c) {
        hide Doomed;
        Removed(s, m, c);
      } else {
        hide Inv, Always, OwnNames;
        AccountedStays(s, m, c);
      }
    }
  }

  /** Who takes a flagged object out of the map goes on to drop it. */
  lemma Removed(s: State, m: Move, c: Client)
    requires Inv(s) && Always(s) && OwnNames(s) && CanMove(s, m)
    requires c in s.flags && Present(s, c) && !Present(Next(s, m), c)
    ensures Doomed(Next(s, m), c)
  {
    var t := s.threads[m.thread];
    MapAfter(s, m);
    hide Inv, Changes, Enabled, IsPrimary, PrimaryOf, UnflaggedLeave;
    assert t.EvictHave? && Goes(s, m) == Drop(c, Check, [], Some(t.c));
    assert Next(s, m).threads[m.thread].at == Check;
  }

  lemma AccountedStays(s: State, m: Move, c: Client)
    requires FlaggedAccounted(s) && CanMove(s, m) && c in s.flags && !Present(s, c)
    requires c in Next(s, m).flags && !Present(Next(s, m), c)
    ensures Somewhere(Next(s, m), InsPut(c)) || Doomed(Next(s, m), c)
  {
    var t, s' := s.threads[m.thread], Next(s, m);
    MapAfter(s, m);
    FlagsAfter(s, m, c);
    if Somewhere(s, InsPut(c)) {
      var j :| j in s.threads && s.threads[j] == InsPut(c);
      hide Goes, Changes, CanMove;
      assert j != m.thread && s'.threads[j] == InsPut(c);
    } else {
      var j :| j in s.threads && s.threads[j].Drop? && s.threads[j].c == c && s.threads[j].at in {Check, Clear};
      if j == m.thread {
        LateGoesOn(s, m);
      }
      hide Goes, Changes, CanMove;
      assert j in s'.threads && s'.threads[j].Drop? && s'.threads[j].c == c && s'.threads[j].at in {Check, Clear};
    }
  }

  // ----- Over whole runs

  lemma BeginsWell(s: State)
    requires Init(s)
    ensures Always(s) && Orderly(s)
  {
  }

  lemma {:induction false} RunKeepsAlways(run: seq<State>, moves: seq<Move>, k: nat)
    requires IsRun(run, moves) && k < |run|
    ensures Inv(run[k]) && Always(run[k])
  {
    hide Inv, Always, Next, CanMove, Init;
    RunKeepsInv(run, moves, k);
    if k == 0 {
      BeginsWell(run[0]);
    } else {
      RunKeepsAlways(run, moves, k - 1);
      KeepsAlways(run[k - 1], moves[k - 1]);
    }
  }

  lemma {:induction false} RunKeepsOrder(run: seq<State>, moves: seq<Move>, k: nat)
    requires IsRun(run, moves) && Separate(run, moves) && k < |run|
    ensures Orderly(run[k])
  {
    hide Inv, Always, OwnNames, FlaggedAccounted, PutsSafely, Next, CanMove, Init;
    if k == 0 {
      BeginsWell(run[0]);
    } else {
      RunKeepsOrder(run, moves, k - 1);
      RunKeepsAlways(run, moves, k - 1);
      KeepsOwnNames(run[k - 1], moves[k - 1]);
      KeepsAccounted(run[k - 1], moves[k - 1]);
    }
  }

  ghost predicate AllIdle(s: State) {
    forall j | j in s.threads :: s.threads[j].Idle?
  }

  /** As long as nobody is put under a name while another object of that name is on its way out, removal by
      name removes the object it is meant for, or nothing. */
  lemma RemovesItsOwn(run: seq<State>, moves: seq<Move>, k: nat, j: nat)
    requires IsRun(run, moves) && Separate(run, moves) && k < |run| && j in run[k].threads
    requires run[k].threads[j].Drop? && run[k].threads[j].at == HaveClients
    ensures Named(run[k], run[k].threads[j].c)
  {
    RunKeepsOrder(run, moves, k);
  }

  /** And whenever no operation is under way, the flags are those of the objects in the map. */
  lemma FlagsAgree(run: seq<State>, moves: seq<Move>, k: nat, c: Client)
    requires IsRun(run, moves) && Separate(run, moves) && k < |run| && AllIdle(run[k])
    ensures c in run[k].flags <==> Present(run[k], c)
  {
    RunKeepsOrder(run, moves, k);
    RunKeepsAlways(run, moves, k);
    IdleAgrees(run[k], c);
  }

  lemma IdleAgrees(s: State, c: Client)
    requires Inv(s) && Always(s) && Orderly(s) && AllIdle(s)
    ensures c in s.flags <==> Present(s, c)
  {
    hide Exclusive, InsertsOnce, ThreadSound, IsPrimary;
  }

  // ----- A run in which they meet

  const NAME: Text := [0x61]
  const OLD := Client(NAME, 0)
  const NEW := Client(NAME, 1)

  /** Two threads, and the registry they work on. */
  function Both(a: Thread, b: Thread, clients: map<Text, Client>, flags: set<Client>, started: set<Client>,
                flagged: set<Client>): State {
    State(map[0 := a, 1 := b], clients, flags, map[], started, flagged)
  }

  lemma PlainName()
    ensures IsPrimary(NAME)
  {
    assert PrimaryOf(NAME) == NAME;
  }

  lemma BothQuiet(a: Thread, b: Thread, clients: map<Text, Client>, flags: set<Client>, started: set<Client>,
                  flagged: set<Client>)
    ensures var s := Both(a, b, clients, flags, started, flagged);
      && (Holds(b) == {} ==> Quiet(s, 0)) && (Holds(a) == {} ==> Quiet(s, 1))
  {
    hide Holds;
  }

  lemma WaitingHoldsNothing(c: Client)
    ensures Holds(Idle) == {} && Holds(Drop(c, WantSubs, [], None)) == {}
  {
  }

  lemma OldIsThere() returns (run: seq<State>, moves: seq<Move>)
    ensures IsRun(run, moves) && |run| == |moves| + 1
    ensures run[|moves|] == Both(Idle, Idle, map[NAME := OLD], {OLD}, {OLD}, {OLD})
  {
    PlainName();
    WaitingHoldsNothing(OLD);
    hide IsRun, Quiet, IsPrimary, Holds;
    var s := Both(Idle, Idle, map[], {}, {}, {});
    run, moves := StartOf(s);
    BothQuiet(Idle, Idle, map[], {}, {}, {});
    run, moves := Starts(run, moves, s, 0, InsWant(OLD, false));
    run, moves := Inserts(run, moves, Both(Idle, Idle, map[], {}, {OLD}, {}), 0, OLD, false);
  }

  /** The old instance is registered, then its drop clears the flag. */
  lemma OldIsLeaving() returns (run: seq<State>, moves: seq<Move>)
    ensures IsRun(run, moves) && |run| == |moves| + 1
    ensures run[|moves|] == Both(Drop(OLD, WantSubs, [], None), Idle, map[NAME := OLD], {}, {OLD}, {OLD})
  {
    run, moves := OldIsThere();
    WaitingHoldsNothing(OLD);
    hide IsRun, Quiet, IsPrimary, Holds, CanMove;
    var s := Both(Idle, Idle, map[NAME := OLD], {OLD}, {OLD}, {OLD});
    BothQuiet(Idle, Idle, map[NAME := OLD], {OLD}, {OLD}, {OLD});
    run, moves := Starts(run, moves, s, 0, Drop(OLD, Check, [], None));
    run, moves := GoOn(run, moves, s, 0, Drop(OLD, Check, [], None));
    run, moves := GoOn(run, moves, s, 0, Drop(OLD, Clear, [], None));
  }

  lemma StartOf(s: State) returns (run: seq<State>, moves: seq<Move>)
    requires Init(s)
    ensures IsRun(run, moves) && |run| == |moves| + 1 && run[|moves|] == s
  {
    run, moves := [s], [];
  }

  /** Meanwhile the new instance takes the name over and is registered. */
  lemma NewHasArrived() returns (run: seq<State>, moves: seq<Move>)
    ensures EndsIn(run, moves,
      Both(Drop(OLD, WantSubs, [], None), Idle, map[NAME := NEW], {NEW}, {OLD, NEW}, {OLD, NEW}), 1, Idle)
  {
    PlainName();
    WaitingHoldsNothing(OLD);
    run, moves := OldIsLeaving();
    hide IsRun, Quiet, IsPrimary, Holds;
    var d := Drop(OLD, WantSubs, [], None);
    BothQuiet(d, Idle, map[NAME := OLD], {}, {OLD}, {OLD});
    run, moves := Starts(run, moves, Both(d, Idle, map[NAME := OLD], {}, {OLD}, {OLD}), 1, InsWant(NEW, true));
    run, moves := TakesOver(run, moves, Both(d, Idle, map[NAME := OLD], {}, {OLD, NEW}, {OLD}), 1, NEW);
    run, moves := Inserts(run, moves, Both(d, Idle, map[], {}, {OLD, NEW}, {OLD}), 1, NEW, false);
  }

  lemma EndsWithoutSecondaries(run: seq<State>, moves: seq<Move>, s: State, i: nat, c: Client)
    returns (run': seq<State>, moves': seq<Move>)
    requires EndsIn(run, moves, s, i, Drop(c, WantSecs, [], None)) && c !in s.secs
    ensures EndsIn(run', moves', s.(secs := s.secs[c := {}]), i, Idle)
  {
    hide EndsIn, IsPrimary, CanMove;
    run', moves' := GoOn(run, moves, s, i, Drop(c, WantSecs, [], None));
    assert [] + [Cascade(c, {})] == [Cascade(c, {})];
    run', moves' := LoopOn(run', moves', s, i, [Cascade(c, {})], None, Pick, []);
  }

  /** They can meet: the drop of an old instance, its flag cleared already, takes the newly registered instance
      of the name out of the map. In the end nothing is under way, and the new instance has its flag but is
      not in the map. */
  lemma NewcomerLost() returns (run: seq<State>, moves: seq<Move>)
    ensures IsRun(run, moves) && |run| == |moves| + 1
    ensures var end := run[|moves|];
      AllIdle(end) && NEW in end.flags && !Present(end, NEW) && end.clients == map[]
  {
    PlainName();
    WaitingHoldsNothing(OLD);
    run, moves := NewHasArrived();
    var d := Drop(OLD, WantSubs, [], None);
    var s := Both(d, Idle, map[NAME := NEW], {NEW}, {OLD, NEW}, {OLD, NEW});
    BothQuiet(d, Idle, map[NAME := NEW], {NEW}, {OLD, NEW}, {OLD, NEW});
    hide IsRun, Quiet, IsPrimary, Holds;
    assert run[|moves|] == s && s == s.(threads := s.threads[0 := d]);
    run, moves := RemovesByName(run, moves, s, 0, OLD, [], None);
    run, moves := EndsWithoutSecondaries(run, moves, s.(clients := s.clients - {NAME}), 0, OLD);
  }
}
