/** One thread running alone at lock granularity, all others holding nothing: whole operations, step by step. */
module SoloRuns {
  import opened Bytes
  import opened Names
  import opened Protocol
  import opened LockOrder

  const NOBODY := Client([], 0)

  /** The next move of one thread. */
  function Turn(i: nat): Move {
    Move(i, Idle, [], NOBODY)
  }

  lemma Go(run: seq<State>, moves: seq<Move>, m: Move) returns (run': seq<State>, moves': seq<Move>)
    requires IsRun(run, moves) && CanMove(run[|moves|], m)
    ensures IsRun(run', moves') && |run'| == |moves'| + 1 && run'[|moves'|] == Next(run[|moves|], m)
  {
    hide CanMove, Next, Init;
    run', moves' := run + [Next(run[|moves|], m)], moves + [m];
    forall k | 0 <= k < |moves'| ensures CanMove(run'[k], moves'[k]) && run'[k + 1] == Next(run'[k], moves'[k]) {
      if k < |moves| {
        assert run'[k] == run[k] && run'[k + 1] == run[k + 1] && moves'[k] == moves[k];
      }
    }
  }

  /** Nobody else holds anything. */
  ghost predicate Quiet(s: State, i: nat) {
    i in s.threads && forall j | j in s.threads && j != i :: Holds(s.threads[j]) == {}
  }

  lemma QuietCanMove(s: State, i: nat)
    requires Quiet(s, i) && !s.threads[i].Idle? && !s.threads[i].Loop? && !s.threads[i].ListHave?
    requires Wants(s.threads[i]).Some? ==> Wants(s.threads[i]).value !in Holds(s.threads[i])
    ensures CanMove(s, Turn(i)) && Quiet(Next(s, Turn(i)), i)
    ensures Next(s, Turn(i)).threads == s.threads[i := Goes(s, Turn(i))]
  {
    hide Holds, Wants, Goes, Changes;
  }

  /** The end of a run, and what thread `i` has there. */
  ghost predicate EndsIn(run: seq<State>, moves: seq<Move>, s: State, i: nat, t: Thread) {
    && IsRun(run, moves) && |run| == |moves| + 1 && Quiet(run[|moves|], i)
    && run[|moves|] == s.(threads := s.threads[i := t])
  }

  /** One more turn of a thread, all others holding nothing. */
  lemma GoOn(run: seq<State>, moves: seq<Move>, s: State, i: nat, t: Thread)
    returns (run': seq<State>, moves': seq<Move>)
    requires EndsIn(run, moves, s, i, t) && !t.Idle? && !t.Loop? && !t.ListHave?
    requires Wants(t).Some? ==> Wants(t).value !in Holds(t)
    ensures var s1 := s.(threads := s.threads[i := t]);
      && CanMove(s1, Turn(i))
      && EndsIn(run', moves', Changes(s1, Turn(i)).(threads := s.threads), i, Goes(s1, Turn(i)))
  {
    hide IsRun, Quiet, Holds, Wants, CanMove, Goes;
    var s1 := s.(threads := s.threads[i := t]);
    QuietCanMove(s1, i);
    ThreadsKept(s1, Turn(i));
    run', moves' := Go(run, moves, Turn(i));
    hide Changes;
    assert s1.threads[i := Goes(s1, Turn(i))] == s.threads[i := Goes(s1, Turn(i))];
  }

  lemma ThreadsKept(s: State, m: Move)
    requires CanMove(s, m)
    ensures Changes(s, m).threads == s.threads
  {
    hide Goes, Enabled;
  }

  lemma EntersFurther(run: seq<State>, moves: seq<Move>, s: State, i: nat, c: Client)
    returns (run': seq<State>, moves': seq<Move>)
    requires EndsIn(run, moves, s, i, InsHaveBcast(c))
    ensures EndsIn(run', moves', s, i, InsFlag(c))
  {
    hide EndsIn, IsPrimary, CanMove;
    run', moves' := GoOn(run, moves, s, i, InsHaveBcast(c));
    run', moves' := GoOn(run', moves', s, i, InsWantSubs(c));
    run', moves' := GoOn(run', moves', s, i, InsHaveSubs(c));
  }

  /** A primary, from start to end. */
  lemma Inserts(run: seq<State>, moves: seq<Move>, s: State, i: nat, c: Client, retry: bool)
    returns (run': seq<State>, moves': seq<Move>)
    requires EndsIn(run, moves, s, i, InsWant(c, retry)) && IsPrimary(c.name) && c.name !in s.clients
    ensures EndsIn(run', moves',
                   s.(clients := s.clients[c.name := c], flags := s.flags + {c}, flagged := s.flagged + {c}), i, Idle)
  {
    hide EndsIn, IsPrimary, CanMove;
    run', moves' := GoOn(run, moves, s, i, InsWant(c, retry));
    run', moves' := GoOn(run', moves', s, i, InsHave(c, retry));
    run', moves' := EntersMaps(run', moves', s, i, c);
  }

  /** A secondary is entered with its primary knowing it. */
  lemma InsertsSecondary(run: seq<State>, moves: seq<Move>, s: State, i: nat, c: Client, retry: bool)
    returns (run': seq<State>, moves': seq<Move>)
    requires EndsIn(run, moves, s, i, InsWant(c, retry)) && !IsPrimary(c.name) && c.name !in s.clients
    requires PrimaryOf(c.name) in s.clients
    ensures var p := s.clients[PrimaryOf(c.name)];
      EndsIn(run', moves',
             s.(clients := s.clients[c.name := c], flags := s.flags + {c}, flagged := s.flagged + {c},
                secs := s.secs[p := SecsOf(s, p) + {c.name}]), i, Idle)
  {
    hide EndsIn, IsPrimary, PrimaryOf, CanMove;
    var p := s.clients[PrimaryOf(c.name)];
    run', moves' := GoOn(run, moves, s, i, InsWant(c, retry));
    run', moves' := GoOn(run', moves', s, i, InsHave(c, retry));
    run', moves' := GoOn(run', moves', s, i, InsWantSecs(c, p));
    run', moves' := GoOn(run', moves', s, i, InsHaveSecs(c, p));
    var t := s.(secs := s.secs[p := SecsOf(s, p) + {c.name}]);
    run', moves' := EntersMaps(run', moves', t, i, c);
  }

  lemma EntersMaps(run: seq<State>, moves: seq<Move>, s: State, i: nat, c: Client)
    returns (run': seq<State>, moves': seq<Move>)
    requires EndsIn(run, moves, s, i, InsWantBcast(c))
    ensures EndsIn(run', moves',
                   s.(clients := s.clients[c.name := c], flags := s.flags + {c}, flagged := s.flagged + {c}), i, Idle)
  {
    hide EndsIn, IsPrimary, CanMove;
    run', moves' := GoOn(run, moves, s, i, InsWantBcast(c));
    run', moves' := EntersFurther(run', moves', s, i, c);
    run', moves' := GoOn(run', moves', s, i, InsFlag(c));
    run', moves' := GoOn(run', moves', s.(flags := s.flags + {c}, flagged := s.flagged + {c}), i, InsPut(c));
  }

  /** The owners' locks are locks of `secondaries`. */
  lemma OwnersOnly(stack: seq<Cascade>)
    ensures forall l | l in OwnerLocks(stack) :: l.Secondaries?
  {
  }

  /** A drop past the clearing of the flag takes the name out, whoever has it now. */
  lemma RemovesByName(
    run: seq<State>, moves: seq<Move>, s: State, i: nat, c: Client, stack: seq<Cascade>, next: Option<Client>)
    returns (run': seq<State>, moves': seq<Move>)
    requires EndsIn(run, moves, s, i, Drop(c, WantSubs, stack, next))
    ensures EndsIn(run', moves', s.(clients := s.clients - {c.name}), i,
                   Drop(c, if IsPrimary(c.name) then WantSecs else WantParent, stack, next))
  {
    OwnersOnly(stack);
    run', moves' := ReachesClients(run, moves, s, i, c, stack, next);
    hide EndsIn, IsPrimary, CanMove, OwnerLocks;
    run', moves' := GoOn(run', moves', s, i, Drop(c, WantClients, stack, next));
    run', moves' := GoOn(run', moves', s, i, Drop(c, HaveClients, stack, next));
  }

  lemma ReachesClients(
    run: seq<State>, moves: seq<Move>, s: State, i: nat, c: Client, stack: seq<Cascade>, next: Option<Client>)
    returns (run': seq<State>, moves': seq<Move>)
    requires EndsIn(run, moves, s, i, Drop(c, WantSubs, stack, next))
    ensures EndsIn(run', moves', s, i, Drop(c, WantClients, stack, next))
  {
    OwnersOnly(stack);
    hide EndsIn, IsPrimary, CanMove, OwnerLocks;
    run', moves' := GoOn(run, moves, s, i, Drop(c, WantSubs, stack, next));
    run', moves' := GoOn(run', moves', s, i, Drop(c, HaveSubs, stack, next));
    run', moves' := GoOn(run', moves', s, i, Drop(c, WantBcast, stack, next));
    run', moves' := GoOn(run', moves', s, i, Drop(c, HaveBcast, stack, next));
  }

  /** A registered object loses its flag and its name. */
  lemma TakesOut(
    run: seq<State>, moves: seq<Move>, s: State, i: nat, c: Client, stack: seq<Cascade>, next: Option<Client>)
    returns (run': seq<State>, moves': seq<Move>)
    requires EndsIn(run, moves, s, i, Drop(c, Check, stack, next)) && c in s.flags
    ensures EndsIn(run', moves', s.(flags := s.flags - {c}, clients := s.clients - {c.name}), i,
                   Drop(c, if IsPrimary(c.name) then WantSecs else WantParent, stack, next))
  {
    hide EndsIn, IsPrimary, CanMove, OwnerLocks;
    run', moves' := GoOn(run, moves, s, i, Drop(c, Check, stack, next));
    run', moves' := GoOn(run', moves', s, i, Drop(c, Clear, stack, next));
    run', moves' := RemovesByName(run', moves', s.(flags := s.flags - {c}), i, c, stack, next);
  }

  /** What is left of the names a primary knows when one of its secondaries has gone. */
  function Forgotten(s: State, c: Client): map<Client, set<Text>> {
    if PrimaryOf(c.name) in s.clients then
      var p := s.clients[PrimaryOf(c.name)];
      s.secs[p := SecsOf(s, p) - {c.name}]
    else s.secs
  }

  /** A secondary is dropped and forgotten by its primary, if that is there. */
  lemma DropsSecondary(
    run: seq<State>, moves: seq<Move>, s: State, i: nat, c: Client, stack: seq<Cascade>, next: Option<Client>)
    returns (run': seq<State>, moves': seq<Move>)
    requires EndsIn(run, moves, s, i, Drop(c, Check, stack, next)) && c in s.flags && !IsPrimary(c.name)
    requires stack == [] || PrimaryOf(c.name) !in s.clients
    ensures var t := s.(flags := s.flags - {c}, clients := s.clients - {c.name});
      EndsIn(run', moves', t.(secs := Forgotten(t, c)), i, Return(stack, next))
  {
    hide EndsIn, IsPrimary, PrimaryOf, Return;
    run', moves' := TakesOut(run, moves, s, i, c, stack, next);
    var t := s.(flags := s.flags - {c}, clients := s.clients - {c.name});
    run', moves' := LooksForParent(run', moves', t, i, c, stack, next);
    if PrimaryOf(c.name) in t.clients {
      run', moves' := LeavesParent(run', moves', t, i, c, next);
    } else {
      run', moves' := FindsNoParent(run', moves', t, i, c, stack, next);
    }
  }

  lemma LooksForParent(
    run: seq<State>, moves: seq<Move>, t: State, i: nat, c: Client, stack: seq<Cascade>, next: Option<Client>)
    returns (run': seq<State>, moves': seq<Move>)
    requires EndsIn(run, moves, t, i, Drop(c, WantParent, stack, next))
    ensures EndsIn(run', moves', t, i, Drop(c, HaveParent, stack, next))
  {
    OwnersOnly(stack);
    hide EndsIn, IsPrimary, CanMove, OwnerLocks, PrimaryOf;
    run', moves' := GoOn(run, moves, t, i, Drop(c, WantParent, stack, next));
  }

  lemma FindsNoParent(
    run: seq<State>, moves: seq<Move>, t: State, i: nat, c: Client, stack: seq<Cascade>, next: Option<Client>)
    returns (run': seq<State>, moves': seq<Move>)
    requires EndsIn(run, moves, t, i, Drop(c, HaveParent, stack, next)) && PrimaryOf(c.name) !in t.clients
    ensures EndsIn(run', moves', t, i, Return(stack, next))
  {
    hide EndsIn, IsPrimary, CanMove, OwnerLocks, PrimaryOf, Return;
    run', moves' := GoOn(run, moves, t, i, Drop(c, HaveParent, stack, next));
  }

  lemma LeavesParent(run: seq<State>, moves: seq<Move>, t: State, i: nat, c: Client, next: Option<Client>)
    returns (run': seq<State>, moves': seq<Move>)
    requires EndsIn(run, moves, t, i, Drop(c, HaveParent, [], next)) && PrimaryOf(c.name) in t.clients
    ensures EndsIn(run', moves', t.(secs := Forgotten(t, c)), i, Return([], next))
  {
    hide EndsIn, IsPrimary, CanMove, PrimaryOf;
    var p := t.clients[PrimaryOf(c.name)];
    run', moves' := GoOn(run, moves, t, i, Drop(c, HaveParent, [], next));
    run', moves' := GoOn(run', moves', t, i, Drop(c, WantParentSecs(p), [], next));
    run', moves' := GoOn(run', moves', t, i, Drop(c, HaveParentSecs(p), [], next));
  }

  /** One turn of a cascade loop. */
  lemma LoopOn(
    run: seq<State>, moves: seq<Move>, s: State, i: nat, stack: seq<Cascade>, next: Option<Client>, turn: LoopAt,
    n: Text)
    returns (run': seq<State>, moves': seq<Move>)
    requires EndsIn(run, moves, s, i, Loop(stack, next, turn)) && stack != []
    requires turn.Pick? && Top(stack).todo != {} ==> n in Top(stack).todo
    ensures EndsIn(run', moves',
                   if turn.Pick? && Top(stack).todo == {} then s.(secs := s.secs[Top(stack).owner := {}]) else s,
                   i, LoopGoes(s, stack, next, turn, n))
  {
    OwnersOnly(stack);
    hide IsRun, IsPrimary, OwnerLocks, Top, Below;
    var s1, m := run[|moves|], Move(i, Idle, n, NOBODY);
    LoopGoesBy(s, s1, stack, next, turn, n);
    run', moves' := Go(run, moves, m);
    hide LoopGoes;
    assert s1.threads[i := LoopGoes(s, stack, next, turn, n)] == s.threads[i := LoopGoes(s, stack, next, turn, n)];
  }

  /** Where a loop goes depends on the map alone. */
  lemma LoopGoesBy(s: State, s1: State, stack: seq<Cascade>, next: Option<Client>, turn: LoopAt, n: Text)
    requires stack != [] && s1.clients == s.clients
    ensures LoopGoes(s1, stack, next, turn, n) == LoopGoes(s, stack, next, turn, n)
  {
  }

  /** The objects found under some names. */
  function Found(s: State, names: set<Text>): set<Client> {
    set n | n in names && n in s.clients :: s.clients[n]
  }

  /** Names the loop may meet: of secondaries of `p`, found, if at all, with their flags. */
  predicate Cascading(s: State, p: Client, todo: set<Text>) {
    && (forall n | n in todo :: !IsPrimary(n) && PrimaryOf(n) == p.name)
    && forall n | n in todo && n in s.clients :: s.clients[n].name == n && s.clients[n] in s.flags
  }

  /** The cascade drops everybody found under the names of the primary's secondaries. */
  lemma {:induction false} CascadeRuns(
    run: seq<State>, moves: seq<Move>, s: State, i: nat, p: Client, todo: set<Text>, next: Option<Client>)
    returns (run': seq<State>, moves': seq<Move>)
    requires EndsIn(run, moves, s, i, Loop([Cascade(p, todo)], next, Pick))
    requires p.name !in s.clients && Cascading(s, p, todo)
    ensures EndsIn(run', moves',
                   s.(clients := s.clients - todo, flags := s.flags - Found(s, todo), secs := s.secs[p := {}]), i,
                   Return([], next))
    decreases |todo|
  {
    hide EndsIn, IsPrimary, PrimaryOf;
    var stack := [Cascade(p, todo)];
    if todo == {} {
      run', moves' := LoopOn(run, moves, s, i, stack, next, Pick, []);
      assert s.clients - todo == s.clients && s.flags - Found(s, todo) == s.flags && Below(stack) == [];
    } else {
      var n :| n in todo;
      run', moves' := LoopOn(run, moves, s, i, stack, next, Pick, n);
      run', moves' := LoopOn(run', moves', s, i, stack, next, WantGet(n), n);
      run', moves' := LoopOn(run', moves', s, i, stack, next, HaveGet(n), n);
      var rest := [Cascade(p, todo - {n})];
      assert Below(stack) + rest == rest;
      run', moves' := DropsFound(run', moves', s, i, p, todo, n, next);
      var t := s.(clients := s.clients - {n}, flags := s.flags - Found(s, {n}));
      OneLess(s, p, todo, n);
      run', moves' := CascadeRuns(run', moves', t, i, p, todo - {n}, next);
    }
  }

  lemma DropsFound(
    run: seq<State>, moves: seq<Move>, s: State, i: nat, p: Client, todo: set<Text>, n: Text, next: Option<Client>)
    returns (run': seq<State>, moves': seq<Move>)
    requires p.name !in s.clients && Cascading(s, p, todo) && n in todo
    requires var rest := [Cascade(p, todo - {n})];
      EndsIn(run, moves, s, i,
             if n in s.clients then Drop(s.clients[n], Check, rest, next) else Loop(rest, next, Pick))
    ensures EndsIn(run', moves', s.(clients := s.clients - {n}, flags := s.flags - Found(s, {n})), i,
                   Loop([Cascade(p, todo - {n})], next, Pick))
  {
    hide EndsIn, IsPrimary, PrimaryOf;
    run', moves' := run, moves;
    if n in s.clients {
      assert Found(s, {n}) == {s.clients[n]};
      run', moves' := DropsSecondary(run, moves, s, i, s.clients[n], [Cascade(p, todo - {n})], next);
    } else {
      assert Found(s, {n}) == {} && s.clients - {n} == s.clients && s.flags - {} == s.flags;
    }
  }

  lemma OneLess(s: State, p: Client, todo: set<Text>, n: Text)
    requires n in todo && Cascading(s, p, todo)
    ensures var t := s.(clients := s.clients - {n}, flags := s.flags - Found(s, {n}));
      && Cascading(t, p, todo - {n})
      && t.clients - (todo - {n}) == s.clients - todo
      && t.flags - Found(t, todo - {n}) == s.flags - Found(s, todo)
  {
    hide IsPrimary, PrimaryOf;
    var t := s.(clients := s.clients - {n}, flags := s.flags - Found(s, {n}));
    forall x ensures x in Found(s, todo) <==> x in Found(s, {n}) || x in Found(t, todo - {n}) {
      if x in Found(s, todo) {
        var k :| k in todo && k in s.clients && s.clients[k] == x;
        assert k == n || (k in todo - {n} && k in t.clients && t.clients[k] == x);
      }
      if x in Found(t, todo - {n}) {
        var k :| k in todo - {n} && k in t.clients && t.clients[k] == x;
        assert k in todo && k in s.clients && s.clients[k] == x;
      }
    }
  }

  /** What dropping an object comes to when nobody interferes: nothing without its flag; else it is gone, and for a
      primary everybody it knows, and for a secondary its primary has forgotten it. */
  function DroppedAlone(s: State, c: Client): State {
    if c !in s.flags then s
    else if IsPrimary(c.name) then
      s.(clients := s.clients - {c.name} - SecsOf(s, c), flags := s.flags - {c} - Found(s, SecsOf(s, c)),
         secs := s.secs[c := {}])
    else
      var t := s.(flags := s.flags - {c}, clients := s.clients - {c.name});
      t.(secs := Forgotten(t, c))
  }

  lemma DropsAlone(run: seq<State>, moves: seq<Move>, s: State, i: nat, c: Client, next: Option<Client>)
    returns (run': seq<State>, moves': seq<Move>)
    requires EndsIn(run, moves, s, i, Drop(c, Check, [], next)) && Cascading(s, c, SecsOf(s, c))
    ensures EndsIn(run', moves', DroppedAlone(s, c), i, Return([], next))
  {
    hide EndsIn, PrimaryOf, CanMove, Cascading;
    if c !in s.flags {
      run', moves' := GoOn(run, moves, s, i, Drop(c, Check, [], next));
    } else if IsPrimary(c.name) {
      run', moves' := TakesOut(run, moves, s, i, c, [], next);
      run', moves' := Cascades(run', moves', s, i, c, next);
    } else {
      run', moves' := DropsSecondary(run, moves, s, i, c, [], next);
    }
  }

  lemma Cascades(run: seq<State>, moves: seq<Move>, s: State, i: nat, c: Client, next: Option<Client>)
    returns (run': seq<State>, moves': seq<Move>)
    requires IsPrimary(c.name) && Cascading(s, c, SecsOf(s, c)) && c in s.flags
    requires EndsIn(run, moves, s.(flags := s.flags - {c}, clients := s.clients - {c.name}), i,
                    Drop(c, WantSecs, [], next))
    ensures EndsIn(run', moves', DroppedAlone(s, c), i, Return([], next))
  {
    var t, todo := s.(flags := s.flags - {c}, clients := s.clients - {c.name}), SecsOf(s, c);
    assert c.name !in todo;
    hide EndsIn, PrimaryOf, IsPrimary, CanMove;
    assert Cascading(t, c, todo) && Found(t, todo) == Found(s, todo);
    run', moves' := GoOn(run, moves, t, i, Drop(c, WantSecs, [], next));
    assert [] + [Cascade(c, todo)] == [Cascade(c, todo)];
    run', moves' := CascadeRuns(run', moves', t, i, c, todo, next);
  }

  /** A forced registration takes the instance of the name out of the map, drops it, and goes on to insert. */
  lemma TakesOver(run: seq<State>, moves: seq<Move>, s: State, i: nat, c: Client)
    returns (run': seq<State>, moves': seq<Move>)
    requires EndsIn(run, moves, s, i, InsWant(c, true)) && c.name in s.clients
    requires IsPrimary(c.name) || PrimaryOf(c.name) in s.clients
    requires var prev := s.clients[c.name]; Cascading(s.(clients := s.clients - {c.name}), prev, SecsOf(s, prev))
    ensures EndsIn(run', moves', DroppedAlone(s.(clients := s.clients - {c.name}), s.clients[c.name]), i,
                   InsWant(c, false))
  {
    run', moves' := FindsBusy(run, moves, s, i, c);
    hide EndsIn, IsPrimary, PrimaryOf, CanMove, Cascading, DroppedAlone;
    run', moves' := GoOn(run', moves', s, i, EvictHave(c));
    var rest := s.(clients := s.clients - {c.name});
    run', moves' := DropsAlone(run', moves', rest, i, s.clients[c.name], Some(c));
  }

  lemma FindsBusy(run: seq<State>, moves: seq<Move>, s: State, i: nat, c: Client)
    returns (run': seq<State>, moves': seq<Move>)
    requires EndsIn(run, moves, s, i, InsWant(c, true)) && c.name in s.clients
    requires IsPrimary(c.name) || PrimaryOf(c.name) in s.clients
    ensures EndsIn(run', moves', s, i, EvictHave(c))
  {
    hide EndsIn, IsPrimary, PrimaryOf, CanMove;
    run', moves' := GoOn(run, moves, s, i, InsWant(c, true));
    run', moves' := GoOn(run', moves', s, i, InsHave(c, true));
    run', moves' := GoOn(run', moves', s, i, EvictWant(c));
  }

  lemma Starts(run: seq<State>, moves: seq<Move>, s: State, i: nat, t: Thread)
    returns (run': seq<State>, moves': seq<Move>)
    requires IsRun(run, moves) && |run| == |moves| + 1 && run[|moves|] == s && Quiet(s, i)
    requires s.threads[i].Idle? && MayStart(s, t)
    ensures EndsIn(run', moves', if t.InsWant? then s.(started := s.started + {t.c}) else s, i, t)
  {
    hide IsRun, MayStart;
    run', moves' := Go(run, moves, Move(i, t, [], NOBODY));
  }
}
