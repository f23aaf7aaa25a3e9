/** Waiting of one request type for another. The counter of the types does not move on when a request
    is found, so the type that was served last is served first, as long as it can be. */
module TypeTurns {
  import opened Prioritizer
  import opened Wrappers
  import opened Server

  /** The requests in a queue. */
  function Contents(q: Queue): set<Request> {
    set u, r | u in q.users && r in q.users[u] :: r
  }

  lemma ContentsQueued(qs: seq<Queue>, t: nat)
    requires ValidQueues(qs) && t < NREQTYPES
    ensures forall r :: r in Contents(qs[t]) <==> Queued(qs, r) && r.rtype == t
    ensures Contents(qs[t]) == {} <==> qs[t].users.Keys == {}
  {
    var q := qs[t];
    if u :| u in q.users {
      assert q.users[u][0] in q.users[u];
      assert q.users[u][0] in Contents(q);
    }
  }

  /** Serving takes one request out. */
  lemma DequeueContents(c: Config, s: State, t: nat)
    requires Inv(c, s) && t < NREQTYPES && s.queues[t].users.Keys != {}
    ensures var r := Serves(s.queues[t], Deq).value;
            r in Contents(s.queues[t]) && Contents(QStep(s.queues[t], Deq)) == Contents(s.queues[t]) - {r}
  {
    var r, qs' := Serves(s.queues[t], Deq).value, s.queues[t := QStep(s.queues[t], Deq)];
    DequeueKeeps(s.queues, t, s.store, s.flags);
    ContentsQueued(s.queues, t);
    ContentsQueued(qs', t);
    forall x | x in Contents(s.queues[t]) && x != r ensures Queued(qs', x) {
      DequeueOthers(s.queues, t, x);
    }
  }

  // ---------------------------------------------------------------------------
  // One round of handing out
  // ---------------------------------------------------------------------------

  function Room(c: Config, s: State): int {
    c.hard - |s.pool.busy|
  }

  /** How many requests of the type whose turn it is can be handed out: as many as are queued, and
      as there may be more handlers for it. */
  function Share(c: Config, s: State): int
    requires ValidConfig(c) && |s.pool.num| == |s.queues| == NREQTYPES && s.pool.turn < NREQTYPES
  {
    var t := s.pool.turn;
    var more: int := c.maxHandlers[t] as int - s.pool.num[t] as int;
    if |Contents(s.queues[t])| < more then |Contents(s.queues[t])| else more
  }

  /** No other type can be served. */
  ghost predicate Alone(c: Config, s: State)
    requires ValidConfig(c) && |s.pool.num| == |s.queues| == NREQTYPES
  {
    forall t :: 0 <= t < NREQTYPES && t != s.pool.turn ==> !CanServe(c, s.pool, s.queues, t)
  }

  /** Only requests of type t have been handed out. */
  ghost predicate OnlyServed(qs: seq<Queue>, qs': seq<Queue>, t: nat)
    requires |qs| == |qs'| == NREQTYPES
  {
    forall u :: 0 <= u < NREQTYPES && u != t ==> qs'[u] == qs[u]
  }

  lemma ShareOfTurn(c: Config, s: State)
    requires Inv(c, s)
    ensures Share(c, s) >= 0 && (Share(c, s) > 0 <==> CanServe(c, s.pool, s.queues, s.pool.turn))
  {
    ContentsQueued(s.queues, s.pool.turn);
  }

  /** A request of the type whose turn it is, handed out. */
  lemma HandOutTurn(c: Config, s: State)
    requires Inv(c, s) && !s.down && Room(c, s) > 0 && Share(c, s) > 0
    ensures CanServe(c, s.pool, s.queues, s.pool.turn) && Inv(c, HandOut(c, s, s.pool.turn))
    ensures var s' := HandOut(c, s, s.pool.turn);
            && s'.pool.turn == s.pool.turn && Room(c, s') == Room(c, s) - 1 && Share(c, s') == Share(c, s) - 1
            && OnlyServed(s.queues, s'.queues, s.pool.turn)
  {
    ShareOfTurn(c, s);
    HandOutKeeps(c, s, s.pool.turn);
    DequeueContents(c, s, s.pool.turn);
    HandOutPool(c, s, s.pool.turn);
  }

  lemma HandOutPool(c: Config, s: State, t: nat)
    requires ValidConfig(c) && ValidQueues(s.queues) && |s.pool.num| == NREQTYPES
    requires t < NREQTYPES && CanServe(c, s.pool, s.queues, t)
    ensures var s' := HandOut(c, s, t);
            && s'.pool.turn == t && |s'.pool.busy| == |s.pool.busy| + 1
            && s'.pool.num == s.pool.num[t := s.pool.num[t] + 1]
            && s'.queues == s.queues[t := QStep(s.queues[t], Deq)]
  {
    ServedType(s.queues[t], t);
  }

  lemma AloneAfter(c: Config, s: State)
    requires Inv(c, s) && CanServe(c, s.pool, s.queues, s.pool.turn)
    ensures Alone(c, s) <==> Alone(c, HandOut(c, s, s.pool.turn))
  {
    HandOutPool(c, s, s.pool.turn);
    var s' := HandOut(c, s, s.pool.turn);
    forall u | 0 <= u < NREQTYPES && u != s.pool.turn
      ensures CanServe(c, s.pool, s.queues, u) <==> CanServe(c, s'.pool, s'.queues, u)
    {
    }
  }

  /** With no more room than its share, the type whose turn it is takes it all. */
  lemma {:induction false} TurnTakesAll(c: Config, s: State)
    requires Inv(c, s) && !s.down && Room(c, s) <= Share(c, s)
    ensures Assign(c, s).pool.turn == s.pool.turn && OnlyServed(s.queues, Assign(c, s).queues, s.pool.turn)
    decreases Room(c, s)
  {
    if Room(c, s) > 0 {
      HandOutTurn(c, s);
      TurnTakesAll(c, HandOut(c, s, s.pool.turn));
    }
  }

  lemma {:induction false} AloneTakesAll(c: Config, s: State)
    requires Inv(c, s) && !s.down && Alone(c, s)
    ensures OnlyServed(s.queues, Assign(c, s).queues, s.pool.turn)
    decreases Room(c, s)
  {
    if Room(c, s) > 0 {
      ShareOfTurn(c, s);
      if Share(c, s) > 0 {
        HandOutTurn(c, s);
        AloneAfter(c, s);
        AloneTakesAll(c, HandOut(c, s, s.pool.turn));
      }
    }
  }

  lemma {:induction false} NoneComesIn(c: Config, s: State, u: nat)
    requires Inv(c, s) && !s.down && u < NREQTYPES
    ensures Contents(Assign(c, s).queues[u]) <= Contents(s.queues[u])
    decreases Room(c, s)
  {
    if Room(c, s) > 0 {
      var (t, found) := NextType(c, s.pool, s.queues, NREQTYPES);
      if found {
        HandOutKeeps(c, s, t);
        DequeueContents(c, s, t);
        NoneComesIn(c, HandOut(c, s, t), u);
      }
    }
  }

  /** With more room than that, another type that can be served is served. */
  lemma {:induction false} OtherIsServed(c: Config, s: State)
    requires Inv(c, s) && !s.down && Room(c, s) > Share(c, s) && !Alone(c, s)
    ensures !OnlyServed(s.queues, Assign(c, s).queues, s.pool.turn)
    decreases Room(c, s)
  {
    ShareOfTurn(c, s);
    if Share(c, s) > 0 {
      HandOutTurn(c, s);
      AloneAfter(c, s);
      OtherIsServed(c, HandOut(c, s, s.pool.turn));
    } else {
      var (t, found) := NextType(c, s.pool, s.queues, NREQTYPES);
      if !found {
        AllSaturatedOrEmpty(c, s.pool, s.queues);
      }
      assert found && t != s.pool.turn;
      HandOutKeeps(c, s, t);
      DequeueContents(c, s, t);
      NoneComesIn(c, HandOut(c, s, t), t);
    }
  }

  /** The exact condition: in one call of check() only the type whose turn it is gets handlers, if and
      only if there is no more room than its share, or no other type can be served anyway. */
  lemma OthersWait(c: Config, s: State)
    requires Inv(c, s) && !s.down
    ensures OnlyServed(s.queues, Assign(c, s).queues, s.pool.turn) <==> Room(c, s) <= Share(c, s) || Alone(c, s)
  {
    if Room(c, s) <= Share(c, s) {
      TurnTakesAll(c, s);
    } else if Alone(c, s) {
      AloneTakesAll(c, s);
    } else {
      OtherIsServed(c, s);
    }
  }

  /** For a type that may have all handlers that is: as many of it are queued as there is room for. */
  lemma GreedyType(c: Config, s: State)
    requires Inv(c, s) && c.maxHandlers[s.pool.turn] >= c.hard
    ensures Room(c, s) <= Share(c, s) <==> Room(c, s) <= |Contents(s.queues[s.pool.turn])|
  {
    CountAtMost(s.pool.busy, s.pool.turn);
  }

  // ---------------------------------------------------------------------------
  // Whole runs
  // ---------------------------------------------------------------------------

  /** In each call of check() there is no more room than the share of the type whose turn it is. */
  ghost predicate Hogged(c: Config, s: State, es: seq<Event>)
    requires Inv(c, s)
    decreases |es|
  {
    es == [] || (es[0].Tick? && Room(c, s) <= Share(c, s) && Hogged(c, Check(c, s, es[0].input), es[1..]))
  }

  /** Requests of other types in work were so before. */
  ghost predicate NoneOther(s: State, s': State, t: nat) {
    && s'.pool.turn == t && s'.down == s.down
    && forall r :: Attached(s'.pool.busy, r) && r.rtype != t ==> Attached(s.pool.busy, r)
  }

  lemma {:induction false} AssignOther(c: Config, s: State)
    requires Inv(c, s) && !s.down && Room(c, s) <= Share(c, s)
    ensures NoneOther(s, Assign(c, s), s.pool.turn)
    decreases Room(c, s)
  {
    if Room(c, s) > 0 {
      HandOutTurn(c, s);
      var s' := HandOut(c, s, s.pool.turn);
      AttachedByHandOut(c, s);
      AssignOther(c, s');
    }
  }

  lemma AttachedByHandOut(c: Config, s: State)
    requires Inv(c, s) && CanServe(c, s.pool, s.queues, s.pool.turn)
    ensures NoneOther(s, HandOut(c, s, s.pool.turn), s.pool.turn)
  {
    ServedType(s.queues[s.pool.turn], s.pool.turn);
    var b, b' := s.pool.busy, HandOut(c, s, s.pool.turn).pool.busy;
    forall r | Attached(b', r) && r.rtype != s.pool.turn ensures Attached(b, r) {
      var i :| 0 <= i < |b'| && b'[i].req == Some(r);
      assert i < |b| && b[i].req == Some(r);
    }
  }

  lemma ShedOther(c: Config, s: State)
    requires Inv(c, s)
    ensures NoneOther(s, s.(pool := Shed(c, s.pool)), s.pool.turn)
  {
    var b, b' := s.pool.busy, Shed(c, s.pool).busy;
    assert s.pool.free != [] ==> s.pool.free[0] in s.pool.free;
    forall r | Attached(b', r) ensures Attached(b, r) {
      var i :| 0 <= i < |b'| && b'[i].req == Some(r);
      assert i < |b| && b[i].req == Some(r);
    }
  }

  lemma {:induction false} DetachOther(c: Config, s: State, i: nat)
    requires Inv(c, s) && i <= |s.pool.busy|
    ensures NoneOther(s, Detach(c, s, i), s.pool.turn)
    decreases |s.pool.busy| - i
  {
    if i < |s.pool.busy| {
      DetachOneKeeps(c, s, i);
      DetachOneOther(c, s, i);
      var (s', i') := DetachOne(s, i);
      DetachOther(c, s', i');
    }
  }

  lemma DetachOneOther(c: Config, s: State, i: nat)
    requires Inv(c, s) && i < |s.pool.busy| && CountedAt(s.pool, i)
    ensures NoneOther(s, DetachOne(s, i).0, s.pool.turn)
  {
    var b, b' := s.pool.busy, DetachOne(s, i).0.pool.busy;
    ErasedNotAttached(b, i);
    forall r | Attached(b', r) ensures Attached(b, r) {
      if b' == b[i := Proc(None, true)] {
        var j :| 0 <= j < |b'| && b'[j].req == Some(r);
        assert b[j].req == Some(r);
      }
    }
  }

  lemma {:induction false} FeedOther(c: Config, s: State, i: nat, outs: seq<Outcome>)
    requires Inv(c, s) && Detached(s.pool.busy, s.flags, i)
    ensures NoneOther(s, Feed(s, i, outs), s.pool.turn)
    decreases |outs|
  {
    if i < |s.pool.busy| && outs != [] {
      FeedOneKeeps(c, s, i, outs[0]);
      ErasedNotAttached(s.pool.busy, i);
      var (s', next) := FeedOne(s, i, outs[0]);
      assert NoneOther(s, s', s.pool.turn);
      FeedOther(c, s', next, outs[1..]);
    }
  }

  lemma {:induction false} ClientsOther(s: State, es: seq<ClientEvent>)
    requires ValidQueues(s.queues)
    ensures Clients(s, es).pool == s.pool && Clients(s, es).down == s.down
    decreases |es|
  {
    if es != [] {
      ClientsOther(Client(s, es[0]), es[1..]);
    }
  }

  lemma CheckOther(c: Config, s: State, input: Input)
    requires Inv(c, s) && !s.down && Room(c, s) <= Share(c, s)
    ensures NoneOther(s, Check(c, s, input), s.pool.turn)
  {
    AssignKeeps(c, s);
    AssignOther(c, s);
    var s1 := Assign(c, s);
    ShedKeeps(c, s1);
    ShedOther(c, s1);
    DetachOther(c, s1.(pool := Shed(c, s1.pool)), 0);
    var s2 := BeforeSelect(c, s);
    BeforeSelectDetaches(c, s);
    if !input.interrupted {
      FeedOther(c, s2, 0, input.outs);
      HandlersCheckedKeeps(c, s2, input.outs, input.freeOuts);
      ClientsOther(HandlersChecked(s2, input.outs, input.freeOuts), input.clients);
    }
  }

  /** As long as that goes on, no request of another type is begun, however long it waits. */
  lemma {:induction false} OthersWaitOn(c: Config, s: State, es: seq<Event>)
    requires Inv(c, s) && !s.down && Hogged(c, s, es)
    ensures NoneOther(s, Run(c, s, es), s.pool.turn)
    decreases |es|
  {
    if es != [] {
      CheckOther(c, s, es[0].input);
      OthersWaitOn(c, Check(c, s, es[0].input), es[1..]);
    }
  }
}
