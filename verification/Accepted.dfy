/** No accepted request gets lost: while the server is not going down, what is neither finished nor
    purged is queued or in work, and when it goes down, what is unfinished comes back into the queue
    of the next life. */
module Accepted {
  import opened Prioritizer
  import opened Wrappers
  import opened Server
  import opened Restart

  /** The request is queued or in work; a finished one that is queued has its file. */
  ghost predicate Held(s: State, r: Request) {
    && r !in s.flags.zombie
    && (Attached(s.pool.busy, r) || (Queued(s.queues, r) && (r in s.flags.ready ==> r.id in s.store.disk)))
  }

  ghost predicate NoneLost(s: State) {
    !s.down ==> forall r :: Live(s.store, r) ==> Held(s, r)
  }

  // ---------------------------------------------------------------------------
  // Queues and handlers
  // ---------------------------------------------------------------------------

  lemma DropQueuedOthers(qs: seq<Queue>, r: Request, x: Request)
    requires ValidQueues(qs) && Queued(qs, x) && x != r
    ensures Queued(DropQueued(qs, r), x)
  {
    if r.rtype < NREQTYPES && x.rtype == r.rtype {
      StepOfUser(qs[r.rtype], Del(r), x.user);
      if r in Requests(qs[r.rtype], x.user) {
        DropOthers(Requests(qs[r.rtype], x.user), r, x);
      }
    }
  }

  /** Erasing a handler, or taking its request away, leaves the requests of the others. */
  lemma OthersAttached(hs: seq<Proc>, i: nat, x: Request)
    requires i < |hs| && Attached(hs, x) && hs[i].req != Some(x)
    ensures Attached(Erase(hs, i), x) && Attached(hs[i := Proc(None, true)], x)
  {
    var j :| 0 <= j < |hs| && hs[j].req == Some(x);
    assert Erase(hs, i)[if j < i then j else j - 1].req == Some(x);
    assert hs[i := Proc(None, true)][j].req == Some(x);
  }

  // ---------------------------------------------------------------------------
  // What every step keeps
  // ---------------------------------------------------------------------------

  lemma HandOutLoses(c: Config, s: State, t: nat)
    requires Inv(c, s) && NoneLost(s) && !s.down && |s.pool.busy| < c.hard
    requires t < NREQTYPES && CanServe(c, s.pool, s.queues, t)
    ensures NoneLost(HandOut(c, s, t))
  {
    var s' := HandOut(c, s, t);
    var r := Serves(s.queues[t], Deq).value;
    DequeueKeeps(s.queues, t, s.store, s.flags);
    AttachKeepsWork(s.pool.(turn := t), r, s'.queues, s.store, s.flags);
    forall x | Live(s'.store, x) ensures Held(s', x) {
      assert Held(s, x);
      if x != r && !Attached(s.pool.busy, x) {
        DequeueOthers(s.queues, t, x);
      }
    }
  }

  lemma {:induction false} AssignLoses(c: Config, s: State)
    requires Inv(c, s) && NoneLost(s) && !s.down
    ensures NoneLost(Assign(c, s))
    decreases c.hard - |s.pool.busy|
  {
    if |s.pool.busy| < c.hard {
      var (t, found) := NextType(c, s.pool, s.queues, NREQTYPES);
      if found {
        HandOutKeeps(c, s, t);
        HandOutLoses(c, s, t);
        AssignLoses(c, HandOut(c, s, t));
      } else {
        SameHeld(s, s.(pool := s.pool.(turn := t)));
      }
    }
  }

  /** Nothing that matters is changed. */
  lemma SameHeld(s: State, s': State)
    requires NoneLost(s) && s'.store == s.store && s'.flags == s.flags && s'.queues == s.queues && s'.down == s.down
    requires forall x :: Attached(s.pool.busy, x) ==> Attached(s'.pool.busy, x)
    ensures NoneLost(s')
  {
    forall x | !s.down && Live(s.store, x) ensures Held(s', x) {
      assert Held(s, x);
    }
  }

  lemma ShedLoses(c: Config, s: State)
    requires NoneLost(s)
    ensures NoneLost(s.(pool := Shed(c, s.pool)))
  {
    var p, p' := s.pool, Shed(c, s.pool);
    forall x | Attached(p.busy, x) ensures Attached(p'.busy, x) {
      var i :| 0 <= i < |p.busy| && p.busy[i].req == Some(x);
      assert p'.busy[i].req == Some(x);
    }
    SameHeld(s, s.(pool := p'));
  }

  lemma DetachOneLoses(c: Config, s: State, i: nat)
    requires Inv(c, s) && NoneLost(s) && i < |s.pool.busy| && CountedAt(s.pool, i)
    ensures NoneLost(DetachOne(s, i).0)
  {
    var s', h := DetachOne(s, i).0, s.pool.busy[i];
    if h.req.Some? {
      assert Attached(s.pool.busy, h.req.value);
    }
    forall x | !s.down && Live(s'.store, x) ensures Held(s', x) {
      assert Live(s.store, x) && Held(s, x);
      if Attached(s.pool.busy, x) && h.req != Some(x) {
        OthersAttached(s.pool.busy, i, x);
      }
    }
  }

  lemma {:induction false} DetachLoses(c: Config, s: State, i: nat)
    requires Inv(c, s) && NoneLost(s) && i <= |s.pool.busy|
    ensures NoneLost(Detach(c, s, i))
    decreases |s.pool.busy| - i
  {
    if i < |s.pool.busy| {
      DetachOneKeeps(c, s, i);
      DetachOneLoses(c, s, i);
      var (s', i') := DetachOne(s, i);
      DetachLoses(c, s', i');
    }
  }

  lemma RespondLoses(c: Config, s: State, i: nat, o: Outcome)
    requires Inv(c, s) && NoneLost(s) && i < |s.pool.busy|
    ensures NoneLost(Respond(s, s.pool.busy[i], o))
  {
    var s', h := Respond(s, s.pool.busy[i], o), s.pool.busy[i];
    if h.req.Some? {
      assert Attached(s.pool.busy, h.req.value);
    }
    forall x | !s.down && Live(s'.store, x) ensures Held(s', x) {
      assert Held(s, x);
    }
  }

  lemma FeedOneLoses(c: Config, s: State, i: nat, o: Outcome)
    requires Inv(c, s) && NoneLost(s) && i < |s.pool.busy| && Detached(s.pool.busy, s.flags, i)
    ensures NoneLost(FeedOne(s, i, o).0)
  {
    var s1 := Respond(s, s.pool.busy[i], o);
    RespondKeeps(c, s, i, o);
    RespondLoses(c, s, i, o);
    if o.gone && s.pool.busy[i].down {
      forall x | Attached(s1.pool.busy, x) ensures Attached(RemoveBusy(s1, i).pool.busy, x) {
        OthersAttached(s1.pool.busy, i, x);
      }
      SameHeld(s1, RemoveBusy(s1, i));
    }
  }

  lemma {:induction false} FeedLoses(c: Config, s: State, i: nat, outs: seq<Outcome>)
    requires Inv(c, s) && NoneLost(s) && Detached(s.pool.busy, s.flags, i)
    ensures NoneLost(Feed(s, i, outs))
    decreases |outs|
  {
    if i < |s.pool.busy| && outs != [] {
      FeedOneKeeps(c, s, i, outs[0]);
      FeedOneLoses(c, s, i, outs[0]);
      var (s', next) := FeedOne(s, i, outs[0]);
      FeedLoses(c, s', next, outs[1..]);
    }
  }

  lemma KillLoses(c: Config, s: State, id: nat)
    requires Inv(c, s) && NoneLost(s) && id in s.store.mem && id in s.store.infos
    ensures NoneLost(Kill(s, id))
  {
    var s', r := Kill(s, id), s.store.mem[id];
    forall x | !s.down && Live(s'.store, x) ensures Held(s', x) {
      assert Live(s.store, x) && x != r && Held(s, x);
      if Queued(s.queues, x) {
        DropQueuedOthers(s.queues, r, x);
      }
    }
  }

  lemma LoadThenKillLoses(c: Config, s: State, id: nat)
    requires Inv(c, s) && NoneLost(s) && id in s.store.infos && id in Load(s.store, id).mem
    ensures NoneLost(Kill(s.(store := Load(s.store, id)), id))
  {
    LoadKeeps(c, s, id);
    LoadLoses(c, s, id);
    KillLoses(c, s.(store := Load(s.store, id)), id);
  }

  lemma PurgeLoses(c: Config, s: State, id: nat, user: User)
    requires Inv(c, s) && NoneLost(s)
    ensures NoneLost(Client(s, PurgeRequest(id, user)))
  {
    if MayAccess(s.store, id, user) {
      if id in Load(s.store, id).mem {
        LoadThenKillLoses(c, s, id);
      } else {
        ForgetLoses(s, id);
      }
    }
  }

  lemma LoadLoses(c: Config, s: State, id: nat)
    requires Inv(c, s) && NoneLost(s) && id in s.store.infos
    ensures NoneLost(s.(store := Load(s.store, id)))
  {
    var s' := s.(store := Load(s.store, id));
    forall x | !s.down && Live(s'.store, x) ensures Held(s', x) {
      assert Live(s.store, x) && Held(s, x);
    }
  }

  lemma ForgetLoses(s: State, id: nat)
    requires NoneLost(s)
    ensures NoneLost(s.(store := s.store.(infos := s.store.infos - {id})))
  {
    var s' := s.(store := s.store.(infos := s.store.infos - {id}));
    forall x | !s.down && Live(s'.store, x) ensures Held(s', x) {
      assert Live(s.store, x) && Held(s, x);
    }
  }

  lemma TouchLoses(s: State, id: nat, now: nat)
    requires NoneLost(s) && id in s.store.infos
    ensures NoneLost(s.(store := s.store.(infos := s.store.infos[id := s.store.infos[id].(timestamp := now)])))
  {
    var s' := s.(store := s.store.(infos := s.store.infos[id := s.store.infos[id].(timestamp := now)]));
    forall x | !s.down && Live(s'.store, x) ensures Held(s', x) {
      assert Live(s.store, x) && Held(s, x);
    }
  }

  lemma QueueLoses(c: Config, s: State, r: Request, now: nat)
    requires Inv(c, s) && NoneLost(s) && r in s.store.pending
    ensures NoneLost(Client(s, QueueRequest(r, true, now)))
  {
    var s' := Client(s, QueueRequest(r, true, now));
    AcceptedIsLive(c, s, r, now);
    EnqueueKeeps(s.queues, r);
    forall x | !s.down && Live(s'.store, x) ensures Held(s', x) {
      if x != r {
        assert Live(s.store, x) && Held(s, x);
      }
    }
  }

  lemma PendingLoses(s: State, pending: set<Request>, count: nat)
    requires NoneLost(s)
    ensures NoneLost(s.(store := s.store.(pending := pending, count := count)))
  {
    var s' := s.(store := s.store.(pending := pending, count := count));
    forall x | !s.down && Live(s'.store, x) ensures Held(s', x) {
      assert Live(s.store, x) && Held(s, x);
    }
  }

  lemma FindLoses(c: Config, s: State, id: nat, user: User, now: nat)
    requires Inv(c, s) && NoneLost(s)
    ensures NoneLost(Client(s, FindRequest(id, user, now)))
  {
    if MayAccess(s.store, id, user) {
      TouchLoses(s, id, now);
      TouchKeeps(c, s, id, now);
      LoadLoses(c, s.(store := s.store.(infos := s.store.infos[id := s.store.infos[id].(timestamp := now)])), id);
    }
  }

  lemma ClientLoses(c: Config, s: State, e: ClientEvent)
    requires Inv(c, s) && NoneLost(s)
    ensures NoneLost(Client(s, e))
  {
    match e
    case NewRequest(user, rtype) =>
      PendingLoses(s, s.store.pending + {Request(s.store.count, user, rtype)}, s.store.count + 1);
    case QueueRequest(r, accepted, now) =>
      if r in s.store.pending && accepted {
        QueueLoses(c, s, r, now);
      } else {
        PendingLoses(s, s.store.pending - {r}, s.store.count);
      }
    case Abandon(r) => PendingLoses(s, s.store.pending - {r}, s.store.count);
    case FindRequest(id, user, now) => FindLoses(c, s, id, user, now);
    case PurgeRequest(id, user) => PurgeLoses(c, s, id, user);
  }

  lemma {:induction false} ClientsLose(c: Config, s: State, es: seq<ClientEvent>)
    requires Inv(c, s) && NoneLost(s)
    ensures NoneLost(Clients(s, es))
    decreases |es|
  {
    if es != [] {
      ClientKeeps(c, s, es[0]);
      ClientLoses(c, s, es[0]);
      ClientsLose(c, Client(s, es[0]), es[1..]);
    }
  }

  lemma CleanUpLoses(c: Config, s: State, now: nat)
    requires Inv(c, s) && NoneLost(s)
    ensures NoneLost(CleanUp(c, s, now))
  {
    var s' := CleanUp(c, s, now);
    forall x | !s.down && Live(s'.store, x) ensures Held(s', x) {
      assert Live(s.store, x) && Held(s, x);
      CleanerSparesLive(c, s, now, x);
    }
  }

  lemma BeforeSelectLoses(c: Config, s: State)
    requires Inv(c, s) && NoneLost(s)
    ensures NoneLost(BeforeSelect(c, s))
  {
    var s1 := s;
    if !s.down {
      AssignKeeps(c, s);
      AssignLoses(c, s);
      s1 := Assign(c, s);
    }
    ShedKeeps(c, s1);
    ShedLoses(c, s1);
    DetachLoses(c, s1.(pool := Shed(c, s1.pool)), 0);
  }

  lemma HandlersCheckedLose(c: Config, s: State, outs: seq<Outcome>, freeOuts: seq<Outcome>)
    requires Inv(c, s) && NoneLost(s) && Detached(s.pool.busy, s.flags, 0)
    ensures NoneLost(HandlersChecked(s, outs, freeOuts))
  {
    FeedLoses(c, s, 0, outs);
    SameHeld(Feed(s, 0, outs), HandlersChecked(s, outs, freeOuts));
  }

  lemma CheckLoses(c: Config, s: State, input: Input)
    requires Inv(c, s) && NoneLost(s)
    ensures NoneLost(Check(c, s, input))
  {
    var s1 := BeforeSelect(c, s);
    BeforeSelectLoses(c, s);
    BeforeSelectDetaches(c, s);
    if !input.interrupted {
      HandlersCheckedKeeps(c, s1, input.outs, input.freeOuts);
      HandlersCheckedLose(c, s1, input.outs, input.freeOuts);
      var s2 := HandlersChecked(s1, input.outs, input.freeOuts);
      ClientsKeep(c, s2, input.clients);
      ClientsLose(c, s2, input.clients);
      CleanUpLoses(c, Clients(s2, input.clients), input.now);
    }
  }

  lemma {:induction false} RunLoses(c: Config, s: State, es: seq<Event>)
    requires Inv(c, s) && NoneLost(s)
    ensures NoneLost(Run(c, s, es))
    decreases |es|
  {
    if es != [] {
      if es[0].Tick? {
        CheckLoses(c, s, es[0].input);
        RunLoses(c, Check(c, s, es[0].input), es[1..]);
      } else {
        ShutDownKeeps(c, s);
        RunLoses(c, ShutDown(s), es[1..]);
      }
    }
  }

  lemma RestoredLosesNone(img: Image, order: seq<nat>, loaded: set<nat>)
    requires WellFormed(img) && Lists(order, Requeued(img)) && Fits(img, order)
    ensures NoneLost(Restored(img, order, loaded))
  {
    var s := Restored(img, order, loaded);
    RestoredQueue(img, order);
    forall x | Live(s.store, x) ensures Held(s, x) {
      assert x.id in Requeued(img) && img.files[x.id].req == x;
    }
  }

  /** In every state of every life in which the server is not going down, each accepted request that
      is neither finished nor purged is queued or in work. */
  lemma EveryRun(c: Config, img: Image, order: seq<nat>, loaded: set<nat>, es: seq<Event>)
    requires ValidConfig(c) && WellFormed(img) && Lists(order, Requeued(img))
    ensures var s := Run(c, Start(c, img, order, loaded), es);
            !s.down ==> forall r :: Live(s.store, r) ==> Queued(s.queues, r) || Attached(s.pool.busy, r)
  {
    RestoredInv(c, img, order, loaded);
    RestoredLosesNone(img, order, loaded);
    RunLoses(c, Start(c, img, order, loaded), es);
    var s := Run(c, Start(c, img, order, loaded), es);
    forall r | !s.down && Live(s.store, r) ensures Queued(s.queues, r) || Attached(s.pool.busy, r) {
      assert Held(s, r);
    }
  }

  // ---------------------------------------------------------------------------
  // From one life to the next
  // ---------------------------------------------------------------------------

  lemma UnfinishedWatched(c: Config, s: State, id: nat)
    requires Inv(c, s) && id in s.store.mem && id in s.store.infos
    requires id in s.store.disk || s.store.mem[id] !in s.flags.ready
    ensures Watched(SaveState(s).store, id, Known)
  {
  }

  /** A request that is unfinished when the state is saved comes back into the queue, if and only if
      it is not purged before the end. */
  lemma UnfinishedComesBack(c: Config, s: State, inputs: seq<Input>, id: nat)
    requires Inv(c, s) && NoneLost(s) && !s.down && inputs != []
    requires id in s.store.infos && !s.store.infos[id].ready
    ensures id in Requeued(NextImage(c, s, inputs)) <==> id in Closed(c, s, inputs).store.infos
  {
    var r := s.store.mem[id];
    assert Live(s.store, r) && Held(s, r);
    if r !in s.flags.ready || id in s.store.disk {
      UnfinishedWatched(c, s, id);
      ClosedWatched(c, s, inputs, id, Known);
      WatchedMeans(Closed(c, s, inputs).store, id, Known);
    } else {
      var k :| 0 <= k < |s.pool.busy| && s.pool.busy[k].req == Some(r);
      ClosedHasFile(c, s, k, inputs);
      WatchedMeans(Closed(c, s, inputs).store, id, Ready);
    }
  }

  lemma ComesBackExactly(c: Config, s: State, inputs: seq<Input>)
    requires Inv(c, s) && NoneLost(s) && !s.down && inputs != []
    ensures Requeued(NextImage(c, s, inputs)) ==
            set id | id in s.store.infos && !s.store.infos[id].ready && id in Closed(c, s, inputs).store.infos
  {
    forall id | id in s.store.infos && !s.store.infos[id].ready
      ensures id in Requeued(NextImage(c, s, inputs)) <==> id in Closed(c, s, inputs).store.infos
    {
      UnfinishedComesBack(c, s, inputs, id);
    }
  }

  /** The same for whole lives: what is put back into the queue is what was unfinished when the state
      was saved, but for what was purged since. */
  lemma NextLifeMissesNone(c: Config, img: Image, order: seq<nat>, loaded: set<nat>, es: seq<Event>, inputs: seq<Input>)
    requires ValidConfig(c) && WellFormed(img) && Lists(order, Requeued(img)) && inputs != []
    requires !Run(c, Start(c, img, order, loaded), es).down
    ensures var s := Run(c, Start(c, img, order, loaded), es);
            Requeued(NextImage(c, s, inputs)) ==
            set id | id in s.store.infos && !s.store.infos[id].ready && id in Closed(c, s, inputs).store.infos
  {
    RestoredInv(c, img, order, loaded);
    RestoredLosesNone(img, order, loaded);
    RunLoses(c, Start(c, img, order, loaded), es);
    ComesBackExactly(c, Run(c, Start(c, img, order, loaded), es), inputs);
  }
}
