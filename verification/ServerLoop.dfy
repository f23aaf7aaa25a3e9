/** The server object: the fields of class Arclink and the loops of check() that update them.
    Each method is tied to the function of module Server that says what it must do. Requests,
    handlers and files are shared objects of the original; their flags are kept in the fields
    readyFlags, zombieFlags and descFiles. */
module ServerLoop {
  import opened Prioritizer
  import opened Wrappers
  import opened Server
  import opened Restart

  function Zip(ur: seq<UserLists>, lu: seq<Option<User>>): (qs: seq<Queue>)
    requires |ur| == |lu|
    ensures |qs| == |ur| && forall t :: 0 <= t < |ur| ==> qs[t] == Queue(ur[t], lu[t])
  {
    seq(|ur|, t requires 0 <= t < |ur| => Queue(ur[t], lu[t]))
  }

  lemma ZipValid(ur: seq<UserLists>, lu: seq<Option<User>>)
    requires AllValid(ur, lu)
    ensures ValidQueues(Zip(ur, lu))
  {
  }

  lemma ZipChanged(ur: seq<UserLists>, lu: seq<Option<User>>, ur': seq<UserLists>, lu': seq<Option<User>>, t: nat,
                   op: QOp)
    requires AllValid(ur, lu) && t < NREQTYPES && Changed(ur, lu, ur', lu', t, op)
    ensures ValidQueues(Zip(ur, lu)) && ValidQueues(Zip(ur', lu'))
    ensures Zip(ur', lu') == Zip(ur, lu)[t := QStep(Zip(ur, lu)[t], op)]
  {
  }

  class Arclink {
    const cfg: Config
    var numHandlers: seq<nat>
    var freeHandlers: seq<Proc>
    var busyHandlers: seq<Proc>
    var nextType: nat
    const queue: RequestPrioritizer
    var requestInfos: map<nat, Info>
    var requests: map<nat, Request>
    var requestCount: nat
    var shutdownRequested: bool
    var descFiles: map<nat, Desc>
    var pending: set<Request>
    var readyFlags: set<Request>
    var zombieFlags: set<Request>

    ghost function PoolView(): Pool
      reads this
    {
      Pool(numHandlers, freeHandlers, busyHandlers, nextType)
    }

    ghost function StoreView(): Store
      reads this
    {
      Store(requestInfos, requests, descFiles, pending, requestCount)
    }

    ghost function View(): State
      requires queue.Valid()
      reads this, queue
    {
      State(PoolView(), Zip(queue.userRequests, queue.lastUser), StoreView(),
            Flags(readyFlags, zombieFlags), shutdownRequested)
    }

    ghost predicate Valid()
      reads this, queue
    {
      queue.Valid() && Inv(cfg, View())
    }

    constructor (c: Config)
      requires ValidConfig(c)
      ensures Valid() && View() == Fresh() && cfg == c && fresh(queue)
      ensures requestCount == 0 && nextType == 0 && !shutdownRequested && freeHandlers == busyHandlers == []
      ensures requestInfos == map[] && requests == map[] && descFiles == map[] && pending == {}
    {
      cfg := c;
      queue := new RequestPrioritizer();
      numHandlers := seq(NREQTYPES, _ => 0);
      freeHandlers, busyHandlers, nextType := [], [], 0;
      requestInfos, requests, descFiles := map[], map[], map[];
      pending, readyFlags, zombieFlags := {}, {}, {};
      requestCount, shutdownRequested := 0, false;
      new;
      assert Zip(queue.userRequests, queue.lastUser) == Fresh().queues;
      FreshInv(c);
    }

    /** restore_state() of a new server: ids are the known ids in the order of the loop. Unfinished
        requests are read from their files and queued; those without a file are forgotten. The state
        is the one that Restart.RestoredInv is about. */
    constructor Restarted(c: Config, img: Image, ids: seq<nat>)
      requires ValidConfig(c) && WellFormed(img) && Restart.Lists(ids, img.infos.Keys)
      ensures Restart.Lists(ToRequeue(img, ids), Requeued(img)) && Fits(img, ToRequeue(img, ids))
      ensures queue.Valid() && View() == Restored(img, ToRequeue(img, ids), {}) && cfg == c && fresh(queue)
    {
      cfg := c;
      queue := new RequestPrioritizer();
      numHandlers := seq(NREQTYPES, _ => 0);
      freeHandlers, busyHandlers, nextType := [], [], 0;
      requestInfos, requests, descFiles := img.infos, map[], img.files;
      pending, readyFlags, zombieFlags := {}, ReadyInFiles(img), {};
      requestCount, shutdownRequested := img.count, false;
      new;
      assert Zip(queue.userRequests, queue.lastUser) == NoQueues();
      RestoreAll(img, ids);
      ToRequeueLists(img, ids);
    }

    /** The loop of restore_state(). */
    method RestoreAll(ghost img: Image, ids: seq<nat>)
      requires WellFormed(img) && Restart.Lists(ids, img.infos.Keys)
      requires queue.Valid() && queue.maxReqPerUser == 0 && descFiles == img.files
      requires Queues() == NoQueues() && requestInfos == img.infos && requests == map[]
      modifies `requestInfos, `requests, queue`userRequests, queue`lastUser
      ensures queue.Valid() && Fits(img, ToRequeue(img, ids))
      ensures Queues() == Requeue(FilesOf(img, ToRequeue(img, ids)))
      ensures requestInfos == KnownInfos(img) && requests == InMemory(img, {})
    {
      RestoringFirst(img);
      RestoreEach(img, ids);
      HalfIsAll(img, ids, requestInfos, requests);
    }

    /** The loop. */
    method RestoreEach(ghost img: Image, ids: seq<nat>)
      requires WellFormed(img) && Restart.Lists(ids, img.infos.Keys)
      requires queue.Valid() && queue.maxReqPerUser == 0 && descFiles == img.files
      requires Restoring(img, [], Queues(), requestInfos, requests)
      modifies `requestInfos, `requests, queue`userRequests, queue`lastUser
      ensures queue.Valid() && Restoring(img, ids, Queues(), requestInfos, requests)
    {
      var i := 0;
      ghost var done: seq<nat> := [];
      while i < |ids|
        invariant i <= |ids| && done == ids[..i] && queue.Valid()
        invariant Restoring(img, done, Queues(), requestInfos, requests)
      {
        ListedAt(ids, img.infos.Keys, i);
        RestoreOne(img, done, ids[i]);
        done := done + [ids[i]];
        i := i + 1;
      }
      assert done == ids;
    }

    ghost function Queues(): seq<Queue>
      requires queue.Valid()
      reads this, queue
    {
      Zip(queue.userRequests, queue.lastUser)
    }

    /** queue.get(t): serves the queue of type t, or leaves everything as it is. */
    method GetFrom(t: nat) returns (req: Option<Request>)
      requires queue.Valid() && t < NREQTYPES
      modifies queue`userRequests, queue`lastUser
      ensures queue.Valid() && ValidQueues(old(Queues()))
      ensures req.Some? <==> old(Queues())[t].users.Keys != {}
      ensures req.Some? ==> req == Serves(old(Queues())[t], Deq)
      ensures Queues() == if req.Some? then old(Queues())[t := QStep(old(Queues())[t], Deq)] else old(Queues())
    {
      ghost var ur, lu := queue.userRequests, queue.lastUser;
      req := queue.Get(t);
      ZipChanged(ur, lu, queue.userRequests, queue.lastUser, t, Deq);
      assert Zip(ur, lu)[t := Zip(ur, lu)[t]] == Zip(ur, lu);
    }

    /** A request of the type whose turn it is, if there may be another handler for it. */
    method TryType() returns (req: Option<Request>)
      requires queue.Valid() && ValidConfig(cfg) && |numHandlers| == NREQTYPES && nextType < NREQTYPES
      modifies queue`userRequests, queue`lastUser
      ensures queue.Valid() && ValidQueues(old(Queues()))
      ensures req.Some? <==> CanServe(cfg, PoolView(), old(Queues()), nextType)
      ensures req.Some? ==> req == Serves(old(Queues())[nextType], Deq)
      ensures Queues() ==
              if req.Some? then old(Queues())[nextType := QStep(old(Queues())[nextType], Deq)] else old(Queues())
    {
      ZipValid(queue.userRequests, queue.lastUser);
      if numHandlers[nextType] < cfg.maxHandlers[nextType] {
        req := GetFrom(nextType);
      } else {
        req := None;
      }
    }

    /** One turn of the loop, with n types still to try; goal is what trying them finds. */
    method TryNext(ghost n: nat, ghost qs: seq<Queue>, ghost goal: (nat, bool)) returns (req: Option<Request>)
      requires queue.Valid() && ValidConfig(cfg) && |numHandlers| == NREQTYPES && nextType < NREQTYPES
      requires n > 0 && |qs| == NREQTYPES && Queues() == qs && goal == NextType(cfg, PoolView(), qs, n)
      modifies `nextType, queue`userRequests, queue`lastUser
      ensures queue.Valid() && ValidQueues(qs) && nextType < NREQTYPES
      ensures req.Some? ==> Found(goal, qs, req)
      ensures req.None? ==> Queues() == qs && goal == NextType(cfg, PoolView(), qs, n - 1)
    {
      NextTypeFirst(cfg, PoolView(), qs, n);
      req := TryType();
      if req.None? {
        nextType := (nextType + 1) % NREQTYPES;
      }
    }

    /** What get_next_req_from_queue() has found, and that it has changed only this queue. */
    ghost predicate Found(goal: (nat, bool), qs: seq<Queue>, req: Option<Request>)
      requires queue.Valid() && ValidQueues(qs)
      reads this, queue
    {
      && nextType == goal.0 < NREQTYPES && (req.Some? <==> goal.1)
      && (goal.1 ==> req == Serves(qs[goal.0], Deq))
      && Queues() == if goal.1 then qs[goal.0 := QStep(qs[goal.0], Deq)] else qs
    }

    /** The loop: n types are tried. */
    method TryTypes(n: nat, ghost qs: seq<Queue>, ghost goal: (nat, bool)) returns (req: Option<Request>)
      requires queue.Valid() && ValidConfig(cfg) && |numHandlers| == NREQTYPES && nextType < NREQTYPES
      requires |qs| == NREQTYPES && Queues() == qs && goal == NextType(cfg, PoolView(), qs, n)
      modifies `nextType, queue`userRequests, queue`lastUser
      ensures queue.Valid() && ValidQueues(qs) && Found(goal, qs, req)
    {
      ZipValid(queue.userRequests, queue.lastUser);
      var i := 0;
      while i < n
        invariant i <= n && nextType < NREQTYPES && queue.Valid() && Queues() == qs
        invariant goal == NextType(cfg, PoolView(), qs, n - i)
      {
        req := TryNext(n - i, qs, goal);
        if req.Some? {
          return;
        }
        i := i + 1;
      }
      return None;
    }

    /** get_next_req_from_queue(): the type is found by trying each type once, and the request is
        taken out of its queue. */
    method GetNextReqFromQueue() returns (req: Option<Request>)
      requires queue.Valid() && ValidConfig(cfg) && |numHandlers| == NREQTYPES && nextType < NREQTYPES
      modifies `nextType, queue`userRequests, queue`lastUser
      ensures queue.Valid() && ValidQueues(old(Queues()))
      ensures var qs, (t, found) := old(Queues()), NextType(cfg, old(PoolView()), old(Queues()), NREQTYPES);
              && nextType == t && (req.Some? <==> found)
              && (found ==> req == Serves(qs[t], Deq))
              && Queues() == if found then qs[t := QStep(qs[t], Deq)] else qs
    {
      ghost var qs := Queues();
      req := TryTypes(NREQTYPES, qs, NextType(cfg, PoolView(), qs, NREQTYPES));
    }

    /** A free handler, or a new one, is attached to the request and becomes busy. */
    method AttachRequest(req: Request)
      requires |numHandlers| == NREQTYPES && req.rtype < NREQTYPES
      modifies `freeHandlers, `busyHandlers, `numHandlers
      ensures PoolView() == Attach(old(PoolView()), req)
    {
      var rqh;
      if |freeHandlers| > 0 {
        rqh := freeHandlers[0];
        freeHandlers := freeHandlers[1..];
      } else {
        rqh := Proc(None, false);
      }
      busyHandlers := busyHandlers + [rqh.(req := Some(req))];
      numHandlers := numHandlers[req.rtype := numHandlers[req.rtype] + 1];
    }

    /** One turn of the loop that hands out requests; its check of num_handlers cannot fail. */
    method AssignOne() returns (found: bool)
      requires queue.Valid() && PoolInv(cfg, PoolView())
      modifies `nextType, `freeHandlers, `busyHandlers, `numHandlers, queue`userRequests, queue`lastUser
      ensures queue.Valid() && ValidQueues(old(Queues()))
      ensures var qs, (t, more) := old(Queues()), NextType(cfg, old(PoolView()), old(Queues()), NREQTYPES);
              && found == more
              && (found ==> Serves(qs[t], Deq).Some? && Serves(qs[t], Deq).value.rtype == t)
              && Queues() == (if found then qs[t := QStep(qs[t], Deq)] else qs)
              && PoolView() == if found then Attach(old(PoolView()).(turn := t), Serves(qs[t], Deq).value)
                               else old(PoolView()).(turn := t)
    {
      ghost var qs := Queues();
      ZipValid(queue.userRequests, queue.lastUser);
      var req := GetNextReqFromQueue();
      found := req.Some?;
      if found {
        ServedType(qs[nextType], nextType);
        assert numHandlers[req.value.rtype] < cfg.maxHandlers[req.value.rtype];
        AttachRequest(req.value);
      }
    }

    /** The same, on the state as a whole. */
    method AssignStep(ghost g: State) returns (found: bool, ghost g': State)
      requires queue.Valid() && View() == g && PoolInv(cfg, g.pool) && ValidQueues(g.queues)
      modifies `nextType, `freeHandlers, `busyHandlers, `numHandlers, queue`userRequests, queue`lastUser
      ensures queue.Valid() && View() == g'
      ensures var (t, more) := NextType(cfg, g.pool, g.queues, NREQTYPES);
              found == more && g' == if found then HandOut(cfg, g, t) else g.(pool := g.pool.(turn := t))
    {
      found := AssignOne();
      g' := View();
    }

    /** The loop that hands out requests. */
    method AssignRequests()
      requires Valid() && !shutdownRequested
      modifies `nextType, `freeHandlers, `busyHandlers, `numHandlers, queue`userRequests, queue`lastUser
      ensures Valid() && View() == Assign(cfg, old(View())) && NothingLeft(cfg, View())
    {
      ghost var s, g := View(), View();
      AssignKeeps(cfg, s);
      var found := true;
      while found && |busyHandlers| < cfg.hard
        invariant queue.Valid() && View() == g && Inv(cfg, g) && !g.down
        invariant Assign(cfg, g) == Assign(cfg, s)
        invariant !found ==> g == Assign(cfg, s)
        decreases found, cfg.hard - |busyHandlers|
      {
        ghost var next := NextType(cfg, g.pool, g.queues, NREQTYPES);
        AssignUnfolds(cfg, g, next.0, next.1);
        found, g := AssignStep(g);
      }
    }

    /** Shut down one handler if there are more free ones than needed. */
    method ShutDownUnneeded()
      modifies `freeHandlers, `busyHandlers
      ensures PoolView() == Shed(cfg, old(PoolView()))
    {
      if |freeHandlers| > 0 && |freeHandlers| > cfg.soft {
        var rqh := freeHandlers[0];
        freeHandlers := freeHandlers[1..];
        busyHandlers := busyHandlers + [rqh.(down := true)];
      }
    }

    /** save_request(), after the request info was marked. */
    method FinishRequest(req: Request)
      modifies `requestInfos, `descFiles
      ensures StoreView() == Save(old(StoreView()), req)
    {
      if req.id in requestInfos {
        requestInfos := requestInfos[req.id := requestInfos[req.id].(ready := true)];
      }
      descFiles := descFiles[req.id := Desc(req, true)];
    }

    /** A ready request is detached, its handler becomes free, and the request is saved unless it
        was purged. The check num_handlers > 0 is the precondition. */
    method FreeHandler(h: nat, req: Request)
      requires h < |busyHandlers| && busyHandlers[h].req == Some(req)
      requires req.rtype < |numHandlers| && numHandlers[req.rtype] > 0
      modifies `freeHandlers, `busyHandlers, `numHandlers, `requestInfos, `descFiles
      ensures PoolView() == old(PoolView()).(busy := Server.Erase(old(busyHandlers), h),
                num := Less1(old(numHandlers), req.rtype),
                                             free := old(freeHandlers) + [old(busyHandlers)[h].(req := None)])
      ensures StoreView() == if req in zombieFlags then old(StoreView()) else Save(old(StoreView()), req)
    {
      freeHandlers := freeHandlers + [busyHandlers[h].(req := None)];
      busyHandlers := busyHandlers[..h] + busyHandlers[h + 1..];
      numHandlers := numHandlers[req.rtype := numHandlers[req.rtype] - 1];
      if req !in zombieFlags {
        FinishRequest(req);
      }
    }

    /** A purged request is detached and its handler is shut down. */
    method CancelHandler(h: nat, req: Request)
      requires h < |busyHandlers| && busyHandlers[h].req == Some(req)
      requires req.rtype < |numHandlers| && numHandlers[req.rtype] > 0
      modifies `busyHandlers, `numHandlers
      ensures PoolView() == old(PoolView()).(busy := old(busyHandlers)[h := Proc(None, true)],
                num := Less1(old(numHandlers), req.rtype))
    {
      numHandlers := numHandlers[req.rtype := numHandlers[req.rtype] - 1];
      busyHandlers := busyHandlers[h := Proc(None, true)];
    }

    /** One turn of the loop over the busy handlers; its checks of num_handlers cannot fail. */
    method DetachStep(h: nat, ghost g: State) returns (h': nat, ghost g': State)
      requires queue.Valid() && View() == g && h < |busyHandlers| && CountedAt(g.pool, h)
      modifies `freeHandlers, `busyHandlers, `numHandlers, `requestInfos, `descFiles
      ensures queue.Valid() && View() == g' && (g', h') == DetachOne(g, h)
    {
      var req := busyHandlers[h].req;
      h' := h;
      if req.Some? && req.value in readyFlags {
        FreeHandler(h, req.value);
      } else {
        if req.Some? && req.value in zombieFlags {
          CancelHandler(h, req.value);
        }
        h' := h + 1;
      }
      g' := View();
    }

    method DetachRequests()
      requires Valid()
      modifies `freeHandlers, `busyHandlers, `numHandlers, `requestInfos, `descFiles
      ensures Valid() && View() == Detach(cfg, old(View()), 0)
      ensures Detached(busyHandlers, View().flags, 0)
    {
      ghost var s, g := View(), View();
      DetachDetaches(cfg, s, 0);
      var h: nat := 0;
      while h < |busyHandlers|
        invariant queue.Valid() && View() == g && Inv(cfg, g) && h <= |busyHandlers|
        invariant Detach(cfg, g, h) == Detach(cfg, s, 0)
        decreases |busyHandlers| - h
      {
        DetachOneKeeps(cfg, g, h);
        h, g := DetachStep(h, g);
      }
    }

    /** The outcome of a handler's check() and of the responses it reads. */
    method HandlerStep(h: nat, o: Outcome, ghost g: State) returns (h': nat, ghost g': State)
      requires queue.Valid() && View() == g && h < |busyHandlers|
      modifies `busyHandlers, `readyFlags
      ensures queue.Valid() && View() == g'
      ensures (g', h') == FeedOne(g, h, o)
    {
      var rqh := busyHandlers[h];
      h' := h;
      if o.ready && rqh.req.Some? {
        readyFlags := readyFlags + {rqh.req.value};
      }
      if o.gone && rqh.down {
        busyHandlers := busyHandlers[..h] + busyHandlers[h + 1..];
      } else {
        h' := h + 1;
      }
      g' := View();
    }

    method FeedHandlers(outs: seq<Outcome>)
      requires queue.Valid()
      modifies `busyHandlers, `readyFlags
      ensures queue.Valid() && View() == Feed(old(View()), 0, outs)
    {
      ghost var s, g := View(), View();
      var h: nat, k: nat := 0, 0;
      while h < |busyHandlers| && k < |outs|
        invariant queue.Valid() && View() == g && k <= |outs|
        invariant Feed(g, h, outs[k..]) == Feed(s, 0, outs)
        decreases |outs| - k
      {
        assert outs[k..][1..] == outs[k + 1..];
        h, g := HandlerStep(h, outs[k], g);
        k := k + 1;
      }
    }

    method CheckFreeHandlers(outs: seq<Outcome>)
      modifies `freeHandlers
      ensures PoolView() == old(PoolView()).(free := StillFree(old(freeHandlers), outs))
    {
      ghost var free := freeHandlers;
      var h, k := 0, 0;
      while h < |freeHandlers| && k < |outs|
        invariant h <= |freeHandlers| && k <= |outs| && k <= |free|
        invariant freeHandlers[h..] == free[k..]
        invariant freeHandlers[..h] + StillFree(free[k..], outs[k..]) == StillFree(free, outs)
        decreases |outs| - k
      {
        var rqh := freeHandlers[h];
        StillFreeNext(freeHandlers, h, free, k, outs);
        if outs[k].gone && rqh.down {
          freeHandlers := freeHandlers[..h] + freeHandlers[h + 1..];
        } else {
          h := h + 1;
        }
        k := k + 1;
      }
      assert freeHandlers == freeHandlers[..h] + freeHandlers[h..];
    }

    // What connections ask for

    method NewRequest(user: User, rtype: nat) returns (req: Request)
      requires queue.Valid() && ValidQueues(Queues()) && rtype < NREQTYPES
      modifies `pending, `requestCount
      ensures View() == Client(old(View()), ClientEvent.NewRequest(user, rtype))
      ensures req.id == old(requestCount) && req in pending
    {
      req := Request(requestCount, user, rtype);
      pending := pending + {req};
      requestCount := requestCount + 1;
    }

    /** The request is registered only when the queue accepts it. */
    method QueueRequest(req: Request, now: nat) returns (accepted: bool)
      requires queue.Valid() && ValidQueues(Queues()) && req in pending && req.rtype < NREQTYPES
      modifies `pending, `requests, `requestInfos, queue`userRequests, queue`lastUser
      ensures queue.Valid() && ValidQueues(old(Queues()))
      ensures accepted <==> queue.maxReqPerUser == 0 || QueuedOf(old(Queues()), req.user) < queue.maxReqPerUser
      ensures View() == Client(old(View()), ClientEvent.QueueRequest(req, accepted, now))
    {
      QueuedForIs(queue.userRequests, queue.lastUser, req.user);
      ghost var ur, lu := queue.userRequests, queue.lastUser;
      accepted := queue.Put(req);
      pending := pending - {req};
      if accepted {
        ZipChanged(ur, lu, queue.userRequests, queue.lastUser, req.rtype, Enq(req));
        requests := requests[req.id := req];
        requestInfos := requestInfos[req.id := Info(req.user, now, false)];
      }
    }

    /** get_request(): found is false where the code returns requests.end(). */
    method GetRequest(id: nat) returns (found: bool)
      modifies `requests
      ensures StoreView() == Load(old(StoreView()), id) && found == (id in requests)
    {
      if id !in requests && id in descFiles {
        requests := requests[id := descFiles[id].req];
      }
      found := id in requests;
    }

    method FindRequest(id: nat, user: User, now: nat) returns (req: Option<Request>)
      requires queue.Valid() && ValidQueues(Queues())
      modifies `requestInfos, `requests
      ensures View() == Client(old(View()), ClientEvent.FindRequest(id, user, now))
      ensures req == if MayAccess(old(StoreView()), id, user) && id in requests then Some(requests[id]) else None
    {
      if id !in requestInfos || (user != "admin" && user != requestInfos[id].user) {
        return None;
      }
      requestInfos := requestInfos[id := requestInfos[id].(timestamp := now)];
      var found := GetRequest(id);
      req := if found then Some(requests[id]) else None;
    }

    method DropFromQueue(req: Request)
      requires queue.Valid() && ValidQueues(Queues())
      modifies queue`userRequests, queue`lastUser
      ensures queue.Valid() && ValidQueues(old(Queues())) && Queues() == DropQueued(old(Queues()), req)
    {
      if req.rtype < NREQTYPES {
        ghost var ur, lu := queue.userRequests, queue.lastUser;
        var found := queue.Remove(req);
        if found {
          ZipChanged(ur, lu, queue.userRequests, queue.lastUser, req.rtype, Del(req));
        } else {
          assert Zip(ur, lu)[req.rtype := Zip(ur, lu)[req.rtype]] == Zip(ur, lu);
        }
      }
    }

    method PurgeRequest(id: nat, user: User) returns (done: bool)
      requires queue.Valid() && ValidQueues(Queues())
      modifies `requestInfos, `requests, `descFiles, `zombieFlags, queue`userRequests, queue`lastUser
      ensures queue.Valid() && ValidQueues(old(Queues())) && done == MayAccess(old(StoreView()), id, user)
      ensures View() == Client(old(View()), ClientEvent.PurgeRequest(id, user))
    {
      if id !in requestInfos || (user != "admin" && user != requestInfos[id].user) {
        return false;
      }
      var found := GetRequest(id);
      if found {
        var req := requests[id];
        if req !in readyFlags {
          DropFromQueue(req);
        }
        zombieFlags := zombieFlags + {req};
        requests := requests - {id};
        descFiles := descFiles - {id};
      }
      requestInfos := requestInfos - {id};
      return true;
    }

    /** The cleaner's treatment of one id. */
    method CleanOne(id: nat, now: nat)
      requires id in requestInfos
      modifies `requestInfos, `requests, `descFiles, `zombieFlags
      ensures var st, f := old(StoreView()), old(zombieFlags);
              if id in ToPurge(cfg, st, now) then
                StoreView() == Purged(st, {id}) && zombieFlags == f + Objects(st, {id})
              else
                && StoreView() == (if id in ToSwapOut(cfg, st, now) then st.(mem := st.mem - {id}) else st)
                && zombieFlags == f
    {
      ghost var st := StoreView();
      if !requestInfos[id].ready {
        return;
      }
      if cfg.purgeTime != 0 && requestInfos[id].timestamp + cfg.purgeTime < now {
        var found := GetRequest(id);
        if found {
          zombieFlags := zombieFlags + {requests[id]};
          requests := requests - {id};
          assert Objects(st, {id}) == {Load(st, id).mem[id]};
        } else {
          assert Objects(st, {id}) == {} && requests - {id} == requests;
        }
        descFiles := descFiles - {id};
        requestInfos := requestInfos - {id};
        return;
      }
      if cfg.swapoutTime != 0 && requestInfos[id].timestamp + cfg.swapoutTime < now {
        requests := requests - {id};
      }
    }

    /** The loop of the cleaner: one pass over the request infos, erasing as it goes. */
    method CleanEach(now: nat)
      requires queue.Valid()
      modifies `requestInfos, `requests, `descFiles, `zombieFlags
      ensures View() == CleanUp(cfg, old(View()), now)
    {
      ghost var st, zs := StoreView(), zombieFlags;
      ghost var done: set<nat> := {};
      var todo := requestInfos.Keys;
      CleanStart(cfg, st, zs, now);
      while todo != {}
        invariant todo + done == st.infos.Keys && todo !! done
        invariant StoreView() == Cleaned(cfg, st, now, done)
        invariant zombieFlags == zs + Objects(st, ToPurge(cfg, st, now) * done)
        decreases todo
      {
        var id :| id in todo;
        CleanNext(cfg, st, now, done, id);
        CleanOne(id, now);
        todo, done := todo - {id}, done + {id};
      }
      CleanEnd(cfg, st, now, done);
    }

    /** The cleaner. Forgotten, with memory entry and file, is exactly what is ready and older than
        purge_time, unless that is 0; what stays leaves memory exactly if it is ready and older than
        swapout_time, unless that is 0. */
    method CleanUpRequests(now: nat)
      requires queue.Valid()
      modifies `requestInfos, `requests, `descFiles, `zombieFlags
      ensures View() == CleanUp(cfg, old(View()), now)
      ensures forall id :: id in old(requestInfos) ==>
                var info := old(requestInfos)[id];
                var purged := info.ready && cfg.purgeTime != 0 && info.timestamp + cfg.purgeTime < now;
                var swapped := info.ready && cfg.swapoutTime != 0 && info.timestamp + cfg.swapoutTime < now;
                && (id in requestInfos <==> !purged)
                && (id in descFiles <==> id in old(descFiles) && !purged)
                && (id in requests <==> id in old(requests) && !purged && !swapped)
                && (purged && id in old(requests) ==> old(requests)[id] in zombieFlags)
                && (purged && id !in old(requests) && id in old(descFiles) ==> old(descFiles)[id].req in zombieFlags)
    {
      forall id | id in requestInfos {
        CleanUpExactly(cfg, View(), now, id);
      }
      CleanEach(now);
    }

    /** shutdown(), without the loop that waits for the handlers. */
    method ShutDownAll()
      requires queue.Valid()
      modifies `freeHandlers, `busyHandlers, `zombieFlags, `shutdownRequested
      ensures View() == ShutDown(old(View()))
    {
      shutdownRequested := true;
      ghost var all := busyHandlers + freeHandlers;
      while freeHandlers != []
        invariant busyHandlers + freeHandlers == all
        invariant zombieFlags == old(zombieFlags) && shutdownRequested
        decreases |freeHandlers|
      {
        busyHandlers := busyHandlers + [freeHandlers[0]];
        freeHandlers := freeHandlers[1..];
      }
      assert busyHandlers == all;
      assert InWork(all[..0]) == {};
      var p: nat := 0;
      while p < |busyHandlers|
        invariant p <= |busyHandlers| == |all| && freeHandlers == [] && shutdownRequested
        invariant forall j :: 0 <= j < |all| ==> busyHandlers[j] == if j < p then all[j].(down := true) else all[j]
        invariant zombieFlags == old(zombieFlags) + (InWork(all[..p]) - readyFlags)
      {
        var req := busyHandlers[p].req;
        InWorkNext(all, p);
        if req.Some? && req.value !in readyFlags {
          zombieFlags := zombieFlags + {req.value};
        }
        busyHandlers := busyHandlers[p := busyHandlers[p].(down := true)];
        p := p + 1;
      }
      assert all[..p] == all == old(View()).pool.busy + old(View()).pool.free;
      assert busyHandlers == AllDown(all);
      assert View().flags == ShutDown(old(View())).flags;
    }

    /** One request of a client, dispatched to the method that serves it. */
    method ServeOne(e: ClientEvent) returns (served: ClientEvent)
      requires Valid()
      modifies `pending, `requests, `requestInfos, `requestCount, `descFiles, `zombieFlags, queue`userRequests,
          queue`lastUser
      ensures Valid() && served == Decide(queue.maxReqPerUser, old(View()), e)
      ensures View() == Client(old(View()), served)
    {
      ghost var g := View();
      served := e;
      match e {
        case NewRequest(user, rtype) =>
          if rtype < NREQTYPES {
            var r := NewRequest(user, rtype);
          }
        case QueueRequest(r, _, now) =>
          if r in pending {
            var accepted := QueueRequest(r, now);
            served := ClientEvent.QueueRequest(r, accepted, now);
          }
        case Abandon(r) =>
          pending := pending - {r};
        case FindRequest(id, user, now) =>
          var r := FindRequest(id, user, now);
        case PurgeRequest(id, user) =>
          var done := PurgeRequest(id, user);
      }
      ClientKeeps(cfg, g, served);
    }

    /** The requests of the clients in one round: what becomes of each is decided by the state that the
        ones before have left. */
    method ServeClients(es: seq<ClientEvent>) returns (served: seq<ClientEvent>)
      requires Valid()
      modifies `pending, `requests, `requestInfos, `requestCount, `descFiles, `zombieFlags, queue`userRequests,
          queue`lastUser
      ensures Valid() && served == Decided(queue.maxReqPerUser, old(View()), es)
      ensures View() == Clients(old(View()), served)
    {
      ghost var s := View();
      served := [];
      var k := 0;
      assert es[0..] == es;
      while k < |es|
        invariant k <= |es| && Valid() && View() == Clients(s, served)
        invariant Decided(queue.maxReqPerUser, s, es) == served + Decided(queue.maxReqPerUser, View(), es[k..])
      {
        assert es[k..][0] == es[k] && es[k..][1..] == es[k + 1..];
        ghost var g, before := View(), served;
        var e := ServeOne(es[k]);
        ClientsAppend(s, served, e);
        served := served + [e];
        k := k + 1;
        Regroup(before, e, Decided(queue.maxReqPerUser, View(), es[k..]));
      }
    }

    /** queue.put() before any limit was set. */
    method PutBack(r: Request)
      requires queue.Valid() && queue.maxReqPerUser == 0 && r.rtype < NREQTYPES
      modifies queue`userRequests, queue`lastUser
      ensures queue.Valid() && AllQueuesValid(old(Queues())) && Queues() == PutOne(old(Queues()), r)
    {
      ghost var ur, lu := queue.userRequests, queue.lastUser;
      var accepted := queue.Put(r);
      ZipChanged(ur, lu, queue.userRequests, queue.lastUser, r.rtype, Enq(r));
    }

    /** One id in the loop of restore_state(). */
    method RestoreOne(ghost img: Image, ghost done: seq<nat>, id: nat)
      requires WellFormed(img) && id in img.infos && id !in done
      requires queue.Valid() && queue.maxReqPerUser == 0 && descFiles == img.files
      requires Restoring(img, done, Queues(), requestInfos, requests)
      modifies `requestInfos, `requests, queue`userRequests, queue`lastUser
      ensures queue.Valid() && Restoring(img, done + [id], Queues(), requestInfos, requests)
    {
      RestoringNext(img, done, id, Queues(), requestInfos, requests);
      if !requestInfos[id].ready {
        var found := GetRequest(id);
        if !found {
          requestInfos := requestInfos - {id};
        } else {
          PutBack(requests[id]);
        }
      }
    }

    /** save_state(): the unfinished requests in memory are saved, and what goes into the state file. */
    method SaveStateFile() returns (infos: map<nat, Info>, count: nat)
      requires queue.Valid()
      modifies `descFiles
      ensures View() == SaveState(old(View())) && infos == requestInfos && count == requestCount
    {
      ghost var st := StoreView();
      var todo := requests.Keys;
      while todo != {}
        invariant todo <= requests.Keys
        invariant descFiles.Keys == st.disk.Keys + set id | id in requests && id !in todo && requests[id] !in readyFlags
        invariant forall id :: id in descFiles ==>
                    descFiles[id] == if id in requests && id !in todo && requests[id] !in readyFlags
                                     then Desc(requests[id], false) else st.disk[id]
        decreases todo
      {
        var id :| id in todo;
        if requests[id] !in readyFlags {
          descFiles := descFiles[id := Desc(requests[id], false)];
        }
        todo := todo - {id};
      }
      assert descFiles == SavedFiles(st, Flags(readyFlags, zombieFlags));
      return requestInfos, requestCount;
    }

    /** check(): one round of the server loop. */
    method CheckAll(input: Input) returns (served: seq<ClientEvent>)
      requires Valid()
      modifies this, queue
      ensures Valid() && View() == Check(cfg, old(View()), input.(clients := served))
      ensures served == ServedIn(cfg, old(View()), input)
    {
      ghost var s := View();
      served := [];
      queue.SetMaxReqPerUser(cfg.maxPerUser);
      BeforeSelectDetaches(cfg, s);
      BeforeSelectStep();
      if !input.interrupted {
        served := AfterSelectStep(input);
      }
    }

    /** The part before the loop that detaches finished requests. */
    method AssignAndShed()
      requires Valid()
      modifies this, queue`userRequests, queue`lastUser
      ensures Valid()
      ensures var s := old(View());
              var s1 := if s.down then s else Assign(cfg, s);
              View() == s1.(pool := Shed(cfg, s1.pool))
    {
      if !shutdownRequested {
        AssignRequests();
      }
      ShedKeeps(cfg, View());
      ShutDownUnneeded();
    }

    method BeforeSelectStep()
      requires Valid()
      modifies this, queue`userRequests, queue`lastUser
      ensures Valid() && View() == BeforeSelect(cfg, old(View()))
    {
      AssignAndShed();
      DetachRequests();
    }

    /** The part before the connections are served. */
    method CheckHandlers(outs: seq<Outcome>, freeOuts: seq<Outcome>)
      requires Valid() && Detached(busyHandlers, View().flags, 0)
      modifies `busyHandlers, `freeHandlers, `readyFlags
      ensures Valid() && View() == HandlersChecked(old(View()), outs, freeOuts)
    {
      ghost var s := View();
      HandlersCheckedKeeps(cfg, s, outs, freeOuts);
      FeedHandlers(outs);
      CheckFreeHandlers(freeOuts);
      assert View() == HandlersChecked(s, outs, freeOuts);
    }

    method AfterSelectStep(input: Input) returns (served: seq<ClientEvent>)
      requires Valid() && Detached(busyHandlers, View().flags, 0)
      modifies this, queue`userRequests, queue`lastUser
      ensures Valid() && View() == AfterSelect(cfg, old(View()), input.(clients := served))
      ensures ValidQueues(old(Queues()))
      ensures served == Decided(queue.maxReqPerUser, HandlersChecked(old(View()), input.outs, input.freeOuts),
                input.clients)
    {
      ghost var s := View();
      CheckHandlers(input.outs, input.freeOuts);
      served := ServeClients(input.clients);
      AfterSelectKeeps(cfg, s, input.(clients := served));
      Tidy(input.cleanup, input.now);
    }

    /** The cleaner, when it is due. */
    method Tidy(cleanup: bool, now: nat)
      requires queue.Valid()
      modifies `requestInfos, `requests, `descFiles, `zombieFlags
      ensures queue.Valid() && View() == if cleanup then CleanUp(cfg, old(View()), now) else old(View())
    {
      if cleanup {
        CleanUpRequests(now);
      }
    }
  }

  lemma ListedAt(ids: seq<nat>, keys: set<nat>, i: nat)
    requires Restart.Lists(ids, keys) && i < |ids|
    ensures ids[i] in keys && ids[i] !in ids[..i] && ids[..i + 1] == ids[..i] + [ids[i]]
  {
    assert ids[i] in ids;
  }

  /** Those of the ids that are put into the queue again, in order. */
  function ToRequeue(img: Image, ids: seq<nat>): (order: seq<nat>)
    ensures forall id :: id in order <==> id in ids && id in Requeued(img)
  {
    if ids == [] then []
    else
      var n := |ids| - 1;
      assert ids == ids[..n] + [ids[n]];
      if ids[n] in Requeued(img) then ToRequeue(img, ids[..n]) + [ids[n]] else ToRequeue(img, ids[..n])
  }

  ghost predicate Distinct(ids: seq<nat>) {
    forall i, j :: 0 <= i < j < |ids| ==> ids[i] != ids[j]
  }

  lemma DistinctAppend(ids: seq<nat>, id: nat)
    requires Distinct(ids) && id !in ids
    ensures Distinct(ids + [id])
  {
    var r := ids + [id];
    forall i, j | 0 <= i < j < |r| ensures r[i] != r[j] {
      assert r[i] == ids[i];
      if j < |ids| {
        assert r[j] == ids[j];
      }
    }
  }

  lemma {:induction false} ToRequeueDistinct(img: Image, ids: seq<nat>)
    requires Distinct(ids)
    ensures Distinct(ToRequeue(img, ids))
  {
    if ids != [] {
      var n := |ids| - 1;
      ToRequeueDistinct(img, ids[..n]);
      assert forall k :: 0 <= k < n ==> ids[..n][k] == ids[k] != ids[n];
      assert ids[n] !in ids[..n];
      if ids[n] in Requeued(img) {
        DistinctAppend(ToRequeue(img, ids[..n]), ids[n]);
      }
    }
  }

  lemma ToRequeueLists(img: Image, ids: seq<nat>)
    requires Restart.Lists(ids, img.infos.Keys)
    ensures Restart.Lists(ToRequeue(img, ids), Requeued(img))
  {
    ToRequeueDistinct(img, ids);
  }

  lemma ToRequeueTyped(img: Image, ids: seq<nat>)
    requires WellFormed(img)
    ensures Fits(img, ToRequeue(img, ids))
  {
    var o := ToRequeue(img, ids);
    forall i | 0 <= i < |o| ensures o[i] in img.files && img.files[o[i]].req.rtype < NREQTYPES {
      assert o[i] in o;
    }
  }

  /** The ids of done have been looked at. */
  ghost predicate HalfRestored(img: Image, done: seq<nat>, infos: map<nat, Info>, mem: map<nat, Request>) {
    && (forall id :: id in infos <==> id in img.infos && (id in done && !img.infos[id].ready ==> id in img.files))
    && (forall id :: id in infos ==> infos[id] == img.infos[id])
    && (forall id :: id in mem <==> id in done && id in Requeued(img))
    && (forall id :: id in mem ==> id in img.files && mem[id] == img.files[id].req)
  }

  /** The next id, which is not in done: it stays as it is, is forgotten, or is read from its file. */
  lemma HalfNext(img: Image, done: seq<nat>, id: nat, infos: map<nat, Info>, mem: map<nat, Request>)
    requires HalfRestored(img, done, infos, mem) && id !in done && id in img.infos
    ensures id in infos && infos[id] == img.infos[id] && id !in mem
    ensures var next := done + [id];
            if infos[id].ready then HalfRestored(img, next, infos, mem)
            else if id in img.files then HalfRestored(img, next, infos, mem[id := img.files[id].req])
            else HalfRestored(img, next, infos - {id}, mem)
  {
    assert forall k :: k in done + [id] <==> k in done || k == id;
  }

  lemma HalfIsAll(img: Image, ids: seq<nat>, infos: map<nat, Info>, mem: map<nat, Request>)
    requires Restart.Lists(ids, img.infos.Keys) && HalfRestored(img, ids, infos, mem)
    ensures infos == KnownInfos(img) && mem == InMemory(img, {})
  {
  }

  lemma FilesNext(img: Image, order: seq<nat>, id: nat)
    requires (forall k :: k in order ==> k in img.files) && id in img.files
    ensures FilesOf(img, order + [id]) == FilesOf(img, order) + [img.files[id].req]
  {
  }

  lemma RequeueLast(rs: seq<Request>, r: Request)
    requires Typed(rs) && Typed(rs + [r])
    ensures r.rtype < NREQTYPES && Requeue(rs + [r]) == PutOne(Requeue(rs), r)
  {
    assert (rs + [r])[..|rs|] == rs && (rs + [r])[|rs|] == r;
  }

  lemma RequeuedNext(img: Image, done: seq<nat>, id: nat)
    requires WellFormed(img) && Fits(img, ToRequeue(img, done)) && Fits(img, ToRequeue(img, done + [id]))
    ensures Requeue(FilesOf(img, ToRequeue(img, done + [id]))) ==
            if id in Requeued(img) then PutOne(Requeue(FilesOf(img, ToRequeue(img, done))), img.files[id].req)
            else Requeue(FilesOf(img, ToRequeue(img, done)))
  {
    assert (done + [id])[..|done|] == done;
    if id in Requeued(img) {
      FilesNext(img, ToRequeue(img, done), id);
      RequeueLast(FilesOf(img, ToRequeue(img, done)), img.files[id].req);
    }
  }

  /** In the middle of restore_state(). */
  ghost predicate Restoring(img: Image, done: seq<nat>, qs: seq<Queue>, infos: map<nat, Info>, mem: map<nat, Request>) {
    && Fits(img, ToRequeue(img, done)) && qs == Requeue(FilesOf(img, ToRequeue(img, done)))
    && HalfRestored(img, done, infos, mem)
  }

  lemma RestoringFirst(img: Image)
    ensures Restoring(img, [], NoQueues(), img.infos, map[])
  {
    assert ToRequeue(img, []) == [] && FilesOf(img, []) == [];
  }

  lemma RestoringNext(img: Image, done: seq<nat>, id: nat, qs: seq<Queue>, infos: map<nat, Info>,
                      mem: map<nat, Request>)
    requires WellFormed(img) && id in img.infos && id !in done && Restoring(img, done, qs, infos, mem)
    ensures id in infos && id !in mem && (id in img.files ==> img.files[id].req.rtype < NREQTYPES) && AllQueuesValid(qs)
    ensures var next := done + [id];
            if infos[id].ready then Restoring(img, next, qs, infos, mem)
            else if id in img.files then
              Restoring(img, next, PutOne(qs, img.files[id].req), infos, mem[id := img.files[id].req])
            else Restoring(img, next, qs, infos - {id}, mem)
  {
    ToRequeueTyped(img, done + [id]);
    RequeuedNext(img, done, id);
    HalfNext(img, done, id, infos, mem);
  }

  lemma Regroup(before: seq<ClientEvent>, e: ClientEvent, rest: seq<ClientEvent>)
    ensures before + ([e] + rest) == (before + [e]) + rest
  {
  }

  lemma {:induction false} QueuedForIs(ur: seq<UserLists>, lu: seq<Option<User>>, u: User)
    requires |ur| == |lu|
    ensures QueuedFor(ur, u) == QueuedOf(Zip(ur, lu), u)
  {
    if ur != [] {
      var n := |ur| - 1;
      QueuedForIs(ur[..n], lu[..n], u);
      assert Zip(ur, lu)[..n] == Zip(ur[..n], lu[..n]);
    }
  }

  lemma NextTypeFirst(c: Config, p: Pool, qs: seq<Queue>, n: nat)
    requires ValidConfig(c) && |p.num| == |qs| == NREQTYPES && p.turn < NREQTYPES && 0 < n
    ensures NextType(c, p, qs, n) ==
            if CanServe(c, p, qs, p.turn) then (p.turn, true)
            else NextType(c, p.(turn := (p.turn + 1) % NREQTYPES), qs, n - 1)
  {
  }

  /** One turn of the loop over the free handlers: the h-th is either erased or passed. */
  lemma StillFreeNext(now: seq<Proc>, h: nat, free: seq<Proc>, k: nat, outs: seq<Outcome>)
    requires h < |now| && k < |free| && k < |outs| && now[h..] == free[k..]
    ensures var less := now[..h] + now[h + 1..];
            if outs[k].gone && now[h].down then
              && less[h..] == free[k + 1..]
              && less[..h] + StillFree(free[k + 1..], outs[k + 1..]) == now[..h] + StillFree(free[k..], outs[k..])
            else
              && now[h + 1..] == free[k + 1..]
              && now[..h + 1] + StillFree(free[k + 1..], outs[k + 1..]) == now[..h] + StillFree(free[k..], outs[k..])
  {
    var rest := StillFree(free[k + 1..], outs[k + 1..]);
    assert now[h] == now[h..][0] == free[k..][0];
    assert free[k..][1..] == free[k + 1..] && outs[k..][1..] == outs[k + 1..] && outs[k..][0] == outs[k];
    assert now[h..][1..] == now[h + 1..];
    assert now[..h + 1] + rest == now[..h] + ([now[h]] + rest);
  }

  lemma {:induction false} ClientsAppend(s: State, es: seq<ClientEvent>, e: ClientEvent)
    requires ValidQueues(s.queues)
    ensures ValidQueues(Clients(s, es).queues) && Clients(s, es + [e]) == Client(Clients(s, es), e)
    decreases |es|
  {
    if es == [] {
      assert [e][1..] == [];
    } else {
      ClientsAppend(Client(s, es[0]), es[1..], e);
      assert (es + [e])[1..] == es[1..] + [e];
    }
  }

  lemma InWorkNext(hs: seq<Proc>, p: nat)
    requires p < |hs|
    ensures InWork(hs[..p + 1]) == InWork(hs[..p]) + (if hs[p].req.Some? then {hs[p].req.value} else {})
  {
    var a, b := hs[..p], hs[..p + 1];
    forall r ensures r in InWork(b) <==> r in InWork(a) || hs[p].req == Some(r) {
      if r in InWork(a) {
        var i :| 0 <= i < |a| && a[i].req.Some? && a[i].req.value == r;
        assert b[i].req.value == r;
      }
      if hs[p].req == Some(r) {
        assert b[p].req.value == r;
      }
    }
  }

  /** The store after the cleaner looked at the ids in done. */
  function Cleaned(c: Config, st: Store, now: nat, done: set<nat>): Store {
    var gone := ToPurge(c, st, now) * done;
    st.(infos := st.infos - gone, disk := st.disk - gone,
        mem := st.mem - (gone + ToSwapOut(c, st, now) * done))
  }

  lemma CleanStart(c: Config, st: Store, zs: set<Request>, now: nat)
    ensures Cleaned(c, st, now, {}) == st && zs + Objects(st, ToPurge(c, st, now) * {}) == zs
  {
    assert st.infos - {} == st.infos && st.disk - {} == st.disk && st.mem - {} == st.mem;
  }

  lemma CleanNextStore(c: Config, st: Store, now: nat, done: set<nat>, id: nat)
    requires id in st.infos && id !in done
    ensures var st1, st2 := Cleaned(c, st, now, done), Cleaned(c, st, now, done + {id});
            && (id in ToPurge(c, st, now) ==> st2 == Purged(st1, {id}))
            && (id !in ToPurge(c, st, now) ==>
                  st2 == if id in ToSwapOut(c, st, now) then st1.(mem := st1.mem - {id}) else st1)
  {
    var gone, out := ToPurge(c, st, now), ToSwapOut(c, st, now);
    assert gone * (done + {id}) == if id in gone then gone * done + {id} else gone * done;
    assert out * (done + {id}) == if id in out then out * done + {id} else out * done;
    var st1, st2 := Cleaned(c, st, now, done), Cleaned(c, st, now, done + {id});
    if id in gone {
      assert st2.mem == st1.mem - {id} && st2.infos == st1.infos - {id} && st2.disk == st1.disk - {id};
    } else if id in out {
      assert st2.mem == st1.mem - {id};
    }
  }

  lemma CleanNextObjects(c: Config, st: Store, now: nat, done: set<nat>, id: nat)
    requires id in st.infos && id !in done
    ensures var gone := ToPurge(c, st, now);
            Objects(st, gone * (done + {id}))
            == Objects(st, gone * done) + (if id in gone then Objects(Cleaned(c, st, now, done), {id}) else {})
  {
    var st1, gone := Cleaned(c, st, now, done), ToPurge(c, st, now);
    if id in gone {
      assert gone * (done + {id}) == gone * done + {id};
      ObjectsOfUnion(st, gone * done, {id});
      SameObject(st, st1, id);
    } else {
      assert gone * (done + {id}) == gone * done;
    }
  }

  lemma SameObject(st: Store, st1: Store, id: nat)
    requires id in st.mem <==> id in st1.mem
    requires id in st.disk <==> id in st1.disk
    requires (id in st.mem ==> st.mem[id] == st1.mem[id]) && (id in st.disk ==> st.disk[id] == st1.disk[id])
    ensures Objects(st, {id}) == Objects(st1, {id})
  {
    var m, m1 := Load(st, id).mem, Load(st1, id).mem;
    assert id in m <==> id in m1;
    if id in m {
      assert Objects(st, {id}) == {m[id]} && Objects(st1, {id}) == {m1[id]};
    } else {
      assert Objects(st, {id}) == {} && Objects(st1, {id}) == {};
    }
  }

  lemma CleanNext(c: Config, st: Store, now: nat, done: set<nat>, id: nat)
    requires id in st.infos && id !in done
    ensures var st1, st2 := Cleaned(c, st, now, done), Cleaned(c, st, now, done + {id});
            var gone := ToPurge(c, st, now);
            && id in st1.infos
            && (id in ToPurge(c, st1, now) <==> id in gone)
            && (id in ToSwapOut(c, st1, now) <==> id in ToSwapOut(c, st, now))
            && (id in gone ==> st2 == Purged(st1, {id}))
            && (id !in gone ==> st2 == if id in ToSwapOut(c, st, now) then st1.(mem := st1.mem - {id}) else st1)
            && Objects(st, gone * (done + {id})) ==
                 Objects(st, gone * done) + (if id in gone then Objects(st1, {id}) else {})
  {
    assert Cleaned(c, st, now, done).infos[id] == st.infos[id];
    CleanNextStore(c, st, now, done, id);
    CleanNextObjects(c, st, now, done, id);
  }

  lemma ObjectsOfUnion(st: Store, a: set<nat>, b: set<nat>)
    ensures Objects(st, a + b) == Objects(st, a) + Objects(st, b)
  {
  }

  lemma CleanEnd(c: Config, st: Store, now: nat, done: set<nat>)
    requires done == st.infos.Keys
    ensures ToPurge(c, st, now) * done == ToPurge(c, st, now)
    ensures var st' := Purged(st, ToPurge(c, st, now));
            Cleaned(c, st, now, done) == st'.(mem := st'.mem - ToSwapOut(c, st', now))
  {
    var st' := Purged(st, ToPurge(c, st, now));
    assert ToPurge(c, st, now) * done == ToPurge(c, st, now);
    assert ToSwapOut(c, st', now) == ToSwapOut(c, st, now) - ToPurge(c, st, now);
  }

  lemma AssignUnfolds(c: Config, s: State, t: nat, found: bool)
    requires Inv(c, s) && !s.down && |s.pool.busy| < c.hard
    requires (t, found) == NextType(c, s.pool, s.queues, NREQTYPES)
    ensures found ==>
              && CanServe(c, s.pool, s.queues, t)
              && Serves(s.queues[t], Deq).Some? && Serves(s.queues[t], Deq).value.rtype == t
              && Inv(c, HandOut(c, s, t)) && Assign(c, s) == Assign(c, HandOut(c, s, t))
    ensures !found ==>
              var s' := s.(pool := s.pool.(turn := t));
              Inv(c, s') && Assign(c, s) == s' && Assign(c, s') == s'
  {
    if found {
      ServedType(s.queues[t], t);
      HandOutKeeps(c, s, t);
    } else {
      MoveTurn(c, s, t);
      StillNothing(c, s, t);
    }
  }

  /** Looking again from another type finds nothing either. */
  lemma StillNothing(c: Config, s: State, t: nat)
    requires Inv(c, s) && t < NREQTYPES && (t, false) == NextType(c, s.pool, s.queues, NREQTYPES)
    ensures NextType(c, s.pool.(turn := t), s.queues, NREQTYPES) == (t, false)
  {
    AllSaturatedOrEmpty(c, s.pool, s.queues);
    AllFail(c, s.pool, s.queues, NREQTYPES);
    AllFail(c, s.pool.(turn := t), s.queues, NREQTYPES);
  }

  lemma {:induction false} AllFail(c: Config, p: Pool, qs: seq<Queue>, n: nat)
    requires ValidConfig(c) && |p.num| == |qs| == NREQTYPES && p.turn < NREQTYPES && n <= NREQTYPES
    requires forall t :: 0 <= t < NREQTYPES ==> !CanServe(c, p, qs, t)
    ensures NextType(c, p, qs, n) == (Tried(p.turn, n), false)
    decreases n
  {
    if n > 0 {
      var p' := p.(turn := (p.turn + 1) % NREQTYPES);
      forall t | 0 <= t < NREQTYPES ensures !CanServe(c, p', qs, t) {
        assert !CanServe(c, p, qs, t);
      }
      AllFail(c, p', qs, n - 1);
    }
  }
}
