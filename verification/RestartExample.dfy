/** A server, restarted once, with a zombie in its queue. In its first life a request becomes ready, and
    before it is detached the server is told to stop; in the second one it is queued again and,
    while another request has the only handler, it is purged. */
module RestartExample {
  import opened Prioritizer
  import opened Wrappers
  import opened Server
  import opened Restart

  const ONE := Config([1, 1, 1, 1, 1, 1], 1, 1, 0, 0, 0)
  /** One handler at a time for type 0. */
  ghost predicate OneHandler(c: Config) {
    ValidConfig(c) && c.hard == 1 && c.maxHandlers[0] == 1
  }

  const FIRST := Request(0, "b", 0)
  const SECOND := Request(1, "a", 0)
  const NOTHING := Image(map[], map[], 0)

  /** Only requests of type 0 are queued. */
  ghost predicate OnlyType0(qs: seq<Queue>, users: UserLists) {
    ValidQueues(qs) && qs[0].users == users && forall t :: 0 < t < NREQTYPES ==> qs[t].users == map[]
  }

  ghost predicate Idle(s: State) {
    s.pool.free == [] && s.pool.busy == [] && !s.down
  }

  lemma AssignNone(c: Config, s: State)
    requires Inv(c, s) && Idle(s) && OnlyType0(s.queues, map[])
    ensures var a := Assign(c, s); a == s.(pool := s.pool.(turn := a.pool.turn))
  {
  }

  lemma AssignFirst(c: Config, s: State, x: Request)
    requires Inv(c, s) && OneHandler(c) && Idle(s) && OnlyType0(s.queues, s.queues[0].users)
    requires s.queues[0].users.Keys != {} && Serves(s.queues[0], Deq) == Some(x)
    ensures var a := Assign(c, s);
            && a.pool.busy == [Proc(Some(x), false)] && a.pool.free == [] && !a.down
            && a.queues == s.queues[0 := QStep(s.queues[0], Deq)] && a.store == s.store && a.flags == s.flags
  {
    var (t, found) := NextType(c, s.pool, s.queues, NREQTYPES);
    assert s.pool.num[0] == 0 && CanServe(c, s.pool, s.queues, 0);
    if !found {
      AllSaturatedOrEmpty(c, s.pool, s.queues);
    }
    assert t == 0;
    var h := HandOut(c, s, 0);
    assert h.pool.busy == [Proc(Some(x), false)];
    assert Assign(c, s) == Assign(c, h) == h;
  }

  lemma DetachNone(c: Config, s: State)
    requires Inv(c, s) && |s.pool.busy| <= 1 && Detached(s.pool.busy, s.flags, 0)
    ensures Detach(c, s, 0) == s
  {
  }

  lemma BeforeNone(c: Config, s: State)
    requires Inv(c, s) && Idle(s) && OnlyType0(s.queues, map[])
    ensures var b := BeforeSelect(c, s); b == s.(pool := s.pool.(turn := b.pool.turn))
  {
    AssignNone(c, s);
    AssignKeeps(c, s);
    DetachNone(c, Assign(c, s));
  }

  lemma BeforeFirst(c: Config, s: State, x: Request)
    requires Inv(c, s) && OneHandler(c) && Idle(s) && OnlyType0(s.queues, s.queues[0].users)
    requires s.queues[0].users.Keys != {} && Serves(s.queues[0], Deq) == Some(x)
    requires x !in s.flags.ready && x !in s.flags.zombie
    ensures BeforeSelect(c, s) == Assign(c, s)
  {
    AssignFirst(c, s, x);
    AssignKeeps(c, s);
    DetachNone(c, Assign(c, s));
  }

  // ---------------------------------------------------------------------------
  // The first life
  // ---------------------------------------------------------------------------

  const TICK1 := Input(false, [], [], [NewRequest("b", 0), QueueRequest(FIRST, true, 0)], false, 0)
  const TICK2 := Input(false, [Outcome(true, false)], [], [NewRequest("a", 0), QueueRequest(SECOND, true, 0)], false, 0)
  const DOWN := Input(true, [], [], [], false, 0)

  ghost predicate OneQueued(s: State) {
    && Idle(s) && OnlyType0(s.queues, map["b" := [FIRST]])
    && s.store == Store(map[0 := Info("b", 0, false)], map[0 := FIRST], map[], {}, 1) && s.flags == Flags({}, {})
  }

  lemma ClientsTwo(s: State, es: seq<ClientEvent>)
    requires ValidQueues(s.queues) && |es| == 2
    ensures Clients(s, es) == Client(Client(s, es[0]), es[1])
  {
    var last := es[1..];
    assert last[1..] == [] && last[0] == es[1];
    assert Clients(Client(s, es[0]), last) == Client(Client(s, es[0]), es[1]);
  }

  /** Two clients' requests: a new one is made and put into the queue. */
  lemma NewAndQueue(s: State, user: User, es: seq<ClientEvent>)
    requires ValidQueues(s.queues) && s.store.pending == {}
    requires es == [NewRequest(user, 0), QueueRequest(Request(s.store.count, user, 0), true, 0)]
    ensures var r, s' := Request(s.store.count, user, 0), Clients(s, es);
            && s'.store == Store(s.store.infos[r.id := Info(user, 0, false)], s.store.mem[r.id := r], s.store.disk, {},
                 r.id + 1)
            && s'.queues == s.queues[0 := QStep(s.queues[0], Enq(r))]
            && s'.flags == s.flags && s'.pool == s.pool && s'.down == s.down
  {
    var r := Request(s.store.count, user, 0);
    ClientsTwo(s, es);
    var s1 := Client(s, es[0]);
    assert s1.store.pending == {r};
    assert s1.store.pending - {r} == {};
  }

  lemma AfterTick1(c: Config, s: State)
    requires Inv(c, s) && OneHandler(c) && Idle(s) && OnlyType0(s.queues, map[])
    requires s.store == Store(map[], map[], map[], {}, 0) && s.flags == Flags({}, {})
    ensures OneQueued(AfterSelect(c, s, TICK1))
  {
    NewAndQueue(s, "b", TICK1.clients);
    StepKeepsType(s.queues[0], Enq(FIRST), 0);
    assert Requests(s.queues[0], "b") + [FIRST] == [FIRST];
    assert QStep(s.queues[0], Enq(FIRST)).users == map["b" := [FIRST]];
  }

  lemma FirstTick(c: Config, s: State)
    requires Inv(c, s) && OneHandler(c) && Idle(s) && OnlyType0(s.queues, map[])
    requires s.store == Store(map[], map[], map[], {}, 0) && s.flags == Flags({}, {})
    ensures OneQueued(Check(c, s, TICK1))
  {
    BeforeNone(c, s);
    BeforeSelectDetaches(c, s);
    AfterTick1(c, BeforeSelect(c, s));
  }

  ghost predicate Stopping(s: State) {
    && s.pool.free == [] && s.pool.busy == [Proc(Some(FIRST), false)] && !s.down
    && s.store == Store(map[0 := Info("b", 0, false), 1 := Info("a", 0, false)], map[0 := FIRST, 1 := SECOND], map[],
         {}, 2)
    && s.flags == Flags({FIRST}, {})
  }

  lemma AfterTick2(c: Config, s: State)
    requires Inv(c, s) && OneHandler(c) && s.pool.free == [] && s.pool.busy == [Proc(Some(FIRST), false)] && !s.down
    requires s.store == Store(map[0 := Info("b", 0, false)], map[0 := FIRST], map[], {}, 1) && s.flags == Flags({}, {})
    ensures Detached(s.pool.busy, s.flags, 0) && Stopping(AfterSelect(c, s, TICK2))
  {
    var f := Feed(s, 0, TICK2.outs);
    assert TICK2.outs[1..] == [];
    assert f == s.(flags := Flags({FIRST}, {}));
    NewAndQueue(f, "a", TICK2.clients);
  }

  lemma SecondTick(c: Config, s: State)
    requires Inv(c, s) && OneHandler(c) && OneQueued(s)
    ensures Stopping(Check(c, s, TICK2))
  {
    assert Begin({"b"}) == Some("b");
    assert s.queues[0].users.Keys == {"b"};
    BeforeFirst(c, s, FIRST);
    AssignFirst(c, s, FIRST);
    AfterTick2(c, BeforeSelect(c, s));
  }

  // ---------------------------------------------------------------------------
  // Between the lives
  // ---------------------------------------------------------------------------

  const BETWEEN := Image(map[0 := Info("b", 0, false), 1 := Info("a", 0, false)],
                         map[0 := Desc(FIRST, true), 1 := Desc(SECOND, false)], 2)

  lemma SavedThenDown(c: Config, s: State)
    requires Inv(c, s) && OneHandler(c) && Stopping(s)
    ensures GoingDown(ShutDown(SaveState(s)))
  {
    assert SavedFiles(s.store, s.flags) == map[1 := Desc(SECOND, false)];
    var s0 := SaveState(s);
    var all := s0.pool.busy + s0.pool.free;
    assert all == [Proc(Some(FIRST), false)];
    assert InWork(all) - s.flags.ready == {};
    assert AllDown(all) == [Proc(Some(FIRST), true)];
  }

  lemma DetachOnly(c: Config, s: State)
    requires Inv(c, s) && |s.pool.busy| == 1 && IsIn(s.pool.busy[0], s.flags.ready)
    ensures CountedAt(s.pool, 0) && Detach(c, s, 0) == DetachOne(s, 0).0
  {
    DetachOneKeeps(c, s, 0);
    assert Erase(s.pool.busy, 0) == [];
  }

  lemma LastDetach(c: Config, s: State, input: Input)
    requires Inv(c, s) && s.pool.free == [] && s.pool.busy == [Proc(Some(FIRST), true)] && s.down
    requires s.flags == Flags({FIRST}, {}) && input.interrupted
    ensures Check(c, s, input).store.disk == s.store.disk[0 := Desc(FIRST, true)]
  {
    DetachOnly(c, s);
    assert DetachOne(s, 0).0.store == Save(s.store, FIRST);
    assert Shed(c, s.pool) == s.pool;
  }

  lemma CloseOnce(c: Config, s: State, inputs: seq<Input>)
    requires Inv(c, s) && |inputs| == 1
    ensures Close(c, s, inputs) == Check(c, s, inputs[0])
  {
    assert inputs[1..] == [];
  }

  lemma ClosedIs(c: Config, s: State, inputs: seq<Input>)
    requires Inv(c, s)
    ensures Inv(c, ShutDown(SaveState(s)))
    ensures Closed(c, s, inputs) == Close(c, ShutDown(SaveState(s)), inputs)
  {
    SaveStateKeeps(c, s);
    ShutDownKeeps(c, SaveState(s));
  }

  lemma CloseFiles(c: Config, s: State, inputs: seq<Input>)
    requires Inv(c, s) && GoingDown(s) && |inputs| == 1 && inputs[0].interrupted
    ensures Close(c, s, inputs).store.disk == map[1 := Desc(SECOND, false)][0 := Desc(FIRST, true)]
  {
    CloseOnce(c, s, inputs);
    LastDetach(c, s, inputs[0]);
  }

  ghost predicate GoingDown(s: State) {
    && s.pool.free == [] && s.pool.busy == [Proc(Some(FIRST), true)] && s.down
    && s.flags == Flags({FIRST}, {}) && s.store.disk == map[1 := Desc(SECOND, false)]
  }

  lemma FilesBetween(files: map<nat, Desc>)
    requires files == map[1 := Desc(SECOND, false)][0 := Desc(FIRST, true)]
    ensures files == BETWEEN.files
  {
  }

  lemma GoDown(c: Config, s: State, inputs: seq<Input>)
    requires Inv(c, s) && OneHandler(c) && Stopping(s) && |inputs| == 1 && inputs[0].interrupted
    ensures NextImage(c, s, inputs) == BETWEEN
  {
    ClosedIs(c, s, inputs);
    SavedThenDown(c, s);
    CloseFiles(c, ShutDown(SaveState(s)), inputs);
    FilesBetween(Closed(c, s, inputs).store.disk);
  }

  // ---------------------------------------------------------------------------
  // The second life
  // ---------------------------------------------------------------------------

  const TICK3 := Input(false, [], [], [PurgeRequest(0, "b")], false, 0)

  lemma PutFirst(x: Request)
    ensures QStep(EMPTY_QUEUE, Enq(x)) == Queue(map[x.user := [x]], None)
  {
    assert [] + [x] == [x];
  }

  lemma PutSecond(q: Queue, x: Request, y: Request)
    requires q == Queue(map[x.user := [x]], None) && ValidQueue(q) && x.user != y.user
    ensures QStep(q, Enq(y)) == Queue(map[x.user := [x], y.user := [y]], None)
  {
    assert [] + [y] == [y];
  }

  lemma RequeueMore(rs: seq<Request>, x: Request)
    requires Typed(rs) && x.rtype < NREQTYPES
    ensures Typed(rs + [x]) && Requeue(rs + [x]) == PutOne(Requeue(rs), x)
  {
    assert (rs + [x])[..|rs|] == rs;
  }

  lemma RequeueTwo(x: Request, y: Request)
    requires x.rtype == y.rtype == 0 && x.user != y.user
    ensures Typed([x, y])
    ensures Requeue([x, y]) == NoQueues()[0 := Queue(map[x.user := [x], y.user := [y]], None)]
  {
    RequeueMore([], x);
    RequeueMore([x], y);
    assert [] + [x] == [x] && [x] + [y] == [x, y];
    PutFirst(x);
    PutSecond(QStep(EMPTY_QUEUE, Enq(x)), x, y);
  }

  lemma BetweenFits()
    ensures WellFormed(BETWEEN) && Lists([0, 1], Requeued(BETWEEN)) && Fits(BETWEEN, [0, 1])
    ensures FilesOf(BETWEEN, [0, 1]) == [FIRST, SECOND]
  {
    assert Requeued(BETWEEN) == {0, 1};
    RestoredQueue(BETWEEN, [0, 1]);
  }

  lemma BothRequeued()
    ensures WellFormed(BETWEEN) && Lists([0, 1], Requeued(BETWEEN)) && Fits(BETWEEN, [0, 1])
    ensures Restored(BETWEEN, [0, 1], {}).queues == NoQueues()[0 := Queue(map["b" := [FIRST], "a" := [SECOND]], None)]
  {
    BetweenFits();
    RequeueTwo(FIRST, SECOND);
  }

  lemma SmallerFirst()
    ensures Begin({"a", "b"}) == Some("a")
  {
    assert Less("a", "b");
    LessIrreflexive("a");
  }

  lemma SecondIsServed(c: Config, s: State)
    requires Inv(c, s) && OneHandler(c) && Idle(s)
    requires s.queues == NoQueues()[0 := Queue(map["b" := [FIRST], "a" := [SECOND]], None)]
    requires s.flags == Flags({FIRST}, {})
    ensures var b := BeforeSelect(c, s);
            Queued(b.queues, FIRST) && b.flags == s.flags && b.store == s.store
  {
    SmallerFirst();
    var q := s.queues[0];
    assert q.users.Keys == {"a", "b"};
    assert Serves(q, Deq) == Some(SECOND);
    BeforeFirst(c, s, SECOND);
    AssignFirst(c, s, SECOND);
    StepOfUser(q, Deq, "b");
  }

  lemma ClientsOne(s: State, es: seq<ClientEvent>)
    requires ValidQueues(s.queues) && |es| == 1
    ensures Clients(s, es) == Client(s, es[0])
  {
    assert es[1..] == [];
  }

  lemma PurgeOnly(s: State, input: Input)
    requires ValidQueues(s.queues) && input == TICK3
    ensures Feed(s, 0, input.outs) == s && StillFree(s.pool.free, input.freeOuts) == s.pool.free
    ensures Clients(s, input.clients) == Client(s, PurgeRequest(0, "b")) && !input.cleanup
  {
    ClientsOne(s, input.clients);
  }

  lemma PurgedWhileQueued(c: Config, s: State, input: Input)
    requires Inv(c, s) && Detached(s.pool.busy, s.flags, 0) && Queued(s.queues, FIRST)
    requires s.flags == Flags({FIRST}, {})
    requires input == TICK3 && 0 in s.store.infos && s.store.infos[0].user == "b"
    ensures var s' := AfterSelect(c, s, input); Queued(s'.queues, FIRST) && FIRST in s'.flags.zombie
  {
    PurgeOnly(s, input);
    assert s.(pool := s.pool.(free := s.pool.free)) == s;
    assert Live(s.store, FIRST);
    PurgeLeavesQueue(s, 0);
  }

  /** The state that the second life begins with. */
  ghost predicate Second(s: State) {
    && Idle(s) && s.flags == Flags({FIRST}, {})
    && s.queues == NoQueues()[0 := Queue(map["b" := [FIRST], "a" := [SECOND]], None)]
    && 0 in s.store.infos && s.store.infos[0].user == "b"
  }

  lemma RestoredSecond(img: Image, order: seq<nat>)
    requires img == BETWEEN && order == [0, 1]
    ensures WellFormed(img) && Lists(order, Requeued(img)) && Fits(img, order) && Second(Restored(img, order, {}))
  {
    BothRequeued();
    forall r: Request ensures r in ReadyInFiles(img) <==> r == FIRST {
      ReadyIsInFile(img, r);
    }
    assert 0 in KnownInfos(img);
  }

  lemma StartsSecond(c: Config, img: Image, order: seq<nat>)
    requires ValidConfig(c) && img == BETWEEN && order == [0, 1]
    ensures WellFormed(img) && Lists(order, Requeued(img)) && Second(Start(c, img, order, {}))
  {
    RestoredSecond(img, order);
  }

  lemma ThirdTick(c: Config, s: State, input: Input)
    requires Inv(c, s) && OneHandler(c) && Second(s) && input == TICK3
    ensures var s' := Check(c, s, input); Queued(s'.queues, FIRST) && FIRST in s'.flags.zombie
  {
    SecondIsServed(c, s);
    BeforeSelectDetaches(c, s);
    PurgedWhileQueued(c, BeforeSelect(c, s), input);
  }

  lemma RunTwo(c: Config, s: State, a: Input, b: Input)
    requires Inv(c, s) && OneHandler(c)
    ensures Run(c, s, [Tick(a), Tick(b)]) == Check(c, Check(c, s, a), b)
    ensures Run(c, s, [Tick(a)]) == Check(c, s, a)
  {
    var es := [Tick(a), Tick(b)];
    assert es[1..] == [Tick(b)] && [Tick(b)][1..] == [] && [Tick(a)][1..] == [];
    var s1 := Check(c, s, a);
    assert Run(c, s1, [Tick(b)]) == Check(c, s1, b);
  }

  lemma FirstLife(c: Config, s: State)
    requires Inv(c, s) && OneHandler(c) && s == Fresh()
    ensures Stopping(Run(c, s, [Tick(TICK1), Tick(TICK2)]))
  {
    assert OnlyType0(s.queues, map[]);
    FirstTick(c, s);
    SecondTick(c, Check(c, s, TICK1));
    RunTwo(c, s, TICK1, TICK2);
  }

  lemma StartsFresh(c: Config)
    requires ValidConfig(c)
    ensures WellFormed(NOTHING) && Lists([], Requeued(NOTHING)) && Start(c, NOTHING, [], {}) == Fresh()
  {
    assert Requeued(NOTHING) == {} && KnownInfos(NOTHING) == map[] && InMemory(NOTHING, {}) == map[];
    assert FilesOf(NOTHING, []) == [] && ReadyInFiles(NOTHING) == {};
  }

  /** The whole run. */
  lemma ZombieInQueue() returns (l: Life, es: seq<Event>)
    ensures WellFormed(NOTHING) && Possible(NOTHING, l) && l.saved
    ensures var img := LeftBehind(NOTHING, l);
            && Lists([0, 1], Requeued(img))
            && var s := Run(ONE, Start(ONE, img, [0, 1], {}), es);
               Queued(s.queues, FIRST) && FIRST in s.flags.zombie
  {
    l, es := Life(ONE, [], {}, [Tick(TICK1), Tick(TICK2)], true, [DOWN], 0), [Tick(TICK3)];
    StartsFresh(ONE);
    FirstLife(ONE, Start(ONE, NOTHING, [], {}));
    GoDown(ONE, Run(ONE, Start(ONE, NOTHING, [], {}), l.events), l.closing);
    StartsSecond(ONE, LeftBehind(NOTHING, l), [0, 1]);
    var s := Start(ONE, LeftBehind(NOTHING, l), [0, 1], {});
    ThirdTick(ONE, s, TICK3);
    RunTwo(ONE, s, TICK3, TICK3);
  }
}
