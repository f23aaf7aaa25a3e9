/** Restarts of the server. A life of the server begins with what the state file and the request
    directory hold, runs, saves its state, and shuts down while connections and handlers go on; the
    next life begins with what is left. Without a state file the requests are found by their files. */
module Restart {
  import opened Prioritizer
  import opened Wrappers
  import opened Server

  // ---------------------------------------------------------------------------
  // Properties of whole lives
  // ---------------------------------------------------------------------------

  /** No queued request is ready. */
  ghost predicate CleanQueue(s: State) {
    forall r :: Queued(s.queues, r) ==> r !in s.flags.ready
  }

  /** Every finished request has its file. */
  ghost predicate Complete(st: Store) {
    forall id :: id in st.infos && st.infos[id].ready ==> id in st.disk
  }

  /** What holds of s and survives. */
  ghost predicate Kept(s: State, s': State) {
    && (CleanQueue(s) ==> CleanQueue(s'))
    && (Complete(s.store) ==> Complete(s'.store))
  }

  lemma {:induction false} AssignKept(c: Config, s: State)
    requires Inv(c, s) && !s.down
    ensures Kept(s, Assign(c, s))
    decreases c.hard - |s.pool.busy|
  {
    if |s.pool.busy| < c.hard {
      var (t, found) := NextType(c, s.pool, s.queues, NREQTYPES);
      if found {
        HandOutKeeps(c, s, t);
        DequeueKeeps(s.queues, t, s.store, s.flags);
        assert Kept(s, HandOut(c, s, t));
        AssignKept(c, HandOut(c, s, t));
      }
    }
  }

  lemma SaveComplete(st: Store, r: Request)
    requires Complete(st)
    ensures Complete(Save(st, r))
  {
  }

  lemma DetachOneKept(s: State, i: nat)
    requires i < |s.pool.busy| && CountedAt(s.pool, i)
    ensures Kept(s, DetachOne(s, i).0)
  {
    if Complete(s.store) && IsIn(s.pool.busy[i], s.flags.ready) {
      SaveComplete(s.store, s.pool.busy[i].req.value);
    }
  }

  lemma KeptTwice(s: State, s1: State, s2: State)
    requires Kept(s, s1) && Kept(s1, s2)
    ensures Kept(s, s2)
  {
  }

  lemma {:induction false} DetachKept(c: Config, s: State, i: nat)
    requires Inv(c, s) && i <= |s.pool.busy|
    ensures Kept(s, Detach(c, s, i))
    decreases |s.pool.busy| - i
  {
    if i < |s.pool.busy| {
      DetachOneKeeps(c, s, i);
      DetachOneKept(s, i);
      var (s', i') := DetachOne(s, i);
      DetachKept(c, s', i');
      KeptTwice(s, s', Detach(c, s', i'));
    }
  }

  lemma FeedOneKept(c: Config, s: State, i: nat, o: Outcome)
    requires Inv(c, s) && i < |s.pool.busy|
    ensures Kept(s, FeedOne(s, i, o).0)
  {
    var h := s.pool.busy[i];
    if h.req.Some? {
      assert Attached(s.pool.busy, h.req.value);
    }
  }

  lemma {:induction false} FeedKept(c: Config, s: State, i: nat, outs: seq<Outcome>)
    requires Inv(c, s) && Detached(s.pool.busy, s.flags, i)
    ensures Kept(s, Feed(s, i, outs))
    decreases |outs|
  {
    if i < |s.pool.busy| && outs != [] {
      FeedOneKeeps(c, s, i, outs[0]);
      FeedOneKept(c, s, i, outs[0]);
      var (s', next) := FeedOne(s, i, outs[0]);
      FeedKept(c, s', next, outs[1..]);
    }
  }

  lemma KillKept(c: Config, s: State, id: nat)
    requires Inv(c, s) && id in s.store.mem && id in s.store.infos
    ensures Kept(s, Kill(s, id))
  {
    DropQueuedKeeps(s.queues, s.store.mem[id], s.store, s.flags);
  }

  lemma PurgeKept(c: Config, s: State, id: nat, user: User)
    requires Inv(c, s)
    ensures Kept(s, Client(s, PurgeRequest(id, user)))
  {
    if MayAccess(s.store, id, user) {
      LoadKeeps(c, s, id);
      var s1 := s.(store := Load(s.store, id));
      if id in s1.store.mem {
        KillKept(c, s1, id);
      }
    }
  }

  lemma QueueKept(c: Config, s: State, r: Request, now: nat)
    requires Inv(c, s) && r in s.store.pending
    ensures Kept(s, Client(s, QueueRequest(r, true, now)))
  {
    AcceptedIsLive(c, s, r, now);
    EnqueueKeeps(s.queues, r);
  }

  lemma ClientKept(c: Config, s: State, e: ClientEvent)
    requires Inv(c, s)
    ensures Kept(s, Client(s, e))
  {
    match e
    case QueueRequest(r, accepted, now) =>
      if r in s.store.pending && accepted {
        QueueKept(c, s, r, now);
      }
    case PurgeRequest(id, user) => PurgeKept(c, s, id, user);
    case _ =>
  }

  lemma {:induction false} ClientsKept(c: Config, s: State, es: seq<ClientEvent>)
    requires Inv(c, s)
    ensures Kept(s, Clients(s, es))
    decreases |es|
  {
    if es != [] {
      ClientKeeps(c, s, es[0]);
      ClientKept(c, s, es[0]);
      ClientsKept(c, Client(s, es[0]), es[1..]);
    }
  }

  lemma CleanUpKept(s: State, c: Config, now: nat)
    ensures Kept(s, CleanUp(c, s, now))
  {
  }

  lemma BeforeSelectKept(c: Config, s: State)
    requires Inv(c, s)
    ensures Kept(s, BeforeSelect(c, s))
  {
    var s1 := s;
    if !s.down {
      AssignKeeps(c, s);
      AssignKept(c, s);
      s1 := Assign(c, s);
    }
    ShedKeeps(c, s1);
    var s2 := s1.(pool := Shed(c, s1.pool));
    assert Kept(s1, s2);
    DetachKept(c, s2, 0);
  }

  lemma CheckKept(c: Config, s: State, input: Input)
    requires Inv(c, s)
    ensures Kept(s, Check(c, s, input))
  {
    var s1 := BeforeSelect(c, s);
    BeforeSelectKept(c, s);
    BeforeSelectDetaches(c, s);
    if !input.interrupted {
      FeedKeeps(c, s1, 0, input.outs);
      FeedKept(c, s1, 0, input.outs);
      var s2 := Feed(s1, 0, input.outs);
      StillFreeKeeps(c, s2, input.freeOuts);
      var s3 := s2.(pool := s2.pool.(free := StillFree(s2.pool.free, input.freeOuts)));
      assert Kept(s2, s3);
      ClientsKept(c, s3, input.clients);
      CleanUpKept(Clients(s3, input.clients), c, input.now);
    }
  }

  lemma {:induction false} RunKept(c: Config, s: State, es: seq<Event>)
    requires Inv(c, s)
    ensures Kept(s, Run(c, s, es))
    decreases |es|
  {
    if es != [] {
      if es[0].Tick? {
        CheckKept(c, s, es[0].input);
        RunKept(c, Check(c, s, es[0].input), es[1..]);
      } else {
        ShutDownKeeps(c, s);
        assert Kept(s, ShutDown(s));
        RunKept(c, ShutDown(s), es[1..]);
      }
    }
  }

  // ---------------------------------------------------------------------------
  // Starting from what was saved
  // ---------------------------------------------------------------------------

  /** The state file and the request directory. */
  datatype Image = Image(infos: map<nat, Info>, files: map<nat, Desc>, count: nat)

  ghost predicate WellFormed(img: Image) {
    && (forall id :: id in img.infos ==> id < img.count)
    && (forall id :: id in img.files ==>
          id < img.count && img.files[id].req.id == id && img.files[id].req.rtype < NREQTYPES)
    && (forall id :: id in img.infos && img.infos[id].ready && id in img.files ==> img.files[id].ready)
  }

  /** What is put into the queue again: what the state file does not call ready, if it has a file. */
  function Requeued(img: Image): set<nat> {
    set id | id in img.infos && !img.infos[id].ready && id in img.files
  }

  /** The order in which the loop comes to them: that of the map of ids. */
  ghost predicate Lists(order: seq<nat>, ids: set<nat>) {
    && (forall id :: id in order <==> id in ids)
    && (forall i, j :: 0 <= i < j < |order| ==> order[i] != order[j])
  }

  function PutOne(qs: seq<Queue>, r: Request): (qs': seq<Queue>)
    requires AllQueuesValid(qs) && r.rtype < NREQTYPES
    ensures AllQueuesValid(qs')
  {
    qs[r.rtype := QStep(qs[r.rtype], Enq(r))]
  }

  ghost predicate AllQueuesValid(qs: seq<Queue>) {
    |qs| == NREQTYPES && forall t :: 0 <= t < NREQTYPES ==> ValidQueue(qs[t])
  }

  ghost predicate Typed(rs: seq<Request>) {
    forall i :: 0 <= i < |rs| ==> rs[i].rtype < NREQTYPES
  }

  /** The queues after the requests were put in this order. */
  function Requeue(rs: seq<Request>): (qs: seq<Queue>)
    requires Typed(rs)
    ensures AllQueuesValid(qs)
  {
    if rs == [] then NoQueues() else PutOne(Requeue(rs[..|rs| - 1]), rs[|rs| - 1])
  }

  /** What get_request() reads for the ids, one after the other. */
  function FilesOf(img: Image, order: seq<nat>): seq<Request>
    requires forall id :: id in order ==> id in img.files
  {
    seq(|order|, i requires 0 <= i < |order| => img.files[order[i]].req)
  }

  /** What is unfinished and has no file is forgotten. */
  function KnownInfos(img: Image): map<nat, Info> {
    map id | id in img.infos && (img.infos[id].ready || id in img.files) :: img.infos[id]
  }

  /** The unfinished requests are in memory, and those of loaded. */
  function InMemory(img: Image, loaded: set<nat>): map<nat, Request> {
    map id | id in img.infos && id in img.files && (!img.infos[id].ready || id in loaded) :: img.files[id].req
  }

  function ReadyInFiles(img: Image): set<Request> {
    set id | id in img.files && img.files[id].ready :: img.files[id].req
  }

  ghost predicate Fits(img: Image, order: seq<nat>) {
    (forall id :: id in order ==> id in img.files) && Typed(FilesOf(img, order))
  }

  /** restore_state(): loaded are finished requests that are in memory, too, as after a recovery. */
  function Restored(img: Image, order: seq<nat>, loaded: set<nat>): State
    requires Fits(img, order)
  {
    State(IdlePool(), Requeue(FilesOf(img, order)),
          Store(KnownInfos(img), InMemory(img, loaded), img.files, {}, img.count),
          Flags(ReadyInFiles(img), {}), false)
  }

  lemma {:induction false} RequeueQueues(rs: seq<Request>)
    requires Typed(rs) && forall i, j :: 0 <= i < j < |rs| ==> rs[i] != rs[j]
    ensures ValidQueues(Requeue(rs))
    ensures forall x :: Queued(Requeue(rs), x) <==> x in rs
    ensures forall t, u :: 0 <= t < NREQTYPES && u in Requeue(rs)[t].users ==> NoDup(Requeue(rs)[t].users[u])
  {
    if rs != [] {
      var n := |rs| - 1;
      assert rs == rs[..n] + [rs[n]];
      RequeueQueues(rs[..n]);
      EnqueueKeeps(Requeue(rs[..n]), rs[n]);
    }
  }

  lemma RestoredQueue(img: Image, order: seq<nat>)
    requires WellFormed(img) && Lists(order, Requeued(img))
    ensures Fits(img, order)
    ensures var qs := Requeue(FilesOf(img, order));
            && ValidQueues(qs)
            && (forall x :: Queued(qs, x) <==> x.id in Requeued(img) && img.files[x.id].req == x)
            && forall t, u :: 0 <= t < NREQTYPES && u in qs[t].users ==> NoDup(qs[t].users[u])
  {
    var rs := FilesOf(img, order);
    forall i | 0 <= i < |order| ensures rs[i].id == order[i] && rs[i].rtype < NREQTYPES {
      assert order[i] in order;
    }
    RequeueQueues(rs);
    forall x: Request | x.id in Requeued(img) && img.files[x.id].req == x ensures x in rs {
      var i :| 0 <= i < |order| && order[i] == x.id;
      assert rs[i] == x;
    }
  }

  lemma RestoredStore(img: Image, order: seq<nat>, loaded: set<nat>)
    requires WellFormed(img) && Lists(order, Requeued(img)) && Fits(img, order)
    ensures var s := Restored(img, order, loaded);
            StoreInv(s.store) && FlagsInv(s.store, s.flags) && PendingInv([], s.store, s.flags)
  {
  }

  lemma RestoredLive(img: Image, order: seq<nat>, loaded: set<nat>, r: Request)
    requires WellFormed(img) && Fits(img, order)
    requires r.id in Requeued(img) && img.files[r.id].req == r
    ensures Live(Restored(img, order, loaded).store, r)
  {
  }

  lemma RestoredQueueInv(img: Image, order: seq<nat>, loaded: set<nat>)
    requires WellFormed(img) && Lists(order, Requeued(img)) && Fits(img, order)
    ensures var s := Restored(img, order, loaded); QueueInv(s.queues, s.store, s.flags)
  {
    RestoredQueue(img, order);
    var s := Restored(img, order, loaded);
    forall r | Queued(s.queues, r) ensures Live(s.store, r) && r !in s.flags.zombie {
      RestoredLive(img, order, loaded, r);
    }
  }

  lemma IdleInv(c: Config, s: State)
    requires ValidConfig(c) && s.pool == IdlePool() && !s.down
    requires QueueInv(s.queues, s.store, s.flags) && StoreInv(s.store) && FlagsInv(s.store, s.flags)
    requires PendingInv([], s.store, s.flags)
    ensures Inv(c, s)
  {
  }

  lemma RestoredFits(img: Image, order: seq<nat>)
    requires WellFormed(img) && Lists(order, Requeued(img))
    ensures Fits(img, order)
  {
    RestoredQueue(img, order);
  }

  lemma RestoredInv(c: Config, img: Image, order: seq<nat>, loaded: set<nat>)
    requires ValidConfig(c) && WellFormed(img) && Lists(order, Requeued(img))
    ensures Fits(img, order) && Inv(c, Restored(img, order, loaded))
  {
    RestoredFits(img, order);
    RestoredQueueInv(img, order, loaded);
    RestoredStore(img, order, loaded);
    IdleInv(c, Restored(img, order, loaded));
  }

  /** The state at the beginning of a life. */
  ghost function Start(c: Config, img: Image, order: seq<nat>, loaded: set<nat>): (s: State)
    requires ValidConfig(c) && WellFormed(img) && Lists(order, Requeued(img))
    ensures Inv(c, s)
  {
    RestoredInv(c, img, order, loaded);
    Restored(img, order, loaded)
  }

  // ---------------------------------------------------------------------------
  // Saving the state and shutting down
  // ---------------------------------------------------------------------------

  /** save_state(): the unfinished requests are written to their files. */
  function SavedFiles(st: Store, f: Flags): map<nat, Desc> {
    map id | id in st.disk.Keys + st.mem.Keys && (id in st.disk || st.mem[id] !in f.ready) ::
      if id in st.mem && st.mem[id] !in f.ready then Desc(st.mem[id], false) else st.disk[id]
  }

  function SaveState(s: State): State {
    s.(store := s.store.(disk := SavedFiles(s.store, s.flags)))
  }

  lemma SavedFileOf(st: Store, f: Flags, id: nat)
    requires StoreInv(st) && id in SavedFiles(st, f)
    ensures id in st.disk || id in st.mem
    ensures SavedFiles(st, f)[id] ==
            if id in st.mem && st.mem[id] !in f.ready then Desc(st.mem[id], false) else st.disk[id]
  {
  }

  lemma SavedStoreInv(st: Store, f: Flags)
    requires StoreInv(st) && FlagsInv(st, f)
    ensures StoreInv(st.(disk := SavedFiles(st, f)))
  {
    forall id | id in SavedFiles(st, f)
      ensures SavedFiles(st, f)[id].req.id == id && SavedFiles(st, f)[id].req.rtype < NREQTYPES
      ensures id in st.infos && st.infos[id].ready ==> SavedFiles(st, f)[id].ready
    {
      SavedFileOf(st, f, id);
    }
  }

  lemma SavedFlagsInv(st: Store, f: Flags)
    requires StoreInv(st) && FlagsInv(st, f)
    ensures FlagsInv(st.(disk := SavedFiles(st, f)), f)
  {
    forall id | id in SavedFiles(st, f)
      ensures id < st.count && (SavedFiles(st, f)[id].ready ==> SavedFiles(st, f)[id].req in f.ready)
    {
      SavedFileOf(st, f, id);
    }
  }

  lemma SaveStateKeepsStore(c: Config, s: State)
    requires Inv(c, s)
    ensures StoreInv(SaveState(s).store) && FlagsInv(SaveState(s).store, s.flags)
    ensures PendingInv(s.pool.busy, SaveState(s).store, s.flags)
  {
    SavedStoreInv(s.store, s.flags);
    SavedFlagsInv(s.store, s.flags);
    assert forall id :: id in SavedFiles(s.store, s.flags) ==> id in s.store.disk || id in s.store.mem;
  }

  lemma SaveStateKeeps(c: Config, s: State)
    requires Inv(c, s)
    ensures Inv(c, SaveState(s)) && Kept(s, SaveState(s))
  {
    SaveStateKeepsStore(c, s);
    var s' := SaveState(s);
    forall r ensures Live(s.store, r) == Live(s'.store, r) {
    }
    assert QueueInv(s'.queues, s'.store, s'.flags);
    assert WorkInv(s'.pool.busy, s'.queues, s'.store, s'.flags);
  }

  /** The id was purged and will not come back in this life. */
  ghost predicate Forgotten(st: Store, id: nat) {
    id < st.count && id !in st.infos && id !in st.disk && forall r :: r in st.pending ==> r.id != id
  }

  /** What is known of an id: that it has a file and is finished, that it has a file, or that it has
      none and will get none. */
  datatype Kind = Ready | Known | Missing

  /** A file stays until its request is purged, and a finished request without a file gets none. */
  ghost predicate Watched(st: Store, id: nat, kind: Kind) {
    match kind
    case Ready => (id in st.infos && st.infos[id].ready && id in st.disk) || Forgotten(st, id)
    case Known => (id in st.infos && id in st.disk) || Forgotten(st, id)
    case Missing =>
      && id < st.count && id !in st.disk && (id in st.infos ==> st.infos[id].ready)
      && forall r :: r in st.pending ==> r.id != id
  }

  /** The saved request count, the files then, and the ids that are watched. */
  datatype AtSave = AtSave(n: nat, files: map<nat, Desc>, watch: map<nat, Kind>)

  /** What holds while the server goes down. */
  ghost predicate Closing(w: AtSave, s: State) {
    && s.down
    && (forall r :: Attached(s.pool.busy, r) ==> r.id < w.n)
    && (forall id :: id in s.store.disk ==>
          id < w.n && (s.store.disk[id].ready || (id in w.files && w.files[id] == s.store.disk[id])))
    && (forall id :: id in w.watch ==> Watched(s.store, id, w.watch[id]))
  }

  lemma SaveClosing(st: Store, r: Request, id: nat, kind: Kind)
    requires Watched(st, id, kind) && Live(st, r)
    ensures Watched(Save(st, r), id, kind)
  {
  }

  lemma DetachOneClosing(c: Config, w: AtSave, s: State, i: nat)
    requires Inv(c, s) && i < |s.pool.busy| && Closing(w, s) && CountedAt(s.pool, i)
    ensures Closing(w, DetachOne(s, i).0)
  {
    var b, s' := s.pool.busy, DetachOne(s, i).0;
    forall r | Attached(s'.pool.busy, r) ensures Attached(b, r) {
      if IsIn(b[i], s.flags.ready) {
        ErasedNotAttached(b, i);
      } else {
        var j :| 0 <= j < |s'.pool.busy| && s'.pool.busy[j].req == Some(r);
        assert b[j].req == Some(r);
      }
    }
    if IsIn(b[i], s.flags.ready) {
      assert Attached(b, b[i].req.value);
      forall id | id in w.watch && b[i].req.value !in s.flags.zombie ensures Watched(s'.store, id, w.watch[id]) {
        SaveClosing(s.store, b[i].req.value, id, w.watch[id]);
      }
    }
  }

  lemma {:induction false} DetachClosing(c: Config, w: AtSave, s: State, i: nat)
    requires Inv(c, s) && i <= |s.pool.busy| && Closing(w, s)
    ensures Closing(w, Detach(c, s, i))
    decreases |s.pool.busy| - i
  {
    if i < |s.pool.busy| {
      DetachOneKeeps(c, s, i);
      DetachOneClosing(c, w, s, i);
      var (s', i') := DetachOne(s, i);
      DetachClosing(c, w, s', i');
    }
  }

  lemma FeedOneClosing(c: Config, w: AtSave, s: State, i: nat, o: Outcome)
    requires Inv(c, s) && i < |s.pool.busy| && Closing(w, s)
    ensures Closing(w, FeedOne(s, i, o).0)
  {
    ErasedNotAttached(s.pool.busy, i);
  }

  lemma {:induction false} FeedClosing(c: Config, w: AtSave, s: State, i: nat, outs: seq<Outcome>)
    requires Inv(c, s) && Detached(s.pool.busy, s.flags, i) && Closing(w, s)
    ensures Closing(w, Feed(s, i, outs))
    decreases |outs|
  {
    if i < |s.pool.busy| && outs != [] {
      FeedOneKeeps(c, s, i, outs[0]);
      FeedOneClosing(c, w, s, i, outs[0]);
      var (s', next) := FeedOne(s, i, outs[0]);
      FeedClosing(c, w, s', next, outs[1..]);
    }
  }

  lemma ClientClosing(c: Config, w: AtSave, s: State, e: ClientEvent)
    requires Inv(c, s) && Closing(w, s)
    ensures Closing(w, Client(s, e))
  {
    var s' := Client(s, e);
    forall id | id in w.watch ensures Watched(s'.store, id, w.watch[id]) {
      assert Watched(s.store, id, w.watch[id]);
      ClientForgets(c, s, e, id, w.watch[id]);
    }
  }

  lemma KillForgets(s: State, id: nat, kind: Kind, k: nat)
    requires ValidQueues(s.queues) && StoreInv(s.store) && Watched(s.store, id, kind) && k in s.store.mem
    requires forall r :: r in s.store.pending ==> r.id !in s.store.infos
    ensures Watched(Kill(s, k).store, id, kind)
  {
    if k == id {
      assert id in s.store.infos;
    }
  }

  lemma LoadForgets(st: Store, id: nat, kind: Kind, k: nat)
    requires Watched(st, id, kind)
    ensures Watched(Load(st, k), id, kind)
  {
  }

  lemma PurgeForgets(c: Config, s: State, id: nat, kind: Kind, k: nat, user: User)
    requires Inv(c, s) && Watched(s.store, id, kind)
    ensures Watched(Client(s, PurgeRequest(k, user)).store, id, kind)
  {
    if MayAccess(s.store, k, user) {
      LoadKeepsStore(s.store, k);
      LoadForgets(s.store, id, kind, k);
      var s1 := s.(store := Load(s.store, k));
      if k in s1.store.mem {
        KillForgets(s1, id, kind, k);
      }
    }
  }

  lemma AcceptForgets(st: Store, id: nat, kind: Kind, r: Request, now: nat)
    requires Watched(st, id, kind) && r in st.pending && r.id !in st.infos
    ensures Watched(Accept(st, r, now), id, kind)
  {
  }

  lemma ClientForgets(c: Config, s: State, e: ClientEvent, id: nat, kind: Kind)
    requires Inv(c, s) && Watched(s.store, id, kind)
    ensures Watched(Client(s, e).store, id, kind)
  {
    match e
    case QueueRequest(r, accepted, now) =>
      if r in s.store.pending {
        AcceptForgets(s.store, id, kind, r, now);
      }
    case PurgeRequest(k, user) => PurgeForgets(c, s, id, kind, k, user);
    case _ =>
  }

  lemma {:induction false} ClientsClosing(c: Config, w: AtSave, s: State, es: seq<ClientEvent>)
    requires Inv(c, s) && Closing(w, s)
    ensures Closing(w, Clients(s, es))
    decreases |es|
  {
    if es != [] {
      ClientKeeps(c, s, es[0]);
      ClientClosing(c, w, s, es[0]);
      ClientsClosing(c, w, Client(s, es[0]), es[1..]);
    }
  }

  lemma CleanUpClosing(c: Config, w: AtSave, s: State, now: nat)
    requires Inv(c, s) && Closing(w, s)
    ensures Closing(w, CleanUp(c, s, now))
  {
    forall id | id in w.watch ensures Watched(CleanUp(c, s, now).store, id, w.watch[id]) {
      assert Watched(s.store, id, w.watch[id]);
    }
  }

  lemma BeforeSelectClosing(c: Config, w: AtSave, s: State)
    requires Inv(c, s) && Closing(w, s)
    ensures Closing(w, BeforeSelect(c, s))
  {
    ShedKeeps(c, s);
    ShedClosing(c, w, s);
    DetachClosing(c, w, s.(pool := Shed(c, s.pool)), 0);
  }

  lemma AfterSelectClosing(c: Config, w: AtSave, s: State, input: Input)
    requires Inv(c, s) && Closing(w, s) && Detached(s.pool.busy, s.flags, 0)
    ensures Closing(w, AfterSelect(c, s, input))
  {
    FeedKeeps(c, s, 0, input.outs);
    FeedClosing(c, w, s, 0, input.outs);
    var s2 := Feed(s, 0, input.outs);
    StillFreeKeeps(c, s2, input.freeOuts);
    var s3 := s2.(pool := s2.pool.(free := StillFree(s2.pool.free, input.freeOuts)));
    assert Closing(w, s3);
    ClientsKeep(c, s3, input.clients);
    ClientsClosing(c, w, s3, input.clients);
    CleanUpClosing(c, w, Clients(s3, input.clients), input.now);
  }

  lemma CheckClosing(c: Config, w: AtSave, s: State, input: Input)
    requires Inv(c, s) && Closing(w, s)
    ensures Closing(w, Check(c, s, input))
  {
    BeforeSelectClosing(c, w, s);
    BeforeSelectDetaches(c, s);
    if !input.interrupted {
      AfterSelectClosing(c, w, BeforeSelect(c, s), input);
    }
  }

  lemma ShedClosing(c: Config, w: AtSave, s: State)
    requires Inv(c, s) && Closing(w, s)
    ensures Closing(w, s.(pool := Shed(c, s.pool)))
  {
    var p, p' := s.pool, Shed(c, s.pool);
    assert p.free != [] ==> p.free[0] in p.free;
    forall r | Attached(p'.busy, r) ensures Attached(p.busy, r) {
      var i :| 0 <= i < |p'.busy| && p'.busy[i].req == Some(r);
      assert i < |p.busy| && p.busy[i].req == Some(r);
    }
  }

  /** The loop of shutdown(). */
  function Close(c: Config, s: State, inputs: seq<Input>): (s': State)
    requires Inv(c, s)
    ensures Inv(c, s')
    decreases |inputs|
  {
    if inputs == [] then s else Close(c, Check(c, s, inputs[0]), inputs[1..])
  }

  lemma {:induction false} CloseClosing(c: Config, w: AtSave, s: State, inputs: seq<Input>)
    requires Inv(c, s) && Closing(w, s)
    ensures Closing(w, Close(c, s, inputs))
    decreases |inputs|
  {
    if inputs != [] {
      CheckClosing(c, w, s, inputs[0]);
      CloseClosing(c, w, Check(c, s, inputs[0]), inputs[1..]);
    }
  }

  // ---------------------------------------------------------------------------
  // Going down
  // ---------------------------------------------------------------------------

  /** save_state(), shutdown(), and what connections and handlers do until the handlers are gone. */
  ghost function Closed(c: Config, s: State, inputs: seq<Input>): (s': State)
    requires Inv(c, s)
    ensures Inv(c, s')
  {
    SaveStateKeeps(c, s);
    ShutDownKeeps(c, SaveState(s));
    Close(c, ShutDown(SaveState(s)), inputs)
  }

  // ---------------------------------------------------------------------------
  // Every run of one life
  // ---------------------------------------------------------------------------

  /** The counters of busy handlers are exact and within their limits, the pool is bounded, queued
      requests are live or left over, no request is both queued and in work, and requests in work are
      live or purged. */
  ghost predicate Orderly(c: Config, s: State) {
    && ValidConfig(c) && |s.pool.num| == NREQTYPES
    && (forall t :: 0 <= t < NREQTYPES ==>
          s.pool.num[t] == Count(s.pool.busy, t) && s.pool.num[t] <= c.maxHandlers[t])
    && |s.pool.free| + |s.pool.busy| <= c.hard
    && (forall r :: Queued(s.queues, r) ==>
          && !Attached(s.pool.busy, r)
          && ((Live(s.store, r) && r !in s.flags.zombie) || LeftOver(s.store, s.flags, r)))
    && (forall r :: Attached(s.pool.busy, r) ==> Live(s.store, r) || r in s.flags.zombie)
  }

  /** The next id is known, queued, in work and being written nowhere. */
  ghost predicate NextIdFree(s: State) {
    && s.store.count !in s.store.infos && s.store.count !in s.store.mem && s.store.count !in s.store.disk
    && forall r ::
         Queued(s.queues, r) || Attached(s.pool.busy, r) || r in s.store.pending ==> r.id != s.store.count
  }

  lemma InvIsOrderly(c: Config, s: State)
    requires Inv(c, s)
    ensures Orderly(c, s) && NextIdFree(s)
  {
    NewIdIsNew(c, s);
    forall r | Queued(s.queues, r) ensures !Attached(s.pool.busy, r) {
    }
  }

  /** In every reachable state of every life, before the state is saved and after it. */
  lemma EveryRun(c: Config, img: Image, order: seq<nat>, loaded: set<nat>, es: seq<Event>, inputs: seq<Input>)
    requires ValidConfig(c) && WellFormed(img) && Lists(order, Requeued(img))
    ensures var s := Run(c, Start(c, img, order, loaded), es);
            && Orderly(c, s) && NextIdFree(s)
            && Orderly(c, Closed(c, s, inputs)) && NextIdFree(Closed(c, s, inputs))
  {
    var s := Run(c, Start(c, img, order, loaded), es);
    InvIsOrderly(c, s);
    InvIsOrderly(c, Closed(c, s, inputs));
  }

  lemma {:induction false} CloseKept(c: Config, s: State, inputs: seq<Input>)
    requires Inv(c, s)
    ensures Kept(s, Close(c, s, inputs))
    decreases |inputs|
  {
    if inputs != [] {
      CheckKept(c, s, inputs[0]);
      CloseKept(c, Check(c, s, inputs[0]), inputs[1..]);
    }
  }

  lemma ClosedKept(c: Config, s: State, inputs: seq<Input>)
    requires Inv(c, s)
    ensures Kept(s, Closed(c, s, inputs))
  {
    SaveStateKeeps(c, s);
    ShutDownKeeps(c, SaveState(s));
    assert Kept(SaveState(s), ShutDown(SaveState(s)));
    CloseKept(c, ShutDown(SaveState(s)), inputs);
    KeptTwice(s, SaveState(s), ShutDown(SaveState(s)));
    KeptTwice(s, ShutDown(SaveState(s)), Closed(c, s, inputs));
  }

  /** The request of every known id can be found. */
  ghost predicate AllFound(st: Store) {
    forall id :: id in st.infos ==> id in st.mem || id in st.disk
  }

  ghost predicate CompleteImage(img: Image) {
    forall id :: id in img.infos && img.infos[id].ready ==> id in img.files
  }

  lemma CompleteIsFound(c: Config, s: State)
    requires Inv(c, s) && Complete(s.store)
    ensures AllFound(s.store)
  {
  }

  lemma FoundAtStart(img: Image, order: seq<nat>, loaded: set<nat>)
    requires Fits(img, order)
    ensures AllFound(Restored(img, order, loaded).store) <==> CompleteImage(img)
    ensures Complete(Restored(img, order, loaded).store) <==> CompleteImage(img)
  {
    var st := Restored(img, order, loaded).store;
    forall id | id in img.infos && img.infos[id].ready ensures id in st.infos {
    }
  }

  ghost predicate FoundInAllRuns(c: Config, s: State)
    requires Inv(c, s)
  {
    && (forall es :: AllFound(Run(c, s, es).store))
    && (forall es, inputs :: AllFound(Closed(c, Run(c, s, es), inputs).store))
  }

  lemma CompleteRuns(c: Config, s: State)
    requires Inv(c, s) && Complete(s.store)
    ensures FoundInAllRuns(c, s)
  {
    forall es ensures AllFound(Run(c, s, es).store) {
      RunKept(c, s, es);
      CompleteIsFound(c, Run(c, s, es));
    }
    forall es, inputs ensures AllFound(Closed(c, Run(c, s, es), inputs).store) {
      RunKept(c, s, es);
      ClosedKept(c, Run(c, s, es), inputs);
      CompleteIsFound(c, Closed(c, Run(c, s, es), inputs));
    }
  }

  lemma FoundNow(c: Config, s: State)
    requires Inv(c, s) && FoundInAllRuns(c, s)
    ensures AllFound(s.store)
  {
    assert Run(c, s, []) == s;
  }

  /** Every known id has its request in memory or on disk throughout a life, if and only if the life
      began with a file for each request that the state file calls ready. */
  lemma AlwaysFound(c: Config, img: Image, order: seq<nat>, loaded: set<nat>)
    requires ValidConfig(c) && WellFormed(img) && Lists(order, Requeued(img))
    ensures FoundInAllRuns(c, Start(c, img, order, loaded)) <==> CompleteImage(img)
  {
    RestoredInv(c, img, order, loaded);
    FoundAtStart(img, order, loaded);
    if CompleteImage(img) {
      CompleteRuns(c, Start(c, img, order, loaded));
    } else if FoundInAllRuns(c, Start(c, img, order, loaded)) {
      FoundNow(c, Start(c, img, order, loaded));
    }
  }

  /** Queued requests are neither ready nor zombies. */
  ghost predicate FreshQueue(s: State) {
    forall r :: Queued(s.queues, r) ==> r !in s.flags.ready && r !in s.flags.zombie
  }

  lemma CleanIsFresh(c: Config, s: State)
    requires Inv(c, s)
    ensures CleanQueue(s) <==> FreshQueue(s)
  {
  }

  ghost predicate NoneReady(img: Image) {
    forall id :: id in Requeued(img) ==> !img.files[id].ready
  }

  lemma ReadyIsInFile(img: Image, r: Request)
    requires WellFormed(img)
    ensures r in ReadyInFiles(img) <==> r.id in img.files && img.files[r.id].ready && img.files[r.id].req == r
  {
  }

  lemma CleanAtStart(img: Image, order: seq<nat>, loaded: set<nat>)
    requires WellFormed(img) && Lists(order, Requeued(img)) && Fits(img, order)
    ensures CleanQueue(Restored(img, order, loaded)) <==> NoneReady(img)
  {
    RestoredQueue(img, order);
    var s := Restored(img, order, loaded);
    forall r: Request
      ensures r in s.flags.ready <==> r.id in img.files && img.files[r.id].ready && img.files[r.id].req == r
    {
      ReadyIsInFile(img, r);
    }
    forall id | id in Requeued(img) ensures Queued(s.queues, img.files[id].req) {
    }
  }

  ghost predicate FreshInAllRuns(c: Config, s: State)
    requires Inv(c, s)
  {
    && (forall es :: FreshQueue(Run(c, s, es)))
    && (forall es, inputs :: FreshQueue(Closed(c, Run(c, s, es), inputs)))
  }

  lemma CleanRuns(c: Config, s: State)
    requires Inv(c, s)
    ensures FreshInAllRuns(c, s) <==> CleanQueue(s)
  {
    CleanIsFresh(c, s);
    if CleanQueue(s) {
      forall es ensures FreshQueue(Run(c, s, es)) {
        RunKept(c, s, es);
        CleanIsFresh(c, Run(c, s, es));
      }
      forall es, inputs ensures FreshQueue(Closed(c, Run(c, s, es), inputs)) {
        RunKept(c, s, es);
        ClosedKept(c, Run(c, s, es), inputs);
        CleanIsFresh(c, Closed(c, Run(c, s, es), inputs));
      }
    } else {
      assert !FreshQueue(Run(c, s, []));
    }
  }

  /** No ready request and no zombie is ever queued in a life, if and only if no request was put back
      into the queue whose file calls it ready. */
  lemma QueueStaysFresh(c: Config, img: Image, order: seq<nat>, loaded: set<nat>)
    requires ValidConfig(c) && WellFormed(img) && Lists(order, Requeued(img))
    ensures FreshInAllRuns(c, Start(c, img, order, loaded)) <==> NoneReady(img)
  {
    RestoredInv(c, img, order, loaded);
    CleanAtStart(img, order, loaded);
    CleanRuns(c, Start(c, img, order, loaded));
  }

  // ---------------------------------------------------------------------------
  // What a life leaves behind
  // ---------------------------------------------------------------------------

  /** The state file was written before the shutdown, the files are those after it. */
  ghost function NextImage(c: Config, s: State, inputs: seq<Input>): Image
    requires Inv(c, s)
  {
    Image(s.store.infos, Closed(c, s, inputs).store.disk, s.store.count)
  }

  /** Without a state file every request that has a file is known, and finished as its file says. */
  ghost function RecoveredImage(files: map<nat, Desc>, now: nat): Image {
    Image(map id | id in files :: Info(files[id].req.user, now, files[id].ready), files, Above(files.Keys))
  }

  /** The least number above all of ids. */
  ghost function Above(ids: set<nat>): (n: nat)
    ensures forall id :: id in ids ==> id < n
    ensures if ids == {} then n == 0 else n > 0 && n - 1 in ids
  {
    if ids == {} then 0
    else
      var id :| id in ids;
      var n := Above(ids - {id});
      assert forall k :: k in ids ==> k == id || k in ids - {id};
      if id < n then n else id + 1
  }

  /** The ids that the state file calls finished. */
  function Finished(st: Store): set<nat> {
    set id | id in st.infos && st.infos[id].ready
  }

  /** What save_state() leaves, with some ids watched from then on. */
  ghost function Saving(s: State, watch: map<nat, Kind>): AtSave {
    AtSave(s.store.count, SavedFiles(s.store, s.flags), watch)
  }

  /** What is watched is true when the state is saved. */
  ghost predicate WatchedAtSave(s: State, watch: map<nat, Kind>) {
    forall id :: id in watch ==> Watched(SaveState(s).store, id, watch[id])
  }

  lemma ClosingAtFirst(c: Config, s: State, watch: map<nat, Kind>)
    requires Inv(c, s) && WatchedAtSave(s, watch)
    ensures Inv(c, ShutDown(SaveState(s)))
    ensures Closing(Saving(s, watch), ShutDown(SaveState(s)))
  {
    SaveStateKeeps(c, s);
    ShutDownKeeps(c, SaveState(s));
    ShutDownKeepsWork(s, s.pool.busy + s.pool.free);
    forall id | id in SavedFiles(s.store, s.flags) ensures id < s.store.count {
      SavedFileOf(s.store, s.flags, id);
    }
    forall id | id in watch ensures Watched(ShutDown(SaveState(s)).store, id, watch[id]) {
      assert Watched(SaveState(s).store, id, watch[id]);
    }
  }

  lemma ClosedClosing(c: Config, s: State, inputs: seq<Input>, watch: map<nat, Kind>)
    requires Inv(c, s) && WatchedAtSave(s, watch)
    ensures Closing(Saving(s, watch), Closed(c, s, inputs))
  {
    ClosingAtFirst(c, s, watch);
    CloseClosing(c, Saving(s, watch), ShutDown(SaveState(s)), inputs);
  }

  lemma WatchedInClosing(w: AtSave, s: State, id: nat)
    requires Closing(w, s) && id in w.watch
    ensures Watched(s.store, id, w.watch[id])
  {
  }

  lemma ClosedWatched(c: Config, s: State, inputs: seq<Input>, id: nat, kind: Kind)
    requires Inv(c, s) && Watched(SaveState(s).store, id, kind)
    ensures Watched(Closed(c, s, inputs).store, id, kind)
  {
    ClosedClosing(c, s, inputs, map[id := kind]);
    WatchedInClosing(Saving(s, map[id := kind]), Closed(c, s, inputs), id);
  }

  /** What a life leaves behind is fit to begin another one. */
  lemma NextIsWellFormed(c: Config, s: State, inputs: seq<Input>)
    requires Inv(c, s)
    ensures WellFormed(NextImage(c, s, inputs))
  {
    var s' := Closed(c, s, inputs);
    ClosedClosing(c, s, inputs, map[]);
    SaveStateKeepsStore(c, s);
    FilesWellFormed(c, s');
    forall id | id in s.store.infos && s.store.infos[id].ready && id in s'.store.disk ensures s'.store.disk[id].ready {
      assert id in SavedFiles(s.store, s.flags) ==> SaveState(s).store.disk[id].ready;
    }
  }

  lemma FilesWellFormed(c: Config, s: State)
    requires Inv(c, s)
    ensures forall id :: id in s.store.disk ==> s.store.disk[id].req.id == id && s.store.disk[id].req.rtype < NREQTYPES
    ensures forall id :: id in s.store.infos ==> id < s.store.count
  {
  }

  lemma RecoveredIsWellFormed(c: Config, s: State, now: nat)
    requires Inv(c, s)
    ensures WellFormed(RecoveredImage(s.store.disk, now)) && CompleteImage(RecoveredImage(s.store.disk, now))
    ensures NoneReady(RecoveredImage(s.store.disk, now))
  {
    FilesWellFormed(c, s);
    assert forall id :: id in s.store.disk <==> id in s.store.disk.Keys;
  }

  /** A finished request that has its file keeps it until it is purged; one without gets none. */
  lemma FinishedWatched(c: Config, s: State, id: nat)
    requires Inv(c, s) && id in Finished(s.store)
    ensures Watched(SaveState(s).store, id, if id in s.store.disk then Ready else Missing)
  {
    SaveStateKeepsStore(c, s);
    assert id in SavedFiles(s.store, s.flags) <==> id in s.store.disk;
  }

  lemma FinishedAtEnd(c: Config, s: State, inputs: seq<Input>, id: nat)
    requires Inv(c, s) && id in Finished(s.store)
    ensures id in Closed(c, s, inputs).store.disk <==> id in s.store.disk && id in Closed(c, s, inputs).store.infos
  {
    var kind := if id in s.store.disk then Ready else Missing;
    FinishedWatched(c, s, id);
    ClosedWatched(c, s, inputs, id, kind);
    WatchedMeans(Closed(c, s, inputs).store, id, kind);
  }

  lemma WatchedMeans(st: Store, id: nat, kind: Kind)
    requires Watched(st, id, kind)
    ensures kind.Missing? ==> id !in st.disk
    ensures !kind.Missing? ==> (id in st.disk <==> id in st.infos)
  {
  }

  /** The next life begins with a file for each finished request, if and only if each had its file
      when the state was saved and none was purged between that and the end. */
  lemma NextIsComplete(c: Config, s: State, inputs: seq<Input>)
    requires Inv(c, s)
    ensures CompleteImage(NextImage(c, s, inputs)) <==>
            forall id :: id in Finished(s.store) ==> id in s.store.disk && id in Closed(c, s, inputs).store.infos
  {
    forall id | id in Finished(s.store)
      ensures id in Closed(c, s, inputs).store.disk <==> id in s.store.disk && id in Closed(c, s, inputs).store.infos
    {
      FinishedAtEnd(c, s, inputs, id);
    }
  }

  /** A life: a configuration, the order in which the loop of restore_state() came to the ids, what it
      loaded besides, what happened, and how it ended. */
  datatype Life = Life(c: Config, order: seq<nat>, loaded: set<nat>, events: seq<Event>,
                       saved: bool, closing: seq<Input>, now: nat)

  ghost predicate Possible(img: Image, l: Life) {
    ValidConfig(l.c) && Lists(l.order, Requeued(img))
  }

  /** What is left when the life is over. */
  ghost function LeftBehind(img: Image, l: Life): (img': Image)
    requires WellFormed(img) && Possible(img, l)
    ensures WellFormed(img')
  {
    var s := Run(l.c, Start(l.c, img, l.order, l.loaded), l.events);
    NextIsWellFormed(l.c, s, l.closing);
    RecoveredIsWellFormed(l.c, s, l.now);
    if l.saved then NextImage(l.c, s, l.closing) else RecoveredImage(s.store.disk, l.now)
  }

  ghost predicate PossibleLives(img: Image, lives: seq<Life>)
    requires WellFormed(img)
    decreases |lives|
  {
    lives == [] || (Possible(img, lives[0]) && PossibleLives(LeftBehind(img, lives[0]), lives[1..]))
  }

  /** Whatever a server has gone through, its next life begins as EveryRun, AlwaysFound and
      QueueStaysFresh require. */
  ghost function AfterLives(img: Image, lives: seq<Life>): (img': Image)
    requires WellFormed(img) && PossibleLives(img, lives)
    ensures WellFormed(img')
    decreases |lives|
  {
    if lives == [] then img else AfterLives(LeftBehind(img, lives[0]), lives[1..])
  }

  // ---------------------------------------------------------------------------
  // A request that became ready just before the state was saved
  // ---------------------------------------------------------------------------

  ghost predicate OnDisk(st: Store, r: Request) {
    && r.id in st.disk && st.disk[r.id] == Desc(r, true)
    && r.id in st.infos && st.infos[r.id].ready
  }

  lemma OnDiskStays(c: Config, s: State, i: nat, r: Request)
    requires Inv(c, s) && i < |s.pool.busy| && OnDisk(s.store, r)
    ensures CountedAt(s.pool, i) && OnDisk(DetachOne(s, i).0.store, r)
  {
    DetachOneKeeps(c, s, i);
    var h := s.pool.busy[i];
    if IsIn(h, s.flags.ready) {
      assert Attached(s.pool.busy, h.req.value);
      assert h.req.value !in s.flags.zombie ==> h.req.value.id != r.id;
    }
  }

  lemma {:induction false} OnDiskStaysAll(c: Config, s: State, i: nat, r: Request)
    requires Inv(c, s) && i <= |s.pool.busy| && OnDisk(s.store, r)
    ensures OnDisk(Detach(c, s, i).store, r)
    decreases |s.pool.busy| - i
  {
    if i < |s.pool.busy| {
      OnDiskStays(c, s, i, r);
      DetachOneKeeps(c, s, i);
      var (s', i') := DetachOne(s, i);
      OnDiskStaysAll(c, s', i', r);
    }
  }

  lemma SavesHere(c: Config, s: State, i: nat, r: Request)
    requires Inv(c, s) && i < |s.pool.busy| && s.pool.busy[i].req == Some(r)
    requires r in s.flags.ready && r !in s.flags.zombie
    ensures CountedAt(s.pool, i) && OnDisk(DetachOne(s, i).0.store, r)
  {
    DetachOneKeeps(c, s, i);
    assert Attached(s.pool.busy, r);
    assert DetachOne(s, i).0.store == Save(s.store, r);
  }

  /** The handler at k > i is still there after the i-th was looked at. */
  lemma StillThere(s: State, i: nat, k: nat) returns (k': nat)
    requires i < k < |s.pool.busy| && CountedAt(s.pool, i)
    ensures var (s', i') := DetachOne(s, i); i' <= k' < |s'.pool.busy| && s'.pool.busy[k'] == s.pool.busy[k]
  {
    k' := if IsIn(s.pool.busy[i], s.flags.ready) then k - 1 else k;
  }

  lemma DetachNext(c: Config, s: State, i: nat)
    requires Inv(c, s) && i < |s.pool.busy| && CountedAt(s.pool, i) && Inv(c, DetachOne(s, i).0)
    ensures Detach(c, s, i) == Detach(c, DetachOne(s, i).0, DetachOne(s, i).1)
  {
  }

  /** A ready request that was not purged is on disk after the loop. */
  lemma {:induction false} DetachSaves(c: Config, s: State, i: nat, k: nat, r: Request)
    requires Inv(c, s) && i <= k < |s.pool.busy| && s.pool.busy[k].req == Some(r)
    requires r in s.flags.ready && r !in s.flags.zombie
    ensures OnDisk(Detach(c, s, i).store, r)
    decreases |s.pool.busy| - i
  {
    DetachOneKeeps(c, s, i);
    DetachNext(c, s, i);
    var (s', i') := DetachOne(s, i);
    if i == k {
      SavesHere(c, s, i, r);
      OnDiskStaysAll(c, s', i', r);
    } else {
      var k' := StillThere(s, i, k);
      DetachSaves(c, s', i', k', r);
    }
  }

  /** Going down, the first check() saves a request that became ready before. */
  lemma FirstCheckSaves(c: Config, s: State, k: nat)
    requires Inv(c, s) && k < |s.pool.busy| && s.pool.busy[k].req.Some?
    requires s.pool.busy[k].req.value in s.flags.ready && s.pool.busy[k].req.value !in s.flags.zombie
    ensures Inv(c, ShutDown(SaveState(s)))
    ensures OnDisk(BeforeSelect(c, ShutDown(SaveState(s))).store, s.pool.busy[k].req.value)
    ensures Watched(BeforeSelect(c, ShutDown(SaveState(s))).store, s.pool.busy[k].req.value.id, Ready)
  {
    var r, s1 := s.pool.busy[k].req.value, ShutDown(SaveState(s));
    SaveStateKeeps(c, s);
    ShutDownKeeps(c, SaveState(s));
    assert s1.pool.busy[k].req == Some(r) && s1.pool.free == [];
    DetachSaves(c, s1, 0, k, r);
  }

  lemma CheckKeepsFile(c: Config, s: State, input: Input, w: AtSave, id: nat)
    requires Inv(c, s) && Closing(w.(watch := map[]), s) && Watched(BeforeSelect(c, s).store, id, Ready)
    ensures Closing(w.(watch := map[id := Ready]), Check(c, s, input))
  {
    var s1 := BeforeSelect(c, s);
    BeforeSelectClosing(c, w.(watch := map[]), s);
    BeforeSelectDetaches(c, s);
    assert Closing(w.(watch := map[id := Ready]), s1);
    if !input.interrupted {
      AfterSelectClosing(c, w.(watch := map[id := Ready]), s1, input);
    }
  }

  lemma CloseFirst(c: Config, s: State, inputs: seq<Input>)
    requires Inv(c, s) && inputs != []
    ensures Close(c, s, inputs) == Close(c, Check(c, s, inputs[0]), inputs[1..])
  {
  }

  lemma CloseKeepsFile(c: Config, s: State, inputs: seq<Input>, w: AtSave, id: nat)
    requires Inv(c, s) && Closing(w.(watch := map[]), s) && Watched(BeforeSelect(c, s).store, id, Ready) && inputs != []
    ensures Watched(Close(c, s, inputs).store, id, Ready)
  {
    var w1 := w.(watch := map[id := Ready]);
    CheckKeepsFile(c, s, inputs[0], w, id);
    CloseClosing(c, w1, Check(c, s, inputs[0]), inputs[1..]);
    WatchedInClosing(w1, Close(c, Check(c, s, inputs[0]), inputs[1..]), id);
    CloseFirst(c, s, inputs);
  }

  /** A request that became ready and was not yet detached when the state was saved comes back both
      ready and queued, unless it is purged before the server is gone. */
  lemma RestartQueuesReady(c: Config, s: State, k: nat, inputs: seq<Input>)
    requires Inv(c, s) && k < |s.pool.busy| && s.pool.busy[k].req.Some? && inputs != []
    requires s.pool.busy[k].req.value in s.flags.ready && s.pool.busy[k].req.value !in s.flags.zombie
    requires s.pool.busy[k].req.value.id in Closed(c, s, inputs).store.infos
    ensures s.pool.busy[k].req.value.id in Requeued(NextImage(c, s, inputs))
    ensures NextImage(c, s, inputs).files[s.pool.busy[k].req.value.id].ready
    ensures !NoneReady(NextImage(c, s, inputs))
  {
    var id := s.pool.busy[k].req.value.id;
    UnfinishedInWork(c, s, k);
    ClosedHasFile(c, s, k, inputs);
    FinishedFile(c, Closed(c, s, inputs), id);
    var img := NextImage(c, s, inputs);
    assert id in img.infos && !img.infos[id].ready && id in img.files && img.files[id].ready;
  }

  lemma UnfinishedInWork(c: Config, s: State, k: nat)
    requires Inv(c, s) && k < |s.pool.busy| && s.pool.busy[k].req.Some? && s.pool.busy[k].req.value !in s.flags.zombie
    ensures s.pool.busy[k].req.value.id in s.store.infos && !s.store.infos[s.pool.busy[k].req.value.id].ready
  {
    assert Attached(s.pool.busy, s.pool.busy[k].req.value);
  }

  lemma ClosedHasFile(c: Config, s: State, k: nat, inputs: seq<Input>)
    requires Inv(c, s) && k < |s.pool.busy| && s.pool.busy[k].req.Some? && inputs != []
    requires s.pool.busy[k].req.value in s.flags.ready && s.pool.busy[k].req.value !in s.flags.zombie
    ensures Watched(Closed(c, s, inputs).store, s.pool.busy[k].req.value.id, Ready)
  {
    FirstCheckSaves(c, s, k);
    ClosingAtFirst(c, s, map[]);
    CloseKeepsFile(c, ShutDown(SaveState(s)), inputs, Saving(s, map[]), s.pool.busy[k].req.value.id);
  }

  lemma FinishedFile(c: Config, s: State, id: nat)
    requires Inv(c, s) && Watched(s.store, id, Ready) && id in s.store.infos
    ensures id in s.store.disk && s.store.disk[id].ready
  {
  }

  /** If such a request is still queued when its user purges it, the zombie stays in the queue. */
  lemma PurgeLeavesZombie(c: Config, s: State, r: Request)
    requires Inv(c, s) && Queued(s.queues, r) && r in s.flags.ready && r !in s.flags.zombie
    ensures var s' := Client(s, PurgeRequest(r.id, "admin"));
            Queued(s'.queues, r) && r in s'.flags.zombie && LeftOver(s'.store, s'.flags, r)
  {
    assert Live(s.store, r);
    PurgeLeavesQueue(s, r.id);
  }
}
