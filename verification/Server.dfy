/** The scheduling loop of the server and the table of requests it keeps: queued requests are
    handed to a bounded pool of handler processes, finished ones are written to disk, swapped
    out, reloaded and purged. Handlers and requests are records here; the flags of the shared
    request objects are kept in one place, so that every holder sees them change. */
module Server {
  import opened Prioritizer
  import opened Wrappers

  // ---------------------------------------------------------------------------
  // State
  // ---------------------------------------------------------------------------

  /** A request handler as the scheduler sees it; down is shutdown_requested. */
  datatype Proc = Proc(req: Option<Request>, down: bool)

  datatype Info = Info(user: User, timestamp: nat, ready: bool)

  datatype Config = Config(maxHandlers: seq<nat>, hard: nat, soft: nat, purgeTime: nat, swapoutTime: nat,
                           maxPerUser: nat)

  /** num is num_handlers; turn is the static counter of get_next_req_from_queue. */
  datatype Pool = Pool(num: seq<nat>, free: seq<Proc>, busy: seq<Proc>, turn: nat)

  /** A .desc file: the request, and whether it was ready when it was saved. */
  datatype Desc = Desc(req: Request, ready: bool)

  /** infos, mem and count are request_infos, requests and request_count; disk holds the .desc
      files, pending the requests that connections are still filling in. */
  datatype Store = Store(infos: map<nat, Info>, mem: map<nat, Request>, disk: map<nat, Desc>,
                         pending: set<Request>, count: nat)

  /** ready and zombie are the flags of all request objects. */
  datatype Flags = Flags(ready: set<Request>, zombie: set<Request>)

  datatype State = State(pool: Pool, queues: seq<Queue>, store: Store, flags: Flags, down: bool)

  ghost predicate ValidConfig(c: Config) {
    |c.maxHandlers| == NREQTYPES
  }

  ghost predicate ValidQueues(qs: seq<Queue>) {
    && |qs| == NREQTYPES
    && forall t :: 0 <= t < NREQTYPES ==> ValidQueue(qs[t]) && AllOfType(qs[t].users, t)
  }

  // ---------------------------------------------------------------------------
  // Counting handlers
  // ---------------------------------------------------------------------------

  predicate Works(h: Proc, t: nat) {
    h.req.Some? && h.req.value.rtype == t
  }

  /** The busy handlers that work on a request of type t. */
  function Count(hs: seq<Proc>, t: nat): nat {
    if hs == [] then 0 else Count(hs[..|hs| - 1], t) + (if Works(hs[|hs| - 1], t) then 1 else 0)
  }

  lemma {:induction false} CountConcat(a: seq<Proc>, b: seq<Proc>, t: nat)
    ensures Count(a + b, t) == Count(a, t) + Count(b, t)
  {
    if b == [] {
      assert a + b == a;
    } else {
      var n := |b| - 1;
      assert (a + b)[..|a + b| - 1] == a + b[..n] && (a + b)[|a + b| - 1] == b[n];
      CountConcat(a, b[..n], t);
    }
  }

  lemma CountOne(h: Proc, t: nat)
    ensures Count([h], t) == if Works(h, t) then 1 else 0
  {
    assert [h][..0] == [];
  }

  lemma {:induction false} CountAtMost(hs: seq<Proc>, t: nat)
    ensures Count(hs, t) <= |hs|
  {
    if hs != [] {
      CountAtMost(hs[..|hs| - 1], t);
    }
  }

  /** The counters are right. */
  ghost predicate Counted(p: Pool) {
    |p.num| == NREQTYPES && forall t :: 0 <= t < NREQTYPES ==> p.num[t] == Count(p.busy, t)
  }

  ghost predicate PoolInv(c: Config, p: Pool) {
    && ValidConfig(c) && Counted(p) && p.turn < NREQTYPES
    && (forall t :: 0 <= t < NREQTYPES ==> p.num[t] <= c.maxHandlers[t])
    && |p.free| + |p.busy| <= c.hard
    && (forall h :: h in p.free ==> h.req == None)
  }

  // ---------------------------------------------------------------------------
  // Handing out requests
  // ---------------------------------------------------------------------------

  predicate CanServe(c: Config, p: Pool, qs: seq<Queue>, t: nat)
    requires ValidConfig(c) && |p.num| == |qs| == NREQTYPES && t < NREQTYPES
  {
    p.num[t] < c.maxHandlers[t] && qs[t].users.Keys != {}
  }

  /** get_next_req_from_queue: try up to n types, starting with the one served last. */
  function NextType(c: Config, p: Pool, qs: seq<Queue>, n: nat): (r: (nat, bool))
    requires ValidConfig(c) && |p.num| == |qs| == NREQTYPES && p.turn < NREQTYPES
    ensures r.0 < NREQTYPES
    ensures r.1 ==> CanServe(c, p, qs, r.0)
    decreases n
  {
    if n == 0 then (p.turn, false)
    else if CanServe(c, p, qs, p.turn) then (p.turn, true)
    else NextType(c, p.(turn := (p.turn + 1) % NREQTYPES), qs, n - 1)
  }

  /** The type that is tried k turns after turn. */
  function Tried(turn: nat, k: nat): nat {
    if turn + k < NREQTYPES then turn + k else turn + k - NREQTYPES
  }

  lemma NextTried(turn: nat, k: nat)
    requires turn < NREQTYPES && 0 < k < NREQTYPES
    ensures Tried((turn + 1) % NREQTYPES, k - 1) == Tried(turn, k)
  {
  }

  /** No type is found only if every type that was tried is saturated or has nothing queued. */
  lemma {:induction false} NothingToServe(c: Config, p: Pool, qs: seq<Queue>, n: nat, k: nat)
    requires ValidConfig(c) && |p.num| == |qs| == NREQTYPES && p.turn < NREQTYPES
    requires k < n <= NREQTYPES && !NextType(c, p, qs, n).1
    ensures !CanServe(c, p, qs, Tried(p.turn, k))
    decreases n
  {
    if k > 0 {
      NextTried(p.turn, k);
      NothingToServe(c, p.(turn := (p.turn + 1) % NREQTYPES), qs, n - 1, k - 1);
    }
  }

  /** The type to try first so that t comes up. */
  function TurnsUntil(turn: nat, t: nat): (k: nat)
    requires turn < NREQTYPES && t < NREQTYPES
    ensures k < NREQTYPES && Tried(turn, k) == t
  {
    if t >= turn then t - turn else t + NREQTYPES - turn
  }

  lemma AllSaturatedOrEmpty(c: Config, p: Pool, qs: seq<Queue>)
    requires ValidConfig(c) && |p.num| == |qs| == NREQTYPES && p.turn < NREQTYPES
    requires !NextType(c, p, qs, NREQTYPES).1
    ensures forall t :: 0 <= t < NREQTYPES ==> !CanServe(c, p, qs, t)
    ensures forall t :: 0 <= t < NREQTYPES ==> p.num[t] >= c.maxHandlers[t] || qs[t].users.Keys == {}
  {
    forall t | 0 <= t < NREQTYPES
      ensures !CanServe(c, p, qs, t) && (p.num[t] >= c.maxHandlers[t] || qs[t].users.Keys == {})
    {
      NothingToServe(c, p, qs, NREQTYPES, TurnsUntil(p.turn, t));
    }
  }

  /** Take a free handler or start a new one, and attach the request to it. */
  function Attach(p: Pool, r: Request): Pool
    requires |p.num| == NREQTYPES && r.rtype < NREQTYPES
  {
    var h := if p.free != [] then p.free[0] else Proc(None, false);
    p.(free := if p.free != [] then p.free[1..] else [],
       busy := p.busy + [h.(req := Some(r))],
       num := p.num[r.rtype := p.num[r.rtype] + 1])
  }

  lemma AttachKeepsPool(c: Config, p: Pool, r: Request)
    requires PoolInv(c, p) && r.rtype < NREQTYPES && p.num[r.rtype] < c.maxHandlers[r.rtype] && |p.busy| < c.hard
    ensures PoolInv(c, Attach(p, r))
  {
    var p' := Attach(p, r);
    forall t | 0 <= t < NREQTYPES ensures p'.num[t] == Count(p'.busy, t) {
      assert p'.busy[..|p'.busy| - 1] == p.busy;
    }
  }

  // ---------------------------------------------------------------------------
  // What stays true of requests
  // ---------------------------------------------------------------------------

  predicate Queued(qs: seq<Queue>, r: Request) {
    r.rtype < |qs| && r in Requests(qs[r.rtype], r.user)
  }

  predicate Attached(hs: seq<Proc>, r: Request) {
    exists i :: 0 <= i < |hs| && hs[i].req == Some(r)
  }

  /** A request that is neither finished nor purged: known, in memory, and not ready. */
  ghost predicate Live(st: Store, r: Request) {
    r.id in st.infos && !st.infos[r.id].ready && r.id in st.mem && st.mem[r.id] == r
  }

  /** A purged request that was left in the queue because it was ready. */
  ghost predicate LeftOver(st: Store, f: Flags, r: Request) {
    r.id !in st.infos && r in f.zombie && r in f.ready
  }

  /** Queued requests are live, or left over; each is queued once. */
  ghost predicate QueueInv(qs: seq<Queue>, st: Store, f: Flags) {
    && ValidQueues(qs)
    && (forall r :: Queued(qs, r) ==> (Live(st, r) && r !in f.zombie) || LeftOver(st, f, r))
    && (forall t, u :: 0 <= t < NREQTYPES && u in qs[t].users ==> NoDup(qs[t].users[u]))
  }

  /** Requests in work are live or purged, not queued, and each has one handler. */
  ghost predicate WorkInv(hs: seq<Proc>, qs: seq<Queue>, st: Store, f: Flags) {
    && (forall r :: Attached(hs, r) ==>
          && r.rtype < NREQTYPES && r.id < st.count && !Queued(qs, r)
          && (Live(st, r) || (r.id !in st.infos && r in f.zombie)))
    && (forall i, j :: 0 <= i < j < |hs| && hs[i].req.Some? ==> hs[i].req != hs[j].req)
  }

  /** Every known id is an old one; an unfinished request is in memory, and the file of a finished
      one, if there is one, says that it is ready. */
  ghost predicate StoreInv(st: Store) {
    && (forall id :: id in st.mem ==> id in st.infos && st.mem[id].id == id && st.mem[id].rtype < NREQTYPES)
    && (forall id :: id in st.disk ==> st.disk[id].req.id == id && st.disk[id].req.rtype < NREQTYPES)
    && (forall id :: id in st.infos ==> id < st.count)
    && (forall id :: id in st.infos && !st.infos[id].ready ==> id in st.mem)
    && (forall id :: id in st.infos && st.infos[id].ready && id in st.disk ==> st.disk[id].ready)
  }

  /** A request that is still being written has an id of its own. */
  ghost predicate PendingInv(hs: seq<Proc>, st: Store, f: Flags) {
    && (forall r :: r in st.pending ==>
          && r.rtype < NREQTYPES && r.id < st.count && r.id !in st.infos && r.id !in st.disk)
    && (forall r, x :: r in st.pending && (x in f.ready || x in f.zombie || Attached(hs, x)) ==> r.id != x.id)
    && (forall r, r' :: r in st.pending && r' in st.pending && r.id == r'.id ==> r == r')
  }

  /** A handler is told to go only after its request was detached, until the server goes down. */
  ghost predicate DownInv(p: Pool, f: Flags, down: bool) {
    && (!down ==> forall h :: h in p.free ==> !h.down)
    && (forall h :: h in p.busy && h.down && h.req.Some? ==>
          down && (h.req.value in f.ready || h.req.value in f.zombie))
  }

  /** Flags belong to requests that exist; a request is ready if its file or its info says so. */
  ghost predicate FlagsInv(st: Store, f: Flags) {
    && (forall r :: r in f.ready || r in f.zombie ==> r.id < st.count)
    && (forall id :: id in st.disk ==> id < st.count && (st.disk[id].ready ==> st.disk[id].req in f.ready))
    && (forall id :: id in st.mem && id in st.infos && st.infos[id].ready ==> st.mem[id] in f.ready)
  }

  ghost predicate Inv(c: Config, s: State) {
    && PoolInv(c, s.pool)
    && QueueInv(s.queues, s.store, s.flags)
    && WorkInv(s.pool.busy, s.queues, s.store, s.flags)
    && StoreInv(s.store)
    && PendingInv(s.pool.busy, s.store, s.flags)
    && DownInv(s.pool, s.flags, s.down)
    && FlagsInv(s.store, s.flags)
  }

  function IdlePool(): (p: Pool)
    ensures |p.num| == NREQTYPES && (forall t :: 0 <= t < NREQTYPES ==> p.num[t] == 0) && p.free == [] && p.busy == []
  {
    Pool(seq(NREQTYPES, _ => 0), [], [], 0)
  }

  function NoQueues(): (qs: seq<Queue>)
    ensures |qs| == NREQTYPES && forall t :: 0 <= t < NREQTYPES ==> qs[t] == EMPTY_QUEUE
  {
    seq(NREQTYPES, _ => EMPTY_QUEUE)
  }

  /** The state that the constructor makes. */
  function Fresh(): State {
    State(IdlePool(), NoQueues(), Store(map[], map[], map[], {}, 0), Flags({}, {}), false)
  }

  lemma FreshInv(c: Config)
    requires ValidConfig(c)
    ensures Inv(c, Fresh())
  {
  }

  // ---------------------------------------------------------------------------
  // The assignment loop
  // ---------------------------------------------------------------------------

  /** One turn of the loop: the request to hand out next, if any. */
  function Assign(c: Config, s: State): (s': State)
    requires ValidConfig(c) && |s.pool.num| == NREQTYPES && s.pool.turn < NREQTYPES && ValidQueues(s.queues)
    ensures ValidQueues(s'.queues) && s'.store == s.store && s'.flags == s.flags && s'.down == s.down
    decreases c.hard - |s.pool.busy|
  {
    if |s.pool.busy| >= c.hard then s
    else
      var (t, found) := NextType(c, s.pool, s.queues, NREQTYPES);
      var p := s.pool.(turn := t);
      if !found then s.(pool := p)
      else
        StepKeepsType(s.queues[t], Deq, t);
        Assign(c, HandOut(c, s, t))
  }

  lemma ServedType(q: Queue, t: nat)
    requires ValidQueue(q) && AllOfType(q.users, t) && q.users.Keys != {}
    ensures Serves(q, Deq).Some? && Serves(q, Deq).value.rtype == t
    ensures Serves(q, Deq).value in Requests(q, Serves(q, Deq).value.user)
  {
    var u := Turn(q);
    assert q.users[u][0] in q.users[u];
  }

  /** Serving r takes the first request from the list of its user. */
  lemma DequeueUsers(q: Queue)
    requires ValidQueue(q) && Serves(q, Deq).Some?
    ensures var q', r := QStep(q, Deq), Serves(q, Deq).value;
            forall u :: u in q'.users ==>
              u in q.users && q'.users[u] == if u == r.user then q.users[u][1..] else q.users[u]
  {
    var q', r := QStep(q, Deq), Serves(q, Deq).value;
    forall u | u in q'.users
      ensures u in q.users && q'.users[u] == if u == r.user then q.users[u][1..] else q.users[u]
    {
      StepOfUser(q, Deq, u);
      assert Requests(q', u) == q'.users[u];
    }
  }

  lemma DequeueValid(qs: seq<Queue>, t: nat)
    requires ValidQueues(qs) && t < NREQTYPES
    ensures ValidQueues(qs[t := QStep(qs[t], Deq)])
  {
    StepKeepsType(qs[t], Deq, t);
  }

  lemma DequeueQueued(qs: seq<Queue>, t: nat)
    requires ValidQueues(qs) && t < NREQTYPES && Serves(qs[t], Deq).Some?
    ensures forall x :: Queued(qs[t := QStep(qs[t], Deq)], x) ==> Queued(qs, x)
  {
    DequeueUsers(qs[t]);
    var qs' := qs[t := QStep(qs[t], Deq)];
    forall x | Queued(qs', x) ensures Queued(qs, x) {
      if x.rtype == t {
        assert x in qs'[t].users[x.user];
      }
    }
  }

  lemma DequeueOthers(qs: seq<Queue>, t: nat, x: Request)
    requires ValidQueues(qs) && t < NREQTYPES && Serves(qs[t], Deq).Some?
    requires Queued(qs, x) && x != Serves(qs[t], Deq).value
    ensures Queued(qs[t := QStep(qs[t], Deq)], x)
  {
    if x.rtype == t {
      StepOfUser(qs[t], Deq, x.user);
      var u := Turn(qs[t]);
      assert Requests(qs[t], u)[0] == Serves(qs[t], Deq).value;
    }
  }

  lemma DequeueNoDup(qs: seq<Queue>, t: nat)
    requires ValidQueues(qs) && t < NREQTYPES && Serves(qs[t], Deq).Some?
    requires forall i, u :: 0 <= i < NREQTYPES && u in qs[i].users ==> NoDup(qs[i].users[u])
    ensures var qs' := qs[t := QStep(qs[t], Deq)];
            forall i, u :: 0 <= i < NREQTYPES && u in qs'[i].users ==> NoDup(qs'[i].users[u])
  {
    DequeueUsers(qs[t]);
  }

  /** Serving r takes r out of the queue and nothing else in. */
  lemma DequeueKeeps(qs: seq<Queue>, t: nat, st: Store, f: Flags)
    requires QueueInv(qs, st, f) && t < NREQTYPES && qs[t].users.Keys != {}
    ensures var r, qs' := Serves(qs[t], Deq).value, qs[t := QStep(qs[t], Deq)];
            && QueueInv(qs', st, f)
            && Queued(qs, r) && r.rtype == t && !Queued(qs', r)
            && forall x :: Queued(qs', x) ==> Queued(qs, x)
  {
    var q := qs[t];
    ServedType(q, t);
    DequeueValid(qs, t);
    DequeueQueued(qs, t);
    DequeueNoDup(qs, t);
    var r := Serves(q, Deq).value;
    assert NoDup(q.users[r.user]);
    assert r == q.users[r.user][0] && r !in q.users[r.user][1..];
    StepOfUser(q, Deq, r.user);
  }

  lemma AttachKeepsWork(p: Pool, r: Request, qs: seq<Queue>, st: Store, f: Flags)
    requires WorkInv(p.busy, qs, st, f) && |p.num| == NREQTYPES && r.rtype < NREQTYPES
    requires Live(st, r) || (r.id !in st.infos && r in f.zombie)
    requires r.id < st.count && !Queued(qs, r) && !Attached(p.busy, r)
    ensures WorkInv(Attach(p, r).busy, qs, st, f)
    ensures forall x :: Attached(Attach(p, r).busy, x) <==> x == r || Attached(p.busy, x)
  {
    var b, b' := p.busy, Attach(p, r).busy;
    assert b'[|b|].req == Some(r);
    forall x ensures Attached(b', x) <==> x == r || Attached(b, x) {
      if Attached(b, x) {
        var i :| 0 <= i < |b| && b[i].req == Some(x);
        assert b'[i].req == Some(x);
      }
    }
    forall i, j | 0 <= i < j < |b'| && b'[i].req.Some? ensures b'[i].req != b'[j].req {
      if j == |b| {
        assert Attached(b, b'[i].req.value);
      }
    }
  }

  /** The state after handing out one request of type t. */
  function HandOut(c: Config, s: State, t: nat): (s': State)
    requires ValidConfig(c) && |s.pool.num| == NREQTYPES && t < NREQTYPES
    requires ValidQueues(s.queues) && s.queues[t].users.Keys != {}
    ensures s'.store == s.store && s'.flags == s.flags && s'.down == s.down
  {
    ServedType(s.queues[t], t);
    s.(pool := Attach(s.pool.(turn := t), Serves(s.queues[t], Deq).value),
       queues := s.queues[t := QStep(s.queues[t], Deq)])
  }

  lemma HandOutKeeps(c: Config, s: State, t: nat)
    requires Inv(c, s) && !s.down && |s.pool.busy| < c.hard && t < NREQTYPES && CanServe(c, s.pool, s.queues, t)
    ensures Inv(c, HandOut(c, s, t))
    ensures var r := Serves(s.queues[t], Deq).value; r.rtype == t && s.pool.num[r.rtype] < c.maxHandlers[r.rtype]
  {
    var s' := HandOut(c, s, t);
    var r := Serves(s.queues[t], Deq).value;
    var p := s.pool.(turn := t);
    DequeueKeeps(s.queues, t, s.store, s.flags);
    assert !Attached(p.busy, r);
    AttachKeepsPool(c, p, r);
    assert WorkInv(p.busy, s'.queues, s.store, s.flags);
    AttachKeepsWork(p, r, s'.queues, s.store, s.flags);
    assert PendingInv(s'.pool.busy, s.store, s.flags);
  }

  lemma MoveTurn(c: Config, s: State, t: nat)
    requires Inv(c, s) && t < NREQTYPES && !NextType(c, s.pool, s.queues, NREQTYPES).1
    ensures Inv(c, s.(pool := s.pool.(turn := t)))
    ensures NothingLeft(c, s.(pool := s.pool.(turn := t)))
  {
    var s' := s.(pool := s.pool.(turn := t));
    AllSaturatedOrEmpty(c, s.pool, s.queues);
  }

  ghost predicate NothingLeft(c: Config, s: State)
    requires ValidConfig(c) && |s.pool.num| == |s.queues| == NREQTYPES
  {
    || |s.pool.busy| >= c.hard
    || forall t :: 0 <= t < NREQTYPES ==> s.pool.num[t] >= c.maxHandlers[t] || s.queues[t].users.Keys == {}
  }

  /** The loop keeps everything, and stops only when the handlers are used up or every type is
      saturated or has nothing queued. */
  lemma {:induction false} AssignKeeps(c: Config, s: State)
    requires Inv(c, s) && !s.down
    ensures Inv(c, Assign(c, s)) && NothingLeft(c, Assign(c, s))
    decreases c.hard - |s.pool.busy|
  {
    if |s.pool.busy| < c.hard {
      var (t, found) := NextType(c, s.pool, s.queues, NREQTYPES);
      if found {
        HandOutKeeps(c, s, t);
        AssignKeeps(c, HandOut(c, s, t));
      } else {
        MoveTurn(c, s, t);
      }
    }
  }

  // ---------------------------------------------------------------------------
  // Shutting down one unneeded handler
  // ---------------------------------------------------------------------------

  function Shed(c: Config, p: Pool): Pool {
    if |p.free| > 0 && |p.free| > c.soft then
      p.(free := p.free[1..], busy := p.busy + [p.free[0].(down := true)])
    else p
  }

  lemma ShedKeeps(c: Config, s: State)
    requires Inv(c, s)
    ensures Inv(c, s.(pool := Shed(c, s.pool)))
  {
    var p, p' := s.pool, Shed(c, s.pool);
    if p' != p {
      assert p.free[0] in p.free;
      assert p'.busy[..|p'.busy| - 1] == p.busy;
      forall r ensures Attached(p'.busy, r) <==> Attached(p.busy, r) {
        if Attached(p.busy, r) {
          var i :| 0 <= i < |p.busy| && p.busy[i].req == Some(r);
          assert p'.busy[i].req == Some(r);
        }
      }
    }
  }

  // ---------------------------------------------------------------------------
  // Detaching finished and cancelled requests
  // ---------------------------------------------------------------------------

  function Erase<T>(xs: seq<T>, i: nat): seq<T>
    requires i < |xs|
  {
    xs[..i] + xs[i + 1..]
  }

  lemma CountErase(hs: seq<Proc>, i: nat, t: nat)
    requires i < |hs|
    ensures Count(hs, t) == Count(Erase(hs, i), t) + (if Works(hs[i], t) then 1 else 0)
  {
    assert hs == hs[..i] + ([hs[i]] + hs[i + 1..]);
    CountConcat(hs[..i], [hs[i]] + hs[i + 1..], t);
    CountConcat([hs[i]], hs[i + 1..], t);
    CountConcat(hs[..i], hs[i + 1..], t);
    CountOne(hs[i], t);
  }

  lemma CountReplace(hs: seq<Proc>, i: nat, h: Proc, t: nat)
    requires i < |hs|
    ensures Count(hs[i := h], t) + (if Works(hs[i], t) then 1 else 0) == Count(hs, t) + (if Works(h, t) then 1 else 0)
  {
    CountErase(hs, i, t);
    CountErase(hs[i := h], i, t);
    assert Erase(hs[i := h], i) == Erase(hs, i);
  }

  /** Mark the request info as ready and save the request. */
  function Save(st: Store, r: Request): Store {
    st.(infos := if r.id in st.infos then st.infos[r.id := st.infos[r.id].(ready := true)] else st.infos,
        disk := st.disk[r.id := Desc(r, true)])
  }

  function Less1(num: seq<nat>, t: nat): seq<nat>
    requires t < |num| && num[t] > 0
  {
    num[t := num[t] - 1]
  }

  /** The i-th busy handler is ready: free it, and save its request unless it was purged. */
  function Finish(s: State, i: nat): State
    requires i < |s.pool.busy| && s.pool.busy[i].req.Some?
    requires s.pool.busy[i].req.value.rtype < |s.pool.num| && s.pool.num[s.pool.busy[i].req.value.rtype] > 0
  {
    var p, h := s.pool, s.pool.busy[i];
    var r := h.req.value;
    s.(pool := p.(busy := Erase(p.busy, i), free := p.free + [h.(req := None)], num := Less1(p.num, r.rtype)),
       store := if r in s.flags.zombie then s.store else Save(s.store, r))
  }

  /** The i-th busy handler works on a purged request: detach it and shut the handler down. */
  function Cancel(s: State, i: nat): State
    requires i < |s.pool.busy| && s.pool.busy[i].req.Some?
    requires s.pool.busy[i].req.value.rtype < |s.pool.num| && s.pool.num[s.pool.busy[i].req.value.rtype] > 0
  {
    var p := s.pool;
    s.(pool := p.(busy := p.busy[i := Proc(None, true)], num := Less1(p.num, p.busy[i].req.value.rtype)))
  }

  /** The check that the counter of a handler's request type is positive cannot fail. */
  lemma CounterPositive(c: Config, s: State, i: nat)
    requires Inv(c, s) && i < |s.pool.busy| && s.pool.busy[i].req.Some?
    ensures s.pool.busy[i].req.value.rtype < NREQTYPES && s.pool.num[s.pool.busy[i].req.value.rtype] > 0
  {
    var r := s.pool.busy[i].req.value;
    assert Attached(s.pool.busy, r);
    CountErase(s.pool.busy, i, r.rtype);
  }

  lemma ErasedNotAttached(hs: seq<Proc>, i: nat)
    requires i < |hs| && forall j, k :: 0 <= j < k < |hs| && hs[j].req.Some? ==> hs[j].req != hs[k].req
    ensures forall r :: Attached(Erase(hs, i), r) ==> Attached(hs, r) && hs[i].req != Some(r)
    ensures forall j, k :: 0 <= j < k < |Erase(hs, i)| && Erase(hs, i)[j].req.Some? ==>
              Erase(hs, i)[j].req != Erase(hs, i)[k].req
    ensures forall h :: h in Erase(hs, i) ==> h in hs
  {
    var e := Erase(hs, i);
    forall r | Attached(e, r) ensures Attached(hs, r) && hs[i].req != Some(r) {
      var j :| 0 <= j < |e| && e[j].req == Some(r);
      assert e[j] == hs[if j < i then j else j + 1];
    }
  }

  lemma FinishKeepsPool(c: Config, s: State, i: nat)
    requires Inv(c, s) && i < |s.pool.busy| && s.pool.busy[i].req.Some?
    requires s.pool.busy[i].req.value.rtype < NREQTYPES && s.pool.num[s.pool.busy[i].req.value.rtype] > 0
    ensures PoolInv(c, Finish(s, i).pool) && PoolInv(c, Cancel(s, i).pool)
  {
    forall t | 0 <= t < NREQTYPES
      ensures Finish(s, i).pool.num[t] == Count(Finish(s, i).pool.busy, t)
      ensures Cancel(s, i).pool.num[t] == Count(Cancel(s, i).pool.busy, t)
    {
      CountErase(s.pool.busy, i, t);
      CountReplace(s.pool.busy, i, Proc(None, true), t);
    }
  }

  lemma SaveKeepsOthers(st: Store, r: Request, x: Request)
    requires Live(st, r) && Live(st, x) && x != r
    ensures Live(Save(st, r), x)
  {
    assert x.id != r.id;
  }

  lemma SaveKeepsStore(st: Store, r: Request)
    requires StoreInv(st) && Live(st, r)
    ensures StoreInv(Save(st, r))
  {
  }

  lemma SaveKeepsFlags(st: Store, r: Request, f: Flags)
    requires StoreInv(st) && FlagsInv(st, f) && Live(st, r) && r in f.ready
    ensures FlagsInv(Save(st, r), f)
  {
  }

  lemma SaveKeepsPending(st: Store, r: Request, hs: seq<Proc>, f: Flags)
    requires PendingInv(hs, st, f) && Live(st, r)
    ensures PendingInv(hs, Save(st, r), f)
  {
    assert forall id :: id in Save(st, r).infos <==> id in st.infos;
  }

  lemma SaveKeeps(st: Store, r: Request, hs: seq<Proc>, qs: seq<Queue>, f: Flags)
    requires StoreInv(st) && WorkInv(hs, qs, st, f) && QueueInv(qs, st, f) && PendingInv(hs, st, f) && FlagsInv(st, f)
    requires Live(st, r) && r in f.ready && !Attached(hs, r) && !Queued(qs, r)
    ensures StoreInv(Save(st, r)) && WorkInv(hs, qs, Save(st, r), f) && QueueInv(qs, Save(st, r), f)
    ensures PendingInv(hs, Save(st, r), f) && FlagsInv(Save(st, r), f)
  {
    SaveKeepsStore(st, r);
    SaveKeepsFlags(st, r, f);
    SaveKeepsPending(st, r, hs, f);
    forall x | Queued(qs, x) ensures (Live(Save(st, r), x) && x !in f.zombie) || LeftOver(Save(st, r), f, x) {
      if Live(st, x) { SaveKeepsOthers(st, r, x); }
    }
    forall x | Attached(hs, x) ensures Live(Save(st, r), x) || (x.id !in Save(st, r).infos && x in f.zombie) {
      if Live(st, x) { SaveKeepsOthers(st, r, x); }
    }
  }

  lemma FinishKeeps(c: Config, s: State, i: nat)
    requires Inv(c, s) && i < |s.pool.busy| && s.pool.busy[i].req.Some? && s.pool.busy[i].req.value in s.flags.ready
    requires s.pool.busy[i].req.value.rtype < NREQTYPES && s.pool.num[s.pool.busy[i].req.value.rtype] > 0
    ensures Inv(c, Finish(s, i))
    ensures s.pool.busy[i].req.value !in s.flags.zombie ==> s.pool.busy[i].req.value.id in s.store.infos
  {
    var b, r := s.pool.busy, s.pool.busy[i].req.value;
    var s' := Finish(s, i);
    assert Attached(b, r);
    FinishKeepsPool(c, s, i);
    ErasedNotAttached(b, i);
    assert WorkInv(Erase(b, i), s.queues, s.store, s.flags);
    assert PendingInv(Erase(b, i), s.store, s.flags);
    if r !in s.flags.zombie {
      SaveKeeps(s.store, r, Erase(b, i), s.queues, s.flags);
    }
    assert b[i] in b;
    assert DownInv(s'.pool, s.flags, s.down);
  }

  lemma CancelKeeps(c: Config, s: State, i: nat)
    requires Inv(c, s) && i < |s.pool.busy| && s.pool.busy[i].req.Some?
    requires s.pool.busy[i].req.value.rtype < NREQTYPES && s.pool.num[s.pool.busy[i].req.value.rtype] > 0
    ensures Inv(c, Cancel(s, i))
  {
    var b := s.pool.busy;
    var b' := b[i := Proc(None, true)];
    FinishKeepsPool(c, s, i);
    forall r | Attached(b', r) ensures Attached(b, r) {
      var j :| 0 <= j < |b'| && b'[j].req == Some(r);
      assert b[j].req == Some(r);
    }
    assert WorkInv(b', s.queues, s.store, s.flags);
    assert forall h :: h in b' ==> h in b || h == Proc(None, true);
    assert DownInv(Cancel(s, i).pool, s.flags, s.down);
  }

  predicate IsIn(h: Proc, rs: set<Request>) {
    h.req.Some? && h.req.value in rs
  }

  /** The handler's request, if any, is counted. */
  ghost predicate CountedAt(p: Pool, i: nat)
    requires i < |p.busy|
  {
    p.busy[i].req.Some? ==> p.busy[i].req.value.rtype < |p.num| && p.num[p.busy[i].req.value.rtype] > 0
  }

  /** The state after the i-th handler was looked at, and the next handler to look at. */
  function DetachOne(s: State, i: nat): (r: (State, nat))
    requires i < |s.pool.busy| && CountedAt(s.pool, i)
    ensures r.0.flags == s.flags && r.0.down == s.down && r.0.queues == s.queues
    ensures r.1 <= |r.0.pool.busy| && |r.0.pool.busy| - r.1 < |s.pool.busy| - i
  {
    if IsIn(s.pool.busy[i], s.flags.ready) then (Finish(s, i), i)
    else if IsIn(s.pool.busy[i], s.flags.zombie) then (Cancel(s, i), i + 1)
    else (s, i + 1)
  }

  lemma DetachOneKeeps(c: Config, s: State, i: nat)
    requires Inv(c, s) && i < |s.pool.busy|
    ensures CountedAt(s.pool, i) && Inv(c, DetachOne(s, i).0)
  {
    if s.pool.busy[i].req.Some? {
      CounterPositive(c, s, i);
      if IsIn(s.pool.busy[i], s.flags.ready) {
        FinishKeeps(c, s, i);
      } else {
        CancelKeeps(c, s, i);
      }
    }
  }

  /** The loop over the busy handlers, from the i-th on. */
  function Detach(c: Config, s: State, i: nat): (s': State)
    requires Inv(c, s) && i <= |s.pool.busy|
    ensures Inv(c, s') && s'.down == s.down && s'.flags == s.flags && s'.queues == s.queues
    decreases |s.pool.busy| - i
  {
    if i == |s.pool.busy| then s
    else
      DetachOneKeeps(c, s, i);
      var (s', i') := DetachOne(s, i);
      Detach(c, s', i')
  }

  /** From the i-th on, no handler still works on a finished or purged request. */
  ghost predicate Detached(hs: seq<Proc>, f: Flags, i: nat) {
    forall j :: i <= j < |hs| ==> !IsIn(hs[j], f.ready) && !IsIn(hs[j], f.zombie)
  }

  /** The first n handlers do not work on a finished or purged request. */
  ghost predicate Clear(hs: seq<Proc>, f: Flags, n: nat)
    requires n <= |hs|
  {
    forall j :: 0 <= j < n ==> !IsIn(hs[j], f.ready) && !IsIn(hs[j], f.zombie)
  }

  lemma ClearSteps(hs: seq<Proc>, f: Flags, n: nat)
    requires n < |hs| && Clear(hs, f, n)
    ensures Clear(Erase(hs, n), f, n) && Clear(hs[n := Proc(None, true)], f, n + 1)
    ensures !IsIn(hs[n], f.ready) && !IsIn(hs[n], f.zombie) ==> Clear(hs, f, n + 1)
  {
  }

  lemma {:induction false} DetachDetaches(c: Config, s: State, i: nat)
    requires Inv(c, s) && i <= |s.pool.busy| && Clear(s.pool.busy, s.flags, i)
    ensures Detached(Detach(c, s, i).pool.busy, s.flags, 0)
    decreases |s.pool.busy| - i
  {
    if i < |s.pool.busy| {
      ClearSteps(s.pool.busy, s.flags, i);
      DetachOneKeeps(c, s, i);
      var (s', i') := DetachOne(s, i);
      DetachDetaches(c, s', i');
    }
  }

  // ---------------------------------------------------------------------------
  // Feeding and checking the handlers
  // ---------------------------------------------------------------------------

  /** What one handler does: its responses may make its request ready, and its process may be
      gone. Reqhandler::check returns true only if a shutdown was requested, too. */
  datatype Outcome = Outcome(ready: bool, gone: bool)

  function Respond(s: State, h: Proc, o: Outcome): State {
    if o.ready && h.req.Some? then s.(flags := s.flags.(ready := s.flags.ready + {h.req.value})) else s
  }

  function RemoveBusy(s: State, i: nat): State
    requires i < |s.pool.busy|
  {
    s.(pool := s.pool.(busy := Erase(s.pool.busy, i)))
  }

  /** The outcome of the i-th handler, and the position to go on from. */
  function FeedOne(s: State, i: nat, o: Outcome): (r: (State, nat))
    requires i < |s.pool.busy|
    ensures |r.0.pool.busy| + i + 1 == |s.pool.busy| + r.1 && r.0.queues == s.queues
  {
    var s' := Respond(s, s.pool.busy[i], o);
    if o.gone && s.pool.busy[i].down then (RemoveBusy(s', i), i) else (s', i + 1)
  }

  function Feed(s: State, i: nat, outs: seq<Outcome>): (s': State)
    ensures s'.queues == s.queues
    decreases |outs|
  {
    if i >= |s.pool.busy| || outs == [] then s
    else
      var (s', next) := FeedOne(s, i, outs[0]);
      Feed(s', next, outs[1..])
  }

  lemma RespondKeeps(c: Config, s: State, i: nat, o: Outcome)
    requires Inv(c, s) && i < |s.pool.busy| && Detached(s.pool.busy, s.flags, i)
    ensures Inv(c, Respond(s, s.pool.busy[i], o))
    ensures Detached(s.pool.busy, Respond(s, s.pool.busy[i], o).flags, i + 1)
    ensures s.pool.busy[i].down ==> s.pool.busy[i].req == None
  {
    var h := s.pool.busy[i];
    assert h in s.pool.busy;
    if o.ready && h.req.Some? {
      assert Attached(s.pool.busy, h.req.value);
      ReadyKeeps(c, s, h.req.value);
    }
    RespondDetached(c, s, i, o);
  }

  /** A request in work becomes ready. */
  lemma ReadyKeeps(c: Config, s: State, r: Request)
    requires Inv(c, s) && Attached(s.pool.busy, r)
    ensures Inv(c, s.(flags := s.flags.(ready := s.flags.ready + {r})))
  {
    var f := s.flags.(ready := s.flags.ready + {r});
    assert QueueInv(s.queues, s.store, f);
    assert WorkInv(s.pool.busy, s.queues, s.store, f);
    assert PendingInv(s.pool.busy, s.store, f);
    assert FlagsInv(s.store, f);
  }

  lemma RespondDetached(c: Config, s: State, i: nat, o: Outcome)
    requires Inv(c, s) && i < |s.pool.busy| && Detached(s.pool.busy, s.flags, i)
    ensures Detached(s.pool.busy, Respond(s, s.pool.busy[i], o).flags, i + 1)
  {
    assert WorkInv(s.pool.busy, s.queues, s.store, s.flags);
  }

  lemma RemoveKeeps(c: Config, s: State, i: nat)
    requires Inv(c, s) && i < |s.pool.busy| && s.pool.busy[i].req == None
    ensures Inv(c, RemoveBusy(s, i))
  {
    var b := s.pool.busy;
    ErasedNotAttached(b, i);
    forall t | 0 <= t < NREQTYPES ensures s.pool.num[t] == Count(Erase(b, i), t) {
      CountErase(b, i, t);
    }
    assert WorkInv(Erase(b, i), s.queues, s.store, s.flags);
    assert DownInv(RemoveBusy(s, i).pool, s.flags, s.down);
  }

  /** A handler that is removed never takes a request with it. */
  lemma FeedOneKeeps(c: Config, s: State, i: nat, o: Outcome)
    requires Inv(c, s) && i < |s.pool.busy| && Detached(s.pool.busy, s.flags, i)
    ensures var (s', next) := FeedOne(s, i, o);
            Inv(c, s') && s'.down == s.down && Detached(s'.pool.busy, s'.flags, next)
    ensures FeedOne(s, i, o).1 == i ==> s.pool.busy[i].req == None
  {
    var h := s.pool.busy[i];
    var s' := Respond(s, h, o);
    RespondKeeps(c, s, i, o);
    if o.gone && h.down {
      RemoveKeeps(c, s', i);
      DetachedAfterRemoval(s'.pool.busy, s'.flags, i);
    }
  }

  lemma {:induction false} FeedKeeps(c: Config, s: State, i: nat, outs: seq<Outcome>)
    requires Inv(c, s) && Detached(s.pool.busy, s.flags, i)
    ensures Inv(c, Feed(s, i, outs)) && Feed(s, i, outs).down == s.down
    decreases |outs|
  {
    if i < |s.pool.busy| && outs != [] {
      FeedOneKeeps(c, s, i, outs[0]);
      var (s', next) := FeedOne(s, i, outs[0]);
      FeedKeeps(c, s', next, outs[1..]);
    }
  }

  lemma DetachedAfterRemoval(hs: seq<Proc>, f: Flags, i: nat)
    requires i < |hs| && Detached(hs, f, i + 1)
    ensures Detached(Erase(hs, i), f, i)
  {
    forall j | i <= j < |Erase(hs, i)|
      ensures !IsIn(Erase(hs, i)[j], f.ready) && !IsIn(Erase(hs, i)[j], f.zombie)
    {
      assert Erase(hs, i)[j] == hs[j + 1];
    }
  }

  /** The free handlers whose check returned false. */
  function StillFree(free: seq<Proc>, outs: seq<Outcome>): seq<Proc> {
    if free == [] || outs == [] then free
    else
      var rest := StillFree(free[1..], outs[1..]);
      if outs[0].gone && free[0].down then rest else [free[0]] + rest
  }

  /** "free handler has shut down" is reported only while the server itself is shutting down. */
  lemma {:induction false} FreeHandlersStay(free: seq<Proc>, outs: seq<Outcome>)
    ensures |StillFree(free, outs)| <= |free|
    ensures forall h :: h in StillFree(free, outs) ==> h in free
    ensures (forall h :: h in free ==> !h.down) ==> StillFree(free, outs) == free
  {
    if free != [] && outs != [] {
      FreeHandlersStay(free[1..], outs[1..]);
      assert free == [free[0]] + free[1..];
    }
  }

  // ---------------------------------------------------------------------------
  // What connections ask for
  // ---------------------------------------------------------------------------

  datatype ClientEvent =
    | NewRequest(user: User, rtype: nat)
    | QueueRequest(r: Request, accepted: bool, now: nat)
    | Abandon(r: Request)
    | FindRequest(id: nat, user: User, now: nat)
    | PurgeRequest(id: nat, user: User)

  function MayAccess(st: Store, id: nat, user: User): bool {
    id in st.infos && (user == "admin" || user == st.infos[id].user)
  }

  /** get_request: read the request back from disk unless it is in memory. */
  function Load(st: Store, id: nat): Store {
    if id !in st.mem && id in st.disk then st.(mem := st.mem[id := st.disk[id].req]) else st
  }

  function DropQueued(qs: seq<Queue>, r: Request): (qs': seq<Queue>)
    requires ValidQueues(qs)
    ensures ValidQueues(qs')
  {
    if r.rtype < NREQTYPES then
      StepKeepsType(qs[r.rtype], Del(r), r.rtype);
      qs[r.rtype := QStep(qs[r.rtype], Del(r))]
    else qs
  }

  /** purge_request, once the request is in memory. */
  function Kill(s: State, id: nat): (s': State)
    requires ValidQueues(s.queues) && id in s.store.mem
    ensures ValidQueues(s'.queues)
  {
    var r := s.store.mem[id];
    s.(queues := if r in s.flags.ready then s.queues else DropQueued(s.queues, r),
       flags := s.flags.(zombie := s.flags.zombie + {r}),
       store := s.store.(mem := s.store.mem - {id}, disk := s.store.disk - {id}, infos := s.store.infos - {id}))
  }

  function Client(s: State, e: ClientEvent): (s': State)
    requires ValidQueues(s.queues)
    ensures ValidQueues(s'.queues)
  {
    var st := s.store;
    match e
    case NewRequest(user, rtype) =>
      if rtype >= NREQTYPES then s
      else s.(store := st.(pending := st.pending + {Request(st.count, user, rtype)}, count := st.count + 1))
    case QueueRequest(r, accepted, now) =>
      if r !in st.pending || r.rtype >= NREQTYPES then s
      else if !accepted then s.(store := st.(pending := st.pending - {r}))
      else
        StepKeepsType(s.queues[r.rtype], Enq(r), r.rtype);
        s.(queues := s.queues[r.rtype := QStep(s.queues[r.rtype], Enq(r))],
           store := st.(pending := st.pending - {r}, mem := st.mem[r.id := r],
                        infos := st.infos[r.id := Info(r.user, now, false)]))
    case Abandon(r) => s.(store := st.(pending := st.pending - {r}))
    case FindRequest(id, user, now) =>
      if !MayAccess(st, id, user) then s
      else s.(store := Load(st.(infos := st.infos[id := st.infos[id].(timestamp := now)]), id))
    case PurgeRequest(id, user) =>
      if !MayAccess(st, id, user) then s
      else if id in Load(st, id).mem then Kill(s.(store := Load(st, id)), id)
      else s.(store := st.(infos := st.infos - {id}))
  }

  lemma NewRequestKeeps(c: Config, s: State, user: User, rtype: nat)
    requires Inv(c, s) && rtype < NREQTYPES
    ensures Inv(c, Client(s, NewRequest(user, rtype)))
  {
    var st := s.store;
    var r := Request(st.count, user, rtype);
    assert r !in s.flags.ready && r !in s.flags.zombie;
  }

  lemma LoadKeepsStore(st: Store, id: nat)
    requires StoreInv(st) && id in st.infos
    ensures StoreInv(Load(st, id)) && forall r :: Live(st, r) ==> Live(Load(st, id), r)
  {
    assert id !in st.mem ==> st.infos[id].ready;
  }

  lemma LoadKeeps(c: Config, s: State, id: nat)
    requires Inv(c, s) && id in s.store.infos
    ensures Inv(c, s.(store := Load(s.store, id))) && (id in s.store.disk ==> id in Load(s.store, id).mem)
  {
    LoadKeepsStore(s.store, id);
  }

  /** st' differs from st in time stamps only. */
  ghost predicate SameButTimes(st: Store, st': Store) {
    && st'.mem == st.mem && st'.disk == st.disk && st'.pending == st.pending && st'.count == st.count
    && st'.infos.Keys == st.infos.Keys
    && forall id :: id in st.infos ==> st'.infos[id].ready == st.infos[id].ready
  }

  lemma TimesKeepQueue(qs: seq<Queue>, st: Store, st': Store, f: Flags)
    requires SameButTimes(st, st') && QueueInv(qs, st, f)
    ensures QueueInv(qs, st', f)
  {
    forall r | Queued(qs, r) ensures (Live(st', r) && r !in f.zombie) || LeftOver(st', f, r) {
      assert Live(st, r) ==> Live(st', r);
    }
  }

  lemma TimesKeepWork(hs: seq<Proc>, qs: seq<Queue>, st: Store, st': Store, f: Flags)
    requires SameButTimes(st, st') && WorkInv(hs, qs, st, f)
    ensures WorkInv(hs, qs, st', f)
  {
    forall r | Attached(hs, r) ensures Live(st', r) || (r.id !in st'.infos && r in f.zombie) {
      assert Live(st, r) ==> Live(st', r);
    }
  }

  lemma TimesKeepStore(hs: seq<Proc>, st: Store, st': Store, f: Flags)
    requires SameButTimes(st, st') && StoreInv(st) && PendingInv(hs, st, f) && FlagsInv(st, f)
    ensures StoreInv(st') && PendingInv(hs, st', f) && FlagsInv(st', f)
  {
    assert forall id :: id in st'.infos <==> id in st.infos;
  }

  lemma TouchKeeps(c: Config, s: State, id: nat, now: nat)
    requires Inv(c, s) && id in s.store.infos
    ensures Inv(c, s.(store := s.store.(infos := s.store.infos[id := s.store.infos[id].(timestamp := now)])))
  {
    var st := s.store;
    var st' := st.(infos := st.infos[id := st.infos[id].(timestamp := now)]);
    assert st'.infos.Keys == st.infos.Keys;
    TimesKeepStore(s.pool.busy, st, st', s.flags);
    TimesKeepQueue(s.queues, st, st', s.flags);
    TimesKeepWork(s.pool.busy, s.queues, st, st', s.flags);
  }

  /** Removing r from its queue leaves the other queued requests. */
  lemma DropQueuedKeeps(qs: seq<Queue>, r: Request, st: Store, f: Flags)
    requires QueueInv(qs, st, f)
    ensures QueueInv(DropQueued(qs, r), st, f)
    ensures !Queued(DropQueued(qs, r), r)
    ensures forall x :: Queued(DropQueued(qs, r), x) ==> Queued(qs, x)
  {
    if r.rtype < NREQTYPES {
      var q := qs[r.rtype];
      var q', qs' := QStep(q, Del(r)), DropQueued(qs, r);
      StepKeepsType(q, Del(r), r.rtype);
      DropNoDup(Requests(q, r.user), r);
      forall u
        ensures u in q'.users ==>
                  u in q.users && (q'.users[u] == q.users[u] || (u == r.user && q'.users[u] == Drop(q.users[u], r)))
      {
        StepOfUser(q, Del(r), u);
        assert u in q'.users ==> Requests(q', u) == q'.users[u];
      }
      StepOfUser(q, Del(r), r.user);
      forall x | Queued(qs', x) ensures Queued(qs, x) {
        if x.rtype == r.rtype {
          assert x in q'.users[x.user];
        }
      }
    }
  }

  lemma {:induction false} DropNoDup(rs: seq<Request>, r: Request)
    requires NoDup(rs)
    ensures NoDup(Drop(rs, r)) && r !in Drop(rs, r)
  {
    if rs != [] && rs[0] != r {
      DropNoDup(rs[1..], r);
      assert rs == [rs[0]] + rs[1..];
      NoDupCons(rs[0], Drop(rs[1..], r), rs[1..]);
    }
  }

  /** The store after purging the request r. */
  function Purged(st: Store, ids: set<nat>): Store {
    st.(mem := st.mem - ids, disk := st.disk - ids, infos := st.infos - ids)
  }

  lemma PurgeKeepsStore(c: Config, s: State, ids: set<nat>, f': Flags)
    requires Inv(c, s) && s.flags.ready <= f'.ready && s.flags.zombie <= f'.zombie
    requires forall r :: (r in f'.ready || r in f'.zombie) && !(r in s.flags.ready || r in s.flags.zombie) ==>
               r.id in s.store.infos
    ensures StoreInv(Purged(s.store, ids)) && FlagsInv(Purged(s.store, ids), f')
    ensures PendingInv(s.pool.busy, Purged(s.store, ids), f')
  {
  }

  lemma PurgeKeepsWork(c: Config, s: State, ids: set<nat>, qs': seq<Queue>, f': Flags)
    requires Inv(c, s) && s.flags.ready <= f'.ready && s.flags.zombie <= f'.zombie
    requires forall x :: Queued(qs', x) ==> Queued(s.queues, x)
    requires forall r :: Live(s.store, r) && r.id in ids ==> r in f'.zombie
    ensures WorkInv(s.pool.busy, qs', Purged(s.store, ids), f')
    ensures DownInv(s.pool, f', s.down)
  {
    var st' := Purged(s.store, ids);
    forall r | Attached(s.pool.busy, r) ensures Live(st', r) || (r.id !in st'.infos && r in f'.zombie) {
      if Live(s.store, r) && r.id !in ids {
        assert Live(st', r);
      }
    }
  }

  lemma PurgeKeepsQueue(c: Config, s: State, ids: set<nat>, qs': seq<Queue>, f': Flags)
    requires Inv(c, s) && QueueInv(qs', s.store, s.flags) && s.flags.ready <= f'.ready && s.flags.zombie <= f'.zombie
    requires forall x :: Queued(qs', x) && x.id in ids ==> x in f'.ready && x in f'.zombie
    requires forall x :: Queued(qs', x) && x.id !in ids && x in f'.zombie ==> x in s.flags.zombie
    ensures QueueInv(qs', Purged(s.store, ids), f')
  {
    var st' := Purged(s.store, ids);
    forall x | Queued(qs', x) ensures (Live(st', x) && x !in f'.zombie) || LeftOver(st', f', x) {
      assert Live(s.store, x) && x.id !in ids ==> Live(st', x);
    }
  }

  lemma KillKeeps(c: Config, s: State, id: nat)
    requires Inv(c, s) && id in s.store.mem && id in s.store.infos
    ensures Inv(c, Kill(s, id))
  {
    var r := s.store.mem[id];
    var s' := Kill(s, id);
    DropQueuedKeeps(s.queues, r, s.store, s.flags);
    assert s'.store == Purged(s.store, {id});
    forall x | Queued(s'.queues, x) && x.id == id ensures x == r && r in s.flags.ready {
      assert Queued(s.queues, x) && Live(s.store, x);
    }
    PurgeKeepsStore(c, s, {id}, s'.flags);
    PurgeKeepsWork(c, s, {id}, s'.queues, s'.flags);
    PurgeKeepsQueue(c, s, {id}, s'.queues, s'.flags);
  }

  /** Purging an id whose request cannot be found. */
  lemma ForgetKeeps(c: Config, s: State, id: nat)
    requires Inv(c, s) && id in s.store.infos && id !in s.store.mem && id !in s.store.disk
    ensures Inv(c, s.(store := s.store.(infos := s.store.infos - {id})))
  {
    var st := s.store;
    assert st.(infos := st.infos - {id}) == Purged(st, {id});
    PurgeKeepsStore(c, s, {id}, s.flags);
    PurgeKeepsWork(c, s, {id}, s.queues, s.flags);
    PurgeKeepsQueue(c, s, {id}, s.queues, s.flags);
  }

  /** Putting r, which is not queued, keeps each list free of duplicates. */
  lemma EnqueueKeeps(qs: seq<Queue>, r: Request)
    requires ValidQueues(qs) && r.rtype < NREQTYPES && !Queued(qs, r)
    requires forall t, u :: 0 <= t < NREQTYPES && u in qs[t].users ==> NoDup(qs[t].users[u])
    ensures var qs' := qs[r.rtype := QStep(qs[r.rtype], Enq(r))];
            && ValidQueues(qs')
            && (forall x :: Queued(qs', x) <==> x == r || Queued(qs, x))
            && forall t, u :: 0 <= t < NREQTYPES && u in qs'[t].users ==> NoDup(qs'[t].users[u])
  {
    var q := qs[r.rtype];
    var q' := QStep(q, Enq(r));
    var qs' := qs[r.rtype := q'];
    StepKeepsType(q, Enq(r), r.rtype);
    forall u ensures u in q'.users ==> q'.users[u] == if u == r.user then Requests(q, u) + [r] else Requests(q, u) {
      StepOfUser(q, Enq(r), u);
    }
    forall x ensures Queued(qs', x) <==> x == r || Queued(qs, x) {
      StepOfUser(q, Enq(r), x.user);
    }
  }

  function Accept(st: Store, r: Request, now: nat): Store {
    st.(pending := st.pending - {r}, mem := st.mem[r.id := r], infos := st.infos[r.id := Info(r.user, now, false)])
  }

  lemma AcceptKeepsStore(c: Config, s: State, r: Request, now: nat)
    requires Inv(c, s) && r in s.store.pending
    ensures StoreInv(Accept(s.store, r, now)) && FlagsInv(Accept(s.store, r, now), s.flags)
  {
  }

  lemma AcceptKeepsPending(c: Config, s: State, r: Request, now: nat)
    requires Inv(c, s) && r in s.store.pending
    ensures PendingInv(s.pool.busy, Accept(s.store, r, now), s.flags)
  {
  }

  lemma AcceptedIsLive(c: Config, s: State, r: Request, now: nat)
    requires Inv(c, s) && r in s.store.pending
    ensures !Queued(s.queues, r) && !Attached(s.pool.busy, r) && r !in s.flags.ready && r !in s.flags.zombie
    ensures Live(Accept(s.store, r, now), r)
    ensures forall x :: Live(s.store, x) ==> Live(Accept(s.store, r, now), x)
  {
    assert Queued(s.queues, r) ==> Live(s.store, r);
  }

  lemma QueueRequestKeeps(c: Config, s: State, r: Request, now: nat)
    requires Inv(c, s) && r in s.store.pending
    ensures Inv(c, Client(s, QueueRequest(r, true, now)))
  {
    AcceptKeepsStore(c, s, r, now);
    AcceptKeepsPending(c, s, r, now);
    AcceptedIsLive(c, s, r, now);
    EnqueueKeeps(s.queues, r);
    var s' := Client(s, QueueRequest(r, true, now));
    assert s'.store == Accept(s.store, r, now);
    assert QueueInv(s'.queues, s'.store, s'.flags);
    assert forall x :: Attached(s.pool.busy, x) ==> x.id != r.id;
    assert WorkInv(s'.pool.busy, s'.queues, s'.store, s'.flags);
  }

  lemma ClientKeeps(c: Config, s: State, e: ClientEvent)
    requires Inv(c, s)
    ensures Inv(c, Client(s, e)) && Client(s, e).down == s.down
  {
    ClientStays(s, e);
    match e
    case NewRequest(user, rtype) => if rtype < NREQTYPES { NewRequestKeeps(c, s, user, rtype); }
    case QueueRequest(r, accepted, now) => DecidedKeeps(c, s, r, accepted, now);
    case Abandon(r) => AbandonKeeps(c, s, r);
    case FindRequest(id, user, now) => FindRequestKeeps(c, s, id, user, now);
    case PurgeRequest(id, user) => PurgeRequestKeeps(c, s, id, user);
  }

  lemma ClientStays(s: State, e: ClientEvent)
    requires ValidQueues(s.queues)
    ensures Client(s, e).down == s.down && Client(s, e).pool == s.pool
  {
  }

  lemma DecidedKeeps(c: Config, s: State, r: Request, accepted: bool, now: nat)
    requires Inv(c, s)
    ensures Inv(c, Client(s, QueueRequest(r, accepted, now)))
  {
    if r in s.store.pending && accepted {
      QueueRequestKeeps(c, s, r, now);
    } else {
      AbandonKeeps(c, s, r);
    }
  }

  lemma FindRequestKeeps(c: Config, s: State, id: nat, user: User, now: nat)
    requires Inv(c, s)
    ensures Inv(c, Client(s, FindRequest(id, user, now)))
  {
    if MayAccess(s.store, id, user) {
      TouchKeeps(c, s, id, now);
      LoadKeeps(c, s.(store := s.store.(infos := s.store.infos[id := s.store.infos[id].(timestamp := now)])), id);
    }
  }

  lemma PurgeRequestKeeps(c: Config, s: State, id: nat, user: User)
    requires Inv(c, s)
    ensures Inv(c, Client(s, PurgeRequest(id, user)))
  {
    if MayAccess(s.store, id, user) {
      LoadKeeps(c, s, id);
      if id in Load(s.store, id).mem {
        KillKeeps(c, s.(store := Load(s.store, id)), id);
      } else {
        ForgetKeeps(c, s, id);
      }
    }
  }

  lemma AbandonKeeps(c: Config, s: State, r: Request)
    requires Inv(c, s)
    ensures Inv(c, s.(store := s.store.(pending := s.store.pending - {r})))
  {
    var st := s.store;
    var st' := st.(pending := st.pending - {r});
    TimesKeepQueue(s.queues, st.(pending := {}), st'.(pending := {}), s.flags);
    assert forall x :: Live(st, x) <==> Live(st', x);
  }

  function Clients(s: State, es: seq<ClientEvent>): State
    requires ValidQueues(s.queues)
    decreases |es|
  {
    if es == [] then s else Clients(Client(s, es[0]), es[1..])
  }

  /** The number of requests that u has queued, of all types together. */
  function QueuedOf(qs: seq<Queue>, u: User): nat {
    if qs == [] then 0 else QueuedOf(qs[..|qs| - 1], u) + |Requests(qs[|qs| - 1], u)|
  }

  /** Whether the queue accepts a request is decided by what its user has queued. */
  function Decide(maxPerUser: nat, s: State, e: ClientEvent): ClientEvent {
    if e.QueueRequest? && e.r in s.store.pending then
      QueueRequest(e.r, maxPerUser == 0 || QueuedOf(s.queues, e.r.user) < maxPerUser, e.now)
    else e
  }

  /** What becomes of the clients' requests, one after the other. */
  function Decided(maxPerUser: nat, s: State, es: seq<ClientEvent>): (r: seq<ClientEvent>)
    requires ValidQueues(s.queues)
    ensures |r| == |es| && forall i :: 0 <= i < |es| ==> SameRequest(r[i], es[i])
    decreases |es|
  {
    if es == [] then []
    else
      var e := Decide(maxPerUser, s, es[0]);
      [e] + Decided(maxPerUser, Client(s, e), es[1..])
  }

  predicate SameRequest(a: ClientEvent, b: ClientEvent) {
    a == b || (a.QueueRequest? && b.QueueRequest? && a.r == b.r && a.now == b.now)
  }

  lemma {:induction false} ClientsKeep(c: Config, s: State, es: seq<ClientEvent>)
    requires Inv(c, s)
    ensures Inv(c, Clients(s, es)) && Clients(s, es).down == s.down
    decreases |es|
  {
    if es != [] {
      ClientKeeps(c, s, es[0]);
      ClientsKeep(c, Client(s, es[0]), es[1..]);
    }
  }

  // ---------------------------------------------------------------------------
  // The cleaner, and shutting down
  // ---------------------------------------------------------------------------

  function ToPurge(c: Config, st: Store, now: nat): set<nat> {
    set id | id in st.infos && st.infos[id].ready && c.purgeTime != 0 && st.infos[id].timestamp + c.purgeTime < now
  }

  function ToSwapOut(c: Config, st: Store, now: nat): set<nat> {
    set id | id in st.infos && st.infos[id].ready && c.swapoutTime != 0 && st.infos[id].timestamp + c.swapoutTime < now
  }

  /** The request objects behind some known ids, loaded from disk where they are not in memory. */
  function Objects(st: Store, ids: set<nat>): set<Request> {
    set id | id in ids && id in Load(st, id).mem :: Load(st, id).mem[id]
  }

  function CleanUp(c: Config, s: State, now: nat): State {
    var gone := ToPurge(c, s.store, now);
    var st := Purged(s.store, gone);
    s.(flags := s.flags.(zombie := s.flags.zombie + Objects(s.store, gone)),
       store := st.(mem := st.mem - ToSwapOut(c, st, now)))
  }

  /** The cleaner, id by id. Forgotten, with memory entry and file, is exactly what is ready and older
      than purge_time, unless that is 0; its request becomes a zombie. What stays keeps its info and
      file, and leaves memory exactly if it is ready and older than swapout_time, unless that is 0. */
  lemma CleanUpExactly(c: Config, s: State, now: nat, id: nat)
    requires id in s.store.infos
    ensures var st, s' := s.store, CleanUp(c, s, now);
            var purged := st.infos[id].ready && c.purgeTime != 0 && st.infos[id].timestamp + c.purgeTime < now;
            var swapped := st.infos[id].ready && c.swapoutTime != 0 && st.infos[id].timestamp + c.swapoutTime < now;
            && (id in s'.store.infos <==> !purged)
            && (id in s'.store.disk <==> id in st.disk && !purged)
            && (id in s'.store.mem <==> id in st.mem && !purged && !swapped)
            && (purged && id in st.mem ==> st.mem[id] in s'.flags.zombie)
            && (purged && id !in st.mem && id in st.disk ==> st.disk[id].req in s'.flags.zombie)
  {
    var gone := ToPurge(c, s.store, now);
    if id in gone && id in Load(s.store, id).mem {
      assert Load(s.store, id).mem[id] in Objects(s.store, gone);
    }
  }

  /** Whatever is left is as it was, and only what is forgotten becomes a zombie. */
  lemma CleanUpSpares(c: Config, s: State, now: nat)
    ensures var st, st' := s.store, CleanUp(c, s, now).store;
            && (forall id :: id in st'.infos ==> id in st.infos && st'.infos[id] == st.infos[id])
            && (forall id :: id in st'.disk ==> id in st.disk && st'.disk[id] == st.disk[id])
            && (forall id :: id in st'.mem ==> id in st.mem && st'.mem[id] == st.mem[id])
            && (forall id :: id !in st.infos && id in st.disk ==> id in st'.disk)
            && (forall id :: id !in st.infos && id in st.mem ==> id in st'.mem)
            && st'.pending == st.pending && st'.count == st.count
    ensures var st, f, f' := s.store, s.flags, CleanUp(c, s, now).flags;
            && f'.ready == f.ready && f.zombie <= f'.zombie
            && forall r :: r in f'.zombie - f.zombie ==>
                 exists id :: id in st.infos && id !in CleanUp(c, s, now).store.infos
                         && (if id in st.mem then st.mem[id] == r else id in st.disk && st.disk[id].req == r)
    ensures CleanUp(c, s, now).pool == s.pool && CleanUp(c, s, now).queues == s.queues
    ensures CleanUp(c, s, now).down == s.down
  {
  }

  /** The cleaner touches nothing that is queued, being written or in work. */
  lemma CleanerSparesLive(c: Config, s: State, now: nat, r: Request)
    requires Inv(c, s) && Live(s.store, r)
    ensures r.id !in ToPurge(c, s.store, now)
    ensures Live(CleanUp(c, s, now).store, r)
    ensures r in CleanUp(c, s, now).flags.zombie ==> r in s.flags.zombie
  {
    var gone := ToPurge(c, s.store, now);
    forall id | id in gone && id in Load(s.store, id).mem ensures Load(s.store, id).mem[id] != r {
      assert Load(s.store, id).mem[id].id == id;
    }
  }

  lemma SwapOutKeeps(c: Config, s: State, ids: set<nat>)
    requires Inv(c, s) && forall id :: id in ids ==> id in s.store.infos && s.store.infos[id].ready
    ensures Inv(c, s.(store := s.store.(mem := s.store.mem - ids)))
  {
    var st := s.store;
    var st' := st.(mem := st.mem - ids);
    forall r | Live(st, r) ensures Live(st', r) {
      assert r.id !in ids;
    }
  }

  lemma CleanUpKeeps(c: Config, s: State, now: nat)
    requires Inv(c, s)
    ensures Inv(c, CleanUp(c, s, now))
  {
    var gone := ToPurge(c, s.store, now);
    var f' := s.flags.(zombie := s.flags.zombie + Objects(s.store, gone));
    var s1 := s.(flags := f', store := Purged(s.store, gone));
    forall r | r in Objects(s.store, gone) ensures r.id in gone && r.id in s.store.infos {
    }
    PurgeKeepsStore(c, s, gone, f');
    PurgeKeepsWork(c, s, gone, s.queues, f');
    forall x | Queued(s.queues, x) ensures x.id !in gone && (x in f'.zombie ==> x in s.flags.zombie) {
      if Live(s.store, x) {
        CleanerSparesLive(c, s, now, x);
      }
    }
    PurgeKeepsQueue(c, s, gone, s.queues, f');
    SwapOutKeeps(c, s1, ToSwapOut(c, s1.store, now));
  }

  /** Reqhandler::shutdown on each handler: kill its request unless that is ready. */
  function AllDown(hs: seq<Proc>): seq<Proc> {
    seq(|hs|, i requires 0 <= i < |hs| => hs[i].(down := true))
  }

  function InWork(hs: seq<Proc>): set<Request> {
    set i | 0 <= i < |hs| && hs[i].req.Some? :: hs[i].req.value
  }

  function ShutDown(s: State): State {
    var all := s.pool.busy + s.pool.free;
    s.(pool := s.pool.(free := [], busy := AllDown(all)),
       flags := s.flags.(zombie := s.flags.zombie + (InWork(all) - s.flags.ready)),
       down := true)
  }

  lemma ShutDownKeepsWork(s: State, hs: seq<Proc>)
    requires hs == s.pool.busy + s.pool.free && forall h :: h in s.pool.free ==> h.req == None
    requires forall i, j :: 0 <= i < j < |s.pool.busy| && s.pool.busy[i].req.Some? ==>
               s.pool.busy[i].req != s.pool.busy[j].req
    ensures forall r :: Attached(AllDown(hs), r) <==> Attached(s.pool.busy, r)
    ensures forall r :: r in InWork(hs) <==> Attached(s.pool.busy, r)
    ensures forall i, j :: 0 <= i < j < |hs| && AllDown(hs)[i].req.Some? ==> AllDown(hs)[i].req != AllDown(hs)[j].req
  {
    var b := s.pool.busy;
    forall i | |b| <= i < |hs| ensures hs[i].req == None {
      assert hs[i] in s.pool.free;
    }
    forall r ensures Attached(AllDown(hs), r) <==> Attached(b, r) {
      if Attached(b, r) {
        var i :| 0 <= i < |b| && b[i].req == Some(r);
        assert AllDown(hs)[i].req == Some(r);
      }
    }
    forall r | Attached(b, r) ensures r in InWork(hs) {
      var i :| 0 <= i < |b| && b[i].req == Some(r);
      assert hs[i].req.value == r;
    }
  }

  lemma {:induction false} CountDown(hs: seq<Proc>, t: nat)
    ensures Count(AllDown(hs), t) == Count(hs, t)
  {
    if hs != [] {
      var n := |hs| - 1;
      CountDown(hs[..n], t);
      assert AllDown(hs)[..n] == AllDown(hs[..n]);
    }
  }

  lemma {:induction false} CountIdle(hs: seq<Proc>, t: nat)
    requires forall h :: h in hs ==> h.req == None
    ensures Count(hs, t) == 0
  {
    if hs != [] {
      CountIdle(hs[..|hs| - 1], t);
    }
  }

  lemma ShutDownKeepsPool(c: Config, s: State)
    requires Inv(c, s)
    ensures PoolInv(c, ShutDown(s).pool)
  {
    var all := s.pool.busy + s.pool.free;
    forall t | 0 <= t < NREQTYPES ensures Count(AllDown(all), t) == s.pool.num[t] {
      CountDown(all, t);
      CountConcat(s.pool.busy, s.pool.free, t);
      CountIdle(s.pool.free, t);
    }
  }

  lemma ShutDownKeeps(c: Config, s: State)
    requires Inv(c, s)
    ensures Inv(c, ShutDown(s))
  {
    var all := s.pool.busy + s.pool.free;
    var s' := ShutDown(s);
    ShutDownKeepsPool(c, s);
    ShutDownKeepsWork(s, all);
    assert QueueInv(s'.queues, s'.store, s'.flags);
    assert WorkInv(s'.pool.busy, s'.queues, s'.store, s'.flags);
    forall h | h in s'.pool.busy && h.req.Some? ensures h.req.value in InWork(all) {
      var i :| 0 <= i < |all| && s'.pool.busy[i] == h;
      assert Attached(s'.pool.busy, h.req.value);
    }
    assert DownInv(s'.pool, s'.flags, s'.down);
    assert forall r :: r in InWork(all) ==> r.id < s.store.count;
    assert PendingInv(s'.pool.busy, s'.store, s'.flags);
  }

  // ---------------------------------------------------------------------------
  // One round of the server loop, and whole runs
  // ---------------------------------------------------------------------------

  /** Everything one call of check() gets from outside. */
  datatype Input = Input(interrupted: bool, outs: seq<Outcome>, freeOuts: seq<Outcome>,
                         clients: seq<ClientEvent>, cleanup: bool, now: nat)

  /** check() up to select(). */
  function BeforeSelect(c: Config, s: State): (s': State)
    requires Inv(c, s)
    ensures Inv(c, s') && s'.down == s.down
  {
    var s1 := if s.down then s else (AssignKeeps(c, s); Assign(c, s));
    ShedKeeps(c, s1);
    Detach(c, s1.(pool := Shed(c, s1.pool)), 0)
  }

  lemma BeforeSelectDetaches(c: Config, s: State)
    requires Inv(c, s)
    ensures Detached(BeforeSelect(c, s).pool.busy, BeforeSelect(c, s).flags, 0)
  {
    var s1 := s;
    if !s.down {
      AssignKeeps(c, s);
      s1 := Assign(c, s);
    }
    ShedKeeps(c, s1);
    DetachDetaches(c, s1.(pool := Shed(c, s1.pool)), 0);
  }

  /** check() from select() to the connections. */
  function HandlersChecked(s: State, outs: seq<Outcome>, freeOuts: seq<Outcome>): (s': State)
    ensures s'.queues == s.queues
  {
    var s1 := Feed(s, 0, outs);
    s1.(pool := s1.pool.(free := StillFree(s1.pool.free, freeOuts)))
  }

  /** check() from select() on. */
  function AfterSelect(c: Config, s: State, input: Input): State
    requires Inv(c, s) && Detached(s.pool.busy, s.flags, 0)
  {
    HandlersCheckedKeeps(c, s, input.outs, input.freeOuts);
    var s3 := Clients(HandlersChecked(s, input.outs, input.freeOuts), input.clients);
    if input.cleanup then CleanUp(c, s3, input.now) else s3
  }

  lemma StillFreeKeeps(c: Config, s: State, outs: seq<Outcome>)
    requires Inv(c, s)
    ensures Inv(c, s.(pool := s.pool.(free := StillFree(s.pool.free, outs))))
    ensures !s.down ==> StillFree(s.pool.free, outs) == s.pool.free
  {
    FreeHandlersStay(s.pool.free, outs);
  }

  lemma HandlersCheckedKeeps(c: Config, s: State, outs: seq<Outcome>, freeOuts: seq<Outcome>)
    requires Inv(c, s) && Detached(s.pool.busy, s.flags, 0)
    ensures Inv(c, HandlersChecked(s, outs, freeOuts))
  {
    FeedKeeps(c, s, 0, outs);
    StillFreeKeeps(c, Feed(s, 0, outs), freeOuts);
  }

  lemma AfterSelectKeeps(c: Config, s: State, input: Input)
    requires Inv(c, s) && Detached(s.pool.busy, s.flags, 0)
    ensures Inv(c, AfterSelect(c, s, input))
  {
    HandlersCheckedKeeps(c, s, input.outs, input.freeOuts);
    var s2 := HandlersChecked(s, input.outs, input.freeOuts);
    ClientsKeep(c, s2, input.clients);
    CleanUpKeeps(c, Clients(s2, input.clients), input.now);
  }

  function Check(c: Config, s: State, input: Input): (s': State)
    requires Inv(c, s)
    ensures Inv(c, s')
  {
    var s1 := BeforeSelect(c, s);
    BeforeSelectDetaches(c, s);
    if input.interrupted then s1
    else
      AfterSelectKeeps(c, s1, input);
      AfterSelect(c, s1, input)
  }

  /** What becomes of the clients' requests in one call of check(). */
  function ServedIn(c: Config, s: State, input: Input): seq<ClientEvent>
    requires Inv(c, s)
  {
    if input.interrupted then []
    else Decided(c.maxPerUser, HandlersChecked(BeforeSelect(c, s), input.outs, input.freeOuts), input.clients)
  }

  /** One turn of the main loop, or the call of shutdown() that ends it. */
  datatype Event = Tick(input: Input) | Stop

  function Run(c: Config, s: State, es: seq<Event>): (s': State)
    requires Inv(c, s)
    ensures Inv(c, s')
    decreases |es|
  {
    if es == [] then s
    else if es[0].Tick? then Run(c, Check(c, s, es[0].input), es[1..])
    else
      ShutDownKeeps(c, s);
      Run(c, ShutDown(s), es[1..])
  }

  lemma NewIdIsNew(c: Config, s: State)
    requires Inv(c, s)
    ensures s.store.count !in s.store.infos && s.store.count !in s.store.mem && s.store.count !in s.store.disk
    ensures forall r :: Queued(s.queues, r) || Attached(s.pool.busy, r) || r in s.store.pending ==>
              r.id != s.store.count
  {
    forall r | Queued(s.queues, r) ensures r.id != s.store.count {
      assert Live(s.store, r) || r in s.flags.zombie;
    }
  }

  /** purge_request takes a queued request out of the queue if and only if it is not ready. */
  lemma PurgeLeavesQueue(s: State, id: nat)
    requires ValidQueues(s.queues) && id in s.store.mem && Queued(s.queues, s.store.mem[id])
    requires forall t, u :: 0 <= t < NREQTYPES && u in s.queues[t].users ==> NoDup(s.queues[t].users[u])
    ensures s.store.mem[id] in Kill(s, id).flags.zombie
    ensures Queued(Kill(s, id).queues, s.store.mem[id]) <==> s.store.mem[id] in s.flags.ready
  {
    var r := s.store.mem[id];
    var q := s.queues[r.rtype];
    StepOfUser(q, Del(r), r.user);
    assert Requests(q, r.user) == q.users[r.user];
    DropNoDup(Requests(q, r.user), r);
  }

  // ---------------------------------------------------------------------------
  // The steps, written out
  // ---------------------------------------------------------------------------

  /** A request gets the handler that is free for the longest time, or else a new one, and counts for
      its type. */
  lemma AttachExactly(p: Pool, r: Request)
    requires |p.num| == NREQTYPES && r.rtype < NREQTYPES
    ensures var p', n := Attach(p, r), |p.busy|;
            && |p'.busy| == n + 1 && p'.busy[..n] == p.busy && p'.busy[n].req == Some(r)
            && (p.free == [] ==> p'.free == [] && !p'.busy[n].down)
            && (p.free != [] ==> [p.free[0]] + p'.free == p.free && p'.busy[n].down == p.free[0].down)
            && |p'.num| == |p.num| && p'.turn == p.turn
            && forall t :: 0 <= t < NREQTYPES ==> p'.num[t] == p.num[t] + if t == r.rtype then 1 else 0
  {
  }

  /** One handler is told to go if there are more free ones than the soft limit, and never the last. */
  lemma ShedExactly(c: Config, p: Pool)
    ensures |p.free| <= c.soft || p.free == [] ==> Shed(c, p) == p
    ensures |p.free| > c.soft && p.free != [] ==>
              var p' := Shed(c, p);
              && [p.free[0]] + p'.free == p.free && p'.busy == p.busy + [Proc(p.free[0].req, true)]
              && p'.num == p.num && p'.turn == p.turn
  {
  }

  /** A ready request leaves its handler free, and a purged one that is not ready leaves its handler to
      be shut down; all other handlers are passed. */
  lemma DetachOneExactly(s: State, i: nat)
    requires i < |s.pool.busy| && CountedAt(s.pool, i)
    ensures var p, h, (s', next) := s.pool, s.pool.busy[i], DetachOne(s, i);
            if h.req.Some? && h.req.value in s.flags.ready then
              && next == i && s'.pool.busy == p.busy[..i] + p.busy[i + 1..] && s'.pool.turn == p.turn
              && s'.pool.free == p.free + [Proc(None, h.down)]
              && (h.req.value in s.flags.zombie ==> s'.store == s.store)
              && (h.req.value !in s.flags.zombie ==> s'.store == Save(s.store, h.req.value))
            else if h.req.Some? && h.req.value in s.flags.zombie then
              && next == i + 1 && s'.pool.busy == p.busy[i := Proc(None, true)] && s'.pool.turn == p.turn
              && s'.pool.free == p.free && s'.store == s.store
            else s' == s && next == i + 1
    ensures var p, h, num' := s.pool, s.pool.busy[i], DetachOne(s, i).0.pool.num;
            && |num'| == |p.num|
            && forall t :: 0 <= t < |p.num| ==>
                 num'[t] == p.num[t] - if h.req.Some? && h.req.value in s.flags.ready + s.flags.zombie
                                          && t == h.req.value.rtype then 1 else 0
  {
  }

  /** A finished request is on disk as ready, and its info says so, too; nothing else is different. */
  lemma SaveExactly(st: Store, r: Request, id: nat)
    ensures var st' := Save(st, r);
            && r.id in st'.disk && st'.disk[r.id] == Desc(r, true)
            && st'.mem == st.mem && st'.pending == st.pending && st'.count == st.count
            && (r.id in st.infos ==> r.id in st'.infos && st'.infos[r.id] == st.infos[r.id].(ready := true))
            && (id in st'.infos <==> id in st.infos)
            && (id != r.id ==> (id in st'.disk <==> id in st.disk))
            && (id != r.id && id in st.infos ==> st'.infos[id] == st.infos[id])
            && (id != r.id && id in st.disk ==> st'.disk[id] == st.disk[id])
  {
  }

  /** A handler's responses may make its own request ready and no other; it is erased exactly if its
      process is gone and it was told to go. */
  lemma FeedOneExactly(s: State, i: nat, o: Outcome)
    requires i < |s.pool.busy|
    ensures var p, h, (s', next) := s.pool, s.pool.busy[i], FeedOne(s, i, o);
            && (forall r :: r in s'.flags.ready <==> r in s.flags.ready || (o.ready && h.req == Some(r)))
            && s'.flags.zombie == s.flags.zombie && s'.store == s.store && s'.down == s.down
            && s'.pool.free == p.free && s'.pool.num == p.num && s'.pool.turn == p.turn
            && (o.gone && h.down ==> next == i && s'.pool.busy == p.busy[..i] + p.busy[i + 1..])
            && (!o.gone || !h.down ==> next == i + 1 && s'.pool.busy == p.busy)
  {
  }

  /** One of these handlers makes its request r ready. */
  ghost predicate Answered(hs: seq<Proc>, outs: seq<Outcome>, r: Request) {
    exists k :: 0 <= k < |hs| && k < |outs| && hs[k].req == Some(r) && outs[k].ready
  }

  lemma AnsweredNext(hs: seq<Proc>, outs: seq<Outcome>, r: Request)
    requires hs != [] && outs != []
    ensures Answered(hs, outs, r) <==>
            (hs[0].req == Some(r) && outs[0].ready) || Answered(hs[1..], outs[1..], r)
  {
    if k :| 0 <= k < |hs[1..]| && k < |outs[1..]| && hs[1..][k].req == Some(r) && outs[1..][k].ready {
      assert hs[k + 1].req == Some(r) && outs[k + 1].ready;
    }
    if k :| 0 < k < |hs| && k < |outs| && hs[k].req == Some(r) && outs[k].ready {
      assert hs[1..][k - 1].req == Some(r) && outs[1..][k - 1].ready;
    }
  }

  /** Every busy handler gets its own outcome, whatever becomes of those before. */
  lemma {:induction false} FeedReachesAll(s: State, i: nat, outs: seq<Outcome>, r: Request)
    requires i <= |s.pool.busy|
    ensures r in Feed(s, i, outs).flags.ready <==> r in s.flags.ready || Answered(s.pool.busy[i..], outs, r)
    decreases |outs|
  {
    if i < |s.pool.busy| && outs != [] {
      var b := s.pool.busy;
      var (s', next) := FeedOne(s, i, outs[0]);
      FeedOneExactly(s, i, outs[0]);
      FeedReachesAll(s', next, outs[1..], r);
      assert s'.pool.busy[next..] == b[i..][1..];
      AnsweredNext(b[i..], outs, r);
    }
  }

  /** A free handler is erased exactly if its process is gone and it was told to go: when all are gone,
      those not told stay, in order, and when none is, all stay. */
  lemma {:induction false} StillFreeExactly(free: seq<Proc>, outs: seq<Outcome>)
    ensures (forall o :: o in outs ==> !o.gone) ==> StillFree(free, outs) == free
    ensures |outs| >= |free| && (forall o :: o in outs ==> o.gone) ==> StillFree(free, outs) == NotDown(free)
  {
    if free != [] && outs != [] {
      StillFreeExactly(free[1..], outs[1..]);
      assert outs[0] in outs && free == [free[0]] + free[1..];
    }
  }

  function NotDown(hs: seq<Proc>): (r: seq<Proc>)
    ensures forall h :: h in r <==> h in hs && !h.down
  {
    if hs == [] then [] else (if hs[0].down then [] else [hs[0]]) + NotDown(hs[1..])
  }

  /** A new request gets the next id and belongs to nobody else until it is queued. */
  lemma NewRequestExactly(s: State, user: User, rtype: nat)
    requires ValidQueues(s.queues) && rtype < NREQTYPES
    ensures var s' := Client(s, NewRequest(user, rtype));
            && s'.store.count == s.store.count + 1
            && s'.store.pending == s.store.pending + {Request(s.store.count, user, rtype)}
            && s'.store.infos == s.store.infos && s'.store.mem == s.store.mem && s'.store.disk == s.store.disk
            && s'.queues == s.queues && s'.flags == s.flags
  {
  }

  /** A request that is queued is known, in memory, not ready, and behind all others of its user and
      type; one that is refused is gone. */
  lemma QueueRequestExactly(s: State, r: Request, accepted: bool, now: nat)
    requires ValidQueues(s.queues) && r in s.store.pending && r.rtype < NREQTYPES
    ensures var s' := Client(s, QueueRequest(r, accepted, now));
            && s'.store.pending == s.store.pending - {r} && s'.store.count == s.store.count
            && s'.store.disk == s.store.disk && s'.flags == s.flags
            && (!accepted ==>
                  && s'.queues == s.queues && s'.store.infos == s.store.infos && s'.store.mem == s.store.mem
                  && s' == Client(s, Abandon(r)))
            && (accepted ==>
                  && s'.store.infos == s.store.infos[r.id := Info(r.user, now, false)]
                  && s'.store.mem == s.store.mem[r.id := r]
                  && forall t, u :: 0 <= t < NREQTYPES ==>
                       Requests(s'.queues[t], u) ==
                       Requests(s.queues[t], u) + if t == r.rtype && u == r.user then [r] else [])
  {
    if accepted {
      forall u {
        StepOfUser(s.queues[r.rtype], Enq(r), u);
      }
    }
  }

  lemma QueuedOfNext(qs: seq<Queue>, n: nat, u: User)
    requires n < |qs|
    ensures QueuedOf(qs[..n + 1], u) == QueuedOf(qs[..n], u) + |Requests(qs[n], u)|
    ensures QueuedOf(qs[..0], u) == 0
  {
    assert qs[..n + 1][..n] == qs[..n];
  }

  /** A request is accepted exactly if there is no limit per user or its user has fewer requests queued,
      of all six types together; nothing else is decided. */
  lemma DecideExactly(maxPerUser: nat, s: State, e: ClientEvent)
    requires |s.queues| == 6
    ensures e.QueueRequest? && e.r in s.store.pending ==>
              var qs, u, e' := s.queues, e.r.user, Decide(maxPerUser, s, e);
              && e'.QueueRequest? && e'.r == e.r && e'.now == e.now
              && (e'.accepted <==>
                    || maxPerUser == 0
                    || |Requests(qs[0], u)| + |Requests(qs[1], u)| + |Requests(qs[2], u)|
                       + |Requests(qs[3], u)| + |Requests(qs[4], u)| + |Requests(qs[5], u)| < maxPerUser)
    ensures !e.QueueRequest? || e.r !in s.store.pending ==> Decide(maxPerUser, s, e) == e
  {
    if e.QueueRequest? {
      var qs, u := s.queues, e.r.user;
      QueuedOfNext(qs, 0, u);
      QueuedOfNext(qs, 1, u);
      QueuedOfNext(qs, 2, u);
      QueuedOfNext(qs, 3, u);
      QueuedOfNext(qs, 4, u);
      QueuedOfNext(qs, 5, u);
      assert qs[..6] == qs;
    }
  }

  /** One call of check(): requests are handed out unless the server is going down, one handler is shed,
      and finished requests are detached. When select() was interrupted, that is all. Otherwise busy and
      free handlers are looked at, the clients are served, and the cleaner runs if it is due. */
  lemma CheckInSteps(c: Config, s: State, input: Input)
    requires Inv(c, s)
    ensures var s1 := if s.down then s else Assign(c, s);
            Inv(c, s1.(pool := Shed(c, s1.pool))) && BeforeSelect(c, s) == Detach(c, s1.(pool := Shed(c, s1.pool)), 0)
    ensures input.interrupted ==> Check(c, s, input) == BeforeSelect(c, s) && ServedIn(c, s, input) == []
    ensures !input.interrupted ==>
              var s1 := Feed(BeforeSelect(c, s), 0, input.outs);
              var s2 := s1.(pool := s1.pool.(free := StillFree(s1.pool.free, input.freeOuts)));
              && ValidQueues(s2.queues) && ServedIn(c, s, input) == Decided(c.maxPerUser, s2, input.clients)
              && Check(c, s, input) ==
                 if input.cleanup then CleanUp(c, Clients(s2, input.clients), input.now)
                 else Clients(s2, input.clients)
  {
    if !s.down {
      AssignKeeps(c, s);
    }
    ShedKeeps(c, if s.down then s else Assign(c, s));
    BeforeSelectDetaches(c, s);
  }

  /** Looking up a request: only its owner and the administrator may; its time stamp is renewed, and it
      is in memory afterwards if it was there or has a file. */
  lemma FindRequestExactly(s: State, id: nat, user: User, now: nat)
    requires ValidQueues(s.queues)
    ensures var st, s' := s.store, Client(s, FindRequest(id, user, now));
            if id in st.infos && (user == "admin" || user == st.infos[id].user) then
              && s'.store.infos == st.infos[id := Info(st.infos[id].user, now, st.infos[id].ready)]
              && s'.store.mem ==
                   (if id !in st.mem && id in st.disk then st.mem[id := st.disk[id].req] else st.mem)
              && s'.store.disk == st.disk && s'.store.pending == st.pending && s'.store.count == st.count
              && s'.queues == s.queues && s'.flags == s.flags
            else s' == s
  {
  }

  /** Purging a request: only its owner and the administrator may; it is forgotten, with memory entry and
      file, and becomes a zombie, whether it was in memory or only on disk. */
  lemma PurgeRequestExactly(s: State, id: nat, user: User)
    requires ValidQueues(s.queues)
    ensures var st, s' := s.store, Client(s, PurgeRequest(id, user));
            if id in st.infos && (user == "admin" || user == st.infos[id].user) then
              && s'.store.infos == st.infos - {id} && s'.store.mem == st.mem - {id}
              && s'.store.disk == st.disk - {id} && s'.store.pending == st.pending && s'.store.count == st.count
              && s'.flags.ready == s.flags.ready
              && s'.flags.zombie == s.flags.zombie + (if id in st.mem then {st.mem[id]}
                                                      else if id in st.disk then {st.disk[id].req} else {})
            else s' == s
  {
    var st := s.store;
    if id !in st.mem && id !in st.disk {
      assert st.mem - {id} == st.mem && st.disk - {id} == st.disk;
    }
  }

  /** Nothing but the purged request leaves the queue. */
  lemma PurgeLeavesOthers(s: State, id: nat, x: Request)
    requires ValidQueues(s.queues) && id in s.store.mem && x != s.store.mem[id]
    ensures Queued(Kill(s, id).queues, x) <==> Queued(s.queues, x)
  {
    var r := s.store.mem[id];
    if r.rtype < NREQTYPES && x.rtype == r.rtype {
      StepOfUser(s.queues[r.rtype], Del(r), x.user);
      DropOthers(Requests(s.queues[r.rtype], x.user), r, x);
    }
  }

  lemma {:induction false} DropOthers(rs: seq<Request>, r: Request, x: Request)
    requires x != r
    ensures x in Drop(rs, r) <==> x in rs
  {
    if rs != [] && rs[0] != r {
      DropOthers(rs[1..], r, x);
      assert rs == [rs[0]] + rs[1..];
    }
  }

  /** At shutdown every handler, busy or free, is told to go, and keeps its request; the requests in work
      that are not ready are purged. */
  lemma ShutDownExactly(s: State)
    ensures var all, s' := s.pool.busy + s.pool.free, ShutDown(s);
            && s'.down && s'.pool.free == [] && |s'.pool.busy| == |all|
            && (forall i :: 0 <= i < |all| ==> s'.pool.busy[i] == Proc(all[i].req, true))
            && s'.pool.num == s.pool.num && s'.pool.turn == s.pool.turn
            && s'.store == s.store && s'.queues == s.queues && s'.flags.ready == s.flags.ready
            && forall r :: r in s'.flags.zombie <==>
                 r in s.flags.zombie || (r !in s.flags.ready && exists i :: 0 <= i < |all| && all[i].req == Some(r))
  {
    var all := s.pool.busy + s.pool.free;
    forall r ensures r in InWork(all) <==> exists i :: 0 <= i < |all| && all[i].req == Some(r) {
      if i :| 0 <= i < |all| && all[i].req == Some(r) {
        assert all[i].req.Some? && all[i].req.value == r;
      }
    }
  }
}
