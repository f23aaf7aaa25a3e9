/** The container of the arclink proxy's requests: sessions put requests into a queue and purge
    them, and a scheduler thread starts a limited number of them at a time. All of this happens
    under one lock, while executing threads and sessions go on with the requests themselves. */
module ProxyContainer {

  import R = ProxyRequest

  type Id = nat
  datatype Options = Options(maxQueued: nat, maxQueuedPerUser: nat, maxExecuting: nat, maxAge: int)
  datatype Entry = Entry(user: string, time: int, core: R.Request)

  /** Where the thread that holds the container's lock is. */
  datatype Pc =
    | Unlocked
    | Command(id: Id)
    | Ageing(now: int, todo: seq<Id>) | Expiring(now: int, todo: seq<Id>)
    | Reaping(todo: seq<Id>)
    | Starting

  /** objects are all requests ever accepted, request is the dictionary that sessions look into, and
      started tells which requests were given to an executing thread, in order. */
  datatype State = State(
    options: Options, nextId: Id,
    objects: map<Id, Entry>, request: set<Id>, queued: seq<Id>, executing: set<Id>,
    started: seq<Id>, pc: Pc)

  datatype Event =
    | Put(user: string, time: int)
    | PurgeCommand(id: Id)
    | Inner(id: Id, e: R.Event)
    | Delete
    | Pass(now: int, order: seq<Id>) | CheckAge | AgesChecked(order: seq<Id>)
    | CheckReady | ReadyChecked
    | Start

  function New(options: Options): State {
    State(options, 0, map[], {}, [], {}, [], Unlocked)
  }

  // ---------------------------------------------------------------------------
  // The events
  // ---------------------------------------------------------------------------

  /** The number of queued requests of the user. */
  function CountUser(objects: map<Id, Entry>, queued: seq<Id>, user: string): nat
    requires forall i :: i in queued ==> i in objects
  {
    if queued == [] then 0
    else
      CountUser(objects, queued[..|queued| - 1], user) +
      if objects[queued[|queued| - 1]].user == user then 1 else 0
  }

  ghost predicate Refused(s: State, user: string)
    requires QueueKnown(s)
  {
    || |s.queued| >= s.options.maxQueued
    || (s.options.maxQueuedPerUser != 0 &&
        CountUser(s.objects, s.queued, user) >= s.options.maxQueuedPerUser)
  }

  ghost predicate QueueKnown(s: State) {
    forall i :: i in s.queued ==> i in s.objects
  }

  /** The queue without the id, which is in it at most once. */
  function Without(q: seq<Id>, id: Id): (r: seq<Id>)
    ensures forall i :: i in r ==> i in q
    ensures |r| <= |q|
  {
    if q == [] then [] else if q[0] == id then q[1..] else [q[0]] + Without(q[1..], id)
  }

  /** The request that purge() is being called on. */
  ghost predicate BeingPurged(pc: Pc, id: Id) {
    match pc
    case Command(i) => i == id
    case Expiring(_, todo) => todo != [] && todo[0] == id
    case _ => false
  }

  /** What else an event of a request needs: only started requests are executed, and only the thread
      that holds the container's lock calls purge(). */
  ghost predicate Allowed(s: State, id: Id, e: R.Event) {
    match e
    case Begin => id in s.started
    case Flag => BeingPurged(s.pc, id)
    case Lock => BeingPurged(s.pc, id)
    case _ => true
  }

  ghost predicate Lists(order: seq<Id>, ids: set<Id>) {
    && (forall i :: i in order <==> i in ids)
    && (forall i, j :: 0 <= i < j < |order| ==> order[i] != order[j])
  }

  ghost predicate Enabled(s: State, e: Event) {
    match e
    case Put(_, _) => s.pc.Unlocked? && QueueKnown(s)
    case PurgeCommand(id) => s.pc.Unlocked? && id in s.objects
    case Inner(id, e) => id in s.objects && R.Enabled(s.objects[id].core, e) && Allowed(s, id, e)
    case Delete =>
      && ((s.pc.Command? && s.pc.id in s.objects && s.objects[s.pc.id].core.purger.Returned?)
          || (s.pc.Expiring? && s.pc.todo != [] && s.pc.todo[0] in s.objects &&
              s.objects[s.pc.todo[0]].core.purger.Returned?))
    case Pass(_, order) => s.pc.Unlocked? && Lists(order, s.request)
    case CheckAge => s.pc.Ageing? && s.pc.todo != [] && s.pc.todo[0] in s.objects
    case AgesChecked(order) => s.pc.Ageing? && s.pc.todo == [] && Lists(order, s.executing)
    case CheckReady => s.pc.Reaping? && s.pc.todo != [] && s.pc.todo[0] in s.objects
    case ReadyChecked => s.pc.Reaping? && s.pc.todo == []
    case Start => s.pc.Starting?
  }

  ghost function Apply(s: State, e: Event): State
    requires Enabled(s, e)
  {
    match e
    case Put(user, time) =>
      if Refused(s, user) then s
      else s.(objects := s.objects[s.nextId := Entry(user, time, R.NEW)],
              request := s.request + {s.nextId}, queued := s.queued + [s.nextId], nextId := s.nextId + 1)
    case PurgeCommand(id) =>
      if id !in s.request then s
      else s.(queued := if s.objects[id].core.ready then s.queued else Without(s.queued, id),
              pc := Command(id))
    case Inner(id, e) =>
      s.(objects := s.objects[id := s.objects[id].(core := R.Apply(s.objects[id].core, e))])
    case Delete =>
      if s.pc.Command? then s.(request := s.request - {s.pc.id}, pc := Unlocked)
      else s.(request := s.request - {s.pc.todo[0]}, pc := Ageing(s.pc.now, s.pc.todo[1..]))
    case Pass(now, order) => s.(pc := Ageing(now, order))
    case CheckAge =>
      var r := s.objects[s.pc.todo[0]];
      s.(pc := if r.core.ready && s.pc.now - r.time > s.options.maxAge then Expiring(s.pc.now, s.pc.todo)
               else Ageing(s.pc.now, s.pc.todo[1..]))
    case AgesChecked(order) => s.(pc := Reaping(order))
    case CheckReady =>
      s.(executing := if s.objects[s.pc.todo[0]].core.ready then s.executing - {s.pc.todo[0]} else s.executing,
         pc := Reaping(s.pc.todo[1..]))
    case ReadyChecked => s.(pc := Starting)
    case Start =>
      if s.queued != [] && |s.executing| < s.options.maxExecuting then
        s.(queued := s.queued[1..], executing := s.executing + {s.queued[0]},
           started := s.started + [s.queued[0]])
      else s.(pc := Unlocked)
  }

  // ---------------------------------------------------------------------------
  // The invariant
  // ---------------------------------------------------------------------------

  ghost predicate Increasing(q: seq<Id>) {
    forall i, j :: 0 <= i < j < |q| ==> q[i] < q[j]
  }

  ghost predicate Before(a: seq<Id>, b: seq<Id>) {
    forall i, j :: i in a && j in b ==> i < j
  }

  /** Ids go up along the order of starting and then along the queue. */
  ghost predicate OrderInv(s: State) {
    && Increasing(s.started) && Increasing(s.queued) && Before(s.started, s.queued)
    && (forall i :: i in s.started ==> i < s.nextId) && (forall i :: i in s.queued ==> i < s.nextId)
  }

  ghost predicate KnownInv(s: State) {
    && (forall i: Id :: i in s.objects <==> i < s.nextId)
    && (forall i :: i in s.request ==> i < s.nextId)
    && (forall i :: i in s.queued ==> i in s.request)
    && (forall i :: i in s.executing ==> i in s.started)
  }

  ghost predicate LimitInv(s: State)
    requires QueueKnown(s)
  {
    && |s.queued| <= s.options.maxQueued && |s.executing| <= s.options.maxExecuting
    && (s.options.maxQueuedPerUser != 0 ==>
          forall u :: CountUser(s.objects, s.queued, u) <= s.options.maxQueuedPerUser)
  }

  /** A request is executed only after it was started, and purge() is called on it only after it has
      left the queue and, but for the call itself, only when it has left the dictionary. */
  ghost predicate ObjectInv(s: State) {
    forall i :: i in s.objects ==> EntryInv(s, i)
  }

  ghost predicate EntryInv(s: State, i: Id)
    requires i in s.objects
  {
    var r := s.objects[i].core;
    && R.Inv(r)
    && (i !in s.started ==> r.executor.Waiting?)
    && (r.purged ==> i !in s.queued && (i !in s.request || BeingPurged(s.pc, i)))
    && (i !in s.request ==> r.purger.Returned?)
  }

  ghost predicate PcInv(s: State) {
    match s.pc
    case Command(id) => id in s.request && id !in s.queued
    case Ageing(_, todo) => Distinct(todo) && forall i :: i in todo ==> i in s.request
    case Expiring(_, todo) =>
      && Distinct(todo) && (forall i :: i in todo ==> i in s.request)
      && todo != [] && todo[0] in s.started
    case Reaping(todo) => forall i :: i in todo ==> i in s.started
    case _ => true
  }

  ghost predicate Distinct(q: seq<Id>) {
    forall i, j :: 0 <= i < j < |q| ==> q[i] != q[j]
  }

  ghost predicate Inv(s: State) {
    OrderInv(s) && KnownInv(s) && QueueKnown(s) && LimitInv(s) && ObjectInv(s) && PcInv(s)
  }

  lemma IncreasingLast(q: seq<Id>, x: Id)
    requires Increasing(q) && forall i :: i in q ==> i < x
    ensures Increasing(q + [x])
  {
    var r := q + [x];
    forall i, j | 0 <= i < j < |r| ensures r[i] < r[j] {
      assert q[i] in q;
    }
  }

  lemma IncreasingFirst(x: Id, q: seq<Id>)
    requires Increasing(q) && forall i :: i in q ==> x < i
    ensures Increasing([x] + q)
  {
    var r := [x] + q;
    forall i, j | 0 <= i < j < |r| ensures r[i] < r[j] {
      assert q[j - 1] in q;
    }
  }

  lemma IncreasingRest(q: seq<Id>)
    requires Increasing(q) && q != []
    ensures Increasing(q[1..]) && Before([q[0]], q[1..])
  {
    var r := q[1..];
    forall i, j | 0 <= i < j < |r| ensures r[i] < r[j] {
      assert r[i] == q[i + 1] && r[j] == q[j + 1];
    }
    forall j | j in r ensures q[0] < j {
      var k :| 0 <= k < |r| && r[k] == j;
      assert r[k] == q[k + 1];
    }
  }

  lemma {:induction false} WithoutKeeps(q: seq<Id>, id: Id)
    requires Increasing(q)
    ensures Increasing(Without(q, id)) && id !in Without(q, id)
    ensures forall i :: i in q && i != id ==> i in Without(q, id)
  {
    if q != [] {
      IncreasingRest(q);
      assert q[0] in [q[0]];
      if q[0] != id {
        WithoutKeeps(q[1..], id);
        IncreasingFirst(q[0], Without(q[1..], id));
      }
    }
  }

  lemma MoveFirst(a: seq<Id>, q: seq<Id>)
    requires Increasing(a) && Increasing(q) && Before(a, q) && q != []
    ensures Increasing(a + [q[0]]) && Increasing(q[1..]) && Before(a + [q[0]], q[1..])
  {
    assert q[0] in q && q[0] in [q[0]];
    IncreasingLast(a, q[0]);
    IncreasingRest(q);
    forall i, j | i in a + [q[0]] && j in q[1..] ensures i < j {
      assert j in q;
    }
  }

  // ---------------------------------------------------------------------------
  // Counting one user's requests in the queue
  // ---------------------------------------------------------------------------

  lemma {:induction false} CountAgrees(a: map<Id, Entry>, b: map<Id, Entry>, q: seq<Id>, user: string)
    requires forall i :: i in q ==> i in a && i in b && a[i].user == b[i].user
    ensures CountUser(a, q, user) == CountUser(b, q, user)
  {
    if q != [] {
      CountAgrees(a, b, q[..|q| - 1], user);
    }
  }

  lemma {:induction false} CountFirst(o: map<Id, Entry>, q: seq<Id>, user: string)
    requires q != [] && forall i :: i in q ==> i in o
    ensures CountUser(o, q, user) == CountUser(o, q[1..], user) + if o[q[0]].user == user then 1 else 0
  {
    var n := |q| - 1;
    if n > 0 {
      CountFirst(o, q[..n], user);
      assert q[..n][1..] == q[1..][..n - 1];
    } else {
      assert q[1..] == [] && q[..n] == [];
    }
  }

  lemma {:induction false} CountWithout(o: map<Id, Entry>, q: seq<Id>, id: Id, user: string)
    requires forall i :: i in q ==> i in o
    ensures CountUser(o, Without(q, id), user) <= CountUser(o, q, user)
  {
    if q != [] {
      CountFirst(o, q, user);
      if q[0] != id {
        CountWithout(o, q[1..], id, user);
        CountFirst(o, Without(q, id), user);
        assert Without(q, id)[1..] == Without(q[1..], id);
      }
    }
  }

  /** Each queued request counts once for its user. */
  lemma {:induction false} CountIsNumber(o: map<Id, Entry>, q: seq<Id>, user: string)
    requires Increasing(q) && forall i :: i in q ==> i in o
    ensures CountUser(o, q, user) == |QueuedBy(o, q, user)|
  {
    if q != [] {
      var n := |q| - 1;
      IncreasingInit(q);
      CountIsNumber(o, q[..n], user);
      QueuedByLast(o, q, user);
    }
  }

  function QueuedBy(o: map<Id, Entry>, q: seq<Id>, user: string): set<Id> {
    set i | i in q && i in o && o[i].user == user
  }

  lemma IncreasingInit(q: seq<Id>)
    requires Increasing(q) && q != []
    ensures Increasing(q[..|q| - 1]) && q[|q| - 1] !in q[..|q| - 1]
    ensures forall i :: i in q[..|q| - 1] ==> i in q
  {
  }

  lemma QueuedByLast(o: map<Id, Entry>, q: seq<Id>, user: string)
    requires q != [] && q[|q| - 1] in o && q[|q| - 1] !in q[..|q| - 1]
    ensures |QueuedBy(o, q, user)| ==
            |QueuedBy(o, q[..|q| - 1], user)| + if o[q[|q| - 1]].user == user then 1 else 0
  {
    var last, a := q[|q| - 1], QueuedBy(o, q[..|q| - 1], user);
    assert q == q[..|q| - 1] + [last];
    assert QueuedBy(o, q, user) == if o[last].user == user then a + {last} else a;
  }

  // ---------------------------------------------------------------------------
  // What every event keeps
  // ---------------------------------------------------------------------------

  lemma PutKeepsLimits(s: State, user: string, time: int)
    requires Inv(s) && Enabled(s, Put(user, time)) && !Refused(s, user)
    ensures QueueKnown(Apply(s, Put(user, time))) && LimitInv(Apply(s, Put(user, time)))
  {
    var r := Apply(s, Put(user, time));
    assert r.queued[..|r.queued| - 1] == s.queued;
    forall u ensures CountUser(r.objects, r.queued, u) ==
                     CountUser(s.objects, s.queued, u) + if u == user then 1 else 0
    {
      CountAgrees(s.objects, r.objects, s.queued, u);
    }
  }

  lemma PutKeepsObjects(s: State, user: string, time: int)
    requires Inv(s) && Enabled(s, Put(user, time)) && !Refused(s, user)
    ensures ObjectInv(Apply(s, Put(user, time)))
  {
    var r := Apply(s, Put(user, time));
    forall i | i in r.objects ensures EntryInv(r, i) {
      assert i in s.objects ==> EntryInv(s, i);
    }
  }

  lemma PutKeeps(s: State, user: string, time: int)
    requires Inv(s) && Enabled(s, Put(user, time))
    ensures Inv(Apply(s, Put(user, time)))
  {
    if !Refused(s, user) {
      IncreasingLast(s.queued, s.nextId);
      PutKeepsLimits(s, user, time);
      PutKeepsObjects(s, user, time);
    }
  }

  lemma PurgeCommandKeeps(s: State, id: Id)
    requires Inv(s) && Enabled(s, PurgeCommand(id))
    ensures Inv(Apply(s, PurgeCommand(id)))
  {
    var r := Apply(s, PurgeCommand(id));
    if id in s.request {
      assert EntryInv(s, id);
      WithoutKeeps(s.queued, id);
      forall u ensures CountUser(r.objects, r.queued, u) <= CountUser(s.objects, s.queued, u) {
        CountWithout(s.objects, s.queued, id, u);
      }
      forall i | i in r.objects ensures EntryInv(r, i) {
        assert EntryInv(s, i);
      }
    }
  }

  lemma InnerKeeps(s: State, id: Id, e: R.Event)
    requires Inv(s) && Enabled(s, Inner(id, e))
    ensures Inv(Apply(s, Inner(id, e)))
  {
    var r := Apply(s, Inner(id, e));
    assert EntryInv(s, id);
    R.CountKept(s.objects[id].core, e);
    R.PurgeKept(s.objects[id].core, e);
    forall u ensures CountUser(r.objects, r.queued, u) == CountUser(s.objects, s.queued, u) {
      CountAgrees(s.objects, r.objects, s.queued, u);
    }
    forall i | i in r.objects ensures EntryInv(r, i) {
      assert EntryInv(s, i);
    }
  }

  lemma DeleteKeeps(s: State)
    requires Inv(s) && Enabled(s, Delete)
    ensures Inv(Apply(s, Delete))
  {
    var r := Apply(s, Delete);
    forall i | i in r.objects ensures EntryInv(r, i) {
      assert EntryInv(s, i);
    }
  }

  lemma PassKeeps(s: State, e: Event)
    requires Inv(s) && Enabled(s, e)
    requires e.Pass? || e.CheckAge? || e.AgesChecked? || e.CheckReady? || e.ReadyChecked?
    ensures Inv(Apply(s, e))
  {
    var r := Apply(s, e);
    forall i | i in r.objects ensures EntryInv(r, i) {
      assert EntryInv(s, i);
    }
  }

  lemma StartKeepsOrder(s: State)
    requires Inv(s) && s.pc.Starting? && s.queued != [] && |s.executing| < s.options.maxExecuting
    ensures OrderInv(Apply(s, Start))
  {
    var r := Apply(s, Start);
    MoveFirst(s.started, s.queued);
    assert s.queued[0] in s.queued;
    forall i | i in r.queued ensures i < r.nextId {
      assert i in s.queued;
    }
  }

  lemma StartKeepsLimits(s: State)
    requires Inv(s) && s.pc.Starting? && s.queued != [] && |s.executing| < s.options.maxExecuting
    ensures QueueKnown(Apply(s, Start)) && LimitInv(Apply(s, Start))
  {
    var r := Apply(s, Start);
    assert forall i :: i in r.queued ==> i in s.queued;
    forall u ensures CountUser(r.objects, r.queued, u) <= CountUser(s.objects, s.queued, u) {
      CountFirst(s.objects, s.queued, u);
    }
  }

  lemma StartKeepsObjects(s: State)
    requires Inv(s) && s.pc.Starting? && s.queued != [] && |s.executing| < s.options.maxExecuting
    ensures ObjectInv(Apply(s, Start))
  {
    var r := Apply(s, Start);
    assert forall i :: i in r.queued ==> i in s.queued;
    forall i | i in r.objects ensures EntryInv(r, i) {
      assert EntryInv(s, i);
    }
  }

  lemma StartKeeps(s: State)
    requires Inv(s) && Enabled(s, Start)
    ensures Inv(Apply(s, Start))
  {
    var r := Apply(s, Start);
    if s.queued != [] && |s.executing| < s.options.maxExecuting {
      StartKeepsOrder(s);
      StartKeepsLimits(s);
      StartKeepsObjects(s);
      assert forall i :: i in r.queued ==> i in s.queued;
    } else {
      assert forall i :: i in s.objects ==> EntryInv(s, i);
      assert forall i :: i in s.objects ==> EntryInv(r, i);
    }
  }

  lemma Keeps(s: State, e: Event)
    requires Inv(s) && Enabled(s, e)
    ensures Inv(Apply(s, e))
  {
    match e
    case Put(user, time) => PutKeeps(s, user, time);
    case PurgeCommand(id) => PurgeCommandKeeps(s, id);
    case Inner(id, e) => InnerKeeps(s, id, e);
    case Delete => DeleteKeeps(s);
    case Start => StartKeeps(s);
    case _ => PassKeeps(s, e);
  }

  // ---------------------------------------------------------------------------
  // Runs
  // ---------------------------------------------------------------------------

  ghost predicate Possible(s: State, es: seq<Event>)
    decreases |es|
  {
    es == [] || (Enabled(s, es[0]) && Possible(Apply(s, es[0]), es[1..]))
  }

  ghost function Run(s: State, es: seq<Event>): State
    requires Possible(s, es)
    decreases |es|
  {
    if es == [] then s else Run(Apply(s, es[0]), es[1..])
  }

  lemma NewInv(options: Options)
    ensures Inv(New(options))
  {
    var s := New(options);
    assert s.objects.Keys == {};
    forall u ensures CountUser(s.objects, s.queued, u) == 0 {
    }
  }

  lemma {:induction false} RunKeeps(s: State, es: seq<Event>)
    requires Inv(s) && Possible(s, es)
    ensures Inv(Run(s, es))
    decreases |es|
  {
    if es != [] {
      Keeps(s, es[0]);
      RunKeeps(Apply(s, es[0]), es[1..]);
    }
  }

  lemma {:induction false} RunAppend(s: State, a: seq<Event>, b: seq<Event>)
    requires Possible(s, a) && Possible(Run(s, a), b)
    ensures Possible(s, a + b) && Run(s, a + b) == Run(Run(s, a), b)
    decreases |a|
  {
    if a == [] {
      assert a + b == b;
    } else {
      RunAppend(Apply(s, a[0]), a[1..], b);
      assert (a + b)[1..] == a[1..] + b;
    }
  }

  lemma {:induction false} OptionsFixed(s: State, es: seq<Event>)
    requires Possible(s, es)
    ensures Run(s, es).options == s.options
    decreases |es|
  {
    if es != [] {
      OptionsFixed(Apply(s, es[0]), es[1..]);
    }
  }

  /** However sessions, the scheduler and the executing threads interleave: the limits are kept,
      requests are started in the order of their ids, so each at most once, and a request that
      was purged is not in the queue. */
  lemma EveryRun(options: Options, es: seq<Event>)
    requires Possible(New(options), es)
    ensures var s := Run(New(options), es);
            && |s.queued| <= options.maxQueued && |s.executing| <= options.maxExecuting
            && QueueKnown(s)
            && (options.maxQueuedPerUser != 0 ==>
                  forall u :: CountUser(s.objects, s.queued, u) <= options.maxQueuedPerUser)
            && (forall i, j :: 0 <= i < j < |s.started| ==> s.started[i] < s.started[j])
            && (forall i :: i in s.objects && s.objects[i].core.purged ==> i !in s.queued)
  {
    NewInv(options);
    RunKeeps(New(options), es);
    OptionsFixed(New(options), es);
    var s := Run(New(options), es);
    forall i | i in s.objects && s.objects[i].core.purged ensures i !in s.queued {
      assert EntryInv(s, i);
    }
  }

  /** The properties of one request hold for all requests in the container, too: every purge is
      issued upstream while nobody uses the request, after purge() was called on it. */
  lemma PurgesAreSafe(options: Options, es: seq<Event>, id: Id, e: R.Event)
    requires Possible(New(options), es) && Enabled(Run(New(options), es), Inner(id, e))
    ensures var s := Run(New(options), es);
            var r := s.objects[id].core;
            R.Apply(r, e).issued != r.issued ==> r.inside == {} && r.purged
  {
    NewInv(options);
    RunKeeps(New(options), es);
    var s := Run(New(options), es);
    assert EntryInv(s, id);
  }

  /** A request that has left the dictionary and is used by nobody has had its purges issued. */
  lemma DeletedIsPurged(options: Options, es: seq<Event>, id: Id, u: R.Upstream)
    requires Possible(New(options), es)
    requires var s := Run(New(options), es);
             && id in s.objects && id !in s.request
             && s.objects[id].core.inside == {} && s.objects[id].core.loop.Free?
             && u in s.objects[id].core.sent
    ensures u in Run(New(options), es).objects[id].core.issued
  {
    NewInv(options);
    RunKeeps(New(options), es);
    var s := Run(New(options), es);
    assert EntryInv(s, id);
    var k :| 0 <= k < |s.objects[id].core.sent| && s.objects[id].core.sent[k] == u;
  }

  /** What has left the queue without being started is never started. */
  lemma {:induction false} NeverStarted(s: State, es: seq<Event>, id: Id)
    requires Inv(s) && Possible(s, es) && id in s.objects && id !in s.queued && id !in s.started
    ensures id !in Run(s, es).started
    decreases |es|
  {
    if es != [] {
      Keeps(s, es[0]);
      if es[0].Start? && s.queued != [] {
        assert s.queued[0] in s.queued;
      }
      NeverStarted(Apply(s, es[0]), es[1..], id);
    }
  }

  /** Whatever happens between, a request that is purged before it was started is never started. */
  lemma PurgedNeverStarted(options: Options, es: seq<Event>, id: Id, later: seq<Event>)
    requires Possible(New(options), es) && Possible(Run(New(options), es), later)
    requires var s := Run(New(options), es);
             id in s.objects && s.objects[id].core.purged && id !in s.started
    ensures id !in Run(Run(New(options), es), later).started
  {
    NewInv(options);
    RunKeeps(New(options), es);
    var s := Run(New(options), es);
    assert EntryInv(s, id);
    NeverStarted(s, later, id);
  }

  ghost predicate Lost(s: State, id: Id) {
    && id in s.executing && id in s.objects
    && s.objects[id].core.executor.Gone? && !s.objects[id].core.ready
  }

  lemma StaysLost(s: State, e: Event, id: Id)
    requires Inv(s) && Enabled(s, e) && Lost(s, id)
    ensures Lost(Apply(s, e), id)
  {
  }

  /** An execution that ends without an answer keeps its place among the executing requests for ever:
      they are only removed when they are ready. */
  lemma {:induction false} PlaceLost(s: State, es: seq<Event>, id: Id)
    requires Inv(s) && Possible(s, es) && Lost(s, id)
    ensures Lost(Run(s, es), id)
    decreases |es|
  {
    if es != [] {
      Keeps(s, es[0]);
      StaysLost(s, es[0], id);
      PlaceLost(Apply(s, es[0]), es[1..], id);
    }
  }

  lemma RunOne(s: State, e: Event, es: seq<Event>)
    requires Enabled(s, e) && es == [e]
    ensures Possible(s, es) && Run(s, es) == Apply(s, e)
  {
    assert es[1..] == [];
    assert Possible(Apply(s, e), es[1..]) && Run(Apply(s, e), es[1..]) == Apply(s, e);
  }

  lemma RunMore(s: State, es: seq<Event>, e: Event)
    requires Possible(s, es) && Enabled(Run(s, es), e)
    ensures Possible(s, es + [e]) && Run(s, es + [e]) == Apply(Run(s, es), e)
  {
    RunOne(Run(s, es), e, [e]);
    RunAppend(s, es, [e]);
  }

  /** The first request, put and started by the next pass of the scheduler. */
  lemma FirstStarted(options: Options, user: string, time: int) returns (es: seq<Event>)
    requires options.maxQueued > 0 && options.maxExecuting > 0
    ensures Possible(New(options), es)
    ensures Run(New(options), es) ==
            State(options, 1, map[0 := Entry(user, time, R.NEW)], {0}, [], {0}, [0], Starting)
  {
    var s := New(options);
    var s1 := Apply(s, Put(user, time));
    var order: seq<Id> := [0];
    assert order[1..] == [];
    assert Possible(s, []) && s1.queued == [0] && s1.request == {0};
    es := [Put(user, time)];
    assert es == [] + [Put(user, time)];
    RunMore(s, [], Put(user, time));
    RunMore(s, es, Pass(time, order));
    es := es + [Pass(time, order)];
    RunMore(s, es, CheckAge);
    es := es + [CheckAge];
    assert Run(s, es).pc.todo == [];
    RunMore(s, es, AgesChecked([]));
    es := es + [AgesChecked([])];
    RunMore(s, es, ReadyChecked);
    es := es + [ReadyChecked];
    RunMore(s, es, Start);
    es := es + [Start];
    assert s1.executing + {0} == {0} && s1.started + [0] == [0];
  }

  /** A place is lost when the execution of a started request ends without an answer, which happens
      in a run of a few events. */
  lemma PlaceCanBeLost(options: Options, user: string, time: int) returns (es: seq<Event>)
    requires options.maxQueued > 0 && options.maxExecuting > 0
    ensures Possible(New(options), es) && Lost(Run(New(options), es), 0)
  {
    var s := New(options);
    es := FirstStarted(options, user, time);
    RunMore(s, es, Inner(0, R.Begin));
    es := es + [Inner(0, R.Begin)];
    RunMore(s, es, Inner(0, R.Finish));
    es := es + [Inner(0, R.Finish)];
  }

  ghost predicate AllLost(s: State) {
    |s.executing| == s.options.maxExecuting && forall id :: id in s.executing ==> Lost(s, id)
  }

  lemma StepStarved(s: State, e: Event)
    requires Inv(s) && Enabled(s, e) && AllLost(s)
    ensures AllLost(Apply(s, e)) && Apply(s, e).started == s.started
  {
    forall id | id in s.executing ensures Lost(Apply(s, e), id) {
      StaysLost(s, e, id);
    }
    if e.CheckReady? {
      assert Apply(s, e).executing == s.executing;
    }
  }

  /** When all places are lost, no request is ever started again. */
  lemma {:induction false} Starved(s: State, es: seq<Event>)
    requires Inv(s) && Possible(s, es) && AllLost(s)
    ensures Run(s, es).started == s.started
    decreases |es|
  {
    if es != [] {
      Keeps(s, es[0]);
      StepStarved(s, es[0]);
      Starved(Apply(s, es[0]), es[1..]);
    }
  }

  // ---------------------------------------------------------------------------
  // Places given back
  // ---------------------------------------------------------------------------

  ghost predicate IsReady(s: State, id: Id) {
    id in s.objects && s.objects[id].core.ready
  }

  /** Requests that were started and are not executing any more are ready. */
  ghost predicate GivenBack(s: State) {
    forall id :: id in s.started && id !in s.executing ==> IsReady(s, id)
  }

  /** A request leaves the executing ones in one event only: the scheduler looks at it, and it is
      ready. */
  lemma PlaceStep(s: State, e: Event, id: Id)
    requires Inv(s) && Enabled(s, e) && id in s.executing
    ensures id !in Apply(s, e).executing <==> e.CheckReady? && s.pc.todo[0] == id && IsReady(s, id)
  {
  }

  lemma ReadyStays(s: State, e: Event, id: Id)
    requires Inv(s) && Enabled(s, e) && IsReady(s, id)
    ensures IsReady(Apply(s, e), id)
  {
  }

  lemma StepGivesBack(s: State, e: Event)
    requires Inv(s) && Enabled(s, e) && GivenBack(s)
    ensures GivenBack(Apply(s, e))
  {
    forall id | id in Apply(s, e).started && id !in Apply(s, e).executing ensures IsReady(Apply(s, e), id) {
      if id in s.executing {
        PlaceStep(s, e, id);
      }
      ReadyStays(s, e, id);
    }
  }

  lemma {:induction false} RunGivesBack(s: State, es: seq<Event>)
    requires Inv(s) && Possible(s, es) && GivenBack(s)
    ensures GivenBack(Run(s, es))
    decreases |es|
  {
    if es != [] {
      Keeps(s, es[0]);
      StepGivesBack(s, es[0]);
      RunGivesBack(Apply(s, es[0]), es[1..]);
    }
  }

  /** However the threads interleave, a place is given back only by a request that is ready. */
  lemma OnlyReadyGiveBack(options: Options, es: seq<Event>)
    requires Possible(New(options), es)
    ensures GivenBack(Run(New(options), es))
  {
    NewInv(options);
    RunGivesBack(New(options), es);
  }

  /** The second loop of a pass, with whatever the executing threads and the sessions do meanwhile:
      what was ready when it began has given its place back, and what has given it back is ready. */
  lemma {:induction false} ReadyGiveBack(s: State, es: seq<Event>)
    requires Inv(s) && Possible(s, es) && s.pc.Reaping? && Run(s, es).pc == Reaping([])
    requires forall e :: e in es ==> !e.ReadyChecked?
    ensures var r := Run(s, es);
            && r.executing <= s.executing
            && (forall id :: id in s.pc.todo && IsReady(s, id) ==> id !in r.executing)
            && (forall id :: id in s.executing && id !in r.executing ==> IsReady(r, id))
    decreases |es|
  {
    if es != [] {
      var q, r := Apply(s, es[0]), Run(s, es);
      assert es[0] in es;
      Keeps(s, es[0]);
      ReadyGiveBack(q, es[1..]);
      forall id | id in s.pc.todo && IsReady(s, id) ensures id !in r.executing {
        ReadyStays(s, es[0], id);
        assert id in q.pc.todo || id !in q.executing;
      }
      forall id | id in s.executing && id !in r.executing ensures IsReady(r, id) {
        if id !in q.executing {
          PlaceStep(s, es[0], id);
          ReadyRuns(s, es, id);
        }
      }
    }
  }

  lemma {:induction false} ReadyRuns(s: State, es: seq<Event>, id: Id)
    requires Inv(s) && Possible(s, es) && IsReady(s, id)
    ensures IsReady(Run(s, es), id)
    decreases |es|
  {
    if es != [] {
      Keeps(s, es[0]);
      ReadyStays(s, es[0], id);
      ReadyRuns(Apply(s, es[0]), es[1..], id);
    }
  }
}
