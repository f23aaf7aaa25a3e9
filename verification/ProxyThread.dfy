/** The container of the arclink proxy as a program. Each method holds the container's lock all the
    time; here no other thread does anything to the requests in the meantime. */
module ProxyThread {

  import R = ProxyRequest
  import opened ProxyContainer

  /** The events lead from one state to the other. */
  ghost predicate Leads(s: State, es: seq<Event>, t: State) {
    Possible(s, es) && Run(s, es) == t && Inv(t)
  }

  lemma Onward(s: State, es: seq<Event>, t: State, e: Event)
    requires Leads(s, es, t) && Enabled(t, e)
    ensures Leads(s, es + [e], Apply(t, e))
  {
    RunMore(s, es, e);
    Keeps(t, e);
  }

  lemma Through(s: State, a: seq<Event>, t: State, b: seq<Event>, u: State)
    requires Leads(s, a, t) && Leads(t, b, u)
    ensures Leads(s, a + b, u)
  {
    RunAppend(s, a, b);
  }

  lemma ExecutingStarted(s: State)
    requires Inv(s)
    ensures forall i :: i in s.executing ==> i in s.started && i in s.objects
  {
  }

  lemma ReapingKnown(s: State)
    requires Inv(s) && s.pc.Reaping?
    ensures forall i :: i in s.pc.todo ==> i in s.objects
  {
  }

  function WithCore(s: State, id: Id, core: R.Request): State
    requires id in s.objects
  {
    s.(objects := s.objects[id := s.objects[id].(core := core)])
  }

  /** The rounds of the closing loop, as events of the container. */
  lemma {:induction false} ClosingRun(s: State, id: Id) returns (es: seq<Event>)
    requires id in s.objects && !s.objects[id].core.loop.Free?
    requires s.objects[id].core.loop.next <= |s.objects[id].core.sent|
    ensures Possible(s, es) && Run(s, es) == WithCore(s, id, R.Settle(s.objects[id].core))
    decreases |s.objects[id].core.sent| - s.objects[id].core.loop.next
  {
    var r := Apply(s, Inner(id, R.Next));
    if s.objects[id].core.loop.next < |s.objects[id].core.sent| {
      var rest := ClosingRun(r, id);
      es := [Inner(id, R.Next)] + rest;
      assert es[1..] == rest;
    } else {
      es := [Inner(id, R.Next)];
      assert es[1..] == [];
    }
  }

  /** purge() of a request, called when nothing else happens to it. */
  function Purged(core: R.Request): R.Request
    requires core.purger.NotCalled? && core.loop.Free?
  {
    R.Settle(R.Apply(R.Apply(core, R.Flag), R.Lock))
  }

  lemma PurgeRun(s: State, id: Id) returns (es: seq<Event>)
    requires id in s.objects && BeingPurged(s.pc, id)
    requires s.objects[id].core.purger.NotCalled? && s.objects[id].core.loop.Free?
    ensures Possible(s, es) && Run(s, es) == WithCore(s, id, Purged(s.objects[id].core))
  {
    var s1 := Apply(s, Inner(id, R.Flag));
    var s2 := Apply(s1, Inner(id, R.Lock));
    var core := s2.objects[id].core;
    es := [];
    if !core.loop.Free? {
      es := ClosingRun(s2, id);
    } else {
      assert R.Settle(core) == core;
      assert s2.objects[id := s2.objects[id]] == s2.objects;
    }
    assert Run(s2, es) == WithCore(s2, id, R.Settle(core));
    assert WithCore(s2, id, R.Settle(core)) == WithCore(s, id, R.Settle(core));
    var last := [Inner(id, R.Lock)] + es;
    assert last[1..] == es;
    es := [Inner(id, R.Flag)] + last;
    assert es[1..] == last;
  }

  lemma PurgedReturned(core: R.Request)
    requires R.Inv(core) && core.purger.NotCalled? && core.loop.Free?
    ensures Purged(core).purger.Returned? && Purged(core).loop.Free? && Purged(core).ready == core.ready
  {
    var q := R.Apply(R.Apply(core, R.Flag), R.Lock);
    if !q.loop.Free? {
      R.SettleIssues(q);
    }
  }

  predicate TooOld(e: Entry, now: int, maxAge: int) {
    e.core.ready && now - e.time > maxAge
  }

  /** The objects after those of gone were purged. */
  ghost predicate PurgedSome(before: map<Id, Entry>, after: map<Id, Entry>, gone: set<Id>) {
    && after.Keys == before.Keys
    && forall i :: i in before ==>
         if i in gone then after[i].core.purger.Returned? && after[i].core.ready == before[i].core.ready
         else after[i] == before[i]
  }

  /** The requests of done have been looked at. */
  ghost predicate Expiry(o: map<Id, Entry>, r: set<Id>, done: seq<Id>, now: int, maxAge: int, o': map<Id, Entry>,
                         r': set<Id>)
  {
    && (forall i :: i in r' <==> i in r && !(i in done && i in o && TooOld(o[i], now, maxAge)))
    && PurgedSome(o, o', r - r')
  }

  lemma ExpiryNext(o: map<Id, Entry>, r: set<Id>, done: seq<Id>, now: int, maxAge: int,
                   o1: map<Id, Entry>, r1: set<Id>, x: Id, o2: map<Id, Entry>, r2: set<Id>)
    requires Expiry(o, r, done, now, maxAge, o1, r1) && x in r1 && x in o1
    requires r2 == if TooOld(o1[x], now, maxAge) then r1 - {x} else r1
    requires PurgedSome(o1, o2, r1 - r2)
    ensures Expiry(o, r, done + [x], now, maxAge, o2, r2)
  {
    assert x in o && o1[x] == o[x];
    assert forall i :: i in done + [x] <==> i in done || i == x;
    forall i | i in o
      ensures if i in r - r2 then o2[i].core.purger.Returned? && o2[i].core.ready == o[i].core.ready else o2[i] == o[i]
    {
      assert i in o1;
    }
  }

  /** What was started since is executing, too. */
  ghost predicate StartedMore(e: set<Id>, started: seq<Id>, e': set<Id>, started': seq<Id>) {
    started <= started' && e' == e + set i | i in started'[|started|..]
  }

  lemma StartedNext(e: set<Id>, started: seq<Id>, e1: set<Id>, started1: seq<Id>, x: Id)
    requires StartedMore(e, started, e1, started1)
    ensures StartedMore(e, started, e1 + {x}, started1 + [x])
  {
    assert (started1 + [x])[|started|..] == started1[|started|..] + [x];
  }

  /** What is executing after a pass: what was executing and was not ready, and what was started. */
  lemma ExecutingAfter(o: map<Id, Entry>, e: set<Id>, started: seq<Id>, o1: map<Id, Entry>, gone: set<Id>,
                       order: seq<Id>,
                       e1: set<Id>, e2: set<Id>, started2: seq<Id>)
    requires PurgedSome(o, o1, gone) && Lists(order, e) && (forall i :: i in e ==> i in o)
    requires forall i :: i in e1 <==> i in e && !(i in order && i in o1 && o1[i].core.ready)
    requires StartedMore(e1, started, e2, started2)
    ensures started <= started2
    ensures forall i :: i in e2 <==> (i in e && !o[i].core.ready) || i in started2[|started|..]
  {
    forall i | i in e ensures i in e1 <==> !o[i].core.ready {
      assert i in o && i in o1;
    }
  }

  class RequestContainerThread {
    const options: Options
    var id: Id
    var objects: map<Id, Entry>
    var request: set<Id>
    var queued: seq<Id>
    var executing: set<Id>
    ghost var started: seq<Id>

    /** The state when the thread that holds the lock is at pc. */
    ghost function View(pc: Pc): State
      reads this
    {
      State(options, id, objects, request, queued, executing, started, pc)
    }

    constructor (options: Options)
      ensures View(Unlocked) == New(options) && Inv(New(options))
    {
      this.options := options;
      id, objects, request, queued, executing, started := 0, map[], {}, [], {}, [];
      new;
      NewInv(options);
    }

    /** put(): refused if the queue is full or the user has too many requests in it. */
    method Put(user: string, time: int) returns (accepted: bool)
      requires Inv(View(Unlocked))
      modifies this
      ensures Inv(View(Unlocked)) && View(Unlocked) == Apply(old(View(Unlocked)), ProxyContainer.Put(user, time))
      ensures accepted <==>
              && |old(queued)| < options.maxQueued
              && (options.maxQueuedPerUser == 0 ||
                  CountUser(old(objects), old(queued), user) < options.maxQueuedPerUser)
      ensures accepted ==>
                && queued == old(queued) + [old(id)] && id == old(id) + 1 && request == old(request) + {old(id)}
                && objects == old(objects)[old(id) := Entry(user, time, R.NEW)]
      ensures !accepted ==> unchanged(this)
      ensures executing == old(executing) && started == old(started)
    {
      PutKeeps(View(Unlocked), user, time);
      if |queued| >= options.maxQueued {
        return false;
      }
      var count, i := 0, 0;
      while i < |queued|
        invariant i <= |queued| && count == CountUser(objects, queued[..i], user)
      {
        assert queued[..i + 1][..i] == queued[..i];
        if objects[queued[i]].user == user {
          count := count + 1;
        }
        i := i + 1;
      }
      assert queued[..i] == queued;
      if options.maxQueuedPerUser != 0 && count >= options.maxQueuedPerUser {
        return false;
      }
      objects := objects[id := Entry(user, time, R.NEW)];
      request := request + {id};
      queued := queued + [id];
      id := id + 1;
      return true;
    }

    /** The loop of purge(): the first entry with this id leaves the queue. */
    method Unqueue(which: Id)
      modifies this`queued
      ensures queued == Without(old(queued), which)
    {
      var i := 0;
      while i < |queued|
        invariant i <= |queued| && queued == old(queued)
        invariant Without(queued, which) == queued[..i] + Without(queued[i..], which)
      {
        if which == queued[i] {
          queued := queued[..i] + queued[i + 1..];
          assert old(queued)[i..][1..] == old(queued)[i + 1..];
          return;
        }
        assert queued[i..] == [queued[i]] + queued[i + 1..];
        assert queued[..i] + [queued[i]] == queued[..i + 1];
        i := i + 1;
      }
      assert queued[..i] == queued && queued[i..] == [];
    }

    /** purge() of the container: false: there is no such request. */
    method Purge(which: Id) returns (found: bool, ghost es: seq<Event>)
      requires Inv(View(Unlocked)) && (which in objects ==> objects[which].core.loop.Free?)
      modifies this
      ensures Leads(old(View(Unlocked)), es, View(Unlocked)) && found == (which in old(request))
      ensures which !in queued && started == old(started) && executing == old(executing)
      ensures request == old(request) - {which}
      ensures queued == if found && !old(objects[which]).core.ready then Without(old(queued), which) else old(queued)
      ensures !found ==> objects == old(objects)
      ensures found ==> objects == old(objects)[which := old(objects[which]).(core := Purged(old(objects[which].core)))]
    {
      ghost var s := View(Unlocked);
      es := [];
      if which !in request {
        assert which !in queued;
        return false, es;
      }
      assert EntryInv(s, which);
      if !objects[which].core.ready {
        Unqueue(which);
      }
      ghost var s1 := Apply(s, PurgeCommand(which));
      PurgeCommandKeeps(s, which);
      ghost var inner := PurgeHere(which, s1);
      request := request - {which};
      Onward(s1, inner, WithCore(s1, which, Purged(s1.objects[which].core)), Delete);
      es := [PurgeCommand(which)] + (inner + [Delete]);
      assert es[1..] == inner + [Delete];
      return true, es;
    }

    /** The first loop of a pass: exactly the requests that are ready and too old are purged and
        deleted. The requests may come in any order. */
    method Expire(now: int, order: seq<Id>, ghost s: State, ghost before: seq<Event>) returns (ghost es: seq<Event>)
      requires Leads(s, before, View(Ageing(now, order)))
      requires forall i :: i in objects ==> objects[i].core.loop.Free?
      modifies this
      ensures Leads(s, es, View(Ageing(now, [])))
      ensures queued == old(queued) && executing == old(executing) && started == old(started)
      ensures Expiry(old(objects), old(request), order, now, options.maxAge, objects, request)
      ensures forall i :: i in request <==>
                && i in old(request)
                && !(i in order && i in old(objects) && old(objects)[i].core.ready
                     && now - old(objects)[i].time > options.maxAge)
    {
      es := before;
      var i := 0;
      assert order[0..] == order;
      while i < |order|
        invariant i <= |order| && Leads(s, es, View(Ageing(now, order[i..])))
        invariant forall i :: i in objects ==> objects[i].core.loop.Free?
        invariant queued == old(queued) && executing == old(executing) && started == old(started)
        invariant Expiry(old(objects), old(request), order[..i], now, options.maxAge, objects, request)
      {
        es := ExpireNext(now, order, i, s, es, old(objects), old(request));
        i := i + 1;
      }
      assert order[i..] == [] && order[..i] == order;
    }

    /** The request at i; o and r are the objects and the dictionary before the loop. */
    method ExpireNext(now: int, order: seq<Id>, i: nat, ghost s: State, ghost before: seq<Event>,
                      ghost o: map<Id, Entry>, ghost r: set<Id>)
      returns (ghost es: seq<Event>)
      requires i < |order| && Leads(s, before, View(Ageing(now, order[i..])))
      requires forall i :: i in objects ==> objects[i].core.loop.Free?
      requires Expiry(o, r, order[..i], now, options.maxAge, objects, request)
      modifies this
      ensures Leads(s, es, View(Ageing(now, order[i + 1..])))
      ensures forall i :: i in objects ==> objects[i].core.loop.Free?
      ensures queued == old(queued) && executing == old(executing) && started == old(started)
      ensures Expiry(o, r, order[..i + 1], now, options.maxAge, objects, request)
    {
      assert order[i..][1..] == order[i + 1..] && order[..i + 1] == order[..i] + [order[i]];
      ghost var t := View(Ageing(now, order[i..]));
      ghost var more := ExpireOne(now, order[i..], t);
      ExpiryNext(o, r, order[..i], now, options.maxAge, t.objects, t.request, order[i], objects, request);
      Through(s, before, t, more, View(Ageing(now, order[i + 1..])));
      es := before + more;
    }

    method ExpireOne(now: int, todo: seq<Id>, ghost s: State) returns (ghost es: seq<Event>)
      requires s == View(Ageing(now, todo)) && Inv(s) && todo != []
      requires forall i :: i in objects ==> objects[i].core.loop.Free?
      modifies this
      ensures forall i :: i in objects ==> objects[i].core.loop.Free?
      ensures Leads(s, es, View(Ageing(now, todo[1..])))
      ensures queued == old(queued) && executing == old(executing) && started == old(started)
      ensures todo[0] in s.objects && todo[0] in s.request
      ensures request == if TooOld(s.objects[todo[0]], now, options.maxAge) then s.request - {todo[0]} else s.request
      ensures PurgedSome(s.objects, objects, s.request - request)
    {
      assert todo[0] in todo && EntryInv(s, todo[0]);
      PassKeeps(s, CheckAge);
      es := [CheckAge];
      assert es[1..] == [];
      if objects[todo[0]].core.ready && now - objects[todo[0]].time > options.maxAge {
        ghost var s1 := s.(pc := Expiring(now, todo));
        ghost var inner := PurgeHere(todo[0], s1);
        request := request - {todo[0]};
        ghost var s2 := WithCore(s1, todo[0], Purged(s1.objects[todo[0]].core));
        Onward(s1, inner, s2, Delete);
        es := [CheckAge] + (inner + [Delete]);
        assert es[1..] == inner + [Delete];
      }
    }

    /** request[id].purge(), called by the thread that holds the lock. */
    method PurgeHere(which: Id, ghost s: State) returns (ghost es: seq<Event>)
      requires s == View(s.pc) && Inv(s) && BeingPurged(s.pc, which) && which in objects
      requires objects[which].core.purger.NotCalled? && objects[which].core.loop.Free?
      modifies this`objects
      ensures Leads(s, es, WithCore(s, which, Purged(s.objects[which].core)))
      ensures View(s.pc) == WithCore(s, which, Purged(s.objects[which].core))
      ensures objects[which].core.ready == s.objects[which].core.ready
      ensures objects[which].core.purger.Returned? && objects[which].core.loop.Free?
    {
      assert EntryInv(s, which);
      es := PurgeRun(s, which);
      RunKeeps(s, es);
      PurgedReturned(objects[which].core);
      objects := objects[which := objects[which].(core := Purged(objects[which].core))];
    }

    /** The second loop: what is ready is not executing any more. */
    method Reap(order: seq<Id>, ghost s: State, ghost before: seq<Event>) returns (ghost es: seq<Event>)
      requires Leads(s, before, View(Reaping(order)))
      modifies this`executing
      ensures Leads(s, es, View(Reaping([])))
      ensures forall i :: i in executing <==>
                i in old(executing) && !(i in order && i in objects && objects[i].core.ready)
    {
      es := before;
      var i := 0;
      assert order[0..] == order && order[..0] == [];
      while i < |order|
        invariant i <= |order| && Leads(s, es, View(Reaping(order[i..])))
        invariant forall k :: k in executing <==>
                    k in old(executing) && !(k in order[..i] && k in objects && objects[k].core.ready)
      {
        assert order[i..][1..] == order[i + 1..];
        assert order[..i + 1] == order[..i] + [order[i]];
        es := ReapOne(order[i..], s, es);
        i := i + 1;
      }
      assert order[i..] == [] && order[..i] == order;
    }

    method ReapOne(todo: seq<Id>, ghost s: State, ghost before: seq<Event>) returns (ghost es: seq<Event>)
      requires Leads(s, before, View(Reaping(todo))) && todo != []
      modifies this`executing
      ensures Leads(s, es, View(Reaping(todo[1..])))
      ensures todo[0] in objects
      ensures executing == if objects[todo[0]].core.ready then old(executing) - {todo[0]} else old(executing)
    {
      ghost var t := View(Reaping(todo));
      assert todo[0] in todo;
      ReapingKnown(t);
      Onward(s, before, t, CheckReady);
      es := before + [CheckReady];
      if objects[todo[0]].core.ready {
        executing := executing - {todo[0]};
      }
      assert View(Reaping(todo[1..])) == Apply(t, CheckReady);
    }

    /** The third loop: the first in the queue are started, as many as there is room for. */
    method StartQueued(ghost s: State, ghost before: seq<Event>) returns (ghost es: seq<Event>)
      requires Leads(s, before, View(Starting))
      modifies this
      ensures Leads(s, es, View(Unlocked)) && objects == old(objects)
      ensures request == old(request)
      ensures StartedMore(old(executing), old(started), executing, started)
      ensures queued == [] || |executing| >= options.maxExecuting
      ensures started + queued == old(started + queued)
    {
      es := before;
      while queued != [] && |executing| < options.maxExecuting
        invariant Leads(s, es, View(Starting)) && objects == old(objects) && request == old(request)
        invariant StartedMore(old(executing), old(started), executing, started)
        invariant started + queued == old(started + queued)
        decreases |queued|
      {
        ghost var e1, st1, first := executing, started, queued[0];
        es := StartFirst(s, es);
        StartedNext(old(executing), old(started), e1, st1, first);
      }
      ghost var t := View(Starting);
      Onward(s, es, t, Start);
      es := es + [Start];
      assert View(Unlocked) == Apply(t, Start);
    }

    method StartFirst(ghost s: State, ghost before: seq<Event>) returns (ghost es: seq<Event>)
      requires Leads(s, before, View(Starting)) && queued != [] && |executing| < options.maxExecuting
      modifies this
      ensures Leads(s, es, View(Starting)) && objects == old(objects) && request == old(request)
      ensures started + queued == old(started + queued) && |queued| < old(|queued|)
      ensures started == old(started) + [old(queued[0])] && executing == old(executing) + {old(queued[0])}
    {
      ghost var t := View(Starting);
      Onward(s, before, t, Start);
      es := before + [Start];
      assert started + queued == started + [queued[0]] + queued[1..];
      var req := queued[0];
      queued := queued[1..];
      executing := executing + {req};
      started := started + [req];
      assert View(Starting) == Apply(t, Start);
    }

    /** The first two loops of a pass. */
    method ExpireAndReap(now: int, ages: seq<Id>, running: seq<Id>, ghost s: State) returns (ghost es: seq<Event>)
      requires s == View(Unlocked) && Inv(s) && forall i :: i in objects ==> objects[i].core.loop.Free?
      requires ProxyContainer.Lists(ages, request) && ProxyContainer.Lists(running, executing)
      modifies this
      ensures Leads(s, es, View(Reaping([])))
      ensures Expiry(old(objects), old(request), ages, now, options.maxAge, objects, request)
      ensures queued == old(queued) && started == old(started)
      ensures forall i :: i in executing <==>
                i in old(executing) && !(i in running && i in objects && objects[i].core.ready)
    {
      Onward(s, [], s, Pass(now, ages));
      es := Expire(now, ages, s, [] + [Pass(now, ages)]);
      Onward(s, es, View(Ageing(now, [])), AgesChecked(running));
      es := Reap(running, s, es + [AgesChecked(running)]);
    }

    /** One round of run(): exactly the old requests are gone, exactly the ready ones do not count as
        executing any more, and then as many as there is room for are started, in order. */
    method RunPass(now: int, ages: seq<Id>, running: seq<Id>) returns (ghost es: seq<Event>)
      requires Inv(View(Unlocked)) && forall i :: i in objects ==> objects[i].core.loop.Free?
      requires ProxyContainer.Lists(ages, request) && ProxyContainer.Lists(running, executing)
      modifies this
      ensures Leads(old(View(Unlocked)), es, View(Unlocked))
      ensures forall i :: i in request <==>
                && i in old(request) && i in old(objects)
                && !(old(objects)[i].core.ready && now - old(objects)[i].time > options.maxAge)
      ensures forall i :: i in old(request) - request ==>
                i in old(objects) && i in objects && objects[i].core.purger.Returned?
      ensures old(started) <= started
      ensures forall i :: i in executing <==>
                || (i in old(executing) && i in old(objects) && !old(objects)[i].core.ready)
                || i in started[|old(started)|..]
      ensures queued == [] || |executing| >= options.maxExecuting
      ensures started + queued == old(started + queued)
    {
      ghost var s := View(Unlocked);
      ExecutingStarted(s);
      es := ExpireAndReap(now, ages, running, s);
      ghost var o1, r1, e1 := objects, request, executing;
      Onward(s, es, View(Reaping([])), ReadyChecked);
      es := StartQueued(s, es + [ReadyChecked]);
      ExecutingAfter(s.objects, s.executing, s.started, o1, s.request - r1, running, e1, executing, started);
    }
  }
}
