/** One request in the arclink proxy, used by many threads at once: the sessions that wait for it or
    download it, the thread that executes it at other nodes, and the one that purges it. An event is
    what one thread does without another thread being able to come between. */
module ProxyRequest {

  type Upstream = string

  /** An increment of the use count that has not been taken back. */
  datatype Use = Execution | Session(n: nat)

  /** The executing thread: not begun, sending, having stored what was sent, gone. */
  datatype Executor = Waiting | Sending | Answered | Gone

  /** purge(): not called, the flag is set, the lock is held, returned. */
  datatype Purger = NotCalled | Flagged | Locked | Returned

  /** Who holds the lock in the middle of the closing loop, and the next index of that loop. */
  datatype Loop = Free | ByUser(next: nat) | ByPurge(next: nat)

  datatype Request = Request(
    used: int, inside: set<Use>,
    executor: Executor, ready: bool, sent: seq<Upstream>,
    purged: bool, purger: Purger, loop: Loop,
    issued: seq<Upstream>)

  const NEW := Request(0, {}, Waiting, false, [], false, NotCalled, Free, [])

  datatype Event =
    | Enter(n: nat) | Leave(n: nat)
    | Begin | Answer(sent: seq<Upstream>) | Ready | Finish
    | Flag | Lock
    | Next

  predicate Enabled(r: Request, e: Event) {
    match e
    case Enter(n) => r.loop.Free? && Session(n) !in r.inside
    case Leave(n) => r.loop.Free? && Session(n) in r.inside
    case Begin => r.loop.Free? && r.executor.Waiting?
    case Answer(_) => r.executor.Sending?
    case Ready => r.executor.Answered? && !r.ready
    case Finish => r.loop.Free? && (r.executor.Sending? || r.executor.Answered?)
    case Flag => r.purger.NotCalled?
    case Lock => r.loop.Free? && r.purger.Flagged?
    case Next => !r.loop.Free?
  }

  function Increment(r: Request, u: Use): Request {
    r.(used := r.used + 1, inside := r.inside + {u})
  }

  /** decr_used() up to the closing loop, which it enters when the count gets to zero. */
  function Decrement(r: Request, u: Use): Request {
    r.(used := r.used - 1, inside := r.inside - {u}, loop := if r.used == 1 then ByUser(0) else Free)
  }

  /** One round of the closing loop, in decr_used() and in purge(): the flag is read in each. */
  function Close(r: Request): Request
    requires !r.loop.Free?
  {
    var k := r.loop.next;
    if k < |r.sent| then
      r.(issued := if r.purged then r.issued + [r.sent[k]] else r.issued,
         loop := if r.loop.ByUser? then ByUser(k + 1) else ByPurge(k + 1))
    else
      r.(loop := Free, purger := if r.loop.ByPurge? then Returned else r.purger)
  }

  function Apply(r: Request, e: Event): Request
    requires Enabled(r, e)
  {
    match e
    case Enter(n) => Increment(r, Session(n))
    case Leave(n) => Decrement(r, Session(n))
    case Begin => Increment(r, Execution).(executor := Sending)
    case Answer(sent) => r.(executor := Answered, sent := sent)
    case Ready => r.(ready := true)
    case Finish => Decrement(r, Execution).(executor := Gone)
    case Flag => r.(purged := true, purger := Flagged)
    case Lock => if r.used == 0 then r.(loop := ByPurge(0), purger := Locked) else r.(purger := Returned)
    case Next => Close(r)
  }

  // ---------------------------------------------------------------------------
  // What every event keeps
  // ---------------------------------------------------------------------------

  /** All of the first n upstream requests have had their purge issued. */
  predicate IssuedUpTo(r: Request, n: nat) {
    forall k :: 0 <= k < n && k < |r.sent| ==> r.sent[k] in r.issued
  }

  predicate CountInv(r: Request) {
    && r.used == |r.inside|
    && (Execution in r.inside <==> r.executor.Sending? || r.executor.Answered?)
    && (!r.loop.Free? ==> r.used == 0 && r.loop.next <= |r.sent|)
    && (r.executor.Waiting? || r.executor.Sending? ==> r.sent == [])
    && (r.ready ==> r.executor.Answered? || r.executor.Gone?)
  }

  predicate PurgeInv(r: Request) {
    && (r.purged <==> !r.purger.NotCalled?)
    && (r.purger.Locked? <==> r.loop.ByPurge?)
    && (!r.purged ==> r.issued == [])
    && (r.loop.ByPurge? ==> IssuedUpTo(r, r.loop.next))
    && (r.loop.ByUser? && r.purger.Returned? ==> IssuedUpTo(r, r.loop.next))
    && (r.loop.Free? && r.purger.Returned? && r.used == 0 ==> IssuedUpTo(r, |r.sent|))
  }

  predicate Inv(r: Request) {
    CountInv(r) && PurgeInv(r)
  }

  lemma CountUp(r: Request, u: Use)
    requires r.used == |r.inside| && u !in r.inside
    ensures Increment(r, u).used == |Increment(r, u).inside|
  {
  }

  lemma CountDown(r: Request, u: Use)
    requires r.used == |r.inside| && u in r.inside
    ensures Decrement(r, u).used == |Decrement(r, u).inside|
  {
    assert r.inside == Decrement(r, u).inside + {u};
  }

  lemma CountKept(r: Request, e: Event)
    requires Inv(r) && Enabled(r, e)
    ensures CountInv(Apply(r, e))
  {
    match e
    case Enter(n) => CountUp(r, Session(n));
    case Leave(n) => CountDown(r, Session(n));
    case Begin => CountUp(r, Execution);
    case Finish => CountDown(r, Execution);
    case Answer(_) => assert Execution in r.inside && r.inside != {};
    case _ =>
  }

  lemma PurgeKept(r: Request, e: Event)
    requires Inv(r) && Enabled(r, e)
    ensures PurgeInv(Apply(r, e))
  {
    if r.used == 0 {
      assert r.inside == {};
    }
    var q := Apply(r, e);
    if e.Next? && r.loop.next < |r.sent| && r.purged {
      assert q.issued == r.issued + [r.sent[r.loop.next]];
      assert forall u :: u in r.issued ==> u in q.issued;
    }
  }

  predicate Possible(r: Request, es: seq<Event>)
    decreases |es|
  {
    es == [] || (Enabled(r, es[0]) && Possible(Apply(r, es[0]), es[1..]))
  }

  function Run(r: Request, es: seq<Event>): Request
    requires Possible(r, es)
    decreases |es|
  {
    if es == [] then r else Run(Apply(r, es[0]), es[1..])
  }

  lemma {:induction false} EveryRun(r: Request, es: seq<Event>)
    requires Inv(r) && Possible(r, es)
    ensures Inv(Run(r, es))
    decreases |es|
  {
    if es != [] {
      CountKept(r, es[0]);
      PurgeKept(r, es[0]);
      EveryRun(Apply(r, es[0]), es[1..]);
    }
  }

  /** However the threads interleave, a purge is issued upstream only by a thread that holds the lock
      while nobody uses the request, and only after purge() was called. */
  lemma PurgedOnlyUnused(es: seq<Event>, e: Event)
    requires Possible(NEW, es) && Enabled(Run(NEW, es), e)
    ensures var r := Run(NEW, es);
            Apply(r, e).issued != r.issued ==>
              && r.used == 0 && r.inside == {} && r.purged
              && (exists u :: u in r.sent && Apply(r, e).issued == r.issued + [u])
  {
    EveryRun(NEW, es);
    var r := Run(NEW, es);
    if Apply(r, e).issued != r.issued {
      assert r.sent[r.loop.next] in r.sent;
    }
  }

  /** Once purge() has returned, whenever nobody uses the request and nobody is in the closing loop,
      a purge has been issued for everything that was sent: also for what was sent later. */
  lemma IdleIsPurged(es: seq<Event>, u: Upstream)
    requires Possible(NEW, es)
    requires var r := Run(NEW, es);
             r.purger.Returned? && r.inside == {} && r.loop.Free? && u in r.sent
    ensures u in Run(NEW, es).issued
  {
    EveryRun(NEW, es);
    var r := Run(NEW, es);
    var k :| 0 <= k < |r.sent| && r.sent[k] == u;
  }

  /** Nothing is purged that was not to be purged, and the count is that of the uses. */
  lemma CountIsUses(es: seq<Event>)
    requires Possible(NEW, es)
    ensures Run(NEW, es).used == |Run(NEW, es).inside|
    ensures !Run(NEW, es).purged ==> Run(NEW, es).issued == []
  {
    EveryRun(NEW, es);
  }

  /** A purge can be issued twice: the flag is set, the last user leaves and issues it, and then
      purge() gets the lock and issues it again. */
  lemma IssuedTwice(u: Upstream) returns (es: seq<Event>)
    ensures Possible(NEW, es) && Run(NEW, es).issued == [u, u]
  {
    var closing := [Next, Next, Lock, Next, Next];
    es := [Begin, Answer([u]), Flag, Finish] + closing;
    var r1 := Apply(NEW, Begin);
    var r2 := Apply(r1, Answer([u]));
    var r3 := Apply(r2, Flag);
    var r4 := Apply(r3, Finish);
    LastUserThenPurge(r4, u);
    assert es[4..] == closing && es[3..][1..] == es[4..] && es[2..][1..] == es[3..];
    assert es[1..][1..] == es[2..];
    RunOne(r3, es[3..]);
    RunOne(r2, es[2..]);
    RunOne(r1, es[1..]);
    RunOne(NEW, es);
  }

  lemma LastUserThenPurge(r: Request, u: Upstream)
    requires r.loop == ByUser(0) && r.used == 0 && r.sent == [u] && r.purged && r.purger.Flagged?
    requires r.issued == []
    ensures var es := [Next, Next, Lock, Next, Next]; Possible(r, es) && Run(r, es).issued == [u, u]
  {
    var es := [Next, Next, Lock, Next, Next];
    var r1 := Apply(r, Next);
    var r2 := Apply(r1, Next);
    var r3 := Apply(r2, Lock);
    var r4 := Apply(r3, Next);
    var r5 := Apply(r4, Next);
    assert r5.issued == [u, u];
    assert es[1..] == [Next, Lock, Next, Next] && es[2..] == [Lock, Next, Next];
    RunOne(r4, [Next]);
    RunOne(r3, [Next, Next]);
    RunOne(r2, [Lock, Next, Next]);
    RunOne(r1, [Next, Lock, Next, Next]);
    RunOne(r, es);
  }

  lemma RunOne(r: Request, es: seq<Event>)
    requires es != [] && Enabled(r, es[0]) && Possible(Apply(r, es[0]), es[1..])
    ensures Possible(r, es) && Run(r, es) == Run(Apply(r, es[0]), es[1..])
  {
  }

  // ---------------------------------------------------------------------------
  // The calls of one thread, when no other thread comes between
  // ---------------------------------------------------------------------------

  /** The closing loop run to its end. */
  function Settle(r: Request): Request
    requires r.loop.Free? || r.loop.next <= |r.sent|
    decreases if r.loop.Free? then 0 else 1 + |r.sent| - r.loop.next
  {
    if r.loop.Free? then r else Settle(Close(r))
  }

  /** The loop, run to its end, issues a purge for every upstream request in order, if the flag is
      set, and nothing otherwise. */
  lemma {:induction false} SettleIssues(r: Request)
    requires !r.loop.Free? && r.loop.next <= |r.sent|
    ensures Settle(r) == r.(loop := Free, purger := if r.loop.ByPurge? then Returned else r.purger,
                            issued := if r.purged then r.issued + r.sent[r.loop.next..] else r.issued)
    decreases |r.sent| - r.loop.next
  {
    var k := r.loop.next;
    if k < |r.sent| {
      SettleIssues(Close(r));
      assert [r.sent[k]] + r.sent[k + 1..] == r.sent[k..];
      assert r.issued + [r.sent[k]] + r.sent[k + 1..] == r.issued + r.sent[k..];
    } else {
      assert r.sent[k..] == [];
      assert r.issued + [] == r.issued;
    }
  }

  class RequestProxy {
    var used: int
    var purged: bool
    var ready: bool
    var reqSent: seq<Upstream>
    /** The purges issued, in order. */
    var issued: seq<Upstream>
    ghost var state: Request

    ghost predicate Valid()
      reads this
    {
      && Inv(state) && state.loop.Free?
      && used == state.used && purged == state.purged && ready == state.ready
      && reqSent == state.sent && issued == state.issued
    }

    constructor ()
      ensures Valid() && state == NEW
    {
      used, purged, ready, reqSent, issued, state := 0, false, false, [], [], NEW;
    }

    /** incr_used(), by a session. */
    method IncrUsed(ghost n: nat)
      requires Valid() && Session(n) !in state.inside
      modifies this
      ensures Valid() && state == Apply(old(state), Enter(n))
    {
      used := used + 1;
      CountKept(state, Enter(n));
      PurgeKept(state, Enter(n));
      state := Apply(state, Enter(n));
    }

    /** The loop of decr_used() and purge(). */
    method CloseAll()
      requires Inv(state) && !state.loop.Free? && state.loop.next == 0
      requires used == state.used && purged == state.purged && ready == state.ready
      requires reqSent == state.sent && issued == state.issued
      modifies this
      ensures Valid() && state == Settle(old(state))
      ensures used == old(used) && purged == old(purged) && ready == old(ready) && reqSent == old(reqSent)
      ensures issued == if purged then old(issued) + reqSent else old(issued)
    {
      SettleIssues(state);
      assert reqSent[0..] == reqSent;
      var i := 0;
      while i < |reqSent|
        invariant i <= |reqSent| && Inv(state) && !state.loop.Free? && state.loop.next == i
        invariant used == state.used && purged == state.purged && ready == state.ready
        invariant reqSent == state.sent && issued == state.issued
        invariant used == old(used) && purged == old(purged) && ready == old(ready) && reqSent == old(reqSent)
        invariant Settle(state) == Settle(old(state))
      {
        if purged {
          issued := issued + [reqSent[i]];
        }
        CountKept(state, Next);
        PurgeKept(state, Next);
        state := Apply(state, Next);
        i := i + 1;
      }
      CountKept(state, Next);
      PurgeKept(state, Next);
      state := Apply(state, Next);
    }

    /** decr_used(), by a session or the executing thread: the last one out closes, and purges if
        that was asked for. */
    method DecrUsed(ghost e: Event)
      requires Valid() && Enabled(state, e) && (e.Leave? || e.Finish?)
      modifies this
      ensures Valid() && state == Settle(Apply(old(state), e))
      ensures used == old(used) - 1 && ready == old(ready) && reqSent == old(reqSent)
      ensures issued == if used == 0 && purged then old(issued) + reqSent else old(issued)
      ensures purged == old(purged)
    {
      CountKept(state, e);
      PurgeKept(state, e);
      state := Apply(state, e);
      used := used - 1;
      if used == 0 {
        CloseAll();
      }
    }

    /** purge(): what is in use now is purged by the last user. */
    method Purge()
      requires Valid() && !purged
      modifies this
      ensures Valid() && purged && state == Settle(Apply(Apply(old(state), Flag), Lock))
      ensures used == old(used) && reqSent == old(reqSent)
      ensures issued == if used == 0 then old(issued) + reqSent else old(issued)
    {
      CountKept(state, Flag);
      PurgeKept(state, Flag);
      state := Apply(state, Flag);
      purged := true;
      CountKept(state, Lock);
      PurgeKept(state, Lock);
      state := Apply(state, Lock);
      if used == 0 {
        CloseAll();
      }
    }

    /** The middle part of execute(): the upstream requests are stored, and then their status is read,
        which an exception may end. */
    method Store(result: seq<Upstream>, statusRead: bool)
      requires Valid() && state.executor.Sending? && !ready
      modifies this
      ensures Valid() && ready == statusRead && used == old(used) && purged == old(purged) && issued == old(issued)
      ensures reqSent == result && state == Sent(old(state), result, if statusRead then Completed else Stored)
    {
      StoreKept(state, result, if statusRead then Completed else Stored);
      reqSent, ready := result, statusRead;
      state := Sent(state, result, if statusRead then Completed else Stored);
    }

    /** execute(), with exceptions that it does not catch itself. */
    method Execute(result: seq<Upstream>, outcome: Outcome)
      requires Valid() && state.executor.Waiting?
      modifies this
      ensures Valid() && ready == outcome.Completed? && used == old(used)
      ensures reqSent == if outcome.Failed? then [] else result
      ensures issued == if used == 0 && purged then old(issued) + reqSent else old(issued)
      ensures state == Settle(Apply(Sent(Apply(old(state), Begin), result, outcome), Finish))
    {
      CountKept(state, Begin);
      PurgeKept(state, Begin);
      state := Apply(state, Begin);
      used := used + 1;
      if !outcome.Failed? {
        Store(result, outcome.Completed?);
      }
      DecrUsed(Finish);
    }
  }

  /** How execute() ends: by an exception before anything was stored, by one after that, or ready. */
  datatype Outcome = Failed | Stored | Completed

  /** What the executing thread stores. */
  function Sent(r: Request, result: seq<Upstream>, outcome: Outcome): Request
    requires r.executor.Sending? && !r.ready
  {
    match outcome
    case Failed => r
    case Stored => Apply(r, Answer(result))
    case Completed => Apply(Apply(r, Answer(result)), Ready)
  }

  lemma StoreKept(r: Request, result: seq<Upstream>, outcome: Outcome)
    requires Inv(r) && r.executor.Sending? && !r.ready
    ensures Inv(Sent(r, result, outcome))
  {
    CountKept(r, Answer(result));
    PurgeKept(r, Answer(result));
    var q := Apply(r, Answer(result));
    CountKept(q, Ready);
    PurgeKept(q, Ready);
  }
}
