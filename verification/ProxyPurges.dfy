/** How often the purge of an upstream request is issued: once by each closing loop that passes it
    with the flag set. */
module ProxyPurges {

  import opened ProxyRequest

  /** The indices that closing loops pass with the flag set, in order. */
  function Passed(r: Request, es: seq<Event>): seq<nat>
    requires Possible(r, es)
    decreases |es|
  {
    if es == [] then []
    else
      (if es[0].Next? && r.purged && r.loop.next < |r.sent| then [r.loop.next] else [])
      + Passed(Apply(r, es[0]), es[1..])
  }

  function Times(r: Request, es: seq<Event>, k: nat): nat
    requires Possible(r, es)
  {
    multiset(Passed(r, es))[k]
  }

  function Purges(sent: seq<Upstream>, indices: seq<nat>): seq<Upstream> {
    if indices == [] then []
    else (if indices[0] < |sent| then [sent[indices[0]]] else []) + Purges(sent, indices[1..])
  }

  /** With this event a closing loop begins that is to pass k with the flag set, or one that is still
      to pass k finds the flag set from now on. */
  predicate Begins(r: Request, e: Event, k: nat) {
    k < |r.sent| &&
    match e
    case Leave(_) => r.purged && r.used == 1
    case Finish => r.purged && r.used == 1
    case Lock => r.used == 0
    case Flag => !r.loop.Free? && r.loop.next <= k
    case _ => false
  }

  function Begun(r: Request, es: seq<Event>, k: nat): nat
    requires Possible(r, es)
    decreases |es|
  {
    if es == [] then 0 else (if Begins(r, es[0], k) then 1 else 0) + Begun(Apply(r, es[0]), es[1..], k)
  }

  /** A closing loop is still to pass k, with the flag set. */
  function Ahead(r: Request, k: nat): nat {
    if !r.loop.Free? && r.purged && r.loop.next <= k < |r.sent| then 1 else 0
  }

  lemma Keeps(r: Request, e: Event)
    requires Inv(r) && Enabled(r, e)
    ensures Inv(Apply(r, e))
  {
    CountKept(r, e);
    PurgeKept(r, e);
  }

  lemma Unused(r: Request)
    requires Inv(r) && r.used == 0
    ensures r.inside == {} && !r.executor.Sending? && !r.executor.Answered?
  {
    assert r.inside == {};
  }

  /** One event: what it passes and what it leaves ahead are what was ahead and what it begins. */
  lemma PassOne(r: Request, e: Event, k: nat)
    requires Inv(r) && Enabled(r, e)
    ensures (if e.Next? && r.purged && r.loop.next == k < |r.sent| then 1 else 0) + Ahead(Apply(r, e), k) ==
            Ahead(r, k) + if Begins(r, e, k) then 1 else 0
  {
    if r.used == 0 {
      Unused(r);
    }
  }

  /** However the threads interleave, k is passed with the flag set once for each closing loop that
      begins so, but for one that is still running. */
  lemma {:induction false} OncePerLoop(r: Request, es: seq<Event>, k: nat)
    requires Inv(r) && Possible(r, es)
    ensures Times(r, es, k) + Ahead(Run(r, es), k) == Ahead(r, k) + Begun(r, es, k)
    decreases |es|
  {
    if es != [] {
      Keeps(r, es[0]);
      PassOne(r, es[0], k);
      OncePerLoop(Apply(r, es[0]), es[1..], k);
    }
  }

  /** The upstream requests are stored once. */
  lemma {:induction false} SentFixed(r: Request, es: seq<Event>)
    requires Inv(r) && Possible(r, es) && r.sent != []
    ensures Run(r, es).sent == r.sent
    decreases |es|
  {
    if es != [] {
      Keeps(r, es[0]);
      SentFixed(Apply(r, es[0]), es[1..]);
    }
  }

  lemma PurgesFirst(issued: seq<Upstream>, sent: seq<Upstream>, k: nat, rest: seq<nat>)
    requires k < |sent|
    ensures issued + [sent[k]] + Purges(sent, rest) == issued + Purges(sent, [k] + rest)
  {
    assert ([k] + rest)[1..] == rest;
    assert issued + [sent[k]] + Purges(sent, rest) == issued + ([sent[k]] + Purges(sent, rest));
  }

  lemma PassedFirst(r: Request, es: seq<Event>)
    requires Possible(r, es) && es != []
    ensures Passed(r, es) ==
            if es[0].Next? && r.purged && r.loop.next < |r.sent| then [r.loop.next] + Passed(Apply(r, es[0]), es[1..])
            else Passed(Apply(r, es[0]), es[1..])
  {
    assert [] + Passed(Apply(r, es[0]), es[1..]) == Passed(Apply(r, es[0]), es[1..]);
  }

  /** The purges issued are exactly those of the indices passed. */
  lemma {:induction false} IssuedArePassed(r: Request, es: seq<Event>)
    requires Inv(r) && Possible(r, es)
    ensures Run(r, es).issued == r.issued + Purges(Run(r, es).sent, Passed(r, es))
    decreases |es|
  {
    if es == [] {
      assert r.issued + [] == r.issued;
    } else {
      var q := Apply(r, es[0]);
      Keeps(r, es[0]);
      IssuedArePassed(q, es[1..]);
      PassedFirst(r, es);
      if es[0].Next? && r.purged && r.loop.next < |r.sent| {
        SentFixed(r, es);
        PurgesFirst(r.issued, r.sent, r.loop.next, Passed(q, es[1..]));
      }
    }
  }

  /** The indices that are passed are those of stored requests. */
  lemma {:induction false} PassedAreSent(r: Request, es: seq<Event>)
    requires Inv(r) && Possible(r, es)
    ensures forall k :: k in Passed(r, es) ==> k < |Run(r, es).sent|
    decreases |es|
  {
    if es != [] {
      Keeps(r, es[0]);
      PassedAreSent(Apply(r, es[0]), es[1..]);
      PassedFirst(r, es);
      if r.sent != [] {
        SentFixed(r, es);
      }
    }
  }

  ghost predicate Distinct(sent: seq<Upstream>) {
    forall i, j :: 0 <= i < j < |sent| ==> sent[i] != sent[j]
  }

  /** Distinct requests are purged as often as their indices are passed. */
  lemma {:induction false} PurgesCount(sent: seq<Upstream>, indices: seq<nat>, k: nat)
    requires Distinct(sent) && k < |sent| && forall i :: i in indices ==> i < |sent|
    ensures multiset(Purges(sent, indices))[sent[k]] == multiset(indices)[k]
  {
    if indices != [] {
      assert indices == [indices[0]] + indices[1..];
      assert indices[0] in indices && forall i :: i in indices[1..] ==> i in indices;
      PurgesCount(sent, indices[1..], k);
      assert sent[indices[0]] == sent[k] <==> indices[0] == k;
    }
  }

  /** The exact condition: when no closing loop is running, a purge has been issued as often as
      closing loops have begun with the flag set, so at most once if and only if at most one has. */
  lemma AtMostOnce(es: seq<Event>, k: nat)
    requires Possible(NEW, es) && Run(NEW, es).loop.Free?
    ensures Run(NEW, es).issued == Purges(Run(NEW, es).sent, Passed(NEW, es))
    ensures Times(NEW, es, k) == Begun(NEW, es, k)
    ensures var r := Run(NEW, es);
            Distinct(r.sent) && k < |r.sent| ==>
              && multiset(r.issued)[r.sent[k]] == Begun(NEW, es, k)
              && (multiset(r.issued)[r.sent[k]] <= 1 <==> Begun(NEW, es, k) <= 1)
  {
    OncePerLoop(NEW, es, k);
    IssuedArePassed(NEW, es);
    PassedAreSent(NEW, es);
    if Distinct(Run(NEW, es).sent) && k < |Run(NEW, es).sent| {
      PurgesCount(Run(NEW, es).sent, Passed(NEW, es), k);
    }
  }

  // ---------------------------------------------------------------------------
  // Runs in which nobody comes in after purge() was called
  // ---------------------------------------------------------------------------

  predicate NobodyEnters(es: seq<Event>) {
    forall e :: e in es ==> !e.Enter? && !e.Begin?
  }

  lemma {:induction false} RunKeeps(r: Request, es: seq<Event>)
    requires Inv(r) && Possible(r, es)
    ensures Inv(Run(r, es)) && (r.purged ==> Run(r, es).purged)
    decreases |es|
  {
    if es != [] {
      Keeps(r, es[0]);
      RunKeeps(Apply(r, es[0]), es[1..]);
    }
  }

  lemma {:induction false} RunAppend(r: Request, a: seq<Event>, b: seq<Event>, k: nat)
    requires Possible(r, a) && Possible(Run(r, a), b)
    ensures Possible(r, a + b) && Run(r, a + b) == Run(Run(r, a), b)
    ensures Begun(r, a + b, k) == Begun(r, a, k) + Begun(Run(r, a), b, k)
    decreases |a|
  {
    if a == [] {
      assert a + b == b;
    } else {
      RunAppend(Apply(r, a[0]), a[1..], b, k);
      assert (a + b)[1..] == a[1..] + b;
    }
  }

  lemma RunFirst(r: Request, e: Event, es: seq<Event>, k: nat)
    requires Enabled(r, e) && Possible(Apply(r, e), es)
    ensures Possible(r, [e] + es) && Run(r, [e] + es) == Run(Apply(r, e), es)
    ensures Begun(r, [e] + es, k) == (if Begins(r, e, k) then 1 else 0) + Begun(Apply(r, e), es, k)
  {
    assert ([e] + es)[1..] == es;
  }

  /** purge() goes on only forwards. */
  lemma {:induction false} NotBack(r: Request, es: seq<Event>)
    requires Possible(r, es)
    ensures !r.purger.NotCalled? ==> !Run(r, es).purger.NotCalled?
    ensures r.purger.Locked? || r.purger.Returned? ==> !Run(r, es).purger.Flagged?
    decreases |es|
  {
    if es != [] {
      NotBack(Apply(r, es[0]), es[1..]);
    }
  }

  lemma {:induction false} NoneBefore(r: Request, es: seq<Event>, k: nat)
    requires Inv(r) && Possible(r, es) && Run(r, es).purger.NotCalled?
    ensures Begun(r, es, k) == 0
    decreases |es|
  {
    if es != [] {
      Keeps(r, es[0]);
      NotBack(Apply(r, es[0]), es[1..]);
      NoneBefore(Apply(r, es[0]), es[1..], k);
    }
  }

  /** Without a call of purge() getting the lock: the last user out begins a closing loop. */
  lemma {:induction false} LastOut(r: Request, es: seq<Event>, k: nat)
    requires Inv(r) && Possible(r, es) && NobodyEnters(es) && r.purged
    requires r.purger.Locked? || r.purger.Returned? || Run(r, es).purger.Flagged?
    ensures 0 <= Run(r, es).used <= r.used
    ensures r.used == 0 ==> Run(r, es).sent == r.sent
    ensures Run(r, es).used > 0 ==> Begun(r, es, k) == 0
    ensures k < |Run(r, es).sent| ==>
              Begun(r, es, k) == if r.used > 0 && Run(r, es).used == 0 then 1 else 0
    decreases |es|
  {
    if es != [] {
      var q := Apply(r, es[0]);
      assert es[0] in es;
      if r.used == 0 {
        Unused(r);
      }
      Keeps(r, es[0]);
      NotBack(q, es[1..]);
      LastOut(q, es[1..], k);
    }
  }

  /** The call of purge(): what its flag and its lock find, and what comes after, with nobody coming
      in. */
  ghost predicate Purging(a: seq<Event>, b: seq<Event>, c: seq<Event>) {
    && Possible(NEW, a) && Enabled(Run(NEW, a), Flag)
    && var r := Apply(Run(NEW, a), Flag);
    && Possible(r, b) && Enabled(Run(r, b), Lock) && NobodyEnters(b)
    && var q := Apply(Run(r, b), Lock);
    && Possible(q, c) && NobodyEnters(c)
  }

  /** When everybody is out, the purge of each upstream request has been issued once, or twice: twice
      if and only if the lock has found nobody inside, but the flag had found somebody inside or a
      closing loop that was still to pass that request. */
  lemma OnceOrTwice(a: seq<Event>, b: seq<Event>, c: seq<Event>, k: nat)
    requires Purging(a, b, c)
    requires var r := Run(NEW, a);
             var l := Run(Apply(r, Flag), b);
             var z := Run(Apply(l, Lock), c);
             z.used == 0 && z.loop.Free? && k < |z.sent|
    ensures var r, es := Run(NEW, a), a + ([Flag] + (b + ([Lock] + c)));
            var l := Run(Apply(r, Flag), b);
            && Possible(NEW, es) && Run(NEW, es) == Run(Apply(l, Lock), c)
            && Times(NEW, es, k) ==
               if l.used == 0 && (r.used > 0 || (!r.loop.Free? && r.loop.next <= k)) then 2 else 1
  {
    var r := Run(NEW, a);
    var f := Apply(r, Flag);
    var l := Run(f, b);
    var p := Apply(l, Lock);
    var z := Run(p, c);
    RunKeeps(NEW, a);
    Keeps(r, Flag);
    RunKeeps(f, b);
    Keeps(l, Lock);
    NoneBefore(NEW, a, k);
    LastOut(p, c, k);
    LastOut(f, b, k);
    RunFirst(l, Lock, c, k);
    RunAppend(f, b, [Lock] + c, k);
    RunFirst(r, Flag, b + ([Lock] + c), k);
    RunAppend(NEW, a, [Flag] + (b + ([Lock] + c)), k);
    AtMostOnce(a + ([Flag] + (b + ([Lock] + c))), k);
  }
}
