/** The queue of accepted requests: per request type a map from users to lists of requests,
    and a cursor that walks over the users. The cursor is an iterator into an ordered map; it
    must survive every insertion and erasure, and it is what makes the queue fair. */
module Prioritizer {

  import opened Wrappers

  const NREQTYPES: nat := 6

  // ---------------------------------------------------------------------------
  // Users in map order
  // ---------------------------------------------------------------------------

  type User = string

  /** The order of std::map<string, ...>. */
  predicate Less(a: User, b: User) {
    b != "" && (a == "" || a[0] < b[0] || (a[0] == b[0] && Less(a[1..], b[1..])))
  }

  lemma {:induction false} LessIrreflexive(a: User)
    ensures !Less(a, a)
  {
    if a != "" {
      LessIrreflexive(a[1..]);
    }
  }

  lemma {:induction false} LessTransitive(a: User, b: User, c: User)
    requires Less(a, b) && Less(b, c)
    ensures Less(a, c)
  {
    if a != "" && a[0] == b[0] == c[0] {
      LessTransitive(a[1..], b[1..], c[1..]);
    }
  }

  lemma {:induction false} LessTotal(a: User, b: User)
    ensures a == b || Less(a, b) || Less(b, a)
  {
    if a != "" && b != "" && a[0] == b[0] {
      LessTotal(a[1..], b[1..]);
      assert a == [a[0]] + a[1..] && b == [b[0]] + b[1..];
    }
  }

  /** The names agree before position i, and there a has the smaller character. */
  ghost predicate SmallerAt(a: User, b: User, i: nat) {
    i < |a| && i < |b| && a[..i] == b[..i] && a[i] < b[i]
  }

  /** It is the lexicographic order. */
  lemma {:induction false} LessIs(a: User, b: User)
    ensures Less(a, b) <==> (a <= b && |a| < |b|) || exists i :: SmallerAt(a, b, i)
  {
    if a != "" && b != "" && a[0] == b[0] {
      LessIs(a[1..], b[1..]);
      assert a == [a[0]] + a[1..] && b == [b[0]] + b[1..];
      SmallerBehind(a, b);
    } else if a != "" && b != "" && a[0] < b[0] {
      assert SmallerAt(a, b, 0);
    } else {
      NotSmaller(a, b);
    }
  }

  lemma NotSmaller(a: User, b: User)
    requires a == "" || b == "" || b[0] < a[0]
    ensures forall i: nat :: !SmallerAt(a, b, i)
  {
    forall i: nat ensures !SmallerAt(a, b, i) {
      if 0 < i < |a| && i < |b| {
        assert a[..i][0] == a[0] && b[..i][0] == b[0];
      }
    }
  }

  lemma SmallerBehind(a: User, b: User)
    requires a != "" && b != "" && a[0] == b[0]
    ensures (exists i :: SmallerAt(a, b, i)) <==> exists i :: SmallerAt(a[1..], b[1..], i)
  {
    forall i: nat | SmallerAt(a, b, i) ensures SmallerAt(a[1..], b[1..], i - 1) {
      assert i > 0 && a[1..][..i - 1] == a[..i][1..];
    }
    forall i: nat | SmallerAt(a[1..], b[1..], i) ensures SmallerAt(a, b, i + 1) {
      assert a[..i + 1] == [a[0]] + a[1..][..i];
      assert b[..i + 1] == [b[0]] + b[1..][..i];
    }
  }

  predicate IsFirst(keys: set<User>, u: User) {
    u in keys && forall v :: v in keys && v != u ==> Less(u, v)
  }

  lemma {:induction false} FirstExists(keys: set<User>)
    requires keys != {}
    ensures exists u :: IsFirst(keys, u)
    decreases |keys|
  {
    var u :| u in keys;
    var rest := keys - {u};
    if rest == {} {
      assert forall v :: v in keys && v != u ==> v in rest;
      assert IsFirst(keys, u);
    } else {
      FirstExists(rest);
      var v :| IsFirst(rest, v);
      LessTotal(u, v);
      if Less(u, v) {
        forall w | w in keys && w != u ensures Less(u, w) {
          if w != v { LessTransitive(u, v, w); }
        }
        assert IsFirst(keys, u);
      } else {
        assert IsFirst(keys, v);
      }
    }
  }

  lemma FirstUnique(keys: set<User>)
    ensures forall u, v :: IsFirst(keys, u) && IsFirst(keys, v) ==> u == v
  {
    forall u, v | IsFirst(keys, u) && IsFirst(keys, v) ensures u == v {
      if u != v {
        LessTransitive(u, v, u);
        LessIrreflexive(u);
      }
    }
  }

  /** map::begin(): the first user, or end(). */
  function Begin(keys: set<User>): (r: Option<User>)
    ensures keys == {} ==> r == None
    ensures keys != {} ==> r.Some? && IsFirst(keys, r.value)
  {
    if keys == {} then None
    else
      FirstExists(keys);
      FirstUnique(keys);
      var u :| IsFirst(keys, u);
      Some(u)
  }

  function After(keys: set<User>, u: User): set<User> {
    set v | v in keys && Less(u, v)
  }

  /** ++it: the next user in map order, or end(). */
  function Next(keys: set<User>, u: User): (r: Option<User>)
    ensures r.Some? ==> r.value in keys && Less(u, r.value)
    ensures forall v :: v in keys && Less(u, v) ==> r.Some? && !Less(v, r.value)
  {
    var r := Begin(After(keys, u));
    NextIsLeast(keys, u);
    r
  }

  lemma NextIsLeast(keys: set<User>, u: User)
    ensures forall v :: v in keys && Less(u, v) ==>
              var r := Begin(After(keys, u)); r.Some? && !Less(v, r.value)
  {
    forall v | v in keys && Less(u, v)
      ensures var r := Begin(After(keys, u)); r.Some? && !Less(v, r.value)
    {
      assert v in After(keys, u);
      var w := Begin(After(keys, u)).value;
      if Less(v, w) {
        LessTransitive(w, v, w);
        LessIrreflexive(w);
      }
    }
  }

  // ---------------------------------------------------------------------------
  // The queue of one request type
  // ---------------------------------------------------------------------------

  /** A request object; id stands for its identity, the other fields never change. */
  datatype Request = Request(id: nat, user: User, rtype: nat)

  /** cursor None is end(); cursor Some(u) is the iterator at user u. */
  datatype Queue = Queue(users: map<User, seq<Request>>, cursor: Option<User>)

  const EMPTY_QUEUE := Queue(map[], None)

  ghost predicate ValidQueue(q: Queue) {
    && (forall u :: u in q.users ==> q.users[u] != [] && forall r :: r in q.users[u] ==> r.user == u)
    && (q.cursor.Some? ==> q.cursor.value in q.users)
  }

  function Requests(q: Queue, u: User): seq<Request> {
    if u in q.users then q.users[u] else []
  }

  function QPut(q: Queue, r: Request): Queue {
    q.(users := q.users[r.user := Requests(q, r.user) + [r]])
  }

  /** The user that get() serves. */
  function Turn(q: Queue): (u: User)
    requires ValidQueue(q) && q.users.Keys != {}
    ensures u in q.users
  {
    if q.cursor.None? then Begin(q.users.Keys).value else q.cursor.value
  }

  /** user_requests with the list of u replaced, or erased when empty. */
  function WithList(users: map<User, seq<Request>>, u: User, rs: seq<Request>): map<User, seq<Request>> {
    if rs == [] then users - {u} else users[u := rs]
  }

  function QGet(q: Queue): Queue
    requires ValidQueue(q) && q.users.Keys != {}
  {
    var u := Turn(q);
    Queue(WithList(q.users, u, q.users[u][1..]), Next(q.users.Keys, u))
  }

  function Drop(rs: seq<Request>, r: Request): (out: seq<Request>)
    ensures r in rs ==> |out| == |rs| - 1
    ensures r !in rs ==> out == rs
    ensures forall x :: x in out ==> x in rs
  {
    if rs == [] then []
    else if rs[0] == r then rs[1..]
    else [rs[0]] + Drop(rs[1..], r)
  }

  function QRemove(q: Queue, r: Request): Queue {
    if r !in Requests(q, r.user) then q
    else
      var rs := Drop(q.users[r.user], r);
      Queue(WithList(q.users, r.user, rs),
            if rs == [] && q.cursor == Some(r.user) then Next(q.users.Keys, r.user) else q.cursor)
  }

  /** The cursor never dangles: every operation keeps the queue valid. */
  lemma QueueStaysValid(q: Queue, r: Request)
    requires ValidQueue(q)
    ensures ValidQueue(QPut(q, r)) && ValidQueue(QRemove(q, r))
    ensures q.users.Keys != {} ==> ValidQueue(QGet(q))
  {
    LessIrreflexive(r.user);
    if q.users.Keys != {} {
      LessIrreflexive(Turn(q));
    }
  }

  // ---------------------------------------------------------------------------
  // Fairness
  // ---------------------------------------------------------------------------

  /** v is between the cursor and u, walking forward and wrapping around at the end. */
  predicate Ahead(cursor: Option<User>, u: User, v: User) {
    match cursor
    case None => Less(v, u)
    case Some(c) => if Less(u, c) then !Less(v, c) || Less(v, u) else !Less(v, c) && Less(v, u)
  }

  lemma NotBoth(a: User, b: User)
    ensures !(Less(a, b) && Less(b, a))
  {
    if Less(a, b) && Less(b, a) {
      LessTransitive(a, b, a);
      LessIrreflexive(a);
    }
  }

  /** Moving the cursor from c to the next user does not jump over u. */
  lemma AdvanceShrinks(keys: set<User>, c: User, u: User, w: User)
    requires c in keys && u in keys && c != u && Ahead(Next(keys, c), u, w)
    ensures Ahead(Some(c), u, w) && w != c
  {
    var n := Next(keys, c);
    LessTotal(c, u);
    NotBoth(c, u);
    LessIrreflexive(c);
    if n.Some? {
      NotBoth(u, n.value);
      NotBoth(c, n.value);
      if Less(w, c) { LessTransitive(w, c, n.value); }
    }
    if Less(u, c) && w == c { NotBoth(u, c); }
  }

  /** Serving someone else than u uses up that user's one turn and gives no new one. */
  lemma GetShrinks(q: Queue, u: User)
    requires ValidQueue(q) && u in q.users && Turn(q) != u
    ensures u in QGet(q).users && QGet(q).users[u] == q.users[u]
    ensures Ahead(q.cursor, u, Turn(q)) && !Ahead(QGet(q).cursor, u, Turn(q))
    ensures forall w :: Ahead(QGet(q).cursor, u, w) ==> Ahead(q.cursor, u, w)
  {
    var c := Turn(q);
    LessTotal(c, u);
    NotBoth(c, u);
    LessIrreflexive(c);
    assert q.cursor.None? ==> Less(c, u);
    if Ahead(QGet(q).cursor, u, c) {
      AdvanceShrinks(q.users.Keys, c, u, c);
    }
    forall w | Ahead(QGet(q).cursor, u, w) ensures Ahead(q.cursor, u, w) {
      AdvanceShrinks(q.users.Keys, c, u, w);
    }
  }

  lemma RemoveShrinks(q: Queue, r: Request, u: User)
    requires ValidQueue(q) && u in q.users && u in QRemove(q, r).users
    ensures forall w :: Ahead(QRemove(q, r).cursor, u, w) ==> Ahead(q.cursor, u, w)
  {
    if QRemove(q, r).cursor != q.cursor {
      forall w | Ahead(QRemove(q, r).cursor, u, w) ensures Ahead(q.cursor, u, w) {
        AdvanceShrinks(q.users.Keys, r.user, u, w);
      }
    }
  }

  // ---------------------------------------------------------------------------
  // Runs of one queue
  // ---------------------------------------------------------------------------

  datatype QOp = Enq(r: Request) | Deq | Del(r: Request)

  function QStep(q: Queue, op: QOp): (q': Queue)
    requires ValidQueue(q)
    ensures ValidQueue(q')
  {
    match op
    case Enq(r) => QueueStaysValid(q, r); QPut(q, r)
    case Deq => if q.users.Keys == {} then q else QueueStaysValid(q, Request(0, "", 0)); QGet(q)
    case Del(r) => QueueStaysValid(q, r); QRemove(q, r)
  }

  function QRun(q: Queue, ops: seq<QOp>): (q': Queue)
    requires ValidQueue(q)
    ensures ValidQueue(q')
    decreases |ops|
  {
    if ops == [] then q else QRun(QStep(q, ops[0]), ops[1..])
  }

  /** The request an operation serves. */
  function Serves(q: Queue, op: QOp): (r: Option<Request>)
    requires ValidQueue(q)
    ensures r.Some? ==> op == Deq && q.users.Keys != {} && r.value.user == Turn(q)
  {
    if op == Deq && q.users.Keys != {} then Some(q.users[Turn(q)][0]) else None
  }

  /** User u stays queued during the whole run and is never served. */
  predicate Waits(q: Queue, ops: seq<QOp>, u: User)
    requires ValidQueue(q)
    decreases |ops|
  {
    && u in q.users
    && (ops == [] || (
          && (Serves(q, ops[0]).Some? ==> Serves(q, ops[0]).value.user != u)
          && Waits(QStep(q, ops[0]), ops[1..], u)))
  }

  /** How often v is served in a run. */
  function Turns(q: Queue, ops: seq<QOp>, v: User): nat
    requires ValidQueue(q)
    decreases |ops|
  {
    if ops == [] then 0
    else
      (if Serves(q, ops[0]).Some? && Serves(q, ops[0]).value.user == v then 1 else 0)
      + Turns(QStep(q, ops[0]), ops[1..], v)
  }

  /** While u waits, no step makes room for another turn of anybody. */
  lemma StepShrinks(q: Queue, op: QOp, u: User)
    requires ValidQueue(q) && u in q.users && u in QStep(q, op).users
    requires Serves(q, op).Some? ==> Serves(q, op).value.user != u
    ensures forall w :: Ahead(QStep(q, op).cursor, u, w) ==> Ahead(q.cursor, u, w)
    ensures Serves(q, op).Some? ==>
              Ahead(q.cursor, u, Serves(q, op).value.user) && !Ahead(QStep(q, op).cursor, u, Serves(q, op).value.user)
  {
    match op
    case Enq(r) =>
    case Deq => GetShrinks(q, u);
    case Del(r) => RemoveShrinks(q, r, u);
  }

  /** While u waits, whatever is put, removed and served in between, every other user is served
      at most once: once if he is ahead of u at the start, and not at all otherwise. */
  lemma {:induction false} AtMostOneTurn(q: Queue, ops: seq<QOp>, u: User, v: User)
    requires ValidQueue(q) && Waits(q, ops, u)
    ensures Turns(q, ops, v) <= if Ahead(q.cursor, u, v) then 1 else 0
    decreases |ops|
  {
    if ops != [] {
      StepShrinks(q, ops[0], u);
      AtMostOneTurn(QStep(q, ops[0]), ops[1..], u, v);
    }
  }

  function Deqs(ops: seq<QOp>): nat {
    if ops == [] then 0 else (if ops[0] == Deq then 1 else 0) + Deqs(ops[1..])
  }

  ghost predicate OnlyUsers(q: Queue, ops: seq<QOp>, all: set<User>) {
    q.users.Keys <= all && forall i :: 0 <= i < |ops| && ops[i].Enq? ==> ops[i].r.user in all
  }

  function AheadIn(all: set<User>, q: Queue, u: User): set<User> {
    set v | v in all && Ahead(q.cursor, u, v)
  }

  /** A waiting user is served after at most as many calls as there are users ahead of him. */
  lemma {:induction false} BoundedWait(q: Queue, ops: seq<QOp>, u: User, all: set<User>)
    requires ValidQueue(q) && Waits(q, ops, u) && OnlyUsers(q, ops, all)
    ensures Deqs(ops) <= |AheadIn(all, q, u)|
    decreases |ops|
  {
    if ops != [] {
      var q' := QStep(q, ops[0]);
      StepShrinks(q, ops[0], u);
      assert OnlyUsers(q', ops[1..], all);
      BoundedWait(q', ops[1..], u, all);
      var a, a' := AheadIn(all, q, u), AheadIn(all, q', u);
      assert a' <= a;
      if ops[0] == Deq {
        var v := Serves(q, ops[0]).value.user;
        assert v in a && v !in a';
        SubsetSmaller(a' + {v}, a);
        assert a' == (a' + {v}) - {v};
      } else {
        SubsetSmaller(a', a);
      }
    }
  }

  lemma {:induction false} SubsetSmaller(a: set<User>, b: set<User>)
    requires a <= b
    ensures |a| <= |b|
  {
    if a != {} {
      var x :| x in a;
      SubsetSmaller(a - {x}, b - {x});
    }
  }

  // ---------------------------------------------------------------------------
  // First in, first out; nothing lost, nothing served twice
  // ---------------------------------------------------------------------------

  ghost predicate NoDup(rs: seq<Request>) {
    forall i, j :: 0 <= i < j < |rs| ==> rs[i] != rs[j]
  }

  /** The requests of u that a run puts. */
  function Puts(ops: seq<QOp>, u: User): seq<Request> {
    if ops == [] then []
    else
      var rest := Puts(ops[1..], u);
      if ops[0].Enq? && ops[0].r.user == u then [ops[0].r] + rest else rest
  }

  /** The requests of u that a run serves, in order. */
  function Served(q: Queue, ops: seq<QOp>, u: User): seq<Request>
    requires ValidQueue(q)
    decreases |ops|
  {
    if ops == [] then []
    else
      var rest, r := Served(QStep(q, ops[0]), ops[1..], u), Serves(q, ops[0]);
      if r.Some? && r.value.user == u then [r.value] + rest else rest
  }

  /** The requests of u that a run takes out of the queue with remove. */
  function Taken(q: Queue, ops: seq<QOp>, u: User): set<Request>
    requires ValidQueue(q)
    decreases |ops|
  {
    if ops == [] then {}
    else
      var rest := Taken(QStep(q, ops[0]), ops[1..], u);
      if ops[0].Del? && ops[0].r in Requests(q, u) then {ops[0].r} + rest else rest
  }

  function Without(rs: seq<Request>, out: set<Request>): seq<Request> {
    if rs == [] then []
    else
      var rest := Without(rs[1..], out);
      if rs[0] in out then rest else [rs[0]] + rest
  }

  /** How one step changes the list of u. */
  lemma StepOfUser(q: Queue, op: QOp, u: User)
    requires ValidQueue(q)
    ensures Requests(QStep(q, op), u) ==
            if op.Enq? && op.r.user == u then Requests(q, u) + [op.r]
            else if Serves(q, op).Some? && Serves(q, op).value.user == u then Requests(q, u)[1..]
            else if op.Del? && op.r in Requests(q, u) then Drop(Requests(q, u), op.r)
            else Requests(q, u)
  {
  }

  lemma {:induction false} WithoutNothing(rs: seq<Request>)
    ensures Without(rs, {}) == rs
  {
    if rs != [] {
      WithoutNothing(rs[1..]);
    }
  }

  lemma {:induction false} WithoutUnrelated(rs: seq<Request>, out: set<Request>, r: Request)
    requires r !in rs
    ensures Without(rs, out + {r}) == Without(rs, out)
  {
    if rs != [] {
      WithoutUnrelated(rs[1..], out, r);
    }
  }

  lemma {:induction false} WithoutDropped(rs: seq<Request>, puts: seq<Request>, out: set<Request>, r: Request)
    requires r in rs && NoDup(rs + puts)
    ensures Without(Drop(rs, r) + puts, out) == Without(rs + puts, {r} + out)
    ensures NoDup(Drop(rs, r) + puts)
  {
    var all := rs + puts;
    assert all[0] == rs[0] && all[1..] == rs[1..] + puts;
    if rs[0] == r {
      assert r !in all[1..];
      WithoutUnrelated(all[1..], out, r);
      assert {r} + out == out + {r};
    } else {
      assert NoDup(all[1..]);
      WithoutDropped(rs[1..], puts, out, r);
      var less := Drop(rs, r) + puts;
      assert less[0] == rs[0] && less[1..] == Drop(rs[1..], r) + puts;
      assert less == [rs[0]] + less[1..];
      NoDupCons(rs[0], less[1..], all[1..]);
    }
  }

  lemma NoDupCons(x: Request, few: seq<Request>, many: seq<Request>)
    requires NoDup(few) && NoDup([x] + many) && forall y :: y in few ==> y in many
    ensures NoDup([x] + few)
  {
    var all := [x] + many;
    forall k | 0 <= k < |few| ensures few[k] != x {
      assert few[k] in many;
      var i :| 0 <= i < |many| && many[i] == few[k];
      assert all[0] != all[i + 1];
    }
  }

  lemma {:induction false} TakenIsKnown(q: Queue, ops: seq<QOp>, u: User)
    requires ValidQueue(q)
    ensures forall r :: r in Taken(q, ops, u) ==> r in Requests(q, u) + Puts(ops, u)
    decreases |ops|
  {
    if ops != [] {
      StepOfUser(q, ops[0], u);
      TakenIsKnown(QStep(q, ops[0]), ops[1..], u);
    }
  }

  /** Served first, then still queued: the list rs followed by puts, without the taken ones. */
  ghost predicate InOrder(served: seq<Request>, left: seq<Request>,
                          rs: seq<Request>, puts: seq<Request>, taken: set<Request>) {
    served + left == Without(rs + puts, taken)
  }

  lemma InOrderPut(served: seq<Request>, left: seq<Request>,
                   rs: seq<Request>, r: Request, puts: seq<Request>, taken: set<Request>)
    ensures InOrder(served, left, rs + [r], puts, taken) == InOrder(served, left, rs, [r] + puts, taken)
    ensures NoDup((rs + [r]) + puts) == NoDup(rs + ([r] + puts))
  {
    assert (rs + [r]) + puts == rs + ([r] + puts);
  }

  lemma InOrderServe(served: seq<Request>, left: seq<Request>,
                     rs: seq<Request>, puts: seq<Request>, taken: set<Request>)
    requires rs != [] && NoDup(rs + puts) && InOrder(served, left, rs[1..], puts, taken)
    requires forall r :: r in taken ==> r in rs[1..] + puts
    ensures InOrder([rs[0]] + served, left, rs, puts, taken)
  {
    var all := rs + puts;
    assert all[1..] == rs[1..] + puts && all[0] == rs[0];
    assert rs[0] !in taken;
    assert ([rs[0]] + served) + left == [rs[0]] + (served + left);
  }

  lemma NoDupTail(rs: seq<Request>, puts: seq<Request>)
    requires rs != [] && NoDup(rs + puts)
    ensures NoDup(rs[1..] + puts)
  {
    assert (rs + puts)[1..] == rs[1..] + puts;
  }

  /** What was queued and what was put leaves in that order: served first, then still queued;
      only what remove took out is missing. */
  lemma {:induction false} FirstInFirstOut(q: Queue, ops: seq<QOp>, u: User)
    requires ValidQueue(q) && NoDup(Requests(q, u) + Puts(ops, u))
    ensures InOrder(Served(q, ops, u), Requests(QRun(q, ops), u), Requests(q, u), Puts(ops, u), Taken(q, ops, u))
    decreases |ops|, 1
  {
    var rs := Requests(q, u);
    if ops == [] {
      WithoutNothing(rs);
      assert rs + [] == rs;
    } else {
      var q', rest := QStep(q, ops[0]), ops[1..];
      StepOfUser(q, ops[0], u);
      if ops[0].Enq? && ops[0].r.user == u {
        FifoAfterPut(q, ops, u);
      } else if Serves(q, ops[0]).Some? && Serves(q, ops[0]).value.user == u {
        FifoAfterServe(q, ops, u);
      } else if ops[0].Del? && ops[0].r in rs {
        FifoAfterRemove(q, ops, u);
      } else {
        FirstInFirstOut(q', rest, u);
        assert Puts(ops, u) == Puts(rest, u) && Served(q, ops, u) == Served(q', rest, u);
      }
    }
  }

  lemma {:induction false} FifoAfterPut(q: Queue, ops: seq<QOp>, u: User)
    requires ValidQueue(q) && NoDup(Requests(q, u) + Puts(ops, u))
    requires ops != [] && ops[0].Enq? && ops[0].r.user == u
    ensures InOrder(Served(q, ops, u), Requests(QRun(q, ops), u), Requests(q, u), Puts(ops, u), Taken(q, ops, u))
    decreases |ops|, 0
  {
    var q', rest, rs := QStep(q, ops[0]), ops[1..], Requests(q, u);
    StepOfUser(q, ops[0], u);
    var served, left, taken := Served(q', rest, u), Requests(QRun(q', rest), u), Taken(q', rest, u);
    assert Served(q, ops, u) == served && Puts(ops, u) == [ops[0].r] + Puts(rest, u);
    InOrderPut(served, left, rs, ops[0].r, Puts(rest, u), taken);
    FirstInFirstOut(q', rest, u);
  }

  lemma {:induction false} FifoAfterServe(q: Queue, ops: seq<QOp>, u: User)
    requires ValidQueue(q) && NoDup(Requests(q, u) + Puts(ops, u))
    requires ops != [] && Serves(q, ops[0]).Some? && Serves(q, ops[0]).value.user == u
    ensures InOrder(Served(q, ops, u), Requests(QRun(q, ops), u), Requests(q, u), Puts(ops, u), Taken(q, ops, u))
    decreases |ops|, 0
  {
    var q', rest, rs := QStep(q, ops[0]), ops[1..], Requests(q, u);
    StepOfUser(q, ops[0], u);
    assert Puts(ops, u) == Puts(rest, u);
    NoDupTail(rs, Puts(rest, u));
    FirstInFirstOut(q', rest, u);
    TakenIsKnown(q', rest, u);
    InOrderServe(Served(q', rest, u), Requests(QRun(q', rest), u), rs, Puts(rest, u), Taken(q', rest, u));
  }

  lemma {:induction false} FifoAfterRemove(q: Queue, ops: seq<QOp>, u: User)
    requires ValidQueue(q) && NoDup(Requests(q, u) + Puts(ops, u))
    requires ops != [] && ops[0].Del? && ops[0].r in Requests(q, u)
    ensures InOrder(Served(q, ops, u), Requests(QRun(q, ops), u), Requests(q, u), Puts(ops, u), Taken(q, ops, u))
    decreases |ops|, 0
  {
    var q', rest, rs := QStep(q, ops[0]), ops[1..], Requests(q, u);
    StepOfUser(q, ops[0], u);
    assert Puts(ops, u) == Puts(rest, u) && Served(q, ops, u) == Served(q', rest, u);
    WithoutDropped(rs, Puts(rest, u), Taken(q', rest, u), ops[0].r);
    FirstInFirstOut(q', rest, u);
  }

  // ---------------------------------------------------------------------------
  // The class
  // ---------------------------------------------------------------------------

  /** How many requests u has queued, over the given types. */
  function QueuedFor(userRequests: seq<map<User, seq<Request>>>, u: User): nat {
    if userRequests == [] then 0
    else
      var last := |userRequests| - 1;
      QueuedFor(userRequests[..last], u) + (if u in userRequests[last] then |userRequests[last][u]| else 0)
  }

  /** The requests of u in one list. */
  function InList(users: map<User, seq<Request>>, u: User): nat {
    if u in users then |users[u]| else 0
  }

  /** Every request of every type counts as one. */
  lemma QueuedForIsSum(ur: seq<map<User, seq<Request>>>, u: User)
    requires |ur| == 6
    ensures QueuedFor(ur, u) ==
            InList(ur[0], u) + InList(ur[1], u) + InList(ur[2], u)
            + InList(ur[3], u) + InList(ur[4], u) + InList(ur[5], u)
  {
    QueuedForNext(ur, 0, u);
    QueuedForNext(ur, 1, u);
    QueuedForNext(ur, 2, u);
    QueuedForNext(ur, 3, u);
    QueuedForNext(ur, 4, u);
    QueuedForNext(ur, 5, u);
    assert ur[..6] == ur;
  }

  lemma QueuedForNext(ur: seq<map<User, seq<Request>>>, n: nat, u: User)
    requires n < |ur|
    ensures QueuedFor(ur[..n + 1], u) == QueuedFor(ur[..n], u) + InList(ur[n], u)
    ensures QueuedFor(ur[..0], u) == 0
  {
    assert ur[..n + 1][..n] == ur[..n];
  }

  /** An accepted request counts from then on, for its user only. */
  lemma {:induction false} PutCountsOne(ur: seq<map<User, seq<Request>>>, r: Request, u: User)
    requires r.rtype < |ur|
    ensures var users := ur[r.rtype];
            var list := if r.user in users then users[r.user] else [];
            QueuedFor(ur[r.rtype := users[r.user := list + [r]]], u) ==
            QueuedFor(ur, u) + if u == r.user then 1 else 0
    decreases |ur|
  {
    var last, users := |ur| - 1, ur[r.rtype];
    var list := if r.user in users then users[r.user] else [];
    var ur' := ur[r.rtype := users[r.user := list + [r]]];
    if r.rtype < last {
      PutCountsOne(ur[..last], r, u);
      assert ur'[..last] == ur[..last][r.rtype := users[r.user := list + [r]]];
    } else {
      assert ur'[..last] == ur[..last];
    }
  }

  lemma {:induction false} DropAt(rs: seq<Request>, r: Request, j: nat)
    requires j < |rs| && rs[j] == r && forall i :: 0 <= i < j ==> rs[i] != r
    ensures Drop(rs, r) == rs[..j] + rs[j + 1..]
  {
    if j > 0 {
      DropAt(rs[1..], r, j - 1);
      assert rs[..j] + rs[j + 1..] == [rs[0]] + (rs[1..][..j - 1] + rs[1..][j..]);
    }
  }

  type UserLists = map<User, seq<Request>>

  ghost predicate AllOfType(users: UserLists, t: nat) {
    forall u, r :: u in users && r in users[u] ==> r.rtype == t
  }

  /** The fields of the class below hold one valid queue per request type. */
  ghost predicate AllValid(ur: seq<UserLists>, lu: seq<Option<User>>) {
    && |ur| == |lu| == NREQTYPES
    && forall t :: 0 <= t < NREQTYPES ==> ValidQueue(Queue(ur[t], lu[t])) && AllOfType(ur[t], t)
  }

  /** Only the queue of type t changed, and by op. */
  ghost predicate Changed(ur: seq<UserLists>, lu: seq<Option<User>>,
                          ur': seq<UserLists>, lu': seq<Option<User>>, t: nat, op: QOp)
    requires AllValid(ur, lu) && t < NREQTYPES
  {
    && AllValid(ur', lu')
    && Queue(ur'[t], lu'[t]) == QStep(Queue(ur[t], lu[t]), op)
    && forall i :: 0 <= i < NREQTYPES && i != t ==> ur'[i] == ur[i] && lu'[i] == lu[i]
  }

  lemma StepKeepsType(q: Queue, op: QOp, t: nat)
    requires ValidQueue(q) && AllOfType(q.users, t) && (op.Enq? ==> op.r.rtype == t)
    ensures AllOfType(QStep(q, op).users, t)
  {
    var q' := QStep(q, op);
    forall u, r | u in q'.users && r in q'.users[u] ensures r.rtype == t {
      StepOfUser(q, op, u);
      assert u in q.users ==> forall x :: x in Requests(q, u)[1..] ==> x in q.users[u];
    }
  }

  lemma UpdateChanges(ur: seq<UserLists>, lu: seq<Option<User>>, t: nat, op: QOp)
    requires AllValid(ur, lu) && t < NREQTYPES && (op.Enq? ==> op.r.rtype == t)
    ensures var q' := QStep(Queue(ur[t], lu[t]), op);
            Changed(ur, lu, ur[t := q'.users], lu[t := q'.cursor], t, op)
  {
    StepKeepsType(Queue(ur[t], lu[t]), op, t);
  }

  class RequestPrioritizer {
    var maxReqPerUser: nat
    var userRequests: seq<UserLists>
    var lastUser: seq<Option<User>>

    ghost predicate Valid()
      reads this
    {
      AllValid(userRequests, lastUser)
    }

    constructor ()
      ensures Valid() && maxReqPerUser == 0
      ensures forall t :: 0 <= t < NREQTYPES ==> Queue(userRequests[t], lastUser[t]) == EMPTY_QUEUE
    {
      maxReqPerUser := 0;
      userRequests := seq(NREQTYPES, _ => map[]);
      lastUser := seq(NREQTYPES, _ => None);
    }

    method SetMaxReqPerUser(n: nat)
      requires Valid()
      modifies `maxReqPerUser
      ensures Valid() && maxReqPerUser == n
    {
      maxReqPerUser := n;
    }

    /** The number of requests that u has queued, of all types together. */
    method CountUser(u: User) returns (nreq: nat)
      requires Valid()
      ensures nreq == QueuedFor(userRequests, u)
    {
      nreq := 0;
      var i := 0;
      while i < NREQTYPES
        invariant i <= NREQTYPES && nreq == QueuedFor(userRequests[..i], u)
      {
        assert userRequests[..i + 1][..i] == userRequests[..i];
        if u in userRequests[i] {
          nreq := nreq + |userRequests[i][u]|;
        }
        i := i + 1;
      }
      assert userRequests[..NREQTYPES] == userRequests;
    }

    /** accepted is false where the code throws: the user has too many requests of all types. */
    method Put(req: Request) returns (accepted: bool)
      requires Valid() && req.rtype < NREQTYPES
      modifies `userRequests
      ensures Valid()
      ensures accepted <==> maxReqPerUser == 0 || QueuedFor(old(userRequests), req.user) < maxReqPerUser
      ensures !accepted ==> userRequests == old(userRequests)
      ensures accepted ==> Changed(old(userRequests), old(lastUser), userRequests, lastUser, req.rtype, Enq(req))
      ensures forall u :: QueuedFor(userRequests, u) ==
                          QueuedFor(old(userRequests), u) + if accepted && u == req.user then 1 else 0
    {
      var nreq := CountUser(req.user);
      if maxReqPerUser != 0 && nreq >= maxReqPerUser {
        return false;
      }
      var t := req.rtype;
      UpdateChanges(userRequests, lastUser, t, Enq(req));
      var m := userRequests[t];
      if req.user in m {
        m := m[req.user := m[req.user] + [req]];
      } else {
        var reqlist := [];
        reqlist := reqlist + [req];
        m := m[req.user := reqlist];
      }
      assert m == QPut(Queue(userRequests[t], lastUser[t]), req).users;
      forall u {
        PutCountsOne(userRequests, req, u);
      }
      userRequests := userRequests[t := m];
      assert lastUser == lastUser[t := lastUser[t]];
      return true;
    }

    method Get(rtype: nat) returns (req: Option<Request>)
      requires Valid() && rtype < NREQTYPES
      modifies `userRequests, `lastUser
      ensures Valid()
      ensures req == Serves(Queue(old(userRequests)[rtype], old(lastUser)[rtype]), Deq)
      ensures req.Some? ==> req.value.rtype == rtype
      ensures Changed(old(userRequests), old(lastUser), userRequests, lastUser, rtype, Deq)
    {
      var m := userRequests[rtype];
      ghost var q := Queue(m, lastUser[rtype]);
      UpdateChanges(userRequests, lastUser, rtype, Deq);
      if m.Keys == {} {
        assert userRequests[rtype := m] == userRequests && lastUser[rtype := lastUser[rtype]] == lastUser;
        return None;
      }
      var cursor := lastUser[rtype];
      if cursor == None {
        cursor := Begin(m.Keys);
      }
      var p := cursor.value;
      assert p == Turn(q) && m[p] != [];
      req := Some(m[p][0]);
      lastUser := lastUser[rtype := Next(m.Keys, p)];
      var rest := m[p][1..];
      m := if rest == [] then m - {p} else m[p := rest];
      assert Queue(m, lastUser[rtype]) == QGet(q);
      userRequests := userRequests[rtype := m];
    }

    method Remove(req: Request) returns (found: bool)
      requires Valid() && req.rtype < NREQTYPES
      modifies `userRequests, `lastUser
      ensures Valid()
      ensures found <==> req in Requests(Queue(old(userRequests)[req.rtype], old(lastUser)[req.rtype]), req.user)
      ensures !found ==> userRequests == old(userRequests) && lastUser == old(lastUser)
      ensures found ==> Changed(old(userRequests), old(lastUser), userRequests, lastUser, req.rtype, Del(req))
    {
      var i := 0;
      while i < NREQTYPES
        invariant i <= NREQTYPES && userRequests == old(userRequests) && lastUser == old(lastUser)
        invariant forall t :: 0 <= t < i ==> req !in Requests(Queue(userRequests[t], lastUser[t]), req.user)
      {
        if req.user in userRequests[i] {
          var rs := userRequests[i][req.user];
          var j := 0;
          while j < |rs| && rs[j] != req
            invariant j <= |rs| && forall k :: 0 <= k < j ==> rs[k] != req
          {
            j := j + 1;
          }
          if j < |rs| {
            assert rs[j] in userRequests[i][req.user];
            Erase(req, j);
            return true;
          }
        }
        i := i + 1;
      }
      return false;
    }

    /** Erase the j-th request of the user's list, and the list when it becomes empty. */
    method Erase(req: Request, j: nat)
      requires Valid() && req.rtype < NREQTYPES && req.user in userRequests[req.rtype]
      requires j < |userRequests[req.rtype][req.user]| && userRequests[req.rtype][req.user][j] == req
      requires forall k :: 0 <= k < j ==> userRequests[req.rtype][req.user][k] != req
      modifies `userRequests, `lastUser
      ensures Changed(old(userRequests), old(lastUser), userRequests, lastUser, req.rtype, Del(req))
    {
      var t, m := req.rtype, userRequests[req.rtype];
      ghost var q := Queue(m, lastUser[t]);
      UpdateChanges(userRequests, lastUser, t, Del(req));
      DropAt(m[req.user], req, j);
      var rs := m[req.user][..j] + m[req.user][j + 1..];
      var cursor := lastUser[t];
      if rs == [] {
        if cursor == Some(req.user) {
          cursor := Next(m.Keys, req.user);
        }
        m := m - {req.user};
      } else {
        m := m[req.user := rs];
      }
      assert Queue(m, cursor) == QRemove(q, req);
      userRequests, lastUser := userRequests[t := m], lastUser[t := cursor];
    }
  }
}
