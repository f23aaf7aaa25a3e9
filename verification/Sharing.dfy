/** Pointers with a shared reference count: handles, counters and objects are numbered, and memory
    is the set of live handles together with the counters they share. */
module Sharing {

  /** What a pointer may point to; NoObject is a NULL pointer that was given a counter. */
  datatype Obj = NoObject | Object(id: nat)

  /** An empty handle, or a handle with the counter it shares and the object it points to. */
  datatype Handle = Empty | Ptr(cell: nat, obj: Obj)

  type Handles = map<nat, Handle>

  function Holders(hs: Handles, cell: nat): set<nat> {
    set h | h in hs && hs[h].Ptr? && hs[h].cell == cell
  }

  /** Adding the handle h. */
  lemma HoldersAdd(hs: Handles, h: nat, p: Handle, cell: nat)
    requires h !in hs
    ensures |Holders(hs[h := p], cell)| == |Holders(hs, cell)| + if p.Ptr? && p.cell == cell then 1 else 0
  {
    if p.Ptr? && p.cell == cell {
      assert Holders(hs[h := p], cell) == Holders(hs, cell) + {h};
    } else {
      assert Holders(hs[h := p], cell) == Holders(hs, cell);
    }
  }

  /** Removing the handle h. */
  lemma HoldersRemove(hs: Handles, h: nat, cell: nat)
    requires h in hs
    ensures |Holders(hs, cell)| == |Holders(hs - {h}, cell)| + if hs[h].Ptr? && hs[h].cell == cell then 1 else 0
  {
    if hs[h].Ptr? && hs[h].cell == cell {
      assert Holders(hs, cell) == Holders(hs - {h}, cell) + {h};
    } else {
      assert Holders(hs, cell) == Holders(hs - {h}, cell);
    }
  }

  /** Every counter is allocated exactly while handles share it, and counts them. */
  ghost predicate Counted(hs: Handles, counts: map<nat, int>) {
    && (forall h :: h in hs && hs[h].Ptr? ==> hs[h].cell in counts)
    && (forall c :: c in counts ==> counts[c] == |Holders(hs, c)| > 0)
  }

  /** Handles with the same counter point to the object the counter was made for; different
      counters were made for different objects. */
  ghost predicate Owned(hs: Handles, owner: map<nat, Obj>) {
    && (forall h :: h in hs && hs[h].Ptr? ==> hs[h].cell in owner && owner[hs[h].cell] == hs[h].obj)
    && (forall c, d :: c in owner && d in owner && owner[c].Object? && owner[c] == owner[d] ==> c == d)
  }

  /** An object was deleted once if its counter is gone, and not at all otherwise. */
  ghost predicate DeletedOnce(counts: map<nat, int>, owner: map<nat, Obj>, deleted: multiset<nat>) {
    && counts.Keys <= owner.Keys
    && (forall c :: c in owner && owner[c].Object? ==> deleted[owner[c].id] == if c in counts then 0 else 1)
    && (forall id :: id in deleted ==> Object(id) in owner.Values)
  }

  ghost predicate Inv(hs: Handles, counts: map<nat, int>, owner: map<nat, Obj>, deleted: multiset<nat>) {
    Counted(hs, counts) && Owned(hs, owner) && DeletedOnce(counts, owner, deleted)
  }

  // The counter of a handle, after one more or one less shares it

  function Up(counts: map<nat, int>, p: Handle): map<nat, int> {
    if p.Ptr? && p.cell in counts then counts[p.cell := counts[p.cell] + 1] else counts
  }

  function Down(counts: map<nat, int>, p: Handle): map<nat, int> {
    if p.Empty? || p.cell !in counts then counts
    else if counts[p.cell] == 1 then counts - {p.cell}
    else counts[p.cell := counts[p.cell] - 1]
  }

  function Dead(counts: map<nat, int>, p: Handle): multiset<nat> {
    if p.Ptr? && p.obj.Object? && p.cell in counts && counts[p.cell] == 1 then multiset{p.obj.id} else multiset{}
  }

  lemma NewKeepsCounts(hs: Handles, counts: map<nat, int>, h: nat, cell: nat, obj: Obj)
    requires Counted(hs, counts) && h !in hs && cell !in counts
    ensures Counted(hs[h := Ptr(cell, obj)], counts[cell := 1])
  {
    assert Holders(hs, cell) == {};
    forall c | c in counts || c == cell
      ensures |Holders(hs[h := Ptr(cell, obj)], c)| == if c == cell then 1 else counts[c]
    {
      HoldersAdd(hs, h, Ptr(cell, obj), c);
    }
  }

  lemma NewKeeps(hs: Handles, counts: map<nat, int>, owner: map<nat, Obj>, deleted: multiset<nat>, h: nat, cell: nat,
                 obj: Obj)
    requires Inv(hs, counts, owner, deleted) && h !in hs && cell !in owner
    requires obj.Object? ==> obj !in owner.Values
    ensures Inv(hs[h := Ptr(cell, obj)], counts[cell := 1], owner[cell := obj], deleted)
  {
    NewKeepsCounts(hs, counts, h, cell, obj);
    NewKeepsDeleted(counts, owner, deleted, cell, obj);
    forall c | c in owner ensures owner[c] in owner.Values {
    }
  }

  lemma ValuesGrow(owner: map<nat, Obj>, cell: nat, obj: Obj)
    requires cell !in owner
    ensures owner[cell := obj].Values == owner.Values + {obj}
  {
    forall o | o in owner.Values + {obj} ensures o in owner[cell := obj].Values {
      if o != obj {
        var c :| c in owner && owner[c] == o;
        assert owner[cell := obj][c] == o;
      } else {
        assert owner[cell := obj][cell] == o;
      }
    }
  }

  lemma NewKeepsDeleted(counts: map<nat, int>, owner: map<nat, Obj>, deleted: multiset<nat>, cell: nat, obj: Obj)
    requires DeletedOnce(counts, owner, deleted) && cell !in owner && (obj.Object? ==> obj !in owner.Values)
    ensures DeletedOnce(counts[cell := 1], owner[cell := obj], deleted)
  {
    var owner' := owner[cell := obj];
    assert forall c :: c in owner ==> owner'[c] == owner[c] && owner[c] in owner.Values;
    forall o | o in owner.Values ensures o in owner'.Values {
      var c :| c in owner && owner[c] == o;
      assert owner'[c] == o;
    }
    assert obj.Object? ==> obj.id !in deleted;
  }

  lemma CopyKeeps(hs: Handles, counts: map<nat, int>, owner: map<nat, Obj>, deleted: multiset<nat>, h: nat, from: nat)
    requires Inv(hs, counts, owner, deleted) && h !in hs && from in hs
    ensures Inv(hs[h := hs[from]], Up(counts, hs[from]), owner, deleted)
  {
    var p := hs[from];
    forall c | c in counts ensures |Holders(hs[h := p], c)| == Up(counts, p)[c] {
      HoldersAdd(hs, h, p, c);
    }
    assert Up(counts, p).Keys == counts.Keys;
  }

  lemma EmptyKeeps(hs: Handles, counts: map<nat, int>, owner: map<nat, Obj>, deleted: multiset<nat>, h: nat)
    requires Inv(hs, counts, owner, deleted) && h !in hs
    ensures Inv(hs[h := Empty], counts, owner, deleted)
  {
    forall c | c in counts ensures |Holders(hs[h := Empty], c)| == counts[c] {
      HoldersAdd(hs, h, Empty, c);
    }
  }

  lemma DestroyKeepsCounts(hs: Handles, counts: map<nat, int>, h: nat)
    requires Counted(hs, counts) && h in hs
    ensures Counted(hs - {h}, Down(counts, hs[h]))
    ensures hs[h].Ptr? ==> (counts[hs[h].cell] == 1 <==> Holders(hs, hs[h].cell) == {h})
  {
    var p := hs[h];
    forall c | c in counts
      ensures |Holders(hs - {h}, c)| == counts[c] - if p.Ptr? && p.cell == c then 1 else 0
    {
      HoldersRemove(hs, h, c);
    }
    if p.Ptr? {
      Lone(hs, h, p.cell);
      if counts[p.cell] == 1 {
        forall i | i in hs - {h} && (hs - {h})[i].Ptr? ensures hs[i].cell != p.cell {
          assert i != h && i in Holders(hs, hs[i].cell);
        }
      }
    }
  }

  lemma DestroyKeepsDeleted(counts: map<nat, int>, owner: map<nat, Obj>, deleted: multiset<nat>, p: Handle)
    requires DeletedOnce(counts, owner, deleted)
    requires p.Ptr? ==> p.cell in counts && p.cell in owner && owner[p.cell] == p.obj
    requires forall c, d :: c in owner && d in owner && owner[c].Object? && owner[c] == owner[d] ==> c == d
    ensures DeletedOnce(Down(counts, p), owner, deleted + Dead(counts, p))
  {
    if p.Ptr? {
      assert p.obj in owner.Values;
    }
  }

  lemma DestroyKeeps(hs: Handles, counts: map<nat, int>, owner: map<nat, Obj>, deleted: multiset<nat>, h: nat)
    requires Inv(hs, counts, owner, deleted) && h in hs
    ensures Inv(hs - {h}, Down(counts, hs[h]), owner, deleted + Dead(counts, hs[h]))
  {
    DestroyKeepsCounts(hs, counts, h);
    DestroyKeepsDeleted(counts, owner, deleted, hs[h]);
  }

  lemma Lone(hs: Handles, h: nat, cell: nat)
    requires h in hs && hs[h].Ptr? && hs[h].cell == cell
    ensures Holders(hs, cell) == {h} <==> |Holders(hs, cell)| == 1
  {
    assert h in Holders(hs, cell);
    var rest := Holders(hs, cell) - {h};
    assert Holders(hs, cell) == rest + {h};
  }

  // ---------------------------------------------------------------------------
  // Runs
  // ---------------------------------------------------------------------------

  /** The handles of a program, the counters, what each was made for, and what was deleted. */
  datatype Mem = Mem(handles: Handles, counts: map<nat, int>, owner: map<nat, Obj>, deleted: multiset<nat>, next: nat)

  datatype Op =
    | FromRaw(h: nat, obj: Obj)
    | Copy(h: nat, from: nat)
    | Cast(h: nat, from: nat, hasType: bool)
    | Assign(h: nat, from: nat)
    | Destroy(h: nat)

  /** The handle to write is new, or an old one where the operation needs it; a raw pointer has not
      been given a counter before. */
  predicate Proper(m: Mem, op: Op) {
    match op
    case FromRaw(h, obj) => h !in m.handles && (obj.Object? ==> obj !in m.owner.Values)
    case Copy(h, from) => h !in m.handles && from in m.handles
    case Cast(h, from, _) => h !in m.handles && from in m.handles
    case Assign(h, from) => h in m.handles && from in m.handles
    case Destroy(h) => h in m.handles
  }

  function Created(m: Mem, h: nat, obj: Obj): Mem {
    Mem(m.handles[h := Ptr(m.next, obj)], m.counts[m.next := 1], m.owner[m.next := obj], m.deleted, m.next + 1)
  }

  function Copied(m: Mem, h: nat, p: Handle): Mem {
    m.(handles := m.handles[h := p], counts := Up(m.counts, p))
  }

  function Destroyed(m: Mem, h: nat): Mem
    requires h in m.handles
  {
    m.(handles := m.handles - {h}, counts := Down(m.counts, m.handles[h]),
       deleted := m.deleted + Dead(m.counts, m.handles[h]))
  }

  /** What a cast handle gets. */
  function Fitting(p: Handle, hasType: bool): Handle {
    if hasType && p.Ptr? && p.obj.Object? then p else Empty
  }

  /** One operation; improper ones are skipped. */
  function Step(m: Mem, op: Op): Mem {
    if !Proper(m, op) then m
    else
      match op
      case FromRaw(h, obj) => Created(m, h, obj)
      case Copy(h, from) => Copied(m, h, m.handles[from])
      case Cast(h, from, hasType) => Copied(m, h, Fitting(m.handles[from], hasType))
      case Assign(h, from) => if h == from then m else Copied(Destroyed(m, h), h, m.handles[from])
      case Destroy(h) => Destroyed(m, h)
  }

  function Run(ops: seq<Op>): Mem {
    if ops == [] then Mem(map[], map[], map[], multiset{}, 0)
    else Step(Run(ops[..|ops| - 1]), ops[|ops| - 1])
  }

  ghost predicate Sound(m: Mem) {
    Inv(m.handles, m.counts, m.owner, m.deleted) && forall c :: c in m.owner ==> c < m.next
  }

  lemma CreatedKeeps(m: Mem, h: nat, obj: Obj)
    requires Sound(m) && Proper(m, FromRaw(h, obj))
    ensures Sound(Created(m, h, obj))
  {
    NewKeeps(m.handles, m.counts, m.owner, m.deleted, h, m.next, obj);
  }

  lemma CopiedKeeps(m: Mem, h: nat, p: Handle)
    requires Sound(m) && h !in m.handles && (p == Empty || exists from :: from in m.handles && m.handles[from] == p)
    ensures Sound(Copied(m, h, p))
  {
    if p == Empty {
      EmptyKeeps(m.handles, m.counts, m.owner, m.deleted, h);
    } else {
      var from :| from in m.handles && m.handles[from] == p;
      CopyKeeps(m.handles, m.counts, m.owner, m.deleted, h, from);
    }
  }

  lemma DestroyedKeeps(m: Mem, h: nat)
    requires Sound(m) && h in m.handles
    ensures Sound(Destroyed(m, h))
  {
    DestroyKeeps(m.handles, m.counts, m.owner, m.deleted, h);
  }

  lemma DeadIfLast(m: Mem, h: nat)
    requires Sound(m) && h in m.handles
    ensures var p := m.handles[h];
            && (p.Ptr? ==> p.cell in m.counts)
            && Dead(m.counts, p) ==
               if p.Ptr? && p.obj.Object? && Holders(m.handles, p.cell) == {h} then multiset{p.obj.id} else multiset{}
  {
    DestroyKeepsCounts(m.handles, m.counts, h);
  }

  lemma StepKeeps(m: Mem, op: Op)
    requires Sound(m)
    ensures Sound(Step(m, op))
  {
    if Proper(m, op) {
      match op
      case FromRaw(h, obj) => CreatedKeeps(m, h, obj);
      case Copy(h, from) => CopiedKeeps(m, h, m.handles[from]);
      case Cast(h, from, hasType) => CopiedKeeps(m, h, Fitting(m.handles[from], hasType));
      case Assign(h, from) =>
        if h != from {
          DestroyedKeeps(m, h);
          assert Destroyed(m, h).handles[from] == m.handles[from];
          CopiedKeeps(Destroyed(m, h), h, m.handles[from]);
        }
      case Destroy(h) => DestroyedKeeps(m, h);
    }
  }

  lemma {:induction false} RunSound(ops: seq<Op>)
    ensures Sound(Run(ops))
  {
    if ops != [] {
      RunSound(ops[..|ops| - 1]);
      StepKeeps(Run(ops[..|ops| - 1]), ops[|ops| - 1]);
    }
  }

  lemma CountedIfHeld(m: Mem, c: nat)
    requires Sound(m) && c in m.owner
    ensures c in m.counts <==> Holders(m.handles, c) != {}
  {
    if h :| h in Holders(m.handles, c) {
      assert m.handles[h].cell in m.counts;
    }
  }

  /** After any operations: a counter exists exactly while handles share it and is the number of
      these; each handle points to what its counter was made for, which has not been deleted; and an
      object without a handle has been deleted once. */
  lemma EveryRun(ops: seq<Op>)
    ensures var m := Run(ops);
            && (forall c :: c in m.owner ==> (c in m.counts <==> Holders(m.handles, c) != {}))
            && (forall c :: c in m.counts ==> m.counts[c] == |Holders(m.handles, c)|)
            && (forall h :: h in m.handles && m.handles[h].Ptr? ==>
                  && m.handles[h].cell in m.owner && m.owner[m.handles[h].cell] == m.handles[h].obj
                  && (m.handles[h].obj.Object? ==> m.deleted[m.handles[h].obj.id] == 0))
            && (forall c :: c in m.owner && m.owner[c].Object? ==>
                  m.deleted[m.owner[c].id] == if Holders(m.handles, c) == {} then 1 else 0)
  {
    var m := Run(ops);
    RunSound(ops);
    forall c | c in m.owner ensures c in m.counts <==> Holders(m.handles, c) != {} {
      CountedIfHeld(m, c);
    }
  }

  lemma StepGrows(m: Mem, op: Op)
    requires Sound(m)
    ensures m.deleted <= Step(m, op).deleted
    ensures forall c :: c in m.owner ==> c in Step(m, op).owner && Step(m, op).owner[c] == m.owner[c]
  {
  }

  lemma DeletedIfNotHeld(m: Mem, c: nat)
    requires Sound(m) && c in m.owner && m.owner[c].Object?
    ensures m.deleted[m.owner[c].id] == if Holders(m.handles, c) == {} then 1 else 0
  {
    CountedIfHeld(m, c);
  }

  lemma StepDeletes(m: Mem, op: Op, c: nat)
    requires Sound(m) && c in m.owner && m.owner[c].Object?
    ensures var w, id := Step(m, op), m.owner[c].id;
            w.deleted[id] == m.deleted[id]
                             + if Holders(m.handles, c) != {} && Holders(w.handles, c) == {} then 1 else 0
  {
    StepGrows(m, op);
    StepKeeps(m, op);
    DeletedIfNotHeld(m, c);
    DeletedIfNotHeld(Step(m, op), c);
  }

  /** An object is deleted by the operation that takes its last handle away, and by no other. */
  lemma DeletedByTheLast(ops: seq<Op>, op: Op, c: nat)
    requires c in Run(ops).owner && Run(ops).owner[c].Object?
    ensures var m, w, id := Run(ops), Run(ops + [op]), Run(ops).owner[c].id;
            w.deleted[id] == m.deleted[id]
                             + if Holders(m.handles, c) != {} && Holders(w.handles, c) == {} then 1 else 0
  {
    assert (ops + [op])[..|ops|] == ops;
    RunSound(ops);
    StepDeletes(Run(ops), op, c);
  }

  /** The handles of a program and the memory behind them; owner and deleted are logs. */
  class Memory {
    var handles: Handles
    var counts: map<nat, int>
    ghost var owner: map<nat, Obj>
    ghost var deleted: multiset<nat>
    var nextCell: nat

    ghost function View(): Mem
      reads this
    {
      Mem(handles, counts, owner, deleted, nextCell)
    }

    ghost predicate Valid()
      reads this
    {
      Sound(View())
    }

    constructor ()
      ensures Valid() && View() == Run([])
    {
      handles, counts, owner, deleted, nextCell := map[], map[], map[], multiset{}, 0;
    }

    /** rc_ptr(T *), given a raw pointer that has no counter yet. */
    method FromRaw(h: nat, obj: Obj)
      requires Valid() && h !in handles && (obj.Object? ==> obj !in owner.Values)
      modifies this
      ensures Valid() && View() == Created(old(View()), h, obj)
    {
      CreatedKeeps(View(), h, obj);
      counts := counts[nextCell := 1];
      owner := owner[nextCell := obj];
      handles := handles[h := Ptr(nextCell, obj)];
      nextCell := nextCell + 1;
    }

    /** The copy constructors. */
    method Copy(h: nat, from: nat)
      requires Valid() && h !in handles && from in handles
      modifies `handles, `counts
      ensures Valid() && View() == Copied(old(View()), h, old(handles)[from])
    {
      CopiedKeeps(View(), h, handles[from]);
      var p := handles[from];
      Retain(p);
      handles := handles[h := p];
    }

    /** rc_ptr_cast(): an empty handle unless the object has the wanted type. */
    method Cast(h: nat, from: nat, hasType: bool)
      requires Valid() && h !in handles && from in handles
      modifies `handles, `counts
      ensures Valid() && View() == Copied(old(View()), h, Fitting(old(handles)[from], hasType))
      ensures var p := old(handles)[from];
              handles == old(handles)[h := if hasType && p.Ptr? && p.obj.Object? then p else Empty]
    {
      var p := handles[from];
      CopiedKeeps(View(), h, Fitting(p, hasType));
      if hasType && p.Ptr? && p.obj.Object? {
        Retain(p);
        handles := handles[h := p];
      } else {
        handles := handles[h := Empty];
      }
    }

    /** The destructor: the last handle deletes the counter and the object. */
    method Destroy(h: nat)
      requires Valid() && h in handles
      modifies `handles, `counts, `deleted
      ensures Valid() && View() == Destroyed(old(View()), h)
      ensures var p := old(handles)[h];
              deleted ==
              if p.Ptr? && p.obj.Object? && Holders(old(handles), p.cell) == {h} then old(deleted) + multiset{p.obj.id}
              else old(deleted)
    {
      ghost var m := View();
      DestroyedKeeps(m, h);
      DeadIfLast(m, h);
      var p := handles[h];
      deleted := deleted + Dead(counts, p);
      Release(p);
      handles := handles - {h};
      assert View() == Destroyed(m, h);
    }

    /** One handle less shares the counter. */
    method Release(p: Handle)
      requires p.Ptr? ==> p.cell in counts
      modifies `counts
      ensures counts == Down(old(counts), p)
    {
      if p.Ptr? {
        if counts[p.cell] - 1 == 0 {
          counts := counts - {p.cell};
        } else {
          counts := counts[p.cell := counts[p.cell] - 1];
        }
      }
    }

    /** One handle more shares the counter. */
    method Retain(p: Handle)
      requires p.Ptr? ==> p.cell in counts
      modifies `counts
      ensures counts == Up(old(counts), p)
    {
      if p.Ptr? {
        counts := counts[p.cell := counts[p.cell] + 1];
      }
    }

    /** operator=: nothing on self-assignment, else the destructor and the copy constructor. */
    method Assign(h: nat, from: nat)
      requires Valid() && h in handles && from in handles
      modifies `handles, `counts, `deleted
      ensures Valid() && View() == Step(old(View()), Op.Assign(h, from))
      ensures handles == old(handles)[h := old(handles)[from]]
    {
      ghost var m := View();
      if h != from {
        Destroy(h);
        Copy(h, from);
        assert handles == m.handles[h := m.handles[from]];
      } else {
        assert handles[h := handles[from]] == handles;
      }
    }

    /** One operation; seen are the objects that have a counter or had one. */
    method Do(op: Op, seen: set<Obj>) returns (seen': set<Obj>)
      requires Valid() && forall o: Obj :: o.Object? ==> (o in seen <==> o in owner.Values)
      modifies this
      ensures Valid() && View() == Step(old(View()), op)
      ensures forall o: Obj :: o.Object? ==> (o in seen' <==> o in owner.Values)
    {
      seen' := seen;
      match op
      case FromRaw(h, obj) =>
        if h !in handles && (obj.NoObject? || obj !in seen) {
          ValuesGrow(owner, nextCell, obj);
          FromRaw(h, obj);
          seen' := seen + {obj};
        }
      case Copy(h, from) => if h !in handles && from in handles { Copy(h, from); }
      case Cast(h, from, hasType) => if h !in handles && from in handles { Cast(h, from, hasType); }
      case Assign(h, from) => if h in handles && from in handles { Assign(h, from); }
      case Destroy(h) => if h in handles { Destroy(h); }
    }
  }

  /** The class runs as Run says, which EveryRun and DeletedByTheLast are about. */
  method RunAll(ops: seq<Op>) returns (m: Memory)
    ensures fresh(m) && m.Valid() && m.View() == Run(ops)
  {
    m := new Memory();
    var seen: set<Obj> := {};
    assert ops[..0] == [];
    for i := 0 to |ops|
      invariant m.Valid() && fresh(m) && m.View() == Run(ops[..i])
      invariant forall o: Obj :: o.Object? ==> (o in seen <==> o in m.owner.Values)
    {
      assert ops[..i + 1][..i] == ops[..i];
      seen := m.Do(ops[i], seen);
    }
    assert ops[..|ops|] == ops;
  }
}
