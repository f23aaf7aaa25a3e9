/** Rebuilding the local station groups from those of another node. The two inventories may give
    different public ids to the same station, and the same public id to different stations;
    stations are identified by network code, network start, station code and station start. */
module StationGroups {

  import opened Wrappers

  type Sid = string

  datatype Key = Key(net: string, netStart: int, sta: string, staStart: int)
  datatype Station = Station(publicID: Sid, key: Key)

  type KeyMap = map<Sid, Key>

  ghost predicate Injective(m: KeyMap) {
    forall a, b :: a in m && b in m && m[a] == m[b] ==> a == b
  }

  /** Stations of one inventory have different keys: they sit in nested dictionaries. */
  ghost predicate DistinctKeys(inv: seq<Station>) {
    forall i, j :: 0 <= i < j < |inv| ==> inv[i].key != inv[j].key
  }

  /** From public ids to keys: of stations with the same public id the last one counts. */
  function KeyMapOf(inv: seq<Station>): KeyMap {
    if inv == [] then map[]
    else KeyMapOf(inv[..|inv| - 1])[inv[|inv| - 1].publicID := inv[|inv| - 1].key]
  }

  lemma {:induction false} KeyMapEntries(inv: seq<Station>)
    ensures forall id :: id in KeyMapOf(inv) ==> Station(id, KeyMapOf(inv)[id]) in inv
    ensures forall s :: s in inv ==> s.publicID in KeyMapOf(inv)
  {
    if inv != [] {
      var n := |inv| - 1;
      KeyMapEntries(inv[..n]);
      assert inv == inv[..n] + [inv[n]];
    }
  }

  /** Whatever public ids are shared, no two ids get the same key. */
  lemma KeyMapInjective(inv: seq<Station>)
    requires DistinctKeys(inv)
    ensures Injective(KeyMapOf(inv))
  {
    var m := KeyMapOf(inv);
    KeyMapEntries(inv);
    forall a, b | a in m && b in m && m[a] == m[b] ensures a == b {
      assert Station(a, m[a]) in inv && Station(b, m[b]) in inv;
      var j :| 0 <= j < |inv| && inv[j] == Station(a, m[a]);
      var k :| 0 <= k < |inv| && inv[k] == Station(b, m[b]);
      assert inv[j].key == inv[k].key;
    }
  }

  /** prepareMap(). */
  method PrepareMap(inv: seq<Station>) returns (m: KeyMap)
    requires DistinctKeys(inv)
    ensures m == KeyMapOf(inv) && Injective(m)
  {
    m := map[];
    var i := 0;
    while i < |inv|
      invariant i <= |inv|
      invariant m == KeyMapOf(inv[..i])
    {
      assert inv[..i + 1][..i] == inv[..i];
      m := m[inv[i].publicID := inv[i].key];
      i := i + 1;
    }
    assert inv[..i] == inv;
    KeyMapInjective(inv);
  }

  /** The public id of the station with this key. */
  function LocalId(m: KeyMap, key: Key): (r: Option<Sid>)
    requires Injective(m)
    ensures r.Some? ==> r.value in m && m[r.value] == key
    ensures r.None? ==> key !in m.Values
  {
    if key in m.Values then
      var id :| id in m && m[id] == key;
      Some(id)
    else None
  }

  /** findSID(): the loop over the items, which may come in any order. */
  method FindSID(m: KeyMap, content: Key) returns (r: Option<Sid>)
    requires Injective(m)
    ensures r == LocalId(m, content)
  {
    var todo := m.Keys;
    while todo != {}
      invariant todo <= m.Keys && forall id :: id in m && id !in todo ==> m[id] != content
      decreases todo
    {
      var id :| id in todo;
      if m[id] == content {
        return Some(id);
      }
      todo := todo - {id};
    }
    return None;
  }

  // ---------------------------------------------------------------------------
  // One group
  // ---------------------------------------------------------------------------

  /** The two key maps, local and remote, and the remote references in their order. */
  datatype Maps = Maps(inv: KeyMap, sg: KeyMap, refs: seq<Sid>)

  ghost predicate ValidMaps(m: Maps) {
    && Injective(m.inv) && Injective(m.sg)
    && (forall i, j :: 0 <= i < j < |m.refs| ==> m.refs[i] != m.refs[j])
    && (forall s :: s in m.refs ==> s in m.sg)
  }

  /** The id names the same station here and there, and the remote group refers to it. */
  predicate Good(m: Maps, s: Sid) {
    s in m.refs && s in m.inv && s in m.sg && m.inv[s] == m.sg[s]
  }

  /** What is left of the old references: first the missing ones go, then the others. */
  function Sanitize(m: Maps, before: set<Sid>): set<Sid> {
    set s | s in before && Good(m, s)
  }

  /** The effect of one remote reference. */
  function AddOne(m: Maps, cur: set<Sid>, s: Sid): set<Sid>
    requires Injective(m.inv) && s in m.sg
  {
    if s in cur then cur
    else
      match LocalId(m.inv, m.sg[s])
      case None => cur
      case Some(id) => cur + {id}
  }

  /** The effect of the first n remote references. */
  function AddFirst(m: Maps, start: set<Sid>, n: nat): set<Sid>
    requires ValidMaps(m) && n <= |m.refs|
  {
    if n == 0 then start else AddOne(m, AddFirst(m, start, n - 1), m.refs[n - 1])
  }

  function Rebuild(m: Maps, before: set<Sid>): set<Sid>
    requires ValidMaps(m)
  {
    AddFirst(m, Sanitize(m, before), |m.refs|)
  }

  function NotGood(m: Maps, s: set<Sid>): set<Sid> {
    set x | x in s && !Good(m, x)
  }

  lemma GoodIsLocal(m: Maps, s: Sid)
    requires ValidMaps(m) && Good(m, s)
    ensures LocalId(m.inv, m.sg[s]) == Some(s)
  {
    assert m.inv[s] in m.inv.Values;
  }

  lemma NotGoodAdd(m: Maps, x: set<Sid>, id: Sid)
    ensures NotGood(m, x + {id}) == if Good(m, id) then NotGood(m, x) else NotGood(m, x) + {id}
  {
  }

  /** Which good ids are there at the start makes no difference to the others. */
  lemma {:induction false} SameOthers(m: Maps, a: set<Sid>, b: set<Sid>, n: nat)
    requires ValidMaps(m) && n <= |m.refs|
    requires (forall s :: s in a ==> Good(m, s)) && (forall s :: s in b ==> Good(m, s))
    ensures NotGood(m, AddFirst(m, a, n)) == NotGood(m, AddFirst(m, b, n))
    ensures forall i :: 0 <= i < n && Good(m, m.refs[i]) ==> m.refs[i] in AddFirst(m, a, n)
  {
    if n > 0 {
      SameOthers(m, a, b, n - 1);
      var s, x, y := m.refs[n - 1], AddFirst(m, a, n - 1), AddFirst(m, b, n - 1);
      assert s in m.refs;
      if Good(m, s) {
        GoodIsLocal(m, s);
        NotGoodAdd(m, x, s);
        NotGoodAdd(m, y, s);
      } else {
        assert s in x <==> s in NotGood(m, x);
        assert s in y <==> s in NotGood(m, y);
        var id := LocalId(m.inv, m.sg[s]);
        if id.Some? {
          NotGoodAdd(m, x, id.value);
          NotGoodAdd(m, y, id.value);
        }
      }
    }
  }

  /** The result does not depend on what the local group referred to before. */
  lemma OldReferencesIrrelevant(m: Maps, a: set<Sid>, b: set<Sid>)
    requires ValidMaps(m)
    ensures Rebuild(m, a) == Rebuild(m, b)
  {
    var n, x, y := |m.refs|, Sanitize(m, a), Sanitize(m, b);
    SameOthers(m, x, y, n);
    SameOthers(m, y, x, n);
    OnlyLocal(m, x, n);
    OnlyLocal(m, y, n);
    forall s ensures s in Rebuild(m, a) <==> s in Rebuild(m, b) {
      if Good(m, s) {
        var i :| 0 <= i < n && m.refs[i] == s;
      } else {
        assert s in Rebuild(m, a) <==> s in NotGood(m, Rebuild(m, a));
        assert s in Rebuild(m, b) <==> s in NotGood(m, Rebuild(m, b));
      }
    }
  }

  /** Everything the group refers to exists here, and is a station of the remote group. */
  lemma {:induction false} OnlyLocal(m: Maps, start: set<Sid>, n: nat)
    requires ValidMaps(m) && n <= |m.refs| && forall s :: s in start ==> Good(m, s)
    ensures forall s :: s in AddFirst(m, start, n) ==> s in m.inv
    ensures forall s :: s in AddFirst(m, start, n) ==> exists a :: a in m.refs && m.sg[a] == m.inv[s]
  {
    if n > 0 {
      OnlyLocal(m, start, n - 1);
      assert m.refs[n - 1] in m.refs;
    }
  }

  /** Running it again changes nothing. */
  lemma RebuildIdempotent(m: Maps, before: set<Sid>)
    requires ValidMaps(m)
    ensures Rebuild(m, Rebuild(m, before)) == Rebuild(m, before)
  {
    OldReferencesIrrelevant(m, Rebuild(m, before), before);
  }

  // ---------------------------------------------------------------------------
  // Which stations the group refers to in the end
  // ---------------------------------------------------------------------------

  /** The remote group's stations that exist here. */
  function Wanted(m: Maps): set<Key>
    requires ValidMaps(m)
  {
    set s | s in m.refs && m.sg[s] in m.inv.Values :: m.sg[s]
  }

  /** The stations behind a set of local ids. */
  function Stations(m: Maps, ids: set<Sid>): set<Key> {
    set s | s in ids && s in m.inv :: m.inv[s]
  }

  /** An earlier remote reference names a station whose local id is the id of a later remote
      reference, and the station of that later one exists here, too. */
  ghost predicate Clash(m: Maps, j: nat, i: nat)
    requires ValidMaps(m)
  {
    && j < i < |m.refs|
    && m.refs[i] in m.inv && m.refs[j] in m.sg && m.inv[m.refs[i]] == m.sg[m.refs[j]]
    && m.refs[i] in m.sg && m.sg[m.refs[i]] in m.inv.Values
  }

  /** An id is there after n references if it was there before, or was added for one of them. */
  lemma {:induction false} WhoAdded(m: Maps, start: set<Sid>, n: nat, r: Sid)
    requires ValidMaps(m) && n <= |m.refs|
    ensures r in AddFirst(m, start, n) <==>
            r in start || exists i :: 0 <= i < n && Adds(m, start, i, r)
  {
    if n > 0 {
      WhoAdded(m, start, n - 1, r);
      assert m.refs[n - 1] in m.refs;
      if Adds(m, start, n - 1, r) {
        assert r in AddFirst(m, start, n);
      } else if exists i :: 0 <= i < n && Adds(m, start, i, r) {
        var i :| 0 <= i < n && Adds(m, start, i, r);
        assert i < n - 1;
      }
    }
  }

  /** The i-th reference is not there when its turn comes, and its station has the local id r. */
  ghost predicate Adds(m: Maps, start: set<Sid>, i: nat, r: Sid)
    requires ValidMaps(m) && i < |m.refs|
  {
    m.refs[i] in m.refs && m.refs[i] !in AddFirst(m, start, i) && LocalId(m.inv, m.sg[m.refs[i]]) == Some(r)
  }

  /** The station of the i-th reference, with local id r, is referred to in the end if and only if
      its remote id was not added for another station in the meantime. */
  lemma Present(m: Maps, start: set<Sid>, i: nat, r: Sid)
    requires ValidMaps(m) && i < |m.refs| && (forall s :: s in start ==> Good(m, s))
    requires m.refs[i] in m.refs && LocalId(m.inv, m.sg[m.refs[i]]) == Some(r)
    ensures r in AddFirst(m, start, |m.refs|) <==>
            m.refs[i] in start || m.refs[i] !in AddFirst(m, start, i)
  {
    var s := m.refs[i];
    WhoAdded(m, start, |m.refs|, r);
    if r in start {
      assert Good(m, r) && m.sg[r] == m.inv[r] == m.sg[s];
    }
    if s in start {
      GoodIsLocal(m, s);
    }
    if j :| 0 <= j < |m.refs| && Adds(m, start, j, r) {
      assert m.sg[m.refs[j]] == m.inv[r] == m.sg[s];
    }
    if s !in AddFirst(m, start, i) {
      assert Adds(m, start, i, r);
    }
  }

  /** No station is referred to that the remote group does not have. */
  lemma NothingUnwanted(m: Maps, before: set<Sid>)
    requires ValidMaps(m)
    ensures Stations(m, Rebuild(m, before)) <= Wanted(m)
  {
    OnlyLocal(m, Sanitize(m, before), |m.refs|);
  }

  /** A station that exists here but is not referred to was pushed out by a clash. */
  lemma MissingMeansClash(m: Maps, start: set<Sid>, i: nat)
    requires ValidMaps(m) && i < |m.refs| && (forall s :: s in start ==> Good(m, s))
    requires m.refs[i] in m.refs && m.sg[m.refs[i]] in m.inv.Values
    requires m.refs[i] !in start && m.refs[i] in AddFirst(m, start, i)
    ensures exists j :: Clash(m, j, i)
  {
    WhoAdded(m, start, i, m.refs[i]);
    var j :| 0 <= j < i && Adds(m, start, j, m.refs[i]);
    assert Clash(m, j, i);
  }

  /** Where there is a clash, one of the two stations is missing. */
  lemma ClashMeansMissing(m: Maps, start: set<Sid>, j: nat, i: nat)
    requires ValidMaps(m) && Clash(m, j, i) && (forall s :: s in start ==> Good(m, s))
    ensures exists k :: 0 <= k < |m.refs| && Pushed(m, start, k)
  {
    var a, s := m.refs[j], m.refs[i];
    assert a in m.refs && s in m.refs && a != s;
    assert m.inv[s] in m.inv.Values && LocalId(m.inv, m.sg[a]) == Some(s);
    assert s !in start && a !in start;
    if a in AddFirst(m, start, j) {
      assert Pushed(m, start, j);
    } else {
      assert Adds(m, start, j, s);
      WhoAdded(m, start, i, s);
      assert Pushed(m, start, i);
    }
  }

  ghost predicate Pushed(m: Maps, start: set<Sid>, k: nat)
    requires ValidMaps(m) && k < |m.refs|
  {
    && m.refs[k] in m.refs && m.sg[m.refs[k]] in m.inv.Values
    && m.refs[k] !in start && m.refs[k] in AddFirst(m, start, k)
  }

  /** The group refers to exactly the remote group's stations that exist here, if and only if no two
      references clash. That public ids differ does not matter by itself. */
  lemma ExactlyWanted(m: Maps, before: set<Sid>)
    requires ValidMaps(m)
    ensures Stations(m, Rebuild(m, before)) == Wanted(m) <==> !exists j, i :: Clash(m, j, i)
  {
    var start, n := Sanitize(m, before), |m.refs|;
    NothingUnwanted(m, before);
    if exists j, i :: Clash(m, j, i) {
      var j, i :| Clash(m, j, i);
      ClashMeansMissing(m, start, j, i);
      var k :| 0 <= k < n && Pushed(m, start, k);
      MissingKey(m, before, k);
    } else {
      forall key | key in Wanted(m) ensures key in Stations(m, Rebuild(m, before)) {
        var s :| s in m.refs && m.sg[s] in m.inv.Values && m.sg[s] == key;
        var i :| 0 <= i < n && m.refs[i] == s;
        var r := LocalId(m.inv, key).value;
        Present(m, start, i, r);
        if r !in Rebuild(m, before) {
          MissingMeansClash(m, start, i);
        }
      }
    }
  }

  lemma MissingKey(m: Maps, before: set<Sid>, k: nat)
    requires ValidMaps(m) && k < |m.refs| && Pushed(m, Sanitize(m, before), k)
    ensures Stations(m, Rebuild(m, before)) != Wanted(m)
  {
    var key := m.sg[m.refs[k]];
    var r := LocalId(m.inv, key).value;
    Present(m, Sanitize(m, before), k, r);
    assert key in Wanted(m);
    forall s | s in Rebuild(m, before) && s in m.inv ensures m.inv[s] != key {
      assert m.inv[r] == key;
    }
  }

  /** Such a clash: the remote ids "a" and "b" name stations 1 and 2, which are "b" and "c" here. */
  lemma ClashExample() returns (m: Maps)
    ensures ValidMaps(m) && Wanted(m) == {Key("N", 0, "S1", 0), Key("N", 0, "S2", 0)}
    ensures Stations(m, Rebuild(m, {})) != Wanted(m)
  {
    var k1, k2 := Key("N", 0, "S1", 0), Key("N", 0, "S2", 0);
    m := Maps(map["b" := k1, "c" := k2], map["a" := k1, "b" := k2], ["a", "b"]);
    assert m.inv["b"] in m.inv.Values && m.inv["c"] in m.inv.Values;
    assert m.refs[0] == "a" && m.refs[1] == "b";
    assert Wanted(m) == {k1, k2} by {
      assert m.sg["a"] in Wanted(m) && m.sg["b"] in Wanted(m);
    }
    assert Clash(m, 0, 1);
    ExactlyWanted(m, {});
  }

  // ---------------------------------------------------------------------------
  // The rebuild as a program
  // ---------------------------------------------------------------------------

  /** The references of one local group: the missing ones go, then those that are not listed by the
      remote group or are in conflict, and then the remote references are added. */
  method SyncReferences(m: Maps, before: set<Sid>) returns (refs: set<Sid>)
    requires ValidMaps(m)
    ensures refs == Rebuild(m, before)
  {
    refs := before;
    var sidToRemove, todo := {}, before;
    while todo != {}
      invariant todo <= before
      invariant sidToRemove == set s | s in before && s !in todo && s !in m.inv
      decreases todo
    {
      var sid :| sid in todo;
      if sid !in m.inv {
        sidToRemove := sidToRemove + {sid};
      }
      todo := todo - {sid};
    }
    refs := refs - sidToRemove;

    sidToRemove, todo := {}, refs;
    while todo != {}
      invariant todo <= refs && refs == set s | s in before && s in m.inv
      invariant sidToRemove == set s | s in refs && s !in todo && !Good(m, s)
      decreases todo
    {
      var sid :| sid in todo;
      if sid !in m.refs || sid !in m.sg || m.inv[sid] != m.sg[sid] {
        sidToRemove := sidToRemove + {sid};
      }
      todo := todo - {sid};
    }
    refs := refs - sidToRemove;
    assert refs == Sanitize(m, before);

    var i := 0;
    while i < |m.refs|
      invariant i <= |m.refs|
      invariant refs == AddFirst(m, Sanitize(m, before), i)
    {
      var sid := m.refs[i];
      assert sid in m.refs;
      if sid !in refs {
        var newSID := FindSID(m.inv, m.sg[sid]);
        if newSID.Some? {
          refs := refs + {newSID.value};
        }
      }
      i := i + 1;
    }
  }

  datatype Attributes = Attributes(start: int, end: Option<int>, kind: string, description: string,
                                   latitude: real, longitude: real, elevation: real)
  datatype Group = Group(attributes: Attributes, refs: set<Sid>)
  datatype RemoteGroup = RemoteGroup(attributes: Attributes, refs: seq<Sid>)
  datatype Remote = Remote(stations: seq<Station>, groups: map<string, RemoteGroup>)

  function GroupMaps(stations: seq<Station>, remote: Remote, code: string): Maps
    requires code in remote.groups
  {
    Maps(KeyMapOf(stations), KeyMapOf(remote.stations), remote.groups[code].refs)
  }

  /** What the remote inventory looks like once its references have been validated. */
  ghost predicate ValidRemote(remote: Remote) {
    && DistinctKeys(remote.stations)
    && (forall code :: code in remote.groups ==> ValidReferences(remote, remote.groups[code].refs))
  }

  ghost predicate ValidReferences(remote: Remote, refs: seq<Sid>) {
    && (forall i, j :: 0 <= i < j < |refs| ==> refs[i] != refs[j])
    && (forall s :: s in refs ==> s in KeyMapOf(remote.stations))
  }

  lemma GroupMapsValid(stations: seq<Station>, remote: Remote, code: string)
    requires DistinctKeys(stations) && ValidRemote(remote) && code in remote.groups
    ensures ValidMaps(GroupMaps(stations, remote, code))
  {
    KeyMapInjective(stations);
    KeyMapInjective(remote.stations);
    assert ValidReferences(remote, remote.groups[code].refs);
  }

  /** What a listed group looks like after the rebuild; None: there is none. */
  ghost function Synced(stations: seq<Station>, remote: Remote, code: string): Option<Group>
    requires DistinctKeys(stations) && ValidRemote(remote)
  {
    if code !in remote.groups then None
    else
      GroupMapsValid(stations, remote, code);
      Some(Group(remote.groups[code].attributes, Rebuild(GroupMaps(stations, remote, code), {})))
  }

  /** The groups of the codes are as Synced says; all others are as they were. */
  ghost predicate InSync(stations: seq<Station>, remote: Remote, codes: seq<string>,
                         before: map<string, Group>, after: map<string, Group>)
    requires DistinctKeys(stations) && ValidRemote(remote)
  {
    forall code :: Lookup(after, code) ==
      if code in codes then Synced(stations, remote, code) else Lookup(before, code)
  }

  function Lookup(groups: map<string, Group>, code: string): Option<Group> {
    if code in groups then Some(groups[code]) else None
  }

  /** The local inventory, as far as the rebuild uses it. */
  class Inventory {
    const stations: seq<Station>
    var stationGroup: map<string, Group>

    constructor (stations: seq<Station>, stationGroup: map<string, Group>)
      ensures this.stations == stations && this.stationGroup == stationGroup
    {
      this.stations, this.stationGroup := stations, stationGroup;
    }

    /** One group of the node's list. */
    method RebuildGroup(remote: Remote, sgmap: KeyMap, sgcode: string)
      requires DistinctKeys(stations) && ValidRemote(remote) && sgmap == KeyMapOf(remote.stations)
      modifies this
      ensures InSync(stations, remote, [sgcode], old(stationGroup), stationGroup)
    {
      if sgcode !in remote.groups {
        stationGroup := stationGroup - {sgcode};
        return;
      }
      GroupMapsValid(stations, remote, sgcode);
      var sgref := remote.groups[sgcode];
      var before := if sgcode in stationGroup then stationGroup[sgcode].refs else {};
      var invmap := PrepareMap(stations);
      var refs := SyncReferences(Maps(invmap, sgmap, sgref.refs), before);
      OldReferencesIrrelevant(GroupMaps(stations, remote, sgcode), before, {});
      stationGroup := stationGroup[sgcode := Group(sgref.attributes, refs)];
    }

    /** _doGroupRebuild(): all groups in the node's list. Nothing happens for the own node unless
        forced, for an empty list, and when the remote inventory could not be fetched. */
    method DoGroupRebuild(ownNode: bool, force: bool, list: seq<string>, fetched: Option<Remote>)
      requires DistinctKeys(stations) && (fetched.Some? ==> ValidRemote(fetched.value))
      modifies this
      ensures (ownNode && !force) || fetched.None? ==> stationGroup == old(stationGroup)
      ensures !(ownNode && !force) && fetched.Some? ==>
                InSync(stations, fetched.value, list, old(stationGroup), stationGroup)
    {
      if (ownNode && !force) || list == [] || fetched.None? {
        return;
      }
      var remote := fetched.value;
      var sgmap := PrepareMap(remote.stations);
      var i := 0;
      while i < |list|
        invariant i <= |list|
        invariant InSync(stations, remote, list[..i], old(stationGroup), stationGroup)
      {
        ghost var between := stationGroup;
        RebuildGroup(remote, sgmap, list[i]);
        InSyncNext(stations, remote, list, i, old(stationGroup), between, stationGroup);
        i := i + 1;
      }
      assert list[..i] == list;
    }
  }

  lemma InSyncNext(stations: seq<Station>, remote: Remote, list: seq<string>, i: nat,
                   before: map<string, Group>, between: map<string, Group>, after: map<string, Group>)
    requires DistinctKeys(stations) && ValidRemote(remote) && i < |list|
    requires InSync(stations, remote, list[..i], before, between)
    requires InSync(stations, remote, [list[i]], between, after)
    ensures InSync(stations, remote, list[..i + 1], before, after)
  {
    assert list[..i + 1] == list[..i] + [list[i]];
    forall code
      ensures Lookup(after, code) ==
              if code in list[..i + 1] then Synced(stations, remote, code) else Lookup(before, code)
    {
      assert Lookup(between, code) ==
             if code in list[..i] then Synced(stations, remote, code) else Lookup(before, code);
    }
  }

  /** A second run over the same list leaves every group as it is. */
  lemma SecondRunChangesNothing(stations: seq<Station>, remote: Remote, list: seq<string>,
                                before: map<string, Group>, once: map<string, Group>,
                                twice: map<string, Group>)
    requires DistinctKeys(stations) && ValidRemote(remote)
    requires InSync(stations, remote, list, before, once)
    requires InSync(stations, remote, list, once, twice)
    ensures twice == once
  {
    forall code ensures Lookup(twice, code) == Lookup(once, code) {
    }
    assert forall code :: code in twice <==> Lookup(twice, code).Some?;
    assert forall code :: code in once <==> Lookup(once, code).Some?;
  }

  /** After a run, a listed group of the node has the remote attributes, and names exactly the remote
      stations that exist here, if and only if no two references of it clash. */
  lemma ListedGroup(stations: seq<Station>, remote: Remote, list: seq<string>,
                    before: map<string, Group>, after: map<string, Group>, code: string)
    requires DistinctKeys(stations) && ValidRemote(remote) && code in list
    requires InSync(stations, remote, list, before, after)
    ensures code in after <==> code in remote.groups
    ensures code in after ==> after[code].attributes == remote.groups[code].attributes
    ensures code in after ==> ValidMaps(GroupMaps(stations, remote, code))
    ensures code in after ==>
              var m := GroupMaps(stations, remote, code);
              (Stations(m, after[code].refs) == Wanted(m) <==> !exists j, i :: Clash(m, j, i))
  {
    assert Lookup(after, code) == Synced(stations, remote, code);
    if code in remote.groups {
      GroupMapsValid(stations, remote, code);
      ExactlyWanted(GroupMaps(stations, remote, code), {});
    }
  }
}
