/** Saving a request as a tree of volumes and lines, and restoring it from such a tree. */
module Persistence {
  import P = Prioritizer
  import opened Requests

  // ---------------------------------------------------------------------------
  // The saved form
  // ---------------------------------------------------------------------------

  datatype LineRec = LineRec(content: string, status: Status, size: nat, message: string)
  datatype VolumeRec = VolumeRec(id: string, status: Status, size: nat, message: string, lines: seq<LineRec>)

  /** A volume in this state is not finished: its lines have to be processed again. */
  predicate IsOpen(s: Status) {
    s == Unset || s == Processing
  }

  function SaveLine(l: RequestLine): LineRec
    reads l
  {
    LineRec(l.ref, l.status, l.size, l.message)
  }

  function SaveLines(ls: seq<RequestLine>): (r: seq<LineRec>)
    reads ls
    ensures |r| == |ls| && forall i :: 0 <= i < |ls| ==> r[i] == SaveLine(ls[i])
  {
    seq(|ls|, i requires 0 <= i < |ls| reads ls => SaveLine(ls[i]))
  }

  function SaveVolume(id: string, v: RequestVolume): VolumeRec
    reads v, v.lines
  {
    VolumeRec(id, v.status, v.size, v.message, SaveLines(v.lines))
  }

  /** The keys of a map in map order. */
  function Sorted(keys: set<string>): (ids: seq<string>)
    ensures forall id :: id in ids <==> id in keys
    ensures forall i, j :: 0 <= i < j < |ids| ==> ids[i] != ids[j] && P.Less(ids[i], ids[j])
    decreases |keys|
  {
    if keys == {} then []
    else
      var first := P.Begin(keys).value;
      [first] + Sorted(keys - {first})
  }

  function UnsetLines(ls: seq<RequestLine>): seq<RequestLine>
    reads ls
  {
    if ls == [] then []
    else
      var rest := UnsetLines(ls[1..]);
      if ls[0].status == Unset then [ls[0]] + rest else rest
  }

  function SaveVolumes(vs: map<string, RequestVolume>, ids: seq<string>): (recs: seq<VolumeRec>)
    requires forall id :: id in ids ==> id in vs
    reads vs.Values, LinesOf(vs.Values)
    ensures |recs| == |ids| && forall i :: 0 <= i < |ids| ==> recs[i] == SaveVolume(ids[i], vs[ids[i]])
  {
    seq(|ids|, i requires 0 <= i < |ids| reads vs.Values, LinesOf(vs.Values) =>
      assert ids[i] in ids && vs[ids[i]] in vs.Values;
      assert forall l :: l in vs[ids[i]].lines ==> l in LinesOf(vs.Values);
      SaveVolume(ids[i], vs[ids[i]]))
  }

  /** getxml(): every volume in order of ids, then the lines that no handler has touched yet. */
  function Save(r: Request): seq<VolumeRec>
    reads r, r.reqVolumes.Values, r.Pool()
  {
    assert forall l :: l in r.reqLines ==> l in r.Pool();
    SaveVolumes(r.reqVolumes, Sorted(r.reqVolumes.Keys)) + SaveUnset(r.reqLines)
  }

  function SaveUnset(ls: seq<RequestLine>): seq<VolumeRec>
    reads ls
  {
    var unset := UnsetLines(ls);
    UnsetAreLines(ls);
    if unset == [] then [] else [VolumeRec("UNSET", Unset, 0, "", SaveLines(unset))]
  }

  lemma {:induction false} UnsetAreLines(ls: seq<RequestLine>)
    ensures forall l :: l in UnsetLines(ls) <==> l in ls && l.status == Unset
  {
    if ls != [] {
      UnsetAreLines(ls[1..]);
      assert ls == [ls[0]] + ls[1..];
    }
  }

  /** The saved form has one record per volume, in order of ids, and then one more for the untouched
      lines, if there are any. */
  lemma SavedInOrder(r: Request, k: nat)
    ensures var recs, ids := Save(r), Sorted(r.reqVolumes.Keys);
            var touched := forall l :: l in r.reqLines ==> l.status != Unset;
            && |recs| == |ids| + (if touched then 0 else 1)
            && (k < |ids| ==> recs[k].id == ids[k] && recs[k] == SaveVolume(ids[k], r.reqVolumes[ids[k]]))
            && (!touched ==> recs[|ids|] == VolumeRec("UNSET", Unset, 0, "", SaveLines(UnsetLines(r.reqLines))))
  {
    Touched(r.reqLines);
  }

  lemma Touched(ls: seq<RequestLine>)
    ensures UnsetLines(ls) == [] <==> forall l :: l in ls ==> l.status != Unset
  {
    UnsetAreLines(ls);
    if u :| u in UnsetLines(ls) {
      assert u in ls && u.status == Unset;
    } else {
      assert UnsetLines(ls) != [] ==> UnsetLines(ls)[0] in UnsetLines(ls);
    }
  }

  /** The lines to be processed again, as read back from a saved form. */
  function OpenLines(recs: seq<VolumeRec>): seq<LineRec> {
    if recs == [] then []
    else
      var n := |recs| - 1;
      var rest := OpenLines(recs[..n]);
      if IsOpen(recs[n].status) then rest + recs[n].lines else rest
  }

  /** The finished volumes of a saved form. */
  function Finished(recs: seq<VolumeRec>): map<string, VolumeRec> {
    if recs == [] then map[]
    else
      var n := |recs| - 1;
      var rest := Finished(recs[..n]);
      if IsOpen(recs[n].status) then rest else rest[recs[n].id := recs[n]]
  }

  function Contents(ls: seq<LineRec>): seq<string> {
    seq(|ls|, i requires 0 <= i < |ls| => ls[i].content)
  }

  // ---------------------------------------------------------------------------
  // Restoring
  // ---------------------------------------------------------------------------

  method RestoreLines(r: Request, recs: seq<LineRec>) returns (lines: seq<RequestLine>)
    requires r.Valid() && !r.closed && r.restoredVolume != null && r.restoredVolume.lines == []
    modifies r`content, r`reqLines, r.restoredVolume`lines
    ensures r.Valid() && fresh(lines) && SaveLines(lines) == recs && r.restoredVolume.lines == lines
    ensures r.reqLines == if IsOpen(r.restoredVolume.status) then old(r.reqLines) + lines else old(r.reqLines)
  {
    lines := [];
    var i := 0;
    while i < |recs|
      invariant i <= |recs| && r.Valid() && fresh(lines) && |lines| == i
      invariant forall k :: 0 <= k < i ==> SaveLine(lines[k]) == recs[k]
      invariant r.restoredVolume.lines == lines
      invariant r.reqLines == if IsOpen(r.restoredVolume.status) then old(r.reqLines) + lines else old(r.reqLines)
    {
      var line := r.RestoreLine(recs[i].content, recs[i].status, recs[i].size, recs[i].message);
      lines := lines + [line];
      i := i + 1;
    }
  }

  /** One volume element with its lines. */
  method RestoreOne(r: Request, rec: VolumeRec) returns (v: RequestVolume)
    requires r.Valid() && !r.closed
    modifies r`restoredVolume, r`reqVolumes, r`content, r`reqLines
    ensures r.Valid() && fresh(v) && fresh(v.lines) && SaveVolume(rec.id, v) == rec
    ensures r.reqVolumes == if IsOpen(rec.status) then old(r.reqVolumes) else old(r.reqVolumes)[rec.id := v]
    ensures r.reqLines == if IsOpen(rec.status) then old(r.reqLines) + v.lines else old(r.reqLines)
  {
    r.RestoreVolume(rec.id, rec.status, rec.size, rec.message);
    v := r.restoredVolume;
    var lines := RestoreLines(r, rec.lines);
  }

  ghost predicate Holds(vs: map<string, RequestVolume>, recs: map<string, VolumeRec>)
    reads vs.Values, LinesOf(vs.Values)
  {
    vs.Keys == recs.Keys && forall id :: id in vs ==> HoldsOne(vs, id, recs)
  }

  ghost predicate HoldsOne(vs: map<string, RequestVolume>, id: string, recs: map<string, VolumeRec>)
    requires id in vs
    reads vs.Values, LinesOf(vs.Values)
  {
    assert vs[id] in vs.Values;
    assert forall l :: l in vs[id].lines ==> l in LinesOf(vs.Values);
    id in recs && SaveVolume(id, vs[id]) == recs[id]
  }

  /** No line of the request belongs to a volume. */
  ghost predicate Apart(vs: map<string, RequestVolume>, ls: seq<RequestLine>)
    reads vs.Values
  {
    forall l :: l in ls ==> l !in LinesOf(vs.Values)
  }

  ghost predicate Restored(r: Request, recs: seq<VolumeRec>)
    reads r, r.reqVolumes.Values, r.Pool()
  {
    assert forall l :: l in r.reqLines ==> l in r.Pool();
    && Holds(r.reqVolumes, Finished(recs))
    && SaveLines(r.reqLines) == OpenLines(recs)
    && Apart(r.reqVolumes, r.reqLines)
  }

  method RestoreNext(r: Request, recs: seq<VolumeRec>)
    requires recs != [] && r.Valid() && !r.closed && Restored(r, recs[..|recs| - 1])
    modifies r`restoredVolume, r`reqVolumes, r`content, r`reqLines
    ensures r.Valid() && Restored(r, recs)
  {
    var n := |recs| - 1;
    var rec := recs[n];
    ghost var vs, ls, old_lines := r.reqVolumes, r.reqLines, LinesOf(r.reqVolumes.Values);
    var v := RestoreOne(r, rec);
    assert SaveLines(ls) == OpenLines(recs[..n]) && Holds(vs, Finished(recs[..n])) && Apart(vs, ls);
    if IsOpen(rec.status) {
      assert forall l :: l in v.lines ==> l !in old_lines;
      AddLines(ls, v.lines, OpenLines(recs[..n]), rec.lines);
      assert r.reqVolumes == vs && r.reqLines == ls + v.lines;
    } else {
      assert forall l :: l in v.lines ==> l !in ls;
      AddVolume(vs, rec.id, v, Finished(recs[..n]), rec, ls);
    }
  }

  lemma AddLines(ls: seq<RequestLine>, more: seq<RequestLine>, a: seq<LineRec>, b: seq<LineRec>)
    requires SaveLines(ls) == a && SaveLines(more) == b
    ensures SaveLines(ls + more) == a + b
  {
  }

  lemma AddVolume(vs: map<string, RequestVolume>, id: string, v: RequestVolume,
                  recs: map<string, VolumeRec>, rec: VolumeRec, ls: seq<RequestLine>)
    requires Holds(vs, recs) && SaveVolume(id, v) == rec && Apart(vs, ls)
    requires forall l :: l in v.lines ==> l !in ls
    ensures Holds(vs[id := v], recs[id := rec]) && Apart(vs[id := v], ls)
  {
    forall i | i in vs && i != id ensures HoldsOne(vs[id := v], i, recs[id := rec]) {
      assert HoldsOne(vs, i, recs);
    }
  }

  /** Everything but END. */
  method RestoreBody(header: seq<string>, ready: bool, restricted: bool, error: bool, recs: seq<VolumeRec>)
    returns (r: Request)
    ensures fresh(r) && r.Valid() && !r.closed && r.header == header
    ensures r.ready == ready && r.restricted == restricted && r.error == error
    ensures Restored(r, recs) && Refs(r.reqLines) == Contents(OpenLines(recs))
  {
    r := new Request(header, 0, ready, restricted, error);
    RestoreAll(r, recs);
    RefsAreContents(r.reqLines, OpenLines(recs));
  }

  /** The restored request has the finished volumes exactly as saved; its lines are those of the
      other volumes, in order, and belong to no volume; its content is header, lines, END. */
  method Restore(header: seq<string>, ready: bool, restricted: bool, error: bool, recs: seq<VolumeRec>)
    returns (r: Request)
    ensures fresh(r) && r.Valid() && r.closed
    ensures r.ready == ready && r.restricted == restricted && r.error == error
    ensures Holds(r.reqVolumes, Finished(recs)) && Apart(r.reqVolumes, r.reqLines)
    ensures SaveLines(r.reqLines) == OpenLines(recs)
    ensures r.content == header + Contents(OpenLines(recs)) + ["END"]
  {
    r := RestoreBody(header, ready, restricted, error, recs);
    r.RestoreEnd();
  }

  method RestoreAll(r: Request, recs: seq<VolumeRec>)
    requires r.Valid() && !r.closed && r.reqVolumes == map[] && r.reqLines == []
    modifies r`restoredVolume, r`reqVolumes, r`content, r`reqLines
    ensures r.Valid() && Restored(r, recs)
  {
    var i := 0;
    assert recs[..i] == [];
    while i < |recs|
      invariant i <= |recs| && r.Valid()
      invariant Restored(r, recs[..i])
    {
      assert recs[..i + 1][..|recs[..i + 1]| - 1] == recs[..i];
      RestoreNext(r, recs[..i + 1]);
      i := i + 1;
    }
    assert recs[..i] == recs;
  }

  lemma RefsAreContents(ls: seq<RequestLine>, recs: seq<LineRec>)
    requires SaveLines(ls) == recs
    ensures Refs(ls) == Contents(recs)
  {
  }

  // ---------------------------------------------------------------------------
  // Round trip
  // ---------------------------------------------------------------------------

  /** The lines of the open volumes, in the order in which they are saved. */
  ghost function OpenIn(vs: map<string, RequestVolume>, ids: seq<string>): seq<RequestLine>
    requires forall id :: id in ids ==> id in vs
    reads vs.Values
  {
    if ids == [] then []
    else
      var n := |ids| - 1;
      assert vs[ids[n]] in vs.Values;
      var rest := OpenIn(vs, ids[..n]);
      if IsOpen(vs[ids[n]].status) then rest + vs[ids[n]].lines else rest
  }

  /** The lines that a restored request starts with. */
  ghost function Surviving(r: Request): seq<RequestLine>
    reads r, r.reqVolumes.Values, r.Pool()
  {
    assert forall l :: l in r.reqLines ==> l in r.Pool();
    OpenIn(r.reqVolumes, Sorted(r.reqVolumes.Keys)) + UnsetLines(r.reqLines)
  }

  lemma {:induction false} OpenOfVolumes(vs: map<string, RequestVolume>, ids: seq<string>)
    requires forall id :: id in ids ==> id in vs
    ensures OpenLines(SaveVolumes(vs, ids)) == SaveLines(OpenIn(vs, ids))
  {
    if ids != [] {
      var n := |ids| - 1;
      OpenOfVolumes(vs, ids[..n]);
      assert SaveVolumes(vs, ids)[..n] == SaveVolumes(vs, ids[..n]);
      if IsOpen(vs[ids[n]].status) {
        AddLines(OpenIn(vs, ids[..n]), vs[ids[n]].lines, OpenLines(SaveVolumes(vs, ids[..n])),
            SaveLines(vs[ids[n]].lines));
      }
    }
  }

  lemma InInit(ids: seq<string>)
    requires ids != []
    ensures forall id :: id in ids <==> id in ids[..|ids| - 1] || id == ids[|ids| - 1]
  {
    assert ids == ids[..|ids| - 1] + [ids[|ids| - 1]];
  }

  lemma {:induction false} FinishedOfVolumes(vs: map<string, RequestVolume>, ids: seq<string>)
    requires forall id :: id in ids ==> id in vs
    ensures var f := Finished(SaveVolumes(vs, ids));
            && (forall id :: id in f <==> id in ids && !IsOpen(vs[id].status))
            && (forall id :: id in f ==> f[id] == SaveVolume(id, vs[id]))
  {
    if ids != [] {
      var n := |ids| - 1;
      FinishedOfVolumes(vs, ids[..n]);
      assert SaveVolumes(vs, ids)[..n] == SaveVolumes(vs, ids[..n]);
      assert SaveVolumes(vs, ids)[n] == SaveVolume(ids[n], vs[ids[n]]);
      InInit(ids);
    }
  }

  lemma AppendOpen(recs: seq<VolumeRec>, rec: VolumeRec)
    requires IsOpen(rec.status)
    ensures OpenLines(recs + [rec]) == OpenLines(recs) + rec.lines && Finished(recs + [rec]) == Finished(recs)
  {
    assert (recs + [rec])[..|recs|] == recs;
  }

  /** What a saved request holds: its finished volumes, and the lines that survive. */
  lemma SavedForm(r: Request)
    ensures OpenLines(Save(r)) == SaveLines(Surviving(r))
    ensures var f := Finished(Save(r));
            && (forall id :: id in f <==> id in r.reqVolumes && !IsOpen(r.reqVolumes[id].status))
            && (forall id :: id in f ==> f[id] == SaveVolume(id, r.reqVolumes[id]))
  {
    var ids, unset := Sorted(r.reqVolumes.Keys), UnsetLines(r.reqLines);
    var recs := SaveVolumes(r.reqVolumes, ids);
    OpenOfVolumes(r.reqVolumes, ids);
    FinishedOfVolumes(r.reqVolumes, ids);
    AddLines(OpenIn(r.reqVolumes, ids), unset, OpenLines(recs), SaveLines(unset));
    if unset == [] {
      assert recs + [] == recs && SaveLines(unset) == [];
    } else {
      AppendOpen(recs, VolumeRec("UNSET", Unset, 0, "", SaveLines(unset)));
    }
  }

  /** Saving and restoring: the finished volumes come back as they were, and the request is left
      with header, the surviving lines in saved order, and END. */
  method SaveAndRestore(r: Request) returns (r2: Request)
    requires r.Valid()
    ensures fresh(r2) && r2.Valid() && r2.closed
    ensures r2.ready == r.ready && r2.error == r.error && r2.restricted == r.restricted
    ensures forall id :: id in r2.reqVolumes <==>
                         id in r.reqVolumes && old(r.reqVolumes[id].status) !in {Unset, Processing}
    ensures forall id :: id in r2.reqVolumes ==>
              SaveVolume(id, r2.reqVolumes[id]) == old(SaveVolume(id, r.reqVolumes[id]))
    ensures forall id :: id in r2.reqVolumes ==>
              && r2.reqVolumes[id].Get() == old(r.reqVolumes[id].Get())
              && |r2.reqVolumes[id].lines| == |old(r.reqVolumes[id].lines)|
    ensures forall id, k :: id in r2.reqVolumes && 0 <= k < |r2.reqVolumes[id].lines| ==>
              && r2.reqVolumes[id].lines[k].ref == old(r.reqVolumes[id].lines)[k].ref
              && r2.reqVolumes[id].lines[k].Get() == old(r.reqVolumes[id].lines[k].Get())
    ensures SaveLines(r2.reqLines) == old(SaveLines(Surviving(r)))
    ensures r2.content == r.header + old(Refs(Surviving(r))) + ["END"]
    ensures Apart(r2.reqVolumes, r2.reqLines)
  {
    SavedForm(r);
    RefsAreContents(Surviving(r), OpenLines(Save(r)));
    var recs := GetXml(r);
    r2 := Restore(r.header, r.ready, r.restricted, r.error, recs);
    forall id | id in r2.reqVolumes
      ensures id in Finished(recs) && SaveVolume(id, r2.reqVolumes[id]) == Finished(recs)[id]
    {
      assert HoldsOne(r2.reqVolumes, id, Finished(recs));
    }
  }

  // ---------------------------------------------------------------------------
  // Which lines survive
  // ---------------------------------------------------------------------------

  /** l is in the volume with this id and in no other one, and there once. */
  ghost predicate OnlyIn(vs: map<string, RequestVolume>, l: RequestLine, id: string)
    reads vs.Values
  {
    && id in vs && vs[id] in vs.Values && multiset(vs[id].lines)[l] == 1
    && forall i :: i in vs && i != id ==> vs[i] in vs.Values && l !in vs[i].lines
  }

  ghost predicate InNone(vs: map<string, RequestVolume>, l: RequestLine)
    reads vs.Values
  {
    forall i :: i in vs ==> vs[i] in vs.Values && l !in vs[i].lines
  }

  /** Each line is untouched and in no volume, or in exactly one volume; volumes that are not
      finished hold lines of the request only. */
  ghost predicate WellAssigned(r: Request)
    reads r, r.reqVolumes.Values, r.Pool()
  {
    && (forall l :: l in r.reqLines && l in r.Pool() ==>
          if l.status == Unset then InNone(r.reqVolumes, l) else exists id :: OnlyIn(r.reqVolumes, l, id))
    && (forall id, l ::
          (id in r.reqVolumes && r.reqVolumes[id] in r.reqVolumes.Values
           && IsOpen(r.reqVolumes[id].status) && l in r.reqVolumes[id].lines) ==> l in r.reqLines)
  }

  ghost predicate InFinished(vs: map<string, RequestVolume>, l: RequestLine)
    reads vs.Values
  {
    exists id :: id in vs && vs[id] in vs.Values && vs[id].status !in {Unset, Processing} && l in vs[id].lines
  }

  lemma {:induction false} UnsetCount(ls: seq<RequestLine>, l: RequestLine)
    requires forall i, j :: 0 <= i < j < |ls| ==> ls[i] != ls[j]
    ensures multiset(UnsetLines(ls))[l] == if l in ls && l.status == Unset then 1 else 0
  {
    if ls != [] {
      UnsetCount(ls[1..], l);
      assert l in ls <==> l == ls[0] || l in ls[1..];
    }
  }

  lemma {:induction false} OpenCount(vs: map<string, RequestVolume>, ids: seq<string>, l: RequestLine)
    requires forall id :: id in ids ==> id in vs
    requires forall i, j :: 0 <= i < j < |ids| ==> ids[i] != ids[j]
    ensures InNone(vs, l) ==> multiset(OpenIn(vs, ids))[l] == 0
    ensures forall id :: OnlyIn(vs, l, id) ==>
              multiset(OpenIn(vs, ids))[l] == if id in ids && IsOpen(vs[id].status) then 1 else 0
  {
    if ids != [] {
      var n := |ids| - 1;
      OpenCount(vs, ids[..n], l);
      assert vs[ids[n]] in vs.Values;
      InInit(ids);
      assert ids[n] !in ids[..n];
    }
  }

  lemma {:induction false} OpenMembers(vs: map<string, RequestVolume>, ids: seq<string>, l: RequestLine)
    requires forall id :: id in ids ==> id in vs
    ensures l in OpenIn(vs, ids) <==>
            exists id :: id in ids && vs[id] in vs.Values && IsOpen(vs[id].status) && l in vs[id].lines
  {
    if ids != [] {
      var n := |ids| - 1;
      OpenMembers(vs, ids[..n], l);
      assert vs[ids[n]] in vs.Values;
      InInit(ids);
    }
  }

  lemma SurvivesOnce(r: Request, l: RequestLine)
    requires r.Valid() && WellAssigned(r) && l in r.reqLines && l in r.Pool()
    ensures multiset(Surviving(r))[l] == if InFinished(r.reqVolumes, l) then 0 else 1
  {
    var vs, ls, ids := r.reqVolumes, r.reqLines, Sorted(r.reqVolumes.Keys);
    UnsetCount(ls, l);
    OpenCount(vs, ids, l);
    assert multiset(Surviving(r))[l] == multiset(OpenIn(vs, ids))[l] + multiset(UnsetLines(ls))[l];
    if l.status != Unset {
      var id :| OnlyIn(vs, l, id);
      assert InFinished(vs, l) <==> !IsOpen(vs[id].status);
    }
  }

  /** Exactly the unfinished lines survive, each once: a line of the request comes back once if
      it is in no finished volume, not at all otherwise, and nothing else comes back. */
  lemma ExactlyUnfinishedSurvive(r: Request)
    requires r.Valid() && WellAssigned(r)
    ensures forall l :: l in r.reqLines && l in r.Pool() ==>
              multiset(Surviving(r))[l] == if InFinished(r.reqVolumes, l) then 0 else 1
    ensures forall l :: l in Surviving(r) ==> l in r.reqLines
  {
    var vs := r.reqVolumes;
    forall l | l in r.reqLines && l in r.Pool()
      ensures multiset(Surviving(r))[l] == if InFinished(vs, l) then 0 else 1
    {
      SurvivesOnce(r, l);
    }
    forall l: RequestLine | l in Surviving(r) ensures l in r.reqLines {
      OnlyOwnLines(r, l);
    }
  }

  lemma OnlyOwnLines(r: Request, l: RequestLine)
    requires WellAssigned(r) && l in Surviving(r)
    ensures l in r.reqLines
  {
    var vs, ids := r.reqVolumes, Sorted(r.reqVolumes.Keys);
    UnsetAreLines(r.reqLines);
    if l !in UnsetLines(r.reqLines) {
      assert l in OpenIn(vs, ids);
      OpenMembers(vs, ids, l);
      var id :| id in ids && vs[id] in vs.Values && IsOpen(vs[id].status) && l in vs[id].lines;
      assert id in r.reqVolumes && r.reqVolumes[id] in r.reqVolumes.Values;
    }
  }

  /** In general a line survives exactly if it is untouched or in an unfinished volume. A line in
      work that belongs to no volume, such as a line restored from an unfinished volume before a
      handler assigns it again, is lost by the next save. */
  lemma SurvivorsInGeneral(r: Request, l: RequestLine)
    requires r.Valid() && l in r.reqLines && l in r.Pool()
    ensures l in Surviving(r) <==>
            || l.status == Unset
            || exists id :: id in r.reqVolumes && r.reqVolumes[id] in r.reqVolumes.Values
                            && r.reqVolumes[id].status in {Unset, Processing} && l in r.reqVolumes[id].lines
    ensures l.status != Unset && Apart(r.reqVolumes, r.reqLines) ==> l !in Surviving(r)
  {
    OpenMembers(r.reqVolumes, Sorted(r.reqVolumes.Keys), l);
    UnsetAreLines(r.reqLines);
  }

  // ---------------------------------------------------------------------------
  // Building the saved form
  // ---------------------------------------------------------------------------

  /** The loop over the volumes, in order of ids. */
  method GetVolumes(r: Request) returns (recs: seq<VolumeRec>)
    ensures recs == old(SaveVolumes(r.reqVolumes, Sorted(r.reqVolumes.Keys)))
  {
    var ids := Sorted(r.reqVolumes.Keys);
    recs := [];
    var i := 0;
    while i < |ids|
      invariant i <= |ids| && |recs| == i
      invariant forall k :: 0 <= k < i ==> recs[k] == SaveVolume(ids[k], r.reqVolumes[ids[k]])
    {
      recs := recs + [SaveVolume(ids[i], r.reqVolumes[ids[i]])];
      i := i + 1;
    }
  }

  /** The loop over the lines; the UNSET volume is added when the first untouched line is met. */
  method GetUnset(ls: seq<RequestLine>) returns (recs: seq<VolumeRec>)
    ensures recs == SaveUnset(ls)
  {
    var foundUnassigned := false;
    var child := [];
    var k := 0;
    while k < |ls|
      invariant k <= |ls| && child == SaveLines(UnsetLines(ls[..k]))
      invariant foundUnassigned <==> UnsetLines(ls[..k]) != []
    {
      var l := ls[k];
      assert ls[..k + 1] == ls[..k] + [l];
      UnsetAppend(ls[..k], l);
      if l.status == Unset {
        foundUnassigned := true;
        child := child + [SaveLine(l)];
      }
      k := k + 1;
    }
    assert ls[..k] == ls;
    recs := if foundUnassigned then [VolumeRec("UNSET", Unset, 0, "", child)] else [];
    assert child == SaveLines(UnsetLines(ls));
  }

  /** getxml(). */
  method GetXml(r: Request) returns (recs: seq<VolumeRec>)
    ensures recs == old(Save(r))
  {
    ghost var unset := SaveUnset(r.reqLines);
    recs := GetVolumes(r);
    var more := GetUnset(r.reqLines);
    assert SaveUnset(r.reqLines) == unset;
    recs := recs + more;
  }

  lemma {:induction false} UnsetAppend(ls: seq<RequestLine>, l: RequestLine)
    ensures UnsetLines(ls + [l]) == if l.status == Unset then UnsetLines(ls) + [l] else UnsetLines(ls)
  {
    if ls != [] {
      UnsetAppend(ls[1..], l);
      assert (ls + [l])[1..] == ls[1..] + [l];
    } else {
      assert ([l])[1..] == [];
    }
  }
}
