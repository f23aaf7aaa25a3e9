/** A request and its parts. Lines are shared objects: the request holds all of them in order,
    and each volume holds the ones that a handler assigned to it. Responses of handlers change
    lines and volumes in place. */
module Requests {

  datatype Status = Unset | Processing | Cancelled | Ok | Warning | Error | Denied | Retry | NoData

  predicate Cancellable(s: Status) {
    s == Processing || s == Ok || s == Warning || s == Unset
  }

  function CancelOf(s: Status): Status {
    if Cancellable(s) then Cancelled else s
  }

  /** What lines and volumes say of themselves. */
  datatype Data = Data(status: Status, size: nat, message: string)

  /** How a STATUS response changes a line or a volume. */
  datatype Change = To(status: Status) | Msg(text: string) | Size(n: nat)

  function Changed(d: Data, change: Change): Data {
    match change
    case To(status) => d.(status := status)
    case Msg(text) => d.(message := text)
    case Size(n) => d.(size := n)
  }

  function CancelData(d: Data): Data {
    if Cancellable(d.status) then Data(Cancelled, 0, d.message) else d
  }

  /** What is over stays as it is, and nothing but that is left after cancelling. */
  lemma CancelEnds(d: Data)
    ensures d.status in {Cancelled, Error, Denied, Status.Retry, NoData} <==> CancelData(d) == d
    ensures d.status in {Unset, Processing, Ok, Warning} <==> CancelData(d) == Data(Cancelled, 0, d.message) != d
    ensures CancelData(d).status == CancelOf(d.status)
    ensures CancelData(d).status in {Cancelled, Error, Denied, Status.Retry, NoData}
  {
  }

  /** A response sets what it names and nothing else, so the last one of a kind counts. */
  lemma LastChangeCounts(d: Data, s: Status, text: string, n: nat)
    ensures Changed(Changed(Changed(d, To(s)), Msg(text)), Size(n)) == Data(s, n, text)
    ensures Changed(d, To(s)) == Data(s, d.size, d.message)
    ensures Changed(d, Msg(text)) == Data(d.status, d.size, text)
    ensures Changed(d, Size(n)) == Data(d.status, n, d.message)
  {
  }

  class RequestLine {
    const ref: string
    var status: Status
    var size: nat
    var message: string

    function Get(): Data
      reads this
    {
      Data(status, size, message)
    }

    constructor (ref: string)
      ensures this.ref == ref && status == Unset && size == 0 && message == ""
    {
      this.ref := ref;
      status, size, message := Unset, 0, "";
    }

    method Cancel()
      modifies this
      ensures Get() == CancelData(old(Get()))
      ensures if old(status) in {Processing, Ok, Warning, Unset} then status == Cancelled && size == 0
              else status == old(status) && size == old(size)
      ensures message == old(message)
    {
      if status == Processing || status == Ok || status == Warning || status == Unset {
        status := Cancelled;
        size := 0;
      }
    }
  }

  class RequestVolume {
    const id: string
    var status: Status
    var size: nat
    var message: string
    var lines: seq<RequestLine>

    function Get(): Data
      reads this
    {
      Data(status, size, message)
    }

    constructor (id: string)
      ensures this.id == id && status == Unset && size == 0 && message == "" && lines == []
    {
      this.id := id;
      status, size, message, lines := Unset, 0, "", [];
    }

    method AddLine(ln: RequestLine)
      modifies `lines
      ensures lines == old(lines) + [ln]
    {
      lines := lines + [ln];
    }

    /** Cancels the volume together with its lines, unless it is finished otherwise. */
    method Cancel()
      modifies this, lines
      ensures lines == old(lines) && Get() == CancelData(old(Get()))
      ensures if old(status) in {Processing, Ok, Warning, Unset} then status == Cancelled && size == 0
              else status == old(status) && size == old(size)
      ensures forall l :: l in lines ==>
                l.Get() == if Cancellable(old(status)) then CancelData(old(l.Get())) else old(l.Get())
    {
      if status == Processing || status == Ok || status == Warning || status == Unset {
        status := Cancelled;
        size := 0;
        CancelLines(lines);
      }
    }
  }

  /** Cancel each line once or more; a line that occurs several times ends up the same. */
  method CancelLines(lines: seq<RequestLine>)
    modifies lines
    ensures forall l :: l in lines ==> l.Get() == CancelData(old(l.Get())) && l.status == CancelOf(old(l.status))
  {
    var p := 0;
    while p < |lines|
      invariant p <= |lines|
      invariant forall l :: l in lines ==>
                  l.Get() == if l in lines[..p] then CancelData(old(l.Get())) else old(l.Get())
    {
      var ln := lines[p];
      ln.Cancel();
      assert lines[..p + 1] == lines[..p] + [ln];
      p := p + 1;
    }
    assert lines[..p] == lines;
    assert forall l :: l in lines ==> l.Get() == CancelData(old(l.Get())) && l.Get().status == l.status;
  }

  function Refs(lines: seq<RequestLine>): (r: seq<string>)
    ensures |r| == |lines|
    ensures forall i :: 0 <= i < |lines| ==> r[i] == lines[i].ref
  {
    seq(|lines|, i requires 0 <= i < |lines| => lines[i].ref)
  }

  ghost function LinesOf(vs: set<RequestVolume>): set<RequestLine>
    reads vs
  {
    set v, l | v in vs && l in v.lines :: l
  }

  /** A volume that CANCEL, or ERROR if only is set, cancels. */
  predicate Hit(s: Status, only: bool) {
    if only then s == Processing else Cancellable(s)
  }

  lemma HitMeans(s: Status)
    ensures Hit(s, true) <==> s == Processing
    ensures Hit(s, false) <==> s in {Processing, Ok, Warning, Unset}
  {
  }

  /** The lines that are cancelled together with their volumes. */
  ghost function HitLines(vs: set<RequestVolume>, only: bool): set<RequestLine>
    reads vs
  {
    set v, l | v in vs && Hit(v.status, only) && l in v.lines :: l
  }

  /** Cancel one volume among others; pool holds every line that may be touched. */
  method CancelOne(v: RequestVolume, only: bool, ghost pool: set<RequestLine>)
    requires forall l :: l in v.lines ==> l in pool
    modifies v, pool
    ensures v.lines == old(v.lines) && v.size == if Hit(old(v.status), only) then 0 else old(v.size)
    ensures v.status == if Hit(old(v.status), only) then Cancelled else old(v.status)
    ensures forall l :: l in pool ==>
              l.status == if Hit(old(v.status), only) && l in old(v.lines) then CancelOf(old(l.status))
                          else old(l.status)
  {
    if !only || v.status == Processing {
      v.Cancel();
      assert forall l :: l in v.lines ==> l.Get().status == l.status;
    }
  }

  /** What the lines were, and which of them have been cancelled since. */
  ghost predicate Since(pool: set<RequestLine>, was: map<RequestLine, Status>, hit: set<RequestLine>)
    reads pool
  {
    forall l :: l in pool ==> l in was && l.status == if l in hit then CancelOf(was[l]) else was[l]
  }

  datatype Was = Was(status: Status, lines: seq<RequestLine>)

  /** What the volumes were, and which of them have been treated since. */
  ghost predicate VolumesSince(vs: set<RequestVolume>, was: map<RequestVolume, Was>, done: set<RequestVolume>,
                               only: bool)
    reads vs
  {
    forall v :: v in vs ==>
      && v in was && v.lines == was[v].lines
      && v.status == if v in done && Hit(was[v].status, only) then Cancelled else was[v].status
  }

  ghost function HitIn(was: map<RequestVolume, Was>, done: set<RequestVolume>, only: bool): set<RequestLine> {
    set v, l | v in done && v in was && Hit(was[v].status, only) && l in was[v].lines :: l
  }

  lemma HitInNext(was: map<RequestVolume, Was>, done: set<RequestVolume>, only: bool, v: RequestVolume)
    requires v in was
    ensures HitIn(was, done + {v}, only) ==
            HitIn(was, done, only) + if Hit(was[v].status, only) then (set l | l in was[v].lines) else {}
  {
  }

  /** The next volume is cancelled: some of its lines may be cancelled for the second time. */
  method CancelNext(v: RequestVolume, only: bool, ghost pool: set<RequestLine>, ghost vs: set<RequestVolume>,
                    ghost was: map<RequestLine, Status>, ghost before: map<RequestVolume, Was>,
                        ghost done: set<RequestVolume>)
    requires (forall l :: l in v.lines ==> l in pool) && v in vs && v !in done
    requires VolumesSince(vs, before, done, only) && Since(pool, was, HitIn(before, done, only))
    modifies v, pool
    ensures VolumesSince(vs, before, done + {v}, only) && Since(pool, was, HitIn(before, done + {v}, only))
  {
    HitInNext(before, done, only, v);
    CancelOne(v, only, pool);
  }

  /** Cancel the volumes one after the other; they may share lines. */
  method CancelVolumes(vols: map<string, RequestVolume>, only: bool, ghost pool: set<RequestLine>)
    requires forall id, id' :: id in vols && id' in vols && vols[id] == vols[id'] ==> id == id'
    requires forall v, l :: v in vols.Values && l in v.lines ==> l in pool
    modifies vols.Values, pool
    ensures forall v :: v in vols.Values ==>
              v.lines == old(v.lines) && v.status == if Hit(old(v.status), only) then Cancelled else old(v.status)
    ensures forall l :: l in pool ==>
              l.status == if l in old(HitLines(vols.Values, only)) then CancelOf(old(l.status)) else old(l.status)
  {
    ghost var was := map l | l in pool :: l.status;
    ghost var before := map v | v in vols.Values :: Was(v.status, v.lines);
    CancelAll(vols, only, pool, was, before);
    assert HitIn(before, vols.Values, only) == old(HitLines(vols.Values, only));
  }

  /** The loop. */
  method CancelAll(vols: map<string, RequestVolume>, only: bool, ghost pool: set<RequestLine>,
                   ghost was: map<RequestLine, Status>, ghost before: map<RequestVolume, Was>)
    requires forall id, id' :: id in vols && id' in vols && vols[id] == vols[id'] ==> id == id'
    requires VolumesSince(vols.Values, before, {}, only) && Since(pool, was, {})
    requires forall v, l :: v in vols.Values && l in before[v].lines ==> l in pool
    modifies vols.Values, pool
    ensures VolumesSince(vols.Values, before, vols.Values, only)
    ensures Since(pool, was, HitIn(before, vols.Values, only))
  {
    var todo := vols.Keys;
    ghost var done: set<RequestVolume> := {};
    assert HitIn(before, {}, only) == {};
    while todo != {}
      invariant todo <= vols.Keys && done <= vols.Values
      invariant forall id :: id in vols ==> (vols[id] in done <==> id !in todo)
      invariant VolumesSince(vols.Values, before, done, only) && Since(pool, was, HitIn(before, done, only))
      decreases todo
    {
      var id :| id in todo;
      var v := vols[id];
      assert v in vols.Values && v !in done && v.lines == before[v].lines;
      CancelNext(v, only, pool, vols.Values, was, before, done);
      done := done + {v};
      todo := todo - {id};
    }
    assert done == vols.Values;
  }

  datatype StatusResponse =
    | LineProcessing(ln: nat, vol: string)
    | LineCancel(ln: nat)
    | LineSet(ln: nat, change: Change)
    | VolumeCancel(id: string)
    | VolumeSet(id: string, change: Change)

  /** The responses of a handler, parsed. Malformed stands for all that is rejected before anything
      is looked up. */
  datatype Response =
    | Status(r: StatusResponse)
    | CancelAll
    | Message(text: string)
    | ErrorAll
    | Restricted
    | End
    | Malformed

  class Request {
    const header: seq<string>
    const maxLines: int
    var content: seq<string>
    var reqLines: seq<RequestLine>
    var reqVolumes: map<string, RequestVolume>
    var restoredVolume: RequestVolume?
    var reqMessage: string
    var ready: bool
    var error: bool
    var restricted: bool
    ghost var closed: bool
    ghost var pushed: seq<string>

    /** Header, one entry per line in order, and END once closed: LINE n is the n-th body line.
        Lines are dropped only when the content is full. */
    ghost predicate Valid()
      reads this
    {
      && content == header + Refs(reqLines) + (if closed then ["END"] else [])
      && (forall i, j :: 0 <= i < j < |reqLines| ==> reqLines[i] != reqLines[j])
      && (forall id, id' :: id in reqVolumes && id' in reqVolumes && reqVolumes[id] == reqVolumes[id'] ==> id == id')
    }

    constructor (header: seq<string>, maxLines: int, ready: bool, restricted: bool, error: bool)
      ensures Valid() && KeptAll() && this.header == header && this.maxLines == maxLines && !closed
      ensures this.ready == ready && this.restricted == restricted && this.error == error
      ensures reqLines == [] && reqVolumes == map[] && pushed == [] && restoredVolume == null
    {
      this.header, this.maxLines := header, maxLines;
      content := header;
      reqLines, reqVolumes, restoredVolume := [], map[], null;
      this.ready, this.restricted, this.error, reqMessage := ready, restricted, error, "";
      closed, pushed := false, [];
    }

    /** Nothing pushed so far was dropped, or the content is full. */
    ghost predicate KeptAll()
      reads this
    {
      if |header| + |pushed| <= maxLines then Refs(reqLines) == pushed
      else |content| >= maxLines
    }

    method PushLine(str: string)
      requires Valid() && KeptAll() && !closed
      modifies this
      ensures Valid() && KeptAll() && !closed && pushed == old(pushed) + [str]
      ensures if old(|content|) >= maxLines then content == old(content) else content == old(content) + [str]
      ensures unchanged(`reqVolumes, `ready, `error, `restricted)
    {
      pushed := pushed + [str];
      if |content| >= maxLines {
        return;
      }
      content := content + [str];
      var line := new RequestLine(str);
      reqLines := reqLines + [line];
      assert Refs(reqLines) == Refs(old(reqLines)) + [str];
    }

    /** accepted is false where the code throws: accepted exactly when every line was kept and the
        content, with END, has at most maxLines entries. */
    method PushEnd() returns (accepted: bool)
      requires Valid() && KeptAll() && !closed
      modifies this
      ensures Valid() && reqLines == old(reqLines) && pushed == old(pushed)
      ensures accepted <==> |header| + |pushed| + 1 <= maxLines
      ensures accepted ==> closed && Refs(reqLines) == pushed && |content| <= maxLines
      ensures !accepted ==> content == old(content) && !closed
    {
      if |content| >= maxLines {
        return false;
      }
      content := content + ["END"];
      closed := true;
      return true;
    }

    /** Every line object that belongs to the request or to one of its volumes. */
    ghost function Pool(): set<RequestLine>
      reads this, reqVolumes.Values
    {
      (set l | l in reqLines) + LinesOf(reqVolumes.Values)
    }

    /** CANCEL (only false) or ERROR (only true), without the flags: first volumes, then lines. */
    method CancelParts(only: bool)
      requires Valid()
      modifies reqVolumes.Values, Pool()
      ensures Valid()
      ensures forall v :: v in reqVolumes.Values ==>
                v.lines == old(v.lines) && v.status == if Hit(old(v.status), only) then Cancelled else old(v.status)
      ensures forall l :: l in old(Pool()) ==>
                l.status == if l in reqLines || l in old(HitLines(reqVolumes.Values, only)) then CancelOf(old(l.status))
                            else old(l.status)
    {
      CancelVolumes(reqVolumes, only, Pool());
      CancelLines(reqLines);
    }

    /** Afterwards no line of the request and no volume is in work, and nothing is downloadable. */
    method RespondCancel()
      requires Valid()
      modifies `ready, reqVolumes.Values, Pool()
      ensures Valid() && ready
      ensures forall l :: l in reqLines ==>
                l.status !in {Unset, Processing, Ok, Warning} && l.status == CancelOf(old(l.status))
      ensures forall l :: l in old(Pool()) && l !in reqLines ==>
                l.status == if l in old(HitLines(reqVolumes.Values, false)) then CancelOf(old(l.status))
                            else old(l.status)
      ensures forall v :: v in reqVolumes.Values ==>
                && v.lines == old(v.lines) && v.status == CancelOf(old(v.status))
                && v.status !in {Unset, Processing, Ok, Warning}
    {
      CancelParts(false);
      ready := true;
    }

    /** Afterwards no line of the request and no volume is in work; what could be downloaded
        before can be downloaded still, although its lines are cancelled. */
    method RespondError()
      requires Valid()
      modifies `ready, `error, reqVolumes.Values, Pool()
      ensures Valid() && ready && error
      ensures forall l :: l in reqLines ==>
                l.status !in {Unset, Processing, Ok, Warning} && l.status == CancelOf(old(l.status))
      ensures forall l :: l in old(Pool()) && l !in reqLines ==>
                l.status == if l in old(HitLines(reqVolumes.Values, true)) then CancelOf(old(l.status))
                            else old(l.status)
      ensures forall v :: v in reqVolumes.Values ==>
                v.lines == old(v.lines)
                && v.status == (if old(v.status) == Processing then Cancelled else old(v.status))
                && (v.status in {Ok, Warning} <==> old(v.status) in {Ok, Warning})
    {
      CancelParts(true);
      ready := true;
      error := true;
    }

    /** STATUS LINE n PROCESSING volume: the line goes to the volume, which is made if need be. */
    method RespondProcessing(n: nat, vol: string)
      requires Valid() && n < |reqLines|
      modifies `reqVolumes, reqLines[n], VolumeAt(vol)
      ensures Valid() && reqLines[n].Get() == old(reqLines[n].Get()).(status := Processing)
      ensures vol in reqVolumes && reqVolumes.Keys == old(reqVolumes.Keys) + {vol}
      ensures forall id :: id in old(reqVolumes) ==>
                reqVolumes[id] == old(reqVolumes[id]) && reqVolumes[id].Get() == old(reqVolumes[id].Get())
      ensures forall id :: id in old(reqVolumes) && id != vol ==> reqVolumes[id].lines == old(reqVolumes[id].lines)
      ensures fresh(reqVolumes.Values - old(reqVolumes.Values)) && Pool() <= old(Pool())
      ensures if vol in old(reqVolumes) then
                reqVolumes[vol].lines == old(reqVolumes[vol].lines) + [reqLines[n]]
              else
                && fresh(reqVolumes[vol]) && reqVolumes[vol].lines == [reqLines[n]]
                && reqVolumes[vol].status == Processing
    {
      var v := VolumeFor(vol);
      AssignLine(n, v);
    }

    /** The line is in work, in this volume. */
    method AssignLine(n: nat, v: RequestVolume)
      requires Valid() && n < |reqLines| && v in reqVolumes.Values
      modifies reqLines[n], v`lines
      ensures Valid() && Pool() <= old(Pool())
      ensures reqLines[n].Get() == old(reqLines[n].Get()).(status := Processing)
      ensures v.lines == old(v.lines) + [reqLines[n]]
    {
      reqLines[n].status := Processing;
      v.AddLine(reqLines[n]);
    }

    /** The volume with this id, which is made if there is none. */
    method VolumeFor(vol: string) returns (v: RequestVolume)
      requires Valid()
      modifies `reqVolumes
      ensures Valid() && reqVolumes == old(reqVolumes)[vol := v] && reqVolumes.Keys == old(reqVolumes.Keys) + {vol}
      ensures fresh(reqVolumes.Values - old(reqVolumes.Values))
      ensures vol in old(reqVolumes) ==> v == old(reqVolumes[vol])
      ensures vol !in old(reqVolumes) ==> fresh(v) && v.lines == [] && v.status == Processing
      ensures Pool() <= old(Pool())
    {
      if vol in reqVolumes {
        v := reqVolumes[vol];
      } else {
        v := new RequestVolume(vol);
        v.status := Processing;
        reqVolumes := reqVolumes[vol := v];
      }
    }

    method CancelVolume(id: string)
      requires Valid() && id in reqVolumes
      modifies reqVolumes[id], reqVolumes[id].lines
      ensures Valid() && reqVolumes[id].lines == old(reqVolumes[id].lines)
      ensures reqVolumes[id].Get() == CancelData(old(reqVolumes[id].Get()))
      ensures forall l :: l in reqVolumes[id].lines ==>
                l.Get() == if Cancellable(old(reqVolumes[id].status)) then CancelData(old(l.Get())) else old(l.Get())
    {
      reqVolumes[id].Cancel();
    }

    method SetLine(n: nat, change: Change)
      requires Valid() && n < |reqLines|
      modifies reqLines[n]
      ensures Valid() && reqLines[n].Get() == Changed(old(reqLines[n].Get()), change)
      ensures reqLines[n].status == if change.To? then change.status else old(reqLines[n].status)
      ensures reqLines[n].message == if change.Msg? then change.text else old(reqLines[n].message)
      ensures reqLines[n].size == if change.Size? then change.n else old(reqLines[n].size)
    {
      match change
      case To(s) => reqLines[n].status := s;
      case Msg(text) => reqLines[n].message := text;
      case Size(k) => reqLines[n].size := k;
    }

    method SetVolume(id: string, change: Change)
      requires Valid() && id in reqVolumes
      modifies reqVolumes[id]
      ensures Valid() && reqVolumes[id].lines == old(reqVolumes[id].lines)
      ensures reqVolumes[id].Get() == Changed(old(reqVolumes[id].Get()), change)
      ensures reqVolumes[id].status == if change.To? then change.status else old(reqVolumes[id].status)
      ensures reqVolumes[id].message == if change.Msg? then change.text else old(reqVolumes[id].message)
      ensures reqVolumes[id].size == if change.Size? then change.n else old(reqVolumes[id].size)
    {
      var v := reqVolumes[id];
      match change
      case To(s) => v.status := s;
      case Msg(text) => v.message := text;
      case Size(k) => v.size := k;
    }

    predicate StatusAccepted(r: StatusResponse)
      reads this
    {
      match r
      case LineProcessing(n, _) => n < |reqLines|
      case LineCancel(n) => n < |reqLines|
      case LineSet(n, _) => n < |reqLines|
      case VolumeCancel(id) => id in reqVolumes
      case VolumeSet(id, _) => id in reqVolumes
    }

    ghost function VolumeAt(id: string): set<RequestVolume>
      reads this
    {
      if id in reqVolumes then {reqVolumes[id]} else {}
    }

    /** The volume that a STATUS response may change, and the lines. */
    ghost function TouchedVolumes(r: StatusResponse): set<RequestVolume>
      reads this
    {
      match r
      case LineProcessing(_, vol) => VolumeAt(vol)
      case VolumeCancel(id) => VolumeAt(id)
      case VolumeSet(id, _) => VolumeAt(id)
      case _ => {}
    }

    ghost function TouchedLines(r: StatusResponse): set<RequestLine>
      reads this, VolumeAt(if r.VolumeCancel? then r.id else "")
    {
      match r
      case LineProcessing(n, _) => if n < |reqLines| then {reqLines[n]} else {}
      case LineCancel(n) => if n < |reqLines| then {reqLines[n]} else {}
      case LineSet(n, _) => if n < |reqLines| then {reqLines[n]} else {}
      case VolumeCancel(id) => if id in reqVolumes then set l | l in reqVolumes[id].lines else {}
      case VolumeSet(_, _) => {}
    }

    /** response_STATUS(): accepted is false where the code throws. Nothing else than the line or the
        volume, with its lines, is changed. */
    method RespondStatus(r: StatusResponse) returns (accepted: bool)
      requires Valid()
      modifies `reqVolumes, TouchedVolumes(r), TouchedLines(r)
      ensures Valid() && accepted == old(StatusAccepted(r))
      ensures r.LineProcessing? || r.LineCancel? || r.LineSet? ==> (accepted <==> r.ln < |reqLines|)
      ensures r.VolumeCancel? || r.VolumeSet? ==> (accepted <==> r.id in old(reqVolumes))
      ensures fresh(reqVolumes.Values - old(reqVolumes.Values)) && Pool() <= old(Pool())
      ensures !r.LineProcessing? || !accepted ==> reqVolumes == old(reqVolumes)
      ensures accepted && r.LineProcessing? ==>
                && r.vol in reqVolumes && reqVolumes.Keys == old(reqVolumes.Keys) + {r.vol}
                && (forall id :: id in old(reqVolumes) ==> reqVolumes[id] == old(reqVolumes[id]))
                && reqLines[r.ln].Get() == old(reqLines[r.ln].Get()).(status := Processing)
      ensures accepted && r.LineProcessing? ==>
                if r.vol in old(reqVolumes) then
                  && reqVolumes[r.vol].lines == old(reqVolumes[r.vol].lines) + [reqLines[r.ln]]
                  && reqVolumes[r.vol].Get() == old(reqVolumes[r.vol].Get())
                else reqVolumes[r.vol].lines == [reqLines[r.ln]] && reqVolumes[r.vol].status == Processing
      ensures accepted && r.LineCancel? ==> reqLines[r.ln].Get() == CancelData(old(reqLines[r.ln].Get()))
      ensures accepted && r.LineSet? ==> reqLines[r.ln].Get() == Changed(old(reqLines[r.ln].Get()), r.change)
      ensures accepted && r.LineSet? && r.change.To? ==> reqLines[r.ln].status == r.change.status
      ensures accepted && (r.VolumeCancel? || r.VolumeSet?) ==>
                reqVolumes[r.id].lines == old(reqVolumes[r.id].lines)
      ensures accepted && r.VolumeCancel? ==> reqVolumes[r.id].Get() == CancelData(old(reqVolumes[r.id].Get()))
      ensures accepted && r.VolumeCancel? ==> forall l :: l in old(reqVolumes[r.id].lines) ==>
                l.Get() == if Cancellable(old(reqVolumes[r.id].status)) then CancelData(old(l.Get())) else old(l.Get())
      ensures accepted && r.VolumeSet? ==> reqVolumes[r.id].Get() == Changed(old(reqVolumes[r.id].Get()), r.change)
      ensures accepted && r.VolumeSet? && r.change.To? ==> reqVolumes[r.id].status == r.change.status
    {
      if !StatusAccepted(r) {
        return false;
      }
      match r {
        case LineProcessing(n, vol) => RespondProcessing(n, vol);
        case LineCancel(n) => reqLines[n].Cancel();
        case LineSet(n, change) => SetLine(n, change);
        case VolumeCancel(id) => CancelVolume(id);
        case VolumeSet(id, change) => SetVolume(id, change);
      }
      return true;
    }

    /** response(): accepted is false where the code throws. A STATUS response changes what it is about,
        CANCEL and ERROR whatever belongs to the request, the others none of its parts. */
    method Respond(r: Response) returns (accepted: bool)
      requires Valid()
      modifies `ready, `error, `restricted, `reqMessage, `reqVolumes, VolumesFor(r), LinesFor(r)
      ensures Valid() && fresh(reqVolumes.Values - old(reqVolumes.Values)) && Pool() <= old(Pool())
      ensures !r.Status? ==> (accepted <==> !r.Malformed?)
      ensures r.Status? && (r.r.LineProcessing? || r.r.LineCancel? || r.r.LineSet?) ==>
                (accepted <==> r.r.ln < |reqLines|)
      ensures r.Status? && (r.r.VolumeCancel? || r.r.VolumeSet?) ==> (accepted <==> r.r.id in old(reqVolumes))
      ensures r.Status? && accepted && r.r.LineProcessing? ==>
                && r.r.vol in reqVolumes && reqLines[r.r.ln] in reqVolumes[r.r.vol].lines
                && reqLines[r.r.ln].status == Processing
      ensures r.Status? && accepted && r.r.LineCancel? ==>
                reqLines[r.r.ln].Get() == CancelData(old(reqLines[r.r.ln].Get()))
      ensures r.Status? && accepted && r.r.LineSet? ==>
                reqLines[r.r.ln].Get() == Changed(old(reqLines[r.r.ln].Get()), r.r.change)
      ensures r.Status? && accepted && r.r.VolumeCancel? ==>
                r.r.id in reqVolumes && reqVolumes[r.r.id].Get() == CancelData(old(reqVolumes[r.r.id].Get()))
      ensures r.Status? && accepted && r.r.VolumeSet? ==>
                r.r.id in reqVolumes && reqVolumes[r.r.id].Get() == Changed(old(reqVolumes[r.r.id].Get()), r.r.change)
      ensures !r.Status? ==> reqVolumes == old(reqVolumes)
      ensures r.CancelAll? || r.ErrorAll? ==>
                forall l :: l in reqLines ==>
                  l.status !in {Unset, Processing, Ok, Warning} && l.status == CancelOf(old(l.status))
      ensures r.CancelAll? ==> forall v :: v in reqVolumes.Values ==>
                v.status !in {Unset, Processing, Ok, Warning} && v.status == CancelOf(old(v.status))
      ensures r.ErrorAll? ==> forall v :: v in reqVolumes.Values ==>
                v.status == if old(v.status) == Processing then Cancelled else old(v.status)
      ensures ready <==> old(ready) || r.CancelAll? || r.ErrorAll? || r.End?
      ensures error <==> old(error) || r.ErrorAll?
      ensures restricted <==> old(restricted) || r.Restricted?
      ensures reqMessage == if r.Message? then r.text else old(reqMessage)
    {
      if r.Status? {
        accepted := RespondStatus(r.r);
      } else {
        accepted := RespondRequest(r);
      }
    }

    /** The responses that are about the request as a whole. */
    method RespondRequest(r: Response) returns (accepted: bool)
      requires Valid() && !r.Status?
      modifies `ready, `error, `restricted, `reqMessage, VolumesFor(r), LinesFor(r)
      ensures Valid() && (accepted <==> !r.Malformed?)
      ensures r.CancelAll? || r.ErrorAll? ==>
                forall l :: l in reqLines ==>
                  l.status !in {Unset, Processing, Ok, Warning} && l.status == CancelOf(old(l.status))
      ensures forall v :: v in reqVolumes.Values ==> v.lines == old(v.lines)
      ensures r.CancelAll? ==> forall v :: v in reqVolumes.Values ==>
                v.status !in {Unset, Processing, Ok, Warning} && v.status == CancelOf(old(v.status))
      ensures r.ErrorAll? ==> forall v :: v in reqVolumes.Values ==>
                v.status == if old(v.status) == Processing then Cancelled else old(v.status)
      ensures ready <==> old(ready) || r.CancelAll? || r.ErrorAll? || r.End?
      ensures error <==> old(error) || r.ErrorAll?
      ensures restricted <==> old(restricted) || r.Restricted?
      ensures reqMessage == if r.Message? then r.text else old(reqMessage)
    {
      accepted := true;
      match r
      case CancelAll => RespondCancel();
      case Message(text) => reqMessage := text;
      case ErrorAll => RespondError();
      case Restricted => restricted := true;
      case End => ready := true;
      case Malformed => accepted := false;
    }

    /** What a response may change. */
    ghost function VolumesFor(r: Response): (vs: set<RequestVolume>)
      reads this
      ensures vs <= reqVolumes.Values
    {
      if r.CancelAll? || r.ErrorAll? then reqVolumes.Values else if r.Status? then TouchedVolumes(r.r) else {}
    }

    ghost function LinesFor(r: Response): (ls: set<RequestLine>)
      reads this, reqVolumes.Values
      ensures ls <= Pool()
    {
      if r.CancelAll? || r.ErrorAll? then Pool() else if r.Status? then TouchedLines(r.r) else {}
    }

    /** reset(): all lines are new again, and there are no volumes. */
    method Reset()
      requires Valid()
      modifies `reqVolumes, reqLines
      ensures Valid() && reqVolumes == map[]
      ensures forall l :: l in reqLines ==> l.status == Unset && l.size == 0 && l.message == ""
    {
      var p := 0;
      while p < |reqLines|
        invariant p <= |reqLines|
        invariant forall l :: l in reqLines[..p] ==> l.status == Unset && l.size == 0 && l.message == ""
      {
        var ln := reqLines[p];
        ln.status, ln.size, ln.message := Unset, 0, "";
        assert reqLines[..p + 1] == reqLines[..p] + [ln];
        p := p + 1;
      }
      reqVolumes := map[];
      assert reqLines[..p] == reqLines;
    }

    /** Once ready, a request stays ready, whatever its handlers answer and however often they
        are restarted; its lines and its content never change. Before that it becomes ready
        exactly when a handler ends, cancels or fails it. */
    method RunHandlers(events: seq<Event>)
      requires Valid()
      modifies this, reqVolumes.Values, Pool()
      ensures Valid() && reqLines == old(reqLines) && content == old(content)
      ensures ready <==> old(ready) || exists e :: e in events && e.Answer?
                                        && (e.r.CancelAll? || e.r.ErrorAll? || e.r.End?)
    {
      var i := 0;
      while i < |events|
        invariant i <= |events| && Valid() && reqLines == old(reqLines) && content == old(content)
        invariant fresh(reqVolumes.Values - old(reqVolumes.Values)) && Pool() <= old(Pool())
        invariant ready <==> old(ready) || exists e :: e in events[..i] && e.Answer?
                                            && (e.r.CancelAll? || e.r.ErrorAll? || e.r.End?)
      {
        var e := events[i];
        match e {
          case Answer(r) => var accepted := Respond(r);
          case Restart => Reset();
        }
        assert events[..i + 1] == events[..i] + [e];
        i := i + 1;
      }
      assert events[..i] == events;
    }

    /** restore_volume(): only a finished volume becomes a volume of the request again. */
    method RestoreVolume(id: string, status: Status, size: nat, message: string)
      requires Valid() && !closed
      modifies `restoredVolume, `reqVolumes
      ensures Valid() && fresh(restoredVolume)
      ensures restoredVolume.id == id && restoredVolume.status == status && restoredVolume.size == size
      ensures restoredVolume.message == message && restoredVolume.lines == []
      ensures reqVolumes ==
              if status != Unset && status != Processing then old(reqVolumes)[id := restoredVolume]
              else old(reqVolumes)
    {
      var v := new RequestVolume(id);
      v.status, v.size, v.message := status, size, message;
      restoredVolume := v;
      if status != Unset && status != Processing {
        reqVolumes := reqVolumes[id := v];
      }
    }

    /** restore_line(): a line of an unfinished volume becomes a line of the request again. */
    method RestoreLine(ref: string, status: Status, size: nat, message: string) returns (line: RequestLine)
      requires Valid() && !closed && restoredVolume != null
      modifies `content, `reqLines, restoredVolume`lines
      ensures Valid() && fresh(line)
      ensures line.ref == ref && line.status == status && line.size == size && line.message == message
      ensures restoredVolume.lines == old(restoredVolume.lines) + [line]
      ensures reqLines ==
              if restoredVolume.status == Unset || restoredVolume.status == Processing then old(reqLines) + [line]
              else old(reqLines)
    {
      line := new RequestLine(ref);
      line.status, line.size, line.message := status, size, message;
      restoredVolume.AddLine(line);
      if restoredVolume.status == Unset || restoredVolume.status == Processing {
        content := content + [ref];
        reqLines := reqLines + [line];
        assert Refs(reqLines) == Refs(old(reqLines)) + [ref];
      }
    }

    method RestoreEnd()
      requires Valid() && !closed
      modifies `content, `closed
      ensures Valid() && closed && content == old(content) + ["END"]
    {
      content := content + ["END"];
      closed := true;
    }
  }

  datatype Event = Answer(r: Response) | Restart

  /** Entry n of the body is the text of line n. */
  lemma LineNumbers(r: Request, n: nat)
    requires r.Valid() && n < |r.reqLines|
    ensures |r.header| + n < |r.content| && r.content[|r.header| + n] == r.reqLines[n].ref
  {
    assert Refs(r.reqLines)[n] == r.reqLines[n].ref;
  }

  /** Behind the header, every entry of the content but the END of a closed request is a line, and a
      handler that got these entries may report on the line of each one, to the last. */
  lemma EveryLineMayBeReported(r: Request, k: nat, sr: StatusResponse)
    requires r.Valid() && |r.header| <= k < |r.content| - (if r.closed then 1 else 0)
    requires sr.LineProcessing? || sr.LineCancel? || sr.LineSet?
    requires sr.ln == k - |r.header|
    ensures r.StatusAccepted(sr)
    ensures sr.ln < |r.reqLines| && r.content[k] == r.reqLines[sr.ln].ref
  {
    LineNumbers(r, sr.ln);
  }
}
