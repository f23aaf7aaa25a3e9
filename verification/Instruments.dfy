/** Removing instruments and responses that no stream of the inventory uses any more. */
module Instruments {

  type Id = string

  datatype Stream = Stream(sensor: Id, datalogger: Id)
  datatype Sensor = Sensor(publicID: Id, response: Id)
  datatype Decimation = Decimation(analogueFilterChain: string, digitalFilterChain: string)
  datatype Datalogger = Datalogger(publicID: Id, decimation: seq<Decimation>)

  /** Sensors, dataloggers and responses are kept under their names; a response is its public id. */
  datatype Content = Content(
    sensor: map<string, Sensor>, datalogger: map<string, Datalogger>,
    paz: map<string, Id>, polynomial: map<string, Id>, fir: map<string, Id>, iir: map<string, Id>)

  // ---------------------------------------------------------------------------
  // Filter chains
  // ---------------------------------------------------------------------------

  /** chain.split(" "). */
  function Split(chain: string): (r: seq<string>)
    ensures r != []
  {
    if chain == [] then [""]
    else if chain[0] == ' ' then [""] + Split(chain[1..])
    else
      var rest := Split(chain[1..]);
      [[chain[0]] + rest[0]] + rest[1..]
  }

  function Join(words: seq<string>): string
    requires words != []
  {
    if |words| == 1 then words[0] else words[0] + " " + Join(words[1..])
  }

  /** The ids of a chain are what is between its spaces. */
  lemma {:induction false} SplitJoin(chain: string)
    ensures Join(Split(chain)) == chain
    ensures forall w :: w in Split(chain) ==> ' ' !in w
  {
    if chain != [] {
      SplitJoin(chain[1..]);
      var rest := Split(chain[1..]);
      if chain[0] == ' ' {
        assert Split(chain)[1..] == rest;
      } else {
        assert Split(chain)[1..] == rest[1..];
        assert [chain[0]] + Join(rest) == chain;
      }
    }
  }

  /** Words without spaces come out of the chain they are joined to as they went in, the first and the
      last included. */
  lemma {:induction false} JoinSplit(words: seq<string>)
    requires words != [] && forall w :: w in words ==> ' ' !in w
    ensures Split(Join(words)) == words
  {
    assert words[0] in words;
    if |words| == 1 {
      SplitWord(words[0]);
    } else {
      JoinSplit(words[1..]);
      SplitFirst(words[0], Join(words[1..]));
    }
  }

  lemma {:induction false} SplitWord(w: string)
    requires ' ' !in w
    ensures Split(w) == [w]
  {
    if w != "" {
      assert w[0] in w && ' ' !in w[1..];
      SplitWord(w[1..]);
      assert [w[0]] + w[1..] == w;
    }
  }

  lemma {:induction false} SplitFirst(w: string, rest: string)
    requires ' ' !in w
    ensures Split(w + " " + rest) == [w] + Split(rest)
  {
    var s := w + " " + rest;
    if w == "" {
      assert s[1..] == rest;
    } else {
      assert w[0] in w && ' ' !in w[1..] && s[1..] == w[1..] + " " + rest;
      SplitFirst(w[1..], rest);
      assert [w[0]] + w[1..] == w;
    }
  }

  /** A decimation has all filters of its two chains, and no others. */
  lemma FiltersAreWords(d: Decimation, analogue: seq<string>, digital: seq<string>, id: Id)
    requires analogue != [] && digital != []
    requires (forall w :: w in analogue ==> ' ' !in w && w != "") && (forall w :: w in digital ==> ' ' !in w && w != "")
    requires d == Decimation(Join(analogue), Join(digital))
    ensures Filters(d, id) <==> id in analogue || id in digital
    ensures !Filters(Decimation("", ""), id)
  {
    JoinSplit(analogue);
    JoinSplit(digital);
    assert analogue[0] in analogue && digital[0] in digital;
  }

  function Chain(chain: string): seq<Id> {
    if chain == "" then [] else Split(chain)
  }

  predicate Filters(d: Decimation, id: Id) {
    id in Chain(d.analogueFilterChain) || id in Chain(d.digitalFilterChain)
  }

  // ---------------------------------------------------------------------------
  // What is in use
  // ---------------------------------------------------------------------------

  /** A stream's two references are not told apart. */
  predicate Names(st: Stream, id: Id) {
    st.sensor == id || st.datalogger == id
  }

  predicate InUse(streams: seq<Stream>, id: Id) {
    exists st :: st in streams && Names(st, id)
  }

  /** The public ids that the streams name. */
  function UsedIds(streams: seq<Stream>): set<Id> {
    if streams == [] then {}
    else UsedIds(streams[..|streams| - 1]) + {streams[|streams| - 1].sensor, streams[|streams| - 1].datalogger}
  }

  lemma {:induction false} UsedIdsInUse(streams: seq<Stream>, id: Id)
    ensures id in UsedIds(streams) <==> InUse(streams, id)
  {
    if streams != [] {
      var n := |streams| - 1;
      assert streams == streams[..n] + [streams[n]];
      UsedIdsInUse(streams[..n], id);
      if InUse(streams[..n], id) {
        var st :| st in streams[..n] && Names(st, id);
        assert st in streams;
      }
      if Names(streams[n], id) {
        assert streams[n] in streams;
      }
    }
  }

  predicate HasFilter(d: Datalogger, id: Id) {
    exists x :: x in d.decimation && Filters(x, id)
  }

  function ChainIds(d: Decimation): (r: set<Id>)
    ensures forall id :: id in r <==> Filters(d, id)
  {
    (set w | w in Chain(d.analogueFilterChain)) + (set w | w in Chain(d.digitalFilterChain))
  }

  function FilterIds(ds: seq<Decimation>): (r: set<Id>)
    ensures forall id :: id in r <==> exists x :: x in ds && Filters(x, id)
  {
    if ds == [] then {}
    else
      var n := |ds| - 1;
      assert ds == ds[..n] + [ds[n]];
      FilterIds(ds[..n]) + ChainIds(ds[n])
  }

  /** The responses of the sensors in use. */
  function ViaSensor(streams: seq<Stream>, sensor: map<string, Sensor>): set<Id> {
    set n | n in sensor && InUse(streams, sensor[n].publicID) :: sensor[n].response
  }

  /** The ids in the filter chains of the dataloggers in use. */
  function ViaDatalogger(streams: seq<Stream>, datalogger: map<string, Datalogger>): set<Id> {
    set n, id |
      n in datalogger && InUse(streams, datalogger[n].publicID) && id in FilterIds(datalogger[n].decimation) :: id
  }

  lemma OneMore(streams: seq<Stream>, items: map<string, Datalogger>, todo: set<string>, name: string)
    requires name in todo && todo <= items.Keys
    ensures ViaDatalogger(streams, items - (todo - {name})) ==
            if InUse(streams, items[name].publicID)
            then ViaDatalogger(streams, items - todo) + FilterIds(items[name].decimation)
            else ViaDatalogger(streams, items - todo)
  {
    var a, b := items - todo, items - (todo - {name});
    assert b == a[name := items[name]];
    forall id | id in ViaDatalogger(streams, a) ensures id in ViaDatalogger(streams, b) {
      var n :| n in a && InUse(streams, a[n].publicID) && id in FilterIds(a[n].decimation);
      assert n in b;
    }
    if InUse(streams, items[name].publicID) {
      forall id | id in FilterIds(items[name].decimation) ensures id in ViaDatalogger(streams, b) {
        assert name in b && b[name] == items[name];
      }
    }
  }

  ghost predicate Either(st: Stream, id: Id) {
    id in {st.sensor, st.datalogger}
  }

  /** A sensor or a datalogger stays, as it is, if and only if some stream names it, in either place. */
  lemma InstrumentStays(streams: seq<Stream>, c: Content, n: string)
    ensures n in Cleaned(streams, c).sensor <==>
            n in c.sensor && exists st :: st in streams && Either(st, c.sensor[n].publicID)
    ensures n in Cleaned(streams, c).datalogger <==>
            n in c.datalogger && exists st :: st in streams && Either(st, c.datalogger[n].publicID)
    ensures n in Cleaned(streams, c).sensor ==> Cleaned(streams, c).sensor[n] == c.sensor[n]
    ensures n in Cleaned(streams, c).datalogger ==> Cleaned(streams, c).datalogger[n] == c.datalogger[n]
  {
    if n in c.sensor {
      NamedIsInUse(streams, c.sensor[n].publicID);
    }
    if n in c.datalogger {
      NamedIsInUse(streams, c.datalogger[n].publicID);
    }
  }

  lemma NamedIsInUse(streams: seq<Stream>, id: Id)
    ensures InUse(streams, id) <==> exists st :: st in streams && Either(st, id)
  {
    if InUse(streams, id) {
      var st :| st in streams && Names(st, id);
      assert Either(st, id);
    }
    if st :| st in streams && Either(st, id) {
      assert Names(st, id);
    }
  }

  /** What is left: of each kind, what a stream reaches through the links that count for it. */
  function Cleaned(streams: seq<Stream>, c: Content): Content {
    var s, d := ViaSensor(streams, c.sensor), ViaDatalogger(streams, c.datalogger);
    Content(UsedSensors(streams, c.sensor), UsedDataloggers(streams, c.datalogger),
            Left(c.paz, s + d), Left(c.polynomial, s), Left(c.fir, d), Left(c.iir, s + d))
  }

  function UsedSensors(streams: seq<Stream>, sensor: map<string, Sensor>): map<string, Sensor> {
    map n | n in sensor && InUse(streams, sensor[n].publicID) :: sensor[n]
  }

  function UsedDataloggers(streams: seq<Stream>, datalogger: map<string, Datalogger>): map<string, Datalogger> {
    map n | n in datalogger && InUse(streams, datalogger[n].publicID) :: datalogger[n]
  }

  function Left(items: map<string, Id>, used: set<Id>): map<string, Id> {
    map n | n in items && items[n] in used :: items[n]
  }

  /** The links are the same after the cleanup as before. */
  lemma LinksKept(streams: seq<Stream>, c: Content)
    ensures ViaSensor(streams, UsedSensors(streams, c.sensor)) == ViaSensor(streams, c.sensor)
    ensures ViaDatalogger(streams, UsedDataloggers(streams, c.datalogger)) == ViaDatalogger(streams, c.datalogger)
  {
    var s, d := UsedSensors(streams, c.sensor), UsedDataloggers(streams, c.datalogger);
    forall id | id in ViaSensor(streams, c.sensor) ensures id in ViaSensor(streams, s) {
      var n :| n in c.sensor && InUse(streams, c.sensor[n].publicID) && c.sensor[n].response == id;
      assert n in s && s[n].response == id;
    }
    forall id | id in ViaDatalogger(streams, c.datalogger) ensures id in ViaDatalogger(streams, d) {
      var n :| n in c.datalogger && InUse(streams, c.datalogger[n].publicID) &&
          id in FilterIds(c.datalogger[n].decimation);
      assert n in d && id in FilterIds(d[n].decimation);
    }
  }

  /** Cleaning a second time removes nothing. */
  lemma CleanedTwice(streams: seq<Stream>, c: Content)
    ensures Cleaned(streams, Cleaned(streams, c)) == Cleaned(streams, c)
  {
    LinksKept(streams, c);
    var s, d := ViaSensor(streams, c.sensor), ViaDatalogger(streams, c.datalogger);
    LeftTwice(c.paz, s + d);
    LeftTwice(c.polynomial, s);
    LeftTwice(c.fir, d);
    LeftTwice(c.iir, s + d);
  }

  lemma LeftTwice(items: map<string, Id>, used: set<Id>)
    ensures Left(Left(items, used), used) == Left(items, used)
  {
  }

  /** What one stream leads to: the sensor or datalogger it names, and a response of that. */
  ghost predicate Reaches(st: Stream, c: Content, id: Id, bySensor: bool) {
    if bySensor then
      exists n :: n in c.sensor && Either(st, c.sensor[n].publicID) && c.sensor[n].response == id
    else
      exists n :: n in c.datalogger && Either(st, c.datalogger[n].publicID) && HasFilter(c.datalogger[n], id)
  }

  /** A response stays if and only if some stream leads to it, through a sensor, if that counts for its
      kind, or through a datalogger, if that does. */
  lemma ResponseStays(streams: seq<Stream>, c: Content, n: string)
    ensures n in c.paz ==> (n in Cleaned(streams, c).paz <==>
              exists st, b :: st in streams && Reaches(st, c, c.paz[n], b))
    ensures n in c.iir ==> (n in Cleaned(streams, c).iir <==>
              exists st, b :: st in streams && Reaches(st, c, c.iir[n], b))
    ensures n in c.polynomial ==> (n in Cleaned(streams, c).polynomial <==>
              exists st :: st in streams && Reaches(st, c, c.polynomial[n], true))
    ensures n in c.fir ==> (n in Cleaned(streams, c).fir <==>
              exists st :: st in streams && Reaches(st, c, c.fir[n], false))
  {
    if n in c.paz { WhoReaches(streams, c, c.paz[n]); }
    if n in c.iir { WhoReaches(streams, c, c.iir[n]); }
    if n in c.polynomial { WhoReaches(streams, c, c.polynomial[n]); }
    if n in c.fir { WhoReaches(streams, c, c.fir[n]); }
  }

  lemma WhoReaches(streams: seq<Stream>, c: Content, id: Id)
    ensures id in ViaSensor(streams, c.sensor) <==> exists st :: st in streams && Reaches(st, c, id, true)
    ensures id in ViaDatalogger(streams, c.datalogger) <==> exists st :: st in streams && Reaches(st, c, id, false)
  {
    if id in ViaSensor(streams, c.sensor) {
      var n :| n in c.sensor && InUse(streams, c.sensor[n].publicID) && c.sensor[n].response == id;
      var st :| st in streams && Names(st, c.sensor[n].publicID);
      assert Reaches(st, c, id, true);
    }
    if id in ViaDatalogger(streams, c.datalogger) {
      var n :| n in c.datalogger && InUse(streams, c.datalogger[n].publicID) &&
          id in FilterIds(c.datalogger[n].decimation);
      var st :| st in streams && Names(st, c.datalogger[n].publicID);
      assert Reaches(st, c, id, false);
    }
    if st :| st in streams && Reaches(st, c, id, true) {
      var n :| n in c.sensor && Names(st, c.sensor[n].publicID) && c.sensor[n].response == id;
      assert InUse(streams, c.sensor[n].publicID);
    }
    if st :| st in streams && Reaches(st, c, id, false) {
      var n :| n in c.datalogger && Names(st, c.datalogger[n].publicID) && HasFilter(c.datalogger[n], id);
      assert InUse(streams, c.datalogger[n].publicID);
      assert id in FilterIds(c.datalogger[n].decimation);
    }
  }

  // ---------------------------------------------------------------------------
  // The cleanup as a program
  // ---------------------------------------------------------------------------

  class Inventory {
    const streams: seq<Stream>
    var sensor: map<string, Sensor>
    var datalogger: map<string, Datalogger>
    var responsePAZ: map<string, Id>
    var responsePolynomial: map<string, Id>
    var responseFIR: map<string, Id>
    var responseIIR: map<string, Id>

    constructor (streams: seq<Stream>, c: Content)
      ensures this.streams == streams && View() == c
    {
      this.streams := streams;
      sensor, datalogger := c.sensor, c.datalogger;
      responsePAZ, responsePolynomial, responseFIR, responseIIR := c.paz, c.polynomial, c.fir, c.iir;
    }

    ghost function View(): Content
      reads this
    {
      Content(sensor, datalogger, responsePAZ, responsePolynomial, responseFIR, responseIIR)
    }

    method CollectUsed() returns (inst: set<Id>)
      ensures forall id :: id in inst <==> InUse(streams, id)
    {
      inst := {};
      var i := 0;
      while i < |streams|
        invariant i <= |streams|
        invariant inst == UsedIds(streams[..i])
      {
        assert streams[..i + 1][..i] == streams[..i];
        inst := inst + {streams[i].sensor, streams[i].datalogger};
        i := i + 1;
      }
      assert streams[..i] == streams;
      forall id ensures id in inst <==> InUse(streams, id) {
        UsedIdsInUse(streams, id);
      }
    }

    /** Sensors: the unused are removed; the responses of the others are collected. */
    method CleanSensors(inst: set<Id>) returns (sref: set<Id>)
      requires forall id :: id in inst <==> InUse(streams, id)
      modifies this`sensor
      ensures sensor == UsedSensors(streams, old(sensor))
      ensures sref == ViaSensor(streams, old(sensor))
    {
      sref := {};
      var items := sensor;
      var todo := items.Keys;
      while todo != {}
        invariant todo <= items.Keys
        invariant sensor == map n | n in items && (n in todo || InUse(streams, items[n].publicID)) :: items[n]
        invariant sref == set n | n in items && n !in todo && InUse(streams, items[n].publicID) :: items[n].response
        decreases todo
      {
        var name :| name in todo;
        if items[name].publicID in inst {
          sref := sref + {items[name].response};
        } else {
          sensor := sensor - {name};
        }
        todo := todo - {name};
      }
    }

    /** Dataloggers: the unused are removed; the filters of the others are collected. */
    method CleanDataloggers(inst: set<Id>) returns (dref: set<Id>)
      requires forall id :: id in inst <==> InUse(streams, id)
      modifies this`datalogger
      ensures datalogger == UsedDataloggers(streams, old(datalogger))
      ensures dref == ViaDatalogger(streams, old(datalogger))
    {
      dref := {};
      var items := datalogger;
      var todo := items.Keys;
      while todo != {}
        invariant todo <= items.Keys
        invariant datalogger == map n | n in items && (n in todo || InUse(streams, items[n].publicID)) :: items[n]
        invariant dref == ViaDatalogger(streams, items - todo)
        decreases todo
      {
        var name :| name in todo;
        if items[name].publicID in inst {
          var ids := CollectFilters(items[name]);
          dref := dref + ids;
        } else {
          datalogger := datalogger - {name};
        }
        OneMore(streams, items, todo, name);
        todo := todo - {name};
      }
      assert items - todo == items;
    }

    method CollectFilters(d: Datalogger) returns (ids: set<Id>)
      ensures ids == FilterIds(d.decimation)
    {
      ids := {};
      var i := 0;
      while i < |d.decimation|
        invariant i <= |d.decimation|
        invariant ids == FilterIds(d.decimation[..i])
      {
        var x := d.decimation[i];
        ghost var before := ids;
        assert d.decimation[..i + 1][..i] == d.decimation[..i];
        if x.analogueFilterChain != "" {
          ids := ids + set w | w in Split(x.analogueFilterChain);
        }
        if x.digitalFilterChain != "" {
          ids := ids + set w | w in Split(x.digitalFilterChain);
        }
        assert ids == before + ChainIds(x);
        i := i + 1;
      }
      assert d.decimation[..i] == d.decimation;
    }

    /** The loop over the responses of one kind. */
    static method CleanResponses(items: map<string, Id>, used: set<Id>) returns (left: map<string, Id>)
      ensures left == Left(items, used)
    {
      left := items;
      var todo := items.Keys;
      while todo != {}
        invariant todo <= items.Keys
        invariant left == map n | n in items && (n in todo || items[n] in used) :: items[n]
        decreases todo
      {
        var name :| name in todo;
        if items[name] !in used {
          left := left - {name};
        }
        todo := todo - {name};
      }
    }

    /** _cleanInstruments(). */
    method CleanInstruments()
      modifies this
      ensures View() == Cleaned(streams, old(View()))
    {
      var inst := CollectUsed();
      var sref := CleanSensors(inst);
      var dref := CleanDataloggers(inst);
      responsePAZ := CleanResponses(responsePAZ, sref + dref);
      responsePolynomial := CleanResponses(responsePolynomial, sref);
      responseFIR := CleanResponses(responseFIR, dref);
      responseIIR := CleanResponses(responseIIR, sref + dref);
    }
  }
}
