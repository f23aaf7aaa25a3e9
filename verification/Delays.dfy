/** Artificial delays for a simulated real-time feed: records are read in the order of their end
    times and handed on in the order of their delayed times. */
module Delays {

  datatype Record = Record(net: string, sta: string, endTime: int, data: seq<bv8>)
  datatype Item = Item(time: real, rec: Record)
  type DelayDict = map<string, real>

  /** The delay of the record's station, or the default delay, or none. */
  function DelayOf(delays: DelayDict, rec: Record): real {
    var station := rec.net + "." + rec.sta;
    if station in delays then delays[station]
    else if "default" in delays then delays["default"]
    else 0.0
  }

  lemma NameHasDot(net: string, sta: string)
    ensures net + "." + sta != "default"
  {
    assert (net + "." + sta)[|net|] == '.';
  }

  /** A station's own delay counts, whatever the default is; the default counts for all others. */
  lemma OwnDelayFirst(delays: DelayDict, rec: Record, x: real, y: real)
    ensures DelayOf(delays["default" := y][rec.net + "." + rec.sta := x], rec) == x
    ensures DelayOf((delays - {rec.net + "." + rec.sta})["default" := y], rec) == y
    ensures DelayOf(delays - {rec.net + "." + rec.sta, "default"}, rec) == 0.0
  {
    NameHasDot(rec.net, rec.sta);
  }

  /** No other entry counts. */
  lemma OthersDoNotCount(delays: DelayDict, rec: Record, k: string, x: real)
    requires k != rec.net + "." + rec.sta && k != "default"
    ensures DelayOf(delays[k := x], rec) == DelayOf(delays, rec)
    ensures Stamp(delays, rec).time - DelayOf(delays, rec) == rec.endTime as real && Stamp(delays, rec).rec == rec
  {
  }

  function Stamp(delays: DelayDict, rec: Record): Item {
    Item(rec.endTime as real + DelayOf(delays, rec), rec)
  }

  function StampAll(delays: DelayDict, recs: seq<Record>): seq<Item> {
    seq(|recs|, i requires 0 <= i < |recs| => Stamp(delays, recs[i]))
  }

  predicate SortedByEnd(recs: seq<Record>) {
    forall i, j :: 0 <= i < j < |recs| ==> recs[i].endTime <= recs[j].endTime
  }

  predicate SortedByTime(items: seq<Item>) {
    forall i, j :: 0 <= i < j < |items| ==> items[i].time <= items[j].time
  }

  ghost predicate NoNegativeDelay(delays: DelayDict) {
    forall k :: k in delays ==> delays[k] >= 0.0
  }

  predicate Smallest(x: Item, heap: seq<Item>) {
    forall y :: y in heap ==> x.time <= y.time
  }

  /** Removing an item with the smallest time; which one of several is not determined. */
  method HeapPop(heap: seq<Item>) returns (top: Item, rest: seq<Item>)
    requires heap != []
    ensures top in heap && Smallest(top, heap)
    ensures multiset(heap) == multiset(rest) + multiset{top} && |rest| == |heap| - 1
  {
    var at, i := 0, 1;
    while i < |heap|
      invariant at < i <= |heap| && Smallest(heap[at], heap[..i])
    {
      assert heap[..i + 1] == heap[..i] + [heap[i]];
      if heap[i].time < heap[at].time {
        at := i;
      }
      i := i + 1;
    }
    assert heap[..i] == heap;
    top, rest := heap[at], heap[..at] + heap[at + 1..];
    assert heap == heap[..at] + [top] + heap[at + 1..];
  }

  // ---------------------------------------------------------------------------
  // Facts about items in order
  // ---------------------------------------------------------------------------

  /** Everything handed on is no later than everything kept. */
  predicate Split(items: seq<Item>, kept: seq<Item>) {
    forall x, y :: x in items && y in kept ==> x.time <= y.time
  }

  lemma SortedNext(items: seq<Item>, kept: seq<Item>, top: Item)
    requires SortedByTime(items) && Split(items, kept) && top in kept
    ensures SortedByTime(items + [top])
  {
    var r := items + [top];
    forall i, j | 0 <= i < j < |r| ensures r[i].time <= r[j].time {
      assert r[i] in items;
    }
  }

  lemma SplitNext(items: seq<Item>, kept: seq<Item>, top: Item, rest: seq<Item>)
    requires Split(items, kept) && Smallest(top, kept) && multiset(kept) == multiset(rest) + multiset{top}
    ensures Split(items + [top], rest)
  {
    forall x, y | x in items + [top] && y in rest ensures x.time <= y.time {
      assert y in multiset(kept);
    }
  }

  lemma StampLast(delays: DelayDict, recs: seq<Record>, i: nat)
    requires i < |recs|
    ensures StampAll(delays, recs[..i + 1]) == StampAll(delays, recs[..i]) + [Stamp(delays, recs[i])]
  {
  }

  lemma DelayNotNegative(delays: DelayDict, rec: Record)
    requires NoNegativeDelay(delays)
    ensures Stamp(delays, rec).time >= rec.endTime as real
  {
  }

  /** What was read with the first n records and is not among the first k items handed on. */
  ghost function Held(delays: DelayDict, recs: seq<Record>, n: nat, out: seq<Item>, k: nat): multiset<Item>
    requires n <= |recs| && k <= |out|
  {
    multiset(StampAll(delays, recs[..n])) - multiset(out[..k])
  }

  /** Reading record n: the item with the smallest time that is held, if the record ends after it, is
      handed on; k and k' are the numbers of items handed on before and after. */
  ghost predicate Step(delays: DelayDict, recs: seq<Record>, out: seq<Item>, n: nat, k: nat, k': nat)
    requires n < |recs| && k <= |out|
  {
    var held := Held(delays, recs, n + 1, out, k);
    if k' == k then forall y :: y in held ==> y.time >= recs[n].endTime as real
    else
      && k' == k + 1 <= |out| && out[k] in held && (forall y :: y in held ==> out[k].time <= y.time)
      && out[k].time < recs[n].endTime as real
  }

  /** counts[n] items were handed on while the first n records were read. */
  ghost predicate HandedOn(delays: DelayDict, recs: seq<Record>, out: seq<Item>, counts: seq<nat>) {
    && 0 < |counts| <= |recs| + 1 && counts[0] == 0 && (forall n :: 0 <= n < |counts| ==> counts[n] <= |out|)
    && forall n :: 0 <= n < |counts| - 1 ==> Step(delays, recs, out, n, counts[n], counts[n + 1])
  }

  lemma StepStays(delays: DelayDict, recs: seq<Record>, out: seq<Item>, item: Item, n: nat, k: nat, k': nat)
    requires n < |recs| && k <= |out| && Step(delays, recs, out, n, k, k')
    ensures Step(delays, recs, out + [item], n, k, k')
  {
    assert (out + [item])[..k] == out[..k];
  }

  lemma HandedOnStays(delays: DelayDict, recs: seq<Record>, out: seq<Item>, counts: seq<nat>, item: Item)
    requires HandedOn(delays, recs, out, counts)
    ensures HandedOn(delays, recs, out + [item], counts)
  {
    forall n | 0 <= n < |counts| - 1 ensures Step(delays, recs, out + [item], n, counts[n], counts[n + 1]) {
      StepStays(delays, recs, out, item, n, counts[n], counts[n + 1]);
    }
  }

  lemma HandedOnNext(delays: DelayDict, recs: seq<Record>, out: seq<Item>, counts: seq<nat>, k': nat)
    requires HandedOn(delays, recs, out, counts) && |counts| <= |recs| && k' <= |out|
    requires Step(delays, recs, out, |counts| - 1, counts[|counts| - 1], k')
    ensures HandedOn(delays, recs, out, counts + [k'])
  {
    var next := counts + [k'];
    forall n | 0 <= n < |next| - 1 ensures Step(delays, recs, out, n, next[n], next[n + 1]) {
      if n < |counts| - 1 {
        assert Step(delays, recs, out, n, counts[n], counts[n + 1]);
      }
    }
  }

  /** What has been handed on ends before every record that is still to come. */
  predicate AllBefore(out: seq<Item>, recs: seq<Record>, i: nat) {
    forall x, k :: x in out && i <= k < |recs| ==> x.time < recs[k].endTime as real
  }

  /** Handed on in order, and before all that are kept and all that are to come. */
  ghost predicate InOrder(delays: DelayDict, recs: seq<Record>, out: seq<Item>, heap: seq<Item>, i: nat) {
    SortedByEnd(recs) && NoNegativeDelay(delays) ==>
      SortedByTime(out) && Split(out, heap) && AllBefore(out, recs, i)
  }

  ghost predicate Complete(delays: DelayDict, recs: seq<Record>, out: seq<Item>, heap: seq<Item>, i: nat)
    requires i <= |recs|
  {
    multiset(out) + multiset(heap) == multiset(StampAll(delays, recs[..i]))
  }

  lemma Push(delays: DelayDict, recs: seq<Record>, out: seq<Item>, heap: seq<Item>, i: nat)
    requires i < |recs| && InOrder(delays, recs, out, heap, i) && Complete(delays, recs, out, heap, i)
    ensures InOrder(delays, recs, out, heap + [Stamp(delays, recs[i])], i)
    ensures Complete(delays, recs, out, heap + [Stamp(delays, recs[i])], i + 1)
  {
    StampLast(delays, recs, i);
    if SortedByEnd(recs) && NoNegativeDelay(delays) {
      DelayNotNegative(delays, recs[i]);
      assert forall x :: x in out ==> x.time < recs[i].endTime as real;
    }
  }

  lemma Pop(delays: DelayDict, recs: seq<Record>, out: seq<Item>, heap: seq<Item>, i: nat, top: Item, rest: seq<Item>)
    requires i <= |recs| && InOrder(delays, recs, out, heap, i)
    requires top in heap && Smallest(top, heap) && multiset(heap) == multiset(rest) + multiset{top}
    requires i < |recs| ==> top.time < recs[i].endTime as real
    ensures InOrder(delays, recs, out + [top], rest, i)
  {
    if SortedByEnd(recs) && NoNegativeDelay(delays) {
      SortedNext(out, heap, top);
      SplitNext(out, heap, top, rest);
      forall k | i <= k < |recs| ensures top.time < recs[k].endTime as real {
        assert recs[i].endTime <= recs[k].endTime;
      }
    }
  }

  lemma PopComplete(delays: DelayDict, recs: seq<Record>, out: seq<Item>, heap: seq<Item>, i: nat, top: Item,
                    rest: seq<Item>)
    requires i <= |recs| && Complete(delays, recs, out, heap, i)
    requires multiset(heap) == multiset(rest) + multiset{top}
    ensures Complete(delays, recs, out + [top], rest, i)
  {
  }

  lemma OneLater(delays: DelayDict, recs: seq<Record>, out: seq<Item>, heap: seq<Item>, i: nat)
    requires InOrder(delays, recs, out, heap, i)
    ensures InOrder(delays, recs, out, heap, i + 1)
  {
  }

  /** Everything that holds after i records have been read. */
  ghost predicate After(delays: DelayDict, recs: seq<Record>, out: seq<Item>, heap: seq<Item>, counts: seq<nat>,
                        i: nat)
  {
    && i <= |recs|
    && Complete(delays, recs, out, heap, i) && InOrder(delays, recs, out, heap, i)
    && HandedOn(delays, recs, out, counts) && |counts| == i + 1 && counts[i] == |out|
  }

  /** What is held is what is in the heap. */
  lemma HeldIsHeap(delays: DelayDict, recs: seq<Record>, out: seq<Item>, heap: seq<Item>, n: nat)
    requires n <= |recs| && Complete(delays, recs, out, heap, n)
    ensures Held(delays, recs, n, out, |out|) == multiset(heap)
  {
    assert out[..|out|] == out;
  }

  lemma ReadsOnly(delays: DelayDict, recs: seq<Record>, i: nat, out: seq<Item>, heap: seq<Item>, counts: seq<nat>,
                  top: Item)
    requires After(delays, recs, out, heap, counts, i) && i < |recs|
    requires Smallest(top, heap + [Stamp(delays, recs[i])]) && top.time >= recs[i].endTime as real
    ensures After(delays, recs, out, heap + [Stamp(delays, recs[i])], counts + [|out|], i + 1)
  {
    var h := heap + [Stamp(delays, recs[i])];
    Push(delays, recs, out, heap, i);
    OneLater(delays, recs, out, h, i);
    HeldIsHeap(delays, recs, out, h, i + 1);
    assert forall y :: y in multiset(h) ==> y in h;
    HandedOnNext(delays, recs, out, counts, |out|);
  }

  lemma Reads(delays: DelayDict, recs: seq<Record>, i: nat, out: seq<Item>, heap: seq<Item>, counts: seq<nat>,
              top: Item, rest: seq<Item>)
    requires After(delays, recs, out, heap, counts, i) && i < |recs|
    requires var h := heap + [Stamp(delays, recs[i])];
             top in h && Smallest(top, h) && multiset(h) == multiset(rest) + multiset{top}
    requires top.time < recs[i].endTime as real
    ensures After(delays, recs, out + [top], rest, counts + [|out| + 1], i + 1)
  {
    Push(delays, recs, out, heap, i);
    var h := heap + [Stamp(delays, recs[i])];
    ReadsItems(delays, recs, i, out, h, top, rest);
    HandedOnStays(delays, recs, out, counts, top);
    TopIsStep(delays, recs, i, out, h, top);
    HandedOnNext(delays, recs, out + [top], counts, |out| + 1);
  }

  lemma ReadsItems(delays: DelayDict, recs: seq<Record>, i: nat, out: seq<Item>, h: seq<Item>, top: Item,
                   rest: seq<Item>)
    requires i < |recs| && Complete(delays, recs, out, h, i + 1) && InOrder(delays, recs, out, h, i)
    requires top in h && Smallest(top, h) && multiset(h) == multiset(rest) + multiset{top}
    requires top.time < recs[i].endTime as real
    ensures Complete(delays, recs, out + [top], rest, i + 1) && InOrder(delays, recs, out + [top], rest, i + 1)
  {
    Pop(delays, recs, out, h, i, top, rest);
    PopComplete(delays, recs, out, h, i + 1, top, rest);
    OneLater(delays, recs, out + [top], rest, i);
  }

  lemma TopIsStep(delays: DelayDict, recs: seq<Record>, i: nat, out: seq<Item>, h: seq<Item>, top: Item)
    requires i < |recs| && Complete(delays, recs, out, h, i + 1)
    requires top in h && Smallest(top, h) && top.time < recs[i].endTime as real
    ensures Step(delays, recs, out + [top], i, |out|, |out| + 1)
  {
    HeldIsHeap(delays, recs, out, h, i + 1);
    assert (out + [top])[..|out|] == out && out[..|out|] == out;
    assert forall y :: y in multiset(h) ==> y in h;
  }

  /** One round of the first loop. */
  method ReadOne(delays: DelayDict, recs: seq<Record>, i: nat, out: seq<Item>, heap: seq<Item>, ghost counts: seq<nat>)
    returns (out': seq<Item>, heap': seq<Item>, ghost counts': seq<nat>)
    requires After(delays, recs, out, heap, counts, i) && i < |recs|
    ensures After(delays, recs, out', heap', counts', i + 1)
  {
    var rec := recs[i];
    heap' := heap + [Stamp(delays, rec)];
    var top, rest := HeapPop(heap');
    if top.time < rec.endTime as real {
      Reads(delays, recs, i, out, heap, counts, top, rest);
      out', heap', counts' := out + [top], rest, counts + [|out| + 1];
    } else {
      ReadsOnly(delays, recs, i, out, heap, counts, top);
      out', counts' := out, counts + [|out|];
    }
  }

  /** Everything that holds in the second loop; the items from position from on are handed on by it. */
  ghost predicate Emptying(delays: DelayDict, recs: seq<Record>, out: seq<Item>, heap: seq<Item>, counts: seq<nat>,
                           from: nat)
  {
    && Complete(delays, recs, out, heap, |recs|) && InOrder(delays, recs, out, heap, |recs|)
    && HandedOn(delays, recs, out, counts) && from <= |out|
    && SortedByTime(out[from..]) && Split(out[from..], heap)
  }

  /** One round of the second loop. */
  method HandOnOne(delays: DelayDict, recs: seq<Record>, out: seq<Item>, heap: seq<Item>, ghost counts: seq<nat>,
                   ghost from: nat)
    returns (out': seq<Item>, heap': seq<Item>)
    requires heap != [] && Emptying(delays, recs, out, heap, counts, from)
    ensures Emptying(delays, recs, out', heap', counts, from) && |heap'| == |heap| - 1
  {
    var top, rest := HeapPop(heap);
    Pop(delays, recs, out, heap, |recs|, top, rest);
    PopComplete(delays, recs, out, heap, |recs|, top, rest);
    HandedOnStays(delays, recs, out, counts, top);
    SortedNext(out[from..], heap, top);
    SplitNext(out[from..], heap, top, rest);
    assert (out + [top])[from..] == out[from..] + [top];
    out', heap' := out + [top], rest;
  }

  /** The records are all handed on, each once. While there is input, each record read releases the
      earliest of those held, if it ends after that one's delayed time, and no other; the rest
      follows in order. If the input is sorted and no delay is negative, all of them are handed on in
      the order of their delayed times. */
  method ReadWithDelays(delays: DelayDict, recs: seq<Record>)
    returns (out: seq<Item>, ghost counts: seq<nat>)
    ensures multiset(out) == multiset(StampAll(delays, recs))
    ensures HandedOn(delays, recs, out, counts) && |counts| == |recs| + 1
    ensures SortedByTime(out[counts[|recs|]..])
    ensures (forall i, j :: 0 <= i < j < |recs| ==> recs[i].endTime <= recs[j].endTime)
            && (forall k :: k in delays ==> delays[k] >= 0.0) ==>
              forall i, j :: 0 <= i < j < |out| ==> out[i].time <= out[j].time
  {
    var heap: seq<Item> := [];
    out, counts := [], [0];
    var i := 0;
    BeforeReading(delays, recs);
    while i < |recs|
      invariant After(delays, recs, out, heap, counts, i)
    {
      out, heap, counts := ReadOne(delays, recs, i, out, heap, counts);
      i := i + 1;
    }
    out := HandOnRest(delays, recs, out, heap, counts);
  }

  lemma BeforeReading(delays: DelayDict, recs: seq<Record>)
    ensures After(delays, recs, [], [], [0], 0)
  {
    assert StampAll(delays, recs[..0]) == [];
  }

  /** The second loop. */
  method HandOnRest(delays: DelayDict, recs: seq<Record>, first: seq<Item>, held: seq<Item>, ghost counts: seq<nat>)
    returns (out: seq<Item>)
    requires After(delays, recs, first, held, counts, |recs|)
    ensures multiset(out) == multiset(StampAll(delays, recs))
    ensures HandedOn(delays, recs, out, counts) && SortedByTime(out[counts[|recs|]..])
    ensures SortedByEnd(recs) && NoNegativeDelay(delays) ==> SortedByTime(out)
  {
    var heap := held;
    out := first;
    assert out[|first|..] == [];
    while heap != []
      invariant Emptying(delays, recs, out, heap, counts, |first|)
      decreases |heap|
    {
      out, heap := HandOnOne(delays, recs, out, heap, counts, |first|);
    }
    assert recs[..|recs|] == recs;
  }

  /** Before the input has ended, a record is handed on only after one was read that ends after its
      delayed time, and by then it has been read itself. */
  lemma {:induction false} OnlyOvertaken(delays: DelayDict, recs: seq<Record>, out: seq<Item>, counts: seq<nat>,
                                         n: nat, p: nat)
    requires HandedOn(delays, recs, out, counts) && n < |counts| && p < counts[n]
    ensures exists i :: 0 <= i < n && counts[i] == p && p < |out|
                        && out[p] in StampAll(delays, recs[..i + 1]) && out[p].time < recs[i].endTime as real
  {
    var i := n - 1;
    assert Step(delays, recs, out, i, counts[i], counts[n]);
    if p < counts[i] {
      OnlyOvertaken(delays, recs, out, counts, i, p);
    } else {
      assert out[p] in multiset(StampAll(delays, recs[..i + 1]));
    }
  }

  /** Being sorted and having the same items fixes the order of the times: any two such outputs agree
      on them. */
  lemma {:induction false} TimesDetermined(a: seq<Item>, b: seq<Item>)
    requires SortedByTime(a) && SortedByTime(b) && multiset(a) == multiset(b)
    ensures |a| == |b| && forall k :: 0 <= k < |a| ==> a[k].time == b[k].time
  {
    assert |multiset(a)| == |a| && |multiset(b)| == |b|;
    forall k | 0 <= k < |a| ensures a[k].time == b[k].time {
      NotLater(a, b, k);
      NotLater(b, a, k);
    }
  }

  /** If the first k + 1 of a were all earlier than b[k], they would all be among the first k of b. */
  lemma NotLater(a: seq<Item>, b: seq<Item>, k: nat)
    requires SortedByTime(a) && SortedByTime(b) && multiset(a) == multiset(b)
    requires k < |a| == |b|
    ensures b[k].time <= a[k].time
  {
    var early, x := a[..k + 1], b[..k];
    assert a == early + a[k + 1..] && b == x + b[k..];
    if b[k].time > a[k].time {
      forall y ensures multiset(early)[y] <= multiset(x)[y] {
        if y in early {
          assert y !in b[k..];
          assert multiset(b)[y] == multiset(x)[y] + multiset(b[k..])[y];
          assert multiset(a)[y] == multiset(early)[y] + multiset(a[k + 1..])[y];
        }
      }
      MultisetSize(multiset(early), multiset(x));
      assert false;
    }
  }

  lemma MultisetSize(a: multiset<Item>, b: multiset<Item>)
    requires a <= b
    ensures |a| <= |b|
  {
    assert b == a + (b - a);
  }
}
