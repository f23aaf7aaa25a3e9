/** The write loops of the utility library. What the kernel does on each call is an input: it may
    take any non-empty part of the bytes, be interrupted, fail, accept nothing, or time out. */
module Writing {

  datatype WriteEvent = Interrupted | Failed | Nothing | TimedOut | Wrote(k: nat)

  /** Some call ends the writing early. */
  ghost predicate Fails(events: seq<WriteEvent>) {
    exists e :: e in events && (e.Failed? || e.Nothing? || e.TimedOut?)
  }

  /** r is the return value; sent are the bytes that reached the descriptor. */
  ghost predicate WriteResult(bytes: string, r: int, sent: string) {
    && sent <= bytes
    && (r > 0 ==> r == |bytes| && sent == bytes)
    && (r <= 0 && bytes != "" ==> |sent| < |bytes|)
    && (bytes == "" ==> r == 0)
  }

  /** writen(): no time-out; interrupted calls are repeated. When there are no more events, the rest
      is written in one call. */
  method Writen(bytes: string, events: seq<WriteEvent>) returns (r: int, sent: string)
    requires forall e :: e in events ==> !e.TimedOut?
    ensures WriteResult(bytes, r, sent) && (r <= 0 && bytes != "" ==> Fails(events))
  {
    r, sent := WriteLoop(bytes, events);
  }

  /** writen_tmo(): each turn first waits for the descriptor; a time-out ends with 0. */
  method WritenTmo(bytes: string, events: seq<WriteEvent>) returns (r: int, sent: string)
    ensures WriteResult(bytes, r, sent) && (r <= 0 && bytes != "" ==> Fails(events))
  {
    r, sent := WriteLoop(bytes, events);
  }

  method WriteLoop(bytes: string, events: seq<WriteEvent>) returns (r: int, sent: string)
    ensures WriteResult(bytes, r, sent) && (r <= 0 && bytes != "" ==> Fails(events))
  {
    var nleft, i := |bytes|, 0;
    while nleft > 0
      invariant 0 <= nleft <= |bytes| && i <= |events|
      invariant bytes != "" && i == 0 ==> nleft == |bytes|
      decreases |events| - i
    {
      if i == |events| {
        return |bytes|, bytes;
      }
      var e := events[i];
      assert e in events;
      i := i + 1;
      match e
      case Interrupted => continue;
      case Failed => return -1, bytes[..|bytes| - nleft];
      case Nothing => return 0, bytes[..|bytes| - nleft];
      case TimedOut => return 0, bytes[..|bytes| - nleft];
      case Wrote(k) =>
        var n := if 0 < k <= nleft then k else nleft;
        nleft := nleft - n;
    }
    assert bytes[..|bytes|] == bytes;
    return |bytes|, bytes;
  }
}
