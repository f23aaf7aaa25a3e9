/** Sending things back to a client: the status document in blocks, and the volumes of a request
    as one stream of bytes. */
module Delivery {
  import opened Wrappers
  import opened Writing

  // ---------------------------------------------------------------------------
  // Blocks
  // ---------------------------------------------------------------------------

  function Flatten(bufs: seq<string>): string {
    if bufs == [] then "" else bufs[0] + Flatten(bufs[1..])
  }

  lemma {:induction false} FlattenAppend(bufs: seq<string>, b: string)
    ensures Flatten(bufs + [b]) == Flatten(bufs) + b
  {
    if bufs == [] {
      assert [b][1..] == [];
    } else {
      FlattenAppend(bufs[1..], b);
      assert (bufs + [b])[1..] == bufs[1..] + [b];
      assert bufs[0] + (Flatten(bufs[1..]) + b) == (bufs[0] + Flatten(bufs[1..])) + b;
    }
  }

  lemma Join(a: string, b: string, c: string)
    ensures a + (b + c) == (a + b) + c
  {
  }

  /** All buffers are full. */
  ghost predicate AllFull(bufs: seq<string>, size: nat) {
    forall b :: b in bufs ==> |b| == size
  }

  /** The output side of a status request: bytes are collected in buffers of bufsize bytes, and a
      buffer is queued as soon as it is full. */
  class XMLOutput {
    const bufsize: nat
    var queued: seq<string>
    var buf: array?<char>
    var pos: nat

    ghost predicate Valid()
      reads this
    {
      && bufsize > 0 && AllFull(queued, bufsize)
      && (buf != null ==> buf.Length == bufsize && 0 < pos < bufsize)
    }

    /** Everything written so far. */
    ghost function Bytes(): string
      requires Valid()
      reads this, buf
    {
      Flatten(queued) + if buf == null then "" else buf[..pos]
    }

    constructor (bufsize: nat)
      requires bufsize > 0
      ensures Valid() && Bytes() == "" && this.bufsize == bufsize && queued == []
      ensures buf == null
    {
      this.bufsize := bufsize;
      queued, buf, pos := [], null, 0;
    }

    /** memcpy of n bytes of p, from nwritten on, to the current position. */
    method Copy(dst: array<char>, at: nat, p: string, nwritten: nat, n: nat)
      requires at + n <= dst.Length && nwritten + n <= |p|
      modifies dst
      ensures dst[..at] == old(dst[..at]) && dst[at..at + n] == p[nwritten..nwritten + n]
    {
      forall i | 0 <= i < n {
        dst[at + i] := p[nwritten + i];
      }
    }

    /** Keep the filled buffer for the next bytes, or queue it when it is full. */
    method Commit(b: array<char>, at: nat)
      requires bufsize > 0 && AllFull(queued, bufsize) && b.Length == bufsize && 0 < at <= bufsize
      modifies this
      ensures Valid() && Bytes() == old(Flatten(queued)) + old(b[..at])
      ensures buf == null || buf == b
    {
      pos := at;
      if pos == bufsize {
        FlattenAppend(queued, b[..pos]);
        queued := queued + [b[..pos]];
        buf := null;
      } else {
        buf := b;
      }
    }

    /** Fill the buffer with as much of p as fits, and queue it when it is full. */
    method Fill(p: string, nwritten: nat) returns (n: nat)
      requires Valid() && nwritten < |p|
      modifies this, buf
      ensures Valid() && 0 < n <= |p| - nwritten
      ensures Bytes() == old(Bytes()) + p[nwritten..nwritten + n]
      ensures buf == null || buf == old(buf) || fresh(buf)
    {
      var b: array<char>;
      var at: nat;
      if buf == null {
        b, at := new char[bufsize], 0;
      } else {
        b, at := buf, pos;
      }
      ghost var done, before := Flatten(queued), b[..at];
      assert old(Bytes()) == done + before;
      n := if bufsize - at < |p| - nwritten then bufsize - at else |p| - nwritten;
      Copy(b, at, p, nwritten, n);
      assert b[..at + n] == before + p[nwritten..nwritten + n];
      Commit(b, at + n);
      Join(done, before, p[nwritten..nwritten + n]);
    }

    /** iowrite(). */
    method IoWrite(p: string)
      requires Valid()
      modifies this, buf
      ensures Valid() && Bytes() == old(Bytes()) + p
      ensures buf == null || buf == old(buf) || fresh(buf)
    {
      var nwritten := 0;
      while nwritten < |p|
        invariant nwritten <= |p| && Valid() && Bytes() == old(Bytes()) + p[..nwritten]
        invariant buf == null || buf == old(buf) || fresh(buf)
      {
        ghost var soFar := Bytes();
        var n := Fill(p, nwritten);
        assert p[..nwritten + n] == p[..nwritten] + p[nwritten..nwritten + n];
        nwritten := nwritten + n;
      }
      assert p[..nwritten] == p;
    }

    /** ioclose(): the last buffer may be shorter, but never empty. */
    method IoClose()
      requires Valid()
      modifies this
      ensures buf == null && Flatten(queued) == old(Bytes())
      ensures forall b :: b in queued ==> 0 < |b| <= bufsize
      ensures forall i :: 0 <= i < |queued| - 1 ==> |queued[i]| == bufsize
    {
      assert forall i :: 0 <= i < |queued| ==> queued[i] in queued;
      if buf != null {
        FlattenAppend(queued, buf[..pos]);
        queued := queued + [buf[..pos]];
        buf := null;
      }
    }
  }

  /** However the document is handed over in pieces, the queued buffers hold exactly its bytes, all
      but the last are full, and none is empty. */
  method WriteDoc(pieces: seq<string>, bufsize: nat) returns (bufs: seq<string>)
    requires bufsize > 0
    ensures Flatten(bufs) == Flatten(pieces)
    ensures forall b :: b in bufs ==> 0 < |b| <= bufsize
    ensures forall i :: 0 <= i < |bufs| - 1 ==> |bufs[i]| == bufsize
  {
    var out := new XMLOutput(bufsize);
    var i := 0;
    while i < |pieces|
      invariant i <= |pieces| && out.Valid() && fresh(out) && (out.buf != null ==> fresh(out.buf))
      invariant out.Bytes() == Flatten(pieces[..i]) && out.bufsize == bufsize
    {
      out.IoWrite(pieces[i]);
      assert pieces[..i + 1] == pieces[..i] + [pieces[i]];
      FlattenAppend(pieces[..i], pieces[i]);
      i := i + 1;
    }
    assert pieces[..i] == pieces;
    out.IoClose();
    bufs := out.queued;
  }

  // ---------------------------------------------------------------------------
  // Downloads
  // ---------------------------------------------------------------------------

  const BLOCKSIZE: nat := 512
  const END := "END\r\n"

  /** A volume of the request in order of ids; file is what opening it yields. */
  datatype Volume = Volume(id: string, downloadable: bool, size: nat, file: Option<string>)

  function Decimal(n: nat): string {
    if n < 10 then [('0' as int + n) as char] else Decimal(n / 10) + [('0' as int + n % 10) as char]
  }

  /** Request::size(): all volumes, downloadable or not. */
  function TotalSize(vols: seq<Volume>): nat {
    if vols == [] then 0 else vols[0].size + TotalSize(vols[1..])
  }

  function SizeLine(vols: seq<Volume>): string {
    Decimal(TotalSize(vols)) + "\r\n"
  }

  /** The number that digits stand for, read from left to right. */
  function Value(s: string): int {
    if s == "" then 0 else Value(s[..|s| - 1]) * 10 + (s[|s| - 1] as int - '0' as int)
  }

  /** Digits only, and no 0 in front of others. */
  ghost predicate IsNumeral(s: string) {
    s != "" && (forall i :: 0 <= i < |s| ==> '0' <= s[i] <= '9') && (|s| > 1 ==> s[0] != '0')
  }

  /** The digits of n, read from left to right, give n. */
  lemma {:induction false} DecimalIsRead(n: nat)
    ensures IsNumeral(Decimal(n)) && Value(Decimal(n)) == n
    ensures Decimal(n)[0] == '0' <==> n == 0
  {
    var d := Decimal(n);
    if n < 10 {
      assert d[..0] == "";
    } else {
      DecimalIsRead(n / 10);
      assert d[..|d| - 1] == Decimal(n / 10);
    }
  }

  /** The sum of the sizes: each volume counts once, wherever it stands. */
  lemma {:induction false} SizesAdd(a: seq<Volume>, b: seq<Volume>, v: Volume)
    ensures TotalSize([]) == 0 && TotalSize([v]) == v.size
    ensures TotalSize(a + b) == TotalSize(a) + TotalSize(b)
  {
    if a == [] {
      assert a + b == b;
    } else {
      SizesAdd(a[1..], b, v);
      assert (a + b)[1..] == a[1..] + b;
    }
  }

  /** The first line of reply is the number n in decimal digits. */
  ghost predicate Announces(reply: string, n: nat) {
    exists k :: 0 <= k <= |reply| - 2 && reply[k] == '\r' && reply[k + 1] == '\n'
             && IsNumeral(reply[..k]) && Value(reply[..k]) == n
  }

  lemma SizeIsAnnounced(vols: seq<Volume>, rest: string)
    ensures Announces(SizeLine(vols), TotalSize(vols)) && Announces(SizeLine(vols) + rest, TotalSize(vols))
  {
    var n := TotalSize(vols);
    DecimalIsRead(n);
    AnnouncedIn(Decimal(n), "", n);
    AnnouncedIn(Decimal(n), rest, n);
    assert SizeLine(vols) + "" == SizeLine(vols);
  }

  lemma AnnouncedIn(digits: string, rest: string, n: nat)
    requires IsNumeral(digits) && Value(digits) == n
    ensures Announces(digits + "\r\n" + rest, n)
  {
    var reply := digits + "\r\n" + rest;
    assert reply[..|digits|] == digits && reply[|digits|] == '\r' && reply[|digits| + 1] == '\n';
  }

  /** The first downloadable volume from position i on. */
  function NextVolume(vols: seq<Volume>, i: nat): (k: nat)
    ensures i <= |vols| ==> i <= k <= |vols|
    ensures k < |vols| ==> vols[k].downloadable
    decreases |vols| - i
  {
    if i >= |vols| then |vols| else if vols[i].downloadable then i else NextVolume(vols, i + 1)
  }

  /** The bytes of the downloadable volumes from position i on, up to the first one that cannot be
      opened. */
  function Body(vols: seq<Volume>, i: nat): string
    decreases |vols| - i
  {
    var k := NextVolume(vols, i);
    if i > |vols| || k >= |vols| || vols[k].file.None? then "" else vols[k].file.value + Body(vols, k + 1)
  }

  /** The same, followed by END. */
  function Stream(vols: seq<Volume>, i: nat): string
    decreases |vols| - i
  {
    var k := NextVolume(vols, i);
    if i > |vols| || k >= |vols| || vols[k].file.None? then END else vols[k].file.value + Stream(vols, k + 1)
  }

  lemma {:induction false} StreamIsBody(vols: seq<Volume>, i: nat)
    ensures Stream(vols, i) == Body(vols, i) + END
    decreases |vols| - i
  {
    var k := NextVolume(vols, i);
    if i <= |vols| && k < |vols| && vols[k].file.Some? {
      StreamIsBody(vols, k + 1);
      Join(vols[k].file.value, Body(vols, k + 1), END);
    }
  }

  /** How the reply to a whole-request download begins. */
  function HeadOf(vols: seq<Volume>): string {
    var k := NextVolume(vols, 0);
    if k >= |vols| || vols[k].file.None? then "ERROR\r\n" else SizeLine(vols)
  }

  /** What a whole-request download sends from the beginning. */
  function WholeReply(vols: seq<Volume>): string {
    var k := NextVolume(vols, 0);
    if k >= |vols| || vols[k].file.None? then "ERROR\r\n" else SizeLine(vols) + Stream(vols, 0)
  }

  /** The first downloadable volume can be opened. */
  ghost predicate Opens(vols: seq<Volume>) {
    NextVolume(vols, 0) < |vols| && vols[NextVolume(vols, 0)].file.Some?
  }

  /** If the first downloadable volume can be opened, the first line of the reply is the sum of the
      sizes of all volumes. */
  lemma ReplyIsAnnounced(vols: seq<Volume>)
    ensures Opens(vols) ==> Announces(HeadOf(vols), TotalSize(vols)) && Announces(WholeReply(vols), TotalSize(vols))
    ensures !Opens(vols) ==> HeadOf(vols) == "ERROR\r\n" && WholeReply(vols) == "ERROR\r\n"
  {
    SizeIsAnnounced(vols, Stream(vols, 0));
  }

  ghost predicate AllOpen(vols: seq<Volume>) {
    forall v :: v in vols && v.downloadable ==> v.file.Some?
  }

  /** The positions of the downloadable volumes from i on. */
  function Wanted(vols: seq<Volume>, i: nat): (ps: seq<nat>)
    decreases |vols| - i
  {
    if i >= |vols| then []
    else if vols[i].downloadable then [i] + Wanted(vols, i + 1)
    else Wanted(vols, i + 1)
  }

  /** The positions of the volumes that are opened one after the other from i on, as long as opening
      succeeds. */
  function Opened(vols: seq<Volume>, i: nat): (ps: seq<nat>)
    decreases |vols| - i
  {
    var k := NextVolume(vols, i);
    if i > |vols| || k >= |vols| || vols[k].file.None? then [] else [k] + Opened(vols, k + 1)
  }

  /** The files of the volumes at these positions. */
  function FilesAt(vols: seq<Volume>, ps: seq<nat>): seq<string> {
    if ps == [] then []
    else (if ps[0] < |vols| && vols[ps[0]].file.Some? then [vols[ps[0]].file.value] else []) + FilesAt(vols, ps[1..])
  }

  function SizeAt(vols: seq<Volume>, ps: seq<nat>): nat {
    if ps == [] then 0 else (if ps[0] < |vols| then vols[ps[0]].size else 0) + SizeAt(vols, ps[1..])
  }

  /** Each downloadable volume is wanted once, and in order of ids. */
  lemma {:induction false} WantedAreDownloadable(vols: seq<Volume>, i: nat)
    ensures forall k :: k in Wanted(vols, i) <==> i <= k < |vols| && vols[k].downloadable
    ensures forall a, b :: 0 <= a < b < |Wanted(vols, i)| ==> Wanted(vols, i)[a] < Wanted(vols, i)[b]
    decreases |vols| - i
  {
    if i < |vols| {
      WantedAreDownloadable(vols, i + 1);
      var rest := Wanted(vols, i + 1);
      forall a | 0 <= a < |rest| ensures i < rest[a] {
        assert rest[a] in rest;
      }
    }
  }

  lemma {:induction false} WantedNext(vols: seq<Volume>, i: nat)
    ensures var k := NextVolume(vols, i);
            Wanted(vols, i) == if i <= |vols| && k < |vols| then [k] + Wanted(vols, k + 1) else []
    decreases |vols| - i
  {
    if i < |vols| && !vols[i].downloadable {
      WantedNext(vols, i + 1);
    }
  }

  /** What is opened is what is wanted up to the first volume that cannot be opened. */
  lemma {:induction false} OpenedIsPrefix(vols: seq<Volume>, i: nat)
    ensures Opened(vols, i) <= Wanted(vols, i)
    ensures forall k :: k in Opened(vols, i) ==> k < |vols| && vols[k].file.Some?
    ensures var n := |Opened(vols, i)|;
            n < |Wanted(vols, i)| ==> Wanted(vols, i)[n] < |vols| && vols[Wanted(vols, i)[n]].file.None?
    decreases |vols| - i
  {
    var k := NextVolume(vols, i);
    WantedNext(vols, i);
    if i <= |vols| && k < |vols| && vols[k].file.Some? {
      OpenedIsPrefix(vols, k + 1);
      assert Wanted(vols, i)[1..] == Wanted(vols, k + 1);
      assert forall j :: 0 < j < |Wanted(vols, i)| ==> Wanted(vols, i)[j] == Wanted(vols, k + 1)[j - 1];
    }
  }

  /** The body is the files of what is opened. */
  lemma {:induction false} BodyIsOpened(vols: seq<Volume>, i: nat)
    ensures Body(vols, i) == Flatten(FilesAt(vols, Opened(vols, i)))
    decreases |vols| - i
  {
    var k := NextVolume(vols, i);
    if i <= |vols| && k < |vols| && vols[k].file.Some? {
      BodyIsOpened(vols, k + 1);
      var rest := Opened(vols, k + 1);
      assert ([k] + rest)[1..] == rest;
      FlattenFirst(vols[k].file.value, FilesAt(vols, rest));
    }
  }

  lemma FlattenFirst(b: string, bufs: seq<string>)
    ensures Flatten([b] + bufs) == b + Flatten(bufs)
  {
    assert ([b] + bufs)[1..] == bufs;
  }

  /** Every downloadable volume is sent if and only if every one can be opened. */
  lemma AllSent(vols: seq<Volume>)
    ensures Opened(vols, 0) == Wanted(vols, 0) <==> AllOpen(vols)
  {
    OpenedIsPrefix(vols, 0);
    WantedAreDownloadable(vols, 0);
    if Opened(vols, 0) == Wanted(vols, 0) {
      forall v | v in vols && v.downloadable ensures v.file.Some? {
        var k :| 0 <= k < |vols| && vols[k] == v;
        assert k in Wanted(vols, 0);
      }
    }
  }

  /** A volume in the middle that cannot be opened: the ones behind it are not sent, either. */
  lemma CutShort()
    ensures var vols := [Volume("A", true, 1, Some("a")), Volume("B", true, 1, None), Volume("C", true, 1, Some("c"))];
            && Opens(vols) && Opened(vols, 0) == [0] && Wanted(vols, 0) == [0, 1, 2]
            && WholeReply(vols) == "3\r\naEND\r\n"
  {
    var vols := [Volume("A", true, 1, Some("a")), Volume("B", true, 1, None), Volume("C", true, 1, Some("c"))];
    assert Wanted(vols, 3) == [] && Wanted(vols, 2) == [2] && Wanted(vols, 1) == [1] + [2];
    assert NextVolume(vols, 0) == 0 && NextVolume(vols, 1) == 1;
    assert Opened(vols, 1) == [] && Stream(vols, 1) == END;
    assert TotalSize(vols[1..][1..][1..]) == 0 && TotalSize(vols[1..][1..]) == 1 && TotalSize(vols[1..]) == 2;
    assert SizeLine(vols) == "3\r\n" && Stream(vols, 0) == "a" + END;
    assert "3\r\n" + ("a" + END) == "3\r\naEND\r\n";
  }

  /** When all files can be opened, each one is in the body exactly once and in order. */
  lemma BodyIsAllFiles(vols: seq<Volume>, i: nat)
    requires AllOpen(vols)
    ensures Body(vols, i) == Flatten(FilesAt(vols, Wanted(vols, i)))
  {
    OpenedIsPrefix(vols, i);
    WantedAreDownloadable(vols, i);
    BodyIsOpened(vols, i);
    assert Opened(vols, i) == Wanted(vols, i);
  }

  /** The sizes of the volumes that cannot be downloaded. */
  function HiddenSize(vols: seq<Volume>, i: nat): nat
    decreases |vols| - i
  {
    if i >= |vols| then 0 else (if vols[i].downloadable then 0 else vols[i].size) + HiddenSize(vols, i + 1)
  }

  /** The files that can be opened have their recorded sizes. */
  ghost predicate Recorded(vols: seq<Volume>) {
    forall v :: v in vols && v.downloadable && v.file.Some? ==> |v.file.value| == v.size
  }

  lemma {:induction false} TotalIsWantedAndHidden(vols: seq<Volume>, i: nat)
    requires i <= |vols|
    ensures TotalSize(vols[i..]) == SizeAt(vols, Wanted(vols, i)) + HiddenSize(vols, i)
    decreases |vols| - i
  {
    if i < |vols| {
      TotalIsWantedAndHidden(vols, i + 1);
      assert vols[i..][1..] == vols[i + 1..];
      assert ([i] + Wanted(vols, i + 1))[1..] == Wanted(vols, i + 1);
    }
  }

  lemma {:induction false} SizeAtConcat(vols: seq<Volume>, a: seq<nat>, b: seq<nat>)
    ensures SizeAt(vols, a + b) == SizeAt(vols, a) + SizeAt(vols, b)
  {
    if a == [] {
      assert a + b == b;
    } else {
      SizeAtConcat(vols, a[1..], b);
      assert (a + b)[1..] == a[1..] + b;
    }
  }

  lemma {:induction false} BodySize(vols: seq<Volume>, i: nat)
    requires Recorded(vols)
    ensures |Body(vols, i)| == SizeAt(vols, Opened(vols, i))
    decreases |vols| - i
  {
    var k := NextVolume(vols, i);
    if i <= |vols| && k < |vols| && vols[k].file.Some? {
      BodySize(vols, k + 1);
      assert vols[k] in vols && ([k] + Opened(vols, k + 1))[1..] == Opened(vols, k + 1);
    }
  }

  /** The positions of the downloadable volumes that are not sent. */
  function Unsent(vols: seq<Volume>): seq<nat> {
    OpenedIsPrefix(vols, 0);
    Wanted(vols, 0)[|Opened(vols, 0)|..]
  }

  /** When the files that open have their recorded sizes, the announced size is the number of bytes
      sent if and only if no volume that cannot be downloaded and none that is not reached has one. */
  lemma AnnouncedSize(vols: seq<Volume>)
    requires Recorded(vols)
    ensures |Body(vols, 0)| == TotalSize(vols) <==> HiddenSize(vols, 0) == 0 && SizeAt(vols, Unsent(vols)) == 0
  {
    BodySize(vols, 0);
    TotalIsWantedAndHidden(vols, 0);
    OpenedIsPrefix(vols, 0);
    assert vols[0..] == vols && Wanted(vols, 0) == Opened(vols, 0) + Unsent(vols);
    SizeAtConcat(vols, Opened(vols, 0), Unsent(vols));
  }

  /** How many of the left bytes a read into one block returns. */
  function ReadSize(picked: nat, left: nat): (n: nat)
    requires left > 0
    ensures 0 < n <= 512 && n <= left
    ensures 0 < picked && picked <= 512 && picked <= left ==> n == picked
  {
    if 0 < picked <= BLOCKSIZE && picked <= left then picked else 1
  }

  /** Sending part of bytes, with rest to follow. */
  lemma SendOn(out: string, sent: string, bytes: string, rest: string)
    requires sent <= bytes
    ensures out + sent <= out + (bytes + rest)
    ensures sent == bytes ==> (out + sent) + rest == out + (bytes + rest)
    ensures bytes + "" == bytes
  {
  }

  lemma AppendedPart(out: string, sent: string, bytes: string)
    requires sent <= bytes
    ensures out <= out + sent <= out + bytes
  {
  }

  // ---------------------------------------------------------------------------
  // Reads that fail
  // ---------------------------------------------------------------------------

  predicate Offsets(faults: seq<nat>, n: nat) {
    && (forall i :: 0 <= i < |faults| ==> faults[i] <= n)
    && (forall i, j :: 0 <= i < j < |faults| ==> faults[i] <= faults[j])
  }

  /** The bytes with an END inserted at each of the offsets. */
  function Inserted(clean: string, faults: seq<nat>): string
    requires Offsets(faults, |clean|)
    decreases |faults|
  {
    if faults == [] then clean
    else
      var n := |faults| - 1;
      Inserted(clean[..faults[n]], faults[..n]) + END + clean[faults[n]..]
  }

  lemma BeforeSuffix(clean: string, more: string, p: nat)
    requires p <= |clean|
    ensures (clean + more)[..p] == clean[..p] && (clean + more)[p..] == clean[p..] + more
  {
  }

  lemma InsertedMore(clean: string, more: string, faults: seq<nat>)
    requires Offsets(faults, |clean|)
    ensures Inserted(clean + more, faults) == Inserted(clean, faults) + more
  {
    if faults != [] {
      var n := |faults| - 1;
      var p := faults[n];
      InsertedStep(clean, faults);
      InsertedStep(clean + more, faults);
      BeforeSuffix(clean, more, p);
      Join(Inserted(clean[..p], faults[..n]) + END, clean[p..], more);
    }
  }

  lemma InsertedLast(clean: string, faults: seq<nat>)
    requires Offsets(faults, |clean|)
    ensures Offsets(faults + [|clean|], |clean|)
    ensures Inserted(clean, faults + [|clean|]) == Inserted(clean, faults) + END
  {
    var more := faults + [|clean|];
    assert more[..|more| - 1] == faults && clean[..|clean|] == clean && clean[|clean|..] == "";
    assert Inserted(clean, faults) + END + "" == Inserted(clean, faults) + END;
  }

  lemma {:induction false} InsertedLength(clean: string, faults: seq<nat>)
    requires Offsets(faults, |clean|)
    ensures |Inserted(clean, faults)| == |clean| + |END| * |faults|
    decreases |faults|
  {
    if faults != [] {
      var n := |faults| - 1;
      InsertedLength(clean[..faults[n]], faults[..n]);
    }
  }

  /** What is sent is what was to be sent if and only if no END was inserted. */
  lemma CleanOnlyWithoutFaults(clean: string, faults: seq<nat>)
    requires Offsets(faults, |clean|)
    ensures Inserted(clean, faults) == clean <==> faults == []
  {
    InsertedLength(clean, faults);
  }

  function Shifted(faults: seq<nat>, d: nat): (r: seq<nat>)
    requires forall i :: 0 <= i < |faults| ==> d <= faults[i]
    ensures |r| == |faults| && forall i :: 0 <= i < |r| ==> r[i] == faults[i] - d
  {
    seq(|faults|, i requires 0 <= i < |faults| => faults[i] - d)
  }

  /** All offsets are within the middle one of three parts. */
  lemma {:induction false} InsertedBetween(pre: string, mid: string, post: string, faults: seq<nat>)
    requires Offsets(faults, |pre| + |mid|) && forall i :: 0 <= i < |faults| ==> |pre| <= faults[i]
    ensures Inserted(pre + mid + post, faults) == pre + Inserted(mid, Shifted(faults, |pre|)) + post
    decreases |faults|
  {
    InsertedMore(pre + mid, post, faults);
    InsertedAfter(pre, mid, faults);
  }

  lemma {:induction false} InsertedAfter(pre: string, mid: string, faults: seq<nat>)
    requires Offsets(faults, |pre| + |mid|) && forall i :: 0 <= i < |faults| ==> |pre| <= faults[i]
    ensures Offsets(Shifted(faults, |pre|), |mid|)
    ensures Inserted(pre + mid, faults) == pre + Inserted(mid, Shifted(faults, |pre|))
    decreases |faults|
  {
    if faults != [] {
      var n := |faults| - 1;
      var p, s := faults[n] - |pre|, Shifted(faults, |pre|);
      ShiftedInit(faults, |pre|, |mid|);
      InsertedAfter(pre, mid[..p], faults[..n]);
      InsertedSplit(pre, mid, faults);
      InsertedStep(mid, s);
      JoinBehind(pre, Inserted(mid[..p], s[..n]), END, mid[p..]);
    }
  }

  lemma ShiftedInit(faults: seq<nat>, d: nat, m: nat)
    requires faults != [] && Offsets(faults, d + m) && forall i :: 0 <= i < |faults| ==> d <= faults[i]
    ensures Offsets(Shifted(faults, d), m)
    ensures var n := |faults| - 1;
            Offsets(faults[..n], d + (faults[n] - d)) && Shifted(faults[..n], d) == Shifted(faults, d)[..n]
  {
  }

  lemma InsertedStep(clean: string, faults: seq<nat>)
    requires Offsets(faults, |clean|) && faults != []
    ensures var n := |faults| - 1;
            && Offsets(faults[..n], faults[n])
            && Inserted(clean, faults) == Inserted(clean[..faults[n]], faults[..n]) + END + clean[faults[n]..]
  {
  }

  lemma InsertedSplit(pre: string, mid: string, faults: seq<nat>)
    requires faults != [] && Offsets(faults, |pre| + |mid|) && |pre| <= faults[|faults| - 1]
    ensures var n, p := |faults| - 1, faults[|faults| - 1] - |pre|;
            && Offsets(faults[..n], |pre| + p)
            && Inserted(pre + mid, faults) == Inserted(pre + mid[..p], faults[..n]) + END + mid[p..]
  {
    AfterPrefix(pre, mid, faults[|faults| - 1] - |pre|);
    InsertedStep(pre + mid, faults);
  }

  lemma AfterPrefix(pre: string, mid: string, p: nat)
    requires p <= |mid|
    ensures (pre + mid)[..|pre| + p] == pre + mid[..p] && (pre + mid)[|pre| + p..] == mid[p..]
  {
  }

  lemma JoinBehind(a: string, b: string, c: string, d: string)
    ensures (a + b) + c + d == a + (b + c + d)
  {
  }

  // ---------------------------------------------------------------------------
  // The connection
  // ---------------------------------------------------------------------------

  /** What one call of do_deliver() meets: how its writes and its read turn out. */
  datatype Env = Env(write1: seq<WriteEvent>, write2: seq<WriteEvent>, picked: nat, readFails: bool)

  ghost predicate NoTimeOut(e: Env) {
    (forall w :: w in e.write1 ==> !w.TimedOut?) && (forall w :: w in e.write2 ==> !w.TimedOut?)
  }

  ghost predicate NoReadFails(env: nat -> Env) {
    forall k :: !env(k).readFails
  }

  /** What the calls of do_deliver() in one call of deliver() meet. */
  function Row(env: (nat, nat) -> Env, n: nat): nat -> Env {
    (k: nat) => env(n, k)
  }

  ghost predicate WriteFailsIn(env: (nat, nat) -> Env, n: nat) {
    exists k :: WriteFails(env(n, k))
  }

  /** How many of the first calls of deliver() meet no failing read. */
  ghost function GoodRounds(env: (nat, nat) -> Env, rounds: nat): nat {
    if rounds == 0 then 0
    else GoodRounds(env, rounds - 1) + if NoReadFails(Row(env, rounds - 1)) then 1 else 0
  }

  /** Offsets have been added, and all of them behind lo bytes and before the last END of hi. */
  ghost predicate Between(before: seq<nat>, faults: seq<nat>, lo: nat, hi: nat) {
    && before <= faults
    && forall i :: |before| <= i < |faults| ==> lo <= faults[i] && faults[i] + |END| <= hi
  }

  ghost predicate WriteFails(e: Env) {
    Fails(e.write1) || Fails(e.write2)
  }

  datatype DeliveryResult = Ok | Retry | Fail

  /** An open product: its bytes and the read position. */
  datatype OpenFile = OpenFile(bytes: string, at: nat) {
    function Left(): string {
      if at <= |bytes| then bytes[at..] else ""
    }

    lemma LeftSplit(n: nat)
      requires at + n <= |bytes|
      ensures Left() == bytes[at..at + n] + this.(at := at + n).Left()
    {
    }
  }

  /** What has become of a request that was not ready. */
  datatype Product = Product(ready: bool, vols: seq<Volume>)

  /** With the first downloadable volume open, the reply is the size line, its file and the rest. */
  lemma ReplyOpened(vols: seq<Volume>, f: OpenFile, k: nat)
    requires k == NextVolume(vols, 0) < |vols| && vols[k].file == Some(f.bytes) && f.at == 0
    ensures HeadOf(vols) == SizeLine(vols)
    ensures WholeReply(vols) == SizeLine(vols) + (f.Left() + Stream(vols, k + 1))
  {
    StreamOpened(vols, 0, k);
    assert f.bytes[0..] == f.bytes;
  }

  lemma StreamOpened(vols: seq<Volume>, i: nat, k: nat)
    requires k == NextVolume(vols, i) < |vols| && i <= |vols| && vols[k].file.Some?
    ensures Stream(vols, i) == vols[k].file.value + Stream(vols, k + 1)
  {
  }

  /** What a connection has sent and has to send: clean and faults as in class Connection, the bytes
      to send, and how many of these come before any file. */
  datatype View = View(clean: string, faults: seq<nat>, rest: string, head: nat,
                       pending: bool, ready: bool, idle: bool, downloading: bool) {
    predicate Waiting() {
      pending && !ready
    }

    function Todo(): nat {
      |rest| + if pending then 1 else 0
    }
  }

  /** Going on with the delivery: nothing is lost or added but ENDs between the head and the last
      END; a download that waits for its request stays, any other one comes nearer to its end. */
  ghost predicate Kept(v: View, w: View) {
    && w.clean + w.rest == v.clean + v.rest
    && |w.clean| >= |v.clean| && |w.clean| + w.head >= |v.clean| + v.head
    && Between(v.faults, w.faults, |v.clean| + v.head, |v.clean| + |v.rest|)
    && (v.Waiting() || !v.downloading ==> w.faults == v.faults)
    && (v.Waiting() ==> w.Waiting() && w.clean == v.clean)
    && (!v.Waiting() ==> !w.pending && w.Todo() <= v.Todo())
    && (!v.downloading ==> !w.downloading)
    && (v.idle ==> w.idle)
  }

  lemma FaultKept(v: View, n: nat)
    requires n == |v.clean| && v.head == 0 && |v.rest| >= |END| && !v.pending && !v.idle && v.downloading
    ensures Kept(v, v.(faults := v.faults + [n]))
  {
  }

  lemma KeptOn(u: View, v: View, w: View)
    requires Kept(u, v) && Kept(v, w) && !u.Waiting()
    ensures Kept(u, w)
  {
    assert |u.clean + u.rest| == |v.clean + v.rest|;
  }

  /** A delivery that need not wait for its request comes nearer to its end, or a read has failed and
      one more END has been sent. */
  ghost predicate Progress(v: View, w: View, noneFailed: bool) {
    && |v.faults| <= |w.faults| <= |v.faults| + (if noneFailed then 0 else 1)
    && (noneFailed ==> w.faults == v.faults)
    && (!v.Waiting() ==> !w.pending && w.Todo() <= v.Todo() && |w.clean| + |w.rest| == |v.clean| + |v.rest|)
    && (!v.Waiting() && !v.idle ==> w.Todo() < v.Todo() || |w.faults| == |v.faults| + 1)
  }

  /** A delivery that began at u and is to send goal, the first head bytes before any file, has come
      to w. */
  ghost predicate Onward(u: View, w: View, goal: string, head: nat) {
    && w.clean + w.rest == u.clean + goal
    && |w.clean| + w.head >= |u.clean| + head
    && Between(u.faults, w.faults, |u.clean| + head, |u.clean| + |goal|)
    && (w.pending ==> u.pending && w.clean == u.clean && w.faults == u.faults)
    && (!u.downloading ==> !w.downloading && w.faults == u.faults)
  }

  lemma OnwardOn(u: View, v: View, w: View, goal: string, head: nat)
    requires Onward(u, v, goal, head) && Kept(v, w)
    ensures Onward(u, w, goal, head)
  {
    assert |u.clean + goal| == |v.clean + v.rest|;
  }

  /** After n calls of deliver(): at the end, or nearer to it by a byte for each call in which no END
      was sent for a failing read. */
  ghost predicate Nearer(u: View, w: View, env: (nat, nat) -> Env, n: nat) {
    !u.Waiting() ==>
      && !w.Waiting() && |w.faults| <= |u.faults| + n - GoodRounds(env, n)
      && |w.clean| + |w.rest| == |u.clean| + |u.rest|
      && (w.Todo() == 0 || w.Todo() + n <= u.Todo() + |w.faults| - |u.faults|)
  }

  lemma NearerOn(u: View, v: View, w: View, env: (nat, nat) -> Env, n: nat)
    requires Nearer(u, v, env, n) && Progress(v, w, NoReadFails(Row(env, n)))
    requires v.idle <==> v.Todo() == 0
    ensures Nearer(u, w, env, n + 1)
  {
  }

  /** out are all bytes sent; clean are those without the ENDs that reads have caused by failing, and
      faults tells where these are. */
  class Connection {
    var ready: bool
    var vols: seq<Volume>
    var responseStr: string
    var haveResponse: bool
    var msgBufs: seq<string>
    var downloading: bool
    var downloadVol: bool
    var downloadFile: Option<OpenFile>
    var volIter: nat
    var out: string
    ghost var clean: string
    ghost var faults: seq<nat>

    ghost predicate Sent()
      reads this
    {
      Offsets(faults, |clean|) && out == Inserted(clean, faults)
    }

    ghost predicate Valid()
      reads this
    {
      && Sent()
      && (downloading && downloadFile.Some? ==>
            volIter <= |vols| && downloadFile.value.at <= |downloadFile.value.bytes|)
      && (Pending() ==> !downloadVol && !haveResponse)
      && (msgBufs != [] ==> !downloading)
      && (forall b :: b in msgBufs ==> b != "")
      && (haveResponse ==> responseStr != "")
    }

    /** A blocking download that has not been opened. */
    predicate Pending()
      reads this
    {
      downloading && downloadFile.None?
    }

    /** Nothing can be sent before the request is ready. */
    predicate Waiting()
      reads this
    {
      Pending() && !ready
    }

    /** Nothing is left to send. */
    predicate Idle()
      reads this
    {
      !haveResponse && msgBufs == [] && !downloading
    }

    ghost function DownloadPart(): string
      reads this
    {
      if !downloading then ""
      else
        match downloadFile
        case None => WholeReply(vols)
        case Some(f) => f.Left() + Behind()
    }

    /** What follows the open file. */
    ghost function Behind(): string
      reads this
    {
      if downloadVol then END else Stream(vols, volIter)
    }

    ghost function MessagePart(): string
      reads this
    {
      if msgBufs == [] then "" else Flatten(msgBufs) + END
    }

    /** All that is still to be sent, in order. */
    ghost function Remaining(): string
      reads this
    {
      if haveResponse then responseStr + Rest() else Rest()
    }

    ghost function Rest(): string
      reads this
    {
      if msgBufs == [] then DownloadPart() else MessagePart()
    }

    /** The part of it that comes before any file. */
    ghost function Head(): string
      reads this
    {
      if haveResponse then responseStr else if Pending() then HeadOf(vols) else ""
    }

    ghost function Now(): View
      reads this
    {
      View(clean, faults, Remaining(), |Head()|, Pending(), ready, Idle(), downloading)
    }

    /** The next step is to read from a file. */
    ghost predicate Reading()
      reads this
    {
      !haveResponse && msgBufs == [] && downloading && downloadFile.Some?
    }

    /** writen(clientfd, ...). */
    method WriteOut(bytes: string, events: seq<WriteEvent>) returns (r: int, ghost sent: string)
      requires Sent() && forall e :: e in events ==> !e.TimedOut?
      modifies `out, `clean
      ensures Sent() && WriteResult(bytes, r, sent) && clean == old(clean) + sent
      ensures r <= 0 && bytes != "" ==> Fails(events)
    {
      var s;
      r, s := Writen(bytes, events);
      sent := s;
      InsertedMore(clean, s, faults);
      out := out + s;
      clean := clean + s;
    }

    method PutOut(bytes: string, events: seq<WriteEvent>) returns (r: int)
      requires bytes != "" && forall e :: e in events ==> !e.TimedOut?
      modifies `out
      ensures r > 0 ==> out == old(out) + bytes
      ensures r <= 0 ==> Fails(events) && old(out) <= out <= old(out) + bytes
    {
      var s;
      r, s := Writen(bytes, events);
      AppendedPart(out, s, bytes);
      out := out + s;
    }

    /** The END that is sent when a read has failed. */
    method WriteFault(events: seq<WriteEvent>) returns (r: int)
      requires Sent() && forall e :: e in events ==> !e.TimedOut?
      modifies `out, `faults
      ensures r > 0 ==> Sent() && faults == old(faults) + [|clean|] && out == old(out) + END
      ensures r <= 0 ==> Fails(events) && faults == old(faults) && old(out) <= out <= old(out) + END
    {
      ghost var before, more := out, faults + [|clean|];
      assert Offsets(more, |clean|) && Inserted(clean, more) == before + END by {
        InsertedLast(clean, faults);
      }
      r := PutOut(END, events);
      if r > 0 {
        faults := more;
      }
    }

    /** open_first() and open_next(): open the first downloadable volume from volIter on. */
    method OpenFrom() returns (found: bool)
      requires volIter <= |vols|
      modifies `volIter, `downloadFile
      ensures var k := NextVolume(vols, old(volIter));
              && found == (k < |vols|)
              && volIter == (if found then k + 1 else k)
              && downloadFile == if found && vols[k].file.Some? then Some(OpenFile(vols[k].file.value, 0)) else None
    {
      while volIter < |vols| && !vols[volIter].downloadable
        invariant volIter <= |vols| && NextVolume(vols, volIter) == NextVolume(vols, old(volIter))
        decreases |vols| - volIter
      {
        volIter := volIter + 1;
      }
      downloadFile := None;
      found := volIter < |vols|;
      if found {
        if vols[volIter].file.Some? {
          downloadFile := Some(OpenFile(vols[volIter].file.value, 0));
        }
        volIter := volIter + 1;
      }
    }

    lemma OnlyResponse()
      requires haveResponse && msgBufs == [] && !downloading
      ensures Remaining() == responseStr
    {
      assert Rest() == "" && responseStr + "" == responseStr;
    }

    /** Opening a request for its whole reply. */
    method OpenFirst()
      modifies `volIter, `downloadFile
      ensures downloadFile.Some? <==> Opens(vols)
      ensures downloadFile.None? ==> HeadOf(vols) == "ERROR\r\n" && WholeReply(vols) == "ERROR\r\n"
      ensures downloadFile.Some? ==> HeadOf(vols) == SizeLine(vols) && volIter <= |vols| && downloadFile.value.at == 0
      ensures downloadFile.Some? ==>
                WholeReply(vols) == SizeLine(vols) + (downloadFile.value.Left() + Stream(vols, volIter))
    {
      volIter := 0;
      var found := OpenFrom();
      if downloadFile.Some? {
        ReplyOpened(vols, downloadFile.value, volIter - 1);
      }
    }

    method DeliverResponse(e: Env) returns (res: DeliveryResult)
      requires Valid() && haveResponse && NoTimeOut(e)
      modifies `out, `clean, `haveResponse
      ensures Valid() && old(clean) <= clean <= old(clean) + old(Remaining())
      ensures res == Ok || (res == Fail && WriteFails(e))
      ensures res == Ok ==> !haveResponse && clean == old(clean) + responseStr
      ensures res == Ok ==> Kept(old(Now()), Now()) && Now().Todo() < old(Now().Todo()) && faults == old(faults)
    {
      var r, sent := WriteOut(responseStr, e.write1);
      SendOn(old(clean), sent, responseStr, Rest());
      if r <= 0 {
        return Fail;
      }
      haveResponse := false;
      return Ok;
    }

    /** Send the first message buffer. */
    method SendBuffer(events: seq<WriteEvent>) returns (r: int)
      requires Valid() && !haveResponse && msgBufs != [] && forall e :: e in events ==> !e.TimedOut?
      modifies `out, `clean, `msgBufs
      ensures Valid() && msgBufs == old(msgBufs)[1..] && old(clean) <= clean <= old(clean) + old(Remaining())
      ensures r <= 0 ==> Fails(events)
      ensures r > 0 ==> clean + (Flatten(msgBufs) + END) == old(clean) + old(Remaining())
      ensures r > 0 ==> |clean| > old(|clean|)
    {
      var buf := msgBufs[0];
      assert Remaining() == MessagePart();
      assert buf in msgBufs;
      msgBufs := msgBufs[1..];
      assert forall b :: b in msgBufs ==> b in old(msgBufs);
      Join(buf, Flatten(msgBufs), END);
      ghost var s;
      r, s := WriteOut(buf, events);
      SendOn(old(clean), s, buf, Flatten(msgBufs) + END);
    }

    /** The END behind the last message buffer. */
    method SendEnd(events: seq<WriteEvent>) returns (r: int)
      requires Valid() && !haveResponse && forall e :: e in events ==> !e.TimedOut?
      modifies `out, `clean
      ensures Valid() && old(clean) <= clean <= old(clean) + END
      ensures r <= 0 ==> Fails(events)
      ensures r > 0 ==> clean == old(clean) + END
    {
      ghost var s;
      r, s := WriteOut(END, events);
      SendOn(old(clean), s, END, "");
    }

    method DeliverMessage(e: Env) returns (res: DeliveryResult)
      requires Valid() && !haveResponse && msgBufs != [] && NoTimeOut(e)
      modifies `out, `clean, `msgBufs
      ensures Valid() && old(clean) <= clean <= old(clean) + old(Remaining())
      ensures res == Ok || (res == Fail && WriteFails(e))
      ensures res == Ok ==> Kept(old(Now()), Now()) && Now().Todo() < old(Now().Todo())
    {
      var r := SendBuffer(e.write1);
      if r <= 0 {
        return Fail;
      }
      if msgBufs == [] {
        assert Flatten(msgBufs) + END == END;
        r := SendEnd(e.write2);
        if r <= 0 {
          return Fail;
        }
      }
      return Ok;
    }

    /** A request that has become ready is opened and its size announced. */
    method OpenWhole() returns (res: DeliveryResult)
      requires Valid() && Pending()
      modifies `volIter, `downloadFile, `responseStr, `haveResponse, `downloading
      ensures Valid() && haveResponse && Remaining() == old(Remaining()) && !Pending()
      ensures responseStr == HeadOf(vols)
      ensures res == if downloading then Retry else Ok
    {
      OpenFirst();
      haveResponse := true;
      if downloadFile.None? {
        responseStr := "ERROR\r\n";
        downloading := false;
        OnlyResponse();
        return Ok;
      }
      responseStr := SizeLine(vols);
      return Retry;
    }

    /** The end of one file: go on with the next volume, or finish. */
    method NextFile(e: Env) returns (res: DeliveryResult)
      requires Valid() && Reading() && NoTimeOut(e)
      requires downloadFile.value.at == |downloadFile.value.bytes|
      modifies `out, `clean, `volIter, `downloadFile, `downloading
      ensures Valid() && old(clean) <= clean <= old(clean) + old(Remaining())
      ensures res == Fail ==> WriteFails(e)
      ensures res != Fail ==> clean + Remaining() == old(clean) + old(Remaining()) && !Pending()
      ensures res == Retry ==> volIter > old(volIter) && Reading() && clean == old(clean)
      ensures res == Ok ==> Remaining() == "" && old(Remaining()) == END
    {
      ghost var left := Behind();
      assert Remaining() == left by {
        assert downloadFile.value.bytes[downloadFile.value.at..] == "";
      }
      NextOpen();
      if downloadFile.Some? {
        return Retry;
      }
      var r, sent := WriteOut(END, e.write1);
      SendOn(old(clean), sent, END, "");
      if r <= 0 {
        return Fail;
      }
      return Ok;
    }

    /** Open the next volume of a whole-request download, or give up downloading. */
    method NextOpen()
      requires Valid() && Reading()
      modifies `volIter, `downloadFile, `downloading
      ensures Valid() && (downloading <==> downloadFile.Some?)
      ensures downloadFile.Some? ==> volIter > old(volIter) && Remaining() == old(Behind())
      ensures downloadFile.None? ==> Remaining() == "" && old(Behind()) == END
    {
      downloadFile := None;
      if !downloadVol {
        var found := OpenFrom();
      }
      if downloadFile.Some? {
        var f := downloadFile.value.bytes;
        assert f[0..] == f;
      } else {
        downloading := false;
      }
    }

    /** The next block of the open file. */
    method SendBlock(e: Env) returns (res: DeliveryResult)
      requires Valid() && Reading() && NoTimeOut(e)
      requires downloadFile.value.at < |downloadFile.value.bytes|
      modifies `out, `clean, `downloadFile
      ensures Valid() && old(clean) <= clean <= old(clean) + old(Remaining()) && !Pending()
      ensures res == Ok || (res == Fail && WriteFails(e))
      ensures res == Ok ==> clean + Remaining() == old(clean) + old(Remaining()) && |clean| > old(|clean|)
    {
      var f := downloadFile.value;
      var n := ReadSize(e.picked, |f.bytes| - f.at);
      var buf := f.bytes[f.at..f.at + n];
      ghost var rest := f.(at := f.at + n).Left();
      f.LeftSplit(n);
      Join(buf, rest, Behind());
      var r, sent := WriteOut(buf, e.write1);
      SendOn(old(clean), sent, buf, rest + Behind());
      if r != n {
        return Fail;
      }
      downloadFile := Some(f.(at := f.at + n));
      return Ok;
    }

    /** The next step is to read, and the read fails. */
    ghost predicate Faulty(e: Env)
      reads this
    {
      Reading() && e.readFails
    }

    /** What has been sent when a write has failed: possibly a part of an END on top of it. */
    ghost predicate Broken()
      reads this
    {
      Offsets(faults, |clean|) && Inserted(clean, faults) <= out <= Inserted(clean, faults) + END
    }

    lemma EndIsLeft()
      requires Valid() && Reading()
      ensures |Remaining()| >= |END|
    {
      if !downloadVol {
        StreamIsBody(vols, volIter);
      }
    }

    /** A read that has failed: END goes out in mid-stream, and nothing else changes. */
    method FailedRead(e: Env) returns (res: DeliveryResult)
      requires Valid() && Reading() && NoTimeOut(e)
      modifies `out, `faults
      ensures res == Fail ==> WriteFails(e) && Broken() && faults == old(faults)
      ensures res != Fail ==> res == Ok && Valid() && Kept(old(Now()), Now()) && Reading()
      ensures res != Fail ==> faults == old(faults) + [|clean|] && out == old(out) + END
    {
      ghost var v := Now();
      EndIsLeft();
      var r := WriteFault(e.write1);
      if r <= 0 {
        return Fail;
      }
      FaultKept(v, |clean|);
      assert Now() == v.(faults := faults);
      return Ok;
    }

    method DeliverFile(e: Env) returns (res: DeliveryResult)
      requires Valid() && Reading() && NoTimeOut(e)
      modifies `out, `clean, `faults, `volIter, `downloadFile, `downloading
      ensures old(clean) <= clean <= old(clean) + old(Remaining())
      ensures res == Fail ==> WriteFails(e) && Broken() && faults == old(faults)
      ensures res != Fail ==> Valid() && Kept(old(Now()), Now())
      ensures e.readFails && res != Fail ==> res == Ok && Reading() && clean == old(clean)
      ensures e.readFails && res != Fail ==> faults == old(faults) + [|clean|] && out == old(out) + END
      ensures !e.readFails ==> faults == old(faults) && (res == Ok ==> Now().Todo() < old(Now().Todo()))
      ensures res == Retry ==> Reading() && volIter > old(volIter) && clean == old(clean)
    {
      if e.readFails {
        res := FailedRead(e);
        return;
      }
      if downloadFile.value.at == |downloadFile.value.bytes| {
        res := NextFile(e);
      } else {
        res := SendBlock(e);
      }
    }

    /** A blocking download that has not been opened is opened once the request is ready. */
    method DeliverPending() returns (res: DeliveryResult)
      requires Valid() && Pending()
      modifies `volIter, `downloadFile, `responseStr, `haveResponse, `downloading
      ensures Valid() && Kept(old(Now()), Now()) && res != Fail
      ensures old(Waiting()) ==> res == Ok
      ensures !old(Waiting()) ==> haveResponse && Now().Todo() < old(Now().Todo())
    {
      if !ready {
        return Ok;
      }
      res := OpenWhole();
    }

    /** The delivery began at u and has come to r; noneFailed says that no read has failed. */
    ghost predicate Gone(u: View, r: DeliveryResult, noneFailed: bool)
      reads this
    {
      && |u.clean| <= |clean| && clean <= u.clean + u.rest
      && (r == Fail ==> Broken() && faults == u.faults && !u.idle)
      && (r != Fail ==> Valid() && Kept(u, Now()))
      && (r == Retry ==> !u.Waiting() && !Idle() && faults == u.faults)
      && (noneFailed ==> faults == u.faults)
      && |u.faults| <= |faults| <= |u.faults| + 1
      && (r == Ok && !u.Waiting() && !u.idle ==> Now().Todo() < u.Todo() || |faults| == |u.faults| + 1)
    }

    /** do_deliver(): response first, then messages, then the download. */
    method DoDeliver(e: Env) returns (res: DeliveryResult)
      requires Valid() && NoTimeOut(e)
      modifies `out, `clean, `faults, `volIter, `downloadFile, `responseStr, `haveResponse, `downloading, `msgBufs
      ensures Gone(old(Now()), res, !old(Faulty(e)))
      ensures res == Fail ==> WriteFails(e)
      ensures old(Faulty(e)) && res != Fail ==> res == Ok && Reading() && clean == old(clean)
      ensures old(Faulty(e)) && res != Fail ==> faults == old(faults) + [|clean|] && out == old(out) + END
      ensures old(haveResponse) && res == Ok ==> clean == old(clean) + old(responseStr) && !haveResponse
      ensures old(haveResponse) ==> unchanged(`downloading, `downloadFile, `msgBufs)
      ensures res == Retry ==> old(!haveResponse) && (haveResponse || old(volIter) < volIter <= |vols|)
    {
      if haveResponse {
        res := DeliverResponse(e);
      } else if msgBufs != [] {
        res := DeliverMessage(e);
      } else if downloading {
        if downloadFile.None? {
          res := DeliverPending();
        } else {
          res := DeliverFile(e);
        }
      } else {
        res := Ok;
      }
    }

    method First(e: Env, ghost u: View) returns (res: DeliveryResult)
      requires Valid() && NoTimeOut(e) && u == Now()
      modifies `out, `clean, `faults, `volIter, `downloadFile, `responseStr, `haveResponse, `downloading, `msgBufs
      ensures Gone(u, res, !e.readFails)
      ensures res == Fail ==> WriteFails(e)
    {
      res := DoDeliver(e);
    }

    /** One more turn of the loop in deliver(), which began at u. */
    method Again(e: Env, ghost u: View, ghost before: bool) returns (res: DeliveryResult)
      requires NoTimeOut(e) && Gone(u, Retry, before)
      modifies `out, `clean, `faults, `volIter, `downloadFile, `responseStr, `haveResponse, `downloading, `msgBufs
      ensures Gone(u, res, !e.readFails)
      ensures res == Fail ==> WriteFails(e)
      ensures res == Retry ==> old(!haveResponse) && (haveResponse || old(volIter) < volIter <= |vols|)
    {
      ghost var v := Now();
      res := DoDeliver(e);
      if res != Fail {
        KeptOn(u, v, Now());
      }
    }

    /** The calls of do_deliver() up to the first that does not say Retry; there is one. */
    method Repeat(env: nat -> Env, ghost u: View) returns (r: DeliveryResult)
      requires Valid() && u == Now() && forall k :: NoTimeOut(env(k))
      modifies `out, `clean, `faults, `volIter, `downloadFile, `responseStr, `haveResponse, `downloading, `msgBufs
      ensures r != Retry && Gone(u, r, NoReadFails(env))
      ensures r == Fail ==> exists k :: WriteFails(env(k))
    {
      var k := 0;
      r := First(env(k), u);
      while r == Retry
        invariant Gone(u, r, !env(k).readFails)
        invariant r == Fail ==> WriteFails(env(k))
        decreases r == Retry, !haveResponse, |vols| - volIter
      {
        k := k + 1;
        r := Again(env(k), u, !env(k - 1).readFails);
      }
    }

    /** deliver(): repeat while do_deliver() says Retry. lost is true where the code gives the
        connection up, which it does only when a write has failed. */
    method Deliver(env: nat -> Env) returns (lost: bool)
      requires Valid() && forall k :: NoTimeOut(env(k))
      modifies `out, `clean, `faults, `volIter, `downloadFile, `responseStr, `haveResponse, `downloading, `msgBufs
      ensures Gone(old(Now()), if lost then Fail else Ok, NoReadFails(env))
      ensures lost ==> exists k :: WriteFails(env(k))
    {
      var r := Repeat(env, Now());
      lost := r == Fail;
      if lost && downloading {
        downloadFile := None;
        downloading := false;
      }
    }

    /** What a delivery that began at u sends: a reply not yet opened then is that of the volumes at
        the time it is opened. */
    ghost function Goal(u: View): string
      reads this
    {
      if u.pending then WholeReply(vols) else u.rest
    }

    ghost function GoalHead(u: View): nat
      reads this
    {
      if u.pending then |HeadOf(vols)| else u.head
    }

    ghost predicate Onwards(u: View)
      reads this
    {
      Valid() && Onward(u, Now(), Goal(u), GoalHead(u))
    }

    /** What becomes of the request between two calls of deliver(): as long as the reply has not been
        opened, anything. */
    method Other(change: Option<Product>, ghost u: View)
      requires Onwards(u)
      modifies `ready, `vols
      ensures Onwards(u)
      ensures !Pending() ==> unchanged(this)
      ensures Pending() && change.Some? ==> ready == change.value.ready && vols == change.value.vols
      ensures Pending() && change.None? ==> unchanged(this)
    {
      if downloading && downloadFile.None? && change.Some? {
        ready := change.value.ready;
        vols := change.value.vols;
      }
    }

    /** The connection is lost in a delivery that began at u. */
    ghost predicate Lost(u: View)
      reads this
    {
      && Broken() && clean <= u.clean + Goal(u)
      && Between(u.faults, faults, |u.clean| + GoalHead(u), |u.clean| + |Goal(u)|)
      && (!u.downloading ==> faults == u.faults)
    }

    /** The call of deliver() that has begun at v loses the connection. */
    ghost predicate Given(v: View)
      reads this
    {
      !v.idle && |v.clean| <= |clean| && faults == v.faults
    }

    method DeliverOn(env: nat -> Env, ghost u: View) returns (lost: bool)
      requires Onwards(u) && forall k :: NoTimeOut(env(k))
      modifies `out, `clean, `faults, `volIter, `downloadFile, `responseStr, `haveResponse, `downloading, `msgBufs
      ensures if lost then Lost(u) else Onwards(u)
      ensures lost ==> exists k :: WriteFails(env(k))
      ensures if lost then Given(old(Now())) else Progress(old(Now()), Now(), NoReadFails(env))
    {
      ghost var v := Now();
      lost := Deliver(env);
      if !lost {
        OnwardOn(u, v, Now(), Goal(u), GoalHead(u));
      }
    }

    /** deliver(), and what may happen before the next call of it. */
    method Round(env: nat -> Env, change: Option<Product>, ghost u: View) returns (lost: bool)
      requires Onwards(u) && forall k :: NoTimeOut(env(k))
      modifies this
      ensures if lost then Lost(u) else Onwards(u)
      ensures lost ==> exists k :: WriteFails(env(k))
      ensures if lost then Given(old(Now())) else Progress(old(Now()), Now(), NoReadFails(env))
      ensures !old(Waiting()) ==> vols == old(vols)
    {
      lost := DeliverOn(env, u);
      if !lost {
        Other(change, u);
      }
    }

    lemma NothingLeft()
      requires Valid()
      ensures Idle() <==> Now().Todo() == 0
    {
      if Reading() {
        EndIsLeft();
      }
      if msgBufs != [] {
        assert |MessagePart()| >= |END|;
      }
    }

    /** Each of n calls has sent a byte or an END, but for one that has opened the request. */
    ghost predicate Busy(u: View, n: nat)
      reads this
    {
      u.Waiting() || n <= |clean| - |u.clean| + |faults| - |u.faults| + if u.pending then 1 else 0
    }

    /** The connection is lost in the last of made calls, in which a write has failed. */
    ghost predicate LostIn(u: View, env: (nat, nat) -> Env, made: nat)
      reads this
    {
      made > 0 && Lost(u) && Busy(u, made - 1) && WriteFailsIn(env, made - 1)
    }

    /** After made calls. */
    ghost predicate ComeTo(u: View, env: (nat, nat) -> Env, made: nat, lost: bool)
      reads this
    {
      if lost then LostIn(u, env, made) else Onwards(u) && Nearer(u, Now(), env, made)
    }

    method Turn(env: (nat, nat) -> Env, n: nat, change: Option<Product>, ghost u: View) returns (lost: bool)
      requires ComeTo(u, env, n, false) && forall n, k :: NoTimeOut(env(n, k))
      modifies this
      ensures ComeTo(u, env, n + 1, lost)
      ensures NoReadFails(Row(env, n)) ==> faults == old(faults)
      ensures !u.Waiting() ==> vols == old(vols)
    {
      ghost var v := Now();
      NothingLeft();
      lost := Round(Row(env, n), change, u);
      if !lost {
        NearerOn(u, v, Now(), env, n);
      }
    }

    method Rounds(env: (nat, nat) -> Env, changes: nat -> Option<Product>, rounds: nat, ghost u: View)
      returns (lost: bool, made: nat)
      requires Valid() && u == Now() && forall n, k :: NoTimeOut(env(n, k))
      modifies this
      ensures made <= rounds && (!lost ==> made == rounds) && ComeTo(u, env, made, lost)
      ensures (forall n, k :: !env(n, k).readFails) ==> faults == u.faults
      ensures !u.Waiting() ==> vols == old(vols)
    {
      lost, made := false, 0;
      while made < rounds && !lost
        invariant made <= rounds
        invariant ComeTo(u, env, made, lost)
        invariant (forall n, k :: !env(n, k).readFails) ==> faults == u.faults
        invariant !u.Waiting() ==> vols == old(vols)
      {
        lost := Turn(env, made, changes(made), u);
        made := made + 1;
      }
    }

    /** Calls of deliver(), up to the given number, whatever happens to the reads, the writes and the
        request in between. A delivery that comes to its end has sent what there was to send, with an
        END for each read that has failed; it comes to its end after as many calls as there are bytes
        and such ENDs. It is lost only by a write that fails in the last call made, and each call
        before has sent something. */
    method DeliverAll(env: (nat, nat) -> Env, changes: nat -> Option<Product>, rounds: nat)
      returns (lost: bool, made: nat)
      requires Valid() && forall n, k :: NoTimeOut(env(n, k))
      modifies this
      ensures made <= rounds
      ensures if lost then LostIn(old(Now()), env, made) else made == rounds && Onwards(old(Now()))
      ensures !lost && Idle() ==> clean == old(clean) + Goal(old(Now())) && out == Inserted(clean, faults)
      ensures (forall n, k :: !env(n, k).readFails) ==> faults == old(faults)
      ensures !old(Waiting()) && !lost && rounds >= old(Now().Todo()) + |faults| - |old(faults)| ==> Idle()
      ensures !old(Waiting()) && !lost && GoodRounds(env, rounds) >= old(Now().Todo()) ==> Idle()
      ensures !old(Waiting()) ==> vols == old(vols)
    {
      lost, made := Rounds(env, changes, rounds, Now());
      if !lost {
        NothingLeft();
      }
    }

    method Response(str: string)
      modifies `responseStr, `haveResponse
      ensures responseStr == str && haveResponse
    {
      responseStr := str;
      haveResponse := true;
    }

    method Refuse()
      requires Valid() && Idle()
      modifies `responseStr, `haveResponse
      ensures Valid() && !Pending() && Remaining() == "ERROR\r\n" && Head() == "ERROR\r\n"
    {
      Response("ERROR\r\n");
      OnlyResponse();
    }

    method Await()
      requires Valid() && Idle()
      modifies `downloading, `downloadVol, `downloadFile
      ensures Valid() && Pending() && Remaining() == WholeReply(vols) && Head() == HeadOf(vols)
    {
      downloadFile := None;
      downloadVol := false;
      downloading := true;
    }

    /** The reply of a request that is ready. */
    method Reply()
      requires Valid() && Idle()
      modifies `responseStr, `haveResponse, `downloading, `downloadVol, `downloadFile, `volIter
      ensures Valid() && !Pending() && Remaining() == WholeReply(vols) && Head() == HeadOf(vols)
      ensures Opens(vols) ==> haveResponse && downloading && downloadFile.Some? && responseStr == HeadOf(vols)
    {
      OpenFirst();
      if downloadFile.None? {
        Refuse();
        return;
      }
      downloadVol := false;
      downloading := true;
      Response(SizeLine(vols));
    }

    /** DOWNLOAD and BDOWNLOAD of a whole request. A blocking one of a request that is not ready stays
        pending. */
    method CommandDownload(blocking: bool)
      requires Valid() && Idle()
      modifies `responseStr, `haveResponse, `downloading, `downloadVol, `downloadFile, `volIter
      ensures Valid() && (Pending() <==> !ready && blocking)
      ensures Remaining() == if ready || blocking then WholeReply(vols) else "ERROR\r\n"
      ensures Head() == if ready || blocking then HeadOf(vols) else "ERROR\r\n"
      ensures ready && Opens(vols) ==> haveResponse && downloading && downloadFile.Some? && responseStr == HeadOf(vols)
      ensures ready && Opens(vols) ==> Announces(responseStr, TotalSize(vols))
      ensures (ready || blocking) && Opens(vols) ==> Announces(Remaining(), TotalSize(vols))
    {
      ReplyIsAnnounced(vols);
      if ready {
        Reply();
      } else if blocking {
        Await();
      } else {
        Refuse();
      }
    }

    /** STATUS: the blocks of the document are queued. */
    method CommandStatus(pieces: seq<string>)
      requires Valid() && Idle()
      modifies `msgBufs
      ensures Valid() && !Pending()
      ensures Remaining() == if Flatten(pieces) == "" then "" else Flatten(pieces) + END
    {
      var bufs := WriteDoc(pieces, BLOCKSIZE);
      msgBufs := bufs;
      assert bufs != [] ==> bufs[0] in bufs && bufs[0] != "";
    }
  }

  /** Nothing sent: nothing inserted. */
  lemma NothingSent(clean: string, faults: seq<nat>)
    requires Offsets(faults, |clean|) && Inserted(clean, faults) == ""
    ensures clean == "" && faults == []
  {
    InsertedLength(clean, faults);
  }

  /** The reply to a download of a whole request. */
  function ReplyTo(ready: bool, blocking: bool, vols: seq<Volume>): string {
    if ready || blocking then WholeReply(vols) else "ERROR\r\n"
  }

  /** What is sent of a reply when the ENDs of failing reads are all within the body. */
  ghost predicate InBody(out: string, vols: seq<Volume>, faults: seq<nat>) {
    && Offsets(faults, |SizeLine(vols)| + |Body(vols, 0)|)
    && (forall i :: 0 <= i < |faults| ==> |SizeLine(vols)| <= faults[i])
    && out == SizeLine(vols) + Inserted(Body(vols, 0), Shifted(faults, |SizeLine(vols)|)) + END
  }

  lemma InsertedInBody(vols: seq<Volume>, faults: seq<nat>)
    requires Opens(vols) && Between([], faults, |HeadOf(vols)|, |WholeReply(vols)|)
    requires Offsets(faults, |WholeReply(vols)|)
    ensures InBody(Inserted(WholeReply(vols), faults), vols, faults)
  {
    StreamIsBody(vols, 0);
    Join(SizeLine(vols), Body(vols, 0), END);
    InsertedBetween(SizeLine(vols), Body(vols, 0), END, faults);
  }

  lemma ReplyAnnounces(out: string, vols: seq<Volume>, faults: seq<nat>)
    requires InBody(out, vols, faults)
    ensures Announces(out, TotalSize(vols))
  {
    var rest := Inserted(Body(vols, 0), Shifted(faults, |SizeLine(vols)|)) + END;
    SizeIsAnnounced(vols, rest);
    assert out == SizeLine(vols) + rest;
  }

  method BeginFetch(c: Connection, blocking: bool) returns (ghost u: View)
    requires c.Valid() && c.Idle() && c.out == ""
    modifies c
    ensures c.Valid() && u == c.Now() && c.vols == old(c.vols)
    ensures u.clean == "" && u.faults == [] && (u.pending <==> !old(c.ready) && blocking) && u.ready == old(c.ready)
    ensures u.rest == ReplyTo(u.ready, blocking, c.vols)
    ensures u.ready || blocking ==> u.head == |HeadOf(c.vols)|
  {
    NothingSent(c.clean, c.faults);
    c.CommandDownload(blocking);
    u := c.Now();
  }

  /** The connection is lost in the last of made calls, in which a write has failed. What was sent
      before is of the reply, and each call before has sent something. */
  ghost predicate LostAfter(c: Connection, env: (nat, nat) -> Env, made: nat, reply: string)
    reads c
  {
    && made > 0 && WriteFailsIn(env, made - 1)
    && c.Broken() && c.clean <= reply && made - 1 <= |c.clean| + |c.faults|
  }

  lemma LostReply(c: Connection, u: View, env: (nat, nat) -> Env, made: nat)
    requires c.LostIn(u, env, made) && u.clean == "" && u.faults == [] && !u.pending
    ensures LostAfter(c, env, made, u.rest)
  {
  }

  lemma FaultsInReply(c: Connection, u: View)
    requires c.Onwards(u) && u.clean == "" && u.faults == []
    ensures Between([], c.faults, c.GoalHead(u), |c.Goal(u)|)
    ensures c.Idle() ==> c.Sent() && c.clean == c.Goal(u)
  {
    if c.Idle() {
      c.NothingLeft();
      assert c.Remaining() == "" && c.clean + "" == c.clean && "" + c.Goal(u) == c.Goal(u);
    }
  }

  method Fetch(c: Connection, blocking: bool, env: (nat, nat) -> Env, changes: nat -> Option<Product>, rounds: nat)
    returns (lost: bool, made: nat)
    requires c.Valid() && c.Idle() && c.out == "" && forall n, k :: NoTimeOut(env(n, k))
    modifies c
    ensures made <= rounds && (!lost ==> made == rounds)
    ensures lost ==> made > 0 && WriteFailsIn(env, made - 1)
    ensures lost && (old(c.ready) || !blocking) ==>
              LostAfter(c, env, made, ReplyTo(old(c.ready), blocking, old(c.vols)))
    ensures (forall n, k :: !env(n, k).readFails) ==> c.faults == []
    ensures !lost && c.Idle() ==> c.Sent() && c.clean == ReplyTo(old(c.ready), blocking, c.vols)
    ensures !lost && (old(c.ready) || blocking) ==> Between([], c.faults, |HeadOf(c.vols)|, |WholeReply(c.vols)|)
    ensures old(c.ready) || !blocking ==> c.vols == old(c.vols)
    ensures old(c.ready) || !blocking ==>
              lost || c.Idle() || rounds < |ReplyTo(old(c.ready), blocking, old(c.vols))| + |c.faults|
    ensures old(c.ready) || !blocking ==>
              lost || c.Idle() || GoodRounds(env, rounds) < |ReplyTo(old(c.ready), blocking, old(c.vols))|
  {
    ghost var u := BeginFetch(c, blocking);
    lost, made := c.DeliverAll(env, changes, rounds);
    if lost {
      if !u.pending {
        LostReply(c, u, env, made);
      }
    } else {
      FaultsInReply(c, u);
    }
  }

  /** A download of a whole request: at its end, the client has got the reply of the volumes at the
      time it was opened exactly if no read has failed; each failing read has put one END into the
      body. If the first downloadable volume can be opened, that reply is the size line, the files of
      the downloadable volumes in order of ids up to the first that cannot be opened, and END: every
      downloadable volume if and only if every one can be opened. */
  method FetchRequest(c: Connection, blocking: bool, env: (nat, nat) -> Env, changes: nat -> Option<Product>,
                      rounds: nat)
    returns (lost: bool, made: nat)
    requires c.Valid() && c.Idle() && c.out == "" && forall n, k :: NoTimeOut(env(n, k))
    modifies c
    ensures made <= rounds && (!lost ==> made == rounds)
    ensures lost ==> made > 0 && WriteFailsIn(env, made - 1)
    ensures lost && (old(c.ready) || !blocking) ==>
              LostAfter(c, env, made, ReplyTo(old(c.ready), blocking, old(c.vols)))
    ensures (forall n, k :: !env(n, k).readFails) ==> c.faults == []
    ensures !lost && c.Idle() ==> (c.out == ReplyTo(old(c.ready), blocking, c.vols) <==> c.faults == [])
    ensures !lost && c.Idle() && (old(c.ready) || blocking) && Opens(c.vols) ==>
              InBody(c.out, c.vols, c.faults) && Announces(c.out, TotalSize(c.vols))
    ensures Body(c.vols, 0) == Flatten(FilesAt(c.vols, Opened(c.vols, 0)))
    ensures Opened(c.vols, 0) == Wanted(c.vols, 0) <==> AllOpen(c.vols)
    ensures old(c.ready) || !blocking ==> c.vols == old(c.vols)
    ensures old(c.ready) || !blocking ==>
              lost || c.Idle() || rounds < |ReplyTo(old(c.ready), blocking, old(c.vols))| + |c.faults|
    ensures old(c.ready) || !blocking ==>
              lost || c.Idle() || GoodRounds(env, rounds) < |ReplyTo(old(c.ready), blocking, old(c.vols))|
  {
    ghost var toOpen := c.ready || blocking;
    lost, made := Fetch(c, blocking, env, changes, rounds);
    BodyIsOpened(c.vols, 0);
    AllSent(c.vols);
    if !lost && c.Idle() {
      CleanOnlyWithoutFaults(c.clean, c.faults);
      if toOpen && Opens(c.vols) {
        InsertedInBody(c.vols, c.faults);
        ReplyAnnounces(c.out, c.vols, c.faults);
      }
    }
  }

  /** A completed status request: the bytes of the document and one END. */
  method FetchStatus(c: Connection, pieces: seq<string>, env: (nat, nat) -> Env, changes: nat -> Option<Product>,
                     rounds: nat)
    returns (lost: bool, made: nat)
    requires c.Valid() && c.Idle() && c.out == "" && forall n, k :: NoTimeOut(env(n, k))
    modifies c
    ensures made <= rounds && (!lost ==> made == rounds)
    ensures lost ==> LostAfter(c, env, made, Flatten(pieces) + END) && c.faults == []
    ensures !lost && c.Idle() ==> c.out == if Flatten(pieces) == "" then "" else Flatten(pieces) + END
    ensures lost || c.Idle() || rounds < |Flatten(pieces)| + |END|
  {
    NothingSent(c.clean, c.faults);
    c.CommandStatus(pieces);
    lost, made := c.DeliverAll(env, changes, rounds);
  }

  /** The size line, and then a read that fails. */
  method SizeThenFault(c: Connection, e: Env)
    requires c.Valid() && c.haveResponse && c.downloading && c.downloadFile.Some? && c.msgBufs == []
    requires e.write1 == [] && e.write2 == [] && c.clean == "" && c.faults == []
    modifies c
    ensures c.Valid() && c.Reading() && c.faults == [|old(c.responseStr)|]
    ensures c.clean + c.Remaining() == old(c.Remaining())
  {
    var r := c.DoDeliver(e);
    r := c.DoDeliver(e.(readFails := true));
  }

  method RestWithoutFault(c: Connection, e: Env, rounds: nat)
    requires c.Valid() && c.Reading() && e.write1 == [] && e.write2 == [] && !e.readFails
    requires rounds >= |c.Remaining()|
    modifies c
    ensures c.Valid() && c.Idle() && c.clean == old(c.clean) + old(c.Remaining()) && c.faults == old(c.faults)
  {
    var env: (nat, nat) -> Env := (n, k) => e;
    var lost, made := c.DeliverAll(env, (n: nat) => None, rounds);
  }

  /** The first read fails, and no other: the client gets the size line, END, the files and END. */
  method OneFailedRead(c: Connection, e: Env, rounds: nat)
    requires c.Valid() && c.Idle() && c.ready && c.out == "" && Opens(c.vols)
    requires e.write1 == [] && e.write2 == [] && !e.readFails && rounds >= |WholeReply(c.vols)|
    modifies c
    ensures c.Idle() && c.out == SizeLine(old(c.vols)) + END + Body(old(c.vols), 0) + END
    ensures Announces(c.out, TotalSize(old(c.vols)))
  {
    ghost var vols := c.vols;
    NothingSent(c.clean, c.faults);
    c.CommandDownload(false);
    SizeThenFault(c, e);
    RestWithoutFault(c, e, rounds);
    OneInserted(vols);
    AnnouncedBefore(vols, END, Body(vols, 0), END);
  }

  lemma AnnouncedBefore(vols: seq<Volume>, a: string, b: string, c: string)
    ensures Announces(SizeLine(vols) + a + b + c, TotalSize(vols))
  {
    SizeIsAnnounced(vols, a + b + c);
    assert SizeLine(vols) + a + b + c == SizeLine(vols) + (a + b + c);
  }

  lemma OneInserted(vols: seq<Volume>)
    requires Opens(vols)
    ensures HeadOf(vols) == SizeLine(vols) && Offsets([|SizeLine(vols)|], |WholeReply(vols)|)
    ensures Inserted(WholeReply(vols), [|SizeLine(vols)|]) == SizeLine(vols) + END + Body(vols, 0) + END
  {
    var h, b := SizeLine(vols), Stream(vols, 0);
    StreamIsBody(vols, 0);
    assert (h + b)[..|h|] == h && (h + b)[|h|..] == b && [|h|][..0] == [];
    assert Inserted(h, []) == h;
    Join(h + END, Body(vols, 0), END);
  }

  /** A volume that cannot be opened, not the first: the client gets END where that volume should be,
      and nothing of those behind it. */
  method MissingFile(c: Connection, e: Env, rounds: nat)
    requires c.Valid() && c.Idle() && c.ready && c.out == "" && Opens(c.vols) && !AllOpen(c.vols)
    requires e.write1 == [] && e.write2 == [] && !e.readFails && rounds >= |WholeReply(c.vols)|
    modifies c
    ensures c.Idle() && c.out == SizeLine(old(c.vols)) + Flatten(FilesAt(old(c.vols), Opened(old(c.vols), 0))) + END
    ensures Unsent(old(c.vols)) != [] && Unsent(old(c.vols))[0] < |old(c.vols)|
    ensures old(c.vols)[Unsent(old(c.vols))[0]].file.None?
  {
    ghost var vols := c.vols;
    OpenedIsPrefix(vols, 0);
    StreamIsBody(vols, 0);
    Join(SizeLine(vols), Body(vols, 0), END);
    var env: (nat, nat) -> Env := (n, k) => e;
    var lost, made := FetchRequest(c, false, env, (n: nat) => None, rounds);
  }
}
