/** The command buffer that every connection and every request handler reads through.
    Bytes arrive in arbitrary chunks; CFIFO.Check splits them in place into commands.
    The specification is written on the whole byte stream, which knows nothing of chunks. */
module CommandFifo {

  // ---------------------------------------------------------------------------
  // The stream-level specification
  // ---------------------------------------------------------------------------

  predicate IsSep(c: char) {
    c == '\r' || c == '\n'
  }

  ghost predicate NulFree(s: string) {
    forall i :: 0 <= i < |s| ==> s[i] != '\0'
  }

  function Max(a: nat, b: nat): nat {
    if a < b then b else a
  }

  /** Length of the longest prefix without a separator. */
  function Span(s: string): (k: nat)
    ensures k <= |s|
    ensures forall i :: 0 <= i < k ==> !IsSep(s[i])
    ensures k < |s| ==> IsSep(s[k])
  {
    if s == [] || IsSep(s[0]) then 0 else 1 + Span(s[1..])
  }

  /** The non-blank commands of a stream: its non-empty terminated pieces. */
  function Commands(s: string): seq<string>
    decreases |s|
  {
    var k := Span(s);
    if k == |s| then []
    else (if k > 0 then [s[..k]] else []) + Commands(s[k + 1..])
  }

  /** What follows the last separator. */
  function Tail(s: string): string
    decreases |s|
  {
    var k := Span(s);
    if k == |s| then s else Tail(s[k + 1..])
  }

  /** Length of the longest line of a stream, terminated or not. */
  function LongestLine(s: string): nat
    decreases |s|
  {
    var k := Span(s);
    if k == |s| then k else Max(k, LongestLine(s[k + 1..]))
  }

  function NonBlank(cmds: seq<string>): seq<string> {
    if cmds == [] then []
    else (if cmds[0] == "" then [] else [cmds[0]]) + NonBlank(cmds[1..])
  }

  lemma Regroup<T>(whole: seq<T>, a: seq<T>, bc: seq<T>, b: seq<T>, c: seq<T>, ab: seq<T>)
    requires whole == a + bc && bc == b + c && ab == a + b
    ensures whole == ab + c
  {
  }

  lemma {:induction false} NonBlankConcat(a: seq<string>, b: seq<string>)
    ensures NonBlank(a + b) == NonBlank(a) + NonBlank(b)
  {
    if a == [] {
      assert a + b == b;
    } else {
      NonBlankConcat(a[1..], b);
      assert (a + b)[0] == a[0] && (a + b)[1..] == a[1..] + b;
      var first := if a[0] == "" then [] else [a[0]];
      Regroup(NonBlank(a + b), first, NonBlank(a[1..] + b), NonBlank(a[1..]), NonBlank(b), NonBlank(a));
    }
  }

  /** Span is determined by where the first separator is. */
  lemma {:induction false} SpanIs(s: string, k: nat)
    requires k <= |s| && (forall i :: 0 <= i < k ==> !IsSep(s[i]))
    requires k < |s| ==> IsSep(s[k])
    ensures Span(s) == k
  {
    if Span(s) < k {
      assert false;
    }
  }

  lemma SpanAtLeast(s: string, k: nat)
    requires k <= |s| && (forall i :: 0 <= i < k ==> !IsSep(s[i]))
    ensures k <= Span(s) <= LongestLine(s)
  {
    if Span(s) < k {
      assert false;
    }
  }

  lemma {:induction false} TailHasNoSep(s: string)
    ensures |Tail(s)| <= |s| && Span(Tail(s)) == |Tail(s)|
    ensures Tail(s) == s[|s| - |Tail(s)|..]
    decreases |s|
  {
    var k := Span(s);
    if k < |s| {
      TailHasNoSep(s[k + 1..]);
    }
  }

  lemma CutSlices(a: string, b: string, k: nat)
    requires k < |a|
    ensures (a + b)[..k] == a[..k] && (a + b)[k + 1..] == a[k + 1..] + b
  {
  }

  /** Where a stream is cut does not matter: only the unterminated tail is carried over. */
  lemma {:induction false} CutAnywhere(a: string, b: string)
    ensures Commands(a + b) == Commands(a) + Commands(Tail(a) + b)
    ensures Tail(a + b) == Tail(Tail(a) + b)
    ensures LongestLine(a + b) == Max(LongestLine(a), LongestLine(Tail(a) + b))
    decreases |a|
  {
    var k := Span(a);
    if k == |a| {
      SpanAtLeast(a + b, k);
    } else {
      SpanIs(a + b, k);
      CutSlices(a, b, k);
      CutAnywhere(a[k + 1..], b);
      var first, rest := (if k > 0 then [a[..k]] else []), a[k + 1..];
      Regroup(Commands(a + b), first, Commands(rest + b), Commands(rest), Commands(Tail(rest) + b), Commands(a));
    }
  }

  /** A full buffer overflows exactly when it holds one single unterminated line. */
  lemma {:induction false} FullBuffer(s: string, m: nat)
    requires |s| <= m
    ensures LongestLine(s) <= |s|
    ensures LongestLine(s) >= m && m > 0 ==> Span(s) == |s| == m
    ensures |Tail(s)| <= LongestLine(s)
    decreases |s|
  {
    var k := Span(s);
    if k < |s| {
      FullBuffer(s[k + 1..], m);
    }
  }

  /** Separators in front of a stream add nothing. */
  lemma {:induction false} SkipSeps(s: string, n: nat)
    requires n <= |s| && (forall i :: 0 <= i < n ==> IsSep(s[i]))
    ensures Commands(s) == Commands(s[n..]) && Tail(s) == Tail(s[n..])
    decreases n
  {
    if n == 0 {
      assert s[0..] == s;
    } else {
      SpanIs(s, 0);
      SkipSeps(s[1..], n - 1);
      assert s[1..][n - 1..] == s[n..];
    }
  }

  /** One turn of the splitting loop: a line of length len and its run of sep separators. */
  lemma {:induction false} SplitOnce(s: string, len: nat, sep: nat)
    requires 0 < sep && len + sep <= |s|
    requires forall i :: 0 <= i < len ==> !IsSep(s[i])
    requires forall i :: len <= i < len + sep ==> IsSep(s[i])
    ensures Commands(s) == NonBlank([s[..len]]) + Commands(s[len + sep..])
    ensures Tail(s) == Tail(s[len + sep..])
  {
    SpanIs(s, len);
    SkipSeps(s[len + 1..], sep - 1);
    assert s[len + 1..][sep - 1..] == s[len + sep..];
    assert NonBlank([s[..len]]) == if len > 0 then [s[..len]] else [];
  }

  /** What is left after splitting a clean buffer of at most m bytes. */
  lemma LeftOver(data: string, cmdlen: nat, m: nat)
    requires NulFree(data) && |data| <= m && 0 < m && cmdlen == |Tail(data)|
    ensures cmdlen >= m <==> LongestLine(data) >= m
    ensures cmdlen >= m ==> Commands(data) == []
    ensures NulFree(Tail(data)) && Span(Tail(data)) == cmdlen
    ensures Span("") == 0
  {
    FullBuffer(data, m);
    TailHasNoSep(data);
  }

  /** Half way through: cmds were delivered, the stream from position from on is left. */
  ghost predicate Splitting(data: string, cmds: seq<string>, from: nat)
    requires from <= |data|
  {
    Commands(data) == NonBlank(cmds) + Commands(data[from..]) && Tail(data) == Tail(data[from..])
  }

  /** A line at position from, and the separators behind it: none only at the end. */
  ghost predicate Piece(data: string, from: nat, len: nat, sep: nat) {
    && from + len + sep <= |data|
    && (forall i :: from <= i < from + len ==> !IsSep(data[i]))
    && (forall i :: from + len <= i < from + len + sep ==> IsSep(data[i]))
    && (NulFree(data) && sep == 0 ==> from + len == |data|)
  }

  lemma {:induction false} SplitNext(data: string, cmds: seq<string>, from: nat, len: nat, sep: nat)
    requires 0 < sep && Piece(data, from, len, sep)
    requires Splitting(data, cmds, from)
    ensures Splitting(data, cmds + [data[from..from + len]], from + len + sep)
  {
    var rest, line, next := data[from..], data[from..from + len], data[from + len + sep..];
    assert rest[..len] == line && rest[len + sep..] == next;
    SplitOnce(rest, len, sep);
    NonBlankConcat(cmds, [line]);
    Regroup(Commands(data), NonBlank(cmds), Commands(rest), NonBlank([line]), Commands(next), NonBlank(cmds + [line]));
  }

  lemma SplitDone(data: string, cmds: seq<string>, from: nat)
    requires from <= |data| && (forall i :: from <= i < |data| ==> !IsSep(data[i]))
    requires Splitting(data, cmds, from)
    ensures NonBlank(cmds) == Commands(data) && Tail(data) == data[from..]
  {
    SpanIs(data[from..], |data| - from);
  }

  /** Writing commands one per line, as requests are fed to a handler. */
  function Framed(cmds: seq<string>): string {
    if cmds == [] then "" else cmds[0] + "\r\n" + Framed(cmds[1..])
  }

  /** Splitting undoes framing. */
  lemma {:induction false} SplitUndoesFraming(cmds: seq<string>)
    requires forall c :: c in cmds ==> c != "" && forall i :: 0 <= i < |c| ==> c[i] != '\r' && c[i] != '\n'
    ensures Commands(Framed(cmds)) == cmds && Tail(Framed(cmds)) == ""
  {
    if cmds != [] {
      var c, rest := cmds[0], Framed(cmds[1..]);
      assert c in cmds;
      SplitUndoesFraming(cmds[1..]);
      SplitFramed(c, rest);
    }
  }

  lemma SplitFramed(c: string, rest: string)
    requires c != "" && forall i :: 0 <= i < |c| ==> c[i] != '\r' && c[i] != '\n'
    ensures Commands(c + "\r\n" + rest) == [c] + Commands(rest)
    ensures Tail(c + "\r\n" + rest) == Tail(rest)
  {
    SplitEnded(c, "\r\n", rest);
  }

  lemma SplitEnded(c: string, end: string, rest: string)
    requires c != "" && forall i :: 0 <= i < |c| ==> c[i] != '\r' && c[i] != '\n'
    requires end != "" && forall i :: 0 <= i < |end| ==> end[i] == '\r' || end[i] == '\n'
    ensures Commands(c + end + rest) == [c] + Commands(rest)
    ensures Tail(c + end + rest) == Tail(rest)
  {
    var s := c + end + rest;
    assert s[..|c|] == c && s[|c| + |end|..] == rest;
    SplitOnce(s, |c|, |end|);
  }

  /** Whatever ends a line, CR LF or either of them alone, the line is one command, blanks and all;
      without an end it is none. */
  lemma LineIsOneCommand(c: string, end: string)
    requires c != "" && forall i :: 0 <= i < |c| ==> c[i] != '\r' && c[i] != '\n'
    requires end == "\r\n" || end == "\n" || end == "\r"
    ensures Commands(c + end) == [c] && Tail(c + end) == ""
    ensures Commands(c) == [] && Tail(c) == c
  {
    SplitEnded(c, end, "");
    assert c + end + "" == c + end;
    SpanIs(c, |c|);
  }

  lemma SplitsLineOk()
    ensures Commands("LINE OK\r\n") == ["LINE OK"]
  {
    LineIsOneCommand("LINE OK", "\r\n");
    assert "LINE OK" + "\r\n" == "LINE OK\r\n";
  }

  /** No command holds a line end, and nothing that holds one is kept back. */
  lemma {:induction false} CommandsAreLines(s: string)
    ensures forall c :: c in Commands(s) ==> c != "" && forall i :: 0 <= i < |c| ==> c[i] != '\r' && c[i] != '\n'
    ensures forall i :: 0 <= i < |Tail(s)| ==> Tail(s)[i] != '\r' && Tail(s)[i] != '\n'
    decreases |s|
  {
    var k := Span(s);
    if k < |s| {
      CommandsAreLines(s[k + 1..]);
    }
  }

  /** The m characters from position i on hold no line end. */
  ghost predicate Stretch(s: string, i: nat, m: nat) {
    i + m <= |s| && forall k :: i <= k < i + m ==> s[k] != '\r' && s[k] != '\n'
  }

  /** The longest line is the longest stretch without a line end. */
  lemma LongestLineIs(s: string, m: nat)
    ensures LongestLine(s) >= m <==> exists i :: Stretch(s, i, m)
  {
    if LongestLine(s) >= m {
      var i := LongestAt(s);
      assert Stretch(s, i, m);
    }
    forall i | Stretch(s, i, m) ensures LongestLine(s) >= m {
      NoLongerStretch(s, i, m);
    }
  }

  lemma {:induction false} LongestAt(s: string) returns (i: nat)
    ensures Stretch(s, i, LongestLine(s))
    decreases |s|
  {
    var n := Span(s);
    i := 0;
    if n < |s| {
      var r := LongestAt(s[n + 1..]);
      if LongestLine(s) > n {
        i := n + 1 + r;
        assert forall k :: i <= k < i + LongestLine(s) ==> s[k] == s[n + 1..][k - n - 1];
      }
    }
  }

  lemma {:induction false} NoLongerStretch(s: string, i: nat, m: nat)
    requires Stretch(s, i, m)
    ensures m <= LongestLine(s)
    decreases |s|
  {
    var n := Span(s);
    if n < |s| {
      if i > n {
        NoLongerStretch(s[n + 1..], i - n - 1, m);
      } else {
        assert i + m <= n;
      }
    }
  }

  /** Only blank lines are left out. */
  lemma {:induction false} NonBlankKeeps(cmds: seq<string>)
    ensures forall c :: c in NonBlank(cmds) <==> c in cmds && c != ""
  {
    if cmds != [] {
      NonBlankKeeps(cmds[1..]);
      assert cmds == [cmds[0]] + cmds[1..];
    }
  }

  // ---------------------------------------------------------------------------
  // The buffer
  // ---------------------------------------------------------------------------

  /** What read() may do. */
  datatype ReadResult = Failed | Again | AtEof | Data(bytes: string)

  /** How check() ends: a return value or one of its two exceptions. */
  datatype Outcome = NothingYet | Eof | Got(n: nat) | ReadError | Overflow

  class CFIFO {
    const cmdmaxlen: nat
    const cmdbuf: array<char>
    var cmdwp: nat

    ghost predicate Valid()
      reads this
    {
      cmdmaxlen > 0 && cmdbuf.Length == cmdmaxlen + 1 && cmdwp <= cmdmaxlen
    }

    /** The bytes kept for the next call. */
    function Pending(): string
      requires Valid()
      reads this, cmdbuf
    {
      cmdbuf[..cmdwp]
    }

    /** Between calls: one unterminated line, and room for a non-empty read. */
    ghost predicate Clean()
      requires Valid()
      reads this, cmdbuf
    {
      cmdwp < cmdmaxlen && NulFree(Pending()) && Span(Pending()) == cmdwp
    }

    constructor (cmdmaxlen_init: nat)
      requires cmdmaxlen_init > 0
      ensures Valid() && Clean() && fresh(cmdbuf)
      ensures cmdmaxlen == cmdmaxlen_init && Pending() == ""
    {
      cmdmaxlen := cmdmaxlen_init;
      cmdbuf := new char[cmdmaxlen_init + 1];
      cmdwp := 0;
      new;
    }

    /** strcspn(cmdbuf + from, "\r\n"): stops at a separator or at the NUL at end. */
    method Strcspn(from: nat, end: nat) returns (len: nat)
      requires from <= end < cmdbuf.Length && cmdbuf[end] == '\0'
      ensures from + len <= end
      ensures forall i :: from <= i < from + len ==> !IsSep(cmdbuf[i]) && cmdbuf[i] != '\0'
      ensures IsSep(cmdbuf[from + len]) || cmdbuf[from + len] == '\0'
    {
      len := 0;
      while !IsSep(cmdbuf[from + len]) && cmdbuf[from + len] != '\0'
        invariant from + len <= end
        invariant forall i :: from <= i < from + len ==> !IsSep(cmdbuf[i]) && cmdbuf[i] != '\0'
        decreases end - len
      {
        len := len + 1;
      }
    }

    /** strspn(cmdbuf + from, "\r\n"). */
    method Strspn(from: nat, end: nat) returns (len: nat)
      requires from <= end < cmdbuf.Length && cmdbuf[end] == '\0'
      ensures from + len <= end
      ensures forall i :: from <= i < from + len ==> IsSep(cmdbuf[i])
      ensures !IsSep(cmdbuf[from + len])
    {
      len := 0;
      while IsSep(cmdbuf[from + len])
        invariant from + len <= end
        invariant forall i :: from <= i < from + len ==> IsSep(cmdbuf[i])
        decreases end - len
      {
        len := len + 1;
      }
    }

    /** memmove(cmdbuf, cmdbuf + from, len). */
    method MoveDown(from: nat, len: nat)
      requires from + len <= cmdbuf.Length
      modifies cmdbuf
      ensures cmdbuf[..len] == old(cmdbuf[from..from + len])
    {
      var i := 0;
      while i < len
        invariant i <= len
        invariant forall j :: 0 <= j < i ==> cmdbuf[j] == old(cmdbuf[from + j])
        invariant forall j :: i <= j < cmdbuf.Length ==> cmdbuf[j] == old(cmdbuf[j])
      {
        cmdbuf[i] := cmdbuf[from + i];
        i := i + 1;
      }
    }

    /** The next line and its separators: strcspn, then strspn, from cmdrp on. */
    method Scan(ghost data: string, cmdrp: nat) returns (cmdlen: nat, seplen: nat)
      requires Valid() && cmdbuf[cmdwp] == '\0'
      requires |data| == cmdwp && cmdrp <= cmdwp && cmdbuf[cmdrp..cmdwp] == data[cmdrp..]
      ensures Piece(data, cmdrp, cmdlen, seplen)
    {
      assert forall i :: cmdrp <= i < cmdwp ==>
               cmdbuf[i] == cmdbuf[cmdrp..cmdwp][i - cmdrp] == data[cmdrp..][i - cmdrp] == data[i];
      cmdlen := Strcspn(cmdrp, cmdwp);
      seplen := Strspn(cmdrp + cmdlen, cmdwp);
    }

    /** The splitting loop of check(). Every index stays below cmdbuf.Length for any bytes;
        without NUL bytes it delivers the commands of data and stops at its tail. */
    method Split(ghost data: string) returns (cmds: seq<string>, cmdrp: nat, cmdlen: nat)
      requires Valid() && cmdbuf[cmdwp] == '\0' && data == cmdbuf[..cmdwp]
      modifies cmdbuf
      ensures cmdrp + cmdlen <= cmdwp
      ensures cmdrp == 0 ==> cmds == []
      ensures NulFree(data) ==> cmdrp + cmdlen == cmdwp && cmdbuf[cmdrp..cmdwp] == Tail(data)
      ensures NulFree(data) ==> NonBlank(cmds) == Commands(data)
    {
      cmds, cmdrp := [], 0;
      var seplen;
      cmdlen, seplen := Scan(data, cmdrp);
      assert data[0..] == data;
      while seplen != 0
        invariant cmdrp <= cmdwp == |data| && cmdbuf[cmdwp] == '\0'
        invariant cmdrp == 0 ==> cmds == []
        invariant cmdbuf[cmdrp..cmdwp] == data[cmdrp..]
        invariant Piece(data, cmdrp, cmdlen, seplen)
        invariant Splitting(data, cmds, cmdrp)
        decreases cmdwp - cmdrp
      {
        cmds, cmdrp, cmdlen, seplen := SplitOff(data, cmds, cmdrp, cmdlen, seplen);
      }
      if NulFree(data) {
        SplitDone(data, cmds, cmdrp);
      }
    }

    /** One round of the loop. */
    method SplitOff(ghost data: string, cmds: seq<string>, cmdrp: nat, cmdlen: nat, seplen: nat)
      returns (cmds': seq<string>, cmdrp': nat, cmdlen': nat, seplen': nat)
      requires Valid() && cmdrp <= cmdwp == |data| && cmdbuf[cmdwp] == '\0'
      requires cmdbuf[cmdrp..cmdwp] == data[cmdrp..] && seplen > 0
      requires Piece(data, cmdrp, cmdlen, seplen) && Splitting(data, cmds, cmdrp)
      modifies cmdbuf
      ensures cmdrp < cmdrp' <= cmdwp && cmdbuf[cmdwp] == '\0'
      ensures cmdbuf[cmdrp'..cmdwp] == data[cmdrp'..]
      ensures Piece(data, cmdrp', cmdlen', seplen') && Splitting(data, cmds', cmdrp')
    {
      cmds', cmdrp' := DeliverNext(data, cmds, cmdrp, cmdlen, seplen);
      cmdlen', seplen' := Scan(data, cmdrp');
    }

    method DeliverNext(ghost data: string, cmds: seq<string>, cmdrp: nat, cmdlen: nat, seplen: nat)
      returns (cmds': seq<string>, cmdrp': nat)
      requires Valid() && cmdbuf[cmdwp] == '\0' && cmdrp <= cmdwp == |data|
      requires cmdbuf[cmdrp..cmdwp] == data[cmdrp..] && seplen > 0
      requires Piece(data, cmdrp, cmdlen, seplen) && Splitting(data, cmds, cmdrp)
      modifies cmdbuf
      ensures cmdbuf[cmdwp] == '\0' && cmdrp < cmdrp' <= cmdwp
      ensures cmdbuf[cmdrp'..cmdwp] == data[cmdrp'..] && Splitting(data, cmds', cmdrp')
    {
      cmds', cmdrp' := Deliver(data, cmds, cmdrp, cmdlen, seplen);
      ghost var line := data[cmdrp..cmdrp + cmdlen];
      assert Splitting(data, cmds + [line], cmdrp + cmdlen + seplen) by {
        SplitNext(data, cmds, cmdrp, cmdlen, seplen);
      }
    }

    /** Terminate the line, hand it to the partner, and step over it and its separators. */
    method Deliver(ghost data: string, cmds: seq<string>, cmdrp: nat, cmdlen: nat, seplen: nat)
      returns (cmds': seq<string>, cmdrp': nat)
      requires Valid() && cmdbuf[cmdwp] == '\0' && seplen > 0
      requires cmdrp + cmdlen + seplen <= cmdwp == |data| && cmdbuf[cmdrp..cmdwp] == data[cmdrp..]
      modifies cmdbuf
      ensures cmdbuf[cmdwp] == '\0'
      ensures cmds' == cmds + [data[cmdrp..cmdrp + cmdlen]] && cmdrp' == cmdrp + cmdlen + seplen
      ensures cmdbuf[cmdrp'..cmdwp] == data[cmdrp'..]
    {
      assert forall i :: cmdrp <= i < cmdwp ==>
               cmdbuf[i] == cmdbuf[cmdrp..cmdwp][i - cmdrp] == data[cmdrp..][i - cmdrp] == data[i];
      cmdbuf[cmdrp + cmdlen] := '\0';
      assert cmdbuf[cmdrp..cmdrp + cmdlen] == data[cmdrp..cmdrp + cmdlen];
      cmds' := cmds + [cmdbuf[cmdrp..cmdrp + cmdlen]];
      cmdrp' := cmdrp + cmdlen + seplen;
    }

    /** read(fd, &cmdbuf[cmdwp], cmdmaxlen - cmdwp) and the NUL behind it. */
    method Append(bytes: string)
      requires Valid() && |bytes| <= cmdmaxlen - cmdwp
      modifies this, cmdbuf
      ensures Valid() && cmdbuf[cmdwp] == '\0'
      ensures cmdwp == old(cmdwp) + |bytes| && Pending() == old(Pending()) + bytes
    {
      forall i | 0 <= i < |bytes| {
        cmdbuf[cmdwp + i] := bytes[i];
      }
      assert cmdbuf[..cmdwp + |bytes|] == old(Pending()) + bytes;
      cmdwp := cmdwp + |bytes|;
      cmdbuf[cmdwp] := '\0';
    }

    /** The part of check() behind a successful read. */
    method Take(bytes: string) returns (out: Outcome, cmds: seq<string>)
      requires Valid() && 0 < |bytes| <= cmdmaxlen - cmdwp
      modifies this, cmdbuf
      ensures Valid()
      ensures old(Clean()) && NulFree(bytes) ==>
                && Clean()
                && out == (if LongestLine(old(Pending()) + bytes) >= cmdmaxlen then Overflow else Got(|bytes|))
                && NonBlank(cmds) == Commands(old(Pending()) + bytes)
                && Pending() == (if out.Overflow? then "" else Tail(old(Pending()) + bytes))
    {
      ghost var data := Pending() + bytes;
      ghost var clean := Clean() && NulFree(bytes);
      Append(bytes);
      assert cmdbuf[..cmdwp] == data;
      var cmdrp, cmdlen;
      cmds, cmdrp, cmdlen := Split(data);
      if clean {
        LeftOver(data, cmdlen, cmdmaxlen);
      }
      if cmdlen >= cmdmaxlen {
        cmdwp := 0;
        return Overflow, cmds;
      }
      MoveDown(cmdrp, cmdlen);
      cmdwp := cmdwp - cmdrp;
      return Got(|bytes|), cmds;
    }

    /** check(): one read, then split. cmds are the strings handed to cfifo_callback. */
    method Check(fd: int, rd: ReadResult) returns (out: Outcome, cmds: seq<string>)
      requires Valid()
      requires rd.Data? ==> 0 < |rd.bytes| <= cmdmaxlen - cmdwp
      modifies this, cmdbuf
      ensures Valid()
      ensures fd < 0 || !rd.Data? ==> cmdwp == old(cmdwp) && Pending() == old(Pending()) && cmds == []
      ensures fd < 0 || rd.Again? ==> out == NothingYet
      ensures fd >= 0 && rd.AtEof? ==> out == Eof
      ensures fd >= 0 && rd.Failed? ==> out == ReadError
      ensures fd >= 0 && rd.Data? && old(Clean()) && NulFree(rd.bytes) ==>
                && Clean()
                && out == (if LongestLine(old(Pending()) + rd.bytes) >= cmdmaxlen then Overflow else Got(|rd.bytes|))
                && NonBlank(cmds) == Commands(old(Pending()) + rd.bytes)
                && Pending() == (if out.Overflow? then "" else Tail(old(Pending()) + rd.bytes))
    {
      if fd < 0 {
        return NothingYet, [];
      }
      match rd
      case Failed => return ReadError, [];
      case Again => return NothingYet, [];
      case AtEof => return Eof, [];
      case Data(bytes) =>
        out, cmds := Take(bytes);
    }
  }

  /** What is known after part of a stream was read; fifo state given as its pending bytes. */
  ghost predicate Progress(read: string, cmds: seq<string>, overflow: bool, pending: string, m: nat) {
    && NonBlank(cmds) == Commands(read)
    && (overflow <==> LongestLine(read) >= m)
    && (!overflow ==> pending == Tail(read))
  }

  lemma ProgressStep(read: string, bytes: string, cmds: seq<string>, more: seq<string>, pending: string, m: nat)
    requires Progress(read, cmds, false, pending, m)
    requires NonBlank(more) == Commands(pending + bytes)
    ensures var over := LongestLine(pending + bytes) >= m;
            Progress(read + bytes, cmds + more, over, if over then "" else Tail(pending + bytes), m)
  {
    CutAnywhere(read, bytes);
    NonBlankConcat(cmds, more);
  }

  lemma LongestLineGrows(a: string, b: string)
    ensures LongestLine(a) <= LongestLine(a + b)
  {
    CutAnywhere(a, b);
  }

  /** How many of the left bytes a read into room free bytes returns; any amount may be picked. */
  function ReadSize(picked: nat, room: nat, left: nat): (n: nat)
    requires 0 < room && 0 < left
    ensures 0 < n <= room && n <= left
    ensures 0 < picked && picked <= room && picked <= left ==> n == picked
  {
    if 0 < picked <= room && picked <= left then picked else 1
  }

  method ReadSome(fifo: CFIFO, stream: string, at: nat, n: nat, cmds: seq<string>)
    returns (cmds': seq<string>, overflow: bool)
    requires fifo.Valid() && fifo.Clean() && NulFree(stream)
    requires at + n <= |stream| && 0 < n <= fifo.cmdmaxlen - fifo.cmdwp
    requires Progress(stream[..at], cmds, false, fifo.Pending(), fifo.cmdmaxlen)
    modifies fifo, fifo.cmdbuf
    ensures fifo.Valid() && fifo.Clean()
    ensures Progress(stream[..at + n], cmds', overflow, fifo.Pending(), fifo.cmdmaxlen)
  {
    var bytes := stream[at..at + n];
    assert stream[..at] + bytes == stream[..at + n];
    ghost var pending := fifo.Pending();
    var out, more := fifo.Check(0, Data(bytes));
    ProgressStep(stream[..at], bytes, cmds, more, pending, fifo.cmdmaxlen);
    cmds', overflow := cmds + more, out.Overflow?;
  }

  lemma ProgressEnd(stream: string, at: nat, cmds: seq<string>, overflow: bool, pending: string, m: nat)
    requires at <= |stream| && (overflow || at == |stream|)
    requires Progress(stream[..at], cmds, overflow, pending, m)
    ensures overflow <==> LongestLine(stream) >= m
    ensures NonBlank(cmds) == Commands(stream[..at])
    ensures !overflow ==> stream[..at] == stream && pending == Tail(stream)
  {
    assert stream[..at] + stream[at..] == stream;
    LongestLineGrows(stream[..at], stream[at..]);
    assert at == |stream| ==> stream[..at] == stream;
  }

  /** Whatever sizes the reads return, a NUL-free stream is cut into the commands of the whole
      stream, every read asks for at least one byte, and the buffer overflows exactly when some
      line reaches the buffer length before its terminator. */
  method ReadStream(fifo: CFIFO, stream: string, pick: nat -> nat)
    returns (cmds: seq<string>, overflow: bool, consumed: nat)
    requires fifo.Valid() && fifo.Clean() && fifo.Pending() == "" && NulFree(stream)
    modifies fifo, fifo.cmdbuf
    ensures fifo.Valid() && fifo.Clean() && consumed <= |stream|
    ensures overflow <==> LongestLine(stream) >= fifo.cmdmaxlen
    ensures NonBlank(cmds) == Commands(stream[..consumed])
    ensures !overflow ==> NonBlank(cmds) == Commands(stream) && fifo.Pending() == Tail(stream)
    ensures forall c :: c in cmds ==> forall i :: 0 <= i < |c| ==> c[i] != '\r' && c[i] != '\n'
  {
    cmds, overflow, consumed := [], false, 0;
    while consumed < |stream| && !overflow
      invariant fifo.Valid() && fifo.Clean() && consumed <= |stream|
      invariant Progress(stream[..consumed], cmds, overflow, fifo.Pending(), fifo.cmdmaxlen)
      decreases |stream| - consumed
    {
      var n := ReadSize(pick(consumed), fifo.cmdmaxlen - fifo.cmdwp, |stream| - consumed);
      cmds, overflow := ReadSome(fifo, stream, consumed, n, cmds);
      consumed := consumed + n;
    }
    ProgressEnd(stream, consumed, cmds, overflow, fifo.Pending(), fifo.cmdmaxlen);
    NonBlankKeeps(cmds);
    CommandsAreLines(stream[..consumed]);
  }
}
