/** A request handler: a child process that is fed the lines of one request over a pipe and
    answers over another. The handler is started, fed, asked to terminate, killed and restarted;
    after a restart the request is replayed from its first line. */
module Handler {
  import opened CommandFifo
  import opened Wrappers
  import opened Writing

  // ---------------------------------------------------------------------------
  // State and steps
  // ---------------------------------------------------------------------------

  /** pid is negative without a process. pipe holds all bytes put into the request pipe of the
      present process, lines the complete lines among them, mark how many of those were there when
      the present request was attached. failed: an internal check stopped the server. */
  datatype State = State(used: bool, pid: int, requestOpen: bool, responseOpen: bool, active: bool,
                         sigterm: bool, sigkill: bool, down: bool,
                         content: Option<seq<string>>, iter: nat,
                         pipe: string, lines: seq<string>, mark: nat, failed: bool)

  const NEW := State(false, -1, false, false, false, false, false, false, None, 0, "", [], 0, false)

  /** What reading the response pipe yields; each command is accepted by the request or not. */
  datatype ReadEvent = NoData | Ended | Responses(accepted: seq<bool>)

  function Attach(h: State, content: seq<string>): State {
    h.(content := Some(content), iter := 0, used := true, mark := |h.lines|)
  }

  function Detach(h: State): State {
    h.(content := None)
  }

  function Started(h: State, pid: int): State {
    if h.requestOpen || h.responseOpen then h.(failed := true)
    else
      h.(pid := pid, requestOpen := true, responseOpen := true, used := false, active := true,
         sigterm := false, sigkill := false, down := false, iter := 0,
         pipe := "", lines := [], mark := 0)
  }

  function Terminate(h: State): State {
    if h.pid <= 0 then h.(failed := true) else h.(sigterm := true, active := false)
  }

  function Line(s: string): string {
    s + "\r\n"
  }

  function PushPart(h: State, line: string, sent: string, complete: bool): State {
    var h1 := h.(pipe := h.pipe + sent);
    if complete then h1.(iter := h.iter + 1, lines := h.lines + [line]) else Terminate(h1)
  }

  /** push_request(); sent is what writen_tmo managed to write of the next line. */
  function Push(h: State, sent: string): State {
    if !h.active || h.content.None? || h.iter >= |h.content.value| then h
    else if !h.requestOpen then h.(failed := true)
    else
      var line := h.content.value[h.iter];
      PushPart(h, line, sent, sent == Line(line))
  }

  /** cfifo_callback() on each command in turn. */
  function Respond(h: State, accepted: seq<bool>): State
    decreases |accepted|
  {
    if accepted == [] then h
    else
      var h1 := if h.content.Some? && !accepted[0] then Terminate(h) else h;
      if h1.failed then h1 else Respond(h1, accepted[1..])
  }

  /** check_response(). */
  function Read(h: State, rd: ReadEvent): State {
    match rd
    case NoData => h
    case Ended => h.(responseOpen := false)
    case Responses(accepted) => Respond(h, accepted)
  }

  /** check_proc(); gone: waitpid reports the process dead or fails. */
  function Wait(h: State, gone: bool): State {
    if h.pid < 0 || !gone then h
    else if h.requestOpen then h.(pid := -1, requestOpen := false, active := false)
    else h.(pid := -1)
  }

  datatype CheckInput = CheckInput(rd: ReadEvent, gone: bool, retryExpired: bool, shutdownExpired: bool, newPid: int)

  /** check() behind check_response() and check_proc(). */
  function Manage(h: State, input: CheckInput): (State, bool) {
    if h.pid < 0 then
      var h1 := if h.down && h.sigkill then h.(responseOpen := false) else h;
      if h.down && !h1.responseOpen then (h1, true)
      else if !h.down && (h.used || input.retryExpired) then (Started(h.(responseOpen := false), input.newPid), false)
      else (h1, false)
    else if !h.sigterm then
      (if !h.responseOpen then Terminate(h) else h, false)
    else if !h.sigkill && input.shutdownExpired then (h.(sigkill := true), false)
    else (h, false)
  }

  function Checked(h: State, input: CheckInput): (State, bool) {
    var h1 := ReadIfOpen(h, input.rd);
    if h1.failed then (h1, false) else Manage(Wait(h1, input.gone), input)
  }

  function ShutDown(h: State): State {
    (if !h.sigterm && h.pid > 0 then Terminate(h) else h).(down := true)
  }

  // ---------------------------------------------------------------------------
  // Invariant
  // ---------------------------------------------------------------------------

  /** The process has a request pipe exactly while it lives; output needs both. */
  ghost predicate PipesInv(h: State) {
    && (h.pid == -1 || h.pid > 0)
    && (h.requestOpen <==> h.pid > 0)
    && (h.active ==> h.requestOpen)
  }

  /** The pipe holds complete lines, and part of one more only when output has stopped. */
  ghost predicate PipeInv(h: State) {
    && Framed(h.lines) <= h.pipe
    && (h.active ==> h.pipe == Framed(h.lines))
  }

  /** Since the request was attached or the process started, the complete lines are the first
      lines of the request, without gap or repetition. */
  ghost predicate PrefixInv(h: State) {
    h.content.Some? ==>
      && h.iter <= |h.content.value| && h.mark <= |h.lines|
      && h.lines[h.mark..] == h.content.value[..h.iter]
  }

  ghost predicate Inv(h: State) {
    PipesInv(h) && PipeInv(h) && PrefixInv(h)
  }

  lemma {:induction false} FramedAppend(cmds: seq<string>, c: string)
    ensures Framed(cmds + [c]) == Framed(cmds) + Line(c)
  {
    if cmds == [] {
      assert [c][1..] == [];
    } else {
      assert (cmds + [c])[1..] == cmds[1..] + [c];
      FramedAppend(cmds[1..], c);
      assert cmds[0] + "\r\n" + (Framed(cmds[1..]) + Line(c)) == (cmds[0] + "\r\n" + Framed(cmds[1..])) + Line(c);
    }
  }

  /** sent is what one writen_tmo call may have written of the next line. */
  ghost predicate Written(h: State, sent: string) {
    h.content.Some? && h.iter < |h.content.value| ==> sent <= Line(h.content.value[h.iter])
  }

  lemma PipeGrows(lines: seq<string>, pipe: string, line: string, sent: string, complete: bool)
    requires pipe == Framed(lines) && (complete ==> sent == Line(line))
    ensures Framed(lines) <= pipe + sent
    ensures complete ==> pipe + sent == Framed(lines + [line])
  {
    FramedAppend(lines, line);
  }

  lemma PrefixGrows(lines: seq<string>, mark: nat, content: seq<string>, iter: nat)
    requires mark <= |lines| && iter < |content| && lines[mark..] == content[..iter]
    ensures (lines + [content[iter]])[mark..] == content[..iter + 1]
  {
    assert (lines + [content[iter]])[mark..] == lines[mark..] + [content[iter]];
  }

  lemma PushKeeps(h: State, sent: string)
    requires Inv(h) && Written(h, sent)
    ensures Inv(Push(h, sent)) && Push(h, sent).failed == h.failed
  {
    if h.active && h.content.Some? && h.iter < |h.content.value| {
      var line := h.content.value[h.iter];
      PushPartKeeps(h, sent, sent == Line(line));
    }
  }

  lemma PushPartKeeps(h: State, sent: string, complete: bool)
    requires Inv(h) && h.active && h.content.Some? && h.iter < |h.content.value|
    requires complete ==> sent == Line(h.content.value[h.iter])
    ensures Inv(PushPart(h, h.content.value[h.iter], sent, complete))
    ensures PushPart(h, h.content.value[h.iter], sent, complete).failed == h.failed
  {
    PipeGrows(h.lines, h.pipe, h.content.value[h.iter], sent, complete);
    PrefixGrows(h.lines, h.mark, h.content.value, h.iter);
  }

  lemma TerminateKeeps(h: State)
    requires Inv(h)
    ensures Inv(Terminate(h)) && (Terminate(h).failed <==> h.failed || h.pid < 0)
  {
  }

  /** Some response in the list is rejected. */
  predicate SomeRejected(accepted: seq<bool>) {
    false in accepted
  }

  /** The internal check on pid fails exactly when a response is rejected on behalf of a request
      whose handler has no process any more. */
  lemma {:induction false} RespondKeeps(h: State, accepted: seq<bool>)
    requires Inv(h) && !h.failed
    ensures Inv(Respond(h, accepted))
    ensures Respond(h, accepted).failed <==> h.pid < 0 && h.content.Some? && SomeRejected(accepted)
    ensures Respond(h, accepted).pid == h.pid && Respond(h, accepted).content == h.content
    ensures Respond(h, accepted).down == h.down && Respond(h, accepted).responseOpen == h.responseOpen
    decreases |accepted|
  {
    if accepted != [] {
      TerminateKeeps(h);
      var h1 := if h.content.Some? && !accepted[0] then Terminate(h) else h;
      if !h1.failed {
        RespondKeeps(h1, accepted[1..]);
        assert accepted == [accepted[0]] + accepted[1..];
      }
    }
  }

  lemma ManageKeeps(h: State, input: CheckInput)
    requires Inv(h) && !h.failed && input.newPid > 0
    ensures Inv(Manage(h, input).0) && !Manage(h, input).0.failed
    ensures Manage(h, input).1 ==> h.down && Manage(h, input).0.pid < 0 && !Manage(h, input).0.responseOpen
  {
  }

  function ReadIfOpen(h: State, rd: ReadEvent): State {
    if h.responseOpen then Read(h, rd) else h
  }

  lemma ReadKeeps(h: State, rd: ReadEvent)
    requires Inv(h) && !h.failed
    ensures Inv(ReadIfOpen(h, rd))
    ensures ReadIfOpen(h, rd).failed <==>
            h.pid < 0 && h.responseOpen && h.content.Some? && rd.Responses? && SomeRejected(rd.accepted)
    ensures ReadIfOpen(h, rd).pid == h.pid && ReadIfOpen(h, rd).down == h.down && ReadIfOpen(h, rd).content == h.content
  {
    if rd.Responses? {
      RespondKeeps(h, rd.accepted);
    }
  }

  lemma WaitKeeps(h: State, gone: bool)
    requires Inv(h) && !h.failed
    ensures Inv(Wait(h, gone)) && !Wait(h, gone).failed
    ensures Wait(h, gone).down == h.down && Wait(h, gone).content == h.content
    ensures h.pid < 0 ==> Wait(h, gone) == h
  {
  }

  /** check() keeps everything. It reports the handler as gone only after a shutdown was asked
      for, and trips over an internal check exactly when leftover responses of a dead process are
      rejected on behalf of a request attached since. */
  lemma CheckKeeps(h: State, input: CheckInput)
    requires Inv(h) && !h.failed && input.newPid > 0
    ensures Inv(Checked(h, input).0)
    ensures Checked(h, input).1 ==> h.down
    ensures Checked(h, input).0.failed <==>
            && h.pid < 0 && h.responseOpen && h.content.Some?
            && input.rd.Responses? && SomeRejected(input.rd.accepted)
  {
    ReadKeeps(h, input.rd);
    var h1 := ReadIfOpen(h, input.rd);
    if !h1.failed {
      WaitKeeps(h1, input.gone);
      ManageKeeps(Wait(h1, input.gone), input);
    }
  }

  // ---------------------------------------------------------------------------
  // Runs
  // ---------------------------------------------------------------------------

  datatype Event =
    | DoAttach(content: seq<string>)
    | DoDetach
    | DoPush(sent: string)
    | DoCheck(input: CheckInput)
    | DoShutdown

  ghost predicate Possible(h: State, e: Event) {
    match e
    case DoAttach(_) => h.content.None?
    case DoDetach => true
    case DoPush(sent) => Written(h, sent)
    case DoCheck(input) => input.newPid > 0
    case DoShutdown => true
  }

  /** A request may be attached when there is none, and all else may happen at any time. */
  lemma AllMayHappen(h: State, content: seq<string>, k: nat, input: CheckInput)
    requires input.newPid > 0
    ensures h.content.None? ==> Possible(h, DoAttach(content))
    ensures Possible(h, DoDetach) && Possible(h, DoShutdown) && Possible(h, DoCheck(input))
    ensures h.content == Some(content) && h.iter < |content| && k <= |content[h.iter] + "\r\n"| ==>
              Possible(h, DoPush((content[h.iter] + "\r\n")[..k]))
  {
  }

  function Step(h: State, e: Event): State {
    match e
    case DoAttach(content) => Attach(h, content)
    case DoDetach => Detach(h)
    case DoPush(sent) => Push(h, sent)
    case DoCheck(input) => Checked(h, input).0
    case DoShutdown => ShutDown(h)
  }

  function Run(h: State, es: seq<Event>): State
    decreases |es|
  {
    if es == [] || h.failed then h else Run(Step(h, es[0]), es[1..])
  }

  ghost predicate PossibleRun(h: State, es: seq<Event>)
    decreases |es|
  {
    es == [] || h.failed || (Possible(h, es[0]) && PossibleRun(Step(h, es[0]), es[1..]))
  }

  lemma StepKeeps(h: State, e: Event)
    requires Inv(h) && !h.failed && Possible(h, e)
    ensures Inv(Step(h, e))
    ensures Step(h, e).failed ==> e.DoCheck? && h.pid < 0 && h.content.Some?
  {
    match e
    case DoAttach(content) =>
    case DoDetach =>
    case DoPush(sent) => PushKeeps(h, sent);
    case DoCheck(input) => CheckKeeps(h, input);
    case DoShutdown => TerminateKeeps(h);
  }

  /** Across any deaths, write errors, time-outs, partial writes and restarts, what the present
      process got of the present request is a prefix of it from the first line. */
  lemma {:induction false} AlwaysPrefix(h: State, es: seq<Event>)
    requires Inv(h) && PossibleRun(h, es)
    ensures Inv(Run(h, es))
    decreases |es|
  {
    if es != [] && !h.failed {
      StepKeeps(h, es[0]);
      AlwaysPrefix(Step(h, es[0]), es[1..]);
    }
  }

  lemma EveryRun(es: seq<Event>, pid: int)
    requires pid > 0 && PossibleRun(Started(NEW, pid), es)
    ensures var h := Run(Started(NEW, pid), es);
            && Framed(h.lines) <= h.pipe && (h.active ==> h.pipe == Framed(h.lines))
            && (h.content.Some? ==>
                  h.mark <= |h.lines| && h.iter <= |h.content.value| && h.lines[h.mark..] == h.content.value[..h.iter])
  {
    AlwaysPrefix(Started(NEW, pid), es);
  }

  /** A restart replays the request from its first line into an empty pipe. */
  lemma RestartReplays(h: State, input: CheckInput)
    requires Inv(h) && !h.failed && input.newPid > 0
    requires Checked(h, input).0.pid == input.newPid && h.pid < 0
    ensures var h' := Checked(h, input).0; h'.iter == 0 && h'.lines == [] && h'.pipe == "" && h'.content == h.content
  {
    ReadKeeps(h, input.rd);
  }

  /** The failing internal check is reachable: the process of an unused handler dies, a request is
      attached before the restart, and an unknown response is still in the pipe. */
  lemma LeftoverResponse() returns (es: seq<Event>)
    ensures PossibleRun(Started(NEW, 1), es) && Run(Started(NEW, 1), es).failed
  {
    var dies := DoCheck(CheckInput(NoData, true, false, false, 2));
    var attach := DoAttach(["USER u", "END"]);
    var answers := DoCheck(CheckInput(Responses([false]), false, false, false, 2));
    es := [dies, attach, answers];
    var h0 := Started(NEW, 1);
    var h1 := Step(h0, dies);
    var h2 := Step(h1, attach);
    assert es[1..] == [attach, answers] && [attach, answers][1..] == [answers] && [answers][1..] == [];
    assert !h0.failed && h1.pid == -1 && h1.responseOpen && !h1.failed && h1.content.None?;
    assert !h2.failed;
    assert [false][0] == false && Respond(h2, [false]).failed;
    assert Step(h2, answers).failed;
    assert PossibleRun(h2, [answers]) && Run(h2, [answers]) == Step(h2, answers);
    assert PossibleRun(h1, [attach, answers]) && Run(h1, [attach, answers]) == Run(h2, [answers]);
  }

  // ---------------------------------------------------------------------------
  // Feeding a request to its end
  // ---------------------------------------------------------------------------

  /** Pushes that write the lines of a request from the from-th on, each line as a whole. */
  function Feeding(content: seq<string>, from: nat): (es: seq<Event>)
    requires from <= |content|
    ensures |es| == |content| - from
    ensures forall k :: 0 <= k < |es| ==> es[k] == DoPush(content[from + k] + "\r\n")
  {
    seq(|content| - from, k requires 0 <= k < |content| - from => DoPush(content[from + k] + "\r\n"))
  }

  lemma PushesNext(h: State)
    requires Inv(h) && h.active && h.content.Some? && h.iter < |h.content.value|
    ensures var h' := Push(h, h.content.value[h.iter] + "\r\n");
            h' == h.(iter := h.iter + 1, lines := h.lines + [h.content.value[h.iter]],
                     pipe := h.pipe + (h.content.value[h.iter] + "\r\n"))
  {
  }

  /** As many pushes as lines are left, each of which writes its whole line, bring the request to its
      end: the process then has each line of it, and output goes on. */
  lemma {:induction false} FedToTheEnd(h: State)
    requires Inv(h) && h.active && !h.failed && h.content.Some?
    ensures var es := Feeding(h.content.value, h.iter);
            PossibleRun(h, es) && Fed(Run(h, es), h)
    decreases |h.content.value| - h.iter
  {
    var content, es := h.content.value, Feeding(h.content.value, h.iter);
    if h.iter < |content| {
      var h' := Push(h, content[h.iter] + "\r\n");
      PushesNext(h);
      PushKeeps(h, content[h.iter] + "\r\n");
      assert es[1..] == Feeding(content, h.iter + 1);
      FedToTheEnd(h');
    } else {
      assert content[..h.iter] == content;
    }
  }

  /** h has all lines of the request of h0, which it is still working on. */
  ghost predicate Fed(h: State, h0: State) {
    && h.content == h0.content && h.content.Some?
    && h.mark == h0.mark <= |h.lines| && h.lines[h.mark..] == h.content.value && h.iter == |h.content.value|
    && h.active && !h.failed && h.pid == h0.pid
    && h.pipe == Framed(h.lines)
  }

  /** A process that was just started gets the whole request, and finds exactly its lines when it splits
      what it reads, if each line can be sent as one. */
  lemma StartedGetsAll(pid: int, content: seq<string>)
    requires pid > 0
    ensures var h, es := Attach(Started(NEW, pid), content), Feeding(content, 0);
            && PossibleRun(h, es) && Run(h, es).lines == content && Run(h, es).iter == |content|
            && ((forall c :: c in content ==> c != "" && forall i :: 0 <= i < |c| ==> c[i] != '\r' && c[i] != '\n') ==>
                  Commands(Run(h, es).pipe) == content)
  {
    var h := Attach(Started(NEW, pid), content);
    FedToTheEnd(h);
    var h' := Run(h, Feeding(content, 0));
    assert h'.lines[0..] == h'.lines;
    if forall c :: c in content ==> c != "" && forall i :: 0 <= i < |c| ==> c[i] != '\r' && c[i] != '\n' {
      SplitUndoesFraming(content);
    }
  }

  /** check() once nothing is left to read, for each state of the process. Without one: after a shutdown
      the handler is gone as soon as the response pipe is closed, by the process or after a kill;
      otherwise it is started again at once if it was used, and after the delay if not. */
  lemma WithoutProcess(h: State, input: CheckInput)
    requires h.pid < 0
    ensures var (h', gone) := Manage(h, input);
            && (gone <==> h.down && (h.sigkill || !h.responseOpen))
            && (h.down ==> h' == h.(responseOpen := h.responseOpen && !h.sigkill))
            && (!h.down && !h.used && !input.retryExpired ==> h' == h)
            && (!h.down && (h.used || input.retryExpired) && !h.requestOpen ==>
                  && h'.pid == input.newPid && h'.requestOpen && h'.responseOpen && h'.active && !h'.used
                  && !h'.sigterm && !h'.sigkill && !h'.down && h'.failed == h.failed
                  && h'.content == h.content && h'.iter == 0 && h'.lines == [] && h'.pipe == "")
  {
  }

  /** With a process: it is asked to terminate when its responses have ended, and killed when that takes
      too long. */
  lemma WithProcess(h: State, input: CheckInput)
    requires h.pid > 0
    ensures var (h', gone) := Manage(h, input);
            && !gone
            && (h.sigterm || h.responseOpen ==>
                  h' == h.(sigkill := h.sigkill || (h.sigterm && input.shutdownExpired)))
            && (!h.sigterm && !h.responseOpen ==> h' == h.(sigterm := true, active := false))
  {
  }

  /** What a check() does before that: a closed response pipe is not read, an ended one is closed, a
      rejected response asks the process to terminate, and a dead process takes its request pipe along. */
  lemma BeforeManage(h: State, rd: ReadEvent, gone: bool)
    requires Inv(h) && !h.failed
    ensures !h.responseOpen || rd.NoData? ==> ReadIfOpen(h, rd) == h
    ensures h.responseOpen && rd.Ended? ==> ReadIfOpen(h, rd) == h.(responseOpen := false)
    ensures h.responseOpen && rd.Responses? && h.pid > 0 ==>
              ReadIfOpen(h, rd) ==
              if h.content.Some? && false in rd.accepted then h.(sigterm := true, active := false) else h
    ensures Wait(h, gone) ==
            if gone && h.pid > 0 then h.(pid := -1, requestOpen := false, active := false) else h
  {
    if rd.Responses? && h.pid > 0 {
      Rejected(h, rd.accepted);
    }
  }

  lemma {:induction false} Rejected(h: State, accepted: seq<bool>)
    requires h.pid > 0 && !h.failed
    ensures Respond(h, accepted) ==
            if h.content.Some? && false in accepted then h.(sigterm := true, active := false) else h
    decreases |accepted|
  {
    if accepted != [] {
      var h1 := if h.content.Some? && !accepted[0] then Terminate(h) else h;
      Rejected(h1, accepted[1..]);
      assert accepted == [accepted[0]] + accepted[1..];
    }
  }

  // ---------------------------------------------------------------------------
  // The class
  // ---------------------------------------------------------------------------

  class Reqhandler {
    var used: bool
    var pid: int
    var requestFd: int
    var responseFd: int
    var outputActive: bool
    var sigtermSent: bool
    var sigkillSent: bool
    var shutdownRequested: bool
    var req: Option<seq<string>>
    var reqIter: nat
    var failed: bool
    ghost var pipe: string
    ghost var lines: seq<string>
    ghost var mark: nat

    ghost function View(): State
      reads this
    {
      State(used, pid, requestFd >= 0, responseFd >= 0, outputActive, sigtermSent, sigkillSent,
            shutdownRequested, req, reqIter, pipe, lines, mark, failed)
    }

    constructor ()
      ensures View() == NEW
      ensures pid < 0 && requestFd < 0 && responseFd < 0 && req == None && pipe == "" && lines == []
      ensures !used && !outputActive && !sigtermSent && !sigkillSent && !shutdownRequested && !failed
    {
      used, pid, requestFd, responseFd := false, -1, -1, -1;
      outputActive, sigtermSent, sigkillSent, shutdownRequested := false, false, false, false;
      req, reqIter, failed := None, 0, false;
      pipe, lines, mark := "", [], 0;
    }

    method AttachRequest(content: seq<string>)
      modifies this
      ensures View() == Attach(old(View()), content)
      ensures req == Some(content) && reqIter == 0 && used && mark == |lines|
    {
      req := Some(content);
      reqIter := 0;
      used := true;
      mark := |lines|;
    }

    method DetachRequest() returns (r: Option<seq<string>>)
      modifies this
      ensures r == old(req) && View() == Detach(old(View()))
      ensures req == None && pid == old(pid) && outputActive == old(outputActive)
    {
      r := req;
      req := None;
    }

    /** start() in the parent: two new pipes, a new process, and the request from its beginning. */
    method Start(newPid: int, requestPipe: nat, responsePipe: nat)
      modifies this
      ensures View() == Started(old(View()), newPid)
      ensures if old(requestFd) >= 0 || old(responseFd) >= 0 then failed
              else pid == newPid && requestFd == requestPipe && responseFd == responsePipe && failed == old(failed)
    {
      if requestFd >= 0 || responseFd >= 0 {
        failed := true;
        return;
      }
      pid := newPid;
      requestFd, responseFd := requestPipe, responsePipe;
      used := false;
      sigtermSent := false;
      sigkillSent := false;
      shutdownRequested := false;
      outputActive := true;
      reqIter := 0;
      pipe, lines, mark := "", [], 0;
    }

    method TermProc()
      modifies this
      ensures View() == Terminate(old(View()))
      ensures if pid > 0 then sigtermSent && !outputActive && failed == old(failed) else failed
    {
      if pid <= 0 {
        failed := true;
        return;
      }
      sigtermSent := true;
      outputActive := false;
    }

    /** Feed the next line, if there is one: a complete write adds exactly this line, anything else ends
        with asking the process to go. */
    method PushRequest(events: seq<WriteEvent>) returns (ghost sent: string)
      modifies this
      ensures Written(old(View()), sent) && View() == Push(old(View()), sent)
      ensures !old(outputActive) || req == None || old(reqIter) >= |req.value| ==> View() == old(View())
      ensures old(outputActive) && req.Some? && old(reqIter) < |req.value| && requestFd >= 0 ==>
                var line := req.value[old(reqIter)];
                var complete := sent == line + "\r\n";
                && lines == (if complete then old(lines) + [line] else old(lines))
                && reqIter == old(reqIter) + (if complete then 1 else 0)
                && (complete ==> outputActive && failed == old(failed))
                && (!complete ==> if pid > 0 then !outputActive && sigtermSent else failed)
      ensures old(outputActive) && req.Some? && old(reqIter) < |req.value| && requestFd < 0 ==> failed
    {
      sent := "";
      if !outputActive || req == None || reqIter >= |req.value| {
        return;
      }
      if requestFd < 0 {
        failed := true;
        return;
      }
      sent := WriteLine(req.value[reqIter], events);
    }

    /** One call of writen_tmo() and what follows from its result. */
    method WriteLine(reqStr: string, events: seq<WriteEvent>) returns (ghost sent: string)
      modifies this
      ensures sent <= reqStr + "\r\n"
      ensures View() == PushPart(old(View()), reqStr, sent, sent == Line(reqStr))
    {
      var r, out := WritenTmo(Line(reqStr), events);
      sent := out;
      pipe := pipe + out;
      if r <= 0 {
        assert out != Line(reqStr);
        TermProc();
      } else {
        lines := lines + [reqStr];
        reqIter := reqIter + 1;
      }
    }

    /** check_response(): each command in turn; a rejected one ends with asking the process to go. */
    method CheckResponse(rd: ReadEvent)
      requires !failed
      modifies this
      ensures View() == Read(old(View()), rd)
    {
      match rd
      case NoData => return;
      case Ended => responseFd := -1;
      case Responses(accepted) =>
        ghost var h := View();
        var i := 0;
        while i < |accepted| && !failed
          invariant i <= |accepted|
          invariant Respond(h, accepted) == if failed then View() else Respond(View(), accepted[i..])
        {
          assert accepted[i..][1..] == accepted[i + 1..];
          if req != None && !accepted[i] {
            TermProc();
          }
          i := i + 1;
        }
    }

    method CheckProc(gone: bool)
      modifies this
      ensures View() == Wait(old(View()), gone)
    {
      if pid < 0 || !gone {
        return;
      }
      if requestFd >= 0 {
        requestFd := -1;
        outputActive := false;
      }
      pid := -1;
    }

    method Check(input: CheckInput) returns (done: bool)
      requires !failed && Inv(View())
      modifies this
      ensures (View(), done) == Checked(old(View()), input)
    {
      ghost var h := View();
      ReadKeeps(h, input.rd);
      done := false;
      if responseFd >= 0 {
        CheckResponse(input.rd);
      }
      if failed {
        return;
      }
      CheckProc(input.gone);
      if pid < 0 {
        if shutdownRequested {
          if sigkillSent && responseFd >= 0 {
            responseFd := -1;
          }
          if responseFd < 0 {
            return true;
          }
        }
        if !shutdownRequested && (used || input.retryExpired) {
          if responseFd >= 0 {
            responseFd := -1;
          }
          Start(input.newPid, 0, 0);
        }
        return false;
      }
      if !sigtermSent {
        if responseFd < 0 {
          TermProc();
        }
        return false;
      }
      if !sigkillSent && input.shutdownExpired {
        sigkillSent := true;
      }
      return false;
    }

    method Shutdown()
      modifies this
      ensures View() == ShutDown(old(View()))
      ensures shutdownRequested && (pid > 0 ==> sigtermSent) && failed == old(failed)
    {
      if !sigtermSent && pid > 0 {
        TermProc();
      }
      shutdownRequested := true;
    }
  }
}
