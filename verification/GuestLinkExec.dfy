/** Command output across one connection: in every interleaving the host's
    channel for a command carries what the command's output tasks read, in order,
    complete whenever it ends with the guest's own exit. */
module GuestLinkExec {
  import opened Wrappers
  import opened GuestRpc
  import opened GuestRpcRuns
  import opened GuestLink
  import opened GuestLinkRpc

  // ---- the wire as one command sees it ----

  /** What a line contributes to the channel of command `x`. */
  function RouteOne(line: Line, x: Uuid): seq<ExecEvent> {
    match line
    case ExecOutput(exec, stream, Some(data)) => if exec == x then [Output(stream, data)] else []
    case ExecExit(exec, status) => if exec == x then [Exit(status)] else []
    case Error(_, target, message) => if target == Some(x) then Tail(message) else []
    case _ => []
  }

  /** How a failed stream is closed. */
  function Tail(message: Bytes): seq<ExecEvent> {
    [Output(Stderr, message), Exit(Killed)]
  }

  function Feed(events: seq<Line>, x: Uuid): seq<ExecEvent> {
    if events == [] then [] else Feed(events[..|events| - 1], x) + RouteOne(events[|events| - 1], x)
  }

  /** The bytes of one stream in a channel. */
  function Text(log: seq<ExecEvent>, stream: Stream): Bytes {
    if log == [] then []
    else Text(log[..|log| - 1], stream) + Chunk(log[|log| - 1], stream)
  }

  function Chunk(e: ExecEvent, stream: Stream): Bytes {
    if e.Output? && e.stream == stream then e.data else []
  }

  lemma FeedAppend(events: seq<Line>, line: Line, x: Uuid)
    ensures Feed(events + [line], x) == Feed(events, x) + RouteOne(line, x)
  {
    assert (events + [line])[..|events|] == events;
  }

  lemma {:induction false} FeedPrefix(events: seq<Line>, n: nat, x: Uuid)
    requires n <= |events|
    ensures Feed(events[..n], x) <= Feed(events, x)
  {
    if n == |events| {
      assert events[..n] == events;
    } else {
      FeedPrefix(events[..|events| - 1], n, x);
      assert events[..|events| - 1][..n] == events[..n];
    }
  }

  lemma {:induction false} TextConcat(a: seq<ExecEvent>, b: seq<ExecEvent>, stream: Stream)
    ensures Text(a + b, stream) == Text(a, stream) + Text(b, stream)
  {
    hide Text, Chunk;
    if b == [] {
      NoText(stream);
      assert a + b == a;
    } else {
      var init, last := b[..|b| - 1], b[|b| - 1];
      TextConcat(a, init, stream);
      TextNext(init, last, stream);
      TextNext(a + init, last, stream);
      assert b == init + [last] && a + b == (a + init) + [last];
    }
  }

  lemma NoText(stream: Stream)
    ensures Text([], stream) == []
  {}

  lemma TextNext(log: seq<ExecEvent>, e: ExecEvent, stream: Stream)
    ensures Text(log + [e], stream) == Text(log, stream) + Chunk(e, stream)
  {
    assert (log + [e])[..|log|] == log;
  }

  lemma TextPrefix(a: seq<ExecEvent>, b: seq<ExecEvent>, stream: Stream)
    requires a <= b
    ensures Text(a, stream) <= Text(b, stream)
  {
    TextConcat(a, b[|a|..], stream);
    assert a + b[|a|..] == b;
  }

  lemma TextOne(e: ExecEvent, stream: Stream)
    ensures Text([e], stream) == Chunk(e, stream)
  {
    assert [e][..0] == [];
  }

  ghost predicate AllOutputs(log: seq<ExecEvent>) {
    forall i :: 0 <= i < |log| ==> log[i].Output?
  }

  // ---- the guest's side ----

  function Held(p: Pump): Bytes {
    if p.held.Some? then p.held.value else []
  }

  /** What an output task has read is what it has sent and what it holds; only
      after the guest's side went down may it have dropped the rest. */
  ghost predicate PumpFed(p: Pump, sent: Bytes, up: bool) {
    || (p.read == sent + Held(p) && (p.done ==> p.held.None?))
    || (!up && p.done && p.held.None? && sent <= p.read)
  }

  ghost predicate TaskFed(t: Task, feed: seq<ExecEvent>, up: bool) {
    if t.exit.Some? then
      && feed != [] && feed[|feed| - 1] == Exit(t.exit.value) && AllOutputs(feed[..|feed| - 1])
      && t.out.done && t.err.done && t.out.held.None? && t.err.held.None?
      && Text(feed, Stdout) == t.out.read && Text(feed, Stderr) == t.err.read
    else
      AllOutputs(feed) && PumpFed(t.out, Text(feed, Stdout), up) && PumpFed(t.err, Text(feed, Stderr), up)
  }

  ghost predicate ExecTaken(s: System, x: Uuid) {
    exists id: RequestId :: Taken(s, id) && id < |s.calls| && s.calls[id] == Exec(x)
  }

  /** The wire carries a command's output if it was started, its failure if it
      could not be, and nothing before its request was taken. */
  ghost predicate Fed(s: System, x: Uuid) {
    var feed := Feed(s.events, x);
    if x in s.tasks then TaskFed(s.tasks[x], feed, s.guestUp)
    else
      && (feed == [] || (ExecTaken(s, x) && exists m :: feed == Tail(m) && GuestSaid(s.events, x, m)))
      && Unsplit(s.events, x)
  }

  /** The guest reported this failure of the command. */
  ghost predicate GuestSaid(events: seq<Line>, x: Uuid, m: Bytes) {
    exists i :: 0 <= i < |events| && events[i].Error? && events[i].target == Some(x) && events[i].message == m
  }

  lemma SaidStays(events: seq<Line>, events': seq<Line>, x: Uuid)
    requires events <= events'
    ensures forall m :: GuestSaid(events, x, m) ==> GuestSaid(events', x, m)
  {
    forall m | GuestSaid(events, x, m) ensures GuestSaid(events', x, m) {
      var i :| 0 <= i < |events| && events[i].Error? && events[i].target == Some(x) && events[i].message == m;
      assert events'[i] == events[i];
    }
  }

  /** A failure reaches the channel in one piece. */
  ghost predicate Unsplit(events: seq<Line>, x: Uuid) {
    forall n :: 0 <= n <= |events| ==> |Feed(events[..n], x)| != 1
  }

  lemma UnsplitAppend(events: seq<Line>, line: Line, x: Uuid)
    requires Unsplit(events, x) && |Feed(events + [line], x)| != 1
    ensures Unsplit(events + [line], x)
  {
    var after := events + [line];
    forall n | 0 <= n <= |after| ensures |Feed(after[..n], x)| != 1 {
      if n <= |events| {
        assert after[..n] == events[..n];
      } else {
        assert after[..n] == after;
      }
    }
  }

  ghost predicate Named(s: System) {
    && s.link.host.execLog.Keys !! s.link.host.shellLog.Keys
    && (forall i :: 0 <= i < |s.calls| && s.calls[i].Exec? ==> s.calls[i].exec in s.link.host.execLog)
    && (forall i, j :: 0 <= i < j < |s.calls| && s.calls[i].Exec? ==> s.calls[i] != s.calls[j])
    && (forall i :: 0 <= i < |s.calls| && SessionOf(s.calls[i]).Some? ==>
      SessionOf(s.calls[i]).value in s.link.host.shellLog)
    && (forall x :: x in s.tasks ==> ExecTaken(s, x))
  }

  ghost predicate AllFed(s: System) {
    && (forall x :: x in s.link.host.execLog ==> Fed(s, x))
    && (forall x :: x !in s.link.host.execLog && x !in s.link.host.shellLog ==>
          Feed(s.events, x) == [] && Unsplit(s.events, x) && x !in s.tasks)
  }

  lemma LogKeys(s: System, step: GuestLink.Step, s': System)
    requires Moves(s, step, s')
    ensures step.Call? && step.request.Exec? ==>
              && s'.link.host.execLog.Keys == s.link.host.execLog.Keys + {step.request.exec}
              && s'.link.host.shellLog.Keys == s.link.host.shellLog.Keys
              && step.request.exec !in s.link.host.execLog && step.request.exec !in s.link.host.shellLog
    ensures step.Call? && step.request.OpenShell? ==>
              && s'.link.host.shellLog.Keys == s.link.host.shellLog.Keys + {step.request.session}
              && s'.link.host.execLog.Keys == s.link.host.execLog.Keys
              && step.request.session !in s.link.host.execLog && step.request.session !in s.link.host.shellLog
    ensures !(step.Call? && (step.request.Exec? || step.request.OpenShell?)) ==>
              s'.link.host.execLog.Keys == s.link.host.execLog.Keys
                && s'.link.host.shellLog.Keys == s.link.host.shellLog.Keys
  {
    hide Moves, GuestRpcRuns.Step, Registered, Withdrawn;
    Frames(s, step, s');
    SendBooked(s, step, s');
    match step
    case Call(request) => RegisteredKeys(s.link, |s.calls|, request);
    case SendFails(id) => WithdrawnKeys(s.link, id, s.calls[id]);
    case HostReads => ReceiveKeepsKeys(s.link, Receive(s.events[s.read]));
    case HostFails(message) => ReceiveKeepsKeys(s.link, LoseConnection(message));
    case ShellAbandoned(id) => ReceiveKeepsKeys(s.link, DropShell(s.calls[id].session));
    case _ =>
  }

  lemma RegisteredKeys(l: Link, id: RequestId, request: Request)
    requires Wired(l.host)
    ensures var h, h' := l.host, Registered(l, id, request).host;
            && h'.execLog.Keys == h.execLog.Keys + (if request.Exec? then {request.exec} else {})
            && h'.shellLog.Keys == h.shellLog.Keys + (if request.OpenShell? then {request.session} else {})
  {}

  lemma WithdrawnKeys(l: Link, id: RequestId, request: Request)
    requires Wired(l.host)
    ensures var h, h' := l.host, Withdrawn(l, id, request).host; h'.execLog == h.execLog && h'.shellLog == h.shellLog
  {}

  lemma StaysExecTaken(s: System, step: GuestLink.Step, s': System, x: Uuid)
    requires Moves(s, step, s') && ExecTaken(s, x)
    ensures ExecTaken(s', x)
  {
    var id: RequestId :| Taken(s, id) && id < |s.calls| && s.calls[id] == Exec(x);
    StaysTaken(s, step, s', id);
    Frames(s, step, s');
    assert s'.calls[id] == Exec(x);
  }

  lemma NamedStep(s: System, step: GuestLink.Step, s': System)
    requires Booked(s) && Named(s) && Moves(s, step, s')
    ensures Named(s')
  {
    hide Moves, Ordered, Booked, ExecTaken;
    LogKeys(s, step, s');
    Frames(s, step, s');
    forall x | x in s'.tasks ensures ExecTaken(s', x) {
      if x in s.tasks {
        StaysExecTaken(s, step, s', x);
      } else {
        NewTask(s, step, s', x);
      }
    }
    if step.Call? { NamedCall(s, step, s'); }
  }

  lemma NewTask(s: System, step: GuestLink.Step, s': System, x: Uuid)
    requires Booked(s) && Moves(s, step, s') && x in s'.tasks && x !in s.tasks
    ensures step.Serve? && s'.tasks == s.tasks[x := Started] && s'.events == s.events
    ensures s.requests[s.taken] < |s.calls| && s.calls[s.requests[s.taken]] == Exec(x)
    ensures ExecTaken(s', x)
  {
    hide Ordered, Registered, Withdrawn, GuestRpcRuns.Step;
    assert step.Serve?;
    assert s'.requests[s.taken] == s.requests[s.taken];
    assert Taken(s', s.requests[s.taken]);
  }

  lemma NamedCall(s: System, step: GuestLink.Step, s': System)
    requires Named(s) && Moves(s, step, s') && step.Call?
    ensures forall i :: 0 <= i < |s'.calls| && SessionOf(s'.calls[i]).Some? ==>
              SessionOf(s'.calls[i]).value in s'.link.host.shellLog
  {
    hide Moves, ExecTaken;
    LogKeys(s, step, s');
    Frames(s, step, s');
    SendBooked(s, step, s');
  }

  // ---- each step keeps the wire faithful ----

  /** The step belongs to command `x`, or answers a request naming it. */
  predicate Concerns(s: System, step: GuestLink.Step, x: Uuid) {
    match step
    case PumpReads(exec, _, _) => exec == x
    case PumpSends(exec, _) => exec == x
    case PumpEnds(exec, _) => exec == x
    case WaiterSees(exec, _) => exec == x
    case WaiterExits(exec) => exec == x
    case Serve(_) =>
      s.taken < |s.requests| && s.requests[s.taken] < |s.calls|
      && (s.calls[s.requests[s.taken]] == Exec(x) || SessionOf(s.calls[s.requests[s.taken]]) == Some(x))
    case _ => false
  }

  lemma Unconcerned(s: System, step: GuestLink.Step, s': System, x: Uuid)
    requires Moves(s, step, s') && !Concerns(s, step, x)
    ensures Feed(s'.events, x) == Feed(s.events, x)
    ensures Unsplit(s.events, x) ==> Unsplit(s'.events, x)
    ensures x in s'.tasks <==> x in s.tasks
    ensures x in s.tasks ==> s'.tasks[x] == s.tasks[x]
    ensures s'.guestUp ==> s.guestUp
  {
    Frames(s, step, s');
    UnconcernedTasks(s, step, s', x);
    if |s'.events| > |s.events| {
      var line := s'.events[|s.events|];
      assert s'.events == s.events + [line];
      if step.Serve? {
        UnconcernedReply(s.requests[s.taken], s.calls[s.requests[s.taken]], step.outcome, x);
      }
      assert RouteOne(line, x) == [];
      hide After, Enabled;
      FeedAppend(s.events, line, x);
      if Unsplit(s.events, x) {
        assert |Feed(s.events[..|s.events|], x)| != 1 && s.events[..|s.events|] == s.events;
        UnsplitAppend(s.events, line, x);
      }
    } else {
      assert s'.events == s.events;
    }
  }

  lemma UnconcernedTasks(s: System, step: GuestLink.Step, s': System, x: Uuid)
    requires Moves(s, step, s') && !Concerns(s, step, x)
    ensures x in s'.tasks <==> x in s.tasks
    ensures x in s.tasks ==> s'.tasks[x] == s.tasks[x]
    ensures s'.guestUp ==> s.guestUp
  {
    hide GuestRpcRuns.Step, Registered, Withdrawn, ReplyLine, WithPump, PumpOf;
  }

  lemma UnconcernedReply(id: RequestId, request: Request, outcome: Result<Bytes, Bytes>, x: Uuid)
    requires request != Exec(x) && SessionOf(request) != Some(x)
    ensures RouteOne(ReplyLine(id, request, outcome), x) == []
  {}

  lemma PumpTaskFed(t: Task, feed: seq<ExecEvent>, up: bool, stream: Stream, p: Pump, feed': seq<ExecEvent>)
    requires TaskFed(t, feed, up) && t.exit.None?
    requires feed' == feed || exists data :: feed' == feed + [Output(stream, data)]
    requires PumpFed(p, Text(feed', stream), up)
    ensures TaskFed(WithPump(t, stream, p), feed', up)
  {
    hide Text;
    if feed' != feed {
      var data :| feed' == feed + [Output(stream, data)];
      var other := if stream.Stdout? then Stderr else Stdout;
      TextConcat(feed, [Output(stream, data)], other);
      TextOne(Output(stream, data), other);
    }
  }

  /** What a step of an output task does to its command. */
  lemma PumpMoves(s: System, step: GuestLink.Step, s': System, x: Uuid)
    requires Moves(s, step, s') && (step.PumpReads? || step.PumpSends? || step.PumpEnds?) && step.exec == x
    ensures x in s.tasks && x in s'.tasks && s'.guestUp == s.guestUp
    ensures var t, up := s.tasks[x], s.guestUp;
            var p := PumpOf(t, step.stream);
            match step
            case PumpReads(_, stream, chunk) =>
              && !p.done && p.held.None? && s'.events == s.events
              && s'.tasks[x] == WithPump(t, stream, p.(read := p.read + chunk, held := Some(chunk)))
            case PumpEnds(_, stream) =>
              !p.done && p.held.None? && s'.events == s.events && s'.tasks[x] == WithPump(t, stream, p.(done := true))
            case PumpSends(_, stream) =>
              && p.held.Some?
              && s'.tasks[x] == WithPump(t, stream, if up then p.(held := None) else p.(held := None, done := true))
              && s'.events == if up then s.events + [ExecOutput(x, stream, p.held)] else s.events
            case _ => true
  {
    hide GuestRpcRuns.Step, Registered, Withdrawn, ReplyLine, WithPump, PumpOf;
  }

  /** What a step of a waiter does to its command. */
  lemma WaiterMoves(s: System, step: GuestLink.Step, s': System, x: Uuid)
    requires Moves(s, step, s') && (step.WaiterSees? || step.WaiterExits?) && step.exec == x
    ensures x in s.tasks && x in s'.tasks && s'.guestUp == s.guestUp
    ensures var t := s.tasks[x];
            if step.WaiterSees? then
              t.status.None? && s'.tasks[x] == t.(status := Some(step.status)) && s'.events == s.events
            else
              && t.out.done && t.err.done && t.status.Some? && t.exit.None?
              && if s.guestUp then
                   s'.tasks[x] == t.(exit := t.status) && s'.events == s.events + [ExecExit(x, t.status.value)]
                 else s'.tasks[x] == t && s'.events == s.events
  {
    hide GuestRpcRuns.Step, Registered, Withdrawn, ReplyLine, WithPump, PumpOf;
  }

  /** What taking a request to run a command does. */
  lemma ServeMoves(s: System, step: GuestLink.Step, s': System, x: Uuid)
    requires Moves(s, step, s') && step.Serve?
    ensures s.taken < |s.requests| && s.requests[s.taken] < |s.calls| && s'.guestUp == s.guestUp
    ensures s.calls[s.requests[s.taken]] == Exec(x) ==>
              if step.outcome.Ok? then s'.tasks == s.tasks[x := Started] && s'.events == s.events
              else s'.tasks == s.tasks
                   && s'.events == s.events + [Error(Some(s.requests[s.taken]), Some(x), step.outcome.error)]
  {
    hide GuestRpcRuns.Step, Registered, Withdrawn, WithPump, PumpOf;
  }

  lemma PumpStepFed(s: System, step: GuestLink.Step, s': System, x: Uuid)
    requires Moves(s, step, s') && x in s.tasks && TaskFed(s.tasks[x], Feed(s.events, x), s.guestUp)
    requires (step.PumpReads? || step.PumpSends? || step.PumpEnds?) && step.exec == x
    ensures x in s'.tasks && TaskFed(s'.tasks[x], Feed(s'.events, x), s'.guestUp)
  {
    hide Text, Feed, Moves, WithPump;
    PumpMoves(s, step, s', x);
    var t, feed, stream := s.tasks[x], Feed(s.events, x), step.stream;
    var p := PumpOf(t, stream);
    assert t.exit.None?;
    if step.PumpReads? {
      PumpTaskFed(t, feed, s.guestUp, stream, p.(read := p.read + step.chunk, held := Some(step.chunk)), feed);
    } else if step.PumpEnds? {
      PumpTaskFed(t, feed, s.guestUp, stream, p.(done := true), feed);
    } else if s.guestUp {
      var out := Output(stream, p.held.value);
      FeedAppend(s.events, ExecOutput(x, stream, p.held), x);
      TextConcat(feed, [out], stream);
      TextOne(out, stream);
      PumpTaskFed(t, feed, true, stream, p.(held := None), feed + [out]);
    } else {
      PumpTaskFed(t, feed, false, stream, p.(held := None, done := true), feed);
    }
  }

  lemma ExitTaskFed(t: Task, feed: seq<ExecEvent>, status: Status)
    requires TaskFed(t, feed, true) && t.exit.None? && t.out.done && t.err.done
    ensures TaskFed(t.(exit := Some(status)), feed + [Exit(status)], true)
  {
    hide Text;
    assert (feed + [Exit(status)])[..|feed|] == feed;
    TextConcat(feed, [Exit(status)], Stdout);
    TextConcat(feed, [Exit(status)], Stderr);
    TextOne(Exit(status), Stdout);
    TextOne(Exit(status), Stderr);
  }

  lemma WaiterStepFed(s: System, step: GuestLink.Step, s': System, x: Uuid)
    requires Moves(s, step, s') && x in s.tasks && TaskFed(s.tasks[x], Feed(s.events, x), s.guestUp)
    requires (step.WaiterSees? || step.WaiterExits?) && step.exec == x
    ensures x in s'.tasks && TaskFed(s'.tasks[x], Feed(s'.events, x), s'.guestUp)
  {
    WaiterMoves(s, step, s', x);
    hide Moves, Feed, Text;
    if step.WaiterExits? && s.guestUp {
      var status := s.tasks[x].status.value;
      FeedAppend(s.events, ExecExit(x, status), x);
      ExitTaskFed(s.tasks[x], Feed(s.events, x), status);
    }
  }

  lemma NotTakenYet(s: System, x: Uuid)
    requires Booked(s) && Named(s) && s.taken < |s.requests| && s.requests[s.taken] < |s.calls|
    requires s.calls[s.requests[s.taken]] == Exec(x)
    ensures !ExecTaken(s, x)
  {
    hide Ordered;
    assert forall id: RequestId :: Taken(s, id) ==> id != s.requests[s.taken];
  }

  lemma NothingSent(s: System, x: Uuid)
    requires Booked(s) && Named(s) && Fed(s, x) && s.taken < |s.requests| && s.requests[s.taken] < |s.calls|
    requires s.calls[s.requests[s.taken]] == Exec(x)
    ensures x !in s.tasks && Feed(s.events, x) == [] && Unsplit(s.events, x)
  {
    NotTakenYet(s, x);
    hide Booked, Feed, Unsplit, ExecTaken;
  }

  lemma ServeStepFed(s: System, step: GuestLink.Step, s': System, x: Uuid)
    requires Booked(s) && Named(s) && Fed(s, x) && Moves(s, step, s') && step.Serve?
    requires s.calls[s.requests[s.taken]] == Exec(x)
    ensures Fed(s', x)
  {
    hide Moves, Feed, Unsplit, Booked, Named, ExecTaken;
    ServeMoves(s, step, s', x);
    NothingSent(s, x);
    if step.outcome.Ok? {
      NoText(Stdout);
      NoText(Stderr);
      assert TaskFed(Started, [], s.guestUp);
    } else {
      var line := Error(Some(s.requests[s.taken]), Some(x), step.outcome.error);
      FeedAppend(s.events, line, x);
      assert [] + Tail(step.outcome.error) == Tail(step.outcome.error);
      UnsplitAppend(s.events, line, x);
      assert s'.events[|s.events|] == line;
      assert GuestSaid(s'.events, x, step.outcome.error);
      ServedIsTaken(s, step, s', x);
    }
  }

  lemma ServedIsTaken(s: System, step: GuestLink.Step, s': System, x: Uuid)
    requires Moves(s, step, s') && step.Serve? && s.calls[s.requests[s.taken]] == Exec(x)
    ensures ExecTaken(s', x)
  {
    assert s'.requests[s.taken] == s.requests[s.taken];
    assert Taken(s', s.requests[s.taken]);
  }

  lemma UnconcernedFed(s: System, step: GuestLink.Step, s': System, x: Uuid)
    requires Fed(s, x) && Moves(s, step, s') && !Concerns(s, step, x)
    ensures Fed(s', x)
  {
    hide Moves, Concerns, Feed, Unsplit, ExecTaken, GuestSaid;
    Unconcerned(s, step, s', x);
    if ExecTaken(s, x) { StaysExecTaken(s, step, s', x); }
    Frames(s, step, s');
    SaidStays(s.events, s'.events, x);
  }

  lemma FedStep(s: System, step: GuestLink.Step, s': System, x: Uuid)
    requires Booked(s) && Named(s) && AllFed(s) && Moves(s, step, s') && x in s.link.host.execLog
    ensures Fed(s', x)
  {
    if !Concerns(s, step, x) {
      UnconcernedFed(s, step, s', x);
    } else if step.Serve? {
      assert s.calls[s.requests[s.taken]] == Exec(x);
      ServeStepFed(s, step, s', x);
    } else if step.WaiterSees? || step.WaiterExits? {
      WaiterStepFed(s, step, s', x);
    } else {
      PumpStepFed(s, step, s', x);
    }
  }

  lemma AllFedStep(s: System, step: GuestLink.Step, s': System)
    requires Booked(s) && Named(s) && AllFed(s) && Moves(s, step, s')
    ensures AllFed(s')
  {
    hide Moves, Booked, Fed, Feed, Unsplit, Concerns, Named;
    LogKeys(s, step, s');
    forall x | x !in s.link.host.execLog && x !in s.link.host.shellLog
      ensures Feed(s'.events, x) == [] && Unsplit(s'.events, x) && x !in s'.tasks
    {
      NobodysBusiness(s, step, s', x);
      Unconcerned(s, step, s', x);
    }
    forall x | x in s'.link.host.execLog ensures Fed(s', x) {
      if x in s.link.host.execLog {
        FedStep(s, step, s', x);
      } else {
        NothingFed(s', x);
      }
    }
  }

  lemma NothingFed(s: System, x: Uuid)
    requires Feed(s.events, x) == [] && Unsplit(s.events, x) && x !in s.tasks
    ensures Fed(s, x)
  {}

  /** No step concerns a command or shell that has not been named. */
  lemma NobodysBusiness(s: System, step: GuestLink.Step, s': System, x: Uuid)
    requires Named(s) && AllFed(s) && Moves(s, step, s') && x !in s.link.host.execLog && x !in s.link.host.shellLog
    ensures !Concerns(s, step, x)
  {
    hide Feed, Unsplit, Fed, ExecTaken;
    if step.PumpReads? || step.PumpSends? || step.PumpEnds? { PumpMoves(s, step, s', step.exec); }
    if step.WaiterSees? || step.WaiterExits? { WaiterMoves(s, step, s', step.exec); }
    hide Moves;
  }

  // ---- the host's side ----

  ghost predicate RefusedExec(s: System, x: Uuid) {
    exists id: RequestId :: id in s.refused && id < |s.calls| && s.calls[id] == Exec(x)
  }

  /** The channel carries what the wire brought, plus a failure if the connection
      ended first; while the connection lives, a command that has not ended is
      still being routed. */
  ghost predicate LinkFed(l: Link, x: Uuid, feed: seq<ExecEvent>, refused: bool) {
    && x in l.host.execLog
    && (l.host.execLog[x] == feed
      || (!l.up && !ExecEnded(feed) && l.fault.Some? && l.host.execLog[x] == feed + Tail(l.fault.value)))
    && (l.up && !ExecEnded(feed) && !refused ==> x in l.host.execStreams)
  }

  ghost predicate HostFed(s: System, x: Uuid) {
    s.read <= |s.events| && LinkFed(s.link, x, Feed(s.events[..s.read], x), RefusedExec(s, x))
  }

  ghost predicate AllHostFed(s: System) {
    s.read <= |s.events| && forall x :: x in s.link.host.execLog ==> HostFed(s, x)
  }

  /** How one line moves one command's channel. */
  lemma ReceivedExec(l: Link, line: Line, x: Uuid)
    requires Wired(l.host) && x in l.host.execLog && l.up
    ensures var l' := GuestRpcRuns.Step(l, Receive(line));
            var add := if x in l.host.execStreams then RouteOne(line, x) else [];
            && x in l'.host.execLog
            && (l'.up ==> l'.host.execLog[x] == l.host.execLog[x] + add)
            && (!l'.up ==>
                  RouteOne(line, x) == [] || x !in l.host.execStreams)
            && (!l'.up ==> l'.host.execLog[x] == l.host.execLog[x]
                           || (x in l.host.execStreams && l'.fault.Some?
                             && l'.host.execLog[x] == l.host.execLog[x] + Tail(l'.fault.value)))
            && (l'.up && x in l.host.execStreams && !ExecEnded(RouteOne(line, x)) ==> x in l'.host.execStreams)
  {
    hide Failed;
    var h1, error := Routed(l.host, line), LineError(l.host, line);
    RoutedExec(l.host, line, x);
    if error.Some? { FailedExec(h1, error.value, x); }
  }

  lemma RoutedExec(h: Host, line: Line, x: Uuid)
    requires Wired(h) && x in h.execLog
    ensures var h' := Routed(h, line);
            && x in h'.execLog
            && h'.execLog[x] == h.execLog[x] + (if x in h.execStreams then RouteOne(line, x) else [])
            && (x in h.execStreams && !ExecEnded(RouteOne(line, x)) ==> x in h'.execStreams)
            && (x !in h.execStreams ==> x !in h'.execStreams)
            && (LineError(h, line).Some? ==> h'.execLog[x] == h.execLog[x])
            && (LineError(h, line).Some? ==> RouteOne(line, x) == [] || x !in h.execStreams)
  {
    if line.Error? {
      ErrorExec(h, line, x);
    }
  }

  lemma ErrorExec(h: Host, line: Line, x: Uuid)
    requires Wired(h) && x in h.execLog && line.Error?
    ensures var h' := Routed(h, line);
            && x in h'.execLog
            && h'.execLog[x] == h.execLog[x] + (if x in h.execStreams then RouteOne(line, x) else [])
            && (x in h.execStreams && !ExecEnded(RouteOne(line, x)) ==> x in h'.execStreams)
            && (x !in h.execStreams ==> x !in h'.execStreams)
  {}

  lemma FailedExec(h: Host, m: Bytes, x: Uuid)
    requires Wired(h) && x in h.execLog
    ensures var h' := Failed(h, m);
            x in h'.execLog && h'.execLog[x] == h.execLog[x] + if x in h.execStreams then Tail(m) else []
  {}

  lemma NotRefused(s: System, x: Uuid)
    requires Booked(s) && Named(s) && Fed(s, x) && Feed(s.events, x) != []
    ensures !RefusedExec(s, x)
  {
    hide Ordered;
    assert ExecTaken(s, x);
    var id: RequestId :| Taken(s, id) && id < |s.calls| && s.calls[id] == Exec(x);
    assert id in s.sent;
  }

  lemma FeedGrammar(s: System, x: Uuid)
    requires Fed(s, x)
    ensures ExecGrammar(Feed(s.events, x))
  {}

  lemma ReceiveFed(l: Link, line: Line, x: Uuid, feed: seq<ExecEvent>, refused: bool)
    requires l.up && Ordered(l.host) && LinkFed(l, x, feed, refused)
    requires RouteOne(line, x) != [] ==> !ExecEnded(feed) && !refused
    ensures LinkFed(GuestRpcRuns.Step(l, Receive(line)), x, feed + RouteOne(line, x), refused)
  {
    ReceivedExec(l, line, x);
    hide GuestRpcRuns.Step, RouteOne;
    assert feed + [] == feed;
    assert RouteOne(line, x) != [] ==>
             (ExecEnded(feed + RouteOne(line, x)) <==> ExecEnded(RouteOne(line, x)));
  }

  lemma LoseFed(l: Link, message: Bytes, x: Uuid, feed: seq<ExecEvent>, refused: bool)
    requires l.up && Ordered(l.host) && LinkFed(l, x, feed, refused)
    ensures LinkFed(GuestRpcRuns.Step(l, LoseConnection(message)), x, feed, refused)
  {
    FailedExec(l.host, message, x);
  }

  /** A command whose next line is still unread has not ended. */
  lemma NotEndedYet(s: System, x: Uuid)
    requires Booked(s) && Named(s) && Fed(s, x)
    requires s.read < |s.events| && RouteOne(s.events[s.read], x) != []
    ensures !ExecEnded(Feed(s.events[..s.read], x)) && !RefusedExec(s, x)
  {
    hide Booked, Named, Fed, Feed, RouteOne, ExecGrammar, ExecEnded, RefusedExec;
    FeedNext(s, x);
    FeedPrefix(s.events, s.read + 1, x);
    FeedGrammar(s, x);
    UnfinishedPrefix(Feed(s.events[..s.read], x), RouteOne(s.events[s.read], x), Feed(s.events, x));
    NotRefused(s, x);
  }

  lemma UnfinishedPrefix(a: seq<ExecEvent>, b: seq<ExecEvent>, log: seq<ExecEvent>)
    requires a + b <= log && b != [] && ExecGrammar(log)
    ensures !ExecEnded(a) && log != []
  {
    if a != [] { assert log[|a| - 1] == (a + b)[|a| - 1] == a[|a| - 1]; }
  }

  lemma FeedNext(s: System, x: Uuid)
    requires s.read < |s.events|
    ensures Feed(s.events[..s.read + 1], x) == Feed(s.events[..s.read], x) + RouteOne(s.events[s.read], x)
  {
    assert s.events[..s.read + 1] == s.events[..s.read] + [s.events[s.read]];
    FeedAppend(s.events[..s.read], s.events[s.read], x);
  }

  lemma HostReadsFed(s: System, s': System, x: Uuid)
    requires Booked(s) && Named(s) && AllFed(s) && HostFed(s, x) && Moves(s, HostReads, s')
    requires x in s.link.host.execLog
    ensures HostFed(s', x)
  {
    Frames(s, HostReads, s');
    assert s.link.up && Fed(s, x);
    var line := s.events[s.read];
    FeedNext(s, x);
    if RouteOne(line, x) != [] { NotEndedYet(s, x); }
    hide After, Enabled, Ordered, GuestRpcRuns.Step, LinkFed, Feed, RouteOne, Named, AllFed, Fed;
    ReceiveFed(s.link, line, x, Feed(s.events[..s.read], x), RefusedExec(s, x));
    assert RefusedExec(s', x) <==> RefusedExec(s, x);
  }

  lemma HostFailsFed(s: System, message: Bytes, s': System, x: Uuid)
    requires Booked(s) && HostFed(s, x) && Moves(s, HostFails(message), s')
    ensures HostFed(s', x)
  {
    hide LinkFed, Feed, Ordered, GuestRpcRuns.Step;
    LoseFed(s.link, message, x, Feed(s.events[..s.read], x), RefusedExec(s, x));
    assert RefusedExec(s', x) <==> RefusedExec(s, x);
  }

  lemma StartsFed(s: System, s': System, x: Uuid)
    requires Booked(s) && AllFed(s) && AllHostFed(s) && Moves(s, Call(Exec(x)), s')
    ensures HostFed(s', x)
  {
    FeedPrefix(s.events, s.read, x);
  }

  lemma HostStaysFed(s: System, step: GuestLink.Step, s': System, x: Uuid)
    requires Booked(s) && AllHostFed(s) && Moves(s, step, s') && x in s.link.host.execLog
    requires !step.HostReads? && !step.HostFails?
    ensures HostFed(s', x)
  {
    hide Moves, Booked, Feed, Registered, Withdrawn, GuestRpcRuns.Step;
    Frames(s, step, s');
    assert HostFed(s, x);
    assert s'.events[..s'.read] == s.events[..s.read];
    LogStays(s, step, s', x);
    if RefusedExec(s, x) {
      var id: RequestId :| id in s.refused && id < |s.calls| && s.calls[id] == Exec(x);
      assert s'.calls[id] == Exec(x);
    }
    if step.SendFails? && s.calls[step.id] == Exec(x) {
      Refuses(s, step.id, s', x);
    }
  }

  lemma Refuses(s: System, id: RequestId, s': System, x: Uuid)
    requires Moves(s, SendFails(id), s') && s.calls[id] == Exec(x)
    ensures RefusedExec(s', x)
  {
    assert id in s'.refused && s'.calls[id] == Exec(x);
  }

  lemma LogStays(s: System, step: GuestLink.Step, s': System, x: Uuid)
    requires Moves(s, step, s') && x in s.link.host.execLog && !step.HostReads? && !step.HostFails?
    ensures x in s'.link.host.execLog && s'.link.host.execLog[x] == s.link.host.execLog[x]
    ensures s'.link.up == s.link.up && s'.link.fault == s.link.fault
    ensures !(step.SendFails? && s.calls[step.id] == Exec(x)) ==>
              (x in s'.link.host.execStreams <==> x in s.link.host.execStreams)
  {
    hide Moves, GuestRpcRuns.Step, Registered, Withdrawn;
    Frames(s, step, s');
    SendBooked(s, step, s');
    match step
    case Call(request) => RegisteredExec(s.link, |s.calls|, request, x);
    case SendFails(id) => WithdrawnExec(s.link, id, s.calls[id], x);
    case ShellAbandoned(id) => DroppedExec(s.link, s.calls[id].session, x);
    case _ =>
  }

  /** A channel, its stream and the connection stay as they are. */
  ghost predicate ExecSame(l: Link, l': Link, x: Uuid)
    requires x in l.host.execLog
  {
    && x in l'.host.execLog && l'.host.execLog[x] == l.host.execLog[x] && l'.up == l.up && l'.fault == l.fault
    && (x in l'.host.execStreams <==> x in l.host.execStreams)
  }

  lemma RegisteredExec(l: Link, id: RequestId, request: Request, x: Uuid)
    requires Wired(l.host) && x in l.host.execLog && (request.Exec? ==> request.exec != x)
    ensures ExecSame(l, Registered(l, id, request), x)
  {}

  lemma WithdrawnExec(l: Link, id: RequestId, request: Request, x: Uuid)
    requires Wired(l.host) && x in l.host.execLog
    ensures var l' := Withdrawn(l, id, request);
            && x in l'.host.execLog && l'.host.execLog[x] == l.host.execLog[x] && l'.up == l.up && l'.fault == l.fault
            && (request != Exec(x) ==> ExecSame(l, l', x))
  {}

  lemma DroppedExec(l: Link, session: Uuid, x: Uuid)
    requires Wired(l.host) && x in l.host.execLog
    ensures ExecSame(l, GuestRpcRuns.Step(l, DropShell(session)), x)
  {}

  lemma AllHostFedStep(s: System, step: GuestLink.Step, s': System)
    requires Booked(s) && Named(s) && AllFed(s) && AllHostFed(s) && Moves(s, step, s')
    ensures AllHostFed(s')
  {
    Frames(s, step, s');
    LogKeys(s, step, s');
    hide After, Ordered, HostFed, Enabled;
    forall x | x in s'.link.host.execLog ensures HostFed(s', x) {
      if x !in s.link.host.execLog {
        StartsFed(s, s', x);
      } else if step.HostReads? {
        HostReadsFed(s, s', x);
      } else if step.HostFails? {
        HostFailsFed(s, step.message, s', x);
      } else {
        HostStaysFed(s, step, s', x);
      }
    }
  }

  // ---- every run ----

  ghost predicate ExecInv(s: System) {
    Booked(s) && Named(s) && AllFed(s) && AllHostFed(s)
  }

  lemma {:induction false} ExecInvStep(s: System, step: GuestLink.Step, s': System)
    requires ExecInv(s) && Moves(s, step, s')
    ensures ExecInv(s')
  {
    BookedStep(s, step, s');
    NamedStep(s, step, s');
    AllFedStep(s, step, s');
    AllHostFedStep(s, step, s');
  }

  /** Everything a command's task has read from one of the child's streams. */
  function ReadBytes(s: System, x: Uuid, stream: Stream): Bytes {
    if x in s.tasks then PumpOf(s.tasks[x], stream).read else []
  }

  /** The failure of the command or of the connection that a message speaks of. */
  ghost predicate Caused(s: System, x: Uuid, m: Bytes) {
    s.link.fault == Some(m) || GuestSaid(s.events, x, m)
  }

  ghost predicate FailureTail(s: System, x: Uuid, tail: seq<ExecEvent>) {
    exists m :: Caused(s, x, m) && tail <= Tail(m)
  }

  /** A faithful, ordered copy of what was read, followed by (the start of) a
      failure message and a kill, or by the guest's own exit, in which case nothing
      is missing. */
  ghost predicate FaithfulAs(s: System, x: Uuid, body: seq<ExecEvent>, tail: seq<ExecEvent>) {
    && AllOutputs(body)
    && Text(body, Stdout) <= ReadBytes(s, x, Stdout) && Text(body, Stderr) <= ReadBytes(s, x, Stderr)
    && (tail == [] || FailureTail(s, x, tail) || OwnExit(s, x, body, tail))
  }

  ghost predicate OwnExit(s: System, x: Uuid, body: seq<ExecEvent>, tail: seq<ExecEvent>) {
    && x in s.tasks && s.tasks[x].exit.Some? && tail == [Exit(s.tasks[x].exit.value)]
    && Text(body, Stdout) == ReadBytes(s, x, Stdout) && Text(body, Stderr) == ReadBytes(s, x, Stderr)
  }

  ghost predicate Faithful(s: System, x: Uuid, log: seq<ExecEvent>) {
    exists n :: 0 <= n <= |log| && FaithfulAs(s, x, log[..n], log[n..])
  }

  lemma OutputsRead(s: System, x: Uuid, feed: seq<ExecEvent>)
    requires Fed(s, x) && x in s.tasks && feed <= Feed(s.events, x)
    ensures Text(feed, Stdout) <= ReadBytes(s, x, Stdout) && Text(feed, Stderr) <= ReadBytes(s, x, Stderr)
  {
    var full := Feed(s.events, x);
    hide Feed, Text;
    TextPrefix(feed, full, Stdout);
    TextPrefix(feed, full, Stderr);
  }

  lemma EmptyFaithful(s: System, x: Uuid, tail: seq<ExecEvent>)
    requires tail == [] || FailureTail(s, x, tail)
    ensures Faithful(s, x, tail)
  {
    assert tail[..0] == [] && tail[0..] == tail;
    assert FaithfulAs(s, x, tail[..0], tail[0..]);
  }

  lemma OpenFaithful(s: System, x: Uuid, body: seq<ExecEvent>, tail: seq<ExecEvent>)
    requires Fed(s, x) && x in s.tasks && body <= Feed(s.events, x) && AllOutputs(body)
    requires tail == [] || FailureTail(s, x, tail)
    ensures Faithful(s, x, body + tail)
  {
    OutputsRead(s, x, body);
    assert (body + tail)[..|body|] == body && (body + tail)[|body|..] == tail;
    assert FaithfulAs(s, x, body, tail);
  }

  lemma OwnExitFaithful(s: System, x: Uuid)
    requires Fed(s, x) && x in s.tasks && s.tasks[x].exit.Some?
    ensures Faithful(s, x, Feed(s.events, x))
  {
    var full := Feed(s.events, x);
    hide Feed, Text;
    var body, e := full[..|full| - 1], Exit(s.tasks[x].exit.value);
    assert full[|full| - 1..] == [e] && full == body + [e];
    TextConcat(body, [e], Stdout);
    TextConcat(body, [e], Stderr);
    TextOne(e, Stdout);
    TextOne(e, Stderr);
    assert OwnExit(s, x, body, [e]);
    assert FaithfulAs(s, x, full[..|full| - 1], full[|full| - 1..]);
  }

  /** The host's channel of every command, in every reachable state. */
  lemma {:induction false} HostFaithful(s: System, x: Uuid)
    requires ExecInv(s) && x in s.link.host.execLog
    ensures Faithful(s, x, s.link.host.execLog[x])
  {
    assert Fed(s, x) && HostFed(s, x);
    FeedPrefix(s.events, s.read, x);
    assert x !in s.tasks ==> |Feed(s.events[..s.read], x)| != 1;
    ChannelFaithful(s, x, Feed(s.events[..s.read], x), s.link.host.execLog[x]);
  }

  lemma ChannelFaithful(s: System, x: Uuid, feed: seq<ExecEvent>, log: seq<ExecEvent>)
    requires Fed(s, x) && feed <= Feed(s.events, x)
    requires log == feed || (!ExecEnded(feed) && s.link.fault.Some? && log == feed + Tail(s.link.fault.value))
    requires x !in s.tasks ==> |feed| != 1
    ensures Faithful(s, x, log)
  {
    var full := Feed(s.events, x);
    hide Feed, Text, Faithful;
    if x !in s.tasks {
      assert feed == [] || feed == full;
      if log != feed {
        assert Caused(s, x, s.link.fault.value) && log == Tail(s.link.fault.value);
      } else if feed != [] {
        var m :| full == Tail(m) && GuestSaid(s.events, x, m);
        assert Caused(s, x, m) && log == Tail(m);
      }
      EmptyFaithful(s, x, log);
    } else if feed == full && s.tasks[x].exit.Some? {
      OwnExitFaithful(s, x);
    } else {
      assert AllOutputs(feed);
      if log == feed {
        OpenFaithful(s, x, feed, []);
        assert feed + [] == feed;
      } else {
        assert Caused(s, x, s.link.fault.value);
        OpenFaithful(s, x, feed, Tail(s.link.fault.value));
      }
    }
  }
}
