/** A host and a guest agent joined by one connection: callers on the host, the
    guest's request loop, the two output pumps and the waiter of every running
    command, and the host's reader, interleaved in any order.

    The two directions of the connection are FIFO: a log and a read position.
    Call number i carries request id i, as the client's counter gives it out. */
module GuestLink {
  import opened Wrappers
  import opened GuestRpc
  import opened GuestRpcRuns

  datatype Request =
    | Ping
    | Exec(exec: Uuid)
    | OpenShell(session: Uuid)
    | ShellInput(session: Uuid)
    | ResizeShell(session: Uuid)
    | CloseShell(session: Uuid)
    | SnapshotWorkspace
    | SyncWorkspace
    | RuntimeStats
    | ListFiles
    | ReadFile
    | WriteFile
    | MakeDir
    | RemovePath
    | Shutdown

  /** One output task: all it has read from the child, the chunk it has read but
      not yet sent, and whether it has ended. */
  datatype Pump = Pump(read: Bytes, held: Option<Bytes>, done: bool)

  /** A running command: two output tasks, the child's status once the waiter has
      it, and the status the waiter has sent. */
  datatype Task = Task(out: Pump, err: Pump, status: Option<Status>, exit: Option<Status>)

  const Started := Task(Pump([], None, false), Pump([], None, false), None, None)

  /** `refused` and `abandoned` are the calls that could not be sent and the shells whose
      opening failed; `served` is what the guest made of each request it took. */
  datatype System = System(
    calls: seq<Request>, sent: set<RequestId>, refused: set<RequestId>, abandoned: set<RequestId>,
    requests: seq<RequestId>, taken: nat, served: map<RequestId, Result<Bytes, Bytes>>,
    tasks: map<Uuid, Task>, events: seq<Line>, guestUp: bool,
    link: Link, read: nat)

  const Connected := System([], {}, {}, {}, [], 0, map[], map[], [], true, Idle, 0)

  datatype Step =
    | Call(request: Request)
    | Send(id: RequestId)
    | SendFails(id: RequestId)
    | Serve(outcome: Result<Bytes, Bytes>)
    | PumpReads(exec: Uuid, stream: Stream, chunk: Bytes)
    | PumpSends(exec: Uuid, stream: Stream)
    | PumpEnds(exec: Uuid, stream: Stream)
    | WaiterSees(exec: Uuid, status: Status)
    | WaiterExits(exec: Uuid)
    | ShellSays(session: Uuid, data: Bytes)
    | ShellStops(session: Uuid, code: int)
    | GuestFails
    | HostReads
    | HostFails(message: Bytes)
    | ShellAbandoned(id: RequestId)

  function PumpOf(t: Task, stream: Stream): Pump {
    if stream.Stdout? then t.out else t.err
  }

  function WithPump(t: Task, stream: Stream, p: Pump): Task {
    if stream.Stdout? then t.(out := p) else t.(err := p)
  }

  // ---- the guest's replies ----

  /** The guest's one reply to a request; a started command gets none. */
  function ReplyLine(id: RequestId, request: Request, outcome: Result<Bytes, Bytes>): Line {
    match request
    case Ping => Reply(id, Pong)
    case Shutdown => Reply(id, Ack)
    case Exec(x) => Error(Some(id), Some(x), if outcome.Err? then outcome.error else [])
    case OpenShell(x) =>
      if outcome.Ok? then Reply(id, ShellOpened(x)) else Error(Some(id), Some(x), outcome.error)
    case ShellInput(x) => if outcome.Ok? then Reply(id, Ack) else Error(Some(id), Some(x), outcome.error)
    case ResizeShell(x) => if outcome.Ok? then Reply(id, Ack) else Error(Some(id), Some(x), outcome.error)
    case CloseShell(x) => if outcome.Ok? then Reply(id, Ack) else Error(Some(id), Some(x), outcome.error)
    case SnapshotWorkspace =>
      if outcome.Ok? then Reply(id, Snapshot(outcome.value)) else Error(Some(id), None, outcome.error)
    case RuntimeStats =>
      if outcome.Ok? then Reply(id, Stats(outcome.value)) else Error(Some(id), None, outcome.error)
    case ListFiles =>
      if outcome.Ok? then Reply(id, FileList(outcome.value)) else Error(Some(id), None, outcome.error)
    case ReadFile =>
      if outcome.Ok? then FileRead(id, Some(outcome.value)) else Error(Some(id), None, outcome.error)
    case _ => if outcome.Ok? then Reply(id, Ack) else Error(Some(id), None, outcome.error)
  }

  /** The response each typed request method of the client accepts. */
  predicate Expected(request: Request, response: Response) {
    match request
    case OpenShell(x) => response == ShellOpened(x)
    case SnapshotWorkspace => response.Snapshot?
    case RuntimeStats => response.Stats?
    case ListFiles => response.FileList?
    case ReadFile => response.FileBody?
    case _ => response.Ack? || response.Pong?
  }

  /** What the caller of a request is told when serving it came to this: its content, an
      acknowledgement, or the error. */
  ghost predicate Says(request: Request, outcome: Result<Bytes, Bytes>, told: Outcome) {
    if request.Ping? then told == Ok(Pong)
    else if request.Shutdown? then told == Ok(Ack)
    else match outcome
      case Err(message) => told == Err(message)
      case Ok(content) =>
        && told.Ok?
        && match told.value
           case Snapshot(entries) => request.SnapshotWorkspace? && entries == content
           case Stats(stats) => request.RuntimeStats? && stats == content
           case FileList(entries) => request.ListFiles? && entries == content
           case FileBody(body) => request.ReadFile? && body == content
           case ShellOpened(x) => request == OpenShell(x)
           case Ack => !request.SnapshotWorkspace? && !request.RuntimeStats? && !request.ListFiles?
                       && !request.ReadFile? && !request.OpenShell?
           case Pong => false
  }

  // ---- steps ----

  predicate Enabled(s: System, step: Step) {
    match step
    case Call(request) =>
      (match request
       case Exec(x) => Allowed(s.link, StartExec(x))
       case OpenShell(x) => Allowed(s.link, StartShell(x))
       case ShellInput(x) => x in s.link.host.shellLog
       case ResizeShell(x) => x in s.link.host.shellLog
       case CloseShell(x) => x in s.link.host.shellLog
       case _ => true)
    case Send(id) => id < |s.calls| && id !in s.sent && id !in s.refused
    case SendFails(id) => id < |s.calls| && id !in s.sent && id !in s.refused
    case Serve(_) => s.guestUp && s.taken < |s.requests|
    case PumpReads(x, stream, chunk) =>
      x in s.tasks && !PumpOf(s.tasks[x], stream).done && PumpOf(s.tasks[x], stream).held.None? && 0 < |chunk| <= 1024
    case PumpSends(x, stream) => x in s.tasks && PumpOf(s.tasks[x], stream).held.Some?
    case PumpEnds(x, stream) =>
      x in s.tasks && PumpOf(s.tasks[x], stream).held.None? && !PumpOf(s.tasks[x], stream).done
    case WaiterSees(x, _) => x in s.tasks && s.tasks[x].status.None?
    case WaiterExits(x) =>
      x in s.tasks && s.tasks[x].out.done && s.tasks[x].err.done && s.tasks[x].status.Some? && s.tasks[x].exit.None?
    case ShellSays(x, _) => s.guestUp && x in s.link.host.shellLog
    case ShellStops(x, _) => s.guestUp && x in s.link.host.shellLog
    case GuestFails => true
    case HostReads => s.link.up && s.read < |s.events|
    case HostFails(_) => s.link.up
    case ShellAbandoned(id) =>
      id < |s.calls| && s.calls[id].OpenShell? && id in s.link.host.results
      && exists i :: 0 <= i < |s.link.host.results[id]|
                     && s.link.host.results[id][i] != Ok(ShellOpened(s.calls[id].session))
  }

  /** Registration comes before sending. */
  function Registered(l: Link, id: RequestId, request: Request): (l': Link)
    requires Wired(l.host)
    ensures Wired(l'.host)
  {
    match request
    case Exec(x) => GuestRpcRuns.Step(l, StartExec(x))
    case OpenShell(x) => GuestRpcRuns.Step(GuestRpcRuns.Step(l, StartShell(x)), StartCall(id))
    case _ => GuestRpcRuns.Step(l, StartCall(id))
  }

  function Withdrawn(l: Link, id: RequestId, request: Request): (l': Link)
    requires Wired(l.host)
    ensures Wired(l'.host)
  {
    match request
    case Exec(x) => GuestRpcRuns.Step(l, DropExec(x))
    case OpenShell(x) => GuestRpcRuns.Step(GuestRpcRuns.Step(l, DropCall(id)), DropShell(x))
    case _ => GuestRpcRuns.Step(l, DropCall(id))
  }

  /** A send by an output task: once the guest's side is down the chunk is lost
      and the task ends. */
  function Pumped(s: System, x: Uuid, stream: Stream): System
    requires Enabled(s, PumpSends(x, stream))
  {
    var p := PumpOf(s.tasks[x], stream);
    if s.guestUp
    then s.(tasks := s.tasks[x := WithPump(s.tasks[x], stream, p.(held := None))],
            events := s.events + [ExecOutput(x, stream, p.held)])
    else s.(tasks := s.tasks[x := WithPump(s.tasks[x], stream, p.(held := None, done := true))])
  }

  function Served(s: System, outcome: Result<Bytes, Bytes>): System
    requires Enabled(s, Serve(outcome)) && s.requests[s.taken] < |s.calls|
  {
    var id := s.requests[s.taken];
    var request := s.calls[id];
    var s1 := s.(taken := s.taken + 1, served := s.served[id := outcome]);
    if request.Exec? && outcome.Ok? then s1.(tasks := s.tasks[request.exec := Started])
    else s1.(events := s.events + [ReplyLine(id, request, outcome)])
  }

  function After(s: System, step: Step): System
    requires Wired(s.link.host) && Enabled(s, step)
    requires step.Serve? ==> s.requests[s.taken] < |s.calls|
  {
    match step
    case Call(request) => s.(calls := s.calls + [request], link := Registered(s.link, |s.calls|, request))
    case Send(id) => s.(sent := s.sent + {id}, requests := s.requests + [id])
    case SendFails(id) => s.(refused := s.refused + {id}, link := Withdrawn(s.link, id, s.calls[id]))
    case Serve(outcome) => Served(s, outcome)
    case PumpReads(x, stream, chunk) =>
      var p := PumpOf(s.tasks[x], stream);
      s.(tasks := s.tasks[x := WithPump(s.tasks[x], stream, p.(read := p.read + chunk, held := Some(chunk)))])
    case PumpSends(x, stream) => Pumped(s, x, stream)
    case PumpEnds(x, stream) =>
      s.(tasks := s.tasks[x := WithPump(s.tasks[x], stream, PumpOf(s.tasks[x], stream).(done := true))])
    case WaiterSees(x, status) => s.(tasks := s.tasks[x := s.tasks[x].(status := Some(status))])
    case WaiterExits(x) =>
      if s.guestUp
      then s.(tasks := s.tasks[x := s.tasks[x].(exit := s.tasks[x].status)],
              events := s.events + [ExecExit(x, s.tasks[x].status.value)])
      else s
    case ShellSays(x, data) => s.(events := s.events + [ShellOutput(x, Some(data))])
    case ShellStops(x, code) => s.(events := s.events + [ShellExit(x, code)])
    case GuestFails => s.(guestUp := false)
    case HostReads => s.(link := GuestRpcRuns.Step(s.link, Receive(s.events[s.read])), read := s.read + 1)
    case HostFails(message) => s.(link := GuestRpcRuns.Step(s.link, LoseConnection(message)))
    case ShellAbandoned(id) =>
      s.(abandoned := s.abandoned + {id}, link := GuestRpcRuns.Step(s.link, DropShell(s.calls[id].session)))
  }
}
