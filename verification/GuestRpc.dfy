/** The host's end of a guest connection: three maps of waiting callers and
    streams, and the reader that routes every line the guest sends.

    A channel is modelled by the log of everything ever sent on it; a map entry
    is the sender's half, present while the stream is open. */
module GuestRpc {
  import opened Wrappers

  type Uuid = nat
  type RequestId = nat

  datatype Stream = Stdout | Stderr
  datatype Status = Success | ExitCode(code: int) | Timeout | Killed

  datatype ExecEvent = Output(stream: Stream, data: Bytes) | Exit(status: Status)
  datatype ShellEvent = ShellData(data: Bytes) | ShellDone(code: int)

  datatype Response =
    | Ack
    | Pong
    | ShellOpened(session: Uuid)
    | Snapshot(entries: Bytes)
    | Stats(stats: Bytes)
    | FileList(entries: Bytes)
    | FileBody(body: Bytes)

  type Outcome = Result<Response, Bytes>

  /** A line from the guest.  `data` is absent when its base64 does not decode. */
  datatype Line =
    | Malformed(error: Bytes)
    | Ready
    | Reply(id: RequestId, response: Response)
    | FileRead(id: RequestId, data: Option<Bytes>)
    | ExecOutput(exec: Uuid, stream: Stream, data: Option<Bytes>)
    | ExecExit(exec: Uuid, status: Status)
    | ShellOutput(session: Uuid, data: Option<Bytes>)
    | ShellExit(session: Uuid, code: int)
    | Error(request: Option<RequestId>, target: Option<Uuid>, message: Bytes)

  const BadPayload: Bytes := [0]

  datatype Host = Host(
    responses: set<RequestId>, results: map<RequestId, seq<Outcome>>,
    execStreams: set<Uuid>, execLog: map<Uuid, seq<ExecEvent>>,
    shellStreams: set<Uuid>, shellLog: map<Uuid, seq<ShellEvent>>)

  /** Every open entry has its channel. */
  ghost predicate Wired(h: Host) {
    h.responses <= h.results.Keys && h.execStreams <= h.execLog.Keys && h.shellStreams <= h.shellLog.Keys
  }

  // ---- what each routine does, as functions of the maps ----

  function Resolve(h: Host, id: RequestId, outcome: Outcome): Host
    requires Wired(h)
  {
    if id in h.responses
    then h.(responses := h.responses - {id}, results := h.results[id := h.results[id] + [outcome]])
    else h
  }

  function FailExec(h: Host, exec: Uuid, message: Bytes): Host
    requires Wired(h)
  {
    if exec in h.execStreams
    then h.(execStreams := h.execStreams - {exec},
            execLog := h.execLog[exec := h.execLog[exec] + [Output(Stderr, message), Exit(Killed)]])
    else h
  }

  function FailShell(h: Host, session: Uuid, message: Bytes): Host
    requires Wired(h)
  {
    if session in h.shellStreams
    then h.(shellStreams := h.shellStreams - {session},
            shellLog := h.shellLog[session := h.shellLog[session] + [ShellData(message), ShellDone(-1)]])
    else h
  }

  function RouteError(h: Host, request: Option<RequestId>, target: Option<Uuid>, message: Bytes): Host
    requires Wired(h)
  {
    var h1 := if request.Some? then Resolve(h, request.value, Err(message)) else h;
    if target.Some? then FailShell(FailExec(h1, target.value, message), target.value, message) else h1
  }

  /** An error nobody is waiting for ends the connection. */
  predicate Undelivered(h: Host, request: Option<RequestId>, target: Option<Uuid>) {
    request.None? && (target.Some? ==> target.value !in h.execStreams && target.value !in h.shellStreams)
  }

  /** The error that makes the reader give up on this line, if any. */
  function LineError(h: Host, line: Line): Option<Bytes> {
    match line
    case Malformed(error) => Some(error)
    case ExecOutput(exec, _, None) => if exec in h.execStreams then Some(BadPayload) else None
    case ShellOutput(session, None) => if session in h.shellStreams then Some(BadPayload) else None
    case Error(request, target, message) => if Undelivered(h, request, target) then Some(message) else None
    case _ => None
  }

  function Routed(h: Host, line: Line): (h': Host)
    requires Wired(h)
    ensures Wired(h')
  {
    match line
    case Reply(id, response) => Resolve(h, id, Ok(response))
    case FileRead(id, data) => Resolve(h, id, if data.Some? then Ok(FileBody(data.value)) else Err(BadPayload))
    case ExecOutput(exec, stream, Some(data)) =>
      if exec in h.execStreams then h.(execLog := h.execLog[exec := h.execLog[exec] + [Output(stream, data)]]) else h
    case ExecExit(exec, status) =>
      if exec in h.execStreams
      then h.(execStreams := h.execStreams - {exec}, execLog := h.execLog[exec := h.execLog[exec] + [Exit(status)]])
      else h
    case ShellOutput(session, Some(data)) =>
      if session in h.shellStreams
      then h.(shellLog := h.shellLog[session := h.shellLog[session] + [ShellData(data)]]) else h
    case ShellExit(session, code) =>
      if session in h.shellStreams
      then h.(shellStreams := h.shellStreams - {session},
              shellLog := h.shellLog[session := h.shellLog[session] + [ShellDone(code)]])
      else h
    case Error(request, target, message) => RouteError(h, request, target, message)
    case _ => h
  }

  /** The channels after the same last words on each of those still open. */
  function Told<T>(logs: map<nat, seq<T>>, open: set<nat>, words: seq<T>): map<nat, seq<T>> {
    map x | x in logs :: logs[x] + if x in open then words else []
  }

  /** Empties the three maps, telling every waiter and stream. */
  function Failed(h: Host, message: Bytes): (h': Host)
    requires Wired(h)
    ensures Wired(h')
  {
    Host({}, Told(h.results, h.responses, [Err(message)]),
         {}, Told(h.execLog, h.execStreams, [Output(Stderr, message), Exit(Killed)]),
         {}, Told(h.shellLog, h.shellStreams, [ShellData(message), ShellDone(-1)]))
  }

  /** One turn of the read loop. */
  function Handled(h: Host, line: Line): (h': Host)
    requires Wired(h)
    ensures Wired(h')
  {
    var error := LineError(h, line);
    if error.Some? then Failed(Routed(h, line), error.value) else Routed(h, line)
  }

  // ---- the reader itself ----

  class GuestRpcClient {
    var responses: set<RequestId>
    var results: map<RequestId, seq<Outcome>>
    var execStreams: set<Uuid>
    var execLog: map<Uuid, seq<ExecEvent>>
    var shellStreams: set<Uuid>
    var shellLog: map<Uuid, seq<ShellEvent>>
    var running: bool

    ghost function State(): Host
      reads this
    {
      Host(responses, results, execStreams, execLog, shellStreams, shellLog)
    }

    constructor ()
      ensures State() == Host({}, map[], {}, map[], {}, map[]) && running
    {
      responses, results, execStreams, execLog, shellStreams, shellLog := {}, map[], {}, map[], {}, map[];
      running := true;
    }

    method ResolveResponse(id: RequestId, outcome: Outcome)
      requires Wired(State())
      modifies this`responses, this`results
      ensures State() == old(Resolve(State(), id, outcome))
    {
      if id in responses {
        responses := responses - {id};
        results := results[id := results[id] + [outcome]];
      }
    }

    method RouteExecOutput(exec: Uuid, stream: Stream, data: Option<Bytes>) returns (error: Option<Bytes>)
      requires Wired(State())
      modifies this`execLog
      ensures State() == old(Routed(State(), ExecOutput(exec, stream, data)))
      ensures error == old(LineError(State(), ExecOutput(exec, stream, data)))
    {
      error := None;
      if exec in execStreams {
        if data.None? {
          return Some(BadPayload);
        }
        execLog := execLog[exec := execLog[exec] + [Output(stream, data.value)]];
      }
    }

    method RouteErrorEvent(request: Option<RequestId>, target: Option<Uuid>, message: Bytes)
      returns (error: Option<Bytes>)
      requires Wired(State())
      modifies this
      ensures State() == old(RouteError(State(), request, target, message)) && running == old(running)
      ensures error == old(LineError(State(), Error(request, target, message)))
    {
      var delivered := false;
      if request.Some? {
        ResolveResponse(request.value, Err(message));
        delivered := true;
      }
      if target.Some? {
        var exec := CloseExec(target.value, message);
        var shell := CloseShell(target.value, message);
        delivered := delivered || exec || shell;
      }
      error := if delivered then None else Some(message);
    }

    method CloseExec(x: Uuid, message: Bytes) returns (delivered: bool)
      requires Wired(State())
      modifies this`execStreams, this`execLog
      ensures State() == old(FailExec(State(), x, message)) && delivered == old(x in execStreams)
    {
      delivered := x in execStreams;
      if delivered {
        execStreams := execStreams - {x};
        execLog := execLog[x := execLog[x] + [Output(Stderr, message)]];
        execLog := execLog[x := execLog[x] + [Exit(Killed)]];
        assert execLog[x] == old(execLog)[x] + [Output(Stderr, message), Exit(Killed)];
      }
    }

    method CloseShell(x: Uuid, message: Bytes) returns (delivered: bool)
      requires Wired(State())
      modifies this`shellStreams, this`shellLog
      ensures State() == old(FailShell(State(), x, message)) && delivered == old(x in shellStreams)
    {
      delivered := x in shellStreams;
      if delivered {
        shellStreams := shellStreams - {x};
        shellLog := shellLog[x := shellLog[x] + [ShellData(message)]];
        shellLog := shellLog[x := shellLog[x] + [ShellDone(-1)]];
        assert shellLog[x] == old(shellLog)[x] + [ShellData(message), ShellDone(-1)];
      }
    }

    method FailAll(message: Bytes)
      requires Wired(State())
      modifies this
      ensures State() == old(Failed(State(), message)) && running == old(running)
    {
      hide Told;
      var waiting, execs, shells := responses, execStreams, shellStreams;
      responses, execStreams, shellStreams := {}, {}, {};
      FailResponses(waiting, message);
      FailExecs(execs, message);
      FailShells(shells, message);
    }

    method FailResponses(waiting: set<RequestId>, message: Bytes)
      requires waiting <= results.Keys
      modifies this`results
      ensures results == Told(old(results), waiting, [Err(message)])
    {
      var rest := waiting;
      while rest != {}
        invariant rest <= waiting <= results.Keys == old(results).Keys
        invariant forall id :: id in results ==>
                    results[id] == old(results)[id] + if id in waiting - rest then [Err(message)] else []
      {
        var id :| id in rest;
        rest := rest - {id};
        results := results[id := results[id] + [Err(message)]];
      }
    }

    method FailExecs(streams: set<Uuid>, message: Bytes)
      requires streams <= execLog.Keys
      modifies this`execLog
      ensures execLog == Told(old(execLog), streams, [Output(Stderr, message), Exit(Killed)])
    {
      var rest := streams;
      while rest != {}
        invariant rest <= streams <= execLog.Keys == old(execLog).Keys
        invariant forall x :: x in execLog ==>
                    execLog[x] == old(execLog)[x] +
                      if x in streams - rest then [Output(Stderr, message), Exit(Killed)] else []
      {
        var x :| x in rest;
        rest := rest - {x};
        execLog := execLog[x := execLog[x] + [Output(Stderr, message)]];
        execLog := execLog[x := execLog[x] + [Exit(Killed)]];
      }
    }

    method FailShells(streams: set<Uuid>, message: Bytes)
      requires streams <= shellLog.Keys
      modifies this`shellLog
      ensures shellLog == Told(old(shellLog), streams, [ShellData(message), ShellDone(-1)])
    {
      var rest := streams;
      while rest != {}
        invariant rest <= streams <= shellLog.Keys == old(shellLog).Keys
        invariant forall x :: x in shellLog ==>
                    shellLog[x] == old(shellLog)[x] +
                      if x in streams - rest then [ShellData(message), ShellDone(-1)] else []
      {
        var x :| x in rest;
        rest := rest - {x};
        shellLog := shellLog[x := shellLog[x] + [ShellData(message)]];
        shellLog := shellLog[x := shellLog[x] + [ShellDone(-1)]];
      }
    }

    method HandleLine(line: Line) returns (error: Option<Bytes>)
      requires Wired(State())
      modifies this
      ensures State() == old(Routed(State(), line)) && error == old(LineError(State(), line)) && running == old(running)
    {
      error := None;
      match line
      case Malformed(e) => error := Some(e);
      case Ready =>
      case Reply(id, response) => ResolveResponse(id, Ok(response));
      case FileRead(id, data) =>
        ResolveResponse(id, if data.Some? then Ok(FileBody(data.value)) else Err(BadPayload));
      case ExecOutput(exec, stream, data) => error := RouteExecOutput(exec, stream, data);
      case ExecExit(exec, status) =>
        if exec in execStreams {
          execStreams := execStreams - {exec};
          execLog := execLog[exec := execLog[exec] + [Exit(status)]];
        }
      case ShellOutput(session, data) =>
        if session in shellStreams {
          if data.None? { return Some(BadPayload); }
          shellLog := shellLog[session := shellLog[session] + [ShellData(data.value)]];
        }
      case ShellExit(session, code) =>
        if session in shellStreams {
          shellStreams := shellStreams - {session};
          shellLog := shellLog[session := shellLog[session] + [ShellDone(code)]];
        }
      case Error(request, target, message) => error := RouteErrorEvent(request, target, message);
    }

    /** One turn of the read loop; a line it cannot handle stops it for good. */
    method ReadLine(line: Line)
      requires Wired(State()) && running
      modifies this
      ensures State() == old(Handled(State(), line))
      ensures running <==> old(LineError(State(), line)).None?
    {
      var error := HandleLine(line);
      if error.Some? {
        FailAll(error.value);
        running := false;
      }
    }
  }
}
