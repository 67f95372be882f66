/** What the host's end of a connection keeps over every run, whatever the guest
    sends and whenever the connection fails. */
module GuestRpcRuns {
  import opened Wrappers
  import opened GuestRpc

  /** Everything that can happen at the host: callers register and withdraw
      (when their request cannot be sent), lines arrive, the connection fails. */
  datatype HostOp =
    | StartCall(id: RequestId)
    | StartExec(exec: Uuid)
    | StartShell(session: Uuid)
    | DropCall(id: RequestId)
    | DropExec(exec: Uuid)
    | DropShell(session: Uuid)
    | Receive(line: Line)
    | LoseConnection(message: Bytes)

  /** `fault` is the message the connection ended with. */
  datatype Link = Link(host: Host, up: bool, fault: Option<Bytes>)

  const Idle := Link(Host({}, map[], {}, map[], {}, map[]), true, None)

  /** Ids are fresh: request ids are counted, stream ids are UUIDs. */
  predicate Allowed(l: Link, op: HostOp) {
    match op
    case StartCall(id) => id !in l.host.results
    case StartExec(x) => x !in l.host.execLog && x !in l.host.shellLog
    case StartShell(x) => x !in l.host.shellLog && x !in l.host.execLog
    case Receive(_) => l.up
    case LoseConnection(_) => l.up
    case _ => true
  }

  function Step(l: Link, op: HostOp): (l': Link)
    requires Wired(l.host)
    ensures Wired(l'.host)
  {
    var h := l.host;
    match op
    case StartCall(id) => l.(host := h.(responses := h.responses + {id}, results := h.results[id := []]))
    case StartExec(x) => l.(host := h.(execStreams := h.execStreams + {x}, execLog := h.execLog[x := []]))
    case StartShell(x) => l.(host := h.(shellStreams := h.shellStreams + {x}, shellLog := h.shellLog[x := []]))
    case DropCall(id) => l.(host := h.(responses := h.responses - {id}))
    case DropExec(x) => l.(host := h.(execStreams := h.execStreams - {x}))
    case DropShell(x) => l.(host := h.(shellStreams := h.shellStreams - {x}))
    case Receive(line) => Link(Handled(h, line), LineError(h, line).None?, LineError(h, line))
    case LoseConnection(message) => Link(Failed(h, message), false, Some(message))
  }

  /** Outputs, then at most one exit with nothing after it. */
  ghost predicate ExecGrammar(log: seq<ExecEvent>) {
    forall i :: 0 <= i < |log| - 1 ==> log[i].Output?
  }

  ghost predicate ShellGrammar(log: seq<ShellEvent>) {
    forall i :: 0 <= i < |log| - 1 ==> log[i].ShellData?
  }

  ghost predicate ExecEnded(log: seq<ExecEvent>) {
    log != [] && log[|log| - 1].Exit?
  }

  ghost predicate ShellEnded(log: seq<ShellEvent>) {
    log != [] && log[|log| - 1].ShellDone?
  }

  /** Waiters are resolved at most once; streams follow the grammar and an open
      one has not ended. */
  ghost predicate Ordered(h: Host) {
    && Wired(h)
    && (forall id :: id in h.results ==> |h.results[id]| <= 1 && (id in h.responses ==> h.results[id] == []))
    && (forall x :: x in h.execLog ==> ExecGrammar(h.execLog[x]) && (x in h.execStreams ==> !ExecEnded(h.execLog[x])))
    && (forall x :: x in h.shellLog ==>
      ShellGrammar(h.shellLog[x]) && (x in h.shellStreams ==> !ShellEnded(h.shellLog[x])))
  }

  lemma ResolveOrdered(h: Host, id: RequestId, outcome: Outcome)
    requires Ordered(h)
    ensures Ordered(Resolve(h, id, outcome))
  {}

  lemma FailExecOrdered(h: Host, x: Uuid, message: Bytes)
    requires Ordered(h)
    ensures Ordered(FailExec(h, x, message))
  {}

  lemma FailShellOrdered(h: Host, x: Uuid, message: Bytes)
    requires Ordered(h)
    ensures Ordered(FailShell(h, x, message))
  {}

  lemma RoutedOrdered(h: Host, line: Line)
    requires Ordered(h)
    ensures Ordered(Routed(h, line))
  {
    hide Resolve, FailExec, FailShell;
    match line
    case Reply(id, response) => ResolveOrdered(h, id, Ok(response));
    case FileRead(id, data) => ResolveOrdered(h, id, if data.Some? then Ok(FileBody(data.value)) else Err(BadPayload));
    case Error(request, target, message) =>
      var h1 := if request.Some? then Resolve(h, request.value, Err(message)) else h;
      if request.Some? { ResolveOrdered(h, request.value, Err(message)); }
      if target.Some? {
        FailExecOrdered(h1, target.value, message);
        FailShellOrdered(FailExec(h1, target.value, message), target.value, message);
      }
    case _ =>
  }

  lemma FailedOrdered(h: Host, message: Bytes)
    requires Ordered(h)
    ensures Ordered(Failed(h, message))
  {}

  lemma StepOrdered(l: Link, op: HostOp)
    requires Ordered(l.host) && Allowed(l, op)
    ensures Ordered(Step(l, op).host)
  {
    hide Routed, Failed;
    match op
    case Receive(line) =>
      RoutedOrdered(l.host, line);
      var error := LineError(l.host, line);
      if error.Some? { FailedOrdered(Routed(l.host, line), error.value); }
    case LoseConnection(message) => FailedOrdered(l.host, message);
    case _ =>
  }

  /** The reader gives up on a line exactly when it is no event, when it carries output for
      an open stream that does not decode, or when it is an error that answers no request
      and closes no stream. */
  lemma {:induction false} GivesUpIff(l: Link, line: Line)
    requires Wired(l.host) && l.up
    ensures Step(l, Receive(line)).up <==>
              && !line.Malformed?
              && (line.ExecOutput? && line.data.None? ==> line.exec !in l.host.execStreams)
              && (line.ShellOutput? && line.data.None? ==> line.session !in l.host.shellStreams)
              && (line.Error? && line.request.None? ==>
                    && line.target.Some?
                    && (line.target.value in l.host.execStreams || line.target.value in l.host.shellStreams))
    ensures line.Malformed? ==> Step(l, Receive(line)).fault == Some(line.error)
    ensures line.Error? && !Step(l, Receive(line)).up ==> Step(l, Receive(line)).fault == Some(line.message)
  {
    hide Routed, Failed;
  }

  ghost predicate IsRun(links: seq<Link>, ops: seq<HostOp>) {
    && |links| == |ops| + 1 && links[0] == Idle
    && forall i :: 0 <= i < |ops| ==>
         Wired(links[i].host) && Allowed(links[i], ops[i]) && links[i + 1] == Step(links[i], ops[i])
  }

  /** Stream grammar and single resolution, in every state of every run. */
  lemma {:induction false} EveryRunOrdered(links: seq<Link>, ops: seq<HostOp>, n: nat)
    requires IsRun(links, ops) && n < |links|
    ensures Ordered(links[n].host)
  {
    if n > 0 {
      EveryRunOrdered(links, ops, n - 1);
      StepOrdered(links[n - 1], ops[n - 1]);
    }
  }

  /** When the reader gives up, every caller and stream registered at that moment
      gets exactly one terminal result, nobody else gets anything, and the three
      maps are empty. */
  lemma {:induction false} FailAllTellsEveryone(h: Host, message: Bytes)
    requires Ordered(h)
    ensures var h' := Failed(h, message);
            && h'.responses == {} && h'.execStreams == {} && h'.shellStreams == {}
            && h'.results.Keys == h.results.Keys && h'.execLog.Keys == h.execLog.Keys
              && h'.shellLog.Keys == h.shellLog.Keys
            && (forall id :: id in h.results ==>
              h'.results[id] == if id in h.responses then [Err(message)] else h.results[id])
            && (forall x :: x in h.execStreams ==>
                  ExecEnded(h'.execLog[x]) && !ExecEnded(h.execLog[x]) && h.execLog[x] < h'.execLog[x])
            && (forall x :: x in h.execLog && x !in h.execStreams ==> h'.execLog[x] == h.execLog[x])
            && (forall x :: x in h.shellStreams ==>
                  ShellEnded(h'.shellLog[x]) && !ShellEnded(h.shellLog[x]) && h.shellLog[x] < h'.shellLog[x])
            && (forall x :: x in h.shellLog && x !in h.shellStreams ==> h'.shellLog[x] == h.shellLog[x])
  {
    var h' := Failed(h, message);
    forall x | x in h.execStreams ensures ExecEnded(h'.execLog[x]) && h.execLog[x] < h'.execLog[x] {
      assert h'.execLog[x] == h.execLog[x] + [Output(Stderr, message), Exit(Killed)];
    }
    forall x | x in h.shellStreams ensures ShellEnded(h'.shellLog[x]) && h.shellLog[x] < h'.shellLog[x] {
      assert h'.shellLog[x] == h.shellLog[x] + [ShellData(message), ShellDone(-1)];
    }
  }
}
