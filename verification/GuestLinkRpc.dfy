/** Requests and replies across one connection: in every interleaving a caller
    is answered at most once, only by the guest's reply to its own request, and
    with the kind of response it expects. */
module GuestLinkRpc {
  import opened Wrappers
  import opened GuestRpc
  import opened GuestRpcRuns
  import opened GuestLink

  ghost predicate Moves(s: System, step: GuestLink.Step, s': System) {
    && Wired(s.link.host) && Enabled(s, step)
    && (step.Serve? ==> s.requests[s.taken] < |s.calls|)
    && s' == After(s, step)
  }

  ghost predicate IsSystemRun(states: seq<System>, steps: seq<GuestLink.Step>) {
    && |states| == |steps| + 1 && states[0] == Connected
    && forall i :: 0 <= i < |steps| ==> Moves(states[i], steps[i], states[i + 1])
  }

  /** What a step does to the connection's host end, and how the logs grow. */
  lemma Frames(s: System, step: GuestLink.Step, s': System)
    requires Moves(s, step, s')
    ensures s.events <= s'.events && |s'.events| <= |s.events| + 1
    ensures s.calls <= s'.calls && s.requests <= s'.requests && s.taken <= s'.taken
    ensures s.sent <= s'.sent && s.refused <= s'.refused
    ensures !step.HostReads? ==> s'.read == s.read
    ensures step.HostReads? ==> s.read < |s.events| && s'.read == s.read + 1 && s'.events == s.events
    ensures !step.Call? ==> s'.calls == s.calls
    ensures !step.Send? ==> s'.requests == s.requests && s'.sent == s.sent
    ensures !step.SendFails? ==> s'.refused == s.refused
    ensures !step.Serve? ==> s'.taken == s.taken
    ensures match step
            case Call(request) => s'.link == Registered(s.link, |s.calls|, request) && s'.calls == s.calls + [request]
            case SendFails(id) => id < |s.calls| && s'.link == Withdrawn(s.link, id, s.calls[id])
            case HostReads => s'.link == GuestRpcRuns.Step(s.link, Receive(s.events[s.read]))
            case HostFails(message) => s'.link == GuestRpcRuns.Step(s.link, LoseConnection(message))
            case ShellAbandoned(id) =>
              id < |s.calls| && s.calls[id].OpenShell?
                && s'.link == GuestRpcRuns.Step(s.link, DropShell(s.calls[id].session))
            case _ => s'.link == s.link
  {
    hide GuestRpcRuns.Step, Registered, Withdrawn, ReplyLine, PumpOf, WithPump;
  }

  /** The shell a request names. */
  function SessionOf(request: Request): Option<Uuid> {
    match request
    case OpenShell(x) => Some(x)
    case ShellInput(x) => Some(x)
    case ResizeShell(x) => Some(x)
    case CloseShell(x) => Some(x)
    case _ => None
  }

  // ---- bookkeeping of the two wires ----

  ghost predicate Booked(s: System) {
    && Ordered(s.link.host)
    && s.taken <= |s.requests| && s.read <= |s.events|
    && (forall k :: 0 <= k < |s.requests| ==> s.requests[k] in s.sent)
    && (forall j, k :: 0 <= j < k < |s.requests| ==> s.requests[j] != s.requests[k])
    && (forall id :: id in s.sent ==> id < |s.calls| && id !in s.refused)
    && (forall id :: id in s.refused ==> id < |s.calls|)
    && (forall id: RequestId :: id in s.link.host.results <==> id < |s.calls| && !s.calls[id].Exec?)
  }

  lemma ReceiveKeepsKeys(l: Link, op: HostOp)
    requires Wired(l.host) && (op.Receive? || op.LoseConnection? || op.DropCall? || op.DropExec? || op.DropShell?)
    ensures var h, h' := l.host, GuestRpcRuns.Step(l, op).host;
            h'.results.Keys == h.results.Keys && h'.execLog.Keys == h.execLog.Keys
              && h'.shellLog.Keys == h.shellLog.Keys
  {
    if op.Receive? { RoutedKeys(l.host, op.line); }
  }

  lemma RoutedKeys(h: Host, line: Line)
    requires Wired(h)
    ensures var h' := Routed(h, line);
            h'.results.Keys == h.results.Keys && h'.execLog.Keys == h.execLog.Keys
              && h'.shellLog.Keys == h.shellLog.Keys
  {
    if line.Error? {
      ErrorKeys(h, line.request, line.target, line.message);
      hide RouteError;
    }
  }

  lemma ErrorKeys(h: Host, request: Option<RequestId>, target: Option<Uuid>, message: Bytes)
    requires Wired(h)
    ensures var h' := RouteError(h, request, target, message);
            h'.results.Keys == h.results.Keys && h'.execLog.Keys == h.execLog.Keys
              && h'.shellLog.Keys == h.shellLog.Keys
  {
    var h1 := if request.Some? then Resolve(h, request.value, Err(message)) else h;
    assert h1.results.Keys == h.results.Keys;
    if target.Some? {
      ExecFails(h1, target.value, message);
      ShellFails(FailExec(h1, target.value, message), target.value, message);
    }
    hide FailExec, FailShell, Resolve;
  }

  lemma BookedStep(s: System, step: GuestLink.Step, s': System)
    requires Booked(s) && Moves(s, step, s')
    ensures Booked(s')
  {
    SendBooked(s, step, s');
    Frames(s, step, s');
    hide Moves, GuestRpcRuns.Step, Ordered, Registered, Withdrawn;
    match step
    case Call(request) => CallBooked(s, request, s');
    case SendFails(id) => WithdrawBooked(s, id, s');
    case HostReads =>
      StepOrdered(s.link, Receive(s.events[s.read]));
      ReceiveKeepsKeys(s.link, Receive(s.events[s.read]));
    case HostFails(message) =>
      StepOrdered(s.link, LoseConnection(message));
      ReceiveKeepsKeys(s.link, LoseConnection(message));
    case ShellAbandoned(id) =>
      StepOrdered(s.link, DropShell(s.calls[id].session));
      ReceiveKeepsKeys(s.link, DropShell(s.calls[id].session));
    case _ =>
  }

  /** A request is sent once, and taken in the order sent. */
  lemma SendBooked(s: System, step: GuestLink.Step, s': System)
    requires Moves(s, step, s')
    ensures Wired(s.link.host) && (s.taken <= |s.requests| ==> s'.taken <= |s'.requests|)
    ensures step.Send? ==> step.id < |s.calls| && step.id !in s.sent && step.id !in s.refused
    ensures step.Send? ==> s'.requests == s.requests + [step.id] && s'.sent == s.sent + {step.id}
    ensures step.SendFails? ==> step.id < |s.calls| && step.id !in s.sent && s'.refused == s.refused + {step.id}
    ensures step.HostReads? || step.HostFails? ==> s.link.up
    ensures step.Call? && step.request.Exec? ==> Allowed(s.link, StartExec(step.request.exec))
    ensures step.Call? && step.request.OpenShell? ==> Allowed(s.link, StartShell(step.request.session))
    ensures step.Call? && SessionOf(step.request).Some? && !step.request.OpenShell? ==>
              SessionOf(step.request).value in s.link.host.shellLog
  {
    hide GuestRpcRuns.Step, Registered, Withdrawn, ReplyLine, PumpOf, WithPump;
  }

  lemma CallBooked(s: System, request: Request, s': System)
    requires Booked(s) && Moves(s, Call(request), s')
    ensures Booked(s')
  {
    var id := |s.calls|;
    match request
    case Exec(x) => StepOrdered(s.link, StartExec(x));
    case OpenShell(x) =>
      StepOrdered(s.link, StartShell(x));
      StepOrdered(GuestRpcRuns.Step(s.link, StartShell(x)), StartCall(id));
    case _ => StepOrdered(s.link, StartCall(id));
  }

  lemma WithdrawBooked(s: System, id: RequestId, s': System)
    requires Booked(s) && Moves(s, SendFails(id), s')
    ensures Booked(s')
  {
    match s.calls[id]
    case Exec(x) => StepOrdered(s.link, DropExec(x));
    case OpenShell(x) =>
      StepOrdered(s.link, DropCall(id));
      StepOrdered(GuestRpcRuns.Step(s.link, DropCall(id)), DropShell(x));
    case _ => StepOrdered(s.link, DropCall(id));
  }

  // ---- replies on the wire ----

  function ReplyId(line: Line): Option<RequestId> {
    match line
    case Reply(id, _) => Some(id)
    case FileRead(id, _) => Some(id)
    case Error(request, _, _) => request
    case _ => None
  }

  /** What a reply line resolves its waiter with. */
  function OutcomeOf(line: Line): Outcome
    requires ReplyId(line).Some?
  {
    match line
    case Reply(_, response) => Ok(response)
    case FileRead(_, data) => if data.Some? then Ok(FileBody(data.value)) else Err(BadPayload)
    case Error(_, _, message) => Err(message)
  }

  /** The guest has taken this request off the wire. */
  ghost predicate Taken(s: System, id: RequestId) {
    exists k :: 0 <= k < s.taken <= |s.requests| && s.requests[k] == id
  }

  ghost predicate Fits(s: System, line: Line) {
    ReplyId(line).Some? ==>
      && Taken(s, ReplyId(line).value)
      && ReplyId(line).value < |s.calls|
      && ReplyId(line).value in s.served
      && (!s.calls[ReplyId(line).value].Exec? ==>
            Says(s.calls[ReplyId(line).value], s.served[ReplyId(line).value], OutcomeOf(line)))
      && (OutcomeOf(line).Ok? ==> Expected(s.calls[ReplyId(line).value], OutcomeOf(line).value))
  }

  /** Every reply answers a request the guest has taken, with the right kind, and
      no two answer the same one. */
  ghost predicate RepliesFit(s: System) {
    && s.taken <= |s.requests|
    && (forall i :: 0 <= i < |s.events| ==> Fits(s, s.events[i]))
    && forall i, j :: 0 <= i < j < |s.events| && ReplyId(s.events[i]).Some? ==>
         ReplyId(s.events[i]) != ReplyId(s.events[j])
  }

  lemma StaysTaken(s: System, step: GuestLink.Step, s': System, id: RequestId)
    requires Moves(s, step, s') && Taken(s, id)
    ensures Taken(s', id)
  {
    Frames(s, step, s');
    hide After, Enabled;
    var k :| 0 <= k < s.taken <= |s.requests| && s.requests[k] == id;
    assert s'.requests[k] == id;
  }

  /** What was made of a request the guest has taken does not change. */
  lemma StaysServed(s: System, step: GuestLink.Step, s': System, id: RequestId)
    requires Booked(s) && Moves(s, step, s') && Taken(s, id) && id in s.served
    ensures id in s'.served && s'.served[id] == s.served[id]
  {
    ServedStep(s, step, s');
    hide Moves, Ordered;
    var k :| 0 <= k < s.taken <= |s.requests| && s.requests[k] == id;
  }

  lemma ServedStep(s: System, step: GuestLink.Step, s': System)
    requires Moves(s, step, s')
    ensures !step.Serve? ==> s'.served == s.served
    ensures step.Serve? ==> s.taken < |s.requests| && s'.served == s.served[s.requests[s.taken] := step.outcome]
  {
    hide GuestRpcRuns.Step, Registered, Withdrawn, ReplyLine, PumpOf, WithPump;
  }

  lemma RepliesFitStep(s: System, step: GuestLink.Step, s': System)
    requires Booked(s) && RepliesFit(s) && Moves(s, step, s')
    ensures RepliesFit(s')
  {
    hide Moves, Ordered, ReplyLine, Expected, Says;
    Frames(s, step, s');
    SendBooked(s, step, s');
    ServedStep(s, step, s');
    NewEvent(s, step, s');
    forall i | 0 <= i < |s'.events| ensures Fits(s', s'.events[i]) {
      if i < |s.events| {
        assert Fits(s, s.events[i]);
        if ReplyId(s.events[i]).Some? {
          StaysTaken(s, step, s', ReplyId(s.events[i]).value);
          StaysServed(s, step, s', ReplyId(s.events[i]).value);
        }
      } else if ReplyId(s'.events[i]).Some? {
        assert Taken(s', s.requests[s.taken]) by { assert s'.requests[s.taken] == s.requests[s.taken]; }
        ReplyFits(s.requests[s.taken], s.calls[s.requests[s.taken]], step.outcome);
      }
    }
    forall i | 0 <= i < |s.events| && |s'.events| > |s.events| && ReplyId(s.events[i]).Some?
      ensures ReplyId(s.events[i]) != ReplyId(s'.events[|s.events|])
    {
      assert Fits(s, s.events[i]);
      if ReplyId(s'.events[|s.events|]).Some? {
        ReplyFits(s.requests[s.taken], s.calls[s.requests[s.taken]], step.outcome);
      }
    }
    hide ReplyId, Fits;
    forall i, j | 0 <= i < j < |s'.events| && ReplyId(s'.events[i]).Some?
      ensures ReplyId(s'.events[i]) != ReplyId(s'.events[j])
    {
      assert s'.events[i] == s.events[i];
      if j < |s.events| { assert s'.events[j] == s.events[j]; }
    }
  }

  /** Only the request loop puts replies on the wire. */
  lemma NewEvent(s: System, step: GuestLink.Step, s': System)
    requires Booked(s) && Moves(s, step, s')
    ensures |s'.events| > |s.events| && ReplyId(s'.events[|s.events|]).Some? ==>
              && step.Serve? && s.taken < |s.requests| && s.requests[s.taken] < |s.calls| && s'.taken == s.taken + 1
              && s'.events[|s.events|] == ReplyLine(s.requests[s.taken], s.calls[s.requests[s.taken]], step.outcome)
  {
    hide GuestRpcRuns.Step, Ordered, Registered, Withdrawn, ReplyLine, PumpOf, WithPump;
  }

  lemma ReplyFits(id: RequestId, request: Request, outcome: Result<Bytes, Bytes>)
    ensures var line := ReplyLine(id, request, outcome);
            && ReplyId(line) == Some(id) && (OutcomeOf(line).Ok? ==> Expected(request, OutcomeOf(line).value))
            && (!request.Exec? ==> Says(request, outcome, OutcomeOf(line)))
  {}

  // ---- results ----

  /** A result came from a reply the host has read, or from the connection ending. */
  ghost predicate Justified(s: System, id: RequestId, outcome: Outcome) {
    || (exists i :: 0 <= i < s.read <= |s.events|
                    && ReplyId(s.events[i]) == Some(id) && OutcomeOf(s.events[i]) == outcome)
    || (!s.link.up && s.link.fault.Some? && outcome == Err(s.link.fault.value))
  }

  ghost predicate ResultsJustified(s: System) {
    forall id :: id in s.link.host.results ==>
      forall i :: 0 <= i < |s.link.host.results[id]| ==> Justified(s, id, s.link.host.results[id][i])
  }

  lemma ReceivedResults(l: Link, line: Line, id: RequestId, outcome: Outcome)
    requires Ordered(l.host) && id in GuestRpcRuns.Step(l, Receive(line)).host.results
    requires outcome in GuestRpcRuns.Step(l, Receive(line)).host.results[id]
    ensures id in l.host.results
    ensures || outcome in l.host.results[id]
            || (ReplyId(line) == Some(id) && OutcomeOf(line) == outcome)
            || (var l' := GuestRpcRuns.Step(l, Receive(line));
                !l'.up && l'.fault.Some? && outcome == Err(l'.fault.value))
  {
    RoutedKeys(l.host, line);
    RoutedResults(l.host, line, id);
  }

  lemma RoutedResults(h: Host, line: Line, id: RequestId)
    requires Wired(h) && id in h.results
    ensures var h' := Routed(h, line);
            id in h'.results &&
            h'.results[id] == h.results[id] +
              if ReplyId(line) == Some(id) && id in h.responses then [OutcomeOf(line)] else []
  {
    if line.Error? {
      ErrorResults(h, line.request, line.target, line.message, id);
      hide RouteError;
    }
  }

  /** Only resolving its request changes results when an error is routed. */
  lemma ErrorResults(h: Host, request: Option<RequestId>, target: Option<Uuid>, message: Bytes, id: RequestId)
    requires Wired(h) && id in h.results
    ensures var h' := RouteError(h, request, target, message);
            id in h'.results &&
            h'.results[id] == h.results[id] + if request == Some(id) && id in h.responses then [Err(message)] else []
  {
    hide FailExec, FailShell;
    var h1 := if request.Some? then Resolve(h, request.value, Err(message)) else h;
    if target.Some? {
      var h2 := FailExec(h1, target.value, message);
      assert h2.results == h1.results && Wired(h2) by { ExecFails(h1, target.value, message); }
      assert FailShell(h2, target.value, message).results == h1.results by { ShellFails(h2, target.value, message); }
    }
  }

  lemma ExecFails(h: Host, x: Uuid, message: Bytes)
    requires Wired(h)
    ensures var h' := FailExec(h, x, message);
            Wired(h') && h'.results == h.results && h'.shellLog == h.shellLog && h'.execLog.Keys == h.execLog.Keys
  {}

  lemma ShellFails(h: Host, x: Uuid, message: Bytes)
    requires Wired(h)
    ensures var h' := FailShell(h, x, message);
            Wired(h') && h'.results == h.results && h'.execLog == h.execLog && h'.shellLog.Keys == h.shellLog.Keys
  {}

  lemma ResultsStep(s: System, step: GuestLink.Step, s': System)
    requires Booked(s) && ResultsJustified(s) && Moves(s, step, s')
    ensures ResultsJustified(s')
  {
    forall id, i | id in s'.link.host.results && 0 <= i < |s'.link.host.results[id]|
      ensures Justified(s', id, s'.link.host.results[id][i])
    {
      ResultStep(s, step, s', id, i);
    }
  }

  lemma ResultStep(s: System, step: GuestLink.Step, s': System, id: RequestId, i: nat)
    requires Booked(s) && ResultsJustified(s) && Moves(s, step, s')
    requires id in s'.link.host.results && i < |s'.link.host.results[id]|
    ensures Justified(s', id, s'.link.host.results[id][i])
  {
    hide Moves, Ordered, GuestRpcRuns.Step, OutcomeOf, ReplyId;
    Frames(s, step, s');
    SendBooked(s, step, s');
    var outcome := s'.link.host.results[id][i];
    if step.HostReads? {
      var line := s.events[s.read];
      ReceivedResults(s.link, line, id, outcome);
      if outcome in s.link.host.results[id] {
        assert Justified(s, id, outcome);
      } else if ReplyId(line) == Some(id) && OutcomeOf(line) == outcome {
        assert s'.events[s.read] == line;
      }
    } else if step.HostFails? {
      LostResults(s.link, step.message, id);
      if i < |s.link.host.results[id]| { assert Justified(s, id, outcome); }
    } else {
      OldResults(s, step, s', id);
      assert Justified(s, id, outcome);
    }
  }

  lemma LostResults(l: Link, message: Bytes, id: RequestId)
    requires Wired(l.host) && id in GuestRpcRuns.Step(l, LoseConnection(message)).host.results
    ensures var l' := GuestRpcRuns.Step(l, LoseConnection(message));
            && id in l.host.results && !l'.up && l'.fault == Some(message)
            && |l.host.results[id]| <= |l'.host.results[id]|
            && (forall i :: 0 <= i < |l.host.results[id]| ==> l'.host.results[id][i] == l.host.results[id][i])
            && (forall i :: |l.host.results[id]| <= i < |l'.host.results[id]| ==>
                  l'.host.results[id][i] == Err(message))
  {}

  lemma OldResults(s: System, step: GuestLink.Step, s': System, id: RequestId)
    requires Booked(s) && Moves(s, step, s') && !step.HostReads? && !step.HostFails?
    requires id in s'.link.host.results && s'.link.host.results[id] != []
    ensures id in s.link.host.results && s'.link.host.results[id] == s.link.host.results[id]
    ensures s'.link.up == s.link.up && s'.link.fault == s.link.fault && s'.read == s.read && s.events <= s'.events
  {
    hide Moves, Ordered, GuestRpcRuns.Step, Registered, Withdrawn;
    Frames(s, step, s');
    SendBooked(s, step, s');
    match step
    case Call(request) => RegisteredResults(s.link, |s.calls|, request, id);
    case SendFails(r) => WithdrawnResults(s.link, r, s.calls[r]);
    case ShellAbandoned(r) => DroppedResults(s.link, DropShell(s.calls[r].session));
    case _ =>
  }

  lemma RegisteredResults(l: Link, r: RequestId, request: Request, id: RequestId)
    requires Wired(l.host) && id in Registered(l, r, request).host.results
    ensures var l' := Registered(l, r, request);
            l'.up == l.up && l'.fault == l.fault && (l'.host.results[id] == []
              || (id in l.host.results && l'.host.results[id] == l.host.results[id]))
  {}

  lemma WithdrawnResults(l: Link, r: RequestId, request: Request)
    requires Wired(l.host)
    ensures var l' := Withdrawn(l, r, request);
            l'.up == l.up && l'.fault == l.fault && l'.host.results == l.host.results
  {}

  lemma DroppedResults(l: Link, op: HostOp)
    requires Wired(l.host) && op.DropShell?
    ensures var l' := GuestRpcRuns.Step(l, op);
            l'.up == l.up && l'.fault == l.fault && l'.host.results == l.host.results
  {}

  // ---- every reply that is read is handed over ----

  /** While the connection lives, a caller without an answer is still waiting. */
  ghost predicate Waiting(s: System) {
    s.link.up ==>
      forall id :: id in s.link.host.results && s.link.host.results[id] == [] && id !in s.refused ==>
        id in s.link.host.responses
  }

  /** A reply that has been read is its caller's answer. */
  ghost predicate ReadAnswered(s: System) {
    forall i :: 0 <= i < s.read <= |s.events| ==> LineAnswered(s.link.host, s.events[i])
  }

  ghost predicate LineAnswered(h: Host, line: Line) {
    ReplyId(line).Some? && ReplyId(line).value in h.results ==> h.results[ReplyId(line).value] == [OutcomeOf(line)]
  }

  /** Who has been answered gets nothing more, and who has not is still waiting. */
  lemma ReceivedKeeps(l: Link, line: Line, id: RequestId)
    requires Ordered(l.host) && id in l.host.results
    ensures var l' := GuestRpcRuns.Step(l, Receive(line));
            && id in l'.host.results
            && (id !in l.host.responses ==> l'.host.results[id] == l.host.results[id])
            && (l'.up && id in l.host.responses && ReplyId(line) != Some(id) ==> id in l'.host.responses)
            && (id in l.host.responses && ReplyId(line) == Some(id) ==> l'.host.results[id] == [OutcomeOf(line)])
  {
    var h1, error := Routed(l.host, line), LineError(l.host, line);
    RoutedKeys(l.host, line);
    RoutedResults(l.host, line, id);
    RoutedWaiters(l.host, line, id);
    hide Routed, LineError, Told;
    if error.Some? { FailedKeeps(h1, error.value, id); }
  }

  lemma FailedKeeps(h: Host, message: Bytes, id: RequestId)
    requires Wired(h) && id in h.results
    ensures id in Failed(h, message).results
    ensures id !in h.responses ==> Failed(h, message).results[id] == h.results[id]
  {}

  lemma RoutedWaiters(h: Host, line: Line, id: RequestId)
    requires Wired(h)
    ensures id in Routed(h, line).responses <==> id in h.responses && ReplyId(line) != Some(id)
  {
    if line.Error? {
      ErrorWaiters(h, line.request, line.target, line.message);
      hide RouteError;
    }
  }

  lemma ErrorWaiters(h: Host, request: Option<RequestId>, target: Option<Uuid>, message: Bytes)
    requires Wired(h)
    ensures RouteError(h, request, target, message).responses ==
              h.responses - if request.Some? then {request.value} else {}
  {
    var h1 := if request.Some? then Resolve(h, request.value, Err(message)) else h;
    assert h1.responses == h.responses - if request.Some? then {request.value} else {};
    hide Resolve;
  }

  lemma HostReadsAnswered(s: System, s': System)
    requires RpcInv(s) && Moves(s, HostReads, s')
    ensures Waiting(s') && ReadAnswered(s')
  {
    hide Moves, Ordered, GuestRpcRuns.Step, OutcomeOf, ReplyId, Says, Expected;
    Frames(s, HostReads, s');
    SendBooked(s, HostReads, s');
    var line := s.events[s.read];
    ReceiveKeepsKeys(s.link, Receive(line));
    NotAnsweredYet(s);
    if ReplyId(line).Some? && ReplyId(line).value in s.link.host.results {
      ReceivedKeeps(s.link, line, ReplyId(line).value);
    }
    forall i | 0 <= i < s'.read ensures LineAnswered(s'.link.host, s'.events[i]) {
      if i < s.read {
        assert LineAnswered(s.link.host, s.events[i]);
        AnsweredStays(s.link, line, s.events[i]);
      }
    }
    forall id | s'.link.up && id in s'.link.host.results && s'.link.host.results[id] == [] && id !in s'.refused
      ensures id in s'.link.host.responses
    {
      ReceivedKeeps(s.link, line, id);
    }
  }

  lemma AnsweredStays(l: Link, line: Line, earlier: Line)
    requires Ordered(l.host) && LineAnswered(l.host, earlier)
    ensures LineAnswered(GuestRpcRuns.Step(l, Receive(line)).host, earlier)
  {
    ReceiveKeepsKeys(l, Receive(line));
    hide GuestRpcRuns.Step, OutcomeOf, ReplyId;
    if ReplyId(earlier).Some? && ReplyId(earlier).value in l.host.results {
      ReceivedKeeps(l, line, ReplyId(earlier).value);
    }
  }

  /** Whom the next line answers has not been answered before. */
  lemma NotAnsweredYet(s: System)
    requires RpcInv(s) && s.link.up && s.read < |s.events|
    ensures var line := s.events[s.read];
            ReplyId(line).Some? && ReplyId(line).value in s.link.host.results ==>
              ReplyId(line).value in s.link.host.responses
  {
    hide Ordered, OutcomeOf, ReplyId, Says, Expected;
    var line := s.events[s.read];
    if ReplyId(line).Some? && ReplyId(line).value in s.link.host.results {
      var id := ReplyId(line).value;
      assert Fits(s, line);
      assert id !in s.refused;
      var told := s.link.host.results[id];
      assert |told| > 0 ==> Justified(s, id, told[0]);
      assert forall outcome :: !Justified(s, id, outcome);
    }
  }

  lemma AnsweredStep(s: System, step: GuestLink.Step, s': System)
    requires RpcInv(s) && Moves(s, step, s')
    ensures Waiting(s') && ReadAnswered(s')
  {
    if step.HostReads? {
      HostReadsAnswered(s, s');
    } else {
      OtherAnswered(s, step, s');
    }
  }

  lemma OtherAnswered(s: System, step: GuestLink.Step, s': System)
    requires RpcInv(s) && Moves(s, step, s') && !step.HostReads?
    ensures Waiting(s') && ReadAnswered(s')
  {
    hide Moves, GuestRpcRuns.Step, OutcomeOf, ReplyId, Says, Expected, RepliesFit, ResultsJustified;
    Frames(s, step, s');
    forall i | 0 <= i < s'.read ensures LineAnswered(s'.link.host, s'.events[i]) {
      assert s'.events[i] == s.events[i] && LineAnswered(s.link.host, s.events[i]);
      if ReplyId(s.events[i]).Some? && ReplyId(s.events[i]).value in s'.link.host.results {
        OldAnswer(s, step, s', ReplyId(s.events[i]).value);
        assert Fits(s, s.events[i]) by { EventFits(s, i); }
      }
    }
    StillWaiting(s, step, s');
  }

  lemma EventFits(s: System, i: nat)
    requires RepliesFit(s) && i < |s.events|
    ensures Fits(s, s.events[i])
  {}

  /** Elsewhere an answer, once given, stays; a call made now has none. */
  lemma OldAnswer(s: System, step: GuestLink.Step, s': System, id: RequestId)
    requires Booked(s) && Moves(s, step, s') && !step.HostReads? && id in s'.link.host.results
    ensures id !in s.link.host.results ==> id == |s.calls|
    ensures id in s.link.host.results && s.link.host.results[id] != [] ==>
              s'.link.host.results[id] == s.link.host.results[id]
  {
    hide Moves, GuestRpcRuns.Step, Registered, Withdrawn;
    Frames(s, step, s');
    BookedStep(s, step, s');
    if step.HostFails? {
      FailedKeeps(s.link.host, step.message, id) by { LostResults(s.link, step.message, id); }
      LostIs(s.link, step.message);
    } else if id in s.link.host.results && s.link.host.results[id] != [] {
      KeptResults(s, step, s', id);
    }
  }

  lemma LostIs(l: Link, message: Bytes)
    requires Wired(l.host)
    ensures GuestRpcRuns.Step(l, LoseConnection(message)).host == Failed(l.host, message)
  {}

  lemma KeptResults(s: System, step: GuestLink.Step, s': System, id: RequestId)
    requires Booked(s) && Moves(s, step, s') && !step.HostReads? && !step.HostFails? && id in s.link.host.results
    ensures id in s'.link.host.results && s'.link.host.results[id] == s.link.host.results[id]
  {
    hide Moves, Ordered, GuestRpcRuns.Step, Registered, Withdrawn;
    Frames(s, step, s');
    SendBooked(s, step, s');
    match step
    case Call(request) => CallKeeps(s.link, |s.calls|, request, id);
    case SendFails(r) => WithdrawnResults(s.link, r, s.calls[r]);
    case ShellAbandoned(r) => DroppedResults(s.link, DropShell(s.calls[r].session));
    case _ =>
  }

  lemma CallKeeps(l: Link, r: RequestId, request: Request, id: RequestId)
    requires Wired(l.host)
    ensures var h, h' := l.host, Registered(l, r, request).host;
            && (id in h.results && id != r ==> id in h'.results && h'.results[id] == h.results[id])
            && (id in h'.results && id != r ==> id in h.results)
            && (id in h'.responses <==> id in h.responses || (id == r && !request.Exec?))
  {}

  lemma StillWaiting(s: System, step: GuestLink.Step, s': System)
    requires Booked(s) && Waiting(s) && Moves(s, step, s') && !step.HostReads?
    ensures Waiting(s')
  {
    hide Moves, Ordered, GuestRpcRuns.Step, Registered, Withdrawn;
    Frames(s, step, s');
    SendBooked(s, step, s');
    match step
    case HostFails(message) => LostResultsDown(s.link, message);
    case Call(request) =>
      forall id | id in s'.link.host.results && s'.link.host.results[id] == [] && id !in s'.refused && s'.link.up
        ensures id in s'.link.host.responses
      {
        CallKeeps(s.link, |s.calls|, request, id);
        CallUp(s.link, |s.calls|, request);
        assert id != |s.calls| ==> id in s.link.host.responses;
        if id == |s.calls| { BookedStep(s, step, s'); }
      }
    case SendFails(r) => WithdrawnWaiters(s.link, r, s.calls[r]); WithdrawnResults(s.link, r, s.calls[r]);
    case ShellAbandoned(r) =>
      DroppedResults(s.link, DropShell(s.calls[r].session));
      DroppedWaiters(s.link, s.calls[r].session);
    case _ =>
  }

  lemma LostResultsDown(l: Link, message: Bytes)
    requires Wired(l.host)
    ensures !GuestRpcRuns.Step(l, LoseConnection(message)).up
  {}

  lemma CallUp(l: Link, r: RequestId, request: Request)
    requires Wired(l.host)
    ensures Registered(l, r, request).up == l.up
  {}

  lemma WithdrawnWaiters(l: Link, r: RequestId, request: Request)
    requires Wired(l.host)
    ensures Withdrawn(l, r, request).host.responses >= l.host.responses - {r}
  {}

  lemma DroppedWaiters(l: Link, session: Uuid)
    requires Wired(l.host)
    ensures GuestRpcRuns.Step(l, DropShell(session)).host.responses == l.host.responses
  {}

  ghost predicate RpcInv(s: System) {
    Booked(s) && RepliesFit(s) && ResultsJustified(s) && Waiting(s) && ReadAnswered(s)
  }

  lemma {:induction false} RunsKeepRpc(states: seq<System>, steps: seq<GuestLink.Step>, n: nat)
    requires IsSystemRun(states, steps) && n < |states|
    ensures RpcInv(states[n])
  {
    hide Moves, Booked, RepliesFit, ResultsJustified, Waiting, ReadAnswered;
    if n == 0 {
      NothingYet();
    } else {
      RunsKeepRpc(states, steps, n - 1);
      var s, step, s' := states[n - 1], steps[n - 1], states[n];
      BookedStep(s, step, s');
      RepliesFitStep(s, step, s');
      ResultsStep(s, step, s');
      AnsweredStep(s, step, s');
    }
  }

  lemma NothingYet()
    ensures RpcInv(Connected)
  {}

  /** In every state of every run: a caller has at most one result.  It is the guest's reply
      to that very request, read off the wire, and says what serving the request came to, in
      the kind of response the caller expects, so the "unexpected response" branches of the
      client are unreachable; or it is the message the connection ended with. */
  lemma {:induction false} RepliesReachTheirCallers(states: seq<System>, steps: seq<GuestLink.Step>, n: nat,
                                                    id: RequestId)
    requires IsSystemRun(states, steps) && n < |states|
    requires id in states[n].link.host.results
    ensures |states[n].link.host.results[id]| <= 1
    ensures var s := states[n];
            s.link.host.results[id] != [] ==>
              || (!s.link.up && s.link.fault.Some? && s.link.host.results[id][0] == Err(s.link.fault.value))
              || (&& id < |s.calls| && Taken(s, id) && id in s.served
                  && Says(s.calls[id], s.served[id], s.link.host.results[id][0])
                  && (s.link.host.results[id][0].Ok? ==> Expected(s.calls[id], s.link.host.results[id][0].value)))
  {
    RunsKeepRpc(states, steps, n);
    hide IsSystemRun;
    var s := states[n];
    if s.link.host.results[id] != [] {
      assert Justified(s, id, s.link.host.results[id][0]);
      if s.link.up || s.link.fault.None? || s.link.host.results[id][0] != Err(s.link.fault.value) {
        var i :| 0 <= i < s.read <= |s.events| && ReplyId(s.events[i]) == Some(id)
                 && OutcomeOf(s.events[i]) == s.link.host.results[id][0];
        assert Fits(s, s.events[i]);
      }
    }
  }

  /** And no reply is lost: once it has been read, its caller has it; a caller without an
      answer is still waiting, while the connection lives. */
  lemma {:induction false} EveryReplyIsHandedOver(states: seq<System>, steps: seq<GuestLink.Step>, n: nat, i: nat)
    requires IsSystemRun(states, steps) && n < |states| && i < states[n].read
    ensures states[n].read <= |states[n].events|
    ensures var h, line := states[n].link.host, states[n].events[i];
            ReplyId(line).Some? && ReplyId(line).value in h.results ==>
              h.results[ReplyId(line).value] == [OutcomeOf(line)]
    ensures var h, refused := states[n].link.host, states[n].refused;
            states[n].link.up ==>
              forall id :: id in h.results && h.results[id] == [] && id !in refused ==> id in h.responses
  {
    RunsKeepRpc(states, steps, n);
    hide IsSystemRun;
    assert LineAnswered(states[n].link.host, states[n].events[i]);
  }
}
