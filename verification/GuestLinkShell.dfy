/** Shell output across one connection: in every interleaving the host's channel for a shell
    carries what the guest said of it, in order and once each, up to its end. */
module GuestLinkShell {
  import opened Wrappers
  import opened GuestRpc
  import opened GuestRpcRuns
  import opened GuestLink
  import opened GuestLinkRpc
  import opened GuestLinkExec

  /** How a failed shell is closed. */
  function ShellTail(message: Bytes): seq<ShellEvent> {
    [ShellData(message), ShellDone(-1)]
  }

  /** What a line tells the shell `x`. */
  function ShellOne(line: Line, x: Uuid): seq<ShellEvent> {
    match line
    case ShellOutput(session, Some(data)) => if session == x then [ShellData(data)] else []
    case ShellExit(session, code) => if session == x then [ShellDone(code)] else []
    case Error(_, target, message) => if target == Some(x) then ShellTail(message) else []
    case _ => []
  }

  function ShellFeed(events: seq<Line>, x: Uuid): seq<ShellEvent> {
    if events == [] then [] else ShellFeed(events[..|events| - 1], x) + ShellOne(events[|events| - 1], x)
  }

  lemma ShellAppend(events: seq<Line>, line: Line, x: Uuid)
    ensures ShellFeed(events + [line], x) == ShellFeed(events, x) + ShellOne(line, x)
  {
    assert (events + [line])[..|events|] == events;
  }

  lemma {:induction false} ShellPrefix(events: seq<Line>, n: nat, x: Uuid)
    requires n <= |events|
    ensures ShellFeed(events[..n], x) <= ShellFeed(events, x)
  {
    if n == |events| {
      assert events[..n] == events;
    } else {
      ShellPrefix(events[..|events| - 1], n, x);
      assert events[..|events| - 1][..n] == events[..n];
    }
  }

  ghost predicate AllData(log: seq<ShellEvent>) {
    forall i :: 0 <= i < |log| ==> log[i].ShellData?
  }

  /** The request that opened the shell could not be sent, or was not answered by it. */
  ghost predicate Dropped(s: System, x: Uuid) {
    exists id: RequestId :: (id in s.refused || id in s.abandoned) && id < |s.calls| && s.calls[id] == OpenShell(x)
  }

  /** An open shell's channel holds all that was read of it, none of it an end.  A closed
      one's holds a beginning that ends with the shell, or all of it and the failure the
      connection ended with; or its opening failed. */
  ghost predicate Heard(l: Link, x: Uuid, feed: seq<ShellEvent>, dropped: bool) {
    && x in l.host.shellLog
    && var log := l.host.shellLog[x];
    if x in l.host.shellStreams then log == feed && AllData(feed)
    else
      || (log <= feed && ShellEnded(log) && AllData(log[..|log| - 1]))
      || (!l.up && l.fault.Some? && AllData(feed) && log == feed + ShellTail(l.fault.value))
      || (dropped && log <= feed && AllData(log))
  }

  ghost predicate ShellHeard(s: System, x: Uuid) {
    s.read <= |s.events| && Heard(s.link, x, ShellFeed(s.events[..s.read], x), Dropped(s, x))
  }

  ghost predicate ShellInv(s: System) {
    && Booked(s) && Named(s)
    && (forall x :: x in s.link.host.shellLog ==> ShellHeard(s, x))
    && (forall x :: x !in s.link.host.shellLog && x !in s.link.host.execLog ==> ShellFeed(s.events, x) == [])
  }

  // ---- the host's side ----

  lemma RoutedShell(h: Host, line: Line, x: Uuid)
    requires Wired(h) && x in h.shellLog
    ensures var h', add := Routed(h, line), if x in h.shellStreams then ShellOne(line, x) else [];
            && x in h'.shellLog && h'.shellLog[x] == h.shellLog[x] + add
            && (x in h'.shellStreams <==> x in h.shellStreams && !ShellEnded(ShellOne(line, x)))
            && (LineError(h, line).Some? && x in h.shellStreams ==> ShellOne(line, x) == [])
  {
    if line.Error? {
      ErrorShell(h, line, x);
      hide RouteError;
    }
  }

  lemma ErrorShell(h: Host, line: Line, x: Uuid)
    requires Wired(h) && x in h.shellLog && line.Error?
    ensures var h', add := Routed(h, line), if x in h.shellStreams then ShellOne(line, x) else [];
            && x in h'.shellLog && h'.shellLog[x] == h.shellLog[x] + add
            && (x in h'.shellStreams <==> x in h.shellStreams && !ShellEnded(ShellOne(line, x)))
  {
    var h1 := if line.request.Some? then Resolve(h, line.request.value, Err(line.message)) else h;
    assert h1.shellLog == h.shellLog && h1.shellStreams == h.shellStreams && Wired(h1);
    hide Resolve;
    if line.target.Some? {
      var h2 := FailExec(h1, line.target.value, line.message);
      assert h2.shellLog == h.shellLog && h2.shellStreams == h.shellStreams && Wired(h2);
      hide FailExec;
      assert Routed(h, line) == FailShell(h2, line.target.value, line.message);
    }
  }

  lemma FailedShell(h: Host, m: Bytes, x: Uuid)
    requires Wired(h) && x in h.shellLog
    ensures var h' := Failed(h, m);
            && x in h'.shellLog && x !in h'.shellStreams
            && h'.shellLog[x] == h.shellLog[x] + if x in h.shellStreams then ShellTail(m) else []
  {}

  lemma {:induction false} ReceiveHeard(l: Link, line: Line, x: Uuid, feed: seq<ShellEvent>, dropped: bool)
    requires l.up && Wired(l.host) && Heard(l, x, feed, dropped)
    ensures Heard(GuestRpcRuns.Step(l, Receive(line)), x, feed + ShellOne(line, x), dropped)
  {
    hide Routed, Failed, LineError, ShellOne;
    RoutedShell(l.host, line, x);
    var one, h := ShellOne(line, x), Routed(l.host, line);
    if LineError(l.host, line).Some? { FailedShell(h, LineError(l.host, line).value, x); }
    OneEnds(line, x);
    if x in l.host.shellStreams {
      HeardOn(feed, one);
    } else {
      assert l.host.shellLog[x] <= feed ==> l.host.shellLog[x] <= feed + one;
    }
  }

  lemma HeardOn(feed: seq<ShellEvent>, one: seq<ShellEvent>)
    requires AllData(feed) && ((ShellEnded(one) && AllData(one[..|one| - 1])) || AllData(one))
    ensures feed + [] == feed
    ensures ShellEnded(one) ==> ShellEnded(feed + one) && AllData((feed + one)[..|feed + one| - 1])
    ensures !ShellEnded(one) ==> AllData(feed + one)
  {
    if ShellEnded(one) { assert (feed + one)[..|feed + one| - 1] == feed + one[..|one| - 1]; }
  }

  lemma OneEnds(line: Line, x: Uuid)
    ensures var one := ShellOne(line, x);
            (ShellEnded(one) && AllData(one[..|one| - 1])) || AllData(one)
  {}

  lemma LoseHeard(l: Link, message: Bytes, x: Uuid, feed: seq<ShellEvent>, dropped: bool)
    requires l.up && Wired(l.host) && Heard(l, x, feed, dropped)
    ensures Heard(GuestRpcRuns.Step(l, LoseConnection(message)), x, feed, dropped)
  {
    FailedShell(l.host, message, x);
    hide Failed;
  }

  // ---- one step of the system ----

  /** Only what names a shell says anything of it. */
  lemma NewLine(s: System, step: GuestLink.Step, s': System, x: Uuid)
    requires Booked(s) && Named(s) && Moves(s, step, s') && |s'.events| > |s.events|
    requires x !in s.link.host.shellLog && x !in s.link.host.execLog
    requires forall e :: e in s.tasks ==> e in s.link.host.execLog
    ensures ShellOne(s'.events[|s.events|], x) == []
  {
    hide GuestRpcRuns.Step, Ordered, Registered, Withdrawn, PumpOf, WithPump, ExecTaken;
    if step.Serve? {
      var id := s.requests[s.taken];
      OtherReply(id, s.calls[id], step.outcome, x);
      hide ReplyLine;
    }
  }

  lemma OtherReply(id: RequestId, request: Request, outcome: Result<Bytes, Bytes>, x: Uuid)
    requires request != Exec(x) && SessionOf(request) != Some(x)
    ensures ShellOne(ReplyLine(id, request, outcome), x) == []
  {}

  lemma TasksAreExecs(s: System)
    requires Named(s)
    ensures forall e :: e in s.tasks ==> e in s.link.host.execLog
  {
    forall e | e in s.tasks ensures e in s.link.host.execLog {
      assert ExecTaken(s, e);
    }
  }

  lemma UnnamedStep(s: System, step: GuestLink.Step, s': System, x: Uuid)
    requires ShellInv(s) && Moves(s, step, s')
    requires x !in s.link.host.shellLog && x !in s.link.host.execLog
    ensures ShellFeed(s'.events, x) == []
  {
    hide Moves, Named, Booked;
    Frames(s, step, s');
    TasksAreExecs(s);
    if |s'.events| > |s.events| {
      NewLine(s, step, s', x);
      assert s'.events == s.events + [s'.events[|s.events|]];
      ShellAppend(s.events, s'.events[|s.events|], x);
    } else {
      assert s'.events == s.events;
    }
  }

  lemma DroppedStays(s: System, step: GuestLink.Step, s': System, x: Uuid)
    requires Moves(s, step, s') && Dropped(s, x)
    ensures Dropped(s', x)
  {
    Frames(s, step, s');
    AbandonedGrows(s, step, s');
    hide Moves;
    var id: RequestId :| (id in s.refused || id in s.abandoned) && id < |s.calls| && s.calls[id] == OpenShell(x);
    assert s'.calls[id] == OpenShell(x);
  }

  lemma AbandonedGrows(s: System, step: GuestLink.Step, s': System)
    requires Moves(s, step, s')
    ensures s.abandoned <= s'.abandoned && (step.ShellAbandoned? ==> step.id in s'.abandoned)
    ensures step.SendFails? ==> step.id in s'.refused
  {
    hide GuestRpcRuns.Step, Registered, Withdrawn, ReplyLine, PumpOf, WithPump;
  }

  lemma ReadsHeard(s: System, s': System, x: Uuid)
    requires ShellInv(s) && Moves(s, HostReads, s') && x in s.link.host.shellLog
    ensures ShellHeard(s', x)
  {
    hide Named, Heard, ShellFeed, ShellOne, GuestRpcRuns.Step, Ordered;
    Frames(s, HostReads, s');
    SendBooked(s, HostReads, s');
    AbandonedStays(s, HostReads, s');
    hide Moves;
    assert ShellHeard(s, x);
    var line := s.events[s.read];
    assert s'.events[..s'.read] == s.events[..s.read] + [line];
    ShellAppend(s.events[..s.read], line, x);
    ReceiveHeard(s.link, line, x, ShellFeed(s.events[..s.read], x), Dropped(s, x));
    assert Dropped(s', x) <==> Dropped(s, x);
  }

  lemma AbandonedStays(s: System, step: GuestLink.Step, s': System)
    requires Moves(s, step, s') && !step.ShellAbandoned?
    ensures s'.abandoned == s.abandoned
  {
    hide GuestRpcRuns.Step, Registered, Withdrawn, ReplyLine, PumpOf, WithPump;
  }

  lemma FailsHeard(s: System, message: Bytes, s': System, x: Uuid)
    requires ShellInv(s) && Moves(s, HostFails(message), s') && x in s.link.host.shellLog
    ensures ShellHeard(s', x)
  {
    hide Named, Heard, ShellFeed, GuestRpcRuns.Step, Ordered;
    Frames(s, HostFails(message), s');
    SendBooked(s, HostFails(message), s');
    AbandonedStays(s, HostFails(message), s');
    hide Moves;
    assert ShellHeard(s, x);
    assert s'.events[..s'.read] == s.events[..s.read];
    LoseHeard(s.link, message, x, ShellFeed(s.events[..s.read], x), Dropped(s, x));
    assert Dropped(s', x) <==> Dropped(s, x);
  }

  /** A shell's channel, stream and connection, apart from being dropped. */
  lemma ShellStays(s: System, step: GuestLink.Step, s': System, x: Uuid)
    requires Booked(s) && Moves(s, step, s') && x in s.link.host.shellLog && !step.HostReads? && !step.HostFails?
    ensures x in s'.link.host.shellLog && s'.link.host.shellLog[x] == s.link.host.shellLog[x]
    ensures s'.link.up == s.link.up && s'.link.fault == s.link.fault
    ensures x in s'.link.host.shellStreams ==> x in s.link.host.shellStreams
    ensures x in s.link.host.shellStreams && x !in s'.link.host.shellStreams ==> Dropped(s', x)
  {
    hide Moves, GuestRpcRuns.Step, Registered, Withdrawn, Ordered;
    Frames(s, step, s');
    SendBooked(s, step, s');
    AbandonedGrows(s, step, s');
    match step
    case Call(request) => CallShell(s.link, |s.calls|, request, x);
    case SendFails(id) =>
      WithdrawShell(s.link, id, s.calls[id], x);
      if s.calls[id] == OpenShell(x) { assert s'.calls[id] == OpenShell(x); }
    case ShellAbandoned(id) =>
      AbandonShell(s.link, s.calls[id].session, x);
      if s.calls[id] == OpenShell(x) { assert s'.calls[id] == OpenShell(x); }
    case _ =>
  }

  lemma CallShell(l: Link, id: RequestId, request: Request, x: Uuid)
    requires Wired(l.host) && x in l.host.shellLog && (request.OpenShell? ==> request.session != x)
    ensures var l' := Registered(l, id, request);
            && x in l'.host.shellLog && l'.host.shellLog[x] == l.host.shellLog[x]
            && l'.up == l.up && l'.fault == l.fault
            && (x in l'.host.shellStreams <==> x in l.host.shellStreams)
  {}

  lemma WithdrawShell(l: Link, id: RequestId, request: Request, x: Uuid)
    requires Wired(l.host) && x in l.host.shellLog
    ensures var l' := Withdrawn(l, id, request);
            && x in l'.host.shellLog && l'.host.shellLog[x] == l.host.shellLog[x]
            && l'.up == l.up && l'.fault == l.fault
            && (x in l'.host.shellStreams <==> x in l.host.shellStreams && request != OpenShell(x))
  {}

  lemma AbandonShell(l: Link, session: Uuid, x: Uuid)
    requires Wired(l.host) && x in l.host.shellLog
    ensures var l' := GuestRpcRuns.Step(l, DropShell(session));
            && x in l'.host.shellLog && l'.host.shellLog[x] == l.host.shellLog[x]
            && l'.up == l.up && l'.fault == l.fault
            && (x in l'.host.shellStreams <==> x in l.host.shellStreams && session != x)
  {}

  lemma OtherHeard(s: System, step: GuestLink.Step, s': System, x: Uuid)
    requires ShellInv(s) && Moves(s, step, s') && x in s.link.host.shellLog && !step.HostReads? && !step.HostFails?
    ensures ShellHeard(s', x)
  {
    hide Moves, Named, ShellFeed, Ordered;
    Frames(s, step, s');
    assert ShellHeard(s, x);
    assert s'.events[..s'.read] == s.events[..s.read];
    ShellStays(s, step, s', x);
    if Dropped(s, x) { DroppedStays(s, step, s', x); }
    hide Dropped, Booked;
  }

  lemma OpensHeard(s: System, step: GuestLink.Step, s': System, x: Uuid)
    requires ShellInv(s) && Moves(s, step, s') && x !in s.link.host.shellLog && x in s'.link.host.shellLog
    ensures ShellHeard(s', x)
  {
    hide Named, ShellFeed, Ordered;
    LogKeys(s, step, s');
    Frames(s, step, s');
    assert step == Call(OpenShell(x)) && ShellFeed(s.events, x) == [];
    ShellPrefix(s.events, s.read, x);
    assert s'.events[..s'.read] == s.events[..s.read];
    OpensEmpty(s.link, |s.calls|, x);
    hide Moves, Booked, GuestRpcRuns.Step, Registered;
  }

  lemma OpensEmpty(l: Link, id: RequestId, x: Uuid)
    requires Wired(l.host)
    ensures var h := Registered(l, id, OpenShell(x)).host;
            x in h.shellLog && h.shellLog[x] == [] && x in h.shellStreams
  {}

  lemma {:induction false} ShellInvStep(s: System, step: GuestLink.Step, s': System)
    requires ShellInv(s) && Moves(s, step, s')
    ensures ShellInv(s')
  {
    BookedStep(s, step, s');
    NamedStep(s, step, s');
    LogKeys(s, step, s');
    hide Moves, Booked, Named, ShellHeard, ShellFeed;
    forall x | x in s'.link.host.shellLog ensures ShellHeard(s', x) {
      if x !in s.link.host.shellLog {
        OpensHeard(s, step, s', x);
      } else if step.HostReads? {
        ReadsHeard(s, s', x);
      } else if step.HostFails? {
        FailsHeard(s, step.message, s', x);
      } else {
        OtherHeard(s, step, s', x);
      }
    }
    forall x | x !in s'.link.host.shellLog && x !in s'.link.host.execLog ensures ShellFeed(s'.events, x) == [] {
      UnnamedStep(s, step, s', x);
    }
  }

  lemma NoShells()
    ensures ShellInv(Connected)
  {}

  /** In every state of every run, a shell's channel carries exactly what was read of it
      while it is open; once closed, a beginning of that ending with its exit or its own
      failure, or all of it and the failure of the connection; unless opening it failed. */
  lemma {:induction false} ShellsAreHeard(states: seq<System>, steps: seq<GuestLink.Step>, n: nat)
    requires IsSystemRun(states, steps) && n < |states|
    ensures ShellInv(states[n])
  {
    hide ShellInv, Moves;
    if n == 0 {
      NoShells();
    } else {
      ShellsAreHeard(states, steps, n - 1);
      ShellInvStep(states[n - 1], steps[n - 1], states[n]);
    }
  }
}
