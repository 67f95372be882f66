/** One command from the child's pipes to the API client: guest connection, relay
    task, forwarder task, websocket, client reader and collector, interleaved in
    any order with any number of other commands and requests.

    Channels and the websocket are FIFO and lossless; each direction of failure is
    sticky.  The collector is a function of the events it has received, so its
    progress is a prefix of its channel. */
module ExecPipeline {
  import opened Wrappers
  import opened GuestRpc
  import opened GuestRpcRuns
  import opened GuestLink
  import opened GuestLinkRpc
  import opened GuestLinkExec
  import opened ApiClient

  /** A command being served: the relay that watches for its end, and the
      forwarder that writes it to the websocket. */
  datatype Job = Job(
    exec: Uuid,
    relayRead: nat, relayed: seq<ExecEvent>, relayDone: bool,
    forwarded: nat, forwarderDone: bool)

  datatype Pipeline = Pipeline(
    link: System, jobs: map<ApiId, Job>, rejected: set<ApiId>, unsent: set<ApiId>,
    ws: seq<BoxEvent>, wsUp: bool,
    client: Client, clientUp: bool, wsRead: nat)

  const Fresh := Pipeline(Connected, map[], {}, {}, [], true, Client({}, map[], {}, map[], {}, map[], map[]), true, 0)

  datatype Step =
    | LinkMoves(step: GuestLink.Step)
    | OpenRequest(request: ApiId)
    | OpenExec(request: ApiId)
    | OpenFails(request: ApiId)
    | Accept(request: ApiId, exec: Uuid)
    | Reject(request: ApiId, message: Bytes)
    | Relay(request: ApiId)
    | Forward(request: ApiId)
    | Noise(event: BoxEvent)
    | WsFails
    | ClientReads
    | ClientFails(message: Bytes)

  predicate IsNoise(event: BoxEvent) {
    event.Response? || event.ShellOut? || event.ShellEnd? || (event.ApiError? && event.cause.None?)
  }

  predicate Enabled(p: Pipeline, step: Step) {
    match step
    case LinkMoves(_) => true
    case OpenRequest(r) => r !in p.client.answers && r !in p.client.execChan
    case OpenExec(r) => r !in p.client.answers && r !in p.client.execChan
    case OpenFails(r) => r in p.client.execChan && r !in p.jobs && r !in p.rejected
    case Accept(r, x) => r in p.client.execChan && r !in p.jobs && r !in p.rejected && x in p.link.link.host.execLog
    case Reject(r, _) => r in p.client.execChan && r !in p.jobs && r !in p.rejected
    case Relay(r) =>
      && r in p.jobs && !p.jobs[r].relayDone && p.jobs[r].exec in p.link.link.host.execLog
      && p.jobs[r].relayRead < |p.link.link.host.execLog[p.jobs[r].exec]|
    case Forward(r) => r in p.jobs && !p.jobs[r].forwarderDone && p.jobs[r].forwarded < |p.jobs[r].relayed|
    case Noise(event) => p.wsUp && IsNoise(event)
    case WsFails => true
    case ClientReads => p.clientUp && p.wsRead < |p.ws|
    case ClientFails(_) => p.clientUp
  }

  /** The relay copies events until the terminal one, or until its reader is gone. */
  function Relayed(j: Job, event: ExecEvent): Job {
    if j.forwarderDone then j.(relayRead := j.relayRead + 1, relayDone := true)
    else j.(relayRead := j.relayRead + 1, relayed := j.relayed + [event], relayDone := event.Exit?)
  }

  function ToBox(r: ApiId, event: ExecEvent): BoxEvent {
    match event
    case Output(stream, data) => ExecOut(r, stream, data)
    case Exit(status) => ExecDone(r, status)
  }

  /** The forwarder stops after the terminal event or the first failed write. */
  function Forwarded(p: Pipeline, r: ApiId): Pipeline
    requires Enabled(p, Forward(r))
  {
    var j := p.jobs[r];
    var event := j.relayed[j.forwarded];
    if p.wsUp
    then p.(ws := p.ws + [ToBox(r, event)],
            jobs := p.jobs[r := j.(forwarded := j.forwarded + 1, forwarderDone := event.Exit?)])
    else p.(jobs := p.jobs[r := j.(forwarderDone := true)])
  }

  function After(p: Pipeline, step: Step): Pipeline
    requires Enabled(p, step) && Plugged(p.client) && !step.LinkMoves?
  {
    match step
    case OpenRequest(r) =>
      p.(client := p.client.(pending := p.client.pending + {r}, answers := p.client.answers[r := []]))
    case OpenExec(r) => p.(client := p.client.(execs := p.client.execs + {r}, execChan := p.client.execChan[r := []]))
    case OpenFails(r) =>
      p.(client := p.client.(execs := p.client.execs - {r}), rejected := p.rejected + {r}, unsent := p.unsent + {r})
    case Accept(r, x) => p.(jobs := p.jobs[r := Job(x, 0, [], false, 0, false)])
    case Reject(r, message) =>
      p.(rejected := p.rejected + {r}, ws := if p.wsUp then p.ws + [ApiError(Some(r), message)] else p.ws)
    case Relay(r) =>
      var j := p.jobs[r];
      p.(jobs := p.jobs[r := Relayed(j, p.link.link.host.execLog[j.exec][j.relayRead])])
    case Forward(r) => Forwarded(p, r)
    case Noise(event) => p.(ws := p.ws + [event])
    case WsFails => p.(wsUp := false)
    case ClientReads => p.(client := Dispatched(p.client, p.ws[p.wsRead]), wsRead := p.wsRead + 1)
    case ClientFails(message) => p.(client := GivenUp(p.client, message), clientUp := false)
  }

  ghost predicate PipeMoves(p: Pipeline, step: Step, p': Pipeline) {
    if step.LinkMoves? then Moves(p.link, step.step, p'.link) && p' == p.(link := p'.link)
    else Enabled(p, step) && Plugged(p.client) && p' == After(p, step)
  }

  ghost predicate IsPipelineRun(states: seq<Pipeline>, steps: seq<Step>) {
    && |states| == |steps| + 1 && states[0] == Fresh
    && forall i :: 0 <= i < |steps| ==> PipeMoves(states[i], steps[i], states[i + 1])
  }

  // ---- the command as events of one request ----

  function BoxOne(event: BoxEvent, r: ApiId): seq<ExecEvent> {
    match event
    case ExecOut(id, stream, data) => if id == r then [Output(stream, data)] else []
    case ExecDone(id, status) => if id == r then [Exit(status)] else []
    case _ => []
  }

  function BoxFeed(events: seq<BoxEvent>, r: ApiId): seq<ExecEvent> {
    if events == [] then [] else BoxFeed(events[..|events| - 1], r) + BoxOne(events[|events| - 1], r)
  }

  lemma BoxAppend(events: seq<BoxEvent>, event: BoxEvent, r: ApiId)
    ensures BoxFeed(events + [event], r) == BoxFeed(events, r) + BoxOne(event, r)
  {
    assert (events + [event])[..|events|] == events;
  }

  lemma {:induction false} BoxPrefix(events: seq<BoxEvent>, n: nat, r: ApiId)
    requires n <= |events|
    ensures BoxFeed(events[..n], r) <= BoxFeed(events, r)
  {
    if n == |events| {
      assert events[..n] == events;
    } else {
      BoxPrefix(events[..|events| - 1], n, r);
      assert events[..|events| - 1][..n] == events[..n];
    }
  }

  // ---- invariants, stage by stage ----

  /** The relay's channel is a prefix of the host's, the websocket's share of it
      what the forwarder has consumed, less only what a failed write lost. */
  ghost predicate JobFed(p: Pipeline, r: ApiId) {
    && r in p.jobs && r in p.client.execChan && r !in p.rejected
    && var j := p.jobs[r];
    && j.exec in p.link.link.host.execLog
    && j.relayed <= p.link.link.host.execLog[j.exec]
    && (!j.forwarderDone && !j.relayDone ==> j.relayRead == |j.relayed|)
    && j.forwarded <= |j.relayed|
    && BoxFeed(p.ws, r) <= j.relayed
    && (!j.forwarderDone ==> BoxFeed(p.ws, r) == j.relayed[..j.forwarded])
  }

  /** A client channel holds its request's events in the order read, all of them
      while the stream is open. */
  ghost predicate ChanFed(p: Pipeline, r: ApiId) {
    && r in p.client.execChan && p.wsRead <= |p.ws|
    && BoxFeed(p.client.execChan[r], r) <= BoxFeed(p.ws[..p.wsRead], r)
    && (r in p.client.execs ==> BoxFeed(p.client.execChan[r], r) == BoxFeed(p.ws[..p.wsRead], r))
  }

  ghost predicate PipeInv(p: Pipeline) {
    && ExecInv(p.link) && Plugged(p.client) && p.wsRead <= |p.ws|
    && (forall r :: r in p.jobs ==> JobFed(p, r))
    && (forall r :: r !in p.jobs ==> BoxFeed(p.ws, r) == [])
    && (forall r :: r in p.client.execChan ==> ChanFed(p, r))
  }

  /** The host's channel of a command only grows. */
  lemma LogGrows(s: System, step: GuestLink.Step, s': System, x: Uuid)
    requires Booked(s) && Moves(s, step, s') && x in s.link.host.execLog
    ensures x in s'.link.host.execLog && s.link.host.execLog[x] <= s'.link.host.execLog[x]
  {
    Frames(s, step, s');
    if step.HostReads? {
      assert s.link.up;
      ReceivedExec(s.link, s.events[s.read], x);
    } else if step.HostFails? {
      FailedExec(s.link.host, step.message, x);
    } else {
      LogStays(s, step, s', x);
    }
  }

  lemma LinkJob(p: Pipeline, step: GuestLink.Step, p': Pipeline, r: ApiId)
    requires Booked(p.link) && JobFed(p, r) && Moves(p.link, step, p'.link) && p' == p.(link := p'.link)
    ensures JobFed(p', r)
  {
    LogGrows(p.link, step, p'.link, p.jobs[r].exec);
    hide BoxFeed, Moves, Booked;
  }

  lemma LinkMovesFed(p: Pipeline, step: Step, p': Pipeline)
    requires PipeInv(p) && PipeMoves(p, step, p') && step.LinkMoves?
    ensures PipeInv(p')
  {
    hide BoxFeed, Moves, Booked, Named, AllFed, AllHostFed, JobFed;
    ExecInvStep(p.link, step.step, p'.link);
    forall r | r in p'.jobs ensures JobFed(p', r) {
      LinkJob(p, step.step, p', r);
    }
    forall r | r in p'.client.execChan ensures ChanFed(p', r) {
      assert ChanFed(p, r);
    }
  }

  /** How a step moves the websocket. */
  lemma WsFrame(p: Pipeline, step: Step, p': Pipeline)
    requires PipeMoves(p, step, p') && !step.LinkMoves?
    ensures p'.link == p.link
    ensures p'.ws == p.ws || exists e :: p'.ws == p.ws + [e]
    ensures step.ClientReads? ==>
              p.wsRead < |p.ws| && p'.ws == p.ws && p'.wsRead == p.wsRead + 1
                && p'.client == Dispatched(p.client, p.ws[p.wsRead])
    ensures step.ClientFails? ==> p'.client == GivenUp(p.client, step.message)
    ensures !step.ClientReads? ==> p'.wsRead == p.wsRead
    ensures !step.ClientReads? && !step.ClientFails? && !step.OpenExec? && !step.OpenFails? && !step.OpenRequest? ==>
              p'.client == p.client
    ensures !step.Accept? && !step.Relay? && !step.Forward? ==> p'.jobs == p.jobs
    ensures !step.Forward? ==> forall r :: BoxFeed(p'.ws, r) == BoxFeed(p.ws, r)
    ensures step.Forward? ==> forall r :: r != step.request ==> BoxFeed(p'.ws, r) == BoxFeed(p.ws, r)
  {
    hide Dispatched, GivenUp, Relayed, BoxFeed;
    WsAppends(p, step, p');
    if p'.ws != p.ws {
      var e :| p'.ws == p.ws + [e] && Elsewhere(step, e);
      forall r | !step.Forward? || r != step.request ensures BoxFeed(p'.ws, r) == BoxFeed(p.ws, r) {
        BoxAppend(p.ws, e, r);
        assert BoxFeed(p.ws, r) + [] == BoxFeed(p.ws, r);
      }
    }
  }

  /** Only a forwarder writes events of a command, and only of its own. */
  ghost predicate Elsewhere(step: Step, e: BoxEvent) {
    forall r :: !step.Forward? || r != step.request ==> BoxOne(e, r) == []
  }

  lemma WsAppends(p: Pipeline, step: Step, p': Pipeline)
    requires PipeMoves(p, step, p') && !step.LinkMoves?
    ensures p'.ws == p.ws || exists e :: p'.ws == p.ws + [e] && Elsewhere(step, e)
  {
    hide Dispatched, GivenUp, Relayed;
    if p'.ws != p.ws { assert p'.ws == p.ws + [p'.ws[|p.ws|]]; }
  }

  lemma ForwardFed(p: Pipeline, r: ApiId, p': Pipeline)
    requires JobFed(p, r) && PipeMoves(p, Forward(r), p')
    ensures JobFed(p', r)
  {
    hide BoxFeed, PipeMoves, ToBox, BoxOne;
    ForwardMoves(p, r, p');
    var j := p.jobs[r];
    if p.wsUp {
      var event := j.relayed[j.forwarded];
      BoxAppend(p.ws, ToBox(r, event), r);
      ToBoxOne(r, event);
      OneFurther(j.relayed, j.forwarded);
    }
  }

  lemma ForwardMoves(p: Pipeline, r: ApiId, p': Pipeline)
    requires PipeMoves(p, Forward(r), p')
    ensures Enabled(p, Forward(r)) && p' == Forwarded(p, r)
  {}

  lemma ToBoxOne(r: ApiId, event: ExecEvent)
    ensures BoxOne(ToBox(r, event), r) == [event]
  {}

  lemma OneFurther(log: seq<ExecEvent>, k: nat)
    requires k < |log|
    ensures log[..k] + [log[k]] == log[..k + 1] <= log
  {}

  lemma {:induction false} RelayFed(p: Pipeline, r: ApiId, p': Pipeline)
    requires JobFed(p, r) && PipeMoves(p, Relay(r), p')
    ensures JobFed(p', r)
  {
    hide BoxFeed;
    var j, j' := p.jobs[r], p'.jobs[r];
    assert BoxFeed(p.ws, r) <= j'.relayed;
    assert !j'.forwarderDone ==> j'.relayed[..j.forwarded] == j.relayed[..j.forwarded];
  }

  lemma JobStep(p: Pipeline, step: Step, p': Pipeline, r: ApiId)
    requires PipeInv(p) && PipeMoves(p, step, p') && !step.LinkMoves? && r in p'.jobs
    ensures JobFed(p', r)
  {
    hide PipeMoves, ExecInv, BoxFeed, Plugged, Dispatched, GivenUp;
    WsFrame(p, step, p');
    if r !in p.jobs {
      NewJob(p, step, p', r);
      assert BoxFeed(p'.ws, r) == [];
    } else {
      assert JobFed(p, r);
      if step == Forward(r) {
        ForwardFed(p, r, p');
      } else if step == Relay(r) {
        RelayFed(p, r, p');
      } else {
        SameJob(p, step, p', r);
      }
    }
  }

  lemma NewJob(p: Pipeline, step: Step, p': Pipeline, r: ApiId)
    requires PipeMoves(p, step, p') && !step.LinkMoves? && r in p'.jobs && r !in p.jobs
    ensures step.Accept? && p'.client == p.client && r in p.client.execChan && r !in p'.rejected
    ensures p'.jobs[r].exec in p'.link.link.host.execLog && p'.jobs[r] == Job(p'.jobs[r].exec, 0, [], false, 0, false)
  {
    hide Dispatched, GivenUp, Relayed, Plugged;
  }

  lemma SameJob(p: Pipeline, step: Step, p': Pipeline, r: ApiId)
    requires PipeMoves(p, step, p') && !step.LinkMoves? && r in p.jobs && r in p.client.execChan && r !in p.rejected
    requires step != Forward(r) && step != Relay(r)
    ensures r in p'.jobs && p'.jobs[r] == p.jobs[r] && r in p'.client.execChan && r !in p'.rejected
  {
    if step.ClientReads? { DispatchKeys(p.client, p.ws[p.wsRead]); }
    if step.ClientFails? { GiveUpCloses(p.client, step.message, r); }
    hide Relayed, Dispatched, GivenUp;
  }

  // ---- the client's side ----

  lemma DispatchChan(c: Client, event: BoxEvent, r: ApiId)
    requires Plugged(c) && r in c.execChan
    ensures var c' := Dispatched(c, event);
            && r in c'.execChan
            && (r in c'.execs ==> r in c.execs)
            && BoxFeed(c'.execChan[r], r) <= BoxFeed(c.execChan[r], r) + BoxOne(event, r)
            && BoxFeed(c.execChan[r], r) <= BoxFeed(c'.execChan[r], r)
            && (r in c.execs ==> BoxFeed(c'.execChan[r], r) == BoxFeed(c.execChan[r], r) + BoxOne(event, r))
            && (r !in c.execs ==> c'.execChan[r] == c.execChan[r])
  {
    hide Dispatched, BoxFeed;
    DispatchRaw(c, event, r);
    BoxAppend(c.execChan[r], event, r);
    assert BoxFeed(c.execChan[r], r) + [] == BoxFeed(c.execChan[r], r);
  }

  /** A dispatch appends the event to an open channel it belongs to, or nothing. */
  lemma DispatchRaw(c: Client, event: BoxEvent, r: ApiId)
    requires Plugged(c) && r in c.execChan
    ensures var c' := Dispatched(c, event);
            && r in c'.execChan
            && (r in c'.execs ==> r in c.execs)
            && (c'.execChan[r] == c.execChan[r] || (r in c.execs && c'.execChan[r] == c.execChan[r] + [event]))
            && (r in c.execs && BoxOne(event, r) != [] ==> c'.execChan[r] == c.execChan[r] + [event])
  {}

  lemma GiveUpChan(c: Client, message: Bytes, r: ApiId)
    requires Plugged(c) && r in c.execChan
    ensures var c' := GivenUp(c, message);
            r in c'.execChan && r !in c'.execs && BoxFeed(c'.execChan[r], r) == BoxFeed(c.execChan[r], r)
  {
    hide BoxFeed;
    var was, now := c.execChan[r], GivenUp(c, message).execChan[r];
    if r in c.execs {
      assert now == was + [ApiError(None, message)];
      BoxAppend(was, ApiError(None, message), r);
      assert BoxFeed(was, r) + [] == BoxFeed(was, r);
    } else {
      assert now == was;
    }
  }

  lemma ReadFed(p: Pipeline, p': Pipeline, r: ApiId)
    requires PipeInv(p) && PipeMoves(p, ClientReads, p') && r in p.client.execChan
    ensures ChanFed(p', r)
  {
    hide BoxFeed, Dispatched, After, ExecInv, JobFed;
    WsFrame(p, ClientReads, p');
    var event := p.ws[p.wsRead];
    assert ChanFed(p, r);
    assert p.ws[..p.wsRead + 1] == p.ws[..p.wsRead] + [event];
    BoxAppend(p.ws[..p.wsRead], event, r);
    DispatchChan(p.client, event, r);
  }

  /** Only opening a stream adds a channel, and only the reader writes to one. */
  lemma ChanFrame(p: Pipeline, step: Step, p': Pipeline, r: ApiId)
    requires PipeMoves(p, step, p') && !step.LinkMoves? && r in p'.client.execChan
    ensures r !in p.client.execChan ==> step == OpenExec(r) && p'.client.execChan[r] == []
    ensures r in p.client.execChan && !step.ClientReads? && !step.ClientFails? ==>
              p'.client.execChan[r] == p.client.execChan[r] && (r in p'.client.execs ==> r in p.client.execs)
  {
    if step.ClientReads? {
      DispatchKeys(p.client, p.ws[p.wsRead]);
    }
    hide Dispatched, Relayed, Forwarded;
  }

  lemma DispatchKeys(c: Client, event: BoxEvent)
    requires Plugged(c)
    ensures Dispatched(c, event).execChan.Keys == c.execChan.Keys
  {}

  lemma ChanStep(p: Pipeline, step: Step, p': Pipeline, r: ApiId)
    requires PipeInv(p) && PipeMoves(p, step, p') && !step.LinkMoves? && r in p'.client.execChan
    ensures ChanFed(p', r)
  {
    hide PipeMoves, ExecInv, Dispatched, GivenUp, BoxFeed;
    WsFrame(p, step, p');
    ChanFrame(p, step, p', r);
    if step.ClientReads? {
      ReadFed(p, p', r);
    } else {
      assert p'.ws[..p'.wsRead] == p.ws[..p.wsRead];
      if r !in p.client.execChan {
        assert r in p.jobs ==> JobFed(p, r);
        BoxPrefix(p.ws, p.wsRead, r);
        NoFeed(r);
      } else {
        assert ChanFed(p, r);
        if step.ClientFails? { GiveUpChan(p.client, step.message, r); }
      }
    }
  }

  lemma NoFeed(r: ApiId)
    ensures BoxFeed([], r) == []
  {}

  lemma {:induction false} PipeInvStep(p: Pipeline, step: Step, p': Pipeline)
    requires PipeInv(p) && PipeMoves(p, step, p')
    ensures PipeInv(p')
  {
    hide PipeMoves, PipeInv;
    if step.LinkMoves? {
      LinkMovesFed(p, step, p');
    } else {
      OtherMovesFed(p, step, p');
    }
  }

  lemma OtherMovesFed(p: Pipeline, step: Step, p': Pipeline)
    requires PipeInv(p) && PipeMoves(p, step, p') && !step.LinkMoves?
    ensures PipeInv(p')
  {
    hide PipeMoves, ExecInv, JobFed, ChanFed, BoxFeed, Dispatched, Plugged;
    WsFrame(p, step, p');
    forall r | r in p'.jobs ensures JobFed(p', r) { JobStep(p, step, p', r); }
    forall r | r !in p'.jobs ensures BoxFeed(p'.ws, r) == [] { NoJob(p, step, p', r); }
    forall r | r in p'.client.execChan ensures ChanFed(p', r) { ChanStep(p, step, p', r); }
    StaysPlugged(p, step, p');
  }

  lemma NoJob(p: Pipeline, step: Step, p': Pipeline, r: ApiId)
    requires PipeMoves(p, step, p') && !step.LinkMoves? && r !in p'.jobs
    ensures r !in p.jobs && step != Forward(r)
  {}

  lemma StaysPlugged(p: Pipeline, step: Step, p': Pipeline)
    requires PipeMoves(p, step, p') && !step.LinkMoves?
    ensures Plugged(p'.client)
  {
    match step
    case OpenRequest(r) => assert p'.client.answers.Keys == p.client.answers.Keys + {r};
    case OpenExec(r) => assert p'.client.execChan.Keys == p.client.execChan.Keys + {r};
    case _ =>
  }

  lemma FreshInv()
    ensures PipeInv(Fresh)
  {}

  lemma {:induction false} RunsKeepPipe(states: seq<Pipeline>, steps: seq<Step>, n: nat)
    requires IsPipelineRun(states, steps) && n < |states|
    ensures PipeInv(states[n])
  {
    hide PipeInv, PipeMoves;
    if n == 0 {
      FreshInv();
    } else {
      RunsKeepPipe(states, steps, n - 1);
      PipeInvStep(states[n - 1], steps[n - 1], states[n]);
    }
  }

  // ---- the end-to-end theorem ----

  /** Both streams' bytes as they came. */
  function Merged(log: seq<ExecEvent>): Bytes {
    if log == [] then []
    else Merged(log[..|log| - 1]) + if log[|log| - 1].Output? then log[|log| - 1].data else []
  }

  lemma MergedNext(log: seq<ExecEvent>, e: ExecEvent)
    ensures Merged(log + [e]) == Merged(log) + if e.Output? then e.data else []
  {
    assert (log + [e])[..|log|] == log;
  }

  /** What the collector holds is the text of the events it consumed. */
  ghost predicate Holds(c: Collected, log: seq<ExecEvent>) {
    && c.stdout == Text(log, Stdout) && c.stderr == Text(log, Stderr) && c.output == Merged(log)
    && (c.end.Some? && c.end.value.Ok? ==> ExecEnded(log) && log[|log| - 1] == Exit(c.end.value.value))
  }

  lemma {:induction false} CollectedText(r: ApiId, events: seq<BoxEvent>) returns (n: nat)
    ensures n <= |events| && Holds(CollectedFrom(r, events), BoxFeed(events[..n], r))
    ensures CollectedFrom(r, events).end.None? ==> n == |events|
  {
    if events == [] {
      n := 0;
    } else {
      var init, last := events[..|events| - 1], events[|events| - 1];
      n := CollectedText(r, init);
      hide Holds, BoxFeed;
      assert init[..n] == events[..n];
      if CollectedFrom(r, init).end.None? {
        n := |events|;
        assert events[..n] == init + [last] && init[..|init|] == init;
        BoxAppend(init, last, r);
        AbsorbText(CollectedFrom(r, init), r, last, BoxFeed(init, r));
      }
    }
  }

  lemma AbsorbText(c: Collected, r: ApiId, event: BoxEvent, log: seq<ExecEvent>)
    requires Holds(c, log) && c.end.None?
    ensures Holds(Absorbed(c, r, event), log + BoxOne(event, r))
  {
    hide Text, Merged;
    assert log + [] == log;
    var one := BoxOne(event, r);
    if one != [] {
      MergedNext(log, one[0]);
      assert one == [one[0]];
      TextConcat(log, one, Stdout);
      TextConcat(log, one, Stderr);
      TextOne(one[0], Stdout);
      TextOne(one[0], Stderr);
    }
  }

  lemma FaithfulPrefix(s: System, x: Uuid, log: seq<ExecEvent>, log': seq<ExecEvent>)
    requires Faithful(s, x, log) && log' <= log
    ensures Faithful(s, x, log')
  {
    hide Text;
    var n :| 0 <= n <= |log| && FaithfulAs(s, x, log[..n], log[n..]);
    if |log'| < n {
      TextPrefix(log', log[..n], Stdout);
      TextPrefix(log', log[..n], Stderr);
      assert log'[..|log'|] == log' && log'[|log'|..] == [];
      assert FaithfulAs(s, x, log'[..|log'|], log'[|log'|..]);
    } else {
      assert log'[..n] == log[..n] && log'[n..] <= log[n..];
      if FailureTail(s, x, log[n..]) {
        var m :| Caused(s, x, m) && log[n..] <= Tail(m);
        assert log'[n..] <= Tail(m);
      }
      assert FaithfulAs(s, x, log'[..n], log'[n..]);
    }
  }

  /** End to end: in every state of every run, after any number of events, what
      the collector of a command has gathered is the text of a faithful copy of
      what the guest read from the child. */
  lemma {:induction false} CollectorIsFaithful(states: seq<Pipeline>, steps: seq<Step>, n: nat, r: ApiId, k: nat)
    returns (log: seq<ExecEvent>)
    requires IsPipelineRun(states, steps) && n < |states| && r in states[n].jobs
    requires r in states[n].client.execChan && k <= |states[n].client.execChan[r]|
    ensures Faithful(states[n].link, states[n].jobs[r].exec, log)
    ensures Holds(CollectedFrom(r, states[n].client.execChan[r][..k]), log)
  {
    RunsKeepPipe(states, steps, n);
    hide IsPipelineRun;
    log := ConsumedIsFaithful(states[n], r, k);
  }

  lemma ConsumedIsFaithful(p: Pipeline, r: ApiId, k: nat) returns (log: seq<ExecEvent>)
    requires PipeInv(p) && r in p.jobs && r in p.client.execChan && k <= |p.client.execChan[r]|
    ensures Faithful(p.link, p.jobs[r].exec, log)
    ensures Holds(CollectedFrom(r, p.client.execChan[r][..k]), log)
  {
    hide BoxFeed, ExecInv, Faithful, Holds, CollectedFrom;
    var chan, x := p.client.execChan[r], p.jobs[r].exec;
    assert JobFed(p, r) && ChanFed(p, r);
    var j := CollectedText(r, chan[..k]);
    log := BoxFeed(chan[..k][..j], r);
    assert chan[..k][..j] == chan[..j];
    BoxPrefix(chan, j, r);
    BoxPrefix(p.ws, p.wsRead, r);
    HostFaithful(p.link, x);
    FaithfulPrefix(p.link, x, p.link.link.host.execLog[x], log);
  }

  /** The collected stdout is always a prefix of the bytes the guest read from the
      child's stdout.  When collection ends with a status, either it is the guest's
      own exit and both streams are complete, or the command was killed or failed
      and stderr is a prefix of what was read followed by the failure message. */
  lemma {:induction false} CollectedSoFar(states: seq<Pipeline>, steps: seq<Step>, n: nat, r: ApiId, k: nat)
    requires IsPipelineRun(states, steps) && n < |states| && r in states[n].jobs
    requires r in states[n].client.execChan && k <= |states[n].client.execChan[r]|
    ensures var s, x := states[n].link, states[n].jobs[r].exec;
            Truthful(s, x, CollectedFrom(r, states[n].client.execChan[r][..k]))
  {
    var log := CollectorIsFaithful(states, steps, n, r, k);
    var s, x := states[n].link, states[n].jobs[r].exec;
    var c := CollectedFrom(r, states[n].client.execChan[r][..k]);
    hide CollectedFrom, IsPipelineRun;
    FaithfulText(s, x, log);
  }

  /** What is collected is what was read; a status means the guest's own exit with both
      streams complete, or a failure that stderr ends with. */
  ghost predicate Truthful(s: System, x: Uuid, c: Collected) {
    && c.stdout <= ReadBytes(s, x, Stdout)
    && (c.stderr <= ReadBytes(s, x, Stderr) || FailedStderr(s, x, c.stderr))
    && (c.end.Some? && c.end.value.Ok? ==>
          || (x in s.tasks && s.tasks[x].exit == Some(c.end.value.value)
              && c.stdout == ReadBytes(s, x, Stdout) && c.stderr == ReadBytes(s, x, Stderr))
          || (c.end.value.value == Killed && FailedStderr(s, x, c.stderr)))
  }

  /** Bytes read from the child, in order, then the message of the failure. */
  ghost predicate FailedStderr(s: System, x: Uuid, stderr: Bytes) {
    exists m :: Caused(s, x, m) && IsFollowedBy(ReadBytes(s, x, Stderr), stderr, m)
  }

  ghost predicate IsFollowedBy(read: Bytes, text: Bytes, m: Bytes) {
    |m| <= |text| && text[|text| - |m|..] == m && text[..|text| - |m|] <= read
  }

  lemma {:induction false} FaithfulText(s: System, x: Uuid, log: seq<ExecEvent>)
    requires Faithful(s, x, log)
    ensures Text(log, Stdout) <= ReadBytes(s, x, Stdout)
    ensures Text(log, Stderr) <= ReadBytes(s, x, Stderr) || FailedStderr(s, x, Text(log, Stderr))
    ensures ExecEnded(log) ==>
              || (x in s.tasks && s.tasks[x].exit == Some(log[|log| - 1].status)
                  && Text(log, Stdout) == ReadBytes(s, x, Stdout) && Text(log, Stderr) == ReadBytes(s, x, Stderr))
              || (log[|log| - 1].status == Killed && FailedStderr(s, x, Text(log, Stderr)))
  {
    hide Text, FailedStderr, Caused, ReadBytes;
    var n :| 0 <= n <= |log| && FaithfulAs(s, x, log[..n], log[n..]);
    var body, tail := log[..n], log[n..];
    assert log == body + tail;
    if OwnExit(s, x, body, tail) {
      OwnExitText(s, x, body, tail);
    } else if tail == [] {
      assert log == body;
    } else {
      var m :| Caused(s, x, m) && tail <= Tail(m);
      FailureText(s, x, body, tail, m);
    }
  }

  lemma OwnExitText(s: System, x: Uuid, body: seq<ExecEvent>, tail: seq<ExecEvent>)
    requires OwnExit(s, x, body, tail)
    ensures Text(body + tail, Stdout) == ReadBytes(s, x, Stdout) && Text(body + tail, Stderr) == ReadBytes(s, x, Stderr)
  {
    hide Text;
    TextConcat(body, tail, Stdout);
    TextConcat(body, tail, Stderr);
    TextOne(tail[0], Stdout);
    TextOne(tail[0], Stderr);
  }

  lemma FailureText(s: System, x: Uuid, body: seq<ExecEvent>, tail: seq<ExecEvent>, m: Bytes)
    requires AllOutputs(body) && Text(body, Stdout) <= ReadBytes(s, x, Stdout)
               && Text(body, Stderr) <= ReadBytes(s, x, Stderr)
    requires tail != [] && tail <= Tail(m) && Caused(s, x, m)
    ensures Text(body + tail, Stdout) <= ReadBytes(s, x, Stdout) && FailedStderr(s, x, Text(body + tail, Stderr))
    ensures ExecEnded(body + tail) ==> (body + tail)[|body + tail| - 1] == Exit(Killed)
  {
    hide Text;
    TextConcat(body, tail, Stdout);
    TextConcat(body, tail, Stderr);
    TailText(tail, m);
    Followed(ReadBytes(s, x, Stderr), Text(body, Stderr), m);
    hide IsFollowedBy, ReadBytes, Caused, Tail;
    assert IsFollowedBy(ReadBytes(s, x, Stderr), Text(body + tail, Stderr), m);
  }

  lemma Followed(read: Bytes, text: Bytes, m: Bytes)
    requires text <= read
    ensures IsFollowedBy(read, text + m, m)
  {
    assert (text + m)[|text|..] == m && (text + m)[..|text|] == text;
  }

  lemma TailText(tail: seq<ExecEvent>, m: Bytes)
    requires tail != [] && tail <= Tail(m)
    ensures Text(tail, Stdout) == [] && Text(tail, Stderr) == m
  {
    var first := Output(Stderr, m);
    forall stream: Stream ensures Text(tail, stream) == Chunk(first, stream) {
      TextOne(first, stream);
      TextOne(Exit(Killed), stream);
      TextConcat([first], [Exit(Killed)], stream);
      assert tail == [first] || tail == [first] + [Exit(Killed)];
    }
  }

  // ---- the collector's own result ----

  lemma TerminalEnds(events: seq<BoxEvent>, event: BoxEvent, r: ApiId)
    requires EndsExec(event, r)
    ensures CollectedFrom(r, events + [event]).end.Some?
  {
    assert (events + [event])[..|events|] == events;
  }

  /** The stream of a command that was sent closes only behind a terminal event. */
  ghost predicate ChanEnds(p: Pipeline, r: ApiId) {
    r in p.client.execChan && r !in p.client.execs && r !in p.unsent ==>
      CollectedFrom(r, p.client.execChan[r]).end.Some?
  }

  ghost predicate AllChanEnd(p: Pipeline) {
    Plugged(p.client) && forall r :: ChanEnds(p, r)
  }

  lemma DispatchCloses(c: Client, event: BoxEvent, r: ApiId)
    requires Plugged(c) && r in c.execChan
    ensures var c' := Dispatched(c, event);
            && r in c'.execChan
            && (r !in c.execs ==> r !in c'.execs && c'.execChan[r] == c.execChan[r])
            && (r in c.execs && r !in c'.execs ==> c'.execChan[r] == c.execChan[r] + [event] && EndsExec(event, r))
  {}

  lemma GiveUpCloses(c: Client, message: Bytes, r: ApiId)
    requires Plugged(c) && r in c.execChan
    ensures var c' := GivenUp(c, message);
            && r in c'.execChan
            && c'.execChan[r] == if r in c.execs then c.execChan[r] + [ApiError(None, message)] else c.execChan[r]
  {}

  lemma {:induction false} ChanEndsStep(p: Pipeline, step: Step, p': Pipeline, r: ApiId)
    requires AllChanEnd(p) && PipeMoves(p, step, p')
    ensures ChanEnds(p', r)
  {
    assert ChanEnds(p, r);
    if !step.LinkMoves? && r in p'.client.execChan && r !in p'.client.execs && r !in p'.unsent {
      ChanFrame(p, step, p', r);
      UnsentGrows(p, step, p', r);
      if step.ClientReads? {
        var event := p.ws[p.wsRead];
        DispatchCloses(p.client, event, r);
        if r in p.client.execs { TerminalEnds(p.client.execChan[r], event, r); }
      } else if step.ClientFails? {
        GiveUpCloses(p.client, step.message, r);
        if r in p.client.execs { TerminalEnds(p.client.execChan[r], ApiError(None, step.message), r); }
      }
      hide CollectedFrom, Dispatched, GivenUp;
    }
  }

  /** A sender leaves the map only through the reader, a failure, or an unsent request. */
  lemma UnsentGrows(p: Pipeline, step: Step, p': Pipeline, r: ApiId)
    requires PipeMoves(p, step, p') && !step.LinkMoves?
    ensures r in p.unsent ==> r in p'.unsent
    ensures !step.ClientReads? && !step.ClientFails? && r in p.client.execs && r !in p'.client.execs ==> r in p'.unsent
    ensures step == OpenExec(r) ==> r in p'.client.execs
  {
    hide Dispatched, GivenUp, Relayed;
  }

  lemma AllChanEndStep(p: Pipeline, step: Step, p': Pipeline)
    requires AllChanEnd(p) && PipeMoves(p, step, p')
    ensures AllChanEnd(p')
  {
    hide PipeMoves, ChanEnds;
    forall r ensures ChanEnds(p', r) { ChanEndsStep(p, step, p', r); }
    PluggedOn(p, step, p');
  }

  lemma PluggedOn(p: Pipeline, step: Step, p': Pipeline)
    requires Plugged(p.client) && PipeMoves(p, step, p')
    ensures Plugged(p'.client)
  {
    if !step.LinkMoves? { StaysPlugged(p, step, p'); }
    hide After;
  }

  lemma NoChannels()
    ensures AllChanEnd(Fresh)
  {}

  lemma {:induction false} RunsKeepEnds(states: seq<Pipeline>, steps: seq<Step>, n: nat)
    requires IsPipelineRun(states, steps) && n < |states|
    ensures AllChanEnd(states[n])
  {
    hide AllChanEnd, PipeMoves;
    if n == 0 {
      NoChannels();
    } else {
      RunsKeepEnds(states, steps, n - 1);
      AllChanEndStep(states[n - 1], steps[n - 1], states[n]);
    }
  }

  /** A command no server task took up has nothing to collect. */
  lemma {:induction false} NothingCollected(p: Pipeline, r: ApiId)
    requires PipeInv(p) && r !in p.jobs && r in p.client.execChan
    ensures var c := CollectedFrom(r, p.client.execChan[r]);
            c.stdout == [] && c.stderr == [] && c.output == [] && !(c.end.Some? && c.end.value.Ok?)
  {
    hide ExecInv, CollectedFrom, JobFed;
    var chan := p.client.execChan[r];
    assert ChanFed(p, r);
    var j := CollectedText(r, chan);
    BoxPrefix(chan, j, r);
    BoxPrefix(p.ws, p.wsRead, r);
    assert BoxFeed(chan[..j], r) == [];
  }

  /** End to end, for what `collect_exec` returns once its stream has closed: the stream
      ended by a terminal event, never by closing early, and stdout, stderr and status are
      true to what the guest read and how the command ended.  A request that could not be
      sent has no collector. */
  lemma {:induction false} EndToEnd(states: seq<Pipeline>, steps: seq<Step>, n: nat, r: ApiId)
    requires IsPipelineRun(states, steps) && n < |states| && r in states[n].client.execChan
    requires r !in states[n].client.execs && r !in states[n].unsent
    ensures var p := states[n];
            var c := CollectedAll(r, p.client.execChan[r]);
            && CollectedFrom(r, p.client.execChan[r]).end.Some?
            && (r in p.jobs ==> Truthful(p.link, p.jobs[r].exec, c))
            && (r !in p.jobs ==> c.stdout == [] && c.stderr == [] && c.output == [] && c.end.Some? && c.end.value.Err?)
  {
    hide IsPipelineRun, PipeInv, CollectedFrom, Truthful;
    var p := states[n];
    var chan := p.client.execChan[r];
    RunsKeepEnds(states, steps, n);
    assert ChanEnds(p, r);
    if r in p.jobs {
      CollectedSoFar(states, steps, n, r, |chan|);
      assert chan[..|chan|] == chan;
    } else {
      RunsKeepPipe(states, steps, n);
      NothingCollected(p, r);
    }
  }
}
