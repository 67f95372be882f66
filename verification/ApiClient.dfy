/** The API client: the maps its reader task dispatches server events to, and
    the loop that collects one command's output. */
module ApiClient {
  import opened Wrappers
  import opened GuestRpc

  type ApiId = nat

  datatype BoxEvent =
    | Response(request: ApiId, body: Bytes)
    | ExecOut(request: ApiId, stream: Stream, data: Bytes)
    | ExecDone(request: ApiId, status: Status)
    | ShellOut(shell: Uuid, data: Bytes)
    | ShellEnd(shell: Uuid, code: int)
    | ApiError(cause: Option<ApiId>, message: Bytes)

  datatype Client = Client(
    pending: set<ApiId>, answers: map<ApiId, seq<Result<Bytes, Bytes>>>,
    execs: set<ApiId>, execChan: map<ApiId, seq<BoxEvent>>,
    shells: set<Uuid>, shellChan: map<Uuid, seq<BoxEvent>>,
    buffered: map<Uuid, seq<BoxEvent>>)

  ghost predicate Plugged(c: Client) {
    c.pending <= c.answers.Keys && c.execs <= c.execChan.Keys && c.shells <= c.shellChan.Keys
  }

  function Answered(c: Client, request: ApiId, answer: Result<Bytes, Bytes>): Client
    requires Plugged(c)
  {
    if request in c.pending
    then c.(pending := c.pending - {request}, answers := c.answers[request := c.answers[request] + [answer]])
    else c
  }

  function ExecPushed(c: Client, request: ApiId, event: BoxEvent, last: bool): Client
    requires Plugged(c)
  {
    if request in c.execs
    then c.(execChan := c.execChan[request := c.execChan[request] + [event]],
            execs := if last then c.execs - {request} else c.execs)
    else c
  }

  /** Events of a shell nobody has registered yet are kept for it. */
  function ShellPushed(c: Client, shell: Uuid, event: BoxEvent): Client
    requires Plugged(c)
  {
    if shell in c.shells
    then c.(shellChan := c.shellChan[shell := c.shellChan[shell] + [event]],
            shells := if event.ShellEnd? then c.shells - {shell} else c.shells)
    else c.(buffered := c.buffered[shell := (if shell in c.buffered then c.buffered[shell] else []) + [event]])
  }

  /** Tells every waiter and stream, and empties all four maps. */
  function GivenUp(c: Client, message: Bytes): (c': Client)
    requires Plugged(c)
    ensures Plugged(c')
  {
    Client({}, Told(c.answers, c.pending, [Err(message)]),
           {}, Told(c.execChan, c.execs, [ApiError(None, message)]),
           {}, Told(c.shellChan, c.shells, [ApiError(None, message)]),
           map[])
  }

  function Dispatched(c: Client, event: BoxEvent): (c': Client)
    requires Plugged(c)
    ensures Plugged(c')
  {
    match event
    case Response(request, body) => Answered(c, request, Ok(body))
    case ApiError(Some(request), message) =>
      if request in c.pending then Answered(c, request, Err(message)) else ExecPushed(c, request, event, true)
    case ApiError(None, message) => GivenUp(c, message)
    case ExecOut(request, _, _) => ExecPushed(c, request, event, false)
    case ExecDone(request, _) => ExecPushed(c, request, event, true)
    case ShellOut(shell, _) => ShellPushed(c, shell, event)
    case ShellEnd(shell, _) => ShellPushed(c, shell, event)
  }

  function Kept(c: Client, shell: Uuid): seq<BoxEvent> {
    if shell in c.buffered then c.buffered[shell] else []
  }

  /** A caller takes up a shell the server has named, and with it what was kept for it,
      which it has yet to replay. */
  function ShellTaken(c: Client, shell: Uuid): (c': Client)
    requires Plugged(c)
    ensures Plugged(c')
  {
    c.(shells := c.shells + {shell}, shellChan := c.shellChan[shell := []], buffered := c.buffered - {shell})
  }

  /** One event is put on a shell's channel, whatever has become of the shell meanwhile. */
  function ShellReplayed(c: Client, shell: Uuid, event: BoxEvent): (c': Client)
    requires Plugged(c)
    ensures Plugged(c')
  {
    if shell in c.shellChan then c.(shellChan := c.shellChan[shell := c.shellChan[shell] + [event]]) else c
  }

  class ClientInner {
    var pending: set<ApiId>
    var answers: map<ApiId, seq<Result<Bytes, Bytes>>>
    var execs: set<ApiId>
    var execChan: map<ApiId, seq<BoxEvent>>
    var shells: set<Uuid>
    var shellChan: map<Uuid, seq<BoxEvent>>
    var buffered: map<Uuid, seq<BoxEvent>>

    ghost function State(): Client
      reads this
    {
      Client(pending, answers, execs, execChan, shells, shellChan, buffered)
    }

    constructor ()
      ensures State() == Client({}, map[], {}, map[], {}, map[], map[])
    {
      pending, answers, execs, execChan, shells, shellChan, buffered := {}, map[], {}, map[], {}, map[], map[];
    }

    method DispatchEvent(event: BoxEvent)
      requires Plugged(State())
      modifies this
      ensures State() == old(Dispatched(State(), event))
    {
      match event
      case Response(request, body) =>
        if request in pending {
          pending := pending - {request};
          answers := answers[request := answers[request] + [Ok(body)]];
        }
      case ApiError(Some(request), message) =>
        if request in pending {
          pending := pending - {request};
          answers := answers[request := answers[request] + [Err(message)]];
          return;
        }
        if request in execs {
          execs := execs - {request};
          execChan := execChan[request := execChan[request] + [event]];
        }
      case ExecOut(request, _, _) =>
        if request in execs {
          execChan := execChan[request := execChan[request] + [event]];
        }
      case ExecDone(request, _) =>
        if request in execs {
          execChan := execChan[request := execChan[request] + [event]];
        }
        execs := execs - {request};
      case ShellOut(shell, _) => PushShell(shell, event);
      case ShellEnd(shell, _) => PushShell(shell, event);
      case ApiError(None, message) => FailAll(message);
    }

    method PushShell(shell: Uuid, event: BoxEvent)
      requires Plugged(State())
      modifies this`shells, this`shellChan, this`buffered
      ensures State() == old(ShellPushed(State(), shell, event))
    {
      if shell in shells {
        shellChan := shellChan[shell := shellChan[shell] + [event]];
        if event.ShellEnd? {
          shells := shells - {shell};
        }
      } else {
        buffered := buffered[shell := (if shell in buffered then buffered[shell] else []) + [event]];
      }
    }

    /** `register_shell_channel`, as far as it holds the lock. */
    method RegisterShell(shell: Uuid) returns (waiting: seq<BoxEvent>)
      requires Plugged(State())
      modifies this`shells, this`shellChan, this`buffered
      ensures State() == old(ShellTaken(State(), shell)) && waiting == old(Kept(State(), shell))
    {
      waiting := if shell in buffered then buffered[shell] else [];
      shells, shellChan, buffered := shells + {shell}, shellChan[shell := []], buffered - {shell};
    }

    /** One turn of its loop, without the lock. */
    method ReplayEvent(shell: Uuid, event: BoxEvent)
      requires Plugged(State())
      modifies this`shellChan
      ensures State() == old(ShellReplayed(State(), shell, event))
    {
      if shell in shellChan { shellChan := shellChan[shell := shellChan[shell] + [event]]; }
    }

    method FailAll(message: Bytes)
      requires Plugged(State())
      modifies this
      ensures State() == old(GivenUp(State(), message))
    {
      hide Told;
      var waiting, streams, sessions := pending, execs, shells;
      pending, execs, shells, buffered := {}, {}, {}, map[];
      FailAnswers(waiting, message);
      execChan := FailChannels(execChan, streams, message);
      shellChan := FailChannels(shellChan, sessions, message);
    }

    method FailAnswers(waiting: set<ApiId>, message: Bytes)
      requires waiting <= answers.Keys
      modifies this`answers
      ensures answers == Told(old(answers), waiting, [Err(message)])
    {
      var rest := waiting;
      while rest != {}
        invariant rest <= waiting <= answers.Keys == old(answers).Keys
        invariant forall r :: r in answers ==>
                    answers[r] == old(answers)[r] + if r in waiting - rest then [Err(message)] else []
      {
        var r :| r in rest;
        rest := rest - {r};
        answers := answers[r := answers[r] + [Err(message)]];
      }
    }
  }

  /** Sends an error on each of the drained channels. */
  method FailChannels(channels: map<nat, seq<BoxEvent>>, open: set<nat>, message: Bytes)
    returns (after: map<nat, seq<BoxEvent>>)
    requires open <= channels.Keys
    ensures after == Told(channels, open, [ApiError(None, message)])
  {
    after := channels;
    var rest := open;
    while rest != {}
      invariant rest <= open <= after.Keys == channels.Keys
      invariant forall r :: r in after ==>
                  after[r] == channels[r] + if r in open - rest then [ApiError(None, message)] else []
    {
      var r :| r in rest;
      rest := rest - {r};
      after := after[r := after[r] + [ApiError(None, message)]];
    }
  }

  // ---- collecting one command ----

  /** The events that end a command's stream. */
  predicate EndsExec(event: BoxEvent, r: ApiId) {
    || (event.ExecDone? && event.request == r)
    || (event.ApiError? && (event.cause == None || event.cause == Some(r)))
  }

  /** The collector's buffers and, once its loop has ended, how it ended. */
  datatype Collected = Collected(stdout: Bytes, stderr: Bytes, output: Bytes, end: Option<Result<Status, Bytes>>)

  const Nothing := Collected([], [], [], None)

  /** One turn of the collecting loop. */
  function Absorbed(c: Collected, request: ApiId, event: BoxEvent): Collected {
    match event
    case ExecOut(id, stream, data) =>
      if id != request then c
      else if stream.Stdout? then c.(output := c.output + data, stdout := c.stdout + data)
      else c.(output := c.output + data, stderr := c.stderr + data)
    case ExecDone(id, status) => if id == request then c.(end := Some(Ok(status))) else c
    case ApiError(cause, message) =>
      if cause == None || cause == Some(request) then c.(end := Some(Err(message))) else c
    case _ => c
  }

  /** The whole loop over the events received; it stops at the first that ends it. */
  function CollectedFrom(request: ApiId, events: seq<BoxEvent>): Collected {
    if events == [] then Nothing
    else
      var c := CollectedFrom(request, events[..|events| - 1]);
      if c.end.Some? then c else Absorbed(c, request, events[|events| - 1])
  }

  /** What collecting a channel that has closed returns; one that closes early counts as
      a kill. */
  function CollectedAll(request: ApiId, events: seq<BoxEvent>): Collected {
    var all := CollectedFrom(request, events);
    if all.end.Some? then all else all.(end := Some(Ok(Killed)))
  }

  /** Drains a closed channel. */
  method CollectExec(request: ApiId, events: seq<BoxEvent>) returns (c: Collected)
    ensures c == CollectedAll(request, events)
  {
    var stdout, stderr, output := [], [], [];
    for i := 0 to |events|
      invariant CollectedFrom(request, events[..i]) == Collected(stdout, stderr, output, None)
    {
      assert events[..i + 1][..i] == events[..i];
      match events[i] {
        case ExecOut(id, stream, data) =>
          if id == request {
            output := output + data;
            match stream {
              case Stdout => stdout := stdout + data;
              case Stderr => stderr := stderr + data;
            }
          }
        case ExecDone(id, status) =>
          if id == request {
            c := Collected(stdout, stderr, output, Some(Ok(status)));
            EndedForGood(request, events, i + 1);
            return;
          }
        case ApiError(cause, message) =>
          if cause == None || cause == Some(request) {
            c := Collected(stdout, stderr, output, Some(Err(message)));
            EndedForGood(request, events, i + 1);
            return;
          }
        case _ =>
      }
    }
    assert events[..|events|] == events;
    c := Collected(stdout, stderr, output, Some(Ok(Killed)));
  }

  lemma {:induction false} EndedForGood(request: ApiId, events: seq<BoxEvent>, n: nat)
    requires n <= |events| && CollectedFrom(request, events[..n]).end.Some?
    ensures CollectedFrom(request, events) == CollectedFrom(request, events[..n])
  {
    if n == |events| {
      assert events[..n] == events;
    } else {
      assert events[..|events| - 1][..n] == events[..n];
      EndedForGood(request, events[..|events| - 1], n);
    }
  }
}
