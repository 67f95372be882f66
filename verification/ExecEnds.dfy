/** How a command's stream ends at the client, in every run of the pipeline: the first event
    that ends it is handed over, and is what the collector reports. */
module ExecEnds {
  import opened Wrappers
  import opened GuestRpc
  import opened ApiClient
  import opened ExecPipeline
  import ApiClientRuns

  /** The server speaks of this request. */
  predicate Names(event: BoxEvent, r: ApiId) {
    || ((event.ExecOut? || event.ExecDone?) && event.request == r)
    || (event.ApiError? && event.cause == Some(r))
  }

  /** What a collector reports when this event ends its stream. */
  function EndOf(event: BoxEvent): Result<Status, Bytes>
    requires event.ExecDone? || event.ApiError?
  {
    if event.ExecDone? then Ok(event.status) else Err(event.message)
  }

  /** Requests and commands differ; the server speaks of a command only once it was opened;
      one whose end has been read is closed, and an open one has not been told of its end. */
  ghost predicate EndsRead(p: Pipeline) {
    && Plugged(p.client) && p.wsRead <= |p.ws|
    && p.client.answers.Keys !! p.client.execChan.Keys
    && (forall i, r :: 0 <= i < |p.ws| && Names(p.ws[i], r) ==> r in p.client.execChan)
    && (forall i, r :: 0 <= i < p.wsRead && Names(p.ws[i], r) && EndsExec(p.ws[i], r) ==> r !in p.client.execs)
    && (forall r :: r in p.client.execs ==> Unended(p.client.execChan[r], r))
  }

  ghost predicate Unended(events: seq<BoxEvent>, r: ApiId) {
    forall i :: 0 <= i < |events| ==> !EndsExec(events[i], r)
  }

  /** The client's side of a step: its keys, its streams and what it has read. */
  lemma ClientSide(p: Pipeline, step: Step, p': Pipeline)
    requires PipeMoves(p, step, p') && !step.LinkMoves? && !step.ClientReads? && !step.ClientFails?
    ensures p'.wsRead == p.wsRead
    ensures step.OpenExec? ==> step.request !in p.client.answers && step.request !in p.client.execChan
    ensures step.OpenExec? ==>
              p'.client == p.client.(execs := p.client.execs + {step.request},
                                     execChan := p.client.execChan[step.request := []])
    ensures step.OpenRequest? ==> step.request !in p.client.execChan
    ensures step.OpenRequest? ==>
              p'.client == p.client.(pending := p.client.pending + {step.request},
                                     answers := p.client.answers[step.request := []])
    ensures step.OpenFails? ==> p'.client == p.client.(execs := p.client.execs - {step.request})
    ensures !step.OpenExec? && !step.OpenRequest? && !step.OpenFails? ==> p'.client == p.client
  {
    hide Dispatched, GivenUp, Relayed;
  }

  /** What a step puts on the wire. */
  lemma WsNew(p: Pipeline, step: Step, p': Pipeline)
    requires PipeMoves(p, step, p') && !step.LinkMoves? && p'.ws != p.ws
    ensures |p'.ws| == |p.ws| + 1 && p'.ws[..|p.ws|] == p.ws
    ensures var e := p'.ws[|p.ws|];
            || IsNoise(e)
            || (step.Reject? && step.request in p.client.execChan && e.ApiError? && e.cause == Some(step.request))
            || (step.Forward? && step.request in p.jobs && (e.ExecOut? || e.ExecDone?) && e.request == step.request)
  {
    hide Dispatched, GivenUp, Relayed;
  }

  lemma NewEvent(p: Pipeline, step: Step, p': Pipeline, r: ApiId)
    requires PipeInv(p) && PipeMoves(p, step, p') && !step.LinkMoves? && p'.ws != p.ws
    ensures |p'.ws| == |p.ws| + 1 && p'.ws[..|p.ws|] == p.ws
    ensures Names(p'.ws[|p.ws|], r) ==> r in p.client.execChan
  {
    hide PipeMoves, PipeInv;
    WsNew(p, step, p');
    if step.Forward? && step.request in p.jobs { JobOpened(p, step.request); }
  }

  lemma JobOpened(p: Pipeline, r: ApiId)
    requires PipeInv(p) && r in p.jobs
    ensures r in p.client.execChan
  {
    assert JobFed(p, r);
  }

  lemma {:induction false} ReadsOn(p: Pipeline, p': Pipeline)
    requires EndsRead(p) && PipeMoves(p, ClientReads, p')
    ensures EndsRead(p')
  {
    WsFrame(p, ClientReads, p');
    hide PipeMoves;
    var event := p.ws[p.wsRead];
    DispatchKeys(p.client, event);
    AnswerKeys(p.client, event);
    forall i, r | 0 <= i < p'.wsRead && Names(p'.ws[i], r) && EndsExec(p'.ws[i], r) ensures r !in p'.client.execs {
      ApiClientRuns.DispatchedExec(p.client, event, r);
      if i == p.wsRead { NamedIsTold(event, r); }
    }
    forall r | r in p'.client.execs ensures Unended(p'.client.execChan[r], r) {
      StillOpen(p.client, event, r);
    }
    hide Dispatched;
  }

  lemma NamedIsTold(event: BoxEvent, r: ApiId)
    requires Names(event, r) && EndsExec(event, r)
    ensures ApiClientRuns.Ended(ApiClientRuns.ToExec(ApiClientRuns.Receive(event), r), e => EndsExec(e, r))
  {}

  lemma AnswerKeys(c: Client, event: BoxEvent)
    requires Plugged(c)
    ensures Dispatched(c, event).answers.Keys == c.answers.Keys && Plugged(Dispatched(c, event))
  {}

  lemma StillOpen(c: Client, event: BoxEvent, r: ApiId)
    requires Plugged(c) && r in Dispatched(c, event).execs && c.answers.Keys !! c.execChan.Keys
    requires forall o :: o in c.execs ==> Unended(c.execChan[o], o)
    ensures Unended(Dispatched(c, event).execChan[r], r)
  {
    DispatchKeys(c, event);
    ApiClientRuns.DispatchedExec(c, event, r);
    ApiClientRuns.ToldOnce(ApiClientRuns.Receive(event), r);
    hide Dispatched, ApiClientRuns.ToExec;
  }

  lemma FailsOn(p: Pipeline, message: Bytes, p': Pipeline)
    requires EndsRead(p) && PipeMoves(p, ClientFails(message), p')
    ensures EndsRead(p')
  {}

  lemma {:induction false} OthersOn(p: Pipeline, step: Step, p': Pipeline)
    requires PipeInv(p) && EndsRead(p) && PipeMoves(p, step, p')
    requires !step.LinkMoves? && !step.ClientReads? && !step.ClientFails?
    ensures EndsRead(p')
  {
    hide PipeMoves, PipeInv;
    ClientSide(p, step, p');
    forall i, r | 0 <= i < |p'.ws| && Names(p'.ws[i], r) ensures r in p'.client.execChan {
      if p'.ws != p.ws {
        NewEvent(p, step, p', r);
        assert i < |p.ws| ==> p'.ws[i] == p.ws[i];
      }
    }
    forall i | 0 <= i < p.wsRead ensures i < |p'.ws| && p'.ws[i] == p.ws[i] {
      if p'.ws != p.ws { NewEvent(p, step, p', 0); }
    }
    if p'.ws != p.ws { NewEvent(p, step, p', 0); }
    hide Names, EndsExec;
  }

  lemma LinkOn(p: Pipeline, step: Step, p': Pipeline)
    requires EndsRead(p) && PipeMoves(p, step, p') && step.LinkMoves?
    ensures EndsRead(p')
  {}

  lemma NothingRead()
    ensures EndsRead(Fresh)
  {}

  /** In every run, a command whose end has been read off the wire is closed, and an open
      one has been told nothing that ends it. */
  lemma {:induction false} RunsReadEnds(states: seq<Pipeline>, steps: seq<Step>, n: nat)
    requires IsPipelineRun(states, steps) && n < |states|
    ensures EndsRead(states[n])
  {
    hide PipeMoves, EndsRead, PipeInv;
    if n == 0 {
      NothingRead();
    } else {
      RunsReadEnds(states, steps, n - 1);
      RunsKeepPipe(states, steps, n - 1);
      var p, step, p' := states[n - 1], steps[n - 1], states[n];
      match step
      case LinkMoves(_) => LinkOn(p, step, p');
      case ClientReads => ReadsOn(p, p');
      case ClientFails(message) => FailsOn(p, message, p');
      case _ => OthersOn(p, step, p');
    }
  }

  lemma {:induction false} NotCollectedYet(r: ApiId, events: seq<BoxEvent>)
    requires Unended(events, r)
    ensures CollectedFrom(r, events).end == None
  {
    if events != [] { NotCollectedYet(r, events[..|events| - 1]); }
  }

  lemma CollectsEnd(r: ApiId, events: seq<BoxEvent>, event: BoxEvent)
    requires Unended(events, r) && EndsExec(event, r)
    ensures CollectedFrom(r, events + [event]).end == Some(EndOf(event))
  {
    NotCollectedYet(r, events);
    assert (events + [event])[..|events|] == events;
  }

  /** When the client reads the end of an open command, an exit, a rejection or a failure of
      everything, the stream closes behind it and the collector reports exactly it. */
  lemma {:induction false} EndIsReported(states: seq<Pipeline>, steps: seq<Step>, n: nat, r: ApiId)
    requires IsPipelineRun(states, steps) && n < |steps| && steps[n] == ClientReads
    requires states[n].wsRead < |states[n].ws| && EndsExec(states[n].ws[states[n].wsRead], r)
    requires r in states[n].client.execs
    ensures r in states[n + 1].client.execChan && r !in states[n + 1].client.execs
    ensures var event := states[n].ws[states[n].wsRead];
            CollectedFrom(r, states[n + 1].client.execChan[r]).end == Some(EndOf(event))
  {
    RunsReadEnds(states, steps, n);
    var p, p' := states[n], states[n + 1];
    assert PipeMoves(p, ClientReads, p');
    hide IsPipelineRun;
    WsFrame(p, ClientReads, p');
    var event := p.ws[p.wsRead];
    ApiClientRuns.DispatchedExec(p.client, event, r);
    ToldIsEvent(event, r);
    CollectsEnd(r, p.client.execChan[r], event);
    hide PipeMoves, Dispatched, CollectedFrom;
  }

  lemma ToldIsEvent(event: BoxEvent, r: ApiId)
    requires EndsExec(event, r)
    ensures ApiClientRuns.ToExec(ApiClientRuns.Receive(event), r) == [event]
    ensures ApiClientRuns.Ended([event], e => EndsExec(e, r))
  {}
}
