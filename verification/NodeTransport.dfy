/** How the Node client hands a shell's events to its consumer: they may arrive before
    the shell is registered, and the connection may fail at any point. */
module NodeTransport {
  import opened Wrappers
  import opened NodeQueue

  type ShellId = nat

  datatype ShellEvent = ShellOutput(shell: ShellId, data: Bytes) | ShellExit(shell: ShellId, code: int)

  type Queue = AsyncQueue<ShellEvent>

  // ---- what each queue has been given ----

  datatype Fed = Fed(pushed: seq<ShellEvent>, closed: Option<string>)

  /** A queue that gets no more events: its shell has exited or the connection failed. */
  predicate Ended(q: Fed) {
    q.closed.Some? || (q.pushed != [] && q.pushed[|q.pushed| - 1].ShellExit?)
  }

  /** `arrived` holds everything that ever arrived for each shell, `dropped` how much of
      it a failure discarded before the shell was registered. */
  datatype Delivery = Delivery(streams: set<ShellId>, buffered: map<ShellId, seq<ShellEvent>>,
                               arrived: map<ShellId, seq<ShellEvent>>, dropped: map<ShellId, nat>,
                               queues: map<ShellId, Fed>)

  function At(events: map<ShellId, seq<ShellEvent>>, id: ShellId): seq<ShellEvent> {
    if id in events then events[id] else []
  }

  function Dropped(d: Delivery, id: ShellId): nat {
    if id in d.dropped then d.dropped[id] else 0
  }

  /** A registered shell's queue was given exactly what arrived for that shell and was
      not dropped, in order and once each, up to its end. */
  ghost predicate Served(d: Delivery, id: ShellId) {
    && Dropped(d, id) <= |At(d.arrived, id)|
    && var due := At(d.arrived, id)[Dropped(d, id)..];
    if id !in d.queues then id !in d.streams && At(d.buffered, id) == due
    else
      && d.queues[id].pushed <= due
      && if id in d.streams then id !in d.buffered && d.queues[id] == Fed(due, None) else Ended(d.queues[id])
  }

  ghost predicate Consistent(d: Delivery) {
    forall id: ShellId :: Served(d, id)
  }

  function Appended(events: map<ShellId, seq<ShellEvent>>, e: ShellEvent): map<ShellId, seq<ShellEvent>> {
    events[e.shell := At(events, e.shell) + [e]]
  }

  function Kept(d: Delivery, e: ShellEvent): Delivery {
    d.(buffered := Appended(d.buffered, e), arrived := Appended(d.arrived, e))
  }

  lemma Buffering(d: Delivery, e: ShellEvent)
    requires Consistent(d) && e.shell !in d.streams
    ensures Consistent(Kept(d, e))
  {
    forall id: ShellId ensures Served(Kept(d, e), id) { assert Served(d, id); }
  }

  function Passed(d: Delivery, e: ShellEvent): Delivery
    requires e.shell in d.queues
  {
    var q := d.queues[e.shell];
    d.(streams := if e.ShellExit? then d.streams - {e.shell} else d.streams,
       arrived := Appended(d.arrived, e),
       queues := d.queues[e.shell := q.(pushed := q.pushed + [e])])
  }

  lemma Passing(d: Delivery, e: ShellEvent)
    requires Consistent(d) && e.shell in d.streams && e.shell in d.queues
    ensures Consistent(Passed(d, e)) && e.shell !in d.buffered
  {
    assert Served(d, e.shell);
    forall id: ShellId ensures Served(Passed(d, e), id) { assert Served(d, id); }
  }

  function Registered(d: Delivery, id: ShellId): Delivery {
    d.(streams := d.streams + {id},
       buffered := d.buffered - {id},
       queues := d.queues[id := Fed(At(d.buffered, id), None)])
  }

  lemma Registering(d: Delivery, id: ShellId)
    requires Consistent(d) && id !in d.queues
    ensures Consistent(Registered(d, id))
  {
    hide At;
    forall o: ShellId ensures Served(Registered(d, id), o) {
      assert Served(d, o);
      RegisteringOne(d, id, o);
    }
  }

  lemma RegisteringOne(d: Delivery, id: ShellId, o: ShellId)
    requires Served(d, o) && id !in d.queues
    ensures Served(Registered(d, id), o)
  {
    var d' := Registered(d, id);
    assert d'.arrived == d.arrived && Dropped(d', o) == Dropped(d, o);
    assert o != id ==> At(d'.buffered, o) == At(d.buffered, o);
    hide At, Dropped;
  }

  function Told(queues: map<ShellId, Fed>, open: set<ShellId>, message: string): map<ShellId, Fed> {
    map id | id in queues :: if id in open then queues[id].(closed := Some(message)) else queues[id]
  }

  /** The buffered events of shells not registered yet are lost. */
  function Forgotten(d: Delivery): map<ShellId, nat> {
    map id | id in d.arrived :: if id in d.queues then Dropped(d, id) else |d.arrived[id]|
  }

  function Broken(d: Delivery, message: string): Delivery {
    Delivery({}, map[], d.arrived, Forgotten(d), Told(d.queues, d.streams, message))
  }

  lemma Failing(d: Delivery, message: string)
    requires Consistent(d)
    ensures Consistent(Broken(d, message))
  {
    forall id: ShellId ensures Served(Broken(d, message), id) { assert Served(d, id); }
  }

  // ---- the transport ----

  /** No queue serves two shells, and open streams are queues that were handed out. */
  ghost predicate Linked(queues: map<ShellId, Queue>, owner: map<Queue, ShellId>, streams: map<ShellId, Queue>) {
    && (forall id :: id in queues ==> queues[id] in owner && owner[queues[id]] == id)
    && (forall id :: id in streams ==> id in queues && queues[id] == streams[id])
  }

  lemma LinkNew(queues: map<ShellId, Queue>, owner: map<Queue, ShellId>, streams: map<ShellId, Queue>, id: ShellId,
                q: Queue)
    requires Linked(queues, owner, streams) && id !in queues && q !in owner
    ensures Linked(queues[id := q], owner[q := id], streams[id := q])
  {}

  lemma Unlink(queues: map<ShellId, Queue>, owner: map<Queue, ShellId>, streams: map<ShellId, Queue>, id: ShellId)
    requires Linked(queues, owner, streams)
    ensures Linked(queues, owner, streams - {id})
    ensures id in streams ==> id in queues && queues[id] == streams[id] && queues[id] in owner
    ensures forall o :: o in queues ==> queues[o] in owner
    ensures id in queues ==> forall o :: o in queues && o != id ==> queues[o] != queues[id]
  {}

  ghost predicate Holds(q: Queue, f: Fed) reads q {
    q.Valid() && q.pushed == f.pushed && q.closed == f.closed
  }

  ghost predicate AllHold(queues: map<ShellId, Queue>, fed: map<ShellId, Fed>, all: set<Queue>) reads all {
    queues.Keys == fed.Keys && forall id :: id in queues ==> queues[id] in all && Holds(queues[id], fed[id])
  }

  lemma OneMoreHolds(queues: map<ShellId, Queue>, fed: map<ShellId, Fed>, all: set<Queue>, id: ShellId,
                     q: Queue, f: Fed)
    requires AllHold(queues, fed, all) && Holds(q, f)
    ensures AllHold(queues[id := q], fed[id := f], all + {q})
  {
    hide Holds;
  }

  class Transport {
    var shellStreams: map<ShellId, Queue>
    var bufferedShellEvents: map<ShellId, seq<ShellEvent>>
    /** Every queue ever handed out, by shell. */
    ghost var queues: map<ShellId, Queue>
    ghost var arrived: map<ShellId, seq<ShellEvent>>
    ghost var owner: map<Queue, ShellId>

    ghost var fed: map<ShellId, Fed>
    ghost var dropped: map<ShellId, nat>

    ghost function State(): Delivery reads this {
      Delivery(shellStreams.Keys, bufferedShellEvents, arrived, dropped, fed)
    }

    ghost predicate Valid() reads this, owner.Keys {
      && queues.Keys == fed.Keys && Linked(queues, owner, shellStreams)
      && AllHold(queues, fed, owner.Keys) && Consistent(State())
    }

    constructor ()
      ensures Valid() && queues == map[] && owner == map[]
      ensures State() == Delivery({}, map[], map[], map[], map[])
    {
      shellStreams, bufferedShellEvents, queues, arrived, owner, fed, dropped :=
        map[], map[], map[], map[], map[], map[], map[];
    }

    /** A new queue holding some events. */
    method Filled(events: seq<ShellEvent>) returns (queue: Queue)
      ensures fresh(queue) && Holds(queue, Fed(events, None))
    {
      queue := new AsyncQueue();
      for k := 0 to |events|
        invariant fresh(queue) && queue.Valid() && queue.closed == None && queue.pushed == events[..k]
      {
        queue.Push(events[k]);
      }
      assert events[..|events|] == events;
    }

    /** A shell is registered once, when the server has named it: what arrived before
        comes first. */
    method RegisterShell(id: ShellId) returns (queue: Queue)
      requires Valid() && id !in queues
      modifies this
      ensures Valid() && fresh(queue) && queues == old(queues)[id := queue] && owner == old(owner)[queue := id]
      ensures State() == Registered(old(State()), id)
    {
      hide Given, Queue.Valid, Consistent, Holds, Linked, At, AllHold;
      ghost var d := State();
      Registering(d, id);
      var buffered := At(bufferedShellEvents, id);
      queue := Filled(buffered);
      assert queue !in owner;
      LinkNew(queues, owner, shellStreams, id, queue);
      Enlist(id, queue, Fed(buffered, None));
      assert State() == Registered(d, id);
    }

    method Enlist(id: ShellId, queue: Queue, ghost f: Fed)
      requires AllHold(queues, fed, owner.Keys) && Holds(queue, f)
      modifies this
      ensures AllHold(queues, fed, owner.Keys)
      ensures shellStreams == old(shellStreams)[id := queue] && bufferedShellEvents == old(bufferedShellEvents) - {id}
      ensures queues == old(queues)[id := queue] && owner == old(owner)[queue := id] && fed == old(fed)[id := f]
      ensures arrived == old(arrived) && dropped == old(dropped)
    {
      hide Given, Queue.Valid, Holds, AllHold;
      ghost var handed, all, told := queues, owner.Keys, fed;
      shellStreams := shellStreams[id := queue];
      bufferedShellEvents := bufferedShellEvents - {id};
      queues, owner, fed := queues[id := queue], owner[queue := id], fed[id := f];
      OneMoreHolds(handed, told, all, id, queue, f);
      assert owner.Keys == all + {queue};
    }

    method Feed(queue: Queue, event: ShellEvent, ghost f: Fed)
      requires Holds(queue, f)
      modifies queue
      ensures Holds(queue, f.(pushed := f.pushed + [event]))
    {
      queue.Push(event);
    }

    method PushShellEvent(event: ShellEvent)
      requires Valid()
      modifies this, owner.Keys
      ensures Valid() && queues == old(queues) && owner == old(owner)
      ensures State() == if event.shell in old(shellStreams) then Passed(old(State()), event)
                else Kept(old(State()), event)
    {
      hide Given, Queue.Valid, Consistent, Holds, Linked, At, Appended;
      ghost var d := State();
      Unlink(queues, owner, shellStreams, event.shell);
      if event.shell !in shellStreams {
        Buffering(d, event);
        bufferedShellEvents := Appended(bufferedShellEvents, event);
        arrived := Appended(arrived, event);
        forall o | o in queues ensures Holds(queues[o], fed[o]) { assert old(Holds(queues[o], fed[o])); }
        return;
      }
      Deliver(event);
    }

    method Deliver(event: ShellEvent)
      requires Valid() && event.shell in shellStreams
      modifies this, owner.Keys
      ensures Valid() && queues == old(queues) && owner == old(owner) && event.shell in old(fed)
      ensures State() == Passed(old(State()), event)
    {
      hide Given, Queue.Valid, Consistent, Holds, Linked, At, Appended;
      ghost var d := State();
      var id := event.shell;
      Unlink(queues, owner, shellStreams, id);
      Passing(d, event);
      var queue := shellStreams[id];
      arrived := Appended(arrived, event);
      if event.ShellExit? { shellStreams := shellStreams - {id}; }
      ghost var f := fed[id];
      fed := fed[id := f.(pushed := f.pushed + [event])];
      Feed(queue, event, f);
      assert State() == Passed(d, event);
      forall o | o in queues ensures Holds(queues[o], fed[o]) { if o != id { assert old(Holds(queues[o], fed[o])); } }
    }

    method Close(queue: Queue, message: string, ghost f: Fed)
      requires Holds(queue, f)
      modifies queue
      ensures Holds(queue, f.(closed := Some(message))) && queue.items == old(queue.items)
    {
      queue.Fail(message);
    }

    method CloseStream(id: ShellId, message: string)
      requires Linked(queues, owner, shellStreams) && AllHold(queues, fed, owner.Keys) && id in shellStreams
                 && id in fed
      modifies this`fed, owner.Keys
      ensures AllHold(queues, fed, owner.Keys) && fed == old(fed)[id := old(fed)[id].(closed := Some(message))]
    {
      hide Given, Queue.Valid, Holds, Linked;
      Unlink(queues, owner, shellStreams, id);
      Close(shellStreams[id], message, fed[id]);
      fed := fed[id := fed[id].(closed := Some(message))];
      forall o | o in queues ensures Holds(queues[o], fed[o]) {
        if o != id { assert old(Holds(queues[o], fed[o])); }
      }
    }

    method CloseStreams(message: string)
      requires Linked(queues, owner, shellStreams) && AllHold(queues, fed, owner.Keys) && shellStreams.Keys <= fed.Keys
      modifies this`fed, owner.Keys
      ensures AllHold(queues, fed, owner.Keys) && fed == Told(old(fed), shellStreams.Keys, message)
    {
      hide Given, Queue.Valid, Holds, Linked, AllHold;
      var rest := shellStreams.Keys;
      assert fed == Told(fed, shellStreams.Keys - rest, message);
      while rest != {}
        modifies this`fed, owner.Keys
        invariant rest <= shellStreams.Keys && AllHold(queues, fed, owner.Keys)
        invariant fed == Told(old(fed), shellStreams.Keys - rest, message)
        decreases rest
      {
        var id :| id in rest;
        CloseStream(id, message);
        rest := rest - {id};
      }
    }

    /** Every open queue is told, keeping its queued events; nothing stays registered, and
        what was buffered for shells not registered yet is gone without anyone told. */
    method FailAll(message: string)
      requires Valid()
      modifies this, owner.Keys
      ensures Valid() && queues == old(queues) && owner == old(owner)
      ensures State() == Broken(old(State()), message)
    {
      hide Given, Queue.Valid, Consistent, Holds, Linked, AllHold, Told, Forgotten;
      OpenAreFed(queues, owner, shellStreams, fed);
      ghost var d := State();
      CloseStreams(message);
      SameKeysTold(d.queues, d.streams, message);
      NoneLinked(queues, owner, shellStreams);
      Forget(d);
      assert State() == Broken(d, message);
      Failing(d, message);
    }

    method Forget(ghost d: Delivery)
      requires AllHold(queues, fed, owner.Keys)
      modifies this`shellStreams, this`bufferedShellEvents, this`dropped
      ensures AllHold(queues, fed, owner.Keys)
      ensures shellStreams == map[] && bufferedShellEvents == map[] && dropped == Forgotten(d)
    {
      hide Holds;
      shellStreams, bufferedShellEvents, dropped := map[], map[], Forgotten(d);
    }

    /** The consumer of a shell asks its queue for the next event. */
    method NextEvent(ghost id: ShellId, queue: Queue) returns (call: nat)
      requires Valid() && id in queues && queues[id] == queue
      modifies queue
      ensures Valid() && call == old(|queue.results| + |queue.waiters|)
    {
      Unlink(queues, owner, shellStreams, id);
      hide Given, Queue.Valid, Consistent, Linked;
      call := queue.Next();
      hide Holds;
      forall o | o in queues ensures Holds(queues[o], fed[o]) { if o != id { assert old(Holds(queues[o], fed[o])); } }
    }
  }

  lemma OpenAreFed(queues: map<ShellId, Queue>, owner: map<Queue, ShellId>, streams: map<ShellId, Queue>,
                   fed: map<ShellId, Fed>)
    requires Linked(queues, owner, streams) && queues.Keys == fed.Keys
    ensures streams.Keys <= fed.Keys
  {}

  lemma SameKeysTold(queues: map<ShellId, Fed>, open: set<ShellId>, message: string)
    ensures Told(queues, open, message).Keys == queues.Keys
  {}

  lemma NoneLinked(queues: map<ShellId, Queue>, owner: map<Queue, ShellId>, streams: map<ShellId, Queue>)
    requires Linked(queues, owner, streams)
    ensures Linked(queues, owner, map[])
  {}

  datatype Event = Arrives(event: ShellEvent) | Registers(id: ShellId) | Asks(id: ShellId) | Fails(message: string)

  // ---- what a sequence of events says ----

  predicate Concerns(e: Event, id: ShellId) { e.Arrives? && e.event.shell == id }

  function ArrivalsOf(events: seq<Event>, id: ShellId): seq<ShellEvent> {
    if events == [] then []
    else
      var init, last := ArrivalsOf(events[..|events| - 1], id), events[|events| - 1];
      if Concerns(last, id) then init + [last.event] else init
  }

  ghost predicate RegistersIn(events: seq<Event>, id: ShellId) {
    exists i :: 0 <= i < |events| && events[i] == Registers(id)
  }

  /** How many arrivals a failure discarded before the shell was registered. */
  ghost function LostOf(events: seq<Event>, id: ShellId): (n: nat)
    ensures n <= |ArrivalsOf(events, id)|
  {
    if events == [] then 0
    else
      var init := events[..|events| - 1];
      if events[|events| - 1].Fails? && !RegistersIn(init, id) then |ArrivalsOf(init, id)| else LostOf(init, id)
  }

  /** A failure struck at `j`, after an arrival for the shell and before its registration. */
  ghost predicate StruckEarly(events: seq<Event>, id: ShellId, i: nat, j: nat) {
    i < j < |events| && Concerns(events[i], id) && events[j].Fails? && !RegistersIn(events[..j], id)
  }

  ghost predicate FailsAfterRegistration(events: seq<Event>, id: ShellId) {
    exists j :: 0 <= j < |events| && events[j].Fails? && RegistersIn(events[..j], id)
  }

  lemma {:induction false} SomeArrival(events: seq<Event>, id: ShellId)
    ensures ArrivalsOf(events, id) != [] <==> exists i :: 0 <= i < |events| && Concerns(events[i], id)
  {
    if events != [] {
      var n := |events| - 1;
      SomeArrival(events[..n], id);
      if i :| 0 <= i < n && Concerns(events[..n][i], id) { assert Concerns(events[i], id); }
      if i :| 0 <= i < |events| && Concerns(events[i], id) { assert i < n ==> Concerns(events[..n][i], id); }
    }
  }

  lemma StruckPrefix(events: seq<Event>, id: ShellId, i: nat, j: nat)
    requires events != [] && j < |events| - 1
    ensures StruckEarly(events[..|events| - 1], id, i, j) <==> StruckEarly(events, id, i, j)
  {
    assert events[..|events| - 1][..j] == events[..j];
  }

  /** Nothing is missing if and only if no failure came between an arrival for the shell
      and its registration. */
  lemma {:induction false} NothingLostIff(events: seq<Event>, id: ShellId)
    ensures LostOf(events, id) == 0 <==> !exists i: nat, j: nat :: StruckEarly(events, id, i, j)
  {
    if events != [] {
      var n := |events| - 1;
      var init := events[..n];
      NothingLostIff(init, id);
      SomeArrival(init, id);
      hide ArrivalsOf, RegistersIn, Concerns;
      if i: nat, j: nat :| StruckEarly(init, id, i, j) {
        StruckPrefix(events, id, i, j);
        LostStays(init, events[n], id);
      }
      if i: nat, j: nat :| StruckEarly(events, id, i, j) {
        if j < n { StruckPrefix(events, id, i, j); LostStays(init, events[n], id); }
        else { assert init[i] == events[i]; }
      }
      if LostOf(init, id) == 0 && LostOf(events, id) != 0 {
        var i :| 0 <= i < |init| && Concerns(init[i], id);
        assert StruckEarly(events, id, i, n);
      }
    }
  }

  lemma LostStays(events: seq<Event>, e: Event, id: ShellId)
    ensures LostOf(events, id) > 0 ==> LostOf(events + [e], id) > 0
  {
    assert (events + [e])[..|events|] == events;
  }

  /** The transport's bookkeeping is what the events so far say. */
  ghost predicate Tracks(d: Delivery, events: seq<Event>) {
    forall id: ShellId :: TracksOne(d, events, id)
  }

  ghost predicate TracksOne(d: Delivery, events: seq<Event>, id: ShellId) {
    && At(d.arrived, id) == ArrivalsOf(events, id)
    && Dropped(d, id) == LostOf(events, id)
    && (id in d.queues <==> RegistersIn(events, id))
    && (id in d.queues && d.queues[id].closed.Some? ==> FailsAfterRegistration(events, id))
    && (FailsAfterRegistration(events, id) ==> id in d.queues && id !in d.streams)
  }

  lemma EventNext(events: seq<Event>, e: Event, id: ShellId)
    ensures ArrivalsOf(events + [e], id) == if Concerns(e, id) then ArrivalsOf(events, id) + [e.event]
              else ArrivalsOf(events, id)
    ensures RegistersIn(events + [e], id) <==> RegistersIn(events, id) || e == Registers(id)
    ensures LostOf(events + [e], id) ==
              if e.Fails? && !RegistersIn(events, id) then |ArrivalsOf(events, id)| else LostOf(events, id)
    ensures FailsAfterRegistration(events + [e], id) <==>
              FailsAfterRegistration(events, id) || (e.Fails? && RegistersIn(events, id))
  {
    var all := events + [e];
    assert all[..|events|] == events && all[|events|] == e;
    if i :| 0 <= i < |events| && events[i] == Registers(id) { assert all[i] == Registers(id); }
    if FailsAfterRegistration(events, id) {
      var j :| 0 <= j < |events| && events[j].Fails? && RegistersIn(events[..j], id);
      assert all[j].Fails? && all[..j] == events[..j];
    }
    if FailsAfterRegistration(all, id) {
      var j :| 0 <= j < |all| && all[j].Fails? && RegistersIn(all[..j], id);
      if j < |events| { assert events[j].Fails? && all[..j] == events[..j]; }
    }
  }

  /** What each event does to what queues have been given. */
  ghost predicate Reacts(d: Delivery, d': Delivery, e: Event) {
    match e
    case Arrives(event) =>
      d' == if event.shell in d.streams && event.shell in d.queues then Passed(d, event) else Kept(d, event)
    case Registers(id) => d' == if id in d.queues then d else Registered(d, id)
    case Asks(_) => d' == d
    case Fails(message) => d' == Broken(d, message)
  }

  lemma TracksNext(d: Delivery, d': Delivery, events: seq<Event>, e: Event)
    requires Tracks(d, events) && Reacts(d, d', e)
    ensures Tracks(d', events + [e])
  {
    hide TracksOne, Reacts;
    forall id: ShellId ensures TracksOne(d', events + [e], id) {
      assert TracksOne(d, events, id);
      OneNext(d, d', events, e, id);
    }
  }

  lemma OneNext(d: Delivery, d': Delivery, events: seq<Event>, e: Event, id: ShellId)
    requires TracksOne(d, events, id) && Reacts(d, d', e)
    ensures TracksOne(d', events + [e], id)
  {
    EventNext(events, e, id);
    hide ArrivalsOf, LostOf, RegistersIn, FailsAfterRegistration;
  }

  lemma NothingTracked()
    ensures Tracks(Delivery({}, map[], map[], map[], map[]), [])
  {}

  /** The consumer has been given a beginning of what is due, the rest being queued, and
      a failure after the registration has ended its queue, if the exit had not. */
  ghost predicate Delivered(q: Queue, events: seq<Event>, id: ShellId) reads q {
    var due := ArrivalsOf(events, id)[LostOf(events, id)..];
    && q.Valid() && Given(q.results) + q.items == q.pushed <= due
    && (q.pushed == due || Ended(Fed(q.pushed, q.closed)))
    && (q.closed.Some? ==> FailsAfterRegistration(events, id))
    && (FailsAfterRegistration(events, id) ==> Ended(Fed(q.pushed, q.closed)))
  }

  lemma DeliveredBy(t: Transport, events: seq<Event>, id: ShellId)
    requires t.Valid() && Tracks(t.State(), events) && id in t.queues
    ensures Delivered(t.queues[id], events, id)
  {
    hide ArrivalsOf, LostOf, FailsAfterRegistration, RegistersIn;
    assert TracksOne(t.State(), events, id);
    assert Holds(t.queues[id], t.fed[id]) && Served(t.State(), id);
  }

  lemma HandedIffRegistered(t: Transport, events: seq<Event>, id: ShellId)
    requires t.Valid() && Tracks(t.State(), events)
    ensures id in t.queues <==> RegistersIn(events, id)
  {
    hide ArrivalsOf, LostOf, FailsAfterRegistration, RegistersIn;
    assert TracksOne(t.State(), events, id);
    assert t.queues.Keys == t.fed.Keys;
  }

  method Happens(t: Transport, e: Event, handed: map<ShellId, Queue>) returns (handed': map<ShellId, Queue>)
    requires t.Valid() && handed == t.queues
    modifies t, t.owner.Keys
    ensures t.Valid() && handed' == t.queues && fresh(t.owner.Keys - old(t.owner.Keys))
    ensures Reacts(old(t.State()), t.State(), e)
  {
    handed' := handed;
    Unlink(t.queues, t.owner, t.shellStreams, if e.Arrives? then e.event.shell else if e.Fails? then 0 else e.id);
    match e
    case Arrives(event) => t.PushShellEvent(event);
    case Registers(id) =>
      if id !in handed {
        var q := t.RegisterShell(id);
        handed' := handed[id := q];
      }
    case Asks(id) =>
      if id in handed { var _ := t.NextEvent(id, handed[id]); }
    case Fails(message) => t.FailAll(message);
  }

  /** Any interleaving of arrivals, registrations, `next()` calls and failures: at every
      moment each consumer has been given, in arrival order and once each, a beginning of
      what arrived for its shell and was not lost, the rest being queued; nothing of it is
      missing unless the shell has exited or a failure came after the registration, and
      every such failure is told to the consumer or finds the exit already given. */
  method Interleave(t: Transport, events: seq<Event>) returns (handed: map<ShellId, Queue>)
    requires t.Valid() && t.queues == map[] && t.owner == map[]
    requires t.State() == Delivery({}, map[], map[], map[], map[])
    modifies t
    ensures t.Valid() && handed == t.queues && fresh(t.owner.Keys)
    ensures forall id :: id in handed <==> RegistersIn(events, id)
    ensures forall id :: id in handed ==> Delivered(handed[id], events, id)
  {
    hide Tracks, Reacts, Transport.Valid;
    handed := map[];
    NothingTracked();
    assert events[..0] == [];
    for k := 0 to |events|
      invariant t.Valid() && handed == t.queues && fresh(t.owner.Keys)
      invariant Tracks(t.State(), events[..k])
    {
      ghost var d := t.State();
      handed := Happens(t, events[k], handed);
      TracksNext(d, t.State(), events[..k], events[k]);
      assert events[..k] + [events[k]] == events[..k + 1];
    }
    assert events[..|events|] == events;
    forall id | id in handed ensures Delivered(handed[id], events, id) { DeliveredBy(t, events, id); }
    forall id ensures id in handed <==> RegistersIn(events, id) { HandedIffRegistered(t, events, id); }
  }

  /** Events can be lost without a word: one that arrives before a failure, for a shell
      registered after it, is never given, and the shell's queue is open and empty. */
  method LostEvent(e: ShellEvent, message: string) returns (queue: Queue)
    ensures fresh(queue) && queue.Valid() && queue.pushed == [] && queue.closed == None
    ensures LostOf([Arrives(e), Fails(message), Registers(e.shell)], e.shell) == 1
  {
    var t := new Transport();
    t.PushShellEvent(e);
    t.FailAll(message);
    queue := t.RegisterShell(e.shell);
    LostHere(e, message);
  }

  lemma LostHere(e: ShellEvent, message: string)
    ensures LostOf([Arrives(e), Fails(message), Registers(e.shell)], e.shell) == 1
  {
    var one, two := [Arrives(e)], [Arrives(e), Fails(message)];
    assert [] + [Arrives(e)] == one && one + [Fails(message)] == two;
    assert two + [Registers(e.shell)] == [Arrives(e), Fails(message), Registers(e.shell)];
    EventNext([], Arrives(e), e.shell);
    EventNext(one, Fails(message), e.shell);
    EventNext(two, Registers(e.shell), e.shell);
    assert !RegistersIn([], e.shell) && ArrivalsOf([], e.shell) == [];
  }
}
