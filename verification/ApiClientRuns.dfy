/** What the API client's channels carry over every run, whatever the server sends: each is
    told by the events received since it was opened, without the client's maps. */
module ApiClientRuns {
  import opened Wrappers
  import opened GuestRpc
  import opened ApiClient

  /** Everything that can happen at the client. */
  datatype ClientOp =
    | StartRequest(request: ApiId)
    | StartExec(request: ApiId)
    | DropExec(request: ApiId)
    | StartShell(shell: Uuid)
    | Replays(shell: Uuid)
    | Receive(event: BoxEvent)
    | Lose(message: Bytes)

  /** The client, and the events each task that takes up a shell has yet to replay. */
  datatype Tasks = Tasks(client: Client, replaying: map<Uuid, seq<BoxEvent>>)

  const Empty := Tasks(Client({}, map[], {}, map[], {}, map[], map[]), map[])

  function Stepped(c: Tasks, op: ClientOp): (c': Tasks)
    requires Plugged(c.client)
    ensures Plugged(c'.client)
  {
    match op
    case StartShell(x) => Tasks(ShellTaken(c.client, x), c.replaying[x := Kept(c.client, x)])
    case Replays(x) =>
      if x !in c.replaying || c.replaying[x] == [] then c
      else Tasks(ShellReplayed(c.client, x, c.replaying[x][0]), c.replaying[x := c.replaying[x][1..]])
    case _ => c.(client := Moved(c.client, op))
  }

  function Moved(c: Client, op: ClientOp): (c': Client)
    requires Plugged(c)
    ensures Plugged(c')
  {
    match op
    case StartRequest(r) => c.(pending := c.pending + {r}, answers := c.answers[r := []])
    case StartExec(r) => c.(execs := c.execs + {r}, execChan := c.execChan[r := []])
    case DropExec(r) => c.(execs := c.execs - {r})
    case Receive(event) => Dispatched(c, event)
    case Lose(message) => GivenUp(c, message)
    case _ => c
  }

  function TasksAfter(ops: seq<ClientOp>): (c: Tasks)
    ensures Plugged(c.client)
  {
    if ops == [] then Empty else Stepped(TasksAfter(ops[..|ops| - 1]), ops[|ops| - 1])
  }

  function ClientAfter(ops: seq<ClientOp>): (c: Client)
    ensures Plugged(c)
  {
    TasksAfter(ops).client
  }

  predicate Starts(op: ClientOp, r: ApiId) {
    (op.StartRequest? || op.StartExec?) && op.request == r
  }

  /** Request ids are counted up, shell ids are UUIDs: none is used twice. */
  ghost predicate FreshIds(ops: seq<ClientOp>) {
    && (forall i, j, r :: 0 <= i < j < |ops| && Starts(ops[i], r) ==> !Starts(ops[j], r))
    && (forall i, j :: 0 <= i < j < |ops| && ops[i].StartShell? ==> ops[i] != ops[j])
  }

  // ---- what an operation tells whom ----

  /** The message with which everything ends. */
  function Fatal(op: ClientOp): Option<Bytes> {
    match op
    case Lose(message) => Some(message)
    case Receive(ApiError(None, message)) => Some(message)
    case _ => None
  }

  function ToExec(op: ClientOp, r: ApiId): seq<BoxEvent> {
    if Fatal(op).Some? then [ApiError(None, Fatal(op).value)]
    else match op
      case Receive(ExecOut(id, stream, data)) => if id == r then [op.event] else []
      case Receive(ExecDone(id, status)) => if id == r then [op.event] else []
      case Receive(ApiError(cause, message)) => if cause == Some(r) then [op.event] else []
      case _ => []
  }

  function ToCaller(op: ClientOp, r: ApiId): seq<Result<Bytes, Bytes>> {
    if Fatal(op).Some? then [Err(Fatal(op).value)]
    else match op
      case Receive(Response(id, body)) => if id == r then [Ok(body)] else []
      case Receive(ApiError(cause, message)) => if cause == Some(r) then [Err(message)] else []
      case _ => []
  }

  function ToShell(op: ClientOp, x: Uuid): seq<BoxEvent> {
    if Fatal(op).Some? then [ApiError(None, Fatal(op).value)] else OfShell(op, x)
  }

  function OfShell(op: ClientOp, x: Uuid): seq<BoxEvent> {
    match op
    case Receive(ShellOut(shell, data)) => if shell == x then [op.event] else []
    case Receive(ShellEnd(shell, code)) => if shell == x then [op.event] else []
    case _ => []
  }

  /** All that was told from some point of a run on. */
  function ExecHeard(ops: seq<ClientOp>, from: nat, r: ApiId): seq<BoxEvent>
    requires from <= |ops|
  {
    if |ops| == from then [] else ExecHeard(ops[..|ops| - 1], from, r) + ToExec(ops[|ops| - 1], r)
  }

  function Replies(ops: seq<ClientOp>, from: nat, r: ApiId): seq<Result<Bytes, Bytes>>
    requires from <= |ops|
  {
    if |ops| == from then [] else Replies(ops[..|ops| - 1], from, r) + ToCaller(ops[|ops| - 1], r)
  }

  function ShellHeard(ops: seq<ClientOp>, from: nat, x: Uuid): seq<BoxEvent>
    requires from <= |ops|
  {
    if |ops| == from then [] else ShellHeard(ops[..|ops| - 1], from, x) + ToShell(ops[|ops| - 1], x)
  }

  /** What is kept for a shell nobody has taken up: all since everything last ended. */
  function ShellKept(ops: seq<ClientOp>, x: Uuid): seq<BoxEvent> {
    if ops == [] then []
    else if Fatal(ops[|ops| - 1]).Some? then []
    else ShellKept(ops[..|ops| - 1], x) + OfShell(ops[|ops| - 1], x)
  }

  predicate EndsShell(event: BoxEvent) { event.ShellEnd? || event.ApiError? }

  /** Everything up to the first event that ends the stream, and that event. */
  ghost predicate Cut(t: seq<BoxEvent>, s: seq<BoxEvent>, ends: BoxEvent -> bool) {
    && t <= s
    && (forall i :: 0 <= i < |t| - 1 ==> !ends(t[i]))
    && (t == s || Ended(t, ends))
  }

  ghost predicate Ended(t: seq<BoxEvent>, ends: BoxEvent -> bool) {
    t != [] && ends(t[|t| - 1])
  }

  lemma CutNext(t: seq<BoxEvent>, s: seq<BoxEvent>, more: seq<BoxEvent>, ends: BoxEvent -> bool)
    requires Cut(t, s, ends) && |more| <= 1
    ensures Ended(t, ends) ==> Cut(t, s + more, ends)
    ensures !Ended(t, ends) ==> Cut(t + more, s + more, ends)
  {
    assert s + [] == s && t + [] == t;
  }

  // ---- command streams ----

  lemma ExecStep(t: Tasks, op: ClientOp, r: ApiId)
    requires var c := t.client;
             Plugged(c) && r in c.execChan && r !in c.answers && !Starts(op, r) && op != DropExec(r)
    ensures var c, c' := t.client, Stepped(t, op).client;
            && r in c'.execChan && r !in c'.answers
            && c'.execChan[r] == c.execChan[r] + (if r in c.execs then ToExec(op, r) else [])
            && (r in c'.execs <==> r in c.execs && !Ended(ToExec(op, r), e => EndsExec(e, r)))
  {
    var c := t.client;
    assert c.execChan[r] + [] == c.execChan[r];
    if op.Receive? {
      DispatchedExec(c, op.event, r);
      hide Dispatched;
    }
  }

  lemma DispatchedExec(c: Client, event: BoxEvent, r: ApiId)
    requires Plugged(c) && r in c.execChan && r !in c.answers
    ensures var c', op := Dispatched(c, event), Receive(event);
            && r in c'.execChan && r !in c'.answers
            && c'.execChan[r] == c.execChan[r] + (if r in c.execs then ToExec(op, r) else [])
            && (r in c'.execs <==> r in c.execs && !Ended(ToExec(op, r), e => EndsExec(e, r)))
  {
    assert c.execChan[r] + [] == c.execChan[r];
  }

  /** Requests and commands have different ids. */
  lemma {:induction false} NotBoth(ops: seq<ClientOp>, k: nat)
    requires FreshIds(ops) && k < |ops| && ops[k].StartExec?
    ensures ops[k].request !in ClientAfter(ops).answers
  {
    var r := ops[k].request;
    assert Starts(ops[k], r);
    forall i | 0 <= i < |ops| ensures ops[i] != StartRequest(r) {
      assert i != k ==> !Starts(ops[i], r);
    }
    NeverAsked(ops, r);
  }

  lemma {:induction false} NeverAsked(ops: seq<ClientOp>, r: ApiId)
    requires forall i :: 0 <= i < |ops| ==> ops[i] != StartRequest(r)
    ensures r !in ClientAfter(ops).answers
  {
    if ops != [] {
      var n := |ops| - 1;
      NeverAsked(ops[..n], r);
      SameAnswers(TasksAfter(ops[..n]), ops[n]);
      hide Stepped;
    }
  }

  lemma SameAnswers(t: Tasks, op: ClientOp)
    requires Plugged(t.client)
    ensures Stepped(t, op).client.answers.Keys == t.client.answers.Keys + if op.StartRequest? then {op.request} else {}
  {
    if op.Receive? {
      DispatchedAnswers(t.client, op.event);
      hide Dispatched;
    }
  }

  lemma DispatchedAnswers(c: Client, event: BoxEvent)
    requires Plugged(c)
    ensures Dispatched(c, event).answers.Keys == c.answers.Keys
  {}

  lemma FreshPrefix(ops: seq<ClientOp>, n: nat)
    requires FreshIds(ops) && n <= |ops|
    ensures FreshIds(ops[..n])
  {}

  /** A command's channel holds exactly the events told it since it was opened, up to and
      with the first that ends it, and is open until then. */
  lemma {:induction false} ExecLaw(ops: seq<ClientOp>, k: nat, r: ApiId)
    requires FreshIds(ops) && k < |ops| && ops[k] == StartExec(r) && forall i :: k < i < |ops| ==> ops[i] != DropExec(r)
    ensures var c, ends := ClientAfter(ops), (e: BoxEvent) => EndsExec(e, r);
            && r in c.execChan && Cut(c.execChan[r], ExecHeard(ops, k + 1, r), ends)
            && (r in c.execs <==> !Ended(c.execChan[r], ends))
  {
    var n, ends := |ops| - 1, (e: BoxEvent) => EndsExec(e, r);
    if n > k {
      var c, op := ClientAfter(ops[..n]), ops[n];
      FreshPrefix(ops, n);
      ExecLaw(ops[..n], k, r);
      NotBoth(ops[..n], k);
      assert Starts(ops[k], r);
      ExecStep(TasksAfter(ops[..n]), op, r);
      ToldOnce(op, r);
      hide Stepped, ToExec, EndsExec;
      CutNext(c.execChan[r], ExecHeard(ops[..n], k + 1, r), ToExec(op, r), ends);
      EndedNext(c.execChan[r], ToExec(op, r), ends);
    }
  }

  lemma ToldOnce(op: ClientOp, r: ApiId)
    ensures |ToExec(op, r)| <= 1 && |ToCaller(op, r)| <= 1 && |ToShell(op, r)| <= 1
  {}

  lemma EndedNext(t: seq<BoxEvent>, more: seq<BoxEvent>, ends: BoxEvent -> bool)
    requires |more| <= 1
    ensures Ended(t + more, ends) <==> if more == [] then Ended(t, ends) else Ended(more, ends)
    ensures t + [] == t && !Ended([], ends)
  {}

  // ---- requests ----

  lemma CallerStep(t: Tasks, op: ClientOp, r: ApiId)
    requires var c := t.client; Plugged(c) && r in c.answers && !Starts(op, r)
    ensures var c, c' := t.client, Stepped(t, op).client;
            && r in c'.answers
            && c'.answers[r] == c.answers[r] + (if r in c.pending then ToCaller(op, r) else [])
            && (r in c'.pending <==> r in c.pending && ToCaller(op, r) == [])
  {
    var c := t.client;
    assert c.answers[r] + [] == c.answers[r];
    if op.Receive? {
      DispatchedCaller(c, op.event, r);
      hide Dispatched;
    }
  }

  lemma DispatchedCaller(c: Client, event: BoxEvent, r: ApiId)
    requires Plugged(c) && r in c.answers
    ensures var c', op := Dispatched(c, event), Receive(event);
            && r in c'.answers
            && c'.answers[r] == c.answers[r] + (if r in c.pending then ToCaller(op, r) else [])
            && (r in c'.pending <==> r in c.pending && ToCaller(op, r) == [])
  {
    assert c.answers[r] + [] == c.answers[r];
  }

  /** A request is answered by the first reply to it, or by what ended the connection, and
      by nothing else; until then it is waiting. */
  lemma {:induction false} AnswerLaw(ops: seq<ClientOp>, k: nat, r: ApiId)
    requires FreshIds(ops) && k < |ops| && ops[k] == StartRequest(r)
    ensures var c, replies := ClientAfter(ops), Replies(ops, k + 1, r);
            && r in c.answers && c.answers[r] == (if replies == [] then [] else [replies[0]])
            && (r in c.pending <==> replies == [])
  {
    var n := |ops| - 1;
    if n > k {
      FreshPrefix(ops, n);
      AnswerLaw(ops[..n], k, r);
      assert Starts(ops[k], r);
      CallerStep(TasksAfter(ops[..n]), ops[n], r);
      ToldOnce(ops[n], r);
      hide Stepped, ToCaller;
    }
  }

  // ---- shells ----

  /** The channel of a shell that has been taken up: what is told it, and what is replayed. */
  lemma ShellStep(t: Tasks, op: ClientOp, x: Uuid)
    requires Plugged(t.client) && x in t.client.shellChan && x in t.replaying && op != StartShell(x)
    ensures var c, t' := t.client, Stepped(t, op);
            var replays := op == Replays(x) && t.replaying[x] != [];
            && x in t'.client.shellChan && x in t'.replaying
            && t'.client.shellChan[x] == c.shellChan[x]
                 + (if replays then [t.replaying[x][0]] else if x in c.shells then ToShell(op, x) else [])
            && t'.replaying[x] == (if replays then t.replaying[x][1..] else t.replaying[x])
            && (x in t'.client.shells <==> x in c.shells && !Ended(ToShell(op, x), EndsShell))
  {
    assert t.client.shellChan[x] + [] == t.client.shellChan[x];
    if op.Receive? {
      DispatchedShell(t.client, op.event, x);
      hide Dispatched;
    }
  }

  lemma DispatchedShell(c: Client, event: BoxEvent, x: Uuid)
    requires Plugged(c) && x in c.shellChan
    ensures var c', op := Dispatched(c, event), Receive(event);
            && x in c'.shellChan
            && c'.shellChan[x] == c.shellChan[x] + (if x in c.shells then ToShell(op, x) else [])
            && (x in c'.shells <==> x in c.shells && !Ended(ToShell(op, x), EndsShell))
  {
    assert c.shellChan[x] + [] == c.shellChan[x];
  }

  lemma KeptStep(t: Tasks, op: ClientOp, x: Uuid)
    requires Plugged(t.client) && x !in t.client.shells && op != StartShell(x)
    ensures var t' := Stepped(t, op);
            && x !in t'.client.shells
            && Kept(t'.client, x) == if Fatal(op).Some? then [] else Kept(t.client, x) + OfShell(op, x)
  {
    assert Kept(t.client, x) + [] == Kept(t.client, x);
    if op.Receive? {
      DispatchedKept(t.client, op.event, x);
      hide Dispatched;
    }
  }

  lemma DispatchedKept(c: Client, event: BoxEvent, x: Uuid)
    requires Plugged(c) && x !in c.shells
    ensures var c', op := Dispatched(c, event), Receive(event);
            x !in c'.shells && Kept(c', x) == if Fatal(op).Some? then [] else Kept(c, x) + OfShell(op, x)
  {
    assert Kept(c, x) + [] == Kept(c, x);
  }

  lemma {:induction false} KeptIs(ops: seq<ClientOp>, x: Uuid)
    requires forall i :: 0 <= i < |ops| ==> ops[i] != StartShell(x)
    ensures x !in ClientAfter(ops).shells && Kept(ClientAfter(ops), x) == ShellKept(ops, x)
  {
    if ops != [] {
      var n := |ops| - 1;
      KeptIs(ops[..n], x);
      KeptStep(TasksAfter(ops[..n]), ops[n], x);
      hide Stepped, OfShell;
    }
  }

  /** Two sequences shuffled together, each in its own order. */
  predicate Merges(c: seq<BoxEvent>, a: seq<BoxEvent>, b: seq<BoxEvent>) {
    if c == [] then a == [] && b == []
    else
      var init, last := c[..|c| - 1], c[|c| - 1];
      || (a != [] && a[|a| - 1] == last && Merges(init, a[..|a| - 1], b))
      || (b != [] && b[|b| - 1] == last && Merges(init, a, b[..|b| - 1]))
  }

  lemma MergesNext(c: seq<BoxEvent>, a: seq<BoxEvent>, b: seq<BoxEvent>, e: BoxEvent)
    requires Merges(c, a, b)
    ensures Merges(c + [e], a + [e], b) && Merges(c + [e], a, b + [e])
  {
    assert (c + [e])[..|c|] == c && (a + [e])[..|a|] == a && (b + [e])[..|b|] == b;
  }

  lemma {:induction false} MergesOne(c: seq<BoxEvent>, a: seq<BoxEvent>)
    requires Merges(c, a, [])
    ensures c == a
  {
    if c != [] {
      MergesOne(c[..|c| - 1], a[..|a| - 1]);
      assert c == c[..|c| - 1] + [c[|c| - 1]] && a == a[..|a| - 1] + [a[|a| - 1]];
    }
  }

  /** A shell `x` taken up at step `k`: its channel is a shuffle of what was kept for it, as
      far as replayed, and of `t`, what was told it since, cut at its end. */
  ghost predicate ShellIs(ops: seq<ClientOp>, k: nat, x: Uuid, done: nat, t: seq<BoxEvent>)
    requires k < |ops|
  {
    var s, kept := TasksAfter(ops), ShellKept(ops[..k], x);
    && x in s.client.shellChan && x in s.replaying && done <= |kept| && s.replaying[x] == kept[done..]
    && Merges(s.client.shellChan[x], kept[..done], t)
    && Cut(t, ShellHeard(ops, k + 1, x), EndsShell) && (x in s.client.shells <==> !Ended(t, EndsShell))
  }

  lemma OneStart(ops: seq<ClientOp>, k: nat, x: Uuid)
    requires FreshIds(ops) && k < |ops| && ops[k] == StartShell(x)
    ensures forall i :: 0 <= i < |ops| && i != k ==> ops[i] != StartShell(x)
  {}

  lemma ShellStarts(ops: seq<ClientOp>, x: Uuid)
    requires ops != [] && ops[|ops| - 1] == StartShell(x)
    requires forall i :: 0 <= i < |ops| - 1 ==> ops[i] != StartShell(x)
    ensures ShellIs(ops, |ops| - 1, x, 0, [])
  {
    KeptIs(ops[..|ops| - 1], x);
    hide ShellKept, Kept;
    var kept := ShellKept(ops[..|ops| - 1], x);
    assert kept[0..] == kept && kept[..0] == [];
  }

  /** One more operation. */
  lemma {:induction false} ShellNext(ops: seq<ClientOp>, k: nat, x: Uuid, done: nat, t: seq<BoxEvent>)
    returns (done': nat, t': seq<BoxEvent>)
    requires k < |ops| - 1 && ops[|ops| - 1] != StartShell(x) && ShellIs(ops[..|ops| - 1], k, x, done, t)
    ensures ShellIs(ops, k, x, done', t')
    ensures ToShell(ops[|ops| - 1], x) == [] ==> t' == t
    ensures done == |ShellKept(ops[..k], x)| ==> done' == done
  {
    hide Stepped, ToShell, EndsShell, ShellKept, Cut, Ended, Merges;
    var n := |ops| - 1;
    var s, op := TasksAfter(ops[..n]), ops[n];
    assert ops[..n][..k] == ops[..k];
    var kept := ShellKept(ops[..k], x);
    ShellStep(s, op, x);
    done', t' := done, t;
    if op == Replays(x) && s.replaying[x] != [] {
      done' := done + 1;
      MergesNext(s.client.shellChan[x], kept[..done], t, kept[done]);
      assert kept[..done] + [kept[done]] == kept[..done + 1];
      NothingTold(x);
      assert ShellHeard(ops[..n], k + 1, x) + [] == ShellHeard(ops[..n], k + 1, x);
    } else {
      t' := ToldNext(ops, k, x, done, t);
    }
  }

  lemma NothingTold(x: Uuid)
    ensures ToShell(Replays(x), x) == [] && !Ended([], EndsShell)
  {}

  lemma {:induction false} ToldNext(ops: seq<ClientOp>, k: nat, x: Uuid, done: nat, t: seq<BoxEvent>)
    returns (t': seq<BoxEvent>)
    requires k < |ops| - 1 && ops[|ops| - 1] != StartShell(x) && ShellIs(ops[..|ops| - 1], k, x, done, t)
    requires !(ops[|ops| - 1] == Replays(x) && TasksAfter(ops[..|ops| - 1]).replaying[x] != [])
    ensures ShellIs(ops, k, x, done, t') && (ToShell(ops[|ops| - 1], x) == [] ==> t' == t)
    ensures t <= t' && ClientAfter(ops).shellChan[x] == ClientAfter(ops[..|ops| - 1]).shellChan[x] + t'[|t|..]
  {
    hide Stepped, ToShell, EndsShell, ShellKept, Cut, Ended, Merges;
    var n := |ops| - 1;
    var s, op := TasksAfter(ops[..n]), ops[n];
    assert ops[..n][..k] == ops[..k];
    ShellStep(s, op, x);
    ToldOnce(op, x);
    var told := ToShell(op, x);
    CutNext(t, ShellHeard(ops[..n], k + 1, x), told, EndsShell);
    EndedNext(t, told, EndsShell);
    t' := if x in s.client.shells then t + told else t;
    var chan, kept := s.client.shellChan[x], ShellKept(ops[..k], x);
    assert chan + [] == chan;
    if x in s.client.shells && told != [] {
      assert told == [told[0]];
      MergesNext(chan, kept[..done], t, told[0]);
    }
  }

  /** A shell's channel holds exactly what was kept for it, as far as replayed, and the
      events told it since it was taken up, up to and with the first that ends it, each in
      their order; the two may be shuffled. */
  lemma {:induction false} ShellLaw(ops: seq<ClientOp>, k: nat, x: Uuid) returns (done: nat, t: seq<BoxEvent>)
    requires FreshIds(ops) && k < |ops| && ops[k] == StartShell(x)
    ensures ShellIs(ops, k, x, done, t)
  {
    hide ShellIs, FreshIds;
    var n := |ops| - 1;
    OneStart(ops, k, x);
    if n == k {
      done, t := 0, [];
      ShellStarts(ops, x);
    } else {
      FreshPrefix(ops, n);
      done, t := ShellLaw(ops[..n], k, x);
      done, t := ShellNext(ops, k, x, done, t);
    }
  }

  /** Nothing was told a shell until all that was kept for it had been replayed. */
  ghost predicate QuietReplay(ops: seq<ClientOp>, k: nat, m: nat, x: Uuid) {
    && k < m <= |ops| && x in TasksAfter(ops[..m]).replaying && TasksAfter(ops[..m]).replaying[x] == []
    && forall i :: k < i < m ==> ToShell(ops[i], x) == []
  }

  /** Then its events are in order: what was kept, then what was told. */
  lemma {:induction false} ShellInOrder(ops: seq<ClientOp>, k: nat, m: nat, x: Uuid) returns (t: seq<BoxEvent>)
    requires FreshIds(ops) && k < |ops| && ops[k] == StartShell(x) && QuietReplay(ops, k, m, x)
    ensures ShellIs(ops, k, x, |ShellKept(ops[..k], x)|, t)
    ensures x in ClientAfter(ops).shellChan && ClientAfter(ops).shellChan[x] == ShellKept(ops[..k], x) + t
    decreases |ops|
  {
    hide ShellKept, ShellIs, FreshIds, ShellHeard, ClientAfter, TasksAfter, ToShell;
    if |ops| == m {
      assert ops[..m] == ops;
      QuietSoFar(ops, k, x);
      var done;
      done, t := ShellLaw(ops, k, x);
      ReplayedInOrder(ops, k, x, done, t);
    } else {
      var n := |ops| - 1;
      FreshPrefix(ops, n);
      assert ops[..n][..m] == ops[..m] && ops[..n][..k] == ops[..k];
      OneStart(ops, k, x);
      var u := ShellInOrder(ops[..n], k, m, x);
      NothingLeft(ops[..n], k, x, u);
      t := ToldNext(ops, k, x, |ShellKept(ops[..k], x)|, u);
      NothingLeft(ops, k, x, t);
      var kept := ShellKept(ops[..k], x);
      assert u + t[|u|..] == t && kept + u + t[|u|..] == kept + t;
    }
  }

  lemma NothingLeft(ops: seq<ClientOp>, k: nat, x: Uuid, t: seq<BoxEvent>)
    requires k < |ops| && ShellIs(ops, k, x, |ShellKept(ops[..k], x)|, t)
    ensures x in TasksAfter(ops).replaying && TasksAfter(ops).replaying[x] == []
    ensures x in ClientAfter(ops).shellChan
  {
    hide ShellKept, Merges, Cut, ShellHeard;
  }

  lemma ReplayedInOrder(ops: seq<ClientOp>, k: nat, x: Uuid, done: nat, t: seq<BoxEvent>)
    requires k < |ops| && ShellIs(ops, k, x, done, t) && TasksAfter(ops).replaying[x] == []
    requires ShellHeard(ops, k + 1, x) == []
    ensures done == |ShellKept(ops[..k], x)| && x in ClientAfter(ops).shellChan
    ensures t == [] && ClientAfter(ops).shellChan[x] == ShellKept(ops[..k], x) + t
  {
    hide ShellKept, Merges, ShellHeard;
    var kept := ShellKept(ops[..k], x);
    assert kept[..done] == kept && kept + [] == kept;
    MergesOne(ClientAfter(ops).shellChan[x], kept);
  }

  /** At the end of the replay the events are in order if and only if nothing was told the
      shell while it lasted, unless the same events were both kept and told. */
  lemma {:induction false} InOrderIffQuiet(ops: seq<ClientOp>, k: nat, x: Uuid) returns (t: seq<BoxEvent>)
    requires FreshIds(ops) && k < |ops| - 1 && ops[k] == StartShell(x) && ops[|ops| - 1] == Replays(x)
    requires var s := TasksAfter(ops[..|ops| - 1]); x in s.replaying && |s.replaying[x]| == 1
    ensures ShellIs(ops, k, x, |ShellKept(ops[..k], x)|, t)
    ensures x in ClientAfter(ops).shellChan
    ensures var kept, chan := ShellKept(ops[..k], x), ClientAfter(ops).shellChan[x];
            (forall e :: e in kept ==> e !in t) ==> (chan == kept + t <==> t == [])
  {
    hide ShellKept, FreshIds, ShellHeard, Merges, Cut, Ended, EndsShell, Stepped;
    var n, done := |ops| - 1, 0;
    FreshPrefix(ops, n);
    OneStart(ops, k, x);
    done, t := ShellLaw(ops[..n], k, x);
    assert ops[..n][..k] == ops[..k];
    var kept, s := ShellKept(ops[..k], x), TasksAfter(ops[..n]);
    ShellStep(s, ops[n], x);
    var u := t;
    done, t := ShellNext(ops, k, x, done, u);
    var chan := ClientAfter(ops).shellChan[x];
    assert done == |kept| && kept[..done] == kept && chan[|chan| - 1] == kept[|kept| - 1];
    assert kept + [] == kept;
    if t == [] {
      MergesOne(chan, kept);
    } else if chan == kept + t {
      assert (kept + t)[|kept + t| - 1] == t[|t| - 1];
      assert kept[|kept| - 1] in kept && t[|t| - 1] in t;
    }
  }

  /** An event told while the replay is still going on overtakes what was kept: with one
      event kept and one told before it is replayed, the younger comes first. */
  lemma {:induction false} ShellOvertakes(x: Uuid, a: Bytes, b: Bytes)
    ensures var ops := [Receive(ShellOut(x, a)), StartShell(x), Receive(ShellOut(x, b)), Replays(x)];
            var c := ClientAfter(ops);
            x in c.shellChan && c.shellChan[x] == [ShellOut(x, b), ShellOut(x, a)]
  {
    hide Stepped, TasksAfter;
    var first, second := Receive(ShellOut(x, a)), Receive(ShellOut(x, b));
    var one, two, three := [first], [first, StartShell(x)], [first, StartShell(x), second];
    NoTasks();
    TasksNext([], first);
    TasksNext(one, StartShell(x));
    TasksNext(two, second);
    TasksNext(three, Replays(x));
    assert [] + [first] == one && one + [StartShell(x)] == two && two + [second] == three;
    assert three + [Replays(x)] == [first, StartShell(x), second, Replays(x)];
    KeptStep(Empty, first, x);
    TakesUp(TasksAfter(one), x);
    ShellStep(TasksAfter(two), second, x);
    ShellStep(TasksAfter(three), Replays(x), x);
  }

  lemma NoTasks()
    ensures TasksAfter([]) == Empty && forall x :: Kept(Empty.client, x) == [] && x !in Empty.client.shells
  {}

  lemma TasksNext(ops: seq<ClientOp>, op: ClientOp)
    ensures TasksAfter(ops + [op]) == Stepped(TasksAfter(ops), op)
  {
    assert (ops + [op])[..|ops|] == ops;
    hide Stepped;
  }

  lemma TakesUp(t: Tasks, x: Uuid)
    requires Plugged(t.client)
    ensures var t' := Stepped(t, StartShell(x));
            && x in t'.client.shellChan && t'.client.shellChan[x] == [] && x in t'.client.shells
            && x in t'.replaying && t'.replaying[x] == Kept(t.client, x)
  {}

  lemma {:induction false} QuietSoFar(ops: seq<ClientOp>, k: nat, x: Uuid)
    requires k < |ops| && forall i :: k < i < |ops| ==> ToShell(ops[i], x) == []
    ensures ShellHeard(ops, k + 1, x) == []
    decreases |ops|
  {
    if |ops| > k + 1 { QuietSoFar(ops[..|ops| - 1], k, x); }
  }
}
