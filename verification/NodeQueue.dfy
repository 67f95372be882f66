/** The Node client's queue between arriving events and a consumer's `next()` calls. */
module NodeQueue {
  import opened Wrappers

  /** What the consumer has been given, over its settled calls in order. */
  function Given<T>(results: seq<Result<T, string>>): seq<T> {
    if results == [] then []
    else
      var init, last := Given(results[..|results| - 1]), results[|results| - 1];
      if last.Ok? then init + [last.value] else init
  }

  /** One more call settled. */
  lemma GivenNext<T>(results: seq<Result<T, string>>, v: Result<T, string>)
    ensures Given(results + [v]) == if v.Ok? then Given(results) + [v.value] else Given(results)
  {
    assert (results + [v])[..|results|] == results;
  }

  class AsyncQueue<T(==)> {
    var items: seq<T>
    /** Calls of `next()` still waiting, by number, oldest first. */
    var waiters: seq<nat>
    var closed: Option<string>
    /** How the calls before the waiting ones settled, each once, by number. */
    var results: seq<Result<T, string>>
    /** Everything ever pushed. */
    ghost var pushed: seq<T>

    /** Items and waiters are never both there; the waiting calls are the youngest;
        what was given and what is queued is what was pushed, in order. */
    ghost predicate Valid() reads this {
      && (items == [] || waiters == [])
      && (closed.Some? ==> waiters == [])
      && (forall i :: 0 <= i < |waiters| ==> waiters[i] == |results| + i)
      && Given(results) + items == pushed
      && (forall k :: 0 <= k < |results| && results[k].Err? ==> closed.Some?)
    }

    constructor ()
      ensures Valid() && pushed == [] && closed == None && results == [] && waiters == [] && fresh(this)
    {
      items, waiters, closed, results, pushed := [], [], None, [], [];
    }

    /** Settles one call's promise. */
    method Resolve(waiter: nat, value: Result<T, string>)
      requires waiter == |results|
      modifies this`results
      ensures results == old(results) + [value] && results[waiter] == value
      ensures Given(results) == if value.Ok? then Given(old(results)) + [value.value] else Given(old(results))
    {
      GivenNext(results, value);
      results := results + [value];
    }

    method Push(item: T)
      requires Valid()
      modifies this
      ensures Valid() && pushed == old(pushed) + [item] && closed == old(closed)
      ensures |results| + |waiters| == old(|results| + |waiters|) && old(results) <= results
    {
      hide Given;
      pushed := pushed + [item];
      if waiters != [] {
        var waiter := waiters[0];
        waiters := waiters[1..];
        Resolve(waiter, Ok(item));
      } else {
        items := items + [item];
      }
    }

    /** Waiting calls are rejected; queued items stay. */
    method Fail(error: string)
      requires Valid()
      modifies this
      ensures Valid() && pushed == old(pushed) && items == old(items) && closed == Some(error)
      ensures old(results) <= results && |results| == old(|results| + |waiters|)
      ensures forall k :: old(|results|) <= k < |results| ==> results[k] == Err(error)
    {
      hide Given;
      closed := Some(error);
      var rest := waiters;
      waiters := [];
      while rest != []
        invariant forall i :: 0 <= i < |rest| ==> rest[i] == |results| + i
        invariant old(results) <= results && |results| + |rest| == old(|results| + |waiters|)
        invariant forall k :: old(|results|) <= k < |results| ==> results[k] == Err(error)
        invariant Given(results) == Given(old(results)) && closed == Some(error)
        invariant waiters == [] && items == old(items) && pushed == old(pushed)
      {
        Resolve(rest[0], Err(error));
        rest := rest[1..];
      }
    }

    /** Queued items come first, also after a failure; then the failure; else it waits. */
    method Next() returns (call: nat)
      requires Valid()
      modifies this
      ensures Valid() && pushed == old(pushed) && closed == old(closed)
      ensures call == old(|results| + |waiters|) && |results| + |waiters| == call + 1
      ensures if old(items) != [] then results == old(results) + [Ok(old(items)[0])] && items == old(items)[1..]
              else if closed.Some? then results == old(results) + [Err(closed.value)] && items == []
              else results == old(results) && waiters == old(waiters) + [call] && items == []
    {
      hide Given;
      call := |results| + |waiters|;
      if items != [] {
        Resolve(call, Ok(items[0]));
        items := items[1..];
      } else if closed.Some? {
        Resolve(call, Err(closed.value));
      } else {
        waiters := waiters + [call];
      }
    }

    /** On a failed queue, further calls give the queued items in order, then the error. */
    method Drain(n: nat)
      requires Valid() && closed.Some?
      modifies this
      ensures Valid() && pushed == old(pushed) && closed == old(closed)
      ensures old(results) <= results && |results| == old(|results|) + n
      ensures forall k :: 0 <= k < n && k < |old(items)| ==> results[old(|results|) + k] == Ok(old(items)[k])
      ensures forall k :: old(|results| + |items|) <= k < |results| ==> results[k] == Err(closed.value)
    {
      ghost var all, start := items, |results|;
      for k := 0 to n
        invariant Valid() && pushed == old(pushed) && closed == old(closed)
        invariant old(results) <= results && |results| == start + k
        invariant items == if k <= |all| then all[k..] else []
        invariant forall i :: 0 <= i < k && i < |all| ==> results[start + i] == Ok(all[i])
        invariant forall i :: start + |all| <= i < |results| ==> results[i] == Err(closed.value)
      {
        var _ := Next();
      }
    }
  }
}
