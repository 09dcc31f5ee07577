/** The in-memory outbox and the dispatcher that forwards its events. */
module Outbox {
  import opened Wrappers

  datatype Event = Event(id: string, kind: string, topic: string, key: string, payload: string, occurredAt: Option<int>)

  datatype OutboxError = OutboxClosed

  /** Enqueue fills in a missing id and a missing time, and nothing else. */
  function Filled(e: Event, newID: string, now: int): (f: Event)
    ensures f.kind == e.kind && f.topic == e.topic && f.key == e.key && f.payload == e.payload
    ensures f.id == if e.id == "" then newID else e.id
    ensures f.occurredAt == if e.occurredAt.None? then Some(now) else e.occurredAt
  {
    var named := if e.id == "" then e.(id := newID) else e;
    if named.occurredAt.None? then named.(occurredAt := Some(now)) else named
  }

  datatype Dequeued = Wait | Stop | Got(event: Event)

  class InMemoryOutbox {
    var queue: seq<Event>
    var closed: bool

    constructor ()
      ensures queue == [] && !closed
    {
      queue, closed := [], false;
    }

    method Enqueue(e: Event, newID: string, now: int) returns (r: Result<Event, OutboxError>)
      modifies this
      ensures closed == old(closed)
      ensures r == if closed then Err(OutboxClosed) else Ok(Filled(e, newID, now))
      ensures queue == old(queue) + (if r.Ok? then [r.value] else [])
    {
      var event := e;
      if event.id == "" {
        event := event.(id := newID);
      }
      if event.occurredAt.None? {
        event := event.(occurredAt := Some(now));
      }
      if closed {
        return Err(OutboxClosed);
      }
      queue := queue + [event];
      r := Ok(event);
    }

    /** Waits only while the outbox is empty and open; what is left is still
        handed out after Close. */
    method DequeueLocked() returns (d: Dequeued)
      modifies this
      ensures closed == old(closed)
      ensures d.Got? <==> old(queue) != []
      ensures d.Got? ==> [d.event] + queue == old(queue)
      ensures !d.Got? ==> queue == old(queue) && (d.Stop? <==> closed)
    {
      if |queue| == 0 && !closed {
        return Wait;
      }
      if |queue| == 0 {
        return Stop;
      }
      var e := queue[0];
      queue := queue[1..];
      d := Got(e);
    }

    method Close()
      modifies this
      ensures closed && queue == old(queue)
    {
      closed := true;
    }
  }

  /** The events whose publish succeeded, in order. */
  function Delivered(handed: seq<Event>, accepts: nat -> bool): seq<Event> {
    if handed == [] then []
    else
      var n := |handed| - 1;
      Delivered(handed[..n], accepts) + (if accepts(n) then [handed[n]] else [])
  }

  /** How many of the first `n` publish calls succeed. */
  function Successes(accepts: nat -> bool, n: nat): nat {
    if n == 0 then 0 else Successes(accepts, n - 1) + (if accepts(n - 1) then 1 else 0)
  }

  /** Delivered keeps exactly the events whose publish succeeded, in their order:
      event `i` stands behind those delivered before it. */
  lemma {:induction false} DeliveredIff(handed: seq<Event>, accepts: nat -> bool)
    ensures |Delivered(handed, accepts)| == Successes(accepts, |handed|)
    ensures forall i :: 0 <= i < |handed| && accepts(i) ==>
      Successes(accepts, i) < |Delivered(handed, accepts)| &&
      Delivered(handed, accepts)[Successes(accepts, i)] == handed[i]
  {
    if handed != [] {
      var n := |handed| - 1;
      DeliveredIff(handed[..n], accepts);
      assert Delivered(handed, accepts) == Delivered(handed[..n], accepts) + (if accepts(n) then [handed[n]] else []);
      forall i | 0 <= i < n && accepts(i)
        ensures Successes(accepts, i) < |Delivered(handed, accepts)|
          && Delivered(handed, accepts)[Successes(accepts, i)] == handed[i]
      {
        assert handed[..n][i] == handed[i];
      }
    }
  }

  /** The dispatcher loop until the outbox has nothing more to give; `accepts`
      says which publish calls succeed. Every queued event is handed to the
      publisher once, in order, and one that it refuses is not tried again. */
  method Dispatch(o: InMemoryOutbox, accepts: nat -> bool) returns (handed: seq<Event>, published: seq<Event>)
    modifies o
    ensures o.queue == [] && o.closed == old(o.closed)
    ensures handed == old(o.queue) && published == Delivered(handed, accepts)
    ensures |published| == Successes(accepts, |handed|)
  {
    handed, published := [], [];
    while true
      invariant o.closed == old(o.closed) && handed + o.queue == old(o.queue)
      invariant published == Delivered(handed, accepts)
      decreases |o.queue|
    {
      var d := o.DequeueLocked();
      match d {
        case Wait =>
          DeliveredIff(handed, accepts);
          return;
        case Stop =>
          DeliveredIff(handed, accepts);
          return;
        case Got(e) =>
          var n := |handed|;
          handed := handed + [e];
          assert handed[..n] == handed[..|handed| - 1];
          if accepts(n) {
            published := published + [e];
          }
      }
    }
  }

  // ----- runs with one dispatcher -----

  datatype Action = Enqueue(e: Event, newID: string, now: int) | Hand | Close

  datatype State = State(queue: seq<Event>, closed: bool, accepted: seq<Event>, handed: seq<Event>)

  function Apply(s: State, a: Action): State {
    match a
    case Enqueue(e, newID, now) =>
      if s.closed then s
      else s.(queue := s.queue + [Filled(e, newID, now)], accepted := s.accepted + [Filled(e, newID, now)])
    case Hand =>
      if s.queue == [] then s else s.(queue := s.queue[1..], handed := s.handed + [s.queue[0]])
    case Close => s.(closed := true)
  }

  function Exec(run: seq<Action>): State {
    if run == [] then State([], false, [], []) else Apply(Exec(run[..|run| - 1]), run[|run| - 1])
  }

  /** In every run the accepted events are those handed to the publisher, in
      order, followed by those still queued. */
  lemma {:induction false} HandedInOrder(run: seq<Action>)
    ensures var s := Exec(run); s.accepted == s.handed + s.queue
  {
    if run != [] {
      HandedInOrder(run[..|run| - 1]);
      var s := Exec(run[..|run| - 1]);
      if s.queue != [] {
        assert s.queue == [s.queue[0]] + s.queue[1..];
      }
    }
  }

  /** The events offered before the outbox was closed, filled in. */
  function Offered(run: seq<Action>): seq<Event> {
    if run == [] || run[0].Close? then []
    else (if run[0].Enqueue? then [Filled(run[0].e, run[0].newID, run[0].now)] else []) + Offered(run[1..])
  }

  predicate Closes(run: seq<Action>) {
    Close in run
  }

  lemma {:induction false} OfferedGrows(run: seq<Action>, a: Action)
    ensures Offered(run + [a]) == Offered(run) + (if Closes(run) then [] else Offered([a]))
  {
    if run == [] {
      assert run + [a] == [a];
    } else {
      assert (run + [a])[1..] == run[1..] + [a];
      OfferedGrows(run[1..], a);
    }
  }

  /** Exactly the events offered before the outbox is closed are accepted. */
  lemma {:induction false} AcceptedIsOffered(run: seq<Action>)
    ensures Exec(run).accepted == Offered(run) && Exec(run).closed == Closes(run)
  {
    if run != [] {
      var n := |run| - 1;
      AcceptedIsOffered(run[..n]);
      OfferedGrows(run[..n], run[n]);
      assert run == run[..n] + [run[n]];
    }
  }

  /** Handing out often enough empties the outbox, closed or not: everything
      accepted is then handed to the publisher. */
  lemma {:induction false} HandingDrains(run: seq<Action>, n: nat)
    ensures var s := Exec(run + seq(n, _ => Hand));
      s.accepted == Exec(run).accepted && |s.queue| == if n < |Exec(run).queue| then |Exec(run).queue| - n else 0
    ensures n >= |Exec(run).queue| ==> Exec(run + seq(n, _ => Hand)).handed == Exec(run).accepted
  {
    var all := run + seq(n, _ => Hand);
    if n == 0 {
      assert all == run;
    } else {
      HandingDrains(run, n - 1);
      assert all[..|all| - 1] == run + seq(n - 1, _ => Hand);
    }
    HandedInOrder(all);
  }
}
