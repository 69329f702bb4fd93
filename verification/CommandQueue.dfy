/** The command queue: an unbounded priority queue of commands ordered by
    timestamp, plus a list of data listeners told about every insertion.
    The model is sequential; "nothing arrives before the poll timeout" is
    modelled as polling an empty queue. */
module CommandQueue {
  import opened Base
  import opened Commands

  /** Listeners are identified by opaque numbers; a listener may be registered
      more than once. */
  type ListenerId = nat

  /** Pending commands in insertion order (the priority order is recovered by
      `Poll`), and the registered listeners in registration order. */
  datatype Queue = Queue(items: seq<Command>, listeners: seq<ListenerId>)

  function Empty(): (q: Queue)
    ensures Size(q) == 0 && q.listeners == []
  {
    Queue([], [])
  }

  /** The queue's instantaneous size. */
  function Size(q: Queue): nat
  {
    |q.items|
  }

  /** The pending commands as a multiset. */
  function Contents(q: Queue): multiset<Command>
  {
    multiset(q.items)
  }

  /** `put`: inserts (never rejects, never blocks), then notifies every listener
      in registration order; the second component lists the notifications. */
  function Put(q: Queue, c: Command): (r: (Queue, seq<ListenerId>))
    ensures Contents(r.0) == Contents(q) + multiset{c}
    ensures Size(r.0) == Size(q) + 1
    ensures r.0.listeners == q.listeners
    ensures r.1 == q.listeners
  {
    (q.(items := q.items + [c]), q.listeners)
  }

  /** Position of the first command with the smallest timestamp. */
  function MinIndex(items: seq<Command>): (i: nat)
    requires |items| > 0
    ensures i < |items|
    ensures forall j :: 0 <= j < |items| ==> items[i].timeMillis <= items[j].timeMillis
    ensures forall j :: 0 <= j < i ==> items[j].timeMillis > items[i].timeMillis
  {
    if |items| == 1 then 0
    else
      var k := MinIndex(items[1..]) + 1;
      if items[0].timeMillis <= items[k].timeMillis then 0 else k
  }

  /** `poll(timeout)`: removes and returns a command with the smallest timestamp,
      or None when nothing is pending before the timeout. */
  function Poll(q: Queue): (r: (Option<Command>, Queue))
    ensures r.0.None? <==> Size(q) == 0
    ensures r.0.None? ==> r.1 == q
    ensures r.0.Some? ==> r.0.value in Contents(q)
    ensures r.0.Some? ==> forall c :: c in Contents(q) ==> r.0.value.timeMillis <= c.timeMillis
    ensures r.0.Some? ==> Contents(r.1) + multiset{r.0.value} == Contents(q)
    ensures r.0.Some? ==> Size(r.1) + 1 == Size(q)
    ensures r.1.listeners == q.listeners
  {
    if |q.items| == 0 then (None, q)
    else
      var i := MinIndex(q.items);
      assert q.items == q.items[..i] + [q.items[i]] + q.items[i + 1..];
      (Some(q.items[i]), q.(items := q.items[..i] + q.items[i + 1..]))
  }

  /** `addDataListener`: appends, so duplicates are kept. */
  function AddDataListener(q: Queue, l: ListenerId): (r: Queue)
    ensures r.items == q.items
    ensures multiset(r.listeners) == multiset(q.listeners) + multiset{l}
    ensures |r.listeners| == |q.listeners| + 1
    ensures r.listeners[..|q.listeners|] == q.listeners && r.listeners[|q.listeners|] == l
  {
    q.(listeners := q.listeners + [l])
  }

  /** `removeAllListeners`: forgets every listener, keeps the commands. */
  function RemoveAllListeners(q: Queue): (r: Queue)
    ensures r.items == q.items && |r.listeners| == 0
  {
    q.(listeners := [])
  }

  /** Two polls in a row return commands in timestamp order. */
  lemma PollsInTimestampOrder(q: Queue)
    requires Size(q) >= 2
    ensures var (a, q1) := Poll(q);
            var (b, _) := Poll(q1);
            a.Some? && b.Some? && a.value.timeMillis <= b.value.timeMillis
  {
    var (a, q1) := Poll(q);
    var (b, _) := Poll(q1);
    assert b.value in Contents(q1);
    assert b.value in Contents(q);
  }

  /** A listener registered twice hears about every `put` twice; after
      `removeAllListeners`, a `put` still inserts but notifies nobody. */
  lemma ListenerNotifications(q: Queue, l: ListenerId, c: Command)
    ensures var (_, told) := Put(AddDataListener(AddDataListener(q, l), l), c);
            multiset(told)[l] == multiset(q.listeners)[l] + 2
    ensures var (q', told) := Put(RemoveAllListeners(q), c);
            told == [] && Contents(q') == Contents(q) + multiset{c}
  {
  }

  /** Putting into an empty queue and polling gives the command back. */
  lemma PutThenPoll(c: Command)
    ensures Poll(Put(Empty(), c).0).0 == Some(c)
  {
  }
}
