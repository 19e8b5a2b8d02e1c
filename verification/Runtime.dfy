/** The bounded, lossy broadcast channels between the application and the tasks that read
    them, and the two loops that read: finalized blocks to the callback, proposals to the
    relay. */
module Runtime {
  import opened Types

  datatype Receipt<+T> = Received(value: T) | Lagged(missed: nat) | Closed | Waiting

  /** Everything sent so far, of which only the last `capacity` values are retained. */
  datatype Channel<T> = Channel(sent: seq<T>, capacity: nat, closed: bool)
  {
    function Oldest(): nat {
      if |sent| > capacity then |sent| - capacity else 0
    }

    /** Receive at `position`; a receiver that fell off the buffer is told how much it lost
        and moved to the oldest value left. */
    function Recv(position: nat): (Receipt<T>, nat) {
      if position < Oldest() then (Lagged(Oldest() - position), Oldest())
      else if position < |sent| then (Received(sent[position]), position + 1)
      else if closed then (Closed, position)
      else (Waiting, position)
    }
  }

  /** What can happen around a receiving loop, in any order: the sender sends or goes away,
      the loop gets to poll, the other thing it waits for ends it (the runtime stopping, or
      for the relay its peer-to-peer receiver failing). */
  datatype Event<T> = Send(value: T) | Close | Poll | Stop

  datatype Task<T> = Task(channel: Channel<T>, position: nat, running: bool, delivered: seq<T>, lost: nat)

  function Started<T>(capacity: nat): Task<T> {
    Task(Channel([], capacity, false), 0, true, [], 0)
  }

  function Outside<T>(t: Task<T>, e: Event<T>): Task<T> {
    match e
    case Send(v) => if t.channel.closed then t else t.(channel := t.channel.(sent := t.channel.sent + [v]))
    case Close => t.(channel := t.channel.(closed := true))
    case Poll => t
    case Stop => t.(running := false)
  }

  /** The finalization loop: any receive error ends it. */
  function FinalizationStep<T>(t: Task<T>, e: Event<T>): Task<T> {
    if e != Poll || !t.running then Outside(t, e)
    else
      var (receipt, position) := t.channel.Recv(t.position);
      match receipt
      case Received(v) => t.(position := position, delivered := t.delivered + [v])
      case Lagged(_) => t.(position := position, running := false)
      case Closed => t.(running := false)
      case Waiting => t
  }

  /** The relay loop: it carries on after lagging. */
  function RelayStep<T>(t: Task<T>, e: Event<T>): Task<T> {
    if e != Poll || !t.running then Outside(t, e)
    else
      var (receipt, position) := t.channel.Recv(t.position);
      match receipt
      case Received(v) => t.(position := position, delivered := t.delivered + [v])
      case Lagged(n) => t.(position := position, lost := t.lost + n)
      case Closed => t.(running := false)
      case Waiting => t
  }

  function Finalizing<T>(t: Task<T>, events: seq<Event<T>>): Task<T> {
    if events == [] then t
    else FinalizationStep(Finalizing(t, events[..|events| - 1]), events[|events| - 1])
  }

  function Relaying<T>(t: Task<T>, events: seq<Event<T>>): Task<T> {
    if events == [] then t
    else RelayStep(Relaying(t, events[..|events| - 1]), events[|events| - 1])
  }

  /** The callback has always seen a gap-free prefix of what was finalized; and a loop that
      is no longer running although nobody stopped it either had everything or had fallen
      more than the channel's capacity behind. */
  lemma {:induction false} CallbackSeesAPrefix<T>(capacity: nat, events: seq<Event<T>>)
    ensures var t := Finalizing(Started(capacity), events);
            && t.channel.capacity == capacity
            && t.delivered <= t.channel.sent
            && (t.running ==> t.position == |t.delivered|)
            && (!t.running && Stop !in events ==>
                  (t.channel.closed && t.delivered == t.channel.sent) || |t.channel.sent| > |t.delivered| + capacity)
  {
    if events != [] {
      CallbackSeesAPrefix(capacity, events[..|events| - 1]);
    }
  }

  /** What `CallbackSeesAPrefix` says of a task. */
  ghost predicate Reading<T>(t: Task<T>) {
    t.delivered <= t.channel.sent && (t.running ==> t.position == |t.delivered|)
  }

  /** One more poll of a loop that is still running. What was sent and not yet seen decides
      it: more than the capacity behind, the loop ends; otherwise the next value is delivered;
      with everything seen it ends if the channel is closed, and waits if not. */
  lemma PollProgresses<T>(t: Task<T>)
    requires Reading(t) && t.running
    ensures var next := FinalizationStep(t, Poll);
            var seen, sent, capacity := |t.delivered|, |t.channel.sent|, t.channel.capacity;
            && seen <= sent && next.channel == t.channel && Reading(next)
            && (sent > seen + capacity ==> !next.running && next.delivered == t.delivered)
            && (seen < sent <= seen + capacity ==>
                  next.running && next.delivered == t.delivered + [t.channel.sent[seen]])
            && (seen == sent ==> next.running == !t.channel.closed && next.delivered == t.delivered)
  {
  }

  /** `n` polls in a row. */
  function Polled<T>(t: Task<T>, n: nat): Task<T> {
    if n == 0 then t else FinalizationStep(Polled(t, n - 1), Poll)
  }

  lemma PrefixAndOne<T>(s: seq<T>, n: nat)
    requires n < |s|
    ensures s[..n] + [s[n]] == s[..n + 1]
  {
  }

  /** As long as there is something left, each poll delivers the next value. */
  lemma {:induction false} PollsDeliver<T>(t: Task<T>, n: nat)
    requires Reading(t) && t.running
    requires |t.delivered| + n <= |t.channel.sent| <= |t.delivered| + t.channel.capacity
    ensures var end := Polled(t, n);
            && Reading(end) && end.running && end.channel == t.channel
            && end.delivered == t.channel.sent[..|t.delivered| + n]
  {
    if n > 0 {
      PollsDeliver(t, n - 1);
      PollProgresses(Polled(t, n - 1));
      PrefixAndOne(t.channel.sent, |t.delivered| + n - 1);
    }
  }

  lemma PollKeepsAll<T>(t: Task<T>)
    requires Reading(t) && t.delivered == t.channel.sent
    ensures var next := FinalizationStep(t, Poll);
            Reading(next) && next.channel == t.channel && next.delivered == t.delivered
  {
  }

  lemma {:induction false} PollsCatchUp<T>(t: Task<T>, n: nat)
    requires Reading(t) && t.running && |t.channel.sent| <= |t.delivered| + n
    requires |t.channel.sent| <= |t.delivered| + t.channel.capacity
    ensures var end := Polled(t, n); Reading(end) && end.channel == t.channel && end.delivered == t.channel.sent
  {
    if |t.delivered| + n == |t.channel.sent| {
      PollsDeliver(t, n);
      assert t.channel.sent[..|t.channel.sent|] == t.channel.sent;
    } else {
      PollsCatchUp(t, n - 1);
      PollKeepsAll(Polled(t, n - 1));
    }
  }

  /** Nothing is left behind: whatever happened before, a running loop that has not lagged and
      is polled often enough after the last send has delivered everything. */
  lemma {:induction false} EnoughPollsDeliverAll<T>(capacity: nat, events: seq<Event<T>>, n: nat)
    requires var t := Finalizing(Started(capacity), events);
             t.running && |t.channel.sent| <= |t.delivered| + n && |t.channel.sent| <= |t.delivered| + capacity
    ensures var t := Finalizing(Started(capacity), events);
            Polled(t, n).channel == t.channel && Polled(t, n).delivered == t.channel.sent
  {
    CallbackSeesAPrefix(capacity, events);
    PollsCatchUp(Finalizing(Started(capacity), events), n);
  }

  /** Polls in a row are polls at the end of a run. */
  lemma {:induction false} PolledIsARun<T>(start: Task<T>, events: seq<Event<T>>, n: nat)
    ensures Polled(Finalizing(start, events), n) == Finalizing(start, events + seq(n, i => Poll))
  {
    var polls := seq(n, i => Poll);
    if n == 0 {
      assert events + polls == events;
    } else {
      PolledIsARun(start, events, n - 1);
      assert (events + polls)[..|events| + n - 1] == events + seq(n - 1, i => Poll);
    }
  }

  /** A loop that has been stopped, or has ended, sees nothing more. */
  lemma {:induction false} StoppedForGood<T>(capacity: nat, events: seq<Event<T>>, more: seq<Event<T>>)
    requires !Finalizing(Started(capacity), events).running || (events != [] && events[|events| - 1] == Stop)
    ensures var t, end := Finalizing(Started(capacity), events), Finalizing(Started(capacity), events + more);
            !t.running && !end.running && end.delivered == t.delivered
  {
    if more == [] {
      assert events + more == events;
    } else {
      var rest := more[..|more| - 1];
      StoppedForGood(capacity, events, rest);
      assert (events + more)[..|events + more| - 1] == events + rest;
    }
  }

  /** `xs` are the values of `ys` at strictly increasing positions below `bound`. */
  ghost predicate TakenInOrder<T>(xs: seq<T>, ys: seq<T>, bound: nat) {
    exists at: seq<nat> :: Selects(at, xs, ys, bound)
  }

  ghost predicate Selects<T>(at: seq<nat>, xs: seq<T>, ys: seq<T>, bound: nat) {
    && |at| == |xs| && bound <= |ys|
    && (forall i :: 0 <= i < |at| ==> at[i] < bound && xs[i] == ys[at[i]])
    && (forall i, j :: 0 <= i < j < |at| ==> at[i] < at[j])
  }

  lemma TakeOne<T>(at: seq<nat>, xs: seq<T>, ys: seq<T>, position: nat)
    requires Selects(at, xs, ys, position) && position < |ys|
    ensures Selects(at + [position], xs + [ys[position]], ys, position + 1)
  {
  }

  /** The relay sends a subsequence of the proposals, in order, and accounts for each one it
      has passed over. */
  lemma {:induction false} RelayTakesInOrder<T>(capacity: nat, events: seq<Event<T>>)
    ensures var t := Relaying(Started(capacity), events);
            TakenInOrder(t.delivered, t.channel.sent, t.position)
            && |t.delivered| + t.lost == t.position
  {
    if events == [] {
      assert Selects([], Started<T>(capacity).delivered, Started<T>(capacity).channel.sent, 0);
    } else {
      var t := Relaying(Started(capacity), events[..|events| - 1]);
      RelayTakesInOrder(capacity, events[..|events| - 1]);
      RelayStepTakesInOrder(t, events[|events| - 1]);
    }
  }

  /** One more poll of a relay that is still running: more than the capacity behind, it skips
      to the oldest value left and accounts for what it skipped; otherwise it sends the next
      proposal; with nothing left it ends if the channel is closed, and waits if not. */
  lemma RelayPollProgresses<T>(t: Task<T>)
    requires t.running && t.position <= |t.channel.sent|
    ensures var next := RelayStep(t, Poll);
            var at, sent, capacity := t.position, |t.channel.sent|, t.channel.capacity;
            && next.channel == t.channel
            && (sent > at + capacity ==>
                  && next.running && next.position == sent - capacity && next.delivered == t.delivered
                  && next.lost == t.lost + (sent - capacity - at))
            && (at < sent <= at + capacity ==>
                  && next.running && next.position == at + 1 && next.lost == t.lost
                  && next.delivered == t.delivered + [t.channel.sent[at]])
            && (at == sent ==>
                  && next.running == !t.channel.closed && next.position == at && next.lost == t.lost
                  && next.delivered == t.delivered)
  {
  }

  lemma {:induction false} RelayKeepsItsPlace<T>(capacity: nat, events: seq<Event<T>>)
    ensures var t := Relaying(Started(capacity), events);
            t.channel.capacity == capacity && t.position <= |t.channel.sent|
  {
    if events != [] {
      RelayKeepsItsPlace(capacity, events[..|events| - 1]);
    }
  }

  function RelayPolled<T>(t: Task<T>, n: nat): Task<T> {
    if n == 0 then t else RelayStep(RelayPolled(t, n - 1), Poll)
  }

  lemma SliceAndOne<T>(s: seq<T>, from: nat, n: nat)
    requires from + n < |s|
    ensures s[from..from + n] + [s[from + n]] == s[from..from + n + 1]
  {
  }

  lemma {:induction false} RelayPollsSend<T>(t: Task<T>, n: nat)
    requires t.running && t.position + n <= |t.channel.sent| <= t.position + t.channel.capacity
    ensures var end := RelayPolled(t, n);
            && end.running && end.channel == t.channel && end.position == t.position + n
            && end.delivered == t.delivered + t.channel.sent[t.position..t.position + n]
  {
    if n == 0 {
      assert t.channel.sent[t.position..t.position] == [];
    } else {
      RelayPollsSend(t, n - 1);
      RelayPollProgresses(RelayPolled(t, n - 1));
      SliceAndOne(t.channel.sent, t.position, n - 1);
    }
  }

  lemma RelayPollsSendAll<T>(t: Task<T>)
    requires t.running && t.position <= |t.channel.sent| <= t.position + t.channel.capacity
    ensures RelayPolled(t, |t.channel.sent| - t.position).delivered == t.delivered + t.channel.sent[t.position..]
  {
    var sent := t.channel.sent;
    RelayPollsSend(t, |sent| - t.position);
    assert sent[t.position..|sent|] == sent[t.position..];
  }

  /** Polled often enough after the last send, a running relay sends every proposal from its
      place on; one that has fallen more than the capacity behind skips what is gone with its
      first poll, and then sends everything that is left. */
  lemma {:induction false} EnoughPollsRelayAll<T>(capacity: nat, events: seq<Event<T>>)
    requires Relaying(Started(capacity), events).running
    ensures var t := Relaying(Started(capacity), events);
            var sent := t.channel.sent;
            && t.position <= |sent|
            && (|sent| <= t.position + capacity ==>
                  RelayPolled(t, |sent| - t.position).delivered == t.delivered + sent[t.position..])
            && (|sent| > t.position + capacity ==>
                  RelayPolled(RelayStep(t, Poll), capacity).delivered == t.delivered + sent[|sent| - capacity..])
  {
    var t := Relaying(Started(capacity), events);
    RelayKeepsItsPlace(capacity, events);
    RelayPollProgresses(t);
    if |t.channel.sent| <= t.position + capacity {
      RelayPollsSendAll(t);
    } else {
      RelayPollsSendAll(RelayStep(t, Poll));
    }
  }

  lemma RelayStepTakesInOrder<T>(t: Task<T>, e: Event<T>)
    requires TakenInOrder(t.delivered, t.channel.sent, t.position)
    ensures var t' := RelayStep(t, e); TakenInOrder(t'.delivered, t'.channel.sent, t'.position)
  {
    var t' := RelayStep(t, e);
    var at :| Selects(at, t.delivered, t.channel.sent, t.position);
    if |t'.delivered| > |t.delivered| {
      TakeOne(at, t.delivered, t.channel.sent, t.position);
    } else {
      assert Selects(at, t'.delivered, t'.channel.sent, t'.position);
    }
  }

  /** So distinct proposals are sent at most once. */
  lemma RelaySendsOnce<T>(capacity: nat, events: seq<Event<T>>)
    requires var sent := Relaying(Started(capacity), events).channel.sent;
             forall i, j :: 0 <= i < j < |sent| ==> sent[i] != sent[j]
    ensures var d := Relaying(Started(capacity), events).delivered;
            forall i, j :: 0 <= i < j < |d| ==> d[i] != d[j]
  {
    RelayTakesInOrder(capacity, events);
  }

  /** The relay loop itself; `sent` is what it broadcasts to the other validators. */
  method RunBlockRelay<T>(capacity: nat, events: seq<Event<T>>) returns (sent: seq<T>)
    ensures var end := Relaying(Started(capacity), events);
            sent == end.delivered && TakenInOrder(sent, end.channel.sent, end.position)
  {
    var channel := Channel([], capacity, false);
    var position, running, lost := 0, true, 0;
    sent := [];
    for k := 0 to |events|
      invariant Relaying(Started(capacity), events[..k]) == Task(channel, position, running, sent, lost)
    {
      assert events[..k + 1][..k] == events[..k];
      match events[k] {
        case Send(v) =>
          if !channel.closed {
            channel := channel.(sent := channel.sent + [v]);
          }
        case Close =>
          channel := channel.(closed := true);
        case Stop =>
          running := false;
        case Poll =>
          if running {
            var (receipt, next) := channel.Recv(position);
            position := next;
            match receipt {
              case Received(v) => sent := sent + [v];
              case Lagged(missed) => lost := lost + missed;
              case Closed => running := false;
              case Waiting =>
            }
          }
      }
    }
    assert events[..|events|] == events;
    RelayTakesInOrder(capacity, events);
  }

  /** The finalization loop itself, reading one event after another. */
  method RunFinalizationLoop<T(==)>(capacity: nat, events: seq<Event<T>>) returns (seen: seq<T>)
    ensures seen == Finalizing(Started(capacity), events).delivered
    ensures seen <= Finalizing(Started(capacity), events).channel.sent
  {
    var channel := Channel([], capacity, false);
    var position, running, lost := 0, true, 0;
    seen := [];
    for k := 0 to |events|
      invariant Finalizing(Started(capacity), events[..k]) == Task(channel, position, running, seen, lost)
    {
      assert events[..k + 1][..k] == events[..k];
      match events[k] {
        case Send(v) =>
          if !channel.closed {
            channel := channel.(sent := channel.sent + [v]);
          }
        case Close =>
          channel := channel.(closed := true);
        case Stop =>
          running := false;
        case Poll =>
          if running {
            var (receipt, next) := channel.Recv(position);
            position := next;
            match receipt {
              case Received(v) => seen := seen + [v];
              case Lagged(_) => running := false;
              case Closed => running := false;
              case Waiting =>
            }
          }
      }
    }
    assert events[..|events|] == events;
    CallbackSeesAPrefix(capacity, events);
  }
}
