/** When confirmations come out in block-height order over a whole run: exactly which orders
    of tracking guarantee it, whatever headers arrive and whenever they do. */
module FinalityOrder {
  import opened Types
  import opened Sorting
  import opened Finality

  /** Tracked by nondecreasing block height, and never at a lower Celestia height than an
      earlier submission of a lower block. */
  ghost predicate InOrder(subs: seq<Submission>) {
    forall i, j :: 0 <= i < j < |subs| ==> Ordered(subs[i], subs[j])
  }

  predicate Ordered(first: Submission, second: Submission) {
    && first.blockHeight <= second.blockHeight
    && (second.celestiaHeight < first.celestiaHeight ==> first.blockHeight == second.blockHeight)
  }

  // ---- In order is enough ----

  ghost predicate OrderInv(subs: seq<Submission>, t: Tracker, sent: seq<Confirmation>) {
    && SortedBy(HeightOf, sent)
    && (forall h :: h in t.pending ==> Submission(h, t.pending[h].blockHeight, t.pending[h].celestiaHeight) in subs)
    && (forall c :: c in sent ==> Submission(c.blockHash, c.blockHeight, c.celestiaHeight) in subs)
    && (forall c, h :: c in sent && h in t.pending ==> c.blockHeight <= t.pending[h].blockHeight)
    && (forall g, h :: g in t.pending && h in t.pending && t.pending[g].celestiaHeight < t.pending[h].celestiaHeight ==>
          t.pending[g].blockHeight <= t.pending[h].blockHeight)
  }

  lemma TrackKeepsOrder(subs: seq<Submission>, t: Tracker, sent: seq<Confirmation>, s: Submission)
    requires OrderInv(subs, t, sent) && InOrder(subs + [s])
    ensures OrderInv(subs + [s], t.Track(s), sent)
  {
    var all := subs + [s];
    forall x | x in subs
      ensures Ordered(x, s)
    {
      var i :| 0 <= i < |subs| && subs[i] == x;
      assert Ordered(all[i], all[|subs|]);
    }
  }

  lemma HeaderKeepsOrder(subs: seq<Submission>, t: Tracker, sent: seq<Confirmation>, e: Event)
    requires OrderInv(subs, t, sent) && e.Header? && Visits(t, e.order)
    ensures OrderInv(subs, Step(t, e).0, sent + Step(t, e).1)
  {
    HeaderConfirmsTheDue(t, e.celestiaHeight, e.header, e.order);
  }

  lemma {:induction false} InOrderKeepsOrder(events: seq<Event>)
    requires Possible(events) && InOrder(Submissions(events))
    ensures OrderInv(Submissions(events), Run(events).0, Run(events).1)
  {
    if events != [] {
      var before, e := events[..|events| - 1], events[|events| - 1];
      PossibleBefore(events);
      assert Submissions(before) <= Submissions(events);
      InOrderKeepsOrder(before);
      if e.Tracked? {
        TrackKeepsOrder(Submissions(before), Run(before).0, Run(before).1, e.submission);
      } else {
        HeaderKeepsOrder(Submissions(before), Run(before).0, Run(before).1, e);
      }
    }
  }

  // ---- Out of order is too little ----

  lemma {:induction false} OneMore(events: seq<Event>, e: Event)
    requires Possible(events) && (e.Header? ==> Visits(Run(events).0, e.order))
    ensures Possible(events + [e])
    ensures Run(events + [e]) == (Step(Run(events).0, e).0, Run(events).1 + Step(Run(events).0, e).1)
    ensures Submissions(events + [e]) ==
            Submissions(events) + match e case Tracked(s) => [s] case Header(_, _, _) => []
  {
    var longer := events + [e];
    assert longer[..|events|] == events;
    forall k | 0 <= k < |longer| && longer[k].Header?
      ensures Visits(Run(longer[..k]).0, longer[k].order)
    {
      assert k < |events| ==> longer[..k] == events[..k] && longer[k] == events[k];
    }
  }

  lemma {:induction false} SomeOrder(keys: set<Hash>) returns (order: seq<Hash>)
    ensures Distinct(order) && forall h :: h in order <==> h in keys
    decreases keys
  {
    if keys == {} {
      order := [];
    } else {
      var h :| h in keys;
      order := SomeOrder(keys - {h});
      order := order + [h];
    }
  }

  /** After `events`, track the rest of `subs` one after another. */
  lemma {:induction false} TrackAll(events: seq<Event>, subs: seq<Submission>) returns (longer: seq<Event>)
    requires Possible(events)
    ensures Possible(longer) && Submissions(longer) == Submissions(events) + subs
    ensures Run(longer).1 == Run(events).1
  {
    if subs == [] {
      longer := events;
    } else {
      var rest := subs[..|subs| - 1];
      longer := TrackAll(events, rest);
      OneMore(longer, Tracked(subs[|subs| - 1]));
      longer := longer + [Tracked(subs[|subs| - 1])];
      assert rest + [subs[|subs| - 1]] == subs;
    }
  }

  /** After `events`, a header that confirms everything due at `celestiaHeight`. */
  lemma {:induction false} SendHeader(events: seq<Event>, celestiaHeight: nat) returns (longer: seq<Event>)
    requires Possible(events) && DistinctHashes(Submissions(events))
    ensures Possible(longer) && Submissions(longer) == Submissions(events)
    ensures Run(events).1 <= Run(longer).1
    ensures forall s :: s in Submissions(events) && s.celestiaHeight <= celestiaHeight ==> IsConfirmed(Run(longer).1, s)
    ensures forall s ::
              s in Submissions(events) && s.celestiaHeight > celestiaHeight && !IsConfirmed(Run(events).1, s) ==>
              !IsConfirmed(Run(longer).1, s)
  {
    var t := Run(events).0;
    var order := SomeOrder(t.pending.Keys);
    var e := Header(celestiaHeight, 0, order);
    OneMore(events, e);
    longer := events + [e];
    HeaderConfirmsTheDue(t, celestiaHeight, 0, order);
    TrackedIsPendingOrConfirmed(events);
    TrackedIsPendingOrConfirmed(longer);
    var sent, cs := Run(events).1, Step(t, e).1;
    forall s | s in Submissions(events) && s.celestiaHeight > celestiaHeight && !IsConfirmed(sent, s)
      ensures !IsConfirmed(sent + cs, s)
    {
      assert IsPending(t, s);
      assert IsPending(Run(longer).0, s);
    }
  }

  lemma LaterConfirmationsShow(early: seq<Confirmation>, sent: seq<Confirmation>, a: Submission, b: Submission)
    requires early <= sent && a.blockHeight > b.blockHeight
    requires IsConfirmed(early, a) && IsConfirmed(sent, b) && !IsConfirmed(early, b)
    ensures !SortedBy(HeightOf, sent)
  {
    var x :| Confirmation(a.blockHash, a.blockHeight, a.celestiaHeight, x) in early;
    var y :| Confirmation(b.blockHash, b.blockHeight, b.celestiaHeight, y) in sent;
    var p :| 0 <= p < |early| && early[p] == Confirmation(a.blockHash, a.blockHeight, a.celestiaHeight, x);
    var q :| 0 <= q < |sent| && sent[q] == Confirmation(b.blockHash, b.blockHeight, b.celestiaHeight, y);
    assert q >= |early|;
    assert sent[p] == early[p] && HeightOf(sent[p]) > HeightOf(sent[q]);
  }

  function Highest(subs: seq<Submission>): (c: nat)
    ensures forall s :: s in subs ==> s.celestiaHeight <= c
  {
    if subs == [] then 0
    else
      var c := Highest(subs[..|subs| - 1]);
      if c < subs[|subs| - 1].celestiaHeight then subs[|subs| - 1].celestiaHeight else c
  }

  lemma DistinctPrefix(subs: seq<Submission>, k: nat)
    requires DistinctHashes(subs) && k <= |subs|
    ensures DistinctHashes(subs[..k])
  {
  }

  /** What has been confirmed so far was tracked, and stays unconfirmed otherwise. */
  lemma {:induction false} UntrackedIsUnconfirmed(events: seq<Event>, s: Submission)
    requires Possible(events) && DistinctHashes(Submissions(events)) && s !in Submissions(events)
    ensures !IsConfirmed(Run(events).1, s)
  {
    TrackedIsPendingOrConfirmed(events);
  }

  /** Any run goes on to track the rest and confirm it all. */
  lemma {:induction false} Complete(events: seq<Event>, subs: seq<Submission>) returns (longer: seq<Event>)
    requires Possible(events) && Submissions(events) <= subs && DistinctHashes(subs)
    ensures Possible(longer) && Submissions(longer) == subs && Run(events).1 <= Run(longer).1
    ensures forall s :: s in subs ==> IsConfirmed(Run(longer).1, s)
  {
    var rest := subs[|Submissions(events)|..];
    assert Submissions(events) + rest == subs;
    var all := TrackAll(events, rest);
    longer := SendHeader(all, Highest(subs));
  }

  /** Everything up to `i` is confirmed before the rest is tracked. */
  lemma {:induction false} ShowFirst(subs: seq<Submission>, i: nat) returns (early: seq<Event>)
    requires DistinctHashes(subs) && i < |subs|
    ensures Possible(early) && Submissions(early) == subs[..i + 1] && IsConfirmed(Run(early).1, subs[i])
  {
    var first := subs[..i + 1];
    DistinctPrefix(subs, i + 1);
    var start := TrackAll([], first);
    assert [] + first == first;
    early := SendHeader(start, Highest(first));
    assert first[i] == subs[i];
  }

  /** A header between the two trackings shows a higher block first. */
  lemma {:induction false} UnsortedByHeight(subs: seq<Submission>, i: nat, j: nat) returns (events: seq<Event>)
    requires DistinctHashes(subs) && i < j < |subs| && subs[i].blockHeight > subs[j].blockHeight
    ensures Possible(events) && Submissions(events) == subs && !SortedBy(HeightOf, Run(events).1)
  {
    var early := ShowFirst(subs, i);
    DistinctPrefix(subs, i + 1);
    UntrackedIsUnconfirmed(early, subs[j]);
    events := Complete(early, subs);
    LaterConfirmationsShow(Run(early).1, Run(events).1, subs[i], subs[j]);
  }

  /** A header between the two Celestia heights shows the later, higher block first. */
  lemma {:induction false} UnsortedByCelestia(subs: seq<Submission>, i: nat, j: nat) returns (events: seq<Event>)
    requires DistinctHashes(subs) && i < j < |subs| && subs[i].blockHeight < subs[j].blockHeight
    requires subs[j].celestiaHeight < subs[i].celestiaHeight
    ensures Possible(events) && Submissions(events) == subs && !SortedBy(HeightOf, Run(events).1)
  {
    var start := TrackAll([], subs);
    assert [] + subs == subs;
    assert Run(start).1 == [] && !IsConfirmed(Run(start).1, subs[i]);
    var early := SendHeader(start, subs[j].celestiaHeight);
    assert IsConfirmed(Run(early).1, subs[j]) && !IsConfirmed(Run(early).1, subs[i]);
    events := Complete(early, subs);
    LaterConfirmationsShow(Run(early).1, Run(events).1, subs[j], subs[i]);
  }

  /** For submissions of distinct blocks: every run that tracks them in the given order, with
      any headers, repeated or lower ones included, confirms in block-height order if and
      only if the submissions are in order. */
  lemma {:induction false} SortedWheneverInOrder(subs: seq<Submission>)
    requires DistinctHashes(subs)
    ensures (forall events :: Possible(events) && Submissions(events) == subs ==> SortedBy(HeightOf, Run(events).1))
            <==> InOrder(subs)
  {
    forall events | Possible(events) && Submissions(events) == subs && InOrder(subs)
      ensures SortedBy(HeightOf, Run(events).1)
    {
      InOrderKeepsOrder(events);
    }
    if !InOrder(subs) {
      var i, j :| 0 <= i < j < |subs| && !Ordered(subs[i], subs[j]);
      if subs[i].blockHeight > subs[j].blockHeight {
        var events := UnsortedByHeight(subs, i, j);
      } else {
        var events := UnsortedByCelestia(subs, i, j);
      }
    }
  }
}
