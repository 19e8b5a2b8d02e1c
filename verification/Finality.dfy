/** Tracking of submitted blocks until Celestia has finalized the height they went in at. */
module Finality {
  import opened Types
  import opened Sorting

  datatype Submission = Submission(blockHash: Hash, blockHeight: nat, celestiaHeight: nat)

  datatype Pending = Pending(blockHeight: nat, celestiaHeight: nat)

  datatype Confirmation = Confirmation(blockHash: Hash, blockHeight: nat, celestiaHeight: nat, headerHash: Hash)

  function HeightOf(c: Confirmation): nat { c.blockHeight }

  datatype Tracker = Tracker(pending: map<Hash, Pending>, finalizedHeight: nat)
  {
    function Track(s: Submission): Tracker {
      this.(pending := pending[s.blockHash := Pending(s.blockHeight, s.celestiaHeight)])
    }

    function Due(celestiaHeight: nat): set<Hash> {
      set h | h in pending && pending[h].celestiaHeight <= celestiaHeight
    }

    function ConfirmationOf(h: Hash, header: Hash): Confirmation
      requires h in pending
    {
      Confirmation(h, pending[h].blockHeight, pending[h].celestiaHeight, header)
    }

    /** The due entries met along `order`, one confirmation each. */
    function Collect(celestiaHeight: nat, header: Hash, order: seq<Hash>): seq<Confirmation> {
      if order == [] then []
      else
        var h := order[|order| - 1];
        Collect(celestiaHeight, header, order[..|order| - 1]) +
        if h in Due(celestiaHeight) then [ConfirmationOf(h, header)] else []
    }

    /** `order` is the order in which the hash map happens to visit its keys. */
    function OnCelestiaFinality(celestiaHeight: nat, header: Hash, order: seq<Hash>): (Tracker, seq<Confirmation>) {
      (Tracker(pending - Due(celestiaHeight), celestiaHeight),
       StableSort(HeightOf, Collect(celestiaHeight, header, order)))
    }
  }

  const NEW_TRACKER := Tracker(map[], 0)

  /** `order` visits every pending entry once. */
  ghost predicate Visits(t: Tracker, order: seq<Hash>) {
    Distinct(order) && forall h :: h in order <==> h in t.pending
  }

  lemma {:induction false} CollectsTheDue(t: Tracker, celestiaHeight: nat, header: Hash, order: seq<Hash>)
    requires Distinct(order)
    ensures var cs := t.Collect(celestiaHeight, header, order);
            && (forall c :: c in cs <==>
                  (c.blockHash in order && c.blockHash in t.Due(celestiaHeight)
                   && c == t.ConfirmationOf(c.blockHash, header)))
            && Distinct(cs)
  {
    if order != [] {
      CollectsTheDue(t, celestiaHeight, header, order[..|order| - 1]);
    }
  }

  /** One header: exactly the due entries are confirmed, once each, in block-height order, and
      the rest stay. */
  lemma HeaderConfirmsTheDue(t: Tracker, celestiaHeight: nat, header: Hash, order: seq<Hash>)
    requires Visits(t, order)
    ensures var (t', cs) := t.OnCelestiaFinality(celestiaHeight, header, order);
            && SortedBy(HeightOf, cs) && Distinct(cs)
            && (forall c :: c in cs <==>
                  (c.blockHash in t.pending && t.pending[c.blockHash].celestiaHeight <= celestiaHeight
                   && c.blockHeight == t.pending[c.blockHash].blockHeight
                   && c.celestiaHeight == t.pending[c.blockHash].celestiaHeight && c.headerHash == header))
            && (forall h :: h in t'.pending <==> h in t.pending && t.pending[h].celestiaHeight > celestiaHeight)
            && (forall h :: h in t'.pending ==> t'.pending[h] == t.pending[h])
            && t'.finalizedHeight == celestiaHeight
  {
    var collected := t.Collect(celestiaHeight, header, order);
    CollectsTheDue(t, celestiaHeight, header, order);
    StableSortSorts(HeightOf, collected);
    SortedMembers(HeightOf, collected);
    PermutationStaysDistinct(collected, StableSort(HeightOf, collected));
  }

  lemma PermutationStaysDistinct<T(!new)>(s: seq<T>, t: seq<T>)
    requires multiset(s) == multiset(t) && Distinct(s)
    ensures Distinct(t)
  {
    forall i, j | 0 <= i < j < |t|
      ensures t[i] != t[j]
    {
      if t[i] == t[j] {
        assert t == t[..i] + [t[i]] + t[i + 1..j] + [t[j]] + t[j + 1..];
        assert multiset(t)[t[i]] >= 2;
        OnceInDistinct(s, t[i]);
      }
    }
  }

  lemma {:induction false} OnceInDistinct<T(!new)>(s: seq<T>, x: T)
    requires Distinct(s)
    ensures multiset(s)[x] <= 1
  {
    if s != [] {
      var rest := s[..|s| - 1];
      OnceInDistinct(rest, x);
      assert s == rest + [s[|s| - 1]];
      assert x == s[|s| - 1] ==> x !in rest;
    }
  }

  // ---- Whole runs ----

  datatype Event =
    | Tracked(submission: Submission)
    | Header(celestiaHeight: nat, header: Hash, order: seq<Hash>)

  function Step(t: Tracker, e: Event): (Tracker, seq<Confirmation>) {
    match e
    case Tracked(s) => (t.Track(s), [])
    case Header(c, header, order) => t.OnCelestiaFinality(c, header, order)
  }

  /** The tracker after `events`, and every confirmation it has sent, in order. */
  function Run(events: seq<Event>): (Tracker, seq<Confirmation>) {
    if events == [] then (NEW_TRACKER, [])
    else
      var (t, sent) := Run(events[..|events| - 1]);
      var (t', cs) := Step(t, events[|events| - 1]);
      (t', sent + cs)
  }

  function Submissions(events: seq<Event>): seq<Submission> {
    if events == [] then []
    else Submissions(events[..|events| - 1]) +
         match events[|events| - 1] case Tracked(s) => [s] case Header(_, _, _) => []
  }

  ghost predicate Possible(events: seq<Event>) {
    forall k :: 0 <= k < |events| && events[k].Header? ==> Visits(Run(events[..k]).0, events[k].order)
  }

  lemma PossibleBefore(events: seq<Event>)
    requires events != [] && Possible(events)
    ensures var before, e := events[..|events| - 1], events[|events| - 1];
            Possible(before) && (e.Header? ==> Visits(Run(before).0, e.order))
  {
    var before := events[..|events| - 1];
    forall k | 0 <= k < |before| && before[k].Header?
      ensures Visits(Run(before[..k]).0, before[k].order)
    {
      assert before[..k] == events[..k];
    }
  }

  /** The tracker's own height is that of the last header, whatever came before it. */
  lemma {:induction false} HeightIsTheLastHeader(events: seq<Event>, k: nat)
    requires k < |events| && events[k].Header? && forall j :: k < j < |events| ==> events[j].Tracked?
    ensures Run(events).0.finalizedHeight == events[k].celestiaHeight
  {
    if k < |events| - 1 {
      HeightIsTheLastHeader(events[..|events| - 1], k);
    }
  }

  // ---- Conservation ----

  ghost predicate DistinctHashes(subs: seq<Submission>) {
    forall i, j :: 0 <= i < j < |subs| ==> subs[i].blockHash != subs[j].blockHash
  }

  predicate IsPending(t: Tracker, s: Submission) {
    s.blockHash in t.pending && t.pending[s.blockHash] == Pending(s.blockHeight, s.celestiaHeight)
  }

  ghost predicate IsConfirmed(sent: seq<Confirmation>, s: Submission) {
    exists header :: Confirmation(s.blockHash, s.blockHeight, s.celestiaHeight, header) in sent
  }

  ghost predicate Conserved(subs: seq<Submission>, t: Tracker, sent: seq<Confirmation>) {
    && (forall s :: s in subs <==> IsPending(t, s) || IsConfirmed(sent, s))
    && (forall i, j :: 0 <= i < j < |sent| ==> sent[i].blockHash != sent[j].blockHash)
    && (forall c :: c in sent ==> c.blockHash !in t.pending)
  }

  lemma TrackConserves(subs: seq<Submission>, t: Tracker, sent: seq<Confirmation>, s: Submission)
    requires Conserved(subs, t, sent) && DistinctHashes(subs + [s])
    ensures Conserved(subs + [s], t.Track(s), sent)
  {
    var t' := t.Track(s);
    var all := subs + [s];
    forall i | 0 <= i < |subs|
      ensures subs[i].blockHash != s.blockHash
    {
      assert all[i] == subs[i] && all[|subs|] == s;
    }
    forall x: Submission
      ensures x in all <==> IsPending(t', x) || IsConfirmed(sent, x)
    {
      if x.blockHash == s.blockHash {
        assert !IsConfirmed(sent, x);
      }
    }
    forall c | c in sent
      ensures c.blockHash !in t'.pending
    {
      assert IsConfirmed(sent, Submission(c.blockHash, c.blockHeight, c.celestiaHeight));
    }
  }

  lemma HeaderConserves(subs: seq<Submission>, t: Tracker, sent: seq<Confirmation>, e: Event)
    requires Conserved(subs, t, sent) && e.Header? && Visits(t, e.order)
    ensures Conserved(subs, Step(t, e).0, sent + Step(t, e).1)
  {
    var (t', cs) := Step(t, e);
    HeaderConfirmsTheDue(t, e.celestiaHeight, e.header, e.order);
    forall x: Submission
      ensures IsPending(t, x) || IsConfirmed(sent, x) <==> IsPending(t', x) || IsConfirmed(sent + cs, x)
    {
      if IsPending(t, x) && !IsPending(t', x) {
        assert Confirmation(x.blockHash, x.blockHeight, x.celestiaHeight, e.header) in cs;
      }
      if IsConfirmed(sent, x) {
        var header :| Confirmation(x.blockHash, x.blockHeight, x.celestiaHeight, header) in sent;
        assert Confirmation(x.blockHash, x.blockHeight, x.celestiaHeight, header) in sent + cs;
      }
    }
  }

  /** With distinct hashes, what was tracked is what is pending together with what was
      confirmed, and nothing is confirmed twice. */
  lemma {:induction false} TrackedIsPendingOrConfirmed(events: seq<Event>)
    requires Possible(events) && DistinctHashes(Submissions(events))
    ensures Conserved(Submissions(events), Run(events).0, Run(events).1)
  {
    if events != [] {
      var before, e := events[..|events| - 1], events[|events| - 1];
      PossibleBefore(events);
      assert Submissions(before) <= Submissions(events);
      TrackedIsPendingOrConfirmed(before);
      if e.Tracked? {
        TrackConserves(Submissions(before), Run(before).0, Run(before).1, e.submission);
      } else {
        HeaderConserves(Submissions(before), Run(before).0, Run(before).1, e);
      }
    }
  }

  // ---- The tracker ----

  class FinalityTracker {
    var pending: map<Hash, Pending>
    var celestiaFinalizedHeight: nat

    ghost function State(): Tracker
      reads this
    {
      Tracker(pending, celestiaFinalizedHeight)
    }

    constructor ()
      ensures State() == NEW_TRACKER
    {
      pending, celestiaFinalizedHeight := map[], 0;
    }

    method Track(s: Submission)
      modifies this
      ensures State() == old(State()).Track(s)
      ensures pending == old(pending)[s.blockHash := Pending(s.blockHeight, s.celestiaHeight)]
    {
      pending := pending[s.blockHash := Pending(s.blockHeight, s.celestiaHeight)];
    }

    method OnCelestiaFinality(celestiaHeight: nat, header: Hash)
      returns (confirmations: seq<Confirmation>, ghost order: seq<Hash>)
      modifies this
      ensures Visits(old(State()), order)
      ensures (State(), confirmations) == old(State()).OnCelestiaFinality(celestiaHeight, header, order)
      ensures SortedBy(HeightOf, confirmations)
    {
      celestiaFinalizedHeight := celestiaHeight;
      confirmations, order := [], [];
      ghost var t := old(State());
      var todo := pending.Keys;
      while todo != {}
        invariant todo <= t.pending.Keys
        invariant Distinct(order) && forall h :: h in order <==> h in t.pending.Keys - todo
        invariant pending == t.pending - (t.Due(celestiaHeight) - todo)
        invariant celestiaFinalizedHeight == celestiaHeight
        invariant confirmations == t.Collect(celestiaHeight, header, order)
        decreases todo
      {
        var hash :| hash in todo;
        assert hash !in order;
        ghost var longer := order + [hash];
        assert longer[..|order|] == order;
        if pending[hash].celestiaHeight <= celestiaHeight {
          confirmations := confirmations
            + [Confirmation(hash, pending[hash].blockHeight, pending[hash].celestiaHeight, header)];
          pending := pending - {hash};
        }
        todo := todo - {hash};
        order := longer;
      }
      assert pending == t.pending - t.Due(celestiaHeight);
      confirmations := StableSort(HeightOf, confirmations);
      HeaderConfirmsTheDue(t, celestiaHeight, header, order);
    }
  }
}
