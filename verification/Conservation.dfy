/** From posting to confirmation: each posted block has one submission, which is waiting for
    its task, pending in the tracker or confirmed, and never in two of these places. */
module Conservation {
  import opened Types
  import N = Network
  import opened F = Finality
  import FO = FinalityOrder
  import B = Batching
  import opened Pipeline
  import opened Causality
  import opened HandOff

  // ---- What is posted ----

  /** Without batching, blocks are posted one at a time and a failed one is let go. */
  ghost predicate ImmediateInv(c: Config, s: Node) {
    && Rises(s.posted)
    && (forall i :: 0 <= i < |s.posted| ==> s.posted[i] in Led(c, s.done))
    && (s.callback.Leading? ==> forall i :: 0 <= i < |s.posted| ==> s.posted[i].height < s.callback.block.height)
  }

  lemma StillLed(c: Config, blocks: seq<Block>, b: Block, posted: seq<Block>)
    requires forall i :: 0 <= i < |posted| ==> posted[i] in Led(c, blocks)
    ensures forall i :: 0 <= i < |posted| ==> posted[i] in Led(c, blocks + [b])
  {
    LedAppend(c, blocks, b);
  }

  lemma {:induction false} CallbackKeepsImmediateInv(c: Config, s: Node, ok: bool, outcome: Option<nat>)
    requires !c.batching && LogInv(c, s) && ExecutedInv(s) && DoneInv(c, s) && ImmediateInv(c, s)
    ensures ImmediateInv(c, CallbackNext(c, s, ok, outcome))
  {
    if s.callback.SoftWritten? {
      StillLed(c, s.done, s.callback.block, s.posted);
      PostedAreLower(c, s);
    } else if s.callback.Leading? {
      assert s.callback.block in s.done;
      LedHasAll(c, s.done, s.callback.block);
    } else {
      CallbackLeavesTheLine(c, s, ok, outcome);
    }
  }

  lemma PostedAreLower(c: Config, s: Node)
    requires LogInv(c, s) && ExecutedInv(s) && DoneInv(c, s) && s.callback.SoftWritten?
    requires forall i :: 0 <= i < |s.posted| ==> s.posted[i] in Led(c, s.done)
    ensures forall i :: 0 <= i < |s.posted| ==> s.posted[i].height < s.callback.block.height
  {
    var b := s.callback.block;
    assert AtHeight(c, s.log[s.taken - 1], c.h0 + (s.taken - 1)) && s.log[s.taken - 1] == b;
    forall i | 0 <= i < |s.posted|
      ensures s.posted[i].height < b.height
    {
      assert s.posted[i] in s.done;
      var k :| 0 <= k < |s.done| && s.done[k] == s.posted[i];
      assert FromLog(c, s.log, s.done[k], Frontier(s));
    }
  }

  lemma OthersLeavePosted(c: Config, s: Node, step: Step)
    requires !c.batching && !step.CallbackStep?
    ensures var t := Next(c, s, step);
      t.posted == s.posted && t.callback == s.callback && t.done == s.done && t.submitted == s.submitted
  {
  }

  /** Either way posted blocks are blocks this validator executed and leads, in height order. */
  ghost predicate PostedInv(c: Config, s: Node) {
    Rises(s.posted) && forall i :: 0 <= i < |s.posted| ==> s.posted[i] in Led(c, s.done)
  }

  lemma BatchesArePosted(c: Config, s: Node)
    requires DoneInv(c, s) && BatchInv(c, s)
    ensures PostedInv(c, s)
  {
    LedRises(c, s.done);
    var led := Led(c, s.done);
    assert forall i :: 0 <= i < |s.posted| ==> s.posted[i] == InBatch(s)[i] == led[i];
  }

  // ---- What is submitted ----

  ghost predicate Matches(blocks: seq<Block>, subs: seq<Submission>) {
    |subs| == |blocks| && forall i :: 0 <= i < |subs| ==> subs[i] == SubmissionOf(blocks[i], subs[i].celestiaHeight)
  }

  ghost predicate TrackerInv(s: Node) {
    && Matches(s.posted, s.submitted)
    && Possible(s.events) && Run(s.events) == (s.tracker, s.confirmed)
    && multiset(Submissions(s.events)) + multiset(s.spawned) == multiset(s.submitted)
  }

  lemma PostKeepsTrackerInv(s: Node, blocks: seq<Block>, celestiaHeight: nat)
    requires TrackerInv(s)
    ensures TrackerInv(Post(s, blocks, celestiaHeight))
  {
  }

  lemma TrackerInvDependsOn(s: Node, t: Node)
    requires TrackerInv(s)
    requires t.posted == s.posted && t.submitted == s.submitted && t.spawned == s.spawned
    requires t.tracker == s.tracker && t.events == s.events && t.confirmed == s.confirmed
    ensures TrackerInv(t)
  {
  }

  lemma {:induction false} CallbackKeepsTrackerInv(c: Config, s: Node, ok: bool, outcome: Option<nat>)
    requires TrackerInv(s)
    ensures TrackerInv(CallbackNext(c, s, ok, outcome))
  {
    var t := CallbackNext(c, s, ok, outcome);
    if s.callback.Leading? && !c.batching && outcome.Some? {
      PostKeepsTrackerInv(s, [s.callback.block], outcome.value);
      TrackerInvDependsOn(Post(s, [s.callback.block], outcome.value), t);
    } else {
      TrackerInvDependsOn(s, t);
    }
  }

  lemma BatchRunKeepsTrackerInv(s: Node, e: B.Event, outcome: Option<nat>, maxBatchSize: nat)
    requires TrackerInv(s)
    ensures TrackerInv(BatchRun(s, e, outcome, maxBatchSize))
  {
    var t := BatchRun(s, e, outcome, maxBatchSize);
    var batch := s.batch.Step(e, outcome, maxBatchSize);
    if |batch.landed| > |s.batch.landed| {
      var landed := batch.landed[|batch.landed| - 1];
      PostKeepsTrackerInv(s, landed.blocks, landed.celestiaHeight);
      TrackerInvDependsOn(Post(s, landed.blocks, landed.celestiaHeight), t);
    } else {
      TrackerInvDependsOn(s, t);
    }
  }

  lemma {:induction false} BatchKeepsTrackerInv(c: Config, s: Node, input: BatchInput, outcome: Option<nat>)
    requires TrackerInv(s)
    ensures TrackerInv(BatchNext(c, s, input, outcome))
  {
    match input {
      case Tick => BatchRunKeepsTrackerInv(s, B.Tick, outcome, c.maxBatchSize);
      case Close => BatchRunKeepsTrackerInv(s, B.QueueClosed, outcome, c.maxBatchSize);
      case Take =>
        if s.queue != [] {
          TrackerInvDependsOn(s, s.(queue := s.queue[1..]));
          BatchRunKeepsTrackerInv(s.(queue := s.queue[1..]), B.Received(s.queue[0]), outcome, c.maxBatchSize);
        }
    }
  }

  lemma HeaderKeepsTrackerInv(s: Node, e: Event)
    requires TrackerInv(s) && e.Header? && Visits(s.tracker, e.order)
    ensures TrackerInv(Track(s, e))
  {
    FO.OneMore(s.events, e);
    assert Submissions(s.events) + [] == Submissions(s.events);
  }

  lemma TrackKeepsTrackerInv(s: Node, index: nat)
    requires TrackerInv(s)
    ensures TrackerInv(TrackNext(s, index))
  {
    if index < |s.spawned| {
      TrackOneKeepsTrackerInv(s, index);
    }
  }

  lemma TrackOneKeepsTrackerInv(s: Node, index: nat)
    requires TrackerInv(s) && index < |s.spawned|
    ensures TrackerInv(Track(s.(spawned := s.spawned[..index] + s.spawned[index + 1..]), Tracked(s.spawned[index])))
  {
    var x := s.spawned[index];
    FO.OneMore(s.events, Tracked(x));
    TakeOut(s.spawned, index);
    assert multiset(Submissions(s.events) + [x]) == multiset(Submissions(s.events)) + multiset{x};
  }

  lemma TakeOut<T>(s: seq<T>, index: nat)
    requires index < |s|
    ensures multiset(s) == multiset{s[index]} + multiset(s[..index] + s[index + 1..])
  {
    assert s == s[..index] + [s[index]] + s[index + 1..];
  }

  lemma AppAndConfirmLeaveTracking(c: Config, s: Node, step: Step)
    requires step.AppStep? || step.ConfirmStep?
    ensures var t := Next(c, s, step);
      && t.posted == s.posted && t.submitted == s.submitted && t.spawned == s.spawned
      && t.tracker == s.tracker && t.events == s.events && t.confirmed == s.confirmed
  {
  }

  lemma {:induction false} NextKeepsTrackerInv(c: Config, s: Node, step: Step)
    requires TrackerInv(s) && Allowed(c, s, step)
    ensures TrackerInv(Next(c, s, step))
  {
    var t := Next(c, s, step);
    match step {
      case CallbackStep(ok, outcome) => CallbackKeepsTrackerInv(c, s, ok, outcome);
      case BatchStep(input, outcome) => BatchKeepsTrackerInv(c, s, input, outcome);
      case TrackStep(index) => TrackKeepsTrackerInv(s, index);
      case HeaderStep(height, header, order) => HeaderKeepsTrackerInv(s, Header(height, header, order));
      case _ =>
        AppAndConfirmLeaveTracking(c, s, step);
        TrackerInvDependsOn(s, t);
    }
  }

  lemma StartTrackerInv(c: Config)
    ensures TrackerInv(Start(c))
  {
  }

  lemma {:induction false} RunsKeepTrackerInv(c: Config, steps: seq<Step>)
    requires AllAllowed(c, steps)
    ensures TrackerInv(After(c, steps))
  {
    if steps == [] {
      StartTrackerInv(c);
    } else {
      AllowedBefore(c, steps);
      RunsKeepTrackerInv(c, steps[..|steps| - 1]);
      NextKeepsTrackerInv(c, After(c, steps[..|steps| - 1]), steps[|steps| - 1]);
    }
  }

  lemma {:induction false} RunsKeepPostedInv(c: Config, steps: seq<Step>)
    requires AllAllowed(c, steps)
    ensures PostedInv(c, After(c, steps))
    ensures !c.batching ==> ImmediateInv(c, After(c, steps))
  {
    RunsKeepDoneInv(c, steps);
    if c.batching {
      BatchesArePosted(c, After(c, steps));
    } else if steps != [] {
      var s, step := After(c, steps[..|steps| - 1]), steps[|steps| - 1];
      AllowedBefore(c, steps);
      RunsKeepPostedInv(c, steps[..|steps| - 1]);
      RunsKeepDoneInv(c, steps[..|steps| - 1]);
      if step.CallbackStep? {
        CallbackKeepsImmediateInv(c, s, step.ok, step.outcome);
      } else {
        OthersLeavePosted(c, s, step);
      }
    }
  }

  // ---- Conservation ----

  lemma PostedAreNamed(c: Config, s: Node, i: nat)
    requires LogInv(c, s) && DoneInv(c, s) && PostedInv(c, s) && i < |s.posted|
    ensures s.posted[i] == N.BlockOf(c.world, s.posted[i].blockHash)
  {
    assert s.posted[i] in Led(c, s.done) && s.posted[i] in s.done;
    var k :| 0 <= k < |s.done| && s.done[k] == s.posted[i];
    assert FromLog(c, s.log, s.done[k], Frontier(s));
    var q := s.done[k].height - c.h0;
    assert AtHeight(c, s.log[q], c.h0 + q);
  }

  lemma SubmittedOnce(c: Config, s: Node)
    requires LogInv(c, s) && DoneInv(c, s) && PostedInv(c, s) && Matches(s.posted, s.submitted)
    ensures DistinctHashes(s.submitted)
  {
    forall i, j | 0 <= i < j < |s.submitted|
      ensures s.submitted[i].blockHash != s.submitted[j].blockHash
    {
      PostedAreNamed(c, s, i);
      PostedAreNamed(c, s, j);
    }
  }

  /** A sequence splits into two parts; if its hashes are distinct, so are those of each
      part, and the parts share none. */
  lemma PartsAreDistinct(whole: seq<Submission>, part: seq<Submission>, other: seq<Submission>)
    requires multiset(part) + multiset(other) == multiset(whole) && DistinctHashes(whole)
    ensures DistinctHashes(part) && forall x, y :: x in part && y in other ==> x.blockHash != y.blockHash
  {
    forall x, y | x in whole && y in whole && x.blockHash == y.blockHash
      ensures x == y
    {
      var i :| 0 <= i < |whole| && whole[i] == x;
      var j :| 0 <= j < |whole| && whole[j] == y;
    }
    forall i, j | 0 <= i < j < |part|
      ensures part[i].blockHash != part[j].blockHash
    {
      InWhole(whole, part, other, part[i]);
      InWhole(whole, part, other, part[j]);
      if part[i] == part[j] {
        Twice(part, i, j);
        OnceInWhole(whole, part[i]);
      }
    }
    forall x, y | x in part && y in other
      ensures x.blockHash != y.blockHash
    {
      InWhole(whole, part, other, x);
      InWhole(whole, other, part, y);
      assert x in multiset(part) && y in multiset(other);
      OnceInWhole(whole, x);
    }
  }

  lemma InWhole(whole: seq<Submission>, part: seq<Submission>, other: seq<Submission>, x: Submission)
    requires multiset(part) + multiset(other) == multiset(whole) && x in part
    ensures x in whole
  {
    assert x in multiset(part) && x in multiset(whole);
  }

  lemma Twice(s: seq<Submission>, i: nat, j: nat)
    requires i < j < |s| && s[i] == s[j]
    ensures multiset(s)[s[i]] >= 2
  {
    assert s == s[..i] + [s[i]] + s[i + 1..j] + [s[j]] + s[j + 1..];
  }

  lemma OnceInWhole(whole: seq<Submission>, x: Submission)
    requires DistinctHashes(whole)
    ensures multiset(whole)[x] <= 1
  {
    OnceInDistinct(whole, x);
  }

  /** Each posted block has exactly one submission; a submission is waiting to be tracked,
      pending or confirmed, and only one of these; no block is confirmed twice. */
  lemma {:induction false} SubmissionsAreConserved(c: Config, steps: seq<Step>)
    requires AllAllowed(c, steps)
    ensures var s := After(c, steps);
      && Rises(s.posted) && Matches(s.posted, s.submitted)
      && (forall x :: x in s.submitted <==> x in s.spawned || IsPending(s.tracker, x) || IsConfirmed(s.confirmed, x))
      && (forall x :: x in s.spawned ==> !IsPending(s.tracker, x) && !IsConfirmed(s.confirmed, x))
      && (forall x :: IsPending(s.tracker, x) ==> !IsConfirmed(s.confirmed, x))
      && (forall i, j :: 0 <= i < j < |s.confirmed| ==> s.confirmed[i].blockHash != s.confirmed[j].blockHash)
  {
    var s := After(c, steps);
    RunsKeepDoneInv(c, steps);
    RunsKeepPostedInv(c, steps);
    RunsKeepTrackerInv(c, steps);
    SubmittedOnce(c, s);
    PartsAreDistinct(s.submitted, Submissions(s.events), s.spawned);
    TrackedIsPendingOrConfirmed(s.events);
    EachPartIsTheRest(s.submitted, Submissions(s.events), s.spawned);
    assert Conserved(Submissions(s.events), s.tracker, s.confirmed);
  }

  lemma EachPartIsTheRest(whole: seq<Submission>, part: seq<Submission>, other: seq<Submission>)
    requires multiset(part) + multiset(other) == multiset(whole)
    ensures forall x :: x in whole <==> x in part || x in other
  {
    forall x
      ensures x in whole <==> x in part || x in other
    {
      assert x in whole <==> x in multiset(whole);
      assert x in part <==> x in multiset(part);
      assert x in other <==> x in multiset(other);
    }
  }
}
