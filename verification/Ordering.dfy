/** The order of forkchoice updates: exactly when a pointer moves back, and why none does
    when each update runs alone. */
module Ordering {
  import opened Types
  import N = Network
  import opened Forkchoice
  import opened F = Finality
  import FO = FinalityOrder
  import B = Batching
  import opened Sorting
  import opened Pipeline
  import opened Causality
  import opened HandOff
  import opened Conservation

  function Height(c: Config, h: Hash): nat { c.world(h).number }

  // ---- What is assumed of the environment ----

  /** Spawned tasks run in the order they were spawned, and Celestia heights do not fall from
      one submission to the next. */
  ghost predicate InSequence(s: Node, step: Step) {
    match step
    case TrackStep(index) => index == 0
    case CallbackStep(_, outcome) => outcome.Some? ==> NotBelow(s.submitted, outcome.value)
    case BatchStep(_, outcome) => outcome.Some? ==> NotBelow(s.submitted, outcome.value)
    case _ => true
  }

  ghost predicate NotBelow(subs: seq<Submission>, celestiaHeight: nat) {
    forall i :: 0 <= i < |subs| ==> subs[i].celestiaHeight <= celestiaHeight
  }

  ghost predicate AllInSequence(c: Config, steps: seq<Step>) {
    forall k :: 0 <= k < |steps| ==> InSequence(After(c, steps[..k]), steps[k])
  }

  lemma {:induction false} InSequenceBefore(c: Config, steps: seq<Step>)
    requires steps != [] && AllInSequence(c, steps)
    ensures AllInSequence(c, steps[..|steps| - 1])
    ensures InSequence(After(c, steps[..|steps| - 1]), steps[|steps| - 1])
  {
    var before := steps[..|steps| - 1];
    forall k | 0 <= k < |before|
      ensures InSequence(After(c, before[..k]), before[k])
    {
      assert before[..k] == steps[..k];
    }
  }

  // ---- Confirmations come in height order ----

  ghost predicate CelestiaRises(subs: seq<Submission>) {
    forall i, j :: 0 <= i < j < |subs| ==> subs[i].celestiaHeight <= subs[j].celestiaHeight
  }

  ghost predicate SequenceInv(s: Node) {
    s.submitted == Submissions(s.events) + s.spawned && CelestiaRises(s.submitted)
  }

  lemma SequenceInvDependsOn(s: Node, t: Node)
    requires SequenceInv(s)
    requires t.submitted == s.submitted && t.spawned == s.spawned && t.events == s.events
    ensures SequenceInv(t)
  {
  }

  lemma PostKeepsSequenceInv(s: Node, blocks: seq<Block>, celestiaHeight: nat)
    requires SequenceInv(s) && NotBelow(s.submitted, celestiaHeight)
    ensures SequenceInv(Post(s, blocks, celestiaHeight))
  {
    Associative(Submissions(s.events), s.spawned, SubmissionsOf(blocks, celestiaHeight));
  }

  lemma CallbackKeepsSequenceInv(c: Config, s: Node, ok: bool, outcome: Option<nat>)
    requires SequenceInv(s) && (outcome.Some? ==> NotBelow(s.submitted, outcome.value))
    ensures SequenceInv(CallbackNext(c, s, ok, outcome))
  {
    var t := CallbackNext(c, s, ok, outcome);
    if s.callback.Leading? && !c.batching && outcome.Some? {
      PostKeepsSequenceInv(s, [s.callback.block], outcome.value);
      SequenceInvDependsOn(Post(s, [s.callback.block], outcome.value), t);
    } else {
      SequenceInvDependsOn(s, t);
    }
  }

  lemma BatchRunKeepsSequenceInv(s: Node, e: B.Event, outcome: Option<nat>, maxBatchSize: nat)
    requires SequenceInv(s) && s.batch.running && (outcome.Some? ==> NotBelow(s.submitted, outcome.value))
    ensures SequenceInv(BatchRun(s, e, outcome, maxBatchSize))
  {
    var t := BatchRun(s, e, outcome, maxBatchSize);
    var batch := s.batch.Step(e, outcome, maxBatchSize);
    BatchKeepsOrLands(s.batch, e, outcome, maxBatchSize);
    if |batch.landed| > |s.batch.landed| {
      var landed := batch.landed[|batch.landed| - 1];
      PostKeepsSequenceInv(s, landed.blocks, landed.celestiaHeight);
      SequenceInvDependsOn(Post(s, landed.blocks, landed.celestiaHeight), t);
    } else {
      SequenceInvDependsOn(s, t);
    }
  }

  lemma {:induction false} BatchKeepsSequenceInv(c: Config, s: Node, input: BatchInput, outcome: Option<nat>)
    requires SequenceInv(s) && (outcome.Some? ==> NotBelow(s.submitted, outcome.value))
    ensures SequenceInv(BatchNext(c, s, input, outcome))
  {
    if c.batching && s.batch.running {
      match input {
        case Tick => BatchRunKeepsSequenceInv(s, B.Tick, outcome, c.maxBatchSize);
        case Close => BatchRunKeepsSequenceInv(s, B.QueueClosed, outcome, c.maxBatchSize);
        case Take =>
          if s.queue != [] {
            SequenceInvDependsOn(s, s.(queue := s.queue[1..]));
            BatchRunKeepsSequenceInv(s.(queue := s.queue[1..]), B.Received(s.queue[0]), outcome, c.maxBatchSize);
          }
      }
    }
  }

  lemma TrackKeepsSequenceInv(s: Node)
    requires TrackerInv(s) && SequenceInv(s)
    ensures SequenceInv(TrackNext(s, 0))
  {
    if s.spawned != [] {
      var t := TrackNext(s, 0);
      var first, rest := s.spawned[0], s.spawned[1..];
      assert t.spawned == rest && t.submitted == s.submitted by {
        assert s.spawned[..0] + s.spawned[1..] == rest;
      }
      assert Submissions(t.events) == Submissions(s.events) + [first] by {
        FO.OneMore(s.events, Tracked(first));
      }
      MoveFirst(Submissions(s.events), s.spawned);
    }
  }

  lemma MoveFirst<T>(s: seq<T>, t: seq<T>)
    requires t != []
    ensures s + t == s + [t[0]] + t[1..]
  {
  }

  lemma HeaderKeepsSequenceInv(s: Node, e: Event)
    requires TrackerInv(s) && SequenceInv(s) && e.Header? && Visits(s.tracker, e.order)
    ensures SequenceInv(Track(s, e))
  {
    FO.OneMore(s.events, e);
    assert Submissions(s.events) + [] == Submissions(s.events);
  }

  lemma AppKeepsSequenceInv(c: Config, s: Node, input: AppInput, ok: bool)
    requires SequenceInv(s)
    ensures SequenceInv(AppNext(c, s, input, ok))
  {
    SequenceInvDependsOn(s, AppNext(c, s, input, ok));
  }

  lemma ConfirmKeepsSequenceInv(s: Node, ok: bool)
    requires SequenceInv(s)
    ensures SequenceInv(ConfirmNext(s, ok))
  {
    SequenceInvDependsOn(s, ConfirmNext(s, ok));
  }

  lemma {:induction false} NextKeepsSequenceInv(c: Config, s: Node, step: Step)
    requires TrackerInv(s) && SequenceInv(s) && Allowed(c, s, step) && InSequence(s, step)
    ensures SequenceInv(Next(c, s, step))
  {
    match step {
      case AppStep(input, ok) => AppKeepsSequenceInv(c, s, input, ok);
      case CallbackStep(ok, outcome) => CallbackKeepsSequenceInv(c, s, ok, outcome);
      case BatchStep(input, outcome) => BatchKeepsSequenceInv(c, s, input, outcome);
      case TrackStep(_) => TrackKeepsSequenceInv(s);
      case HeaderStep(height, header, order) => HeaderKeepsSequenceInv(s, Header(height, header, order));
      case ConfirmStep(ok) => ConfirmKeepsSequenceInv(s, ok);
    }
  }

  /** A confirmation carries the height of the block its hash names. */
  ghost predicate ConfirmedRise(c: Config, s: Node) {
    && (forall i :: 0 <= i < |s.confirmed| ==>
          Height(c, s.confirmed[i].blockHash) >= c.h0 && Names(s.posted, s.confirmed[i].blockHash))
    && (forall i, j :: 0 <= i < j < |s.confirmed| ==>
          Height(c, s.confirmed[i].blockHash) < Height(c, s.confirmed[j].blockHash))
  }

  lemma TrackedInOrder(s: Node)
    requires Rises(s.posted) && Matches(s.posted, s.submitted) && SequenceInv(s)
    ensures FO.InOrder(Submissions(s.events))
  {
    var subs := Submissions(s.events);
    forall i, j | 0 <= i < j < |subs|
      ensures FO.Ordered(subs[i], subs[j])
    {
      assert subs[i] == s.submitted[i] && subs[j] == s.submitted[j];
      assert s.posted[i].height < s.posted[j].height;
    }
  }

  /** The posted block behind a confirmation. */
  lemma ConfirmedWasPosted(c: Config, s: Node, i: nat) returns (k: nat)
    requires LogInv(c, s) && DoneInv(c, s) && PostedInv(c, s) && TrackerInv(s)
    requires DistinctHashes(Submissions(s.events)) && i < |s.confirmed|
    ensures k < |s.posted| && s.posted[k].blockHash == s.confirmed[i].blockHash
    ensures s.posted[k].height == s.confirmed[i].blockHeight == Height(c, s.confirmed[i].blockHash)
    ensures s.posted[k] in s.done
  {
    var x := s.confirmed[i];
    TrackedIsPendingOrConfirmed(s.events);
    var sub := Submission(x.blockHash, x.blockHeight, x.celestiaHeight);
    assert IsConfirmed(s.confirmed, sub);
    EachPartIsTheRest(s.submitted, Submissions(s.events), s.spawned);
    assert sub in s.submitted;
    k :| 0 <= k < |s.submitted| && s.submitted[k] == sub;
    PostedAreNamed(c, s, k);
  }

  lemma {:induction false} ConfirmationsRise(c: Config, s: Node)
    requires LogInv(c, s) && DoneInv(c, s) && PostedInv(c, s) && TrackerInv(s) && SequenceInv(s)
    ensures ConfirmedRise(c, s) && SortedBy(HeightOf, s.confirmed)
  {
    SubmittedOnce(c, s);
    PartsAreDistinct(s.submitted, Submissions(s.events), s.spawned);
    TrackedInOrder(s);
    FO.InOrderKeepsOrder(s.events);
    TrackedIsPendingOrConfirmed(s.events);
    forall i | 0 <= i < |s.confirmed|
      ensures Height(c, s.confirmed[i].blockHash) >= c.h0 && Names(s.posted, s.confirmed[i].blockHash)
    {
      var k := ConfirmedWasPosted(c, s, i);
      var d :| 0 <= d < |s.done| && s.done[d] == s.posted[k];
      assert FromLog(c, s.log, s.done[d], Frontier(s));
    }
    forall i, j | 0 <= i < j < |s.confirmed|
      ensures Height(c, s.confirmed[i].blockHash) < Height(c, s.confirmed[j].blockHash)
    {
      var k := ConfirmedWasPosted(c, s, i);
      var l := ConfirmedWasPosted(c, s, j);
      assert HeightOf(s.confirmed[i]) <= HeightOf(s.confirmed[j]);
      assert s.confirmed[i].blockHash != s.confirmed[j].blockHash;
    }
  }

  // ---- What the pointers can be ----

  /** How many confirmations have been dealt with. */
  function Settled(s: Node): int {
    |s.confirmed| - |s.channel| - if ConfirmationInHand(s.confirm).Some? then 1 else 0
  }

  ghost predicate ChannelInv(s: Node) {
    && 0 <= Settled(s) && |s.channel| <= |s.confirmed|
    && s.channel == s.confirmed[|s.confirmed| - |s.channel|..]
    && (ConfirmationInHand(s.confirm).Some? ==>
          ConfirmationInHand(s.confirm).value == s.confirmed[Settled(s)])
  }

  /** Genesis, or one of the first `n` confirmed blocks. */
  ghost predicate FirmBefore(c: Config, s: Node, h: Hash, n: int) {
    h == c.genesis || exists i :: 0 <= i < n && i < |s.confirmed| && s.confirmed[i].blockHash == h
  }

  /** The blocks that have been head. */
  function Heads(s: Node): seq<Block> {
    if s.callback.SoftWritten? then s.done + [s.callback.block] else s.done
  }

  ghost predicate HeadBefore(c: Config, s: Node, h: Hash) {
    h == c.genesis || Names(Heads(s), h)
  }

  /** The snapshot a soft update took has its block for a head and an earlier finalized; the
      one a firm update took has its confirmation and an earlier head. Neither is later than
      the pointer it did not mean to move. */
  ghost predicate PointersInv(c: Config, s: Node) {
    && FirmBefore(c, s, s.sequencerState.finalized, Settled(s))
    && HeadBefore(c, s, s.sequencerState.head)
    && (ByCallback(s.callback).Some? ==>
          var state := ByCallback(s.callback).value;
          && state.head == BlockInHand(s.callback).value.blockHash
          && FirmBefore(c, s, state.finalized, Settled(s))
          && Height(c, state.finalized) <= Height(c, s.sequencerState.finalized)
          && (state.finalized != s.sequencerState.finalized ==>
                Height(c, state.finalized) < Height(c, s.sequencerState.finalized)))
    && (ByConfirm(s.confirm).Some? ==>
          var state := ByConfirm(s.confirm).value;
          && state.finalized == ConfirmationInHand(s.confirm).value.blockHash
          && HeadBefore(c, s, state.head)
          && (state.head != s.sequencerState.head ==>
                Height(c, state.head) < Height(c, s.sequencerState.head)))
  }

  // ---- The channel ----

  lemma ConfirmKeepsChannelInv(s: Node, ok: bool)
    requires ChannelInv(s)
    ensures ChannelInv(ConfirmNext(s, ok))
    ensures Settled(s) <= Settled(ConfirmNext(s, ok))
  {
    if s.confirm.Listening? && s.channel != [] {
      DropFirst(s.confirmed, |s.channel|);
    }
  }

  lemma DropFirst<T>(s: seq<T>, n: nat)
    requires 0 < n <= |s|
    ensures s[|s| - n..][1..] == s[|s| - (n - 1)..] && s[|s| - n..][0] == s[|s| - n]
  {
  }

  lemma TrackKeepsChannelInv(s: Node, e: Event)
    requires ChannelInv(s)
    ensures ChannelInv(Track(s, e)) && Settled(Track(s, e)) == Settled(s) && s.confirmed <= Track(s, e).confirmed
  {
  }

  lemma ChannelInvDependsOn(s: Node, t: Node)
    requires ChannelInv(s) && t.confirmed == s.confirmed && t.channel == s.channel && t.confirm == s.confirm
    ensures ChannelInv(t) && Settled(t) == Settled(s)
  {
  }

  lemma TrackNextKeepsChannelInv(s: Node, index: nat)
    requires ChannelInv(s)
    ensures var t := TrackNext(s, index); ChannelInv(t) && Settled(t) == Settled(s) && s.confirmed <= t.confirmed
  {
    if index < |s.spawned| {
      var u := s.(spawned := s.spawned[..index] + s.spawned[index + 1..]);
      ChannelInvDependsOn(s, u);
      TrackKeepsChannelInv(u, Tracked(s.spawned[index]));
    }
  }

  lemma OthersLeaveChannel(c: Config, s: Node, step: Step)
    requires step.AppStep? || step.CallbackStep? || step.BatchStep?
    ensures var t := Next(c, s, step);
      t.confirmed == s.confirmed && t.channel == s.channel && t.confirm == s.confirm
  {
    match step {
      case AppStep(_, _) =>
      case CallbackStep(_, _) =>
      case BatchStep(input, outcome) => BatchLeavesChannel(c, s, input, outcome);
      case _ =>
    }
  }

  lemma BatchLeavesChannel(c: Config, s: Node, input: BatchInput, outcome: Option<nat>)
    ensures var t := BatchNext(c, s, input, outcome);
      t.confirmed == s.confirmed && t.channel == s.channel && t.confirm == s.confirm
  {
  }

  lemma {:induction false} NextKeepsChannelInv(c: Config, s: Node, step: Step)
    requires ChannelInv(s)
    ensures var t := Next(c, s, step); ChannelInv(t) && Settled(s) <= Settled(t) && s.confirmed <= t.confirmed
  {
    match step {
      case TrackStep(index) =>
        TrackNextKeepsChannelInv(s, index);
      case HeaderStep(height, header, order) => TrackKeepsChannelInv(s, Header(height, header, order));
      case ConfirmStep(ok) => ConfirmKeepsChannelInv(s, ok);
      case _ =>
        OthersLeaveChannel(c, s, step);
        ChannelInvDependsOn(s, Next(c, s, step));
    }
  }

  // ---- Heights ----

  lemma DoneHeight(c: Config, s: Node, i: nat)
    requires LogInv(c, s) && DoneInv(c, s) && i < |s.done|
    ensures s.done[i].height == Height(c, s.done[i].blockHash)
    ensures c.h0 <= s.done[i].height < c.h0 + Frontier(s)
  {
    assert FromLog(c, s.log, s.done[i], Frontier(s));
    var q := s.done[i].height - c.h0;
    assert AtHeight(c, s.log[q], c.h0 + q);
  }

  lemma InHandHeight(c: Config, s: Node)
    requires LogInv(c, s) && ExecutedInv(s) && BlockInHand(s.callback).Some?
    ensures var b := BlockInHand(s.callback).value; Height(c, b.blockHash) == b.height == c.h0 + s.taken - 1
  {
    assert AtHeight(c, s.log[s.taken - 1], c.h0 + (s.taken - 1));
  }

  /** Before it is written, the block in hand is above everything that has been head. */
  lemma SoftIsHigher(c: Config, s: Node, h: Hash)
    requires ValidConfig(c) && LogInv(c, s) && ExecutedInv(s) && DoneInv(c, s) && HeadBefore(c, s, h)
    requires s.callback.SoftTaken?
    ensures Height(c, h) < Height(c, s.callback.block.blockHash)
  {
    InHandHeight(c, s);
    if h != c.genesis {
      var i :| 0 <= i < |s.done| && s.done[i].blockHash == h;
      DoneHeight(c, s, i);
    }
  }

  /** Before it is written, the confirmation in hand is above everything that has been
      finalized. */
  lemma FirmIsHigher(c: Config, s: Node, h: Hash)
    requires ValidConfig(c) && ConfirmedRise(c, s) && ChannelInv(s) && FirmBefore(c, s, h, Settled(s))
    requires ConfirmationInHand(s.confirm).Some?
    ensures Height(c, h) < Height(c, ConfirmationInHand(s.confirm).value.blockHash)
  {
    var n := Settled(s);
    assert s.confirmed[n] == ConfirmationInHand(s.confirm).value;
    if h != c.genesis {
      var i :| 0 <= i < n && s.confirmed[i].blockHash == h;
    }
  }

  // ---- The pointers ----

  lemma FirmBeforeGrows(c: Config, s: Node, t: Node, h: Hash, m: int, n: int)
    requires FirmBefore(c, s, h, m) && m <= n && s.confirmed <= t.confirmed
    ensures FirmBefore(c, t, h, n)
  {
    if h != c.genesis {
      var i :| 0 <= i < m && i < |s.confirmed| && s.confirmed[i].blockHash == h;
      assert t.confirmed[i].blockHash == h;
    }
  }

  lemma HeadBeforeGrows(c: Config, s: Node, t: Node, h: Hash)
    requires HeadBefore(c, s, h) && Heads(s) <= Heads(t)
    ensures HeadBefore(c, t, h)
  {
    if h != c.genesis {
      NamesMore(Heads(s), Heads(t), h);
    }
  }

  /** Steps that write neither pointer and take no snapshot. */
  lemma PointersInvDependsOn(c: Config, s: Node, t: Node)
    requires PointersInv(c, s)
    requires t.sequencerState == s.sequencerState && s.confirmed <= t.confirmed
    requires Settled(s) <= Settled(t) && Heads(s) <= Heads(t)
    requires ByCallback(t.callback).Some? ==>
      ByCallback(t.callback) == ByCallback(s.callback) && BlockInHand(t.callback) == BlockInHand(s.callback)
    requires ByConfirm(t.confirm).Some? ==>
      ByConfirm(t.confirm) == ByConfirm(s.confirm) && ConfirmationInHand(t.confirm) == ConfirmationInHand(s.confirm)
    ensures PointersInv(c, t)
  {
    FirmBeforeGrows(c, s, t, s.sequencerState.finalized, Settled(s), Settled(t));
    HeadBeforeGrows(c, s, t, s.sequencerState.head);
    if ByCallback(t.callback).Some? {
      FirmBeforeGrows(c, s, t, ByCallback(s.callback).value.finalized, Settled(s), Settled(t));
    }
    if ByConfirm(t.confirm).Some? {
      HeadBeforeGrows(c, s, t, ByConfirm(s.confirm).value.head);
    }
  }

  lemma {:induction false} SoftWriteKeepsPointersInv(c: Config, s: Node, t: Node)
    requires ValidConfig(c) && LogInv(c, s) && ExecutedInv(s) && DoneInv(c, s) && PointersInv(c, s)
    requires s.callback.SoftTaken?
    requires t == s.(sequencerState := s.callback.state, callback := SoftWritten(s.callback.block))
    ensures PointersInv(c, t)
  {
    var b := s.callback.block;
    assert Heads(t) == Heads(s) + [b];
    assert Heads(t)[|s.done|].blockHash == b.blockHash;
    if ByConfirm(s.confirm).Some? {
      SoftIsHigher(c, s, ByConfirm(s.confirm).value.head);
      HeadBeforeGrows(c, s, t, ByConfirm(s.confirm).value.head);
    }
  }

  lemma FirmWriteKeepsPointersInv(c: Config, s: Node, t: Node)
    requires ValidConfig(c) && ConfirmedRise(c, s) && ChannelInv(s) && PointersInv(c, s)
    requires s.confirm.FirmTaken?
    requires t == s.(sequencerState := s.confirm.state, confirm := Listening)
    ensures PointersInv(c, t)
  {
    assert s.confirmed[Settled(s)].blockHash == s.confirm.state.finalized;
    assert Settled(t) == Settled(s) + 1;
    if ByCallback(s.callback).Some? {
      var h := ByCallback(s.callback).value.finalized;
      FirmIsHigher(c, s, h);
      FirmBeforeGrows(c, s, t, h, Settled(s), Settled(t));
    }
  }

  lemma SoftReadKeepsPointersInv(c: Config, s: Node, t: Node)
    requires PointersInv(c, s) && s.callback.Executed?
    requires t == s.(callback := SoftRead(s.callback.block, s.sequencerState.WithSoft(s.callback.block.blockHash)))
    ensures PointersInv(c, t)
  {
    assert Heads(t) == Heads(s) && Settled(t) == Settled(s);
  }

  lemma FirmReadKeepsPointersInv(c: Config, s: Node, t: Node)
    requires PointersInv(c, s) && s.confirm.Checked?
    requires t == s.(confirm := FirmRead(
                       s.confirm.confirmation, s.sequencerState.WithFirm(s.confirm.confirmation.blockHash)))
    ensures PointersInv(c, t)
  {
    assert Heads(t) == Heads(s) && Settled(t) == Settled(s);
  }

  /** Between its read and its write a task carries its snapshot unchanged. */
  lemma CallbackCarries(c: Config, s: Node, ok: bool, outcome: Option<nat>)
    requires !s.callback.SoftTaken? && !s.callback.Executed?
    ensures var t := CallbackNext(c, s, ok, outcome);
      && t.sequencerState == s.sequencerState && t.confirmed == s.confirmed && t.channel == s.channel
      && t.confirm == s.confirm && Heads(t) == Heads(s)
      && (ByCallback(t.callback).Some? ==>
            ByCallback(t.callback) == ByCallback(s.callback) && BlockInHand(t.callback) == BlockInHand(s.callback))
  {
  }

  lemma ConfirmCarries(s: Node, ok: bool)
    requires !s.confirm.FirmTaken? && !s.confirm.Checked?
    ensures var t := ConfirmNext(s, ok);
      && t.sequencerState == s.sequencerState && t.confirmed == s.confirmed && t.callback == s.callback
      && Heads(t) == Heads(s)
      && (ByConfirm(t.confirm).Some? ==>
            && ByConfirm(t.confirm) == ByConfirm(s.confirm)
            && ConfirmationInHand(t.confirm) == ConfirmationInHand(s.confirm))
  {
  }

  lemma {:induction false} CallbackKeepsPointersInv(c: Config, s: Node, ok: bool, outcome: Option<nat>)
    requires ValidConfig(c) && LogInv(c, s) && ExecutedInv(s) && DoneInv(c, s) && PointersInv(c, s)
    ensures PointersInv(c, CallbackNext(c, s, ok, outcome))
  {
    var t := CallbackNext(c, s, ok, outcome);
    if s.callback.SoftTaken? {
      SoftWriteKeepsPointersInv(c, s, t);
    } else if s.callback.Executed? {
      SoftReadKeepsPointersInv(c, s, t);
    } else {
      CallbackCarries(c, s, ok, outcome);
      PointersInvDependsOn(c, s, t);
    }
  }

  lemma {:induction false} ConfirmKeepsPointersInv(c: Config, s: Node, ok: bool)
    requires ValidConfig(c) && ConfirmedRise(c, s) && ChannelInv(s) && PointersInv(c, s)
    ensures PointersInv(c, ConfirmNext(s, ok))
  {
    var t := ConfirmNext(s, ok);
    if s.confirm.FirmTaken? {
      FirmWriteKeepsPointersInv(c, s, t);
    } else if s.confirm.Checked? {
      FirmReadKeepsPointersInv(c, s, t);
    } else {
      ConfirmCarries(s, ok);
      ConfirmKeepsChannelInv(s, ok);
      PointersInvDependsOn(c, s, t);
    }
  }

  lemma OthersLeavePointers(c: Config, s: Node, step: Step)
    requires !step.CallbackStep? && !step.ConfirmStep?
    ensures var t := Next(c, s, step);
      && t.sequencerState == s.sequencerState && t.callback == s.callback && t.confirm == s.confirm
      && Heads(t) == Heads(s)
  {
  }

  lemma NextKeepsPointersInv(c: Config, s: Node, step: Step)
    requires ValidConfig(c) && LogInv(c, s) && ExecutedInv(s) && DoneInv(c, s)
    requires ConfirmedRise(c, s) && ChannelInv(s) && PointersInv(c, s)
    ensures PointersInv(c, Next(c, s, step))
  {
    match step {
      case CallbackStep(ok, outcome) => CallbackKeepsPointersInv(c, s, ok, outcome);
      case ConfirmStep(ok) => ConfirmKeepsPointersInv(c, s, ok);
      case _ =>
        OthersLeavePointers(c, s, step);
        NextKeepsChannelInv(c, s, step);
        PointersInvDependsOn(c, s, Next(c, s, step));
    }
  }

  ghost predicate OrderInv(c: Config, s: Node) {
    && ExecutedInv(s) && LogInv(c, s) && DoneInv(c, s)
    && PostedInv(c, s) && TrackerInv(s) && SequenceInv(s)
    && ConfirmedRise(c, s) && ChannelInv(s) && PointersInv(c, s)
  }

  lemma {:induction false} StepKeepsOrder(c: Config, s: Node, step: Step)
    requires ValidConfig(c) && OrderInv(c, s) && Allowed(c, s, step) && InSequence(s, step)
    ensures var t := Next(c, s, step); SequenceInv(t) && ChannelInv(t) && PointersInv(c, t)
  {
    NextKeepsSequenceInv(c, s, step);
    NextKeepsChannelInv(c, s, step);
    NextKeepsPointersInv(c, s, step);
  }

  lemma StartInOrder(c: Config)
    ensures SequenceInv(Start(c)) && ChannelInv(Start(c)) && PointersInv(c, Start(c))
  {
  }

  lemma {:induction false} RunsKeepOrderInv(c: Config, steps: seq<Step>)
    requires ValidConfig(c) && AllAllowed(c, steps) && AllInSequence(c, steps)
    ensures OrderInv(c, After(c, steps))
  {
    RunsKeepDoneInv(c, steps);
    RunsKeepPostedInv(c, steps);
    RunsKeepTrackerInv(c, steps);
    if steps == [] {
      StartInOrder(c);
    } else {
      var s, step := After(c, steps[..|steps| - 1]), steps[|steps| - 1];
      AllowedBefore(c, steps);
      InSequenceBefore(c, steps);
      RunsKeepOrderInv(c, steps[..|steps| - 1]);
      StepKeepsOrder(c, s, step);
    }
    ConfirmationsRise(c, After(c, steps));
  }

  // ---- Exactly when a pointer moves back ----

  /** A soft update is about to write a finalized pointer that has moved since it read it. */
  predicate StaleFinalized(s: Node, step: Step) {
    step.CallbackStep? && s.callback.SoftTaken? && s.callback.state.finalized != s.sequencerState.finalized
  }

  /** A firm update is about to write a head that has moved since it read it. */
  predicate StaleHead(s: Node, step: Step) {
    step.ConfirmStep? && s.confirm.FirmTaken? && s.confirm.state.head != s.sequencerState.head
  }

  predicate SoftWrites(s: Node, step: Step) { step.CallbackStep? && s.callback.SoftTaken? }

  predicate FirmWrites(s: Node, step: Step) { step.ConfirmStep? && s.confirm.FirmTaken? }

  lemma {:induction false} SoftWriteMoves(c: Config, s: Node, ok: bool, outcome: Option<nat>)
    requires ValidConfig(c) && LogInv(c, s) && ExecutedInv(s) && DoneInv(c, s) && PointersInv(c, s)
    requires s.callback.SoftTaken?
    ensures var from, to := s.sequencerState, CallbackNext(c, s, ok, outcome).sequencerState;
      && (Height(c, to.finalized) < Height(c, from.finalized) <==> s.callback.state.finalized != from.finalized)
      && Height(c, from.head) < Height(c, to.head)
  {
    SoftIsHigher(c, s, s.sequencerState.head);
  }

  lemma FirmWriteMoves(c: Config, s: Node, ok: bool)
    requires ValidConfig(c) && ConfirmedRise(c, s) && ChannelInv(s) && PointersInv(c, s)
    requires s.confirm.FirmTaken?
    ensures var from, to := s.sequencerState, ConfirmNext(s, ok).sequencerState;
      && (Height(c, to.head) < Height(c, from.head) <==> s.confirm.state.head != from.head)
      && Height(c, from.finalized) < Height(c, to.finalized)
  {
    FirmIsHigher(c, s, s.sequencerState.finalized);
  }

  lemma OnlyWritesMove(c: Config, s: Node, step: Step)
    requires !SoftWrites(s, step) && !FirmWrites(s, step)
    ensures Next(c, s, step).sequencerState == s.sequencerState
  {
  }

  lemma {:induction false} PointerMoves(c: Config, s: Node, step: Step)
    requires ValidConfig(c) && OrderInv(c, s)
    ensures var from, to := s.sequencerState, Next(c, s, step).sequencerState;
      && (Height(c, to.finalized) < Height(c, from.finalized) <==> StaleFinalized(s, step))
      && (Height(c, to.head) < Height(c, from.head) <==> StaleHead(s, step))
      && (SoftWrites(s, step) ==> Height(c, from.head) < Height(c, to.head))
      && (FirmWrites(s, step) ==> Height(c, from.finalized) < Height(c, to.finalized))
      && (!SoftWrites(s, step) && !FirmWrites(s, step) ==> to == from)
  {
    if SoftWrites(s, step) {
      SoftWriteMoves(c, s, step.ok, step.outcome);
    } else if FirmWrites(s, step) {
      FirmWriteMoves(c, s, step.ok);
    } else {
      OnlyWritesMove(c, s, step);
    }
  }

  /** In every run with tasks and Celestia heights in sequence, whatever the interleaving of
      the forkchoice updates: the finalized height falls exactly at a soft write whose
      finalized pointer is stale, the head height exactly at a firm write whose head is
      stale; and each write moves its own pointer strictly up. */
  lemma {:induction false} MovesBackExactlyWhenStale(c: Config, steps: seq<Step>, step: Step)
    requires ValidConfig(c) && AllAllowed(c, steps) && AllInSequence(c, steps)
    ensures var s := After(c, steps);
      var from, to := s.sequencerState, Next(c, s, step).sequencerState;
      && (Height(c, to.finalized) < Height(c, from.finalized) <==> StaleFinalized(s, step))
      && (Height(c, to.head) < Height(c, from.head) <==> StaleHead(s, step))
      && (SoftWrites(s, step) ==> Height(c, from.head) < Height(c, to.head))
      && (FirmWrites(s, step) ==> Height(c, from.finalized) < Height(c, to.finalized))
      && (!SoftWrites(s, step) && !FirmWrites(s, step) ==> to == from)
  {
    RunsKeepOrderInv(c, steps);
    PointerMoves(c, After(c, steps), step);
  }

  // ---- Exactly when finalized passes head ----

  /** Finalized is above head. */
  predicate Passed(c: Config, state: ForkchoiceState) {
    Height(c, state.head) < Height(c, state.finalized)
  }

  /** A firm update is about to write a block above the head it read. */
  predicate FirmAboveItsHead(c: Config, s: Node, step: Step) {
    FirmWrites(s, step) && Passed(c, s.confirm.state)
  }

  /** A finalized block was executed. */
  lemma {:induction false} FirmWasExecuted(c: Config, s: Node, h: Hash, n: int) returns (d: nat)
    requires LogInv(c, s) && DoneInv(c, s) && PostedInv(c, s) && TrackerInv(s)
    requires FirmBefore(c, s, h, n) && h != c.genesis
    ensures d < |s.done| && s.done[d].blockHash == h
  {
    var i :| 0 <= i < n && i < |s.confirmed| && s.confirmed[i].blockHash == h;
    SubmittedOnce(c, s);
    PartsAreDistinct(s.submitted, Submissions(s.events), s.spawned);
    var k := ConfirmedWasPosted(c, s, i);
    d :| 0 <= d < |s.done| && s.done[d] == s.posted[k];
  }

  /** A soft update brings head above whatever its snapshot had finalized. */
  lemma {:induction false} SoftWriteIsAbove(c: Config, s: Node)
    requires ValidConfig(c) && OrderInv(c, s) && s.callback.SoftTaken?
    ensures !Passed(c, s.callback.state)
  {
    var h := s.callback.state.finalized;
    if h != c.genesis {
      var d := FirmWasExecuted(c, s, h, Settled(s));
      assert Heads(s)[d].blockHash == h;
    }
    assert HeadBefore(c, s, h);
    SoftIsHigher(c, s, h);
  }

  /** For every interleaving of the updates and any step: finalized is above head afterwards
      if and only if the step is a firm write above the head it read, or it writes nothing
      and finalized was above head already. A soft write always puts it right. */
  lemma {:induction false} PassesHeadExactlyWhen(c: Config, steps: seq<Step>, step: Step)
    requires ValidConfig(c) && AllAllowed(c, steps) && AllInSequence(c, steps)
    ensures var s := After(c, steps);
      Passed(c, Next(c, s, step).sequencerState) <==>
      || FirmAboveItsHead(c, s, step)
      || (!SoftWrites(s, step) && !FirmWrites(s, step) && Passed(c, s.sequencerState))
  {
    RunsKeepOrderInv(c, steps);
    var s := After(c, steps);
    if SoftWrites(s, step) {
      SoftWriteIsAbove(c, s);
    } else if !FirmWrites(s, step) {
      OnlyWritesMove(c, s, step);
    }
  }

  predicate PassedAt(c: Config, steps: seq<Step>, k: nat)
    requires k <= |steps|
  {
    Passed(c, After(c, steps[..k]).sequencerState)
  }

  predicate FirmAboveAt(c: Config, steps: seq<Step>, k: nat)
    requires k < |steps|
  {
    FirmAboveItsHead(c, After(c, steps[..k]), steps[k])
  }

  lemma {:induction false} StepPassesExactlyWhen(c: Config, steps: seq<Step>, k: nat)
    requires ValidConfig(c) && AllAllowed(c, steps) && AllInSequence(c, steps) && k < |steps|
    ensures FirmAboveAt(c, steps, k) ==> PassedAt(c, steps, k + 1)
    ensures PassedAt(c, steps, k + 1) ==> FirmAboveAt(c, steps, k) || PassedAt(c, steps, k)
  {
    PrefixIsInSequence(c, steps, k);
    assert steps[..k + 1][..k] == steps[..k] && steps[..k + 1][k] == steps[k];
    PassesHeadExactlyWhen(c, steps[..k], steps[k]);
  }

  lemma {:induction false} StaysBelowHead(c: Config, steps: seq<Step>, k: nat)
    requires ValidConfig(c) && AllAllowed(c, steps) && AllInSequence(c, steps) && k <= |steps|
    requires forall j :: 0 <= j < |steps| ==> !FirmAboveAt(c, steps, j)
    ensures !PassedAt(c, steps, k)
  {
    if k == 0 {
      assert steps[..0] == [];
    } else {
      StaysBelowHead(c, steps, k - 1);
      StepPassesExactlyWhen(c, steps, k - 1);
    }
  }

  /** Over a whole run: finalized is never above head if and only if no firm update writes a
      block above the head it read. */
  lemma {:induction false} NeverPassesHeadExactlyWhen(c: Config, steps: seq<Step>)
    requires ValidConfig(c) && AllAllowed(c, steps) && AllInSequence(c, steps)
    ensures (forall k :: 0 <= k <= |steps| ==> !PassedAt(c, steps, k)) <==>
            (forall k :: 0 <= k < |steps| ==> !FirmAboveAt(c, steps, k))
  {
    if forall k :: 0 <= k < |steps| ==> !FirmAboveAt(c, steps, k) {
      forall k | 0 <= k <= |steps|
        ensures !PassedAt(c, steps, k)
      {
        StaysBelowHead(c, steps, k);
      }
    } else {
      var k :| 0 <= k < |steps| && FirmAboveAt(c, steps, k);
      StepPassesExactlyWhen(c, steps, k);
      assert PassedAt(c, steps, k + 1);
    }
  }

  // ---- Runs without stale writes ----

  ghost predicate NoStaleHead(c: Config, steps: seq<Step>) {
    forall k :: 0 <= k < |steps| ==> !StaleHead(After(c, steps[..k]), steps[k])
  }

  ghost predicate NoStaleFinalized(c: Config, steps: seq<Step>) {
    forall k :: 0 <= k < |steps| ==> !StaleFinalized(After(c, steps[..k]), steps[k])
  }

  lemma NoStaleHeadBefore(c: Config, steps: seq<Step>)
    requires steps != [] && NoStaleHead(c, steps)
    ensures NoStaleHead(c, steps[..|steps| - 1])
    ensures !StaleHead(After(c, steps[..|steps| - 1]), steps[|steps| - 1])
  {
    var before := steps[..|steps| - 1];
    forall k | 0 <= k < |before|
      ensures !StaleHead(After(c, before[..k]), before[k])
    {
      assert before[..k] == steps[..k];
    }
  }

  /** Head is the last block that was made head. */
  ghost predicate HeadIsLatest(c: Config, s: Node) {
    s.sequencerState.head == N.LastHash(c.genesis, Heads(s))
  }

  lemma {:induction false} NextKeepsHeadLatest(c: Config, s: Node, step: Step)
    requires PointersInv(c, s) && HeadIsLatest(c, s) && !StaleHead(s, step)
    ensures HeadIsLatest(c, Next(c, s, step))
  {
    match step {
      case CallbackStep(ok, outcome) =>
        if !s.callback.SoftTaken? && !s.callback.Executed? {
          CallbackCarries(c, s, ok, outcome);
        }
      case ConfirmStep(ok) =>
        if !s.confirm.FirmTaken? && !s.confirm.Checked? {
          ConfirmCarries(s, ok);
        }
      case _ => OthersLeavePointers(c, s, step);
    }
  }

  lemma {:induction false} RunsKeepHeadLatest(c: Config, steps: seq<Step>)
    requires ValidConfig(c) && AllAllowed(c, steps) && AllInSequence(c, steps) && NoStaleHead(c, steps)
    ensures HeadIsLatest(c, After(c, steps))
  {
    if steps != [] {
      AllowedBefore(c, steps);
      InSequenceBefore(c, steps);
      NoStaleHeadBefore(c, steps);
      RunsKeepHeadLatest(c, steps[..|steps| - 1]);
      RunsKeepOrderInv(c, steps[..|steps| - 1]);
      NextKeepsHeadLatest(c, After(c, steps[..|steps| - 1]), steps[|steps| - 1]);
    }
  }

  // ---- Updates that run alone ----

  /** No update reads while another is between its read and its write. */
  predicate Alone(s: Node, step: Step) {
    match step
    case CallbackStep(_, _) => s.callback.Executed? ==> ByConfirm(s.confirm).None?
    case ConfirmStep(_) => s.confirm.Checked? ==> ByCallback(s.callback).None?
    case _ => true
  }

  ghost predicate AllAlone(c: Config, steps: seq<Step>) {
    forall k :: 0 <= k < |steps| ==> Alone(After(c, steps[..k]), steps[k])
  }

  lemma AloneBefore(c: Config, steps: seq<Step>)
    requires steps != [] && AllAlone(c, steps)
    ensures AllAlone(c, steps[..|steps| - 1])
    ensures Alone(After(c, steps[..|steps| - 1]), steps[|steps| - 1])
  {
    var before := steps[..|steps| - 1];
    forall k | 0 <= k < |before|
      ensures Alone(After(c, before[..k]), before[k])
    {
      assert before[..k] == steps[..k];
    }
  }

  ghost predicate AloneInv(c: Config, s: Node) {
    && (ByCallback(s.callback).None? || ByConfirm(s.confirm).None?)
    && (ByCallback(s.callback).Some? ==>
          ByCallback(s.callback).value == s.sequencerState.WithSoft(BlockInHand(s.callback).value.blockHash))
    && (ByConfirm(s.confirm).Some? ==>
          ByConfirm(s.confirm).value == s.sequencerState.WithFirm(ConfirmationInHand(s.confirm).value.blockHash))
  }

  lemma CallbackKeepsAloneInv(c: Config, s: Node, ok: bool, outcome: Option<nat>)
    requires AloneInv(c, s) && Alone(s, CallbackStep(ok, outcome))
    ensures AloneInv(c, CallbackNext(c, s, ok, outcome))
  {
    if !s.callback.SoftTaken? && !s.callback.Executed? {
      CallbackCarries(c, s, ok, outcome);
    }
  }

  lemma ConfirmKeepsAloneInv(c: Config, s: Node, ok: bool)
    requires AloneInv(c, s) && Alone(s, ConfirmStep(ok))
    ensures AloneInv(c, ConfirmNext(s, ok))
  {
    if !s.confirm.FirmTaken? && !s.confirm.Checked? {
      ConfirmCarries(s, ok);
    }
  }

  lemma NextKeepsAloneInv(c: Config, s: Node, step: Step)
    requires AloneInv(c, s) && Alone(s, step)
    ensures AloneInv(c, Next(c, s, step))
  {
    match step {
      case CallbackStep(ok, outcome) => CallbackKeepsAloneInv(c, s, ok, outcome);
      case ConfirmStep(ok) => ConfirmKeepsAloneInv(c, s, ok);
      case _ => OthersLeavePointers(c, s, step);
    }
  }

  lemma {:induction false} RunsKeepAloneInv(c: Config, steps: seq<Step>)
    requires AllAlone(c, steps)
    ensures AloneInv(c, After(c, steps))
  {
    if steps != [] {
      AloneBefore(c, steps);
      RunsKeepAloneInv(c, steps[..|steps| - 1]);
      NextKeepsAloneInv(c, After(c, steps[..|steps| - 1]), steps[|steps| - 1]);
    }
  }

  /** Position of a block in the log; genesis is just below it. */
  ghost predicate LogPosition(c: Config, s: Node, h: Hash, p: int) {
    if h == c.genesis then p == -1 else 0 <= p < |s.log| && s.log[p].blockHash == h
  }

  lemma HeadsAreInTheLog(c: Config, s: Node, i: nat) returns (p: nat)
    requires LogInv(c, s) && ExecutedInv(s) && DoneInv(c, s) && i < |Heads(s)|
    ensures p < |s.log| && s.log[p] == Heads(s)[i] && Heads(s)[i].height == c.h0 + p
    ensures Heads(s)[i].height <= Heads(s)[|Heads(s)| - 1].height
  {
    if i < |s.done| {
      p := DoneIsInTheLog(c, s, i);
    } else {
      p := s.taken - 1;
      assert AtHeight(c, s.log[p], c.h0 + p);
    }
    HeadsEndHighest(c, s, i);
  }

  lemma DoneIsInTheLog(c: Config, s: Node, i: nat) returns (p: nat)
    requires LogInv(c, s) && DoneInv(c, s) && i < |s.done|
    ensures p < |s.log| && s.log[p] == s.done[i] && s.done[i].height == c.h0 + p && p < Frontier(s)
  {
    assert FromLog(c, s.log, s.done[i], Frontier(s));
    p := s.done[i].height - c.h0;
  }

  lemma HeadsEndHighest(c: Config, s: Node, i: nat)
    requires LogInv(c, s) && ExecutedInv(s) && DoneInv(c, s) && i < |Heads(s)|
    ensures Heads(s)[i].height <= Heads(s)[|Heads(s)| - 1].height
  {
    if s.callback.SoftWritten? {
      InHandHeight(c, s);
      if i < |s.done| {
        var p := DoneIsInTheLog(c, s, i);
      }
    }
  }

  lemma HeadPosition(c: Config, s: Node) returns (h: int)
    requires ValidConfig(c) && LogInv(c, s) && ExecutedInv(s) && DoneInv(c, s) && HeadIsLatest(c, s)
    ensures LogPosition(c, s, s.sequencerState.head, h)
    ensures h == if Heads(s) == [] then -1 else Heads(s)[|Heads(s)| - 1].height - c.h0
  {
    h := -1;
    if Heads(s) != [] {
      h := HeadsAreInTheLog(c, s, |Heads(s)| - 1);
      HeadIsNotGenesis(c, s, h);
    }
  }

  /** A block of the log is above genesis, so it is not genesis. */
  lemma HeadIsNotGenesis(c: Config, s: Node, p: nat)
    requires ValidConfig(c) && LogInv(c, s) && p < |s.log|
    ensures s.log[p].blockHash != c.genesis
  {
    assert AtHeight(c, s.log[p], c.h0 + p);
  }

  /** As long as no firm update writes a stale head, finalized is in the log prefix that ends
      at head. Updates may overlap otherwise. */
  lemma {:induction false} FinalizedTrailsHead(c: Config, steps: seq<Step>) returns (f: int, h: int)
    requires ValidConfig(c) && AllAllowed(c, steps) && AllInSequence(c, steps) && NoStaleHead(c, steps)
    ensures var s := After(c, steps);
      && LogPosition(c, s, s.sequencerState.finalized, f) && LogPosition(c, s, s.sequencerState.head, h)
      && f <= h
  {
    var s := After(c, steps);
    RunsKeepOrderInv(c, steps);
    RunsKeepHeadLatest(c, steps);
    h := HeadPosition(c, s);
    f := -1;
    if s.sequencerState.finalized != c.genesis {
      var d := FirmWasExecuted(c, s, s.sequencerState.finalized, Settled(s));
      f := HeadsAreInTheLog(c, s, d);
      assert h == Heads(s)[|Heads(s)| - 1].height - c.h0;
    }
  }

  /** The heights of both pointers over one step of a run. */
  ghost predicate StepAdvances(c: Config, steps: seq<Step>, k: nat)
    requires k < |steps|
  {
    var from, to := After(c, steps[..k]).sequencerState, After(c, steps[..k + 1]).sequencerState;
    Height(c, from.finalized) <= Height(c, to.finalized) && Height(c, from.head) <= Height(c, to.head)
  }

  /** Over a whole run both pointers only advance if and only if no write is stale. */
  lemma {:induction false} AdvancesExactlyWhenNothingIsStale(c: Config, steps: seq<Step>)
    requires ValidConfig(c) && AllAllowed(c, steps) && AllInSequence(c, steps)
    ensures (forall k :: 0 <= k < |steps| ==> StepAdvances(c, steps, k)) <==>
            NoStaleHead(c, steps) && NoStaleFinalized(c, steps)
  {
    forall k | 0 <= k < |steps|
      ensures StepAdvances(c, steps, k) <==>
              !StaleHead(After(c, steps[..k]), steps[k]) && !StaleFinalized(After(c, steps[..k]), steps[k])
    {
      PrefixIsInSequence(c, steps, k);
      MovesBackExactlyWhenStale(c, steps[..k], steps[k]);
      assert steps[..k + 1][..k] == steps[..k] && steps[..k + 1][k] == steps[k];
    }
  }

  lemma PrefixIsInSequence(c: Config, steps: seq<Step>, k: nat)
    requires AllAllowed(c, steps) && AllInSequence(c, steps) && k <= |steps|
    ensures AllAllowed(c, steps[..k]) && AllInSequence(c, steps[..k])
  {
    forall j | 0 <= j < k
      ensures Allowed(c, After(c, steps[..k][..j]), steps[..k][j])
      ensures InSequence(After(c, steps[..k][..j]), steps[..k][j])
    {
      assert steps[..k][..j] == steps[..j];
    }
  }

  lemma {:induction false} AloneIsNeverStale(c: Config, steps: seq<Step>)
    requires AllAlone(c, steps)
    ensures NoStaleHead(c, steps) && NoStaleFinalized(c, steps)
  {
    forall k | 0 <= k < |steps|
      ensures !StaleHead(After(c, steps[..k]), steps[k]) && !StaleFinalized(After(c, steps[..k]), steps[k])
    {
      forall j | 0 <= j < k
        ensures Alone(After(c, steps[..k][..j]), steps[..k][j])
      {
        assert steps[..k][..j] == steps[..j];
      }
      RunsKeepAloneInv(c, steps[..k]);
      NothingIsStale(c, After(c, steps[..k]), steps[k]);
    }
  }

  /** With each update alone the pointers only advance: finalized never falls, head rises
      strictly with every soft update and otherwise stays, and finalized is in the log prefix
      that ends at head. */
  lemma {:induction false} ForkchoiceAdvances(c: Config, steps: seq<Step>, step: Step) returns (f: int, h: int)
    requires ValidConfig(c) && AllAllowed(c, steps) && AllInSequence(c, steps) && AllAlone(c, steps)
    ensures var s := After(c, steps);
      var from, to := s.sequencerState, Next(c, s, step).sequencerState;
      && Height(c, from.finalized) <= Height(c, to.finalized)
      && (if SoftWrites(s, step) then Height(c, from.head) < Height(c, to.head) else to.head == from.head)
      && LogPosition(c, s, from.finalized, f) && LogPosition(c, s, from.head, h) && f <= h
  {
    MovesBackExactlyWhenStale(c, steps, step);
    RunsKeepAloneInv(c, steps);
    NothingIsStale(c, After(c, steps), step);
    AloneIsNeverStale(c, steps);
    f, h := FinalizedTrailsHead(c, steps);
  }

  lemma NothingIsStale(c: Config, s: Node, step: Step)
    requires AloneInv(c, s)
    ensures !StaleFinalized(s, step) && !StaleHead(s, step)
    ensures FirmWrites(s, step) ==> Next(c, s, step).sequencerState.head == s.sequencerState.head
  {
  }

  /** With tasks and Celestia heights in sequence, the confirmations of a whole run rise
      strictly in block height, whatever the headers. */
  lemma {:induction false} ConfirmationsRiseInRuns(c: Config, steps: seq<Step>)
    requires ValidConfig(c) && AllAllowed(c, steps) && AllInSequence(c, steps)
    ensures ConfirmedRise(c, After(c, steps)) && SortedBy(HeightOf, After(c, steps).confirmed)
  {
    RunsKeepOrderInv(c, steps);
    ConfirmationsRise(c, After(c, steps));
  }
}
