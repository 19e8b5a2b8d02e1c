/** What a single application actor keeps over every sequence of messages. */
module ApplicationRuns {
  import opened Types
  import opened Application

  // ---- Waiting for reth ----

  /** Attempt `k` leaves the actor undecided: reth did not answer, or has not got as far as
      the block before the expected height. */
  predicate Undecided(s: AppState, heads: seq<Option<RethHead>>, k: nat) {
    || k >= |heads| || heads[k].None?
    || (heads[k].value.hash != s.lastHash && heads[k].value.number + 1 < s.height)
  }

  /** Attempt `k` names the actor's own last block. */
  predicate Matches(s: AppState, heads: seq<Option<RethHead>>, k: nat) {
    k < |heads| && heads[k].Some? && heads[k].value.hash == s.lastHash
  }

  /** Attempt `k` names another block, no lower than the actor's last one. */
  predicate Forked(s: AppState, heads: seq<Option<RethHead>>, k: nat) {
    k < |heads| && heads[k].Some? && heads[k].value.hash != s.lastHash && heads[k].value.number + 1 >= s.height
  }

  lemma {:induction false} SyncsFrom(s: AppState, heads: seq<Option<RethHead>>, from: nat, ts: nat)
    ensures s.SyncFrom(heads, from) == Synced(ts) <==>
            exists k :: from <= k < 10 && Matches(s, heads, k) && heads[k].value.timestamp == ts
                     && forall j :: from <= j < k ==> Undecided(s, heads, j)
    decreases 10 - from
  {
    if from < 10 && Undecided(s, heads, from) {
      SyncsFrom(s, heads, from + 1, ts);
    }
  }

  /** The actor syncs exactly on the first decisive answer among its ten attempts, and
      only if that answer names its own last hash; it takes that block's timestamp. */
  lemma {:induction false} SyncsOnFirstDecisiveAnswer(s: AppState, heads: seq<Option<RethHead>>, ts: nat)
    ensures s.SyncFrom(heads, 0) == Synced(ts) <==>
            exists k :: 0 <= k < 10 && Matches(s, heads, k) && heads[k].value.timestamp == ts
                     && forall j :: 0 <= j < k ==> Undecided(s, heads, j)
  {
    SyncsFrom(s, heads, 0, ts);
  }

  /** The first decisive answer from `from` on is a fork. */
  predicate ForkedFirst(s: AppState, heads: seq<Option<RethHead>>, from: nat, k: nat) {
    from <= k < 10 && Forked(s, heads, k) && forall j :: from <= j < k ==> Undecided(s, heads, j)
  }

  predicate AllUndecided(s: AppState, heads: seq<Option<RethHead>>, from: nat) {
    forall j :: from <= j < 10 ==> Undecided(s, heads, j)
  }

  lemma {:induction false} FailsFrom(s: AppState, heads: seq<Option<RethHead>>, from: nat)
    requires from <= 10
    ensures s.SyncFrom(heads, from) == SyncFailed <==>
            AllUndecided(s, heads, from) || (exists k: nat :: ForkedFirst(s, heads, from, k))
    decreases 10 - from
  {
    if from < 10 {
      if Undecided(s, heads, from) {
        var next := from + 1;
        FailsFrom(s, heads, next);
        assert AllUndecided(s, heads, from) <==> AllUndecided(s, heads, next);
        if k: nat :| ForkedFirst(s, heads, next, k) {
          assert ForkedFirst(s, heads, from, k);
        }
        if k: nat :| ForkedFirst(s, heads, from, k) {
          assert ForkedFirst(s, heads, next, k);
        }
      } else {
        assert Forked(s, heads, from) ==> ForkedFirst(s, heads, from, from);
        assert !Matches(s, heads, from) ==> Forked(s, heads, from);
      }
    }
  }

  /** It fails exactly when all ten attempts leave it undecided, or the first decisive answer
      is another block at or above its own. */
  lemma {:induction false} SyncFailsExactlyWhen(s: AppState, heads: seq<Option<RethHead>>)
    ensures s.SyncFrom(heads, 0) == SyncFailed <==>
            AllUndecided(s, heads, 0) || (exists k: nat :: ForkedFirst(s, heads, 0, k))
  {
    FailsFrom(s, heads, 0);
  }

  // ---- Paired maps ----

  /** Each pending block has its payload beside it, and each emitted one had its payload
      applied, in the same order. */
  ghost predicate Paired(s: AppState) {
    && s.pendingBlocks.Keys == s.pendingPayloads.Keys
    && (forall d :: d in s.pendingBlocks ==> s.pendingBlocks[d] == BlockFromPayload(s.pendingPayloads[d]))
    && |s.applied| == |s.emitted|
    && (forall q :: 0 <= q < |s.emitted| ==> s.emitted[q] == BlockFromPayload(s.applied[q]))
  }

  /** A frame whose block is the one its payload describes, as every proposer sends it. */
  predicate FrameMatches(m: Message) {
    m.ReceiveBlock? ==> m.block == BlockFromPayload(m.payload)
  }

  lemma {:induction false} ProcessKeepsPaired(s: AppState, m: Message)
    requires Paired(s) && FrameMatches(m)
    ensures Paired(s.Process(m).0)
  {
    if m.Propose? && s.Propose(m.context).1 != NullProposal {
      assert s.Propose(m.context) == s.CompleteProposal(m.context.built.value);
    }
  }

  /** However blocks are proposed, relayed, re-inserted, finalized or cleaned up, every
      accepted block had its own payload applied, in order. */
  lemma {:induction false} AppliedAreEmitted(s: AppState, messages: seq<Message>)
    requires Paired(s) && forall i :: 0 <= i < |messages| ==> FrameMatches(messages[i])
    ensures Paired(Run(s, messages))
  {
    if messages != [] {
      var before := messages[..|messages| - 1];
      AppliedAreEmitted(s, before);
      ProcessKeepsPaired(Run(s, before), messages[|messages| - 1]);
    }
  }

  predicate KeysPaired(s: AppState) {
    s.pendingBlocks.Keys == s.pendingPayloads.Keys
  }

  lemma ProcessKeepsKeysPaired(s: AppState, m: Message)
    requires KeysPaired(s)
    ensures var t := s.Process(m).0;
            KeysPaired(t) && |t.applied| - |s.applied| == |t.emitted| - |s.emitted|
  {
  }

  /** Whatever the frames carry, the two maps keep the same keys, so every accepted block
      had some payload applied. */
  lemma {:induction false} RunsKeepKeysPaired(s: AppState, messages: seq<Message>)
    requires KeysPaired(s)
    ensures KeysPaired(Run(s, messages))
    ensures |Run(s, messages).applied| - |s.applied| == |Run(s, messages).emitted| - |s.emitted|
  {
    if messages != [] {
      var before := messages[..|messages| - 1];
      RunsKeepKeysPaired(s, before);
      ProcessKeepsKeysPaired(Run(s, before), messages[|messages| - 1]);
    }
  }

  // ---- Proposals ----

  /** The heights at which the actor answered a proposal request with a real digest. */
  function ProposalHeights(s: AppState, messages: seq<Message>): seq<nat> {
    if messages == [] then []
    else
      var before := messages[..|messages| - 1];
      var t := Run(s, before);
      var r := t.Process(messages[|messages| - 1]).1;
      ProposalHeights(s, before) +
      if r.Proposal? && r.proposed != NullProposal then [t.height] else []
  }

  ghost predicate StrictlyIncreasing(heights: seq<nat>) {
    forall i, j :: 0 <= i < j < |heights| ==> heights[i] < heights[j]
  }

  /** The only step that moves `lastProposedHeight` is a real proposal, made at a height
      not proposed at before; it is also the only one that relays. */
  lemma ProposalStep(s: AppState, m: Message)
    ensures var (t, r) := s.Process(m);
            && s.height <= t.height
            && if r.Proposal? && r.proposed != NullProposal then
                 && (s.lastProposedHeight.Some? ==> s.lastProposedHeight.value < s.height)
                 && t.lastProposedHeight == Some(s.height) && |t.relayed| == |s.relayed| + 1
               else
                 t.lastProposedHeight == s.lastProposedHeight && t.relayed == s.relayed
  {
  }

  /** One real proposal per height, at strictly increasing heights; each is relayed once. */
  lemma {:induction false} OneProposalPerHeight(s: AppState, messages: seq<Message>)
    ensures var heights, t := ProposalHeights(s, messages), Run(s, messages);
            && StrictlyIncreasing(heights)
            && (forall i :: 0 <= i < |heights| ==>
                  && s.height <= heights[i]
                  && (s.lastProposedHeight.Some? ==> s.lastProposedHeight.value < heights[i]))
            && t.lastProposedHeight == (if heights == [] then s.lastProposedHeight
                                        else Some(heights[|heights| - 1]))
            && s.height <= t.height
            && |t.relayed| == |s.relayed| + |heights|
  {
    if messages != [] {
      var before := messages[..|messages| - 1];
      OneProposalPerHeight(s, before);
      ProposalStep(Run(s, before), messages[|messages| - 1]);
    }
  }

  // ---- Cleaning up stale blocks changes nothing that can be seen ----

  /** An actor that never cleans up: everything else as before. */
  function ProcessUncleaned(s: AppState, m: Message): (AppState, Response) {
    if !m.Finalize? || m.finalized !in s.pendingBlocks || s.pendingBlocks[m.finalized].height != s.height then
      s.Process(m)
    else
      var b := s.pendingBlocks[m.finalized];
      (s.Accept(m.finalized, b), Finalized(Some(b)))
  }

  function RunUncleaned(s: AppState, messages: seq<Message>): AppState {
    if messages == [] then s
    else ProcessUncleaned(RunUncleaned(s, messages[..|messages| - 1]), messages[|messages| - 1]).0
  }

  /** The cleaned actor holds what the uncleaned one holds, except for some blocks below
      the current height. Where both hold a block for a digest it is the same block, or the
      uncleaned one's is below the height. */
  ghost predicate CleanedVersionOf(s: AppState, u: AppState) {
    && s.height == u.height && s.lastHash == u.lastHash
    && s.proposer == u.proposer && s.blockTiming == u.blockTiming
    && s.lastProposedHeight == u.lastProposedHeight
    && s.emitted == u.emitted && s.relayed == u.relayed
    && s.pendingBlocks.Keys <= u.pendingBlocks.Keys
    && (forall d :: d in u.pendingBlocks ==>
          || (d in s.pendingBlocks && s.pendingBlocks[d] == u.pendingBlocks[d])
          || u.pendingBlocks[d].height < u.height)
  }

  lemma SyncIsTheSame(s: AppState, u: AppState, heads: seq<Option<RethHead>>, from: nat)
    requires s.height == u.height && s.lastHash == u.lastHash
    ensures s.SyncFrom(heads, from) == u.SyncFrom(heads, from)
    decreases MAX_ATTEMPTS - from
  {
  }

  lemma {:induction false} ProposalsStayInStep(s: AppState, u: AppState, c: BuildContext)
    requires CleanedVersionOf(s, u)
    ensures CleanedVersionOf(s.Propose(c).0, u.Propose(c).0) && s.Propose(c).1 == u.Propose(c).1
  {
    SyncIsTheSame(s, u, c.heads, 0);
    if s.Propose(c).1 != NullProposal {
      var p := c.built.value;
      assert s.Propose(c) == s.CompleteProposal(p) && u.Propose(c) == u.CompleteProposal(p);
    }
  }

  lemma ReceiptsStayInStep(
    s: AppState, u: AppState, d: Digest, b: Block, p: Payload, imported: bool)
    requires CleanedVersionOf(s, u)
    ensures CleanedVersionOf(s.ReceiveBlock(d, b, p, imported), u.ReceiveBlock(d, b, p, imported))
  {
  }

  /** `m` finalizes a digest under which the cleaned actor holds a block of the expected
      height, received after it had forgotten the lower one that the uncleaned actor still
      holds. */
  predicate Parts(s: AppState, u: AppState, m: Message) {
    && m.Finalize?
    && m.finalized in s.pendingBlocks && s.pendingBlocks[m.finalized].height == s.height
    && m.finalized in u.pendingBlocks && u.pendingBlocks[m.finalized].height < u.height
  }

  lemma {:induction false} FinalizationsStayInStep(s: AppState, u: AppState, d: Digest)
    requires CleanedVersionOf(s, u) && !Parts(s, u, Finalize(d))
    ensures var (u', r) := ProcessUncleaned(u, Finalize(d));
            CleanedVersionOf(s.Finalize(d).0, u') && r == Finalized(s.Finalize(d).1)
  {
    if d in s.pendingBlocks && s.pendingBlocks[d].height == s.height {
      assert u.pendingBlocks[d] == s.pendingBlocks[d];
    } else if d in u.pendingBlocks {
      assert u.pendingBlocks[d].height != u.height;
    }
  }

  /** One message: exactly when the finalized logs part. Otherwise the two actors stay in
      step and give the same response. */
  lemma {:induction false} LogsPartExactlyWhen(s: AppState, u: AppState, m: Message)
    requires CleanedVersionOf(s, u)
    ensures s.Process(m).0.emitted != ProcessUncleaned(u, m).0.emitted <==> Parts(s, u, m)
    ensures !Parts(s, u, m) ==>
              CleanedVersionOf(s.Process(m).0, ProcessUncleaned(u, m).0) && s.Process(m).1 == ProcessUncleaned(u, m).1
  {
    if !Parts(s, u, m) {
      match m {
        case Propose(c) => ProposalsStayInStep(s, u, c);
        case Finalize(d) => FinalizationsStayInStep(s, u, d);
        case ReceiveBlock(d, b, p, imported) => ReceiptsStayInStep(s, u, d, b, p, imported);
        case _ =>
      }
    }
  }

  /** What has happened by step `k`. */
  predicate PartsAt(s: AppState, messages: seq<Message>, k: nat)
    requires k < |messages|
  {
    Parts(Run(s, messages[..k]), RunUncleaned(s, messages[..k]), messages[k])
  }

  predicate SameLogAt(s: AppState, messages: seq<Message>, k: nat)
    requires k <= |messages|
  {
    Run(s, messages[..k]).emitted == RunUncleaned(s, messages[..k]).emitted
  }

  ghost predicate NeverParts(s: AppState, messages: seq<Message>) {
    forall k :: 0 <= k < |messages| ==> !PartsAt(s, messages, k)
  }

  lemma NeverPartsBefore(s: AppState, messages: seq<Message>)
    requires messages != [] && NeverParts(s, messages)
    ensures NeverParts(s, messages[..|messages| - 1])
    ensures !Parts(Run(s, messages[..|messages| - 1]), RunUncleaned(s, messages[..|messages| - 1]),
                   messages[|messages| - 1])
  {
    var before := messages[..|messages| - 1];
    forall k | 0 <= k < |before|
      ensures !PartsAt(s, before, k)
    {
      assert before[..k] == messages[..k] && !PartsAt(s, messages, k);
    }
    assert !PartsAt(s, messages, |messages| - 1);
  }

  lemma {:induction false} StaysInStep(s: AppState, messages: seq<Message>)
    requires NeverParts(s, messages)
    ensures CleanedVersionOf(Run(s, messages), RunUncleaned(s, messages))
  {
    if messages != [] {
      var last := |messages| - 1;
      NeverPartsBefore(s, messages);
      StaysInStep(s, messages[..last]);
      LogsPartExactlyWhen(Run(s, messages[..last]), RunUncleaned(s, messages[..last]), messages[last]);
    }
  }

  /** The first parting, if there is one, shows in the log. */
  lemma {:induction false} FirstParting(s: AppState, messages: seq<Message>) returns (k: nat)
    requires !NeverParts(s, messages)
    ensures k <= |messages| && !SameLogAt(s, messages, k)
  {
    var before, last := messages[..|messages| - 1], |messages| - 1;
    if NeverParts(s, before) {
      StaysInStep(s, before);
      LogsPartExactlyWhen(Run(s, before), RunUncleaned(s, before), messages[last]);
      var j :| 0 <= j < |messages| && PartsAt(s, messages, j);
      assert j < last ==> before[..j] == messages[..j] && !PartsAt(s, before, j);
      k := |messages|;
      assert messages[..k] == messages;
    } else {
      k := FirstParting(s, before);
      assert before[..k] == messages[..k];
    }
  }

  /** Cleanup and re-insertion stay invisible in the finalized log of a run if and only if no
      finalization in it names a digest that the cleaned actor has taken back with a block
      of the expected height while the uncleaned one still holds a lower one. */
  lemma {:induction false} CleanupShowsExactlyWhen(s: AppState, messages: seq<Message>)
    ensures (forall k :: 0 <= k <= |messages| ==> SameLogAt(s, messages, k)) <==> NeverParts(s, messages)
  {
    if NeverParts(s, messages) {
      forall k | 0 <= k <= |messages|
        ensures SameLogAt(s, messages, k)
      {
        forall j | 0 <= j < k
          ensures !PartsAt(s, messages[..k], j)
        {
          assert messages[..k][..j] == messages[..j] && !PartsAt(s, messages, j);
        }
        StaysInStep(s, messages[..k]);
      }
    } else {
      var k := FirstParting(s, messages);
    }
  }

  // ---- Digests that determine blocks ----

  /** Every block that `m` carries is the one its digest stands for. */
  predicate CarriesBlockOf(blockOf: Digest -> Block, m: Message) {
    match m
    case ReceiveBlock(d, b, _, _) => b == blockOf(d)
    case Propose(c) => c.built.Some? ==> BlockFromPayload(c.built.value) == blockOf(OfBlock(c.built.value.blockHash))
    case _ => true
  }

  predicate HoldsBlocksOf(blockOf: Digest -> Block, s: AppState) {
    forall d :: d in s.pendingBlocks ==> s.pendingBlocks[d] == blockOf(d)
  }

  lemma {:induction false} StillHoldsBlocksOf(blockOf: Digest -> Block, s: AppState, m: Message)
    requires HoldsBlocksOf(blockOf, s) && CarriesBlockOf(blockOf, m)
    ensures HoldsBlocksOf(blockOf, s.Process(m).0) && HoldsBlocksOf(blockOf, ProcessUncleaned(s, m).0)
  {
    if m.Propose? && s.Propose(m.context).1 != NullProposal {
      assert s.Propose(m.context) == s.CompleteProposal(m.context.built.value);
    }
  }

  /** With digests determining blocks nothing parts the two: dropping stale blocks and taking
      them back from the relay later leaves the finalized log, the proposals and every
      response as they are in an actor that never cleans up. */
  lemma {:induction false} CleanupIsInvisible(
    blockOf: Digest -> Block, s: AppState, messages: seq<Message>, m: Message)
    requires HoldsBlocksOf(blockOf, s)
    requires forall i :: 0 <= i < |messages| ==> CarriesBlockOf(blockOf, messages[i])
    ensures HoldsBlocksOf(blockOf, Run(s, messages)) && HoldsBlocksOf(blockOf, RunUncleaned(s, messages))
    ensures CleanedVersionOf(Run(s, messages), RunUncleaned(s, messages))
    ensures Run(s, messages).emitted == RunUncleaned(s, messages).emitted
    ensures Run(s, messages).Process(m).1 == ProcessUncleaned(RunUncleaned(s, messages), m).1
  {
    if messages != [] {
      var last := |messages| - 1;
      var s', u' := Run(s, messages[..last]), RunUncleaned(s, messages[..last]);
      CleanupIsInvisible(blockOf, s, messages[..last], messages[last]);
      StillHoldsBlocksOf(blockOf, s', messages[last]);
      StillHoldsBlocksOf(blockOf, u', messages[last]);
      LogsPartExactlyWhen(s', u', messages[last]);
    }
    LogsPartExactlyWhen(Run(s, messages), RunUncleaned(s, messages), m);
  }

  lemma OneMore(s: AppState, messages: seq<Message>, m: Message)
    ensures Run(s, messages + [m]) == Run(s, messages).Process(m).0
    ensures RunUncleaned(s, messages + [m]) == ProcessUncleaned(RunUncleaned(s, messages), m).0
  {
    assert (messages + [m])[..|messages|] == messages;
  }

  /** And such runs exist: if one digest arrives with two different blocks, the actor that
      has forgotten the first takes the second and the logs part. */
  lemma CleanupShowsWhenDigestsAreAmbiguous()
    ensures exists messages: seq<Message> ::
              var s := Initial(0, Vanilla, 1, 0);
              Run(s, messages).emitted != RunUncleaned(s, messages).emitted
  {
    var s := Initial(0, Vanilla, 1, 0);
    var p := Payload(7, 1, 0, 0, 0, []);
    var b1, b2 := Block(1, 0, 0, 0, [], 7), Block(2, 0, 7, 0, [], 8);
    var d, e := OfBlock(7), OfBlock(9);
    var ms1 := [] + [ReceiveBlock(d, b1, p, true)];
    var ms2 := ms1 + [ReceiveBlock(e, b1, p, true)];
    OneMore(s, [], ReceiveBlock(d, b1, p, true));
    OneMore(s, ms1, ReceiveBlock(e, b1, p, true));
    var t := Run(s, ms2);
    assert t == RunUncleaned(s, ms2) && t.pendingBlocks == map[d := b1, e := b1];
    var ms3 := ms2 + [Finalize(d)];
    var ms4 := ms3 + [ReceiveBlock(e, b2, p, true)];
    OneMore(s, ms2, Finalize(d));
    OneMore(s, ms3, ReceiveBlock(e, b2, p, true));
    OneMore(s, ms4, Finalize(e));
    assert e in t.Accept(d, b1).Stale();
    assert Run(s, ms4).pendingBlocks[e] == b2 && Run(s, ms4).height == 2;
    assert RunUncleaned(s, ms4).pendingBlocks[e] == b1 && RunUncleaned(s, ms4).height == 2;
    assert |Run(s, ms4 + [Finalize(e)]).emitted| == 2 && |RunUncleaned(s, ms4 + [Finalize(e)]).emitted| == 1;
  }
}
