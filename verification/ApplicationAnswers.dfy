/** What the application actor answers and when, in terms of its state and of what it was
    sent. */
module ApplicationAnswers {
  import opened Types
  import opened Application
  import opened ApplicationRuns

  // ---- Proposals ----

  predicate MayPropose(s: AppState) {
    s.lastProposedHeight.None? || s.lastProposedHeight.value < s.height
  }

  /** The clock is past the parent's timestamp, or in Subsecond mode not before it. */
  predicate LateEnough(timing: BlockTiming, now: nat, parentTimestamp: nat) {
    parentTimestamp < now || (timing == Subsecond && parentTimestamp == now)
  }

  /** Some attempt among ten names the actor's last block, with none decided before, and the
      clock is late enough for that block. */
  ghost predicate ReadyAt(s: AppState, c: BuildContext, k: nat) {
    && k < 10 && Matches(s, c.heads, k) && (forall j :: 0 <= j < k ==> Undecided(s, c.heads, j))
    && LateEnough(s.blockTiming, c.clockAtCheck, c.heads[k].value.timestamp)
  }

  /** Exactly when a proposal is real: nothing was proposed at this height or above, reth is at
      the actor's last block, the clock is late enough for it, and reth builds a block. */
  lemma {:induction false} ProposesExactlyWhen(s: AppState, c: BuildContext)
    ensures s.Propose(c).1 != NullProposal <==>
            MayPropose(s) && c.built.Some? && exists k: nat :: ReadyAt(s, c, k)
  {
    var sync := s.SyncFrom(c.heads, 0);
    if sync.Synced? {
      SyncsOnFirstDecisiveAnswer(s, c.heads, sync.parentTimestamp);
      var k :| 0 <= k < 10 && Matches(s, c.heads, k) && c.heads[k].value.timestamp == sync.parentTimestamp
            && forall j :: 0 <= j < k ==> Undecided(s, c.heads, j);
      assert LateEnough(s.blockTiming, c.clockAtCheck, sync.parentTimestamp) <==> ReadyAt(s, c, k);
    }
    forall k: nat | ReadyAt(s, c, k)
      ensures sync == Synced(c.heads[k].value.timestamp)
    {
      SyncsOnFirstDecisiveAnswer(s, c.heads, c.heads[k].value.timestamp);
    }
  }

  /** What a real proposal puts on the relay: the block reth built, field by field, under the
      digest of its hash, with its payload. Anything else leaves the actor as it was. */
  lemma {:induction false} ProposalIsWhatRethBuilt(s: AppState, c: BuildContext)
    ensures var (t, d) := s.Propose(c);
            if d == NullProposal then t == s
            else
              && c.built.Some?
              && var p := c.built.value;
                 var b := Block(p.number, p.timestamp, p.parentHash, p.feeRecipient, p.transactions, p.blockHash);
                 && d == OfBlock(p.blockHash)
                 && t.relayed == s.relayed + [ProposedBlock(d, b, p)]
                 && d in t.pendingBlocks && t.pendingBlocks[d] == b
                 && d in t.pendingPayloads && t.pendingPayloads[d] == p
                 && t.lastProposedHeight == Some(s.height)
                 && t.height == s.height && t.lastHash == s.lastHash && t.emitted == s.emitted
  {
    if s.Propose(c).1 != NullProposal {
      assert s.Propose(c) == s.CompleteProposal(c.built.value);
    }
  }

  // ---- Verdicts ----

  /** Whoever votes accepts what a proposer answered if and only if it was a real proposal, one
      the proposer relayed: for any two actors, wherever their runs have brought them. An
      accepted digest counts as verified from then on, and a rejected one changes nothing. */
  lemma {:induction false} VotersAcceptRealProposals(
    start: AppState, messages: seq<Message>, c: BuildContext, voter: AppState, others: seq<Message>)
    ensures var s, u := Run(start, messages), Run(voter, others);
            var (t, r) := s.Process(Propose(c));
            && r.Proposal?
            && var (v, verdict) := u.Process(Verify(r.proposed));
               && verdict == Verdict(|t.relayed| == |s.relayed| + 1)
               && (|t.relayed| == |s.relayed| + 1 || t.relayed == s.relayed)
               && v == if verdict == Verdict(true) then u.(verified := u.verified + {r.proposed}) else u
  {
    var s := Run(start, messages);
    ProposalIsWhatRethBuilt(s, c);
  }

  /** `m` makes `d` count as verified. */
  predicate Vouches(s: AppState, m: Message, d: Digest) {
    match m
    case Genesis(epoch) => d == GenesisDigest(epoch)
    case Propose(c) => d != NullProposal && d == s.Propose(c).1
    case Verify(v) => d != NullProposal && d == v
    case ReceiveBlock(r, _, _, imported) => imported && d == r && r !in s.pendingBlocks
    case _ => false
  }

  predicate VouchesAt(s: AppState, messages: seq<Message>, k: nat, d: Digest)
    requires k < |messages|
  {
    Vouches(Run(s, messages[..k]), messages[k], d)
  }

  lemma {:induction false} VerifiedStep(s: AppState, m: Message, d: Digest)
    ensures d in s.Process(m).0.verified <==> d in s.verified || Vouches(s, m, d)
  {
    if m.Propose? {
      ProposalIsWhatRethBuilt(s, m.context);
      if s.Propose(m.context).1 != NullProposal {
        assert s.Propose(m.context) == s.CompleteProposal(m.context.built.value);
      }
    }
  }

  /** Over every run, the verified digests are exactly those of a genesis request, a real
      proposal, an accepted vote or a new block that reth imported. */
  lemma {:induction false} VerifiedExactlyWhenVouchedFor(s: AppState, messages: seq<Message>, d: Digest)
    ensures d in Run(s, messages).verified <==>
            d in s.verified || exists k :: 0 <= k < |messages| && VouchesAt(s, messages, k, d)
  {
    if messages != [] {
      var last := |messages| - 1;
      var before := messages[..last];
      VerifiedExactlyWhenVouchedFor(s, before, d);
      VerifiedStep(Run(s, before), messages[last], d);
      forall k | 0 <= k < last
        ensures VouchesAt(s, messages, k, d) <==> VouchesAt(s, before, k, d)
      {
        assert before[..k] == messages[..k];
      }
      assert VouchesAt(s, messages, last, d) <==> Vouches(Run(s, before), messages[last], d);
    }
  }

  // ---- Finalizations ----

  /** Exactly when a finalization is accepted, and what is pending afterwards: nothing below
      the new height, and everything else that was. A refused one only forgets its digest. */
  lemma {:induction false} FinalizedExactlyWhen(s: AppState, d: Digest)
    ensures var (t, r) := s.Process(Finalize(d));
            && r.Finalized?
            && (r.accepted.Some? <==> d in s.pendingBlocks && s.pendingBlocks[d].height == s.height)
            && (r.accepted.Some? ==>
                  && r.accepted.value == s.pendingBlocks[d]
                  && t.height == s.height + 1 && t.lastHash == s.pendingBlocks[d].blockHash
                  && t.emitted == s.emitted + [s.pendingBlocks[d]]
                  && forall e :: e in t.pendingBlocks <==>
                       e in s.pendingBlocks && e != d && s.pendingBlocks[e].height >= s.height + 1)
            && (r.accepted.None? ==>
                  && t.height == s.height && t.lastHash == s.lastHash && t.emitted == s.emitted
                  && forall e :: e in t.pendingBlocks <==> e in s.pendingBlocks && e != d)
            && (forall e :: e in t.pendingBlocks ==> t.pendingBlocks[e] == s.pendingBlocks[e])
  {
  }

  // ---- Blocks received ----

  /** `d` is pending with this block and payload, or its height has been passed. */
  predicate Keeps(s: AppState, d: Digest, b: Block, p: Payload) {
    b.height < s.height
    || (d in s.pendingBlocks && s.pendingBlocks[d] == b && d in s.pendingPayloads && s.pendingPayloads[d] == p)
  }

  predicate Touches(s: AppState, m: Message, d: Digest) {
    m == Finalize(d) || s.Process(m).1 == Proposal(d)
  }

  predicate TouchesAt(s: AppState, messages: seq<Message>, k: nat, d: Digest)
    requires k < |messages|
  {
    Touches(Run(s, messages[..k]), messages[k], d)
  }

  lemma {:induction false} KeptStep(s: AppState, m: Message, d: Digest, b: Block, p: Payload)
    requires Keeps(s, d, b, p) && !Touches(s, m, d)
    ensures Keeps(s.Process(m).0, d, b, p)
  {
    match m {
      case Propose(c) =>
        ProposalIsWhatRethBuilt(s, c);
        if s.Propose(c).1 != NullProposal {
          assert s.Propose(c) == s.CompleteProposal(c.built.value);
        }
      case Finalize(e) =>
        FinalizedExactlyWhen(s, e);
      case _ =>
    }
  }

  lemma {:induction false} KeptOverRuns(
    s: AppState, messages: seq<Message>, d: Digest, b: Block, p: Payload)
    requires Keeps(s, d, b, p) && forall k :: 0 <= k < |messages| ==> !TouchesAt(s, messages, k, d)
    ensures Keeps(Run(s, messages), d, b, p)
  {
    if messages != [] {
      var last := |messages| - 1;
      var before := messages[..last];
      forall k | 0 <= k < last
        ensures !TouchesAt(s, before, k, d)
      {
        assert before[..k] == messages[..k] && !TouchesAt(s, messages, k, d);
      }
      KeptOverRuns(s, before, d, b, p);
      assert !TouchesAt(s, messages, last, d);
      KeptStep(Run(s, before), messages[last], d, b, p);
    }
  }

  /** The first frame with an unknown digest decides which block and payload are pending under
      it. No later frame replaces them: they stay until that digest is finalized or proposed
      again, or the actor is past their height. */
  lemma {:induction false} FirstFrameDecides(
    s: AppState, d: Digest, b: Block, p: Payload, imported: bool, messages: seq<Message>)
    requires d !in s.pendingBlocks
    requires var t := s.Process(ReceiveBlock(d, b, p, imported)).0;
             forall k :: 0 <= k < |messages| ==> !TouchesAt(t, messages, k, d)
    ensures var t := s.Process(ReceiveBlock(d, b, p, imported)).0;
            && d in t.pendingBlocks && t.pendingBlocks[d] == b && t.pendingPayloads[d] == p
            && t.height == s.height && t.emitted == s.emitted
            && Keeps(Run(t, messages), d, b, p)
  {
    KeptOverRuns(s.Process(ReceiveBlock(d, b, p, imported)).0, messages, d, b, p);
  }

  /** The genesis answer does not depend on the state. */
  lemma {:induction false} GenesisIsFixed(s: AppState, u: AppState, epoch: nat)
    ensures s.Process(Genesis(epoch)).1 == u.Process(Genesis(epoch)).1 == GenesisIs(GenesisDigest(epoch))
    ensures u.Process(Verify(GenesisDigest(epoch))).1 == Verdict(true)
  {
  }
}
