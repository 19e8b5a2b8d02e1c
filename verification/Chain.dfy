/** When the emitted logs are chains although finalization checks heights only, and what
    that says about their timestamps. */
module Chain {
  import opened Types
  import opened Application
  import opened Network
  import ApplicationRuns

  // ---- Linkage ----

  ghost predicate Linked(h0: nat, genesis: Hash, log: seq<Block>) {
    forall q :: 0 <= q < |log| ==>
      log[q].height == h0 + q && log[q].parentHash == LastHash(genesis, log[..q])
  }

  predicate BuiltOn(h0: nat, genesis: Hash, log: seq<Block>, b: Block) {
    b.height == h0 + |log| && b.parentHash == LastHash(genesis, log)
  }

  /** `b` was built on some state of the reference log. */
  ghost predicate BuiltOnReference(w: World, h0: nat, genesis: Hash, finals: seq<Digest>, b: Block) {
    exists k :: 0 <= k <= |finals| && BuiltOn(h0, genesis, Greedy(w, h0, finals[..k]), b)
  }

  /** A block for the next height fits: two states of the reference log of the same length
      are the same state. */
  lemma NextHeightFits(w: World, h0: nat, genesis: Hash, finals: seq<Digest>, mine: seq<Digest>, b: Block)
    requires mine <= finals && BuiltOnReference(w, h0, genesis, finals, b)
    requires b.height == h0 + |Greedy(w, h0, mine)|
    ensures BuiltOn(h0, genesis, Greedy(w, h0, mine), b)
  {
    var k :| 0 <= k <= |finals| && BuiltOn(h0, genesis, Greedy(w, h0, finals[..k]), b);
    if k <= |mine| {
      assert mine[..k] == finals[..k];
      GreedyGrows(w, h0, mine, k);
    } else {
      assert finals[..k][..|mine|] == mine;
      GreedyGrows(w, h0, finals[..k], |mine|);
    }
  }

  /** Every prefix of the reference log was the reference log at some point. */
  lemma {:induction false} PrefixesAreStates(w: World, h0: nat, finals: seq<Digest>, q: nat) returns (k: nat)
    requires q <= |Greedy(w, h0, finals)|
    ensures k <= |finals| && Greedy(w, h0, finals[..k]) == Greedy(w, h0, finals)[..q]
  {
    if q == |Greedy(w, h0, finals)| {
      k := |finals|;
      assert finals[..k] == finals && Greedy(w, h0, finals)[..q] == Greedy(w, h0, finals);
    } else {
      var before := finals[..|finals| - 1];
      assert Greedy(w, h0, finals)[..q] == Greedy(w, h0, before)[..q];
      k := PrefixesAreStates(w, h0, before, q);
      assert before[..k] == finals[..k];
    }
  }

  /** A reference log is linked exactly when its blocks were all built on reference logs. */
  lemma {:induction false} LinkedExactlyWhenBuiltOnReference(
    w: World, h0: nat, genesis: Hash, finals: seq<Digest>, mine: seq<Digest>)
    requires HashesIdentify(w) && mine <= finals
    ensures Linked(h0, genesis, Greedy(w, h0, mine)) <==>
            forall b :: b in Greedy(w, h0, mine) ==> BuiltOnReference(w, h0, genesis, finals, b)
  {
    var log := Greedy(w, h0, mine);
    GreedyBlocks(w, h0, mine);
    forall q | 0 <= q < |log|
      ensures log[q].parentHash == LastHash(genesis, log[..q]) <==>
              BuiltOnReference(w, h0, genesis, finals, log[q])
    {
      var k := PrefixesAreStates(w, h0, mine, q);
      assert mine[..k] == finals[..k];
      assert BuiltOn(h0, genesis, Greedy(w, h0, finals[..k]), log[q])
        <==> log[q].parentHash == LastHash(genesis, log[..q]);
      if BuiltOnReference(w, h0, genesis, finals, log[q]) {
        NextHeightFits(w, h0, genesis, finals, mine[..k], log[q]);
      }
    }
  }

  // ---- Proposals ----

  /** The block that `step` proposes, if it makes a real proposal. */
  function Proposed(net: seq<Validator>, step: Step): Option<Block> {
    var (i, m) := step;
    if i < |net| && m.Propose? && m.context.built.Some? && net[i].app.Propose(m.context).1 != NullProposal
    then Some(BlockFromPayload(m.context.built.value))
    else None
  }

  ghost predicate WasProposed(w: World, h0: nat, net: seq<Validator>, steps: seq<Step>, b: Block) {
    exists k :: 0 <= k < |steps| && Proposed(After(w, h0, net, steps[..k]), steps[k]) == Some(b)
  }

  lemma StillProposed(w: World, h0: nat, net: seq<Validator>, steps: seq<Step>, b: Block)
    requires steps != [] && WasProposed(w, h0, net, steps[..|steps| - 1], b)
    ensures WasProposed(w, h0, net, steps, b)
  {
    var before := steps[..|steps| - 1];
    var k :| 0 <= k < |before| && Proposed(After(w, h0, net, before[..k]), before[k]) == Some(b);
    assert before[..k] == steps[..k] && before[k] == steps[k];
  }

  /** The blocks a validator relays, holds or has emitted. */
  predicate Has(v: Validator, b: Block) {
    || b in v.app.emitted
    || (exists d :: d in v.app.pendingBlocks && v.app.pendingBlocks[d] == b)
    || (exists r :: r in v.app.relayed && r.block == b)
  }

  /** One message brings a validator at most the block it proposes or receives. */
  lemma {:induction false} AdvanceHas(w: World, h0: nat, v: Validator, m: Message, b: Block)
    requires Has(Advance(w, h0, v, m), b)
    ensures Has(v, b)
         || (m.Propose? && m.context.built.Some? && v.app.Propose(m.context).1 != NullProposal
             && BlockFromPayload(m.context.built.value) == b)
         || (m.ReceiveBlock? && m.block == b)
  {
    if m.Propose? && v.app.Propose(m.context).1 != NullProposal {
      assert v.app.Propose(m.context) == v.app.CompleteProposal(m.context.built.value);
    }
  }

  ghost predicate AllProposed(w: World, h0: nat, net: seq<Validator>, steps: seq<Step>) {
    forall i, b :: 0 <= i < |net| && Has(After(w, h0, net, steps)[i], b) ==> WasProposed(w, h0, net, steps, b)
  }

  /** Every block anywhere in the network was proposed by one of its validators. */
  lemma {:induction false} BlocksWereProposed(
    w: World, h0: nat, genesis: Hash, finals: seq<Digest>, net: seq<Validator>, steps: seq<Step>)
    requires Starting(w, h0, genesis, net) && AllAllowed(w, h0, finals, net, steps)
    ensures AllProposed(w, h0, net, steps)
  {
    if steps != [] {
      var last := |steps| - 1;
      var before := After(w, h0, net, steps[..last]);
      var (i, m) := steps[last];
      AllowedBefore(w, h0, finals, net, steps);
      BlocksWereProposed(w, h0, genesis, finals, net, steps[..last]);
      assert After(w, h0, net, steps) == before[i := Advance(w, h0, before[i], m)];
      forall j, b | 0 <= j < |net| && Has(After(w, h0, net, steps)[j], b)
        ensures WasProposed(w, h0, net, steps, b)
      {
        NewBlockWasProposed(w, h0, finals, net, steps, j, b);
      }
    }
  }

  lemma {:induction false} NewBlockWasProposed(
    w: World, h0: nat, finals: seq<Digest>, net: seq<Validator>, steps: seq<Step>, j: nat, b: Block)
    requires steps != [] && j < |net| && AllProposed(w, h0, net, steps[..|steps| - 1])
    requires Allowed(w, finals, After(w, h0, net, steps[..|steps| - 1]), steps[|steps| - 1])
    requires Has(After(w, h0, net, steps)[j], b)
    ensures WasProposed(w, h0, net, steps, b)
  {
    var last := |steps| - 1;
    var before := After(w, h0, net, steps[..last]);
    var (i, m) := steps[last];
    if j == i && !Has(before[j], b) {
      AdvanceHas(w, h0, before[i], m, b);
      if m.Propose? {
        assert Proposed(before, steps[last]) == Some(b);
      } else {
        var r :| 0 <= r < |before| && ProposedBlock(m.digest, m.block, m.payload) in before[r].app.relayed;
        assert Has(before[r], b);
        StillProposed(w, h0, net, steps, b);
      }
    } else {
      StillProposed(w, h0, net, steps, b);
    }
  }

  // ---- When logs are chains ----

  /** The log is as long as some state of the reference log and ends in the same block: it
      may have stopped early, or departed and come back. */
  ghost predicate TipOnReference(w: World, h0: nat, genesis: Hash, finals: seq<Digest>, log: seq<Block>) {
    exists k :: 0 <= k <= |finals| && SameTip(genesis, log, Greedy(w, h0, finals[..k]))
  }

  predicate SameTip(genesis: Hash, log: seq<Block>, reference: seq<Block>) {
    |log| == |reference| && LastHash(genesis, log) == LastHash(genesis, reference)
  }

  /** A validator that has missed nothing is on the reference log. */
  lemma {:induction false} UnmissedIsOnReference(w: World, h0: nat, genesis: Hash, finals: seq<Digest>, v: Validator)
    requires ValidatorInv(w, h0, genesis, v) && v.finals <= finals && !v.missed
    ensures TipOnReference(w, h0, genesis, finals, v.app.emitted)
  {
    assert finals[..|v.finals|] == v.finals;
    assert SameTip(genesis, v.app.emitted, Greedy(w, h0, v.finals));
  }

  lemma {:induction false} BuiltWhereItsProposerWas(
    w: World, h0: nat, genesis: Hash, finals: seq<Digest>, v: Validator, c: BuildContext)
    requires ValidatorInv(w, h0, genesis, v) && HonestReth(w, v.app, c) && c.built.Some?
    ensures BuiltOnReference(w, h0, genesis, finals, BlockFromPayload(c.built.value))
       <==> TipOnReference(w, h0, genesis, finals, v.app.emitted)
  {
    var b := BlockFromPayload(c.built.value);
    assert BuiltOn(h0, genesis, v.app.emitted, b);
    if TipOnReference(w, h0, genesis, finals, v.app.emitted) {
      var k :| 0 <= k <= |finals| && SameTip(genesis, v.app.emitted, Greedy(w, h0, finals[..k]));
      assert BuiltOn(h0, genesis, Greedy(w, h0, finals[..k]), b);
    }
    if BuiltOnReference(w, h0, genesis, finals, b) {
      var k :| 0 <= k <= |finals| && BuiltOn(h0, genesis, Greedy(w, h0, finals[..k]), b);
      assert SameTip(genesis, v.app.emitted, Greedy(w, h0, finals[..k]));
    }
  }

  /** Where the proposer of step `k` was when it proposed. */
  ghost predicate SoundProposal(
    w: World, h0: nat, genesis: Hash, finals: seq<Digest>, net: seq<Validator>, steps: seq<Step>, k: nat)
    requires k < |steps|
  {
    var (i, _) := steps[k];
    var before := After(w, h0, net, steps[..k]);
    i < |before| && TipOnReference(w, h0, genesis, finals, before[i].app.emitted)
  }

  lemma {:induction false} ProposalIsSound(
    w: World, h0: nat, genesis: Hash, finals: seq<Digest>, net: seq<Validator>, steps: seq<Step>, k: nat, b: Block)
    requires Starting(w, h0, genesis, net) && AllAllowed(w, h0, finals, net, steps) && k < |steps|
    requires Proposed(After(w, h0, net, steps[..k]), steps[k]) == Some(b)
    ensures SoundProposal(w, h0, genesis, finals, net, steps, k) <==> BuiltOnReference(w, h0, genesis, finals, b)
  {
    var (i, m) := steps[k];
    var before := After(w, h0, net, steps[..k]);
    AllowedPrefix(w, h0, finals, net, steps, k);
    RunsKeepNetInv(w, h0, genesis, finals, net, steps[..k]);
    assert NetInvAt(w, h0, genesis, finals, before[i]);
    BuiltWhereItsProposerWas(w, h0, genesis, finals, before[i], m.context);
  }

  lemma AllowedPrefix(w: World, h0: nat, finals: seq<Digest>, net: seq<Validator>, steps: seq<Step>, k: nat)
    requires AllAllowed(w, h0, finals, net, steps) && k < |steps|
    ensures AllAllowed(w, h0, finals, net, steps[..k])
    ensures Allowed(w, finals, After(w, h0, net, steps[..k]), steps[k])
  {
    var before := steps[..k];
    forall j | 0 <= j < |before|
      ensures Allowed(w, finals, After(w, h0, net, before[..j]), before[j])
    {
      assert before[..j] == steps[..j];
    }
  }

  /** Every real proposal of a block of `log` was made from the tip of a reference log. */
  ghost predicate SoundProposersOf(
    w: World, h0: nat, genesis: Hash, finals: seq<Digest>, net: seq<Validator>, steps: seq<Step>, log: seq<Block>)
  {
    forall k :: 0 <= k < |steps| && ProposesOneOf(After(w, h0, net, steps[..k]), steps[k], log) ==>
      SoundProposal(w, h0, genesis, finals, net, steps, k)
  }

  predicate ProposesOneOf(net: seq<Validator>, step: Step, log: seq<Block>) {
    Proposed(net, step).Some? && Proposed(net, step).value in log
  }

  /** Chain linkage. The log of a validator that has missed nothing has consecutive heights
      with every block's parent the block before it, if and only if its blocks were proposed
      from the tip of a reference log. The other validators may lag or depart as they like. */
  lemma {:induction false} LogsAreChains(
    w: World, h0: nat, genesis: Hash, finals: seq<Digest>, net: seq<Validator>, steps: seq<Step>, i: nat)
    requires Starting(w, h0, genesis, net) && AllAllowed(w, h0, finals, net, steps)
    requires i < |net| && !After(w, h0, net, steps)[i].missed
    ensures var log := After(w, h0, net, steps)[i].app.emitted;
            Linked(h0, genesis, log) <==> SoundProposersOf(w, h0, genesis, finals, net, steps, log)
  {
    var v := After(w, h0, net, steps)[i];
    RunsKeepNetInv(w, h0, genesis, finals, net, steps);
    assert NetInvAt(w, h0, genesis, finals, v);
    BlocksWereProposed(w, h0, genesis, finals, net, steps);
    LinkedExactlyWhenBuiltOnReference(w, h0, genesis, finals, v.finals);
    SoundExactlyWhenBuiltOnReference(w, h0, genesis, finals, net, steps, v.app.emitted);
  }

  lemma {:induction false} SoundExactlyWhenBuiltOnReference(
    w: World, h0: nat, genesis: Hash, finals: seq<Digest>, net: seq<Validator>, steps: seq<Step>, log: seq<Block>)
    requires Starting(w, h0, genesis, net) && AllAllowed(w, h0, finals, net, steps)
    requires forall b :: b in log ==> WasProposed(w, h0, net, steps, b)
    ensures SoundProposersOf(w, h0, genesis, finals, net, steps, log) <==>
            forall b :: b in log ==> BuiltOnReference(w, h0, genesis, finals, b)
  {
    forall k, b | 0 <= k < |steps| && Proposed(After(w, h0, net, steps[..k]), steps[k]) == Some(b)
      ensures SoundProposal(w, h0, genesis, finals, net, steps, k) <==> BuiltOnReference(w, h0, genesis, finals, b)
    {
      ProposalIsSound(w, h0, genesis, finals, net, steps, k, b);
    }
    if SoundProposersOf(w, h0, genesis, finals, net, steps, log) {
      forall b | b in log
        ensures BuiltOnReference(w, h0, genesis, finals, b)
      {
        var k :| 0 <= k < |steps| && Proposed(After(w, h0, net, steps[..k]), steps[k]) == Some(b);
        assert ProposesOneOf(After(w, h0, net, steps[..k]), steps[k], log);
      }
    }
  }

  /** In particular when nobody who proposes has missed anything. */
  lemma {:induction false} LogsOfSoundProposersAreChains(
    w: World, h0: nat, genesis: Hash, finals: seq<Digest>, net: seq<Validator>, steps: seq<Step>, i: nat)
    requires Starting(w, h0, genesis, net) && AllAllowed(w, h0, finals, net, steps)
    requires i < |net| && !After(w, h0, net, steps)[i].missed
    requires forall k :: 0 <= k < |steps| && Proposed(After(w, h0, net, steps[..k]), steps[k]).Some? ==>
               !After(w, h0, net, steps[..k])[steps[k].0].missed
    ensures Linked(h0, genesis, After(w, h0, net, steps)[i].app.emitted)
  {
    forall k | 0 <= k < |steps| && Proposed(After(w, h0, net, steps[..k]), steps[k]).Some?
      ensures SoundProposal(w, h0, genesis, finals, net, steps, k)
    {
      var before := After(w, h0, net, steps[..k]);
      AllowedPrefix(w, h0, finals, net, steps, k);
      RunsKeepNetInv(w, h0, genesis, finals, net, steps[..k]);
      assert NetInvAt(w, h0, genesis, finals, before[steps[k].0]);
      UnmissedIsOnReference(w, h0, genesis, finals, before[steps[k].0]);
    }
    LogsAreChains(w, h0, genesis, finals, net, steps, i);
  }

  // ---- Block timing ----

  predicate SteadyClock(m: Message) {
    m.Propose? ==> m.context.clockAtCheck <= m.context.clockAtBuild
  }

  predicate StampedAfterParent(w: World, timing: BlockTiming, b: Block) {
    CanBuildBlock(timing, b.timestamp, w(b.parentHash).timestamp)
  }

  ghost predicate AllTimed(timing: BlockTiming, net: seq<Validator>) {
    forall i :: 0 <= i < |net| ==> net[i].app.blockTiming == timing
  }

  ghost predicate TimeInv(w: World, timing: BlockTiming, net: seq<Validator>) {
    forall i :: 0 <= i < |net| ==> TimeInvAt(w, timing, net[i].app)
  }

  ghost predicate TimeInvAt(w: World, timing: BlockTiming, app: AppState) {
    && app.blockTiming == timing
    && (forall r :: r in app.relayed ==> StampedAfterParent(w, timing, r.block))
    && (forall d :: d in app.pendingBlocks ==> StampedAfterParent(w, timing, app.pendingBlocks[d]))
    && (forall b :: b in app.emitted ==> StampedAfterParent(w, timing, b))
  }

  /** A real proposal carries the proposer's own clock reading, and on a clock that does not
      step back between the check and the build it is late enough for its parent. */
  lemma {:induction false} ProposalIsStampedAfterParent(w: World, app: AppState, c: BuildContext)
    requires HonestReth(w, app, c) && app.Propose(c).1 != NullProposal
    ensures c.built.Some? && BlockFromPayload(c.built.value).timestamp == c.clockAtBuild
    ensures CanBuildBlock(app.blockTiming, c.clockAtCheck, w(app.lastHash).timestamp)
    ensures c.clockAtCheck <= c.clockAtBuild ==>
              StampedAfterParent(w, app.blockTiming, BlockFromPayload(c.built.value))
  {
    ApplicationRuns.SyncsOnFirstDecisiveAnswer(app, c.heads, app.SyncFrom(c.heads, 0).parentTimestamp);
  }

  /** Some actor in some world, with an honest reth, reads its clock as `t1` and then `t2`
      and makes a real proposal. */
  ghost predicate Proposes(w: World, app: AppState, c: BuildContext, timing: BlockTiming, t1: nat, t2: nat) {
    && HashesIdentify(w) && HonestReth(w, app, c) && app.blockTiming == timing
    && c.clockAtCheck == t1 && c.clockAtBuild == t2
    && app.Propose(c).1 != NullProposal
  }

  /** A parent as late as the first reading lets through, and a block stamped with the
      second. */
  lemma {:induction false} SteppingBackBreaksTheCheck(timing: BlockTiming, t1: nat, t2: nat)
    returns (w: World, app: AppState, c: BuildContext)
    requires t2 < t1
    ensures Proposes(w, app, c, timing, t1, t2)
    ensures !StampedAfterParent(w, timing, BlockFromPayload(c.built.value))
  {
    var parent := if timing.Vanilla? then t1 - 1 else t1;
    w := (h: Hash) => if h == 0 then Payload(0, 0, 0, parent, 0, []) else Payload(h, 1, 0, t2, 0, []);
    app := Initial(0, timing, 1, 0);
    c := BuildContext([Some(RethHead(0, 0, parent))], t1, t2, Some(w(1)));
    assert app.SyncFrom(c.heads, 0) == Synced(parent);
    assert app.Propose(c).1 == OfBlock(1);
  }

  /** Exactly when the two readings of the clock are safe: every honest real proposal made
      with them is late enough for its parent if and only if the second is not below the
      first. */
  lemma {:induction false} StampedInTimeExactlyOnASteadyClock(timing: BlockTiming, t1: nat, t2: nat)
    ensures (forall w, app, c :: Proposes(w, app, c, timing, t1, t2) ==>
               c.built.Some? && StampedAfterParent(w, timing, BlockFromPayload(c.built.value)))
            <==> t1 <= t2
  {
    if t1 <= t2 {
      forall w, app, c | Proposes(w, app, c, timing, t1, t2)
        ensures c.built.Some? && StampedAfterParent(w, timing, BlockFromPayload(c.built.value))
      {
        ProposalIsStampedAfterParent(w, app, c);
      }
    } else {
      var w, app, c := SteppingBackBreaksTheCheck(timing, t1, t2);
    }
  }

  lemma {:induction false} ProposeKeepsTimes(w: World, timing: BlockTiming, app: AppState, c: BuildContext)
    requires TimeInvAt(w, timing, app) && HonestReth(w, app, c) && c.clockAtCheck <= c.clockAtBuild
    ensures TimeInvAt(w, timing, app.Propose(c).0)
  {
    if app.Propose(c).1 != NullProposal {
      ProposalIsStampedAfterParent(w, app, c);
      assert app.Propose(c) == app.CompleteProposal(c.built.value);
    }
  }

  lemma StepKeepsTimeInv(
    w: World, h0: nat, timing: BlockTiming, finals: seq<Digest>, net: seq<Validator>, i: nat, m: Message)
    requires TimeInv(w, timing, net) && Allowed(w, finals, net, (i, m)) && SteadyClock(m)
    ensures TimeInv(w, timing, net[i := Advance(w, h0, net[i], m)])
  {
    var app := net[i].app;
    assert TimeInvAt(w, timing, app);
    assert TimeInvAt(w, timing, app.Process(m).0) by {
      match m {
        case Propose(c) => ProposeKeepsTimes(w, timing, app, c);
        case ReceiveBlock(d, b, p, _) =>
          var j :| 0 <= j < |net| && ProposedBlock(d, b, p) in net[j].app.relayed;
          assert TimeInvAt(w, timing, net[j].app);
        case _ =>
      }
    }
  }

  lemma {:induction false} RunsKeepTimeInv(
    w: World, h0: nat, genesis: Hash, timing: BlockTiming, finals: seq<Digest>, net: seq<Validator>, steps: seq<Step>)
    requires Starting(w, h0, genesis, net) && AllAllowed(w, h0, finals, net, steps) && AllTimed(timing, net)
    requires forall k :: 0 <= k < |steps| ==> SteadyClock(steps[k].1)
    ensures TimeInv(w, timing, After(w, h0, net, steps))
  {
    if steps != [] {
      var before := steps[..|steps| - 1];
      var (i, m) := steps[|steps| - 1];
      AllowedBefore(w, h0, finals, net, steps);
      RunsKeepTimeInv(w, h0, genesis, timing, finals, net, before);
      assert SteadyClock(steps[|before|].1);
      StepKeepsTimeInv(w, h0, timing, finals, After(w, h0, net, before), i, m);
    }
  }

  lemma {:induction false} LinkedLogsAdvance(
    w: World, h0: nat, genesis: Hash, timing: BlockTiming, log: seq<Block>, p: nat, q: nat)
    requires Linked(h0, genesis, log) && p <= q < |log|
    requires forall b :: b in log ==> StampedAfterParent(w, timing, b) && b == BlockOf(w, b.blockHash)
    ensures log[p].timestamp + (if timing.Vanilla? then q - p else 0) <= log[q].timestamp
  {
    if p < q {
      LinkedLogsAdvance(w, h0, genesis, timing, log, p, q - 1);
      assert log[q].parentHash == log[q - 1].blockHash;
    }
  }

  /** Block timing along every linked log of a validator that has missed nothing: in Vanilla
      mode at least a second per block, in Subsecond mode timestamps never go back. */
  lemma {:induction false} LogTimestampsAdvance(
    w: World, h0: nat, genesis: Hash, timing: BlockTiming, finals: seq<Digest>,
    net: seq<Validator>, steps: seq<Step>, i: nat, p: nat, q: nat)
    requires Starting(w, h0, genesis, net) && AllAllowed(w, h0, finals, net, steps) && AllTimed(timing, net)
    requires forall k :: 0 <= k < |steps| ==> SteadyClock(steps[k].1)
    requires i < |net| && !After(w, h0, net, steps)[i].missed
    requires Linked(h0, genesis, After(w, h0, net, steps)[i].app.emitted)
    requires p <= q < |After(w, h0, net, steps)[i].app.emitted|
    ensures var log := After(w, h0, net, steps)[i].app.emitted;
            log[q].height - log[p].height == q - p
            && log[p].timestamp + (if timing.Vanilla? then q - p else 0) <= log[q].timestamp
  {
    var v := After(w, h0, net, steps)[i];
    RunsKeepNetInv(w, h0, genesis, finals, net, steps);
    RunsKeepTimeInv(w, h0, genesis, timing, finals, net, steps);
    assert NetInvAt(w, h0, genesis, finals, v) && TimeInvAt(w, timing, v.app) && !v.missed;
    GreedyBlocks(w, h0, v.finals);
    LinkedLogsAdvance(w, h0, genesis, timing, v.app.emitted, p, q);
  }
}
