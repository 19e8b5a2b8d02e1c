/** N application actors fed one sequence of finalized digests, exchanging blocks by
    relay: when their logs agree, why those logs are chains, and what their timestamps do. */
module Network {
  import opened Types
  import opened Application

  /** What block a hash names. Hashes are collision free, so this is one function for the
      whole network; reth nodes differ only in which blocks they know. */
  type World = Hash -> Payload

  ghost predicate HashesIdentify(w: World) {
    forall h :: w(h).blockHash == h
  }

  function BlockOf(w: World, h: Hash): Block { BlockFromPayload(w(h)) }

  // ---- The reference log ----

  predicate Extends(w: World, h0: nat, log: seq<Block>, d: Digest) {
    d.OfBlock? && w(d.hash).number == h0 + |log|
  }

  /** Of the finalized digests in order, the first block at each expected height. */
  function Greedy(w: World, h0: nat, finals: seq<Digest>): seq<Block> {
    if finals == [] then []
    else
      var log, d := Greedy(w, h0, finals[..|finals| - 1]), finals[|finals| - 1];
      if Extends(w, h0, log, d) then log + [BlockOf(w, d.hash)] else log
  }

  lemma {:induction false} GreedyGrows(w: World, h0: nat, finals: seq<Digest>, k: nat)
    requires k <= |finals|
    ensures Greedy(w, h0, finals[..k]) <= Greedy(w, h0, finals)
  {
    if k < |finals| {
      GreedyGrows(w, h0, finals[..|finals| - 1], k);
      assert finals[..|finals| - 1][..k] == finals[..k];
    } else {
      assert finals[..k] == finals;
    }
  }

  lemma {:induction false} GreedyBlocks(w: World, h0: nat, finals: seq<Digest>)
    requires HashesIdentify(w)
    ensures forall q :: 0 <= q < |Greedy(w, h0, finals)| ==>
              var b := Greedy(w, h0, finals)[q];
              b.height == h0 + q && OfBlock(b.blockHash) in finals && b == BlockOf(w, b.blockHash)
  {
    if finals != [] {
      GreedyBlocks(w, h0, finals[..|finals| - 1]);
    }
  }

  // ---- One validator and its history ----

  /** `finals` are the finalizations it has processed, `delivered` the digests whose block
      it has proposed or received and not seen finalized since, and `missed` records that
      some finalization extended the reference log without having been delivered. */
  datatype Validator = Validator(app: AppState, finals: seq<Digest>, delivered: set<Digest>, missed: bool)

  function Advance(w: World, h0: nat, v: Validator, m: Message): Validator {
    var (app, r) := v.app.Process(m);
    match m
    case Finalize(d) =>
      Validator(app, v.finals + [d], v.delivered - {d},
                v.missed || (Extends(w, h0, Greedy(w, h0, v.finals), d) && d !in v.delivered))
    case ReceiveBlock(d, _, _, _) => v.(app := app, delivered := v.delivered + {d})
    case Propose(_) =>
      v.(app := app, delivered := if r.proposed == NullProposal then v.delivered else v.delivered + {r.proposed})
    case _ => v.(app := app)
  }

  ghost predicate HonestFrame(w: World, d: Digest, b: Block, p: Payload) {
    d.OfBlock? && p == w(d.hash) && b == BlockFromPayload(p)
  }

  ghost predicate HonestContent(w: World, m: Message) {
    match m
    case ReceiveBlock(d, b, p, _) => HonestFrame(w, d, b, p)
    case Propose(c) => c.built.Some? ==> c.built.value == w(c.built.value.blockHash)
    case _ => true
  }

  function LastHash(genesis: Hash, log: seq<Block>): Hash {
    if log == [] then genesis else log[|log| - 1].blockHash
  }

  /** Where the log departs from the reference log, for good if no digest is finalized twice. */
  ghost predicate Departed(w: World, h0: nat, v: Validator) {
    exists q: nat :: DepartsAt(Greedy(w, h0, v.finals), v.app.emitted, q)
  }

  predicate DepartsAt(reference: seq<Block>, log: seq<Block>, q: nat) {
    q < |reference| && (q < |log| ==> log[q] != reference[q])
  }

  ghost predicate ValidatorInv(w: World, h0: nat, genesis: Hash, v: Validator) {
    && (forall d :: d in v.app.pendingBlocks ==> d.OfBlock? && v.app.pendingBlocks[d] == BlockOf(w, d.hash))
    && v.app.height == h0 + |v.app.emitted|
    && v.app.lastHash == LastHash(genesis, v.app.emitted)
    && w(v.app.lastHash).number + 1 == v.app.height
    && (forall d :: d in v.app.pendingBlocks ==> d in v.delivered)
    && (forall d :: d in v.delivered ==>
          d.OfBlock? && (d in v.app.pendingBlocks || w(d.hash).number < v.app.height))
    && (!v.missed ==> v.app.emitted == Greedy(w, h0, v.finals))
  }

  lemma FinalizeKeepsValidatorInv(w: World, h0: nat, genesis: Hash, v: Validator, d: Digest)
    requires HashesIdentify(w) && ValidatorInv(w, h0, genesis, v)
    ensures ValidatorInv(w, h0, genesis, Advance(w, h0, v, Finalize(d)))
  {
    var v' := Advance(w, h0, v, Finalize(d));
    assert v'.finals[..|v.finals|] == v.finals;
    if d in v.app.pendingBlocks && v.app.pendingBlocks[d].height == v.app.height {
      var b := v.app.pendingBlocks[d];
      assert v'.app.emitted == v.app.emitted + [b] && v'.app.lastHash == b.blockHash;
      assert w(b.blockHash).number == b.height;
    } else {
      assert v'.app == v.app.Forget(d);
    }
  }

  lemma AdvanceKeepsValidatorInv(w: World, h0: nat, genesis: Hash, v: Validator, m: Message)
    requires HashesIdentify(w) && ValidatorInv(w, h0, genesis, v) && HonestContent(w, m)
    ensures ValidatorInv(w, h0, genesis, Advance(w, h0, v, m))
  {
    match m {
      case Finalize(d) => FinalizeKeepsValidatorInv(w, h0, genesis, v, d);
      case Propose(c) =>
        if v.app.Propose(c).1 != NullProposal {
          assert v.app.Propose(c) == v.app.CompleteProposal(c.built.value);
        }
      case _ =>
    }
  }

  lemma EmittedGrowsBy(app: AppState, m: Message)
    ensures var t := app.Process(m).0;
            t.emitted == app.emitted ||
            (m.Finalize? && m.finalized in app.pendingBlocks
             && t.emitted == app.emitted + [app.pendingBlocks[m.finalized]])
  {
  }

  lemma StillDeparted(w: World, h0: nat, genesis: Hash, v: Validator, m: Message, q: nat)
    requires HashesIdentify(w) && ValidatorInv(w, h0, genesis, v)
    requires m.Finalize? ==> m.finalized !in v.finals
    requires DepartsAt(Greedy(w, h0, v.finals), v.app.emitted, q)
    ensures var v' := Advance(w, h0, v, m); DepartsAt(Greedy(w, h0, v'.finals), v'.app.emitted, q)
  {
    EmittedGrowsBy(v.app, m);
    if m.Finalize? {
      var finals' := v.finals + [m.finalized];
      assert finals'[..|v.finals|] == v.finals;
      GreedyGrows(w, h0, finals', |v.finals|);
      GreedyBlocks(w, h0, v.finals);
    }
  }

  lemma DepartsByMissing(w: World, h0: nat, genesis: Hash, v: Validator, d: Digest)
    requires ValidatorInv(w, h0, genesis, v) && !v.missed && Advance(w, h0, v, Finalize(d)).missed
    ensures Departed(w, h0, Advance(w, h0, v, Finalize(d)))
  {
    var v' := Advance(w, h0, v, Finalize(d));
    assert v'.finals[..|v.finals|] == v.finals;
    assert v'.app.emitted == v.app.emitted;
    assert DepartsAt(Greedy(w, h0, v'.finals), v'.app.emitted, |v.app.emitted|);
  }

  /** Once a validator has missed a block it can never emit that block any more. */
  lemma AdvanceKeepsDeparture(w: World, h0: nat, genesis: Hash, v: Validator, m: Message)
    requires HashesIdentify(w) && ValidatorInv(w, h0, genesis, v)
    requires m.Finalize? ==> m.finalized !in v.finals
    requires v.missed ==> Departed(w, h0, v)
    ensures var v' := Advance(w, h0, v, m); v'.missed ==> Departed(w, h0, v')
  {
    if v.missed {
      var q: nat :| DepartsAt(Greedy(w, h0, v.finals), v.app.emitted, q);
      StillDeparted(w, h0, genesis, v, m, q);
    } else if m.Finalize? && Advance(w, h0, v, m).missed {
      DepartsByMissing(w, h0, genesis, v, m.finalized);
    }
  }

  // ---- The network ----

  /** Step `(i, m)`: validator `i` processes `m`. */
  type Step = (nat, Message)

  function After(w: World, h0: nat, net: seq<Validator>, steps: seq<Step>): (after: seq<Validator>)
    ensures |after| == |net|
  {
    if steps == [] then net
    else
      var before := After(w, h0, net, steps[..|steps| - 1]);
      var (i, m) := steps[|steps| - 1];
      if i < |net| then before[i := Advance(w, h0, before[i], m)] else before
  }

  /** reth reports blocks as they are and builds on the parent, timestamp and fee recipient
      it is given. */
  ghost predicate HonestReth(w: World, app: AppState, c: BuildContext) {
    && (forall k :: 0 <= k < |c.heads| && c.heads[k].Some? ==>
          c.heads[k].value.timestamp == w(c.heads[k].value.hash).timestamp)
    && (c.built.Some? ==>
          var p := c.built.value;
          && p == w(p.blockHash) && p.parentHash == app.lastHash && p.number == w(app.lastHash).number + 1
          && p.timestamp == c.clockAtBuild && p.feeRecipient == app.proposer)
  }

  /** Finalizations come from the common sequence in order; frames come from some
      validator's relay; reth is honest. Everything else is free. */
  ghost predicate Allowed(w: World, finals: seq<Digest>, net: seq<Validator>, step: Step) {
    var (i, m) := step;
    && i < |net|
    && match m
       case Finalize(d) => |net[i].finals| < |finals| && d == finals[|net[i].finals|]
       case ReceiveBlock(d, b, p, _) => exists j :: 0 <= j < |net| && ProposedBlock(d, b, p) in net[j].app.relayed
       case Propose(c) => HonestReth(w, net[i].app, c)
       case _ => true
  }

  ghost predicate AllAllowed(w: World, h0: nat, finals: seq<Digest>, net: seq<Validator>, steps: seq<Step>) {
    forall k :: 0 <= k < |steps| ==> Allowed(w, finals, After(w, h0, net, steps[..k]), steps[k])
  }

  ghost predicate Starting(w: World, h0: nat, genesis: Hash, net: seq<Validator>) {
    && HashesIdentify(w) && w(genesis).number + 1 == h0
    && forall i :: 0 <= i < |net| ==>
         net[i] == Validator(Initial(net[i].app.proposer, net[i].app.blockTiming, h0, genesis), [], {}, false)
  }

  ghost predicate NetInv(w: World, h0: nat, genesis: Hash, finals: seq<Digest>, net: seq<Validator>) {
    forall i :: 0 <= i < |net| ==> NetInvAt(w, h0, genesis, finals, net[i])
  }

  ghost predicate NetInvAt(w: World, h0: nat, genesis: Hash, finals: seq<Digest>, v: Validator) {
    && ValidatorInv(w, h0, genesis, v)
    && v.finals <= finals
    && (forall r :: r in v.app.relayed ==> HonestFrame(w, r.digest, r.block, r.payload))
    && (Distinct(finals) && v.missed ==> Departed(w, h0, v))
  }

  lemma AdvanceRelays(w: World, h0: nat, v: Validator, m: Message)
    requires m.Propose? && v.app.Propose(m.context).1 != NullProposal
    ensures m.context.built.Some?
    ensures var p := m.context.built.value;
            Advance(w, h0, v, m).app.relayed
              == v.app.relayed + [ProposedBlock(OfBlock(p.blockHash), BlockFromPayload(p), p)]
  {
    assert v.app.Propose(m.context) == v.app.CompleteProposal(m.context.built.value);
  }

  lemma AdvanceKeepsRelaysHonest(w: World, h0: nat, v: Validator, m: Message)
    requires HashesIdentify(w) && HonestContent(w, m)
    requires forall r :: r in v.app.relayed ==> HonestFrame(w, r.digest, r.block, r.payload)
    ensures forall r :: r in Advance(w, h0, v, m).app.relayed ==> HonestFrame(w, r.digest, r.block, r.payload)
  {
    if m.Propose? && v.app.Propose(m.context).1 != NullProposal {
      AdvanceRelays(w, h0, v, m);
    } else {
      assert Advance(w, h0, v, m).app.relayed == v.app.relayed;
    }
  }

  lemma StepKeepsNetInv(
    w: World, h0: nat, genesis: Hash, finals: seq<Digest>, net: seq<Validator>, i: nat, m: Message)
    requires HashesIdentify(w) && NetInv(w, h0, genesis, finals, net) && Allowed(w, finals, net, (i, m))
    ensures NetInv(w, h0, genesis, finals, net[i := Advance(w, h0, net[i], m)])
  {
    var v, v' := net[i], Advance(w, h0, net[i], m);
    assert NetInvAt(w, h0, genesis, finals, v);
    AllowedIsHonest(w, h0, genesis, finals, net, i, m);
    AdvanceKeepsValidatorInv(w, h0, genesis, v, m);
    AdvanceKeepsRelaysHonest(w, h0, v, m);
    if m.Finalize? {
      assert v'.finals == finals[..|v.finals| + 1];
      assert Distinct(finals) ==> m.finalized !in v.finals;
    }
    if Distinct(finals) {
      AdvanceKeepsDeparture(w, h0, genesis, v, m);
    }
  }

  lemma AllowedIsHonest(
    w: World, h0: nat, genesis: Hash, finals: seq<Digest>, net: seq<Validator>, i: nat, m: Message)
    requires NetInv(w, h0, genesis, finals, net) && Allowed(w, finals, net, (i, m))
    ensures HonestContent(w, m)
  {
    if m.ReceiveBlock? {
      var j :| 0 <= j < |net| && ProposedBlock(m.digest, m.block, m.payload) in net[j].app.relayed;
      assert NetInvAt(w, h0, genesis, finals, net[j]);
    }
  }

  lemma {:induction false} AllowedBefore(w: World, h0: nat, finals: seq<Digest>, net: seq<Validator>, steps: seq<Step>)
    requires steps != [] && AllAllowed(w, h0, finals, net, steps)
    ensures var before := steps[..|steps| - 1];
            && AllAllowed(w, h0, finals, net, before)
            && Allowed(w, finals, After(w, h0, net, before), steps[|steps| - 1])
  {
    var before := steps[..|steps| - 1];
    forall k | 0 <= k < |before|
      ensures Allowed(w, finals, After(w, h0, net, before[..k]), before[k])
    {
      assert before[..k] == steps[..k];
    }
  }

  lemma {:induction false} RunsKeepNetInv(
    w: World, h0: nat, genesis: Hash, finals: seq<Digest>, net: seq<Validator>, steps: seq<Step>)
    requires Starting(w, h0, genesis, net) && AllAllowed(w, h0, finals, net, steps)
    ensures NetInv(w, h0, genesis, finals, After(w, h0, net, steps))
  {
    if steps != [] {
      var before := After(w, h0, net, steps[..|steps| - 1]);
      var (i, m) := steps[|steps| - 1];
      AllowedBefore(w, h0, finals, net, steps);
      RunsKeepNetInv(w, h0, genesis, finals, net, steps[..|steps| - 1]);
      StepKeepsNetInv(w, h0, genesis, finals, before, i, m);
      assert After(w, h0, net, steps) == before[i := Advance(w, h0, before[i], m)];
    }
  }

  /** Agreement. In every interleaving, a validator that had each extending block before its
      finalization holds exactly the reference log of the finalizations it has processed;
      and when no digest is finalized twice, only such a validator does. */
  lemma {:induction false} Agreement(
    w: World, h0: nat, genesis: Hash, finals: seq<Digest>, net: seq<Validator>, steps: seq<Step>, i: nat)
    requires Starting(w, h0, genesis, net) && AllAllowed(w, h0, finals, net, steps)
    requires i < |net|
    ensures var v := After(w, h0, net, steps)[i];
            && v.finals <= finals
            && (!v.missed ==> v.app.emitted == Greedy(w, h0, v.finals))
            && (Distinct(finals) ==> (!v.missed <==> v.app.emitted == Greedy(w, h0, v.finals)))
  {
    RunsKeepNetInv(w, h0, genesis, finals, net, steps);
    var v := After(w, h0, net, steps)[i];
    assert NetInvAt(w, h0, genesis, finals, v);
    if Distinct(finals) && v.missed {
      var q: nat :| DepartsAt(Greedy(w, h0, v.finals), v.app.emitted, q);
    }
  }

  /** Any two such logs: one is a prefix of the other. */
  lemma {:induction false} LogsAreComparable(
    w: World, h0: nat, genesis: Hash, finals: seq<Digest>, net: seq<Validator>, steps: seq<Step>, i: nat, j: nat)
    requires Starting(w, h0, genesis, net) && AllAllowed(w, h0, finals, net, steps)
    requires i < |net| && j < |net|
    ensures var u, v := After(w, h0, net, steps)[i], After(w, h0, net, steps)[j];
            !u.missed && !v.missed ==> u.app.emitted <= v.app.emitted || v.app.emitted <= u.app.emitted
  {
    Agreement(w, h0, genesis, finals, net, steps, i);
    Agreement(w, h0, genesis, finals, net, steps, j);
    var u, v := After(w, h0, net, steps)[i], After(w, h0, net, steps)[j];
    if |u.finals| <= |v.finals| {
      assert u.finals == v.finals[..|u.finals|];
      GreedyGrows(w, h0, v.finals, |u.finals|);
    } else {
      assert v.finals == u.finals[..|v.finals|];
      GreedyGrows(w, h0, u.finals, |v.finals|);
    }
  }
}
