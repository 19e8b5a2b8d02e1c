/** What a proposer's relay sends to the other validators, over a whole network run. */
module Relay {
  import opened Types
  import opened Application
  import opened Network
  import Runtime

  ghost predicate HeightsRise(relayed: seq<ProposedBlock>) {
    forall i, j :: 0 <= i < j < |relayed| ==> relayed[i].block.height < relayed[j].block.height
  }

  /** The last proposal is the one the actor remembers. */
  ghost predicate RelayInv(app: AppState) {
    && HeightsRise(app.relayed)
    && (app.relayed != [] ==> app.lastProposedHeight == Some(app.relayed[|app.relayed| - 1].block.height))
  }

  lemma AdvanceKeepsRelayInv(w: World, h0: nat, genesis: Hash, v: Validator, m: Message)
    requires ValidatorInv(w, h0, genesis, v) && RelayInv(v.app)
    requires m.Propose? ==> HonestReth(w, v.app, m.context)
    ensures RelayInv(Advance(w, h0, v, m).app)
  {
    if m.Propose? && v.app.Propose(m.context).1 != NullProposal {
      AdvanceRelays(w, h0, v, m);
      assert !v.app.AlreadyProposed();
      assert BlockFromPayload(m.context.built.value).height == v.app.height;
    } else {
      assert Advance(w, h0, v, m).app.relayed == v.app.relayed;
      assert Advance(w, h0, v, m).app.lastProposedHeight == v.app.lastProposedHeight;
    }
  }

  ghost predicate AllRelayInv(net: seq<Validator>) {
    forall i :: 0 <= i < |net| ==> RelayInv(net[i].app)
  }

  /** No validator puts two blocks of one height on its relay channel. */
  lemma {:induction false} RelayedHeightsRise(
    w: World, h0: nat, genesis: Hash, finals: seq<Digest>, net: seq<Validator>, steps: seq<Step>)
    requires Starting(w, h0, genesis, net) && AllAllowed(w, h0, finals, net, steps)
    ensures AllRelayInv(After(w, h0, net, steps))
  {
    if steps != [] {
      var before := steps[..|steps| - 1];
      AllowedBefore(w, h0, finals, net, steps);
      RelayedHeightsRise(w, h0, genesis, finals, net, before);
      RunsKeepNetInv(w, h0, genesis, finals, net, before);
      var (i, m) := steps[|before|];
      var v := After(w, h0, net, before)[i];
      assert NetInvAt(w, h0, genesis, finals, v);
      AdvanceKeepsRelayInv(w, h0, genesis, v, m);
    }
  }

  /** However its channel lags, the relay task sends a validator's proposals in order, none
      twice, and never two for one height. */
  lemma {:induction false} RelaySendsOnePerHeight(
    w: World, h0: nat, genesis: Hash, finals: seq<Digest>, net: seq<Validator>, steps: seq<Step>, i: nat,
    capacity: nat, events: seq<Runtime.Event<ProposedBlock>>)
    requires Starting(w, h0, genesis, net) && AllAllowed(w, h0, finals, net, steps) && i < |net|
    requires Runtime.Relaying(Runtime.Started(capacity), events).channel.sent
             <= After(w, h0, net, steps)[i].app.relayed
    ensures HeightsRise(Runtime.Relaying(Runtime.Started(capacity), events).delivered)
  {
    RelayedHeightsRise(w, h0, genesis, finals, net, steps);
    Runtime.RelayTakesInOrder(capacity, events);
    var t := Runtime.Relaying(Runtime.Started(capacity), events);
    var relayed := After(w, h0, net, steps)[i].app.relayed;
    assert RelayInv(After(w, h0, net, steps)[i].app);
    var at: seq<nat> :| Runtime.Selects(at, t.delivered, t.channel.sent, t.position);
    assert forall k :: 0 <= k < |at| ==> t.delivered[k] == relayed[at[k]];
  }
}
