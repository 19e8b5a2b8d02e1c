/** Why chain linkage needs proposers on the reference log: a network in which one that has
    departed breaks another validator's chain. */
module DepartedProposer {
  import opened Types
  import opened Application
  import opened Network
  import opened Chain

  // ---- Runs, one step at a time ----

  ghost predicate Extended(
    w: World, h0: nat, start: seq<Validator>, finals: seq<Digest>, steps: seq<Step>, net: seq<Validator>)
  {
    AllAllowed(w, h0, finals, start, steps) && After(w, h0, start, steps) == net
  }

  lemma {:induction false} OneMoreStep(
    w: World, h0: nat, start: seq<Validator>, finals: seq<Digest>, steps: seq<Step>, net: seq<Validator>,
    i: nat, m: Message)
    requires Extended(w, h0, start, finals, steps, net) && i < |net| && Allowed(w, finals, net, (i, m))
    ensures Extended(w, h0, start, finals, steps + [(i, m)], net[i := Advance(w, h0, net[i], m)])
  {
    var longer := steps + [(i, m)];
    assert longer[..|steps|] == steps;
    forall k | 0 <= k < |longer|
      ensures Allowed(w, finals, After(w, h0, start, longer[..k]), longer[k])
    {
      if k < |steps| {
        assert longer[..k] == steps[..k];
      }
    }
  }

  // ---- The network ----

  /** Blocks 1 and 2 are both built on genesis; block 3 is built on block 2. */
  function ForkedWorld(): World {
    (h: Hash) => Payload(h, if h == 0 then 0 else if h == 3 then 2 else 1, if h == 3 then 2 else 0, 0, 0, [])
  }

  function Context(parent: Hash, number: nat, built: Hash): BuildContext {
    BuildContext([Some(RethHead(parent, number, 0))], 0, 0, Some(ForkedWorld()(built)))
  }

  function Fresh(): Validator {
    Validator(Initial(0, Subsecond, 1, 0), [], {}, false)
  }

  function Frame(h: Hash): Message {
    ReceiveBlock(OfBlock(h), BlockOf(ForkedWorld(), h), ForkedWorld()(h), true)
  }

  ghost predicate Reaches(finals: seq<Digest>, steps: seq<Step>, net: seq<Validator>) {
    Extended(ForkedWorld(), 1, [Fresh(), Fresh()], finals, steps, net)
  }

  lemma {:induction false} Go(finals: seq<Digest>, steps: seq<Step>, net: seq<Validator>, i: nat, m: Message)
    returns (longer: seq<Step>)
    requires Reaches(finals, steps, net) && i < |net| && Allowed(ForkedWorld(), finals, net, (i, m))
    ensures Reaches(finals, longer, net[i := Advance(ForkedWorld(), 1, net[i], m)])
  {
    OneMoreStep(ForkedWorld(), 1, [Fresh(), Fresh()], finals, steps, net, i, m);
    longer := steps + [(i, m)];
  }

  const FORKED: seq<Digest> := [OfBlock(1), OfBlock(2), OfBlock(3)]

  function BlockAt(h: Hash): Block { BlockOf(ForkedWorld(), h) }

  /** A validator that has proposed block `h` on genesis. */
  function Proposer(h: Hash): Validator {
    Fresh().(app := Fresh().app.CompleteProposal(ForkedWorld()(h)).0, delivered := {OfBlock(h)})
  }

  lemma {:induction false} FirstProposal(h: Hash)
    requires h == 1 || h == 2
    ensures HonestReth(ForkedWorld(), Fresh().app, Context(0, 0, h))
    ensures Advance(ForkedWorld(), 1, Fresh(), Propose(Context(0, 0, h))) == Proposer(h)
  {
    assert Fresh().app.SyncFrom(Context(0, 0, h).heads, 0) == Synced(0);
    assert {} + {OfBlock(h)} == {OfBlock(h)};
  }

  /** The first validator proposes block 1 and the second block 2. */
  lemma {:induction false} BothPropose() returns (steps: seq<Step>)
    ensures Reaches(FORKED, steps, [Proposer(1), Proposer(2)])
  {
    FirstProposal(1);
    FirstProposal(2);
    steps := Go(FORKED, [], [Fresh(), Fresh()], 0, Propose(Context(0, 0, 1)));
    assert [Fresh(), Fresh()][0 := Proposer(1)] == [Proposer(1), Fresh()];
    steps := Go(FORKED, steps, [Proposer(1), Fresh()], 1, Propose(Context(0, 0, 2)));
    assert [Proposer(1), Fresh()][1 := Proposer(2)] == [Proposer(1), Proposer(2)];
  }

  lemma {:induction false} FirstAccepts()
    ensures var v := Advance(ForkedWorld(), 1, Proposer(1), Finalize(OfBlock(1)));
      && v == Fresh().(app := v.app, finals := [OfBlock(1)], delivered := {})
      && v.app.height == 2 && v.app.lastHash == 1
      && v.app.emitted == [BlockAt(1)] && v.app.pendingBlocks == map[]
  {
    assert {OfBlock(1)} - {OfBlock(1)} == {};
  }

  lemma {:induction false} SecondMisses()
    ensures var v := Advance(ForkedWorld(), 1, Proposer(2), Finalize(OfBlock(1)));
      && v.missed && v.finals == [OfBlock(1)]
      && v.app.height == 1 && v.app.pendingBlocks == map[OfBlock(2) := BlockAt(2)]
      && v.app.proposer == 0 && v.app.blockTiming == Subsecond
      && v.app.lastProposedHeight == Some(1) && v.app.emitted == []
  {
    var w, v := ForkedWorld(), Proposer(2);
    assert Greedy(w, 1, v.finals) == [];
    assert v.app.pendingBlocks == map[OfBlock(2) := BlockAt(2)] && OfBlock(1) !in v.app.pendingBlocks;
    var (app, _) := v.app.Process(Finalize(OfBlock(1)));
    assert app.pendingBlocks == v.app.pendingBlocks;
    assert Extends(w, 1, [], OfBlock(1)) && OfBlock(1) !in v.delivered;
    assert [] + [OfBlock(1)] == [OfBlock(1)];
  }

  /** Block 1 is finalized before the second validator hears of it. */
  lemma {:induction false} SecondDeparts() returns (steps: seq<Step>, net: seq<Validator>)
    ensures Reaches(FORKED, steps, net) && |net| == 2
    ensures net[0] == Fresh().(app := net[0].app, finals := [OfBlock(1)], delivered := {})
    ensures net[0].app.height == 2 && net[0].app.lastHash == 1
    ensures net[0].app.emitted == [BlockAt(1)] && net[0].app.pendingBlocks == map[]
    ensures net[1].missed && net[1].finals == [OfBlock(1)]
    ensures net[1].app.height == 1 && net[1].app.pendingBlocks == map[OfBlock(2) := BlockAt(2)]
    ensures net[1].app.proposer == 0 && net[1].app.blockTiming == Subsecond
    ensures net[1].app.lastProposedHeight == Some(1) && net[1].app.emitted == []
  {
    var w, m := ForkedWorld(), Finalize(OfBlock(1));
    var first, second := Advance(w, 1, Proposer(1), m), Advance(w, 1, Proposer(2), m);
    FirstAccepts();
    SecondMisses();
    steps := BothPropose();
    steps := Go(FORKED, steps, [Proposer(1), Proposer(2)], 0, m);
    assert [Proposer(1), Proposer(2)][0 := first] == [first, Proposer(2)];
    steps := Go(FORKED, steps, [first, Proposer(2)], 1, m);
    net := [first, second];
    assert [first, Proposer(2)][1 := second] == net;
  }

  /** The second validator then accepts block 2 at the height of block 1, and proposes block
      3 on top of it. */
  lemma {:induction false} SecondProposes() returns (steps: seq<Step>, net: seq<Validator>)
    ensures Reaches(FORKED, steps, net) && |net| == 2
    ensures net[0] == Fresh().(app := net[0].app, finals := [OfBlock(1)], delivered := {})
    ensures net[0].app.height == 2 && net[0].app.lastHash == 1
    ensures net[0].app.emitted == [BlockAt(1)] && net[0].app.pendingBlocks == map[]
    ensures net[1].missed && ProposedBlock(OfBlock(3), BlockAt(3), ForkedWorld()(3)) in net[1].app.relayed
  {
    var w, c := ForkedWorld(), Context(2, 1, 3);
    steps, net := SecondDeparts();
    steps := Go(FORKED, steps, net, 1, Finalize(OfBlock(2)));
    net := net[1 := Advance(w, 1, net[1], Finalize(OfBlock(2)))];
    assert net[1].app.height == 2 && net[1].app.lastHash == 2;
    assert net[1].app.SyncFrom(c.heads, 0) == Synced(0);
    assert !net[1].app.AlreadyProposed();
    steps := Go(FORKED, steps, net, 1, Propose(c));
    AdvanceRelays(w, 1, net[1], Propose(c));
    net := net[1 := Advance(w, 1, net[1], Propose(c))];
  }

  /** The first validator takes block 3 from the second, and passes over block 2. */
  lemma {:induction false} FirstHoldsThree() returns (steps: seq<Step>, net: seq<Validator>)
    ensures Reaches(FORKED, steps, net) && |net| == 2
    ensures net[0].app.height == 2 && net[0].app.emitted == [BlockAt(1)]
    ensures net[0].app.pendingBlocks == map[OfBlock(3) := BlockAt(3)]
    ensures net[0].finals == [OfBlock(1)] + [OfBlock(2)] && net[0].delivered == {OfBlock(3)} && !net[0].missed
  {
    var w := ForkedWorld();
    steps, net := SecondProposes();
    steps := Go(FORKED, steps, net, 0, Frame(3));
    net := net[0 := Advance(w, 1, net[0], Frame(3))];
    steps := Go(FORKED, steps, net, 0, Finalize(OfBlock(2)));
    ReferenceOfForked();
    net := net[0 := Advance(w, 1, net[0], Finalize(OfBlock(2)))];
  }

  /** The assumption about proposers matters. The first validator of this network has missed
      nothing, and block 3 in its log does not follow block 1. */
  lemma {:induction false} DepartedProposerBreaksTheChain() returns (steps: seq<Step>, v: Validator)
    ensures Starting(ForkedWorld(), 1, 0, [Fresh(), Fresh()])
    ensures AllAllowed(ForkedWorld(), 1, FORKED, [Fresh(), Fresh()], steps)
    ensures v == After(ForkedWorld(), 1, [Fresh(), Fresh()], steps)[0]
    ensures !v.missed && v.app.emitted == [BlockAt(1), BlockAt(3)]
    ensures !Linked(1, 0, v.app.emitted)
  {
    var net;
    steps, net := FirstHoldsThree();
    steps := Go(FORKED, steps, net, 0, Finalize(OfBlock(3)));
    v := Advance(ForkedWorld(), 1, net[0], Finalize(OfBlock(3)));
    ReferenceOfForked();
    assert v.app.emitted == [BlockAt(1)] + [BlockAt(3)];
    ThreeDoesNotFollowOne(v.app.emitted);
  }

  lemma ThreeDoesNotFollowOne(log: seq<Block>)
    requires log == [BlockAt(1), BlockAt(3)]
    ensures !Linked(1, 0, log)
  {
    assert log[..1] == [BlockAt(1)] && log[1].parentHash == 2;
  }

  lemma ReferenceOfForked()
    ensures Greedy(ForkedWorld(), 1, []) == []
    ensures Greedy(ForkedWorld(), 1, [OfBlock(1)]) == [BlockAt(1)]
    ensures Greedy(ForkedWorld(), 1, [OfBlock(1)] + [OfBlock(2)]) == [BlockAt(1)]
  {
    assert [OfBlock(1)][..0] == [];
    assert ([OfBlock(1)] + [OfBlock(2)])[..1] == [OfBlock(1)];
  }
}
