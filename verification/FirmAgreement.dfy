/** From consensus to forkchoice: validators that agree on the log never point reth at
    different blocks of one height, soft or firm, in any interleaving of their pipelines. */
module FirmAgreement {
  import opened Types
  import A = Application
  import N = Network
  import R = ApplicationRuns
  import opened Forkchoice
  import opened Pipeline
  import opened Causality
  import opened HandOff

  // ---- Every emitted block is named by its hash, at its place ----

  ghost predicate Placed(w: N.World, h0: nat, log: seq<Block>) {
    forall q :: 0 <= q < |log| ==> log[q] == N.BlockOf(w, log[q].blockHash) && log[q].height == h0 + q
  }

  ghost predicate AllPlaced(w: N.World, h0: nat, net: seq<N.Validator>) {
    forall i :: 0 <= i < |net| ==> Placed(w, h0, net[i].app.emitted)
  }

  lemma AdvanceKeepsPlaced(w: N.World, h0: nat, genesis: Hash, v: N.Validator, m: A.Message)
    requires N.HashesIdentify(w) && N.ValidatorInv(w, h0, genesis, v) && Placed(w, h0, v.app.emitted)
    ensures Placed(w, h0, N.Advance(w, h0, v, m).app.emitted)
  {
    N.EmittedGrowsBy(v.app, m);
    if m.Finalize? && m.finalized in v.app.pendingBlocks {
      assert v.app.pendingBlocks[m.finalized].height == v.app.height
             || N.Advance(w, h0, v, m).app.emitted == v.app.emitted;
    }
  }

  lemma {:induction false} EmittedArePlaced(
    w: N.World, h0: nat, genesis: Hash, finals: seq<Digest>, net: seq<N.Validator>, steps: seq<N.Step>)
    requires N.Starting(w, h0, genesis, net) && N.AllAllowed(w, h0, finals, net, steps)
    ensures AllPlaced(w, h0, N.After(w, h0, net, steps))
  {
    if steps != [] {
      var before := steps[..|steps| - 1];
      N.AllowedBefore(w, h0, finals, net, steps);
      EmittedArePlaced(w, h0, genesis, finals, net, before);
      N.RunsKeepNetInv(w, h0, genesis, finals, net, before);
      var (i, m) := steps[|before|];
      var v := N.After(w, h0, net, before)[i];
      assert N.NetInvAt(w, h0, genesis, finals, v);
      AdvanceKeepsPlaced(w, h0, genesis, v, m);
    }
  }

  // ---- Every emitted block had its payload applied ----

  ghost predicate AllPaired(net: seq<N.Validator>) {
    forall i :: 0 <= i < |net| ==> R.Paired(net[i].app)
  }

  /** In every network each validator has had reth apply, in order, exactly the payloads of
      the blocks it emitted. */
  lemma {:induction false} EmittedWereApplied(
    w: N.World, h0: nat, genesis: Hash, finals: seq<Digest>, net: seq<N.Validator>, steps: seq<N.Step>)
    requires N.Starting(w, h0, genesis, net) && N.AllAllowed(w, h0, finals, net, steps)
    ensures AllPaired(N.After(w, h0, net, steps))
  {
    if steps != [] {
      var before := N.After(w, h0, net, steps[..|steps| - 1]);
      var (i, m) := steps[|steps| - 1];
      N.AllowedBefore(w, h0, finals, net, steps);
      EmittedWereApplied(w, h0, genesis, finals, net, steps[..|steps| - 1]);
      N.RunsKeepNetInv(w, h0, genesis, finals, net, steps[..|steps| - 1]);
      N.AllowedIsHonest(w, h0, genesis, finals, before, i, m);
      R.ProcessKeepsPaired(before[i].app, m);
      assert N.After(w, h0, net, steps) == before[i := N.Advance(w, h0, before[i], m)];
    }
  }

  // ---- A pipeline on an emitted log ----

  /** The application accepts the blocks it emits, one after the other. */
  ghost predicate Follows(emitted: seq<Block>, s: Node, step: Step) {
    step.AppStep? && step.input.Accept? ==> |s.log| < |emitted| && step.input.block == emitted[|s.log|]
  }

  ghost predicate AllFollow(c: Config, emitted: seq<Block>, steps: seq<Step>) {
    forall k :: 0 <= k < |steps| ==> Follows(emitted, After(c, steps[..k]), steps[k])
  }

  lemma FollowsBefore(c: Config, emitted: seq<Block>, steps: seq<Step>)
    requires steps != [] && AllFollow(c, emitted, steps)
    ensures AllFollow(c, emitted, steps[..|steps| - 1])
    ensures Follows(emitted, After(c, steps[..|steps| - 1]), steps[|steps| - 1])
  {
    var before := steps[..|steps| - 1];
    forall k | 0 <= k < |before|
      ensures Follows(emitted, After(c, before[..k]), before[k])
    {
      assert before[..k] == steps[..k];
    }
  }

  lemma NextKeepsApplying(c: Config, emitted: seq<Block>, s: Node, step: Step)
    requires Applying(s) <= emitted && Follows(emitted, s, step)
    ensures Applying(Next(c, s, step)) <= emitted
  {
    if !step.AppStep? {
      assert Next(c, s, step).log == s.log && Next(c, s, step).app == s.app;
    }
  }

  lemma {:induction false} RunsKeepApplying(c: Config, emitted: seq<Block>, steps: seq<Step>)
    requires AllFollow(c, emitted, steps)
    ensures Applying(After(c, steps)) <= emitted
  {
    if steps != [] {
      FollowsBefore(c, emitted, steps);
      RunsKeepApplying(c, emitted, steps[..|steps| - 1]);
      NextKeepsApplying(c, emitted, After(c, steps[..|steps| - 1]), steps[|steps| - 1]);
    }
  }

  // ---- Agreement of the pointers ----

  /** A block some forkchoice state of this node points at. */
  ghost predicate Pointed(s: Node, h: Hash) {
    exists state :: Held(s, state) && (h == state.head || h == state.safe || h == state.finalized)
  }

  lemma {:induction false} PointedIsEmitted(c: Config, emitted: seq<Block>, steps: seq<Step>, h: Hash)
    requires AllAllowed(c, steps) && AllFollow(c, emitted, steps) && Pointed(After(c, steps), h)
    ensures h == c.genesis || Names(emitted, h)
  {
    var s := After(c, steps);
    RunsKeepInv(c, steps);
    RunsKeepApplying(c, emitted, steps);
    var state :| Held(s, state) && (h == state.head || h == state.safe || h == state.finalized);
    assert Sound(c, s, state);
    if h != c.genesis {
      if h == state.head {
        NamesMore(Applying(s), emitted, h);
      } else {
        NamesMore(s.log[..s.taken], emitted, h);
      }
    }
  }

  lemma SamePlaceSameBlock(w: N.World, h0: nat, genesis: Hash, long: seq<Block>, short: seq<Block>, x: Hash, y: Hash)
    requires N.HashesIdentify(w) && w(genesis).number + 1 == h0 && Placed(w, h0, long) && short <= long
    requires x == genesis || Names(long, x)
    requires y == genesis || Names(short, y)
    requires w(x).number == w(y).number
    ensures x == y
  {
    if y != genesis {
      NamesMore(short, long, y);
      var q :| 0 <= q < |long| && long[q].blockHash == y;
      assert w(y).number == h0 + q;
    }
    if x != genesis {
      var p :| 0 <= p < |long| && long[p].blockHash == x;
      assert w(x).number == h0 + p;
    }
  }

  /** Two validators of a network, neither of which missed a block, with pipelines that apply
      their emitted logs: at each height, all that the forkchoice states of either of them
      ever pointed at, as head, safe or finalized, is one block. */
  lemma {:induction false} ForkchoiceNeverForks(
    w: N.World, h0: nat, genesis: Hash, finals: seq<Digest>, net: seq<N.Validator>, history: seq<N.Step>,
    i: nat, j: nat, c: Config, steps: seq<Step>, c': Config, steps': seq<Step>, x: Hash, y: Hash)
    requires N.Starting(w, h0, genesis, net) && N.AllAllowed(w, h0, finals, net, history)
    requires i < |net| && j < |net|
    requires !N.After(w, h0, net, history)[i].missed && !N.After(w, h0, net, history)[j].missed
    requires c.world == c'.world == w && c.h0 == c'.h0 == h0 && c.genesis == c'.genesis == genesis
    requires AllAllowed(c, steps) && AllFollow(c, N.After(w, h0, net, history)[i].app.emitted, steps)
    requires AllAllowed(c', steps') && AllFollow(c', N.After(w, h0, net, history)[j].app.emitted, steps')
    requires Pointed(After(c, steps), x) && Pointed(After(c', steps'), y)
    ensures w(x).number == w(y).number ==> x == y
  {
    var mine, theirs := N.After(w, h0, net, history)[i].app.emitted, N.After(w, h0, net, history)[j].app.emitted;
    EmittedArePlaced(w, h0, genesis, finals, net, history);
    N.LogsAreComparable(w, h0, genesis, finals, net, history, i, j);
    PointedIsEmitted(c, mine, steps, x);
    PointedIsEmitted(c', theirs, steps', y);
    if w(x).number == w(y).number {
      if theirs <= mine {
        SamePlaceSameBlock(w, h0, genesis, mine, theirs, x, y);
      } else {
        SamePlaceSameBlock(w, h0, genesis, theirs, mine, y, x);
      }
    }
  }

  /** Following an emitted log is all that the steps of a pipeline assume of the blocks. */
  lemma {:induction false} EmittedLogsAreAllowed(
    w: N.World, h0: nat, genesis: Hash, finals: seq<Digest>, net: seq<N.Validator>, history: seq<N.Step>,
    i: nat, c: Config, s: Node, input: AppInput, ok: bool)
    requires N.Starting(w, h0, genesis, net) && N.AllAllowed(w, h0, finals, net, history) && i < |net|
    requires c.world == w && c.h0 == h0
    requires Follows(N.After(w, h0, net, history)[i].app.emitted, s, AppStep(input, ok))
    ensures Allowed(c, s, AppStep(input, ok))
  {
    EmittedArePlaced(w, h0, genesis, finals, net, history);
    assert Placed(w, h0, N.After(w, h0, net, history)[i].app.emitted);
  }
}
