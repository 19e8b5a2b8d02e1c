/** Exactly-once hand-off: every block a leader has executed is in one place on its way to
    Celestia and back, and in no other validator's hands. */
module HandOff {
  import opened Types
  import N = Network
  import opened Forkchoice
  import opened F = Finality
  import B = Batching
  import L = Leader
  import opened Sorting
  import opened Pipeline
  import opened Causality

  // ---- The log and what has been executed of it ----

  ghost predicate Rises(blocks: seq<Block>) {
    forall i, j :: 0 <= i < j < |blocks| ==> blocks[i].height < blocks[j].height
  }

  predicate AtHeight(c: Config, b: Block, height: nat) {
    b == N.BlockOf(c.world, b.blockHash) && b.height == height
  }

  function Accepted(p: AppPhase): Option<Block> {
    match p
    case ApplyRead(b, _) => Some(b)
    case ApplySent(b, _) => Some(b)
    case Applied(b) => Some(b)
    case _ => None
  }

  ghost predicate LogInv(c: Config, s: Node) {
    && (forall q :: 0 <= q < |s.log| ==> AtHeight(c, s.log[q], c.h0 + q))
    && (Accepted(s.app).Some? ==> AtHeight(c, Accepted(s.app).value, c.h0 + |s.log|))
  }

  lemma NextKeepsLogInv(c: Config, s: Node, step: Step)
    requires LogInv(c, s) && Allowed(c, s, step)
    ensures LogInv(c, Next(c, s, step)) && s.log <= Next(c, s, step).log
  {
    if !step.AppStep? {
      assert Next(c, s, step).log == s.log && Next(c, s, step).app == s.app;
    }
  }

  /** Where the next executed block will come from. */
  function Frontier(s: Node): int {
    if BlockInHand(s.callback).Some? && !s.callback.Leading? then s.taken - 1 else s.taken
  }

  predicate FromLog(c: Config, log: seq<Block>, b: Block, bound: int) {
    c.h0 <= b.height < c.h0 + bound && b.height - c.h0 < |log| && log[b.height - c.h0] == b
  }

  ghost predicate DoneInv(c: Config, s: Node) {
    && Rises(s.done)
    && (forall i :: 0 <= i < |s.done| ==> FromLog(c, s.log, s.done[i], Frontier(s)))
    && (forall h :: h in s.executed <==> Names(s.done, h))
    && (s.callback.Leading? ==> s.done != [] && s.done[|s.done| - 1] == s.callback.block
                                && c.leads(s.callback.block.height))
  }

  lemma InsertKeepsDoneInv(c: Config, s: Node, t: Node)
    requires LogInv(c, s) && ExecutedInv(s) && DoneInv(c, s) && s.callback.SoftWritten?
    requires t.log == s.log && t.taken == s.taken && t.done == s.done + [s.callback.block]
    requires t.executed == s.executed + {s.callback.block.blockHash}
    requires t.callback == if c.leads(s.callback.block.height) then Leading(s.callback.block) else Waiting
    ensures DoneInv(c, t)
  {
    forall h
      ensures h in t.executed <==> Names(t.done, h)
    {
      if Names(s.done, h) {
        NamesMore(s.done, t.done, h);
      }
      assert t.done[|s.done|].blockHash == s.callback.block.blockHash;
    }
  }

  lemma DoneInvDependsOn(c: Config, s: Node, t: Node)
    requires DoneInv(c, s)
    requires s.log <= t.log && t.executed == s.executed && t.done == s.done
    requires Frontier(s) <= Frontier(t)
    requires t.callback.Leading? ==> s.callback == t.callback
    ensures DoneInv(c, t)
  {
  }

  lemma OthersLeaveDone(c: Config, s: Node, step: Step)
    requires !step.CallbackStep?
    ensures var t := Next(c, s, step);
      t.taken == s.taken && t.callback == s.callback && t.executed == s.executed && t.done == s.done
  {
  }

  lemma CallbackLeavesDone(c: Config, s: Node, ok: bool, outcome: Option<nat>)
    requires !s.callback.SoftWritten?
    ensures var t := CallbackNext(c, s, ok, outcome);
      && t.log == s.log && t.executed == s.executed && t.done == s.done
      && Frontier(s) <= Frontier(t) && !t.callback.Leading?
  {
  }

  lemma {:induction false} CallbackKeepsDoneInv(c: Config, s: Node, ok: bool, outcome: Option<nat>)
    requires LogInv(c, s) && ExecutedInv(s) && DoneInv(c, s)
    ensures DoneInv(c, CallbackNext(c, s, ok, outcome))
  {
    var t := CallbackNext(c, s, ok, outcome);
    if s.callback.SoftWritten? {
      InsertKeepsDoneInv(c, s, t);
    } else {
      CallbackLeavesDone(c, s, ok, outcome);
      DoneInvDependsOn(c, s, t);
    }
  }

  lemma {:induction false} NextKeepsDoneInv(c: Config, s: Node, step: Step)
    requires LogInv(c, s) && ExecutedInv(s) && DoneInv(c, s) && Allowed(c, s, step)
    ensures DoneInv(c, Next(c, s, step))
  {
    var t := Next(c, s, step);
    NextKeepsLogInv(c, s, step);
    if step.CallbackStep? {
      CallbackKeepsDoneInv(c, s, step.ok, step.outcome);
    } else {
      OthersLeaveDone(c, s, step);
      DoneInvDependsOn(c, s, t);
    }
  }

  // ---- The blocks this validator leads ----

  function Led(c: Config, blocks: seq<Block>): (led: seq<Block>)
    ensures forall i :: 0 <= i < |led| ==> led[i] in blocks && c.leads(led[i].height)
  {
    if blocks == [] then []
    else
      var b := blocks[|blocks| - 1];
      Led(c, blocks[..|blocks| - 1]) + if c.leads(b.height) then [b] else []
  }

  lemma LedAppend(c: Config, blocks: seq<Block>, b: Block)
    ensures Led(c, blocks + [b]) == Led(c, blocks) + if c.leads(b.height) then [b] else []
  {
    assert (blocks + [b])[..|blocks|] == blocks;
  }

  lemma {:induction false} LedHasAll(c: Config, blocks: seq<Block>, b: Block)
    requires b in blocks && c.leads(b.height)
    ensures b in Led(c, blocks)
  {
    var before := blocks[..|blocks| - 1];
    if b != blocks[|blocks| - 1] {
      LedHasAll(c, before, b);
    }
  }

  lemma {:induction false} LedRises(c: Config, blocks: seq<Block>)
    requires Rises(blocks)
    ensures Rises(Led(c, blocks))
  {
    if blocks != [] {
      var before, b := blocks[..|blocks| - 1], blocks[|blocks| - 1];
      LedRises(c, before);
      var led := Led(c, before);
      forall i | 0 <= i < |led|
        ensures led[i].height < b.height
      {
        var k :| 0 <= k < |before| && before[k] == led[i];
      }
    }
  }

  // ---- Batch mode: one line from the executed blocks to the posted ones ----

  function InBatch(s: Node): seq<Block> { s.posted + s.batch.pendingBlocks + s.queue }

  function LeadingBlock(s: Node): seq<Block> {
    if s.callback.Leading? then [s.callback.block] else []
  }

  ghost predicate BatchInv(c: Config, s: Node) {
    && s.posted == B.BlocksOf(s.batch.landed)
    && InBatch(s) <= Led(c, s.done)
    && (s.batch.running ==> InBatch(s) + LeadingBlock(s) == Led(c, s.done))
  }

  lemma CallbackLeavesTheLine(c: Config, s: Node, ok: bool, outcome: Option<nat>)
    requires !s.callback.SoftWritten? && !s.callback.Leading?
    ensures var t := CallbackNext(c, s, ok, outcome);
      && t.posted == s.posted && t.batch == s.batch && t.queue == s.queue && t.done == s.done
      && LeadingBlock(t) == LeadingBlock(s)
  {
  }

  lemma {:induction false} CallbackKeepsBatchInv(c: Config, s: Node, ok: bool, outcome: Option<nat>)
    requires c.batching && DoneInv(c, s) && BatchInv(c, s)
    ensures BatchInv(c, CallbackNext(c, s, ok, outcome))
  {
    var t := CallbackNext(c, s, ok, outcome);
    if s.callback.SoftWritten? {
      LedAppend(c, s.done, s.callback.block);
      assert InBatch(t) == InBatch(s);
    } else if s.callback.Leading? {
      if s.batch.running {
        assert InBatch(t) == InBatch(s) + [s.callback.block];
      }
    } else {
      CallbackLeavesTheLine(c, s, ok, outcome);
    }
  }

  lemma LandsAtTheEnd(l: B.Loop, t: B.Loop, blocks: seq<Block>, celestiaHeight: nat)
    requires t.landed == l.landed + [B.Landed(blocks, celestiaHeight)]
    ensures |t.landed| > |l.landed| && t.landed[|t.landed| - 1].blocks == blocks
    ensures B.BlocksOf(t.landed) == B.BlocksOf(l.landed) + blocks
  {
    assert t.landed[..|l.landed|] == l.landed;
  }

  /** The batch loop moves blocks along the line and leaves the line as it is. */
  lemma BatchRunKeepsLine(s: Node, e: B.Event, outcome: Option<nat>, maxBatchSize: nat)
    requires s.batch.running && s.posted == B.BlocksOf(s.batch.landed)
    ensures var t := BatchRun(s, e, outcome, maxBatchSize);
      && t.posted == B.BlocksOf(t.batch.landed)
      && t.posted + t.batch.pendingBlocks
         == s.posted + s.batch.pendingBlocks + (if e.Received? then [e.block] else [])
  {
    var more := if e.Received? then [e.block] else [];
    var batch := s.batch.Step(e, outcome, maxBatchSize);
    BatchKeepsOrLands(s.batch, e, outcome, maxBatchSize);
    if batch.landed != s.batch.landed {
      LandsAtTheEnd(s.batch, batch, s.batch.pendingBlocks + more, outcome.value);
      assert BatchRun(s, e, outcome, maxBatchSize).posted == s.posted + (s.batch.pendingBlocks + more);
    }
    Associative(s.posted, s.batch.pendingBlocks, more);
  }

  lemma BatchRunLeaves(s: Node, e: B.Event, outcome: Option<nat>, maxBatchSize: nat)
    ensures var t := BatchRun(s, e, outcome, maxBatchSize);
      t.queue == s.queue && t.done == s.done && t.callback == s.callback && t.executed == s.executed
  {
  }

  lemma TakeKeepsLine(s: Node, outcome: Option<nat>, maxBatchSize: nat)
    requires s.queue != [] && s.batch.running && s.posted == B.BlocksOf(s.batch.landed)
    ensures var t := BatchRun(s.(queue := s.queue[1..]), B.Received(s.queue[0]), outcome, maxBatchSize);
      t.posted == B.BlocksOf(t.batch.landed) && InBatch(t) == InBatch(s)
  {
    var u := s.(queue := s.queue[1..]);
    var t := BatchRun(u, B.Received(s.queue[0]), outcome, maxBatchSize);
    BatchRunKeepsLine(u, B.Received(s.queue[0]), outcome, maxBatchSize);
    BatchRunLeaves(u, B.Received(s.queue[0]), outcome, maxBatchSize);
    assert s.queue == [s.queue[0]] + s.queue[1..];
    Associative(s.posted + s.batch.pendingBlocks, [s.queue[0]], s.queue[1..]);
  }

  lemma RunKeepsLine(s: Node, e: B.Event, outcome: Option<nat>, maxBatchSize: nat)
    requires !e.Received? && s.batch.running && s.posted == B.BlocksOf(s.batch.landed)
    ensures var t := BatchRun(s, e, outcome, maxBatchSize);
      t.posted == B.BlocksOf(t.batch.landed) && InBatch(t) == InBatch(s)
  {
    BatchRunKeepsLine(s, e, outcome, maxBatchSize);
    BatchRunLeaves(s, e, outcome, maxBatchSize);
    assert s.posted + s.batch.pendingBlocks + [] == s.posted + s.batch.pendingBlocks;
  }

  lemma {:induction false} BatchKeepsBatchInv(c: Config, s: Node, input: BatchInput, outcome: Option<nat>)
    requires c.batching && BatchInv(c, s)
    ensures BatchInv(c, BatchNext(c, s, input, outcome))
  {
    var t := BatchNext(c, s, input, outcome);
    if s.batch.running {
      match input {
        case Tick => RunKeepsLine(s, B.Tick, outcome, c.maxBatchSize);
        case Close =>
          RunKeepsLine(s, B.QueueClosed, outcome, c.maxBatchSize);
        case Take =>
          if s.queue != [] {
            TakeKeepsLine(s, outcome, c.maxBatchSize);
          }
      }
      assert t.done == s.done && t.callback == s.callback && InBatch(t) == InBatch(s);
    }
  }

  lemma OthersLeaveTheLine(c: Config, s: Node, step: Step)
    requires !step.CallbackStep? && !step.BatchStep?
    ensures var t := Next(c, s, step);
      && t.posted == s.posted && t.batch == s.batch && t.queue == s.queue
      && t.callback == s.callback && t.done == s.done
  {
  }

  lemma {:induction false} NextKeepsBatchInv(c: Config, s: Node, step: Step)
    requires c.batching && DoneInv(c, s) && BatchInv(c, s)
    ensures BatchInv(c, Next(c, s, step))
  {
    match step {
      case CallbackStep(ok, outcome) => CallbackKeepsBatchInv(c, s, ok, outcome);
      case BatchStep(input, outcome) => BatchKeepsBatchInv(c, s, input, outcome);
      case _ => OthersLeaveTheLine(c, s, step);
    }
  }

  lemma {:induction false} RunsKeepDoneInv(c: Config, steps: seq<Step>)
    requires AllAllowed(c, steps)
    ensures var s := After(c, steps); ExecutedInv(s) && LogInv(c, s) && DoneInv(c, s)
    ensures c.batching ==> BatchInv(c, After(c, steps))
  {
    if steps != [] {
      var s, step := After(c, steps[..|steps| - 1]), steps[|steps| - 1];
      AllowedBefore(c, steps);
      RunsKeepDoneInv(c, steps[..|steps| - 1]);
      NextKeepsExecutedInv(c, s, step);
      NextKeepsLogInv(c, s, step);
      NextKeepsDoneInv(c, s, step);
      if c.batching {
        NextKeepsBatchInv(c, s, step);
      }
    }
  }

  /** Executed blocks come from the log in height order, each once; and while the batch loop
      runs, posted ++ pending ++ queued ++ being handed over is exactly the executed blocks
      this validator leads, in that order. When the loop has ended it has only stopped: what
      it holds is still the first of them. */
  lemma {:induction false} LedBlocksAreHandedOff(c: Config, steps: seq<Step>)
    requires AllAllowed(c, steps) && c.batching
    ensures var s := After(c, steps);
      && Rises(s.done) && Rises(Led(c, s.done))
      && (forall b :: b in s.done ==> b in s.log)
      && s.posted == B.BlocksOf(s.batch.landed)
      && s.posted + s.batch.pendingBlocks + s.queue <= Led(c, s.done)
      && (s.batch.running ==>
            s.posted + s.batch.pendingBlocks + s.queue + LeadingBlock(s) == Led(c, s.done))
  {
    RunsKeepDoneInv(c, steps);
    var s := After(c, steps);
    LedRises(c, s.done);
    forall b | b in s.done
      ensures b in s.log
    {
      var i :| 0 <= i < |s.done| && s.done[i] == b;
      assert FromLog(c, s.log, s.done[i], Frontier(s));
    }
  }

  // ---- Across validators ----

  ghost predicate LeadsAs(c: Config, validators: seq<L.PublicKey>, key: L.PublicKey)
    requires validators != []
  {
    forall h: nat :: c.leads(h) <==> L.Leads(validators, key, h)
  }

  /** Two validators never hand off blocks of the same height, and a block its leader has
      executed is in that leader's hands once, while its batch loop runs, and in nobody
      else's. */
  lemma {:induction false} HandedOffByOneValidator(
    c: Config, steps: seq<Step>, c': Config, steps': seq<Step>,
    validators: seq<L.PublicKey>, key: L.PublicKey, key': L.PublicKey)
    requires AllAllowed(c, steps) && AllAllowed(c', steps') && c.batching && c'.batching
    requires validators != [] && key != key'
    requires LeadsAs(c, validators, key) && LeadsAs(c', validators, key')
    ensures var s, s' := After(c, steps), After(c', steps');
      && (forall b, b' :: b in InBatch(s) + LeadingBlock(s) && b' in InBatch(s') + LeadingBlock(s') ==>
            b.height != b'.height)
      && (s.batch.running ==> forall b :: b in s.done && L.Leads(validators, key, b.height) ==>
            && multiset(InBatch(s) + LeadingBlock(s))[b] == 1
            && b !in InBatch(s') + LeadingBlock(s'))
  {
    var s, s' := After(c, steps), After(c', steps');
    LedBlocksAreHandedOff(c, steps);
    LedBlocksAreHandedOff(c', steps');
    L.LeadersPerHeight(validators);
    RunsKeepDoneInv(c, steps);
    RunsKeepDoneInv(c', steps');
    forall b, b' | b in InBatch(s) + LeadingBlock(s) && b' in InBatch(s') + LeadingBlock(s')
      ensures b.height != b'.height
    {
      InHandsIsLed(c, s, b);
      InHandsIsLed(c', s', b');
    }
    if s.batch.running {
      forall b | b in s.done && L.Leads(validators, key, b.height)
        ensures multiset(InBatch(s) + LeadingBlock(s))[b] == 1 && b !in InBatch(s') + LeadingBlock(s')
      {
        LedHasAll(c, s.done, b);
        RisingOnce(Led(c, s.done), b);
        if b in InBatch(s') + LeadingBlock(s') {
          InHandsIsLed(c', s', b);
        }
      }
    }
  }

  lemma InHandsIsLed(c: Config, s: Node, b: Block)
    requires DoneInv(c, s) && BatchInv(c, s) && b in InBatch(s) + LeadingBlock(s)
    ensures c.leads(b.height)
  {
    if b in InBatch(s) {
      var i :| 0 <= i < |InBatch(s)| && InBatch(s)[i] == b;
      assert Led(c, s.done)[i] == b;
    }
  }

  lemma {:induction false} RisingOnce(blocks: seq<Block>, b: Block)
    requires Rises(blocks) && b in blocks
    ensures multiset(blocks)[b] == 1
  {
    var i :| 0 <= i < |blocks| && blocks[i] == b;
    assert blocks == blocks[..i] + [b] + blocks[i + 1..];
    assert b !in blocks[..i] && b !in blocks[i + 1..];
  }
}
