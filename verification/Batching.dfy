/** The batch submission task: blocks queue up, a tick or a full buffer submits them, and a
    failed batch goes back to wait for the next attempt. */
module Batching {
  import opened Types

  const HEADER_SIZE: nat := 68
  const FRAMING_OVERHEAD: nat := 64
  const TX_OVERHEAD: nat := 32
  const MAX_CONSECUTIVE_FAILURES: nat := 10

  function TransactionsSize(transactions: seq<seq<Byte>>): nat {
    if transactions == [] then 0
    else TransactionsSize(transactions[..|transactions| - 1]) + |transactions[|transactions| - 1]| + TX_OVERHEAD
  }

  function EstimateBlockSize(b: Block): nat {
    HEADER_SIZE + TransactionsSize(b.transactions) + FRAMING_OVERHEAD
  }

  function TotalSize(blocks: seq<Block>): nat {
    if blocks == [] then 0
    else TotalSize(blocks[..|blocks| - 1]) + EstimateBlockSize(blocks[|blocks| - 1])
  }

  /** A batch that Celestia took, and the Celestia height it went in at. */
  datatype Landed = Landed(blocks: seq<Block>, celestiaHeight: nat)

  datatype Event = Tick | Received(block: Block) | QueueClosed

  datatype Action = Continue | Submit | Shutdown

  /** What the task holds at its loop top, with every batch it has tried and every batch
      that landed. */
  datatype Loop = Loop(
    pendingBlocks: seq<Block>, pendingSize: nat, consecutiveFailures: nat, running: bool,
    attempted: seq<seq<Block>>, landed: seq<Landed>)
  {
    function Handle(e: Event, maxBatchSize: nat): (Loop, Action) {
      match e
      case Tick => (this, if pendingBlocks == [] then Continue else Submit)
      case QueueClosed => (this, Shutdown)
      case Received(b) =>
        var s := this.(pendingBlocks := pendingBlocks + [b], pendingSize := pendingSize + EstimateBlockSize(b));
        (s, if s.pendingSize >= maxBatchSize then Submit else Continue)
    }

    /** `outcome` is the Celestia height of a submission that went through. */
    function SubmitBatch(outcome: Option<nat>): (Loop, bool) {
      if pendingBlocks == [] then (this.(pendingSize := 0), true)
      else
        var tried := this.(attempted := attempted + [pendingBlocks]);
        match outcome
        case Some(c) =>
          (tried.(pendingBlocks := [], pendingSize := 0, landed := landed + [Landed(pendingBlocks, c)]), true)
        case None => (tried.(pendingSize := TotalSize(pendingBlocks)), false)
    }

    function Step(e: Event, outcome: Option<nat>, maxBatchSize: nat): Loop {
      if !running then this
      else
        var (s, action) := Handle(e, maxBatchSize);
        match action
        case Continue => s
        case Submit =>
          var (t, ok) := s.SubmitBatch(outcome);
          if ok then t.(consecutiveFailures := 0)
          else t.(consecutiveFailures := consecutiveFailures + 1,
                  running := consecutiveFailures + 1 < MAX_CONSECUTIVE_FAILURES)
        case Shutdown => s.SubmitBatch(outcome).0.(running := false)
    }
  }

  const EMPTY_LOOP := Loop([], 0, 0, true, [], [])

  /** One event, and what a submission would come to if the event leads to one. */
  type Occurrence = (Event, Option<nat>)

  function Run(l: Loop, occurrences: seq<Occurrence>, maxBatchSize: nat): Loop {
    if occurrences == [] then l
    else
      var (e, outcome) := occurrences[|occurrences| - 1];
      Run(l, occurrences[..|occurrences| - 1], maxBatchSize).Step(e, outcome, maxBatchSize)
  }

  function BlocksOf(landed: seq<Landed>): seq<Block> {
    if landed == [] then [] else BlocksOf(landed[..|landed| - 1]) + landed[|landed| - 1].blocks
  }

  // ---- Conservation ----

  /** The blocks the task has taken off its queue: what arrives after it has ended stays there. */
  function BlocksReceived(l: Loop, occurrences: seq<Occurrence>, maxBatchSize: nat): seq<Block> {
    if occurrences == [] then []
    else
      var before := occurrences[..|occurrences| - 1];
      var e := occurrences[|occurrences| - 1].0;
      BlocksReceived(l, before, maxBatchSize) +
      if Run(l, before, maxBatchSize).running && e.Received? then [e.block] else []
  }

  /** Everything the task has in hand, oldest first. */
  function InHand(l: Loop): seq<Block> { BlocksOf(l.landed) + l.pendingBlocks }

  lemma HandleConserves(l: Loop, e: Event, maxBatchSize: nat)
    requires l.pendingSize == TotalSize(l.pendingBlocks)
    ensures var s := l.Handle(e, maxBatchSize).0;
            && InHand(s) == InHand(l) + (if e.Received? then [e.block] else [])
            && s.pendingSize == TotalSize(s.pendingBlocks)
  {
    if e.Received? {
      assert (l.pendingBlocks + [e.block])[..|l.pendingBlocks|] == l.pendingBlocks;
    }
  }

  lemma SubmitConserves(l: Loop, outcome: Option<nat>)
    requires l.pendingSize == TotalSize(l.pendingBlocks)
    ensures var s := l.SubmitBatch(outcome).0;
            InHand(s) == InHand(l) && s.pendingSize == TotalSize(s.pendingBlocks)
  {
    var s := l.SubmitBatch(outcome).0;
    if s.landed != l.landed {
      assert s.landed[..|l.landed|] == l.landed;
      assert BlocksOf(s.landed) == BlocksOf(l.landed) + l.pendingBlocks;
    }
  }

  lemma StepConserves(l: Loop, e: Event, outcome: Option<nat>, maxBatchSize: nat)
    requires l.pendingSize == TotalSize(l.pendingBlocks)
    ensures var t := l.Step(e, outcome, maxBatchSize);
            && InHand(t) == InHand(l) + (if l.running && e.Received? then [e.block] else [])
            && t.pendingSize == TotalSize(t.pendingBlocks)
  {
    HandleConserves(l, e, maxBatchSize);
    SubmitConserves(l.Handle(e, maxBatchSize).0, outcome);
  }

  /** Nothing is lost, repeated or reordered: what landed, followed by what is pending, is
      what was received, whichever attempts failed; and the recorded size is the true one. */
  lemma {:induction false} BatchesConserveBlocks(occurrences: seq<Occurrence>, maxBatchSize: nat)
    ensures var l := Run(EMPTY_LOOP, occurrences, maxBatchSize);
            && InHand(l) == BlocksReceived(EMPTY_LOOP, occurrences, maxBatchSize)
            && l.pendingSize == TotalSize(l.pendingBlocks)
  {
    if occurrences != [] {
      var before := occurrences[..|occurrences| - 1];
      var (e, outcome) := occurrences[|occurrences| - 1];
      BatchesConserveBlocks(before, maxBatchSize);
      StepConserves(Run(EMPTY_LOOP, before, maxBatchSize), e, outcome, maxBatchSize);
    }
  }

  // ---- Size ----

  function Times(n: nat, m: nat): nat {
    if n == 0 then 0 else Times(n - 1, m) + m
  }

  lemma {:induction false} TimesGrows(a: nat, b: nat, m: nat)
    requires a <= b
    ensures Times(a, m) <= Times(b, m)
  {
    if a < b {
      TimesGrows(a, b - 1, m);
    }
  }

  lemma {:induction false} TimesMultiplies(n: nat, m: nat)
    ensures Times(n, m) == n * m
  {
    if n > 0 {
      TimesMultiplies(n - 1, m);
    }
  }

  ghost predicate SizeInv(l: Loop, maxBatchSize: nat, blockBound: nat) {
    && l.pendingSize == TotalSize(l.pendingBlocks)
    && (l.running ==> l.consecutiveFailures < MAX_CONSECUTIVE_FAILURES)
    && l.pendingSize <= maxBatchSize + Times(l.consecutiveFailures, blockBound)
    && AttemptsWithin(l.attempted, maxBatchSize + Times(MAX_CONSECUTIVE_FAILURES, blockBound))
  }

  lemma HandleGrowsByOneBlock(l: Loop, e: Event, maxBatchSize: nat, blockBound: nat)
    requires SizeInv(l, maxBatchSize, blockBound)
    requires e.Received? ==> EstimateBlockSize(e.block) <= blockBound
    ensures var s := l.Handle(e, maxBatchSize).0;
            && s.pendingSize == TotalSize(s.pendingBlocks)
            && s.pendingSize <= maxBatchSize + Times(l.consecutiveFailures + 1, blockBound)
  {
    HandleConserves(l, e, maxBatchSize);
  }

  ghost predicate AttemptsWithin(attempted: seq<seq<Block>>, bound: nat) {
    forall k :: 0 <= k < |attempted| ==> TotalSize(attempted[k]) <= bound
  }

  lemma SubmitAttemptsWithin(l: Loop, outcome: Option<nat>, bound: nat)
    requires AttemptsWithin(l.attempted, bound) && TotalSize(l.pendingBlocks) <= bound
    ensures AttemptsWithin(l.SubmitBatch(outcome).0.attempted, bound)
  {
  }

  lemma StepKeepsSizeInv(l: Loop, e: Event, outcome: Option<nat>, maxBatchSize: nat, blockBound: nat)
    requires SizeInv(l, maxBatchSize, blockBound)
    requires e.Received? ==> EstimateBlockSize(e.block) <= blockBound
    ensures SizeInv(l.Step(e, outcome, maxBatchSize), maxBatchSize, blockBound)
  {
    var (s, action) := l.Handle(e, maxBatchSize);
    HandleGrowsByOneBlock(l, e, maxBatchSize, blockBound);
    if l.running && action != Continue {
      SubmitConserves(s, outcome);
      TimesGrows(l.consecutiveFailures + 1, MAX_CONSECUTIVE_FAILURES, blockBound);
      SubmitAttemptsWithin(s, outcome, maxBatchSize + Times(MAX_CONSECUTIVE_FAILURES, blockBound));
      assert s.SubmitBatch(outcome).0.pendingSize <= s.pendingSize;
    }
  }

  lemma {:induction false} RunsKeepSizeInv(occurrences: seq<Occurrence>, maxBatchSize: nat, blockBound: nat)
    requires forall i :: 0 <= i < |occurrences| && occurrences[i].0.Received? ==>
               EstimateBlockSize(occurrences[i].0.block) <= blockBound
    ensures SizeInv(Run(EMPTY_LOOP, occurrences, maxBatchSize), maxBatchSize, blockBound)
  {
    if occurrences != [] {
      var before := occurrences[..|occurrences| - 1];
      var (e, outcome) := occurrences[|occurrences| - 1];
      RunsKeepSizeInv(before, maxBatchSize, blockBound);
      StepKeepsSizeInv(Run(EMPTY_LOOP, before, maxBatchSize), e, outcome, maxBatchSize, blockBound);
    }
  }

  /** The buffer outgrows its limit by at most one block for each consecutive failure, so no
      attempted batch is larger than the limit plus ten blocks. */
  lemma {:induction false} BatchesStayBounded(occurrences: seq<Occurrence>, maxBatchSize: nat, blockBound: nat)
    requires forall i :: 0 <= i < |occurrences| && occurrences[i].0.Received? ==>
               EstimateBlockSize(occurrences[i].0.block) <= blockBound
    ensures var l := Run(EMPTY_LOOP, occurrences, maxBatchSize);
            && l.pendingSize <= maxBatchSize + l.consecutiveFailures * blockBound
            && forall k :: 0 <= k < |l.attempted| ==> TotalSize(l.attempted[k]) <= maxBatchSize + 10 * blockBound
  {
    RunsKeepSizeInv(occurrences, maxBatchSize, blockBound);
    TimesMultiplies(Run(EMPTY_LOOP, occurrences, maxBatchSize).consecutiveFailures, blockBound);
    TimesMultiplies(MAX_CONSECUTIVE_FAILURES, blockBound);
  }

  // ---- What a size measures ----

  /** All transaction bytes of a block, end to end. */
  function AllBytes(transactions: seq<seq<Byte>>): seq<Byte> {
    if transactions == [] then []
    else AllBytes(transactions[..|transactions| - 1]) + transactions[|transactions| - 1]
  }

  lemma {:induction false} TransactionsMeasured(transactions: seq<seq<Byte>>)
    ensures TransactionsSize(transactions) == |AllBytes(transactions)| + 32 * |transactions|
  {
    if transactions != [] {
      TransactionsMeasured(transactions[..|transactions| - 1]);
    }
  }

  /** The estimate is 132 bytes for a block, 32 for each transaction, and their bytes. */
  lemma BlockMeasured(b: Block)
    ensures EstimateBlockSize(b) == 132 + 32 * |b.transactions| + |AllBytes(b.transactions)|
  {
    TransactionsMeasured(b.transactions);
  }

  /** Sizes of batches add up. */
  lemma {:induction false} TotalSizeTogether(s: seq<Block>, t: seq<Block>)
    ensures TotalSize(s + t) == TotalSize(s) + TotalSize(t)
  {
    if t == [] {
      assert s + t == s;
    } else {
      TotalSizeTogether(s, t[..|t| - 1]);
      assert (s + t)[..|s + t| - 1] == s + t[..|t| - 1];
    }
  }

  // ---- Progress ----

  /** What the loop has in its buffer once it has taken `e`. */
  function Buffer(l: Loop, e: Event): seq<Block> {
    l.pendingBlocks + if e.Received? then [e.block] else []
  }

  /** A tick or the end of the queue submits whatever there is; a block only a full buffer. */
  predicate Submits(l: Loop, e: Event, maxBatchSize: nat) {
    Buffer(l, e) != [] && (e.Received? ==> TotalSize(Buffer(l, e)) >= maxBatchSize)
  }

  lemma {:induction false} OneMore(occurrences: seq<Occurrence>, e: Event, outcome: Option<nat>, maxBatchSize: nat)
    ensures Run(EMPTY_LOOP, occurrences + [(e, outcome)], maxBatchSize)
         == Run(EMPTY_LOOP, occurrences, maxBatchSize).Step(e, outcome, maxBatchSize)
    ensures BlocksReceived(EMPTY_LOOP, occurrences + [(e, outcome)], maxBatchSize)
         == BlocksReceived(EMPTY_LOOP, occurrences, maxBatchSize)
            + if Run(EMPTY_LOOP, occurrences, maxBatchSize).running && e.Received? then [e.block] else []
  {
    assert (occurrences + [(e, outcome)])[..|occurrences|] == occurrences;
  }

  /** A submission that goes through empties the buffer into one batch at the given height. A
      failed one is attempted, keeps the buffer and counts; the tenth in a row ends the loop.
      Without a submission nothing but the buffer changes. The end of the queue ends the loop
      after its submission, if it has anything to submit. */
  ghost predicate StepsOn(l: Loop, e: Event, outcome: Option<nat>, maxBatchSize: nat, t: Loop) {
    var all := Buffer(l, e);
    if !Submits(l, e, maxBatchSize) then
      && t.pendingBlocks == all && t.landed == l.landed && t.attempted == l.attempted
      && t.consecutiveFailures == l.consecutiveFailures && t.running == !e.QueueClosed?
    else
      && t.attempted == l.attempted + [all]
      && match outcome
         case Some(c) =>
           && t.pendingBlocks == [] && t.landed == l.landed + [Landed(all, c)]
           && (!e.QueueClosed? ==> t.running && t.consecutiveFailures == 0)
           && (e.QueueClosed? ==> !t.running)
         case None =>
           && t.pendingBlocks == all && t.landed == l.landed
           && (!e.QueueClosed? ==>
                 && t.consecutiveFailures == l.consecutiveFailures + 1
                 && t.running == (l.consecutiveFailures + 1 < 10))
           && (e.QueueClosed? ==> !t.running)
  }

  lemma {:induction false} StepProgresses(l: Loop, e: Event, outcome: Option<nat>, maxBatchSize: nat)
    requires l.running && l.pendingSize == TotalSize(l.pendingBlocks)
    ensures StepsOn(l, e, outcome, maxBatchSize, l.Step(e, outcome, maxBatchSize))
  {
    HandleConserves(l, e, maxBatchSize);
    assert l.pendingBlocks + [] == l.pendingBlocks;
  }

  /** Over every run: what the next occurrence does to a loop that is still running, and
      that a loop that has ended does nothing any more. */
  lemma {:induction false} RunsStepOn(occurrences: seq<Occurrence>, e: Event, outcome: Option<nat>, maxBatchSize: nat)
    ensures var l := Run(EMPTY_LOOP, occurrences, maxBatchSize);
            var t := Run(EMPTY_LOOP, occurrences + [(e, outcome)], maxBatchSize);
            if l.running then StepsOn(l, e, outcome, maxBatchSize, t) else t == l
  {
    BatchesConserveBlocks(occurrences, maxBatchSize);
    OneMore(occurrences, e, outcome, maxBatchSize);
    if Run(EMPTY_LOOP, occurrences, maxBatchSize).running {
      StepProgresses(Run(EMPTY_LOOP, occurrences, maxBatchSize), e, outcome, maxBatchSize);
    }
  }

  /** A tick whose submission goes through leaves nothing behind: everything received has
      landed, what was pending last and at that height. */
  lemma {:induction false} TickLandsEverything(occurrences: seq<Occurrence>, c: nat, maxBatchSize: nat)
    requires Run(EMPTY_LOOP, occurrences, maxBatchSize).running
    requires Run(EMPTY_LOOP, occurrences, maxBatchSize).pendingBlocks != []
    ensures var l := Run(EMPTY_LOOP, occurrences, maxBatchSize);
            var t := Run(EMPTY_LOOP, occurrences + [(Tick, Some(c))], maxBatchSize);
            && t.running && t.pendingBlocks == [] && t.consecutiveFailures == 0
            && t.landed == l.landed + [Landed(l.pendingBlocks, c)]
            && BlocksOf(t.landed) == BlocksReceived(EMPTY_LOOP, occurrences, maxBatchSize)
  {
    var l := Run(EMPTY_LOOP, occurrences, maxBatchSize);
    RunsStepOn(occurrences, Tick, Some(c), maxBatchSize);
    OneMore(occurrences, Tick, Some(c), maxBatchSize);
    BatchesConserveBlocks(occurrences + [(Tick, Some(c))], maxBatchSize);
    assert l.pendingBlocks + [] == l.pendingBlocks;
    var t := Run(EMPTY_LOOP, occurrences + [(Tick, Some(c))], maxBatchSize);
    assert BlocksOf(t.landed) + [] == BlocksOf(t.landed);
  }

  // ---- The task ----

  method EstimateSize(b: Block) returns (size: nat)
    ensures size == EstimateBlockSize(b)
  {
    var txSize := 0;
    for i := 0 to |b.transactions|
      invariant txSize == TransactionsSize(b.transactions[..i])
    {
      assert b.transactions[..i + 1][..i] == b.transactions[..i];
      txSize := txSize + |b.transactions[i]| + TX_OVERHEAD;
    }
    assert b.transactions[..|b.transactions|] == b.transactions;
    return HEADER_SIZE + txSize + FRAMING_OVERHEAD;
  }

  /** The task's mutable state. */
  class BatchState {
    var pendingBlocks: seq<Block>
    var pendingSize: nat

    constructor ()
      ensures pendingBlocks == [] && pendingSize == 0
    {
      pendingBlocks, pendingSize := [], 0;
    }

    method HandleReceivedBlock(block: Option<Block>, maxBatchSize: nat) returns (action: Action)
      modifies this
      ensures block.None? ==>
                && action == Shutdown
                && pendingBlocks == old(pendingBlocks) && pendingSize == old(pendingSize)
      ensures block.Some? ==>
                && pendingBlocks == old(pendingBlocks) + [block.value]
                && pendingSize == old(pendingSize) + EstimateBlockSize(block.value)
                && action == (if pendingSize >= maxBatchSize then Submit else Continue)
    {
      if block.None? {
        return Shutdown;
      }
      var size := EstimateSize(block.value);
      pendingBlocks := pendingBlocks + [block.value];
      pendingSize := pendingSize + size;
      return if pendingSize >= maxBatchSize then Submit else Continue;
    }

    method RestoreFailedBatch(blocks: seq<Block>)
      modifies this
      ensures pendingBlocks == blocks && pendingSize == TotalSize(blocks)
    {
      var total := 0;
      for i := 0 to |blocks|
        invariant total == TotalSize(blocks[..i])
      {
        assert blocks[..i + 1][..i] == blocks[..i];
        var size := EstimateSize(blocks[i]);
        total := total + size;
      }
      assert blocks[..|blocks|] == blocks;
      pendingSize := total;
      pendingBlocks := blocks;
    }

    /** Takes the buffer; a failed batch is put back. */
    method SubmitBatch(outcome: Option<nat>) returns (ok: bool, tried: seq<Block>)
      modifies this
      ensures tried == old(pendingBlocks)
      ensures ok == (tried == [] || outcome.Some?)
      ensures pendingBlocks == (if ok then [] else tried)
      ensures pendingSize == TotalSize(pendingBlocks)
    {
      tried := pendingBlocks;
      pendingBlocks, pendingSize := [], 0;
      if tried == [] {
        return true, tried;
      }
      match outcome {
        case Some(_) =>
          ok := true;
        case None =>
          RestoreFailedBatch(tried);
          ok := false;
      }
    }
  }

  /** The loop; it returns the blocks it holds when the occurrences run out, or when it ends. */
  method RunBatchSubmissionLoop(occurrences: seq<Occurrence>, maxBatchSize: nat)
    returns (left: seq<Block>, landed: seq<Landed>, ghost end: Loop)
    ensures end == Run(EMPTY_LOOP, occurrences, maxBatchSize)
    ensures left == end.pendingBlocks && landed == end.landed
    ensures BlocksOf(landed) + left == BlocksReceived(EMPTY_LOOP, occurrences, maxBatchSize)
  {
    var state := new BatchState();
    var consecutiveFailures, running := 0, true;
    landed := [];
    ghost var attempted := [];
    for i := 0 to |occurrences|
      invariant fresh(state)
      invariant Run(EMPTY_LOOP, occurrences[..i], maxBatchSize)
             == Loop(state.pendingBlocks, state.pendingSize, consecutiveFailures, running, attempted, landed)
    {
      assert occurrences[..i + 1][..i] == occurrences[..i];
      if running {
        var (event, outcome) := occurrences[i];
        var action;
        match event {
          case Tick => action := if state.pendingBlocks == [] then Continue else Submit;
          case Received(b) => action := state.HandleReceivedBlock(Some(b), maxBatchSize);
          case QueueClosed => action := state.HandleReceivedBlock(None, maxBatchSize);
        }
        if action != Continue {
          var ok, tried := state.SubmitBatch(outcome);
          if tried != [] {
            attempted := attempted + [tried];
            if ok {
              landed := landed + [Landed(tried, outcome.value)];
            }
          }
          if action == Shutdown {
            running := false;
          } else if ok {
            consecutiveFailures := 0;
          } else {
            consecutiveFailures := consecutiveFailures + 1;
            running := consecutiveFailures < MAX_CONSECUTIVE_FAILURES;
          }
        }
      }
    }
    assert occurrences[..|occurrences|] == occurrences;
    end := Loop(state.pendingBlocks, state.pendingSize, consecutiveFailures, running, attempted, landed);
    left := state.pendingBlocks;
    BatchesConserveBlocks(occurrences, maxBatchSize);
  }
}
