/** Forkchoice pointers: the copy the execution client keeps, the copy the sequencer keeps,
    and the updates that go through both. */
module Forkchoice {
  import opened Types

  datatype ForkchoiceState = ForkchoiceState(head: Hash, safe: Hash, finalized: Hash)
  {
    /** Moves head and safe, keeps finalized. */
    function WithSoft(h: Hash): ForkchoiceState { ForkchoiceState(h, h, finalized) }

    /** Moves finalized only. */
    function WithFirm(h: Hash): ForkchoiceState { ForkchoiceState(head, safe, h) }
  }

  function Genesis(genesis: Hash): ForkchoiceState { ForkchoiceState(genesis, genesis, genesis) }

  /** reth's answer to a forkchoice update. */
  datatype Answer = Valid | Syncing | Accepted | Invalid | Unreachable

  /** Valid, syncing and accepted all count as taken. */
  predicate Took(a: Answer) { a.Valid? || a.Syncing? || a.Accepted? }

  const INIT_RETRIES: nat := 30

  class ExecutionClient {
    var forkchoice: ForkchoiceState

    /** Every state sent to reth. */
    ghost var sent: seq<ForkchoiceState>

    constructor ()
      ensures forkchoice == Genesis(0) && sent == []
    {
      forkchoice, sent := Genesis(0), [];
    }

    /** The cache follows reth: it changes only when reth takes the state. */
    method UpdateForkchoice(state: ForkchoiceState, answer: Answer) returns (ok: bool)
      modifies this
      ensures ok == Took(answer) == (answer.Valid? || answer.Syncing? || answer.Accepted?)
      ensures sent == old(sent) + [state]
      ensures forkchoice == if ok then state else old(forkchoice)
    {
      sent := sent + [state];
      match answer {
        case Valid | Syncing | Accepted =>
          forkchoice := state;
          ok := true;
        case Invalid | Unreachable =>
          ok := false;
      }
    }

    method ApplyBuiltPayload(payload: Payload, imported: bool, answer: Answer) returns (ok: bool)
      modifies this
      ensures ok == (imported && Took(answer))
      ensures var soft := ForkchoiceState(payload.blockHash, payload.blockHash, old(forkchoice.finalized));
        && sent == old(sent) + (if imported then [soft] else [])
        && forkchoice == if ok then soft else old(forkchoice)
    {
      if !imported {
        return false;
      }
      var finalized := forkchoice.finalized;
      ok := UpdateForkchoice(ForkchoiceState(payload.blockHash, payload.blockHash, finalized), answer);
    }

    /** reth builds on the parent, with the finalized block the cache holds; the cache stays. */
    method StartBuilding(parent: Hash)
      modifies this`sent
      ensures sent == old(sent) + [ForkchoiceState(parent, parent, forkchoice.finalized)]
    {
      sent := sent + [ForkchoiceState(parent, parent, forkchoice.finalized)];
    }

    /** Retries until reth takes the genesis state, at most thirty times. */
    method InitForkchoice(genesis: Hash, answers: nat -> Answer) returns (ok: bool, attempts: nat)
      modifies this
      ensures 1 <= attempts <= 30 && ok == Took(answers(attempts - 1))
      ensures forall i :: 0 <= i < attempts - 1 ==> !Took(answers(i))
      ensures sent == old(sent) + seq(attempts, _ => ForkchoiceState(genesis, genesis, genesis))
      ensures !ok ==> attempts == 30 && forkchoice == old(forkchoice)
      ensures ok ==> forkchoice == ForkchoiceState(genesis, genesis, genesis)
    {
      var state := Genesis(genesis);
      ok, attempts := false, 0;
      while !ok && attempts < INIT_RETRIES
        invariant attempts <= INIT_RETRIES && (attempts == 0 ==> !ok)
        invariant attempts > 0 ==> ok == Took(answers(attempts - 1))
        invariant forall i :: 0 <= i < attempts - 1 ==> !Took(answers(i))
        invariant forkchoice == if ok then state else old(forkchoice)
        invariant sent == old(sent) + seq(attempts, _ => state)
        decreases INIT_RETRIES - attempts
      {
        ok := UpdateForkchoice(state, answers(attempts));
        attempts := attempts + 1;
      }
    }
  }

  /** The part of the sequencer that executes finalized blocks and firms them up. */
  class Sequencer {
    const client: ExecutionClient
    var forkchoice: ForkchoiceState
    var executedBlocks: set<Hash>

    constructor (client: ExecutionClient, genesis: Hash)
      ensures this.client == client && forkchoice == Genesis(genesis) && executedBlocks == {}
    {
      this.client, forkchoice, executedBlocks := client, Genesis(genesis), {};
    }

    /** `executed` is whether reth found the block valid. Either everything moves to the
        block or nothing does. */
    method ExecuteAndUpdateForkchoice(block: Block, executed: bool, answer: Answer) returns (ok: bool)
      modifies this`forkchoice, client
      ensures ok == (executed && Took(answer))
      ensures var soft := ForkchoiceState(block.blockHash, block.blockHash, old(forkchoice.finalized));
        && forkchoice == (if ok then soft else old(forkchoice))
        && client.forkchoice == (if ok then soft else old(client.forkchoice))
        && client.sent == old(client.sent) + if executed then [soft] else []
    {
      if !executed {
        return false;
      }
      var newForkchoice := forkchoice.WithSoft(block.blockHash);
      ok := client.UpdateForkchoice(newForkchoice, answer);
      if ok {
        forkchoice := newForkchoice;
      }
    }

    /** The block counts as executed only when both steps went through; `handOff` is the
        block a leader passes on for submission. */
    method ProcessFinalizedBlock(block: Block, isLeader: bool, executed: bool, answer: Answer)
      returns (handOff: Option<Block>)
      modifies this, client
      ensures var ok := executed && Took(answer);
        && executedBlocks == old(executedBlocks) + (if ok then {block.blockHash} else {})
        && forkchoice == (if !ok then old(forkchoice)
                          else ForkchoiceState(block.blockHash, block.blockHash, old(forkchoice.finalized)))
        && client.forkchoice == (if ok then forkchoice else old(client.forkchoice))
        && handOff == (if ok && isLeader then Some(block) else None)
    {
      var ok := ExecuteAndUpdateForkchoice(block, executed, answer);
      if !ok {
        return None;
      }
      executedBlocks := executedBlocks + {block.blockHash};
      handOff := if isLeader then Some(block) else None;
    }

    /** A confirmation moves finalized exactly when its block was executed and reth takes it. */
    method HandleFinalityConfirmation(blockHash: Hash, answer: Answer)
      modifies this`forkchoice, client
      ensures var ok := blockHash in executedBlocks && Took(answer);
        && var firm := ForkchoiceState(old(forkchoice.head), old(forkchoice.safe), blockHash);
        && forkchoice == (if ok then firm else old(forkchoice))
        && client.forkchoice == (if ok then firm else old(client.forkchoice))
        && client.sent == old(client.sent) + if blockHash in executedBlocks then [firm] else []
    {
      if blockHash !in executedBlocks {
        return;
      }
      var newForkchoice := forkchoice.WithFirm(blockHash);
      var ok := client.UpdateForkchoice(newForkchoice, answer);
      if ok {
        forkchoice := newForkchoice;
      }
    }
  }
}
