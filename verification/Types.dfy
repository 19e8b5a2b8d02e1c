/** Values shared by every part of the sequencer. */
module Types {

  datatype Option<+T> = None | Some(value: T)
  {
    predicate IsFailure() { None? }

    function PropagateFailure<U>(): Option<U>
      requires None?
    {
      None
    }

    function Extract(): T
      requires Some?
    {
      value
    }
  }

  ghost predicate Distinct<T(!new)>(s: seq<T>) {
    forall i, j :: 0 <= i < j < |s| ==> s[i] != s[j]
  }

  type Byte = b: int | 0 <= b < 256

  /** 2^256: block hashes are 32-byte values, here read as big-endian numbers. */
  const HASH_LIMIT: nat := 0x1_0000000000000000_0000000000000000_0000000000000000_0000000000000000

  type Hash = h: nat | h < HASH_LIMIT

  type U64 = n: nat | n < 0x1_0000_0000_0000_0000

  type Address = nat

  /** What reth returns from `getPayload`. The state root, receipts root, bloom and
      gas fields travel with it unread and are not part of this model. */
  datatype Payload = Payload(
    blockHash: Hash, number: nat, parentHash: Hash, timestamp: nat,
    feeRecipient: Address, transactions: seq<seq<Byte>>)

  datatype Block = Block(
    height: nat, timestamp: nat, parentHash: Hash, proposer: Address,
    transactions: seq<seq<Byte>>, blockHash: Hash)

  /** SHA-256 as a free constructor: injective, and never equal to the null digest. */
  datatype Digest =
    | NullProposal
    | GenesisDigest(epoch: nat)
    | OfBlock(hash: Hash)

  datatype ProposedBlock = ProposedBlock(digest: Digest, block: Block, payload: Payload)

  function BlockFromPayload(p: Payload): Block {
    Block(p.number, p.timestamp, p.parentHash, p.feeRecipient, p.transactions, p.blockHash)
  }
}
