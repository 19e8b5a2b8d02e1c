/** Posting a batch of blocks to Celestia: one blob for each block, one transaction for all of
    them, and one submission record for each block. */
module Submitting {
  import opened Types
  import opened Retry

  const DEFAULT_MAX_RETRIES: U32 := 3
  const DEFAULT_RETRY_DELAY: U64 := 1000

  /** The commitment is computed from the data by Celestia's library. */
  datatype Blob = Blob(data: seq<Byte>, commitment: seq<Byte>)

  datatype BlockInfo = BlockInfo(hash: Hash, height: nat)

  datatype BlobSubmission = BlobSubmission(
    blockHash: Hash, blockHeight: nat, celestiaHeight: nat, commitment: seq<Byte>)

  /** `encode` is serialization followed by blob construction; either may fail. */
  type Encoder = Block -> Option<Blob>

  ghost predicate AllEncode(encode: Encoder, blocks: seq<Block>) {
    forall i :: 0 <= i < |blocks| ==> encode(blocks[i]).Some?
  }

  /** Two parallel lists, or nothing if some block has no blob. */
  method CreateBlobsForBlocks(blocks: seq<Block>, encode: Encoder)
    returns (result: Option<(seq<Blob>, seq<BlockInfo>)>)
    ensures result.Some? <==> AllEncode(encode, blocks)
    ensures result.Some? ==>
      var (blobs, infos) := result.value;
      && |blobs| == |infos| == |blocks|
      && (forall i :: 0 <= i < |blocks| ==> encode(blocks[i]) == Some(blobs[i]))
      && (forall i :: 0 <= i < |blocks| ==> infos[i] == BlockInfo(blocks[i].blockHash, blocks[i].height))
  {
    var blobs, infos := [], [];
    for i := 0 to |blocks|
      invariant |blobs| == |infos| == i
      invariant forall j :: 0 <= j < i ==> encode(blocks[j]) == Some(blobs[j])
      invariant forall j :: 0 <= j < i ==> infos[j] == BlockInfo(blocks[j].blockHash, blocks[j].height)
    {
      match encode(blocks[i]) {
        case None => return None;
        case Some(blob) =>
          infos := infos + [BlockInfo(blocks[i].blockHash, blocks[i].height)];
          blobs := blobs + [blob];
      }
    }
    return Some((blobs, infos));
  }

  /** Pairs the lists up to the shorter one. */
  function BuildSubmissions(blobs: seq<Blob>, infos: seq<BlockInfo>, celestiaHeight: nat): (subs: seq<BlobSubmission>)
    ensures |subs| == Min(|blobs|, |infos|)
    ensures forall i :: 0 <= i < |subs| ==>
              subs[i] == BlobSubmission(infos[i].hash, infos[i].height, celestiaHeight, blobs[i].commitment)
  {
    if blobs == [] || infos == [] then []
    else
      [BlobSubmission(infos[0].hash, infos[0].height, celestiaHeight, blobs[0].commitment)]
      + BuildSubmissions(blobs[1..], infos[1..], celestiaHeight)
  }

  /** `celestia(i)` is what the i-th attempt to post the blobs comes to: its height, or an error. */
  ghost predicate Posts(celestia: nat -> Outcome<nat>) {
    exists i :: 0 <= i < 3 && celestia(i).Success?
  }

  lemma DelaysFit(slept: seq<nat>)
    requires |slept| < 3 && forall i :: 0 <= i < |slept| ==> slept[i] == RetryDelay(DEFAULT_RETRY_DELAY, i + 1)
    ensures forall i :: 0 <= i < |slept| ==> slept[i] == 1000 * (i + 1)
  {
    forall i | 0 <= i < |slept|
      ensures slept[i] == 1000 * (i + 1)
    {
      DelayWraps(DEFAULT_RETRY_DELAY, i + 1);
    }
  }

  /** Submission succeeds exactly when every block has a blob and one of three attempts goes
      through, with one second and then two between them. Then the records are those of the
      blocks, position by position, all at the height of the first attempt that went through. */
  method SubmitBlocks(blocks: seq<Block>, encode: Encoder, celestia: nat -> Outcome<nat>)
    returns (result: Option<seq<BlobSubmission>>, ghost landed: nat, slept: seq<nat>)
    ensures result.Some? <==> blocks == [] || (AllEncode(encode, blocks) && Posts(celestia))
    ensures result.Some? && blocks != [] ==>
      && landed < 3 && celestia(landed).Success?
      && forall i :: 0 <= i < landed ==> celestia(i).Failure?
    ensures blocks != [] && AllEncode(encode, blocks) ==>
      |slept| == landed < 3 && forall i :: 0 <= i < |slept| ==> slept[i] == 1000 * (i + 1)
    ensures blocks == [] || !AllEncode(encode, blocks) ==> slept == []
    ensures result.Some? ==>
      && |result.value| == |blocks|
      && forall i :: 0 <= i < |blocks| ==>
           && encode(blocks[i]).Some? && celestia(landed).Success?
           && result.value[i] == BlobSubmission(blocks[i].blockHash, blocks[i].height,
                                                celestia(landed).value, encode(blocks[i]).value.commitment)
  {
    landed, slept := 0, [];
    if blocks == [] {
      return Some([]), landed, slept;
    }
    var created := CreateBlobsForBlocks(blocks, encode);
    if created.None? {
      return None, landed, slept;
    }
    var outcome, calls, delays := WithRetry(DEFAULT_MAX_RETRIES, DEFAULT_RETRY_DELAY, celestia);
    landed, slept := calls - 1, delays;
    DelaysFit(slept);
    match outcome {
      case Failure(_) =>
        result := None;
      case Success(height) =>
        result := Some(BuildSubmissions(created.value.0, created.value.1, height));
    }
  }
}
