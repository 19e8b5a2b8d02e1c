/** The consensus application actor: the state it keeps between messages, what each
    message does to that state, and the actor itself as a class. */
module Application {
  import opened Types

  datatype BlockTiming = Vanilla | Subsecond

  datatype RethHead = RethHead(hash: Hash, number: nat, timestamp: nat)

  datatype SyncCheck = InSync | Behind | Diverged

  datatype SyncResult = Synced(parentTimestamp: nat) | SyncFailed

  const MAX_ATTEMPTS: nat := 10

  /** Everything a proposal reads from outside: the head reth reports at each attempt
      (a missing reading is a failed query), the wall clock at its two uses, and the
      payload reth ends up building, if it builds one. */
  datatype BuildContext = BuildContext(
    heads: seq<Option<RethHead>>, clockAtCheck: nat, clockAtBuild: nat, built: Option<Payload>)

  datatype Message =
    | Genesis(epoch: nat)
    | Propose(context: BuildContext)
    | Verify(payloadDigest: Digest)
    | Broadcast(broadcastDigest: Digest)
    | Finalize(finalized: Digest)
    | ReceiveBlock(digest: Digest, block: Block, payload: Payload, imported: bool)

  datatype Response =
    | NoResponse
    | GenesisIs(genesis: Digest)
    | Proposal(proposed: Digest)
    | Verdict(valid: bool)
    | Finalized(accepted: Option<Block>)

  predicate CanBuildBlock(timing: BlockTiming, now: nat, parentTimestamp: nat) {
    match timing
    case Vanilla => now > parentTimestamp
    case Subsecond => now >= parentTimestamp
  }

  /** The actor's fields, followed by what it has sent on its two broadcast channels
      and the payloads it has asked reth to apply. */
  datatype AppState = AppState(
    proposer: Address, blockTiming: BlockTiming,
    height: nat, lastHash: Hash,
    pendingBlocks: map<Digest, Block>, pendingPayloads: map<Digest, Payload>,
    verified: set<Digest>, lastProposedHeight: Option<nat>,
    emitted: seq<Block>, relayed: seq<ProposedBlock>, applied: seq<Payload>)
  {
    function CheckSyncState(head: RethHead): SyncCheck {
      var expectedHeight := if height == 0 then 0 else height - 1;
      if head.hash == lastHash then InSync
      else if head.number < expectedHeight then Behind
      else Diverged
    }

    function SyncFrom(heads: seq<Option<RethHead>>, attempt: nat): SyncResult
      decreases MAX_ATTEMPTS - attempt
    {
      if attempt >= MAX_ATTEMPTS then SyncFailed
      else if attempt >= |heads| || heads[attempt].None? then SyncFrom(heads, attempt + 1)
      else match CheckSyncState(heads[attempt].value)
        case InSync => Synced(heads[attempt].value.timestamp)
        case Behind => SyncFrom(heads, attempt + 1)
        case Diverged => SyncFailed
    }

    predicate AlreadyProposed() {
      lastProposedHeight.Some? && lastProposedHeight.value >= height
    }

    function CompleteProposal(p: Payload): (AppState, Digest) {
      var block := BlockFromPayload(p);
      var digest := OfBlock(block.blockHash);
      (this.(relayed := relayed + [ProposedBlock(digest, block, p)],
             pendingBlocks := pendingBlocks[digest := block],
             pendingPayloads := pendingPayloads[digest := p],
             verified := verified + {digest},
             lastProposedHeight := Some(height)),
       digest)
    }

    function Propose(c: BuildContext): (AppState, Digest) {
      if AlreadyProposed() then (this, NullProposal)
      else match SyncFrom(c.heads, 0)
        case SyncFailed => (this, NullProposal)
        case Synced(parentTimestamp) =>
          if !CanBuildBlock(blockTiming, c.clockAtCheck, parentTimestamp) || c.built.None? then
            (this, NullProposal)
          else
            CompleteProposal(c.built.value)
    }

    function Verify(d: Digest): (AppState, bool) {
      if d == NullProposal then (this, false) else (this.(verified := verified + {d}), true)
    }

    function Stale(): set<Digest> {
      set d | d in pendingBlocks && pendingBlocks[d].height < height
    }

    function CleanupStaleBlocks(): AppState {
      this.(pendingBlocks := pendingBlocks - Stale(), pendingPayloads := pendingPayloads - Stale())
    }

    function Forget(d: Digest): AppState {
      this.(pendingBlocks := pendingBlocks - {d}, pendingPayloads := pendingPayloads - {d})
    }

    /** Accepting `b`: hand its payload to reth, move past it, and send it on. */
    function Accept(d: Digest, b: Block): AppState {
      var done := if d in pendingPayloads then applied + [pendingPayloads[d]] else applied;
      Forget(d).(applied := done, height := b.height + 1, lastHash := b.blockHash,
                 emitted := emitted + [b])
    }

    function Finalize(d: Digest): (AppState, Option<Block>) {
      if d !in pendingBlocks || pendingBlocks[d].height != height then (Forget(d), None)
      else (Accept(d, pendingBlocks[d]).CleanupStaleBlocks(), Some(pendingBlocks[d]))
    }

    function ReceiveBlock(d: Digest, b: Block, p: Payload, imported: bool): AppState {
      if d in pendingBlocks then this
      else this.(pendingBlocks := pendingBlocks[d := b], pendingPayloads := pendingPayloads[d := p],
                 verified := if imported then verified + {d} else verified)
    }

    function Process(m: Message): (AppState, Response) {
      match m
      case Genesis(epoch) =>
        (this.(verified := verified + {GenesisDigest(epoch)}), GenesisIs(GenesisDigest(epoch)))
      case Propose(c) => var (s, d) := Propose(c); (s, Proposal(d))
      case Verify(d) => var (s, ok) := Verify(d); (s, Verdict(ok))
      case Broadcast(_) => (this, NoResponse)
      case Finalize(d) => var (s, b) := Finalize(d); (s, Finalized(b))
      case ReceiveBlock(d, b, p, imported) => (ReceiveBlock(d, b, p, imported), NoResponse)
    }
  }

  function Initial(proposer: Address, timing: BlockTiming, height: nat, hash: Hash): AppState {
    AppState(proposer, timing, height, hash, map[], map[], {}, None, [], [], [])
  }

  function Run(s: AppState, messages: seq<Message>): AppState {
    if messages == [] then s
    else Run(s, messages[..|messages| - 1]).Process(messages[|messages| - 1]).0
  }

  /** The actor. Its last three fields record what it has sent and asked of reth. */
  class Application {
    const proposer: Address
    const blockTiming: BlockTiming
    var height: nat
    var lastHash: Hash
    var pendingBlocks: map<Digest, Block>
    var pendingPayloads: map<Digest, Payload>
    var verified: set<Digest>
    var lastProposedHeight: Option<nat>
    var blockSender: seq<Block>
    var blockRelaySender: seq<ProposedBlock>
    var appliedPayloads: seq<Payload>

    ghost function State(): AppState
      reads this
    {
      AppState(proposer, blockTiming, height, lastHash, pendingBlocks, pendingPayloads, verified,
               lastProposedHeight, blockSender, blockRelaySender, appliedPayloads)
    }

    constructor (initialHeight: nat, initialHash: Hash, proposer: Address, blockTiming: BlockTiming)
      ensures State() == Initial(proposer, blockTiming, initialHeight, initialHash)
    {
      this.proposer, this.blockTiming := proposer, blockTiming;
      height, lastHash := initialHeight, initialHash;
      pendingBlocks, pendingPayloads, verified := map[], map[], {};
      lastProposedHeight := None;
      blockSender, blockRelaySender, appliedPayloads := [], [], [];
    }

    method WaitForRethSync(heads: seq<Option<RethHead>>) returns (result: SyncResult)
      ensures result == State().SyncFrom(heads, 0)
    {
      for attempt := 0 to MAX_ATTEMPTS
        invariant State().SyncFrom(heads, 0) == State().SyncFrom(heads, attempt)
      {
        if attempt < |heads| && heads[attempt].Some? {
          var head := heads[attempt].value;
          var expectedHeight := if height == 0 then 0 else height - 1;
          if head.hash == lastHash {
            return Synced(head.timestamp);
          }
          if head.number >= expectedHeight {
            return SyncFailed;
          }
        }
      }
      return SyncFailed;
    }

    method CompleteProposal(payload: Payload) returns (digest: Digest)
      modifies this
      ensures (State(), digest) == old(State()).CompleteProposal(payload)
    {
      var block := BlockFromPayload(payload);
      digest := OfBlock(block.blockHash);
      blockRelaySender := blockRelaySender + [ProposedBlock(digest, block, payload)];
      pendingBlocks := pendingBlocks[digest := block];
      pendingPayloads := pendingPayloads[digest := payload];
      verified := verified + {digest};
      lastProposedHeight := Some(height);
    }

    method Propose(c: BuildContext) returns (digest: Digest)
      modifies this
      ensures (State(), digest) == old(State()).Propose(c)
    {
      if lastProposedHeight.Some? && lastProposedHeight.value >= height {
        return NullProposal;
      }
      var sync := WaitForRethSync(c.heads);
      if sync.SyncFailed? || !CanBuildBlock(blockTiming, c.clockAtCheck, sync.parentTimestamp) {
        return NullProposal;
      }
      if c.built.None? {
        return NullProposal;
      }
      digest := CompleteProposal(c.built.value);
    }

    method Verify(d: Digest) returns (valid: bool)
      modifies this
      ensures (State(), valid) == old(State()).Verify(d)
      ensures valid == (d != NullProposal) && verified == old(verified) + if valid then {d} else {}
    {
      if d == NullProposal {
        return false;
      }
      if d in pendingBlocks || d in verified {
        verified := verified + {d};
        return true;
      }
      // Unknown blocks are accepted optimistically.
      verified := verified + {d};
      return true;
    }

    method CleanupStaleBlocks()
      modifies this
      ensures State() == old(State()).CleanupStaleBlocks()
    {
      var stale := set d | d in pendingBlocks && pendingBlocks[d].height < height;
      var todo := stale;
      while todo != {}
        invariant todo <= stale
        invariant State() == old(State()).(pendingBlocks := old(pendingBlocks) - (stale - todo),
                                           pendingPayloads := old(pendingPayloads) - (stale - todo))
        decreases todo
      {
        var digest :| digest in todo;
        pendingBlocks := pendingBlocks - {digest};
        pendingPayloads := pendingPayloads - {digest};
        todo := todo - {digest};
      }
    }

    method Finalize(digest: Digest) returns (accepted: Option<Block>)
      modifies this
      ensures (State(), accepted) == old(State()).Finalize(digest)
    {
      if digest !in pendingBlocks {
        pendingPayloads := pendingPayloads - {digest};
        assert pendingBlocks == pendingBlocks - {digest};
        return None;
      }
      var block := pendingBlocks[digest];
      pendingBlocks := pendingBlocks - {digest};
      if block.height != height {
        pendingPayloads := pendingPayloads - {digest};
        return None;
      }
      if digest in pendingPayloads {
        appliedPayloads := appliedPayloads + [pendingPayloads[digest]];
      }
      pendingPayloads := pendingPayloads - {digest};
      height := block.height + 1;
      lastHash := block.blockHash;
      CleanupStaleBlocks();
      blockSender := blockSender + [block];
      return Some(block);
    }

    method HandleReceiveBlock(digest: Digest, block: Block, payload: Payload, imported: bool)
      modifies this
      ensures State() == old(State()).ReceiveBlock(digest, block, payload, imported)
    {
      if digest in pendingBlocks {
        return;
      }
      pendingBlocks := pendingBlocks[digest := block];
      pendingPayloads := pendingPayloads[digest := payload];
      if imported {
        verified := verified + {digest};
      }
    }

    method ProcessMessage(m: Message) returns (response: Response)
      modifies this
      ensures (State(), response) == old(State()).Process(m)
    {
      match m {
        case Genesis(epoch) =>
          verified := verified + {GenesisDigest(epoch)};
          response := GenesisIs(GenesisDigest(epoch));
        case Propose(c) =>
          var digest := Propose(c);
          response := Proposal(digest);
        case Verify(d) =>
          var valid := Verify(d);
          response := Verdict(valid);
        case Broadcast(_) =>
          response := NoResponse;
        case Finalize(d) =>
          var accepted := Finalize(d);
          response := Finalized(accepted);
        case ReceiveBlock(d, b, p, imported) =>
          HandleReceiveBlock(d, b, p, imported);
          response := NoResponse;
      }
    }

    method ProcessMailbox(mailbox: seq<Message>)
      modifies this
      ensures State() == Run(old(State()), mailbox)
    {
      for i := 0 to |mailbox|
        invariant State() == Run(old(State()), mailbox[..i])
      {
        var _ := ProcessMessage(mailbox[i]);
        assert mailbox[..i + 1][..i] == mailbox[..i];
      }
      assert mailbox[..|mailbox|] == mailbox;
    }
  }
}
