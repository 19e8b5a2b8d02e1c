/** What is firm was executed, and what was executed was finalized by consensus: in every
    interleaving of the pipeline, and in every forkchoice state it ever sends. */
module Causality {
  import opened Types
  import N = Network
  import opened Forkchoice
  import opened F = Finality
  import B = Batching
  import opened Pipeline

  // ---- From the log to the executed set ----

  function BlockInHand(p: CallbackPhase): Option<Block> {
    match p
    case Waiting => None
    case Executed(b) => Some(b)
    case SoftRead(b, _) => Some(b)
    case SoftSent(b, _) => Some(b)
    case SoftTaken(b, _) => Some(b)
    case SoftWritten(b) => Some(b)
    case Leading(b) => Some(b)
  }

  ghost predicate ExecutedInv(s: Node) {
    && s.taken <= |s.log|
    && (BlockInHand(s.callback).Some? ==> s.taken > 0 && BlockInHand(s.callback).value == s.log[s.taken - 1])
    && (forall h :: h in s.executed ==> Names(s.log[..s.taken], h))
    && (s.callback.Leading? ==> s.callback.block.blockHash in s.executed)
  }

  lemma NamesMore(blocks: seq<Block>, more: seq<Block>, h: Hash)
    requires blocks <= more && Names(blocks, h)
    ensures Names(more, h)
  {
    var i :| 0 <= i < |blocks| && blocks[i].blockHash == h;
    assert more[i] == blocks[i];
  }

  lemma PrefixGrows<T>(s: seq<T>, t: seq<T>, j: nat, k: nat)
    requires s <= t && j <= k && j <= |s| && k <= |t|
    ensures s[..j] <= t[..k]
  {
  }

  lemma CallbackKeepsExecutedInv(c: Config, s: Node, ok: bool, outcome: Option<nat>)
    requires ExecutedInv(s)
    ensures ExecutedInv(CallbackNext(c, s, ok, outcome))
  {
    var t := CallbackNext(c, s, ok, outcome);
    if s.callback.Waiting? && s.taken < |s.log| {
      PrefixGrows(s.log, s.log, s.taken, s.taken + 1);
      forall h | h in s.executed
        ensures Names(s.log[..s.taken + 1], h)
      {
        NamesMore(s.log[..s.taken], s.log[..s.taken + 1], h);
      }
    } else if s.callback.SoftWritten? {
      assert s.log[..s.taken][s.taken - 1].blockHash == s.callback.block.blockHash;
    } else {
      CallbackLeavesExecuted(c, s, ok, outcome);
    }
  }

  lemma CallbackLeavesExecuted(c: Config, s: Node, ok: bool, outcome: Option<nat>)
    requires !s.callback.SoftWritten? && (s.callback.Waiting? ==> s.taken >= |s.log|)
    ensures var t := CallbackNext(c, s, ok, outcome);
      && t.log == s.log && t.taken == s.taken && t.executed == s.executed
      && (t.callback.Waiting? || BlockInHand(t.callback) == BlockInHand(s.callback))
      && !t.callback.Leading?
  {
  }

  lemma OthersLeaveExecuted(c: Config, s: Node, step: Step)
    requires !step.CallbackStep?
    ensures var t := Next(c, s, step);
      s.log <= t.log && s.taken == t.taken && s.callback == t.callback && s.executed == t.executed
  {
  }

  lemma NextKeepsExecutedInv(c: Config, s: Node, step: Step)
    requires ExecutedInv(s)
    ensures ExecutedInv(Next(c, s, step))
  {
    var t := Next(c, s, step);
    match step {
      case CallbackStep(ok, outcome) => CallbackKeepsExecutedInv(c, s, ok, outcome);
      case _ =>
        OthersLeaveExecuted(c, s, step);
        assert t.log[..t.taken] == s.log[..s.taken];
    }
  }

  // ---- From the executed set to the confirmations ----

  ghost predicate AllExecuted(blocks: seq<Block>, executed: set<Hash>) {
    forall i :: 0 <= i < |blocks| ==> blocks[i].blockHash in executed
  }

  ghost predicate AllSubmissionsExecuted(subs: seq<Submission>, executed: set<Hash>) {
    forall i :: 0 <= i < |subs| ==> subs[i].blockHash in executed
  }

  ghost predicate AllConfirmationsExecuted(cs: seq<Confirmation>, executed: set<Hash>) {
    forall i :: 0 <= i < |cs| ==> cs[i].blockHash in executed
  }

  function ConfirmationInHand(p: ConfirmPhase): Option<Confirmation> {
    match p
    case Listening => None
    case Checked(x) => Some(x)
    case FirmRead(x, _) => Some(x)
    case FirmSent(x, _) => Some(x)
    case FirmTaken(x, _) => Some(x)
  }

  ghost predicate FirmInv(s: Node) {
    && AllExecuted(s.queue, s.executed)
    && AllExecuted(s.batch.pendingBlocks, s.executed)
    && AllSubmissionsExecuted(s.spawned, s.executed)
    && (forall h :: h in s.tracker.pending ==> h in s.executed)
    && AllConfirmationsExecuted(s.channel, s.executed)
    && AllConfirmationsExecuted(s.confirmed, s.executed)
    && (ConfirmationInHand(s.confirm).Some? ==> ConfirmationInHand(s.confirm).value.blockHash in s.executed)
    && s.skipped == 0
  }

  /** A batch step keeps its blocks or lands all of them. */
  lemma BatchKeepsOrLands(l: B.Loop, e: B.Event, outcome: Option<nat>, maxBatchSize: nat)
    requires l.running
    ensures var all := l.pendingBlocks + (if e.Received? then [e.block] else []);
            var t := l.Step(e, outcome, maxBatchSize);
            || (t.landed == l.landed && t.pendingBlocks == all)
            || (outcome.Some? && t.landed == l.landed + [B.Landed(all, outcome.value)] && t.pendingBlocks == [])
  {
    assert l.pendingBlocks + [] == l.pendingBlocks;
  }

  lemma PostKeepsFirmInv(s: Node, blocks: seq<Block>, celestiaHeight: nat)
    requires FirmInv(s) && AllExecuted(blocks, s.executed)
    ensures FirmInv(Post(s, blocks, celestiaHeight))
  {
  }

  lemma CallbackKeepsFirmInv(c: Config, s: Node, ok: bool, outcome: Option<nat>)
    requires ExecutedInv(s) && FirmInv(s)
    ensures FirmInv(CallbackNext(c, s, ok, outcome))
  {
    if s.callback.Leading? && !c.batching && outcome.Some? {
      PostKeepsFirmInv(s, [s.callback.block], outcome.value);
    }
  }

  lemma BatchRunKeepsFirmInv(s: Node, e: B.Event, outcome: Option<nat>, maxBatchSize: nat)
    requires FirmInv(s) && s.batch.running
    requires e.Received? ==> e.block.blockHash in s.executed
    ensures FirmInv(BatchRun(s, e, outcome, maxBatchSize))
  {
    var all := s.batch.pendingBlocks + (if e.Received? then [e.block] else []);
    assert AllExecuted(all, s.executed);
    BatchKeepsOrLands(s.batch, e, outcome, maxBatchSize);
    if outcome.Some? {
      PostKeepsFirmInv(s, all, outcome.value);
    }
  }

  lemma {:induction false} BatchKeepsFirmInv(c: Config, s: Node, input: BatchInput, outcome: Option<nat>)
    requires FirmInv(s)
    ensures FirmInv(BatchNext(c, s, input, outcome))
  {
    if c.batching && s.batch.running {
      match input {
        case Tick => BatchRunKeepsFirmInv(s, B.Tick, outcome, c.maxBatchSize);
        case Close => BatchRunKeepsFirmInv(s, B.QueueClosed, outcome, c.maxBatchSize);
        case Take =>
          if s.queue != [] {
            BatchRunKeepsFirmInv(s.(queue := s.queue[1..]), B.Received(s.queue[0]), outcome, c.maxBatchSize);
          }
      }
    }
  }

  lemma TrackKeepsFirmInv(s: Node, e: Event)
    requires FirmInv(s)
    requires match e case Tracked(x) => x.blockHash in s.executed case Header(_, _, order) => Visits(s.tracker, order)
    ensures FirmInv(Track(s, e))
  {
    match e {
      case Tracked(_) =>
      case Header(height, header, order) =>
        HeaderConfirmsTheDue(s.tracker, height, header, order);
        var cs := F.Step(s.tracker, e).1;
        forall i | 0 <= i < |cs|
          ensures cs[i].blockHash in s.executed
        {
          assert cs[i] in cs;
        }
    }
  }

  lemma TrackNextKeepsFirmInv(s: Node, index: nat)
    requires FirmInv(s)
    ensures FirmInv(TrackNext(s, index))
  {
    if index < |s.spawned| {
      TrackKeepsFirmInv(s.(spawned := s.spawned[..index] + s.spawned[index + 1..]), Tracked(s.spawned[index]));
    }
  }

  lemma AppKeepsFirmInv(c: Config, s: Node, input: AppInput, ok: bool)
    requires FirmInv(s)
    ensures FirmInv(AppNext(c, s, input, ok))
  {
  }

  lemma ConfirmKeepsFirmInv(s: Node, ok: bool)
    requires FirmInv(s)
    ensures FirmInv(ConfirmNext(s, ok))
  {
  }

  lemma {:induction false} NextKeepsFirmInv(c: Config, s: Node, step: Step)
    requires ExecutedInv(s) && FirmInv(s) && Allowed(c, s, step)
    ensures FirmInv(Next(c, s, step))
  {
    match step {
      case CallbackStep(ok, outcome) => CallbackKeepsFirmInv(c, s, ok, outcome);
      case BatchStep(input, outcome) => BatchKeepsFirmInv(c, s, input, outcome);
      case TrackStep(index) => TrackNextKeepsFirmInv(s, index);
      case HeaderStep(height, header, order) => TrackKeepsFirmInv(s, Header(height, header, order));
      case ConfirmStep(ok) => ConfirmKeepsFirmInv(s, ok);
      case AppStep(input, ok) => AppKeepsFirmInv(c, s, input, ok);
    }
  }

  // ---- The forkchoice states ----

  /** The log, and the block the application is applying. */
  function Applying(s: Node): seq<Block> {
    match s.app
    case AppIdle => s.log
    case BuildRead(_) => s.log
    case ApplyRead(b, _) => s.log + [b]
    case ApplySent(b, _) => s.log + [b]
    case Applied(b) => s.log + [b]
  }

  /** Head and safe are one finalized block, finalized an executed one; genesis counts as both. */
  predicate Sound(c: Config, s: Node, state: ForkchoiceState) {
    && state.head == state.safe
    && (state.head == c.genesis || Names(Applying(s), state.head))
    && (state.finalized == c.genesis || state.finalized in s.executed)
  }

  function ByApp(p: AppPhase): Option<ForkchoiceState> {
    match p
    case BuildRead(state) => Some(state)
    case ApplyRead(_, state) => Some(state)
    case ApplySent(_, state) => Some(state)
    case _ => None
  }

  function ByCallback(p: CallbackPhase): Option<ForkchoiceState> {
    match p
    case SoftRead(_, state) => Some(state)
    case SoftSent(_, state) => Some(state)
    case SoftTaken(_, state) => Some(state)
    case _ => None
  }

  function ByConfirm(p: ConfirmPhase): Option<ForkchoiceState> {
    match p
    case FirmRead(_, state) => Some(state)
    case FirmSent(_, state) => Some(state)
    case FirmTaken(_, state) => Some(state)
    case _ => None
  }

  /** The copies, what was sent, and what the tasks carry between a read and its write. */
  predicate Held(s: Node, state: ForkchoiceState) {
    || state == s.clientState || state == s.sequencerState || state in s.sent
    || ByApp(s.app) == Some(state) || ByCallback(s.callback) == Some(state) || ByConfirm(s.confirm) == Some(state)
  }

  ghost predicate StatesInv(c: Config, s: Node) {
    forall state :: Held(s, state) ==> Sound(c, s, state)
  }

  lemma StaysSound(c: Config, s: Node, t: Node, state: ForkchoiceState)
    requires Sound(c, s, state) && Applying(s) <= Applying(t) && s.executed <= t.executed
    ensures Sound(c, t, state)
  {
    if Names(Applying(s), state.head) {
      NamesMore(Applying(s), Applying(t), state.head);
    }
  }

  lemma AppHolds(c: Config, s: Node, input: AppInput, ok: bool, state: ForkchoiceState)
    requires Held(AppNext(c, s, input, ok), state)
    ensures Held(s, state) || (s.app.AppIdle? && ByApp(AppNext(c, s, input, ok).app) == Some(state))
  {
  }

  lemma CallbackHolds(c: Config, s: Node, ok: bool, outcome: Option<nat>, state: ForkchoiceState)
    requires Held(CallbackNext(c, s, ok, outcome), state)
    ensures Held(s, state) || (s.callback.Executed? && state == s.sequencerState.WithSoft(s.callback.block.blockHash))
  {
  }

  lemma ConfirmHolds(s: Node, ok: bool, state: ForkchoiceState)
    requires Held(ConfirmNext(s, ok), state)
    ensures Held(s, state)
         || (s.confirm.Checked? && state == s.sequencerState.WithFirm(s.confirm.confirmation.blockHash))
  {
  }

  lemma NewAppStateIsSound(c: Config, s: Node, input: AppInput, ok: bool, state: ForkchoiceState)
    requires s.app.AppIdle? && Sound(c, s, s.clientState)
    requires ByApp(AppNext(c, s, input, ok).app) == Some(state)
    ensures Sound(c, AppNext(c, s, input, ok), state)
  {
    var t := AppNext(c, s, input, ok);
    if input.Accept? {
      assert Applying(t)[|s.log|].blockHash == state.head;
    } else if s.log != [] {
      assert Applying(t)[|s.log| - 1].blockHash == state.head;
    }
  }

  lemma AppKeepsStatesInv(c: Config, s: Node, input: AppInput, ok: bool)
    requires StatesInv(c, s)
    ensures StatesInv(c, AppNext(c, s, input, ok))
  {
    var t := AppNext(c, s, input, ok);
    assert Applying(s) <= Applying(t);
    forall state | Held(t, state)
      ensures Sound(c, t, state)
    {
      AppHolds(c, s, input, ok, state);
      if Held(s, state) {
        StaysSound(c, s, t, state);
      } else {
        assert Held(s, s.clientState);
        NewAppStateIsSound(c, s, input, ok, state);
      }
    }
  }

  lemma CallbackKeepsStatesInv(c: Config, s: Node, ok: bool, outcome: Option<nat>)
    requires ExecutedInv(s) && StatesInv(c, s)
    ensures StatesInv(c, CallbackNext(c, s, ok, outcome))
  {
    var t := CallbackNext(c, s, ok, outcome);
    assert Applying(t) == Applying(s) && s.executed <= t.executed;
    forall state | Held(t, state)
      ensures Sound(c, t, state)
    {
      CallbackHolds(c, s, ok, outcome, state);
      if Held(s, state) {
        StaysSound(c, s, t, state);
      } else {
        assert Held(s, s.sequencerState);
        assert Applying(t)[s.taken - 1].blockHash == state.head;
      }
    }
  }

  lemma ConfirmKeepsStatesInv(c: Config, s: Node, ok: bool)
    requires FirmInv(s) && StatesInv(c, s)
    ensures StatesInv(c, ConfirmNext(s, ok))
  {
    var t := ConfirmNext(s, ok);
    assert Applying(t) == Applying(s) && s.executed == t.executed;
    forall state | Held(t, state)
      ensures Sound(c, t, state)
    {
      ConfirmHolds(s, ok, state);
      assert Held(s, s.sequencerState);
      StaysSound(c, s, t, if Held(s, state) then state else s.sequencerState);
    }
  }

  /** The other steps touch nothing that forkchoice depends on. */
  lemma OthersKeepStatesInv(c: Config, s: Node, t: Node)
    requires StatesInv(c, s)
    requires t.log == s.log && t.app == s.app && t.callback == s.callback && t.confirm == s.confirm
    requires t.executed == s.executed && t.sent == s.sent
    requires t.clientState == s.clientState && t.sequencerState == s.sequencerState
    ensures StatesInv(c, t)
  {
    forall state | Held(t, state)
      ensures Sound(c, t, state)
    {
      assert Held(s, state);
      StaysSound(c, s, t, state);
    }
  }

  lemma NextKeepsStatesInv(c: Config, s: Node, step: Step)
    requires ExecutedInv(s) && FirmInv(s) && StatesInv(c, s)
    ensures StatesInv(c, Next(c, s, step))
  {
    match step {
      case AppStep(input, ok) => AppKeepsStatesInv(c, s, input, ok);
      case CallbackStep(ok, outcome) => CallbackKeepsStatesInv(c, s, ok, outcome);
      case ConfirmStep(ok) => ConfirmKeepsStatesInv(c, s, ok);
      case BatchStep(input, outcome) => OthersKeepStatesInv(c, s, BatchNext(c, s, input, outcome));
      case TrackStep(index) => OthersKeepStatesInv(c, s, TrackNext(s, index));
      case HeaderStep(height, header, order) => OthersKeepStatesInv(c, s, Track(s, Header(height, header, order)));
    }
  }

  // ---- Every run ----

  lemma {:induction false} RunsKeepInv(c: Config, steps: seq<Step>)
    requires AllAllowed(c, steps)
    ensures ExecutedInv(After(c, steps)) && FirmInv(After(c, steps)) && StatesInv(c, After(c, steps))
  {
    if steps != [] {
      var s, step := After(c, steps[..|steps| - 1]), steps[|steps| - 1];
      AllowedBefore(c, steps);
      RunsKeepInv(c, steps[..|steps| - 1]);
      NextKeepsExecutedInv(c, s, step);
      NextKeepsFirmInv(c, s, step);
      NextKeepsStatesInv(c, s, step);
    }
  }

  /** Firm implies executed implies finalized by consensus. Whatever is tracked, pending or
      confirmed was executed, and what was executed is in the part of the log the callback
      has taken; no confirmation is ever skipped. */
  lemma {:induction false} FirmImpliesExecuted(c: Config, steps: seq<Step>)
    requires AllAllowed(c, steps)
    ensures var s := After(c, steps);
      && (forall x :: x in s.spawned ==> x.blockHash in s.executed)
      && (forall h :: h in s.tracker.pending ==> h in s.executed)
      && (forall x :: x in s.confirmed ==> x.blockHash in s.executed)
      && s.taken <= |s.log| && (forall h :: h in s.executed ==> Names(s.log[..s.taken], h))
      && s.skipped == 0
  {
    RunsKeepInv(c, steps);
  }

  /** Both copies of the forkchoice, every state ever sent to reth, and every one a task is
      about to send or write: head and safe agree, head is genesis or a block consensus
      finalized, and finalized is genesis or an executed block. */
  lemma {:induction false} ForkchoiceIsSound(c: Config, steps: seq<Step>)
    requires AllAllowed(c, steps)
    ensures var s := After(c, steps); forall state :: Held(s, state) ==> Sound(c, s, state)
  {
    RunsKeepInv(c, steps);
  }
}
