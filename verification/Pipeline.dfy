/** One validator's finality pipeline as a step system. The application, the finalization
    callback, the batch loop, the finality tracker and the confirmation handler advance one
    atomic step at a time, in any order; a forkchoice update is a read, a request, its answer
    and a write, and other tasks may run in between. */
module Pipeline {
  import opened Types
  import opened Network
  import opened Forkchoice
  import opened F = Finality
  import B = Batching

  /** What is the same at every step: which block a hash names, where the chain starts, which
      heights this validator leads, and how it submits. */
  datatype Config = Config(
    world: World, h0: nat, genesis: Hash, leads: nat -> bool, batching: bool, maxBatchSize: nat)

  ghost predicate ValidConfig(c: Config) {
    HashesIdentify(c.world) && c.world(c.genesis).number + 1 == c.h0
  }

  /** Finalizing a block, or asking reth to build on the last one. */
  datatype AppPhase =
    | AppIdle
    | BuildRead(state: ForkchoiceState)
    | ApplyRead(block: Block, state: ForkchoiceState)
    | ApplySent(block: Block, state: ForkchoiceState)
    | Applied(block: Block)

  /** Handling one block of the log. */
  datatype CallbackPhase =
    | Waiting
    | Executed(block: Block)
    | SoftRead(block: Block, state: ForkchoiceState)
    | SoftSent(block: Block, state: ForkchoiceState)
    | SoftTaken(block: Block, state: ForkchoiceState)
    | SoftWritten(block: Block)
    | Leading(block: Block)

  /** Handling one confirmation. */
  datatype ConfirmPhase =
    | Listening
    | Checked(confirmation: Confirmation)
    | FirmRead(confirmation: Confirmation, state: ForkchoiceState)
    | FirmSent(confirmation: Confirmation, state: ForkchoiceState)
    | FirmTaken(confirmation: Confirmation, state: ForkchoiceState)

  /** `log` is what the application has emitted and `taken` how much of it the callback has
      received. The last line is history: blocks executed, blocks posted with their
      submissions, and what the tracker has seen and sent. */
  datatype Node = Node(
    log: seq<Block>, app: AppPhase,
    taken: nat, callback: CallbackPhase, executed: set<Hash>,
    clientState: ForkchoiceState, sequencerState: ForkchoiceState, sent: seq<ForkchoiceState>,
    queue: seq<Block>, batch: B.Loop, spawned: seq<Submission>,
    tracker: Tracker, channel: seq<Confirmation>, confirm: ConfirmPhase, skipped: nat,
    done: seq<Block>, posted: seq<Block>, submitted: seq<Submission>,
    events: seq<Event>, confirmed: seq<Confirmation>)

  function Start(c: Config): Node {
    Node([], AppIdle, 0, Waiting, {}, Genesis(c.genesis), Genesis(c.genesis), [Genesis(c.genesis)],
         [], B.EMPTY_LOOP, [], NEW_TRACKER, [], Listening, 0, [], [], [], [], [])
  }

  // ---- Steps ----

  datatype AppInput = Build | Accept(block: Block, imported: bool)

  datatype BatchInput = Tick | Take | Close

  /** `ok` is reth's verdict where a step waits for one; `outcome` the Celestia height of a
      submission that goes through. `index` picks the spawned task that gets to run. */
  datatype Step =
    | AppStep(input: AppInput, ok: bool)
    | CallbackStep(ok: bool, outcome: Option<nat>)
    | BatchStep(batchInput: BatchInput, outcome: Option<nat>)
    | TrackStep(index: nat)
    | HeaderStep(celestiaHeight: nat, header: Hash, order: seq<Hash>)
    | ConfirmStep(ok: bool)

  function Send(s: Node, state: ForkchoiceState): Node { s.(sent := s.sent + [state]) }

  function AppNext(c: Config, s: Node, input: AppInput, ok: bool): Node {
    match s.app
    case AppIdle =>
      (match input
       case Build => s.(app := BuildRead(s.clientState.WithSoft(LastHash(c.genesis, s.log))))
       case Accept(b, imported) =>
         s.(app := if imported then ApplyRead(b, s.clientState.WithSoft(b.blockHash)) else Applied(b)))
    case BuildRead(state) => Send(s, state).(app := AppIdle)
    case ApplyRead(b, state) => Send(s, state).(app := ApplySent(b, state))
    case ApplySent(b, state) => s.(app := Applied(b), clientState := if ok then state else s.clientState)
    case Applied(b) => s.(app := AppIdle, log := s.log + [b])
  }

  function SubmissionOf(b: Block, celestiaHeight: nat): Submission {
    Submission(b.blockHash, b.height, celestiaHeight)
  }

  function SubmissionsOf(blocks: seq<Block>, celestiaHeight: nat): (subs: seq<Submission>)
    ensures |subs| == |blocks|
    ensures forall i :: 0 <= i < |subs| ==> subs[i] == SubmissionOf(blocks[i], celestiaHeight)
  {
    if blocks == [] then []
    else SubmissionsOf(blocks[..|blocks| - 1], celestiaHeight) + [SubmissionOf(blocks[|blocks| - 1], celestiaHeight)]
  }

  /** The blocks are on Celestia; each gets a task that will have it tracked. */
  function Post(s: Node, blocks: seq<Block>, celestiaHeight: nat): Node {
    var subs := SubmissionsOf(blocks, celestiaHeight);
    s.(posted := s.posted + blocks, submitted := s.submitted + subs, spawned := s.spawned + subs)
  }

  function PassOn(c: Config, s: Node, b: Block, outcome: Option<nat>): Node {
    if c.batching then (if s.batch.running then s.(queue := s.queue + [b]) else s)
    else if outcome.Some? then Post(s, [b], outcome.value)
    else s
  }

  function CallbackNext(c: Config, s: Node, ok: bool, outcome: Option<nat>): Node {
    match s.callback
    case Waiting =>
      if s.taken >= |s.log| then s
      else s.(taken := s.taken + 1, callback := if ok then Executed(s.log[s.taken]) else Waiting)
    case Executed(b) => s.(callback := SoftRead(b, s.sequencerState.WithSoft(b.blockHash)))
    case SoftRead(b, state) => Send(s, state).(callback := SoftSent(b, state))
    case SoftSent(b, state) =>
      if ok then s.(clientState := state, callback := SoftTaken(b, state)) else s.(callback := Waiting)
    case SoftTaken(b, state) => s.(sequencerState := state, callback := SoftWritten(b))
    case SoftWritten(b) =>
      s.(executed := s.executed + {b.blockHash}, done := s.done + [b],
         callback := if c.leads(b.height) then Leading(b) else Waiting)
    case Leading(b) => PassOn(c, s, b, outcome).(callback := Waiting)
  }

  /** The loop's step, and the posting that follows if a batch landed. */
  function BatchRun(s: Node, e: B.Event, outcome: Option<nat>, maxBatchSize: nat): Node {
    var batch := s.batch.Step(e, outcome, maxBatchSize);
    if |batch.landed| > |s.batch.landed| then
      var landed := batch.landed[|batch.landed| - 1];
      Post(s, landed.blocks, landed.celestiaHeight).(batch := batch)
    else
      s.(batch := batch)
  }

  function BatchNext(c: Config, s: Node, input: BatchInput, outcome: Option<nat>): Node {
    if !c.batching || !s.batch.running then s
    else match input
      case Tick => BatchRun(s, B.Tick, outcome, c.maxBatchSize)
      case Take =>
        if s.queue == [] then s
        else BatchRun(s.(queue := s.queue[1..]), B.Received(s.queue[0]), outcome, c.maxBatchSize)
      case Close => if s.queue == [] then BatchRun(s, B.QueueClosed, outcome, c.maxBatchSize) else s
  }

  function Track(s: Node, e: Event): Node {
    var (tracker, cs) := F.Step(s.tracker, e);
    s.(tracker := tracker, channel := s.channel + cs, events := s.events + [e], confirmed := s.confirmed + cs)
  }

  function TrackNext(s: Node, index: nat): Node {
    if index >= |s.spawned| then s
    else Track(s.(spawned := s.spawned[..index] + s.spawned[index + 1..]), Tracked(s.spawned[index]))
  }

  function ConfirmNext(s: Node, ok: bool): Node {
    match s.confirm
    case Listening =>
      if s.channel == [] then s
      else
        var t := s.(channel := s.channel[1..]);
        if s.channel[0].blockHash in s.executed then t.(confirm := Checked(s.channel[0]))
        else t.(skipped := s.skipped + 1)
    case Checked(x) => s.(confirm := FirmRead(x, s.sequencerState.WithFirm(x.blockHash)))
    case FirmRead(x, state) => Send(s, state).(confirm := FirmSent(x, state))
    case FirmSent(x, state) =>
      if ok then s.(clientState := state, confirm := FirmTaken(x, state)) else s.(confirm := Listening)
    case FirmTaken(x, state) => s.(sequencerState := state, confirm := Listening)
  }

  function Next(c: Config, s: Node, step: Step): Node {
    match step
    case AppStep(input, ok) => AppNext(c, s, input, ok)
    case CallbackStep(ok, outcome) => CallbackNext(c, s, ok, outcome)
    case BatchStep(input, outcome) => BatchNext(c, s, input, outcome)
    case TrackStep(index) => TrackNext(s, index)
    case HeaderStep(height, header, order) => Track(s, Header(height, header, order))
    case ConfirmStep(ok) => ConfirmNext(s, ok)
  }

  // ---- Runs ----

  /** The application accepts the block named by its hash at the height it expects (as every
      emitted log has it: `FirmAgreement.EmittedLogsAreAllowed`), and a header visits the
      pending entries in some order. Nothing else is assumed of the steps. */
  ghost predicate Allowed(c: Config, s: Node, step: Step) {
    match step
    case AppStep(Accept(b, _), _) => b == BlockOf(c.world, b.blockHash) && b.height == c.h0 + |s.log|
    case HeaderStep(_, _, order) => Visits(s.tracker, order)
    case _ => true
  }

  function After(c: Config, steps: seq<Step>): Node {
    if steps == [] then Start(c)
    else Next(c, After(c, steps[..|steps| - 1]), steps[|steps| - 1])
  }

  ghost predicate AllAllowed(c: Config, steps: seq<Step>) {
    forall k :: 0 <= k < |steps| ==> Allowed(c, After(c, steps[..k]), steps[k])
  }

  lemma {:induction false} AllowedBefore(c: Config, steps: seq<Step>)
    requires steps != [] && AllAllowed(c, steps)
    ensures AllAllowed(c, steps[..|steps| - 1])
    ensures Allowed(c, After(c, steps[..|steps| - 1]), steps[|steps| - 1])
  {
    var before := steps[..|steps| - 1];
    forall k | 0 <= k < |before|
      ensures Allowed(c, After(c, before[..k]), before[k])
    {
      assert before[..k] == steps[..k];
    }
  }

  predicate Names(blocks: seq<Block>, h: Hash) {
    exists i :: 0 <= i < |blocks| && blocks[i].blockHash == h
  }
}
