/** Forkchoice updates one after the other, and two runs in which they overlap: a finalized
    pointer that goes back to genesis, and one that ends up above head. */
module LostUpdates {
  import opened Types
  import N = Network
  import opened Forkchoice
  import opened F = Finality
  import opened Sorting
  import opened Pipeline
  import opened Ordering

  ghost predicate Reaches(c: Config, steps: seq<Step>, s: Node) {
    AllAllowed(c, steps) && AllInSequence(c, steps) && After(c, steps) == s
  }

  lemma {:induction false} Go(c: Config, steps: seq<Step>, s: Node, step: Step) returns (longer: seq<Step>)
    requires Reaches(c, steps, s) && Allowed(c, s, step) && InSequence(s, step)
    ensures Reaches(c, longer, Next(c, s, step))
  {
    longer := steps + [step];
    assert longer[..|steps|] == steps;
    forall k | 0 <= k < |longer|
      ensures Allowed(c, After(c, longer[..k]), longer[k]) && InSequence(After(c, longer[..k]), longer[k])
    {
      if k < |steps| {
        assert longer[..k] == steps[..k];
      }
    }
  }

  lemma Begin(c: Config) returns (steps: seq<Step>)
    ensures Reaches(c, steps, Start(c))
  {
    steps := [];
  }

  /** The application emits its next block, without reth. */
  lemma EmitAlone(c: Config, steps: seq<Step>, s: Node, b: Block) returns (longer: seq<Step>)
    requires Reaches(c, steps, s) && s.app.AppIdle?
    requires b == N.BlockOf(c.world, b.blockHash) && b.height == c.h0 + |s.log|
    ensures Reaches(c, longer, s.(log := s.log + [b]))
  {
    longer := Go(c, steps, s, AppStep(Accept(b, false), true));
    longer := Go(c, longer, s.(app := Applied(b)), AppStep(Build, true));
  }

  /** The application applies and emits its next block; reth imports it and answers `ok` to
      the forkchoice update. */
  lemma {:induction false} ApplyAlone(c: Config, steps: seq<Step>, s: Node, b: Block, ok: bool)
    returns (longer: seq<Step>)
    requires Reaches(c, steps, s) && s.app.AppIdle?
    requires b == N.BlockOf(c.world, b.blockHash) && b.height == c.h0 + |s.log|
    ensures var state := s.clientState.WithSoft(b.blockHash);
      Reaches(c, longer, s.(log := s.log + [b], sent := s.sent + [state],
                            clientState := if ok then state else s.clientState))
  {
    var state, quiet := s.clientState.WithSoft(b.blockHash), AppStep(Build, ok);
    longer := Go(c, steps, s, AppStep(Accept(b, true), ok));
    longer := Go(c, longer, s.(app := ApplyRead(b, state)), quiet);
    var sent := s.(sent := s.sent + [state]);
    longer := Go(c, longer, sent.(app := ApplySent(b, state)), quiet);
    longer := Go(c, longer, sent.(app := Applied(b), clientState := if ok then state else s.clientState), quiet);
  }

  /** Asking reth to build on the last emitted block leaves both copies alone. */
  lemma {:induction false} BuildAlone(c: Config, steps: seq<Step>, s: Node) returns (longer: seq<Step>)
    requires Reaches(c, steps, s) && s.app.AppIdle?
    ensures Reaches(c, longer,
                    s.(sent := s.sent + [s.clientState.WithSoft(N.LastHash(c.genesis, s.log))]))
  {
    longer := Go(c, steps, s, AppStep(Build, true));
    longer := Go(c, longer, s.(app := BuildRead(s.clientState.WithSoft(N.LastHash(c.genesis, s.log)))),
                 AppStep(Build, true));
  }

  /** What handling a block from start to end, with nothing in between, comes to. */
  function SoftAfter(s: Node): Node
    requires s.taken < |s.log|
  {
    var b := s.log[s.taken];
    var state := s.sequencerState.WithSoft(b.blockHash);
    s.(taken := s.taken + 1, executed := s.executed + {b.blockHash}, done := s.done + [b],
       clientState := state, sequencerState := state, sent := s.sent + [state])
  }

  lemma SoftUpdateAlone(c: Config, steps: seq<Step>, s: Node) returns (longer: seq<Step>)
    requires Reaches(c, steps, s) && s.callback.Waiting? && s.taken < |s.log|
    ensures Reaches(c, longer, SoftAfter(s).(executed := s.executed, done := s.done,
                                             callback := SoftWritten(s.log[s.taken])))
  {
    var b, t := s.log[s.taken], s.(taken := s.taken + 1);
    var state := s.sequencerState.WithSoft(b.blockHash);
    longer := Go(c, steps, s, CallbackStep(true, None));
    longer := Go(c, longer, t.(callback := Executed(b)), CallbackStep(true, None));
    longer := Go(c, longer, t.(callback := SoftRead(b, state)), CallbackStep(true, None));
    longer := SoftWriteAlone(c, longer, t, b, state);
  }

  /** The outcome of handling the next block, with reth's verdict on it and its answer to the
      forkchoice update. */
  function SoftOutcome(s: Node, executes: bool, ok: bool): Node
    requires s.taken < |s.log|
  {
    if executes && ok then SoftAfter(s)
    else if executes then
      s.(taken := s.taken + 1, sent := s.sent + [s.sequencerState.WithSoft(s.log[s.taken].blockHash)])
    else s.(taken := s.taken + 1)
  }

  /** The steps of one handling, run without interruption, do to executed set and pointers
      what `Forkchoice.Sequencer.ProcessFinalizedBlock` states, whatever reth answers, and
      hand the block off exactly when both steps went through and this validator leads. */
  lemma {:induction false} SoftAlone(
    c: Config, steps: seq<Step>, s: Node, executes: bool, ok: bool, outcome: Option<nat>)
    returns (longer: seq<Step>)
    requires Reaches(c, steps, s) && s.callback.Waiting? && s.taken < |s.log|
    requires outcome.Some? ==> NotBelow(s.submitted, outcome.value)
    ensures var b, t := s.log[s.taken], SoftOutcome(s, executes, ok);
      Reaches(c, longer, if executes && ok && c.leads(b.height) then PassOn(c, t, b, outcome) else t)
  {
    if executes && ok {
      longer := SoftUpdateAlone(c, steps, s);
      longer := InsertAlone(c, longer, s);
      if c.leads(s.log[s.taken].height) {
        longer := PassOnAlone(c, longer, SoftAfter(s), s.log[s.taken], outcome);
      }
    } else if executes {
      longer := SoftRefused(c, steps, s);
    } else {
      longer := Go(c, steps, s, CallbackStep(false, None));
    }
  }

  lemma {:induction false} SoftRefused(c: Config, steps: seq<Step>, s: Node) returns (longer: seq<Step>)
    requires Reaches(c, steps, s) && s.callback.Waiting? && s.taken < |s.log|
    ensures Reaches(c, longer, SoftOutcome(s, true, false))
  {
    var b, t := s.log[s.taken], s.(taken := s.taken + 1);
    var state := s.sequencerState.WithSoft(b.blockHash);
    longer := Go(c, steps, s, CallbackStep(true, None));
    longer := Go(c, longer, t.(callback := Executed(b)), CallbackStep(true, None));
    longer := Go(c, longer, t.(callback := SoftRead(b, state)), CallbackStep(true, None));
    longer := Go(c, longer, t.(callback := SoftSent(b, state), sent := s.sent + [state]), CallbackStep(false, None));
  }

  lemma InsertAlone(c: Config, steps: seq<Step>, s: Node) returns (longer: seq<Step>)
    requires s.callback.Waiting? && s.taken < |s.log|
    requires Reaches(c, steps, SoftAfter(s).(executed := s.executed, done := s.done,
                                             callback := SoftWritten(s.log[s.taken])))
    ensures var b := s.log[s.taken];
      Reaches(c, longer, SoftAfter(s).(callback := if c.leads(b.height) then Leading(b) else Waiting))
  {
    var written := SoftAfter(s).(executed := s.executed, done := s.done, callback := SoftWritten(s.log[s.taken]));
    longer := Go(c, steps, written, CallbackStep(true, None));
  }

  lemma PassOnAlone(c: Config, steps: seq<Step>, s: Node, b: Block, outcome: Option<nat>) returns (longer: seq<Step>)
    requires s.callback.Waiting? && Reaches(c, steps, s.(callback := Leading(b)))
    requires outcome.Some? ==> NotBelow(s.submitted, outcome.value)
    ensures Reaches(c, longer, PassOn(c, s, b, outcome))
  {
    longer := Go(c, steps, s.(callback := Leading(b)), CallbackStep(true, outcome));
    PassOnEnds(c, s, b, outcome);
  }

  lemma PassOnEnds(c: Config, s: Node, b: Block, outcome: Option<nat>)
    requires s.callback.Waiting?
    ensures PassOn(c, s.(callback := Leading(b)), b, outcome).(callback := Waiting) == PassOn(c, s, b, outcome)
  {
  }

  /** From the request in flight to the write. */
  lemma SoftWriteAlone(c: Config, steps: seq<Step>, s: Node, b: Block, state: ForkchoiceState)
    returns (longer: seq<Step>)
    requires Reaches(c, steps, s.(callback := SoftSent(b, state), sent := s.sent + [state]))
    ensures Reaches(c, longer, s.(sent := s.sent + [state], clientState := state, sequencerState := state,
                                  callback := SoftWritten(b)))
  {
    var quiet, t := CallbackStep(true, None), s.(sent := s.sent + [state]);
    longer := Go(c, steps, t.(callback := SoftSent(b, state)), quiet);
    longer := Go(c, longer, t.(clientState := state, callback := SoftTaken(b, state)), quiet);
  }

  function FirmAfter(s: Node): Node
    requires s.channel != []
  {
    var state := s.sequencerState.WithFirm(s.channel[0].blockHash);
    s.(channel := s.channel[1..], clientState := state, sequencerState := state, sent := s.sent + [state])
  }

  lemma FirmWriteAlone(c: Config, steps: seq<Step>, s: Node, x: Confirmation, state: ForkchoiceState)
    returns (longer: seq<Step>)
    requires Reaches(c, steps, s.(confirm := FirmRead(x, state)))
    ensures Reaches(c, longer, s.(sent := s.sent + [state], clientState := state, sequencerState := state,
                                  confirm := Listening))
  {
    var t := s.(sent := s.sent + [state]);
    longer := Go(c, steps, s.(confirm := FirmRead(x, state)), ConfirmStep(true));
    longer := Go(c, longer, t.(confirm := FirmSent(x, state)), ConfirmStep(true));
    longer := Go(c, longer, t.(clientState := state, confirm := FirmTaken(x, state)), ConfirmStep(true));
  }

  /** The outcome of handling the next confirmation, with reth's answer. */
  function FirmOutcome(s: Node, ok: bool): Node
    requires s.channel != []
  {
    var t, h := s.(channel := s.channel[1..]), s.channel[0].blockHash;
    if h !in s.executed then t.(skipped := s.skipped + 1)
    else if ok then FirmAfter(s)
    else t.(sent := s.sent + [s.sequencerState.WithFirm(h)])
  }

  /** The same for a confirmation and `Forkchoice.Sequencer.HandleFinalityConfirmation`:
      skipped when its block was not executed, refused, or written. */
  lemma {:induction false} FirmAlone(c: Config, steps: seq<Step>, s: Node, ok: bool) returns (longer: seq<Step>)
    requires Reaches(c, steps, s) && s.confirm.Listening? && s.channel != []
    ensures Reaches(c, longer, FirmOutcome(s, ok))
  {
    var x, t := s.channel[0], s.(channel := s.channel[1..]);
    var state := s.sequencerState.WithFirm(x.blockHash);
    longer := Go(c, steps, s, ConfirmStep(ok));
    if x.blockHash in s.executed {
      longer := Go(c, longer, t.(confirm := Checked(x)), ConfirmStep(ok));
      if ok {
        longer := FirmWriteAlone(c, longer, t, x, state);
      } else {
        longer := Go(c, longer, t.(confirm := FirmRead(x, state)), ConfirmStep(ok));
        longer := Go(c, longer, t.(confirm := FirmSent(x, state), sent := s.sent + [state]), ConfirmStep(ok));
      }
    }
  }

  // ---- Two overlaps ----

  /** The block with hash n is block n; this validator leads always and posts every block at
      once. */
  function LineConfig(): Config {
    Config((h: Hash) => Payload(h, h, 0, 0, 0, []), 1, 0, (h: nat) => true, false, 0)
  }

  function LineBlock(n: Hash): Block { Block(n, 0, 0, 0, [], n) }

  function FirstSubmission(): Submission { Submission(1, 1, 5) }

  function FirstConfirmation(): Confirmation { Confirmation(1, 1, 5, 0) }

  function TwoEmitted(): Node {
    Start(LineConfig()).(log := [LineBlock(1), LineBlock(2)])
  }

  /** Block 1 is executed and posted at Celestia height 5. */
  function OnePosted(): Node {
    var state := ForkchoiceState(1, 1, 0);
    TwoEmitted().(
      taken := 1, executed := {1}, done := [LineBlock(1)],
      clientState := state, sequencerState := state, sent := [Genesis(0), state],
      posted := [LineBlock(1)], submitted := [FirstSubmission()], spawned := [FirstSubmission()])
  }

  /** Block 1 is tracked and confirmed. */
  function OneConfirmed(): Node {
    OnePosted().(
      spawned := [], tracker := Tracker(map[], 5), events := [Tracked(FirstSubmission()), Header(5, 0, [1])],
      channel := [FirstConfirmation()], confirmed := [FirstConfirmation()])
  }

  lemma ReachTwoEmitted() returns (steps: seq<Step>)
    ensures Reaches(LineConfig(), steps, TwoEmitted())
  {
    var c := LineConfig();
    steps := Begin(c);
    steps := EmitAlone(c, steps, Start(c), LineBlock(1));
    assert [] + [LineBlock(1)] == [LineBlock(1)];
    steps := EmitAlone(c, steps, Start(c).(log := [LineBlock(1)]), LineBlock(2));
    assert [LineBlock(1)] + [LineBlock(2)] == [LineBlock(1), LineBlock(2)];
  }

  lemma PostOne(c: Config, s: Node, b: Block, celestiaHeight: nat)
    requires !c.batching
    ensures PassOn(c, s, b, Some(celestiaHeight)) == s.(
      posted := s.posted + [b], submitted := s.submitted + [SubmissionOf(b, celestiaHeight)],
      spawned := s.spawned + [SubmissionOf(b, celestiaHeight)])
  {
    assert SubmissionsOf([b], celestiaHeight) == [SubmissionOf(b, celestiaHeight)];
  }

  lemma ReachOnePosted() returns (steps: seq<Step>)
    ensures Reaches(LineConfig(), steps, OnePosted())
  {
    steps := ReachTwoEmitted();
    steps := SoftAlone(LineConfig(), steps, TwoEmitted(), true, true, Some(5));
    PostOne(LineConfig(), SoftAfter(TwoEmitted()), LineBlock(1), 5);
    assert PassOn(LineConfig(), SoftAfter(TwoEmitted()), LineBlock(1), Some(5)) == OnePosted();
  }

  /** A header that reaches the one pending submission confirms it. */
  lemma ConfirmOne(x: Submission, from: nat)
    ensures var t := Tracker(map[x.blockHash := Pending(x.blockHeight, x.celestiaHeight)], from);
      && Visits(t, [x.blockHash])
      && t.OnCelestiaFinality(x.celestiaHeight, 0, [x.blockHash])
         == (Tracker(map[], x.celestiaHeight), [Confirmation(x.blockHash, x.blockHeight, x.celestiaHeight, 0)])
  {
    var t := Tracker(map[x.blockHash := Pending(x.blockHeight, x.celestiaHeight)], from);
    assert t.Due(x.celestiaHeight) == {x.blockHash};
    assert t.pending - {x.blockHash} == map[];
    assert [x.blockHash][..0] == [];
    var y := Confirmation(x.blockHash, x.blockHeight, x.celestiaHeight, 0);
    assert t.Collect(x.celestiaHeight, 0, [x.blockHash]) == [] + [y];
    SortOne(y);
  }

  lemma SortOne(y: Confirmation)
    ensures StableSort(HeightOf, [] + [y]) == [y]
  {
    assert ([] + [y])[1..] == [];
    assert StableSort(HeightOf, [] + [y]) == Insert(HeightOf, y, []);
  }

  /** The one spawned task runs, and a header confirms what it tracked. */
  lemma TrackAndConfirm(c: Config, steps: seq<Step>, s: Node, x: Submission) returns (longer: seq<Step>)
    requires Reaches(c, steps, s) && s.spawned == [x] && s.tracker.pending == map[]
    ensures var y := Confirmation(x.blockHash, x.blockHeight, x.celestiaHeight, 0);
      Reaches(c, longer, s.(
        spawned := [], tracker := Tracker(map[], x.celestiaHeight),
        events := s.events + [Tracked(x)] + [Header(x.celestiaHeight, 0, [x.blockHash])],
        channel := s.channel + [y], confirmed := s.confirmed + [y]))
  {
    var tracker := Tracker(map[x.blockHash := Pending(x.blockHeight, x.celestiaHeight)], s.tracker.finalizedHeight);
    var t := s.(spawned := [], tracker := tracker, events := s.events + [Tracked(x)]);
    longer := Go(c, steps, s, TrackStep(0));
    assert TrackNext(s, 0) == t by {
      assert s.spawned[..0] + s.spawned[1..] == [];
      assert s.channel + [] == s.channel && s.confirmed + [] == s.confirmed;
      assert s.tracker.Track(x) == tracker;
    }
    ConfirmOne(x, s.tracker.finalizedHeight);
    longer := Go(c, longer, t, HeaderStep(x.celestiaHeight, 0, [x.blockHash]));
  }

  lemma ReachOneConfirmed() returns (steps: seq<Step>)
    ensures Reaches(LineConfig(), steps, OneConfirmed())
  {
    steps := ReachOnePosted();
    steps := TrackAndConfirm(LineConfig(), steps, OnePosted(), FirstSubmission());
    assert [] + [Tracked(FirstSubmission())] + [Header(5, 0, [1])] == OneConfirmed().events;
    assert [] + [FirstConfirmation()] == [FirstConfirmation()];
  }

  /** Handling block 2 reads the pointers, block 1 becomes firm, block 2 writes what it read. */
  lemma {:induction false} FinalizedFallsBack() returns (steps: seq<Step>, step: Step)
    ensures var c, s := LineConfig(), After(LineConfig(), steps);
      && ValidConfig(c) && AllAllowed(c, steps) && AllInSequence(c, steps)
      && s.sequencerState == ForkchoiceState(1, 1, 1)
      && Next(c, s, step).sequencerState == ForkchoiceState(2, 2, 0)
  {
    var c, reading := LineConfig(), ReadingTwo();
    step := CallbackStep(true, None);
    steps := ReachReadingTwo();
    steps := FirmAlone(c, steps, reading, true);
    var firm := FirmAfter(reading);
    steps := Go(c, steps, firm, step);
    steps := Go(c, steps, Next(c, firm, step), step);
  }

  /** Block 2 is executed and its snapshot taken, with block 1 still to be made firm. */
  function ReadingTwo(): Node {
    OneConfirmed().(taken := 2, callback := SoftRead(LineBlock(2), ForkchoiceState(2, 2, 0)))
  }

  lemma ReachReadingTwo() returns (steps: seq<Step>)
    ensures Reaches(LineConfig(), steps, ReadingTwo())
  {
    var c, step := LineConfig(), CallbackStep(true, None);
    steps := ReachOneConfirmed();
    steps := Go(c, steps, OneConfirmed(), step);
    steps := Go(c, steps, OneConfirmed().(taken := 2, callback := Executed(LineBlock(2))), step);
  }

  /** Firming up block 1 reads the pointers, block 2 is executed, posted and confirmed, block
      1 is written with the head it read, and then block 2 becomes firm on top of it. */
  lemma {:induction false} FinalizedPassesHead() returns (steps: seq<Step>)
    ensures var c := LineConfig();
      && ValidConfig(c) && AllAllowed(c, steps) && AllInSequence(c, steps)
      && After(c, steps).sequencerState == ForkchoiceState(1, 1, 2)
  {
    var c, x := LineConfig(), FirstConfirmation();
    var snapshot := ForkchoiceState(1, 1, 1);
    var s := OneConfirmed().(channel := []);
    steps := ReachOneConfirmed();
    steps := Go(c, steps, OneConfirmed(), ConfirmStep(true));
    assert OneConfirmed().channel[1..] == [];
    steps := Go(c, steps, s.(confirm := Checked(x)), ConfirmStep(true));
    var reading := s.(confirm := FirmRead(x, snapshot));
    assert After(c, steps) == reading;
    steps := SoftAlone(c, steps, reading, true, true, Some(6));
    PostOne(c, SoftAfter(reading), LineBlock(2), 6);
    var posted := PassOn(c, SoftAfter(reading), LineBlock(2), Some(6));
    assert posted.spawned == [Submission(2, 2, 6)];
    steps := TrackAndConfirm(c, steps, posted, Submission(2, 2, 6));
    var confirmed := After(c, steps);
    steps := FirmWriteAlone(c, steps, confirmed.(confirm := Listening), x, snapshot);
    var written := After(c, steps);
    assert written.channel == [Confirmation(2, 2, 6, 0)] && 2 in written.executed;
    steps := FirmAlone(c, steps, written, true);
  }
}
