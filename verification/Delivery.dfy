/** Nothing gets stuck: as long as the batch loop runs, every node that can be reached goes on
    to execute the rest of its log, post every block it leads, and have all of them confirmed
    and firm, if from then on reth and Celestia answer well. Once the loop has ended, nothing
    is posted any more. */
module Delivery {
  import opened Types
  import opened Forkchoice
  import opened F = Finality
  import FO = FinalityOrder
  import B = Batching
  import opened Pipeline
  import opened Causality
  import opened HandOff
  import opened Conservation

  ghost predicate Reached(c: Config, steps: seq<Step>, s: Node) {
    AllAllowed(c, steps) && After(c, steps) == s
  }

  lemma {:induction false} OneStep(c: Config, steps: seq<Step>, s: Node, step: Step) returns (longer: seq<Step>)
    requires Reached(c, steps, s) && Allowed(c, s, step)
    ensures steps <= longer && Reached(c, longer, Next(c, s, step))
  {
    longer := steps + [step];
    assert longer[..|steps|] == steps;
    forall k | 0 <= k < |longer|
      ensures Allowed(c, After(c, longer[..k]), longer[k])
    {
      if k < |steps| {
        assert longer[..k] == steps[..k];
      }
    }
  }

  // ---- The callback ----

  /** Blocks executed, in hand, and still to come. */
  function Executable(s: Node): seq<Block>
    requires s.taken <= |s.log|
  {
    s.done + (if BlockInHand(s.callback).Some? && !s.callback.Leading? then [BlockInHand(s.callback).value] else [])
    + s.log[s.taken..]
  }

  function Rank(p: CallbackPhase): nat {
    match p
    case Waiting => 0
    case Executed(_) => 6
    case SoftRead(_, _) => 5
    case SoftSent(_, _) => 4
    case SoftTaken(_, _) => 3
    case SoftWritten(_) => 2
    case Leading(_) => 1
  }

  /** Everything the callback does not touch. */
  predicate CallbackFrame(s: Node, t: Node) {
    && t.log == s.log && t.batch == s.batch && t.posted == s.posted && t.confirm == s.confirm
    && t.confirmed == s.confirmed && t.tracker == s.tracker && t.spawned == s.spawned && t.channel == s.channel
  }

  lemma CallbackGoesOn(c: Config, s: Node)
    requires c.batching && s.taken <= |s.log| && (s.taken < |s.log| || !s.callback.Waiting?)
    ensures var t := CallbackNext(c, s, true, None);
      && t.taken <= |t.log| && CallbackFrame(s, t)
      && 7 * (|t.log| - t.taken) + Rank(t.callback) < 7 * (|s.log| - s.taken) + Rank(s.callback)
      && Executable(t) == Executable(s)
  {
    var t := CallbackNext(c, s, true, None);
    if s.callback.Waiting? {
      assert s.log[s.taken..] == [s.log[s.taken]] + s.log[s.taken + 1..];
    }
  }

  lemma {:induction false} CatchUp(c: Config, steps: seq<Step>, s: Node) returns (longer: seq<Step>, t: Node)
    requires Reached(c, steps, s) && c.batching && s.taken <= |s.log|
    ensures steps <= longer && Reached(c, longer, t) && CallbackFrame(s, t)
    ensures t.taken == |t.log| && t.callback.Waiting? && t.done == Executable(s)
    decreases 7 * (|s.log| - s.taken) + Rank(s.callback)
  {
    if s.callback.Waiting? && s.taken == |s.log| {
      longer, t := steps, s;
      assert s.done + [] + [] == s.done;
    } else {
      CallbackGoesOn(c, s);
      longer := OneStep(c, steps, s, CallbackStep(true, None));
      longer, t := CatchUp(c, longer, CallbackNext(c, s, true, None));
    }
  }

  // ---- The batch loop ----

  predicate BatchFrame(s: Node, t: Node) {
    && t.log == s.log && t.taken == s.taken && t.callback == s.callback && t.done == s.done
    && t.confirm == s.confirm && t.confirmed == s.confirmed && t.channel == s.channel
  }

  lemma TakeGoesOn(c: Config, s: Node, celestiaHeight: nat)
    requires c.batching && s.batch.running && s.queue != []
    ensures var t := BatchNext(c, s, Take, Some(celestiaHeight));
      t.batch.running && t.queue == s.queue[1..] && BatchFrame(s, t)
  {
  }

  lemma {:induction false} TakeAll(c: Config, steps: seq<Step>, s: Node, celestiaHeight: nat)
    returns (longer: seq<Step>, t: Node)
    requires Reached(c, steps, s) && c.batching && s.batch.running
    ensures steps <= longer && Reached(c, longer, t) && BatchFrame(s, t)
    ensures t.batch.running && t.queue == []
    decreases |s.queue|
  {
    if s.queue == [] {
      longer, t := steps, s;
    } else {
      TakeGoesOn(c, s, celestiaHeight);
      longer := OneStep(c, steps, s, BatchStep(Take, Some(celestiaHeight)));
      longer, t := TakeAll(c, longer, BatchNext(c, s, Take, Some(celestiaHeight)), celestiaHeight);
    }
  }

  lemma TickGoesOn(c: Config, s: Node, celestiaHeight: nat)
    requires c.batching && s.batch.running
    ensures var t := BatchNext(c, s, Tick, Some(celestiaHeight));
      t.batch.running && t.batch.pendingBlocks == [] && t.queue == s.queue && BatchFrame(s, t)
  {
  }

  // ---- The tracker ----

  predicate TrackFrame(s: Node, t: Node) {
    && t.log == s.log && t.taken == s.taken && t.callback == s.callback && t.done == s.done
    && t.batch == s.batch && t.queue == s.queue && t.posted == s.posted
    && t.confirm == s.confirm && t.executed == s.executed
  }

  lemma TrackGoesOn(s: Node)
    requires s.spawned != []
    ensures var t := TrackNext(s, 0);
      && TrackFrame(s, t) && t.spawned == s.spawned[1..] && t.confirmed == s.confirmed && t.channel == s.channel
  {
    assert s.spawned[..0] + s.spawned[1..] == s.spawned[1..];
  }

  lemma {:induction false} TrackAll(c: Config, steps: seq<Step>, s: Node) returns (longer: seq<Step>, t: Node)
    requires Reached(c, steps, s)
    ensures steps <= longer && Reached(c, longer, t) && TrackFrame(s, t)
    ensures t.spawned == [] && t.confirmed == s.confirmed && t.channel == s.channel
    decreases |s.spawned|
  {
    if s.spawned == [] {
      longer, t := steps, s;
    } else {
      TrackGoesOn(s);
      longer := OneStep(c, steps, s, TrackStep(0));
      longer, t := TrackAll(c, longer, TrackNext(s, 0));
    }
  }

  lemma {:induction false} AboveAll(pending: map<Hash, Pending>, keys: set<Hash>) returns (celestiaHeight: nat)
    requires keys <= pending.Keys
    ensures forall h :: h in keys ==> pending[h].celestiaHeight <= celestiaHeight
    decreases keys
  {
    celestiaHeight := 0;
    if keys != {} {
      var h :| h in keys;
      celestiaHeight := AboveAll(pending, keys - {h});
      if celestiaHeight < pending[h].celestiaHeight {
        celestiaHeight := pending[h].celestiaHeight;
      }
    }
  }

  /** A header late enough confirms everything that is pending. */
  lemma {:induction false} LateHeader(c: Config, steps: seq<Step>, s: Node) returns (longer: seq<Step>, t: Node)
    requires Reached(c, steps, s)
    ensures steps <= longer && Reached(c, longer, t) && TrackFrame(s, t)
    ensures t.spawned == s.spawned && t.tracker.pending == map[]
    ensures exists cs: seq<Confirmation> :: t.confirmed == s.confirmed + cs && t.channel == s.channel + cs
  {
    var celestiaHeight := AboveAll(s.tracker.pending, s.tracker.pending.Keys);
    var order := FO.SomeOrder(s.tracker.pending.Keys);
    longer := OneStep(c, steps, s, HeaderStep(celestiaHeight, 0, order));
    t := Track(s, Header(celestiaHeight, 0, order));
    HeaderConfirmsTheDue(s.tracker, celestiaHeight, 0, order);
    var cs := s.tracker.OnCelestiaFinality(celestiaHeight, 0, order).1;
    assert t.confirmed == s.confirmed + cs && t.channel == s.channel + cs;
    assert forall h :: h !in t.tracker.pending;
  }

  // ---- The confirmation handler ----

  predicate ConfirmFrame(s: Node, t: Node) {
    && t.log == s.log && t.taken == s.taken && t.callback == s.callback && t.done == s.done
    && t.batch == s.batch && t.queue == s.queue && t.posted == s.posted && t.executed == s.executed
    && t.confirmed == s.confirmed && t.spawned == s.spawned && t.tracker == s.tracker && t.submitted == s.submitted
  }

  function Left(p: ConfirmPhase): nat {
    match p
    case Listening => 0
    case Checked(_) => 4
    case FirmRead(_, _) => 3
    case FirmSent(_, _) => 2
    case FirmTaken(_, _) => 1
  }

  /** The confirmation in hand is on its way to making `h` finalized. */
  predicate Carries(s: Node, h: Hash) {
    match s.confirm
    case Listening => s.sequencerState.finalized == h && s.clientState.finalized == h
    case Checked(x) => x.blockHash == h
    case FirmRead(_, state) => state.finalized == h
    case FirmSent(_, state) => state.finalized == h
    case FirmTaken(_, state) => state.finalized == h && s.clientState.finalized == h
  }

  lemma ConfirmGoesOn(s: Node, h: Hash)
    requires !s.confirm.Listening?
    ensures var t := ConfirmNext(s, true);
      && ConfirmFrame(s, t) && t.channel == s.channel && Left(t.confirm) < Left(s.confirm)
      && (Carries(s, h) ==> Carries(t, h))
  {
  }

  /** Whatever confirmation is in hand is seen through. */
  lemma {:induction false} FinishConfirming(c: Config, steps: seq<Step>, s: Node, h: Hash)
    returns (longer: seq<Step>, t: Node)
    requires Reached(c, steps, s)
    ensures steps <= longer && Reached(c, longer, t) && ConfirmFrame(s, t)
    ensures t.confirm.Listening? && t.channel == s.channel
    ensures Carries(s, h) ==> Carries(t, h)
    decreases Left(s.confirm)
  {
    longer, t := steps, s;
    if !s.confirm.Listening? {
      ConfirmGoesOn(s, h);
      longer := OneStep(c, steps, s, ConfirmStep(true));
      longer, t := FinishConfirming(c, longer, ConfirmNext(s, true), h);
    }
  }

  lemma ConfirmStarts(s: Node)
    requires s.confirm.Listening? && s.channel != [] && s.channel[0].blockHash in s.executed
    ensures var t := ConfirmNext(s, true);
      && ConfirmFrame(s, t) && t.channel == s.channel[1..] && t.confirm == Checked(s.channel[0])
  {
  }

  lemma {:induction false} ConfirmOne(c: Config, steps: seq<Step>, s: Node) returns (longer: seq<Step>, t: Node)
    requires Reached(c, steps, s) && s.confirm.Listening?
    requires s.channel != [] && s.channel[0].blockHash in s.executed
    ensures steps <= longer && Reached(c, longer, t) && ConfirmFrame(s, t)
    ensures t.confirm.Listening? && t.channel == s.channel[1..] && Carries(t, s.channel[0].blockHash)
  {
    ConfirmStarts(s);
    longer := OneStep(c, steps, s, ConfirmStep(true));
    longer, t := FinishConfirming(c, longer, ConfirmNext(s, true), s.channel[0].blockHash);
  }

  /** Every confirmation in the channel is handled, and the last one decides. */
  lemma {:induction false} ConfirmAll(c: Config, steps: seq<Step>, s: Node) returns (longer: seq<Step>, t: Node)
    requires Reached(c, steps, s) && s.confirm.Listening? && AllConfirmationsExecuted(s.channel, s.executed)
    ensures steps <= longer && Reached(c, longer, t) && ConfirmFrame(s, t)
    ensures t.confirm.Listening? && t.channel == []
    ensures forall h :: (if s.channel == [] then Carries(s, h) else s.channel[|s.channel| - 1].blockHash == h) ==>
              Carries(t, h)
    decreases |s.channel|
  {
    if s.channel == [] {
      longer, t := steps, s;
    } else {
      ghost var u;
      longer, u := ConfirmOne(c, steps, s);
      longer, t := ConfirmAll(c, longer, u);
      assert s.channel[1..] != [] ==> s.channel[1..][|s.channel| - 2] == s.channel[|s.channel| - 1];
    }
  }

  // ---- From end to end ----

  /** Every posted block has been confirmed, at the Celestia height it was posted at. */
  ghost predicate AllConfirmed(t: Node) {
    && |t.submitted| == |t.posted|
    && forall i :: 0 <= i < |t.posted| ==>
         && t.submitted[i] == SubmissionOf(t.posted[i], t.submitted[i].celestiaHeight)
         && IsConfirmed(t.confirmed, t.submitted[i])
  }

  lemma ConservedIsConfirmed(t: Node)
    requires Matches(t.posted, t.submitted) && t.spawned == [] && t.tracker.pending == map[]
    requires forall x :: x in t.submitted ==> x in t.spawned || IsPending(t.tracker, x) || IsConfirmed(t.confirmed, x)
    ensures AllConfirmed(t)
  {
    forall i | 0 <= i < |t.submitted|
      ensures IsConfirmed(t.confirmed, t.submitted[i])
    {
      assert t.submitted[i] in t.submitted;
    }
  }

  lemma {:induction false} NothingLeftIsAllConfirmed(c: Config, steps: seq<Step>, t: Node)
    requires Reached(c, steps, t) && t.spawned == [] && t.tracker.pending == map[]
    ensures AllConfirmed(t) && AllConfirmationsExecuted(t.channel, t.executed)
  {
    SubmissionsAreConserved(c, steps);
    RunsKeepInv(c, steps);
    ConservedIsConfirmed(t);
  }

  /** Execute the log and post what this validator leads of it. */
  lemma {:induction false} PostEverything(c: Config, steps: seq<Step>, celestiaHeight: nat)
    returns (longer: seq<Step>, t: Node)
    requires AllAllowed(c, steps) && c.batching && After(c, steps).batch.running
    ensures var s := After(c, steps);
      && steps <= longer && Reached(c, longer, t) && s.taken <= |s.log|
      && t.log == s.log && t.taken == |t.log| && t.callback.Waiting? && t.done == Executable(s)
      && t.batch.running && t.batch.pendingBlocks == [] && t.queue == [] && t.posted == Led(c, t.done)
      && t.confirmed == s.confirmed
  {
    var s := After(c, steps);
    RunsKeepDoneInv(c, steps);
    longer, t := CatchUp(c, steps, s);
    longer, t := TakeAll(c, longer, t, celestiaHeight);
    TickGoesOn(c, t, celestiaHeight);
    longer := OneStep(c, longer, t, BatchStep(Tick, Some(celestiaHeight)));
    t := BatchNext(c, t, Tick, Some(celestiaHeight));
    LedBlocksAreHandedOff(c, longer);
    assert t.posted + [] + [] + [] == t.posted;
  }

  /** Everything posted is confirmed; what was confirmed since is in the channel. */
  lemma {:induction false} TrackEverything(c: Config, steps: seq<Step>) returns (longer: seq<Step>, t: Node)
    requires AllAllowed(c, steps)
    ensures steps <= longer && Reached(c, longer, t) && TrackFrame(After(c, steps), t)
    ensures AllConfirmed(t) && AllConfirmationsExecuted(t.channel, t.executed)
    ensures exists cs: seq<Confirmation> ::
              t.confirmed == After(c, steps).confirmed + cs && t.channel == After(c, steps).channel + cs
  {
    longer, t := TrackAll(c, steps, After(c, steps));
    longer, t := LateHeader(c, longer, t);
    NothingLeftIsAllConfirmed(c, longer, t);
  }

  lemma {:induction false} ConfirmQueued(c: Config, steps: seq<Step>, s: Node) returns (longer: seq<Step>, t: Node)
    requires Reached(c, steps, s) && AllConfirmationsExecuted(s.channel, s.executed)
    ensures steps <= longer && Reached(c, longer, t) && ConfirmFrame(s, t)
    ensures t.confirm.Listening? && t.channel == []
    ensures s.channel != [] ==> Carries(t, s.channel[|s.channel| - 1].blockHash)
  {
    ghost var u;
    longer, u := FinishConfirming(c, steps, s, 0);
    longer, t := ConfirmAll(c, longer, u);
  }

  /** Nodes that differ only in how far confirming has come. */
  predicate SamePosting(s: Node, t: Node) {
    && t.log == s.log && t.taken == s.taken && t.callback == s.callback && t.done == s.done
    && t.batch == s.batch && t.queue == s.queue && t.posted == s.posted
  }

  /** The last confirmation sent is the finalized block of both copies. */
  predicate LastIsFinalized(t: Node) {
    t.confirmed != [] ==>
      && t.sequencerState.finalized == t.confirmed[|t.confirmed| - 1].blockHash
      && t.clientState.finalized == t.confirmed[|t.confirmed| - 1].blockHash
  }

  lemma LastConfirmed(s: Node, u: Node, t: Node, cs: seq<Confirmation>)
    requires u.confirmed == s.confirmed + cs && u.channel == s.channel + cs
    requires t.confirmed == u.confirmed && t.confirm.Listening?
    requires u.channel != [] ==> Carries(t, u.channel[|u.channel| - 1].blockHash)
    ensures s.confirmed <= t.confirmed
    ensures t.confirmed != s.confirmed ==> LastIsFinalized(t)
  {
    if cs == [] {
      assert s.confirmed + cs == s.confirmed;
    }
  }

  /** Have everything posted confirmed and firm. */
  lemma {:induction false} ConfirmEverything(c: Config, steps: seq<Step>) returns (longer: seq<Step>, t: Node)
    requires AllAllowed(c, steps)
    ensures var s := After(c, steps);
      && steps <= longer && Reached(c, longer, t) && SamePosting(s, t)
      && t.channel == [] && t.confirm.Listening? && AllConfirmed(t)
      && s.confirmed <= t.confirmed && (t.confirmed != s.confirmed ==> LastIsFinalized(t))
  {
    ghost var u;
    longer, u := TrackEverything(c, steps);
    longer, t := ConfirmQueued(c, longer, u);
    var s := After(c, steps);
    var cs :| u.confirmed == s.confirmed + cs && u.channel == s.channel + cs;
    LastConfirmed(s, u, t, cs);
  }

  /** From wherever a run has got to, if the batch loop is still running: the rest of the log
      is executed, everything this validator leads of what it executed is on Celestia and
      confirmed, the loop goes on, and the last new confirmation is the finalized block. */
  lemma {:induction false} EverythingLedIsDelivered(c: Config, steps: seq<Step>, celestiaHeight: nat)
    returns (longer: seq<Step>, t: Node)
    requires AllAllowed(c, steps) && c.batching && After(c, steps).batch.running
    ensures AllAllowed(c, longer) && steps <= longer && t == After(c, longer)
    ensures var s := After(c, steps);
      && s.taken <= |s.log| && t.log == s.log && t.taken == |t.log| && t.callback.Waiting?
      && t.done == Executable(s) && s.done <= t.done
      && (forall k :: s.taken <= k < |s.log| ==> s.log[k] in t.done)
      && t.batch.running && t.posted == Led(c, t.done) && AllConfirmed(t)
      && t.channel == [] && t.confirm.Listening?
      && s.confirmed <= t.confirmed && (t.confirmed != s.confirmed ==> LastIsFinalized(t))
  {
    var s := After(c, steps);
    ghost var u;
    longer, u := PostEverything(c, steps, celestiaHeight);
    RestIsExecuted(s);
    longer, t := ConfirmEverything(c, longer);
  }

  lemma RestIsExecuted(s: Node)
    requires s.taken <= |s.log|
    ensures s.done <= Executable(s) && forall k :: s.taken <= k < |s.log| ==> s.log[k] in Executable(s)
  {
    forall k | s.taken <= k < |s.log|
      ensures s.log[k] in Executable(s)
    {
      assert s.log[s.taken..][k - s.taken] == s.log[k];
    }
  }

  // ---- Without the loop ----

  lemma StoppedStep(c: Config, s: Node, step: Step)
    requires c.batching && !s.batch.running
    ensures var t := Next(c, s, step); t.batch == s.batch && t.posted == s.posted && t.queue == s.queue
  {
  }

  /** Once the loop has ended, what has not been posted never will be, whatever happens. */
  lemma {:induction false} NothingMoreIsPosted(c: Config, steps: seq<Step>, longer: seq<Step>)
    requires c.batching && steps <= longer && !After(c, steps).batch.running
    ensures var s, t := After(c, steps), After(c, longer);
      t.batch == s.batch && t.posted == s.posted && t.queue == s.queue
    decreases |longer|
  {
    if |longer| > |steps| {
      NothingMoreIsPosted(c, steps, longer[..|longer| - 1]);
      StoppedStep(c, After(c, longer[..|longer| - 1]), longer[|longer| - 1]);
    } else {
      assert longer == steps;
    }
  }

  // ---- Exactly when ----

  lemma {:induction false} LedGrows(c: Config, s: seq<Block>, t: seq<Block>)
    requires s <= t
    ensures Led(c, s) <= Led(c, t)
  {
    if |s| < |t| {
      LedGrows(c, s, t[..|t| - 1]);
    } else {
      assert s == t;
    }
  }

  /** All that was executed, in hand or still to come in `s` has been executed in `t`, and what
      this validator leads of it is on Celestia and confirmed. */
  ghost predicate Delivered(c: Config, s: Node, t: Node)
    requires s.taken <= |s.log|
  {
    Executable(s) <= t.done && t.posted == Led(c, t.done) && AllConfirmed(t)
  }

  ghost predicate CanDeliver(c: Config, steps: seq<Step>)
    requires After(c, steps).taken <= |After(c, steps).log|
  {
    exists longer :: steps <= longer && AllAllowed(c, longer) && Delivered(c, After(c, steps), After(c, longer))
  }

  lemma {:induction false} StoppedCanDeliver(c: Config, steps: seq<Step>)
    requires AllAllowed(c, steps) && c.batching && After(c, steps).taken <= |After(c, steps).log|
    requires After(c, steps).posted == Led(c, Executable(After(c, steps)))
    ensures CanDeliver(c, steps)
  {
    var s := After(c, steps);
    var longer, t := CatchUp(c, steps, s);
    var u;
    longer, u := ConfirmEverything(c, longer);
    assert Delivered(c, s, u);
  }

  lemma {:induction false} StoppedHasDelivered(c: Config, steps: seq<Step>, longer: seq<Step>)
    requires AllAllowed(c, steps) && c.batching && !After(c, steps).batch.running && steps <= longer
    requires After(c, steps).taken <= |After(c, steps).log|
    requires Delivered(c, After(c, steps), After(c, longer))
    ensures After(c, steps).posted == Led(c, Executable(After(c, steps)))
  {
    var s, t := After(c, steps), After(c, longer);
    NothingMoreIsPosted(c, steps, longer);
    LedBlocksAreHandedOff(c, steps);
    RestIsExecuted(s);
    LedGrows(c, s.done, Executable(s));
    LedGrows(c, Executable(s), t.done);
  }

  /** A run can still deliver everything exactly when its batch loop is running, or there is
      nothing this validator leads left to post. */
  lemma {:induction false} DeliversExactlyWhen(c: Config, steps: seq<Step>)
    requires AllAllowed(c, steps) && c.batching
    ensures var s := After(c, steps);
      && s.taken <= |s.log|
      && (CanDeliver(c, steps) <==> s.batch.running || s.posted == Led(c, Executable(s)))
  {
    RunsKeepInv(c, steps);
    var s := After(c, steps);
    if s.batch.running {
      var longer, t := EverythingLedIsDelivered(c, steps, 0);
      assert Delivered(c, s, t);
    } else if s.posted == Led(c, Executable(s)) {
      StoppedCanDeliver(c, steps);
    } else if CanDeliver(c, steps) {
      var longer :| steps <= longer && AllAllowed(c, longer) && Delivered(c, s, After(c, longer));
      StoppedHasDelivered(c, steps, longer);
    }
  }
}
