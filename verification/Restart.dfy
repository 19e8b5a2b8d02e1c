/** A sync that stops anywhere, even inside a line of the index file, and a restart that
    reopens the file and syncs again. */
module Restart {
  import opened Types
  import opened Sorting
  import opened IndexJson
  import opened BlockIndex
  import opened DaSync

  /** What a reopened index holds in memory. */
  ghost function Reopened(fmt: Format, file: string): Maps { PutAll(NO_MAPS, fmt.Recovered(file)) }

  lemma {:induction false} ReopenAfter(fmt: Format, file: string, entries: seq<IndexEntry>, more: string)
    requires fmt.LineFormat() && EndsInNewline(file)
    ensures fmt.Recovered(file + fmt.FileOf(entries) + more) == fmt.Recovered(file) + entries + fmt.Recovered(more)
    ensures EndsInNewline(file + fmt.FileOf(entries))
    ensures EndsInNewline(file + fmt.FileOf(entries) + more) <==> EndsInNewline(more)
  {
    var lines := fmt.FileOf(entries);
    FileEndsInNewline(fmt, entries);
    JoinedEndsInNewline(file, lines);
    RecoveredInTwo(fmt, file, lines);
    RecoveredFile(fmt, entries);
    RecoveredInTwo(fmt, file + lines, more);
    JoinedEndsInNewline(file + lines, more);
  }

  /** The state a stopped sync leaves behind, in terms of the file it started from: `added`
      written whole, and `torn` of the line of the next block in the plan, if it was being
      written. */
  ghost predicate StoppedAt(fmt: Format, start: Maps, plan: seq<Posted>, done: nat, torn: string)
    requires done <= |plan|
  {
    torn == [] ||
    (done < |plan| && plan[done].block.height !in Synced(start, plan[..done]).byHeight
     && torn <= fmt.Line(EntryFor(plan[done])))
  }

  /** How much of the plan the file remembers: a torn line counts when its text is whole. */
  ghost function Remembered(fmt: Format, plan: seq<Posted>, done: nat, torn: string): (n: nat)
    requires done <= |plan| && (torn != [] ==> done < |plan|)
    ensures done <= n <= |plan|
  {
    if torn != [] && |torn| >= |fmt.write(EntryFor(plan[done]))| then done + 1 else done
  }

  lemma {:induction false} AddedOneMore(start: Maps, plan: seq<Posted>, done: nat)
    requires done < |plan| && plan[done].block.height !in Synced(start, plan[..done]).byHeight
    ensures Added(start, plan[..done + 1]) == Added(start, plan[..done]) + [EntryFor(plan[done])]
  {
    assert plan[..done + 1] == plan[..done] + [plan[done]];
    SyncedOne(start, plan[..done], plan[done]);
  }

  /** Reopening finds exactly a state the first sync went through. */
  lemma {:induction false} ReopenedIsAnEarlierState(
    fmt: Format, file: string, plan: seq<Posted>, done: nat, torn: string)
    requires fmt.LineFormat() && EndsInNewline(file) && done <= |plan|
    requires StoppedAt(fmt, Reopened(fmt, file), plan, done, torn)
    ensures var start := Reopened(fmt, file);
            var n := Remembered(fmt, plan, done, torn);
            var left := file + fmt.FileOf(Added(start, plan[..done])) + torn;
            && fmt.Recovered(left) == fmt.Recovered(file) + Added(start, plan[..n])
            && Reopened(fmt, left) == Synced(start, plan[..n])
  {
    var start := Reopened(fmt, file);
    var n := Remembered(fmt, plan, done, torn);
    var added := Added(start, plan[..done]);
    ReopenAfter(fmt, file, added, torn);
    if torn == [] {
      assert fmt.Recovered(file) + added + [] == fmt.Recovered(file) + added;
    } else {
      RecoveredTorn(fmt, EntryFor(plan[done]), torn);
      AddedOneMore(start, plan, done);
      Associative(fmt.Recovered(file), added, fmt.Recovered(torn));
    }
    PutAllAppend(NO_MAPS, fmt.Recovered(file), Added(start, plan[..n]));
  }

  /** Restart after a stop anywhere: the maps at the end of the second sync are those of one
      uninterrupted sync, and it adds to the file what the first had left to do. */
  lemma {:induction false} RestartedSyncCompletes(
    fmt: Format, file: string, posted: seq<Posted>, done: nat, torn: string)
    requires fmt.LineFormat() && EndsInNewline(file)
    requires |Plan(posted)| == |posted| && done <= |posted|
    requires StoppedAt(fmt, Reopened(fmt, file), Plan(posted), done, torn)
    ensures var start, plan := Reopened(fmt, file), Plan(posted);
            var n := Remembered(fmt, plan, done, torn);
            var resumed := Reopened(fmt, file + fmt.FileOf(Added(start, plan[..done])) + torn);
            && Synced(resumed, plan) == Synced(start, plan)
            && Added(start, plan[..n]) + Added(resumed, plan) == Added(start, plan)
  {
    var n := Remembered(fmt, Plan(posted), done, torn);
    ReopenedIsAnEarlierState(fmt, file, Plan(posted), done, torn);
    SyncIsResumable(Reopened(fmt, file), posted, n);
  }

  /** And if more has been posted by the time of the second sync, each height still ends up as
      one sync over everything would have left it. */
  lemma {:induction false} RestartedSyncOverMore(
    fmt: Format, file: string, posted: seq<Posted>, done: nat, torn: string, more: seq<Posted>, h: U64)
    requires fmt.LineFormat() && EndsInNewline(file)
    requires |Plan(posted)| == |posted| && done <= |posted|
    requires StoppedAt(fmt, Reopened(fmt, file), Plan(posted), done, torn)
    ensures var start := Reopened(fmt, file);
            var resumed := Reopened(fmt, file + fmt.FileOf(Added(start, Plan(posted)[..done])) + torn);
            Synced(resumed, Plan(posted + more)).GetByHeight(h) == Synced(start, Plan(posted + more)).GetByHeight(h)
  {
    ReopenedIsAnEarlierState(fmt, file, Plan(posted), done, torn);
    SyncIsResumableOverMore(Reopened(fmt, file), posted, Remembered(fmt, Plan(posted), done, torn), more, h);
  }

  /** The block whose line was torn is the first the second sync adds, unless the text of its
      line was whole: then it is indexed already. */
  lemma {:induction false} TornBlockIsNext(fmt: Format, file: string, posted: seq<Posted>, done: nat, torn: string)
    requires fmt.LineFormat() && EndsInNewline(file)
    requires |Plan(posted)| == |posted| && done <= |posted| && torn != []
    requires StoppedAt(fmt, Reopened(fmt, file), Plan(posted), done, torn)
    ensures var start, plan := Reopened(fmt, file), Plan(posted);
            var resumed := Reopened(fmt, file + fmt.FileOf(Added(start, plan[..done])) + torn);
            var second, e := Added(resumed, plan), EntryFor(plan[done]);
            if |torn| < |fmt.write(e)| then second != [] && second[0] == e
            else Added(start, plan) == Added(start, plan[..done]) + [e] + second
  {
    var start, plan := Reopened(fmt, file), Plan(posted);
    var added, e := Added(start, plan[..done]), EntryFor(plan[done]);
    RestartedSyncCompletes(fmt, file, posted, done, torn);
    AddedOneMore(start, plan, done);
    if |torn| < |fmt.write(e)| {
      SyncIsResumable(start, posted, done + 1);
      var rest := Added(Synced(start, plan[..done + 1]), plan);
      var resumed := Reopened(fmt, file + fmt.FileOf(added) + torn);
      assert (added + [e] + rest)[|added|] == e && (added + Added(resumed, plan))[|added|..] == Added(resumed, plan);
    }
  }

  /** Lines written after a file that ends in `torn`, part of the line of `e` or nothing. */
  lemma {:induction false} WrittenAfter(
    fmt: Format, file: string, added: seq<IndexEntry>, torn: string, e: IndexEntry, second: seq<IndexEntry>)
    requires fmt.LineFormat() && EndsInNewline(file) && torn <= fmt.Line(e)
    ensures var left := file + fmt.FileOf(added) + torn;
            && EndsInNewline(left) == EndsInNewline(torn)
            && fmt.Recovered(left + fmt.FileOf(second)) ==
                 if EndsInNewline(torn) || second == [] then fmt.Recovered(left) + second
                 else fmt.Recovered(file) + added + second[1..]
  {
    var left := file + fmt.FileOf(added) + torn;
    ReopenAfter(fmt, file, added, torn);
    if EndsInNewline(torn) {
      RecoveredInTwo(fmt, left, fmt.FileOf(second));
      RecoveredFile(fmt, second);
    } else if second == [] {
      assert left + fmt.FileOf(second) == left;
      assert fmt.Recovered(left) + [] == fmt.Recovered(left);
    } else {
      RecoveredAfterTorn(fmt, e, torn, second);
      ReopenAfter(fmt, file, added, torn + fmt.FileOf(second));
      Associative(file + fmt.FileOf(added), torn, fmt.FileOf(second));
    }
  }

  /** What the file holds after both syncs, against the log of one uninterrupted sync. If the
      first stopped on a line boundary nothing is missing. Otherwise the second sync's first
      line runs into the torn one: its entry is missing, and with it the torn line's own when
      its text was whole. (A second sync with nothing to add leaves that one in place.) */
  lemma {:induction false} RestartedFileMisses(
    fmt: Format, file: string, posted: seq<Posted>, done: nat, torn: string)
    requires fmt.LineFormat() && EndsInNewline(file)
    requires |Plan(posted)| == |posted| && done <= |posted|
    requires StoppedAt(fmt, Reopened(fmt, file), Plan(posted), done, torn)
    ensures var start, plan := Reopened(fmt, file), Plan(posted);
            var left := file + fmt.FileOf(Added(start, plan[..done])) + torn;
            var second := Added(Reopened(fmt, left), plan);
            && EndsInNewline(left) == EndsInNewline(torn)
            && fmt.Recovered(left + fmt.FileOf(second)) ==
                 if EndsInNewline(torn) || second == [] then fmt.Recovered(file) + Added(start, plan)
                 else fmt.Recovered(file) + Added(start, plan[..done]) + second[1..]
  {
    var start, plan := Reopened(fmt, file), Plan(posted);
    var added := Added(start, plan[..done]);
    var left := file + fmt.FileOf(added) + torn;
    var second := Added(Reopened(fmt, left), plan);
    RestartedSyncCompletes(fmt, file, posted, done, torn);
    ReopenedIsAnEarlierState(fmt, file, plan, done, torn);
    var n := Remembered(fmt, plan, done, torn);
    WrittenAfter(fmt, file, added, torn, if torn == [] then IndexEntry(0, 0, 0, []) else EntryFor(plan[done]), second);
    Associative(fmt.Recovered(file), Added(start, plan[..n]), second);
  }

  /** The two syncs as they are made: stop, reopen, sync again with nothing failing. */
  method StopAndRestart(
    fmt: Format, contents: string, blocks: seq<Posted>, executes: nat -> bool, written: nat -> Option<nat>)
    returns (index: BlockIndex)
    requires fmt.LineFormat() && EndsInNewline(contents)
    ensures fresh(index) && index.format == fmt
    ensures index.State() == Synced(Reopened(fmt, contents), Plan(blocks))
  {
    var first := new BlockIndex.Open(fmt, contents);
    SortedMembers(HeightOf, blocks);
    var _, done, torn := SyncBlockBatch(first, Plan(blocks), executes, written);
    RestartedSyncCompletes(fmt, contents, blocks, done, torn);
    index := new BlockIndex.Open(fmt, first.file);
    var _, reached, _ := SyncBlockBatch(index, Plan(blocks), Always, NeverFails);
    TakeAll(Plan(blocks), reached);
  }

  function Always(i: nat): bool { true }

  function NeverFails(i: nat): Option<nat> { None }

  lemma TakeAll<T>(s: seq<T>, n: nat)
    requires n == |s|
    ensures s[..n] == s
  {
  }
}
