/** Catching up from Celestia: scan a range, sort stably by block height, skip what is
    indexed, execute and index the rest. */
module DaSync {
  import opened Types
  import opened Sorting
  import opened IndexJson
  import opened BlockIndex

  /** A block found at a Celestia height. Both heights are 64-bit. */
  datatype Found = Found(celestiaHeight: U64, block: Block)

  type Posted = p: Found | p.block.height < 0x1_0000_0000_0000_0000
    witness Found(0, Block(0, 0, 0, 0, [], 0))

  function HeightOf(p: Posted): nat { p.block.height }

  function CelestiaHeightOf(p: Posted): nat { p.celestiaHeight }

  // ---- The scan ----

  /** The blocks one Celestia height holds, in the order they were posted; None when the
      retrieval fails. */
  type Chain = nat -> Option<seq<Posted>>

  function PostedAt(chain: Chain, height: nat): seq<Posted>
    requires chain(height).Some?
  {
    chain(height).value
  }

  /** `all` is what the heights from `start` up to `end`, exclusive, hold. */
  ghost predicate Holds(all: seq<Posted>, chain: Chain, start: nat, end: nat) {
    && (forall h :: start <= h < end ==> chain(h).Some?)
    && SortedBy(CelestiaHeightOf, all)
    && (forall p :: p in all ==> p.celestiaHeight < end)
    && (forall h: nat :: WithKey(CelestiaHeightOf, h, all) == if start <= h < end then PostedAt(chain, h) else [])
  }

  lemma HoldsOneMore(all: seq<Posted>, chain: Chain, start: nat, end: nat)
    requires Holds(all, chain, start, end) && start <= end && chain(end).Some?
    requires forall p :: p in chain(end).value ==> p.celestiaHeight == end
    ensures Holds(all + chain(end).value, chain, start, end + 1)
  {
    var blocks := chain(end).value;
    forall h: nat
      ensures WithKey(CelestiaHeightOf, h, all + blocks) == if start <= h < end + 1 then PostedAt(chain, h) else []
    {
      WithKeyAppend(CelestiaHeightOf, h, all, blocks);
      if h == end {
        AllWithKey(CelestiaHeightOf, h, blocks);
      } else {
        NoneWithKey(CelestiaHeightOf, h, blocks);
      }
    }
  }

  /** A successful scan holds the blocks of each height of the range as they were posted, in
      Celestia order; it fails exactly when some retrieval does. */
  method GetBlocksInRange(chain: Chain, start: nat, end: nat) returns (found: Option<seq<Posted>>)
    requires forall h :: start <= h <= end && chain(h).Some? ==>
               forall p :: p in chain(h).value ==> p.celestiaHeight == h
    ensures found.None? <==> exists h :: start <= h <= end && chain(h).None?
    ensures found.Some? ==> Holds(found.value, chain, start, end + 1)
  {
    if start > end {
      return Some([]);
    }
    var all: seq<Posted> := [];
    var height := start;
    while height <= end
      invariant start <= height <= end + 1
      invariant Holds(all, chain, start, height)
    {
      var blocks := chain(height);
      if blocks.None? {
        return None;
      }
      HoldsOneMore(all, chain, start, height);
      all := all + blocks.value;
      height := height + 1;
    }
    return Some(all);
  }

  lemma {:induction false} AllWithKey<T>(key: T -> nat, k: nat, s: seq<T>)
    requires forall x :: x in s ==> key(x) == k
    ensures WithKey(key, k, s) == s
  {
    if s != [] {
      AllWithKey(key, k, s[1..]);
      assert s == [s[0]] + s[1..];
    }
  }

  lemma {:induction false} NoneWithKey<T>(key: T -> nat, k: nat, s: seq<T>)
    requires forall x :: x in s ==> key(x) != k
    ensures WithKey(key, k, s) == []
  {
    if s != [] {
      NoneWithKey(key, k, s[1..]);
    }
  }

  // ---- The loop ----

  /** Commitments are not known during sync. */
  function EntryFor(p: Posted): IndexEntry {
    IndexEntry(p.block.height, p.block.blockHash, p.celestiaHeight, [])
  }

  /** The entries added by working through `blocks` on top of `maps`, in order: one for each
      block executed. */
  function Added(maps: Maps, blocks: seq<Posted>): seq<IndexEntry> {
    if blocks == [] then []
    else
      var before, p := Added(maps, blocks[..|blocks| - 1]), blocks[|blocks| - 1];
      if p.block.height in PutAll(maps, before).byHeight then before else before + [EntryFor(p)]
  }

  function Synced(maps: Maps, blocks: seq<Posted>): Maps { PutAll(maps, Added(maps, blocks)) }

  /** What a sync of everything posted works through. */
  function Plan(posted: seq<Posted>): seq<Posted> { StableSort(HeightOf, posted) }

  lemma PutOne(maps: Maps, entries: seq<IndexEntry>, e: IndexEntry)
    ensures PutAll(maps, entries + [e]) == PutAll(maps, entries).Put(e)
  {
    assert (entries + [e])[..|entries|] == entries;
  }

  lemma SyncedOne(maps: Maps, blocks: seq<Posted>, p: Posted)
    ensures Added(maps, blocks + [p])
         == if p.block.height in Synced(maps, blocks).byHeight then Added(maps, blocks)
            else Added(maps, blocks) + [EntryFor(p)]
    ensures Synced(maps, blocks + [p])
         == if p.block.height in Synced(maps, blocks).byHeight then Synced(maps, blocks)
            else Synced(maps, blocks).Put(EntryFor(p))
  {
    assert (blocks + [p])[..|blocks|] == blocks;
    PutOne(maps, Added(maps, blocks), EntryFor(p));
  }

  /** In any order of working, the first block of a height is the one that is indexed. */
  lemma {:induction false} FirstOfHeightWins(maps: Maps, blocks: seq<Posted>, h: U64)
    ensures Synced(maps, blocks).GetByHeight(h) ==
            if h in maps.byHeight then Some(maps.byHeight[h])
            else if WithKey(HeightOf, h, blocks) != [] then Some(EntryFor(WithKey(HeightOf, h, blocks)[0]))
            else None
  {
    if blocks != [] {
      var before, p := blocks[..|blocks| - 1], blocks[|blocks| - 1];
      FirstOfHeightWins(maps, before, h);
      assert blocks == before + [p];
      SyncedOne(maps, before, p);
      WithKeyAppend(HeightOf, h, before, [p]);
      assert WithKey(HeightOf, h, [p]) == if p.block.height == h then [p] else [];
    }
  }

  /** A full sync leaves each height with its earlier entry, or else with the block of that
      height posted first in Celestia order, or with nothing. */
  lemma SyncIndexesFirstPosted(maps: Maps, posted: seq<Posted>, h: U64)
    ensures Synced(maps, Plan(posted)).GetByHeight(h) ==
            if h in maps.byHeight then Some(maps.byHeight[h])
            else if WithKey(HeightOf, h, posted) != [] then Some(EntryFor(WithKey(HeightOf, h, posted)[0]))
            else None
  {
    FirstOfHeightWins(maps, Plan(posted), h);
    StableSortIsStable(HeightOf, posted, h);
  }

  /** The block posted first at a height. */
  predicate FirstPosted(posted: seq<Posted>, p: Posted) {
    var atHeight := WithKey(HeightOf, p.block.height, posted);
    atHeight != [] && atHeight[0] == p
  }

  /** `hash` belongs to blocks of one height only. */
  predicate OneHeight(posted: seq<Posted>, hash: Hash, h: U64) {
    forall q :: q in posted && q.block.blockHash == hash ==> q.block.height == h
  }

  lemma {:induction false} HashLeadsToFirst(maps: Maps, blocks: seq<Posted>, p: Posted)
    requires p.block.height !in maps.byHeight && FirstPosted(blocks, p)
    requires OneHeight(blocks, p.block.blockHash, p.block.height)
    ensures var hash := p.block.blockHash;
            hash in Synced(maps, blocks).byHash && Synced(maps, blocks).byHash[hash] == p.block.height
  {
    var before, last := blocks[..|blocks| - 1], blocks[|blocks| - 1];
    var h: U64 := p.block.height;
    assert blocks == before + [last];
    WithKeyAppend(HeightOf, h, before, [last]);
    assert WithKey(HeightOf, h, [last]) == if last.block.height == h then [last] else [];
    FirstOfHeightWins(maps, before, h);
    SyncedOne(maps, before, last);
    assert last in blocks && forall q :: q in before ==> q in blocks;
    if WithKey(HeightOf, h, before) != [] {
      HashLeadsToFirst(maps, before, p);
    }
  }

  /** The entry a sync leaves for a height that was not indexed describes the block posted
      first at that height: its own height and hash, and where on Celestia it was found. The
      commitment is not known. If the hash belongs to one height only, it leads there. */
  lemma {:induction false} SyncDescribesTheBlock(maps: Maps, posted: seq<Posted>, p: Posted)
    requires p.block.height !in maps.byHeight && FirstPosted(posted, p)
    ensures var synced := Synced(maps, Plan(posted));
            var e := IndexEntry(p.block.height, p.block.blockHash, p.celestiaHeight, []);
            && synced.GetByHeight(p.block.height) == Some(e)
            && (OneHeight(posted, p.block.blockHash, p.block.height) ==>
                  synced.GetByHash(p.block.blockHash) == Some(e))
  {
    SyncIndexesFirstPosted(maps, posted, p.block.height);
    StableSortIsStable(HeightOf, posted, p.block.height);
    SortedMembers(HeightOf, posted);
    if OneHeight(posted, p.block.blockHash, p.block.height) {
      HashLeadsToFirst(maps, Plan(posted), p);
    }
  }

  ghost predicate Ascending(entries: seq<IndexEntry>) {
    forall i, j :: 0 <= i < j < |entries| ==> entries[i].blockHeight < entries[j].blockHeight
  }

  lemma {:induction false} PutAllHas(maps: Maps, entries: seq<IndexEntry>)
    ensures forall i :: 0 <= i < |entries| ==> entries[i].blockHeight in PutAll(maps, entries).byHeight
  {
    if entries != [] {
      PutAllHas(maps, entries[..|entries| - 1]);
    }
  }

  lemma AddAscending(maps: Maps, entries: seq<IndexEntry>, e: IndexEntry)
    requires Ascending(entries) && e.blockHeight !in PutAll(maps, entries).byHeight
    requires forall i :: 0 <= i < |entries| ==> entries[i].blockHeight <= e.blockHeight
    ensures Ascending(entries + [e])
  {
    PutAllHas(maps, entries);
  }

  lemma {:induction false} AddedFromSorted(maps: Maps, blocks: seq<Posted>, top: nat)
    requires SortedBy(HeightOf, blocks) && forall p :: p in blocks ==> HeightOf(p) <= top
    ensures Ascending(Added(maps, blocks))
    ensures forall i :: 0 <= i < |Added(maps, blocks)| ==> Added(maps, blocks)[i].blockHeight <= top
  {
    if blocks != [] {
      var before, p := blocks[..|blocks| - 1], blocks[|blocks| - 1];
      AddedFromSorted(maps, before, HeightOf(p));
      assert HeightOf(p) <= top;
      var added := Added(maps, before);
      if p.block.height !in PutAll(maps, added).byHeight {
        AddAscending(maps, added, EntryFor(p));
        assert Added(maps, blocks) == added + [EntryFor(p)];
      } else {
        assert Added(maps, blocks) == added;
      }
    }
  }

  /** Execution goes through strictly increasing heights. */
  lemma SyncExecutesInHeightOrder(maps: Maps, posted: seq<Posted>, i: nat, j: nat)
    requires i < j < |Added(maps, Plan(posted))|
    ensures Added(maps, Plan(posted))[i].blockHeight < Added(maps, Plan(posted))[j].blockHeight
  {
    StableSortSorts(HeightOf, posted);
    var plan := Plan(posted);
    AddedFromSorted(maps, plan, HeightOf(plan[|plan| - 1]));
  }

  // ---- Stopping and starting again ----

  lemma {:induction false} PutAllAppend(maps: Maps, a: seq<IndexEntry>, b: seq<IndexEntry>)
    ensures PutAll(maps, a + b) == PutAll(PutAll(maps, a), b)
  {
    if b == [] {
      assert a + b == a;
    } else {
      PutAllAppend(maps, a, b[..|b| - 1]);
      assert (a + b)[..|a + b| - 1] == a + b[..|b| - 1];
    }
  }

  lemma {:induction false} HeightsWorkedThroughAreIndexed(maps: Maps, blocks: seq<Posted>, p: Posted)
    requires p in blocks
    ensures p.block.height in Synced(maps, blocks).byHeight
  {
    var before, last := blocks[..|blocks| - 1], blocks[|blocks| - 1];
    assert blocks == before + [last];
    SyncedOne(maps, before, last);
    if p != last {
      HeightsWorkedThroughAreIndexed(maps, before, p);
    }
  }

  /** The second pass has got through `blocks`, of which the first got through some. */
  ghost predicate AddsTheRest(maps: Maps, first: seq<Posted>, blocks: seq<Posted>) {
    Added(maps, first) + Added(Synced(maps, first), blocks) == Added(maps, blocks)
  }

  lemma AddsOneMore(maps: Maps, first: seq<Posted>, blocks: seq<Posted>, p: Posted)
    requires AddsTheRest(maps, first, blocks)
    ensures AddsTheRest(maps, first, blocks + [p])
  {
    var again := Synced(maps, first);
    PutAllAppend(maps, Added(maps, first), Added(again, blocks));
    AddedTogether(maps, again, Added(maps, first), blocks, p);
  }

  /** One more block adds the same to the rest as to the whole. */
  lemma {:induction false} AddedTogether(
    maps: Maps, again: Maps, a: seq<IndexEntry>, blocks: seq<Posted>, p: Posted)
    requires a + Added(again, blocks) == Added(maps, blocks) && Synced(again, blocks) == Synced(maps, blocks)
    ensures a + Added(again, blocks + [p]) == Added(maps, blocks + [p])
  {
    SyncedOne(again, blocks, p);
    SyncedOne(maps, blocks, p);
    Associative(a, Added(again, blocks), [EntryFor(p)]);
  }

  /** Over the blocks already worked through, a second pass adds nothing. */
  lemma {:induction false} SecondPassSkips(maps: Maps, first: seq<Posted>, blocks: seq<Posted>)
    requires forall p :: p in blocks ==> p in first
    ensures Added(Synced(maps, first), blocks) == []
  {
    if blocks != [] {
      var before, p := blocks[..|blocks| - 1], blocks[|blocks| - 1];
      SecondPassSkips(maps, first, before);
      HeightsWorkedThroughAreIndexed(maps, first, p);
    }
  }

  /** Working through a list again, after having got through its beginning, adds what an
      uninterrupted pass would have added after that. */
  lemma {:induction false} SecondPassAddsTheRest(maps: Maps, first: seq<Posted>, rest: seq<Posted>)
    ensures AddsTheRest(maps, first, first + rest)
  {
    if rest == [] {
      assert AddsTheRest(maps, first, first) by {
        SecondPassSkips(maps, first, first);
        assert Added(maps, first) + [] == Added(maps, first);
      }
      assert first + rest == first;
    } else {
      var before, p := rest[..|rest| - 1], rest[|rest| - 1];
      assert AddsTheRest(maps, first, first + before + [p]) by {
        SecondPassAddsTheRest(maps, first, before);
        AddsOneMore(maps, first, first + before, p);
      }
      assert first + rest == first + before + [p];
    }
  }

  /** Stop anywhere, run again over the same range: the entries written by the two runs, one
      after the other, are those of one uninterrupted run, so file and maps are the same. */
  lemma SyncIsResumable(maps: Maps, posted: seq<Posted>, k: nat)
    requires k <= |posted|
    ensures |Plan(posted)| == |posted|
    ensures var stopped := Plan(posted)[..k];
            var resumed := Synced(maps, stopped);
            && Added(maps, stopped) + Added(resumed, Plan(posted)) == Added(maps, Plan(posted))
            && Synced(resumed, Plan(posted)) == Synced(maps, Plan(posted))
  {
    SortedMembers(HeightOf, posted);
    var plan := Plan(posted);
    SecondPassAddsTheRest(maps, plan[..k], plan[k..]);
    assert plan[..k] + plan[k..] == plan;
    PutAllAppend(maps, Added(maps, plan[..k]), Added(Synced(maps, plan[..k]), plan));
  }

  /** And when more has been posted by the time of the second run, each height still ends up
      as one run over everything would have left it. */
  lemma SyncIsResumableOverMore(maps: Maps, posted: seq<Posted>, k: nat, more: seq<Posted>, h: U64)
    requires k <= |posted|
    ensures |Plan(posted)| == |posted|
    ensures Synced(Synced(maps, Plan(posted)[..k]), Plan(posted + more)).GetByHeight(h)
         == Synced(maps, Plan(posted + more)).GetByHeight(h)
  {
    SortedMembers(HeightOf, posted);
    var plan := Plan(posted);
    var resumed := Synced(maps, plan[..k]);
    SyncIndexesFirstPosted(resumed, posted + more, h);
    SyncIndexesFirstPosted(maps, posted + more, h);
    FirstOfHeightWins(maps, plan[..k], h);
    assert plan == plan[..k] + plan[k..];
    WithKeyAppend(HeightOf, h, plan[..k], plan[k..]);
    StableSortIsStable(HeightOf, posted, h);
    WithKeyAppend(HeightOf, h, posted, more);
  }

  // ---- The sync itself ----

  /** There is finality data, and the range to scan is not empty. */
  predicate CanSync(genesisDaHeight: nat, currentCelestiaHeight: nat) {
    currentCelestiaHeight != 0 && genesisDaHeight <= currentCelestiaHeight
  }

  /** Execute one block and index it; nothing is indexed when the execution or the write
      fails. `written` is how many bytes a failing write gets out: they stay in the file. */
  method SyncSingleBlock(index: BlockIndex, p: Posted, executes: bool, written: Option<nat>)
    returns (ok: bool, ghost torn: string)
    modifies index
    ensures ok == (executes && written.None?)
    ensures var e := IndexEntry(p.block.height, p.block.blockHash, p.celestiaHeight, []);
      && torn <= index.format.Line(e) && (ok || !executes ==> torn == [])
      && (ok ==> index.State() == old(index.State()).Put(e) && index.file == old(index.file) + index.format.Line(e))
    ensures !ok ==> index.State() == old(index.State()) && index.file == old(index.file) + torn
  {
    torn := [];
    if !executes {
      assert index.file + [] == index.file;
      return false, torn;
    }
    ok := index.Insert(EntryFor(p), written);
    if !ok {
      torn := index.file[|old(index.file)|..];
      assert index.file == old(index.file) + torn;
    }
  }

  /** `Added` for the first `n` blocks, as a loop computes it. */
  ghost function AddedUpTo(maps: Maps, blocks: seq<Posted>, n: nat): seq<IndexEntry>
    requires n <= |blocks|
  {
    if n == 0 then []
    else
      var before := AddedUpTo(maps, blocks, n - 1);
      if blocks[n - 1].block.height in PutAll(maps, before).byHeight then before
      else before + [EntryFor(blocks[n - 1])]
  }

  lemma {:induction false} AddedUpToIsAdded(maps: Maps, blocks: seq<Posted>, n: nat)
    requires n <= |blocks|
    ensures AddedUpTo(maps, blocks, n) == Added(maps, blocks[..n])
  {
    if n > 0 {
      AddedUpToIsAdded(maps, blocks, n - 1);
      assert blocks[..n] == blocks[..n - 1] + [blocks[n - 1]];
      SyncedOne(maps, blocks[..n - 1], blocks[n - 1]);
    }
  }

  /** On top of `maps` and `file`, the index has taken in `added`; after them the file may
      hold part of a line. */
  ghost predicate HasAdded(index: BlockIndex, maps: Maps, file: string, added: seq<IndexEntry>, torn: string)
    reads index
  {
    index.State() == PutAll(maps, added) && index.file == file + index.format.FileOf(added) + torn
  }

  /** One turn of the loop: skip what is indexed, sync the rest. */
  method SyncOrSkip(index: BlockIndex, p: Posted, executes: bool, written: Option<nat>,
                    ghost maps: Maps, ghost file: string, ghost added: seq<IndexEntry>)
    returns (ok: bool, skipped: bool, ghost torn: string)
    requires HasAdded(index, maps, file, added, [])
    modifies index
    ensures skipped == (p.block.height in PutAll(maps, added).byHeight)
    ensures ok == (skipped || (executes && written.None?))
    ensures torn <= index.format.Line(EntryFor(p)) && (ok || !executes ==> torn == [])
    ensures HasAdded(index, maps, file, if skipped || !ok then added else added + [EntryFor(p)], torn)
  {
    torn := [];
    var indexed := index.GetByHeight(p.block.height);
    skipped := indexed.Some?;
    if skipped {
      return true, true, torn;
    }
    ghost var before := file + index.format.FileOf(added);
    assert before + [] == before;
    ok, torn := SyncSingleBlock(index, p, executes, written);
    if ok {
      PutOne(maps, added, EntryFor(p));
      FileOfOne(index.format, added, EntryFor(p));
      Associative(file, index.format.FileOf(added), index.format.Line(EntryFor(p)));
      assert index.file + [] == index.file;
    }
  }

  /** The greatest indexed height, 0 for an empty index. */
  ghost predicate IsLatest(maps: Maps, height: nat) {
    if maps.byHeight == map[] then height == 0
    else height in maps.byHeight && forall h :: h in maps.byHeight ==> h <= height
  }

  /** What a sync that added `added` reports: the height of the last of them, or the latest
      height there was. */
  ghost predicate IsLastOf(maps: Maps, added: seq<IndexEntry>, height: nat) {
    if added == [] then IsLatest(maps, height) else height == added[|added| - 1].blockHeight
  }

  method LatestOrZero(index: BlockIndex) returns (height: U64)
    ensures IsLatest(index.State(), height)
  {
    var latest := index.LatestHeight();
    return if latest.Some? then latest.value else 0;
  }

  /** Block `p` was being indexed when the sync ended: its height was free, and `torn` is what
      a failing write left of its line. */
  ghost predicate EndedAt(index: BlockIndex, indexed: Maps, p: Posted, torn: string) {
    p.block.height !in indexed.byHeight && torn <= index.format.Line(EntryFor(p))
  }

  /** `executes(i)` tells whether block `i` would get through execution and the forkchoice
      update, `written(i)` whether and where its index write fails. The first failure ends
      the sync with what is indexed so far. */
  method SyncBlockBatch(index: BlockIndex, blocks: seq<Posted>, executes: nat -> bool, written: nat -> Option<nat>)
    returns (lastSynced: Option<U64>, done: nat, ghost torn: string)
    modifies index
    ensures done <= |blocks| && (lastSynced.Some? <==> done == |blocks|)
    ensures HasAdded(index, old(index.State()), old(index.file), Added(old(index.State()), blocks[..done]), torn)
    ensures done == |blocks| ==> torn == []
    ensures done < |blocks| ==>
      && !(executes(done) && written(done).None?) && (!executes(done) ==> torn == [])
      && EndedAt(index, index.State(), blocks[done], torn)
    ensures lastSynced.Some? ==>
              IsLastOf(old(index.State()), Added(old(index.State()), blocks[..done]), lastSynced.value)
  {
    ghost var maps, file := index.State(), index.file;
    ghost var added: seq<IndexEntry> := [];
    var last := LatestOrZero(index);
    torn := [];
    done := 0;
    assert index.file == file + index.format.FileOf(added) + torn;
    while done < |blocks|
      invariant done <= |blocks|
      invariant added == AddedUpTo(maps, blocks, done)
      invariant HasAdded(index, maps, file, added, []) && torn == []
      invariant IsLastOf(maps, added, last)
    {
      var ok, skipped;
      ok, skipped, torn := SyncOrSkip(index, blocks[done], executes(done), written(done), maps, file, added);
      if !ok {
        AddedUpToIsAdded(maps, blocks, done);
        return None, done, torn;
      }
      if !skipped {
        added := added + [EntryFor(blocks[done])];
        last := blocks[done].block.height;
      }
      done := done + 1;
    }
    AddedUpToIsAdded(maps, blocks, done);
    return Some(last), done, torn;
  }

  /** The whole sync. It leaves the index as it was when there is nothing to scan or the scan
      fails; otherwise it has worked through the plan for what the range holds, all of it
      when it succeeds, up to the first failure when it does not. */
  method SyncFromCelestia(
    index: BlockIndex, chain: Chain, genesisDaHeight: nat, currentCelestiaHeight: nat,
    executes: nat -> bool, written: nat -> Option<nat>)
    returns (lastSynced: Option<U64>, ghost posted: seq<Posted>, ghost done: nat, ghost torn: string)
    requires forall h :: genesisDaHeight <= h <= currentCelestiaHeight && chain(h).Some? ==>
               forall p :: p in chain(h).value ==> p.celestiaHeight == h
    modifies index
    ensures currentCelestiaHeight == 0 || currentCelestiaHeight < genesisDaHeight ==>
      lastSynced.Some? && IsLatest(old(index.State()), lastSynced.value) && posted == []
    ensures currentCelestiaHeight != 0 && genesisDaHeight <= currentCelestiaHeight ==>
      || (posted == [] && lastSynced.None?
          && exists h :: genesisDaHeight <= h <= currentCelestiaHeight && chain(h).None?)
      || (Holds(posted, chain, genesisDaHeight, currentCelestiaHeight + 1)
          && (lastSynced.Some? <==> done == |posted|))
    ensures |Plan(posted)| == |posted| && done <= |posted|
    ensures HasAdded(index, old(index.State()), old(index.file), Added(old(index.State()), Plan(posted)[..done]), torn)
    ensures done == |posted| ==> torn == []
    ensures done < |posted| ==>
      && !(executes(done) && written(done).None?) && (!executes(done) ==> torn == [])
      && EndedAt(index, index.State(), Plan(posted)[done], torn)
  {
    posted, done, torn := [], 0, [];
    assert index.file == index.file + index.format.FileOf([]) + torn;
    if !CanSync(genesisDaHeight, currentCelestiaHeight) {
      var latest := LatestOrZero(index);
      return Some(latest), posted, done, torn;
    }
    var found := GetBlocksInRange(chain, genesisDaHeight, currentCelestiaHeight);
    if found.None? {
      return None, posted, done, torn;
    }
    posted := found.value;
    SortedMembers(HeightOf, posted);
    if found.value == [] {
      var latest := LatestOrZero(index);
      return Some(latest), posted, done, torn;
    }
    var worked;
    lastSynced, worked, torn := SyncBlockBatch(index, Plan(found.value), executes, written);
    done := worked;
  }

  lemma {:induction false} FileOfOne(fmt: Format, entries: seq<IndexEntry>, e: IndexEntry)
    ensures fmt.FileOf(entries + [e]) == fmt.FileOf(entries) + fmt.Line(e)
  {
    if entries == [] {
      assert entries + [e] == [e] && fmt.FileOf([e][1..]) == [];
    } else {
      FileOfOne(fmt, entries[1..], e);
      assert (entries + [e])[1..] == entries[1..] + [e];
    }
  }
}
