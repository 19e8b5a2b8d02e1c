/** The block index: an append-only file of JSON lines, and the two maps rebuilt from it. */
module BlockIndex {
  import opened Types
  import opened IndexJson
  import Sorting

  // ---- The maps ----

  datatype Maps = Maps(byHeight: map<U64, IndexEntry>, byHash: map<Hash, U64>)
  {
    function Put(e: IndexEntry): Maps {
      Maps(byHeight[e.blockHeight := e], byHash[e.blockHash := e.blockHeight])
    }

    function GetByHeight(height: U64): Option<IndexEntry> {
      if height in byHeight then Some(byHeight[height]) else None
    }

    function GetByHash(hash: Hash): Option<IndexEntry> {
      if hash in byHash then GetByHeight(byHash[hash]) else None
    }
  }

  const NO_MAPS := Maps(map[], map[])

  function PutAll(m: Maps, entries: seq<IndexEntry>): Maps {
    if entries == [] then m else PutAll(m, entries[..|entries| - 1]).Put(entries[|entries| - 1])
  }

  // ---- Lookups against a scan of the log ----

  function LastAtHeight(entries: seq<IndexEntry>, height: U64): Option<IndexEntry> {
    if entries == [] then None
    else if entries[|entries| - 1].blockHeight == height then Some(entries[|entries| - 1])
    else LastAtHeight(entries[..|entries| - 1], height)
  }

  function LastWithHash(entries: seq<IndexEntry>, hash: Hash): Option<IndexEntry> {
    if entries == [] then None
    else if entries[|entries| - 1].blockHash == hash then Some(entries[|entries| - 1])
    else LastWithHash(entries[..|entries| - 1], hash)
  }

  lemma {:induction false} MapsHoldTheLast(entries: seq<IndexEntry>, height: U64, hash: Hash)
    ensures PutAll(NO_MAPS, entries).GetByHeight(height) == LastAtHeight(entries, height)
    ensures hash in PutAll(NO_MAPS, entries).byHash <==> LastWithHash(entries, hash).Some?
    ensures LastWithHash(entries, hash).Some? ==>
              && PutAll(NO_MAPS, entries).byHash[hash] == LastWithHash(entries, hash).value.blockHeight
              && LastWithHash(entries, hash).value.blockHash == hash
              && LastWithHash(entries, hash).value in entries
  {
    if entries != [] {
      MapsHoldTheLast(entries[..|entries| - 1], height, hash);
    }
  }

  lemma {:induction false} LastAtHeightWithItsHash(entries: seq<IndexEntry>, height: U64, hash: Hash)
    requires LastWithHash(entries, hash).Some? && LastWithHash(entries, hash).value.blockHeight == height
    ensures LastAtHeight(entries, height).Some?
    ensures LastAtHeight(entries, height).value.blockHash == hash ==>
              LastAtHeight(entries, height) == LastWithHash(entries, hash)
    ensures LastAtHeight(entries, height).value in entries
    ensures LastAtHeight(entries, height).value.blockHeight == height
  {
    if entries[|entries| - 1].blockHash != hash {
      LastAtHeightWithItsHash(entries[..|entries| - 1], height, hash);
    }
  }

  /** Lookup by height is a last-wins scan of everything inserted. Lookup by hash is one too
      exactly when the height of that hash was not given to another block since. */
  lemma LookupsAgreeWithTheLog(entries: seq<IndexEntry>, height: U64, hash: Hash)
    ensures var maps := PutAll(NO_MAPS, entries);
            && maps.GetByHeight(height) == LastAtHeight(entries, height)
            && (maps.GetByHash(hash) == LastWithHash(entries, hash) <==>
                (LastWithHash(entries, hash).Some? ==>
                   var e := LastAtHeight(entries, LastWithHash(entries, hash).value.blockHeight);
                   e.Some? && e.value.blockHash == hash))
  {
    MapsHoldTheLast(entries, height, hash);
    var last := LastWithHash(entries, hash);
    if last.Some? {
      MapsHoldTheLast(entries, last.value.blockHeight, hash);
      LastAtHeightWithItsHash(entries, last.value.blockHeight, hash);
    }
  }

  /** In particular when heights and hashes are one-to-one, as they are for one chain. */
  lemma LookupByHashAgrees(entries: seq<IndexEntry>, hash: Hash)
    requires forall e, f :: e in entries && f in entries ==>
               (e.blockHeight == f.blockHeight <==> e.blockHash == f.blockHash)
    ensures PutAll(NO_MAPS, entries).GetByHash(hash) == LastWithHash(entries, hash)
  {
    LookupsAgreeWithTheLog(entries, 0, hash);
    var last := LastWithHash(entries, hash);
    if last.Some? {
      MapsHoldTheLast(entries, 0, hash);
      LastAtHeightWithItsHash(entries, last.value.blockHeight, hash);
    }
  }

  // ---- The file ----

  /** How an entry is written as a line, and how a line is read. */
  datatype Format = Format(write: IndexEntry -> string, read: string -> Option<IndexEntry>)
  {
    function Line(e: IndexEntry): string { write(e) + ['\n'] }

    /** What one line contributes to a replay; empty lines are passed over unread. */
    function ReadLine(line: string): seq<IndexEntry> {
      if line == [] then []
      else match read(line) case Some(e) => [e] case None => []
    }

    function FileOf(entries: seq<IndexEntry>): string {
      if entries == [] then [] else Line(entries[0]) + FileOf(entries[1..])
    }

    /** The entries a replay recovers: line by line, the last line with or without its
        newline, empty and malformed lines skipped. */
    ghost function Recovered(file: string): seq<IndexEntry>
      decreases |file|
    {
      if file == [] then [] else ReadLine(LineOf(file)) + Recovered(RestOf(file))
    }

    /** All that replay needs of the format: entries are single lines that read back as
        themselves, a line cut short is no entry, and nor is a cut or whole line with another
        line run into it. */
    ghost predicate LineFormat() {
      && (forall e :: '\n' !in write(e) && |write(e)| > 0 && read(write(e)) == Some(e))
      && (forall e, k :: 0 <= k < |write(e)| ==> read(write(e)[..k]).None?)
      && (forall e, k, f :: 0 < k <= |write(e)| ==> read(write(e)[..k] + write(f)).None?)
    }
  }

  predicate NewlineAt(s: string, k: nat) {
    k <= |s| && (forall i :: 0 <= i < k ==> s[i] != '\n') && (k < |s| ==> s[k] == '\n')
  }

  lemma {:induction false} SomeNewline(s: string)
    ensures exists k: nat :: NewlineAt(s, k)
  {
    if s == [] || s[0] == '\n' {
      assert NewlineAt(s, 0);
    } else {
      SomeNewline(s[1..]);
      var k: nat :| NewlineAt(s[1..], k);
      assert NewlineAt(s, k + 1);
    }
  }

  /** Where the first newline is, or the end. */
  ghost function NewlineAhead(s: string): (k: nat)
    ensures NewlineAt(s, k)
  {
    SomeNewline(s);
    var k: nat :| NewlineAt(s, k);
    k
  }

  /** The first line of a file, and what follows its newline. */
  ghost function LineOf(file: string): string { file[..NewlineAhead(file)] }

  ghost function RestOf(file: string): (rest: string)
    ensures file != [] ==> |rest| < |file|
  {
    var k := NewlineAhead(file);
    if k == |file| then [] else file[k + 1..]
  }

  /** JSON, as this program writes it, is such a format for every reader of entries. */
  lemma {:induction false} JsonIsALineFormat(read: string -> Option<IndexEntry>)
    requires ReadsEntries(read)
    ensures Format(ToJson, read).LineFormat()
  {
    forall e
      ensures '\n' !in ToJson(e) && |ToJson(e)| > 0
    {
      EntriesArePlain(e);
    }
    forall e, k | 0 <= k < |ToJson(e)|
      ensures read(ToJson(e)[..k]).None?
    {
      CutTextIsNoEntry(read, e, k);
    }
    forall e, k, f | 0 < k <= |ToJson(e)|
      ensures read(ToJson(e)[..k] + ToJson(f)).None?
    {
      MergedTextIsNoEntry(read, e, k, f);
    }
  }

  predicate EndsInNewline(file: string) {
    file == [] || file[|file| - 1] == '\n'
  }

  lemma LineThenRest(line: string, rest: string)
    requires '\n' !in line
    ensures LineOf(line + ['\n'] + rest) == line && RestOf(line + ['\n'] + rest) == rest
  {
    var file := line + ['\n'] + rest;
    var k := NewlineAhead(file);
    assert file[|line|] == '\n';
    assert k >= |line| && k == |line|;
  }

  lemma OneLine(line: string)
    requires '\n' !in line
    ensures LineOf(line) == line && RestOf(line) == []
  {
    assert NewlineAhead(line) == |line|;
  }

  lemma SplitFirstLine(file: string) returns (line: string, rest: string)
    requires file != [] && EndsInNewline(file)
    ensures '\n' !in line && file == line + ['\n'] + rest && EndsInNewline(rest)
  {
    var k := NewlineAhead(file);
    assert k != |file|;
    line, rest := file[..k], file[k + 1..];
    assert rest != [] ==> rest[|rest| - 1] == file[|file| - 1];
  }

  lemma FirstLine(fmt: Format, line: string, rest: string)
    requires '\n' !in line
    ensures fmt.Recovered(line + ['\n'] + rest) == fmt.ReadLine(line) + fmt.Recovered(rest)
  {
    LineThenRest(line, rest);
  }

  lemma OnlyLine(fmt: Format, line: string)
    requires '\n' !in line && line != []
    ensures fmt.Recovered(line) == fmt.ReadLine(line)
  {
    OneLine(line);
    assert fmt.ReadLine(line) + [] == fmt.ReadLine(line);
  }

  lemma FirstEntry(fmt: Format, e: IndexEntry, rest: string)
    requires fmt.LineFormat()
    ensures fmt.Recovered(fmt.Line(e) + rest) == [e] + fmt.Recovered(rest)
  {
    FirstLine(fmt, fmt.write(e), rest);
  }

  lemma AppendAfterFirstLine(fmt: Format, line: string, rest: string, more: string)
    requires '\n' !in line
    ensures fmt.Recovered(line + ['\n'] + rest + more) == fmt.ReadLine(line) + fmt.Recovered(rest + more)
  {
    assert line + ['\n'] + rest + more == line + ['\n'] + (rest + more);
    FirstLine(fmt, line, rest + more);
  }

  /** Entry by entry, the recovered log survives an append that starts on a new line. */
  lemma {:induction false} AppendOnNewLine(fmt: Format, file: string, e: IndexEntry)
    requires fmt.LineFormat() && EndsInNewline(file)
    ensures fmt.Recovered(file + fmt.Line(e)) == fmt.Recovered(file) + [e]
    decreases |file|
  {
    if file == [] {
      FirstEntry(fmt, e, []);
      assert fmt.Line(e) + [] == fmt.Line(e) && file + fmt.Line(e) == fmt.Line(e);
    } else {
      var line, rest := SplitFirstLine(file);
      AppendOnNewLine(fmt, rest, e);
      assert fmt.Recovered(file) == fmt.ReadLine(line) + fmt.Recovered(rest) by {
        FirstLine(fmt, line, rest);
      }
      assert fmt.Recovered(file + fmt.Line(e)) == fmt.ReadLine(line) + fmt.Recovered(rest + fmt.Line(e)) by {
        AppendAfterFirstLine(fmt, line, rest, fmt.Line(e));
      }
      Sorting.Associative(fmt.ReadLine(line), fmt.Recovered(rest), [e]);
    }
  }

  lemma RecoveredByLine(fmt: Format, done: seq<IndexEntry>, file: string)
    requires file != []
    ensures done + fmt.Recovered(file) == done + fmt.ReadLine(LineOf(file)) + fmt.Recovered(RestOf(file))
  {
  }

  // ---- Cut at any byte ----

  /** How many entries are wholly within the first `k` bytes, the last newline apart. */
  function Whole(fmt: Format, entries: seq<IndexEntry>, k: nat): (n: nat)
    ensures n <= |entries|
  {
    if entries == [] then 0
    else
      var size := |fmt.write(entries[0])|;
      if k < size then 0
      else if k == size then 1
      else 1 + Whole(fmt, entries[1..], k - size - 1)
  }

  lemma FirstCut(fmt: Format, entries: seq<IndexEntry>, k: nat)
    requires fmt.LineFormat() && entries != [] && k <= |fmt.write(entries[0])|
    ensures k <= |fmt.FileOf(entries)| && fmt.FileOf(entries)[..k] == fmt.write(entries[0])[..k]
    ensures fmt.Recovered(fmt.FileOf(entries)[..k]) == if k == |fmt.write(entries[0])| then [entries[0]] else []
  {
    var text := fmt.write(entries[0]);
    var cut := text[..k];
    assert fmt.FileOf(entries) == text + (['\n'] + fmt.FileOf(entries[1..]));
    if k > 0 {
      OnlyLine(fmt, cut);
      assert k == |text| ==> cut == text;
    }
  }

  lemma LaterCut(fmt: Format, entries: seq<IndexEntry>, k: nat)
    requires entries != [] && |fmt.write(entries[0])| < k <= |fmt.FileOf(entries)|
    ensures var rest := k - |fmt.write(entries[0])| - 1;
            rest <= |fmt.FileOf(entries[1..])|
            && fmt.FileOf(entries)[..k] == fmt.Line(entries[0]) + fmt.FileOf(entries[1..])[..rest]
  {
    assert |fmt.Line(entries[0])| == |fmt.write(entries[0])| + 1;
  }

  lemma CutAfterFirst(fmt: Format, entries: seq<IndexEntry>, k: nat)
    requires fmt.LineFormat() && entries != [] && |fmt.write(entries[0])| < k <= |fmt.FileOf(entries)|
    ensures var rest := k - |fmt.write(entries[0])| - 1;
            && rest <= |fmt.FileOf(entries[1..])|
            && fmt.Recovered(fmt.FileOf(entries)[..k]) == [entries[0]] + fmt.Recovered(fmt.FileOf(entries[1..])[..rest])
  {
    LaterCut(fmt, entries, k);
    FirstEntry(fmt, entries[0], fmt.FileOf(entries[1..])[..k - |fmt.write(entries[0])| - 1]);
  }

  lemma TakeOneMore<T>(s: seq<T>, n: nat, t: seq<T>, u: seq<T>)
    requires n < |s| && t == [s[0]] + u && u == s[1..][..n]
    ensures t == s[..1 + n]
  {
  }

  ghost predicate RecoversPrefix(fmt: Format, entries: seq<IndexEntry>, k: nat)
    requires k <= |fmt.FileOf(entries)|
  {
    fmt.Recovered(fmt.FileOf(entries)[..k]) == entries[..Whole(fmt, entries, k)]
  }

  lemma CutInFirst(fmt: Format, entries: seq<IndexEntry>, k: nat)
    requires fmt.LineFormat() && entries != [] && k <= |fmt.write(entries[0])|
    ensures k <= |fmt.FileOf(entries)| && RecoversPrefix(fmt, entries, k)
  {
    FirstCut(fmt, entries, k);
    assert entries[..1] == [entries[0]];
  }

  lemma WholeLater(fmt: Format, entries: seq<IndexEntry>, k: nat)
    requires entries != [] && |fmt.write(entries[0])| < k
    ensures Whole(fmt, entries, k) == 1 + Whole(fmt, entries[1..], k - |fmt.write(entries[0])| - 1)
  {
  }

  lemma CutLater(fmt: Format, entries: seq<IndexEntry>, k: nat, rest: nat)
    requires fmt.LineFormat() && entries != [] && k == |fmt.write(entries[0])| + 1 + rest
    requires rest <= |fmt.FileOf(entries[1..])| && k <= |fmt.FileOf(entries)|
    requires RecoversPrefix(fmt, entries[1..], rest)
    ensures RecoversPrefix(fmt, entries, k)
  {
    CutAfterFirst(fmt, entries, k);
    WholeLater(fmt, entries, k);
    TakeOneMore(entries, Whole(fmt, entries[1..], rest),
                fmt.Recovered(fmt.FileOf(entries)[..k]), fmt.Recovered(fmt.FileOf(entries[1..])[..rest]));
  }

  /** Replaying the file cut at any byte recovers some prefix of the inserts: every entry
      whose text survived whole, and nothing else. */
  lemma {:induction false} CutFileRecoversAPrefix(fmt: Format, entries: seq<IndexEntry>, k: nat)
    requires fmt.LineFormat() && k <= |fmt.FileOf(entries)|
    ensures RecoversPrefix(fmt, entries, k)
  {
    if entries == [] {
      assert fmt.FileOf(entries)[..k] == [];
    } else if k <= |fmt.write(entries[0])| {
      CutInFirst(fmt, entries, k);
    } else {
      var rest := k - |fmt.write(entries[0])| - 1;
      LaterCut(fmt, entries, k);
      CutFileRecoversAPrefix(fmt, entries[1..], rest);
      CutLater(fmt, entries, k, rest);
    }
  }

  lemma {:induction false} WholeFile(fmt: Format, entries: seq<IndexEntry>)
    ensures Whole(fmt, entries, |fmt.FileOf(entries)|) == |entries|
  {
    if entries != [] {
      WholeFile(fmt, entries[1..]);
    }
  }

  /** Reopening the untouched file gives exactly the maps all inserts built. */
  lemma ReopenedFileHasEverything(fmt: Format, entries: seq<IndexEntry>)
    requires fmt.LineFormat()
    ensures PutAll(NO_MAPS, fmt.Recovered(fmt.FileOf(entries))) == PutAll(NO_MAPS, entries)
  {
    WholeFile(fmt, entries);
    CutFileRecoversAPrefix(fmt, entries, |fmt.FileOf(entries)|);
    assert fmt.FileOf(entries)[..|fmt.FileOf(entries)|] == fmt.FileOf(entries);
    assert entries[..|entries|] == entries;
  }

  ghost predicate SurvivesAppend(fmt: Format, file: string, e: IndexEntry) {
    fmt.Recovered(file + fmt.Line(e)) == fmt.Recovered(file) + [e]
  }

  lemma {:induction false} AppendAfterFirstEntry(fmt: Format, first: IndexEntry, tail: string, e: IndexEntry)
    requires fmt.LineFormat()
    ensures SurvivesAppend(fmt, fmt.Line(first) + tail, e) <==> SurvivesAppend(fmt, tail, e)
  {
    var line, more := fmt.Line(first), fmt.Line(e);
    FirstEntry(fmt, first, tail);
    FirstEntry(fmt, first, tail + more);
    Sorting.Associative(line, tail, more);
    SameAfterFirst(first, fmt.Recovered(tail + more), fmt.Recovered(tail), e);
  }

  ghost predicate SurvivesIffOnNewLine(fmt: Format, file: string, e: IndexEntry) {
    SurvivesAppend(fmt, file, e) <==> EndsInNewline(file)
  }

  lemma {:induction false} InsertAfterFirst(fmt: Format, first: IndexEntry, tail: string, e: IndexEntry)
    requires fmt.LineFormat() && SurvivesIffOnNewLine(fmt, tail, e)
    ensures SurvivesIffOnNewLine(fmt, fmt.Line(first) + tail, e)
  {
    AppendAfterFirstEntry(fmt, first, tail, e);
    EndAfterFirstEntry(fmt.Line(first), tail);
  }

  lemma {:induction false} InsertInFirst(fmt: Format, entries: seq<IndexEntry>, k: nat, e: IndexEntry)
    requires fmt.LineFormat() && entries != [] && k <= |fmt.write(entries[0])|
    ensures k <= |fmt.FileOf(entries)| && SurvivesIffOnNewLine(fmt, fmt.FileOf(entries)[..k], e)
  {
    FirstCut(fmt, entries, k);
    if k == 0 {
      AppendOnNewLine(fmt, [], e);
      assert fmt.FileOf(entries)[..k] == [];
    } else {
      TornLineSwallowsTheNext(fmt, entries, k, e);
      assert fmt.FileOf(entries)[..k][k - 1] == fmt.write(entries[0])[k - 1];
    }
  }

  lemma {:induction false} InsertLater(fmt: Format, entries: seq<IndexEntry>, k: nat, rest: nat, e: IndexEntry)
    requires fmt.LineFormat() && entries != [] && |fmt.write(entries[0])| < k <= |fmt.FileOf(entries)|
    requires rest == k - |fmt.write(entries[0])| - 1 <= |fmt.FileOf(entries[1..])|
    requires SurvivesIffOnNewLine(fmt, fmt.FileOf(entries[1..])[..rest], e)
    ensures SurvivesIffOnNewLine(fmt, fmt.FileOf(entries)[..k], e)
  {
    LaterCut(fmt, entries, k);
    InsertAfterFirst(fmt, entries[0], fmt.FileOf(entries[1..])[..rest], e);
  }

  lemma InsertInEmpty(fmt: Format, k: nat, e: IndexEntry)
    requires fmt.LineFormat() && k <= |fmt.FileOf([])|
    ensures SurvivesIffOnNewLine(fmt, fmt.FileOf([])[..k], e)
  {
    AppendOnNewLine(fmt, [], e);
    assert fmt.FileOf([])[..k] == [];
  }

  /** After a cut the index still appends where the file ends. The next insert is recovered
      later if and only if the cut fell on a line boundary: anywhere else the new line joins
      the torn one and a replay skips both. */
  lemma {:induction false} InsertAfterACut(fmt: Format, entries: seq<IndexEntry>, k: nat, e: IndexEntry)
    requires fmt.LineFormat() && k <= |fmt.FileOf(entries)|
    ensures SurvivesIffOnNewLine(fmt, fmt.FileOf(entries)[..k], e)
  {
    if entries == [] {
      InsertInEmpty(fmt, k, e);
    } else if k <= |fmt.write(entries[0])| {
      InsertInFirst(fmt, entries, k, e);
    } else {
      var rest := k - |fmt.write(entries[0])| - 1;
      LaterCut(fmt, entries, k);
      InsertAfterACut(fmt, entries[1..], rest, e);
      InsertLater(fmt, entries, k, rest, e);
    }
  }

  lemma EndAfterFirstEntry(line: string, tail: string)
    requires EndsInNewline(line) && line != []
    ensures EndsInNewline(line + tail) <==> EndsInNewline(tail)
  {
  }

  lemma SameAfterFirst<T>(x: T, s: seq<T>, t: seq<T>, y: T)
    ensures [x] + s == [x] + t + [y] <==> s == t + [y]
  {
    assert [x] + t + [y] == [x] + (t + [y]);
    assert ([x] + s)[1..] == s && ([x] + (t + [y]))[1..] == t + [y];
  }

  lemma TornLineSwallowsTheNext(fmt: Format, entries: seq<IndexEntry>, k: nat, e: IndexEntry)
    requires fmt.LineFormat() && entries != [] && 0 < k <= |fmt.write(entries[0])|
    ensures k <= |fmt.FileOf(entries)| && fmt.Recovered(fmt.FileOf(entries)[..k] + fmt.Line(e)) == []
  {
    var torn := fmt.write(entries[0])[..k];
    FirstCut(fmt, entries, k);
    assert torn != fmt.Line(entries[0]);
    assert fmt.FileOf([e]) == fmt.Line(e) + fmt.FileOf([]) == fmt.Line(e);
    RecoveredAfterTorn(fmt, entries[0], torn, [e]);
  }

  // ---- Several lines after a file ----

  /** A file that ends on a line boundary and what follows it are recovered one by one. */
  lemma {:induction false} RecoveredInTwo(fmt: Format, file: string, more: string)
    requires EndsInNewline(file)
    ensures fmt.Recovered(file + more) == fmt.Recovered(file) + fmt.Recovered(more)
    decreases |file|
  {
    if file == [] {
      assert file + more == more;
    } else {
      var line, rest := SplitFirstLine(file);
      RecoveredInTwo(fmt, rest, more);
      FirstLine(fmt, line, rest);
      AppendAfterFirstLine(fmt, line, rest, more);
      Sorting.Associative(fmt.ReadLine(line), fmt.Recovered(rest), fmt.Recovered(more));
    }
  }

  lemma {:induction false} FileEndsInNewline(fmt: Format, entries: seq<IndexEntry>)
    ensures EndsInNewline(fmt.FileOf(entries))
  {
    if entries != [] {
      FileEndsInNewline(fmt, entries[1..]);
      EndAfterFirstEntry(fmt.Line(entries[0]), fmt.FileOf(entries[1..]));
    }
  }

  lemma JoinedEndsInNewline(file: string, more: string)
    requires EndsInNewline(file)
    ensures EndsInNewline(file + more) <==> EndsInNewline(more)
  {
  }

  /** All lines of a file that was not cut. */
  lemma {:induction false} RecoveredFile(fmt: Format, entries: seq<IndexEntry>)
    requires fmt.LineFormat()
    ensures fmt.Recovered(fmt.FileOf(entries)) == entries
  {
    if entries != [] {
      FirstEntry(fmt, entries[0], fmt.FileOf(entries[1..]));
      RecoveredFile(fmt, entries[1..]);
    }
  }

  /** What is recovered of one line, torn anywhere or whole. */
  lemma {:induction false} RecoveredTorn(fmt: Format, e: IndexEntry, torn: string)
    requires fmt.LineFormat() && torn <= fmt.Line(e)
    ensures fmt.Recovered(torn) == if |torn| < |fmt.write(e)| then [] else [e]
    ensures EndsInNewline(torn) <==> torn == [] || torn == fmt.Line(e)
  {
    var text := fmt.write(e);
    if |torn| <= |text| {
      assert torn == text[..|torn|];
      if torn != [] {
        OnlyLine(fmt, torn);
        assert |torn| == |text| ==> torn == text;
      }
    } else {
      assert torn == fmt.Line(e) == fmt.Line(e) + [];
      FirstEntry(fmt, e, []);
    }
  }

  /** Lines that follow a torn one: the first runs into it, and both are lost. */
  lemma {:induction false} RecoveredAfterTorn(fmt: Format, e: IndexEntry, torn: string, entries: seq<IndexEntry>)
    requires fmt.LineFormat() && torn <= fmt.Line(e) && torn != [] && torn != fmt.Line(e) && entries != []
    ensures fmt.Recovered(torn + fmt.FileOf(entries)) == entries[1..]
  {
    var text, rest := fmt.write(entries[0]), fmt.FileOf(entries[1..]);
    MergedIsNoEntry(fmt, e, torn, entries[0]);
    FirstLine(fmt, torn + text, rest);
    RecoveredFile(fmt, entries[1..]);
    Sorting.Associative(torn, text, ['\n']);
    Sorting.Associative(torn, fmt.Line(entries[0]), rest);
  }

  lemma MergedIsNoEntry(fmt: Format, e: IndexEntry, torn: string, f: IndexEntry)
    requires fmt.LineFormat() && torn <= fmt.Line(e) && torn != [] && torn != fmt.Line(e)
    ensures '\n' !in torn + fmt.write(f) && fmt.ReadLine(torn + fmt.write(f)) == []
  {
    assert torn == fmt.write(e)[..|torn|];
  }

  // ---- The index ----

  method NextLine(file: string) returns (line: string, rest: string)
    ensures line == LineOf(file) && rest == RestOf(file)
  {
    var k := 0;
    while k < |file| && file[k] != '\n'
      invariant k <= |file| && forall i :: 0 <= i < k ==> file[i] != '\n'
    {
      k := k + 1;
    }
    assert k == NewlineAhead(file);
    line := file[..k];
    rest := if k == |file| then [] else file[k + 1..];
  }

  class BlockIndex {
    const format: Format
    var byHeight: map<U64, IndexEntry>
    var byHash: map<Hash, U64>
    var file: string

    ghost function State(): Maps
      reads this
    {
      Maps(byHeight, byHash)
    }

    /** Memory is what a replay of the file would give. */
    ghost predicate MatchesFile()
      reads this
    {
      State() == PutAll(NO_MAPS, format.Recovered(file))
    }

    constructor Open(format: Format, contents: string)
      ensures this.format == format && file == contents && MatchesFile()
    {
      this.format := format;
      byHeight, byHash := map[], map[];
      file := contents;
      new;
      Replay();
    }

    method Replay()
      requires State() == NO_MAPS
      modifies this`byHeight, this`byHash
      ensures MatchesFile()
    {
      var rest := file;
      ghost var done: seq<IndexEntry> := [];
      while rest != []
        invariant format.Recovered(file) == done + format.Recovered(rest)
        invariant State() == PutAll(NO_MAPS, done)
        decreases |rest|
      {
        RecoveredByLine(format, done, rest);
        var line, next := NextLine(rest);
        rest := next;
        ghost var before := done;
        if line != [] {
          var _ := ParseAndInsert(line);
        }
        done := done + format.ReadLine(line);
        assert done != before ==> done[..|before|] == before;
        assert done == before ==> format.ReadLine(line) == [];
      }
      assert done + format.Recovered([]) == done;
    }

    /** A malformed line is skipped; any other goes into both maps. */
    method ParseAndInsert(line: string) returns (ok: bool)
      modifies this`byHeight, this`byHash
      ensures ok == format.read(line).Some?
      ensures State() == if ok then old(State()).Put(format.read(line).value) else old(State())
    {
      match format.read(line) {
        case Some(e) =>
          byHash := byHash[e.blockHash := e.blockHeight];
          byHeight := byHeight[e.blockHeight := e];
          ok := true;
        case None =>
          ok := false;
      }
    }

    /** `written` is how many bytes reached the file when the write fails. A failed insert
        leaves memory alone but may leave part of a line behind. */
    method Insert(e: IndexEntry, written: Option<nat>) returns (ok: bool)
      modifies this
      ensures ok <==> written.None?
      ensures ok ==> State() == old(State()).Put(e) && file == old(file) + format.Line(e)
      ensures !ok ==> State() == old(State()) && old(file) <= file && file[|old(file)|..] <= format.Line(e)
      ensures ok && old(MatchesFile()) && format.LineFormat() && EndsInNewline(old(file)) ==>
                MatchesFile() && EndsInNewline(file)
    {
      var line := format.Line(e);
      if written.Some? {
        var n := if written.value < |line| then written.value else |line|;
        file := file + line[..n];
        assert file[|old(file)|..] == line[..n];
        return false;
      }
      file := file + line;
      byHash := byHash[e.blockHash := e.blockHeight];
      byHeight := byHeight[e.blockHeight := e];
      ok := true;
      if format.LineFormat() && EndsInNewline(old(file)) {
        AppendOnNewLine(format, old(file), e);
        ghost var recovered := format.Recovered(old(file));
        assert (recovered + [e])[..|recovered|] == recovered;
      }
    }

    method GetByHeight(height: U64) returns (e: Option<IndexEntry>)
      ensures e == State().GetByHeight(height)
    {
      return if height in byHeight then Some(byHeight[height]) else None;
    }

    method GetByHash(hash: Hash) returns (e: Option<IndexEntry>)
      ensures e == State().GetByHash(hash)
    {
      if hash !in byHash || byHash[hash] !in byHeight {
        return None;
      }
      return Some(byHeight[byHash[hash]]);
    }

    method LatestHeight() returns (latest: Option<U64>)
      ensures latest.None? <==> byHeight == map[]
      ensures latest.Some? ==> latest.value in byHeight
      ensures latest.Some? ==> forall h :: h in byHeight ==> h <= latest.value
    {
      latest := None;
      var todo := byHeight.Keys;
      while todo != {}
        invariant todo <= byHeight.Keys
        invariant latest.None? ==> todo == byHeight.Keys
        invariant latest.Some? ==> latest.value in byHeight
        invariant latest.Some? ==> forall h :: h in byHeight ==> h in todo || h <= latest.value
        decreases todo
      {
        var h :| h in todo;
        todo := todo - {h};
        if latest.None? || latest.value < h {
          latest := Some(h);
        }
      }
      assert byHeight == map[] <==> byHeight.Keys == {};
    }
  }
}
