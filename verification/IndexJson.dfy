/** The JSON text of one index entry, as written to the index file and read back from it.
    Hashes and commitments travel as hexadecimal strings. */
module IndexJson {
  import opened Types
  import opened JsonText

  datatype IndexEntry = IndexEntry(blockHeight: U64, blockHash: Hash, celestiaHeight: U64, commitment: seq<Byte>)

  // ---- Numerals ----

  predicate IsDigit(c: char) { '0' <= c <= '9' }

  function DecimalDigit(d: nat): char
    requires d < 10
  {
    '0' + d as char
  }

  function Decimal(n: nat): string {
    if n < 10 then [DecimalDigit(n)] else Decimal(n / 10) + [DecimalDigit(n % 10)]
  }

  function DigitValue(c: char): nat
    requires IsDigit(c)
  {
    c as int - '0' as int
  }

  function DecimalValue(s: string): nat
    requires forall i :: 0 <= i < |s| ==> IsDigit(s[i])
  {
    if s == [] then 0
    else DecimalValue(s[..|s| - 1]) * 10 + DigitValue(s[|s| - 1])
  }

  lemma {:induction false} DecimalRoundTrip(n: nat)
    ensures forall i :: 0 <= i < |Decimal(n)| ==> IsDigit(Decimal(n)[i])
    ensures DecimalValue(Decimal(n)) == n
    ensures |Decimal(n)| > 0 && (Decimal(n)[0] == '0' ==> n == 0)
  {
    if n < 10 {
      assert Decimal(n)[..0] == [];
    } else {
      DecimalRoundTrip(n / 10);
      assert Decimal(n)[..|Decimal(n)| - 1] == Decimal(n / 10);
    }
  }

  function HexDigit(d: nat): char
    requires d < 16
  {
    if d < 10 then '0' + d as char else 'a' + (d - 10) as char
  }

  /** Either case is accepted. */
  function HexDigitValue(c: char): (d: Option<nat>)
    ensures d.Some? ==> d.value < 16
  {
    if '0' <= c <= '9' then Some(c as int - '0' as int)
    else if 'a' <= c <= 'f' then Some(c as int - 'a' as int + 10)
    else if 'A' <= c <= 'F' then Some(c as int - 'A' as int + 10)
    else None
  }

  // ---- Byte strings ----

  function HexEncode(bytes: seq<Byte>): string {
    if bytes == [] then []
    else
      var b := bytes[|bytes| - 1];
      HexEncode(bytes[..|bytes| - 1]) + [HexDigit(b / 16), HexDigit(b % 16)]
  }

  function HexDecode(s: string): (bytes: Option<seq<Byte>>)
    ensures bytes.Some? ==> AllHex(s)
  {
    if s == [] then Some([])
    else if |s| == 1 then None
    else
      var prefix :- HexDecode(s[..|s| - 2]);
      var high :- HexDigitValue(s[|s| - 2]);
      var low :- HexDigitValue(s[|s| - 1]);
      Some(prefix + [high * 16 + low])
  }

  predicate AllHex(s: string) {
    forall i :: 0 <= i < |s| ==> HexDigitValue(s[i]).Some?
  }

  lemma {:induction false} HexRoundTrip(bytes: seq<Byte>)
    ensures HexDecode(HexEncode(bytes)) == Some(bytes)
    ensures |HexEncode(bytes)| == 2 * |bytes| && AllHex(HexEncode(bytes))
  {
    if bytes != [] {
      var before, b := bytes[..|bytes| - 1], bytes[|bytes| - 1];
      HexRoundTrip(before);
      HexDecodeOne(HexEncode(before), before, b);
      assert bytes == before + [b];
    }
  }

  lemma HexDecodeOne(s: string, bytes: seq<Byte>, b: Byte)
    requires HexDecode(s) == Some(bytes)
    ensures HexDecode(s + [HexDigit(b / 16), HexDigit(b % 16)]) == Some(bytes + [b])
  {
    var t := s + [HexDigit(b / 16), HexDigit(b % 16)];
    assert t[..|t| - 2] == s;
    HexDigitBack(b / 16);
    HexDigitBack(b % 16);
  }

  lemma HexDigitBack(d: nat)
    requires d < 16
    ensures HexDigitValue(HexDigit(d)) == Some(d)
  {
  }

  /** The decoder accepts exactly the strings of hex digits of even length. */
  lemma {:induction false} HexDecodeAccepts(s: string)
    ensures HexDecode(s).Some? <==> |s| % 2 == 0 && AllHex(s)
  {
    if |s| >= 2 {
      HexDecodeAccepts(s[..|s| - 2]);
    }
  }

  // ---- Hashes: 64 hex digits ----

  const HASH_DIGITS: nat := 64

  function Pow16(e: nat): nat {
    if e == 0 then 1 else Pow16(e - 1) * 16
  }

  lemma {:induction false} Pow16Add(a: nat, b: nat)
    ensures Pow16(a + b) == Pow16(a) * Pow16(b)
  {
    if b > 0 {
      Pow16Add(a, b - 1);
    }
  }

  lemma HashesHave64Digits()
    ensures Pow16(HASH_DIGITS) == HASH_LIMIT
  {
    assert Pow16(4) == 0x1_0000 by { Pow16Add(2, 2); }
    assert Pow16(8) == 0x1_0000_0000 by { Pow16Add(4, 4); }
    assert Pow16(16) == 0x1_0000_0000_0000_0000 by { Pow16Add(8, 8); }
    assert Pow16(32) == 0x1_0000_0000_0000_0000_0000_0000_0000_0000 by { Pow16Add(16, 16); }
    Pow16Add(32, 32);
  }

  function HexNumber(n: nat, width: nat): string {
    if width == 0 then [] else HexNumber(n / 16, width - 1) + [HexDigit(n % 16)]
  }

  function HexNumberValue(s: string): (n: nat)
    requires AllHex(s)
    ensures n < Pow16(|s|)
  {
    if s == [] then 0
    else HexNumberValue(s[..|s| - 1]) * 16 + HexDigitValue(s[|s| - 1]).value
  }

  lemma {:induction false} HexNumberRoundTrip(n: nat, width: nat)
    requires n < Pow16(width)
    ensures |HexNumber(n, width)| == width && AllHex(HexNumber(n, width))
    ensures HexNumberValue(HexNumber(n, width)) == n
  {
    if width > 0 {
      HexNumberRoundTrip(n / 16, width - 1);
      assert HexNumber(n, width)[..width - 1] == HexNumber(n / 16, width - 1);
    }
  }

  // ---- The text of an entry ----

  function Quoted(s: string): string { ['"'] + s + ['"'] }

  function HashText(h: Hash): string { "0x" + HexNumber(h, HASH_DIGITS) }

  const HEIGHT_KEY := "\"block_height\":"
  const HASH_KEY := ",\"block_hash\":"
  const CELESTIA_KEY := ",\"celestia_height\":"
  const COMMITMENT_KEY := ",\"commitment\":"

  function NumberField(key: string, n: nat): string { key + Decimal(n) }

  function StringField(key: string, body: string): string { key + Quoted(body) }

  function Fields(e: IndexEntry): string {
    NumberField(HEIGHT_KEY, e.blockHeight) +
    (StringField(HASH_KEY, HashText(e.blockHash)) +
    (NumberField(CELESTIA_KEY, e.celestiaHeight) +
    StringField(COMMITMENT_KEY, HexEncode(e.commitment))))
  }

  function ToJson(e: IndexEntry): string { Braced(Fields(e)) }

  // ---- Reading it back ----

  function Skip(literal: string, s: string): (rest: Option<string>)
    ensures rest.Some? <==> literal <= s
    ensures rest.Some? ==> s == literal + rest.value
  {
    if literal <= s then Some(s[|literal|..]) else None
  }

  function DigitsAhead(s: string): (k: nat)
    ensures k <= |s| && (forall i :: 0 <= i < k ==> IsDigit(s[i])) && (k < |s| ==> !IsDigit(s[k]))
  {
    if s == [] || !IsDigit(s[0]) then 0 else 1 + DigitsAhead(s[1..])
  }

  function ReadU64(s: string): Option<(U64, string)> {
    var k := DigitsAhead(s);
    if k == 0 || (k > 1 && s[0] == '0') then None
    else
      var n := DecimalValue(s[..k]);
      if n >= 0x1_0000_0000_0000_0000 then None else Some((n, s[k..]))
  }

  function QuoteAhead(s: string): (k: nat)
    ensures k <= |s| && (forall i :: 0 <= i < k ==> s[i] != '"') && (k < |s| ==> s[k] == '"')
  {
    if s == [] || s[0] == '"' then 0 else 1 + QuoteAhead(s[1..])
  }

  function ReadQuoted(s: string): (r: Option<(string, string)>)
    ensures r.Some? ==> s == Quoted(r.value.0) + r.value.1
  {
    if s == [] || s[0] != '"' then None
    else
      var k := QuoteAhead(s[1..]);
      if k == |s| - 1 then None else Some((s[1..k + 1], s[k + 2..]))
  }

  function ReadHash(s: string): Option<Hash> {
    var digits :- Skip("0x", s);
    if |digits| != HASH_DIGITS || !AllHex(digits) then None
    else
      HashesHave64Digits();
      Some(HexNumberValue(digits))
  }

  function ReadNumberField(key: string, s: string): Option<(U64, string)> {
    var value :- Skip(key, s);
    ReadU64(value)
  }

  function ReadStringField(key: string, s: string): Option<(string, string)> {
    var value :- Skip(key, s);
    ReadQuoted(value)
  }

  /** Height and hash, the first half of the fields. */
  function ReadBlock(s: string): Option<((U64, Hash), string)> {
    var (height, rest) :- ReadNumberField(HEIGHT_KEY, s);
    var (text, rest') :- ReadStringField(HASH_KEY, rest);
    var hash :- ReadHash(text);
    Some(((height, hash), rest'))
  }

  /** Where it is on Celestia, the second half. */
  function ReadLocation(s: string): Option<((U64, seq<Byte>), string)> {
    var (height, rest) :- ReadNumberField(CELESTIA_KEY, s);
    var (text, rest') :- ReadStringField(COMMITMENT_KEY, rest);
    var commitment :- HexDecode(text);
    Some(((height, commitment), rest'))
  }

  function ReadFields(s: string): Option<(IndexEntry, string)> {
    var (block, rest) :- ReadBlock(s);
    var (location, rest') :- ReadLocation(rest);
    Some((IndexEntry(block.0, block.1, location.0, location.1), rest'))
  }

  function FromJson(s: string): Option<IndexEntry> {
    var inside :- Skip("{", s);
    var (entry, rest) :- ReadFields(inside);
    if rest == "}" then Some(entry) else None
  }

  // ---- Round trip ----

  lemma SkipBack(literal: string, rest: string)
    ensures Skip(literal, literal + rest) == Some(rest)
  {
  }

  lemma {:induction false} DigitsBack(digits: string, rest: string)
    requires forall i :: 0 <= i < |digits| ==> IsDigit(digits[i])
    requires rest != [] && !IsDigit(rest[0])
    ensures DigitsAhead(digits + rest) == |digits|
  {
    var k := DigitsAhead(digits + rest);
    assert (digits + rest)[|digits|] == rest[0];
  }

  lemma ReadU64Back(n: U64, rest: string)
    requires rest != [] && !IsDigit(rest[0])
    ensures ReadU64(Decimal(n) + rest) == Some((n, rest))
  {
    var s := Decimal(n) + rest;
    DecimalRoundTrip(n);
    DigitsBack(Decimal(n), rest);
    assert s[..|Decimal(n)|] == Decimal(n) && s[|Decimal(n)|..] == rest;
    if s[0] == '0' {
      assert Decimal(0) == ['0'];
    }
  }

  lemma ReadQuotedBack(body: string, rest: string)
    requires '"' !in body
    ensures ReadQuoted(Quoted(body) + rest) == Some((body, rest))
  {
    var s := Quoted(body) + rest;
    var k := QuoteAhead(s[1..]);
    assert s[1..] == body + ['"'] + rest;
    assert s[1..][|body|] == '"';
    assert k >= |body|;
    assert k == |body|;
    assert s[1..k + 1] == body && s[k + 2..] == rest;
  }

  lemma ReadHashBack(h: Hash)
    ensures ReadHash(HashText(h)) == Some(h) && '"' !in HashText(h)
  {
    HashesHave64Digits();
    HexNumberRoundTrip(h, HASH_DIGITS);
    SkipBack("0x", HexNumber(h, HASH_DIGITS));
  }

  lemma NumberFieldBack(key: string, n: U64, rest: string)
    requires rest != [] && !IsDigit(rest[0])
    ensures ReadNumberField(key, NumberField(key, n) + rest) == Some((n, rest))
  {
    assert NumberField(key, n) + rest == key + (Decimal(n) + rest);
    SkipBack(key, Decimal(n) + rest);
    ReadU64Back(n, rest);
  }

  lemma StringFieldBack(key: string, body: string, rest: string)
    requires '"' !in body
    ensures ReadStringField(key, StringField(key, body) + rest) == Some((body, rest))
  {
    assert StringField(key, body) + rest == key + (Quoted(body) + rest);
    SkipBack(key, Quoted(body) + rest);
    ReadQuotedBack(body, rest);
  }

  lemma {:induction false} BlockBack(height: U64, hash: Hash, rest: string)
    ensures ReadBlock(NumberField(HEIGHT_KEY, height) + (StringField(HASH_KEY, HashText(hash)) + rest))
         == Some(((height, hash), rest))
  {
    var rest' := StringField(HASH_KEY, HashText(hash)) + rest;
    assert rest'[0] == HASH_KEY[0] == ',';
    NumberFieldBack(HEIGHT_KEY, height, rest');
    ReadHashBack(hash);
    StringFieldBack(HASH_KEY, HashText(hash), rest);
  }

  lemma {:induction false} LocationBack(height: U64, commitment: seq<Byte>, rest: string)
    ensures ReadLocation(NumberField(CELESTIA_KEY, height)
                         + (StringField(COMMITMENT_KEY, HexEncode(commitment)) + rest))
         == Some(((height, commitment), rest))
  {
    var rest' := StringField(COMMITMENT_KEY, HexEncode(commitment)) + rest;
    assert rest'[0] == COMMITMENT_KEY[0] == ',';
    NumberFieldBack(CELESTIA_KEY, height, rest');
    HexRoundTrip(commitment);
    StringFieldBack(COMMITMENT_KEY, HexEncode(commitment), rest);
  }

  lemma {:induction false} FieldsRoundTrip(e: IndexEntry, rest: string)
    ensures ReadFields(Fields(e) + rest) == Some((e, rest))
  {
    var a, b := NumberField(HEIGHT_KEY, e.blockHeight), StringField(HASH_KEY, HashText(e.blockHash));
    var c, d := NumberField(CELESTIA_KEY, e.celestiaHeight), StringField(COMMITMENT_KEY, HexEncode(e.commitment));
    assert Fields(e) + rest == a + (b + (c + (d + rest)));
    BlockBack(e.blockHeight, e.blockHash, c + (d + rest));
    LocationBack(e.celestiaHeight, e.commitment, rest);
  }

  /** Every entry reads back as itself. */
  lemma {:induction false} JsonRoundTrip(e: IndexEntry)
    ensures FromJson(ToJson(e)) == Some(e)
  {
    assert ToJson(e) == "{" + (Fields(e) + "}");
    SkipBack("{", Fields(e) + "}");
    FieldsRoundTrip(e, "}");
  }

  // ---- What is written ----

  /** Digit j of n in the given base, counted from the last. */
  function DigitAt(n: nat, base: nat, j: nat): (d: nat)
    requires base == 10 || base == 16
    ensures d < base
  {
    if j == 0 then (if base == 10 then n % 10 else n % 16)
    else DigitAt(if base == 10 then n / 10 else n / 16, base, j - 1)
  }

  lemma {:induction false} DecimalPositions(n: nat, j: nat)
    requires j < |Decimal(n)|
    ensures Decimal(n)[|Decimal(n)| - 1 - j] == "0123456789"[DigitAt(n, 10, j)]
  {
    if j > 0 {
      DecimalPositions(n / 10, j - 1);
    } else {
      DigitTables(n % 10);
    }
  }

  lemma DigitTables(d: nat)
    ensures d < 10 ==> DecimalDigit(d) == "0123456789"[d]
    ensures d < 16 ==> HexDigit(d) == "0123456789abcdef"[d]
  {
  }

  lemma {:induction false} HexNumberPositions(n: nat, width: nat, j: nat)
    requires j < width
    ensures |HexNumber(n, width)| == width
    ensures HexNumber(n, width)[width - 1 - j] == "0123456789abcdef"[DigitAt(n, 16, j)]
  {
    HexNumberWidth(n / 16, width - 1);
    if j > 0 {
      HexNumberPositions(n / 16, width - 1, j - 1);
    } else {
      DigitTables(n % 16);
    }
  }

  lemma {:induction false} HexNumberWidth(n: nat, width: nat)
    ensures |HexNumber(n, width)| == width
  {
    if width > 0 {
      HexNumberWidth(n / 16, width - 1);
    }
  }

  /** High half of each byte first, in lower case. */
  lemma {:induction false} HexPositions(bytes: seq<Byte>, i: nat)
    requires i < |bytes|
    ensures |HexEncode(bytes)| == 2 * |bytes|
    ensures HexEncode(bytes)[2 * i] == "0123456789abcdef"[bytes[i] / 16]
    ensures HexEncode(bytes)[2 * i + 1] == "0123456789abcdef"[bytes[i] % 16]
  {
    var before := bytes[..|bytes| - 1];
    HexRoundTrip(before);
    if i < |before| {
      HexPositions(before, i);
    } else {
      DigitTables(bytes[i] / 16);
      DigitTables(bytes[i] % 16);
    }
  }

  lemma Escapes()
    ensures ",\"block_hash\":\"0x" == HASH_KEY + "\"0x"
    ensures "\",\"celestia_height\":" == "\"" + CELESTIA_KEY
    ensures ",\"commitment\":\"" == COMMITMENT_KEY + "\""
    ensures "{\"block_height\":" == "{" + HEIGHT_KEY
  {
  }

  lemma Joined(k: string, a: string, l: string, b: string, m: string, c: string, n: string, d: string)
    ensures "{" + (k + a + (l + (['"'] + ("0x" + b) + ['"']) + (m + c + (n + (['"'] + d + ['"']))))) + "}"
         == ("{" + k) + a + (l + "\"0x") + b + ("\"" + m) + c + (n + "\"") + d + "\"}"
  {
    var right := c + (n + "\"") + d + "\"}";
    assert m + c + (n + (['"'] + d + ['"'])) + "}" == m + right;
    assert l + (['"'] + ("0x" + b) + ['"']) + (m + right) == (l + "\"0x") + b + ("\"" + m) + right;
  }

  /** One line of the index: the four fields by name and in order, heights in decimal, the
      hash as 64 hex digits after "0x", the commitment in hex. */
  lemma EntryText(e: IndexEntry)
    ensures ToJson(e) ==
      "{\"block_height\":" + Decimal(e.blockHeight) + ",\"block_hash\":\"0x" + HexNumber(e.blockHash, 64)
      + "\",\"celestia_height\":" + Decimal(e.celestiaHeight) + ",\"commitment\":\"" + HexEncode(e.commitment)
      + "\"}"
  {
    Escapes();
    Joined(HEIGHT_KEY, Decimal(e.blockHeight), HASH_KEY, HexNumber(e.blockHash, HASH_DIGITS),
           CELESTIA_KEY, Decimal(e.celestiaHeight), COMMITMENT_KEY, HexEncode(e.commitment));
  }

  // ---- What accepted texts look like ----

  lemma QuotedIsPlain(body: string)
    requires Simple(body) && forall i :: 0 <= i < |body| ==> body[i] != '"'
    ensures Plain(Quoted(body))
  {
    NoQuotes(body);
    OddTogether(['"'] + body, ['"']);
    OddTogether(['"'], body);
    assert OddQuotes(['"']) by { assert ['"'][..0] == []; }
  }

  lemma KeyIsPlain(lead: string, name: string, key: string)
    requires lead == "" || lead == ","
    requires Simple(name) && forall i :: 0 <= i < |name| ==> name[i] != '"'
    requires key == lead + Quoted(name) + ":"
    ensures Plain(key)
  {
    QuotedIsPlain(name);
    NoQuotes(lead);
    NoQuotes(":");
    PlainTogether(lead, Quoted(name));
    PlainTogether(lead + Quoted(name), ":");
  }

  lemma HeightKeyIsPlain()
    ensures Plain(HEIGHT_KEY)
  {
    assert HEIGHT_KEY == "" + Quoted("block_height") + ":";
    KeyIsPlain("", "block_height", HEIGHT_KEY);
  }

  lemma HashKeyIsPlain()
    ensures Plain(HASH_KEY)
  {
    assert HASH_KEY == "," + Quoted("block_hash") + ":";
    KeyIsPlain(",", "block_hash", HASH_KEY);
  }

  lemma CelestiaKeyIsPlain()
    ensures Plain(CELESTIA_KEY)
  {
    assert CELESTIA_KEY == "," + Quoted("celestia_height") + ":";
    KeyIsPlain(",", "celestia_height", CELESTIA_KEY);
  }

  lemma CommitmentKeyIsPlain()
    ensures Plain(COMMITMENT_KEY)
  {
    assert COMMITMENT_KEY == "," + Quoted("commitment") + ":";
    KeyIsPlain(",", "commitment", COMMITMENT_KEY);
  }

  lemma KeysArePlain()
    ensures Plain(HEIGHT_KEY) && Plain(HASH_KEY) && Plain(CELESTIA_KEY) && Plain(COMMITMENT_KEY)
  {
    HeightKeyIsPlain();
    HashKeyIsPlain();
    CelestiaKeyIsPlain();
    CommitmentKeyIsPlain();
  }

  lemma NumberTextIsPlain(key: string, n: nat)
    requires Plain(key)
    ensures Plain(NumberField(key, n))
  {
    DecimalRoundTrip(n);
    DigitTextIsPlain(Decimal(n));
    PlainTogether(key, Decimal(n));
  }

  lemma DigitTextIsPlain(s: string)
    requires forall i :: 0 <= i < |s| ==> IsDigit(s[i])
    ensures Plain(s)
  {
    NoQuotes(s);
  }

  lemma HexTextIsPlain(s: string)
    requires AllHex(s)
    ensures Plain(s) && forall i :: 0 <= i < |s| ==> s[i] != '"'
  {
    assert forall i :: 0 <= i < |s| ==> HexDigitValue(s[i]).Some?;
    NoQuotes(s);
  }

  /** Quotable: nothing in it needs an escape or looks like the end of the string. */
  predicate Quotable(s: string) { Simple(s) && forall i :: 0 <= i < |s| ==> s[i] != '"' }

  lemma StringTextIsPlain(key: string, body: string)
    requires Plain(key) && Quotable(body)
    ensures Plain(StringField(key, body))
  {
    QuotedIsPlain(body);
    PlainTogether(key, Quoted(body));
  }

  lemma EntriesArePlain(e: IndexEntry)
    ensures Plain(Fields(e))
  {
    var a, b := NumberField(HEIGHT_KEY, e.blockHeight), StringField(HASH_KEY, HashText(e.blockHash));
    var c, d := NumberField(CELESTIA_KEY, e.celestiaHeight), StringField(COMMITMENT_KEY, HexEncode(e.commitment));
    assert Plain(a) && Plain(c) by {
      KeysArePlain();
      NumberTextIsPlain(HEIGHT_KEY, e.blockHeight);
      NumberTextIsPlain(CELESTIA_KEY, e.celestiaHeight);
    }
    assert Plain(b) by {
      KeysArePlain();
      ReadHashBack(e.blockHash);
      ReadHashIsQuotable(HashText(e.blockHash));
      StringTextIsPlain(HASH_KEY, HashText(e.blockHash));
    }
    assert Plain(d) by {
      KeysArePlain();
      HexRoundTrip(e.commitment);
      HexTextIsPlain(HexEncode(e.commitment));
      StringTextIsPlain(COMMITMENT_KEY, HexEncode(e.commitment));
    }
    PlainTogether(c, d);
    PlainTogether(b, c + d);
    PlainTogether(a, b + (c + d));
  }

  /** `rest` is what is left of `s` after a plain beginning. */
  predicate PlainUpTo(s: string, rest: string) {
    |rest| <= |s| && s[|s| - |rest|..] == rest && Plain(s[..|s| - |rest|])
  }

  lemma PlainFurther(s: string, t: string, u: string)
    requires PlainUpTo(s, t) && PlainUpTo(t, u)
    ensures PlainUpTo(s, u)
  {
    assert s[..|s| - |u|] == s[..|s| - |t|] + t[..|t| - |u|];
    assert s == s[..|s| - |t|] + t;
    PlainTogether(s[..|s| - |t|], t[..|t| - |u|]);
  }

  lemma {:induction false} DigitsArePlain(s: string)
    ensures var k := DigitsAhead(s); PlainUpTo(s, s[k..])
  {
    var k := DigitsAhead(s);
    assert forall i :: 0 <= i < k ==> IsDigit(s[i]);
    DigitTextIsPlain(s[..k]);
  }

  lemma SkipIsPlain(literal: string, s: string)
    requires Plain(literal) && literal <= s
    ensures PlainUpTo(s, s[|literal|..])
  {
    assert s[..|s| - |s[|literal|..]|] == literal;
  }

  lemma NumberFieldIsPlain(key: string, s: string)
    requires Plain(key) && ReadNumberField(key, s).Some?
    ensures PlainUpTo(s, ReadNumberField(key, s).value.1)
  {
    var value := s[|key|..];
    SkipIsPlain(key, s);
    DigitsArePlain(value);
    var rest := value[DigitsAhead(value)..];
    assert ReadNumberField(key, s).value.1 == rest;
    PlainFurther(s, value, rest);
  }

  lemma StringFieldIsPlain(key: string, s: string)
    requires Plain(key) && ReadStringField(key, s).Some? && Quotable(ReadStringField(key, s).value.0)
    ensures PlainUpTo(s, ReadStringField(key, s).value.1)
  {
    var value := s[|key|..];
    var (body, rest) := ReadQuoted(value).value;
    assert value[..|value| - |rest|] == Quoted(body);
    QuotedIsPlain(body);
    SkipIsPlain(key, s);
    PlainFurther(s, value, rest);
  }

  lemma ReadHashIsQuotable(s: string)
    requires ReadHash(s).Some?
    ensures Quotable(s)
  {
    HexTextIsPlain(s[2..]);
    assert s == "0x" + s[2..];
  }

  lemma {:induction false} ReadBlockIsPlain(s: string)
    requires ReadBlock(s).Some?
    ensures PlainUpTo(s, ReadBlock(s).value.1)
  {
    KeysArePlain();
    var rest := ReadNumberField(HEIGHT_KEY, s).value.1;
    var (text, rest') := ReadStringField(HASH_KEY, rest).value;
    NumberFieldIsPlain(HEIGHT_KEY, s);
    ReadHashIsQuotable(text);
    StringFieldIsPlain(HASH_KEY, rest);
    PlainFurther(s, rest, rest');
  }

  lemma {:induction false} ReadLocationIsPlain(s: string)
    requires ReadLocation(s).Some?
    ensures PlainUpTo(s, ReadLocation(s).value.1)
  {
    KeysArePlain();
    var rest := ReadNumberField(CELESTIA_KEY, s).value.1;
    var (text, rest') := ReadStringField(COMMITMENT_KEY, rest).value;
    NumberFieldIsPlain(CELESTIA_KEY, s);
    HexTextIsPlain(text);
    StringFieldIsPlain(COMMITMENT_KEY, rest);
    PlainFurther(s, rest, rest');
  }

  lemma {:induction false} ReadFieldsIsPlain(s: string)
    requires ReadFields(s).Some?
    ensures PlainUpTo(s, ReadFields(s).value.1)
  {
    var rest := ReadBlock(s).value.1;
    ReadBlockIsPlain(s);
    ReadLocationIsPlain(rest);
    PlainFurther(s, rest, ReadLocation(rest).value.1);
  }

  lemma BracedIsBraced(s: string, inside: string, rest: string)
    requires s == "{" + inside && rest == "}" && PlainUpTo(inside, rest)
    ensures s == Braced(inside[..|inside| - 1]) && Plain(inside[..|inside| - 1])
  {
    assert inside == inside[..|inside| - 1] + rest;
  }

  /** The reader above accepts only single closed objects. */
  lemma {:induction false} AcceptedIsClosed(s: string)
    requires FromJson(s).Some?
    ensures IsClosed(s)
  {
    var inside := Skip("{", s).value;
    ReadFieldsIsPlain(inside);
    BracedIsBraced(s, inside, ReadFields(inside).value.1);
    BracedIsClosed(inside[..|inside| - 1]);
  }

  // ---- Any reader ----

  /** All that is asked of a reader of entries: it reads back what is written, and what it
      accepts is one closed JSON text. In what order it takes fields, which ones it ignores,
      and what white space and escapes it understands is left open. */
  ghost predicate ReadsEntries(read: string -> Option<IndexEntry>) {
    && (forall e :: read(ToJson(e)) == Some(e))
    && (forall s :: read(s).Some? ==> IsClosed(s))
  }

  lemma {:induction false} FromJsonReadsEntries()
    ensures ReadsEntries(FromJson)
  {
    forall e
      ensures FromJson(ToJson(e)) == Some(e)
    {
      JsonRoundTrip(e);
    }
    forall s | FromJson(s).Some?
      ensures IsClosed(s)
    {
      AcceptedIsClosed(s);
    }
  }

  /** No reader takes a text cut short anywhere for an entry. */
  lemma {:induction false} CutTextIsNoEntry(read: string -> Option<IndexEntry>, e: IndexEntry, k: nat)
    requires ReadsEntries(read) && k < |ToJson(e)|
    ensures read(ToJson(e)[..k]).None?
  {
    EntriesArePlain(e);
    CutIsNotClosed(Fields(e), k);
  }

  /** Nor a cut or whole text followed by another on the same line. */
  lemma {:induction false} MergedTextIsNoEntry(read: string -> Option<IndexEntry>, e: IndexEntry, k: nat, f: IndexEntry)
    requires ReadsEntries(read) && 0 < k <= |ToJson(e)|
    ensures read(ToJson(e)[..k] + ToJson(f)).None?
  {
    EntriesArePlain(e);
    EntriesArePlain(f);
    MergedIsNotClosed(Fields(e), k, Fields(f));
  }
}
