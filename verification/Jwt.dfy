/** Engine API tokens: HMAC as RFC 2104 defines it, and the compact form of RFC 7515.
    SHA-256 is a parameter of which only the digest length is known. */
module Jwt {
  import opened Types
  import opened Base64Url
  import opened IndexJson
  import opened Sorting

  const HMAC_BLOCK_SIZE: nat := 64
  const DIGEST_SIZE: nat := 32

  type Hash256 = seq<Byte> -> seq<Byte>

  ghost predicate IsHash256(hash: Hash256) {
    forall data :: |hash(data)| == DIGEST_SIZE
  }

  // ---- RFC 2104, section 2 ----

  function Xor(a: Byte, b: Byte): Byte { ((a as bv8) ^ (b as bv8)) as int }

  /** Steps (1), (2) and (5): the block XORed with a repeated byte. */
  function XorBlock(block: seq<Byte>, pad: Byte): (r: seq<Byte>)
    ensures |r| == |block|
  {
    seq(|block|, i requires 0 <= i < |block| => Xor(pad, block[i]))
  }

  /** Keys longer than a block are hashed first; then zeros are appended to fill one block. */
  function KeyBlock(hash: Hash256, key: seq<Byte>): seq<Byte> {
    var k := if |key| > HMAC_BLOCK_SIZE then hash(key) else key;
    if |k| < HMAC_BLOCK_SIZE then k + seq(HMAC_BLOCK_SIZE - |k|, i => 0) else k
  }

  function Rfc2104(hash: Hash256, key: seq<Byte>, text: seq<Byte>): seq<Byte> {
    var block := KeyBlock(hash, key);
    hash(XorBlock(block, 0x5c) + hash(XorBlock(block, 0x36) + text))
  }

  /** Byte i of a key that fits a block, padded with zeros. */
  function Padded(key: seq<Byte>, i: nat): Byte { if i < |key| then key[i] else 0 }

  /** In the words of the RFC: H(K XOR opad, H(K XOR ipad, text)), for K the key or, when it is
      longer than a block, its digest. */
  lemma HmacInPadBytes(hash: Hash256, key: seq<Byte>, text: seq<Byte>)
    requires IsHash256(hash)
    ensures var k := if |key| > 64 then hash(key) else key;
            Rfc2104(hash, key, text)
            == hash(seq(64, i requires 0 <= i => ((Padded(k, i) as bv8) ^ 0x5c) as int)
                    + hash(seq(64, i requires 0 <= i => ((Padded(k, i) as bv8) ^ 0x36) as int) + text))
  {
    var k := if |key| > 64 then hash(key) else key;
    assert XorBlock(KeyBlock(hash, key), 0x5c) == seq(64, i requires 0 <= i => ((Padded(k, i) as bv8) ^ 0x5c) as int);
    assert XorBlock(KeyBlock(hash, key), 0x36) == seq(64, i requires 0 <= i => ((Padded(k, i) as bv8) ^ 0x36) as int);
  }

  /** XORs every byte of `block` into `target`, in place. */
  method XorInto(target: array<Byte>, block: array<Byte>, ghost pad: Byte)
    requires target != block && target.Length == block.Length
    requires forall i :: 0 <= i < target.Length ==> target[i] == pad
    modifies target
    ensures target[..] == XorBlock(block[..], pad)
  {
    for i := 0 to block.Length
      invariant forall j :: 0 <= j < i ==> target[j] == Xor(pad, block[j])
      invariant forall j :: i <= j < block.Length ==> target[j] == pad
    {
      target[i] := Xor(target[i], block[i]);
    }
  }

  method FillKeyBlock(hash: Hash256, key: seq<Byte>) returns (block: array<Byte>)
    requires IsHash256(hash)
    ensures fresh(block) && block[..] == KeyBlock(hash, key)
  {
    block := new Byte[HMAC_BLOCK_SIZE](i => 0);
    var k := if |key| > HMAC_BLOCK_SIZE then hash(key) else key;
    for i := 0 to |k|
      invariant block[..i] == k[..i]
      invariant forall j :: i <= j < HMAC_BLOCK_SIZE ==> block[j] == 0
    {
      block[i] := k[i];
    }
  }

  method HmacSha256(hash: Hash256, key: seq<Byte>, message: seq<Byte>) returns (output: seq<Byte>)
    requires IsHash256(hash)
    ensures output == Rfc2104(hash, key, message) && |output| == DIGEST_SIZE
  {
    var keyBlock := FillKeyBlock(hash, key);
    var inner := new Byte[keyBlock.Length](i => 0x36);
    XorInto(inner, keyBlock, 0x36);
    var outer := new Byte[keyBlock.Length](i => 0x5c);
    XorInto(outer, keyBlock, 0x5c);
    var innerHash := hash(inner[..] + message);
    output := hash(outer[..] + innerHash);
  }

  // ---- The token ----

  datatype TokenResult = Token(text: string) | InvalidHex | WrongLength(length: nat)

  predicate Ascii(s: string) {
    forall i :: 0 <= i < |s| ==> s[i] as int < 128
  }

  function AsBytes(s: string): (bytes: seq<Byte>)
    requires Ascii(s)
    ensures |bytes| == |s|
  {
    seq(|s|, i requires 0 <= i < |s| => s[i] as int)
  }

  function TrimStart(s: string): string {
    if "0x" <= s then TrimStart(s[2..]) else s
  }

  const HEADER := "{\"alg\":\"HS256\",\"typ\":\"JWT\"}"

  function Claims(now: nat): string { "{\"iat\":" + Decimal(now) + "}" }

  lemma PartsAreAscii(now: nat)
    ensures Ascii(HEADER) && Ascii(Claims(now))
  {
    DecimalRoundTrip(now);
    var number := Decimal(now);
    assert forall i :: 0 <= i < |number| ==> IsDigit(number[i]);
  }

  lemma EncodedIsAscii(data: seq<Byte>)
    ensures Ascii(Encode(data))
  {
    EncodedIsUrlSafe(data);
  }

  function HeaderText(): string {
    PartsAreAscii(0);
    Encode(AsBytes(HEADER))
  }

  function ClaimsText(now: nat): string {
    PartsAreAscii(now);
    Encode(AsBytes(Claims(now)))
  }

  function Message(now: nat): (m: string)
    ensures Ascii(m)
  {
    EncodedIsAscii(AsBytes(HEADER));
    PartsAreAscii(now);
    EncodedIsAscii(AsBytes(Claims(now)));
    HeaderText() + "." + ClaimsText(now)
  }

  function Signature(hash: Hash256, key: seq<Byte>, now: nat): seq<Byte> {
    Rfc2104(hash, key, AsBytes(Message(now)))
  }

  function BuildToken(hash: Hash256, secret: string, now: nat): TokenResult {
    match HexDecode(TrimStart(secret))
    case None => InvalidHex
    case Some(key) =>
      if |key| != 32 then WrongLength(|key|)
      else Token(Message(now) + "." + Encode(Signature(hash, key, now)))
  }

  /** Sequence of the parts between separators. */
  function Split(s: string, separator: char): (parts: seq<string>)
    ensures |parts| > 0
  {
    if s == "" then [""]
    else
      var rest := Split(s[1..], separator);
      if s[0] == separator then [""] + rest else [[s[0]] + rest[0]] + rest[1..]
  }

  lemma {:induction false} SplitWhole(part: string, separator: char)
    requires separator !in part
    ensures Split(part, separator) == [part]
  {
    if part != "" {
      SplitWhole(part[1..], separator);
      assert part == [part[0]] + part[1..];
    }
  }

  lemma {:induction false} SplitFirst(part: string, rest: string, separator: char)
    requires separator !in part
    ensures Split(part + [separator] + rest, separator) == [part] + Split(rest, separator)
  {
    var s := part + [separator] + rest;
    if part == "" {
      assert s[1..] == rest;
    } else {
      SplitFirst(part[1..], rest, separator);
      assert s[1..] == part[1..] + [separator] + rest;
      assert part == [part[0]] + part[1..];
    }
  }

  lemma SplitThree(x: string, y: string, z: string, separator: char)
    requires separator !in x && separator !in y && separator !in z
    ensures Split(x + [separator] + y + [separator] + z, separator) == [x, y, z]
  {
    SplitWhole(z, separator);
    SplitFirst(y, z, separator);
    SplitFirst(x, y + [separator] + z, separator);
    assert x + [separator] + y + [separator] + z == x + [separator] + (y + [separator] + z);
  }

  /** What a receiver holding the key checks: three parts, and the signature over the
      first two (section 5.2 of RFC 7515). */
  predicate Accepts(hash: Hash256, key: seq<Byte>, token: string) {
    var parts := Split(token, '.');
    && |parts| == 3
    && Ascii(parts[0] + "." + parts[1])
    && Decode(parts[2]) == Some(Rfc2104(hash, key, AsBytes(parts[0] + "." + parts[1])))
  }

  /** The parts a receiver sees. */
  lemma {:induction false} TokenParts(hash: Hash256, secret: string, now: nat)
    requires BuildToken(hash, secret, now).Token?
    ensures HexDecode(TrimStart(secret)).Some?
    ensures Split(BuildToken(hash, secret, now).text, '.')
         == [HeaderText(), ClaimsText(now), Encode(Signature(hash, HexDecode(TrimStart(secret)).value, now))]
  {
    var key := HexDecode(TrimStart(secret)).value;
    PartsAreAscii(now);
    EncodedIsUrlSafe(AsBytes(HEADER));
    EncodedIsUrlSafe(AsBytes(Claims(now)));
    EncodedIsUrlSafe(Signature(hash, key, now));
    SplitThree(HeaderText(), ClaimsText(now), Encode(Signature(hash, key, now)), '.');
  }

  function Text(bytes: seq<Byte>): (s: string)
    ensures |s| == |bytes| && forall i :: 0 <= i < |s| ==> s[i] as int == bytes[i]
  {
    seq(|bytes|, i requires 0 <= i < |bytes| => bytes[i] as char)
  }

  /** The time of issue, from a claims object that holds nothing else. */
  function ReadClaims(claims: string): Option<nat> {
    var value :- Skip("{\"iat\":", claims);
    var k := DigitsAhead(value);
    if k == 0 || value[k..] != "}" then None else Some(DecimalValue(value[..k]))
  }

  lemma {:induction false} ClaimsCarryTheTime(now: nat)
    ensures Ascii(Claims(now)) && ReadClaims(Text(AsBytes(Claims(now)))) == Some(now)
  {
    PartsAreAscii(now);
    DecimalRoundTrip(now);
    DigitsBack(Decimal(now), "}");
    var claims := Claims(now);
    assert Text(AsBytes(claims)) == claims;
    assert claims == "{\"iat\":" + (Decimal(now) + "}");
    SkipBack("{\"iat\":", Decimal(now) + "}");
    var value := Decimal(now) + "}";
    assert value[..|Decimal(now)|] == Decimal(now) && value[|Decimal(now)|..] == "}";
  }

  /** A token is built exactly from secrets of 32 bytes in hex; its three parts decode to the
      header, claims that carry the time, and the signature, and the holder of the key accepts
      it. */
  lemma TokensAreAccepted(hash: Hash256, secret: string, now: nat)
    ensures BuildToken(hash, secret, now).Token?
       <==> AllHex(TrimStart(secret)) && |TrimStart(secret)| == 64
    ensures BuildToken(hash, secret, now).InvalidHex?
       <==> !AllHex(TrimStart(secret)) || |TrimStart(secret)| % 2 == 1
    ensures BuildToken(hash, secret, now).WrongLength? ==>
              2 * BuildToken(hash, secret, now).length == |TrimStart(secret)|
    ensures BuildToken(hash, secret, now).Token? ==>
      && var token := BuildToken(hash, secret, now).text;
         var parts := Split(token, '.');
      && |parts| == 3
      && Decode(parts[0]).Some? && Text(Decode(parts[0]).value) == "{\"alg\":\"HS256\",\"typ\":\"JWT\"}"
      && Decode(parts[1]).Some? && ReadClaims(Text(Decode(parts[1]).value)) == Some(now)
      && Accepts(hash, HexDecode(TrimStart(secret)).value, token)
  {
    HexDecodeAccepts(TrimStart(secret));
    HexDecodeLength(TrimStart(secret));
    if BuildToken(hash, secret, now).Token? {
      TokenParts(hash, secret, now);
      ClaimsCarryTheTime(now);
      PartsAreAscii(now);
      assert Text(AsBytes(HEADER)) == HEADER;
      DecodeInvertsEncode(AsBytes(HEADER));
      DecodeInvertsEncode(AsBytes(Claims(now)));
      DecodeInvertsEncode(Signature(hash, HexDecode(TrimStart(secret)).value, now));
    }
  }

  lemma {:induction false} HexDecodeLength(s: string)
    ensures HexDecode(s).Some? ==> |s| == 2 * |HexDecode(s).value|
  {
    if |s| >= 2 {
      HexDecodeLength(s[..|s| - 2]);
    }
  }

  /** Any number of "0x" prefixes makes no difference, and hex text itself has none. */
  lemma {:induction false} PrefixesAreIgnored(hash: Hash256, key: seq<Byte>, prefixes: nat, now: nat)
    requires |key| == 32
    ensures BuildToken(hash, Prefixed(HexEncode(key), prefixes), now)
         == Token(Message(now) + "." + Encode(Signature(hash, key, now)))
  {
    HexRoundTrip(key);
    TrimPrefixed(HexEncode(key), prefixes);
  }

  function Prefixed(s: string, prefixes: nat): string {
    if prefixes == 0 then s else "0x" + Prefixed(s, prefixes - 1)
  }

  lemma {:induction false} TrimPrefixed(s: string, prefixes: nat)
    requires AllHex(s)
    ensures TrimStart(Prefixed(s, prefixes)) == s
  {
    if prefixes == 0 {
      assert "0x" <= s ==> s[1] == 'x' && HexDigitValue('x').None?;
    } else {
      TrimPrefixed(s, prefixes - 1);
      assert Prefixed(s, prefixes)[2..] == Prefixed(s, prefixes - 1);
    }
  }
}
