/** The hand-written base64url encoder, against the bit-level definition of RFC 4648. */
module Base64Url {
  import opened Types
  import opened Sorting
  import opened Powers
  import opened ByteShifts

  // ---- RFC 4648: bits, groups of six, a 64-character alphabet ----

  /** Table 2 of section 5. */
  function Letter(v: nat): char
    requires v < 64
  {
    if v < 26 then 'A' + v as char
    else if v < 52 then 'a' + (v - 26) as char
    else if v < 62 then '0' + (v - 52) as char
    else if v == 62 then '-'
    else '_'
  }

  function LetterValue(c: char): (v: Option<nat>)
    ensures v.Some? ==> v.value < 64 && Letter(v.value) == c
  {
    if 'A' <= c <= 'Z' then Some(c as int - 'A' as int)
    else if 'a' <= c <= 'z' then Some(c as int - 'a' as int + 26)
    else if '0' <= c <= '9' then Some(c as int - '0' as int + 52)
    else if c == '-' then Some(62)
    else if c == '_' then Some(63)
    else None
  }

  /** The low `width` bits of `v`, most significant first. */
  function BitsOf(v: nat, width: nat): (bits: seq<bool>)
    ensures |bits| == width
  {
    if width == 0 then [] else BitsOf(v / 2, width - 1) + [v % 2 == 1]
  }

  function ValueOf(bits: seq<bool>): nat {
    if bits == [] then 0
    else 2 * ValueOf(bits[..|bits| - 1]) + if bits[|bits| - 1] then 1 else 0
  }

  function Bits(data: seq<Byte>): (bits: seq<bool>)
    ensures |bits| == 8 * |data|
  {
    if data == [] then [] else BitsOf(data[0], 8) + Bits(data[1..])
  }

  function Zeros(n: nat): (bits: seq<bool>)
    ensures |bits| == n && forall i :: 0 <= i < n ==> !bits[i]
  {
    seq(n, i => false)
  }

  /** Section 4: zero bits are added on the right to complete a group of six. */
  function ZeroPadded(bits: seq<bool>): (padded: seq<bool>)
    ensures |padded| % 6 == 0 && |padded| < |bits| + 6
  {
    bits + Zeros((6 - |bits| % 6) % 6)
  }

  function GroupLetter(group: seq<bool>): char
    requires |group| == 6
  {
    SixBitsBound(group);
    Letter(ValueOf(group))
  }

  function Letters(bits: seq<bool>): (text: string)
    requires |bits| % 6 == 0
    ensures 6 * |text| == |bits|
  {
    if bits == [] then [] else [GroupLetter(bits[..6])] + Letters(bits[6..])
  }

  /** Sections 3.2 and 5: URL-safe alphabet, no padding characters. */
  function Rfc4648(data: seq<Byte>): string { Letters(ZeroPadded(Bits(data))) }

  // ---- Bits and values ----

  lemma {:induction false} ValueBound(bits: seq<bool>)
    ensures ValueOf(bits) < Power2(|bits|)
  {
    if bits != [] {
      ValueBound(bits[..|bits| - 1]);
    }
  }

  lemma SmallPowers()
    ensures Power2(2) == 4 && Power2(4) == 16 && Power2(6) == 64 && Power2(8) == 256
  {
    assert Power2(6) == 4 * Power2(4);
  }

  lemma SixBitsBound(group: seq<bool>)
    requires |group| == 6
    ensures ValueOf(group) < 64
  {
    ValueBound(group);
    SmallPowers();
  }

  lemma {:induction false} BitsRoundTrip(v: nat, width: nat)
    requires v < Power2(width)
    ensures ValueOf(BitsOf(v, width)) == v
  {
    if width > 0 {
      BitsRoundTrip(v / 2, width - 1);
      assert BitsOf(v, width)[..width - 1] == BitsOf(v / 2, width - 1);
    }
  }

  lemma {:induction false} ValueRoundTrip(bits: seq<bool>)
    ensures BitsOf(ValueOf(bits), |bits|) == bits
  {
    if bits != [] {
      ValueRoundTrip(bits[..|bits| - 1]);
      assert bits == bits[..|bits| - 1] + [bits[|bits| - 1]];
    }
  }

  lemma Doubled(v: nat, p: nat)
    ensures v * (2 * p) == 2 * (v * p)
  {
  }

  /** Bits written one after the other are digits of the two values. */
  lemma {:induction false} ValueAppend(high: seq<bool>, low: seq<bool>)
    ensures ValueOf(high + low) == ValueOf(high) * Power2(|low|) + ValueOf(low)
  {
    if low == [] {
      assert high + low == high;
    } else {
      var front := low[..|low| - 1];
      ValueAppend(high, front);
      assert (high + low)[..|high + low| - 1] == high + front;
      assert ValueOf(high + low) == 2 * ValueOf(high + front) + (if low[|low| - 1] then 1 else 0);
      Doubled(ValueOf(high), Power2(|front|));
    }
  }

  lemma ByteRoundTrip(b: Byte)
    ensures ValueOf(BitsOf(b, 8)) == b
  {
    SmallPowers();
    BitsRoundTrip(b, 8);
  }

  predicate Spells(bits: seq<bool>, b: Byte) { |bits| == 8 && ValueOf(bits) == b }

  /** Cutting a byte's bits is dividing it by a power of two. */
  lemma CutByte(bits: seq<bool>, k: nat)
    requires k <= |bits|
    ensures ValueOf(bits) == ValueOf(bits[..k]) * Power2(|bits| - k) + ValueOf(bits[k..])
    ensures ValueOf(bits[k..]) < Power2(|bits| - k)
  {
    assert bits == bits[..k] + bits[k..];
    ValueAppend(bits[..k], bits[k..]);
    ValueBound(bits[k..]);
  }

  lemma CutAt2(bits: seq<bool>, b: Byte)
    requires Spells(bits, b)
    ensures ValueOf(bits[..2]) == b / 64 && ValueOf(bits[2..]) == b % 64
  {
    assert Power2(|bits| - 2) == 64 by { SmallPowers(); }
    CutByte(bits, 2);
    assert b == ValueOf(bits[..2]) * 64 + ValueOf(bits[2..]);
  }

  lemma CutAt4(bits: seq<bool>, b: Byte)
    requires Spells(bits, b)
    ensures ValueOf(bits[..4]) == b / 16 && ValueOf(bits[4..]) == b % 16
  {
    assert Power2(|bits| - 4) == 16 by { SmallPowers(); }
    CutByte(bits, 4);
    assert b == ValueOf(bits[..4]) * 16 + ValueOf(bits[4..]);
  }

  lemma CutAt6(bits: seq<bool>, b: Byte)
    requires Spells(bits, b)
    ensures ValueOf(bits[..6]) == b / 4 && ValueOf(bits[6..]) == b % 4
  {
    assert Power2(|bits| - 6) == 4 by { SmallPowers(); }
    CutByte(bits, 6);
    assert b == ValueOf(bits[..6]) * 4 + ValueOf(bits[6..]);
  }

  // ---- The encoder's own arithmetic ----

  /** The letters of one to three bytes, by division; the shifts and masks that the encoder
      uses are below. */
  function Quad(b0: Byte, b1: Byte, b2: Byte, count: nat): string
    requires 1 <= count <= 3
  {
    [Letter(b0 / 4), Letter(b0 % 4 * 16 + b1 / 16)]
    + (if count > 1 then [Letter(b1 % 16 * 4 + b2 / 64)] else [])
    + (if count > 2 then [Letter(b2 % 64)] else [])
  }

  function At(data: seq<Byte>, i: nat): Byte { if i < |data| then data[i] else 0 }

  function Count(data: seq<Byte>): nat { if |data| < 3 then |data| else 3 }

  function Encode(data: seq<Byte>): string {
    if data == [] then []
    else Quad(data[0], At(data, 1), At(data, 2), Count(data)) + Encode(data[Count(data)..])
  }

  // ---- They agree ----

  lemma JoinTwoFour(x: seq<bool>, y: seq<bool>)
    requires |x| == 2 && |y| == 4
    ensures ValueOf(x + y) == ValueOf(x) * 16 + ValueOf(y)
  {
    ValueAppend(x, y);
    SmallPowers();
  }

  lemma JoinFourTwo(x: seq<bool>, y: seq<bool>)
    requires |x| == 4 && |y| == 2
    ensures ValueOf(x + y) == ValueOf(x) * 4 + ValueOf(y)
  {
    ValueAppend(x, y);
    SmallPowers();
  }

  lemma FirstGroup(x: seq<bool>, b0: Byte)
    requires Spells(x, b0)
    ensures GroupLetter(x[..6]) == Letter(b0 / 4)
  {
    CutAt6(x, b0);
  }

  lemma SecondGroup(x: seq<bool>, b0: Byte, y: seq<bool>, b1: Byte)
    requires Spells(x, b0) && Spells(y, b1)
    ensures GroupLetter(x[6..] + y[..4]) == Letter(b0 % 4 * 16 + b1 / 16)
  {
    CutAt6(x, b0);
    CutAt4(y, b1);
    JoinTwoFour(x[6..], y[..4]);
  }

  lemma ThirdGroup(y: seq<bool>, b1: Byte, z: seq<bool>, b2: Byte)
    requires Spells(y, b1) && Spells(z, b2)
    ensures GroupLetter(y[4..] + z[..2]) == Letter(b1 % 16 * 4 + b2 / 64)
  {
    CutAt4(y, b1);
    CutAt2(z, b2);
    JoinFourTwo(y[4..], z[..2]);
  }

  lemma FourthGroup(z: seq<bool>, b2: Byte)
    requires Spells(z, b2)
    ensures GroupLetter(z[2..]) == Letter(b2 % 64)
  {
    CutAt2(z, b2);
  }

  lemma LettersCons(group: seq<bool>, rest: seq<bool>)
    requires |group| == 6 && |rest| % 6 == 0
    ensures |group + rest| % 6 == 0
    ensures Letters(group + rest) == [GroupLetter(group)] + Letters(rest)
  {
    assert (group + rest)[..6] == group && (group + rest)[6..] == rest;
  }

  /** Three bytes regrouped as four groups of six. */
  lemma Regroup<T>(x: seq<T>, y: seq<T>, z: seq<T>, rest: seq<T>)
    requires |x| == |y| == |z| == 8
    ensures x + y + z + rest == x[..6] + ((x[6..] + y[..4]) + ((y[4..] + z[..2]) + (z[2..] + rest)))
  {
  }

  lemma LettersTwo(g: seq<bool>, h: seq<bool>, rest: seq<bool>)
    requires |g| == |h| == 6 && |rest| % 6 == 0
    ensures |g + (h + rest)| % 6 == 0
    ensures Letters(g + (h + rest)) == [GroupLetter(g), GroupLetter(h)] + Letters(rest)
  {
    LettersCons(h, rest);
    LettersCons(g, h + rest);
    PairCons(GroupLetter(g), GroupLetter(h), Letters(rest));
  }

  lemma PairCons<T>(a: T, b: T, rest: seq<T>)
    ensures [a] + ([b] + rest) == [a, b] + rest
  {
  }

  lemma PairPair<T>(a: T, b: T, c: T, d: T, rest: seq<T>)
    ensures [a, b] + ([c, d] + rest) == [a, b, c, d] + rest
  {
  }

  lemma {:induction false} GroupLetters(g0: seq<bool>, g1: seq<bool>, g2: seq<bool>, g3: seq<bool>, rest: seq<bool>)
    requires |g0| == |g1| == |g2| == |g3| == 6 && |rest| % 6 == 0
    ensures Letters(g0 + (g1 + (g2 + (g3 + rest))))
         == [GroupLetter(g0), GroupLetter(g1), GroupLetter(g2), GroupLetter(g3)] + Letters(rest)
  {
    LettersTwo(g2, g3, rest);
    LettersTwo(g0, g1, g2 + (g3 + rest));
    PairPair(GroupLetter(g0), GroupLetter(g1), GroupLetter(g2), GroupLetter(g3), Letters(rest));
  }

  lemma {:induction false} QuadOfBits(
    x: seq<bool>, b0: Byte, y: seq<bool>, b1: Byte, z: seq<bool>, b2: Byte, rest: seq<bool>)
    requires Spells(x, b0) && Spells(y, b1) && Spells(z, b2) && |rest| % 6 == 0
    ensures Letters(x + y + z + rest) == Quad(b0, b1, b2, 3) + Letters(rest)
  {
    FirstGroup(x, b0);
    SecondGroup(x, b0, y, b1);
    ThirdGroup(y, b1, z, b2);
    FourthGroup(z, b2);
    Regroup(x, y, z, rest);
    GroupLetters(x[..6], x[6..] + y[..4], y[4..] + z[..2], z[2..], rest);
  }

  lemma {:induction false} QuadLetters(b0: Byte, b1: Byte, b2: Byte, rest: seq<bool>)
    requires |rest| % 6 == 0
    ensures Letters(BitsOf(b0, 8) + BitsOf(b1, 8) + BitsOf(b2, 8) + rest) == Quad(b0, b1, b2, 3) + Letters(rest)
  {
    ByteRoundTrip(b0);
    ByteRoundTrip(b1);
    ByteRoundTrip(b2);
    QuadOfBits(BitsOf(b0, 8), b0, BitsOf(b1, 8), b1, BitsOf(b2, 8), b2, rest);
  }

  lemma {:induction false} LettersPrefix(bits: seq<bool>, k: nat)
    requires |bits| % 6 == 0 && 6 * k <= |bits|
    ensures |bits[..6 * k]| % 6 == 0
    ensures Letters(bits[..6 * k]) == Letters(bits)[..k]
  {
    if k > 0 {
      LettersPrefix(bits[6..], k - 1);
      assert bits[..6 * k][..6] == bits[..6];
      assert bits[..6 * k][6..] == bits[6..][..6 * (k - 1)];
    }
  }

  lemma {:induction false} ZeroBits(width: nat)
    ensures BitsOf(0, width) == Zeros(width)
  {
    if width > 0 {
      ZeroBits(width - 1);
    }
  }

  lemma BitsOfOne(b: Byte)
    ensures Bits([b]) == BitsOf(b, 8)
  {
    assert Bits([]) == [];
  }

  lemma BitsOfTwo(b: Byte, c: Byte)
    ensures Bits([b, c]) == BitsOf(b, 8) + BitsOf(c, 8)
  {
    BitsOfOne(c);
    assert [b, c][1..] == [c];
  }

  lemma PadOne(x: seq<bool>, z: seq<bool>)
    requires |x| == 8 && z == Zeros(8)
    ensures ZeroPadded(x) == (x + z + z + [])[..12]
  {
  }

  lemma PadTwo(x: seq<bool>, y: seq<bool>, z: seq<bool>)
    requires |x| == |y| == 8 && z == Zeros(8)
    ensures ZeroPadded(x + y) == (x + y + z + [])[..18]
  {
  }

  lemma LettersOfOne(x: seq<bool>, b: Byte, z: seq<bool>)
    requires Spells(x, b) && Spells(z, 0) && z == Zeros(8)
    ensures Letters(ZeroPadded(x)) == Quad(b, 0, 0, 1)
  {
    QuadOfBits(x, b, z, 0, z, 0, []);
    LettersPrefix(x + z + z + [], 2);
    PadOne(x, z);
  }

  lemma LettersOfTwo(x: seq<bool>, b: Byte, y: seq<bool>, c: Byte, z: seq<bool>)
    requires Spells(x, b) && Spells(y, c) && Spells(z, 0) && z == Zeros(8)
    ensures Letters(ZeroPadded(x + y)) == Quad(b, c, 0, 2)
  {
    QuadOfBits(x, b, y, c, z, 0, []);
    LettersPrefix(x + y + z + [], 3);
    PadTwo(x, y, z);
  }

  lemma EncodeOne(b: Byte)
    ensures Encode([b]) == Quad(b, 0, 0, 1)
  {
    assert Encode([b]) == Quad(b, 0, 0, 1) + Encode([]);
  }

  lemma EncodeTwo(b: Byte, c: Byte)
    ensures Encode([b, c]) == Quad(b, c, 0, 2)
  {
    assert Encode([b, c]) == Quad(b, c, 0, 2) + Encode([]);
  }

  lemma OneByteAgrees(b: Byte)
    ensures Encode([b]) == Rfc4648([b])
  {
    EncodeOne(b);
    BitsOfOne(b);
    ByteRoundTrip(b);
    ByteRoundTrip(0);
    ZeroBits(8);
    LettersOfOne(BitsOf(b, 8), b, BitsOf(0, 8));
  }

  lemma TwoBytesAgree(b: Byte, c: Byte)
    ensures Encode([b, c]) == Rfc4648([b, c])
  {
    EncodeTwo(b, c);
    BitsOfTwo(b, c);
    ByteRoundTrip(b);
    ByteRoundTrip(c);
    ByteRoundTrip(0);
    ZeroBits(8);
    LettersOfTwo(BitsOf(b, 8), b, BitsOf(c, 8), c, BitsOf(0, 8));
  }

  lemma {:induction false} FirstThreeBits(data: seq<Byte>)
    requires |data| >= 3
    ensures Bits(data) == BitsOf(data[0], 8) + BitsOf(data[1], 8) + BitsOf(data[2], 8) + Bits(data[3..])
  {
    assert data[1..][1..] == data[2..] && data[2..][1..] == data[3..];
    assert Bits(data[2..]) == BitsOf(data[2], 8) + Bits(data[3..]);
    assert Bits(data[1..]) == BitsOf(data[1], 8) + Bits(data[2..]);
    Associative(BitsOf(data[1], 8), BitsOf(data[2], 8), Bits(data[3..]));
    Associative(BitsOf(data[0], 8), BitsOf(data[1], 8) + BitsOf(data[2], 8), Bits(data[3..]));
    Associative(BitsOf(data[0], 8), BitsOf(data[1], 8), BitsOf(data[2], 8));
  }

  lemma PadAfterThree(three: seq<bool>, rest: seq<bool>)
    requires |three| == 24
    ensures ZeroPadded(three + rest) == three + ZeroPadded(rest)
  {
    assert |three + rest| % 6 == |rest| % 6;
  }

  /** The encoder's text is the one the RFC defines. */
  lemma {:induction false} EncodeIsRfc4648(data: seq<Byte>)
    ensures Encode(data) == Rfc4648(data)
  {
    if data == [] {
      assert Bits(data) == [];
    } else if |data| == 1 {
      OneByteAgrees(data[0]);
      assert data == [data[0]];
    } else if |data| == 2 {
      TwoBytesAgree(data[0], data[1]);
      assert data == [data[0], data[1]];
    } else {
      FirstThreeBits(data);
      PadAfterThree(BitsOf(data[0], 8) + BitsOf(data[1], 8) + BitsOf(data[2], 8), Bits(data[3..]));
      QuadLetters(data[0], data[1], data[2], ZeroPadded(Bits(data[3..])));
      EncodeIsRfc4648(data[3..]);
    }
  }

  /** No padding: the length is four thirds, rounded up. */
  lemma {:induction false} EncodedLength(data: seq<Byte>)
    ensures |Encode(data)| == (4 * |data| + 2) / 3
  {
    EncodeIsRfc4648(data);
    assert 6 * |Encode(data)| == |ZeroPadded(Bits(data))|;
  }

  // ---- A reference decoder ----

  function LetterBits(text: string): Option<seq<bool>> {
    if text == [] then Some([])
    else
      var v :- LetterValue(text[0]);
      var rest :- LetterBits(text[1..]);
      Some(BitsOf(v, 6) + rest)
  }

  function BytesOf(bits: seq<bool>): seq<Byte> {
    if |bits| < 8 then []
    else
      EightBitsBound(bits[..8]);
      [ValueOf(bits[..8])] + BytesOf(bits[8..])
  }

  lemma EightBitsBound(bits: seq<bool>)
    requires |bits| == 8
    ensures ValueOf(bits) < 256
  {
    ValueBound(bits);
    SmallPowers();
  }

  /** Whole bytes; the bits left over must be fewer than six and all zero. */
  function Decode(text: string): Option<seq<Byte>> {
    var bits :- LetterBits(text);
    var extra := bits[8 * (|bits| / 8)..];
    if |extra| < 6 && extra == Zeros(|extra|) then Some(BytesOf(bits)) else None
  }

  lemma LetterBack(v: nat)
    requires v < 64
    ensures LetterValue(Letter(v)) == Some(v)
  {
  }

  lemma {:induction false} LettersBack(bits: seq<bool>)
    requires |bits| % 6 == 0
    ensures LetterBits(Letters(bits)) == Some(bits)
    decreases |bits|
  {
    if bits != [] {
      var group, rest := bits[..6], bits[6..];
      LettersBack(rest);
      SixBitsBound(group);
      LetterBack(ValueOf(group));
      ValueRoundTrip(group);
      assert Letters(bits)[1..] == Letters(rest);
      assert bits == group + rest;
    }
  }

  lemma BytesOfCons(b: Byte, rest: seq<bool>)
    ensures BytesOf(BitsOf(b, 8) + rest) == [b] + BytesOf(rest)
  {
    var bits := BitsOf(b, 8) + rest;
    ByteRoundTrip(b);
    assert bits[..8] == BitsOf(b, 8) && bits[8..] == rest;
  }

  lemma {:induction false} BytesBack(data: seq<Byte>, tail: seq<bool>)
    requires |tail| < 8
    ensures BytesOf(Bits(data) + tail) == data
  {
    if data == [] {
      assert Bits(data) + tail == tail;
    } else {
      BytesBack(data[1..], tail);
      BytesOfCons(data[0], Bits(data[1..]) + tail);
      Associative(BitsOf(data[0], 8), Bits(data[1..]), tail);
    }
  }

  /** Decoding inverts encoding, for every byte string. */
  lemma {:induction false} DecodeInvertsEncode(data: seq<Byte>)
    ensures Decode(Encode(data)) == Some(data)
  {
    var tail := Zeros((6 - |Bits(data)| % 6) % 6);
    EncodeIsRfc4648(data);
    LettersBack(ZeroPadded(Bits(data)));
    BytesBack(data, tail);
    assert (Bits(data) + tail)[8 * |data|..] == tail;
    assert |Bits(data) + tail| / 8 == |data|;
  }

  predicate UrlSafe(text: string) {
    forall i :: 0 <= i < |text| ==> LetterValue(text[i]).Some?
  }

  lemma {:induction false} LettersAreUrlSafe(bits: seq<bool>)
    requires |bits| % 6 == 0
    ensures UrlSafe(Letters(bits))
    decreases |bits|
  {
    if bits != [] {
      SixBitsBound(bits[..6]);
      LetterBack(ValueOf(bits[..6]));
      LettersAreUrlSafe(bits[6..]);
    }
  }

  /** Only letters of the alphabet, hence never a dot and never padding. */
  lemma {:induction false} EncodedIsUrlSafe(data: seq<Byte>)
    ensures UrlSafe(Encode(data)) && '.' !in Encode(data) && '=' !in Encode(data)
  {
    EncodeIsRfc4648(data);
    LettersAreUrlSafe(ZeroPadded(Bits(data)));
    assert LetterValue('.').None? && LetterValue('=').None?;
  }

  // ---- The loop ----

  const UPPER := "ABCDEFGHIJKLMNOPQRSTUVWXYZ"
  const LOWER := "abcdefghijklmnopqrstuvwxyz"
  const DIGITS := "0123456789-_"
  const ALPHABET := UPPER + LOWER + DIGITS

  lemma UpperIsTheTable(v: nat)
    requires v < 26
    ensures |UPPER| == 26 && UPPER[v] == Letter(v)
  {
  }

  lemma LowerIsTheTable(v: nat)
    requires v < 26
    ensures |LOWER| == 26 && LOWER[v] == Letter(v + 26)
  {
  }

  lemma DigitsAreTheTable(v: nat)
    requires v < 12
    ensures |DIGITS| == 12 && DIGITS[v] == Letter(v + 52)
  {
  }

  lemma AlphabetLengths()
    ensures |UPPER| == |LOWER| == 26 && |DIGITS| == 12
  {
  }

  lemma AlphabetAt(v: nat)
    requires v < 64
    ensures |UPPER| == |LOWER| == 26 && |DIGITS| == 12 && |ALPHABET| == 64
    ensures ALPHABET[v] == if v < 26 then UPPER[v] else if v < 52 then LOWER[v - 26] else DIGITS[v - 52]
  {
    AlphabetLengths();
    JoinedAt(UPPER, LOWER, DIGITS, v);
  }

  lemma JoinedAt(x: string, y: string, z: string, v: nat)
    requires |x| == |y| == 26 && |z| == 12 && v < 64
    ensures (x + y + z)[v] == if v < 26 then x[v] else if v < 52 then y[v - 26] else z[v - 52]
  {
  }

  lemma AlphabetIsTheTable(v: nat)
    requires v < 64
    ensures |ALPHABET| == 64 && ALPHABET[v] == Letter(v)
  {
    if v < 26 {
      UpperIsTheTable(v);
    } else if v < 52 {
      LowerIsTheTable(v - 26);
    } else {
      DigitsAreTheTable(v - 52);
    }
    AlphabetAt(v);
  }

  function From(data: seq<Byte>, i: nat): seq<Byte> { if i < |data| then data[i..] else [] }

  /** The letters of the group that starts at `i`. */
  function Group(data: seq<Byte>, i: nat): string
    requires i < |data|
  {
    Quad(data[i], At(data, i + 1), At(data, i + 2), Count(data[i..]))
  }

  ghost predicate Progress(data: seq<Byte>, i: nat, result: string) {
    result + Encode(From(data, i)) == Encode(data)
  }

  lemma {:induction false} GroupEncoded(data: seq<Byte>, i: nat, before: string, after: string)
    requires i < |data| && Progress(data, i, before) && after == before + Group(data, i)
    ensures Progress(data, i + 3, after)
  {
    var rest := data[i..];
    assert From(data, i + 3) == rest[Count(rest)..];
    Associative(before, Group(data, i), Encode(From(data, i + 3)));
  }

  method AlphabetTable() returns (table: string)
    ensures |table| == 64 && forall v :: 0 <= v < 64 ==> table[v] == Letter(v)
  {
    table := ALPHABET;
    AlphabetIsTheTable(0);
    forall v: nat | v < 64
      ensures table[v] == Letter(v)
    {
      AlphabetIsTheTable(v);
    }
  }

  /** Up to four letters, pushed one after the other. */
  method EncodeGroup(alphabet: string, b0: bv8, b1: bv8, b2: bv8, count: nat) returns (letters: string)
    requires |alphabet| == 64 && forall v :: 0 <= v < 64 ==> alphabet[v] == Letter(v)
    requires 1 <= count <= 3
    ensures letters == Quad(b0 as int, b1 as int, b2 as int, count)
  {
    var first, second, third, fourth := Indices(b0, b1, b2);
    letters := [alphabet[first], alphabet[second]];
    if count > 1 {
      letters := letters + [alphabet[third]];
    }
    if count > 2 {
      letters := letters + [alphabet[fourth]];
    }
  }

  function Values(data: seq<bv8>): (values: seq<Byte>)
    ensures |values| == |data|
  {
    seq(|data|, i requires 0 <= i < |data| => data[i] as int)
  }

  /** The loop, on bytes as bits. */
  method Base64UrlEncode(data: seq<bv8>) returns (result: string)
    ensures result == Encode(Values(data))
  {
    var alphabet := AlphabetTable();
    ghost var values := Values(data);
    result := "";
    var i := 0;
    while i < |data|
      invariant Progress(values, i, result)
      decreases |data| - i
    {
      var b0 := data[i];
      var b1 := if i + 1 < |data| then data[i + 1] else 0;
      var b2 := if i + 2 < |data| then data[i + 2] else 0;
      var count := if i + 2 < |data| then 3 else if i + 1 < |data| then 2 else 1;
      ghost var before := result;
      var letters := EncodeGroup(alphabet, b0, b1, b2, count);
      result := result + letters;
      assert letters == Group(values, i);
      GroupEncoded(values, i, before, result);
      i := i + 3;
    }
  }
}
