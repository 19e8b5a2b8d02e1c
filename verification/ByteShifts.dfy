/** The encoder's alphabet indices as the shifts and masks it computes them with. Eight bits
    are enough: nothing is shifted out. */
module ByteShifts {

  function FirstIndex(b0: bv8): bv8 { b0 >> 2 }

  function SecondIndex(b0: bv8, b1: bv8): bv8 { ((b0 & 0x03) << 4) | (b1 >> 4) }

  function ThirdIndex(b1: bv8, b2: bv8): bv8 { ((b1 & 0x0f) << 2) | (b2 >> 6) }

  function FourthIndex(b2: bv8): bv8 { b2 & 0x3f }

  lemma QuotientBy4(x: bv8)
    ensures (x / 4) as int == x as int / 4
  {
  }

  lemma QuotientBy16(x: bv8)
    ensures (x / 16) as int == x as int / 16
  {
  }

  lemma QuotientBy64(x: bv8)
    ensures (x / 64) as int == x as int / 64
  {
  }

  lemma RemainderBy4(x: bv8)
    ensures (x % 4) as int == x as int % 4
  {
  }

  lemma RemainderBy16(x: bv8)
    ensures (x % 16) as int == x as int % 16
  {
  }

  lemma RemainderBy64(x: bv8)
    ensures (x % 64) as int == x as int % 64
  {
  }

  lemma SumOfBits(x: bv8, y: bv8)
    requires x < 64 && y < 64
    ensures (x + y) as int == x as int + y as int
  {
  }

  lemma TimesSixteen(x: bv8)
    requires x < 4
    ensures x << 4 < 64 && (x << 4) as int == x as int * 16
  {
    assert x == 0 || x == 1 || x == 2 || x == 3;
  }

  lemma TimesFour(x: bv8)
    requires x < 16
    ensures x << 2 < 64 && (x << 2) as int == x as int * 4
  {
    assert x << 2 == x * 4;
  }

  lemma FirstIndexIs(b0: bv8)
    ensures FirstIndex(b0) as int == b0 as int / 4
  {
    assert b0 >> 2 == b0 / 4;
    QuotientBy4(b0);
  }

  lemma SecondIndexIs(b0: bv8, b1: bv8)
    ensures SecondIndex(b0, b1) as int == b0 as int % 4 * 16 + b1 as int / 16
  {
    assert b0 & 0x03 == b0 % 4 && b0 % 4 < 4 && b1 >> 4 == b1 / 16 && b1 / 16 < 64;
    assert SecondIndex(b0, b1) == ((b0 & 0x03) << 4) + (b1 >> 4);
    TimesSixteen(b0 % 4);
    SumOfBits((b0 % 4) << 4, b1 / 16);
    RemainderBy4(b0);
    QuotientBy16(b1);
  }

  lemma ThirdIndexIs(b1: bv8, b2: bv8)
    ensures ThirdIndex(b1, b2) as int == b1 as int % 16 * 4 + b2 as int / 64
  {
    assert b1 & 0x0f == b1 % 16 && b1 % 16 < 16 && b2 >> 6 == b2 / 64 && b2 / 64 < 64;
    assert ThirdIndex(b1, b2) == ((b1 & 0x0f) << 2) + (b2 >> 6);
    TimesFour(b1 % 16);
    SumOfBits((b1 % 16) << 2, b2 / 64);
    RemainderBy16(b1);
    QuotientBy64(b2);
  }

  lemma FourthIndexIs(b2: bv8)
    ensures FourthIndex(b2) as int == b2 as int % 64
  {
    assert b2 & 0x3f == b2 % 64;
    RemainderBy64(b2);
  }

  /** Shifting and masking bytes is dividing them. */
  method Indices(b0: bv8, b1: bv8, b2: bv8) returns (first: nat, second: nat, third: nat, fourth: nat)
    ensures first == b0 as int / 4 && second == b0 as int % 4 * 16 + b1 as int / 16
    ensures third == b1 as int % 16 * 4 + b2 as int / 64 && fourth == b2 as int % 64
  {
    FirstIndexIs(b0);
    SecondIndexIs(b0, b1);
    ThirdIndexIs(b1, b2);
    FourthIndexIs(b2);
    first, second := FirstIndex(b0) as nat, SecondIndex(b0, b1) as nat;
    third, fourth := ThirdIndex(b1, b2) as nat, FourthIndex(b2) as nat;
  }
}
