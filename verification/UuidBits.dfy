/** The bits that `genUUID4` forces (src/stms/util/uuid.cpp:102-111), with `&` and `|` defined bit
    by bit on naturals. */
module UuidBits {
  import opened Hex
  import opened Uuid

  function BitAnd(x: nat, y: nat): nat {
    if x == 0 then 0 else 2 * BitAnd(x / 2, y / 2) + if x % 2 == 1 && y % 2 == 1 then 1 else 0
  }

  function BitOr(x: nat, y: nat): nat
    decreases x + y
  {
    if x == 0 && y == 0 then 0
    else 2 * BitOr(x / 2, y / 2) + if x % 2 == 1 || y % 2 == 1 then 1 else 0
  }

  function Pow2(k: nat): (p: nat)
    ensures p > 0
  {
    if k == 0 then 1 else 2 * Pow2(k - 1)
  }

  function Bit(x: nat, i: nat): bool {
    if i == 0 then x % 2 == 1 else Bit(x / 2, i - 1)
  }

  lemma {:induction false} BitOfAnd(x: nat, y: nat, i: nat)
    ensures Bit(BitAnd(x, y), i) <==> Bit(x, i) && Bit(y, i)
    decreases i
  {
    if i > 0 {
      if x == 0 {
        BitOfZero(i);
      } else {
        BitOfAnd(x / 2, y / 2, i - 1);
      }
    }
  }

  lemma {:induction false} BitOfZero(i: nat)
    ensures !Bit(0, i)
  {
    if i > 0 {
      BitOfZero(i - 1);
    }
  }

  lemma {:induction false} BitOfOr(x: nat, y: nat, i: nat)
    ensures Bit(BitOr(x, y), i) <==> Bit(x, i) || Bit(y, i)
    decreases i
  {
    if i > 0 {
      if x == 0 && y == 0 {
        BitOfZero(i);
      } else {
        BitOfOr(x / 2, y / 2, i - 1);
      }
    }
  }

  /** A number put together from `k` low bits and the rest. */
  lemma {:induction false} BitOfSum(low: nat, k: nat, high: nat, i: nat)
    requires low < Pow2(k)
    ensures Bit(low + high * Pow2(k), i) <==> if i < k then Bit(low, i) else Bit(high, i - k)
    decreases k
  {
    if k > 0 {
      var p := Pow2(k - 1);
      assert high * Pow2(k) == 2 * (high * p);
      Halves(low, high * p);
      if i > 0 {
        BitOfSum(low / 2, k - 1, high, i - 1);
      }
    }
  }

  lemma Halves(low: nat, m: nat)
    ensures (low + 2 * m) / 2 == low / 2 + m && (low + 2 * m) % 2 == low % 2
  {
  }

  lemma {:induction false} BitOfOnes(k: nat, i: nat)
    ensures Bit(Pow2(k) - 1, i) <==> i < k
  {
    if k == 0 {
      BitOfZero(i);
    } else if i > 0 {
      assert (Pow2(k) - 1) / 2 == Pow2(k - 1) - 1;
      BitOfOnes(k - 1, i - 1);
    }
  }

  lemma {:induction false} BitOfPower(k: nat, i: nat)
    ensures Bit(Pow2(k), i) <==> i == k
  {
    if i > 0 {
      if k == 0 {
        BitOfZero(i - 1);
      } else {
        BitOfPower(k - 1, i - 1);
      }
    }
  }

  lemma {:induction false} BitsDetermine(x: nat, y: nat)
    requires forall i: nat :: Bit(x, i) <==> Bit(y, i)
    ensures x == y
    decreases x + y
  {
    if x != 0 || y != 0 {
      assert Bit(x, 0) <==> Bit(y, 0);
      forall i: nat ensures Bit(x / 2, i) <==> Bit(y / 2, i) {
        assert Bit(x, i + 1) <==> Bit(y, i + 1);
      }
      BitsDetermine(x / 2, y / 2);
    }
  }

  lemma Powers()
    ensures Pow2(1) == 2 && Pow2(2) == 4 && Pow2(6) == 0x40 && Pow2(7) == 0x80 && Pow2(8) == 0x100
    ensures Pow2(12) == 0x1000 && Pow2(14) == 0x4000 && Pow2(16) == 0x1_0000
  {
    assert Pow2(3) == 8 && Pow2(4) == 16 && Pow2(5) == 32;
    assert Pow2(9) == 0x200 && Pow2(10) == 0x400 && Pow2(11) == 0x800;
    assert Pow2(13) == 0x2000 && Pow2(15) == 0x8000;
  }

  const TIME_MASK := 0xFFFF - (0x8000 + 0x2000 + 0x1000)    // 65535 with bits 15, 13 and 12 flipped
  const CLOCK_MASK := 0xFF - 0x40                           // 255 with bit 6 flipped

  function WithVersion(timeHiAndVersion: uint16): nat {
    BitOr(BitAnd(timeHiAndVersion, TIME_MASK), 0x4000)
  }

  function WithVariant(clockSeqHiAndReserved: uint8): nat {
    BitOr(BitAnd(clockSeqHiAndReserved, CLOCK_MASK), 0x80)
  }

  /** The top four bits of the field become 0100, the other twelve stay. */
  lemma {:induction false} VersionBits(x: uint16, i: nat)
    ensures Bit(WithVersion(x), i) <==> if i < 12 then Bit(x, i) else i == 14
  {
    hide Bit, BitAnd, BitOr, Pow2;
    Powers();
    BitOfOr(BitAnd(x, TIME_MASK), 0x4000, i);
    BitOfAnd(x, TIME_MASK, i);
    BitOfPower(14, i);
    BitOfSum(Pow2(12) - 1, 12, 4, i);
    BitOfOnes(12, i);
    if i >= 12 { BitOfPower(2, i - 12); }
  }

  /** The top two bits of the field become 10, the other six stay. */
  lemma {:induction false} VariantBits(x: uint8, i: nat)
    ensures Bit(WithVariant(x), i) <==> if i < 6 then Bit(x, i) else i == 7
  {
    hide Bit, BitAnd, BitOr, Pow2;
    Powers();
    BitOfOr(BitAnd(x, CLOCK_MASK), 0x80, i);
    BitOfAnd(x, CLOCK_MASK, i);
    BitOfPower(7, i);
    BitOfSum(Pow2(6) - 1, 6, 2, i);
    BitOfOnes(6, i);
    if i >= 6 { BitOfPower(1, i - 6); }
  }

  lemma {:induction false} VersionValue(x: uint16)
    ensures WithVersion(x) == 0x4000 + x % 0x1000
  {
    hide Bit, WithVersion, Pow2;
    Powers();
    var y := x % 0x1000 + 4 * 0x1000;
    forall i: nat ensures Bit(WithVersion(x), i) <==> Bit(y, i) {
      VersionBits(x, i);
      BitOfSum(x % 0x1000, 12, 4, i);
      BitOfSum(x % 0x1000, 12, x / 0x1000, i);
      assert x == x % 0x1000 + x / 0x1000 * 0x1000;
      if i >= 12 { BitOfPower(2, i - 12); }
    }
    BitsDetermine(WithVersion(x), y);
  }

  lemma {:induction false} VariantValue(x: uint8)
    ensures WithVariant(x) == 0x80 + x % 0x40
  {
    hide Bit, WithVariant, Pow2;
    Powers();
    var y := x % 0x40 + 2 * 0x40;
    forall i: nat ensures Bit(WithVariant(x), i) <==> Bit(y, i) {
      VariantBits(x, i);
      BitOfSum(x % 0x40, 6, 2, i);
      BitOfSum(x % 0x40, 6, x / 0x40, i);
      assert x == x % 0x40 + x / 0x40 * 0x40;
      if i >= 6 { BitOfPower(1, i - 6); }
    }
    BitsDetermine(WithVariant(x), y);
  }

  lemma {:induction false} LeadingChar(n: nat, k: nat)
    ensures LowDigits(n, k + 1)[0] == HEX_CHARS[Digit(n, k)]
  {
    OneMoreDigit(n, k);
  }

  /** What the text of any generated UUID shows: version 4 and the variant of RFC 4122. */
  lemma {:induction false} GeneratedText(u: UUID, x: uint16, y: uint8)
    requires u.timeHiAndVersion == WithVersion(x) && u.clockSeqHiAndReserved == WithVariant(y)
    ensures Text(u)[14] == '4' && Text(u)[19] in "89ab"
  {
    hide WithVersion, WithVariant, Text, LowDigits;
    VersionValue(x);
    VariantValue(y);
    TextParts(u);
    var hi, clock := u.timeHiAndVersion, u.clockSeqHiAndReserved;
    LeadingChar(hi, 3);
    LeadingChar(clock, 1);
    assert Digit(hi, 3) == Digit(hi / 16, 2) == Digit(hi / 16 / 16, 1) == Digit(hi / 16 / 16 / 16, 0) == 4;
    assert Digit(clock, 1) == Digit(clock / 16, 0) && 8 <= clock / 16 <= 11;
    assert Text(u)[14] == Text(u)[14..18][0] && Text(u)[19] == Text(u)[19..21][0];
  }

  /** `genUUID4` once the 128 random bits are there: six of them are forced, the others stay. */
  method GenUUID4(random: UUID) returns (uuid: UUID)
    ensures uuid == random.(timeHiAndVersion := uuid.timeHiAndVersion,
                              clockSeqHiAndReserved := uuid.clockSeqHiAndReserved)
    ensures forall i: nat :: Bit(uuid.timeHiAndVersion, i) <==>
              if i < 12 then Bit(random.timeHiAndVersion, i) else i == 14
    ensures forall i: nat :: Bit(uuid.clockSeqHiAndReserved, i) <==>
              if i < 6 then Bit(random.clockSeqHiAndReserved, i) else i == 7
    ensures Text(uuid)[14] == '4' && Text(uuid)[19] in "89ab"
  {
    hide Bit, WithVersion, WithVariant, Text;
    VersionValue(random.timeHiAndVersion);
    VariantValue(random.clockSeqHiAndReserved);
    forall i: nat { VersionBits(random.timeHiAndVersion, i); }
    forall i: nat { VariantBits(random.clockSeqHiAndReserved, i); }
    uuid := random;
    uuid := uuid.(timeHiAndVersion := WithVersion(random.timeHiAndVersion));
    uuid := uuid.(clockSeqHiAndReserved := WithVariant(random.clockSeqHiAndReserved));
    GeneratedText(uuid, random.timeHiAndVersion, random.clockSeqHiAndReserved);
  }
}
