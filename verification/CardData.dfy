/**
 * Card specific data of generic/mmcsd.c: bit fields of the 128-bit response, which
 * generic/sdio_spi.c stores as four words, and the capacity computed from them.
 *
 * A word is the sequence of its 32 bits, the least significant bit first.
 */
module CardData {
  import opened Common
  import SdioSpi

  type byte = SdioSpi.byte

  function Pow2(n: nat): (r: nat)
    ensures 0 < r
  {
    if n == 0 then 1 else 2 * Pow2(n - 1)
  }

  lemma {:induction false} Pow2Adds(a: nat, b: nat)
    ensures Pow2(a + b) == Pow2(a) * Pow2(b)
  {
    if a == 0 {
    } else {
      Pow2Adds(a - 1, b);
    }
  }

  // Bits and numbers

  function Value(bits: seq<bool>): nat {
    if bits == [] then 0 else (if bits[0] then 1 else 0) + 2 * Value(bits[1..])
  }

  function ToBits(n: nat, count: nat): (r: seq<bool>)
    ensures |r| == count
  {
    if count == 0 then [] else [n % 2 == 1] + ToBits(n / 2, count - 1)
  }

  lemma {:induction false} ToBitsValue(n: nat, count: nat)
    requires n < Pow2(count)
    ensures Value(ToBits(n, count)) == n
  {
    if count == 0 {
    } else {
      ToBitsValue(n / 2, count - 1);
      assert ToBits(n, count)[1..] == ToBits(n / 2, count - 1);
    }
  }

  lemma {:induction false} ValueJoins(a: seq<bool>, b: seq<bool>)
    ensures Value(a + b) == Value(a) + Pow2(|a|) * Value(b)
  {
    if a == [] {
      assert a + b == b;
    } else {
      ValueJoins(a[1..], b);
      assert (a + b)[1..] == a[1..] + b;
      assert Pow2(|a|) * Value(b) == 2 * (Pow2(|a| - 1) * Value(b));
    }
  }

  lemma {:induction false} ValueBound(bits: seq<bool>)
    ensures Value(bits) < Pow2(|bits|)
  {
    if bits == [] {
    } else {
      ValueBound(bits[1..]);
    }
  }

  lemma {:induction false} ValueOfZeros(bits: seq<bool>)
    requires forall i | 0 <= i < |bits| :: !bits[i]
    ensures Value(bits) == 0
  {
    if bits == [] {
    } else {
      ValueOfZeros(bits[1..]);
    }
  }

  /** A slice of bits is a quotient and a remainder of their number. */
  lemma ValueOfSlice(bits: seq<bool>, start: nat, width: nat)
    requires start + width <= |bits|
    ensures Value(bits[start..start + width]) == Value(bits) / Pow2(start) % Pow2(width)
  {
    hide Value, Pow2;
    var low, slice, high := bits[..start], bits[start..start + width], bits[start + width..];
    assert bits == low + (slice + high);
    SplitValue(low, slice + high);
    SplitValue(slice, high);
  }

  lemma SplitValue(low: seq<bool>, high: seq<bool>)
    ensures Value(low + high) / Pow2(|low|) == Value(high) && Value(low + high) % Pow2(|low|) == Value(low)
  {
    hide Value, Pow2;
    ValueJoins(low, high);
    ValueBound(low);
    DivModUnique(Value(low + high), Pow2(|low|), Value(high), Value(low));
  }

  // Machine words

  type Word = w: seq<bool> | |w| == 32 witness seq(32, _ => false)

  function ShiftLeft(w: Word, n: nat): Word { seq(32, i requires 0 <= i < 32 => n <= i && w[i - n]) }
  function ShiftRight(w: Word, n: nat): Word { seq(32, i requires 0 <= i < 32 => i + n < 32 && w[i + n]) }
  function Or(a: Word, b: Word): Word { seq(32, i requires 0 <= i < 32 => a[i] || b[i]) }
  function And(a: Word, b: Word): Word { seq(32, i requires 0 <= i < 32 => a[i] && b[i]) }
  function Mask(n: nat): Word { seq(32, i requires 0 <= i < 32 => i < n) }

  /** `extractBit`. */
  function ExtractBit(data: seq<Word>, position: nat): bool
    requires position < 32 * |data|
  {
    data[position / 32][position % 32]
  }

  /** `extractBits`. */
  function ExtractBits(data: seq<Word>, start: nat, end: nat): Word
    requires start <= end < 32 * |data|
  {
    var index := end / 32;
    var offset := start % 32;
    var value :=
      if index == start / 32 then ShiftRight(data[index], offset)
      else Or(ShiftLeft(data[index], 32 - offset), ShiftRight(data[start / 32], offset));
    And(value, Mask(end - start + 1))
  }

  /** Every bit of a range up to 31 wide comes from its position in the data. */
  lemma ExtractBitsAt(data: seq<Word>, start: nat, end: nat, i: nat)
    requires start <= end < 32 * |data| && end - start + 1 <= 31 && i < 32
    ensures start + i <= end ==> start + i < 32 * |data|
    ensures ExtractBits(data, start, end)[i] == (start + i <= end && ExtractBit(data, start + i))
  {
    var q, r, width := start / 32, start % 32, end - start + 1;
    Position(q, r, i);
    Position(q, r, width - 1);
    CombinedBit(data[q], data[end / 32], r, width, i);
    hide ShiftLeft, ShiftRight, Or, And, Mask;
  }

  lemma Position(q: nat, r: nat, i: nat)
    requires r < 32 && i < 32
    ensures (32 * q + r + i) / 32 == (if r + i < 32 then q else q + 1)
    ensures (32 * q + r + i) % 32 == (if r + i < 32 then r + i else r + i - 32)
  {
  }

  /** One bit of the combination of two neighbouring words. */
  lemma CombinedBit(low: Word, high: Word, offset: nat, width: nat, i: nat)
    requires offset < 32 && 0 < width <= 31 && i < 32
    ensures And(ShiftRight(low, offset), Mask(width))[i] == (i < width && offset + i < 32 && low[offset + i])
    ensures 0 < offset ==>
              And(Or(ShiftLeft(high, 32 - offset), ShiftRight(low, offset)), Mask(width))[i]
              == (i < width && (if offset + i < 32 then low[offset + i] else high[offset + i - 32]))
  {
  }

  lemma PadsNothing(a: seq<bool>, b: seq<bool>)
    requires forall i | 0 <= i < |b| :: !b[i]
    ensures Value(a + b) == Value(a)
  {
    ValueJoins(a, b);
    ValueOfZeros(b);
  }

  function Flat(data: seq<Word>): (r: seq<bool>)
    ensures |r| == 32 * |data|
  {
    if data == [] then [] else data[0] + Flat(data[1..])
  }

  lemma {:induction false} FlatAt(data: seq<Word>, k: nat)
    requires k < 32 * |data|
    ensures Flat(data)[k] == ExtractBit(data, k)
  {
    if k < 32 {
    } else {
      FlatAt(data[1..], k - 32);
      assert data[1..][(k - 32) / 32] == data[k / 32];
    }
  }

  lemma ExtractBitsIsSlice(data: seq<Word>, start: nat, end: nat)
    requires start <= end < 32 * |data| && end - start + 1 <= 31
    ensures Value(ExtractBits(data, start, end)) == Value(Flat(data)) / Pow2(start) % Pow2(end - start + 1)
  {
    hide Value, Pow2, ExtractBits, Flat, ExtractBit;
    var width := end - start + 1;
    var slice, result := Flat(data)[start..start + width], ExtractBits(data, start, end);
    forall i | 0 <= i < 32
      ensures result[i] == (i < width && slice[i])
    {
      ExtractBitsAt(data, start, end, i);
      if i < width {
        FlatAt(data, start + i);
      }
    }
    assert result == slice + result[width..];
    PadsNothing(slice, result[width..]);
    ValueOfSlice(Flat(data), start, width);
  }

  // The response as a number

  /** Bytes in the order of transmission, the most significant first. */
  function Number(bytes: seq<byte>): nat {
    if bytes == [] then 0 else Number(bytes[..|bytes| - 1]) * 0x100 + bytes[|bytes| - 1] as nat
  }

  /** The words of a long response: word 3 comes first, as `stateReadLongAdvance` stores them. */
  function Unpack(bytes: seq<byte>): (data: seq<Word>)
    requires |bytes| == 16
    ensures |data| == 4
  {
    [WordOf(bytes[12..]), WordOf(bytes[8..12]), WordOf(bytes[4..8]), WordOf(bytes[..4])]
  }

  function WordOf(bytes: seq<byte>): Word
    requires |bytes| == 4
  {
    ToBits(SdioSpi.BigEndian32(bytes[0], bytes[1], bytes[2], bytes[3]), 32)
  }

  lemma {:induction false} NumberJoins(a: seq<byte>, b: seq<byte>)
    ensures Number(a + b) == Number(a) * Pow2(8 * |b|) + Number(b)
  {
    if b == [] {
      assert a + b == a;
    } else {
      var n := |b| - 1;
      NumberJoins(a, b[..n]);
      assert (a + b)[..|a + b| - 1] == a + b[..n];
      Pow2Adds(8 * n, 8);
      assert Pow2(8) == 0x100;
      ShiftByte(Number(a), Pow2(8 * n), Number(b[..n]), b[n] as nat);
    }
  }

  lemma ShiftByte(a: nat, power: nat, b: nat, last: nat)
    ensures (a * power + b) * 0x100 + last == a * (power * 0x100) + (b * 0x100 + last)
  {
  }

  lemma WordValue(bytes: seq<byte>)
    requires |bytes| == 4
    ensures Value(WordOf(bytes)) == Number(bytes)
  {
    assert bytes[..3][..2][..1][..0] == [];
    assert bytes[..3][..2] == bytes[..2] && bytes[..2][..1] == bytes[..1];
    assert Number(bytes[..1]) == bytes[0] as nat;
    assert Number(bytes[..2]) == bytes[0] as nat * 0x100 + bytes[1] as nat;
    assert Number(bytes[..3]) == Number(bytes[..2]) * 0x100 + bytes[2] as nat;
    WordRange();
    ToBitsValue(SdioSpi.BigEndian32(bytes[0], bytes[1], bytes[2], bytes[3]), 32);
  }

  lemma WordRange()
    ensures Pow2(32) == TWO_32
  {
    Pow2Adds(16, 16);
    Pow2Adds(8, 8);
    assert Pow2(8) == 0x100;
  }

  /** The stored words are the 128-bit number that the card has sent. */
  lemma UnpackedValue(bytes: seq<byte>)
    requires |bytes| == 16
    ensures Value(Flat(Unpack(bytes))) == Number(bytes)
  {
    hide Value, Pow2, Number, WordOf;
    var a, b, c, d := bytes[..4], bytes[4..8], bytes[8..12], bytes[12..];
    WordValue(a);
    WordValue(b);
    WordValue(c);
    WordValue(d);
    FlatFour(WordOf(d), WordOf(c), WordOf(b), WordOf(a));
    ValueJoins(WordOf(b), WordOf(a));
    ValueJoins(WordOf(c), WordOf(b) + WordOf(a));
    ValueJoins(WordOf(d), WordOf(c) + (WordOf(b) + WordOf(a)));
    NumberJoins(a, b);
    NumberJoins(a + b, c);
    NumberJoins(a + b + c, d);
    assert bytes == a + b + c + d;
  }

  lemma FlatFour(a: Word, b: Word, c: Word, d: Word)
    ensures Flat([a, b, c, d]) == a + (b + (c + d))
  {
    assert Flat([d]) == d + Flat([]) == d;
    assert Flat([c, d]) == c + d;
    assert Flat([b, c, d]) == b + (c + d);
  }

  /** Bits `start` to `end` of the number that the card has sent. */
  function Field(bytes: seq<byte>, start: nat, end: nat): nat
    requires start <= end
  {
    Number(bytes) / Pow2(start) % Pow2(end - start + 1)
  }

  /** Every field that the parser reads is the field of the transmitted number. */
  lemma FieldIsExtracted(bytes: seq<byte>, start: nat, end: nat)
    requires |bytes| == 16 && start <= end < 128 && end - start + 1 <= 31
    ensures Value(ExtractBits(Unpack(bytes), start, end)) == Field(bytes, start, end)
    ensures Field(bytes, start, end) < Pow2(end - start + 1)
  {
    ExtractBitsIsSlice(Unpack(bytes), start, end);
    UnpackedValue(bytes);
  }

  datatype CardType = Sd | Sd2 | Mmc | Mmc4
  datatype Capacity = Standard | High | Extended | Ultra

  function Shifted(n: u32, count: nat): u32 {
    n * Pow2(count) % TWO_32
  }

  lemma {:induction false} Pow2Grows(a: nat, b: nat)
    requires a <= b
    ensures Pow2(a) <= Pow2(b)
    decreases b
  {
    if a == b {
    } else {
      Pow2Grows(a, b - 1);
    }
  }

  /** A shift that does not lose bits. */
  lemma ShiftFits(n: u32, bits: nat, count: nat)
    requires n <= Pow2(bits) && bits + count < 32
    ensures Shifted(n, count) == n * Pow2(count) <= Pow2(bits + count)
  {
    hide Pow2;
    Pow2Adds(bits, count);
    MulMonotone(n, Pow2(bits), Pow2(count));
    MulMonotone(0, n, Pow2(count));
    Pow2Grows(bits + count, 31);
    HalfRange();
    DivModUnique(n * Pow2(count), TWO_32, 0, n * Pow2(count));
  }

  lemma HalfRange()
    ensures Pow2(31) == TWO_31
  {
    WordRange();
    assert Pow2(32) == 2 * Pow2(31);
  }

  /** Capacity of a standard capacity card in bytes, section 5.3.2 of the SD Physical Layer Simplified Specification. */
  function StandardCapacity(bytes: seq<byte>): nat {
    CapacityOf(Field(bytes, 62, 73), Field(bytes, 47, 49), Field(bytes, 80, 83))
  }

  function CapacityOf(size: nat, mult: nat, blockLength: nat): nat {
    (size + 1) * Pow2(mult + 2) * Pow2(blockLength)
  }

  /** The two shifts of the parser compute the capacity in sectors of 512 bytes. */
  lemma SectorsOfCapacity(size: u32, mult: nat, blockLength: nat)
    requires size < Pow2(12) && mult < Pow2(3) && 9 <= blockLength < Pow2(4)
    ensures Shifted(Shifted(size + 1, mult + 2), blockLength - 9) * 512
         == CapacityOf(size, mult, blockLength)
  {
    assert Pow2(3) == 8 && Pow2(4) == 16;
    ShiftFits(size + 1, 12, mult + 2);
    ShiftFits(Shifted(size + 1, mult + 2), 12 + mult + 2, blockLength - 9);
    Pow2Adds(blockLength - 9, 9);
    assert Pow2(9) == 512;
    Regroup((size + 1) * Pow2(mult + 2), Pow2(blockLength - 9));
  }

  lemma Regroup(a: nat, b: nat)
    ensures a * b * 512 == a * (b * 512)
  {
  }

  class Card {
    var cardType: CardType
    var capacityType: Capacity
    var sectorCount: u32
    var eraseGroupSize: u32

    /** `parseCardSpecificData` on the stored form of the transmitted bytes. */
    method ParseCardSpecificData(response: seq<Word>, ghost bytes: seq<byte>)
      requires |bytes| == 16 && response == Unpack(bytes)
      modifies this`cardType, this`sectorCount, this`eraseGroupSize
      ensures cardType == if old(cardType) == Mmc && 4 <= Field(bytes, 122, 125) then Mmc4 else old(cardType)
      ensures capacityType == Standard && 9 <= Field(bytes, 80, 83) ==> sectorCount * 512 == StandardCapacity(bytes)
      ensures capacityType != Standard && (cardType == Sd || cardType == Sd2) ==>
                (sectorCount == (Field(bytes, 48, 69) + 1) * 1024 <==> Field(bytes, 48, 69) != 0x3FFFFF)
      ensures capacityType != Standard && (cardType == Mmc || cardType == Mmc4) ==>
                sectorCount == old(sectorCount)
      ensures cardType == Mmc ==> eraseGroupSize == (Field(bytes, 42, 46) + 1) * (Field(bytes, 37, 41) + 1)
      ensures cardType != Mmc && capacityType == Standard ==>
                eraseGroupSize == (if ExtractBit(Unpack(bytes), 46) then 1 else Field(bytes, 39, 45) + 1) * 512
      ensures cardType != Mmc && capacityType != Standard ==> eraseGroupSize == old(eraseGroupSize)
    {
      if cardType == Mmc {
        var specVers := GetField(response, 122, 125, bytes);
        if 4 <= specVers {
          cardType := Mmc4;
        }
      }
      ParseEraseGroup(response, bytes);
      ParseSectorCount(response, bytes);
    }

    method GetField(response: seq<Word>, start: nat, end: nat, ghost bytes: seq<byte>) returns (value: u32)
      requires |bytes| == 16 && response == Unpack(bytes)
      requires start <= end < 128 && end - start + 1 <= 31
      ensures value == Field(bytes, start, end) < Pow2(end - start + 1)
    {
      hide Value, Pow2, Field, ExtractBits, Unpack;
      FieldIsExtracted(bytes, start, end);
      FieldFits(bytes, start, end);
      value := Value(ExtractBits(response, start, end));
    }

    static lemma FieldFits(bytes: seq<byte>, start: nat, end: nat)
      requires start <= end && end - start + 1 <= 31
      ensures Pow2(end - start + 1) < TWO_32
    {
      Pow2Grows(end - start + 1, 31);
      WordRange();
    }

    method ParseEraseGroup(response: seq<Word>, ghost bytes: seq<byte>)
      requires |bytes| == 16 && response == Unpack(bytes)
      modifies this`eraseGroupSize
      ensures cardType == Mmc ==> eraseGroupSize == (Field(bytes, 42, 46) + 1) * (Field(bytes, 37, 41) + 1)
      ensures cardType != Mmc && capacityType == Standard ==>
                eraseGroupSize == (if ExtractBit(Unpack(bytes), 46) then 1 else Field(bytes, 39, 45) + 1) * 512
      ensures cardType != Mmc && capacityType != Standard ==> eraseGroupSize == old(eraseGroupSize)
    {
      hide Field, Unpack;
      assert Pow2(5) == 32 && Pow2(7) == 128 && Pow2(9) == 512;
      if cardType == Mmc {
        var size := GetField(response, 42, 46, bytes);
        var mult := GetField(response, 37, 41, bytes);
        MulMonotone(size + 1, 32, mult + 1);
        MulMonotone(0, size + 1, mult + 1);
        eraseGroupSize := (size + 1) * (mult + 1);
      } else if capacityType == Standard {
        var size := GetField(response, 39, 45, bytes);
        var enable := ExtractBit(response, 46);
        eraseGroupSize := if enable then 1 else size + 1;
        eraseGroupSize := Shifted(eraseGroupSize, 9);
      }
    }

    method ParseSectorCount(response: seq<Word>, ghost bytes: seq<byte>)
      requires |bytes| == 16 && response == Unpack(bytes)
      modifies this`sectorCount
      ensures capacityType == Standard && 9 <= Field(bytes, 80, 83) ==> sectorCount * 512 == StandardCapacity(bytes)
      ensures capacityType != Standard && (cardType == Sd || cardType == Sd2) ==>
                (sectorCount == (Field(bytes, 48, 69) + 1) * 1024 <==> Field(bytes, 48, 69) != 0x3FFFFF)
      ensures capacityType != Standard && (cardType == Mmc || cardType == Mmc4) ==>
                sectorCount == old(sectorCount)
    {
      hide Field, Unpack, CapacityOf, Pow2, Shifted;
      if capacityType == Standard {
        var blockLength := GetField(response, 80, 83, bytes);
        var deviceSize := GetField(response, 62, 73, bytes);
        var sizeMult := GetField(response, 47, 49, bytes);
        sectorCount := StandardSectors(deviceSize, sizeMult, blockLength);
      } else if cardType == Sd || cardType == Sd2 {
        var deviceSize := GetField(response, 48, 69, bytes);
        ExtendedSize(deviceSize);
        sectorCount := Shifted(deviceSize + 1, 10);
      }
    }

    static method StandardSectors(deviceSize: u32, sizeMult: nat, blockLength: nat) returns (count: u32)
      requires deviceSize < Pow2(12) && sizeMult < Pow2(3) && blockLength < Pow2(4)
      ensures 9 <= blockLength ==> count * 512 == CapacityOf(deviceSize, sizeMult, blockLength)
    {
      hide CapacityOf, Shifted;
      Pow2Adds(6, 6);
      assert Pow2(6) == 64;
      count := Shifted(deviceSize + 1, sizeMult + 2);
      if 9 <= blockLength {
        SectorsOfCapacity(deviceSize, sizeMult, blockLength);
        count := Shifted(count, blockLength - 9);
      } else {
        // The shift count wraps around, and the shift has no defined result
        count := *;
      }
    }

    /** The sector count of the largest size code of a high capacity card wraps around to zero. */
    static lemma ExtendedSize(size: u32)
      requires size < Pow2(22)
      ensures size <= 0x3FFFFF && Shifted(size + 1, 10) == (if size == 0x3FFFFF then 0 else (size + 1) * 1024)
    {
      assert Pow2(10) == 1024;
      Pow2Adds(11, 11);
      assert Pow2(11) == 2048;
    }
  }
}