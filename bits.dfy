/** The value-level view of one byte: which bit positions and ranges exist,
    what bit i of an 8-bit value is, and what writing one bit or a run of
    bits does to the value. The class in abyte.dfy is specified in these terms. */
module ByteBits {

  /** The two ways an accessor can fail. */
  datatype Error = OutOfRange | LengthMismatch

  /** A value or the failure that stopped it. */
  datatype Result<T> = Ok(value: T) | Err(error: Error)

  /** The result of an assignment that has no value of its own. */
  datatype Outcome = Pass | Fail(error: Error)

  /** A single-bit index the accessors accept: 0 (least significant) to 7. */
  predicate ValidIndex(i: int)
  {
    0 <= i <= 7
  }

  /** A half-open range [start, end) the ranged accessors accept. The start must
      be an addressable position even when the range is empty, so (8, 8) is
      refused while (7, 7) and (7, 8) are accepted. */
  predicate ValidRange(start: int, end: int)
  {
    0 <= start <= 7 && 0 <= end <= 8 && start <= end
  }

  /** Bit i of x, read as the accessors read it: shift right, keep the lowest bit. */
  predicate Bit(x: bv8, i: int)
    requires ValidIndex(i)
  {
    (x >> i) & 1 == 1
  }

  /** Setting bit i leaves every other bit as it was. */
  lemma SetLeavesOthers(x: bv8, i: int, j: int)
    requires ValidIndex(i) && ValidIndex(j) && i != j
    ensures Bit(x | (1 << i), j) == Bit(x, j)
  {
  }

  /** Clearing bit i leaves every other bit as it was. */
  lemma ClearLeavesOthers(x: bv8, i: int, j: int)
    requires ValidIndex(i) && ValidIndex(j) && i != j
    ensures Bit(x & !(1 << i), j) == Bit(x, j)
  {
  }

  /** x with bit i set when b holds and cleared otherwise; the other seven bits
      are those of x. */
  function WithBit(x: bv8, i: int, b: bool): (r: bv8)
    requires ValidIndex(i)
    ensures Bit(r, i) == b
    ensures forall j :: ValidIndex(j) && j != i ==> Bit(r, j) == Bit(x, j)
  {
    if b then
      assert forall j :: ValidIndex(j) && j != i ==> Bit(x | (1 << i), j) == Bit(x, j) by {
        forall j | ValidIndex(j) && j != i ensures Bit(x | (1 << i), j) == Bit(x, j) {
          SetLeavesOthers(x, i, j);
        }
      }
      x | (1 << i)
    else
      assert forall j :: ValidIndex(j) && j != i ==> Bit(x & !(1 << i), j) == Bit(x, j) by {
        forall j | ValidIndex(j) && j != i ensures Bit(x & !(1 << i), j) == Bit(x, j) {
          ClearLeavesOthers(x, i, j);
        }
      }
      x & !(1 << i)
  }

  /** Bits start .. end-1 of x, lowest position first. */
  function BitsOf(x: bv8, start: int, end: int): (s: seq<bool>)
    requires 0 <= start <= end <= 8
    ensures |s| == end - start
    ensures forall k :: 0 <= k < |s| ==> s[k] == Bit(x, start + k)
    decreases end - start
  {
    if start == end then [] else BitsOf(x, start, end - 1) + [Bit(x, end - 1)]
  }

  /** x after writing s[k] to bit start + k for k = 0, 1, ..., |s| - 1 in that
      order. Exactly the positions start .. start+|s|-1 take the new values. */
  function WithBits(x: bv8, start: int, s: seq<bool>): (r: bv8)
    requires 0 <= start && start + |s| <= 8
    ensures forall k :: 0 <= k < |s| ==> Bit(r, start + k) == s[k]
    ensures forall j :: ValidIndex(j) && !(start <= j < start + |s|) ==> Bit(r, j) == Bit(x, j)
    decreases |s|
  {
    if s == [] then x
    else WithBit(WithBits(x, start, s[..|s| - 1]), start + |s| - 1, s[|s| - 1])
  }

  /** A byte is determined by its eight bits. */
  lemma BitsDetermineByte(x: bv8, y: bv8)
    requires forall i :: ValidIndex(i) ==> Bit(x, i) == Bit(y, i)
    ensures x == y
  {
    assert Bit(x, 0) == Bit(y, 0) && Bit(x, 1) == Bit(y, 1);
    assert Bit(x, 2) == Bit(y, 2) && Bit(x, 3) == Bit(y, 3);
    assert Bit(x, 4) == Bit(y, 4) && Bit(x, 5) == Bit(y, 5);
    assert Bit(x, 6) == Bit(y, 6) && Bit(x, 7) == Bit(y, 7);
  }

  /** Binary digit i of a natural number, by repeated halving: an arithmetic
      reference for Bit that does not use bit-vector operations. */
  predicate Digit(n: nat, i: nat)
  {
    if i == 0 then n % 2 == 1 else Digit(n / 2, i - 1)
  }

  /** Shifting right by one halves the unsigned value; the lowest bit is its parity. */
  lemma HalveByte(x: bv8)
    ensures (x >> 1) as int == x as int / 2
    ensures ((x & 1) == 1) == (x as int % 2 == 1)
  {
  }

  /** Bit i is binary digit i of the unsigned value: bit 0 is the least
      significant, and each higher position is one halving further up. */
  lemma {:induction false} BitIsBinaryDigit(x: bv8, i: int)
    requires ValidIndex(i)
    ensures Bit(x, i) == Digit(x as int, i)
  {
    HalveByte(x);
    if i > 0 {
      assert x >> i == (x >> 1) >> (i - 1);
      BitIsBinaryDigit(x >> 1, i - 1);
    }
  }

  /** Reading back a range just written returns what was written. */
  lemma {:induction false} ReadAfterWrite(x: bv8, start: int, s: seq<bool>)
    requires 0 <= start && start + |s| <= 8
    ensures BitsOf(WithBits(x, start, s), start, start + |s|) == s
  {
    var r := BitsOf(WithBits(x, start, s), start, start + |s|);
    assert |r| == |s|;
    forall k | 0 <= k < |s| ensures r[k] == s[k] { }
  }

  /** Writing back the bits just read leaves the byte as it was. */
  lemma {:induction false} WriteWhatWasRead(x: bv8, start: int, end: int)
    requires 0 <= start <= end <= 8
    ensures WithBits(x, start, BitsOf(x, start, end)) == x
  {
    var s := BitsOf(x, start, end);
    var r := WithBits(x, start, s);
    forall j | ValidIndex(j) ensures Bit(r, j) == Bit(x, j) {
      if start <= j < end {
        assert Bit(r, start + (j - start)) == s[j - start];
      }
    }
    BitsDetermineByte(r, x);
  }

  /** Writing the same bit value twice gives the byte of writing it once. */
  lemma WithBitIdempotent(x: bv8, i: int, b: bool)
    requires ValidIndex(i)
    ensures WithBit(WithBit(x, i, b), i, b) == WithBit(x, i, b)
  {
    var once := WithBit(x, i, b);
    BitsDetermineByte(WithBit(once, i, b), once);
  }

  /** Writing the same run of bits twice gives the byte of writing it once. */
  lemma {:induction false} WithBitsIdempotent(x: bv8, start: int, s: seq<bool>)
    requires 0 <= start && start + |s| <= 8
    ensures WithBits(WithBits(x, start, s), start, s) == WithBits(x, start, s)
  {
    var once := WithBits(x, start, s);
    var twice := WithBits(once, start, s);
    forall j | ValidIndex(j) ensures Bit(twice, j) == Bit(once, j) {
      if start <= j < start + |s| {
        assert Bit(twice, start + (j - start)) == s[j - start];
        assert Bit(once, start + (j - start)) == s[j - start];
      }
    }
    BitsDetermineByte(twice, once);
  }

  /** A run of length one is a single-bit write. */
  lemma SingleBitRun(x: bv8, i: int, b: bool)
    requires ValidIndex(i)
    ensures WithBits(x, i, [b]) == WithBit(x, i, b)
    ensures BitsOf(x, i, i + 1) == [Bit(x, i)]
  {
    assert [b][..0] == [];
  }
}
