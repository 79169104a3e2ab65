/** One byte with bit-level access: single bits and half-open runs of bits can
    be read, and written through proxies the non-const accessors hand out. */
module Abyte {
  import opened ByteBits

  /** What the non-const single-bit accessor returns: a view of one bit
      position of the byte it was taken from. */
  datatype BitProxy = BitProxy(index: int)

  /** What the non-const ranged accessor returns: a view of the positions
      start .. end-1 of the byte it was taken from. */
  datatype BitsProxy = BitsProxy(start: int, end: int)

  class Abyte {
    var data: bv8

    /** The default constructor leaves the byte uninitialised: any value. */
    constructor Uninitialized()
    {
    }

    /** Construction from a byte stores it verbatim. */
    constructor (x: bv8)
      ensures data == x
      ensures forall i :: ValidIndex(i) ==> Get(i) == Ok(Bit(x, i))
    {
      data := x;
    }

    /** Conversion to the underlying byte; its bits are the ones Get reports. */
    function Value(): (v: bv8)
      reads this
      ensures forall i :: ValidIndex(i) ==> Get(i) == Ok(Bit(v, i))
    {
      data
    }

    /** Assignment through the mutable alias of the underlying byte: the whole
        byte is replaced and later reads see the new value. */
    method SetValue(x: bv8)
      modifies this
      ensures data == x
      ensures forall i :: ValidIndex(i) ==> Get(i) == Ok(Bit(x, i))
    {
      data := x;
    }

    /** The const single-bit read: an index outside 0..7 is out of range and
        nothing is read; otherwise the result is bit i, which BitIsBinaryDigit
        shows to be binary digit i of the unsigned value. */
    function Get(i: int): (r: Result<bool>)
      reads this
      ensures r.Ok? <==> ValidIndex(i)
      ensures r.Err? ==> r.error == OutOfRange
      ensures r.Ok? ==> r.value == Bit(data, i)
    {
      if i < 0 || i > 7 then Err(OutOfRange) else Ok(Bit(data, i))
    }

    /** The non-const single-bit accessor: the same index check as Get, and on
        success a proxy for that position. */
    function At(i: int): (r: Result<BitProxy>)
      ensures r.Ok? <==> ValidIndex(i)
      ensures r.Err? ==> r.error == OutOfRange
      ensures r.Ok? ==> r.value.index == i
    {
      if i < 0 || i > 7 then Err(OutOfRange) else Ok(BitProxy(i))
    }

    /** Reading through a single-bit proxy gives what the const read gives. */
    function ReadBit(p: BitProxy): (b: bool)
      reads this
      requires ValidIndex(p.index)
      ensures Get(p.index) == Ok(b)
    {
      Bit(data, p.index)
    }

    /** Assigning through a single-bit proxy sets or clears that bit and no other. */
    method WriteBit(p: BitProxy, b: bool)
      requires ValidIndex(p.index)
      modifies this
      ensures data == WithBit(old(data), p.index, b)
      ensures Get(p.index) == Ok(b)
      ensures forall j :: ValidIndex(j) && j != p.index ==> Get(j) == old(Get(j))
    {
      data := WithBit(data, p.index, b);
    }

    /** The ranged read as a value: out of range unless ValidRange holds;
        otherwise end - start bits, element k being the bit at start + k. */
    function Bits(start: int, end: int): (r: Result<seq<bool>>)
      reads this
      ensures r.Ok? <==> ValidRange(start, end)
      ensures r.Err? ==> r.error == OutOfRange
      ensures r.Ok? ==> |r.value| == end - start
      ensures r.Ok? ==> forall k :: 0 <= k < |r.value| ==> Get(start + k) == Ok(r.value[k])
    {
      if start < 0 || start > 7 || end < 0 || end > 8 || start > end then Err(OutOfRange)
      else Ok(BitsOf(data, start, end))
    }

    /** The const ranged read, collecting the bits one position at a time. */
    method GetBits(start: int, end: int) returns (r: Result<seq<bool>>)
      ensures r == Bits(start, end)
    {
      if start < 0 || start > 7 || end < 0 || end > 8 || start > end {
        return Err(OutOfRange);
      }
      var s: seq<bool> := [];
      var i := start;
      while i < end
        invariant start <= i <= end
        invariant s == BitsOf(data, start, i)
      {
        s := s + [Bit(data, i)];
        i := i + 1;
      }
      r := Ok(s);
    }

    /** The non-const ranged accessor: the same range check as Bits, and on
        success a proxy for that range. */
    function Range(start: int, end: int): (r: Result<BitsProxy>)
      ensures r.Ok? <==> ValidRange(start, end)
      ensures r.Err? ==> r.error == OutOfRange
      ensures r.Ok? ==> r.value == BitsProxy(start, end)
    {
      if start < 0 || start > 7 || end < 0 || end > 8 || start > end then Err(OutOfRange)
      else Ok(BitsProxy(start, end))
    }

    /** Reading through a range proxy gives what the const ranged read gives. */
    method ReadBits(p: BitsProxy) returns (s: seq<bool>)
      requires ValidRange(p.start, p.end)
      ensures Bits(p.start, p.end) == Ok(s)
    {
      s := [];
      var i := p.start;
      while i < p.end
        invariant p.start <= i <= p.end
        invariant s == BitsOf(data, p.start, i)
      {
        s := s + [Bit(data, i)];
        i := i + 1;
      }
    }

    /** Assigning a sequence through a range proxy. A sequence whose length is
        not end - start is refused before any bit is touched; otherwise bit
        start + k becomes s[k], reading the range back yields s, and the bits
        outside the range keep their values. */
    method WriteBits(p: BitsProxy, s: seq<bool>) returns (r: Outcome)
      requires ValidRange(p.start, p.end)
      modifies this
      ensures r == if |s| == p.end - p.start then Pass else Fail(LengthMismatch)
      ensures r.Fail? ==> data == old(data)
      ensures r.Pass? ==> data == WithBits(old(data), p.start, s)
      ensures r.Pass? ==> Bits(p.start, p.end) == Ok(s)
      ensures forall j :: ValidIndex(j) && !(p.start <= j < p.end) ==> Get(j) == old(Get(j))
    {
      if |s| != p.end - p.start {
        return Fail(LengthMismatch);
      }
      StoreBits(p.start, s);
      ReadAfterWrite(old(data), p.start, s);
      r := Pass;
    }

    /** The write loop of WriteBits: bit start + i takes s[i], for i from 0
        upwards. */
    method StoreBits(start: int, s: seq<bool>)
      requires 0 <= start && start + |s| <= 8
      modifies this
      ensures data == WithBits(old(data), start, s)
    {
      var i := 0;
      while i < |s|
        invariant 0 <= i <= |s|
        invariant data == WithBits(old(data), start, s[..i])
      {
        data := WithBit(data, start + i, s[i]);
        assert s[..i + 1][..i] == s[..i];
        i := i + 1;
      }
      assert s[..|s|] == s;
    }
  }

  /** The single-bit read reports binary digit i of the byte's unsigned value,
      bit 0 being the least significant. */
  lemma GetIsBinaryDigit(a: Abyte, i: int)
    requires ValidIndex(i)
    ensures a.Get(i) == Ok(Digit(a.data as int, i))
  {
    BitIsBinaryDigit(a.data, i);
  }

  /** Constructing from a byte and converting back gives that byte. */
  method ConvertRoundTrip(x: bv8) returns (y: bv8)
    ensures y == x
  {
    var a := new Abyte(x);
    y := a.Value();
  }

  /** A new byte built from the converted value of another answers every
      single-bit and ranged read exactly as the original does. */
  method Reconstruct(a: Abyte) returns (c: Abyte)
    ensures forall i :: c.Get(i) == a.Get(i)
    ensures forall start, end :: c.Bits(start, end) == a.Bits(start, end)
  {
    c := new Abyte(a.Value());
  }

  /** Setting bit 3 of a zero byte gives 8; then writing [true, false, true,
      false] to the range [0, 4) overwrites bit 3 too and gives 5. The empty
      range (2, 2) reads as no bits and the reversed range (5, 3) is refused. */
  method Walkthrough() returns (afterBit: bv8, afterRange: bv8, empty: Result<seq<bool>>, reversed: Result<seq<bool>>)
    ensures afterBit == 8
    ensures afterRange == 5
    ensures empty == Ok([])
    ensures reversed == Err(OutOfRange)
  {
    var a := new Abyte(0);
    var bit := a.At(3);
    a.WriteBit(bit.value, true);
    afterBit := a.Value();
    var range := a.Range(0, 4);
    var written := [true, false, true, false];
    var outcome := a.WriteBits(range.value, written);
    forall i | ValidIndex(i) ensures Bit(a.data, i) == Bit(5, i) {
      if i < 4 {
        assert Bit(a.data, 0 + i) == written[i];
      }
    }
    BitsDetermineByte(a.data, 5);
    afterRange := a.Value();
    empty := a.GetBits(2, 2);
    reversed := a.GetBits(5, 3);
  }

  /** The asymmetric range bound: an empty range may start at 7 but not at 8,
      and a range may end at 8. */
  method RangeBoundaries() returns (at7: Result<BitsProxy>, to8: Result<BitsProxy>, at8: Result<BitsProxy>)
    ensures at7 == Ok(BitsProxy(7, 7))
    ensures to8 == Ok(BitsProxy(7, 8))
    ensures at8 == Err(OutOfRange)
  {
    var a := new Abyte(0);
    at7 := a.Range(7, 7);
    to8 := a.Range(7, 8);
    at8 := a.Range(8, 8);
  }
}
