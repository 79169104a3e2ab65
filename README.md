# abyte: one byte with bit-level access

The C++ class `abyte` wraps a single `unsigned char` and gives indexed access
to its bits (bit 0 is the least significant) and to half-open runs of bits
`[start, end)`. The const accessors read; the non-const accessors hand out
proxies (`bitproxy`, `bitsproxy`) whose assignment operators write back into
the byte. Bad indices raise an out-of-range error; assigning a run of the
wrong length raises a length-mismatch error before any bit is written.

This project models that class in Dafny:

- `bits.dfy`, module `ByteBits`: the value-level meaning of the operations on
  a `bv8`. `ValidIndex` (0..7) and `ValidRange` (start in 0..7, end in 0..8,
  start <= end) are the two checks the accessors make; `Bit(x, i)` is
  `(x >> i) & 1`; `WithBit` is the set-or-clear of the single-bit proxy;
  `BitsOf` is the ranged read; `WithBits` is the ranged write loop. `Digit`
  is an independent arithmetic reading of "binary digit i" (repeated halving
  of the unsigned value), against which `Bit` is proved. The two error kinds
  are `OutOfRange` and `LengthMismatch`, returned in `Result`/`Outcome`
  values instead of thrown.
- `abyte.dfy`, module `Abyte`: the class `Abyte` with a mutable field
  `data: bv8`. The const reads are functions (`Get`, `Bits`); the ranged
  reads' `push_back` loops are methods (`GetBits`, `ReadBits`) proved equal
  to `Bits`. The proxies are the datatypes `BitProxy(index)` and
  `BitsProxy(start, end)`, handed out by `At` and `Range` after the same
  checks as the const reads; their reads and assignments (`ReadBit`,
  `WriteBit`, `ReadBits`, `WriteBits`) are members of the owning object,
  which stands in for the proxy's `uc&` back-reference. The default
  constructor `Uninitialized` assigns nothing, so the byte holds an arbitrary
  value, as the C++ default constructor leaves `data` uninitialised.

## Model

| member | source | states |
|---|---|---|
| `ByteBits.ValidIndex` | abyte.hpp:78 | an index is accepted exactly when 0 <= i <= 7, the check shared by both single-bit accessors |
| `ByteBits.ValidRange` | abyte.hpp:96 | a range is accepted exactly when 0 <= start <= 7, 0 <= end <= 8 and start <= end, the check shared by both ranged accessors |
| `ByteBits.Bit` | abyte.hpp:82 | bit i of a byte is `(data >> i) & 1`, the expression of both single-bit reads |
| `ByteBits.WithBit` | abyte.hpp:30-34 | after writing b to bit i, bit i is b and the other seven bits are unchanged |
| `ByteBits.BitsOf` | abyte.hpp:100-106 | the ranged read has length end - start and element k is bit start + k |
| `ByteBits.WithBits` | abyte.hpp:64-67 | after the write loop, bit start + k equals s[k] for every k, and every bit outside the written positions is unchanged |
| `ByteBits.BitsDetermineByte` | abyte.hpp:12 | two bytes whose eight bits agree are equal |
| `ByteBits.BitIsBinaryDigit` | abyte.hpp:82 | `(data >> i) & 1` is binary digit i of the unsigned value (bit 0 least significant), by induction on i |
| `ByteBits.ReadAfterWrite` | abyte.hpp:59-70 | reading a range just written with s returns s |
| `ByteBits.WriteWhatWasRead` | abyte.hpp:48-70 | writing back the bits just read from a range leaves the byte unchanged |
| `ByteBits.WithBitIdempotent` | abyte.hpp:30-34 | writing the same value to a bit twice gives the same byte as writing it once |
| `ByteBits.WithBitsIdempotent` | abyte.hpp:59-70 | writing the same run of bits twice gives the same byte as writing it once |
| `ByteBits.SingleBitRun` | abyte.hpp:30-67 | a range write of length one is the single-bit write, and a range read of length one is the single-bit read |
| `Abyte.Abyte.Uninitialized` | abyte.hpp:73 | default construction promises nothing about the byte |
| `Abyte.Abyte.constructor` | abyte.hpp:74 | construction from x stores x, and every bit read reports bit i of x |
| `Abyte.Abyte.Value` | abyte.hpp:119-121 | the converted byte's bits are exactly what the single-bit reads report |
| `Abyte.Abyte.SetValue` | abyte.hpp:124-126 | writing through the `uc&` alias replaces the whole byte and later bit reads reflect the new value |
| `Abyte.Abyte.Get` | abyte.hpp:77-83 | the single-bit read fails with out-of-range exactly when i < 0 or i > 7, and otherwise returns bit i |
| `Abyte.GetIsBinaryDigit` | abyte.hpp:77-83 | for every i in 0..7 the single-bit read returns binary digit i of the unsigned value |
| `Abyte.Abyte.At` | abyte.hpp:86-92 | the non-const single-bit accessor fails with out-of-range exactly when i < 0 or i > 7, and otherwise yields a proxy for position i |
| `Abyte.Abyte.ReadBit` | abyte.hpp:25-27 | reading through a single-bit proxy gives what the const read gives |
| `Abyte.Abyte.WriteBit` | abyte.hpp:30-34 | assigning b through a proxy makes bit i read as b and leaves the other seven bit reads unchanged |
| `Abyte.Abyte.Bits` | abyte.hpp:95-107 | the ranged read fails with out-of-range exactly when the range is not valid (so (8,8) and start > end fail, (7,7) and (7,8) succeed); otherwise it has length end - start and element k equals the single-bit read of start + k |
| `Abyte.Abyte.GetBits` | abyte.hpp:95-107 | the `push_back` loop of the const ranged read computes exactly `Bits(start, end)`, errors included |
| `Abyte.Abyte.Range` | abyte.hpp:110-116 | the non-const ranged accessor fails with out-of-range exactly when the range is not valid, and otherwise yields a proxy for [start, end) |
| `Abyte.Abyte.ReadBits` | abyte.hpp:48-56 | the proxy's read conversion returns the same sequence as the const ranged read |
| `Abyte.Abyte.WriteBits` | abyte.hpp:59-70 | a sequence of the wrong length fails with length-mismatch and leaves the byte unchanged; otherwise bit start + k becomes s[k], reading the range back returns s, and every bit outside [start, end) is unchanged |
| `Abyte.Abyte.StoreBits` | abyte.hpp:64-67 | the write loop leaves the byte equal to `WithBits` of the old byte, by a loop invariant over the prefix written so far |
| `Abyte.ConvertRoundTrip` | abyte.hpp:119-121 | constructing from a byte and converting back yields that byte |
| `Abyte.Reconstruct` | abyte.hpp:119-121 | a new byte built from another's converted value answers every single-bit and ranged read as the original does |
| `Abyte.Walkthrough` | abyte.hpp:59-70 | from zero, setting bit 3 gives 8; then writing [true, false, true, false] to [0, 4) gives 5; the range (2, 2) reads as empty and (5, 3) fails with out-of-range |
| `Abyte.RangeBoundaries` | abyte.hpp:110-113 | the ranges (7, 7) and (7, 8) are accepted and (8, 8) is refused |

## Left out

- Exception types and message texts (`std::out_of_range`, `std::runtime_error`, the `std::to_string` formatting): only the two error kinds are modelled.
- Reference and lifetime mechanics of the proxies: a proxy is a datatype holding only its indices, and its reads and writes are members of the owning object; a proxy outliving its byte, or two proxies aliasing one byte across objects, is not modelled.
- The proxies' public constructors accept any indices without a check; the model's proxy operations `require` valid indices, which is what the checked accessors `At` and `Range` guarantee. Proxies built directly with bad indices are not modelled: in C++ a `bitproxy` index from 8 to 31 reads false and leaves the byte unchanged on assignment (the shifts are done on `int`), a `bitsproxy` with start > end reads as empty and always fails its length check, and only negative shift counts and counts of 32 or more are undefined.
- The C++ range assignment runs its write loop in the same function as its length check; the model puts the loop in `StoreBits`, called after the check, so the effect is the same but the two are separate members.
- The single-bit and ranged writes go through `WithBit`, whose body is the source's `|=`/`&= ~` expression; C++ integer promotion of `unsigned char` to `int` in `1 << index` is not modelled, since the shift never exceeds 7 and the result is truncated back to 8 bits.
- Copying: the C++ `abyte` is a value type whose implicit copy constructor and copy assignment copy `data`, while the Dafny `Abyte` is a reference class, so `var b := a` aliases the object; a copy is modelled only as `new Abyte(a.Value())`, as `Reconstruct` does.
- The unused includes `<iostream>` and `<string>`, and the `constexpr` qualifiers.
