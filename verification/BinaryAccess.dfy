/**
 Reading and writing integers and addresses in a buffer of the debuggee's bytes. Machine integers
 are mathematical integers here; casts, shifts and bitwise operators are written out.
 */
module BinaryAccess {
  type Byte = b: nat | b < 256

  const M16 := 0x1_0000
  const M32 := 0x1_0000_0000
  const M64 := 0x1_0000_0000_0000_0000

  // ------------------------------------------------------------ bits and bytes

  function Pow2(k: nat): (p: nat)
    ensures p > 0
  {
    if k == 0 then 1 else 2 * Pow2(k - 1)
  }

  /** `b << k` in a type wide enough. */
  function Shl(b: nat, k: nat): nat {
    b * Pow2(k)
  }

  /** The bitwise `|` of two unsigned numbers. */
  function BitOr(a: nat, b: nat): nat
    decreases a + b
  {
    if a == 0 then b
    else if b == 0 then a
    else (if a % 2 == 1 || b % 2 == 1 then 1 else 0) + 2 * BitOr(a / 2, b / 2)
  }

  /** Numbers without common bits: `|` is addition. */
  lemma {:induction false} OrDisjoint(a: nat, b: nat, k: nat)
    requires a < Pow2(k)
    ensures BitOr(a, Shl(b, k)) == a + Shl(b, k)
    decreases k
  {
    if k > 0 && a > 0 && b > 0 {
      var p := Pow2(k - 1);
      assert b * Pow2(k) == 2 * (b * p);
      assert b * p > 0;
      OrDisjoint(a / 2, b, k - 1);
    }
  }

  /** `a | b`, for operands without common bits. */
  method Or(a: nat, b: nat, ghost q: nat, ghost k: nat) returns (r: nat)
    requires a < Pow2(k) && b == Shl(q, k)
    ensures r == a + b
  {
    OrDisjoint(a, q, k);
    return BitOr(a, b);
  }

  /** A number modulo `m` as a two's complement number. */
  function Signed(x: int, m: nat): int
    requires m > 0
  {
    if 2 * (x % m) >= m then x % m - m else x % m
  }

  predicate Fits(x: int, m: nat) {
    0 - m <= 2 * x < m
  }

  lemma SignedFits(x: int, m: nat)
    requires m > 0
    ensures Fits(Signed(x, m), m)
    ensures Fits(x, m) ==> Signed(x, m) == x
    ensures Signed(x, m) % m == x % m
  {
    ModIs(Signed(x, m), m, if 2 * (x % m) >= m then -1 else 0, x % m);
    if Fits(x, m) {
      ModIs(x, m, if x < 0 then -1 else 0, if x < 0 then x + m else x);
    }
  }

  /** The low `n` bytes of a number in two's complement, least significant first. */
  function Encode(v: int, n: nat): (s: seq<Byte>)
    ensures |s| == n
    decreases n
  {
    if n == 0 then [] else [v % 256] + Encode(v / 256, n - 1)
  }

  /** The number a sequence of bytes stands for, least significant first. */
  function Decode(s: seq<Byte>): nat {
    if s == [] then 0 else s[0] + 256 * Decode(s[1..])
  }

  function Pow256(n: nat): (p: nat)
    ensures p > 0
  {
    if n == 0 then 1 else 256 * Pow256(n - 1)
  }

  lemma ModByParts(v: int, p: nat)
    requires p > 0
    ensures v % 256 + 256 * ((v / 256) % p) == v % (256 * p)
  {
    var q, r := (v / 256) / p, v % 256 + 256 * ((v / 256) % p);
    assert v == (256 * p) * q + r;
    assert (v / 256) % p <= p - 1;
    ModIs(v, 256 * p, q, r);
  }

  lemma ProductAway(m: nat, d: int)
    ensures d >= 1 ==> m * d >= m
    ensures d <= -1 ==> m * d <= 0 - m
  {
    assert m * (d - 1) == m * d - m && m * (d + 1) == m * d + m;
  }

  /** Quotient and remainder are unique. */
  lemma ModIs(v: int, m: nat, q: int, r: int)
    requires m > 0 && v == m * q + r && 0 <= r < m
    ensures v % m == r && v / m == q
  {
    var d := v / m - q;
    assert m * d == m * (v / m) - m * q;
    ProductAway(m, d);
  }

  /** A byte cut out by shifting and masking is the one cut out by masking and shifting. */
  lemma ShiftThenMask(v: int, p: nat)
    requires p > 0
    ensures v / p % 256 == v % (256 * p) / p
  {
    var q, r := v / p, v % p;
    var b := q % 256;
    assert v == (256 * p) * (q / 256) + (p * b + r);
    assert p * b <= p * 255;
    ModIs(v, 256 * p, q / 256, p * b + r);
    ModIs(p * b + r, p, b, r);
  }

  /** The bytes of a number hold it modulo the size of its type. */
  lemma {:induction false} DecodeEncode(v: int, n: nat)
    ensures Decode(Encode(v, n)) == v % Pow256(n)
    decreases n
  {
    if n > 0 {
      DecodeEncode(v / 256, n - 1);
      ModByParts(v, Pow256(n - 1));
      assert Encode(v, n)[1..] == Encode(v / 256, n - 1);
    }
  }

  /** And the bytes of the number a sequence stands for are that sequence. */
  lemma {:induction false} EncodeDecode(s: seq<Byte>)
    ensures Encode(Decode(s), |s|) == s
  {
    if s != [] {
      EncodeDecode(s[1..]);
      assert Decode(s) % 256 == s[0] && Decode(s) / 256 == Decode(s[1..]);
    }
  }

  lemma Encode2(v: int)
    ensures Encode(v, 2) == [v % 256, v / 256 % 256]
  {
    assert Encode(v / 256, 1) == [v / 256 % 256];
  }

  lemma Encode4(v: int)
    ensures Encode(v, 4) == [v % 256, v % M16 / 256, v % 0x100_0000 / M16, v % M32 / 0x100_0000]
  {
    EncodeSplit(v, 2, 2);
    Encode2(v);
    Encode2(v / M16);
    ShiftThenMask(v, 256);
    ShiftThenMask(v, M16);
    ShiftThenMask(v, 0x100_0000);
    DivDiv(v / 256, 256);
    DivDiv(v, M16);
    assert Pow256(2) == M16;
    assert v / M16 / 256 == v / 0x100_0000;
  }

  lemma {:induction false} EncodeSplit(v: int, m: nat, n: nat)
    ensures Encode(v, m + n) == Encode(v, m) + Encode(v / Pow256(m), n)
    decreases m
  {
    if m == 0 {
      assert v / 1 == v;
    } else {
      EncodeSplit(v / 256, m - 1, n);
      DivDiv(v, Pow256(m - 1));
    }
  }

  lemma DivDiv(v: int, p: nat)
    requires p > 0
    ensures v / 256 / p == v / (256 * p)
  {
    ModByParts(v, p);
    assert v == 256 * (v / 256) + v % 256 && v / 256 == p * (v / 256 / p) + v / 256 % p;
    var d := v / 256 / p - v / (256 * p);
    assert (256 * p) * d == 0;
  }

  /** Only the value modulo the size of the type matters. */
  lemma EncodeMod(v: int, w: int, n: nat)
    requires v % Pow256(n) == w % Pow256(n)
    ensures Encode(v, n) == Encode(w, n)
  {
    DecodeEncode(v, n);
    DecodeEncode(w, n);
    EncodeDecode(Encode(v, n));
    EncodeDecode(Encode(w, n));
  }

  // ------------------------------------------------------- writer and reader

  type Short = x: int | -0x8000 <= x < 0x8000
  type Int = x: int | -0x8000_0000 <= x < 0x8000_0000
  type Long = x: int | -0x8000_0000_0000_0000 <= x < 0x8000_0000_0000_0000

  function ToInt(x: int): Int {
    SignedFits(x, M32);
    Signed(x, M32)
  }

  function ToLong(x: int): Long {
    SignedFits(x, M64);
    Signed(x, M64)
  }

  function Overwrite(s: seq<Byte>, p: nat, bytes: seq<Byte>): (r: seq<Byte>)
    requires p + |bytes| <= |s|
    ensures |r| == |s|
  {
    s[..p] + bytes + s[p + |bytes|..]
  }

  class Writer {
    const contents: array<Byte>
    const addressSize: nat
    var pos: nat

    constructor (size: nat, addressSize: nat)
      ensures fresh(contents) && contents.Length == size && pos == 0 && this.addressSize == addressSize
    {
      contents := new Byte[size](_ => 0);
      this.addressSize := addressSize;
      pos := 0;
    }

    method PokeInt16(p: nat, value: Short)
      requires p + 2 <= contents.Length
      modifies contents
      ensures contents[..] == Overwrite(old(contents[..]), p, Encode(value, 2))
    {
      contents[p] := value % 256;
      contents[p + 1] := value / 256 % 256;
      Encode2(value);
    }

    method PokeInt32(p: nat, value: Int)
      requires p + 4 <= contents.Length
      modifies contents
      ensures contents[..] == Overwrite(old(contents[..]), p, Encode(value, 4))
    {
      contents[p] := value % 256;
      contents[p + 1] := value % M16 / 256;
      contents[p + 2] := value % 0x100_0000 / M16;
      contents[p + 3] := value % M32 / 0x100_0000;
      Encode4(value);
    }

    method PokeInt64(p: nat, value: Long)
      requires p + 8 <= contents.Length
      modifies contents
      ensures contents[..] == Overwrite(old(contents[..]), p, Encode(value, 8))
    {
      var low := value % M64 % M32;
      var high := value % M64 / M32;
      PokeInt32(p, ToInt(low));
      PokeInt32(p + 4, ToInt(high));
      Encode8(value);
    }

    method PokeAddress(p: nat, value: Long)
      requires p + AddressWidth(addressSize) <= contents.Length
      modifies contents
      ensures contents[..] == Overwrite(old(contents[..]), p, Encode(value, AddressWidth(addressSize)))
    {
      if addressSize == 8 {
        PokeInt64(p, value);
      } else {
        PokeInt32(p, ToInt(value));
        ToIntBytes(value);
      }
    }

    /** `WriteInt16`, `WriteInt32`, `WriteInt64` and `WriteAddress`. */
    method Write(f: Field)
      requires Valid(f) && pos + Width(f.kind, addressSize) <= contents.Length
      modifies this`pos, contents
      ensures Memory(contents[..], pos) == WriteField(Memory(old(contents[..]), old(pos)), f, addressSize)
    {
      match f.kind
      case Int16 =>
        PokeInt16(pos, f.value);
        pos := pos + 2;
      case Int32 =>
        PokeInt32(pos, f.value);
        pos := pos + 4;
      case Int64 =>
        PokeInt64(pos, f.value);
        pos := pos + 8;
      case Address =>
        PokeAddress(pos, f.value);
        pos := pos + AddressWidth(addressSize);
    }
  }

  function AddressWidth(addressSize: nat): nat {
    if addressSize == 8 then 8 else 4
  }

  lemma Encode8(value: Long)
    ensures Encode(value, 8) == Encode(ToInt(value % M64 % M32), 4) + Encode(ToInt(value % M64 / M32), 4)
  {
    var u := value % M64;
    Powers256();
    ModIs(u, M64, 0, u);
    EncodeMod(value, u, 8);
    EncodeSplit(u, 4, 4);
    ModIs(u % M32, M32, 0, u % M32);
    EncodeMod(u, u % M32, 4);
    ToIntBytes(u % M32);
    ToIntBytes(u / M32);
  }

  lemma ToIntBytes(value: int)
    ensures Encode(ToInt(value), 4) == Encode(value, 4)
  {
    Powers256();
    SignedFits(value, M32);
    EncodeMod(value, ToInt(value), 4);
  }

  class Reader {
    const contents: array<Byte>
    const addressSize: nat
    const swap: bool
    var pos: nat

    constructor (contents: array<Byte>, addressSize: nat, swap: bool)
      ensures this.contents == contents && this.addressSize == addressSize && this.swap == swap && pos == 0
    {
      this.contents, this.addressSize, this.swap, pos := contents, addressSize, swap, 0;
    }

    method PeekInt16(p: nat) returns (r: Short)
      requires p + 2 <= contents.Length
      ensures r == Signed(Decode(Ordered(contents[p..p + 2], swap)), M16)
    {
      var word;
      ShlBytes(1);
      if swap {
        word := Or(contents[p + 1], Shl(contents[p], 8), contents[p], 8);
      } else {
        word := Or(contents[p], Shl(contents[p + 1], 8), contents[p + 1], 8);
      }
      Decode2(Ordered(contents[p..p + 2], swap));
      SignedFits(word, M16);
      return Signed(word, M16);
    }

    method PeekUInt32(p: nat) returns (r: nat)
      requires p + 4 <= contents.Length
      ensures r == Decode(Ordered(contents[p..p + 4], swap)) < M32
    {
      Decode4(Ordered(contents[p..p + 4], swap));
      if swap {
        r := Or4(contents[p + 3], contents[p + 2], contents[p + 1], contents[p]);
      } else {
        r := Or4(contents[p], contents[p + 1], contents[p + 2], contents[p + 3]);
      }
    }

    method PeekInt32(p: nat) returns (r: Int)
      requires p + 4 <= contents.Length
      ensures r == Signed(Decode(Ordered(contents[p..p + 4], swap)), M32)
    {
      var word := PeekUInt32(p);
      return ToInt(word);
    }

    /** The two halves, and the word they make. */
    method PeekUInt64(p: nat) returns (word: nat)
      requires p + 8 <= contents.Length
      ensures word == Decode(Ordered(contents[p..p + 8], swap))
    {
      var first := PeekUInt32(p);
      var second := PeekUInt32(p + 4);
      ghost var a, b := contents[p..p + 4], contents[p + 4..p + 8];
      assert contents[p..p + 8] == a + b;
      Decode8(a, b, swap);
      if swap {
        word := OrHalves(second, first);
      } else {
        word := OrHalves(first, second);
      }
    }

    method PeekInt64(p: nat) returns (r: Long)
      requires p + 8 <= contents.Length
      ensures r == Signed(Decode(Ordered(contents[p..p + 8], swap)), M64)
    {
      var word := PeekUInt64(p);
      return ToLong(word);
    }

    /** `ReadInt16`, `ReadInt32`, `ReadInt64` and `ReadAddress`. */
    method Read(kind: Kind) returns (r: int)
      requires pos + Width(kind, addressSize) <= contents.Length
      modifies this`pos
      ensures pos == old(pos) + Width(kind, addressSize)
      ensures r == ReadField(contents[..], old(pos), kind, addressSize, swap)
    {
      assert contents[..][pos..pos + Width(kind, addressSize)] == contents[pos..pos + Width(kind, addressSize)];
      match kind
      case Int16 =>
        r := PeekInt16(pos);
        pos := pos + 2;
      case Int32 =>
        r := PeekInt32(pos);
        pos := pos + 4;
      case Int64 =>
        r := PeekInt64(pos);
        pos := pos + 8;
      case Address =>
        if addressSize == 8 {
          r := PeekInt64(pos);
          pos := pos + 8;
        } else {
          r := PeekUInt32(pos);
          pos := pos + 4;
        }
    }
  }

  function Reversed(s: seq<Byte>): (r: seq<Byte>)
    ensures |r| == |s|
    ensures forall i :: 0 <= i < |s| ==> r[i] == s[|s| - 1 - i]
  {
    if s == [] then [] else Reversed(s[1..]) + [s[0]]
  }

  function Ordered(s: seq<Byte>, swap: bool): (r: seq<Byte>)
    ensures |r| == |s|
  {
    if swap then Reversed(s) else s
  }

  /** Four bytes or-ed together, each shifted to its place. */
  method Or4(b0: Byte, b1: Byte, b2: Byte, b3: Byte) returns (r: nat)
    ensures r == b0 + Shl(b1, 8) + Shl(b2, 16) + Shl(b3, 24) < M32
  {
    ShlBytes(1);
    ShlBytes(b1);
    ShlBytes(b2);
    ShlBytes(b3);
    r := Or(b0, Shl(b1, 8), b1, 8);
    r := Or(r, Shl(b2, 16), b2, 16);
    r := Or(r, Shl(b3, 24), b3, 24);
  }

  lemma Decode2(b: seq<Byte>)
    requires |b| == 2
    ensures Decode(b) == b[0] + Shl(b[1], 8) < M16
  {
    ShlBytes(b[1]);
    assert Decode(b[1..]) == b[1];
  }

  lemma Decode4(b: seq<Byte>)
    requires |b| == 4
    ensures Decode(b) == b[0] + Shl(b[1], 8) + Shl(b[2], 16) + Shl(b[3], 24)
  {
    ShlBytes(b[1]);
    ShlBytes(b[2]);
    ShlBytes(b[3]);
    Decode2(b[2..]);
    assert b[1..][1..] == b[2..];
    assert Decode(b) == b[0] + 256 * Decode(b[1..]) && Decode(b[1..]) == b[1] + 256 * Decode(b[2..]);
  }

  lemma Regroup(x: nat, y: nat, z: nat)
    ensures x * (y * z) == y * (x * z)
  {
  }

  lemma ShlByte(b: nat, k: nat)
    ensures Shl(b, k + 8) == 0x100 * Shl(b, k)
  {
    assert Pow2(k + 2) == 4 * Pow2(k) && Pow2(k + 4) == 16 * Pow2(k) && Pow2(k + 6) == 64 * Pow2(k);
    assert Pow2(k + 8) == 0x100 * Pow2(k);
    Regroup(0x100, b, Pow2(k));
  }

  lemma ShlBytes(b: nat)
    ensures Shl(b, 8) == 0x100 * b && Shl(b, 16) == M16 * b && Shl(b, 24) == 0x100_0000 * b && Shl(b, 32) == M32 * b
  {
  }

  lemma Powers256()
    ensures Pow256(2) == M16 && Pow256(4) == M32 && Pow256(8) == M64
  {
    assert Pow256(6) == 0x1_0000_0000_0000;
  }

  lemma {:induction false} DecodeConcat(a: seq<Byte>, b: seq<Byte>)
    ensures Decode(a + b) == Decode(a) + Shl(Decode(b), 8 * |a|)
  {
    if a == [] {
      assert a + b == b;
    } else {
      DecodeConcat(a[1..], b);
      assert (a + b)[1..] == a[1..] + b;
      ShlByte(Decode(b), 8 * |a[1..]|);
    }
  }

  /** Two halves or-ed together. */
  method OrHalves(low: nat, high: nat) returns (r: nat)
    requires low < M32
    ensures r == low + Shl(high, 32)
  {
    ShlBytes(1);
    r := Or(low, Shl(high, 32), high, 32);
  }

  lemma Decode8(a: seq<Byte>, b: seq<Byte>, swap: bool)
    requires |a| == |b| == 4
    ensures var first, second := Decode(Ordered(a, swap)), Decode(Ordered(b, swap));
            Decode(Ordered(a + b, swap)) == if swap then second + Shl(first, 32) else first + Shl(second, 32)
  {
    var first, second := Ordered(a, swap), Ordered(b, swap);
    assert Ordered(a + b, swap) == if swap then second + first else first + second;
    DecodeConcat(first, second);
    DecodeConcat(second, first);
  }

  // ------------------------------------------------------------- round trips

  datatype Kind = Int16 | Int32 | Int64 | Address

  datatype Field = Field(kind: Kind, value: int)

  predicate Valid(f: Field) {
    match f.kind
    case Int16 => Fits(f.value, M16)
    case Int32 => Fits(f.value, M32)
    case Int64 => Fits(f.value, M64)
    case Address => Fits(f.value, M64)
  }

  function Width(kind: Kind, addressSize: nat): nat {
    match kind
    case Int16 => 2
    case Int32 => 4
    case Int64 => 8
    case Address => AddressWidth(addressSize)
  }

  datatype Memory = Memory(contents: seq<Byte>, pos: nat)

  function WriteField(m: Memory, f: Field, addressSize: nat): Memory
    requires m.pos + Width(f.kind, addressSize) <= |m.contents|
  {
    Memory(Overwrite(m.contents, m.pos, Encode(f.value, Width(f.kind, addressSize))),
      m.pos + Width(f.kind, addressSize))
  }

  function ReadField(s: seq<Byte>, p: nat, kind: Kind, addressSize: nat, swap: bool): int
    requires p + Width(kind, addressSize) <= |s|
  {
    var raw := Decode(Ordered(s[p..p + Width(kind, addressSize)], swap));
    match kind
    case Int16 => Signed(raw, M16)
    case Int32 => Signed(raw, M32)
    case Int64 => Signed(raw, M64)
    case Address => if addressSize == 8 then Signed(raw, M64) else raw
  }

  /** What reading a field back gives: the value, or the low half of an address in four bytes. */
  function Expected(f: Field, addressSize: nat): int {
    if f.kind.Address? && addressSize != 8 then f.value % M32 else f.value
  }

  function Total(fields: seq<Field>, addressSize: nat): nat {
    if fields == [] then 0 else Width(fields[0].kind, addressSize) + Total(fields[1..], addressSize)
  }

  /** Successive writes. */
  function WriteAll(m: Memory, fields: seq<Field>, addressSize: nat): Memory
    requires m.pos + Total(fields, addressSize) <= |m.contents|
    decreases |fields|
  {
    if fields == [] then m else WriteAll(WriteField(m, fields[0], addressSize), fields[1..], addressSize)
  }

  /** Successive reads of the same kinds. */
  function ReadAll(s: seq<Byte>, p: nat, fields: seq<Field>, addressSize: nat, swap: bool): seq<int>
    requires p + Total(fields, addressSize) <= |s|
    decreases |fields|
  {
    if fields == [] then []
    else [ReadField(s, p, fields[0].kind, addressSize, swap)]
         + ReadAll(s, p + Width(fields[0].kind, addressSize), fields[1..], addressSize, swap)
  }

  function ExpectedAll(fields: seq<Field>, addressSize: nat): seq<int> {
    if fields == [] then [] else [Expected(fields[0], addressSize)] + ExpectedAll(fields[1..], addressSize)
  }

  /** Writes advance the position by what they write and touch nothing else. */
  lemma {:induction false} WritesStayInside(m: Memory, fields: seq<Field>, addressSize: nat)
    requires m.pos + Total(fields, addressSize) <= |m.contents|
    ensures var m' := WriteAll(m, fields, addressSize);
            && |m'.contents| == |m.contents| && m'.pos == m.pos + Total(fields, addressSize)
            && m'.contents[..m.pos] == m.contents[..m.pos]
            && m'.contents[m'.pos..] == m.contents[m'.pos..]
    decreases |fields|
  {
    if fields != [] {
      var m1 := WriteField(m, fields[0], addressSize);
      var m' := WriteAll(m, fields, addressSize);
      WritesStayInside(m1, fields[1..], addressSize);
      assert m1.contents[..m.pos] == m.contents[..m.pos];
      assert m'.contents[..m.pos] == m'.contents[..m1.pos][..m.pos] == m1.contents[..m1.pos][..m.pos];
      assert m1.contents[m1.pos..] == m.contents[m1.pos..];
      assert m1.contents[m'.pos..] == m1.contents[m1.pos..][m'.pos - m1.pos..] == m.contents[m'.pos..];
    }
  }

  /** The bytes of a field give its value back. */
  lemma FieldRoundTrip(f: Field, addressSize: nat)
    requires Valid(f)
    ensures var raw := Decode(Encode(f.value, Width(f.kind, addressSize)));
            match f.kind
            case Int16 => Signed(raw, M16) == f.value
            case Int32 => Signed(raw, M32) == f.value
            case Int64 => Signed(raw, M64) == f.value
            case Address => (if addressSize == 8 then Signed(raw, M64) else raw) == Expected(f, addressSize)
  {
    Powers256();
    DecodeEncode(f.value, Width(f.kind, addressSize));
    var m := Pow256(Width(f.kind, addressSize));
    ModIs(f.value % m, m, 0, f.value % m);
    SignedFits(f.value, m);
  }

  /**
   Any mixed sequence of writes reads back, in the same order, as the values written (an address in
   four bytes modulo 2^32); afterwards writer and reader are at the same position, and the rest of
   the buffer is what it was.
   */
  lemma {:induction false} RoundTrip(m: Memory, fields: seq<Field>, addressSize: nat)
    requires m.pos + Total(fields, addressSize) <= |m.contents|
    requires forall f :: f in fields ==> Valid(f)
    ensures var m' := WriteAll(m, fields, addressSize);
            && |m'.contents| == |m.contents| && m'.pos == m.pos + Total(fields, addressSize)
            && ReadAll(m'.contents, m.pos, fields, addressSize, false) == ExpectedAll(fields, addressSize)
            && m'.contents[..m.pos] == m.contents[..m.pos] && m'.contents[m'.pos..] == m.contents[m'.pos..]
    decreases |fields|
  {
    WritesStayInside(m, fields, addressSize);
    if fields != [] {
      var f := fields[0];
      var m1 := WriteField(m, f, addressSize);
      var m' := WriteAll(m, fields, addressSize);
      assert f in fields;
      RoundTrip(m1, fields[1..], addressSize);
      var bytes := Encode(f.value, Width(f.kind, addressSize));
      assert m'.contents[m.pos..m1.pos] == m'.contents[..m1.pos][m.pos..] == m1.contents[..m1.pos][m.pos..] == bytes;
      FieldRoundTrip(f, addressSize);
    }
  }

  lemma {:induction false} DecodeInjective(a: seq<Byte>, b: seq<Byte>)
    requires |a| == |b|
    ensures Decode(a) == Decode(b) ==> a == b
  {
    EncodeDecode(a);
    EncodeDecode(b);
  }

  lemma {:induction false} DecodeBound(s: seq<Byte>)
    ensures Decode(s) < Pow256(|s|)
  {
    if s != [] {
      DecodeBound(s[1..]);
    }
  }

  /**
   The writer knows only one byte order: a reader that swaps gets the value back exactly when its
   bytes read the same in both directions.
   */
  lemma SwappedRoundTrip(m: Memory, f: Field, addressSize: nat)
    requires Valid(f) && m.pos + Width(f.kind, addressSize) <= |m.contents|
    ensures var bytes := Encode(f.value, Width(f.kind, addressSize));
            ReadField(WriteField(m, f, addressSize).contents, m.pos, f.kind, addressSize, true) ==
              Expected(f, addressSize)
            <==> Reversed(bytes) == bytes
  {
    var w := Width(f.kind, addressSize);
    var bytes := Encode(f.value, w);
    var m1 := WriteField(m, f, addressSize);
    assert m1.contents[m.pos..m.pos + w] == bytes;
    Powers256();
    FieldRoundTrip(f, addressSize);
    DecodeBound(bytes);
    DecodeBound(Reversed(bytes));
    DecodeInjective(Reversed(bytes), bytes);
    SignedInjective(Decode(Reversed(bytes)), Decode(bytes), Pow256(w));
  }

  lemma SignedInjective(x: nat, y: nat, m: nat)
    requires x < m && y < m
    ensures Signed(x, m) == Signed(y, m) <==> x == y
  {
    ModIs(x, m, 0, x);
    ModIs(y, m, 0, y);
  }
}
