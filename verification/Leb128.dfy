/**
 Reading LEB128 numbers (section 7.6 of DWARF Version 4) into 32-bit integers.
 */
module Leb128 {
  import opened BinaryAccess

  /** The sum of the seven-bit groups of an encoding, least significant first. */
  function Base128(s: seq<Byte>): nat {
    if s == [] then 0 else s[0] % 128 + 128 * Base128(s[1..])
  }

  /** The number a signed encoding stands for: its last group is in two's complement. */
  function SignedValue(s: seq<Byte>): int
    requires s != []
  {
    Base128(s) - if s[|s| - 1] % 128 >= 64 then Pow2(7 * |s|) else 0
  }

  /** `s` is one encoding: every byte but the last has its high bit set. */
  predicate IsEncoding(s: seq<Byte>) {
    && s != [] && s[|s| - 1] < 128
    && forall i :: 0 <= i < |s| - 1 ==> s[i] >= 128
  }

  function Value(s: seq<Byte>, signed: bool): int
    requires s != []
  {
    if signed then SignedValue(s) else Base128(s)
  }

  lemma ShlSeven(b: nat, k: nat)
    ensures Shl(b, k + 7) == 0x80 * Shl(b, k) && Pow2(k + 7) == 0x80 * Pow2(k)
  {
    assert Pow2(k + 2) == 4 * Pow2(k) && Pow2(k + 4) == 16 * Pow2(k) && Pow2(k + 6) == 64 * Pow2(k);
    Regroup(0x80, b, Pow2(k));
  }

  lemma ShlSevens(b: nat)
    ensures Shl(b, 0) == b && Shl(b, 7) == 0x80 * b && Shl(b, 14) == 0x4000 * b && Shl(b, 21) == 0x20_0000 * b
    ensures Shl(b, 28) == 0x1000_0000 * b && Shl(b, 35) == 8 * M32 * b
    ensures Pow2(0) == 1 && Pow2(7) == 0x80 && Pow2(14) == 0x4000 && Pow2(21) == 0x20_0000
    ensures Pow2(28) == 0x1000_0000 && Pow2(35) == 8 * M32 && Pow2(6) == 64
  {
  }

  lemma {:induction false} Base128OneMore(s: seq<Byte>, b: Byte)
    ensures Base128(s + [b]) == Base128(s) + Shl(b % 128, 7 * |s|)
    ensures Base128(s) < Pow2(7 * |s|)
  {
    if s == [] {
      assert Base128([b]) == b % 128;
    } else {
      Base128OneMore(s[1..], b);
      assert (s + [b])[1..] == s[1..] + [b];
      ShlSeven(b % 128, 7 * |s[1..]|);
      ShlSeven(1, 7 * |s[1..]|);
    }
  }

  /** The part of a group that has room in 32 bits: the fifth group loses its upper bits. */
  function Kept(group: nat, n: nat): nat {
    if n == 4 then group % 16 else group
  }

  lemma LowGroup(low: nat, group: nat, n: nat)
    requires n < 4 && low < Pow2(7 * n) && group < 128
    ensures low % M32 == low && Shl(group, 7 * n) % M32 == Shl(group, 7 * n)
    ensures low + Shl(group, 7 * n) == (low + Shl(group, 7 * n)) % M32
  {
    assert low + Shl(group, 7 * n) < M32 by {
      ShlSevens(1);
      ShlSevens(group);
    }
  }

  lemma TopGroup(low: nat, group: nat)
    requires low < Pow2(28) && group < 128
    ensures low % M32 == low && Shl(group, 28) % M32 == Shl(group % 16, 28)
    ensures low + Shl(group % 16, 28) == (low + Shl(group, 28)) % M32
  {
    ShlSevens(group);
    ShlSevens(group % 16);
    ModIs(Shl(group, 28), M32, group / 16, Shl(group % 16, 28));
    ModIs(low + Shl(group, 28), M32, group / 16, low + Shl(group % 16, 28));
  }

  /** One turn of the loop, in 32 bits: the next group goes above the ones before. */
  lemma NextGroup(low: nat, group: nat, n: nat)
    requires n <= 4 && low < Pow2(7 * n) && group < 128
    ensures low % M32 == low && Shl(group, 7 * n) % M32 == Shl(Kept(group, n), 7 * n)
    ensures low + Shl(Kept(group, n), 7 * n) == (low + Shl(group, 7 * n)) % M32
  {
    if n == 4 {
      TopGroup(low, group);
    } else {
      LowGroup(low, group, n);
    }
  }

  /** `- (1 << shift)` as a 32-bit pattern, for shifts below 32. */
  function NegatedBit(shift: nat): nat {
    if Pow2(shift) < M32 then M32 - Pow2(shift) else 0
  }

  /** The ones above `n` groups. */
  function Ones(n: nat): nat {
    if n == 1 then 0x1ff_ffff else if n == 2 then 0x3_ffff else if n == 3 then 0x7ff else 0xf
  }

  lemma NegatedBits(n: nat)
    requires 0 < n <= 4
    ensures NegatedBit(7 * n) == Shl(Ones(n), 7 * n) == M32 - Pow2(7 * n)
  {
    if n == 1 {
      ShlSevens(0x1ff_ffff);
    } else if n == 2 {
      ShlSevens(0x3_ffff);
    } else if n == 3 {
      ShlSevens(0x7ff);
    } else {
      ShlSevens(0xf);
    }
  }

  /** The terminating byte lies within the buffer and within five bytes. */
  predicate Readable(s: seq<Byte>) {
    exists n :: 0 <= n < 5 && n < |s| && s[n] < 128
  }

  method PeekLeb128(contents: array<Byte>, p: nat) returns (ret: Int, size: nat)
    requires p <= contents.Length && Readable(contents[p..])
    ensures 1 <= size <= 5 && p + size <= contents.Length && IsEncoding(contents[p..p + size])
    ensures ret == Signed(Base128(contents[p..p + size]), M32)
    ensures ret == Base128(contents[p..p + size]) <==> Fits(Base128(contents[p..p + size]), M32)
  {
    var bits: nat;
    bits, size := Gather(contents, p);
    SignedMod(Base128(contents[p..p + size]), bits);
    SignedFits(Base128(contents[p..p + size]), M32);
    return ToInt(bits), size;
  }

  method PeekSLeb128(contents: array<Byte>, p: nat) returns (ret: Int, size: nat)
    requires p <= contents.Length && Readable(contents[p..])
    ensures 1 <= size <= 5 && p + size <= contents.Length && IsEncoding(contents[p..p + size])
    ensures ret == Signed(SignedValue(contents[p..p + size]), M32)
    ensures ret == SignedValue(contents[p..p + size]) <==> Fits(SignedValue(contents[p..p + size]), M32)
  {
    var bits: nat;
    bits, size := Gather(contents, p);
    ghost var s := contents[p..p + size];
    bits := SignExtend(bits, contents[p + size - 1], 7 * size, s);
    SignedMod(SignedValue(s), bits);
    SignedFits(SignedValue(s), M32);
    return ToInt(bits), size;
  }

  /** `ret | ((b & 0x7f) << shift)` on 32-bit patterns. */
  method OrGroup(bits: nat, b: Byte, shift: nat, ghost s: seq<Byte>) returns (r: nat)
    requires |s| <= 4 && shift == 7 * |s| && bits == Base128(s) % M32
    ensures r == Base128(s + [b]) % M32
  {
    Base128OneMore(s, b);
    NextGroup(Base128(s), b % 128, |s|);
    r := Or(bits, Shl(b % 128, shift) % M32, Kept(b % 128, |s|), shift);
  }

  /** The sign extension at the end of `PeekSLeb128`. */
  method SignExtend(bits: nat, b: Byte, shift: nat, ghost s: seq<Byte>) returns (r: nat)
    requires 0 < |s| <= 5 && shift == 7 * |s| && b == s[|s| - 1] && bits == Base128(s) % M32
    ensures r % M32 == SignedValue(s) % M32
  {
    ghost var v := Base128(s);
    assert v < Pow2(7 * |s|) by { Base128OneMore(s, 0); }
    SignExtended(v, |s|);
    r := bits;
    if shift < 31 && b % 128 >= 64 {
      NegatedBits(|s|);
      r := Or(bits, NegatedBit(shift), Ones(|s|), shift);
      assert r == v + M32 - Pow2(shift);
    }
  }

  /** The loop the two share, on 32-bit patterns. */
  method Gather(contents: array<Byte>, p: nat) returns (bits: nat, size: nat)
    requires p <= contents.Length && Readable(contents[p..])
    ensures 1 <= size <= 5 && p + size <= contents.Length && IsEncoding(contents[p..p + size])
    ensures bits == Base128(contents[p..p + size]) % M32
  {
    ghost var s := contents[p..];
    ghost var n :| 0 <= n < 5 && n < |s| && s[n] < 128;
    var shift := 0;
    var more := true;
    bits, size := 0, 0;
    while more
      invariant shift == 7 * size && size <= n + 1 && (more ==> size <= n)
      invariant bits == Base128(contents[p..p + size]) % M32
      invariant forall i :: 0 <= i < size - 1 ==> s[i] >= 128
      invariant size > 0 ==> (more <==> s[size - 1] >= 128)
      invariant size == 0 ==> more
      decreases n + 1 - size, more
    {
      var b := contents[p + size];
      assert contents[p..p + size] + [b] == contents[p..p + size + 1] && b == s[size];
      bits := OrGroup(bits, b, shift, contents[p..p + size]);
      size := size + 1;
      shift := shift + 7;
      more := b >= 128;
    }
    assert contents[p..p + size] == s[..size];
  }

  lemma SignedMod(x: int, y: int)
    requires x % M32 == y % M32
    ensures Signed(x, M32) == ToInt(y)
  {
  }

  /** Subtracting the sign is adding ones above the groups, in 32 bits. */
  lemma SignExtended(v: nat, n: nat)
    requires 0 < n <= 5 && v < Pow2(7 * n)
    ensures n <= 4 ==> v % M32 == v && (v - Pow2(7 * n)) % M32 == v + M32 - Pow2(7 * n) < M32
    ensures n == 5 ==> (v - Pow2(7 * n)) % M32 == v % M32
    ensures v % M32 % M32 == v % M32
  {
    ShlSevens(1);
    if n <= 4 {
      ModIs(v - Pow2(7 * n), M32, -1, v + M32 - Pow2(7 * n));
    } else {
      ModIs(v - 8 * M32, M32, v / M32 - 8, v % M32);
    }
  }

  /** `ReadLeb128` and `ReadSLeb128`: the value of the encoding at the position, which they pass. */
  method Read(r: Reader, signed: bool) returns (ret: Int)
    requires r.pos <= r.contents.Length && Readable(r.contents[r.pos..])
    modifies r`pos
    ensures old(r.pos) < r.pos <= r.contents.Length && r.pos <= old(r.pos) + 5
    ensures (r.contents[r.pos..], ret) == Next(old(r.contents[r.pos..]), signed)
  {
    var size;
    if signed {
      ret, size := PeekSLeb128(r.contents, r.pos);
    } else {
      ret, size := PeekLeb128(r.contents, r.pos);
    }
    ghost var e, tail := r.contents[r.pos..r.pos + size], r.contents[r.pos + size..];
    assert r.contents[r.pos..] == e + tail;
    NextReadsEncoding(e, tail, signed);
    r.pos := r.pos + size;
  }

  // ---------------------------------------------------------- main results

  /** The length of the encoding at the start of `s`, or of `s` if it does not end. */
  function SizeOf(s: seq<Byte>): (n: nat)
    ensures n <= |s| && (s != [] ==> n > 0)
  {
    if s == [] then 0
    else if s[0] < 128 then 1
    else 1 + SizeOf(s[1..])
  }

  lemma {:induction false} FirstIsSize(s: seq<Byte>, n: nat)
    requires n <= |s| && IsEncoding(s[..n])
    ensures SizeOf(s) == n
  {
    assert s[0] == s[..n][0];
    if n > 1 {
      assert s[1..][..n - 1] == s[..n][1..];
      FirstIsSize(s[1..], n - 1);
    }
  }

  /** One read: what is left, and the value. */
  function Next(s: seq<Byte>, signed: bool): (seq<Byte>, int)
    requires s != []
  {
    (s[SizeOf(s)..], Signed(Value(s[..SizeOf(s)], signed), M32))
  }

  /** The values of `n` successive reads. */
  function Reads(s: seq<Byte>, n: nat, signed: bool): seq<int>
    decreases n
  {
    if n == 0 || s == [] then [] else [Next(s, signed).1] + Reads(Next(s, signed).0, n - 1, signed)
  }

  function Concat(encodings: seq<seq<Byte>>): seq<Byte> {
    if encodings == [] then [] else encodings[0] + Concat(encodings[1..])
  }

  /** An encoding is read as itself, whatever follows. */
  lemma NextReadsEncoding(e: seq<Byte>, rest: seq<Byte>, signed: bool)
    requires IsEncoding(e)
    ensures Next(e + rest, signed) == (rest, Signed(Value(e, signed), M32))
    ensures |e| <= 5 ==> Readable(e + rest)
  {
    var s := e + rest;
    assert s[..|e|] == e && s[|e|..] == rest && s[|e| - 1] == e[|e| - 1];
    FirstIsSize(s, |e|);
  }

  /** The values of the encodings, as they come out of 32 bits. */
  function ValuesOf(encodings: seq<seq<Byte>>, signed: bool): seq<int>
    requires forall i :: 0 <= i < |encodings| ==> IsEncoding(encodings[i])
  {
    seq(|encodings|, i requires 0 <= i < |encodings| && IsEncoding(encodings[i]) =>
      Signed(Value(encodings[i], signed), M32))
  }

  lemma ReadsOneMore(e: seq<Byte>, tail: seq<Byte>, n: nat, signed: bool)
    requires IsEncoding(e)
    ensures Reads(e + tail, n + 1, signed) == [Signed(Value(e, signed), M32)] + Reads(tail, n, signed)
  {
    NextReadsEncoding(e, tail, signed);
  }

  /** Successive reads decode a concatenation of encodings in order, whatever follows it. */
  lemma {:induction false} ReadsDecodeConcatenation(encodings: seq<seq<Byte>>, rest: seq<Byte>, signed: bool)
    requires forall i :: 0 <= i < |encodings| ==> IsEncoding(encodings[i]) && |encodings[i]| <= 5
    ensures Reads(Concat(encodings) + rest, |encodings|, signed) == ValuesOf(encodings, signed)
  {
    if encodings == [] {
      assert ValuesOf(encodings, signed) == [];
    } else {
      var e, others := encodings[0], encodings[1..];
      assert IsEncoding(e) && Concat(encodings) == e + Concat(others);
      assert (e + Concat(others)) + rest == e + (Concat(others) + rest);
      ReadsDecodeConcatenation(others, rest, signed);
      ReadsOneMore(e, Concat(others) + rest, |others|, signed);
    }
  }

  /** The encoding of an unsigned number in section 7.6 of DWARF Version 4. */
  function EncodeUnsigned(v: nat): seq<Byte> {
    if v < 128 then [v] else [128 + v % 128] + EncodeUnsigned(v / 128)
  }

  /** The encoding of a signed number in the same section. */
  function EncodeSigned(v: int): seq<Byte>
    decreases if v < 0 then -v else v
  {
    if -64 <= v < 64 then [v % 128] else [128 + v % 128] + EncodeSigned(v / 128)
  }

  lemma {:induction false} UnsignedRoundTrip(v: nat)
    ensures IsEncoding(EncodeUnsigned(v)) && Base128(EncodeUnsigned(v)) == v
  {
    if v >= 128 {
      UnsignedRoundTrip(v / 128);
      assert EncodeUnsigned(v)[1..] == EncodeUnsigned(v / 128);
    }
  }

  lemma {:induction false} SignedRoundTrip(v: int)
    ensures IsEncoding(EncodeSigned(v)) && SignedValue(EncodeSigned(v)) == v
    decreases if v < 0 then -v else v
  {
    if -64 <= v < 64 {
      SignedLast(v);
    } else {
      SignedRoundTrip(v / 128);
      SignedStep(v, EncodeSigned(v / 128));
      assert EncodeSigned(v) == [128 + v % 128] + EncodeSigned(v / 128);
    }
  }

  lemma SignedStep(v: int, t: seq<Byte>)
    requires IsEncoding(t) && SignedValue(t) == v / 128
    ensures IsEncoding([128 + v % 128] + t) && SignedValue([128 + v % 128] + t) == v
  {
    SignedOneMore(128 + v % 128, t);
  }

  lemma SignedLast(v: int)
    requires -64 <= v < 64
    ensures IsEncoding([v % 128]) && SignedValue([v % 128]) == v
  {
    ShlSevens(1);
    assert Base128([v % 128][1..]) == 0;
    ModIs(v, 128, if v < 0 then -1 else 0, if v < 0 then v + 128 else v);
  }

  lemma SignedOneMore(b: Byte, t: seq<Byte>)
    requires t != []
    ensures SignedValue([b] + t) == b % 128 + 128 * SignedValue(t)
    ensures b >= 128 && IsEncoding(t) ==> IsEncoding([b] + t)
  {
    var s := [b] + t;
    assert s[1..] == t && s[|s| - 1] == t[|t| - 1];
    ShlSevens(1);
    ShlSeven(1, 7 * |t|);
    assert 7 * |s| == 7 + 7 * |t|;
  }

  lemma {:induction false} ShortEncoding(v: int, n: nat)
    requires n > 0 && 0 - Pow2(7 * n - 1) <= v < Pow2(7 * n - 1)
    ensures |EncodeSigned(v)| <= n
    decreases n
  {
    if !(-64 <= v < 64) {
      assert n > 1 by { ShlSevens(1); }
      ShlSeven(1, 7 * (n - 1) - 1);
      Shorter(v, Pow2(7 * (n - 1) - 1));
      ShortEncoding(v / 128, n - 1);
    }
  }

  lemma Shorter(v: int, h: nat)
    requires 0 - 0x80 * h <= v < 0x80 * h
    ensures 0 - h <= v / 128 < h
  {
  }

  lemma IntsAreShort(v: Int)
    ensures |EncodeSigned(v)| <= 5
  {
    assert 0 - Pow2(34) <= v < Pow2(34) by {
      ShlSevens(1);
      assert Pow2(35) == 2 * Pow2(34);
    }
    ShortEncoding(v, 5);
  }

  /** Every 32-bit integer survives being encoded and read, in five bytes at most, whatever follows. */
  lemma EveryIntIsRead(v: Int, rest: seq<Byte>)
    ensures |EncodeSigned(v)| <= 5 && Readable(EncodeSigned(v) + rest)
    ensures Next(EncodeSigned(v) + rest, true) == (rest, v)
  {
    IntsAreShort(v);
    SignedRoundTrip(v);
    NextReadsEncoding(EncodeSigned(v), rest, true);
    SignedFits(v, M32);
  }
}
