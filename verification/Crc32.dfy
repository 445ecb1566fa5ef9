/** CRC-32: the table-driven loop of crc32.c against the bit-at-a-time definition.  */
module Crc32 {
  import opened CrcTable

  const POLY: bv32 := 0xedb88320

  /** One bit of the division, least significant bit first. */
  function Shift(c: bv32): bv32 {
    if c & 1 == 1 then POLY ^ (c >> 1) else c >> 1
  }

  function Shift2(c: bv32): bv32 { Shift(Shift(c)) }

  function Shift4(c: bv32): bv32 { Shift2(Shift2(c)) }

  /** The eight bits of a byte. */
  function Shift8(c: bv32): bv32 { Shift4(Shift4(c)) }

  /** Addition of registers, as polynomials over the field of two elements. */
  function Plus(a: bv32, b: bv32): bv32 { a ^ b }

  lemma PlusAssoc(a: bv32, b: bv32, c: bv32)
    ensures Plus(Plus(a, b), c) == Plus(a, Plus(b, c))
  {
  }

  lemma PlusCommutes(a: bv32, b: bv32)
    ensures Plus(a, b) == Plus(b, a)
  {
  }

  lemma PlusSelf(a: bv32)
    ensures Plus(a, 0) == a && Plus(a, a) == 0
  {
  }

  lemma PlusLaws(a: bv32, b: bv32, c: bv32)
    ensures Plus(a, b) == Plus(b, a) && Plus(Plus(a, b), c) == Plus(a, Plus(b, c))
    ensures Plus(a, 0) == a && Plus(a, a) == 0 && Plus(Plus(a, b), b) == a
  {
    hide Plus;
    PlusCommutes(a, b);
    PlusAssoc(a, b, c);
    PlusAssoc(a, b, b);
    PlusSelf(a);
    PlusSelf(b);
  }

  lemma PlusInjective(a: bv32, b: bv32, c: bv32)
    requires Plus(a, c) == Plus(b, c)
    ensures a == b
  {
    PlusLaws(a, c, c);
    PlusLaws(b, c, c);
    hide Plus;
  }

  lemma HalfXor(a: bv32, b: bv32)
    ensures (a ^ b) >> 1 == (a >> 1) ^ (b >> 1)
  {
  }

  lemma LowXor(a: bv32, b: bv32)
    ensures (a ^ b) & 1 == (a & 1) ^ (b & 1)
    ensures a & 1 == 0 || a & 1 == 1
  {
  }

  lemma PolyXor(x: bv32, y: bv32)
    ensures (POLY ^ x) ^ y == POLY ^ (x ^ y) && x ^ (POLY ^ y) == POLY ^ (x ^ y)
    ensures (POLY ^ x) ^ (POLY ^ y) == x ^ y
  {
  }

  lemma ShiftXor(a: bv32, b: bv32)
    ensures Shift(a ^ b) == Shift(a) ^ Shift(b)
  {
    HalfXor(a, b);
    LowXor(a, b);
    LowXor(b, a);
    PolyXor(a >> 1, b >> 1);
  }

  /** A bit step is linear. */
  lemma ShiftLinear(a: bv32, b: bv32)
    ensures Shift(Plus(a, b)) == Plus(Shift(a), Shift(b))
  {
    hide Shift;
    ShiftXor(a, b);
  }

  lemma ShiftInjective(a: bv32, b: bv32)
    requires Shift(a) == Shift(b)
    ensures a == b
  {
  }

  lemma Shift8Linear(a: bv32, b: bv32)
    ensures Shift8(Plus(a, b)) == Plus(Shift8(a), Shift8(b))
  {
    hide Shift4, Plus;
    Shift4Linear(a, b);
    Shift4Linear(Shift4(a), Shift4(b));
  }

  lemma Shift4Linear(a: bv32, b: bv32)
    ensures Shift4(Plus(a, b)) == Plus(Shift4(a), Shift4(b))
  {
    hide Shift2, Plus;
    Shift2Linear(a, b);
    Shift2Linear(Shift2(a), Shift2(b));
  }

  lemma Shift2Linear(a: bv32, b: bv32)
    ensures Shift2(Plus(a, b)) == Plus(Shift2(a), Shift2(b))
  {
    hide Shift, Plus;
    ShiftLinear(a, b);
    ShiftLinear(Shift(a), Shift(b));
  }

  lemma Shift8Injective(a: bv32, b: bv32)
    requires Shift8(a) == Shift8(b)
    ensures a == b
  {
    hide Shift4;
    Shift4Injective(Shift4(a), Shift4(b));
    Shift4Injective(a, b);
  }

  lemma Shift4Injective(a: bv32, b: bv32)
    requires Shift4(a) == Shift4(b)
    ensures a == b
  {
    hide Shift2;
    Shift2Injective(Shift2(a), Shift2(b));
    Shift2Injective(a, b);
  }

  lemma Shift2Injective(a: bv32, b: bv32)
    requires Shift2(a) == Shift2(b)
    ensures a == b
  {
    hide Shift;
    ShiftInjective(Shift(a), Shift(b));
    ShiftInjective(a, b);
  }

  /** Without low bits there is nothing to divide. */
  lemma Shift8High(c: bv32)
    requires c & 0xff == 0
    ensures Shift8(c) == c >> 8
  {
    assert c & 1 == 0 && (c >> 1) & 1 == 0 && (c >> 2) & 1 == 0 && (c >> 3) & 1 == 0;
    assert (c >> 4) & 1 == 0 && (c >> 5) & 1 == 0 && (c >> 6) & 1 == 0 && (c >> 7) & 1 == 0;
    assert Shift(c) == c >> 1;
    assert Shift(c >> 1) == c >> 2;
    assert Shift(c >> 2) == c >> 3;
    assert Shift(c >> 3) == c >> 4;
    assert Shift(c >> 4) == c >> 5;
    assert Shift(c >> 5) == c >> 6;
    assert Shift(c >> 6) == c >> 7;
    assert Shift(c >> 7) == c >> 8;
  }

  // ---- the table ----

  lemma Row0Correct(j: bv32)
    requires j < 16
    ensures Row0(j) == Shift8(j)
  {
  }

  lemma Row1Correct(j: bv32)
    requires j < 16
    ensures Row1(j) == Shift8(0x10 ^ j)
  {
  }

  lemma Row2Correct(j: bv32)
    requires j < 16
    ensures Row2(j) == Shift8(0x20 ^ j)
  {
  }

  lemma Row3Correct(j: bv32)
    requires j < 16
    ensures Row3(j) == Shift8(0x30 ^ j)
  {
  }

  lemma Row4Correct(j: bv32)
    requires j < 16
    ensures Row4(j) == Shift8(0x40 ^ j)
  {
  }

  lemma Row5Correct(j: bv32)
    requires j < 16
    ensures Row5(j) == Shift8(0x50 ^ j)
  {
  }

  lemma Row6Correct(j: bv32)
    requires j < 16
    ensures Row6(j) == Shift8(0x60 ^ j)
  {
  }

  lemma Row7Correct(j: bv32)
    requires j < 16
    ensures Row7(j) == Shift8(0x70 ^ j)
  {
  }

  lemma Row8Correct(j: bv32)
    requires j < 16
    ensures Row8(j) == Shift8(0x80 ^ j)
  {
  }

  lemma Row9Correct(j: bv32)
    requires j < 16
    ensures Row9(j) == Shift8(0x90 ^ j)
  {
  }

  lemma Row10Correct(j: bv32)
    requires j < 16
    ensures Row10(j) == Shift8(0xa0 ^ j)
  {
  }

  lemma Row11Correct(j: bv32)
    requires j < 16
    ensures Row11(j) == Shift8(0xb0 ^ j)
  {
  }

  lemma Row12Correct(j: bv32)
    requires j < 16
    ensures Row12(j) == Shift8(0xc0 ^ j)
  {
  }

  lemma Row13Correct(j: bv32)
    requires j < 16
    ensures Row13(j) == Shift8(0xd0 ^ j)
  {
  }

  lemma Row14Correct(j: bv32)
    requires j < 16
    ensures Row14(j) == Shift8(0xe0 ^ j)
  {
  }

  lemma Row15Correct(j: bv32)
    requires j < 16
    ensures Row15(j) == Shift8(0xf0 ^ j)
  {
  }

  /** Every entry of the table is eight bit steps of its index. */
  lemma TableCorrect(i: bv32)
    requires i < 256
    ensures Entry(i) == Shift8(i)
  {
    hide Shift8, Shift;
    hide Row0, Row1, Row2, Row3, Row4, Row5, Row6, Row7, Row8, Row9, Row10, Row11, Row12, Row13, Row14, Row15;
    var j := i & 0xf;
    assert j < 16 && i >> 4 < 16;
    if i >> 4 == 0 { assert i == j; Row0Correct(j); }
    else if i >> 4 == 1 { assert i == 0x10 ^ j; Row1Correct(j); }
    else if i >> 4 == 2 { assert i == 0x20 ^ j; Row2Correct(j); }
    else if i >> 4 == 3 { assert i == 0x30 ^ j; Row3Correct(j); }
    else if i >> 4 == 4 { assert i == 0x40 ^ j; Row4Correct(j); }
    else if i >> 4 == 5 { assert i == 0x50 ^ j; Row5Correct(j); }
    else if i >> 4 == 6 { assert i == 0x60 ^ j; Row6Correct(j); }
    else if i >> 4 == 7 { assert i == 0x70 ^ j; Row7Correct(j); }
    else if i >> 4 == 8 { assert i == 0x80 ^ j; Row8Correct(j); }
    else if i >> 4 == 9 { assert i == 0x90 ^ j; Row9Correct(j); }
    else if i >> 4 == 10 { assert i == 0xa0 ^ j; Row10Correct(j); }
    else if i >> 4 == 11 { assert i == 0xb0 ^ j; Row11Correct(j); }
    else if i >> 4 == 12 { assert i == 0xc0 ^ j; Row12Correct(j); }
    else if i >> 4 == 13 { assert i == 0xd0 ^ j; Row13Correct(j); }
    else if i >> 4 == 14 { assert i == 0xe0 ^ j; Row14Correct(j); }
    else { assert i == 0xf0 ^ j; Row15Correct(j); }
  }

  function Word(b: bv8): bv32 { b as bv32 }

  /** The macro DO1: one table look-up for a byte. */
  function Do1(c: bv32, b: bv8): bv32 {
    Entry((c ^ Word(b)) & 0xff) ^ (c >> 8)
  }

  /** The same byte, one bit at a time. */
  function ByteStep(c: bv32, b: bv8): bv32 { Shift8(Plus(c, Word(b))) }

  lemma SplitByte(c: bv32, b: bv8)
    ensures var x := c ^ Word(b);
      && x == Plus(x & 0xffffff00, x & 0xff) && (x & 0xffffff00) & 0xff == 0
      && (x & 0xffffff00) >> 8 == c >> 8 && x & 0xff < 256
  {
  }

  lemma Do1Correct(c: bv32, b: bv8)
    ensures Do1(c, b) == ByteStep(c, b)
  {
    hide Shift8, Entry, Word;
    var x := c ^ Word(b);
    SplitByte(c, b);
    Do1Sum(c, b);
    TableCorrect(x & 0xff);
    hide Plus;
    Shift8High(x & 0xffffff00);
    Shift8Linear(x & 0xffffff00, x & 0xff);
    PlusLaws(Shift8(x & 0xff), c >> 8, 0);
  }

  lemma Do1Sum(c: bv32, b: bv8)
    ensures var x := c ^ Word(b); Do1(c, b) == Plus(Entry(x & 0xff), c >> 8) && Plus(c, Word(b)) == x
  {
    hide Entry, Word;
  }

  // ---- messages ----

  /** The register after a message, bit at a time: section 8 of RFC 1952. */
  function Fold(c: bv32, s: seq<bv8>): bv32
    decreases |s|
  {
    if s == [] then c else Fold(ByteStep(c, s[0]), s[1..])
  }

  const ONES: bv32 := 0xffffffff

  /** The register is inverted before and after. */
  function Crc(c: bv32, s: seq<bv8>): bv32 { Plus(Fold(Plus(c, ONES), s), ONES) }

  lemma {:induction false} FoldAppend(c: bv32, s: seq<bv8>, t: seq<bv8>)
    ensures Fold(c, s + t) == Fold(Fold(c, s), t)
    decreases |s|
  {
    hide ByteStep;
    if s == [] {
      assert s + t == t;
    } else {
      assert (s + t)[0] == s[0] && (s + t)[1..] == s[1..] + t;
      FoldAppend(ByteStep(c, s[0]), s[1..], t);
    }
  }

  /** A checksum can be computed piece by piece. */
  lemma CrcAppend(c: bv32, s: seq<bv8>, t: seq<bv8>)
    ensures Crc(Crc(c, s), t) == Crc(c, s + t)
  {
    hide Fold, Plus;
    FoldAppend(Plus(c, ONES), s, t);
    PlusLaws(Fold(Plus(c, ONES), s), ONES, 0);
  }

  lemma FoldOne(c: bv32, b: bv8)
    ensures Fold(c, [b]) == ByteStep(c, b)
  {
    hide ByteStep;
    assert [b][1..] == [];
  }

  // ---- update_crc ----

  method Do2(c: bv32, buf: array<bv8>, p: nat) returns (r: bv32)
    requires p + 2 <= buf.Length
    ensures r == Fold(c, buf[p..p+2])
  {
    hide Fold, Do1, ByteStep;
    r := Do1(c, buf[p]);
    Do1Correct(c, buf[p]);
    FoldOne(c, buf[p]);
    FoldOne(r, buf[p+1]);
    FoldAppend(c, [buf[p]], [buf[p+1]]);
    assert buf[p..p+2] == [buf[p]] + [buf[p+1]];
    Do1Correct(r, buf[p+1]);
    r := Do1(r, buf[p+1]);
  }

  method Do4(c: bv32, buf: array<bv8>, p: nat) returns (r: bv32)
    requires p + 4 <= buf.Length
    ensures r == Fold(c, buf[p..p+4])
  {
    hide Fold;
    FoldAppend(c, buf[p..p+2], buf[p+2..p+4]);
    assert buf[p..p+4] == buf[p..p+2] + buf[p+2..p+4];
    r := Do2(c, buf, p);
    r := Do2(r, buf, p + 2);
  }

  method Do8(c: bv32, buf: array<bv8>, p: nat) returns (r: bv32)
    requires p + 8 <= buf.Length
    ensures r == Fold(c, buf[p..p+8])
  {
    hide Fold;
    FoldAppend(c, buf[p..p+4], buf[p+4..p+8]);
    assert buf[p..p+8] == buf[p..p+4] + buf[p+4..p+8];
    r := Do4(c, buf, p);
    r := Do4(r, buf, p + 4);
  }

  /** Eight bytes a turn, then the rest one by one; no buffer gives zero. */
  method UpdateCrc(crc: bv32, buf: array?<bv8>, len: nat) returns (r: bv32)
    requires buf != null ==> len <= buf.Length
    ensures r == if buf == null then 0 else Crc(crc, buf[..len])
  {
    hide Fold, Do1, ByteStep, Plus;
    if buf == null {
      return 0;
    }
    r := Plus(crc, ONES);
    var p, n := 0, len;
    assert buf[..0] == [];
    FoldNone(r);
    while n >= 8
      invariant p + n == len && r == Fold(Plus(crc, ONES), buf[..p])
    {
      FoldAppend(Plus(crc, ONES), buf[..p], buf[p..p+8]);
      assert buf[..p+8] == buf[..p] + buf[p..p+8];
      r := Do8(r, buf, p);
      p, n := p + 8, n - 8;
    }
    while n > 0
      invariant p + n == len && r == Fold(Plus(crc, ONES), buf[..p])
    {
      FoldAppend(Plus(crc, ONES), buf[..p], [buf[p]]);
      FoldOne(r, buf[p]);
      Do1Correct(r, buf[p]);
      assert buf[..p+1] == buf[..p] + [buf[p]];
      r := Do1(r, buf[p]);
      p, n := p + 1, n - 1;
    }
    r := Plus(r, ONES);
  }

  lemma FoldNone(c: bv32)
    ensures Fold(c, []) == c
  {
  }

  const BUFSIZE := 512

  /** The read loop of GenerateCrc: whatever the sizes of the reads, the checksum of the whole file. */
  method GenerateCrc(file: seq<bv8>) returns (crc: bv32)
    ensures crc == Crc(0, file)
  {
    hide Crc;
    crc := 0;
    var at := 0;
    CrcNone();
    assert file[..0] == [];
    while at < |file|
      invariant at <= |file| && crc == Crc(0, file[..at])
    {
      var k: nat :| 1 <= k <= BUFSIZE && k <= |file| - at;
      var buf := new bv8[BUFSIZE](i => if at + i < |file| && 0 <= at + i then file[at + i] else 0);
      CrcAppend(0, file[..at], file[at..at+k]);
      assert buf[..k] == file[at..at+k];
      assert file[..at+k] == file[..at] + file[at..at+k];
      crc := UpdateCrc(crc, buf, k);
      at := at + k;
    }
    assert file[..at] == file;
  }

  lemma CrcNone()
    ensures Crc(0, []) == 0
  {
  }

  // ---- what a checksum detects ----

  function Xor(s: seq<bv8>, t: seq<bv8>): (r: seq<bv8>)
    requires |s| == |t|
    ensures |r| == |s| && forall i :: 0 <= i < |s| ==> r[i] == s[i] ^ t[i]
  {
    seq(|s|, i requires 0 <= i < |s| => s[i] ^ t[i])
  }

  lemma WordXor(x: bv8, y: bv8)
    ensures Word(x ^ y) == Plus(Word(x), Word(y))
  {
  }

  lemma FourPlus(a: bv32, b: bv32, x: bv32, y: bv32)
    ensures Plus(Plus(a, b), Plus(x, y)) == Plus(Plus(a, x), Plus(b, y))
  {
    hide Plus;
    PlusLaws(a, b, Plus(x, y));
    PlusLaws(b, x, y);
    PlusLaws(x, b, y);
    PlusLaws(a, x, Plus(b, y));
  }

  lemma ByteStepLinear(a: bv32, b: bv32, x: bv8, y: bv8)
    ensures ByteStep(Plus(a, b), x ^ y) == Plus(ByteStep(a, x), ByteStep(b, y))
  {
    hide Shift8, Plus, Word;
    WordXor(x, y);
    FourPlus(a, b, Word(x), Word(y));
    Shift8Linear(Plus(a, Word(x)), Plus(b, Word(y)));
  }

  lemma {:induction false} FoldLinear(a: bv32, b: bv32, s: seq<bv8>, t: seq<bv8>)
    requires |s| == |t|
    ensures Fold(Plus(a, b), Xor(s, t)) == Plus(Fold(a, s), Fold(b, t))
    decreases |s|
  {
    hide ByteStep, Plus;
    if s != [] {
      ByteStepLinear(a, b, s[0], t[0]);
      assert Xor(s, t)[1..] == Xor(s[1..], t[1..]);
      FoldLinear(ByteStep(a, s[0]), ByteStep(b, t[0]), s[1..], t[1..]);
    }
  }

  /** For messages of one length the checksum is affine over exclusive or. */
  lemma CrcAffine(c: bv32, x: seq<bv8>, y: seq<bv8>, z: seq<bv8>)
    requires |x| == |y| == |z|
    ensures Crc(c, Xor(Xor(x, y), z)) == Plus(Plus(Crc(c, x), Crc(c, y)), Crc(c, z))
  {
    hide Fold, Plus;
    var r := Plus(c, ONES);
    FoldLinear(r, r, x, y);
    FoldLinear(Plus(r, r), r, Xor(x, y), z);
    PlusLaws(r, r, r);
    ThreeInverted(Fold(r, x), Fold(r, y), Fold(r, z));
  }

  lemma ThreeInverted(a: bv32, b: bv32, c: bv32)
    ensures Plus(Plus(Plus(a, b), c), ONES) == Plus(Plus(Plus(a, ONES), Plus(b, ONES)), Plus(c, ONES))
  {
  }

  lemma ByteStepInjective(a: bv32, b: bv32, x: bv8)
    requires ByteStep(a, x) == ByteStep(b, x)
    ensures a == b
  {
    hide Shift8, Plus, Word;
    Shift8Injective(Plus(a, Word(x)), Plus(b, Word(x)));
    PlusInjective(a, b, Word(x));
  }

  /** Reading on never merges two registers. */
  lemma {:induction false} FoldInjective(a: bv32, b: bv32, s: seq<bv8>)
    requires Fold(a, s) == Fold(b, s)
    ensures a == b
    decreases |s|
  {
    hide ByteStep;
    if s != [] {
      FoldInjective(ByteStep(a, s[0]), ByteStep(b, s[0]), s[1..]);
      ByteStepInjective(a, b, s[0]);
    }
  }

  /** A byte in front of up to three more. */
  function Front(b: bv8, rest: bv32): bv32 { Plus(Word(b), rest << 8) }

  /** Up to four bytes as one little-endian word. */
  function Pack(s: seq<bv8>): bv32
    requires |s| <= 4
    decreases |s|
  {
    if s == [] then 0 else Front(s[0], Pack(s[1..]))
  }

  function Bound(n: nat): bv32
    requires n <= 3
  {
    if n == 0 then 1 else if n == 1 then 0x100 else if n == 2 then 0x10000 else 0x1000000
  }

  lemma FrontBound(b: bv8, rest: bv32, n: nat)
    requires n <= 2 && rest < Bound(n)
    ensures Front(b, rest) < Bound(n + 1)
  {
  }

  lemma {:induction false} PackSmall(s: seq<bv8>)
    requires |s| <= 3
    ensures Pack(s) < Bound(|s|) && Pack(s) < 0x1000000
    decreases |s|
  {
    hide Front;
    if s != [] {
      PackSmall(s[1..]);
      FrontBound(s[0], Pack(s[1..]), |s| - 1);
    }
  }

  lemma FrontInjective(a: bv8, b: bv8, x: bv32, y: bv32)
    requires x < 0x1000000 && y < 0x1000000 && Front(a, x) == Front(b, y)
    ensures a == b && x == y
  {
    FrontParts(a, x);
    FrontParts(b, y);
    WordInjective(a, b);
    hide Front, Word;
  }

  lemma WordInjective(a: bv8, b: bv8)
    requires Word(a) == Word(b)
    ensures a == b
  {
  }

  lemma FrontParts(a: bv8, x: bv32)
    requires x < 0x1000000
    ensures Front(a, x) & 0xff == Word(a) && Front(a, x) >> 8 == x
  {
  }

  lemma {:induction false} PackInjective(s: seq<bv8>, t: seq<bv8>)
    requires |s| == |t| <= 4 && Pack(s) == Pack(t)
    ensures s == t
    decreases |s|
  {
    hide Front;
    if s != [] {
      PackSmall(s[1..]);
      PackSmall(t[1..]);
      FrontInjective(s[0], t[0], Pack(s[1..]), Pack(t[1..]));
      PackInjective(s[1..], t[1..]);
      assert s == [s[0]] + s[1..] && t == [t[0]] + t[1..];
    }
  }

  function ShiftBytes(c: bv32, n: nat): bv32
    decreases n
  {
    if n == 0 then c else ShiftBytes(Shift8(c), n - 1)
  }

  lemma {:induction false} ShiftBytesInjective(a: bv32, b: bv32, n: nat)
    requires ShiftBytes(a, n) == ShiftBytes(b, n)
    ensures a == b
    decreases n
  {
    hide Shift8;
    if n > 0 {
      ShiftBytesInjective(Shift8(a), Shift8(b), n - 1);
      Shift8Injective(a, b);
    }
  }

  /** Shifting out a byte of a word in the register leaves the rest of the word there. */
  lemma FrontShifted(c: bv32, b: bv8, rest: bv32)
    requires rest < 0x1000000
    ensures Shift8(Plus(c, Front(b, rest))) == Plus(ByteStep(c, b), rest)
  {
    hide Shift8, Plus, Word;
    PlusLaws(c, Word(b), rest << 8);
    ShiftedHigh(rest);
    Shift8High(rest << 8);
    Shift8Linear(Plus(c, Word(b)), rest << 8);
  }

  lemma ShiftedHigh(rest: bv32)
    requires rest < 0x1000000
    ensures (rest << 8) & 0xff == 0 && (rest << 8) >> 8 == rest
  {
  }

  /** A short message can be put into the register all at once. */
  lemma {:induction false} FoldPacked(c: bv32, s: seq<bv8>)
    requires |s| <= 4
    ensures Fold(c, s) == ShiftBytes(Plus(c, Pack(s)), |s|)
    decreases |s|
  {
    hide Shift8, Plus, Front, ByteStep;
    if s == [] {
      PlusLaws(c, 0, 0);
    } else {
      PackSmall(s[1..]);
      FoldPacked(ByteStep(c, s[0]), s[1..]);
      FrontShifted(c, s[0], Pack(s[1..]));
    }
  }

  /** Two messages that differ only inside four consecutive bytes never have the same checksum. */
  lemma BurstDetected(c: bv32, before: seq<bv8>, v: seq<bv8>, w: seq<bv8>, after: seq<bv8>)
    requires |v| == |w| <= 4 && v != w
    ensures Crc(c, before + v + after) != Crc(c, before + w + after)
  {
    hide Fold, Plus, Pack, ShiftBytes;
    var r := Plus(c, ONES);
    FoldAppend(r, before + v, after);
    FoldAppend(r, before, v);
    FoldAppend(r, before + w, after);
    FoldAppend(r, before, w);
    var q := Fold(r, before);
    if Crc(c, before + v + after) == Crc(c, before + w + after) {
      PlusInjective(Fold(r, before + v + after), Fold(r, before + w + after), ONES);
      FoldInjective(Fold(q, v), Fold(q, w), after);
      FoldPacked(q, v);
      FoldPacked(q, w);
      ShiftBytesInjective(Plus(q, Pack(v)), Plus(q, Pack(w)), |v|);
      PlusLaws(q, Pack(v), 0);
      PlusLaws(q, Pack(w), 0);
      PlusInjective(Pack(v), Pack(w), q);
      PackInjective(v, w);
    }
  }

  /** A change goes unseen exactly when it alone leaves an empty register empty, whatever the message, the place and
      the starting value are. */
  lemma UnseenExactly(c: bv32, before: seq<bv8>, v: seq<bv8>, w: seq<bv8>, after: seq<bv8>)
    requires |v| == |w|
    ensures Crc(c, before + v + after) == Crc(c, before + w + after) <==> Fold(0, Xor(v, w)) == 0
  {
    hide Fold, Plus;
    var r := Plus(c, ONES);
    FoldAppend(r, before + v, after);
    FoldAppend(r, before, v);
    FoldAppend(r, before + w, after);
    FoldAppend(r, before, w);
    var q := Fold(r, before);
    FoldLinear(q, q, v, w);
    PlusLaws(q, q, q);
    SumZero(Fold(q, v), Fold(q, w));
    if Crc(c, before + v + after) == Crc(c, before + w + after) {
      PlusInjective(Fold(r, before + v + after), Fold(r, before + w + after), ONES);
      FoldInjective(Fold(q, v), Fold(q, w), after);
    }
  }

  lemma SumZero(a: bv32, b: bv32)
    ensures Plus(a, b) == 0 <==> a == b
  {
    PlusLaws(a, b, b);
    PlusLaws(b, b, b);
    PlusLaws(0, b, b);
    hide Plus;
  }

  /** Of the changes of five bytes those go unseen whose last four bytes are the first one shifted through the
      register. */
  lemma FiveBytesUnseen(c: bv32, before: seq<bv8>, v: seq<bv8>, w: seq<bv8>, after: seq<bv8>)
    requires |v| == |w| == 5
    ensures Crc(c, before + v + after) == Crc(c, before + w + after)
            <==> Pack(Xor(v, w)[1..]) == Shift8(Word(Xor(v, w)[0]))
  {
    hide Plus, ShiftBytes, Pack, Shift8, Word, Crc;
    UnseenExactly(c, before, v, w, after);
    var d := Xor(v, w);
    PlusLaws(Word(d[0]), 0, 0);
    FoldPacked(ByteStep(0, d[0]), d[1..]);
    SumZero(ByteStep(0, d[0]), Pack(d[1..]));
    ShiftZero(4);
    if Fold(0, d) == 0 {
      ShiftBytesInjective(Plus(ByteStep(0, d[0]), Pack(d[1..])), 0, 4);
    }
  }

  // ---- the inversions ----

  /** A checksum as it is sent behind its message. */
  function LittleEndian(c: bv32): (s: seq<bv8>)
    ensures |s| == 4
  {
    [(c & 0xff) as bv8, ((c >> 8) & 0xff) as bv8, ((c >> 16) & 0xff) as bv8, (c >> 24) as bv8]
  }

  lemma Packed(c: bv32)
    ensures Pack(LittleEndian(c)) == c
  {
    var s := LittleEndian(c);
    PackFour(s[0], s[1], s[2], s[3]);
    hide Pack;
    FourFronts(c);
  }

  lemma PackFour(w: bv8, x: bv8, y: bv8, z: bv8)
    ensures Pack([w, x, y, z]) == Front(w, Front(x, Front(y, Front(z, 0))))
  {
    hide Front;
    assert [w, x, y, z][1..] == [x, y, z] && [x, y, z][1..] == [y, z] && [y, z][1..] == [z] && [z][1..] == [];
    assert Pack([z]) == Front(z, 0);
    assert Pack([y, z]) == Front(y, Front(z, 0));
    assert Pack([x, y, z]) == Front(x, Front(y, Front(z, 0)));
  }

  lemma FourFronts(c: bv32)
    ensures Front((c & 0xff) as bv8, Front(((c >> 8) & 0xff) as bv8,
                  Front(((c >> 16) & 0xff) as bv8, Front((c >> 24) as bv8, 0)))) == c
  {
  }

  /** A message with its checksum behind it: whatever the message and the starting value, the checksum of both is the
      residue of CRC-32. */
  lemma Residue(c: bv32, m: seq<bv8>)
    ensures Crc(c, m + LittleEndian(Crc(c, m))) == 0x2144df1c
  {
    hide Fold, Pack, LittleEndian, ShiftBytes;
    var r := Fold(Plus(c, ONES), m);
    var sent := LittleEndian(Crc(c, m));
    FoldAppend(Plus(c, ONES), m, sent);
    FoldPacked(r, sent);
    Packed(Crc(c, m));
    assert Plus(r, Plus(r, 0xffffffff)) == 0xffffffff;
    OnesShifted();
  }

  lemma OnesShifted()
    ensures ShiftBytes(0xffffffff, 4) == 0xdebb20e3
  {
    assert Shift8(0xffffffff) == 0x2dfd1072;
    assert Shift8(0x2dfd1072) == 0xbe26ed00;
    assert Shift8(0xbe26ed00) == 0x00be26ed;
    assert Shift8(0x00be26ed) == 0xdebb20e3;
    hide Shift8;
    ShiftFour(0xffffffff);
  }

  lemma ShiftFour(c: bv32)
    ensures ShiftBytes(c, 4) == Shift8(Shift8(Shift8(Shift8(c))))
  {
    hide Shift8;
    assert ShiftBytes(Shift8(Shift8(Shift8(c))), 1) == Shift8(Shift8(Shift8(Shift8(c))));
  }

  /** The digits from 1 to 9, whose checksum names the variant of CRC-32. */
  const DIGITS: seq<bv8> := [0x31, 0x32, 0x33, 0x34, 0x35, 0x36, 0x37, 0x38, 0x39]

  lemma CheckValue()
    ensures Crc(0, DIGITS) == 0xcbf43926
  {
    FirstDigits();
    LastDigits();
    hide Fold;
    assert DIGITS == [0x31, 0x32, 0x33, 0x34, 0x35] + [0x36, 0x37, 0x38, 0x39];
    FoldAppend(0xffffffff, [0x31, 0x32, 0x33, 0x34, 0x35], [0x36, 0x37, 0x38, 0x39]);
  }

  lemma FirstDigits()
    ensures Fold(0xffffffff, [0x31, 0x32, 0x33, 0x34, 0x35]) == 0x340ac5e3
  {
    assert ByteStep(0xffffffff, 0x31) == 0x7c231048;
    assert ByteStep(0x7c231048, 0x32) == 0xb0acbb32;
    assert ByteStep(0xb0acbb32, 0x33) == 0x77b79c2d;
    assert ByteStep(0x77b79c2d, 0x34) == 0x641c1f5c;
    assert ByteStep(0x641c1f5c, 0x35) == 0x340ac5e3;
    hide ByteStep;
    FoldFive(0xffffffff, 0x31, 0x32, 0x33, 0x34, 0x35);
  }

  lemma LastDigits()
    ensures Fold(0x340ac5e3, [0x36, 0x37, 0x38, 0x39]) == 0x340bc6d9
  {
    assert ByteStep(0x340ac5e3, 0x36) == 0xf68d2c9e;
    assert ByteStep(0xf68d2c9e, 0x37) == 0xaffc9660;
    assert ByteStep(0xaffc9660, 0x38) == 0x651f2550;
    assert ByteStep(0x651f2550, 0x39) == 0x340bc6d9;
    hide ByteStep;
    FoldFour(0x340ac5e3, 0x36, 0x37, 0x38, 0x39);
  }

  lemma FoldFour(c: bv32, w: bv8, x: bv8, y: bv8, z: bv8)
    ensures Fold(c, [w, x, y, z]) == ByteStep(ByteStep(ByteStep(ByteStep(c, w), x), y), z)
  {
    hide ByteStep;
    assert [w, x, y, z][1..] == [x, y, z] && [x, y, z][1..] == [y, z] && [y, z][1..] == [z];
    FoldOne(ByteStep(ByteStep(ByteStep(c, w), x), y), z);
    assert Fold(ByteStep(ByteStep(c, w), x), [y, z]) == ByteStep(ByteStep(ByteStep(ByteStep(c, w), x), y), z);
  }

  lemma FoldFive(c: bv32, v: bv8, w: bv8, x: bv8, y: bv8, z: bv8)
    ensures Fold(c, [v, w, x, y, z]) == ByteStep(ByteStep(ByteStep(ByteStep(ByteStep(c, v), w), x), y), z)
  {
    hide ByteStep;
    assert [v, w, x, y, z][1..] == [w, x, y, z];
    FoldFour(ByteStep(c, v), w, x, y, z);
  }

  // ---- bursts of bits ----

  /** The place of a bit in its byte, least significant first. */
  function Mask(j: nat): bv8
    requires j < 8
  {
    if j == 0 then 1 else if j == 1 then 2 else if j == 2 then 4 else if j == 3 then 8
    else if j == 4 then 0x10 else if j == 5 then 0x20 else if j == 6 then 0x40 else 0x80
  }

  predicate Has(b: bv8, j: nat)
    requires j < 8
  {
    b & Mask(j) != 0
  }

  /** Bit i of a message, in the order in which the division takes them. */
  predicate Bit(s: seq<bv8>, i: nat)
    requires i < 8 * |s|
  {
    Has(s[i / 8], i % 8)
  }

  /** Two messages have the same bits, but for those from `lo` on below `hi`. */
  predicate SameOutside(s: seq<bv8>, t: seq<bv8>, lo: nat, hi: nat)
    requires |s| == |t|
  {
    forall i: nat :: i < 8 * |s| && !(lo <= i < hi) ==> Bit(s, i) == Bit(t, i)
  }

  predicate SameBits(a: bv8, b: bv8, from: nat, to: nat)
    requires to <= 8
  {
    forall j: nat :: from <= j < to ==> Has(a, j) == Has(b, j)
  }

  lemma BitsOf(s: seq<bv8>, t: seq<bv8>, lo: nat, hi: nat, k: nat, from: nat, to: nat)
    requires |s| == |t| && SameOutside(s, t, lo, hi) && k < |s| && to <= 8 && (8 * k + to <= lo || hi <= 8 * k + from)
    ensures SameBits(s[k], t[k], from, to)
  {
    hide Has;
    forall j: nat | from <= j < to
      ensures Has(s[k], j) == Has(t[k], j)
    {
      assert (8 * k + j) / 8 == k && (8 * k + j) % 8 == j;
      assert Bit(s, 8 * k + j) == Bit(t, 8 * k + j);
    }
  }

  /** The bits of a byte below bit j. */
  function Below(j: nat): bv8
    requires j <= 8
  {
    if j == 0 then 0 else if j == 1 then 1 else if j == 2 then 3 else if j == 3 then 7 else if j == 4 then 0xf
    else if j == 5 then 0x1f else if j == 6 then 0x3f else if j == 7 then 0x7f else 0xff
  }

  lemma NextLow(a: bv8, b: bv8, j: nat)
    requires j < 8 && Has(a, j) == Has(b, j) && (a ^ b) & Below(j) == 0
    ensures (a ^ b) & Below(j + 1) == 0
  {
  }

  lemma NextHigh(a: bv8, b: bv8, j: nat)
    requires j < 8 && Has(a, j) == Has(b, j) && (a ^ b) & !Below(j + 1) == 0
    ensures (a ^ b) & !Below(j) == 0
  {
  }

  /** A change that leaves the bits below j, or those from j on. */
  lemma {:induction false} LowBits(a: bv8, b: bv8, j: nat)
    requires j <= 8 && SameBits(a, b, 0, j)
    ensures (a ^ b) & Below(j) == 0
  {
    if j > 0 {
      LowBits(a, b, j - 1);
      hide Has, Below;
      NextLow(a, b, j - 1);
    }
  }

  lemma {:induction false} HighBits(a: bv8, b: bv8, j: nat)
    requires j <= 8 && SameBits(a, b, j, 8)
    ensures (a ^ b) & !Below(j) == 0
    decreases 8 - j
  {
    if j < 8 {
      HighBits(a, b, j + 1);
      hide Has, Below;
      NextHigh(a, b, j);
    }
  }

  lemma AllBits(a: bv8, b: bv8)
    requires SameBits(a, b, 0, 8)
    ensures a == b
  {
    LowBits(a, b, 8);
    hide SameBits;
  }

  /** What a byte shifts into the register reaches bit 24 + j, when its own lowest bit is j. */
  lemma ShiftedUp(x: bv8, y: bv8, j: nat)
    requires 1 <= j <= 7 && x & Below(j) == 0 && y & !Below(j) == 0 && Shift8(Word(x)) >> 24 == Word(y)
    ensures x == 0
  {
  }

  lemma LastByte(s: seq<bv8>)
    requires |s| == 4
    ensures Pack(s) >> 24 == Word(s[3])
  {
    hide Front;
    var s1, s2, s3 := s[1..], s[2..], s[3..];
    assert s1[1..] == s2 && s2[1..] == s3 && s3[1..] == [];
    PackSmall(s1);
    PackSmall(s2);
    PackSmall(s3);
    FrontParts(s[0], Pack(s1));
    FrontParts(s[1], Pack(s2));
    FrontParts(s[2], Pack(s3));
    FrontNone(s[3]);
    ThreeShifts(Pack(s));
  }

  lemma FrontNone(b: bv8)
    ensures Front(b, 0) == Word(b)
  {
  }

  lemma ThreeShifts(c: bv32)
    ensures ((c >> 8) >> 8) >> 8 == c >> 24
  {
  }

  /** A burst of 32 bits that touches five bytes. */
  lemma FiveBytesDetected(c: bv32, before: seq<bv8>, v: seq<bv8>, w: seq<bv8>, after: seq<bv8>, j: nat)
    requires |v| == |w| == 5 && v[0] != w[0] && 1 <= j <= 7
    requires SameBits(v[0], w[0], 0, j) && SameBits(v[4], w[4], j, 8)
    ensures Crc(c, before + v + after) != Crc(c, before + w + after)
  {
    hide Crc, Shift8, Pack, Word, Below, SameBits;
    var d := Xor(v, w);
    LowBits(v[0], w[0], j);
    HighBits(v[4], w[4], j);
    Differ(v[0], w[0]);
    FiveBytesUnseen(c, before, v, w, after);
    LastByte(d[1..]);
    if Pack(d[1..]) == Shift8(Word(d[0])) {
      ShiftedUp(d[0], d[4], j);
    }
  }

  lemma Differ(a: bv8, b: bv8)
    ensures a != b ==> a ^ b != 0
  {
  }

  /** Two messages that differ only inside 32 consecutive bits, wherever these begin, never have the same checksum. */
  lemma BitBurstDetected(c: bv32, s: seq<bv8>, t: seq<bv8>, lo: nat)
    requires |s| == |t| && s != t && SameOutside(s, t, lo, lo + 32)
    ensures Crc(c, s) != Crc(c, t)
  {
    hide Crc, SameOutside, SameBits;
    var p, j := lo / 8, lo % 8;
    forall k: nat | k < |s| && !(p <= k < p + if j == 0 then 4 else 5)
      ensures s[k] == t[k]
    {
      BitsOf(s, t, lo, lo + 32, k, 0, 8);
      AllBits(s[k], t[k]);
    }
    var from := if p < |s| then p else |s|;
    if j > 0 && p + 5 <= |s| && s[p] != t[p] {
      BitsOf(s, t, lo, lo + 32, p, 0, j);
      BitsOf(s, t, lo, lo + 32, p + 4, j, 8);
      Cut(s, t, p, p + 5);
      FiveBytesDetected(c, s[..p], s[p..p + 5], t[p..p + 5], s[p + 5..], j);
    } else {
      var at := if j > 0 && p + 5 <= |s| then p + 1 else from;
      var end := if at + 4 <= |s| then at + 4 else |s|;
      Cut(s, t, at, end);
      BurstDetected(c, s[..at], s[at..end], t[at..end], s[end..]);
    }
  }

  lemma Cut(s: seq<bv8>, t: seq<bv8>, from: nat, to: nat)
    requires |s| == |t| && from <= to <= |s| && forall k: nat :: k < |s| && !(from <= k < to) ==> s[k] == t[k]
    ensures s == s[..from] + s[from..to] + s[to..] && t == s[..from] + t[from..to] + s[to..]
  {
  }

  /** The generator polynomial itself, as a change of 33 bits. */
  const GENERATOR: seq<bv8> := [0x80, 0x20, 0x83, 0xb8, 0xed]

  /** Thirty-two is the most: this change of 33 bits goes unseen anywhere in any message, from any starting value. */
  lemma GeneratorMissed(c: bv32, before: seq<bv8>, w: seq<bv8>, after: seq<bv8>)
    requires |w| == 5
    ensures var v := Xor(w, GENERATOR);
      && v != w && Crc(c, before + w + after) == Crc(c, before + v + after)
      && SameOutside(before + w + after, before + v + after, 8 * |before| + 7, 8 * |before| + 40)
  {
    var v := Xor(w, GENERATOR);
    XorTwice(w, GENERATOR);
    TopBit(w[0]);
    FirstBits(before, w, v, after);
    hide Crc, Shift8, Word, Pack, Plus, Xor, SameOutside;
    FiveBytesUnseen(c, before, w, v, after);
    assert GENERATOR[1..] == [0x20, 0x83, 0xb8, 0xed];
    PackLast();
    FirstByte();
  }

  lemma TopBit(b: bv8)
    ensures b != b ^ 0x80 && forall j: nat :: j < 7 ==> Has(b, j) == Has(b ^ 0x80, j)
  {
  }

  lemma FirstBits(before: seq<bv8>, v: seq<bv8>, w: seq<bv8>, after: seq<bv8>)
    requires |v| == |w| == 5 && forall j: nat :: j < 7 ==> Has(v[0], j) == Has(w[0], j)
    ensures SameOutside(before + v + after, before + w + after, 8 * |before| + 7, 8 * |before| + 40)
  {
    hide Has;
    var s, t := before + v + after, before + w + after;
    forall i: nat | i < 8 * |s| && !(8 * |before| + 7 <= i < 8 * |before| + 40)
      ensures Bit(s, i) == Bit(t, i)
    {
      assert i / 8 == |before| ==> s[i / 8] == v[0] && t[i / 8] == w[0] && i % 8 < 7;
      assert i / 8 != |before| ==> s[i / 8] == t[i / 8];
    }
  }

  lemma XorTwice(s: seq<bv8>, t: seq<bv8>)
    requires |s| == |t|
    ensures Xor(s, Xor(s, t)) == t
  {
    forall i | 0 <= i < |s|
      ensures Xor(s, Xor(s, t))[i] == t[i]
    {
      ByteTwice(s[i], t[i]);
    }
  }

  lemma ByteTwice(a: bv8, b: bv8)
    ensures a ^ (a ^ b) == b
  {
  }

  lemma FirstByte()
    ensures Shift8(Word(0x80)) == POLY
  {
    assert Word(0x80) == 0x80;
    hide Shift8;
    TableCorrect(0x80);
  }

  lemma PackLast()
    ensures Pack([0x20, 0x83, 0xb8, 0xed]) == POLY
  {
    assert [0xed as bv8][1..] == [] && [0xb8 as bv8, 0xed][1..] == [0xed];
    assert Pack([0xed]) == 0xed;
    assert Pack([0xb8, 0xed]) == 0xedb8;
    assert [0x83 as bv8, 0xb8, 0xed][1..] == [0xb8, 0xed];
    assert Pack([0x83, 0xb8, 0xed]) == 0xedb883;
    assert [0x20 as bv8, 0x83, 0xb8, 0xed][1..] == [0x83, 0xb8, 0xed];
  }

  lemma {:induction false} ShiftZero(n: nat)
    ensures ShiftBytes(0, n) == 0
  {
    if n > 0 {
      Shift8High(0);
      hide Shift8;
      ShiftZero(n - 1);
    }
  }
}
