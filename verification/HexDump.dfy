/** hex_dump_to_buffer: one line of a hex and ASCII dump, written into a buffer of any size. */
module HexDump {
  type byte = x: int | 0 <= x < 256

  // ---- digits ----

  const DIGITS := "0123456789abcdef"

  function Digit(n: nat): char
    requires n < 16
  {
    DIGITS[n]
  }

  predicate IsHex(c: char) { '0' <= c <= '9' || 'a' <= c <= 'f' }

  function UnDigit(c: char): (n: nat)
    requires IsHex(c)
    ensures n < 16
  {
    if c <= '9' then c as int - '0' as int else c as int - 'a' as int + 10
  }

  lemma UnDigitOfDigit(n: nat)
    requires n < 16
    ensures IsHex(Digit(n)) && UnDigit(Digit(n)) == n
  {
  }

  /** The value of a word stored with its lowest byte first. */
  function Value(word: seq<byte>): nat { if word == [] then 0 else word[0] + 256 * Value(word[1..]) }

  /** The lowest `width` hex digits of a value, as printf's %0*x shows them. */
  function Hex(value: nat, width: nat): (h: string)
    ensures |h| == width
  {
    if width == 0 then "" else Hex(value / 16, width - 1) + [Digit(value % 16)]
  }

  /** The bytes that a group of digits stands for, the last two digits first. */
  function DecodeGroup(text: string): seq<byte> {
    var n := |text| - 2;
    if n < 0 || !IsHex(text[n]) || !IsHex(text[n + 1]) then []
    else [16 * UnDigit(text[n]) + UnDigit(text[n + 1])] + DecodeGroup(text[..n])
  }

  lemma HexTwo(value: nat, width: nat, low: byte)
    ensures Hex(low + 256 * value, width + 2) == (Hex(value, width) + [Digit(low / 16)]) + [Digit(low % 16)]
  {
    var v := low + 256 * value;
    assert v % 16 == low % 16 && v / 16 == low / 16 + 16 * value;
    assert (v / 16) % 16 == low / 16 && (v / 16) / 16 == value;
    assert Hex(v, width + 2) == Hex(v / 16, width + 1) + [Digit(v % 16)];
    assert Hex(v / 16, width + 1) == Hex(v / 16 / 16, width) + [Digit(v / 16 % 16)];
  }

  lemma DecodeTwo(high: string, a: nat, b: nat)
    requires a < 16 && b < 16
    ensures DecodeGroup((high + [Digit(a)]) + [Digit(b)]) == [16 * a + b] + DecodeGroup(high)
  {
    hide Digit, UnDigit, IsHex;
    var text := (high + [Digit(a)]) + [Digit(b)];
    assert text[..|text| - 2] == high && text[|text| - 2] == Digit(a) && text[|text| - 1] == Digit(b);
    UnDigitOfDigit(a);
    UnDigitOfDigit(b);
  }

  lemma ValueOfWord(word: seq<byte>)
    requires word != []
    ensures Value(word) == word[0] + 256 * Value(word[1..])
  {
  }

  /** A group of any width is read back. */
  lemma {:induction false} GroupDecodes(word: seq<byte>)
    ensures DecodeGroup(Hex(Value(word), 2 * |word|)) == word
  {
    hide Value, Hex, DecodeGroup, Digit;
    if word == [] {
      NoDigits(Value(word));
    } else {
      var low, rest := word[0], word[1..];
      GroupDecodes(rest);
      ValueOfWord(word);
      HexTwo(Value(rest), 2 * |rest|, low);
      DecodeTwo(Hex(Value(rest), 2 * |rest|), low / 16, low % 16);
      assert word == [low] + rest;
    }
  }

  lemma NoDigits(value: nat)
    ensures DecodeGroup(Hex(value, 0)) == []
  {
  }

  // ---- the hex part ----

  /** The first `n` groups of `g` bytes, separated by spaces. */
  function Groups(data: seq<byte>, g: nat, n: nat): string
    requires n * g <= |data|
  {
    if n == 0 then ""
    else
      assert (n - 1) * g + g == n * g;
      Groups(data, g, n - 1) + GroupText(data[(n - 1) * g..(n - 1) * g + g], n > 1)
  }

  /** What one call of scnprintf formats. */
  function GroupText(word: seq<byte>, spaced: bool): string {
    (if spaced then " " else "") + Hex(Value(word), 2 * |word|)
  }

  /** The bytes that `n` groups of `g` bytes with single spaces between them stand for. */
  function Decode(text: string, g: nat, n: nat): seq<byte> {
    if n == 0 || |text| < 2 * g then []
    else
      var at := |text| - 2 * g;
      (if n == 1 || at == 0 || text[at - 1] != ' ' then [] else Decode(text[..at - 1], g, n - 1))
      + DecodeGroup(text[at..])
  }

  lemma {:induction false} GroupsLength(data: seq<byte>, g: nat, n: nat)
    requires n * g <= |data|
    ensures |Groups(data, g, n)| == if n == 0 then 0 else n * (2 * g + 1) - 1
  {
    if n > 0 {
      assert (n - 1) * g + g == n * g;
      GroupsLength(data, g, n - 1);
      assert (n - 1) * (2 * g + 1) + (2 * g + 1) == n * (2 * g + 1);
    }
  }

  /** The hex part is read back to the bytes it was made of. */
  lemma {:induction false} GroupsDecode(data: seq<byte>, g: nat, n: nat)
    requires 0 < g && n * g <= |data|
    ensures Decode(Groups(data, g, n), g, n) == data[..n * g]
  {
    hide DecodeGroup, Hex, Value;
    if n > 0 {
      assert (n - 1) * g + g == n * g;
      var word := data[(n - 1) * g..(n - 1) * g + g];
      GroupDecodes(word);
      GroupsDecode(data, g, n - 1);
      DecodeLast(Groups(data, g, n - 1), word, g, n);
      assert data[..n * g] == data[..(n - 1) * g] + word;
    }
  }

  lemma DecodeLast(before: string, word: seq<byte>, g: nat, n: nat)
    requires 0 < n && |word| == g && (n == 1 ==> before == "")
    ensures Decode(before + GroupText(word, n > 1), g, n) ==
            (if n == 1 then [] else Decode(before, g, n - 1)) + DecodeGroup(Hex(Value(word), 2 * g))
  {
    hide DecodeGroup, Hex, Value;
    var text := before + GroupText(word, n > 1);
    var at := |text| - 2 * g;
    assert text[at..] == Hex(Value(word), 2 * g);
    if n > 1 {
      assert text[..at - 1] == before && text[at - 1] == ' ';
    }
  }

  // ---- the line ----

  function Row(rowsize: int): nat { if rowsize == 16 || rowsize == 32 then rowsize else 16 }

  function Min(a: int, b: int): int { if a < b then a else b }

  /** The group size in force: sizes that do not divide the length, and sizes other than 2, 4 and 8, mean single bytes.
      A negative size is converted to a huge unsigned one, which divides no length. */
  function GroupSize(len: nat, groupsize: int): (g: nat)
    requires groupsize != 0 && 0 < len
    ensures (g == 1 || g == 2 || g == 4 || g == 8) && len % g == 0
  {
    if groupsize > 0 && len % groupsize == 0 && (groupsize == 8 || groupsize == 4 || groupsize == 2) then groupsize
    else 1
  }

  /** The column, counted from one, where the ASCII part begins. */
  function Column(len: nat, g: nat, row: nat): nat
    requires 0 < g
  {
    if g == 1 then 3 * row + 2 else (2 * g + 1) * (len / g) + 2
  }

  function Show(b: byte): char { if 32 <= b < 127 then b as char else '.' }

  function Printable(data: seq<byte>): (t: string)
    ensures |t| == |data| && forall i :: 0 <= i < |data| ==> t[i] == Show(data[i])
  {
    seq(|data|, i requires 0 <= i < |data| => Show(data[i]))
  }

  function Spaces(n: int): (t: string)
    ensures |t| == if n < 0 then 0 else n
  {
    seq(if n < 0 then 0 else n, i => ' ')
  }

  function Prefix(s: string, n: int): string { if n <= 0 then "" else if n >= |s| then s else s[..n] }

  function HexPart(data: seq<byte>, g: nat, cap: nat): string
    requires (g == 1 || g == 2 || g == 4 || g == 8) && 0 < cap
  {
    if g == 1 then Groups(data, 1, Min(|data|, cap / 3))
    else Prefix(Groups(data, g, |data| / g), cap - 1)
  }

  function Padded(data: seq<byte>, g: nat, row: nat, cap: nat): string
    requires (g == 1 || g == 2 || g == 4 || g == 8) && 0 < cap
  {
    var hex := HexPart(data, g, cap);
    hex + Spaces(Min(cap - 1, Column(|data|, g, row) - 1) - |hex|)
  }

  /** The text left in a buffer of `cap` bytes. */
  function Text(data: seq<byte>, g: nat, row: nat, ascii: bool, cap: nat): string
    requires (g == 1 || g == 2 || g == 4 || g == 8) && 0 < cap
  {
    if !ascii then HexPart(data, g, cap)
    else
      var padded := Padded(data, g, row, cap);
      padded + Prefix(Printable(data), cap - 2 - |padded|)
  }

  function Shown(buf: seq<byte>, rowsize: int): (s: seq<byte>)
    ensures buf != [] ==> s != [] && |s| <= Row(rowsize) && s <= buf
  {
    buf[..Min(|buf|, Row(rowsize))]
  }

  /** The line of a call: an empty one for no data. */
  function Line(data: seq<byte>, rowsize: int, groupsize: int, ascii: bool, cap: nat): string
    requires groupsize != 0 && 0 < cap
  {
    if data == [] then ""
    else
      var row := Row(rowsize);
      var shown := Shown(data, rowsize);
      Text(shown, GroupSize(|shown|, groupsize), row, ascii, cap)
  }

  // ---- the function itself ----

  /** The buffer begins with the text; nothing beyond the place of its terminator has changed. */
  ghost predicate Holds(buf: seq<char>, was: seq<char>, text: string) {
    |text| < |buf| == |was| && buf[..|text|] == text && buf[|text| + 1..] == was[|text| + 1..]
  }

  method Scnprintf(linebuf: array<char>, at: nat, text: string) returns (n: nat)
    requires at < linebuf.Length
    modifies linebuf
    ensures n == Min(|text|, linebuf.Length - at - 1)
    ensures linebuf[..at] == old(linebuf[..at]) && linebuf[at..at + n] == text[..n] && linebuf[at + n] == '\0'
    ensures linebuf[at + n + 1..] == old(linebuf[at + n + 1..])
  {
    n := if |text| >= linebuf.Length - at then linebuf.Length - at - 1 else |text|;
    forall k | 0 <= k < n {
      linebuf[at + k] := text[k];
    }
    linebuf[at + n] := '\0';
  }

  lemma HoldsMore(buf: seq<char>, mid: seq<char>, was: seq<char>, text: string, more: string)
    requires Holds(mid, was, text) && |text| + |more| < |buf| == |mid|
    requires buf[..|text|] == mid[..|text|] && buf[|text|..|text| + |more|] == more
    requires buf[|text| + |more| + 1..] == mid[|text| + |more| + 1..]
    ensures Holds(buf, was, text + more)
  {
    assert buf[..|text + more|] == buf[..|text|] + buf[|text|..|text| + |more|];
    assert was[|text + more| + 1..] == was[|text| + 1..][|more|..];
    assert mid[|text + more| + 1..] == mid[|text| + 1..][|more|..];
  }

  lemma HoldsChar(mid: seq<char>, was: seq<char>, text: string, c: char)
    requires Holds(mid, was, text) && |text| + 1 < |mid|
    ensures Holds(mid[|text| := c], was, text + [c])
  {
    HoldsMore(mid[|text| := c], mid, was, text, [c]);
  }

  lemma HoldsNothing(was: seq<char>)
    requires was != []
    ensures Holds(was, was, "")
  {
  }

  lemma HoldsBound(buf: seq<char>, was: seq<char>, text: string)
    requires Holds(buf, was, text)
    ensures |text| < |buf|
  {
  }

  lemma NextGroup(data: seq<byte>, g: nat, j: nat)
    requires (j + 1) * g <= |data|
    ensures j * g + g <= |data|
    ensures Groups(data, g, j + 1) == Groups(data, g, j) + GroupText(data[j * g..j * g + g], j > 0)
  {
    assert (j + 1) * g == j * g + g;
  }

  lemma GroupsFit(len: nat, g: nat, j: nat)
    requires 0 < g && j < len / g
    ensures (j + 1) * g <= len
  {
    assert (j + 1) * g <= len / g * g <= len;
  }

  /** The cases 8, 4 and 2. */
  method DumpGroups(data: seq<byte>, g: nat, linebuf: array<char>) returns (lx: nat)
    requires (g == 2 || g == 4 || g == 8) && |data| % g == 0 && 0 < linebuf.Length
    modifies linebuf
    ensures lx == |HexPart(data, g, linebuf.Length)|
    ensures Holds(linebuf[..], old(linebuf[..]), HexPart(data, g, linebuf.Length))
  {
    hide Groups, GroupText, Prefix, Holds;
    lx := 0;
    var ngroups := |data| / g;
    var cap := linebuf.Length - 1;
    ghost var was := linebuf[..];
    NoGroups(data, g, cap);
    HoldsNothing(was);
    for j := 0 to ngroups
      invariant j * g <= |data|
      invariant lx == |Prefix(Groups(data, g, j), cap)| <= cap
      invariant Holds(linebuf[..], was, Prefix(Groups(data, g, j), cap))
    {
      GroupsFit(|data|, g, j);
      NextGroup(data, g, j);
      ghost var mid := linebuf[..];
      ghost var before := Prefix(Groups(data, g, j), cap);
      var text := GroupText(data[j * g..j * g + g], j > 0);
      var n := Scnprintf(linebuf, lx, text);
      NextPrefix(Groups(data, g, j), text, cap);
      HoldsMore(linebuf[..], mid, was, before, text[..n]);
      lx := lx + n;
    }
  }

  lemma NextPrefix(a: string, b: string, c: nat)
    requires |Prefix(a, c)| <= c
    ensures var n := Min(|b|, c - |Prefix(a, c)|); Prefix(a + b, c) == Prefix(a, c) + b[..n]
  {
  }

  /** The groups with a space after each. */
  function Triples(data: seq<byte>, n: nat): (t: string)
    requires n <= |data|
    ensures |t| == 3 * n
  {
    if n == 0 then ""
    else Triples(data, n - 1) + [Digit(data[n - 1] / 16), Digit(data[n - 1] % 16), ' ']
  }

  lemma {:induction false} TriplesAreGroups(data: seq<byte>, n: nat)
    requires 0 < n <= |data|
    ensures Triples(data, n) == Groups(data, 1, n) + " "
  {
    hide Hex, Digit, Value;
    var word := data[n - 1..n];
    ValueOfWord(word);
    NoValue(word[1..]);
    HexTwo(0, 0, word[0]);
    NoHex(0);
    assert Hex(Value(word), 2) == [Digit(word[0] / 16), Digit(word[0] % 16)];
    assert Groups(data, 1, n) == Groups(data, 1, n - 1) + GroupText(word, n > 1);
    if n > 1 {
      TriplesAreGroups(data, n - 1);
    }
  }

  lemma NoValue(word: seq<byte>)
    requires |word| == 0
    ensures Value(word) == 0
  {
  }

  lemma NoHex(value: nat)
    ensures Hex(value, 0) == ""
  {
  }

  /** The default case; the last space is given up. */
  method DumpBytes(data: seq<byte>, linebuf: array<char>) returns (lx: nat)
    requires 0 < |data| && 0 < linebuf.Length
    modifies linebuf
    ensures lx == |HexPart(data, 1, linebuf.Length)|
    ensures Holds(linebuf[..], old(linebuf[..]), HexPart(data, 1, linebuf.Length))
  {
    hide Groups, Digit;
    lx := 0;
    var j := 0;
    ghost var was := linebuf[..];
    while j < |data| && lx + 3 <= linebuf.Length
      invariant j <= |data| && lx == 3 * j <= linebuf.Length
      invariant linebuf[..lx] == Triples(data, j) && linebuf[lx..] == was[lx..]
    {
      ghost var mid := linebuf[..];
      var ch := data[j];
      linebuf[lx] := Digit(ch / 16);
      linebuf[lx + 1] := Digit(ch % 16);
      linebuf[lx + 2] := ' ';
      lx := lx + 3;
      assert linebuf[..lx] == mid[..lx - 3] + [Digit(ch / 16), Digit(ch % 16), ' '];
      assert linebuf[lx..] == mid[lx - 3..][3..] == was[lx..];
      j := j + 1;
    }
    if j > 0 {
      TriplesAreGroups(data, j);
      lx := lx - 1;
      assert linebuf[..lx] == linebuf[..lx + 1][..lx];
    } else {
      NoGroups(data, 1, 0);
      assert linebuf[..] == was;
    }
  }

  lemma NoGroups(data: seq<byte>, g: nat, cap: nat)
    ensures Groups(data, g, 0) == "" && Prefix(Groups(data, g, 0), cap) == ""
  {
  }

  method HexDumpToBuffer(buf: seq<byte>, rowsize: int, groupsize: int, linebuf: array<char>, ascii: bool)
    requires groupsize != 0 && 0 < linebuf.Length
    modifies linebuf
    ensures var line := Line(buf, rowsize, groupsize, ascii, linebuf.Length);
            |line| < linebuf.Length && linebuf[..] == line + ['\0'] + old(linebuf[..])[|line| + 1..]
  {
    hide Groups, HexPart, Text, Holds, GroupSize;
    ghost var was := linebuf[..];
    HoldsNothing(was);
    var lx := 0;
    if |buf| > 0 {
      var row := if rowsize != 16 && rowsize != 32 then 16 else rowsize;
      var len := if |buf| > row then row else |buf|;
      var data := buf[..len];
      var g := GroupSize(len, groupsize);
      if g == 1 {
        lx := DumpBytes(data, linebuf);
      } else {
        lx := DumpGroups(data, g, linebuf);
      }
      if ascii {
        lx := AddAscii(data, g, row, linebuf, lx, was);
      }
    }
    ghost var line := Line(buf, rowsize, groupsize, ascii, linebuf.Length);
    if |buf| > 0 && !ascii {
      NoAscii(Shown(buf, rowsize), GroupSize(|Shown(buf, rowsize)|, groupsize), Row(rowsize), linebuf.Length);
    }
    assert Holds(linebuf[..], was, line) && lx == |line|;
    HoldsEnded(linebuf[..], was, line);
    linebuf[lx] := '\0';
  }

  lemma NoAscii(data: seq<byte>, g: nat, row: nat, cap: nat)
    requires (g == 1 || g == 2 || g == 4 || g == 8) && 0 < cap
    ensures Text(data, g, row, false, cap) == HexPart(data, g, cap)
  {
  }

  lemma HoldsEnded(buf: seq<char>, was: seq<char>, text: string)
    requires Holds(buf, was, text)
    ensures |text| < |buf| == |was|
    ensures buf[|text| := '\0'] == text + ['\0'] + was[|text| + 1..]
  {
    var n := |text|;
    assert buf[n := '\0'] == buf[..n] + ['\0'] + buf[n + 1..];
  }

  /** Padding up to the ASCII column, and the characters. */
  method AddAscii(data: seq<byte>, g: nat, row: nat, linebuf: array<char>, from: nat,
      ghost was: seq<char>) returns (lx: nat)
    requires (g == 1 || g == 2 || g == 4 || g == 8) && 0 < linebuf.Length
    requires from == |HexPart(data, g, linebuf.Length)|
    requires Holds(linebuf[..], was, HexPart(data, g, linebuf.Length))
    modifies linebuf
    ensures lx == |Text(data, g, row, true, linebuf.Length)|
    ensures Holds(linebuf[..], was, Text(data, g, row, true, linebuf.Length))
  {
    hide HexPart, Column, Holds, Show, Printable, Spaces;
    lx := from;
    ghost var hex := HexPart(data, g, linebuf.Length);
    NoSpaces(hex);
    HoldsBound(linebuf[..], was, hex);
    while lx < linebuf.Length - 1 && lx < Column(|data|, g, row) - 1
      invariant from <= lx < linebuf.Length
      invariant from < lx ==> lx <= Column(|data|, g, row) - 1
      invariant Holds(linebuf[..], was, hex + Spaces(lx - from))
    {
      OneSpace(hex, lx - from);
      HoldsChar(linebuf[..], was, hex + Spaces(lx - from), ' ');
      linebuf[lx] := ' ';
      lx := lx + 1;
    }
    ghost var padded := hex + Spaces(lx - from);
    SameSpaces(lx - from, Min(linebuf.Length - 1, Column(|data|, g, row) - 1) - from);
    assert padded == Padded(data, g, row, linebuf.Length);
    assert padded + Printable(data)[..0] == padded;
    var j := 0;
    while j < |data| && lx + 2 < linebuf.Length
      invariant j <= |data| && lx == |padded| + j < linebuf.Length && (j > 0 ==> lx <= linebuf.Length - 2)
      invariant Holds(linebuf[..], was, padded + Printable(data)[..j])
    {
      OneMore(padded, data, j);
      HoldsChar(linebuf[..], was, padded + Printable(data)[..j], Show(data[j]));
      linebuf[lx] := Show(data[j]);
      lx, j := lx + 1, j + 1;
    }
    assert Prefix(Printable(data), linebuf.Length - 2 - |padded|) == Printable(data)[..j];
  }

  lemma OneMore(text: string, data: seq<byte>, j: nat)
    requires j < |data|
    ensures text + Printable(data)[..j + 1] == (text + Printable(data)[..j]) + [Show(data[j])]
  {
    hide Show;
    var t := Printable(data);
    assert t[..j + 1] == t[..j] + [t[j]];
  }

  lemma NoSpaces(text: string)
    ensures text + Spaces(0) == text
  {
  }

  lemma OneSpace(text: string, n: nat)
    ensures text + Spaces(n + 1) == (text + Spaces(n)) + [' ']
  {
  }

  lemma SameSpaces(m: int, n: int)
    requires m == n || (m <= 0 && n <= 0)
    ensures Spaces(m) == Spaces(n)
  {
  }

  // ---- what a reader finds in the line ----

  predicate Size(data: seq<byte>, g: nat) {
    (g == 1 || g == 2 || g == 4 || g == 8) && |data| % g == 0 && data != []
  }

  lemma WholeGroups(data: seq<byte>, g: nat)
    requires Size(data, g)
    ensures 0 < |data| / g && |data| / g * g == |data|
    ensures |Groups(data, g, |data| / g)| == |data| / g * (2 * g + 1) - 1 == 2 * |data| + |data| / g - 1
  {
    hide Groups;
    var n := |data| / g;
    GroupsLength(data, g, n);
    assert n * (2 * g + 1) == 2 * (n * g) + n;
  }

  lemma {:induction false} FewerGroups(data: seq<byte>, g: nat, m: nat, n: nat)
    requires m <= n && n * g <= |data|
    ensures m * g <= |data| && Groups(data, g, m) <= Groups(data, g, n)
  {
    hide GroupText;
    if m < n {
      assert (n - 1) * g + g == n * g;
      FewerGroups(data, g, m, n - 1);
      NextGroup(data, g, n - 1);
    }
  }

  /** Without ASCII, any buffer holds a prefix of the hex part, and all of it if and only if it has room for the
      terminator as well. */
  lemma HexFits(data: seq<byte>, g: nat, cap: nat)
    requires Size(data, g) && 0 < cap
    ensures |data| / g * g <= |data|
    ensures HexPart(data, g, cap) <= Groups(data, g, |data| / g)
    ensures HexPart(data, g, cap) == Groups(data, g, |data| / g) <==> |Groups(data, g, |data| / g)| < cap
    ensures |HexPart(data, g, cap)| < cap
  {
    hide Groups;
    WholeGroups(data, g);
    if g == 1 {
      FewerGroups(data, 1, Min(|data|, cap / 3), |data|);
      GroupsLength(data, 1, Min(|data|, cap / 3));
    }
  }

  /** Single bytes are never cut: whatever the room, the hex part is that of a prefix of the data. */
  lemma BytesUncut(data: seq<byte>, cap: nat)
    requires data != [] && 0 < cap
    ensures var n := Min(|data|, cap / 3); Decode(HexPart(data, 1, cap), 1, n) == data[..n]
  {
    hide Groups, Decode;
    GroupsDecode(data, 1, Min(|data|, cap / 3));
  }

  /** The line that a buffer without limit would hold. */
  function Full(data: seq<byte>, g: nat, row: nat): string
    requires Size(data, g)
  {
    WholeGroups(data, g);
    var hex := Groups(data, g, |data| / g);
    hex + Spaces(Column(|data|, g, row) - 1 - |hex|) + Printable(data)
  }

  lemma FullShape(data: seq<byte>, g: nat, row: nat)
    requires Size(data, g) && |data| <= row
    ensures |data| / g * g == |data|
    ensures var col := Column(|data|, g, row) - 1;
            && |Groups(data, g, |data| / g)| < col && |Full(data, g, row)| == col + |data|
            && Full(data, g, row)[..|Groups(data, g, |data| / g)|] == Groups(data, g, |data| / g)
            && (forall i :: |Groups(data, g, |data| / g)| <= i < col ==> Full(data, g, row)[i] == ' ')
            && Full(data, g, row)[col..] == Printable(data)
  {
    hide Groups, Printable, Column;
    ColumnBehind(data, g, row);
    PrintableLength(data);
    var hex := Groups(data, g, |data| / g);
    ThreeParts(hex, Spaces(Column(|data|, g, row) - 1 - |hex|), Printable(data));
  }

  /** The ASCII part begins behind the hex part and a space. */
  lemma ColumnBehind(data: seq<byte>, g: nat, row: nat)
    requires Size(data, g) && |data| <= row
    ensures |data| / g * g == |data| && |Groups(data, g, |data| / g)| < Column(|data|, g, row) - 1
  {
    hide Groups;
    WholeGroups(data, g);
    var n := |data| / g;
    if g > 1 {
      assert (2 * g + 1) * n == n * (2 * g + 1);
    }
  }

  lemma ThreeParts(a: string, b: string, c: string)
    ensures var t := a + b + c; |t| == |a| + |b| + |c| && t[..|a|] == a && t[|a| + |b|..] == c
    ensures forall i :: |a| <= i < |a| + |b| ==> (a + b + c)[i] == b[i - |a|]
  {
  }

  lemma PrintableLength(data: seq<byte>)
    ensures |Printable(data)| == |data|
  {
  }

  /** With ASCII, the line is complete if and only if the buffer has room for one byte more than the terminator: a
      buffer of exactly the right size loses its last character. */
  lemma LineFits(data: seq<byte>, g: nat, row: nat, cap: nat)
    requires Size(data, g) && |data| <= row && 0 < cap
    ensures Text(data, g, row, true, cap) == Full(data, g, row) <==> |Full(data, g, row)| + 2 <= cap
    ensures |Text(data, g, row, true, cap)| < cap
  {
    hide Groups, Printable, Column, HexPart;
    FullShape(data, g, row);
    HexFits(data, g, cap);
    PrintableLength(data);
    var col := Column(|data|, g, row) - 1;
    var padded := Padded(data, g, row, cap);
    if |Full(data, g, row)| + 2 <= cap {
      assert padded + Printable(data) == Full(data, g, row);
    } else {
      assert |padded| <= cap - 1;
      if |padded| < col + 1 {
        assert |Text(data, g, row, true, cap)| < col + |data|;
      }
    }
  }

  const PUNCTUATION := "!\"#$%&'()*+,-./:;<=>?@[\\]^_`{|}~"

  /** What a byte looks like in the ASCII part: letters, digits, punctuation and the space are themselves, and all other
      bytes are dots. */
  predicate LooksLike(c: char, b: byte) {
    var plain := b as char;
    if 'a' <= plain <= 'z' || 'A' <= plain <= 'Z' || '0' <= plain <= '9' || plain == ' ' || plain in PUNCTUATION
    then c == plain
    else c == '.'
  }

  lemma Looks(b: byte)
    ensures LooksLike(Show(b), b)
  {
    var c := b as char;
    if 32 < b < 48 {
      assert c == PUNCTUATION[b - 33];
    } else if 58 <= b < 65 {
      assert c == PUNCTUATION[b - 43];
    } else if 91 <= b < 97 {
      assert c == PUNCTUATION[b - 69];
    } else if 123 <= b < 127 {
      assert c == PUNCTUATION[b - 95];
    }
  }

  /** Groups of `g` bytes, each as its digits, with single spaces between them; spaces up to column `col`; then every
      byte as it looks. */
  predicate Readable(line: string, shown: seq<byte>, g: nat, col: nat)
    requires 0 < g && shown != []
  {
    var hex := 2 * |shown| + |shown| / g - 1;
    && hex < col && |line| == col + |shown|
    && Decode(line[..hex], g, |shown| / g) == shown
    && (forall i :: hex <= i < col ==> line[i] == ' ')
    && forall j :: 0 <= j < |shown| ==> LooksLike(line[col + j], shown[j])
  }

  lemma FullIsReadable(shown: seq<byte>, g: nat, row: nat)
    requires Size(shown, g) && |shown| <= row
    ensures Readable(Full(shown, g, row), shown, g, Column(|shown|, g, row) - 1)
  {
    hide Groups, Decode, Full, Printable, Show, Column, LooksLike;
    WholeGroups(shown, g);
    FullShape(shown, g, row);
    GroupsDecode(shown, g, |shown| / g);
    var line, col := Full(shown, g, row), Column(|shown|, g, row) - 1;
    assert shown[..|shown|] == shown;
    forall j | 0 <= j < |shown|
      ensures LooksLike(line[col + j], shown[j])
    {
      assert line[col + j] == line[col..][j];
      Looks(shown[j]);
    }
  }

  /** The bytes of a row: 32 if these were asked for, and 16 otherwise. */
  predicate InRow(shown: seq<byte>, buf: seq<byte>, rowsize: int) {
    var row := if rowsize == 32 then 32 else 16;
    shown <= buf && |shown| == if |buf| < row then |buf| else row
  }

  /** The groups asked for, if they are of 2, 4 or 8 bytes and come out even; else single bytes. */
  predicate InForce(g: nat, len: nat, groupsize: int) {
    if groupsize in {2, 4, 8} then (if len % groupsize == 0 then g == groupsize else g == 1) else g == 1
  }

  lemma GroupInForce(len: nat, groupsize: int, g: nat)
    requires groupsize != 0 && 0 < len && InForce(g, len, groupsize)
    ensures g == GroupSize(len, groupsize)
  {
  }

  /** Where the characters begin: behind the room of a whole row for single bytes, else behind the groups there are. */
  function FirstChar(len: nat, g: nat, rowsize: int): (col: nat)
    requires g in {1, 2, 4, 8}
  {
    if g == 1 then if rowsize == 32 then 97 else 49 else len / g * (2 * g + 1) + 1
  }

  lemma ColumnIs(len: nat, g: nat, rowsize: int)
    requires g in {1, 2, 4, 8}
    ensures Column(len, g, Row(rowsize)) == FirstChar(len, g, rowsize) + 1
  {
    var n := len / g;
    assert n * (2 * g + 1) == (2 * g + 1) * n;
  }

  lemma ShownIs(buf: seq<byte>, rowsize: int, shown: seq<byte>)
    requires buf != [] && InRow(shown, buf, rowsize)
    ensures shown == Shown(buf, rowsize)
  {
  }

  /** Every call with data and a buffer with room for the line, the terminator and one byte more leaves a readable
      line. */
  lemma LineIsReadable(buf: seq<byte>, rowsize: int, groupsize: int, cap: nat, shown: seq<byte>, g: nat)
    requires buf != [] && groupsize != 0 && InRow(shown, buf, rowsize) && InForce(g, |shown|, groupsize)
    requires FirstChar(|shown|, g, rowsize) + |shown| + 1 < cap
    ensures shown != [] && Readable(Line(buf, rowsize, groupsize, true, cap), shown, g, FirstChar(|shown|, g, rowsize))
  {
    hide Readable, Text, Full, Column, FirstChar, Row, GroupSize, InRow, InForce, Groups;
    ShownIs(buf, rowsize, shown);
    GroupInForce(|shown|, groupsize, g);
    ColumnIs(|shown|, g, rowsize);
    FullShape(shown, g, Row(rowsize));
    LineFits(shown, g, Row(rowsize), cap);
    FullIsReadable(shown, g, Row(rowsize));
  }
}
