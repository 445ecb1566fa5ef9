/** Buffered streams: one buffer that caches reads and delays writes, over a file with an offset of its own.  */
module SoStdio {
  import opened Wrappers

  type byte = x: int | 0 <= x < 256

  const BUFFER_SIZE := 4096
  const SO_EOF := -1

  // ---- plain files ----

  function Zeros(n: nat): seq<byte> { seq(n, _ => 0) }

  /** `w` written at offset `p`; a gap before it is filled with zeros. */
  function Overlay(d: seq<byte>, p: nat, w: seq<byte>): seq<byte> {
    if w == [] then d
    else
      var e := if p <= |d| then d else d + Zeros(p - |d|);
      e[..p] + w + if p + |w| < |e| then e[p + |w|..] else []
  }

  /** Every byte is the written one, the old one or a zero of the gap. */
  lemma OverlayAt(d: seq<byte>, p: nat, w: seq<byte>)
    ensures var r := Overlay(d, p, w);
      && |r| == (if w == [] then |d| else if p + |w| > |d| then p + |w| else |d|)
      && forall i :: 0 <= i < |r| ==> r[i] == if p <= i < p + |w| then w[i - p] else if i < |d| then d[i] else 0
  {
  }

  lemma OverlayTwice(d: seq<byte>, p: nat, v: seq<byte>, w: seq<byte>)
    ensures Overlay(Overlay(d, p, v), p + |v|, w) == Overlay(d, p, v + w)
  {
    OverlayAt(d, p, v);
    OverlayAt(Overlay(d, p, v), p + |v|, w);
    OverlayAt(d, p, v + w);
    hide Overlay;
  }

  lemma OverlayNothing(d: seq<byte>, p: nat)
    ensures Overlay(d, p, []) == d
  {
  }

  /** An open file of the operating system.  On an unreliable one any call may fail. */
  class Disk {
    var data: seq<byte>
    var pos: nat
    const reliable: bool

    constructor (data: seq<byte>, reliable: bool)
      ensures this.data == data && pos == 0 && this.reliable == reliable
    {
      this.data, this.pos, this.reliable := data, 0, reliable;
    }

    method Seek(p: nat)
      modifies this
      ensures pos == p && data == old(data)
    {
      pos := p;
    }

    /** Fills the buffer as far as the file goes. */
    method Read(buf: array<byte>) returns (n: int)
      requires buf.Length == BUFFER_SIZE
      modifies this, buf
      ensures data == old(data)
      ensures n == -1 ==> !reliable && pos == old(pos) && buf[..] == old(buf[..])
      ensures n != -1 ==>
        && 0 <= n <= BUFFER_SIZE && pos == old(pos) + n
        && n == (if |data| <= old(pos) then 0 else if |data| - old(pos) <= BUFFER_SIZE then |data| - old(pos)
            else BUFFER_SIZE)
        && (n > 0 ==> buf[..n] == data[old(pos)..old(pos) + n])
        && (n == 0 ==> buf[..] == old(buf[..]))
    {
      if !reliable {
        var fails: bool := *;
        if fails {
          return -1;
        }
      }
      n := if |data| <= pos then 0 else if |data| - pos <= BUFFER_SIZE then |data| - pos else BUFFER_SIZE;
      forall i | 0 <= i < n {
        buf[i] := data[pos + i];
      }
      pos := pos + n;
    }

    /** Accepts some bytes, at least one. */
    method Write(buf: array<byte>, lo: nat, hi: nat) returns (n: int)
      requires lo < hi <= buf.Length
      modifies this
      ensures n == -1 ==> !reliable && data == old(data) && pos == old(pos)
      ensures n != -1 ==>
        && 1 <= n <= hi - lo && pos == old(pos) + n && data == Overlay(old(data), old(pos), buf[lo..lo + n])
    {
      if !reliable {
        var fails: bool := *;
        if fails {
          return -1;
        }
      }
      n :| 1 <= n <= hi - lo;
      data := Overlay(data, pos, buf[lo..lo + n]);
      pos := pos + n;
    }
  }

  /** Writing leaves a file as it was exactly when it writes what is there. */
  predicate AlreadyThere(d: seq<byte>, p: nat, w: seq<byte>) {
    w == [] || (p + |w| <= |d| && d[p..p + |w|] == w)
  }

  lemma OverlayKeeps(d: seq<byte>, p: nat, w: seq<byte>)
    ensures Overlay(d, p, w) == d <==> AlreadyThere(d, p, w)
  {
    OverlayAt(d, p, w);
    var r := Overlay(d, p, w);
    hide Overlay;
    if w != [] && r == d {
      assert forall i :: 0 <= i < |w| ==> d[p..p + |w|][i] == r[p + i] == w[i];
    }
  }

  /** The length of a chunk of the file. */
  function ChunkLen(d: seq<byte>, chunk: nat): (n: nat)
    ensures n <= BUFFER_SIZE
  {
    var lo := BUFFER_SIZE * chunk;
    if |d| <= lo then 0 else if |d| - lo <= BUFFER_SIZE then |d| - lo else BUFFER_SIZE
  }

  lemma FirstOf(b: seq<byte>, d: seq<byte>, n: nat, k: nat, l: nat)
    requires l <= k <= |b| && n + k <= |d| && b[..k] == d[n..n + k]
    ensures b[..l] == d[n..n + l]
  {
    assert b[..l] == b[..k][..l] && d[n..n + l] == d[n..n + k][..l];
  }

  // ---- the abstract stream ----

  /** A plain byte sequence with a cursor.  `size` is what SEEK_END counts from. */
  datatype Plain = Plain(contents: seq<byte>, cursor: nat, size: nat)

  /** What the stream has besides: the offset at which the next put lands, how many read bytes the buffer
      holds, and the chunk that it believes to be there. */
  datatype Place = Place(lands: nat, held: nat, chunk: int)

  datatype Whence = SeekSet | SeekCur | SeekEnd | Elsewhere

  function Target(s: Plain, offset: int, whence: Whence): int {
    match whence
    case SeekSet => offset
    case SeekCur => s.cursor + offset
    case SeekEnd => s.size + offset
    case Elsewhere => -1
  }

  function AfterPut(s: Plain, c: byte): Plain {
    Plain(Overlay(s.contents, s.cursor, [c]), s.cursor + 1, s.size + 1)
  }

  function GetResult(s: Plain): int {
    if s.cursor < |s.contents| then s.contents[s.cursor] else SO_EOF
  }

  function AfterGet(s: Plain): Plain {
    s.(cursor := if s.cursor < |s.contents| then s.cursor + 1 else s.cursor)
  }

  /** A get reads the chunk of the cursor, unless it believes to have it. */
  function PlaceAfterGet(s: Plain, h: Place): Place {
    var k := s.cursor / BUFFER_SIZE;
    if h.chunk == k then h else Place(BUFFER_SIZE * k + ChunkLen(s.contents, k), ChunkLen(s.contents, k), k)
  }

  /** Meeting the end of the file also counts as an error if the cursor's chunk is not empty or was read before. */
  predicate EndIsError(s: Plain, chunkNumber: int) {
    chunkNumber == s.cursor / BUFFER_SIZE || s.cursor / BUFFER_SIZE * BUFFER_SIZE < |s.contents|
  }

  datatype Got = Loaded | Nothing | Failed

  class SoFile {
    const disk: Disk
    const buffer: array<byte>
    var cursor: int
    var bufferPos: int
    var size: nat
    var eof: bool
    var errInd: int
    var chunkNumber: int
    var writing: bool

    /** The file as the caller should see it: pending bytes laid over the disk at the descriptor's offset. */
    ghost function Contents(): seq<byte>
      reads `writing, `bufferPos, disk, buffer
    {
      if writing && 0 <= bufferPos <= buffer.Length then Overlay(disk.data, disk.pos, buffer[..bufferPos])
          else disk.data
    }

    /** Where the next put will be in the file. */
    ghost function Lands(): nat
      reads `writing, `bufferPos, disk
    {
      disk.pos + if writing && bufferPos >= 0 then bufferPos else 0
    }

    /** The number of read bytes in the buffer. */
    ghost function Held(): nat
      reads `writing, `bufferPos
    {
      if writing || bufferPos < 0 then 0 else bufferPos
    }

    /** The buffer is the chunk of the file that it says, just read. */
    ghost predicate Cached()
      reads `bufferPos, `chunkNumber, disk, buffer
    {
      var lo := BUFFER_SIZE * chunkNumber;
      && 0 <= bufferPos <= buffer.Length && chunkNumber >= 0
      && bufferPos == ChunkLen(disk.data, chunkNumber) && disk.pos == lo + bufferPos
      && (bufferPos > 0 ==> buffer[..bufferPos] == disk.data[lo..lo + bufferPos])
    }

    /** The buffer no longer is that chunk, but a get in that chunk would be one at the end of the file. */
    ghost predicate Past()
      reads `cursor, `writing, `bufferPos, `chunkNumber, disk, buffer
    {
      && (writing || bufferPos == 0)
      && (cursor / BUFFER_SIZE == chunkNumber ==> cursor >= |Contents()|)
      && (Lands() == cursor || cursor > |Contents()|)
    }

    /** What a put needs of the buffer. */
    ghost predicate Sane()
      reads this
    {
      buffer.Length == BUFFER_SIZE && (writing ==> 1 <= bufferPos <= BUFFER_SIZE - 1)
    }

    ghost predicate Valid()
      reads this, disk, buffer
    {
      && Sane() && cursor >= 0 && chunkNumber >= -1 && |Contents()| <= size && (disk.reliable ==> errInd != -2)
      && (if writing then Lands() == cursor else 0 <= bufferPos <= BUFFER_SIZE)
      && (chunkNumber >= 0 ==> BUFFER_SIZE * chunkNumber <= Lands() && ((!writing && Cached()) || Past()))
    }

    ghost function View(): Plain
      requires cursor >= 0
      reads this, disk, buffer
    {
      Plain(Contents(), cursor, size)
    }

    ghost function At(): Place
      reads this, disk
    {
      Place(Lands(), Held(), chunkNumber)
    }

    /** so_fopen on an existing file, or on a truncated one. */
    constructor (data: seq<byte>, reliable: bool)
      ensures fresh(disk) && fresh(buffer) && disk.reliable == reliable && disk.data == data
      ensures Valid() && View() == Plain(data, 0, |data|) && At() == Place(0, 0, -1) && !eof && errInd == 0
    {
      disk := new Disk(data, reliable);
      buffer := new byte[BUFFER_SIZE](_ => 0);
      cursor, bufferPos, size, eof, errInd, chunkNumber, writing := 0, 0, |data|, false, 0, -1, false;
    }

    /** Writes the buffer out, whatever it holds: a sound stream stays the plain file that it was, with its place,
        exactly when the buffer holds no read bytes; read bytes change the contents unless they are there already. */
    method Flush() returns (rc: int)
      requires 0 <= bufferPos <= buffer.Length
      modifies this, disk
      ensures rc == 0 || (rc == SO_EOF && !disk.reliable && errInd == SO_EOF)
      ensures cursor == old(cursor) && size == old(size) && chunkNumber == old(chunkNumber) && eof == old(eof)
      ensures rc != 0 ==> writing == old(writing) && bufferPos == old(bufferPos)
      ensures rc == 0 ==>
        && disk.data == Overlay(old(disk.data), old(disk.pos), buffer[..old(bufferPos)])
        && disk.pos == old(disk.pos) + old(bufferPos) && bufferPos == 0 && !writing && errInd == old(errInd)
      ensures rc == 0 && old(Valid()) ==>
        (Valid() && View() == old(View()) && At() == old(At()) <==> old(Held()) == 0)
      ensures rc == 0 && old(Valid()) ==>
        (Contents() == old(Contents()) <==>
          old(writing) || AlreadyThere(old(disk.data), old(disk.pos), buffer[..old(bufferPos)]))
    {
      hide Overlay, AlreadyThere;
      var n := 0;
      ghost var d, p, w := disk.data, disk.pos, buffer[..];
      OverlayNothing(d, p);
      if bufferPos != 0 {
        n := disk.Write(buffer, 0, bufferPos);
      }
      if n == -1 {
        errInd := SO_EOF;
        return SO_EOF;
      }
      assert n == 0 ==> w[..n] == [];
      while n < bufferPos
        invariant 0 <= n <= bufferPos == old(bufferPos) && buffer[..] == w
        invariant disk.data == Overlay(d, p, w[..n]) && disk.pos == p + n
        invariant unchanged(this)
      {
        var k := disk.Write(buffer, n, bufferPos);
        if k == -1 {
          errInd := SO_EOF;
          return SO_EOF;
        }
        OverlayTwice(d, p, w[..n], w[n..n + k]);
        assert w[..n] + w[n..n + k] == w[..n + k] && buffer[n..n + k] == w[n..n + k];
        n := n + k;
      }
      assert buffer[..bufferPos] == w[..n];
      OverlayKeeps(d, p, w[..n]);
      bufferPos := 0;
      writing := false;
      return 0;
    }

    lemma CachedPlace()
      requires !writing && Cached()
      ensures At() == Place(BUFFER_SIZE * chunkNumber + ChunkLen(disk.data, chunkNumber),
                            ChunkLen(disk.data, chunkNumber), chunkNumber)
      ensures 0 <= bufferPos <= buffer.Length && disk.pos == BUFFER_SIZE * chunkNumber + bufferPos
      ensures bufferPos > 0 <==> BUFFER_SIZE * chunkNumber < |disk.data|
    {
    }

    /** The chunk of the cursor into the buffer, unless the stream believes it is there. */
    method Load(chunk: nat) returns (got: Got)
      requires Valid() && !writing && chunk == cursor / BUFFER_SIZE
      modifies this, disk, buffer
      ensures got == Failed ==> !disk.reliable && errInd == -2
      ensures eof == old(eof) && (got != Failed ==> errInd == old(errInd))
      ensures got != Failed ==>
        && Valid() && !writing && chunkNumber == chunk && (Cached() || Past())
        && View() == old(View()) && At() == PlaceAfterGet(old(View()), old(At()))
      ensures got == Nothing ==> bufferPos == 0 && !EndIsError(View(), old(chunkNumber))
      ensures got == Loaded ==> EndIsError(View(), old(chunkNumber))
    {
      if chunk != chunkNumber {
        chunkNumber := chunk;
        disk.Seek(BUFFER_SIZE * chunkNumber);
        var n := disk.Read(buffer);
        bufferPos := n;
        if n == -1 {
          errInd := -2;
          return Failed;
        }
        CachedPlace();
        if n == 0 {
          return Nothing;
        }
      }
      return Loaded;
    }

    /** What the buffer says about the byte at the cursor. */
    lemma BufferedByte(at: nat)
      requires !writing && at < BUFFER_SIZE && chunkNumber >= 0 && cursor == BUFFER_SIZE * chunkNumber + at
      requires Cached() || Past()
      ensures at < bufferPos <==> cursor < |disk.data|
      ensures at < bufferPos ==> Cached() && bufferPos <= buffer.Length && buffer[at] == disk.data[cursor]
      ensures at >= bufferPos && cursor == |disk.data| ==> disk.pos == cursor
    {
      if Cached() && at < bufferPos {
        assert buffer[at] == buffer[..bufferPos][at];
      }
    }

    /** A get that met the end of an exact file leaves the stream ready for a put, as ISO C allows after it. */
    method GetC() returns (c: int)
      requires Valid()
      modifies this, disk, buffer
      ensures disk.reliable || c != SO_EOF ==>
        && Valid() && c == GetResult(old(View())) && View() == AfterGet(old(View()))
        && At() == PlaceAfterGet(old(View()), old(At()))
      ensures disk.reliable && c == SO_EOF && old(cursor) == |old(Contents())| ==> Lands() == cursor
      ensures disk.reliable && c == SO_EOF ==> !writing
      ensures disk.reliable ==> eof == (old(eof) || c == SO_EOF)
      ensures disk.reliable ==>
        errInd == if c == SO_EOF && EndIsError(old(View()), old(chunkNumber)) then SO_EOF else old(errInd)
    {
      hide Overlay, AlreadyThere, Cached, Past, ChunkLen, EndIsError, PlaceAfterGet;
      var chunk := cursor / BUFFER_SIZE;
      var at := cursor % BUFFER_SIZE;
      if writing {
        var rc := Flush();
        if rc < 0 {
          return rc;
        }
      }
      var got := Load(chunk);
      if got == Failed {
        return SO_EOF;
      }
      BufferedByte(at);
      if got == Nothing {
        eof := true;
        return SO_EOF;
      }
      if at >= bufferPos {
        eof := true;
        errInd := SO_EOF;
        return SO_EOF;
      }
      writing := false;
      cursor := cursor + 1;
      return buffer[at];
    }

    /** One byte into the buffer. It lands where the descriptor and the bytes pending are; that is the cursor of the
        plain file after puts, seeks, and gets that stopped at the end of a chunk or of the file. */
    method PutC(c: int) returns (r: int)
      requires Sane()
      modifies this, disk, buffer
      ensures Sane() && chunkNumber == old(chunkNumber) && (r == c || (r == SO_EOF && !disk.reliable))
      ensures disk.reliable ==>
        && r == c && errInd == old(errInd) && eof == old(eof) && writing
        && cursor == old(cursor) + 1 && size == old(size) + 1 && Lands() == old(Lands()) + 1
        && Contents() == Overlay(old(Contents()), old(Lands()), [c % 256])
      ensures disk.reliable && old(Valid()) && old(Lands()) == old(cursor) <= old(size) ==>
        Valid() && View() == AfterPut(old(View()), c % 256)
    {
      hide Overlay, AlreadyThere;
      if !writing {
        bufferPos := 0;
      }
      ghost var contents, lands := Contents(), Lands();
      OverlayNothing(disk.data, disk.pos);
      if bufferPos == BUFFER_SIZE - 1 {
        var rc := Flush();
        if rc < 0 {
          errInd := rc;
          return rc;
        }
      }
      ghost var w := buffer[..bufferPos];
      OverlayNothing(disk.data, disk.pos);
      assert bufferPos == 0 ==> w == [];
      assert contents == Overlay(disk.data, disk.pos, w);
      buffer[bufferPos] := c % 256;
      bufferPos := bufferPos + 1;
      assert buffer[..bufferPos] == w + [c % 256];
      OverlayTwice(disk.data, disk.pos, w, [c % 256]);
      OverlayAt(contents, lands, [c % 256]);
      cursor := cursor + 1;
      size := size + 1;
      writing := true;
      return c;
    }

    method Tell() returns (at: int)
      requires Valid()
      ensures at == View().cursor
    {
      return cursor;
    }

    /** A seek out of range fails, but has moved the cursor: a get still answers as a plain file does unless the cursor
        is negative, while a put goes on where it would have, which is not the cursor. No seek clears the
        end-of-file indicator. */
    method Seek(offset: int, whence: Whence) returns (rc: int)
      requires Valid()
      modifies this, disk
      ensures rc == 0 || rc == -1
      ensures eof == old(eof) && (disk.reliable ==> errInd == old(errInd))
      ensures disk.reliable ==> size == old(size) && Contents() == old(Contents())
      ensures var target := Target(old(View()), offset, whence);
        disk.reliable ==>
          && (rc == 0 <==> 0 <= target <= size)
          && (rc == 0 ==> Valid() && cursor == target && At() == Place(target, old(Held()), -1))
          && (rc == -1 && whence == Elsewhere ==> Valid() && cursor == old(cursor) && At() == old(At()))
          && (rc == -1 && whence != Elsewhere ==>
                cursor == target && At() == old(At()) && (Valid() <==> target >= 0)
                && (old(Lands()) <= size ==> Lands() != cursor))
    {
      hide Overlay, AlreadyThere, Cached, ChunkLen;
      rc := 0;
      if writing {
        rc := Flush();
      }
      if rc < 0 {
        errInd := rc;
        return rc;
      }
      match whence {
        case SeekSet => cursor := offset;
        case SeekCur => cursor := cursor + offset;
        case SeekEnd => cursor := size + offset;
        case Elsewhere => return -1;
      }
      if cursor < 0 || cursor > size {
        return -1;
      }
      disk.Seek(cursor);
      chunkNumber := -1;
      return 0;
    }

    /** so_fwrite: one put for each byte; failures are not reported. */
    method Write(data: seq<byte>, itemSize: nat, items: nat) returns (done: nat)
      requires Sane() && itemSize > 0 && |data| == itemSize * items
      modifies this, disk, buffer
      ensures done == items && Sane()
      ensures disk.reliable ==>
        && cursor == old(cursor) + |data| && size == old(size) + |data| && Lands() == old(Lands()) + |data|
        && Contents() == Overlay(old(Contents()), old(Lands()), data) && errInd == old(errInd)
      ensures disk.reliable && old(Valid()) && old(Lands()) == old(cursor) <= old(size) ==>
        Valid() && View() == AfterWrite(old(View()), data)
    {
      hide Overlay, Valid, Lands, Contents;
      var n := 0;
      ghost var contents, lands := Contents(), Lands();
      OverlayNothing(contents, lands);
      assert data[..0] == [];
      while n < |data|
        invariant n <= |data| && Sane()
        invariant disk.reliable ==>
          && cursor == old(cursor) + n && size == old(size) + n && Lands() == lands + n
          && Contents() == Overlay(contents, lands, data[..n]) && errInd == old(errInd)
        invariant disk.reliable && old(Valid()) && lands == old(cursor) <= old(size) ==> Valid()
      {
        OverlayTwice(contents, lands, data[..n], [data[n]]);
        assert data[..n] + [data[n]] == data[..n + 1];
        var r := PutC(data[n]);
        n := n + 1;
      }
      assert data[..n] == data;
      Quotient(itemSize, items);
      return n / itemSize;
    }

    /** The copying loop of so_fread. */
    method CopyOut(ptr: array<byte>, n: nat, k: nat)
      requires k <= buffer.Length && n + k <= ptr.Length && ptr != buffer
      modifies ptr
      ensures ptr[..] == old(ptr[..])[..n] + buffer[..k] + old(ptr[..])[n + k..]
    {
      for i := 0 to k
        invariant forall j :: 0 <= j < ptr.Length ==> ptr[j] == if n <= j < n + i then buffer[j - n] else old(ptr[j])
      {
        ptr[n + i] := buffer[i];
      }
      assert ptr[..] == old(ptr[..])[..n] + buffer[..k] + old(ptr[..])[n + k..];
    }

    lemma Basics()
      requires Valid() && disk.reliable
      ensures cursor >= 0 && errInd != -2
    {
    }

    /** The bytes at offset `n` into the buffer, whatever the stream believes it holds. */
    method ReadAt(n: nat) returns (k: nat)
      requires Valid() && disk.reliable && !writing
      modifies disk, buffer
      ensures disk.data == old(disk.data) && k <= BUFFER_SIZE && (k == 0 <==> n >= |disk.data|)
      ensures n + k <= |disk.data| || k == 0
      ensures k > 0 ==> buffer[..k] == disk.data[n..n + k]
      ensures k == 0 && n == old(disk.pos) ==> Valid() && At() == old(At())
    {
      hide Overlay, AlreadyThere, ChunkLen;
      ghost var b := buffer[..];
      disk.Seek(n);
      k := disk.Read(buffer);
      if k == 0 {
        assert buffer[..] == b;
        assert 0 <= bufferPos <= buffer.Length ==> buffer[..bufferPos] == b[..bufferPos];
      }
    }

    /** What so_fread does when a get found the end: it reads on at offset `n`, the number of bytes it has, and goes
        round again unless there is nothing; of `total` it leaves one byte to be had. */
    method AtEnd(ptr: array<byte>, n: nat, total: nat) returns (m: nat, over: bool)
      requires Valid() && disk.reliable && !writing && |Contents()| <= cursor && n < total <= ptr.Length
      requires ptr != buffer
      modifies this, disk, buffer, ptr
      ensures Contents() == old(Contents()) && size == old(size) && errInd == old(errInd) != -2 && !writing
      ensures eof == over
      ensures over <==> n >= |Contents()|
      ensures over ==> m == n && cursor == old(cursor) && ptr[..] == old(ptr[..])
      ensures over && n == cursor == old(Lands()) ==> Valid() && At() == old(At())
      ensures !over ==> Valid() && n <= m < total && m <= |Contents()| && cursor == old(cursor) + m - n
      ensures !over ==> (m == n <==> n + 1 == total)
      ensures !over ==> ptr[..] == old(ptr[..])[..n] + Contents()[n..m] + old(ptr[..])[m..]
    {
      hide Overlay, AlreadyThere, Cached, Past;
      var k := ReadAt(n);
      if k == 0 {
        eof := true;
        return n, true;
      }
      eof := false;
      m := if n + k < total then n + k else total - 1;
      FirstOf(buffer[..], disk.data, n, k, m - n);
      CopyOut(ptr, n, m - n);
      cursor := cursor + (m - n);
      bufferPos := 0;
      chunkNumber := -1;
      over := false;
    }

    /** One round of the loop of so_fread: a byte, or what is done at the end. */
    method Round(ptr: array<byte>, n: nat, total: nat, ghost s: Plain, ghost p: seq<byte>) returns (m: nat, over: bool)
      requires Valid() && disk.reliable && ptr != buffer && n < total <= ptr.Length == |p| && Stored(s, total, n)
      requires Contents() == s.contents && cursor == s.cursor + n && size == s.size
      requires ptr[..] == StoredBytes(s, total, n) + p[n..]
      modifies this, disk, buffer, ptr
      ensures Contents() == s.contents && cursor == s.cursor + m && size == s.size && errInd != -2
      ensures n <= m <= total && (over ==> m == n) && Stored(s, total, m)
          && ptr[..] == StoredBytes(s, total, m) + p[m..]
      ensures !over || Promised(s, total) ==> Valid()
      ensures over || m == n ==> m == ReadCount(s, total) && (ReadEnds(s, total) <==> over)
    {
      hide Overlay, Cached, Past, Contents, Valid, StoredBytes, AlreadyThere, Stored, Whole, Promised, ReadCount,
        Readable, ReadEnds, Lands, At, PlaceAfterGet, EndIsError;
      Basics();
      StoredStep(s, total, n);
      var c := GetC();
      Basics();
      ghost var q := ptr[..];
      if c == SO_EOF {
        m, over := AtEnd(ptr, n, total);
        if over {
          Finished(s, total, n);
        } else {
          GoneRound(s, total, n, m, p, q);
        }
      } else {
        ptr[n] := c;
        assert ptr[..] == q[n := s.contents[s.cursor + n]];
        StoredOne(s, total, n, p, q);
        m, over := n + 1, false;
      }
    }

    /** The loop of so_fread: the bytes that were stored, and whether it ends. When it has all but one of the bytes
        asked for, and the file is longer than that, every further round stores nothing. */
    method ReadBytes(ptr: array<byte>, total: nat) returns (n: nat, ends: bool)
      requires Valid() && disk.reliable && ptr != buffer && total <= ptr.Length
      modifies this, disk, buffer, ptr
      ensures ends <==> ReadEnds(old(View()), total)
      ensures n == ReadCount(old(View()), total)
      ensures ptr[..] == StoredBytes(old(View()), total, n) + old(ptr[..])[n..]
      ensures Contents() == old(Contents()) && size == old(size) && cursor == old(cursor) + n && errInd != -2
      ensures Promised(old(View()), total) ==> Valid()
    {
      hide Overlay, Cached, Past, Contents, Valid, StoredBytes, AlreadyThere, Stored, Whole, Promised, ReadCount,
        Readable, ReadEnds, Lands, Held, At, PlaceAfterGet, EndIsError;
      Basics();
      ghost var s, p := View(), ptr[..];
      n := 0;
      StoredNone(s, total, p);
      while n < total
        invariant n <= total && Stored(s, total, n) && Valid()
        invariant Contents() == s.contents && cursor == s.cursor + n && size == s.size
        invariant ptr[..] == StoredBytes(s, total, n) + p[n..]
      {
        var m, over := Round(ptr, n, total, s, p);
        if over || m == n {
          return n, over;
        }
        n := m;
      }
      Finished(s, total, n);
      Basics();
      return n, true;
    }

    /** Such further rounds, as many as there are, change nothing: so_fread does not return. */
    method GoRound(ptr: array<byte>, n: nat, total: nat, rounds: nat)
      requires Valid() && disk.reliable && |Contents()| <= cursor && ptr != buffer
      requires n < |Contents()| && total == n + 1 <= ptr.Length
      modifies this, disk, buffer, ptr
      ensures Valid() && View() == old(View()) && ptr[..] == old(ptr[..])
    {
      hide Overlay, Cached, Past, Contents, Valid, AlreadyThere;
      Basics();
      for i := 0 to rounds
        invariant Valid() && cursor >= 0 && View() == old(View()) && ptr[..] == old(ptr[..])
      {
        var c := GetC();
        ghost var q := ptr[..];
        var m, over := AtEnd(ptr, n, total);
        Basics();
        assert q[..n] + Contents()[n..n] + q[n..] == q;
      }
    }

    /** so_fread: the number of whole items, or nothing if it never returns. */
    method Read(ptr: array<byte>, itemSize: nat, items: nat) returns (done: Option<nat>)
      requires Valid() && disk.reliable && itemSize > 0 && ptr != buffer && itemSize * items <= ptr.Length
      modifies this, disk, buffer, ptr
      ensures done == if ReadEnds(old(View()), itemSize * items)
                      then Some(ReadCount(old(View()), itemSize * items) / itemSize) else None
      ensures var n := ReadCount(old(View()), itemSize * items);
        && ptr[..] == StoredBytes(old(View()), itemSize * items, n) + old(ptr[..])[n..]
        && Contents() == old(Contents()) && size == old(size) && cursor == old(cursor) + n
      ensures Promised(old(View()), itemSize * items) ==> Valid()
    {
      hide Whole, ReadCount, ReadEnds, StoredBytes;
      var n, ends := ReadBytes(ptr, itemSize * items);
      done := if ends then Some(n / itemSize) else None;
    }

    /** so_fclose: nothing stays behind in the buffer. */
    method Close() returns (rc: int)
      requires Valid()
      modifies this, disk
      ensures disk.reliable ==> rc == 0 && disk.data == old(Contents())
    {
      rc := 0;
      if writing {
        rc := Flush();
      }
    }
  }

  // ---- reading many bytes ----

  /** How much of `total` bytes the file still has. */
  function Readable(s: Plain, total: nat): (n: nat)
    ensures n <= total && (n > 0 ==> s.cursor + n <= |s.contents|)
  {
    if s.cursor + total <= |s.contents| then total
    else if s.cursor <= |s.contents| then |s.contents| - s.cursor else 0
  }

  /** so_fread starts at the beginning of the file or stays inside it. */
  predicate Whole(s: Plain, total: nat) {
    total == 0 || s.cursor == 0 || s.contents == [] || s.cursor + total <= |s.contents|
  }

  /** The same, with the cursor inside the file. */
  predicate Promised(s: Plain, total: nat) { Whole(s, total) && (s.contents != [] || s.cursor == 0) }

  /** When so_fread returns. */
  predicate ReadEnds(s: Plain, total: nat) { Whole(s, total) || total > |s.contents| }

  /** The bytes it counts. */
  function ReadCount(s: Plain, total: nat): nat {
    if Whole(s, total) then Readable(s, total)
    else if total > |s.contents| then |s.contents| else total - 1
  }

  /** The first `n` bytes it stores: those at the cursor, then those at the offset equal to their number. */
  function StoredBytes(s: Plain, total: nat, n: nat): (r: seq<byte>)
    requires Stored(s, total, n)
    ensures |r| == n
  {
    var m := Readable(s, total);
    var k := if n < m then n else m;
    (if k == 0 then [] else s.contents[s.cursor..s.cursor + k]) + if n <= m then [] else s.contents[m..n]
  }

  predicate Stored(s: Plain, total: nat, n: nat) {
    n <= Readable(s, total) || (n <= |s.contents| && n < total && !Whole(s, total))
  }

  /** so_fread returns and counts what the file still had if and only if it is whole. */
  lemma ReadExactly(s: Plain, total: nat)
    ensures ReadEnds(s, total) && ReadCount(s, total) == Readable(s, total) <==> Whole(s, total)
    ensures Stored(s, total, ReadCount(s, total))
  {
  }

  /** A whole read stores the bytes at the cursor. */
  lemma WholeGot(s: Plain, total: nat)
    requires Whole(s, total)
    ensures var n := ReadCount(s, total);
      Stored(s, total, n) && StoredBytes(s, total, n) == if n == 0 then [] else s.contents[s.cursor..s.cursor + n]
  {
  }

  lemma StoredNone(s: Plain, total: nat, p: seq<byte>)
    ensures Stored(s, total, 0) && p == StoredBytes(s, total, 0) + p[0..]
  {
  }

  /** A get meets the end exactly when all readable bytes are there. */
  lemma StoredStep(s: Plain, total: nat, n: nat)
    requires n < total && Stored(s, total, n)
    ensures s.cursor + n < |s.contents| <==> n < Readable(s, total)
  {
  }

  lemma StoredOne(s: Plain, total: nat, n: nat, p: seq<byte>, q: seq<byte>)
    requires n < |p| && n < Readable(s, total) && q == StoredBytes(s, total, n) + p[n..]
    ensures |q| == |p| && Stored(s, total, n + 1)
    ensures q[n := s.contents[s.cursor + n]] == StoredBytes(s, total, n + 1) + p[n + 1..]
  {
  }

  /** The loop stops with all bytes asked for, or when nothing is at the offset of their number. */
  lemma Finished(s: Plain, total: nat, n: nat)
    requires Stored(s, total, n) && n <= total
    requires n == total || (n >= Readable(s, total) && n >= |s.contents|)
    ensures n == ReadCount(s, total) && ReadEnds(s, total)
    ensures Promised(s, total) && n < total ==> s.cursor == 0 && n == |s.contents|
  {
  }

  lemma GoneRound(s: Plain, total: nat, n: nat, m: nat, p: seq<byte>, q: seq<byte>)
    requires Stored(s, total, n) && n < total <= |p| && Readable(s, total) <= n < |s.contents|
    requires n <= m < total && m <= |s.contents| && q == StoredBytes(s, total, n) + p[n..]
    ensures !Whole(s, total) && Stored(s, total, m)
    ensures q[..n] + s.contents[n..m] + q[m..] == StoredBytes(s, total, m) + p[m..]
    ensures n + 1 == total ==> n == ReadCount(s, total) && !ReadEnds(s, total)
  {
    assert q[m..] == p[m..] && q[..n] == StoredBytes(s, total, n);
    assert StoredBytes(s, total, m) == StoredBytes(s, total, n) + s.contents[n..m];
  }

  function AfterWrite(s: Plain, data: seq<byte>): Plain {
    Plain(Overlay(s.contents, s.cursor, data), s.cursor + |data|, s.size + |data|)
  }

  lemma AtLeastOne(a: nat, k: int)
    requires k >= 1
    ensures a * k >= a
  {
  }

  lemma Quotient(a: nat, b: nat)
    requires a > 0
    ensures a * b / a == b
  {
    var d := a * b / a;
    var r := a * b - a * d;
    assert 0 <= r < a;
    assert a * (b - d) == r;
    if b > d {
      AtLeastOne(a, b - d);
    } else if b < d {
      AtLeastOne(a, d - b);
    }
  }

  /** What a read from the start stores. */
  lemma FromStart(data: seq<byte>, size: nat, total: nat)
    ensures var s := Plain(data, 0, size); var n := if |data| < total then |data| else total;
      ReadEnds(s, total) && ReadCount(s, total) == n && Stored(s, total, n) && StoredBytes(s, total, n) == data[..n]
  {
  }

  /** Bytes written to a new stream, after a seek to the start, are read back, up to the number asked for. */
  method WriteSeekRead(f: SoFile, data: seq<byte>, ptr: array<byte>) returns (done: nat)
    requires f.Valid() && f.disk.reliable && f.View() == Plain([], 0, 0) && f.At() == Place(0, 0, -1)
    requires ptr != f.buffer
    modifies f, f.disk, f.buffer, ptr
    ensures done == if |data| < ptr.Length then |data| else ptr.Length
    ensures ptr[..] == data[..done] + old(ptr[..])[done..]
  {
    hide ReadEnds, ReadCount, StoredBytes, Overlay, Whole, AlreadyThere;
    var w := f.Write(data, 1, |data|);
    OverlayOnEmpty(data);
    assert f.Contents() == data;
    var rc := f.Seek(0, SeekSet);
    FromStart(data, f.size, ptr.Length);
    hide SoFile.Valid;
    var r := f.Read(ptr, 1, ptr.Length);
    done := r.value;
  }

  lemma OverlayOnEmpty(data: seq<byte>)
    ensures Overlay([], 0, data) == data
  {
  }

  // ---- any interleaving of operations ----

  datatype Op = Put(c: int) | Get | SeekTo(offset: int, whence: Whence) | FlushNow | TellNow

  /** What a plain file does: a seek out of range fails and moves nothing. */
  function After(s: Plain, op: Op): Plain {
    match op
    case Put(c) => AfterPut(s, c % 256)
    case Get => AfterGet(s)
    case SeekTo(offset, whence) =>
      var target := Target(s, offset, whence);
      if 0 <= target <= s.size then s.(cursor := target) else s
    case _ => s
  }

  function Output(s: Plain, op: Op): int {
    match op
    case Put(c) => c
    case Get => GetResult(s)
    case SeekTo(offset, whence) => if 0 <= Target(s, offset, whence) <= s.size then 0 else -1
    case FlushNow => 0
    case TellNow => s.cursor
  }

  function AfterAll(s: Plain, ops: seq<Op>): Plain
    decreases |ops|
  {
    if ops == [] then s else AfterAll(After(s, ops[0]), ops[1..])
  }

  function Outputs(s: Plain, ops: seq<Op>): seq<int>
    decreases |ops|
  {
    if ops == [] then [] else [Output(s, ops[0])] + Outputs(After(s, ops[0]), ops[1..])
  }

  /** A put lands at the cursor, a flush finds no read bytes, a seek stays in range or has no known origin. */
  predicate Legal(s: Plain, h: Place, op: Op) {
    match op
    case Put(_) => h.lands == s.cursor <= s.size
    case SeekTo(offset, whence) => whence == Elsewhere || 0 <= Target(s, offset, whence) <= s.size
    case FlushNow => h.held == 0
    case _ => true
  }

  function PlaceAfter(s: Plain, h: Place, op: Op): Place {
    match op
    case Put(_) => Place(h.lands + 1, 0, h.chunk)
    case Get => PlaceAfterGet(s, h)
    case SeekTo(_, whence) => if whence == Elsewhere then h else Place(After(s, op).cursor, h.held, -1)
    case _ => h
  }

  predicate AllLegal(s: Plain, h: Place, ops: seq<Op>)
    decreases |ops|
  {
    ops == [] || (Legal(s, h, ops[0]) && AllLegal(After(s, ops[0]), PlaceAfter(s, h, ops[0]), ops[1..]))
  }

  /** ISO C, section 7.21.5.3, allows a put after a get only behind a seek or at the end of the file: both are
      legal here, and so are puts after puts. */
  lemma PutAllowed(f: SoFile, offset: int, whence: Whence, c: byte, d: int)
    requires f.Valid() && f.cursor <= f.size && 0 <= Target(f.View(), offset, whence) <= f.size
    ensures var s, h := f.View(), f.At();
      && Legal(After(s, SeekTo(offset, whence)), PlaceAfter(s, h, SeekTo(offset, whence)), Put(d))
      && (Legal(s, h, Put(c)) ==> Legal(After(s, Put(c)), PlaceAfter(s, h, Put(c)), Put(d)))
      && (s.cursor == |s.contents| ==> Legal(After(s, Get), PlaceAfter(s, h, Get), Put(d)))
  {
    hide Overlay;
  }

  /** A put that lands elsewhere is not the put of a plain file: for some byte the contents differ. */
  lemma PutLandsExactly(s: Plain, lands: nat)
    ensures (forall c: byte :: Overlay(s.contents, lands, [c]) == AfterPut(s, c).contents) <==> lands == s.cursor
  {
    if lands != s.cursor {
      var c: byte := if lands < |s.contents| then s.contents[lands] as int % 255 + 1 else 1;
      OverlayAt(s.contents, lands, [c]);
      OverlayAt(s.contents, s.cursor, [c]);
      hide Overlay;
      assert Overlay(s.contents, lands, [c]) != AfterPut(s, c).contents by {
        if lands < |Overlay(s.contents, s.cursor, [c])| {
          assert Overlay(s.contents, lands, [c])[lands] == c;
        }
      }
    }
  }

  method Perform(f: SoFile, op: Op) returns (out: int)
    requires f.Valid() && f.disk.reliable && Legal(f.View(), f.At(), op)
    modifies f, f.disk, f.buffer
    ensures f.Valid() && f.View() == After(old(f.View()), op) && out == Output(old(f.View()), op)
    ensures f.At() == PlaceAfter(old(f.View()), old(f.At()), op)
  {
    hide Overlay, AlreadyThere;
    match op {
      case Put(c) => out := f.PutC(c);
      case Get => out := f.GetC();
      case SeekTo(offset, whence) => out := f.Seek(offset, whence);
      case FlushNow => out := f.Flush();
      case TellNow => out := f.Tell();
    }
  }

  /** The buffered stream is a plain file: every legal sequence of operations gives the same answers and
      leaves the same contents, cursor and size. */
  method Replay(f: SoFile, ops: seq<Op>) returns (outs: seq<int>)
    requires f.Valid() && f.disk.reliable && AllLegal(f.View(), f.At(), ops)
    modifies f, f.disk, f.buffer
    ensures f.Valid() && f.View() == AfterAll(old(f.View()), ops) && outs == Outputs(old(f.View()), ops)
  {
    outs := [];
    var i := 0;
    ghost var s := f.View();
    assert ops[0..] == ops;
    while i < |ops|
      invariant 0 <= i <= |ops| && f.Valid() && AllLegal(f.View(), f.At(), ops[i..])
      invariant AfterAll(s, ops) == AfterAll(f.View(), ops[i..])
      invariant Outputs(s, ops) == outs + Outputs(f.View(), ops[i..])
    {
      hide Overlay, Legal, PlaceAfter, After, Output;
      assert ops[i..][0] == ops[i] && ops[i..][1..] == ops[i + 1..];
      var out := Perform(f, ops[i]);
      outs := outs + [out];
      i := i + 1;
    }
    assert ops[i..] == [];
  }

  lemma {:induction false} SizeGrows(s: Plain, ops: seq<Op>)
    ensures AfterAll(s, ops).size >= s.size
    decreases |ops|
  {
    hide Overlay;
    if ops != [] {
      SizeGrows(After(s, ops[0]), ops[1..]);
    }
  }

  /** A position that so_ftell gave can be sought back to, whatever legal operations came between. */
  method TellReturns(f: SoFile, ops: seq<Op>) returns (rc: int)
    requires f.Valid() && f.disk.reliable && f.cursor <= f.size && AllLegal(f.View(), f.At(), ops)
    modifies f, f.disk, f.buffer
    ensures rc == 0 && f.Valid()
    ensures f.View() == AfterAll(old(f.View()), ops).(cursor := old(f.cursor)) && f.Lands() == f.cursor
  {
    var at := f.Tell();
    ghost var s := f.View();
    var outs := Replay(f, ops);
    SizeGrows(s, ops);
    rc := f.Seek(at, SeekSet);
  }

  // ---- what a caller sees of seeks ----

  /** Where a seek goes, in the words of the three origins, and the range in which it succeeds. */
  method SeekFrom(f: SoFile, offset: int, whence: Whence) returns (before: int, rc: int, after: int)
    requires f.Valid() && f.disk.reliable
    modifies f, f.disk
    ensures before == old(f.cursor)
    ensures whence == SeekSet ==> (rc == 0 <==> 0 <= offset <= old(f.size)) && (rc == 0 ==> after == offset)
    ensures whence == SeekCur ==>
      (rc == 0 <==> -before <= offset <= old(f.size) - before) && (rc == 0 ==> after - before == offset)
    ensures whence == SeekEnd && old(f.size) == |old(f.Contents())| ==>
      (rc == 0 <==> -|old(f.Contents())| <= offset <= 0) && (rc == 0 ==> |old(f.Contents())| - after == -offset)
    ensures whence == Elsewhere ==> rc == -1 && f.Valid() && f.View() == old(f.View())
    ensures rc == 0 ==>
      after >= 0 && f.Valid() && f.View() == Plain(old(f.Contents()), after, old(f.size)) && f.Lands() == after
  {
    before := f.Tell();
    rc := f.Seek(offset, whence);
    after := if rc == 0 then f.cursor else before;
  }

  /** The same of the plain file that Replay compares with. */
  lemma SeekMeans(s: Plain, offset: int, whence: Whence)
    requires s.cursor <= s.size
    ensures var (out, t) := (Output(s, SeekTo(offset, whence)), After(s, SeekTo(offset, whence)));
      && t.contents == s.contents && t.size == s.size && (out == 0 || (out == -1 && t == s))
      && (whence == SeekSet ==> (out == 0 <==> 0 <= offset <= s.size) && (out == 0 ==> t.cursor == offset))
      && (whence == SeekCur ==>
            (out == 0 <==> 0 <= s.cursor + offset <= s.size) && (out == 0 ==> t.cursor - s.cursor == offset))
      && (whence == SeekEnd ==> (out == 0 <==> 0 <= -offset <= s.size) && (out == 0 ==> s.size - t.cursor == -offset))
      && (whence == Elsewhere ==> out == -1)
  {
  }

  /** A seek to the end of a file of exact size finds it: a get there has nothing to give, and a put appends. */
  method Append(f: SoFile, c: byte) returns (at: int, got: int)
    requires f.Valid() && f.disk.reliable && f.size == |f.Contents()|
    modifies f, f.disk, f.buffer
    ensures at == |old(f.Contents())| && got == -1 && f.eof
    ensures f.Valid() && f.View() == Plain(old(f.Contents()) + [c], at + 1, at + 1)
  {
    hide Overlay, AlreadyThere;
    var rc := f.Seek(0, SeekEnd);
    at := f.Tell();
    got := f.GetC();
    var r := f.PutC(c);
    OverlayAtEnd(old(f.Contents()), c);
  }

  lemma OverlayAtEnd(d: seq<byte>, c: byte)
    ensures Overlay(d, |d|, [c]) == d + [c]
  {
  }

  // ---- where the stream is less than a plain file ----

  /** The size that SEEK_END counts from stays exact through a put exactly when the put appends. */
  lemma SizeExact(s: Plain, c: byte)
    requires s.size == |s.contents| && s.cursor <= s.size
    ensures AfterPut(s, c).size == |AfterPut(s, c).contents| <==> s.cursor == |s.contents|
    ensures AfterPut(s, c).size > |AfterPut(s, c).contents| <==> s.cursor < |s.contents|
  {
    OverlayAt(s.contents, s.cursor, [c]);
  }

  /** Flushing a stream that has just read a small file writes the file once more behind itself. */
  method FlushAfterRead(f: SoFile) returns (rc: int)
    requires f.Valid() && f.disk.reliable && !f.writing && f.chunkNumber == 0 && f.Cached()
    requires 0 < |f.disk.data| <= BUFFER_SIZE
    modifies f, f.disk
    ensures f.disk.data == old(f.disk.data) + old(f.disk.data)
  {
    ghost var d := f.disk.data;
    OverlayAt(d, |d|, d);
    assert f.buffer[..f.bufferPos] == d;
    rc := f.Flush();
  }
}
