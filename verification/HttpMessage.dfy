/** Header lists, the empty line, and bodies by length and by chunks: what runs over their printed forms deliver.  */
module HttpMessage {
  import opened HttpModel
  import opened HttpGrammar
  import opened HttpRun
  import opened HttpHeaders
  import opened HttpLine

  // ---- header lists ----

  datatype FieldLine = FieldLine(header: Header, gap: nat, eol: string)

  predicate GoodLines(ls: seq<FieldLine>) {
    forall i :: 0 <= i < |ls| ==> Good(ls[i].header) && IsEol(ls[i].eol)
  }

  function LinesText(ls: seq<FieldLine>): string {
    if ls == [] then "" else LineText(ls[0].header, ls[0].gap, ls[0].eol) + LinesText(ls[1..])
  }

  function LinesEvents(ls: seq<FieldLine>): seq<Event> {
    if ls == [] then []
    else [Data(Field, ls[0].header.name), Data(Value, ls[0].header.value)] + LinesEvents(ls[1..])
  }

  function ApplyAll(e: Effect, ls: seq<FieldLine>): Effect
    decreases |ls|
  {
    if ls == [] then e else ApplyAll(Apply(e, ls[0].header), ls[1..])
  }

  lemma {:induction false} LinesRun(c: Config, ls: seq<FieldLine>) returns (d: Config)
    requires c.p.state == HeaderFieldStart && c.url == "" && c.part == "" && GoodLines(ls) && Room(c, |LinesText(ls)|)
    ensures Reaches(c, LinesText(ls), d)
    ensures var e := ApplyAll(Effect(c.p.flags, c.p.contentLength), ls);
      d == Later(c, |LinesText(ls)|,
                 c.p.(header := d.p.header, index := d.p.index, flags := e.flags, contentLength := e.contentLength),
                 "", LinesEvents(ls))
    decreases |ls|
  {
    hide Reaches, Apply, LineText, Good;
    if ls == [] {
      ReachNone(c);
      assert c.trace + [] == c.trace;
      return c;
    }
    var e := LineRun(c, ls[0].header, ls[0].gap, ls[0].eol);
    d := LinesRun(e, ls[1..]);
    Chain(c, LineText(ls[0].header, ls[0].gap, ls[0].eol), e, LinesText(ls[1..]), d);
    var first := [Data(Field, ls[0].header.name), Data(Value, ls[0].header.value)];
    assert c.trace + first + LinesEvents(ls[1..]) == c.trace + (first + LinesEvents(ls[1..]));
  }

  // ---- what the flags of a header list mean ----

  predicate Announces(l: FieldLine, name: string, value: string) {
    Says(l.header.name, name) && Says(l.header.value, value)
  }

  predicate Connects(l: FieldLine, value: string) {
    IsConnection(l.header.name) && Says(l.header.value, value)
  }

  predicate Sizes(l: FieldLine) { Says(l.header.name, CONTENT_LENGTH) && l.header.value != "" }

  predicate Upgrades(l: FieldLine) { Says(l.header.name, UPGRADE) && l.header.value != "" }

  /** What one line announces. */
  lemma LineMeans(e: Effect, l: FieldLine)
    ensures var r := Apply(e, l.header);
      && (r.flags.chunked <==> e.flags.chunked || Announces(l, TRANSFER_ENCODING, CHUNKED))
      && (r.flags.keepAlive <==> e.flags.keepAlive || Connects(l, KEEP_ALIVE))
      && (r.flags.close <==> e.flags.close || Connects(l, CLOSE))
      && (r.flags.upgrade <==> e.flags.upgrade || Upgrades(l))
      && r.flags.trailing == e.flags.trailing
      && r.contentLength == if Sizes(l) then LengthOf(0, l.header.value) else e.contentLength
  {
    hide Says, LengthOf;
  }

  /** Each flag is set exactly when some line announces it, and the length is that of the last line
      that has one. */
  lemma {:induction false} FlagsMean(e: Effect, ls: seq<FieldLine>)
    ensures var f := ApplyAll(e, ls).flags;
      && (f.chunked <==> e.flags.chunked || exists i :: 0 <= i < |ls| && Announces(ls[i], TRANSFER_ENCODING, CHUNKED))
      && (f.keepAlive <==> e.flags.keepAlive || exists i :: 0 <= i < |ls| && Connects(ls[i], KEEP_ALIVE))
      && (f.close <==> e.flags.close || exists i :: 0 <= i < |ls| && Connects(ls[i], CLOSE))
      && (f.upgrade <==> e.flags.upgrade || exists i :: 0 <= i < |ls| && Upgrades(ls[i]))
      && f.trailing == e.flags.trailing
    ensures (forall i :: 0 <= i < |ls| ==> !Sizes(ls[i])) ==> ApplyAll(e, ls).contentLength == e.contentLength
    ensures forall k :: 0 <= k < |ls| && Sizes(ls[k]) && (forall i :: k < i < |ls| ==> !Sizes(ls[i]))
              ==> ApplyAll(e, ls).contentLength == LengthOf(0, ls[k].header.value)
    decreases |ls|
  {
    hide LengthOf, Apply, Announces, Connects, Sizes, Upgrades;
    if ls != [] {
      LineMeans(e, ls[0]);
      var rest := ls[1..];
      assert forall i :: 0 < i < |ls| ==> ls[i] == rest[i-1];
      assert forall i :: 0 <= i < |rest| ==> rest[i] == ls[i+1];
      FlagsMean(Apply(e, ls[0].header), rest);
    }
  }

  // ---- the empty line ----

  /** What the blank line after the headers of an ordinary request leads to. */
  function AfterHeaders(p: Parser): Parser {
    var q := p.(nread := 0);
    q.(state := if p.flags.chunked then ChunkSizeStart
                else if p.contentLength == 0 then NewMessage(q) else BodyIdentity)
  }

  predicate Ordinary(p: Parser) { !p.upgrade && !p.flags.upgrade && p.verb != CONNECT }

  lemma BlankStep(p: Parser)
    requires p.state == HeadersAlmostDone && !p.flags.trailing && Ordinary(p)
    ensures StepHeadersEnd(p, LF) ==
            Next(AfterHeaders(p), if !p.flags.chunked && p.contentLength == 0 then [HeadersComplete, MessageComplete]
                                  else [HeadersComplete])
  {
  }

  lemma CarriageReturn(c: Config) returns (d: Config)
    requires c.p.state == HeaderFieldStart && c.url == "" && Room(c, 1)
    ensures Reaches(c, "\r", d) && d == Later(c, 1, c.p.(state := HeadersAlmostDone), "", [])
  {
    var q := c.p.(nread := c.p.nread + 1, state := HeadersAlmostDone);
    assert Step(c.p, CR) == Next(q, []);
    ReachOne(c, CR, q, []);
    d := Advance(c, CR, q, []);
    hide Step;
  }

  function BlankEvents(p: Parser): seq<Event> {
    if p.flags.trailing then [MessageComplete]
    else if !p.flags.chunked && p.contentLength == 0 then [HeadersComplete, MessageComplete]
    else [HeadersComplete]
  }

  function AfterBlank(p: Parser): Parser {
    if p.flags.trailing then p.(state := NewMessage(p)) else AfterHeaders(p)
  }

  lemma FinalStep(p: Parser)
    requires p.state == HeaderFieldStart || p.state == HeadersAlmostDone
    requires p.nread < MAX_HEADER && (p.flags.trailing || Ordinary(p))
    ensures var q := AfterBlank(p.(nread := p.nread + 1));
      Step(p, LF) == Next(q, BlankEvents(p)) && !UrlOpen(q.state) && (OpenPart(q) == Closed
          || OpenPart(q) == Open(Body))
  {
    hide Step;
    var p' := p.(nread := p.nread + 1, state := HeadersAlmostDone);
    if !p.flags.trailing {
      BlankStep(p');
    }
    Below(p, LF);
    assert Step(p, LF) == StepHeadersEnd(p', LF);
    hide Dispatch;
    assert StepHeadersEnd(p', LF) == Next(AfterBlank(p.(nread := p.nread + 1)), BlankEvents(p));
    hide StepHeadersEnd;
  }

  lemma FinalFeed(c: Config) returns (d: Config)
    requires c.p.state == HeaderFieldStart || c.p.state == HeadersAlmostDone
    requires c.url == "" && Room(c, 1) && (c.p.flags.trailing || Ordinary(c.p))
    ensures Reaches(c, "\n", d)
    ensures var q := AfterBlank(c.p.(nread := c.p.nread + 1));
      d == Config(q, "", "", c.trace + BlankEvents(c.p), c.pos + 1)
  {
    FinalStep(c.p);
    hide Step, AfterBlank, BlankEvents;
    var q := AfterBlank(c.p.(nread := c.p.nread + 1));
    ReachOne(c, LF, q, BlankEvents(c.p));
    d := Advance(c, LF, q, BlankEvents(c.p));
    assert OpenPart(c.p) == Closed && !UrlOpen(c.p.state);
    assert c.trace + Clear(c, LF, q) + BlankEvents(c.p) == c.trace + BlankEvents(c.p);
  }

  lemma BlankRun(c: Config, eol: string) returns (d: Config)
    requires c.p.state == HeaderFieldStart && c.url == "" && IsEol(eol) && Room(c, |eol|)
    requires c.p.flags.trailing || Ordinary(c.p)
    ensures Reaches(c, eol, d)
    ensures d == Config(AfterBlank(c.p.(nread := c.p.nread + |eol|)), "", "", c.trace + BlankEvents(c.p), c.pos + |eol|)
  {
    hide Reaches;
    if eol == "\r\n" {
      var e := CarriageReturn(c);
      d := FinalFeed(e);
      Chain(c, "\r", e, "\n", d);
      assert "\r" + "\n" == "\r\n";
      assert c.trace + [] + BlankEvents(c.p) == c.trace + BlankEvents(c.p);
    } else {
      d := FinalFeed(c);
    }
  }

  // ---- bodies ----

  lemma BodyRun(c: Config, data: string) returns (d: Config)
    requires InBody(c.p) && c.url == "" && c.part == "" && data != "" && |data| == c.p.contentLength
    ensures Reaches(c, data, d)
    ensures d == Config(AfterBody(c.p, |data|), "", "",
                        c.trace + [Data(Body, data)] + (if c.p.state == BodyIdentity then [MessageComplete] else []),
                        c.pos + |data|)
  {
    BulkIsBytewise(c, data, |data|);
    d := AfterBodyConfig(c, data);
    assert data[..|data|] == data && data[|data|..] == "";
    RunDone(d);
    assert c.part + data == data;
    var events := if c.p.state == BodyIdentity then [MessageComplete] else [];
    assert c.trace + ([Data(Body, data)] + events) == c.trace + [Data(Body, data)] + events;
    hide RunFrom, InBody, AfterBody;
  }

  // ---- chunk sizes ----

  predicate IsSize(s: string) { forall j :: 0 <= j < |s| ==> SizeChar(s[j]) }

  /** The number that digits spell after `n`, in a size_t. */
  function SizeOf(n: nat, s: string): nat
    requires IsSize(s)
    decreases |s|
  {
    if s == "" then n else SizeOf((n * 16 + SizeValue(s[0])) % SIZE_LIMIT, s[1..])
  }

  lemma SizeByte(c: Config, ch: char) returns (d: Config)
    requires c.p.state == ChunkSize && c.url == "" && Room(c, 1) && c.p.flags.chunked && SizeChar(ch)
    ensures Reaches(c, [ch], d)
    ensures d == Later(c, 1, c.p.(contentLength := (c.p.contentLength * 16 + SizeValue(ch)) % SIZE_LIMIT), "", [])
  {
    hide SizeChar, SizeValue, Unhex, Step, Reaches, Advance;
    var q := c.p.(nread := c.p.nread + 1, contentLength := (c.p.contentLength * 16 + SizeValue(ch)) % SIZE_LIMIT);
    SizeStep(c.p, ch);
    ClosedAdvance(c, ch, q, []);
    ReachOne(c, ch, q, []);
    d := Advance(c, ch, q, []);
  }

  lemma SizeStep(p: Parser, ch: char)
    requires p.state == ChunkSize && p.nread < MAX_HEADER && p.flags.chunked && SizeChar(ch)
    ensures Step(p, ch) == Next(p.(nread := p.nread + 1,
                                   contentLength := (p.contentLength * 16 + SizeValue(ch)) % SIZE_LIMIT), [])
  {
    SizeTable(ch);
    assert !SizeChar('\r');
    hide SizeChar, SizeValue, Unhex, Step;
    Below(p, ch);
  }

  lemma FirstSizeByte(c: Config, ch: char) returns (d: Config)
    requires c.p.state == ChunkSizeStart && c.url == "" && c.p.nread == 0 && c.p.flags.chunked && SizeChar(ch)
    ensures Reaches(c, [ch], d)
    ensures d == Later(c, 1, c.p.(state := ChunkSize, contentLength := SizeValue(ch)), "", [])
  {
    hide SizeChar, SizeValue, Unhex, Step, Reaches, Advance;
    var q := c.p.(nread := 1, state := ChunkSize, contentLength := SizeValue(ch));
    FirstSizeStep(c.p, ch);
    ClosedAdvance(c, ch, q, []);
    ReachOne(c, ch, q, []);
    d := Advance(c, ch, q, []);
  }

  lemma FirstSizeStep(p: Parser, ch: char)
    requires p.state == ChunkSizeStart && p.nread == 0 && p.flags.chunked && SizeChar(ch)
    ensures Step(p, ch) == Next(p.(nread := 1, state := ChunkSize, contentLength := SizeValue(ch)), [])
  {
    SizeTable(ch);
    hide SizeChar, SizeValue, Unhex, Step;
    Below(p, ch);
  }

  lemma {:induction false} MoreSize(c: Config, s: string) returns (d: Config)
    requires c.p.state == ChunkSize && c.url == "" && c.part == "" && Room(c, |s|) && c.p.flags.chunked && IsSize(s)
    ensures Reaches(c, s, d)
    ensures d == Later(c, |s|, c.p.(contentLength := SizeOf(c.p.contentLength, s)), "", [])
    decreases |s|
  {
    hide Reaches, SizeChar, SizeValue;
    assert c.trace + [] == c.trace;
    if s == "" {
      ReachNone(c);
      return c;
    }
    var e := SizeByte(c, s[0]);
    d := MoreSize(e, s[1..]);
    Chain(c, [s[0]], e, s[1..], d);
    assert [s[0]] + s[1..] == s;
  }

  /** A chunk size is read, in upper or lower case, with zeros in front or not. */
  lemma SizeRun(c: Config, s: string) returns (d: Config)
    requires c.p.state == ChunkSizeStart && c.url == "" && c.p.nread == 0 && c.p.flags.chunked
    requires s != "" && IsSize(s) && |s| <= MAX_HEADER
    ensures Reaches(c, s, d)
    ensures d == Later(c, |s|, c.p.(state := ChunkSize, contentLength := SizeOf(0, s)), "", [])
  {
    hide Reaches, SizeChar, SizeOf, SizeValue;
    SizeFirst(s);
    var e := FirstSizeByte(c, s[0]);
    d := MoreSize(e, s[1..]);
    Chain(c, [s[0]], e, s[1..], d);
    assert [s[0]] + s[1..] == s;
    assert c.trace + [] + [] == c.trace + [];
  }

  lemma SmallSize(v: nat)
    requires v < 16
    ensures (0 * 16 + v) % SIZE_LIMIT == v
  {
  }

  lemma SizeFirst(s: string)
    requires s != "" && IsSize(s)
    ensures IsSize(s[1..]) && SizeOf(0, s) == SizeOf(SizeValue(s[0]), s[1..])
  {
    hide SizeChar, SizeValue;
    var v := SizeValue(s[0]);
    SmallSize(v);
  }

  function HexDigit(d: nat): char
    requires d < 16
  {
    if d < 10 then (d + '0' as int) as char else (d - 10 + 'a' as int) as char
  }

  function Hex(n: nat): (s: string)
    ensures s != ""
  {
    if n < 16 then [HexDigit(n)] else Hex(n / 16) + [HexDigit(n % 16)]
  }

  lemma HexDigitRead(d: nat)
    requires d < 16
    ensures SizeChar(HexDigit(d)) && SizeValue(HexDigit(d)) == d
  {
    var ch := HexDigit(d);
    LetterTable(ch);
    hide Decimal;
  }

  lemma {:induction false} SizeSnoc(n: nat, s: string, ch: char)
    requires IsSize(s) && SizeChar(ch)
    ensures IsSize(s + [ch]) && SizeOf(n, s + [ch]) == (SizeOf(n, s) * 16 + SizeValue(ch)) % SIZE_LIMIT
    decreases |s|
  {
    hide SizeChar, SizeValue;
    if s == "" {
      assert s + [ch] == [ch];
      assert SizeOf(n, [ch]) == SizeOf((n * 16 + SizeValue(ch)) % SIZE_LIMIT, [ch][1..]);
    } else {
      assert (s + [ch])[0] == s[0] && (s + [ch])[1..] == s[1..] + [ch];
      SizeSnoc((n * 16 + SizeValue(s[0])) % SIZE_LIMIT, s[1..], ch);
    }
  }

  /** A printed chunk size is read back. */
  lemma {:induction false} HexRead(n: nat)
    requires n < SIZE_LIMIT
    ensures IsSize(Hex(n)) && SizeOf(0, Hex(n)) == n
    decreases n
  {
    hide HexDigit, SizeChar, SizeValue;
    HexDigitRead(n % 16);
    if n < 16 {
      assert Hex(n)[1..] == "";
      assert SizeOf(0, Hex(n)) == SizeOf((0 * 16 + n) % SIZE_LIMIT, Hex(n)[1..]);
    } else {
      HexRead(n / 16);
      SizeSnoc(0, Hex(n / 16), HexDigit(n % 16));
    }
  }

  // ---- chunks ----

  datatype Chunk = Chunk(size: string, ext: string, data: string)

  predicate IsExtension(s: string) {
    && (s != "" ==> s[0] == ';' || s[0] == ' ')
    && forall j :: 0 <= j < |s| ==> s[j] != CR
  }

  function SizeLine(size: string, ext: string): string { size + ext + "\r" + "\n" }

  /** A line that announces a chunk of `n` bytes. */
  predicate GoodSize(size: string, n: nat, ext: string) {
    && size != "" && IsSize(size) && SizeOf(0, size) == n && IsExtension(ext) && |SizeLine(size, ext)| <= MAX_HEADER
  }

  lemma SizeCR(c: Config) returns (d: Config)
    requires (c.p.state == ChunkSize || c.p.state == ChunkParameters) && c.url == "" && Room(c, 1) && c.p.flags.chunked
    ensures Reaches(c, "\r", d) && d == Later(c, 1, c.p.(state := ChunkSizeAlmostDone), "", [])
  {
    var q := c.p.(nread := c.p.nread + 1, state := ChunkSizeAlmostDone);
    hide Step;
    SizeEnds(c.p);
    ClosedAdvance(c, CR, q, []);
    hide Advance;
    ReachOne(c, CR, q, []);
    d := Advance(c, CR, q, []);
  }

  lemma SizeEnds(p: Parser)
    requires (p.state == ChunkSize || p.state == ChunkParameters) && p.nread < MAX_HEADER && p.flags.chunked
    ensures Step(p, CR) == Next(p.(nread := p.nread + 1, state := ChunkSizeAlmostDone), [])
  {
    hide Step;
    Below(p, CR);
  }

  function AfterSize(p: Parser): Parser {
    if p.contentLength == 0 then p.(nread := 0, flags := p.flags.(trailing := true), state := HeaderFieldStart)
    else p.(nread := 0, state := ChunkData)
  }

  lemma SizeLF(c: Config) returns (d: Config)
    requires c.p.state == ChunkSizeAlmostDone && c.url == "" && Room(c, 1) && c.p.flags.chunked
    ensures Reaches(c, "\n", d) && d == Config(AfterSize(c.p), "", "", c.trace, c.pos + 1)
  {
    var q := AfterSize(c.p);
    hide Step;
    SizeDone(c.p);
    if c.p.contentLength == 0 {
      ClosedAdvance(c, LF, q, []);
    }
    ReachOne(c, LF, q, []);
    d := Advance(c, LF, q, []);
    assert c.trace + [] == c.trace;
  }

  lemma SizeDone(p: Parser)
    requires p.state == ChunkSizeAlmostDone && p.nread < MAX_HEADER && p.flags.chunked
    ensures Step(p, LF) == Next(AfterSize(p), [])
  {
    hide Step;
    Below(p, LF);
  }

  lemma ExtensionByte(c: Config, ch: char) returns (d: Config)
    requires c.url == "" && Room(c, 1) && c.p.flags.chunked && ch != CR
    requires c.p.state == ChunkParameters || (c.p.state == ChunkSize && (ch == ';' || ch == ' '))
    ensures Reaches(c, [ch], d) && d == Later(c, 1, c.p.(state := ChunkParameters), "", [])
  {
    var q := c.p.(nread := c.p.nread + 1, state := ChunkParameters);
    hide Step;
    ExtensionStep(c.p, ch);
    ClosedAdvance(c, ch, q, []);
    hide Advance;
    ReachOne(c, ch, q, []);
    d := Advance(c, ch, q, []);
  }

  lemma ExtensionStep(p: Parser, ch: char)
    requires p.nread < MAX_HEADER && p.flags.chunked && ch != CR
    requires p.state == ChunkParameters || (p.state == ChunkSize && (ch == ';' || ch == ' '))
    ensures Step(p, ch) == Next(p.(nread := p.nread + 1, state := ChunkParameters), [])
  {
    hide Step;
    Below(p, ch);
  }

  lemma {:induction false} ExtensionRun(c: Config, s: string) returns (d: Config)
    requires c.url == "" && c.part == "" && Room(c, |s|) && c.p.flags.chunked
    requires c.p.state == ChunkParameters || (c.p.state == ChunkSize && (s != "" ==> s[0] == ';' || s[0] == ' '))
    requires forall j :: 0 <= j < |s| ==> s[j] != CR
    ensures Reaches(c, s, d)
    ensures d == Later(c, |s|, c.p.(state := if s == "" then c.p.state else ChunkParameters), "", [])
    decreases |s|
  {
    hide Reaches;
    assert c.trace + [] == c.trace;
    if s == "" {
      ReachNone(c);
      return c;
    }
    var e := ExtensionByte(c, s[0]);
    d := ExtensionRun(e, s[1..]);
    Chain(c, [s[0]], e, s[1..], d);
    assert [s[0]] + s[1..] == s;
  }

  lemma SizeLineRun(c: Config, size: string, n: nat, ext: string) returns (d: Config)
    requires c.p.state == ChunkSizeStart && c.url == "" && c.p.nread == 0 && c.p.flags.chunked
    requires GoodSize(size, n, ext)
    ensures Reaches(c, SizeLine(size, ext), d)
    ensures d == Config(AfterSize(c.p.(contentLength := n)), "", "", c.trace, c.pos + |SizeLine(size, ext)|)
  {
    hide Reaches, IsSize, SizeOf;
    var e := SizeRun(c, size);
    var f := ExtensionRun(e, ext);
    var g := SizeCR(f);
    d := SizeLF(g);
    Chain3(c, size, e, ext, f, "\r", g);
    Chain(c, size + ext + "\r", g, "\n", d);
    assert c.trace + [] + [] + [] == c.trace;
  }

  lemma EndByte(c: Config, ch: char, s: State) returns (d: Config)
    requires (c.p.state == ChunkDataAlmostDone && ch == CR && s == ChunkDataDone)
          || (c.p.state == ChunkDataDone && ch == LF && s == ChunkSizeStart)
    requires c.url == "" && c.p.flags.chunked
    ensures Reaches(c, [ch], d) && d == Config(c.p.(state := s), "", "", c.trace, c.pos + 1)
  {
    var q := c.p.(state := s);
    assert Step(c.p, ch) == Next(q, []);
    hide Reaches, Step;
    ReachOne(c, ch, q, []);
    d := Advance(c, ch, q, []);
    assert c.trace + [] == c.trace;
  }

  lemma ChunkEnd(c: Config) returns (d: Config)
    requires c.p.state == ChunkDataAlmostDone && c.url == "" && c.p.flags.chunked
    ensures Reaches(c, "\r\n", d) && d == Config(c.p.(state := ChunkSizeStart), "", "", c.trace, c.pos + 2)
  {
    hide Reaches, Step;
    var e := EndByte(c, CR, ChunkDataDone);
    d := EndByte(e, LF, ChunkSizeStart);
    Chain(c, "\r", e, "\n", d);
    assert "\r" + "\n" == "\r\n";
  }

  predicate GoodChunk(k: Chunk) {
    k.data != "" && |k.data| < SIGNED_LIMIT && GoodSize(k.size, |k.data|, k.ext)
  }

  function ChunkText(k: Chunk): string { SizeLine(k.size, k.ext) + k.data + "\r\n" }

  lemma ChunkRun(c: Config, k: Chunk) returns (d: Config)
    requires c.p.state == ChunkSizeStart && c.url == "" && c.p.nread == 0 && c.p.flags.chunked && GoodChunk(k)
    ensures Reaches(c, ChunkText(k), d)
    ensures d == Config(c.p.(contentLength := 0), "", "", c.trace + [Data(Body, k.data)], c.pos + |ChunkText(k)|)
  {
    hide Reaches, SizeLine, GoodSize;
    var e := SizeLineRun(c, k.size, |k.data|, k.ext);
    assert InBody(e.p);
    var f := BodyRun(e, k.data);
    var g := ChunkEnd(f);
    d := g;
    Chain3(c, SizeLine(k.size, k.ext), e, k.data, f, "\r\n", d);
    assert c.trace + [Data(Body, k.data)] + [] == c.trace + [Data(Body, k.data)];
  }

  predicate GoodChunks(ks: seq<Chunk>) { forall i :: 0 <= i < |ks| ==> GoodChunk(ks[i]) }

  function ChunksText(ks: seq<Chunk>): string { if ks == [] then "" else ChunkText(ks[0]) + ChunksText(ks[1..]) }

  function ChunksEvents(ks: seq<Chunk>): seq<Event> {
    if ks == [] then [] else [Data(Body, ks[0].data)] + ChunksEvents(ks[1..])
  }

  function Joined(ks: seq<Chunk>): string { if ks == [] then "" else ks[0].data + Joined(ks[1..]) }

  lemma {:induction false} ChunksRun(c: Config, ks: seq<Chunk>) returns (d: Config)
    requires c.p.state == ChunkSizeStart && c.url == "" && c.part == "" && c.p.nread == 0 && c.p.flags.chunked
    requires GoodChunks(ks)
    ensures Reaches(c, ChunksText(ks), d)
    ensures d == Config(c.p.(contentLength := if ks == [] then c.p.contentLength else 0), "", "",
                        c.trace + ChunksEvents(ks), c.pos + |ChunksText(ks)|)
    decreases |ks|
  {
    hide Reaches, ChunkText, GoodChunk;
    if ks == [] {
      ReachNone(c);
      assert c.trace + [] == c.trace;
      return c;
    }
    var e := ChunkRun(c, ks[0]);
    d := ChunksRun(e, ks[1..]);
    Chain(c, ChunkText(ks[0]), e, ChunksText(ks[1..]), d);
    assert c.trace + [Data(Body, ks[0].data)] + ChunksEvents(ks[1..])
        == c.trace + ([Data(Body, ks[0].data)] + ChunksEvents(ks[1..]));
  }
}
