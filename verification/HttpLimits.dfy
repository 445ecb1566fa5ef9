/** Where the parser does less than its callers may expect, and exactly when.  */
module HttpLimits {
  import opened HttpModel
  import opened HttpGrammar
  import opened HttpRun
  import opened HttpHeaders
  import opened HttpLine
  import opened HttpRequestLine
  import opened HttpMessage
  import opened HttpRoundTrip
  import HttpSplit

  // ---- header lines that announce a body ----

  function LengthLine(n: nat): FieldLine { FieldLine(Header("Content-Length", Dec(n)), 1, "\r\n") }

  function ChunkedLine(): FieldLine { FieldLine(Header("Transfer-Encoding", "chunked"), 1, "\r\n") }

  lemma LetterName(s: string)
    requires s != "" && forall j :: 0 <= j < |s| ==> Letter(s[j]) || s[j] == '-'
    ensures IsName(s)
  {
  }

  lemma LengthName()
    ensures Says("Content-Length", CONTENT_LENGTH) && IsName("Content-Length")
    ensures !Says("Content-Length", TRANSFER_ENCODING) && !Says("Content-Length", UPGRADE)
    ensures !IsConnection("Content-Length")
  {
    hide NameChar, IsName;
    var s := "Content-Length";
    LetterName(s);
    assert |s| == 14 && Fold(s[0]) == 'c' && Fold(s[3]) == 't';
  }

  /** Reading a decimal into a size_t, while it fits. */
  lemma {:induction false} LengthIsDecimal(n: nat, s: string)
    requires Digits(s) && ReadDec(n, s) < SIZE_LIMIT
    ensures LengthOf(n, s) == ReadDec(n, s)
    decreases |s|
  {
    if s != "" {
      ReadGrows(n * 10 + DigitValue(s[0]), s[1..]);
      LengthIsDecimal(n * 10 + DigitValue(s[0]), s[1..]);
    }
  }

  lemma DigitsAreLength(s: string)
    requires s != "" && Digits(s)
    ensures IsLength(s) && IsText(s)
  {
    forall j | 0 <= j < |s|
      ensures Decimal(s[j])
    {
      LetterTable(s[j]);
    }
    hide Decimal;
  }

  /** A printed Content-Length line announces its number and nothing else. */
  lemma LengthAnnounced(n: nat, e: Effect)
    requires n < SIZE_LIMIT
    ensures Good(LengthLine(n).header) && Sizes(LengthLine(n))
    ensures Apply(e, LengthLine(n).header) == Effect(e.flags, n)
  {
    hide Says, LengthOf, Dec, IsName, ReadDec, IsLength, IsConnection;
    LengthName();
    DecRead(n);
    LengthIsDecimal(0, Dec(n));
    DigitsAreLength(Dec(n));
  }

  lemma ChunkedName()
    ensures Says("Transfer-Encoding", TRANSFER_ENCODING) && Says("chunked", CHUNKED) && IsName("Transfer-Encoding")
    ensures !Says("Transfer-Encoding", "content-length") && !Says("Transfer-Encoding", "upgrade")
    ensures !IsConnection("Transfer-Encoding")
  {
    hide NameChar, IsName;
    var s := "Transfer-Encoding";
    LetterName(s);
    assert |s| == 17 && Fold(s[0]) == 't';
  }

  lemma ChunkedAnnounced(e: Effect)
    ensures Good(ChunkedLine().header) && Announces(ChunkedLine(), TRANSFER_ENCODING, CHUNKED)
    ensures Apply(e, ChunkedLine().header) == Effect(e.flags.(chunked := true), e.contentLength)
  {
    hide Says, IsConnection, IsName;
    ChunkedName();
  }

  lemma {:induction false} ApplyAppend(e: Effect, ls: seq<FieldLine>, l: FieldLine)
    ensures ApplyAll(e, ls + [l]) == Apply(ApplyAll(e, ls), l.header)
    decreases |ls|
  {
    hide Apply;
    if ls == [] {
      assert ls + [l] == [l] && [l][1..] == [];
    } else {
      assert (ls + [l])[0] == ls[0] && (ls + [l])[1..] == ls[1..] + [l];
      ApplyAppend(Apply(e, ls[0].header), ls[1..], l);
    }
  }

  /** Any body can be sent: a Content-Length line after lines that announce neither chunks nor an upgrade. */
  lemma SizedIsGood(line: RequestLine, fields: seq<FieldLine>, blank: string, data: string)
    requires GoodRequestLine(line) && line.verb != CONNECT && GoodLines(fields) && IsEol(blank) && |data| < SIZE_LIMIT
    requires forall i :: 0 <= i < |fields| ==> !Announces(fields[i], TRANSFER_ENCODING, CHUNKED) && !Upgrades(fields[i])
    ensures GoodRequest(Request(line, fields + [LengthLine(|data|)], blank, Sized(data)))
  {
    hide Apply, ApplyAll, Good, Announces, Upgrades, Sizes, GoodRequestLine, IsEol, LengthLine;
    var e := Effect(NO_FLAGS, NO_LENGTH);
    ApplyAppend(e, fields, LengthLine(|data|));
    LengthAnnounced(|data|, ApplyAll(e, fields));
    LengthEol(|data|);
    FlagsMean(e, fields);
  }

  lemma LengthEol(n: nat)
    ensures IsEol(LengthLine(n).eol)
  {
    hide Dec;
  }

  /** Any list of chunks can be sent, after lines that announce no upgrade. */
  lemma ChunkedIsGood(line: RequestLine, fields: seq<FieldLine>, blank: string, chunks: seq<Chunk>)
    requires GoodRequestLine(line) && line.verb != CONNECT && GoodLines(fields) && IsEol(blank) && GoodChunks(chunks)
    requires forall i :: 0 <= i < |fields| ==> !Upgrades(fields[i])
    ensures GoodRequest(Request(line, fields + [ChunkedLine()], blank, Chunked(chunks, "0", "", [], "\r\n")))
  {
    hide Apply, ApplyAll, Good, Announces, Upgrades, Sizes, GoodRequestLine, GoodChunk, ChunkedLine, GoodSize,
        TrailerText, IsEol;
    var e := Effect(NO_FLAGS, NO_LENGTH);
    ApplyAppend(e, fields, ChunkedLine());
    ChunkedAnnounced(ApplyAll(e, fields));
    FlagsMean(e, fields);
    LastChunkFits(chunks);
  }

  lemma LastChunkFits(chunks: seq<Chunk>)
    ensures GoodSize("0", 0, "") && IsEol("\r\n") && IsEol(ChunkedLine().eol)
    ensures |TrailerText(Chunked(chunks, "0", "", [], "\r\n"))| <= MAX_HEADER
  {
    hide SizeChar, SizeValue;
    assert Hex(0) == "0";
    HexRead(0);
  }

  /** Any data that is not empty and does not reach 2^63 bytes can be a chunk. */
  lemma PrintedChunkIsGood(data: string)
    requires data != "" && |data| < 0x8000_0000_0000_0000
    ensures GoodChunk(Chunk(Hex(|data|), "", data))
  {
    hide IsSize, SizeOf, Hex;
    HexRead(|data|);
    HexFits(|data|);
  }

  // ---- upgrades ----

  lemma UpgradeStep(p: Parser)
    requires p.state == HeadersAlmostDone && p.nread < MAX_HEADER && !p.flags.trailing
    requires p.flags.upgrade || p.verb == CONNECT
    ensures Step(p, '\n') == Exit(p.(nread := 0, upgrade := true), [HeadersComplete, MessageComplete])
  {
    hide Step;
    Below(p, '\n');
  }

  lemma UpgradeStart(p: Parser)
    requires p.state == HeaderFieldStart && p.nread < MAX_HEADER && !p.flags.trailing
    requires p.flags.upgrade || p.verb == CONNECT
    ensures Step(p, '\n') ==
      Exit(p.(state := HeadersAlmostDone, nread := 0, upgrade := true), [HeadersComplete, MessageComplete])
  {
    hide Step;
    Below(p, '\n');
  }

  lemma ExitAt(c: Config, head: string, d: Config, rest: string, q: Parser, events: seq<Event>)
    requires Reaches(c, head, d) && Step(d.p, '\n') == Exit(q, events)
    ensures RunFrom(c, head + "\n" + rest) == Exited(d.(p := q, trace := d.trace + events))
  {
    hide RunFrom, Step;
    var tail := "\n" + rest;
    assert head + "\n" + rest == head + tail && tail[0] == '\n';
    RunAppend(c, head, tail);
    RunStep(d, tail);
  }

  /** A request that asks for an upgrade, or for a tunnel, ends with its head, and the parser leaves at the line feed
      that ends it; nothing behind it is read. */
  lemma UpgradeExits(c: Config, line: RequestLine, fields: seq<FieldLine>, cr: bool, rest: string)
    requires Ready(c) && GoodRequestLine(line) && GoodLines(fields)
    requires line.verb == CONNECT || exists i :: 0 <= i < |fields| && Upgrades(fields[i])
    requires var head := RequestLineText(line) + LinesText(fields) + (if cr then "\r" else ""); Room(c, |head| + 1)
    ensures var head := RequestLineText(line) + LinesText(fields) + (if cr then "\r" else "");
      var run := RunFrom(c, head + "\n" + rest);
      && run.Exited? && run.c.pos == c.pos + |head| && run.c.p.upgrade
      && run.c.trace == c.trace + ([MessageBegin] + UrlEvents(line.target) + LinesEvents(fields)
                                   + [HeadersComplete, MessageComplete])
  {
    hide Reaches, RunFrom, RequestLineText, LinesText, UrlEvents, LinesEvents, GoodRequestLine, GoodLines, ApplyAll,
      Upgrades, Step;
    var e := RequestLineRun(c, line);
    var f := LinesRun(e, fields);
    FlagsMean(Effect(NO_FLAGS, NO_LENGTH), fields);
    Chain(c, RequestLineText(line), e, LinesText(fields), f);
    var head, events := RequestLineText(line) + LinesText(fields), [HeadersComplete, MessageComplete];
    var t := [MessageBegin] + UrlEvents(line.target) + LinesEvents(fields);
    assert c.trace + ([MessageBegin] + UrlEvents(line.target)) + LinesEvents(fields) == c.trace + t;
    assert c.trace + t + events == c.trace + (t + events);
    if cr {
      var g := CarriageReturn(f);
      Chain(c, head, f, "\r", g);
      UpgradeStep(g.p);
      ExitAt(c, head + "\r", g, rest, g.p.(nread := 0, upgrade := true), events);
      assert c.trace + t + [] == c.trace + t;
    } else {
      assert head + "" == head;
      UpgradeStart(f.p);
      ExitAt(c, head, f, rest, f.p.(state := HeadersAlmostDone, nread := 0, upgrade := true), events);
    }
  }

  // ---- a request without a length never completes ----

  /** The blank line completes a message exactly when a length of zero was announced and no chunks were. */
  lemma CompletesAtBlank(c: Config, line: RequestLine, fields: seq<FieldLine>, blank: string) returns (d: Config)
    requires Ready(c) && GoodRequestLine(line) && line.verb != CONNECT && GoodLines(fields) && IsEol(blank)
    requires !ApplyAll(Effect(NO_FLAGS, NO_LENGTH), fields).flags.upgrade
    requires Room(c, |RequestLineText(line) + LinesText(fields) + blank|)
    ensures Reaches(c, RequestLineText(line) + LinesText(fields) + blank, d)
    ensures var e := ApplyAll(Effect(NO_FLAGS, NO_LENGTH), fields);
      && d.trace == c.trace + ([MessageBegin] + UrlEvents(line.target) + LinesEvents(fields)) + [HeadersComplete]
                    + (if !e.flags.chunked && e.contentLength == 0 then [MessageComplete] else [])
      && (!e.flags.chunked && e.contentLength > 0 ==> d.p.state == BodyIdentity && d.p.contentLength == e.contentLength)
      && d.url == "" && d.part == ""
  {
    hide Reaches, RequestLineText, LinesText, UrlEvents, LinesEvents, GoodRequestLine, GoodLines, ApplyAll, IsEol;
    var e := RequestLineRun(c, line);
    var f := LinesRun(e, fields);
    NotTrailing(Effect(NO_FLAGS, NO_LENGTH), fields);
    d := BlankRun(f, blank);
    Chain3(c, RequestLineText(line), e, LinesText(fields), f, blank, d);
    var head := [MessageBegin] + UrlEvents(line.target) + LinesEvents(fields);
    assert c.trace + ([MessageBegin] + UrlEvents(line.target)) + LinesEvents(fields) == c.trace + head;
    assert c.trace + head + [HeadersComplete] + [] == c.trace + head + [HeadersComplete];
    assert c.trace + head + [HeadersComplete] + [MessageComplete] == c.trace + head + [HeadersComplete,
        MessageComplete];
  }

  /** With no Content-Length and no chunks the length stays at minus one, read as 2^64 - 1: everything that
      follows is taken for the body, although section 4.4 of RFC 2616 gives such a request no body. */
  lemma LengthlessSwallows(c: Config, line: RequestLine, fields: seq<FieldLine>, blank: string, rest: string)
    returns (d: Config)
    requires Ready(c) && GoodRequestLine(line) && line.verb != CONNECT && GoodLines(fields) && IsEol(blank)
    requires forall i :: 0 <= i < |fields| ==>
      !Sizes(fields[i]) && !Announces(fields[i], TRANSFER_ENCODING, CHUNKED) && !Upgrades(fields[i])
    requires Room(c, |RequestLineText(line) + LinesText(fields) + blank|) && |rest| < 0xffff_ffff_ffff_ffff
    ensures Reaches(c, RequestLineText(line) + LinesText(fields) + blank + rest, d)
    ensures d.trace == c.trace + ([MessageBegin] + UrlEvents(line.target) + LinesEvents(fields)) + [HeadersComplete]
    ensures d.p.state == BodyIdentity && d.part == rest && d.p.contentLength == 0xffff_ffff_ffff_ffff - |rest|
  {
    hide Reaches, RequestLineText, LinesText, UrlEvents, LinesEvents, GoodRequestLine, GoodLines, ApplyAll, IsEol;
    hide Sizes, Announces, Upgrades, RunFrom;
    FlagsMean(Effect(NO_FLAGS, NO_LENGTH), fields);
    var e := CompletesAtBlank(c, line, fields, blank);
    d := e;
    var head := RequestLineText(line) + LinesText(fields) + blank;
    if rest == "" {
      assert head + rest == head;
    } else {
      d := SwallowRun(e, rest);
      Chain(c, head, e, rest, d);
    }
    var events := c.trace + ([MessageBegin] + UrlEvents(line.target) + LinesEvents(fields)) + [HeadersComplete];
    assert events + [] == events;
  }

  lemma SwallowRun(c: Config, data: string) returns (d: Config)
    requires c.p.state == BodyIdentity && c.url == "" && c.part == "" && 0 < |data| < c.p.contentLength
    ensures Reaches(c, data, d) && d.trace == c.trace && d.p.state == BodyIdentity && d.part == data
    ensures d.p.contentLength == c.p.contentLength - |data|
  {
    hide RunFrom;
    BulkIsBytewise(c, data, |data|);
    d := AfterBodyConfig(c, data);
    assert data[..|data|] == data && data[|data|..] == "";
    RunDone(d);
    assert c.trace + [] == c.trace && c.part + data == data;
  }

  // ---- the header limit depends on the cut ----

  function Returns(n: nat): string { if n == 0 then "" else [CR] + Returns(n - 1) }

  /** Line ends before a request count towards the limit. */
  lemma {:induction false} ReturnsRun(c: Config, n: nat)
    requires c.p.state == StartReq && c.url == "" && c.part == ""
    ensures c.p.nread + n <= MAX_HEADER ==>
      RunFrom(c, Returns(n)) == Live(Config(c.p.(nread := c.p.nread + n), "", "", c.trace, c.pos + n))
    ensures c.p.nread <= MAX_HEADER < c.p.nread + n ==>
      RunFrom(c, Returns(n)).Failed? && RunFrom(c, Returns(n)).c.pos == c.pos + MAX_HEADER - c.p.nread
    decreases n
  {
    hide RunFrom, Step, Advance;
    if n == 0 {
      RunDone(c);
    } else {
      assert Returns(n)[0] == CR && Returns(n)[1..] == Returns(n - 1);
      RunStep(c, Returns(n));
      ReturnStep(c);
      if c.p.nread < MAX_HEADER {
        ReturnsRun(Config(c.p.(nread := c.p.nread + 1), "", "", c.trace, c.pos + 1), n - 1);
      }
    }
  }

  lemma ReturnStep(c: Config)
    requires c.p.state == StartReq && c.url == "" && c.part == ""
    ensures var q := c.p.(nread := c.p.nread + 1);
            if c.p.nread < MAX_HEADER then
              Step(c.p, CR) == Next(q, []) && Advance(c, CR, q, []) == Config(q, "", "", c.trace, c.pos + 1)
            else Step(c.p, CR) == Error(q, [])
  {
    assert c.trace + [] + [] == c.trace;
  }

  /** The counter loses its high bits between calls, so the same bytes can pass in two calls and fail in one. The
      module HttpSplit says for which inputs that is so. */
  lemma LimitDependsOnCut(p: Parser)
    requires p.state == StartReq && p.nread == 0
    ensures HttpSplit.Concat([Returns(81920), Returns(1)]) == Returns(81920) + Returns(1)
    ensures HttpSplit.FailsAt(HttpSplit.Call(p, Returns(81920) + Returns(1)), 81920)
    ensures HttpSplit.CallAll(p, [Returns(81920), Returns(1)]).Fine?
  {
    hide RunFrom, Returns, Flush;
    var a, b := Returns(MAX_HEADER), Returns(1);
    var d := Config(p.(nread := MAX_HEADER), "", "", [], MAX_HEADER);
    ReturnsRun(Start(p), MAX_HEADER);
    ReturnsRun(d, 1);
    RunAppend(Start(p), a, b);
    var q := Narrow(d.p);
    assert q.nread == 0;
    ReturnsRun(Start(q), 1);
    assert [a, b][1..] == [b] && [b][1..] == [];
    assert HttpSplit.Call(p, a).Fine? && HttpSplit.Call(p, a).p == q;
    assert HttpSplit.Call(q, b).Fine?;
    assert HttpSplit.CallAll(q, [b]).Fine?;
    assert HttpSplit.Concat([b]) == b + HttpSplit.Concat([]) == b;
  }

  // ---- the two undefended places are reached ----

  /** A word that begins like CONNECT and goes on with other letters is read past the end of the name. */
  lemma LenientFaults(p: Parser)
    requires p.state == StartReq && p.nread + 9 <= MAX_HEADER
    ensures RunFrom(Start(p), "CXXXXXXXX") == Undefined
  {
    hide Reaches, Step;
    var c := Start(p);
    assert Room(c, 1);
    var d := FirstVerbByte(c, 'C');
    var e := OffNameRun(d, 7);
    assert ['C'] == "C" && "C" + "XXXXXXX" == "CXXXXXXX" && "CXXXXXXX" + "X" == "CXXXXXXXX";
    XsLiteral();
    Chain(c, "C", d, "XXXXXXX", e);
    PastTheEnd(e);
    AppendUndefined(c, "CXXXXXXX", e, "X");
  }

  function Xs(n: nat): string { if n == 0 then "" else "X" + Xs(n - 1) }

  lemma XsLiteral()
    ensures Xs(7) == "XXXXXXX"
  {
    assert Xs(3) == "XXX";
    assert Xs(5) == "XX" + Xs(3);
    assert Xs(7) == "XX" + Xs(5);
  }

  lemma {:induction false} OffNameRun(c: Config, n: nat) returns (d: Config)
    requires c.p.state == ReqMethod && c.p.verb == CONNECT && c.url == "" && c.part == "" && Room(c, n)
    requires 1 <= c.p.index && c.p.index + n <= 8
    ensures Reaches(c, Xs(n), d)
    ensures d == Inside(c, n, c.p.(index := c.p.index + n), "", "", [])
    decreases n
  {
    hide Reaches;
    assert c.trace + [] == c.trace;
    if n == 0 {
      ReachNone(c);
      return c;
    }
    OffLetter(c.p.index);
    var e := VerbByte(c, 'X');
    d := OffNameRun(e, n - 1);
    Chain(c, ['X'], e, Xs(n - 1), d);
    assert ['X'] == "X";
  }

  lemma OffLetter(i: nat)
    requires 1 <= i <= 7
    ensures i <= |MethodString(CONNECT)| && VerbStep(CONNECT, i, 'X') == (true, CONNECT)
  {
  }

  lemma PastTheEnd(c: Config)
    requires c.p.state == ReqMethod && c.p.verb == CONNECT && c.p.index == 8 && Room(c, 1)
    ensures RunFrom(c, "X") == Undefined
  {
    RunStep(c, "X");
    assert Step(c.p, 'X') == Fault;
    hide Step;
  }

  lemma AppendUndefined(c: Config, s: string, d: Config, t: string)
    requires Reaches(c, s, d) && RunFrom(d, t) == Undefined
    ensures RunFrom(c, s + t) == Undefined
  {
    RunAppend(c, s, t);
    hide RunFrom;
  }

  /** A chunk size of 2^63 is negative after the cast. */
  lemma HugeChunkFaults(c: Config, size: string, n: nat, ext: string, ch: char)
    requires c.p.state == ChunkSizeStart && c.url == "" && c.part == "" && c.p.nread == 0 && c.p.flags.chunked
    requires GoodSize(size, n, ext) && n >= 0x8000_0000_0000_0000
    ensures RunFrom(c, SizeLine(size, ext) + [ch]) == Undefined
  {
    hide Reaches, SizeLine;
    var d := SizeLineRun(c, size, n, ext);
    hide GoodSize;
    RunStep(d, [ch]);
    HugeStep(d.p, ch);
    hide Step;
    AppendUndefined(c, SizeLine(size, ext), d, [ch]);
  }

  lemma HugeStep(p: Parser, ch: char)
    requires p.state == ChunkData && p.contentLength >= SIGNED_LIMIT
    ensures Step(p, ch) == Fault
  {
  }

  /** There are such sizes. */
  lemma HugeSize()
    ensures GoodSize(Hex(SIGNED_LIMIT), SIGNED_LIMIT, "")
  {
    hide IsSize, SizeOf, Hex;
    HexRead(SIGNED_LIMIT);
    HexFits(SIGNED_LIMIT);
  }

  function Pow16(k: nat): nat { if k == 0 then 1 else 16 * Pow16(k - 1) }

  lemma {:induction false} HexShort(n: nat, k: nat)
    requires k > 0 && n < Pow16(k)
    ensures |Hex(n)| <= k
    decreases k
  {
    if n >= 16 {
      HexShort(n / 16, k - 1);
    }
  }

  /** Every chunk size that the parser can hold is printed in 16 digits. */
  lemma HexFits(n: nat)
    requires n < SIZE_LIMIT
    ensures |Hex(n)| <= 16
  {
    Pow16Value();
    HexShort(n, 16);
  }

  lemma Pow16Value()
    ensures Pow16(16) == SIZE_LIMIT
  {
    assert Pow16(4) == 0x1_0000;
    assert Pow16(8) == 0x1_0000 * Pow16(4);
    assert Pow16(12) == 0x1_0000 * Pow16(8);
    assert Pow16(16) == 0x1_0000 * Pow16(12);
  }
}
