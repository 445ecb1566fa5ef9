/** Printing requests and parsing them back: one or many, in one call or cut anywhere.  */
module HttpRoundTrip {
  import opened HttpModel
  import opened HttpRun
  import opened HttpHeaders
  import opened HttpLine
  import opened HttpRequestLine
  import opened HttpMessage
  import opened HttpHeard
  import opened HttpInvariant
  import opened HttpSplit

  datatype Payload =
    | Sized(data: string)
    | Chunked(chunks: seq<Chunk>, lastSize: string, lastExt: string, trailers: seq<FieldLine>, end: string)

  datatype Request = Request(line: RequestLine, fields: seq<FieldLine>, blank: string, payload: Payload)

  function HeadText(r: Request): string { RequestLineText(r.line) + LinesText(r.fields) + r.blank }

  function TrailerText(b: Payload): string
    requires b.Chunked?
  {
    LinesText(b.trailers) + b.end
  }

  function PayloadText(b: Payload): string {
    match b
    case Sized(data) => data
    case Chunked(ks, size, ext, _, _) => ChunksText(ks) + SizeLine(size, ext) + TrailerText(b)
  }

  function Text(r: Request): string { HeadText(r) + PayloadText(r.payload) }

  /** What the header fields announce. */
  function Announced(r: Request): Effect { ApplyAll(Effect(NO_FLAGS, NO_LENGTH), r.fields) }

  /** A well-formed request whose header fields announce its body. */
  predicate GoodRequest(r: Request) {
    && GoodRequestLine(r.line) && r.line.verb != CONNECT
    && GoodLines(r.fields) && IsEol(r.blank) && !Announced(r).flags.upgrade
    && match r.payload
       case Sized(data) => !Announced(r).flags.chunked && Announced(r).contentLength == |data|
       case Chunked(ks, size, ext, ts, end) =>
         && Announced(r).flags.chunked && GoodChunks(ks)
         && GoodSize(size, 0, ext)
         && GoodLines(ts) && IsEol(end) && |TrailerText(r.payload)| <= MAX_HEADER
  }

  function FinalFlags(r: Request): Flags {
    match r.payload
    case Sized(_) => Announced(r).flags
    case Chunked(_, _, _, ts, _) => ApplyAll(Effect(Announced(r).flags.(trailing := true), 0), ts).flags
  }

  /** The connection persists: section 8.1 of RFC 2616. */
  predicate Persists(r: Request) {
    if MajorOf(r.line.version) > 0 && MinorOf(r.line.version) > 0 then !FinalFlags(r).close else FinalFlags(r).keepAlive
  }

  /** All header lines, with those behind a chunked body. */
  function AllLines(r: Request): seq<FieldLine> { r.fields + if r.payload.Sized? then [] else r.payload.trailers }

  /** In the words of that section: from HTTP/1.1 on a connection persists unless some line says close, and before only
      if some line says keep-alive. A version with minor number 0 counts as one before. */
  lemma PersistsExactly(r: Request)
    ensures Persists(r) <==>
      if MajorOf(r.line.version) > 0 && MinorOf(r.line.version) > 0
      then forall i :: 0 <= i < |AllLines(r)| ==> !Connects(AllLines(r)[i], "close")
      else exists i :: 0 <= i < |AllLines(r)| && Connects(AllLines(r)[i], "keep-alive")
  {
    hide ApplyAll, Connects, Announces, Upgrades, Sizes, MajorOf, MinorOf;
    var ts: seq<FieldLine> := if r.payload.Sized? then [] else r.payload.trailers;
    FlagsMean(Effect(NO_FLAGS, NO_LENGTH), r.fields);
    FlagsMean(Effect(Announced(r).flags.(trailing := true), 0), ts);
    assert forall i :: 0 <= i < |r.fields| ==> AllLines(r)[i] == r.fields[i];
    assert forall i :: 0 <= i < |ts| ==> AllLines(r)[|r.fields| + i] == ts[i];
    assert forall i :: |r.fields| <= i < |AllLines(r)| ==> AllLines(r)[i] == ts[i - |r.fields|];
  }

  function PayloadEvents(b: Payload): seq<Event> {
    match b
    case Sized(data) => if data == "" then [] else [Data(Body, data)]
    case Chunked(ks, _, _, ts, _) => ChunksEvents(ks) + LinesEvents(ts)
  }

  /** What the user should hear of a request: its parts, in order, and its completion once. */
  function Events(r: Request): seq<Event> {
    [MessageBegin] + UrlEvents(r.line.target) + LinesEvents(r.fields) + [HeadersComplete]
    + PayloadEvents(r.payload) + [MessageComplete]
  }

  /** The header counter that a request leaves behind for the next one. */
  function Leftover(r: Request): nat { if r.payload.Sized? then 0 else |TrailerText(r.payload)| }

  /** A parser between messages. */
  predicate Ready(c: Config) { c.p.state == StartReq && c.url == "" && c.part == "" && !c.p.upgrade }

  /** The parser after the header lines, before the blank line. */
  function HeadParser(p: Parser, r: Request, q: Parser): Parser {
    p.(state := HeaderFieldStart, header := q.header, index := q.index, flags := Announced(r).flags,
       contentLength := Announced(r).contentLength, major := MajorOf(r.line.version), minor := MinorOf(r.line.version),
       verb := r.line.verb)
  }

  lemma FieldsRun(c: Config, r: Request) returns (d: Config)
    requires Ready(c) && GoodRequest(r) && Room(c, |HeadText(r)|)
    ensures Reaches(c, RequestLineText(r.line) + LinesText(r.fields), d)
    ensures d == Later(c, |RequestLineText(r.line) + LinesText(r.fields)|, HeadParser(c.p, r, d.p), "",
                       [MessageBegin] + UrlEvents(r.line.target) + LinesEvents(r.fields))
  {
    hide GoodRequestLine, GoodLines, ApplyAll, RequestLineText, LinesText, UrlEvents, LinesEvents, Reaches;
    var e := RequestLineRun(c, r.line);
    d := LinesRun(e, r.fields);
    Chain(c, RequestLineText(r.line), e, LinesText(r.fields), d);
    assert c.trace + ([MessageBegin] + UrlEvents(r.line.target)) + LinesEvents(r.fields)
        == c.trace + ([MessageBegin] + UrlEvents(r.line.target) + LinesEvents(r.fields));
  }

  lemma NotTrailing(e: Effect, ls: seq<FieldLine>)
    ensures ApplyAll(e, ls).flags.trailing == e.flags.trailing
  {
    FlagsMean(e, ls);
    hide ApplyAll, Says;
  }

  lemma HeadRun(c: Config, r: Request) returns (d: Config)
    requires Ready(c) && GoodRequest(r) && Room(c, |HeadText(r)|)
    ensures Reaches(c, HeadText(r), d)
    ensures d == Config(AfterHeaders(HeadParser(c.p, r, d.p)), "", "",
                        c.trace + ([MessageBegin] + UrlEvents(r.line.target) + LinesEvents(r.fields)
                                   + BlankEvents(HeadParser(c.p, r, d.p))), c.pos + |HeadText(r)|)
    ensures !Announced(r).flags.trailing
  {
    hide Announced, RequestLineText, LinesText, UrlEvents, LinesEvents, Reaches, AfterHeaders, HeadParser, BlankEvents;
    hide GoodRequest, AfterBlank, Ordinary, IsEol;
    RequestFacts(r);
    var e := FieldsRun(c, r);
    HeadParserFacts(c.p, r, e.p, e.p.nread + |r.blank|);
    d := BlankRun(e, r.blank);
    Chain(c, RequestLineText(r.line) + LinesText(r.fields), e, r.blank, d);
    TraceAssoc(c.trace, [MessageBegin] + UrlEvents(r.line.target) + LinesEvents(r.fields), BlankEvents(e.p));
  }

  lemma RequestFacts(r: Request)
    requires GoodRequest(r)
    ensures IsEol(r.blank) && !Announced(r).flags.trailing
  {
    NotTrailing(Effect(NO_FLAGS, NO_LENGTH), r.fields);
  }

  lemma TraceAssoc(a: seq<Event>, b: seq<Event>, c: seq<Event>)
    ensures a + b + c == a + (b + c)
  {
  }

  /** Nothing but the matcher's own fields is carried from the head of a message into what follows. */
  lemma HeadParserFacts(p: Parser, r: Request, q: Parser, n: nat)
    requires GoodRequest(r) && !p.upgrade && q == HeadParser(p, r, q).(nread := q.nread) && !Announced(r).flags.trailing
    ensures q.state == HeaderFieldStart && !q.flags.trailing && Ordinary(q)
    ensures AfterBlank(q.(nread := n)) == AfterHeaders(HeadParser(p, r, AfterBlank(q.(nread := n))))
    ensures BlankEvents(q) == BlankEvents(HeadParser(p, r, AfterBlank(q.(nread := n))))
  {
    hide Announced, GoodRequestLine, GoodLines;
  }

  lemma TrailersGood(r: Request)
    requires r.payload.Chunked? && GoodRequest(r)
    ensures GoodLines(r.payload.trailers) && IsEol(r.payload.end) && |TrailerText(r.payload)| <= MAX_HEADER
  {
    hide GoodLines, IsEol, GoodRequestLine, LinesText;
  }

  lemma TrailersRun(c: Config, r: Request) returns (d: Config)
    requires c.p.state == HeaderFieldStart && c.url == "" && c.part == "" && c.p.nread == 0
    requires r.payload.Chunked? && GoodRequest(r)
    requires c.p.flags == Announced(r).flags.(trailing := true) && c.p.contentLength == 0
    ensures Reaches(c, TrailerText(r.payload), d)
    ensures d == Config(c.p.(state := NewMessage(c.p.(flags := FinalFlags(r))), header := d.p.header,
        index := d.p.index,
                             flags := FinalFlags(r), contentLength := d.p.contentLength, nread := Leftover(r)), "", "",
                        c.trace + (LinesEvents(r.payload.trailers) + [MessageComplete]), c.pos
                            + |TrailerText(r.payload)|)
  {
    hide GoodLines, ApplyAll, LinesText, LinesEvents, Reaches, GoodRequest, IsEol, Announced;
    var b := r.payload;
    TrailersGood(r);
    NotTrailing(Effect(c.p.flags, 0), b.trailers);
    var e := LinesRun(c, b.trailers);
    d := BlankRun(e, b.end);
    Chain(c, LinesText(b.trailers), e, b.end, d);
    assert c.trace + LinesEvents(b.trailers) + [MessageComplete] == c.trace + (LinesEvents(b.trailers)
        + [MessageComplete]);
  }

  lemma ChunksGood(r: Request)
    requires r.payload.Chunked? && GoodRequest(r)
    ensures GoodChunks(r.payload.chunks) && GoodSize(r.payload.lastSize, 0, r.payload.lastExt)
    ensures Announced(r).flags.chunked
  {
    hide Announced, GoodChunks, GoodSize, GoodRequestLine;
  }

  /** A chunked body, its trailers and the end of the message. */
  lemma ChunkedRun(c: Config, r: Request) returns (d: Config)
    requires c.p.state == ChunkSizeStart && c.url == "" && c.part == "" && c.p.nread == 0
    requires r.payload.Chunked? && GoodRequest(r) && c.p.flags == Announced(r).flags
    ensures Reaches(c, PayloadText(r.payload), d)
    ensures d == Config(c.p.(state := NewMessage(c.p.(flags := FinalFlags(r))), header := d.p.header,
        index := d.p.index,
                             flags := FinalFlags(r), contentLength := d.p.contentLength, nread := Leftover(r)), "", "",
                        c.trace + (PayloadEvents(r.payload) + [MessageComplete]), c.pos + |PayloadText(r.payload)|)
  {
    hide GoodLines, ApplyAll, LinesText, LinesEvents, Reaches, GoodChunks, SizeLine, GoodSize, ChunksText,
      ChunksEvents, FinalFlags, GoodRequest, Announced, TrailerText, Leftover, IsEol;
    ChunksGood(r);
    var b := r.payload;
    var e := ChunksRun(c, b.chunks);
    var f := SizeLineRun(e, b.lastSize, 0, b.lastExt);
    assert f.p.contentLength == 0;
    d := TrailersRun(f, r);
    Chain3(c, ChunksText(b.chunks), e, SizeLine(b.lastSize, b.lastExt), f, TrailerText(b), d);
    assert c.trace + ChunksEvents(b.chunks) + (LinesEvents(b.trailers) + [MessageComplete])
        == c.trace + (ChunksEvents(b.chunks) + LinesEvents(b.trailers) + [MessageComplete]);
  }

  /** What is left of a parser after a request. */
  function AfterRequest(p: Parser, r: Request, q: Parser): Parser {
    p.(state := if Persists(r) then StartReq else Dead, header := q.header, index := q.index, nread := Leftover(r),
       flags := FinalFlags(r), contentLength := q.contentLength, major := MajorOf(r.line.version),
       minor := MinorOf(r.line.version), verb := r.line.verb)
  }

  lemma PayloadRun(c: Config, r: Request, p: Parser) returns (d: Config)
    requires GoodRequest(r) && c.p == AfterHeaders(HeadParser(p, r, c.p)) && c.url == "" && c.part == ""
    requires !Announced(r).flags.trailing
    ensures Reaches(c, PayloadText(r.payload), d)
    ensures d == Config(AfterRequest(p, r, d.p), "", "",
                        c.trace + PayloadEvents(r.payload)
                        + (if r.payload.Sized? && r.payload.data == "" then [] else [MessageComplete]),
                        c.pos + |PayloadText(r.payload)|)
  {
    hide Announced, PayloadText;
    if r.payload.Chunked? {
      d := ChunkedRun(c, r);
      assert c.trace + (PayloadEvents(r.payload) + [MessageComplete])
          == c.trace + PayloadEvents(r.payload) + [MessageComplete];
    } else {
      d := SizedRun(c, r, p);
    }
    hide PayloadEvents, Reaches, GoodRequest, Leftover, FinalFlags;
  }

  lemma SizedFacts(r: Request)
    requires r.payload.Sized? && GoodRequest(r)
    ensures !Announced(r).flags.chunked && Announced(r).contentLength == |r.payload.data| && !Announced(r).flags.upgrade
    ensures r.line.verb != CONNECT
  {
    hide Announced, GoodRequestLine, GoodLines;
  }

  lemma SizedRun(c: Config, r: Request, p: Parser) returns (d: Config)
    requires r.payload.Sized? && GoodRequest(r) && c.p == AfterHeaders(HeadParser(p, r, c.p)) && c.url == ""
        && c.part == ""
    ensures Reaches(c, PayloadText(r.payload), d)
    ensures d == Config(AfterRequest(p, r, d.p), "", "",
                        c.trace + PayloadEvents(r.payload) + (if r.payload.data == "" then [] else [MessageComplete]),
                        c.pos + |PayloadText(r.payload)|)
  {
    hide Announced, GoodRequest, Reaches;
    SizedFacts(r);
    var data := r.payload.data;
    if data == "" {
      ReachNone(c);
      d := c;
      assert c.trace + [] + [] == c.trace;
    } else {
      d := BodyRun(c, data);
    }
  }

  /** Every well-formed request, parsed from a parser between messages, gives the user exactly its parts,
      completes exactly once, and leaves the parser open if and only if the connection persists. */
  lemma RequestRoundTrip(c: Config, r: Request) returns (d: Config)
    requires Ready(c) && GoodRequest(r) && Room(c, |HeadText(r)|)
    ensures Reaches(c, Text(r), d)
    ensures d == Config(AfterRequest(c.p, r, d.p), "", "", c.trace + Events(r), c.pos + |Text(r)|)
  {
    var e := HeadRun(c, r);
    assert BlankEvents(HeadParser(c.p, r, e.p)) ==
      [HeadersComplete] + if r.payload.Sized? && r.payload.data == "" then [MessageComplete] else [];
    hide Announced, UrlEvents, LinesEvents, HeadText, PayloadText, Reaches, BlankEvents;
    d := PayloadRun(e, r, c.p);
    Chain(c, HeadText(r), e, PayloadText(r.payload), d);
    var head := [MessageBegin] + UrlEvents(r.line.target) + LinesEvents(r.fields);
    JoinEvents(c.trace, head, PayloadEvents(r.payload), r.payload.Sized? && r.payload.data == "");
    hide FinalFlags, GoodRequest;
  }

  lemma JoinEvents(trace: seq<Event>, head: seq<Event>, payload: seq<Event>, empty: bool)
    requires empty ==> payload == []
    ensures trace + (head + ([HeadersComplete] + if empty then [MessageComplete] else [])) + payload
            + (if empty then [] else [MessageComplete])
            == trace + (head + [HeadersComplete] + payload + [MessageComplete])
  {
  }

  // ---- conservation of the body ----

  lemma {:induction false} NoBody(trace: seq<Event>)
    requires forall i :: 0 <= i < |trace| ==> trace[i].Data? ==> trace[i].kind != Body
    ensures Texts(Body, trace) == ""
    decreases |trace|
  {
    if trace != [] {
      NoBody(trace[1..]);
    }
  }

  lemma {:induction false} LinesNoBody(ls: seq<FieldLine>)
    ensures Texts(Body, LinesEvents(ls)) == ""
    decreases |ls|
  {
    if ls != [] {
      var two := [Data(Field, ls[0].header.name), Data(Value, ls[0].header.value)];
      NoBody(two);
      TextsAppend(Body, two, LinesEvents(ls[1..]));
      LinesNoBody(ls[1..]);
    }
  }

  lemma OneBody(s: string)
    ensures Texts(Body, [Data(Body, s)]) == s
  {
    TextsOne(Body, Data(Body, s));
    hide Texts;
  }

  lemma {:induction false} ChunksBody(ks: seq<Chunk>)
    ensures Texts(Body, ChunksEvents(ks)) == Joined(ks)
    decreases |ks|
  {
    if ks != [] {
      OneBody(ks[0].data);
      TextsAppend(Body, [Data(Body, ks[0].data)], ChunksEvents(ks[1..]));
      ChunksBody(ks[1..]);
    }
  }

  function PayloadData(b: Payload): string {
    match b
    case Sized(data) => data
    case Chunked(ks, _, _, _, _) => Joined(ks)
  }

  lemma PayloadBody(b: Payload)
    ensures Texts(Body, PayloadEvents(b)) == PayloadData(b)
  {
    hide LinesEvents, ChunksEvents, Joined;
    match b {
      case Sized(data) =>
        OneBody(data);
        NoBody([]);
      case Chunked(ks, _, _, ts, _) =>
        hide Texts;
        ChunksBody(ks);
        LinesNoBody(ts);
        TextsAppend(Body, ChunksEvents(ks), LinesEvents(ts));
    }
  }

  lemma HeadNoBody(r: Request)
    ensures Texts(Body, [MessageBegin] + UrlEvents(r.line.target) + LinesEvents(r.fields) + [HeadersComplete]) == ""
  {
    hide Texts, LinesEvents;
    var start := [MessageBegin] + UrlEvents(r.line.target);
    NoBody(start);
    LinesNoBody(r.fields);
    NoBody([HeadersComplete]);
    TextsAppend(Body, start, LinesEvents(r.fields));
    TextsAppend(Body, start + LinesEvents(r.fields), [HeadersComplete]);
  }

  /** What the user receives of a request's body is the body: its bytes, or its chunks joined. */
  lemma BodyConserved(r: Request)
    ensures Texts(Body, Events(r)) == PayloadData(r.payload)
  {
    hide Texts, LinesEvents, PayloadEvents, PayloadData, UrlEvents;
    HeadNoBody(r);
    PayloadBody(r.payload);
    NoBody([MessageComplete]);
    var head := [MessageBegin] + UrlEvents(r.line.target) + LinesEvents(r.fields) + [HeadersComplete];
    TextsAppend(Body, head, PayloadEvents(r.payload));
    TextsAppend(Body, head + PayloadEvents(r.payload), [MessageComplete]);
  }

  // ---- many requests on one connection, cut anywhere ----

  function TextAll(rs: seq<Request>): string { if rs == [] then "" else Text(rs[0]) + TextAll(rs[1..]) }

  function EventsAll(rs: seq<Request>): seq<Event> { if rs == [] then [] else Events(rs[0]) + EventsAll(rs[1..]) }

  /** Requests that can follow each other: all but the last keep the connection open, and each head fits
      below the header limit together with what the request before it left in the counter. */
  predicate GoodPipeline(nread: nat, rs: seq<Request>)
    decreases |rs|
  {
    rs == [] ||
    (&& GoodRequest(rs[0]) && nread + |HeadText(rs[0])| <= MAX_HEADER
     && (|rs| > 1 ==> Persists(rs[0])) && GoodPipeline(Leftover(rs[0]), rs[1..]))
  }

  lemma OneRequest(rs: seq<Request>)
    requires |rs| == 1
    ensures TextAll(rs) == Text(rs[0]) && EventsAll(rs) == Events(rs[0])
  {
    hide Text, Events;
    assert rs[1..] == [];
    assert Text(rs[0]) + "" == Text(rs[0]) && Events(rs[0]) + [] == Events(rs[0]);
  }

  lemma ReadyAfter(p: Parser, r: Request, q: Parser)
    ensures var a := AfterRequest(p, r, q);
      a.nread == Leftover(r) && a.upgrade == p.upgrade && a.state == if Persists(r) then StartReq else Dead
  {
    hide Persists, Leftover, FinalFlags;
  }

  lemma {:induction false} PipelineRoundTrip(c: Config, rs: seq<Request>) returns (d: Config)
    requires Ready(c) && GoodPipeline(c.p.nread, rs) && rs != []
    ensures Reaches(c, TextAll(rs), d)
    ensures d.trace == c.trace + EventsAll(rs) && d.url == "" && d.part == ""
    ensures d.p.state == if Persists(rs[|rs|-1]) then StartReq else Dead
    decreases |rs|
  {
    hide Text, Events, Reaches, GoodRequest, Persists, HeadText, Leftover, AfterRequest, Announced;
    var r := rs[0];
    var e := RequestRoundTrip(c, r);
    ReadyAfter(c.p, r, e.p);
    if |rs| == 1 {
      d := e;
      OneRequest(rs);
    } else {
      d := PipelineRoundTrip(e, rs[1..]);
      Chain(c, Text(r), e, TextAll(rs[1..]), d);
      TraceAssoc(c.trace, Events(r), EventsAll(rs[1..]));
    }
  }

  lemma {:induction false} LiveBelowLimit(c: Config, data: string)
    requires RunFrom(c, data).Live?
    ensures !HitsLimit(c.p, data)
    decreases |data|
  {
    if data != "" {
      RunStep(c, data);
      var o := Step(c.p, data[0]);
      assert o.Next? ==> !AtLimit(c.p);
      hide Step, AtLimit, Dispatch;
      LiveBelowLimit(Advance(c, data[0], o.p, o.events), data[1..]);
    }
  }

  lemma NothingPending(d: Config)
    requires d.p.state == StartReq || d.p.state == Dead
    ensures Flush(d) == [] && d.trace + Flush(d) == d.trace
  {
  }

  /** A new parser can take the requests of a connection, whatever its memory held before. */
  lemma FreshIsReady(index: nat, header: HeaderState, contentLength: nat, major: nat, minor: nat)
    ensures var p := Init(index, header, contentLength, major, minor);
      Ready(Start(p)) && p.nread == 0 && p.flags == Flags(false, false, false, false, false)
  {
  }

  // ---- what is heard of printed requests ----

  predicate SameKind(e: Event, f: Event) { e.Data? && f.Data? && e.kind == f.kind }

  /** No text follows a text of its kind at once. */
  predicate Apart(a: seq<Event>) { forall i :: 0 < i < |a| ==> !SameKind(a[i - 1], a[i]) }

  /** A trace that does not end in a text, or not in a header name. */
  predicate Settled(a: seq<Event>) { a == [] || !a[|a| - 1].Data? }

  predicate NoFieldLast(a: seq<Event>) { a == [] || !a[|a| - 1].Data? || a[|a| - 1].kind != Field }

  lemma HeardSignal(url: bool, a: seq<Event>, e: Event)
    requires !e.Data?
    ensures Heard(url, a, [e]) == a + [e] && Settled(a + [e]) && NoFieldLast(a + [e])
  {
    HeardOne(url, a, e);
  }

  predicate Follows(a: seq<Event>, t: seq<Event>) { a != [] && t != [] ==> !SameKind(a[|a| - 1], t[0]) }

  predicate AllShown(url: bool, t: seq<Event>) { forall e :: e in t ==> Shown(url, e) }

  /** Such callbacks are heard one by one. */
  lemma {:induction false} HeardApart(url: bool, a: seq<Event>, t: seq<Event>)
    requires AllShown(url, t) && Apart(t) && Follows(a, t)
    ensures Heard(url, a, t) == a + t
    decreases |t|
  {
    if t == [] {
      assert a + t == a;
    } else {
      assert Join(a, t[0]) == a + [t[0]];
      assert forall i :: 0 < i < |t[1..]| ==> t[1..][i - 1] == t[i] && t[1..][i] == t[i + 1];
      HeardApart(url, a + [t[0]], t[1..]);
      assert (a + [t[0]]) + t[1..] == a + t;
    }
  }

  predicate NoneShown(url: bool, t: seq<Event>) { forall e :: e in t ==> !Shown(url, e) }

  lemma {:induction false} HeardNot(url: bool, a: seq<Event>, t: seq<Event>)
    requires NoneShown(url, t)
    ensures Heard(url, a, t) == a
    decreases |t|
  {
    if t != [] {
      HeardNot(url, a, t[1..]);
    }
  }

  /** The parts of a URL that are not empty. */
  function UrlParts(t: Target): seq<Event> {
    (if t.path == "" then [] else [Data(PathPart, t.path)])
    + (if Unmarked('?', Given(t.query)) == "" then [] else [Data(QueryPart, Unmarked('?', Given(t.query)))])
    + (if Unmarked('#', Given(t.fragment)) == "" then [] else [Data(FragmentPart, Unmarked('#', Given(t.fragment)))])
  }

  /** What a user hears of a request, with the pieces of each text joined: the parts of its URL, each header name with
      its value, empty ones included, and the body. */
  function Parts(r: Request): seq<Event> {
    [MessageBegin] + UrlParts(r.line.target) + LinesEvents(r.fields) + [HeadersComplete]
    + (if PayloadData(r.payload) == "" then [] else [Data(Body, PayloadData(r.payload))])
    + LinesEvents(if r.payload.Sized? then [] else r.payload.trailers) + [MessageComplete]
  }

  /** And the URL as a whole. */
  function Link(r: Request): seq<Event> {
    [MessageBegin, Data(Url, UrlText(r.line.target)), HeadersComplete, MessageComplete]
  }

  lemma UrlHeard(a: seq<Event>, t: Target)
    requires GoodTarget(t) && Settled(a)
    ensures Heard(false, a, UrlEvents(t)) == a + UrlParts(t)
    ensures Heard(true, a, UrlEvents(t)) == a + [Data(Url, UrlText(t))]
  {
    var before: seq<Event> := (if t.query.None? then [] else [Data(PathPart, t.path)])
      + if t.fragment.None? then [] else BeforeFragment(t);
    var link, end := [Data(Url, UrlText(t))], AtEnd(t);
    assert UrlEvents(t) == before + link + end;
    UrlOrder(t, before);
    hide UrlText, UrlEvents, BeforeFragment, AtEnd, UrlParts, GoodTarget, Unmarked;
    PartsHeard(a, before, link[0], end);
    LinkOnly(a, before, link[0], end);
  }

  lemma HeardThree(url: bool, a: seq<Event>, s: seq<Event>, t: seq<Event>, u: seq<Event>)
    ensures Heard(url, a, s + t + u) == Heard(url, Heard(url, Heard(url, a, s), t), u)
  {
    hide Heard;
    HeardAppend(url, a, s + t, u);
    HeardAppend(url, a, s, t);
  }

  lemma PartsHeard(a: seq<Event>, before: seq<Event>, link: Event, end: seq<Event>)
    requires Apart(before) && Apart(end) && Settled(a) && link.Data? && link.kind == Url && Follows(before, end)
    requires AllShown(false, before) && AllShown(false, end)
    ensures Heard(false, a, before + [link] + end) == a + (before + end)
  {
    hide Heard, Join, Apart, Settled, Follows, AllShown;
    SettledFollows(a, before);
    FollowsOn(a, before, end);
    HeardOne(false, a + before, link);
    HeardThree(false, a, before, [link], end);
    HeardApart(false, a, before);
    HeardApart(false, a + before, end);
    TraceAssoc(a, before, end);
  }

  lemma LinkOnly(a: seq<Event>, before: seq<Event>, link: Event, end: seq<Event>)
    requires Settled(a) && link.Data? && link.kind == Url && NoneShown(true, before) && NoneShown(true, end)
    ensures Heard(true, a, before + [link] + end) == a + [link]
  {
    hide Heard, Join, Settled, NoneShown;
    HeardThree(true, a, before, [link], end);
    HeardNot(true, a, before);
    LinkJoins(a, link);
    HeardNot(true, a + [link], end);
  }

  lemma LinkJoins(a: seq<Event>, link: Event)
    requires Settled(a) && link.Data? && link.kind == Url
    ensures Heard(true, a, [link]) == a + [link]
  {
    hide Heard;
    HeardOne(true, a, link);
  }

  lemma SettledFollows(a: seq<Event>, t: seq<Event>)
    requires Settled(a)
    ensures Follows(a, t)
  {
  }

  lemma FollowsOn(a: seq<Event>, b: seq<Event>, t: seq<Event>)
    requires Settled(a) && Follows(b, t)
    ensures Follows(a + b, t)
  {
    assert b != [] ==> (a + b)[|a + b| - 1] == b[|b| - 1];
    assert b == [] ==> a + b == a;
  }

  /** The callbacks around that of the URL are those of its parts, each once. */
  lemma UrlOrder(t: Target, before: seq<Event>)
    requires GoodTarget(t)
    requires before == (if t.query.None? then [] else [Data(PathPart, t.path)])
                       + if t.fragment.None? then [] else BeforeFragment(t)
    ensures before + AtEnd(t) == UrlParts(t) && Apart(before) && Apart(AtEnd(t))
    ensures AllShown(false, before) && AllShown(false, AtEnd(t)) && NoneShown(true, before) && NoneShown(true, AtEnd(t))
    ensures Follows(before, AtEnd(t))
  {
    hide GoodOrigin, GoodPath, GoodQuery, GoodFragment;
  }

  lemma {:induction false} LinesHeard(a: seq<Event>, ls: seq<FieldLine>)
    requires NoFieldLast(a)
    ensures Heard(false, a, LinesEvents(ls)) == a + LinesEvents(ls)
    decreases |ls|
  {
    hide Heard;
    if ls == [] {
      HeardOne(false, a, MessageBegin);
      assert a + [] == a;
    } else {
      var two := [Data(Field, ls[0].header.name), Data(Value, ls[0].header.value)];
      HeardAppend(false, a, two, LinesEvents(ls[1..]));
      HeardApart(false, a, two);
      LinesHeard(a + two, ls[1..]);
      assert (a + two) + LinesEvents(ls[1..]) == a + (two + LinesEvents(ls[1..]));
    }
  }

  lemma {:induction false} LinesSilent(a: seq<Event>, ls: seq<FieldLine>)
    ensures Heard(true, a, LinesEvents(ls)) == a
    decreases |ls|
  {
    hide Heard;
    if ls == [] {
      HeardOne(true, a, MessageBegin);
    } else {
      var two := [Data(Field, ls[0].header.name), Data(Value, ls[0].header.value)];
      HeardAppend(true, a, two, LinesEvents(ls[1..]));
      HeardNot(true, a, two);
      LinesSilent(a, ls[1..]);
    }
  }

  /** Chunks are heard as one body. */
  lemma {:induction false} ChunksHeard(a: seq<Event>, ks: seq<Chunk>)
    ensures Heard(false, a, ChunksEvents(ks)) == if ks == [] then a else Join(a, Data(Body, Joined(ks)))
    ensures Heard(true, a, ChunksEvents(ks)) == a
    decreases |ks|
  {
    hide Heard, Join;
    if ks == [] {
      HeardOne(false, a, MessageBegin);
      HeardOne(true, a, MessageBegin);
    } else {
      var e := Data(Body, ks[0].data);
      HeardAppend(false, a, [e], ChunksEvents(ks[1..]));
      HeardAppend(true, a, [e], ChunksEvents(ks[1..]));
      HeardOne(false, a, e);
      HeardOne(true, a, e);
      ChunksHeard(Join(a, e), ks[1..]);
      ChunksHeard(a, ks[1..]);
      JoinTwice(a, Body, ks[0].data, Joined(ks[1..]));
      assert ks[1..] == [] ==> ks[0].data + "" == ks[0].data;
    }
  }

  lemma PayloadHeard(a: seq<Event>, r: Request)
    requires GoodRequest(r) && Settled(a)
    ensures Heard(false, a, PayloadEvents(r.payload)) ==
      a + (if PayloadData(r.payload) == "" then [] else [Data(Body, PayloadData(r.payload))])
      + LinesEvents(if r.payload.Sized? then [] else r.payload.trailers)
    ensures Heard(true, a, PayloadEvents(r.payload)) == a
  {
    hide Heard, GoodLines, GoodRequestLine, Announced, IsEol, IsExtension;
    match r.payload {
      case Sized(data) =>
        HeardOne(false, a, Data(Body, data));
        HeardOne(true, a, Data(Body, data));
        assert a + [] + [] == a && a + [Data(Body, data)] + [] == a + [Data(Body, data)];
      case Chunked(ks, _, _, ts, _) =>
        ChunksNotEmpty(ks);
        ChunksHeard(a, ks);
        var b := if ks == [] then a else a + [Data(Body, Joined(ks))];
        assert ks == [] ==> a + [] == a;
        HeardAppend(false, a, ChunksEvents(ks), LinesEvents(ts));
        HeardAppend(true, a, ChunksEvents(ks), LinesEvents(ts));
        LinesHeard(b, ts);
        LinesSilent(a, ts);
    }
  }

  lemma ChunksNotEmpty(ks: seq<Chunk>)
    requires GoodChunks(ks)
    ensures ks == [] <==> Joined(ks) == ""
  {
    if ks != [] {
      assert GoodChunk(ks[0]);
    }
  }

  lemma HeardSix(url: bool, a: seq<Event>, s: seq<Event>, t: seq<Event>, u: seq<Event>, v: seq<Event>, w: seq<Event>,
                 x: seq<Event>)
    ensures Heard(url, a, s + t + u + v + w + x) ==
            Heard(url, Heard(url, Heard(url, Heard(url, Heard(url, Heard(url, a, s), t), u), v), w), x)
  {
    HeardAppend(url, a, s + t + u + v + w, x);
    HeardAppend(url, a, s + t + u + v, w);
    HeardAppend(url, a, s + t + u, v);
    HeardAppend(url, a, s + t, u);
    HeardAppend(url, a, s, t);
    hide Heard;
  }

  lemma PartsBehind(a: seq<Event>, t: Target)
    requires NoFieldLast(a)
    ensures NoFieldLast(a + UrlParts(t))
  {
    hide Unmarked;
    assert UrlParts(t) != [] ==> (a + UrlParts(t))[|a + UrlParts(t)| - 1] == UrlParts(t)[|UrlParts(t)| - 1];
    assert UrlParts(t) == [] ==> a + UrlParts(t) == a;
  }

  /** What is heard of a request, part by part. */
  function Stages(url: bool, a: seq<Event>, r: Request): seq<Event> {
    var head := Heard(url, Heard(url, Heard(url, a, [MessageBegin]), UrlEvents(r.line.target)), LinesEvents(r.fields));
    Heard(url, Heard(url, Heard(url, head, [HeadersComplete]), PayloadEvents(r.payload)), [MessageComplete])
  }

  /** One request, heard after others. */
  lemma RequestHeard(a: seq<Event>, r: Request)
    requires GoodRequest(r) && Settled(a)
    ensures Heard(false, a, Events(r)) == a + Parts(r)
    ensures Heard(true, a, Events(r)) == a + Link(r)
  {
    HeadHeard(a, r);
    LinkHeard(a, r);
    var t, fields, load := UrlEvents(r.line.target), LinesEvents(r.fields), PayloadEvents(r.payload);
    hide Heard, GoodRequest, UrlEvents, LinesEvents, PayloadEvents, Parts, Link;
    HeardSix(false, a, [MessageBegin], t, fields, [HeadersComplete], load, [MessageComplete]);
    HeardSix(true, a, [MessageBegin], t, fields, [HeadersComplete], load, [MessageComplete]);
  }

  lemma HeadHeard(a: seq<Event>, r: Request)
    requires GoodRequest(r) && Settled(a)
    ensures Stages(false, a, r) == a + Parts(r)
  {
    hide Heard, GoodRequest, GoodTarget, UrlEvents, UrlParts, LinesEvents, PayloadEvents, PayloadData, Settled,
      NoFieldLast;
    GoodParts(r);
    HeardSignal(false, a, MessageBegin);
    var a1 := a + [MessageBegin];
    UrlHeard(a1, r.line.target);
    var a2 := a1 + UrlParts(r.line.target);
    PartsBehind(a1, r.line.target);
    LinesHeard(a2, r.fields);
    var a3 := a2 + LinesEvents(r.fields);
    HeardSignal(false, a3, HeadersComplete);
    var a4 := a3 + [HeadersComplete];
    PayloadHeard(a4, r);
    var body: seq<Event> := if PayloadData(r.payload) == "" then [] else [Data(Body, PayloadData(r.payload))];
    var trailers := LinesEvents(if r.payload.Sized? then [] else r.payload.trailers);
    HeardSignal(false, a4 + body + trailers, MessageComplete);
    SevenParts(a, [MessageBegin], UrlParts(r.line.target), LinesEvents(r.fields), [HeadersComplete], body, trailers,
               [MessageComplete]);
  }

  lemma SevenParts(a: seq<Event>, s: seq<Event>, t: seq<Event>, u: seq<Event>, v: seq<Event>, w: seq<Event>,
                   x: seq<Event>, y: seq<Event>)
    ensures a + s + t + u + v + w + x + y == a + (s + t + u + v + w + x + y)
  {
  }

  lemma GoodParts(r: Request)
    requires GoodRequest(r)
    ensures GoodTarget(r.line.target)
  {
  }

  lemma LinkHeard(a: seq<Event>, r: Request)
    requires GoodRequest(r) && Settled(a)
    ensures Stages(true, a, r) == a + Link(r)
  {
    hide Heard, GoodRequest, GoodTarget, UrlEvents, LinesEvents, PayloadEvents, UrlText, Settled, NoFieldLast;
    GoodParts(r);
    HeardSignal(true, a, MessageBegin);
    var a1 := a + [MessageBegin];
    UrlHeard(a1, r.line.target);
    var a2 := a1 + [Data(Url, UrlText(r.line.target))];
    LinesSilent(a2, r.fields);
    HeardSignal(true, a2, HeadersComplete);
    PayloadHeard(a2 + [HeadersComplete], r);
    HeardSignal(true, a2 + [HeadersComplete], MessageComplete);
  }

  function PartsAll(rs: seq<Request>): seq<Event> { if rs == [] then [] else Parts(rs[0]) + PartsAll(rs[1..]) }

  function LinkAll(rs: seq<Request>): seq<Event> { if rs == [] then [] else Link(rs[0]) + LinkAll(rs[1..]) }

  lemma {:induction false} AllHeard(a: seq<Event>, nread: nat, rs: seq<Request>)
    requires GoodPipeline(nread, rs) && Settled(a)
    ensures Heard(false, a, EventsAll(rs)) == a + PartsAll(rs)
    ensures Heard(true, a, EventsAll(rs)) == a + LinkAll(rs)
    decreases |rs|
  {
    hide Heard, GoodRequest, Events, Persists, HeadText, Leftover, Parts, Link, Settled;
    if rs == [] {
      HeardOne(false, a, MessageBegin);
      HeardOne(true, a, MessageBegin);
      assert a + [] == a;
    } else {
      var r, rest := rs[0], rs[1..];
      RequestHeard(a, r);
      HeardAppend(false, a, Events(r), EventsAll(rest));
      HeardAppend(true, a, Events(r), EventsAll(rest));
      EndsOf(a, r);
      AllHeard(a + Parts(r), Leftover(r), rest);
      AllHeard(a + Link(r), Leftover(r), rest);
      assert (a + Parts(r)) + PartsAll(rest) == a + (Parts(r) + PartsAll(rest));
      assert (a + Link(r)) + LinkAll(rest) == a + (Link(r) + LinkAll(rest));
    }
  }

  lemma EndsOf(a: seq<Event>, r: Request)
    ensures Settled(a + Parts(r)) && Settled(a + Link(r))
  {
    hide UrlParts, LinesEvents, PayloadData, UrlText;
    assert Parts(r)[|Parts(r)| - 1] == MessageComplete && Link(r)[|Link(r)| - 1] == MessageComplete;
  }

  /** Requests sent one after the other reach the user whole and in order, however the network cuts them: the URL, its
      parts, every header name with its value, and the body are heard as they were printed. */
  lemma PipelineAnyCut(p: Parser, rs: seq<Request>, pieces: seq<string>)
    requires Inv(p) && p.state == StartReq && !p.upgrade && rs != [] && GoodPipeline(p.nread, rs)
    requires Cuts(pieces, TextAll(rs))
    ensures CallAll(p, pieces).Fine?
    ensures Heard(false, [], CallAll(p, pieces).trace) == PartsAll(rs)
    ensures Heard(true, [], CallAll(p, pieces).trace) == LinkAll(rs)
    ensures CallAll(p, pieces).p.state == if Persists(rs[|rs|-1]) then StartReq else Dead
  {
    hide RunFrom, HitsLimit, Inv, TextAll, EventsAll, GoodPipeline, Persists, Heard, CallAll, Flush, PartsAll, LinkAll;
    var d := PipelineRoundTrip(Start(p), rs);
    LiveBelowLimit(Start(p), TextAll(rs));
    NonemptyText(rs);
    SplitIndependence(p, TextAll(rs), pieces, false);
    SplitIndependence(p, TextAll(rs), pieces, true);
    NothingPending(d);
    assert [] + EventsAll(rs) == EventsAll(rs);
    AllHeard([], p.nread, rs);
    assert [] + PartsAll(rs) == PartsAll(rs) && [] + LinkAll(rs) == LinkAll(rs);
  }

  /** The same for the imperative parser: one call of Execute on printed requests makes exactly their callbacks. */
  method ParsePrinted(parser: HttpParser, rs: seq<Request>) returns (n: nat)
    requires parser.state == StartReq && !parser.upgrade && rs != [] && GoodPipeline(parser.nread, rs)
    modifies parser
    ensures n == |TextAll(rs)| && parser.trace == old(parser.trace) + EventsAll(rs)
    ensures parser.state == if Persists(rs[|rs|-1]) then StartReq else Dead
  {
    hide RunFrom, TextAll, EventsAll, GoodPipeline, Persists, Flush;
    ghost var p := parser.View();
    ghost var d := PipelineRoundTrip(Start(p), rs);
    NothingPending(d);
    NonemptyText(rs);
    n := parser.Execute(TextAll(rs));
    assert [] + EventsAll(rs) == EventsAll(rs);
  }

  lemma NonemptyText(rs: seq<Request>)
    requires rs != []
    ensures TextAll(rs) != ""
  {
    assert VerbText(rs[0].line) != "" by {
      hide Spaces;
    }
    hide VerbText, EndText, UrlText, VersionText, LinesText, PayloadText;
  }
}
