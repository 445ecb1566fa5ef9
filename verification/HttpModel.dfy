/** The request half of the push parser of http_parser.c, as a function of one byte.

    A byte is a `char`; every character from 128 up behaves the same way, as it does
    in the tables of the source, so all results hold for every byte string.  */
module HttpModel {

  datatype State =
    | Dead
    | StartReq | ReqMethod | SpacesBeforeUrl
    | Schema | SchemaSlash | SchemaSlashSlash | Host | Port
    | Path | QueryStart | Query | FragmentStart | Fragment
    | HttpStart | HttpH | HttpHT | HttpHTT | HttpHTTP
    | FirstMajor | Major | FirstMinor | Minor | ReqLineAlmostDone
    | HeaderFieldStart | HeaderField | HeaderValueStart | HeaderValue | HeaderAlmostDone
    | ChunkSizeStart | ChunkSize | ChunkParameters | ChunkSizeAlmostDone
    | HeadersAlmostDone
    | ChunkData | ChunkDataAlmostDone | ChunkDataDone
    | BodyIdentity

  /** `M` states are still matching a known word, `H` and `V` states have matched all of it. */
  datatype HeaderState =
    | HGeneral | HC | HCO | HCON
    | MConnection | MProxyConnection | MContentLength | MTransferEncoding | MUpgrade
    | HConnection | HContentLength | HTransferEncoding | HUpgrade
    | MChunked | MKeepAlive | MClose
    | VChunked | VKeepAlive | VClose

  datatype Method =
    | DELETE | GET | HEAD | POST | PUT | CONNECT | OPTIONS | TRACE | COPY | LOCK | MKCOL | MOVE
    | PROPFIND | PROPPATCH | UNLOCK | REPORT | MKACTIVITY | CHECKOUT | MERGE | MSEARCH | NOTIFY
    | SUBSCRIBE | UNSUBSCRIBE

  datatype Flags = Flags(chunked: bool, keepAlive: bool, close: bool, trailing: bool, upgrade: bool)

  const NO_FLAGS := Flags(false, false, false, false, false)

  datatype Parser = Parser(
    state: State, header: HeaderState, index: nat, nread: nat,
    flags: Flags, contentLength: nat, major: nat, minor: nat, verb: Method, upgrade: bool)

  datatype Kind = Url | PathPart | QueryPart | FragmentPart | Field | Value | Body

  /** What a callback tells the user. */
  datatype Event = MessageBegin | HeadersComplete | MessageComplete | Data(kind: Kind, text: string)

  /** The result of one byte.  `Fault` is an assertion of the source failing, a read past the end of
      a string, or a pointer moved backwards: the source gives it no meaning.  `Exit` is the early
      return for an upgraded connection.  */
  datatype Outcome =
    | Next(p: Parser, events: seq<Event>)
    | Error(p: Parser, events: seq<Event>)
    | Exit(p: Parser, events: seq<Event>)
    | Fault

  const CR := '\r'
  const LF := '\n'
  const NUL := '\0'
  const MAX_HEADER := 80 * 1024
  const SIZE_LIMIT := 0x1_0000_0000_0000_0000
  const SIGNED_LIMIT := 0x8000_0000_0000_0000
  /** What storing -1 in a size_t leaves there. */
  const NO_LENGTH := SIZE_LIMIT - 1

  const CONNECTION := "connection"
  const PROXY_CONNECTION := "proxy-connection"
  const CONTENT_LENGTH := "content-length"
  const TRANSFER_ENCODING := "transfer-encoding"
  const UPGRADE := "upgrade"
  const CHUNKED := "chunked"
  const KEEP_ALIVE := "keep-alive"
  const CLOSE := "close"

  // ---- character tables ----

  predicate IsDigit(ch: char) { '0' <= ch <= '9' }

  function DigitValue(ch: char): nat
    requires IsDigit(ch)
  {
    ch as int - '0' as int
  }

  /** The bitwise or with 0x20; a character above 127 stays one. */
  function Lower(ch: char): char {
    var n := ch as int;
    if n < 128 && (n / 32) % 2 == 0 then (n + 32) as char else ch
  }

  predicate IsLetter(ch: char) { 'a' <= Lower(ch) <= 'z' }

  /** The lower-cased character of a token, or NUL for a character that no token has. */
  function Token(ch: char): char {
    if 'A' <= ch <= 'Z' then (ch as int + 32) as char
    else if 'a' <= ch <= 'z' || IsDigit(ch) then ch
    else if ' ' <= ch <= '\'' || ch == '*' || ch == '+' || '-' <= ch <= '/' then ch
    else if '^' <= ch <= '`' || '|' <= ch <= '~' then ch
    else NUL
  }

  /** The table lists 128 entries of 256; the others are zero, not -1. */
  function Unhex(ch: char): int {
    if IsDigit(ch) then ch as int - '0' as int
    else if 'a' <= ch <= 'f' then ch as int - 'a' as int + 10
    else if 'A' <= ch <= 'F' then ch as int - 'A' as int + 10
    else if ch as int >= 128 then 0
    else -1
  }

  predicate NormalUrlChar(ch: char) { '!' <= ch <= '~' && ch != '#' && ch != '?' }

  /** C string indexing: the terminator sits at index |s|. */
  function At(s: string, i: nat): char
    requires i <= |s|
  {
    if i < |s| then s[i] else NUL
  }

  function MethodString(m: Method): (s: string)
    ensures 0 < |s| <= 11
  {
    match m
    case DELETE => "DELETE" case GET => "GET" case HEAD => "HEAD" case POST => "POST"
    case PUT => "PUT" case CONNECT => "CONNECT" case OPTIONS => "OPTIONS" case TRACE => "TRACE"
    case COPY => "COPY" case LOCK => "LOCK" case MKCOL => "MKCOL" case MOVE => "MOVE"
    case PROPFIND => "PROPFIND" case PROPPATCH => "PROPPATCH" case UNLOCK => "UNLOCK"
    case REPORT => "REPORT" case MKACTIVITY => "MKACTIVITY" case CHECKOUT => "CHECKOUT"
    case MERGE => "MERGE" case MSEARCH => "M-SEARCH" case NOTIFY => "NOTIFY"
    case SUBSCRIBE => "SUBSCRIBE" case UNSUBSCRIBE => "UNSUBSCRIBE"
  }

  predicate ParsingHeader(s: State) {
    !(s.ChunkData? || s.ChunkDataAlmostDone? || s.ChunkDataDone? || s.BodyIdentity?)
  }

  predicate ShouldKeepAlive(p: Parser) {
    if p.major > 0 && p.minor > 0 then !p.flags.close else p.flags.keepAlive
  }

  function NewMessage(p: Parser): State {
    if ShouldKeepAlive(p) then StartReq else Dead
  }

  function Init(index: nat, header: HeaderState, contentLength: nat, major: nat, minor: nat): Parser {
    Parser(StartReq, header, index, 0, NO_FLAGS, contentLength, major, minor, DELETE, false)
  }

  // ---- the switch of http_parser_execute, one function for each part of a message ----

  function Go(p: Parser, s: State): Outcome { Next(p.(state := s), []) }

  function Fail(p: Parser): Outcome { Error(p, []) }

  /** A state that accepts exactly one character. */
  function Expect(p: Parser, ch: char, want: char, s: State): Outcome {
    if ch == want then Go(p, s) else Fail(p)
  }

  function FirstLetter(ch: char): Method
    requires ch in "CDGHLMNOPRSTU"
  {
    match ch
    case 'C' => CONNECT case 'D' => DELETE case 'G' => GET case 'H' => HEAD case 'L' => LOCK
    case 'M' => MKCOL case 'N' => NOTIFY case 'O' => OPTIONS case 'P' => POST case 'R' => REPORT
    case 'S' => SUBSCRIBE case 'T' => TRACE case _ => UNLOCK
  }

  function StepStart(p: Parser, ch: char): Outcome {
    if ch == CR || ch == LF then Next(p, [])
    else
      var q := p.(flags := NO_FLAGS, contentLength := NO_LENGTH);
      if !('A' <= ch <= 'Z') then Error(q, [MessageBegin])
      else if ch !in "CDGHLMNOPRSTU" then Error(q.(verb := DELETE), [MessageBegin])
      else Next(q.(verb := FirstLetter(ch), index := 1, state := ReqMethod), [MessageBegin])
  }

  /** A letter that the current method name does not have: another method, the same one, or an error. */
  function OtherMethod(m: Method, index: nat, ch: char): (r: (bool, Method)) {
    if m == CONNECT then
      (true, if index == 1 && ch == 'H' then CHECKOUT else if index == 2 && ch == 'P' then COPY else m)
    else if m == MKCOL then
      (true, if index == 1 && ch == 'O' then MOVE
             else if index == 1 && ch == 'E' then MERGE
             else if index == 1 && ch == '-' then MSEARCH
             else if index == 2 && ch == 'A' then MKACTIVITY else m)
    else if index == 1 && m == POST && ch == 'R' then (true, PROPFIND)
    else if index == 1 && m == POST && ch == 'U' then (true, PUT)
    else if index == 2 && m == UNLOCK && ch == 'S' then (true, UNSUBSCRIBE)
    else if index == 4 && m == PROPFIND && ch == 'P' then (true, PROPPATCH)
    else (false, m)
  }

  function StepMethod(p: Parser, ch: char): Outcome {
    var name := MethodString(p.verb);
    if ch == NUL then Fail(p)
    else if p.index > |name| then Fault
    else
      var q := p.(index := p.index + 1);
      if ch == ' ' && p.index == |name| then Go(q, SpacesBeforeUrl)
      else if ch == At(name, p.index) then Next(q, [])
      else
        var (ok, m) := OtherMethod(p.verb, p.index, ch);
        if ok then Next(q.(verb := m), []) else Fail(p)
  }

  /** The end of a request line inside the URL. */
  function EndOfUrl(ch: char): State {
    if ch == ' ' then HttpStart
    else if ch == CR then ReqLineAlmostDone
    else if ch == LF then HeaderFieldStart
    else Dead
  }

  /** The states of the URL; `Dead` is an error. */
  function UrlNext(s: State, ch: char): State {
    if s.SpacesBeforeUrl? then
      if ch == ' ' then s
      else if ch == '/' || ch == '*' then Path
      else if IsLetter(ch) then Schema else Dead
    else if s.Schema? then
      if IsLetter(ch) then s
      else if ch == ':' then SchemaSlash
      else if ch == '.' || IsDigit(ch) then Host else Dead
    else if s.SchemaSlash? then if ch == '/' then SchemaSlashSlash else Dead
    else if s.SchemaSlashSlash? then if ch == '/' then Host else Dead
    else if s.Host? then
      if IsLetter(ch) || IsDigit(ch) || ch == '.' || ch == '-' then s
      else if ch == ':' then Port
      else if ch == '/' then Path
      else if ch == ' ' then HttpStart else Dead
    else if s.Port? then
      if IsDigit(ch) then s
      else if ch == '/' then Path
      else if ch == ' ' then HttpStart else Dead
    else if s.Path? then
      if NormalUrlChar(ch) then s
      else if ch == '?' then QueryStart
      else if ch == '#' then FragmentStart
      else EndOfUrl(ch)
    else if s.QueryStart? then
      if NormalUrlChar(ch) then Query
      else if ch == '?' then s
      else if ch == '#' then FragmentStart
      else EndOfUrl(ch)
    else if s.Query? then
      if NormalUrlChar(ch) || ch == '?' then s
      else if ch == '#' then FragmentStart
      else EndOfUrl(ch)
    else if s.FragmentStart? then
      if NormalUrlChar(ch) || ch == '?' then Fragment
      else if ch == '#' then s
      else EndOfUrl(ch)
    else if s.Fragment? then
      if NormalUrlChar(ch) || ch == '?' || ch == '#' then s else EndOfUrl(ch)
    else Dead
  }

  /** A request line that ends inside the URL is HTTP/0.9. */
  function StepUrl(p: Parser, ch: char): Outcome {
    var s := UrlNext(p.state, ch);
    if s == Dead then Fail(p)
    else if s == ReqLineAlmostDone || s == HeaderFieldStart then Go(p.(major := 0, minor := 9), s)
    else Go(p, s)
  }

  /** The fixed characters of the HTTP version and the end of the line; `Dead` is an error. */
  function FixedNext(s: State, ch: char): State {
    if s.HttpStart? then if ch == ' ' then s else if ch == 'H' then HttpH else Dead
    else if s.HttpH? then if ch == 'T' then HttpHT else Dead
    else if s.HttpHT? then if ch == 'T' then HttpHTT else Dead
    else if s.HttpHTT? then if ch == 'P' then HttpHTTP else Dead
    else if s.HttpHTTP? then if ch == '/' then FirstMajor else Dead
    else if s.Major? then if ch == '.' then FirstMinor else Dead
    else if s.Minor? then if ch == CR then ReqLineAlmostDone else if ch == LF then HeaderFieldStart else Dead
    else if s.ReqLineAlmostDone? then if ch == LF then HeaderFieldStart else Dead
    else Dead
  }

  function StepVersion(p: Parser, ch: char): Outcome {
    if FixedNext(p.state, ch) != Dead then Go(p, FixedNext(p.state, ch))
    else if !IsDigit(ch) then Fail(p)
    else
      if p.state.FirstMajor? then if ch == '0' then Fail(p) else Go(p.(major := DigitValue(ch)), Major)
      else if p.state.Major? then
        var q := p.(major := p.major * 10 + DigitValue(ch));
        if q.major > 999 then Fail(q) else Next(q, [])
      else if p.state.FirstMinor? then Go(p.(minor := DigitValue(ch)), Minor)
      else if p.state.Minor? then
        var q := p.(minor := p.minor * 10 + DigitValue(ch));
        if q.minor > 999 then Fail(q) else Next(q, [])
      else Fail(p)
  }

  function FirstHeaderState(c: char): HeaderState {
    if c == 'c' then HC
    else if c == 'p' then MProxyConnection
    else if c == 't' then MTransferEncoding
    else if c == 'u' then MUpgrade
    else HGeneral
  }

  function StepFieldStart(p: Parser, ch: char): Outcome {
    if ch == CR then Go(p, HeadersAlmostDone)
    else if ch == LF then StepHeadersEnd(p.(state := HeadersAlmostDone), ch)
    else if Token(ch) == NUL then Fail(p)
    else Next(p.(index := 0, state := HeaderField, header := FirstHeaderState(Token(ch))), [])
  }

  /** One character of a known word; `i` is the index after it was incremented. */
  function MatchWord(word: string, i: nat, c: char, matching: HeaderState, done: HeaderState): HeaderState {
    if i > |word| || c != At(word, i) then HGeneral
    else if i == |word| - 1 then done
    else matching
  }

  /** A name character; a header state that no name has is the failed assertion of the source. */
  predicate NameState(h: HeaderState) {
    h.HGeneral? || h.HC? || h.HCO? || h.HCON? || h.MConnection? || h.MProxyConnection?
    || h.MContentLength? || h.MTransferEncoding? || h.MUpgrade?
    || h.HConnection? || h.HContentLength? || h.HTransferEncoding? || h.HUpgrade?
  }

  predicate NameCounts(h: HeaderState) {
    NameState(h) && !(h.HGeneral? || h.HConnection? || h.HContentLength? || h.HTransferEncoding? || h.HUpgrade?)
  }

  function NameStep(h: HeaderState, index: nat, ch: char): (r: (HeaderState, nat))
    requires NameState(h)
    ensures NameState(r.0)
  {
    var c := Token(ch);
    var i := if NameCounts(h) then index + 1 else index;
    (if h.HC? then if c == 'o' then HCO else HGeneral
     else if h.HCO? then if c == 'n' then HCON else HGeneral
     else if h.HCON? then if c == 'n' then MConnection else if c == 't' then MContentLength else HGeneral
     else if h.MConnection? then MatchWord(CONNECTION, i, c, h, HConnection)
     else if h.MProxyConnection? then MatchWord(PROXY_CONNECTION, i, c, h, HConnection)
     else if h.MContentLength? then MatchWord(CONTENT_LENGTH, i, c, h, HContentLength)
     else if h.MTransferEncoding? then MatchWord(TRANSFER_ENCODING, i, c, h, HTransferEncoding)
     else if h.MUpgrade? then MatchWord(UPGRADE, i, c, h, HUpgrade)
     else if h == HGeneral || ch != ' ' then HGeneral else h,
     i)
  }

  function StepField(p: Parser, ch: char): Outcome {
    if Token(ch) != NUL then
      if !NameState(p.header) then Fault
      else
        var (h, i) := NameStep(p.header, p.index, ch);
        Next(p.(header := h, index := i), [])
    else if ch == ':' then Go(p, HeaderValueStart)
    else if ch == CR then Go(p, HeaderAlmostDone)
    else if ch == LF then Go(p, HeaderFieldStart)
    else Fail(p)
  }

  function StepValueStart(p: Parser, ch: char): Outcome {
    if ch == ' ' then Next(p, [])
    else
      var q := p.(index := 0, state := HeaderValue);
      if ch == CR then Next(q.(header := HGeneral, state := HeaderAlmostDone), [Data(Value, "")])
      else if ch == LF then Next(q.(state := HeaderFieldStart), [Data(Value, "")])
      else
        if p.header.HUpgrade? then Next(q.(flags := q.flags.(upgrade := true), header := HGeneral), [])
        else if p.header.HTransferEncoding? then Next(q.(header := if Lower(ch) == 'c' then MChunked else HGeneral), [])
        else if p.header.HContentLength? then
          if !IsDigit(ch) then Fail(q) else Next(q.(contentLength := DigitValue(ch)), [])
        else if p.header.HConnection? then
          Next(q.(header := if Lower(ch) == 'k' then MKeepAlive
                            else if Lower(ch) == 'c' then MClose else HGeneral), [])
        else Next(q.(header := HGeneral), [])
  }

  /** Value characters other than those of a Content-Length. */
  function ValueStep(h: HeaderState, index: nat, ch: char): (HeaderState, nat) {
    var c := Lower(ch);
    if h.MChunked? then (MatchWord(CHUNKED, index + 1, c, h, VChunked), index + 1)
    else if h.MKeepAlive? then (MatchWord(KEEP_ALIVE, index + 1, c, h, VKeepAlive), index + 1)
    else if h.MClose? then (MatchWord(CLOSE, index + 1, c, h, VClose), index + 1)
    else if h.VChunked? then (if ch == ' ' then h else HGeneral, index)
    else if h.VKeepAlive? then (if ch == ' ' then h else HGeneral, index)
    else if h.VClose? then (if ch == ' ' then h else HGeneral, index)
    else (HGeneral, index)
  }

  function StepValue(p: Parser, ch: char): Outcome {
    if ch == CR then Go(p, HeaderAlmostDone)
    else if ch == LF then StepLineEnd(p, ch)
    else
      if p.header.HConnection? then Fault
      else if p.header.HTransferEncoding? then Fault
      else if p.header.HContentLength? then
        if ch == ' ' then Next(p, [])
        else if !IsDigit(ch) then Fail(p)
        else Next(p.(contentLength := (p.contentLength * 10 + DigitValue(ch)) % SIZE_LIMIT), [])
      else
        var (h, i) := ValueStep(p.header, p.index, ch);
        Next(p.(header := h, index := i), [])
  }

  /** The flags that a complete header line leaves behind. */
  function AddFlag(f: Flags, h: HeaderState): Flags {
    if h.VKeepAlive? then f.(keepAlive := true)
    else if h.VClose? then f.(close := true)
    else if h.VChunked? then f.(chunked := true)
    else f
  }

  function StepLineEnd(p: Parser, ch: char): Outcome {
    if ch != LF then Fail(p)
    else Next(p.(state := HeaderFieldStart, flags := AddFlag(p.flags, p.header)), [])
  }

  function StepHeadersEnd(p: Parser, ch: char): Outcome {
    if ch != LF then Fail(p)
    else if p.flags.trailing then Next(p.(state := NewMessage(p)), [MessageComplete])
    else
      var q := p.(nread := 0, upgrade := p.upgrade || p.flags.upgrade || p.verb == CONNECT);
      if q.upgrade then Exit(q, [HeadersComplete, MessageComplete])
      else if q.flags.chunked then Next(q.(state := ChunkSizeStart), [HeadersComplete])
      else if q.contentLength == 0 then Next(q.(state := NewMessage(q)), [HeadersComplete, MessageComplete])
      else Next(q.(state := BodyIdentity), [HeadersComplete])
  }

  function StepChunkSize(p: Parser, ch: char): Outcome {
    if p.state.ChunkSizeStart? then
      if p.nread != 1 || !p.flags.chunked then Fault
      else if Unhex(ch) == -1 then Fail(p)
      else Go(p.(contentLength := Unhex(ch)), ChunkSize)
    else if p.state.ChunkSize? then
      if !p.flags.chunked then Fault
      else if ch == CR then Go(p, ChunkSizeAlmostDone)
      else if Unhex(ch) != -1 then
        Next(p.(contentLength := (p.contentLength * 16 + Unhex(ch)) % SIZE_LIMIT), [])
      else if ch == ';' || ch == ' ' then Go(p, ChunkParameters)
      else Fail(p)
    else if p.state.ChunkParameters? then
      if !p.flags.chunked then Fault
      else if ch == CR then Go(p, ChunkSizeAlmostDone) else Next(p, [])
    else if p.state.ChunkSizeAlmostDone? then
      if !p.flags.chunked then Fault
      else if ch != LF then Fail(p)
      else
        var q := p.(nread := 0);
        if q.contentLength == 0 then Go(q.(flags := q.flags.(trailing := true)), HeaderFieldStart)
        else Go(q, ChunkData)
    else Fault
  }

  /** Body states, one byte at a time; the source takes as many bytes at once as it has. */
  function StepBody(p: Parser, ch: char): Outcome {
    if p.state.BodyIdentity? then
      if p.contentLength == 0 then Next(p, [])
      else
        var q := p.(contentLength := p.contentLength - 1);
        if q.contentLength == 0 then Next(q.(state := NewMessage(q)), [MessageComplete]) else Next(q, [])
    else if p.state.ChunkData? then
      if !p.flags.chunked || p.contentLength >= SIGNED_LIMIT then Fault
      else if p.contentLength <= 1 then Go(p.(contentLength := 0), ChunkDataAlmostDone)
      else Next(p.(contentLength := p.contentLength - 1), [])
    else if p.state.ChunkDataAlmostDone? then if !p.flags.chunked then Fault else Expect(p, ch, CR, ChunkDataDone)
    else if p.state.ChunkDataDone? then if !p.flags.chunked then Fault else Expect(p, ch, LF, ChunkSizeStart)
    else Fault
  }

  function Dispatch(p: Parser, ch: char): Outcome {
    if p.state.Dead? then Fail(p)
    else if p.state.StartReq? then StepStart(p, ch)
    else if p.state.ReqMethod? then StepMethod(p, ch)
    else if p.state.HeaderFieldStart? then StepFieldStart(p, ch)
    else if p.state.HeaderField? then StepField(p, ch)
    else if p.state.HeaderValueStart? then StepValueStart(p, ch)
    else if p.state.HeaderValue? then StepValue(p, ch)
    else if p.state.HeaderAlmostDone? then StepLineEnd(p, ch)
    else if p.state.HeadersAlmostDone? then StepHeadersEnd(p, ch)
    else if InChunkSize(p.state) then StepChunkSize(p, ch)
    else if !ParsingHeader(p.state) then StepBody(p, ch)
    else if InUrl(p.state) then StepUrl(p, ch)
    else StepVersion(p, ch)
  }

  predicate InChunkSize(s: State) {
    s.ChunkSizeStart? || s.ChunkSize? || s.ChunkParameters? || s.ChunkSizeAlmostDone?
  }

  predicate InUrl(s: State) {
    s.SpacesBeforeUrl? || s.Schema? || s.SchemaSlash? || s.SchemaSlashSlash? || s.Host? || s.Port?
    || s.Path? || s.QueryStart? || s.Query? || s.FragmentStart? || s.Fragment?
  }

  predicate InVersion(s: State) {
    s.HttpStart? || s.HttpH? || s.HttpHT? || s.HttpHTT? || s.HttpHTTP? || s.FirstMajor? || s.Major?
    || s.FirstMinor? || s.Minor? || s.ReqLineAlmostDone?
  }

  /** One byte: the header-size limit, then the switch. */
  function Step(p: Parser, ch: char): Outcome {
    if !ParsingHeader(p.state) then Dispatch(p, ch)
    else
      var q := p.(nread := p.nread + 1);
      if q.nread > MAX_HEADER then Fail(q) else Dispatch(q, ch)
  }
}
