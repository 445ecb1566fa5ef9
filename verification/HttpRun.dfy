/** Runs of the parser: the callbacks that one call of http_parser_execute makes, text included,
    and the call itself as a loop over marks and bulk body reads.  */
module HttpRun {
  import opened HttpModel

  datatype Span = Closed | Open(kind: Kind)

  /** The parser inside a call: `url` and `part` are the texts since the open marks, `pos` counts bytes. */
  datatype Config = Config(p: Parser, url: string, part: string, trace: seq<Event>, pos: nat)

  datatype Run = Live(c: Config) | Failed(c: Config) | Exited(c: Config) | Undefined

  /** url_mark is set exactly in these states. */
  predicate UrlOpen(s: State) {
    InUrl(s) && !s.SpacesBeforeUrl?
  }

  /** At most one of the other five marks is set, or the parser is inside a body. */
  function OpenPart(p: Parser): Span {
    if p.state.Path? then Open(PathPart)
    else if p.state.Query? then Open(QueryPart)
    else if p.state.Fragment? then Open(FragmentPart)
    else if p.state.HeaderField? then Open(Field)
    else if p.state.HeaderValue? then Open(Value)
    else if p.state.BodyIdentity? then if p.contentLength > 0 then Open(Body) else Closed
    else if p.state.ChunkData? then if p.contentLength > 0 then Open(Body) else Closed
    else Closed
  }

  function Start(p: Parser): Config { Config(p, "", "", [], 0) }

  function NextUrl(c: Config, ch: char, q: Parser): string {
    if !UrlOpen(q.state) then "" else if UrlOpen(c.p.state) then c.url + [ch] else [ch]
  }

  function NextPart(c: Config, ch: char, q: Parser): string {
    var from, to := OpenPart(c.p), OpenPart(q);
    if to == Closed || (to == Open(Body) && from != to) then ""
    else if from == to then c.part + [ch] else [ch]
  }

  /** The callbacks for the marks that a byte clears. */
  function Clear(c: Config, ch: char, q: Parser): seq<Event> {
    var from, to := OpenPart(c.p), OpenPart(q);
    (if UrlOpen(c.p.state) && !UrlOpen(q.state) then [Data(Url, c.url)] else [])
    + (if from == Closed || from == to then []
       else if from == Open(Body) then [Data(Body, c.part + [ch])]
       else [Data(from.kind, c.part)])
  }

  function Advance(c: Config, ch: char, q: Parser, events: seq<Event>): Config {
    Config(q, NextUrl(c, ch, q), NextPart(c, ch, q), c.trace + Clear(c, ch, q) + events, c.pos + 1)
  }

  function StepRun(c: Config, ch: char): Run {
    match Step(c.p, ch)
    case Next(q, events) => Live(Advance(c, ch, q, events))
    case Error(q, events) => Failed(c.(p := q.(state := Dead), trace := c.trace + events))
    case Exit(q, events) => Exited(c.(p := q, trace := c.trace + events))
    case Fault => Undefined
  }

  function RunFrom(c: Config, data: string): Run
    decreases |data|
  {
    if data == "" then Live(c)
    else match StepRun(c, data[0])
      case Live(c') => RunFrom(c', data[1..])
      case r => r
  }

  /** Callbacks at the end of a call for marks still set. */
  function Flush(c: Config): seq<Event> {
    (match OpenPart(c.p)
     case Closed => []
     case Open(k) => if k == Body && c.part == "" then [] else [Data(k, c.part)])
    + (if UrlOpen(c.p.state) then [Data(Url, c.url)] else [])
  }

  /** `index` and `nread` leave a call through a cast to unsigned char. */
  function Narrow(p: Parser): Parser { p.(index := p.index % 256, nread := p.nread % 256) }

  lemma RunDone(c: Config)
    ensures RunFrom(c, "") == Live(c)
  {
  }

  lemma {:induction false} RunAppend(c: Config, a: string, b: string)
    ensures RunFrom(c, a + b) ==
            match RunFrom(c, a) case Live(c') => RunFrom(c', b) case r => r
    decreases |a|
  {
    if a == "" {
      assert a + b == b;
    } else {
      assert (a + b)[0] == a[0] && (a + b)[1..] == a[1..] + b;
      match StepRun(c, a[0]) {
        case Live(c') => RunAppend(c', a[1..], b);
        case _ =>
      }
    }
  }

  // ---- bulk body reads ----

  /** The body states in which the source hands many bytes to on_body at once. */
  predicate InBody(p: Parser) {
    && OpenPart(p) == Open(Body)
    && (p.state == ChunkData ==> p.flags.chunked && p.contentLength < SIGNED_LIMIT)
  }

  /** What the source does to its fields after delivering `k` bytes. */
  function AfterBody(p: Parser, k: nat): Parser
    requires InBody(p) && k <= p.contentLength
  {
    var q := p.(contentLength := p.contentLength - k);
    if q.contentLength > 0 then q
    else if p.state == ChunkData then q.(state := ChunkDataAlmostDone)
    else q.(state := NewMessage(q))
  }

  function AfterBodyConfig(c: Config, text: string): Config
    requires InBody(c.p) && |text| <= c.p.contentLength
  {
    var q := AfterBody(c.p, |text|);
    var done := q.contentLength == 0;
    Config(q, c.url, if done then "" else c.part + text,
           c.trace + (if !done then [] else [Data(Body, c.part + text)]
                                            + if c.p.state == BodyIdentity then [MessageComplete] else []),
           c.pos + |text|)
  }

  lemma BodyStep(p: Parser, ch: char)
    requires InBody(p)
    ensures Step(p, ch) == Next(AfterBody(p, 1),
      if p.state == BodyIdentity && p.contentLength == 1 then [MessageComplete] else [])
    ensures OpenPart(AfterBody(p, 1)) == if p.contentLength == 1 then Closed else Open(Body)
  {
    assert !ParsingHeader(p.state);
  }

  lemma BodyStepRun(c: Config, ch: char)
    requires InBody(c.p) && c.url == ""
    ensures Step(c.p, ch).Next?
    ensures Advance(c, ch, Step(c.p, ch).p, Step(c.p, ch).events) == AfterBodyConfig(c, [ch])
  {
    BodyStep(c.p, ch);
  }

  /** One unfolding of a run, stated on the switch. */
  lemma RunStep(c: Config, data: string)
    requires data != ""
    ensures RunFrom(c, data) ==
            match Step(c.p, data[0])
            case Next(q, events) => RunFrom(Advance(c, data[0], q, events), data[1..])
            case Error(q, events) => Failed(c.(p := q.(state := Dead), trace := c.trace + events))
            case Exit(q, events) => Exited(c.(p := q, trace := c.trace + events))
            case Fault => Undefined
  {
    hide Step, Advance;
  }

  lemma AfterBodyTwice(c: Config, s: string, t: string)
    requires InBody(c.p) && |s| + |t| <= c.p.contentLength && t != ""
    ensures var c' := AfterBodyConfig(c, s); InBody(c'.p) && |t| <= c'.p.contentLength && c'.url == c.url
    ensures AfterBodyConfig(AfterBodyConfig(c, s), t) == AfterBodyConfig(c, s + t)
  {
    assert (c.part + s) + t == c.part + (s + t);
    AfterBodyOften(c.p, |s|, |t|);
    hide AfterBody, NewMessage;
  }

  lemma AfterBodyOften(p: Parser, j: nat, k: nat)
    requires InBody(p) && j + k <= p.contentLength && k > 0
    ensures InBody(AfterBody(p, j)) && AfterBody(p, j).contentLength == p.contentLength - j
        && AfterBody(p, j).state == p.state
    ensures AfterBody(AfterBody(p, j), k) == AfterBody(p, j + k)
        && AfterBody(p, j + k).contentLength == p.contentLength - j - k
  {
  }

  /** Jumping over `k` body bytes is consuming them one by one. */
  lemma {:induction false} BulkIsBytewise(c: Config, data: string, k: nat)
    requires InBody(c.p) && c.url == "" && 0 < k <= |data| && k <= c.p.contentLength
    ensures RunFrom(c, data) == RunFrom(AfterBodyConfig(c, data[..k]), data[k..])
    decreases k
  {
    hide RunFrom, Step, Advance, AfterBodyConfig;
    BodyStepRun(c, data[0]);
    var c' := AfterBodyConfig(c, [data[0]]);
    RunStep(c, data);
    if k == 1 {
      assert data[..1] == [data[0]];
    } else {
      assert |data[1..k]| == k - 1;
      AfterBodyTwice(c, [data[0]], data[1..k]);
      BulkIsBytewise(c', data[1..], k - 1);
      assert data[1..][k-1..] == data[k..];
      assert data[1..][..k-1] == data[1..k];
      assert [data[0]] + data[1..k] == data[..k];
    }
  }

  // ---- marks ----

  /** The marks of a call, as positions in its data, hold the texts of the open spans. */
  ghost predicate Marked(c: Config, data: string, urlMark: nat, partMark: nat) {
    && c.pos <= |data|
    && (if UrlOpen(c.p.state) then urlMark <= c.pos && c.url == data[urlMark..c.pos] else c.url == "")
    && match OpenPart(c.p)
       case Closed => c.part == ""
       case Open(k) =>
         if k == Body then c.part == "" || c.pos == |data|
         else partMark <= c.pos && c.part == data[partMark..c.pos]
  }

  function PendingBody(c: Config): seq<Event> {
    if OpenPart(c.p) == Open(Body) && c.part != "" then [Data(Body, c.part)] else []
  }

  lemma StuckBody(p: Parser, ch: char)
    requires OpenPart(p) == Open(Body) && !InBody(p)
    ensures Step(p, ch) == Fault
  {
  }

  lemma StartMarked(p: Parser, data: string)
    ensures Marked(Start(p), data, 0, 0) && PendingBody(Start(p)) == []
  {
  }

  /** The callbacks for cleared marks, cut out of the data. */
  function Cut(q: Parser, r: Parser, data: string, urlMark: nat, partMark: nat, i: nat): seq<Event>
    requires i <= |data|
    requires UrlOpen(q.state) ==> urlMark <= i
    requires OpenPart(q) != Closed ==> partMark <= i
  {
    (if UrlOpen(q.state) && !UrlOpen(r.state) then [Data(Url, data[urlMark..i])] else [])
    + (if OpenPart(q) != Closed && OpenPart(q) != OpenPart(r)
       then [Data(OpenPart(q).kind, data[partMark..i])] else [])
  }

  /** A mark that is set or moves with the byte at `at`. */
  lemma Grown(data: string, mark: nat, at: nat)
    requires at < |data|
    ensures mark <= at ==> data[mark..at] + [data[at]] == data[mark..at + 1]
    ensures [data[at]] == data[at..at + 1]
  {
  }

  lemma MarkByte(c: Config, data: string, urlMark: nat, partMark: nat, q: Parser, events: seq<Event>)
    requires Marked(c, data, urlMark, partMark) && c.pos < |data| && !InBody(c.p)
    requires Step(c.p, data[c.pos]) == Next(q, events)
    ensures UrlOpen(c.p.state) ==> urlMark <= c.pos
    ensures OpenPart(c.p) != Closed ==> partMark <= c.pos
    ensures var d := Advance(c, data[c.pos], q, events);
      && Marked(d, data, if UrlOpen(c.p.state) then urlMark else c.pos,
                if OpenPart(c.p) == OpenPart(q) then partMark else c.pos)
      && d.pos == c.pos + 1 && d.p == q
      && d.trace + PendingBody(d) == c.trace + PendingBody(c) + Cut(c.p, q, data, urlMark, partMark, c.pos) + events
  {
    hide Step, InBody;
    if OpenPart(c.p) == Open(Body) {
      StuckBody(c.p, data[c.pos]);
    }
    Grown(data, urlMark, c.pos);
    Grown(data, partMark, c.pos);
  }

  lemma MarkStop(c: Config, data: string, urlMark: nat, partMark: nat)
    requires Marked(c, data, urlMark, partMark) && c.pos < |data|
    ensures PendingBody(c) == []
  {
  }

  lemma MarkBulk(c: Config, data: string, urlMark: nat, partMark: nat, k: nat)
    requires Marked(c, data, urlMark, partMark) && InBody(c.p)
    requires 0 < k <= c.p.contentLength && c.pos + k <= |data|
    requires k == c.p.contentLength || c.pos + k == |data|
    ensures c.url == ""
    ensures var d := AfterBodyConfig(c, data[c.pos..c.pos+k]);
      && Marked(d, data, urlMark, partMark) && d.pos == c.pos + k && d.p == AfterBody(c.p, k)
      && d.trace + PendingBody(d) == c.trace + PendingBody(c) + [Data(Body, data[c.pos..c.pos+k])]
           + if k == c.p.contentLength && c.p.state == BodyIdentity then [MessageComplete] else []
  {
    assert c.part + data[c.pos..c.pos+k] == data[c.pos..c.pos+k];
  }

  lemma MarkEnd(c: Config, data: string, urlMark: nat, partMark: nat)
    requires Marked(c, data, urlMark, partMark) && c.pos == |data|
    ensures UrlOpen(c.p.state) ==> urlMark <= c.pos
    ensures OpenPart(c.p) != Closed && OpenPart(c.p) != Open(Body) ==> partMark <= c.pos
    ensures Flush(c) == PendingBody(c)
      + (if OpenPart(c.p) != Closed && OpenPart(c.p) != Open(Body)
         then [Data(OpenPart(c.p).kind, data[partMark..c.pos])] else [])
      + (if UrlOpen(c.p.state) then [Data(Url, data[urlMark..c.pos])] else [])
  {
  }

  // ---- http_parser_execute ----

  datatype Ending = Finished | Broken | Upgraded | Crashed

  lemma BodyLeft(p: Parser)
    requires InBody(p)
    ensures p.contentLength > 0
  {
  }

  lemma Sliced(data: string, i: nat, k: nat)
    requires i < |data| && i + k <= |data|
    ensures data[i..][..k] == data[i..i+k] && data[i..][k..] == data[i+k..] && data[i..][0] == data[i]
  {
  }

  /** The loop of http_parser_execute over a nonempty buffer: marks are positions, a body is taken in bulk,
      `calls` are the callbacks made, `n` the bytes read.  */
  method Scan(p: Parser, data: string) returns (how: Ending, q: Parser, calls: seq<Event>, n: nat)
    ensures match RunFrom(Start(p), data)
            case Live(c) => how == Finished && q == c.p && calls == c.trace + Flush(c) && n == |data|
            case Failed(c) => how == Broken && q.(state := Dead) == c.p && calls == c.trace && n == c.pos
            case Exited(c) => how == Upgraded && q == c.p && calls == c.trace && n == c.pos
            case Undefined => how == Crashed
  {
    hide Step, RunFrom, Advance, AfterBodyConfig, Marked, PendingBody, Flush, Cut, AfterBody, OpenPart, UrlOpen, InBody;
    q, calls := p, [];
    var urlMark, partMark, i := 0, 0, 0;
    ghost var c := Start(q);
    assert data[0..] == data;
    StartMarked(q, data);
    while i < |data|
      invariant i == c.pos <= |data| && c.p == q
      invariant RunFrom(Start(p), data) == RunFrom(c, data[i..])
      invariant Marked(c, data, urlMark, partMark)
      invariant calls == c.trace + PendingBody(c)
    {
      Sliced(data, i, 1);
      if InBody(q) {
        BodyLeft(q);
        var k := if |data| - i < q.contentLength then |data| - i else q.contentLength;
        Sliced(data, i, k);
        MarkBulk(c, data, urlMark, partMark, k);
        BulkIsBytewise(c, data[i..], k);
        c := AfterBodyConfig(c, data[i..i+k]);
        calls := calls + [Data(Body, data[i..i+k])];
        if k == q.contentLength && q.state == BodyIdentity {
          calls := calls + [MessageComplete];
        }
        q := AfterBody(q, k);
        i := i + k;
      } else {
        RunStep(c, data[i..]);
        match Step(q, data[i]) {
          case Next(r, events) =>
            MarkByte(c, data, urlMark, partMark, r, events);
            calls := calls + Cut(q, r, data, urlMark, partMark, i) + events;
            urlMark := if UrlOpen(q.state) then urlMark else i;
            partMark := if OpenPart(q) == OpenPart(r) then partMark else i;
            c := Advance(c, data[i], r, events);
            q, i := r, i + 1;
          case Error(r, events) =>
            MarkStop(c, data, urlMark, partMark);
            return Broken, r, calls + events, i;
          case Exit(r, events) =>
            MarkStop(c, data, urlMark, partMark);
            return Upgraded, r, calls + events, i;
          case Fault =>
            return Crashed, q, calls, i;
        }
      }
    }
    assert data[i..] == "";
    RunDone(c);
    MarkEnd(c, data, urlMark, partMark);
    if OpenPart(q) != Closed && OpenPart(q) != Open(Body) {
      calls := calls + [Data(OpenPart(q).kind, data[partMark..i])];
    }
    if UrlOpen(q.state) {
      calls := calls + [Data(Url, data[urlMark..i])];
    }
    return Finished, q, calls, |data|;
  }

  lemma NarrowFields(p: Parser)
    ensures Narrow(p) == p.(index := p.index % 256, nread := p.nread % 256)
  {
  }

  /** `trace` records the callbacks; every callback returns 0. */
  class HttpParser {
    var state: State
    var headerState: HeaderState
    var index: nat
    var nread: nat
    var flags: Flags
    var contentLength: nat
    var major: nat
    var minor: nat
    var verb: Method
    var upgrade: bool
    var trace: seq<Event>

    function View(): Parser
      reads this
    {
      Parser(state, headerState, index, nread, flags, contentLength, major, minor, verb, upgrade)
    }

    /** http_parser_init for a request parser; the other fields keep what the memory held. */
    constructor (header: HeaderState, index: nat, contentLength: nat, major: nat, minor: nat)
      ensures View() == Init(index, header, contentLength, major, minor) && trace == []
    {
      state, headerState, this.index, nread, flags := StartReq, header, index, 0, NO_FLAGS;
      this.contentLength, this.major, this.minor, verb, upgrade := contentLength, major, minor, DELETE, false;
      trace := [];
    }

    /** The fields that the source writes as it goes, not only on return. */
    method StoreMessage(q: Parser)
      modifies this
      ensures View() == q.(state := old(state), header := old(headerState), index := old(index), nread := old(nread))
      ensures trace == old(trace)
    {
      flags, contentLength, major, minor := q.flags, q.contentLength, q.major, q.minor;
      verb, upgrade := q.verb, q.upgrade;
    }

    method Execute(data: string) returns (n: nat)
      modifies this
      ensures data == "" ==> View() == old(View()) && trace == old(trace)
                             && n == if old(state) == Dead || old(state) == StartReq then 0 else 1
      ensures data != "" ==>
        match RunFrom(Start(old(View())), data)
        case Live(c) =>
          n == |data| && View() == Narrow(c.p) && trace == old(trace) + c.trace + Flush(c)
        case Failed(c) =>
          n == c.pos && trace == old(trace) + c.trace
          && View() == c.p.(header := old(headerState), index := old(index), nread := old(nread))
        case Exited(c) =>
          n == c.pos && trace == old(trace) + c.trace
          && View() == c.p.(state := old(state), header := old(headerState), index := old(index), nread := old(nread))
        case Undefined => true
    {
      hide RunFrom, Flush, Narrow;
      if data == "" {
        return if state == Dead || state == StartReq then 0 else 1;
      }
      var how, q, calls, k := Scan(View(), data);
      n, trace := k, trace + calls;
      StoreMessage(q);
      match how {
        case Finished =>
          ghost var view := Narrow(q);
          NarrowFields(q);
          state, headerState, index, nread := q.state, q.header, q.index % 256, q.nread % 256;
          assert View() == view;
        case Broken => state := Dead;
        case Upgraded =>
        case Crashed =>
      }
    }
  }
}
