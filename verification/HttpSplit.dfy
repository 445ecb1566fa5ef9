/** Cutting the input into calls at any place gives the same parser state and lets the user hear the same.  */
module HttpSplit {
  import opened HttpModel
  import opened HttpRun
  import opened HttpInvariant
  import opened HttpHeard

  // ---- the header counter, the only thing a cut changes ----

  /** `q` is `p` after some calls in between: its header counter lost multiples of 256. */
  predicate Same(p: Parser, q: Parser) {
    && q == p.(nread := q.nread)
    && q.nread <= p.nread && p.nread % 256 == q.nread % 256
  }

  predicate AtLimit(p: Parser) { ParsingHeader(p.state) && p.nread >= MAX_HEADER }

  /** Two outcomes that differ in the counter at most. */
  predicate Alike(p: Parser, q: Parser, o: Outcome, r: Outcome) {
    match o
    case Next(p', events) =>
      r.Next? && r.events == events && r.p == p'.(nread := r.p.nread)
      && ((p'.nread == p.nread && r.p.nread == q.nread) || (p'.nread == 0 && r.p.nread == 0))
    case Error(_, events) => r.Error? && r.events == events
    case Exit(_, events) => r.Exit? && r.events == events
    case Fault => r.Fault?
  }

  /** Header states, which the counter does not reach. */
  predicate InField(s: State) {
    s.HeaderField? || s.HeaderValueStart? || s.HeaderValue? || s.HeaderAlmostDone?
  }

  lemma FieldAlike(p: Parser, q: Parser, ch: char)
    requires q == p.(nread := q.nread) && InField(p.state)
    ensures Alike(p, q, Dispatch(p, ch), Dispatch(q, ch))
  {
    hide NameStep, ValueStep, AddFlag, Token, Lower, IsDigit, DigitValue;
  }

  lemma UrlAlike(p: Parser, q: Parser, ch: char)
    requires q == p.(nread := q.nread) && InUrl(p.state)
    ensures Alike(p, q, Dispatch(p, ch), Dispatch(q, ch))
  {
    hide UrlNext;
  }

  lemma VersionAlike(p: Parser, q: Parser, ch: char)
    requires q == p.(nread := q.nread) && InVersion(p.state)
    ensures Alike(p, q, Dispatch(p, ch), Dispatch(q, ch))
  {
    hide FixedNext, IsDigit, DigitValue;
  }

  lemma LineAlike(p: Parser, q: Parser, ch: char)
    requires q == p.(nread := q.nread)
    requires p.state == Dead || p.state == StartReq || p.state == ReqMethod
    ensures Alike(p, q, Dispatch(p, ch), Dispatch(q, ch))
  {
    hide UrlNext, FixedNext, OtherMethod, MethodString, IsDigit, DigitValue, FirstLetter;
  }

  lemma BodyAlike(p: Parser, q: Parser, ch: char)
    requires q == p.(nread := q.nread) && !ParsingHeader(p.state)
    ensures Alike(p, q, Dispatch(p, ch), Dispatch(q, ch))
  {
  }

  lemma DispatchAlike(p: Parser, q: Parser, ch: char)
    requires q == p.(nread := q.nread)
    requires p.state == ChunkSizeStart ==> p.nread == 1 && q.nread == 1
    ensures Alike(p, q, Dispatch(p, ch), Dispatch(q, ch))
  {
    hide Alike, Dispatch;
    if p.state == HeaderFieldStart || p.state == HeadersAlmostDone {
      EndAlike(p, q, ch);
    } else if InChunkSize(p.state) {
      ChunkAlike(p, q, ch);
    } else {
      if InField(p.state) {
        FieldAlike(p, q, ch);
      } else if !ParsingHeader(p.state) {
        BodyAlike(p, q, ch);
      } else if InUrl(p.state) {
        UrlAlike(p, q, ch);
      } else if InVersion(p.state) {
        VersionAlike(p, q, ch);
      } else {
        LineAlike(p, q, ch);
      }
    }
  }

  lemma EndAlike(p: Parser, q: Parser, ch: char)
    requires q == p.(nread := q.nread) && (p.state == HeaderFieldStart || p.state == HeadersAlmostDone)
    ensures Alike(p, q, Dispatch(p, ch), Dispatch(q, ch))
  {
    hide FirstHeaderState;
  }

  lemma ChunkAlike(p: Parser, q: Parser, ch: char)
    requires q == p.(nread := q.nread) && InChunkSize(p.state)
    requires p.state == ChunkSizeStart ==> p.nread == 1 && q.nread == 1
    ensures Alike(p, q, Dispatch(p, ch), Dispatch(q, ch))
  {
    hide Unhex;
  }

  lemma StepSame(p: Parser, q: Parser, ch: char)
    requires Inv(p) && Same(p, q) && !AtLimit(p)
    ensures Alike(Counted(p), Counted(q), Step(p, ch), Step(q, ch))
    ensures Step(p, ch).Next? ==> Same(Step(p, ch).p, Step(q, ch).p)
  {
    hide Dispatch, Alike, Inv, Same, AtLimit;
    SameCounted(p, q);
    DispatchAlike(Counted(p), Counted(q), ch);
    StepsOn(p, ch);
    StepsOn(q, ch);
    AlikeSame(Counted(p), Counted(q), Step(p, ch), Step(q, ch));
  }

  lemma SameCounted(p: Parser, q: Parser)
    requires Inv(p) && Same(p, q) && !AtLimit(p)
    ensures !AtLimit(q) && Same(Counted(p), Counted(q)) && Counted(q) == Counted(p).(nread := Counted(q).nread)
    ensures Counted(p).state == ChunkSizeStart ==> Counted(p).nread == 1 && Counted(q).nread == 1
  {
  }

  lemma StepsOn(p: Parser, ch: char)
    requires !AtLimit(p)
    ensures Step(p, ch) == Dispatch(Counted(p), ch)
  {
    hide Dispatch;
  }

  lemma AlikeSame(p: Parser, q: Parser, o: Outcome, r: Outcome)
    requires Same(p, q) && Alike(p, q, o, r)
    ensures o.Next? ==> r.Next? && Same(o.p, r.p)
  {
  }

  /** The limit stops a byte that the switch would take: one that it refuses fails at the same place anyway. */
  predicate Stopped(p: Parser, ch: char) { AtLimit(p) && !Dispatch(p.(nread := 1), ch).Error? }

  /** The header limit, and nothing else, stops the run somewhere in `data`. */
  predicate HitsLimit(p: Parser, data: string)
    decreases |data|
  {
    data != "" && (Stopped(p, data[0]) || (Step(p, data[0]).Next? && HitsLimit(Step(p, data[0]).p, data[1..])))
  }

  lemma LimitStops(p: Parser, ch: char)
    ensures AtLimit(p) ==> Step(p, ch).Error? && Step(p, ch).events == []
  {
    hide Dispatch;
  }

  /** The callbacks of a byte that fails are those of one at the limit, or of one below it; none but the beginning of a
      message, and only between messages. */
  predicate Fails(p: Parser, o: Outcome, r: Outcome) {
    && o.Error? && r.Error? && (o.events == r.events || o.events == [])
    && (r.events == [] || (r.events == [MessageBegin] && p.state == StartReq))
  }

  lemma ErrorEvents(p: Parser, ch: char)
    ensures Dispatch(p, ch).Error? ==>
      Dispatch(p, ch).events == [] || (Dispatch(p, ch).events == [MessageBegin] && p.state == StartReq)
  {
    hide UrlNext, FixedNext, NameStep, ValueStep, OtherMethod, Token, Unhex, Lower;
  }

  lemma ExitState(p: Parser, ch: char)
    ensures Dispatch(p, ch).Exit? ==> p.state == HeaderFieldStart || p.state == HeadersAlmostDone
  {
    hide UrlNext, FixedNext, NameStep, ValueStep, OtherMethod, Token, Unhex, Lower;
  }

  lemma RefusedSame(p: Parser, q: Parser, ch: char)
    requires Inv(p) && Same(p, q) && AtLimit(p) && !Stopped(p, ch)
    ensures Fails(p, Step(p, ch), Step(q, ch))
  {
    hide Dispatch;
    LimitStops(p, ch);
    LimitStops(q, ch);
    ErrorEvents(Counted(q), ch);
    if !AtLimit(q) {
      DispatchAlike(p.(nread := 1), Counted(q), ch);
      StepsOn(q, ch);
    }
  }

  /** From states that differ only in the counter, a byte that the limit does not stop ends alike. */
  lemma ByteSame(p: Parser, q: Parser, ch: char)
    requires Inv(p) && Same(p, q) && !Stopped(p, ch)
    ensures match Step(p, ch)
      case Next(p', events) => Step(q, ch).Next? && Step(q, ch).events == events && Same(p', Step(q, ch).p)
      case Error(_, _) => Fails(p, Step(p, ch), Step(q, ch))
      case Exit(_, events) =>
        && Step(q, ch).Exit? && Step(q, ch).events == events
        && (p.state == HeaderFieldStart || p.state == HeadersAlmostDone)
      case Fault => Step(q, ch).Fault?
  {
    if AtLimit(p) {
      RefusedSame(p, q, ch);
    } else {
      StepSame(p, q, ch);
      StepsOn(p, ch);
      ErrorEvents(Counted(p), ch);
      ExitState(Counted(p), ch);
    }
    hide Step, Dispatch, Inv, Same, AtLimit;
  }

  /** What was heard before a failure, of one call and of several: at most a piece of text, or a message begun, more. */
  ghost predicate Ahead(x: seq<Event>, y: seq<Event>) {
    y == x || exists e: Event :: (e.Data? || e.MessageBegin?) && y == Join(x, e)
  }

  lemma SameKinds(url: bool, p: Parser, q: Parser)
    requires Same(p, q)
    ensures OpenKind(url, p) == OpenKind(url, q)
  {
  }

  lemma NothingOpen(url: bool, p: Parser)
    requires p.state == StartReq || p.state == HeaderFieldStart || p.state == HeadersAlmostDone
    ensures OpenKind(url, p) == Closed
  {
  }

  lemma FailsAhead(url: bool, a: seq<Event>, c: Config, b: seq<Event>, d: Config, o: Outcome, r: Outcome)
    requires Lag(url, a, c, b, d) && Fails(c.p, o, r)
    ensures Ahead(Heard(url, a, c.trace + o.events), Heard(url, b, d.trace + r.events))
  {
    HeardAppend(url, a, c.trace, o.events);
    HeardAppend(url, b, d.trace, r.events);
    var x, y := Heard(url, a, c.trace), Heard(url, b, d.trace);
    HeardOne(url, x, MessageBegin);
    HeardOne(url, y, MessageBegin);
    if r.events != [] {
      NothingOpen(url, c.p);
    }
    hide Heard, Join, OpenKind;
  }

  lemma ExitsSame(url: bool, a: seq<Event>, c: Config, b: seq<Event>, d: Config, events: seq<Event>)
    requires Lag(url, a, c, b, d) && (c.p.state == HeaderFieldStart || c.p.state == HeadersAlmostDone)
    ensures Heard(url, a, c.trace + events) == Heard(url, b, d.trace + events)
  {
    HeardAppend(url, a, c.trace, events);
    HeardAppend(url, b, d.trace, events);
    NothingOpen(url, c.p);
    hide Heard, Join, OpenKind;
  }

  /** From states that differ only in the counter, two runs over the same bytes end alike, with the same callbacks
      but for cuts. */
  lemma {:induction false} RunSame(url: bool, a: seq<Event>, c: Config, b: seq<Event>, d: Config, data: string)
    requires Inv(c.p) && Same(c.p, d.p) && !HitsLimit(c.p, data) && Lag(url, a, c, b, d)
    ensures match RunFrom(c, data)
      case Live(c') =>
        && RunFrom(d, data).Live? && Inv(c'.p) && Same(c'.p, RunFrom(d, data).c.p)
        && Lag(url, a, c', b, RunFrom(d, data).c)
      case Failed(c') =>
        && RunFrom(d, data).Failed? && RunFrom(d, data).c.pos - d.pos == c'.pos - c.pos
        && Ahead(Heard(url, a, c'.trace), Heard(url, b, RunFrom(d, data).c.trace))
      case Exited(c') =>
        && RunFrom(d, data).Exited? && RunFrom(d, data).c.pos - d.pos == c'.pos - c.pos
        && Heard(url, a, c'.trace) == Heard(url, b, RunFrom(d, data).c.trace)
      case Undefined => RunFrom(d, data).Undefined?
    decreases |data|
  {
    if data == "" {
      RunDone(c);
      RunDone(d);
    } else {
      ByteSame(c.p, d.p, data[0]);
      StepInv(c.p, data[0]);
      StepQuiet(c.p, data[0]);
      RunStep(c, data);
      RunStep(d, data);
      var o, r := Step(c.p, data[0]), Step(d.p, data[0]);
      hide Step, Inv, Lag, Ahead, Fails, Quiet, Heard, Advance, Same;
      if o.Next? {
        SameKinds(url, o.p, r.p);
        LagStep(url, a, c, b, d, data[0], o.p, r.p, o.events);
        AdvanceTo(c, data[0], o.p, o.events);
        AdvanceTo(d, data[0], r.p, r.events);
        RunSame(url, a, Advance(c, data[0], o.p, o.events), b, Advance(d, data[0], r.p, r.events), data[1..]);
      } else if o.Error? {
        ErrorsBoth(c.p, o, r);
        FailsAhead(url, a, c, b, d, o, r);
      } else if o.Exit? {
        ExitsSame(url, a, c, b, d, o.events);
      }
    }
  }

  lemma ErrorsBoth(p: Parser, o: Outcome, r: Outcome)
    requires Fails(p, o, r)
    ensures o.Error? && r.Error?
  {
  }

  // ---- many calls ----

  /** Calls that all read their buffers, calls of which the last fails or leaves for an upgrade after `read` bytes in
      all, or undefined ones; with the callbacks made. */
  datatype Session =
    | Fine(p: Parser, trace: seq<Event>)
    | Bad(read: int, trace: seq<Event>)
    | Gone(read: int, trace: seq<Event>)
    | Unknown

  /** One call of Execute on a nonempty buffer, as its contract gives it. */
  function Call(p: Parser, data: string): Session {
    match RunFrom(Start(p), data)
    case Live(c) => Fine(Narrow(c.p), c.trace + Flush(c))
    case Failed(c) => Bad(c.pos, c.trace)
    case Exited(c) => Gone(c.pos, c.trace)
    case Undefined => Unknown
  }

  function Concat(pieces: seq<string>): string {
    if pieces == [] then "" else pieces[0] + Concat(pieces[1..])
  }

  /** One call for each piece, until one does not read all of it. */
  function CallAll(p: Parser, pieces: seq<string>): Session
    decreases |pieces|
  {
    if pieces == [] then Fine(p, [])
    else
      var first := Call(p, pieces[0]);
      if first.Fine? then AfterCall(first.trace, |pieces[0]|, CallAll(first.p, pieces[1..])) else first
  }

  /** A session preceded by a call that read `n` bytes. */
  function AfterCall(trace: seq<Event>, n: nat, rest: Session): Session {
    if rest.Fine? then Fine(rest.p, trace + rest.trace)
    else if rest.Bad? then Bad(n + rest.read, trace + rest.trace)
    else if rest.Gone? then Gone(n + rest.read, trace + rest.trace)
    else Unknown
  }

  // ---- the invariant between calls ----

  /** The parser that a call of Execute on a nonempty buffer leaves: a failed call stores none of its counters. */
  function Leaves(p: Parser, data: string): Parser
    requires Call(p, data).Fine? || Call(p, data).Bad?
  {
    var c := RunFrom(Start(p), data).c;
    if Call(p, data).Fine? then Narrow(c.p) else c.p.(header := p.header, index := p.index, nread := p.nread)
  }

  /** A history of calls that go on after failures, none of which upgrades the connection or is undefined. */
  predicate Goes(p: Parser, pieces: seq<string>)
    decreases |pieces|
  {
    pieces == [] || ((Call(p, pieces[0]).Fine? || Call(p, pieces[0]).Bad?) && Goes(Leaves(p, pieces[0]), pieces[1..]))
  }

  function LeavesAll(p: Parser, pieces: seq<string>): Parser
    requires Goes(p, pieces)
    decreases |pieces|
  {
    if pieces == [] then p else LeavesAll(Leaves(p, pieces[0]), pieces[1..])
  }

  lemma CallKeeps(p: Parser, data: string)
    requires Inv(p) && (Call(p, data).Fine? || Call(p, data).Bad?)
    ensures Inv(Leaves(p, data)) && (p == Narrow(p) ==> Leaves(p, data) == Narrow(Leaves(p, data)))
  {
    RunInv(Start(p), data);
    var q := RunFrom(Start(p), data).c.p;
    if Call(p, data).Fine? {
      NarrowSame(q);
    } else {
      FailedDead(Start(p), data);
      IndexBound(p);
      IndexBound(q);
      PlainInv(Leaves(p, data));
    }
    hide RunFrom, Inv;
  }

  lemma IndexBound(p: Parser)
    requires Inv(p)
    ensures p.index < 256 && p.contentLength < SIZE_LIMIT
  {
  }

  lemma {:induction false} FailedDead(c: Config, data: string)
    requires RunFrom(c, data).Failed?
    ensures RunFrom(c, data).c.p.state == Dead
    decreases |data|
  {
    RunStep(c, data);
    var o := Step(c.p, data[0]);
    hide Step;
    if o.Next? {
      FailedDead(Advance(c, data[0], o.p, o.events), data[1..]);
    }
  }

  /** The invariant, and a narrowed counter, survive every history of calls, failed ones included. */
  lemma {:induction false} HistoryInv(p: Parser, pieces: seq<string>)
    requires Inv(p) && Goes(p, pieces)
    ensures Inv(LeavesAll(p, pieces)) && (p == Narrow(p) ==> LeavesAll(p, pieces) == Narrow(LeavesAll(p, pieces)))
    decreases |pieces|
  {
    hide Inv, Call, Narrow, Leaves;
    if pieces != [] {
      CallKeeps(p, pieces[0]);
      HistoryInv(Leaves(p, pieces[0]), pieces[1..]);
    }
  }

  lemma InitInv(index: nat, header: HeaderState, contentLength: nat, major: nat, minor: nat)
    requires index < 256 && contentLength < SIZE_LIMIT
    ensures var p := Init(index, header, contentLength, major, minor); Inv(p) && p == Narrow(p)
  {
    PlainInv(Init(index, header, contentLength, major, minor));
    hide Inv;
  }

  /** So they hold in every parser that calls make of a new one; what the memory held before must only fit
      the types of the fields. */
  lemma ReachableInv(index: nat, header: HeaderState, contentLength: nat, major: nat, minor: nat, pieces: seq<string>)
    requires index < 256 && contentLength < SIZE_LIMIT
    requires Goes(Init(index, header, contentLength, major, minor), pieces)
    ensures var q := LeavesAll(Init(index, header, contentLength, major, minor), pieces); Inv(q) && q == Narrow(q)
  {
    hide Inv, Goes, LeavesAll, Init, Narrow;
    InitInv(index, header, contentLength, major, minor);
    HistoryInv(Init(index, header, contentLength, major, minor), pieces);
  }

  lemma {:induction false} HitsLimitAppend(c: Config, a: string, b: string)
    requires !HitsLimit(c.p, a + b)
    ensures !HitsLimit(c.p, a)
    ensures RunFrom(c, a).Live? ==> !HitsLimit(RunFrom(c, a).c.p, b)
    decreases |a|
  {
    if a == "" {
      assert a + b == b;
    } else {
      assert (a + b)[0] == a[0] && (a + b)[1..] == a[1..] + b;
      RunStep(c, a);
      var o := Step(c.p, a[0]);
      hide Step;
      if o.Next? {
        HitsLimitAppend(Advance(c, a[0], o.p, o.events), a[1..], b);
      }
    }
  }

  /** A byte raises the header counter by one at most. */
  lemma StepCounts(p: Parser, ch: char)
    requires Inv(p) && !AtLimit(p)
    ensures Step(p, ch).Next? ==> Step(p, ch).p.nread <= p.nread + 1
  {
    hide Inv, Step, AtLimit;
    StepSame(p, p, ch);
  }

  /** Inputs that cannot reach the limit: those no longer than what is left of it. */
  lemma {:induction false} ShortBelowLimit(p: Parser, data: string)
    requires Inv(p) && p.nread + |data| <= MAX_HEADER
    ensures !HitsLimit(p, data)
    decreases |data|
  {
    hide Inv, Step;
    if data != "" {
      StepCounts(p, data[0]);
      StepInv(p, data[0]);
      if Step(p, data[0]).Next? {
        ShortBelowLimit(Step(p, data[0]).p, data[1..]);
      }
    }
  }

  lemma NarrowSame(p: Parser)
    requires Inv(p)
    ensures Same(p, Narrow(p)) && Inv(Narrow(p))
  {
  }

  lemma SameNarrow(p: Parser, q: Parser)
    requires Same(p, q) && q == Narrow(q)
    ensures q == Narrow(p)
  {
  }

  lemma SameTrans(p: Parser, q: Parser, r: Parser)
    requires Same(p, q) && Same(q, r)
    ensures Same(p, r)
  {
  }

  /** What a configuration has let the user hear, or is about to. */
  function HeardBy(url: bool, c: Config): seq<Event> { Heard(url, [], c.trace + Flush(c)) }

  /** What calls on pieces must amount to, after `c`, given the run from `c` over all of them at once. */
  ghost predicate Amounts(url: bool, c: Config, run: Run, s: Session) {
    match run
    case Live(d) => s.Fine? && Same(d.p, s.p) && HeardBy(url, d) == Heard(url, HeardBy(url, c), s.trace)
    case Failed(d) =>
      && s.Bad? && s.read == d.pos - c.pos
      && Ahead(Heard(url, [], d.trace), Heard(url, HeardBy(url, c), s.trace))
    case Exited(d) =>
      && s.Gone? && s.read == d.pos - c.pos
      && Heard(url, [], d.trace) == Heard(url, HeardBy(url, c), s.trace)
    case Undefined => s == Unknown
  }

  /** A call begins where the last one has let everything be heard. */
  lemma StartLags(url: bool, c: Config, q: Parser)
    requires Same(c.p, q)
    ensures Lag(url, [], c, HeardBy(url, c), Start(q))
  {
    SameKinds(url, c.p, q);
    HeardAppend(url, [], c.trace, Flush(c));
    HeardFlush(url, Heard(url, [], c.trace), c);
    var u := OpenText(url, c);
    assert u[|u|..] == "" && u[..|u|] == u;
    HeardOne(url, HeardBy(url, c), MessageBegin);
    hide Heard, Flush, Join, OpenKind;
  }

  /** At the end of a call everything open is heard. */
  lemma LagEnds(url: bool, a: seq<Event>, c: Config, b: seq<Event>, d: Config)
    requires Lag(url, a, c, b, d)
    ensures Heard(url, a, c.trace + Flush(c)) == Heard(url, b, d.trace + Flush(d))
  {
    HeardAppend(url, a, c.trace, Flush(c));
    HeardAppend(url, b, d.trace, Flush(d));
    var x, y, k := Heard(url, a, c.trace), Heard(url, b, d.trace), OpenKind(url, c.p);
    var u, v := OpenText(url, c), OpenText(url, d);
    HeardFlush(url, x, c);
    HeardFlush(url, y, d);
    if k.Open? {
      BehindCloses(x, y, k, u, v);
    }
    assert u[..|u|] == u;
    hide Heard, Flush, OpenKind, OpenText;
  }

  /** The first call on `a` against the same bytes inside a longer run. */
  lemma FirstCall(url: bool, c: Config, q: Parser, a: string)
    requires Inv(c.p) && Same(c.p, q) && !HitsLimit(c.p, a)
    ensures Amounts(url, c, RunFrom(c, a), Call(q, a))
    ensures RunFrom(c, a).Live? ==> Inv(RunFrom(c, a).c.p) && Call(q, a).p == Narrow(Call(q, a).p)
  {
    StartLags(url, c, q);
    RunSame(url, [], c, HeardBy(url, c), Start(q), a);
    if RunFrom(c, a).Live? {
      var p', d := RunFrom(c, a).c.p, RunFrom(Start(q), a).c;
      SameInv(p', d.p);
      NarrowSame(d.p);
      SameTrans(p', d.p, Narrow(d.p));
      LagEnds(url, [], RunFrom(c, a).c, HeardBy(url, c), d);
    }
    hide RunFrom, Step, Inv, HeardBy, Same, HitsLimit, Heard, Flush, Lag, Ahead;
  }

  lemma SameInv(p: Parser, q: Parser)
    requires Inv(p) && Same(p, q)
    ensures Inv(q)
  {
  }

  lemma JoinCalls(url: bool, c: Config, c1: Config, first: Session, run: Run, rest: Session, a: string)
    requires Amounts(url, c, Live(c1), first) && Amounts(url, c1, run, rest)
    requires c1.pos == c.pos + |a|
    ensures Amounts(url, c, run, AfterCall(first.trace, |a|, rest))
  {
    if !rest.Unknown? {
      HeardAppend(url, HeardBy(url, c), first.trace, rest.trace);
    }
    hide HeardBy, Heard, Same, Ahead;
  }

  lemma {:induction false} RunPosition(c: Config, data: string)
    requires RunFrom(c, data).Live?
    ensures RunFrom(c, data).c.pos == c.pos + |data|
    decreases |data|
  {
    if data != "" {
      RunStep(c, data);
      var o := Step(c.p, data[0]);
      hide Step;
      RunPosition(Advance(c, data[0], o.p, o.events), data[1..]);
    }
  }

  /** A run that stops has not read its last byte. */
  lemma {:induction false} RunStops(c: Config, data: string)
    requires RunFrom(c, data).Failed? || RunFrom(c, data).Exited?
    ensures RunFrom(c, data).c.pos < c.pos + |data|
    decreases |data|
  {
    RunStep(c, data);
    var o := Step(c.p, data[0]);
    hide Step;
    if o.Next? {
      RunStops(Advance(c, data[0], o.p, o.events), data[1..]);
    }
  }

  lemma FailedShort(p: Parser, data: string)
    ensures RunFrom(Start(p), data).Failed? || RunFrom(Start(p), data).Exited? ==>
            RunFrom(Start(p), data).c.pos < |data|
  {
    if RunFrom(Start(p), data).Failed? || RunFrom(Start(p), data).Exited? {
      RunStops(Start(p), data);
    }
    hide RunFrom;
  }

  lemma {:induction false} CutAnywhere(url: bool, c: Config, q: Parser, pieces: seq<string>)
    requires Inv(c.p) && Same(c.p, q) && !HitsLimit(c.p, Concat(pieces))
    ensures Amounts(url, c, RunFrom(c, Concat(pieces)), CallAll(q, pieces))
    ensures pieces != [] && CallAll(q, pieces).Fine? ==> CallAll(q, pieces).p == Narrow(CallAll(q, pieces).p)
    decreases |pieces|
  {
    if pieces == [] {
      RunDone(c);
    } else {
      var a, rest := pieces[0], pieces[1..];
      RunAppend(c, a, Concat(rest));
      HitsLimitAppend(c, a, Concat(rest));
      FirstCall(url, c, q, a);
      var run, first := RunFrom(c, a), Call(q, a);
      assert Amounts(url, c, run, first);
      if run.Live? {
        RunPosition(c, a);
        CutAnywhere(url, run.c, first.p, rest);
        hide RunFrom, HeardBy, HitsLimit, Inv, Same, Call, Amounts;
        JoinCalls(url, c, run.c, first, RunFrom(run.c, Concat(rest)), CallAll(first.p, rest), a);
      }
      hide RunFrom, HeardBy, HitsLimit, Inv, Call;
    }
  }

  /** The same parser and the same heard; or the same failure at the same byte, with at most one event more heard; or
      the same exit. */
  ghost predicate SameSession(url: bool, one: Session, many: Session) {
    match one
    case Fine(p, trace) => many.Fine? && many.p == p && Heard(url, [], many.trace) == Heard(url, [], trace)
    case Bad(read, trace) =>
      many.Bad? && many.read == read && Ahead(Heard(url, [], trace), Heard(url, [], many.trace))
    case Gone(read, trace) =>
      many.Gone? && many.read == read && Heard(url, [], many.trace) == Heard(url, [], trace)
    case Unknown => many == Unknown
  }

  /** A way to cut `data` into calls on nonempty buffers. */
  predicate Cuts(pieces: seq<string>, data: string) {
    Concat(pieces) == data && forall i :: 0 <= i < |pieces| ==> pieces[i] != ""
  }

  /** Unless the header limit stops it, one call on the whole input and calls on any pieces of it end with the same
      parser and let the user hear the same: the same texts with the same stages between them, empty texts included. */
  lemma SplitIndependence(p: Parser, data: string, pieces: seq<string>, url: bool)
    requires Inv(p) && data != "" && Cuts(pieces, data) && !HitsLimit(p, data)
    ensures SameSession(url, Call(p, data), CallAll(p, pieces))
  {
    var a, rest, c := pieces[0], pieces[1..], Start(p);
    RunAppend(c, a, Concat(rest));
    HitsLimitAppend(c, a, Concat(rest));
    hide HitsLimit, Inv, Flush, Heard, Ahead, Lag;
    RunInv(c, a);
    var run := RunFrom(c, a);
    if run.Live? {
      RunPosition(c, a);
      NarrowSame(run.c.p);
      CutAnywhere(url, run.c, Narrow(run.c.p), rest);
      hide RunFrom, Same, CallAll;
      FromStart(url, p, data, a, rest);
    } else {
      assert CallAll(p, pieces) == Call(p, data);
      SessionSame(url, Call(p, data));
    }
  }

  lemma SessionSame(url: bool, s: Session)
    ensures SameSession(url, s, s)
  {
  }

  /** A first call, and calls on the rest that amount to the run from where it stopped. */
  lemma FromStart(url: bool, p: Parser, data: string, a: string, rest: seq<string>)
    requires RunFrom(Start(p), a).Live? && RunFrom(Start(p), data) == RunFrom(RunFrom(Start(p), a).c, Concat(rest))
    requires RunFrom(Start(p), a).c.pos == |a|
    requires var c := RunFrom(Start(p), a).c;
      && Amounts(url, c, RunFrom(c, Concat(rest)), CallAll(Narrow(c.p), rest))
      && (rest != [] && CallAll(Narrow(c.p), rest).Fine? ==>
            CallAll(Narrow(c.p), rest).p == Narrow(CallAll(Narrow(c.p), rest).p))
    ensures var s := CallAll(Narrow(RunFrom(Start(p), a).c.p), rest);
      SameSession(url, Call(p, data), AfterCall(Call(p, a).trace, |a|, s))
  {
    var c := RunFrom(Start(p), a).c;
    var run, s := RunFrom(Start(p), data), CallAll(Narrow(c.p), rest);
    if !s.Unknown? {
      HeardAppend(url, [], c.trace + Flush(c), s.trace);
    }
    if run.Live? {
      SameNarrow(run.c.p, s.p);
    }
    hide RunFrom, Heard, Same, Ahead, Flush, Concat;
  }

  // ---- above the limit ----

  /** The byte at which the limit stops the run. */
  function LimitAt(p: Parser, data: string): nat
    requires HitsLimit(p, data)
    decreases |data|
  {
    if Stopped(p, data[0]) then 0 else 1 + LimitAt(Step(p, data[0]).p, data[1..])
  }

  lemma {:induction false} LimitReached(c: Config, data: string)
    requires HitsLimit(c.p, data)
    ensures var k := LimitAt(c.p, data);
      k < |data| && RunFrom(c, data[..k]).Live? && Stopped(RunFrom(c, data[..k]).c.p, data[k])
    decreases |data|
  {
    hide Step, Stopped;
    if Stopped(c.p, data[0]) {
      assert data[..0] == "";
      RunDone(c);
    } else {
      var o := Step(c.p, data[0]);
      LimitReached(Advance(c, data[0], o.p, o.events), data[1..]);
      var k := LimitAt(o.p, data[1..]);
      assert data[..k + 1][0] == data[0] && data[..k + 1][1..] == data[1..][..k];
      RunStep(c, data[..k + 1]);
    }
  }

  /** With a narrowed counter the stopped byte is taken. */
  lemma NarrowTakes(p: Parser, ch: char)
    requires Inv(p) && Stopped(p, ch)
    ensures !Step(Narrow(p), ch).Error?
  {
    hide Dispatch;
    DispatchAlike(p.(nread := 1), Counted(Narrow(p)), ch);
    StepsOn(Narrow(p), ch);
  }

  lemma {:induction false} FailsBehind(c: Config, data: string)
    requires RunFrom(c, data).Failed?
    ensures c.pos <= RunFrom(c, data).c.pos
    ensures !Step(c.p, data[0]).Error? ==> c.pos < RunFrom(c, data).c.pos
    decreases |data|
  {
    RunStep(c, data);
    var o := Step(c.p, data[0]);
    hide Step;
    if o.Next? {
      FailsBehind(Advance(c, data[0], o.p, o.events), data[1..]);
    }
  }

  predicate FailsAt(s: Session, k: int) { s.Bad? && s.read == k }

  /** A call that begins where the limit stopped the run does not fail there. */
  lemma GoesOn(p: Parser, data: string)
    requires Inv(p) && data != "" && Stopped(p, data[0])
    ensures !FailsAt(Call(Narrow(p), data), 0)
  {
    NarrowTakes(p, data[0]);
    if RunFrom(Start(Narrow(p)), data).Failed? {
      FailsBehind(Start(Narrow(p)), data);
    }
    hide RunFrom, Step, Stopped, Inv, Narrow;
  }

  /** The one call fails at the limit. */
  lemma StopsThere(c: Config, data: string)
    requires data != "" && Stopped(c.p, data[0])
    ensures RunFrom(c, data).Failed? && RunFrom(c, data).c.pos == c.pos
  {
    LimitStops(c.p, data[0]);
    RunStep(c, data);
    hide Step;
  }

  /** Where the limit stops a call, cutting the input there makes the two calls end otherwise. */
  lemma LimitCut(p: Parser, data: string)
    requires Inv(p) && p == Narrow(p) && HitsLimit(p, data)
    ensures var k := LimitAt(p, data);
      && 0 < k < |data| && Cuts([data[..k], data[k..]], data)
      && FailsAt(Call(p, data), k) && !FailsAt(CallAll(p, [data[..k], data[k..]]), k)
  {
    hide Flush, Step, Stopped, HitsLimit, Inv;
    var k := LimitAt(p, data);
    LimitReached(Start(p), data);
    var a, b := data[..k], data[k..];
    var d := RunFrom(Start(p), a).c;
    RunInv(Start(p), a);
    RunPosition(Start(p), a);
    assert a + b == data && b[0] == data[k];
    RunAppend(Start(p), a, b);
    StopsThere(d, b);
    GoesOn(d.p, b);
    assert k > 0 by {
      if k == 0 {
        RunDone(Start(p));
      }
    }
    assert [a, b][1..] == [b] && [b][1..] == [] && b + "" == b;
    assert Concat([b]) == b;
    hide RunFrom;
    var q := Narrow(d.p);
    assert !FailsAt(CallAll(q, [b]), 0);
  }

  /** Every cut of an input ends as the single call does if and only if the limit does not stop that call. */
  lemma CutsAgree(p: Parser, data: string)
    requires Inv(p) && p == Narrow(p) && data != ""
    ensures (forall pieces, url :: Cuts(pieces, data) ==> SameSession(url, Call(p, data), CallAll(p, pieces)))
            <==> !HitsLimit(p, data)
  {
    hide HitsLimit, Cuts, Call, CallAll, Inv, Narrow;
    if HitsLimit(p, data) {
      LimitCut(p, data);
      var k := LimitAt(p, data);
      assert !SameSession(true, Call(p, data), CallAll(p, [data[..k], data[k..]]));
    } else {
      forall pieces, url | Cuts(pieces, data)
        ensures SameSession(url, Call(p, data), CallAll(p, pieces))
      {
        SplitIndependence(p, data, pieces, url);
      }
    }
  }

  /** One call on a nonempty buffer, its contract put in terms of `Call`. */
  method Once(parser: HttpParser, data: string) returns (n: nat)
    requires data != ""
    modifies parser
    ensures var s := Call(old(parser.View()), data);
      && (s.Fine? ==> n == |data| && parser.View() == s.p && parser.trace == old(parser.trace) + s.trace)
      && (s.Bad? || s.Gone? ==> n == s.read < |data| && parser.trace == old(parser.trace) + s.trace)
      && (s.Fine? || s.Bad? ==> parser.View() == Leaves(old(parser.View()), data))
      && (s.Gone? ==> parser.state == old(parser.state))
  {
    hide RunFrom, Flush, Narrow;
    ghost var p := parser.View();
    n := parser.Execute(data);
    FailedShort(p, data);
    match RunFrom(Start(p), data) {
      case Live(c) =>
        assert parser.trace == old(parser.trace) + (c.trace + Flush(c));
      case _ =>
    }
  }

  /** Calls of Execute on the pieces, as a client reading from a socket makes them. */
  method Feed(parser: HttpParser, pieces: seq<string>) returns (ok: bool)
    requires forall i :: 0 <= i < |pieces| ==> pieces[i] != ""
    modifies parser
    ensures var s := CallAll(old(parser.View()), pieces);
      && (s.Fine? ==> ok && parser.View() == s.p && parser.trace == old(parser.trace) + s.trace)
      && (s.Bad? || s.Gone? ==> !ok && parser.trace == old(parser.trace) + s.trace)
  {
    hide Call;
    if pieces == [] {
      return true;
    }
    var n := Once(parser, pieces[0]);
    if n != |pieces[0]| {
      return false;
    }
    ok := Feed(parser, pieces[1..]);
    ghost var first := Call(old(parser.View()), pieces[0]);
    if first.Fine? {
      ghost var rest := CallAll(first.p, pieces[1..]);
      if !rest.Unknown? {
        assert (old(parser.trace) + first.trace) + rest.trace == old(parser.trace) + (first.trace + rest.trace);
      }
    }
  }
}
