/** The order of callbacks over whole histories of calls.  */
module HttpOrder {
  import opened HttpModel
  import opened HttpRun
  import opened HttpHeard
  import opened HttpInvariant
  import opened HttpSplit

  /** How far a message has come, as the user can tell from the callbacks. */
  datatype Phase = Idle | Line | Headers | Content | Trailers | Wrong

  function After(ph: Phase, e: Event): Phase {
    match e
    case MessageBegin => if ph == Idle then Line else Wrong
    case HeadersComplete => if ph == Line || ph == Headers then Content else Wrong
    case MessageComplete => if ph == Content || ph == Trailers then Idle else Wrong
    case Data(k, _) =>
      match k
      case Url => if ph == Line then Line else Wrong
      case PathPart => if ph == Line then Line else Wrong
      case QueryPart => if ph == Line then Line else Wrong
      case FragmentPart => if ph == Line then Line else Wrong
      case Field => if ph == Line || ph == Headers then Headers
                    else if ph == Content || ph == Trailers then Trailers else Wrong
      case Value => if ph == Headers || ph == Trailers then ph else Wrong
      case Body => if ph == Content then Content else Wrong
  }

  function Follow(ph: Phase, trace: seq<Event>): Phase
    decreases |trace|
  {
    if trace == [] then ph else Follow(After(ph, trace[0]), trace[1..])
  }

  lemma {:induction false} FollowAppend(ph: Phase, a: seq<Event>, b: seq<Event>)
    ensures Follow(ph, a + b) == Follow(Follow(ph, a), b)
    decreases |a|
  {
    if a == [] {
      assert a + b == b;
    } else {
      assert (a + b)[0] == a[0] && (a + b)[1..] == a[1..] + b;
      FollowAppend(After(ph, a[0]), a[1..], b);
    }
  }

  lemma FollowFew(ph: Phase, a: Event, b: Event)
    ensures Follow(ph, []) == ph && Follow(ph, [a]) == After(ph, a)
    ensures Follow(ph, [a, b]) == After(After(ph, a), b)
  {
    FollowAppend(ph, [a], [b]);
    assert [a] + [b] == [a, b];
    assert [a, b][1..] == [b] && [a][1..] == [] && [b][1..] == [];
  }

  /** The phases that fit a parser state. */
  predicate Fits(p: Parser, ph: Phase) {
    var s := p.state;
    if s == Dead then ph != Wrong
    else if s == StartReq then ph == Idle
    else if s == ReqMethod || InUrl(s) || InVersion(s) then ph == Line && !p.flags.trailing
    else if s == HeaderFieldStart || s == HeaderField || s == HeadersAlmostDone then
      if p.flags.trailing then ph == Content || ph == Trailers else ph == Line || ph == Headers
    else if s == HeaderValueStart || s == HeaderValue || s == HeaderAlmostDone then
      ph == if p.flags.trailing then Trailers else Headers
    else ph == Content
  }

  /** The phase after the marks that a byte clears. */
  function AfterClear(p: Parser, q: Parser, ph: Phase): Phase {
    var ph1 := if UrlOpen(p.state) && !UrlOpen(q.state) then After(ph, Data(Url, "")) else ph;
    var from, to := OpenPart(p), OpenPart(q);
    if from == Closed || from == to then ph1 else After(ph1, Data(from.kind, ""))
  }

  lemma FollowClear(c: Config, ch: char, q: Parser, ph: Phase)
    ensures Follow(ph, Clear(c, ch, q)) == AfterClear(c.p, q, ph)
  {
    var from, to := OpenPart(c.p), OpenPart(q);
    var link: seq<Event> := if UrlOpen(c.p.state) && !UrlOpen(q.state) then [Data(Url, c.url)] else [];
    var part: seq<Event> := if from == Closed || from == to then []
       else if from == Open(Body) then [Data(Body, c.part + [ch])]
       else [Data(from.kind, c.part)];
    hide Follow, OpenPart, UrlOpen;
    assert Clear(c, ch, q) == link + part;
    hide Clear;
    FollowAppend(ph, link, part);
    FollowFew(ph, Data(Url, c.url), MessageBegin);
    if part != [] {
      FollowFew(Follow(ph, link), part[0], MessageBegin);
    }
  }

  ghost predicate OutcomeFits(p: Parser, ph: Phase, o: Outcome) {
    match o
    case Next(q, events) => Fits(q, Follow(AfterClear(p, q, ph), events))
    case Error(_, events) => Follow(ph, events) != Wrong
    case Exit(_, events) => Follow(ph, events) == Idle
    case Fault => true
  }

  /** A step without callbacks of its own. */
  lemma SilentFits(p: Parser, ph: Phase, q: Parser)
    requires Fits(q, AfterClear(p, q, ph))
    ensures OutcomeFits(p, ph, Next(q, []))
  {
    hide Fits, AfterClear;
  }

  lemma FailFits(p: Parser, ph: Phase, q: Parser)
    requires Fits(p, ph)
    ensures OutcomeFits(p, ph, Error(q, []))
  {
  }

  lemma UrlPhase(p: Parser, ch: char, ph: Phase)
    requires Fits(p, ph) && InUrl(p.state)
    ensures OutcomeFits(p, ph, StepUrl(p, ch))
  {
    var s := UrlNext(p.state, ch);
    assert s == Dead || InUrl(s) || InVersion(s) || s == HeaderFieldStart;
    FailFits(p, ph, p);
    assert ph == Line && !p.flags.trailing;
    var q := StepUrl(p, ch).p;
    hide UrlNext;
    assert q.state == s || s == Dead;
    if s != Dead {
      assert AfterClear(p, q, Line) == Line;
      SilentFits(p, ph, q);
    }
    hide OutcomeFits, Fits, AfterClear;
  }

  lemma VersionPhase(p: Parser, ch: char, ph: Phase)
    requires Fits(p, ph) && InVersion(p.state)
    ensures OutcomeFits(p, ph, StepVersion(p, ch))
  {
    var s := FixedNext(p.state, ch);
    assert s == Dead || InVersion(s) || s == HeaderFieldStart;
    hide FixedNext;
    var o := StepVersion(p, ch);
    FailFits(p, ph, o.p);
    if o.Next? {
      assert o.p.state == s || o.p.state == p.state || InVersion(o.p.state);
      assert OpenPart(p) == Closed && AfterClear(p, o.p, Line) == Line;
      SilentFits(p, ph, o.p);
    }
    hide OutcomeFits, AfterClear;
  }

  lemma MethodPhase(p: Parser, ch: char, ph: Phase)
    requires Fits(p, ph) && p.state == ReqMethod
    ensures OutcomeFits(p, ph, StepMethod(p, ch))
  {
    var o := StepMethod(p, ch);
    if o.Next? {
      SilentFits(p, ph, o.p);
    } else if o.Error? {
      FailFits(p, ph, o.p);
    }
    hide OutcomeFits, MethodString, OtherMethod;
  }

  lemma FieldPhase(p: Parser, ch: char, ph: Phase)
    requires Fits(p, ph) && p.state == HeaderField
    ensures OutcomeFits(p, ph, StepField(p, ch))
  {
    hide NameStep;
    var o := StepField(p, ch);
    if o.Next? {
      SilentFits(p, ph, o.p);
    } else if o.Error? {
      FailFits(p, ph, o.p);
    }
    hide OutcomeFits;
  }

  /** States in which no part of the text is open. */
  lemma NothingOpen(p: Parser, q: Parser, ph: Phase)
    requires p.state == HeaderFieldStart || p.state == HeaderValueStart || p.state == HeadersAlmostDone
             || InChunkSize(p.state)
    ensures AfterClear(p, q, ph) == ph
  {
  }

  lemma NextFits(p: Parser, ph: Phase, q: Parser, events: seq<Event>)
    requires Fits(q, Follow(AfterClear(p, q, ph), events))
    ensures OutcomeFits(p, ph, Next(q, events))
  {
    hide Fits, AfterClear, Follow;
  }

  lemma ValueFits(p: Parser, q: Parser, ph: Phase)
    requires Fits(p, ph) && p.state == HeaderValueStart && q.flags.trailing == p.flags.trailing
    requires q.state == HeaderValueStart || q.state == HeaderValue || q.state == HeaderAlmostDone
             || q.state == HeaderFieldStart
    ensures Fits(q, ph) && After(ph, Data(Value, "")) == ph
  {
  }

  lemma ValueStartPhase(p: Parser, ch: char, ph: Phase)
    requires Fits(p, ph) && p.state == HeaderValueStart
    ensures OutcomeFits(p, ph, StepValueStart(p, ch))
  {
    hide Fits, AfterClear, Follow, OutcomeFits;
    var o := StepValueStart(p, ch);
    if o.Error? {
      FailFits(p, ph, o.p);
    } else {
      NothingOpen(p, o.p, ph);
      ValueFits(p, o.p, ph);
      FollowFew(ph, Data(Value, ""), MessageBegin);
      NextFits(p, ph, o.p, o.events);
    }
  }

  lemma ValuePhase(p: Parser, ch: char, ph: Phase)
    requires Fits(p, ph) && p.state == HeaderValue
    ensures OutcomeFits(p, ph, StepValue(p, ch))
  {
    hide ValueStep;
    var o := StepValue(p, ch);
    if o.Next? {
      SilentFits(p, ph, o.p);
    } else if o.Error? {
      FailFits(p, ph, o.p);
    }
    hide OutcomeFits;
  }

  lemma LineEndPhase(p: Parser, ch: char, ph: Phase)
    requires Fits(p, ph) && p.state == HeaderAlmostDone
    ensures OutcomeFits(p, ph, StepLineEnd(p, ch))
  {
    hide Follow;
    FollowFew(ph, MessageBegin, MessageBegin);
  }

  /** Where a message or its body can begin. */
  lemma BoundaryFits(q: Parser)
    ensures q.state == StartReq || q.state == Dead ==> Fits(q, Idle)
    ensures q.state == BodyIdentity || q.state == ChunkSizeStart ==> Fits(q, Content)
  {
  }

  lemma NewIs(p: Parser)
    ensures NewMessage(p) == StartReq || NewMessage(p) == Dead
  {
  }

  lemma ClearBody(p: Parser, q: Parser, ph: Phase)
    requires Fits(p, ph) && p.state == BodyIdentity
    ensures AfterClear(p, q, ph) == Content
  {
  }

  lemma BeforeBody(p: Parser, ph: Phase)
    requires Fits(p, ph) && p.state == HeadersAlmostDone
    ensures if p.flags.trailing then ph == Content || ph == Trailers else ph == Line || ph == Headers
  {
  }

  lemma ExitFits(p: Parser, ph: Phase, q: Parser, events: seq<Event>)
    requires Follow(ph, events) == Idle
    ensures OutcomeFits(p, ph, Exit(q, events))
  {
    hide Follow;
  }

  lemma HeadersEndPhase(p: Parser, ch: char, ph: Phase)
    requires Fits(p, ph) && p.state == HeadersAlmostDone
    ensures OutcomeFits(p, ph, StepHeadersEnd(p, ch))
  {
    hide OutcomeFits, Fits, Follow, AfterClear, NewMessage;
    FollowFew(ph, MessageComplete, MessageBegin);
    FollowFew(ph, HeadersComplete, MessageComplete);
    var o := StepHeadersEnd(p, ch);
    if o.Error? {
      FailFits(p, ph, o.p);
    } else {
      NothingOpen(p, o.p, ph);
      BeforeBody(p, ph);
      if o.Exit? {
        ExitFits(p, ph, o.p, o.events);
      } else {
        NewIs(p);
        NewIs(p.(nread := 0, upgrade := p.upgrade || p.flags.upgrade || p.verb == CONNECT));
        BoundaryFits(o.p);
        NextFits(p, ph, o.p, o.events);
      }
    }
  }

  lemma FieldStartFits(p: Parser, q: Parser, ph: Phase)
    requires Fits(p, ph) && p.state == HeaderFieldStart
    ensures Fits(p.(state := HeadersAlmostDone), ph)
    ensures q.flags == p.flags && (q.state == HeaderField || q.state == HeadersAlmostDone) ==> Fits(q, ph)
  {
  }

  lemma SameFits(p: Parser, q: Parser, ph: Phase, o: Outcome)
    requires p == q.(state := HeadersAlmostDone) && q.state == HeaderFieldStart && OutcomeFits(p, ph, o)
    ensures OutcomeFits(q, ph, o)
  {
    hide Fits, Follow, AfterClear;
    if o.Next? {
      NothingOpen(p, o.p, ph);
      NothingOpen(q, o.p, ph);
    }
  }

  lemma FieldStartPhase(p: Parser, ch: char, ph: Phase)
    requires Fits(p, ph) && p.state == HeaderFieldStart
    ensures OutcomeFits(p, ph, StepFieldStart(p, ch))
  {
    hide Fits, AfterClear, Follow, OutcomeFits, StepHeadersEnd, FirstHeaderState, Token;
    var end, o := p.(state := HeadersAlmostDone), StepFieldStart(p, ch);
    FieldStartFits(p, p, ph);
    if ch == LF {
      HeadersEndPhase(end, ch, ph);
      SameFits(end, p, ph, o);
    } else if o.Error? {
      FailFits(p, ph, o.p);
    } else {
      FieldStartFits(p, o.p, ph);
      NothingOpen(p, o.p, ph);
      SilentFits(p, ph, o.p);
    }
  }

  lemma StartPhase(p: Parser, ch: char, ph: Phase)
    requires Fits(p, ph) && p.state == StartReq
    ensures OutcomeFits(p, ph, StepStart(p, ch))
  {
    hide Follow;
    FollowFew(ph, MessageBegin, MessageBegin);
  }

  lemma ChunkSizeFits(p: Parser, ch: char, ph: Phase)
    requires Fits(p, ph) && InChunkSize(p.state)
    ensures var o := StepChunkSize(p, ch);
            !o.Exit? && (o.Next? ==> o.events == [] && Fits(o.p, ph)) && (o.Error? ==> o.events == [])
  {
    if p.state.ChunkSizeAlmostDone? {
      SizeDoneFits(p, ch, ph);
    } else {
      SizeFits(p, ch, ph);
    }
    hide StepChunkSize, Fits;
  }

  lemma SizeDoneFits(p: Parser, ch: char, ph: Phase)
    requires Fits(p, ph) && p.state.ChunkSizeAlmostDone?
    ensures var o := StepChunkSize(p, ch);
            !o.Exit? && (o.Next? ==> o.events == [] && Fits(o.p, ph)) && (o.Error? ==> o.events == [])
  {
  }

  lemma SizeFits(p: Parser, ch: char, ph: Phase)
    requires Fits(p, ph) && InChunkSize(p.state) && !p.state.ChunkSizeAlmostDone?
    ensures var o := StepChunkSize(p, ch);
            !o.Exit? && (o.Next? ==> o.events == [] && Fits(o.p, ph)) && (o.Error? ==> o.events == [])
  {
    hide Unhex;
  }

  lemma FaultFits(p: Parser, ph: Phase)
    ensures OutcomeFits(p, ph, Fault)
  {
  }

  lemma ChunkSizePhase(p: Parser, ch: char, ph: Phase)
    requires Fits(p, ph) && InChunkSize(p.state)
    ensures OutcomeFits(p, ph, StepChunkSize(p, ch))
  {
    hide Fits, AfterClear, Follow, OutcomeFits, StepChunkSize;
    var o := StepChunkSize(p, ch);
    ChunkSizeFits(p, ch, ph);
    if o.Error? {
      FailFits(p, ph, o.p);
    } else if o.Next? {
      NothingOpen(p, o.p, ph);
      SilentFits(p, ph, o.p);
    } else {
      FaultFits(p, ph);
    }
  }

  lemma IdentityPhase(p: Parser, ch: char, ph: Phase)
    requires Fits(p, ph) && p.state == BodyIdentity
    ensures OutcomeFits(p, ph, StepBody(p, ch))
  {
    hide OutcomeFits, Fits, Follow, AfterClear, NewMessage;
    var o := StepBody(p, ch);
    FollowFew(Content, MessageComplete, MessageBegin);
    ClearBody(p, o.p, ph);
    NewIs(p.(contentLength := 0));
    BoundaryFits(o.p);
    NextFits(p, ph, o.p, o.events);
  }

  lemma ChunkDataFits(p: Parser, ch: char, ph: Phase)
    requires Fits(p, ph) && !ParsingHeader(p.state) && p.state != BodyIdentity
    ensures var o := StepBody(p, ch);
      !o.Exit? && (o.Next? ==> o.events == [] && Fits(o.p, AfterClear(p, o.p, ph))) && (o.Error? ==> o.events == [])
  {
    if p.state == ChunkData {
      ChunkBytesFit(p, ch, ph);
    } else {
      ChunkEndsFit(p, ch, ph);
    }
    hide StepBody, AfterClear, Fits;
  }

  lemma ChunkBytesFit(p: Parser, ch: char, ph: Phase)
    requires p.state == ChunkData && ph == Content
    ensures var o := StepBody(p, ch);
      !o.Exit? && (o.Next? ==> o.events == [] && Fits(o.p, AfterClear(p, o.p, ph))) && (o.Error? ==> o.events == [])
  {
  }

  lemma ChunkEndsFit(p: Parser, ch: char, ph: Phase)
    requires !ParsingHeader(p.state) && p.state != BodyIdentity && p.state != ChunkData && ph == Content
    ensures var o := StepBody(p, ch);
      !o.Exit? && (o.Next? ==> o.events == [] && Fits(o.p, AfterClear(p, o.p, ph))) && (o.Error? ==> o.events == [])
  {
  }

  lemma ChunkDataPhase(p: Parser, ch: char, ph: Phase)
    requires Fits(p, ph) && !ParsingHeader(p.state) && p.state != BodyIdentity
    ensures OutcomeFits(p, ph, StepBody(p, ch))
  {
    hide OutcomeFits, AfterClear, Fits, StepBody;
    var o := StepBody(p, ch);
    ChunkDataFits(p, ch, ph);
    if o.Next? {
      SilentFits(p, ph, o.p);
    } else if o.Error? {
      FailFits(p, ph, o.p);
    } else {
      FaultFits(p, ph);
    }
  }

  lemma DispatchPhase(p: Parser, ch: char, ph: Phase)
    requires Fits(p, ph)
    ensures OutcomeFits(p, ph, Dispatch(p, ch))
  {
    hide StepStart, StepMethod, StepFieldStart, StepField, StepValueStart, StepValue, StepLineEnd;
    hide StepHeadersEnd, StepChunkSize, StepBody, StepUrl, StepVersion, OutcomeFits, Fits;
    if InUrl(p.state) { UrlPhase(p, ch, ph); }
    else if InVersion(p.state) { VersionPhase(p, ch, ph); }
    else if p.state == ReqMethod { MethodPhase(p, ch, ph); }
    else if p.state == HeaderField { FieldPhase(p, ch, ph); }
    else if p.state == HeaderValueStart { ValueStartPhase(p, ch, ph); }
    else if p.state == HeaderValue { ValuePhase(p, ch, ph); }
    else if p.state == HeaderAlmostDone { LineEndPhase(p, ch, ph); }
    else if p.state == HeadersAlmostDone { HeadersEndPhase(p, ch, ph); }
    else if p.state == HeaderFieldStart { FieldStartPhase(p, ch, ph); }
    else if p.state == StartReq { StartPhase(p, ch, ph); }
    else if InChunkSize(p.state) { ChunkSizePhase(p, ch, ph); }
    else if p.state == BodyIdentity { IdentityPhase(p, ch, ph); }
    else if !ParsingHeader(p.state) { ChunkDataPhase(p, ch, ph); }
    else { FailFits(p, ph, p); }
  }

  lemma StepPhase(p: Parser, ch: char, ph: Phase)
    requires Fits(p, ph)
    ensures OutcomeFits(p, ph, Step(p, ch))
  {
    CountedFits(p, ph, Step(p, ch));
    hide OutcomeFits, Fits, Dispatch;
    if ParsingHeader(p.state) && p.nread >= MAX_HEADER {
      FailFits(Counted(p), ph, Counted(p));
    } else {
      DispatchPhase(Counted(p), ch, ph);
    }
  }

  lemma CountedFits(p: Parser, ph: Phase, o: Outcome)
    ensures Fits(Counted(p), ph) == Fits(p, ph)
    ensures OutcomeFits(Counted(p), ph, o) == OutcomeFits(p, ph, o)
  {
    assert OpenPart(Counted(p)) == OpenPart(p) && Counted(p).state == p.state && Counted(p).flags == p.flags;
    hide OpenPart, UrlOpen, Follow, After, Counted;
  }

  // ---- runs and histories ----

  lemma FollowAtMostOne(ph: Phase, a: seq<Event>)
    requires |a| <= 1
    ensures Follow(ph, a) == if a == [] then ph else After(ph, a[0])
  {
    FollowFew(ph, if a == [] then MessageBegin else a[0], MessageBegin);
    assert a != [] ==> a == [a[0]];
  }

  lemma PartFits(p: Parser, ph: Phase, s: string)
    requires Fits(p, ph)
    ensures OpenPart(p) != Closed ==> Fits(p, After(ph, Data(OpenPart(p).kind, s)))
    ensures UrlOpen(p.state) ==> Fits(p, After(ph, Data(Url, s)))
  {
  }

  lemma FlushFits(c: Config, ph: Phase)
    requires Fits(c.p, ph)
    ensures Fits(c.p, Follow(ph, Flush(c)))
  {
    hide Follow, Fits, OpenPart, UrlOpen, After;
    var part: seq<Event> := match OpenPart(c.p)
      case Closed => []
      case Open(k) => if k == Body && c.part == "" then [] else [Data(k, c.part)];
    var link: seq<Event> := if UrlOpen(c.p.state) then [Data(Url, c.url)] else [];
    FollowAppend(ph, part, link);
    FollowAtMostOne(ph, part);
    FollowAtMostOne(Follow(ph, part), link);
    PartFits(c.p, ph, c.part);
    PartFits(c.p, Follow(ph, part), c.url);
  }

  /** A configuration whose callbacks so far, from phase `ph`, are in order. */
  ghost predicate InOrder(ph: Phase, c: Config) {
    Fits(c.p, Follow(ph, c.trace))
  }

  lemma {:induction false} RunInOrder(ph: Phase, c: Config, data: string)
    requires InOrder(ph, c)
    ensures match RunFrom(c, data)
      case Live(d) => InOrder(ph, d)
      case Failed(d) => Follow(ph, d.trace) != Wrong && d.p.state == Dead
      case Exited(d) => Follow(ph, d.trace) == Idle
      case Undefined => true
    decreases |data|
  {
    if data != "" {
      RunStep(c, data);
      var o := Step(c.p, data[0]);
      StepPhase(c.p, data[0], Follow(ph, c.trace));
      hide Step, Fits, AfterClear, Clear;
      if o.Next? {
        FollowClear(c, data[0], o.p, Follow(ph, c.trace));
        FollowAppend(ph, c.trace, Clear(c, data[0], o.p));
        FollowAppend(ph, c.trace + Clear(c, data[0], o.p), o.events);
        RunInOrder(ph, Advance(c, data[0], o.p, o.events), data[1..]);
      } else if !o.Fault? {
        FollowAppend(ph, c.trace, o.events);
      }
    }
  }

  /** The callbacks of a history of calls of Execute on nonempty buffers: after a failed call it goes on with the parser
      that this call leaves, an upgraded connection ends it. */
  function History(p: Parser, pieces: seq<string>): seq<Event>
    decreases |pieces|
  {
    if pieces == [] then []
    else
      var s := Call(p, pieces[0]);
      if s.Unknown? then []
      else if s.Gone? then s.trace
      else s.trace + History(Leaves(p, pieces[0]), pieces[1..])
  }

  /** The callbacks of one call, and the parser that it leaves. */
  lemma CallInOrder(p: Parser, ph: Phase, data: string)
    requires Fits(p, ph) && ph != Wrong
    ensures !Call(p, data).Unknown? ==> Follow(ph, Call(p, data).trace) != Wrong
    ensures Call(p, data).Fine? || Call(p, data).Bad? ==> Fits(Leaves(p, data), Follow(ph, Call(p, data).trace))
  {
    RunInOrder(ph, Start(p), data);
    var run := RunFrom(Start(p), data);
    if run.Live? {
      FlushFits(run.c, Follow(ph, run.c.trace));
      FollowAppend(ph, run.c.trace, Flush(run.c));
      NarrowFits(run.c.p, Follow(ph, run.c.trace + Flush(run.c)));
    }
    hide RunFrom, Flush, Follow, Narrow;
  }

  /** The callbacks of every history are in order. */
  lemma {:induction false} CallbackOrder(p: Parser, ph: Phase, pieces: seq<string>)
    requires Fits(p, ph) && ph != Wrong
    ensures Follow(ph, History(p, pieces)) != Wrong
    decreases |pieces|
  {
    hide Fits, Call, Leaves;
    if pieces != [] {
      CallInOrder(p, ph, pieces[0]);
      var s := Call(p, pieces[0]);
      if s.Fine? || s.Bad? {
        FollowAppend(ph, s.trace, History(Leaves(p, pieces[0]), pieces[1..]));
        CallbackOrder(Leaves(p, pieces[0]), Follow(ph, s.trace), pieces[1..]);
      }
    }
  }

  /** No call of the history is undefined. */
  predicate Defined(p: Parser, pieces: seq<string>)
    decreases |pieces|
  {
    pieces == [] ||
    (var s := Call(p, pieces[0]); s.Gone? || (!s.Unknown? && Defined(Leaves(p, pieces[0]), pieces[1..])))
  }

  /** After a call that did not read its buffer the state tells a failure from an upgrade. */
  lemma DeadIfFailed(p: Parser, data: string)
    requires data != ""
    ensures Call(p, data).Bad? ==> Leaves(p, data).state == Dead
    ensures Call(p, data).Gone? ==> p.state != Dead
  {
    if Call(p, data).Bad? {
      FailedDead(Start(p), data);
    }
    if p.state == Dead {
      RunStep(Start(p), data);
      assert Step(p, data[0]).Error?;
    }
    hide RunFrom, Step;
  }

  /** Calls of Execute on all the pieces, by a client that takes no notice of failures but gives up an upgraded
      connection: the parser's callbacks are those of the history. If they were in order before, they still are. */
  method Drive(parser: HttpParser, pieces: seq<string>)
    requires Defined(parser.View(), pieces) && forall i :: 0 <= i < |pieces| ==> pieces[i] != ""
    modifies parser
    ensures parser.trace == old(parser.trace) + History(old(parser.View()), pieces)
    ensures Fits(old(parser.View()), Follow(Idle, old(parser.trace))) ==> Follow(Idle, parser.trace) != Wrong
  {
    hide Fits, Call, Leaves;
    ghost var p, before := parser.View(), parser.trace;
    var i := 0;
    assert pieces[0..] == pieces && before + [] == before;
    while i < |pieces|
      invariant i <= |pieces| && Defined(parser.View(), pieces[i..])
      invariant parser.trace + History(parser.View(), pieces[i..]) == before + History(p, pieces)
    {
      ghost var q, was := parser.View(), parser.trace;
      assert pieces[i..][0] == pieces[i] && pieces[i..][1..] == pieces[i + 1..];
      DeadIfFailed(q, pieces[i]);
      var n := Once(parser, pieces[i]);
      ghost var rest := History(parser.View(), pieces[i + 1..]);
      ghost var now := Call(q, pieces[i]).trace;
      assert was + (now + rest) == (was + now) + rest;
      if n < |pieces[i]| && parser.state != Dead {
        break;
      }
      i := i + 1;
    }
    assert i == |pieces| ==> pieces[i..] == [] && parser.trace + [] == parser.trace;
    if Fits(p, Follow(Idle, before)) {
      NarrowFits(p, Follow(Idle, before));
      CallbackOrder(p, Follow(Idle, before), pieces);
      FollowAppend(Idle, before, History(p, pieces));
    }
  }

  lemma NarrowFits(p: Parser, ph: Phase)
    requires Fits(p, ph)
    ensures Fits(Narrow(p), ph) && ph != Wrong
  {
  }

  /** A dead parser reads nothing and calls nothing. */
  lemma {:induction false} DeadHistory(p: Parser, pieces: seq<string>)
    requires p.state == Dead && forall i :: 0 <= i < |pieces| ==> pieces[i] != ""
    ensures History(p, pieces) == []
    decreases |pieces|
  {
    if pieces != [] {
      RunStep(Start(p), pieces[0]);
      assert Step(p, pieces[0][0]).Error? && Step(p, pieces[0][0]).events == [];
      hide Step, RunFrom;
      DeadHistory(Leaves(p, pieces[0]), pieces[1..]);
    }
  }

  /** A message that completes without keep-alive is the last thing the user hears of. */
  lemma SilentAfterLast(c: Config, ch: char, rest: string, more: seq<string>)
    requires Step(c.p, ch).Next? && MessageComplete in Step(c.p, ch).events
    requires !ShouldKeepAlive(Step(c.p, ch).p)
    requires forall i :: 0 <= i < |more| ==> more[i] != ""
    ensures var d := Advance(c, ch, Step(c.p, ch).p, Step(c.p, ch).events);
      && d.p.state == Dead && Flush(d) == []
      && (rest != "" ==>
            RunFrom(d, rest).Failed? && RunFrom(d, rest).c.trace == d.trace && RunFrom(d, rest).c.pos == d.pos)
      && History(d.p, more) == []
  {
    var q := Step(c.p, ch).p;
    LastDies(c.p, ch);
    var d := Advance(c, ch, q, Step(c.p, ch).events);
    DeadHistory(d.p, more);
    if rest != "" {
      RunStep(d, rest);
      assert Step(d.p, rest[0]).Error? && Step(d.p, rest[0]).events == [];
      assert d.trace + [] == d.trace;
    }
    hide Step, History, RunFrom;
  }

  lemma LastDies(p: Parser, ch: char)
    requires Step(p, ch).Next? && MessageComplete in Step(p, ch).events
    ensures Step(p, ch).p.state == if ShouldKeepAlive(Step(p, ch).p) then StartReq else Dead
  {
    if ParsingHeader(p.state) && p.state != StartReq && p.state != HeaderFieldStart
       && p.state != HeadersAlmostDone && p.state != HeaderValueStart {
      SilentSteps(Counted(p), ch);
      hide Dispatch;
    } else {
      hide StepUrl, StepVersion, StepMethod, StepField, StepValue, StepLineEnd;
    }
  }
}
