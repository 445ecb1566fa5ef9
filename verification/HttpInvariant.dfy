/** What every reachable state of the parser satisfies, and when an assertion of the source can fail.  */
module HttpInvariant {
  import opened HttpModel
  import opened HttpRun

  // ---- the invariant ----

  /** While a name is being matched the index is that of the last matched character. */
  predicate NameIndex(h: HeaderState, index: nat) {
    if h.HC? then index == 0
    else if h.HCO? then index == 1
    else if h.HCON? then index == 2
    else if h.MConnection? then 3 <= index < |CONNECTION| - 1
    else if h.MContentLength? then 3 <= index < |CONTENT_LENGTH| - 1
    else if h.MProxyConnection? then index < |PROXY_CONNECTION| - 1
    else if h.MTransferEncoding? then index < |TRANSFER_ENCODING| - 1
    else if h.MUpgrade? then index < |UPGRADE| - 1
    else NameState(h)
  }

  predicate ValueIndex(h: HeaderState, index: nat) {
    if h.MChunked? then index < |CHUNKED| - 1
    else if h.MKeepAlive? then index < |KEEP_ALIVE| - 1
    else if h.MClose? then index < |CLOSE| - 1
    else h.HGeneral? || h.HContentLength? || h.VChunked? || h.VKeepAlive? || h.VClose?
  }

  predicate ChunkState(s: State) {
    InChunkSize(s) || s.ChunkData? || s.ChunkDataAlmostDone? || s.ChunkDataDone?
  }

  /** These two methods take letters that their names do not have. */
  predicate Lenient(m: Method) { m == CONNECT || m == MKCOL }

  predicate Inv(p: Parser) {
    && p.index < 256 && p.contentLength < SIZE_LIMIT
    && (ChunkState(p.state) ==> p.flags.chunked)
    && if p.state.ReqMethod? then 1 <= p.index <= |MethodString(p.verb)| + 1
                         && (Lenient(p.verb) || p.index <= |MethodString(p.verb)|)
       else if p.state.HeaderField? then NameIndex(p.header, p.index)
       else if p.state.HeaderValueStart? then NameState(p.header)
       else if p.state.HeaderValue? then ValueIndex(p.header, p.index)
       else if p.state.ChunkSizeStart? then p.nread == 0
       else if p.state.ChunkData? then p.contentLength > 0 && p.nread == 0
       else if p.state.ChunkDataAlmostDone? then p.nread == 0
       else if p.state.ChunkDataDone? then p.nread == 0
       else if p.state.BodyIdentity? then p.contentLength > 0
       else true
  }

  /** States about which the invariant says nothing more than the bounds. */
  predicate Plain(s: State) {
    !(ChunkState(s) || s == ReqMethod || s == HeaderField || s == HeaderValueStart || s == HeaderValue
      || s == BodyIdentity)
  }

  lemma PlainInv(p: Parser)
    requires Plain(p.state) && p.index < 256 && p.contentLength < SIZE_LIMIT
    ensures Inv(p)
  {
  }

  /** The two places where the source has no defined meaning: a method name read past its end, and a
      chunk size that is negative after the cast to a signed type. */
  predicate Undefended(p: Parser, ch: char) {
    || (p.state == ReqMethod && Lenient(p.verb) && p.index > |MethodString(p.verb)|
        && ch != NUL && p.nread < MAX_HEADER)
    || (p.state == ChunkData && p.contentLength >= SIGNED_LIMIT)
  }

  lemma NameStepInv(h: HeaderState, index: nat, ch: char)
    requires NameIndex(h, index) && index < 256 && Token(ch) != NUL
    ensures var (h', i') := NameStep(h, index, ch); NameIndex(h', i') && i' < 256
  {
  }

  lemma ValueStepInv(h: HeaderState, index: nat, ch: char)
    requires ValueIndex(h, index) && index < 256 && h != HContentLength && Lower(ch) != NUL
    ensures var (h', i') := ValueStep(h, index, ch); ValueIndex(h', i') && i' < 256
  {
  }

  predicate Kept(o: Outcome) {
    match o
    case Next(q, _) => Inv(q)
    case Error(q, _) => Inv(q.(state := Dead))
    case Exit(_, _) => true
    case Fault => true
  }

  lemma FieldInv(p: Parser, ch: char)
    requires Inv(p) && p.state == HeaderField
    ensures Kept(StepField(p, ch)) && !StepField(p, ch).Fault?
  {
    if Token(ch) != NUL {
      NameStepInv(p.header, p.index, ch);
    }
  }

  lemma ValueStartInv(p: Parser, ch: char)
    requires Inv(p) && p.state == HeaderValueStart
    ensures Kept(StepValueStart(p, ch)) && !StepValueStart(p, ch).Fault?
  {
    if ch == ' ' || ch == CR || ch == LF {
      ValueStartEnds(p, ch);
    } else {
      ValueStartReads(p, ch);
    }
    hide StepValueStart, Inv;
  }

  lemma ValueStartEnds(p: Parser, ch: char)
    requires Inv(p) && p.state == HeaderValueStart && (ch == ' ' || ch == CR || ch == LF)
    ensures Kept(StepValueStart(p, ch)) && !StepValueStart(p, ch).Fault?
  {
  }

  lemma ValueStartReads(p: Parser, ch: char)
    requires Inv(p) && p.state == HeaderValueStart && ch != ' ' && ch != CR && ch != LF
    ensures Kept(StepValueStart(p, ch)) && !StepValueStart(p, ch).Fault?
  {
    hide Lower, NameIndex, MethodString;
  }

  lemma ValueInv(p: Parser, ch: char)
    requires Inv(p) && p.state == HeaderValue
    ensures Kept(StepValue(p, ch)) && !StepValue(p, ch).Fault?
  {
    if ch != CR && ch != LF && p.header != HContentLength {
      ValueStepInv(p.header, p.index, ch);
    }
  }

  lemma NameShort(m: Method)
    ensures |MethodString(m)| <= 11
  {
  }

  /** A change of method happens inside the new name. */
  lemma OtherFits(m: Method, i: nat, ch: char)
    requires 1 <= i <= |MethodString(m)| && OtherMethod(m, i, ch).0
    ensures var name := OtherMethod(m, i, ch).1;
            i <= |MethodString(name)| && (Lenient(name) || i < |MethodString(name)|)
  {
  }

  lemma MethodKept(p: Parser, ch: char)
    requires Inv(p) && p.state == ReqMethod
    ensures Kept(StepMethod(p, ch))
  {
    hide MethodString, OtherMethod, Lenient;
    NameShort(p.verb);
    if 1 <= p.index <= |MethodString(p.verb)| && OtherMethod(p.verb, p.index, ch).0 {
      OtherFits(p.verb, p.index, ch);
    }
  }

  lemma MethodFault(p: Parser, ch: char)
    requires Inv(p) && p.state == ReqMethod
    ensures StepMethod(p, ch).Fault? <==> Lenient(p.verb) && p.index > |MethodString(p.verb)| && ch != NUL
  {
  }

  lemma MethodInv(p: Parser, ch: char)
    requires Inv(p) && p.state == ReqMethod
    ensures Kept(StepMethod(p, ch))
    ensures StepMethod(p, ch).Fault? <==> Lenient(p.verb) && p.index > |MethodString(p.verb)| && ch != NUL
  {
    MethodFault(p, ch);
    MethodKept(p, ch);
    hide MethodString;
  }

  lemma ChunkSizeInv(p: Parser, ch: char)
    requires Inv(if p.state == ChunkSizeStart then p.(nread := 0) else p)
    requires p.state == ChunkSizeStart ==> p.nread == 1
    requires InChunkSize(p.state)
    ensures Kept(StepChunkSize(p, ch)) && !StepChunkSize(p, ch).Fault?
  {
  }

  lemma BodyInv(p: Parser, ch: char)
    requires Inv(p) && !ParsingHeader(p.state)
    ensures Kept(StepBody(p, ch))
    ensures StepBody(p, ch).Fault? <==> p.state == ChunkData && p.contentLength >= SIGNED_LIMIT
  {
  }

  lemma UrlNextPlain(s: State, ch: char)
    ensures Plain(UrlNext(s, ch)) && Plain(FixedNext(s, ch))
  {
  }

  lemma UrlInv(p: Parser, ch: char)
    requires Inv(p) && InUrl(p.state)
    ensures Kept(StepUrl(p, ch)) && !StepUrl(p, ch).Fault?
  {
    UrlNextPlain(p.state, ch);
    hide UrlNext;
  }

  lemma VersionInv(p: Parser, ch: char)
    requires Inv(p) && InVersion(p.state)
    ensures Kept(StepVersion(p, ch)) && !StepVersion(p, ch).Fault?
  {
    UrlNextPlain(p.state, ch);
    hide FixedNext;
  }

  lemma DeadInv(p: Parser, ch: char)
    requires Inv(p) && p.state == Dead
    ensures Kept(Dispatch(p, ch)) && Dispatch(p, ch) == Error(p, [])
  {
  }

  lemma StartInv(p: Parser, ch: char)
    requires Inv(p) && p.state == StartReq
    ensures Kept(StepStart(p, ch)) && !StepStart(p, ch).Fault?
  {
  }

  lemma HeadersEndInv(p: Parser, ch: char)
    requires Inv(p) && p.state == HeadersAlmostDone
    ensures Kept(StepHeadersEnd(p, ch)) && !StepHeadersEnd(p, ch).Fault?
  {
    assert Plain(NewMessage(p));
  }

  lemma FieldStartInv(p: Parser, ch: char)
    requires Inv(p) && p.state == HeaderFieldStart
    ensures Kept(StepFieldStart(p, ch)) && !StepFieldStart(p, ch).Fault?
  {
    HeadersEndInv(p.(state := HeadersAlmostDone), ch);
    hide StepHeadersEnd;
  }

  lemma LineEndInv(p: Parser, ch: char)
    requires Inv(p) && p.state == HeaderAlmostDone
    ensures Kept(StepLineEnd(p, ch)) && !StepLineEnd(p, ch).Fault?
  {
  }

  function Counted(p: Parser): Parser {
    if ParsingHeader(p.state) then p.(nread := p.nread + 1) else p
  }

  lemma CountedInv(p: Parser)
    requires Inv(p)
    ensures if p.state == ChunkSizeStart then Counted(p).nread == 1 && Inv(Counted(p).(nread := 0)) else Inv(Counted(p))
  {
  }

  /** Every step keeps the invariant, and an assertion can fail only in the two undefended places. */
  lemma StepInv(p: Parser, ch: char)
    requires Inv(p)
    ensures Kept(Step(p, ch))
    ensures Step(p, ch).Fault? <==> Undefended(p, ch)
  {
    CountedInv(p);
    if ParsingHeader(p.state) && p.nread >= MAX_HEADER {
      PlainInv(p.(nread := p.nread + 1, state := Dead));
    } else {
      DispatchInv(p, ch);
    }
    hide Inv, Dispatch;
  }

  /** The part of `StepInv` for one state after the byte was counted. */
  ghost predicate Sound(p: Parser, ch: char) {
    var o := Dispatch(Counted(p), ch);
    Kept(o) && ((ParsingHeader(p.state) && p.nread >= MAX_HEADER) || o.Fault? == Undefended(p, ch))
  }

  lemma DispatchInv(p: Parser, ch: char)
    requires Inv(p)
    ensures Sound(p, ch)
  {
    hide Sound;
    if InUrl(p.state) || InVersion(p.state) || ChunkState(p.state) || p.state == BodyIdentity {
      OtherSound(p, ch);
    } else {
      HeaderSound(p, ch);
    }
  }

  lemma HeaderSound(p: Parser, ch: char)
    requires Inv(p)
    requires !InUrl(p.state) && !InVersion(p.state) && !ChunkState(p.state) && p.state != BodyIdentity
    ensures Sound(p, ch)
  {
    hide StepStart, StepMethod, StepFieldStart, StepField, StepValueStart, StepValue, StepLineEnd;
    hide StepHeadersEnd;
    CountedInv(p);
    var q := Counted(p);
    hide Inv, Kept, MethodString;
    if p.state == ReqMethod { MethodInv(q, ch); }
    else if p.state == HeaderField { FieldInv(q, ch); }
    else if p.state == HeaderValueStart { ValueStartInv(q, ch); }
    else if p.state == HeaderValue { ValueInv(q, ch); }
    else if p.state == StartReq { StartInv(q, ch); }
    else if p.state == HeaderFieldStart { FieldStartInv(q, ch); }
    else if p.state == HeaderAlmostDone { LineEndInv(q, ch); }
    else if p.state == HeadersAlmostDone { HeadersEndInv(q, ch); }
    else { DeadInv(q, ch); }
  }

  lemma OtherSound(p: Parser, ch: char)
    requires Inv(p)
    requires InUrl(p.state) || InVersion(p.state) || ChunkState(p.state) || p.state == BodyIdentity
    ensures Sound(p, ch)
  {
    hide StepChunkSize, StepBody, StepUrl, StepVersion;
    CountedInv(p);
    var q := Counted(p);
    hide Inv, Kept, MethodString;
    if !ParsingHeader(p.state) { BodyInv(q, ch); }
    else if InChunkSize(p.state) { ChunkSizeInv(q, ch); }
    else if InUrl(p.state) { UrlInv(q, ch); }
    else { VersionInv(q, ch); }
  }

  // ---- whole runs ----

  lemma {:induction false} RunInv(c: Config, data: string)
    requires Inv(c.p)
    ensures RunFrom(c, data).Live? || RunFrom(c, data).Failed? ==> Inv(RunFrom(c, data).c.p)
    decreases |data|
  {
    hide Step, Inv, Undefended;
    if data != "" {
      RunStep(c, data);
      StepInv(c.p, data[0]);
      var o := Step(c.p, data[0]);
      if o.Next? {
        RunInv(Advance(c, data[0], o.p, o.events), data[1..]);
      }
    }
  }

  /** The first `k` bytes of `data` lead to an undefended place, and byte `k` goes there. */
  predicate FaultsAt(c: Config, data: string, k: nat) {
    k < |data| && RunFrom(c, data[..k]).Live? && Undefended(RunFrom(c, data[..k]).c.p, data[k])
  }

  /** No assertion of the parser fails and no string is read past its end on any input, except where a
      method word that is not a method name runs on too long or a chunk of 2^63 bytes or more begins. */
  lemma {:induction false} RunDefined(c: Config, data: string)
    requires Inv(c.p)
    ensures RunFrom(c, data) == Undefined <==> exists k: nat :: FaultsAt(c, data, k)
    decreases |data|
  {
    hide Step, Inv, Undefended;
    if data == "" {
      RunDone(c);
      assert forall k: nat :: !FaultsAt(c, data, k);
    } else {
      RunStep(c, data);
      StepInv(c.p, data[0]);
      var o, rest := Step(c.p, data[0]), data[1..];
      FaultsFirst(c, data);
      if o.Next? {
        var d := Advance(c, data[0], o.p, o.events);
        RunDefined(d, rest);
        forall k: nat
          ensures FaultsAt(c, data, k + 1) == FaultsAt(d, rest, k)
        {
          if k < |rest| {
            FaultsLater(c, data, k);
          }
        }
        if RunFrom(d, rest) == Undefined {
          var k: nat :| FaultsAt(d, rest, k);
          assert FaultsAt(c, data, k + 1);
        }
        if exists k: nat :: FaultsAt(c, data, k) {
          var k: nat :| FaultsAt(c, data, k);
          assert k != 0;
          assert FaultsAt(c, data, (k - 1) + 1) == FaultsAt(d, rest, k - 1);
        }
      } else {
        forall k: nat | k > 0
          ensures !FaultsAt(c, data, k)
        {
          if k < |data| {
            assert data[..k][0] == data[0];
            RunStep(c, data[..k]);
          }
        }
      }
    }
  }

  lemma FaultsFirst(c: Config, data: string)
    requires data != ""
    ensures FaultsAt(c, data, 0) == Undefended(c.p, data[0])
  {
    assert data[..0] == "";
    RunDone(c);
    hide RunFrom, Undefended;
  }

  lemma FaultsLater(c: Config, data: string, k: nat)
    requires data != "" && k + 1 < |data| && Step(c.p, data[0]).Next?
    ensures var d := Advance(c, data[0], Step(c.p, data[0]).p, Step(c.p, data[0]).events);
      FaultsAt(c, data, k + 1) == FaultsAt(d, data[1..], k)
  {
    hide Step, Undefended;
    RunStep(c, data[..k+1]);
    assert data[..k+1][0] == data[0] && data[..k+1][1..] == data[1..][..k];
  }
}
