/** Request lines: printing a method, a URL and a version, and what a run over the line delivers.  */
module HttpRequestLine {
  import opened Wrappers
  import opened HttpModel
  import opened HttpGrammar
  import opened HttpRun
  import opened HttpHeard
  import opened HttpLine

  /** `c` some bytes later inside the request line. */
  function Inside(c: Config, n: nat, q: Parser, url: string, part: string, events: seq<Event>): Config {
    Config(q.(nread := c.p.nread + n), url, part, c.trace + events, c.pos + n)
  }

  // ---- the method ----

  /** What a letter makes of the method matched so far. */
  function VerbStep(m: Method, i: nat, ch: char): (bool, Method)
    requires i <= |MethodString(m)|
  {
    if ch == At(MethodString(m), i) then (true, m) else OtherMethod(m, i, ch)
  }

  /** The letters `s`, from index `i` on, turn method `m` into `to`. */
  predicate VerbPath(m: Method, i: nat, s: string, to: Method)
    decreases |s|
  {
    if s == "" then m == to && i == |MethodString(to)|
    else
      && i <= |MethodString(m)| && s[0] != NUL && (s[0] == ' ' ==> i < |MethodString(m)|)
      && VerbStep(m, i, s[0]).0 && VerbPath(VerbStep(m, i, s[0]).1, i + 1, s[1..], to)
  }

  predicate Letters(s: string) {
    s != "" && s[0] in "CDGHLMNOPRSTU" && forall i :: 0 <= i < |s| ==> s[i] == '-' || 'A' <= s[i] <= 'Z'
  }

  lemma MethodLetters1(m: Method)
    requires m.DELETE? || m.GET? || m.HEAD? || m.POST? || m.PUT? || m.CONNECT? || m.OPTIONS?
    ensures Letters(MethodString(m))
  {
  }

  lemma MethodLetters2(m: Method)
    requires m.TRACE? || m.COPY? || m.LOCK? || m.MKCOL? || m.MOVE? || m.PROPFIND?
    ensures Letters(MethodString(m))
  {
  }

  lemma MethodLetters3(m: Method)
    requires m.PROPPATCH? || m.UNLOCK? || m.REPORT? || m.MERGE?
    ensures Letters(MethodString(m))
  {
  }

  lemma MethodLetters4(m: Method)
    requires m.MKACTIVITY? || m.CHECKOUT? || m.MSEARCH?
    ensures Letters(MethodString(m))
  {
  }

  lemma MethodLetters5(m: Method)
    requires m.NOTIFY? || m.SUBSCRIBE? || m.UNSUBSCRIBE?
    ensures Letters(MethodString(m))
  {
  }

  lemma MethodLetters(m: Method)
    ensures Letters(MethodString(m))
  {
    hide Letters, MethodString;
    if m.DELETE? || m.GET? || m.HEAD? || m.POST? || m.PUT? || m.CONNECT? || m.OPTIONS? { MethodLetters1(m); }
    else if m.TRACE? || m.COPY? || m.LOCK? || m.MKCOL? || m.MOVE? || m.PROPFIND? { MethodLetters2(m); }
    else if m.PROPPATCH? || m.UNLOCK? || m.REPORT? || m.MERGE? { MethodLetters3(m); }
    else if m.MKACTIVITY? || m.CHECKOUT? || m.MSEARCH? { MethodLetters4(m); }
    else { MethodLetters5(m); }
  }

  /** The letters of a name lead to its method from any index on. */
  lemma {:induction false} TailPath(m: Method, i: nat)
    requires 1 <= i <= |MethodString(m)|
    ensures VerbPath(m, i, MethodString(m)[i..], m)
    decreases |MethodString(m)| - i
  {
    hide MethodString;
    var s := MethodString(m)[i..];
    if s != "" {
      MethodLetters(m);
      assert s[1..] == MethodString(m)[i+1..];
      TailPath(m, i + 1);
    }
  }

  lemma StepPath(m: Method, i: nat, s: string, to: Method)
    requires s != "" && i <= |MethodString(m)| && s[0] != NUL && (s[0] == ' ' ==> i < |MethodString(m)|)
    requires VerbStep(m, i, s[0]).0
    requires VerbPath(VerbStep(m, i, s[0]).1, i + 1, s[1..], to)
    ensures VerbPath(m, i, s, to)
  {
  }

  /** The method of a first letter, as in the switch of the source. */
  lemma FirstMethod(m: Method, s: string)
    requires s == MethodString(m)
    ensures Letters(s)
    ensures FirstLetter(s[0]) == if Shares(m) then Base(m) else m
  {
    MethodLetters(m);
    hide Letters;
  }

  /** Names that share a beginning with another one. */
  predicate Shares(m: Method) {
    m.CHECKOUT? || m.COPY? || m.MOVE? || m.MERGE? || m.MSEARCH? || m.MKACTIVITY?
    || m.PROPFIND? || m.PROPPATCH? || m.PUT? || m.UNSUBSCRIBE?
  }

  function Base(m: Method): Method
    requires Shares(m)
  {
    if m.COPY? || m.CHECKOUT? then CONNECT
    else if m.PUT? || m.PROPFIND? || m.PROPPATCH? then POST
    else if m.UNSUBSCRIBE? then UNLOCK
    else MKCOL
  }

  lemma EarlyLetter(m: Method)
    requires m.CHECKOUT? || m.MOVE? || m.MERGE? || m.MSEARCH? || m.PROPFIND? || m.PUT?
    ensures |MethodString(m)| > 2 && 1 < |MethodString(Base(m))|
    ensures VerbStep(Base(m), 1, MethodString(m)[1]) == (true, m)
  {
  }

  lemma LateLetter(m: Method)
    requires m.COPY? || m.MKACTIVITY? || m.UNSUBSCRIBE?
    ensures |MethodString(m)| > 3 && 2 < |MethodString(Base(m))|
    ensures VerbStep(Base(m), 1, MethodString(m)[1]) == (true, Base(m))
    ensures VerbStep(Base(m), 2, MethodString(m)[2]) == (true, m)
  {
  }

  lemma EarlyPath(m: Method)
    requires m.CHECKOUT? || m.MOVE? || m.MERGE? || m.MSEARCH? || m.PROPFIND? || m.PUT?
    ensures VerbPath(Base(m), 1, MethodString(m)[1..], m)
  {
    hide VerbPath, MethodString, VerbStep, FirstLetter;
    EarlyLetter(m);
    FirstMethod(m, MethodString(m));
    var s := MethodString(m);
    TailPath(m, 2);
    assert s[1..][0] == s[1] && s[1..][1..] == s[2..];
    StepPath(Base(m), 1, s[1..], m);
  }

  lemma LatePath(m: Method)
    requires m.COPY? || m.MKACTIVITY? || m.UNSUBSCRIBE?
    ensures VerbPath(Base(m), 1, MethodString(m)[1..], m)
  {
    hide VerbPath, MethodString, VerbStep, FirstLetter;
    LateLetter(m);
    FirstMethod(m, MethodString(m));
    var s := MethodString(m);
    TailPath(m, 3);
    assert s[1..][0] == s[1] && s[1..][1..] == s[2..] && s[2..][0] == s[2] && s[2..][1..] == s[3..];
    StepPath(Base(m), 2, s[2..], m);
    StepPath(Base(m), 1, s[1..], m);
  }

  lemma PropPatchPath()
    ensures VerbPath(POST, 1, MethodString(PROPPATCH)[1..], PROPPATCH)
  {
    var s := MethodString(PROPPATCH);
    TailPath(PROPPATCH, 5);
    assert s[4..][0] == s[4] && s[4..][1..] == s[5..];
    StepPath(PROPFIND, 4, s[4..], PROPPATCH);
    assert s[3..][0] == s[3] && s[3..][1..] == s[4..];
    StepPath(PROPFIND, 3, s[3..], PROPPATCH);
    assert s[2..][0] == s[2] && s[2..][1..] == s[3..];
    StepPath(PROPFIND, 2, s[2..], PROPPATCH);
    assert s[1..][0] == s[1] && s[1..][1..] == s[2..];
    StepPath(POST, 1, s[1..], PROPPATCH);
    hide VerbPath;
  }

  lemma NamePath(m: Method)
    ensures Letters(MethodString(m))
    ensures VerbPath(FirstLetter(MethodString(m)[0]), 1, MethodString(m)[1..], m)
  {
    hide MethodString, VerbPath, Letters;
    FirstMethod(m, MethodString(m));
    if m == PROPPATCH { PropPatchPath(); }
    else if m.COPY? || m.MKACTIVITY? || m.UNSUBSCRIBE? { LatePath(m); }
    else if Shares(m) { EarlyPath(m); }
    else { TailPath(m, 1); }
  }

  lemma VerbByte(c: Config, ch: char) returns (d: Config)
    requires c.p.state == ReqMethod && c.url == "" && Room(c, 1)
    requires c.p.index <= |MethodString(c.p.verb)| && ch != NUL && VerbStep(c.p.verb, c.p.index, ch).0
    requires ch == ' ' ==> c.p.index < |MethodString(c.p.verb)|
    ensures Reaches(c, [ch], d)
    ensures d == Inside(c, 1, c.p.(index := c.p.index + 1, verb := VerbStep(c.p.verb, c.p.index, ch).1), "", "", [])
  {
    hide OtherMethod, MethodString;
    var q := c.p.(nread := c.p.nread + 1, index := c.p.index + 1, verb := VerbStep(c.p.verb, c.p.index, ch).1);
    assert Step(c.p, ch) == Next(q, []);
    ReachOne(c, ch, q, []);
    d := Advance(c, ch, q, []);
    hide Step;
  }

  lemma {:induction false} VerbRun(c: Config, s: string, to: Method) returns (d: Config)
    requires c.p.state == ReqMethod && c.url == "" && c.part == "" && Room(c, |s|)
    requires VerbPath(c.p.verb, c.p.index, s, to)
    ensures Reaches(c, s, d)
    ensures d == Inside(c, |s|, c.p.(index := |MethodString(to)|, verb := to), "", "", [])
    decreases |s|
  {
    hide Reaches, VerbStep;
    assert c.trace + [] == c.trace;
    if s == "" {
      ReachNone(c);
      return c;
    }
    var e := VerbByte(c, s[0]);
    d := VerbRun(e, s[1..], to);
    Chain(c, [s[0]], e, s[1..], d);
    assert [s[0]] + s[1..] == s;
  }

  lemma FirstVerbByte(c: Config, ch: char) returns (d: Config)
    requires c.p.state == StartReq && c.url == "" && Room(c, 1) && ch in "CDGHLMNOPRSTU"
    ensures Reaches(c, [ch], d)
    ensures d == Inside(c, 1, c.p.(state := ReqMethod, index := 1, verb := FirstLetter(ch), flags := NO_FLAGS,
                                   contentLength := NO_LENGTH), "", "", [MessageBegin])
  {
    hide FirstLetter;
    var q := c.p.(nread := c.p.nread + 1, state := ReqMethod, index := 1, verb := FirstLetter(ch), flags := NO_FLAGS,
                  contentLength := NO_LENGTH);
    assert ch != CR && ch != LF;
    assert Step(c.p, ch) == Next(q, [MessageBegin]);
    ReachOne(c, ch, q, [MessageBegin]);
    d := Advance(c, ch, q, [MessageBegin]);
    hide Step;
  }

  lemma VerbSpace(c: Config) returns (d: Config)
    requires c.p.state == ReqMethod && c.url == "" && Room(c, 1) && c.p.index == |MethodString(c.p.verb)|
    ensures Reaches(c, " ", d)
    ensures d == Inside(c, 1, c.p.(state := SpacesBeforeUrl, index := d.p.index), "", "", [])
  {
    hide MethodString;
    var q := c.p.(nread := c.p.nread + 1, state := SpacesBeforeUrl, index := c.p.index + 1);
    assert Step(c.p, ' ') == Next(q, []);
    ReachOne(c, ' ', q, []);
    d := Advance(c, ' ', q, []);
    hide Step;
  }

  /** What passes for a method: its name, or, for four of them, almost anything of its length. */
  predicate Spells(w: string, m: Method) {
    || w == MethodString(m)
    || (m == CONNECT && |w| == 7 && w[0] == 'C' && w[1] != 'H' && w[2] != 'P' && '\0' !in w)
    || (m == COPY && |w| == 4 && w[0] == 'C' && w[1] != 'H' && w[1] != '\0' && w[2..] == "PY")
    || (m == MKCOL && |w| == 5 && w[0] == 'M' && w[1] !in "OE-" && w[2] != 'A' && '\0' !in w)
    || (m == MKACTIVITY && |w| == 10 && w[0] == 'M' && w[1] !in "OE-" && w[1] != '\0' && w[2..] == "ACTIVITY")
  }

  /** Behind the letters that decide, CONNECT and MKCOL take anything. */
  lemma {:induction false} AnyPath(m: Method, i: nat, s: string)
    requires (m == CONNECT || m == MKCOL) && 3 <= i && i + |s| == |MethodString(m)| && '\0' !in s
    ensures VerbPath(m, i, s, m)
    decreases |s|
  {
    if s != "" {
      assert VerbStep(m, i, s[0]) == (true, m);
      AnyPath(m, i + 1, s[1..]);
    }
  }

  /** The letters that decide. */
  lemma LenientSteps(ch: char)
    ensures VerbStep(CONNECT, 1, ch) == (true, if ch == 'H' then CHECKOUT else CONNECT)
    ensures VerbStep(CONNECT, 2, ch) == (true, if ch == 'P' then COPY else CONNECT)
    ensures VerbStep(MKCOL, 1, ch) ==
      (true, if ch == 'O' then MOVE else if ch == 'E' then MERGE else if ch == '-' then MSEARCH else MKCOL)
    ensures VerbStep(MKCOL, 2, ch) == (true, if ch == 'A' then MKACTIVITY else MKCOL)
  {
  }

  lemma LenientNames()
    ensures |MethodString(CONNECT)| == 7 && |MethodString(MKCOL)| == 5
    ensures |MethodString(COPY)| == 4 && MethodString(COPY)[2..] == "PY" && MethodString(COPY)[3..] == "Y"
    ensures |MethodString(MKACTIVITY)| == 10 && MethodString(MKACTIVITY)[2..] == "ACTIVITY"
    ensures MethodString(MKACTIVITY)[3..] == "CTIVITY"
  {
  }

  /** A word for CONNECT or MKCOL leads there. */
  lemma LenientPath(w: string, m: Method)
    requires (m == CONNECT || m == MKCOL) && w != MethodString(m) && Spells(w, m)
    ensures VerbPath(m, 1, w[1..], m)
  {
    hide VerbPath, VerbStep, MethodString;
    LenientNames();
    var s := w[1..];
    assert s[1..] == w[2..] && s[1..][1..] == w[3..] && w[1] in w && w[2] in w;
    assert '\0' !in w[3..];
    AnyPath(m, 3, w[3..]);
    LenientSteps(w[1]);
    LenientSteps(w[2]);
    StepPath(m, 2, s[1..], m);
    StepPath(m, 1, s, m);
  }

  /** One letter may be anything in a word for COPY or MKACTIVITY. */
  lemma OddPath(w: string, m: Method)
    requires (m == COPY || m == MKACTIVITY) && w != MethodString(m) && Spells(w, m)
    ensures VerbPath(Base(m), 1, w[1..], m)
  {
    hide VerbPath, VerbStep, MethodString;
    LenientNames();
    var s := w[1..];
    assert s[1..] == w[2..] && s[1..][1..] == w[3..] == w[2..][1..];
    assert w[3..] == MethodString(m)[3..];
    TailPath(m, 3);
    LenientSteps(w[1]);
    LenientSteps(w[2]);
    assert w[2] == w[2..][0];
    StepPath(Base(m), 2, s[1..], m);
    StepPath(Base(m), 1, s, m);
  }

  lemma WordPath(w: string, m: Method)
    requires Spells(w, m)
    ensures w != "" && w[0] in "CDGHLMNOPRSTU" && VerbPath(FirstLetter(w[0]), 1, w[1..], m)
  {
    hide VerbPath, MethodString;
    if w == MethodString(m) {
      NamePath(m);
    } else if m == CONNECT || m == MKCOL {
      LenientPath(w, m);
    } else {
      OddPath(w, m);
    }
  }

  /** Every one of the 23 method names is recognised, and so is every word that passes for one, without any letter
      being read past the end of a name. */
  lemma MethodRun(c: Config, w: string, m: Method) returns (d: Config)
    requires c.p.state == StartReq && c.url == "" && Room(c, |w| + 1) && Spells(w, m)
    ensures Reaches(c, w + " ", d)
    ensures d == Inside(c, |w| + 1,
                        c.p.(state := SpacesBeforeUrl, index := d.p.index, verb := m, flags := NO_FLAGS,
                             contentLength := NO_LENGTH), "", "", [MessageBegin])
  {
    hide Reaches, MethodString, VerbPath, FirstLetter, Spells;
    WordPath(w, m);
    var e := FirstVerbByte(c, w[0]);
    var f := VerbRun(e, w[1..], m);
    d := VerbSpace(f);
    Chain3(c, [w[0]], e, w[1..], f, " ", d);
    assert [w[0]] + w[1..] == w;
    assert c.trace + [MessageBegin] + [] + [] == c.trace + [MessageBegin];
  }

  // ---- the URL ----

  /** A schema and a host, or a host alone as in the authority form, with an optional port. */
  datatype Origin = Origin(schema: Option<string>, host: string, port: Option<string>)

  datatype Target = Target(origin: Option<Origin>, path: string, query: Option<string>, fragment: Option<string>)

  predicate IsSchema(s: string) { s != "" && forall j :: 0 <= j < |s| ==> Letter(s[j]) }

  predicate HostChar(ch: char) { Letter(ch) || Decimal(ch) || ch == '.' || ch == '-' }

  /** After its letters a host without a schema goes on with a dot or a digit. */
  predicate BareHost(s: string) {
    s != "" && if Letter(s[0]) then BareHost(s[1..]) else s[0] == '.' || Decimal(s[0])
  }

  predicate GoodOrigin(o: Origin) {
    && (forall j :: 0 <= j < |o.host| ==> HostChar(o.host[j]))
    && (if o.schema.Some? then IsSchema(o.schema.value) else BareHost(o.host) && Letter(o.host[0]))
    && (o.port.Some? ==> forall j :: 0 <= j < |o.port.value| ==> Decimal(o.port.value[j]))
  }

  /** A path begins with a slash, or with a star if nothing is before it; only an origin needs no path. */
  predicate GoodPath(rooted: bool, path: string) {
    && (path != "" ==> path[0] == '/' || (path[0] == '*' && !rooted))
    && forall j :: 0 <= j < |path| ==> UrlChar(path[j])
  }

  predicate GoodTarget(t: Target) {
    && (t.origin.Some? ==> GoodOrigin(t.origin.value))
    && GoodPath(t.origin.Some?, t.path)
    && (t.path == "" ==> t.origin.Some? && t.query.None? && t.fragment.None?)
    && (t.query.Some? ==> GoodQuery(t.query.value))
    && (t.fragment.Some? ==> GoodFragment(t.fragment.value))
  }

  predicate GoodQuery(q: string) { forall j :: 0 <= j < |q| ==> UrlChar(q[j]) || q[j] == '?' }

  predicate GoodFragment(f: string) {
    forall j :: 0 <= j < |f| ==> UrlChar(f[j]) || f[j] == '?' || f[j] == '#'
  }

  /** What is delivered of a query or a fragment: its own delimiter in front is skipped over, any number of times. */
  function Unmarked(ch: char, text: string): (r: string)
    ensures |r| <= |text| && (r == text <==> text == "" || text[0] != ch)
  {
    if text != "" && text[0] == ch then Unmarked(ch, text[1..]) else text
  }

  function QueryText(q: Option<string>): string { if q.None? then "" else "?" + q.value }

  function FragmentText(f: Option<string>): string { if f.None? then "" else "#" + f.value }

  function SchemaText(s: Option<string>): string { if s.None? then "" else s.value + "://" }

  function PortText(p: Option<string>): string { if p.None? then "" else ":" + p.value }

  function OriginText(o: Origin): string { SchemaText(o.schema) + o.host + PortText(o.port) }

  /** The URL before its query. */
  function Front(t: Target): string { (if t.origin.None? then "" else OriginText(t.origin.value)) + t.path }

  function UrlText(t: Target): string { Front(t) + QueryText(t.query) + FragmentText(t.fragment) }

  /** The part not yet delivered before the fragment. */
  function BeforeFragment(t: Target): seq<Event> {
    if t.query.None? then if t.path == "" then [] else [Data(PathPart, t.path)]
    else if Unmarked('?', t.query.value) == "" then [] else [Data(QueryPart, Unmarked('?', t.query.value))]
  }

  function AtEnd(t: Target): seq<Event> {
    if t.fragment.None? then BeforeFragment(t)
    else if Unmarked('#', t.fragment.value) == "" then [] else [Data(FragmentPart, Unmarked('#', t.fragment.value))]
  }

  /** The callbacks for a URL: each part when its end is seen, the URL as soon as it ends. */
  function UrlEvents(t: Target): seq<Event> {
    (if t.query.None? then [] else [Data(PathPart, t.path)])
    + (if t.fragment.None? then [] else BeforeFragment(t))
    + [Data(Url, UrlText(t))] + AtEnd(t)
  }

  /** A byte inside a request line that stays in the URL or ends it with a space. */
  lemma UrlByte(c: Config, ch: char, s: State) returns (d: Config)
    requires InUrl(c.p.state) && Room(c, 1) && s == UrlNext(c.p.state, ch)
    requires s != Dead && s != ReqLineAlmostDone && s != HeaderFieldStart
    ensures Reaches(c, [ch], d)
    ensures var q := c.p.(nread := c.p.nread + 1, state := s); d == Advance(c, ch, q, [])
  {
    hide UrlNext, Advance;
    var q := c.p.(nread := c.p.nread + 1, state := s);
    assert Step(c.p, ch) == Next(q, []);
    ReachOne(c, ch, q, []);
    d := Advance(c, ch, q, []);
    hide Step;
  }

  lemma PartByte(c: Config, ch: char) returns (d: Config)
    requires c.p.state == Path || c.p.state == Query || c.p.state == Fragment
    requires Room(c, 1) && UrlNext(c.p.state, ch) == c.p.state
    ensures Reaches(c, [ch], d)
    ensures d == Inside(c, 1, c.p, c.url + [ch], c.part + [ch], [])
  {
    hide Reaches, UrlNext;
    d := UrlByte(c, ch, c.p.state);
  }

  /** Characters that keep the parser in a part of the URL. */
  lemma {:induction false} PartRun(c: Config, s: string) returns (d: Config)
    requires c.p.state == Path || c.p.state == Query || c.p.state == Fragment
    requires Room(c, |s|) && forall j :: 0 <= j < |s| ==> UrlNext(c.p.state, s[j]) == c.p.state
    ensures Reaches(c, s, d)
    ensures d == Inside(c, |s|, c.p, c.url + s, c.part + s, [])
    decreases |s|
  {
    hide Reaches, UrlNext;
    if s == "" {
      ReachNone(c);
      AppendNone(c);
      return c;
    }
    var e := PartByte(c, s[0]);
    d := PartRun(e, s[1..]);
    Chain(c, [s[0]], e, s[1..], d);
    AppendHead(c.url, s);
    AppendHead(c.part, s);
    AppendNone(c);
  }

  lemma AppendNone(c: Config)
    ensures c.trace + [] == c.trace && c.url + "" == c.url && c.part + "" == c.part
  {
  }

  lemma AppendHead(t: string, s: string)
    requires s != ""
    ensures [s[0]] + s[1..] == s && (t + [s[0]]) + s[1..] == t + s
  {
  }

  /** The states of a URL before its path. */
  predicate InOrigin(s: State) {
    s.SpacesBeforeUrl? || s.Schema? || s.SchemaSlash? || s.SchemaSlashSlash? || s.Host? || s.Port?
  }

  /** Characters that lead from one of them to another. */
  predicate OriginPath(s: State, text: string, to: State)
    decreases |text|
  {
    InOrigin(s) && if text == "" then s == to else OriginPath(UrlNext(s, text[0]), text[1..], to)
  }

  lemma {:induction false} OriginPathAppend(s: State, a: string, m: State, b: string, to: State)
    requires OriginPath(s, a, m) && OriginPath(m, b, to)
    ensures OriginPath(s, a + b, to)
    decreases |a|
  {
    hide UrlNext;
    if a == "" {
      assert a + b == b;
    } else {
      assert (a + b)[0] == a[0] && (a + b)[1..] == a[1..] + b;
      OriginPathAppend(UrlNext(s, a[0]), a[1..], m, b, to);
    }
  }

  lemma {:induction false} StayPath(s: State, text: string)
    requires InOrigin(s) && forall j :: 0 <= j < |text| ==> UrlNext(s, text[j]) == s
    ensures OriginPath(s, text, s)
    decreases |text|
  {
    hide UrlNext;
    if text != "" {
      StayPath(s, text[1..]);
    }
  }

  lemma OneLetter(s: State, ch: char)
    requires InOrigin(s) && InOrigin(UrlNext(s, ch))
    ensures OriginPath(s, [ch], UrlNext(s, ch))
  {
    assert [ch][1..] == "";
    hide UrlNext;
  }

  /** What the characters of an origin do. */
  lemma OriginChars(ch: char)
    ensures HostChar(ch) ==> UrlNext(Host, ch) == Host
    ensures Letter(ch) ==> UrlNext(SpacesBeforeUrl, ch) == Schema && UrlNext(Schema, ch) == Schema
    ensures Decimal(ch) || ch == '.' ==> UrlNext(Schema, ch) == Host
    ensures Decimal(ch) ==> UrlNext(Port, ch) == Port
  {
    LetterTable(ch);
    hide Decimal;
  }

  lemma SchemaPath(s: string)
    requires IsSchema(s)
    ensures OriginPath(SpacesBeforeUrl, s + "://", Host)
  {
    hide Letter;
    forall j | 0 <= j < |s|
      ensures UrlNext(SpacesBeforeUrl, s[j]) == Schema && UrlNext(Schema, s[j]) == Schema
    {
      OriginChars(s[j]);
    }
    OneLetter(SpacesBeforeUrl, s[0]);
    StayPath(Schema, s[1..]);
    OneLetter(Schema, ':');
    OneLetter(SchemaSlash, '/');
    OneLetter(SchemaSlashSlash, '/');
    hide OriginPath, UrlNext;
    assert UrlNext(SpacesBeforeUrl, s[0]) == Schema;
    assert [s[0]] + s[1..] == s && [':'] + ['/'] + ['/'] == "://";
    OriginPathAppend(SpacesBeforeUrl, [s[0]], Schema, s[1..], Schema);
    OriginPathAppend(Schema, [':'], SchemaSlash, ['/'], SchemaSlashSlash);
    OriginPathAppend(Schema, [':'] + ['/'], SchemaSlashSlash, ['/'], Host);
    OriginPathAppend(SpacesBeforeUrl, s, Schema, "://", Host);
  }

  lemma HostStays(s: string)
    requires forall j :: 0 <= j < |s| ==> HostChar(s[j])
    ensures OriginPath(Host, s, Host)
  {
    hide HostChar, UrlNext;
    forall j | 0 <= j < |s|
      ensures UrlNext(Host, s[j]) == Host
    {
      OriginChars(s[j]);
    }
    StayPath(Host, s);
  }

  lemma {:induction false} BareHostPath(s: string)
    requires BareHost(s) && forall j :: 0 <= j < |s| ==> HostChar(s[j])
    ensures OriginPath(Schema, s, Host)
    decreases |s|
  {
    hide OriginPath, UrlNext, HostChar, Letter, Decimal;
    OriginChars(s[0]);
    OneLetter(Schema, s[0]);
    assert [s[0]] + s[1..] == s;
    if Letter(s[0]) {
      BareHostPath(s[1..]);
    } else {
      HostStays(s[1..]);
    }
    OriginPathAppend(Schema, [s[0]], UrlNext(Schema, s[0]), s[1..], Host);
  }

  lemma HostPath(o: Origin)
    requires GoodOrigin(o)
    ensures OriginPath(SpacesBeforeUrl, SchemaText(o.schema) + o.host, Host)
  {
    hide UrlNext, OriginPath, HostChar, Letter, IsSchema;
    if o.schema.Some? {
      SchemaPath(o.schema.value);
      HostStays(o.host);
      OriginPathAppend(SpacesBeforeUrl, SchemaText(o.schema), Host, o.host, Host);
    } else {
      OriginChars(o.host[0]);
      OneLetter(SpacesBeforeUrl, o.host[0]);
      BareHostPath(o.host[1..]);
      assert "" + o.host == o.host && [o.host[0]] + o.host[1..] == o.host;
      OriginPathAppend(SpacesBeforeUrl, [o.host[0]], Schema, o.host[1..], Host);
    }
  }

  /** Where the parser is after an origin. */
  function OriginState(o: Origin): State { if o.port.None? then Host else Port }

  lemma OriginLeads(o: Origin)
    requires GoodOrigin(o)
    ensures OriginPath(SpacesBeforeUrl, OriginText(o), OriginState(o))
  {
    HostPath(o);
    var text := SchemaText(o.schema) + o.host;
    if o.port.None? {
      assert text + PortText(o.port) == text;
    } else {
      OneLetter(Host, ':');
      forall j | 0 <= j < |o.port.value|
        ensures UrlNext(Port, o.port.value[j]) == Port
      {
        OriginChars(o.port.value[j]);
      }
      StayPath(Port, o.port.value);
      assert [':'] == ":";
      OriginPathAppend(Host, ":", Port, o.port.value, Port);
      OriginPathAppend(SpacesBeforeUrl, text, Host, ":" + o.port.value, Port);
    }
    hide OriginPath, UrlNext, GoodOrigin;
  }

  lemma OriginAdvance(c: Config, ch: char, q: Parser)
    requires InOrigin(c.p.state) && InOrigin(q.state) && q.state != SpacesBeforeUrl
    requires c.part == "" && (c.p.state == SpacesBeforeUrl ==> c.url == "")
    ensures Advance(c, ch, q, []) == Config(q, c.url + [ch], "", c.trace + [], c.pos + 1)
  {
    assert OpenPart(c.p) == Closed && OpenPart(q) == Closed && UrlOpen(q.state);
    assert UrlOpen(c.p.state) <==> c.p.state != SpacesBeforeUrl;
    hide OpenPart, UrlOpen;
    assert Clear(c, ch, q) == [];
    assert c.trace + [] + [] == c.trace + [] && "" + [ch] == [ch];
  }

  lemma OriginByte(c: Config, ch: char) returns (d: Config)
    requires InOrigin(c.p.state) && InOrigin(UrlNext(c.p.state, ch)) && UrlNext(c.p.state, ch) != SpacesBeforeUrl
    requires Room(c, 1) && c.part == "" && (c.p.state == SpacesBeforeUrl ==> c.url == "")
    ensures Reaches(c, [ch], d)
    ensures d == Inside(c, 1, c.p.(state := UrlNext(c.p.state, ch)), c.url + [ch], "", [])
  {
    hide Reaches, UrlNext, Advance;
    var s := UrlNext(c.p.state, ch);
    OriginAdvance(c, ch, c.p.(nread := c.p.nread + 1, state := s));
    d := UrlByte(c, ch, s);
  }

  lemma {:induction false} OriginRun(c: Config, text: string, to: State) returns (d: Config)
    requires OriginPath(c.p.state, text, to) && Room(c, |text|) && c.part == ""
    requires c.p.state == SpacesBeforeUrl ==> c.url == "" && text != "" && text[0] != ' '
    ensures Reaches(c, text, d)
    ensures d == Inside(c, |text|, c.p.(state := to), c.url + text, "", [])
    decreases |text|
  {
    hide Reaches, UrlNext;
    AppendNone(c);
    if text == "" {
      ReachNone(c);
      return c;
    }
    OnwardFrom(c.p.state, text[0]);
    var e := OriginByte(c, text[0]);
    d := OriginRun(e, text[1..], to);
    Chain(c, [text[0]], e, text[1..], d);
    AppendHead(c.url, text);
  }

  /** Only a space leads back to the start of a URL. */
  lemma OnwardFrom(s: State, ch: char)
    ensures UrlNext(s, ch) == SpacesBeforeUrl ==> s == SpacesBeforeUrl && ch == ' '
  {
  }

  lemma OriginFirst(o: Origin)
    requires GoodOrigin(o)
    ensures OriginText(o) != "" && OriginText(o)[0] != ' '
  {
    assert Letter(OriginText(o)[0]);
  }

  lemma ToPath(s: State, ch: char)
    requires (ch == '/' && (s == Host || s == Port || s == SpacesBeforeUrl)) || (ch == '*' && s == SpacesBeforeUrl)
    ensures UrlNext(s, ch) == Path
  {
  }

  lemma PathByte(c: Config, ch: char) returns (d: Config)
    requires c.p.state == Host || c.p.state == Port || (c.p.state == SpacesBeforeUrl && c.url == "")
    requires UrlNext(c.p.state, ch) == Path && c.part == "" && Room(c, 1)
    ensures Reaches(c, [ch], d)
    ensures d == Inside(c, 1, c.p.(state := Path), c.url + [ch], [ch], [])
  {
    hide Reaches, UrlNext;
    d := UrlByte(c, ch, Path);
  }

  /** What the characters of a path, a query and a fragment do. */
  lemma PartChars(ch: char)
    ensures UrlChar(ch) ==> UrlNext(Path, ch) == Path
    ensures UrlChar(ch) ==> UrlNext(QueryStart, ch) == Query
    ensures UrlChar(ch) || ch == '?' ==> UrlNext(Query, ch) == Query
    ensures UrlChar(ch) || ch == '?' ==> UrlNext(FragmentStart, ch) == Fragment
    ensures UrlChar(ch) || ch == '?' || ch == '#' ==> UrlNext(Fragment, ch) == Fragment
  {
    UrlTable(ch);
    hide UrlChar, NormalUrlChar;
  }

  /** A path, at the start of a URL or after its origin. */
  lemma PathRun(c: Config, path: string) returns (d: Config)
    requires path != "" && GoodPath(c.p.state != SpacesBeforeUrl, path)
    requires c.p.state == Host || c.p.state == Port || (c.p.state == SpacesBeforeUrl && c.url == "")
    requires c.part == "" && Room(c, |path|)
    ensures Reaches(c, path, d)
    ensures d == Inside(c, |path|, c.p.(state := Path), c.url + path, path, [])
  {
    hide Reaches, UrlChar, UrlNext;
    ToPath(c.p.state, path[0]);
    var e := PathByte(c, path[0]);
    forall j | 0 <= j < |path| - 1
      ensures UrlNext(Path, path[1..][j]) == Path
    {
      PartChars(path[j + 1]);
    }
    d := PartRun(e, path[1..]);
    Chain(c, [path[0]], e, path[1..], d);
    AppendHead(c.url, path);
    AppendHead("", path);
    assert c.trace + [] + [] == c.trace + [];
  }

  /** The state in which the query or the end of the URL is met. */
  function FrontState(t: Target): State {
    if t.path != "" || t.origin.None? then Path else OriginState(t.origin.value)
  }

  lemma FrontRun(c: Config, t: Target) returns (d: Config)
    requires c.p.state == SpacesBeforeUrl && c.url == "" && c.part == "" && Room(c, |Front(t)|) && GoodTarget(t)
    ensures Reaches(c, Front(t), d)
    ensures d == Inside(c, |Front(t)|, c.p.(state := FrontState(t)), Front(t), t.path, [])
  {
    hide Reaches, GoodOrigin, GoodPath, GoodQuery, GoodFragment, OriginText, OriginPath;
    assert "" + t.path == t.path;
    if t.origin.None? {
      d := PathRun(c, t.path);
      return d;
    }
    var o := t.origin.value;
    OriginLeads(o);
    OriginFirst(o);
    var e := OriginRun(c, OriginText(o), OriginState(o));
    assert "" + OriginText(o) == OriginText(o);
    if t.path == "" {
      assert Front(t) == OriginText(o);
      return e;
    }
    d := PathRun(e, t.path);
    Chain(c, OriginText(o), e, t.path, d);
    assert c.trace + [] + [] == c.trace + [];
  }

  /** The delimiter of a query or fragment. */
  lemma DelimiterByte(c: Config, ch: char, s: State) returns (d: Config)
    requires Room(c, 1)
    requires (ch == '?' && s == QueryStart && c.p.state == Path)
             || (ch == '#' && s == FragmentStart && (c.p.state == Path || c.p.state == QueryStart
                 || c.p.state == Query))
    ensures Reaches(c, [ch], d)
    ensures d == Inside(c, 1, c.p.(state := s), c.url + [ch], "", OpenEvent(c))
  {
    hide Reaches;
    d := UrlByte(c, ch, s);
    hide UrlNext;
  }

  /** The first character after it. */
  lemma OpeningByte(c: Config, ch: char, s: State) returns (d: Config)
    requires Room(c, 1) && UrlNext(c.p.state, ch) == s
    requires (s == Query && c.p.state == QueryStart) || (s == Fragment && c.p.state == FragmentStart)
    ensures Reaches(c, [ch], d)
    ensures d == Inside(c, 1, c.p.(state := s), c.url + [ch], [ch], [])
  {
    hide Reaches, UrlNext;
    d := UrlByte(c, ch, s);
  }

  /** The delimiter once more. */
  lemma MarkByte(c: Config, ch: char) returns (d: Config)
    requires Room(c, 1) && c.part == ""
    requires (ch == '?' && c.p.state == QueryStart) || (ch == '#' && c.p.state == FragmentStart)
    ensures Reaches(c, [ch], d)
    ensures d == Inside(c, 1, c.p, c.url + [ch], "", [])
  {
    hide Reaches;
    d := UrlByte(c, ch, c.p.state);
    hide UrlNext;
  }

  predicate Delimits(ch: char, s0: State, s: State, text: string) {
    || (ch == '?' && s0 == QueryStart && s == Query && GoodQuery(text))
    || (ch == '#' && s0 == FragmentStart && s == Fragment && GoodFragment(text))
  }

  lemma Opens(ch: char, s0: State, s: State, text: string)
    requires Delimits(ch, s0, s, text) && text != "" && text[0] != ch
    ensures UrlNext(s0, text[0]) == s && forall j :: 0 <= j < |text[1..]| ==> UrlNext(s, text[1..][j]) == s
  {
    hide UrlChar, UrlNext;
    PartChars(text[0]);
    forall j | 0 <= j < |text[1..]|
      ensures UrlNext(s, text[1..][j]) == s
    {
      PartChars(text[j + 1]);
    }
  }

  lemma DelimitsRest(ch: char, s0: State, s: State, text: string)
    requires Delimits(ch, s0, s, text) && text != ""
    ensures Delimits(ch, s0, s, text[1..])
  {
    hide UrlChar;
  }

  /** A text behind a delimiter: more delimiters, then what opens state `s`. */
  lemma {:induction false} MarkedRun(c: Config, ch: char, text: string, s: State) returns (d: Config)
    requires Room(c, |text|) && c.part == "" && Delimits(ch, c.p.state, s, text)
    ensures Reaches(c, text, d)
    ensures d == Inside(c, |text|, c.p.(state := if Unmarked(ch, text) == "" then c.p.state else s),
                        c.url + text, Unmarked(ch, text), [])
    decreases |text|
  {
    hide Reaches, UrlNext, GoodQuery, GoodFragment;
    AppendNone(c);
    if text == "" {
      ReachNone(c);
      return c;
    }
    AppendHead(c.url, text);
    if text[0] == ch {
      var e := MarkByte(c, ch);
      DelimitsRest(ch, c.p.state, s, text);
      d := MarkedRun(e, ch, text[1..], s);
      Chain(c, [ch], e, text[1..], d);
    } else {
      Opens(ch, c.p.state, s, text);
      var e := OpeningByte(c, text[0], s);
      d := PartRun(e, text[1..]);
      Chain(c, [text[0]], e, text[1..], d);
      AppendHead("", text);
    }
    assert c.trace + [] + [] == c.trace + [];
  }

  /** A delimiter, then a text that opens state `s`. */
  lemma DelimitedRun(c: Config, ch: char, s0: State, text: string, s: State) returns (d: Config)
    requires Room(c, 1 + |text|) && Delimits(ch, s0, s, text)
    requires c.p.state == Path || (ch == '#' && (c.p.state == QueryStart || c.p.state == Query))
    ensures Reaches(c, [ch] + text, d)
    ensures d == Inside(c, 1 + |text|, c.p.(state := if Unmarked(ch, text) == "" then s0 else s),
                        c.url + ([ch] + text), Unmarked(ch, text), OpenEvent(c))
  {
    hide Reaches, OpenEvent, GoodQuery, GoodFragment, Unmarked;
    var e := DelimiterByte(c, ch, s0);
    d := MarkedRun(e, ch, text, s);
    Chain(c, [ch], e, text, d);
    hide Delimits, Reaches;
    assert (c.url + [ch]) + text == c.url + ([ch] + text);
    assert c.trace + OpenEvent(c) + [] == c.trace + OpenEvent(c);
  }

  /** The part of the URL that the parser is in, for a query. */
  function QueryState(s: State, q: Option<string>): State {
    if q.None? then s else if Unmarked('?', q.value) == "" then QueryStart else Query
  }

  lemma QueryRun(c: Config, q: Option<string>) returns (d: Config)
    requires Room(c, |QueryText(q)|) && (q.Some? ==> c.p.state == Path && GoodQuery(q.value))
    ensures Reaches(c, QueryText(q), d)
    ensures d == Inside(c, |QueryText(q)|, c.p.(state := QueryState(c.p.state, q)), c.url + QueryText(q),
                        if q.None? then c.part else Unmarked('?', q.value),
                        if q.None? then [] else [Data(PathPart, c.part)])
  {
    if q.None? {
      ReachNone(c);
      AppendNone(c);
      return c;
    }
    hide Reaches, GoodQuery, Unmarked;
    d := DelimitedRun(c, '?', QueryStart, q.value, Query);
    assert ['?'] == "?";
  }

  /** The callback for the part of the URL that is open. */
  function OpenEvent(c: Config): seq<Event> {
    if OpenPart(c.p) == Closed then [] else [Data(OpenPart(c.p).kind, c.part)]
  }

  function FragmentState(f: string): State { if Unmarked('#', f) == "" then FragmentStart else Fragment }

  lemma FragmentRun(c: Config, f: Option<string>) returns (d: Config)
    requires f.Some? ==> (c.p.state == Path || c.p.state == QueryStart || c.p.state == Query) && GoodFragment(f.value)
    requires Room(c, |FragmentText(f)|)
    ensures Reaches(c, FragmentText(f), d)
    ensures f.None? ==> d == Inside(c, 0, c.p, c.url, c.part, [])
    ensures f.Some? ==>
      d == Inside(c, |FragmentText(f)|, c.p.(state := FragmentState(f.value)),
                  c.url + FragmentText(f), Unmarked('#', f.value), OpenEvent(c))
  {
    if f.None? {
      ReachNone(c);
      AppendNone(c);
      return c;
    }
    hide Reaches, GoodFragment, OpenEvent, Unmarked;
    d := DelimitedRun(c, '#', FragmentStart, f.value, Fragment);
    assert ['#'] == "#";
  }

  lemma SpaceEnds(s: State)
    requires s in {Host, Port, Path, QueryStart, Query, FragmentStart, Fragment}
    ensures UrlNext(s, ' ') == HttpStart
  {
  }

  lemma UrlSpace(c: Config) returns (d: Config)
    requires c.p.state in {Host, Port, Path, QueryStart, Query, FragmentStart, Fragment} && Room(c, 1)
    ensures Reaches(c, " ", d)
    ensures d == Inside(c, 1, c.p.(state := HttpStart), "", "", [Data(Url, c.url)] + OpenEvent(c))
  {
    hide Reaches, UrlNext;
    SpaceEnds(c.p.state);
    d := UrlByte(c, ' ', HttpStart);
  }

  lemma NoFragment(s: string)
    ensures s + FragmentText(None) == s
  {
  }

  /** The part that is open after the query, and after the fragment. */
  lemma OpenAfter(t: Target, e: Config, f: Config, g: Config)
    requires e.p.state == FrontState(t) && e.part == t.path && (t.path == "" ==> t.origin.Some?)
    requires if t.query.None? then f.p.state == e.p.state && f.part == e.part
             else f.p.state == QueryState(e.p.state, t.query) && f.part == Unmarked('?', t.query.value)
    requires if t.fragment.None? then g.p.state == f.p.state && g.part == f.part
             else g.p.state == FragmentState(t.fragment.value) && g.part == Unmarked('#', t.fragment.value)
    ensures OpenEvent(f) == BeforeFragment(t) && OpenEvent(g) == AtEnd(t)
  {
  }

  /** The URL and the space after it: a path, or an absolute URL with or without one, or an authority. */
  lemma UrlRun(c: Config, t: Target) returns (d: Config)
    requires c.p.state == SpacesBeforeUrl && c.url == "" && c.part == "" && Room(c, |UrlText(t)| + 1) && GoodTarget(t)
    ensures Reaches(c, UrlText(t) + " ", d)
    ensures d == Inside(c, |UrlText(t)| + 1, c.p.(state := HttpStart), "", "", UrlEvents(t))
  {
    hide Reaches, GoodFragment, GoodQuery, GoodPath, GoodOrigin, Front, QueryText, FragmentText, OpenEvent, UrlEvents,
      BeforeFragment, AtEnd;
    var f, g := UrlTextRun(c, t);
    hide UrlText;
    d := UrlSpace(g);
    Chain(c, UrlText(t), g, " ", d);
    UrlTrace(t, c, f, g, d);
  }

  lemma UrlTextRun(c: Config, t: Target) returns (f: Config, g: Config)
    requires c.p.state == SpacesBeforeUrl && c.url == "" && c.part == "" && Room(c, |UrlText(t)| + 1) && GoodTarget(t)
    ensures Reaches(c, UrlText(t), g)
    ensures g.url == UrlText(t) && g.p == c.p.(nread := c.p.nread + |UrlText(t)|, state := g.p.state)
    ensures g.pos == c.pos + |UrlText(t)| && g.p.state in {Host, Port, Path, QueryStart, Query, FragmentStart, Fragment}
    ensures t.path != "" ==> g.p.state in {Path, QueryStart, Query, FragmentStart, Fragment}
    ensures OpenEvent(f) == BeforeFragment(t) && OpenEvent(g) == AtEnd(t)
    ensures f.trace == c.trace + [] + if t.query.None? then [] else [Data(PathPart, t.path)]
    ensures g.trace == f.trace + if t.fragment.None? then [] else OpenEvent(f)
  {
    hide Reaches, GoodFragment, GoodQuery, GoodPath, GoodOrigin, Front, QueryText, FragmentText, OpenEvent,
      BeforeFragment, AtEnd;
    var e := FrontRun(c, t);
    f := QueryRun(e, t.query);
    g := FragmentRun(f, t.fragment);
    Chain3(c, Front(t), e, QueryText(t.query), f, FragmentText(t.fragment), g);
    NoFragment(f.url);
    OpenAfter(t, e, f, g);
  }

  lemma UrlTrace(t: Target, c: Config, f: Config, g: Config, d: Config)
    requires f.trace == c.trace + [] + if t.query.None? then [] else [Data(PathPart, t.path)]
    requires OpenEvent(f) == BeforeFragment(t) && OpenEvent(g) == AtEnd(t) && g.url == UrlText(t)
    requires g.trace == f.trace + if t.fragment.None? then [] else OpenEvent(f)
    requires d.trace == g.trace + ([Data(Url, g.url)] + OpenEvent(g))
    ensures d.trace == c.trace + UrlEvents(t)
  {
    hide OpenEvent, BeforeFragment, AtEnd, UrlText;
  }

  function Given(text: Option<string>): string { if text.None? then "" else text.value }

  function BeginsWith(text: string, ch: char): bool { text != "" && text[0] == ch }

  /** What a user gets of a URL: always the whole of it and its path. The query and the fragment come back as they were
      if and only if the one does not begin with a question mark nor the other with a hash. */
  lemma PartsExactly(t: Target)
    requires GoodTarget(t)
    ensures var e := UrlEvents(t);
      && Texts(Url, e) == UrlText(t) && Texts(PathPart, e) == t.path
      && Texts(QueryPart, e) == Unmarked('?', Given(t.query))
      && Texts(FragmentPart, e) == Unmarked('#', Given(t.fragment))
      && (Texts(QueryPart, e) == Given(t.query) && Texts(FragmentPart, e) == Given(t.fragment)
          <==> !BeginsWith(Given(t.query), '?') && !BeginsWith(Given(t.fragment), '#'))
  {
    UrlTexts(t, Url);
    UrlTexts(t, PathPart);
    UrlTexts(t, QueryPart);
    UrlTexts(t, FragmentPart);
    hide Texts, UrlText, UrlEvents, GoodTarget;
  }

  /** The text of each kind in the callbacks of a URL. */
  lemma UrlTexts(t: Target, k: Kind)
    requires GoodTarget(t)
    ensures Texts(k, UrlEvents(t)) ==
      if k == Url then UrlText(t)
      else if k == PathPart then t.path
      else if k == QueryPart then Unmarked('?', Given(t.query))
      else if k == FragmentPart then Unmarked('#', Given(t.fragment)) else ""
  {
    var a: seq<Event> := if t.query.Some? then [Data(PathPart, t.path)] else [];
    var b: seq<Event> := if t.fragment.Some? then BeforeFragment(t) else [];
    var c: seq<Event> := [Data(Url, UrlText(t))];
    assert UrlEvents(t) == a + b + c + AtEnd(t);
    NoQuery(t);
    hide Texts, UrlText, BeforeFragment, AtEnd, UrlEvents, GoodTarget, Unmarked;
    FourTexts(k, a, b, c, AtEnd(t));
    TextsSome(k, t.query.Some?, PathPart, t.path);
    TextsSome(k, true, Url, UrlText(t));
    BeforeTexts(t, k);
    EndTexts(t, k);
    OnlyOne(Texts(k, a), Texts(k, b), Texts(k, c), Texts(k, AtEnd(t)));
  }

  lemma OnlyOne(a: string, b: string, c: string, d: string)
    ensures b == "" && c == "" && d == "" ==> a + b + c + d == a
    ensures a == "" && c == "" && d == "" ==> a + b + c + d == b
    ensures a == "" && b == "" && d == "" ==> a + b + c + d == c
    ensures a == "" && b == "" && c == "" ==> a + b + c + d == d
  {
  }

  lemma FourTexts(k: Kind, a: seq<Event>, b: seq<Event>, c: seq<Event>, d: seq<Event>)
    ensures Texts(k, a + b + c + d) == Texts(k, a) + Texts(k, b) + Texts(k, c) + Texts(k, d)
  {
    hide Texts;
    TextsAppend(k, a + b + c, d);
    TextsAppend(k, a + b, c);
    TextsAppend(k, a, b);
  }

  lemma NoQuery(t: Target)
    requires GoodTarget(t)
    ensures t.path == "" ==> t.query.None? && t.fragment.None?
  {
  }

  lemma TextsSome(k: Kind, given: bool, kind: Kind, s: string)
    ensures Texts(k, if given then [Data(kind, s)] else []) == if given && k == kind then s else ""
  {
    TextsOne(k, Data(kind, s));
    hide Texts;
  }

  lemma BeforeTexts(t: Target, k: Kind)
    ensures Texts(k, BeforeFragment(t)) ==
      if t.query.None? then if k == PathPart then t.path else ""
      else if k == QueryPart then Unmarked('?', t.query.value) else ""
    ensures Texts(k, if t.fragment.Some? then BeforeFragment(t) else []) ==
      if t.fragment.Some? then Texts(k, BeforeFragment(t)) else ""
  {
    hide Texts, Unmarked;
    TextsSome(k, false, Url, "");
    TextsSome(k, t.path != "", PathPart, t.path);
    if t.query.Some? {
      TextsSome(k, Unmarked('?', t.query.value) != "", QueryPart, Unmarked('?', t.query.value));
    }
  }

  lemma EndTexts(t: Target, k: Kind)
    ensures Texts(k, AtEnd(t)) ==
      if t.fragment.None? then Texts(k, BeforeFragment(t))
      else if k == FragmentPart then Unmarked('#', t.fragment.value) else ""
  {
    hide Texts, Unmarked, BeforeFragment;
    if t.fragment.Some? {
      TextsSome(k, Unmarked('#', t.fragment.value) != "", FragmentPart, Unmarked('#', t.fragment.value));
    }
  }

  // ---- numbers ----

  function Digit(d: nat): char
    requires d < 10
  {
    (d + '0' as int) as char
  }

  function Dec(n: nat): (s: string)
    ensures s != ""
  {
    if n < 10 then [Digit(n)] else Dec(n / 10) + [Digit(n % 10)]
  }

  predicate Digits(s: string) { forall j :: 0 <= j < |s| ==> IsDigit(s[j]) }

  function ReadDec(n: nat, s: string): nat
    requires Digits(s)
    decreases |s|
  {
    if s == "" then n else ReadDec(n * 10 + DigitValue(s[0]), s[1..])
  }

  lemma {:induction false} ReadSnoc(n: nat, s: string, ch: char)
    requires Digits(s) && IsDigit(ch)
    ensures Digits(s + [ch]) && ReadDec(n, s + [ch]) == ReadDec(n, s) * 10 + DigitValue(ch)
    decreases |s|
  {
    if s == "" {
      assert s + [ch] == [ch];
      assert ReadDec(n, [ch]) == ReadDec(n * 10 + DigitValue(ch), [ch][1..]);
    } else {
      assert (s + [ch])[0] == s[0] && (s + [ch])[1..] == s[1..] + [ch];
      ReadSnoc(n * 10 + DigitValue(s[0]), s[1..], ch);
    }
  }

  /** Reading what was printed. */
  lemma {:induction false} DecRead(n: nat)
    ensures Digits(Dec(n)) && ReadDec(0, Dec(n)) == n
    ensures Dec(n)[0] == '0' <==> n == 0
    decreases n
  {
    if n < 10 {
      assert Dec(n)[1..] == "";
      assert ReadDec(0, Dec(n)) == ReadDec(DigitValue(Digit(n)), Dec(n)[1..]);
    } else {
      DecRead(n / 10);
      ReadSnoc(0, Dec(n / 10), Digit(n % 10));
    }
  }

  lemma {:induction false} ReadGrows(n: nat, s: string)
    requires Digits(s)
    ensures ReadDec(n, s) >= n
    decreases |s|
  {
    if s != "" {
      ReadGrows(n * 10 + DigitValue(s[0]), s[1..]);
    }
  }

  // ---- the version ----

  /** Characters that lead from one fixed state to another. */
  predicate FixedPath(s: State, text: string, to: State)
    decreases |text|
  {
    if text == "" then s == to
    else FixedNext(s, text[0]) != Dead && FixedPath(FixedNext(s, text[0]), text[1..], to)
  }

  lemma {:induction false} FixedRun(c: Config, text: string, to: State) returns (d: Config)
    requires InVersion(c.p.state) && c.url == "" && c.part == "" && Room(c, |text|) && FixedPath(c.p.state, text, to)
    ensures Reaches(c, text, d)
    ensures d == Inside(c, |text|, c.p.(state := to), "", "", [])
    decreases |text|
  {
    hide Reaches, FixedNext;
    assert c.trace + [] == c.trace;
    if text == "" {
      ReachNone(c);
      return c;
    }
    var e := FixedByte(c, text[0]);
    FixedStays(c.p.state, text[0]);
    if text[1..] == "" {
      d := e;
      assert [text[0]] == text;
    } else {
      assert FixedNext(e.p.state, text[1..][0]) != Dead;
      FixedFrom(e.p.state, text[1..][0]);
      d := FixedRun(e, text[1..], to);
      Chain(c, [text[0]], e, text[1..], d);
      assert [text[0]] + text[1..] == text;
    }
  }

  lemma FixedFrom(s: State, ch: char)
    requires FixedNext(s, ch) != Dead
    ensures InVersion(s)
  {
  }

  lemma FixedStays(s: State, ch: char)
    ensures FixedNext(s, ch) == Dead || FixedNext(s, ch) == HeaderFieldStart || InVersion(FixedNext(s, ch))
  {
  }

  /** Inside the version no text is open. */
  lemma VersionClosed(p: Parser)
    requires InVersion(p.state) || p.state == HeaderFieldStart
    ensures OpenPart(p) == Closed && !UrlOpen(p.state)
  {
  }

  lemma FixedStep(p: Parser, ch: char)
    requires InVersion(p.state) && p.nread < MAX_HEADER && FixedNext(p.state, ch) != Dead
    ensures Step(p, ch) == Next(p.(nread := p.nread + 1, state := FixedNext(p.state, ch)), [])
  {
    hide Step, FixedNext, Dispatch;
    Below(p, ch);
    VersionDispatch(p.(nread := p.nread + 1), ch);
  }

  lemma VersionDispatch(p: Parser, ch: char)
    requires InVersion(p.state)
    ensures Dispatch(p, ch) == StepVersion(p, ch)
  {
    hide StepVersion;
  }

  lemma FixedByte(c: Config, ch: char) returns (d: Config)
    requires InVersion(c.p.state) && c.url == "" && Room(c, 1) && FixedNext(c.p.state, ch) != Dead
    ensures Reaches(c, [ch], d)
    ensures d == Inside(c, 1, c.p.(state := FixedNext(c.p.state, ch)), "", "", [])
  {
    hide Step, FixedNext, Advance, InVersion, Reaches, OpenPart, UrlOpen;
    FixedStays(c.p.state, ch);
    FixedStep(c.p, ch);
    var q := c.p.(nread := c.p.nread + 1, state := FixedNext(c.p.state, ch));
    VersionClosed(c.p);
    VersionClosed(q);
    ClosedAdvance(c, ch, q, []);
    ReachOne(c, ch, q, []);
    d := Advance(c, ch, q, []);
  }

  /** One digit of a version number. */
  function AfterDigit(p: Parser, n: nat): Parser {
    if p.state == FirstMajor then p.(state := Major, major := n)
    else if p.state == Major then p.(major := p.major * 10 + n)
    else if p.state == FirstMinor then p.(state := Minor, minor := n)
    else p.(minor := p.minor * 10 + n)
  }

  predicate DigitFits(p: Parser, n: nat) {
    var q := AfterDigit(p, n);
    (p.state.FirstMajor? && n > 0) || (p.state.Major? && q.major <= 999) || p.state.FirstMinor?
    || (p.state.Minor? && q.minor <= 999)
  }

  lemma NoFixedDigit(s: State, ch: char)
    requires IsDigit(ch)
    ensures FixedNext(s, ch) == Dead
  {
  }

  lemma DigitStep(p: Parser, ch: char)
    requires IsDigit(ch) && p.nread < MAX_HEADER && DigitFits(p, DigitValue(ch))
    ensures Step(p, ch) == Next(AfterDigit(p, DigitValue(ch)).(nread := p.nread + 1), [])
  {
    NoFixedDigit(p.state, ch);
    assert DigitValue(ch) > 0 <==> ch != '0';
    hide Step, FixedNext, DigitValue, Dispatch;
    Below(p, ch);
    VersionDispatch(p.(nread := p.nread + 1), ch);
  }

  lemma DigitByte(c: Config, ch: char) returns (d: Config)
    requires c.url == "" && Room(c, 1) && IsDigit(ch) && DigitFits(c.p, DigitValue(ch))
    ensures Reaches(c, [ch], d)
    ensures d == Inside(c, 1, AfterDigit(c.p, DigitValue(ch)), "", "", [])
  {
    hide Step, Advance, Reaches, DigitValue, OpenPart, UrlOpen;
    DigitStep(c.p, ch);
    var q := AfterDigit(c.p, DigitValue(ch)).(nread := c.p.nread + 1);
    VersionClosed(c.p);
    VersionClosed(q);
    ClosedAdvance(c, ch, q, []);
    ReachOne(c, ch, q, []);
    d := Advance(c, ch, q, []);
  }

  lemma {:induction false} MajorRun(c: Config, s: string) returns (d: Config)
    requires c.p.state == Major && c.url == "" && c.part == "" && Room(c, |s|) && Digits(s)
    requires ReadDec(c.p.major, s) <= 999
    ensures Reaches(c, s, d)
    ensures d == Inside(c, |s|, c.p.(major := ReadDec(c.p.major, s)), "", "", [])
    decreases |s|
  {
    hide Reaches, IsDigit, DigitValue;
    assert c.trace + [] == c.trace;
    if s == "" {
      ReachNone(c);
      return c;
    }
    ReadGrows(c.p.major * 10 + DigitValue(s[0]), s[1..]);
    var e := DigitByte(c, s[0]);
    d := MajorRun(e, s[1..]);
    Chain(c, [s[0]], e, s[1..], d);
    assert [s[0]] + s[1..] == s;
  }

  lemma {:induction false} MinorRun(c: Config, s: string) returns (d: Config)
    requires c.p.state == Minor && c.url == "" && c.part == "" && Room(c, |s|) && Digits(s)
    requires ReadDec(c.p.minor, s) <= 999
    ensures Reaches(c, s, d)
    ensures d == Inside(c, |s|, c.p.(minor := ReadDec(c.p.minor, s)), "", "", [])
    decreases |s|
  {
    hide Reaches, IsDigit, DigitValue;
    assert c.trace + [] == c.trace;
    if s == "" {
      ReachNone(c);
      return c;
    }
    ReadGrows(c.p.minor * 10 + DigitValue(s[0]), s[1..]);
    var e := DigitByte(c, s[0]);
    d := MinorRun(e, s[1..]);
    Chain(c, [s[0]], e, s[1..], d);
    assert [s[0]] + s[1..] == s;
  }

  function VersionText(major: string, minor: string, eol: string): string { "HTTP/" + major + "." + minor + eol }

  /** A number of at most three digits, but for zeros in front. */
  predicate GoodNumber(s: string) { s != "" && Digits(s) && ReadDec(0, s) <= 999 }

  /** Any printed number up to 999 is one. */
  lemma DecGood(n: nat)
    requires n <= 999
    ensures GoodNumber(Dec(n)) && ReadDec(0, Dec(n)) == n && (Dec(n)[0] == '0' <==> n == 0)
  {
    DecRead(n);
  }

  lemma HttpPath()
    ensures FixedPath(HttpStart, "HTTP/", FirstMajor)
  {
    assert FixedPath(FirstMajor, "", FirstMajor);
    assert FixedPath(HttpHTTP, "/", FirstMajor) by { assert "/"[1..] == ""; }
    assert FixedPath(HttpHTT, "P/", FirstMajor) by { assert "P/"[1..] == "/"; }
    assert FixedPath(HttpHT, "TP/", FirstMajor) by { assert "TP/"[1..] == "P/"; }
    assert FixedPath(HttpH, "TTP/", FirstMajor) by { assert "TTP/"[1..] == "TP/"; }
    assert "HTTP/"[1..] == "TTP/";
  }

  lemma EolPath(eol: string)
    requires IsEol(eol)
    ensures FixedPath(Minor, eol, HeaderFieldStart)
  {
    assert FixedPath(HeaderFieldStart, "", HeaderFieldStart);
    assert FixedPath(ReqLineAlmostDone, "\n", HeaderFieldStart) by { assert "\n"[1..] == ""; }
    assert "\n"[1..] == "" && "\r\n"[1..] == "\n";
  }

  lemma NumberFirst(s: string)
    requires GoodNumber(s)
    ensures IsDigit(s[0]) && Digits(s[1..]) && ReadDec(DigitValue(s[0]), s[1..]) == ReadDec(0, s)
  {
    hide DigitValue, IsDigit;
    assert ReadDec(0, s) == ReadDec(0 * 10 + DigitValue(s[0]), s[1..]);
  }

  lemma FirstPositive(ch: char)
    requires IsDigit(ch) && ch != '0'
    ensures DigitValue(ch) > 0
  {
  }

  lemma MajorText(c: Config, s: string) returns (d: Config)
    requires c.p.state == FirstMajor && c.url == "" && c.part == "" && Room(c, |s|) && GoodNumber(s) && s[0] != '0'
    ensures Reaches(c, s, d)
    ensures d == Inside(c, |s|, c.p.(state := Major, major := ReadDec(0, s)), "", "", [])
  {
    hide Reaches, DigitValue, ReadDec, IsDigit;
    NumberFirst(s);
    FirstPositive(s[0]);
    var e := DigitByte(c, s[0]);
    d := MajorRun(e, s[1..]);
    Chain(c, [s[0]], e, s[1..], d);
    assert [s[0]] + s[1..] == s;
    assert c.trace + [] + [] == c.trace + [];
  }

  lemma MinorText(c: Config, s: string) returns (d: Config)
    requires c.p.state == FirstMinor && c.url == "" && c.part == "" && Room(c, |s|) && GoodNumber(s)
    ensures Reaches(c, s, d)
    ensures d == Inside(c, |s|, c.p.(state := Minor, minor := ReadDec(0, s)), "", "", [])
  {
    hide Reaches, DigitValue, ReadDec, IsDigit;
    NumberFirst(s);
    var e := DigitByte(c, s[0]);
    d := MinorRun(e, s[1..]);
    Chain(c, [s[0]], e, s[1..], d);
    assert [s[0]] + s[1..] == s;
    assert c.trace + [] + [] == c.trace + [];
  }

  lemma VersionRun(c: Config, major: string, minor: string, eol: string) returns (d: Config)
    requires c.p.state == HttpStart && c.url == "" && c.part == "" && Room(c, |VersionText(major, minor, eol)|)
    requires GoodNumber(major) && major[0] != '0' && GoodNumber(minor) && IsEol(eol)
    ensures Reaches(c, VersionText(major, minor, eol), d)
    ensures d == Inside(c, |VersionText(major, minor, eol)|,
                        c.p.(state := HeaderFieldStart, major := ReadDec(0, major), minor := ReadDec(0, minor)), "", "",
                        [])
  {
    hide Reaches, FixedPath, ReadDec, Digits;
    HttpPath();
    EolPath(eol);
    var e := FixedRun(c, "HTTP/", FirstMajor);
    var f := MajorText(e, major);
    DotPath();
    var g := FixedRun(f, ".", FirstMinor);
    var h := MinorText(g, minor);
    d := FixedRun(h, eol, HeaderFieldStart);
    Chain3(c, "HTTP/", e, major, f, ".", g);
    Chain3(c, "HTTP/" + major + ".", g, minor, h, eol, d);
    assert c.trace + [] + [] + [] + [] + [] == c.trace + [];
  }

  lemma DotPath()
    ensures FixedPath(Major, ".", FirstMinor)
  {
    assert "."[1..] == "";
  }

  // ---- the line ----

  /** No version at all means HTTP/0.9; a version may come behind further spaces. */
  datatype Version = Simple | Numbered(space: nat, major: string, minor: string)

  /** A request line may come behind empty lines, with further spaces before its URL. */
  datatype RequestLine =
    RequestLine(lead: string, word: string, verb: Method, gap: nat, target: Target, version: Version, eol: string)

  predicate IsLead(lead: string) { forall j :: 0 <= j < |lead| ==> lead[j] == '\r' || lead[j] == '\n' }

  /** Only a URL with a path goes without a version. */
  predicate GoodRequestLine(r: RequestLine) {
    && IsLead(r.lead) && Spells(r.word, r.verb) && GoodTarget(r.target) && GoodVersion(r.version) && IsEol(r.eol)
    && (r.version.Simple? ==> r.target.path != "")
  }

  predicate GoodVersion(v: Version) {
    v.Numbered? ==> GoodNumber(v.major) && v.major[0] != '0' && GoodNumber(v.minor)
  }

  function MajorOf(v: Version): nat {
    if v.Numbered? && Digits(v.major) then ReadDec(0, v.major) else 0
  }

  function MinorOf(v: Version): nat {
    if v.Numbered? && Digits(v.minor) then ReadDec(0, v.minor) else 9
  }

  /** The line up to its URL, and from behind it. */
  function VerbText(r: RequestLine): string { r.lead + (r.word + " ") + Spaces(r.gap) }

  function EndText(v: Version, eol: string): string {
    match v
    case Simple => eol
    case Numbered(space, major, minor) => " " + (Spaces(space) + VersionText(major, minor, eol))
  }

  function RequestLineText(r: RequestLine): string { VerbText(r) + (UrlText(r.target) + EndText(r.version, r.eol)) }

  /** Any mixture of line ends in front of a request is skipped. */
  lemma {:induction false} LeadRun(c: Config, lead: string) returns (d: Config)
    requires c.p.state == StartReq && c.url == "" && c.part == "" && Room(c, |lead|) && IsLead(lead)
    ensures Reaches(c, lead, d)
    ensures d == Inside(c, |lead|, c.p, "", "", [])
    decreases |lead|
  {
    hide Reaches;
    assert c.trace + [] == c.trace;
    if lead == "" {
      ReachNone(c);
      return c;
    }
    var e := LeadByte(c, lead[0]);
    d := LeadRun(e, lead[1..]);
    Chain(c, [lead[0]], e, lead[1..], d);
    assert [lead[0]] + lead[1..] == lead;
  }

  lemma LeadByte(c: Config, ch: char) returns (d: Config)
    requires c.p.state == StartReq && c.url == "" && c.part == "" && Room(c, 1) && (ch == '\r' || ch == '\n')
    ensures Reaches(c, [ch], d)
    ensures d == Inside(c, 1, c.p, "", "", [])
  {
    var q := c.p.(nread := c.p.nread + 1);
    assert Step(c.p, ch) == Next(q, []);
    ReachOne(c, ch, q, []);
    d := Advance(c, ch, q, []);
    hide Step;
  }

  /** And so is any number of spaces where one is needed. */
  lemma {:induction false} SpacesRun(c: Config, n: nat) returns (d: Config)
    requires (c.p.state == SpacesBeforeUrl || c.p.state == HttpStart) && c.url == "" && c.part == "" && Room(c, n)
    ensures |Spaces(n)| == n && Reaches(c, Spaces(n), d)
    ensures d == Inside(c, n, c.p, "", "", [])
    decreases n
  {
    hide Reaches;
    assert c.trace + [] == c.trace;
    if n == 0 {
      ReachNone(c);
      return c;
    }
    var e := SpaceByte(c);
    d := SpacesRun(e, n - 1);
    Chain(c, " ", e, Spaces(n - 1), d);
  }

  lemma SpaceByte(c: Config) returns (d: Config)
    requires (c.p.state == SpacesBeforeUrl || c.p.state == HttpStart) && c.url == "" && c.part == "" && Room(c, 1)
    ensures Reaches(c, " ", d)
    ensures d == Inside(c, 1, c.p, "", "", [])
  {
    var q := c.p.(nread := c.p.nread + 1);
    assert Step(c.p, ' ') == Next(q, []);
    ReachOne(c, ' ', q, []);
    d := Advance(c, ' ', q, []);
    hide Step;
  }

  lemma VerbTextRun(c: Config, r: RequestLine) returns (d: Config)
    requires c.p.state == StartReq && c.url == "" && c.part == "" && Room(c, |VerbText(r)|) && IsLead(r.lead)
    requires Spells(r.word, r.verb)
    ensures Reaches(c, VerbText(r), d)
    ensures d == Inside(c, |VerbText(r)|,
                        c.p.(state := SpacesBeforeUrl, index := d.p.index, verb := r.verb, flags := NO_FLAGS,
                             contentLength := NO_LENGTH), "", "", [MessageBegin])
  {
    hide Reaches, Spells;
    SpacesLength(r.gap);
    var e := LeadRun(c, r.lead);
    var f := MethodRun(e, r.word, r.verb);
    d := SpacesRun(f, r.gap);
    Chain3(c, r.lead, e, r.word + " ", f, Spaces(r.gap), d);
    assert c.trace + [] + [MessageBegin] + [] == c.trace + [MessageBegin];
  }

  /** A line end inside the URL ends the line, too. */
  lemma UrlEnd(c: Config, ch: char) returns (d: Config)
    requires c.p.state in {Path, QueryStart, Query, FragmentStart, Fragment} && Room(c, 1) && (ch == '\r' || ch == '\n')
    ensures Reaches(c, [ch], d)
    ensures d == Inside(c, 1, c.p.(state := if ch == '\r' then ReqLineAlmostDone else HeaderFieldStart, major := 0,
                                   minor := 9), "", "", [Data(Url, c.url)] + OpenEvent(c))
  {
    hide Step, Reaches;
    UrlEndStep(c.p, ch);
    var q := Step(c.p, ch).p;
    ReachOne(c, ch, q, []);
    d := Advance(c, ch, q, []);
  }

  lemma UrlEndStep(p: Parser, ch: char)
    requires p.state in {Path, QueryStart, Query, FragmentStart, Fragment} && p.nread < MAX_HEADER
    requires ch == '\r' || ch == '\n'
    ensures Step(p, ch) == Next(p.(nread := p.nread + 1, major := 0, minor := 9,
                                   state := if ch == '\r' then ReqLineAlmostDone else HeaderFieldStart), [])
  {
    Below(p, ch);
    hide Step;
  }

  lemma SimpleEnd(c: Config, eol: string) returns (d: Config)
    requires c.p.state in {Path, QueryStart, Query, FragmentStart, Fragment} && Room(c, |eol|) && IsEol(eol)
    ensures Reaches(c, eol, d)
    ensures d == Inside(c, |eol|, c.p.(state := HeaderFieldStart, major := 0, minor := 9), "", "",
                        [Data(Url, c.url)] + OpenEvent(c))
  {
    hide Reaches, OpenEvent;
    assert ['\r'] == "\r" && ['\n'] == "\n" && "\r" + "\n" == "\r\n";
    if eol == "\n" {
      d := UrlEnd(c, '\n');
    } else {
      var e := UrlEnd(c, '\r');
      assert FixedNext(ReqLineAlmostDone, '\n') == HeaderFieldStart;
      d := FixedByte(e, '\n');
      Chain(c, "\r", e, "\n", d);
      assert c.trace + ([Data(Url, c.url)] + OpenEvent(c)) + [] == c.trace + ([Data(Url, c.url)] + OpenEvent(c));
    }
  }

  /** The URL and the rest of the line. */
  lemma UrlEndRun(c: Config, r: RequestLine) returns (d: Config)
    requires c.p.state == SpacesBeforeUrl && c.url == "" && c.part == ""
    requires Room(c, |UrlText(r.target) + EndText(r.version, r.eol)|)
    requires GoodRequestLine(r)
    ensures Reaches(c, UrlText(r.target) + EndText(r.version, r.eol), d)
    ensures d == Inside(c, |UrlText(r.target) + EndText(r.version, r.eol)|,
                        c.p.(state := HeaderFieldStart, major := MajorOf(r.version), minor := MinorOf(r.version)),
                        "", "", UrlEvents(r.target))
  {
    hide Reaches, UrlText, UrlEvents, GoodTarget, VersionText, ReadDec, Digits, Spells, OpenEvent, BeforeFragment,
      AtEnd;
    match r.version {
      case Simple =>
        var f, g := UrlTextRun(c, r.target);
        d := SimpleEnd(g, r.eol);
        Chain(c, UrlText(r.target), g, r.eol, d);
        UrlTrace(r.target, c, f, g, d);
      case Numbered(space, major, minor) =>
        SpacesLength(space);
        var e := UrlRun(c, r.target);
        var f := SpacesRun(e, space);
        d := VersionRun(f, major, minor, r.eol);
        Chain3(c, UrlText(r.target) + " ", e, Spaces(space), f, VersionText(major, minor, r.eol), d);
        assert (UrlText(r.target) + " ") + Spaces(space) + VersionText(major, minor, r.eol)
            == UrlText(r.target) + EndText(r.version, r.eol);
        assert c.trace + UrlEvents(r.target) + [] + [] == c.trace + UrlEvents(r.target);
    }
  }

  /** A printed request line gives back its method and version and the parts of its URL. */
  lemma RequestLineRun(c: Config, r: RequestLine) returns (d: Config)
    requires c.p.state == StartReq && c.url == "" && c.part == "" && Room(c, |RequestLineText(r)|) && GoodRequestLine(r)
    ensures Reaches(c, RequestLineText(r), d)
    ensures d == Inside(c, |RequestLineText(r)|,
                        c.p.(state := HeaderFieldStart, index := d.p.index, verb := r.verb,
                             major := MajorOf(r.version), minor := MinorOf(r.version),
                             flags := NO_FLAGS, contentLength := NO_LENGTH), "", "",
                        [MessageBegin] + UrlEvents(r.target))
  {
    hide Reaches, UrlText, UrlEvents, GoodTarget, VerbText, EndText, IsLead, Spells, Digits, ReadDec;
    var e := VerbTextRun(c, r);
    d := UrlEndRun(e, r);
    Chain(c, VerbText(r), e, UrlText(r.target) + EndText(r.version, r.eol), d);
    assert c.trace + [MessageBegin] + UrlEvents(r.target) == c.trace + ([MessageBegin] + UrlEvents(r.target));
  }
}
