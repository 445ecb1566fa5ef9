/** What the user hears of a run: a text may come in pieces, which follow each other at once. */
module HttpHeard {
  import opened HttpModel
  import opened HttpRun

  // ---- traces with the pieces of a text joined ----

  /** A piece of text continues the text before it, if that is of its kind; an empty text is a text. */
  function Join(a: seq<Event>, e: Event): seq<Event> {
    var n := |a| - 1;
    if e.Data? && n >= 0 && a[n].Data? && a[n].kind == e.kind then a[..n] + [Data(e.kind, a[n].text + e.text)]
    else a + [e]
  }

  predicate Shown(url: bool, e: Event) { !e.Data? || (e.kind == Url) == url }

  /** After `a`, the URL texts of a trace (`url`), or all other texts (`!url`), pieces joined, with the callbacks that
      mark the stages of a message between them. The two kinds overlap, so that their order is that of the cuts. */
  function Heard(url: bool, a: seq<Event>, trace: seq<Event>): seq<Event>
    decreases |trace|
  {
    if trace == [] then a
    else Heard(url, if Shown(url, trace[0]) then Join(a, trace[0]) else a, trace[1..])
  }

  lemma {:induction false} HeardAppend(url: bool, a: seq<Event>, s: seq<Event>, t: seq<Event>)
    ensures Heard(url, a, s + t) == Heard(url, Heard(url, a, s), t)
    decreases |s|
  {
    hide Join;
    if s == [] {
      assert s + t == t;
    } else {
      assert (s + t)[0] == s[0] && (s + t)[1..] == s[1..] + t;
      HeardAppend(url, if Shown(url, s[0]) then Join(a, s[0]) else a, s[1..], t);
    }
  }

  lemma HeardOne(url: bool, a: seq<Event>, e: Event)
    ensures Heard(url, a, []) == a
    ensures Heard(url, a, [e]) == if Shown(url, e) then Join(a, e) else a
  {
    hide Join;
    assert [e][1..] == [];
  }

  /** Two pieces of one text are the text. */
  lemma JoinTwice(a: seq<Event>, k: Kind, s: string, t: string)
    ensures Join(Join(a, Data(k, s)), Data(k, t)) == Join(a, Data(k, s + t))
  {
    var n := |a| - 1;
    if n >= 0 && a[n].Data? && a[n].kind == k {
      assert (a[n].text + s) + t == a[n].text + (s + t);
    }
  }

  /** All text of one kind in a trace. */
  function Texts(k: Kind, trace: seq<Event>): string
    decreases |trace|
  {
    if trace == [] then "" else TextOf(k, trace[0]) + Texts(k, trace[1..])
  }

  function TextOf(k: Kind, e: Event): string { if e.Data? && e.kind == k then e.text else "" }

  lemma {:induction false} TextsAppend(k: Kind, a: seq<Event>, b: seq<Event>)
    ensures Texts(k, a + b) == Texts(k, a) + Texts(k, b)
    decreases |a|
  {
    hide TextOf;
    if a == [] {
      assert a + b == b;
    } else {
      assert (a + b)[0] == a[0] && (a + b)[1..] == a[1..] + b;
      TextsAppend(k, a[1..], b);
    }
  }

  lemma TextsOne(k: Kind, e: Event)
    ensures Texts(k, []) == "" && Texts(k, [e]) == TextOf(k, e)
  {
    hide TextOf;
    assert [e][1..] == [];
  }

  // ---- texts that are open ----

  /** A byte with callbacks of its own leaves no text open that began before it, and no text follows a
      body at once. */
  predicate Quiet(p: Parser, q: Parser, events: seq<Event>) {
    && (OpenPart(p) == Open(Body) ==> OpenPart(q) == Closed || OpenPart(q) == Open(Body))
    && (events == [] || (!UrlOpen(q.state)
                         && (OpenPart(q) == Closed || (OpenPart(q) == Open(Body) && OpenPart(p) == Closed))))
  }

  lemma SilentSteps(p: Parser, ch: char)
    requires ParsingHeader(p.state) && p.state != StartReq && p.state != HeaderFieldStart
    requires p.state != HeadersAlmostDone && p.state != HeaderValueStart
    ensures Dispatch(p, ch).Next? ==> Dispatch(p, ch).events == []
  {
    hide UrlNext, FixedNext, NameStep, ValueStep, OtherMethod;
  }

  lemma StepQuiet(p: Parser, ch: char)
    ensures Step(p, ch).Next? ==> Quiet(p, Step(p, ch).p, Step(p, ch).events)
  {
    if ParsingHeader(p.state) && p.state != StartReq && p.state != HeaderFieldStart
       && p.state != HeadersAlmostDone && p.state != HeaderValueStart {
      SilentSteps(p.(nread := p.nread + 1), ch);
      hide Dispatch;
    } else if !ParsingHeader(p.state) {
      BodyQuiet(p, ch);
      hide Dispatch;
    } else {
      hide StepMethod, StepField, StepValue, StepLineEnd, StepChunkSize, StepBody, StepUrl, StepVersion;
    }
  }

  lemma BodyQuiet(p: Parser, ch: char)
    requires !ParsingHeader(p.state)
    ensures Dispatch(p, ch).Next? ==> Quiet(p, Dispatch(p, ch).p, Dispatch(p, ch).events)
  {
    hide StepMethod, StepField, StepValue, StepLineEnd, StepChunkSize, StepUrl, StepVersion;
  }

  /** The text that is open, of the URL or of the rest. */
  function OpenKind(url: bool, p: Parser): Span {
    if !url then OpenPart(p) else if UrlOpen(p.state) then Open(Url) else Closed
  }

  function OpenText(url: bool, c: Config): string { if url then c.url else c.part }

  /** What the end of a call adds. */
  lemma HeardFlush(url: bool, a: seq<Event>, c: Config)
    ensures var k, u := OpenKind(url, c.p), OpenText(url, c);
      Heard(url, a, Flush(c)) == if k == Closed || (k == Open(Body) && u == "") then a else Join(a, Data(k.kind, u))
  {
    var part: seq<Event> := match OpenPart(c.p)
      case Closed => []
      case Open(k) => if k == Body && c.part == "" then [] else [Data(k, c.part)];
    var link: seq<Event> := if UrlOpen(c.p.state) then [Data(Url, c.url)] else [];
    assert Flush(c) == part + link;
    hide Heard, Join, Flush;
    HeardAppend(url, a, part, link);
    HeardOne(url, a, if part == [] then MessageBegin else part[0]);
    HeardOne(url, Heard(url, a, part), Data(Url, c.url));
    assert part != [] ==> part == [part[0]];
  }

  /** The text that a byte closes, complete. */
  function Closing(url: bool, a: seq<Event>, c: Config, ch: char, q: Parser): seq<Event> {
    var from, to := OpenKind(url, c.p), OpenKind(url, q);
    if from == Closed || from == to then a
    else Join(a, Data(from.kind, if from == Open(Body) then OpenText(url, c) + [ch] else OpenText(url, c)))
  }

  lemma HeardClear(url: bool, a: seq<Event>, c: Config, ch: char, q: Parser)
    ensures Heard(url, a, Clear(c, ch, q)) == Closing(url, a, c, ch, q)
  {
    var from, to := OpenPart(c.p), OpenPart(q);
    var link: seq<Event> := if UrlOpen(c.p.state) && !UrlOpen(q.state) then [Data(Url, c.url)] else [];
    var part: seq<Event> := if from == Closed || from == to then []
       else if from == Open(Body) then [Data(Body, c.part + [ch])]
       else [Data(from.kind, c.part)];
    assert Clear(c, ch, q) == link + part;
    assert from != Closed ==> from.kind != Url;
    hide Heard, Join, Clear;
    HeardAppend(url, a, link, part);
    HeardOne(url, a, Data(Url, c.url));
    HeardOne(url, Heard(url, a, link), if part == [] then MessageBegin else part[0]);
    assert part != [] ==> part == [part[0]];
  }

  lemma HeardAdvance(url: bool, a: seq<Event>, c: Config, ch: char, q: Parser, events: seq<Event>)
    ensures var d := Advance(c, ch, q, events);
      && Heard(url, a, d.trace) == Heard(url, Closing(url, Heard(url, a, c.trace), c, ch, q), events)
      && OpenText(url, d) == NextText(url, c, ch, q)
  {
    HeardAppend(url, a, c.trace + Clear(c, ch, q), events);
    HeardAppend(url, a, c.trace, Clear(c, ch, q));
    HeardClear(url, Heard(url, a, c.trace), c, ch, q);
    hide Heard, Clear, Closing;
  }

  function NextText(url: bool, c: Config, ch: char, q: Parser): string {
    var from, to := OpenKind(url, c.p), OpenKind(url, q);
    if to == Closed || (to == Open(Body) && from != to) then ""
    else if from == to then OpenText(url, c) + [ch] else [ch]
  }

  // ---- two runs side by side ----

  /** Of the open text of one run, the other has delivered the beginning: `y` is `x` and this beginning. */
  predicate Behind(x: seq<Event>, y: seq<Event>, k: Span, u: string, v: string) {
    || (y == x && (k.Open? ==> u == v))
    || (k.Open? && |v| <= |u| && u[|u| - |v|..] == v && y == Join(x, Data(k.kind, u[..|u| - |v|]))
        && (k == Open(Body) ==> |v| < |u|))
  }

  lemma BehindGrows(x: seq<Event>, y: seq<Event>, k: Span, u: string, v: string, ch: char)
    requires Behind(x, y, k, u, v)
    ensures Behind(x, y, k, u + [ch], v + [ch])
  {
    hide Join;
    if |v| <= |u| && u[|u| - |v|..] == v {
      var n := |u| - |v|;
      assert (u + [ch])[..n] == u[..n] && (u + [ch])[n..] == v + [ch];
    }
  }

  lemma BehindCloses(x: seq<Event>, y: seq<Event>, k: Span, u: string, v: string)
    requires Behind(x, y, k, u, v) && k.Open?
    ensures Join(x, Data(k.kind, u)) == Join(y, Data(k.kind, v))
  {
    hide Join;
    if y != x || u != v {
      var n := |u| - |v|;
      JoinTwice(x, k.kind, u[..n], v);
      assert u[..n] + v == u;
    }
  }

  /** A run `d` that goes on after `b` lags behind the run `c` that goes on after `a` by its open text at most. */
  predicate Lag(url: bool, a: seq<Event>, c: Config, b: seq<Event>, d: Config) {
    && OpenKind(url, c.p) == OpenKind(url, d.p)
    && Behind(Heard(url, a, c.trace), Heard(url, b, d.trace), OpenKind(url, c.p), OpenText(url, c), OpenText(url, d))
  }

  /** A byte keeps this. */
  lemma LagStep(url: bool, a: seq<Event>, c: Config, b: seq<Event>, d: Config, ch: char, q: Parser, r: Parser,
                events: seq<Event>)
    requires Lag(url, a, c, b, d) && OpenKind(url, q) == OpenKind(url, r) && Quiet(c.p, q, events)
    ensures Lag(url, a, Advance(c, ch, q, events), b, Advance(d, ch, r, events))
  {
    HeardAdvance(url, a, c, ch, q, events);
    HeardAdvance(url, b, d, ch, r, events);
    AdvanceTo(c, ch, q, events);
    AdvanceTo(d, ch, r, events);
    var x, y := Heard(url, a, c.trace), Heard(url, b, d.trace);
    var from, to, u, v := OpenKind(url, c.p), OpenKind(url, q), OpenText(url, c), OpenText(url, d);
    assert from != Closed && from == to ==> events == [];
    hide OpenKind, OpenText, Advance, Behind, Join, Quiet;
    HeardOne(url, x, MessageBegin);
    HeardOne(url, y, MessageBegin);
    hide Heard;
    if from == Closed {
      NotBehind(x, y, u, v);
      BothSame(Heard(url, x, events), to, NextText(url, c, ch, q));
    } else if from == to {
      BehindGrows(x, y, from, u, v, ch);
    } else {
      if from == Open(Body) {
        BehindGrows(x, y, from, u, v, ch);
        BehindCloses(x, y, from, u + [ch], v + [ch]);
      } else {
        BehindCloses(x, y, from, u, v);
      }
      BothSame(Heard(url, Closing(url, x, c, ch, q), events), to, NextText(url, c, ch, q));
    }
  }

  lemma AdvanceTo(c: Config, ch: char, q: Parser, events: seq<Event>)
    ensures Advance(c, ch, q, events).p == q && Advance(c, ch, q, events).pos == c.pos + 1
  {
  }

  lemma NotBehind(x: seq<Event>, y: seq<Event>, u: string, v: string)
    requires Behind(x, y, Closed, u, v)
    ensures x == y
  {
  }

  lemma BothSame(x: seq<Event>, k: Span, u: string)
    ensures Behind(x, x, k, u, u)
  {
  }
}
