/** Header lines as whole strings: what a run over one line, and over many, leaves behind.  */
module HttpLine {
  import opened HttpModel
  import opened HttpGrammar
  import opened HttpRun
  import opened HttpHeaders

  // ---- composing runs ----

  ghost predicate Reaches(c: Config, s: string, d: Config) {
    RunFrom(c, s) == Live(d)
  }

  lemma Chain(c: Config, s: string, d: Config, t: string, e: Config)
    requires Reaches(c, s, d) && Reaches(d, t, e)
    ensures Reaches(c, s + t, e)
  {
    RunAppend(c, s, t);
    hide RunFrom;
  }

  lemma Chain3(c: Config, s: string, d: Config, t: string, e: Config, u: string, f: Config)
    requires Reaches(c, s, d) && Reaches(d, t, e) && Reaches(e, u, f)
    ensures Reaches(c, s + t + u, f)
  {
    Chain(c, s, d, t, e);
    Chain(c, s + t, e, u, f);
    hide Reaches;
  }

  lemma ReachOne(c: Config, ch: char, q: Parser, events: seq<Event>)
    requires Step(c.p, ch) == Next(q, events)
    ensures Reaches(c, [ch], Advance(c, ch, q, events))
  {
    RunStep(c, [ch]);
    assert [ch][1..] == "";
    hide Step, Advance;
  }

  /** Below the header limit a byte is counted and goes to the switch. */
  lemma Below(p: Parser, ch: char)
    requires ParsingHeader(p.state) && p.nread < MAX_HEADER
    ensures Step(p, ch) == Dispatch(p.(nread := p.nread + 1), ch)
  {
    hide Dispatch;
  }

  /** A byte between states in which no text is open. */
  lemma ClosedAdvance(c: Config, ch: char, q: Parser, events: seq<Event>)
    requires OpenPart(c.p) == Closed && OpenPart(q) == Closed && !UrlOpen(c.p.state) && !UrlOpen(q.state)
    ensures Advance(c, ch, q, events) == Config(q, "", "", c.trace + events, c.pos + 1)
  {
    hide OpenPart, UrlOpen;
    assert Clear(c, ch, q) == [];
    assert c.trace + [] + events == c.trace + events;
  }

  /** The first byte of a text that is not a body. */
  lemma OpeningAdvance(c: Config, ch: char, q: Parser)
    requires OpenPart(c.p) == Closed && OpenPart(q).Open? && OpenPart(q) != Open(Body)
    requires !UrlOpen(c.p.state) && !UrlOpen(q.state)
    ensures Advance(c, ch, q, []) == Config(q, "", [ch], c.trace + [], c.pos + 1)
  {
    hide OpenPart, UrlOpen;
    assert Clear(c, ch, q) == [];
    assert c.trace + [] + [] == c.trace + [];
  }

  lemma ReachNone(c: Config)
    ensures Reaches(c, "", c)
  {
    hide Step;
  }

  /** The bytes fit below the header limit. */
  predicate Room(c: Config, n: nat) { c.p.nread + n <= MAX_HEADER }

  /** `c` some bytes later, in a state of the header, with new texts and callbacks. */
  function Later(c: Config, n: nat, q: Parser, part: string, events: seq<Event>): Config {
    Config(q.(nread := c.p.nread + n), "", part, c.trace + events, c.pos + n)
  }

  // ---- the pieces of a line ----

  lemma {:induction false} NameRun(c: Config, s: string) returns (d: Config)
    requires c.p.state == HeaderField && NameState(c.p.header) && c.url == "" && Room(c, |s|)
    requires Readable(true, s)
    ensures Reaches(c, s, d)
    ensures d == Later(c, |s|, c.p.(header := NameScan(c.p.header, c.p.index, s), index := d.p.index), c.part + s, [])
    decreases |s|
  {
    hide NameStep, Reaches, Token, NameState;
    if s == "" {
      ReachNone(c);
      assert c.part + s == c.part && c.trace + [] == c.trace;
      return c;
    }
    NameKept(c.p.header, c.p.index, s[0]);
    assert Norm(true, s[0]) != NUL && Readable(true, s[1..]);
    var e := NameByte(c, s[0]);
    d := NameRun(e, s[1..]);
    Chain(c, [s[0]], e, s[1..], d);
    assert [s[0]] + s[1..] == s && (c.part + [s[0]]) + s[1..] == c.part + s;
    assert c.trace + [] == c.trace;
  }

  lemma NameKept(h: HeaderState, index: nat, ch: char)
    requires NameState(h)
    ensures NameState(NameStep(h, index, ch).0)
  {
  }

  lemma NameByte(c: Config, ch: char) returns (e: Config)
    requires c.p.state == HeaderField && NameState(c.p.header) && c.url == "" && Room(c, 1) && Token(ch) != NUL
    ensures Reaches(c, [ch], e)
    ensures e == Later(c, 1, c.p.(header := NameStep(c.p.header, c.p.index, ch).0,
                                  index := NameStep(c.p.header, c.p.index, ch).1), c.part + [ch], [])
  {
    var q := c.p.(nread := c.p.nread + 1, header := NameStep(c.p.header, c.p.index, ch).0,
                  index := NameStep(c.p.header, c.p.index, ch).1);
    hide NameStep, Token;
    ReachOne(c, ch, q, []);
    e := Advance(c, ch, q, []);
  }

  /** Header states that are legal inside a value. */
  predicate ValueState(h: HeaderState) {
    !h.HConnection? && !h.HTransferEncoding? && !h.HContentLength?
  }

  lemma {:induction false} ValueRun(c: Config, s: string) returns (d: Config)
    requires c.p.state == HeaderValue && ValueState(c.p.header) && c.url == "" && Room(c, |s|)
    requires forall j :: 0 <= j < |s| ==> s[j] != CR && s[j] != LF
    ensures Reaches(c, s, d)
    ensures d == Later(c, |s|, c.p.(header := ValueScan(c.p.header, c.p.index, s), index := d.p.index), c.part + s, [])
    decreases |s|
  {
    hide ValueStep, Reaches, ValueState;
    if s == "" {
      ReachNone(c);
      assert c.part + s == c.part && c.trace + [] == c.trace;
      return c;
    }
    var e := ValueByte(c, s[0]);
    d := ValueRun(e, s[1..]);
    Chain(c, [s[0]], e, s[1..], d);
    assert [s[0]] + s[1..] == s && (c.part + [s[0]]) + s[1..] == c.part + s;
    assert c.trace + [] == c.trace;
  }

  lemma ValueByte(c: Config, ch: char) returns (e: Config)
    requires c.p.state == HeaderValue && ValueState(c.p.header) && c.url == "" && Room(c, 1) && ch != CR && ch != LF
    ensures Reaches(c, [ch], e)
    ensures e == Later(c, 1, c.p.(header := ValueStep(c.p.header, c.p.index, ch).0,
                                  index := ValueStep(c.p.header, c.p.index, ch).1), c.part + [ch], [])
    ensures ValueState(e.p.header)
  {
    var q := c.p.(nread := c.p.nread + 1, header := ValueStep(c.p.header, c.p.index, ch).0,
                  index := ValueStep(c.p.header, c.p.index, ch).1);
    assert ValueState(q.header);
    hide ValueStep;
    ReachOne(c, ch, q, []);
    e := Advance(c, ch, q, []);
  }

  lemma LengthByte(c: Config, ch: char) returns (e: Config)
    requires c.p.state == HeaderValue && c.p.header == HContentLength && c.url == "" && Room(c, 1)
    requires IsDigit(ch) || ch == ' '
    ensures Reaches(c, [ch], e)
    ensures var n := if IsDigit(ch) then (c.p.contentLength * 10 + DigitValue(ch)) % SIZE_LIMIT else c.p.contentLength;
            e == Later(c, 1, c.p.(contentLength := n), c.part + [ch], [])
  {
    var n := if IsDigit(ch) then (c.p.contentLength * 10 + DigitValue(ch)) % SIZE_LIMIT else c.p.contentLength;
    var q := c.p.(nread := c.p.nread + 1, contentLength := n);
    assert Step(c.p, ch) == Next(q, []);
    hide Step, Reaches;
    ReachOne(c, ch, q, []);
    e := Advance(c, ch, q, []);
  }

  lemma {:induction false} LengthRun(c: Config, s: string) returns (d: Config)
    requires c.p.state == HeaderValue && c.p.header == HContentLength && c.url == "" && Room(c, |s|)
    requires forall j :: 0 <= j < |s| ==> IsDigit(s[j]) || s[j] == ' '
    ensures Reaches(c, s, d)
    ensures d == Later(c, |s|, c.p.(contentLength := LengthOf(c.p.contentLength, s)), c.part + s, [])
    decreases |s|
  {
    hide Reaches, DigitValue;
    if s == "" {
      ReachNone(c);
      assert c.part + s == c.part && c.trace + [] == c.trace;
      return c;
    }
    var e := LengthByte(c, s[0]);
    d := LengthRun(e, s[1..]);
    Chain(c, [s[0]], e, s[1..], d);
    assert [s[0]] + s[1..] == s && (c.part + [s[0]]) + s[1..] == c.part + s;
    assert c.trace + [] == c.trace;
  }

  lemma FirstNameByte(c: Config, ch: char) returns (e: Config)
    requires c.p.state == HeaderFieldStart && c.url == "" && Room(c, 1) && Token(ch) != NUL
    ensures Reaches(c, [ch], e)
    ensures e == Later(c, 1, c.p.(state := HeaderField, index := 0, header := FirstHeaderState(Token(ch))), [ch], [])
  {
    var q := c.p.(nread := c.p.nread + 1, index := 0, state := HeaderField, header := FirstHeaderState(Token(ch)));
    assert ch != CR && ch != LF;
    assert Step(c.p, ch) == Next(q, []);
    ReachOne(c, ch, q, []);
    e := Advance(c, ch, q, []);
    hide Step, Token, FirstHeaderState;
  }

  lemma ColonByte(c: Config) returns (d: Config)
    requires c.p.state == HeaderField && c.url == "" && Room(c, 1)
    ensures Reaches(c, ":", d)
    ensures d == Later(c, 1, c.p.(state := HeaderValueStart), "", [Data(Field, c.part)])
  {
    var q := c.p.(nread := c.p.nread + 1, state := HeaderValueStart);
    assert Step(c.p, ':') == Next(q, []);
    ReachOne(c, ':', q, []);
    d := Advance(c, ':', q, []);
    hide Step;
  }

  lemma FirstIsNameState(c: char)
    ensures NameState(FirstHeaderState(c))
  {
  }

  /** A name and its colon. */
  lemma NamePart(c: Config, name: string) returns (d: Config)
    requires c.p.state == HeaderFieldStart && c.url == "" && Room(c, |name| + 1) && IsName(name)
    ensures Reaches(c, name + ":", d)
    ensures d == Later(c, |name| + 1, c.p.(state := HeaderValueStart, header := NameVerdict(name), index := d.p.index),
                       "", [Data(Field, name)])
  {
    hide Reaches, NameScan, FirstHeaderState, Token, NameChar;
    var ch, rest := name[0], name[1..];
    TailReadable(name);
    var e := FirstNameByte(c, ch);
    FirstIsNameState(Token(ch));
    var f := NameRun(e, rest);
    d := ColonByte(f);
    Chain3(c, [ch], e, rest, f, ":", d);
    assert [ch] + rest == name;
    assert c.trace + [] + [] + [Data(Field, name)] == c.trace + [Data(Field, name)];
  }

  function Spaces(n: nat): string { if n == 0 then "" else " " + Spaces(n - 1) }

  lemma {:induction false} GapRun(c: Config, n: nat) returns (d: Config)
    requires c.p.state == HeaderValueStart && c.url == "" && c.part == "" && Room(c, n)
    ensures |Spaces(n)| == n && Reaches(c, Spaces(n), d)
    ensures d == Later(c, n, c.p, "", [])
    decreases n
  {
    assert c.trace + [] == c.trace;
    if n == 0 {
      ReachNone(c);
      return c;
    }
    var q := c.p.(nread := c.p.nread + 1);
    assert Step(c.p, ' ') == Next(q, []);
    ReachOne(c, ' ', q, []);
    var e := Advance(c, ' ', q, []);
    hide Step, Reaches;
    d := GapRun(e, n - 1);
    Chain(c, " ", e, Spaces(n - 1), d);
    assert [' '] == " ";
  }

  predicate IsEol(eol: string) { eol == "\r\n" || eol == "\n" }

  lemma LineFeed(c: Config) returns (d: Config)
    requires c.p.state == HeaderAlmostDone && c.url == "" && Room(c, 1)
    ensures Reaches(c, "\n", d)
    ensures d == Later(c, 1, c.p.(state := HeaderFieldStart, flags := AddFlag(c.p.flags, c.p.header)), "", [])
  {
    hide AddFlag;
    var q := c.p.(nread := c.p.nread + 1, state := HeaderFieldStart, flags := AddFlag(c.p.flags, c.p.header));
    assert Step(c.p, LF) == Next(q, []);
    ReachOne(c, LF, q, []);
    d := Advance(c, LF, q, []);
    hide Step;
  }

  lemma EmptyCR(c: Config) returns (d: Config)
    requires c.p.state == HeaderValueStart && c.url == "" && Room(c, 1)
    ensures Reaches(c, "\r", d)
    ensures d == Later(c, 1, c.p.(index := 0, header := HGeneral, state := HeaderAlmostDone), "", [Data(Value, "")])
  {
    hide AddFlag;
    var q := c.p.(nread := c.p.nread + 1, index := 0, header := HGeneral, state := HeaderAlmostDone);
    assert Step(c.p, CR) == Next(q, [Data(Value, "")]);
    ReachOne(c, CR, q, [Data(Value, "")]);
    d := Advance(c, CR, q, [Data(Value, "")]);
    hide Step;
  }

  lemma EmptyLF(c: Config) returns (d: Config)
    requires c.p.state == HeaderValueStart && c.url == "" && Room(c, 1)
    ensures Reaches(c, "\n", d)
    ensures d == Later(c, 1, c.p.(index := 0, state := HeaderFieldStart), "", [Data(Value, "")])
  {
    hide AddFlag;
    var q := c.p.(nread := c.p.nread + 1, index := 0, state := HeaderFieldStart);
    assert Step(c.p, LF) == Next(q, [Data(Value, "")]);
    ReachOne(c, LF, q, [Data(Value, "")]);
    d := Advance(c, LF, q, [Data(Value, "")]);
    hide Step;
  }

  lemma ValueCR(c: Config) returns (d: Config)
    requires c.p.state == HeaderValue && c.url == "" && Room(c, 1)
    ensures Reaches(c, "\r", d)
    ensures d == Later(c, 1, c.p.(state := HeaderAlmostDone), "", [Data(Value, c.part)])
  {
    hide AddFlag;
    var q := c.p.(nread := c.p.nread + 1, state := HeaderAlmostDone);
    assert Step(c.p, CR) == Next(q, []);
    ReachOne(c, CR, q, []);
    d := Advance(c, CR, q, []);
    hide Step;
  }

  lemma ValueLF(c: Config) returns (d: Config)
    requires c.p.state == HeaderValue && c.url == "" && Room(c, 1)
    ensures Reaches(c, "\n", d)
    ensures d == Later(c, 1, c.p.(state := HeaderFieldStart, flags := AddFlag(c.p.flags, c.p.header)), "",
        [Data(Value, c.part)])
  {
    hide AddFlag, Step;
    var q := c.p.(nread := c.p.nread + 1, state := HeaderFieldStart, flags := AddFlag(c.p.flags, c.p.header));
    ValueEnds(c.p);
    ReachOne(c, LF, q, []);
    d := Advance(c, LF, q, []);
  }

  lemma ValueEnds(p: Parser)
    requires p.state == HeaderValue && p.nread < MAX_HEADER
    ensures Step(p, LF) == Next(p.(nread := p.nread + 1, state := HeaderFieldStart, flags := AddFlag(p.flags,
        p.header)), [])
  {
    hide Step, AddFlag;
    Below(p, LF);
  }

  lemma EmptyValue(c: Config, eol: string) returns (d: Config)
    requires c.p.state == HeaderValueStart && c.url == "" && IsEol(eol) && Room(c, |eol|)
    ensures Reaches(c, eol, d)
    ensures d == Later(c, |eol|, c.p.(state := HeaderFieldStart, header := d.p.header, index := d.p.index), "",
                       [Data(Value, "")])
  {
    hide Reaches;
    if eol == "\r\n" {
      var e := EmptyCR(c);
      d := LineFeed(e);
      Chain(c, "\r", e, "\n", d);
      assert "\r" + "\n" == "\r\n";
      assert c.trace + [Data(Value, "")] + [] == c.trace + [Data(Value, "")];
    } else {
      d := EmptyLF(c);
    }
  }

  /** The end of a nonempty value. */
  lemma ValueEnd(c: Config, eol: string) returns (d: Config)
    requires c.p.state == HeaderValue && c.url == "" && IsEol(eol) && Room(c, |eol|)
    ensures Reaches(c, eol, d)
    ensures d == Later(c, |eol|, c.p.(state := HeaderFieldStart, flags := AddFlag(c.p.flags, c.p.header)), "",
                       [Data(Value, c.part)])
  {
    hide Reaches, AddFlag;
    if eol == "\r\n" {
      var e := ValueCR(c);
      d := LineFeed(e);
      Chain(c, "\r", e, "\n", d);
      assert "\r" + "\n" == "\r\n";
      assert c.trace + [Data(Value, c.part)] + [] == c.trace + [Data(Value, c.part)];
    } else {
      d := ValueLF(c);
    }
  }

  /** The first character of a value. */
  lemma FirstValueByte(c: Config, ch: char) returns (d: Config)
    requires c.p.state == HeaderValueStart && c.url == "" && Room(c, 1)
    requires ch != ' ' && ch != CR && ch != LF && NameState(c.p.header)
    requires c.p.header == HContentLength ==> IsDigit(ch)
    ensures Reaches(c, [ch], d)
    ensures d == Later(c, 1, c.p.(state := HeaderValue, index := 0,
        header := if c.p.header == HContentLength then HContentLength else FirstValueState(c.p.header, ch),
        flags := if c.p.header == HUpgrade then c.p.flags.(upgrade := true) else c.p.flags,
        contentLength := if c.p.header == HContentLength then DigitValue(ch) else c.p.contentLength), [ch], [])
  {
    var q := c.p.(nread := c.p.nread + 1, state := HeaderValue, index := 0,
        header := if c.p.header == HContentLength then HContentLength else FirstValueState(c.p.header, ch),
        flags := if c.p.header == HUpgrade then c.p.flags.(upgrade := true) else c.p.flags,
        contentLength := if c.p.header == HContentLength then DigitValue(ch) else c.p.contentLength);
    hide Step, FirstValueState, DigitValue, IsDigit;
    FirstValueStep(c.p, ch);
    OpeningAdvance(c, ch, q);
    hide Advance;
    ReachOne(c, ch, q, []);
    d := Advance(c, ch, q, []);
  }

  lemma FirstValueStep(p: Parser, ch: char)
    requires p.state == HeaderValueStart && p.nread < MAX_HEADER
    requires ch != ' ' && ch != CR && ch != LF && NameState(p.header) && (p.header == HContentLength ==> IsDigit(ch))
    ensures Step(p, ch) == Next(p.(nread := p.nread + 1, state := HeaderValue, index := 0,
        header := if p.header == HContentLength then HContentLength else FirstValueState(p.header, ch),
        flags := if p.header == HUpgrade then p.flags.(upgrade := true) else p.flags,
        contentLength := if p.header == HContentLength then DigitValue(ch) else p.contentLength), [])
  {
    hide Step, Lower, DigitValue, IsDigit;
    Below(p, ch);
  }

  /** What a nonempty value does, given what its name was taken for. */
  function ValueEffect(h: HeaderState, e: Effect, value: string): Effect
    requires value != ""
  {
    Effect(
      e.flags.(
        chunked := e.flags.chunked || (h == HTransferEncoding && Says(value, CHUNKED)),
        keepAlive := e.flags.keepAlive || (h == HConnection && Says(value, KEEP_ALIVE)),
        close := e.flags.close || (h == HConnection && Says(value, CLOSE)),
        upgrade := e.flags.upgrade || h == HUpgrade),
      if h == HContentLength then LengthOf(0, value) else e.contentLength)
  }

  lemma FirstIsValueState(h: HeaderState, ch: char)
    ensures ValueState(FirstValueState(h, ch))
  {
  }

  lemma FlagsAdded(h: HeaderState, f: Flags, value: string)
    requires value != "" && IsText(value) && NameState(h) && h != HContentLength
    ensures AddFlag(if h == HUpgrade then f.(upgrade := true) else f,
                    ValueScan(FirstValueState(h, value[0]), 0, value[1..]))
            == ValueEffect(h, Effect(f, 0), value).flags
  {
    ValueMatched(h, value);
    hide ValueScan, Says, FirstValueState;
  }

  lemma FullValue(c: Config, value: string, eol: string) returns (d: Config)
    requires c.p.state == HeaderValueStart && c.url == "" && IsEol(eol) && Room(c, |value| + |eol|)
    requires value != "" && IsText(value) && NameState(c.p.header)
    requires c.p.header == HContentLength ==> IsLength(value)
    ensures Reaches(c, value + eol, d)
    ensures var e := ValueEffect(c.p.header, Effect(c.p.flags, c.p.contentLength), value);
      d == Later(c, |value| + |eol|, c.p.(state := HeaderFieldStart, header := d.p.header, index := d.p.index,
                                          flags := e.flags, contentLength := e.contentLength), "", [Data(Value, value)])
  {
    hide Reaches, FirstValueState, AddFlag, ValueScan, LengthOf, ValueEffect, Decimal, NameState;
    FirstIsDigit(value);
    var ch, rest := value[0], value[1..];
    var e := FirstValueByte(c, ch);
    var f := RestOfValue(c, value, e);
    d := ValueEnd(f, eol);
    assert [ch] + rest == value;
    Chain3(c, [ch], e, rest, f, eol, d);
    assert c.trace + [] + [] + [Data(Value, value)] == c.trace + [Data(Value, value)];
  }

  lemma FirstIsDigit(value: string)
    ensures IsLength(value) ==> IsDigit(value[0])
  {
    if value != "" {
      LetterTable(value[0]);
    }
    hide Decimal, IsDigit;
  }

  lemma RestOfValue(c: Config, value: string, e: Config) returns (f: Config)
    requires value != "" && IsText(value) && NameState(c.p.header) && c.url == "" && Room(c, |value|)
    requires c.p.header == HContentLength ==> IsLength(value)
    requires e == Later(c, 1, c.p.(state := HeaderValue, index := 0,
        header := if c.p.header == HContentLength then HContentLength else FirstValueState(c.p.header, value[0]),
        flags := if c.p.header == HUpgrade then c.p.flags.(upgrade := true) else c.p.flags,
        contentLength := if c.p.header == HContentLength then DigitValue(value[0])
            else c.p.contentLength), [value[0]], [])
    ensures Reaches(e, value[1..], f)
    ensures f == Later(e, |value| - 1, e.p.(header := f.p.header, index := f.p.index,
        contentLength := f.p.contentLength),
                       [value[0]] + value[1..], [])
    ensures ValueEffect(c.p.header, Effect(c.p.flags, c.p.contentLength), value)
            == Effect(AddFlag(f.p.flags, f.p.header), f.p.contentLength)
  {
    hide Reaches, FirstValueState, ValueScan, LengthOf, AddFlag;
    if c.p.header == HContentLength {
      f := LengthRun(e, value[1..]);
      LengthFirst(value);
      NoFlag(c.p.flags);
    } else {
      FirstIsValueState(c.p.header, value[0]);
      f := ValueRun(e, value[1..]);
      FlagsAdded(c.p.header, c.p.flags, value);
    }
    hide Says;
  }

  lemma NoFlag(f: Flags)
    ensures AddFlag(f, HContentLength) == f
  {
  }

  lemma LengthFirst(value: string)
    requires IsLength(value)
    ensures IsDigit(value[0]) && LengthOf(DigitValue(value[0]), value[1..]) == LengthOf(0, value)
  {
    hide Decimal;
    LetterTable(value[0]);
  }

  function LineText(h: Header, gap: nat, eol: string): string {
    (h.name + ":") + (Spaces(gap) + (h.value + eol))
  }

  /** A header line makes two callbacks and has the effect that whole-string comparison gives it. */
  lemma LineRun(c: Config, h: Header, gap: nat, eol: string) returns (d: Config)
    requires c.p.state == HeaderFieldStart && c.url == "" && Good(h) && IsEol(eol) && Room(c, |LineText(h, gap, eol)|)
    ensures Reaches(c, LineText(h, gap, eol), d)
    ensures var e := Apply(Effect(c.p.flags, c.p.contentLength), h);
      d == Later(c, |LineText(h, gap, eol)|,
                 c.p.(header := d.p.header, index := d.p.index, flags := e.flags, contentLength := e.contentLength),
                 "", [Data(Field, h.name), Data(Value, h.value)])
  {
    hide Reaches, ValueEffect, Apply, NameVerdict, Is, NameState;
    SpacesLength(gap);
    var name := NamePart(c, h.name);
    NameMatched(h.name);
    var start := GapRun(name, gap);
    if h.value == "" {
      d := EmptyValue(start, eol);
      assert h.value + eol == eol;
      NoValue(Effect(c.p.flags, c.p.contentLength), h);
    } else {
      d := FullValue(start, h.value, eol);
      EffectSame(Effect(c.p.flags, c.p.contentLength), h);
    }
    Chain(name, Spaces(gap), start, h.value + eol, d);
    Chain(c, h.name + ":", name, Spaces(gap) + (h.value + eol), d);
    assert c.trace + [Data(Field, h.name)] + [] + [Data(Value, h.value)]
        == c.trace + [Data(Field, h.name), Data(Value, h.value)];
  }

  lemma SpacesLength(n: nat)
    ensures |Spaces(n)| == n
  {
  }

  lemma NoValue(e: Effect, h: Header)
    requires h.value == ""
    ensures Apply(e, h) == e
  {
  }

  lemma EffectSame(e: Effect, h: Header)
    requires h.value != "" && IsName(h.name)
    ensures Apply(e, h) == ValueEffect(NameVerdict(h.name), e, h.value)
  {
    NameMatched(h.name);
    hide NameVerdict, Is;
  }
}
