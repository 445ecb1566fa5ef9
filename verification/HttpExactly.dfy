/** The other direction: what the parser accepts is what can be printed, line by line. */
module HttpExactly {
  import opened Wrappers
  import opened HttpModel
  import opened HttpGrammar
  import opened HttpRun
  import opened HttpHeard
  import opened HttpHeaders
  import opened HttpLine
  import opened HttpMessage

  // ---- lines that are read to their end ----

  /** The parser after a text, if it accepts it. */
  function Walk(p: Parser, t: string): Option<Parser>
    decreases |t|
  {
    if t == "" then Some(p)
    else match Step(p, t[0])
      case Next(q, _) => Walk(q, t[1..])
      case _ => None
  }

  lemma {:induction false} WalkIsRun(c: Config, t: string)
    ensures match RunFrom(c, t)
      case Live(d) => Walk(c.p, t) == Some(d.p)
      case _ => Walk(c.p, t) == None
    decreases |t|
  {
    if t != "" {
      RunStep(c, t);
      hide Step, Advance;
      if Step(c.p, t[0]).Next? {
        WalkIsRun(Advance(c, t[0], Step(c.p, t[0]).p, Step(c.p, t[0]).events), t[1..]);
        AdvanceTo(c, t[0], Step(c.p, t[0]).p, Step(c.p, t[0]).events);
      }
    }
  }

  /** The text is one line, and leads to where a header line begins. */
  predicate Ends(p: Parser, t: string) {
    && (forall i :: 0 <= i < |t| - 1 ==> t[i] != '\n')
    && Walk(p, t).Some? && Walk(p, t).value.state == HeaderFieldStart
  }

  /** The first byte is accepted, and is all of the line if it ends it. */
  lemma EndsStep(p: Parser, t: string)
    requires Ends(p, t) && (p.state != HeaderFieldStart || t != "")
    ensures t != "" && Step(p, t[0]).Next? && Ends(Step(p, t[0]).p, t[1..]) && t == [t[0]] + t[1..]
    ensures t[0] == '\n' ==> t == "\n"
  {
    hide Step;
    assert t == [t[0]] + t[1..];
    assert |t| > 1 ==> t[0] != '\n';
  }

  // ---- header lines ----

  /** What a byte of a header line may be, and where it leads. */
  lemma NameStepCases(p: Parser, ch: char)
    requires p.state == HeaderField && NameState(p.header) && Step(p, ch).Next?
    ensures var q := Step(p, ch).p;
      || (NameChar(ch) && ch != '\r' && q.state == HeaderField
          && (q.header, q.index) == NameStep(p.header, p.index, ch))
      || (ch == ':' && q.state == HeaderValueStart && q.header == p.header)
      || (ch == '\r' && q.state == HeaderAlmostDone)
      || ch == '\n'
  {
    TokenTable(ch);
    assert !NameChar('\r');
    hide NameStep, Token, NameChar;
  }

  lemma FieldStartCases(p: Parser, ch: char)
    requires p.state == HeaderFieldStart && Step(p, ch).Next?
    ensures var q := Step(p, ch).p;
      || (NameChar(ch) && q.state == HeaderField && q.header == FirstHeaderState(Token(ch)) && q.index == 0)
      || ch == '\r' || ch == '\n'
  {
    TokenTable(ch);
    hide Token, NameChar, FirstHeaderState, StepHeadersEnd;
  }

  lemma ValueStartCases(p: Parser, ch: char)
    requires p.state == HeaderValueStart && Step(p, ch).Next?
    ensures var q := Step(p, ch).p;
      || (ch == ' ' && q.state == HeaderValueStart && q.header == p.header)
      || (ch == '\r' && q.state == HeaderAlmostDone)
      || ch == '\n'
      || (ch != ' ' && ch != '\r' && q.state == HeaderValue
          && (p.header == HContentLength ==> Decimal(ch) && q.header == p.header))
  {
    LetterTable(ch);
    hide Decimal, Lower;
  }

  lemma ValueCases(p: Parser, ch: char)
    requires p.state == HeaderValue && Step(p, ch).Next?
    ensures var q := Step(p, ch).p;
      || (ch == '\r' && q.state == HeaderAlmostDone)
      || ch == '\n'
      || (ch != '\r' && q.state == HeaderValue
          && (p.header == HContentLength ==> (Decimal(ch) || ch == ' ') && q.header == p.header))
  {
    LetterTable(ch);
    hide Decimal, ValueStep, AddFlag;
  }

  lemma EndOfLine(p: Parser, t: string)
    requires p.state == HeaderAlmostDone && Ends(p, t)
    ensures t == "\n"
  {
    EndsStep(p, t);
    assert Step(p, t[0]).Next? ==> t[0] == '\n';
  }

  lemma {:induction false} RestOfValueIs(p: Parser, t: string) returns (v: string, eol: string)
    requires p.state == HeaderValue && Ends(p, t)
    ensures t == v + eol && IsEol(eol) && forall j :: 0 <= j < |v| ==> v[j] != '\r' && v[j] != '\n'
    ensures p.header == HContentLength ==> forall j :: 0 <= j < |v| ==> Decimal(v[j]) || v[j] == ' '
    decreases |t|
  {
    hide Step, Ends, Decimal;
    EndsStep(p, t);
    ValueCases(p, t[0]);
    if t[0] == '\n' {
      v, eol := "", t;
    } else if t[0] == '\r' {
      EndOfLine(Step(p, t[0]).p, t[1..]);
      v, eol := "", t;
    } else {
      v, eol := RestOfValueIs(Step(p, t[0]).p, t[1..]);
      assert [t[0]] + (v + eol) == ([t[0]] + v) + eol;
      v := [t[0]] + v;
    }
  }

  predicate Sized(h: HeaderState, value: string) { h == HContentLength && value != "" ==> IsLength(value) }

  lemma {:induction false} ValueIs(p: Parser, t: string) returns (gap: nat, v: string, eol: string)
    requires p.state == HeaderValueStart && Ends(p, t)
    ensures t == Spaces(gap) + (v + eol) && IsEol(eol) && IsText(v) && Sized(p.header, v)
    decreases |t|
  {
    hide Step, Ends, Decimal;
    EndsStep(p, t);
    ValueStartCases(p, t[0]);
    var q := Step(p, t[0]).p;
    gap, v, eol := 0, "", t;
    if t[0] == '\r' {
      EndOfLine(q, t[1..]);
    } else if t[0] == ' ' {
      gap, v, eol := ValueIs(q, t[1..]);
      gap := gap + 1;
      assert [' '] + (Spaces(gap - 1) + (v + eol)) == Spaces(gap) + (v + eol);
    } else if t[0] != '\n' {
      v, eol := RestOfValueIs(q, t[1..]);
      assert [t[0]] + (v + eol) == ([t[0]] + v) + eol;
      v := [t[0]] + v;
    }
    assert gap == 0 ==> t == Spaces(gap) + (v + eol);
  }

  /** The rest of a line from the middle of its name: the rest of the name, and a value if there is one. */
  function Rest(name: string, value: Option<(nat, string)>, eol: string): string {
    match value
    case None => name + eol
    case Some((gap, v)) => (name + ":") + (Spaces(gap) + (v + eol))
  }

  predicate RestGood(h: HeaderState, value: Option<(nat, string)>, eol: string) {
    IsEol(eol) && (value.Some? ==> IsText(value.value.1) && Sized(h, value.value.1))
  }

  lemma {:induction false} NameIs(p: Parser, t: string)
      returns (name: string, value: Option<(nat, string)>, eol: string)
    requires p.state == HeaderField && NameState(p.header) && Ends(p, t)
    ensures t == Rest(name, value, eol) && forall j :: 0 <= j < |name| ==> NameChar(name[j])
    ensures RestGood(NameScan(p.header, p.index, name), value, eol)
    decreases |t|
  {
    hide Step, Ends, NameChar, NameState, NameStep, Sized;
    EndsStep(p, t);
    NameStepCases(p, t[0]);
    var q := Step(p, t[0]).p;
    name, value, eol := "", None, t;
    if t[0] == '\r' {
      EndOfLine(q, t[1..]);
    } else if t[0] == ':' && q.state == HeaderValueStart {
      var gap, v, e := ValueIs(q, t[1..]);
      value, eol := Some((gap, v)), e;
      assert [':'] == "" + ":";
    } else if t[0] != '\n' {
      NameKept(p.header, p.index, t[0]);
      name, value, eol := NameIs(q, t[1..]);
      RestLonger(t[0], name, value, eol);
      assert ([t[0]] + name)[1..] == name;
      name := [t[0]] + name;
    }
  }

  lemma RestLonger(ch: char, name: string, value: Option<(nat, string)>, eol: string)
    ensures [ch] + Rest(name, value, eol) == Rest([ch] + name, value, eol)
  {
    match value
    case None => assert [ch] + (name + eol) == ([ch] + name) + eol;
    case Some((gap, v)) =>
      assert [ch] + ((name + ":") + (Spaces(gap) + (v + eol))) == (([ch] + name) + ":") + (Spaces(gap) + (v + eol));
  }

  /** A name without a colon passes for a header line. */
  function BareLine(name: string, eol: string): string { name + eol }

  ghost predicate IsBare(t: string) { exists name, eol :: IsName(name) && IsEol(eol) && t == BareLine(name, eol) }

  ghost predicate IsLine(t: string) {
    exists h: Header, gap: nat, eol :: Good(h) && IsEol(eol) && t == LineText(h, gap, eol)
  }

  lemma LineIs(p: Parser, t: string)
    requires p.state == HeaderFieldStart && Ends(p, t) && t != "" && t != "\n" && t != "\r\n"
    ensures IsBare(t) || IsLine(t)
  {
    hide Step, Ends, NameChar, NameStep, FirstHeaderState, Token, Good;
    EndsStep(p, t);
    FieldStartCases(p, t[0]);
    var q := Step(p, t[0]).p;
    if t[0] == '\r' {
      OnlyBlank(p, t);
    } else if t[0] != '\n' {
      FirstIsNameState(Token(t[0]));
      var rest, value, eol := NameIs(q, t[1..]);
      RestLonger(t[0], rest, value, eol);
      var name := [t[0]] + rest;
      assert name[0] == t[0] && name[1..] == rest;
      Whole(name, value, eol, t);
    }
  }

  lemma OnlyBlank(p: Parser, t: string)
    requires p.state == HeaderFieldStart && Ends(p, t) && t != "" && t[0] == '\r'
    ensures t == "\r\n"
  {
    hide Step, Ends;
    EndsStep(p, t);
    var q := Step(p, t[0]).p;
    assert q.state == HeadersAlmostDone by {
      BlankStart(p);
    }
    EndsStep(q, t[1..]);
    AlmostDoneCases(q, t[1]);
  }

  lemma BlankStart(p: Parser)
    requires p.state == HeaderFieldStart && Step(p, '\r').Next?
    ensures Step(p, '\r').p.state == HeadersAlmostDone
  {
  }

  lemma AlmostDoneCases(p: Parser, ch: char)
    requires p.state == HeadersAlmostDone && Step(p, ch).Next?
    ensures ch == '\n'
  {
  }

  lemma Whole(name: string, value: Option<(nat, string)>, eol: string, t: string)
    requires IsName(name) && RestGood(NameVerdict(name), value, eol) && t == Rest(name, value, eol)
    ensures IsBare(t) || IsLine(t)
  {
    NameMatched(name);
    hide NameVerdict, IsName, Says, IsText, IsLength;
    match value
    case None => assert t == BareLine(name, eol);
    case Some((gap, v)) =>
      assert Good(Header(name, v));
      assert t == LineText(Header(name, v), gap, eol);
  }

  /** A bare name is heard, and does nothing. */
  lemma BareRun(c: Config, name: string, eol: string) returns (d: Config)
    requires c.p.state == HeaderFieldStart && c.url == "" && IsName(name) && IsEol(eol)
    requires Room(c, |BareLine(name, eol)|)
    ensures Reaches(c, BareLine(name, eol), d)
    ensures d == Later(c, |BareLine(name, eol)|, c.p.(header := d.p.header, index := d.p.index), "",
                       [Data(Field, name)])
  {
    hide Reaches, NameScan, FirstHeaderState, Token, NameChar;
    TailReadable(name);
    FirstIsNameState(Token(name[0]));
    var e := FirstNameByte(c, name[0]);
    var f := NameRun(e, name[1..]);
    NamesOnly(Token(name[0]), name[1..]);
    Chain(c, [name[0]], e, name[1..], f);
    assert [name[0]] + name[1..] == name;
    d := BareEnd(f, eol);
    Chain(c, name, f, eol, d);
    assert c.trace + [] + [] + [Data(Field, name)] == c.trace + [Data(Field, name)];
  }

  lemma NamesOnly(c: char, s: string)
    ensures NameState(FirstHeaderState(c)) && NameState(NameScan(FirstHeaderState(c), 0, s))
  {
    FirstIsNameState(c);
    ScanNames(FirstHeaderState(c), 0, s);
  }

  lemma {:induction false} ScanNames(h: HeaderState, index: nat, s: string)
    requires NameState(h)
    ensures NameState(NameScan(h, index, s))
    decreases |s|
  {
    hide NameStep, NameState;
    if s != "" {
      NameKept(h, index, s[0]);
      ScanNames(NameStep(h, index, s[0]).0, NameStep(h, index, s[0]).1, s[1..]);
    }
  }

  lemma BareEnd(c: Config, eol: string) returns (d: Config)
    requires c.p.state == HeaderField && NameState(c.p.header) && c.url == "" && IsEol(eol) && Room(c, |eol|)
    ensures Reaches(c, eol, d)
    ensures d == Later(c, |eol|, c.p.(state := HeaderFieldStart), "", [Data(Field, c.part)])
  {
    hide Reaches, AddFlag, NameState;
    assert ['\n'] == "\n" && ['\r'] == "\r" && "\r" + "\n" == "\r\n";
    if eol == "\n" {
      d := BareByte(c, '\n', HeaderFieldStart);
    } else {
      var e := BareByte(c, '\r', HeaderAlmostDone);
      d := LineFeed(e);
      NameFlagsNothing(c.p.flags, c.p.header);
      Chain(c, "\r", e, "\n", d);
      assert c.trace + [Data(Field, c.part)] + [] == c.trace + [Data(Field, c.part)];
    }
  }

  lemma NameFlagsNothing(f: Flags, h: HeaderState)
    requires NameState(h)
    ensures AddFlag(f, h) == f
  {
  }

  lemma BareByte(c: Config, ch: char, s: State) returns (d: Config)
    requires c.p.state == HeaderField && c.url == "" && Room(c, 1)
    requires (ch == '\n' && s == HeaderFieldStart) || (ch == '\r' && s == HeaderAlmostDone)
    ensures Reaches(c, [ch], d)
    ensures d == Later(c, 1, c.p.(state := s), "", [Data(Field, c.part)])
  {
    var q := c.p.(nread := c.p.nread + 1, state := s);
    assert Step(c.p, ch) == Next(q, []);
    ReachOne(c, ch, q, []);
    d := Advance(c, ch, q, []);
    hide Step;
  }

  predicate OneLine(t: string) {
    t != "" && t[|t| - 1] == '\n' && forall i :: 0 <= i < |t| - 1 ==> t[i] != '\n'
  }

  /** The parser reads a line of a header to its end if and only if it is a line that can be printed, or a bare name. */
  lemma LineExactly(c: Config, t: string)
    requires c.p.state == HeaderFieldStart && c.url == "" && Room(c, |t|) && OneLine(t) && t != "\n" && t != "\r\n"
    ensures (RunFrom(c, t).Live? && RunFrom(c, t).c.p.state == HeaderFieldStart) <==> IsBare(t) || IsLine(t)
  {
    hide RunFrom, Good, IsName;
    WalkIsRun(c, t);
    hide Walk;
    if Ends(c.p, t) {
      LineIs(c.p, t);
    }
    if IsBare(t) {
      var name, eol :| IsName(name) && IsEol(eol) && t == BareLine(name, eol);
      var d := BareRun(c, name, eol);
    }
    if IsLine(t) {
      var h: Header, gap: nat, eol :| Good(h) && IsEol(eol) && t == LineText(h, gap, eol);
      var d := LineRun(c, h, gap, eol);
    }
  }

  // ---- lines that announce a chunk ----

  lemma SizeCases(p: Parser, ch: char)
    requires Step(p, ch).Next?
    ensures var q := Step(p, ch).p;
      && (p.state == ChunkSizeStart ==> SizeChar(ch) && q.state == ChunkSize)
      && (p.state == ChunkSize && ch != '\r' ==> (SizeChar(ch) && q.state == ChunkSize) || ch == ';' || ch == ' ')
  {
    SizeTable(ch);
    hide SizeChar, Unhex;
  }

  lemma {:induction false} MoreSizeIs(p: Parser, u: string) returns (s: string, ext: string)
    requires p.state == ChunkSize && '\r' !in u && Walk(p, u).Some?
    ensures u == s + ext && IsSize(s) && IsExtension(ext)
    decreases |u|
  {
    hide Step, SizeChar;
    s, ext := "", u;
    if u != "" {
      SizeCases(p, u[0]);
      if u[0] != ';' && u[0] != ' ' {
        s, ext := MoreSizeIs(Step(p, u[0]).p, u[1..]);
        assert [u[0]] + (s + ext) == ([u[0]] + s) + ext;
        s := [u[0]] + s;
      }
    }
  }

  ghost predicate IsSizeLine(u: string) { exists s, ext :: s != "" && IsSize(s) && IsExtension(ext) && u == s + ext }

  lemma SizeIs(p: Parser, u: string)
    requires p.state == ChunkSizeStart && '\r' !in u && u != "" && Walk(p, u).Some?
    ensures IsSizeLine(u)
  {
    hide Step, SizeChar;
    SizeCases(p, u[0]);
    var s, ext := MoreSizeIs(Step(p, u[0]).p, u[1..]);
    assert [u[0]] + (s + ext) == ([u[0]] + s) + ext;
    assert IsSize([u[0]] + s) && u == ([u[0]] + s) + ext;
  }

  /** Between chunks the parser reads a line if and only if it is a size, with an extension or not. */
  lemma SizeLineExactly(c: Config, u: string)
    requires c.p.state == ChunkSizeStart && c.url == "" && c.p.nread == 0 && c.p.flags.chunked
    requires u != "" && '\r' !in u && |u| + 2 <= MAX_HEADER
    ensures RunFrom(c, u + "\r\n").Live? <==> IsSizeLine(u)
  {
    hide RunFrom, IsSize, IsExtension, SizeOf;
    RunAppend(c, u, "\r\n");
    WalkIsRun(c, u);
    hide Walk;
    if RunFrom(c, u + "\r\n").Live? {
      SizeIs(c.p, u);
    }
    if IsSizeLine(u) {
      var s, ext :| s != "" && IsSize(s) && IsExtension(ext) && u == s + ext;
      assert s + ext + "\r" + "\n" == u + "\r\n";
      var d := SizeLineRun(c, s, SizeOf(0, s), ext);
    }
  }
}
