/** The request lines that the parser accepts are those that can be printed.  */
module HttpRequestExactly {
  import opened Wrappers
  import opened HttpModel
  import opened HttpGrammar
  import opened HttpRun
  import opened HttpLine
  import opened HttpRequestLine
  import opened HttpExactly

  // ---- the version ----

  lemma VersionCases(p: Parser, ch: char)
    requires InVersion(p.state) && Step(p, ch).Next?
    ensures var q := Step(p, ch).p;
      || (FixedNext(p.state, ch) != Dead && q.state == FixedNext(p.state, ch))
      || (IsDigit(ch) && DigitFits(p, DigitValue(ch))
          && q == AfterDigit(p, DigitValue(ch)).(nread := p.nread + 1))
  {
    hide Dispatch, FixedNext, DigitValue;
    VersionDispatch(p.(nread := p.nread + 1), ch);
    DigitSmall(ch);
  }

  lemma DigitSmall(ch: char)
    ensures IsDigit(ch) ==> DigitValue(ch) <= 9 && (DigitValue(ch) > 0 <==> ch != '0')
  {
  }

  lemma FixedCases(p: Parser, ch: char)
    requires Step(p, ch).Next?
    ensures var s := Step(p, ch).p.state;
      && (p.state == HttpStart ==> (ch == ' ' && s == HttpStart) || (ch == 'H' && s == HttpH))
      && (p.state == HttpH ==> ch == 'T' && s == HttpHT) && (p.state == HttpHT ==> ch == 'T' && s == HttpHTT)
      && (p.state == HttpHTT ==> ch == 'P' && s == HttpHTTP) && (p.state == HttpHTTP ==> ch == '/' && s == FirstMajor)
      && (p.state == ReqLineAlmostDone ==> ch == '\n')
  {
    hide Step, DigitValue, IsDigit;
    if InVersion(p.state) {
      VersionCases(p, ch);
    }
  }

  lemma NumberCases(p: Parser, ch: char)
    requires Step(p, ch).Next?
    ensures var q, n := Step(p, ch).p, if IsDigit(ch) then DigitValue(ch) else 0;
      && (p.state == FirstMajor ==> IsDigit(ch) && ch != '0' && q.state == Major && q.major == n <= 9)
      && (p.state == Major ==> (ch == '.' && q.state == FirstMinor)
                               || (IsDigit(ch) && q.state == Major && q.major == p.major * 10 + n <= 999))
      && (p.state == FirstMinor ==> IsDigit(ch) && q.state == Minor && q.minor == n <= 9)
      && (p.state == Minor ==> (ch == '\r' && q.state == ReqLineAlmostDone) || ch == '\n'
                               || (IsDigit(ch) && q.state == Minor && q.minor == p.minor * 10 + n <= 999))
  {
    hide Step, DigitValue;
    DigitSmall(ch);
    if InVersion(p.state) {
      VersionCases(p, ch);
    }
  }

  lemma LineFeedOnly(p: Parser, t: string)
    requires p.state == ReqLineAlmostDone && Ends(p, t)
    ensures t == "\n"
  {
    hide Step, Ends;
    EndsStep(p, t);
    FixedCases(p, t[0]);
  }

  /** One digit more in front of a number. */
  lemma DigitMore(n: nat, ch: char, s: string, rest: string)
    requires IsDigit(ch) && Digits(s)
    ensures Digits([ch] + s) && ReadDec(n, [ch] + s) == ReadDec(n * 10 + DigitValue(ch), s)
    ensures [ch] + (s + rest) == ([ch] + s) + rest
  {
    hide IsDigit, DigitValue;
    assert ([ch] + s)[1..] == s;
  }

  lemma {:induction false} MinorIs(p: Parser, t: string) returns (s: string, eol: string)
    requires p.state == Minor && p.minor <= 999 && Ends(p, t)
    ensures t == s + eol && IsEol(eol) && Digits(s) && ReadDec(p.minor, s) <= 999
    decreases |t|
  {
    hide Step, Ends, IsDigit, DigitValue;
    EndsStep(p, t);
    NumberCases(p, t[0]);
    var q := Step(p, t[0]).p;
    s, eol := "", t;
    if q.state == ReqLineAlmostDone && t[0] == '\r' {
      LineFeedOnly(q, t[1..]);
    } else if t[0] != '\n' {
      s, eol := MinorIs(q, t[1..]);
      DigitMore(p.minor, t[0], s, eol);
      s := [t[0]] + s;
    }
  }

  lemma FirstMinorIs(p: Parser, t: string) returns (s: string, eol: string)
    requires p.state == FirstMinor && Ends(p, t)
    ensures t == s + eol && IsEol(eol) && GoodNumber(s)
  {
    hide Step, Ends, IsDigit, DigitValue, ReadDec, Digits, IsEol;
    EndsStep(p, t);
    NumberCases(p, t[0]);
    s, eol := MinorIs(Step(p, t[0]).p, t[1..]);
    DigitMore(0, t[0], s, eol);
    s := [t[0]] + s;
  }

  lemma {:induction false} MajorIs(p: Parser, t: string) returns (s: string, minor: string, eol: string)
    requires p.state == Major && p.major <= 999 && Ends(p, t)
    ensures t == s + ("." + (minor + eol)) && Digits(s) && ReadDec(p.major, s) <= 999 && GoodNumber(minor) && IsEol(eol)
    decreases |t|
  {
    hide Step, Ends, IsDigit, DigitValue, GoodNumber, IsEol;
    EndsStep(p, t);
    NumberCases(p, t[0]);
    var q := Step(p, t[0]).p;
    if q.state == FirstMinor {
      s := "";
      minor, eol := FirstMinorIs(q, t[1..]);
      assert ['.'] + (minor + eol) == "" + ("." + (minor + eol));
    } else {
      s, minor, eol := MajorIs(q, t[1..]);
      DigitMore(p.major, t[0], s, "." + (minor + eol));
      s := [t[0]] + s;
    }
  }

  lemma FirstMajorIs(p: Parser, t: string) returns (s: string, minor: string, eol: string)
    requires p.state == FirstMajor && Ends(p, t)
    ensures t == s + ("." + (minor + eol)) && GoodNumber(s) && s[0] != '0' && GoodNumber(minor) && IsEol(eol)
  {
    hide Step, Ends, IsDigit, DigitValue, ReadDec, Digits, IsEol;
    EndsStep(p, t);
    NumberCases(p, t[0]);
    s, minor, eol := MajorIs(Step(p, t[0]).p, t[1..]);
    DigitMore(0, t[0], s, "." + (minor + eol));
    s := [t[0]] + s;
  }

  /** The letters of HTTP/ behind the first. */
  lemma LettersAre(p: Parser, t: string) returns (q: Parser, rest: string)
    requires p.state == HttpH && Ends(p, t)
    ensures "H" + t == "HTTP/" + rest && q.state == FirstMajor && Ends(q, rest)
  {
    hide Step, Ends;
    EndsStep(p, t);
    FixedCases(p, t[0]);
    var p1, t1 := Step(p, t[0]).p, t[1..];
    EndsStep(p1, t1);
    FixedCases(p1, t1[0]);
    var p2, t2 := Step(p1, t1[0]).p, t1[1..];
    EndsStep(p2, t2);
    FixedCases(p2, t2[0]);
    var p3, t3 := Step(p2, t2[0]).p, t2[1..];
    EndsStep(p3, t3);
    FixedCases(p3, t3[0]);
    q, rest := Step(p3, t3[0]).p, t3[1..];
    FourMore(t, t1, t2, t3, rest);
  }

  lemma FourMore(t: string, t1: string, t2: string, t3: string, rest: string)
    requires t == ['T'] + t1 && t1 == ['T'] + t2 && t2 == ['P'] + t3 && t3 == ['/'] + rest
    ensures "H" + t == "HTTP/" + rest
  {
  }

  lemma {:induction false} VersionIs(p: Parser, t: string) returns (v: Version, eol: string)
    requires p.state == HttpStart && Ends(p, t)
    ensures v.Numbered? && GoodVersion(v) && IsEol(eol) && " " + t == EndText(v, eol)
    decreases |t|
  {
    hide Step, Ends, GoodNumber, EndText, IsEol;
    EndsStep(p, t);
    FixedCases(p, t[0]);
    var q := Step(p, t[0]).p;
    if t[0] == ' ' {
      v, eol := VersionIs(q, t[1..]);
      OneMoreSpace(t[1..], v, eol);
      v := v.(space := v.space + 1);
    } else {
      var q', rest := LettersAre(q, t[1..]);
      var major, minor, e := FirstMajorIs(q', rest);
      v, eol := Numbered(0, major, minor), e;
      NoMoreSpace(t, rest, major, minor, eol);
    }
  }

  lemma OneMoreSpace(t: string, v: Version, eol: string)
    requires v.Numbered? && " " + t == EndText(v, eol)
    ensures " " + ([' '] + t) == EndText(v.(space := v.space + 1), eol)
  {
    hide VersionText;
    var text := Spaces(v.space) + VersionText(v.major, v.minor, eol);
    assert t == (" " + t)[1..] && text == (" " + text)[1..];
    assert " " + text == Spaces(v.space + 1) + VersionText(v.major, v.minor, eol);
    assert [' '] == " ";
  }

  lemma NoMoreSpace(t: string, rest: string, major: string, minor: string, eol: string)
    requires t != "" && t[0] == 'H' && "H" + t[1..] == "HTTP/" + rest && rest == major + ("." + (minor + eol))
    ensures " " + t == EndText(Numbered(0, major, minor), eol)
  {
    assert t == "H" + t[1..];
    assert VersionText(major, minor, eol) == "HTTP/" + (major + ("." + (minor + eol)));
    assert Spaces(0) + VersionText(major, minor, eol) == VersionText(major, minor, eol);
  }

  // ---- the URL ----

  lemma UrlCases(p: Parser, ch: char)
    requires InUrl(p.state) && Step(p, ch).Next?
    ensures Step(p, ch).p.state == UrlNext(p.state, ch) != Dead
  {
    hide UrlNext, Dispatch;
    UrlDispatch(p.(nread := p.nread + 1), ch);
  }

  lemma UrlDispatch(p: Parser, ch: char)
    requires InUrl(p.state)
    ensures Dispatch(p, ch) == StepUrl(p, ch)
  {
    hide StepUrl;
  }

  /** What a part of a URL may go on with. */
  lemma PartCases(s: State, ch: char)
    requires s in {Path, QueryStart, Query, FragmentStart, Fragment} && UrlNext(s, ch) != Dead
    ensures var n := UrlNext(s, ch);
      || (ch == ' ' && n == HttpStart)
      || (ch == '\r' && n == ReqLineAlmostDone) || (ch == '\n' && n == HeaderFieldStart)
      || (ch == '?' && ((s == Path && n == QueryStart) || (s == QueryStart && n == s)))
      || (ch == '#' && ((s in {Path, QueryStart, Query} && n == FragmentStart) || (s == FragmentStart && n == s)))
      || (ch == '?' && ((s == Query && n == s) || (s in {FragmentStart, Fragment} && n == Fragment)))
      || (ch == '#' && s == Fragment && n == s)
      || (UrlChar(ch) && n == if s == QueryStart then Query else if s == FragmentStart then Fragment else s)
  {
    UrlTable(ch);
    hide UrlChar, NormalUrlChar;
  }

  lemma OriginCases(s: State, ch: char)
    requires UrlNext(s, ch) != Dead
    ensures var n := UrlNext(s, ch);
      && (s == SpacesBeforeUrl ==>
            (ch == ' ' && n == s) || ((ch == '/' || ch == '*') && n == Path) || (Letter(ch) && n == Schema))
      && (s == Schema ==> (Letter(ch) && n == s) || (ch == ':' && n == SchemaSlash)
                          || ((ch == '.' || Decimal(ch)) && n == Host))
      && (s == SchemaSlash ==> ch == '/' && n == SchemaSlashSlash) && (s == SchemaSlashSlash ==> ch == '/' && n == Host)
      && (s == Host ==> (HostChar(ch) && n == s) || (ch == ':' && n == Port) || (ch == '/' && n == Path)
                        || (ch == ' ' && n == HttpStart))
      && (s == Port ==> (Decimal(ch) && n == s) || (ch == '/' && n == Path) || (ch == ' ' && n == HttpStart))
  {
    LetterTable(ch);
    hide Decimal, Letter, IsLetter, IsDigit;
  }

  /** A line that ends behind a URL, or goes on with a space and a version. */
  lemma EndIs(p: Parser, t: string) returns (v: Version, eol: string)
    requires p.state in {Path, QueryStart, Query, FragmentStart, Fragment, Host, Port} && Ends(p, t)
    requires t != "" && (UrlNext(p.state, t[0]) in {HttpStart, ReqLineAlmostDone} || t[0] == '\n')
    ensures t == EndText(v, eol) && GoodVersion(v) && IsEol(eol) && (v.Simple? ==> p.state != Host && p.state != Port)
  {
    hide Step, Ends, EndText, GoodNumber, VersionText, UrlNext;
    EndsStep(p, t);
    UrlCases(p, t[0]);
    EndingByte(p.state, t[0]);
    var q := Step(p, t[0]).p;
    if q.state == HttpStart {
      v, eol := VersionIs(q, t[1..]);
      assert [' '] == " ";
    } else {
      v, eol := Simple, t;
      SimpleText(t);
      if q.state == ReqLineAlmostDone {
        LineFeedOnly(q, t[1..]);
        assert ['\r'] + "\n" == "\r\n";
      }
    }
  }

  lemma EndingByte(s: State, ch: char)
    requires s in {Path, QueryStart, Query, FragmentStart, Fragment, Host, Port} && UrlNext(s, ch) != Dead
    requires UrlNext(s, ch) == HttpStart || UrlNext(s, ch) == ReqLineAlmostDone || ch == '\n'
    ensures UrlNext(s, ch) == HttpStart ==> ch == ' '
    ensures UrlNext(s, ch) == ReqLineAlmostDone ==> ch == '\r' && s != Host && s != Port
    ensures ch == '\n' ==> s != Host && s != Port && UrlNext(s, ch) == HeaderFieldStart
  {
  }

  lemma SimpleText(eol: string)
    ensures EndText(Simple, eol) == eol
  {
  }

  lemma {:induction false} FragmentIs(p: Parser, t: string) returns (f: string, v: Version, eol: string)
    requires (p.state == FragmentStart || p.state == Fragment) && Ends(p, t)
    ensures t == f + EndText(v, eol) && GoodFragment(f) && GoodVersion(v) && IsEol(eol)
    decreases |t|
  {
    hide Step, Ends, EndText, GoodNumber, UrlNext, UrlChar, GoodVersion, IsEol;
    EndsStep(p, t);
    UrlCases(p, t[0]);
    PartCases(p.state, t[0]);
    var q := Step(p, t[0]).p;
    if q.state == FragmentStart || q.state == Fragment {
      f, v, eol := FragmentIs(q, t[1..]);
      assert [t[0]] + (f + EndText(v, eol)) == ([t[0]] + f) + EndText(v, eol);
      f := [t[0]] + f;
    } else {
      v, eol := EndIs(p, t);
      f := "";
      assert t == f + EndText(v, eol);
    }
  }

  /** What is behind a path, or a query. */
  function Tail(query: Option<string>, fragment: Option<string>, v: Version, eol: string): string {
    QueryText(query) + (FragmentText(fragment) + EndText(v, eol))
  }

  predicate GoodTail(query: Option<string>, fragment: Option<string>, v: Version, eol: string) {
    && (query.Some? ==> GoodQuery(query.value)) && (fragment.Some? ==> GoodFragment(fragment.value))
    && GoodVersion(v) && IsEol(eol)
  }

  lemma {:induction false} QueryIs(p: Parser, t: string)
      returns (q: string, fragment: Option<string>, v: Version, eol: string)
    requires (p.state == QueryStart || p.state == Query) && Ends(p, t)
    ensures t == q + Tail(None, fragment, v, eol) && GoodQuery(q) && GoodTail(None, fragment, v, eol)
    decreases |t|
  {
    hide Step, Ends, EndText, GoodNumber, UrlNext, UrlChar, GoodVersion, IsEol, GoodFragment;
    EndsStep(p, t);
    UrlCases(p, t[0]);
    PartCases(p.state, t[0]);
    var n := Step(p, t[0]).p;
    if n.state == QueryStart || n.state == Query {
      q, fragment, v, eol := QueryIs(n, t[1..]);
      assert [t[0]] + (q + Tail(None, fragment, v, eol)) == ([t[0]] + q) + Tail(None, fragment, v, eol);
      q := [t[0]] + q;
    } else {
      q := "";
      fragment, v, eol := FragmentOrEnd(p, t);
      assert t == q + Tail(None, fragment, v, eol);
    }
  }

  /** A fragment, or the end of the URL. */
  lemma FragmentOrEnd(p: Parser, t: string) returns (fragment: Option<string>, v: Version, eol: string)
    requires p.state in {Path, QueryStart, Query} && Ends(p, t) && t != ""
    requires UrlNext(p.state, t[0]) in {FragmentStart, HttpStart, ReqLineAlmostDone, HeaderFieldStart}
    ensures t == Tail(None, fragment, v, eol) && GoodTail(None, fragment, v, eol)
  {
    hide Step, Ends, EndText, GoodNumber, UrlNext, UrlChar, GoodVersion, IsEol, GoodFragment;
    EndsStep(p, t);
    UrlCases(p, t[0]);
    PartCases(p.state, t[0]);
    if Step(p, t[0]).p.state == FragmentStart {
      var f, v', eol' := FragmentIs(Step(p, t[0]).p, t[1..]);
      fragment, v, eol := Some(f), v', eol';
      assert ['#'] + (f + EndText(v, eol)) == ("#" + f) + EndText(v, eol);
      assert t == "" + (FragmentText(fragment) + EndText(v, eol));
    } else {
      fragment := None;
      v, eol := EndIs(p, t);
      assert "" + ("" + EndText(v, eol)) == EndText(v, eol);
    }
  }

  lemma {:induction false} PathIs(p: Parser, t: string)
      returns (path: string, query: Option<string>, fragment: Option<string>, v: Version, eol: string)
    requires p.state == Path && Ends(p, t)
    ensures t == path + Tail(query, fragment, v, eol) && GoodTail(query, fragment, v, eol)
    ensures forall j :: 0 <= j < |path| ==> UrlChar(path[j])
    decreases |t|
  {
    hide Step, Ends, EndText, GoodNumber, UrlNext, UrlChar, GoodVersion, IsEol, GoodFragment, GoodQuery, Tail;
    EndsStep(p, t);
    UrlCases(p, t[0]);
    PartCases(p.state, t[0]);
    var n := Step(p, t[0]).p;
    path := "";
    if n.state == Path {
      path, query, fragment, v, eol := PathIs(n, t[1..]);
      assert [t[0]] + (path + Tail(query, fragment, v, eol)) == ([t[0]] + path) + Tail(query, fragment, v, eol);
      path := [t[0]] + path;
    } else if n.state == QueryStart {
      var q;
      q, fragment, v, eol := QueryIs(n, t[1..]);
      query := Some(q);
      QueryTail(q, fragment, v, eol);
      assert t == "" + Tail(query, fragment, v, eol);
    } else {
      query := None;
      fragment, v, eol := FragmentOrEnd(p, t);
      assert t == "" + Tail(query, fragment, v, eol);
    }
  }

  lemma QueryTail(q: string, fragment: Option<string>, v: Version, eol: string)
    ensures ['?'] + (q + Tail(None, fragment, v, eol)) == Tail(Some(q), fragment, v, eol)
  {
    var rest := FragmentText(fragment) + EndText(v, eol);
    assert Tail(None, fragment, v, eol) == "" + rest == rest;
    assert ['?'] + (q + rest) == ("?" + q) + rest;
  }

  /** A path, or none, behind a host or a port. */
  predicate GoodRest(path: string, query: Option<string>, fragment: Option<string>, v: Version, eol: string) {
    && GoodTail(query, fragment, v, eol) && GoodPath(true, path)
    && (path == "" ==> query.None? && fragment.None? && v.Numbered?)
  }

  lemma RestIs(p: Parser, t: string)
      returns (path: string, query: Option<string>, fragment: Option<string>, v: Version, eol: string)
    requires (p.state == Host || p.state == Port) && Ends(p, t) && t != "" && (t[0] == '/' || t[0] == ' ')
    ensures t == path + Tail(query, fragment, v, eol) && GoodRest(path, query, fragment, v, eol)
  {
    hide Step, Ends, UrlNext, Tail, GoodTail, UrlChar;
    EndsStep(p, t);
    UrlCases(p, t[0]);
    OriginCases(p.state, t[0]);
    AfterHost(p.state, t[0]);
    if t[0] == '/' {
      path, query, fragment, v, eol := PathIs(Step(p, t[0]).p, t[1..]);
      assert ['/'] + (path + Tail(query, fragment, v, eol)) == (['/'] + path) + Tail(query, fragment, v, eol);
      SlashChar();
      path := ['/'] + path;
    } else {
      path, query, fragment := "", None, None;
      v, eol := EndIs(p, t);
      NoTail(v, eol);
    }
  }

  lemma AfterHost(s: State, ch: char)
    requires s == Host || s == Port
    ensures ch == '/' ==> UrlNext(s, ch) == Path
    ensures ch == ' ' ==> UrlNext(s, ch) == HttpStart
  {
  }

  lemma SlashChar()
    ensures UrlChar('/')
  {
  }

  lemma NoTail(v: Version, eol: string)
    ensures "" + Tail(None, None, v, eol) == EndText(v, eol)
    ensures GoodVersion(v) && IsEol(eol) ==> GoodTail(None, None, v, eol)
  {
    hide EndText, GoodVersion;
    assert "" + ("" + EndText(v, eol)) == EndText(v, eol);
  }

  lemma {:induction false} PortIs(p: Parser, t: string)
      returns (port: string, path: string, query: Option<string>, fragment: Option<string>, v: Version, eol: string)
    requires p.state == Port && Ends(p, t)
    ensures t == port + (path + Tail(query, fragment, v, eol)) && GoodRest(path, query, fragment, v, eol)
    ensures forall j :: 0 <= j < |port| ==> Decimal(port[j])
    decreases |t|
  {
    hide Step, Ends, UrlNext, Tail, GoodRest, Decimal;
    EndsStep(p, t);
    UrlCases(p, t[0]);
    OriginCases(p.state, t[0]);
    if t[0] == '/' || t[0] == ' ' {
      path, query, fragment, v, eol := RestIs(p, t);
      port := "";
      assert t == "" + (path + Tail(query, fragment, v, eol));
    } else {
      port, path, query, fragment, v, eol := PortIs(Step(p, t[0]).p, t[1..]);
      MoreInFront(t[0], port, path + Tail(query, fragment, v, eol));
      port := [t[0]] + port;
    }
  }

  lemma MoreInFront(ch: char, s: string, rest: string)
    ensures [ch] + (s + rest) == ([ch] + s) + rest
  {
  }

  /** What is behind a host. */
  function HostTail(port: Option<string>, path: string, query: Option<string>, fragment: Option<string>, v: Version,
                    eol: string): string {
    PortText(port) + (path + Tail(query, fragment, v, eol))
  }

  predicate GoodHostTail(port: Option<string>, path: string, query: Option<string>, fragment: Option<string>,
                         v: Version, eol: string) {
    && GoodRest(path, query, fragment, v, eol)
    && (port.Some? ==> forall j :: 0 <= j < |port.value| ==> Decimal(port.value[j]))
  }

  /** The parts of a URL from its host on, with the rest of the line. */
  datatype FromHost = FromHost(
    host: string, port: Option<string>, path: string, query: Option<string>, fragment: Option<string>, v: Version,
    eol: string)

  function HostText(h: FromHost): string { h.host + HostTail(h.port, h.path, h.query, h.fragment, h.v, h.eol) }

  predicate GoodFromHost(h: FromHost) {
    && GoodHostTail(h.port, h.path, h.query, h.fragment, h.v, h.eol)
    && forall j :: 0 <= j < |h.host| ==> HostChar(h.host[j])
  }

  lemma {:induction false} HostIs(p: Parser, t: string) returns (h: FromHost)
    requires p.state == Host && Ends(p, t)
    ensures t == HostText(h) && GoodFromHost(h)
    decreases |t|
  {
    hide Step, Ends, UrlNext, Tail, GoodRest, Decimal, HostChar;
    EndsStep(p, t);
    UrlCases(p, t[0]);
    OriginCases(p.state, t[0]);
    var q := Step(p, t[0]).p;
    if q.state == Host {
      h := HostIs(q, t[1..]);
      MoreInFront(t[0], h.host, HostTail(h.port, h.path, h.query, h.fragment, h.v, h.eol));
      h := h.(host := [t[0]] + h.host);
    } else if q.state == Port {
      var port, path, query, fragment, v, eol := PortIs(q, t[1..]);
      h := FromHost("", Some(port), path, query, fragment, v, eol);
      MoreInFront(':', port, path + Tail(query, fragment, v, eol));
      assert [':'] + port == ":" + port;
      assert t == "" + ((":" + port) + (path + Tail(query, fragment, v, eol)));
    } else {
      var path, query, fragment, v, eol := RestIs(p, t);
      h := FromHost("", None, path, query, fragment, v, eol);
      assert t == "" + ("" + (path + Tail(query, fragment, v, eol)));
    }
  }

  /** Behind the first letters of a URL: the rest of a schema and a host, or of a host alone. */
  lemma {:induction false} SchemaIs(p: Parser, t: string) returns (schema: Option<string>, h: FromHost)
    requires p.state == Schema && Ends(p, t)
    ensures t == SchemaText(schema) + HostText(h) && GoodFromHost(h)
    ensures if schema.Some? then forall j :: 0 <= j < |schema.value| ==> Letter(schema.value[j]) else BareHost(h.host)
    decreases |t|
  {
    hide Step, Ends, UrlNext, HostTail, GoodHostTail, Decimal, Letter;
    EndsStep(p, t);
    UrlCases(p, t[0]);
    OriginCases(p.state, t[0]);
    var q := Step(p, t[0]).p;
    if q.state == Schema {
      schema, h := SchemaIs(q, t[1..]);
      if schema.Some? {
        MoreInFront(t[0], schema.value + "://", HostText(h));
        MoreInFront(t[0], schema.value, "://");
        schema := Some([t[0]] + schema.value);
      } else {
        schema := None;
        h := HostLetter(t[0], t[1..], h);
      }
    } else if q.state == Host {
      h := HostIs(q, t[1..]);
      assert "" + HostText(h) == HostText(h);
      schema := None;
      h := HostLetter(t[0], t[1..], h);
    } else {
      h := SlashesAre(q, t[1..]);
      schema := Some("");
      assert "" + "://" == "://";
    }
  }

  lemma SlashesAre(p: Parser, t: string) returns (h: FromHost)
    requires p.state == SchemaSlash && Ends(p, t)
    ensures [':'] + t == "://" + HostText(h) && GoodFromHost(h)
  {
    hide Step, Ends, UrlNext, HostText, GoodFromHost;
    EndsStep(p, t);
    UrlCases(p, t[0]);
    OriginCases(p.state, t[0]);
    var q, t1 := Step(p, t[0]).p, t[1..];
    EndsStep(q, t1);
    UrlCases(q, t1[0]);
    OriginCases(q.state, t1[0]);
    h := HostIs(Step(q, t1[0]).p, t1[1..]);
    assert [':'] + (['/'] + (['/'] + HostText(h))) == "://" + HostText(h);
  }

  lemma HostLetter(ch: char, t: string, h: FromHost) returns (g: FromHost)
    requires t == "" + HostText(h) && HostChar(ch) && GoodFromHost(h)
    requires (Letter(ch) && BareHost(h.host)) || ch == '.' || Decimal(ch)
    ensures [ch] + t == "" + HostText(g) && GoodFromHost(g) && BareHost(g.host)
  {
    hide HostTail, GoodHostTail, HostChar, Decimal, Letter;
    NotBoth(ch);
    g := h.(host := [ch] + h.host);
    MoreInFront(ch, h.host, HostTail(h.port, h.path, h.query, h.fragment, h.v, h.eol));
    assert ([ch] + h.host)[1..] == h.host;
  }

  lemma NotBoth(ch: char)
    ensures Decimal(ch) || ch == '.' ==> !Letter(ch)
  {
    LetterTable(ch);
    hide Decimal;
  }

  /** The target of a request line, and the rest of the line. */
  lemma {:induction false} UrlIs(p: Parser, t: string) returns (gap: nat, target: Target, v: Version, eol: string)
    requires p.state == SpacesBeforeUrl && Ends(p, t)
    ensures t == Spaces(gap) + (UrlText(target) + EndText(v, eol)) && GoodTarget(target) && GoodVersion(v) && IsEol(eol)
    ensures v.Simple? ==> target.path != ""
    decreases |t|
  {
    hide Step, Ends, UrlNext, UrlText, EndText, GoodTarget, GoodVersion, Letter, HostText, GoodFromHost, Tail, GoodTail;
    EndsStep(p, t);
    UrlCases(p, t[0]);
    OriginCases(p.state, t[0]);
    var q := Step(p, t[0]).p;
    gap := 0;
    if q.state == SpacesBeforeUrl {
      gap, target, v, eol := UrlIs(q, t[1..]);
      MoreInFront(' ', Spaces(gap), UrlText(target) + EndText(v, eol));
      gap := gap + 1;
      assert Spaces(gap) == " " + Spaces(gap - 1) == [' '] + Spaces(gap - 1);
    } else if q.state == Path {
      var path, query, fragment, v', eol' := PathIs(q, t[1..]);
      MoreInFront(t[0], path, Tail(query, fragment, v', eol'));
      v, eol := v', eol';
      target := FromPath(t[0], path, query, fragment, v, eol);
      assert t == Spaces(0) + (UrlText(target) + EndText(v, eol));
    } else {
      var schema, h := SchemaIs(q, t[1..]);
      v, eol := h.v, h.eol;
      target := FromSchema(t[0], schema, h);
      assert t == Spaces(0) + (UrlText(target) + EndText(v, eol));
    }
  }

  lemma FromPath(ch: char, path: string, query: Option<string>, fragment: Option<string>, v: Version, eol: string)
      returns (target: Target)
    requires (ch == '/' || ch == '*') && GoodTail(query, fragment, v, eol)
    requires forall j :: 0 <= j < |path| ==> UrlChar(path[j])
    ensures UrlText(target) + EndText(v, eol) == ([ch] + path) + Tail(query, fragment, v, eol)
    ensures GoodTarget(target) && GoodVersion(v) && IsEol(eol) && target.path != ""
  {
    hide UrlChar, EndText, GoodVersion, GoodQuery, GoodFragment;
    target := Target(None, [ch] + path, query, fragment);
    assert UrlChar('/') && UrlChar('*') by {
      SlashChar();
      StarChar();
    }
    assert "" + ([ch] + path) == [ch] + path;
    TargetText([ch] + path, QueryText(query), FragmentText(fragment), EndText(v, eol));
  }

  lemma StarChar()
    ensures UrlChar('*')
  {
  }

  lemma TargetText(front: string, query: string, fragment: string, end: string)
    ensures (front + query + fragment) + end == front + (query + (fragment + end))
  {
  }

  lemma FromSchema(ch: char, schema: Option<string>, h: FromHost) returns (target: Target)
    requires Letter(ch) && GoodFromHost(h)
    requires if schema.Some? then forall j :: 0 <= j < |schema.value| ==> Letter(schema.value[j]) else BareHost(h.host)
    ensures UrlText(target) + EndText(h.v, h.eol) == [ch] + (SchemaText(schema) + HostText(h))
    ensures GoodTarget(target) && GoodVersion(h.v) && IsEol(h.eol) && (h.v.Simple? ==> target.path != "")
  {
    hide Letter, UrlChar, EndText, GoodVersion, GoodQuery, GoodFragment, Decimal, GoodPath;
    var o := if schema.Some? then Origin(Some([ch] + schema.value), h.host, h.port)
             else Origin(None, [ch] + h.host, h.port);
    target := Target(Some(o), h.path, h.query, h.fragment);
    assert ([ch] + h.host)[1..] == h.host;
    OriginStart(ch, schema, h.host, h.port, OriginText(o));
    OriginGood(ch, schema, h, o);
    TargetText(OriginText(o) + h.path, QueryText(h.query), FragmentText(h.fragment), EndText(h.v, h.eol));
    Joins(ch, SchemaText(schema), h.host, PortText(h.port), h.path, Tail(h.query, h.fragment, h.v, h.eol));
    hide OriginText, SchemaText, PortText, GoodOrigin, QueryText, FragmentText;
  }

  lemma OriginStart(ch: char, schema: Option<string>, host: string, port: Option<string>, text: string)
    requires text == OriginText(if schema.Some? then Origin(Some([ch] + schema.value), host, port)
                                else Origin(None, [ch] + host, port))
    ensures text == [ch] + SchemaText(schema) + host + PortText(port)
  {
    if schema.Some? {
      assert ([ch] + schema.value) + "://" == [ch] + (schema.value + "://");
    } else {
      assert "" + ([ch] + host) == [ch] + "" + host;
    }
  }

  lemma OriginGood(ch: char, schema: Option<string>, h: FromHost, o: Origin)
    requires Letter(ch) && GoodFromHost(h)
    requires if schema.Some? then forall j :: 0 <= j < |schema.value| ==> Letter(schema.value[j]) else BareHost(h.host)
    requires o == if schema.Some? then Origin(Some([ch] + schema.value), h.host, h.port)
                  else Origin(None, [ch] + h.host, h.port)
    ensures GoodOrigin(o)
  {
    hide Letter, Decimal;
    assert ([ch] + h.host)[1..] == h.host;
  }

  lemma Joins(ch: char, a: string, b: string, c: string, d: string, e: string)
    ensures ([ch] + a + b + c + d) + e == [ch] + (a + (b + (c + (d + e))))
  {
  }

  // ---- the method ----

  lemma VerbCases(p: Parser, ch: char)
    requires p.state == ReqMethod && Step(p, ch).Next?
    ensures var q, n := Step(p, ch).p, |MethodString(p.verb)|;
      && ch != '\0' && p.index <= n
      && if ch == ' ' && p.index == n then q.state == SpacesBeforeUrl
         else q.state == ReqMethod && q.index == p.index + 1 && VerbStep(p.verb, p.index, ch) == (true, q.verb)
  {
    hide MethodString, OtherMethod;
  }

  lemma {:induction false} VerbIs(p: Parser, t: string) returns (s: string, m: Method, rest: string, q: Parser)
    requires p.state == ReqMethod && Ends(p, t)
    ensures t == s + (" " + rest) && VerbPath(p.verb, p.index, s, m) && q.state == SpacesBeforeUrl && Ends(q, rest)
    decreases |t|
  {
    hide Step, Ends, MethodString, VerbStep;
    EndsStep(p, t);
    VerbCases(p, t[0]);
    if Step(p, t[0]).p.state == SpacesBeforeUrl {
      s, m, rest, q := "", p.verb, t[1..], Step(p, t[0]).p;
      assert [' '] + rest == "" + (" " + rest);
    } else {
      s, m, rest, q := VerbIs(Step(p, t[0]).p, t[1..]);
      MoreInFront(t[0], s, " " + rest);
      assert ([t[0]] + s)[1..] == s;
      s := [t[0]] + s;
    }
  }

  /** From here on the name is the only way. */
  predicate Strict(m: Method, i: nat) {
    && m != CONNECT && m != MKCOL && (m == POST ==> i >= 2) && (m == UNLOCK ==> i >= 3) && (m == PROPFIND ==> i >= 5)
  }

  lemma StrictStep(m: Method, i: nat, ch: char)
    requires Strict(m, i) && i <= |MethodString(m)| && VerbStep(m, i, ch).0
    ensures ch == At(MethodString(m), i) && VerbStep(m, i, ch).1 == m
  {
    hide MethodString;
  }

  lemma {:induction false} OnlyName(m: Method, i: nat, s: string, to: Method)
    requires Strict(m, i) && VerbPath(m, i, s, to)
    ensures to == m && i <= |MethodString(m)| && s == MethodString(m)[i..]
    decreases |s|
  {
    hide MethodString, VerbStep, Strict;
    var name := MethodString(m);
    if s == "" {
      assert name[i..] == "";
    } else {
      StrictStep(m, i, s[0]);
      StrictLater(m, i);
      OnlyName(m, i + 1, s[1..], to);
      assert name[i..] == [name[i]] + name[i + 1..] && s == [s[0]] + s[1..];
    }
  }

  lemma StrictLater(m: Method, i: nat)
    requires Strict(m, i)
    ensures Strict(m, i + 1)
  {
  }

  lemma {:induction false} AnyIs(m: Method, i: nat, s: string, to: Method)
    requires (m == CONNECT || m == MKCOL) && 3 <= i && VerbPath(m, i, s, to)
    ensures to == m && i + |s| == |MethodString(m)| && '\0' !in s
    decreases |s|
  {
    hide MethodString;
    if s != "" {
      assert VerbStep(m, i, s[0]) == (true, m) by {
        LateStep(m, i, s[0]);
      }
      hide VerbStep;
      AnyIs(m, i + 1, s[1..], to);
      assert s == [s[0]] + s[1..];
    }
  }

  lemma LateStep(m: Method, i: nat, ch: char)
    requires (m == CONNECT || m == MKCOL) && 3 <= i <= |MethodString(m)|
    ensures VerbStep(m, i, ch) == (true, m)
  {
  }

  /** One step of a path. */
  lemma PathStep(m: Method, i: nat, s: string, to: Method)
    requires VerbPath(m, i, s, to)
    ensures s == "" ==> m == to && i == |MethodString(to)|
    ensures s != "" ==>
      && i <= |MethodString(m)| && s[0] != '\0' && VerbStep(m, i, s[0]).0
      && VerbPath(VerbStep(m, i, s[0]).1, i + 1, s[1..], to) && s == [s[0]] + s[1..]
  {
    hide VerbStep, MethodString;
  }

  lemma BranchSteps(ch: char)
    ensures VerbStep(POST, 1, ch).0 ==>
      VerbStep(POST, 1, ch).1 == if ch == 'R' then PROPFIND else if ch == 'U' then PUT else POST
    ensures VerbStep(POST, 1, ch).0 && ch != 'R' && ch != 'U' ==> ch == 'O'
    ensures VerbStep(UNLOCK, 1, ch).0 ==> VerbStep(UNLOCK, 1, ch).1 == UNLOCK && ch == 'N'
    ensures VerbStep(UNLOCK, 2, ch).0 ==>
      (ch == 'S' && VerbStep(UNLOCK, 2, ch).1 == UNSUBSCRIBE) || (ch == 'L' && VerbStep(UNLOCK, 2, ch).1 == UNLOCK)
    ensures VerbStep(PROPFIND, 2, ch).0 ==> VerbStep(PROPFIND, 2, ch).1 == PROPFIND && ch == 'O'
    ensures VerbStep(PROPFIND, 3, ch).0 ==> VerbStep(PROPFIND, 3, ch).1 == PROPFIND && ch == 'P'
    ensures VerbStep(PROPFIND, 4, ch).0 ==>
      (ch == 'P' && VerbStep(PROPFIND, 4, ch).1 == PROPPATCH) || (ch == 'F' && VerbStep(PROPFIND, 4, ch).1 == PROPFIND)
  {
  }

  lemma NameHead(m: Method, i: nat, head: string)
    requires i <= |MethodString(m)| && head == MethodString(m)[..i]
    ensures head + MethodString(m)[i..] == MethodString(m)
  {
  }

  /** A strict name behind two or three letters that are its own. */
  lemma Finishes(w: string, i: nat, m: Method, to: Method)
    requires 1 <= i <= |w| && Strict(m, i) && VerbPath(m, i, w[i..], to)
    requires i <= |MethodString(m)| && w[..i] == MethodString(m)[..i]
    ensures to == m && w == MethodString(m)
  {
    hide MethodString, VerbPath, Strict;
    OnlyName(m, i, w[i..], to);
    NameHead(m, i, w[..i]);
    assert w == w[..i] + w[i..];
  }

  lemma FromPost(w: string, to: Method)
    requires w != "" && w[0] == 'P' && VerbPath(POST, 1, w[1..], to)
    ensures w == MethodString(to)
  {
    hide VerbPath, VerbStep;
    PathStep(POST, 1, w[1..], to);
    assert |w| > 1;
    BranchSteps(w[1]);
    assert w[1..][1..] == w[2..] && w[..2] == [w[0], w[1]];
    if w[1] == 'R' {
      FromPropfind(w, to);
    } else {
      Finishes(w, 2, VerbStep(POST, 1, w[1]).1, to);
    }
  }

  lemma FromPropfind(w: string, to: Method)
    requires |w| >= 2 && w[..2] == "PR" && VerbPath(PROPFIND, 2, w[2..], to)
    ensures w == MethodString(to)
  {
    hide VerbPath, VerbStep;
    PathStep(PROPFIND, 2, w[2..], to);
    assert |w| > 2;
    BranchSteps(w[2]);
    assert w[2..][1..] == w[3..];
    PathStep(PROPFIND, 3, w[3..], to);
    assert |w| > 3;
    BranchSteps(w[3]);
    assert w[3..][1..] == w[4..];
    PathStep(PROPFIND, 4, w[4..], to);
    assert |w| > 4;
    BranchSteps(w[4]);
    assert w[4..][1..] == w[5..] && w[..5] == w[..2] + [w[2], w[3], w[4]];
    Finishes(w, 5, VerbStep(PROPFIND, 4, w[4]).1, to);
  }

  lemma UnlockNames()
    ensures |MethodString(UNLOCK)| == 6 && MethodString(UNLOCK)[..3] == ['U', 'N', 'L'] && Strict(UNLOCK, 3)
    ensures |MethodString(UNSUBSCRIBE)| == 11 && MethodString(UNSUBSCRIBE)[..3] == ['U', 'N', 'S']
    ensures Strict(UNSUBSCRIBE, 3)
  {
  }

  lemma FromUnlock(w: string, to: Method)
    requires w != "" && w[0] == 'U' && VerbPath(UNLOCK, 1, w[1..], to)
    ensures w == MethodString(to)
  {
    hide VerbPath, VerbStep, MethodString, Strict;
    UnlockNames();
    PathStep(UNLOCK, 1, w[1..], to);
    assert |w| > 1;
    BranchSteps(w[1]);
    assert w[1..][1..] == w[2..];
    PathStep(UNLOCK, 2, w[2..], to);
    assert |w| > 2;
    BranchSteps(w[2]);
    assert w[2..][1..] == w[3..] && w[..3] == [w[0], w[1], w[2]];
    Finishes(w, 3, VerbStep(UNLOCK, 2, w[2]).1, to);
  }

  lemma ConnectNames()
    ensures |MethodString(CONNECT)| == 7 && MethodString(COPY)[3..] == "Y" && |MethodString(COPY)| == 4
    ensures |MethodString(CHECKOUT)| == 8 && MethodString(CHECKOUT)[..2] == ['C', 'H']
    ensures Strict(CHECKOUT, 2) && Strict(COPY, 3)
  {
  }

  lemma FromConnect(w: string, to: Method)
    requires w != "" && w[0] == 'C' && VerbPath(CONNECT, 1, w[1..], to)
    ensures Spells(w, to)
  {
    hide VerbPath, VerbStep, MethodString, Strict;
    ConnectNames();
    PathStep(CONNECT, 1, w[1..], to);
    WordLonger(CONNECT, 1, w, to);
    LenientSteps(w[1]);
    assert w[1..][1..] == w[2..];
    if w[1] == 'H' {
      assert w[..2] == [w[0], w[1]];
      Finishes(w, 2, CHECKOUT, to);
    } else {
      PathStep(CONNECT, 2, w[2..], to);
      WordLonger(CONNECT, 2, w, to);
      LenientSteps(w[2]);
      assert w[2..][1..] == w[3..] && w == [w[0], w[1], w[2]] + w[3..];
      if w[2] == 'P' {
        OnlyName(COPY, 3, w[3..], to);
        assert w[2..] == "P" + w[3..];
      } else {
        AnyIs(CONNECT, 3, w[3..], to);
      }
    }
  }

  lemma MkcolNames(ch: char)
    requires ch in "OE-"
    ensures var m := VerbStep(MKCOL, 1, ch).1;
      |MethodString(m)| >= 2 && MethodString(m)[..2] == ['M', ch] && Strict(m, 2)
    ensures MethodString(MKACTIVITY)[2..] == "ACTIVITY" && MethodString(MKACTIVITY)[3..] == "CTIVITY"
  {
  }

  lemma FromMkcol(w: string, to: Method)
    requires w != "" && w[0] == 'M' && VerbPath(MKCOL, 1, w[1..], to)
    ensures Spells(w, to)
  {
    hide VerbPath, VerbStep, MethodString;
    PathStep(MKCOL, 1, w[1..], to);
    WordLonger(MKCOL, 1, w, to);
    LenientSteps(w[1]);
    assert w[1..][1..] == w[2..];
    MkcolNames('O');
    if w[1] in "OE-" {
      MkcolNames(w[1]);
      assert w[..2] == [w[0], w[1]];
      Finishes(w, 2, VerbStep(MKCOL, 1, w[1]).1, to);
    } else {
      PathStep(MKCOL, 2, w[2..], to);
      WordLonger(MKCOL, 2, w, to);
      LenientSteps(w[2]);
      assert w[2..][1..] == w[3..] && w == [w[0], w[1], w[2]] + w[3..];
      if w[2] == 'A' {
        StrictLate();
        OnlyName(MKACTIVITY, 3, w[3..], to);
        assert w[2..] == "A" + w[3..] == "ACTIVITY";
      } else {
        AnyIs(MKCOL, 3, w[3..], to);
        MkcolLength();
      }
    }
  }

  lemma StrictLate()
    ensures Strict(MKACTIVITY, 3) && |MethodString(MKACTIVITY)| == 10
  {
  }

  lemma MkcolLength()
    ensures |MethodString(MKCOL)| == 5
  {
  }

  /** A word that is not a name yet goes on. */
  lemma WordLonger(m: Method, i: nat, w: string, to: Method)
    requires i <= |w| && VerbPath(m, i, w[i..], to) && (m == MKCOL || m == CONNECT) && i < 3
    ensures |w| > i
  {
    PathStep(m, i, w[i..], to);
    hide VerbPath, VerbStep;
  }

  lemma FirstStrict(ch: char)
    requires ch in "DGHLNORST"
    ensures var m := FirstLetter(ch); Strict(m, 1) && |MethodString(m)| >= 1 && MethodString(m)[..1] == [ch]
  {
    var m := FirstLetter(ch);
    assert MethodString(m)[0] == ch;
  }

  lemma FromOther(w: string, to: Method)
    requires w != "" && w[0] in "DGHLNORST" && VerbPath(FirstLetter(w[0]), 1, w[1..], to)
    ensures w == MethodString(to)
  {
    hide VerbPath, Strict, FirstLetter, MethodString;
    FirstStrict(w[0]);
    assert w[..1] == [w[0]];
    Finishes(w, 1, FirstLetter(w[0]), to);
  }

  /** Only the words that pass for a method lead to it. */
  lemma PathSpells(w: string, to: Method)
    requires w != "" && w[0] in "CDGHLMNOPRSTU" && VerbPath(FirstLetter(w[0]), 1, w[1..], to)
    ensures Spells(w, to)
  {
    hide VerbPath, MethodString;
    if w[0] == 'C' { FromConnect(w, to); }
    else if w[0] == 'M' { FromMkcol(w, to); }
    else if w[0] == 'P' { FromPost(w, to); }
    else if w[0] == 'U' { FromUnlock(w, to); }
    else { FromOther(w, to); }
  }

  // ---- the line ----

  lemma StartCases(p: Parser, ch: char)
    requires p.state == StartReq && ch != '\r' && ch != '\n' && Step(p, ch).Next?
    ensures var q := Step(p, ch).p;
      ch in "CDGHLMNOPRSTU" && q.state == ReqMethod && q.index == 1 && q.verb == FirstLetter(ch)
  {
    hide FirstLetter;
  }

  /** A message that no method begins is refused at its first byte, with the flags and the length of the last message
      forgotten, and its method, too, if the byte is a capital letter. */
  lemma StartRefused(p: Parser, ch: char)
    requires p.state == StartReq && p.nread < MAX_HEADER && ch != '\r' && ch != '\n' && ch !in "CDGHLMNOPRSTU"
    ensures Step(p, ch) == Error(
      p.(nread := p.nread + 1, flags := NO_FLAGS, contentLength := NO_LENGTH,
         verb := if ch in "ABCDEFGHIJKLMNOPQRSTUVWXYZ" then DELETE else p.verb), [MessageBegin])
  {
    Capitals(ch);
    hide FirstLetter;
  }

  lemma Capitals(ch: char)
    ensures ch in "ABCDEFGHIJKLMNOPQRSTUVWXYZ" <==> 'A' <= ch <= 'Z'
  {
    var all := "ABCDEFGHIJKLMNOPQRSTUVWXYZ";
    assert forall i :: 0 <= i < 26 ==> all[i] as int == 65 + i;
    if 'A' <= ch <= 'Z' {
      assert all[ch as int - 65] == ch;
    }
  }

  lemma LineOf(p: Parser, lead: string, t: string) returns (r: RequestLine)
    requires p.state == StartReq && Ends(p, t) && IsLead(lead) && t != "" && t[0] != '\r' && t[0] != '\n'
    ensures GoodRequestLine(r) && RequestLineText(r) == lead + t
  {
    hide Step, Ends, FirstLetter, VerbPath, Spells, UrlText, EndText, GoodTarget, GoodVersion;
    EndsStep(p, t);
    StartCases(p, t[0]);
    var s, m, rest, q := VerbIs(Step(p, t[0]).p, t[1..]);
    var w := [t[0]] + s;
    assert w[1..] == s;
    PathSpells(w, m);
    var gap, target, v, eol := UrlIs(q, rest);
    r := RequestLine(lead, w, m, gap, target, v, eol);
    MoreInFront(t[0], s, " " + rest);
    AllParts(lead, w, Spaces(gap), UrlText(target) + EndText(v, eol), rest);
  }

  lemma AllParts(lead: string, w: string, gap: string, url: string, rest: string)
    requires rest == gap + url
    ensures (lead + (w + " ") + gap) + url == lead + (w + (" " + rest))
  {
  }

  ghost predicate IsRequestLine(t: string) { exists r :: GoodRequestLine(r) && RequestLineText(r) == t }

  /** The parser reads a request line to its end if and only if it is one that can be printed, whatever line ends are in
      front of it. */
  lemma RequestLineExactly(c: Config, lead: string, t: string)
    requires c.p.state == StartReq && c.url == "" && c.part == "" && Room(c, |lead + t|) && IsLead(lead)
    requires OneLine(t) && t[0] != '\r' && t[0] != '\n'
    ensures (RunFrom(c, lead + t).Live? && RunFrom(c, lead + t).c.p.state == HeaderFieldStart)
            <==> IsRequestLine(lead + t)
  {
    hide RunFrom, Walk, GoodRequestLine, RequestLineText;
    var d := LeadRun(c, lead);
    RunAppend(c, lead, t);
    WalkIsRun(d, t);
    if RunFrom(c, lead + t).Live? && RunFrom(c, lead + t).c.p.state == HeaderFieldStart {
      var r := LineOf(d.p, lead, t);
    }
    if IsRequestLine(lead + t) {
      var r :| GoodRequestLine(r) && RequestLineText(r) == lead + t;
      var e := RequestLineRun(c, r);
    }
  }
}
