/** The header matcher, which looks at one character at a time, against comparison of whole strings.  */
module HttpHeaders {
  import opened HttpModel
  import opened HttpGrammar

  // ---- what a header line means ----

  /** `s` is the word, in any case, with only spaces after it. */
  predicate Says(s: string, word: string) {
    && |s| >= |word|
    && (forall j :: 0 <= j < |word| ==> Fold(s[j]) == word[j])
    && forall j :: |word| <= j < |s| ==> s[j] == ' '
  }

  predicate IsConnection(name: string) { Says(name, "connection") || Says(name, "proxy-connection") }

  predicate IsName(s: string) { s != "" && forall j :: 0 <= j < |s| ==> NameChar(s[j]) }

  predicate IsText(s: string) {
    && (s != "" ==> s[0] != ' ')
    && forall j :: 0 <= j < |s| ==> s[j] != CR && s[j] != LF
  }

  /** Digits with spaces anywhere between or after them, the first a digit. */
  predicate IsLength(s: string) {
    s != "" && Decimal(s[0]) && forall j :: 0 <= j < |s| ==> Decimal(s[j]) || s[j] == ' '
  }

  /** The number that the digits of `s` spell after `n`, in a size_t. */
  function LengthOf(n: nat, s: string): nat
    decreases |s|
  {
    if s == "" then n
    else LengthOf(if IsDigit(s[0]) then (n * 10 + DigitValue(s[0])) % SIZE_LIMIT else n, s[1..])
  }

  datatype Header = Header(name: string, value: string)

  /** A line that the parser accepts. */
  predicate Good(h: Header) {
    && IsName(h.name) && IsText(h.value)
    && (Says(h.name, "content-length") && h.value != "" ==> IsLength(h.value))
  }

  /** The fields of the parser that header lines set. */
  datatype Effect = Effect(flags: Flags, contentLength: nat)

  function Apply(e: Effect, h: Header): Effect {
    Effect(
      e.flags.(
        chunked := e.flags.chunked || (Says(h.name, "transfer-encoding") && Says(h.value, "chunked")),
        keepAlive := e.flags.keepAlive || (IsConnection(h.name) && Says(h.value, "keep-alive")),
        close := e.flags.close || (IsConnection(h.name) && Says(h.value, "close")),
        upgrade := e.flags.upgrade || (Says(h.name, "upgrade") && h.value != "")),
      if Says(h.name, "content-length") && h.value != "" then LengthOf(0, h.value) else e.contentLength)
  }

  // ---- the matcher over a whole name or value ----

  /** Names and values are lower-cased by different tables. */
  function Norm(name: bool, ch: char): char { if name then Token(ch) else Lower(ch) }

  /** The word, as these tables see it. */
  predicate Is(name: bool, s: string, word: string) {
    && |s| >= |word|
    && (forall j :: 0 <= j < |word| ==> Norm(name, s[j]) == word[j])
    && forall j :: |word| <= j < |s| ==> s[j] == ' '
  }

  predicate IsWord(word: string) { forall j :: 0 <= j < |word| ==> 'a' <= word[j] <= 'z' || word[j] == '-' }

  /** Both tables fold the letters, and of the rest only a CR could be taken for another character of a word. */
  lemma SaysIs(name: bool, s: string, word: string)
    requires IsWord(word) && (name || CR !in s)
    ensures Says(s, word) <==> Is(name, s, word)
  {
    forall j | 0 <= j < |word| && j < |s|
      ensures Norm(name, s[j]) == word[j] <==> Fold(s[j]) == word[j]
    {
      assert s[j] in s;
      FoldTable(s[j], word[j]);
      hide Fold, Token, Lower;
    }
  }

  lemma KnownWords()
    ensures IsWord("connection") && IsWord("proxy-connection") && IsWord("content-length")
    ensures IsWord("transfer-encoding") && IsWord("upgrade")
    ensures IsWord("chunked") && IsWord("keep-alive") && IsWord("close")
  {
  }

  function NameScan(h: HeaderState, index: nat, s: string): HeaderState
    requires NameState(h)
    decreases |s|
  {
    if s == "" then h else var (h', i) := NameStep(h, index, s[0]); NameScan(h', i, s[1..])
  }

  function ValueScan(h: HeaderState, index: nat, s: string): HeaderState
    decreases |s|
  {
    if s == "" then h else var (h', i) := ValueStep(h, index, s[0]); ValueScan(h', i, s[1..])
  }

  function Scan1(name: bool, h: HeaderState, index: nat, s: string): HeaderState
    requires name ==> NameState(h)
  {
    if name then NameScan(h, index, s) else ValueScan(h, index, s)
  }

  lemma IsTail(name: bool, s: string, word: string)
    requires word != ""
    ensures Is(name, s, word) <==> s != "" && Norm(name, s[0]) == word[0] && Is(name, s[1..], word[1..])
  {
    if s != "" {
      assert Is(name, s[1..], word[1..]) && Norm(name, s[0]) == word[0] ==> Is(name, s, word) by {
        assert forall j :: 0 < j < |s| ==> s[j] == s[1..][j-1];
        assert forall j :: 0 < j < |word| ==> word[j] == word[1..][j-1];
      }
    }
  }

  /** The word that a matching state is about, and the state once it is matched. */
  predicate Matcher(name: bool, h: HeaderState, word: string, done: HeaderState) {
    if name then
      || (h == MConnection && word == CONNECTION && done == HConnection)
      || (h == MProxyConnection && word == PROXY_CONNECTION && done == HConnection)
      || (h == MContentLength && word == CONTENT_LENGTH && done == HContentLength)
      || (h == MTransferEncoding && word == TRANSFER_ENCODING && done == HTransferEncoding)
      || (h == MUpgrade && word == UPGRADE && done == HUpgrade)
    else
      || (h == MChunked && word == CHUNKED && done == VChunked)
      || (h == MKeepAlive && word == KEEP_ALIVE && done == VKeepAlive)
      || (h == MClose && word == CLOSE && done == VClose)
  }

  predicate Readable(name: bool, s: string) {
    forall j :: 0 <= j < |s| ==> Norm(name, s[j]) != NUL
  }

  lemma {:induction false} GeneralStays(name: bool, index: nat, s: string)
    ensures Scan1(name, HGeneral, index, s) == HGeneral
    decreases |s|
  {
    if s != "" {
      GeneralStays(name, index, s[1..]);
    }
  }

  lemma {:induction false} DoneStays(name: bool, h: HeaderState, index: nat, s: string)
    requires if name then h.HConnection? || h.HContentLength? || h.HTransferEncoding? || h.HUpgrade?
             else h.VChunked? || h.VKeepAlive? || h.VClose?
    ensures Scan1(name, h, index, s) == if Is(name, s, "") then h else HGeneral
    decreases |s|
  {
    if s != "" {
      if s[0] == ' ' {
        DoneStays(name, h, index, s[1..]);
        assert Is(name, s[1..], "") ==> Is(name, s, "") by {
          assert forall j :: 0 < j < |s| ==> s[j] == s[1..][j-1];
        }
      } else {
        GeneralStays(name, index, s[1..]);
      }
    }
  }

  function Step1(name: bool, h: HeaderState, index: nat, ch: char): (r: (HeaderState, nat))
    requires name ==> NameState(h)
    ensures name ==> NameState(r.0)
  {
    if name then NameStep(h, index, ch) else ValueStep(h, index, ch)
  }

  lemma Scan1Step(name: bool, h: HeaderState, index: nat, s: string)
    requires (name ==> NameState(h)) && s != ""
    ensures var (h', i) := Step1(name, h, index, s[0]); Scan1(name, h, index, s) == Scan1(name, h', i, s[1..])
  {
    hide NameStep, ValueStep;
  }

  lemma MatchStep(name: bool, h: HeaderState, word: string, done: HeaderState, i: nat, ch: char)
    requires Matcher(name, h, word, done)
    ensures name ==> NameState(h) && NameState(done)
    ensures Step1(name, h, i, ch) == (MatchWord(word, i + 1, Norm(name, ch), h, done), i + 1)
    ensures done != HGeneral && h != HGeneral && done != h
    ensures if name then done.HConnection? || done.HContentLength? || done.HTransferEncoding? || done.HUpgrade?
            else done.VChunked? || done.VKeepAlive? || done.VClose?
  {
  }

  /** A matching state ends in `done` exactly when the rest of the word follows; otherwise it matches on
      or gives up. */
  lemma {:induction false} MatchRest(name: bool, h: HeaderState, word: string, done: HeaderState, i: nat, s: string)
    requires Matcher(name, h, word, done) && i < |word| - 1 && Readable(name, s)
    ensures name ==> NameState(h)
    ensures var r := Scan1(name, h, i, s);
      if Is(name, s, word[i+1..]) then r == done else r == h || r == HGeneral
    decreases |s|
  {
    MatchStep(name, h, word, done, i, 'a');
    hide Matcher, Step1, Scan1, MatchWord, Is, NameState;
    if s == "" {
      EmptyIsNot(name, word[i+1..]);
      Scan1Empty(name, h, i);
    } else {
      var c := Norm(name, s[0]);
      IsTail(name, s, word[i+1..]);
      assert word[i+1..][1..] == word[i+2..];
      Scan1Step(name, h, i, s);
      MatchStep(name, h, word, done, i, s[0]);
      MatchWordCases(word, i + 1, c, h, done);
      assert Readable(name, s[1..]);
      if c != word[i+1] {
        GeneralStays(name, i + 1, s[1..]);
      } else if i + 1 == |word| - 1 {
        assert word[i+2..] == "";
        DoneStays(name, done, i + 1, s[1..]);
      } else {
        MatchRest(name, h, word, done, i + 1, s[1..]);
      }
    }
  }

  lemma MatchWordCases(word: string, i: nat, c: char, h: HeaderState, done: HeaderState)
    requires i < |word|
    ensures MatchWord(word, i, c, h, done) ==
            if c != word[i] then HGeneral else if i == |word| - 1 then done else h
  {
  }

  lemma EmptyIsNot(name: bool, word: string)
    requires word != ""
    ensures !Is(name, "", word)
  {
  }

  lemma Scan1Empty(name: bool, h: HeaderState, i: nat)
    requires name ==> NameState(h)
    ensures Scan1(name, h, i, "") == h
  {
  }

  /** The header state after a whole name. */
  function NameVerdict(s: string): HeaderState
    requires s != ""
  {
    NameScan(FirstHeaderState(Token(s[0])), 0, s[1..])
  }

  predicate Tells(s: string, h: HeaderState) {
    && NameState(h)
    && (h == HConnection <==> IsConnection(s))
    && (h == HContentLength <==> Says(s, "content-length"))
    && (h == HTransferEncoding <==> Says(s, "transfer-encoding"))
    && (h == HUpgrade <==> Says(s, "upgrade"))
  }

  lemma Words(s: string)
    requires s != ""
    ensures Says(s, "connection") <==> Token(s[0]) == 'c' && Is(true, s[1..], CONNECTION[1..])
    ensures Says(s, "content-length") <==> Token(s[0]) == 'c' && Is(true, s[1..], CONTENT_LENGTH[1..])
    ensures Says(s, "proxy-connection") <==> Token(s[0]) == 'p' && Is(true, s[1..], PROXY_CONNECTION[1..])
    ensures Says(s, "transfer-encoding") <==> Token(s[0]) == 't' && Is(true, s[1..], TRANSFER_ENCODING[1..])
    ensures Says(s, "upgrade") <==> Token(s[0]) == 'u' && Is(true, s[1..], UPGRADE[1..])
  {
    KnownWords();
    hide Is, Says, Token, IsWord;
    SaysIs(true, s, "connection");
    SaysIs(true, s, "content-length");
    SaysIs(true, s, "proxy-connection");
    SaysIs(true, s, "transfer-encoding");
    SaysIs(true, s, "upgrade");
    IsTail(true, s, CONNECTION);
    IsTail(true, s, CONTENT_LENGTH);
    IsTail(true, s, PROXY_CONNECTION);
    IsTail(true, s, TRANSFER_ENCODING);
    IsTail(true, s, UPGRADE);
  }

  lemma TailReadable(s: string)
    requires IsName(s)
    ensures Readable(true, s[1..]) && Token(s[0]) != NUL
  {
    forall j | 0 <= j < |s|
      ensures Token(s[j]) != NUL
    {
      TokenTable(s[j]);
    }
  }

  /** After the c: connection, content-length or neither. */
  lemma AfterC(s: string)
    requires Readable(true, s)
    ensures var h := NameScan(HC, 0, s);
      && NameState(h) && h != HTransferEncoding && h != HUpgrade
      && (h == HConnection <==> Is(true, s, CONNECTION[1..]))
      && (h == HContentLength <==> Is(true, s, CONTENT_LENGTH[1..]))
  {
    hide Is, Token, MatchWord;
    IsTail(true, s, CONNECTION[1..]);
    IsTail(true, s, CONTENT_LENGTH[1..]);
    assert CONNECTION[1..][1..] == CONNECTION[2..] && CONTENT_LENGTH[1..][1..] == CONTENT_LENGTH[2..];
    if s != "" && Token(s[0]) == 'o' {
      AfterCO(s[1..]);
    } else if s != "" {
      GeneralStays(true, 1, s[1..]);
    }
  }

  lemma AfterCO(s: string)
    requires Readable(true, s)
    ensures var h := NameScan(HCO, 1, s);
      && NameState(h) && h != HTransferEncoding && h != HUpgrade
      && (h == HConnection <==> Is(true, s, CONNECTION[2..]))
      && (h == HContentLength <==> Is(true, s, CONTENT_LENGTH[2..]))
  {
    hide Is, Token, MatchWord;
    IsTail(true, s, CONNECTION[2..]);
    IsTail(true, s, CONTENT_LENGTH[2..]);
    assert CONNECTION[2..][1..] == CONNECTION[3..] && CONTENT_LENGTH[2..][1..] == CONTENT_LENGTH[3..];
    if s != "" && Token(s[0]) == 'n' {
      AfterCON(s[1..]);
    } else if s != "" {
      GeneralStays(true, 2, s[1..]);
    }
  }

  lemma AfterCON(s: string)
    requires Readable(true, s)
    ensures var h := NameScan(HCON, 2, s);
      && NameState(h) && h != HTransferEncoding && h != HUpgrade
      && (h == HConnection <==> Is(true, s, CONNECTION[3..]))
      && (h == HContentLength <==> Is(true, s, CONTENT_LENGTH[3..]))
  {
    hide Is, Token, MatchWord;
    IsTail(true, s, CONNECTION[3..]);
    IsTail(true, s, CONTENT_LENGTH[3..]);
    assert CONNECTION[3..][1..] == CONNECTION[4..] && CONTENT_LENGTH[3..][1..] == CONTENT_LENGTH[4..];
    if s != "" {
      assert Readable(true, s[1..]);
      var c := Token(s[0]);
      if c == 'n' {
        MatchRest(true, MConnection, CONNECTION, HConnection, 3, s[1..]);
      } else if c == 't' {
        MatchRest(true, MContentLength, CONTENT_LENGTH, HContentLength, 3, s[1..]);
      } else {
        GeneralStays(true, 3, s[1..]);
      }
    }
  }

  /** The incremental matcher recognises a name exactly when it is one of the five. */
  lemma NameMatched(s: string)
    requires IsName(s)
    ensures Tells(s, NameVerdict(s))
  {
    hide Is, Says, Token, MatchWord, NameChar;
    Words(s);
    TailReadable(s);
    var c, rest := Token(s[0]), s[1..];
    if c == 'c' {
      AfterC(rest);
    } else if c == 'p' {
      MatchRest(true, MProxyConnection, PROXY_CONNECTION, HConnection, 0, rest);
    } else if c == 't' {
      MatchRest(true, MTransferEncoding, TRANSFER_ENCODING, HTransferEncoding, 0, rest);
    } else if c == 'u' {
      MatchRest(true, MUpgrade, UPGRADE, HUpgrade, 0, rest);
    } else {
      GeneralStays(true, 0, rest);
    }
    hide NameScan;
  }

  // ---- values ----

  /** The header state after the first character of a value, for names other than Content-Length. */
  function FirstValueState(h: HeaderState, ch: char): HeaderState {
    if h == HTransferEncoding && Lower(ch) == 'c' then MChunked
    else if h == HConnection && Lower(ch) == 'k' then MKeepAlive
    else if h == HConnection && Lower(ch) == 'c' then MClose
    else HGeneral
  }

  lemma LowerReadable(s: string)
    ensures Readable(false, s)
  {
  }

  /** The flag that a line leaves behind is the one its value names. */
  lemma ValueMatched(h: HeaderState, s: string)
    requires s != "" && CR !in s
    ensures var r := ValueScan(FirstValueState(h, s[0]), 0, s[1..]);
      && (r == VChunked <==> h == HTransferEncoding && Says(s, "chunked"))
      && (r == VKeepAlive <==> h == HConnection && Says(s, "keep-alive"))
      && (r == VClose <==> h == HConnection && Says(s, "close"))
  {
    KnownWords();
    hide Is, Says, IsWord, MatchWord, Lower;
    SaysIs(false, s, "chunked");
    SaysIs(false, s, "keep-alive");
    SaysIs(false, s, "close");
    IsTail(false, s, CHUNKED);
    IsTail(false, s, KEEP_ALIVE);
    IsTail(false, s, CLOSE);
    LowerReadable(s[1..]);
    var c, rest := Lower(s[0]), s[1..];
    if h == HTransferEncoding && c == 'c' {
      MatchRest(false, MChunked, CHUNKED, VChunked, 0, rest);
    } else if h == HConnection && c == 'k' {
      MatchRest(false, MKeepAlive, KEEP_ALIVE, VKeepAlive, 0, rest);
    } else if h == HConnection && c == 'c' {
      MatchRest(false, MClose, CLOSE, VClose, 0, rest);
    } else {
      GeneralStays(false, 0, rest);
    }
    hide ValueScan;
  }
}
