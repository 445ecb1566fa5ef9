/** Length-prefixed messages over a stream that fragments at will, and the command parser at the receiving end.
    A char stands for a byte. */
module Frames {
  import opened Wrappers

  // ---- the operations ----

  datatype OpCode = CONNECT | SUBSCRIBE | STAT | ADD | FLUSH | DISCONNECT | UNSUBSCRIBE | GETLOGS | UNKNOWN

  datatype Op = Op(code: OpCode, name: Option<string>, reply: string, requiresAuth: bool)

  const OPS: seq<Op> := [
    Op(CONNECT, Some("connect"), "client connected", false),
    Op(SUBSCRIBE, Some("subscribe"), "client subscribed", true),
    Op(STAT, Some("stat"), "received stats", true),
    Op(ADD, Some("add"), "log added", true),
    Op(FLUSH, Some("flush"), "logs flushed", true),
    Op(DISCONNECT, Some("disconnect"), "client disconnected", true),
    Op(UNSUBSCRIBE, Some("unsubcribe"), "client unsubscribed", true),
    Op(GETLOGS, Some("getlogs"), "logs received", true),
    Op(UNKNOWN, None, "unknown command", false)]

  const UNKNOWN_AT: nat := 8

  lemma NamesDiffer(i: nat, j: nat)
    requires i < |OPS| && j < |OPS| && OPS[i].name.Some? && OPS[i].name == OPS[j].name
    ensures i == j
  {
  }

  method GetOp(code: OpCode) returns (at: nat)
    ensures at < |OPS| && OPS[at].code == code
  {
    assert OPS[UNKNOWN_AT].code == UNKNOWN;
    at := 0;
    while at < |OPS|
      invariant at <= |OPS|
      invariant forall k :: 0 <= k < at ==> OPS[k].code != code
    {
      if OPS[at].code == code {
        return;
      }
      at := at + 1;
    }
    at := UNKNOWN_AT;
    EveryCode(code);
  }

  lemma EveryCode(code: OpCode)
    ensures exists k :: 0 <= k < |OPS| && OPS[k].code == code
  {
    match code
    case CONNECT => assert OPS[0].code == code;
    case SUBSCRIBE => assert OPS[1].code == code;
    case STAT => assert OPS[2].code == code;
    case ADD => assert OPS[3].code == code;
    case FLUSH => assert OPS[4].code == code;
    case DISCONNECT => assert OPS[5].code == code;
    case UNSUBSCRIBE => assert OPS[6].code == code;
    case GETLOGS => assert OPS[7].code == code;
    case UNKNOWN => assert OPS[8].code == code;
  }

  method GetOpByStr(str: string) returns (at: nat)
    ensures at < |OPS|
    ensures at != UNKNOWN_AT ==> OPS[at].name == Some(str)
    ensures at == UNKNOWN_AT <==> forall k :: 0 <= k < |OPS| ==> OPS[k].name != Some(str)
  {
    at := 0;
    while at < |OPS|
      invariant at <= |OPS|
      invariant forall k :: 0 <= k < at ==> OPS[k].name != Some(str)
    {
      if OPS[at].name.Some? && str == OPS[at].name.value {
        assert OPS[UNKNOWN_AT].name.None?;
        return;
      }
      at := at + 1;
    }
    at := UNKNOWN_AT;
  }

  // ---- the stream ----

  /** The bytes under way in one direction. A transfer may stop anywhere, or fail and set `faulty`; an empty stream
      is one whose sender has closed it. */
  class Socket {
    var queue: string
    var faulty: bool

    constructor ()
      ensures queue == "" && !faulty
    {
      queue, faulty := "", false;
    }

    method Send(data: string) returns (n: int)
      requires data != ""
      modifies this
      ensures n == -1 || 0 < n <= |data|
      ensures faulty == (old(faulty) || n == -1)
      ensures queue == old(queue) + data[..if n == -1 then 0 else n]
    {
      if * {
        n, faulty := -1, true;
      } else {
        assert 0 < 1 <= |data|;
        n :| 0 < n <= |data|;
        queue := queue + data[..n];
      }
    }

    method Recv(buf: array<char>, at: nat, len: nat) returns (n: int)
      requires 0 < len && at + len <= buf.Length
      modifies this, buf
      ensures n == -1 || (n == 0 && old(queue) == "") || 0 < n <= len
      ensures faulty == (old(faulty) || n == -1)
      ensures n <= |old(queue)| && queue == old(queue)[if n == -1 then 0 else n..]
      ensures forall k :: 0 <= k < buf.Length ==>
        buf[k] == if at <= k < at + n then old(queue)[k - at] else old(buf[k])
    {
      if * {
        n, faulty := -1, true;
      } else if queue == "" {
        n := 0;
      } else {
        assert 0 < 1 <= len && 1 <= |queue|;
        n :| 0 < n <= len && n <= |queue|;
        forall k | at <= k < at + n {
          buf[k] := queue[k - at];
        }
        queue := queue[n..];
      }
    }
  }

  method XSend(s: Socket, data: string) returns (total: int)
    modifies s
    ensures s.faulty == (old(s.faulty) || total == -1)
    ensures total != -1 ==> total == |data| && s.queue == old(s.queue) + data
    ensures old(s.queue) <= s.queue <= old(s.queue) + data
  {
    total := 0;
    while total < |data|
      invariant 0 <= total <= |data|
      invariant s.faulty == old(s.faulty)
      invariant s.queue == old(s.queue) + data[..total]
    {
      var sent := s.Send(data[total..]);
      assert data[..total] + data[total..][..if sent == -1 then 0 else sent] ==
             data[..total + if sent == -1 then 0 else sent];
      if sent < 0 {
        total := -1;
        return;
      }
      total := total + sent;
    }
  }

  /** The length as four bytes, the most significant first; the length itself is cut to 32 bits. */
  function Header(len: nat): (h: string)
    ensures |h| == 4
  {
    var n := len % 0x1_0000_0000;
    [(n / 0x100_0000) as char, (n / 0x1_0000 % 0x100) as char, (n / 0x100 % 0x100) as char, (n % 0x100) as char]
  }

  function Length(h: string): nat
    requires |h| == 4
  {
    h[0] as int * 0x100_0000 + h[1] as int * 0x1_0000 + h[2] as int * 0x100 + h[3] as int
  }

  /** ntohl undoes htonl on every length that fits. */
  lemma LengthOfHeader(len: nat)
    ensures Length(Header(len)) == len % 0x1_0000_0000
  {
    var n := len % 0x1_0000_0000;
    assert n / 0x100 == n / 0x1_0000 * 0x100 + n / 0x100 % 0x100;
    assert n / 0x1_0000 == n / 0x100_0000 * 0x100 + n / 0x1_0000 % 0x100;
  }

  function Frame(m: string): string { Header(|m|) + m }

  method SendData(s: Socket, data: string) returns (r: int)
    modifies s
    ensures s.faulty == (old(s.faulty) || r == -1)
    ensures r != -1 ==> r == |data| && s.queue == old(s.queue) + Frame(data)
    ensures old(s.queue) <= s.queue <= old(s.queue) + Frame(data)
  {
    r := XSend(s, Header(|data|));
    if r < 0 {
      assert old(s.queue) + Header(|data|) <= old(s.queue) + Frame(data) by {
        assert old(s.queue) + Frame(data) == (old(s.queue) + Header(|data|)) + data;
      }
      return;
    }
    assert (old(s.queue) + Header(|data|)) + data == old(s.queue) + Frame(data);
    r := XSend(s, data);
  }

  predicate Received(buf: string, was: string, got: string) {
    |buf| == |was| && |got| <= |buf| && buf == got + was[|got|..]
  }

  method XRecv(s: Socket, buf: array<char>, len: nat) returns (total: int)
    requires len <= buf.Length
    modifies s, buf
    ensures s.faulty == (old(s.faulty) || total == -1)
    ensures |s.queue| <= |old(s.queue)|
    ensures total != -1 ==>
      && total == (if len <= |old(s.queue)| then len else |old(s.queue)|)
      && s.queue == old(s.queue)[total..]
      && Received(buf[..], old(buf[..]), old(s.queue)[..total])
  {
    total := 0;
    while total < len
      invariant 0 <= total <= len && total <= |old(s.queue)|
      invariant s.faulty == old(s.faulty)
      invariant s.queue == old(s.queue)[total..]
      invariant forall k :: 0 <= k < buf.Length ==> buf[k] == if k < total then old(s.queue)[k] else old(buf[k])
    {
      var n := s.Recv(buf, total, len - total);
      if n == 0 {
        break;
      } else if n < 0 {
        total := -1;
        return;
      }
      total := total + n;
    }
    assert buf[..] == old(s.queue)[..total] + old(buf[..])[total..];
  }

  method RecvData(s: Socket, buf: array<char>) returns (r: int)
    modifies s, buf
    ensures old(s.faulty) ==> s.faulty
    ensures s.faulty && !old(s.faulty) ==> r == -1
    ensures r > 0 ==> |s.queue| < |old(s.queue)|
    ensures !s.faulty && |old(s.queue)| < 4 ==> r <= 0 && s.queue == "" && buf[..] == old(buf[..])
    ensures !s.faulty && |old(s.queue)| >= 4 ==>
      var size := Length(old(s.queue)[..4]);
      var data := old(s.queue)[4..];
      if size > buf.Length then r == -1 && s.queue == data && buf[..] == old(buf[..])
      else
        && r == (if size <= |data| then size else |data|)
        && s.queue == data[r..] && Received(buf[..], old(buf[..]), data[..r])
  {
    var header := new char[4];
    r := XRecv(s, header, 4);
    if r < 0 {
      return;
    }
    assert r == 4 ==> header[..] == old(s.queue)[..4];
    var size := Length(header[..]);
    if size > buf.Length {
      r := -1;
      return;
    }
    r := XRecv(s, buf, size);
  }

  // ---- commands ----

  /** The text of a C string: everything before the first NUL. */
  function CString(s: string): (t: string)
    requires '\0' in s
    ensures |t| < |s| && t == s[..|t|] && s[|t|] == '\0' && '\0' !in t
  {
    if s[0] == '\0' then "" else [s[0]] + CString(s[1..])
  }

  /** Where a char first occurs. */
  function IndexOf(s: string, c: char): (i: nat)
    requires c in s
    ensures i < |s| && s[i] == c && c !in s[..i]
  {
    if s[0] == c then 0 else 1 + IndexOf(s[1..], c)
  }

  datatype Command = Command(op: nat, data: Option<string>)

  /** What parse_command makes of a text: the word before the first space must be the name of the operation. */
  ghost predicate Parses(text: string, len: int, c: Command, dataLen: int) {
    var word := if ' ' in text then text[..IndexOf(text, ' ')] else text;
    && c.op < |OPS|
    && (c.op != UNKNOWN_AT ==> OPS[c.op].name == Some(word))
    && (c.op == UNKNOWN_AT ==> forall k :: 0 <= k < |OPS| ==> OPS[k].name != Some(word))
    && c.data == (if ' ' in text then Some(text[|word| + 1..]) else None)
    && dataLen == len - if ' ' in text then |word| + 1 else 0
  }

  /** Where the table has a name. */
  function OpOf(word: string, at: nat): (r: nat)
    requires at <= |OPS|
    ensures r < |OPS| && (r != UNKNOWN_AT ==> OPS[r].name == Some(word))
    ensures r == UNKNOWN_AT ==> forall k :: at <= k < |OPS| ==> OPS[k].name != Some(word)
    decreases |OPS| - at
  {
    assert OPS[UNKNOWN_AT].name.None?;
    if at == |OPS| then UNKNOWN_AT else if OPS[at].name == Some(word) then at else OpOf(word, at + 1)
  }

  /** What the parser makes of a text, as a value. */
  function Meaning(text: string, len: nat): (r: (Command, nat))
    requires |text| <= len
    ensures Parses(text, len, r.0, r.1)
  {
    if ' ' in text then
      var at := IndexOf(text, ' ');
      (Command(OpOf(text[..at], 0), Some(text[at + 1..])), len - (at + 1))
    else
      (Command(OpOf(text, 0), None), len)
  }

  lemma ParsesOnce(text: string, len: int, c: Command, n: int, d: Command, m: int)
    requires Parses(text, len, c, n) && Parses(text, len, d, m)
    ensures c == d && n == m
  {
    if c.op != UNKNOWN_AT && d.op != UNKNOWN_AT {
      NamesDiffer(c.op, d.op);
    }
  }

  method ParseCommand(buf: array<char>, len: int) returns (c: Command, dataLen: int)
    requires '\0' in buf[..]
    ensures Parses(CString(buf[..]), len, c, dataLen)
  {
    hide CString, IndexOf, OPS;
    var command := CString(buf[..]);
    var data: Option<string> := None;
    dataLen := len;
    if ' ' in command {
      var line := IndexOf(command, ' ');
      data := Some(command[line + 1..]);
      command := command[..line];
      dataLen := dataLen - (|command| + 1);
    }
    var op := GetOpByStr(command);
    c := Command(op, data);
  }

  /** The text a client sends: the name, and after a space the payload. */
  function Text(c: Command): string
    requires c.op < UNKNOWN_AT
  {
    OPS[c.op].name.value + if c.data.Some? then " " + c.data.value else ""
  }

  /** What the parser reports for it: without a payload, the length is that of the text. */
  function Report(c: Command): (Command, int)
    requires c.op < UNKNOWN_AT
  {
    (c, if c.data.Some? then |c.data.value| else |Text(c)|)
  }

  /** A command that a client can send: a known operation, no NUL, and room for the terminator. */
  predicate Sendable(c: Command) {
    c.op < UNKNOWN_AT && |Text(c)| <= 1023 && (c.data.Some? ==> '\0' !in c.data.value)
  }

  lemma NameIsOneWord(op: nat)
    requires op < UNKNOWN_AT
    ensures OPS[op].name.Some? && OPS[op].name.value != ""
    ensures ' ' !in OPS[op].name.value && '\0' !in OPS[op].name.value
  {
  }

  lemma FirstAt(s: string, c: char, at: nat)
    requires at < |s| && s[at] == c && c !in s[..at]
    ensures c in s && IndexOf(s, c) == at
  {
  }

  lemma TextParses(c: Command)
    requires Sendable(c)
    ensures Parses(Text(c), |Text(c)|, Report(c).0, Report(c).1)
  {
    var text, name := Text(c), OPS[c.op].name.value;
    NameIsOneWord(c.op);
    if c.data.Some? {
      assert text[..|name|] == name && text[|name|] == ' ' && text[|name| + 1..] == c.data.value;
      FirstAt(text, ' ', |name|);
    } else {
      assert text == name;
    }
  }

  /** The parser recovers every command from its text: the operation, the payload and its length. */
  lemma ParsesBack(c: Command, got: Command, dataLen: int)
    requires Sendable(c) && Parses(Text(c), |Text(c)|, got, dataLen)
    ensures (got, dataLen) == Report(c)
  {
    hide Parses, Text;
    TextParses(c);
    ParsesOnce(Text(c), |Text(c)|, got, dataLen, Report(c).0, Report(c).1);
  }

  lemma TextHasNoNul(c: Command)
    requires Sendable(c)
    ensures '\0' !in Text(c) && Text(c) != ""
  {
    NameIsOneWord(c.op);
  }

  const COMMAND_SIZE := 1024

  /** The message at the head of a stream, cut short where the stream ends, and what is behind it. */
  function Incoming(q: string): string
    requires |q| >= 4
  {
    if Length(q[..4]) <= |q| - 4 then q[4..][..Length(q[..4])] else q[4..]
  }

  function Behind(q: string): string
    requires |q| >= 4
  {
    q[4..][|Incoming(q)|..]
  }

  /** The server hangs up on the end of the stream, on an empty message and on one that is too long. */
  predicate Refused(q: string) { |q| < 4 || Length(q[..4]) > 1024 || Incoming(q) == "" }

  /** A message that leaves no terminator in the buffer: the parser reads on behind it. */
  predicate Unterminated(m: string) { |m| == 1024 && '\0' !in m }

  lemma CStringAppend(s: string, t: string)
    requires '\0' in s
    ensures '\0' in s + t && CString(s + t) == CString(s)
  {
    var v := CString(s);
    assert (s + t)[|v|] == '\0' && (s + t)[..|v|] == v;
    assert forall k :: 0 <= k < |v| ==> (s + t)[k] == v[k];
  }

  /** What the buffer holds after any message: up to the first NUL of the message, or all of it. */
  function Held(m: string): (t: string)
    ensures |t| <= |m| && ('\0' !in m ==> t == m)
  {
    assert forall k :: 0 <= k < |m| ==> (m + "\0")[k] == m[k];
    CString(m + "\0")
  }

  /** A message shorter than the buffer, or with a NUL of its own, leaves a C string in a zeroed buffer; no other
      does. */
  lemma Terminated(buf: string, was: string, m: string)
    requires Received(buf, was, m) && forall k :: 0 <= k < |was| ==> was[k] == '\0'
    ensures '\0' in buf <==> |m| < |buf| || '\0' in m
    ensures '\0' in buf ==> CString(buf) == Held(m)
  {
    if |m| < |buf| {
      var rest := was[|m|..];
      assert rest == "\0" + rest[1..];
      assert buf == m + "\0" + rest[1..];
      CStringAppend(m + "\0", rest[1..]);
    } else {
      assert buf == m;
      if '\0' in m {
        CStringAppend(m, "\0");
      }
    }
  }

  /** Hung up, lost to a text without an end, or a command with its length. */
  datatype Reception = Nothing | Overrun | Got(command: Command, len: nat)

  function Understood(m: string): (r: (Command, nat))
    ensures r.0.op < |OPS|
  {
    Meaning(Held(m), |m|)
  }

  /** The beginning of get_command: one message into a zeroed buffer, parsed. */
  method Receive(s: Socket) returns (r: Reception)
    requires !s.faulty
    modifies s
    ensures s.faulty ==> r.Nothing?
    ensures !s.faulty ==>
      var q := old(s.queue);
      && (r.Nothing? <==> Refused(q)) && (r.Overrun? <==> !Refused(q) && Unterminated(Incoming(q)))
      && (r.Got? ==> (r.command, r.len) == Understood(Incoming(q))) && (!r.Nothing? ==> s.queue == Behind(q))
  {
    hide Length, Meaning;
    var buffer := new char[COMMAND_SIZE](_ => '\0');
    ghost var was := buffer[..];
    var size := RecvData(s, buffer);
    if size <= 0 {
      return Nothing;
    }
    ghost var m := Incoming(old(s.queue));
    Terminated(buffer[..], was, m);
    if '\0' !in buffer[..] {
      return Overrun;
    }
    var command, dataLen := ParseCommand(buffer, size);
    ParsesOnce(Held(m), |m|, command, dataLen, Understood(m).0, Understood(m).1);
    r := Got(command, dataLen);
  }

  lemma BareSendable(op: nat)
    requires op < UNKNOWN_AT
    ensures Sendable(Command(op, None))
  {
    NameIsOneWord(op);
  }

  /** The server gets back what a client sends. */
  lemma SentUnderstood(c: Command, later: string)
    requires Sendable(c)
    ensures var q := Frame(Text(c)) + later;
      && !Refused(q) && Incoming(q) == Text(c) && Behind(q) == later
    ensures !Unterminated(Text(c)) && Understood(Text(c)) == Report(c)
  {
    TextHasNoNul(c);
    FrameParts(Text(c), later);
    var (got, len) := Understood(Text(c));
    ParsesBack(c, got, len);
  }

  /** A message that the end of the stream cuts short is taken for what has arrived of it. */
  lemma CutShort(m: string, k: nat)
    requires 0 < k <= |m| <= COMMAND_SIZE
    ensures var q := Frame(m)[..4 + k]; !Refused(q) && Incoming(q) == m[..k] && Behind(q) == ""
  {
    hide Header, Length;
    LengthOfHeader(|m|);
    var q := Frame(m)[..4 + k];
    assert q[..4] == Header(|m|) && q[4..] == m[..k];
  }

  lemma FrameParts(m: string, later: string)
    requires |m| < 0x1_0000_0000
    ensures var q := Frame(m) + later;
            && |q| >= 4 && Length(q[..4]) == |m| && |q[4..]| >= |m| && q[4..][..|m|] == m && q[4..][|m|..] == later
  {
    LengthOfHeader(|m|);
    var q := Frame(m) + later;
    assert q[..4] == Header(|m|);
    assert q[4..] == m + later;
  }

  // ---- end to end ----

  predicate AllSendable(cs: seq<Command>) { forall i :: 0 <= i < |cs| ==> Sendable(cs[i]) }

  /** The stream that a list of commands makes. */
  function Stream(cs: seq<Command>): string
    requires AllSendable(cs)
  {
    if cs == [] then "" else Frame(Text(cs[0])) + Stream(cs[1..])
  }

  lemma {:induction false} StreamSnoc(cs: seq<Command>, c: Command)
    requires AllSendable(cs) && Sendable(c)
    ensures Stream(cs + [c]) == Stream(cs) + Frame(Text(c))
  {
    hide Frame, Text, Sendable;
    if cs == [] {
      assert cs + [c] == [c] && [c][1..] == [];
    } else {
      assert (cs + [c])[0] == cs[0] && (cs + [c])[1..] == cs[1..] + [c];
      StreamSnoc(cs[1..], c);
    }
  }

  /** The client's side: each call sends one command. */
  method SendCommands(s: Socket, cs: seq<Command>)
    requires s.queue == "" && !s.faulty && AllSendable(cs)
    modifies s
    ensures !s.faulty ==> s.queue == Stream(cs)
  {
    hide Text, Frame;
    for i := 0 to |cs|
      invariant !s.faulty && s.queue == Stream(cs[..i])
    {
      var sent := SendData(s, Text(cs[i]));
      if sent < 0 {
        return;
      }
      StreamSnoc(cs[..i], cs[i]);
      assert cs[..i + 1] == cs[..i] + [cs[i]];
    }
    assert cs[..|cs|] == cs;
  }

  // ---- what the server makes of a command ----

  const LINE_SIZE := 256
  const MAX_CACHES := 20

  /** The names of the services that are known, and the one that the client has connected to. */
  datatype Session = Session(caches: seq<string>, cache: Option<string>)

  const NEW_SESSION := Session([], None)

  /** `Crash` stands for reading through a null pointer. */
  datatype Answer = Answer(next: Session, ok: bool, reply: string) | Crash

  predicate Printable(s: string) { forall i :: 0 <= i < |s| ==> ' ' <= s[i] <= '~' }

  /** The argument is checked over its length; the terminator is not printable. */
  predicate ValidArg(line: string, len: int) { 0 <= len <= |line| && Printable(line[..len]) }

  /** A known service is found again; a new one needs a free place. */
  function Joined(s: Session, name: string): (Session, bool) {
    if name in s.caches then (s.(cache := Some(name)), true)
    else if |s.caches| == MAX_CACHES then (s, false)
    else (Session(s.caches + [name], Some(name)), true)
  }

  predicate Joining(code: OpCode) { code == CONNECT || code == SUBSCRIBE }

  /** get_command after the parser, in the order of its checks. */
  function Handle(s: Session, c: Command, len: int): Answer
    requires c.op < |OPS|
  {
    var op := OPS[c.op];
    if len > LINE_SIZE then Answer(s, false, "message too long")
    else if op.requiresAuth && s.cache.None? then Crash
    else if c.data.Some? && !ValidArg(c.data.value, len) then Answer(s, false, "invalid argument provided")
    else if Joining(op.code) then
      if c.data.None? then Crash else Answer(Joined(s, c.data.value).0, Joined(s, c.data.value).1, op.reply)
    else Answer(s, op.code != UNKNOWN, op.reply)
  }

  function Response(ok: bool, reply: string): string { (if ok then "" else "FAILED: ") + reply }

  /** A response is sent as a whole line, filled up with NULs. */
  function Pad(t: string): (r: string)
    requires |t| < LINE_SIZE
    ensures |r| == LINE_SIZE && r[..|t|] == t && r[|t|] == '\0'
  {
    t + seq(LINE_SIZE - |t|, _ => '\0')
  }

  lemma ResponseFits(s: Session, c: Command, len: int)
    requires c.op < |OPS| && Handle(s, c, len).Answer?
    ensures var a := Handle(s, c, len); |Response(a.ok, a.reply)| < LINE_SIZE && '\0' !in Response(a.ok, a.reply)
  {
    hide Handle, Response, OPS;
    var a := Handle(s, c, len);
    HandleReply(s, c, len);
    ShortResponse(a.ok, a.reply);
  }

  lemma ShortResponse(ok: bool, reply: string)
    requires |reply| < 30 && '\0' !in reply
    ensures |Response(ok, reply)| < LINE_SIZE && '\0' !in Response(ok, reply)
  {
  }

  lemma HandleReply(s: Session, c: Command, len: int)
    requires c.op < |OPS| && Handle(s, c, len).Answer?
    ensures var a := Handle(s, c, len); |a.reply| < 30 && '\0' !in a.reply
  {
    hide Joined, ValidArg, OPS;
    ReplyFits(c.op);
  }

  lemma ReplyFits(op: nat)
    requires op < |OPS|
    ensures |OPS[op].reply| < 30 && '\0' !in OPS[op].reply
  {
    if op < 3 {
      EarlyReplies(op);
    } else if op < 6 {
      MiddleReplies(op);
    } else {
      LateReplies(op);
    }
  }

  lemma EarlyReplies(op: nat)
    requires op < 3
    ensures |OPS[op].reply| < 30 && '\0' !in OPS[op].reply
  {
  }

  lemma MiddleReplies(op: nat)
    requires 3 <= op < 6
    ensures |OPS[op].reply| < 30 && '\0' !in OPS[op].reply
  {
  }

  lemma LateReplies(op: nat)
    requires 6 <= op < 9
    ensures |OPS[op].reply| < 30 && '\0' !in OPS[op].reply
  {
  }

  /** What the server turns down: a message over 256 bytes, an argument with an invalid character or a length beyond its
      text, an unknown operation, and a new service when there are twenty. */
  predicate Refuses(s: Session, c: Command, len: int)
    requires c.op < |OPS|
  {
    || len > 256
    || (c.data.Some? && (len < 0 || len > |c.data.value|
                         || exists i :: 0 <= i < len && !(' ' <= c.data.value[i] <= '~')))
    || c.op == UNKNOWN_AT
    || (OPS[c.op].code in {CONNECT, SUBSCRIBE} && c.data.Some? && c.data.value !in s.caches && |s.caches| == 20)
  }

  predicate StartsWith(text: string, start: string) { start <= text }

  /** A response begins with "FAILED: " if and only if the command was refused; what follows, or else the whole of it,
      says why, or is the reply of the operation. */
  lemma FailedExactly(s: Session, c: Command, len: int)
    requires c.op < |OPS| && Handle(s, c, len).Answer?
    ensures var text := Response(Handle(s, c, len).ok, Handle(s, c, len).reply);
      && (StartsWith(text, "FAILED: ") <==> Refuses(s, c, len))
      && (len > 256 ==> text == "FAILED: " + "message too long")
      && (len <= 256 && c.data.Some? && !ValidArg(c.data.value, len) ==>
            text == "FAILED: " + "invalid argument provided")
      && (!Refuses(s, c, len) ==> text == OPS[c.op].reply)
  {
    hide Handle, Response, Refuses, ValidArg, OPS, StartsWith;
    RefusesExactly(s, c, len);
    FailedText(Handle(s, c, len).ok, Handle(s, c, len).reply);
  }

  lemma FailedText(ok: bool, reply: string)
    requires reply != "" && reply[0] != 'F'
    ensures StartsWith(Response(ok, reply), "FAILED: ") <==> !ok
    ensures Response(ok, reply) == if ok then reply else "FAILED: " + reply
  {
    assert StartsWith("FAILED: " + reply, "FAILED: ");
    assert "" + reply == reply;
    assert "FAILED: "[0] == 'F';
  }

  lemma RefusesExactly(s: Session, c: Command, len: int)
    requires c.op < |OPS| && Handle(s, c, len).Answer?
    ensures var a := Handle(s, c, len);
      && (a.ok <==> !Refuses(s, c, len)) && a.reply != "" && a.reply[0] != 'F'
      && (len > 256 ==> !a.ok && a.reply == "message too long")
      && (len <= 256 && c.data.Some? && !ValidArg(c.data.value, len) ==>
            !a.ok && a.reply == "invalid argument provided")
      && (a.ok ==> a.reply == OPS[c.op].reply)
  {
    ArgumentExactly(c, len);
    NoReplyFails(c.op);
    CodeAt(c.op);
    hide ValidArg, OPS;
  }

  lemma CodeAt(op: nat)
    requires op < |OPS|
    ensures OPS[op].code == UNKNOWN <==> op == UNKNOWN_AT
  {
  }

  lemma ArgumentExactly(c: Command, len: int)
    ensures c.data.Some? ==>
      (ValidArg(c.data.value, len) <==>
        0 <= len <= |c.data.value| && !exists i :: 0 <= i < len && !(' ' <= c.data.value[i] <= '~'))
  {
    if c.data.Some? && 0 <= len <= |c.data.value| {
      assert forall i :: 0 <= i < len ==> c.data.value[..len][i] == c.data.value[i];
    }
  }

  lemma NoReplyFails(op: nat)
    requires op < |OPS|
    ensures OPS[op].reply != "" && OPS[op].reply[0] != 'F'
  {
  }

  /** The responses to a list of commands, up to the one that the server does not survive. */
  function Replies(s: Session, cs: seq<Command>): (rs: seq<string>)
    requires AllSendable(cs)
    ensures |rs| <= |cs|
    ensures forall i :: 0 <= i < |rs| ==> |rs[i]| < LINE_SIZE && '\0' !in rs[i]
    decreases |cs|
  {
    if cs == [] then []
    else
      var (c, len) := Report(cs[0]);
      var a := Handle(s, c, len);
      if a.Crash? then []
      else
        ResponseFits(s, c, len);
        [Response(a.ok, a.reply)] + Replies(a.next, cs[1..])
  }

  function EndOf(s: Session, cs: seq<Command>): Session
    requires AllSendable(cs)
    decreases |cs|
  {
    if cs == [] then s
    else
      var a := Handle(s, Report(cs[0]).0, Report(cs[0]).1);
      if a.Crash? then s else EndOf(a.next, cs[1..])
  }

  // ---- which clients the server survives ----

  predicate TooLong(c: Command)
    requires c.op < UNKNOWN_AT
  {
    Report(c).1 > LINE_SIZE
  }

  /** The command is turned down for its length, or it names a service if it needs one. */
  predicate Named(c: Command)
    requires c.op < UNKNOWN_AT
  {
    TooLong(c) || c.data.Some? || !Joining(OPS[c.op].code)
  }

  /** Before a connection only a connection. */
  predicate Early(c: Command)
    requires c.op < UNKNOWN_AT
  {
    Named(c) && (TooLong(c) || OPS[c.op].code == CONNECT)
  }

  /** A connection that succeeds while the services `names` are known. */
  predicate Connects(names: seq<string>, c: Command)
    requires c.op < UNKNOWN_AT
  {
    && OPS[c.op].code == CONNECT && !TooLong(c) && c.data.Some? && Printable(c.data.value)
    && (c.data.value in names || |names| != MAX_CACHES)
  }

  predicate Survivable(names: seq<string>, cs: seq<Command>, k: nat)
    requires AllSendable(cs)
  {
    && k <= |cs| && (forall i :: 0 <= i < k ==> Early(cs[i])) && (k < |cs| ==> Connects(names, cs[k]))
    && forall i :: k < i < |cs| ==> Named(cs[i])
  }

  lemma {:induction false} Connected(s: Session, cs: seq<Command>)
    requires AllSendable(cs) && s.cache.Some?
    ensures |Replies(s, cs)| == |cs| <==> forall i :: 0 <= i < |cs| ==> Named(cs[i])
    decreases |cs|
  {
    if cs != [] {
      var a := Handle(s, Report(cs[0]).0, Report(cs[0]).1);
      assert a.Crash? <==> !Named(cs[0]);
      hide Handle, Report, Named;
      if !a.Crash? {
        HandleKeeps(s, Report(cs[0]).0, Report(cs[0]).1);
        Connected(a.next, cs[1..]);
        assert forall i :: 0 < i < |cs| ==> cs[i] == cs[1..][i - 1];
        assert forall i :: 0 <= i < |cs| - 1 ==> cs[1..][i] == cs[i + 1];
      }
    }
  }

  lemma HandleKeeps(s: Session, c: Command, len: int)
    requires c.op < |OPS| && s.cache.Some? && Handle(s, c, len).Answer?
    ensures Handle(s, c, len).next.cache.Some?
  {
  }

  /** The first command of a client that has not connected. */
  lemma Unconnected(names: seq<string>, c: Command)
    requires c.op < UNKNOWN_AT
    ensures var a := Handle(Session(names, None), Report(c).0, Report(c).1);
      && (a.Crash? <==> !Early(c)) && (Connects(names, c) ==> Early(c))
      && (a.Answer? ==> if Connects(names, c) then a.next.cache.Some? else a.next == Session(names, None))
  {
  }

  lemma SurvivableLater(names: seq<string>, cs: seq<Command>, k: nat)
    requires AllSendable(cs) && cs != []
    ensures Survivable(names, cs, k + 1) <==> Early(cs[0]) && Survivable(names, cs[1..], k)
  {
    hide Early, Connects, Named;
    var rest := cs[1..];
    assert forall i :: 0 < i < |cs| ==> cs[i] == rest[i - 1];
    assert forall i :: 0 <= i < |rest| ==> rest[i] == cs[i + 1];
  }

  lemma SurvivableNow(names: seq<string>, cs: seq<Command>)
    requires AllSendable(cs) && cs != [] && Connects(names, cs[0])
    ensures (exists k: nat :: Survivable(names, cs, k)) <==> forall i :: 0 <= i < |cs| - 1 ==> Named(cs[1..][i])
  {
    NamedEarly(cs);
    hide Early, Connects, Named;
    var rest := cs[1..];
    assert forall i :: 0 < i < |cs| ==> cs[i] == rest[i - 1];
    assert forall i :: 0 <= i < |rest| ==> rest[i] == cs[i + 1];
    if forall i :: 0 <= i < |rest| ==> Named(rest[i]) {
      assert Survivable(names, cs, 0);
    }
  }

  lemma SurvivableRest(names: seq<string>, cs: seq<Command>)
    requires AllSendable(cs) && cs != [] && !Connects(names, cs[0])
    ensures (exists k: nat :: Survivable(names, cs, k)) <==>
      Early(cs[0]) && exists k: nat :: Survivable(names, cs[1..], k)
  {
    assert !Survivable(names, cs, 0);
    hide Survivable, Early, Connects;
    if exists k: nat :: Survivable(names, cs, k) {
      var k: nat :| Survivable(names, cs, k);
      SurvivableLater(names, cs, k - 1);
    }
    if exists k: nat :: Survivable(names, cs[1..], k) {
      var k: nat :| Survivable(names, cs[1..], k);
      SurvivableLater(names, cs, k);
    }
  }

  /** The server answers every command of a new client if and only if nothing before the first connection that
      succeeds needs authentication, and no connection or subscription lacks its name. */
  lemma {:induction false} SurvivesExactly(names: seq<string>, cs: seq<Command>)
    requires AllSendable(cs)
    ensures |Replies(Session(names, None), cs)| == |cs| <==> exists k: nat :: Survivable(names, cs, k)
    decreases |cs|
  {
    if cs == [] {
      assert Survivable(names, cs, 0);
    } else {
      hide Survivable, Handle, Report, Early, Connects, Named, Response, Replies;
      var s := Session(names, None);
      RepliesStep(s, cs);
      Unconnected(names, cs[0]);
      var a := Handle(s, Report(cs[0]).0, Report(cs[0]).1);
      if Connects(names, cs[0]) {
        Connected(a.next, cs[1..]);
        SurvivableNow(names, cs);
      } else {
        SurvivableRest(names, cs);
        SurvivesExactly(names, cs[1..]);
      }
    }
  }

  /** A short conversation, byte by byte: the length comes first, its most significant byte first. */
  lemma Sample()
    ensures var cs := [Command(0, Some("web")), Command(2, None)];
      && AllSendable(cs) && Replies(NEW_SESSION, cs) == ["client connected", "received stats"]
      && Stream(cs) == ("\0\0\0\U{0B}" + "connect web") + ("\0\0\0\U{04}" + "stat")
  {
    var first, second := Command(0, Some("web")), Command(2, None);
    SampleTexts();
    SampleAnswers();
    hide Text, Handle, Frame, Report, Replies, Sendable, Response;
    var cs := [first, second];
    assert cs[1..] == [second] && [second][1..] == [];
    RepliesStep(NEW_SESSION, cs);
    RepliesStep(Session(["web"], Some("web")), [second]);
    RepliesStep(Session(["web"], Some("web")), []);
    assert Stream([second]) == Frame(Text(second)) + "";
  }

  lemma SampleTexts()
    ensures Sendable(Command(0, Some("web"))) && Sendable(Command(2, None))
    ensures Frame(Text(Command(0, Some("web")))) == "\0\0\0\U{0B}" + "connect web"
    ensures Frame(Text(Command(2, None))) == "\0\0\0\U{04}" + "stat"
  {
    assert Text(Command(0, Some("web"))) == "connect web" && Text(Command(2, None)) == "stat";
  }

  lemma SampleAnswers()
    ensures var (c, n) := Report(Command(0, Some("web")));
      var a := Handle(NEW_SESSION, c, n);
      a.Answer? && a.next == Session(["web"], Some("web")) && Response(a.ok, a.reply) == "client connected"
    ensures var (c, n) := Report(Command(2, None));
      var a := Handle(Session(["web"], Some("web")), c, n);
      a.Answer? && a.next == Session(["web"], Some("web")) && Response(a.ok, a.reply) == "received stats"
  {
  }

  /** An unknown command never loses the server. */
  lemma UnknownAnswered(s: Session, c: Command, len: int)
    requires c.op == UNKNOWN_AT
    ensures Handle(s, c, len).Answer? && !Handle(s, c, len).ok && Handle(s, c, len).next == s
  {
  }

  /** A client that asks for statistics before it connects gets no answer: the server is lost. */
  lemma LostClient()
    ensures Sendable(Command(2, None)) && Replies(NEW_SESSION, [Command(2, None)]) == []
  {
    BareSendable(2);
    assert !Early(Command(2, None));
    Unconnected([], Command(2, None));
  }

  lemma NamedEarly(cs: seq<Command>)
    requires AllSendable(cs)
    ensures forall i :: 0 <= i < |cs| ==> (Early(cs[i]) ==> Named(cs[i]))
    ensures forall names, i :: 0 <= i < |cs| ==> (Connects(names, cs[i]) ==> Named(cs[i]))
  {
  }

  // ---- the server ----

  /** Messages one after the other. */
  function FrameAll(ms: seq<string>): string { if ms == [] then "" else Frame(ms[0]) + FrameAll(ms[1..]) }

  lemma {:induction false} FrameAllSnoc(ms: seq<string>, m: string)
    ensures FrameAll(ms + [m]) == FrameAll(ms) + Frame(m)
    decreases |ms|
  {
    hide Frame;
    if ms == [] {
      assert ms + [m] == [m] && [m][1..] == [];
    } else {
      assert (ms + [m])[0] == ms[0] && (ms + [m])[1..] == ms[1..] + [m];
      FrameAllSnoc(ms[1..], m);
    }
  }

  /** Responses as lines. */
  function Lines(rs: seq<string>): seq<string>
    requires forall i :: 0 <= i < |rs| ==> |rs[i]| < LINE_SIZE
  {
    seq(|rs|, i requires 0 <= i < |rs| => Pad(rs[i]))
  }

  method ValidateArg(line: string, len: nat) returns (err: int)
    ensures err == if ValidArg(line, len) then 0 else -1
  {
    for i := 0 to len
      invariant i <= |line| && Printable(line[..i])
    {
      if i == |line| || !(' ' <= line[i] <= '~') {
        assert i < |line| && len <= |line| ==> line[..len][i] == line[i];
        return -1;
      }
    }
    return 0;
  }

  /** What one call of get_command comes to. */
  datatype Done = Ended | Answered(command: Command, dataLen: int) | Crashed | Lost

  /** The table of caches, and the cache of the client that is served. */
  class Server {
    var caches: seq<string>
    var cache: Option<string>

    function View(): Session
      reads this
    {
      Session(caches, cache)
    }

    constructor ()
      ensures View() == NEW_SESSION
    {
      caches, cache := [], None;
    }

    method AddClient(name: string) returns (err: int)
      modifies this
      ensures View() == Joined(old(View()), name).0 && err == if Joined(old(View()), name).1 then 0 else -1
    {
      for i := 0 to |caches|
        invariant unchanged(this) && name !in caches[..i]
      {
        if caches[i] == name {
          cache := Some(name);
          return 0;
        }
      }
      if |caches| == MAX_CACHES {
        return -1;
      }
      caches, cache := caches + [name], Some(name);
      return 0;
    }

    /** get_command from its length check to its reply message; nothing for a crash. */
    method Execute(c: Command, len: nat) returns (response: Option<string>)
      requires c.op < |OPS|
      modifies this
      ensures var a := Handle(old(View()), c, len);
        if a.Crash? then response == None && View() == old(View())
        else response == Some(Response(a.ok, a.reply)) && View() == a.next
    {
      var op := OPS[c.op];
      if len > LINE_SIZE {
        return Some(Response(false, "message too long"));
      }
      if op.requiresAuth && cache.None? {
        return None;
      }
      if c.data.Some? {
        var invalid := ValidateArg(c.data.value, len);
        if invalid != 0 {
          return Some(Response(false, "invalid argument provided"));
        }
      }
      var err := if op.code == UNKNOWN then -1 else 0;
      if Joining(op.code) {
        if c.data.None? {
          return None;
        }
        err := AddClient(c.data.value);
      }
      return Some(Response(err == 0, op.reply));
    }

    /** get_command: one message received, carried out and answered; `Lost` is a text without an end. */
    method GetCommand(inp: Socket, out: Socket) returns (done: Done)
      requires inp != out && !inp.faulty && !out.faulty
      modifies this, inp, out
      ensures inp.faulty || Refused(old(inp.queue)) ==> done == Ended
      ensures !inp.faulty && !Refused(old(inp.queue)) ==>
        var m := Incoming(old(inp.queue));
        var (c, len) := Understood(m);
        var a := Handle(old(View()), c, len);
        && (done == Lost <==> Unterminated(m)) && (done == Crashed <==> !Unterminated(m) && a.Crash?)
        && (done.Answered? <==> !Unterminated(m) && a.Answer? && !out.faulty)
        && (done.Answered? ==>
              && (done.command, done.dataLen) == (c, len) && View() == a.next && inp.queue == Behind(old(inp.queue))
              && |Response(a.ok, a.reply)| < LINE_SIZE
              && out.queue == old(out.queue) + Frame(Pad(Response(a.ok, a.reply))))
      ensures inp.faulty || Refused(old(inp.queue)) || done == Lost || done == Crashed ==>
        !out.faulty && out.queue == old(out.queue) && View() == old(View())
    {
      hide Handle, Frame, Response, Understood, Refused, Unterminated, Incoming, Behind;
      var r := Receive(inp);
      if !r.Got? {
        return if r.Nothing? then Ended else Lost;
      }
      var response := Execute(r.command, r.len);
      if response.None? {
        return Crashed;
      }
      ResponseFits(old(View()), r.command, r.len);
      var sent := SendData(out, Pad(response.value));
      if sent < 0 {
        return Ended;
      }
      done := Answered(r.command, r.len);
    }

    /** The loop over one client: it ends when get_command fails, or with the server. */
    method Serve(inp: Socket, out: Socket, ghost cs: seq<Command>) returns (got: seq<(Command, int)>, crashed: bool)
      requires inp != out && !inp.faulty && !out.faulty && AllSendable(cs) && inp.queue == Stream(cs) && out.queue == ""
      modifies this, inp, out
      ensures |got| <= |Replies(old(View()), cs)| && forall i :: 0 <= i < |got| ==> got[i] == Report(cs[i])
      ensures !inp.faulty && !out.faulty ==>
        && |got| == |Replies(old(View()), cs)| && (crashed <==> |got| < |cs|)
        && out.queue == FrameAll(Lines(Replies(old(View()), cs))) && View() == EndOf(old(View()), cs)
    {
      hide Handle, Frame, Text, Report, Response, Sendable, Replies, EndOf, FrameAll, Lines, Pad, Understood, Refused,
        Unterminated, Incoming, Behind;
      got := [];
      ghost var s, left, said := View(), cs, [];
      AllKnown(cs);
      assert cs[0..] == cs && [] + Replies(s, cs) == Replies(s, cs);
      NothingSaid();
      while true
        invariant |got| <= |cs| && left == cs[|got|..] && !inp.faulty && !out.faulty && inp.queue == Stream(left)
        invariant forall i :: 0 <= i < |got| ==> got[i] == Report(cs[i])
        invariant |said| == |got| && forall i :: 0 <= i < |said| ==> |said[i]| < LINE_SIZE
        invariant Replies(s, cs) == said + Replies(View(), left) && EndOf(s, cs) == EndOf(View(), left)
        invariant out.queue == FrameAll(Lines(said))
        decreases |left|
      {
        ghost var c := if left == [] then Command(0, None) else left[0];
        ghost var later := if left == [] then "" else Stream(left[1..]);
        ReportKnown(c);
        BareSendable(0);
        SentUnderstood(c, later);
        RepliesStep(View(), left);
        StreamParts(left);
        ghost var a := Handle(View(), Report(c).0, Report(c).1);
        var done := GetCommand(inp, out);
        if !done.Answered? {
          assert said + [] == said;
          return got, done == Crashed;
        }
        ghost var line := Response(a.ok, a.reply);
        SaidMore(said, line);
        assert said + ([line] + Replies(a.next, left[1..])) == (said + [line]) + Replies(a.next, left[1..]);
        said := said + [line];
        got := got + [(done.command, done.dataLen)];
        left := left[1..];
      }
    }
  }

  lemma AllKnown(cs: seq<Command>)
    requires AllSendable(cs)
    ensures forall i :: 0 <= i < |cs| ==> cs[i].op < UNKNOWN_AT
  {
  }

  lemma NothingSaid()
    ensures FrameAll(Lines([])) == ""
  {
  }

  lemma SaidMore(said: seq<string>, line: string)
    requires |line| < LINE_SIZE && forall i :: 0 <= i < |said| ==> |said[i]| < LINE_SIZE
    ensures FrameAll(Lines(said + [line])) == FrameAll(Lines(said)) + Frame(Pad(line))
  {
    hide Frame, Pad;
    FrameAllSnoc(Lines(said), Pad(line));
    assert Lines(said + [line]) == Lines(said) + [Pad(line)];
  }

  lemma RepliesStep(s: Session, cs: seq<Command>)
    requires AllSendable(cs)
    ensures cs == [] ==> Replies(s, cs) == [] && EndOf(s, cs) == s
    ensures cs != [] ==> cs[0].op < UNKNOWN_AT && Report(cs[0]).0.op < |OPS|
    ensures cs != [] ==>
      var a := Handle(s, Report(cs[0]).0, Report(cs[0]).1);
      if a.Crash? then Replies(s, cs) == [] && EndOf(s, cs) == s
      else
        Replies(s, cs) == [Response(a.ok, a.reply)] + Replies(a.next, cs[1..]) && EndOf(s, cs) == EndOf(a.next, cs[1..])
  {
    hide Handle, Response;
  }

  lemma ReportKnown(c: Command)
    ensures c.op < UNKNOWN_AT ==> Report(c).0 == c && c.op < |OPS|
    ensures Sendable(c) ==> c.op < UNKNOWN_AT
  {
  }

  lemma StreamParts(cs: seq<Command>)
    requires AllSendable(cs)
    ensures cs == [] ==> Refused(Stream(cs))
    ensures cs != [] ==> Stream(cs) == Frame(Text(cs[0])) + Stream(cs[1..]) && Stream(cs) != ""
  {
  }

  /** The client reads one line for each response. */
  method Collect(s: Socket, n: nat, ghost rs: seq<string>) returns (lines: seq<string>)
    requires !s.faulty && n == |rs| && forall i :: 0 <= i < |rs| ==> |rs[i]| < LINE_SIZE && '\0' !in rs[i]
    requires s.queue == FrameAll(Lines(rs))
    modifies s
    ensures |lines| <= |rs| && lines == rs[..|lines|] && (!s.faulty ==> lines == rs)
  {
    hide Frame;
    lines := [];
    ghost var left := rs;
    while |lines| < n
      invariant |lines| <= n && left == rs[|lines|..] && lines == rs[..|lines|]
      invariant !s.faulty && s.queue == FrameAll(Lines(left))
    {
      var buffer := new char[LINE_SIZE](_ => '\0');
      ghost var t := left[0];
      assert Lines(left)[0] == Pad(t) && Lines(left)[1..] == Lines(left[1..]);
      FrameParts(Pad(t), FrameAll(Lines(left[1..])));
      var size := RecvData(s, buffer);
      if size <= 0 {
        return;
      }
      assert buffer[..] == Pad(t);
      PaddedText(t);
      lines := lines + [CString(buffer[..])];
      left := left[1..];
    }
  }

  lemma PaddedText(t: string)
    requires |t| < LINE_SIZE && '\0' !in t
    ensures '\0' in Pad(t) && CString(Pad(t)) == t
  {
    var r := Pad(t);
    assert r[|t|] == '\0';
    var u := CString(r);
    assert forall i :: 0 <= i < |t| ==> r[i] == t[i] != '\0';
    assert |u| == |t|;
  }

  /** A client that sends its commands gets them received in order and complete, up to the one that the server does not
      survive, and gets the response to each, however the transfers are cut; if a transfer fails, prefixes. */
  method Converse(cs: seq<Command>) returns (got: seq<(Command, int)>, answers: seq<string>, ok: bool)
    requires AllSendable(cs)
    ensures var rs := Replies(NEW_SESSION, cs);
      && |got| <= |rs| && (forall i :: 0 <= i < |got| ==> got[i] == Report(cs[i]))
      && |answers| <= |rs| && answers == rs[..|answers|]
      && (ok ==> |got| == |rs| && answers == rs)
  {
    var inp := new Socket();
    var out := new Socket();
    var server := new Server();
    SendCommands(inp, cs);
    if inp.faulty {
      return [], [], false;
    }
    var crashed;
    got, crashed := server.Serve(inp, out, cs);
    if inp.faulty || out.faulty {
      return got, [], false;
    }
    answers := Collect(out, |got|, Replies(NEW_SESSION, cs));
    ok := !out.faulty;
  }
}
