/**
 The HTTP parser from the header block to the end of the message, one byte at a
 time: what a byte does to the parser, and the callbacks it causes. This is the
 plain meaning that the resumable byte loop with its marks and jumps implements.
 */
module HttpFraming {

  const CR: char := '\r'
  const LF: char := '\n'

  /** ULLONG_MAX: no content length is known. */
  const NO_LENGTH: nat := 0xFFFF_FFFF_FFFF_FFFF

  /** Arithmetic on uint64_t. */
  function Wrap64(n: nat): nat { n % 0x1_0000_0000_0000_0000 }

  datatype State =
    | HeaderFieldStart | HeaderField
    | ValueDiscardWs | ValueDiscardWsAlmostDone | ValueDiscardLws
    | ValueStart | Value | ValueLws | HeaderAlmostDone
    | ChunkSizeStart | ChunkSize | ChunkParameters | ChunkSizeAlmostDone
    | HeadersAlmostDone | HeadersDone
    | ChunkData | ChunkDataAlmostDone | ChunkDataDone
    | BodyIdentity | BodyIdentityEof
    | MessageDone
    | StartLine     // the start state of the next message
    | Dead          // the connection is to be closed

  /** What is being matched in a header's name or value. */
  datatype Matching =
    | General
    | C | CO | CON
    | NameConnection | NameProxyConnection | NameContentLength | NameTransferEncoding | NameUpgrade
    | Connection | ContentLength | ContentLengthNum | ContentLengthWs | TransferEncoding | Upgrade
    | CodingStart | CodingChunked | Coding
    | OptionStart | OptionKeepAlive | OptionClose | OptionUpgrade | Option
    | ChunkedMatched | KeepAliveMatched | CloseMatched | UpgradeMatched

  datatype Errno = Ok | HeaderToken | InvalidLength | UnexpectedLength | LfExpected | Strict | ChunkSizeInvalid
                 | InvalidEncoding | ClosedConnection | EofState | NotCovered

  datatype Flags = Flags(chunked: bool, keepAlive: bool, close: bool, connectionUpgrade: bool, trailing: bool, upgrade: bool,
                         skipBody: bool, length: bool)

  /** What the start line said about the message, and the headers callback's answer (1: no body). */
  datatype Message = Message(request: bool, connect: bool, status: nat, major: nat, minor: nat,
                             allowChunkedLength: bool, answerSkip: bool)

  datatype Parser = Parser(state: State, matching: Matching, index: nat, flags: Flags, encoded: bool, length: nat, nread: nat,
                           error: Errno)

  datatype Kind = Field | ValueText | Body
  datatype Notice = HeadersComplete | MessageComplete | ChunkHeader | ChunkComplete

  /** A byte handed to a data callback, or a notification. */
  datatype Event = Byte(kind: Kind, ch: char) | Notify(what: Notice)

  // ---------- character classes ----------

  predicate IsNum(c: char) { '0' <= c <= '9' }

  /** Bit 0x20 set. */
  function Lower(c: char): char {
    if c < 256 as char && c as int / 0x20 % 2 == 0 then (c as int + 0x20) as char else c
  }

  /** The lower-case form of a token character, or NUL. */
  function Token(c: char): char {
    if 'A' <= c <= 'Z' then (c as int + 0x20) as char
    else if 'a' <= c <= 'z' || IsNum(c) || c in "!#$%&'*+-.^_`|~" then c
    else '\0'
  }

  predicate IsHeaderChar(c: char) { c == CR || c == LF || c == '\t' || (c > 31 as char && c != 127 as char) }

  /** The value of a hexadecimal digit, or -1. */
  function Unhex(c: char): int {
    if '0' <= c <= '9' then c as int - '0' as int
    else if 'A' <= c <= 'F' then 10 + (c as int - 'A' as int)
    else if 'a' <= c <= 'f' then 10 + (c as int - 'a' as int)
    else -1
  }

  // ---------- matching header names and values ----------

  function NameStart(c: char): Matching {
    if c == 'c' then C else if c == 'p' then NameProxyConnection else if c == 't' then NameTransferEncoding
    else if c == 'u' then NameUpgrade else General
  }

  /** One more character of a word: mismatch, match so far, or the last character. */
  function Word(word: string, index: nat, c: char, here: Matching, whole: Matching, miss: Matching): Matching {
    if index >= |word| || c != word[index] then miss else if index == |word| - 1 then whole else here
  }

  /** A further byte ch of a header name, c its token form. */
  function NameNext(p: Parser, ch: char, c: char): Parser {
    var i := p.index + 1;
    match p.matching
    case General => p
    case C => p.(index := i, matching := if c == 'o' then CO else General)
    case CO => p.(index := i, matching := if c == 'n' then CON else General)
    case CON => p.(index := i, matching := if c == 'n' then NameConnection else if c == 't' then NameContentLength else General)
    case NameConnection => p.(index := i, matching := Word("connection", i, c, NameConnection, Connection, General))
    case NameProxyConnection =>
      p.(index := i, matching := Word("proxy-connection", i, c, NameProxyConnection, Connection, General))
    case NameContentLength => p.(index := i, matching := Word("content-length", i, c, NameContentLength, ContentLength, General))
    case NameTransferEncoding =>
      var k := Word("transfer-encoding", i, c, NameTransferEncoding, TransferEncoding, General);
      p.(index := i, matching := k, encoded := p.encoded || k == TransferEncoding)
    case NameUpgrade => p.(index := i, matching := Word("upgrade", i, c, NameUpgrade, Upgrade, General))
    case _ => if ch != ' ' then p.(matching := General) else p
  }

  /** The first byte of a header value. */
  function ValueFirst(p: Parser, ch: char): Parser {
    var q := p.(state := Value, index := 0);
    var c := Lower(ch);
    match p.matching
    case Upgrade => q.(flags := p.flags.(upgrade := true), matching := General)
    case TransferEncoding => q.(matching := if c == 'c' then CodingChunked else Coding)
    case CodingStart => q
    case ContentLength =>
      if !IsNum(ch) then q.(error := InvalidLength)
      else if p.flags.length then q.(error := UnexpectedLength)
      else q.(flags := p.flags.(length := true), length := ch as int - '0' as int, matching := ContentLengthNum)
    case ContentLengthWs => q
    case Connection =>
      q.(matching := if c == 'k' then OptionKeepAlive else if c == 'c' then OptionClose else if c == 'u' then OptionUpgrade else Option)
    case OptionStart => q
    case _ => q.(matching := General)
  }

  /** A decimal digit of a content length, with the parser's overflow test. */
  function LengthDigit(p: Parser, ch: char): Parser {
    if !IsNum(ch) then p.(error := InvalidLength)
    else if (NO_LENGTH - 10) / 10 < p.length then p.(error := InvalidLength)
    else p.(length := Wrap64(Wrap64(p.length * 10) + (ch as int - '0' as int)), matching := ContentLengthNum)
  }

  /** The overflow test is strict enough: the multiplication and the addition never wrap around. */
  lemma DigitsFit(n: nat, d: nat)
    ensures n <= (NO_LENGTH - 10) / 10 && d < 10 ==> Wrap64(Wrap64(n * 10) + d) == n * 10 + d < NO_LENGTH
    ensures n <= (NO_LENGTH - 16) / 16 && d < 16 ==> Wrap64(Wrap64(n * 16) + d) == n * 16 + d < NO_LENGTH
  {
  }

  /** A further byte of a Transfer-Encoding value. */
  function CodingNext(p: Parser, ch: char): Parser {
    var c := Lower(ch);
    match p.matching
    case CodingStart =>
      if c == 'c' then p.(matching := CodingChunked)
      else if c != ' ' && Token(c) != '\0' then p.(matching := Coding)
      else if c == ' ' || c == '\t' then p
      else p.(matching := General)
    case CodingChunked =>
      p.(index := p.index + 1, matching := Word("chunked", p.index + 1, c, CodingChunked, ChunkedMatched, Coding))
    case Coding => if ch == ',' then p.(matching := CodingStart, index := 0) else p
    case ChunkedMatched => if ch != ' ' then p.(matching := Coding) else p
    case _ => p
  }

  /** A further byte of a Connection value. */
  function OptionNext(p: Parser, ch: char): Parser {
    var c := Lower(ch);
    var i := p.index + 1;
    match p.matching
    case OptionStart =>
      if c == 'k' then p.(matching := OptionKeepAlive)
      else if c == 'c' then p.(matching := OptionClose)
      else if c == 'u' then p.(matching := OptionUpgrade)
      else if c != ' ' && Token(c) != '\0' then p.(matching := Option)
      else if c == ' ' || c == '\t' then p
      else p.(matching := General)
    case OptionKeepAlive => p.(index := i, matching := Word("keep-alive", i, c, OptionKeepAlive, KeepAliveMatched, Option))
    case OptionClose => p.(index := i, matching := Word("close", i, c, OptionClose, CloseMatched, Option))
    case OptionUpgrade => p.(index := i, matching := Word("upgrade", i, c, OptionUpgrade, UpgradeMatched, Option))
    case Option => if ch == ',' then p.(matching := OptionStart, index := 0) else p
    case KeepAliveMatched => OptionEnd(p, ch)
    case CloseMatched => OptionEnd(p, ch)
    case UpgradeMatched => OptionEnd(p, ch)
    case _ => p
  }

  predicate CodingMatching(k: Matching) { k.CodingStart? || k.CodingChunked? || k.Coding? || k.ChunkedMatched? }

  predicate OptionMatching(k: Matching) {
    k.OptionStart? || k.OptionKeepAlive? || k.OptionClose? || k.OptionUpgrade? || k.Option?
    || k.KeepAliveMatched? || k.CloseMatched? || k.UpgradeMatched?
  }

  /** A further byte of a header value. */
  function ValueNext(p: Parser, ch: char): Parser {
    if CodingMatching(p.matching) then CodingNext(p, ch)
    else if OptionMatching(p.matching) then OptionNext(p, ch)
    else
      match p.matching
      case ContentLength => if ch == ' ' then p else LengthDigit(p, ch)
      case ContentLengthNum => if ch == ' ' then p.(matching := ContentLengthWs) else LengthDigit(p, ch)
      case ContentLengthWs => if ch == ' ' then p else p.(error := InvalidLength)
      case _ => p.(matching := General)
  }

  function OptionEnd(p: Parser, ch: char): Parser {
    if ch == ',' then Noted(p, false).(matching := OptionStart, index := 0)
    else if ch != ' ' then p.(matching := Option)
    else p
  }

  /** A matched connection option (or, at the end of the header, the matched coding) is noted in the flags. */
  function Noted(p: Parser, coding: bool): Parser {
    match p.matching
    case KeepAliveMatched => p.(flags := p.flags.(keepAlive := true))
    case CloseMatched => p.(flags := p.flags.(close := true))
    case UpgradeMatched => p.(flags := p.flags.(connectionUpgrade := true))
    case ChunkedMatched => if coding then p.(flags := p.flags.(chunked := true)) else p
    case _ => p
  }

  // ---------- where the message ends ----------

  /** `http_message_needs_eof` */
  function NeedsEof(m: Message, p: Parser): bool {
    if m.request then false
    else if m.status / 100 == 1 || m.status == 204 || m.status == 304 || p.flags.skipBody then false
    else if p.encoded && !p.flags.chunked then true
    else if p.flags.chunked || p.length != NO_LENGTH then false
    else true
  }

  /** `http_should_keep_alive` */
  function KeepAlive(m: Message, p: Parser): bool {
    if m.major > 0 && m.minor > 0 then !p.flags.close && !NeedsEof(m, p)
    else p.flags.keepAlive && !NeedsEof(m, p)
  }

  function NewMessage(m: Message, p: Parser): Parser { p.(state := if KeepAlive(m, p) then StartLine else Dead) }

  // ---------- one byte ----------

  /** The outcome of one visit of the switch: `again` looks at the same byte in the new state. */
  datatype Turned = Turned(p: Parser, events: seq<Event>, again: bool)

  function Stay(p: Parser): Turned { Turned(p, [], false) }
  function To(p: Parser, s: State): Turned { Turned(p.(state := s), [], false) }
  function Error(p: Parser, e: Errno): Turned { Turned(p.(error := e), [], false) }

  /** The end of the header block, before the headers callback. */
  function HeadersEnd(m: Message, p: Parser): Parser {
    if p.encoded && p.flags.length && (!p.flags.chunked || !m.allowChunkedLength) then p.(error := UnexpectedLength)
    else if (if p.flags.upgrade && p.flags.connectionUpgrade then m.request || m.status == 101 else m.connect) then
      p.(state := HeadersDone, error := NotCovered)
    else p.(state := HeadersDone, flags := if m.answerSkip then p.flags.(skipBody := true) else p.flags)
  }

  /** How the body is framed. */
  function Framing(m: Message, q: Parser): Turned {
    var p := q.(nread := 0);
    var complete := Turned(NewMessage(m, p), [Notify(MessageComplete)], false);
    if p.flags.skipBody then complete
    else if p.flags.chunked then To(p, ChunkSizeStart)
    else if p.encoded then (if m.request then Error(p, InvalidEncoding) else To(p, BodyIdentityEof))
    else if p.length == 0 then complete
    else if p.length != NO_LENGTH then To(p, BodyIdentity)
    else if !NeedsEof(m, p) then complete
    else To(p, BodyIdentityEof)
  }

  function ValueBegins(p: Parser, ch: char): Turned {
    Turned(ValueFirst(p, ch), [Byte(ValueText, ch)], false)
  }

  predicate TextState(s: State) { s.HeaderField? || s.ValueDiscardWs? || s.ValueStart? || s.Value? }

  predicate LineState(s: State) { s.HeaderFieldStart? || s.HeaderAlmostDone? || s.ValueLws? || s.ValueDiscardWsAlmostDone? || s.ValueDiscardLws? || s.StartLine? || s.Dead? }

  predicate ChunkState(s: State) { s.ChunkSizeStart? || s.ChunkSize? || s.ChunkParameters? || s.ChunkSizeAlmostDone? || s.ChunkData? || s.ChunkDataAlmostDone? || s.ChunkDataDone? }

  /** The inside of header names and values. */
  function TextTurn(p: Parser, ch: char): Turned {
    match p.state
    case HeaderField =>
      if Token(ch) != '\0' then Turned(NameNext(p, ch, Token(ch)), [Byte(Field, ch)], false)
      else if ch == ':' then To(p, ValueDiscardWs)
      else Error(p, HeaderToken)
    case ValueDiscardWs =>
      if ch == ' ' || ch == '\t' then Stay(p)
      else if ch == CR then To(p, ValueDiscardWsAlmostDone)
      else if ch == LF then To(p, ValueDiscardLws)
      else ValueBegins(p, ch)
    case ValueStart => ValueBegins(p, ch)
    case Value =>
      if ch == CR then To(p, HeaderAlmostDone)
      else if ch == LF then Turned(p.(state := HeaderAlmostDone), [], true)
      else if !IsHeaderChar(ch) then Error(p, HeaderToken)
      else Turned(ValueNext(p, ch), [Byte(ValueText, ch)], false)
    case _ => Stay(p)
  }

  /** The ends of header lines, and what stands between messages. */
  function LineTurn(p: Parser, ch: char): Turned {
    match p.state
    case HeaderFieldStart =>
      if ch == CR then To(p, HeadersAlmostDone)
      else if ch == LF then Turned(p.(state := HeadersAlmostDone), [], true)
      else if Token(ch) == '\0' then Error(p, HeaderToken)
      else Turned(p.(state := HeaderField, index := 0, matching := NameStart(Token(ch))), [Byte(Field, ch)], false)
    case HeaderAlmostDone => if ch != LF then Error(p, LfExpected) else To(p, ValueLws)
    case ValueLws =>
      if ch == ' ' || ch == '\t' then
        Turned(p.(state := ValueStart, matching := if p.matching == ContentLengthNum then ContentLengthWs else p.matching), [], true)
      else Turned(Noted(p, true).(state := HeaderFieldStart), [], true)
    case ValueDiscardWsAlmostDone => if ch != LF then Error(p, Strict) else To(p, ValueDiscardLws)
    case ValueDiscardLws =>
      if ch == ' ' || ch == '\t' then To(p, ValueDiscardWs)
      else if p.matching == ContentLength then Error(p, InvalidLength)
      else Turned(Noted(p, true).(state := HeaderFieldStart), [], true)
    case StartLine => if ch == CR || ch == LF then Stay(p) else Error(p, NotCovered)
    case Dead => if ch == CR || ch == LF then Stay(p) else Error(p, ClosedConnection)
    case _ => Stay(p)
  }

  /** The chunked coding. */
  function ChunkTurn(p: Parser, ch: char): Turned {
    match p.state
    case ChunkSizeStart =>
      if Unhex(ch) == -1 then Error(p, ChunkSizeInvalid) else Stay(p.(length := Unhex(ch), state := ChunkSize))
    case ChunkSize =>
      if ch == CR then To(p, ChunkSizeAlmostDone)
      else if Unhex(ch) == -1 then
        if ch == ';' || ch == ' ' then To(p, ChunkParameters) else Error(p, ChunkSizeInvalid)
      else if (NO_LENGTH - 16) / 16 < p.length then Error(p, InvalidLength)
      else Stay(p.(length := Wrap64(Wrap64(p.length * 16) + Unhex(ch))))
    case ChunkParameters => if ch == CR then To(p, ChunkSizeAlmostDone) else Stay(p)
    case ChunkSizeAlmostDone =>
      if ch != LF then Error(p, Strict)
      else if p.length == 0 then
        Turned(p.(nread := 0, flags := p.flags.(trailing := true), state := HeaderFieldStart), [Notify(ChunkHeader)], false)
      else Turned(p.(nread := 0, state := ChunkData), [Notify(ChunkHeader)], false)
    case ChunkData =>
      if p.length <= 1 then Turned(p.(length := 0, state := ChunkDataAlmostDone), [Byte(Body, ch)], false)
      else Turned(p.(length := p.length - 1), [Byte(Body, ch)], false)
    case ChunkDataAlmostDone => if ch != CR then Error(p, Strict) else To(p, ChunkDataDone)
    case ChunkDataDone =>
      if ch != LF then Error(p, Strict)
      else Turned(p.(nread := 0, state := ChunkSizeStart), [Notify(ChunkComplete)], false)
    case _ => Stay(p)
  }

  /** The end of the header block, bodies without chunks, the end of the message. */
  function EndTurn(m: Message, p: Parser, ch: char): Turned {
    match p.state
    case HeadersAlmostDone =>
      if ch != LF then Error(p, Strict)
      else if p.flags.trailing then Turned(p.(state := MessageDone), [Notify(ChunkComplete)], true)
      else
        var q := HeadersEnd(m, p);
        if q.error != Ok then Turned(q, [], false) else Turned(q, [Notify(HeadersComplete)], true)
    case HeadersDone => if ch != LF then Error(p, Strict) else Framing(m, p)
    case BodyIdentity =>
      if p.length <= 1 then Turned(p.(length := 0, state := MessageDone), [Byte(Body, ch)], true)
      else Turned(p.(length := p.length - 1), [Byte(Body, ch)], false)
    case BodyIdentityEof => Turned(p, [Byte(Body, ch)], false)
    case MessageDone => Turned(NewMessage(m, p), [Notify(MessageComplete)], false)
    case _ => Stay(p)
  }

  /** One visit of the switch. */
  function Turn(m: Message, p: Parser, ch: char): Turned {
    if TextState(p.state) then TextTurn(p, ch)
    else if LineState(p.state) then LineTurn(p, ch)
    else if ChunkState(p.state) then ChunkTurn(p, ch)
    else EndTurn(m, p, ch)
  }

  /** States from which the same byte is looked at again come in a fixed order. */
  function Rank(s: State): nat {
    match s
    case ValueLws => 5
    case ValueDiscardLws => 5
    case HeaderFieldStart => 4
    case HeadersAlmostDone => 3
    case Value => 3
    case BodyIdentity => 3
    case _ => 2
  }

  predicate HeaderState(s: State) {
    !(s.ChunkData? || s.ChunkDataAlmostDone? || s.ChunkDataDone? || s.BodyIdentity? || s.BodyIdentityEof? || s.MessageDone?)
  }

  /** All visits that one byte causes. */
  function Visits(m: Message, p: Parser, ch: char): (r: (Parser, seq<Event>))
    decreases Rank(p.state)
  {
    var t := Turn(m, p, ch);
    if t.again && t.p.error == Ok && Rank(t.p.state) < Rank(p.state) then
      var r := Visits(m, t.p, ch);
      (r.0, t.events + r.1)
    else (t.p, t.events)
  }

  /** One byte: header bytes are counted; after an error nothing happens any more. */
  function Feed(m: Message, p: Parser, ch: char): (Parser, seq<Event>) {
    if p.error != Ok then (p, [])
    else Visits(m, if HeaderState(p.state) then p.(nread := p.nread + 1) else p, ch)
  }

  /** A whole text. */
  function Run(m: Message, p: Parser, s: string): (Parser, seq<Event>) {
    if s == "" then (p, [])
    else
      var before := Run(m, p, s[..|s| - 1]);
      var last := Feed(m, before.0, s[|s| - 1]);
      (last.0, before.1 + last.1)
  }

  /** A repeated look always moves on to a state further down the order. */
  lemma AgainIsBounded(m: Message, p: Parser, ch: char)
    requires Turn(m, p, ch).again && p.error == Ok
    ensures Rank(Turn(m, p, ch).p.state) < Rank(p.state) && Turn(m, p, ch).p.error == Ok
  {
    hide ValueFirst, ValueNext, NameNext, NameStart, Token, Lower, NewMessage, IsHeaderChar, NeedsEof, Unhex;
  }

  lemma NoEvents(e: seq<Event>)
    ensures e + [] == e && [] + e == e
  {
  }

  /** A text and one more byte. */
  lemma RunLast(m: Message, p: Parser, s: string, c: char)
    ensures var (q, e) := Run(m, p, s); var (r, f) := Feed(m, q, c);
            Run(m, p, s + [c]) == (r, e + f) && e + [] == e && [] + f == f
  {
    assert (s + [c])[..|s|] == s;
    NoEvents(Run(m, p, s).1);
    NoEvents(Feed(m, Run(m, p, s).0, c).1);
  }

  lemma LastByte(s: string)
    requires s != ""
    ensures s == s[..|s| - 1] + [s[|s| - 1]]
  {
  }

  lemma RunNothing(m: Message, p: Parser)
    ensures Run(m, p, "") == (p, [])
  {
  }

  /** Reading two texts one after the other is reading them joined: the automaton does not care where its input is cut. */
  lemma {:induction false} RunJoined(m: Message, p: Parser, a: string, b: string)
    ensures var (q, e) := Run(m, p, a); var (r, f) := Run(m, q, b);
            Run(m, p, a + b) == (r, e + f)
    decreases |b|
  {
    hide Run, Feed;
    var (q, e) := Run(m, p, a);
    RunNothing(m, q);
    NoEvents(e);
    if b == "" {
      assert a + b == a;
    } else {
      var c, d := b[..|b| - 1], b[|b| - 1];
      LastByte(b);
      RunJoined(m, p, a, c);
      RunLast(m, p, a + c, d);
      RunLast(m, q, c, d);
      assert a + b == (a + c) + [d];
      var f := Run(m, q, c).1;
      var g := Feed(m, Run(m, q, c).0, d).1;
      assert (e + f) + g == e + (f + g);
    }
  }

  /** Nothing happens after an error. */
  lemma {:induction false} RunAfterError(m: Message, p: Parser, s: string)
    requires p.error != Ok
    ensures Run(m, p, s) == (p, [])
    decreases |s|
  {
    if s != "" {
      RunAfterError(m, p, s[..|s| - 1]);
      NoEvents([]);
    }
  }
}
