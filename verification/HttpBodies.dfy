/**
 What the HTTP parser makes of message bodies: the state its internal checks rely
 on, the exact values of lengths, identity bodies and single chunks.
 */
module HttpBodies {
  import opened HttpFraming

  // ---------- what every reachable state satisfies ----------

  predicate NameMatching(k: Matching) {
    k.General? || k.C? || k.CO? || k.CON? || k.NameConnection? || k.NameProxyConnection? || k.NameContentLength?
    || k.NameTransferEncoding? || k.NameUpgrade? || k.Connection? || k.ContentLength? || k.TransferEncoding? || k.Upgrade?
  }

  /** Where a length was declared or is being read, it is known. */
  predicate Known(length: nat, declared: bool, trailing: bool, k: Matching) {
    && length <= NO_LENGTH
    && (declared && !trailing ==> length < NO_LENGTH)
    && (k == ContentLengthNum ==> length < NO_LENGTH)
  }

  /** What each state relies on: the chunked flag inside a chunked body, a length where bytes are counted off. */
  predicate Fit(s: State, chunked: bool, length: nat, k: Matching) {
    match s
    case HeaderField => NameMatching(k)
    case Value => k != Connection && k != TransferEncoding && k != ContentLength
    case ChunkSizeStart => chunked
    case ChunkSize => chunked && length < NO_LENGTH
    case ChunkParameters => chunked && length < NO_LENGTH
    case ChunkSizeAlmostDone => chunked && length < NO_LENGTH
    case ChunkData => chunked && 0 < length < NO_LENGTH
    case ChunkDataAlmostDone => chunked && length == 0
    case ChunkDataDone => chunked && length == 0
    case BodyIdentity => 0 < length < NO_LENGTH
    case _ => true
  }

  predicate Steady(p: Parser) {
    Known(p.length, p.flags.length, p.flags.trailing, p.matching) && Fit(p.state, p.flags.chunked, p.length, p.matching)
  }

  /** Between bytes, the header byte counter is zero where a chunk size is about to start. */
  predicate Sound(p: Parser) {
    p.error == Ok ==> Steady(p) && (p.state == ChunkSizeStart ==> p.nread == 0)
  }

  /** The conditions the parser asserts when it visits a state. */
  predicate Asserted(p: Parser) {
    match p.state
    case HeaderField => NameMatching(p.matching)
    case Value => p.matching != Connection && p.matching != TransferEncoding
    case ChunkSizeStart => p.nread == 1 && p.flags.chunked
    case ChunkSize => p.flags.chunked
    case ChunkParameters => p.flags.chunked
    case ChunkSizeAlmostDone => p.flags.chunked
    case ChunkData => p.flags.chunked && p.length != 0 && p.length != NO_LENGTH
    case ChunkDataAlmostDone => p.flags.chunked && p.length == 0
    case ChunkDataDone => p.flags.chunked
    case BodyIdentity => p.length != 0 && p.length != NO_LENGTH
    case _ => true
  }

  function Counted(p: Parser): Parser { if HeaderState(p.state) then p.(nread := p.nread + 1) else p }

  lemma NameNextSteady(p: Parser, ch: char, c: char)
    requires Steady(p) && p.state == HeaderField
    ensures Steady(NameNext(p, ch, c)) && NameNext(p, ch, c).state == HeaderField
  {
  }

  lemma ValueFirstSteady(p: Parser, ch: char)
    requires Steady(p)
    ensures ValueFirst(p, ch).state == Value && (ValueFirst(p, ch).error == Ok ==> Steady(ValueFirst(p, ch)))
  {
  }

  lemma LengthDigitSteady(p: Parser, ch: char)
    requires Steady(p) && p.state == Value
    ensures var q := LengthDigit(p, ch); q.state == Value && (q.error == Ok ==> Steady(q))
  {
    hide Wrap64;
    if IsNum(ch) { DigitsFit(p.length, ch as int - '0' as int); }
  }

  lemma CodingSteady(p: Parser, ch: char)
    requires Steady(p) && p.state == Value && CodingMatching(p.matching)
    ensures CodingNext(p, ch).state == Value && Steady(CodingNext(p, ch))
  {
    hide Token, Lower;
  }

  lemma OptionSteady(p: Parser, ch: char)
    requires Steady(p) && p.state == Value && OptionMatching(p.matching)
    ensures OptionNext(p, ch).state == Value && Steady(OptionNext(p, ch))
  {
    hide Token, Lower;
  }

  lemma ValueNextSteady(p: Parser, ch: char)
    requires Steady(p) && p.state == Value
    ensures ValueNext(p, ch).state == Value && (ValueNext(p, ch).error == Ok ==> Steady(ValueNext(p, ch)))
  {
    hide LengthDigit, CodingNext, OptionNext;
    LengthDigitSteady(p, ch);
    if CodingMatching(p.matching) { CodingSteady(p, ch); }
    if OptionMatching(p.matching) { OptionSteady(p, ch); }
  }

  lemma FramingSteady(m: Message, p: Parser)
    requires Steady(p)
    ensures var q := Framing(m, p).p; q.error == Ok ==> Steady(q) && (q.state == ChunkSizeStart ==> q.nread == 0)
  {
    hide KeepAlive, NeedsEof;
  }

  /** Every visit keeps it. */
  lemma TurnSteady(m: Message, p: Parser, ch: char)
    requires Steady(p) && p.error == Ok
    ensures var q := Turn(m, p, ch).p; q.error == Ok ==> Steady(q) && (q.state == ChunkSizeStart ==> q.nread == 0)
  {
    hide TextTurn, LineTurn, ChunkTurn, EndTurn, Steady;
    if TextState(p.state) {
      TextSteady(p, ch);
    } else if LineState(p.state) {
      LineSteady(p, ch);
    } else if ChunkState(p.state) {
      ChunkSteady(p, ch);
    } else {
      EndSteady(m, p, ch);
    }
  }

  lemma TextSteady(p: Parser, ch: char)
    requires Steady(p) && p.error == Ok && TextState(p.state)
    ensures var q := TextTurn(p, ch).p; q.error == Ok ==> Steady(q) && q.state != ChunkSizeStart
  {
    hide ValueFirst, ValueNext, NameNext, Token, IsHeaderChar;
    if p.state == HeaderField { NameNextSteady(p, ch, Token(ch)); }
    ValueFirstSteady(p, ch);
    if p.state == Value { ValueNextSteady(p, ch); }
  }

  lemma EndSteady(m: Message, p: Parser, ch: char)
    requires Steady(p) && p.error == Ok && !TextState(p.state) && !LineState(p.state) && !ChunkState(p.state)
    ensures var q := EndTurn(m, p, ch).p; q.error == Ok ==> Steady(q) && (q.state == ChunkSizeStart ==> q.nread == 0)
  {
    hide Framing, KeepAlive;
    FramingSteady(m, p);
  }

  lemma NotedSteady(p: Parser)
    requires Steady(p)
    ensures Noted(p, true).error == p.error && Steady(Noted(p, true).(state := HeaderFieldStart))
  {
  }

  lemma LineSteady(p: Parser, ch: char)
    requires Steady(p) && p.error == Ok && LineState(p.state)
    ensures var q := LineTurn(p, ch).p; q.error == Ok ==> Steady(q) && q.state != ChunkSizeStart
  {
    hide Token, Noted, ValueFirst, ValueNext, NameNext, Framing;
    NotedSteady(p);
  }

  lemma ChunkSteady(p: Parser, ch: char)
    requires Steady(p) && p.error == Ok && ChunkState(p.state)
    ensures var q := ChunkTurn(p, ch).p; q.error == Ok ==> Steady(q) && (q.state == ChunkSizeStart ==> q.nread == 0)
  {
    hide ChunkTurn, Steady;
    if p.state.ChunkSize? || p.state.ChunkSizeStart? {
      SizeSteady(p, ch);
    } else if p.state.ChunkParameters? || p.state.ChunkSizeAlmostDone? {
      HeadSteady(p, ch);
    } else if p.state.ChunkData? {
      DataSteady(p, ch);
    } else {
      DataEndSteady(p, ch);
    }
  }

  lemma HeadSteady(p: Parser, ch: char)
    requires Steady(p) && p.error == Ok && (p.state.ChunkParameters? || p.state.ChunkSizeAlmostDone?)
    ensures var q := ChunkTurn(p, ch).p; q.error == Ok ==> Steady(q) && q.state != ChunkSizeStart
  {
    hide NameMatching, Unhex, Wrap64;
    var q := ChunkTurn(p, ch).p;
    if p.state.ChunkParameters? {
      assert q == if ch == CR then p.(state := ChunkSizeAlmostDone) else p;
    } else if ch != LF {
      assert q == p.(error := Strict);
    } else if p.length == 0 {
      assert q == p.(nread := 0, flags := p.flags.(trailing := true), state := HeaderFieldStart);
    } else {
      assert q == p.(nread := 0, state := ChunkData);
    }
  }

  lemma KnownLess(n: nat, k: nat, declared: bool, trailing: bool, w: Matching)
    requires Known(n, declared, trailing, w) && k <= n
    ensures Known(k, declared, trailing, w)
  {
  }

  lemma DataSteady(p: Parser, ch: char)
    requires Steady(p) && p.error == Ok && p.state.ChunkData?
    ensures Steady(ChunkTurn(p, ch).p) && ChunkTurn(p, ch).p.state != ChunkSizeStart
  {
    hide Known, NameMatching, Unhex, Wrap64;
    var q := ChunkTurn(p, ch).p;
    assert q == if p.length <= 1 then p.(length := 0, state := ChunkDataAlmostDone) else p.(length := p.length - 1);
    assert Fit(q.state, q.flags.chunked, q.length, q.matching);
    KnownLess(p.length, q.length, q.flags.length, q.flags.trailing, q.matching);
  }

  lemma DataEndSteady(p: Parser, ch: char)
    requires Steady(p) && p.error == Ok && (p.state.ChunkDataAlmostDone? || p.state.ChunkDataDone?)
    ensures var q := ChunkTurn(p, ch).p; q.error == Ok ==> Steady(q) && (q.state == ChunkSizeStart ==> q.nread == 0)
  {
    hide Known, NameMatching, Unhex, Wrap64;
    var q := ChunkTurn(p, ch).p;
    if p.state.ChunkDataAlmostDone? {
      assert q == if ch != CR then p.(error := Strict) else p.(state := ChunkDataDone);
    } else {
      assert q == if ch != LF then p.(error := Strict) else p.(nread := 0, state := ChunkSizeStart);
    }
  }

  lemma SizeSteady(p: Parser, ch: char)
    requires Steady(p) && p.error == Ok && (p.state.ChunkSizeStart? || p.state.ChunkSize?)
    ensures var q := ChunkTurn(p, ch).p; q.error == Ok ==> Steady(q) && q.state != ChunkSizeStart
  {
    hide Wrap64;
    if Unhex(ch) >= 0 { DigitsFit(p.length, Unhex(ch)); }
  }

  lemma {:induction false} VisitsSound(m: Message, p: Parser, ch: char)
    requires Steady(p) && p.error == Ok
    ensures Sound(Visits(m, p, ch).0)
    decreases Rank(p.state)
  {
    hide Turn, Steady;
    TurnSteady(m, p, ch);
    var t := Turn(m, p, ch);
    if t.again && t.p.error == Ok && Rank(t.p.state) < Rank(p.state) { VisitsSound(m, t.p, ch); }
  }

  lemma FeedSound(m: Message, p: Parser, ch: char)
    requires Sound(p)
    ensures Sound(Feed(m, p, ch).0)
  {
    hide Visits;
    if p.error == Ok { VisitsSound(m, Counted(p), ch); }
  }

  lemma {:induction false} RunSound(m: Message, p: Parser, s: string)
    requires Sound(p)
    ensures Sound(Run(m, p, s).0)
    decreases |s|
  {
    hide Feed, Sound;
    if s != "" {
      RunSound(m, p, s[..|s| - 1]);
      FeedSound(m, Run(m, p, s[..|s| - 1]).0, s[|s| - 1]);
    }
  }

  /** At the start of the header block nothing has been seen. */
  predicate Beginning(p: Parser) {
    p.state == HeaderFieldStart && p.error == Ok && p.length == NO_LENGTH && !p.encoded
    && p.flags == Flags(false, false, false, false, false, false, false, false) && p.matching == General
  }

  /** The parser's own assertions hold whenever a byte arrives, whatever came before. */
  lemma AssertionsHold(m: Message, p: Parser, s: string)
    requires Beginning(p) && Run(m, p, s).0.error == Ok
    ensures Asserted(Counted(Run(m, p, s).0))
  {
    RunSound(m, p, s);
  }

  // ---------- texts of bytes ----------

  function Bytes(k: Kind, s: string): (e: seq<Event>)
    ensures |e| == |s|
  {
    seq(|s|, i requires 0 <= i < |s| => Byte(k, s[i]))
  }

  lemma BytesJoined(k: Kind, a: string, b: string)
    ensures Bytes(k, a + b) == Bytes(k, a) + Bytes(k, b)
  {
  }

  lemma OneMoreByte(k: Kind, s: string)
    requires s != ""
    ensures Bytes(k, s) == Bytes(k, s[..|s| - 1]) + [Byte(k, s[|s| - 1])]
  {
  }

  /** The bytes given to the body callback. */
  function BodyOf(e: seq<Event>): string {
    if e == [] then "" else BodyOf(e[..|e| - 1]) + if e[|e| - 1].Byte? && e[|e| - 1].kind == Body then [e[|e| - 1].ch] else ""
  }

  function Notices(e: seq<Event>): seq<Notice> {
    if e == [] then [] else Notices(e[..|e| - 1]) + if e[|e| - 1].Notify? then [e[|e| - 1].what] else []
  }

  lemma {:induction false} SplitJoined(a: seq<Event>, b: seq<Event>)
    ensures BodyOf(a + b) == BodyOf(a) + BodyOf(b) && Notices(a + b) == Notices(a) + Notices(b)
    decreases |b|
  {
    if b == [] {
      assert a + b == a;
    } else {
      assert (a + b)[..|a + b| - 1] == a + b[..|b| - 1];
      SplitJoined(a, b[..|b| - 1]);
    }
  }

  lemma {:induction false} BodyOfBytes(s: string)
    ensures BodyOf(Bytes(Body, s)) == s && Notices(Bytes(Body, s)) == []
    decreases |s|
  {
    if s != "" {
      assert Bytes(Body, s)[..|s| - 1] == Bytes(Body, s[..|s| - 1]);
      BodyOfBytes(s[..|s| - 1]);
    }
  }

  // ---------- lengths ----------

  predicate Digits(s: string) { forall i | 0 <= i < |s| :: IsNum(s[i]) }
  predicate HexDigits(s: string) { forall i | 0 <= i < |s| :: Unhex(s[i]) >= 0 }

  function DecimalValue(s: string): int {
    if s == "" then 0 else DecimalValue(s[..|s| - 1]) * 10 + (s[|s| - 1] as int - '0' as int)
  }

  function SizeValue(s: string): int {
    if s == "" then 0 else SizeValue(s[..|s| - 1]) * 16 + Unhex(s[|s| - 1])
  }

  /** The largest lengths the overflow tests let through. */
  const MAX_LENGTH: nat := (NO_LENGTH - 10) / 10 * 10 + 9
  const MAX_CHUNK: nat := (NO_LENGTH - 16) / 16 * 16 + 15

  lemma {:induction false} ValuesArePositive(s: string)
    ensures Digits(s) ==> DecimalValue(s) >= 0
    ensures HexDigits(s) ==> SizeValue(s) >= 0
    decreases |s|
  {
    if s != "" { ValuesArePositive(s[..|s| - 1]); }
  }

  /**
   A content length's digits: the parser holds exactly their decimal value, or
   has refused them because the value is above the limit; it never wraps around
   and never equals the mark for `no length`. The first digit arrives where the
   blanks behind the colon are skipped.
   */
  lemma {:induction false} LengthIsExact(m: Message, p: Parser, s: string)
    requires p.state == ValueDiscardWs && p.matching == ContentLength && p.error == Ok && !p.flags.length
    requires s != "" && Digits(s)
    ensures MAX_LENGTH < NO_LENGTH && DecimalValue(s) >= 0
    ensures DecimalValue(s) <= MAX_LENGTH ==> Run(m, p, s) == (LengthRead(p, s), Bytes(ValueText, s))
    ensures DecimalValue(s) > MAX_LENGTH ==> Run(m, p, s).0.error == InvalidLength
    decreases |s|
  {
    hide Run, Feed, DecimalValue;
    DecimalLast(s);
    var s', d := s[..|s| - 1], s[|s| - 1];
    LastByte(s);
    ValuesArePositive(s');
    RunLast(m, p, s', d);
    OneMoreByte(ValueText, s);
    if s' == "" {
      RunNothing(m, p);
      FirstLengthDigit(m, p, d);
    } else {
      LengthIsExact(m, p, s');
      var q := Run(m, p, s').0;
      if DecimalValue(s') <= MAX_LENGTH { LengthStep(m, q, d); } else { FeedAfterError(m, q, d); }
    }
  }

  /** The parser behind the digits of a content length. */
  function LengthRead(p: Parser, s: string): Parser {
    var n := DecimalValue(s);
    p.(state := Value, matching := ContentLengthNum, index := 0, flags := p.flags.(length := true),
       length := if n >= 0 then n else 0, nread := p.nread + |s|)
  }

  lemma DecimalLast(s: string)
    requires s != "" && Digits(s)
    ensures var s', d := s[..|s| - 1], s[|s| - 1];
            DecimalValue(s) == DecimalValue(s') * 10 + (d as int - '0' as int) && IsNum(d) && Digits(s') && (s' == "" ==> DecimalValue(s') == 0)
  {
  }

  lemma FeedAfterError(m: Message, p: Parser, d: char)
    requires p.error != Ok
    ensures Feed(m, p, d) == (p, [])
  {
  }

  lemma FirstLengthDigit(m: Message, p: Parser, d: char)
    requires p.state == ValueDiscardWs && p.matching == ContentLength && p.error == Ok && !p.flags.length && IsNum(d)
    ensures Feed(m, p, d)
            == (p.(state := Value, matching := ContentLengthNum, index := 0, flags := p.flags.(length := true),
                   length := d as int - '0' as int, nread := p.nread + 1), [Byte(ValueText, d)])
  {
  }

  lemma LengthStep(m: Message, p: Parser, d: char)
    requires p.state == Value && p.matching == ContentLengthNum && p.error == Ok && IsNum(d) && p.length <= MAX_LENGTH
    ensures var v := p.length * 10 + (d as int - '0' as int);
            if v <= MAX_LENGTH then Feed(m, p, d) == (p.(length := v, nread := p.nread + 1), [Byte(ValueText, d)])
            else Feed(m, p, d).0.error == InvalidLength
  {
  }

  /** A chunk size's digits: likewise, in hexadecimal. */
  lemma {:induction false} ChunkSizeIsExact(m: Message, p: Parser, s: string)
    requires p.state == ChunkSizeStart && p.error == Ok && s != "" && HexDigits(s)
    ensures MAX_CHUNK < NO_LENGTH
    ensures 0 <= SizeValue(s) <= MAX_CHUNK ==>
              Run(m, p, s) == (p.(state := ChunkSize, length := SizeValue(s), nread := p.nread + |s|), [])
    ensures SizeValue(s) > MAX_CHUNK ==> Run(m, p, s).0.error == InvalidLength
    decreases |s|
  {
    hide Run, Feed, SizeValue, Unhex;
    HexLast(s);
    var s', d := s[..|s| - 1], s[|s| - 1];
    LastByte(s);
    ValuesArePositive(s');
    RunLast(m, p, s', d);
    if s' == "" {
      RunNothing(m, p);
      FirstSizeDigit(m, p, d);
    } else {
      ChunkSizeIsExact(m, p, s');
      var q := Run(m, p, s').0;
      if SizeValue(s') <= MAX_CHUNK { ChunkSizeStep(m, q, d); } else { FeedAfterError(m, q, d); }
    }
  }

  lemma HexLast(s: string)
    requires s != "" && HexDigits(s)
    ensures var s', d := s[..|s| - 1], s[|s| - 1];
            SizeValue(s) == SizeValue(s') * 16 + Unhex(d) && 0 <= Unhex(d) < 16 && HexDigits(s') && (s' == "" ==> SizeValue(s') == 0)
  {
  }

  lemma FirstSizeDigit(m: Message, p: Parser, d: char)
    requires p.state == ChunkSizeStart && p.error == Ok && Unhex(d) >= 0
    ensures Feed(m, p, d) == (p.(state := ChunkSize, length := Unhex(d), nread := p.nread + 1), [])
  {
  }

  lemma ChunkSizeStep(m: Message, p: Parser, d: char)
    requires p.state == ChunkSize && p.error == Ok && Unhex(d) >= 0 && p.length <= MAX_CHUNK
    ensures var v := p.length * 16 + Unhex(d);
            if v <= MAX_CHUNK then Feed(m, p, d) == (p.(length := v, nread := p.nread + 1), [])
            else Feed(m, p, d).0.error == InvalidLength
  {
  }

  // ---------- identity bodies ----------

  /**
   A body of declared length: the bytes delivered are the next bytes of the stream
   and add up to exactly the declared length; then the message is complete.
   */
  lemma {:induction false} IdentityBody(m: Message, p: Parser, s: string)
    requires p.state == BodyIdentity && p.error == Ok && |s| <= p.length && p.length > 0
    ensures |s| < p.length ==> Run(m, p, s) == (p.(length := p.length - |s|), Bytes(Body, s))
    ensures |s| == p.length ==> Run(m, p, s) == (NewMessage(m, p.(length := 0)), Bytes(Body, s) + [Notify(MessageComplete)])
    decreases |s|
  {
    hide Run, Feed, KeepAlive;
    if s == "" {
      RunNothing(m, p);
      assert Bytes(Body, s) == [];
    } else {
      var s', c := s[..|s| - 1], s[|s| - 1];
      LastByte(s);
      RunLast(m, p, s', c);
      IdentityBody(m, p, s');
      IdentityByte(m, p.(length := p.length - |s'|), c);
      OneMoreByte(Body, s);
      assert Bytes(Body, s') + [Byte(Body, c), Notify(MessageComplete)] == (Bytes(Body, s') + [Byte(Body, c)]) + [Notify(MessageComplete)];
    }
  }

  lemma IdentityByte(m: Message, p: Parser, c: char)
    requires p.state == BodyIdentity && p.error == Ok && p.length > 0
    ensures Feed(m, p, c) == if p.length == 1 then (NewMessage(m, p.(length := 0)), [Byte(Body, c), Notify(MessageComplete)])
                             else (p.(length := p.length - 1), [Byte(Body, c)])
  {
    hide KeepAlive;
    var q := p.(length := 0, state := MessageDone);
    DoneVisit(m, q, c);
    KeepAliveIgnoresState(m, q, p.(length := 0));
    assert [Byte(Body, c)] + [Notify(MessageComplete)] == [Byte(Body, c), Notify(MessageComplete)];
  }

  lemma DoneVisit(m: Message, p: Parser, c: char)
    requires p.state == MessageDone
    ensures Visits(m, p, c) == (NewMessage(m, p), [Notify(MessageComplete)])
  {
    hide KeepAlive;
  }

  lemma KeepAliveIgnoresState(m: Message, p: Parser, q: Parser)
    requires p.flags == q.flags && p.encoded == q.encoded && p.length == q.length
    ensures KeepAlive(m, p) == KeepAlive(m, q)
  {
  }

  /** A body that ends with the connection: all bytes are delivered. */
  lemma {:induction false} EofBody(m: Message, p: Parser, s: string)
    requires p.state == BodyIdentityEof && p.error == Ok
    ensures Run(m, p, s) == (p, Bytes(Body, s))
    decreases |s|
  {
    if s == "" {
      assert Bytes(Body, s) == [];
    } else {
      EofBody(m, p, s[..|s| - 1]);
      OneMoreByte(Body, s);
    }
  }

  // ---------- the chunked coding ----------

  /** One chunk as written: its size in hexadecimal, an extension, its data. */
  datatype Chunk = Chunk(size: string, extension: string, data: string)

  /** An extension starts with a semicolon (or a blank) and does not contain a carriage return. */
  predicate Extension(s: string) {
    s == "" || ((s[0] == ';' || s[0] == ' ') && forall i | 0 <= i < |s| :: s[i] != CR)
  }

  /** The size is the number of data bytes, and there are some. */
  predicate Proper(c: Chunk) {
    c.size != "" && HexDigits(c.size) && Extension(c.extension) && SizeValue(c.size) == |c.data| && 0 < |c.data| <= MAX_CHUNK
  }

  /** The last chunk has size zero and no data. */
  predicate ProperLast(c: Chunk) {
    c.size != "" && HexDigits(c.size) && Extension(c.extension) && SizeValue(c.size) == 0 && c.data == ""
  }

  function ChunkHead(c: Chunk): string { c.size + (c.extension + [CR, LF]) }

  function Coded(c: Chunk): string { ChunkHead(c) + (c.data + [CR, LF]) }

  function Joined(chunks: seq<Chunk>): string {
    if chunks == [] then "" else chunks[0].data + Joined(chunks[1..])
  }

  lemma RunTwo(m: Message, p: Parser, a: char, b: char)
    ensures var (q, e) := Feed(m, p, a); var (r, f) := Feed(m, q, b);
            Run(m, p, [a, b]) == (r, e + f)
  {
    hide Feed, Run;
    RunNothing(m, p);
    RunLast(m, p, "", a);
    RunLast(m, p, [a], b);
    assert "" + [a] == [a] && [a] + [b] == [a, b];
  }

  /** Extensions are read over. */
  lemma {:induction false} ExtensionRun(m: Message, p: Parser, s: string)
    requires p.state == ChunkSize && p.error == Ok && Extension(s)
    ensures Run(m, p, s) == (p.(state := if s == "" then ChunkSize else ChunkParameters, nread := p.nread + |s|), [])
    decreases |s|
  {
    hide Run, Feed;
    if s == "" {
      RunNothing(m, p);
    } else {
      var s', c := s[..|s| - 1], s[|s| - 1];
      LastByte(s);
      ExtensionRun(m, p, s');
      RunLast(m, p, s', c);
      ExtensionByte(m, Run(m, p, s').0, c, s' == "");
    }
  }

  lemma ExtensionByte(m: Message, p: Parser, c: char, first: bool)
    requires p.error == Ok && if first then p.state == ChunkSize && (c == ';' || c == ' ') else p.state == ChunkParameters && c != CR
    ensures Feed(m, p, c) == (p.(state := ChunkParameters, nread := p.nread + 1), [])
  {
  }

  /** Size, extension and line end. */
  lemma HeadRun(m: Message, p: Parser, c: Chunk)
    requires p.state == ChunkSizeStart && p.error == Ok && c.size != "" && HexDigits(c.size) && Extension(c.extension)
    requires 0 <= SizeValue(c.size) <= MAX_CHUNK
    ensures var n := SizeValue(c.size);
            Run(m, p, ChunkHead(c))
            == (if n == 0 then p.(state := HeaderFieldStart, length := 0, nread := 0, flags := p.flags.(trailing := true))
                else p.(state := ChunkData, length := n, nread := 0), [Notify(ChunkHeader)])
  {
    hide Run, SizeValue, Feed;
    ChunkSizeIsExact(m, p, c.size);
    var (q, e) := Run(m, p, c.size);
    ExtensionRun(m, q, c.extension);
    var (r, f) := Run(m, q, c.extension);
    RunTwo(m, r, CR, LF);
    HeadEnd(m, r);
    NoEvents([]);
    NoEvents([Notify(ChunkHeader)]);
    RunJoined(m, q, c.extension, [CR, LF]);
    RunJoined(m, p, c.size, c.extension + [CR, LF]);
  }

  lemma HeadEnd(m: Message, p: Parser)
    requires (p.state == ChunkSize || p.state == ChunkParameters) && p.error == Ok
    ensures Feed(m, p, CR) == (p.(state := ChunkSizeAlmostDone, nread := p.nread + 1), [])
    ensures Feed(m, p.(state := ChunkSizeAlmostDone, nread := p.nread + 1), LF)
            == (if p.length == 0 then p.(state := HeaderFieldStart, nread := 0, flags := p.flags.(trailing := true))
                else p.(state := ChunkData, nread := 0), [Notify(ChunkHeader)])
  {
  }

  lemma DataByte(m: Message, p: Parser, c: char)
    requires p.state == ChunkData && p.error == Ok && p.length > 0
    ensures Feed(m, p, c)
            == (if p.length == 1 then p.(length := 0, state := ChunkDataAlmostDone) else p.(length := p.length - 1), [Byte(Body, c)])
  {
    hide Unhex, Wrap64, TextTurn, LineTurn, EndTurn;
    assert Turn(m, p, c) == ChunkTurn(p, c);
    assert ChunkTurn(p, c)
        == Turned(if p.length <= 1 then p.(length := 0, state := ChunkDataAlmostDone) else p.(length := p.length - 1), [Byte(Body, c)], false);
  }

  lemma {:induction false} DataRun(m: Message, p: Parser, s: string)
    requires p.state == ChunkData && p.error == Ok && |s| <= p.length && p.length > 0
    ensures Run(m, p, s) == (p.(length := p.length - |s|, state := if |s| == p.length then ChunkDataAlmostDone else ChunkData), Bytes(Body, s))
    decreases |s|
  {
    hide Run, Feed;
    if s == "" {
      RunNothing(m, p);
      assert Bytes(Body, s) == [];
    } else {
      var s', c := s[..|s| - 1], s[|s| - 1];
      LastByte(s);
      RunLast(m, p, s', c);
      DataRun(m, p, s');
      DataByte(m, p.(length := p.length - |s'|), c);
      OneMoreByte(Body, s);
    }
  }

  /** One chunk: its bytes, between the two notifications; the parser is ready for the next one. */
  lemma ChunkRun(m: Message, p: Parser, c: Chunk)
    requires p.state == ChunkSizeStart && p.error == Ok && Proper(c)
    ensures Run(m, p, Coded(c)) == (p.(length := 0, nread := 0), [Notify(ChunkHeader)] + Bytes(Body, c.data) + [Notify(ChunkComplete)])
  {
    hide Run, SizeValue, Feed;
    HeadRun(m, p, c);
    var q := Run(m, p, ChunkHead(c)).0;
    DataRun(m, q, c.data);
    var r := Run(m, q, c.data).0;
    RunTwo(m, r, CR, LF);
    DataEnd(m, r);
    NoEvents([Notify(ChunkComplete)]);
    RunJoined(m, q, c.data, [CR, LF]);
    RunJoined(m, p, ChunkHead(c), c.data + [CR, LF]);
    assert [Notify(ChunkHeader)] + (Bytes(Body, c.data) + [Notify(ChunkComplete)])
        == [Notify(ChunkHeader)] + Bytes(Body, c.data) + [Notify(ChunkComplete)];
  }

  lemma DataEnd(m: Message, p: Parser)
    requires p.state == ChunkDataAlmostDone && p.error == Ok
    ensures Feed(m, p, CR) == (p.(state := ChunkDataDone), [])
    ensures Feed(m, p.(state := ChunkDataDone), LF) == (p.(state := ChunkSizeStart, nread := 0), [Notify(ChunkComplete)])
  {
  }

  lemma ChunkEvents(c: Chunk)
    ensures var e := [Notify(ChunkHeader)] + Bytes(Body, c.data) + [Notify(ChunkComplete)];
            BodyOf(e) == c.data && Notices(e) == [ChunkHeader, ChunkComplete] && Notify(MessageComplete) !in e
  {
    var h, b, t := [Notify(ChunkHeader)], Bytes(Body, c.data), [Notify(ChunkComplete)];
    SplitJoined(h, b);
    SplitJoined(h + b, t);
    BodyOfBytes(c.data);
    assert h[..0] == [] && t[..0] == [];
  }
}
