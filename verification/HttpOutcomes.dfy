/**
 How HTTP messages without a body end, which messages keep the connection alive, and
 which header blocks are refused, all on the bytes of the header block.
 */
module HttpOutcomes {
  import opened HttpFraming
  import opened HttpBodies
  import opened HttpMessages

  // ---------- messages that have no body ----------

  /** A message of this kind has no body unless a line declares one: requests, and responses with certain statuses or to certain requests. */
  predicate Unbodied(m: Message) { m.request || Bodiless(m.status) || m.answerSkip }

  /** Does the connection stay open, by what the version and the Connection lines say? */
  predicate Persistent(m: Message, f: Flags) {
    if m.major > 0 && m.minor > 0 then !f.close else f.keepAlive
  }

  /** At the end of a header block that declares no body. */
  predicate Undeclared(p: Parser) {
    p.length == NO_LENGTH && !p.encoded && !p.flags.chunked && !p.flags.trailing && !p.flags.skipBody && !p.flags.length
  }

  function NextState(m: Message, f: Flags): State { if Persistent(m, f) then StartLine else Dead }

  lemma UndeclaredFraming(m: Message, y: Parser)
    requires !m.connect && y.error == Ok && Undeclared(y) && Stays(m, y)
    ensures var a := HeadersEnd(m, AtEmptyLine(y)); var t := Framing(m, a);
            && a.error == Ok && t.p.error == Ok
            && (Unbodied(m) ==> t.events == [Notify(MessageComplete)] && t.p.state == NextState(m, y.flags))
            && (!Unbodied(m) ==> t.events == [] && t.p.state == BodyIdentityEof)
  {
  }

  /** Header text, then the end of the header block. */
  ghost predicate Opens(e: seq<Event>) {
    exists h: seq<Event> :: Texts(h) && e == h + [Notify(HeadersComplete)]
  }

  /** What the empty line of such a block tells, behind texts already told. */
  lemma EmptyLineTells(m: Message, y: Parser, h: seq<Event>)
    requires !m.connect && y.error == Ok && Undeclared(y) && Stays(m, y) && Texts(h)
    ensures var a := HeadersEnd(m, AtEmptyLine(y)); var e := h + ([Notify(HeadersComplete)] + Framing(m, a).events);
            && a.error == Ok && Framing(m, a).p.error == Ok
            && (Unbodied(m) ==> Tells(e, "") && Framing(m, a).p.state == NextState(m, y.flags))
            && (!Unbodied(m) ==> Opens(e) && Framing(m, a).p.state == BodyIdentityEof)
  {
    hide HeadersEnd, Framing, Texts;
    UndeclaredFraming(m, y);
    assert Bytes(Body, "") == [];
    var e := h + ([Notify(HeadersComplete)] + Framing(m, HeadersEnd(m, AtEmptyLine(y))).events);
    if Unbodied(m) {
      assert e == h + ([Notify(HeadersComplete)] + Bytes(Body, "") + [Notify(MessageComplete)]);
    } else {
      assert e == h + [Notify(HeadersComplete)];
    }
  }

  /**
   The bytes of any header block of well-formed lines that declare no body. A request,
   or a response that has no body by its status or by what it answers: the header
   texts, headers_complete and one message_complete at the end. Any other response:
   its body is everything up to the end of the connection.
   */
  lemma PlainMessage(m: Message, p: Parser, lines: seq<FieldLine>)
    requires Beginning(p) && !m.connect && AllPlain(lines) && NoSwitch(m, lines, [])
    ensures var (q, e) := Run(m, p, Lines(lines) + [CR, LF]);
            && q.error == Ok
            && (Unbodied(m) ==> Tells(e, "") && Finished(q))
            && (!Unbodied(m) ==> Opens(e) && q.state == BodyIdentityEof)
    ensures Run(m, p, Lines(lines) + [CR, LF]).1
            == LinesEvents(lines) + ([Notify(HeadersComplete)] + if Unbodied(m) then [Notify(MessageComplete)] else [])
    ensures Unbodied(m) && !AnyConnection(lines) ==>
              Run(m, p, Lines(lines) + [CR, LF]).0.state == if m.major > 0 && m.minor > 0 then StartLine else Dead
  {
    hide Run, AllPlain, Lines, LinesEvents, HeadersEnd, Framing, Settled, AtLine, Texts, Tells, Opens, AnyNamesUpgrade, AnyAsks, AnyConnection, Unbodied;
    PlainProper(lines);
    FirstLine(p);
    LinesRun(m, p, lines);
    var (z, h) := Run(m, p, Lines(lines));
    AtSettled(z);
    var y := Settled(z);
    SwitchStays(m, p, lines, y);
    BlockEnd(m, z);
    EmptyLineTells(m, y, h);
    UndeclaredFraming(m, y);
    RunJoined(m, p, Lines(lines), [CR, LF]);
  }

  lemma FirstLine(p: Parser)
    requires Beginning(p)
    ensures AtLine(p) && Settled(p) == p
  {
  }

  lemma SwitchStays(m: Message, p: Parser, lines: seq<FieldLine>, y: Parser)
    requires Beginning(p) && UpgradeKept(p, y, AnyNamesUpgrade(lines), AnyAsks(lines)) && NoSwitch(m, lines, [])
    ensures Stays(m, y)
  {
    hide Asks, Spells;
  }

  /** Behind such a block of a response with a body, every byte belongs to the body, and nothing ends it but the connection. */
  lemma PlainResponseBody(m: Message, p: Parser, lines: seq<FieldLine>, body: string)
    requires Beginning(p) && !m.connect && AllPlain(lines) && NoSwitch(m, lines, []) && !Unbodied(m)
    ensures var (q, e) := Run(m, p, Lines(lines) + [CR, LF] + body);
            q.error == Ok && q.state == BodyIdentityEof && BodyOf(e) == body && Notify(MessageComplete) !in e
  {
    hide Run, AllPlain, Lines, Texts, Unbodied, NoSwitch, BodyOf;
    PlainMessage(m, p, lines);
    var (q, e) := Run(m, p, Lines(lines) + [CR, LF]);
    EofBody(m, q, body);
    RunJoined(m, p, Lines(lines) + [CR, LF], body);
    var h: seq<Event> :| Texts(h) && e == h + [Notify(HeadersComplete)];
    TextsBody(h);
    NoticeBody(HeadersComplete);
    SplitJoined(h, [Notify(HeadersComplete)]);
    BodyOfBytes(body);
    SplitJoined(e, Bytes(Body, body));
  }

  // ---------- bodies that are skipped ----------

  /** The headers callback has answered that there is no body: the message ends with its header block, whatever length it declares. */
  lemma SkippedRest(m: Message, r: Parser, after: seq<FieldLine>)
    requires !m.connect && m.answerSkip && AllPlain(after) && Unswitched(m, Settled(r), after)
    requires r.state == Value && r.error == Ok && !Settled(r).flags.trailing
    requires !(Settled(r).encoded && Settled(r).flags.length)
    ensures var (q, e) := Run(m, r, [CR, LF] + Lines(after) + [CR, LF]); Finished(q) && Tells(e, "")
  {
    hide Run, AllPlain, Lines, HeadersEnd, Framing, Settled, Texts, Unswitched, Stays;
    var y, g := BlockTail(m, r, after);
    SkippedFraming(m, y);
    assert Bytes(Body, "") == [];
    var e := Run(m, r, [CR, LF] + Lines(after) + [CR, LF]).1;
    assert e == g + ([Notify(HeadersComplete)] + Bytes(Body, "") + [Notify(MessageComplete)]);
  }

  lemma SkippedFraming(m: Message, y: Parser)
    requires !m.connect && m.answerSkip && y.error == Ok && Stays(m, y) && !y.flags.trailing && !(y.encoded && y.flags.length)
    ensures var a := HeadersEnd(m, AtEmptyLine(y)); var t := Framing(m, a);
            a.error == Ok && Finished(t.p) && t.events == [Notify(MessageComplete)]
  {
    hide KeepAlive, NeedsEof;
  }

  lemma DeclaredSkipped(m: Message, p: Parser, before: seq<FieldLine>, name: string, blanks: string, digits: string, after: seq<FieldLine>)
    requires Beginning(p) && !m.connect && m.answerSkip && AllPlain(before) && AllPlain(after) && NoSwitch(m, before, after)
    requires Spells(name, LENGTH_NAME) && Blanks(blanks) && digits != "" && Digits(digits) && DecimalValue(digits) <= MAX_LENGTH
    ensures var (q, e) := Run(m, p, Block(before, LengthBlock(name, blanks, digits), after)); Finished(q) && Tells(e, "")
  {
    hide Run, Spells, AllPlain, Lines, Blanks, DecimalValue, LengthBlock, Texts, Tells, AnyNamesUpgrade, AnyAsks, AnyConnection;
    var line, rest := LengthBlock(name, blanks, digits), [CR, LF] + Lines(after) + [CR, LF];
    LengthStarts(name, blanks, digits);
    TextFirst(line, rest);
    var q, h := BlockHead(m, p, before, line + rest);
    LengthLine(m, q, name, blanks, digits);
    var (r, e) := Run(m, q, line);
    LengthSettled(r);
    SkippedRest(m, r, after);
    RunJoined(m, q, line, rest);
    assert Block(before, line, after) == Lines(before) + (line + rest);
    LengthTexts(name, digits);
    TellsLater(e, Run(m, r, rest).1, "");
    TellsLater(h, Run(m, q, line + rest).1, "");
  }

  lemma ChunkedSkipped(m: Message, p: Parser, before: seq<FieldLine>, name: string, blanks: string, coding: string, after: seq<FieldLine>)
    requires Beginning(p) && !m.connect && m.answerSkip && AllPlain(before) && AllPlain(after) && NoSwitch(m, before, after)
    requires Spells(name, CODING_NAME) && Blanks(blanks) && Spells(coding, CHUNKED)
    ensures var (q, e) := Run(m, p, Block(before, CodingLine(name, blanks, coding), after)); Finished(q) && Tells(e, "")
  {
    hide Run, Spells, AllPlain, Lines, Blanks, CodingLine, Texts, Tells, Settled, AnyNamesUpgrade, AnyAsks, AnyConnection;
    var line, rest := CodingLine(name, blanks, coding), [CR, LF] + Lines(after) + [CR, LF];
    CodingStarts(name, blanks, coding);
    TextFirst(line, rest);
    var q, h := BlockHead(m, p, before, line + rest);
    ChunkedLine(m, q, name, blanks, coding);
    var (r, e) := Run(m, q, line);
    SkippedRest(m, r, after);
    RunJoined(m, q, line, rest);
    assert Block(before, line, after) == Lines(before) + (line + rest);
    TellsLater(e, Run(m, r, rest).1, "");
    TellsLater(h, Run(m, q, line + rest).1, "");
  }

  // ---------- which messages keep the connection alive ----------

  /** What k letters of `connection` have been recognized as. */
  function ConnectionMatch(k: nat): Matching {
    if k == 1 then C else if k == 2 then CO else if k == 3 then CON else if k < |CONNECTION_NAME| then NameConnection else Connection
  }

  lemma ConnectionNameByte(m: Message, p: Parser, k: nat, ch: char)
    requires 1 <= k < |CONNECTION_NAME| && Token(ch) == CONNECTION_NAME[k]
    requires p.state == HeaderField && p.error == Ok && p.index == k - 1 && p.matching == ConnectionMatch(k)
    ensures Feed(m, p, ch) == (p.(index := k, matching := ConnectionMatch(k + 1), nread := p.nread + 1), [Byte(Field, ch)])
  {
    hide Token;
    assert CONNECTION_NAME == "connection";
  }

  lemma {:induction false} ConnectionNameRun(m: Message, p: Parser, name: string)
    requires p.state == HeaderFieldStart && p.error == Ok
    requires 0 < |name| <= |CONNECTION_NAME| && Spells(name, CONNECTION_NAME[..|name|])
    ensures Run(m, p, name)
            == (p.(state := HeaderField, index := |name| - 1, matching := ConnectionMatch(|name|), nread := p.nread + |name|),
                Bytes(Field, name))
    decreases |name|
  {
    hide Run, Feed, Token;
    var s', ch := name[..|name| - 1], name[|name| - 1];
    LastByte(name);
    OneMoreByte(Field, name);
    RunLast(m, p, s', ch);
    assert Token(ch) == CONNECTION_NAME[|name| - 1];
    if s' == "" {
      RunNothing(m, p);
      NameFirst(m, p, ch);
    } else {
      ConnectionNameRun(m, p, s');
      ConnectionNameByte(m, Run(m, p, s').0, |s'|, ch);
    }
  }

  const CLOSE: string := "close"
  const KEEP_ALIVE: string := "keep-alive"

  /** What k letters of an option have been recognized as. */
  function OptionMatch(option: string, k: nat): Matching {
    if option == CLOSE then (if k < |option| then OptionClose else CloseMatched)
    else if k < |option| then OptionKeepAlive else KeepAliveMatched
  }

  lemma OptionLetter(ch: char)
    requires 'a' <= Token(ch) <= 'z' || Token(ch) == '-'
    ensures Lower(ch) == Token(ch) && ch != ' ' && ch != '\t' && ch != CR && ch != LF && IsHeaderChar(ch)
  {
  }

  lemma OptionByte(m: Message, p: Parser, option: string, k: nat, ch: char)
    requires option == CLOSE || option == KEEP_ALIVE
    requires k < |option| && Token(ch) == option[k] && p.error == Ok
    requires if k == 0 then p.state == ValueDiscardWs && p.matching == Connection
             else p.state == Value && p.index == k - 1 && p.matching == OptionMatch(option, k)
    ensures Feed(m, p, ch)
            == (p.(state := Value, index := k, matching := OptionMatch(option, k + 1), nread := p.nread + 1), [Byte(ValueText, ch)])
  {
    OptionLetter(ch);
    hide Token, Lower, IsHeaderChar;
    assert CLOSE == "close" && KEEP_ALIVE == "keep-alive";
  }

  lemma {:induction false} OptionRun(m: Message, p: Parser, option: string, s: string)
    requires option == CLOSE || option == KEEP_ALIVE
    requires p.state == ValueDiscardWs && p.error == Ok && p.matching == Connection
    requires 0 < |s| <= |option| && Spells(s, option[..|s|])
    ensures Run(m, p, s)
            == (p.(state := Value, index := |s| - 1, matching := OptionMatch(option, |s|), nread := p.nread + |s|), Bytes(ValueText, s))
    decreases |s|
  {
    hide Run, Feed, Token, OptionMatch;
    var s', ch := s[..|s| - 1], s[|s| - 1];
    LastByte(s);
    OneMoreByte(ValueText, s);
    RunLast(m, p, s', ch);
    assert Token(ch) == option[|s| - 1];
    if s' == "" {
      RunNothing(m, p);
    } else {
      OptionRun(m, p, option, s');
    }
    OptionByte(m, Run(m, p, s').0, option, |s'|, ch);
  }

  function OptionLine(name: string, blanks: string, option: string): string { name + (":" + blanks) + option }

  /** A Connection line with one of the two options sets exactly its flag. */
  lemma OptionSets(m: Message, p: Parser, name: string, blanks: string, option: string, s: string)
    requires option == CLOSE || option == KEEP_ALIVE
    requires p.state == HeaderFieldStart && p.error == Ok && Spells(name, CONNECTION_NAME) && Blanks(blanks) && Spells(s, option)
    ensures var (r, e) := Run(m, p, OptionLine(name, blanks, s));
            && r.state == Value && r.error == Ok && Texts(e)
            && Settled(r).length == p.length && Settled(r).encoded == p.encoded
            && Settled(r).flags == if option == CLOSE then p.flags.(close := true) else p.flags.(keepAlive := true)
  {
    hide Run, Token, Blanks;
    assert CONNECTION_NAME[..|name|] == CONNECTION_NAME && option[..|s|] == option;
    ConnectionNameRun(m, p, name);
    BlanksRun(m, Run(m, p, name).0, blanks);
    RunJoined(m, p, name, ":" + blanks);
    OptionRun(m, Run(m, p, name + (":" + blanks)).0, option, s);
    RunJoined(m, p, name + (":" + blanks), s);
    NoEvents(Bytes(Field, name));
    LengthTexts(name, s);
  }

  lemma OptionStarts(name: string, blanks: string, option: string)
    requires Spells(name, CONNECTION_NAME)
    ensures OptionLine(name, blanks, option) != ""
            && OptionLine(name, blanks, option)[0] != ' ' && OptionLine(name, blanks, option)[0] != '\t'
  {
    assert Token(' ') == '\0' && Token('\t') == '\0';
    hide Token;
    assert Token(name[0]) == 'c';
  }

  /**
   A message without a body that has one Connection line: `close` closes the
   connection and `keep-alive` keeps it, whatever the version.
   */
  lemma ConnectionDecides(m: Message, p: Parser, before: seq<FieldLine>, name: string, blanks: string, option: string, s: string,
                          after: seq<FieldLine>)
    requires option == CLOSE || option == KEEP_ALIVE
    requires Beginning(p) && !m.connect && Unbodied(m) && AllPlain(before) && AllPlain(after) && NoSwitch(m, before, after)
    requires !AnyConnection(before) && !AnyConnection(after)
    requires Spells(name, CONNECTION_NAME) && Blanks(blanks) && Spells(s, option)
    ensures var (q, e) := Run(m, p, Block(before, OptionLine(name, blanks, s), after));
            q.error == Ok && Tells(e, "") && q.state == if option == CLOSE then Dead else StartLine
  {
    hide Run, Spells, AllPlain, Lines, Blanks, OptionLine, Texts, Tells, Settled, AnyNamesUpgrade, AnyAsks, AnyConnection;
    hide HeadersEnd, Framing, Unbodied;
    var line, rest := OptionLine(name, blanks, s), [CR, LF] + Lines(after) + [CR, LF];
    OptionStarts(name, blanks, s);
    TextFirst(line, rest);
    var q, h := BlockHead(m, p, before, line + rest);
    OptionSets(m, q, name, blanks, option, s);
    var (r, e) := Run(m, q, line);
    var y, g := BlockTail(m, r, after);
    EmptyLineTells(m, y, g);
    RunJoined(m, q, line, rest);
    assert Block(before, line, after) == Lines(before) + (line + rest);
    TellsLater(e, Run(m, r, rest).1, "");
    TellsLater(h, Run(m, q, line + rest).1, "");
  }

  // ---------- header blocks that are refused ----------

  /** What stands where the digits of a length are due is none. */
  lemma NotALength(m: Message, p: Parser, before: seq<FieldLine>, name: string, blanks: string, c: char, rest: string)
    requires Beginning(p) && AllPlain(before) && Spells(name, LENGTH_NAME) && Blanks(blanks)
    requires !IsNum(c) && c != ' ' && c != '\t' && c != CR && c != LF
    ensures Run(m, p, Lines(before) + (name + (":" + blanks) + ([c] + rest))).0.error == InvalidLength
  {
    hide Run, Feed, Spells, AllPlain, Lines, Blanks;
    var s := [c] + rest;
    LengthStarts(name, blanks, s);
    var q, h := BlockHead(m, p, before, name + (":" + blanks) + s);
    var r := LengthHead(m, q, name, blanks, s);
    RunNothing(m, r);
    RunLast(m, r, "", c);
    assert "" + [c] == [c];
    BadFirst(m, r, c);
    RunJoined(m, r, [c], rest);
    RunAfterError(m, Run(m, r, [c]).0, rest);
  }

  lemma BadFirst(m: Message, r: Parser, c: char)
    requires r.state == ValueDiscardWs && r.error == Ok && r.matching == ContentLength
    requires c != ' ' && c != '\t' && c != CR && c != LF
    ensures !IsNum(c) ==> Feed(m, r, c).0.error == InvalidLength
    ensures IsNum(c) && r.flags.length ==> Feed(m, r, c).0.error == UnexpectedLength
  {
  }

  /** Name, colon and blanks of a content length. */
  lemma LengthHead(m: Message, q: Parser, name: string, blanks: string, s: string) returns (r: Parser)
    requires q.state == HeaderFieldStart && q.error == Ok && Spells(name, LENGTH_NAME) && Blanks(blanks)
    ensures r.state == ValueDiscardWs && r.error == Ok && r.matching == ContentLength && r.flags == q.flags
    ensures Run(m, q, name + (":" + blanks) + s).0 == Run(m, r, s).0
  {
    hide Run, Token;
    assert LENGTH_NAME[..|name|] == LENGTH_NAME;
    LengthNameRun(m, q, name);
    BlanksRun(m, Run(m, q, name).0, blanks);
    RunJoined(m, q, name, ":" + blanks);
    r := Run(m, q, name + (":" + blanks)).0;
    RunJoined(m, q, name + (":" + blanks), s);
  }

  /** A second length is refused, whether or not it is the same. */
  lemma SecondLengthRefused(m: Message, p: Parser, before: seq<FieldLine>, name: string, blanks: string, digits: string,
                            between: seq<FieldLine>, name2: string, blanks2: string, c: char, rest: string)
    requires Beginning(p) && AllPlain(before) && AllPlain(between) && IsNum(c)
    requires Spells(name, LENGTH_NAME) && Blanks(blanks) && digits != "" && Digits(digits) && DecimalValue(digits) <= MAX_LENGTH
    requires Spells(name2, LENGTH_NAME) && Blanks(blanks2)
    ensures Run(m, p, Lines(before) + (LengthBlock(name, blanks, digits) + ([CR, LF] + Lines(between)
                      + (name2 + (":" + blanks2) + ([c] + rest))))).0.error == UnexpectedLength
  {
    hide Run, Feed, Spells, AllPlain, AllProper, Lines, Blanks, DecimalValue, LengthBlock, Settled, AtLine, Texts;
    hide AnyNamesUpgrade, AnyAsks, AnyConnection;
    var s := [c] + rest;
    var last := name2 + (":" + blanks2) + s;
    var line, tail := LengthBlock(name, blanks, digits), [CR, LF] + Lines(between) + last;
    LengthStarts(name, blanks, digits);
    TextFirst(line, tail);
    var q, h := BlockHead(m, p, before, line + tail);
    LengthLine(m, q, name, blanks, digits);
    var r := Run(m, q, line).0;
    RunJoined(m, q, line, tail);
    LengthDeclares(r);
    AfterLength(m, r, between, name2, blanks2, c, rest);
  }

  lemma LengthDeclares(r: Parser)
    requires r.state == Value && r.error == Ok && r.matching == ContentLengthNum
    ensures var v := r.(state := ValueLws, nread := r.nread + 2); AtLine(v) && Settled(v).flags == r.flags
  {
  }

  lemma AfterLength(m: Message, r: Parser, between: seq<FieldLine>, name2: string, blanks2: string, c: char, rest: string)
    requires r.state == Value && r.error == Ok && r.flags.length && AllPlain(between) && IsNum(c)
    requires AtLine(r.(state := ValueLws, nread := r.nread + 2)) && Settled(r.(state := ValueLws, nread := r.nread + 2)).flags == r.flags
    requires Spells(name2, LENGTH_NAME) && Blanks(blanks2)
    ensures Run(m, r, [CR, LF] + Lines(between) + (name2 + (":" + blanks2) + ([c] + rest))).0.error == UnexpectedLength
  {
    hide Run, Feed, Spells, AllPlain, AllProper, Lines, Blanks, Settled, AtLine, Texts;
    hide AnyNamesUpgrade, AnyAsks, AnyConnection;
    var s := [c] + rest;
    var last := name2 + (":" + blanks2) + s;
    ValueEnd(m, r);
    var v := r.(state := ValueLws, nread := r.nread + 2);
    PlainProper(between);
    LinesRun(m, v, between);
    var z := Run(m, v, Lines(between)).0;
    AtSettled(z);
    LengthStarts(name2, blanks2, s);
    SettledRun(m, z, last);
    var u := LengthHead(m, Settled(z), name2, blanks2, s);
    RunNothing(m, u);
    RunLast(m, u, "", c);
    assert "" + [c] == [c];
    BadFirst(m, u, c);
    RunJoined(m, u, [c], rest);
    RunAfterError(m, Run(m, u, [c]).0, rest);
    RunJoined(m, r, [CR, LF], Lines(between));
    RunJoined(m, r, [CR, LF] + Lines(between), last);
  }

  /** A request whose body has a coding other than chunked. */
  lemma RequestCodingRefused(m: Message, p: Parser, before: seq<FieldLine>, name: string, blanks: string, coding: string,
                             after: seq<FieldLine>)
    requires Beginning(p) && m.request && !m.connect && !m.answerSkip && AllPlain(before) && AllPlain(after) && NoSwitch(m, before, after)
    requires Spells(name, CODING_NAME) && Blanks(blanks) && OtherCoding(coding)
    ensures Run(m, p, Block(before, CodingLine(name, blanks, coding), after)).0.error == InvalidEncoding
  {
    hide Run, Spells, AllPlain, Lines, Blanks, OtherCoding, Settled, Texts, HeadersEnd, Framing, CodingLine;
    hide AnyNamesUpgrade, AnyAsks, AnyConnection;
    var line, tail := CodingLine(name, blanks, coding), [CR, LF] + Lines(after) + [CR, LF];
    CodingStarts(name, blanks, coding);
    TextFirst(line, tail);
    var q, h := BlockHead(m, p, before, line + tail);
    OtherLine(m, q, name, blanks, coding);
    var r := Run(m, q, line).0;
    var y, g := BlockTail(m, r, after);
    InvalidCoding(m, y);
    RunJoined(m, q, line, tail);
    assert Block(before, line, after) == Lines(before) + (line + tail);
  }

  lemma InvalidCoding(m: Message, y: Parser)
    requires m.request && !m.connect && !m.answerSkip && y.error == Ok && Unchunked(y) && Stays(m, y)
    ensures var a := HeadersEnd(m, AtEmptyLine(y)); a.error == Ok && Framing(m, a).p.error == InvalidEncoding
  {
    hide KeepAlive, NeedsEof;
  }

  /**
   A message with both a length and a chunked coding is refused, unless the parser is
   set to allow it; then the coding counts and the length does not.
   */
  lemma LengthWithChunked(m: Message, p: Parser, before: seq<FieldLine>, name: string, blanks: string, digits: string,
                          between: seq<FieldLine>, name2: string, blanks2: string, coding: string, after: seq<FieldLine>)
    requires Beginning(p) && !m.connect && !m.answerSkip && AllPlain(before) && AllPlain(between) && AllPlain(after)
    requires NoSwitch(m, before + between, after)
    requires Spells(name, LENGTH_NAME) && Blanks(blanks) && digits != "" && Digits(digits) && DecimalValue(digits) <= MAX_LENGTH
    requires Spells(name2, CODING_NAME) && Blanks(blanks2) && Spells(coding, CHUNKED)
    ensures var line := LengthBlock(name, blanks, digits) + ([CR, LF] + Lines(between) + CodingLine(name2, blanks2, coding));
            var q := Run(m, p, Block(before, line, after)).0;
            if m.allowChunkedLength then q.error == Ok && q.state == ChunkSizeStart else q.error == UnexpectedLength
  {
    hide Run, Spells, AllPlain, AllProper, Lines, Blanks, DecimalValue, LengthBlock, CodingLine, Settled, AtLine, Texts, HeadersEnd, Framing;
    hide AnyNamesUpgrade, AnyAsks, AnyConnection;
    var first, second := LengthBlock(name, blanks, digits), CodingLine(name2, blanks2, coding);
    var line, tail := first + ([CR, LF] + Lines(between) + second), [CR, LF] + Lines(after) + [CR, LF];
    LengthStarts(name, blanks, digits);
    TextFirst(first, [CR, LF] + Lines(between) + second);
    TextFirst(line, tail);
    var q, h := BlockHead(m, p, before, line + tail);
    LengthLine(m, q, name, blanks, digits);
    var r := Run(m, q, first).0;
    LengthDeclares(r);
    CodingAfterLength(m, r, between, name2, blanks2, coding);
    RunJoined(m, q, first, [CR, LF] + Lines(between) + second);
    var u := Run(m, q, line).0;
    NoSwitchJoined(before, between);
    var y, g := BlockTail(m, u, after);
    BothFraming(m, y);
    RunJoined(m, q, line, tail);
    assert Block(before, line, after) == Lines(before) + (line + tail);
  }

  lemma CodingAfterLength(m: Message, r: Parser, between: seq<FieldLine>, name2: string, blanks2: string, coding: string)
    requires r.state == Value && r.error == Ok && r.flags.length && !r.flags.trailing && !r.flags.skipBody && AllPlain(between)
    requires AtLine(r.(state := ValueLws, nread := r.nread + 2)) && Settled(r.(state := ValueLws, nread := r.nread + 2)).flags == r.flags
    requires Spells(name2, CODING_NAME) && Blanks(blanks2) && Spells(coding, CHUNKED)
    ensures var u := Run(m, r, [CR, LF] + Lines(between) + CodingLine(name2, blanks2, coding)).0;
            && u.state == Value && u.error == Ok && Both(Settled(u))
            && UpgradeKept(r, Settled(u), AnyNamesUpgrade(between), AnyAsks(between))
  {
    hide Run, Spells, AllPlain, AllProper, Lines, Blanks, CodingLine, Settled, AtLine, Texts;
    hide AnyNamesUpgrade, AnyAsks, AnyConnection;
    ValueEnd(m, r);
    var v := r.(state := ValueLws, nread := r.nread + 2);
    PlainProper(between);
    LinesRun(m, v, between);
    var z := Run(m, v, Lines(between)).0;
    AtSettled(z);
    CodingStarts(name2, blanks2, coding);
    SettledRun(m, z, CodingLine(name2, blanks2, coding));
    CodedLine(m, Settled(z), name2, blanks2, coding);
    RunJoined(m, r, [CR, LF], Lines(between));
    RunJoined(m, r, [CR, LF] + Lines(between), CodingLine(name2, blanks2, coding));
  }

  /** Both a length and the chunked coding are known. */
  predicate Both(p: Parser) { p.encoded && p.flags.chunked && p.flags.length && !p.flags.trailing && !p.flags.skipBody }

  lemma CodedLine(m: Message, p: Parser, name: string, blanks: string, coding: string)
    requires p.state == HeaderFieldStart && p.error == Ok && p.flags.length && !p.flags.trailing && !p.flags.skipBody
    requires Spells(name, CODING_NAME) && Blanks(blanks) && Spells(coding, CHUNKED)
    ensures var r := Run(m, p, CodingLine(name, blanks, coding)).0;
            r.state == Value && r.error == Ok && Both(Settled(r)) && Settled(r).flags == p.flags.(chunked := true)
  {
    hide Run, Token, Blanks;
    CodingHead(m, p, name, blanks);
    assert CHUNKED[..|coding|] == CHUNKED;
    ChunkedValueRun(m, Run(m, p, name + (":" + blanks)).0, coding);
    RunJoined(m, p, name + (":" + blanks), coding);
  }

  lemma NoSwitchJoined(a: seq<FieldLine>, b: seq<FieldLine>)
    ensures AnyNamesUpgrade(a + b) <==> AnyNamesUpgrade(a) || AnyNamesUpgrade(b)
    ensures AnyAsks(a + b) <==> AnyAsks(a) || AnyAsks(b)
  {
    hide Spells, Asks;
    assert forall i | 0 <= i < |a| :: (a + b)[i] == a[i];
    assert forall i | 0 <= i < |b| :: (a + b)[|a| + i] == b[i];
  }

  lemma BothFraming(m: Message, y: Parser)
    requires !m.connect && !m.answerSkip && y.error == Ok && Both(y) && Stays(m, y)
    ensures var a := HeadersEnd(m, AtEmptyLine(y));
            if m.allowChunkedLength then a.error == Ok && Framing(m, a).p.error == Ok && Framing(m, a).p.state == ChunkSizeStart
            else a.error == UnexpectedLength
  {
    hide KeepAlive, NeedsEof;
  }

  // ---------- bytes that are refused ----------

  /** One byte that is refused refuses all that begins with it. */
  lemma RefusedAt(m: Message, p: Parser, c: char, rest: string, error: Errno)
    requires Feed(m, p, c).0.error == error && error != Ok
    ensures Run(m, p, [c] + rest).0.error == error
  {
    hide Feed, Run;
    RunNothing(m, p);
    RunLast(m, p, "", c);
    assert "" + [c] == [c];
    RunJoined(m, p, [c], rest);
    RunAfterError(m, Run(m, p, [c]).0, rest);
  }

  /** A line begins with a byte that no name can have. */
  lemma BadFirstNameByte(m: Message, p: Parser, before: seq<FieldLine>, c: char, rest: string)
    requires Beginning(p) && AllPlain(before) && Token(c) == '\0' && c != CR && c != LF && c != ' ' && c != '\t'
    ensures Run(m, p, Lines(before) + ([c] + rest)).0.error == HeaderToken
  {
    hide Run, AllPlain, Lines, Token, Feed;
    var q, h := BlockHead(m, p, before, [c] + rest);
    NameRefuses(m, q, c);
    RefusedAt(m, q, c, rest, HeaderToken);
  }

  lemma NameRefuses(m: Message, q: Parser, c: char)
    requires q.error == Ok && Token(c) == '\0'
    ensures q.state == HeaderFieldStart && c != CR && c != LF ==> Feed(m, q, c).0.error == HeaderToken
    ensures q.state == HeaderField && c != ':' ==> Feed(m, q, c).0.error == HeaderToken
  {
    hide Token;
  }

  /** A name goes on with a byte that no name can have. */
  lemma BadNameByte(m: Message, p: Parser, before: seq<FieldLine>, name: string, c: char, rest: string)
    requires Beginning(p) && AllPlain(before) && name != "" && Tokens(name) && Token(c) == '\0' && c != ':'
    ensures Run(m, p, Lines(before) + (name + ([c] + rest))).0.error == HeaderToken
  {
    hide Run, AllPlain, Lines, Token, Feed, Recognized, BeginsWith;
    NameStartsLine(name, [c] + rest);
    var q, h := BlockHead(m, p, before, name + ([c] + rest));
    NameRun(m, q, name);
    var r := Run(m, q, name).0;
    RunJoined(m, q, name, [c] + rest);
    NameRefuses(m, r, c);
    RefusedAt(m, r, c, rest, HeaderToken);
  }

  lemma NameStartsLine(name: string, rest: string)
    requires name != "" && Tokens(name)
    ensures name + rest != "" && (name + rest)[0] != ' ' && (name + rest)[0] != '\t'
  {
    assert Token(name[0]) != '\0';
    LineFirst(name, rest);
  }

  /** A value goes on with a byte that no value can have, or ends with a carriage return that no line feed follows. */
  lemma BadValueByte(m: Message, p: Parser, before: seq<FieldLine>, name: string, value: string, c: char, rest: string)
    requires Beginning(p) && AllPlain(before) && ProperLine(FieldLine(name, value)) && Trimmed(value) != ""
    ensures !IsHeaderChar(c) ==> Run(m, p, Lines(before) + ((name + ":") + value + ([c] + rest))).0.error == HeaderToken
    ensures c != LF ==> Run(m, p, Lines(before) + ((name + ":") + value + ([CR] + ([c] + rest)))).0.error == LfExpected
  {
    hide Run, AllPlain, Lines, Token, Feed, Recognized, BeginsWith, IsHeaderChar, ProperLine, Trimmed;
    ValueChars(FieldLine(name, value));
    if !IsHeaderChar(c) {
      var s := [c] + rest;
      var r := InLine(m, p, before, name, value, s);
      ValueRefuses(m, r, c);
      RefusedAt(m, r, c, rest, HeaderToken);
    }
    if c != LF {
      var s := [CR] + ([c] + rest);
      var r := InLine(m, p, before, name, value, s);
      ValueRefuses(m, r, c);
      CrByte(m, r);
      RunNothing(m, r);
      RunLast(m, r, "", CR);
      assert "" + [CR] == [CR];
      RunJoined(m, r, [CR], [c] + rest);
      LfRefuses(m, Run(m, r, [CR]).0, c);
      RefusedAt(m, Run(m, r, [CR]).0, c, rest, LfExpected);
    }
  }

  lemma ValueRefuses(m: Message, r: Parser, c: char)
    requires r.state == Value && r.error == Ok
    ensures !IsHeaderChar(c) ==> Feed(m, r, c).0.error == HeaderToken
  {
    hide ValueNext;
  }

  lemma LfRefuses(m: Message, r: Parser, c: char)
    requires r.state == HeaderAlmostDone && r.error == Ok && c != LF
    ensures Feed(m, r, c).0.error == LfExpected
  {
  }

  /** The parser in the middle of a value. */
  lemma InLine(m: Message, p: Parser, before: seq<FieldLine>, name: string, value: string, s: string) returns (r: Parser)
    requires Beginning(p) && AllPlain(before) && ProperLine(FieldLine(name, value)) && Trimmed(value) != ""
    ensures r.state == Value && r.error == Ok
    ensures Run(m, p, Lines(before) + ((name + ":") + value + s)).0 == Run(m, r, s).0
  {
    hide Run, AllPlain, Lines, Token, Spells, BeginsWith, Trimmed, InValue, OptionTold, Texts, ValueChar;
    ValueChars(FieldLine(name, value));
    NameStartsLine(name, ":" + value + s);
    assert (name + ":") + value + s == name + (":" + value + s);
    var q, h := BlockHead(m, p, before, (name + ":") + value + s);
    NameRun(m, q, name);
    var a := Run(m, q, name).0;
    BlanksRun(m, a, "");
    assert ":" + "" == ":";
    var b := Run(m, a, ":").0;
    RecognizedMatching(a, name);
    NotLength(name, value);
    ValueRun(m, b, value);
    r := Run(m, b, value).0;
    RunJoined(m, q, name, ":");
    RunJoined(m, q, name + ":", value);
    RunJoined(m, q, (name + ":") + value, s);
    ValueStates(b, r);
  }

  lemma NotLength(name: string, value: string)
    requires ProperLine(FieldLine(name, value))
    ensures !Spells(name, LENGTH_NAME)
  {
    hide Token, IsHeaderChar;
  }

  lemma ValueStates(b: Parser, r: Parser)
    requires InValue(b, r)
    ensures (r.state == Value || r.state == ValueDiscardWs) && r.error == Ok
  {
  }

  /** Where a chunk size is due stands no digit. */
  lemma BadChunkSize(m: Message, p: Parser, c: char, rest: string)
    requires p.state == ChunkSizeStart && p.error == Ok && Unhex(c) < 0
    ensures Run(m, p, [c] + rest).0.error == ChunkSizeInvalid
  {
    ChunkRefuses(m, p, c);
    RefusedAt(m, p, c, rest, ChunkSizeInvalid);
  }

  lemma ChunkRefuses(m: Message, p: Parser, c: char)
    requires p.error == Ok
    ensures p.state == ChunkSizeStart && Unhex(c) < 0 ==> Feed(m, p, c).0.error == ChunkSizeInvalid
    ensures p.state == ChunkDataAlmostDone && c != CR ==> Feed(m, p, c).0.error == Strict
  {
  }

  /** A chunk's data goes on beyond its size. */
  lemma ChunkTooLong(m: Message, p: Parser, k: Chunk, c: char, rest: string)
    requires p.state == ChunkSizeStart && p.error == Ok && Proper(k) && c != CR
    ensures Run(m, p, ChunkHead(k) + k.data + ([c] + rest)).0.error == Strict
  {
    hide Run, SizeValue, Feed, Unhex;
    HeadRun(m, p, k);
    var q := Run(m, p, ChunkHead(k)).0;
    DataRun(m, q, k.data);
    var r := Run(m, q, k.data).0;
    RunJoined(m, p, ChunkHead(k), k.data);
    RunJoined(m, p, ChunkHead(k) + k.data, [c] + rest);
    ChunkRefuses(m, r, c);
    RefusedAt(m, r, c, rest, Strict);
  }

  // ---------- between messages ----------

  /** Behind a message empty lines are passed over; a connection that is to be closed takes nothing else. */
  lemma BehindMessage(m: Message, q: Parser, ch: char)
    requires Finished(q)
    ensures ch == CR || ch == LF ==> Feed(m, q, ch) == (q.(nread := q.nread + 1), [])
    ensures ch != CR && ch != LF && q.state == Dead ==> Feed(m, q, ch).0.error == ClosedConnection && Feed(m, q, ch).1 == []
  {
  }
}
