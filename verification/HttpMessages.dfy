/**
 Whole HTTP messages as bytes, from the first header name to the callback at the
 end: a body of declared length, a chunked body with its trailer, and the messages
 whose body ends with the connection. The header line that decides the framing may
 stand among any other well-formed lines, folded lines excepted, with names in
 upper, lower or mixed case.
 */
module HttpMessages {
  import opened HttpFraming
  import opened HttpBodies

  // ---------- header lines ----------

  const LENGTH_NAME: string := "content-length"
  const CODING_NAME: string := "transfer-encoding"

  /** A header name as written, in any case. */
  predicate Spells(name: string, word: string) {
    |name| == |word| && forall i | 0 <= i < |name| :: Token(name[i]) == word[i]
  }

  predicate Blanks(s: string) { forall i | 0 <= i < |s| :: s[i] == ' ' || s[i] == '\t' }

  /** What k letters of `content-length` have been recognized as. */
  function LengthMatch(k: nat): Matching {
    if k == 1 then C else if k == 2 then CO else if k == 3 then CON else if k < |LENGTH_NAME| then NameContentLength else ContentLength
  }

  lemma LengthNameByte(m: Message, p: Parser, k: nat, ch: char)
    requires 1 <= k < |LENGTH_NAME| && Token(ch) == LENGTH_NAME[k]
    requires p.state == HeaderField && p.error == Ok && p.index == k - 1 && p.matching == LengthMatch(k)
    ensures Feed(m, p, ch) == (p.(index := k, matching := LengthMatch(k + 1), nread := p.nread + 1), [Byte(Field, ch)])
  {
    hide Token;
    assert LENGTH_NAME == "content-length";
  }

  lemma NameFirst(m: Message, p: Parser, ch: char)
    requires p.state == HeaderFieldStart && p.error == Ok && Token(ch) != '\0'
    ensures Feed(m, p, ch)
            == (p.(state := HeaderField, index := 0, matching := NameStart(Token(ch)), nread := p.nread + 1), [Byte(Field, ch)])
  {
    assert Token(CR) == '\0' && Token(LF) == '\0';
    hide Token, NameStart;
  }

  /** The name `content-length` is recognized, letter by letter. */
  lemma {:induction false} LengthNameRun(m: Message, p: Parser, name: string)
    requires p.state == HeaderFieldStart && p.error == Ok
    requires 0 < |name| <= |LENGTH_NAME| && Spells(name, LENGTH_NAME[..|name|])
    ensures Run(m, p, name)
            == (p.(state := HeaderField, index := |name| - 1, matching := LengthMatch(|name|), nread := p.nread + |name|), Bytes(Field, name))
    decreases |name|
  {
    hide Run, Feed, Token;
    var s', ch := name[..|name| - 1], name[|name| - 1];
    LastByte(name);
    OneMoreByte(Field, name);
    RunLast(m, p, s', ch);
    assert Token(ch) == LENGTH_NAME[|name| - 1];
    if s' == "" {
      RunNothing(m, p);
      NameFirst(m, p, ch);
    } else {
      LengthNameRun(m, p, s');
      LengthNameByte(m, Run(m, p, s').0, |s'|, ch);
    }
  }

  /** A colon, and blanks behind it. */
  lemma {:induction false} BlanksRun(m: Message, p: Parser, blanks: string)
    requires p.state == HeaderField && p.error == Ok && Blanks(blanks)
    ensures Run(m, p, ":" + blanks) == (p.(state := ValueDiscardWs, nread := p.nread + 1 + |blanks|), [])
    decreases |blanks|
  {
    hide Run, Feed;
    if blanks == "" {
      assert ":" + blanks == "" + [':'];
      RunNothing(m, p);
      RunLast(m, p, "", ':');
      ColonByte(m, p);
    } else {
      var s', ch := blanks[..|blanks| - 1], blanks[|blanks| - 1];
      assert ":" + blanks == (":" + s') + [ch];
      BlanksRun(m, p, s');
      RunLast(m, p, ":" + s', ch);
      BlankByte(m, Run(m, p, ":" + s').0, ch);
    }
  }

  lemma ColonByte(m: Message, p: Parser)
    requires p.state == HeaderField && p.error == Ok
    ensures Feed(m, p, ':') == (p.(state := ValueDiscardWs, nread := p.nread + 1), [])
  {
  }

  lemma BlankByte(m: Message, p: Parser, ch: char)
    requires p.state == ValueDiscardWs && p.error == Ok && (ch == ' ' || ch == '\t')
    ensures Feed(m, p, ch) == (p.(nread := p.nread + 1), [])
  {
  }

  // ---------- a body of declared length ----------

  /** The header block of such a message. */
  function LengthBlock(name: string, blanks: string, digits: string): string {
    name + (":" + blanks) + digits
  }

  /** Name, colon, blanks and digits: the length is known exactly, or refused. */
  lemma LengthLine(m: Message, p: Parser, name: string, blanks: string, digits: string)
    requires p.state == HeaderFieldStart && p.error == Ok && !p.flags.length
    requires Spells(name, LENGTH_NAME) && Blanks(blanks) && digits != "" && Digits(digits)
    ensures var (q, e) := Run(m, p, LengthBlock(name, blanks, digits));
            && DecimalValue(digits) >= 0
            && (DecimalValue(digits) <= MAX_LENGTH ==>
                  && q == LengthRead(p, digits).(nread := p.nread + |name| + 1 + |blanks| + |digits|)
                  && e == Bytes(Field, name) + Bytes(ValueText, digits))
            && (DecimalValue(digits) > MAX_LENGTH ==> q.error == InvalidLength)
  {
    hide Run, Token, DecimalValue;
    assert LENGTH_NAME[..|name|] == LENGTH_NAME;
    LengthNameRun(m, p, name);
    var q := Run(m, p, name).0;
    BlanksRun(m, q, blanks);
    var r := Run(m, q, ":" + blanks).0;
    LengthIsExact(m, r, digits);
    RunJoined(m, p, name, ":" + blanks);
    RunJoined(m, p, name + (":" + blanks), digits);
    NoEvents(Bytes(Field, name));
  }

  // ---------- other header lines ----------

  /** A field as written: name, colon, value, line end. */
  datatype FieldLine = FieldLine(name: string, value: string)

  predicate BeginsWith(name: string, word: string) { |word| <= |name| && Spells(name[..|word|], word) }

  /** A well-formed line that does not declare a length. */
  predicate ProperLine(l: FieldLine) {
    && l.name != "" && (forall i | 0 <= i < |l.name| :: Token(l.name[i]) != '\0')
    && (forall i | 0 <= i < |l.value| :: IsHeaderChar(l.value[i]) && l.value[i] != CR && l.value[i] != LF)
    && !Spells(l.name, LENGTH_NAME)
  }

  /**
   A line that says nothing about how the message is framed either. The parser
   takes every name that begins with `transfer-encoding` for that one when it
   notes that a coding is used.
   */
  predicate PlainLine(l: FieldLine) {
    ProperLine(l) && !BeginsWith(l.name, CODING_NAME)
  }

  const UPGRADE_NAME: string := "upgrade"
  const CONNECTION_NAME: string := "connection"
  const PROXY_NAME: string := "proxy-connection"

  predicate ConnectionName(name: string) { Spells(name, CONNECTION_NAME) || Spells(name, PROXY_NAME) }

  /** The word `upgrade` from position i, in any case. */
  predicate MentionsAt(value: string, i: nat) {
    i + |UPGRADE_NAME| <= |value| && forall j | 0 <= j < |UPGRADE_NAME| :: Lower(value[i + j]) == UPGRADE_NAME[j]
  }

  predicate Mentions(value: string) { exists i | 0 <= i < |value| :: MentionsAt(value, i) }

  /** A Connection line with the option `upgrade`, or with a longer word around it. */
  predicate Asks(l: FieldLine) { ConnectionName(l.name) && Mentions(l.value) }

  predicate AnyNamesUpgrade(lines: seq<FieldLine>) { exists i | 0 <= i < |lines| :: Spells(lines[i].name, UPGRADE_NAME) }
  predicate AnyConnection(lines: seq<FieldLine>) { exists i | 0 <= i < |lines| :: ConnectionName(lines[i].name) }
  predicate AnyAsks(lines: seq<FieldLine>) { exists i | 0 <= i < |lines| :: Asks(lines[i]) }

  /**
   The lines do not switch the connection to another protocol: that takes an Upgrade
   line and a Connection line that asks for it, and a request or a 101 response.
   */
  predicate NoSwitch(m: Message, before: seq<FieldLine>, after: seq<FieldLine>) {
    || (!m.request && m.status != 101)
    || (!AnyNamesUpgrade(before) && !AnyNamesUpgrade(after))
    || (!AnyAsks(before) && !AnyAsks(after))
  }

  function LineText(l: FieldLine): string { (l.name + ":") + (l.value + [CR, LF]) }

  function Lines(lines: seq<FieldLine>): string {
    if lines == [] then "" else Lines(lines[..|lines| - 1]) + LineText(lines[|lines| - 1])
  }

  /** A value without the blanks before it. */
  function Trimmed(v: string): string { if v != "" && (v[0] == ' ' || v[0] == '\t') then Trimmed(v[1..]) else v }

  /** The callbacks for a line: its name, and its value from the first byte that is no blank. */
  function LineEvents(l: FieldLine): seq<Event> { Bytes(Field, l.name) + Bytes(ValueText, Trimmed(l.value)) }

  function LinesEvents(lines: seq<FieldLine>): seq<Event> {
    if lines == [] then [] else LinesEvents(lines[..|lines| - 1]) + LineEvents(lines[|lines| - 1])
  }

  lemma {:induction false} TrimmedMore(v: string, ch: char)
    ensures Trimmed(v + [ch]) == if Trimmed(v) != "" then Trimmed(v) + [ch] else if ch == ' ' || ch == '\t' then "" else [ch]
    decreases |v|
  {
    if v == "" {
      assert v + [ch] == [ch] && [ch][1..] == "";
    } else if v[0] == ' ' || v[0] == '\t' {
      assert (v + [ch])[1..] == v[1..] + [ch];
      TrimmedMore(v[1..], ch);
    }
  }

  lemma BytesMore(k: Kind, v: string, ch: char)
    ensures Bytes(k, v + [ch]) == Bytes(k, v) + [Byte(k, ch)] && Bytes(k, "") == []
  {
  }

  /** Bytes of names and values only. */
  predicate Texts(e: seq<Event>) { forall x <- e :: x.Byte? && x.kind != Body }

  /** k letters of the word have been recognized. */
  predicate Progress(p: Parser, name: string, word: string) {
    p.index == |name| - 1 && 0 < |name| < |word| && Spells(name, word[..|name|])
  }

  /** What the parser has recognized of a name. */
  predicate Recognized(p: Parser, name: string) {
    match p.matching
    case C => |name| == 1 && Progress(p, name, LENGTH_NAME)
    case CO => |name| == 2 && Progress(p, name, LENGTH_NAME)
    case CON => |name| == 3 && Progress(p, name, LENGTH_NAME)
    case NameContentLength => |name| > 3 && Progress(p, name, LENGTH_NAME)
    case NameTransferEncoding => Progress(p, name, CODING_NAME)
    case NameUpgrade => Progress(p, name, UPGRADE_NAME)
    case NameConnection => Progress(p, name, CONNECTION_NAME)
    case NameProxyConnection => Progress(p, name, PROXY_NAME)
    case Connection => ConnectionName(name)
    case ContentLength => Spells(name, LENGTH_NAME)
    case TransferEncoding => Spells(name, CODING_NAME)
    case Upgrade => Spells(name, UPGRADE_NAME)
    case _ => NameMatching(p.matching)
  }

  lemma SpellsNext(name: string, ch: char, word: string)
    requires |name| < |word| && Spells(name, word[..|name|])
    ensures Spells(name + [ch], word[..|name| + 1]) <==> Token(ch) == word[|name|]
    ensures word[..|word|] == word
  {
    hide Token;
    assert forall i | 0 <= i < |name| :: (name + [ch])[i] == name[i] && word[..|name| + 1][i] == word[..|name|][i];
    if Spells(name + [ch], word[..|name| + 1]) { assert Token((name + [ch])[|name|]) == word[..|name| + 1][|name|]; }
  }

  /** One more letter of a word. */
  lemma WordNext(p: Parser, name: string, ch: char, word: string, here: Matching, whole: Matching, miss: Matching)
    requires Progress(p, name, word)
    ensures p.index == |name| - 1 && 0 < |name| < |word|
    ensures Word(word, p.index + 1, Token(ch), here, whole, miss)
            == if Token(ch) != word[|name|] then miss else if |name| + 1 == |word| then whole else here
    ensures Token(ch) == word[|name|] ==>
              if |name| + 1 == |word| then Spells(name + [ch], word)
              else forall q: Parser | q.index == |name| :: Progress(q, name + [ch], word)
  {
    hide Token, Spells;
    SpellsNext(name, ch, word);
  }

  /** What a name's next byte may change, and what it does not. */
  predicate NameKept(p: Parser, q: Parser, name: string) {
    && q.state == HeaderField && q.error == p.error && q.flags == p.flags && q.length == p.length
    && (q.encoded == p.encoded || Spells(name, CODING_NAME))
  }

  lemma RecognizedNext(p: Parser, name: string, ch: char)
    requires p.state == HeaderField && Recognized(p, name) && Token(ch) != '\0'
    ensures var q := NameNext(p, ch, Token(ch)); Recognized(q, name + [ch]) && NameKept(p, q, name + [ch])
  {
    hide Token, Recognized, NameNext, NameKept;
    if p.matching.C? || p.matching.CO? || p.matching.CON? || p.matching.NameContentLength? {
      LengthRecognized(p, name, ch);
    } else if InWord(p.matching) {
      WordRecognized(p, name, ch);
    } else {
      RestRecognized(p, name, ch);
    }
  }

  predicate InWord(k: Matching) { k.NameTransferEncoding? || k.NameUpgrade? || k.NameConnection? || k.NameProxyConnection? }

  lemma WordRecognized(p: Parser, name: string, ch: char)
    requires p.state == HeaderField && Recognized(p, name) && Token(ch) != '\0' && InWord(p.matching)
    ensures var q := NameNext(p, ch, Token(ch)); Recognized(q, name + [ch]) && NameKept(p, q, name + [ch])
  {
    hide Token, Spells, Word, Progress;
    if p.matching.NameTransferEncoding? {
      WordNext(p, name, ch, CODING_NAME, NameTransferEncoding, TransferEncoding, General);
    } else if p.matching.NameUpgrade? {
      WordNext(p, name, ch, UPGRADE_NAME, NameUpgrade, Upgrade, General);
    } else if p.matching.NameConnection? {
      WordNext(p, name, ch, CONNECTION_NAME, NameConnection, Connection, General);
    } else {
      WordNext(p, name, ch, PROXY_NAME, NameProxyConnection, Connection, General);
    }
  }

  /** Behind a mismatch or a whole word nothing is recognized. */
  lemma RestRecognized(p: Parser, name: string, ch: char)
    requires p.state == HeaderField && Recognized(p, name) && Token(ch) != '\0' && !InWord(p.matching)
    requires !p.matching.C? && !p.matching.CO? && !p.matching.CON? && !p.matching.NameContentLength?
    ensures var q := NameNext(p, ch, Token(ch)); Recognized(q, name + [ch]) && NameKept(p, q, name + [ch])
  {
    assert Token(' ') == '\0';
    hide Token, Spells, Word, Progress, ConnectionName;
    assert NameNext(p, ch, Token(ch)) == p.(matching := General);
  }

  lemma LengthRecognized(p: Parser, name: string, ch: char)
    requires p.state == HeaderField && Recognized(p, name) && Token(ch) != '\0'
    requires p.matching.C? || p.matching.CO? || p.matching.CON? || p.matching.NameContentLength?
    ensures var q := NameNext(p, ch, Token(ch)); Recognized(q, name + [ch]) && NameKept(p, q, name + [ch])
  {
    hide Token, Spells, Word;
    WordNext(p, name, ch, LENGTH_NAME, NameContentLength, ContentLength, General);
    if p.matching.CON? {
      SharedStart(name);
      SpellsNext(name, ch, CONNECTION_NAME);
    }
  }

  /** Both names begin with `con`. */
  lemma SharedStart(name: string)
    requires |name| == 3 && Spells(name, LENGTH_NAME[..3])
    ensures Spells(name, CONNECTION_NAME[..3])
  {
    hide Spells;
    assert LENGTH_NAME[..3] == CONNECTION_NAME[..3];
  }

  lemma NameByte(m: Message, p: Parser, ch: char)
    requires p.state == HeaderField && p.error == Ok && Token(ch) != '\0'
    ensures Feed(m, p, ch) == (NameNext(p.(nread := p.nread + 1), ch, Token(ch)), [Byte(Field, ch)])
  {
    hide Token, NameNext;
  }

  predicate Tokens(s: string) { forall i | 0 <= i < |s| :: Token(s[i]) != '\0' }

  /** A name of a line: what is recognized, and that nothing else changes. */
  lemma {:induction false} NameRun(m: Message, p: Parser, name: string)
    requires p.state == HeaderFieldStart && p.error == Ok && name != "" && Tokens(name)
    ensures var (q, e) := Run(m, p, name);
            && q.state == HeaderField && q.error == Ok && q.flags == p.flags && q.length == p.length
            && Recognized(q, name) && (q.encoded == p.encoded || BeginsWith(name, CODING_NAME))
            && e == Bytes(Field, name)
    decreases |name|
  {
    hide Run, Feed, Token, NameNext, Spells, Recognized;
    var s', ch := name[..|name| - 1], name[|name| - 1];
    LastByte(name);
    OneMoreByte(Field, name);
    RunLast(m, p, s', ch);
    if s' == "" {
      RunNothing(m, p);
      NameFirst(m, p, ch);
      FirstRecognized(Run(m, p, name).0, name);
    } else {
      NameRun(m, p, s');
      var q := Run(m, p, s').0;
      NameByte(m, q, ch);
      RecognizedCounted(q, s');
      RecognizedNext(q.(nread := q.nread + 1), s', ch);
      if |CODING_NAME| <= |s'| { assert s'[..|CODING_NAME|] == name[..|CODING_NAME|]; }
      if Spells(name, CODING_NAME) { WholeName(name); }
    }
  }

  lemma WholeName(name: string)
    requires Spells(name, CODING_NAME)
    ensures BeginsWith(name, CODING_NAME)
  {
    assert name[..|CODING_NAME|] == name;
  }

  lemma RecognizedCounted(p: Parser, name: string)
    requires Recognized(p, name)
    ensures Recognized(p.(nread := p.nread + 1), name)
  {
    hide Spells;
  }

  lemma FirstRecognized(p: Parser, name: string)
    requires |name| == 1 && Token(name[0]) != '\0' && p.index == 0 && p.matching == NameStart(Token(name[0]))
    ensures Recognized(p, name)
  {
    hide Token;
  }

  // ---------- a header value ----------

  predicate LengthMatching(k: Matching) { k.ContentLength? || k.ContentLengthNum? || k.ContentLengthWs? }

  /** The flags that say how the message is framed. */
  predicate SameFraming(f: Flags, g: Flags) {
    f.length == g.length && f.chunked == g.chunked && f.trailing == g.trailing && f.skipBody == g.skipBody
  }

  /** Inside the value of a line whose colon left the parser in state p. */
  predicate InValue(p: Parser, q: Parser) {
    && (q.state == Value || (q.state == ValueDiscardWs && q.matching == p.matching && q.flags == p.flags)) && q.error == Ok
    && q.length == p.length && q.encoded == p.encoded && SameFraming(p.flags, q.flags)
    && (!p.matching.Upgrade? ==> q.flags.upgrade == p.flags.upgrade)
    && (!p.matching.TransferEncoding? ==> !CodingMatching(q.matching))
    && !LengthMatching(q.matching)
  }

  lemma FirstKept(p: Parser, ch: char)
    requires NameMatching(p.matching) && !LengthMatching(p.matching) && p.error == Ok
    ensures InValue(p, ValueFirst(p, ch))
  {
    hide Lower;
  }

  lemma NextKept(p: Parser, q: Parser, ch: char)
    requires InValue(p, q) && q.state == Value
    ensures InValue(p, ValueNext(q, ch)) && ValueNext(q, ch).state == Value
  {
    hide Lower, Token;
    if CodingMatching(q.matching) {
      CodingKept(q, ch);
    } else if OptionMatching(q.matching) {
      OptionKept(q, ch);
    }
  }

  lemma CodingKept(q: Parser, ch: char)
    requires CodingMatching(q.matching)
    ensures var r := CodingNext(q, ch);
            r == q.(index := r.index, matching := r.matching) && !LengthMatching(r.matching) && !OptionMatching(r.matching)
  {
    hide Lower, Token;
  }

  lemma WordIsOneOf(word: string, i: nat, c: char, here: Matching, whole: Matching, miss: Matching)
    ensures Word(word, i, c, here, whole, miss) in {here, whole, miss}
  {
  }

  /** An option's byte keeps the framing. */
  predicate OptionSame(q: Parser, r: Parser) {
    && r == q.(index := r.index, matching := r.matching, flags := r.flags)
    && SameFraming(q.flags, r.flags) && r.flags.upgrade == q.flags.upgrade
    && !LengthMatching(r.matching) && !CodingMatching(r.matching)
  }

  lemma OptionEndKept(q: Parser, ch: char)
    requires q.matching.KeepAliveMatched? || q.matching.CloseMatched? || q.matching.UpgradeMatched?
    ensures OptionSame(q, OptionEnd(q, ch))
  {
  }

  lemma OptionKept(q: Parser, ch: char)
    requires OptionMatching(q.matching)
    ensures OptionSame(q, OptionNext(q, ch))
  {
    hide Lower, Token, Word, OptionEnd, OptionSame;
    if q.matching.KeepAliveMatched? || q.matching.CloseMatched? || q.matching.UpgradeMatched? {
      OptionEndKept(q, ch);
    } else {
      OptionMoves(q, ch);
      OptionMoved(q, OptionNext(q, ch).index, OptionNext(q, ch).matching);
    }
  }

  lemma OptionMoved(q: Parser, i: nat, k: Matching)
    requires !LengthMatching(k) && !CodingMatching(k)
    ensures OptionSame(q, q.(index := i, matching := k))
  {
  }

  lemma OptionMoves(q: Parser, ch: char)
    requires OptionMatching(q.matching) && !q.matching.KeepAliveMatched? && !q.matching.CloseMatched? && !q.matching.UpgradeMatched?
    ensures var r := OptionNext(q, ch);
            r == q.(index := r.index, matching := r.matching) && !LengthMatching(r.matching) && !CodingMatching(r.matching)
  {
    hide Lower, Token, Word, OptionEnd;
    WordIsOneOf("keep-alive", q.index + 1, Lower(ch), OptionKeepAlive, KeepAliveMatched, Option);
    WordIsOneOf("close", q.index + 1, Lower(ch), OptionClose, CloseMatched, Option);
    WordIsOneOf("upgrade", q.index + 1, Lower(ch), OptionUpgrade, UpgradeMatched, Option);
  }

  /** The first i + 1 letters of `upgrade` are the last characters of the value. */
  predicate Growing(value: string, i: nat) {
    i + 1 < |UPGRADE_NAME| && i < |value| && forall j | 0 <= j <= i :: Lower(value[|value| - 1 - i + j]) == UPGRADE_NAME[j]
  }

  /** An upgrade is asked for only by a Connection line that mentions it. */
  predicate OptionTold(p: Parser, q: Parser, value: string) {
    && (!p.matching.Connection? ==>
          !OptionMatching(q.matching) && q.flags.keepAlive == p.flags.keepAlive && q.flags.close == p.flags.close)
    && (q.flags.connectionUpgrade == p.flags.connectionUpgrade || (p.matching.Connection? && Mentions(value)))
    && (q.matching.OptionStart? ==> q.index == 0)
    && (q.matching.OptionUpgrade? ==> Growing(value, q.index))
    && (q.matching.UpgradeMatched? ==> Mentions(value))
  }

  lemma MentionsMore(value: string, ch: char)
    requires Mentions(value)
    ensures Mentions(value + [ch])
  {
    var i :| 0 <= i < |value| && MentionsAt(value, i);
    assert MentionsAt(value + [ch], i);
  }

  lemma GrowingMore(value: string, i: nat, ch: char)
    requires Growing(value, i) && Lower(ch) == UPGRADE_NAME[i + 1]
    ensures if i + 2 < |UPGRADE_NAME| then Growing(value + [ch], i + 1) else Mentions(value + [ch])
  {
    hide Lower;
    var w, k := value + [ch], |value| - 1 - i;
    assert w[..|value|] == value && w[k + i + 1] == ch;
    if i + 2 == |UPGRADE_NAME| { assert MentionsAt(w, k); }
  }

  lemma OptionFirst(p: Parser, value: string, ch: char)
    requires NameMatching(p.matching)
    ensures OptionTold(p, ValueFirst(p, ch), value + [ch])
  {
    hide Lower, Mentions;
  }

  lemma OptionNextTold(p: Parser, q: Parser, value: string, ch: char)
    requires p.matching.Connection? && OptionMatching(q.matching) && OptionTold(p, q, value)
    ensures OptionTold(p, OptionNext(q, ch), value + [ch])
  {
    hide Lower, Token, Word, Mentions, Growing;
    if Mentions(value) { MentionsMore(value, ch); }
    WordIsOneOf("keep-alive", q.index + 1, Lower(ch), OptionKeepAlive, KeepAliveMatched, Option);
    WordIsOneOf("close", q.index + 1, Lower(ch), OptionClose, CloseMatched, Option);
    if q.matching.OptionUpgrade? {
      UpgradeNext(q, value, ch);
    } else if q.matching.OptionStart? && Lower(ch) == 'u' {
      GrowingStarts(value, ch);
    }
  }

  lemma GrowingStarts(value: string, ch: char)
    requires Lower(ch) == 'u'
    ensures Growing(value + [ch], 0)
  {
    hide Lower;
  }

  lemma UpgradeNext(q: Parser, value: string, ch: char)
    requires q.matching.OptionUpgrade? && Growing(value, q.index)
    ensures var r := OptionNext(q, ch);
            && r.flags == q.flags && !r.matching.OptionStart? && OptionMatching(r.matching)
            && (r.matching.OptionUpgrade? ==> Growing(value + [ch], r.index))
            && (r.matching.UpgradeMatched? ==> Mentions(value + [ch]))
  {
    hide Lower, Token, Mentions;
    if Lower(ch) == UPGRADE_NAME[q.index + 1] { GrowingMore(value, q.index, ch); }
  }

  lemma ValueNextTold(p: Parser, q: Parser, value: string, ch: char)
    requires InValue(p, q) && q.state == Value && OptionTold(p, q, value)
    ensures OptionTold(p, ValueNext(q, ch), value + [ch])
  {
    hide Lower, Token, Mentions, Growing, OptionNext;
    if Mentions(value) { MentionsMore(value, ch); }
    if OptionMatching(q.matching) {
      OptionNextTold(p, q, value, ch);
    } else if CodingMatching(q.matching) {
      CodingKept(q, ch);
    }
  }

  predicate ValueChar(ch: char) { IsHeaderChar(ch) && ch != CR && ch != LF }

  /** One visit decides what a value's byte does. */
  lemma ValueFeed(m: Message, q: Parser, ch: char)
    requires (q.state == Value || q.state == ValueDiscardWs) && q.error == Ok && ValueChar(ch)
    ensures var q' := q.(nread := q.nread + 1);
            Feed(m, q, ch) == if q.state == Value then (ValueNext(q', ch), [Byte(ValueText, ch)])
                              else if ch == ' ' || ch == '\t' then (q', [])
                              else (ValueFirst(q', ch), [Byte(ValueText, ch)])
  {
    hide ValueFirst, ValueNext, IsHeaderChar;
  }

  lemma ValueByte(m: Message, p: Parser, q: Parser, value: string, ch: char)
    requires NameMatching(p.matching) && InValue(p, q) && OptionTold(p, q, value) && ValueChar(ch)
    ensures var (r, e) := Feed(m, q, ch); InValue(p, r) && OptionTold(p, r, value + [ch]) && Texts(e)
  {
    hide Lower, ValueFirst, ValueNext, Feed, ValueChar, Mentions, Growing;
    ValueFeed(m, q, ch);
    var q' := q.(nread := q.nread + 1);
    assert InValue(p, q') && OptionTold(p, q', value);
    if q.state == Value {
      NextKept(p, q', ch);
      ValueNextTold(p, q', value, ch);
    } else {
      FirstKept(q', ch);
      OptionFirst(q', value, ch);
      if Mentions(value) { MentionsMore(value, ch); }
    }
  }

  lemma TextsJoined(a: seq<Event>, b: seq<Event>)
    requires Texts(a) && Texts(b)
    ensures Texts(a + b)
  {
  }

  lemma {:induction false} ValueRun(m: Message, p: Parser, value: string)
    requires p.state == ValueDiscardWs && p.error == Ok && NameMatching(p.matching) && !p.matching.ContentLength?
    requires forall i | 0 <= i < |value| :: ValueChar(value[i])
    ensures var (q, e) := Run(m, p, value); InValue(p, q) && OptionTold(p, q, value) && Texts(e)
    ensures var (q, e) := Run(m, p, value); e == Bytes(ValueText, Trimmed(value)) && (q.state == ValueDiscardWs <==> Trimmed(value) == "")
    decreases |value|
  {
    hide Run, Feed, ValueChar, Texts, Mentions, Growing;
    if value == "" {
      RunNothing(m, p);
      NoTexts();
    } else {
      var s', ch := value[..|value| - 1], value[|value| - 1];
      LastByte(value);
      ValueRun(m, p, s');
      RunLast(m, p, s', ch);
      var (q, e) := Run(m, p, s');
      ValueByte(m, p, q, s', ch);
      TextsJoined(e, Feed(m, q, ch).1);
      ValueTells(m, q, ch);
      TrimmedMore(s', ch);
      BytesMore(ValueText, Trimmed(s'), ch);
      BytesMore(ValueText, "", ch);
    }
  }

  lemma ValueTells(m: Message, q: Parser, ch: char)
    requires (q.state == Value || q.state == ValueDiscardWs) && q.error == Ok && ValueChar(ch)
    ensures var (r, e) := Feed(m, q, ch); var skipped := q.state == ValueDiscardWs && (ch == ' ' || ch == '\t');
            e == (if skipped then [] else [Byte(ValueText, ch)]) && (r.state == ValueDiscardWs <==> skipped)
  {
    hide Feed, Lower, Token, ValueChar, Word;
    ValueFeed(m, q, ch);
  }

  lemma NoTexts()
    ensures Texts([])
  {
  }

  lemma ValueEnd(m: Message, q: Parser)
    requires (q.state == Value || q.state == ValueDiscardWs) && q.error == Ok
    ensures Run(m, q, [CR, LF]) == (q.(state := if q.state == Value then ValueLws else ValueDiscardLws, nread := q.nread + 2), [])
  {
    hide Run, Feed;
    RunTwo(m, q, CR, LF);
    var r := q.(state := if q.state == Value then HeaderAlmostDone else ValueDiscardWsAlmostDone, nread := q.nread + 1);
    CrByte(m, q);
    LfByte(m, r);
    NoEvents([]);
  }

  lemma CrByte(m: Message, q: Parser)
    requires (q.state == Value || q.state == ValueDiscardWs) && q.error == Ok
    ensures Feed(m, q, CR) == (q.(state := if q.state == Value then HeaderAlmostDone else ValueDiscardWsAlmostDone, nread := q.nread + 1), [])
  {
  }

  lemma LfByte(m: Message, q: Parser)
    requires (q.state == HeaderAlmostDone || q.state == ValueDiscardWsAlmostDone) && q.error == Ok
    ensures Feed(m, q, LF) == (q.(state := if q.state == HeaderAlmostDone then ValueLws else ValueDiscardLws, nread := q.nread + 1), [])
  {
  }

  // ---------- between lines ----------

  /** A new line may begin, or the last value go on in a folded line. */
  predicate AtLine(p: Parser) {
    p.error == Ok && (p.state == HeaderFieldStart || p.state == ValueLws || (p.state == ValueDiscardLws && p.matching != ContentLength))
  }

  /** The same once it is known that the value does not go on. */
  function Settled(p: Parser): Parser {
    if p.state == HeaderFieldStart then p else Noted(p, true).(state := HeaderFieldStart)
  }

  lemma SettledByte(m: Message, p: Parser, ch: char)
    requires AtLine(p) && ch != ' ' && ch != '\t'
    ensures Feed(m, p, ch) == Feed(m, Settled(p), ch)
  {
    if p.state != HeaderFieldStart {
      hide Visits, Noted;
      var q := Settled(p).(nread := p.nread + 1);
      NotedCounted(p);
      SettledVisit(m, p.(nread := p.nread + 1), ch);
    }
  }

  lemma NotedCounted(p: Parser)
    ensures Noted(p.(nread := p.nread + 1), true) == Noted(p, true).(nread := p.nread + 1)
    ensures Noted(p, true).nread == p.nread && Noted(p, true).error == p.error
  {
  }

  lemma SettledVisit(m: Message, p: Parser, ch: char)
    requires AtLine(p) && p.state != HeaderFieldStart && ch != ' ' && ch != '\t'
    ensures Visits(m, p, ch) == Visits(m, Settled(p), ch)
  {
    hide Noted;
    NotedCounted(p);
    var t := Turn(m, p, ch);
    assert t == Turned(Settled(p), [], true);
    NoEvents(Visits(m, Settled(p), ch).1);
  }

  lemma SettledRun(m: Message, p: Parser, s: string)
    requires AtLine(p) && s != "" && s[0] != ' ' && s[0] != '\t'
    ensures Run(m, p, s) == Run(m, Settled(p), s)
  {
    hide Run, Feed, Settled;
    assert s == ("" + [s[0]]) + s[1..];
    SettledByte(m, p, s[0]);
    RunNothing(m, p);
    RunNothing(m, Settled(p));
    RunLast(m, p, "", s[0]);
    RunLast(m, Settled(p), "", s[0]);
    RunJoined(m, p, "" + [s[0]], s[1..]);
    RunJoined(m, Settled(p), "" + [s[0]], s[1..]);
  }

  /** What a line that does not declare a length leaves as it is; a plain one leaves the framing as a whole. */
  predicate LineKept(p: Parser, q: Parser, plain: bool) {
    && q.length == p.length && q.flags.length == p.flags.length && q.flags.trailing == p.flags.trailing
    && q.flags.skipBody == p.flags.skipBody
    && (plain ==> q.encoded == p.encoded && q.flags.chunked == p.flags.chunked)
  }

  /** Whether a protocol was named, and whether a switch was asked for. */
  predicate UpgradeKept(p: Parser, q: Parser, named: bool, asked: bool) {
    && (!named ==> q.flags.upgrade == p.flags.upgrade)
    && (!asked ==> q.flags.connectionUpgrade == p.flags.connectionUpgrade)
  }

  /** Whether a Connection line has spoken about the end of the connection. */
  predicate ConnectionKept(p: Parser, q: Parser, named: bool) {
    !named ==> q.flags.keepAlive == p.flags.keepAlive && q.flags.close == p.flags.close
  }

  lemma LineRun(m: Message, p: Parser, l: FieldLine)
    requires p.state == HeaderFieldStart && p.error == Ok && ProperLine(l)
    ensures var (q, e) := Run(m, p, LineText(l));
            && AtLine(q) && LineKept(p, Settled(q), PlainLine(l)) && e == LineEvents(l) && Texts(e)
            && UpgradeKept(p, Settled(q), Spells(l.name, UPGRADE_NAME), Asks(l))
            && ConnectionKept(p, Settled(q), ConnectionName(l.name))
  {
    hide Run, Feed, Token, Spells, BeginsWith, Texts, ValueChar, SameFraming, CodingMatching, OptionTold, Mentions, ConnectionName;
    NameRun(m, p, l.name);
    var (a, e1) := Run(m, p, l.name);
    BlanksRun(m, a, "");
    assert ":" + "" == ":";
    var b := Run(m, a, ":").0;
    RecognizedMatching(a, l.name);
    ValueChars(l);
    ValueRun(m, b, l.value);
    var (c, e2) := Run(m, b, l.value);
    ValueEnd(m, c);
    var d := Run(m, c, [CR, LF]).0;
    RunJoined(m, p, l.name, ":");
    RunJoined(m, b, l.value, [CR, LF]);
    RunJoined(m, p, l.name + ":", l.value + [CR, LF]);
    NoEvents(e1);
    NoEvents(e2);
    NameTexts(l.name);
    TextsJoined(e1, e2);
    EndSettled(b, c, d);
    EndOptions(b, c, d, l.value);
  }

  lemma NameTexts(name: string)
    ensures Texts(Bytes(Field, name))
  {
  }

  lemma ValueChars(l: FieldLine)
    requires ProperLine(l)
    ensures Tokens(l.name) && l.name != "" && forall i | 0 <= i < |l.value| :: ValueChar(l.value[i])
  {
    hide Token, Spells, IsHeaderChar;
  }

  lemma RecognizedMatching(p: Parser, name: string)
    requires Recognized(p, name)
    ensures NameMatching(p.matching) && (p.matching.ContentLength? ==> Spells(name, LENGTH_NAME))
    ensures p.matching.TransferEncoding? ==> BeginsWith(name, CODING_NAME)
    ensures p.matching.Upgrade? ==> Spells(name, UPGRADE_NAME)
    ensures p.matching.Connection? ==> ConnectionName(name)
  {
    hide Spells, Progress, BeginsWith, ConnectionName;
    if p.matching.TransferEncoding? { WholeName(name); }
  }

  lemma EndSettled(b: Parser, c: Parser, d: Parser)
    requires NameMatching(b.matching) && InValue(b, c)
    requires d == c.(state := if c.state == Value then ValueLws else ValueDiscardLws, nread := c.nread + 2)
    ensures AtLine(d) && LineKept(b, Settled(d), !b.matching.TransferEncoding?)
  {
    hide Noted, NameMatching, CodingMatching, LineKept, Settled;
    NotedKept(d);
    assert d.state != HeaderFieldStart && d.matching == c.matching && d.flags == c.flags;
    SettledKept(b, c, d);
  }

  lemma SettledKept(b: Parser, c: Parser, d: Parser)
    requires InValue(b, c) && d.state != HeaderFieldStart
    requires d.matching == c.matching && d.flags == c.flags && d.length == c.length && d.encoded == c.encoded
    ensures LineKept(b, Settled(d), !b.matching.TransferEncoding?)
  {
    hide Noted, CodingMatching, LengthMatching;
    NotedKept(d);
  }

  lemma EndOptions(b: Parser, c: Parser, d: Parser, value: string)
    requires InValue(b, c) && OptionTold(b, c, value)
    requires d == c.(state := if c.state == Value then ValueLws else ValueDiscardLws, nread := c.nread + 2)
    ensures UpgradeKept(b, Settled(d), b.matching.Upgrade?, b.matching.Connection? && Mentions(value))
    ensures ConnectionKept(b, Settled(d), b.matching.Connection?)
  {
    hide Noted, CodingMatching, LengthMatching, SameFraming, Mentions, Growing;
    NotedKept(d);
  }

  lemma NotedKept(p: Parser)
    ensures var r := Noted(p, true);
            && r.error == p.error && r.length == p.length && r.encoded == p.encoded && r.matching == p.matching
            && r.flags.length == p.flags.length && r.flags.trailing == p.flags.trailing
            && r.flags.skipBody == p.flags.skipBody && r.flags.upgrade == p.flags.upgrade
            && (r.flags.chunked == p.flags.chunked || CodingMatching(p.matching))
            && (r.flags.connectionUpgrade == p.flags.connectionUpgrade || p.matching.UpgradeMatched?)
            && (r.flags.keepAlive == p.flags.keepAlive || p.matching.KeepAliveMatched?)
            && (r.flags.close == p.flags.close || p.matching.CloseMatched?)
  {
    var r := Noted(p, true);
    match p.matching
    case KeepAliveMatched => assert r == p.(flags := p.flags.(keepAlive := true));
    case CloseMatched => assert r == p.(flags := p.flags.(close := true));
    case UpgradeMatched => assert r == p.(flags := p.flags.(connectionUpgrade := true));
    case ChunkedMatched => assert r == p.(flags := p.flags.(chunked := true));
    case _ => assert r == p;
  }

  predicate AllProper(lines: seq<FieldLine>) { forall i | 0 <= i < |lines| :: ProperLine(lines[i]) }
  predicate AllPlain(lines: seq<FieldLine>) { forall i | 0 <= i < |lines| :: PlainLine(lines[i]) }

  lemma AtSettled(p: Parser)
    requires AtLine(p)
    ensures var q := Settled(p); AtLine(q) && q.state == HeaderFieldStart && Settled(q) == q && q.error == Ok && q.nread == p.nread
  {
    hide Noted;
    NotedKept(p);
    NotedCounted(p);
  }

  lemma LineFirst(name: string, rest: string)
    requires name != "" && Token(name[0]) != '\0'
    ensures name + rest != "" && (name + rest)[0] != ' ' && (name + rest)[0] != '\t'
  {
  }

  /** Lines of a header block or a trailer. */
  lemma {:induction false} LinesRun(m: Message, p: Parser, lines: seq<FieldLine>)
    requires AtLine(p) && AllProper(lines)
    ensures var (q, e) := Run(m, p, Lines(lines));
            && AtLine(q) && LineKept(Settled(p), Settled(q), AllPlain(lines)) && e == LinesEvents(lines) && Texts(e)
            && UpgradeKept(Settled(p), Settled(q), AnyNamesUpgrade(lines), AnyAsks(lines))
            && ConnectionKept(Settled(p), Settled(q), AnyConnection(lines))
    ensures lines == [] ==> Run(m, p, Lines(lines)).0 == p
    decreases |lines|
  {
    hide Run, AtLine, Settled, ProperLine, PlainLine, Token, Texts, Spells, Asks, ConnectionName, LineEvents;
    if lines == [] {
      RunNothing(m, p);
      NoTexts();
    } else {
      var s', l := lines[..|lines| - 1], lines[|lines| - 1];
      LinesRun(m, p, s');
      var (q, e) := Run(m, p, Lines(s'));
      RunJoined(m, p, Lines(s'), LineText(l));
      AtSettled(q);
      LineStarts(l);
      SettledRun(m, q, LineText(l));
      LineRun(m, Settled(q), l);
      TextsJoined(e, Run(m, q, LineText(l)).1);
    }
  }

  lemma LineStarts(l: FieldLine)
    requires ProperLine(l)
    ensures LineText(l) != "" && LineText(l)[0] != ' ' && LineText(l)[0] != '\t'
  {
    hide Spells;
    LineFirst(l.name, ":" + (l.value + [CR, LF]));
  }

  /** The empty line at the end of a header block that is not a trailer. */
  lemma BlockEnd(m: Message, p: Parser)
    requires AtLine(p) && !Settled(p).flags.trailing
    ensures var a := HeadersEnd(m, Settled(p).(state := HeadersAlmostDone, nread := p.nread + 2));
            Run(m, p, [CR, LF]) == if a.error != Ok then (a, []) else (Framing(m, a).p, [Notify(HeadersComplete)] + Framing(m, a).events)
  {
    hide Run, Feed, Settled, HeadersEnd, Framing, AtLine;
    AtSettled(p);
    SettledRun(m, p, [CR, LF]);
    var q := Settled(p);
    RunTwo(m, q, CR, LF);
    EmptyLineCr(m, q);
    EmptyLineLf(m, q.(state := HeadersAlmostDone, nread := q.nread + 1));
    NoEvents(Feed(m, q.(state := HeadersAlmostDone, nread := q.nread + 1), LF).1);
  }

  lemma EmptyLineCr(m: Message, p: Parser)
    requires p.state == HeaderFieldStart && p.error == Ok
    ensures Feed(m, p, CR) == (p.(state := HeadersAlmostDone, nread := p.nread + 1), [])
  {
  }

  lemma EmptyLineLf(m: Message, p: Parser)
    requires p.state == HeadersAlmostDone && p.error == Ok && !p.flags.trailing
    ensures var a := HeadersEnd(m, p.(nread := p.nread + 1));
            Feed(m, p, LF) == if a.error != Ok then (a, []) else (Framing(m, a).p, [Notify(HeadersComplete)] + Framing(m, a).events)
  {
    hide Framing;
    var a := HeadersEnd(m, p.(nread := p.nread + 1));
    if a.error == Ok { DoneTurn(m, a); }
  }

  lemma DoneTurn(m: Message, a: Parser)
    requires a.state == HeadersDone
    ensures Visits(m, a, LF) == (Framing(m, a).p, Framing(m, a).events)
  {
    hide NewMessage, NeedsEof;
  }

  // ---------- a message with a declared length ----------

  /** A header block: lines, one line that matters, lines, the empty line. */
  function Block(before: seq<FieldLine>, line: string, after: seq<FieldLine>): string {
    Lines(before) + line + ([CR, LF] + Lines(after) + [CR, LF])
  }

  /** The parser at the empty line, where the headers callback is due. */
  function AtEmptyLine(y: Parser): Parser { y.(state := HeadersAlmostDone, nread := y.nread + 2) }

  /** The lines to come do not switch the connection to another protocol either. */
  predicate Unswitched(m: Message, p: Parser, after: seq<FieldLine>) {
    || (!m.request && m.status != 101)
    || (!p.flags.upgrade && !AnyNamesUpgrade(after))
    || (!p.flags.connectionUpgrade && !AnyAsks(after))
  }

  /** At the end of the block the connection is not switched. */
  predicate Stays(m: Message, p: Parser) { p.flags.upgrade && p.flags.connectionUpgrade ==> !m.request && m.status != 101 }

  /** From the end of the line that matters to the end of the block. */
  lemma BlockTail(m: Message, q: Parser, after: seq<FieldLine>) returns (y: Parser, h: seq<Event>)
    requires q.state == Value && q.error == Ok && !Settled(q).flags.trailing && AllPlain(after) && Unswitched(m, Settled(q), after)
    ensures Stays(m, y) && ConnectionKept(Settled(q), y, AnyConnection(after))
    ensures LineKept(Settled(q), y, true) && y.error == Ok && Texts(h) && (after == [] ==> y.flags == Settled(q).flags)
    ensures var a := HeadersEnd(m, AtEmptyLine(y));
            Run(m, q, [CR, LF] + Lines(after) + [CR, LF])
            == if a.error != Ok then (a, h) else (Framing(m, a).p, h + ([Notify(HeadersComplete)] + Framing(m, a).events))
  {
    hide Run, Noted, HeadersEnd, Framing, PlainLine, Lines, AnyNamesUpgrade, AnyAsks, AnyConnection;
    ValueEnd(m, q);
    var r := q.(state := ValueLws, nread := q.nread + 2);
    SettledLws(q);
    PlainProper(after);
    LinesRun(m, r, after);
    var (z, e) := Run(m, r, Lines(after));
    AtSettled(z);
    BlockEnd(m, z);
    RunJoined(m, q, [CR, LF], Lines(after));
    RunJoined(m, q, [CR, LF] + Lines(after), [CR, LF]);
    NoEvents(e);
    y, h := Settled(z), e;
  }

  lemma SettledLws(q: Parser)
    requires q.state == Value
    ensures LineKept(Settled(q), Settled(q.(state := ValueLws, nread := q.nread + 2)), true)
    ensures Settled(q).flags == Settled(q.(state := ValueLws, nread := q.nread + 2)).flags
  {
  }

  lemma PlainProper(lines: seq<FieldLine>)
    requires AllPlain(lines)
    ensures AllProper(lines)
  {
    hide ProperLine;
  }

  /** What a run tells of a message: header text, then the body between its two notifications. */
  ghost predicate Tells(e: seq<Event>, body: string) {
    exists h: seq<Event> :: Texts(h) && e == h + ([Notify(HeadersComplete)] + Bytes(Body, body) + [Notify(MessageComplete)])
  }

  /** Between messages: ready for the next, or to be closed. */
  predicate Finished(p: Parser) { p.error == Ok && (p.state == StartLine || p.state == Dead) }

  /** The first lines of a block, up to a line that matters. */
  lemma BlockHead(m: Message, p: Parser, before: seq<FieldLine>, s: string) returns (q: Parser, h: seq<Event>)
    requires Beginning(p) && AllPlain(before) && s != "" && s[0] != ' ' && s[0] != '\t'
    ensures q.state == HeaderFieldStart && q.error == Ok && LineKept(p, q, true) && Texts(h) && (before == [] ==> q == p)
    ensures UpgradeKept(p, q, AnyNamesUpgrade(before), AnyAsks(before)) && ConnectionKept(p, q, AnyConnection(before))
    ensures Run(m, p, Lines(before) + s) == (Run(m, q, s).0, h + Run(m, q, s).1)
  {
    hide Run, PlainLine, Lines, AnyNamesUpgrade, AnyAsks, AnyConnection;
    PlainProper(before);
    LinesRun(m, p, before);
    var (z, e) := Run(m, p, Lines(before));
    AtSettled(z);
    RunJoined(m, p, Lines(before), s);
    SettledRun(m, z, s);
    q, h := Settled(z), e;
  }

  lemma LengthStarts(name: string, blanks: string, digits: string)
    requires Spells(name, LENGTH_NAME)
    ensures LengthBlock(name, blanks, digits) != "" && LengthBlock(name, blanks, digits)[0] != ' ' && LengthBlock(name, blanks, digits)[0] != '\t'
  {
    assert Token(' ') == '\0' && Token('\t') == '\0';
    hide Token;
    assert Token(name[0]) == 'c';
  }

  lemma TellsLater(h: seq<Event>, e: seq<Event>, body: string)
    requires Texts(h) && Tells(e, body)
    ensures Tells(h + e, body)
  {
    hide Texts;
    var t := [Notify(HeadersComplete)] + Bytes(Body, body) + [Notify(MessageComplete)];
    var g :| Texts(g) && e == g + t;
    TextsJoined(h, g);
    assert h + e == (h + g) + t;
  }

  /** Ready for the body of a message whose length is n. */
  predicate Declared(p: Parser, n: nat) {
    && p.length == n < NO_LENGTH && !p.encoded && !p.flags.trailing && !p.flags.skipBody && !p.flags.chunked
  }

  /** Behind the line that declares the length. */
  lemma DeclaredRest(m: Message, r: Parser, after: seq<FieldLine>, body: string)
    requires !m.connect && !m.answerSkip && AllPlain(after)
    requires r.state == Value && r.error == Ok && Declared(Settled(r), |body|) && Unswitched(m, Settled(r), after)
    ensures var (q, e) := Run(m, r, ([CR, LF] + Lines(after) + [CR, LF]) + body); Finished(q) && Tells(e, body)
  {
    hide Run, PlainLine, Lines, HeadersEnd, Framing, Settled, AllPlain, Texts, Unswitched, Stays;
    hide Tells, Finished, Beginning;
    var tail := [CR, LF] + Lines(after) + [CR, LF];
    var y, g := BlockTail(m, r, after);
    LengthFraming(m, y);
    var (z, e) := Run(m, r, tail);
    RunJoined(m, r, tail, body);
    BodyTold(m, z, e, g, body);
  }

  /** The body itself, behind what the header block has told. */
  lemma BodyTold(m: Message, z: Parser, e: seq<Event>, g: seq<Event>, body: string)
    requires z.error == Ok && Texts(g) && |body| < NO_LENGTH
    requires if body == "" then Finished(z) && e == g + ([Notify(HeadersComplete)] + [Notify(MessageComplete)])
             else z.state == BodyIdentity && z.length == |body| && e == g + ([Notify(HeadersComplete)] + [])
    ensures var (q, f) := Run(m, z, body); Finished(q) && Tells(e + f, body)
  {
    hide Run, KeepAlive, Texts;
    if body == "" {
      RunNothing(m, z);
    } else {
      IdentityBody(m, z, body);
    }
    assert e + Run(m, z, body).1 == g + ([Notify(HeadersComplete)] + Bytes(Body, body) + [Notify(MessageComplete)]);
  }

  /**
   A header block that declares a length, among any other lines that neither concern
   the framing nor switch the protocol, and behind it as many bytes as the digits say: exactly these bytes
   are delivered, and then the message is complete.
   */
  lemma DeclaredBody(m: Message, p: Parser, before: seq<FieldLine>, name: string, blanks: string, digits: string,
                     after: seq<FieldLine>, body: string)
    requires Beginning(p) && !m.connect && !m.answerSkip && AllPlain(before) && AllPlain(after) && NoSwitch(m, before, after)
    requires Spells(name, LENGTH_NAME) && Blanks(blanks) && digits != "" && Digits(digits)
    requires |body| == DecimalValue(digits) <= MAX_LENGTH
    ensures var (q, e) := Run(m, p, Block(before, LengthBlock(name, blanks, digits), after) + body);
            Finished(q) && Tells(e, body)
  {
    hide Run, Spells, AllPlain, Lines, Blanks, DecimalValue, LengthBlock, Texts, Tells, AnyNamesUpgrade, AnyAsks, AnyConnection;
    var line, rest := LengthBlock(name, blanks, digits), ([CR, LF] + Lines(after) + [CR, LF]) + body;
    LengthStarts(name, blanks, digits);
    TextFirst(line, rest);
    var q, h := BlockHead(m, p, before, line + rest);
    DeclaredBehind(m, q, name, blanks, digits, after, body);
    BlockParts(before, line, after, body);
    TellsLater(h, Run(m, q, line + rest).1, body);
  }

  /** The same from the line that declares the length. */
  lemma DeclaredBehind(m: Message, q: Parser, name: string, blanks: string, digits: string, after: seq<FieldLine>, body: string)
    requires q.state == HeaderFieldStart && q.error == Ok && !m.connect && !m.answerSkip && AllPlain(after) && !q.flags.length
    requires !q.encoded && !q.flags.trailing && !q.flags.skipBody && !q.flags.chunked && Unswitched(m, q, after)
    requires Spells(name, LENGTH_NAME) && Blanks(blanks) && digits != "" && Digits(digits)
    requires |body| == DecimalValue(digits) <= MAX_LENGTH
    ensures var (z, e) := Run(m, q, LengthBlock(name, blanks, digits) + (([CR, LF] + Lines(after) + [CR, LF]) + body));
            Finished(z) && Tells(e, body)
  {
    hide Run, Spells, AllPlain, Lines, Blanks, DecimalValue, LengthBlock, Texts, Tells, AnyNamesUpgrade, AnyAsks, AnyConnection;
    var line, rest := LengthBlock(name, blanks, digits), ([CR, LF] + Lines(after) + [CR, LF]) + body;
    LengthLine(m, q, name, blanks, digits);
    var (r, e) := Run(m, q, line);
    LengthSettled(r);
    DeclaredRest(m, r, after, body);
    RunJoined(m, q, line, rest);
    LengthTexts(name, digits);
    TellsLater(e, Run(m, r, rest).1, body);
  }

  lemma LengthTexts(name: string, digits: string)
    ensures Texts(Bytes(Field, name) + Bytes(ValueText, digits))
  {
  }

  lemma LengthSettled(r: Parser)
    requires r.matching == ContentLengthNum
    ensures Settled(r) == r.(state := HeaderFieldStart)
  {
  }

  lemma LengthFraming(m: Message, y: Parser)
    requires !m.connect && !m.answerSkip && y.error == Ok && y.length < NO_LENGTH
    requires !y.encoded && Stays(m, y) && !y.flags.skipBody && !y.flags.chunked
    ensures var a := HeadersEnd(m, AtEmptyLine(y)); var t := Framing(m, a);
            && a.error == Ok && t.p.error == Ok && t.p.length == y.length
            && (y.length > 0 ==> t.p.state == BodyIdentity && t.events == [])
            && (y.length == 0 ==> Finished(t.p) && t.events == [Notify(MessageComplete)])
  {
    hide KeepAlive, NeedsEof;
  }

  /** A declared length above the limit is refused, whatever follows. */
  lemma TooLongRefused(m: Message, p: Parser, before: seq<FieldLine>, name: string, blanks: string, digits: string, rest: string)
    requires Beginning(p) && AllPlain(before) && Spells(name, LENGTH_NAME) && Blanks(blanks) && digits != "" && Digits(digits)
    requires DecimalValue(digits) > MAX_LENGTH
    ensures Run(m, p, Lines(before) + LengthBlock(name, blanks, digits) + rest).0.error == InvalidLength
  {
    hide Run, Spells, PlainLine, Lines, Blanks, DecimalValue, LengthBlock, AllPlain;
    var line := LengthBlock(name, blanks, digits);
    LengthStarts(name, blanks, digits);
    TextFirst(line, rest);
    var q, h := BlockHead(m, p, before, line + rest);
    LengthLine(m, q, name, blanks, digits);
    RunJoined(m, q, line, rest);
    RunAfterError(m, Run(m, q, line).0, rest);
    assert Lines(before) + line + rest == Lines(before) + (line + rest);
  }

  // ---------- a chunked message ----------

  /** What k letters of `transfer-encoding` have been recognized as. */
  function CodingMatch(k: nat): Matching { if k < |CODING_NAME| then NameTransferEncoding else TransferEncoding }

  lemma CodingNameByte(m: Message, p: Parser, k: nat, ch: char)
    requires 1 <= k < |CODING_NAME| && Token(ch) == CODING_NAME[k]
    requires p.state == HeaderField && p.error == Ok && p.index == k - 1 && p.matching == NameTransferEncoding
    ensures Feed(m, p, ch)
            == (p.(index := k, matching := CodingMatch(k + 1), encoded := p.encoded || k + 1 == |CODING_NAME|, nread := p.nread + 1),
                [Byte(Field, ch)])
  {
    hide Token;
    assert CODING_NAME == "transfer-encoding";
  }

  /** The name `transfer-encoding` is recognized, and noted. */
  lemma {:induction false} CodingNameRun(m: Message, p: Parser, name: string)
    requires p.state == HeaderFieldStart && p.error == Ok
    requires 0 < |name| <= |CODING_NAME| && Spells(name, CODING_NAME[..|name|])
    ensures Run(m, p, name)
            == (p.(state := HeaderField, index := |name| - 1, matching := CodingMatch(|name|),
                   encoded := p.encoded || |name| == |CODING_NAME|, nread := p.nread + |name|), Bytes(Field, name))
    decreases |name|
  {
    hide Run, Feed, Token;
    var s', ch := name[..|name| - 1], name[|name| - 1];
    LastByte(name);
    OneMoreByte(Field, name);
    RunLast(m, p, s', ch);
    assert Token(ch) == CODING_NAME[|name| - 1];
    if s' == "" {
      RunNothing(m, p);
      NameFirst(m, p, ch);
    } else {
      CodingNameRun(m, p, s');
      CodingNameByte(m, Run(m, p, s').0, |s'|, ch);
    }
  }

  lemma {:induction false} NotedStays(m: Message, p: Parser, s: string)
    requires p.state == HeaderField && p.error == Ok && p.encoded && Tokens(s)
    ensures var q := Run(m, p, s).0; q.state == HeaderField && q.error == Ok && q.encoded
    decreases |s|
  {
    hide Run, Feed, Token, Word;
    if s == "" {
      RunNothing(m, p);
    } else {
      var s', ch := s[..|s| - 1], s[|s| - 1];
      LastByte(s);
      NotedStays(m, p, s');
      RunLast(m, p, s', ch);
      NameByte(m, Run(m, p, s').0, ch);
    }
  }

  /** That a transfer coding is used is noted for exactly the names that begin with `transfer-encoding`. */
  lemma CodingNoted(m: Message, p: Parser, name: string)
    requires p.state == HeaderFieldStart && p.error == Ok && !p.encoded && name != "" && Tokens(name)
    ensures Run(m, p, name).0.encoded <==> BeginsWith(name, CODING_NAME)
  {
    hide Run, Token;
    NameRun(m, p, name);
    if BeginsWith(name, CODING_NAME) {
      var a, b := name[..|CODING_NAME|], name[|CODING_NAME|..];
      assert CODING_NAME[..|a|] == CODING_NAME && name == a + b;
      CodingNameRun(m, p, a);
      NotedStays(m, Run(m, p, a).0, b);
      RunJoined(m, p, a, b);
    }
  }

  const CHUNKED: string := "chunked"

  lemma TokenLower(ch: char)
    requires 'a' <= Token(ch) <= 'z'
    ensures Lower(ch) == Token(ch) && ch != ' ' && ch != '\t' && ch != CR && ch != LF && IsHeaderChar(ch)
  {
  }

  lemma ChunkedByte(m: Message, p: Parser, k: nat, ch: char)
    requires k < |CHUNKED| && Token(ch) == CHUNKED[k] && p.error == Ok
    requires if k == 0 then p.state == ValueDiscardWs && p.matching == TransferEncoding
             else p.state == Value && p.index == k - 1 && p.matching == CodingChunked
    ensures Feed(m, p, ch)
            == (p.(state := Value, index := k, matching := if k + 1 < |CHUNKED| then CodingChunked else ChunkedMatched, nread := p.nread + 1),
                [Byte(ValueText, ch)])
  {
    TokenLower(ch);
    hide Token, Lower, IsHeaderChar;
    assert CHUNKED == "chunked";
  }

  lemma {:induction false} ChunkedValueRun(m: Message, p: Parser, s: string)
    requires p.state == ValueDiscardWs && p.error == Ok && p.matching == TransferEncoding
    requires 0 < |s| <= |CHUNKED| && Spells(s, CHUNKED[..|s|])
    ensures Run(m, p, s)
            == (p.(state := Value, index := |s| - 1, matching := if |s| < |CHUNKED| then CodingChunked else ChunkedMatched,
                   nread := p.nread + |s|), Bytes(ValueText, s))
    decreases |s|
  {
    hide Run, Feed, Token;
    var s', ch := s[..|s| - 1], s[|s| - 1];
    LastByte(s);
    OneMoreByte(ValueText, s);
    RunLast(m, p, s', ch);
    assert Token(ch) == CHUNKED[|s| - 1];
    if s' == "" {
      RunNothing(m, p);
    } else {
      ChunkedValueRun(m, p, s');
    }
    ChunkedByte(m, Run(m, p, s').0, |s'|, ch);
  }

  function CodingLine(name: string, blanks: string, coding: string): string { name + (":" + blanks) + coding }

  lemma CodingStarts(name: string, blanks: string, coding: string)
    requires Spells(name, CODING_NAME)
    ensures CodingLine(name, blanks, coding) != ""
            && CodingLine(name, blanks, coding)[0] != ' ' && CodingLine(name, blanks, coding)[0] != '\t'
  {
    assert Token(' ') == '\0' && Token('\t') == '\0';
    hide Token;
    assert Token(name[0]) == 't';
  }

  /** Name, colon and blanks of a Transfer-Encoding line. */
  lemma CodingHead(m: Message, p: Parser, name: string, blanks: string)
    requires p.state == HeaderFieldStart && p.error == Ok && Spells(name, CODING_NAME) && Blanks(blanks)
    ensures Run(m, p, name + (":" + blanks))
            == (p.(state := ValueDiscardWs, index := |name| - 1, matching := TransferEncoding, encoded := true,
                   nread := p.nread + |name| + 1 + |blanks|), Bytes(Field, name))
  {
    hide Run, Token;
    assert CODING_NAME[..|name|] == CODING_NAME;
    CodingNameRun(m, p, name);
    BlanksRun(m, Run(m, p, name).0, blanks);
    RunJoined(m, p, name, ":" + blanks);
    NoEvents(Bytes(Field, name));
  }

  /** The coding of section 4.1 of RFC 7230: chunks, the last chunk, a trailer, the empty line. */
  function ChunkedText(chunks: seq<Chunk>, last: Chunk, trailer: seq<FieldLine>): string {
    if chunks == [] then ChunkHead(last) + (Lines(trailer) + [CR, LF]) else Coded(chunks[0]) + ChunkedText(chunks[1..], last, trailer)
  }

  /** The body is the bytes delivered, and one message_complete comes at the very end. */
  ghost predicate Delivers(e: seq<Event>, body: string) {
    BodyOf(e) == body && |e| > 0 && e[|e| - 1] == Notify(MessageComplete) && Notify(MessageComplete) !in e[..|e| - 1]
  }

  lemma {:induction false} TextsBody(h: seq<Event>)
    requires Texts(h)
    ensures BodyOf(h) == "" && Notify(MessageComplete) !in h
    decreases |h|
  {
    if h != [] {
      assert h[|h| - 1] in h;
      TextsBody(h[..|h| - 1]);
    }
  }

  lemma DeliversLater(a: seq<Event>, x: string, b: seq<Event>, y: string)
    requires BodyOf(a) == x && Notify(MessageComplete) !in a && Delivers(b, y)
    ensures Delivers(a + b, x + y)
  {
    hide BodyOf;
    SplitJoined(a, b);
    assert (a + b)[..|a + b| - 1] == a + b[..|b| - 1];
  }

  lemma NoticeBody(n: Notice)
    ensures BodyOf([Notify(n)]) == ""
  {
    assert [Notify(n)][..0] == [];
  }

  lemma CompleteDelivers()
    ensures Delivers([Notify(MessageComplete)], "")
  {
    NoticeBody(MessageComplete);
  }

  /** The last chunk, the trailer and the empty line complete the message. */
  lemma LastRun(m: Message, p: Parser, c: Chunk, trailer: seq<FieldLine>)
    requires p.state == ChunkSizeStart && p.error == Ok && ProperLast(c) && AllProper(trailer)
    ensures var (q, e) := Run(m, p, ChunkHead(c) + (Lines(trailer) + [CR, LF])); Finished(q) && Delivers(e, "")
  {
    hide Run, SizeValue, Feed, ProperLine, Texts, Lines, Settled, AtLine, BodyOf;
    HeadRun(m, p, c);
    var q := Run(m, p, ChunkHead(c)).0;
    StartIsLine(q);
    LinesRun(m, q, trailer);
    var (r, h) := Run(m, q, Lines(trailer));
    TrailerEnd(m, r);
    RunJoined(m, q, Lines(trailer), [CR, LF]);
    RunJoined(m, p, ChunkHead(c), Lines(trailer) + [CR, LF]);
    TextsBody(h);
    NoticeBody(ChunkHeader);
    NoticeBody(ChunkComplete);
    CompleteDelivers();
    DeliversLater([Notify(ChunkComplete)], "", [Notify(MessageComplete)], "");
    assert [Notify(ChunkComplete)] + [Notify(MessageComplete)] == [Notify(ChunkComplete), Notify(MessageComplete)];
    DeliversLater(h, "", [Notify(ChunkComplete), Notify(MessageComplete)], "");
    DeliversLater([Notify(ChunkHeader)], "", h + [Notify(ChunkComplete), Notify(MessageComplete)], "");
  }

  lemma StartIsLine(q: Parser)
    requires q.state == HeaderFieldStart && q.error == Ok
    ensures AtLine(q) && Settled(q) == q
  {
  }

  lemma TrailerEnd(m: Message, p: Parser)
    requires AtLine(p) && Settled(p).flags.trailing
    ensures var (q, e) := Run(m, p, [CR, LF]); Finished(q) && e == [Notify(ChunkComplete), Notify(MessageComplete)]
  {
    hide Run, Feed, Settled, AtLine;
    AtSettled(p);
    SettledRun(m, p, [CR, LF]);
    var q := Settled(p);
    RunTwo(m, q, CR, LF);
    EmptyLineCr(m, q);
    TrailerLf(m, q.(state := HeadersAlmostDone, nread := q.nread + 1));
    NoEvents([Notify(ChunkComplete), Notify(MessageComplete)]);
  }

  lemma TrailerLf(m: Message, p: Parser)
    requires p.state == HeadersAlmostDone && p.error == Ok && p.flags.trailing
    ensures var (q, e) := Feed(m, p, LF); Finished(q) && e == [Notify(ChunkComplete), Notify(MessageComplete)]
  {
    hide KeepAlive;
    DoneVisit(m, p.(state := MessageDone, nread := p.nread + 1), LF);
    assert [Notify(ChunkComplete)] + [Notify(MessageComplete)] == [Notify(ChunkComplete), Notify(MessageComplete)];
  }

  /**
   A chunked body: exactly the concatenation of the chunks is delivered, then one
   message_complete, whatever the trailer says.
   */
  lemma {:induction false} ChunkedBody(m: Message, p: Parser, chunks: seq<Chunk>, last: Chunk, trailer: seq<FieldLine>)
    requires p.state == ChunkSizeStart && p.error == Ok && ProperLast(last) && AllProper(trailer)
    requires forall i | 0 <= i < |chunks| :: Proper(chunks[i])
    ensures var (q, e) := Run(m, p, ChunkedText(chunks, last, trailer)); Finished(q) && Delivers(e, Joined(chunks))
    decreases |chunks|
  {
    hide Run, Feed, Proper, ProperLast, Coded, ChunkHead, BodyOf, Notices, Lines, ProperLine;
    if chunks == [] {
      LastRun(m, p, last, trailer);
    } else {
      var c, rest := chunks[0], ChunkedText(chunks[1..], last, trailer);
      ChunkRun(m, p, c);
      var (q, e) := Run(m, p, Coded(c));
      ChunkedBody(m, q, chunks[1..], last, trailer);
      RunJoined(m, p, Coded(c), rest);
      ChunkEvents(c);
      DeliversLater(e, c.data, Run(m, q, rest).1, Joined(chunks[1..]));
    }
  }

  /**
   A whole chunked message: its header block with a Transfer-Encoding line among any
   others that do not concern the framing, and the coding of the chunks behind it.
   */
  lemma ChunkedMessage(m: Message, p: Parser, before: seq<FieldLine>, name: string, blanks: string, coding: string,
                       after: seq<FieldLine>, chunks: seq<Chunk>, last: Chunk, trailer: seq<FieldLine>)
    requires Beginning(p) && !m.connect && !m.answerSkip && AllPlain(before) && AllPlain(after) && AllProper(trailer)
    requires NoSwitch(m, before, after)
    requires Spells(name, CODING_NAME) && Blanks(blanks) && Spells(coding, CHUNKED)
    requires ProperLast(last) && forall i | 0 <= i < |chunks| :: Proper(chunks[i])
    ensures var (q, e) := Run(m, p, Block(before, CodingLine(name, blanks, coding), after) + ChunkedText(chunks, last, trailer));
            Finished(q) && Delivers(e, Joined(chunks))
  {
    hide Run, Spells, AllPlain, AllProper, Lines, Blanks, Texts, Delivers, Proper, ProperLast, CodingLine, ChunkedText, Joined, BodyOf;
    hide AnyNamesUpgrade, AnyAsks, AnyConnection;
    var line, text := CodingLine(name, blanks, coding), ChunkedText(chunks, last, trailer);
    var rest := ([CR, LF] + Lines(after) + [CR, LF]) + text;
    CodingStarts(name, blanks, coding);
    TextFirst(line, rest);
    var q, h := BlockHead(m, p, before, line + rest);
    ChunkedBehind(m, q, name, blanks, coding, after, chunks, last, trailer);
    BlockParts(before, line, after, text);
    TextsBody(h);
    DeliversLater(h, "", Run(m, q, line + rest).1, Joined(chunks));
    assert "" + Joined(chunks) == Joined(chunks);
  }

  /** The same from the line that names the coding. */
  lemma ChunkedBehind(m: Message, q: Parser, name: string, blanks: string, coding: string,
                      after: seq<FieldLine>, chunks: seq<Chunk>, last: Chunk, trailer: seq<FieldLine>)
    requires q.state == HeaderFieldStart && q.error == Ok && !m.connect && !m.answerSkip && AllPlain(after) && AllProper(trailer)
    requires !q.flags.length && !q.flags.trailing && !q.flags.skipBody && Unswitched(m, q, after)
    requires Spells(name, CODING_NAME) && Blanks(blanks) && Spells(coding, CHUNKED)
    requires ProperLast(last) && forall i | 0 <= i < |chunks| :: Proper(chunks[i])
    ensures var rest := ([CR, LF] + Lines(after) + [CR, LF]) + ChunkedText(chunks, last, trailer);
            var (z, e) := Run(m, q, CodingLine(name, blanks, coding) + rest);
            Finished(z) && Delivers(e, Joined(chunks))
  {
    hide Run, Spells, AllPlain, AllProper, Lines, Blanks, Texts, Delivers, Proper, ProperLast, CodingLine, ChunkedText, Settled;
    hide Joined, Chunking, BodyOf, AnyNamesUpgrade, AnyAsks, AnyConnection;
    var line := CodingLine(name, blanks, coding);
    var rest := ([CR, LF] + Lines(after) + [CR, LF]) + ChunkedText(chunks, last, trailer);
    ChunkedLine(m, q, name, blanks, coding);
    var (r, e) := Run(m, q, line);
    ChunkedRest(m, r, after, chunks, last, trailer);
    RunJoined(m, q, line, rest);
    TextsBody(e);
    DeliversLater(e, "", Run(m, r, rest).1, Joined(chunks));
    assert "" + Joined(chunks) == Joined(chunks);
  }

  lemma TextFirst(a: string, b: string)
    requires a != "" && a[0] != ' ' && a[0] != '\t'
    ensures a + b != "" && (a + b)[0] != ' ' && (a + b)[0] != '\t'
  {
  }

  lemma BlockParts(before: seq<FieldLine>, line: string, after: seq<FieldLine>, text: string)
    ensures Block(before, line, after) + text == Lines(before) + (line + (([CR, LF] + Lines(after) + [CR, LF]) + text))
  {
    hide Lines;
  }

  /** Ready for a chunked body. */
  predicate Chunking(p: Parser) {
    p.flags.chunked && !p.flags.length && !p.flags.trailing && !p.flags.skipBody
  }

  lemma ChunkedLine(m: Message, p: Parser, name: string, blanks: string, coding: string)
    requires p.state == HeaderFieldStart && p.error == Ok
    requires !p.flags.length && !p.flags.trailing && !p.flags.skipBody
    requires Spells(name, CODING_NAME) && Blanks(blanks) && Spells(coding, CHUNKED)
    ensures var (r, e) := Run(m, p, CodingLine(name, blanks, coding));
            && r.state == Value && r.error == Ok && Chunking(Settled(r)) && Texts(e)
            && Settled(r).flags == p.flags.(chunked := true)
  {
    hide Run, Token, Blanks;
    CodingHead(m, p, name, blanks);
    assert CHUNKED[..|coding|] == CHUNKED;
    ChunkedValueRun(m, Run(m, p, name + (":" + blanks)).0, coding);
    RunJoined(m, p, name + (":" + blanks), coding);
    LengthTexts(name, coding);
  }

  lemma ChunkedRest(m: Message, r: Parser, after: seq<FieldLine>, chunks: seq<Chunk>, last: Chunk, trailer: seq<FieldLine>)
    requires !m.connect && !m.answerSkip && AllPlain(after) && AllProper(trailer)
    requires r.state == Value && r.error == Ok && Chunking(Settled(r)) && Unswitched(m, Settled(r), after)
    requires ProperLast(last) && forall i | 0 <= i < |chunks| :: Proper(chunks[i])
    ensures var (q, e) := Run(m, r, ([CR, LF] + Lines(after) + [CR, LF]) + ChunkedText(chunks, last, trailer));
            Finished(q) && Delivers(e, Joined(chunks))
  {
    hide Run, AllPlain, AllProper, Lines, HeadersEnd, Framing, Settled, Texts, Delivers, Proper, ProperLast, ChunkedText, BodyOf;
    hide Joined, Unswitched, Stays;
    var tail, text := [CR, LF] + Lines(after) + [CR, LF], ChunkedText(chunks, last, trailer);
    var y, g := BlockTail(m, r, after);
    ChunkedFraming(m, y);
    var (z, d) := Run(m, r, tail);
    NoEvents([Notify(HeadersComplete)]);
    assert d == g + [Notify(HeadersComplete)] && z.state == ChunkSizeStart && z.error == Ok;
    RunJoined(m, r, tail, text);
    ChunkedBody(m, z, chunks, last, trailer);
    TextsBody(g);
    NoticeBody(HeadersComplete);
    SplitJoined(g, [Notify(HeadersComplete)]);
    DeliversLater(d, "", Run(m, z, text).1, Joined(chunks));
    assert "" + Joined(chunks) == Joined(chunks);
  }

  lemma ChunkedFraming(m: Message, y: Parser)
    requires !m.connect && !m.answerSkip && y.error == Ok && Chunking(y) && Stays(m, y)
    ensures var a := HeadersEnd(m, AtEmptyLine(y)); var t := Framing(m, a);
            a.error == Ok && t.p.error == Ok && t.p.state == ChunkSizeStart && t.events == []
  {
    hide KeepAlive, NeedsEof;
  }

  // ---------- messages that end with the connection ----------

  /** A status that never has a body. */
  predicate Bodiless(status: nat) { status / 100 == 1 || status == 204 || status == 304 }

  /** A response with such a status and a transfer coding other than chunked: there the parser's two answers disagree. */
  predicate AtOdds(m: Message, p: Parser) {
    !m.request && Bodiless(m.status) && p.encoded && !p.flags.chunked && !p.flags.skipBody
  }

  lemma FramingEof(m: Message, p: Parser)
    requires p.error == Ok && Framing(m, p).p.error == Ok
    ensures var q := Framing(m, p).p;
            && (q.state == BodyIdentityEof <==> NeedsEof(m, q) || AtOdds(m, q))
            && Notify(HeadersComplete) !in Framing(m, p).events
  {
    hide KeepAlive;
  }

  lemma {:induction false} VisitsEof(m: Message, p: Parser, ch: char)
    requires p.error == Ok && Visits(m, p, ch).0.error == Ok && Notify(HeadersComplete) in Visits(m, p, ch).1
    ensures var q := Visits(m, p, ch).0; q.state == BodyIdentityEof <==> NeedsEof(m, q) || AtOdds(m, q)
    decreases Rank(p.state)
  {
    hide Turn, Framing, HeadersEnd, AtOdds, NeedsEof;
    var t := Turn(m, p, ch);
    TurnCompletes(m, p, ch);
    if p.state == HeadersDone {
      if t.p.error == Ok { FramingEof(m, p); }
    } else if Notify(HeadersComplete) in t.events {
      DoneTurn(m, t.p);
      if Framing(m, t.p).p.error == Ok { FramingEof(m, t.p); }
    } else {
      VisitsEof(m, t.p, ch);
    }
  }

  /** The headers callback is made in one place. */
  lemma TurnCompletes(m: Message, p: Parser, ch: char)
    requires p.error == Ok
    ensures var t := Turn(m, p, ch);
            && (Notify(HeadersComplete) in t.events ==> t.again && t.p.state == HeadersDone && t.p.error == Ok && ch == LF && p.state == HeadersAlmostDone)
            && (p.state == HeadersDone && t.p.error == Ok ==> t == Framing(m, p))
            && (p.state == HeadersDone ==> !t.again && Notify(HeadersComplete) !in t.events)
  {
    hide TextTurn, LineTurn, ChunkTurn, EndTurn, Framing;
    if TextState(p.state) {
      TextQuiet(p, ch);
    } else if LineState(p.state) {
      LineQuiet(p, ch);
    } else if ChunkState(p.state) {
      ChunkQuiet(p, ch);
    } else {
      EndCompletes(m, p, ch);
    }
  }

  lemma TextQuiet(p: Parser, ch: char)
    ensures Notify(HeadersComplete) !in TextTurn(p, ch).events
  {
    hide NameNext, ValueFirst, ValueNext, Token, IsHeaderChar;
  }

  lemma LineQuiet(p: Parser, ch: char)
    ensures Notify(HeadersComplete) !in LineTurn(p, ch).events
  {
    hide NameStart, Token, Noted;
  }

  lemma ChunkQuiet(p: Parser, ch: char)
    ensures Notify(HeadersComplete) !in ChunkTurn(p, ch).events
  {
    hide Unhex, Wrap64;
  }

  lemma EndCompletes(m: Message, p: Parser, ch: char)
    requires p.error == Ok
    ensures var t := EndTurn(m, p, ch);
            && (Notify(HeadersComplete) in t.events ==> t.again && t.p.state == HeadersDone && t.p.error == Ok && ch == LF && p.state == HeadersAlmostDone)
            && (p.state == HeadersDone && t.p.error == Ok ==> t == Framing(m, p))
            && (p.state == HeadersDone ==> !t.again && Notify(HeadersComplete) !in t.events)
  {
    hide NewMessage, NeedsEof;
  }

  /**
   The byte that completes a header block, wherever a run has led: the body is read
   up to the end of the connection exactly when the parser then says that it needs
   an end of file, or the message is one where the two answers disagree.
   */
  lemma EofFraming(m: Message, p: Parser, s: string, ch: char)
    requires Beginning(p) && Run(m, p, s + [ch]).0.error == Ok
    requires Notify(HeadersComplete) in Feed(m, Run(m, p, s).0, ch).1
    ensures var q := Run(m, p, s + [ch]).0; q.state == BodyIdentityEof <==> NeedsEof(m, q) || AtOdds(m, q)
  {
    hide Run, Visits, NeedsEof, AtOdds;
    RunLast(m, p, s, ch);
    VisitsEof(m, Counted(Run(m, p, s).0), ch);
  }

  /** A coding's name that does not begin like `chunked`. */
  predicate OtherCoding(coding: string) { coding != "" && Tokens(coding) && Lower(coding[0]) != 'c' }

  lemma OtherByte(m: Message, p: Parser, first: bool, ch: char)
    requires Token(ch) != '\0' && p.error == Ok
    requires if first then p.state == ValueDiscardWs && p.matching == TransferEncoding && Lower(ch) != 'c'
             else p.state == Value && p.matching == Coding
    ensures var q := Feed(m, p, ch).0;
            q == p.(state := Value, matching := Coding, index := if first then 0 else p.index, nread := p.nread + 1)
            && Texts(Feed(m, p, ch).1)
  {
    TokenPlain(ch);
    hide Token, Lower, IsHeaderChar;
  }

  lemma TokenPlain(ch: char)
    requires Token(ch) != '\0'
    ensures IsHeaderChar(ch) && ch != CR && ch != LF && ch != ' ' && ch != '\t' && ch != ','
  {
  }

  lemma {:induction false} OtherRun(m: Message, p: Parser, s: string)
    requires p.state == ValueDiscardWs && p.error == Ok && p.matching == TransferEncoding && OtherCoding(s)
    ensures var (q, e) := Run(m, p, s);
            q == p.(state := Value, matching := Coding, index := 0, nread := p.nread + |s|) && Texts(e)
    decreases |s|
  {
    hide Run, Feed, Token, Lower, Texts;
    var s', ch := s[..|s| - 1], s[|s| - 1];
    LastByte(s);
    RunLast(m, p, s', ch);
    if s' == "" {
      RunNothing(m, p);
    } else {
      OtherRun(m, p, s');
    }
    var (q, e) := Run(m, p, s');
    NoTexts();
    OtherByte(m, q, s' == "", ch);
    TextsJoined(e, Feed(m, q, ch).1);
  }

  /** A response whose coding is not chunked: ready for a body up to the end of the connection. */
  predicate Unchunked(p: Parser) {
    p.encoded && !p.flags.chunked && !p.flags.length && !p.flags.trailing && !p.flags.skipBody
  }

  lemma OtherLine(m: Message, q: Parser, name: string, blanks: string, coding: string)
    requires q.state == HeaderFieldStart && q.error == Ok && Unchunked(q.(encoded := true))
    requires Spells(name, CODING_NAME) && Blanks(blanks) && OtherCoding(coding)
    ensures var (r, e) := Run(m, q, CodingLine(name, blanks, coding));
            r.state == Value && r.error == Ok && Unchunked(Settled(r)) && Settled(r).flags == q.flags
  {
    hide Run, Token, Lower, Blanks;
    CodingHead(m, q, name, blanks);
    OtherRun(m, Run(m, q, name + (":" + blanks)).0, coding);
    RunJoined(m, q, name + (":" + blanks), coding);
  }

  lemma EofAtOdds(m: Message, y: Parser)
    requires !m.request && !m.connect && !m.answerSkip && y.error == Ok && Unchunked(y) && Stays(m, y)
    ensures var a := HeadersEnd(m, AtEmptyLine(y)); var q := Framing(m, a).p;
            && a.error == Ok && q.error == Ok && q.state == BodyIdentityEof && (NeedsEof(m, q) <==> !Bodiless(m.status))
            && (!y.flags.close && !y.flags.keepAlive ==> (KeepAlive(m, q) <==> Bodiless(m.status) && m.major > 0 && m.minor > 0))
  {
  }

  /**
   A response with such a coding, as bytes: its body is always read to the end of
   the connection, but the parser says that it needs an end of file only when the
   status may have a body. So a 1xx, 204 or 304 response of HTTP/1.1 is called
   keep-alive while its body never ends.
   */
  lemma EofFramingCanDiffer(m: Message, p: Parser, before: seq<FieldLine>, name: string, blanks: string, coding: string,
                            after: seq<FieldLine>)
    requires Beginning(p) && !m.request && !m.connect && !m.answerSkip && AllPlain(before) && AllPlain(after) && NoSwitch(m, before, after)
    requires Spells(name, CODING_NAME) && Blanks(blanks) && OtherCoding(coding)
    ensures var q := Run(m, p, Block(before, CodingLine(name, blanks, coding), after)).0;
            && q.error == Ok && q.state == BodyIdentityEof && (NeedsEof(m, q) <==> !Bodiless(m.status))
            && (before == after == [] ==> (KeepAlive(m, q) <==> Bodiless(m.status) && m.major > 0 && m.minor > 0))
  {
    hide Run, Spells, AllPlain, Lines, Blanks, OtherCoding, Settled, Texts, HeadersEnd, Framing, CodingLine, NeedsEof, KeepAlive, Bodiless;
    hide AnyNamesUpgrade, AnyAsks, AnyConnection;
    var line, tail := CodingLine(name, blanks, coding), [CR, LF] + Lines(after) + [CR, LF];
    CodingStarts(name, blanks, coding);
    TextFirst(line, tail);
    var q, h := BlockHead(m, p, before, line + tail);
    OtherLine(m, q, name, blanks, coding);
    var r := Run(m, q, line).0;
    var y, g := BlockTail(m, r, after);
    EofAtOdds(m, y);
    RunJoined(m, q, line, tail);
    assert Block(before, line, after) == Lines(before) + (line + tail);
  }

  /** The shortest of them: bytes that a server can send. */
  lemma NoContentNeverEnds(p: Parser)
    requires Beginning(p)
    ensures var m := Message(false, false, 204, 1, 1, false, false);
            var q := Run(m, p, "transfer-encoding:x\r\n\r\n").0;
            q.error == Ok && q.state == BodyIdentityEof && KeepAlive(m, q) && !NeedsEof(m, q)
  {
    hide Run, KeepAlive, NeedsEof, Block, CodingLine, Spells, Blanks, OtherCoding, Beginning;
    ShortCoding();
    EofFramingCanDiffer(Message(false, false, 204, 1, 1, false, false), p, [], "transfer-encoding", "", "x", []);
  }

  lemma ShortCoding()
    ensures Spells("transfer-encoding", CODING_NAME) && Blanks("") && OtherCoding("x")
    ensures Block([], CodingLine("transfer-encoding", "", "x"), []) == "transfer-encoding:x\r\n\r\n"
  {
    assert "transfer-encoding" + (":" + "") + "x" == "transfer-encoding:x";
  }
}
