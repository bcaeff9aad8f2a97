/**
 The resumable HTTP parser: the byte loop of `http_parser_execute` from the header
 block on, with its marks into the caller's buffer, its inner loops over names and
 values and its jumps over body data. Callbacks return 0 and are recorded in the
 order they are made.

 The plain meaning of a byte is the automaton of HttpFraming. A mark says where
 text already accepted but not yet handed over begins, so what a call has told its
 callbacks so far, joined with the text under its one mark, is what the automaton
 says of the bytes consumed; every turn of the loop keeps that, and so does every
 way out of it.
 */
module HttpParser {
  import opened HttpFraming
  import opened HttpBodies
  import M = HttpMessages
  import O = HttpOutcomes

  /** A callback: data, or a notification. */
  datatype Call = Data(kind: Kind, text: string) | Told(what: Notice)

  /** A position in the buffer, or none: `header_field_mark`, `header_value_mark`, `body_mark`. */
  datatype Mark = Unset | Set(at: nat)

  function FlatCall(c: Call): seq<Event> {
    match c
    case Data(k, s) => Bytes(k, s)
    case Told(w) => [Notify(w)]
  }

  /** Callbacks byte by byte: how the data was cut into callbacks is forgotten. */
  function Flat(log: seq<Call>): seq<Event> {
    if log == [] then [] else Flat(log[..|log| - 1]) + FlatCall(log[|log| - 1])
  }

  lemma FlatMore(log: seq<Call>, c: Call)
    ensures Flat(log + [c]) == Flat(log) + FlatCall(c)
  {
    assert (log + [c])[..|log|] == log;
  }

  /** The text between a mark and position i. */
  function Marked(k: Kind, data: string, mark: Mark, i: nat): seq<Event> {
    if mark.Set? && mark.at <= i <= |data| then Bytes(k, data[mark.at..i]) else []
  }

  function Waiting(data: string, f: Mark, v: Mark, b: Mark, i: nat): seq<Event> {
    Marked(Field, data, f, i) + Marked(ValueText, data, v, i) + Marked(Body, data, b, i)
  }

  predicate Within(mark: Mark, i: nat) { mark.Set? ==> mark.at <= i }

  /** A mark is set exactly in the states that hold on to text; at most one is. */
  predicate MarksFit(s: State, f: Mark, v: Mark, b: Mark, i: nat) {
    && (f.Set? <==> s.HeaderField?) && (v.Set? <==> s.Value?)
    && (b.Set? ==> s.ChunkData? || s.ChunkDataAlmostDone? || s.BodyIdentity? || s.BodyIdentityEof?)
    && Within(f, i) && Within(v, i) && Within(b, i)
  }

  /** After i bytes of the buffer the parser is where the plain automaton is, and has told or still holds what that has told. */
  ghost predicate Here(m: Message, p: Parser, log: seq<Call>, data: string, i: nat, f: Mark, v: Mark, b: Mark, p0: Parser, told: seq<Event>) {
    && i <= |data| && p.error == Ok
    && Run(m, p0, data[..i]).0 == p
    && Flat(log) + Waiting(data, f, v, b, i) == told + Run(m, p0, data[..i]).1
    && MarksFit(p.state, f, v, b, i)
  }

  lemma Halves(data: string, i: nat)
    requires i <= |data|
    ensures data[..i] + data[i..] == data
  {
  }

  /** Once a byte has caused an error the whole buffer does. */
  lemma ErrorStays(m: Message, p0: Parser, data: string, i: nat, q: Parser)
    requires i < |data| && Run(m, p0, data[..i]).0.error == Ok && Feed(m, Run(m, p0, data[..i]).0, data[i]).0 == q && q.error != Ok
    ensures Run(m, p0, data).0 == q
  {
    hide Run, Feed;
    Onward(m, p0, data, i, Run(m, p0, data[..i]).0);
    RunJoined(m, p0, data[..i + 1], data[i + 1..]);
    Halves(data, i + 1);
    RunAfterError(m, q, data[i + 1..]);
  }

  // ---------- the byte under the cursor ----------

  /** The automaton's step from position i to i + 1. */
  lemma Onward(m: Message, p0: Parser, data: string, i: nat, p: Parser)
    requires i < |data| && Run(m, p0, data[..i]).0 == p
    ensures var (q, e) := Feed(m, p, data[i]);
            Run(m, p0, data[..i + 1]) == (q, Run(m, p0, data[..i]).1 + e)
  {
    RunLast(m, p0, data[..i], data[i]);
    assert data[..i] + [data[i]] == data[..i + 1];
  }

  /** The automaton's steps over a stretch. */
  lemma Over(m: Message, p0: Parser, data: string, i: nat, j: nat, p: Parser)
    requires i <= j <= |data| && Run(m, p0, data[..i]).0 == p
    ensures var (q, e) := Run(m, p, data[i..j]);
            Run(m, p0, data[..j]) == (q, Run(m, p0, data[..i]).1 + e)
  {
    RunJoined(m, p0, data[..i], data[i..j]);
    assert data[..i] + data[i..j] == data[..j];
  }

  lemma NothingWaits(data: string, i: nat)
    ensures Waiting(data, Unset, Unset, Unset, i) == []
  {
  }

  lemma FieldWaits(data: string, at: nat, i: nat)
    requires at <= i <= |data|
    ensures Waiting(data, Set(at), Unset, Unset, i) == Bytes(Field, data[at..i])
  {
  }

  lemma ValueWaits(data: string, at: nat, i: nat)
    requires at <= i <= |data|
    ensures Waiting(data, Unset, Set(at), Unset, i) == Bytes(ValueText, data[at..i])
  {
  }

  lemma BodyWaits(data: string, at: nat, i: nat)
    requires at <= i <= |data|
    ensures Waiting(data, Unset, Unset, Set(at), i) == Bytes(Body, data[at..i])
  {
  }

  lemma BytesGrow(k: Kind, data: string, at: nat, i: nat)
    requires at <= i < |data|
    ensures Bytes(k, data[at..i + 1]) == Bytes(k, data[at..i]) + [Byte(k, data[i])]
  {
  }

  lemma OneByte(k: Kind, data: string, i: nat)
    requires i < |data|
    ensures Bytes(k, data[i..i + 1]) == [Byte(k, data[i])]
  {
  }

  lemma Assoc(a: seq<Event>, b: seq<Event>, c: seq<Event>)
    ensures (a + b) + c == a + (b + c)
  {
  }

  // ---------- names and values byte by byte ----------

  /** A byte that goes on with a header name. */
  lemma NameByte(m: Message, p: Parser, ch: char)
    requires p.state == HeaderField && p.error == Ok && Token(ch) != '\0'
    ensures Feed(m, p, ch) == (NameNext(p, ch, Token(ch)).(nread := p.nread + 1), [Byte(Field, ch)])
    ensures NameNext(p, ch, Token(ch)).error == Ok && NameNext(p, ch, Token(ch)).state == HeaderField && NameNext(p, ch, Token(ch)).nread == p.nread
    ensures p.matching == General ==> NameNext(p, ch, Token(ch)) == p
  {
    hide Token, Word, LineTurn, ChunkTurn, EndTurn, ValueFirst, ValueNext;
  }

  lemma NameEnd(m: Message, p: Parser, ch: char)
    requires p.state == HeaderField && p.error == Ok && Token(ch) == '\0'
    ensures Feed(m, p, ch) == (if ch == ':' then p.(nread := p.nread + 1, state := ValueDiscardWs)
                               else p.(nread := p.nread + 1, error := HeaderToken), [])
  {
    hide Token, LineTurn, ChunkTurn, EndTurn, ValueFirst, ValueNext, NameNext;
  }

  /** A byte that goes on with a header value. */
  lemma ValueByte(m: Message, p: Parser, ch: char)
    requires p.state == Value && p.error == Ok && ch != CR && ch != LF
    ensures Feed(m, p, ch) == if !IsHeaderChar(ch) then (p.(nread := p.nread + 1, error := HeaderToken), [])
                              else (ValueNext(p, ch).(nread := p.nread + 1), [Byte(ValueText, ch)])
    ensures ValueNext(p, ch).state == Value && ValueNext(p, ch).nread == p.nread
    ensures p.matching == General ==> ValueNext(p, ch) == p
  {
    hide IsHeaderChar, LineTurn, ChunkTurn, EndTurn, ValueFirst, NameNext, ValueNext;
    ValueNextNread(p, ch, p.nread + 1);
    GeneralStays(p, ch);
  }

  lemma GeneralStays(p: Parser, ch: char)
    ensures p.matching == General ==> ValueNext(p, ch) == p
  {
  }

  lemma ValueEnd(m: Message, p: Parser)
    requires p.state == Value && p.error == Ok
    ensures Feed(m, p, CR) == (p.(nread := p.nread + 1, state := HeaderAlmostDone), [])
    ensures Feed(m, p, LF) == (p.(nread := p.nread + 1, state := ValueLws), [])
  {
    hide IsHeaderChar, ChunkTurn, EndTurn, ValueFirst, ValueNext, NameNext;
    var q := p.(nread := p.nread + 1, state := HeaderAlmostDone);
    assert Visits(m, q, LF) == (q.(state := ValueLws), []);
    NoEvents([]);
  }

  // ---------- the parser ----------

  class HttpParser {
    const message: Message
    var p: Parser
    var log: seq<Call>

    constructor (m: Message)
      ensures message == m && Beginning(p) && log == []
    {
      message := m;
      p := Parser(HeaderFieldStart, General, 0, Flags(false, false, false, false, false, false, false, false), false, NO_LENGTH, 0, Ok);
      log := [];
    }

    /** CALLBACK_NOTIFY */
    method Tell(w: Notice)
      modifies `log
      ensures log == old(log) + [Told(w)] && Flat(log) == Flat(old(log)) + [Notify(w)]
    {
      FlatMore(log, Told(w));
      log := log + [Told(w)];
    }

    /** CALLBACK_DATA: the text from the mark up to position `to`, if the mark is set. */
    method Flush(k: Kind, data: string, mark: Mark, to: nat)
      requires mark.Set? ==> mark.at <= to <= |data|
      modifies `log
      ensures Flat(log) == Flat(old(log)) + Marked(k, data, mark, to)
    {
      if mark.Set? {
        FlatMore(log, Data(k, data[mark.at..to]));
        log := log + [Data(k, data[mark.at..to])];
      }
    }

    /** The fast loop over the rest of a name nobody is interested in: its bytes change nothing. */
    method SkipName(data: string, at: nat, f: Mark, ghost base: nat, ghost p0: Parser, ghost told: seq<Event>) returns (k: nat)
      requires at < |data| && Token(data[at]) != '\0' && InName(message, p, log, data, at, f, base, p0, told) && p.matching == General
      ensures at < k <= |data| && InName(message, p, log, data, k, f, base, p0, told)
    {
      hide InName, Token;
      k := at;
      NameStep(message, p, log, data, k, f, base, p0, told);
      while k + 1 < |data| && Token(data[k + 1]) != '\0'
        invariant at <= k < |data| && InName(message, p, log, data, k + 1, f, base, p0, told)
      {
        k := k + 1;
        NameStep(message, p, log, data, k, f, base, p0, told);
      }
      k := k + 1;
    }

    /** The inner loop over a header name; start is a byte of it. Returns the position of the last byte looked at. */
    method NameRun(data: string, start: nat, f: Mark, ghost p0: Parser, ghost told: seq<Event>) returns (k: nat, f': Mark)
      requires start < |data| && InName(message, p, log, data, start, f, start, p0, told)
      modifies this
      ensures start <= k < |data|
      ensures p.error == Ok ==> Here(message, p, log, data, k + 1, f', Unset, Unset, p0, told)
      ensures p.error != Ok ==> Run(message, p0, data).0.error == p.error
    {
      hide Here, InName, NameNext, Token;
      k := start;
      while k < |data| && Token(data[k]) != '\0'
        invariant start <= k <= |data| && InName(message, p, log, data, k, f, start, p0, told)
        decreases |data| - k
      {
        if p.matching == General {
          k := SkipName(data, k, f, start, p0, told);
        } else {
          NameStep(message, p, log, data, k, f, start, p0, told);
          p := NameNext(p, data[k], Token(data[k]));
          k := k + 1;
        }
      }
      k, f' := NameStop(data, start, k, f, p0, told);
    }

    /** After the loop: the buffer or the name has ended. */
    method NameStop(data: string, start: nat, at: nat, f: Mark, ghost p0: Parser, ghost told: seq<Event>) returns (k: nat, f': Mark)
      requires start <= at && start < |data| && InName(message, p, log, data, at, f, start, p0, told)
      requires at < |data| ==> Token(data[at]) == '\0'
      modifies this
      ensures start <= k < |data|
      ensures p.error == Ok ==> Here(message, p, log, data, k + 1, f', Unset, Unset, p0, told)
      ensures p.error != Ok ==> Run(message, p0, data).0.error == p.error
    {
      hide Run, Feed, Token;
      k, f' := at, f;
      ghost var q := p.(nread := p.nread - 1 + (k - start));
      if k == |data| {
        k := k - 1;
        p := p.(nread := p.nread + (k - start));
        return;
      }
      p := p.(nread := p.nread + (k - start));
      NameEnd(message, q, data[k]);
      Onward(message, p0, data, k, q);
      if data[k] == ':' {
        p := p.(state := ValueDiscardWs);
        FieldWaits(data, f.at, k);
        NothingWaits(data, k + 1);
        Flush(Field, data, f, k);
        f' := Unset;
        NoEvents(Run(message, p0, data[..k]).1);
        NoEvents(Flat(log));
      } else {
        p := p.(error := HeaderToken);
        ErrorStays(message, p0, data, k, p);
      }
    }

    /** The fast loop over an uninteresting value; false if it meets a byte that must not be there. */
    method SkipValue(data: string, at: nat, v: Mark, ghost base: nat, ghost p0: Parser, ghost told: seq<Event>) returns (k: nat, ok: bool)
      requires at < |data| && InValue(message, p, log, data, at, v, base, p0, told) && p.matching == General
      requires Plain(data[at])
      ensures at < k <= |data| && InValue(message, p, log, data, k, v, base, p0, told)
      ensures !ok ==> k < |data| && data[k] != CR && data[k] != LF && !IsHeaderChar(data[k])
    {
      hide InValue, IsHeaderChar;
      ok, k := true, at;
      while k < |data| && data[k] != CR && data[k] != LF
        invariant at <= k <= |data| && InValue(message, p, log, data, k, v, base, p0, told)
        invariant k == at ==> Plain(data[k])
      {
        if !IsHeaderChar(data[k]) {
          return k, false;
        }
        ValueStep(message, p, log, data, k, v, base, p0, told);
        k := k + 1;
      }
    }

    /** The inner loop over a header value. */
    method ValueRun(data: string, start: nat, v: Mark, ghost p0: Parser, ghost told: seq<Event>) returns (k: nat, v': Mark, again: bool)
      requires start < |data| && InValue(message, p, log, data, start, v, start, p0, told)
      modifies this
      ensures start <= k < |data|
      ensures p.error == Ok && !again ==> Here(message, p, log, data, k + 1, Unset, v', Unset, p0, told)
      ensures p.error == Ok && again ==>
                p.state == HeaderAlmostDone && v' == Unset && Revisit(message, p, log, data, k, Unset, Unset, Unset, p0, told)
      ensures p.error != Ok ==> Run(message, p0, data).0.error == p.error
    {
      hide Here, Revisit, InValue, ValueNext, IsHeaderChar;
      k := start;
      while k < |data| && data[k] != CR && data[k] != LF
        invariant start <= k <= |data| && InValue(message, p, log, data, k, v, start, p0, told)
        decreases |data| - k
      {
        var ok := IsHeaderChar(data[k]);
        if ok {
          if p.matching == General {
            k, ok := SkipValue(data, k, v, start, p0, told);
          } else {
            ValueStep(message, p, log, data, k, v, start, p0, told);
            p := ValueNext(p, data[k]);
            if p.error != Ok {
              return k, v, false;
            }
            k := k + 1;
          }
        }
        if !ok {
          BadValueByte(message, p, log, data, k, v, start, p0, told);
          p := p.(error := HeaderToken);
          return k, v, false;
        }
      }
      k, v', again := ValueStop(data, start, k, v, p0, told);
    }

    method ValueStop(data: string, start: nat, at: nat, v: Mark, ghost p0: Parser, ghost told: seq<Event>) returns (k: nat, v': Mark, again: bool)
      requires start <= at && start < |data| && InValue(message, p, log, data, at, v, start, p0, told)
      requires at < |data| ==> data[at] == CR || data[at] == LF
      modifies this
      ensures start <= k < |data| && p.error == Ok
      ensures !again ==> Here(message, p, log, data, k + 1, Unset, v', Unset, p0, told)
      ensures again ==> p.state == HeaderAlmostDone && v' == Unset && Revisit(message, p, log, data, k, Unset, Unset, Unset, p0, told)
    {
      hide Run, Feed, Visits;
      k, v', again := at, v, false;
      ghost var q := p.(nread := p.nread - 1 + (k - start));
      if k == |data| {
        k := k - 1;
        p := p.(nread := p.nread + (k - start));
        return;
      }
      p := p.(state := HeaderAlmostDone, nread := p.nread + (k - start));
      ValueEnd(message, q);
      LineFeedVisit(message, p);
      Onward(message, p0, data, k, q);
      ValueWaits(data, v.at, k);
      NothingWaits(data, k + 1);
      NothingWaits(data, k);
      Flush(ValueText, data, v, k);
      v' := Unset;
      NoEvents(Run(message, p0, data[..k]).1);
      NoEvents(Flat(log));
      again := data[k] == LF;
    }

    /** The ends of header lines, and what stands between messages. No mark is set on entry. */
    method LineSwitch(data: string, i: nat) returns (again: bool, f: Mark)
      requires i < |data| && p.error == Ok && LineState(p.state)
      modifies this
      ensures Visited(old(p), LineTurn(old(p), data[i]), p, old(log), log, data, i, again, Unset, Unset, Unset, f, Unset, Unset)
    {
      hide Token, NameStart, Noted, Flat, Bytes;
      var ch := data[i];
      again, f := false, Unset;
      NothingWaits(data, i);
      NothingWaits(data, i + 1);
      NoEvents(Flat(log));
      match p.state
      case HeaderFieldStart =>
        if ch == CR {
          p := p.(state := HeadersAlmostDone);
        } else if ch == LF {
          p := p.(state := HeadersAlmostDone);
          again := true;
        } else if Token(ch) == '\0' {
          p := p.(error := HeaderToken);
        } else {
          f := Set(i);
          p := p.(index := 0, state := HeaderField, matching := NameStart(Token(ch)));
          FieldWaits(data, i, i + 1);
          OneByte(Field, data, i);
        }
      case HeaderAlmostDone =>
        if ch != LF {
          p := p.(error := LfExpected);
        } else {
          p := p.(state := ValueLws);
        }
      case ValueLws =>
        if ch == ' ' || ch == '\t' {
          if p.matching == ContentLengthNum {
            p := p.(matching := ContentLengthWs);
          }
          p := p.(state := ValueStart);
        } else {
          p := Noted(p, true).(state := HeaderFieldStart);
        }
        again := true;
      case ValueDiscardWsAlmostDone =>
        if ch != LF {
          p := p.(error := Strict);
        } else {
          p := p.(state := ValueDiscardLws);
        }
      case ValueDiscardLws =>
        if ch == ' ' || ch == '\t' {
          p := p.(state := ValueDiscardWs);
        } else if p.matching == ContentLength {
          p := p.(error := InvalidLength);
        } else {
          // the value is empty
          p := Noted(p, true).(state := HeaderFieldStart);
          FlatMore(log, Data(ValueText, ""));
          EmptyData(ValueText);
          log := log + [Data(ValueText, "")];
          again := true;
        }
      case StartLine =>
        if ch != CR && ch != LF {
          p := p.(error := NotCovered);
        }
      case Dead =>
        if ch != CR && ch != LF {
          p := p.(error := ClosedConnection);
        }
    }

    /** Blanks before a header value, and its first byte. */
    method TextSwitch(data: string, i: nat) returns (v: Mark)
      requires i < |data| && p.error == Ok && (p.state.ValueDiscardWs? || p.state.ValueStart?)
      modifies this
      ensures Visited(old(p), TextTurn(old(p), data[i]), p, old(log), log, data, i, false, Unset, Unset, Unset, Unset, v, Unset)
    {
      hide ValueFirst, Flat, Bytes, NameNext, ValueNext, Token, IsHeaderChar;
      var ch := data[i];
      v := Unset;
      NothingWaits(data, i);
      NothingWaits(data, i + 1);
      NoEvents(Flat(log));
      if p.state.ValueDiscardWs? && (ch == ' ' || ch == '\t') {
      } else if p.state.ValueDiscardWs? && ch == CR {
        p := p.(state := ValueDiscardWsAlmostDone);
      } else if p.state.ValueDiscardWs? && ch == LF {
        p := p.(state := ValueDiscardLws);
      } else {
        v := Set(i);
        ValueFirstState(p, ch);
        p := ValueFirst(p, ch);
        ValueWaits(data, i, i + 1);
        OneByte(ValueText, data, i);
      }
    }

    /** The chunked coding, its data apart. */
    method ChunkSwitch(data: string, i: nat, b: Mark) returns (b': Mark)
      requires i < |data| && p.error == Ok && ChunkState(p.state) && !p.state.ChunkData?
      requires Within(b, i) && (b.Set? ==> p.state.ChunkDataAlmostDone?)
      requires Asserted(p)
      modifies this
      ensures Visited(old(p), ChunkTurn(old(p), data[i]), p, old(log), log, data, i, false, Unset, Unset, b, Unset, Unset, b')
    {
      hide Flat, Bytes, Unhex;
      var ch := data[i];
      b' := b;
      NothingWaits(data, i);
      NothingWaits(data, i + 1);
      NoEvents(Flat(log));
      match p.state
      case ChunkSizeStart =>
        assert p.nread == 1 && p.flags.chunked;
        if Unhex(ch) == -1 {
          p := p.(error := ChunkSizeInvalid);
        } else {
          UnhexRange(ch);
          p := p.(length := Unhex(ch), state := ChunkSize);
        }
      case ChunkSize =>
        assert p.flags.chunked;
        if ch == CR {
          p := p.(state := ChunkSizeAlmostDone);
        } else if Unhex(ch) == -1 {
          if ch == ';' || ch == ' ' {
            p := p.(state := ChunkParameters);
          } else {
            p := p.(error := ChunkSizeInvalid);
          }
        } else {
          UnhexRange(ch);
          var t := Wrap64(Wrap64(p.length * 16) + Unhex(ch));
          if (NO_LENGTH - 16) / 16 < p.length {
            p := p.(error := InvalidLength);
          } else {
            p := p.(length := t);
          }
        }
      case ChunkParameters =>
        assert p.flags.chunked;
        if ch == CR {
          p := p.(state := ChunkSizeAlmostDone);
        }
      case ChunkSizeAlmostDone =>
        assert p.flags.chunked;
        if ch != LF {
          p := p.(error := Strict);
        } else {
          p := p.(nread := 0);
          if p.length == 0 {
            p := p.(flags := p.flags.(trailing := true), state := HeaderFieldStart);
          } else {
            p := p.(state := ChunkData);
          }
          Tell(ChunkHeader);
        }
      case ChunkDataAlmostDone =>
        assert p.flags.chunked && p.length == 0;
        if ch != CR {
          p := p.(error := Strict);
        } else {
          p := p.(state := ChunkDataDone);
          Flush(Body, data, b, i);
          b' := Unset;
          if b.Set? { BodyWaits(data, b.at, i); }
          NoEvents(Flat(log));
        }
      case ChunkDataDone =>
        assert p.flags.chunked;
        if ch != LF {
          p := p.(error := Strict);
        } else {
          p := p.(nread := 0, state := ChunkSizeStart);
          Tell(ChunkComplete);
        }
    }

    /** The end of the header block and of the message. */
    method EndSwitch(data: string, i: nat) returns (again: bool)
      requires i < |data| && p.error == Ok && (p.state.HeadersAlmostDone? || p.state.HeadersDone? || p.state.MessageDone?)
      modifies this
      ensures Visited(old(p), EndTurn(message, old(p), data[i]), p, old(log), log, data, i, again, Unset, Unset, Unset, Unset, Unset, Unset)
    {
      hide Flat, Bytes, KeepAlive, NeedsEof;
      var ch := data[i];
      again := false;
      NothingWaits(data, i);
      NothingWaits(data, i + 1);
      NoEvents(Flat(log));
      match p.state
      case HeadersAlmostDone =>
        if ch != LF {
          p := p.(error := Strict);
        } else if p.flags.trailing {
          p := p.(state := MessageDone);
          Tell(ChunkComplete);
          again := true;
        } else {
          p := HeadersEnd(message, p);
          if p.error == Ok {
            Tell(HeadersComplete);
            again := true;
          }
        }
      case HeadersDone =>
        if ch != LF {
          p := p.(error := Strict);
        } else {
          p := p.(nread := 0);
          if p.flags.skipBody {
            p := NewMessage(message, p);
            Tell(MessageComplete);
          } else if p.flags.chunked {
            p := p.(state := ChunkSizeStart);
          } else if p.encoded {
            p := if message.request then p.(error := InvalidEncoding) else p.(state := BodyIdentityEof);
          } else if p.length == 0 {
            p := NewMessage(message, p);
            Tell(MessageComplete);
          } else if p.length != NO_LENGTH {
            p := p.(state := BodyIdentity);
          } else if !NeedsEof(message, p) {
            p := NewMessage(message, p);
            Tell(MessageComplete);
          } else {
            p := p.(state := BodyIdentityEof);
          }
        }
      case MessageDone =>
        p := NewMessage(message, p);
        Tell(MessageComplete);
    }

    /** One visit of the switch in a state that looks at a single byte. */
    method Switch(data: string, i: nat, b: Mark) returns (again: bool, f: Mark, v: Mark, b': Mark)
      requires i < |data| && p.error == Ok && Single(p.state) && Asserted(p)
      requires MarksFit(p.state, Unset, Unset, b, i)
      modifies this
      ensures Visited(old(p), Turn(message, old(p), data[i]), p, old(log), log, data, i, again, Unset, Unset, b, f, v, b')
    {
      hide LineTurn, TextTurn, ChunkTurn, EndTurn, Waiting, Flat;
      again, f, v, b' := false, Unset, Unset, b;
      if LineState(p.state) {
        again, f := LineSwitch(data, i);
      } else if TextState(p.state) {
        v := TextSwitch(data, i);
      } else if ChunkState(p.state) {
        b' := ChunkSwitch(data, i, b);
      } else {
        again := EndSwitch(data, i);
      }
    }

    /** The `reexecute` label: the same byte until a visit consumes it. */
    method Reexecute(data: string, i: nat, b: Mark, ghost p0: Parser, ghost told: seq<Event>) returns (f: Mark, v: Mark, b': Mark)
      requires Revisit(message, p, log, data, i, Unset, Unset, b, p0, told) && Single(p.state) && Asserted(p)
      modifies this
      ensures p.error == Ok ==> Here(message, p, log, data, i + 1, f, v, b', p0, told)
      ensures p.error != Ok ==> Run(message, p0, data).0.error == p.error
    {
      hide Revisit, Here, Visited, Turn, Asserted, Rank;
      var again := true;
      f, v, b' := Unset, Unset, b;
      while again
        invariant again ==> Revisit(message, p, log, data, i, f, v, b', p0, told) && f == v == Unset && Single(p.state) && Asserted(p)
        invariant !again && p.error == Ok ==> Here(message, p, log, data, i + 1, f, v, b', p0, told)
        invariant !again && p.error != Ok ==> Run(message, p0, data).0.error == p.error
        decreases again, Rank(p.state)
      {
        ghost var was, before, b0 := p, log, b';
        RevisitFits(message, p, log, data, i, f, v, b', p0, told);
        again, f, v, b' := Switch(data, i, b');
        AfterVisit(message, was, before, p, log, data, i, again, b0, f, v, b', p0, told);
      }
    }

    /** A body of declared length: as much of it as the buffer holds, at one stroke. */
    method IdentityJump(data: string, start: nat, b: Mark, ghost p0: Parser, ghost told: seq<Event>) returns (k: nat, b': Mark, again: bool)
      requires start < |data| && p.state.BodyIdentity? && Asserted(p) && Here(message, p, log, data, start, Unset, Unset, b, p0, told)
      modifies this
      ensures start <= k < |data| && p.error == Ok
      ensures !again ==> Here(message, p, log, data, k + 1, Unset, Unset, b', p0, told)
      ensures again ==> p.state.MessageDone? && b' == Unset && Revisit(message, p, log, data, k, Unset, Unset, b', p0, told)
    {
      hide Here, Revisit, Marked;
      HereBody(message, p, log, data, start, b, p0, told);
      var n := if p.length < |data| - start then p.length else |data| - start;
      assert p.length != 0 && p.length != NO_LENGTH;
      b' := if b == Unset then Set(start) else b;
      ghost var was, before := p, log;
      p := p.(length := p.length - n);
      k := start + n - 1;
      again := p.length == 0;
      if again {
        p := p.(state := MessageDone);
        Flush(Body, data, b', k + 1);
        IdentityWhole(message, was, before, log, data, start, n, b, p0, told);
        b' := Unset;
      } else {
        IdentityPart(message, was, before, data, start, n, b, p0, told);
      }
    }

    /** A body that ends with the connection: the rest of the buffer. */
    method EofJump(data: string, start: nat, b: Mark, ghost p0: Parser, ghost told: seq<Event>) returns (k: nat, b': Mark)
      requires start < |data| && p.state.BodyIdentityEof? && Here(message, p, log, data, start, Unset, Unset, b, p0, told)
      ensures start <= k < |data| && p.error == Ok && Here(message, p, log, data, k + 1, Unset, Unset, b', p0, told)
    {
      hide Run, Feed, Flat, Bytes;
      b' := if b == Unset then Set(start) else b;
      EofBody(message, p, data[start..]);
      assert data[start..] == data[start..|data|];
      Over(message, p0, data, start, |data|, p);
      Holding(data, b, start, |data|);
      Told3(told, Run(message, p0, data[..start]).1, Bytes(Body, data[start..|data|]), []);
      k := |data| - 1;
    }

    /** Chunk data: as much of it as the buffer holds. */
    method ChunkJump(data: string, start: nat, b: Mark, ghost p0: Parser, ghost told: seq<Event>) returns (k: nat, b': Mark)
      requires start < |data| && p.state.ChunkData? && Asserted(p) && Here(message, p, log, data, start, Unset, Unset, b, p0, told)
      modifies this
      ensures start <= k < |data| && p.error == Ok && Here(message, p, log, data, k + 1, Unset, Unset, b', p0, told)
    {
      hide Here;
      HereBody(message, p, log, data, start, b, p0, told);
      var n := if p.length < |data| - start then p.length else |data| - start;
      assert p.flags.chunked && p.length != 0 && p.length != NO_LENGTH;
      b' := if b == Unset then Set(start) else b;
      ChunkPart(message, p, log, data, start, n, b, p0, told);
      p := p.(length := p.length - n);
      k := start + n - 1;
      if p.length == 0 {
        p := p.(state := ChunkDataAlmostDone);
      }
    }

    /** One turn of the main loop. Returns the position of the last byte it has consumed. */
    method Iterate(data: string, i: nat, f: Mark, v: Mark, b: Mark, ghost p0: Parser, ghost told: seq<Event>)
      returns (k: nat, f': Mark, v': Mark, b': Mark)
      requires i < |data| && Here(message, p, log, data, i, f, v, b, p0, told) && Sound(p0)
      modifies this
      ensures i <= k < |data|
      ensures p.error == Ok ==> Here(message, p, log, data, k + 1, f', v', b', p0, told)
      ensures p.error != Ok ==> Run(message, p0, data).0.error == p.error
    {
      hide Run, Here, InName, InValue, Revisit, Sound, Asserted, MarksFit;
      Position(message, p, log, data, i, f, v, b, p0, told);
      ghost var was := p;
      if HeaderState(p.state) {
        p := p.(nread := p.nread + 1);
      }
      var again := true;
      k, f', v', b' := i, f, v, b;
      if p.state == HeaderField {
        EnterName(message, was, log, data, i, f, p0, told);
        k, f' := NameRun(data, i, f, p0, told);
        again := false;
      } else if p.state == Value {
        EnterValue(message, was, log, data, i, v, p0, told);
        k, v', again := ValueRun(data, i, v, p0, told);
      } else if p.state == BodyIdentity {
        k, b', again := IdentityJump(data, i, b, p0, told);
      } else if p.state == BodyIdentityEof {
        k, b' := EofJump(data, i, b, p0, told);
        again := false;
      } else if p.state == ChunkData {
        k, b' := ChunkJump(data, i, b, p0, told);
        again := false;
      } else {
        EnterSwitch(message, was, log, data, i, b, p0, told);
      }
      if again && p.error == Ok {
        if !ChunkState(p.state) { LateAsserts(p); }
        f', v', b' := Reexecute(data, k, b', p0, told);
      }
    }

    /**
     `http_parser_execute` on a non-empty buffer: unless there is an error, the
     parser ends where the plain automaton ends, and the callbacks tell, byte for
     byte and in order, what the automaton tells.
     */
    method Execute(data: string) returns (n: nat)
      requires data != "" && p.error == Ok && Sound(p)
      modifies this
      ensures var (q, e) := Run(message, old(p), data);
              && p.error == q.error
              && (q.error == Ok ==> p == q && n == |data| && Sound(p) && Flat(log) == Flat(old(log)) + e)
    {
      hide Run, Here, Sound, MarksFit, Flat, Marked;
      ghost var p0, told := p, Flat(log);
      var f, v, b := Unset, Unset, Unset;
      if p.state == HeaderField {
        f := Set(0);
      }
      if p.state == Value {
        v := Set(0);
      }
      Start(message, p, log, data, f, v);
      var i := 0;
      while i < |data|
        invariant i <= |data| && Here(message, p, log, data, i, f, v, b, p0, told)
      {
        i, f, v, b := Iterate(data, i, f, v, b, p0, told);
        if p.error != Ok {
          return i;
        }
        i := i + 1;
      }
      Finish(message, p, log, data, f, v, b, p0, told);
      assert !(f.Set? && v.Set?) && !(f.Set? && b.Set?) && !(v.Set? && b.Set?);
      Flush(Field, data, f, |data|);
      Flush(ValueText, data, v, |data|);
      Flush(Body, data, b, |data|);
      n := |data|;
    }

    /** The call with an empty buffer: the connection has ended. */
    method ExecuteEof() returns (n: nat)
      requires p.error == Ok
      modifies this
      ensures p == if old(p.state.BodyIdentityEof? || p.state.StartLine? || p.state.Dead?) then old(p) else old(p).(error := EofState)
      ensures log == old(log) + (if old(p.state.BodyIdentityEof?) then [Told(MessageComplete)] else [])
    {
      n := 0;
      if p.state.BodyIdentityEof? {
        Tell(MessageComplete);
      } else if !p.state.StartLine? && !p.state.Dead? {
        p := p.(error := EofState);
        n := 1;
      }
    }

    /**
     A stream in pieces, one call each: wherever it is cut, the parser ends in the
     same state, and the callbacks tell the same bytes and notifications in the
     same order, namely those of the whole stream.
     */
    method ExecutePieces(pieces: seq<string>)
      requires p.error == Ok && Sound(p) && forall i | 0 <= i < |pieces| :: pieces[i] != ""
      modifies this
      ensures var (q, e) := Run(message, old(p), Stream(pieces));
              && p.error == q.error
              && (q.error == Ok ==> p == q && Flat(log) == Flat(old(log)) + e)
    {
      hide Run, Sound, Flat;
      ghost var p0, told := p, Flat(log);
      RunNothing(message, p0);
      NoEvents(told);
      var k := 0;
      assert pieces[..0] == [];
      while k < |pieces|
        invariant 0 <= k <= |pieces| && p.error == Ok && Sound(p)
        invariant Run(message, p0, Stream(pieces[..k])).0 == p
        invariant Flat(log) == told + Run(message, p0, Stream(pieces[..k])).1
      {
        ghost var q, e := p, Run(message, p0, Stream(pieces[..k])).1;
        StreamMore(pieces, k);
        RunJoined(message, p0, Stream(pieces[..k]), pieces[k]);
        Assoc(told, e, Run(message, q, pieces[k]).1);
        var n := Execute(pieces[k]);
        if p.error != Ok {
          StreamSplit(pieces, k + 1);
          RunJoined(message, p0, Stream(pieces[..k + 1]), Stream(pieces[k + 1..]));
          RunAfterError(message, Run(message, p0, Stream(pieces[..k + 1])).0, Stream(pieces[k + 1..]));
          return;
        }
        k := k + 1;
      }
      assert pieces[..k] == pieces;
    }

    /**
     A message with a declared length, cut anywhere: its body is delivered byte for
     byte between the two notifications, whatever stood in the log before.
     */
    method ExecuteDeclared(pieces: seq<string>, ghost before: seq<M.FieldLine>, ghost name: string, ghost blanks: string,
                           ghost digits: string, ghost after: seq<M.FieldLine>, ghost body: string)
      requires Beginning(p) && !message.connect && !message.answerSkip && M.AllPlain(before) && M.AllPlain(after)
      requires M.NoSwitch(message, before, after)
      requires M.Spells(name, M.LENGTH_NAME) && M.Blanks(blanks) && digits != "" && Digits(digits)
      requires |body| == DecimalValue(digits) <= MAX_LENGTH
      requires forall i | 0 <= i < |pieces| :: pieces[i] != ""
      requires Stream(pieces) == M.Block(before, M.LengthBlock(name, blanks, digits), after) + body
      modifies this
      ensures M.Finished(p) && Flat(old(log)) <= Flat(log) && M.Tells(Flat(log)[|Flat(old(log))|..], body)
    {
      hide Run, Flat, Stream, M.AllPlain, M.Spells, M.Blanks, M.Block, M.LengthBlock, M.Tells, M.NoSwitch, Digits, DecimalValue;
      M.DeclaredBody(message, p, before, name, blanks, digits, after, body);
      ExecutePieces(pieces);
    }

    /**
     A message without a body, cut anywhere: the header texts, headers_complete and
     one message_complete; without a Connection line the version says what comes next.
     */
    method ExecutePlain(pieces: seq<string>, ghost lines: seq<M.FieldLine>)
      requires Beginning(p) && !message.connect && O.Unbodied(message) && M.AllPlain(lines) && M.NoSwitch(message, lines, [])
      requires forall i | 0 <= i < |pieces| :: pieces[i] != ""
      requires Stream(pieces) == M.Lines(lines) + [CR, LF]
      modifies this
      ensures M.Finished(p) && Flat(old(log)) <= Flat(log) && M.Tells(Flat(log)[|Flat(old(log))|..], "")
      ensures !M.AnyConnection(lines) ==> p.state == if message.major > 0 && message.minor > 0 then StartLine else Dead
    {
      hide Run, Flat, Stream, O.Unbodied, M.AllPlain, M.AnyConnection, M.Lines, M.Tells, M.NoSwitch;
      O.PlainMessage(message, p, lines);
      ExecutePieces(pieces);
    }

    /** A chunked message, cut anywhere: the chunks' data, joined, and one message_complete at the end. */
    method ExecuteChunked(pieces: seq<string>, ghost before: seq<M.FieldLine>, ghost name: string, ghost blanks: string,
                          ghost coding: string, ghost after: seq<M.FieldLine>,
                          ghost chunks: seq<Chunk>, ghost last: Chunk, ghost trailer: seq<M.FieldLine>)
      requires Beginning(p) && !message.connect && !message.answerSkip
      requires M.AllPlain(before) && M.AllPlain(after) && M.AllProper(trailer) && M.NoSwitch(message, before, after)
      requires M.Spells(name, M.CODING_NAME) && M.Blanks(blanks) && M.Spells(coding, M.CHUNKED)
      requires ProperLast(last) && forall i | 0 <= i < |chunks| :: Proper(chunks[i])
      requires forall i | 0 <= i < |pieces| :: pieces[i] != ""
      requires Stream(pieces) == M.Block(before, M.CodingLine(name, blanks, coding), after) + M.ChunkedText(chunks, last, trailer)
      modifies this
      ensures M.Finished(p) && Flat(old(log)) <= Flat(log) && M.Delivers(Flat(log)[|Flat(old(log))|..], Joined(chunks))
    {
      hide Run, Flat, Stream, Joined, M.AllPlain, M.AllProper, M.Spells, M.Blanks, M.Block, M.CodingLine, M.ChunkedText, M.Delivers, M.NoSwitch;
      hide Proper, ProperLast;
      M.ChunkedMessage(message, p, before, name, blanks, coding, after, chunks, last, trailer);
      ExecutePieces(pieces);
    }
  }

  /** Inside the loop over a name that began at position `start` of the buffer: the byte count lags behind. */
  ghost predicate InName(m: Message, p: Parser, log: seq<Call>, data: string, k: nat, f: Mark, start: nat, p0: Parser, told: seq<Event>) {
    && start <= k <= |data| && p.error == Ok && p.state == HeaderField && p.nread > 0 && f.Set? && f.at <= start
    && Run(m, p0, data[..k]).0 == p.(nread := p.nread - 1 + (k - start))
    && Flat(log) + Waiting(data, f, Unset, Unset, k) == told + Run(m, p0, data[..k]).1
  }

  lemma EnterName(m: Message, p: Parser, log: seq<Call>, data: string, k: nat, f: Mark, p0: Parser, told: seq<Event>)
    requires p.state == HeaderField && Here(m, p, log, data, k, f, Unset, Unset, p0, told)
    ensures InName(m, p.(nread := p.nread + 1), log, data, k, f, k, p0, told)
  {
    hide Run, Waiting;
  }

  lemma NameNextNread(p: Parser, ch: char, c: char, n: nat)
    requires p.state == HeaderField
    ensures NameNext(p.(nread := n), ch, c) == NameNext(p, ch, c).(nread := n)
    ensures NameNext(p, ch, c).nread == p.nread
  {
    hide Word;
  }

  /** One more byte of a name, held behind the mark. */
  lemma NameStep(m: Message, p: Parser, log: seq<Call>, data: string, k: nat, f: Mark, start: nat, p0: Parser, told: seq<Event>)
    requires k < |data| && Token(data[k]) != '\0' && InName(m, p, log, data, k, f, start, p0, told)
    ensures InName(m, NameNext(p, data[k], Token(data[k])), log, data, k + 1, f, start, p0, told)
    ensures p.matching == General ==> NameNext(p, data[k], Token(data[k])) == p
  {
    hide Run, Feed, Token, NameNext, Waiting, Flat;
    var n := p.nread - 1 + (k - start);
    var q := p.(nread := n);
    NameByte(m, q, data[k]);
    NameNextNread(p, data[k], Token(data[k]), n);
    NameByte(m, p, data[k]);
    Onward(m, p0, data, k, q);
    FieldWaits(data, f.at, k);
    FieldWaits(data, f.at, k + 1);
    BytesGrow(Field, data, f.at, k);
    Assoc(Flat(log), Bytes(Field, data[f.at..k]), [Byte(Field, data[k])]);
    Assoc(told, Run(m, p0, data[..k]).1, [Byte(Field, data[k])]);
  }

  predicate Plain(c: char) { c != CR && c != LF && IsHeaderChar(c) }

  /** Inside the loop over a value that began at position `start` of the buffer. */
  ghost predicate InValue(m: Message, p: Parser, log: seq<Call>, data: string, k: nat, v: Mark, start: nat, p0: Parser, told: seq<Event>) {
    && start <= k <= |data| && p.error == Ok && p.state == Value && p.nread > 0 && v.Set? && v.at <= start
    && Run(m, p0, data[..k]).0 == p.(nread := p.nread - 1 + (k - start))
    && Flat(log) + Waiting(data, Unset, v, Unset, k) == told + Run(m, p0, data[..k]).1
  }

  lemma EnterValue(m: Message, p: Parser, log: seq<Call>, data: string, k: nat, v: Mark, p0: Parser, told: seq<Event>)
    requires p.state == Value && Here(m, p, log, data, k, Unset, v, Unset, p0, told)
    ensures InValue(m, p.(nread := p.nread + 1), log, data, k, v, k, p0, told)
  {
    hide Run, Waiting;
  }

  /** The switch is about to look at byte i (again): what is left of the automaton's step from here completes it. */
  ghost predicate Revisit(m: Message, p: Parser, log: seq<Call>, data: string, i: nat, f: Mark, v: Mark, b: Mark, p0: Parser, told: seq<Event>) {
    && i < |data| && p.error == Ok && MarksFit(p.state, f, v, b, i)
    && Run(m, p0, data[..i + 1]).0 == Visits(m, p, data[i]).0
    && Flat(log) + Waiting(data, f, v, b, i) + Visits(m, p, data[i]).1 == told + Run(m, p0, data[..i + 1]).1
  }

  lemma LengthDigitNread(p: Parser, ch: char, n: nat)
    ensures LengthDigit(p.(nread := n), ch) == LengthDigit(p, ch).(nread := n)
    ensures LengthDigit(p, ch).nread == p.nread && LengthDigit(p, ch).state == p.state
  {
    hide Wrap64;
  }

  lemma CodingNread(p: Parser, ch: char, n: nat)
    ensures CodingNext(p.(nread := n), ch) == CodingNext(p, ch).(nread := n)
    ensures CodingNext(p, ch).nread == p.nread && CodingNext(p, ch).state == p.state
  {
    hide Word, Token, Lower;
  }

  lemma OptionNread(p: Parser, ch: char, n: nat)
    ensures OptionNext(p.(nread := n), ch) == OptionNext(p, ch).(nread := n)
    ensures OptionNext(p, ch).nread == p.nread && OptionNext(p, ch).state == p.state
  {
    hide Word, Token, Lower;
  }

  lemma ValueNextNread(p: Parser, ch: char, n: nat)
    requires p.state == Value
    ensures ValueNext(p.(nread := n), ch) == ValueNext(p, ch).(nread := n)
    ensures ValueNext(p, ch).nread == p.nread && ValueNext(p, ch).state == Value
  {
    hide LengthDigit, CodingNext, OptionNext;
    LengthDigitNread(p, ch, n);
    CodingNread(p, ch, n);
    OptionNread(p, ch, n);
  }

  lemma LineFeedVisit(m: Message, p: Parser)
    requires p.state == HeaderAlmostDone
    ensures Visits(m, p, LF) == (p.(state := ValueLws), [])
  {
    hide TextTurn, ChunkTurn, EndTurn;
  }

  /** One more byte of a value, held behind the mark, or an error. */
  lemma ValueStep(m: Message, p: Parser, log: seq<Call>, data: string, k: nat, v: Mark, start: nat, p0: Parser, told: seq<Event>)
    requires k < |data| && Plain(data[k]) && InValue(m, p, log, data, k, v, start, p0, told)
    ensures var q := ValueNext(p, data[k]);
            if q.error == Ok then InValue(m, q, log, data, k + 1, v, start, p0, told)
            else Run(m, p0, data).0.error == q.error
    ensures p.matching == General ==> ValueNext(p, data[k]) == p && InValue(m, p, log, data, k + 1, v, start, p0, told)
  {
    hide Run, Feed, ValueNext, Waiting, Flat, IsHeaderChar;
    var n := p.nread - 1 + (k - start);
    var q := p.(nread := n);
    ValueByte(m, q, data[k]);
    ValueByte(m, p, data[k]);
    ValueNextNread(p, data[k], n);
    Onward(m, p0, data, k, q);
    if ValueNext(p, data[k]).error != Ok {
      ErrorStays(m, p0, data, k, Feed(m, q, data[k]).0);
    } else {
      ValueWaits(data, v.at, k);
      ValueWaits(data, v.at, k + 1);
      BytesGrow(ValueText, data, v.at, k);
      Assoc(Flat(log), Bytes(ValueText, data[v.at..k]), [Byte(ValueText, data[k])]);
      Assoc(told, Run(m, p0, data[..k]).1, [Byte(ValueText, data[k])]);
    }
  }

  lemma BadValueByte(m: Message, p: Parser, log: seq<Call>, data: string, k: nat, v: Mark, start: nat, p0: Parser, told: seq<Event>)
    requires k < |data| && data[k] != CR && data[k] != LF && !IsHeaderChar(data[k]) && InValue(m, p, log, data, k, v, start, p0, told)
    ensures Run(m, p0, data).0.error == HeaderToken
  {
    hide Run, Feed, ValueNext, Waiting, Flat, IsHeaderChar;
    var q := p.(nread := p.nread - 1 + (k - start));
    ValueByte(m, q, data[k]);
    ErrorStays(m, p0, data, k, Feed(m, q, data[k]).0);
  }

  /** One visit done in place: the parser and what it has told or holds are those of the turn t. */
  ghost predicate Visited(was: Parser, t: Turned, p: Parser, log: seq<Call>, log': seq<Call>, data: string, i: nat, again: bool,
                          f: Mark, v: Mark, b: Mark, f': Mark, v': Mark, b': Mark) {
    && i < |data| && p == t.p && again == t.again
    && (p.error == Ok ==>
          && MarksFit(p.state, f', v', b', if again then i else i + 1)
          && Flat(log') + Waiting(data, f', v', b', if again then i else i + 1) == Flat(log) + Waiting(data, f, v, b, i) + t.events)
  }

  lemma EmptyData(k: Kind)
    ensures FlatCall(Data(k, "")) == []
  {
  }

  lemma UnhexRange(c: char)
    ensures -1 <= Unhex(c) < 16
  {
  }

  lemma ValueFirstState(p: Parser, ch: char)
    ensures ValueFirst(p, ch).state == Value
  {
  }

  /** States that look at a single byte. */
  predicate Single(s: State) {
    !s.HeaderField? && !s.Value? && !s.ChunkData? && !s.BodyIdentity? && !s.BodyIdentityEof?
  }

  lemma RevisitFits(m: Message, p: Parser, log: seq<Call>, data: string, i: nat, f: Mark, v: Mark, b: Mark, p0: Parser, told: seq<Event>)
    requires Revisit(m, p, log, data, i, f, v, b, p0, told)
    ensures i < |data| && p.error == Ok && MarksFit(p.state, f, v, b, i)
  {
  }

  /** A repeated look is never at chunk data, a body, or inside a name or value. */
  lemma AgainTarget(m: Message, p: Parser, ch: char)
    requires Turn(m, p, ch).again && Single(p.state)
    ensures var s := Turn(m, p, ch).p.state; Single(s) && !ChunkState(s)
  {
    hide ValueFirst, NameStart, Token, NewMessage, NeedsEof, Unhex;
  }

  lemma LateAsserts(p: Parser)
    requires Single(p.state) && !ChunkState(p.state)
    ensures Asserted(p)
  {
  }

  /** What a visit leads to. */
  lemma AfterVisit(m: Message, was: Parser, log: seq<Call>, p: Parser, log': seq<Call>, data: string, i: nat, again: bool,
                   b: Mark, f': Mark, v': Mark, b': Mark, p0: Parser, told: seq<Event>)
    requires Revisit(m, was, log, data, i, Unset, Unset, b, p0, told) && Single(was.state)
    requires Visited(was, Turn(m, was, data[i]), p, log, log', data, i, again, Unset, Unset, b, f', v', b')
    ensures again ==> Revisit(m, p, log', data, i, f', v', b', p0, told) && f' == v' == Unset && Single(p.state) && Asserted(p)
                      && Rank(p.state) < Rank(was.state)
    ensures !again && p.error == Ok ==> Here(m, p, log', data, i + 1, f', v', b', p0, told)
    ensures !again && p.error != Ok ==> Run(m, p0, data).0.error == p.error
  {
    hide Turn, Run, Revisit, Visited, Here, Asserted, Rank;
    RevisitFits(m, was, log, data, i, Unset, Unset, b, p0, told);
    TurnOf(m, was, log, p, log', data, i, again, b, f', v', b');
    if again {
      AgainIsBounded(m, was, data[i]);
      AgainTarget(m, was, data[i]);
      LateAsserts(p);
      AfterAgain(m, was, log, p, log', data, i, b, f', v', b', p0, told);
    } else {
      AfterLast(m, was, log, p, log', data, i, b, f', v', b', p0, told);
    }
  }

  lemma TurnOf(m: Message, was: Parser, log: seq<Call>, p: Parser, log': seq<Call>, data: string, i: nat, again: bool,
               b: Mark, f': Mark, v': Mark, b': Mark)
    requires i < |data| && Visited(was, Turn(m, was, data[i]), p, log, log', data, i, again, Unset, Unset, b, f', v', b')
    ensures p == Turn(m, was, data[i]).p && again == Turn(m, was, data[i]).again
  {
  }

  lemma AfterAgain(m: Message, was: Parser, log: seq<Call>, p: Parser, log': seq<Call>, data: string, i: nat,
                   b: Mark, f': Mark, v': Mark, b': Mark, p0: Parser, told: seq<Event>)
    requires Revisit(m, was, log, data, i, Unset, Unset, b, p0, told)
    requires Visited(was, Turn(m, was, data[i]), p, log, log', data, i, true, Unset, Unset, b, f', v', b')
    requires p.error == Ok && Rank(p.state) < Rank(was.state) && Single(p.state)
    ensures Revisit(m, p, log', data, i, f', v', b', p0, told) && f' == v' == Unset
  {
    hide Turn, Run, Waiting, Flat, Rank;
    Assoc(Flat(log) + Waiting(data, Unset, Unset, b, i), Turn(m, was, data[i]).events, Visits(m, p, data[i]).1);
  }

  lemma AfterLast(m: Message, was: Parser, log: seq<Call>, p: Parser, log': seq<Call>, data: string, i: nat,
                  b: Mark, f': Mark, v': Mark, b': Mark, p0: Parser, told: seq<Event>)
    requires Revisit(m, was, log, data, i, Unset, Unset, b, p0, told)
    requires Visited(was, Turn(m, was, data[i]), p, log, log', data, i, false, Unset, Unset, b, f', v', b')
    ensures p.error == Ok ==> Here(m, p, log', data, i + 1, f', v', b', p0, told)
    ensures p.error != Ok ==> Run(m, p0, data).0.error == p.error
  {
    hide Turn, Run, Waiting, Flat, Rank;
    if p.error != Ok {
      RunJoined(m, p0, data[..i + 1], data[i + 1..]);
      Halves(data, i + 1);
      RunAfterError(m, p, data[i + 1..]);
    }
  }

  /** Text held since before, or from here on. */
  lemma Holding(data: string, b: Mark, i: nat, j: nat)
    requires i <= j <= |data| && Within(b, i)
    ensures var b' := if b == Unset then Set(i) else b;
            Waiting(data, Unset, Unset, b', j) == Waiting(data, Unset, Unset, b, i) + Bytes(Body, data[i..j])
            && Marked(Body, data, b', j) == Waiting(data, Unset, Unset, b', j)
  {
    if b.Set? {
      assert data[b.at..j] == data[b.at..i] + data[i..j];
      BytesJoined(Body, data[b.at..i], data[i..j]);
    } else {
      NothingWaits(data, i);
    }
  }

  lemma Told3(told: seq<Event>, e: seq<Event>, bytes: seq<Event>, rest: seq<Event>)
    ensures told + (e + (bytes + rest)) == ((told + e) + bytes) + rest
    ensures told + (e + bytes) == (told + e) + bytes
  {
  }

  lemma HereBody(m: Message, p: Parser, log: seq<Call>, data: string, i: nat, b: Mark, p0: Parser, told: seq<Event>)
    requires Here(m, p, log, data, i, Unset, Unset, b, p0, told)
    ensures i <= |data| && p.error == Ok && Within(b, i)
  {
  }

  lemma IdentityPart(m: Message, p: Parser, log: seq<Call>, data: string, start: nat, n: nat, b: Mark, p0: Parser, told: seq<Event>)
    requires p.state.BodyIdentity? && Here(m, p, log, data, start, Unset, Unset, b, p0, told)
    requires 0 < n < p.length && start + n <= |data|
    ensures Here(m, p.(length := p.length - n), log, data, start + n, Unset, Unset, if b == Unset then Set(start) else b, p0, told)
  {
    hide Run, Flat, Bytes, Waiting;
    IdentityBody(m, p, data[start..start + n]);
    Over(m, p0, data, start, start + n, p);
    Holding(data, b, start, start + n);
    Assoc(Flat(log), Waiting(data, Unset, Unset, b, start), Bytes(Body, data[start..start + n]));
    Told3(told, Run(m, p0, data[..start]).1, Bytes(Body, data[start..start + n]), []);
  }

  lemma IdentityWhole(m: Message, p: Parser, log: seq<Call>, log': seq<Call>, data: string, start: nat, n: nat, b: Mark, p0: Parser, told: seq<Event>)
    requires p.state.BodyIdentity? && Here(m, p, log, data, start, Unset, Unset, b, p0, told)
    requires 0 < n == p.length && start + n <= |data|
    requires Flat(log') == Flat(log) + Marked(Body, data, if b == Unset then Set(start) else b, start + n)
    ensures Revisit(m, p.(length := 0, state := MessageDone), log', data, start + n - 1, Unset, Unset, Unset, p0, told)
  {
    hide Run, Flat, Bytes, Waiting, Visits, KeepAlive, Marked;
    var q, w := p.(length := 0, state := MessageDone), Bytes(Body, data[start..start + n]);
    IdentityBody(m, p, data[start..start + n]);
    Over(m, p0, data, start, start + n, p);
    Holding(data, b, start, start + n);
    DoneVisit(m, q, data[start + n - 1]);
    KeepAliveIgnoresState(m, q, p.(length := 0));
    NothingWaits(data, start + n - 1);
    NoEvents(Flat(log'));
    Assoc(Flat(log), Waiting(data, Unset, Unset, b, start), w);
    Told3(told, Run(m, p0, data[..start]).1, w, [Notify(MessageComplete)]);
  }

  lemma ChunkPart(m: Message, p: Parser, log: seq<Call>, data: string, start: nat, n: nat, b: Mark, p0: Parser, told: seq<Event>)
    requires p.state.ChunkData? && Here(m, p, log, data, start, Unset, Unset, b, p0, told)
    requires 0 < n <= p.length && start + n <= |data|
    ensures Here(m, p.(length := p.length - n, state := if n == p.length then ChunkDataAlmostDone else ChunkData), log, data, start + n,
                 Unset, Unset, if b == Unset then Set(start) else b, p0, told)
  {
    hide Run, Flat, Bytes, Waiting;
    DataRun(m, p, data[start..start + n]);
    Over(m, p0, data, start, start + n, p);
    Holding(data, b, start, start + n);
    Assoc(Flat(log), Waiting(data, Unset, Unset, b, start), Bytes(Body, data[start..start + n]));
    Told3(told, Run(m, p0, data[..start]).1, Bytes(Body, data[start..start + n]), []);
  }

  lemma Start(m: Message, p: Parser, log: seq<Call>, data: string, f: Mark, v: Mark)
    requires p.error == Ok
    requires f == (if p.state == HeaderField then Set(0) else Unset) && v == (if p.state == Value then Set(0) else Unset)
    ensures Here(m, p, log, data, 0, f, v, Unset, p, Flat(log))
  {
    assert data[..0] == "";
    RunNothing(m, p);
    NoEvents(Flat(log));
  }

  /** Where the loop stands: at most one mark is set, and the parser's assertions will hold. */
  lemma Position(m: Message, p: Parser, log: seq<Call>, data: string, i: nat, f: Mark, v: Mark, b: Mark, p0: Parser, told: seq<Event>)
    requires Here(m, p, log, data, i, f, v, b, p0, told) && Sound(p0)
    ensures p.error == Ok && MarksFit(p.state, f, v, b, i) && Sound(p) && Asserted(Counted(p))
    ensures (f.Set? <==> p.state == HeaderField) && (v.Set? <==> p.state == Value)
    ensures p.state == HeaderField || p.state == Value ==> b == Unset
    ensures !f.Set? ==> f == Unset
    ensures !v.Set? ==> v == Unset
  {
    RunSound(m, p0, data[..i]);
  }

  lemma EnterSwitch(m: Message, p: Parser, log: seq<Call>, data: string, i: nat, b: Mark, p0: Parser, told: seq<Event>)
    requires i < |data| && Single(p.state) && Here(m, p, log, data, i, Unset, Unset, b, p0, told)
    ensures Revisit(m, Counted(p), log, data, i, Unset, Unset, b, p0, told)
  {
    hide Visits, Run, Waiting, Flat;
    Onward(m, p0, data, i, p);
    assert Feed(m, p, data[i]) == Visits(m, Counted(p), data[i]);
    HoldingStill(data, b, i);
    Assoc(told, Run(m, p0, data[..i]).1, Visits(m, Counted(p), data[i]).1);
  }

  lemma HoldingStill(data: string, b: Mark, i: nat)
    ensures Waiting(data, Unset, Unset, b, i) == Marked(Body, data, b, i)
  {
  }

  lemma Finish(m: Message, p: Parser, log: seq<Call>, data: string, f: Mark, v: Mark, b: Mark, p0: Parser, told: seq<Event>)
    requires Here(m, p, log, data, |data|, f, v, b, p0, told) && Sound(p0)
    ensures Run(m, p0, data).0 == p && p.error == Ok && Sound(p) && MarksFit(p.state, f, v, b, |data|)
    ensures Within(f, |data|) && Within(v, |data|) && Within(b, |data|)
    ensures !(f.Set? && v.Set?) && !(f.Set? && b.Set?) && !(v.Set? && b.Set?)
    ensures ((Flat(log) + Marked(Field, data, f, |data|)) + Marked(ValueText, data, v, |data|)) + Marked(Body, data, b, |data|)
            == told + Run(m, p0, data).1
  {
    hide Run, Flat, Marked;
    assert data[..|data|] == data;
    RunSound(m, p0, data);
    var x, y, z := Marked(Field, data, f, |data|), Marked(ValueText, data, v, |data|), Marked(Body, data, b, |data|);
    assert ((Flat(log) + x) + y) + z == Flat(log) + (x + y + z);
  }

  // ---------- streams in pieces ----------

  function Stream(pieces: seq<string>): string {
    if pieces == [] then "" else Stream(pieces[..|pieces| - 1]) + pieces[|pieces| - 1]
  }

  lemma StreamMore(pieces: seq<string>, k: nat)
    requires k < |pieces|
    ensures Stream(pieces[..k + 1]) == Stream(pieces[..k]) + pieces[k]
  {
    assert pieces[..k + 1][..k] == pieces[..k];
  }

  lemma {:induction false} StreamSplit(pieces: seq<string>, k: nat)
    requires k <= |pieces|
    ensures Stream(pieces) == Stream(pieces[..k]) + Stream(pieces[k..])
    decreases |pieces|
  {
    if k == |pieces| {
      assert pieces[..k] == pieces;
    } else {
      var n := |pieces| - 1;
      StreamSplit(pieces[..n], k);
      assert pieces[..n][..k] == pieces[..k] && pieces[..n][k..] == pieces[k..][..n - k];
      assert pieces[k..][n - k] == pieces[n];
    }
  }
}
