/**
 Text as the JSON library sees it: a NUL-terminated run of bytes, here a string
 whose end stands for the NUL. White space, string literals with their escapes,
 and UTF-8.

 `Literal` reads a string literal as the parser's loop does, `Quoted` writes one as
 the printer's loop does; what is shown of them is that the first reads back what
 the second has written.
 */
module JsonText {

  const NUL: char := '\0'

  /** The byte at position i; the terminator at and behind the end. */
  function At(s: string, i: nat): char { if i < |s| then s[i] else NUL }

  /** s has the text w at position i. */
  predicate Has(s: string, i: nat, w: string) {
    i + |w| <= |s| && s[i..i + |w|] == w
  }

  lemma HasParts(s: string, i: nat, a: string, b: string)
    requires Has(s, i, a + b)
    ensures Has(s, i, a) && Has(s, i + |a|, b)
  {
    assert s[i..i + |a|] == (a + b)[..|a|] == a;
    assert s[i + |a|..i + |a| + |b|] == (a + b)[|a|..] == b;
  }

  lemma HasAt(s: string, i: nat, w: string, k: nat)
    requires Has(s, i, w) && k < |w|
    ensures At(s, i + k) == w[k]
  {
    assert s[i..i + |w|][k] == s[i + k];
  }

  predicate NulFree(s: string) { forall i | 0 <= i < |s| :: s[i] != NUL }

  lemma NulFreeTail(s: string)
    requires NulFree(s) && s != []
    ensures s[0] != NUL && NulFree(s[1..]) && s == [s[0]] + s[1..]
  {
  }

  // ---------- white space ----------

  predicate Blank(c: char) { c != NUL && c <= ' ' }

  function Skip(s: string, i: nat): (r: nat)
    ensures i <= r && (i <= |s| ==> r <= |s|)
    decreases |s| - i
  {
    if i < |s| && Blank(s[i]) then Skip(s, i + 1) else i
  }

  predicate AllBlank(w: string) { forall k | 0 <= k < |w| :: Blank(w[k]) }

  lemma BlankJoined(a: string, b: string)
    requires AllBlank(a) && AllBlank(b)
    ensures AllBlank(a + b)
  {
  }

  lemma {:induction false} SkipOver(s: string, i: nat, w: string)
    requires Has(s, i, w) && AllBlank(w) && !Blank(At(s, i + |w|))
    ensures Skip(s, i) == i + |w|
    decreases |w|
  {
    if w != [] {
      HasAt(s, i, w, 0);
      assert w == [w[0]] + w[1..];
      HasParts(s, i, [w[0]], w[1..]);
      SkipOver(s, i + 1, w[1..]);
    }
  }

  // ---------- hexadecimal digits and UTF-8 ----------

  predicate IsHex(c: char) { '0' <= c <= '9' || 'A' <= c <= 'F' || 'a' <= c <= 'f' }

  function HexValue(c: char): (v: nat)
    requires IsHex(c)
    ensures v < 16
  {
    if '0' <= c <= '9' then c as int - '0' as int
    else if 'A' <= c <= 'F' then 10 + (c as int - 'A' as int)
    else 10 + (c as int - 'a' as int)
  }

  predicate IsHex4(s: string, i: nat) {
    IsHex(At(s, i)) && IsHex(At(s, i + 1)) && IsHex(At(s, i + 2)) && IsHex(At(s, i + 3))
  }

  function Hex4(s: string, i: nat): (v: nat)
    requires IsHex4(s, i)
    ensures v < 0x10000
  {
    ((HexValue(At(s, i)) * 16 + HexValue(At(s, i + 1))) * 16 + HexValue(At(s, i + 2))) * 16 + HexValue(At(s, i + 3))
  }

  /** What the reader makes of four bytes that should be digits. */
  function Digits4(s: string, i: nat): (v: nat)
    ensures v < 0x10000
  {
    if IsHex4(s, i) then Hex4(s, i) else 0
  }

  /** Four bytes that neither end the literal nor begin another escape. */
  predicate Inside4(s: string, i: nat): (b: bool)
    ensures b ==> i + 4 <= |s|
  {
    Inside(At(s, i)) && Inside(At(s, i + 1)) && Inside(At(s, i + 2)) && Inside(At(s, i + 3))
  }

  predicate Inside(c: char) { c != NUL && c != '"' && c != '\\' }

  lemma HexInside4(s: string, i: nat)
    requires IsHex4(s, i)
    ensures Inside4(s, i) && i + 4 <= |s|
  {
  }

  function HexDigit(v: nat): (c: char)
    requires v < 16
    ensures IsHex(c) && HexValue(c) == v
  {
    if v < 10 then ('0' as int + v) as char else ('a' as int + (v - 10)) as char
  }

  predicate HighSurrogate(u: nat) { 0xD800 <= u <= 0xDBFF }

  predicate LowSurrogate(u: nat) { 0xDC00 <= u <= 0xDFFF }

  /** The character a surrogate pair stands for: ten bits of each half. */
  function Paired(high: nat, low: nat): (u: nat)
    requires HighSurrogate(high) && LowSurrogate(low)
    ensures 0x10000 <= u < 0x110000
  {
    0x10000 + (high % 0x400) * 0x400 + low % 0x400
  }

  /** How many bytes the code point takes. */
  function Utf8Length(u: nat): nat { if u < 0x80 then 1 else if u < 0x800 then 2 else if u < 0x10000 then 3 else 4 }

  function FirstByteMark(len: nat): nat { if len == 2 then 0xC0 else if len == 3 then 0xE0 else if len == 4 then 0xF0 else 0 }

  /**
   The bytes, as the falling-through switch makes them from the back: the low six
   bits with the mark 10 in front for every byte but the first, what is left with
   the first byte's mark.
   */
  function Utf8Tail(u: nat, len: nat, mark: nat): (b: seq<nat>)
    requires len >= 1
    ensures |b| == len
    decreases len
  {
    if len == 1 then [mark + u] else Utf8Tail(u / 0x40, len - 1, mark) + [0x80 + u % 0x40]
  }

  function Utf8Bytes(u: nat): seq<nat> { Utf8Tail(u, Utf8Length(u), FirstByteMark(Utf8Length(u))) }

  function Utf8(u: nat): (b: string)
    requires u < 0x110000
    ensures |b| == Utf8Length(u)
  {
    Utf8InRange(u);
    seq(|Utf8Bytes(u)|, i requires 0 <= i < |Utf8Bytes(u)| => Utf8Bytes(u)[i] as char)
  }

  lemma Utf8InRange(u: nat)
    requires u < 0x110000
    ensures forall b <- Utf8Bytes(u) :: b < 0x100
  {
    Utf8Shape(u);
  }

  /** The bytes one by one. */
  lemma Utf8Shape(u: nat)
    requires u < 0x110000
    ensures u < 0x80 ==> Utf8Bytes(u) == [u]
    ensures 0x80 <= u < 0x800 ==> Utf8Bytes(u) == [0xC0 + u / 0x40, 0x80 + u % 0x40]
    ensures 0x800 <= u < 0x10000 ==> Utf8Bytes(u) == [0xE0 + u / 0x40 / 0x40, 0x80 + u / 0x40 % 0x40, 0x80 + u % 0x40]
    ensures 0x10000 <= u ==>
      Utf8Bytes(u) == [0xF0 + u / 0x40 / 0x40 / 0x40, 0x80 + u / 0x40 / 0x40 % 0x40, 0x80 + u / 0x40 % 0x40, 0x80 + u % 0x40]
  {
    var len := Utf8Length(u);
    var mark := FirstByteMark(len);
    if len >= 2 {
      assert Utf8Tail(u, len, mark) == Utf8Tail(u / 0x40, len - 1, mark) + [0x80 + u % 0x40];
      if len >= 3 {
        assert Utf8Tail(u / 0x40, len - 1, mark) == Utf8Tail(u / 0x40 / 0x40, len - 2, mark) + [0x80 + u / 0x40 % 0x40];
        if len == 4 {
          assert Utf8Tail(u / 0x40 / 0x40, 2, mark) == Utf8Tail(u / 0x40 / 0x40 / 0x40, 1, mark) + [0x80 + u / 0x40 / 0x40 % 0x40];
        }
      }
    }
  }

  /** A byte behind the first: the low six bits with the mark 10 in front. */
  function LowSix(u: nat): char { (0x80 + u % 0x40) as char }

  function Shifted(u: nat): nat { u / 0x40 }

  /** The first of len bytes: its mark, and what is left. */
  function Lead(len: nat, u: nat): char
    requires FirstByteMark(len) + u < 0x100
  {
    (FirstByteMark(len) + u) as char
  }

  /** The bytes as characters, by the number there are. */
  lemma Utf8Chars(u: nat)
    requires u < 0x110000
    ensures 1 <= Utf8Length(u) <= 4
    ensures var a, b, c, len := Shifted(u), Shifted(Shifted(u)), Shifted(Shifted(Shifted(u))), Utf8Length(u);
            && (len == 1 ==> FirstByteMark(len) + u < 0x100 && Utf8(u) == [Lead(len, u)])
            && (len == 2 ==> FirstByteMark(len) + a < 0x100 && Utf8(u) == [Lead(len, a), LowSix(u)])
            && (len == 3 ==> FirstByteMark(len) + b < 0x100 && Utf8(u) == [Lead(len, b), LowSix(a), LowSix(u)])
            && (len == 4 ==> FirstByteMark(len) + c < 0x100 && Utf8(u) == [Lead(len, c), LowSix(b), LowSix(a), LowSix(u)])
  {
    hide Utf8Bytes;
    Utf8Shape(u);
  }

  /**
   The reader's side of section 3 of RFC 3629: the code point of one well-formed
   byte sequence, or nothing. Overlong forms and surrogates are not well formed.
   */
  function ReadUtf8(b: seq<nat>): (u: int)
    ensures -1 <= u
  {
    if |b| == 1 && b[0] < 0x80 then b[0]
    else if |b| == 2 && 0xC0 <= b[0] < 0xE0 && Cont(b[1]) && 0x80 <= (b[0] - 0xC0) * 0x40 + (b[1] - 0x80) then
      (b[0] - 0xC0) * 0x40 + (b[1] - 0x80)
    else if |b| == 3 && 0xE0 <= b[0] < 0xF0 && Cont(b[1]) && Cont(b[2]) then
      var u := ((b[0] - 0xE0) * 0x40 + (b[1] - 0x80)) * 0x40 + (b[2] - 0x80);
      if 0x800 <= u && !(0xD800 <= u <= 0xDFFF) then u else -1
    else if |b| == 4 && 0xF0 <= b[0] < 0xF8 && Cont(b[1]) && Cont(b[2]) && Cont(b[3]) then
      var u := (((b[0] - 0xF0) * 0x40 + (b[1] - 0x80)) * 0x40 + (b[2] - 0x80)) * 0x40 + (b[3] - 0x80);
      if 0x10000 <= u < 0x110000 then u else -1
    else -1
  }

  predicate Cont(b: nat) { 0x80 <= b < 0xC0 }

  /** What the library writes for a code point is its UTF-8 form. */
  lemma Utf8RoundTrip(u: nat)
    requires u < 0x110000 && !HighSurrogate(u) && !LowSurrogate(u)
    ensures ReadUtf8(Utf8Bytes(u)) == u
  {
    Utf8Shape(u);
  }

  // ---------- string literals ----------

  datatype Text = Malformed | Text(text: string, next: nat)

  function Prepend(w: string, t: Text): Text { if t.Text? then Text(w + t.text, t.next) else t }

  lemma PrependTwice(a: string, b: string, t: Text)
    ensures Prepend(a, Prepend(b, t)) == Prepend(a + b, t)
  {
    if t.Text? { assert a + (b + t.text) == (a + b) + t.text; }
  }

  /**
   What one escape stands for, and how many bytes it takes; i is the position of the
   backslash. Bytes that are no digits stand for nothing and are skipped. An escape
   is malformed where its digits run over the end of the literal or into another
   escape.
   */
  function EscapeAt(s: string, i: nat): (t: Text)
    ensures t.Text? ==> i + 2 <= t.next <= |s| && |t.text| <= 4 && (t.next == i + 2 ==> |t.text| <= 1)
    ensures t.Text? && |t.text| > 3 ==> t.next == i + 12
  {
    var e := At(s, i + 1);
    if e == NUL then Malformed
    else if e == 'b' then Text([8 as char], i + 2)
    else if e == 'f' then Text([12 as char], i + 2)
    else if e == 'n' then Text("\n", i + 2)
    else if e == 'r' then Text("\r", i + 2)
    else if e == 't' then Text("\t", i + 2)
    else if e == 'u' then
      if !Inside4(s, i + 2) then Malformed
      else
        var u := Digits4(s, i + 2);
        if LowSurrogate(u) || u == 0 then Text("", i + 6)
        else if HighSurrogate(u) then
          if At(s, i + 6) != '\\' || At(s, i + 7) != 'u' then Text("", i + 6)
          else if !Inside4(s, i + 8) then Malformed
          else
            var low := Digits4(s, i + 8);
            if LowSurrogate(low) then Text(Utf8(Paired(u, low)), i + 12) else Text("", i + 12)
        else Text(Utf8(u), i + 6)
    else Text([e], i + 2)
  }

  /** The contents of a literal from position i up to its closing quote (or the end of the text). */
  function Literal(s: string, i: nat): (t: Text)
    requires i <= |s|
    ensures t.Text? ==> i <= t.next <= |s|
    decreases |s| - i
  {
    if At(s, i) == '"' || At(s, i) == NUL then Text("", i)
    else if At(s, i) != '\\' then Prepend([s[i]], Literal(s, i + 1))
    else
      var e := EscapeAt(s, i);
      if e.Malformed? then e else Prepend(e.text, Literal(s, e.next))
  }

  /** How the escaping writer renders one byte. */
  function Escaped(c: char): string {
    if c > 31 as char && c != '"' && c != '\\' then [c]
    else if c == '\\' then "\\\\"
    else if c == '"' then "\\\""
    else if c == 8 as char then "\\b"
    else if c == 12 as char then "\\f"
    else if c == '\n' then "\\n"
    else if c == '\r' then "\\r"
    else if c == '\t' then "\\t"
    else "\\u00" + [HexDigit(c as int / 16 % 16), HexDigit(c as int % 16)]
  }

  function Escape(s: string): string {
    if s == [] then [] else Escaped(s[0]) + Escape(s[1..])
  }

  function Quoted(s: string): string { "\"" + Escape(s) + "\"" }

  lemma LiteralEnd(s: string, i: nat)
    requires i <= |s| && At(s, i) == '"'
    ensures Literal(s, i) == Text("", i)
  {
  }

  lemma LiteralPlain(s: string, i: nat)
    requires i < |s| && s[i] != '"' && s[i] != NUL && s[i] != '\\'
    ensures Literal(s, i) == Prepend([s[i]], Literal(s, i + 1))
  {
  }

  lemma LiteralEscape(s: string, i: nat)
    requires i < |s| && s[i] == '\\' && EscapeAt(s, i).Text?
    ensures Literal(s, i) == Prepend(EscapeAt(s, i).text, Literal(s, EscapeAt(s, i).next))
  {
  }

  /** The library's `\\u00xx` form of a control byte stands for that byte. */
  lemma ControlEscape(s: string, i: nat, c: char)
    requires NUL < c <= 31 as char && Has(s, i, "\\u00" + [HexDigit(c as int / 16 % 16), HexDigit(c as int % 16)])
    ensures EscapeAt(s, i) == Text([c], i + 6)
  {
    var w := "\\u00" + [HexDigit(c as int / 16 % 16), HexDigit(c as int % 16)];
    HasAt(s, i, w, 1);
    HasAt(s, i, w, 2);
    HasAt(s, i, w, 3);
    HasAt(s, i, w, 4);
    HasAt(s, i, w, 5);
    assert Hex4(s, i + 2) == c as int;
    Utf8Shape(c as int);
    assert Utf8(c as int) == [c];
  }

  /** Reading back one escaped byte. */
  lemma LiteralEscaped(s: string, i: nat, c: char)
    requires c != NUL && Has(s, i, Escaped(c)) && i + |Escaped(c)| <= |s|
    ensures Literal(s, i) == Prepend([c], Literal(s, i + |Escaped(c)|))
  {
    hide Literal, Hex4, Utf8, Prepend;
    var w := Escaped(c);
    HasAt(s, i, w, 0);
    if |w| == 1 {
      LiteralPlain(s, i);
    } else {
      HasAt(s, i, w, 1);
      if |w| == 2 {
        assert EscapeAt(s, i) == Text([c], i + 2);
      } else {
        ControlEscape(s, i, c);
      }
      LiteralEscape(s, i);
    }
  }

  /** Reading a literal undoes writing it. */
  lemma {:induction false} LiteralRoundTrip(s: string, i: nat, v: string)
    requires NulFree(v) && Has(s, i, Escape(v) + "\"")
    ensures Literal(s, i) == Text(v, i + |Escape(v)|)
    decreases |v|
  {
    hide Literal, Escaped, NulFree, Has;
    if v == [] {
      assert Escape(v) + "\"" == "\"";
      HasAt(s, i, "\"", 0);
      HasLength(s, i, "\"");
      LiteralEnd(s, i);
    } else {
      NulFreeTail(v);
      var w := Escaped(v[0]);
      assert Escape(v) + "\"" == w + (Escape(v[1..]) + "\"");
      HasParts(s, i, w, Escape(v[1..]) + "\"");
      HasLength(s, i, w);
      LiteralEscaped(s, i, v[0]);
      LiteralRoundTrip(s, i + |w|, v[1..]);
    }
  }

  lemma HasLength(s: string, i: nat, w: string)
    requires Has(s, i, w)
    ensures i + |w| <= |s|
  {
  }

  /** A well-formed escape of a character outside the surrogates becomes that character's UTF-8 form. */
  lemma EscapedCharacter(s: string, i: nat)
    requires At(s, i) == '\\' && At(s, i + 1) == 'u' && IsHex4(s, i + 2) && i + 6 <= |s|
    requires var u := Hex4(s, i + 2); u != 0 && !HighSurrogate(u) && !LowSurrogate(u)
    ensures Literal(s, i) == Prepend(Utf8(Hex4(s, i + 2)), Literal(s, i + 6))
    ensures ReadUtf8(Utf8Bytes(Hex4(s, i + 2))) == Hex4(s, i + 2)
  {
    Utf8RoundTrip(Hex4(s, i + 2));
  }

  lemma PairedValue(high: nat, low: nat)
    requires HighSurrogate(high) && LowSurrogate(low)
    ensures Paired(high, low) == (high - 0xD800) * 0x400 + (low - 0xDC00) + 0x10000
  {
    assert high % 0x400 == high - 0xD800;
    assert low % 0x400 == low - 0xDC00;
  }

  /** A well-formed escaped surrogate pair becomes the UTF-8 form of the character it stands for. */
  lemma EscapedPair(s: string, i: nat)
    requires At(s, i) == '\\' && At(s, i + 1) == 'u' && IsHex4(s, i + 2) && HighSurrogate(Hex4(s, i + 2))
    requires At(s, i + 6) == '\\' && At(s, i + 7) == 'u' && IsHex4(s, i + 8) && LowSurrogate(Hex4(s, i + 8)) && i + 12 <= |s|
    ensures var u := Paired(Hex4(s, i + 2), Hex4(s, i + 8));
            && Literal(s, i) == Prepend(Utf8(u), Literal(s, i + 12))
            && ReadUtf8(Utf8Bytes(u)) == u
            && u == (Hex4(s, i + 2) - 0xD800) * 0x400 + (Hex4(s, i + 8) - 0xDC00) + 0x10000
  {
    hide Literal, Hex4, IsHex4, Inside4, Paired, Utf8, Utf8Bytes, Prepend, ReadUtf8;
    HexInside4(s, i + 2);
    HexInside4(s, i + 8);
    var high, low := Hex4(s, i + 2), Hex4(s, i + 8);
    PairedValue(high, low);
    assert EscapeAt(s, i) == Text(Utf8(Paired(high, low)), i + 12);
    LiteralEscape(s, i);
    Utf8RoundTrip(Paired(high, low));
  }
}
