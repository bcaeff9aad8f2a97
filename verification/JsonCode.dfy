/**
 The JSON library's reading and printing loops, with the buffers they allocate
 from lengths computed beforehand. Each method is proved against the function of
 the same name in the text and tree modules; that every write stays inside its
 buffer is part of the proof. A result string is the buffer's text without the
 terminator.
 */
module JsonCode {
  import opened JsonText
  import opened JsonTree

  // ---------- reading ----------

  method SkipBlanks(s: string, start: nat) returns (i: nat)
    requires start <= |s|
    ensures i == Skip(s, start)
  {
    i := start;
    while At(s, i) != NUL && At(s, i) <= ' '
      invariant start <= i <= |s| && Skip(s, i) == Skip(s, start)
      decreases |s| - i
    {
      i := i + 1;
    }
  }

  /** What the first pass over a literal counts: every byte, an escape's backslash standing for two. */
  function Count(s: string, i: nat): nat
    decreases |s| - i
  {
    if At(s, i) == '"' || At(s, i) == NUL then 0 else 1 + Count(s, if At(s, i) == '\\' then i + 2 else i + 1)
  }

  lemma CountInside4(s: string, i: nat)
    requires Inside4(s, i)
    ensures Count(s, i) == 4 + Count(s, i + 4)
  {
    assert Count(s, i) == 1 + Count(s, i + 1);
    assert Count(s, i + 1) == 1 + Count(s, i + 2);
    assert Count(s, i + 2) == 1 + Count(s, i + 3);
    assert Count(s, i + 3) == 1 + Count(s, i + 4);
  }

  /** An escape is counted for at least as many bytes as it stands for. */
  lemma EscapeFits(s: string, i: nat)
    requires At(s, i) == '\\' && EscapeAt(s, i).Text?
    ensures |EscapeAt(s, i).text| + Count(s, EscapeAt(s, i).next) <= Count(s, i)
  {
    var e := EscapeAt(s, i);
    assert Count(s, i) == 1 + Count(s, i + 2);
    if At(s, i + 1) == 'u' {
      CountInside4(s, i + 2);
      if e.next == i + 12 {
        assert Count(s, i + 6) == 1 + Count(s, i + 8);
        CountInside4(s, i + 8);
      }
    }
  }

  /** The fall-through switch: the bytes of a code point from the last to the first. */
  method PutUtf8(out: array<char>, at: nat, code: nat)
    requires code < 0x110000 && at + Utf8Length(code) <= out.Length
    modifies out
    ensures out[..at + Utf8Length(code)] == old(out[..at]) + Utf8(code)
  {
    hide Utf8, Utf8Length, LowSix, Shifted, Lead, FirstByteMark;
    Utf8Chars(code);
    var len := Utf8Length(code);
    var k, u := at + len, code;
    if len == 4 {
      k := k - 1;
      out[k] := LowSix(u);
      u := Shifted(u);
    }
    if len >= 3 {
      k := k - 1;
      out[k] := LowSix(u);
      u := Shifted(u);
    }
    if len >= 2 {
      k := k - 1;
      out[k] := LowSix(u);
      u := Shifted(u);
    }
    k := k - 1;
    out[k] := Lead(len, u);
    assert out[at..at + len] == Utf8(code);
    assert out[..at] == old(out[..at]);
    assert out[..at + len] == out[..at] + out[at..at + len];
  }

  /** `parse_hex4`: four hexadecimal digits, or 0 at the first byte that is none. */
  method ReadHex4(s: string, i: nat) returns (h: nat)
    ensures h == Digits4(s, i)
  {
    h := 0;
    if !IsHex(At(s, i)) {
      return 0;
    }
    h := h + HexValue(At(s, i));
    h := h * 16;
    if !IsHex(At(s, i + 1)) {
      return 0;
    }
    h := h + HexValue(At(s, i + 1));
    h := h * 16;
    if !IsHex(At(s, i + 2)) {
      return 0;
    }
    h := h + HexValue(At(s, i + 2));
    h := h * 16;
    if !IsHex(At(s, i + 3)) {
      return 0;
    }
    h := h + HexValue(At(s, i + 3));
  }

  /** What an escape stands for goes to the buffer; false if it is malformed. */
  method PutEscape(s: string, i: nat, out: array<char>, at: nat) returns (ok: bool, next: nat, n: nat)
    requires i < |s| && s[i] == '\\' && at + Count(s, i) < out.Length
    modifies out
    ensures ok == EscapeAt(s, i).Text?
    ensures ok ==> next == EscapeAt(s, i).next && n + Count(s, next) < out.Length
    ensures ok ==> n == at + |EscapeAt(s, i).text| && out[..n] == old(out[..at]) + EscapeAt(s, i).text
  {
    ok, next, n := true, i + 2, at;
    if EscapeAt(s, i).Text? { EscapeFits(s, i); }
    var c := At(s, i + 1);
    if c == NUL {
      return false, i, at;
    }
    if c == 'u' {
      if !Inside4(s, i + 2) {
        return false, i, at;
      }
      next := i + 6;
      var u := ReadHex4(s, i + 2);
      if LowSurrogate(u) || u == 0 {
      } else if HighSurrogate(u) {
        if At(s, i + 6) == '\\' && At(s, i + 7) == 'u' {
          if !Inside4(s, i + 8) {
            return false, i, at;
          }
          next := i + 12;
          var low := ReadHex4(s, i + 8);
          if LowSurrogate(low) {
            PutUtf8(out, at, Paired(u, low));
            n := at + Utf8Length(Paired(u, low));
          }
        }
      } else {
        PutUtf8(out, at, u);
        n := at + Utf8Length(u);
      }
    } else {
      out[at] := if c == 'b' then 8 as char else if c == 'f' then 12 as char else if c == 'n' then '\n'
                 else if c == 'r' then '\r' else if c == 't' then '\t' else c;
      n := at + 1;
    }
  }

  method ReadString(s: string, i: nat) returns (t: Text)
    requires i <= |s|
    ensures t == StringAt(s, i)
  {
    if At(s, i) != '"' {
      return Malformed;
    }
    var p, len := i + 1, 0;
    while At(s, p) != '"' && At(s, p) != NUL
      invariant len + Count(s, p) == Count(s, i + 1)
      decreases |s| - p
    {
      len := len + 1;
      p := if At(s, p) == '\\' then p + 2 else p + 1;
    }
    var out := new char[len + 1];
    var n: nat := 0;
    p := i + 1;
    while At(s, p) != '"' && At(s, p) != NUL
      invariant i < p <= |s| && n + Count(s, p) <= len
      invariant Literal(s, i + 1) == Prepend(out[..n], Literal(s, p))
      decreases |s| - p
    {
      PrependSteps(s, p, out[..n]);
      if s[p] != '\\' {
        out[n] := s[p];
        assert out[..n + 1] == out[..n] + [s[p]];
        p, n := p + 1, n + 1;
      } else {
        var ok;
        ok, p, n := PutEscape(s, p, out, n);
        if !ok {
          return Malformed;
        }
      }
    }
    out[n] := NUL;
    assert out[..n] + "" == out[..n];
    t := Text(out[..n], if At(s, p) == '"' then p + 1 else p);
  }

  /** How a prefix already read grows by one step. */
  lemma PrependSteps(s: string, p: nat, w: string)
    requires p < |s| && s[p] != '"' && s[p] != NUL
    ensures s[p] != '\\' ==> Prepend(w, Literal(s, p)) == Prepend(w + [s[p]], Literal(s, p + 1))
    ensures s[p] == '\\' && EscapeAt(s, p).Text? ==>
              Prepend(w, Literal(s, p)) == Prepend(w + EscapeAt(s, p).text, Literal(s, EscapeAt(s, p).next))
    ensures s[p] == '\\' && EscapeAt(s, p).Malformed? ==> Prepend(w, Literal(s, p)) == Malformed
  {
    hide EscapeAt;
    if s[p] != '\\' {
      PrependTwice(w, [s[p]], Literal(s, p + 1));
    } else if EscapeAt(s, p).Text? {
      PrependTwice(w, EscapeAt(s, p).text, Literal(s, EscapeAt(s, p).next));
    }
  }

  method ReadNumber(s: string, i: nat) returns (r: Parsed)
    requires i <= |s| && (At(s, i) == '-' || IsDigit(At(s, i)))
    ensures r == NumberAt(s, i)
  {
    var p, negative, n := i, false, 0;
    if At(s, p) == '-' {
      p, negative := p + 1, true;
    }
    if At(s, p) == '0' {
      p := p + 1;
    }
    ghost var first := p;
    if '1' <= At(s, p) <= '9' {
      n, p := s[p] as int - '0' as int, p + 1;
      while '0' <= At(s, p) <= '9'
        invariant 0 <= n && p <= |s| && ReadDigits(s, first, 0) == ReadDigits(s, p, n)
        decreases |s| - p
      {
        n, p := n * 10 + (s[p] as int - '0' as int), p + 1;
      }
    }
    // Fractions, exponents and numbers that do not fit an int are not covered.
    if (At(s, p) == '.' && IsDigit(At(s, p + 1))) || At(s, p) == 'e' || At(s, p) == 'E' {
      return Fail;
    }
    var v := if negative then -n else n;
    r := if INT_MIN <= v <= INT_MAX then Ok(Number(v), p) else Fail;
  }

  method ReadValue(s: string, i: nat) returns (r: Parsed)
    requires i <= |s|
    ensures r == ValueAt(s, i)
    decreases |s| - i, 2
  {
    if Has(s, i, "null") {
      r := Ok(Null, i + 4);
    } else if Has(s, i, "false") {
      r := Ok(False, i + 5);
    } else if Has(s, i, "true") {
      r := Ok(True, i + 4);
    } else if At(s, i) == '"' {
      var t := ReadString(s, i);
      r := if t.Text? then Ok(String(t.text), t.next) else Fail;
    } else if At(s, i) == '-' || IsDigit(At(s, i)) {
      r := ReadNumber(s, i);
    } else if At(s, i) == '[' {
      r := ReadArray(s, i);
    } else if At(s, i) == '{' {
      r := ReadObject(s, i);
    } else {
      r := Fail;
    }
  }

  method ReadItem(s: string, i: nat) returns (ok: bool, item: Json, next: nat)
    requires i <= |s|
    ensures ok ==> i < next <= |s|
    ensures ItemsAt(s, i) == if ok then MoreItems([item], ItemsAfter(s, Skip(s, next))) else NoItems
    decreases |s| - i, 3
  {
    hide ItemsAfter, Skip, ValueAt;
    var j := SkipBlanks(s, i);
    var v := ReadValue(s, j);
    return v.Ok?, if v.Ok? then v.tree else Null, if v.Ok? then v.next else i;
  }

  method ReadArray(s: string, i: nat) returns (r: Parsed)
    requires i < |s| && s[i] == '['
    ensures r == ValueAt(s, i)
    decreases |s| - i, 1
  {
    hide ItemsAfter, ItemsAt, Skip, NumberAt, StringAt;
    var j := SkipBlanks(s, i + 1);
    NotAWord(s, i, "[");
    if At(s, j) == ']' {
      return Ok(Array([]), j + 1);
    }
    var ok, item, next := ReadItem(s, j);
    if !ok {
      return Fail;
    }
    var items := [item];
    var k := SkipBlanks(s, next);
    while At(s, k) == ','
      invariant j < k <= |s| && ItemsAt(s, j) == MoreItems(items, ItemsAfter(s, k))
      decreases |s| - k
    {
      ItemsComma(s, k);
      ok, item, next := ReadItem(s, k + 1);
      if !ok {
        return Fail;
      }
      ItemsJoined(items, item, ItemsAfter(s, Skip(s, next)));
      items := items + [item];
      k := SkipBlanks(s, next);
    }
    ItemsClose(s, k, items);
    r := if At(s, k) == ']' then Ok(Array(items), k + 1) else Fail;
  }

  lemma ItemsComma(s: string, k: nat)
    requires k < |s| && s[k] == ','
    ensures ItemsAfter(s, k) == ItemsAt(s, k + 1)
  {
  }

  lemma ItemsJoined(a: seq<Json>, t: Json, r: Items)
    ensures MoreItems(a, MoreItems([t], r)) == MoreItems(a + [t], r)
  {
    if r.Items? { assert a + ([t] + r.items) == (a + [t]) + r.items; }
  }

  lemma ItemsClose(s: string, k: nat, items: seq<Json>)
    requires k <= |s| && At(s, k) != ','
    ensures MoreItems(items, ItemsAfter(s, k)) == if At(s, k) == ']' then Items(items, k + 1) else NoItems
  {
  }

  method ReadMember(s: string, i: nat) returns (ok: bool, m: Member, next: nat)
    requires i <= |s|
    ensures ok ==> i < next <= |s|
    ensures MembersAt(s, i) == if ok then MoreMembers([m], MembersAfter(s, Skip(s, next))) else NoMembers
    decreases |s| - i, 1
  {
    hide MembersAfter, Skip, StringAt, ValueAt;
    m := Member("", Null);
    var j := SkipBlanks(s, i);
    var t := ReadString(s, j);
    if t.Malformed? {
      return false, m, i;
    }
    var k := SkipBlanks(s, t.next);
    if At(s, k) != ':' {
      return false, m, i;
    }
    k := SkipBlanks(s, k + 1);
    var v := ReadValue(s, k);
    if v.Fail? {
      return false, m, i;
    }
    return true, Member(t.text, v.tree), v.next;
  }

  method ReadObject(s: string, i: nat) returns (r: Parsed)
    requires i < |s| && s[i] == '{'
    ensures r == ValueAt(s, i)
    decreases |s| - i, 1
  {
    hide MembersAfter, MembersAt, Skip, NumberAt, StringAt;
    var j := SkipBlanks(s, i + 1);
    NotAWord(s, i, "{");
    if At(s, j) == '}' {
      return Ok(Object([]), j + 1);
    }
    var ok, m, next := ReadMember(s, j);
    if !ok {
      return Fail;
    }
    var members := [m];
    var k := SkipBlanks(s, next);
    while At(s, k) == ','
      invariant j < k <= |s| && MembersAt(s, j) == MoreMembers(members, MembersAfter(s, k))
      decreases |s| - k
    {
      MembersComma(s, k);
      ok, m, next := ReadMember(s, k + 1);
      if !ok {
        return Fail;
      }
      MembersJoined(members, m, MembersAfter(s, Skip(s, next)));
      members := members + [m];
      k := SkipBlanks(s, next);
    }
    MembersClose(s, k, members);
    r := if At(s, k) == '}' then Ok(Object(members), k + 1) else Fail;
  }

  lemma MembersComma(s: string, k: nat)
    requires k < |s| && s[k] == ','
    ensures MembersAfter(s, k) == MembersAt(s, k + 1)
  {
  }

  lemma MembersJoined(a: seq<Member>, m: Member, r: Members)
    ensures MoreMembers(a, MoreMembers([m], r)) == MoreMembers(a + [m], r)
  {
    if r.Members? { assert a + ([m] + r.members) == (a + [m]) + r.members; }
  }

  lemma MembersClose(s: string, k: nat, members: seq<Member>)
    requires k <= |s| && At(s, k) != ','
    ensures MoreMembers(members, MembersAfter(s, k)) == if At(s, k) == '}' then Members(members, k + 1) else NoMembers
  {
  }

  /** `cJSON_Parse`. */
  method ReadText(s: string) returns (r: Parsed)
    ensures r == Parse(s)
  {
    var i := SkipBlanks(s, 0);
    r := ReadValue(s, i);
  }

  // ---------- printing ----------

  /** strcpy: the text and a terminator. */
  method Put(out: array<char>, at: nat, w: string) returns (p: nat)
    requires at + |w| < out.Length
    modifies out
    ensures p == at + |w| && out[..p] == old(out[..at]) + w && out[p] == NUL
  {
    p := at;
    while p - at < |w|
      invariant at <= p <= at + |w|
      invariant out[..p] == old(out[..at]) + w[..p - at]
    {
      out[p] := w[p - at];
      p := p + 1;
    }
    out[p] := NUL;
  }

  /** A single byte. */
  method PutByte(out: array<char>, at: nat, c: char) returns (p: nat)
    requires at < out.Length
    modifies out
    ensures p == at + 1 && out[..p] == old(out[..at]) + [c]
  {
    out[at] := c;
    p := at + 1;
  }

  /** A byte that is there only under a condition. */
  method PutIf(out: array<char>, at: nat, b: bool, c: char) returns (p: nat)
    requires at + (if b then 1 else 0) <= out.Length
    modifies out
    ensures p == at + |If(b, [c])| <= at + 1 && out[..p] == old(out[..at]) + If(b, [c])
  {
    p := at;
    if b {
      p := PutByte(out, p, c);
    }
  }

  method PutTabs(out: array<char>, at: nat, n: int) returns (p: nat)
    requires at + (if n > 0 then n else 0) <= out.Length
    modifies out
    ensures p == at + |Tabs(n)| == at + (if n > 0 then n else 0) && out[..p] == old(out[..at]) + Tabs(n)
  {
    p := at;
    var j := 0;
    while j < n
      invariant 0 <= j && (j <= n || j == 0) && p == at + j
      invariant out[..p] == old(out[..at]) + Tabs(j)
    {
      TabsMore(j);
      out[p] := '\t';
      p, j := p + 1, j + 1;
    }
    assert j == n || (j == 0 && Tabs(n) == "");
    TabsLength(n);
  }

  lemma {:induction false} TabsMore(n: nat)
    ensures Tabs(n + 1) == Tabs(n) + "\t"
  {
    if n > 0 { TabsMore(n - 1); }
  }

  lemma {:induction false} TabsLength(n: int)
    ensures |Tabs(n)| == if n > 0 then n else 0
  {
    if n > 0 { TabsLength(n - 1); }
  }

  function Special(c: char): bool {
    c == '"' || c == '\\' || c == 8 as char || c == 12 as char || c == '\n' || c == '\r' || c == '\t'
  }

  lemma EscapedLength(c: char)
    ensures |Escaped(c)| == if Special(c) then 2 else if c < 32 as char then 6 else 1
  {
  }

  lemma EscapeParts(v: string, k: nat)
    requires k < |v|
    ensures Escape(v[k..]) == Escaped(v[k]) + Escape(v[k + 1..])
  {
    assert v[k..][0] == v[k] && v[k..][1..] == v[k + 1..];
  }

  lemma NothingToEscape(v: string)
    ensures v[|v|..] == [] && Escape(v[|v|..]) == [] && v[0..] == v
  {
  }

  /** The buffer for an escaped literal is exactly as long as needed: two quotes, the escapes, the terminator. */
  method WriteString(v: string) returns (text: string)
    requires NulFree(v)
    ensures text == Quoted(v)
  {
    hide Escaped, Escape;
    var len, k := 0, 0;
    NothingToEscape(v);
    while k < |v|
      invariant 0 <= k <= |v| && len + |Escape(v[k..])| == |Escape(v)|
    {
      EscapeParts(v, k);
      EscapedLength(v[k]);
      len := len + 1;
      if Special(v[k]) {
        len := len + 1;
      } else if v[k] < 32 as char {
        len := len + 5;
      }
      k := k + 1;
    }
    var out := new char[len + 3];
    var p := PutByte(out, 0, '"');
    k := 0;
    while k < |v|
      invariant 0 <= k <= |v| && p + |Escape(v[k..])| == 1 + len
      invariant out[..p] + Escape(v[k..]) == "\"" + Escape(v)
    {
      EscapeParts(v, k);
      ghost var before := out[..p];
      p := PutEscaped(out, p, v[k]);
      assert out[..p] + Escape(v[k + 1..]) == before + (Escaped(v[k]) + Escape(v[k + 1..]));
      k := k + 1;
    }
    assert out[..p] + Escape(v[k..]) == out[..p];
    p := PutByte(out, p, '"');
    text := out[..p];
    p := PutByte(out, p, NUL);
    assert p == out.Length;
  }

  method PutEscaped(out: array<char>, at: nat, c: char) returns (p: nat)
    requires c != NUL && at + |Escaped(c)| < out.Length
    modifies out
    ensures p == at + |Escaped(c)| && out[..p] == old(out[..at]) + Escaped(c)
  {
    if c > 31 as char && c != '"' && c != '\\' {
      p := PutByte(out, at, c);
    } else {
      p := PutByte(out, at, '\\');
      if c == '\\' {
        p := PutByte(out, p, '\\');
      } else if c == '"' {
        p := PutByte(out, p, '"');
      } else if c == 8 as char {
        p := PutByte(out, p, 'b');
      } else if c == 12 as char {
        p := PutByte(out, p, 'f');
      } else if c == '\n' {
        p := PutByte(out, p, 'n');
      } else if c == '\r' {
        p := PutByte(out, p, 'r');
      } else if c == '\t' {
        p := PutByte(out, p, 't');
      } else {
        p := Put(out, p, "u00" + [HexDigit(c as int / 16 % 16), HexDigit(c as int % 16)]);
      }
    }
  }

  lemma {:induction false} DigitsLength(n: nat, k: nat, bound: nat)
    requires 0 < k && n < bound && bound == Power10(k)
    ensures |Digits(n)| <= k
    decreases k
  {
    if n >= 10 {
      DigitsLength(n / 10, k - 1, Power10(k - 1));
    }
  }

  function Power10(k: nat): nat { if k == 0 then 1 else 10 * Power10(k - 1) }

  /** Twenty-one bytes are enough for any int. */
  method WriteNumber(v: int) returns (text: string)
    requires INT_MIN <= v <= INT_MAX
    ensures text == Decimal(v)
  {
    TenDigits();
    DigitsLength(if v < 0 then -v else v, 10, 10_000_000_000);
    var str := new char[21];
    var p := Put(str, 0, Decimal(v));
    text := str[..p];
  }

  lemma TenDigits()
    ensures Power10(10) == 10_000_000_000
  {
    assert Power10(5) == 100_000;
    assert Power10(8) == 100_000_000;
  }

  // ---------- arrays and objects ----------

  /** Bytes set aside for the entries of an array: each with its separator and one to spare. */
  function EntriesWidth(entries: seq<string>, fmt: bool): nat {
    if entries == [] then 0 else |entries[0]| + 2 + (if fmt then 1 else 0) + EntriesWidth(entries[1..], fmt)
  }

  lemma {:induction false} EntriesWidthMore(entries: seq<string>, e: string, fmt: bool)
    ensures EntriesWidth(entries + [e], fmt) == EntriesWidth(entries, fmt) + |e| + 2 + (if fmt then 1 else 0)
  {
    if entries == [] {
      assert (entries + [e])[1..] == [];
    } else {
      assert (entries + [e])[1..] == entries[1..] + [e];
      EntriesWidthMore(entries[1..], e, fmt);
    }
  }

  predicate Rendered(entries: seq<string>, items: seq<Json>, depth: nat, fmt: bool) {
    |entries| <= |items| && forall k | 0 <= k < |entries| :: entries[k] == Render(items[k], depth, fmt)
  }

  lemma {:induction false} PrintableAt(items: seq<Json>, k: nat)
    requires PrintableItems(items) && k < |items|
    ensures Printable(items[k])
  {
    if k > 0 { PrintableAt(items[1..], k - 1); }
  }

  lemma ItemsFrom(items: seq<Json>, k: nat, depth: nat, fmt: bool)
    requires k < |items|
    ensures RenderItems(items[k..], depth, fmt)
            == Render(items[k], depth, fmt) + (If(k != |items| - 1, "," + If(fmt, " ")) + RenderItems(items[k + 1..], depth, fmt))
  {
    assert items[k..][1..] == items[k + 1..];
    if k != |items| - 1 {
      assert "," + (If(fmt, " ") + RenderItems(items[k + 1..], depth, fmt)) == ("," + If(fmt, " ")) + RenderItems(items[k + 1..], depth, fmt);
    }
  }

  method WriteValue(t: Json, depth: nat, fmt: bool) returns (text: string)
    requires Printable(t)
    ensures text == Render(t, depth, fmt)
    decreases t, 2
  {
    match t
    case Null => text := "null";
    case False => text := "false";
    case True => text := "true";
    case Number(v) => text := WriteNumber(v);
    case String(v) => text := WriteString(v);
    case Array(items) => text := WriteArray(items, depth, fmt);
    case Object(members) => text := WriteObject(members, depth, fmt);
  }

  /** All the entries of an array, and the length of a buffer for the whole. */
  method RenderEntries(items: seq<Json>, depth: nat, fmt: bool) returns (entries: seq<string>, len: nat)
    requires PrintableItems(items)
    ensures |entries| == |items| && Rendered(entries, items, depth, fmt) && len == 5 + EntriesWidth(entries, fmt)
    decreases items, 0
  {
    hide RenderItems, Render, EntriesWidth;
    entries, len := [], 5;
    EntriesNone(fmt);
    while |entries| < |items|
      invariant Rendered(entries, items, depth, fmt) && len == 5 + EntriesWidth(entries, fmt)
      decreases |items| - |entries|
    {
      PrintableAt(items, |entries|);
      var ret := WriteValue(items[|entries|], depth, fmt);
      len := len + |ret| + 2 + (if fmt then 1 else 0);
      EntriesWidthMore(entries, ret, fmt);
      entries := entries + [ret];
    }
  }

  lemma EntriesNone(fmt: bool)
    ensures EntriesWidth([], fmt) == 0
  {
  }

  lemma EntriesFrom(entries: seq<string>, k: nat, fmt: bool)
    requires k < |entries|
    ensures EntriesWidth(entries[k..], fmt) == |entries[k]| + 2 + (if fmt then 1 else 0) + EntriesWidth(entries[k + 1..], fmt)
  {
    assert entries[k..][1..] == entries[k + 1..];
  }

  /** One entry and its separator. */
  method PutEntry(out: array<char>, at: nat, entry: string, last: bool, fmt: bool) returns (p: nat)
    requires at + |entry| + 1 + (if fmt then 1 else 0) < out.Length
    modifies out
    ensures p == at + |entry + If(!last, "," + If(fmt, " "))|
    ensures out[..p] == old(out[..at]) + (entry + If(!last, "," + If(fmt, " ")))
  {
    p := Put(out, at, entry);
    if !last {
      p := PutByte(out, p, ',');
      if fmt {
        p := PutByte(out, p, ' ');
      }
      out[p] := NUL;
    }
  }

  method WriteArray(items: seq<Json>, depth: nat, fmt: bool) returns (text: string)
    requires PrintableItems(items)
    ensures text == Render(Array(items), depth, fmt)
    decreases items, 1
  {
    hide RenderItems, EntriesWidth, If;
    ItemsNone(depth + 1, fmt);
    if items == [] {
      var out := new char[3];
      var p := Put(out, 0, "[]");
      return out[..p];
    }
    var entries, len := RenderEntries(items, depth + 1, fmt);
    var out := new char[len];
    var p: nat := Put(out, 0, "[");
    var i := 0;
    ghost var whole := Render(Array(items), depth, fmt);
    assert items[0..] == items && entries[0..] == entries;
    while i < |items|
      invariant 0 <= i <= |items| && p + EntriesWidth(entries[i..], fmt) + 2 <= out.Length
      invariant out[..p] + (RenderItems(items[i..], depth + 1, fmt) + "]") == whole
    {
      ItemsFrom(items, i, depth + 1, fmt);
      EntriesFrom(entries, i, fmt);
      SeparatorLength(fmt);
      ghost var before, sep, rest := out[..p], If(i != |items| - 1, "," + If(fmt, " ")), RenderItems(items[i + 1..], depth + 1, fmt);
      p := PutEntry(out, p, entries[i], i == |items| - 1, fmt);
      Regroup(before, entries[i], sep, rest, "]");
      i := i + 1;
    }
    assert items[i..] == [];
    p := PutByte(out, p, ']');
    text := out[..p];
    p := PutByte(out, p, NUL);
  }

  lemma SeparatorLength(fmt: bool)
    ensures forall b: bool :: |If(b, "," + If(fmt, " "))| <= 1 + (if fmt then 1 else 0)
  {
  }

  lemma Regroup(before: string, entry: string, sep: string, rest: string, end: string)
    ensures before + ((entry + (sep + rest)) + end) == (before + (entry + sep)) + (rest + end)
  {
  }

  lemma ItemsNone(depth: nat, fmt: bool)
    ensures RenderItems([], depth, fmt) == ""
  {
  }

  // ---------- objects ----------

  /** Bytes set aside for the members of an object: name, value, colon and comma, and when formatting a tab, a newline and the indentation. */
  function MembersWidth(names: seq<string>, entries: seq<string>, depth: nat, fmt: bool): nat
    requires |names| == |entries|
  {
    if names == [] then 0
    else |entries[0]| + |names[0]| + 2 + (if fmt then 2 + depth else 0) + MembersWidth(names[1..], entries[1..], depth, fmt)
  }

  lemma {:induction false} MembersWidthMore(names: seq<string>, entries: seq<string>, n: string, e: string, depth: nat, fmt: bool)
    requires |names| == |entries|
    ensures MembersWidth(names + [n], entries + [e], depth, fmt)
            == MembersWidth(names, entries, depth, fmt) + |e| + |n| + 2 + (if fmt then 2 + depth else 0)
  {
    if names == [] {
      assert (names + [n])[1..] == [] && (entries + [e])[1..] == [];
    } else {
      assert (names + [n])[1..] == names[1..] + [n] && (entries + [e])[1..] == entries[1..] + [e];
      MembersWidthMore(names[1..], entries[1..], n, e, depth, fmt);
    }
  }

  lemma MembersWidthFrom(names: seq<string>, entries: seq<string>, k: nat, depth: nat, fmt: bool)
    requires |names| == |entries| && k < |names|
    ensures MembersWidth(names[k..], entries[k..], depth, fmt)
            == |entries[k]| + |names[k]| + 2 + (if fmt then 2 + depth else 0) + MembersWidth(names[k + 1..], entries[k + 1..], depth, fmt)
  {
    assert names[k..][1..] == names[k + 1..] && entries[k..][1..] == entries[k + 1..];
  }

  predicate RenderedMembers(names: seq<string>, entries: seq<string>, members: seq<Member>, depth: nat, fmt: bool) {
    && |names| == |entries| <= |members|
    && forall k | 0 <= k < |names| :: names[k] == Quoted(members[k].name) && entries[k] == Render(members[k].value, depth, fmt)
  }

  lemma {:induction false} PrintableMemberAt(members: seq<Member>, k: nat)
    requires PrintableMembers(members) && k < |members|
    ensures NulFree(members[k].name) && Printable(members[k].value)
  {
    if k > 0 { PrintableMemberAt(members[1..], k - 1); }
  }

  method RenderNamesAndEntries(members: seq<Member>, depth: nat, fmt: bool) returns (names: seq<string>, entries: seq<string>, len: nat)
    requires PrintableMembers(members)
    ensures |names| == |members| && RenderedMembers(names, entries, members, depth, fmt)
    ensures len == 7 + (if fmt then depth else 0) + MembersWidth(names, entries, depth, fmt)
    decreases members, 0
  {
    hide Render, Quoted, MembersWidth;
    names, entries, len := [], [], 7 + (if fmt then depth else 0);
    NoMembersWidth(depth, fmt);
    while |names| < |members|
      invariant RenderedMembers(names, entries, members, depth, fmt)
      invariant len == 7 + (if fmt then depth else 0) + MembersWidth(names, entries, depth, fmt)
      decreases |members| - |names|
    {
      var m := members[|names|];
      PrintableMemberAt(members, |names|);
      var str := WriteString(m.name);
      var ret := WriteValue(m.value, depth, fmt);
      len := len + |ret| + |str| + 2 + (if fmt then 2 + depth else 0);
      MembersWidthMore(names, entries, str, ret, depth, fmt);
      names, entries := names + [str], entries + [ret];
    }
  }

  lemma NoMembersWidth(depth: nat, fmt: bool)
    ensures MembersWidth([], [], depth, fmt) == 0
  {
  }

  method PutIndent(out: array<char>, at: nat, depth: nat, fmt: bool) returns (p: nat)
    requires at + (if fmt then depth else 0) <= out.Length
    modifies out
    ensures p == at + |If(fmt, Tabs(depth))| == at + (if fmt then depth else 0)
    ensures out[..p] == old(out[..at]) + If(fmt, Tabs(depth))
  {
    p := at;
    if fmt {
      p := PutTabs(out, p, depth);
    }
  }

  /** One member: indentation, name, colon, value, comma, newline. */
  method PutMember(out: array<char>, at: nat, name: string, entry: string, last: bool, depth: nat, fmt: bool) returns (p: nat)
    requires at + |entry| + |name| + 2 + (if fmt then 2 + depth else 0) < out.Length
    modifies out
    ensures at < p <= at + |entry| + |name| + 2 + (if fmt then 2 + depth else 0)
    ensures out[..p] == old(out[..at]) + ((If(fmt, Tabs(depth)) + (name + (":" + (If(fmt, "\t") + entry)))) + (If(!last, ",") + If(fmt, "\n")))
  {
    hide Tabs;
    p := PutIndent(out, at, depth, fmt);
    p := Put(out, p, name);
    p := PutByte(out, p, ':');
    p := PutIf(out, p, fmt, '\t');
    p := Put(out, p, entry);
    p := PutIf(out, p, !last, ',');
    p := PutIf(out, p, fmt, '\n');
    out[p] := NUL;
    Grouped(old(out[..at]), If(fmt, Tabs(depth)), name, ":", If(fmt, "\t"), entry, If(!last, ","), If(fmt, "\n"));
  }

  lemma Grouped(o: string, a: string, b: string, c: string, d: string, e: string, f: string, g: string)
    ensures ((((((o + a) + b) + c) + d) + e) + f) + g == o + ((a + (b + (c + (d + e)))) + (f + g))
  {
    assert c + (d + e) == (c + d) + e;
    assert b + ((c + d) + e) == ((b + c) + d) + e;
    assert a + (((b + c) + d) + e) == (((a + b) + c) + d) + e;
  }

  lemma MembersFrom(members: seq<Member>, k: nat, depth: nat, fmt: bool)
    requires k < |members|
    ensures RenderMembers(members[k..], depth, fmt)
            == RenderMember(members[k], depth, fmt)
               + ((If(k != |members| - 1, ",") + If(fmt, "\n")) + RenderMembers(members[k + 1..], depth, fmt))
  {
    hide RenderMember;
    assert members[k..][1..] == members[k + 1..];
    var a, b, c := If(k != |members| - 1, ","), If(fmt, "\n"), RenderMembers(members[k + 1..], depth, fmt);
    assert a + (b + c) == (a + b) + c;
  }

  lemma MembersNone(depth: nat, fmt: bool)
    ensures RenderMembers([], depth, fmt) == ""
  {
  }

  method WriteEmptyObject(depth: nat, fmt: bool) returns (text: string)
    ensures text == Render(Object([]), depth, fmt)
  {
    var out := new char[if fmt then depth + 4 else 3];
    var p := PutByte(out, 0, '{');
    if fmt {
      p := PutByte(out, p, '\n');
      p := PutTabs(out, p, depth - 1);
    }
    p := PutByte(out, p, '}');
    text := out[..p];
    p := PutByte(out, p, NUL);
  }

  method WriteObject(members: seq<Member>, depth: nat, fmt: bool) returns (text: string)
    requires PrintableMembers(members)
    ensures text == Render(Object(members), depth, fmt)
    decreases members, 1
  {
    hide Render, Quoted, MembersWidth, RenderedMembers, If, Tabs;
    if members == [] {
      text := WriteEmptyObject(depth, fmt);
    } else {
      var names, entries, len := RenderNamesAndEntries(members, depth + 1, fmt);
      text := Compose(names, entries, len, members, depth, fmt);
    }
  }

  /** The output of a non-empty object, in a buffer of the length computed before. */
  method Compose(names: seq<string>, entries: seq<string>, len: nat, members: seq<Member>, depth: nat, fmt: bool) returns (text: string)
    requires members != [] && |names| == |members| && RenderedMembers(names, entries, members, depth + 1, fmt)
    requires len == 7 + (if fmt then depth + 1 else 0) + MembersWidth(names, entries, depth + 1, fmt)
    ensures text == Render(Object(members), depth, fmt)
  {
    hide Render, Quoted, MembersWidth, RenderedMembers, If, Tabs;
    var out := new char[len];
    var p := PutByte(out, 0, '{');
    p := PutIf(out, p, fmt, '\n');
    ghost var opening := out[..p];
    out[p] := NUL;
    assert out[..p] == opening;
    p := PutMembers(out, p, names, entries, members, depth + 1, fmt);
    p := PutIndent(out, p, depth, fmt);
    p := PutByte(out, p, '}');
    text := out[..p];
    p := PutByte(out, p, NUL);
    Embraced(If(fmt, "\n"), RenderMembers(members, depth + 1, fmt), If(fmt, Tabs(depth)));
    ObjectText(members, depth, fmt);
  }

  lemma ObjectText(members: seq<Member>, depth: nat, fmt: bool)
    requires members != []
    ensures Render(Object(members), depth, fmt)
            == "{" + (If(fmt, "\n") + (RenderMembers(members, depth + 1, fmt) + (If(fmt, Tabs(depth)) + "}")))
  {
  }

  lemma Embraced(a: string, b: string, c: string)
    ensures (((("{" + a) + b) + c) + "}") == "{" + (a + (b + (c + "}")))
  {
    assert a + (b + (c + "}")) == ((a + b) + c) + "}";
  }

  /** The loop over the members. */
  method PutMembers(out: array<char>, at: nat, names: seq<string>, entries: seq<string>, members: seq<Member>, depth: nat, fmt: bool)
    returns (p: nat)
    requires |names| == |members| && RenderedMembers(names, entries, members, depth, fmt)
    requires at + MembersWidth(names, entries, depth, fmt) < out.Length
    modifies out
    ensures at <= p <= at + MembersWidth(names, entries, depth, fmt)
    ensures out[..p] == old(out[..at]) + RenderMembers(members, depth, fmt)
  {
    hide RenderMembers, MembersWidth, If, Tabs;
    p := at;
    var i := 0;
    assert members[0..] == members && names[0..] == names && entries[0..] == entries;
    MembersNone(depth, fmt);
    NoMembersWidth(depth, fmt);
    while i < |members|
      invariant 0 <= i <= |members| && at <= p
      invariant p + MembersWidth(names[i..], entries[i..], depth, fmt) <= at + MembersWidth(names, entries, depth, fmt)
      invariant out[..p] + RenderMembers(members[i..], depth, fmt) == old(out[..at]) + RenderMembers(members, depth, fmt)
    {
      MembersFrom(members, i, depth, fmt);
      MembersWidthFrom(names, entries, i, depth, fmt);
      ghost var before, sep := out[..p], If(i != |members| - 1, ",") + If(fmt, "\n");
      p := PutMember(out, p, names[i], entries[i], i == |members| - 1, depth, fmt);
      Regroup(before, RenderMember(members[i], depth, fmt), sep, RenderMembers(members[i + 1..], depth, fmt), "");
      i := i + 1;
    }
    assert members[i..] == [] && names[i..] == [] && entries[i..] == [];
    assert out[..p] + "" == out[..p];
  }
}
