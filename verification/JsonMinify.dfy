/**
 Minifying JSON in place: blanks and comments outside string literals go, the
 rest moves down. And what minifying makes of a formatted rendering.

 `Kept` is what is left of a text from a position on. The loop of the source keeps
 two cursors: what is behind the write cursor, joined with `Kept` from the read cursor
 on, is always `Kept` of the whole text, and nothing unread is overwritten. For a
 rendering, `Kept` is followed through the parts of the tree.
 */
module JsonMinify {
  import opened JsonText
  import opened JsonTree

  predicate Space(c: char) { c == ' ' || c == '\t' || c == '\r' || c == '\n' }

  /** The end of the line (or of the text). */
  function LineEnd(s: string, i: nat): (r: nat)
    requires i <= |s|
    ensures i <= r <= |s|
    decreases |s| - i
  {
    if i == |s| || s[i] == '\n' then i else LineEnd(s, i + 1)
  }

  /** Behind the first end of a comment (or the end of the text). */
  function CommentEnd(s: string, i: nat): (r: nat)
    requires i <= |s|
    ensures i <= r <= |s| && (i < |s| ==> i < r)
    decreases |s| - i
  {
    if i == |s| then i
    else if s[i] == '*' && At(s, i + 1) == '/' then i + 2
    else CommentEnd(s, i + 1)
  }

  /** What is kept of the text from position i on, outside a string literal. */
  function Kept(s: string, i: nat): (r: string)
    requires i <= |s|
    ensures |r| <= |s| - i
    decreases |s| - i
  {
    if i == |s| then ""
    else if Space(s[i]) then Kept(s, i + 1)
    else if s[i] == '/' && At(s, i + 1) == '/' then Kept(s, LineEnd(s, i + 1))
    else if s[i] == '/' && At(s, i + 1) == '*' then Kept(s, CommentEnd(s, i))
    else if s[i] == '"' then ['"'] + KeptLiteral(s, i + 1)
    else [s[i]] + Kept(s, i + 1)
  }

  /** What is kept from inside a string literal on: all of the literal. */
  function KeptLiteral(s: string, i: nat): (r: string)
    requires i <= |s|
    ensures |r| <= |s| - i
    decreases |s| - i
  {
    if i == |s| then ""
    else if s[i] == '"' then ['"'] + Kept(s, i + 1)
    else if s[i] == '\\' && i + 1 < |s| then [s[i], s[i + 1]] + KeptLiteral(s, i + 2)
    else [s[i]] + KeptLiteral(s, i + 1)
  }

  function Minified(s: string): string { Kept(s, 0) }

  // One step of the two functions, case by case.

  lemma KeptBlank(s: string, i: nat)
    requires i < |s| && Space(s[i])
    ensures Kept(s, i) == Kept(s, i + 1)
  {
  }

  lemma KeptOne(s: string, i: nat)
    requires i < |s| && Solid(s[i])
    ensures Kept(s, i) == [s[i]] + Kept(s, i + 1)
  {
  }

  lemma KeptOpen(s: string, i: nat)
    requires i < |s| && s[i] == '"'
    ensures Kept(s, i) == ['"'] + KeptLiteral(s, i + 1)
  {
  }

  lemma LiteralClose(s: string, i: nat)
    requires i < |s| && s[i] == '"'
    ensures KeptLiteral(s, i) == ['"'] + Kept(s, i + 1)
  {
  }

  lemma LiteralOne(s: string, i: nat)
    requires i < |s| && s[i] != '"' && (s[i] == '\\' ==> i + 1 == |s|)
    ensures KeptLiteral(s, i) == [s[i]] + KeptLiteral(s, i + 1)
    ensures i + 1 == |s| ==> KeptLiteral(s, i + 1) == ""
  {
  }

  lemma LiteralTwo(s: string, i: nat)
    requires i + 1 < |s| && s[i] == '\\'
    ensures KeptLiteral(s, i) == [s[i]] + ([s[i + 1]] + KeptLiteral(s, i + 2))
  {
    assert [s[i], s[i + 1]] + KeptLiteral(s, i + 2) == [s[i]] + ([s[i + 1]] + KeptLiteral(s, i + 2));
  }

  /** A byte kept as it is outside literals. */
  predicate Solid(c: char) { !Space(c) && c != '"' && c != '/' }

  // ---------- in place ----------

  /** The text in a buffer: what stands before the first NUL. */
  function TextIn(a: seq<char>): (s: string)
    requires NUL in a
    ensures |s| < |a| && s == a[..|s|] && a[|s|] == NUL && NulFree(s)
  {
    if a[0] == NUL then [] else [a[0]] + TextIn(a[1..])
  }

  lemma {:induction false} TextInIs(a: seq<char>, s: string)
    requires |s| < |a| && s == a[..|s|] && a[|s|] == NUL && NulFree(s)
    ensures NUL in a && TextIn(a) == s
  {
    assert a[|s|] in a;
    if s != [] {
      assert a[0] == s[0];
      assert s[1..] == a[1..][..|s| - 1];
      NulFreeTail(s);
      TextInIs(a[1..], s[1..]);
    }
  }

  lemma {:induction false} KeptNulFree(s: string, i: nat)
    requires i <= |s| && NulFree(s)
    ensures NulFree(Kept(s, i)) && NulFree(KeptLiteral(s, i))
    decreases |s| - i
  {
    if i < |s| {
      KeptNulFree(s, i + 1);
      if i + 1 < |s| { KeptNulFree(s, i + 2); }
      KeptNulFree(s, LineEnd(s, i + 1));
      KeptNulFree(s, CommentEnd(s, i));
    }
  }

  /** While read cursor r and write cursor w walk over the text: nothing unread is overwritten. */
  ghost predicate Moving(now: seq<char>, was: seq<char>, s: string, r: nat, w: nat, rest: string) {
    && |now| == |was| && |s| < |was| && was[..|s|] == s && was[|s|] == NUL
    && w <= r <= |s| && now[r..] == was[r..]
    && now[..w] + rest == Minified(s)
  }

  lemma Shift(now: seq<char>, was: seq<char>, s: string, r: nat, w: nat, rest: string, rest': string)
    requires Moving(now, was, s, r, w, rest) && r < |s| && rest == [s[r]] + rest'
    ensures now[r] == s[r] && Moving(now[w := now[r]], was, s, r + 1, w + 1, rest')
  {
    assert now[r] == now[r..][0] == was[r];
    var next := now[w := now[r]];
    assert next[..w + 1] == now[..w] + [s[r]];
    assert now[..w] + ([s[r]] + rest') == (now[..w] + [s[r]]) + rest';
    assert next[r + 1..] == now[r..][1..];
    assert was[r + 1..] == was[r..][1..];
  }

  lemma Reads(now: seq<char>, was: seq<char>, s: string, r: nat, w: nat, rest: string)
    requires Moving(now, was, s, r, w, rest)
    ensures r < |now| && now[r] == At(s, r)
    ensures r < |s| ==> r + 1 < |now| && now[r + 1] == At(s, r + 1)
  {
    assert now[r] == now[r..][0] == was[r];
    if r < |s| { assert now[r + 1] == now[r..][1] == was[r + 1]; }
  }

  lemma Jump(now: seq<char>, was: seq<char>, s: string, r: nat, w: nat, rest: string, r': nat)
    requires Moving(now, was, s, r, w, rest) && r <= r' <= |s|
    ensures Moving(now, was, s, r', w, rest)
  {
    assert now[r'..] == now[r..][r' - r..];
    assert was[r'..] == was[r..][r' - r..];
  }

  /** The cursors step over one byte that is kept. */
  method CopyByte(json: array<char>, r: nat, w: nat, ghost was: seq<char>, ghost s: string, ghost rest: string, ghost rest': string)
    requires Moving(json[..], was, s, r, w, rest) && r < |s| && rest == [s[r]] + rest'
    modifies json
    ensures Moving(json[..], was, s, r + 1, w + 1, rest')
    ensures r + 1 < json.Length && json[r + 1] == At(s, r + 1)
  {
    Shift(json[..], was, s, r, w, rest, rest');
    json[w] := json[r];
    Reads(json[..], was, s, r + 1, w + 1, rest');
  }

  /** Copies the literal whose opening quote has been copied, its closing quote included. */
  method CopyLiteral(json: array<char>, start: nat, at: nat, ghost was: seq<char>, ghost s: string) returns (r: nat, w: nat)
    requires NulFree(s) && start <= |s| && Moving(json[..], was, s, start, at, KeptLiteral(s, start))
    modifies json
    ensures start <= r <= |s| && Moving(json[..], was, s, r, w, Kept(s, r))
  {
    hide Moving, Kept, KeptLiteral;
    r, w := start, at;
    Reads(json[..], was, s, r, w, KeptLiteral(s, r));
    while json[r] != NUL && json[r] != '"'
      invariant start <= r <= |s| && Moving(json[..], was, s, r, w, KeptLiteral(s, r))
      invariant r < json.Length && json[r] == At(s, r)
      decreases |s| - r
    {
      if json[r] == '\\' {
        if r + 1 < |s| { LiteralTwo(s, r); } else { LiteralOne(s, r); }
        ghost var after := if r + 1 < |s| then [s[r + 1]] + KeptLiteral(s, r + 2) else KeptLiteral(s, r + 1);
        CopyByte(json, r, w, was, s, KeptLiteral(s, r), after);
        r, w := r + 1, w + 1;
        if json[r] != NUL {
          CopyByte(json, r, w, was, s, after, KeptLiteral(s, r + 1));
          r, w := r + 1, w + 1;
        }
      } else {
        LiteralOne(s, r);
        CopyByte(json, r, w, was, s, KeptLiteral(s, r), KeptLiteral(s, r + 1));
        r, w := r + 1, w + 1;
      }
    }
    if json[r] != NUL {
      LiteralClose(s, r);
      CopyByte(json, r, w, was, s, KeptLiteral(s, r), Kept(s, r + 1));
      r, w := r + 1, w + 1;
    } else {
      NothingLeft(s);
    }
  }

  lemma NothingLeft(s: string)
    ensures Kept(s, |s|) == KeptLiteral(s, |s|) == ""
  {
  }

  method SkipLine(json: array<char>, start: nat, w: nat, ghost was: seq<char>, ghost s: string, ghost rest: string) returns (r: nat)
    requires NulFree(s) && start < |s| && s[start] != '\n' && Moving(json[..], was, s, start, w, rest)
    ensures r == LineEnd(s, start + 1) && Moving(json[..], was, s, r, w, rest)
  {
    hide Moving;
    r := start;
    Reads(json[..], was, s, r, w, rest);
    while json[r] != NUL && json[r] != '\n'
      invariant start <= r <= |s| && Moving(json[..], was, s, r, w, rest) && r < json.Length && json[r] == At(s, r)
      invariant LineEnd(s, start + 1) == LineEnd(s, r)
      decreases |s| - r
    {
      Jump(json[..], was, s, r, w, rest, r + 1);
      r := r + 1;
      Reads(json[..], was, s, r, w, rest);
    }
  }

  method SkipComment(json: array<char>, start: nat, w: nat, ghost was: seq<char>, ghost s: string, ghost rest: string) returns (r: nat)
    requires NulFree(s) && start <= |s| && Moving(json[..], was, s, start, w, rest)
    ensures r == CommentEnd(s, start) && Moving(json[..], was, s, r, w, rest)
  {
    hide Moving;
    r := start;
    Reads(json[..], was, s, r, w, rest);
    while json[r] != NUL && !(json[r] == '*' && json[r + 1] == '/')
      invariant start <= r <= |s| && Moving(json[..], was, s, r, w, rest)
      invariant r < json.Length && json[r] == At(s, r) && (r < |s| ==> r + 1 < json.Length && json[r + 1] == At(s, r + 1))
      invariant CommentEnd(s, start) == CommentEnd(s, r)
      decreases |s| - r
    {
      Jump(json[..], was, s, r, w, rest, r + 1);
      r := r + 1;
      Reads(json[..], was, s, r, w, rest);
    }
    if json[r] != NUL {
      Jump(json[..], was, s, r, w, rest, r + 2);
      r := r + 2;
    }
  }

  /** One turn of the main loop, at a byte that is not the terminator. */
  method Turn(json: array<char>, at: nat, to: nat, ghost was: seq<char>, ghost s: string) returns (r: nat, w: nat)
    requires NulFree(s) && at < |s| && Moving(json[..], was, s, at, to, Kept(s, at))
    modifies json
    ensures at < r <= |s| && Moving(json[..], was, s, r, w, Kept(s, r))
  {
    hide Moving;
    r, w := at, to;
    Reads(json[..], was, s, r, w, Kept(s, r));
    if json[r] == ' ' || json[r] == '\t' || json[r] == '\r' || json[r] == '\n' {
      Jump(json[..], was, s, r, w, Kept(s, r), r + 1);
      r := r + 1;
    } else if json[r] == '/' && json[r + 1] == '/' {
      r := SkipLine(json, r, w, was, s, Kept(s, r));
    } else if json[r] == '/' && json[r + 1] == '*' {
      r := SkipComment(json, r, w, was, s, Kept(s, r));
    } else if json[r] == '"' {
      CopyByte(json, r, w, was, s, Kept(s, r), KeptLiteral(s, r + 1));
      r, w := CopyLiteral(json, r + 1, w + 1, was, s);
    } else {
      CopyByte(json, r, w, was, s, Kept(s, r), Kept(s, r + 1));
      r, w := r + 1, w + 1;
    }
  }

  /** The buffer's text is minified where it stands. */
  method Minify(json: array<char>)
    requires NUL in json[..]
    modifies json
    ensures NUL in json[..] && TextIn(json[..]) == Minified(TextIn(old(json[..])))
  {
    hide Moving;
    ghost var was := json[..];
    ghost var s := TextIn(was);
    var r: nat, w: nat := 0, 0;
    Begin(was, s);
    Reads(json[..], was, s, r, w, Kept(s, r));
    while json[r] != NUL
      invariant r <= |s| && Moving(json[..], was, s, r, w, Kept(s, r)) && r < json.Length && json[r] == At(s, r)
      decreases |s| - r
    {
      r, w := Turn(json, r, w, was, s);
      Reads(json[..], was, s, r, w, Kept(s, r));
    }
    End(json[..], was, s, w);
    json[w] := NUL;
  }

  lemma Begin(was: seq<char>, s: string)
    requires |s| < |was| && s == was[..|s|] && was[|s|] == NUL
    ensures Moving(was, was, s, 0, 0, Kept(s, 0))
  {
  }

  lemma End(now: seq<char>, was: seq<char>, s: string, w: nat)
    requires NulFree(s) && Moving(now, was, s, |s|, w, "")
    ensures w < |now| && NUL in now[w := NUL] && TextIn(now[w := NUL]) == Minified(s)
  {
    KeptNulFree(s, 0);
    TextInIs(now[w := NUL], Minified(s));
  }

  // ---------- minifying a rendering ----------

  predicate AllSolid(w: string) { forall k | 0 <= k < |w| :: Solid(w[k]) }

  lemma {:induction false} KeptSolid(s: string, i: nat, w: string)
    requires Has(s, i, w) && AllSolid(w)
    ensures i + |w| <= |s| && Kept(s, i) == w + Kept(s, i + |w|)
    decreases |w|
  {
    hide Kept, Has;
    HasLength(s, i, w);
    if w != [] {
      HasAt(s, i, w, 0);
      var v := w[1..];
      assert w == [w[0]] + v;
      HasParts(s, i, [w[0]], v);
      KeptOne(s, i);
      KeptSolid(s, i + 1, v);
      Joined(w[0], v, Kept(s, i + |w|));
    }
  }

  lemma Joined(c: char, v: string, rest: string)
    ensures [c] + (v + rest) == ([c] + v) + rest
  {
  }

  predicate AllSpace(w: string) { forall k | 0 <= k < |w| :: Space(w[k]) }

  lemma {:induction false} KeptSpace(s: string, i: nat, w: string)
    requires Has(s, i, w) && AllSpace(w)
    ensures i + |w| <= |s| && Kept(s, i) == Kept(s, i + |w|)
    decreases |w|
  {
    hide Kept, Has;
    HasLength(s, i, w);
    if w != [] {
      HasAt(s, i, w, 0);
      assert w == [w[0]] + w[1..];
      HasParts(s, i, [w[0]], w[1..]);
      KeptBlank(s, i);
      KeptSpace(s, i + 1, w[1..]);
    }
  }

  lemma {:induction false} TabsSpace(n: int)
    ensures AllSpace(Tabs(n)) && AllSpace("\n" + Tabs(n)) && AllSpace("\t") && AllSpace(" ") && AllSpace("\n")
  {
    if n > 0 { TabsSpace(n - 1); }
  }

  lemma KeptIf(s: string, i: nat, b: bool, w: string)
    requires Has(s, i, If(b, w)) && AllSpace(w)
    ensures i + |If(b, w)| <= |s| && Kept(s, i) == Kept(s, i + |If(b, w)|)
  {
    KeptSpace(s, i, If(b, w));
  }

  /** Bytes of a literal that are neither quotes nor backslashes. */
  lemma {:induction false} KeptInside(s: string, i: nat, w: string)
    requires Has(s, i, w) && forall k | 0 <= k < |w| :: w[k] != '"' && w[k] != '\\'
    ensures i + |w| <= |s| && KeptLiteral(s, i) == w + KeptLiteral(s, i + |w|)
    decreases |w|
  {
    hide Kept, KeptLiteral, Has;
    HasLength(s, i, w);
    if w != [] {
      HasAt(s, i, w, 0);
      var v := w[1..];
      assert w == [w[0]] + v;
      HasParts(s, i, [w[0]], v);
      LiteralOne(s, i);
      KeptInside(s, i + 1, v);
      Joined(w[0], v, KeptLiteral(s, i + |w|));
    }
  }

  lemma KeptEscaped(s: string, i: nat, c: char)
    requires c != NUL && Has(s, i, Escaped(c))
    ensures i + |Escaped(c)| <= |s| && KeptLiteral(s, i) == Escaped(c) + KeptLiteral(s, i + |Escaped(c)|)
  {
    hide Kept, KeptLiteral, Has;
    var w := Escaped(c);
    HasLength(s, i, w);
    if |w| == 1 {
      KeptInside(s, i, w);
    } else {
      var v := w[2..];
      HasAt(s, i, w, 0);
      HasAt(s, i, w, 1);
      assert w == [w[0], w[1]] + v;
      HasParts(s, i, [w[0], w[1]], v);
      LiteralTwo(s, i);
      assert |w| == 6 ==> IsHex(w[4]) && IsHex(w[5]);
      KeptInside(s, i + 2, v);
      Joined(w[1], v, KeptLiteral(s, i + |w|));
      Joined(w[0], [w[1]] + v, KeptLiteral(s, i + |w|));
      assert w == [w[0]] + ([w[1]] + v);
    }
  }

  lemma {:induction false} KeptEscape(s: string, i: nat, v: string)
    requires NulFree(v) && Has(s, i, Escape(v))
    ensures i + |Escape(v)| <= |s| && KeptLiteral(s, i) == Escape(v) + KeptLiteral(s, i + |Escape(v)|)
    decreases |v|
  {
    hide Kept, KeptLiteral, Escaped, NulFree;
    if v != [] {
      NulFreeTail(v);
      HasParts(s, i, Escaped(v[0]), Escape(v[1..]));
      KeptEscaped(s, i, v[0]);
      KeptEscape(s, i + |Escaped(v[0])|, v[1..]);
    }
  }

  /** String literals are kept whole. */
  lemma KeptQuoted(s: string, i: nat, v: string)
    requires NulFree(v) && Has(s, i, Quoted(v))
    ensures i + |Quoted(v)| <= |s| && Kept(s, i) == Quoted(v) + Kept(s, i + |Quoted(v)|)
  {
    hide Escape, NulFree, Kept, KeptLiteral, Has;
    HasLength(s, i, Quoted(v));
    var e, rest := Escape(v), Kept(s, i + |Quoted(v)|);
    assert Quoted(v) == "\"" + (e + "\"");
    HasParts(s, i, "\"", e + "\"");
    HasParts(s, i + 1, e, "\"");
    HasAt(s, i, "\"", 0);
    HasAt(s, i + 1 + |e|, "\"", 0);
    KeptOpen(s, i);
    KeptEscape(s, i + 1, v);
    LiteralClose(s, i + 1 + |e|);
    assert ['"'] + (e + (['"'] + rest)) == ("\"" + (e + "\"")) + rest;
  }

  lemma {:induction false} DigitsSolid(n: nat)
    ensures AllSolid(Digits(n))
  {
    if n >= 10 { DigitsSolid(n / 10); }
  }

  lemma DecimalSolid(v: int)
    ensures AllSolid(Decimal(v))
  {
    DigitsSolid(if v < 0 then -v else v);
  }

  /** Two stretches of text, one after the other. */
  lemma KeptJoined(s: string, i: nat, j: nat, k: nat, a: string, b: string)
    requires i <= j <= k <= |s| && Kept(s, i) == a + Kept(s, j) && Kept(s, j) == b + Kept(s, k)
    ensures Kept(s, i) == (a + b) + Kept(s, k)
  {
    hide Kept;
    assert a + (b + Kept(s, k)) == (a + b) + Kept(s, k);
  }

  /** A single byte that is kept. */
  lemma KeptByte(s: string, i: nat, c: char)
    requires Has(s, i, [c]) && Solid(c)
    ensures i + 1 <= |s| && Kept(s, i) == [c] + Kept(s, i + 1)
  {
    hide Kept;
    KeptSolid(s, i, [c]);
  }

  /** A rendering in a text is kept as the unformatted rendering, whatever follows. */
  lemma {:induction false} KeptValue(s: string, i: nat, t: Json, depth: nat, fmt: bool)
    requires Printable(t) && Has(s, i, Render(t, depth, fmt))
    ensures i + |Render(t, depth, fmt)| <= |s|
    ensures Kept(s, i) == Render(t, depth, false) + Kept(s, i + |Render(t, depth, fmt)|)
    decreases t, 0
  {
    hide Kept, Has, Quoted, Decimal, RenderItems, RenderMembers, Tabs;
    match t
    case Null => KeptSolid(s, i, "null");
    case False => KeptSolid(s, i, "false");
    case True => KeptSolid(s, i, "true");
    case Number(v) => DecimalSolid(v); KeptSolid(s, i, Decimal(v));
    case String(v) => KeptQuoted(s, i, v);
    case Array(items) => KeptArray(s, i, items, depth, fmt);
    case Object(ms) => KeptObject(s, i, ms, depth, fmt);
  }

  lemma {:induction false} KeptArray(s: string, i: nat, items: seq<Json>, depth: nat, fmt: bool)
    requires PrintableItems(items) && Has(s, i, Render(Array(items), depth, fmt))
    ensures i + |Render(Array(items), depth, fmt)| <= |s|
    ensures Kept(s, i) == Render(Array(items), depth, false) + Kept(s, i + |Render(Array(items), depth, fmt)|)
    decreases items, 2
  {
    hide Kept, Has, RenderItems;
    var body, plain := RenderItems(items, depth + 1, fmt), RenderItems(items, depth + 1, false);
    assert Render(Array(items), depth, fmt) == "[" + (body + "]");
    HasParts(s, i, "[", body + "]");
    HasParts(s, i + 1, body, "]");
    var k := i + 1 + |body|;
    KeptByte(s, i, '[');
    KeptItems(s, i + 1, items, depth + 1, fmt);
    KeptByte(s, k, ']');
    KeptJoined(s, i, i + 1, k, "[", plain);
    KeptJoined(s, i, k, k + 1, "[" + plain, "]");
  }

  lemma {:induction false} KeptItems(s: string, i: nat, items: seq<Json>, depth: nat, fmt: bool)
    requires PrintableItems(items) && Has(s, i, RenderItems(items, depth, fmt))
    ensures i + |RenderItems(items, depth, fmt)| <= |s|
    ensures Kept(s, i) == RenderItems(items, depth, false) + Kept(s, i + |RenderItems(items, depth, fmt)|)
    decreases items, 1
  {
    hide Kept, Has, Render, ItemsTail;
    HasLength(s, i, RenderItems(items, depth, fmt));
    if items != [] {
      var v, tail := Render(items[0], depth, fmt), ItemsTail(items, depth, fmt);
      HasParts(s, i, v, tail);
      KeptValue(s, i, items[0], depth, fmt);
      KeptItemsTail(s, i + |v|, items, depth, fmt);
      KeptJoined(s, i, i + |v|, i + |v| + |tail|, Render(items[0], depth, false), ItemsTail(items, depth, false));
    }
  }

  lemma {:induction false} KeptItemsTail(s: string, k: nat, items: seq<Json>, depth: nat, fmt: bool)
    requires items != [] && PrintableItems(items) && Has(s, k, ItemsTail(items, depth, fmt))
    ensures k + |ItemsTail(items, depth, fmt)| <= |s|
    ensures Kept(s, k) == ItemsTail(items, depth, false) + Kept(s, k + |ItemsTail(items, depth, fmt)|)
    decreases items, 0
  {
    hide Kept, Has, RenderItems, If;
    HasLength(s, k, ItemsTail(items, depth, fmt));
    if |items| > 1 {
      var gap, more, plain := If(fmt, " "), RenderItems(items[1..], depth, fmt), RenderItems(items[1..], depth, false);
      HasParts(s, k, ",", gap + more);
      HasParts(s, k + 1, gap, more);
      KeptByte(s, k, ',');
      TabsSpace(0);
      KeptIf(s, k + 1, fmt, " ");
      KeptItems(s, k + 1 + |gap|, items[1..], depth, fmt);
      KeptJoined(s, k, k + 1, k + 1 + |gap| + |more|, ",", plain);
      Unspaced(plain);
    }
  }

  lemma Unspaced(w: string)
    ensures forall v: string :: If(false, v) + w == w
  {
  }

  lemma {:induction false} KeptObject(s: string, i: nat, ms: seq<Member>, depth: nat, fmt: bool)
    requires PrintableMembers(ms) && Has(s, i, Render(Object(ms), depth, fmt))
    ensures i + |Render(Object(ms), depth, fmt)| <= |s|
    ensures Kept(s, i) == Render(Object(ms), depth, false) + Kept(s, i + |Render(Object(ms), depth, fmt)|)
    decreases ms, 4
  {
    hide Kept, Has, Render;
    if ms == [] { KeptEmptyObject(s, i, depth, fmt); } else { KeptFilledObject(s, i, ms, depth, fmt); }
  }

  lemma KeptEmptyObject(s: string, i: nat, depth: nat, fmt: bool)
    requires Has(s, i, Render(Object([]), depth, fmt))
    ensures i + |Render(Object([]), depth, fmt)| <= |s|
    ensures Kept(s, i) == Render(Object([]), depth, false) + Kept(s, i + |Render(Object([]), depth, fmt)|)
  {
    hide Kept, Has, Tabs, If;
    var inner := "\n" + Tabs(depth - 1);
    var gap := If(fmt, inner);
    HasParts(s, i, "{", gap + "}");
    HasParts(s, i + 1, gap, "}");
    KeptByte(s, i, '{');
    TabsSpace(depth - 1);
    KeptIf(s, i + 1, fmt, inner);
    KeptByte(s, i + 1 + |gap|, '}');
    KeptJoined(s, i, i + 1, i + 2 + |gap|, "{", "}");
    Unspaced("}");
  }

  lemma {:induction false} KeptFilledObject(s: string, i: nat, ms: seq<Member>, depth: nat, fmt: bool)
    requires ms != [] && PrintableMembers(ms) && Has(s, i, Render(Object(ms), depth, fmt))
    ensures i + |Render(Object(ms), depth, fmt)| <= |s|
    ensures Kept(s, i) == Render(Object(ms), depth, false) + Kept(s, i + |Render(Object(ms), depth, fmt)|)
    decreases ms, 3
  {
    hide Kept, Has, RenderMembers, Tabs, If;
    var newline, body, close := If(fmt, "\n"), RenderMembers(ms, depth + 1, fmt), If(fmt, Tabs(depth)) + "}";
    HasParts(s, i, "{", newline + (body + close));
    HasParts(s, i + 1, newline, body + close);
    var a := i + 1 + |newline|;
    KeptByte(s, i, '{');
    TabsSpace(depth);
    KeptIf(s, i + 1, fmt, "\n");
    KeptBody(s, a, ms, depth, fmt);
    KeptJoined(s, i, i + 1, a + |body + close|, "{", RenderMembers(ms, depth + 1, false) + "}");
    PlainObject(ms, depth);
  }

  lemma {:induction false} KeptBody(s: string, a: nat, ms: seq<Member>, depth: nat, fmt: bool)
    requires PrintableMembers(ms) && Has(s, a, RenderMembers(ms, depth + 1, fmt) + (If(fmt, Tabs(depth)) + "}"))
    ensures var w := RenderMembers(ms, depth + 1, fmt) + (If(fmt, Tabs(depth)) + "}");
            && a + |w| <= |s| && Kept(s, a) == (RenderMembers(ms, depth + 1, false) + "}") + Kept(s, a + |w|)
    decreases ms, 2
  {
    hide Kept, Has, RenderMembers, Tabs, If;
    var body, indent := RenderMembers(ms, depth + 1, fmt), If(fmt, Tabs(depth));
    HasParts(s, a, body, indent + "}");
    var b := a + |body|;
    HasParts(s, b, indent, "}");
    TabsSpace(depth);
    KeptMembers(s, a, ms, depth + 1, fmt);
    KeptIf(s, b, fmt, Tabs(depth));
    KeptByte(s, b + |indent|, '}');
    KeptJoined(s, a, b, b + |indent| + 1, RenderMembers(ms, depth + 1, false), "}");
  }

  lemma PlainObject(ms: seq<Member>, depth: nat)
    requires ms != []
    ensures Render(Object(ms), depth, false) == "{" + (RenderMembers(ms, depth + 1, false) + "}")
  {
    hide RenderMembers, Tabs;
    Unspaced(RenderMembers(ms, depth + 1, false) + (If(false, Tabs(depth)) + "}"));
    Unspaced("}");
  }

  lemma {:induction false} KeptMembers(s: string, i: nat, ms: seq<Member>, depth: nat, fmt: bool)
    requires PrintableMembers(ms) && Has(s, i, RenderMembers(ms, depth, fmt))
    ensures i + |RenderMembers(ms, depth, fmt)| <= |s|
    ensures Kept(s, i) == RenderMembers(ms, depth, false) + Kept(s, i + |RenderMembers(ms, depth, fmt)|)
    decreases ms, 1
  {
    hide Kept, Has, RenderMember, MembersTail;
    HasLength(s, i, RenderMembers(ms, depth, fmt));
    if ms != [] {
      var v, tail := RenderMember(ms[0], depth, fmt), MembersTail(ms, depth, fmt);
      HasParts(s, i, v, tail);
      KeptMember(s, i, ms[0], depth, fmt);
      KeptMembersTail(s, i + |v|, ms, depth, fmt);
      KeptJoined(s, i, i + |v|, i + |v| + |tail|, RenderMember(ms[0], depth, false), MembersTail(ms, depth, false));
    }
  }

  lemma {:induction false} KeptMembersTail(s: string, k: nat, ms: seq<Member>, depth: nat, fmt: bool)
    requires ms != [] && PrintableMembers(ms) && Has(s, k, MembersTail(ms, depth, fmt))
    ensures k + |MembersTail(ms, depth, fmt)| <= |s|
    ensures Kept(s, k) == MembersTail(ms, depth, false) + Kept(s, k + |MembersTail(ms, depth, fmt)|)
    decreases ms, 0
  {
    hide Kept, Has, RenderMembers, If;
    var comma, newline := If(|ms| > 1, ","), If(fmt, "\n");
    var more, plain := RenderMembers(ms[1..], depth, fmt), RenderMembers(ms[1..], depth, false);
    HasParts(s, k, comma, newline + more);
    HasParts(s, k + |comma|, newline, more);
    KeptSolid(s, k, comma) by { OneComma(|ms| > 1); }
    TabsSpace(0);
    KeptIf(s, k + |comma|, fmt, "\n");
    KeptMembers(s, k + |comma| + |newline|, ms[1..], depth, fmt);
    KeptJoined(s, k, k + |comma|, k + |comma| + |newline| + |more|, comma, plain);
    Unspaced(plain);
  }

  lemma OneComma(b: bool)
    ensures AllSolid(If(b, ","))
  {
  }

  lemma {:induction false} KeptMember(s: string, i: nat, m: Member, depth: nat, fmt: bool)
    requires NulFree(m.name) && Printable(m.value) && Has(s, i, RenderMember(m, depth, fmt))
    ensures i + |RenderMember(m, depth, fmt)| <= |s|
    ensures Kept(s, i) == RenderMember(m, depth, false) + Kept(s, i + |RenderMember(m, depth, fmt)|)
    decreases m, 1
  {
    hide Kept, Has, Render, Quoted, Tabs, If;
    var a, b, k := MemberParts(s, i, m, depth, fmt);
    var q, v := Quoted(m.name), Render(m.value, depth, false);
    var e := i + |RenderMember(m, depth, fmt)|;
    TabsSpace(depth);
    KeptIf(s, i, fmt, Tabs(depth));
    KeptQuoted(s, a, m.name);
    KeptByte(s, b, ':');
    KeptIf(s, b + 1, fmt, "\t");
    KeptValue(s, k, m.value, depth, fmt);
    KeptJoined(s, b, b + 1, e, ":", v);
    KeptJoined(s, i, b, e, q, ":" + v);
    PlainMember(m, depth);
  }

  lemma PlainMember(m: Member, depth: nat)
    ensures RenderMember(m, depth, false) == Quoted(m.name) + (":" + Render(m.value, depth, false))
  {
    hide Quoted, Render;
    Unspaced(Render(m.value, depth, false));
    Unspaced(Quoted(m.name) + (":" + Render(m.value, depth, false)));
  }

  /** Minifying a formatted rendering gives the unformatted one, byte for byte; minifying the latter changes nothing. */
  lemma MinifiedRendering(t: Json, depth: nat, fmt: bool)
    requires Printable(t)
    ensures Minified(Render(t, depth, fmt)) == Render(t, depth, false)
  {
    var s := Render(t, depth, fmt);
    KeptValue(s, 0, t, depth, fmt);
    NothingLeft(s);
  }
}
