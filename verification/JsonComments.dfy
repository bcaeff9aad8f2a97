/**
 Minifying a text taken apart: blanks and comments of both kinds go, string literals
 and all other bytes stay, in their order.
 */
module JsonComments {
  import opened JsonText
  import opened JsonMinify

  datatype Piece =
    | Blank(c: char)
    | LineComment(body: string)      // with the line's end
    | BlockComment(body: string)
    | Quote(body: string)            // a string literal
    | Kept1(c: char)                 // any other byte

  /** No end of line inside. */
  predicate OneLine(body: string) { '\n' !in body }

  /**
   The comment ends at its end mark and not before. The byte that opens it counts:
   a slash directly behind it already closes it.
   */
  predicate EndsLast(body: string) {
    var w := "*" + body + "*/";
    forall k | 0 <= k <= |body| :: !(w[k] == '*' && w[k + 1] == '/')
  }

  /** Inside a literal: every quote is escaped, and the last backslash escapes something. */
  predicate Inside(body: string) {
    body == "" || (if body[0] == '\\' then |body| > 1 && Inside(body[2..]) else body[0] != '"' && Inside(body[1..]))
  }

  function PieceText(p: Piece): string {
    match p
    case Blank(c) => [c]
    case LineComment(body) => "//" + (body + "\n")
    case BlockComment(body) => "/*" + (body + "*/")
    case Quote(body) => "\"" + (body + "\"")
    case Kept1(c) => [c]
  }

  function Texts(pieces: seq<Piece>): string {
    if pieces == [] then "" else PieceText(pieces[0]) + Texts(pieces[1..])
  }

  function Left(pieces: seq<Piece>): string {
    if pieces == [] then ""
    else (if pieces[0].Quote? || pieces[0].Kept1? then PieceText(pieces[0]) else "") + Left(pieces[1..])
  }

  predicate ProperPiece(p: Piece) {
    match p
    case Blank(c) => c in " \t\r\n"
    case LineComment(body) => OneLine(body)
    case BlockComment(body) => EndsLast(body)
    case Quote(body) => Inside(body)
    case Kept1(c) => c !in " \t\r\n" && c != '"'
  }

  /** A single slash does not stand before what would make it a comment; `end` is what stands behind the pieces. */
  predicate ProperPieces(pieces: seq<Piece>, end: string) {
    pieces == []
    || (&& ProperPiece(pieces[0]) && ProperPieces(pieces[1..], end)
        && (pieces[0] == Kept1('/') ==> var rest := Texts(pieces[1..]) + end; rest == "" || (rest[0] != '/' && rest[0] != '*')))
  }

  lemma LineEndIs(s: string, i: nat, n: nat)
    requires i <= n <= |s| && (n == |s| || s[n] == '\n') && forall k | i <= k < n :: s[k] != '\n'
    ensures LineEnd(s, i) == n
    decreases n - i
  {
    if i < n { LineEndIs(s, i + 1, n); }
  }

  lemma CommentEndIs(s: string, i: nat, n: nat)
    requires i <= n && n + 1 < |s| && s[n] == '*' && s[n + 1] == '/' && forall k | i <= k < n :: !(s[k] == '*' && s[k + 1] == '/')
    ensures CommentEnd(s, i) == n + 2
    decreases n - i
  {
    if i < n { CommentEndIs(s, i + 1, n); }
  }

  lemma HasEvery(s: string, i: nat, w: string)
    requires Has(s, i, w)
    ensures i + |w| <= |s| && forall k | 0 <= k < |w| :: s[i + k] == w[k]
  {
    forall k | 0 <= k < |w| ensures s[i + k] == w[k] {
      HasAt(s, i, w, k);
    }
  }

  lemma LineGoes(s: string, i: nat, body: string, last: bool)
    requires OneLine(body) && Has(s, i, "//" + (body + if last then "" else "\n")) && (last ==> i + 2 + |body| == |s|)
    ensures i + 2 + |body| <= |s| && Kept(s, i) == Kept(s, i + 2 + |body| + if last then 0 else 1)
  {
    var w := "//" + (body + if last then "" else "\n");
    HasEvery(s, i, w);
    var n := i + 2 + |body|;
    forall k | i + 1 <= k < n ensures s[k] != '\n' {
      assert s[k] == w[k - i];
      if k >= i + 2 { assert w[k - i] == body[k - i - 2]; }
    }
    assert s[i] == w[0] && s[i + 1] == w[1];
    if !last { assert s[n] == w[|w| - 1]; }
    LineEndIs(s, i + 1, n);
  }

  lemma BlockGoes(s: string, i: nat, body: string)
    requires EndsLast(body) && Has(s, i, "/*" + (body + "*/"))
    ensures i + |body| + 4 <= |s| && Kept(s, i) == Kept(s, i + |body| + 4)
  {
    hide Kept, EndsLast;
    HasEvery(s, i, "/*" + (body + "*/"));
    BlockBytes(s, i, body);
    CommentEndIs(s, i, i + 2 + |body|);
    CommentGoes(s, i);
  }

  lemma CommentGoes(s: string, i: nat)
    requires i < |s| && s[i] == '/' && At(s, i + 1) == '*'
    ensures Kept(s, i) == Kept(s, CommentEnd(s, i))
  {
  }

  /** The comment's bytes: its marks, and no end mark before the last. */
  lemma BlockBytes(s: string, i: nat, body: string)
    requires EndsLast(body) && i + |body| + 4 <= |s|
    requires var w := "/*" + (body + "*/"); forall k | 0 <= k < |w| :: s[i + k] == w[k]
    ensures s[i] == '/' && s[i + 1] == '*' && s[i + 2 + |body|] == '*' && s[i + 3 + |body|] == '/'
    ensures forall k | i <= k < i + 2 + |body| :: !(s[k] == '*' && s[k + 1] == '/')
  {
    var w, v := "/*" + (body + "*/"), "*" + body + "*/";
    assert s[i + 0] == w[0] && s[i + 1] == w[1] && s[i + (2 + |body|)] == w[2 + |body|] && s[i + (3 + |body|)] == w[3 + |body|];
    forall k | i <= k < i + 2 + |body| ensures !(s[k] == '*' && s[k + 1] == '/') {
      if k > i {
        var n := k - i;
        assert s[i + n] == w[n] && s[i + (n + 1)] == w[n + 1];
        assert w[n] == v[n - 1] && w[n + 1] == v[n];
      }
    }
  }

  /** A literal passes from its inside to its closing quote. */
  lemma {:induction false} InsideStays(s: string, i: nat, body: string)
    requires Inside(body) && i <= |s| && Has(s, i, body + "\"")
    ensures i + |body| + 1 <= |s| && KeptLiteral(s, i) == (body + "\"") + Kept(s, i + |body| + 1)
    decreases |body|
  {
    hide Kept, KeptLiteral;
    HasEvery(s, i, body + "\"");
    if body == "" {
      assert s[i] == '"';
      LiteralClose(s, i);
    } else if body[0] == '\\' {
      assert s[i] == (body + "\"")[0] && s[i + 1] == (body + "\"")[1];
      assert body + "\"" == [body[0], body[1]] + (body[2..] + "\"");
      HasParts(s, i, [body[0], body[1]], body[2..] + "\"");
      InsideStays(s, i + 2, body[2..]);
      LiteralTwo(s, i);
      var k := Kept(s, i + |body| + 1);
      assert [body[0]] + ([body[1]] + ((body[2..] + "\"") + k)) == (body + "\"") + k;
    } else {
      assert s[i] == (body + "\"")[0];
      assert body + "\"" == [body[0]] + (body[1..] + "\"");
      HasParts(s, i, [body[0]], body[1..] + "\"");
      InsideStays(s, i + 1, body[1..]);
      LiteralOne(s, i);
      var k := Kept(s, i + |body| + 1);
      assert [body[0]] + ((body[1..] + "\"") + k) == (body + "\"") + k;
    }
  }

  lemma QuoteStays(s: string, i: nat, body: string)
    requires Inside(body) && i < |s| && Has(s, i, "\"" + (body + "\""))
    ensures i + |body| + 2 <= |s| && Kept(s, i) == ("\"" + (body + "\"")) + Kept(s, i + |body| + 2)
  {
    hide Kept, KeptLiteral;
    HasEvery(s, i, "\"" + (body + "\""));
    assert s[i] == '"';
    HasParts(s, i, "\"", body + "\"");
    KeptOpen(s, i);
    InsideStays(s, i + 1, body);
    var k := Kept(s, i + |body| + 2);
    assert ['"'] + ((body + "\"") + k) == ("\"" + (body + "\"")) + k;
  }

  lemma ByteStays(s: string, i: nat, c: char, rest: string)
    requires c !in " \t\r\n" && c != '"' && Has(s, i, [c] + rest) && i + 1 + |rest| == |s|
    requires c == '/' ==> rest == "" || (rest[0] != '/' && rest[0] != '*')
    ensures Kept(s, i) == [c] + Kept(s, i + 1)
  {
    HasEvery(s, i, [c] + rest);
    assert s[i] == ([c] + rest)[0];
    if rest != "" { assert s[i + 1] == ([c] + rest)[1]; }
    assert ' ' in " \t\r\n" && '\t' in " \t\r\n" && '\r' in " \t\r\n" && '\n' in " \t\r\n";
  }

  /** One piece. */
  lemma PieceKept(s: string, i: nat, p: Piece, rest: string)
    requires ProperPiece(p) && Has(s, i, PieceText(p) + rest) && i + |PieceText(p)| + |rest| == |s|
    requires p == Kept1('/') ==> rest == "" || (rest[0] != '/' && rest[0] != '*')
    ensures Kept(s, i) == (if p.Quote? || p.Kept1? then PieceText(p) else "") + Kept(s, i + |PieceText(p)|)
  {
    hide Kept, OneLine, EndsLast, Inside;
    HasParts(s, i, PieceText(p), rest);
    HasEvery(s, i, PieceText(p));
    match p
    case Blank(c) =>
      assert s[i] == [c][0];
      KeptBlank(s, i);
    case LineComment(body) => LineGoes(s, i, body, false);
    case BlockComment(body) => BlockGoes(s, i, body);
    case Quote(body) => QuoteStays(s, i, body);
    case Kept1(c) => ByteStays(s, i, c, rest);
  }

  lemma {:induction false} PiecesKept(s: string, i: nat, pieces: seq<Piece>, end: string)
    requires ProperPieces(pieces, end) && Has(s, i, Texts(pieces) + end) && i + |Texts(pieces)| + |end| == |s|
    ensures Kept(s, i) == Left(pieces) + Kept(s, i + |Texts(pieces)|)
    decreases |pieces|
  {
    hide Kept, PieceText, ProperPiece, Has;
    if pieces == [] {
      assert Left(pieces) + Kept(s, i) == Kept(s, i);
    } else {
      var w, rest := PieceText(pieces[0]), Texts(pieces[1..]) + end;
      assert Texts(pieces) + end == w + rest;
      PieceKept(s, i, pieces[0], rest);
      HasParts(s, i, w, rest);
      PiecesKept(s, i + |w|, pieces[1..], end);
      var a := if pieces[0].Quote? || pieces[0].Kept1? then w else "";
      assert a + (Left(pieces[1..]) + Kept(s, i + |Texts(pieces)|)) == Left(pieces) + Kept(s, i + |Texts(pieces)|);
    }
  }

  /** `cJSON_Minify` of any such text: the literals and the other bytes are left, in their order. */
  lemma MinifiedText(pieces: seq<Piece>, end: string)
    requires ProperPieces(pieces, end) && (end == "" || (|end| >= 2 && end[..2] == "//" && OneLine(end[2..])))
    ensures Minified(Texts(pieces) + end) == Left(pieces)
  {
    hide Kept, PieceText, OneLine, Texts, Left, ProperPieces, Has;
    var s := Texts(pieces) + end;
    WholeHas(s);
    PiecesKept(s, 0, pieces, end);
    HasParts(s, 0, Texts(pieces), end);
    NothingKept(s);
    if end != "" { LastLineGoes(s, |Texts(pieces)|, end); }
    assert Left(pieces) + "" == Left(pieces);
  }

  /** A slash directly behind the mark that opens a comment closes it. */
  lemma SlashCloses(s: string, i: nat)
    requires Has(s, i, "/*/")
    ensures i + 3 <= |s| && Kept(s, i) == Kept(s, i + 3)
  {
    HasEvery(s, i, "/*/");
    assert s[i] == "/*/"[0] && s[i + 1] == "/*/"[1] && s[i + 2] == "/*/"[2];
    CommentEndIs(s, i, i + 1);
  }

  lemma WholeHas(s: string)
    ensures Has(s, 0, s)
  {
  }

  lemma LastLineGoes(s: string, n: nat, end: string)
    requires |end| >= 2 && end[..2] == "//" && OneLine(end[2..]) && Has(s, n, end) && n + |end| == |s|
    ensures Kept(s, n) == ""
  {
    hide Kept, OneLine;
    assert end == "//" + (end[2..] + "");
    LineGoes(s, n, end[2..], true);
    NothingKept(s);
  }

  lemma NothingKept(s: string)
    ensures Kept(s, |s|) == ""
  {
  }
}
