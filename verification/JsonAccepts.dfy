/**
 What the reader accepts, the other direction: a text it reads as a tree is laid out
 as that tree, with blanks only between the tokens. It takes more than the grammar
 does (any control byte as a blank, bad escapes, a literal that the end of the text
 ends), and these freedoms are spelt out here.
 */
module JsonAccepts {
  import opened JsonText
  import opened JsonTree

  // ---------- layouts ----------

  /** Only blanks from a up to b. */
  predicate Blanks(s: string, a: nat, b: nat) {
    a <= b <= |s| && forall k | a <= k < b :: Blank(s[k])
  }

  function Decimals(s: string, a: nat, b: nat): int
    requires a <= b <= |s|
    decreases b
  {
    if a == b then 0 else Decimals(s, a, b - 1) * 10 + (s[b - 1] as int - '0' as int)
  }

  /** An optional minus sign and digits from i up to k, with this value; the digits may be missing behind a sign, and one zero may lead. */
  predicate NumberLaid(s: string, i: nat, k: nat, v: int) {
    && i < k <= |s|
    && var j := if s[i] == '-' then i + 1 else i;
       && j <= k && (forall n | j <= n < k :: IsDigit(s[n]))
       && v == if s[i] == '-' then -Decimals(s, j, k) else Decimals(s, j, k)
  }

  /** From inside a literal up to its closing quote at e (or the end of the text): no quote on the way but behind a backslash. */
  predicate LiteralLaid(s: string, i: nat, e: nat)
    requires i <= |s|
    decreases |s| - i
  {
    if i == e then e == |s| || s[e] == '"' || s[e] == NUL
    else i < e <= |s| && s[i] != '"' && if s[i] == '\\' then i + 2 <= |s| && (exists n | i + 2 <= n <= i + 12 && n <= |s| :: LiteralLaid(s, n, e))
                                        else LiteralLaid(s, i + 1, e)
  }

  predicate StringLaid(s: string, i: nat, k: nat) {
    && i < k <= |s| && s[i] == '"'
    && ((k - 1 > i && s[k - 1] == '"' && LiteralLaid(s, i + 1, k - 1)) || (At(s, k) == NUL && LiteralLaid(s, i + 1, k)))
  }

  ghost predicate Laid(s: string, i: nat, k: nat, t: Json)
    decreases t
  {
    i < k <= |s| &&
    match t
    case Null => s[i..k] == "null"
    case False => s[i..k] == "false"
    case True => s[i..k] == "true"
    case Number(v) => NumberLaid(s, i, k, v)
    case String(_) => StringLaid(s, i, k)
    case Array(items) => k - i >= 2 && s[i] == '[' && s[k - 1] == ']' && ItemsLaid(s, i + 1, k - 1, items)
    case Object(ms) => k - i >= 2 && s[i] == '{' && s[k - 1] == '}' && MembersLaid(s, i + 1, k - 1, ms)
  }

  /** Elements from a up to e: values with blanks around them, commas between them, and none behind the last. */
  ghost predicate ItemsLaid(s: string, a: nat, e: nat, items: seq<Json>)
    decreases items
  {
    if items == [] then Blanks(s, a, e)
    else
      exists b: nat, c: nat, d: nat :: Blanks(s, a, b) && Laid(s, b, c, items[0]) && ItemEnds(s, c, d, e, |items|)
                                       && (|items| > 1 ==> ItemsLaid(s, d + 1, e, items[1..]))
  }

  /** Behind a value: blanks, then the end e, or a comma. */
  predicate ItemEnds(s: string, c: nat, d: nat, e: nat, left: nat) {
    Blanks(s, c, d) && if left == 1 then d == e else d < e <= |s| && s[d] == ','
  }

  ghost predicate MembersLaid(s: string, a: nat, e: nat, ms: seq<Member>)
    decreases ms
  {
    if ms == [] then Blanks(s, a, e)
    else
      exists n: nat, b: nat, c: nat, d: nat :: NameLaid(s, a, n) && Blanks(s, n, b) && Laid(s, b, c, ms[0].value)
                                               && ItemEnds(s, c, d, e, |ms|)
                                               && (|ms| > 1 ==> MembersLaid(s, d + 1, e, ms[1..]))
  }

  /** A name between blanks, and the colon just before n. */
  ghost predicate NameLaid(s: string, a: nat, n: nat) {
    exists b: nat, c: nat :: Blanks(s, a, b) && StringLaid(s, b, c) && ColonAt(s, c, n)
  }

  predicate ColonAt(s: string, c: nat, n: nat) { 0 < n <= |s| && s[n - 1] == ':' && Blanks(s, c, n - 1) }

  // ---------- the reader's parts ----------

  lemma {:induction false} SkipIsBlank(s: string, i: nat)
    requires i <= |s|
    ensures Blanks(s, i, Skip(s, i))
    decreases |s| - i
  {
    if i < |s| && Blank(s[i]) { SkipIsBlank(s, i + 1); }
  }

  lemma {:induction false} DigitsLaid(s: string, i: nat, n: nat, j: nat)
    requires j <= i <= |s| && (forall k | j <= k < i :: IsDigit(s[k])) && n == Decimals(s, j, i)
    ensures var (v, k) := ReadDigits(s, i, n); i <= k && v == Decimals(s, j, k) && forall m | j <= m < k :: IsDigit(s[m])
    decreases |s| - i
  {
    if IsDigit(At(s, i)) { DigitsLaid(s, i + 1, n * 10 + (s[i] as int - '0' as int), j); }
  }

  lemma NumberIsLaid(s: string, i: nat)
    requires i <= |s| && (At(s, i) == '-' || IsDigit(At(s, i))) && NumberAt(s, i).Ok?
    ensures NumberAt(s, i).tree.Number? && NumberLaid(s, i, NumberAt(s, i).next, NumberAt(s, i).tree.value)
  {
    hide Decimals;
    var j := AfterSign(s, i);
    var a := AfterZero(s, j);
    NoDigits(s, j);
    NoDigits(s, a);
    if a > j { OneZero(s, j); }
    if '1' <= At(s, a) <= '9' { DigitsLaid(s, a, 0, a); }
    var k := UnsignedAt(s, a).1;
    if a > j { LeadingZero(s, j, k); }
  }

  lemma NoDigits(s: string, j: nat)
    requires j <= |s|
    ensures Decimals(s, j, j) == 0
  {
  }

  lemma OneZero(s: string, j: nat)
    requires j < |s| && s[j] == '0'
    ensures Decimals(s, j, j + 1) == 0
  {
    NoDigits(s, j);
  }

  lemma {:induction false} LeadingZero(s: string, j: nat, k: nat)
    requires j < k <= |s| && s[j] == '0'
    ensures Decimals(s, j, k) == Decimals(s, j + 1, k)
    decreases k
  {
    if k == j + 1 {
      OneZero(s, j);
    } else {
      LeadingZero(s, j, k - 1);
    }
  }

  lemma {:induction false} LiteralIsLaid(s: string, i: nat)
    requires i <= |s| && Literal(s, i).Text?
    ensures LiteralLaid(s, i, Literal(s, i).next)
    ensures At(s, Literal(s, i).next) == '"' || At(s, Literal(s, i).next) == NUL
    decreases |s| - i
  {
    hide EscapeAt;
    if At(s, i) == '"' || At(s, i) == NUL {
    } else if At(s, i) != '\\' {
      LiteralIsLaid(s, i + 1);
    } else {
      var e := EscapeAt(s, i);
      EscapeSpan(s, i);
      LiteralIsLaid(s, e.next);
    }
  }

  lemma EscapeSpan(s: string, i: nat)
    requires EscapeAt(s, i).Text?
    ensures i + 2 <= EscapeAt(s, i).next <= i + 12 && EscapeAt(s, i).next <= |s|
  {
    hide Utf8, Paired, Hex4;
  }

  lemma StringIsLaid(s: string, i: nat)
    requires i <= |s| && StringAt(s, i).Text?
    ensures StringLaid(s, i, StringAt(s, i).next)
  {
    hide Literal, LiteralLaid;
    LiteralIsLaid(s, i + 1);
  }

  // ---------- what is read is laid out as the tree ----------

  /** Whatever the reader makes of a text, the text it has read is laid out as that tree. */
  lemma {:induction false} ReadIsLaid(s: string, i: nat)
    requires i <= |s| && ValueAt(s, i).Ok?
    ensures Laid(s, i, ValueAt(s, i).next, ValueAt(s, i).tree)
    decreases |s| - i, 0
  {
    hide NumberAt, StringAt, ItemsAt, MembersAt, Skip, NumberLaid, StringLaid, ItemsLaid, MembersLaid;
    if Has(s, i, "null") || Has(s, i, "false") || Has(s, i, "true") {
    } else if At(s, i) == '"' {
      StringIsLaid(s, i);
    } else if At(s, i) == '-' || IsDigit(At(s, i)) {
      NumberIsLaid(s, i);
    } else if At(s, i) == '[' {
      ArrayIsLaid(s, i);
    } else if At(s, i) == '{' {
      ObjectIsLaid(s, i);
    }
  }

  lemma {:induction false} ArrayIsLaid(s: string, i: nat)
    requires i < |s| && s[i] == '['
    ensures var j := Skip(s, i + 1);
            && (At(s, j) == ']' ==> ItemsLaid(s, i + 1, j, []))
            && (At(s, j) != ']' && ItemsAt(s, j).Items? ==>
                  var r := ItemsAt(s, j); r.next > i + 1 && s[r.next - 1] == ']' && ItemsLaid(s, i + 1, r.next - 1, r.items))
    decreases |s| - i, -1
  {
    hide ItemsAt, Skip, ItemsLaid;
    var j := Skip(s, i + 1);
    SkipIsBlank(s, i + 1);
    NothingLaid(s, i + 1, j);
    if At(s, j) != ']' && ItemsAt(s, j).Items? {
      ItemsAreLaid(s, j);
      Earlier(s, i + 1, j, ItemsAt(s, j).next - 1, ItemsAt(s, j).items);
    }
  }

  lemma NothingLaid(s: string, a: nat, e: nat)
    requires Blanks(s, a, e)
    ensures ItemsLaid(s, a, e, []) && MembersLaid(s, a, e, [])
  {
  }

  /** Blanks may stand before the first element. */
  lemma Earlier(s: string, a: nat, j: nat, e: nat, items: seq<Json>)
    requires Blanks(s, a, j) && items != [] && ItemsLaid(s, j, e, items)
    ensures ItemsLaid(s, a, e, items)
  {
    hide Laid;
    var b: nat, c: nat, d: nat :| Blanks(s, j, b) && Laid(s, b, c, items[0]) && ItemEnds(s, c, d, e, |items|)
                                  && (|items| > 1 ==> ItemsLaid(s, d + 1, e, items[1..]));
    assert Blanks(s, a, b);
  }

  lemma {:induction false} ItemsAreLaid(s: string, i: nat)
    requires i <= |s| && ItemsAt(s, i).Items?
    ensures var r := ItemsAt(s, i); r.items != [] && r.next > i && s[r.next - 1] == ']' && ItemsLaid(s, i, r.next - 1, r.items)
    decreases |s| - i, 1
  {
    hide ValueAt, ItemsAfter, Skip, Laid, ItemsLaid;
    var b := Skip(s, i);
    SkipIsBlank(s, i);
    var v := ValueAt(s, b);
    ReadIsLaid(s, b);
    var d := Skip(s, v.next);
    SkipIsBlank(s, v.next);
    AfterIsLaid(s, d);
    var r, more := ItemsAt(s, i), ItemsAfter(s, d);
    assert r.items == [v.tree] + more.items && r.next == more.next && r.items[1..] == more.items;
    assert ItemEnds(s, v.next, d, r.next - 1, |r.items|);
    ItemsGrow(s, i, b, v.next, d, r.next - 1, r.items);
  }

  lemma ItemsGrow(s: string, a: nat, b: nat, c: nat, d: nat, e: nat, items: seq<Json>)
    requires items != [] && Blanks(s, a, b) && Laid(s, b, c, items[0]) && ItemEnds(s, c, d, e, |items|)
    requires |items| > 1 ==> ItemsLaid(s, d + 1, e, items[1..])
    ensures ItemsLaid(s, a, e, items)
  {
    hide Laid;
  }

  lemma {:induction false} AfterIsLaid(s: string, d: nat)
    requires d <= |s| && ItemsAfter(s, d).Items?
    ensures var r := ItemsAfter(s, d);
            && r.next > d && s[r.next - 1] == ']'
            && (if r.items == [] then r.next == d + 1 else d < r.next - 1 && s[d] == ',' && ItemsLaid(s, d + 1, r.next - 1, r.items))
    decreases |s| - d, 0
  {
    hide ItemsAt, ItemsLaid;
    if At(s, d) == ',' { ItemsAreLaid(s, d + 1); }
  }

  lemma {:induction false} ObjectIsLaid(s: string, i: nat)
    requires i < |s| && s[i] == '{'
    ensures var j := Skip(s, i + 1);
            && (At(s, j) == '}' ==> MembersLaid(s, i + 1, j, []))
            && (At(s, j) != '}' && MembersAt(s, j).Members? ==>
                  var r := MembersAt(s, j); r.next > i + 1 && s[r.next - 1] == '}' && MembersLaid(s, i + 1, r.next - 1, r.members))
    decreases |s| - i, -1
  {
    hide MembersAt, Skip, MembersLaid;
    var j := Skip(s, i + 1);
    SkipIsBlank(s, i + 1);
    NothingLaid(s, i + 1, j);
    if At(s, j) != '}' && MembersAt(s, j).Members? {
      MembersAreLaid(s, j);
      EarlierMember(s, i + 1, j, MembersAt(s, j).next - 1, MembersAt(s, j).members);
    }
  }

  lemma EarlierMember(s: string, a: nat, j: nat, e: nat, ms: seq<Member>)
    requires Blanks(s, a, j) && ms != [] && MembersLaid(s, j, e, ms)
    ensures MembersLaid(s, a, e, ms)
  {
    hide Laid, StringLaid;
    var n: nat, b: nat, c: nat, d: nat :| NameLaid(s, j, n) && Blanks(s, n, b) && Laid(s, b, c, ms[0].value)
                                          && ItemEnds(s, c, d, e, |ms|) && (|ms| > 1 ==> MembersLaid(s, d + 1, e, ms[1..]));
    var x: nat, y: nat :| Blanks(s, j, x) && StringLaid(s, x, y) && ColonAt(s, y, n);
    assert Blanks(s, a, x);
    assert NameLaid(s, a, n);
  }

  lemma {:induction false} MembersAreLaid(s: string, i: nat)
    requires i <= |s| && MembersAt(s, i).Members?
    ensures var r := MembersAt(s, i); r.members != [] && r.next > i && s[r.next - 1] == '}' && MembersLaid(s, i, r.next - 1, r.members)
    decreases |s| - i, 1
  {
    hide ValueAt, MembersAfter, StringAt, Skip, Laid, StringLaid, MembersLaid, NameLaid;
    var x := Skip(s, i);
    SkipIsBlank(s, i);
    var t := StringAt(s, x);
    StringIsLaid(s, x);
    var j := Skip(s, t.next);
    SkipIsBlank(s, t.next);
    assert ColonAt(s, t.next, j + 1);
    NameIsLaid(s, i, x, t.next, j + 1);
    var b := Skip(s, j + 1);
    SkipIsBlank(s, j + 1);
    var v := ValueAt(s, b);
    ReadIsLaid(s, b);
    var d := Skip(s, v.next);
    SkipIsBlank(s, v.next);
    AfterMemberIsLaid(s, d);
    var r, more := MembersAt(s, i), MembersAfter(s, d);
    assert r.members == [Member(t.text, v.tree)] + more.members && r.next == more.next && r.members[1..] == more.members;
    assert ItemEnds(s, v.next, d, r.next - 1, |r.members|);
    MembersGrow(s, i, j + 1, b, v.next, d, r.next - 1, r.members);
  }

  lemma NameIsLaid(s: string, a: nat, b: nat, c: nat, n: nat)
    requires Blanks(s, a, b) && StringLaid(s, b, c) && ColonAt(s, c, n)
    ensures NameLaid(s, a, n)
  {
    hide StringLaid;
  }

  lemma MembersGrow(s: string, a: nat, n: nat, b: nat, c: nat, d: nat, e: nat, ms: seq<Member>)
    requires ms != [] && NameLaid(s, a, n) && Blanks(s, n, b) && Laid(s, b, c, ms[0].value) && ItemEnds(s, c, d, e, |ms|)
    requires |ms| > 1 ==> MembersLaid(s, d + 1, e, ms[1..])
    ensures MembersLaid(s, a, e, ms)
  {
    hide Laid, NameLaid;
  }

  lemma {:induction false} AfterMemberIsLaid(s: string, d: nat)
    requires d <= |s| && MembersAfter(s, d).Members?
    ensures var r := MembersAfter(s, d);
            && r.next > d && s[r.next - 1] == '}'
            && (if r.members == [] then r.next == d + 1 else d < r.next - 1 && s[d] == ',' && MembersLaid(s, d + 1, r.next - 1, r.members))
    decreases |s| - d, 0
  {
    hide MembersAt, MembersLaid;
    if At(s, d) == ',' { MembersAreLaid(s, d + 1); }
  }

  /** `cJSON_Parse` succeeds only on blanks and a text laid out as the tree it gives; what follows is not looked at. */
  lemma ParseIsLaid(s: string)
    requires Parse(s).Ok?
    ensures var i := Skip(s, 0); Blanks(s, 0, i) && Laid(s, i, Parse(s).next, Parse(s).tree)
  {
    hide ValueAt, Laid;
    SkipIsBlank(s, 0);
    ReadIsLaid(s, Skip(s, 0));
  }
}
