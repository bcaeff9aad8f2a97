/**
 JSON trees, how the library renders them (formatted or not, at any depth) and
 how it reads them, as functions on text.
 */
module JsonTree {
  import opened JsonText

  datatype Json =
    | Null
    | False
    | True
    | Number(value: int)
    | String(text: string)
    | Array(items: seq<Json>)
    | Object(members: seq<Member>)

  datatype Member = Member(name: string, value: Json)

  const INT_MIN: int := -0x8000_0000
  const INT_MAX: int := 0x7FFF_FFFF

  /** Numbers are 32-bit integers; strings and names contain no NUL. */
  predicate Printable(t: Json) {
    match t
    case Number(v) => INT_MIN <= v <= INT_MAX
    case String(v) => NulFree(v)
    case Array(items) => PrintableItems(items)
    case Object(ms) => PrintableMembers(ms)
    case _ => true
  }

  predicate PrintableItems(items: seq<Json>) {
    items == [] || (Printable(items[0]) && PrintableItems(items[1..]))
  }

  predicate PrintableMembers(ms: seq<Member>) {
    ms == [] || (NulFree(ms[0].name) && Printable(ms[0].value) && PrintableMembers(ms[1..]))
  }

  // ---------- rendering ----------

  function Digit(d: nat): char
    requires d < 10
  {
    ('0' as int + d) as char
  }

  function Digits(n: nat): (w: string)
    ensures |w| > 0
  {
    if n < 10 then [Digit(n)] else Digits(n / 10) + [Digit(n % 10)]
  }

  /** Decimal form, as the C library's `%d` gives it. */
  function Decimal(v: int): string { if v < 0 then "-" + Digits(-v) else Digits(v) }

  function Tabs(n: int): string { if n <= 0 then "" else "\t" + Tabs(n - 1) }

  function If(b: bool, w: string): string { if b then w else "" }

  function Render(t: Json, depth: nat, fmt: bool): string
    decreases t
  {
    match t
    case Null => "null"
    case False => "false"
    case True => "true"
    case Number(v) => Decimal(v)
    case String(v) => Quoted(v)
    case Array(items) => "[" + RenderItems(items, depth + 1, fmt) + "]"
    case Object(ms) =>
      if ms == [] then "{" + (If(fmt, "\n" + Tabs(depth - 1)) + "}")
      else "{" + (If(fmt, "\n") + (RenderMembers(ms, depth + 1, fmt) + (If(fmt, Tabs(depth)) + "}")))
  }

  function RenderItems(items: seq<Json>, depth: nat, fmt: bool): string
    decreases items, 1
  {
    if items == [] then ""
    else Render(items[0], depth, fmt) + ItemsTail(items, depth, fmt)
  }

  /** What follows the first element. */
  function ItemsTail(items: seq<Json>, depth: nat, fmt: bool): string
    requires items != []
    decreases items, 0
  {
    if |items| == 1 then "" else "," + (If(fmt, " ") + RenderItems(items[1..], depth, fmt))
  }

  function RenderMember(m: Member, depth: nat, fmt: bool): string
    decreases m
  {
    If(fmt, Tabs(depth)) + (Quoted(m.name) + (":" + (If(fmt, "\t") + Render(m.value, depth, fmt))))
  }

  function RenderMembers(ms: seq<Member>, depth: nat, fmt: bool): string
    decreases ms, 1
  {
    if ms == [] then ""
    else RenderMember(ms[0], depth, fmt) + MembersTail(ms, depth, fmt)
  }

  /** What follows the first member. */
  function MembersTail(ms: seq<Member>, depth: nat, fmt: bool): string
    requires ms != []
    decreases ms, 0
  {
    If(|ms| > 1, ",") + (If(fmt, "\n") + RenderMembers(ms[1..], depth, fmt))
  }

  // ---------- reading ----------

  datatype Parsed = Fail | Ok(tree: Json, next: nat)
  datatype Items = NoItems | Items(items: seq<Json>, next: nat)
  datatype Members = NoMembers | Members(members: seq<Member>, next: nat)

  predicate IsDigit(c: char) { '0' <= c <= '9' }

  /** The value and end of a run of digits, n being the value of those before. */
  function ReadDigits(s: string, i: nat, n: nat): (r: (nat, nat))
    requires i <= |s|
    ensures i <= r.1 <= |s|
    decreases |s| - i
  {
    if IsDigit(At(s, i)) then ReadDigits(s, i + 1, n * 10 + (s[i] as int - '0' as int)) else (n, i)
  }

  function AfterSign(s: string, i: nat): nat { if At(s, i) == '-' then i + 1 else i }

  function AfterZero(s: string, i: nat): nat { if At(s, i) == '0' then i + 1 else i }

  function UnsignedAt(s: string, i: nat): (r: (nat, nat))
    requires i <= |s|
    ensures i <= r.1 <= |s|
  {
    if '1' <= At(s, i) <= '9' then ReadDigits(s, i, 0) else (0, i)
  }

  /** An integer number; fractions, exponents and integers beyond 32 bits are not covered. */
  function NumberAt(s: string, i: nat): (r: Parsed)
    requires i <= |s| && (At(s, i) == '-' || IsDigit(At(s, i)))
    ensures r.Ok? ==> i < r.next <= |s|
  {
    var j := AfterZero(s, AfterSign(s, i));
    var (n, k) := UnsignedAt(s, j);
    var m: int := n;
    var v := if At(s, i) == '-' then -m else m;
    if (At(s, k) == '.' && IsDigit(At(s, k + 1))) || At(s, k) == 'e' || At(s, k) == 'E' || v < INT_MIN || v > INT_MAX then Fail
    else Ok(Number(v), k)
  }

  function StringAt(s: string, i: nat): (r: Text)
    requires i <= |s|
    ensures r.Text? ==> i < r.next <= |s|
  {
    if At(s, i) != '"' then Malformed
    else
      var t := Literal(s, i + 1);
      if t.Text? && At(s, t.next) == '"' then Text(t.text, t.next + 1) else t
  }

  function ValueAt(s: string, i: nat): (r: Parsed)
    requires i <= |s|
    ensures r.Ok? ==> i < r.next <= |s|
    decreases |s| - i, 0
  {
    if Has(s, i, "null") then Ok(Null, i + 4)
    else if Has(s, i, "false") then Ok(False, i + 5)
    else if Has(s, i, "true") then Ok(True, i + 4)
    else if At(s, i) == '"' then
      var t := StringAt(s, i);
      if t.Text? then Ok(String(t.text), t.next) else Fail
    else if At(s, i) == '-' || IsDigit(At(s, i)) then NumberAt(s, i)
    else if At(s, i) == '[' then
      var j := Skip(s, i + 1);
      if At(s, j) == ']' then Ok(Array([]), j + 1)
      else
        var r := ItemsAt(s, j);
        if r.Items? then Ok(Array(r.items), r.next) else Fail
    else if At(s, i) == '{' then
      var j := Skip(s, i + 1);
      if At(s, j) == '}' then Ok(Object([]), j + 1)
      else
        var r := MembersAt(s, j);
        if r.Members? then Ok(Object(r.members), r.next) else Fail
    else Fail
  }

  /** One element and what follows it. */
  function ItemsAt(s: string, i: nat): (r: Items)
    requires i <= |s|
    ensures r.Items? ==> i < r.next <= |s|
    decreases |s| - i, 1
  {
    var v := ValueAt(s, Skip(s, i));
    if v.Fail? then NoItems else MoreItems([v.tree], ItemsAfter(s, Skip(s, v.next)))
  }

  /** A comma and more elements, or the closing bracket. */
  function ItemsAfter(s: string, i: nat): (r: Items)
    requires i <= |s|
    ensures r.Items? ==> i < r.next <= |s|
    decreases |s| - i, 2
  {
    if At(s, i) == ',' then ItemsAt(s, i + 1) else if At(s, i) == ']' then Items([], i + 1) else NoItems
  }

  function MoreItems(items: seq<Json>, r: Items): Items { if r.Items? then Items(items + r.items, r.next) else r }

  function MembersAt(s: string, i: nat): (r: Members)
    requires i <= |s|
    ensures r.Members? ==> i < r.next <= |s|
    decreases |s| - i, 1
  {
    var t := StringAt(s, Skip(s, i));
    if t.Malformed? then NoMembers
    else
      var j := Skip(s, t.next);
      if At(s, j) != ':' then NoMembers
      else
        var v := ValueAt(s, Skip(s, j + 1));
        if v.Fail? then NoMembers else MoreMembers([Member(t.text, v.tree)], MembersAfter(s, Skip(s, v.next)))
  }

  function MembersAfter(s: string, i: nat): (r: Members)
    requires i <= |s|
    ensures r.Members? ==> i < r.next <= |s|
    decreases |s| - i, 2
  {
    if At(s, i) == ',' then MembersAt(s, i + 1) else if At(s, i) == '}' then Members([], i + 1) else NoMembers
  }

  function MoreMembers(ms: seq<Member>, r: Members): Members { if r.Members? then Members(ms + r.members, r.next) else r }

  /** `cJSON_Parse`: leading blanks are skipped, what follows the value is not looked at. */
  function Parse(s: string): Parsed { ValueAt(s, Skip(s, 0)) }

  // ---------- where texts stand ----------

  /** The byte after a value does not go on with a number. */
  predicate Ends(c: char) { !IsDigit(c) && c != '.' && c != 'e' && c != 'E' }

  /** The first bytes decide which reader is called. */
  lemma NotAWord(s: string, i: nat, w: string)
    requires |w| > 0 && Has(s, i, w) && w[0] != 'n' && w[0] != 'f' && w[0] != 't'
    ensures !Has(s, i, "null") && !Has(s, i, "false") && !Has(s, i, "true")
  {
    HasAt(s, i, w, 0);
    if Has(s, i, "null") { HasAt(s, i, "null", 0); }
    if Has(s, i, "false") { HasAt(s, i, "false", 0); }
    if Has(s, i, "true") { HasAt(s, i, "true", 0); }
  }

  /** Where the parts of a member's rendering stand. */
  lemma MemberParts(s: string, i: nat, m: Member, depth: nat, fmt: bool) returns (a: nat, b: nat, k: nat)
    requires Has(s, i, RenderMember(m, depth, fmt))
    ensures a == i + |If(fmt, Tabs(depth))| && b == a + |Quoted(m.name)| && k == b + 1 + |If(fmt, "\t")|
    ensures k + |Render(m.value, depth, fmt)| == i + |RenderMember(m, depth, fmt)| <= |s|
    ensures Has(s, i, If(fmt, Tabs(depth))) && Has(s, a, Quoted(m.name)) && Has(s, b, ":")
    ensures Has(s, b + 1, If(fmt, "\t")) && Has(s, k, Render(m.value, depth, fmt))
  {
    hide Has, Render, Quoted, Tabs, If;
    var indent, q, gap, v := If(fmt, Tabs(depth)), Quoted(m.name), If(fmt, "\t"), Render(m.value, depth, fmt);
    HasLength(s, i, RenderMember(m, depth, fmt));
    HasParts(s, i, indent, q + (":" + (gap + v)));
    a := i + |indent|;
    HasParts(s, a, q, ":" + (gap + v));
    b := a + |q|;
    HasParts(s, b, ":", gap + v);
    HasParts(s, b + 1, gap, v);
    k := b + 1 + |gap|;
  }
}
