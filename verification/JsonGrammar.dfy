/**
 JSON as section 2 of RFC 8259 writes it: concrete syntax, the texts and the trees it
 stands for. The reader gives every such text its tree, and everything the library
 prints is such a text of its tree; so reading undoes printing.
 */
module JsonGrammar {
  import opened JsonText
  import opened JsonTree

  // ---------- concrete syntax ----------

  /** A hexadecimal digit in either case. */
  datatype Hex = Hex(value: nat, upper: bool)

  const LOWER_DIGITS: string := "0123456789abcdef"
  const UPPER_DIGITS: string := "0123456789ABCDEF"

  /** The letters behind the backslash of a short escape, and the bytes they stand for: quote, backslash, slash, and the controls. */
  const SHORT_LETTERS: string := "\"\\/bfnrt"
  const SHORT_BYTES: seq<nat> := [0x22, 0x5C, 0x2F, 0x08, 0x0C, 0x0A, 0x0D, 0x09]

  /** A part of a string literal: a byte as it is, a short escape by its place in the table, an escaped character, or an escaped surrogate pair. */
  datatype Unit =
    | Plain(c: char)
    | Short(k: nat)
    | Coded(d: seq<Hex>)
    | Surrogates(high: seq<Hex>, low: seq<Hex>)

  datatype Doc =
    | NullDoc
    | FalseDoc
    | TrueDoc
    | IntDoc(negative: bool, digits: seq<nat>)
    | StringDoc(units: seq<Unit>)
    | ArrayDoc(gap: string, items: seq<Item>)      // the gap stands between the brackets of an empty array
    | ObjectDoc(gap: string, pairs: seq<Pair>)

  /** Blanks may stand before and behind every token. */
  datatype Item = Item(before: string, value: Doc, after: string)
  datatype Pair = Pair(before: string, name: seq<Unit>, afterName: string, beforeValue: string, value: Doc, after: string)

  /** The four blanks of the grammar. */
  predicate Gap(w: string) { forall i | 0 <= i < |w| :: w[i] in " \t\n\r" }

  // ---------- which are well formed ----------

  predicate FourDigits(d: seq<Hex>) { |d| == 4 && forall i | 0 <= i < 4 :: d[i].value < 16 }

  function Value4(d: seq<Hex>): nat
    requires FourDigits(d)
  {
    d[0].value * 0x1000 + d[1].value * 0x100 + d[2].value * 0x10 + d[3].value
  }

  /** A character is not NUL and not half of a surrogate pair. */
  predicate ProperUnit(u: Unit) {
    match u
    case Plain(c) => c > 31 as char && c != '"' && c != '\\'
    case Short(k) => k < 8
    case Coded(d) => FourDigits(d) && Value4(d) != 0 && !(0xD800 <= Value4(d) < 0xE000)
    case Surrogates(h, l) => FourDigits(h) && FourDigits(l) && 0xD800 <= Value4(h) < 0xDC00 <= Value4(l) < 0xE000
  }

  predicate ProperUnits(units: seq<Unit>) { forall i | 0 <= i < |units| :: ProperUnit(units[i]) }

  /** No leading zeros; the value of the digits read from the left. */
  predicate ProperDigits(digits: seq<nat>) {
    digits != [] && (forall i | 0 <= i < |digits| :: digits[i] < 10) && (|digits| > 1 ==> digits[0] > 0)
  }

  function IntValue(digits: seq<nat>): nat {
    if digits == [] then 0 else IntValue(digits[..|digits| - 1]) * 10 + digits[|digits| - 1]
  }

  function Signed(negative: bool, n: int): int { if negative then -n else n }

  predicate Proper(d: Doc) {
    match d
    case IntDoc(negative, digits) => ProperDigits(digits) && INT_MIN <= Signed(negative, IntValue(digits)) <= INT_MAX
    case StringDoc(units) => ProperUnits(units)
    case ArrayDoc(gap, items) => Gap(gap) && ProperItems(items)
    case ObjectDoc(gap, pairs) => Gap(gap) && ProperPairs(pairs)
    case _ => true
  }

  predicate ProperItems(items: seq<Item>) {
    items == [] || (Gap(items[0].before) && Proper(items[0].value) && Gap(items[0].after) && ProperItems(items[1..]))
  }

  predicate ProperPairs(pairs: seq<Pair>) {
    pairs == [] || (ProperEdges(pairs[0]) && Proper(pairs[0].value) && ProperPairs(pairs[1..]))
  }

  predicate ProperEdges(p: Pair) {
    Gap(p.before) && ProperUnits(p.name) && Gap(p.afterName) && Gap(p.beforeValue) && Gap(p.after)
  }

  // ---------- their texts ----------

  function HexText(h: Hex): char
    requires h.value < 16
  {
    if h.upper then UPPER_DIGITS[h.value] else LOWER_DIGITS[h.value]
  }

  function FourText(d: seq<Hex>): (w: string)
    requires FourDigits(d)
    ensures |w| == 4
  {
    [HexText(d[0]), HexText(d[1]), HexText(d[2]), HexText(d[3])]
  }

  function UnitText(u: Unit): string
    requires ProperUnit(u)
  {
    match u
    case Plain(c) => [c]
    case Short(k) => ['\\', SHORT_LETTERS[k]]
    case Coded(d) => "\\u" + FourText(d)
    case Surrogates(h, l) => ("\\u" + FourText(h)) + ("\\u" + FourText(l))
  }

  function UnitsText(units: seq<Unit>): string
    requires ProperUnits(units)
  {
    if units == [] then "" else UnitText(units[0]) + UnitsText(units[1..])
  }

  function StringText(units: seq<Unit>): string
    requires ProperUnits(units)
  {
    "\"" + (UnitsText(units) + "\"")
  }

  function DigitsText(digits: seq<nat>): string {
    if digits == [] then "" else DigitsText(digits[..|digits| - 1]) + [('0' as int + digits[|digits| - 1] % 10) as char]
  }

  function DocText(d: Doc): string
    requires Proper(d)
    decreases d
  {
    match d
    case NullDoc => "null"
    case FalseDoc => "false"
    case TrueDoc => "true"
    case IntDoc(negative, digits) => (if negative then "-" else "") + DigitsText(digits)
    case StringDoc(units) => StringText(units)
    case ArrayDoc(gap, items) => "[" + ((if items == [] then gap else ItemsText(items)) + "]")
    case ObjectDoc(gap, pairs) => "{" + ((if pairs == [] then gap else PairsText(pairs)) + "}")
  }

  function ItemsText(items: seq<Item>): string
    requires ProperItems(items)
    decreases items
  {
    if items == [] then ""
    else items[0].before + (DocText(items[0].value) + (items[0].after + (if |items| == 1 then "" else "," + ItemsText(items[1..]))))
  }

  function PairsText(pairs: seq<Pair>): string
    requires ProperPairs(pairs)
    decreases pairs
  {
    if pairs == [] then ""
    else
      var p := pairs[0];
      p.before + (StringText(p.name) + (p.afterName + (":" + (p.beforeValue + (DocText(p.value) + (p.after + PairsRest(pairs)))))))
  }

  function PairsRest(pairs: seq<Pair>): string
    requires ProperPairs(pairs) && pairs != []
    decreases pairs, 0
  {
    if |pairs| == 1 then "" else "," + PairsText(pairs[1..])
  }

  // ---------- what they denote ----------

  function UnitBytes(u: Unit): string
    requires ProperUnit(u)
  {
    match u
    case Plain(c) => [c]
    case Short(k) => [SHORT_BYTES[k] as char]
    case Coded(d) => Utf8(Value4(d))
    case Surrogates(h, l) => Utf8((Value4(h) - 0xD800) * 0x400 + (Value4(l) - 0xDC00) + 0x10000)
  }

  function UnitsBytes(units: seq<Unit>): string
    requires ProperUnits(units)
  {
    if units == [] then "" else UnitBytes(units[0]) + UnitsBytes(units[1..])
  }

  function Denoted(d: Doc): Json
    requires Proper(d)
    decreases d
  {
    match d
    case NullDoc => Null
    case FalseDoc => False
    case TrueDoc => True
    case IntDoc(negative, digits) => Number(Signed(negative, IntValue(digits)))
    case StringDoc(units) => String(UnitsBytes(units))
    case ArrayDoc(_, items) => Array(DenotedItems(items))
    case ObjectDoc(_, pairs) => Object(DenotedPairs(pairs))
  }

  function DenotedItems(items: seq<Item>): seq<Json>
    requires ProperItems(items)
    decreases items
  {
    if items == [] then [] else [Denoted(items[0].value)] + DenotedItems(items[1..])
  }

  function DenotedPairs(pairs: seq<Pair>): seq<Member>
    requires ProperPairs(pairs)
    decreases pairs
  {
    if pairs == [] then []
    else [Member(UnitsBytes(pairs[0].name), Denoted(pairs[0].value))] + DenotedPairs(pairs[1..])
  }

  // ---------- reading string literals ----------

  lemma {:induction false} HexReads(h: Hex)
    requires h.value < 16
    ensures IsHex(HexText(h)) && HexValue(HexText(h)) == h.value
  {
  }

  lemma {:induction false} FourRead(s: string, i: nat, d: seq<Hex>)
    requires FourDigits(d) && Has(s, i, FourText(d))
    ensures i + 4 <= |s| && IsHex4(s, i) && Hex4(s, i) == Value4(d)
  {
    hide HexText;
    HexReads(d[0]);
    HexReads(d[1]);
    HexReads(d[2]);
    HexReads(d[3]);
    HasAt(s, i, FourText(d), 0);
    HasAt(s, i, FourText(d), 1);
    HasAt(s, i, FourText(d), 2);
    HasAt(s, i, FourText(d), 3);
  }

  lemma {:induction false} ShortRead(s: string, i: nat, k: nat)
    requires k < 8 && Has(s, i, ['\\', SHORT_LETTERS[k]])
    ensures i + 2 <= |s| && At(s, i) == '\\' && EscapeAt(s, i) == Text([SHORT_BYTES[k] as char], i + 2)
  {
    HasAt(s, i, ['\\', SHORT_LETTERS[k]], 0);
    HasAt(s, i, ['\\', SHORT_LETTERS[k]], 1);
  }

  /** Where the parts of an escape stand. */
  lemma {:induction false} CodedParts(s: string, i: nat, d: seq<Hex>)
    requires FourDigits(d) && Has(s, i, "\\u" + FourText(d))
    ensures At(s, i) == '\\' && At(s, i + 1) == 'u' && i + 6 <= |s| && IsHex4(s, i + 2) && Hex4(s, i + 2) == Value4(d)
  {
    hide FourText;
    HasParts(s, i, "\\u", FourText(d));
    HasAt(s, i, "\\u", 0);
    HasAt(s, i, "\\u", 1);
    FourRead(s, i + 2, d);
  }

  lemma {:induction false} UnitRead(s: string, i: nat, u: Unit)
    requires ProperUnit(u) && Has(s, i, UnitText(u))
    ensures i + |UnitText(u)| <= |s| && Literal(s, i) == Prepend(UnitBytes(u), Literal(s, i + |UnitText(u)|))
  {
    hide Literal, Has, Prepend, Utf8, Utf8Bytes, ReadUtf8, IsHex4, Hex4, FourText, EscapeAt;
    HasLength(s, i, UnitText(u));
    match u
    case Plain(c) =>
      HasAt(s, i, [c], 0);
      LiteralPlain(s, i);
    case Short(k) =>
      ShortRead(s, i, k);
      LiteralEscape(s, i);
    case Coded(d) =>
      CodedParts(s, i, d);
      EscapedCharacter(s, i);
    case Surrogates(h, l) =>
      HasParts(s, i, "\\u" + FourText(h), "\\u" + FourText(l));
      CodedParts(s, i, h);
      CodedParts(s, i + 6, l);
      EscapedPair(s, i);
      PairedValue(Value4(h), Value4(l));
  }

  lemma {:induction false} UnitsRead(s: string, i: nat, units: seq<Unit>)
    requires ProperUnits(units) && Has(s, i, UnitsText(units) + "\"")
    ensures i + |UnitsText(units)| < |s| && At(s, i + |UnitsText(units)|) == '"'
    ensures Literal(s, i) == Text(UnitsBytes(units), i + |UnitsText(units)|)
    decreases |units|
  {
    hide Literal, Has, UnitText, UnitBytes, ProperUnit;
    HasLength(s, i, UnitsText(units) + "\"");
    HasParts(s, i, UnitsText(units), "\"");
    HasAt(s, i + |UnitsText(units)|, "\"", 0);
    if units == [] {
      LiteralEnd(s, i);
    } else {
      var w := UnitText(units[0]);
      assert UnitsText(units) + "\"" == w + (UnitsText(units[1..]) + "\"");
      HasParts(s, i, w, UnitsText(units[1..]) + "\"");
      UnitRead(s, i, units[0]);
      UnitsRead(s, i + |w|, units[1..]);
    }
  }

  lemma {:induction false} StringRead(s: string, i: nat, units: seq<Unit>)
    requires ProperUnits(units) && Has(s, i, StringText(units))
    ensures StringAt(s, i) == Text(UnitsBytes(units), i + |StringText(units)|) && At(s, i) == '"' && i + |StringText(units)| <= |s|
  {
    hide Has, Literal, UnitsText, UnitsBytes;
    HasLength(s, i, StringText(units));
    HasAt(s, i, StringText(units), 0);
    HasParts(s, i, "\"", UnitsText(units) + "\"");
    UnitsRead(s, i + 1, units);
  }

  // ---------- reading numbers ----------

  lemma {:induction false} DigitsTextIs(digits: seq<nat>)
    requires forall i | 0 <= i < |digits| :: digits[i] < 10
    ensures |DigitsText(digits)| == |digits|
    ensures forall i | 0 <= i < |digits| :: DigitsText(digits)[i] == ('0' as int + digits[i]) as char
    decreases |digits|
  {
    if digits != [] { DigitsTextIs(digits[..|digits| - 1]); }
  }

  lemma {:induction false} DigitsRead(s: string, i: nat, digits: seq<nat>)
    requires (forall k | 0 <= k < |digits| :: digits[k] < 10) && i <= |s| && Has(s, i, DigitsText(digits))
    ensures i + |DigitsText(digits)| <= |s| && ReadDigits(s, i, 0) == ReadDigits(s, i + |DigitsText(digits)|, IntValue(digits))
    decreases |digits|
  {
    hide Has;
    HasLength(s, i, DigitsText(digits));
    if digits != [] {
      var before, d := digits[..|digits| - 1], digits[|digits| - 1];
      var c := ('0' as int + d % 10) as char;
      HasParts(s, i, DigitsText(before), [c]);
      DigitsRead(s, i, before);
      HasAt(s, i + |DigitsText(before)|, [c], 0);
    }
  }

  lemma {:induction false} UnsignedRead(s: string, i: nat, digits: seq<nat>)
    requires ProperDigits(digits) && i <= |s| && Has(s, i, DigitsText(digits)) && Ends(At(s, i + |DigitsText(digits)|))
    ensures i + |DigitsText(digits)| <= |s| && IsDigit(At(s, i))
    ensures UnsignedAt(s, AfterZero(s, i)) == (IntValue(digits), i + |DigitsText(digits)|)
  {
    hide Has, DigitsText;
    DigitsTextIs(digits);
    HasLength(s, i, DigitsText(digits));
    HasAt(s, i, DigitsText(digits), 0);
    if digits[0] == 0 {
      assert digits == [0];
      assert IntValue(digits) == 0;
    } else {
      DigitsRead(s, i, digits);
    }
  }

  lemma {:induction false} IntRead(s: string, i: nat, negative: bool, digits: seq<nat>)
    requires Proper(IntDoc(negative, digits))
    requires Has(s, i, DocText(IntDoc(negative, digits))) && Ends(At(s, i + |DocText(IntDoc(negative, digits))|))
    ensures i <= |s| && (At(s, i) == '-' || IsDigit(At(s, i)))
    ensures NumberAt(s, i) == Ok(Number(Signed(negative, IntValue(digits))), i + |DocText(IntDoc(negative, digits))|)
  {
    hide Has, DigitsText, UnsignedAt, IntValue;
    var w := DigitsText(digits);
    HasLength(s, i, DocText(IntDoc(negative, digits)));
    if negative {
      HasParts(s, i, "-", w);
      HasAt(s, i, "-", 0);
      UnsignedRead(s, i + 1, digits);
    } else {
      assert DocText(IntDoc(negative, digits)) == w;
      UnsignedRead(s, i, digits);
    }
  }

  // ---------- reading values ----------

  lemma {:induction false} GapBlank(w: string)
    requires Gap(w)
    ensures AllBlank(w)
  {
  }

  /** A gap is skipped. What ends a number ends it also with a gap before it. */
  lemma {:induction false} GapSkipped(s: string, i: nat, w: string, rest: string)
    requires Gap(w) && rest != "" && !Blank(rest[0]) && Has(s, i, w + rest)
    ensures Skip(s, i) == i + |w| <= |s| && Has(s, i + |w|, rest) && At(s, i + |w|) == rest[0]
    ensures Ends(rest[0]) ==> Ends(At(s, i))
  {
    hide Has;
    HasParts(s, i, w, rest);
    HasLength(s, i, w + rest);
    HasAt(s, i + |w|, rest, 0);
    GapBlank(w);
    SkipOver(s, i, w);
    if w != "" { HasAt(s, i, w, 0); }
  }

  /** No value begins with a blank or a closing bracket, and what it begins with decides how it is read. */
  lemma {:induction false} DocStarts(d: Doc)
    requires Proper(d)
    ensures var w := DocText(d); w != "" && !Blank(w[0]) && w[0] != ']' && w[0] != '}'
    ensures var w := DocText(d); !d.NullDoc? && !d.FalseDoc? && !d.TrueDoc? ==> w[0] != 'n' && w[0] != 'f' && w[0] != 't'
  {
    if d.IntDoc? { DigitsTextIs(d.digits); }
  }

  lemma {:induction false} Words(s: string, i: nat)
    ensures Has(s, i, "false") ==> !Has(s, i, "null")
    ensures Has(s, i, "true") ==> !Has(s, i, "null") && !Has(s, i, "false")
  {
    if Has(s, i, "false") { HasAt(s, i, "false", 0); }
    if Has(s, i, "true") { HasAt(s, i, "true", 0); }
    if Has(s, i, "null") { HasAt(s, i, "null", 0); }
  }

  /** Wherever a text of the grammar stands, reading there gives the tree it denotes and stops behind it. */
  lemma {:induction false} DocRead(s: string, i: nat, d: Doc)
    requires Proper(d) && Has(s, i, DocText(d)) && (d.IntDoc? ==> Ends(At(s, i + |DocText(d)|)))
    ensures i <= |s| && ValueAt(s, i) == Ok(Denoted(d), i + |DocText(d)|)
    decreases d, 0
  {
    hide Has, Skip, NumberAt, StringAt, ItemsAt, MembersAt, StringText, UnitsBytes;
    var w := DocText(d);
    HasLength(s, i, w);
    DocStarts(d);
    HasAt(s, i, w, 0);
    Words(s, i);
    match d
    case NullDoc =>
    case FalseDoc =>
    case TrueDoc =>
    case IntDoc(negative, digits) =>
      NotAWord(s, i, w);
      IntRead(s, i, negative, digits);
    case StringDoc(units) =>
      NotAWord(s, i, w);
      StringRead(s, i, units);
    case ArrayDoc(gap, items) =>
      NotAWord(s, i, w);
      ArrayRead(s, i, gap, items);
    case ObjectDoc(gap, pairs) =>
      NotAWord(s, i, w);
      ObjectRead(s, i, gap, pairs);
  }

  lemma {:induction false} ArrayRead(s: string, i: nat, gap: string, items: seq<Item>)
    requires Proper(ArrayDoc(gap, items)) && Has(s, i, DocText(ArrayDoc(gap, items)))
    ensures i + 1 <= |s|
    ensures var j, e := Skip(s, i + 1), i + |DocText(ArrayDoc(gap, items))|;
            if items == [] then At(s, j) == ']' && j + 1 == e
            else At(s, j) != ']' && ItemsAt(s, j) == Items(DenotedItems(items), e)
    decreases items, 2
  {
    hide Has, Skip, ItemsAt, At;
    var body := if items == [] then gap else ItemsText(items);
    HasParts(s, i, "[", body + "]");
    HasLength(s, i, "[");
    if items == [] {
      GapSkipped(s, i + 1, gap, "]");
    } else {
      ItemsRead(s, i + 1, items);
    }
  }

  /** Reading items begins by skipping a gap, so it may begin behind it. */
  lemma {:induction false} ItemsSkip(s: string, i: nat)
    requires i <= |s|
    ensures ItemsAt(s, Skip(s, i)) == ItemsAt(s, i)
  {
    hide ValueAt, ItemsAfter;
    SkipTwice(s, i);
  }

  lemma {:induction false} MembersSkip(s: string, i: nat)
    requires i <= |s|
    ensures MembersAt(s, Skip(s, i)) == MembersAt(s, i)
  {
    hide ValueAt, MembersAfter, StringAt;
    SkipTwice(s, i);
  }

  lemma {:induction false} SkipTwice(s: string, i: nat)
    ensures Skip(s, Skip(s, i)) == Skip(s, i)
    decreases |s| - i
  {
    if i < |s| && Blank(s[i]) { SkipTwice(s, i + 1); }
  }

  lemma {:induction false} ItemsStep(s: string, i: nat, a: nat, t: Json, e: nat)
    requires i <= |s| && Skip(s, i) == a && ValueAt(s, a) == Ok(t, e)
    ensures e <= |s| && ItemsAt(s, i) == MoreItems([t], ItemsAfter(s, Skip(s, e)))
  {
    hide ValueAt, ItemsAfter, Skip;
  }

  lemma {:induction false} ItemsRead(s: string, i: nat, items: seq<Item>)
    requires items != [] && ProperItems(items) && Has(s, i, ItemsText(items) + "]")
    ensures i <= |s| && At(s, Skip(s, i)) != ']'
    ensures ItemsAt(s, Skip(s, i)) == ItemsAt(s, i) == Items(DenotedItems(items), i + |ItemsText(items)| + 1)
    decreases items, 1
  {
    hide Has, Skip, DocText, ValueAt, ItemsAt, ItemsAfter, At, Gap, Proper;
    var it := items[0];
    var rest := (if |items| == 1 then "" else "," + ItemsText(items[1..])) + "]";
    var v := DocText(it.value);
    ItemParts(items);
    HasLength(s, i, ItemsText(items) + "]");
    DocStarts(it.value);
    GapSkipped(s, i, it.before, v + (it.after + rest));
    var a := i + |it.before|;
    HasParts(s, a, v, it.after + rest);
    var e := a + |v|;
    GapSkipped(s, e, it.after, rest);
    DocRead(s, a, it.value);
    ItemsStep(s, i, a, Denoted(it.value), e);
    ItemsRestRead(s, e + |it.after|, items, rest);
    ItemsSkip(s, i);
  }

  lemma {:induction false} ItemParts(items: seq<Item>)
    requires items != [] && ProperItems(items)
    ensures var it, rest := items[0], (if |items| == 1 then "" else "," + ItemsText(items[1..])) + "]";
            && ItemsText(items) + "]" == it.before + (DocText(it.value) + (it.after + rest))
            && (rest[0] == ',' || rest[0] == ']') && |ItemsText(items)| + 1 == |it.before| + |DocText(it.value)| + |it.after| + |rest|
  {
    hide DocText;
    var it, more := items[0], if |items| == 1 then "" else "," + ItemsText(items[1..]);
    assert (it.before + (DocText(it.value) + (it.after + more))) + "]" == it.before + (DocText(it.value) + (it.after + (more + "]")));
  }

  /** Behind an item: a comma and more, or the end. */
  lemma {:induction false} ItemsRestRead(s: string, k: nat, items: seq<Item>, rest: string)
    requires items != [] && ProperItems(items)
    requires rest == (if |items| == 1 then "" else "," + ItemsText(items[1..])) + "]" && Has(s, k, rest)
    ensures k <= |s| && ItemsAfter(s, k) == Items(DenotedItems(items[1..]), k + |rest|)
    decreases items, 0
  {
    hide Has, Skip, DocText, ItemsAt, At;
    HasLength(s, k, rest);
    HasAt(s, k, rest, 0);
    if |items| > 1 {
      assert rest == "," + (ItemsText(items[1..]) + "]");
      HasParts(s, k, ",", ItemsText(items[1..]) + "]");
      ItemsRead(s, k + 1, items[1..]);
    }
  }

  lemma {:induction false} ObjectRead(s: string, i: nat, gap: string, pairs: seq<Pair>)
    requires Proper(ObjectDoc(gap, pairs)) && Has(s, i, DocText(ObjectDoc(gap, pairs)))
    ensures i + 1 <= |s|
    ensures var j, e := Skip(s, i + 1), i + |DocText(ObjectDoc(gap, pairs))|;
            if pairs == [] then At(s, j) == '}' && j + 1 == e
            else At(s, j) != '}' && MembersAt(s, j) == Members(DenotedPairs(pairs), e)
    decreases pairs, 3
  {
    hide Has, Skip, MembersAt, At;
    var body := if pairs == [] then gap else PairsText(pairs);
    HasParts(s, i, "{", body + "}");
    HasLength(s, i, "{");
    if pairs == [] {
      GapSkipped(s, i + 1, gap, "}");
    } else {
      PairsRead(s, i + 1, pairs);
    }
  }

  lemma {:induction false} MembersStep(s: string, i: nat, name: string, j: nat, c: nat, k: nat, t: Json, e: nat)
    requires i <= |s| && StringAt(s, Skip(s, i)) == Text(name, j) && Skip(s, j) == c < |s| && At(s, c) == ':'
    requires Skip(s, c + 1) == k && ValueAt(s, k) == Ok(t, e)
    ensures e <= |s| && MembersAt(s, i) == MoreMembers([Member(name, t)], MembersAfter(s, Skip(s, e)))
  {
    hide ValueAt, MembersAfter, StringAt, Skip;
  }

  lemma {:induction false} PairsRead(s: string, i: nat, pairs: seq<Pair>)
    requires pairs != [] && ProperPairs(pairs) && Has(s, i, PairsText(pairs) + "}")
    ensures i <= |s| && At(s, Skip(s, i)) != '}'
    ensures MembersAt(s, Skip(s, i)) == MembersAt(s, i) == Members(DenotedPairs(pairs), i + |PairsText(pairs)| + 1)
    decreases pairs, 2
  {
    hide Has, Skip, DocText, StringText, UnitsBytes, ValueAt, MembersAt, MembersAfter, StringAt, At, Gap, Proper, PairsRest;
    var p, rest := pairs[0], PairsRest(pairs) + "}";
    HasLength(s, i, PairsText(pairs) + "}");
    PairParts(pairs);
    var w3 := DocText(p.value) + (p.after + rest);
    var w2 := ":" + (p.beforeValue + w3);
    var w1 := StringText(p.name) + (p.afterName + w2);
    NameStarts(p.name);
    GapSkipped(s, i, p.before, w1);
    var a := i + |p.before|;
    HasParts(s, a, StringText(p.name), p.afterName + w2);
    StringRead(s, a, p.name);
    var j := a + |StringText(p.name)|;
    GapSkipped(s, j, p.afterName, w2);
    var c := j + |p.afterName|;
    HasParts(s, c, ":", p.beforeValue + w3);
    HasLength(s, c, w2);
    DocStarts(p.value);
    GapSkipped(s, c + 1, p.beforeValue, w3);
    PairValueRead(s, c + 1 + |p.beforeValue|, pairs, rest);
    MembersStep(s, i, UnitsBytes(p.name), j, c, c + 1 + |p.beforeValue|, Denoted(p.value), c + 1 + |p.beforeValue| + |DocText(p.value)|);
    MembersSkip(s, i);
  }

  lemma {:induction false} NameStarts(units: seq<Unit>)
    requires ProperUnits(units)
    ensures StringText(units) != "" && StringText(units)[0] == '"' && !Blank('"')
  {
    hide UnitsText;
  }

  lemma {:induction false} PairParts(pairs: seq<Pair>)
    requires pairs != [] && ProperPairs(pairs)
    ensures var p, rest := pairs[0], PairsRest(pairs) + "}";
            && PairsText(pairs) + "}"
               == p.before + (StringText(p.name) + (p.afterName + (":" + (p.beforeValue + (DocText(p.value) + (p.after + rest))))))
            && |PairsText(pairs)| + 1
               == |p.before| + |StringText(p.name)| + |p.afterName| + 1 + |p.beforeValue| + |DocText(p.value)| + |p.after| + |rest|
  {
    hide DocText, StringText, PairsRest;
    var p, w, r := pairs[0], PairsText(pairs), PairsRest(pairs);
    var v3 := DocText(p.value) + (p.after + r);
    var v2 := ":" + (p.beforeValue + v3);
    assert v3 + "}" == DocText(p.value) + (p.after + (r + "}"));
    assert v2 + "}" == ":" + (p.beforeValue + (v3 + "}"));
    assert (StringText(p.name) + (p.afterName + v2)) + "}" == StringText(p.name) + (p.afterName + (v2 + "}"));
    assert w == p.before + (StringText(p.name) + (p.afterName + v2));
    assert w + "}" == p.before + ((StringText(p.name) + (p.afterName + v2)) + "}");
  }

  /** The value of a pair and what stands behind it. */
  lemma {:induction false} PairValueRead(s: string, k: nat, pairs: seq<Pair>, rest: string)
    requires pairs != [] && ProperPairs(pairs) && rest == PairsRest(pairs) + "}"
    requires Has(s, k, DocText(pairs[0].value) + (pairs[0].after + rest))
    ensures var p := pairs[0]; var e := k + |DocText(p.value)|;
            && k <= |s| && ValueAt(s, k) == Ok(Denoted(p.value), e) && Skip(s, e) == e + |p.after|
            && MembersAfter(s, e + |p.after|) == Members(DenotedPairs(pairs[1..]), e + |p.after| + |rest|)
    decreases pairs, 1
  {
    hide Has, Skip, DocText, ValueAt, MembersAt, MembersAfter, At, Gap, Proper, PairsText;
    var p := pairs[0];
    var v := DocText(p.value);
    HasParts(s, k, v, p.after + rest);
    var e := k + |v|;
    RestStarts(pairs);
    GapSkipped(s, e, p.after, rest);
    DocRead(s, k, p.value);
    PairsRestRead(s, e + |p.after|, pairs, rest);
  }

  lemma {:induction false} RestStarts(pairs: seq<Pair>)
    requires pairs != [] && ProperPairs(pairs)
    ensures var rest := PairsRest(pairs) + "}"; (rest[0] == ',' || rest[0] == '}') && Ends(rest[0]) && !Blank(rest[0])
  {
    hide PairsText;
  }

  lemma {:induction false} PairsRestRead(s: string, k: nat, pairs: seq<Pair>, rest: string)
    requires pairs != [] && ProperPairs(pairs) && rest == PairsRest(pairs) + "}" && Has(s, k, rest)
    ensures k <= |s| && MembersAfter(s, k) == Members(DenotedPairs(pairs[1..]), k + |rest|)
    decreases pairs, 0
  {
    hide Has, Skip, MembersAt, At, PairsText;
    HasLength(s, k, rest);
    HasAt(s, k, rest, 0);
    if |pairs| > 1 {
      assert rest == "," + (PairsText(pairs[1..]) + "}");
      HasParts(s, k, ",", PairsText(pairs[1..]) + "}");
      PairsRead(s, k + 1, pairs[1..]);
    }
  }

  /** `cJSON_Parse` of any text of the grammar, with blanks around it. */
  lemma {:induction false} ParseReads(before: string, d: Doc, after: string)
    requires Gap(before) && Proper(d) && Gap(after)
    ensures var r := Parse(before + (DocText(d) + after)); r == Ok(Denoted(d), |before| + |DocText(d)|)
  {
    hide Has, Skip, DocText, ValueAt, Proper;
    var s := before + (DocText(d) + after);
    WholeText(s);
    DocStarts(d);
    GapSkipped(s, 0, before, DocText(d) + after);
    HasParts(s, |before|, DocText(d), after);
    EndsBehind(s, |before| + |DocText(d)|, after);
    DocRead(s, |before|, d);
  }

  lemma {:induction false} WholeText(s: string)
    ensures Has(s, 0, s)
  {
  }

  lemma {:induction false} EndsBehind(s: string, k: nat, after: string)
    requires Gap(after) && Has(s, k, after) && k + |after| == |s|
    ensures Ends(At(s, k))
  {
    if after != "" { HasAt(s, k, after, 0); }
  }

  // ---------- what is printed is such a text ----------

  /** How the printer writes one byte of a string. */
  function UnitOf(c: char): Unit {
    if c > 31 as char && c != '"' && c != '\\' then Plain(c)
    else if c == '"' then Short(0)
    else if c == '\\' then Short(1)
    else if c == 8 as char then Short(3)
    else if c == 12 as char then Short(4)
    else if c == '\n' then Short(5)
    else if c == '\r' then Short(6)
    else if c == '\t' then Short(7)
    else Coded([Hex(0, false), Hex(0, false), Hex(c as int / 16 % 16, false), Hex(c as int % 16, false)])
  }

  lemma {:induction false} LowerDigits(v: nat)
    requires v < 16
    ensures HexText(Hex(v, false)) == HexDigit(v)
  {
  }

  lemma {:induction false} UnitOfRight(c: char)
    requires c != NUL
    ensures ProperUnit(UnitOf(c)) && UnitText(UnitOf(c)) == Escaped(c) && UnitBytes(UnitOf(c)) == [c]
  {
    if UnitOf(c).Coded? { ControlOfRight(c); }
  }

  lemma {:induction false} ControlOfRight(c: char)
    requires NUL < c <= 31 as char && UnitOf(c).Coded? && |Escaped(c)| == 6
    ensures ProperUnit(UnitOf(c)) && UnitText(UnitOf(c)) == Escaped(c) && UnitBytes(UnitOf(c)) == [c]
  {
    hide HexText, HexDigit;
    LowerDigits(0);
    LowerDigits(c as int / 16 % 16);
    LowerDigits(c as int % 16);
    ZeroDigit();
    assert Value4(UnitOf(c).d) == c as int;
    Utf8Shape(c as int);
    assert Utf8(c as int) == [c];
  }

  lemma {:induction false} ZeroDigit()
    ensures HexDigit(0) == '0'
  {
  }

  function UnitsOf(v: string): seq<Unit> {
    if v == [] then [] else [UnitOf(v[0])] + UnitsOf(v[1..])
  }

  lemma {:induction false} UnitsOfRight(v: string)
    requires NulFree(v)
    ensures ProperUnits(UnitsOf(v)) && UnitsText(UnitsOf(v)) == Escape(v) && UnitsBytes(UnitsOf(v)) == v
    decreases |v|
  {
    hide UnitOf, UnitText, UnitBytes, Escaped, ProperUnit, NulFree;
    if v != [] {
      NulFreeTail(v);
      UnitOfRight(v[0]);
      UnitsOfRight(v[1..]);
      assert UnitsOf(v)[1..] == UnitsOf(v[1..]);
    }
  }

  lemma {:induction false} StringOfRight(v: string)
    requires NulFree(v)
    ensures ProperUnits(UnitsOf(v)) && StringText(UnitsOf(v)) == Quoted(v) && UnitsBytes(UnitsOf(v)) == v
  {
    hide UnitsOf, UnitsText, Escape, UnitsBytes;
    UnitsOfRight(v);
  }

  function DigitsOf(n: nat): seq<nat> { if n < 10 then [n] else DigitsOf(n / 10) + [n % 10] }

  lemma {:induction false} DigitsOfRight(n: nat)
    ensures ProperDigits(DigitsOf(n)) && IntValue(DigitsOf(n)) == n && DigitsText(DigitsOf(n)) == JsonTree.Digits(n)
    ensures n > 0 ==> DigitsOf(n)[0] > 0
    decreases n
  {
    if n >= 10 {
      DigitsOfRight(n / 10);
      assert DigitsOf(n)[..|DigitsOf(n)| - 1] == DigitsOf(n / 10);
    } else {
      assert DigitsOf(n)[..0] == [];
    }
  }

  function DocOf(t: Json, depth: nat, fmt: bool): Doc
    decreases t
  {
    match t
    case Null => NullDoc
    case False => FalseDoc
    case True => TrueDoc
    case Number(v) => IntDoc(v < 0, DigitsOf(if v < 0 then -v else v))
    case String(v) => StringDoc(UnitsOf(v))
    case Array(items) => ArrayDoc("", ItemsOf(items, depth + 1, fmt, true))
    case Object(ms) => ObjectDoc(If(fmt, "\n" + Tabs(depth - 1)), PairsOf(ms, depth, fmt))
  }

  function ItemsOf(items: seq<Json>, depth: nat, fmt: bool, first: bool): (r: seq<Item>)
    ensures |r| == |items|
    decreases items
  {
    if items == [] then []
    else [Item(If(fmt && !first, " "), DocOf(items[0], depth, fmt), "")] + ItemsOf(items[1..], depth, fmt, false)
  }

  function PairsOf(ms: seq<Member>, depth: nat, fmt: bool): (r: seq<Pair>)
    ensures |r| == |ms|
    decreases ms
  {
    if ms == [] then []
    else [Pair(If(fmt, "\n") + If(fmt, Tabs(depth + 1)), UnitsOf(ms[0].name), "", If(fmt, "\t"),
               DocOf(ms[0].value, depth + 1, fmt), LastGap(|ms| == 1, depth, fmt))]
         + PairsOf(ms[1..], depth, fmt)
  }

  /** Behind the last pair the closing brace stands on its own line. */
  function LastGap(last: bool, depth: nat, fmt: bool): string { If(last, If(fmt, "\n") + If(fmt, Tabs(depth))) }

  lemma {:induction false} TabsGap(n: int)
    ensures Gap(Tabs(n)) && Gap("\n" + Tabs(n)) && Gap("\n") && Gap("\t") && Gap(" ") && Gap("")
  {
    if n > 0 { TabsGap(n - 1); }
  }

  lemma {:induction false} GapJoined(a: string, b: string)
    requires Gap(a) && Gap(b)
    ensures Gap(a + b)
  {
  }

  /** Everything the printer writes, formatted or not and at any depth, is a text of the grammar and denotes the tree printed. */
  lemma {:induction false} RenderingIsText(t: Json, depth: nat, fmt: bool)
    requires Printable(t)
    ensures var d := DocOf(t, depth, fmt); Proper(d) && DocText(d) == Render(t, depth, fmt) && Denoted(d) == t
    decreases t, 0
  {
    hide UnitsOf, UnitsText, UnitsBytes, StringText, Quoted, DigitsOf, DigitsText, JsonTree.Digits, IntValue, Gap, ItemsText, PairsText;
    hide RenderMembers, Tabs, ProperUnits, ProperDigits, Decimal, Signed;
    match t
    case Null =>
    case False =>
    case True =>
    case Number(v) => NumberOfRight(v, depth, fmt);
    case String(v) => StringOfRight(v);
    case Array(items) =>
      TabsGap(0);
      ItemsOfRight(items, depth + 1, fmt, true);
      ArrayOfRight(items, depth, fmt);
    case Object(ms) =>
      TabsGap(depth - 1);
      PairsOfRight(ms, depth, fmt);
      ObjectOfRight(ms, depth, fmt);
  }

  lemma {:induction false} NumberOfRight(v: int, depth: nat, fmt: bool)
    requires INT_MIN <= v <= INT_MAX
    ensures var d := DocOf(Number(v), depth, fmt); Proper(d) && DocText(d) == Render(Number(v), depth, fmt) && Denoted(d) == Number(v)
  {
    hide DigitsOf, DigitsText, JsonTree.Digits, IntValue;
    DigitsOfRight(if v < 0 then -v else v);
  }

  lemma {:induction false} ArrayOfRight(items: seq<Json>, depth: nat, fmt: bool)
    requires ProperItems(ItemsOf(items, depth + 1, fmt, true)) && Gap("")
    requires ItemsText(ItemsOf(items, depth + 1, fmt, true)) == RenderItems(items, depth + 1, fmt)
    ensures DocText(DocOf(Array(items), depth, fmt)) == Render(Array(items), depth, fmt)
  {
    hide ItemsText, ItemsOf, RenderItems;
    NoItemsText(items, depth, fmt);
    var w := RenderItems(items, depth + 1, fmt);
    assert "[" + (w + "]") == "[" + w + "]";
  }

  lemma {:induction false} NoItemsText(items: seq<Json>, depth: nat, fmt: bool)
    ensures items == [] ==> RenderItems(items, depth + 1, fmt) == ""
  {
  }

  lemma {:induction false} ObjectOfRight(ms: seq<Member>, depth: nat, fmt: bool)
    requires ProperPairs(PairsOf(ms, depth, fmt)) && Gap(If(fmt, "\n" + Tabs(depth - 1)))
    requires ms != [] ==> PairsText(PairsOf(ms, depth, fmt)) == If(fmt, "\n") + (RenderMembers(ms, depth + 1, fmt) + If(fmt, Tabs(depth)))
    ensures DocText(DocOf(Object(ms), depth, fmt)) == Render(Object(ms), depth, fmt)
  {
    hide PairsText, PairsOf, RenderMembers, Tabs, If;
    var a, b, c := If(fmt, "\n"), RenderMembers(ms, depth + 1, fmt), If(fmt, Tabs(depth));
    assert (a + (b + c)) + "}" == a + (b + (c + "}"));
  }

  lemma {:induction false} ItemsOfRight(items: seq<Json>, depth: nat, fmt: bool, first: bool)
    requires PrintableItems(items)
    ensures var r := ItemsOf(items, depth, fmt, first);
            && ProperItems(r) && DenotedItems(r) == items
            && ItemsText(r) == If(fmt && !first && items != [], " ") + RenderItems(items, depth, fmt)
    decreases items, 1
  {
    hide DocOf, DocText, Render, Denoted, Proper, Gap;
    if items != [] {
      TabsGap(0);
      RenderingIsText(items[0], depth, fmt);
      ItemsOfRight(items[1..], depth, fmt, false);
      var r := ItemsOf(items, depth, fmt, first);
      assert r[1..] == ItemsOf(items[1..], depth, fmt, false);
      ItemsOfText(items, depth, fmt, first);
    }
  }

  lemma {:induction false} ItemsOfText(items: seq<Json>, depth: nat, fmt: bool, first: bool)
    requires items != [] && ProperItems(ItemsOf(items, depth, fmt, first)) && ItemsOf(items, depth, fmt, first)[1..] == ItemsOf(items[1..], depth, fmt, false)
    requires DocText(DocOf(items[0], depth, fmt)) == Render(items[0], depth, fmt)
    requires ItemsText(ItemsOf(items[1..], depth, fmt, false)) == If(fmt && items[1..] != [], " ") + RenderItems(items[1..], depth, fmt)
    ensures ItemsText(ItemsOf(items, depth, fmt, first)) == If(fmt && !first, " ") + RenderItems(items, depth, fmt)
  {
    hide DocOf, DocText, Render, Proper;
    var v := Render(items[0], depth, fmt);
    var tail := ItemsTail(items, depth, fmt);
    assert "" + tail == tail;
  }

  lemma {:induction false} PairsOfRight(ms: seq<Member>, depth: nat, fmt: bool)
    requires PrintableMembers(ms)
    ensures var r := PairsOf(ms, depth, fmt);
            && ProperPairs(r) && DenotedPairs(r) == ms
            && (ms != [] ==> PairsText(r) == If(fmt, "\n") + (RenderMembers(ms, depth + 1, fmt) + If(fmt, Tabs(depth))))
    decreases ms, 1
  {
    hide DocOf, DocText, Render, Denoted, Proper, Gap, Tabs, UnitsOf, UnitsBytes, PairsText, RenderMembers, StringText, ProperUnits;
    if ms != [] {
      GapsProper(depth, fmt);
      StringOfRight(ms[0].name);
      RenderingIsText(ms[0].value, depth + 1, fmt);
      PairsOfRight(ms[1..], depth, fmt);
      assert PairsOf(ms, depth, fmt)[1..] == PairsOf(ms[1..], depth, fmt);
      assert [Member(ms[0].name, ms[0].value)] + ms[1..] == ms;
      PairsOfText(ms, depth, fmt);
    }
  }

  lemma {:induction false} GapsProper(depth: nat, fmt: bool)
    ensures Gap(If(fmt, "\n") + If(fmt, Tabs(depth + 1))) && Gap("") && Gap(If(fmt, "\t"))
    ensures forall last :: Gap(LastGap(last, depth, fmt))
  {
    hide Gap, Tabs;
    TabsGap(depth);
    TabsGap(depth + 1);
    if fmt {
      GapJoined("\n", Tabs(depth + 1));
      GapJoined("\n", Tabs(depth));
    } else {
      assert "" + "" == "";
    }
  }

  lemma {:induction false} PairsOfText(ms: seq<Member>, depth: nat, fmt: bool)
    requires ms != [] && ProperPairs(PairsOf(ms, depth, fmt)) && PairsOf(ms, depth, fmt)[1..] == PairsOf(ms[1..], depth, fmt)
    requires StringText(UnitsOf(ms[0].name)) == Quoted(ms[0].name)
    requires DocText(DocOf(ms[0].value, depth + 1, fmt)) == Render(ms[0].value, depth + 1, fmt)
    requires |ms| > 1 ==> PairsText(PairsOf(ms[1..], depth, fmt))
                          == If(fmt, "\n") + (RenderMembers(ms[1..], depth + 1, fmt) + If(fmt, Tabs(depth)))
    ensures PairsText(PairsOf(ms, depth, fmt)) == If(fmt, "\n") + (RenderMembers(ms, depth + 1, fmt) + If(fmt, Tabs(depth)))
  {
    hide DocOf, DocText, Render, Proper, Gap, Tabs, UnitsOf, Quoted, StringText, RenderMembers, If, ProperUnits;
    var nl, tabs, close, gap := If(fmt, "\n"), If(fmt, Tabs(depth + 1)), If(fmt, Tabs(depth)), If(fmt, "\t");
    var q, v, more := Quoted(ms[0].name), Render(ms[0].value, depth + 1, fmt), RenderMembers(ms[1..], depth + 1, fmt);
    MembersText(ms, depth + 1, fmt);
    IfTexts(|ms| == 1, depth, fmt);
    IfTexts(false, depth, fmt);
    var end := if |ms| == 1 then nl + close else "," + (nl + (more + close));
    PairTextIs(ms, depth, fmt, end);
    if |ms| == 1 {
      Arranged(nl, tabs, q, gap, v, nl + "", close, end);
    } else {
      CommaArranged(nl, more, close);
      Arranged(nl, tabs, q, gap, v, "," + (nl + more), close, end);
    }
  }

  lemma {:induction false} CommaArranged(nl: string, more: string, close: string)
    ensures ("," + (nl + more)) + close == "," + (nl + (more + close))
  {
  }

  lemma {:induction false} Arranged(nl: string, tabs: string, q: string, gap: string, v: string, rest: string, close: string, end: string)
    requires rest + close == end
    ensures (nl + tabs) + (q + ("" + (":" + (gap + (v + end))))) == nl + (((tabs + (q + (":" + (gap + v)))) + rest) + close)
  {
    var m := tabs + (q + (":" + (gap + v)));
    assert (m + rest) + close == m + end;
    assert m + end == tabs + (q + (":" + (gap + (v + end))));
    assert "" + (":" + (gap + (v + end))) == ":" + (gap + (v + end));
  }

  /** The rendering of members, its first member taken apart. */
  lemma {:induction false} MembersText(ms: seq<Member>, depth: nat, fmt: bool)
    requires ms != []
    ensures var m := If(fmt, Tabs(depth)) + (Quoted(ms[0].name) + (":" + (If(fmt, "\t") + Render(ms[0].value, depth, fmt))));
            RenderMembers(ms, depth, fmt)
            == m + (if |ms| == 1 then If(fmt, "\n") + "" else "," + (If(fmt, "\n") + RenderMembers(ms[1..], depth, fmt)))
  {
    hide Render, Quoted, Tabs;
    if |ms| == 1 { assert RenderMembers(ms[1..], depth, fmt) == ""; }
    assert If(|ms| > 1, ",") + (If(fmt, "\n") + RenderMembers(ms[1..], depth, fmt))
        == if |ms| == 1 then If(fmt, "\n") + "" else "," + (If(fmt, "\n") + RenderMembers(ms[1..], depth, fmt));
  }

  lemma {:induction false} IfTexts(last: bool, depth: nat, fmt: bool)
    ensures LastGap(last, depth, fmt) == if last then If(fmt, "\n") + If(fmt, Tabs(depth)) else ""
  {
    hide Tabs;
  }

  /** The text of the first pair, and what follows it. */
  lemma {:induction false} PairTextIs(ms: seq<Member>, depth: nat, fmt: bool, end: string)
    requires ms != [] && ProperPairs(PairsOf(ms, depth, fmt)) && PairsOf(ms, depth, fmt)[1..] == PairsOf(ms[1..], depth, fmt)
    requires StringText(UnitsOf(ms[0].name)) == Quoted(ms[0].name)
    requires DocText(DocOf(ms[0].value, depth + 1, fmt)) == Render(ms[0].value, depth + 1, fmt)
    requires end == if |ms| == 1 then LastGap(true, depth, fmt) else "," + PairsText(PairsOf(ms[1..], depth, fmt))
    requires LastGap(false, depth, fmt) == ""
    ensures PairsText(PairsOf(ms, depth, fmt))
            == (If(fmt, "\n") + If(fmt, Tabs(depth + 1)))
               + (Quoted(ms[0].name) + ("" + (":" + (If(fmt, "\t") + (Render(ms[0].value, depth + 1, fmt) + end)))))
  {
    hide DocOf, DocText, Render, Proper, Gap, Tabs, UnitsOf, Quoted, StringText, If, ProperUnits, LastGap;
    var r := PairsOf(ms, depth, fmt);
    assert r[0].before == If(fmt, "\n") + If(fmt, Tabs(depth + 1)) && r[0].after == LastGap(|ms| == 1, depth, fmt);
    if |ms| == 1 {
      assert r[0].after + PairsRest(r) == end;
    } else {
      assert r[0].after + PairsRest(r) == end;
    }
  }

  // ---------- reading undoes printing ----------

  /** Wherever a rendering stands in a text, reading there gives the tree back and stops behind it. */
  lemma {:induction false} ValueRoundTrip(s: string, i: nat, t: Json, depth: nat, fmt: bool)
    requires Printable(t) && Has(s, i, Render(t, depth, fmt)) && Ends(At(s, i + |Render(t, depth, fmt)|))
    ensures i <= |s| && ValueAt(s, i) == Ok(t, i + |Render(t, depth, fmt)|)
  {
    hide Has, DocOf, Render, DocText, Denoted, Proper, Printable, ValueAt;
    RenderingIsText(t, depth, fmt);
    DocRead(s, i, DocOf(t, depth, fmt));
  }

  /** Parsing what was printed, formatted or not, gives the same tree. */
  lemma {:induction false} ParseRoundTrip(t: Json, fmt: bool)
    requires Printable(t)
    ensures Parse(Render(t, 0, fmt)) == Ok(t, |Render(t, 0, fmt)|)
  {
    hide DocOf, Render, DocText, Denoted, Proper, Printable, Parse;
    var w := Render(t, 0, fmt);
    RenderingIsText(t, 0, fmt);
    TabsGap(0);
    ParseReads("", DocOf(t, 0, fmt), "");
    assert "" + (w + "") == w;
  }
}
