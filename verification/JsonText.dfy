/** JSON texts as derivations of the grammar of RFC 8259 (sections 2 to 7), with all white space kept, in two
    strengths: `strict` is the grammar itself; the relaxed one, which the recogniser follows, also allows
    leading zeros and empty digit runs after `.` and after the exponent sign. A text in either strength is
    parsed to its end by the scan of the same strength. */
module JsonText {
  import opened JsonParser
  import opened Wrappers

  datatype StrItem = Plain(c: char) | Escaped(c: char) | Unicode(hex: string)

  datatype Exponent = Exponent(e: char, sign: string, digits: string)

  datatype Number = Number(neg: bool, digits: string, frac: Option<string>, exp: Option<Exponent>)

  datatype Json =
    | Word(word: string)
    | Str(items: seq<StrItem>)
    | Num(n: Number)
    | EmptyObject(ws: string)
    | Object(members: Members)
    | EmptyArray(ws: string)
    | Array(elements: Elements)

  datatype Element = Element(before: string, v: Json, after: string)

  datatype Elements = LastElement(e: Element) | MoreElements(e: Element, rest: Elements)

  datatype Member = Member(before: string, key: seq<StrItem>, after: string, value: Element)

  datatype Members = LastMember(m: Member) | MoreMembers(m: Member, rest: Members)

  // ---------- the text of a derivation ----------

  function ItemText(x: StrItem): string {
    match x
    case Plain(c) => [c]
    case Escaped(c) => ['\\', c]
    case Unicode(h) => ['\\', 'u'] + h
  }

  function ItemsText(xs: seq<StrItem>): string {
    if xs == [] then "" else ItemText(xs[0]) + ItemsText(xs[1..])
  }

  function FracText(f: Option<string>): string {
    match f case None => "" case Some(ds) => "." + ds
  }

  function ExpText(x: Option<Exponent>): string {
    match x case None => "" case Some(x) => [x.e] + (x.sign + x.digits)
  }

  function NumText(n: Number): string {
    (if n.neg then "-" else "") + (n.digits + (FracText(n.frac) + ExpText(n.exp)))
  }

  function Text(v: Json): string {
    match v
    case Word(w) => w
    case Str(xs) => "\"" + (ItemsText(xs) + "\"")
    case Num(n) => NumText(n)
    case EmptyObject(ws) => "{" + (ws + "}")
    case Object(ms) => "{" + (MembersText(ms) + "}")
    case EmptyArray(ws) => "[" + (ws + "]")
    case Array(es) => "[" + (ElementsText(es) + "]")
  }

  function ElementText(e: Element): string { e.before + (Text(e.v) + e.after) }

  function ElementsText(es: Elements): string {
    match es
    case LastElement(e) => ElementText(e)
    case MoreElements(e, rest) => ElementText(e) + ("," + ElementsText(rest))
  }

  function MemberText(m: Member): string {
    m.before + ("\"" + (ItemsText(m.key) + "\"")) + (m.after + (":" + ElementText(m.value)))
  }

  function MembersText(ms: Members): string {
    match ms
    case LastMember(m) => MemberText(m)
    case MoreMembers(m, rest) => MemberText(m) + ("," + MembersText(rest))
  }

  // ---------- well-formed derivations ----------

  // The character classes of the grammar, by code point, as RFC 8259 gives them.

  /** Section 2: space, horizontal tab, line feed, carriage return. */
  predicate WsChar(c: char) { c as int in {0x20, 0x09, 0x0A, 0x0D} }

  /** Section 6: %x30-39. */
  predicate DigitChar(c: char) { 0x30 <= c as int <= 0x39 }

  /** Section 7: a digit, %x41-46 or %x61-66. */
  predicate HexChar(c: char) { DigitChar(c) || 0x41 <= c as int <= 0x46 || 0x61 <= c as int <= 0x66 }

  /** Section 7, unescaped: %x20-21, %x23-5B, %x5D and up. */
  predicate UnescapedChar(c: char) {
    0x20 <= c as int <= 0x21 || 0x23 <= c as int <= 0x5B || 0x5D <= c as int
  }

  /** Section 7, after a backslash: quotation mark, backslash, slash, b, f, n, r, t. */
  predicate EscapeChar(c: char) { c as int in {0x22, 0x5C, 0x2F, 0x62, 0x66, 0x6E, 0x72, 0x74} }

  /** The recogniser's own tests are these classes. */
  lemma CharClasses(c: char)
    ensures IsWs(c) <==> WsChar(c)
    ensures IsDigit(c) <==> DigitChar(c)
    ensures IsHex(c) <==> HexChar(c)
    ensures c != '"' && c != '\\' && !IsControl(c) <==> UnescapedChar(c)
    ensures IsEscape(c) <==> EscapeChar(c)
  {
  }

  predicate AllWs(s: string) { forall i | 0 <= i < |s| :: WsChar(s[i]) }

  predicate AllDigits(s: string) { forall i | 0 <= i < |s| :: DigitChar(s[i]) }

  predicate AllHex(s: string) { forall i | 0 <= i < |s| :: HexChar(s[i]) }

  predicate ItemOk(x: StrItem) {
    match x
    case Plain(c) => UnescapedChar(c)
    case Escaped(c) => EscapeChar(c)
    case Unicode(h) => |h| == 4 && AllHex(h)
  }

  predicate ItemsOk(xs: seq<StrItem>) { forall i | 0 <= i < |xs| :: ItemOk(xs[i]) }

  predicate NumberOk(n: Number, strict: bool) {
    && n.digits != "" && AllDigits(n.digits)
    && (strict && n.digits[0] == '0' ==> |n.digits| == 1)
    && (n.frac.Some? ==> AllDigits(n.frac.value) && (strict ==> n.frac.value != ""))
    && (n.exp.Some? ==>
          && (n.exp.value.e == 'e' || n.exp.value.e == 'E')
          && (n.exp.value.sign == "" || n.exp.value.sign == "+" || n.exp.value.sign == "-")
          && AllDigits(n.exp.value.digits) && (strict ==> n.exp.value.digits != ""))
  }

  predicate WellFormed(v: Json, strict: bool) {
    match v
    case Word(w) => w == "true" || w == "false" || w == "null"
    case Str(xs) => ItemsOk(xs)
    case Num(n) => NumberOk(n, strict)
    case EmptyObject(ws) => AllWs(ws)
    case Object(ms) => MembersOk(ms, strict)
    case EmptyArray(ws) => AllWs(ws)
    case Array(es) => ElementsOk(es, strict)
  }

  predicate ElementOk(e: Element, strict: bool) { AllWs(e.before) && WellFormed(e.v, strict) && AllWs(e.after) }

  predicate ElementsOk(es: Elements, strict: bool) {
    match es
    case LastElement(e) => ElementOk(e, strict)
    case MoreElements(e, rest) => ElementOk(e, strict) && ElementsOk(rest, strict)
  }

  predicate MemberOk(m: Member, strict: bool) {
    AllWs(m.before) && ItemsOk(m.key) && AllWs(m.after) && ElementOk(m.value, strict)
  }

  predicate MembersOk(ms: Members, strict: bool) {
    match ms
    case LastMember(m) => MemberOk(m, strict)
    case MoreMembers(m, rest) => MemberOk(m, strict) && MembersOk(rest, strict)
  }

  /** A JSON text: a value with white space around it. */
  ghost predicate IsJsonText(s: string) {
    exists e: Element :: ElementOk(e, true) && s == ElementText(e)
  }

  // ---------- every text parses ----------

  /** `t` stands in `w` at index `i`. */
  ghost predicate At(w: string, i: nat, t: string) {
    i + |t| <= |w| && w[i..i + |t|] == t
  }

  lemma AtConcat(w: string, i: nat, a: string, b: string)
    requires At(w, i, a + b)
    ensures At(w, i, a) && At(w, i + |a|, b) && i + |a| + |b| <= |w|
  {
    var t := w[i..i + |a + b|];
    assert w[i..i + |a|] == t[..|a|];
    assert w[i + |a|..i + |a| + |b|] == t[|a|..];
  }

  lemma AtIndex(w: string, i: nat, t: string, k: nat)
    requires At(w, i, t) && k < |t|
    ensures i + |t| <= |w| && w[i + k] == t[k]
  {
    assert w[i..i + |t|][k] == t[k];
  }

  lemma AtBound(w: string, i: nat, t: string)
    requires At(w, i, t)
    ensures i + |t| <= |w|
  {
  }

  lemma {:induction false} WsSkipped(w: string, i: nat, ws: string)
    requires At(w, i, ws) && AllWs(ws) && (i + |ws| < |w| ==> !IsWs(w[i + |ws|]))
    ensures SkipWs(w, i) == i + |ws|
    decreases |ws|
  {
    if ws != "" {
      AtIndex(w, i, ws, 0);
      assert ws == [ws[0]] + ws[1..];
      AtConcat(w, i, [ws[0]], ws[1..]);
      WsSkipped(w, i + 1, ws[1..]);
    }
  }

  lemma {:induction false} DigitsSkipped(w: string, i: nat, ds: string)
    requires At(w, i, ds) && AllDigits(ds) && (i + |ds| < |w| ==> !IsDigit(w[i + |ds|]))
    ensures SkipDigits(w, i) == i + |ds|
    decreases |ds|
  {
    if ds != "" {
      AtIndex(w, i, ds, 0);
      assert ds == [ds[0]] + ds[1..];
      AtConcat(w, i, [ds[0]], ds[1..]);
      DigitsSkipped(w, i + 1, ds[1..]);
    }
  }

  lemma {:induction false} HexParsed(w: string, i: nat, h: string)
    requires At(w, i, h) && AllHex(h)
    ensures HexRun(w, i, |h|) == Parsed(true, i + |h|)
    decreases |h|
  {
    if h != "" {
      AtIndex(w, i, h, 0);
      assert h == [h[0]] + h[1..];
      AtConcat(w, i, [h[0]], h[1..]);
      HexParsed(w, i + 1, h[1..]);
    }
  }

  lemma {:induction false} KeywordParsed(w: string, i: nat, kw: string)
    requires At(w, i, kw)
    ensures KeywordAt(w, i, kw) == Parsed(true, i + |kw|)
    decreases |kw|
  {
    if kw != "" {
      AtIndex(w, i, kw, 0);
      assert kw == [kw[0]] + kw[1..];
      AtConcat(w, i, [kw[0]], kw[1..]);
      KeywordParsed(w, i + 1, kw[1..]);
    }
  }

  lemma ItemParsed(w: string, i: nat, x: StrItem)
    requires At(w, i, ItemText(x)) && ItemOk(x)
    ensures i + |ItemText(x)| <= |w| && StringBody(w, i) == StringBody(w, i + |ItemText(x)|)
  {
    hide At;
    AtIndex(w, i, ItemText(x), 0);
    if !x.Plain? { AtIndex(w, i, ItemText(x), 1); }
    if x.Unicode? {
      AtConcat(w, i, ['\\', 'u'], x.hex);
      HexParsed(w, i + 2, x.hex);
    }
  }

  lemma {:induction false} ItemsParsed(w: string, i: nat, xs: seq<StrItem>)
    requires At(w, i, ItemsText(xs) + "\"") && ItemsOk(xs)
    ensures StringBody(w, i) == Parsed(true, i + |ItemsText(xs)| + 1)
    decreases |xs|
  {
    hide At;
    if xs == [] {
      assert ItemsText(xs) + "\"" == "\"";
      AtIndex(w, i, "\"", 0);
    } else {
      var x, rest := ItemText(xs[0]), ItemsText(xs[1..]) + "\"";
      assert ItemsText(xs) + "\"" == x + rest;
      AtConcat(w, i, x, rest);
      ItemParsed(w, i, xs[0]);
      ItemsParsed(w, i + |x|, xs[1..]);
    }
  }

  lemma StringParsed(w: string, i: nat, xs: seq<StrItem>)
    requires At(w, i, "\"" + (ItemsText(xs) + "\"")) && ItemsOk(xs)
    ensures StringAt(w, i) == Parsed(true, i + |ItemsText(xs)| + 2)
  {
    AtConcat(w, i, "\"", ItemsText(xs) + "\"");
    AtIndex(w, i, "\"", 0);
    ItemsParsed(w, i + 1, xs);
  }

  /** What may follow a value inside an array or an object, and at the end of a text. */
  predicate Follows(w: string, i: nat) {
    i < |w| ==> IsWs(w[i]) || w[i] == ',' || w[i] == ']' || w[i] == '}'
  }

  lemma NumberParsed(w: string, i: nat, n: Number, strict: bool)
    requires At(w, i, NumText(n)) && NumberOk(n, strict) && Follows(w, i + |NumText(n)|)
    ensures NumberAt(w, i, strict) == Parsed(true, i + |NumText(n)|)
  {
    hide At, SkipDigits, SkipFraction, SkipExponent, StrictNumber, FracText, ExpText;
    var sign := if n.neg then "-" else "";
    var rest := n.digits + (FracText(n.frac) + ExpText(n.exp));
    AtConcat(w, i, sign, rest);
    if n.neg { AtIndex(w, i, sign, 0); }
    DigitsParsed(w, i + |sign|, n, strict);
  }

  lemma DigitsParsed(w: string, i: nat, n: Number, strict: bool)
    requires At(w, i, n.digits + (FracText(n.frac) + ExpText(n.exp))) && NumberOk(n, strict)
    requires Follows(w, i + |n.digits + (FracText(n.frac) + ExpText(n.exp))|)
    ensures i < |w| && IsDigit(w[i])
    ensures SkipExponent(w, SkipFraction(w, SkipDigits(w, i)))
      == i + |n.digits + (FracText(n.frac) + ExpText(n.exp))|
    ensures strict ==> StrictNumber(w, i)
  {
    hide At, SkipDigits, SkipFraction, SkipExponent, StrictFraction, StrictExponent, FracText, ExpText;
    var fe := FracText(n.frac) + ExpText(n.exp);
    AtConcat(w, i, n.digits, fe);
    AtIndex(w, i, n.digits, 0);
    FracExpStart(w, i + |n.digits|, n);
    DigitsSkipped(w, i, n.digits);
    FracExpParsed(w, i + |n.digits|, n, strict);
  }

  /** After the integer part comes no digit. */
  lemma FracExpStart(w: string, i: nat, n: Number)
    requires At(w, i, FracText(n.frac) + ExpText(n.exp)) && NumberOk(n, false)
    requires Follows(w, i + |FracText(n.frac) + ExpText(n.exp)|)
    ensures i < |w| ==> !IsDigit(w[i])
  {
    if FracText(n.frac) + ExpText(n.exp) != "" { AtIndex(w, i, FracText(n.frac) + ExpText(n.exp), 0); }
  }

  lemma FracExpParsed(w: string, i: nat, n: Number, strict: bool)
    requires At(w, i, FracText(n.frac) + ExpText(n.exp)) && NumberOk(n, strict)
    requires Follows(w, i + |FracText(n.frac) + ExpText(n.exp)|)
    ensures i <= |w| && SkipExponent(w, SkipFraction(w, i)) == i + |FracText(n.frac) + ExpText(n.exp)|
    ensures strict ==> StrictFraction(w, i) && StrictExponent(w, SkipFraction(w, i))
  {
    hide At, SkipDigits, SkipExponent, StrictExponent;
    var f, x := FracText(n.frac), ExpText(n.exp);
    AtConcat(w, i, f, x);
    var k := i + |f|;
    if x != "" { AtIndex(w, k, x, 0); }
    assert x != "" ==> x[0] == 'e' || x[0] == 'E';
    if n.frac.Some? {
      AtIndex(w, i, f, 0);
      AtConcat(w, i, ".", n.frac.value);
      if n.frac.value != "" { AtIndex(w, i + 1, n.frac.value, 0); }
      DigitsSkipped(w, i + 1, n.frac.value);
    }
    assert SkipFraction(w, i) == k;
    ExpParsed(w, k, n.exp, strict);
  }

  lemma ExpParsed(w: string, i: nat, x: Option<Exponent>, strict: bool)
    requires At(w, i, ExpText(x)) && Follows(w, i + |ExpText(x)|)
    requires NumberOk(Number(false, "0", None, x), strict)
    ensures i <= |w| && SkipExponent(w, i) == i + |ExpText(x)| && (strict ==> StrictExponent(w, i))
  {
    AtBound(w, i, ExpText(x));
    if x.Some? {
      hide At, SkipDigits;
      var e, rest := [x.value.e], x.value.sign + x.value.digits;
      AtConcat(w, i, e, rest);
      AtIndex(w, i, e, 0);
      SignParsed(w, i + 1, x.value.sign, x.value.digits);
    }
  }

  lemma SignParsed(w: string, i: nat, sign: string, digits: string)
    requires At(w, i, sign + digits) && AllDigits(digits) && Follows(w, i + |sign + digits|)
    requires sign == "" || sign == "+" || sign == "-"
    ensures sign != "" ==> i < |w| && w[i] == sign[0]
    ensures sign == "" ==> i < |w| ==> w[i] != '+' && w[i] != '-'
    ensures i + |sign| <= |w| && SkipDigits(w, i + |sign|) == i + |sign + digits|
    ensures digits != "" ==> DigitOrEnd(w, i + |sign|)
  {
    hide At, SkipDigits;
    AtConcat(w, i, sign, digits);
    DigitsSkipped(w, i + |sign|, digits);
    if sign != "" { AtIndex(w, i, sign, 0); }
    if digits != "" { AtIndex(w, i + |sign|, digits, 0); }
  }

  lemma NonWsStart(v: Json, strict: bool)
    requires WellFormed(v, strict)
    ensures Text(v) != "" && !IsWs(Text(v)[0])
  {
  }

  /** A value followed by white space, a separator or the end is parsed to its last character. */
  lemma {:induction false} ValueParsed(w: string, i: nat, v: Json, strict: bool)
    requires At(w, i, Text(v)) && WellFormed(v, strict) && Follows(w, i + |Text(v)|)
    ensures ValueAt(w, i, strict) == Parsed(true, i + |Text(v)|)
    decreases v, 1
  {
    hide At;
    if v.Num? {
      NonWsStart(v, strict);
      AtIndex(w, i, Text(v), 0);
      NumberParsed(w, i, v.n, strict);
    } else {
      NonNumberParsed(w, i, v, strict);
    }
  }

  /** Only a number looks beyond its own text: any other value is parsed whatever follows it. */
  lemma {:induction false} NonNumberParsed(w: string, i: nat, v: Json, strict: bool)
    requires At(w, i, Text(v)) && WellFormed(v, strict) && !v.Num?
    ensures i <= |w| && ValueAt(w, i, strict) == Parsed(true, i + |Text(v)|)
    decreases v, 0
  {
    hide At, KeywordAt, ObjectAt, ArrayAt, StringAt, MembersText, ElementsText, ItemsText;
    NonWsStart(v, strict);
    AtIndex(w, i, Text(v), 0);
    match v
    case Word(word) => KeywordParsed(w, i, word);
    case Str(xs) => StringParsed(w, i, xs);
    case EmptyObject(ws) => EmptyObjectParsed(w, i, ws, strict);
    case EmptyArray(ws) => EmptyArrayParsed(w, i, ws, strict);
    case Object(ms) => ObjectParsed(w, i, ms, strict);
    case Array(es) => ArrayParsed(w, i, es, strict);
  }

  lemma {:induction false} ObjectParsed(w: string, i: nat, ms: Members, strict: bool)
    requires At(w, i, "{" + (MembersText(ms) + "}")) && MembersOk(ms, strict)
    ensures i <= |w| && ObjectAt(w, i, strict) == Parsed(true, i + |MembersText(ms)| + 2)
    decreases ms, 3
  {
    hide At, MembersAt;
    AtConcat(w, i, "{", MembersText(ms) + "}");
    AtIndex(w, i, "{", 0);
    MembersParsed(w, i + 1, ms, strict);
    MembersSkip(w, i + 1, ms, strict);
  }

  lemma {:induction false} ArrayParsed(w: string, i: nat, es: Elements, strict: bool)
    requires At(w, i, "[" + (ElementsText(es) + "]")) && ElementsOk(es, strict)
    ensures i <= |w| && ArrayAt(w, i, strict) == Parsed(true, i + |ElementsText(es)| + 2)
    decreases es, 3
  {
    hide At, ElementsAt;
    AtConcat(w, i, "[", ElementsText(es) + "]");
    AtIndex(w, i, "[", 0);
    ElementsParsed(w, i + 1, es, strict);
    ElementsSkip(w, i + 1, es, strict);
  }

  lemma EmptyObjectParsed(w: string, i: nat, ws: string, strict: bool)
    requires At(w, i, "{" + (ws + "}")) && AllWs(ws)
    ensures i < |w| && ObjectAt(w, i, strict) == Parsed(true, i + |ws| + 2)
  {
    hide At, SkipWs, MembersAt;
    AtConcat(w, i, "{", ws + "}");
    AtIndex(w, i, "{", 0);
    EmptyParsed(w, i, "{", ws, "}");
  }

  lemma EmptyArrayParsed(w: string, i: nat, ws: string, strict: bool)
    requires At(w, i, "[" + (ws + "]")) && AllWs(ws)
    ensures i < |w| && ArrayAt(w, i, strict) == Parsed(true, i + |ws| + 2)
  {
    hide At, SkipWs, ElementsAt;
    AtConcat(w, i, "[", ws + "]");
    AtIndex(w, i, "[", 0);
    EmptyParsed(w, i, "[", ws, "]");
  }

  lemma EmptyParsed(w: string, i: nat, open: string, ws: string, close: string)
    requires At(w, i, open + (ws + close)) && AllWs(ws) && |open| == 1 && |close| == 1 && !IsWs(close[0])
    ensures i + |ws| + 1 < |w| && SkipWs(w, i + 1) == i + 1 + |ws| && w[i + 1 + |ws|] == close[0]
  {
    AtConcat(w, i, open, ws + close);
    AtConcat(w, i + 1, ws, close);
    AtIndex(w, i + 1 + |ws|, close, 0);
    WsSkipped(w, i + 1, ws);
  }

  /** Parsing a value, an element or a list does not depend on the white space skipped before it. */
  lemma SkipThenValue(w: string, i: nat, j: nat, strict: bool)
    requires i <= |w| && j == SkipWs(w, i)
    ensures SkipWs(w, j) == j && ValueAt(w, j, strict) == ValueAt(w, i, strict)
    ensures MemberAt(w, j, strict) == MemberAt(w, i, strict) && ElementAt(w, j, strict) == ElementAt(w, i, strict)
  {
    SkipTwice(w, i);
  }

  lemma SkipThenList(w: string, i: nat, strict: bool)
    requires i <= |w|
    ensures MembersAt(w, SkipWs(w, i), strict) == MembersAt(w, i, strict)
    ensures ElementsAt(w, SkipWs(w, i), strict) == ElementsAt(w, i, strict)
  {
    hide MemberAt, ElementAt;
    SkipThenValue(w, i, SkipWs(w, i), strict);
  }

  lemma {:induction false} SkipTwice(w: string, i: nat)
    requires i <= |w|
    ensures SkipWs(w, SkipWs(w, i)) == SkipWs(w, i)
    ensures SkipWs(w, i) < |w| ==> !IsWs(w[SkipWs(w, i)])
    decreases |w| - i
  {
    if i < |w| && IsWs(w[i]) { SkipTwice(w, i + 1); }
  }

  lemma MembersSkip(w: string, i: nat, ms: Members, strict: bool)
    requires At(w, i, MembersText(ms) + "}") && MembersOk(ms, strict)
    ensures i <= |w| && SkipWs(w, i) < |w| && w[SkipWs(w, i)] == '"'
    ensures MembersAt(w, SkipWs(w, i), strict) == MembersAt(w, i, strict)
  {
    hide At, MembersAt, ItemsText, Text;
    var m := ms.m;
    var key := "\"" + (ItemsText(m.key) + "\"");
    var rest := m.after + (":" + ElementText(m.value));
    var tail := if ms.LastMember? then "}" else ("," + MembersText(ms.rest)) + "}";
    assert MembersText(ms) + "}" == m.before + (key + (rest + tail));
    AtConcat(w, i, m.before, key + (rest + tail));
    AtIndex(w, i + |m.before|, key + (rest + tail), 0);
    WsSkipped(w, i, m.before);
    SkipThenList(w, i, strict);
  }

  lemma ElementsSkip(w: string, i: nat, es: Elements, strict: bool)
    requires At(w, i, ElementsText(es) + "]") && ElementsOk(es, strict)
    ensures i <= |w| && SkipWs(w, i) < |w| && w[SkipWs(w, i)] != ']'
    ensures ElementsAt(w, SkipWs(w, i), strict) == ElementsAt(w, i, strict)
  {
    hide At, ElementsAt, Text;
    var e := es.e;
    var tail := if es.LastElement? then "]" else ("," + ElementsText(es.rest)) + "]";
    assert ElementsText(es) + "]" == e.before + (Text(e.v) + (e.after + tail));
    AtConcat(w, i, e.before, Text(e.v) + (e.after + tail));
    NonWsStart(e.v, strict);
    AtIndex(w, i + |e.before|, Text(e.v) + (e.after + tail), 0);
    WsSkipped(w, i, e.before);
    SkipThenList(w, i, strict);
    NotClosing(e.v, strict);
  }

  lemma NotClosing(v: Json, strict: bool)
    requires WellFormed(v, strict)
    ensures Text(v) != "" && Text(v)[0] != ']'
  {
  }

  /** A separator, or the end of the text. */
  predicate Separator(w: string, i: nat) { i < |w| ==> w[i] == ',' || w[i] == ']' || w[i] == '}' }

  lemma ElementStarts(w: string, i: nat, e: Element, strict: bool)
    requires At(w, i, ElementText(e)) && ElementOk(e, strict) && Separator(w, i + |ElementText(e)|)
    ensures var j := i + |e.before|;
      var k := j + |Text(e.v)|;
      && |ElementText(e)| == |e.before| + |Text(e.v)| + |e.after| && k <= |w|
      && SkipWs(w, i) == j && At(w, j, Text(e.v)) && Follows(w, k) && SkipWs(w, k) == k + |e.after|
  {
    hide At, Text, WellFormed, SkipWs;
    AtConcat(w, i, e.before, Text(e.v) + e.after);
    var j := i + |e.before|;
    AtConcat(w, j, Text(e.v), e.after);
    var k := j + |Text(e.v)|;
    NonWsStart(e.v, strict);
    AtIndex(w, j, Text(e.v), 0);
    WsSkipped(w, i, e.before);
    if e.after != "" { AtIndex(w, k, e.after, 0); }
    WsSkipped(w, k, e.after);
  }

  lemma {:induction false} ElementParsed(w: string, i: nat, e: Element, strict: bool)
    requires At(w, i, ElementText(e)) && ElementOk(e, strict) && Separator(w, i + |ElementText(e)|)
    ensures ElementAt(w, i, strict) == Parsed(true, i + |ElementText(e)|)
    decreases e, 1
  {
    hide At, Text, WellFormed, SkipWs, ElementText, ValueAt;
    ElementStarts(w, i, e, strict);
    ValueParsed(w, i + |e.before|, e.v, strict);
    SkipThenValue(w, i, i + |e.before|, strict);
  }

  /** What follows the first element, the closing bracket included. */
  lemma ElementsTail(es: Elements) returns (tail: string)
    ensures tail == if es.LastElement? then "]" else "," + (ElementsText(es.rest) + "]")
    ensures ElementsText(es) + "]" == ElementText(es.e) + tail
  {
    hide ElementText;
    tail := if es.LastElement? then "]" else "," + (ElementsText(es.rest) + "]");
  }

  lemma MembersTail(ms: Members) returns (tail: string)
    ensures tail == if ms.LastMember? then "}" else "," + (MembersText(ms.rest) + "}")
    ensures MembersText(ms) + "}" == MemberText(ms.m) + tail
  {
    hide MemberText;
    tail := if ms.LastMember? then "}" else "," + (MembersText(ms.rest) + "}");
  }

  lemma {:induction false} ElementsParsed(w: string, i: nat, es: Elements, strict: bool)
    requires At(w, i, ElementsText(es) + "]") && ElementsOk(es, strict)
    ensures ElementsAt(w, i, strict) == Parsed(true, i + |ElementsText(es)| + 1)
    decreases es, 2
  {
    hide At, SkipWs, ElementAt, ElementText, ElementOk, ElementsText;
    var e := ElementText(es.e);
    var tail := ElementsTail(es);
    AtConcat(w, i, e, tail);
    AtIndex(w, i + |e|, tail, 0);
    ElementParsed(w, i, es.e, strict);
    if es.MoreElements? {
      AtConcat(w, i + |e|, ",", ElementsText(es.rest) + "]");
      ElementsParsed(w, i + |e| + 1, es.rest, strict);
    }
  }

  lemma MemberStarts(w: string, i: nat, m: Member, strict: bool)
    requires At(w, i, MemberText(m)) && MemberOk(m, strict)
    ensures var key, value := "\"" + (ItemsText(m.key) + "\""), m.after + (":" + ElementText(m.value));
      var j := i + |m.before|;
      && j < |w| && i <= |w| && SkipWs(w, i) == j && At(w, j, key) && At(w, j + |key|, value)
      && |MemberText(m)| == |m.before| + |key| + |value|
  {
    hide At, ItemsText, ElementText;
    var key := "\"" + (ItemsText(m.key) + "\"");
    var value := m.after + (":" + ElementText(m.value));
    assert MemberText(m) == m.before + (key + value);
    AtConcat(w, i, m.before, key + value);
    AtConcat(w, i + |m.before|, key, value);
    AtIndex(w, i + |m.before|, key, 0);
    WsSkipped(w, i, m.before);
  }

  lemma {:induction false} MemberParsed(w: string, i: nat, m: Member, strict: bool)
    requires At(w, i, MemberText(m)) && MemberOk(m, strict) && Separator(w, i + |MemberText(m)|)
    ensures MemberAt(w, i, strict) == Parsed(true, i + |MemberText(m)|)
    decreases m, 1
  {
    hide At, ItemsText, SkipWs, StringAt, ColonValueAt, AllWs, ElementText, ItemsOk, ElementOk;
    MemberStarts(w, i, m, strict);
    var key := "\"" + (ItemsText(m.key) + "\"");
    var value := m.after + (":" + ElementText(m.value));
    var j := i + |m.before|;
    StringParsed(w, j, m.key);
    ColonValueParsed(w, j + |key|, m, strict);
  }

  lemma {:induction false} ColonValueParsed(w: string, i: nat, m: Member, strict: bool)
    requires At(w, i, m.after + (":" + ElementText(m.value))) && MemberOk(m, strict)
    requires Separator(w, i + |m.after + (":" + ElementText(m.value))|)
    ensures ColonValueAt(w, i, strict) == Parsed(true, i + |m.after + (":" + ElementText(m.value))|)
    decreases m, 0
  {
    hide At, ElementText, ElementAt, ItemsOk;
    AtConcat(w, i, m.after, ":" + ElementText(m.value));
    var k := i + |m.after|;
    AtConcat(w, k, ":", ElementText(m.value));
    AtIndex(w, k, ":", 0);
    WsSkipped(w, i, m.after);
    ElementParsed(w, k + 1, m.value, strict);
  }

  lemma {:induction false} MembersParsed(w: string, i: nat, ms: Members, strict: bool)
    requires At(w, i, MembersText(ms) + "}") && MembersOk(ms, strict)
    ensures MembersAt(w, i, strict) == Parsed(true, i + |MembersText(ms)| + 1)
    decreases ms, 2
  {
    hide At, SkipWs, MemberAt, MemberText, MemberOk, MembersText;
    var m := MemberText(ms.m);
    var tail := MembersTail(ms);
    AtConcat(w, i, m, tail);
    AtIndex(w, i + |m|, tail, 0);
    MemberParsed(w, i, ms.m, strict);
    if ms.MoreMembers? {
      AtConcat(w, i + |m|, ",", MembersText(ms.rest) + "}");
      MembersParsed(w, i + |m| + 1, ms.rest, strict);
    }
  }

  /** A relaxed value is accepted whatever follows it. */
  lemma ValueAccepted(w: string, i: nat, v: Json)
    requires At(w, i, Text(v)) && WellFormed(v, false)
    ensures i <= |w| && ValueAt(w, i, false).ok
  {
    if v.Num? {
      var sign := if v.n.neg then "-" else "";
      var rest := v.n.digits + (FracText(v.n.frac) + ExpText(v.n.exp));
      AtConcat(w, i, sign, rest);
      AtIndex(w, i + |sign|, rest, 0);
      if v.n.neg { AtIndex(w, i, sign, 0); }
    } else {
      NonNumberParsed(w, i, v, false);
    }
  }
}
