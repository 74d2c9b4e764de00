/** The exact language of the recogniser: the prefixes of a relaxed JSON value with white space before it
    and anything after it; and the exact language of the strict scan: the prefixes of JSON texts. One direction
    parses such a text, the other completes an accepted one. The two together say for which texts the verdict of
    the recogniser is the documented one, a prefix of some valid JSON document. */
module JsonExact {
  import opened Arith
  import opened JsonParser
  import opened JsonPrefix
  import opened JsonText
  import opened Wrappers

  /** The part that `r` consumed from index `i`, completed with `rest`, is the text `t`; nothing is added
      unless the parse stopped at the end of `s`. */
  ghost predicate Completes(s: string, i: nat, r: Parsed, rest: string, t: string) {
    i <= r.i <= |s| && s[i..r.i] + rest == t && (r.i < |s| ==> rest == "")
  }

  /** Text `a` in front of a completed part. */
  lemma InFront(s: string, i: nat, a: string, j: nat, r: Parsed, rest: string, t: string)
    requires i <= j <= |s| && s[i..j] == a && Completes(s, j, r, rest, t)
    ensures Completes(s, i, r, rest, a + t)
  {
    assert s[i..r.i] + rest == s[i..j] + (s[j..r.i] + rest);
  }

  /** A part that stopped before the end of the text consumed exactly its text. */
  lemma Consumed(s: string, i: nat, r: Parsed, rest: string, t: string)
    requires Completes(s, i, r, rest, t)
    ensures i <= r.i <= |s| && (r.i < |s| || rest == "" ==> s[i..r.i] == t)
  {
    assert rest == "" ==> s[i..r.i] + rest == s[i..r.i];
  }

  /** At the end of the text more can be added. */
  lemma Padded(s: string, i: nat, r: Parsed, rest: string, t: string, pad: string)
    requires Completes(s, i, r, rest, t) && r.i == |s|
    ensures Completes(s, i, r, rest + pad, t + pad)
  {
    assert s[i..r.i] + (rest + pad) == (s[i..r.i] + rest) + pad;
  }

  /** One consumed character after a consumed text. */
  lemma OneMore(s: string, i: nat, j: nat, t: string, c: string)
    requires i <= j < |s| && s[i..j] == t && c == [s[j]]
    ensures Completes(s, i, Parsed(true, j + 1), "", t + c)
  {
    assert s[i..j + 1] + "" == t + c;
  }

  // ---------- completing an accepted text ----------

  lemma {:induction false} HexTaken(s: string, i: nat, k: nat)
    requires i <= |s| && HexRun(s, i, k).ok
    ensures var r := HexRun(s, i, k);
      AllHex(s[i..r.i]) && r.i - i <= k && (r.i - i < k ==> r.i == |s|)
    decreases k
  {
    if k > 0 && i < |s| {
      HexTaken(s, i + 1, k - 1);
      var j := HexRun(s, i, k).i;
      assert s[i..j] == [s[i]] + s[i + 1..j];
    }
  }

  lemma {:induction false} WsTaken(s: string, i: nat)
    requires i <= |s|
    ensures AllWs(s[i..SkipWs(s, i)])
    decreases |s| - i
  {
    if i < |s| && IsWs(s[i]) {
      WsTaken(s, i + 1);
      var j := SkipWs(s, i);
      assert s[i..j] == [s[i]] + s[i + 1..j];
    }
  }

  lemma {:induction false} DigitsTaken(s: string, i: nat)
    requires i <= |s|
    ensures AllDigits(s[i..SkipDigits(s, i)])
    decreases |s| - i
  {
    if i < |s| && IsDigit(s[i]) {
      DigitsTaken(s, i + 1);
      var j := SkipDigits(s, i);
      assert s[i..j] == [s[i]] + s[i + 1..j];
    }
  }

  lemma {:induction false} KeywordCompletes(s: string, i: nat, kw: string) returns (rest: string)
    requires i <= |s| && KeywordAt(s, i, kw).ok
    ensures Completes(s, i, KeywordAt(s, i, kw), rest, kw)
    decreases |kw|
  {
    if kw == "" || i >= |s| {
      rest := kw;
    } else {
      rest := KeywordCompletes(s, i + 1, kw[1..]);
      var j := KeywordAt(s, i, kw).i;
      assert s[i..j] == [s[i]] + s[i + 1..j];
      assert s[i..j] + rest == [s[i]] + (s[i + 1..j] + rest);
    }
  }

  /** One item in front of the items completed after it. */
  lemma ItemInFront(s: string, i: nat, j: nat, r: Parsed, x: StrItem, xs: seq<StrItem>, rest: string)
    requires i <= j <= r.i <= |s| && s[i..j] == ItemText(x) && ItemOk(x)
    requires Completes(s, j, r, rest, ItemsText(xs) + "\"") && ItemsOk(xs)
    ensures Completes(s, i, r, rest, ItemsText([x] + xs) + "\"") && ItemsOk([x] + xs)
  {
    hide Completes;
    InFront(s, i, ItemText(x), j, r, rest, ItemsText(xs) + "\"");
    assert ([x] + xs)[1..] == xs;
    ConcatAssoc(ItemText(x), ItemsText(xs), "\"");
  }

  lemma {:induction false} StringBodyCompletes(s: string, i: nat) returns (xs: seq<StrItem>, rest: string)
    requires i <= |s| && StringBody(s, i).ok
    ensures Completes(s, i, StringBody(s, i), rest, ItemsText(xs) + "\"") && ItemsOk(xs)
    decreases |s| - i
  {
    hide Completes, HexRun, ItemsText;
    var r := StringBody(s, i);
    if i >= |s| {
      xs, rest := [], "\"";
      EndCompletes(s, i, r, rest);
    } else if s[i] == '\\' && i + 1 >= |s| {
      xs, rest := [Escaped('n')], "n" + "\"";
      assert s[i..|s|] == ['\\'];
      LastItemCompletes(s, i, r, Escaped('n'), "n");
    } else if s[i] == '\\' && IsEscape(s[i + 1]) {
      xs, rest := StringBodyCompletes(s, i + 2);
      ItemInFront(s, i, i + 2, r, Escaped(s[i + 1]), xs, rest);
      xs := [Escaped(s[i + 1])] + xs;
    } else if s[i] == '\\' {
      xs, rest := UnicodeCompletes(s, i);
    } else if s[i] == '"' {
      xs, rest := [], "";
      EndCompletes(s, i, r, rest);
    } else {
      xs, rest := StringBodyCompletes(s, i + 1);
      ItemInFront(s, i, i + 1, r, Plain(s[i]), xs, rest);
      xs := [Plain(s[i])] + xs;
    }
  }

  lemma EndCompletes(s: string, i: nat, r: Parsed, rest: string)
    requires i <= r.i <= |s| && (r.i < |s| ==> rest == "")
    requires s[i..r.i] + rest == "\""
    ensures Completes(s, i, r, rest, ItemsText([]) + "\"") && ItemsOk([])
  {
    assert ItemsText([]) + "\"" == "\"";
  }

  lemma LastItemCompletes(s: string, i: nat, r: Parsed, x: StrItem, rest: string)
    requires i <= r.i == |s| && s[i..r.i] + rest == ItemText(x) && ItemOk(x)
    ensures Completes(s, i, r, rest + "\"", ItemsText([x]) + "\"") && ItemsOk([x])
  {
    assert s[i..r.i] + (rest + "\"") == ItemText(x) + "\"";
    assert ItemsText([x]) == ItemText(x) + ItemsText([]) == ItemText(x);
  }

  lemma {:induction false} UnicodeCompletes(s: string, i: nat) returns (xs: seq<StrItem>, rest: string)
    requires i + 1 < |s| && s[i] == '\\' && s[i + 1] == 'u' && StringBody(s, i).ok
    ensures Completes(s, i, StringBody(s, i), rest, ItemsText(xs) + "\"") && ItemsOk(xs)
    decreases |s| - i, 0
  {
    var r, h := StringBody(s, i), HexRun(s, i + 2, 4);
    HexTaken(s, i + 2, 4);
    var hex := s[i + 2..h.i];
    assert s[i..h.i] == ['\\', 'u'] + hex;
    hide Completes, HexRun;
    if |hex| == 4 {
      xs, rest := StringBodyCompletes(s, h.i);
      ItemInFront(s, i, h.i, r, Unicode(hex), xs, rest);
      xs := [Unicode(hex)] + xs;
    } else {
      var pad := seq(4 - |hex|, _ => '0');
      assert StringBody(s, h.i) == Parsed(true, |s|);
      assert s[i..|s|] + pad == ['\\', 'u'] + (hex + pad);
      LastItemCompletes(s, i, r, Unicode(hex + pad), pad);
      xs, rest := [Unicode(hex + pad)], pad + "\"";
    }
  }

  lemma StringCompletes(s: string, i: nat) returns (xs: seq<StrItem>, rest: string)
    requires i < |s| && StringAt(s, i).ok
    ensures Completes(s, i, StringAt(s, i), rest, "\"" + (ItemsText(xs) + "\"")) && ItemsOk(xs)
  {
    xs, rest := StringBodyCompletes(s, i + 1);
    var j := StringAt(s, i).i;
    assert s[i..j] + rest == "\"" + (s[i + 1..j] + rest);
  }

  lemma NumberCompletes(s: string, i: nat, strict: bool) returns (n: Number, rest: string)
    requires i < |s| && NumberAt(s, i, strict).ok
    ensures Completes(s, i, NumberAt(s, i, strict), rest, NumText(n)) && NumberOk(n, strict)
  {
    hide SkipDigits, SkipFraction, SkipExponent, StrictNumber, Completes, FracText, ExpText;
    var neg := s[i] == '-';
    var j := if neg then i + 1 else i;
    SignTaken(s, i);
    if j >= |s| {
      rest := NumText(Number(false, "0", None, None));
      NothingCompletes(s, j, rest);
      n := Number(true, "0", None, None);
      InFront(s, i, "-", j, Parsed(true, j), rest, rest);
    } else {
      n, rest := UnsignedCompletes(s, j, strict);
      InFront(s, i, if neg then "-" else "", j, NumberAt(s, i, strict), rest, NumText(n));
      n := n.(neg := neg);
    }
    EmptyInFront(n.digits + (FracText(n.frac) + ExpText(n.exp)));
  }

  lemma EmptyInFront(t: string)
    ensures "" + t == t
  {
  }

  lemma UnsignedCompletes(s: string, j: nat, strict: bool) returns (n: Number, rest: string)
    requires j < |s| && IsDigit(s[j]) && (strict ==> StrictNumber(s, j))
    ensures var e := SkipExponent(s, SkipFraction(s, SkipDigits(s, j)));
      Completes(s, j, Parsed(true, e), rest, NumText(n))
    ensures !n.neg && NumberOk(n, strict)
  {
    hide SkipDigits, SkipFraction, SkipExponent, StrictFraction, StrictExponent, Completes, FracText, ExpText;
    var d := SkipDigits(s, j);
    DigitsTaken(s, j);
    FirstDigit(s, j);
    var frac, exp;
    frac, exp, rest := FracExpCompletes(s, d, strict);
    n := Number(false, s[j..d], frac, exp);
    InFront(s, j, n.digits, d, Parsed(true, SkipExponent(s, SkipFraction(s, d))), rest, FracText(frac) + ExpText(exp));
    EmptyInFront(n.digits + (FracText(frac) + ExpText(exp)));
  }

  lemma SignTaken(s: string, i: nat)
    requires i < |s|
    ensures s[i..i] == "" && (s[i] == '-' ==> s[i..i + 1] == "-")
  {
  }

  lemma FirstDigit(s: string, i: nat)
    requires i < |s| && IsDigit(s[i])
    ensures SkipDigits(s, i) > i
    ensures (i + 1 < |s| ==> !IsDigit(s[i + 1])) ==> SkipDigits(s, i) == i + 1
  {
    assert SkipDigits(s, i) == SkipDigits(s, i + 1);
  }

  lemma FracExpCompletes(s: string, i: nat, strict: bool)
    returns (frac: Option<string>, exp: Option<Exponent>, rest: string)
    requires i <= |s| && (strict ==> StrictFraction(s, i) && StrictExponent(s, SkipFraction(s, i)))
    ensures Completes(s, i, Parsed(true, SkipExponent(s, SkipFraction(s, i))), rest, FracText(frac) + ExpText(exp))
    ensures NumberOk(Number(false, "0", frac, exp), strict)
  {
    hide SkipDigits, SkipFraction, StrictFraction, StrictExponent, Completes;
    var f := SkipFraction(s, i);
    frac, rest := FractionCompletes(s, i, strict);
    if rest != "" {
      exp := None;
      Padded(s, i, Parsed(true, f), rest, FracText(frac), "");
      assert rest + "" == rest;
    } else {
      Consumed(s, i, Parsed(true, f), rest, FracText(frac));
      exp, rest := ExponentCompletes(s, f, strict);
      hide SkipExponent, ExpText;
      InFront(s, i, FracText(frac), f, Parsed(true, SkipExponent(s, f)), rest, ExpText(exp));
    }
  }

  /** The digits from `i` on, or a zero where the text ends before the first of them. */
  lemma DigitsComplete(s: string, i: nat, strict: bool) returns (digits: string, rest: string)
    requires i <= |s| && (strict ==> DigitOrEnd(s, i))
    ensures Completes(s, i, Parsed(true, SkipDigits(s, i)), rest, digits)
    ensures AllDigits(digits) && (strict ==> digits != "") && (rest != "" ==> SkipDigits(s, i) == |s|)
  {
    var j := SkipDigits(s, i);
    DigitsTaken(s, i);
    digits, rest := s[i..j], "";
    if i == |s| {
      digits, rest := "0", "0";
    } else if strict {
      FirstDigit(s, i);
    }
    assert s[i..j] + rest == digits;
  }

  lemma FractionCompletes(s: string, i: nat, strict: bool) returns (frac: Option<string>, rest: string)
    requires i <= |s| && (strict ==> StrictFraction(s, i))
    ensures Completes(s, i, Parsed(true, SkipFraction(s, i)), rest, FracText(frac))
    ensures frac.Some? ==> AllDigits(frac.value) && (strict ==> frac.value != "")
    ensures rest != "" ==> SkipFraction(s, i) == |s|
  {
    hide Completes, SkipDigits;
    if i < |s| && s[i] == '.' {
      var ds;
      ds, rest := DigitsComplete(s, i + 1, strict);
      frac := Some(ds);
      InFront(s, i, ".", i + 1, Parsed(true, SkipDigits(s, i + 1)), rest, ds);
    } else {
      frac, rest := None, "";
      NothingCompletes(s, i, "");
    }
  }

  lemma ExponentCompletes(s: string, i: nat, strict: bool) returns (exp: Option<Exponent>, rest: string)
    requires i <= |s| && (strict ==> StrictExponent(s, i))
    ensures Completes(s, i, Parsed(true, SkipExponent(s, i)), rest, ExpText(exp))
    ensures NumberOk(Number(false, "0", None, exp), strict)
  {
    hide Completes, SkipDigits;
    if i < |s| && (s[i] == 'e' || s[i] == 'E') {
      var k := if i + 1 < |s| && (s[i + 1] == '+' || s[i + 1] == '-') then i + 2 else i + 1;
      var sign := s[i + 1..k];
      var ds;
      ds, rest := DigitsComplete(s, k, strict);
      exp := Some(Exponent(s[i], sign, ds));
      var r := Parsed(true, SkipDigits(s, k));
      assert k == i + 2 ==> sign == [s[i + 1]];
      InFront(s, i + 1, sign, k, r, rest, ds);
      assert s[i..i + 1] == [s[i]];
      InFront(s, i, [s[i]], i + 1, r, rest, sign + ds);
    } else {
      exp, rest := None, "";
      NothingCompletes(s, i, "");
    }
  }

  /** A parsed value, from its first character on, completes to a relaxed value. */
  lemma {:induction false} ValueCompletes(s: string, i: nat, strict: bool) returns (v: Json, rest: string)
    requires i <= |s| && SkipWs(s, i) == i && ValueAt(s, i, strict).ok
    ensures Completes(s, i, ValueAt(s, i, strict), rest, Text(v)) && WellFormed(v, strict)
    decreases |s| - i, 3
  {
    hide Completes;
    if i >= |s| {
      v, rest := Word("null"), "null";
      NothingCompletes(s, i, rest);
    } else if s[i] == '"' {
      var xs;
      xs, rest := StringCompletes(s, i);
      v := Str(xs);
    } else if s[i] == '{' {
      v, rest := ObjectCompletes(s, i, strict);
    } else if s[i] == '[' {
      v, rest := ArrayCompletes(s, i, strict);
    } else if s[i] == 't' {
      v := Word("true");
      rest := KeywordCompletes(s, i, "true");
    } else if s[i] == 'f' {
      v := Word("false");
      rest := KeywordCompletes(s, i, "false");
    } else if s[i] == 'n' {
      v := Word("null");
      rest := KeywordCompletes(s, i, "null");
    } else {
      var n;
      n, rest := NumberCompletes(s, i, strict);
      v := Num(n);
    }
  }

  lemma NothingCompletes(s: string, i: nat, t: string)
    requires i <= |s| && (i < |s| ==> t == "")
    ensures Completes(s, i, Parsed(true, i), t, t)
  {
    assert s[i..i] + t == t;
  }

  lemma {:induction false} ObjectCompletes(s: string, i: nat, strict: bool) returns (v: Json, rest: string)
    requires i < |s| && s[i] == '{' && ObjectAt(s, i, strict).ok
    ensures Completes(s, i, ObjectAt(s, i, strict), rest, Text(v)) && WellFormed(v, strict)
    decreases |s| - i, 2
  {
    hide Completes, SkipWs, MembersAt, ElementsAt;
    var k := SkipWs(s, i + 1);
    var ws := s[i + 1..k];
    WsTaken(s, i + 1);
    assert s[i..i + 1] == "{";
    if k >= |s| {
      v, rest := EmptyObject(ws), "}";
      NothingCompletes(s, k, "}");
      InFront(s, i + 1, ws, k, Parsed(true, k), "}", "}");
      InFront(s, i, "{", i + 1, Parsed(true, k), "}", ws + "}");
    } else if s[k] == '}' {
      v, rest := EmptyObject(ws), "";
      OneMore(s, i + 1, k, ws, "}");
      InFront(s, i, "{", i + 1, Parsed(true, k + 1), "", ws + "}");
    } else {
      SkipTwice(s, i + 1);
      var xs;
      xs, rest := MembersComplete(s, k, strict);
      var xs' := IndentMembers(xs, ws, strict);
      v := Object(xs');
      InFront(s, i + 1, ws, k, MembersAt(s, k, strict), rest, MembersText(xs) + "}");
      InFront(s, i, "{", i + 1, MembersAt(s, k, strict), rest, ws + (MembersText(xs) + "}"));
      ConcatAssoc(ws, MembersText(xs), "}");
    }
  }

  lemma {:induction false} ArrayCompletes(s: string, i: nat, strict: bool) returns (v: Json, rest: string)
    requires i < |s| && s[i] == '[' && ArrayAt(s, i, strict).ok
    ensures Completes(s, i, ArrayAt(s, i, strict), rest, Text(v)) && WellFormed(v, strict)
    decreases |s| - i, 2
  {
    hide Completes, SkipWs, MembersAt, ElementsAt;
    var k := SkipWs(s, i + 1);
    var ws := s[i + 1..k];
    WsTaken(s, i + 1);
    assert s[i..i + 1] == "[";
    if k >= |s| {
      v, rest := EmptyArray(ws), "]";
      NothingCompletes(s, k, "]");
      InFront(s, i + 1, ws, k, Parsed(true, k), "]", "]");
      InFront(s, i, "[", i + 1, Parsed(true, k), "]", ws + "]");
    } else if s[k] == ']' {
      v, rest := EmptyArray(ws), "";
      OneMore(s, i + 1, k, ws, "]");
      InFront(s, i, "[", i + 1, Parsed(true, k + 1), "", ws + "]");
    } else {
      SkipTwice(s, i + 1);
      var xs;
      xs, rest := ElementsComplete(s, k, strict);
      var xs' := IndentElements(xs, ws, strict);
      v := Array(xs');
      InFront(s, i + 1, ws, k, ElementsAt(s, k, strict), rest, ElementsText(xs) + "]");
      InFront(s, i, "[", i + 1, ElementsAt(s, k, strict), rest, ws + (ElementsText(xs) + "]"));
      ConcatAssoc(ws, ElementsText(xs), "]");
    }
  }

  lemma IndentMembers(ms: Members, ws: string, strict: bool) returns (ms': Members)
    requires MembersOk(ms, strict) && AllWs(ws)
    ensures MembersOk(ms', strict) && MembersText(ms') == ws + MembersText(ms)
  {
    hide MemberText, MemberOk;
    var m := IndentMember(ms.m, ws, strict);
    ms' := ms.(m := m);
    if ms.MoreMembers? { ConcatAssoc(ws, MemberText(ms.m), "," + MembersText(ms.rest)); }
  }

  lemma IndentElements(es: Elements, ws: string, strict: bool) returns (es': Elements)
    requires ElementsOk(es, strict) && AllWs(ws)
    ensures ElementsOk(es', strict) && ElementsText(es') == ws + ElementsText(es)
  {
    var e := es.e.(before := ws + es.e.before);
    assert ElementText(e) == ws + ElementText(es.e);
    es' := es.(e := e);
    assert ElementsText(es') == ws + ElementsText(es);
  }

  lemma {:induction false} ElementCompletes(s: string, i: nat, strict: bool) returns (e: Element, rest: string)
    requires i <= |s| && ElementAt(s, i, strict).ok
    ensures Completes(s, i, ElementAt(s, i, strict), rest, ElementText(e)) && ElementOk(e, strict)
    decreases |s| - i, 4
  {
    hide Completes, SkipWs, Text, WellFormed, ValueAt;
    var j := SkipWs(s, i);
    WsTaken(s, i);
    SkipThenValue(s, i, j, strict);
    var v;
    v, rest := ValueCompletes(s, j, strict);
    var r, m := ValueAt(s, j, strict), SkipWs(s, ValueAt(s, j, strict).i);
    WsTaken(s, r.i);
    e := Element(s[i..j], v, s[r.i..m]);
    WsAfter(s, j, r, rest, Text(v), m);
    InFront(s, i, s[i..j], j, Parsed(true, m), rest, Text(v) + s[r.i..m]);
  }

  lemma WsAfter(s: string, i: nat, r: Parsed, rest: string, t: string, m: nat)
    requires Completes(s, i, r, rest, t) && r.i <= m <= |s|
    ensures Completes(s, i, Parsed(true, m), rest, t + s[r.i..m])
  {
    assert s[i..m] == s[i..r.i] + s[r.i..m];
    if rest != "" { assert s[r.i..m] == ""; }
    assert s[i..m] + rest == (s[i..r.i] + rest) + s[r.i..m];
  }

  lemma {:induction false} ElementsComplete(s: string, i: nat, strict: bool) returns (xs: Elements, rest: string)
    requires i <= |s| && ElementsAt(s, i, strict).ok
    ensures Completes(s, i, ElementsAt(s, i, strict), rest, ElementsText(xs) + "]") && ElementsOk(xs, strict)
    decreases |s| - i, 7
  {
    hide Completes, ElementAt, ElementText;
    var x;
    x, rest := ElementCompletes(s, i, strict);
    var k := ElementAt(s, i, strict).i;
    Consumed(s, i, ElementAt(s, i, strict), rest, ElementText(x));
    if k >= |s| {
      xs := LastElement(x);
      Padded(s, i, ElementAt(s, i, strict), rest, ElementText(x), "]");
      rest := rest + "]";
    } else if s[k] == ']' {
      xs, rest := LastElement(x), "";
      OneMore(s, i, k, ElementText(x), "]");
    } else {
      var xs';
      xs', rest := ElementsComplete(s, k + 1, strict);
      xs := MoreElements(x, xs');
      var r := ElementsAt(s, k + 1, strict);
      InFront(s, k, ",", k + 1, r, rest, ElementsText(xs') + "]");
      InFront(s, i, ElementText(x), k, r, rest, "," + (ElementsText(xs') + "]"));
      ConcatAssoc(",", ElementsText(xs'), "]");
      ConcatAssoc(ElementText(x), "," + ElementsText(xs'), "]");
    }
  }

  lemma KeyStart(s: string, i: nat)
    requires i < |s| && !IsWs(s[i])
    ensures SkipWs(s, i) == i && (StringAt(s, i).ok ==> StringAt(s, i).i > i)
  {
  }

  lemma {:induction false} MemberCompletes(s: string, i: nat, strict: bool) returns (m: Member, rest: string)
    requires i < |s| && !IsWs(s[i]) && MemberAt(s, i, strict).ok
    ensures Completes(s, i, MemberAt(s, i, strict), rest, MemberText(m)) && MemberOk(m, strict)
    decreases |s| - i, 6, 0
  {
    hide Completes, ItemsText, StringAt, ColonValueAt, ElementText, ItemsOk;
    var xs;
    KeyStart(s, i);
    xs, rest := StringCompletes(s, i);
    var k, key := StringAt(s, i).i, "\"" + (ItemsText(xs) + "\"");
    Consumed(s, i, StringAt(s, i), rest, key);
    if rest != "" {
      var e := Element("", Word("null"), "");
      NullElementOk(strict);
      m := Member("", xs, "", e);
      Padded(s, i, StringAt(s, i), rest, key, "" + (":" + ElementText(e)));
      AtEnd(s, k, strict);
      rest := rest + ("" + (":" + ElementText(e)));
    } else {
      var after, e;
      after, e, rest := ColonValueCompletes(s, k, strict);
      m := Member("", xs, after, e);
      InFront(s, i, key, k, ColonValueAt(s, k, strict), rest, after + (":" + ElementText(e)));
    }
    EmptyInFront(key);
  }

  lemma {:induction false} ColonValueCompletes(s: string, i: nat, strict: bool)
    returns (after: string, e: Element, rest: string)
    requires i <= |s| && ColonValueAt(s, i, strict).ok
    ensures Completes(s, i, ColonValueAt(s, i, strict), rest, after + (":" + ElementText(e)))
    ensures AllWs(after) && ElementOk(e, strict)
    decreases |s| - i, 5
  {
    hide Completes, SkipWs, ElementText, ElementAt;
    var k := SkipWs(s, i);
    after := s[i..k];
    WsTaken(s, i);
    var r := ColonValueAt(s, i, strict);
    if k >= |s| {
      e := Element("", Word("null"), "");
      rest := ":" + ElementText(e);
      NullElementOk(strict);
      NothingCompletes(s, k, rest);
    } else {
      e, rest := ElementCompletes(s, k + 1, strict);
      InFront(s, k, ":", k + 1, r, rest, ElementText(e));
    }
    InFront(s, i, after, k, r, rest, ":" + ElementText(e));
  }

  lemma {:induction false} MemberFromWs(s: string, i: nat, strict: bool) returns (m: Member, rest: string)
    requires i <= |s| && MemberAt(s, i, strict).ok
    ensures Completes(s, i, MemberAt(s, i, strict), rest, MemberText(m)) && MemberOk(m, strict)
    decreases |s| - i, 6, 1
  {
    hide Completes, SkipWs, MemberText;
    var j := SkipWs(s, i);
    WsTaken(s, i);
    if j >= |s| {
      m, rest := NullMember(), MemberText(NullMember());
      NothingCompletes(s, j, rest);
      NullMemberOk(strict);
    } else {
      SkipTwice(s, i);
      SkipThenValue(s, i, j, strict);
      m, rest := MemberCompletes(s, j, strict);
    }
    InFront(s, i, s[i..j], j, MemberAt(s, i, strict), rest, MemberText(m));
    m := IndentMember(m, s[i..j], strict);
  }

  lemma NullElementOk(strict: bool)
    ensures ElementOk(Element("", Word("null"), ""), false)
  {
  }

  function NullMember(): Member { Member("", [], "", Element("", Word("null"), "")) }

  lemma NullMemberOk(strict: bool)
    ensures MemberOk(NullMember(), strict)
  {
  }

  lemma IndentMember(m: Member, ws: string, strict: bool) returns (m': Member)
    requires MemberOk(m, strict) && AllWs(ws)
    ensures MemberOk(m', strict) && MemberText(m') == ws + MemberText(m)
  {
    m' := m.(before := ws + m.before);
    assert MemberText(m') == ws + MemberText(m);
  }

  lemma {:induction false} MembersComplete(s: string, i: nat, strict: bool) returns (xs: Members, rest: string)
    requires i <= |s| && MembersAt(s, i, strict).ok
    ensures Completes(s, i, MembersAt(s, i, strict), rest, MembersText(xs) + "}") && MembersOk(xs, strict)
    decreases |s| - i, 7
  {
    hide Completes, MemberAt, MemberText;
    var x;
    x, rest := MemberFromWs(s, i, strict);
    var k := MemberAt(s, i, strict).i;
    Consumed(s, i, MemberAt(s, i, strict), rest, MemberText(x));
    if k >= |s| {
      xs := LastMember(x);
      Padded(s, i, MemberAt(s, i, strict), rest, MemberText(x), "}");
      rest := rest + "}";
    } else if s[k] == '}' {
      xs, rest := LastMember(x), "";
      OneMore(s, i, k, MemberText(x), "}");
    } else {
      var xs';
      xs', rest := MembersComplete(s, k + 1, strict);
      xs := MoreMembers(x, xs');
      var r := MembersAt(s, k + 1, strict);
      InFront(s, k, ",", k + 1, r, rest, MembersText(xs') + "}");
      InFront(s, i, MemberText(x), k, r, rest, "," + (MembersText(xs') + "}"));
      ConcatAssoc(",", MembersText(xs'), "}");
      ConcatAssoc(MemberText(x), "," + MembersText(xs'), "}");
    }
  }

  // ---------- the language ----------

  /** A relaxed value with white space before it and anything after it. */
  ghost predicate IsRelaxedText(s: string) {
    exists ws: string, v: Json, tail: string {:trigger ws + (Text(v) + tail)} ::
      AllWs(ws) && WellFormed(v, false) && s == ws + (Text(v) + tail)
  }

  lemma RelaxedAccepted(ws: string, v: Json, tail: string)
    requires AllWs(ws) && WellFormed(v, false)
    ensures Accepts(ws + (Text(v) + tail))
  {
    var w := ws + (Text(v) + tail);
    assert At(w, 0, ws + (Text(v) + tail));
    AtConcat(w, 0, ws, Text(v) + tail);
    AtConcat(w, |ws|, Text(v), tail);
    NonWsStart(v, false);
    AtIndex(w, |ws|, Text(v), 0);
    WsSkipped(w, 0, ws);
    ValueAccepted(w, |ws|, v);
  }

  /** Every accepted text extends to a relaxed text; to a JSON text it extends only if it passes the strict scan. */
  lemma AcceptedCompletes(s: string) returns (ws: string, v: Json, tail: string)
    requires Accepts(s)
    ensures AllWs(ws) && WellFormed(v, false) && s <= ws + (Text(v) + tail)
  {
    hide Completes, SkipWs, ValueAt, Text, WellFormed;
    var i := SkipWs(s, 0);
    WsTaken(s, 0);
    SkipTwice(s, 0);
    AcceptedValue(s);
    ws := s[0..i];
    var rest;
    v, rest := ValueCompletes(s, i, false);
    var r := ValueAt(s, i, false);
    Consumed(s, i, r, rest, Text(v));
    InFront(s, 0, ws, i, r, rest, Text(v));
    tail := s[r.i..];
    PrefixOfCompletion(s, r, rest, ws, Text(v));
  }

  lemma AcceptedValue(s: string)
    requires Accepts(s)
    ensures ValueAt(s, SkipWs(s, 0), false).ok
  {
    SkipTwice(s, 0);
  }

  lemma PrefixOfCompletion(s: string, r: Parsed, rest: string, ws: string, t: string)
    requires Completes(s, 0, r, rest, ws + t)
    ensures s <= ws + (t + s[r.i..])
  {
    ConcatAssoc(ws, t, s[r.i..]);
    assert s == s[0..r.i] + s[r.i..];
    if r.i == |s| {
      assert s[0..r.i] == s;
      assert s + rest == ws + t;
      assert ws + (t + s[r.i..]) == s + rest;
    } else {
      assert s[0..r.i] + "" == s[0..r.i];
    }
  }

  /** The recogniser accepts exactly the prefixes of relaxed texts. */
  lemma ExactLanguage(s: string)
    ensures Accepts(s) <==> exists w: string :: IsRelaxedText(w) && s <= w
  {
    if Accepts(s) {
      var ws, v, tail := AcceptedCompletes(s);
      assert IsRelaxedText(ws + (Text(v) + tail));
    }
    if exists w: string :: IsRelaxedText(w) && s <= w {
      var w: string :| IsRelaxedText(w) && s <= w;
      var ws: string, v: Json, tail: string :| AllWs(ws) && WellFormed(v, false) && w == ws + (Text(v) + tail);
      RelaxedAccepted(ws, v, tail);
      PrefixClosed(s, w);
    }
  }

  /** A prefix of some valid JSON document, as the check is documented. */
  ghost predicate IsJsonPrefix(s: string) {
    exists w: string :: IsJsonText(w) && s <= w
  }

  lemma JsonTextStrict(w: string)
    requires IsJsonText(w)
    ensures Strict(w)
  {
    var e: Element :| ElementOk(e, true) && w == ElementText(e);
    hide ElementText, ElementOk, ElementAt;
    assert At(w, 0, ElementText(e));
    ElementParsed(w, 0, e, true);
  }

  /** A text that passes the strict scan is completed to a JSON text by adding characters at its end. */
  lemma StrictCompletes(s: string) returns (rest: string)
    requires Strict(s)
    ensures IsJsonText(s + rest)
  {
    hide ElementAt, ElementText, ElementOk;
    var e;
    e, rest := ElementCompletes(s, 0, true);
    assert s[0..|s|] == s;
  }

  /** The condition: an accepted text is the prefix of a JSON text exactly if it passes the strict scan. */
  lemma StrictLanguage(s: string)
    ensures Strict(s) <==> IsJsonPrefix(s)
  {
    hide ElementAt, IsJsonText;
    if Strict(s) {
      var rest := StrictCompletes(s);
      assert s <= s + rest;
    }
    if IsJsonPrefix(s) {
      var w: string :| IsJsonText(w) && s <= w;
      JsonTextStrict(w);
      StrictPrefixClosed(s, w);
    }
  }

  lemma {:induction false} StrictIsRelaxed(v: Json)
    requires WellFormed(v, true)
    ensures WellFormed(v, false)
  {
    match v
    case Object(ms) => StrictMembers(ms);
    case Array(es) => StrictElements(es);
    case _ =>
  }

  lemma {:induction false} StrictElements(es: Elements)
    requires ElementsOk(es, true)
    ensures ElementsOk(es, false)
  {
    StrictIsRelaxed(es.e.v);
    if es.MoreElements? { StrictElements(es.rest); }
  }

  lemma {:induction false} StrictMembers(ms: Members)
    requires MembersOk(ms, true)
    ensures MembersOk(ms, false)
  {
    assert MemberOk(ms.m, true) && ElementOk(ms.m.value, true);
    StrictIsRelaxed(ms.m.value.v);
    if ms.MoreMembers? { StrictMembers(ms.rest); }
  }

  lemma StrictAccepted(s: string)
    requires Strict(s)
    ensures Accepts(s)
  {
    var e, rest := ElementCompletes(s, 0, true);
    assert s[0..|s|] == s;
    StrictIsRelaxed(e.v);
    RelaxedAccepted(e.before, e.v, e.after);
    PrefixClosed(s, ElementText(e));
  }

  /** Every prefix of every JSON text is accepted. */
  lemma JsonPrefixesAccepted(s: string, w: string)
    requires IsJsonText(w) && s <= w
    ensures Accepts(s)
  {
    JsonTextStrict(w);
    StrictPrefixClosed(s, w);
    StrictAccepted(s);
  }

  /** The verdict is the documented one exactly for the texts that are rejected or pass the strict scan. */
  lemma VerdictExact(s: string)
    ensures (Accepts(s) <==> IsJsonPrefix(s)) <==> (Accepts(s) ==> Strict(s))
  {
    hide Accepts, Strict, IsJsonPrefix;
    StrictLanguage(s);
    if Strict(s) { StrictAccepted(s); }
  }

  /** The three families of texts that are accepted although no JSON text begins with them: a digit after a
      leading zero, text after the value, and a missing digit run with more text behind it. */
  lemma AcceptedNotJson()
    ensures Accepts("01") && !IsJsonPrefix("01")
    ensures Accepts("null x") && !IsJsonPrefix("null x")
    ensures Accepts("1.e5") && !IsJsonPrefix("1.e5")
    ensures Accepts("[1e+]") && !IsJsonPrefix("[1e+]")
  {
    hide IsJsonPrefix;
    StrictLanguage("01");
    StrictLanguage("null x");
    StrictLanguage("1.e5");
    StrictLanguage("[1e+]");
    LeadingZero();
    TrailingText();
    EmptyFraction();
    EmptyExponent();
  }

  lemma LeadingZero()
    ensures Accepts("01") && !Strict("01")
  {
    assert !StrictNumber("01", 0);
  }

  lemma TrailingText()
    ensures Accepts("null x") && !Strict("null x")
  {
    assert At("null x", 0, "null");
    KeywordParsed("null x", 0, "null");
    assert SkipWs("null x", 4) == SkipWs("null x", 5) == 5;
  }

  lemma EmptyFraction()
    ensures Accepts("1.e5") && !Strict("1.e5")
  {
    assert SkipDigits("1.e5", 0) == SkipDigits("1.e5", 1) == 1;
    assert !StrictNumber("1.e5", 0);
  }

  lemma EmptyExponent()
    ensures Accepts("[1e+]") && !Strict("[1e+]")
  {
    var s := "[1e+]";
    assert SkipDigits(s, 1) == SkipDigits(s, 2) == 2;
    assert SkipFraction(s, 2) == 2 && SkipDigits(s, 4) == 4;
    assert !StrictNumber(s, 1);
    assert NumberAt(s, 1, false) == Parsed(true, 4);
    assert ElementAt(s, 1, false) == Parsed(true, 4);
  }
}
