/** The set of texts that the recogniser accepts is closed under prefixes. */
module JsonPrefix {
  import opened Arith
  import opened JsonParser

  /** What a parse of the whole text `w` becomes on its prefix of length `n`: it stops at the end with success,
      or earlier exactly as before. */
  function Cut(r: Parsed, n: nat): Parsed { Parsed(true, Min(r.i, n)) }

  ghost predicate PrefixAt(s: string, w: string, i: nat) { s <= w && i <= |s| }

  lemma {:induction false} WsCut(s: string, w: string, i: nat)
    requires PrefixAt(s, w, i)
    ensures SkipWs(s, i) == Min(SkipWs(w, i), |s|)
    decreases |s| - i
  {
    if i < |s| && IsWs(s[i]) { WsCut(s, w, i + 1); }
  }

  lemma {:induction false} DigitsCut(s: string, w: string, i: nat)
    requires PrefixAt(s, w, i)
    ensures SkipDigits(s, i) == Min(SkipDigits(w, i), |s|)
    decreases |s| - i
  {
    if i < |s| && IsDigit(s[i]) { DigitsCut(s, w, i + 1); }
  }

  lemma {:induction false} HexCut(s: string, w: string, i: nat, k: nat)
    requires PrefixAt(s, w, i) && HexRun(w, i, k).ok
    ensures HexRun(s, i, k) == Cut(HexRun(w, i, k), |s|)
    decreases k
  {
    if k > 0 && i < |s| { HexCut(s, w, i + 1, k - 1); }
  }

  lemma {:induction false} StringBodyCut(s: string, w: string, i: nat)
    requires PrefixAt(s, w, i) && StringBody(w, i).ok
    ensures StringBody(s, i) == Cut(StringBody(w, i), |s|)
    decreases |s| - i
  {
    if i < |s| {
      if s[i] == '\\' {
        if i + 1 < |s| {
          if IsEscape(s[i + 1]) {
            StringBodyCut(s, w, i + 2);
          } else if s[i + 1] == 'u' {
            HexCut(s, w, i + 2, 4);
            var h, hw := HexRun(s, i + 2, 4), HexRun(w, i + 2, 4);
            if hw.i <= |s| { StringBodyCut(s, w, hw.i); }
          }
        }
      } else if s[i] != '"' && !IsControl(s[i]) {
        StringBodyCut(s, w, i + 1);
      }
    }
  }

  lemma StrictNumberCut(s: string, w: string, i: nat)
    requires PrefixAt(s, w, i) && i < |s| && StrictNumber(w, i)
    ensures StrictNumber(s, i)
  {
    DigitsCut(s, w, i);
    var d := SkipDigits(w, i);
    if d <= |s| { FractionCut(s, w, d); }
  }

  lemma NumberCut(s: string, w: string, i: nat, strict: bool)
    requires PrefixAt(s, w, i) && i < |w| && NumberAt(w, i, strict).ok
    ensures NumberAt(s, i, strict) == Cut(NumberAt(w, i, strict), |s|)
  {
    if i < |s| {
      var j := if s[i] == '-' then i + 1 else i;
      if j < |s| {
        if strict { StrictNumberCut(s, w, j); }
        hide StrictNumber;
        DigitsCut(s, w, j);
        var d := SkipDigits(w, j);
        if d < |s| {
          FractionCut(s, w, d);
          var f := SkipFraction(w, d);
          if f < |s| { ExponentCut(s, w, f); }
        }
      }
    }
  }

  lemma FractionCut(s: string, w: string, i: nat)
    requires PrefixAt(s, w, i)
    ensures SkipFraction(s, i) == Min(SkipFraction(w, i), |s|)
  {
    if i < |s| && s[i] == '.' { DigitsCut(s, w, i + 1); }
  }

  lemma ExponentCut(s: string, w: string, i: nat)
    requires PrefixAt(s, w, i)
    ensures SkipExponent(s, i) == Min(SkipExponent(w, i), |s|)
  {
    if i < |s| && (s[i] == 'e' || s[i] == 'E') {
      if i + 1 < |s| && (s[i + 1] == '+' || s[i + 1] == '-') {
        DigitsCut(s, w, i + 2);
      } else if i + 1 < |s| {
        DigitsCut(s, w, i + 1);
      }
    }
  }

  lemma {:induction false} KeywordCut(s: string, w: string, i: nat, kw: string)
    requires PrefixAt(s, w, i) && KeywordAt(w, i, kw).ok
    ensures KeywordAt(s, i, kw) == Cut(KeywordAt(w, i, kw), |s|)
    decreases |kw|
  {
    if kw != "" && i < |s| { KeywordCut(s, w, i + 1, kw[1..]); }
  }

  lemma {:induction false} ValueCut(s: string, w: string, i: nat, strict: bool)
    requires PrefixAt(s, w, i) && ValueAt(w, i, strict).ok
    ensures ValueAt(s, i, strict) == Cut(ValueAt(w, i, strict), |s|)
    decreases |s| - i, 3
  {
    hide NumberAt, StringBody, KeywordAt, ObjectAt, ArrayAt;
    WsCut(s, w, i);
    var j := SkipWs(s, i);
    if j < |s| {
      if s[j] == '"' {
        StringBodyCut(s, w, j + 1);
      } else if s[j] == '{' {
        ObjectCut(s, w, j, strict);
      } else if s[j] == '[' {
        ArrayCut(s, w, j, strict);
      } else if s[j] == 't' {
        KeywordCut(s, w, j, "true");
      } else if s[j] == 'f' {
        KeywordCut(s, w, j, "false");
      } else if s[j] == 'n' {
        KeywordCut(s, w, j, "null");
      } else {
        NumberCut(s, w, j, strict);
      }
    }
  }

  lemma {:induction false} ObjectCut(s: string, w: string, i: nat, strict: bool)
    requires PrefixAt(s, w, i) && i < |s| && ObjectAt(w, i, strict).ok
    ensures ObjectAt(s, i, strict) == Cut(ObjectAt(w, i, strict), |s|)
    decreases |s| - i, 2
  {
    hide MembersAt;
    WsCut(s, w, i + 1);
    var k := SkipWs(s, i + 1);
    if k < |s| && s[k] != '}' { MembersCut(s, w, k, strict); }
  }

  lemma {:induction false} ArrayCut(s: string, w: string, i: nat, strict: bool)
    requires PrefixAt(s, w, i) && i < |s| && ArrayAt(w, i, strict).ok
    ensures ArrayAt(s, i, strict) == Cut(ArrayAt(w, i, strict), |s|)
    decreases |s| - i, 2
  {
    hide ElementsAt;
    WsCut(s, w, i + 1);
    var k := SkipWs(s, i + 1);
    if k < |s| && s[k] != ']' { ElementsCut(s, w, k, strict); }
  }

  lemma {:induction false} ElementCut(s: string, w: string, i: nat, strict: bool)
    requires PrefixAt(s, w, i) && ElementAt(w, i, strict).ok
    ensures ElementAt(s, i, strict) == Cut(ElementAt(w, i, strict), |s|)
    decreases |s| - i, 4
  {
    hide ValueAt;
    ValueCut(s, w, i, strict);
    if ValueAt(w, i, strict).i <= |s| { WsCut(s, w, ValueAt(w, i, strict).i); }
  }

  lemma {:induction false} ColonValueCut(s: string, w: string, i: nat, strict: bool)
    requires PrefixAt(s, w, i) && ColonValueAt(w, i, strict).ok
    ensures ColonValueAt(s, i, strict) == Cut(ColonValueAt(w, i, strict), |s|)
    decreases |s| - i, 5
  {
    hide ElementAt;
    WsCut(s, w, i);
    var k := SkipWs(s, i);
    if k < |s| { ElementCut(s, w, k + 1, strict); }
  }

  lemma AtEnd(s: string, i: nat, strict: bool)
    requires i <= |s|
    ensures i == |s| ==> ColonValueAt(s, i, strict) == Parsed(true, i)
  {
  }

  lemma {:induction false} MemberCut(s: string, w: string, i: nat, strict: bool)
    requires PrefixAt(s, w, i) && MemberAt(w, i, strict).ok
    ensures MemberAt(s, i, strict) == Cut(MemberAt(w, i, strict), |s|)
    decreases |s| - i, 6
  {
    hide ColonValueAt, StringBody;
    WsCut(s, w, i);
    var j := SkipWs(s, i);
    if j < |s| {
      StringBodyCut(s, w, j + 1);
      var key := StringAt(w, j);
      AtEnd(s, |s|, strict);
      if key.i <= |s| { ColonValueCut(s, w, key.i, strict); }
    }
  }

  lemma {:induction false} MembersCut(s: string, w: string, i: nat, strict: bool)
    requires PrefixAt(s, w, i) && MembersAt(w, i, strict).ok
    ensures MembersAt(s, i, strict) == Cut(MembersAt(w, i, strict), |s|)
    decreases |s| - i, 7
  {
    hide MemberAt;
    MemberCut(s, w, i, strict);
    var m := MemberAt(s, i, strict);
    if m.i < |s| && s[m.i] == ',' { MembersCut(s, w, m.i + 1, strict); }
  }

  lemma {:induction false} ElementsCut(s: string, w: string, i: nat, strict: bool)
    requires PrefixAt(s, w, i) && ElementsAt(w, i, strict).ok
    ensures ElementsAt(s, i, strict) == Cut(ElementsAt(w, i, strict), |s|)
    decreases |s| - i, 7
  {
    hide ElementAt;
    ElementCut(s, w, i, strict);
    var m := ElementAt(s, i, strict);
    if m.i < |s| && s[m.i] == ',' { ElementsCut(s, w, m.i + 1, strict); }
  }

  lemma StrictPrefixClosed(s: string, w: string)
    requires s <= w && Strict(w)
    ensures Strict(s)
  {
    ElementCut(s, w, 0, true);
  }

  /** Every prefix of an accepted text is accepted. */
  lemma PrefixClosed(s: string, w: string)
    requires s <= w && Accepts(w)
    ensures Accepts(s)
  {
    WsCut(s, w, 0);
    var j := SkipWs(s, 0);
    if j < |s| { ValueCut(s, w, j, false); }
  }
}
