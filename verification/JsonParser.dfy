/** The JSON prefix recogniser: the parsing functions that define its verdict, and the loops of the
    source, which advance one index through the text, proved to compute them. The functions take a flag:
    the recogniser is the scan with `strict` off; with `strict` on the same scan makes the checks on
    numbers that the grammar asks for and the source leaves out. */
module JsonParser {

  /** The verdict of a parsing function and the index where it stopped. */
  datatype Parsed = Parsed(ok: bool, i: nat)

  predicate IsWs(c: char) { c == ' ' || c == '\t' || c == '\n' || c == '\r' }

  predicate IsDigit(c: char) { '0' <= c <= '9' }

  predicate IsHex(c: char) { '0' <= c <= '9' || 'a' <= c <= 'f' || 'A' <= c <= 'F' }

  predicate IsControl(c: char) { c < ' ' }

  /** The characters that may follow a backslash, `u` apart. */
  predicate IsEscape(c: char) {
    c == '"' || c == '\\' || c == '/' || c == 'b' || c == 'f' || c == 'n' || c == 'r' || c == 't'
  }

  function SkipWs(s: string, i: nat): (j: nat)
    requires i <= |s|
    ensures i <= j <= |s|
    decreases |s| - i
  {
    if i < |s| && IsWs(s[i]) then SkipWs(s, i + 1) else i
  }

  function SkipDigits(s: string, i: nat): (j: nat)
    requires i <= |s|
    ensures i <= j <= |s|
    decreases |s| - i
  {
    if i < |s| && IsDigit(s[i]) then SkipDigits(s, i + 1) else i
  }

  /** Up to `k` hexadecimal digits; the text may end among them. */
  function HexRun(s: string, i: nat, k: nat): (r: Parsed)
    requires i <= |s|
    ensures i <= r.i <= |s|
    ensures r.ok && r.i < |s| ==> r.i == i + k
    decreases k
  {
    if k == 0 || i >= |s| then Parsed(true, i)
    else if IsHex(s[i]) then HexRun(s, i + 1, k - 1)
    else Parsed(false, i)
  }

  /** The rest of a string after its opening quote. */
  function StringBody(s: string, i: nat): (r: Parsed)
    requires i <= |s|
    ensures i <= r.i <= |s|
    decreases |s| - i
  {
    if i >= |s| then Parsed(true, i)
    else if s[i] == '\\' then
      if i + 1 >= |s| then Parsed(true, i + 1)
      else if IsEscape(s[i + 1]) then StringBody(s, i + 2)
      else if s[i + 1] == 'u' then
        var h := HexRun(s, i + 2, 4);
        if h.ok then StringBody(s, h.i) else h
      else Parsed(false, i + 1)
    else if s[i] == '"' then Parsed(true, i + 1)
    else if IsControl(s[i]) then Parsed(false, i)
    else StringBody(s, i + 1)
  }

  function StringAt(s: string, i: nat): (r: Parsed)
    requires i <= |s|
    ensures i <= r.i <= |s|
  {
    if i >= |s| || s[i] != '"' then Parsed(false, i) else StringBody(s, i + 1)
  }

  /** An optional fraction: a dot and any number of digits. */
  function SkipFraction(s: string, i: nat): (j: nat)
    requires i <= |s|
    ensures i <= j <= |s|
  {
    if i < |s| && s[i] == '.' then SkipDigits(s, i + 1) else i
  }

  /** An optional exponent: `e` or `E`, an optional sign and any number of digits. */
  function SkipExponent(s: string, i: nat): (j: nat)
    requires i <= |s|
    ensures i <= j <= |s|
  {
    if i < |s| && (s[i] == 'e' || s[i] == 'E') then
      if i + 1 < |s| && (s[i + 1] == '+' || s[i + 1] == '-') then SkipDigits(s, i + 2)
      else SkipDigits(s, i + 1)
    else i
  }

  predicate DigitOrEnd(s: string, i: nat) { i < |s| ==> IsDigit(s[i]) }

  /** A digit, or the end of the text, after a dot. */
  predicate StrictFraction(s: string, i: nat) {
    i < |s| && s[i] == '.' ==> DigitOrEnd(s, i + 1)
  }

  /** A digit, or the end of the text, after `e` and after the sign of the exponent. */
  predicate StrictExponent(s: string, i: nat) {
    i < |s| && (s[i] == 'e' || s[i] == 'E') ==>
      DigitOrEnd(s, if i + 1 < |s| && (s[i + 1] == '+' || s[i + 1] == '-') then i + 2 else i + 1)
  }

  /** What the source does not check in a number whose digits start at `i`. */
  predicate StrictNumber(s: string, i: nat)
    requires i < |s|
  {
    && (s[i] == '0' ==> i + 1 < |s| ==> !IsDigit(s[i + 1]))
    && StrictFraction(s, SkipDigits(s, i))
    && StrictExponent(s, SkipFraction(s, SkipDigits(s, i)))
  }

  function NumberAt(s: string, i: nat, strict: bool): (r: Parsed)
    requires i <= |s|
    ensures i <= r.i <= |s|
  {
    var j := if i < |s| && s[i] == '-' then i + 1 else i;
    if j >= |s| then Parsed(true, j)
    else if !IsDigit(s[j]) then Parsed(false, j)
    else Parsed(strict ==> StrictNumber(s, j), SkipExponent(s, SkipFraction(s, SkipDigits(s, j))))
  }

  function KeywordAt(s: string, i: nat, kw: string): (r: Parsed)
    requires i <= |s|
    ensures i <= r.i <= |s|
    decreases |kw|
  {
    if kw == "" || i >= |s| then Parsed(true, i)
    else if s[i] != kw[0] then Parsed(false, i)
    else KeywordAt(s, i + 1, kw[1..])
  }

  function ValueAt(s: string, i: nat, strict: bool): (r: Parsed)
    requires i <= |s|
    ensures i <= r.i <= |s|
    decreases |s| - i, 3
  {
    var j := SkipWs(s, i);
    if j >= |s| then Parsed(true, j)
    else if s[j] == '"' then StringAt(s, j)
    else if s[j] == '{' then ObjectAt(s, j, strict)
    else if s[j] == '[' then ArrayAt(s, j, strict)
    else if s[j] == 't' then KeywordAt(s, j, "true")
    else if s[j] == 'f' then KeywordAt(s, j, "false")
    else if s[j] == 'n' then KeywordAt(s, j, "null")
    else if s[j] == '-' || IsDigit(s[j]) then NumberAt(s, j, strict)
    else Parsed(false, j)
  }

  function ObjectAt(s: string, i: nat, strict: bool): (r: Parsed)
    requires i <= |s|
    ensures i <= r.i <= |s|
    decreases |s| - i, 2
  {
    if i >= |s| || s[i] != '{' then Parsed(false, i)
    else
      var k := SkipWs(s, i + 1);
      if k >= |s| then Parsed(true, k)
      else if s[k] == '}' then Parsed(true, k + 1)
      else MembersAt(s, k, strict)
  }

  function ArrayAt(s: string, i: nat, strict: bool): (r: Parsed)
    requires i <= |s|
    ensures i <= r.i <= |s|
    decreases |s| - i, 2
  {
    if i >= |s| || s[i] != '[' then Parsed(false, i)
    else
      var k := SkipWs(s, i + 1);
      if k >= |s| then Parsed(true, k)
      else if s[k] == ']' then Parsed(true, k + 1)
      else ElementsAt(s, k, strict)
  }

  /** One `key : value` pair with the white space around it. */
  function MemberAt(s: string, i: nat, strict: bool): (r: Parsed)
    requires i <= |s|
    ensures i <= r.i <= |s|
    decreases |s| - i, 6
  {
    var j := SkipWs(s, i);
    if j >= |s| then Parsed(true, j)
    else
      var key := StringAt(s, j);
      if key.ok then ColonValueAt(s, key.i, strict) else key
  }

  /** The colon and the value of a pair. */
  function ColonValueAt(s: string, i: nat, strict: bool): (r: Parsed)
    requires i <= |s|
    ensures i <= r.i <= |s|
    decreases |s| - i, 5
  {
    var k := SkipWs(s, i);
    if k >= |s| then Parsed(true, k)
    else if s[k] != ':' then Parsed(false, k)
    else ElementAt(s, k + 1, strict)
  }

  /** One value with the white space around it. */
  function ElementAt(s: string, i: nat, strict: bool): (r: Parsed)
    requires i <= |s|
    ensures i <= r.i <= |s|
    decreases |s| - i, 4
  {
    var v := ValueAt(s, i, strict);
    if v.ok then Parsed(true, SkipWs(s, v.i)) else v
  }

  /** The members of an object from index `i` up to and including the closing brace. */
  function MembersAt(s: string, i: nat, strict: bool): (r: Parsed)
    requires i <= |s|
    ensures i <= r.i <= |s|
    decreases |s| - i, 7
  {
    var m := MemberAt(s, i, strict);
    if !m.ok || m.i >= |s| then m
    else if s[m.i] == ',' then MembersAt(s, m.i + 1, strict)
    else Parsed(s[m.i] == '}', m.i + 1)
  }

  /** The elements of an array from index `i` up to and including the closing bracket. */
  function ElementsAt(s: string, i: nat, strict: bool): (r: Parsed)
    requires i <= |s|
    ensures i <= r.i <= |s|
    decreases |s| - i, 5
  {
    var m := ElementAt(s, i, strict);
    if !m.ok || m.i >= |s| then m
    else if s[m.i] == ',' then ElementsAt(s, m.i + 1, strict)
    else Parsed(s[m.i] == ']', m.i + 1)
  }

  /** The verdict of the recogniser. */
  predicate Accepts(s: string) {
    var i := SkipWs(s, 0);
    i >= |s| || ValueAt(s, i, false).ok
  }

  /** The strict scan finds one value with white space around it, or a beginning of that, in the whole text. */
  predicate Strict(s: string) {
    ElementAt(s, 0, true) == Parsed(true, |s|)
  }

  // ---------- the loops of the source ----------

  method SkipWhitespace(s: string, i0: nat) returns (i: nat)
    requires i0 <= |s|
    ensures i == SkipWs(s, i0)
  {
    i := i0;
    while i < |s| && IsWs(s[i])
      invariant i <= |s| && SkipWs(s, i) == SkipWs(s, i0)
    {
      i := i + 1;
    }
  }

  method ConsumeDigits(s: string, i0: nat) returns (i: nat)
    requires i0 <= |s|
    ensures i == SkipDigits(s, i0)
  {
    i := i0;
    while i < |s| && IsDigit(s[i])
      invariant i <= |s| && SkipDigits(s, i) == SkipDigits(s, i0)
    {
      i := i + 1;
    }
  }

  /** The loop over the four digits of a Unicode escape. */
  method ParseHex(s: string, i0: nat) returns (ok: bool, i: nat)
    requires i0 <= |s|
    ensures Parsed(ok, i) == HexRun(s, i0, 4)
  {
    i := i0;
    for k := 0 to 4
      invariant i == i0 + k <= |s|
      invariant HexRun(s, i, 4 - k) == HexRun(s, i0, 4)
    {
      if i >= |s| { return true, i; }
      if !IsHex(s[i]) { return false, i; }
      i := i + 1;
    }
    ok := true;
  }

  method ParseString(s: string, i0: nat) returns (ok: bool, i: nat)
    requires i0 <= |s|
    ensures ok == StringAt(s, i0).ok && (ok ==> i == StringAt(s, i0).i)
  {
    i := i0;
    if i >= |s| || s[i] != '"' { return false, i; }
    i := i + 1;
    while i < |s|
      invariant i0 < i <= |s| && StringBody(s, i) == StringAt(s, i0)
    {
      if s[i] == '\\' {
        i := i + 1;
        if i >= |s| { return true, i; }
        if IsEscape(s[i]) {
          i := i + 1;
        } else if s[i] == 'u' {
          ok, i := ParseHex(s, i + 1);
          if !ok || i >= |s| { return; }
        } else {
          return false, i;
        }
      } else if s[i] == '"' {
        return true, i + 1;
      } else if IsControl(s[i]) {
        return false, i;
      } else {
        i := i + 1;
      }
    }
    ok := true;
  }

  method ParseNumber(s: string, i0: nat) returns (ok: bool, i: nat)
    requires i0 <= |s|
    ensures ok == NumberAt(s, i0, false).ok && (ok ==> i == NumberAt(s, i0, false).i)
  {
    i := i0;
    if i >= |s| { return true, i; }
    if s[i] == '-' {
      i := i + 1;
      if i >= |s| { return true, i; }
    }
    if !IsDigit(s[i]) { return false, i; }
    i := ConsumeDigits(s, i);
    if i < |s| && s[i] == '.' {
      i := ConsumeDigits(s, i + 1);
    }
    if i < |s| && (s[i] == 'e' || s[i] == 'E') {
      i := i + 1;
      if i < |s| && (s[i] == '+' || s[i] == '-') {
        i := i + 1;
      }
      i := ConsumeDigits(s, i);
    }
    ok := true;
  }

  method ParseKeyword(s: string, i0: nat, kw: string) returns (ok: bool, i: nat)
    requires i0 <= |s|
    ensures ok == KeywordAt(s, i0, kw).ok && (ok ==> i == KeywordAt(s, i0, kw).i)
  {
    i := i0;
    for k := 0 to |kw|
      invariant i == i0 + k <= |s|
      invariant KeywordAt(s, i, kw[k..]) == KeywordAt(s, i0, kw)
    {
      if i >= |s| { return true, i; }
      if s[i] != kw[k] { return false, i; }
      i := i + 1;
    }
    ok := true;
  }

  method ParseValue(s: string, i0: nat) returns (ok: bool, i: nat)
    requires i0 <= |s|
    ensures ok == ValueAt(s, i0, false).ok && (ok ==> i == ValueAt(s, i0, false).i)
    decreases |s| - i0, 2
  {
    i := SkipWhitespace(s, i0);
    if i >= |s| { return true, i; }
    if s[i] == '"' {
      ok, i := ParseString(s, i);
    } else if s[i] == '{' {
      ok, i := ParseObject(s, i);
    } else if s[i] == '[' {
      ok, i := ParseArray(s, i);
    } else if s[i] == 't' {
      ok, i := ParseKeyword(s, i, "true");
    } else if s[i] == 'f' {
      ok, i := ParseKeyword(s, i, "false");
    } else if s[i] == 'n' {
      ok, i := ParseKeyword(s, i, "null");
    } else if s[i] == '-' || IsDigit(s[i]) {
      ok, i := ParseNumber(s, i);
    } else {
      ok := false;
    }
  }

  method ParseObject(s: string, i0: nat) returns (ok: bool, i: nat)
    requires i0 <= |s|
    ensures ok == ObjectAt(s, i0, false).ok && (ok ==> i == ObjectAt(s, i0, false).i)
    decreases |s| - i0, 1
  {
    if i0 >= |s| || s[i0] != '{' { return false, i0; }
    i := SkipWhitespace(s, i0 + 1);
    if i >= |s| { return true, i; }
    if s[i] == '}' { return true, i + 1; }
    while true
      invariant i0 < i <= |s| && MembersAt(s, i, false) == ObjectAt(s, i0, false)
      decreases |s| - i
    {
      ok, i := ParseMember(s, i);
      if !ok || i >= |s| { return; }
      if s[i] == '}' { return true, i + 1; }
      if s[i] != ',' { return false, i; }
      i := i + 1;
    }
  }

  /** The body of the loop over the pairs of an object, up to the separator. */
  method ParseMember(s: string, i0: nat) returns (ok: bool, i: nat)
    requires i0 <= |s|
    ensures ok == MemberAt(s, i0, false).ok && (ok ==> i == MemberAt(s, i0, false).i)
    decreases |s| - i0, 3
  {
    i := SkipWhitespace(s, i0);
    if i >= |s| { return true, i; }
    if s[i] != '"' { return false, i; }
    ok, i := ParseString(s, i);
    if !ok { return; }
    assert MemberAt(s, i0, false) == ColonValueAt(s, i, false);
    i := SkipWhitespace(s, i);
    if i >= |s| { return true, i; }
    if s[i] != ':' { return false, i; }
    assert MemberAt(s, i0, false) == ElementAt(s, i + 1, false);
    ok, i := ParseValue(s, i + 1);
    if !ok { return; }
    i := SkipWhitespace(s, i);
  }

  method ParseArray(s: string, i0: nat) returns (ok: bool, i: nat)
    requires i0 <= |s|
    ensures ok == ArrayAt(s, i0, false).ok && (ok ==> i == ArrayAt(s, i0, false).i)
    decreases |s| - i0, 1
  {
    if i0 >= |s| || s[i0] != '[' { return false, i0; }
    i := SkipWhitespace(s, i0 + 1);
    if i >= |s| { return true, i; }
    if s[i] == ']' { return true, i + 1; }
    while true
      invariant i0 < i <= |s| && ElementsAt(s, i, false) == ArrayAt(s, i0, false)
      decreases |s| - i
    {
      ok, i := ParseValue(s, i);
      if !ok { return; }
      i := SkipWhitespace(s, i);
      if i >= |s| { return true, i; }
      if s[i] == ']' { return true, i + 1; }
      if s[i] != ',' { return false, i; }
      i := i + 1;
    }
  }

  method StateMachine(s: string) returns (ok: bool)
    ensures ok == Accepts(s)
  {
    var i := SkipWhitespace(s, 0);
    if i >= |s| { return true; }
    ok, i := ParseValue(s, i);
  }
}
