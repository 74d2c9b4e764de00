/** Constrained JSON generation: the prefix check with its completion heuristics, the grammar state fed token
    by token, and the masking of logits. `serde` stands for the JSON parser the source calls; all that is
    asked of it is that it accepts nothing but JSON texts. */
module JsonMode {
  import opened Arith
  import opened JsonExact
  import opened JsonParser
  import opened JsonPrefix
  import opened JsonText
  import opened Wrappers

  ghost predicate SerdeSound(serde: string -> bool) {
    forall s: string :: serde(s) ==> IsJsonText(s)
  }

  const COMPLETIONS: seq<string> := [
    "\"}", "\"]", "\"", "}", "]", "0", "0}", "0]", "null", "null}", "null]", "true", "true}",
    "true]", "false", "false}", "false]", "\"\"}", "\"\"]"]

  /** A completion accepted by the parser shows that the text is a prefix of a JSON text. */
  lemma CompletionAccepted(serde: string -> bool, s: string, completion: string)
    requires SerdeSound(serde) && serde(s + completion)
    ensures Accepts(s)
  {
    JsonPrefixesAccepted(s, s + completion);
  }

  /** The heuristics never change the verdict: the check returns what the state machine alone returns. */
  method IsValidJsonPrefix(serde: string -> bool, chars: string) returns (ok: bool)
    requires SerdeSound(serde)
    ensures ok == Accepts(chars)
  {
    if chars == "" { return true; }
    if serde(chars) {
      assert chars + "" == chars;
      CompletionAccepted(serde, chars, "");
      return true;
    }
    for k := 0 to |COMPLETIONS| {
      if serde(chars + COMPLETIONS[k]) {
        CompletionAccepted(serde, chars, COMPLETIONS[k]);
        return true;
      }
    }
    var closer := chars;
    for _ := 0 to 20
      invariant closer == chars
    {
      closer := closer + "}";
      if serde(closer) {
        CompletionAccepted(serde, chars, "}");
        return true;
      }
      closer := closer[..|closer| - 1];
      closer := closer + "]";
      if serde(closer) {
        assert closer == chars + "]";
        CompletionAccepted(serde, chars, "]");
        return true;
      }
      closer := closer[..|closer| - 1];
      if serde(chars + "\"}") {
        CompletionAccepted(serde, chars, "\"}");
        return true;
      }
    }
    ok := StateMachine(chars);
  }

  // ---------- token by token ----------

  function Concat(tokens: seq<string>): string {
    if tokens == [] then "" else tokens[0] + Concat(tokens[1..])
  }

  /** One token: appended if the result is accepted, else dropped. */
  function Feed(text: string, token: string): string {
    if Accepts(text + token) then text + token else text
  }

  function FeedAll(text: string, tokens: seq<string>): string
    decreases |tokens|
  {
    if tokens == [] then text else FeedAll(Feed(text, tokens[0]), tokens[1..])
  }

  predicate AllAccepted(text: string, tokens: seq<string>)
    decreases |tokens|
  {
    tokens == [] || (Accepts(text + tokens[0]) && AllAccepted(text + tokens[0], tokens[1..]))
  }

  /** Any segmentation of a text into tokens is accepted throughout exactly if the text is accepted at once. */
  lemma {:induction false} SegmentationIrrelevant(text: string, tokens: seq<string>)
    requires Accepts(text)
    ensures AllAccepted(text, tokens) <==> Accepts(text + Concat(tokens))
    ensures AllAccepted(text, tokens) ==> FeedAll(text, tokens) == text + Concat(tokens)
    decreases |tokens|
  {
    hide Accepts;
    if tokens == [] {
      assert text + Concat(tokens) == text;
    } else {
      ConcatAssoc(text, tokens[0], Concat(tokens[1..]));
      if Accepts(text + tokens[0]) {
        SegmentationIrrelevant(text + tokens[0], tokens[1..]);
      } else if Accepts(text + Concat(tokens)) {
        PrefixClosed(text + tokens[0], text + Concat(tokens));
      }
    }
  }

  /** Whatever tokens are offered, the kept text is accepted, begins with the text it grew from, and extends to
      a complete relaxed JSON text. */
  lemma {:induction false} KeptTextAccepted(text: string, tokens: seq<string>)
    requires Accepts(text)
    ensures Accepts(FeedAll(text, tokens)) && text <= FeedAll(text, tokens)
    ensures exists w: string :: IsRelaxedText(w) && FeedAll(text, tokens) <= w
    decreases |tokens|
  {
    hide Accepts;
    if tokens != [] {
      KeptTextAccepted(Feed(text, tokens[0]), tokens[1..]);
    } else {
      ExactLanguage(text);
    }
  }

  /** A kept text can still become a JSON text exactly if it passes the strict scan; behind any other accepted
      text every further token leads on in a dead end. */
  lemma CompletionReachable(text: string)
    requires Accepts(text)
    ensures Strict(text) <==> exists tokens: seq<string> :: IsJsonText(FeedAll(text, tokens))
  {
    hide Accepts, Strict, IsJsonText;
    if Strict(text) {
      var rest := StrictCompletes(text);
      JsonPrefixesAccepted(text + rest, text + rest);
      assert FeedAll(text, [rest]) == FeedAll(text + rest, [rest][1..]) == text + rest;
    }
    if exists tokens: seq<string> :: IsJsonText(FeedAll(text, tokens)) {
      var tokens: seq<string> :| IsJsonText(FeedAll(text, tokens));
      KeptTextAccepted(text, tokens);
      StrictLanguage(text);
    }
  }

  class JsonGrammar {
    var chars: string
    var valid: bool

    ghost predicate Valid()
      reads this
    {
      valid && Accepts(chars)
    }

    constructor ()
      ensures Valid() && chars == ""
    {
      chars := "";
      valid := true;
    }

    /** A rejected token leaves the text as it was. */
    method FeedToken(serde: string -> bool, token: string) returns (ok: bool)
      requires Valid() && SerdeSound(serde)
      modifies this
      ensures Valid() && ok == Accepts(old(chars) + token) && chars == Feed(old(chars), token)
    {
      if !valid { return false; }
      var test := chars + token;
      ok := IsValidJsonPrefix(serde, test);
      if ok {
        chars := test;
      }
    }

    method FeedTokens(serde: string -> bool, tokens: seq<string>) returns (ok: bool)
      requires Valid() && SerdeSound(serde)
      modifies this
      ensures Valid() && chars == FeedAll(old(chars), tokens)
      ensures ok <==> Accepts(old(chars) + Concat(tokens))
    {
      ok := true;
      SegmentationIrrelevant(chars, tokens);
      for k := 0 to |tokens|
        invariant Valid() && FeedAll(chars, tokens[k..]) == FeedAll(old(chars), tokens)
        invariant AllAccepted(old(chars), tokens) <==> ok && AllAccepted(chars, tokens[k..])
      {
        var fed := FeedToken(serde, tokens[k]);
        assert tokens[k..][1..] == tokens[k + 1..];
        ok := ok && fed;
      }
    }

    /** True exactly for a text that the parser accepts; then it is a JSON text. */
    method IsComplete(serde: string -> bool) returns (r: bool)
      requires SerdeSound(serde)
      ensures r <==> valid && chars != "" && serde(chars)
      ensures r ==> IsJsonText(chars) && Strict(chars)
    {
      if serde(chars) { JsonTextStrict(chars); }
      r := valid && chars != "" && serde(chars);
    }
  }

  // ---------- masking ----------

  type Logit = Extended

  datatype VocabEntry = VocabEntry(id: nat, text: string)

  /** An entry for token `i` among the first `n` whose text cannot follow. */
  predicate MaskedBy(current: string, vocab: seq<VocabEntry>, n: nat, i: nat)
    requires n <= |vocab|
  {
    exists k | 0 <= k < n :: vocab[k].id == i && !Accepts(current + vocab[k].text)
  }

  /** A logit is masked exactly when some vocabulary entry for it gives a text that is not accepted. */
  method ApplyJsonConstraint(serde: string -> bool, logits: array<Logit>, current: string, vocab: seq<VocabEntry>)
    requires SerdeSound(serde)
    modifies logits
    ensures forall i | 0 <= i < logits.Length ::
      logits[i] == if MaskedBy(current, vocab, |vocab|, i) then NegInfinity else old(logits[i])
  {
    for k := 0 to |vocab|
      invariant forall i | 0 <= i < logits.Length ::
        logits[i] == if MaskedBy(current, vocab, k, i) then NegInfinity else old(logits[i])
    {
      hide Accepts;
      var id := vocab[k].id;
      MaskedStep(current, vocab, k);
      if id >= logits.Length { continue; }
      var ok := IsValidJsonPrefix(serde, current + vocab[k].text);
      if !ok {
        logits[id] := NegInfinity;
      }
    }
  }

  lemma MaskedStep(current: string, vocab: seq<VocabEntry>, k: nat)
    requires k < |vocab|
    ensures forall i: nat :: MaskedBy(current, vocab, k + 1, i) <==>
      MaskedBy(current, vocab, k, i) || (vocab[k].id == i && !Accepts(current + vocab[k].text))
  {
    hide Accepts;
    forall i: nat
      ensures MaskedBy(current, vocab, k + 1, i) <==>
        MaskedBy(current, vocab, k, i) || (vocab[k].id == i && !Accepts(current + vocab[k].text))
    {
      if MaskedBy(current, vocab, k, i) {
        var j :| 0 <= j < k && vocab[j].id == i && !Accepts(current + vocab[j].text);
        assert 0 <= j < k + 1;
      }
      if vocab[k].id == i && !Accepts(current + vocab[k].text) {
        assert 0 <= k < k + 1;
      }
    }
  }

  /** A token that some JSON text continues with is masked only if another entry for its id is rejected. */
  lemma ContinuationNeverMasked(current: string, vocab: seq<VocabEntry>, k: nat, w: string)
    requires k < |vocab| && IsJsonText(w) && current + vocab[k].text <= w
    ensures MaskedBy(current, vocab, |vocab|, vocab[k].id) <==>
      exists j | 0 <= j < |vocab| :: j != k && vocab[j].id == vocab[k].id && !Accepts(current + vocab[j].text)
  {
    hide Accepts;
    JsonPrefixesAccepted(current + vocab[k].text, w);
  }
}
