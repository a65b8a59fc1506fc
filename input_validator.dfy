/** `validateToolInput`: five fixed prompt-injection patterns tested, in
    order, against the serialized tool parameters. */
module InputValidator {
  import opened Wrappers
  import opened Text

  /** The phrases of the first four patterns, all matched with the `i` flag. */
  const FoldedPhrases: seq<string> := [
    "ignore previous instructions",
    "system prompt",
    "jailbreak",
    "<script>"
  ]

  /** `/\$\{.*\}/` anchored at `i`: `${`, then any characters other than
      line terminators, then `}`. */
  predicate TemplateAt(s: string, i: nat) {
    && OccursAt(s, "${", i)
    && exists j :: i + 2 <= j < |s| && s[j] == '}'
         && forall k :: i + 2 <= k < j ==> !IsLineTerminator(s[k])
  }

  /** `/\$\{.*\}/.test(s)` (case-sensitive). */
  predicate TemplateTest(s: string) {
    exists i :: 0 <= i < |s| && TemplateAt(s, i)
  }

  /** `patterns[i].test(s)` */
  predicate PatternTest(i: nat, s: string)
    requires i < 5
  {
    if i < 4 then IndexOfFolded(s, FoldedPhrases[i], 0).Some? else TemplateTest(s)
  }

  function InjectionMessage(toolName: string): string {
    "Security violation on tool " + toolName + ": injection detected"
  }

  /** The first of the patterns `from`, `from + 1`, … that matches. */
  function FirstMatch(s: string, from: nat): (r: Option<nat>)
    requires from <= 5
    decreases 5 - from
    ensures r.Some? ==> from <= r.value < 5 && PatternTest(r.value, s)
    ensures r.None? ==> forall i :: from <= i < 5 ==> !PatternTest(i, s)
  {
    if from == 5 then None
    else if PatternTest(from, s) then Some(from)
    else FirstMatch(s, from + 1)
  }

  /** `validateToolInput(toolName, params)`, where `str` is the text the
      patterns are tested against: `JSON.stringify(params)`. It throws as
      soon as one pattern matches, with the same message whichever it is. */
  function ValidateToolInput(toolName: string, str: string): (r: Outcome)
    ensures r.Fail? <==> exists i :: 0 <= i < 5 && PatternTest(i, str)
    ensures r.Fail? ==> r.message == InjectionMessage(toolName)
  {
    if FirstMatch(str, 0).Some? then Fail(InjectionMessage(toolName)) else Pass
  }

  /** The first four patterns are case-insensitive phrase searches. */
  lemma {:induction false} PhraseFound(toolName: string, str: string, i: nat, p: nat)
    requires i < 4 && OccursAtFolded(str, FoldedPhrases[i], p)
    ensures ValidateToolInput(toolName, str).Fail?
  {
    assert PatternTest(i, str);
  }

  /** The template pattern is found whatever text lies around it. */
  lemma TemplateFound(toolName: string, before: string, inner: string, after: string)
    requires forall k :: 0 <= k < |inner| ==> !IsLineTerminator(inner[k])
    ensures ValidateToolInput(toolName, before + "${" + inner + "}" + after).Fail?
  {
    var s := before + "${" + inner + "}" + after;
    var i := |before|;
    assert s[i..i + 2] == "${";
    assert s[i + 2 + |inner|] == '}';
    assert forall k :: i + 2 <= k < i + 2 + |inner| ==> s[k] == inner[k - i - 2];
    assert TemplateAt(s, i);
    assert PatternTest(4, s);
  }

  /** The tool name decides only the message, never whether it throws. */
  lemma ToolNameIrrelevant(a: string, b: string, str: string)
    ensures ValidateToolInput(a, str).Pass? <==> ValidateToolInput(b, str).Pass?
    ensures ValidateToolInput(a, str).Fail? ==> ValidateToolInput(b, str) == Fail(InjectionMessage(b))
  {
  }

  /** A phrase of the first four patterns refuses the text it is part of. */
  lemma PhraseAnywhere(toolName: string, pre: string, i: nat, post: string)
    requires i < 4
    ensures ValidateToolInput(toolName, pre + FoldedPhrases[i] + post)
         == Fail(InjectionMessage(toolName))
  {
    var str := pre + FoldedPhrases[i] + post;
    forall j | 0 <= j < |FoldedPhrases[i]|
      ensures FoldEq(str[|pre| + j], FoldedPhrases[i][j])
    {
      assert str[|pre| + j] == FoldedPhrases[i][j];
    }
    PhraseFound(toolName, str, i, |pre|);
  }

  /** The parameters `{ query: 'ignore previous instructions' }`, serialized,
      are refused. */
  lemma InjectedQueryRefused(str: string)
    requires str == "{\"query\":\"ignore previous instructions\"}"
    ensures ValidateToolInput("test-tool", str)
         == Fail(InjectionMessage("test-tool"))
  {
    var pre, post := "{\"query\":\"", "\"}";
    assert pre + FoldedPhrases[0] + post == str;
    PhraseAnywhere("test-tool", pre, 0, post);
  }
}
