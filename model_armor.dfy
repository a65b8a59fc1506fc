/** `ModelArmor`: PII extraction with the four PII patterns, the two
    content-policy patterns, and the redaction of the detected PII. */
module ModelArmor {
  import opened Wrappers
  import opened Text
  import opened PiiPatterns

  /** A detected PII value; the source's `type` field is named `kind`. */
  datatype PiiEntity = PiiEntity(kind: PiiType, value: string, start: nat, end: nat)

  /** `scanInput` always sets `sanitizedContent`, so it is not optional here. */
  datatype ArmorResult = ArmorResult(
    safe: bool,
    violations: seq<string>,
    piiDetected: seq<PiiEntity>,
    sanitizedContent: string)

  /** The string value of an entity's `type`. */
  function TypeName(t: PiiType): string {
    match t
    case Email => "email"
    case Ssn => "ssn"
    case CreditCard => "credit_card"
    case Phone => "phone"
    case Address => "address"
  }

  /** `[REDACTED_${entity.type.toUpperCase()}]` */
  function Placeholder(t: PiiType): string {
    "[REDACTED_" + Upper(TypeName(t)) + "]"
  }

  /* ----- Detection ----- */

  /** The entity pushed for one match of the pattern of category `t`. */
  function ToEntity(t: PiiType, content: string, m: Span): (e: PiiEntity)
    requires m.start <= m.end <= |content|
    ensures e.start <= e.end <= |content| && e.end == e.start + |e.value|
    ensures e.value == content[e.start..e.end] && e.kind == t
    ensures e.start == m.start && e.end == m.end
  {
    PiiEntity(t, content[m.start..m.end], m.start, m.end)
  }

  /** The entities of one category, in the order `matchAll` yields them. */
  function EntitiesOf(t: PiiType, content: string): (es: seq<PiiEntity>)
    ensures |es| == |MatchAll(t, content, 0)|
    ensures forall i :: 0 <= i < |es| ==>
      && es[i].kind == t
      && es[i].start == MatchAll(t, content, 0)[i].start
      && es[i].end == MatchAll(t, content, 0)[i].end
      && es[i].value == content[es[i].start..es[i].end]
  {
    var ms := MatchAll(t, content, 0);
    seq(|ms|, i requires 0 <= i < |ms| => ToEntity(t, content, ms[i]))
  }

  /** The entities of the categories `ts`, category after category. */
  function DetectedFor(content: string, ts: seq<PiiType>): (es: seq<PiiEntity>)
  {
    if ts == [] then []
    else DetectedFor(content, ts[..|ts| - 1]) + EntitiesOf(ts[|ts| - 1], content)
  }

  /** `piiDetected` before it is sorted: all four categories in the key order
      of `patterns`. */
  function Detected(content: string): seq<PiiEntity> {
    DetectedFor(content, PatternTypes)
  }

  /** An entity the scan can report: a match of its category's pattern,
      found first at its start, whose value is the matched text. */
  predicate WellFormed(content: string, e: PiiEntity) {
    && e.start <= e.end <= |content|
    && e.end == e.start + |e.value|
    && e.value == content[e.start..e.end]
    && e.kind in PatternTypes
    && MatchAt(e.kind, content, e.start) == Some(e.end)
  }

  function ViolationText(i: nat): string
    requires i < |ToxicSources|
  {
    "Policy violation: " + ToxicSources[i]
  }

  /** The violations found by the first `n` content-policy patterns. */
  function ViolationsUpTo(content: string, n: nat): seq<string>
    requires n <= |ToxicSources|
  {
    if n == 0 then []
    else
      var found := if ToxicTest(n - 1, content) then [ViolationText(n - 1)] else [];
      ViolationsUpTo(content, n - 1) + found
  }

  function Violations(content: string): seq<string> {
    ViolationsUpTo(content, |ToxicSources|)
  }

  /* ----- Sorting by descending start ----- */

  /** Inserts `x` behind every element of the descending list `ys` whose
      start is at least `x.start`: the element placed last in a stable sort. */
  function InsertDesc(ys: seq<PiiEntity>, x: PiiEntity): seq<PiiEntity>
  {
    if ys == [] then [x]
    else if ys[|ys| - 1].start >= x.start then ys + [x]
    else InsertDesc(ys[..|ys| - 1], x) + [ys[|ys| - 1]]
  }

  /** `entities.sort((a, b) => b.start - a.start)`: a stable sort, so
      entities with equal starts keep their relative order. */
  function SortDesc(xs: seq<PiiEntity>): seq<PiiEntity>
  {
    if xs == [] then []
    else InsertDesc(SortDesc(xs[..|xs| - 1]), xs[|xs| - 1])
  }

  predicate Descending(es: seq<PiiEntity>) {
    forall i, j :: 0 <= i < j < |es| ==> es[i].start >= es[j].start
  }

  /* ----- Redaction ----- */

  /** One step of `sanitize`: the entity's range replaced by its placeholder,
      with the clamping of `slice`. */
  function Redact(s: string, e: PiiEntity): string {
    SliceTo(s, e.start) + Placeholder(e.kind) + SliceFrom(s, e.end)
  }

  /** The `forEach` of `sanitize`, over entities already in their final order. */
  function ApplyRedactions(s: string, es: seq<PiiEntity>): string
    decreases |es|
  {
    if es == [] then s else ApplyRedactions(Redact(s, es[0]), es[1..])
  }

  /** The result of `scanInput`. */
  function ScanSpec(content: string): ArmorResult {
    var violations := Violations(content);
    var sorted := SortDesc(Detected(content));
    ArmorResult(|violations| == 0, violations, sorted, ApplyRedactions(content, sorted))
  }

  /** A prefix one longer is the prefix and the next entity. */
  lemma PrefixExtend(es: seq<PiiEntity>, k: nat)
    requires k < |es|
    ensures es[..k + 1] == es[..k] + [es[k]]
  {
  }

  /* ----- The imperative operations ----- */

  class ModelArmor {
    constructor () {}

    /** `scanInput`: collects the entities category by category and the
        violations pattern by pattern, then hands the entity array to
        `sanitize`, which sorts that same array in place. */
    method ScanInput(content: string) returns (r: ArmorResult)
      ensures r == ScanSpec(content)
    {
      var pii := CollectEntities(content);
      var violations := CollectViolations(content);
      var entities := new PiiEntity[|pii|](i requires 0 <= i < |pii| => pii[i]);
      assert entities[..] == pii;
      var sanitized := Sanitize(content, entities);
      r := ArmorResult(|violations| == 0, violations, entities[..], sanitized);
    }

    /** The `forEach` over the PII patterns of `scanInput`: each match of
        each pattern pushed in turn. */
    method CollectEntities(content: string) returns (pii: seq<PiiEntity>)
      ensures pii == Detected(content)
    {
      pii := [];
      for i := 0 to |PatternTypes|
        invariant pii == DetectedFor(content, PatternTypes[..i])
      {
        var t := PatternTypes[i];
        pii := PushEntities(content, t, pii);
        assert PatternTypes[..i + 1][..i] == PatternTypes[..i];
      }
      assert PatternTypes[..|PatternTypes|] == PatternTypes;
    }

    /** The `for ... of` over the matches of one pattern: one entity pushed
        per match, in the order `matchAll` yields them. */
    method PushEntities(content: string, t: PiiType, pii: seq<PiiEntity>) returns (pii': seq<PiiEntity>)
      ensures pii' == pii + EntitiesOf(t, content)
    {
      var matches := MatchAll(t, content, 0);
      ghost var es := EntitiesOf(t, content);
      pii' := pii;
      for k := 0 to |matches|
        invariant pii' == pii + es[..k]
      {
        var m := matches[k];
        PrefixExtend(es, k);
        pii' := pii' + [ToEntity(t, content, m)];
      }
      assert es[..|matches|] == es;
    }

    /** The loop over the content-policy patterns of `scanInput`. */
    method CollectViolations(content: string) returns (violations: seq<string>)
      ensures violations == Violations(content)
    {
      violations := [];
      for i := 0 to |ToxicSources|
        invariant violations == ViolationsUpTo(content, i)
      {
        if ToxicTest(i, content) {
          violations := violations + ["Policy violation: " + ToxicSources[i]];
        }
      }
    }

    /** `scanOutput` runs the same scan. */
    method ScanOutput(content: string) returns (r: ArmorResult)
      ensures r == ScanSpec(content)
    {
      r := ScanInput(content);
    }

    /** `sanitize`: sorts `entities` in place, then replaces each entity's
        range, from the highest start down. */
    method Sanitize(content: string, entities: array<PiiEntity>) returns (sanitized: string)
      modifies entities
      ensures entities[..] == SortDesc(old(entities[..]))
      ensures sanitized == ApplyRedactions(content, entities[..])
    {
      SortByStartDescending(entities);
      sanitized := content;
      for k := 0 to entities.Length
        invariant ApplyRedactions(sanitized, entities[k..]) == ApplyRedactions(content, entities[..])
      {
        assert entities[k..][1..] == entities[k + 1..];
        sanitized := SliceTo(sanitized, entities[k].start) + Placeholder(entities[k].kind)
          + SliceFrom(sanitized, entities[k].end);
      }
    }
  }

  /** What a scan promises: `safe` exactly when there is no violation, and
      the entities are those detected, each well formed, in the order the
      in-place sort leaves them, by non-increasing start. */
  lemma ScanResultProperties(content: string)
    ensures var r := ScanSpec(content);
      && (r.safe <==> r.violations == [])
      && Descending(r.piiDetected)
      && multiset(r.piiDetected) == multiset(Detected(content))
      && (forall e :: e in r.piiDetected ==> WellFormed(content, e))
  {
    var pii := Detected(content);
    var r := ScanSpec(content);
    SortDescSorted(pii);
    SortDescPermutes(pii);
    DetectedWellFormed(content);
    forall e | e in r.piiDetected
      ensures WellFormed(content, e)
    {
      assert e in multiset(pii);
    }
  }

  /** The stable in-place sort behind `entities.sort`: an insertion sort that
      shifts only entities with a strictly smaller start. */
  method SortByStartDescending(a: array<PiiEntity>)
    modifies a
    ensures a[..] == SortDesc(old(a[..]))
  {
    ghost var orig := a[..];
    for i := 0 to a.Length
      invariant a[..i] == SortDesc(orig[..i])
      invariant forall k :: i <= k < a.Length ==> a[k] == orig[k]
    {
      InsertLast(a, i);
      assert orig[..i + 1][..i] == orig[..i];
      assert orig[..i + 1][i] == orig[i];
    }
    assert a[..] == a[..a.Length];
    assert orig == orig[..a.Length];
  }

  /** One pass of the insertion sort: `a[i]` moves down behind the entities
      of `a[..i]` whose start is at least its own. */
  method InsertLast(a: array<PiiEntity>, i: nat)
    requires i < a.Length
    modifies a
    ensures a[..i + 1] == InsertDesc(old(a[..i]), old(a[i]))
    ensures forall k :: i < k < a.Length ==> a[k] == old(a[k])
  {
    var key := a[i];
    ghost var ys := a[..i];
    var j := i;
    while j > 0 && a[j - 1].start < key.start
      invariant 0 <= j <= i
      invariant forall k :: 0 <= k < j ==> a[k] == ys[k]
      invariant forall k :: j <= k < i ==> a[k + 1] == ys[k] && ys[k].start < key.start
      invariant forall k :: i < k < a.Length ==> a[k] == old(a[k])
    {
      a[j] := a[j - 1];
      j := j - 1;
    }
    a[j] := key;
    InsertDescAt(ys, key, j);
    ShiftedInsert(a[..], ys, key, i, j);
  }

  /** The array after the insertion loop: the entities before the gap, the
      inserted one, then the shifted ones. */
  lemma ShiftedInsert(cur: seq<PiiEntity>, ys: seq<PiiEntity>, key: PiiEntity, i: nat, j: nat)
    requires |ys| == i < |cur| && j <= i && cur[j] == key
    requires forall k :: 0 <= k < j ==> cur[k] == ys[k]
    requires forall k :: j <= k < i ==> cur[k + 1] == ys[k]
    ensures cur[..i + 1] == ys[..j] + [key] + ys[j..]
  {
    var r := ys[..j] + [key] + ys[j..];
    forall k | 0 <= k <= i
      ensures cur[k] == r[k]
    {
      if k > j { assert cur[(k - 1) + 1] == ys[k - 1]; }
    }
  }

  /** Where `InsertDesc` puts the new entity: behind the prefix whose starts
      are at least its own, in front of the rest. */
  lemma {:induction false} InsertDescAt(ys: seq<PiiEntity>, key: PiiEntity, j: nat)
    requires j <= |ys| && (j == 0 || ys[j - 1].start >= key.start)
    requires forall k :: j <= k < |ys| ==> ys[k].start < key.start
    ensures InsertDesc(ys, key) == ys[..j] + [key] + ys[j..]
  {
    if j < |ys| {
      var init := ys[..|ys| - 1];
      InsertDescAt(init, key, j);
      assert init[..j] == ys[..j];
      assert init[j..] + [ys[|ys| - 1]] == ys[j..];
    }
  }

  /* ----- Properties of the specification ----- */

  lemma {:induction false} InsertDescPermutes(ys: seq<PiiEntity>, x: PiiEntity)
    ensures multiset(InsertDesc(ys, x)) == multiset(ys) + multiset{x}
  {
    if ys != [] && ys[|ys| - 1].start < x.start {
      InsertDescPermutes(ys[..|ys| - 1], x);
      assert ys == ys[..|ys| - 1] + [ys[|ys| - 1]];
    }
  }

  /** The sort keeps every entity, as often as it occurs. */
  lemma {:induction false} SortDescPermutes(xs: seq<PiiEntity>)
    ensures multiset(SortDesc(xs)) == multiset(xs)
  {
    if xs != [] {
      var init, last := xs[..|xs| - 1], xs[|xs| - 1];
      var sorted := SortDesc(init);
      assert multiset(sorted) == multiset(init) by {
        SortDescPermutes(init);
      }
      assert multiset(InsertDesc(sorted, last)) == multiset(sorted) + multiset{last} by {
        InsertDescPermutes(sorted, last);
      }
      assert multiset(xs) == multiset(init) + multiset{last} by {
        assert xs == init + [last];
      }
      assert SortDesc(xs) == InsertDesc(sorted, last);
    }
  }

  lemma {:induction false} InsertDescSorted(ys: seq<PiiEntity>, x: PiiEntity)
    requires Descending(ys)
    ensures Descending(InsertDesc(ys, x))
    ensures |InsertDesc(ys, x)| == |ys| + 1
  {
    if ys != [] && ys[|ys| - 1].start < x.start {
      var init := ys[..|ys| - 1];
      InsertDescSorted(init, x);
      InsertDescPermutes(init, x);
      var r := InsertDesc(init, x);
      forall k | 0 <= k < |r|
        ensures r[k].start >= ys[|ys| - 1].start
      {
        assert r[k] in multiset(init) + multiset{x};
      }
    }
  }

  /** The sorted list is ordered by non-increasing start. */
  lemma {:induction false} SortDescSorted(xs: seq<PiiEntity>)
    ensures Descending(SortDesc(xs))
    ensures |SortDesc(xs)| == |xs|
  {
    if xs != [] {
      SortDescSorted(xs[..|xs| - 1]);
      InsertDescSorted(SortDesc(xs[..|xs| - 1]), xs[|xs| - 1]);
    }
  }

  /** Every detected entity is a match of its category's pattern whose value
      is the matched text. */
  lemma DetectedWellFormed(content: string)
    ensures forall e :: e in Detected(content) ==> WellFormed(content, e)
  {
    forall i | 0 <= i <= |PatternTypes|
      ensures forall e :: e in DetectedFor(content, PatternTypes[..i]) ==> WellFormed(content, e)
    {
      DetectedForWellFormed(content, i);
    }
    assert PatternTypes[..|PatternTypes|] == PatternTypes;
  }

  lemma {:induction false} DetectedForWellFormed(content: string, n: nat)
    requires n <= |PatternTypes|
    ensures forall e :: e in DetectedFor(content, PatternTypes[..n]) ==> WellFormed(content, e)
  {
    if n > 0 {
      DetectedForWellFormed(content, n - 1);
      var t := PatternTypes[n - 1];
      assert PatternTypes[..n][..n - 1] == PatternTypes[..n - 1];
      MatchAllYieldsMatches(t, content, 0);
      var ms := MatchAll(t, content, 0);
      forall e | e in EntitiesOf(t, content)
        ensures WellFormed(content, e)
      {
        var i :| 0 <= i < |ms| && e == ToEntity(t, content, ms[i]);
        assert ms[i] in ms;
      }
    }
  }

  /** The content-policy verdict: one violation per matching pattern, in
      pattern order, so at most two; detected PII plays no part in `safe`. */
  lemma {:induction false} ViolationsByPattern(content: string)
    ensures Violations(content)
         == (if ToxicTest(0, content) then [ViolationText(0)] else [])
          + (if ToxicTest(1, content) then [ViolationText(1)] else [])
    ensures |Violations(content)| <= 2
    ensures ScanSpec(content).safe <==> !ToxicTest(0, content) && !ToxicTest(1, content)
  {
    assert ViolationsUpTo(content, 0) == [];
    assert ViolationsUpTo(content, 1)
        == (if ToxicTest(0, content) then [ViolationText(0)] else []);
  }

  /** Entities in descending order of start, each lying within the text
      before the entity ahead of it, so no two overlap. */
  predicate Separated(s: string, es: seq<PiiEntity>)
    decreases |es|
  {
    es == [] || (es[0].start <= es[0].end <= |s| && Separated(s[..es[0].start], es[1..]))
  }

  /** Text appended after `s` does not disturb separation. */
  lemma {:induction false} SeparatedExtend(s: string, t: string, es: seq<PiiEntity>)
    requires Separated(s, es)
    ensures Separated(s + t, es)
  {
    if es != [] {
      assert (s + t)[..es[0].start] == s[..es[0].start];
    }
  }

  /** The redacted text, read from the right: the text after the entity
      with the highest start kept as it is, that entity replaced by its
      placeholder, and the text before it redacted in the same way. */
  function Compose(s: string, es: seq<PiiEntity>): string
    requires Separated(s, es)
    decreases |es|
  {
    if es == [] then s
    else Compose(s[..es[0].start], es[1..]) + Placeholder(es[0].kind) + s[es[0].end..]
  }

  /** Redacting entities that all lie in `p` leaves a suffix `q` untouched. */
  lemma {:induction false} RedactionsKeepSuffix(p: string, q: string, es: seq<PiiEntity>)
    requires Separated(p, es)
    decreases |es|
    ensures ApplyRedactions(p + q, es) == ApplyRedactions(p, es) + q
  {
    if es != [] {
      var e := es[0];
      var redacted := p[..e.start] + Placeholder(e.kind) + p[e.end..];
      assert Redact(p, e) == redacted;
      assert Redact(p + q, e) == redacted + q by {
        assert (p + q)[..e.start] == p[..e.start];
        assert (p + q)[e.end..] == p[e.end..] + q;
      }
      SeparatedExtend(p[..e.start], Placeholder(e.kind) + p[e.end..], es[1..]);
      assert p[..e.start] + (Placeholder(e.kind) + p[e.end..]) == redacted;
      RedactionsKeepSuffix(redacted, q, es[1..]);
    }
  }

  /** `sanitize`, given separated entities in descending order, replaces
      each entity's range by its placeholder and keeps all other text. */
  lemma {:induction false} RedactionsCompose(s: string, es: seq<PiiEntity>)
    requires Separated(s, es)
    decreases |es|
    ensures ApplyRedactions(s, es) == Compose(s, es)
  {
    if es != [] {
      var e := es[0];
      var p := s[..e.start];
      var rest := Placeholder(e.kind) + s[e.end..];
      assert Redact(s, e) == p + rest;
      RedactionsKeepSuffix(p, rest, es[1..]);
      RedactionsCompose(p, es[1..]);
    }
  }

  /** The sanitized content of a scan whose entities do not overlap. */
  lemma ScanSanitizes(content: string)
    requires Separated(content, ScanSpec(content).piiDetected)
    ensures ScanSpec(content).sanitizedContent == Compose(content, ScanSpec(content).piiDetected)
  {
    RedactionsCompose(content, ScanSpec(content).piiDetected);
  }

  /** Content without digits, `@` or the letters `c`, `l`, `x` is safe,
      has no PII and comes back unchanged. */
  lemma CleanContent(content: string)
    requires forall j :: 0 <= j < |content| ==> !IsDigit(content[j]) && content[j] != '@'
    requires LacksKeyLetters(content)
    ensures ScanSpec(content) == ArmorResult(true, [], [], content)
  {
    forall t | t in PatternTypes
      ensures EntitiesOf(t, content) == []
    {
      NoDigitNoAtNoMatch(t, content);
    }
    NothingDetected(content, |PatternTypes|);
    assert PatternTypes[..|PatternTypes|] == PatternTypes;
    NoActionWordWithoutKeyLetters(content);
    NoSecrecyWordWithoutKeyLetters(content);
    ViolationsByPattern(content);
  }

  lemma {:induction false} NothingDetected(content: string, n: nat)
    requires n <= |PatternTypes|
    requires forall t :: t in PatternTypes ==> EntitiesOf(t, content) == []
    ensures DetectedFor(content, PatternTypes[..n]) == []
  {
    if n > 0 {
      NothingDetected(content, n - 1);
      assert PatternTypes[..n][..n - 1] == PatternTypes[..n - 1];
      assert PatternTypes[..n][n - 1] in PatternTypes;
    }
  }

  lemma WeatherQuestionIsClean()
    ensures ScanSpec("What is the weather today?") == ArmorResult(true, [], [], "What is the weather today?")
  {
    CleanContent("What is the weather today?");
  }

  /* ----- The entity list, category by category ----- */

  lemma DetectedStep(content: string, n: nat)
    requires n < |PatternTypes|
    ensures DetectedFor(content, PatternTypes[..n + 1])
         == DetectedFor(content, PatternTypes[..n]) + EntitiesOf(PatternTypes[n], content)
  {
    var ts := PatternTypes[..n + 1];
    assert |ts| - 1 == n && ts[n] == PatternTypes[n];
    assert ts[..n] == PatternTypes[..n];
  }

  lemma DetectedOne(content: string)
    ensures DetectedFor(content, PatternTypes[..1]) == EntitiesOf(Email, content)
  {
    assert PatternTypes[..1] == [Email];
    assert [Email][..0] == [];
  }

  lemma DetectedTwo(content: string)
    ensures DetectedFor(content, PatternTypes[..2]) == EntitiesOf(Email, content) + EntitiesOf(Ssn, content)
  {
    DetectedOne(content);
    DetectedStep(content, 1);
  }

  lemma DetectedThree(content: string)
    ensures DetectedFor(content, PatternTypes[..3])
         == EntitiesOf(Email, content) + EntitiesOf(Ssn, content) + EntitiesOf(CreditCard, content)
  {
    DetectedTwo(content);
    DetectedStep(content, 2);
  }

  /** `piiDetected` before sorting: the emails, then the SSNs, the card
      numbers and the phone numbers, each in the order of their matches. */
  lemma DetectedByCategory(content: string)
    ensures Detected(content) == EntitiesOf(Email, content) + EntitiesOf(Ssn, content)
                               + EntitiesOf(CreditCard, content) + EntitiesOf(Phone, content)
  {
    DetectedThree(content);
    DetectedStep(content, 3);
    assert PatternTypes[..4] == PatternTypes;
  }

  /** A category whose pattern matches once contributes exactly the entity
      of that match. */
  lemma EntitiesOfOnly(t: PiiType, content: string, p: nat, e: nat)
    requires MatchAll(t, content, 0) == [Span(p, e)]
    ensures p < e <= |content|
    ensures EntitiesOf(t, content) == [PiiEntity(t, content[p..e], p, e)]
  {
    var ms := MatchAll(t, content, 0);
    assert ms[0] == Span(p, e);
    assert EntitiesOf(t, content)[0] == ToEntity(t, content, ms[0]);
  }
}
