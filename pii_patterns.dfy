/** The regular expressions of `ModelArmor`, written out as scanners over
    the characters of the content. They follow the JavaScript semantics of
    these particular patterns: `\b`, `\d`, `\w` and `\s` as ECMAScript
    defines them without the `u` flag, greedy quantifiers with the
    backtracking that can change the outcome, leftmost matching, and the
    `g`-flag iteration of `matchAll` that resumes at the end of each match. */
module PiiPatterns {
  import opened Wrappers
  import opened Text

  /** The PII categories. `Address` has no pattern and never matches. */
  datatype PiiType = Email | Ssn | CreditCard | Phone | Address

  /** The keys of the `patterns` object, in their enumeration order. */
  const PatternTypes: seq<PiiType> := [Email, Ssn, CreditCard, Phone]

  /** A half-open range `[start, end)` of the content. */
  datatype Span = Span(start: nat, end: nat)

  predicate WordAt(s: string, i: int) {
    0 <= i < |s| && IsWordChar(s[i])
  }

  /** `\b` at position `i`: a word character on exactly one side. */
  predicate Boundary(s: string, i: int) {
    WordAt(s, i - 1) != WordAt(s, i)
  }

  /** The length of the longest run of characters of class `cls` that starts
      at `i`: what a greedy `[...]+` or `\s+` first consumes. */
  function RunLength(s: string, i: nat, cls: char -> bool): (n: nat)
    requires i <= |s|
    decreases |s| - i
    ensures i + n <= |s|
    ensures forall j :: i <= j < i + n ==> cls(s[j])
    ensures i + n == |s| || !cls(s[i + n])
  {
    if i == |s| || !cls(s[i]) then 0 else 1 + RunLength(s, i + 1, cls)
  }

  predicate IsLocalChar(c: char) {
    IsLetter(c) || IsDigit(c) || c == '.' || c == '_' || c == '%' || c == '+' || c == '-'
  }

  predicate IsDomainChar(c: char) {
    IsLetter(c) || IsDigit(c) || c == '.' || c == '-'
  }

  /** `[A-Z|a-z]`: the `|` inside the class is a literal bar. */
  predicate IsTldChar(c: char) {
    IsLetter(c) || c == '|'
  }

  /* ----- /\b[A-Za-z0-9._%+-]+@[A-Za-z0-9.-]+\.[A-Z|a-z]{2,}\b/g ----- */

  /** `[A-Z|a-z]{2,}\b` starting at `r` after a run of `m` class characters:
      the greedy quantifier gives back one character at a time until `\b`
      holds, but never below two. Returns the end of the match. */
  function TldEnd(s: string, r: nat, m: nat): (e: Option<nat>)
    requires r + m <= |s|
    decreases m
    ensures e.Some? ==> r + 2 <= e.value <= r + m && Boundary(s, e.value)
  {
    if m < 2 then None
    else if Boundary(s, r + m) then Some(r + m)
    else TldEnd(s, r, m - 1)
  }

  /** `[A-Za-z0-9.-]+\.` followed by the top-level domain, the domain part
      starting at `q` and first taking `k` characters: a shorter domain part
      is tried whenever the rest fails, and a dot must follow it. */
  function DomainEnd(s: string, q: nat, k: nat): (e: Option<nat>)
    requires q + k <= |s|
    decreases k
    ensures e.Some? ==> q < e.value <= |s|
  {
    if k < 1 then None
    else if q + k < |s| && s[q + k] == '.' then
      var r := q + k + 1;
      match TldEnd(s, r, RunLength(s, r, IsTldChar))
      case Some(e) => Some(e)
      case None => DomainEnd(s, q, k - 1)
    else DomainEnd(s, q, k - 1)
  }

  /** The email pattern anchored at `p`. The local part can only end at the
      `@`, which is not in its class, so only its longest run can succeed. */
  function EmailAt(s: string, p: nat): (e: Option<nat>)
    requires p <= |s|
    ensures e.Some? ==> p < e.value <= |s|
  {
    if !Boundary(s, p) then None
    else
      var local := RunLength(s, p, IsLocalChar);
      if local == 0 || p + local >= |s| || s[p + local] != '@' then None
      else
        var q := p + local + 1;
        DomainEnd(s, q, RunLength(s, q, IsDomainChar))
  }

  /* ----- The digit-group patterns: SSN, credit card, phone ----- */

  predicate DigitsAt(s: string, i: nat, n: nat) {
    i + n <= |s| && forall j :: i <= j < i + n ==> IsDigit(s[j])
  }

  /** Groups of exactly `sizes[k]` digits, separated by one character of
      class `isSep`, the separator optional when `optionalSep`. A separator
      class never contains a digit, so when a separator is present the
      alternative of skipping it cannot succeed, and the match is decided
      without backtracking. Returns the end of the last group. */
  function GroupsEnd(s: string, i: nat, sizes: seq<nat>, isSep: char -> bool, optionalSep: bool)
    : (e: Option<nat>)
    requires i <= |s|
    decreases |sizes|
    ensures e.Some? ==> i <= e.value <= |s|
    ensures e.Some? && sizes != [] ==> DigitsAt(s, i, sizes[0])
  {
    if sizes == [] then Some(i)
    else if !DigitsAt(s, i, sizes[0]) then None
    else
      var j := i + sizes[0];
      if |sizes| == 1 then Some(j)
      else if j < |s| && isSep(s[j]) then GroupsEnd(s, j + 1, sizes[1..], isSep, optionalSep)
      else if optionalSep then GroupsEnd(s, j, sizes[1..], isSep, optionalSep)
      else None
  }

  predicate IsHyphen(c: char) { c == '-' }

  /** `[-\s]` */
  predicate IsCardSep(c: char) { c == '-' || IsSpace(c) }

  /** `[-.\s]` */
  predicate IsPhoneSep(c: char) { c == '-' || c == '.' || IsSpace(c) }

  /** `\b` + digit groups + `\b`, anchored at `p`. */
  function DigitPatternAt(s: string, p: nat, sizes: seq<nat>, isSep: char -> bool, optionalSep: bool)
    : (e: Option<nat>)
    requires p <= |s| && sizes != [] && sizes[0] > 0
    ensures e.Some? ==> p < e.value <= |s| && IsDigit(s[p])
  {
    if !Boundary(s, p) then None
    else
      match GroupsEnd(s, p, sizes, isSep, optionalSep)
      case None => None
      case Some(e) => if Boundary(s, e) then Some(e) else None
  }

  /** The pattern of category `t` anchored at `p`: the end of the match
      found first, if any. */
  function MatchAt(t: PiiType, s: string, p: nat): (e: Option<nat>)
    requires p <= |s|
    ensures e.Some? ==> p < e.value <= |s|
  {
    match t
    case Email => EmailAt(s, p)
    case Ssn => DigitPatternAt(s, p, [3, 2, 4], IsHyphen, false)              // \b\d{3}-\d{2}-\d{4}\b
    case CreditCard => DigitPatternAt(s, p, [4, 4, 4, 4], IsCardSep, true)    // \b\d{4}[-\s]?\d{4}[-\s]?\d{4}[-\s]?\d{4}\b
    case Phone => DigitPatternAt(s, p, [3, 3, 4], IsPhoneSep, true)           // \b\d{3}[-.\s]?\d{3}[-.\s]?\d{4}\b
    case Address => None
  }

  /** The leftmost match at or after `from`. */
  function NextMatch(t: PiiType, s: string, from: nat): (m: Option<Span>)
    decreases |s| - from
    ensures m.Some? ==> from <= m.value.start < m.value.end <= |s|
    ensures m.Some? ==> MatchAt(t, s, m.value.start) == Some(m.value.end)
    ensures m.Some? ==> forall p :: from <= p < m.value.start ==> MatchAt(t, s, p).None?
    ensures m.None? ==> forall p :: from <= p <= |s| ==> MatchAt(t, s, p).None?
  {
    if from > |s| then None
    else
      match MatchAt(t, s, from)
      case Some(e) => Some(Span(from, e))
      case None => NextMatch(t, s, from + 1)
  }

  /** A span put before later, ordered spans keeps them ordered. */
  lemma PrependSpan(m: Span, rest: seq<Span>, from: nat, n: nat)
    requires from <= m.start < m.end <= n
    requires forall i :: 0 <= i < |rest| ==> m.end <= rest[i].start < rest[i].end <= n
    requires forall i, j :: 0 <= i < j < |rest| ==> rest[i].end <= rest[j].start
    ensures var ms := [m] + rest;
      forall i :: 0 <= i < |ms| ==> from <= ms[i].start < ms[i].end <= n
    ensures var ms := [m] + rest;
      forall i, j :: 0 <= i < j < |ms| ==> ms[i].end <= ms[j].start
  {
    var ms := [m] + rest;
    assert forall i :: 1 <= i < |ms| ==> ms[i] == rest[i - 1];
  }

  /** `content.matchAll(pattern)` with the `g` flag: each search resumes
      where the previous match ended. */
  function MatchAll(t: PiiType, s: string, from: nat): (ms: seq<Span>)
    decreases |s| - from
    ensures forall i :: 0 <= i < |ms| ==> from <= ms[i].start < ms[i].end <= |s|
    ensures forall i, j :: 0 <= i < j < |ms| ==> ms[i].end <= ms[j].start
  {
    var next := NextMatch(t, s, from);
    if next.None? then []
    else
      var m := next.value;
      var rest := MatchAll(t, s, m.end);
      PrependSpan(m, rest, from, |s|);
      [m] + rest
  }

  /** Each span `matchAll` yields is a match of the pattern, the one found
      first at its start. */
  lemma {:induction false} MatchAllYieldsMatches(t: PiiType, s: string, from: nat)
    decreases |s| - from
    ensures forall m :: m in MatchAll(t, s, from) ==> MatchAt(t, s, m.start) == Some(m.end)
  {
    var next := NextMatch(t, s, from);
    if next.Some? {
      MatchAllYieldsMatches(t, s, next.value.end);
      assert MatchAll(t, s, from) == [next.value] + MatchAll(t, s, next.value.end);
    }
  }

  /** Nothing is skipped: every position the pattern matches at is the start
      of a yielded span or lies inside one. */
  lemma {:induction false} MatchAllCovers(t: PiiType, s: string, from: nat, q: nat)
    requires from <= q <= |s| && MatchAt(t, s, q).Some?
    decreases |s| - from
    ensures var ms := MatchAll(t, s, from);
      exists i :: 0 <= i < |ms| && ms[i].start <= q < ms[i].end
  {
    var next := NextMatch(t, s, from);
    assert next.Some?;
    var m := next.value;
    var rest := MatchAll(t, s, m.end);
    assert MatchAll(t, s, from) == [m] + rest;
    if q < m.end {
      assert m.start <= q;
      assert ([m] + rest)[0] == m;
    } else {
      MatchAllCovers(t, s, m.end, q);
      var i :| 0 <= i < |rest| && rest[i].start <= q < rest[i].end;
      assert ([m] + rest)[i + 1] == rest[i];
    }
  }

  /* ----- The content-policy patterns ----- */

  const ActionWords: seq<string> := ["hack", "exploit", "breach", "steal"]
  const SecrecyWords: seq<string> := ["confidential", "secret", "classified"]

  /** The `source` text of the two patterns. */
  const ToxicSources: seq<string> := [
    "\\b(hack|exploit|breach|steal)\\b",
    "\\b(confidential|secret|classified)\\s+\\w+"
  ]

  /** `/\b(hack|exploit|breach|steal)\b/i.test(s)`. No alternative is a
      prefix of another, so at most one can match at a position. */
  predicate ActionWordTest(s: string) {
    exists p, w :: 0 <= p <= |s| && 0 <= w < |ActionWords|
      && Boundary(s, p) && OccursAtFolded(s, ActionWords[w], p) && Boundary(s, p + |ActionWords[w]|)
  }

  /** `\s+\w+` at `j`: the white-space run can only be followed by the word
      character at its end, so only its longest run can succeed. */
  predicate SpaceThenWord(s: string, j: nat)
    requires j <= |s|
  {
    var n := RunLength(s, j, IsSpace);
    n >= 1 && j + n < |s| && IsWordChar(s[j + n])
  }

  /** `/\b(confidential|secret|classified)\s+\w+/i.test(s)` */
  predicate SecrecyWordTest(s: string) {
    exists p, w :: 0 <= p <= |s| && 0 <= w < |SecrecyWords|
      && Boundary(s, p) && OccursAtFolded(s, SecrecyWords[w], p)
      && SpaceThenWord(s, p + |SecrecyWords[w]|)
  }

  /** `toxicPatterns[i].test(s)` */
  predicate ToxicTest(i: nat, s: string)
    requires i < |ToxicSources|
  {
    if i == 0 then ActionWordTest(s) else SecrecyWordTest(s)
  }

  /* ----- Facts about the scanners ----- */

  /** Every PII match contains a digit or an `@`. */
  lemma MatchHasDigitOrAt(t: PiiType, s: string, p: nat)
    requires p <= |s| && MatchAt(t, s, p).Some?
    ensures exists j :: p <= j < |s| && (IsDigit(s[j]) || s[j] == '@')
  {
    if t == Email {
      var local := RunLength(s, p, IsLocalChar);
      assert s[p + local] == '@';
    }
  }

  /** Content without digits and without `@` has no PII match at all. */
  lemma NoDigitNoAtNoMatch(t: PiiType, s: string)
    requires forall j :: 0 <= j < |s| ==> !IsDigit(s[j]) && s[j] != '@'
    ensures MatchAll(t, s, 0) == []
  {
    if NextMatch(t, s, 0).Some? {
      MatchHasDigitOrAt(t, s, NextMatch(t, s, 0).value.start);
    }
  }

  /** A word found under case folding has, at each of its positions, a
      character whose lower case is the word's character. */
  lemma FoldedLetters(s: string, w: string, p: nat, j: nat)
    requires OccursAtFolded(s, w, p) && j < |w| && w[j] == LowerChar(w[j])
    ensures LowerChar(s[p + j]) == w[j]
  {
  }

  /** A word with a letter that the content does not contain, in either
      case, occurs nowhere in it under case folding. */
  lemma AbsentLetter(s: string, w: string, p: nat, k: nat)
    requires k < |w| && w[k] == LowerChar(w[k])
    requires forall j :: 0 <= j < |s| ==> LowerChar(s[j]) != w[k]
    ensures !OccursAtFolded(s, w, p)
  {
    if OccursAtFolded(s, w, p) {
      FoldedLetters(s, w, p, k);
    }
  }

  /** Content without the letters `c`, `l` and `x`, in either case: every
      word of both content-policy patterns contains one of them. */
  predicate LacksKeyLetters(s: string) {
    forall j :: 0 <= j < |s| ==> LowerChar(s[j]) != 'c' && LowerChar(s[j]) != 'l' && LowerChar(s[j]) != 'x'
  }

  lemma NoActionWordWithoutKeyLetters(s: string)
    requires LacksKeyLetters(s)
    ensures !ActionWordTest(s)
  {
    forall p: nat, w | 0 <= w < |ActionWords|
      ensures !OccursAtFolded(s, ActionWords[w], p)
    {
      var k := if w == 0 then 2 else if w == 1 then 1 else 4;
      AbsentLetter(s, ActionWords[w], p, k);
    }
  }

  lemma NoSecrecyWordWithoutKeyLetters(s: string)
    requires LacksKeyLetters(s)
    ensures !SecrecyWordTest(s)
  {
    forall p: nat, w | 0 <= w < |SecrecyWords|
      ensures !OccursAtFolded(s, SecrecyWords[w], p)
    {
      AbsentLetter(s, SecrecyWords[w], p, if w == 1 then 2 else 0);
    }
  }

  /* ----- Locating matches ----- */

  /** A digit-group match starts with a digit at a word boundary. */
  lemma DigitMatchStart(t: PiiType, s: string, p: nat)
    requires p <= |s| && t != Email && MatchAt(t, s, p).Some?
    ensures IsDigit(s[p]) && Boundary(s, p)
  {
  }

  /** No email match starts at `p` when the local part is cut off at `k`
      (by a character outside its class, or by the end of the content)
      before any `@` is reached. */
  lemma EmailBlocked(s: string, p: nat, k: nat)
    requires p <= k <= |s| && (k == |s| || !IsLocalChar(s[k]))
    requires forall j :: p <= j < |s| && j <= k ==> s[j] != '@'
    ensures EmailAt(s, p).None?
  {
    if Boundary(s, p) {
      var local := RunLength(s, p, IsLocalChar);
      assert p + local <= k;
    }
  }

  /** The first match at or after `from` is the one at the first position
      where the pattern matches. */
  lemma LeftmostMatch(t: PiiType, s: string, from: nat, p: nat, e: nat)
    requires from <= p <= |s| && MatchAt(t, s, p) == Some(e)
    requires forall q :: from <= q < p ==> MatchAt(t, s, q).None?
    ensures NextMatch(t, s, from) == Some(Span(p, e))
  {
    var m := NextMatch(t, s, from);
    assert m.Some?;
    assert m.value.start <= p;
    assert m.value.start == p;
  }

  /** `matchAll` yields nothing when the pattern matches nowhere from `from` on. */
  lemma NoMatchFrom(t: PiiType, s: string, from: nat)
    requires forall q :: from <= q <= |s| ==> MatchAt(t, s, q).None?
    ensures MatchAll(t, s, from) == []
  {
  }

  /** `matchAll` yields exactly one span when the pattern matches at `p`,
      nowhere before it, and nowhere from the end of that match on. */
  lemma OnlyMatch(t: PiiType, s: string, p: nat, e: nat)
    requires p <= |s| && MatchAt(t, s, p) == Some(e)
    requires forall q :: 0 <= q < p ==> MatchAt(t, s, q).None?
    requires forall q :: e <= q <= |s| ==> MatchAt(t, s, q).None?
    ensures MatchAll(t, s, 0) == [Span(p, e)]
  {
    LeftmostMatch(t, s, 0, p, e);
    NoMatchFrom(t, s, e);
  }

  /** Content without digits has no SSN, card or phone match. */
  lemma NoDigitNoDigitMatch(t: PiiType, s: string)
    requires t != Email
    requires forall j :: 0 <= j < |s| ==> !IsDigit(s[j])
    ensures MatchAll(t, s, 0) == []
  {
    forall q | 0 <= q <= |s|
      ensures MatchAt(t, s, q).None?
    {
      if MatchAt(t, s, q).Some? {
        DigitMatchStart(t, s, q);
      }
    }
    NoMatchFrom(t, s, 0);
  }

  /** Content without `@` has no email match. */
  lemma NoAtNoEmail(s: string)
    requires forall j :: 0 <= j < |s| ==> s[j] != '@'
    ensures MatchAll(Email, s, 0) == []
  {
    forall q | 0 <= q <= |s|
      ensures MatchAt(Email, s, q).None?
    {
      EmailBlocked(s, q, |s|);
    }
    NoMatchFrom(Email, s, 0);
  }

  /** The run of class `cls` at `i` is exactly `n` long when the next `n`
      characters are in the class and the one after them is not. */
  lemma RunLengthIs(s: string, i: nat, cls: char -> bool, n: nat)
    requires i + n <= |s|
    requires forall j :: i <= j < i + n ==> cls(s[j])
    requires i + n == |s| || !cls(s[i + n])
    ensures RunLength(s, i, cls) == n
  {
  }

  /** The domain part gives back characters without a result until a dot
      follows it: trying `k` characters first ends as trying `m` does when
      no dot follows any length between them. */
  lemma {:induction false} DomainEndNoDot(s: string, q: nat, k: nat, m: nat)
    requires m <= k && q + k <= |s|
    requires forall j :: q + m < j <= q + k && j < |s| ==> s[j] != '.'
    decreases k
    ensures DomainEnd(s, q, k) == DomainEnd(s, q, m)
  {
    if m < k {
      DomainEndNoDot(s, q, k - 1, m);
    }
  }

  /** An email match at `p` whose `@` is at `a`, whose domain part runs to
      the last dot, at `d`, and whose top-level domain runs from there to
      `t`, where the domain characters end. */
  lemma EmailMatch(s: string, p: nat, a: nat, d: nat, t: nat)
    requires p < a && a + 1 < d && d + 2 < t <= |s|
    requires Boundary(s, p) && Boundary(s, t)
    requires forall j :: p <= j < a ==> IsLocalChar(s[j])
    requires s[a] == '@' && s[d] == '.'
    requires forall j :: a < j < t ==> IsDomainChar(s[j])
    requires forall j :: d < j < t ==> IsTldChar(s[j]) && s[j] != '.'
    requires t == |s| || (!IsDomainChar(s[t]) && !IsTldChar(s[t]))
    ensures EmailAt(s, p) == Some(t)
  {
    RunLengthIs(s, p, IsLocalChar, a - p);
    DomainMatch(s, a + 1, d, t);
  }

  /** The domain part from `q`, its last dot at `d`, then the top-level domain. */
  lemma DomainMatch(s: string, q: nat, d: nat, t: nat)
    requires q < d && d + 2 < t <= |s| && Boundary(s, t)
    requires s[d] == '.'
    requires forall j :: q <= j < t ==> IsDomainChar(s[j])
    requires forall j :: d < j < t ==> IsTldChar(s[j]) && s[j] != '.'
    requires t == |s| || (!IsDomainChar(s[t]) && !IsTldChar(s[t]))
    ensures DomainEnd(s, q, RunLength(s, q, IsDomainChar)) == Some(t)
  {
    RunLengthIs(s, q, IsDomainChar, t - q);
    DomainEndNoDot(s, q, t - q, d - q);
    TldMatch(s, d, t);
  }

  /** The top-level domain after the dot at `d`, ending at a boundary at `t`. */
  lemma TldMatch(s: string, d: nat, t: nat)
    requires d + 2 < t <= |s| && Boundary(s, t)
    requires forall j :: d < j < t ==> IsTldChar(s[j])
    requires t == |s| || !IsTldChar(s[t])
    ensures TldEnd(s, d + 1, RunLength(s, d + 1, IsTldChar)) == Some(t)
  {
    RunLengthIs(s, d + 1, IsTldChar, t - d - 1);
  }

  /** Digit-group matches can only start at the digits that begin a word. */
  lemma DigitMatchesOnlyAt(t: PiiType, s: string, starts: set<nat>)
    requires t != Email
    requires forall q :: 0 <= q < |s| && IsDigit(s[q]) && Boundary(s, q) ==> q in starts
    ensures forall q :: 0 <= q <= |s| && q !in starts ==> MatchAt(t, s, q).None?
  {
    forall q | 0 <= q <= |s| && q !in starts
      ensures MatchAt(t, s, q).None?
    {
      if MatchAt(t, s, q).Some? {
        DigitMatchStart(t, s, q);
      }
    }
  }
}
