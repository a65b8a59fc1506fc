# secure-mcp-auth-demo security layer, in Dafny

This project models the security layer that sits in front of every tool call
of an MCP (Model Context Protocol) server. The layer is made of these parts:

- **Agent identity check** (`validateAgentAccess`): is the tool literally on
  the agent's allow-list?
- **ABAC policy engine** (`AbacPolicyEngine`): three built-in
  attribute-based policies. They cover agent and tool patterns, trust levels
  and a sliding-window rate limit, backed by a per-agent cache of request
  timestamps.
- **Prompt-injection validator** (`validateToolInput`): five fixed patterns
  tested against the serialized parameters.
- **Model Armor** (`ModelArmor`): four PII patterns (email, SSN, credit card,
  phone) extracted with `matchAll`, and two content-policy patterns. The
  detected PII is redacted after a stable in-place sort by descending start.
- **Content filter** (`ContentFilter`): a blocklist of phrases looked up in
  the lower-cased text.
- **Audit middleware** (`auditLog`, `hashParams`): the call is wrapped in a
  tracing span. The span carries four audit attributes, one status, the
  recorded exception and exactly one `end`. The parameter hash is the first
  16 base-64 symbols of the UTF-8 serialization.
- **SIEM reporting** (`sendToSiem`, `SiemManager` and its Chronicle, Splunk
  HEC and Elastic connectors): the payloads sent, their severity, and which
  back ends the environment enables.
- **Mediation pipeline** (`secureToolExecution`): access check, injection
  check and input scan, in that order. The tool runs under `auditLog` only
  when all three pass, and its output is scanned. A rejection by the access
  or injection check sends nothing. When the parameters serialize, every
  later outcome is reported to the SIEM exactly once. When their
  serialization is `undefined`, `scanInput` throws before any report and
  nothing is sent.

One module per source file:

| module | file |
|---|---|
| `Wrappers` | `wrappers.dfy` |
| `Text` | `text.dfy` |
| `AgentIdentity` | `agent_identity.dfy` |
| `AbacPolicy` | `abac_policy.dfy` |
| `PiiPatterns` | `pii_patterns.dfy` |
| `ModelArmor` | `model_armor.dfy` |
| `ContentFilter` | `content_filter.dfy` |
| `InputValidator` | `input_validator.dfy` |
| `Utf8` | `utf8.dfy` |
| `Base64` | `base64.dfy` |
| `AuditMiddleware` | `audit_middleware.dfy` |
| `SiemIntegration` | `siem_integration.dfy` |
| `SiemConnectors` | `siem_connectors.dfy` |
| `SecureExecution` | `secure_execution.dfy` |
| `ModelArmorExamples` | `model_armor_examples.dfy` (the scenarios of the Model Armor unit tests) |

How each kind of source code is represented:

- **Stateful objects become classes.** These are the policy engine with its
  rate-limit cache, the SIEM manager, the audit span, and the layer that
  holds the shared `armor` instance and the log of what the pipeline did.
  Their methods are proved against specification functions (`Evaluate`,
  `ScanSpec`, `AuditSteps`, `PipelineLog`), and the lemmas are about those
  functions.
- **Pure checks are functions.**
- **Regular expressions are written out as scanners over characters.** Each
  scanner follows the ECMAScript semantics of that particular pattern:
  - `\b`, `\d`, `\w` and `\s`;
  - greedy quantifiers, with the backtracking that can change a match;
  - `g`-flag iteration;
  - ASCII case folding for the `i` flag.

Code and tests disagree in three places, and the model follows the code:

- The integration test (`tests/integration/security-flow.test.ts:6-22`)
  expects `allowedTools: ['*']` to admit any tool. `validateAgentAccess` does
  a literal `includes`, so `'*'` admits only a tool named `*`
  (`AgentIdentity.StarIsNotWildcard`).
- The same test (lines 25-36) expects an "Access denied" error. The code
  throws "Agent ... not authorized for tool ...".
- The same test (lines 39-56) expects the call of `test-tool` with
  `{ query: 'ignore previous instructions' }` to fail with "injection
  detected". Its agent `admin-agent` again has only `'*'` on its allow-list,
  so the access check refuses it first with "Agent admin-agent not
  authorized for tool test-tool" and the injection check never runs
  (`SecureExecution.StarAgentRefused`). The parameters alone would be
  refused by the injection check (`InputValidator.InjectedQueryRefused`).

Two more readings of the code:

- `secureToolExecution` line 24 reads `ait armor.scanInput(...)`. The model
  reads it as `await`.
- A tool that returns `undefined` makes `JSON.stringify` return `undefined`.
  `scanOutput` then throws a `TypeError` inside the callback, so the call is
  reported as an error and rethrown. The model follows this path, and the
  matching path for `undefined` parameters.

## Model

| member | source | states |
|---|---|---|
| AgentIdentity.ValidateAgentAccess | security-layer/mtls/agent-identity.ts:7-14 | passes iff the tool name is literally one of the allowed tools; otherwise fails with "Agent <id> not authorized for tool <tool>" |
| AgentIdentity.StarIsNotWildcard | security-layer/mtls/agent-identity.ts:11 | an allow-list of just `'*'` refuses every tool not literally named `*` |
| AgentIdentity.TrustLevelIrrelevant | security-layer/mtls/agent-identity.ts:11-12 | the decision and its message are the same for every trust level |
| AbacPolicy.MatchingPolicies | security-layer/mtls/abac-policy.ts:74-76 | the filtered list holds exactly the stored policies that match both agent and tool, and is no longer than the stored list |
| AbacPolicy.FirstEligible | security-layer/mtls/abac-policy.ts:86-92 | the loop stops at the first matched policy whose trust condition admits the caller; every policy before it is excluded, and with no stop all of them are |
| AbacPolicy.TrustExcluded | security-layer/mtls/abac-policy.ts:87-91 | a policy is skipped exactly when it declares a trust-level list that does not include the caller's level; a declared empty list therefore excludes every level, and a policy without conditions or without a list excludes none |
| AbacPolicy.MatchesAgent | security-layer/mtls/abac-policy.ts:116-118 | a policy names the agent when its agent list holds `*` or the agent's id |
| AbacPolicy.PatternMatches | security-layer/mtls/abac-policy.ts:120-128 | one tool pattern: `*` matches everything, a trailing `*` makes a prefix test, anything else an exact, case-sensitive comparison; its meaning is stated by `ToolPatternSemantics` |
| AbacPolicy.MatchesTool | security-layer/mtls/abac-policy.ts:120-128 | a policy covers the tool when some of its patterns matches it |
| AbacPolicy.RecentTimestamps | security-layer/mtls/abac-policy.ts:139-141 | keeps exactly the timestamps younger than the window, each as often as it occurs, in their stored order, and no more of them than were stored |
| AbacPolicy.CountInWindow | security-layer/mtls/abac-policy.ts:139-143 | the number of stored timestamps younger than the window; `RecentCount` ties it to the filtered list |
| AbacPolicy.RecentAppend | security-layer/mtls/abac-policy.ts:139-141 | filtering a concatenation of timestamp lists filters each list, in order |
| AbacPolicy.RecentCount | security-layer/mtls/abac-policy.ts:139-143 | the filtered list is exactly as long as the number of timestamps inside the window |
| AbacPolicy.Record | security-layer/mtls/abac-policy.ts:150-155 | the cache after `recordRequest`: `now` appended to this agent's list, every other list as it was (`RecordAppendsOne`) |
| AbacPolicy.Evaluate | security-layer/mtls/abac-policy.ts:67-114 | the decision procedure of `evaluateAccess` on the cache before the call: no match, conditions not met, rate limit exceeded, or allowed with one timestamp recorded; its cases are stated by `NoMatchingPolicyIff`, `ConditionsNotMetIff`, `RateLimitDeniedIff` and `AllowedIff` |
| AbacPolicy.AbacPolicyEngine.constructor | security-layer/mtls/abac-policy.ts:17-23 | a new engine holds the three built-in policies and an empty rate-limit cache |
| AbacPolicy.AbacPolicyEngine.LoadDefaultPolicies | security-layer/mtls/abac-policy.ts:25-60 | the stored policies become admin-full, read-only and default, in that order |
| AbacPolicy.AbacPolicyEngine.CheckRateLimit | security-layer/mtls/abac-policy.ts:130-148 | under the limit iff the number of the agent's stored timestamps inside the window, counted one by one, is below `requests`; this is the limit test `Evaluate` applies |
| AbacPolicy.AbacPolicyEngine.RecordRequest | security-layer/mtls/abac-policy.ts:150-155 | the cache gains `now` at the end of this agent's list |
| AbacPolicy.AbacPolicyEngine.EvaluateAccess | security-layer/mtls/abac-policy.ts:67-114 | the decision and the new cache are those of the decision procedure `Evaluate` on the old cache |
| AbacPolicy.AbacPolicyEngine.GetPolicies | security-layer/mtls/abac-policy.ts:157-159 | returns the stored policies |
| AbacPolicy.FirstApplicableShift | security-layer/mtls/abac-policy.ts:86-92 | skipping a non-applicable head moves the first applicable index by one |
| AbacPolicy.MatchingUnfold | security-layer/mtls/abac-policy.ts:74-76 | the filter keeps the head policy iff it matches |
| AbacPolicy.FirstEligibleSkip | security-layer/mtls/abac-policy.ts:88-91 | a trust-excluded policy makes the loop continue with the next one |
| AbacPolicy.FirstEligibleIsFirstApplicable | security-layer/mtls/abac-policy.ts:74-92 | looping over the filtered list stops exactly where the first applicable policy of the stored list is, and finds none iff there is none |
| AbacPolicy.FirstApplicableUnique | security-layer/mtls/abac-policy.ts:86-108 | the first applicable policy is unique |
| AbacPolicy.ToolPatternSemantics | security-layer/mtls/abac-policy.ts:120-128 | `*` matches every tool, `p*` matches exactly the names starting with `p`, any other pattern matches only itself |
| AbacPolicy.SelectedPolicyMatches | security-layer/mtls/abac-policy.ts:95-107 | a reported policy is stored, matches agent and tool, and admits the trust level |
| AbacPolicy.NoMatchingPolicyIff | security-layer/mtls/abac-policy.ts:78-83 | "No matching policy found" exactly when no stored policy matches; the cache is then unchanged and no policy is reported |
| AbacPolicy.ConditionsNotMetIff | security-layer/mtls/abac-policy.ts:110-113 | "Policy conditions not met" exactly when some policy matches but every match excludes the trust level; nothing is recorded |
| AbacPolicy.AllowedIff | security-layer/mtls/abac-policy.ts:95-107 | allowed exactly when the first applicable policy has no rate limit or is under it; that policy is reported and exactly one timestamp is recorded |
| AbacPolicy.RateLimitDeniedIff | security-layer/mtls/abac-policy.ts:95-103 | "Rate limit exceeded" exactly when the first applicable policy's window already holds `requests` timestamps; later policies are not tried and nothing is recorded |
| AbacPolicy.RecordAppendsOne | security-layer/mtls/abac-policy.ts:150-155 | recording appends one timestamp to this agent and leaves every other agent's list as it was |
| AbacPolicy.CacheOnlyGrows | security-layer/mtls/abac-policy.ts:136-155 | stale timestamps are never pruned from the cache; a denial changes nothing, an allow adds one timestamp |
| AbacPolicy.RecentKeepsAll | security-layer/mtls/abac-policy.ts:139-141 | when every timestamp is inside the window none is filtered out |
| AbacPolicy.AdminFullAccess | tests/unit/abac-policy.test.ts:11-14 | `admin-agent` at high trust is allowed any tool by the admin policy, and one timestamp is recorded |
| AbacPolicy.NotStartsWith | security-layer/mtls/abac-policy.ts:124 | a name differing from a prefix inside the prefix does not start with it |
| AbacPolicy.DefaultPatterns | security-layer/mtls/abac-policy.ts:41-51 | the built-in patterns `get*`, `list*` and `describe*` are prefix tests |
| AbacPolicy.AdminLowTrustRefused | tests/unit/abac-policy.test.ts:26-30 | `admin-agent` at low trust on `sensitive-tool` gets "Policy conditions not met" and nothing is recorded |
| AbacPolicy.ReadOnlyMayList | tests/unit/abac-policy.test.ts:16-19 | `readonly-agent` at medium trust, under its 100-per-minute limit, may call `listTools` |
| AbacPolicy.ReadOnlyMayNotDelete | tests/unit/abac-policy.test.ts:21-24 | `readonly-agent` has no policy for `deleteData`: "No matching policy found", nothing recorded |
| AbacPolicy.DefaultAgentGetTool | security-layer/mtls/abac-policy.ts:47-56 | any other agent at medium trust on `getTool` is governed by the default policy alone and its 50-per-minute limit |
| AbacPolicy.DefaultRateLimitScenario | tests/unit/abac-policy.test.ts:32-43 | on a fresh engine, 50 calls of `test-agent` within one minute are allowed and the 51st is refused with "Rate limit exceeded" |
| PiiPatterns.RunLength | security-layer/model-armor/index.ts:22-25 | the greedy run of a character class: all its characters are in the class and the next one is not |
| PiiPatterns.TldEnd | security-layer/model-armor/index.ts:22 | the top-level domain ends at least two characters on, at a word boundary |
| PiiPatterns.DomainEnd | security-layer/model-armor/index.ts:22 | the domain part with its backtracking ends inside the content, past its start |
| PiiPatterns.EmailAt | security-layer/model-armor/index.ts:22 | an email match at a position is non-empty and inside the content |
| PiiPatterns.GroupsEnd | security-layer/model-armor/index.ts:23-25 | a digit-group match starts with a full group of digits and ends inside the content |
| PiiPatterns.DigitPatternAt | security-layer/model-armor/index.ts:23-25 | an SSN, card or phone match is non-empty and starts with a digit |
| PiiPatterns.MatchAt | security-layer/model-armor/index.ts:21-26 | a match of any PII pattern is a non-empty range of the content |
| PiiPatterns.NextMatch | security-layer/model-armor/index.ts:34 | the leftmost match at or after the search position: nothing matches before it, and none means no match at all |
| PiiPatterns.MatchAll | security-layer/model-armor/index.ts:34-35 | `matchAll` yields non-empty ranges in increasing, non-overlapping order |
| PiiPatterns.MatchAllYieldsMatches | security-layer/model-armor/index.ts:34-41 | every range `matchAll` yields is the match of the pattern found first at its start |
| PiiPatterns.MatchAllCovers | security-layer/model-armor/index.ts:34-35 | `matchAll` skips nothing: every position at or after the search start where the pattern matches lies in some yielded range, at its start or inside it |
| PiiPatterns.MatchHasDigitOrAt | security-layer/model-armor/index.ts:22-25 | every PII match contains a digit or an `@` |
| PiiPatterns.NoDigitNoAtNoMatch | security-layer/model-armor/index.ts:22-25 | content with no digit and no `@` has no PII match |
| PiiPatterns.FoldedLetters | security-layer/model-armor/index.ts:47-48 | under the `i` flag a found word has, at each place, a character folding to the word's character |
| PiiPatterns.AbsentLetter | security-layer/model-armor/index.ts:47-48 | a word needing a letter the content lacks in both cases occurs nowhere |
| PiiPatterns.NoActionWordWithoutKeyLetters | security-layer/model-armor/index.ts:47 | without `c`, `l` and `x` in any case the hack/exploit/breach/steal pattern does not match |
| PiiPatterns.NoSecrecyWordWithoutKeyLetters | security-layer/model-armor/index.ts:48 | without `c`, `l` and `x` in any case the confidential/secret/classified pattern does not match |
| PiiPatterns.ActionWordTest | security-layer/model-armor/index.ts:47 | the first content-policy test: one of hack, exploit, breach, steal in any case, with a word boundary on both sides |
| PiiPatterns.SpaceThenWord | security-layer/model-armor/index.ts:48 | `\s+\w+` at a position: at least one white-space character, then a word character |
| PiiPatterns.SecrecyWordTest | security-layer/model-armor/index.ts:48 | the second content-policy test: confidential, secret or classified in any case after a word boundary, then white space and a word character |
| PiiPatterns.ToxicTest | security-layer/model-armor/index.ts:47-48 | `toxicPatterns[i].test(content)` for the two content-policy patterns, in their source order: the action words first, then the secrecy words |
| PiiPatterns.DigitMatchStart | security-layer/model-armor/index.ts:23-25 | an SSN, card or phone match starts at a digit that follows a word boundary |
| PiiPatterns.EmailBlocked | security-layer/model-armor/index.ts:22 | no email match starts where the local part runs into a non-local character before any `@` |
| PiiPatterns.LeftmostMatch | security-layer/model-armor/index.ts:34 | when nothing matches between the search position and a match, that match is the one `matchAll` finds next |
| PiiPatterns.NoMatchFrom | security-layer/model-armor/index.ts:34 | with no match at or after a position, `matchAll` yields nothing more |
| PiiPatterns.OnlyMatch | security-layer/model-armor/index.ts:34-35 | a match with no other match starting before it or from its end on is all `matchAll` yields |
| PiiPatterns.NoDigitNoDigitMatch | security-layer/model-armor/index.ts:23-25 | content without digits has no SSN, card or phone match |
| PiiPatterns.NoAtNoEmail | security-layer/model-armor/index.ts:22 | content without `@` has no email match |
| PiiPatterns.RunLengthIs | security-layer/model-armor/index.ts:22-25 | a greedy run is exactly as long as the class characters that follow a position |
| PiiPatterns.DomainEndNoDot | security-layer/model-armor/index.ts:22 | backtracking the domain part from a longer run gives the same result as from a shorter one when no `.` lies between their ends |
| PiiPatterns.EmailMatch | security-layer/model-armor/index.ts:22 | local part, `@`, domain, `.` and a top-level domain of at least two letters between word boundaries make an email match ending after the top-level domain |
| PiiPatterns.DomainMatch | security-layer/model-armor/index.ts:22 | the domain part with its last `.` and top-level domain ends where the top-level domain ends |
| PiiPatterns.TldMatch | security-layer/model-armor/index.ts:22 | a top-level domain of at least two letters ends at the first character that is not one |
| PiiPatterns.DigitMatchesOnlyAt | security-layer/model-armor/index.ts:23-25 | an SSN, card or phone match can start only at a digit after a word boundary |
| ModelArmor.ToEntity | security-layer/model-armor/index.ts:36-41 | the pushed entity carries the category, `start` and `end` of the match (`match.index` and `match.index + match[0].length`), and the matched text as value |
| ModelArmor.EntitiesOf | security-layer/model-armor/index.ts:33-42 | the `matchAll` loop of one category pushes one entity per yielded match, in the same order, each of that category, with the match's start, end and text |
| ModelArmor.Redact | security-layer/model-armor/index.ts:75-79 | one step of `sanitize`: the text before the entity, its placeholder, the text after it, with the clamping of `slice`; its effect is stated by `RedactionsCompose` |
| ModelArmor.ApplyRedactions | security-layer/model-armor/index.ts:72-80 | the `forEach` of `sanitize`: the redactions applied one after another in the sorted order |
| ModelArmor.ScanSpec | security-layer/model-armor/index.ts:28-63 | the result of `scanInput`: safe iff no violation, the violations, the entities sorted by descending start, the sanitized text; its properties are stated by `ScanResultProperties` |
| ModelArmor.ModelArmor.ScanInput | security-layer/model-armor/index.ts:28-63 | the result is the scan `ScanSpec`: violations by pattern, the entities sorted, the content redacted |
| ModelArmor.ModelArmor.CollectEntities | security-layer/model-armor/index.ts:33-43 | all matches of all four patterns, category by category, in `matchAll` order |
| ModelArmor.ModelArmor.PushEntities | security-layer/model-armor/index.ts:35-42 | one entity per match of the pattern is appended, in `matchAll` order, after those already collected |
| ModelArmor.Violations | security-layer/model-armor/index.ts:46-55 | the `violations` list: "Policy violation: <source>" for each content-policy pattern that tests true, in the patterns' order (pinned by `ViolationsByPattern`) |
| ModelArmor.ModelArmor.CollectViolations | security-layer/model-armor/index.ts:46-55 | one "Policy violation: <source>" per matching content-policy pattern, in pattern order |
| ModelArmor.ModelArmor.ScanOutput | security-layer/model-armor/index.ts:65-67 | the output scan is exactly the input scan |
| ModelArmor.ModelArmor.Sanitize | security-layer/model-armor/index.ts:69-82 | the entity array is left sorted in place, and the text is redacted in that order |
| ModelArmor.ScanResultProperties | security-layer/model-armor/index.ts:57-62 | `safe` iff there is no violation; the entities are a permutation of those detected, each a real match with its text, in non-increasing start order |
| ModelArmor.SortByStartDescending | security-layer/model-armor/index.ts:72-73 | the in-place sort leaves the array equal to the stable descending sort of its old contents |
| ModelArmor.SortDesc | security-layer/model-armor/index.ts:72-73 | the stable sort by descending `start` that `Array.prototype.sort` performs with `(a, b) => b.start - a.start`: repeated insertion behind every entity with a start at least as large; `SortDescSorted` and `SortDescPermutes` prove it descending and a permutation |
| ModelArmor.InsertLast | security-layer/model-armor/index.ts:72-73 | one pass moves the last entity behind the entities whose start is at least its own, and touches nothing beyond |
| ModelArmor.ShiftedInsert | security-layer/model-armor/index.ts:72-73 | after the shift the prefix is the old prefix with the key placed at the gap |
| ModelArmor.InsertDescAt | security-layer/model-armor/index.ts:72-73 | the inserted entity goes behind exactly the entities whose start is at least its own |
| ModelArmor.InsertDescPermutes | security-layer/model-armor/index.ts:72-73 | one insertion adds exactly that entity |
| ModelArmor.SortDescPermutes | security-layer/model-armor/index.ts:72-73 | the sort keeps every entity as often as it occurs |
| ModelArmor.InsertDescSorted | security-layer/model-armor/index.ts:72-73 | inserting into a descending list keeps it descending |
| ModelArmor.SortDescSorted | security-layer/model-armor/index.ts:72-73 | the sorted list is in non-increasing start order and as long as the input |
| ModelArmor.DetectedWellFormed | security-layer/model-armor/index.ts:33-43 | every detected entity is a match of its category found first at its start, whose value is the matched text |
| ModelArmor.DetectedForWellFormed | security-layer/model-armor/index.ts:33-43 | the same, for the first n categories |
| ModelArmor.ViolationsByPattern | security-layer/model-armor/index.ts:46-58 | at most two violations, one per matching pattern in order; `safe` iff neither pattern matches, whatever PII there is |
| ModelArmor.SeparatedExtend | security-layer/model-armor/index.ts:75-79 | text appended after the content keeps non-overlapping entities non-overlapping |
| ModelArmor.RedactionsKeepSuffix | security-layer/model-armor/index.ts:75-79 | redacting entities inside a prefix leaves the rest of the text untouched |
| ModelArmor.RedactionsCompose | security-layer/model-armor/index.ts:69-82 | for non-overlapping entities in descending order, each range becomes its placeholder and all other text is kept |
| ModelArmor.ScanSanitizes | security-layer/model-armor/index.ts:61 | the sanitized content of a scan whose entities do not overlap is that composition |
| ModelArmor.CleanContent | security-layer/model-armor/index.ts:28-63 | content without digits, `@` and the letters c, l, x is safe, has no PII and comes back unchanged |
| ModelArmor.NothingDetected | security-layer/model-armor/index.ts:33-43 | with no match in any category nothing is detected |
| ModelArmor.DetectedByCategory | security-layer/model-armor/index.ts:33-43 | the detected entities are the emails, then the SSNs, the cards and the phones |
| ModelArmor.EntitiesOfOnly | security-layer/model-armor/index.ts:34-41 | a pattern with a single match yields a single entity with that range and its text |
| ModelArmor.WeatherQuestionIsClean | tests/unit/model-armor.test.ts:38-42 | "What is the weather today?" is safe, has no PII and is unchanged |
| ModelArmorExamples.EmailDetected | tests/unit/model-armor.test.ts:7-11 | "Contact me at test@example.com" yields exactly one entity: the email `test@example.com` at 14-30 |
| ModelArmorExamples.SsnDetected | tests/unit/model-armor.test.ts:13-17 | "My SSN is 123-45-6789" yields exactly one entity: the SSN at 10-21; the phone pattern does not match across the dashes |
| ModelArmorExamples.CardDetected | tests/unit/model-armor.test.ts:19-23 | "Card: 4532-1234-5678-9010" yields exactly one entity: the card number at 6-25 |
| ModelArmorExamples.MixedLineDetected | tests/unit/model-armor.test.ts:25-26 | "Email: test@example.com, SSN: 123-45-6789" has exactly two matches, the email at 7-23 and the SSN at 30-41 |
| ModelArmorExamples.MixedLineRedactions | tests/unit/model-armor.test.ts:25-30 | redacting the SSN and then the email gives "Email: [REDACTED_EMAIL], SSN: [REDACTED_SSN]" |
| ModelArmorExamples.MixedLineSanitized | tests/unit/model-armor.test.ts:25-30 | the scan lists the SSN before the email and the sanitized text is "Email: [REDACTED_EMAIL], SSN: [REDACTED_SSN]", so the address is gone |
| ModelArmorExamples.HackFlagged | tests/unit/model-armor.test.ts:32-36 | "How to hack into a system" violates exactly the first content policy and is not safe |
| ContentFilter.FirstHit | security-layer/model-armor/content-filter.ts:19-27 | the first blocklist entry found in the lower-cased text, with none before it; none when no entry occurs |
| ContentFilter.FilterInput | security-layer/model-armor/content-filter.ts:15-30 | denied as malicious iff some entry occurs in the lower-cased text, the reason naming the first one; otherwise allowed as safe |
| ContentFilter.UpperCaseSameVerdict | security-layer/model-armor/content-filter.ts:16 | ASCII upper-casing of the text does not change the verdict |
| ContentFilter.EntryBlocks | security-layer/model-armor/content-filter.ts:19-25 | any text whose lower case contains an entry is denied |
| ContentFilter.JailbreakScenario | security-layer/model-armor/content-filter.ts:15-26 | "Please JAILBREAK now" is denied with "Blocked pattern detected: jailbreak" |
| ContentFilter.LowerOfScenario | security-layer/model-armor/content-filter.ts:16 | lower-casing that text gives "please jailbreak now" |
| ContentFilter.JailbreakFound | security-layer/model-armor/content-filter.ts:19-21 | in that text the third entry is the first one found |
| InputValidator.FirstMatch | security-layer/threat-protection/input-validator.ts:13-17 | the first matching pattern from a position on; none means none of the rest matches |
| InputValidator.TemplateAt | security-layer/threat-protection/input-validator.ts:10 | `${`, then characters other than line terminators, then `}`, starting at a position |
| InputValidator.TemplateTest | security-layer/threat-protection/input-validator.ts:10 | `/\$\{.*\}/.test(s)`: a `${...}` on one line starts at some position of the text |
| InputValidator.PatternTest | security-layer/threat-protection/input-validator.ts:5-10 | the five injection tests: four phrases in any case, then the template pattern, case-sensitive |
| InputValidator.ValidateToolInput | security-layer/threat-protection/input-validator.ts:1-18 | throws iff some pattern matches, always with "Security violation on tool <tool>: injection detected" |
| InputValidator.PhraseFound | security-layer/threat-protection/input-validator.ts:6-9 | any of the four phrases, in any case, causes a throw |
| InputValidator.TemplateFound | security-layer/threat-protection/input-validator.ts:10 | `${...}` on one line causes a throw whatever surrounds it |
| InputValidator.ToolNameIrrelevant | security-layer/threat-protection/input-validator.ts:14-15 | the tool name decides only the message, not whether it throws |
| InputValidator.PhraseAnywhere | security-layer/threat-protection/input-validator.ts:6-9 | a phrase anywhere in the text throws the injection error |
| InputValidator.InjectedQueryRefused | tests/integration/security-flow.test.ts:39-56 | the serialized `{ query: 'ignore previous instructions' }` is refused |
| Utf8.EncodeChar | security-layer/audit-logging/middleware.ts:37 | one character is one to four bytes, one byte exactly for ASCII, the rest continuation bytes |
| Utf8.Encode | security-layer/audit-logging/middleware.ts:37 | the UTF-8 encoding `Buffer.from` makes of the serialized parameters: at least one and at most four bytes per character; `DecodeEncode` proves it invertible |
| Utf8.DecodeEncode | security-layer/audit-logging/middleware.ts:37 | decoding the UTF-8 bytes `Buffer.from` produces gives the string back |
| Utf8.EncodeAppend | security-layer/audit-logging/middleware.ts:37 | the encoding of a concatenation is the concatenation of encodings |
| Utf8.AsciiIdentity | security-layer/audit-logging/middleware.ts:37 | ASCII text encodes to its own code points |
| Base64.Encode | security-layer/audit-logging/middleware.ts:37 | the encoding has four symbols for every started group of three bytes |
| Base64.DecodeEncode | security-layer/audit-logging/middleware.ts:37 | decoding the base-64 text gives the bytes back |
| Base64.EncodeAppend | security-layer/audit-logging/middleware.ts:37 | after a whole number of 3-byte groups, encoding splits at the group boundary |
| AuditMiddleware.HashParams | security-layer/audit-logging/middleware.ts:36-38 | throws iff the serialization is `undefined`; otherwise at most 16 symbols, a prefix of the base-64 of the UTF-8 bytes |
| AuditMiddleware.EncodingHead | security-layer/audit-logging/middleware.ts:37 | the first 16 base-64 symbols are the encoding of the first 12 bytes |
| AuditMiddleware.HashSeesTwelveBytes | security-layer/audit-logging/middleware.ts:37 | the hash of a longer serialization is the encoding of its first 12 bytes |
| AuditMiddleware.HashCollision | security-layer/audit-logging/middleware.ts:37 | serializations agreeing on their first 12 bytes get the same hash |
| AuditMiddleware.ShortParamsRecoverable | security-layer/audit-logging/middleware.ts:37 | a serialization of at most 12 bytes can be read back from its hash |
| AuditMiddleware.Span.constructor | security-layer/audit-logging/middleware.ts:11 | a new span has its name and no steps |
| AuditMiddleware.Span.SetAttributes | security-layer/audit-logging/middleware.ts:14-19 | records the attributes as the next step |
| AuditMiddleware.Span.SetStatus | security-layer/audit-logging/middleware.ts:23-27 | records the status as the next step |
| AuditMiddleware.Span.RecordException | security-layer/audit-logging/middleware.ts:28 | records the exception as the next step |
| AuditMiddleware.Span.End | security-layer/audit-logging/middleware.ts:31 | records the end as the next step |
| AuditMiddleware.Span.MarkRun | security-layer/audit-logging/middleware.ts:21 | records the call of `executeFn` as the next step |
| AuditMiddleware.OpenAudit | security-layer/audit-logging/middleware.ts:11-19 | a fresh span named `mcp.tool.<tool>` with the four attributes set, or closed with the error when the hash throws |
| AuditMiddleware.CloseAudit | security-layer/audit-logging/middleware.ts:23-32 | OK, or ERROR with the exception, then end |
| AuditMiddleware.AuditLog | security-layer/audit-logging/middleware.ts:5-34 | the span steps and the result are `AuditSteps` and `AuditResult`: the tool's result or its rethrown error |
| AuditMiddleware.AuditSteps | security-layer/audit-logging/middleware.ts:11-33 | the calls made on the span: closed at once with the error when the hash throws; otherwise the four attributes, the tool call, then OK or ERROR with the exception, then `end` |
| AuditMiddleware.EndsOnce | security-layer/audit-logging/middleware.ts:30-32 | `end` is called exactly once, as the last step, on every path |
| AuditMiddleware.AttributesBeforeRun | security-layer/audit-logging/middleware.ts:14-21 | the tool runs only as the second step, after the four audit attributes with the hash are set, and never when the hash throws |
| AuditMiddleware.StatusMatchesOutcome | security-layer/audit-logging/middleware.ts:21-29 | status OK iff the tool returned, ERROR iff the call fails, every error recorded and rethrown unchanged |
| SiemIntegration.SendToSiem | security-layer/audit-logging/siem-integration.ts:1-16 | the payload carries the event unchanged, source `mcp-security-layer`, severity HIGH iff blocked and INFO otherwise |
| SiemIntegration.SendToSiemInjective | security-layer/audit-logging/siem-integration.ts:9-13 | different events give different payloads |
| SiemIntegration.SeverityByStatus | tests/unit/siem-integration.test.ts:19-33 | blocked is HIGH; success and error are INFO |
| SiemConnectors.Resolve | security-layer/audit-logging/siem-connectors.ts:22 | a non-empty argument wins, then a non-empty environment value, else the empty string |
| SiemConnectors.NewChronicle | security-layer/audit-logging/siem-connectors.ts:21-23 | builds a Chronicle connector whose endpoint is the argument if non-empty, else `CHRONICLE_ENDPOINT` if set, else empty |
| SiemConnectors.NewSplunk | security-layer/audit-logging/siem-connectors.ts:50-53 | builds a Splunk connector whose endpoint and token are each the argument if non-empty, else `SPLUNK_HEC_ENDPOINT` / `SPLUNK_HEC_TOKEN` if set, else empty |
| SiemConnectors.NewElastic | security-layer/audit-logging/siem-connectors.ts:83-85 | builds an Elastic connector whose endpoint is the argument if non-empty, else `ELASTIC_ENDPOINT` if set, else empty |
| SiemConnectors.Deliver | security-layer/audit-logging/siem-connectors.ts:25-100 | disabled iff the endpoint (and, for Splunk, the token) is empty; otherwise that back end's payload with the fields its `send` sets |
| SiemConnectors.ConfiguredConnectors | security-layer/audit-logging/siem-connectors.ts:107-120 | at most three connectors |
| SiemConnectors.SiemManager.constructor | security-layer/audit-logging/siem-connectors.ts:107-120 | the manager holds the connectors the environment selects |
| SiemConnectors.SiemManager.Send | security-layer/audit-logging/siem-connectors.ts:122-124 | every connector's send, once each, with the same event, in connector order |
| SiemConnectors.ConnectorSelection | security-layer/audit-logging/siem-connectors.ts:109-117 | each back end is present iff its endpoint variable is set, in the order Chronicle, Splunk, Elastic |
| SiemConnectors.SelectedConnectorsEnabled | security-layer/audit-logging/siem-connectors.ts:109-117 | selected Chronicle and Elastic are enabled; a selected Splunk is enabled iff its token variable is set |
| SiemConnectors.EmptyEnvironment | security-layer/audit-logging/siem-connectors.ts:107-120 | with no endpoint variable set there are no connectors |
| SiemConnectors.ConfiguredFromEnv | security-layer/audit-logging/siem-connectors.ts:107-120 | the connectors the manager builds read their endpoint, and Splunk its token, from the environment variables, a missing token being empty |
| SiemConnectors.ArgumentOverridesEnv | security-layer/audit-logging/siem-connectors.ts:21-23 | a non-empty endpoint argument is used and enables the connector whatever the environment says |
| SecureExecution.SecurityLayer.SecureToolExecution | security-layer/audit-logging/index.ts:9-72 | the log gains `PipelineLog`, the result is `PipelineResult`, and an audit span exists iff the call is admitted, with the steps of `auditLog` |
| SecureExecution.SecurityLayer.Screen | security-layer/audit-logging/index.ts:23-42 | the input scan: an unsafe input is reported and rejected, a safe one runs under `auditLog` |
| SecureExecution.SecurityLayer.AuditedCall | security-layer/audit-logging/index.ts:42-71 | `auditLog` around the callback: span steps, result, and the callback's log when the hash succeeds |
| SecureExecution.SecurityLayer.RunCallback | security-layer/audit-logging/index.ts:43-70 | runs the tool, scans the output, reports success or the error, and rethrows |
| SecureExecution.Sends | security-layer/audit-logging/index.ts:27-33 | the SIEM payloads of a log, no more than its steps |
| SecureExecution.Stages | security-layer/audit-logging/index.ts:17-48 | the stages of a log, no more than its steps |
| SecureExecution.PipelineLog | security-layer/audit-logging/index.ts:9-72 | what the pipeline does, step by step: the access check, the injection check if it passes, then the input scan with its report, or the tool call, the output scan and the report; the lemmas below state its properties |
| SecureExecution.PipelineResult | security-layer/audit-logging/index.ts:9-72 | what the pipeline returns or throws: the access error, the injection error, the `matchAll` type error for `undefined` parameters, the first policy violation, or what the audited call returns or throws |
| SecureExecution.SendsAppend | security-layer/audit-logging/index.ts:27-68 | the payloads of two logs in sequence are the payloads of each, in order |
| SecureExecution.StagesAppend | security-layer/audit-logging/index.ts:17-48 | the stages of two logs in sequence are the stages of each, in order |
| SecureExecution.CallbackSendsOnce | security-layer/audit-logging/index.ts:43-70 | the callback runs the tool first and sends exactly one payload, reporting its result |
| SecureExecution.ScreenSends | security-layer/audit-logging/index.ts:24-42 | the payloads and stages from the input scan on |
| SecureExecution.ChecksPrefix | security-layer/audit-logging/index.ts:17-20 | after a passed access check come the injection check and, if it passes, the input scan |
| SecureExecution.PipelineSends | security-layer/audit-logging/index.ts:17-71 | a rejection by either check sends nothing; otherwise the payloads are those of the input scan on |
| SecureExecution.PipelineStages | security-layer/audit-logging/index.ts:17-48 | the stages run, check by check |
| SecureExecution.StagesInOrder | security-layer/audit-logging/index.ts:17-48 | the stages always run in the fixed order, each at most once, stopping after some prefix |
| SecureExecution.ScreenStagesInOrder | security-layer/audit-logging/index.ts:24-48 | from the input scan on, the stages continue the fixed order: scan, then tool and output scan when admitted |
| SecureExecution.ExecutesIffAdmitted | security-layer/audit-logging/index.ts:17-44 | the tool runs iff access and injection checks pass and the input has no violation; PII never stops it |
| SecureExecution.OneEventPerOutcome | security-layer/audit-logging/index.ts:26-70 | a rejection by the first two checks sends nothing; every later outcome sends exactly one payload for this tool and agent |
| SecureExecution.BlockedInput | security-layer/audit-logging/index.ts:26-35 | an unsafe input is reported blocked with all violations, rejected with the first, and the tool never runs |
| SecureExecution.AdmittedOutcome | security-layer/audit-logging/index.ts:42-71 | an admitted call returns the tool's result and reports success, or reports the tool's error and rethrows it unchanged |
| SecureExecution.StarAgentRefused | tests/integration/security-flow.test.ts:39-56 | an agent whose allow-list is just `'*'` is refused any other tool by the access check, with "Agent <id> not authorized for tool <tool>"; the injection check never runs and nothing is sent |

## Left out

- `JSON.stringify` is not modelled. Each serialization it produces is a
  parameter, `None` standing for `undefined`. A connector's `log_text` is
  given by a `stringify` function parameter.
- `Date.now()` and `new Date().toISOString()` are parameters. One timestamp
  stands for every record of one call, although the source reads the clock
  at each record.
- Splunk's `time` field (a floating-point division of the parsed
  timestamp) is left out of `SplunkPayload`.
- Console output is left out. This covers the PII warnings of
  `secureToolExecution` (lines 37-39 and 50-52), the `[SIEM]`, connector,
  policy-count and disabled-connector log lines, and the HTTP posts that are
  only TODO comments.
- `Promise`s and `async` are left out. `SiemManager.send` runs the
  connectors' sends one after another (`Promise.all` has no observable
  ordering here, since each send only logs).
- `loadPoliciesFromFile` is a TODO stub that only logs. It is not modelled.
- The OpenTelemetry tracer is left out. The span is a record of the calls
  made on it.
- `AbacPolicy.AbacPolicyEngine.GetPolicies` returns a value copy. The
  source returns the engine's own array, so a caller could mutate the
  stored policies; that aliasing is not modelled.
- `ContentFilter.FilterInput` uses ASCII lower-casing. Unicode
  `toLowerCase` is not modelled.
- Regular expressions are written as scanners for the exact patterns of the
  source, not through a general regex engine.
- `ModelArmor.RedactionsCompose` characterizes `sanitize` only for
  non-overlapping entities. With overlapping matches (different categories
  over the same digits) the model computes what the source computes, but no
  lemma describes the result.
- No lemma claims that a PII value never survives sanitization, because
  the source does not guarantee it. In `x1234567890 1234567890` the phone
  pattern matches only the second number (there is no `\b` between `x` and
  `1`), so the sanitized text `x1234567890 [REDACTED_PHONE]` still contains
  the detected value.
- ModelArmor.ToEntity: the offsets count Unicode scalar values, while
  JavaScript's `match.index` and `length` count UTF-16 code units. The two
  differ after any character outside the Basic Multilingual Plane: in
  `😀 test@example.com` the source reports the email at 3-19 and the model
  at 2-18. The value, the category, the order of the entities and the
  sanitized text are the same either way.
- `Base64.Decode` is used only to state the round trip. It is not a
  complete validator of base-64 text.
- `AuditMiddleware.HashParams` represents the `TypeError` that
  `Buffer.from(undefined)` throws by Node's error code
  `ERR_INVALID_ARG_TYPE`, not by its full message.
- Throws of values that are not `Error` objects are left out. Every error is
  known by its message.
- UTF-8 is modelled over Unicode scalar values. Lone surrogates, which
  `Buffer.from` replaces, do not occur in Dafny strings.
- `security-layer/mtls/mtls-validator.ts`, `src/secure-index.ts` and the
  compiled `dist/` files are not part of this model.
