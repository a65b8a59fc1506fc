/** `ContentFilter`: a fixed blocklist of phrases looked up, in order, in the
    lower-cased text. */
module ContentFilter {
  import opened Wrappers
  import opened Text

  datatype Category = Toxic | Pii | Malicious | Safe

  datatype FilterResult = FilterResult(allowed: bool, reason: Option<string>, category: Option<Category>)

  /** The blocklist, in the insertion order of its `Set`. */
  const Blocklist: seq<string> := [
    "ignore previous instructions",
    "disregard system prompt",
    "jailbreak",
    "sudo mode"
  ]

  function BlockedReason(entry: string): string {
    "Blocked pattern detected: " + entry
  }

  /** The first entry of `entries` that occurs in `lower`. */
  function FirstHit(lower: string, entries: seq<string>): (r: Option<nat>)
    ensures r.Some? ==> r.value < |entries| && Includes(lower, entries[r.value])
    ensures r.Some? ==> forall j :: 0 <= j < r.value ==> !Includes(lower, entries[j])
    ensures r.None? ==> forall j :: 0 <= j < |entries| ==> !Includes(lower, entries[j])
  {
    if entries == [] then None
    else if Includes(lower, entries[0]) then Some(0)
    else match FirstHit(lower, entries[1..])
      case None => None
      case Some(k) => Some(k + 1)
  }

  /** `filterInput`: the first blocklist entry found in the lower-cased text
      decides a `malicious` denial; without one the text is `safe`. */
  function FilterInput(text: string): (r: FilterResult)
    ensures !r.allowed <==> exists i :: 0 <= i < |Blocklist| && Includes(Lower(text), Blocklist[i])
    ensures r.allowed ==> r == FilterResult(true, None, Some(Safe))
    ensures !r.allowed ==> r.category == Some(Malicious)
    ensures !r.allowed ==> exists i :: (
      && 0 <= i < |Blocklist|
      && r.reason == Some(BlockedReason(Blocklist[i]))
      && Includes(Lower(text), Blocklist[i])
      && forall j :: 0 <= j < i ==> !Includes(Lower(text), Blocklist[j]))
  {
    match FirstHit(Lower(text), Blocklist)
    case Some(i) => FilterResult(false, Some(BlockedReason(Blocklist[i])), Some(Malicious))
    case None => FilterResult(true, None, Some(Safe))
  }

  /** Upper-casing the ASCII letters of the text changes nothing. */
  lemma UpperCaseSameVerdict(text: string)
    ensures FilterInput(Upper(text)) == FilterInput(text)
  {
    assert Lower(Upper(text)) == Lower(text);
  }

  /** Every blocklist entry is already in lower case, so each is found in
      any text containing it, whatever its case. */
  lemma {:induction false} EntryBlocks(text: string, i: nat, p: nat)
    requires i < |Blocklist| && OccursAt(Lower(text), Blocklist[i], p)
    ensures !FilterInput(text).allowed
  {
    IncludesIff(Lower(text), Blocklist[i]);
  }

  /** A text with the third entry in upper case is refused with that entry. */
  lemma JailbreakScenario()
    ensures FilterInput("Please JAILBREAK now")
         == FilterResult(false, Some("Blocked pattern detected: jailbreak"), Some(Malicious))
  {
    LowerOfScenario();
    JailbreakFound("please jailbreak now");
    assert BlockedReason(Blocklist[2]) == "Blocked pattern detected: jailbreak";
  }

  lemma LowerOfScenario()
    ensures Lower("Please JAILBREAK now") == "please jailbreak now"
  {
    var r := Lower("Please JAILBREAK now");
    assert forall i :: 0 <= i < 20 ==> r[i] == "please jailbreak now"[i];
  }

  lemma JailbreakFound(lower: string)
    requires lower == "please jailbreak now"
    ensures FirstHit(lower, Blocklist) == Some(2)
  {
    assert OccursAt(lower, "jailbreak", 7);
    IncludesIff(lower, "jailbreak");
    assert !Includes(lower, Blocklist[0]) && !Includes(lower, Blocklist[1]);
    assert FirstHit(lower, Blocklist[2..]) == Some(0);
    assert Blocklist[1..][1..] == Blocklist[2..];
    assert FirstHit(lower, Blocklist[1..]) == Some(1);
  }
}
