/** The scans that the unit tests of `ModelArmor` describe, worked out on
    the model: which PII each test input contains, where, and what the scan
    reports for it. */
module ModelArmorExamples {
  import opened Wrappers
  import opened Text
  import opened PiiPatterns
  import opened ModelArmor

  /* ----- An email address ----- */

  const ContactLine := "Contact me at test@example.com"

  lemma ContactLineEmailAt()
    ensures MatchAt(Email, ContactLine, 14) == Some(30)
  {
    EmailMatch(ContactLine, 14, 18, 26, 30);
  }

  lemma ContactLineEmails()
    ensures MatchAll(Email, ContactLine, 0) == [Span(14, 30)]
  {
    forall q | 0 <= q < 14
      ensures MatchAt(Email, ContactLine, q).None?
    {
      EmailBlocked(ContactLine, q, if q < 8 then 7 else if q < 11 then 10 else 13);
    }
    forall q | 30 <= q <= |ContactLine|
      ensures MatchAt(Email, ContactLine, q).None?
    {
      EmailBlocked(ContactLine, q, |ContactLine|);
    }
    ContactLineEmailAt();
    OnlyMatch(Email, ContactLine, 14, 30);
  }

  lemma ContactLineNoDigitPii()
    ensures EntitiesOf(Ssn, ContactLine) == EntitiesOf(CreditCard, ContactLine) == EntitiesOf(Phone, ContactLine) == []
  {
    NoDigitNoDigitMatch(Ssn, ContactLine);
    NoDigitNoDigitMatch(CreditCard, ContactLine);
    NoDigitNoDigitMatch(Phone, ContactLine);
  }

  /** The scan finds the one email address and nothing else. */
  lemma EmailDetected()
    ensures ScanSpec(ContactLine).piiDetected == [PiiEntity(Email, "test@example.com", 14, 30)]
  {
    assert forall i :: 0 <= i < 16 ==> ContactLine[14 + i] == "test@example.com"[i];
    assert ContactLine[14..30] == "test@example.com";
    ContactLineEmails();
    EntitiesOfOnly(Email, ContactLine, 14, 30);
    ContactLineNoDigitPii();
    DetectedByCategory(ContactLine);
  }

  /* ----- A social security number ----- */

  const SsnLine := "My SSN is 123-45-6789"

  lemma SsnLineDigitMatches(t: PiiType)
    requires t != Email
    ensures forall q :: 0 <= q <= |SsnLine| && q !in {10, 14, 17} ==> MatchAt(t, SsnLine, q).None?
  {
    assert forall q :: 0 <= q < 10 ==> !IsDigit(SsnLine[q]);
    assert forall q :: 10 <= q < 20 && q != 13 && q != 16 ==> IsWordChar(SsnLine[q]);
    DigitMatchesOnlyAt(t, SsnLine, {10, 14, 17});
  }

  lemma SsnLineSsns()
    ensures MatchAll(Ssn, SsnLine, 0) == [Span(10, 21)]
  {
    SsnLineDigitMatches(Ssn);
    assert MatchAt(Ssn, SsnLine, 10) == Some(21);
    OnlyMatch(Ssn, SsnLine, 10, 21);
  }

  lemma SsnLineNoCard()
    ensures MatchAll(CreditCard, SsnLine, 0) == []
  {
    SsnLineDigitMatches(CreditCard);
    assert MatchAt(CreditCard, SsnLine, 10).None?;
    assert MatchAt(CreditCard, SsnLine, 14).None?;
    assert MatchAt(CreditCard, SsnLine, 17).None?;
    NoMatchFrom(CreditCard, SsnLine, 0);
  }

  lemma SsnLineNoPhone()
    ensures MatchAll(Phone, SsnLine, 0) == []
  {
    SsnLineDigitMatches(Phone);
    assert IsPhoneSep(SsnLine[13]) && !IsDigit(SsnLine[16]);
    assert !DigitsAt(SsnLine, 14, 3);
    assert MatchAt(Phone, SsnLine, 10).None?;
    assert MatchAt(Phone, SsnLine, 14).None?;
    assert MatchAt(Phone, SsnLine, 17).None?;
    NoMatchFrom(Phone, SsnLine, 0);
  }

  /** The scan finds the one social security number and nothing else. */
  lemma SsnDetected()
    ensures ScanSpec(SsnLine).piiDetected == [PiiEntity(Ssn, "123-45-6789", 10, 21)]
  {
    assert forall i :: 0 <= i < 11 ==> SsnLine[10 + i] == "123-45-6789"[i];
    assert SsnLine[10..21] == "123-45-6789";
    NoAtNoEmail(SsnLine);
    SsnLineSsns();
    EntitiesOfOnly(Ssn, SsnLine, 10, 21);
    SsnLineNoCard();
    SsnLineNoPhone();
    DetectedByCategory(SsnLine);
  }

  /* ----- A credit card number ----- */

  const CardLine := "Card: 4532-1234-5678-9010"

  lemma CardLineDigitMatches(t: PiiType)
    requires t != Email
    ensures forall q :: 0 <= q <= |CardLine| && q !in {6, 11, 16, 21} ==> MatchAt(t, CardLine, q).None?
  {
    assert forall q :: 0 <= q < 6 || q == 10 || q == 15 || q == 20 ==> !IsDigit(CardLine[q]);
    assert forall q :: 6 <= q < 24 && q !in {9, 10, 14, 15, 19, 20} ==> IsWordChar(CardLine[q]);
    DigitMatchesOnlyAt(t, CardLine, {6, 11, 16, 21});
  }

  /** The last two groups of four, hyphen-separated, end the text. */
  lemma CardLineLastGroups()
    ensures GroupsEnd(CardLine, 16, [4, 4], IsCardSep, true) == Some(25)
  {
    assert DigitsAt(CardLine, 21, 4);
    assert GroupsEnd(CardLine, 21, [4], IsCardSep, true) == Some(25);
    assert DigitsAt(CardLine, 16, 4) && IsCardSep(CardLine[20]);
    assert [4, 4][1..] == [4];
  }

  lemma CardLineCardAt()
    ensures MatchAt(CreditCard, CardLine, 6) == Some(25)
  {
    CardLineLastGroups();
    assert DigitsAt(CardLine, 11, 4) && IsCardSep(CardLine[15]);
    assert [4, 4, 4][1..] == [4, 4];
    assert GroupsEnd(CardLine, 11, [4, 4, 4], IsCardSep, true) == Some(25);
    assert DigitsAt(CardLine, 6, 4) && IsCardSep(CardLine[10]);
    assert [4, 4, 4, 4][1..] == [4, 4, 4];
    assert GroupsEnd(CardLine, 6, [4, 4, 4, 4], IsCardSep, true) == Some(25);
  }

  lemma CardLineCards()
    ensures MatchAll(CreditCard, CardLine, 0) == [Span(6, 25)]
  {
    CardLineDigitMatches(CreditCard);
    CardLineCardAt();
    OnlyMatch(CreditCard, CardLine, 6, 25);
  }

  lemma CardLineNoSsn()
    ensures MatchAll(Ssn, CardLine, 0) == []
  {
    CardLineDigitMatches(Ssn);
    assert MatchAt(Ssn, CardLine, 6).None?;
    assert MatchAt(Ssn, CardLine, 11).None?;
    assert MatchAt(Ssn, CardLine, 16).None?;
    assert MatchAt(Ssn, CardLine, 21).None?;
    NoMatchFrom(Ssn, CardLine, 0);
  }

  /** Each group of four is followed by a digit, and the three digits after
      the first are cut by a hyphen or by the end of the text. */
  lemma CardLinePhoneStarts()
    ensures MatchAt(Phone, CardLine, 6).None? && MatchAt(Phone, CardLine, 11).None?
    ensures MatchAt(Phone, CardLine, 16).None? && MatchAt(Phone, CardLine, 21).None?
  {
    assert !IsPhoneSep(CardLine[9]) && !IsDigit(CardLine[10]);
    assert !IsPhoneSep(CardLine[14]) && !IsDigit(CardLine[15]);
    assert !IsPhoneSep(CardLine[19]) && !IsDigit(CardLine[20]);
    assert !IsPhoneSep(CardLine[24]);
    assert !DigitsAt(CardLine, 9, 3) && !DigitsAt(CardLine, 14, 3);
    assert !DigitsAt(CardLine, 19, 3) && !DigitsAt(CardLine, 24, 3);
  }

  lemma CardLineNoPhone()
    ensures MatchAll(Phone, CardLine, 0) == []
  {
    CardLineDigitMatches(Phone);
    CardLinePhoneStarts();
    NoMatchFrom(Phone, CardLine, 0);
  }

  /** The scan finds the one card number, and neither an SSN nor a phone
      number inside it. */
  lemma CardDetected()
    ensures ScanSpec(CardLine).piiDetected == [PiiEntity(CreditCard, "4532-1234-5678-9010", 6, 25)]
  {
    assert forall i :: 0 <= i < 19 ==> CardLine[6 + i] == "4532-1234-5678-9010"[i];
    assert CardLine[6..25] == "4532-1234-5678-9010";
    NoAtNoEmail(CardLine);
    CardLineCards();
    EntitiesOfOnly(CreditCard, CardLine, 6, 25);
    CardLineNoSsn();
    CardLineNoPhone();
    DetectedByCategory(CardLine);
  }

  /* ----- Redaction of an email address and an SSN ----- */

  const MixedLine := "Email: test@example.com, SSN: 123-45-6789"

  lemma MixedLineAddressChars()
    ensures forall j :: 7 <= j < 11 ==> IsLocalChar(MixedLine[j])
    ensures forall j :: 11 < j < 23 ==> IsDomainChar(MixedLine[j])
  {
  }

  lemma MixedLineEmailAt()
    ensures MatchAt(Email, MixedLine, 7) == Some(23)
  {
    MixedLineAddressChars();
    EmailMatch(MixedLine, 7, 11, 19, 23);
  }

  lemma MixedLineEmails()
    ensures MatchAll(Email, MixedLine, 0) == [Span(7, 23)]
  {
    forall q | 0 <= q < 7
      ensures MatchAt(Email, MixedLine, q).None?
    {
      EmailBlocked(MixedLine, q, if q < 6 then 5 else 6);
    }
    forall q | 23 <= q <= |MixedLine|
      ensures MatchAt(Email, MixedLine, q).None?
    {
      EmailBlocked(MixedLine, q, |MixedLine|);
    }
    MixedLineEmailAt();
    OnlyMatch(Email, MixedLine, 7, 23);
  }

  lemma MixedLineDigitMatches(t: PiiType)
    requires t != Email
    ensures forall q :: 0 <= q <= |MixedLine| && q !in {30, 34, 37} ==> MatchAt(t, MixedLine, q).None?
  {
    assert forall q :: 0 <= q < 30 || q == 33 || q == 36 ==> !IsDigit(MixedLine[q]);
    assert forall q :: 30 <= q < 40 && q !in {32, 33, 35, 36} ==> IsWordChar(MixedLine[q]);
    DigitMatchesOnlyAt(t, MixedLine, {30, 34, 37});
  }

  lemma MixedLineSsns()
    ensures MatchAll(Ssn, MixedLine, 0) == [Span(30, 41)]
  {
    MixedLineDigitMatches(Ssn);
    assert MatchAt(Ssn, MixedLine, 30) == Some(41);
    OnlyMatch(Ssn, MixedLine, 30, 41);
  }

  lemma MixedLineNoCard()
    ensures MatchAll(CreditCard, MixedLine, 0) == []
  {
    MixedLineDigitMatches(CreditCard);
    assert MatchAt(CreditCard, MixedLine, 30).None?;
    assert MatchAt(CreditCard, MixedLine, 34).None?;
    assert MatchAt(CreditCard, MixedLine, 37).None?;
    NoMatchFrom(CreditCard, MixedLine, 0);
  }

  lemma MixedLineNoPhone()
    ensures MatchAll(Phone, MixedLine, 0) == []
  {
    MixedLineDigitMatches(Phone);
    assert IsPhoneSep(MixedLine[33]) && !IsDigit(MixedLine[36]);
    assert !DigitsAt(MixedLine, 34, 3);
    assert MatchAt(Phone, MixedLine, 30).None?;
    assert MatchAt(Phone, MixedLine, 34).None?;
    assert MatchAt(Phone, MixedLine, 37).None?;
    NoMatchFrom(Phone, MixedLine, 0);
  }

  lemma MixedLineValues()
    ensures MixedLine[7..23] == "test@example.com"
    ensures MixedLine[30..41] == "123-45-6789"
  {
    assert forall i :: 0 <= i < 16 ==> MixedLine[7 + i] == "test@example.com"[i];
    assert forall i :: 0 <= i < 11 ==> MixedLine[30 + i] == "123-45-6789"[i];
  }

  lemma MixedLineEmailEntities()
    ensures EntitiesOf(Email, MixedLine) == [PiiEntity(Email, "test@example.com", 7, 23)]
  {
    MixedLineValues();
    MixedLineEmails();
    EntitiesOfOnly(Email, MixedLine, 7, 23);
  }

  lemma MixedLineSsnEntities()
    ensures EntitiesOf(Ssn, MixedLine) == [PiiEntity(Ssn, "123-45-6789", 30, 41)]
  {
    MixedLineValues();
    MixedLineSsns();
    EntitiesOfOnly(Ssn, MixedLine, 30, 41);
  }

  lemma MixedLineDetected()
    ensures Detected(MixedLine)
         == [PiiEntity(Email, "test@example.com", 7, 23), PiiEntity(Ssn, "123-45-6789", 30, 41)]
  {
    MixedLineEmailEntities();
    MixedLineSsnEntities();
    MixedLineNoCard();
    MixedLineNoPhone();
    DetectedByCategory(MixedLine);
  }

  lemma PlaceholderTexts()
    ensures Placeholder(Email) == "[REDACTED_EMAIL]"
    ensures Placeholder(Ssn) == "[REDACTED_SSN]"
  {
    assert Upper(TypeName(Email)) == "EMAIL";
    assert Upper(TypeName(Ssn)) == "SSN";
  }

  /** `sanitize` replaces the SSN first, then the email address. */
  lemma MixedLineRedactions()
    ensures ApplyRedactions(MixedLine, [PiiEntity(Ssn, "123-45-6789", 30, 41), PiiEntity(Email, "test@example.com", 7, 23)])
         == "Email: " + Placeholder(Email) + ", SSN: " + Placeholder(Ssn)
  {
    var email, ssn := PiiEntity(Email, "test@example.com", 7, 23), PiiEntity(Ssn, "123-45-6789", 30, 41);
    var once := MixedLine[..30] + Placeholder(Ssn);
    assert Redact(MixedLine, ssn) == once;
    assert once[..7] == MixedLine[..7] == "Email: " by {
      assert forall i :: 0 <= i < 7 ==> MixedLine[i] == "Email: "[i];
    }
    assert once[23..] == MixedLine[23..30] + Placeholder(Ssn);
    assert MixedLine[23..30] == ", SSN: " by {
      assert forall i :: 0 <= i < 7 ==> MixedLine[23 + i] == ", SSN: "[i];
    }
    assert Redact(once, email) == "Email: " + Placeholder(Email) + ", SSN: " + Placeholder(Ssn);
    assert [ssn, email][1..] == [email];
  }

  /** The entities come out last first, and each is replaced by the
      placeholder of its category: the email address is gone. */
  lemma MixedLineSanitized()
    ensures ScanSpec(MixedLine).piiDetected
         == [PiiEntity(Ssn, "123-45-6789", 30, 41), PiiEntity(Email, "test@example.com", 7, 23)]
    ensures ScanSpec(MixedLine).sanitizedContent == "Email: " + Placeholder(Email) + ", SSN: " + Placeholder(Ssn)
  {
    var email, ssn := PiiEntity(Email, "test@example.com", 7, 23), PiiEntity(Ssn, "123-45-6789", 30, 41);
    MixedLineDetected();
    assert SortDesc([email, ssn]) == [ssn, email] by {
      assert [email, ssn][..1] == [email];
      assert SortDesc([email]) == [email];
      assert InsertDesc([email], ssn) == [ssn, email];
    }
    MixedLineRedactions();
  }

  /* ----- A content-policy violation ----- */

  const HackLine := "How to hack into a system"

  lemma HackLineActionWord()
    ensures ToxicTest(0, HackLine)
  {
    assert Boundary(HackLine, 7) && OccursAtFolded(HackLine, ActionWords[0], 7) && Boundary(HackLine, 11);
  }

  /** "confidential" has an f, "secret" an r and "classified" an l, none of
      which the line contains. */
  lemma HackLineNoSecrecyWord()
    ensures !ToxicTest(1, HackLine)
  {
    assert forall j :: 0 <= j < |HackLine| ==>
      LowerChar(HackLine[j]) != 'f' && LowerChar(HackLine[j]) != 'r' && LowerChar(HackLine[j]) != 'l';
    forall p: nat, w | 0 <= w < |SecrecyWords|
      ensures !OccursAtFolded(HackLine, SecrecyWords[w], p)
    {
      AbsentLetter(HackLine, SecrecyWords[w], p, if w == 2 then 1 else 3);
    }
  }

  /** The action-word pattern matches, the secrecy-word pattern does not,
      so the scan reports one violation and the content is not safe. */
  lemma HackFlagged()
    ensures ScanSpec(HackLine).violations == [ViolationText(0)]
    ensures !ScanSpec(HackLine).safe
  {
    HackLineActionWord();
    HackLineNoSecrecyWord();
    ViolationsByPattern(HackLine);
  }
}
