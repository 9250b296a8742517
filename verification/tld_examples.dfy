/**
 * The four-record table of the library's unit tests (.com, .ai, .de, .test)
 * and the outcomes those tests expect, stated as lemmas about the model.
 */
module TldExamples {
  import opened Wrappers
  import opened JsString
  import opened Filtering
  import opened TldTypes
  import opened TldUtils

  // The registry names of .com and .test, as concatenations of their words.
  const ComRegistry := "VeriSign " + "Global " + "Registry " + "Services"
  const TestRegistry := "Internet " + "Assigned " + "Numbers " + "Authority"

  const Com := TldInfo(".com", "gTLD", Some(ComRegistry), None,
                       Some("active"), Some("1985-01-01"), Some(true), false)
  const Ai := TldInfo(".ai", "ccTLD", Some("Government of Anguilla"), Some("AI"),
                      Some("active"), Some("1995-02-16"), Some(false), true)
  const De := TldInfo(".de", "ccTLD", Some("DENIC eG"), Some("DE"),
                      Some("active"), Some("1986-11-05"), Some(true), true)
  const TestTld := TldInfo(".test", "test", Some(TestRegistry), None,
                           Some("reserved"), Some("1999-06-11"), None, false)

  const SeedList := [Com, Ai, De, TestTld]

  /** The index, built from the list as the test fixture does. */
  const SeedTable := TldData(SeedList, map[".com" := Com, ".ai" := Ai, ".de" := De, ".test" := TestTld])

  // ---------------------------------------------------------------------
  // Helpers for evaluating the model on concrete data

  /** The part `filter` keeps of one element. */
  function Keep<T>(x: T, p: T -> bool): seq<T> {
    if p(x) then [x] else []
  }

  /** Filtering a nonempty sequence looks at its first element, then the rest. */
  lemma SelectFirst<T>(s: seq<T>, p: T -> bool)
    requires s != []
    ensures Select(s, p) == Keep(s[0], p) + Select(s[1..], p)
  {
  }

  /** Filtering a four-element sequence, one element at a time. */
  lemma SelectFour<T>(a: T, b: T, c: T, d: T, p: T -> bool)
    ensures Select([a, b, c, d], p) == Keep(a, p) + (Keep(b, p) + (Keep(c, p) + Keep(d, p)))
  {
    var s4, s3, s2, s1 := [a, b, c, d], [b, c, d], [c, d], [d];
    SelectFirst(s4, p);
    assert s4[1..] == s3;
    SelectFirst(s3, p);
    assert s3[1..] == s2;
    SelectFirst(s2, p);
    assert s2[1..] == s1;
    SelectFirst(s1, p);
    assert s1[1..] == [];
    assert Keep(d, p) + [] == Keep(d, p);
  }

  // ---------------------------------------------------------------------
  // The fixture

  lemma SeedKeysAreCanonical()
    ensures IsCanonicalKey(".com") && IsCanonicalKey(".ai")
    ensures IsCanonicalKey(".de") && IsCanonicalKey(".test")
  {
  }

  /** The seed table satisfies the table invariants. */
  lemma SeedTableIsValid()
    ensures Valid(SeedTable)
  {
    var t := SeedTable;
    SeedKeysAreCanonical();
    assert t.infoMap.Keys == {".com", ".ai", ".de", ".test"};
    forall k | k in t.infoMap
      ensures t.infoMap[k].tld == k && IsCanonicalKey(k) && t.infoMap[k] in t.infoList
    {
    }
    forall i | 0 <= i < |t.infoList|
      ensures t.infoList[i].tld in t.infoMap && t.infoMap[t.infoList[i].tld] == t.infoList[i]
      ensures t.infoList[i].hasEmojiFlag ==> HasTwoLetterCode(t.infoList[i])
    {
    }
    forall i, j | 0 <= i < j < |t.infoList| ensures t.infoList[i].tld != t.infoList[j].tld {
    }
  }

  /** Leading whitespace before a non-whitespace character is trimmed away. */
  lemma {:induction false} TrimStartSkips(w: string, x: string)
    requires forall i :: 0 <= i < |w| ==> IsWhitespace(w[i])
    requires x != [] && !IsWhitespace(x[0])
    ensures TrimStart(w + x) == x
    decreases |w|
  {
    if w == [] {
      assert w + x == x;
    } else {
      assert (w + x)[0] == w[0];
      assert (w + x)[1..] == w[1..] + x;
      TrimStartSkips(w[1..], x);
    }
  }

  /** Trailing whitespace after a non-whitespace character is trimmed away. */
  lemma {:induction false} TrimEndSkips(x: string, w: string)
    requires forall i :: 0 <= i < |w| ==> IsWhitespace(w[i])
    requires x != [] && !IsWhitespace(x[|x| - 1])
    ensures TrimEnd(x + w) == x
    decreases |w|
  {
    if w == [] {
      assert x + w == x;
    } else {
      assert (x + w)[|x + w| - 1] == w[|w| - 1];
      assert (x + w)[..|x + w| - 1] == x + w[..|w| - 1];
      TrimEndSkips(x, w[..|w| - 1]);
    }
  }

  /** Two spaces on either side of a trimmed string are trimmed away. */
  lemma TrimPadded(core: string)
    requires core != [] && !IsWhitespace(core[0]) && !IsWhitespace(core[|core| - 1])
    ensures Trim("  " + core + "  ") == core
  {
    assert "  " + core + "  " == "  " + (core + "  ");
    TrimStartSkips("  ", core + "  ");
    TrimEndSkips(core, "  ");
  }

  /** A string lacking one of the characters of `t` does not include `t`. */
  lemma MissingCharNotIncluded(s: string, t: string, k: nat)
    requires k < |t| && t[k] !in s
    ensures !Includes(s, t)
  {
    forall i | 0 <= i <= |s| - |t| ensures !OccursAt(s, t, i) {
      assert s[i..i + |t|][k] == s[i + k];
    }
  }

  /** The lowercased `s` includes the one-character string `[c]` if some character of `s` lowercases to `c`. */
  lemma LowerIncludesChar(s: string, c: char, i: nat)
    requires i < |s| && LowerChar(s[i]) == c
    ensures Includes(Lower(s), [c])
  {
    assert Lower(s)[i..i + 1] == [c];
    assert OccursAt(Lower(s), [c], i);
  }

  /** The lowercased `s` cannot include `t` if `s` has a character of `t` in neither case. */
  lemma LowerMissing(s: string, t: string, k: nat)
    requires k < |t| && !IsAsciiUpper(t[k]) && t[k] !in s && UpperChar(t[k]) !in s
    ensures !Includes(Lower(s), t)
  {
    forall j | 0 <= j < |s| ensures Lower(s)[j] != t[k] {
      assert s[j] in s;
    }
    MissingCharNotIncluded(Lower(s), t, k);
  }

  /** A string that starts with a non-whitespace character is not blank. */
  lemma NotBlank(s: string)
    requires s != [] && !IsWhitespace(s[0])
    ensures !IsBlank(s) && Trim(s) != []
  {
    assert !IsWhitespace(s[0]);
  }

  /** Normalising a trimmed string without a leading dot adds one and lowercases. */
  lemma NormalizeBare(s: string)
    requires s != [] && !IsWhitespace(s[0]) && !IsWhitespace(s[|s| - 1]) && s[0] != '.'
    ensures NormalizeTLD(s) == "." + Lower(s)
  {
    TrimOfTrimmed(s);
    assert Lower(s)[0] == LowerChar(s[0]);
  }

  /** Normalising a trimmed string with a leading dot only lowercases. */
  lemma NormalizeDotted(s: string)
    requires |s| >= 2 && s[0] == '.' && !IsWhitespace(s[|s| - 1])
    ensures NormalizeTLD(s) == Lower(s)
  {
    TrimOfTrimmed(s);
    assert Lower(s)[0] == '.';
  }

  /** The lookup of non-blank input that normalises to `key`. */
  lemma LookupIs(t: TldData, input: string, key: string)
    requires !IsBlank(input) && NormalizeTLD(input) == key
    ensures GetTLDInfo(t, input) == if key in t.infoMap then Some(t.infoMap[key]) else None
  {
  }

  /** A positive limit below the number of matches cuts the unlimited result. */
  lemma LimitedSearchIs(t: TldData, query: string, n: int)
    requires 1 <= n < |SearchResult(t, query, None)|
    ensures SearchResult(t, query, Some(n)) == SearchResult(t, query, None)[..n]
  {
  }

  /** The type filter for a non-blank argument whose lowercase is `lower`. */
  lemma TypeFilterIs(t: TldData, tldType: string, lower: string)
    requires !IsBlank(tldType) && Lower(tldType) == lower
    ensures GetTLDsByType(t, tldType) == Select(t.infoList, TypeMatcher(lower))
  {
  }

  /** The country filter for a non-blank argument whose uppercase is `upper`. */
  lemma CountryFilterIs(t: TldData, countryCode: string, upper: string)
    requires !IsBlank(countryCode) && Upper(countryCode) == upper
    ensures GetCountryTLDs(t, countryCode) == Select(t.infoList, CountryMatcher(upper))
  {
  }

  /** The unlimited search for a non-blank query whose lowercase is `lower`. */
  lemma SearchIs(t: TldData, query: string, lower: string)
    requires !IsBlank(query) && Lower(query) == lower
    ensures SearchResult(t, query, None) == Select(t.infoList, QueryMatcher(lower))
  {
  }

  /** A record none of whose searched fields contains `q` does not match `q`. */
  lemma NoFieldMatches(info: TldInfo, q: string)
    requires !Includes(Lower(info.tld), q)
    requires info.registry.Some? ==> !Includes(Lower(info.registry.value), q)
    requires info.countryCode.Some? ==> !Includes(Lower(info.countryCode.value), q)
    ensures !QueryMatcher(q)(info)
  {
  }

  // ---------------------------------------------------------------------
  // normalizeTLD

  lemma LowerCOM() ensures Lower("COM") == "com" {}

  lemma NormalizeCOM() ensures NormalizeTLD("COM") == ".com" {
    NormalizeBare("COM");
    LowerCOM();
  }

  lemma LowerCoM() ensures Lower("CoM") == "com" {}

  lemma NormalizeCoM() ensures NormalizeTLD("CoM") == ".com" {
    NormalizeBare("CoM");
    LowerCoM();
  }

  lemma NormalizeAddsDotAndLowercases()
    ensures NormalizeTLD("COM") == ".com" && NormalizeTLD("CoM") == ".com"
  {
    NormalizeCOM();
    NormalizeCoM();
  }

  lemma LowerDotNet() ensures Lower(".NET") == ".net" {}

  lemma NormalizeKeepsLeadingDot()
    ensures NormalizeTLD(".NET") == ".net"
  {
    NormalizeDotted(".NET");
    LowerDotNet();
  }

  lemma PaddedOrgSplits() ensures "  .ORG  " == "  " + ".ORG" + "  " {}

  lemma TrimPaddedOrg() ensures Trim("  .ORG  ") == ".ORG" {
    TrimPadded(".ORG");
    PaddedOrgSplits();
  }

  lemma LowerDotOrg() ensures Lower(".ORG") == ".org" {}

  lemma NormalizeTrimsWhitespace()
    ensures NormalizeTLD("  .ORG  ") == ".org"
  {
    TrimPaddedOrg();
    NormalizeDotted(".ORG");
    LowerDotOrg();
    NormalizeDependsOnTrimmed("  .ORG  ");
  }

  lemma NormalizeSpaces() ensures NormalizeTLD("  ") == "  " {
    assert Trim("  ") == [];
  }

  lemma NormalizeLoneDot() ensures NormalizeTLD(".") == "." {
    TrimOfTrimmed(".");
  }

  lemma NormalizeReturnsInvalidInputAsIs()
    ensures NormalizeTLD("") == "" && NormalizeTLD("  ") == "  " && NormalizeTLD(".") == "."
  {
    NormalizeSpaces();
    NormalizeLoneDot();
  }

  // ---------------------------------------------------------------------
  // getTLDInfo and isValidTLD

  lemma LowerCom() ensures Lower("com") == "com" {}

  lemma NormalizeCom() ensures NormalizeTLD("com") == ".com" {
    NormalizeBare("com");
    LowerCom();
  }

  lemma LookupCom() ensures GetTLDInfo(SeedTable, "com") == Some(Com) {
    NotBlank("com");
    NormalizeCom();
    LookupIs(SeedTable, "com", ".com");
    assert SeedTable.infoMap[".com"] == Com;
  }

  lemma LowerDotAI() ensures Lower(".AI") == ".ai" {}

  lemma NormalizeDotAI() ensures NormalizeTLD(".AI") == ".ai" {
    NormalizeDotted(".AI");
    LowerDotAI();
  }

  lemma LookupDotAI() ensures GetTLDInfo(SeedTable, ".AI") == Some(Ai) {
    NotBlank(".AI");
    NormalizeDotAI();
    LookupIs(SeedTable, ".AI", ".ai");
    assert SeedTable.infoMap[".ai"] == Ai;
  }

  lemma LowerDe() ensures Lower("De") == "de" {}

  lemma NormalizeDe() ensures NormalizeTLD("De") == ".de" {
    NormalizeBare("De");
    LowerDe();
  }

  lemma LookupDe() ensures GetTLDInfo(SeedTable, "De") == Some(De) {
    NotBlank("De");
    NormalizeDe();
    LookupIs(SeedTable, "De", ".de");
    assert SeedTable.infoMap[".de"] == De;
  }

  /** Seed records are found with or without the dot, in any case. */
  lemma LookupFindsSeedRecords()
    ensures GetTLDInfo(SeedTable, "com") == Some(Com)
    ensures GetTLDInfo(SeedTable, ".AI") == Some(Ai)
    ensures GetTLDInfo(SeedTable, "De") == Some(De)
  {
    LookupCom();
    LookupDotAI();
    LookupDe();
  }

  lemma SeedInputsAreValid()
    ensures IsValidTLD(SeedTable, "com") && IsValidTLD(SeedTable, ".AI")
  {
    LookupCom();
    LookupDotAI();
  }

  lemma SeedKeysAreShort() ensures forall k :: k in SeedTable.infoMap ==> |k| <= 5 {
    assert SeedTable.infoMap.Keys == {".com", ".ai", ".de", ".test"};
  }

  lemma NormalizeInvalidLength() ensures |NormalizeTLD("invalidtld")| == 11 {
    NormalizeBare("invalidtld");
  }

  lemma NormalizeNonexistentLength() ensures |NormalizeTLD(".nonexistent")| == 12 {
    NormalizeDotted(".nonexistent");
  }

  /** Keys longer than any in the table are not found; neither is blank input. */
  lemma LookupMissesUnknownKeys()
    ensures GetTLDInfo(SeedTable, "invalidtld") == None
    ensures GetTLDInfo(SeedTable, ".nonexistent") == None
    ensures GetTLDInfo(SeedTable, "") == None
    ensures !IsValidTLD(SeedTable, "invalidtld") && !IsValidTLD(SeedTable, ".nonexistent")
    ensures !IsValidTLD(SeedTable, "")
  {
    NormalizeInvalidLength();
    NormalizeNonexistentLength();
    SeedKeysAreShort();
  }

  // ---------------------------------------------------------------------
  // getTLDsByType and getCountryTLDs

  lemma SeedTypesLowered()
    ensures Lower("gTLD") == "gtld" && Lower("ccTLD") == "cctld" && Lower("test") == "test"
  {
  }

  lemma LowerCCTLD() ensures Lower("CCTLD") == "cctld" {}

  lemma KeepCcTLDs()
    ensures Keep(Com, TypeMatcher("cctld")) == [] && Keep(Ai, TypeMatcher("cctld")) == [Ai]
    ensures Keep(De, TypeMatcher("cctld")) == [De] && Keep(TestTld, TypeMatcher("cctld")) == []
  {
    SeedTypesLowered();
  }

  lemma SelectCcTLDs() ensures Select(SeedList, TypeMatcher("cctld")) == [Ai, De] {
    SelectFour(Com, Ai, De, TestTld, TypeMatcher("cctld"));
    KeepCcTLDs();
  }

  lemma TypeFilterFindsCcTLDs()
    ensures GetTLDsByType(SeedTable, "CCTLD") == [Ai, De]
  {
    NotBlank("CCTLD");
    LowerCCTLD();
    TypeFilterIs(SeedTable, "CCTLD", "cctld");
    SelectCcTLDs();
  }

  /** " ccTLD" finds nothing: the type argument is not trimmed. */
  lemma TypeFilterDoesNotTrim()
    ensures GetTLDsByType(SeedTable, " ccTLD") == []
  {
    assert forall i :: 0 <= i < |SeedList| ==> !IsWhitespace(SeedList[i].tldType[0]);
    TypeArgumentNotTrimmed(SeedTable, " ccTLD");
  }

  lemma UpperDE() ensures Upper("DE") == "DE" {}

  lemma SelectDe() ensures Select(SeedList, CountryMatcher("DE")) == [De] {
    SelectFour(Com, Ai, De, TestTld, CountryMatcher("DE"));
  }

  lemma CountryFilterDE() ensures GetCountryTLDs(SeedTable, "DE") == [De] {
    NotBlank("DE");
    UpperDE();
    CountryFilterIs(SeedTable, "DE", "DE");
    SelectDe();
  }

  lemma UpperAi() ensures Upper("ai") == "AI" {}

  lemma SelectAi() ensures Select(SeedList, CountryMatcher("AI")) == [Ai] {
    SelectFour(Com, Ai, De, TestTld, CountryMatcher("AI"));
  }

  lemma CountryFilterAi() ensures GetCountryTLDs(SeedTable, "ai") == [Ai] {
    NotBlank("ai");
    UpperAi();
    CountryFilterIs(SeedTable, "ai", "AI");
    SelectAi();
  }

  /** "DE" gives exactly the .de record and "ai", in any case, the .ai record. */
  lemma CountryFilterFindsSeedCodes()
    ensures GetCountryTLDs(SeedTable, "DE") == [De]
    ensures GetCountryTLDs(SeedTable, "ai") == [Ai]
  {
    CountryFilterDE();
    CountryFilterAi();
  }

  lemma UpperXx() ensures Upper("XX") == "XX" {}

  lemma SelectXx() ensures Select(SeedList, CountryMatcher("XX")) == [] {
    SelectFour(Com, Ai, De, TestTld, CountryMatcher("XX"));
  }

  lemma CountryFilterXx() ensures GetCountryTLDs(SeedTable, "XX") == [] {
    NotBlank("XX");
    UpperXx();
    CountryFilterIs(SeedTable, "XX", "XX");
    SelectXx();
  }

  lemma UpperUs() ensures Upper("US") == "US" {}

  lemma SelectUs() ensures Select(SeedList, CountryMatcher("US")) == [] {
    SelectFour(Com, Ai, De, TestTld, CountryMatcher("US"));
  }

  lemma CountryFilterUs() ensures GetCountryTLDs(SeedTable, "US") == [] {
    NotBlank("US");
    UpperUs();
    CountryFilterIs(SeedTable, "US", "US");
    SelectUs();
  }

  /** Codes that no seed ccTLD has give nothing. */
  lemma CountryFilterFindsNothing()
    ensures GetCountryTLDs(SeedTable, "XX") == []
    ensures GetCountryTLDs(SeedTable, "US") == []
  {
    CountryFilterXx();
    CountryFilterUs();
  }

  // ---------------------------------------------------------------------
  // countryCodeToEmojiFlag and getEmojiForTLD

  lemma EmojiFlagOfCodes()
    ensures CountryCodeToEmojiFlag("us") == Some("\U{1F1FA}\U{1F1F8}")
    ensures CountryCodeToEmojiFlag("USA") == None
    ensures CountryCodeToEmojiFlag("1A") == None
  {
    assert Upper("us") == "US";
  }

  lemma EmojiFlagOfAi() ensures CountryCodeToEmojiFlag("AI") == Some("\U{1F1E6}\U{1F1EE}") {
    UpperOfUppercase("AI");
  }

  lemma EmojiFlagOfDe() ensures CountryCodeToEmojiFlag("DE") == Some("\U{1F1E9}\U{1F1EA}") {
    UpperOfUppercase("DE");
  }

  lemma LowerAi() ensures Lower("ai") == "ai" {}

  lemma NormalizeAi() ensures NormalizeTLD("ai") == ".ai" {
    NormalizeBare("ai");
    LowerAi();
  }

  lemma LookupAi() ensures GetTLDInfo(SeedTable, "ai") == Some(Ai) {
    NotBlank("ai");
    NormalizeAi();
    LookupIs(SeedTable, "ai", ".ai");
    assert SeedTable.infoMap[".ai"] == Ai;
  }

  lemma LowerDotDE() ensures Lower(".DE") == ".de" {}

  lemma NormalizeDotDE() ensures NormalizeTLD(".DE") == ".de" {
    NormalizeDotted(".DE");
    LowerDotDE();
  }

  lemma LookupDotDE() ensures GetTLDInfo(SeedTable, ".DE") == Some(De) {
    NotBlank(".DE");
    NormalizeDotDE();
    LookupIs(SeedTable, ".DE", ".de");
    assert SeedTable.infoMap[".de"] == De;
  }

  lemma NormalizeNonexistent() ensures |NormalizeTLD("nonexistent")| == 12 {
    NormalizeBare("nonexistent");
  }

  /** .ai and .de get their flags; an unknown TLD and .com, which claims
      none, get nothing. */
  lemma EmojiForSeedRecords()
    ensures GetEmojiForTLD(SeedTable, "ai") == Some("\U{1F1E6}\U{1F1EE}")
    ensures GetEmojiForTLD(SeedTable, ".DE") == Some("\U{1F1E9}\U{1F1EA}")
    ensures GetEmojiForTLD(SeedTable, "nonexistent") == None
    ensures GetEmojiForTLD(SeedTable, "com") == None
  {
    LookupAi();
    EmojiFlagOfAi();
    LookupDotDE();
    EmojiFlagOfDe();
    NormalizeNonexistent();
    SeedKeysAreShort();
    LookupCom();
  }

  /** The index with an extra ccTLD ".xx" whose record does not claim a flag. */
  const TableWithXx := TldData(
    SeedList,
    SeedTable.infoMap[".xx" := Ai.(tld := ".xx", countryCode := Some("XX"), hasEmojiFlag := false)])

  /** A ccTLD that does not claim a flag gets none, though "XX" has two letters. */
  lemma NoEmojiWhenFlagNotClaimed()
    ensures GetEmojiForTLD(TableWithXx, ".xx") == None
  {
    assert NormalizeTLD(".xx") == ".xx" by { NormalizeCanonicalKey(".xx"); }
  }

  // ---------------------------------------------------------------------
  // searchTLD

  lemma ComMatchesI() ensures QueryMatcher("i")(Com) {
    assert "i" == ['i'];
    LowerIncludesChar(Com.registry.value, 'i', 3);
  }

  lemma AiMatchesI() ensures QueryMatcher("i")(Ai) {
    assert "i" == ['i'];
    LowerIncludesChar(Ai.tld, 'i', 2);
  }

  lemma DeMatchesI() ensures QueryMatcher("i")(De) {
    assert "i" == ['i'];
    LowerIncludesChar(De.registry.value, 'i', 3);
  }

  lemma TestMatchesI() ensures QueryMatcher("i")(TestTld) {
    assert "i" == ['i'];
    LowerIncludesChar(TestTld.registry.value, 'i', 0);
  }

  lemma SelectI() ensures Select(SeedList, QueryMatcher("i")) == SeedList {
    ComMatchesI();
    AiMatchesI();
    DeMatchesI();
    TestMatchesI();
    SelectAll(SeedList, QueryMatcher("i"));
  }

  lemma LowerI() ensures Lower("i") == "i" {}

  /** "i" occurs in the tld or registry of every seed record. */
  lemma SearchForIFindsAll()
    ensures SearchResult(SeedTable, "i", None) == SeedList
  {
    NotBlank("i");
    LowerI();
    SearchIs(SeedTable, "i", "i");
    SelectI();
  }

  lemma ComMatchesA() ensures QueryMatcher("a")(Com) {
    assert "a" == ['a'];
    LowerIncludesChar(Com.registry.value, 'a', 13);
  }

  lemma AiMatchesA() ensures QueryMatcher("a")(Ai) {
    assert "a" == ['a'];
    LowerIncludesChar(Ai.tld, 'a', 1);
  }

  lemma LowerA() ensures Lower("a") == "a" {}

  /** "a" matches .com and .ai, so there are two matches or more and .com comes first. */
  lemma SearchForAStartsWithCom()
    ensures |SearchResult(SeedTable, "a", None)| >= 2 && SearchResult(SeedTable, "a", None)[0] == Com
  {
    NotBlank("a");
    LowerA();
    SearchIs(SeedTable, "a", "a");
    SelectFour(Com, Ai, De, TestTld, QueryMatcher("a"));
    ComMatchesA();
    AiMatchesA();
  }

  /** With limit 1 the scan stops at the first match. */
  lemma SearchWithLimitOne()
    ensures SearchResult(SeedTable, "a", Some(1)) == [Com]
  {
    SearchForAStartsWithCom();
    LimitedSearchIs(SeedTable, "a", 1);
    assert SearchResult(SeedTable, "a", None)[..1] == [Com];
  }

  /** The query used for a search without matches; its 'q' occurs in no seed field. */
  const Unmatched := "nonexistentquery"

  lemma UnmatchedHasQ() ensures Unmatched[11] == 'q' && !IsAsciiUpper(Unmatched[11]) {}

  lemma ComTldMissesQ() ensures !Includes(Lower(Com.tld), Unmatched) {
    UnmatchedHasQ();
    LowerMissing(Com.tld, Unmatched, 11);
  }

  lemma ComRegistryMissesQ() ensures !Includes(Lower(Com.registry.value), Unmatched) {
    UnmatchedHasQ();
    LowerMissing(Com.registry.value, Unmatched, 11);
  }

  lemma AiTldMissesQ() ensures !Includes(Lower(Ai.tld), Unmatched) {
    UnmatchedHasQ();
    LowerMissing(Ai.tld, Unmatched, 11);
  }

  lemma AiRegistryMissesQ() ensures !Includes(Lower(Ai.registry.value), Unmatched) {
    UnmatchedHasQ();
    LowerMissing(Ai.registry.value, Unmatched, 11);
  }

  lemma AiCodeMissesQ() ensures !Includes(Lower(Ai.countryCode.value), Unmatched) {
    UnmatchedHasQ();
    LowerMissing(Ai.countryCode.value, Unmatched, 11);
  }

  lemma DeTldMissesQ() ensures !Includes(Lower(De.tld), Unmatched) {
    UnmatchedHasQ();
    LowerMissing(De.tld, Unmatched, 11);
  }

  lemma DeRegistryMissesQ() ensures !Includes(Lower(De.registry.value), Unmatched) {
    UnmatchedHasQ();
    LowerMissing(De.registry.value, Unmatched, 11);
  }

  lemma DeCodeMissesQ() ensures !Includes(Lower(De.countryCode.value), Unmatched) {
    UnmatchedHasQ();
    LowerMissing(De.countryCode.value, Unmatched, 11);
  }

  lemma TestTldMissesQ() ensures !Includes(Lower(TestTld.tld), Unmatched) {
    UnmatchedHasQ();
    LowerMissing(TestTld.tld, Unmatched, 11);
  }

  lemma TestRegistryMissesQ() ensures !Includes(Lower(TestTld.registry.value), Unmatched) {
    UnmatchedHasQ();
    LowerMissing(TestTld.registry.value, Unmatched, 11);
  }

  lemma SelectUnmatched() ensures Select(SeedList, QueryMatcher(Unmatched)) == [] {
    SelectFour(Com, Ai, De, TestTld, QueryMatcher(Unmatched));
    ComTldMissesQ();
    ComRegistryMissesQ();
    NoFieldMatches(Com, Unmatched);
    AiTldMissesQ();
    AiRegistryMissesQ();
    AiCodeMissesQ();
    NoFieldMatches(Ai, Unmatched);
    DeTldMissesQ();
    DeRegistryMissesQ();
    DeCodeMissesQ();
    NoFieldMatches(De, Unmatched);
    TestTldMissesQ();
    TestRegistryMissesQ();
    NoFieldMatches(TestTld, Unmatched);
  }

  lemma LowerUnmatched() ensures Lower(Unmatched) == Unmatched {
    LowerOfLowercase(Unmatched);
  }

  /** No seed field contains the query; a blank query finds nothing whatever the limit. */
  lemma SearchFindsNothing()
    ensures SearchResult(SeedTable, Unmatched, None) == []
    ensures SearchResult(SeedTable, "", Some(5)) == []
  {
    NotBlank(Unmatched);
    LowerUnmatched();
    SearchIs(SeedTable, Unmatched, Unmatched);
    SelectUnmatched();
  }
}
