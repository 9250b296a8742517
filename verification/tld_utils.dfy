/**
 * The query functions of the TLD library: normalisation of user input to
 * the canonical key, exact lookup, validity, filtering by type and by
 * country, emoji-flag derivation and substring search. Every operation
 * reads the table `t` and nothing else; none fails: "not found" is `None`
 * or the empty sequence.
 */
module TldUtils {
  import opened Wrappers
  import opened JsString
  import opened Filtering
  import opened TldTypes

  // ---------------------------------------------------------------------
  // Normalisation

  /** `normalizeTLD`: blank input and input that trims to a lone dot come
      back unchanged; anything else is trimmed, lowercased and given a
      leading dot if it has none, which makes it a canonical key. */
  function NormalizeTLD(input: string): (r: string)
    ensures IsBlank(input) || Trim(input) == "." ==> r == input
    ensures !IsBlank(input) && Trim(input) != "." ==>
      && IsCanonicalKey(r)
      && |r| >= 2
      && (r == Lower(Trim(input)) || (Trim(input)[0] != '.' && r == "." + Lower(Trim(input))))
  {
    if IsBlank(input) || Trim(input) == "." then input
    else
      var trimmed := Lower(Trim(input));
      KeyFromTrimmed(Trim(input));
      if trimmed[0] == '.' then trimmed else "." + trimmed
  }

  /** Lowercasing a trimmed string other than "." and giving it a leading
      dot when it lacks one yields a canonical key of at least two characters. */
  lemma KeyFromTrimmed(t: string)
    requires t != [] && !IsWhitespace(t[|t| - 1]) && t != "."
    ensures Lower(t)[0] == '.' ==> IsCanonicalKey(Lower(t)) && |t| >= 2
    ensures Lower(t)[0] != '.' ==> IsCanonicalKey("." + Lower(t)) && t[0] != '.'
  {
    var l := Lower(t);
    CaseKeepsWhitespace(t[|t| - 1]);
    assert l[|l| - 1] == LowerChar(t[|t| - 1]);
    assert l[0] == LowerChar(t[0]);
    assert t == [t[0]] + t[1..];
    var r := "." + l;
    assert forall i :: 1 <= i < |r| ==> r[i] == l[i - 1];
  }

  /** Outside the cases returned as they are, only the trimmed input matters. */
  lemma NormalizeDependsOnTrimmed(input: string)
    requires !IsBlank(input) && Trim(input) != "."
    ensures NormalizeTLD(input) == NormalizeTLD(Trim(input))
  {
    TrimIdempotent(input);
  }

  /** A canonical key normalises to itself. */
  lemma NormalizeCanonicalKey(k: string)
    requires IsCanonicalKey(k)
    ensures NormalizeTLD(k) == k
  {
    TrimOfTrimmed(k);
    LowerOfLowercase(k);
  }

  /** Normalising twice is normalising once. */
  lemma NormalizeTLDIdempotent(input: string)
    ensures NormalizeTLD(NormalizeTLD(input)) == NormalizeTLD(input)
  {
    if !IsBlank(input) && Trim(input) != "." {
      NormalizeCanonicalKey(NormalizeTLD(input));
    }
  }

  /** Blankness does not depend on letter case. */
  lemma BlankCaseInsensitive(input: string)
    ensures IsBlank(Upper(input)) == IsBlank(input)
    ensures IsBlank(Lower(input)) == IsBlank(input)
    ensures Trim(Upper(input)) == Upper(Trim(input))
    ensures Trim(Lower(input)) == Lower(Trim(input))
  {
    TrimCommutesWithCase(input);
  }

  /** Input that is blank or trims to "." holds no letter, so case mapping
      leaves it as it is. */
  lemma UnnormalizableHasNoLetters(input: string)
    requires IsBlank(input) || Trim(input) == "."
    ensures Upper(input) == input && Lower(input) == input
  {
    forall i | 0 <= i < |input| ensures !IsAsciiLetter(input[i]) {
      if !IsWhitespace(input[i]) {
        assert input[i] in Trim(input);
      }
    }
    UpperOfUppercase(input);
    LowerOfLowercase(input);
  }

  /** Two inputs whose trimmed forms agree up to case normalise alike. */
  lemma NormalizeAgreesUpToCase(a: string, b: string)
    requires !IsBlank(a) && !IsBlank(b) && Trim(a) != "." && Trim(b) != "."
    requires Lower(Trim(a)) == Lower(Trim(b))
    ensures NormalizeTLD(a) == NormalizeTLD(b)
  {
  }

  /** Normalisation ignores uppercasing: "COM", "Com" and "com" give the same key. */
  lemma NormalizeTLDUpper(input: string)
    ensures NormalizeTLD(Upper(input)) == NormalizeTLD(input)
  {
    BlankCaseInsensitive(input);
    var t := Trim(input);
    CaseOfLoneDot(t);
    if IsBlank(input) || t == "." {
      UnnormalizableHasNoLetters(input);
    } else {
      LowerOfUpper(t);
      assert Upper(input) != [];
      NormalizeAgreesUpToCase(Upper(input), input);
    }
  }

  /** Normalisation ignores lowercasing. */
  lemma NormalizeTLDLower(input: string)
    ensures NormalizeTLD(Lower(input)) == NormalizeTLD(input)
  {
    BlankCaseInsensitive(input);
    var t := Trim(input);
    CaseOfLoneDot(t);
    if IsBlank(input) || t == "." {
      UnnormalizableHasNoLetters(input);
    } else {
      LowerOfLowercase(Lower(t));
      assert Lower(input) != [];
      NormalizeAgreesUpToCase(Lower(input), input);
    }
  }

  /** Normalisation ignores a missing leading dot: "com" and ".com" give the same key. */
  lemma NormalizeTLDDotInsensitive(input: string)
    requires input != [] && !IsWhitespace(input[0]) && input[0] != '.'
    ensures NormalizeTLD("." + input) == NormalizeTLD(input)
  {
    TrimFromNonWhitespace(input);
    TrimAfter('.', input);
    LowerAfter('.', Trim(input));
  }

  // ---------------------------------------------------------------------
  // Exact lookup

  /** `getTLDInfo`: the record indexed under the normalised input; nothing
      for blank input or an unknown key. */
  function GetTLDInfo(t: TldData, tldInput: string): (r: Option<TldInfo>)
    ensures IsBlank(tldInput) ==> r == None
    ensures !IsBlank(tldInput) ==> (r.Some? <==> NormalizeTLD(tldInput) in t.infoMap)
    ensures r.Some? ==> r.value == t.infoMap[NormalizeTLD(tldInput)]
  {
    if IsBlank(tldInput) then None
    else
      var normalized := NormalizeTLD(tldInput);
      if normalized in t.infoMap then Some(t.infoMap[normalized]) else None
  }

  /** `isValidTLD`: true exactly when `getTLDInfo` finds a record. */
  function IsValidTLD(t: TldData, tldInput: string): (b: bool)
    ensures b <==> GetTLDInfo(t, tldInput).Some?
    ensures IsBlank(tldInput) ==> !b
  {
    if IsBlank(tldInput) then false
    else NormalizeTLD(tldInput) in t.infoMap
  }

  /** In a consistent table, a lookup returns an enumerated record whose key
      is the normalised input. */
  lemma LookupReturnsListedRecord(t: TldData, tldInput: string)
    requires Valid(t)
    ensures GetTLDInfo(t, tldInput).Some? ==>
      && GetTLDInfo(t, tldInput).value in t.infoList
      && GetTLDInfo(t, tldInput).value.tld == NormalizeTLD(tldInput)
  {
  }

  /** Lookup ignores letter case. */
  lemma LookupCaseInsensitive(t: TldData, tldInput: string)
    ensures GetTLDInfo(t, Upper(tldInput)) == GetTLDInfo(t, tldInput)
    ensures GetTLDInfo(t, Lower(tldInput)) == GetTLDInfo(t, tldInput)
  {
    BlankCaseInsensitive(tldInput);
    NormalizeTLDUpper(tldInput);
    NormalizeTLDLower(tldInput);
  }

  /** Every enumerated record is found under its own key, in any letter case. */
  lemma LookupFindsEveryRecord(t: TldData, i: nat)
    requires Valid(t) && i < |t.infoList|
    ensures GetTLDInfo(t, t.infoList[i].tld) == Some(t.infoList[i])
    ensures GetTLDInfo(t, Upper(t.infoList[i].tld)) == Some(t.infoList[i])
  {
    var k := t.infoList[i].tld;
    assert IsCanonicalKey(k);
    NormalizeCanonicalKey(k);
    LookupCaseInsensitive(t, k);
  }

  // ---------------------------------------------------------------------
  // Filters

  /** `getTLDsByType`: the records whose type equals the argument ignoring
      case, in table order. The argument is not trimmed. */
  function GetTLDsByType(t: TldData, tldType: string): (r: seq<TldInfo>)
    ensures IsBlank(tldType) ==> r == []
    ensures forall i :: 0 <= i < |r| ==> Lower(r[i].tldType) == Lower(tldType)
    ensures !IsBlank(tldType) ==>
      forall i :: 0 <= i < |t.infoList| && Lower(t.infoList[i].tldType) == Lower(tldType) ==>
        multiset(r)[t.infoList[i]] == multiset(t.infoList)[t.infoList[i]]
    ensures IsSubsequence(r, t.infoList)
  {
    if IsBlank(tldType) then []
    else
      var lowerType := Lower(tldType);
      SelectIsExact(t.infoList, TypeMatcher(lowerType));
      Select(t.infoList, TypeMatcher(lowerType))
  }

  function TypeMatcher(lowerType: string): TldInfo -> bool {
    (info: TldInfo) => Lower(info.tldType) == lowerType
  }

  /** The type argument is not trimmed: one that starts with whitespace
      matches no record whose type does not. */
  lemma TypeArgumentNotTrimmed(t: TldData, tldType: string)
    requires tldType != [] && IsWhitespace(tldType[0])
    requires forall i :: 0 <= i < |t.infoList| ==>
      t.infoList[i].tldType == [] || !IsWhitespace(t.infoList[i].tldType[0])
    ensures GetTLDsByType(t, tldType) == []
  {
    var lowerType := Lower(tldType);
    CaseKeepsWhitespace(tldType[0]);
    forall i | 0 <= i < |t.infoList| ensures !TypeMatcher(lowerType)(t.infoList[i]) {
      var x := t.infoList[i].tldType;
      if x != [] {
        CaseKeepsWhitespace(x[0]);
        assert Lower(x)[0] != lowerType[0];
      }
    }
    SelectNone(t.infoList, TypeMatcher(lowerType));
  }

  /** `getCountryTLDs`: the ccTLD records (type compared case-sensitively)
      whose country code equals the uppercased argument, in table order. */
  function GetCountryTLDs(t: TldData, countryCode: string): (r: seq<TldInfo>)
    ensures IsBlank(countryCode) ==> r == []
    ensures forall i :: 0 <= i < |r| ==>
      r[i].tldType == "ccTLD" && r[i].countryCode == Some(Upper(countryCode))
    ensures !IsBlank(countryCode) ==>
      forall i :: 0 <= i < |t.infoList| && t.infoList[i].tldType == "ccTLD"
                  && t.infoList[i].countryCode == Some(Upper(countryCode)) ==>
        multiset(r)[t.infoList[i]] == multiset(t.infoList)[t.infoList[i]]
    ensures IsSubsequence(r, t.infoList)
  {
    if IsBlank(countryCode) then []
    else
      var upperCountryCode := Upper(countryCode);
      SelectIsExact(t.infoList, CountryMatcher(upperCountryCode));
      Select(t.infoList, CountryMatcher(upperCountryCode))
  }

  function CountryMatcher(upperCountryCode: string): TldInfo -> bool {
    (info: TldInfo) => info.tldType == "ccTLD" && info.countryCode == Some(upperCountryCode)
  }

  /** Every record matching the filter is in the filtered result. */
  lemma FiltersOmitNoMatch(t: TldData, arg: string, i: nat)
    requires i < |t.infoList| && !IsBlank(arg)
    ensures Lower(t.infoList[i].tldType) == Lower(arg) ==> t.infoList[i] in GetTLDsByType(t, arg)
    ensures t.infoList[i].tldType == "ccTLD" && t.infoList[i].countryCode == Some(Upper(arg)) ==>
      t.infoList[i] in GetCountryTLDs(t, arg)
  {
    var x := t.infoList[i];
    assert x in multiset(t.infoList);
    assert Lower(x.tldType) == Lower(arg) ==> x in multiset(GetTLDsByType(t, arg));
    assert x.tldType == "ccTLD" && x.countryCode == Some(Upper(arg)) ==>
      x in multiset(GetCountryTLDs(t, arg));
  }

  // ---------------------------------------------------------------------
  // Emoji flags

  /** The distance from 'A' (65) to REGIONAL INDICATOR SYMBOL LETTER A (U+1F1E6). */
  const RegionalIndicatorOffset: int := 127397

  predicate IsRegionalIndicator(c: char) {
    0x1F1E6 <= c as int <= 0x1F1FF
  }

  /** `countryCodeToEmojiFlag`: a two-letter code, in either case, becomes
      the two regional indicator symbols of its uppercase letters; anything
      else has no flag. */
  function CountryCodeToEmojiFlag(countryCode: string): (r: Option<string>)
    ensures r.Some? <==>
      |countryCode| == 2 && IsAsciiLetter(countryCode[0]) && IsAsciiLetter(countryCode[1])
    ensures r.Some? ==>
      && |r.value| == 2
      && forall i :: 0 <= i < 2 ==>
           IsRegionalIndicator(r.value[i])
           && r.value[i] as int - RegionalIndicatorOffset == UpperChar(countryCode[i]) as int
  {
    if countryCode == [] || |countryCode| != 2 then None
    else
      var code := Upper(countryCode);
      var firstChar := code[0] as int;
      var secondChar := code[1] as int;
      if 65 <= firstChar <= 90 && 65 <= secondChar <= 90 then
        Some([(firstChar + RegionalIndicatorOffset) as char, (secondChar + RegionalIndicatorOffset) as char])
      else None
  }

  /** The flag does not depend on the case of the code. */
  lemma EmojiFlagCaseInsensitive(countryCode: string)
    ensures CountryCodeToEmojiFlag(Lower(countryCode)) == CountryCodeToEmojiFlag(countryCode)
  {
    UpperOfLower(countryCode);
  }

  /** Different codes (ignoring case) give different flags. */
  lemma EmojiFlagInjective(a: string, b: string)
    requires CountryCodeToEmojiFlag(a).Some?
    requires CountryCodeToEmojiFlag(a) == CountryCodeToEmojiFlag(b)
    ensures Upper(a) == Upper(b)
  {
    var flag := CountryCodeToEmojiFlag(a).value;
    assert UpperChar(a[0]) == UpperChar(b[0]) by {
      assert flag[0] as int - RegionalIndicatorOffset == UpperChar(a[0]) as int;
    }
    assert UpperChar(a[1]) == UpperChar(b[1]) by {
      assert flag[1] as int - RegionalIndicatorOffset == UpperChar(a[1]) as int;
    }
  }

  /** `getEmojiForTLD`: the flag of the record's country code, only for a
      record that is found, is a ccTLD and claims a flag. */
  function GetEmojiForTLD(t: TldData, tldInput: string): (r: Option<string>)
    ensures r.Some? ==>
      && GetTLDInfo(t, tldInput).Some?
      && GetTLDInfo(t, tldInput).value.tldType == "ccTLD"
      && GetTLDInfo(t, tldInput).value.hasEmojiFlag
      && GetTLDInfo(t, tldInput).value.countryCode.Some?
      && GetTLDInfo(t, tldInput).value.countryCode.value != ""
    ensures (&& GetTLDInfo(t, tldInput).Some?
             && GetTLDInfo(t, tldInput).value.tldType == "ccTLD"
             && GetTLDInfo(t, tldInput).value.hasEmojiFlag
             && GetTLDInfo(t, tldInput).value.countryCode.Some?) ==>
      r == CountryCodeToEmojiFlag(GetTLDInfo(t, tldInput).value.countryCode.value)
  {
    var info := GetTLDInfo(t, tldInput);
    if && info.Some? && info.value.tldType == "ccTLD"
       && info.value.countryCode.Some? && info.value.countryCode.value != ""
       && info.value.hasEmojiFlag
    then CountryCodeToEmojiFlag(info.value.countryCode.value)
    else None
  }

  /** In a consistent table a ccTLD that claims a flag always gets one, and
      the flag spells the record's country code. */
  lemma EmojiForConsistentTable(t: TldData, tldInput: string)
    requires Valid(t)
    ensures GetEmojiForTLD(t, tldInput).Some? <==>
      && GetTLDInfo(t, tldInput).Some?
      && GetTLDInfo(t, tldInput).value.tldType == "ccTLD"
      && GetTLDInfo(t, tldInput).value.hasEmojiFlag
    ensures GetEmojiForTLD(t, tldInput).Some? ==>
      && |GetEmojiForTLD(t, tldInput).value| == 2
      && forall i :: 0 <= i < 2 ==>
           GetEmojiForTLD(t, tldInput).value[i] as int - RegionalIndicatorOffset
           == UpperChar(GetTLDInfo(t, tldInput).value.countryCode.value[i]) as int
  {
    var info := GetTLDInfo(t, tldInput);
    if info.Some? && info.value.hasEmojiFlag {
      LookupReturnsListedRecord(t, tldInput);
      var i :| 0 <= i < |t.infoList| && t.infoList[i] == info.value;
      assert HasTwoLetterCode(t.infoList[i]);
    }
  }

  // ---------------------------------------------------------------------
  // Search

  /** Whether the record's tld, registry or country code, lowercased,
      contains the lowercased query. */
  predicate MatchesQuery(info: TldInfo, lowerQuery: string) {
    || Includes(Lower(info.tld), lowerQuery)
    || (info.registry.Some? && Includes(Lower(info.registry.value), lowerQuery))
    || (info.countryCode.Some? && Includes(Lower(info.countryCode.value), lowerQuery))
  }

  function QueryMatcher(lowerQuery: string): TldInfo -> bool {
    (info: TldInfo) => MatchesQuery(info, lowerQuery)
  }

  /** The unlimited search result: every matching record once per
      occurrence, in table order; nothing for a blank query. */
  function AllMatches(t: TldData, query: string): (r: seq<TldInfo>)
    ensures IsBlank(query) ==> r == []
    ensures forall i :: 0 <= i < |r| ==> !IsBlank(query) && MatchesQuery(r[i], Lower(query))
    ensures !IsBlank(query) ==>
      forall i :: 0 <= i < |t.infoList| && MatchesQuery(t.infoList[i], Lower(query)) ==>
        multiset(r)[t.infoList[i]] == multiset(t.infoList)[t.infoList[i]]
    ensures IsSubsequence(r, t.infoList)
  {
    if IsBlank(query) then []
    else
      SelectIsExact(t.infoList, QueryMatcher(Lower(query)));
      Select(t.infoList, QueryMatcher(Lower(query)))
  }

  /** A `limit` takes effect when it is present and not 0 (JavaScript truthiness). */
  predicate LimitIsSet(limit: Option<int>) {
    limit.Some? && limit.value != 0
  }

  /** The number of results after which a set `limit` stops the scan: the
      check runs only after a push, so a negative limit stops after one. */
  function EffectiveLimit(limit: Option<int>): (n: nat)
    requires LimitIsSet(limit)
    ensures n >= 1 && (limit.value >= 1 ==> n == limit.value)
    ensures limit.value < 1 ==> n == 1
  {
    if limit.value >= 1 then limit.value else 1
  }

  /** What `searchTLD` returns: the unlimited result cut after the effective limit. */
  function SearchResult(t: TldData, query: string, limit: Option<int>): (r: seq<TldInfo>)
    ensures r <= AllMatches(t, query)
    ensures !LimitIsSet(limit) ==> r == AllMatches(t, query)
    ensures LimitIsSet(limit) ==> |r| <= EffectiveLimit(limit)
    ensures LimitIsSet(limit) && |r| < EffectiveLimit(limit) ==> r == AllMatches(t, query)
  {
    var all := AllMatches(t, query);
    if LimitIsSet(limit) && |all| > EffectiveLimit(limit) then all[..EffectiveLimit(limit)] else all
  }

  /** `searchTLD`: scans the table in order, keeps each record whose tld,
      registry or country code contains the query (checked in that order),
      and returns early once a set limit is reached. */
  method SearchTLD(t: TldData, query: string, limit: Option<int>) returns (results: seq<TldInfo>)
    ensures results == SearchResult(t, query, limit)
  {
    if IsBlank(query) {
      return [];
    }
    results := ScanTable(t, query, Lower(query), limit);
  }

  /** The loop of `searchTLD` for a query that is not blank. */
  method ScanTable(t: TldData, ghost query: string, lowerQuery: string, limit: Option<int>)
    returns (results: seq<TldInfo>)
    requires !IsBlank(query) && lowerQuery == Lower(query)
    ensures results == SearchResult(t, query, limit)
  {
    var matches := QueryMatcher(lowerQuery);
    results := [];
    for i := 0 to |t.infoList|
      invariant results == Select(t.infoList[..i], matches)
      invariant LimitIsSet(limit) ==> |results| < EffectiveLimit(limit)
    {
      var info := t.infoList[i];
      SelectExtend(t.infoList, i, matches);
      // tld, then registry, then country code: the first field that
      // contains the query adds the record once
      if matches(info) {
        results := results + [info];
        if limit.Some? && limit.value != 0 && |results| >= limit.value {
          SearchStopsAtLimit(t, query, limit, i, results);
          return;
        }
      }
    }
    SearchRunsToEnd(t, query, limit, results);
  }

  /** The early return: once the matches among the first `i + 1` records
      reach a set limit, they are exactly the limited result. */
  lemma SearchStopsAtLimit(t: TldData, query: string, limit: Option<int>, i: nat, results: seq<TldInfo>)
    requires !IsBlank(query) && LimitIsSet(limit) && i < |t.infoList|
    requires results == Select(t.infoList[..i + 1], QueryMatcher(Lower(query)))
    requires 1 <= |results| <= EffectiveLimit(limit) && |results| >= limit.value
    ensures results == SearchResult(t, query, limit)
  {
    MatchesOfPrefix(t, query, i + 1);
    var all := AllMatches(t, query);
    assert |results| == EffectiveLimit(limit);
    assert results == all[..|results|];
  }

  /** The matches among the first `i` records begin the full list of matches. */
  lemma MatchesOfPrefix(t: TldData, query: string, i: nat)
    requires !IsBlank(query) && i <= |t.infoList|
    ensures Select(t.infoList[..i], QueryMatcher(Lower(query))) <= AllMatches(t, query)
  {
    SelectOfPrefix(t.infoList, i, QueryMatcher(Lower(query)));
  }

  /** The scan that finishes: all matches, fewer than any set limit. */
  lemma SearchRunsToEnd(t: TldData, query: string, limit: Option<int>, results: seq<TldInfo>)
    requires !IsBlank(query)
    requires results == Select(t.infoList[..|t.infoList|], QueryMatcher(Lower(query)))
    requires LimitIsSet(limit) ==> |results| < EffectiveLimit(limit)
    ensures results == AllMatches(t, query)
    ensures results == SearchResult(t, query, limit)
  {
    SelectOfWhole(t.infoList, QueryMatcher(Lower(query)));
  }

  /** Without a limit, a record is in the result exactly when it is in the
      table and matches a non-blank query. */
  lemma SearchUnlimitedMembership(t: TldData, query: string, limit: Option<int>, x: TldInfo)
    requires !LimitIsSet(limit)
    ensures x in SearchResult(t, query, limit) <==>
      !IsBlank(query) && x in t.infoList && MatchesQuery(x, Lower(query))
  {
    var all := AllMatches(t, query);
    if x in all {
      SelectIsExact(t.infoList, QueryMatcher(Lower(query)));
      assert x in multiset(all);
      assert x in multiset(t.infoList);
    }
    if !IsBlank(query) && x in t.infoList && MatchesQuery(x, Lower(query)) {
      var i :| 0 <= i < |t.infoList| && t.infoList[i] == x;
      assert x in multiset(t.infoList);
      assert x in multiset(all);
    }
  }

  /** In a consistent table no record is reported twice. */
  lemma SearchWithoutDuplicates(t: TldData, query: string, limit: Option<int>)
    requires Valid(t)
    ensures Distinct(SearchResult(t, query, limit))
  {
    if !IsBlank(query) {
      ValidListIsDistinct(t);
      SelectDistinct(t.infoList, QueryMatcher(Lower(query)));
      assert SearchResult(t, query, limit) <= AllMatches(t, query);
    }
  }

  /** Distinct keys make distinct records. */
  lemma ValidListIsDistinct(t: TldData)
    requires Valid(t)
    ensures Distinct(t.infoList)
  {
    forall i, j | 0 <= i < j < |t.infoList| ensures t.infoList[i] != t.infoList[j] {
      assert t.infoList[i].tld != t.infoList[j].tld;
    }
  }
}
