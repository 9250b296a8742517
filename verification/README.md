# tld-info lookup core in Dafny

A model of the query functions of the tld-info library (`src/utils.ts`):
normalisation of user input to a canonical TLD key (`normalizeTLD`), exact
lookup (`getTLDInfo`, `isValidTLD`), the type and country filters
(`getTLDsByType`, `getCountryTLDs`), flag-emoji derivation
(`countryCodeToEmojiFlag`, `getEmojiForTLD`) and the substring search
(`searchTLD`) with its optional limit.

The generated data table that the library imports is a parameter of every
operation: `TldData(infoList, infoMap)` holds the enumeration list and the
index by canonical key. `TldTypes.Valid` states the consistency the
generated table is trusted to have:
- every key is the canonical `tld` of its record;
- the list and the index hold the same records;
- keys are unique;
- a record claims a flag only with a two-letter country code.

Modules:
- `Wrappers`: `Option`, standing for `undefined`/`null`.
- `JsString`: the JavaScript string primitives the code calls. These are `trim` with the ECMAScript whitespace set, `toLowerCase`/`toUpperCase` on ASCII letters, and `includes`. Lemmas relate trimming to case mapping.
- `Filtering`: `Array.prototype.filter` as `Select`, with its order, membership and prefix lemmas.
- `TldTypes`: the record, the table and its invariant.
- `TldUtils`: the eight operations and their properties. `searchTLD` is an imperative method; its loop, `ScanTable`, is proved against the specification function `SearchResult`.
- `TldExamples`: the four-record table of the unit tests (`.com`, `.ai`, `.de`, `.test`) and the outcomes those tests expect, proved about the model.

In JavaScript a `limit` is honoured when it is truthy: absent or `0` means no limit. The comparison with the limit runs only after a push, so a negative limit stops the scan after the first match. `EffectiveLimit` models this. A limit therefore takes effect whenever it is non-zero, not only when it is positive.

## Model

| member | source | states |
|---|---|---|
| JsString.Trim | src/utils.ts:10-14 | `trim()` keeps every non-whitespace character, is empty exactly when the input is all whitespace, and neither starts nor ends with whitespace |
| JsString.TrimIsInfix | src/utils.ts:10-14 | `trim()` removes only a whitespace prefix and a whitespace suffix: the result is the rest of the input, unchanged and in order |
| JsString.Lower | src/utils.ts:14 | `toLowerCase()` keeps the length, leaves no uppercase ASCII letter, and each character equals the input's ignoring case |
| JsString.Upper | src/utils.ts:60 | `toUpperCase()` keeps the length, leaves no lowercase ASCII letter, and each character equals the input's ignoring case |
| JsString.IsBlank | src/utils.ts:10 | the guard `!x \|\| x.trim() === ''` (also at src/utils.ts:24, 35, 46, 59 and 120): the input is empty or trims to the empty string |
| JsString.Includes | src/utils.ts:126 | `s.includes(t)` (also at src/utils.ts:131 and 136): `t` occurs in `s` at some position from 0 to `\|s\| - \|t\|` |
| JsString.TrimCommutesWithCase | src/utils.ts:14 | trimming then lowercasing equals lowercasing then trimming (and likewise for uppercasing) |
| JsString.TrimIdempotent | src/utils.ts:10-14 | trimming twice is trimming once |
| Filtering.Select | src/utils.ts:48 | `filter` returns only qualifying elements and no more elements than the input has |
| Filtering.SelectIsExact | src/utils.ts:48 | the result of `filter` is a subsequence of the input in input order; it holds every qualifying element as often as the input does, and nothing else |
| Filtering.SelectOfPrefix | src/utils.ts:125-128 | what is selected from a prefix is a prefix of what is selected from the whole |
| Filtering.SelectDistinct | src/utils.ts:48 | filtering a list without repetitions gives one without repetitions |
| TldTypes.TldInfo | src/types.ts:17-26 | the record: its eight fields, with `null`-able fields as `Option` and open strings for type and status |
| TldTypes.Valid | src/types.ts:28 | the consistency trusted of the imported `tldInfoList` and `tldInfoMap` (src/utils.ts:1): keys are the canonical `tld` of their record, list and index hold the same records, keys are unique, and a record claims a flag only with a two-letter code |
| TldUtils.NormalizeTLD | src/utils.ts:9-16 | blank input and input that trims to "." come back unchanged; otherwise the result is a canonical key: the trimmed input lowercased, with a dot prepended exactly when it lacks one |
| TldUtils.KeyFromTrimmed | src/utils.ts:14-15 | lowercasing a trimmed string other than "." and adding a missing leading dot gives a canonical key of at least two characters |
| TldUtils.NormalizeDependsOnTrimmed | src/utils.ts:14 | for normalisable input, only the trimmed input matters |
| TldUtils.NormalizeCanonicalKey | src/utils.ts:9-16 | a canonical key normalises to itself |
| TldUtils.NormalizeTLDIdempotent | src/utils.ts:9-16 | normalising twice is normalising once |
| TldUtils.BlankCaseInsensitive | src/utils.ts:10 | blankness and trimming do not depend on letter case |
| TldUtils.UnnormalizableHasNoLetters | src/utils.ts:10-12 | input returned unchanged has no ASCII letter, so neither case mapping changes it |
| TldUtils.NormalizeAgreesUpToCase | src/utils.ts:14-15 | two normalisable inputs whose trimmed forms agree up to case normalise alike |
| TldUtils.NormalizeTLDUpper | src/utils.ts:9-16 | normalising the uppercased input gives the same key |
| TldUtils.NormalizeTLDLower | src/utils.ts:9-16 | normalising the lowercased input gives the same key |
| TldUtils.NormalizeTLDDotInsensitive | src/utils.ts:15 | input that starts with a non-whitespace character other than a dot normalises as it does with a dot prepended |
| TldUtils.GetTLDInfo | src/utils.ts:23-27 | nothing for blank input; otherwise a record exactly when the normalised input is a key, and then the record under that key |
| TldUtils.IsValidTLD | src/utils.ts:34-38 | true exactly when `getTLDInfo` finds a record; false for blank input |
| TldUtils.LookupReturnsListedRecord | src/utils.ts:23-27 | in a consistent table a found record is enumerated and its `tld` is the normalised input |
| TldUtils.LookupCaseInsensitive | src/utils.ts:23-27 | upper- or lowercasing the input does not change the lookup |
| TldUtils.LookupFindsEveryRecord | src/utils.ts:23-27 | every enumerated record is found under its own key and under its key in capitals |
| TldUtils.GetTLDsByType | src/utils.ts:45-49 | nothing for a blank argument; otherwise exactly the records whose type equals the argument ignoring case, each as often as listed, in table order |
| TldUtils.TypeArgumentNotTrimmed | src/utils.ts:46-48 | an argument that starts with whitespace matches no record whose type does not, because it is not trimmed |
| TldUtils.GetCountryTLDs | src/utils.ts:56-64 | nothing for a blank argument; otherwise exactly the records of type "ccTLD" (case-sensitive) whose country code equals the uppercased argument, in table order |
| TldUtils.FiltersOmitNoMatch | src/utils.ts:45-64 | every listed record that satisfies a filter's condition is in that filter's result |
| TldUtils.CountryCodeToEmojiFlag | src/utils.ts:72-94 | a flag exists exactly for a code of length 2 whose two characters are ASCII letters; it is two regional indicator symbols, each the uppercased letter plus 127397 |
| TldUtils.EmojiFlagCaseInsensitive | src/utils.ts:76 | the flag does not depend on the case of the code |
| TldUtils.EmojiFlagInjective | src/utils.ts:88-91 | two codes give the same flag only if they agree ignoring case |
| TldUtils.GetEmojiForTLD | src/utils.ts:101-107 | a flag only for a found ccTLD record that has a non-empty country code and claims a flag; for such a record it is the flag of its country code |
| TldUtils.EmojiForConsistentTable | src/utils.ts:101-107 | in a consistent table, a flag is returned exactly for found ccTLD records that claim one, and it spells the record's country code |
| TldUtils.MatchesQuery | src/utils.ts:126-140 | the three field tests: the lowercased tld, registry (when present) or country code (when present) includes the lowercased query |
| TldUtils.LimitIsSet | src/utils.ts:128 | the truthiness test `limit &&`: the limit is present and not 0 |
| TldUtils.AllMatches | src/utils.ts:120-141 | the unlimited search: nothing for a blank query; otherwise exactly the records whose tld, registry or country code, lowercased, contains the lowercased query, in table order |
| TldUtils.EffectiveLimit | src/utils.ts:122-128 | a set limit stops the scan after exactly `limit` results when it is positive, and after exactly one result when it is negative |
| TldUtils.SearchResult | src/utils.ts:116-143 | the search result is a prefix of the unlimited result; it is the whole unlimited result without a limit, at most the effective limit with one, and the whole unlimited result when shorter than the limit |
| TldUtils.SearchTLD | src/utils.ts:116-143 | `searchTLD` computes `SearchResult`: nothing for a blank query, otherwise the result of the scan |
| TldUtils.ScanTable | src/utils.ts:123-142 | the loop over the table with its early return computes `SearchResult` for a query that is not blank |
| TldUtils.SearchStopsAtLimit | src/utils.ts:127-128 | when the matches among the records scanned so far reach a set limit, they are the limited result |
| TldUtils.MatchesOfPrefix | src/utils.ts:125-141 | the matches among the first records scanned begin the full list of matches |
| TldUtils.SearchRunsToEnd | src/utils.ts:141-142 | a scan that finishes returns all matches and the search result |
| TldUtils.SearchUnlimitedMembership | src/utils.ts:120-141 | without a limit, a record is in the result exactly when it is listed and one of its three fields contains a non-blank query |
| TldUtils.SearchWithoutDuplicates | src/utils.ts:125-141 | in a consistent table no record is reported twice |
| TldUtils.ValidListIsDistinct | src/types.ts:17-28 | in a consistent table the enumerated records are pairwise different |
| TldExamples.SeedTableIsValid | tests/utils.test.ts:7-59 | the four-record test table satisfies the table invariant |
| TldExamples.NormalizeAddsDotAndLowercases | tests/utils.test.ts:94-97 | "COM" and "CoM" normalise to ".com" |
| TldExamples.NormalizeKeepsLeadingDot | tests/utils.test.ts:99-101 | ".NET" normalises to ".net" |
| TldExamples.NormalizeTrimsWhitespace | tests/utils.test.ts:103-106 | "  .ORG  " normalises to ".org" |
| TldExamples.NormalizeReturnsInvalidInputAsIs | tests/utils.test.ts:108-112 | "", "  " and "." come back unchanged |
| TldExamples.LookupFindsSeedRecords | tests/utils.test.ts:115-123 | "com", ".AI" and "De" find the .com, .ai and .de records |
| TldExamples.SeedInputsAreValid | tests/utils.test.ts:135-139 | "com" and ".AI" are valid |
| TldExamples.LookupMissesUnknownKeys | tests/utils.test.ts:125-148 | "invalidtld", ".nonexistent" and "" are not found and not valid |
| TldExamples.TypeFilterFindsCcTLDs | tests/utils.test.ts:163-166 | "CCTLD" gives exactly the .ai and .de records, in that order |
| TldExamples.TypeFilterDoesNotTrim | src/utils.ts:46-48 | " ccTLD" gives nothing on the test table |
| TldExamples.CountryFilterFindsSeedCodes | tests/utils.test.ts:173-184 | "DE" gives exactly the .de record and "ai" exactly the .ai record |
| TldExamples.CountryFilterFindsNothing | tests/utils.test.ts:186-190 | "XX" and "US" give nothing |
| TldExamples.EmojiFlagOfCodes | src/utils.ts:72-94 | "us" gives U+1F1FA U+1F1F8; "USA" and "1A" give nothing |
| TldExamples.EmojiFlagOfAi | tests/utils.test.ts:194-197 | "AI" gives U+1F1E6 U+1F1EE |
| TldExamples.EmojiForSeedRecords | tests/utils.test.ts:193-205 | "ai" gets U+1F1E6 U+1F1EE and ".DE" gets U+1F1E9 U+1F1EA; "nonexistent" and "com" get nothing |
| TldExamples.NoEmojiWhenFlagNotClaimed | tests/utils.test.ts:207-228 | a ccTLD ".xx" with country code "XX" that claims no flag gets none |
| TldExamples.SearchForIFindsAll | tests/utils.test.ts:257-266 | "i" finds all four records, in table order |
| TldExamples.SearchWithLimitOne | tests/utils.test.ts:268-271 | "a" with limit 1 gives only the first match, the .com record |
| TldExamples.SearchFindsNothing | tests/utils.test.ts:273-279 | "nonexistentquery" finds nothing, and neither does a blank query with limit 5 |

## Left out

- The command-line front end (`src/cli.ts`), the documentation generator (`scripts/generate-markdown-docs.ts`) and the build and test configuration are not part of this model.
- The generated data module `src/tldData` is not part of this model. Its table is a parameter, and `TldTypes.Valid` states the consistency the lemmas assume of it. The operations themselves do not require it, as the code does not check it.
- Case mapping covers ASCII letters only. JavaScript's full Unicode mapping is not modelled: `"ß".toUpperCase()` is `"SS"`, and uppercasing can change a string's length.
- TldUtils.CountryCodeToEmojiFlag: the length test counts characters, not UTF-16 code units. The flag is a sequence of two code points rather than a UTF-16 string of four units. A two-unit non-ASCII code that JavaScript's `toUpperCase` would turn into ASCII letters (such as a dotless "ı") is not covered.
- `trim` strips the fixed ECMAScript whitespace set. No character database is consulted.
- A `limit` that is not an integer (NaN, fractional) is not modelled; `limit` is `Option<int>`.
- TldUtils.SearchTLD: the three consecutive field tests with `continue` are modelled as one test of the disjunction `MatchesQuery`. It has the same outcome: the record is added once when its tld, registry or country code contains the query, checked in that order.
- Lookups in the index use Dafny map membership. This is exact. Blank input is never looked up (src/utils.ts:24, 35). Every other key contains a '.': it either starts with one (src/utils.ts:15) or trims to "." (src/utils.ts:10-12). No inherited `Object.prototype` property name contains a '.', so JavaScript property lookup finds the same records.
- The record's `type` is modelled as an open string, as in `src/types.ts`. It is not a closed set of tags.
- The unit test that adds ".xx" to the index at run time and restores it afterwards is modelled as a second table value, `TableWithXx`. Mutation of module state is not modelled.
- A record whose `type` is missing at run time (the `type?.` at src/utils.ts:48) is not modelled: `TldInfo.tldType` is always a string.
