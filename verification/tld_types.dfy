/**
 * The shape of one TLD record and of the read-only table the lookup
 * functions query: the enumeration list `tldInfoList` and the index
 * `tldInfoMap` from canonical key to record.
 */
module TldTypes {
  import opened Wrappers
  import opened JsString

  /** One TLD record. `tldType` and `status` are open labels ("gTLD",
      "ccTLD", "active", "reserved", or anything else the data holds);
      `idnSupport` is tri-state: known true, known false, or unknown (None). */
  datatype TldInfo = TldInfo(
    tld: string,
    tldType: string,
    registry: Option<string>,
    countryCode: Option<string>,
    status: Option<string>,
    createdDate: Option<string>,
    idnSupport: Option<bool>,
    hasEmojiFlag: bool
  )

  /** The generated data table: the records in enumeration order, and the
      same records indexed by their canonical key. */
  datatype TldData = TldData(infoList: seq<TldInfo>, infoMap: map<string, TldInfo>)

  /** The canonical key form: a leading dot, no uppercase letter, and no
      whitespace at the end (the leading dot rules it out at the start). */
  predicate IsCanonicalKey(k: string) {
    && |k| > 0
    && k[0] == '.'
    && !IsWhitespace(k[|k| - 1])
    && forall i :: 0 <= i < |k| ==> !IsAsciiUpper(k[i])
  }

  /** The consistency the generated table is trusted to have. */
  ghost predicate Valid(t: TldData) {
    // every key is the canonical `tld` of the record it maps to
    && (forall k :: k in t.infoMap ==> t.infoMap[k].tld == k && IsCanonicalKey(k))
    // the index holds no record that is not enumerated
    && (forall k :: k in t.infoMap ==> t.infoMap[k] in t.infoList)
    // every enumerated record is indexed under its own key
    && (forall i :: 0 <= i < |t.infoList| ==>
          t.infoList[i].tld in t.infoMap && t.infoMap[t.infoList[i].tld] == t.infoList[i])
    // keys are unique
    && (forall i, j :: 0 <= i < j < |t.infoList| ==> t.infoList[i].tld != t.infoList[j].tld)
    // a flag is only claimed for a two-letter country code
    && (forall i :: 0 <= i < |t.infoList| && t.infoList[i].hasEmojiFlag ==>
          HasTwoLetterCode(t.infoList[i]))
  }

  predicate HasTwoLetterCode(info: TldInfo) {
    && info.countryCode.Some?
    && |info.countryCode.value| == 2
    && IsAsciiLetter(info.countryCode.value[0])
    && IsAsciiLetter(info.countryCode.value[1])
  }
}
