/**
  The topic key of a generated post: the text before the first character
  from a delimiter set (`extract_first_sentence`, a `re.search` for a
  one-character class followed by a slice).
 */
module TopicKey {

  datatype Option<T> = None | Some(value: T)

  /** No character of `s` lies in `delimiters`. */
  predicate DelimiterFree(s: string, delimiters: set<char>) {
    forall j :: 0 <= j < |s| ==> s[j] !in delimiters
  }

  /** The position of the first character of `text` that lies in `delimiters`, if any. */
  function FirstDelimiter(text: string, delimiters: set<char>): (r: Option<nat>)
    ensures r.Some? ==> r.value < |text| && text[r.value] in delimiters
    ensures r.Some? ==> DelimiterFree(text[..r.value], delimiters)
    ensures r.None? <==> DelimiterFree(text, delimiters)
  {
    if text == [] then None
    else if text[0] in delimiters then Some(0)
    else match FirstDelimiter(text[1..], delimiters)
      case None => None
      case Some(i) =>
        assert text[..i + 1] == [text[0]] + text[1..][..i];
        Some(i + 1)
  }

  /**
    The key is the longest delimiter-free prefix of `text`: it is a prefix,
    holds no delimiter, and either is all of `text` or stops right at a
    delimiter.
   */
  function ExtractFirstSentence(text: string, delimiters: set<char>): (key: string)
    ensures |key| <= |text| && key == text[..|key|]
    ensures DelimiterFree(key, delimiters)
    ensures |key| < |text| ==> text[|key|] in delimiters
    ensures key == text <==> DelimiterFree(text, delimiters)
  {
    match FirstDelimiter(text, delimiters)
    case Some(i) => text[..i]
    case None => text
  }

  /**
    The three properties in the contract of ExtractFirstSentence pin the key
    down: any prefix that has them is the key.
   */
  lemma ExtractFirstSentenceUnique(text: string, delimiters: set<char>, p: string)
    requires |p| <= |text| && p == text[..|p|]
    requires DelimiterFree(p, delimiters)
    requires |p| < |text| ==> text[|p|] in delimiters
    ensures p == ExtractFirstSentence(text, delimiters)
  {
  }
}
