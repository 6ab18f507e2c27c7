/** The language note added to model replies
    (utils.py, `format_response_with_language`). */
module Language {
  import PyStr

  /** "हिंदी" (Hindi, in Devanagari script). */
  const HINDI_DEVANAGARI: string := "\U{0939}\U{093F}\U{0902}\U{0926}\U{0940}"
  const HINGLISH: string := "Hinglish"
  const HINDI: string := "Hindi"

  /** The note appended to a reply that does not mention either language. */
  const NOTE: string := "\n\n*Note: Please ask me to translate this response into Hindi/Hinglish if needed.*"

  /** The reply already mentions Hindi or Hinglish. */
  predicate MentionsLanguage(response: string)
    ensures PyStr.Contains(response, HINDI) ==> MentionsLanguage(response)
    ensures MentionsLanguage(response) ==> |response| >= |HINDI|
  {
    PyStr.Contains(response, HINDI_DEVANAGARI) ||
    PyStr.Contains(response, HINGLISH) ||
    PyStr.Contains(response, HINDI)
  }

  /** `format_response_with_language`: a reply that mentions Hindi or Hinglish
      is returned as it is; any other reply gets the note appended. Either
      way the result mentions the languages and starts with the reply. */
  function FormatResponseWithLanguage(response: string): (r: string)
    ensures response <= r
    ensures r == response <==> MentionsLanguage(response)
    ensures !MentionsLanguage(response) ==> r[|response|..] == NOTE
    ensures MentionsLanguage(r)
  {
    if MentionsLanguage(response) then response
    else
      NoteMentionsHindi(response);
      response + NOTE
  }

  /** The note names Hindi, so any reply followed by it mentions Hindi. */
  lemma NoteMentionsHindi(response: string)
    ensures MentionsLanguage(response + NOTE)
  {
    var at := |response| + 55;
    assert NOTE[55] == 'H' && NOTE[56] == 'i' && NOTE[57] == 'n' && NOTE[58] == 'd' && NOTE[59] == 'i';
    assert NOTE[55..60] == HINDI;
    assert (response + NOTE)[at..at + |HINDI|] == NOTE[55..60];
    assert PyStr.OccursAt(response + NOTE, HINDI, at);
  }

  /** Formatting a formatted reply changes nothing. */
  lemma FormatIdempotent(response: string)
    ensures FormatResponseWithLanguage(FormatResponseWithLanguage(response)) ==
      FormatResponseWithLanguage(response)
  {
  }
}
