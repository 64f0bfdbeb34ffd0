/**
 * What the two provider adapters share: the abstract outcome of one SDK call, `JSON.parse` and
 * `JSON.stringify` as abstract decoder and encoder, and the cleaning of the API key read from the
 * environment (both adapters apply the same expression).
 */
module Provider {
  import opened Wrappers
  import opened Text
  import opened Domain

  /** One SDK call either yields the response text (possibly empty) or throws an Error. */
  datatype CallOutcome = Responded(text: string) | Failed(message: string)

  /** `JSON.parse` of a response text into a listing object; `None` when it throws. */
  type Decoder = string -> Option<Listing>

  /** `JSON.parse(text)` through the decoder: the empty text is not JSON, so it always throws. */
  function ParseJson(decode: Decoder, text: string): (r: Option<Listing>)
    ensures text == "" ==> r.None?
    ensures text != "" ==> r == decode(text)
  {
    if text == "" then None else decode(text)
  }

  /** `JSON.stringify` of a listing object. */
  type Encoder = Listing -> string

  predicate IsQuote(c: char) {
    c == '"' || c == '\''
  }

  /** The characters the regular-expression `.` does not match. */
  predicate IsLineTerminator(c: char) {
    c == '\n' || c == '\r' || c == '\U{2028}' || c == '\U{2029}'
  }

  /** The key matches `/^["'](.*)["']$/`: a quote first, a quote last (either kind, independently)
      and no line terminator in between. */
  predicate IsQuotedKey(s: string) {
    && |s| >= 2 && IsQuote(s[0]) && IsQuote(s[|s| - 1])
    && forall i :: 1 <= i < |s| - 1 ==> !IsLineTerminator(s[i])
  }

  /**
   * `apiKey ? apiKey.replace(/^["'](.*)["']$/, '$1') : ''`: an unset key becomes "", a quoted key
   * loses its first and last character, any other key is kept.
   */
  function CleanApiKey(key: Option<string>): (r: string)
    ensures key.None? ==> r == ""
    ensures key.Some? ==>
              || r == key.value
              || (&& |key.value| >= 2 && IsQuote(key.value[0]) && IsQuote(key.value[|key.value| - 1])
                  && key.value == [key.value[0]] + r + [key.value[|key.value| - 1]])
  {
    if key.None? then ""
    else if IsQuotedKey(key.value) then key.value[1..|key.value| - 1]
    else key.value
  }

  /** Exactly one pair of surrounding quotes is removed, whichever the kinds of the two quotes. */
  lemma CleanStripsOnePair(lead: char, k: string, trail: char)
    requires IsQuote(lead) && IsQuote(trail)
    requires forall i :: 0 <= i < |k| ==> !IsLineTerminator(k[i])
    ensures CleanApiKey(Some([lead] + k + [trail])) == k
  {
    var s := [lead] + k + [trail];
    forall i | 1 <= i < |s| - 1 ensures !IsLineTerminator(s[i]) {
      assert s[i] == k[i - 1];
    }
    assert s[1..|s| - 1] == k;
  }

  /** A key that does not start and end with a quote is used as it is. */
  lemma CleanKeepsUnquoted(s: string)
    requires |s| < 2 || !IsQuote(s[0]) || !IsQuote(s[|s| - 1])
    ensures CleanApiKey(Some(s)) == s
  {
  }
}
