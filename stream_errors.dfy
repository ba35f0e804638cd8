/** The message `/stream` reports when fetching or streaming a video throws. */
module StreamErrors {
  import opened JsText

  /** The message used when no marker occurs in the error text. */
  const DefaultMessage := "Error creating audio stream"

  /**
   * The error-message chain of the `/stream` handler: the first marker found in
   * the thrown error's message decides, in the order written.
   */
  function StreamErrorMessage(message: string): (r: string)
    ensures r == DefaultMessage <==>
      && !Includes(message, "Video unavailable") && !Includes(message, "410")
      && !Includes(message, "403") && !Includes(message, "429")
    ensures Includes(message, "Video unavailable") ==> r == "Video is unavailable or private"
  {
    if Includes(message, "Video unavailable") then "Video is unavailable or private"
    else if Includes(message, "410") then "Video no longer exists"
    else if Includes(message, "403") then "Access forbidden - video may be region-locked"
    else if Includes(message, "429") then "Too many requests - please wait and try again"
    else DefaultMessage
  }

  /** One classification rule: a marker to look for and the message it selects. */
  datatype Rule = Rule(marker: string, text: string)

  /** The rules of the chain as an ordered table. */
  const Rules: seq<Rule> := [
    Rule("Video unavailable", "Video is unavailable or private"),
    Rule("410", "Video no longer exists"),
    Rule("403", "Access forbidden - video may be region-locked"),
    Rule("429", "Too many requests - please wait and try again")
  ]

  /** Reference classifier: the text of the first rule whose marker occurs, else the default. */
  function FirstMatch(rules: seq<Rule>, message: string, default: string): string
  {
    if rules == [] then default
    else if Includes(message, rules[0].marker) then rules[0].text
    else FirstMatch(rules[1..], message, default)
  }

  /** The rule that decides is the earliest one whose marker occurs in the message. */
  lemma {:induction false} FirstMatchPicksEarliest(rules: seq<Rule>, message: string, default: string, i: nat)
    requires i < |rules| && Includes(message, rules[i].marker)
    requires forall j :: 0 <= j < i ==> !Includes(message, rules[j].marker)
    ensures FirstMatch(rules, message, default) == rules[i].text
  {
    if i > 0 {
      FirstMatchPicksEarliest(rules[1..], message, default, i - 1);
    }
  }

  /** When no marker occurs the default message is used. */
  lemma {:induction false} FirstMatchDefault(rules: seq<Rule>, message: string, default: string)
    requires forall j :: 0 <= j < |rules| ==> !Includes(message, rules[j].marker)
    ensures FirstMatch(rules, message, default) == default
  {
    if rules != [] {
      FirstMatchDefault(rules[1..], message, default);
    }
  }

  /** The hand-written chain is exactly the first-match classifier over the ordered rules. */
  lemma StreamErrorMessageIsFirstMatch(message: string)
    ensures StreamErrorMessage(message) == FirstMatch(Rules, message, DefaultMessage)
  {
    var r1 := Rules[1..];
    var r2 := r1[1..];
    var r3 := r2[1..];
    assert r3 == [Rule("429", "Too many requests - please wait and try again")];
    assert r3[1..] == [];
    assert FirstMatch(r3, message, DefaultMessage)
        == if Includes(message, "429") then "Too many requests - please wait and try again" else DefaultMessage;
    assert r2[0] == Rule("403", "Access forbidden - video may be region-locked");
    assert FirstMatch(r2, message, DefaultMessage)
        == if Includes(message, "403") then "Access forbidden - video may be region-locked"
           else FirstMatch(r3, message, DefaultMessage);
    assert r1[0] == Rule("410", "Video no longer exists");
    assert FirstMatch(r1, message, DefaultMessage)
        == if Includes(message, "410") then "Video no longer exists"
           else FirstMatch(r2, message, DefaultMessage);
  }

  /** Text that lacks a character of `t` cannot include `t`. */
  lemma MissingCharExcludes(s: string, t: string, k: nat)
    requires k < |t|
    requires forall j :: 0 <= j < |s| ==> s[j] != t[k]
    ensures !Includes(s, t)
  {
    IncludesIff(s, t);
  }

  /**
   * A message holding both "403" and "429", and neither of the two earlier
   * markers, is classified by the earlier of the two rules, "403".
   */
  lemma ForbiddenBeatsRateLimit(m: string)
    requires Includes(m, "403") && Includes(m, "429")
    requires !Includes(m, "Video unavailable") && !Includes(m, "410")
    ensures StreamErrorMessage(m) == "Access forbidden - video may be region-locked"
  {
  }

  /** "Video unavailable" is tested first, so it decides even when 403 and 429 also occur. */
  lemma UnavailableBeatsHttpCodes(m: string)
    requires Includes(m, "Video unavailable") && Includes(m, "403") && Includes(m, "429")
    ensures StreamErrorMessage(m) == "Video is unavailable or private"
  {
  }

  /** The message "HTTP 403 / 429" gets the 403 text. */
  lemma ForbiddenBeatsRateLimitExample(m: string)
    requires m == "HTTP 403 / 429"
    ensures StreamErrorMessage(m) == "Access forbidden - video may be region-locked"
  {
    assert forall j :: 0 <= j < |m| ==> m[j] != 'V' && m[j] != '1';
    MissingCharExcludes(m, "Video unavailable", 0);
    MissingCharExcludes(m, "410", 1);
    IncludesIff(m, "403");
    IncludesIff(m, "429");
    assert OccursAt(m, "403", 5);
    assert OccursAt(m, "429", 11);
    ForbiddenBeatsRateLimit(m);
  }
}
