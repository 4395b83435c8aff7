/** The dashboard greeting. */
module WelcomeHeader {
  import opened Wrappers
  import opened Strings

  /** `displayName?.split(' ')[0] || 'friend'`. */
  function GreetingName(displayName: Option<string>): (name: string)
    ensures name != ""
    ensures displayName.None? ==> name == "friend"
    ensures displayName.Some? && Before(displayName.value, ' ') != "" ==> name == Before(displayName.value, ' ')
    ensures displayName.Some? && Before(displayName.value, ' ') == "" ==> name == "friend"
  {
    if displayName.Some? && Split(displayName.value, ' ')[0] != "" then Split(displayName.value, ' ')[0] else "friend"
  }

  /** A name other than the fallback is the display name's first word: no space, and a prefix of it. */
  lemma GreetingIsFirstWord(displayName: Option<string>)
    requires GreetingName(displayName) != "friend"
    ensures displayName.Some?
    ensures ' ' !in GreetingName(displayName)
    ensures StartsWith(displayName.value, GreetingName(displayName))
  {
  }

  /** A leading space makes the first word empty, so the greeting falls back. */
  lemma LeadingSpaceFallsBack(rest: string)
    ensures GreetingName(Some(" " + rest)) == "friend"
  {
    assert Find(" " + rest, ' ') == 0;
  }
}
