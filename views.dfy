/**
 * The values the component's markup derives from its state: the continue
 * button's disabled flag, the options header, and the intro screen's
 * visibility conditions. Class strings and styles themselves are not modelled.
 */
module Views {
  import opened JsString

  /** `disabled={!boothNumber.trim()}`: disabled exactly when the booth text is
      all white space (the empty text included). */
  function ContinueDisabled(boothNumber: string): (r: bool)
    ensures r <==> AllWhiteSpace(boothNumber)
  {
    Trim(boothNumber) == []
  }

  /** The options screen's heading: `Booth ` followed by the booth text as
      typed, untrimmed. */
  function OptionsHeader(boothNumber: string): string
  {
    "Booth " + boothNumber
  }

  /** Different booth texts give different headings: the heading's text holds
      the booth text verbatim, untrimmed. */
  lemma OptionsHeaderInjective(a: string, b: string)
    requires OptionsHeader(a) == OptionsHeader(b)
    ensures a == b
  {
    assert a == OptionsHeader(a)[6..];
  }

  /** The intro container has its `opacity-100` class once progress reaches 1. */
  predicate IntroShown(introProgress: int) { introProgress >= 1 }

  /** The intro container has its fade-out classes (`opacity-0 translate-y-8
      scale-95`) once progress reaches 4. */
  predicate IntroLeaving(introProgress: int) { introProgress >= 4 }

  /** The letters spelled out on the intro screen, one `span` each. */
  const WelcomeLetters: seq<char> := ['W', 'e', 'l', 'c', 'o', 'm', 'e']

  /** Every letter is shown (`opacity-100 translate-y-0`) exactly while
      progress is 2 or 3. */
  predicate LetterShown(introProgress: int) { 2 <= introProgress < 4 }

  /** A letter's transition delay in milliseconds: 120 per position while the
      letters are shown, none otherwise. */
  function LetterDelay(introProgress: int, index: nat): nat
    requires index < |WelcomeLetters|
  {
    if LetterShown(introProgress) then index * 120 else 0
  }

  /** While shown, the letters come in from left to right, the last one
      720 ms after the first. */
  lemma LettersLeftToRight(introProgress: int, i: nat, j: nat)
    requires LetterShown(introProgress)
    requires i < j < |WelcomeLetters|
    ensures LetterDelay(introProgress, i) < LetterDelay(introProgress, j) <= 720
  {
  }
}
