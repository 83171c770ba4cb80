/** `TypewriterText` in the chat window: reveals its text one character per
    timer tick and calls `onComplete` once the whole text is shown. A tick is
    one run of the animation effect followed by its timer firing, and the
    return value of a tick says whether `onComplete` was called. */
module Typewriter {

  class TypewriterText {
    var text: string
    var displayedText: string
    var currentIndex: nat
    var isComplete: bool
    /** How many times `onComplete` has been called since the last reset. */
    ghost var completions: nat

    ghost predicate Valid()
      reads this
    {
      && currentIndex <= |text|
      && displayedText == text[..currentIndex]
      && (isComplete ==> currentIndex == |text|)
      && completions == (if isComplete then 1 else 0)
    }

    /** Mounting: nothing shown yet. */
    constructor (t: string)
      ensures Valid()
      ensures text == t && displayedText == [] && currentIndex == 0 && !isComplete
    {
      text := t;
      displayedText := [];
      currentIndex := 0;
      isComplete := false;
      completions := 0;
    }

    /** One tick. While characters remain, the next one is appended and the
        index moves on by exactly one. After the last character the first tick
        calls `onComplete` and marks the animation complete; every later tick
        does nothing. */
    method Tick() returns (fired: bool)
      requires Valid()
      modifies this
      ensures Valid()
      ensures text == old(text)
      ensures old(currentIndex) < |text| ==>
                && displayedText == old(displayedText) + [text[old(currentIndex)]]
                && currentIndex == old(currentIndex) + 1
                && isComplete == old(isComplete)
                && !fired
      ensures old(currentIndex) == |text| ==>
                && displayedText == old(displayedText)
                && currentIndex == old(currentIndex)
                && isComplete
                && (fired <==> !old(isComplete))
      ensures completions == old(completions) + (if fired then 1 else 0)
      ensures completions <= 1
    {
      fired := false;
      if currentIndex < |text| {
        displayedText := displayedText + [text[currentIndex]];
        currentIndex := currentIndex + 1;
      } else if !isComplete {
        isComplete := true;
        completions := completions + 1;
        fired := true;
      }
    }

    /** A new target text: the reveal starts again from nothing. Rendering the
        same text again changes nothing. */
    method SetText(t: string)
      requires Valid()
      modifies this
      ensures Valid()
      ensures text == t
      ensures t != old(text) ==> displayedText == [] && currentIndex == 0 && !isComplete
      ensures t == old(text) ==>
                displayedText == old(displayedText) && currentIndex == old(currentIndex)
                && isComplete == old(isComplete)
    {
      if t != text {
        text := t;
        displayedText := [];
        currentIndex := 0;
        isComplete := false;
        completions := 0;
      }
    }
  }
}
