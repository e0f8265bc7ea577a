/**
 * The hero title's typewriter effect (App.tsx): an interval callback that
 * shows `fullText.slice(0, i)`, advances a captured counter `i`, and clears
 * the interval once `i` passes the length of the text.
 */
module Typewriter {

  /** The hero title being typed out. */
  const HeroTitle: string := "Aspiring Tech Founder & AI-Driven Computer Scientist"

  /** The interval period, in milliseconds. */
  const TickMs: nat := 40

  /** The text on screen after `ticks` callbacks have run. */
  function Shown(fullText: string, ticks: nat): string
    requires ticks <= |fullText| + 1
  {
    if ticks == 0 then "" else fullText[..ticks - 1]
  }

  /**
   * Every text shown is a prefix of the full text and never longer than it,
   * each tick extends the previous text by at most one character, and the
   * last tick shows the full text.
   */
  lemma ShownIsGrowingPrefix(fullText: string, ticks: nat)
    requires ticks <= |fullText| + 1
    ensures |Shown(fullText, ticks)| <= |fullText|
    ensures Shown(fullText, ticks) == fullText[..|Shown(fullText, ticks)|]
    ensures ticks <= |fullText| ==>
              Shown(fullText, ticks) == Shown(fullText, ticks + 1) ||
              Shown(fullText, ticks) + [fullText[ticks - 1]] == Shown(fullText, ticks + 1)
    ensures ticks == |fullText| + 1 ==> Shown(fullText, ticks) == fullText
  {
  }

  /** The `Hero` component's title state and its running interval. */
  class Hero {
    const fullText: string
    var text: string
    /** The counter captured by the interval callback. */
    var i: nat
    /** Whether the interval is still set. */
    var running: bool

    /** The counter has run `i` ticks, whose last one showed `text`. */
    ghost predicate Valid()
      reads this
    {
      i <= |fullText| + 1 &&
      (running <==> i <= |fullText|) &&
      text == Shown(fullText, i)
    }

    /** Mounting: empty title, counter at 0, interval set. */
    constructor ()
      ensures Valid()
      ensures fullText == HeroTitle && text == "" && i == 0 && running
    {
      fullText := HeroTitle;
      text := "";
      i := 0;
      running := true;
    }

    /** One interval callback. */
    method Tick()
      requires Valid() && running
      modifies this
      ensures Valid()
      ensures i == old(i) + 1
      ensures text == fullText[..old(i)]
      ensures running <==> i <= |fullText|
    {
      text := fullText[..i];
      i := i + 1;
      if i > |fullText| {
        running := false;
      }
    }

    /**
     * The interval runs until it clears itself: that takes one tick per
     * character plus one, and leaves the full text on screen.
     */
    method Play() returns (ticks: nat)
      requires Valid()
      modifies this
      ensures Valid() && !running
      ensures text == fullText
      ensures ticks == |fullText| + 1 - old(i)
    {
      ticks := 0;
      while running
        invariant Valid()
        invariant old(i) <= i
        invariant ticks == i - old(i)
        decreases |fullText| + 1 - i
      {
        Tick();
        ticks := ticks + 1;
      }
    }
  }

  /**
   * Mounting the hero and letting its interval run: the site's title is
   * typed in 53 ticks, that is 2120 ms.
   */
  method TypeHeroTitle() returns (ticks: nat, shown: string)
    ensures shown == HeroTitle
    ensures ticks == 53 && ticks * TickMs == 2120
  {
    var hero := new Hero();
    ticks := hero.Play();
    shown := hero.text;
  }
}
