/**
 * The reveal rule of `SectionWrapper` (App.tsx): each page section holds one
 * boolean, false on mount, that an intersection observer flips. Entering the
 * viewport reveals the section; leaving it hides the section again only when
 * its top edge is still below the top of the viewport, so a section the
 * reader has scrolled past stays revealed.
 */
module Reveal {

  /** The part of an intersection entry the rule reads. */
  datatype Observation = Observation(isIntersecting: bool, top: real)

  /** An observation that hides the section: it left downwards. */
  predicate Hides(e: Observation) {
    !e.isIntersecting && e.top > 0.0
  }

  /** The new visibility after one observation. */
  function Step(visible: bool, e: Observation): (r: bool)
  {
    if e.isIntersecting then true
    else if e.top > 0.0 then false
    else visible
  }

  /** Visibility after one callback per observation, in delivery order. */
  function AfterAll(visible: bool, es: seq<Observation>): bool
    decreases |es|
  {
    if es == [] then visible else AfterAll(Step(visible, es[0]), es[1..])
  }

  /**
   * The three cases of one step: an intersecting entry reveals, a
   * non-intersecting one whose top is below the viewport top hides, and a
   * non-intersecting one above the viewport top changes nothing.
   */
  lemma StepCases(visible: bool, e: Observation)
    ensures e.isIntersecting ==> Step(visible, e)
    ensures Hides(e) ==> !Step(visible, e)
    ensures !e.isIntersecting && e.top <= 0.0 ==> Step(visible, e) == visible
  {
  }

  /** No observation in `es` hides the section. */
  ghost predicate NoneHides(es: seq<Observation>) {
    forall j :: 0 <= j < |es| ==> !Hides(es[j])
  }

  /**
   * The reveal condition over a run: some observation intersected and none
   * after it hid the section, or the section was revealed already and no
   * observation hid it.
   */
  ghost predicate RevealedBy(visible: bool, es: seq<Observation>) {
    (exists i :: 0 <= i < |es| && es[i].isIntersecting && NoneHides(es[i + 1..])) ||
    (visible && NoneHides(es))
  }

  /** The reveal condition of a run, in terms of its first step. */
  lemma RevealedByUnfold(visible: bool, es: seq<Observation>)
    requires es != []
    ensures RevealedBy(visible, es) <==> RevealedBy(Step(visible, es[0]), es[1..])
  {
  }

  /**
   * After a run of observations the section is revealed exactly when the
   * reveal condition holds of the run.
   */
  lemma {:induction false} AfterAllRevealed(visible: bool, es: seq<Observation>)
    ensures AfterAll(visible, es) <==> RevealedBy(visible, es)
    decreases |es|
  {
    if es == [] {
    } else {
      AfterAllRevealed(Step(visible, es[0]), es[1..]);
      RevealedByUnfold(visible, es);
    }
  }

  /**
   * A revealed section that only ever reports leaving with its top edge at or
   * above the viewport top (it has been scrolled past) stays revealed.
   */
  lemma {:induction false} ScrolledPastStaysRevealed(es: seq<Observation>)
    requires forall j :: 0 <= j < |es| ==> es[j].isIntersecting || es[j].top <= 0.0
    ensures AfterAll(true, es)
    decreases |es|
  {
    if es != [] {
      assert Step(true, es[0]);
      ScrolledPastStaysRevealed(es[1..]);
    }
  }

  /** One mounted `SectionWrapper`. */
  class Section {
    var isVisible: bool

    /** Mounting: every section starts hidden. */
    constructor ()
      ensures !isVisible
    {
      isVisible := false;
    }

    /**
     * The observer callback. It destructures the batch as `([entry])`, so it
     * reads the first entry only; the observer never delivers an empty batch.
     */
    method Observe(entries: seq<Observation>)
      requires |entries| > 0
      modifies this
      ensures isVisible == Step(old(isVisible), entries[0])
      ensures entries[0].isIntersecting ==> isVisible
      ensures Hides(entries[0]) ==> !isVisible
      ensures !entries[0].isIntersecting && entries[0].top <= 0.0 ==> isVisible == old(isVisible)
    {
      var entry := entries[0];
      if entry.isIntersecting {
        isVisible := true;
      } else if entry.top > 0.0 {
        isVisible := false;
      }
    }
  }
}
