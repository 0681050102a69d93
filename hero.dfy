/**
 * The two places the typewriter is mounted, each with its own fixed list of three words.
 * Both run the same tick rule (module Typewriter); these lemmas follow that rule through
 * one full rotation of the concrete list.
 */
module HeroSection {
  import opened Typewriter

  /** The words shown under the name in the hero section. */
  const Words: seq<string> := ["Computer Science Student", "Software Developer", "AI Enthusiast"]

  /**
   * The three words are shown in order, each typed and deleted in full, and after 116 ticks
   * (whose scheduled delays add up to 8700 ms) the effect is back in its initial state.
   */
  lemma FullRotation()
    ensures RotationTicks(Words, |Words|) == 116
    ensures StepN(Words, Initial, RotationTicks(Words, |Words|)) == Initial
    ensures ElapsedN(Words, Initial, RotationTicks(Words, |Words|)) == 8700
  {
    Rotation(Words, |Words|);
  }
}

module Hero {
  import opened Typewriter

  /** The words shown by the alternative hero component. */
  const Words: seq<string> := ["Full-Stack Developer", "UI/UX Designer", "3D Enthusiast"]

  /**
   * The three words are shown in order and the list wraps back to the first: after 100
   * ticks (whose scheduled delays add up to 7500 ms) the effect is back in its initial state.
   */
  lemma FullRotation()
    ensures RotationTicks(Words, |Words|) == 100
    ensures StepN(Words, Initial, RotationTicks(Words, |Words|)) == Initial
    ensures ElapsedN(Words, Initial, RotationTicks(Words, |Words|)) == 7500
  {
    Rotation(Words, |Words|);
  }
}
