/**
 * The typewriter effect of the hero sections (components/hero-section.tsx:448-478;
 * components/hero.tsx:257-287 is the same code). Three state cells -- the index of the
 * current word, the displayed text and a deleting flag -- are rewritten by a timer tick:
 * the text grows by one character until it is the whole word, then shrinks by one until
 * it is empty, and then the next word (cyclically) starts.
 */
module Typewriter {

  /** Clamps a `substring` argument into [0, len], as JavaScript does. */
  function Clamp(k: int, len: nat): (r: nat)
    ensures r <= len
    ensures 0 <= k <= len ==> r == k
    ensures k < 0 ==> r == 0
    ensures len < k ==> r == len
  {
    if k < 0 then 0 else if k > len then len else k
  }

  /**
   * JavaScript's `s.substring(start, end)`: both arguments are clamped into [0, |s|]
   * and swapped when the first exceeds the second.
   */
  function JsSubstring(s: string, start: int, end: int): (r: string)
    ensures 0 <= start <= end <= |s| ==> r == s[start..end]
    ensures 0 <= end <= start <= |s| ==> r == s[end..start]
    ensures |r| <= |s|
  {
    var a := Clamp(start, |s|);
    var b := Clamp(end, |s|);
    if a <= b then s[a..b] else s[b..a]
  }

  /** `s.substring(0, k)` is the prefix of length k, clamped: "" for k <= 0, s for k >= |s|. */
  lemma SubstringFromZero(s: string, k: int)
    ensures k <= 0 ==> JsSubstring(s, 0, k) == []
    ensures 0 <= k <= |s| ==> JsSubstring(s, 0, k) == s[..k]
    ensures |s| <= k ==> JsSubstring(s, 0, k) == s
    ensures JsSubstring(s, 0, k) <= s
  {
  }

  /** The three state cells: `currentTextIndex`, `currentText`, `isDeleting`. */
  datatype State = State(index: nat, text: string, deleting: bool)

  /** The state the component mounts with. */
  const Initial: State := State(0, "", false)

  /** What the component relies on: the index names a word, and the text is a prefix of it. */
  ghost predicate Displayable(texts: seq<string>, s: State)
  {
    s.index < |texts| && s.text <= texts[s.index]
  }

  /**
   * One timer tick. All three setters act on the values of the render that scheduled
   * the tick, so the new state is a function of the old one.
   */
  function Step(texts: seq<string>, s: State): (r: State)
    requires s.index < |texts|
    ensures Displayable(texts, r)
  {
    var fullText := texts[s.index];
    SubstringFromZero(fullText, |s.text| + 1);
    SubstringFromZero(fullText, |s.text| - 1);
    if !s.deleting then
      State(s.index, JsSubstring(fullText, 0, |s.text| + 1), s.text == fullText)
    else
      State(if s.text == "" then (s.index + 1) % |texts| else s.index,
            JsSubstring(fullText, 0, |s.text| - 1),
            s.text != "")
  }

  /** The delay, in milliseconds, with which the next tick is scheduled from state `s`. */
  function Delay(s: State): (ms: nat)
    ensures ms == 50 || ms == 100
    ensures ms == 50 <==> s.deleting
  {
    if s.deleting then 50 else 100
  }

  /** The state after `k` ticks. */
  function StepN(texts: seq<string>, s: State, k: nat): (r: State)
    requires s.index < |texts|
    ensures r.index < |texts|
    decreases k
  {
    if k == 0 then s else StepN(texts, Step(texts, s), k - 1)
  }

  /** The sum, in milliseconds, of the delays scheduled before each of the first `k` ticks from `s`. */
  function ElapsedN(texts: seq<string>, s: State, k: nat): nat
    requires s.index < |texts|
    decreases k
  {
    if k == 0 then 0 else Delay(s) + ElapsedN(texts, Step(texts, s), k - 1)
  }

  /** Typing, before the word is complete: exactly one more character of the word appears. */
  lemma TypingStep(texts: seq<string>, s: State)
    requires Displayable(texts, s) && !s.deleting && s.text != texts[s.index]
    ensures Step(texts, s) == State(s.index, texts[s.index][..|s.text| + 1], false)
    ensures |Step(texts, s).text| == |s.text| + 1
  {
    var w := texts[s.index];
    assert |s.text| < |w|;
    SubstringFromZero(w, |s.text| + 1);
  }

  /** Typing, the tick that sees the whole word: the text stays, and deleting starts. */
  lemma TypingFlip(texts: seq<string>, s: State)
    requires s.index < |texts| && !s.deleting && s.text == texts[s.index]
    ensures Step(texts, s) == State(s.index, s.text, true)
  {
    SubstringFromZero(s.text, |s.text| + 1);
  }

  /** Deleting a non-empty text: exactly its last character disappears. */
  lemma DeletingStep(texts: seq<string>, s: State)
    requires Displayable(texts, s) && s.deleting && s.text != ""
    ensures Step(texts, s) == State(s.index, s.text[..|s.text| - 1], true)
    ensures |Step(texts, s).text| == |s.text| - 1
  {
    var w := texts[s.index];
    SubstringFromZero(w, |s.text| - 1);
    assert s.text == w[..|s.text|];
  }

  /**
   * Deleting, the tick that sees "": `substring(0, -1)` clamps to "", typing starts again,
   * and the index moves to the next word, cyclically.
   */
  lemma DeletingFlip(texts: seq<string>, s: State)
    requires s.index < |texts| && s.deleting && s.text == ""
    ensures Step(texts, s) == State((s.index + 1) % |texts|, "", false)
  {
    SubstringFromZero(texts[s.index], -1);
  }

  /** The index changes only on the deleting tick that sees "". */
  lemma IndexMovesOnlyAtFlip(texts: seq<string>, s: State)
    requires s.index < |texts|
    ensures !(s.deleting && s.text == "") ==> Step(texts, s).index == s.index
    ensures s.deleting && s.text == "" ==> Step(texts, s).index == (s.index + 1) % |texts|
  {
  }

  /**
   * Every tick changes at least one of the three cells, so the effect, which depends on
   * all three, schedules a new tick after each one.
   */
  lemma StepAlwaysChanges(texts: seq<string>, s: State)
    requires Displayable(texts, s)
    ensures Step(texts, s) != s
  {
    if !s.deleting {
      if s.text == texts[s.index] { TypingFlip(texts, s); } else { TypingStep(texts, s); }
    } else {
      if s.text == "" { DeletingFlip(texts, s); } else { DeletingStep(texts, s); }
    }
  }

  lemma {:induction false} StepNAdd(texts: seq<string>, s: State, j: nat, k: nat)
    requires s.index < |texts|
    ensures StepN(texts, s, j + k) == StepN(texts, StepN(texts, s, j), k)
    ensures ElapsedN(texts, s, j + k) == ElapsedN(texts, s, j) + ElapsedN(texts, StepN(texts, s, j), k)
    decreases j
  {
    if j > 0 {
      StepNAdd(texts, Step(texts, s), j - 1, k);
    }
  }

  /** From the prefix of length k, typing reaches the flip to deleting in |word| - k + 1 ticks, each scheduled 100 ms after the last. */
  lemma {:induction false} TypingRun(texts: seq<string>, i: nat, k: nat)
    requires i < |texts| && k <= |texts[i]|
    ensures StepN(texts, State(i, texts[i][..k], false), |texts[i]| - k + 1) == State(i, texts[i], true)
    ensures ElapsedN(texts, State(i, texts[i][..k], false), |texts[i]| - k + 1) == 100 * (|texts[i]| - k + 1)
    ensures forall j :: 0 <= j <= |texts[i]| - k + 1 ==> StepN(texts, State(i, texts[i][..k], false), j).index == i
    decreases |texts[i]| - k
  {
    var w := texts[i];
    var s := State(i, w[..k], false);
    if k == |w| {
      assert w[..k] == w;
      TypingFlip(texts, s);
      forall j | 0 <= j <= 1 ensures StepN(texts, s, j).index == i {
        if j == 1 { assert StepN(texts, s, 1) == StepN(texts, Step(texts, s), 0); }
      }
    } else {
      TypingStep(texts, s);
      assert w[..k][..k + 1 - 1] == w[..k];
      assert Step(texts, s) == State(i, w[..k + 1], false) by {
        assert |s.text| + 1 == k + 1;
      }
      TypingRun(texts, i, k + 1);
      forall j | 0 <= j <= |w| - k + 1 ensures StepN(texts, s, j).index == i {
        if j > 0 { assert StepN(texts, s, j) == StepN(texts, Step(texts, s), j - 1); }
      }
    }
  }

  /** From a deleting prefix of length k, the word is gone and the next one starts after k + 1 ticks, each scheduled 50 ms after the last. */
  lemma {:induction false} DeletingRun(texts: seq<string>, i: nat, k: nat)
    requires i < |texts| && k <= |texts[i]|
    ensures StepN(texts, State(i, texts[i][..k], true), k + 1) == State((i + 1) % |texts|, "", false)
    ensures ElapsedN(texts, State(i, texts[i][..k], true), k + 1) == 50 * (k + 1)
    ensures forall j :: 0 <= j <= k ==> StepN(texts, State(i, texts[i][..k], true), j).index == i
    decreases k
  {
    var w := texts[i];
    var s := State(i, w[..k], true);
    if k == 0 {
      DeletingFlip(texts, s);
      assert StepN(texts, s, 1) == StepN(texts, Step(texts, s), 0);
    } else {
      DeletingStep(texts, s);
      assert w[..k][..k - 1] == w[..k - 1];
      DeletingRun(texts, i, k - 1);
      forall j | 0 <= j <= k ensures StepN(texts, s, j).index == i {
        if j > 0 { assert StepN(texts, s, j) == StepN(texts, Step(texts, s), j - 1); }
      }
    }
  }

  /**
   * A word of length L is typed in L + 1 ticks and deleted in L + 1 ticks; only then does
   * the next word (cyclically) start. The delays scheduled over the cycle add up to
   * 150 * (L + 1) milliseconds.
   */
  lemma WordCycle(texts: seq<string>, i: nat)
    requires i < |texts|
    ensures StepN(texts, State(i, "", false), |texts[i]| + 1) == State(i, texts[i], true)
    ensures StepN(texts, State(i, "", false), 2 * (|texts[i]| + 1)) == State(if i + 1 == |texts| then 0 else i + 1, "", false)
    ensures ElapsedN(texts, State(i, "", false), 2 * (|texts[i]| + 1)) == 150 * (|texts[i]| + 1)
  {
    var w := texts[i];
    var L := |w|;
    assert w[..0] == "";
    TypingRun(texts, i, 0);
    assert w[..L] == w;
    DeletingRun(texts, i, L);
    StepNAdd(texts, State(i, "", false), L + 1, L + 1);
    NextWord(i, |texts|);
  }

  /** The word after i, cyclically, without the modulus. */
  lemma NextWord(i: nat, n: nat)
    requires i < n
    ensures (i + 1) % n == if i + 1 == n then 0 else i + 1
  {
  }

  /** During those 2 * (L + 1) ticks the index stays on word i. */
  lemma WordKeepsIndex(texts: seq<string>, i: nat, j: nat)
    requires i < |texts| && j < 2 * (|texts[i]| + 1)
    ensures StepN(texts, State(i, "", false), j).index == i
  {
    var w := texts[i];
    var L := |w|;
    var s := State(i, "", false);
    assert w[..0] == "";
    TypingRun(texts, i, 0);
    if j > L + 1 {
      assert w[..L] == w;
      DeletingRun(texts, i, L);
      StepNAdd(texts, s, L + 1, j - (L + 1));
    }
  }

  /** The number of ticks that the first k words of the list take, each typed and deleted in full. */
  function RotationTicks(texts: seq<string>, k: nat): nat
    requires k <= |texts|
  {
    if k == 0 then 0 else RotationTicks(texts, k - 1) + 2 * (|texts[k - 1]| + 1)
  }

  /**
   * The words are shown in list order: after the ticks of the first k words, the effect is
   * at the start of word k (cyclically), with scheduled delays of 75 ms per tick on average. With
   * k = |texts| the effect is back in its initial state.
   */
  lemma {:induction false} Rotation(texts: seq<string>, k: nat)
    requires 0 < |texts| && k <= |texts|
    ensures StepN(texts, Initial, RotationTicks(texts, k)) == State(if k == |texts| then 0 else k, "", false)
    ensures ElapsedN(texts, Initial, RotationTicks(texts, k)) == 75 * RotationTicks(texts, k)
    ensures k == |texts| ==> StepN(texts, Initial, RotationTicks(texts, k)) == Initial
  {
    if k > 0 {
      var before := RotationTicks(texts, k - 1);
      var cycle := 2 * (|texts[k - 1]| + 1);
      var start := State(k - 1, "", false);
      assert StepN(texts, Initial, before) == start && ElapsedN(texts, Initial, before) == 75 * before by {
        Rotation(texts, k - 1);
      }
      WordCycle(texts, k - 1);
      Chain(texts, Initial, before, cycle, start);
    }
  }

  /** Two runs of ticks, the second starting where the first ends, make one run. */
  lemma Chain(texts: seq<string>, s: State, a: nat, b: nat, mid: State)
    requires s.index < |texts| && StepN(texts, s, a) == mid
    ensures StepN(texts, s, a + b) == StepN(texts, mid, b)
    ensures ElapsedN(texts, s, a + b) == ElapsedN(texts, s, a) + ElapsedN(texts, mid, b)
  {
    StepNAdd(texts, s, a, b);
  }

  /**
   * The component itself: three mutable cells advanced by a timer tick. The list of words
   * is a prop that the model keeps fixed.
   */
  class TypewriterEffect {
    const texts: seq<string>
    var currentTextIndex: nat
    var currentText: string
    var isDeleting: bool

    ghost predicate Valid()
      reads this
    {
      Displayable(texts, State(currentTextIndex, currentText, isDeleting))
    }

    function CurrentState(): State
      reads this
    {
      State(currentTextIndex, currentText, isDeleting)
    }

    /** The source indexes `texts` and takes `% texts.length`, so it needs at least one word. */
    constructor (texts: seq<string>)
      requires |texts| > 0
      ensures Valid() && this.texts == texts && CurrentState() == Initial
    {
      this.texts := texts;
      currentTextIndex := 0;
      currentText := "";
      isDeleting := false;
    }

    /** The callback of the timeout set by the effect. */
    method Tick()
      requires Valid()
      modifies this
      ensures Valid()
      ensures CurrentState() == Step(texts, old(CurrentState()))
    {
      var fullText := texts[currentTextIndex];
      if !isDeleting {
        var typed := JsSubstring(fullText, 0, |currentText| + 1);
        if currentText == fullText {
          isDeleting := true;
        }
        currentText := typed;
      } else {
        var erased := JsSubstring(fullText, 0, |currentText| - 1);
        if currentText == "" {
          isDeleting := false;
          currentTextIndex := (currentTextIndex + 1) % |texts|;
        }
        currentText := erased;
      }
    }
  }
}
