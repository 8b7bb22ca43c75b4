/**
 * The intro narration of QuizIntroView: a fixed list of texts revealed one at a time.
 * Each reveal of index `i` shows `texts[i]`; the last one also shows the start button,
 * every other one schedules the reveal of `i + 1`. The delays between reveals belong
 * to the clock, which here is whoever calls `Tick`.
 */
module Intro {
  import opened Optional

  /** The view's fixed narration. */
  const IntroTexts: seq<string> :=
    [ "Hey there! Welcome to Three-gonometry! Get ready to learn trigonometry in a super fun way with three awesome mini-games.",
      "First up, we're diving into the world of trigonometric functions. Ever wonder how the angles and sides of a triangle are related? You're about to find out!",
      "Next, we'll tackle the Cartesian coordinate system, we'll look into quadrant system. Sounds fancy, right? It's all about plotting points and trigonometric functions, and it's key to getting trigonometry down.",
      "Last but not least, we're surfing the waves with sine waves in trigonometry!",
      "Ready to get started? Let's jump right in!" ]

  /**
   * The displayed text, whether the start button is shown, and the index the pending
   * delayed call will reveal (None when nothing is pending).
   */
  datatype IntroState = IntroState(text: string, showButton: bool, scheduled: Option<int>)

  /** The state before the view appears. */
  const Initial: IntroState := IntroState("", false, None)

  /** One call of `animateTextsSequentially(texts, currentIndex: i)`. */
  function Animate(texts: seq<string>, s: IntroState, i: int): (r: IntroState)
    // an index outside the list has no effect
    ensures !(0 <= i < |texts|) ==> r == s
    // a valid index shows its text
    ensures 0 <= i < |texts| ==> r.text == texts[i]
    // only the last index shows the button, and it is never hidden again
    ensures 0 <= i < |texts| ==> (r.showButton <==> s.showButton || i == |texts| - 1)
    // every index but the last schedules its successor; the last schedules nothing
    ensures 0 <= i < |texts| - 1 ==> r.scheduled == Some(i + 1)
    ensures 0 <= i == |texts| - 1 ==> r.scheduled == None
  {
    if 0 <= i < |texts| then
      IntroState(texts[i], s.showButton || i == |texts| - 1, if i != |texts| - 1 then Some(i + 1) else None)
    else
      s
  }

  /** The clock runs the pending delayed call, if any. */
  function Tick(texts: seq<string>, s: IntroState): (r: IntroState)
    // with nothing pending the clock has nothing to run
    ensures s.scheduled.None? ==> r == s
    // a pending call reveals the index it carries
    ensures s.scheduled.Some? && 0 <= s.scheduled.value < |texts| ==> r.text == texts[s.scheduled.value]
    // the next pending index is always one past the one just revealed: indices strictly increase
    ensures r.scheduled.Some? ==> s.scheduled.Some? && r.scheduled.value == s.scheduled.value + 1
  {
    match s.scheduled
    case None => s
    case Some(i) => Animate(texts, s.(scheduled := None), i)
  }

  /** `n` clock ticks. */
  function Ticks(texts: seq<string>, s: IntroState, n: nat): IntroState
    decreases n
  {
    if n == 0 then s else Ticks(texts, Tick(texts, s), n - 1)
  }

  /** `onAppear`: the reveal starts at index 0. */
  function Appear(texts: seq<string>, s: IntroState): IntroState {
    Animate(texts, s, 0)
  }

  /**
   * After appearing and `n` ticks, reveal number `n` has shown `texts[n]`: the texts are
   * visited as 0, 1, ..., in order, and the button appears with the last text and not before.
   */
  lemma {:induction false} RevealOrder(texts: seq<string>, n: nat)
    requires n < |texts|
    ensures Ticks(texts, Appear(texts, Initial), n) ==
              IntroState(texts[n], n == |texts| - 1, if n < |texts| - 1 then Some(n + 1) else None)
  {
    if n > 0 {
      RevealOrder(texts, n - 1);
      TicksLast(texts, Appear(texts, Initial), n - 1);
    }
  }

  /** The last of `n + 1` ticks comes after the first `n`. */
  lemma {:induction false} TicksLast(texts: seq<string>, s: IntroState, n: nat)
    ensures Ticks(texts, s, n + 1) == Tick(texts, Ticks(texts, s, n))
    decreases n
  {
    if n > 0 {
      TicksLast(texts, Tick(texts, s), n - 1);
    }
  }

  /** Once the last text is shown nothing is pending, so further ticks change nothing. */
  lemma {:induction false} RevealTerminates(texts: seq<string>, n: nat)
    requires 0 < |texts| && |texts| - 1 <= n
    ensures Ticks(texts, Appear(texts, Initial), n) == IntroState(texts[|texts| - 1], true, None)
    decreases n
  {
    if n == |texts| - 1 {
      RevealOrder(texts, n);
    } else {
      RevealTerminates(texts, n - 1);
      TicksLast(texts, Appear(texts, Initial), n - 1);
    }
  }

  /** With no texts, appearing does nothing. */
  lemma {:induction false} EmptyNarration(texts: seq<string>, n: nat)
    requires texts == []
    ensures Ticks(texts, Appear(texts, Initial), n) == Initial
    decreases n
  {
    if n > 0 {
      EmptyNarration(texts, n - 1);
      TicksLast(texts, Appear(texts, Initial), n - 1);
    }
  }

  /** QuizIntroView's displayed text and button flag, with the pending delayed call. */
  class QuizIntroView {
    const texts: seq<string>
    var text: string
    var showButton: bool
    var scheduled: Option<int>

    function State(): IntroState
      reads this
    {
      IntroState(text, showButton, scheduled)
    }

    constructor ()
      ensures texts == IntroTexts && State() == Initial
    {
      texts := IntroTexts;
      text := "";
      showButton := false;
      scheduled := None;
    }

    /** `animateTextsSequentially(texts, currentIndex)`. */
    method AnimateTextsSequentially(currentIndex: int)
      modifies this
      ensures State() == Animate(texts, old(State()), currentIndex)
    {
      if !(0 <= currentIndex < |texts|) {
        return;
      }
      text := texts[currentIndex];
      if currentIndex == |texts| - 1 {
        showButton := true;
      }
      if currentIndex != |texts| - 1 {
        scheduled := Some(currentIndex + 1);
      } else {
        scheduled := None;
      }
    }

    /** The clock fires the pending delayed call. */
    method FirePending()
      modifies this
      ensures State() == Tick(texts, old(State()))
    {
      if scheduled.Some? {
        var i := scheduled.value;
        scheduled := None;
        AnimateTextsSequentially(i);
      }
    }

    /**
     * The view appears and the clock runs until nothing is pending. `visited` lists the
     * indices revealed, in order.
     */
    method Run() returns (ghost visited: seq<int>)
      requires State() == Initial
      modifies this
      ensures |visited| == |texts| && forall k :: 0 <= k < |visited| ==> visited[k] == k
      // the n-th call of the chain (0 from onAppear, then one per clock tick) showed texts[visited[n]]
      ensures forall n :: 0 <= n < |visited| ==> Ticks(texts, Appear(texts, Initial), n).text == texts[visited[n]]
      ensures 0 < |texts| ==> State() == Ticks(texts, Appear(texts, Initial), |visited| - 1)
      ensures 0 < |texts| ==> State() == IntroState(texts[|texts| - 1], true, None)
      ensures texts == [] ==> State() == Initial
    {
      visited := if 0 < |texts| then [0] else [];
      AnimateTextsSequentially(0);
      while scheduled.Some?
        invariant |visited| <= |texts|
        invariant forall k :: 0 <= k < |visited| ==> visited[k] == k
        invariant 0 < |texts| ==> 0 < |visited|
        invariant 0 < |visited| ==> text == texts[|visited| - 1] && showButton == (|visited| == |texts|)
        invariant scheduled.Some? ==> scheduled == Some(|visited|) && |visited| < |texts|
        invariant scheduled.None? ==> |visited| == |texts|
        invariant texts == [] ==> State() == Initial
        invariant 0 < |visited| ==> State() == Ticks(texts, Appear(texts, Initial), |visited| - 1)
        decreases |texts| - |visited|
      {
        TicksLast(texts, Appear(texts, Initial), |visited| - 1);
        visited := visited + [scheduled.value];
        FirePending();
      }
      forall n | 0 <= n < |visited|
        ensures Ticks(texts, Appear(texts, Initial), n).text == texts[visited[n]]
      {
        RevealOrder(texts, n);
      }
    }
  }
}
