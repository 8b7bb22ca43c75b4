# Threegonometry interaction logic in Dafny

Threegonometry is a SwiftUI app that teaches trigonometry with three mini-games joined by
narration screens. This project models the state logic behind three of its views and proves
what their branching code promises:

- **QuizView** (`quiz.dfy`, module `Quiz`). Three questions are shown in order. A correct pick
  moves to the next question, or finishes the quiz on the last one. A wrong pick keeps the
  progress and shows that question's `wrongAnswerPrompt` as an alert. `Answer` is the button
  action as a function on the view's state. `QuizView.Select` is the same action written as a
  method on a class that holds the `@State` fields.
- **QuadrantView / QuadrantSectionView** (`quadrant.dfy`, module `Quadrant`). Four triangles
  have ids `I` to `IV`. The section labelled `q` accepts a drop of triangle `id` only when
  `id == q`. An accepted drop writes `q` into the first triangle with that id, updating the
  `items` array in place (`QuadrantView.OnDrop`). A rejected drop, or one with an unknown id,
  changes nothing. The game is complete (`allItemsPlaced`) once no triangle is left in the tray.
  The tray and the sections are the two `filter`s over `items`.
- **QuizIntroView** (`intro.dfy`, module `Intro`). `animateTextsSequentially(texts, i)` shows
  `texts[i]`. At the last index it also shows the start button. At every other index it
  schedules the call for `i + 1`. The model keeps the delayed call as a pending index
  (`scheduled`). An external clock fires that call (`Tick` / `FirePending`), so the delays
  themselves are not part of the model.

`optional.dfy` holds the `Option` type that stands for Swift's optionals.

A few facts about the code shape the model:

- The answer button's action has no guard for a finished quiz, because no option button
  exists once `isQuizFinished` is set (QuizView.swift:44). The model keeps the action total,
  as the code writes it. `OptionButtons` offers no buttons for a finished quiz, and
  `FinishedIsFinal` proves that nothing can undo the finish.
- A drop whose id matches no triangle is silently ignored, and the border colour does not
  change (QuadrantView.swift:239). The model returns `UnknownItem` and leaves the items unchanged.
- A question's options are an ordered array, and a triangle's `id` doubles as the label of
  the section it belongs in. The model follows both.

## Model

| member | source | states |
|---|---|---|
| `Quiz.Questions` | Threegonometry.swiftpm/Views/QuizView.swift:18-22 | The list has three questions with distinct texts, and each question's correct answer is one of its option buttons. |
| `Quiz.Answer` | Threegonometry.swiftpm/Views/QuizView.swift:64-89 | A correct pick before the last question increments the index by exactly one and changes nothing else. A correct pick on the last question sets the finished flag and keeps the index. A wrong pick keeps index and flag, sets the alert title to the current question's prompt and raises the alert. The index stays in range, the quiz finishes only on its last question, and progress never goes back. |
| `Quiz.CorrectRun` | Threegonometry.swiftpm/Views/QuizView.swift:65-69 | From question `i`, `m` correct picks in order reach question `i + m`. If `i + m` is the number of questions, they instead finish the quiz on the last index. The alert is untouched either way. |
| `Quiz.FinishesAfterAllCorrect` | Threegonometry.swiftpm/Views/QuizView.swift:64-69 | From the start, the first `k` correct answers finish the quiz iff `k` equals the number of questions. Before that, the index is `k`. |
| `Quiz.FinishedIsFinal` | Threegonometry.swiftpm/Views/QuizView.swift:44-69 | A finished quiz offers no option buttons. No sequence of picks unsets the flag or moves the index. |
| `Quiz.OptionButtons` | Threegonometry.swiftpm/Views/QuizView.swift:44-63 | A finished quiz offers no option buttons. An unfinished one offers exactly the current question's options, and the correct answer is among them. |
| `Quiz.QuizView.constructor` | Threegonometry.swiftpm/Views/QuizView.swift:18-28 | The view starts on question 0, not finished, with no alert, over the fixed question list. |
| `Quiz.QuizView.Select` | Threegonometry.swiftpm/Views/QuizView.swift:64-89 | The button action updates the `@State` fields exactly as `Answer` does, and keeps the index in range. |
| `Quadrant.InitialItemsValid` | Threegonometry.swiftpm/Views/QuadrantView.swift:34-39 | The view starts with four triangles. Their ids are distinct section labels, all of them sit in the tray, and the game is not complete. |
| `Quadrant.FirstIndex` | Threegonometry.swiftpm/Views/QuadrantView.swift:239 | It returns the smallest index whose id matches. It returns none iff no id matches. |
| `Quadrant.Drop` | Threegonometry.swiftpm/Views/QuadrantView.swift:239-246 | Length, ids and images never change. An unknown id changes nothing, and the outcome is `UnknownItem` iff no id matches. A drop onto another section is rejected and changes nothing. A drop is accepted iff the id equals the section label (`isDropAllowed`, lines 267-273). An accepted drop sets only the first matching triangle's quadrant. Placed triangles stay placed. The invariant "placed only in its own section" and id uniqueness are preserved. |
| `Quadrant.PlacedIffDropped` | Threegonometry.swiftpm/Views/QuadrantView.swift:239-246 | Assume ids are unique. After any sequence of drops, a triangle is placed iff it was placed before or some drop put it onto its own section, in any order. |
| `Quadrant.CompleteIffAllDropped` | Threegonometry.swiftpm/Views/QuadrantView.swift:47-49 | Start from an all-tray state with unique ids. `allItemsPlaced` holds after a sequence of drops iff every triangle was dropped onto its own section. |
| `Quadrant.CompleteIffEverySectionFilled` | Threegonometry.swiftpm/Views/QuadrantView.swift:34-49 | For the view's four triangles, the game completes iff sections I, II, III and IV each received the triangle of their own label, in any order. |
| `Quadrant.TrayHoldsUnplaced` | Threegonometry.swiftpm/Views/QuadrantView.swift:87 | The tray (`Unplaced`, the filter of line 87) lists exactly the triangles with no quadrant. It is empty iff `allItemsPlaced`. |
| `Quadrant.SectionHoldsPlaced` | Threegonometry.swiftpm/Views/QuadrantView.swift:259 | Section `q` (`PlacedIn`, the filter of line 259) shows exactly the triangles whose quadrant is `q`. |
| `Quadrant.ShownOnce` | Threegonometry.swiftpm/Views/QuadrantView.swift:76-91 | When every quadrant value is a section label, the tray and the four sections together show each triangle exactly once: the multisets of their contents add up to the multiset of the items, and so do their lengths. |
| `Quadrant.QuadrantView.constructor` | Threegonometry.swiftpm/Views/QuadrantView.swift:34-39 | The `items` array starts as the four initial triangles and satisfies the invariant. |
| `Quadrant.QuadrantView.OnDrop` | Threegonometry.swiftpm/Views/QuadrantView.swift:234-256 | The drop handler searches for the first matching id and updates that array element in place. The new array and the border outcome are exactly those of `Drop`, and the invariant is kept. |
| `Quadrant.QuadrantView.AllItemsPlaced` | Threegonometry.swiftpm/Views/QuadrantView.swift:47-49 | It returns true iff no triangle in the array has a nil quadrant. |
| `Intro.Animate` | Threegonometry.swiftpm/Views/QuizIntroView.swift:60-91 | An index outside the list has no effect. A valid index shows its text. The button is shown iff it was already shown or the index is the last. Every non-last index schedules its successor, and the last schedules nothing. |
| `Intro.Tick` | Threegonometry.swiftpm/Views/QuizIntroView.swift:78-88 | With nothing pending, a tick changes nothing. A pending call reveals the text at the index it carries. Any call left pending is for the index just revealed plus one, so the revealed indices strictly increase. |
| `Intro.RevealOrder` | Threegonometry.swiftpm/Views/QuizIntroView.swift:37-88 | After the view appears and the clock fires `n` times, text `n` is shown. The button is shown iff `n` is the last index, and the call for `n + 1` is pending unless `n` is last. So the texts appear as 0, 1, … in order, and the button appears only with the last text. |
| `Intro.RevealTerminates` | Threegonometry.swiftpm/Views/QuizIntroView.swift:72-88 | Once the last text has been shown, nothing is pending. Any further clock ticks leave the last text and the button on screen. |
| `Intro.EmptyNarration` | Threegonometry.swiftpm/Views/QuizIntroView.swift:61 | With no texts, appearing and any number of ticks leave the view unchanged. |
| `Intro.QuizIntroView.constructor` | Threegonometry.swiftpm/Views/QuizIntroView.swift:11-21 | The view starts with the five intro texts, an empty text, no button and nothing pending. |
| `Intro.QuizIntroView.AnimateTextsSequentially` | Threegonometry.swiftpm/Views/QuizIntroView.swift:60-91 | It updates `text`, `showButton` and the pending call exactly as `Animate` does. |
| `Intro.QuizIntroView.FirePending` | Threegonometry.swiftpm/Views/QuizIntroView.swift:78-88 | It runs the pending delayed call, if there is one, as `Tick` does. |
| `Intro.QuizIntroView.Run` | Threegonometry.swiftpm/Views/QuizIntroView.swift:36-88 | The view appears, then the clock fires until nothing is pending. Call `n` of the chain (`onAppear`, then one per tick) showed `texts[n]`, for `n` from 0 to count-1. The final state equals `Ticks` after count-1 ticks: the last text with the button. With no texts, nothing changes. |

## Left out

- WaveView is not part of this model. It plots floating-point `sin` samples, formats numbers with `String(format:)` and parses text input. Dafny has no floating point here.
- LandingView, ClosingView and MyApp are not part of this model. They hold only audio playback, fade-in flags and navigation.
- Timing is not modelled: the `asyncAfter` delays, the `withAnimation` curves and the `opacity` of the intro text. The intro's hold-then-fade becomes one pending call that the caller fires.
- Presentation flags are not modelled: the completion banners' `showTitle`, `showDescription` and `showButton`, the info overlay's `showOverlay`, and the two-second reset of a section's border colour. The border colour appears only as the `Accepted` / `Rejected` / `UnknownItem` outcome of a drop.
- Alert dismissal is not modelled. The `.alert` binding resets `showingAlert` when the user taps OK. That is UI plumbing outside the button action, so `showingAlert` is only ever raised here.
- The drag payload is not modelled. `NSItemProvider.loadObject` and its hop to the main queue deliver a string id; the model starts from that id.
- The intro chain has no cancellation: once started, the delayed calls run to the last text. The model has none either.
- The intro model keeps one pending call. Calling `onAppear` a second time while a chain is still pending would run two interleaved chains in the source; the model does not cover that.
