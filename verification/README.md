# Swipe story wizard: a verified model

This project models the navigation and state logic of a React front end for building a
children's story. The user picks a character, a setting and a lesson, then asks for a story.
The model covers:

- **SwipeGesture** (`useSwipeGesture.js`): the swipe tracker. It keeps a drag origin, a
  dragging flag and a signed horizontal offset. Motion past `threshold` is damped by
  `resistance` (the rubber band). On release the offset is classified as a left swipe, a
  right swipe or nothing, and the tracker resets.
- **StoryWizard** (`useStoryWizard.js`): the wizard controller. It holds the step over the
  four screens (0 character, 1 setting, 2 lesson, 3 confirmation), the three selections, the
  per-category option lists and loading flags, and the story generation lifecycle.
- **SwipeNavigator** (`SwipeNavigator.jsx`): maps swipes, arrow keys, edge arrows and
  progress dots to next/previous/jump requests, and computes the strip's translation.
- **SwipeApp** (`SwipeApp.jsx`): the wiring. It covers the navigator's requests, the edit
  links, the screen order, and a whole-app input loop.
- **LegacyApp** (`App.jsx`): the older single-page front end. It covers field-wise selection,
  the generate guard, the progress ticker and the generate button.
- **TextAnimation** (`useTextAnimation.js`): the cycling "..." counter and its label.
- **Categories**, **Options**, **StoryReply**: the shared vocabulary. These are the three
  categories with one record field per category, the nullable value with JavaScript
  truthiness, and the outcome of a story request with its error text.

Every transition is a pure function on an immutable record. Network replies and timer
firings are inputs: a load ends with a list or a failure, and a story request ends with a
story, a non-OK status or an exception message. Offsets, thresholds and resistance are
`real`. Each input is applied atomically to the current state.

Behaviours of the code worth knowing:

- The tracker's own defaults are threshold 50 and resistance 0.3. The navigator passes 80
  and 0.2. Neither value is range-checked, so the lemmas take the ranges they need as
  hypotheses.
- The touch-move guard tests the stored start coordinates for truthiness. A touch that starts
  at x = 0 or y = 0 never moves the offset, so it can never be a swipe
  (`SwipeGesture.TouchAtZeroOriginNeverSwipes`).
- A release outside an interaction produces no outcome at all. A swipe in a direction with no
  registered callback also produces nothing.
- `goToStep` range-checks its argument and drops out-of-range requests.
- `generateStory` itself does not reject a call made while generating. Only the disabled
  button does that, so the app loop ignores clicks while generating.
- The error text on a non-OK reply is built from the thrown `Error`'s own message,
  "Failed to generate story". The server's error body is never read.
- A selection is not checked against the current option list.
- The auto-advance after a pick tests the step captured when the pick was made, not the live
  step, so the step can be pushed past the confirmation screen (see Findings).
- Each selection screen is handed a title-click handler that it never attaches, and
  `getSelectionHandler` is never called; the screens get their select handlers directly.

## Model

| member | source | states |
|---|---|---|
| SwipeGesture.Resist | frontend/src/hooks/useSwipeGesture.js:32-38 | Up to the threshold the offset is the raw displacement. Beyond it the offset's magnitude is threshold + excess × resistance, and it points the same way as the drag. |
| SwipeGesture.ResistExample | frontend/src/hooks/useSwipeGesture.js:33-38 | With threshold 80 and resistance 0.2, a drag of 130 shows 90 and a drag of −130 shows −90. |
| SwipeGesture.ResistOdd | frontend/src/hooks/useSwipeGesture.js:33-38 | For a non-negative threshold, the mirrored drag gives the mirrored offset. |
| SwipeGesture.ResistBounded | frontend/src/hooks/useSwipeGesture.js:34-37 | With resistance in [0,1] the offset is never larger than the drag and never points the other way. With a positive threshold it has exactly the drag's sign. |
| SwipeGesture.ResistMonotone | frontend/src/hooks/useSwipeGesture.js:34-37 | A longer drag never shows a shorter offset. |
| SwipeGesture.ResistExceedsThreshold | frontend/src/hooks/useSwipeGesture.js:34-37 | The damped offset passes the threshold if and only if the resistance is positive and the raw drag passes it. |
| SwipeGesture.Classify | frontend/src/hooks/useSwipeGesture.js:48-54 | Right fires exactly when the offset passes the threshold, is positive and a right callback exists. Left is the same for negative offsets. At most one fires. |
| SwipeGesture.TouchStart | frontend/src/hooks/useSwipeGesture.js:9-16 | A start with exactly one touch records the origin, starts dragging and zeroes the offset. Any other touch count changes nothing. |
| SwipeGesture.TouchMove | frontend/src/hooks/useSwipeGesture.js:18-41 | When dragging with a truthy origin, the offset becomes the damped x travel whatever the y travel. Otherwise, including a 0 start coordinate, nothing changes. |
| SwipeGesture.MouseDown | frontend/src/hooks/useSwipeGesture.js:63-71 | A press always records the origin, starts dragging and zeroes the offset. |
| SwipeGesture.MouseMove | frontend/src/hooks/useSwipeGesture.js:73-91 | When dragging and horizontal travel is at least vertical travel, the offset becomes the damped x travel. Otherwise nothing changes. |
| SwipeGesture.End | frontend/src/hooks/useSwipeGesture.js:43-61 | Outside an interaction a release is a no-op. Otherwise the state resets to idle whatever fired, and the fired callback is the classification of the last offset. |
| SwipeGesture.Handle | frontend/src/hooks/useSwipeGesture.js:113-121 | The mouse move, up and leave handlers do nothing unless dragging. A callback fires only on a release event and leaves the tracker idle. |
| SwipeGesture.MouseLeaveIsMouseUp | frontend/src/hooks/useSwipeGesture.js:118-120 | Leaving the strip behaves exactly like releasing the mouse, in every state. |
| SwipeGesture.Run | frontend/src/hooks/useSwipeGesture.js:43-111 | Over any event stream, at most one callback fires per release event, and a callback that was not registered never fires. |
| SwipeGesture.RunInv | frontend/src/hooks/useSwipeGesture.js:9-111 | Every event stream keeps the invariant. The origin is set exactly while dragging, the offset is 0 between interactions, and with zero resistance the offset stays within the threshold. |
| SwipeGesture.NoSwipeWithoutResistance | frontend/src/hooks/useSwipeGesture.js:32-54 | With resistance 0, no event stream from a well-formed state ever fires a callback. |
| SwipeGesture.SwipeExactlyBeyondThreshold | frontend/src/hooks/useSwipeGesture.js:32-54 | With positive resistance, release classifies a right swipe exactly when dx > threshold, a left swipe exactly when dx < −threshold, and otherwise nothing. |
| SwipeGesture.MouseDragClassified | frontend/src/hooks/useSwipeGesture.js:63-111 | A press, one horizontal move and a release end idle. They fire right or left exactly when the raw travel passes the threshold that way and the callback exists, and fire nothing within the threshold. |
| SwipeGesture.TouchAtZeroOriginNeverSwipes | frontend/src/hooks/useSwipeGesture.js:18-19 | A touch that starts at x = 0 or y = 0, then moves and ends, fires nothing and ends idle. |
| SwipeGesture.TouchScrollSuppression | frontend/src/hooks/useSwipeGesture.js:18-40 | Scrolling is suppressed only during a live touch drag with a truthy origin. When it is suppressed, the offset becomes the damped horizontal travel, the same state a mouse move to that point gives. |
| SwipeGesture.VerticalDragTouchVersusMouse | frontend/src/hooks/useSwipeGesture.js:18-80 | When vertical travel dominates, a touch move still updates the offset and does not suppress scrolling. A mouse move leaves the state unchanged. |
| StoryWizard.CategoryAt | frontend/src/hooks/useStoryWizard.js:3-8 | Steps 0, 1 and 2 are the selection screens of character, setting and lesson. Step 3 and every other value have no category. |
| StoryWizard.GoToStep | frontend/src/hooks/useStoryWizard.js:76-80 | A jump to k in [0,3] sets the step to k and changes nothing else. Any other k changes nothing. The step stays in range. |
| StoryWizard.NextStep | frontend/src/hooks/useStoryWizard.js:82-86 | Moves forward by one only when step < 3, with nothing else changed. The step stays in range. |
| StoryWizard.PrevStep | frontend/src/hooks/useStoryWizard.js:88-92 | Moves back by one only when step > 0, with nothing else changed. The step stays in range. |
| StoryWizard.NextPrevInverse | frontend/src/hooks/useStoryWizard.js:82-92 | From a valid step, next then previous is the identity whenever next is allowed, and the same holds the other way. |
| StoryWizard.NavigationGuards | frontend/src/hooks/useStoryWizard.js:221-222 | The step moves forward exactly when canGoNext holds and back exactly when canGoPrev holds. Both are no-ops at the ends. |
| StoryWizard.Select | frontend/src/hooks/useStoryWizard.js:94-110 | Sets only the chosen category's selection. The other selections, the step and every other field are unchanged until the auto-advance fires. |
| StoryWizard.SelectAndAdvance | frontend/src/hooks/useStoryWizard.js:94-98 | A selection followed by its auto-advance keeps the choice and moves the step by one, except on the confirmation screen. |
| StoryWizard.AutoAdvanceCaptured | frontend/src/hooks/useStoryWizard.js:82-86 | The timer's advance changes only the step. It adds one whenever the captured step was below the confirmation screen, whatever the live step is. It agrees with nextStep when the captured step is still the live one. |
| StoryWizard.CapturedAdvancesOverrun | frontend/src/hooks/useStoryWizard.js:82-86 | Pending auto-advances whose captured step was a selection screen each add one to the live step, with no upper bound. |
| StoryWizard.DoubleLessonPickOverruns | frontend/src/hooks/useStoryWizard.js:106-110 | Two lesson picks before the first timer fires leave the step at 4, outside the four screens. |
| StoryWizard.PickThenArrowOverruns | frontend/src/hooks/useStoryWizard.js:82-110 | A lesson pick followed by nextStep before its timer fires also leaves the step at 4. |
| StoryWizard.AdvancesStayValid | frontend/src/hooks/useStoryWizard.js:82-86 | With the guard on the live step, n pending auto-advances give min(step + n, 3), keep the step valid and change nothing else. |
| StoryWizard.SelectionPersistsAcrossNavigation | frontend/src/hooks/useStoryWizard.js:76-110 | A selection survives goToStep, nextStep and prevStep. |
| StoryWizard.BeginLoad | frontend/src/hooks/useStoryWizard.js:40-41 | Starting a load raises only that category's loading flag. |
| StoryWizard.FinishLoad | frontend/src/hooks/useStoryWizard.js:40-50 | A delivered list replaces the category's list and a failure keeps the old one. Its flag clears either way, and the other categories and fields are untouched. |
| StoryWizard.Load | frontend/src/hooks/useStoryWizard.js:40-74 | A complete load ends with the flag cleared and the list replaced only on success. Other categories are unaffected. |
| StoryWizard.RequestStartsGeneration | frontend/src/hooks/useStoryWizard.js:112-126 | When nothing is in flight, a request is sent if and only if the attempt enters the generating state. The request body is then the selections. |
| StoryWizard.BeginGenerate | frontend/src/hooks/useStoryWizard.js:112-119 | A no-op unless all three are selected. Otherwise generating becomes true and story and error are cleared, with nothing else changed. |
| StoryWizard.FinishGenerate | frontend/src/hooks/useStoryWizard.js:128-137 | Generating ends. A delivered story is stored, a non-OK reply sets the fixed error, and an exception sets the error built from its message. |
| StoryWizard.Generate | frontend/src/hooks/useStoryWizard.js:112-138 | A whole attempt is a no-op unless all three are selected. Otherwise it ends not generating, with the story and no error on success, or an error and no story on failure. Step, selections and lists are untouched. |
| StoryWizard.GenerateNotOk | frontend/src/hooks/useStoryWizard.js:128-134 | A non-OK reply ends with the error "Oops! Failed to generate story. Please try again!", an empty story and generating false. |
| StoryWizard.ResetWizard | frontend/src/hooks/useStoryWizard.js:140-149 | Restores the initial step, selections, story and error. Lists, loading flags and generating are kept. |
| StoryWizard.ResetAfterSelect | frontend/src/hooks/useStoryWizard.js:140-149 | Resetting after a selection and its auto-advance gives the same state as resetting before them. |
| StoryWizard.IsStepComplete | frontend/src/hooks/useStoryWizard.js:206-219 | On a selection screen, complete means that selection is truthy. On confirmation all three must be truthy. Any other step is never complete. |
| StoryWizard.ConfirmationCompleteIffAll | frontend/src/hooks/useStoryWizard.js:206-219 | The confirmation step is complete if and only if each of steps 0 to 2 is complete. |
| StoryWizard.GetCurrentData | frontend/src/hooks/useStoryWizard.js:180-191 | On a selection screen, returns that category's list and flag. Elsewhere it returns an empty list, not loading. |
| StoryWizard.GetCurrentSelection | frontend/src/hooks/useStoryWizard.js:193-204 | On a selection screen, returns that category's selection. Elsewhere it returns null. |
| StoryWizard.CurrentSelectionAfterSelect | frontend/src/hooks/useStoryWizard.js:193-204 | Right after choosing on a selection screen, that screen reports the new choice. |
| StoryWizard.RefreshThenReplyShows | frontend/src/hooks/useStoryWizard.js:151-165 | On a selection screen, a refresh followed by a delivered list shows that list on the same screen, no longer loading. |
| StoryWizard.RefreshThenFailureKeeps | frontend/src/hooks/useStoryWizard.js:151-165 | On a selection screen, a refresh whose load fails shows the old list again, no longer loading. |
| StoryReply.ErrorText | frontend/src/hooks/useStoryWizard.js:133-135 | The error text is "Oops! ", then the exception message, then ". Please try again!", so it is 25 characters longer than the message and never empty. |
| StoryReply.NotOkErrorText | frontend/src/hooks/useStoryWizard.js:128-134 | A non-OK status produces exactly "Oops! Failed to generate story. Please try again!". |
| SwipeNavigator.OnPointer | frontend/src/components/SwipeNavigator.jsx:18-23 | A pointer event requests next only when canGoNext holds and previous only when canGoPrev holds. It never requests a jump, and only a release can request anything. |
| SwipeNavigator.DragPastThresholdRequests | frontend/src/components/SwipeNavigator.jsx:18-23 | Releasing a drag asks for next exactly when the offset is below −80 and canGoNext holds. It asks for previous exactly when the offset is above 80 and canGoPrev holds. The tracker ends idle. |
| SwipeNavigator.OnKey | frontend/src/components/SwipeNavigator.jsx:27-40 | Both arrow keys always have their default prevented. ArrowLeft requests previous exactly when canGoPrev holds, and ArrowRight requests next exactly when canGoNext holds. Other keys do nothing. |
| SwipeNavigator.TranslateX | frontend/src/components/SwipeNavigator.jsx:46-51 | At rest the strip sits at −25 × step percent. While dragging, the extra shift, taken as a fraction of the strip's width, equals the drag offset in pixels. |
| SwipeNavigator.TranslatePositions | frontend/src/components/SwipeNavigator.jsx:48-51 | Steps 0 to 3 rest at 0, −25, −50 and −75 percent. A zero drag offset gives the resting position. |
| SwipeNavigator.EasedExactlyAtRest | frontend/src/components/SwipeNavigator.jsx:109-113 | For a well-formed tracker, the strip eases if and only if the tracker is idle, and an easing strip sits at its step's resting position. |
| SwipeNavigator.ArrowButtons | frontend/src/components/SwipeNavigator.jsx:56-76 | The previous arrow exists if and only if canGoPrev holds and requests previous. The next arrow exists if and only if canGoNext holds and requests next. |
| SwipeNavigator.Dots | frontend/src/components/SwipeNavigator.jsx:80-100 | There is one dot per step. Dot i requests a jump to i when a jump handler exists, and is active if and only if i is the current step. |
| SwipeNavigator.ExactlyOneActiveDot | frontend/src/components/SwipeNavigator.jsx:80-100 | Exactly one dot is active when the step is in range, and none otherwise. |
| SwipeNavigator.OnInput | frontend/src/components/SwipeNavigator.jsx:18-95 | Swipes, keys, dots and arrows only produce requests. Next is requested only when allowed, previous only when allowed, and a jump only to an existing dot's index. Only pointer events change the tracker. |
| SwipeApp.DotsLandOnStep | frontend/src/SwipeApp.jsx:77-85 | Clicking progress dot i, for each of the four dots the navigator is told to draw, moves the wizard to step i and changes nothing else. A click on any other index does nothing. |
| SwipeApp.Apply | frontend/src/SwipeApp.jsx:77-85 | Next, previous and jump requests run the wizard's own nextStep, prevStep and goToStep. They change only the step and keep it in range. |
| SwipeApp.EditTarget | frontend/src/SwipeApp.jsx:38-52 | 'character', 'setting' and 'lesson' target steps 0, 1 and 2. Other keys have no target, and the confirmation step is never a target. |
| SwipeApp.HandleEditSelection | frontend/src/SwipeApp.jsx:38-52 | Editing a category moves to its selection screen with nothing else changed. Any other key changes nothing. Editing never lands on the confirmation step. |
| SwipeApp.EditShowsCategory | frontend/src/SwipeApp.jsx:38-52 | After editing a category, the current screen shows that category's list and selection. |
| SwipeApp.SelectionHandler | frontend/src/SwipeApp.jsx:54-65 | The lookup, which the app never calls, gives steps 0, 1 and 2 the character, setting and lesson handlers, and every other step the no-op handler. |
| SwipeApp.SelectWith | frontend/src/SwipeApp.jsx:54-65 | Calling the handler the lookup returns sets that step's selection without moving the step. The no-op handler changes nothing. |
| SwipeApp.TitleTarget | frontend/src/SwipeApp.jsx:87-138 | The title handler each selection screen is handed targets that screen's own step. The confirmation screen gets none. The screens never attach it. |
| SwipeApp.ScreensInStepOrder | frontend/src/SwipeApp.jsx:87-138 | The strip holds four screens in step order: character, setting, lesson, confirmation. The title handler each is handed targets its own position. |
| SwipeApp.Dispatch | frontend/src/SwipeApp.jsx:77-138 | Every app input keeps the step in range. Only navigator input touches the gesture tracker. A generate click changes the app if and only if nothing is being generated and all three are selected, so a click while generating sends no second request. A click that does start clears the story and error. |
| SwipeApp.RunInv | frontend/src/SwipeApp.jsx:77-85 | With each auto-advance testing the live step, over any sequence of swipes, keys, clicks, replies and timer firings the step stays in [0,3] and the tracker stays well formed. |
| SwipeApp.ArrowKeysOnApp | frontend/src/SwipeApp.jsx:77-85 | ArrowRight and ArrowLeft act as nextStep and prevStep. At the confirmation screen and the first screen respectively, they leave the wizard unchanged. |
| LegacyApp.SelectComponent | frontend/src/App.jsx:78-84 | Sets only the chosen field and marks that section as celebrating. The other two fields and everything else are unchanged. |
| LegacyApp.EndCelebration | frontend/src/App.jsx:82-83 | The celebration timer clears the highlight and nothing else. |
| LegacyApp.Dispatch | frontend/src/App.jsx:42-196 | A section's load start or completion changes only that section's flag and list, replacing the list only on success. A generate click changes the page if and only if the button is shown and enabled, and then starts generating at progress 0. |
| SwipeApp.SecondClickSendsNoRequest | frontend/src/components/screens/ConfirmationScreen.jsx:84-86 | When a request would be sent, the first click sends it and enters the generating state. A second click before the reply changes nothing. |
| LegacyApp.SecondClickIgnored | frontend/src/App.jsx:192-196 | A click that starts generation leaves the button disabled, so a second click before the reply changes nothing. |
| LegacyApp.BeginGenerate | frontend/src/App.jsx:86-94 | A no-op unless all three are selected. Otherwise generating starts with the error and story cleared and progress at 0. |
| LegacyApp.Tick | frontend/src/App.jsx:99-107 | The ticker advances while the step is below 3, then stays put. |
| LegacyApp.TicksSaturate | frontend/src/App.jsx:99-107 | From a step in [0,3], n ticks give min(step + n, 3). |
| LegacyApp.TickPage | frontend/src/App.jsx:99-107 | A tick changes only the progress step and keeps it in [0,3]. |
| LegacyApp.ProgressLabel | frontend/src/App.jsx:208-213 | Steps 0 to 3 show their message and any larger step shows the fallback. |
| LegacyApp.FinishGenerate | frontend/src/App.jsx:116-131 | Generating ends and progress resets to 0. A delivered story waits for its display timer. A non-OK reply or an exception sets the error text. |
| LegacyApp.DeliveredLifecycle | frontend/src/App.jsx:86-131 | A guarded start, a delivered reply and its display timer end with that story shown. There is no error, generating is false, progress is 0 and nothing is pending. |
| LegacyApp.NotOkLifecycle | frontend/src/App.jsx:86-131 | A guarded start followed by a non-OK reply ends with the fixed error, no story, generating false and progress 0. |
| LegacyApp.ProgressAlwaysHasMessage | frontend/src/App.jsx:99-107 | Over any input sequence the progress step stays in [0,3], so the label shown is always one of the four messages. |
| TextAnimation.Tick | frontend/src/hooks/useTextAnimation.js:12-14 | A tick advances the count by one below 3, wraps 3 to 0, and always stays below 4. |
| TextAnimation.Settle | frontend/src/hooks/useTextAnimation.js:6-10 | An inactive animation resets the count to 0. An active one keeps it. |
| TextAnimation.TicksFromRest | frontend/src/hooks/useTextAnimation.js:13 | From rest, n ticks show n mod 4 dots. |
| TextAnimation.FourTicksReturn | frontend/src/hooks/useTextAnimation.js:13 | Four ticks bring any count in [0,3] back to itself. |
| TextAnimation.Dots | frontend/src/hooks/useTextAnimation.js:19 | Repeating '.' n times gives n characters, all of them '.'. |
| TextAnimation.Animated | frontend/src/hooks/useTextAnimation.js:19-20 | The label is the base text as a prefix, followed by exactly count dots. |
| TextAnimation.AnimatedBounds | frontend/src/hooks/useTextAnimation.js:13-20 | With a count in its cycle, the label is between zero and three characters longer than the base text. When inactive it is the base text. |

## Left out

- Network I/O, JSON parsing and logging are not modelled. Each load or story request is an
  already-delivered outcome. A load reply lacking its list field, which would store
  `undefined`, is not modelled: a load yields a list or a failure.
- Timers are not scheduled. The 300 ms auto-advance, the celebration clear, the 500 ms story
  display and the progress interval are separate atomic inputs.
  The input loops cover any interleaving of these inputs. What SwipeApp's loop does not
  model is the step captured inside the auto-advance; its auto-advance tests the live step.
- SwipeApp.RunInv: holds for the model in which each auto-advance tests the live step. The
  source's auto-advance tests a captured step and can reach step 4 (see Findings), so the
  source does not keep this invariant.
- SwipeApp.TitleTarget and SwipeApp.ScreensInStepOrder describe the title handlers the app
  hands to its screens. The screen never attaches that handler, so no title click exists
  and the app's input loop has no such input.
- SwipeApp.SelectionHandler and SwipeApp.SelectWith model `getSelectionHandler`, which is
  never called. The app's `Pick` input uses each screen's own handler directly.
- React mechanics are not modelled: state batching, stale closures in the gesture handlers,
  `useCallback` dependencies, refs and listener registration. The handlers' mouse-listener
  attachment while dragging is modelled.
- DOM effects are not modelled. That includes text-selection prevention on mouse down,
  `willChange`, CSS strings and the dot theme classes. Scroll suppression on touch move is a
  predicate (`SwipeGesture.TouchMoveSuppressesScroll`), not an effect.
- SwipeNavigator.TranslateX: requires a positive strip width. The source's fallback drag term
  of 0 when the container reference is missing, and a zero measured width, are not modelled.
- Floating point is modelled with exact `real` arithmetic. Rounding, NaN and infinities are
  not modelled.
- `refreshCharacters`, `refreshSettings` and `refreshLessons` only call the category's load.
  They are `StoryWizard.BeginLoad` on that category.
- LegacyApp's loads duplicate the wizard's. They appear only inline in `LegacyApp.Dispatch`.
- LegacyApp.RevealStory: several pending display timers collapse to the latest delivered story.
- The screen components, the Express relay to the language model, and the React bootstrap are
  not part of this model. The screens are presentation and restate the wizard's predicates.
  The relay and the bootstrap hold no front-end logic.

## Findings

| source | as written | input that shows it | evidently intended | confidence | as-written member | corrected member |
|---|---|---|---|---|---|---|
| frontend/src/hooks/useStoryWizard.js:82-110 | The auto-advance timer runs the `nextStep` of the render in which the pick was made. Its guard tests that render's step, but the update adds one to the live step. | On the lesson screen (step 2), pick a lesson twice within 300 ms, or pick one and press ArrowRight. Both advances run and the step becomes 4, which shows no screen. | The guard tests the live step, so the step stops at the confirmation screen. | not executed | StoryWizard.DoubleLessonPickOverruns | StoryWizard.AdvancesStayValid |
