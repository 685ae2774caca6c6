/**
 The wizard controller behind the swipe front end: a step index over the four screens
 (character, setting, lesson, confirmation), the three selections, the option list and
 loading flag of each category, and the story generation lifecycle. Every operation is a
 pure transition on an immutable record; network replies are given as inputs.
 */
module StoryWizard {

  import opened Options
  import opened Categories
  import opened StoryReply

  const CharacterStep: int := 0
  const SettingStep: int := 1
  const LessonStep: int := 2
  const ConfirmationStep: int := 3

  /** The selection screen of each category. */
  function StepOf(c: Category): (k: int)
    ensures CharacterStep <= k < ConfirmationStep
  {
    match c
    case Character => CharacterStep
    case Setting => SettingStep
    case Lesson => LessonStep
  }

  /** The category a step selects, if it is a selection screen. */
  function CategoryAt(k: int): (c: Option<Category>)
    ensures c.Some? <==> CharacterStep <= k < ConfirmationStep
    ensures c.Some? ==> StepOf(c.value) == k
  {
    if k == CharacterStep then Some(Character)
    else if k == SettingStep then Some(Setting)
    else if k == LessonStep then Some(Lesson)
    else None
  }

  /** Steps and selection screens are in one-to-one correspondence. */
  lemma StepOfCategoryAt(c: Category)
    ensures CategoryAt(StepOf(c)) == Some(c)
  {
  }

  type Selections = PerCategory<Option<string>>

  datatype Wizard = Wizard(
    step: int,
    selections: Selections,
    options: PerCategory<seq<string>>,
    loading: PerCategory<bool>,
    generating: bool,
    story: string,
    error: string)

  const NoSelections: Selections := PerCategory(None, None, None)

  /** On mount: first step, nothing selected, empty lists all loading, no story. */
  const Initial := Wizard(CharacterStep, NoSelections, PerCategory([], [], []),
                          PerCategory(true, true, true), false, "", "")

  predicate Valid(w: Wizard) {
    CharacterStep <= w.step <= ConfirmationStep
  }

  // Navigation

  /** A jump is applied only to an existing step; any other request is dropped. */
  function GoToStep(w: Wizard, k: int): (w': Wizard)
    ensures CharacterStep <= k <= ConfirmationStep ==> w' == w.(step := k)
    ensures !(CharacterStep <= k <= ConfirmationStep) ==> w' == w
    ensures Valid(w) ==> Valid(w')
  {
    if CharacterStep <= k <= ConfirmationStep then w.(step := k) else w
  }

  predicate CanGoNext(w: Wizard) {
    w.step < ConfirmationStep
  }

  predicate CanGoPrev(w: Wizard) {
    w.step > CharacterStep
  }

  /** Forward one step, except from the confirmation screen; nothing else changes. */
  function NextStep(w: Wizard): (w': Wizard)
    ensures CanGoNext(w) ==> w' == w.(step := w.step + 1)
    ensures !CanGoNext(w) ==> w' == w
    ensures Valid(w) ==> Valid(w')
  {
    if CanGoNext(w) then w.(step := w.step + 1) else w
  }

  /** Back one step, except from the first screen; nothing else changes. */
  function PrevStep(w: Wizard): (w': Wizard)
    ensures CanGoPrev(w) ==> w' == w.(step := w.step - 1)
    ensures !CanGoPrev(w) ==> w' == w
    ensures Valid(w) ==> Valid(w')
  {
    if CanGoPrev(w) then w.(step := w.step - 1) else w
  }

  /** Going forward then back (or back then forward) returns to the same state. */
  lemma NextPrevInverse(w: Wizard)
    requires Valid(w)
    ensures CanGoNext(w) ==> PrevStep(NextStep(w)) == w
    ensures CanGoPrev(w) ==> NextStep(PrevStep(w)) == w
  {
    if CanGoNext(w) {
      var n := NextStep(w);
      assert PrevStep(n) == n.(step := w.step);
      assert n.(step := w.step) == w;
    }
    if CanGoPrev(w) {
      var p := PrevStep(w);
      assert NextStep(p) == p.(step := w.step);
      assert p.(step := w.step) == w;
    }
  }

  /** The boundary rule: the step moves exactly when the matching guard holds. */
  lemma NavigationGuards(w: Wizard)
    requires Valid(w)
    ensures NextStep(w).step != w.step <==> w.step < ConfirmationStep
    ensures PrevStep(w).step != w.step <==> w.step > CharacterStep
    ensures NextStep(w.(step := ConfirmationStep)) == w.(step := ConfirmationStep)
    ensures PrevStep(w.(step := CharacterStep)) == w.(step := CharacterStep)
  {
  }

  // Selection

  /**
   Picking an option sets that category's selection only; the step moves later, when the
   scheduled auto-advance fires (see SelectAndAdvance).
   */
  function Select(w: Wizard, c: Category, value: string): (w': Wizard)
    ensures w'.selections.Get(c) == Some(value)
    ensures forall d: Category :: d != c ==> w'.selections.Get(d) == w.selections.Get(d)
    ensures w'.(selections := w.selections) == w
  {
    w.(selections := w.selections.Set(c, Some(value)))
  }

  /** A selection followed by its auto-advance firing with no other input in between. */
  function SelectAndAdvance(w: Wizard, c: Category, value: string): (w': Wizard)
    ensures w'.selections.Get(c) == Some(value)
    ensures w'.step == if w.step < ConfirmationStep then w.step + 1 else w.step
  {
    NextStep(Select(w, c, value))
  }

  /** A selection survives any navigation: navigating back to its screen shows it again. */
  lemma SelectionPersistsAcrossNavigation(w: Wizard, c: Category, value: string, k: int)
    ensures GoToStep(Select(w, c, value), k).selections.Get(c) == Some(value)
    ensures NextStep(Select(w, c, value)).selections.Get(c) == Some(value)
    ensures PrevStep(Select(w, c, value)).selections.Get(c) == Some(value)
  {
  }

  // The scheduled auto-advance

  /**
   The auto-advance as the hook schedules it: the timer runs the `nextStep` closure of the
   render in which the pick was made, so the boundary guard tests the step `captured` then,
   while the increment applies to the live step.
   */
  function AutoAdvanceCaptured(w: Wizard, captured: int): (w': Wizard)
    ensures w'.(step := w.step) == w
    ensures captured == w.step ==> w' == NextStep(w)
    ensures captured < ConfirmationStep ==> w'.step == w.step + 1
    ensures captured >= ConfirmationStep ==> w' == w
  {
    if captured < ConfirmationStep then w.(step := w.step + 1) else w
  }

  /** `n` pending timers that all captured the same step. */
  function CapturedAdvances(w: Wizard, captured: int, n: nat): Wizard
    decreases n
  {
    if n == 0 then w else CapturedAdvances(AutoAdvanceCaptured(w, captured), captured, n - 1)
  }

  /**
   Timers captured on a selection screen each add one to the live step, with no bound:
   nothing stops the step at the confirmation screen.
   */
  lemma {:induction false} CapturedAdvancesOverrun(w: Wizard, captured: int, n: nat)
    requires captured < ConfirmationStep
    ensures CapturedAdvances(w, captured, n) == w.(step := w.step + n)
    decreases n
  {
    if n > 0 {
      CapturedAdvancesOverrun(AutoAdvanceCaptured(w, captured), captured, n - 1);
    }
  }

  /** Two lesson picks within the delay: both timers fire and the step leaves the wizard. */
  lemma DoubleLessonPickOverruns(w: Wizard, first: string, second: string)
    requires w.step == LessonStep
    ensures var w' := CapturedAdvances(Select(Select(w, Lesson, first), Lesson, second), LessonStep, 2);
      w'.step == ConfirmationStep + 1 && !Valid(w')
  {
    CapturedAdvancesOverrun(Select(Select(w, Lesson, first), Lesson, second), LessonStep, 2);
  }

  /** A lesson pick followed by the right arrow before its timer fires also overruns. */
  lemma PickThenArrowOverruns(w: Wizard, value: string)
    requires w.step == LessonStep
    ensures var w' := AutoAdvanceCaptured(NextStep(Select(w, Lesson, value)), LessonStep);
      w'.step == ConfirmationStep + 1 && !Valid(w')
  {
  }

  /** `n` pending auto-advances that each test the live step, as the guard intends. */
  function Advances(w: Wizard, n: nat): Wizard
    decreases n
  {
    if n == 0 then w else Advances(NextStep(w), n - 1)
  }

  /**
   With the guard on the live step, any number of pending advances stops at the
   confirmation screen and keeps the step valid.
   */
  lemma {:induction false} AdvancesStayValid(w: Wizard, n: nat)
    requires Valid(w)
    ensures Valid(Advances(w, n))
    ensures Advances(w, n).step == if w.step + n < ConfirmationStep then w.step + n else ConfirmationStep
    ensures Advances(w, n).(step := w.step) == w
    decreases n
  {
    if n > 0 {
      AdvancesStayValid(NextStep(w), n - 1);
    }
  }

  // Option lists

  /** Starting a load raises only that category's loading flag. */
  function BeginLoad(w: Wizard, c: Category): (w': Wizard)
    ensures w'.loading.Get(c)
    ensures forall d: Category :: d != c ==> w'.loading.Get(d) == w.loading.Get(d)
    ensures w'.(loading := w.loading) == w
  {
    w.(loading := w.loading.Set(c, true))
  }

  /**
   A load's completion: a delivered list replaces that category's list, a failure keeps the
   old one; the flag clears either way and the other categories are untouched.
   */
  function FinishLoad(w: Wizard, c: Category, reply: Option<seq<string>>): (w': Wizard)
    ensures !w'.loading.Get(c)
    ensures reply.Some? ==> w'.options.Get(c) == reply.value
    ensures reply.None? ==> w'.options.Get(c) == w.options.Get(c)
    ensures forall d: Category :: d != c ==>
              w'.loading.Get(d) == w.loading.Get(d) && w'.options.Get(d) == w.options.Get(d)
    ensures w'.(loading := w.loading, options := w.options) == w
  {
    var w1 := if reply.Some? then w.(options := w.options.Set(c, reply.value)) else w;
    w1.(loading := w1.loading.Set(c, false))
  }

  /** A whole load with its reply delivered before any other input. */
  function Load(w: Wizard, c: Category, reply: Option<seq<string>>): (w': Wizard)
    ensures !w'.loading.Get(c)
    ensures w'.options.Get(c) == if reply.Some? then reply.value else w.options.Get(c)
    ensures forall d: Category :: d != c ==>
              w'.loading.Get(d) == w.loading.Get(d) && w'.options.Get(d) == w.options.Get(d)
  {
    FinishLoad(BeginLoad(w, c), c, reply)
  }

  // Story generation

  /** `character && setting && lesson`: every selection is set to a non-empty value. */
  predicate AllSelected(w: Wizard) {
    Truthy(w.selections.character) && Truthy(w.selections.setting) && Truthy(w.selections.lesson)
  }

  /** The request body of a generation attempt, or None when the guard drops the call. */
  function GenerateRequest(w: Wizard): (body: Option<Selections>)
    ensures body.Some? <==> AllSelected(w)
    ensures body.Some? ==> body.value == w.selections
  {
    if AllSelected(w) then Some(w.selections) else None
  }

  /** The state while the request is in flight: generating, with story and error cleared. */
  function BeginGenerate(w: Wizard): (w': Wizard)
    ensures !AllSelected(w) ==> w' == w
    ensures AllSelected(w) ==> w'.generating && w'.story == "" && w'.error == ""
    ensures w'.(generating := w.generating, story := w.story, error := w.error) == w
  {
    if !AllSelected(w) then w else w.(generating := true, story := "", error := "")
  }

  /** Completion: the story or the error is set (never the story on failure); generating ends. */
  function FinishGenerate(w: Wizard, reply: Reply): (w': Wizard)
    ensures !w'.generating
    ensures reply.Delivered? ==> w'.story == reply.story && w'.error == w.error
    ensures reply.NotOk? ==> w'.error == ErrorText(FailedMessage) && w'.story == w.story
    ensures reply.Thrown? ==> w'.error == ErrorText(reply.message) && w'.story == w.story
    ensures w'.(generating := w.generating, story := w.story, error := w.error) == w
  {
    var w1 := match reply
      case Delivered(s) => w.(story := s)
      case NotOk => w.(error := ErrorText(FailedMessage))
      case Thrown(m) => w.(error := ErrorText(m));
    w1.(generating := false)
  }

  /** A whole generation attempt with its reply: a no-op unless everything is selected. */
  function Generate(w: Wizard, reply: Reply): (w': Wizard)
    ensures !AllSelected(w) ==> w' == w
    ensures AllSelected(w) ==> !w'.generating
    ensures AllSelected(w) && reply.Delivered? ==> w'.story == reply.story && w'.error == ""
    ensures AllSelected(w) && !reply.Delivered? ==> w'.story == "" && w'.error != ""
    ensures w'.step == w.step && w'.selections == w.selections && w'.options == w.options
            && w'.loading == w.loading
  {
    if !AllSelected(w) then w else FinishGenerate(BeginGenerate(w), reply)
  }

  /**
   Outside a generation already in flight, a request is sent exactly when the attempt
   enters the generating state, and then with the current selections as its body.
   */
  lemma RequestStartsGeneration(w: Wizard)
    requires !w.generating
    ensures GenerateRequest(w).Some? <==> BeginGenerate(w).generating
    ensures BeginGenerate(w).generating ==> GenerateRequest(w) == Some(BeginGenerate(w).selections)
  {
  }

  /** A non-OK reply ends with the fixed friendly message and no story. */
  lemma GenerateNotOk(w: Wizard)
    requires AllSelected(w)
    ensures Generate(w, NotOk).error == "Oops! Failed to generate story. Please try again!"
    ensures Generate(w, NotOk).story == ""
    ensures !Generate(w, NotOk).generating
  {
    NotOkErrorText();
    assert Generate(w, NotOk) == FinishGenerate(BeginGenerate(w), NotOk);
  }

  // Reset and step queries

  /** Back to the first screen with nothing chosen and no result; lists and flags are kept. */
  function ResetWizard(w: Wizard): (w': Wizard)
    ensures w'.step == Initial.step && w'.selections == Initial.selections
    ensures w'.story == Initial.story && w'.error == Initial.error
    ensures w'.options == w.options && w'.loading == w.loading && w'.generating == w.generating
  {
    w.(step := CharacterStep, selections := NoSelections, story := "", error := "")
  }

  /**
   Reset after a pick and its auto-advance equals reset before it: the pick and the step
   move are both undone, while lists and flags are kept as they were.
   */
  lemma ResetAfterSelect(w: Wizard, c: Category, value: string)
    ensures ResetWizard(SelectAndAdvance(w, c, value)) == ResetWizard(w)
  {
  }

  /** Whether a screen has what it needs: its own selection, or all three for confirmation. */
  function IsStepComplete(w: Wizard, k: int): (done: bool)
    ensures CategoryAt(k).Some? ==> (done <==> Truthy(w.selections.Get(CategoryAt(k).value)))
    ensures k == ConfirmationStep ==> (done <==> AllSelected(w))
    ensures !(CharacterStep <= k <= ConfirmationStep) ==> !done
  {
    if k == CharacterStep then Truthy(w.selections.character)
    else if k == SettingStep then Truthy(w.selections.setting)
    else if k == LessonStep then Truthy(w.selections.lesson)
    else if k == ConfirmationStep then AllSelected(w)
    else false
  }

  /** The confirmation screen is complete exactly when every selection screen is. */
  lemma ConfirmationCompleteIffAll(w: Wizard)
    ensures IsStepComplete(w, ConfirmationStep) <==>
      forall k :: CharacterStep <= k < ConfirmationStep ==> IsStepComplete(w, k)
  {
    assert IsStepComplete(w, CharacterStep) && IsStepComplete(w, SettingStep) && IsStepComplete(w, LessonStep)
      ==> forall k :: CharacterStep <= k < ConfirmationStep ==> IsStepComplete(w, k);
  }

  /** The list shown on the current screen, with its loading flag. */
  datatype CurrentData = CurrentData(items: seq<string>, loading: bool)

  function GetCurrentData(w: Wizard): (d: CurrentData)
    ensures CategoryAt(w.step).Some? ==>
      var c := CategoryAt(w.step).value;
      d.items == w.options.Get(c) && d.loading == w.loading.Get(c)
    ensures CategoryAt(w.step).None? ==> d == CurrentData([], false)
  {
    match CategoryAt(w.step)
    case Some(c) => CurrentData(w.options.Get(c), w.loading.Get(c))
    case None => CurrentData([], false)
  }

  function GetCurrentSelection(w: Wizard): (s: Option<string>)
    ensures CategoryAt(w.step).Some? ==> s == w.selections.Get(CategoryAt(w.step).value)
    ensures CategoryAt(w.step).None? ==> s == None
  {
    match CategoryAt(w.step)
    case Some(c) => w.selections.Get(c)
    case None => None
  }

  /** Refreshing restarts the current screen's load; on the confirmation screen it does nothing. */
  function RefreshCurrentData(w: Wizard): (w': Wizard)
    ensures CategoryAt(w.step).Some? ==> w' == BeginLoad(w, CategoryAt(w.step).value)
    ensures CategoryAt(w.step).None? ==> w' == w
  {
    match CategoryAt(w.step)
    case Some(c) => BeginLoad(w, c)
    case None => w
  }

  /**
   Refreshing the current screen and then receiving a list shows that list, no longer
   loading, on the same screen.
   */
  lemma RefreshThenReplyShows(w: Wizard, list: seq<string>)
    requires CategoryAt(w.step).Some?
    ensures var c := CategoryAt(w.step).value;
      GetCurrentData(FinishLoad(RefreshCurrentData(w), c, Some(list))) == CurrentData(list, false)
  {
  }

  /** A refresh whose load fails leaves the screen's old list in place, no longer loading. */
  lemma RefreshThenFailureKeeps(w: Wizard)
    requires CategoryAt(w.step).Some?
    ensures var c := CategoryAt(w.step).value;
      GetCurrentData(FinishLoad(RefreshCurrentData(w), c, None)) == CurrentData(w.options.Get(c), false)
  {
  }

  /** Right after a selection, the current screen reports it (before the auto-advance). */
  lemma CurrentSelectionAfterSelect(w: Wizard, value: string)
    requires CategoryAt(w.step).Some?
    ensures GetCurrentSelection(Select(w, CategoryAt(w.step).value, value)) == Some(value)
  {
  }
}
