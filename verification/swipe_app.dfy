/**
 The swipe front end's wiring: the navigator's requests go straight to the wizard's
 navigation, the confirmation screen's "edit" links jump back to a selection screen, and the
 screens sit in the strip in step order. The whole app is a wizard plus a gesture tracker,
 driven by a stream of inputs in which network replies and timer firings are inputs too.
 */
module SwipeApp {

  import opened Options
  import opened Categories
  import SwipeGesture
  import StoryReply
  import Nav = SwipeNavigator
  import W = StoryWizard

  /** The navigator is told there are four screens. */
  const TotalSteps: nat := 4

  /** The owner's handling of a navigator request: the wizard's own guarded navigation. */
  function Apply(w: W.Wizard, r: Nav.Request): (w': W.Wizard)
    ensures W.Valid(w) ==> W.Valid(w')
    ensures w'.(step := w.step) == w
    ensures r.Next? ==> w' == W.NextStep(w)
    ensures r.Prev? ==> w' == W.PrevStep(w)
    ensures r.GoTo? ==> w' == W.GoToStep(w, r.step)
  {
    match r
    case Next => W.NextStep(w)
    case Prev => W.PrevStep(w)
    case GoTo(k) => W.GoToStep(w, k)
  }

  /** The screen an "edit" link on the confirmation screen jumps to, by selection key. */
  function EditTarget(key: string): (k: Option<int>)
    ensures k.Some? <==> FromKey(key).Some?
    ensures k.Some? ==> k.value == W.StepOf(FromKey(key).value)
    ensures k.Some? ==> W.CharacterStep <= k.value < W.ConfirmationStep
  {
    if key == "character" then Some(W.CharacterStep)
    else if key == "setting" then Some(W.SettingStep)
    else if key == "lesson" then Some(W.LessonStep)
    else None
  }

  /** Editing lands on the selection screen of the named category; unknown keys do nothing. */
  function HandleEditSelection(w: W.Wizard, key: string): (w': W.Wizard)
    ensures FromKey(key).Some? ==> w' == w.(step := W.StepOf(FromKey(key).value))
    ensures FromKey(key).None? ==> w' == w
    ensures w' != w ==> w'.step != W.ConfirmationStep
  {
    match EditTarget(key)
    case Some(k) => W.GoToStep(w, k)
    case None => w
  }

  /** Editing a category shows that category's list and current choice. */
  lemma EditShowsCategory(w: W.Wizard, c: Category)
    ensures W.GetCurrentSelection(HandleEditSelection(w, Key(c))) == w.selections.Get(c)
    ensures W.GetCurrentData(HandleEditSelection(w, Key(c))).items == w.options.Get(c)
  {
    assert FromKey(Key(c)) == Some(c);
    W.StepOfCategoryAt(c);
  }

  /**
   Every progress dot the navigator renders lands the wizard on that dot's own step and
   changes nothing else; a click outside the rendered dots does nothing.
   */
  lemma DotsLandOnStep(a: App)
    ensures forall i :: 0 <= i < TotalSteps ==>
              Dispatch(a, Navigate(Nav.DotClick(i))).wizard == a.wizard.(step := i)
    ensures forall i :: !(0 <= i < TotalSteps) ==>
              Dispatch(a, Navigate(Nav.DotClick(i))).wizard == a.wizard
  {
  }

  /**
   Which select handler a step would hand to its screen; None is the no-op handler. The
   app never calls this lookup: each screen is given its own handler directly (see Pick).
   */
  function SelectionHandler(step: int): (c: Option<Category>)
    ensures c.Some? <==> W.CharacterStep <= step < W.ConfirmationStep
    ensures c.Some? ==> W.StepOf(c.value) == step
  {
    if step == W.CharacterStep then Some(Character)
    else if step == W.SettingStep then Some(Setting)
    else if step == W.LessonStep then Some(Lesson)
    else None
  }

  /** Invoking the handler of a step with a value. */
  function SelectWith(w: W.Wizard, step: int, value: string): (w': W.Wizard)
    ensures SelectionHandler(step).None? ==> w' == w
    ensures SelectionHandler(step).Some? ==>
      w'.selections.Get(SelectionHandler(step).value) == Some(value) && w'.step == w.step
  {
    match SelectionHandler(step)
    case Some(c) => W.Select(w, c, value)
    case None => w
  }

  /** The screens of the strip, left to right. */
  datatype Screen = Choose(category: Category) | Confirm

  const Screens: seq<Screen> := [Choose(Character), Choose(Setting), Choose(Lesson), Confirm]

  /**
   The jump each selection screen is handed for a click on its title: that screen's own
   step. The screen never attaches the handler, so no input of the app reaches it.
   */
  function TitleTarget(s: Screen): (k: Option<int>)
    ensures s.Choose? ==> k == Some(W.StepOf(s.category))
    ensures s.Confirm? ==> k == None
  {
    match s
    case Choose(c) => Some(W.StepOf(c))
    case Confirm => None
  }

  /**
   The strip's order matches the wizard's step numbering: the screen at position k is the
   one step k shows, and the title handler it is handed targets position k.
   */
  lemma ScreensInStepOrder()
    ensures |Screens| == TotalSteps
    ensures forall k :: 0 <= k < |Screens| && Screens[k].Choose? ==>
              W.CategoryAt(k) == Some(Screens[k].category) && TitleTarget(Screens[k]) == Some(k)
    ensures Screens[W.ConfirmationStep] == Confirm
  {
  }

  /** The whole front end: the wizard and the strip's gesture tracker. */
  datatype App = App(wizard: W.Wizard, gesture: SwipeGesture.Gesture)

  const Start := App(W.Initial, SwipeGesture.Idle)

  /**
   Every input the app reacts to, including replies and timer firings. The generate button
   is disabled while a story is being generated, so a click then does nothing.
   */
  datatype Input =
    | Navigate(input: Nav.Input)
    | Pick(screen: int, value: string)
    | AutoAdvance
    | Edit(key: string)
    | Refresh(category: Category)
    | LoadReply(category: Category, list: Option<seq<string>>)
    | GenerateClick
    | GenerateReply(reply: StoryReply.Reply)

  /** One input applied atomically to the current state. */
  function Dispatch(a: App, i: Input): (a': App)
    ensures W.Valid(a.wizard) ==> W.Valid(a'.wizard)
    ensures !i.Navigate? ==> a'.gesture == a.gesture
    ensures i.GenerateClick? ==>
              (a' != a <==> !a.wizard.generating && W.AllSelected(a.wizard))
    ensures i.GenerateClick? && a' != a ==>
              a'.wizard.generating && a'.wizard.story == "" && a'.wizard.error == ""
  {
    var w := a.wizard;
    match i
    case Navigate(input) =>
      var r := Nav.OnInput(a.gesture, input, w.step, TotalSteps,
                           W.CanGoNext(w), W.CanGoPrev(w), true);
      App(if r.request.Some? then Apply(w, r.request.value) else w, r.gesture)
    case Pick(screen, value) =>
      App(if 0 <= screen < |Screens| && Screens[screen].Choose?
          then W.Select(w, Screens[screen].category, value) else w, a.gesture)
    case AutoAdvance => a.(wizard := W.NextStep(w))
    case Edit(key) => a.(wizard := HandleEditSelection(w, key))
    case Refresh(c) => a.(wizard := W.BeginLoad(w, c))
    case LoadReply(c, list) => a.(wizard := W.FinishLoad(w, c, list))
    case GenerateClick => a.(wizard := if w.generating then w else W.BeginGenerate(w))
    case GenerateReply(reply) => a.(wizard := W.FinishGenerate(w, reply))
  }

  /**
   When a request would be sent, the first click sends it and enters the generating state;
   a second click before the reply changes nothing, so no second request goes out.
   */
  lemma SecondClickSendsNoRequest(a: App)
    requires !a.wizard.generating && W.GenerateRequest(a.wizard).Some?
    ensures var a1 := Dispatch(a, GenerateClick);
      a1 != a && a1.wizard.generating && Dispatch(a1, GenerateClick) == a1
  {
  }

  function Run(a: App, inputs: seq<Input>): App
    decreases |inputs|
  {
    if inputs == [] then a else Run(Dispatch(a, inputs[0]), inputs[1..])
  }

  /** The app's invariant: a step in range and a well-formed gesture tracker. */
  predicate Inv(a: App) {
    W.Valid(a.wizard) && SwipeGesture.Inv(a.gesture, Nav.Tuning)
  }

  lemma DispatchInv(a: App, i: Input)
    requires Inv(a)
    ensures Inv(Dispatch(a, i))
  {
    if i.Navigate? && i.input.Pointer? {
      SwipeGesture.HandleInv(a.gesture, i.input.event, Nav.Tuning,
        Nav.SwipeCallbacks(W.CanGoNext(a.wizard), W.CanGoPrev(a.wizard)));
    }
  }

  /**
   In this model, where every auto-advance tests the live step, no order of swipes, keys,
   clicks, replies and auto-advance firings takes the step off the four screens, and the
   tracker stays well formed. The hook's timers test a captured step instead and can
   overrun (StoryWizard.CapturedAdvancesOverrun).
   */
  lemma {:induction false} RunInv(a: App, inputs: seq<Input>)
    requires Inv(a)
    ensures Inv(Run(a, inputs))
    decreases |inputs|
  {
    if inputs != [] {
      DispatchInv(a, inputs[0]);
      RunInv(Dispatch(a, inputs[0]), inputs[1..]);
    }
  }

  lemma StartInv()
    ensures Inv(Start)
  {
  }

  /**
   Arrow keys move one screen inside the range and are dropped at its ends: ArrowRight on the
   confirmation screen and ArrowLeft on the first screen leave the wizard as it was.
   */
  lemma ArrowKeysOnApp(a: App)
    requires W.Valid(a.wizard)
    ensures Dispatch(a, Navigate(Nav.Key("ArrowRight"))).wizard == W.NextStep(a.wizard)
    ensures Dispatch(a, Navigate(Nav.Key("ArrowLeft"))).wizard == W.PrevStep(a.wizard)
    ensures a.wizard.step == W.ConfirmationStep ==>
              Dispatch(a, Navigate(Nav.Key("ArrowRight"))).wizard == a.wizard
    ensures a.wizard.step == W.CharacterStep ==>
              Dispatch(a, Navigate(Nav.Key("ArrowLeft"))).wizard == a.wizard
  {
  }
}
