/**
 The older single-page front end: three sections whose choices are set field by field, a
 generate button shown once everything is chosen, and a progress ticker that walks through
 four messages while the story is requested and stops at the last one.
 */
module LegacyApp {

  import opened Options
  import opened Categories
  import opened StoryReply

  /** The messages shown while generating, one per progress step. */
  const ProgressMessages: seq<string> :=
    ["Mixing magical ingredients...", "Weaving the tale...", "Adding sparkles...", "Almost ready!"]

  /** The label shown for a progress step with no message. */
  const FallbackMessage := "Creating magic..."

  /** The ticker stops at the index of the last message. */
  const LastProgress: int := |ProgressMessages| - 1

  /**
   The page state. `pendingStory` is a delivered story waiting for its display timer: the
   page shows a story half a second after the reply arrives.
   */
  datatype Page = Page(
    selected: PerCategory<Option<string>>,
    options: PerCategory<seq<string>>,
    loading: PerCategory<bool>,
    generating: bool,
    story: string,
    error: string,
    progress: int,
    celebrating: Option<Category>,
    pendingStory: Option<string>)

  const Initial := Page(PerCategory(None, None, None), PerCategory([], [], []),
                        PerCategory(true, true, true), false, "", "", 0, None, None)

  /** Choosing a component sets its own field only and starts that section's celebration. */
  function SelectComponent(p: Page, c: Category, value: string): (p': Page)
    ensures p'.selected.Get(c) == Some(value)
    ensures forall d: Category :: d != c ==> p'.selected.Get(d) == p.selected.Get(d)
    ensures p'.celebrating == Some(c)
    ensures p'.(selected := p.selected, celebrating := p.celebrating) == p
  {
    p.(selected := p.selected.Set(c, Some(value)), celebrating := Some(c))
  }

  /** The celebration timer clears the highlight, whichever section it is on by then. */
  function EndCelebration(p: Page): (p': Page)
    ensures p'.celebrating == None && p'.(celebrating := p.celebrating) == p
  {
    p.(celebrating := None)
  }

  predicate AllSelected(p: Page) {
    Truthy(p.selected.character) && Truthy(p.selected.setting) && Truthy(p.selected.lesson)
  }

  /** The generate button: hidden until everything is chosen, disabled while generating. */
  datatype Button = Hidden | Shown(disabled: bool)

  function GenerateButton(p: Page): (b: Button)
    ensures b.Shown? <==> AllSelected(p)
    ensures b.Shown? ==> (b.disabled <==> p.generating)
  {
    if AllSelected(p) then Shown(p.generating) else Hidden
  }

  /**
   Starting generation: nothing happens unless everything is chosen; otherwise generating
   starts with the error and story cleared and the ticker at its first message.
   */
  function BeginGenerate(p: Page): (p': Page)
    ensures !AllSelected(p) ==> p' == p
    ensures AllSelected(p) ==>
      p'.generating && p'.error == "" && p'.story == "" && p'.progress == 0
    ensures p'.selected == p.selected && p'.options == p.options && p'.loading == p.loading
  {
    if !AllSelected(p) then p
    else p.(generating := true, error := "", story := "", progress := 0)
  }

  /** One step of the progress ticker: advance until the last message, then stay. */
  function Tick(step: int): (next: int)
    ensures step < LastProgress ==> next == step + 1
    ensures step >= LastProgress ==> next == step
  {
    if step < LastProgress then step + 1 else step
  }

  function Ticks(step: int, n: nat): int
    decreases n
  {
    if n == 0 then step else Ticks(Tick(step), n - 1)
  }

  /** From any step in range, n ticks land on the smaller of step + n and the last message. */
  lemma {:induction false} TicksSaturate(step: int, n: nat)
    requires 0 <= step <= LastProgress
    ensures Ticks(step, n) == if step + n <= LastProgress then step + n else LastProgress
    decreases n
  {
    if n > 0 {
      TicksSaturate(Tick(step), n - 1);
    }
  }

  /** The ticker fires only while its interval is running, that is while generating. */
  function TickPage(p: Page): (p': Page)
    ensures p'.(progress := p.progress) == p
    ensures 0 <= p.progress <= LastProgress ==> 0 <= p'.progress <= LastProgress
  {
    if p.generating then p.(progress := Tick(p.progress)) else p
  }

  /** The label under the spinner: a message while the step has one, else the fallback. */
  function ProgressLabel(step: nat): (text: string)
    ensures step < |ProgressMessages| ==> text == ProgressMessages[step]
    ensures step >= |ProgressMessages| ==> text == FallbackMessage
  {
    if step < 4 then ProgressMessages[step] else FallbackMessage
  }

  /** Completion: generating stops, the ticker resets, and the story waits for its timer or the error shows. */
  function FinishGenerate(p: Page, reply: Reply): (p': Page)
    ensures !p'.generating && p'.progress == 0
    ensures reply.Delivered? ==> p'.pendingStory == Some(reply.story) && p'.error == p.error
    ensures reply.NotOk? ==> p'.error == ErrorText(FailedMessage) && p'.pendingStory == p.pendingStory
    ensures reply.Thrown? ==> p'.error == ErrorText(reply.message) && p'.pendingStory == p.pendingStory
    ensures p'.story == p.story && p'.selected == p.selected
  {
    var p1 := match reply
      case Delivered(s) => p.(pendingStory := Some(s))
      case NotOk => p.(error := ErrorText(FailedMessage))
      case Thrown(m) => p.(error := ErrorText(m));
    p1.(generating := false, progress := 0)
  }

  /** The display timer of a delivered story shows it. */
  function RevealStory(p: Page): (p': Page)
    ensures p.pendingStory.Some? ==> p'.story == p.pendingStory.value && p'.pendingStory == None
    ensures p.pendingStory.None? ==> p' == p
  {
    match p.pendingStory
    case Some(s) => p.(story := s, pendingStory := None)
    case None => p
  }

  /**
   A delivered story, once its display timer fires, is the story shown: no error, not
   generating, the ticker back at its first message and nothing left pending.
   */
  lemma DeliveredLifecycle(p: Page, s: string)
    requires AllSelected(p)
    ensures var q := RevealStory(FinishGenerate(BeginGenerate(p), Delivered(s)));
      && q.story == s && q.error == "" && !q.generating && q.progress == 0
      && q.pendingStory.None?
  {
  }

  /** A non-OK reply shows the fixed message, with no story, and ends generation. */
  lemma NotOkLifecycle(p: Page)
    requires AllSelected(p)
    ensures var q := FinishGenerate(BeginGenerate(p), NotOk);
      && q.error == "Oops! Failed to generate story. Please try again!"
      && q.story == "" && !q.generating && q.progress == 0
  {
    NotOkErrorText();
  }

  /** Every input the page reacts to; replies and timer firings included. */
  datatype Input =
    | Choose(category: Category, value: string)
    | CelebrationTimer
    | StartLoad(category: Category)
    | LoadDone(category: Category, list: Option<seq<string>>)
    | GenerateClick
    | ProgressTimer
    | GenerateDone(reply: Reply)
    | StoryTimer

  /**
   One input applied to the page. A section's load touches only that section's flag and
   list. A generate click starts a request exactly when the button is shown and enabled, so
   a click while a story is being generated sends no second request.
   */
  function Dispatch(p: Page, i: Input): (p': Page)
    ensures i.StartLoad? ==> p'.loading.Get(i.category) && p'.(loading := p.loading) == p
    ensures i.LoadDone? ==>
              && !p'.loading.Get(i.category)
              && p'.options.Get(i.category) == (if i.list.Some? then i.list.value else p.options.Get(i.category))
              && p'.(loading := p.loading, options := p.options) == p
    ensures i.StartLoad? || i.LoadDone? ==>
              forall d: Category :: d != i.category ==>
                p'.loading.Get(d) == p.loading.Get(d) && p'.options.Get(d) == p.options.Get(d)
    ensures i.GenerateClick? ==> (p' != p <==> GenerateButton(p) == Shown(false))
    ensures i.GenerateClick? && p' != p ==> p'.generating && p'.progress == 0
  {
    match i
    case Choose(c, v) => SelectComponent(p, c, v)
    case CelebrationTimer => EndCelebration(p)
    case StartLoad(c) => p.(loading := p.loading.Set(c, true))
    case LoadDone(c, list) =>
      var p1 := if list.Some? then p.(options := p.options.Set(c, list.value)) else p;
      p1.(loading := p1.loading.Set(c, false))
    case GenerateClick => if GenerateButton(p) == Shown(false) then BeginGenerate(p) else p
    case ProgressTimer => TickPage(p)
    case GenerateDone(reply) => FinishGenerate(p, reply)
    case StoryTimer => RevealStory(p)
  }

  /**
   A click that starts generation disables the button it came from, so a second click before
   the reply changes nothing.
   */
  lemma SecondClickIgnored(p: Page)
    requires GenerateButton(p) == Shown(false)
    ensures GenerateButton(Dispatch(p, GenerateClick)) == Shown(true)
    ensures Dispatch(Dispatch(p, GenerateClick), GenerateClick) == Dispatch(p, GenerateClick)
  {
  }

  function Run(p: Page, inputs: seq<Input>): Page
    decreases |inputs|
  {
    if inputs == [] then p else Run(Dispatch(p, inputs[0]), inputs[1..])
  }

  /**
   Whatever happens, the progress step stays within the messages, so the label shown while
   generating is always one of the four messages and never the fallback.
   */
  lemma {:induction false} ProgressAlwaysHasMessage(p: Page, inputs: seq<Input>)
    requires 0 <= p.progress <= LastProgress
    ensures var q := Run(p, inputs);
      0 <= q.progress <= LastProgress && ProgressLabel(q.progress) in ProgressMessages
    decreases |inputs|
  {
    if inputs == [] {
      assert ProgressLabel(p.progress) == ProgressMessages[p.progress];
    } else {
      ProgressAlwaysHasMessage(Dispatch(p, inputs[0]), inputs[1..]);
    }
  }
}
