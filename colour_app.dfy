/** The component's state and its event handlers: a generation (request, loading flag,
    colour list), the description field, the scheme dropdown and the clipboard echo with
    its single hide-timer slot. */
module ColourApp {
  import opened Options
  import opened HexCodes
  import opened Palette

  /** Where a click lands. */
  datatype Target =
    | SearchButton
      /** The description field: it has no click handler of its own. */
    | DescriptionField
      /** The dropdown button itself; a click on its label text also targets the button. */
    | DropdownButton
      /** The caret icon inside the dropdown button: a different event target. */
    | DropdownCaret
    | SchemeOption(choice: Scheme)
    | Swatch(index: nat)
    | Elsewhere

  /** The component's state variables and hide-timer ref, together with the host's set of
      scheduled hide timers and the id its next `setTimeout` returns. */
  datatype AppState = AppState(
    colours: seq<string>,
    loading: bool,
    emotion: string,
    dropdownActive: bool,
    copiedColour: Option<string>,
    showCopiedColour: bool,
    scheme: Scheme,
    timer: Option<nat>,
    pendingTimers: set<nat>,
    nextTimerId: nat)
  {
    /** While a request is out the list stays empty; at most one hide timer is scheduled,
        and it is the one the ref holds; the ref holds an id already handed out. */
    predicate Valid() {
      (loading ==> colours == [])
      && (forall id :: id in pendingTimers ==> timer == Some(id))
      && (timer.Some? ==> timer.value < nextTimerId)
    }
  }

  /** The state on first render. `showCopiedColour` starts as "", which is falsy. Timer ids
      are positive, so a ref that holds one is truthy. */
  const Initial: AppState := AppState([], false, "", false, Some(""), false, InitialScheme, None, {}, 1)

  /** `onChange` of the description field; a disabled field receives no input. */
  function AfterType(st: AppState, text: string): AppState {
    if st.loading then st else st.(emotion := text)
  }

  /** `generateColours` up to the request: the list is cleared and loading is set. */
  function AfterStart(st: AppState): AppState {
    st.(colours := [], loading := true)
  }

  /** `generateColours` after the response: loading is reset and the list is replaced only
      when something matched. */
  function AfterFinish(st: AppState, text: Option<string>): AppState {
    st.(loading := false,
        colours := match Extracted(text) case None => st.colours case Some(m) => m)
  }

  /** `handleKeyDown`, delivered only while the field is enabled. */
  function AfterKeyDown(st: AppState, key: string): AppState {
    if !st.loading && EnterStarts(key, st.emotion) then AfterStart(st) else st
  }

  /** `copyToClipboard(value)`: the value is echoed and shown, the timer the ref holds is
      cleared, and a new hide timer is scheduled and kept in the ref. */
  function AfterCopy(st: AppState, value: Option<string>): AppState {
    var kept := if st.timer.Some? then st.pendingTimers - {st.timer.value} else st.pendingTimers;
    st.(copiedColour := value, showCopiedColour := true, timer := Some(st.nextTimerId),
        pendingTimers := kept + {st.nextTimerId}, nextTimerId := st.nextTimerId + 1)
  }

  /** A scheduled hide timer runs: the echo is hidden. The ref keeps the spent id. */
  function AfterFire(st: AppState, id: nat): AppState
    requires id in st.pendingTimers
  {
    st.(showCopiedColour := false, pendingTimers := st.pendingTimers - {id})
  }

  /** A click on a disabled form control (the search button, the dropdown button with its
      caret, the description field) dispatches no event at all. */
  predicate Delivered(st: AppState, target: Target) {
    match target
    case SearchButton => !SearchDisabled(st.emotion, st.loading)
    case DescriptionField => !st.loading
    case DropdownButton => !st.loading
    case DropdownCaret => !st.loading
    case _ => true
  }

  /** The element's own `onClick`. The options exist only while the dropdown is open, and
      only five swatches exist. */
  function AfterHandler(st: AppState, target: Target): AppState {
    match target
    case SearchButton => AfterStart(st)
    case DescriptionField => st
    case DropdownButton => st.(dropdownActive := !st.dropdownActive)
    case DropdownCaret => st.(dropdownActive := !st.dropdownActive)
    case SchemeOption(s) => if st.dropdownActive then st.(scheme := s) else st
    case Swatch(i) => if i < SwatchCount then AfterCopy(st, CopiedValue(st.colours, i)) else st
    case Elsewhere => st
  }

  /** The window's click listener, which runs after the element's handler: any click whose
      target is not the dropdown button closes the dropdown. */
  function AfterWindowClick(st: AppState, target: Target): AppState {
    if target == DropdownButton then st else st.(dropdownActive := false)
  }

  function AfterClick(st: AppState, target: Target): AppState {
    if Delivered(st, target) then AfterWindowClick(AfterHandler(st, target), target) else st
  }

  /** The prompt a click sends, if it starts a generation. */
  function ClickPrompt(st: AppState, target: Target): Option<string> {
    if target == SearchButton && Delivered(st, target) then Some(Prompt(st.scheme, st.emotion)) else None
  }

  /** The prompt a key press sends, if it starts a generation. */
  function KeyDownPrompt(st: AppState, key: string): Option<string> {
    if !st.loading && EnterStarts(key, st.emotion) then Some(Prompt(st.scheme, st.emotion)) else None
  }

  lemma InitialIsValid()
    ensures Initial.Valid() && !Initial.loading && Initial.colours == [] && Initial.pendingTimers == {}
  {
  }

  /** Typing, a key press and a completion keep the state valid. */
  lemma InputPreservesValid(st: AppState, text: string, key: string, response: Option<string>)
    requires st.Valid()
    ensures AfterType(st, text).Valid()
    ensures AfterKeyDown(st, key).Valid()
    ensures st.loading ==> AfterFinish(st, response).Valid()
  {
  }

  /** Every click keeps the state valid. */
  lemma ClickPreservesValid(st: AppState, target: Target)
    requires st.Valid()
    ensures AfterClick(st, target).Valid()
  {
    if target.Swatch? && target.index < SwatchCount && Delivered(st, target) {
      CopyArmsOneTimer(st, CopiedValue(st.colours, target.index));
    }
  }

  /** After a copy the value is echoed and visible, and exactly one hide timer, the new
      one, is scheduled. */
  lemma CopyArmsOneTimer(st: AppState, value: Option<string>)
    requires st.Valid()
    ensures var s1 := AfterCopy(st, value);
      s1.Valid() && s1.copiedColour == value && s1.showCopiedColour
      && s1.timer == Some(st.nextTimerId) && s1.pendingTimers == {st.nextTimerId}
  {
    var kept := if st.timer.Some? then st.pendingTimers - {st.timer.value} else st.pendingTimers;
    assert kept == {};
  }

  /** A second copy cancels the first copy's hide timer instead of adding another: one
      timer stays scheduled, the second's, and the echo shows the second value. */
  lemma SecondCopyCancelsFirst(st: AppState, a: Option<string>, b: Option<string>)
    requires st.Valid()
    ensures var s1 := AfterCopy(st, a); var s2 := AfterCopy(s1, b);
      s1.timer.Some? && s1.timer.value !in s2.pendingTimers
      && s2.pendingTimers == {s1.nextTimerId} && |s2.pendingTimers| == 1
      && s2.copiedColour == b && s2.showCopiedColour
  {
    CopyArmsOneTimer(st, a);
    CopyArmsOneTimer(AfterCopy(st, a), b);
  }

  /** The hide timer that fires is the one the ref holds; it hides the echo, keeps the
      copied value and leaves no timer scheduled, so the echo is hidden once. */
  lemma FireHidesOnce(st: AppState, id: nat)
    requires st.Valid() && id in st.pendingTimers
    ensures var s1 := AfterFire(st, id);
      st.timer == Some(id) && !s1.showCopiedColour && s1.copiedColour == st.copiedColour
      && s1.pendingTimers == {} && s1.Valid()
  {
  }

  /** `colours` after a completion is the palette of the response text. */
  lemma FinishGivesPalette(st: AppState, response: Option<string>)
    requires st.Valid() && st.loading
    ensures var s1 := AfterFinish(st, response);
      !s1.loading && s1.colours == PaletteOf(response) && s1.Valid()
  {
  }

  /** A refusal without hex digits ends the generation with the list left empty, so all
      five swatches show the placeholder. */
  lemma RefusalLeavesPlaceholders(st: AppState)
    requires st.Valid() && st.loading
    ensures var s1 := AfterFinish(st, Some("I won't, sorry"));
      !s1.loading && s1.colours == [] && Swatches(s1.colours) == Placeholders(SwatchCount)
  {
    TrimKeepsMatches("I won't, sorry");
    RefusalExample();
    SwatchesShowFirstFive([]);
  }

  /** A generation started by the search button clears the list and sets loading, and the
      completion then leaves the palette of the response and nothing else changed. */
  lemma GenerationRoundTrip(st: AppState, response: Option<string>)
    requires st.Valid() && !st.loading && st.emotion != []
    ensures var s1 := AfterClick(st, SearchButton);
      ClickPrompt(st, SearchButton) == Some(Prompt(st.scheme, st.emotion))
      && s1.loading && s1.colours == [] && !s1.dropdownActive
      && AfterFinish(s1, response) == st.(colours := PaletteOf(response), dropdownActive := false)
  {
  }

  /** While a request is out no event can start another one. */
  lemma LoadingBlocksRequests(st: AppState, target: Target, key: string)
    requires st.loading
    ensures ClickPrompt(st, target) == None && KeyDownPrompt(st, key) == None
    ensures AfterKeyDown(st, key) == st && AfterType(st, key) == st
  {
  }

  /** A generation starts from the keyboard or the button exactly when the description is
      not empty and none is running. */
  lemma GenerationGate(st: AppState, key: string)
    ensures KeyDownPrompt(st, key).Some? <==> key == "Enter" && st.emotion != [] && !st.loading
    ensures ClickPrompt(st, SearchButton).Some? <==> st.emotion != [] && !st.loading
  {
  }

  /** Selecting a scheme closes the dropdown, and the next generation asks for it. */
  lemma SelectThenGenerate(st: AppState, s: Scheme)
    requires st.dropdownActive
    ensures var s1 := AfterClick(st, SchemeOption(s));
      s1.scheme == s && !s1.dropdownActive
      && (st.emotion != [] && !st.loading ==> ClickPrompt(s1, SearchButton) == Some(Prompt(s, st.emotion)))
  {
  }

  /** The dropdown button toggles the list; any other delivered click closes it, a click on
      the caret icon included. */
  lemma DropdownClicks(st: AppState, target: Target)
    ensures !st.loading ==> AfterClick(st, DropdownButton).dropdownActive == !st.dropdownActive
    ensures target != DropdownButton && Delivered(st, target) ==> !AfterClick(st, target).dropdownActive
    ensures !AfterClick(st, DropdownCaret).dropdownActive || (st.loading && st.dropdownActive)
  {
  }

  /** A click on the description field while it is disabled changes nothing, so an open
      dropdown stays open; once enabled, the click closes it like any other. */
  lemma DisabledFieldClick(st: AppState)
    ensures st.loading ==> AfterClick(st, DescriptionField) == st
    ensures !st.loading ==> AfterClick(st, DescriptionField) == st.(dropdownActive := false)
  {
  }

  /** The component as a mutable object whose fields the handlers update in place. */
  class App {
    var colours: seq<string>
    var loading: bool
    var emotion: string
    var dropdownActive: bool
    var copiedColour: Option<string>
    var showCopiedColour: bool
    var scheme: Scheme
    var timer: Option<nat>
    var pendingTimers: set<nat>
    var nextTimerId: nat

    function State(): AppState
      reads this
    {
      AppState(colours, loading, emotion, dropdownActive, copiedColour, showCopiedColour,
               scheme, timer, pendingTimers, nextTimerId)
    }

    predicate Valid()
      reads this
    {
      State().Valid()
    }

    constructor ()
      ensures State() == Initial && Valid()
    {
      colours, loading, emotion, dropdownActive := [], false, "", false;
      copiedColour, showCopiedColour, scheme := Some(""), false, InitialScheme;
      timer, pendingTimers, nextTimerId := None, {}, 1;
    }

    method Type(text: string)
      requires Valid()
      modifies this
      ensures State() == AfterType(old(State()), text) && Valid()
    {
      if !loading {
        emotion := text;
      }
    }

    /** `generateColours` up to the awaited request; returns the prompt it sends. */
    method StartGeneration() returns (prompt: string)
      requires Valid()
      modifies this
      ensures prompt == Prompt(old(scheme), old(emotion))
      ensures State() == AfterStart(old(State())) && Valid()
    {
      colours := [];
      loading := true;
      prompt := Prompt(scheme, emotion);
    }

    /** `generateColours` once the response text (if any) has arrived. */
    method FinishGeneration(response: Option<string>)
      requires Valid() && loading
      modifies this
      ensures State() == AfterFinish(old(State()), response) && Valid()
      ensures colours == PaletteOf(response)
    {
      loading := false;
      var matches := Extracted(response);
      if matches.Some? {
        colours := matches.value;
      }
    }

    method HandleKeyDown(key: string) returns (prompt: Option<string>)
      requires Valid()
      modifies this
      ensures prompt == KeyDownPrompt(old(State()), key)
      ensures State() == AfterKeyDown(old(State()), key) && Valid()
    {
      prompt := None;
      if !loading && key == "Enter" && |emotion| > 0 {
        var p := StartGeneration();
        prompt := Some(p);
      }
    }

    method CopyToClipboard(value: Option<string>)
      requires Valid()
      modifies this
      ensures State() == AfterCopy(old(State()), value) && Valid()
      ensures pendingTimers == {old(nextTimerId)}
    {
      copiedColour := value;
      showCopiedColour := true;
      if timer.Some? {
        pendingTimers := pendingTimers - {timer.value};
      }
      timer := Some(nextTimerId);
      pendingTimers := pendingTimers + {nextTimerId};
      nextTimerId := nextTimerId + 1;
      CopyArmsOneTimer(old(State()), value);
    }

    method FireHideTimer(id: nat)
      requires Valid() && id in pendingTimers
      modifies this
      ensures State() == AfterFire(old(State()), id) && Valid()
      ensures !showCopiedColour && copiedColour == old(copiedColour) && pendingTimers == {}
    {
      showCopiedColour := false;
      pendingTimers := pendingTimers - {id};
    }

    method HandleWindowClick(target: Target)
      modifies this
      ensures State() == AfterWindowClick(old(State()), target)
    {
      if target != DropdownButton {
        dropdownActive := false;
      }
    }

    /** A click: the target's own handler, then the window's listener. */
    method Click(target: Target) returns (prompt: Option<string>)
      requires Valid()
      modifies this
      ensures prompt == ClickPrompt(old(State()), target)
      ensures State() == AfterClick(old(State()), target) && Valid()
    {
      prompt := None;
      if !Delivered(State(), target) {
        return;
      }
      match target {
        case SearchButton =>
          var p := StartGeneration();
          prompt := Some(p);
        case DescriptionField =>
        case DropdownButton =>
          dropdownActive := !dropdownActive;
        case DropdownCaret =>
          dropdownActive := !dropdownActive;
        case SchemeOption(s) =>
          if dropdownActive {
            scheme := s;
          }
        case Swatch(i) =>
          if i < SwatchCount {
            CopyToClipboard(CopiedValue(colours, i));
          }
        case Elsewhere =>
      }
      HandleWindowClick(target);
    }
  }

  /** Two copies in a row, then the one hide timer left fires. */
  method ClipboardEchoScenario() {
    var app := new App();
    app.CopyToClipboard(Some("#AABBCC"));
    var first := app.timer.value;
    assert app.copiedColour == Some("#AABBCC") && app.showCopiedColour;
    app.CopyToClipboard(Some("#112233"));
    assert first !in app.pendingTimers && app.copiedColour == Some("#112233");
    var second := app.timer.value;
    app.FireHideTimer(second);
    assert !app.showCopiedColour && app.copiedColour == Some("#112233") && app.pendingTimers == {};
  }
}
