/** The logic of `ChatWindow`: the conversation history, the enabled state of the
    input, the status label and the worker in flight, driven by the window's
    slots as explicit events processed one at a time on the UI thread. */
module ChatWindow {
  import opened Text
  import opened Transcript
  import opened Configuration
  import opened Worker
  import StatusLabel

  /** Where the current request stands. `Signalled`: the worker has emitted its
      one signal but `finished` has not been delivered yet. */
  datatype Phase = Idle | Running(job: Job) | Signalled

  /** The state `ChatWindow` keeps. `lib` is `GOOGLE_AI_AVAILABLE`, `config` the
      global configuration, `inputEnabled` the enabled state of both the input
      line and the send button. */
  datatype Window = Window(
    lib: bool,
    config: Config,
    history: seq<Turn>,
    inputEnabled: bool,
    status: StatusLabel.Label,
    phase: Phase)

  /** The slots of the window, plus a status timer firing. */
  datatype Event =
    | Send(input: string)               // `send_message` with the input line's text
    | Respond(text: string)             // `handle_response`
    | Fail(message: string)             // `handle_error`
    | WorkerFinished                    // `on_worker_finished`
    | SettingsChanged(file: ConfigFile) // `on_settings_changed` after the dialog saved
    | TimerFired(message: string)       // the single-shot timer of `show_status_message(message)`

  const ThinkingMessage := "AI is thinking..."
  /** "Error: API Key not set..." */
  const SendKeyMissing := "Error: " + StatusLabel.KeyNotSetMarker + "..."
  /** "Error: Google AI library not installed.", kept in short pieces so that
      facts about its characters stay cheap to check. */
  const SendLibraryMissing := "Error: " + "Google AI " + "library " + "not " + "installed."

  /** The window right after `__init__`. */
  function Init(lib: bool, file: ConfigFile, colorRaises: string -> bool): (w: Window)
    ensures w.history == [] && w.inputEnabled && w.phase == Idle
    ensures w.config == Load(file, colorRaises) && w.lib == lib
    ensures w.status == StatusLabel.RefreshForConfig(StatusLabel.Initial, lib, ApiKey(w.config))
    ensures !lib || ApiKey(w.config) == "" <==> w.status.visible
    ensures !lib || ApiKey(w.config) == "" ==> StatusLabel.Sticky(w.status)
  {
    var config := Load(file, colorRaises);
    StatusLabel.WarningsAreSticky(StatusLabel.Initial);
    Window(lib, config, [], true,
           StatusLabel.RefreshForConfig(StatusLabel.Initial, lib, ApiKey(config)), Idle)
  }

  /** `send_message` starts a request for this input. */
  predicate Accepts(w: Window, input: string)
  {
    w.inputEnabled && Strip(input) != "" && ApiKey(w.config) != "" && w.lib
  }

  /** `send_message`. A disabled input line and send button cannot fire it. */
  function SendMessage(w: Window, input: string): (r: Window)
    ensures !w.inputEnabled || Strip(input) == "" ==> r == w
    ensures !Accepts(w, input) ==>
      r.history == w.history && r.phase == w.phase && r.inputEnabled == w.inputEnabled
    ensures Accepts(w, input) ==>
      && r.history == w.history + [Turn(User, Strip(input))]
      && !r.inputEnabled
      && r.phase == Running(Job(ApiKey(w.config), Strip(input), r.history))
      && r.status == StatusLabel.Show(w.status, ThinkingMessage, false, StatusLabel.DefaultDuration)
      && r.status.visible && !r.status.isError
    ensures w.inputEnabled && Strip(input) != "" && ApiKey(w.config) == "" ==>
      && r.status == StatusLabel.Show(w.status, SendKeyMissing, true, StatusLabel.DefaultDuration)
      && r.status.visible && StatusLabel.Sticky(r.status)
    ensures w.inputEnabled && Strip(input) != "" && ApiKey(w.config) != "" && !w.lib ==>
      r.status == StatusLabel.Show(w.status, SendLibraryMissing, true, StatusLabel.DefaultDuration)
    ensures r.config == w.config && r.lib == w.lib
  {
    if !w.inputEnabled then w
    else
      var message := Strip(input);
      if message == "" then w
      else if ApiKey(w.config) == "" then
        ContainsInfix("Error: ", StatusLabel.KeyNotSetMarker, "...");
        w.(status := StatusLabel.Show(w.status, SendKeyMissing, true, StatusLabel.DefaultDuration))
      else if !w.lib then
        w.(status := StatusLabel.Show(w.status, SendLibraryMissing, true, StatusLabel.DefaultDuration))
      else
        var history := w.history + [Turn(User, message)];
        w.(history := history,
           status := StatusLabel.Show(w.status, ThinkingMessage, false, StatusLabel.DefaultDuration),
           inputEnabled := false,
           phase := Running(Job(ApiKey(w.config), message, history)))
  }

  /** `handle_response`. */
  function HandleResponse(w: Window, text: string): (r: Window)
    ensures r.history == w.history + [Turn(Model, text)]
    ensures r.status == StatusLabel.Hide(w.status)
    ensures r.phase == Signalled && r.inputEnabled == w.inputEnabled
    ensures r.config == w.config && r.lib == w.lib
  {
    w.(history := w.history + [Turn(Model, text)], status := StatusLabel.Hide(w.status), phase := Signalled)
  }

  /** `handle_error`: the pending user turn is withdrawn, only if the history ends with one. */
  function HandleError(w: Window, message: string): (r: Window)
    ensures |w.history| > 0 && w.history[|w.history| - 1].role == User ==>
      r.history == w.history[..|w.history| - 1]
    ensures |w.history| == 0 || w.history[|w.history| - 1].role != User ==> r.history == w.history
    ensures r.status == StatusLabel.Show(w.status, message, true, StatusLabel.DefaultDuration)
    ensures r.status.visible && r.status.isError && r.status.text == message
    ensures r.phase == Signalled && r.inputEnabled == w.inputEnabled
    ensures r.config == w.config && r.lib == w.lib
  {
    var history :=
      if |w.history| > 0 && w.history[|w.history| - 1].role == User then w.history[..|w.history| - 1]
      else w.history;
    w.(history := history,
       status := StatusLabel.Show(w.status, message, true, StatusLabel.DefaultDuration),
       phase := Signalled)
  }

  /** `on_worker_finished`: input enabled again; the label is hidden unless it shows an error. */
  function OnWorkerFinished(w: Window): (r: Window)
    ensures r.inputEnabled && r.phase == Idle && r.history == w.history
    ensures w.status.isError ==> r.status == w.status
    ensures !w.status.isError ==> !r.status.visible
    ensures r.status == StatusLabel.AfterWorkerFinished(w.status)
    ensures r.config == w.config && r.lib == w.lib
  {
    w.(inputEnabled := true, status := StatusLabel.AfterWorkerFinished(w.status), phase := Idle)
  }

  /** `on_settings_changed`: the configuration is reloaded, the label refreshed
      and the conversation discarded. The phase and the input are left alone. */
  function OnSettingsChanged(w: Window, file: ConfigFile, colorRaises: string -> bool): (r: Window)
    ensures r.history == []
    ensures r.config == Load(file, colorRaises)
    ensures r.phase == w.phase && r.inputEnabled == w.inputEnabled && r.lib == w.lib
    ensures r.status == StatusLabel.RefreshForConfig(w.status, w.lib, ApiKey(r.config))
    ensures !w.lib || ApiKey(r.config) == "" ==> r.status.visible && StatusLabel.Sticky(r.status)
  {
    var config := Load(file, colorRaises);
    StatusLabel.WarningsAreSticky(w.status);
    w.(config := config,
       status := StatusLabel.RefreshForConfig(w.status, w.lib, ApiKey(config)),
       history := [])
  }

  /** One event. The worker's signals arrive only while it runs and `finished`
      only after its signal; at other times those events cannot occur and are
      ignored. */
  function Step(w: Window, e: Event, colorRaises: string -> bool): (r: Window)
    ensures (e.Respond? || e.Fail?) && !w.phase.Running? ==> r == w
    ensures e.WorkerFinished? && !w.phase.Signalled? ==> r == w
    ensures e.Respond? && w.phase.Running? ==> r == HandleResponse(w, e.text)
    ensures e.Fail? && w.phase.Running? ==> r == HandleError(w, e.message)
    ensures e.WorkerFinished? && w.phase.Signalled? ==> r == OnWorkerFinished(w)
    ensures e.TimerFired? ==> r == w.(status := StatusLabel.Expire(w.status, e.message))
    ensures e.Send? ==> r == SendMessage(w, e.input)
    ensures e.SettingsChanged? ==> r == OnSettingsChanged(w, e.file, colorRaises)
    ensures !e.SettingsChanged? ==> r.config == w.config
    ensures r.lib == w.lib
  {
    match e
    case Send(input) => SendMessage(w, input)
    case Respond(text) => if w.phase.Running? then HandleResponse(w, text) else w
    case Fail(message) => if w.phase.Running? then HandleError(w, message) else w
    case WorkerFinished => if w.phase.Signalled? then OnWorkerFinished(w) else w
    case SettingsChanged(file) => OnSettingsChanged(w, file, colorRaises)
    case TimerFired(message) => w.(status := StatusLabel.Expire(w.status, message))
  }

  /** A sequence of events, in order. */
  function RunEvents(w: Window, events: seq<Event>, colorRaises: string -> bool): (r: Window)
    decreases |events|
  {
    if |events| == 0 then w else RunEvents(Step(w, events[0], colorRaises), events[1..], colorRaises)
  }

  /** The settings button is not disabled during a request; this excludes using it then. */
  predicate NoResetInFlight(w: Window, events: seq<Event>, colorRaises: string -> bool)
    decreases |events|
  {
    |events| == 0 ||
    (!(events[0].SettingsChanged? && w.phase.Running?)
     && NoResetInFlight(Step(w, events[0], colorRaises), events[1..], colorRaises))
  }

  /** The window's invariant: input is enabled exactly when no request runs; with
      no request running the history is settled (user, model, ..., model); while
      one runs the worker's history is the window's, which ends with the prompt. */
  ghost predicate Inv(w: Window)
  {
    && (w.inputEnabled <==> w.phase.Idle?)
    && (!w.phase.Running? ==> Settled(w.history))
    && (w.phase.Running? ==>
          && w.lib && w.phase.job.apiKey != ""
          && Alternating(w.history) && |w.history| > 0 && |w.history| % 2 == 1
          && w.phase.job.history == w.history
          && w.history[|w.history| - 1] == Turn(User, w.phase.job.message))
    && StatusLabel.TimersClean(w.status)
  }

  lemma InitSatisfiesInv(lib: bool, file: ConfigFile, colorRaises: string -> bool)
    ensures Inv(Init(lib, file, colorRaises))
  {
    StatusLabel.TimersStayClean(StatusLabel.Initial, "", false, 0, lib, ApiKey(Load(file, colorRaises)));
  }

  lemma SendKeepsInv(w: Window, input: string)
    requires Inv(w)
    ensures Inv(SendMessage(w, input))
  {
    var r := SendMessage(w, input);
    if !w.inputEnabled || Strip(input) == "" {
      assert r == w;
    } else if ApiKey(w.config) == "" {
      StatusLabel.TimersStayClean(w.status, SendKeyMissing, true, StatusLabel.DefaultDuration, w.lib, "");
      assert r.status == StatusLabel.Show(w.status, SendKeyMissing, true, StatusLabel.DefaultDuration);
    } else if !w.lib {
      StatusLabel.TimersStayClean(w.status, SendLibraryMissing, true, StatusLabel.DefaultDuration, w.lib, "");
      assert r.status == StatusLabel.Show(w.status, SendLibraryMissing, true, StatusLabel.DefaultDuration);
    } else {
      StatusLabel.TimersStayClean(w.status, ThinkingMessage, false, StatusLabel.DefaultDuration, w.lib, "");
      assert r.status == StatusLabel.Show(w.status, ThinkingMessage, false, StatusLabel.DefaultDuration);
      AppendUser(w.history, Strip(input));
    }
  }

  lemma RespondKeepsInv(w: Window, text: string)
    requires Inv(w) && w.phase.Running?
    ensures Inv(HandleResponse(w, text))
  {
    StatusLabel.TimersStayClean(w.status, text, true, 0, w.lib, "");
    AppendModel(w.history, text);
  }

  lemma FailKeepsInv(w: Window, message: string)
    requires Inv(w) && w.phase.Running?
    ensures Inv(HandleError(w, message))
  {
    StatusLabel.TimersStayClean(w.status, message, true, StatusLabel.DefaultDuration, w.lib, "");
    DropLast(w.history);
  }

  lemma FinishedKeepsInv(w: Window)
    requires Inv(w) && w.phase.Signalled?
    ensures Inv(OnWorkerFinished(w))
  {
    StatusLabel.TimersStayClean(w.status, "", true, 0, w.lib, "");
  }

  lemma SettingsKeepInv(w: Window, file: ConfigFile, colorRaises: string -> bool)
    requires Inv(w) && !w.phase.Running?
    ensures Inv(OnSettingsChanged(w, file, colorRaises))
  {
    StatusLabel.TimersStayClean(w.status, "", true, 0, w.lib, ApiKey(Load(file, colorRaises)));
  }

  /** Every event except a settings reset during a request keeps the invariant. */
  lemma StepKeepsInv(w: Window, e: Event, colorRaises: string -> bool)
    requires Inv(w)
    requires !(e.SettingsChanged? && w.phase.Running?)
    ensures Inv(Step(w, e, colorRaises))
  {
    match e
    case Send(input) => SendKeepsInv(w, input);
    case Respond(text) => if w.phase.Running? { RespondKeepsInv(w, text); }
    case Fail(message) => if w.phase.Running? { FailKeepsInv(w, message); }
    case WorkerFinished => if w.phase.Signalled? { FinishedKeepsInv(w); }
    case SettingsChanged(file) => SettingsKeepInv(w, file, colorRaises);
    case TimerFired(message) => StatusLabel.TimersStayClean(w.status, message, true, 0, w.lib, "");
  }

  /** Any run of events without a settings reset during a request keeps the invariant. */
  lemma {:induction false} RunKeepsInv(w: Window, events: seq<Event>, colorRaises: string -> bool)
    requires Inv(w)
    requires NoResetInFlight(w, events, colorRaises)
    ensures Inv(RunEvents(w, events, colorRaises))
    decreases |events|
  {
    if |events| > 0 {
      StepKeepsInv(w, events[0], colorRaises);
      RunKeepsInv(Step(w, events[0], colorRaises), events[1..], colorRaises);
    }
  }

  /** So whenever no request runs the conversation alternates user, model, ...,
      starting with the user and ending with the model. */
  lemma IdleHistoryAlternates(lib: bool, file: ConfigFile, events: seq<Event>, colorRaises: string -> bool)
    requires NoResetInFlight(Init(lib, file, colorRaises), events, colorRaises)
    ensures var w := RunEvents(Init(lib, file, colorRaises), events, colorRaises);
      !w.phase.Running? ==> Settled(w.history)
  {
    InitSatisfiesInv(lib, file, colorRaises);
    RunKeepsInv(Init(lib, file, colorRaises), events, colorRaises);
  }

  /** The history copy is taken after the prompt is appended: the worker always
      makes a multi-turn call whose history already ends with the prompt it then
      sends again, and the single-turn call is never made from the window. */
  lemma WorkerRequestRepeatsPrompt(w: Window)
    requires Inv(w) && w.phase.Running?
    ensures PlanRequest(w.phase.job) == MultiTurn(w.history, w.phase.job.message)
    ensures w.history[|w.history| - 1] == Turn(User, w.phase.job.message)
  {
  }

  /** The signal a worker emits, as the event the window receives. */
  function SignalEvent(s: Signal): (e: Event)
  {
    match s
    case ResponseReceived(text) => Respond(text)
    case ErrorOccurred(message) => Fail(message)
  }

  /** A request runs to completion: the worker's one signal, then `finished`.
      The history gains exactly the model's reply, or loses exactly the prompt. */
  lemma CompletionSettles(w: Window, reply: Request -> CallResult, colorRaises: string -> bool)
    requires Inv(w) && w.phase.Running?
    ensures var s := Worker.Run(w.lib, w.phase.job, reply);
      var r := RunEvents(w, [SignalEvent(s), WorkerFinished], colorRaises);
      && Inv(r) && r.phase == Idle && r.inputEnabled
      && (s.ResponseReceived? ==> r.history == w.history + [Turn(Model, s.text)])
      && (s.ErrorOccurred? ==> r.history == w.history[..|w.history| - 1])
      && (s.ErrorOccurred? ==> r.status.visible && r.status.isError && r.status.text == s.message)
  {
    var s := Worker.Run(w.lib, w.phase.job, reply);
    if s.ResponseReceived? {
      assert SignalEvent(s) == Respond(s.text);
      ReplyThenFinished(w, s.text, colorRaises);
    } else {
      assert SignalEvent(s) == Fail(s.message);
      ErrorThenFinished(w, s.message, colorRaises);
    }
  }

  /** A reply followed by `finished`: idle again, with exactly the reply added. */
  lemma ReplyThenFinished(w: Window, text: string, colorRaises: string -> bool)
    requires Inv(w) && w.phase.Running?
    ensures var r := RunEvents(w, [Respond(text), WorkerFinished], colorRaises);
      Inv(r) && r.phase == Idle && r.inputEnabled && r.history == w.history + [Turn(Model, text)]
  {
    SignalThenFinished(w, Respond(text), colorRaises);
    RespondKeepsInv(w, text);
    FinishedKeepsInv(HandleResponse(w, text));
  }

  /** An error followed by `finished`: idle again, the prompt withdrawn and the error shown. */
  lemma ErrorThenFinished(w: Window, message: string, colorRaises: string -> bool)
    requires Inv(w) && w.phase.Running?
    ensures var r := RunEvents(w, [Fail(message), WorkerFinished], colorRaises);
      && Inv(r) && r.phase == Idle && r.inputEnabled && r.history == w.history[..|w.history| - 1]
      && r.status.visible && r.status.isError && r.status.text == message
  {
    SignalThenFinished(w, Fail(message), colorRaises);
    FailKeepsInv(w, message);
    var w1 := HandleError(w, message);
    FinishedKeepsInv(w1);
    assert OnWorkerFinished(w1).status == w1.status;
  }

  /** A worker's signal followed by `finished` is the signal's handler followed by `on_worker_finished`. */
  lemma SignalThenFinished(w: Window, e: Event, colorRaises: string -> bool)
    requires w.phase.Running? && (e.Respond? || e.Fail?)
    ensures e.Respond? ==> RunEvents(w, [e, WorkerFinished], colorRaises) == OnWorkerFinished(HandleResponse(w, e.text))
    ensures e.Fail? ==> RunEvents(w, [e, WorkerFinished], colorRaises) == OnWorkerFinished(HandleError(w, e.message))
  {
    var w1 := Step(w, e, colorRaises);
    assert w1.phase == Signalled;
    assert [e, WorkerFinished][1..] == [WorkerFinished];
    assert RunEvents(w1, [WorkerFinished], colorRaises) == OnWorkerFinished(w1);
  }

  /** A send followed by a failure leaves the history exactly as it was. */
  lemma SendThenFailRestoresHistory(w: Window, input: string, message: string, colorRaises: string -> bool)
    requires Inv(w) && w.phase.Idle?
    ensures Step(Step(w, Send(input), colorRaises), Fail(message), colorRaises).history == w.history
  {
    var w1 := Step(w, Send(input), colorRaises);
    if Accepts(w, input) {
      assert w1.phase.Running?;
      assert w1.history[..|w1.history| - 1] == w.history;
    } else {
      assert w1.phase == Idle;
    }
  }

  /** A send followed by a response adds exactly the stripped prompt and the reply. */
  lemma SendThenRespondAppendsExchange(w: Window, input: string, text: string, colorRaises: string -> bool)
    requires Inv(w) && Accepts(w, input)
    ensures Step(Step(w, Send(input), colorRaises), Respond(text), colorRaises).history
      == w.history + [Turn(User, Strip(input)), Turn(Model, text)]
  {
    var w1 := Step(w, Send(input), colorRaises);
    assert w1.phase.Running?;
  }

  /** `handle_error` on an empty history changes no history. */
  lemma ErrorOnEmptyHistory(w: Window, message: string)
    requires w.history == []
    ensures HandleError(w, message).history == []
  {
  }

  /** Without a key, sending "hello" keeps the conversation empty, starts no
      request and leaves a persistent error on the label. */
  lemma SendWithoutKey(colorRaises: string -> bool)
    requires !colorRaises(DefaultAccent)
    ensures var w := Init(true, Decoded(map[ApiKeyName := "", ThemeName := "light", AccentName := DefaultAccent]), colorRaises);
      var r := Step(w, Send("hello"), colorRaises);
      && r.history == [] && r.phase == Idle && r.inputEnabled
      && r.status.visible && StatusLabel.Sticky(r.status) && r.status.text == SendKeyMissing
  {
    var w := Init(true, Decoded(map[ApiKeyName := "", ThemeName := "light", AccentName := DefaultAccent]), colorRaises);
    assert ApiKey(w.config) == "";
    StripNoSpace("hello");
  }

  /** Unlike the missing-key error, the missing-library error of `send_message`
      carries no persistent marker: it gets a timer, and that timer hides it. */
  lemma LibraryErrorExpires(w: Window, input: string)
    requires w.inputEnabled && Strip(input) != "" && ApiKey(w.config) != "" && !w.lib
    ensures !StatusLabel.IsPersistent(SendLibraryMissing, StatusLabel.DefaultDuration)
    ensures var r := SendMessage(w, input);
      && r.status.visible && r.status.isError && r.status.text == SendLibraryMissing
      && SendLibraryMissing in r.status.timers
      && !StatusLabel.Expire(r.status, SendLibraryMissing).visible
  {
    LibraryErrorUnmarked();
  }

  /** The missing-library error names neither unresolved-setup condition. */
  lemma LibraryErrorUnmarked()
    ensures !StatusLabel.HasPersistentMarker(SendLibraryMissing)
  {
    CharNotInLibraryError('K');
    CharNotInLibraryError('-');
    UnmarkedWithout(SendLibraryMissing);
  }

  /** A character absent from every piece of the missing-library error is absent from it. */
  lemma CharNotInLibraryError(c: char)
    requires c !in "Error: " && c !in "Google AI " && c !in "library " && c !in "not " && c !in "installed."
    ensures c !in SendLibraryMissing
  {
  }

  /** A text without the 'K' of "API Key not set" and the '-' of
      "google-generativeai not found" carries neither marker. */
  lemma UnmarkedWithout(s: string)
    requires 'K' !in s && '-' !in s
    ensures !StatusLabel.HasPersistentMarker(s)
  {
    MissingCharRulesOut(s, StatusLabel.KeyNotSetMarker, 4);
    MissingCharRulesOut(s, StatusLabel.LibraryNotFoundMarker, 6);
  }

  /** A settings reset while a request runs does break the alternation: the reply
      lands in the emptied history and the window goes idle with a lone model turn. */
  lemma ResetInFlightBreaksAlternation(w: Window, input: string, file: ConfigFile, text: string,
                                       colorRaises: string -> bool)
    requires Accepts(w, input)
    ensures var w1 := SendMessage(w, input);
      var w2 := OnSettingsChanged(w1, file, colorRaises);
      var w3 := OnWorkerFinished(HandleResponse(w2, text));
      && w1.phase.Running? && w2.phase.Running?
      && w3.phase == Idle && w3.history == [Turn(Model, text)] && !Settled(w3.history)
  {
    var w4 := OnWorkerFinished(HandleResponse(OnSettingsChanged(SendMessage(w, input), file, colorRaises), text));
    assert w4.history[0].role != ExpectedRole(0);
  }
}
