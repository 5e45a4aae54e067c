/** The chat window's status label: `show_status_message`,
    `hide_specific_status_message`, `hide_status_message` and
    `update_status_based_on_config`. Each non-persistent message schedules a
    one-shot timer; a timer firing is the explicit `Expire` operation. */
module StatusLabel {
  import opened Text

  const KeyNotSetMarker := "API Key not set"
  const LibraryNotFoundMarker := "google-generativeai not found"
  const DefaultDuration: nat := 5000

  /** The label's text, its `isError` property (an unset property behaves as
      false everywhere it is read), whether it is shown, and the texts of the
      expiry timers still pending. */
  datatype Label = Label(text: string, isError: bool, visible: bool, timers: multiset<string>)

  const Initial := Label("", false, false, multiset{})

  /** The text names one of the two unresolved-setup conditions. */
  predicate HasPersistentMarker(text: string)
  {
    Contains(text, KeyNotSetMarker) || Contains(text, LibraryNotFoundMarker)
  }

  /** `is_persistent` in `show_status_message`. */
  predicate IsPersistent(message: string, duration: nat)
  {
    duration == 0 || HasPersistentMarker(message)
  }

  /** An error label carrying a marker: the hides leave it alone. */
  predicate Sticky(l: Label)
  {
    l.isError && HasPersistentMarker(l.text)
  }

  /** `show_status_message(message, error, duration)`. */
  function Show(l: Label, message: string, error: bool, duration: nat): (r: Label)
    ensures r.visible && r.text == message && r.isError == error
    ensures IsPersistent(message, duration) ==> r.timers == l.timers
    ensures !IsPersistent(message, duration) ==> r.timers == l.timers + multiset{message}
  {
    var timers := if IsPersistent(message, duration) then l.timers else l.timers + multiset{message};
    Label(message, error, true, timers)
  }

  /** `hide_specific_status_message(message)`. */
  function HideSpecific(l: Label, message: string): (r: Label)
    ensures r.text == l.text && r.isError == l.isError && r.timers == l.timers
    ensures r.visible <==>
      l.visible && (l.text != message || (l.isError && HasPersistentMarker(message)))
  {
    if l.visible && l.text == message then
      if !(l.isError && HasPersistentMarker(message)) then l.(visible := false) else l
    else l
  }

  /** The timer scheduled for `message` fires. Without such a timer nothing happens. */
  function Expire(l: Label, message: string): (r: Label)
    ensures message !in l.timers ==> r == l
    ensures message in l.timers ==> r.timers == l.timers - multiset{message}
    ensures r.text == l.text && r.isError == l.isError
    ensures r.visible <==>
      l.visible && !(message in l.timers && l.text == message && !(l.isError && HasPersistentMarker(message)))
  {
    if message in l.timers then HideSpecific(l.(timers := l.timers - multiset{message}), message)
    else l
  }

  /** `hide_status_message()`. */
  function Hide(l: Label): (r: Label)
    ensures r.text == l.text && r.isError == l.isError && r.timers == l.timers
    ensures r.visible <==> l.visible && Sticky(l)
  {
    if !Sticky(l) then l.(visible := false) else l
  }

  /** The label part of `on_worker_finished`: hidden unless it shows an error. */
  function AfterWorkerFinished(l: Label): (r: Label)
    ensures l.isError ==> r == l
    ensures !l.isError ==> !r.visible && r.text == l.text && r.timers == l.timers
  {
    if !l.isError then Hide(l) else l
  }

  /** "Warning: google-generativeai not found..." */
  const LibraryWarning := "Warning: " + LibraryNotFoundMarker + "..."
  /** "API Key not set..." */
  const KeyWarning := KeyNotSetMarker + "..."

  /** `update_status_based_on_config()` as written. */
  function RefreshForConfig(l: Label, lib: bool, apiKey: string): (r: Label)
    ensures !lib ==> r == Show(l, LibraryWarning, true, 0)
    ensures lib && apiKey == "" ==> r == Show(l, KeyWarning, true, 0)
    ensures lib && apiKey != "" ==> r == Hide(l)
  {
    if !lib then Show(l, LibraryWarning, true, 0)
    else if apiKey == "" then Show(l, KeyWarning, true, 0)
    else Hide(l)
  }

  /** The two warnings carry their markers, so they are persistent errors. */
  lemma WarningsAreSticky(l: Label)
    ensures Sticky(Show(l, LibraryWarning, true, 0))
    ensures Sticky(Show(l, KeyWarning, true, 0))
  {
    ContainsInfix("Warning: ", LibraryNotFoundMarker, "...");
    ContainsInfix("", KeyNotSetMarker, "...");
    assert "" + KeyNotSetMarker + "..." == KeyWarning;
  }

  /** `update_status_based_on_config()` as evidently intended: once both setup
      conditions are resolved the setup warning goes away. */
  function RefreshForConfigIntended(l: Label, lib: bool, apiKey: string): (r: Label)
    ensures r.visible <==> !lib || apiKey == ""
    ensures Sticky(r) && r.visible <==> !lib || apiKey == ""
    ensures r.timers == l.timers
  {
    WarningsAreSticky(l);
    if !lib then Show(l, LibraryWarning, true, 0)
    else if apiKey == "" then Show(l, KeyWarning, true, 0)
    else l.(visible := false)
  }

  /** As written, a visible setup warning is never cleared by the refresh that
      follows configuring a key: `hide_status_message` refuses to hide it. */
  lemma StaleKeyWarningSurvivesRefresh(apiKey: string)
    requires apiKey != ""
    ensures var before := RefreshForConfig(Initial, true, "");
      before.visible && before.text == KeyWarning
      && RefreshForConfig(before, true, apiKey) == before
  {
    WarningsAreSticky(Initial);
  }

  /** No pending timer is for a text carrying a persistent marker. */
  ghost predicate TimersClean(l: Label)
  {
    forall m :: m in l.timers ==> !HasPersistentMarker(m)
  }

  /** Every label operation keeps the timers clean. */
  lemma TimersStayClean(l: Label, message: string, error: bool, duration: nat, lib: bool, apiKey: string)
    requires TimersClean(l)
    ensures TimersClean(Show(l, message, error, duration))
    ensures TimersClean(Expire(l, message))
    ensures TimersClean(Hide(l))
    ensures TimersClean(AfterWorkerFinished(l))
    ensures TimersClean(RefreshForConfig(l, lib, apiKey))
  {
  }

  /** A message carrying a persistent marker is never taken down by a timer,
      whether or not it is an error. */
  lemma MarkedMessageOutlivesTimers(l: Label, message: string)
    requires TimersClean(l) && HasPersistentMarker(l.text)
    ensures Expire(l, message).visible == l.visible
  {
  }

  /** A persistent error withstands every hide: timers, `hide_status_message`,
      the end of a request and a refresh with the setup resolved. */
  lemma StickyLabelSurvivesHides(l: Label, message: string, apiKey: string)
    requires Sticky(l)
    ensures Expire(l, message).visible == l.visible
    ensures Hide(l) == l
    ensures AfterWorkerFinished(l) == l
    ensures apiKey != "" ==> RefreshForConfig(l, true, apiKey) == l
  {
  }

  /** A transient message is taken down by its own timer unless it was replaced. */
  lemma ShownMessageExpires(l: Label, message: string, error: bool, duration: nat)
    requires !IsPersistent(message, duration)
    ensures !Expire(Show(l, message, error, duration), message).visible
  {
  }

  /** A later message with a different text is not taken down by the earlier timer. */
  lemma SupersededTimerIsHarmless(l: Label, m1: string, m2: string, error: bool, duration: nat)
    requires m1 != m2
    ensures Expire(Show(l, m2, error, duration), m1).visible
  {
  }
}
