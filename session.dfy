/** The reading-mode session of `ReaderMode`: `toggle`, `disable` and the part of
    `createReaderMode` that swaps the reader into the page.

    `toggle` is asynchronous. It is modelled as a begin step up to `await this.parseContent()` and
    resumption steps after it; `createReaderMode` is started but not awaited, and its body swap runs
    as a separate step once `loadSettings` has resolved. The environment may fire the steps in any
    order the source allows, and a further `toggle` can start between any two of them, so several
    calls may be suspended at once. */
module Session {
  import opened Wrappers
  import opened PageGate

  /** The overlays the scripts append to `document.body`: `.reader-loading` and
      `.reader-error-message` (with the reason it reports). */
  datatype Overlay = Loading | ErrorMessage(reason: ParseError)

  /** What `document.body` shows: the page's own markup or the reader built from an article. */
  datatype Content = Markup(html: string) | ReaderView(article: Article)

  /** `document.body`: its content followed by the overlays appended to it, in document order. */
  datatype Body = Body(content: Content, overlays: seq<Overlay>)

  /** What the session changes outside the `ReaderMode` object: the body, the `overflow` styles of
      the body and of the root element, whether the scroll listener is installed, and the `isActive`
      values of the `readerModeStateChanged` messages sent so far. */
  datatype Window = Window(
    body: Body, bodyOverflow: string, rootOverflow: string, scrollListener: bool, sent: seq<bool>)

  /** The `ImageLoader` instance, and whether its `init` got past the null check. */
  datatype Loader = Loader(initialised: bool)

  /** Where a `toggle` call is suspended. */
  datatype Phase =
    | AwaitingParse(outcome: Result<Article, ParseError>)  // at `await this.parseContent()`
    | AwaitingDelay                                         // at the 1500 ms wait for the image loader

  /** The fields of `ReaderMode` the model follows, the window, the `toggle` calls suspended so far
      (in the order they started), and the articles of `createReaderMode` calls still waiting for
      `loadSettings`. */
  datatype State = State(
    isEnabled: bool, isProcessing: bool, originalContent: Option<Body>,
    readerContainer: Option<Article>, showImages: bool, imageLoader: Option<Loader>,
    window: Window, suspended: seq<Phase>, pendingBuilds: seq<Article>)

  /** The suspended calls once the one at `i` has finished. */
  function RemoveAt(calls: seq<Phase>, i: nat): (r: seq<Phase>)
    requires i < |calls|
    ensures |r| == |calls| - 1
    ensures forall k :: 0 <= k < |r| ==> r[k] == (if k < i then calls[k] else calls[k + 1])
    ensures multiset(r) + multiset{calls[i]} == multiset(calls)
  {
    assert calls == calls[..i] + [calls[i]] + calls[i + 1..];
    calls[..i] + calls[i + 1..]
  }

  /** `if (this.originalContent)`: the snapshot is `body.innerHTML`, and the empty string is false. */
  predicate Truthy(b: Body) {
    b.content.ReaderView? || b.content.html != "" || b.overlays != []
  }

  /** The overlays without any `.reader-loading` element. */
  function WithoutLoading(ovs: seq<Overlay>): (r: seq<Overlay>)
    ensures Loading !in r
  {
    if ovs == [] then []
    else if ovs[0] == Loading then WithoutLoading(ovs[1..])
    else [ovs[0]] + WithoutLoading(ovs[1..])
  }

  /** Removing the loading overlays keeps every other overlay, in order. */
  lemma {:induction false} WithoutLoadingKeeps(ovs: seq<Overlay>)
    ensures forall o :: o in WithoutLoading(ovs) <==> o in ovs && o != Loading
    ensures Loading !in ovs ==> WithoutLoading(ovs) == ovs
  {
    if ovs != [] {
      WithoutLoadingKeeps(ovs[1..]);
      assert ovs == [ovs[0]] + ovs[1..];
    }
  }

  /** The overlays without any `.reader-error-message` element. */
  function WithoutErrors(ovs: seq<Overlay>): seq<Overlay> {
    if ovs == [] then []
    else if ovs[0].ErrorMessage? then WithoutErrors(ovs[1..])
    else [ovs[0]] + WithoutErrors(ovs[1..])
  }

  /** Removing the error overlays keeps every other overlay. */
  lemma {:induction false} WithoutErrorsKeeps(ovs: seq<Overlay>)
    ensures forall o :: o in WithoutErrors(ovs) <==> o in ovs && !o.ErrorMessage?
  {
    if ovs != [] {
      WithoutErrorsKeeps(ovs[1..]);
      assert ovs == [ovs[0]] + ovs[1..];
    }
  }

  /** `showLoading`: every loading overlay is removed, then a fresh one is appended. */
  function ShowLoading(ovs: seq<Overlay>): seq<Overlay> {
    WithoutLoading(ovs) + [Loading]
  }

  /** After `showLoading` exactly one loading overlay is on the page, and no other overlay has come
      or gone. */
  lemma ShowLoadingOnce(ovs: seq<Overlay>)
    ensures multiset(ShowLoading(ovs))[Loading] == 1
    ensures forall o :: o != Loading ==> (o in ShowLoading(ovs) <==> o in ovs)
  {
    WithoutLoadingKeeps(ovs);
    assert multiset(WithoutLoading(ovs))[Loading] == 0;
  }

  /** `showErrorMessage`: every error overlay is removed, then one with the reason is appended. */
  function ShowError(ovs: seq<Overlay>, reason: ParseError): seq<Overlay> {
    WithoutErrors(ovs) + [ErrorMessage(reason)]
  }

  /** After `showErrorMessage` the only error overlay is the new one, and the loading overlays are
      as they were. */
  lemma ShowErrorOnly(ovs: seq<Overlay>, reason: ParseError)
    ensures forall o: Overlay :: o.ErrorMessage? && o in ShowError(ovs, reason) <==> o == ErrorMessage(reason)
    ensures Loading in ShowError(ovs, reason) <==> Loading in ovs
  {
    WithoutErrorsKeeps(ovs);
  }

  /** A fresh session on a page whose body holds `html` (the constructor's fields; `showImages`
      is the default setting). */
  function Init(html: string, bodyOverflow: string, rootOverflow: string): State {
    State(false, false, None, None, true, None,
          Window(Body(Markup(html), []), bodyOverflow, rootOverflow, false, []), [], [])
  }

  /** What holds between any two steps of the code as written: `isProcessing` is set only while a
      call is suspended, a call waits for the image loader only once it exists, and the loader is
      never initialised. */
  predicate Inv(s: State) {
    (s.isProcessing ==> s.suspended != [])
    && (AwaitingDelay in s.suspended ==> s.imageLoader.Some?)
    && (s.imageLoader.None? ==> s.readerContainer.None? && s.pendingBuilds == [])
    && (s.imageLoader.Some? ==> !s.imageLoader.value.initialised)
  }

  lemma InitInv(html: string, bodyOverflow: string, rootOverflow: string)
    ensures Inv(Init(html, bodyOverflow, rootOverflow))
  {
  }

  /** Restoring the snapshot, shared by `disable` and the failure path of `toggle`: a truthy
      snapshot is put back into the body and dropped; a falsy one is left alone. */
  function RestoreStep(s: State): (r: State)
    ensures s.originalContent.Some? && Truthy(s.originalContent.value) ==>
      r == s.(window := s.window.(body := s.originalContent.value), originalContent := None)
    ensures !(s.originalContent.Some? && Truthy(s.originalContent.value)) ==> r == s
  {
    if s.originalContent.Some? && Truthy(s.originalContent.value) then
      s.(window := s.window.(body := s.originalContent.value), originalContent := None)
    else s
  }

  /** The window after a reset: scroll listener removed, `isActive: false` sent, both overflow
      styles emptied. */
  function Closed(w: Window): (r: Window)
    ensures r.body == w.body && !r.scrollListener && r.sent == w.sent + [false]
    ensures r.bodyOverflow == "" && r.rootOverflow == ""
  {
    w.(scrollListener := false, sent := w.sent + [false], bodyOverflow := "", rootOverflow := "")
  }

  /** The reset shared by `disable` and the outer `catch` of `toggle`: flags and container
      cleared and the window closed. */
  function ResetStep(s: State): (r: State)
    ensures !r.isEnabled && !r.isProcessing && r.readerContainer.None? && r.window == Closed(s.window)
    ensures r.originalContent == s.originalContent && r.suspended == s.suspended
    ensures r.pendingBuilds == s.pendingBuilds && r.imageLoader == s.imageLoader
  {
    s.(isEnabled := false, isProcessing := false, readerContainer := None, window := Closed(s.window))
  }

  /** `disable`: nothing unless enabled; otherwise the loading overlays go, a truthy snapshot is put
      back and dropped, and the session is reset. */
  function DisableStep(s: State): (r: State)
    ensures !s.isEnabled ==> r == s
    ensures s.isEnabled ==>
      !r.isEnabled && !r.isProcessing && r.readerContainer.None? && !r.window.scrollListener
      && r.window.sent == s.window.sent + [false]
      && r.window.bodyOverflow == "" && r.window.rootOverflow == ""
      && r.suspended == s.suspended && r.pendingBuilds == s.pendingBuilds
  {
    if !s.isEnabled then s
    else
      var body := s.window.body;
      ResetStep(RestoreStep(s.(window := s.window.(body := body.(overlays := WithoutLoading(body.overlays))))))
  }

  /** `toggle` as written, up to `await this.parseContent()`; `outcome` is what `parseContent`
      settles with on the page at that moment. The early return of a call that finds `isProcessing`
      set lies inside the `try`, so the `finally` clears the flag. */
  function ToggleStep(s: State, outcome: Result<Article, ParseError>): (r: State)
    ensures s.isProcessing ==> r == s.(isProcessing := false)
    ensures !s.isProcessing && s.isEnabled ==> r == DisableStep(s)
    ensures !s.isProcessing && !s.isEnabled ==>
      r.isProcessing && !r.isEnabled && r.showImages
      && r.originalContent == Some(s.window.body) && r.window.body.content == s.window.body.content
      && r.suspended == s.suspended + [AwaitingParse(outcome)]
  {
    if s.isProcessing then s.(isProcessing := false)
    // `isProcessing` is set on the way, and `disable` clears it again
    else if s.isEnabled then DisableStep(s)
    else
      var body := s.window.body;
      var shown := ShowLoading(body.overlays);
      // `parseContent` removes the loading overlay itself before it rejects
      var overlays := if outcome.Failure? then WithoutLoading(shown) else shown;
      s.(isProcessing := true, showImages := true, originalContent := Some(body),
         window := s.window.(body := body.(overlays := overlays)),
         suspended := s.suspended + [AwaitingParse(outcome)])
  }

  /** While an activation is under way, the page shows exactly one loading overlay until
      `parseContent` fails. */
  lemma ToggleShowsLoading(s: State, outcome: Result<Article, ParseError>)
    requires !s.isProcessing && !s.isEnabled
    ensures outcome.Success? ==> multiset(ToggleStep(s, outcome).window.body.overlays)[Loading] == 1
    ensures outcome.Failure? ==> Loading !in ToggleStep(s, outcome).window.body.overlays
  {
    ShowLoadingOnce(s.window.body.overlays);
  }

  /** The suspended call at `i` after `parseContent` has settled. A failure restores a truthy
      snapshot, removes the loading overlays, shows the error, and the outer `catch` swallows the
      rethrown error after resetting the session. An article starts `createReaderMode` without
      awaiting it; the call that finds no image loader creates it, whose `init` sees the container
      as it is at that moment, and waits 1500 ms; otherwise the session is enabled at once. */
  function ParseStep(s: State, i: nat): (r: State)
    requires i < |s.suspended| && s.suspended[i].AwaitingParse?
    ensures r.isEnabled && !s.isEnabled ==> s.suspended[i].outcome.Success? && s.imageLoader.Some?
    ensures s.suspended[i].outcome.Success? && s.imageLoader.None? ==>
      r.suspended == s.suspended[i := AwaitingDelay] && r.imageLoader.Some? && r.isEnabled == s.isEnabled
    ensures !(s.suspended[i].outcome.Success? && s.imageLoader.None?) ==>
      r.suspended == RemoveAt(s.suspended, i)
    ensures s.suspended[i].outcome.Failure? ==>
      !r.isEnabled && !r.isProcessing && r.readerContainer.None?
      && r.window.sent == s.window.sent + [false]
  {
    match s.suspended[i].outcome
    case Failure(reason) =>
      var t := RestoreStep(s);
      var body := t.window.body;
      ResetStep(t.(window := t.window.(body := body.(overlays := ShowError(WithoutLoading(body.overlays), reason))),
                   suspended := RemoveAt(s.suspended, i)))
    case Success(article) =>
      var building := s.(pendingBuilds := s.pendingBuilds + [article]);
      if s.imageLoader.None? then
        building.(imageLoader := Some(Loader(s.readerContainer.Some?)), suspended := s.suspended[i := AwaitingDelay])
      else
        SettleStep(building.(suspended := RemoveAt(s.suspended, i)))
  }

  /** The end of a successful `toggle`: enabled, scroll listener installed, `isActive: true` sent,
      and the `finally` clears `isProcessing`. */
  function SettleStep(s: State): (r: State)
    ensures r.isEnabled && !r.isProcessing && r.window.scrollListener
    ensures r.window.sent == s.window.sent + [true] && r.window.body == s.window.body
    ensures r.originalContent == s.originalContent && r.suspended == s.suspended
  {
    s.(isEnabled := true, isProcessing := false,
       window := s.window.(scrollListener := true, sent := s.window.sent + [true]))
  }

  /** The suspended call at `i` after the 1500 ms wait. */
  function DelayStep(s: State, i: nat): (r: State)
    requires i < |s.suspended| && s.suspended[i].AwaitingDelay?
    ensures r.isEnabled && !r.isProcessing && r.suspended == RemoveAt(s.suspended, i)
  {
    SettleStep(s.(suspended := RemoveAt(s.suspended, i)))
  }

  /** The rest of `createReaderMode` once `loadSettings` has resolved: the settings are reloaded
      (so images are shown), the container is created and the body is replaced by it, whatever the
      session has done in the meantime. */
  function BuildStep(s: State): (r: State)
    requires s.pendingBuilds != []
    ensures r.window.body == Body(ReaderView(s.pendingBuilds[0]), [])
    ensures r.readerContainer == Some(s.pendingBuilds[0]) && r.pendingBuilds == s.pendingBuilds[1..]
    ensures r.isEnabled == s.isEnabled && r.isProcessing == s.isProcessing && r.suspended == s.suspended
  {
    var article := s.pendingBuilds[0];
    s.(showImages := true, readerContainer := Some(article),
       window := s.window.(body := Body(ReaderView(article), [])), pendingBuilds := s.pendingBuilds[1..])
  }

  /** Every step keeps the invariant; in particular the image loader is never initialised: its
      `init` always receives the container before `createReaderMode` has assigned it. */
  lemma ToggleKeepsInv(s: State, outcome: Result<Article, ParseError>)
    requires Inv(s)
    ensures Inv(ToggleStep(s, outcome))
  {
  }

  lemma DisableKeepsInv(s: State)
    requires Inv(s)
    ensures Inv(DisableStep(s))
  {
  }

  lemma ParseKeepsInv(s: State, i: nat)
    requires Inv(s) && i < |s.suspended| && s.suspended[i].AwaitingParse?
    ensures Inv(ParseStep(s, i))
  {
    RemoveAtKeepsNoDelay(s.suspended, i);
    var r := ParseStep(s, i);
    match s.suspended[i].outcome
    case Failure(_) =>
      assert !r.isProcessing && r.imageLoader == s.imageLoader && r.readerContainer.None?;
    case Success(_) =>
      assert r.imageLoader.Some? && !r.imageLoader.value.initialised;
  }

  /** Removing a finished call adds no wait for the image loader. */
  lemma RemoveAtKeepsNoDelay(calls: seq<Phase>, i: nat)
    requires i < |calls|
    ensures AwaitingDelay in RemoveAt(calls, i) ==> AwaitingDelay in calls
  {
    assert multiset(RemoveAt(calls, i)) <= multiset(calls);
  }

  lemma DelayKeepsInv(s: State, i: nat)
    requires Inv(s) && i < |s.suspended| && s.suspended[i].AwaitingDelay?
    ensures Inv(DelayStep(s, i))
  {
  }

  lemma BuildKeepsInv(s: State)
    requires Inv(s) && s.pendingBuilds != []
    ensures Inv(BuildStep(s))
  {
  }

  /** A `toggle` message reaches two listeners, each calling `toggle`. On an idle page the first
      call starts an activation and suspends at `parseContent`; the second finds `isProcessing`
      set, returns, and its `finally` clears the flag while the first call is still suspended. */
  lemma MessageClearsProcessing(html: string, outcome: Result<Article, ParseError>)
    ensures var s := ToggleStep(ToggleStep(Init(html, "", ""), outcome), outcome);
      !s.isProcessing && s.suspended == [AwaitingParse(outcome)]
      && s.originalContent == Some(Body(Markup(html), []))
  {
  }

  /** So a second message starts another activation, whose snapshot holds the first one's loading
      overlay. Once both have succeeded, closing the reader puts that snapshot back: the loading
      overlay stays on the restored page. */
  lemma LoadingSurvivesClose(html: string, first: Article, second: Article)
    ensures var s1 := ToggleStep(ToggleStep(Init(html, "", ""), Success(first)), Success(first));
      var s2 := ToggleStep(ToggleStep(s1, Success(second)), Success(second));
      var s3 := ParseStep(ParseStep(s2, 0), 1);
      var s4 := DisableStep(s3);
      s2.originalContent == Some(Body(Markup(html), [Loading]))
      && s3.isEnabled && s3.suspended == [AwaitingDelay]
      && !s4.isEnabled && s4.window.body == Body(Markup(html), [Loading])
  {
    var shown := Body(Markup(html), [Loading]);
    var a := ToggleStep(Init(html, "", ""), Success(first));
    assert a.window.body == shown && a.isProcessing;
    var s1 := ToggleStep(a, Success(first));
    assert WithoutLoading([Loading]) == [];
    var b := ToggleStep(s1, Success(second));
    assert b.originalContent == Some(shown) && b.window.body == shown;
    assert b.suspended == [AwaitingParse(Success(first)), AwaitingParse(Success(second))];
    var s2 := ToggleStep(b, Success(second));
    var p := ParseStep(s2, 0);
    assert p.suspended == [AwaitingDelay, AwaitingParse(Success(second))];
    assert p.imageLoader.Some? && p.originalContent == Some(shown) && !p.isEnabled;
    var s3 := ParseStep(p, 1);
    assert RemoveAt(p.suspended, 1) == [AwaitingDelay];
    assert s3.isEnabled && s3.originalContent == Some(shown) && Truthy(shown);
  }

  /** A failed activation leaves the page content as it was before it, with the error shown in
      place of the loading overlays, and the session reset. */
  lemma FailedActivationRollsBack(s: State, reason: ParseError)
    requires Inv(s) && !s.isProcessing && !s.isEnabled && Truthy(s.window.body)
    ensures var r := ParseStep(ToggleStep(s, Failure(reason)), |s.suspended|);
      r.window.body.content == s.window.body.content
      && r.window.body.overlays == ShowError(WithoutLoading(s.window.body.overlays), reason)
      && (Loading !in s.window.body.overlays ==> r.window.body.overlays == ShowError(s.window.body.overlays, reason))
      && r.originalContent.None? && !r.isEnabled && !r.isProcessing && r.readerContainer.None?
      && r.suspended == s.suspended
  {
    var b := ToggleStep(s, Failure(reason));
    assert b.originalContent == Some(s.window.body);
    assert RemoveAt(b.suspended, |s.suspended|) == s.suspended;
    WithoutLoadingKeeps(s.window.body.overlays);
  }

  /** On an enabled reader with no call under way, the first of the two listeners' calls disables
      it and settles at once, so the second finds the session idle and starts a new activation. */
  lemma ToggleMessageReactivates(s: State, outcome: Result<Article, ParseError>)
    requires Inv(s) && s.isEnabled && !s.isProcessing
    ensures var once := ToggleStep(s, outcome);
      !once.isEnabled && !once.isProcessing
      && ToggleStep(once, outcome).isProcessing
      && ToggleStep(once, outcome).suspended == once.suspended + [AwaitingParse(outcome)]
  {
  }

  /** The body swap of an activation that was disabled before `loadSettings` resolved still
      happens: the session ends disabled with the reader on the page. */
  lemma DisableBeforeBuildShowsReader(html: string, first: Article, second: Article)
    requires html != ""
    ensures var s0 := Init(html, "", "");
      // first activation: parse, swap in the reader, wait
      var s1 := DelayStep(BuildStep(ParseStep(ToggleStep(s0, Success(first)), 0)), 0);
      // close it
      var s2 := ToggleStep(s1, Success(first));
      // second activation: enabled at once, swap still pending
      var s3 := ParseStep(ToggleStep(s2, Success(second)), 0);
      // close it before the swap
      var s4 := ToggleStep(s3, Success(second));
      var s5 := BuildStep(s4);
      s3.isEnabled && s3.window.body.content == Markup(html)
      && !s5.isEnabled && !s5.isProcessing && s5.window.body.content == ReaderView(second)
      && s5.readerContainer == Some(second) && s5.originalContent.None?
  {
  }

  /** `toggle` with its guard before the `try`, as evidently intended: a call that finds
      `isProcessing` set changes nothing. */
  function GuardedToggleStep(s: State, outcome: Result<Article, ParseError>): (r: State)
    ensures s.isProcessing ==> r == s
    ensures !s.isProcessing ==> r == ToggleStep(s, outcome)
  {
    if s.isProcessing then s else ToggleStep(s, outcome)
  }

  /** What holds between any two steps once the guard is fixed: `isProcessing` is set exactly
      while one call is suspended, the reader is enabled only when none is, the snapshot never holds
      a loading overlay, and an idle disabled page shows none. */
  predicate IntendedInv(s: State) {
    Inv(s)
    && (s.isProcessing <==> s.suspended != [])
    && |s.suspended| <= 1
    && (s.isEnabled ==> s.suspended == [] && s.originalContent.Some?)
    && (s.suspended != [] ==> s.originalContent.Some?)
    && (s.originalContent.Some? ==> Loading !in s.originalContent.value.overlays)
    && (!s.isEnabled && s.suspended == [] ==> Loading !in s.window.body.overlays)
  }

  lemma InitIntendedInv(html: string, bodyOverflow: string, rootOverflow: string)
    ensures IntendedInv(Init(html, bodyOverflow, rootOverflow))
  {
  }

  /** With the guard fixed, every step keeps the intended invariant: a second call during an
      activation is a no-op, so at most one activation is ever under way. */
  lemma GuardedToggleKeepsIntendedInv(s: State, outcome: Result<Article, ParseError>)
    requires IntendedInv(s)
    ensures IntendedInv(GuardedToggleStep(s, outcome))
  {
    if !s.isProcessing && !s.isEnabled {
      assert Loading !in WithoutLoading(ShowLoading(s.window.body.overlays));
    }
  }

  lemma DisableKeepsIntendedInv(s: State)
    requires IntendedInv(s)
    ensures IntendedInv(DisableStep(s))
  {
  }

  lemma ParseKeepsIntendedInv(s: State)
    requires IntendedInv(s) && s.suspended != [] && s.suspended[0].AwaitingParse?
    ensures IntendedInv(ParseStep(s, 0))
  {
    assert RemoveAt(s.suspended, 0) == [];
    if s.suspended[0].outcome.Failure? {
      var body := RestoreStep(s).window.body;
      ShowErrorOnly(WithoutLoading(body.overlays), s.suspended[0].outcome.error);
    }
  }

  lemma DelayKeepsIntendedInv(s: State)
    requires IntendedInv(s) && s.suspended != [] && s.suspended[0].AwaitingDelay?
    ensures IntendedInv(DelayStep(s, 0))
  {
    assert RemoveAt(s.suspended, 0) == [];
  }

  lemma BuildKeepsIntendedInv(s: State)
    requires IntendedInv(s) && s.pendingBuilds != []
    ensures IntendedInv(BuildStep(s))
  {
  }

  /** With the guard fixed, the second listener's call leaves the activation under way. */
  lemma GuardedMessageStartsOnce(html: string, outcome: Result<Article, ParseError>)
    ensures var once := GuardedToggleStep(Init(html, "", ""), outcome);
      GuardedToggleStep(once, outcome) == once
      && once.isProcessing && once.suspended == [AwaitingParse(outcome)]
  {
  }

  /** Under the intended invariant `disable` leaves no loading overlay, and the page as it was
      before activation when the snapshot is truthy. */
  lemma DisableRestores(s: State)
    requires IntendedInv(s) && s.isEnabled
    ensures Loading !in DisableStep(s).window.body.overlays
    ensures Truthy(s.originalContent.value) ==>
      DisableStep(s).window.body == s.originalContent.value && DisableStep(s).originalContent.None?
    ensures !Truthy(s.originalContent.value) ==>
      DisableStep(s).window.body.content == s.window.body.content
      && DisableStep(s).originalContent == s.originalContent
  {
  }

  /** The session object. Its fields are the `ReaderMode` fields of `State`; the window and the
      suspended calls are kept beside them. Each method performs one step of the code as written. */
  class ReaderMode {
    var isEnabled: bool
    var isProcessing: bool
    var originalContent: Option<Body>
    var readerContainer: Option<Article>
    var showImages: bool
    var imageLoader: Option<Loader>
    var window: Window
    var suspended: seq<Phase>
    var pendingBuilds: seq<Article>

    function Snapshot(): State
      reads this
    {
      State(isEnabled, isProcessing, originalContent, readerContainer, showImages, imageLoader,
            window, suspended, pendingBuilds)
    }

    predicate Valid()
      reads this
    {
      Inv(Snapshot())
    }

    constructor(html: string, bodyOverflow: string, rootOverflow: string)
      ensures Snapshot() == Init(html, bodyOverflow, rootOverflow) && Valid()
    {
      isEnabled := false;
      isProcessing := false;
      originalContent := None;
      readerContainer := None;
      showImages := true;
      imageLoader := None;
      window := Window(Body(Markup(html), []), bodyOverflow, rootOverflow, false, []);
      suspended := [];
      pendingBuilds := [];
    }

    /** `disable`. */
    method Disable()
      requires Valid()
      modifies this
      ensures Snapshot() == DisableStep(old(Snapshot())) && Valid()
    {
      DisableKeepsInv(Snapshot());
      if !isEnabled {
        return;
      }
      window := window.(body := window.body.(overlays := WithoutLoading(window.body.overlays)));
      RestoreSnapshot();
      Reset();
    }

    /** Puts a truthy snapshot back into the body and drops it. */
    method RestoreSnapshot()
      modifies this
      ensures Snapshot() == RestoreStep(old(Snapshot()))
    {
      if originalContent.Some? && Truthy(originalContent.value) {
        window := window.(body := originalContent.value);
        originalContent := None;
      }
    }

    /** The reset shared by `disable` and the outer `catch` of `toggle`. */
    method Reset()
      modifies this
      ensures Snapshot() == ResetStep(old(Snapshot()))
    {
      isEnabled := false;
      isProcessing := false;
      readerContainer := None;
      window := Closed(window);
    }

    /** `toggle`, up to the `await` on `parseContent`. */
    method Toggle(page: Page, readability: Option<Article>)
      requires Valid()
      modifies this
      ensures Snapshot() == ToggleStep(old(Snapshot()), ParseContent(page, readability)) && Valid()
    {
      var outcome := ParseContent(page, readability);
      ToggleKeepsInv(Snapshot(), outcome);
      if isProcessing {
        // the `finally` runs on this return too
        isProcessing := false;
        return;
      }
      if isEnabled {
        Disable();
        return;
      }
      Activate(outcome);
    }

    /** The activating branch of `toggle`: snapshot the body, show the loading overlay, start
        `parseContent`, whose failure removes the overlay again before it settles. */
    method Activate(outcome: Result<Article, ParseError>)
      requires !isProcessing && !isEnabled
      modifies this
      ensures Snapshot() == ToggleStep(old(Snapshot()), outcome)
    {
      isProcessing := true;
      showImages := true;
      originalContent := Some(window.body);
      var overlays := ShowLoading(window.body.overlays);
      if outcome.Failure? {
        overlays := WithoutLoading(overlays);
      }
      window := window.(body := window.body.(overlays := overlays));
      suspended := suspended + [AwaitingParse(outcome)];
    }

    /** The suspended call at `i` once its `parseContent` has settled. */
    method ResumeAfterParse(i: nat)
      requires Valid() && i < |suspended| && suspended[i].AwaitingParse?
      modifies this
      ensures Snapshot() == ParseStep(old(Snapshot()), i) && Valid()
    {
      ParseKeepsInv(Snapshot(), i);
      match suspended[i].outcome
      case Failure(reason) =>
        Fail(i, reason);
      case Success(article) =>
        pendingBuilds := pendingBuilds + [article];
        if imageLoader.None? {
          imageLoader := Some(Loader(readerContainer.Some?));
          suspended := suspended[i := AwaitingDelay];
        } else {
          suspended := RemoveAt(suspended, i);
          Settle();
        }
    }

    /** The two `catch` blocks of the call at `i` when its `parseContent` has rejected with
        `reason`, and its `finally`. */
    method Fail(i: nat, reason: ParseError)
      requires i < |suspended| && suspended[i] == AwaitingParse(Failure(reason))
      modifies this
      ensures Snapshot() == ParseStep(old(Snapshot()), i)
    {
      RestoreSnapshot();
      window := window.(body := window.body.(overlays := ShowError(WithoutLoading(window.body.overlays), reason)));
      suspended := RemoveAt(suspended, i);
      Reset();
    }

    /** The suspended call at `i` after its 1500 ms wait. */
    method ResumeAfterDelay(i: nat)
      requires Valid() && i < |suspended| && suspended[i].AwaitingDelay?
      modifies this
      ensures Snapshot() == DelayStep(old(Snapshot()), i) && Valid()
    {
      DelayKeepsInv(Snapshot(), i);
      suspended := RemoveAt(suspended, i);
      Settle();
    }

    /** The end of a successful `toggle`. */
    method Settle()
      modifies this
      ensures Snapshot() == SettleStep(old(Snapshot()))
    {
      isEnabled := true;
      window := window.(scrollListener := true, sent := window.sent + [true]);
      isProcessing := false;
    }

    /** The body swap of the oldest pending `createReaderMode`. */
    method FinishBuild()
      requires Valid() && pendingBuilds != []
      modifies this
      ensures Snapshot() == BuildStep(old(Snapshot())) && Valid()
    {
      BuildKeepsInv(Snapshot());
      var article := pendingBuilds[0];
      pendingBuilds := pendingBuilds[1..];
      showImages := true;
      readerContainer := Some(article);
      window := window.(body := Body(ReaderView(article), []));
    }
  }
}
