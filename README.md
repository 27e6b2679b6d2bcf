# Readmode content scripts in Dafny

Readmode is a browser extension that turns an article page into a clean reading view. This project models the logic of its six content scripts and proves properties of that model:

- **Reading-mode session** (`Session`): `ReaderMode.toggle` and `disable` in `scripts/content.js`. The state is the flags `isEnabled` and `isProcessing`, the `originalContent` snapshot, `readerContainer`, and the page body with its loading and error overlays. `toggle` is asynchronous, so it is modelled as a begin step, then resumption steps after `await parseContent()` and after the 1500 ms wait. The body swap of the un-awaited `createReaderMode` is a separate step that may fire later. Several `toggle` calls can be suspended at once, because the guard on `isProcessing` does not hold them off (see Findings).
- **Page gate** (`PageGate`): `isPageSuitableForReading` (URL patterns, text length, meaningful blocks) and `parseContent` with its three failure kinds.
- **Text normaliser** (`TextNormaliser`): the regular-expression chain of the first `cleanContent`, as a standalone string function. `Normalise` runs the CJK gap replacement as written; the corrected replacement is modelled beside it. The chain trims the ends and leaves the gap between a CJK word and a Latin word alone: `"　你好  world　"` becomes `"你好  world"` (`TextNormaliser.NormaliseKeepsMixedGap`). The class declares a second `cleanContent` (`scripts/content.js:1489`), which replaces the first, so the chain never runs on a page; the model keeps it apart from the sanitiser.
- **Content sanitiser** (`Sanitiser`): `cleanElement` (attribute whitelist, removal of blank non-media elements over a snapshot of the children) and the rewrite of links around images.
- **Reader settings** (`ReaderSettings`): the clamped steps of the settings panel, `saveSettings`, `loadSettings`, `toggleImages` and `handleImageSize`.
- **AI summary** (`AiSummary`): the cache key, the cache and the `isGenerating` guard of `generateSummary`, the article-text fold, the accumulation of streamed `data:` lines, tag splitting and the sections of `displaySummary`, and the early exits of `toggleSummaryPanel`.
- **Outline and progress** (`Outline`): heading filtering, indentation and ids, the single highlighted item, the current-heading scroll rule, and the clamped progress width.
- **Image loader** (`ImageLoading`): the `src` to `data-src` move, the `loadingImages` retry counts with their limit, the retry URL, and the auto-scroll flags.
- **Text-selection bubble** (`TextSelection`): the link regular expression and a plain characterisation of its language, URL completion, the position clamp, the visibility flag and the singleton.
- **Markdown export** (`MarkdownExport`): `cleanMarkdown`, the custom Turndown rules, the fallback text extraction, the removal of script, style and comment nodes, and the loading state of `copyMarkdown`.

Shared pieces:

- `Strings` holds JavaScript's `\s`, `trim`, `slice`, `split`, the `/\s+/g` collapse, decimal notation, and the `+=` concatenation folds.
- `Dom` holds a value model of nodes with `textContent` and `getAttribute`/`setAttribute`.
- `Wrappers` holds `Option` and `Result`.

JavaScript numbers are modelled as `real` where the scripts compute with fractions, and as unbounded integers elsewhere. Strings are sequences of `char`. The DOM is modelled as immutable trees and sequences of nodes.

## Model

| member | source | states |
|---|---|---|
| Strings.Trim | scripts/content.js:213 | `trim()`: the result neither starts nor ends with white space and is no longer than the input |
| Strings.TrimNonSpace | scripts/content.js:213 | trimming keeps every character that is not white space, in order |
| Strings.TrimEmpty | scripts/content.js:349 | `!text.trim()` holds exactly for blank text |
| Strings.TrimTrim | scripts/ai-summary.js:423-431 | trimming an already trimmed piece changes nothing |
| Strings.Take | scripts/ai-summary.js:478-479 | `slice(0, n)` has length the smaller of `n` and the length of `s`, and is a prefix of `s` |
| Strings.Split | scripts/ai-summary.js:363 | `split(sep)` yields at least one piece, none holding `sep`, and joining them with `sep` gives the input back |
| Strings.CollapseSpaces | scripts/content.js:213 | `replace(/\s+/g, ' ')` is empty exactly for empty input and never longer |
| Strings.CollapseSpacesNonSpace | scripts/content.js:213 | collapsing white space keeps every other character |
| Strings.CollapseSpacesShape | scripts/content.js:213 | after collapsing, every white-space character is a plain space and no two are adjacent |
| Strings.CollapseSpacesAppend | scripts/content.js:213 | a string cut after a character that is not white space collapses as its two halves collapsed apart |
| Strings.CollapseSpacesLeadingRun | scripts/content.js:213 | a whole white-space run at the start, of any length and characters, becomes exactly one `' '` before the collapsed rest |
| Strings.CollapseSpacesRun | scripts/content.js:213 | each maximal white-space run, whatever its length and characters, becomes exactly one `' '` between the collapsed text on either side |
| Strings.Decimal | scripts/outline-progress.js:105 | the decimal notation of a number is all digits, with no leading zero |
| Strings.DecimalRoundTrip | scripts/outline-progress.js:105 | reading the decimal notation back gives the number |
| Strings.DecimalInjective | scripts/outline-progress.js:105 | different numbers have different notations |
| Strings.ConcatMapAppend | scripts/ai-summary.js:271-276 | the `+=` fold over two runs of elements is the concatenation of the two folds |
| Strings.BlockTextEmpty | scripts/ai-summary.js:272-275 | a block contributes nothing exactly when its text is blank |
| Strings.BlocksEmpty | scripts/ai-summary.js:265-279 | the article text is empty exactly when every block is blank |
| Dom.ForestTextAppend | scripts/content.js:349 | the `textContent` of two runs of siblings is the concatenation of theirs |
| Dom.HasTagInAppend | scripts/content.js:350 | a media element lies below two runs of siblings exactly when it lies below one of them |
| Dom.GetAttr | scripts/markdown-copy.js:38-40 | `getAttribute` is absent exactly when no attribute has the name, and otherwise is the value of one that has it |
| Dom.SetAttr | scripts/content.js:438-439 | after `setAttribute` the name reads the new value, every other name reads as before, and no other attribute appears |
| PageGate.MeaningfulBlocks | scripts/content.js:224-229 | the meaningful blocks are a subsequence of the blocks |
| PageGate.MeaningfulBlocksMembers | scripts/content.js:224-229 | a block is counted exactly when its trimmed text is longer than 50 characters |
| PageGate.MeaningfulBlocksAppend | scripts/content.js:224-229 | counting over two runs of blocks adds up |
| PageGate.CountMeaningful | scripts/content.js:220-229 | the `forEach` counter equals the number of meaningful blocks |
| PageGate.IsPageSuitableForReading | scripts/content.js:190-237 | the page passes exactly when the URL matches none of the seven substrings nor a document extension in any case, the collapsed trimmed text has at least 200 characters, and at least 3 blocks are meaningful |
| PageGate.SuitableNeedsText | scripts/content.js:212-218 | a page that passes has at least 200 characters of text |
| PageGate.EnoughTextPasses | scripts/content.js:212-218 | 200 characters that are not white space always pass the text test |
| PageGate.ParseContent | scripts/content.js:295-323 | extraction succeeds exactly when the page passes, Readability returns an article and its trimmed content has at least 100 characters; each failure has its own kind |
| PageGate.ParsedContentNonEmpty | scripts/content.js:85-87 | an article `parseContent` returns always has non-empty content, so the second check in `toggle` never fires |
| TextNormaliser.GapEnd | scripts/content.js:331 | a gap is a CJK character, a non-empty white-space run, and a CJK character |
| TextNormaliser.CollapseCjkGapsAsWritten | scripts/content.js:331 | the gap replacement as written removes white space only |
| TextNormaliser.CollapseCjkGapsAsWrittenMissesGap | scripts/content.js:331 | as written, `"中 文 字"` becomes `"中文 字"`, which still has a gap |
| TextNormaliser.CollapseCjkGaps | scripts/content.js:331 | the corrected replacement keeps the first character and empties nothing |
| TextNormaliser.CollapseCjkGapsNonSpace | scripts/content.js:331 | the corrected replacement removes white space only |
| TextNormaliser.CollapseCjkGapsGapFree | scripts/content.js:331 | after the corrected replacement no white space is left between two CJK characters |
| TextNormaliser.CollapseCjkGapsFixpoint | scripts/content.js:331 | text without a gap is left unchanged |
| TextNormaliser.CollapseCjkGapsIdempotent | scripts/content.js:331 | collapsing twice is collapsing once |
| TextNormaliser.SpaceBetween | scripts/content.js:333-334 | putting a space between two character classes only adds white space and keeps the first character |
| TextNormaliser.SpaceBetweenMissesNothing | scripts/content.js:333-334 | for disjoint classes the non-overlapping regex scan puts a space at every boundary |
| TextNormaliser.SpaceBetweenSeparates | scripts/content.js:333-334 | afterwards no character of the first class directly precedes one of the second |
| TextNormaliser.SpaceBetweenKeeps | scripts/content.js:333-334 | the step makes no two characters adjacent that were not adjacent before |
| TextNormaliser.SpaceAfterClosing | scripts/content.js:336 | putting a space after closing marks only adds white space |
| TextNormaliser.SpaceAfterClosingSpaces | scripts/content.js:336 | every closing mark ends up followed by a space |
| TextNormaliser.SpaceAfterClosingKeeps | scripts/content.js:336 | the step keeps two classes apart that were apart, when neither contains a closing mark |
| TextNormaliser.SpaceBeforeOpening | scripts/content.js:337 | putting a space before opening brackets only adds white space |
| TextNormaliser.SpaceBeforeOpeningSpaces | scripts/content.js:337 | every opening bracket ends up preceded by a space |
| TextNormaliser.SpaceBeforeOpeningKeeps | scripts/content.js:337 | the step keeps closing marks followed by a space and keeps separated classes apart |
| TextNormaliser.NormaliseSpacing | scripts/content.js:329-337 | the whole chain as written keeps all characters that are not white space; afterwards no CJK character touches an ASCII letter or digit in either order, each closing mark is followed by a space, and each opening bracket is preceded by one |
| TextNormaliser.NormaliseKeepsMixedGap | scripts/content.js:329-337 | `"　你好  world　"` normalises to `"你好  world"`: only the ends are trimmed |
| TextNormaliser.CollapseCjkGapsAsWrittenFixpoint | scripts/content.js:331 | the gap replacement as written leaves text without a gap unchanged |
| TextNormaliser.GapFreeOfNoCjk | scripts/content.js:331 | text without CJK characters has no gap |
| TextNormaliser.SpaceBetweenUnchanged | scripts/content.js:333-334 | text with no boundary between the classes is left unchanged |
| TextNormaliser.SpaceAfterClosingUnchanged | scripts/content.js:336 | text without closing marks is left unchanged |
| TextNormaliser.SpaceBeforeOpeningUnchanged | scripts/content.js:337 | text without opening brackets is left unchanged |
| TextNormaliser.ClosingMarkGetsSpace | scripts/content.js:336 | text holding a closing mark that is not followed by a space is always changed by the chain |
| TextNormaliser.NormaliseSplitsApostrophe | scripts/content.js:336 | the ASCII apostrophe is a closing mark, so `"it's"` is changed |
| Sanitiser.KeepAllowed | scripts/content.js:411-418 | the attributes kept are exactly those named `src`, `href`, `alt`, `target` or `rel` |
| Sanitiser.CleanRoot | scripts/content.js:400-425 | a removable root is returned as is; otherwise its attributes are filtered and its children cleaned |
| Sanitiser.CleanChildrenAppend | scripts/content.js:423 | cleaning two runs of children is cleaning each |
| Sanitiser.CleanChildrenText | scripts/content.js:400-425 | cleaning removes only white space from the text |
| Sanitiser.CleanChildrenMedia | scripts/content.js:400-425 | cleaning keeps every media element |
| Sanitiser.CleanChildrenResult | scripts/content.js:400-425 | after cleaning every element carries only allowed attributes and none is blank without media |
| Sanitiser.CleanChildrenFixpoint | scripts/content.js:400-425 | cleaning leaves children unchanged exactly when they are already clean |
| Sanitiser.CleanChildrenOfClean | scripts/content.js:400-425 | clean children are left unchanged |
| Sanitiser.KeepAllowedOfAllowed | scripts/content.js:411-418 | allowed attributes are kept as they are |
| Sanitiser.CleanChildrenIdempotent | scripts/content.js:400-425 | cleaning twice is cleaning once |
| Sanitiser.CleanForest | scripts/content.js:421-424 | the loop over a snapshot of the children computes the cleaned children |
| Sanitiser.StripAttributes | scripts/content.js:411-418 | the loop over a snapshot of the attributes keeps exactly the allowed ones |
| Sanitiser.KeepAllowedAppend | scripts/content.js:411-418 | filtering two runs of attributes is filtering each |
| Sanitiser.MarkLink | scripts/content.js:438-439 | a marked link has `target="_blank"` and `rel="noopener noreferrer"`, and its other attributes are unchanged |
| Sanitiser.RewriteLinks | scripts/content.js:433-441 | the anchor pass keeps the number of nodes |
| Sanitiser.RewriteKeepsTree | scripts/content.js:433-441 | the anchor pass keeps the text and the media elements |
| Sanitiser.RewriteMarksLinks | scripts/content.js:433-441 | after the pass every link with an `href` around an image opens in a new tab without an opener |
| Sanitiser.RewriteKeepsClean | scripts/content.js:433-441 | the anchor pass keeps a clean tree clean |
| Sanitiser.SanitiseResult | scripts/content.js:396-443 | the sanitised container keeps all text but white space and every media element, marks image links, and is clean unless the whole content was blank |
| ReaderSettings.StepDown | scripts/content.js:994-995 | a decrease button never goes below the minimum, steps down by the step when there is room, and lowers any value above the minimum |
| ReaderSettings.StepUp | scripts/content.js:998-999 | an increase button never goes above the maximum, steps up by the step when there is room, and raises any value below the maximum |
| ReaderSettings.StepsStayInRange | scripts/content.js:993-1025 | a value within the bounds stays within them after either step |
| ReaderSettings.StepDownUndoesStepUp | scripts/content.js:993-1025 | away from the upper bound, a decrease undoes an increase |
| ReaderSettings.ApplyAction | scripts/content.js:993-1025 | each of the eight buttons keeps settings within bounds and leaves the mode, the image flag and the colours alone |
| ReaderSettings.SaveSettings | scripts/content.js:1438-1454 | the saved object holds every setting except `showImages` |
| ReaderSettings.LoadSettings | scripts/content.js:1456-1487 | loading gives `showImages` its default, keeps every default colour role, and gives the defaults when nothing is stored |
| ReaderSettings.LoadAfterSave | scripts/content.js:1438-1487 | saving then loading gives back every setting, except that `showImages` becomes true |
| ReaderSettings.LoadAfterSaveInRange | scripts/content.js:1438-1487 | settings within bounds load back within bounds |
| ReaderSettings.SettingsStore.constructor | scripts/content.js:2-27 | the settings start as the defaults |
| ReaderSettings.SettingsStore.Load | scripts/content.js:1456-1487 | `loadSettings` sets the settings to the merge of the defaults and the stored object, with images shown |
| ReaderSettings.SettingsStore.Save | scripts/content.js:1438-1454 | `saveSettings` writes the saved object and changes no setting |
| ReaderSettings.SettingsStore.Apply | scripts/content.js:985-1025 | a button applies its clamped step and saves, keeping settings within bounds |
| ReaderSettings.SettingsStore.ToggleImages | scripts/content.js:1327-1351 | `toggleImages` flips `showImages` and saves an object that leaves it out |
| ReaderSettings.ReaderImage.constructor | scripts/content.js:1354-1371 | a new image has no size classes and no inline sizes |
| ReaderSettings.ReaderImage.HandleImageSize | scripts/content.js:1354-1371 | an image narrower than the content width gets `small-image`, width `auto` and max-width `100%`; otherwise it gets `large-image` and width `100%` |
| Session.WithoutLoading | scripts/content.js:176-187 | no loading overlay is left |
| Session.WithoutLoadingKeeps | scripts/content.js:888-895 | removing loading overlays keeps exactly the other overlays, and changes nothing when there is none |
| Session.WithoutErrorsKeeps | scripts/content.js:242-247 | removing error overlays keeps exactly the other overlays |
| Session.ShowLoadingOnce | scripts/content.js:153-172 | after `showLoading` exactly one loading overlay is present, and no other overlay came or went |
| Session.ShowErrorOnly | scripts/content.js:240-293 | after `showErrorMessage` the only error overlay is the new one, and the loading overlays are as before |
| Session.RemoveAt | scripts/content.js:59-151 | a finished call leaves the other suspended calls in their order, and only it is removed |
| Session.InitInv | scripts/content.js:2-49 | a fresh session satisfies the session invariant |
| Session.RestoreStep | scripts/content.js:116-119 | a truthy snapshot is put back into the body and dropped; otherwise nothing changes |
| Session.Closed | scripts/content.js:908-920 | after a reset the scroll listener is gone, `isActive: false` has been sent, and both overflow styles are cleared |
| Session.ResetStep | scripts/content.js:127-147 | the reset clears `isEnabled`, `isProcessing` and `readerContainer`, closes the window state, and keeps the snapshot and the suspended calls |
| Session.DisableStep | scripts/content.js:885-921 | `disable` changes nothing unless enabled; otherwise it removes the loading overlays, restores a truthy snapshot and resets |
| Session.ToggleStep | scripts/content.js:59-84 | a `toggle` that finds `isProcessing` set returns through the `finally`, which clears the flag; on an enabled reader it disables; otherwise it sets `isProcessing`, resets `showImages`, snapshots the body and suspends at `parseContent` |
| Session.ToggleShowsLoading | scripts/content.js:77-84 | during an activation the page shows exactly one loading overlay until `parseContent` fails, which removes it |
| Session.ParseStep | scripts/content.js:84-126 | a suspended call resumes after `parseContent`: the session becomes enabled only after an article arrived and the loader existed; the call that creates the loader waits, any other finishes; a failure resets the session with `isActive: false` sent |
| Session.SettleStep | scripts/content.js:102-113 | a successful `toggle` ends enabled, with the scroll listener installed and `isActive: true` sent, and the `finally` clears `isProcessing` |
| Session.DelayStep | scripts/content.js:97-113 | after the 1500 ms wait the call finishes and the session ends enabled |
| Session.BuildStep | scripts/content.js:384-824 | the body swap replaces the whole body by the reader and sets the container, whatever the session flags are |
| Session.ToggleKeepsInv | scripts/content.js:59-151 | `toggle` as written keeps the invariant: `isProcessing` only while a call is suspended, a wait only once the loader exists, the loader never initialised |
| Session.DisableKeepsInv | scripts/content.js:885-936 | `disable` keeps that invariant |
| Session.ParseKeepsInv | scripts/content.js:84-126 | resuming after `parseContent` keeps that invariant |
| Session.DelayKeepsInv | scripts/content.js:97-113 | resuming after the wait keeps that invariant |
| Session.BuildKeepsInv | scripts/content.js:817-824 | the body swap keeps that invariant, so the image loader is never initialised |
| Session.MessageClearsProcessing | scripts/content.js:51-64 | one `toggle` message on an idle page leaves `isProcessing` false while the activation waits for `parseContent` |
| Session.LoadingSurvivesClose | scripts/content.js:51-151 | a second message starts another activation whose snapshot holds the loading overlay, and closing the reader afterwards puts that overlay back on the page |
| Session.FailedActivationRollsBack | scripts/content.js:114-147 | a failed activation restores the page content, shows the new error in place of the loading overlays, leaves no snapshot, ends disabled, and leaves the other suspended calls as they were |
| Session.ToggleMessageReactivates | scripts/content.js:51-57 | with two `toggle` listeners, one message on an enabled reader with no call under way disables it and then starts a new activation |
| Session.DisableBeforeBuildShowsReader | scripts/content.js:90 | an activation closed before `loadSettings` resolved still swaps the reader in and ends disabled with the reader shown |
| Session.GuardedToggleStep | scripts/content.js:59-64 | with the guard before the `try`, a call during processing changes nothing, and any other call is `toggle` as written |
| Session.InitIntendedInv | scripts/content.js:2-49 | a fresh session satisfies the intended invariant |
| Session.GuardedToggleKeepsIntendedInv | scripts/content.js:59-151 | with the guard fixed, `toggle` keeps the intended invariant: `isProcessing` exactly while one call is suspended, never two, enabled only when none is, no loading overlay in the snapshot or on an idle disabled page |
| Session.DisableKeepsIntendedInv | scripts/content.js:885-936 | `disable` keeps the intended invariant |
| Session.ParseKeepsIntendedInv | scripts/content.js:84-126 | resuming after `parseContent` keeps the intended invariant |
| Session.DelayKeepsIntendedInv | scripts/content.js:97-113 | resuming after the wait keeps the intended invariant |
| Session.BuildKeepsIntendedInv | scripts/content.js:817-824 | the body swap keeps the intended invariant |
| Session.GuardedMessageStartsOnce | scripts/content.js:51-64 | with the guard fixed, the second listener's call leaves the activation under way and `isProcessing` set |
| Session.DisableRestores | scripts/content.js:885-921 | under the intended invariant, `disable` leaves no loading overlay, and the page as it was before activation when the snapshot was truthy |
| Session.ReaderMode.constructor | scripts/content.js:2-49 | the object starts in the initial session state |
| Session.ReaderMode.Disable | scripts/content.js:885-936 | `disable` performs the disable step and keeps the object valid |
| Session.ReaderMode.RestoreSnapshot | scripts/content.js:116-119 | the snapshot is restored as in the restore step |
| Session.ReaderMode.Reset | scripts/content.js:127-147 | the reset of the outer `catch` |
| Session.ReaderMode.Toggle | scripts/content.js:59-84 | `toggle` as written up to its `await`, with `parseContent` on the given page and Readability result |
| Session.ReaderMode.Activate | scripts/content.js:74-84 | the activating branch: reset `showImages`, snapshot, show loading, suspend at `parseContent` |
| Session.ReaderMode.ResumeAfterParse | scripts/content.js:84-126 | a suspended `toggle` after its `parseContent` settled |
| Session.ReaderMode.Fail | scripts/content.js:114-147 | the two `catch` blocks after a rejection |
| Session.ReaderMode.ResumeAfterDelay | scripts/content.js:97-113 | a suspended `toggle` after its 1500 ms wait |
| Session.ReaderMode.Settle | scripts/content.js:102-113 | the end of a successful `toggle` |
| Session.ReaderMode.FinishBuild | scripts/content.js:384-824 | the body swap of the oldest pending `createReaderMode` |
| AiSummary.CacheKey | scripts/ai-summary.js:476-481 | the key is the first 50 characters of the title, a bar, then the first 100 of the content |
| AiSummary.CacheKeyInjective | scripts/ai-summary.js:476-481 | while the title prefix has no bar, two keys are equal exactly when both prefixes are |
| AiSummary.CacheKeyBarCollision | scripts/ai-summary.js:476-481 | a bar in the title makes different prefixes share a key |
| AiSummary.SkippedLine | scripts/ai-summary.js:364-381 | a line that is not a data line, or whose payload does not parse, contributes nothing |
| AiSummary.StreamTextAppend | scripts/ai-summary.js:355-383 | chunks contribute independently and in order |
| AiSummary.SplitWithoutSeparator | scripts/ai-summary.js:363 | a chunk without a line feed is one line |
| AiSummary.SingleLineChunk | scripts/ai-summary.js:363-381 | a chunk holding one line contributes exactly that line's delta |
| AiSummary.LineAcrossChunksIsLost | scripts/ai-summary.js:355-383 | a `data:` line cut in two by a chunk boundary contributes nothing, though it parses when whole |
| AiSummary.DoneLineContributesNothing | scripts/ai-summary.js:365 | the end marker contributes nothing |
| AiSummary.TrimmedTags | scripts/ai-summary.js:423-431 | there are no more tags than pieces |
| AiSummary.TrimmedTagsMembers | scripts/ai-summary.js:423-431 | the tags shown are exactly the trimmed non-blank pieces |
| AiSummary.TagListShape | scripts/ai-summary.js:423-431 | every tag shown is non-empty, trimmed and free of `、` |
| AiSummary.Render | scripts/ai-summary.js:407-473 | the error block is shown exactly when no field produced a section; otherwise one to five sections are shown |
| AiSummary.SeparatorTagsRenderEmptySection | scripts/ai-summary.js:421-437 | a `tags` string of separators only still shows an empty tag section |
| AiSummary.UnparsedAnswerIsOverview | scripts/ai-summary.js:384-389 | an answer that is not JSON is shown as its overview, or as the error block when empty |
| AiSummary.InitialInv | scripts/ai-summary.js:3-11 | the initial state satisfies the invariant, has no key and an empty cache |
| AiSummary.GenerateGuard | scripts/ai-summary.js:214-215 | without a key or a container, or while a generation runs, `generateSummary` changes nothing |
| AiSummary.GenerateUsesCache | scripts/ai-summary.js:213-237 | a cache hit without `force` shows the cached summary and sends no request; otherwise one request with the title and article text is sent |
| AiSummary.SettleCache | scripts/ai-summary.js:237-261 | settling clears `isGenerating`; only a success writes the cache, overwriting the entry |
| AiSummary.CachedAfterSuccess | scripts/ai-summary.js:231-244 | after a successful generation, asking again for the same article is served from the cache |
| AiSummary.ToggleEarlyExits | scripts/ai-summary.js:165-184 | toggling closes an existing panel without generating, and opens nothing without a key; both clear the button's loading state |
| AiSummary.ClickWhileOpeningIgnored | scripts/ai-summary.js:45-56 | a click while the button is loading is ignored |
| AiSummary.ClickKeepsInv | scripts/ai-summary.js:45-56 | a click keeps the invariant |
| AiSummary.SettleKeepsInv | scripts/ai-summary.js:237-261 | settling keeps the invariant, and attaches a panel that was being opened |
| AiSummary.CloseKeepsInv | scripts/ai-summary.js:147-150 | closing the panel keeps the invariant |
| AiSummary.RegenerateKeepsInv | scripts/ai-summary.js:153-155 | regenerating keeps the invariant |
| AiSummary.AISummary.constructor | scripts/ai-summary.js:3-11 | the object starts in the initial state |
| AiSummary.AISummary.LoadApiKey | scripts/ai-summary.js:14-28 | a truthy stored key replaces the current one; otherwise nothing changes |
| AiSummary.AISummary.SaveApiKey | scripts/ai-summary.js:31-34 | the key is replaced |
| AiSummary.AISummary.ExtractArticleContent | scripts/ai-summary.js:265-279 | the loop yields the trimmed text of every non-blank block followed by a blank line, in order |
| AiSummary.AISummary.ReceiveStream | scripts/ai-summary.js:355-383 | the read loop accumulates exactly the stream's text |
| AiSummary.AISummary.ReceiveChunk | scripts/ai-summary.js:363-382 | the line loop adds exactly the chunk's deltas, in order |
| AiSummary.AISummary.Generate | scripts/ai-summary.js:213-237 | `generateSummary` up to its `await` performs the generate step |
| AiSummary.AISummary.Settle | scripts/ai-summary.js:237-261 | the rest of `generateSummary` settles with the outcome of the API call |
| AiSummary.AISummary.CallDeepSeekApi | scripts/ai-summary.js:282-404 | the value or error the API call ends with, given the streamed chunks or the error thrown |
| AiSummary.AISummary.Finish | scripts/ai-summary.js:237-261 | the `try`/`catch`/`finally` around the call performs the settle step |
| AiSummary.AISummary.TogglePanel | scripts/ai-summary.js:163-210 | `toggleSummaryPanel` performs the toggle step |
| AiSummary.AISummary.Click | scripts/ai-summary.js:45-56 | the button's click handler performs the click step and keeps the object valid |
| AiSummary.AISummary.ClosePanel | scripts/ai-summary.js:147-150 | the close button removes the panel and clears the container |
| AiSummary.AISummary.Regenerate | scripts/ai-summary.js:153-155 | the regenerate button calls `generateSummary(true)` |
| Outline.Dropped | scripts/outline-progress.js:81-84 | at most the first heading is dropped |
| Outline.Padding | scripts/outline-progress.js:96 | the left padding is a multiple of 16 between 0 and 80 |
| Outline.PaddingLevel | scripts/outline-progress.js:88-96 | the padding determines the heading level |
| Outline.OutlineOmitsTitle | scripts/outline-progress.js:81-84 | the outline of a non-empty article omits one heading exactly when the first is an `h1`, and otherwise starts with the first heading |
| Outline.WithIds | scripts/outline-progress.js:104-106 | naming keeps the number of headings |
| Outline.WithIdsProperties | scripts/outline-progress.js:104-106 | every listed heading has an id afterwards, the dropped heading is untouched, generated ids are distinct, and the outline is unchanged |
| Outline.PartlyNamedStep | scripts/outline-progress.js:104-106 | each turn of the naming loop sets the heading's id to `heading-<k>` exactly when it had none, and changes nothing else |
| Outline.WithIdsKeepsOutline | scripts/outline-progress.js:104-106 | giving the headings ids does not change which items describe them |
| Outline.GeneratedIdsDiffer | scripts/outline-progress.js:105 | `heading-<i>` for different positions differ |
| Outline.Highlighted | scripts/outline-progress.js:219-234 | highlighting keeps the number of items |
| Outline.HighlightSingle | scripts/outline-progress.js:211-243 | after highlighting at most one item is active, the one for the heading at `activeIndex` shifted past a dropped `h1`, and only when in range |
| Outline.Distance | scripts/outline-progress.js:164 | `Math.abs(a - b)` is `a - b` when `a` is at least `b` and `b - a` otherwise |
| Outline.CurrentUnique | scripts/outline-progress.js:157-180 | at most one heading is the current one |
| Outline.SelectHeading | scripts/outline-progress.js:154-180 | the loop picks the passed heading closest to the threshold, the first on ties, and falls back to 0; it is the heading `SelectedIndex` characterises |
| Outline.ArticleOutline.constructor | scripts/outline-progress.js:7-12 | no container, no headings, visible, no outline |
| Outline.ArticleOutline.Init | scripts/outline-progress.js:19-42 | `init` does nothing without containers, records no outline and no container without headings, and otherwise generates the outline |
| Outline.ArticleOutline.GenerateOutline | scripts/outline-progress.js:67-121 | one item per listed heading, in order, and an id for each listed heading without one |
| Outline.ArticleOutline.UpdateOutlineHighlight | scripts/outline-progress.js:211-243 | the items become the highlighted items for `activeIndex` |
| Outline.ArticleOutline.OnScroll | scripts/outline-progress.js:146-184 | a scroll highlights exactly the item of the selected heading (when there is a container and an outline), so at most one item is active; the headings, the container, the visibility and the `collapsed` class are unchanged |
| Outline.ArticleOutline.ToggleOutline | scripts/outline-progress.js:248-296 | `isVisible` flips exactly when there is an outline and a container |
| Outline.ProgressWidth | scripts/outline-progress.js:412-420 | the width is between 0 and 100, 0 when nothing can scroll, and the scrolled share otherwise |
| Outline.ProgressMonotonic | scripts/outline-progress.js:412-420 | scrolling further never shrinks the bar |
| Outline.ReadingProgress.constructor | scripts/outline-progress.js:300-303 | no bar yet |
| Outline.ReadingProgress.Init | scripts/outline-progress.js:309-317 | the bar is created when there is a reader container |
| Outline.ReadingProgress.UpdateProgress | scripts/outline-progress.js:400-420 | with a bar, it is shown at the progress width; otherwise nothing changes |
| ImageLoading.DeferThenStart | scripts/image-loader.js:80-83 | a deferred image later loads what it had as `src`; an image with `data-src` is not deferred; deferring twice is deferring once |
| ImageLoading.RetryUrl | scripts/image-loader.js:234 | the retry URL starts with `data-src` |
| ImageLoading.RetryUrlParts | scripts/image-loader.js:234 | the retry URL is `data-src`, `&` or `?` as `data-src` has a `?` or not, `retry=` and the timestamp |
| ImageLoading.StepsKeepBounds | scripts/image-loader.js:150-235 | loading, retrying and timing out keep every count within the limit and touch no other image |
| ImageLoading.RetryLimit | scripts/image-loader.js:187-203 | after a load, three retries reload the image and a fourth does not |
| ImageLoading.TimeoutRestartsCount | scripts/image-loader.js:155-167 | a timeout forgets the image, so the next retry counts as the first |
| ImageLoading.ImageLoader.constructor | scripts/image-loader.js:6-14 | empty map, both scroll flags false |
| ImageLoading.ImageLoader.Init | scripts/image-loader.js:20-29 | nothing without a container; otherwise images are deferred or loaded and auto-scroll starts |
| ImageLoading.ImageLoader.SetupImageObserver | scripts/image-loader.js:57-92 | each image is deferred, or loaded when there is no observer |
| ImageLoading.ImageLoader.LoadImage | scripts/image-loader.js:150-178 | nothing without `data-src`; otherwise the image is recorded with no retries and loads from `data-src` |
| ImageLoading.ImageLoader.RetryLoadImage | scripts/image-loader.js:184-235 | nothing without `data-src` or at the limit; otherwise one more retry is counted and the retry URL is loaded |
| ImageLoading.ImageLoader.LoadTimedOut | scripts/image-loader.js:155-169 | the timeout forgets the image |
| ImageLoading.ImageLoader.StartAutoScroll | scripts/image-loader.js:385-418 | scrolling starts, and a call while scrolling changes nothing |
| ImageLoading.ImageLoader.StopAutoScroll | scripts/image-loader.js:423-426 | both flags become false |
| ImageLoading.ImageLoader.ToggleAutoScroll | scripts/image-loader.js:365-380 | `autoScrollEnabled` always flips; scrolling starts or stops only when the button is found |
| ImageLoading.ImageLoader.ScrollFrame | scripts/image-loader.js:394-414 | a frame scrolls on exactly while both flags hold and the page end is not reached; at the end both flags are cleared |
| ImageLoading.ImageLoader.PreloadImagesWithScroll | scripts/image-loader.js:34-52 | auto-scroll is enabled and scrolling |
| TextSelection.LinkRegexCharacterisation | scripts/text-selection.js:298-301 | the language of the link regular expression is exactly: no white space, a word character first, and a dot at some position `i` at least 2 and before the last character |
| TextSelection.IsTextLink | scripts/text-selection.js:298-301 | `isTextLink` holds exactly when the regular expression matches |
| TextSelection.LowerAscii | scripts/text-selection.js:311 | case folding keeps the length |
| TextSelection.LinkUrl | scripts/text-selection.js:308-313 | the opened URL has an `http` or `https` scheme, and is the text or the text after `https://` |
| TextSelection.LinkUrlIdempotent | scripts/text-selection.js:308-313 | completing twice is completing once, and a text is kept exactly when it has a scheme in any case |
| TextSelection.OpenLink | scripts/text-selection.js:304-325 | a link is opened exactly when the selection is non-empty and recognised, and it is the completed URL |
| TextSelection.Place | scripts/text-selection.js:187-208 | `left` never passes the right margin, is at least 10 when the window is wide enough, and is the centred value when that fits; `top` is above the selection unless that is under 10, else below it; the result meets the placement rule |
| TextSelection.TextSelectionBubble.constructor | scripts/text-selection.js:6-12 | hidden, no text, not a link |
| TextSelection.TextSelectionBubble.HideBubble | scripts/text-selection.js:222-228 | the bubble is hidden and nothing else changes |
| TextSelection.PlacedUnique | scripts/text-selection.js:160-172 | the placement rule (centred when that fits between the margins, else against the margin crossed, the right one on a narrow viewport; above unless that leaves under 10 pixels, else below) determines both coordinates |
| TextSelection.PlacedWithinMargins | scripts/text-selection.js:163-166 | a placed bubble never passes the right margin and keeps the left one when the viewport is wide enough |
| TextSelection.TextSelectionBubble.ShowBubble | scripts/text-selection.js:187-220 | the bubble is visible at the placement for the centre of the selection's rectangle, above or below it; the text, link flag and open-link button are unchanged |
| TextSelection.TextSelectionBubble.ShowBubbleAtMousePosition | scripts/text-selection.js:149-185 | nothing without a selected text; otherwise the bubble is visible at the placement for the mouse position, a zero coordinate standing for the middle of the viewport |
| TextSelection.TextSelectionBubble.HandleSelectionChange | scripts/text-selection.js:75-86 | a non-blank selection is kept trimmed; a blank one hides the bubble |
| TextSelection.TextSelectionBubble.HandleTextSelection | scripts/text-selection.js:92-145 | no selection changes nothing and a blank one hides the bubble, leaving the rest; a non-blank one is kept trimmed, tested for a link, and shown at the placement for its rectangle when that is usable, else for the mouse position |
| TextSelection.TextSelectionBubble.HandleOpenLink | scripts/text-selection.js:304-325 | returns the URL opened, and hides the bubble exactly when one is opened; nothing else changes |
| TextSelection.TextSelectionBubble.HandleSearch | scripts/text-selection.js:247-273 | sends the selected text when there is one, then hides the bubble; nothing else changes |
| TextSelection.TextSelectionBubble.Dismiss | scripts/text-selection.js:23-35 | a click outside or `Escape` hides the bubble and changes nothing else |
| TextSelection.BubbleSlot.constructor | scripts/text-selection.js:328-331 | no bubble yet |
| TextSelection.BubbleSlot.InitTextSelectionBubble | scripts/text-selection.js:334-358 | creates a bubble only when there is none, and keeps an existing one |
| TextSelection.BubbleSlot.RemoveTextSelectionBubble | scripts/text-selection.js:361-376 | hides a visible bubble and drops the instance |
| MarkdownExport.LeadingNewlines | scripts/markdown-copy.js:194 | the line feeds a string starts with |
| MarkdownExport.CollapseNewlines | scripts/markdown-copy.js:194 | the first pass never lengthens and keeps whether the text starts with a line feed |
| MarkdownExport.CollapseNewlinesShape | scripts/markdown-copy.js:194 | after the first pass no run of three line feeds is left |
| MarkdownExport.CollapseNewlinesKeeps | scripts/markdown-copy.js:194 | text without such a run is left unchanged |
| MarkdownExport.CollapseNewlinesOnlyNewlines | scripts/markdown-copy.js:194 | the first pass removes line feeds only |
| MarkdownExport.Unescape | scripts/markdown-copy.js:196 | unescaping never lengthens, keeps the last character, and changes the first only by dropping a backslash before an escapable character |
| MarkdownExport.UnescapeOnlyBackslashes | scripts/markdown-copy.js:196 | unescaping drops backslashes only |
| MarkdownExport.UnescapeWithoutBackslash | scripts/markdown-copy.js:196 | text without a backslash is left unchanged |
| MarkdownExport.UnescapeKeepsNoBlankRun | scripts/markdown-copy.js:196 | unescaping never creates a run of three line feeds |
| MarkdownExport.UnescapeNotIdempotent | scripts/markdown-copy.js:196 | `\\*` becomes `\*`, which a second pass turns into `*` |
| MarkdownExport.CleanMarkdownNoBlankRun | scripts/markdown-copy.js:192-197 | cleaned Markdown has no run of three line feeds |
| MarkdownExport.CleanMarkdownTrimmed | scripts/markdown-copy.js:192-197 | cleaned Markdown has no white space at either end |
| MarkdownExport.CleanMarkdownNotIdempotent | scripts/markdown-copy.js:192-197 | cleaning twice can differ from cleaning once |
| MarkdownExport.ImageMarkdown | scripts/markdown-copy.js:37-43 | the image rule gives nothing exactly when `src` is empty |
| MarkdownExport.ImageMarkdownInjective | scripts/markdown-copy.js:37-43 | for alternative texts without `]`, the Markdown determines the alternative text and the target with its title part |
| MarkdownExport.LeadingNonSpace | scripts/markdown-copy.js:54 | the run without white space a string starts with, and no more |
| MarkdownExport.FirstLanguageAt | scripts/markdown-copy.js:54 | the leftmost `language-` followed by a non-space character, or none |
| MarkdownExport.Language | scripts/markdown-copy.js:54 | the fence language holds no white space |
| MarkdownExport.LanguageEmpty | scripts/markdown-copy.js:54 | the language is empty exactly when no `language-` is followed by a non-space character |
| MarkdownExport.LanguageFound | scripts/markdown-copy.js:54 | a non-empty language is a whole non-space run following a `language-` |
| MarkdownExport.CodeFenceRoundTrip | scripts/markdown-copy.js:52-57 | the code comes back unchanged from between the fence lines |
| MarkdownExport.CellPipes | scripts/markdown-copy.js:75-80 | concatenated cells add one pipe each |
| MarkdownExport.RowAsWrittenPipes | scripts/markdown-copy.js:68-80 | as written, a row of `n` cells has `n + 2` pipes |
| MarkdownExport.RowAsWrittenExample | scripts/markdown-copy.js:68-80 | cells `a` and `b` render as a row of four pipes with an empty third column |
| MarkdownExport.RowIntendedPipes | scripts/markdown-copy.js:68-80 | the corrected row of `n` cells has `n + 1` pipes |
| MarkdownExport.RowIntendedExample | scripts/markdown-copy.js:68-80 | cells `a` and `b` render as a row of three pipes, one column per cell |
| MarkdownExport.StripAppend | scripts/markdown-copy.js:145-167 | removing nodes from two runs of siblings is removing from each |
| MarkdownExport.StripFree | scripts/markdown-copy.js:145-167 | after removal no node of a removed kind is left at any depth |
| MarkdownExport.StripOfFree | scripts/markdown-copy.js:145-167 | content without such nodes is left unchanged |
| MarkdownExport.StripCompose | scripts/markdown-copy.js:145-167 | removing one kind after another is removing both at once |
| MarkdownExport.StripCommentsKeepsText | scripts/markdown-copy.js:156-166 | removing comments keeps the text |
| MarkdownExport.RemoveAll | scripts/markdown-copy.js:147-152 | one removal pass computes the stripped nodes |
| MarkdownExport.CleanContent | scripts/markdown-copy.js:145-167 | scripts, styles and comments are removed, and none is left |
| MarkdownExport.SimpleMarkdownEmpty | scripts/markdown-copy.js:170-189 | the fallback yields nothing exactly when there is no title and every paragraph is blank |
| MarkdownExport.SimpleTextExtraction | scripts/markdown-copy.js:170-189 | the loop yields `# title` and a blank line when there is a title, then every non-blank paragraph trimmed and followed by a blank line |
| MarkdownExport.CopyButton.constructor | scripts/markdown-copy.js:84-97 | a new button is not loading |
| MarkdownExport.MarkdownCopy.constructor | scripts/markdown-copy.js:3-6 | the engine is Turndown when it is loaded |
| MarkdownExport.MarkdownCopy.CopyMarkdown | scripts/markdown-copy.js:100-142 | the button's loading state is cleared on every path; the copied text is the cleaned conversion of the cleaned content, the fallback taking its title from the `.reader-title` element inside it, only when there is content and the clipboard works; the toast matches; the copied text has no blank run |

## Left out

- Readability, the Turndown engine and `JSON.parse` are parameters: uninterpreted functions returning an optional article, a string or an optional value.
- The network call, its 30 s abort, `TextDecoder`, the stream reader, the clipboard, `window.open` and `chrome.runtime` messaging are left out. The model takes their results as inputs: the chunks received, whether the clipboard write works, and the URL or text that would be sent. The early return of `handleSearch` when `chrome.runtime` is missing (`scripts/text-selection.js:251-254`) is not modelled either: there the bubble stays visible, while `TextSelection.TextSelectionBubble.HandleSearch` always hides it when text is selected.
- `chrome.storage` is a field holding the stored object. Reads and writes happen at once, without callbacks.
- Timers, throttles, `IntersectionObserver`, `requestAnimationFrame` and scrolling are left out. Suspension points are explicit steps, and one animation frame is `ImageLoading.ImageLoader.ScrollFrame`.
- Heading positions, the page-end test and the viewport size are inputs.
- `getBoundingClientRect` is an input rectangle.
- Toasts, `alert`, error banners, loading spinners, SVG markup, the settings panel, themes and the image viewer are left out.
  - The only exception is the toast text `copyMarkdown` chooses.
  - The fade and auto-dismiss of overlays are not modelled: an error overlay stays until the next one replaces it or the body is restored.
- `handleCopy` of the selection bubble is left out: it only writes to the clipboard and shows a toast.
- The error-message remapping in `generateSummary` and `callDeepSeekAPI` is left out. A failure is one message string.
- The streaming display of partial text is left out.
- JavaScript numbers are `real` or unbounded integers. Floating-point rounding of the `lineHeight` and `paragraphSpacing` steps and of the positions is not modelled.
- `ReaderSettings.LoadSettings`: a stored field of the wrong type is not modelled. Every stored field is absent or of its declared type.
- Strings are sequences of code points. JavaScript's UTF-16 code units matter for `slice` and `length` only outside the Basic Multilingual Plane, and such characters are not distinguished.
- The DOM is modelled as immutable trees. `cleanElement`, the anchor pass and `cleanContent` compute new trees instead of mutating nodes in place, so node identity and aliasing are not captured.
- The sanitiser works on the parsed tree. The round trip through `innerHTML` is not modelled.
- `ImageLoading.ImageLoader`: images are identified by position. `loadingImages` keeps only the retry count, not the timeout handle.
- `TextSelection.TextSelectionBubble.HandleTextSelection` takes the selection's rectangle as an optional input. The `try`/`catch` around `getRangeAt` is folded into that option.
- The Turndown `tables` rule is modelled (`MarkdownExport.TableRule`). The missing delimiter row of the Markdown tables it produces is not a property of these rules, so it is not stated.
- The second `cleanContent` of `scripts/content.js` (1489-1591) is not modelled: its result is discarded. Neither are `optimizeTable`, `processImage`, `setImageAttributes` or `setupImageZoom`, which are never called.
- `scripts/background.js` is not part of this model.
- Session.BuildStep has no failure branch. `createReaderMode` is not awaited, so an exception after its `await this.loadSettings()` would be an unhandled rejection outside the rollback of `toggle`; nothing on that path is modelled as throwing.
- Outline.ArticleOutline.Valid ties the `collapsed` class to `isVisible` for the modelled methods only. `toggleOutline` (`scripts/outline-progress.js:248`) is never called; the toolbar's outline button flips the class on the container directly (`scripts/content.js:733-744`), so on a live page the class and `isVisible` can disagree. That handler is not modelled.
- AiSummary.FinalSummary: the parsed answer is an object whose fields are strings (and a sequence of strings for `key_points`). Answers of any other JSON shape are not modelled: a `null` answer makes `displaySummary` throw at `summary.summary` (`scripts/ai-summary.js:413`), which shows the `catch` message of `generateSummary` (251-258) after the cache write at 247, or reaches the `.catch` of `toggleSummaryPanel` (200-209) on a later cache hit; a `tags` field that is not a string throws at its `split` (423); and a falsy answer (`0`, `false`, `""`, `null`) is written to the cache at 247 but never served, because the cache test at 232 is a truthiness test.
- AiSummary.CachedAfterSuccess holds for object answers only: a falsy answer is cached but the next call finds no hit and asks the service again.
- AiSummary.AISummary.CallDeepSeekApi returns a `Summary` object for every successful response; the answers that throw in the rendering or are never served from the cache are outside its result type.
- Session.ReaderMode.Toggle: the page `parseContent` reads is a parameter, independent of the modelled body. The text of the overlays on the body (the loading message, an earlier error) does not count toward the page gate.

## Findings

| source | as written | input that shows it | evidently intended | confidence | as-written member | corrected member |
|---|---|---|---|---|---|---|
| scripts/content.js:331 | `/([一-龥])\s+([一-龥])/g` consumes the CJK character that closes a gap, so a gap opening at that character is skipped | `"中 文 字"` becomes `"中文 字"` | no white space left between two Chinese characters: `"中文字"` | not executed | TextNormaliser.CollapseCjkGapsAsWrittenMissesGap | TextNormaliser.CollapseCjkGapsGapFree |
| scripts/content.js:59-64 | the early return for `isProcessing` lies inside the `try`, so the `finally` clears the flag; both message listeners call `toggle` | one `toggle` message on an idle page: the second call clears `isProcessing` while the first waits for `parseContent`; a second message then snapshots the loading overlay, and closing the reader restores it | a `toggle` during processing changes nothing, so at most one activation runs and no loading overlay is restored | not executed | Session.MessageClearsProcessing | Session.GuardedToggleKeepsIntendedInv |
| scripts/markdown-copy.js:68-80 | a row is a pipe, the cells, then a closing pipe, and each cell already ends in a pipe, so the last cell's pipe is followed by another | cells `a`, `b` give four pipes, so three columns | one pipe per cell plus the opening one, so two columns | not executed | MarkdownExport.RowAsWrittenPipes | MarkdownExport.RowIntendedPipes |
