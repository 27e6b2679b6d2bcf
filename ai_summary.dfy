/** The bookkeeping of `AISummary` (scripts/ai-summary.js): the summary cache and its key, the
    `isGenerating` guard, the article text sent to the model, the accumulation of the streamed
    answer, the rendering of a summary into the panel, and the panel toggle behind the button.

    The network call is not modelled: its outcome (the chunks the stream delivered, or the message
    of the error it threw) is a parameter of the step that resumes after it, and so are the two
    uses of `JSON.parse`. `generateSummary` is asynchronous; it is modelled as a begin step up to
    the `await` on the API call and a settle step after it, which also runs the continuation that
    `toggleSummaryPanel` attached to the returned promise. */
module AiSummary {
  import opened Wrappers
  import opened Strings

  // ---------------------------------------------------------------- cache key

  /** `generateCacheKey`: the first 50 characters of the title, a bar, the first 100 of the content. */
  function CacheKey(title: string, content: string): (k: string)
    ensures |k| == |Take(title, 50)| + 1 + |Take(content, 100)| <= 151
    ensures k[..|Take(title, 50)|] == Take(title, 50) && k[|Take(title, 50)|] == '|'
    ensures k[|Take(title, 50)| + 1..] == Take(content, 100)
  {
    Take(title, 50) + "|" + Take(content, 100)
  }

  /** While the title prefix holds no bar, two keys are equal exactly when both prefixes are: the
      cache conflates articles that agree on those prefixes and nothing else. */
  lemma CacheKeyInjective(t1: string, c1: string, t2: string, c2: string)
    requires '|' !in Take(t1, 50) && '|' !in Take(t2, 50)
    ensures CacheKey(t1, c1) == CacheKey(t2, c2)
        <==> Take(t1, 50) == Take(t2, 50) && Take(c1, 100) == Take(c2, 100)
  {
    var a1, a2 := Take(t1, 50), Take(t2, 50);
    var k1, k2 := CacheKey(t1, c1), CacheKey(t2, c2);
    if k1 == k2 {
      assert |a1| == |a2|;
      assert a1 == k1[..|a1|];
    }
  }

  /** With a bar in the title the key is ambiguous: different prefixes, same key. */
  lemma CacheKeyBarCollision()
    ensures Take("a|b", 50) != Take("a", 50)
    ensures CacheKey("a|b", "c") == CacheKey("a", "b|c")
  {
  }

  // ---------------------------------------------------------------- article text


  // ---------------------------------------------------------------- stream

  /** A line of a chunk that may carry a delta: it starts with `data: ` and is not the end marker. */
  predicate IsDataLine(line: string) {
    StartsWith(line, "data: ") && line != "data: [DONE]"
  }

  /** What one line adds to the answer. `deltaOf(payload)` stands for
      `JSON.parse(payload).choices[0].delta.content` when that succeeds and is truthy, and is
      `None` when it throws or yields a falsy value; the line then adds nothing. */
  function LineDelta(line: string, deltaOf: string -> Option<string>): string {
    if IsDataLine(line) then
      match deltaOf(line[6..])
      case Some(d) => d
      case None => ""
    else ""
  }

  /** What each line adds. */
  function LineDeltas(deltaOf: string -> Option<string>): string -> string {
    line => LineDelta(line, deltaOf)
  }

  /** What a run of lines adds, in order. */
  function LinesText(lines: seq<string>, deltaOf: string -> Option<string>): string {
    ConcatMap(lines, LineDeltas(deltaOf))
  }

  /** What one decoded chunk adds: its lines, split on `\n` independently of the other chunks. */
  function ChunkText(chunk: string, deltaOf: string -> Option<string>): string {
    LinesText(Split(chunk, '\n'), deltaOf)
  }

  /** What each chunk adds. */
  function ChunkTexts(deltaOf: string -> Option<string>): string -> string {
    chunk => ChunkText(chunk, deltaOf)
  }

  /** `summaryText` once the stream is done: the chunks' contributions, in order. */
  function StreamText(chunks: seq<string>, deltaOf: string -> Option<string>): string {
    ConcatMap(chunks, ChunkTexts(deltaOf))
  }

  /** A line that is not a data line, or whose payload does not parse to a delta, can be dropped
      without changing the answer. */
  lemma SkippedLine(a: seq<string>, line: string, b: seq<string>, deltaOf: string -> Option<string>)
    requires !IsDataLine(line) || deltaOf(line[6..]).None?
    ensures LinesText(a + [line] + b, deltaOf) == LinesText(a + b, deltaOf)
  {
    var f := LineDeltas(deltaOf);
    ConcatMapAppend(a + [line], b, f);
    assert (a + [line])[..|a + [line]| - 1] == a;
    assert ConcatMap(a + [line], f) == ConcatMap(a, f) + f(line);
    ConcatMapAppend(a, b, f);
  }

  /** Chunks contribute independently: splitting the stream differently between two runs of
      whole chunks does not change the answer. */
  lemma StreamTextAppend(a: seq<string>, b: seq<string>, deltaOf: string -> Option<string>)
    ensures StreamText(a + b, deltaOf) == StreamText(a, deltaOf) + StreamText(b, deltaOf)
  {
    ConcatMapAppend(a, b, ChunkTexts(deltaOf));
  }

  /** A string without the separator splits into itself. */
  lemma {:induction false} SplitWithoutSeparator(s: string, sep: char)
    requires sep !in s
    ensures Split(s, sep) == [s]
  {
    if s != [] {
      assert sep !in s[1..] by { assert forall i :: 0 <= i < |s[1..]| ==> s[1..][i] == s[i + 1]; }
      SplitWithoutSeparator(s[1..], sep);
      assert [s[0]] + s[1..] == s;
    }
  }

  /** A chunk of one line contributes that line's delta. */
  lemma SingleLineChunk(chunk: string, deltaOf: string -> Option<string>)
    requires '\n' !in chunk
    ensures ChunkText(chunk, deltaOf) == LineDelta(chunk, deltaOf)
  {
    SplitWithoutSeparator(chunk, '\n');
    ConcatMapSingle(chunk, LineDeltas(deltaOf));
  }

  /** A `data:` line cut in two by a chunk boundary is lost, although it parses when whole. */
  lemma LineAcrossChunksIsLost(deltaOf: string -> Option<string>)
    requires deltaOf("x") == Some("hi")
    ensures StreamText(["data: x"], deltaOf) == "hi"
    ensures StreamText(["dat", "a: x"], deltaOf) == ""
  {
    WholeLine(deltaOf);
    CutLine(deltaOf);
  }

  lemma WholeLine(deltaOf: string -> Option<string>)
    requires deltaOf("x") == Some("hi")
    ensures StreamText(["data: x"], deltaOf) == "hi"
  {
    SingleLineChunk("data: x", deltaOf);
    assert "data: x"[6..] == "x";
    ConcatMapSingle("data: x", ChunkTexts(deltaOf));
  }

  lemma CutLine(deltaOf: string -> Option<string>)
    ensures StreamText(["dat", "a: x"], deltaOf) == ""
  {
    SingleLineChunk("dat", deltaOf);
    SingleLineChunk("a: x", deltaOf);
    ConcatMapSingle("dat", ChunkTexts(deltaOf));
    ConcatMapSingle("a: x", ChunkTexts(deltaOf));
    ConcatMapAppend(["dat"], ["a: x"], ChunkTexts(deltaOf));
    assert ["dat"] + ["a: x"] == ["dat", "a: x"];
  }

  /** The end marker contributes nothing, whatever its payload would parse to. */
  lemma DoneLineContributesNothing(deltaOf: string -> Option<string>)
    ensures LineDelta("data: [DONE]", deltaOf) == ""
  {
  }

  // ---------------------------------------------------------------- summary and rendering

  /** The parsed answer. A field the answer lacks is `""` (or `[]` for `key_points`), which is how
      the rendering treats a missing field. */
  datatype Summary = Summary(
    summary: string, tags: string, keyPoints: seq<string>, conclusion: string, reflection: string)

  /** The final step of `callDeepSeekAPI`: the text parsed as JSON, or `{summary: text}` when it
      does not parse. `parse` stands for `JSON.parse`. */
  function FinalSummary(text: string, parse: string -> Option<Summary>): Summary {
    match parse(text)
    case Some(s) => s
    case None => Summary(text, "", [], "", "")
  }

  /** A section of a rendered summary, in the order `displaySummary` emits them. */
  datatype Section =
    | Overview(text: string)
    | Tags(tags: seq<string>)
    | KeyPoints(points: seq<string>)
    | Conclusion(text: string)
    | Reflection(text: string)

  /** What the `.ai-summary-content` element of the panel shows. */
  datatype Panel =
    | Empty
    | Generating
    | ArticleMissing
    | Failed(message: string)
    | Rendered(sections: seq<Section>)
    | NoValidSummary

  /** The tags of `summary.tags.split('、').filter(tag => tag.trim() !== '')`, each trimmed. */
  function TrimmedTags(pieces: seq<string>): (r: seq<string>)
    ensures |r| <= |pieces|
  {
    if pieces == [] then []
    else (if Trim(pieces[0]) != "" then [Trim(pieces[0])] else []) + TrimmedTags(pieces[1..])
  }

  function TagList(tags: string): seq<string> {
    TrimmedTags(Split(tags, '、'))
  }

  /** The tags shown are exactly the non-blank trimmed pieces. */
  lemma {:induction false} TrimmedTagsMembers(pieces: seq<string>)
    ensures forall t :: (t in TrimmedTags(pieces)
      <==> exists i :: 0 <= i < |pieces| && t == Trim(pieces[i]) && t != "")
  {
    if pieces != [] {
      TrimmedTagsMembers(pieces[1..]);
      forall t | exists i :: 0 <= i < |pieces| && t == Trim(pieces[i]) && t != ""
        ensures t in TrimmedTags(pieces)
      {
        var i :| 0 <= i < |pieces| && t == Trim(pieces[i]) && t != "";
        if i > 0 {
          assert pieces[1..][i - 1] == pieces[i];
        }
      }
    }
  }

  /** Every tag shown is non-empty, already trimmed and free of the separator. */
  lemma TagListShape(tags: string)
    ensures forall t :: t in TagList(tags) ==> t != "" && Trim(t) == t && '、' !in t
  {
    var pieces := Split(tags, '、');
    TrimmedTagsMembers(pieces);
    forall t | t in TagList(tags)
      ensures t != "" && Trim(t) == t && '、' !in t
    {
      var i :| 0 <= i < |pieces| && t == Trim(pieces[i]) && t != "";
      TrimmedPiece(pieces[i], '、');
    }
  }

  /** Trimming a piece keeps it free of a character it does not contain. */
  lemma TrimmedPiece(p: string, sep: char)
    requires sep !in p
    ensures Trim(Trim(p)) == Trim(p) && sep !in Trim(p)
  {
    TrimTrim(p);
    TrimIsInfix(p);
    var k := LeadingSpaces(p);
    var t := Trim(p);
    assert forall j :: 0 <= j < |t| ==> t[j] == p[k + j];
  }

  /** The sections `displaySummary` emits: one per truthy field, `tags` included even when every
      piece of it is blank. */
  function Sections(s: Summary): seq<Section> {
    (if s.summary != "" then [Overview(s.summary)] else [])
    + (if s.tags != "" then [Tags(TagList(s.tags))] else [])
    + (if s.keyPoints != [] then [KeyPoints(s.keyPoints)] else [])
    + (if s.conclusion != "" then [Conclusion(s.conclusion)] else [])
    + (if s.reflection != "" then [Reflection(s.reflection)] else [])
  }

  /** `displaySummary`: the sections, or the error block when there are none. */
  function Render(s: Summary): (p: Panel)
    ensures p == NoValidSummary
        <==> s.summary == "" && s.tags == "" && s.keyPoints == [] && s.conclusion == "" && s.reflection == ""
    ensures p != NoValidSummary ==> p.Rendered? && 1 <= |p.sections| <= 5
  {
    var sections := Sections(s);
    if sections == [] then NoValidSummary else Rendered(sections)
  }

  /** A `tags` string made only of separators and spaces is truthy, so it yields an empty tag
      section instead of the error block. */
  lemma SeparatorTagsRenderEmptySection()
    ensures Render(Summary("", "、", [], "", "")) == Rendered([Tags([])])
  {
    var s := "、";
    assert s[0] == '、' && s[1..] == [];
    assert Split(s, '、') == ["", ""];
    assert Trim("") == "";
  }

  /** An answer that is not JSON is shown as its overview, or as the error block when empty. */
  lemma UnparsedAnswerIsOverview(text: string, parse: string -> Option<Summary>)
    requires parse(text).None?
    ensures Render(FinalSummary(text, parse))
        == if text == "" then NoValidSummary else Rendered([Overview(text)])
  {
  }

  // ---------------------------------------------------------------- generation and panel

  /** The reader's article as `generateSummary` finds it: the text of `.reader-title` if that
      element exists, and the `textContent` of its `p`/`h1`–`h6` elements in document order. */
  datatype ArticleView = ArticleView(titleText: Option<string>, blockTexts: seq<string>)

  /** `article.querySelector('.reader-title')?.textContent || document.title`. */
  function TitleOf(a: ArticleView, documentTitle: string): string {
    if a.titleText.Some? && a.titleText.value != "" then a.titleText.value else documentTitle
  }

  /** A request sent to the API: the title and the article text. */
  datatype Request = Request(title: string, content: string)

  /** How the API call ended: the chunks the stream delivered, or the message of the error it threw
      (HTTP status, timeout, network). */
  datatype Response = Streamed(chunks: seq<string>) | Threw(message: string)

  /** `callDeepSeekAPI` seen from its caller. */
  function CallOutcome(r: Response, deltaOf: string -> Option<string>, parse: string -> Option<Summary>)
    : Result<Summary, string>
  {
    match r
    case Streamed(chunks) => Success(FinalSummary(StreamText(chunks, deltaOf), parse))
    case Threw(message) => Failure(message)
  }

  /** The fields of `AISummary` and the state around them: whether a `.ai-summary-panel` is in the
      document, whether a panel created by `toggleSummaryPanel` waits for its generation before
      being attached, whether the button shows its loading state, the cache key the pending
      generation will write, and the requests sent to the API so far. */
  datatype Summarizer = Summarizer(
    apiKey: Option<string>,
    isGenerating: bool,
    pendingKey: Option<string>,
    container: Option<Panel>,
    panelAttached: bool,
    opening: bool,
    buttonLoading: bool,
    cache: map<string, Summary>,
    requests: seq<Request>)

  /** `!this.apiKey` is false. */
  predicate HasKey(s: Summarizer) {
    s.apiKey.Some? && s.apiKey.value != ""
  }

  function Initial(): Summarizer {
    Summarizer(None, false, None, None, false, false, false, map[], [])
  }

  /** The pending generation is the one `isGenerating` announces; `summaryContainer` is set exactly
      while a panel is attached or being opened; a panel being opened keeps the button loading and
      waits for a generation. */
  predicate Inv(s: Summarizer) {
    && (s.isGenerating <==> s.pendingKey.Some?)
    && (s.container.Some? <==> s.panelAttached || s.opening)
    && (s.opening ==> s.isGenerating && s.buttonLoading && !s.panelAttached)
  }

  lemma InitialInv()
    ensures Inv(Initial()) && !HasKey(Initial()) && Initial().cache == map[]
  {
  }

  /** `generateSummary(force)` up to the `await` on the API call; the flag says whether it got there. */
  function GenerateStep(s: Summarizer, force: bool, article: Option<ArticleView>, documentTitle: string)
    : (Summarizer, bool)
  {
    if !HasKey(s) || s.container.None? || s.isGenerating then (s, false)
    else if article.None? then (s.(container := Some(ArticleMissing)), false)
    else
      var title := TitleOf(article.value, documentTitle);
      var content := Paragraphs(article.value.blockTexts);
      var key := CacheKey(title, content);
      if !force && key in s.cache then (s.(container := Some(Render(s.cache[key]))), false)
      else
        (s.(isGenerating := true, pendingKey := Some(key), container := Some(Generating),
            requests := s.requests + [Request(title, content)]), true)
  }

  /** The rest of `generateSummary` once the API call ended, then the `finally`, then the
      continuation of `toggleSummaryPanel` when a panel is being opened. A failure with no container
      makes the `catch` itself throw; the promise is then rejected. */
  function SettleStep(s: Summarizer, outcome: Result<Summary, string>): Summarizer
    requires s.pendingKey.Some?
  {
    var key := s.pendingKey.value;
    var rejected := outcome.Failure? && s.container.None?;
    var t := match outcome
      case Success(summary) =>
        s.(cache := s.cache[key := summary],
           container := if s.container.Some? then Some(Render(summary)) else None)
      case Failure(message) =>
        s.(container := if s.container.Some? then Some(Failed(message)) else None);
    var u := t.(isGenerating := false, pendingKey := None);
    if !u.opening then u
    else if rejected then u.(opening := false, buttonLoading := false, container := None)
    else u.(opening := false, buttonLoading := false, panelAttached := true)
  }

  /** `toggleSummaryPanel`, called by the button once it is in its loading state. */
  function TogglePanelStep(s: Summarizer, article: Option<ArticleView>, documentTitle: string): Summarizer {
    if s.panelAttached then s.(panelAttached := false, container := None, buttonLoading := false)
    else if !HasKey(s) then s.(buttonLoading := false)
    else
      var (t, started) := GenerateStep(s.(container := Some(Empty)), false, article, documentTitle);
      if started then t.(opening := true)
      else t.(panelAttached := true, buttonLoading := false)
  }

  /** The button's click handler. */
  function ClickStep(s: Summarizer, article: Option<ArticleView>, documentTitle: string): Summarizer {
    if s.buttonLoading then s else TogglePanelStep(s.(buttonLoading := true), article, documentTitle)
  }

  /** The panel's close button. */
  function CloseStep(s: Summarizer): Summarizer {
    s.(panelAttached := false, container := None)
  }

  /** The panel's regenerate button: `generateSummary(true)`. */
  function RegenerateStep(s: Summarizer, article: Option<ArticleView>, documentTitle: string): Summarizer {
    GenerateStep(s, true, article, documentTitle).0
  }

  // ---------------------------------------------------------------- properties of the steps

  /** Without a key or a container, or while a generation runs, `generateSummary` changes nothing. */
  lemma GenerateGuard(s: Summarizer, force: bool, article: Option<ArticleView>, documentTitle: string)
    requires !HasKey(s) || s.container.None? || s.isGenerating
    ensures GenerateStep(s, force, article, documentTitle) == (s, false)
  {
  }

  /** A cache hit without `force` shows the cached summary and sends no request; otherwise a
      started generation sends exactly one request, for the key it will write. */
  lemma GenerateUsesCache(s: Summarizer, force: bool, a: ArticleView, documentTitle: string)
    requires HasKey(s) && s.container.Some? && !s.isGenerating
    ensures var key := CacheKey(TitleOf(a, documentTitle), Paragraphs(a.blockTexts));
      var (t, started) := GenerateStep(s, force, Some(a), documentTitle);
      && t.cache == s.cache
      && (!force && key in s.cache ==> !started && t.requests == s.requests
                                       && t.container == Some(Render(s.cache[key])))
      && (started <==> force || key !in s.cache)
      && (started ==> t.isGenerating && t.pendingKey == Some(key) && |t.requests| == |s.requests| + 1)
  {
  }

  /** Settling always clears `isGenerating`; only a success writes the cache, overwriting the
      entry of its key, and a failure leaves the cache as it was. */
  lemma SettleCache(s: Summarizer, outcome: Result<Summary, string>)
    requires s.pendingKey.Some?
    ensures !SettleStep(s, outcome).isGenerating && SettleStep(s, outcome).pendingKey.None?
    ensures outcome.Success? ==> SettleStep(s, outcome).cache == s.cache[s.pendingKey.value := outcome.value]
    ensures outcome.Failure? ==> SettleStep(s, outcome).cache == s.cache
    ensures SettleStep(s, outcome).requests == s.requests
  {
  }

  /** After a successful generation, asking again for the same article (the panel being open)
      shows the answer from the cache and sends nothing. */
  lemma CachedAfterSuccess(s: Summarizer, a: ArticleView, documentTitle: string, summary: Summary)
    requires HasKey(s) && s.container.Some? && !s.isGenerating && !s.opening
    requires GenerateStep(s, true, Some(a), documentTitle).1
    ensures var t := SettleStep(GenerateStep(s, true, Some(a), documentTitle).0, Success(summary));
      var (u, started) := GenerateStep(t, false, Some(a), documentTitle);
      !started && u.requests == t.requests && u.container == Some(Render(summary))
  {
  }

  /** Toggling closes an attached panel without generating; without a key it opens nothing. In
      both cases the button leaves its loading state. */
  lemma ToggleEarlyExits(s: Summarizer, article: Option<ArticleView>, documentTitle: string)
    requires s.panelAttached || !HasKey(s)
    ensures var t := TogglePanelStep(s, article, documentTitle);
      && !t.panelAttached && !t.buttonLoading && t.requests == s.requests && t.cache == s.cache
      && t.isGenerating == s.isGenerating
      && (s.panelAttached ==> t.container.None?)
  {
  }

  /** A click while a panel is being opened finds the button loading and is ignored. */
  lemma ClickWhileOpeningIgnored(s: Summarizer, article: Option<ArticleView>, documentTitle: string)
    requires Inv(s) && s.opening
    ensures ClickStep(s, article, documentTitle) == s
  {
  }

  lemma ClickKeepsInv(s: Summarizer, article: Option<ArticleView>, documentTitle: string)
    requires Inv(s)
    ensures Inv(ClickStep(s, article, documentTitle))
  {
  }

  lemma SettleKeepsInv(s: Summarizer, outcome: Result<Summary, string>)
    requires Inv(s) && s.isGenerating
    ensures Inv(SettleStep(s, outcome))
    ensures s.opening ==> SettleStep(s, outcome).panelAttached
  {
  }

  lemma CloseKeepsInv(s: Summarizer)
    requires Inv(s) && s.panelAttached
    ensures Inv(CloseStep(s))
  {
  }

  lemma RegenerateKeepsInv(s: Summarizer, article: Option<ArticleView>, documentTitle: string)
    requires Inv(s) && s.panelAttached
    ensures Inv(RegenerateStep(s, article, documentTitle))
  {
  }

  // ---------------------------------------------------------------- the object

  class AISummary {
    var apiKey: Option<string>
    var isGenerating: bool
    var pendingKey: Option<string>
    var container: Option<Panel>
    var panelAttached: bool
    var opening: bool
    var buttonLoading: bool
    var cache: map<string, Summary>
    var requests: seq<Request>

    function Snapshot(): Summarizer
      reads this
    {
      Summarizer(apiKey, isGenerating, pendingKey, container, panelAttached, opening, buttonLoading,
                 cache, requests)
    }

    predicate Valid()
      reads this
    {
      Inv(Snapshot())
    }

    constructor()
      ensures Snapshot() == Initial() && Valid()
    {
      apiKey := None;
      isGenerating := false;
      pendingKey := None;
      container := None;
      panelAttached := false;
      opening := false;
      buttonLoading := false;
      cache := map[];
      requests := [];
    }

    /** `loadApiKey` once storage answered: a truthy stored key replaces the current one. */
    method LoadApiKey(stored: Option<string>)
      modifies this
      ensures Snapshot() == if stored.Some? && stored.value != "" then old(Snapshot()).(apiKey := stored)
                            else old(Snapshot())
    {
      if stored.Some? && stored.value != "" {
        apiKey := stored;
      }
    }

    /** `saveApiKey`; the storage write is not modelled. */
    method SaveApiKey(key: string)
      modifies this
      ensures Snapshot() == old(Snapshot()).(apiKey := Some(key))
    {
      apiKey := Some(key);
    }

    /** `extractArticleContent`. */
    method ExtractArticleContent(texts: seq<string>) returns (content: string)
      ensures content == Paragraphs(texts)
    {
      content := "";
      var i := 0;
      while i < |texts|
        invariant i <= |texts|
        invariant content == Paragraphs(texts[..i])
      {
        ParagraphsExtend(texts, i);
        var text := Trim(texts[i]);
        if text != "" {
          content := content + text + "\n\n";
        }
        i := i + 1;
      }
      assert texts[..i] == texts;
    }

    /** The read loop of `callDeepSeekAPI`: every chunk is split into lines and each data line's
        delta is appended. */
    method ReceiveStream(chunks: seq<string>, deltaOf: string -> Option<string>) returns (text: string)
      ensures text == StreamText(chunks, deltaOf)
    {
      text := "";
      var i := 0;
      while i < |chunks|
        invariant i <= |chunks|
        invariant text == StreamText(chunks[..i], deltaOf)
      {
        assert chunks[..i + 1][..i] == chunks[..i];
        var added := ReceiveChunk(chunks[i], deltaOf);
        text := text + added;
        i := i + 1;
      }
      assert chunks[..i] == chunks;
    }

    /** The inner loop over the lines of one chunk. */
    method ReceiveChunk(chunk: string, deltaOf: string -> Option<string>) returns (added: string)
      ensures added == ChunkText(chunk, deltaOf)
    {
      var lines := Split(chunk, '\n');
      added := "";
      var j := 0;
      while j < |lines|
        invariant j <= |lines|
        invariant added == LinesText(lines[..j], deltaOf)
      {
        assert lines[..j + 1][..j] == lines[..j];
        var line := lines[j];
        if StartsWith(line, "data: ") && line != "data: [DONE]" {
          var delta := deltaOf(line[6..]);
          if delta.Some? {
            added := added + delta.value;
          }
        }
        j := j + 1;
      }
      assert lines[..j] == lines;
    }

    /** `generateSummary(force)` up to the `await` on the API call. */
    method Generate(force: bool, article: Option<ArticleView>, documentTitle: string) returns (started: bool)
      modifies this
      ensures (Snapshot(), started) == GenerateStep(old(Snapshot()), force, article, documentTitle)
    {
      if !(apiKey.Some? && apiKey.value != "") || container.None? || isGenerating {
        return false;
      }
      if article.None? {
        container := Some(ArticleMissing);
        return false;
      }
      var title := TitleOf(article.value, documentTitle);
      var content := ExtractArticleContent(article.value.blockTexts);
      var key := CacheKey(title, content);
      if !force && key in cache {
        container := Some(Render(cache[key]));
        return false;
      }
      isGenerating := true;
      pendingKey := Some(key);
      container := Some(Generating);
      requests := requests + [Request(title, content)];
      started := true;
    }

    /** The rest of `generateSummary` once the API call ended, with the continuation of
        `toggleSummaryPanel` when it opened the panel. */
    method Settle(response: Response, deltaOf: string -> Option<string>, parse: string -> Option<Summary>)
      requires Valid() && isGenerating
      modifies this
      ensures Snapshot() == SettleStep(old(Snapshot()), CallOutcome(response, deltaOf, parse)) && Valid()
    {
      var outcome := CallDeepSeekApi(response, deltaOf, parse);
      Finish(outcome);
    }

    /** The value or the error `callDeepSeekAPI` ends with, once the stream is read. */
    method CallDeepSeekApi(response: Response, deltaOf: string -> Option<string>, parse: string -> Option<Summary>)
      returns (outcome: Result<Summary, string>)
      ensures outcome == CallOutcome(response, deltaOf, parse)
    {
      match response {
        case Streamed(chunks) =>
          var text := ReceiveStream(chunks, deltaOf);
          outcome := Success(FinalSummary(text, parse));
        case Threw(message) =>
          outcome := Failure(message);
      }
    }

    /** The `try`/`catch`/`finally` of `generateSummary` around the awaited call, then the
        continuation of `toggleSummaryPanel`. */
    method Finish(outcome: Result<Summary, string>)
      requires Valid() && isGenerating
      modifies this
      ensures Snapshot() == SettleStep(old(Snapshot()), outcome) && Valid()
    {
      SettleKeepsInv(Snapshot(), outcome);
      var key := pendingKey.value;
      match outcome {
        case Success(summary) =>
          cache := cache[key := summary];
          if container.Some? {
            container := Some(Render(summary));
          }
        case Failure(message) =>
          if container.Some? {
            container := Some(Failed(message));
          }
      }
      isGenerating := false;
      pendingKey := None;
      if opening {
        opening := false;
        buttonLoading := false;
        panelAttached := true;
      }
    }

    /** `toggleSummaryPanel`. */
    method TogglePanel(article: Option<ArticleView>, documentTitle: string)
      modifies this
      ensures Snapshot() == TogglePanelStep(old(Snapshot()), article, documentTitle)
    {
      if panelAttached {
        panelAttached := false;
        container := None;
        buttonLoading := false;
        return;
      }
      if !(apiKey.Some? && apiKey.value != "") {
        buttonLoading := false;
        return;
      }
      container := Some(Empty);
      var started := Generate(false, article, documentTitle);
      if started {
        opening := true;
      } else {
        panelAttached := true;
        buttonLoading := false;
      }
    }

    /** The button's click handler. */
    method Click(article: Option<ArticleView>, documentTitle: string)
      requires Valid()
      modifies this
      ensures Snapshot() == ClickStep(old(Snapshot()), article, documentTitle) && Valid()
    {
      ClickKeepsInv(Snapshot(), article, documentTitle);
      if buttonLoading {
        return;
      }
      buttonLoading := true;
      TogglePanel(article, documentTitle);
    }

    /** The panel's close button. */
    method ClosePanel()
      requires Valid() && panelAttached
      modifies this
      ensures Snapshot() == CloseStep(old(Snapshot())) && Valid()
    {
      panelAttached := false;
      container := None;
    }

    /** The panel's regenerate button. */
    method Regenerate(article: Option<ArticleView>, documentTitle: string)
      requires Valid() && panelAttached
      modifies this
      ensures Snapshot() == RegenerateStep(old(Snapshot()), article, documentTitle) && Valid()
    {
      RegenerateKeepsInv(Snapshot(), article, documentTitle);
      var _ := Generate(true, article, documentTitle);
    }
  }
}
