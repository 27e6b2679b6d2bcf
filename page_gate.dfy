/** The test `isPageSuitableForReading` runs before reading mode starts, and `parseContent`, which
    refuses unsuitable pages and articles that are too short. */
module PageGate {
  import opened Strings
  import opened Wrappers
  import opened Dom

  /** The page as the gate reads it: `location.href` and the children of `document.body`. */
  datatype Page = Page(url: string, body: seq<Node>)

  /** What Readability extracts; only the `content` markup is inspected here. */
  datatype Article = Article(title: string, content: string)

  /** Why `parseContent` throws. */
  datatype ParseError = Unsuitable | Unparsable | TooShort

  /** The path fragments whose presence anywhere in the URL excludes the page. */
  const ExcludedFragments: seq<string> :=
    ["/search?", "/login", "/register", "/checkout", "/cart", "/admin", "/api/"]

  /** The document extensions that exclude a URL ending in them, in any letter case. */
  const DocumentExtensions: seq<string> := ["pdf", "doc", "docx", "xls", "xlsx", "ppt", "pptx"]

  /** The tags `querySelectorAll('p, div, article, section')` matches. */
  const BlockTags: set<string> := {"P", "DIV", "ARTICLE", "SECTION"}

  /** ASCII lower case: the only folding a case-insensitive regular expression does on these
      patterns. */
  function LowerAscii(c: char): char {
    if 'A' <= c <= 'Z' then (c as int + 32) as char else c
  }

  /** `s` ends with `suffix`, comparing letters without regard to ASCII case. */
  predicate EndsWithIgnoringCase(s: string, suffix: string) {
    |suffix| <= |s|
    && forall k :: 0 <= k < |suffix| ==>
      LowerAscii(s[|s| - |suffix| + k]) == LowerAscii(suffix[k])
  }

  /** The URL matches one of the exclusion patterns. */
  predicate UrlExcluded(url: string) {
    (exists k :: 0 <= k < |ExcludedFragments| && Contains(url, ExcludedFragments[k]))
    || (exists k :: 0 <= k < |DocumentExtensions| && EndsWithIgnoringCase(url, "." + DocumentExtensions[k]))
  }

  /** `textContent.replace(/\s+/g, ' ').trim()`. */
  function CleanText(text: string): string {
    Trim(CollapseSpaces(text))
  }

  /** The texts of the block elements among `ns` and below them, in document order. */
  function BlockTexts(ns: seq<Node>): seq<string> {
    if ns == [] then []
    else
      var n := ns[0];
      (if n.Element? then (if n.tag in BlockTags then [TextContent(n)] else []) + BlockTexts(n.children)
       else [])
      + BlockTexts(ns[1..])
  }

  /** A block whose trimmed text is longer than 50 characters. */
  predicate Meaningful(text: string) {
    |Trim(text)| > 50
  }

  /** The meaningful blocks, in order. */
  function MeaningfulBlocks(blocks: seq<string>): (r: seq<string>)
    ensures |r| <= |blocks|
  {
    if blocks == [] then []
    else if Meaningful(blocks[0]) then [blocks[0]] + MeaningfulBlocks(blocks[1..])
    else MeaningfulBlocks(blocks[1..])
  }

  /** The blocks counted are exactly the meaningful ones. */
  lemma {:induction false} MeaningfulBlocksMembers(blocks: seq<string>)
    ensures forall t :: t in MeaningfulBlocks(blocks) <==> t in blocks && Meaningful(t)
  {
    if blocks != [] {
      MeaningfulBlocksMembers(blocks[1..]);
      assert blocks == [blocks[0]] + blocks[1..];
    }
  }

  /** Counting one more block adds it when it is meaningful. */
  lemma MeaningfulBlocksExtend(blocks: seq<string>, i: nat)
    requires i < |blocks|
    ensures MeaningfulBlocks(blocks[..i + 1])
         == MeaningfulBlocks(blocks[..i]) + if Meaningful(blocks[i]) then [blocks[i]] else []
  {
    assert blocks[..i + 1] == blocks[..i] + [blocks[i]];
    MeaningfulBlocksAppend(blocks[..i], [blocks[i]]);
    assert [blocks[i]][1..] == [];
  }

  lemma {:induction false} MeaningfulBlocksAppend(a: seq<string>, b: seq<string>)
    ensures MeaningfulBlocks(a + b) == MeaningfulBlocks(a) + MeaningfulBlocks(b)
  {
    if a == [] {
      assert a + b == b;
    } else {
      assert (a + b)[1..] == a[1..] + b;
      MeaningfulBlocksAppend(a[1..], b);
    }
  }

  /** The four conditions under which the gate lets a page through. */
  predicate Suitable(p: Page) {
    !UrlExcluded(p.url)
    && |CleanText(ForestText(p.body))| >= 200
    && |MeaningfulBlocks(BlockTexts(p.body))| >= 3
  }

  /** The `forEach` that counts meaningful blocks into `meaningfulParagraphs`. */
  method CountMeaningful(blocks: seq<string>) returns (count: nat)
    ensures count == |MeaningfulBlocks(blocks)|
  {
    count := 0;
    var i := 0;
    while i < |blocks|
      invariant 0 <= i <= |blocks|
      invariant count == |MeaningfulBlocks(blocks[..i])|
    {
      MeaningfulBlocksExtend(blocks, i);
      if |Trim(blocks[i])| > 50 {
        count := count + 1;
      }
      i := i + 1;
    }
    assert blocks[..i] == blocks;
  }

  /** `isPageSuitableForReading`: the URL test first, then the text length, then the block count. */
  method IsPageSuitableForReading(p: Page) returns (ok: bool)
    ensures ok == Suitable(p)
  {
    var excluded := false;
    var k := 0;
    while k < |ExcludedFragments|
      invariant 0 <= k <= |ExcludedFragments|
      invariant excluded <==> exists j :: 0 <= j < k && Contains(p.url, ExcludedFragments[j])
    {
      if Contains(p.url, ExcludedFragments[k]) {
        excluded := true;
      }
      k := k + 1;
    }
    k := 0;
    while k < |DocumentExtensions|
      invariant 0 <= k <= |DocumentExtensions|
      invariant excluded <==>
        (exists j :: 0 <= j < |ExcludedFragments| && Contains(p.url, ExcludedFragments[j]))
        || (exists j :: 0 <= j < k && EndsWithIgnoringCase(p.url, "." + DocumentExtensions[j]))
    {
      if EndsWithIgnoringCase(p.url, "." + DocumentExtensions[k]) {
        excluded := true;
      }
      k := k + 1;
    }
    if excluded {
      return false;
    }
    var cleanText := CleanText(ForestText(p.body));
    if |cleanText| < 200 {
      return false;
    }
    var meaningful := CountMeaningful(BlockTexts(p.body));
    ok := meaningful >= 3;
  }

  /** The text test can only pass on a page with at least 200 characters of text. */
  lemma SuitableNeedsText(p: Page)
    requires Suitable(p)
    ensures |ForestText(p.body)| >= 200
  {
  }

  /** ... and it always passes once the page has 200 characters that are not white space. */
  lemma {:induction false} EnoughTextPasses(text: string)
    requires |NonSpace(text)| >= 200
    ensures |CleanText(text)| >= 200
  {
    var c := CollapseSpaces(text);
    CollapseSpacesNonSpace(text);
    TrimNonSpace(c);
    assert NonSpace(Trim(c)) == NonSpace(text);
  }

  /** `parseContent`: the gate, then Readability's result, then the length of its trimmed content.
      `readability` is what `new Readability(clone).parse()` returns; it is only consulted for a
      suitable page. */
  function ParseContent(p: Page, readability: Option<Article>): (r: Result<Article, ParseError>)
    ensures r.Success? <==> Suitable(p) && readability.Some? && |Trim(readability.value.content)| >= 100
    ensures r.Success? ==> r.value == readability.value
    ensures r == Failure(Unsuitable) <==> !Suitable(p)
    ensures r == Failure(Unparsable) <==> Suitable(p) && readability.None?
  {
    if !Suitable(p) then Failure(Unsuitable)
    else if readability.None? then Failure(Unparsable)
    else if |Trim(readability.value.content)| < 100 then Failure(TooShort)
    else Success(readability.value)
  }

  /** An article `parseContent` returns always has non-empty content, so the second check `toggle`
      makes on it never fires. */
  lemma ParsedContentNonEmpty(p: Page, readability: Option<Article>)
    requires ParseContent(p, readability).Success?
    ensures ParseContent(p, readability).value.content != ""
  {
  }
}
