/** The Markdown export (scripts/markdown-copy.js): the clean-up of the cloned reader content, the
    conversion rules given to the Turndown engine, the fallback text extraction, the clean-up of
    the produced Markdown, and the copy button's loading state.

    The Turndown engine itself is a parameter (a function from the cleaned content to Markdown);
    only the replacement strings of the rules added to it are modelled. */
module MarkdownExport {
  import opened Strings
  import opened Wrappers
  import opened Dom

  // ---------------------------------------------------------------- cleanMarkdown

  /** No three line feeds in a row: what `/\n{3,}/g` no longer finds. */
  predicate NoBlankRun(s: string) {
    forall i :: 0 <= i < |s| - 2 ==> !(s[i] == '\n' && s[i + 1] == '\n' && s[i + 2] == '\n')
  }

  /** The number of line feeds `s` starts with. */
  function LeadingNewlines(s: string): (k: nat)
    ensures k <= |s|
    ensures forall i :: 0 <= i < k ==> s[i] == '\n'
    ensures k < |s| ==> s[k] != '\n'
  {
    if s != [] && s[0] == '\n' then 1 + LeadingNewlines(s[1..]) else 0
  }

  /** `markdown.replace(/\n{3,}/g, '\n\n')`: every maximal run of three or more line feeds becomes
      two. */
  function CollapseNewlines(s: string): (r: string)
    ensures |r| <= |s|
    ensures |s| > 0 ==> |r| > 0 && (r[0] == '\n' <==> s[0] == '\n')
    decreases |s|
  {
    if s == [] then []
    else if s[0] != '\n' then [s[0]] + CollapseNewlines(s[1..])
    else
      var k := LeadingNewlines(s);
      (if k >= 3 then "\n\n" else s[..k]) + CollapseNewlines(s[k..])
  }

  /** Two pieces joined make no run of three line feeds when the right one has none, the left one
      is at most two characters long, and no run can cross the seam. */
  lemma NoBlankRunJoin(p: string, q: string)
    requires |p| <= 2 && NoBlankRun(q)
    requires (forall i :: 0 <= i < |p| ==> p[i] != '\n') || q == [] || q[0] != '\n'
    ensures NoBlankRun(p + q)
  {
    var r := p + q;
    forall i | 0 <= i < |r| - 2
      ensures !(r[i] == '\n' && r[i + 1] == '\n' && r[i + 2] == '\n')
    {
      if i >= |p| {
        assert r[i] == q[i - |p|] && r[i + 1] == q[i - |p| + 1] && r[i + 2] == q[i - |p| + 2];
      } else {
        assert r[i] == p[i] && r[|p|] == q[0];
      }
    }
  }

  /** A piece of a string without a run keeps none. */
  lemma NoBlankRunSlice(s: string, a: nat, b: nat)
    requires a <= b <= |s| && NoBlankRun(s)
    ensures NoBlankRun(s[a..b])
  {
    var t := s[a..b];
    forall i | 0 <= i < |t| - 2
      ensures !(t[i] == '\n' && t[i + 1] == '\n' && t[i + 2] == '\n')
    {
      assert t[i] == s[a + i] && t[i + 1] == s[a + i + 1] && t[i + 2] == s[a + i + 2];
    }
  }

  /** After the first pass no run of three line feeds is left. */
  lemma {:induction false} CollapseNewlinesShape(s: string)
    ensures NoBlankRun(CollapseNewlines(s))
    decreases |s|
  {
    if s == [] {
    } else if s[0] != '\n' {
      CollapseNewlinesShape(s[1..]);
      NoBlankRunJoin([s[0]], CollapseNewlines(s[1..]));
    } else {
      var k := LeadingNewlines(s);
      CollapseNewlinesShape(s[k..]);
      NoBlankRunJoin(if k >= 3 then "\n\n" else s[..k], CollapseNewlines(s[k..]));
    }
  }

  /** The first pass leaves a string without such a run alone. */
  lemma {:induction false} CollapseNewlinesKeeps(s: string)
    requires NoBlankRun(s)
    ensures CollapseNewlines(s) == s
    decreases |s|
  {
    if s == [] {
    } else if s[0] != '\n' {
      NoBlankRunSlice(s, 1, |s|);
      CollapseNewlinesKeeps(s[1..]);
    } else {
      var k := LeadingNewlines(s);
      assert |s| >= 3 ==> !(s[0] == '\n' && s[1] == '\n' && s[2] == '\n');
      assert k <= 2;
      NoBlankRunSlice(s, k, |s|);
      CollapseNewlinesKeeps(s[k..]);
      assert s[..k] + s[k..] == s;
    }
  }

  /** The characters of `s` other than `c`, in order. */
  function Without(s: string, c: char): (r: string)
    ensures c !in r
  {
    if s == [] then [] else (if s[0] == c then [] else [s[0]]) + Without(s[1..], c)
  }

  lemma {:induction false} WithoutAppend(a: string, b: string, c: char)
    ensures Without(a + b, c) == Without(a, c) + Without(b, c)
  {
    if a != [] {
      assert (a + b)[1..] == a[1..] + b;
      WithoutAppend(a[1..], b, c);
    } else {
      assert a + b == b;
    }
  }

  lemma {:induction false} WithoutOnly(s: string, c: char)
    requires forall i :: 0 <= i < |s| ==> s[i] == c
    ensures Without(s, c) == []
  {
    if s != [] {
      WithoutOnly(s[1..], c);
    }
  }

  /** The first pass removes line feeds and nothing else. */
  lemma {:induction false} CollapseNewlinesOnlyNewlines(s: string)
    ensures Without(CollapseNewlines(s), '\n') == Without(s, '\n')
    decreases |s|
  {
    if s == [] {
    } else if s[0] != '\n' {
      CollapseNewlinesOnlyNewlines(s[1..]);
      WithoutAppend([s[0]], CollapseNewlines(s[1..]), '\n');
    } else {
      var k := LeadingNewlines(s);
      var head := if k >= 3 then "\n\n" else s[..k];
      CollapseNewlinesOnlyNewlines(s[k..]);
      WithoutAppend(head, CollapseNewlines(s[k..]), '\n');
      assert s == s[..k] + s[k..];
      WithoutAppend(s[..k], s[k..], '\n');
      WithoutOnly(s[..k], '\n');
      WithoutOnly(head, '\n');
    }
  }

  /** The characters `/\\([*_`~\[\](){}])/g` unescapes. */
  const Escapable: set<char> := {'*', '_', '`', '~', '[', ']', '(', ')', '{', '}'}

  /** `markdown.replace(/\\([*_`~\[\](){}])/g, '$1')`: scanning left to right, a backslash
      directly before an escapable character is dropped and the character is not looked at
      again. */
  function Unescape(s: string): (r: string)
    ensures |r| <= |s|
    ensures |s| > 0 ==> |r| > 0 && r[|r| - 1] == s[|s| - 1]
    ensures |s| > 0 ==> r[0] == s[0] || (s[0] == '\\' && r[0] == s[1] && s[1] in Escapable)
    decreases |s|
  {
    if s == [] then []
    else if |s| >= 2 && s[0] == '\\' && s[1] in Escapable then [s[1]] + Unescape(s[2..])
    else [s[0]] + Unescape(s[1..])
  }

  /** Unescaping drops backslashes and nothing else. */
  lemma {:induction false} UnescapeOnlyBackslashes(s: string)
    ensures Without(Unescape(s), '\\') == Without(s, '\\')
    decreases |s|
  {
    if s == [] {
    } else if |s| >= 2 && s[0] == '\\' && s[1] in Escapable {
      UnescapeOnlyBackslashes(s[2..]);
      assert s[1..][1..] == s[2..];
    } else {
      UnescapeOnlyBackslashes(s[1..]);
    }
  }

  /** Text without a backslash is left alone. */
  lemma {:induction false} UnescapeWithoutBackslash(s: string)
    requires '\\' !in s
    ensures Unescape(s) == s
    decreases |s|
  {
    if s != [] {
      UnescapeWithoutBackslash(s[1..]);
    }
  }

  /** Unescaping never makes a run of three line feeds: the characters it brings forward are not
      line feeds. */
  lemma {:induction false} UnescapeKeepsNoBlankRun(s: string)
    requires NoBlankRun(s)
    ensures NoBlankRun(Unescape(s))
    decreases |s|
  {
    if s == [] {
    } else if |s| >= 2 && s[0] == '\\' && s[1] in Escapable {
      NoBlankRunSlice(s, 2, |s|);
      UnescapeKeepsNoBlankRun(s[2..]);
      NoBlankRunJoin([s[1]], Unescape(s[2..]));
    } else {
      NoBlankRunSlice(s, 1, |s|);
      UnescapeKeepsNoBlankRun(s[1..]);
      var u := Unescape(s[1..]);
      if s[0] != '\n' || u == [] || u[0] != '\n' {
        NoBlankRunJoin([s[0]], u);
      } else {
        UnescapeAfterTwoNewlines(s);
      }
    }
  }

  /** The case where a line feed is followed by an unescaped text that starts with one too. */
  lemma UnescapeAfterTwoNewlines(s: string)
    requires NoBlankRun(s) && |s| >= 2 && s[0] == '\n' && s[1] == '\n'
    requires NoBlankRun(Unescape(s[1..]))
    ensures NoBlankRun([s[0]] + Unescape(s[1..]))
  {
    var u := Unescape(s[1..]);
    var w := Unescape(s[2..]);
    assert s[1..][1..] == s[2..];
    assert u == [s[1]] + w;
    NoBlankRunSlice(u, 1, |u|);
    assert u[1..] == w;
    assert |s| >= 3 ==> s[2] != '\n';
    assert w == [] || w[0] != '\n';
    assert [s[0]] + u == "\n\n" + w;
    NoBlankRunJoin("\n\n", w);
  }

  /** A second pass unescapes what the first one produced: the clean-up is not idempotent. */
  lemma UnescapeNotIdempotent()
    ensures Unescape("\\\\*") == "\\*"
    ensures Unescape("\\*") == "*"
  {
    assert Unescape("\\\\*") == ['\\'] + Unescape("\\*");
    assert Unescape("\\*") == ['*'] + Unescape("");
  }

  /** `cleanMarkdown`: collapse blank runs, trim, then unescape. */
  function CleanMarkdown(markdown: string): string {
    Unescape(Trim(CollapseNewlines(markdown)))
  }

  /** The cleaned Markdown has no run of three line feeds. */
  lemma CleanMarkdownNoBlankRun(markdown: string)
    ensures NoBlankRun(CleanMarkdown(markdown))
  {
    var c := CollapseNewlines(markdown);
    CollapseNewlinesShape(markdown);
    TrimIsInfix(c);
    NoBlankRunSlice(c, LeadingSpaces(c), LeadingSpaces(c) + |Trim(c)|);
    UnescapeKeepsNoBlankRun(Trim(c));
  }

  /** The cleaned Markdown has no white space at either end. */
  lemma CleanMarkdownTrimmed(markdown: string)
    ensures var r := CleanMarkdown(markdown); r == [] || (!IsSpace(r[0]) && !IsSpace(r[|r| - 1]))
  {
    var t := Trim(CollapseNewlines(markdown));
    assert t == [] || (!IsSpace(t[0]) && !IsSpace(t[|t| - 1]));
    assert forall c :: c in Escapable ==> !IsSpace(c);
  }

  /** Cleaning twice can change the result: `\\*` becomes `\*` and then `*`. */
  lemma CleanMarkdownNotIdempotent()
    ensures CleanMarkdown("\\\\*") == "\\*"
    ensures CleanMarkdown(CleanMarkdown("\\\\*")) == "*"
  {
    CollapseNewlinesKeeps("\\\\*");
    TrimOfTrimmed("\\\\*");
    CollapseNewlinesKeeps("\\*");
    TrimOfTrimmed("\\*");
    UnescapeNotIdempotent();
  }

  // ---------------------------------------------------------------- Turndown rules

  /** `value || ''` for an attribute that may be missing. */
  function OrEmpty(o: Option<string>): string {
    match o
    case Some(v) => v
    case None => ""
  }

  /** ` "title"` for a present, non-empty title. */
  function TitlePart(title: Option<string>): string {
    if title.Some? && title.value != "" then " \"" + title.value + "\"" else ""
  }

  /** The `images` rule on an image's `alt`, `src` and `title`. */
  function ImageMarkdown(alt: string, src: string, title: Option<string>): (r: string)
    ensures r == "" <==> src == ""
  {
    if src == "" then "" else "![" + alt + "](" + src + TitlePart(title) + ")"
  }

  /** The `images` rule on an `img` element's attributes. */
  function ImageRule(attrs: seq<Attr>): string {
    ImageMarkdown(OrEmpty(GetAttr(attrs, "alt")), OrEmpty(GetAttr(attrs, "src")), GetAttr(attrs, "title"))
  }

  /** Two strings that each continue with `c` after a prefix free of `c` split the same way. */
  lemma SplitAtFirst(a1: string, rest1: string, a2: string, rest2: string, c: char)
    requires c !in a1 && c !in a2 && rest1 != [] && rest2 != [] && rest1[0] == c && rest2[0] == c
    requires a1 + rest1 == a2 + rest2
    ensures a1 == a2 && rest1 == rest2
  {
    var s := a1 + rest1;
    assert s[|a1|] == c && s[|a2|] == c;
    assert forall k :: 0 <= k < |a1| ==> s[k] == a1[k];
    assert forall k :: 0 <= k < |a2| ==> s[k] == a2[k];
    assert |a1| == |a2|;
    assert a1 == s[..|a1|] && a2 == s[..|a2|];
  }

  /** What follows `![` in a non-empty image: the alternative text, then `](`, the target and
      `)`. */
  lemma ImageMarkdownParts(alt: string, src: string, title: Option<string>)
    requires src != ""
    ensures ImageMarkdown(alt, src, title)[..2] == "!["
    ensures ImageMarkdown(alt, src, title)[2..] == alt + ("](" + (src + TitlePart(title)) + ")")
  {
    var target := src + TitlePart(title);
    ConcatRegroup("![", alt, "](", src, TitlePart(title), ")");
    ConcatParts("![", alt + ("](" + target + ")"));
  }

  /** Regrouping the six pieces of an image link. */
  lemma ConcatRegroup(a: string, b: string, c: string, d: string, e: string, f: string)
    ensures a + b + c + d + e + f == a + (b + (c + (d + e) + f))
  {
  }

  /** The two halves of a concatenation. */
  lemma ConcatParts(a: string, b: string)
    ensures (a + b)[..|a|] == a && (a + b)[|a|..] == b
  {
  }

  /** A wrapped target determines the target. */
  lemma UnwrapTarget(t1: string, t2: string)
    requires "](" + t1 + ")" == "](" + t2 + ")"
    ensures t1 == t2
  {
    var w := "](" + t1 + ")";
    assert t1 == w[2..|w| - 1];
    assert t2 == ("](" + t2 + ")")[2..|w| - 1];
  }

  /** Reading an image back: for alternative texts without `]`, the Markdown determines the
      alternative text and the target. */
  lemma ImageMarkdownInjective(alt1: string, src1: string, title1: Option<string>,
                               alt2: string, src2: string, title2: Option<string>)
    requires ']' !in alt1 && ']' !in alt2 && src1 != "" && src2 != ""
    ensures ImageMarkdown(alt1, src1, title1) == ImageMarkdown(alt2, src2, title2) <==>
      alt1 == alt2 && src1 + TitlePart(title1) == src2 + TitlePart(title2)
  {
    ImageMarkdownParts(alt1, src1, title1);
    ImageMarkdownParts(alt2, src2, title2);
    var r1 := ImageMarkdown(alt1, src1, title1);
    var r2 := ImageMarkdown(alt2, src2, title2);
    assert r1 == r1[..2] + r1[2..] && r2 == r2[..2] + r2[2..];
    if r1 == r2 {
      var rest1 := "](" + (src1 + TitlePart(title1)) + ")";
      var rest2 := "](" + (src2 + TitlePart(title2)) + ")";
      SplitAtFirst(alt1, rest1, alt2, rest2, ']');
      UnwrapTarget(src1 + TitlePart(title1), src2 + TitlePart(title2));
    }
  }

  /** The `codeBlocks` filter: a `PRE` whose first child is a `CODE` element. */
  predicate IsCodeBlock(n: Node) {
    n.Element? && n.tag == "PRE" && |n.children| > 0 && n.children[0].Element? && n.children[0].tag == "CODE"
  }

  /** The number of characters `s` starts with that are not white space. */
  function LeadingNonSpace(s: string): (k: nat)
    ensures k <= |s|
    ensures NoSpace(s[..k])
    ensures k < |s| ==> IsSpace(s[k])
  {
    if s != [] && !IsSpace(s[0]) then
      var k := 1 + LeadingNonSpace(s[1..]);
      assert s[..k] == [s[0]] + s[1..][..k - 1];
      k
    else 0
  }

  /** `language-` followed by something other than white space starts at `i`. */
  predicate LanguageAt(className: string, i: int) {
    0 <= i && i + 9 < |className| && className[i..i + 9] == "language-" && !IsSpace(className[i + 9])
  }

  /** Where the first `language-` followed by something other than white space starts, searching
      from `i`. */
  function FirstLanguageAt(className: string, i: nat): (at: Option<nat>)
    ensures at.None? <==> forall j :: i <= j ==> !LanguageAt(className, j)
    ensures at.Some? ==> i <= at.value && LanguageAt(className, at.value)
    ensures at.Some? ==> forall j :: i <= j < at.value ==> !LanguageAt(className, j)
    decreases |className| - i
  {
    if i + 9 >= |className| then None
    else if LanguageAt(className, i) then Some(i)
    else FirstLanguageAt(className, i + 1)
  }

  /** `(className.match(/language-(\S+)/) || [null, ''])[1]`: the run without white space after
      the first `language-` that has one, or nothing. */
  function Language(className: string): (lang: string)
    ensures NoSpace(lang)
  {
    match FirstLanguageAt(className, 0)
    case None => ""
    case Some(j) =>
      var rest := className[j + 9..];
      rest[..LeadingNonSpace(rest)]
  }

  /** The language is empty exactly when no `language-` is followed by a character other than
      white space. */
  lemma LanguageEmpty(className: string)
    ensures Language(className) == "" <==> forall j :: 0 <= j ==> !LanguageAt(className, j)
  {
    match FirstLanguageAt(className, 0)
    case None =>
    case Some(j) =>
      var rest := className[j + 9..];
      assert rest[0] == className[j + 9];
      assert LeadingNonSpace(rest) >= 1;
  }

  /** `language-` and then all of `lang` start at `j`, and `lang` is not followed by anything
      other than white space. */
  predicate WholeRunAt(className: string, lang: string, j: int) {
    OccursAt(className, "language-" + lang, j)
    && (j + 9 + |lang| == |className| || IsSpace(className[j + 9 + |lang|]))
  }

  /** A non-empty language is the whole run without white space that follows a `language-`. */
  lemma LanguageFound(className: string)
    requires Language(className) != ""
    ensures exists j :: WholeRunAt(className, Language(className), j)
  {
    var lang := Language(className);
    var j := FirstLanguageAt(className, 0).value;
    var rest := className[j + 9..];
    var k := LeadingNonSpace(rest);
    assert lang == rest[..k] == className[j + 9..j + 9 + k];
    assert className[j..j + 9 + k] == className[j..j + 9] + lang;
    assert j + 9 + k < |className| ==> className[j + 9 + k] == rest[k];
    assert WholeRunAt(className, lang, j);
  }

  /** The `codeBlocks` replacement for a language and the code's text. */
  function CodeFence(language: string, code: string): string {
    "\n\n```" + language + "\n" + code + "\n```\n\n"
  }

  /** The `codeBlocks` rule: `None` when the filter does not take the node. */
  function CodeBlockRule(n: Node): Option<string> {
    if IsCodeBlock(n) then
      var code := n.children[0];
      Some(CodeFence(Language(OrEmpty(GetAttr(code.attrs, "class"))), TextContent(code)))
    else None
  }

  /** The code comes back from between the fence lines unchanged. */
  lemma CodeFenceRoundTrip(lang: string, code: string)
    ensures var f := CodeFence(lang, code); |f| == |lang| + |code| + 12 && f[|lang| + 6..|f| - 6] == code
  {
    var f := CodeFence(lang, code);
    var open := "\n\n```" + lang + "\n";
    assert f == open + code + "\n```\n\n";
    assert |open| == |lang| + 6;
  }

  /** The `tableCells` replacement. */
  function CellRule(content: string): string {
    content + " |"
  }

  /** The `tableRows` replacement on the cells' replacements, which Turndown concatenates (cells
      are block elements, so the white space between them is dropped). */
  function RowAsWritten(cells: seq<string>): string {
    "| " + ConcatMap(cells, CellRule) + " |\n"
  }

  /** The `tables` replacement. */
  function TableRule(content: string): string {
    "\n\n" + content + "\n\n"
  }

  /** The number of `|` characters in `s`. */
  function Pipes(s: string): nat {
    multiset(s)['|']
  }

  /** Each cell adds one pipe. */
  lemma {:induction false} CellPipes(cells: seq<string>, cell: string -> string)
    requires forall c :: Pipes(cell(c)) == Pipes(c) + 1
    requires forall k :: 0 <= k < |cells| ==> '|' !in cells[k]
    ensures Pipes(ConcatMap(cells, cell)) == |cells|
  {
    if cells != [] {
      var init := cells[..|cells| - 1];
      var last := cells[|cells| - 1];
      CellPipes(init, cell);
      assert multiset(ConcatMap(cells, cell)) == multiset(ConcatMap(init, cell)) + multiset(cell(last));
      assert multiset(last)['|'] == 0;
    }
  }

  /** As written, a row of `n` cells has `n + 2` pipes, that is `n + 1` columns: the last cell's
      closing pipe and the row's closing pipe make an extra empty column. */
  lemma RowAsWrittenPipes(cells: seq<string>)
    requires forall k :: 0 <= k < |cells| ==> '|' !in cells[k]
    ensures Pipes(RowAsWritten(cells)) == |cells| + 2
  {
    forall c: string
      ensures Pipes(CellRule(c)) == Pipes(c) + 1
    {
      assert multiset(CellRule(c)) == multiset(c) + multiset(" |");
    }
    CellPipes(cells, CellRule);
    var body := ConcatMap(cells, CellRule);
    assert multiset(RowAsWritten(cells)) == multiset("| ") + multiset(body) + multiset(" |\n");
  }

  /** The row of two cells `a` and `b`, as written. */
  lemma RowAsWrittenExample()
    ensures RowAsWritten(["a", "b"]) == "| a |b | |\n"
  {
    ConcatMapAppend(["a"], ["b"], CellRule);
    ConcatMapSingle("a", CellRule);
    ConcatMapSingle("b", CellRule);
    assert ["a"] + ["b"] == ["a", "b"];
  }

  /** A cell as a Markdown table needs it: a space, the content, a space and a closing pipe. */
  function CellIntended(content: string): string {
    " " + content + " |"
  }

  /** A row as a Markdown table needs it: an opening pipe, then the cells. */
  function RowIntended(cells: seq<string>): string {
    "|" + ConcatMap(cells, CellIntended) + "\n"
  }

  /** A row of `n` cells has `n + 1` pipes, so exactly `n` columns. */
  lemma RowIntendedPipes(cells: seq<string>)
    requires forall k :: 0 <= k < |cells| ==> '|' !in cells[k]
    ensures Pipes(RowIntended(cells)) == |cells| + 1
  {
    forall c: string
      ensures Pipes(CellIntended(c)) == Pipes(c) + 1
    {
      assert multiset(CellIntended(c)) == multiset(" ") + multiset(c) + multiset(" |");
    }
    CellPipes(cells, CellIntended);
    var body := ConcatMap(cells, CellIntended);
    assert multiset(RowIntended(cells)) == multiset("|") + multiset(body) + multiset("\n");
  }

  /** The same two cells, as intended. */
  lemma RowIntendedExample()
    ensures RowIntended(["a", "b"]) == "| a | b |\n"
  {
    ConcatMapAppend(["a"], ["b"], CellIntended);
    ConcatMapSingle("a", CellIntended);
    ConcatMapSingle("b", CellIntended);
    assert ["a"] + ["b"] == ["a", "b"];
  }

  // ---------------------------------------------------------------- cleanContent

  /** The kinds of node `cleanContent` removes. */
  datatype Kind = ScriptTag | StyleTag | CommentNode

  /** The node is of one of the kinds in `ks`. */
  predicate Hit(n: Node, ks: set<Kind>) {
    (n.Element? && ((n.tag == "SCRIPT" && ScriptTag in ks) || (n.tag == "STYLE" && StyleTag in ks)))
    || (n.Comment? && CommentNode in ks)
  }

  /** The nodes below a node once every node of a kind in `ks` is removed with its subtree. */
  function Strip(ns: seq<Node>, ks: set<Kind>): seq<Node> {
    if ns == [] then [] else StripOne(ns[0], ks) + Strip(ns[1..], ks)
  }

  /** What one node turns into. */
  function StripOne(n: Node, ks: set<Kind>): seq<Node> {
    if Hit(n, ks) then []
    else if n.Element? then [Element(n.tag, n.attrs, Strip(n.children, ks))]
    else [n]
  }

  /** No node of a kind in `ks` is left, at any depth. */
  predicate Free(ns: seq<Node>, ks: set<Kind>) {
    forall k :: 0 <= k < |ns| ==> !Hit(ns[k], ks) && (ns[k].Element? ==> Free(ns[k].children, ks))
  }

  lemma {:induction false} FreeAppend(a: seq<Node>, b: seq<Node>, ks: set<Kind>)
    requires Free(a, ks) && Free(b, ks)
    ensures Free(a + b, ks)
  {
    assert forall k :: 0 <= k < |a + b| ==> (a + b)[k] == if k < |a| then a[k] else b[k - |a|];
  }

  lemma {:induction false} StripAppend(a: seq<Node>, b: seq<Node>, ks: set<Kind>)
    ensures Strip(a + b, ks) == Strip(a, ks) + Strip(b, ks)
  {
    if a == [] {
      assert a + b == b;
    } else {
      assert (a + b)[1..] == a[1..] + b;
      StripAppend(a[1..], b, ks);
    }
  }

  /** After stripping, nothing of the removed kinds is left. */
  lemma {:induction false} StripFree(ns: seq<Node>, ks: set<Kind>)
    ensures Free(Strip(ns, ks), ks)
  {
    if ns != [] {
      StripOneFree(ns[0], ks);
      StripFree(ns[1..], ks);
      FreeAppend(StripOne(ns[0], ks), Strip(ns[1..], ks), ks);
    }
  }

  lemma {:induction false} StripOneFree(n: Node, ks: set<Kind>)
    ensures Free(StripOne(n, ks), ks)
  {
    if !Hit(n, ks) && n.Element? {
      StripFree(n.children, ks);
    }
  }

  /** Content without nodes of the removed kinds is left unchanged. */
  lemma {:induction false} StripOfFree(ns: seq<Node>, ks: set<Kind>)
    requires Free(ns, ks)
    ensures Strip(ns, ks) == ns
  {
    if ns != [] {
      var n := ns[0];
      if n.Element? {
        StripOfFree(n.children, ks);
      }
      assert Free(ns[1..], ks) by {
        assert forall k :: 0 <= k < |ns| - 1 ==> ns[1..][k] == ns[k + 1];
      }
      StripOfFree(ns[1..], ks);
      assert ns == [n] + ns[1..];
    }
  }

  /** Removing one kind after another removes both at once: the three removal passes of
      `cleanContent` make one clean-up. */
  lemma {:induction false} StripCompose(ns: seq<Node>, a: set<Kind>, b: set<Kind>)
    ensures Strip(Strip(ns, a), b) == Strip(ns, a + b)
  {
    if ns != [] {
      var n := ns[0];
      StripAppend(StripOne(n, a), Strip(ns[1..], a), b);
      StripCompose(ns[1..], a, b);
      if !Hit(n, a) && n.Element? {
        StripCompose(n.children, a, b);
        var m := Element(n.tag, n.attrs, Strip(n.children, a));
        assert Strip([m], b) == StripOne(m, b) + Strip([], b);
      } else if !Hit(n, a) {
        assert Strip([n], b) == StripOne(n, b) + Strip([], b);
      }
    }
  }

  /** Comments hold no text of their element, so removing them leaves the text unchanged. */
  lemma {:induction false} StripCommentsKeepsText(ns: seq<Node>)
    ensures ForestText(Strip(ns, {CommentNode})) == ForestText(ns)
  {
    if ns != [] {
      var n := ns[0];
      var ks := {CommentNode};
      StripCommentsKeepsText(ns[1..]);
      ForestTextAppend(StripOne(n, ks), Strip(ns[1..], ks));
      if n.Element? {
        StripCommentsKeepsText(n.children);
        assert ForestText([Element(n.tag, n.attrs, Strip(n.children, ks))]) == ForestText(Strip(n.children, ks)) by {
          assert [Element(n.tag, n.attrs, Strip(n.children, ks))][1..] == [];
        }
      } else if !n.Comment? {
        assert ForestText([n]) == TextContent(n) by {
          assert [n][1..] == [];
        }
      }
    }
  }

  /** One removal pass of `cleanContent` over the nodes below the cloned content, walking a
      snapshot of them as `querySelectorAll(...).forEach(... .remove())` does. */
  method RemoveAll(ns: seq<Node>, ks: set<Kind>) returns (kept: seq<Node>)
    ensures kept == Strip(ns, ks)
  {
    kept := [];
    var i := 0;
    while i < |ns|
      invariant 0 <= i <= |ns|
      invariant kept == Strip(ns[..i], ks)
    {
      var n := ns[i];
      assert ns[..i + 1] == ns[..i] + [n];
      StripAppend(ns[..i], [n], ks);
      assert Strip([n], ks) == StripOne(n, ks) + Strip([], ks);
      if !Hit(n, ks) {
        if n.Element? {
          var children := RemoveAll(n.children, ks);
          kept := kept + [Element(n.tag, n.attrs, children)];
        } else {
          kept := kept + [n];
        }
      }
      i := i + 1;
    }
    assert ns[..i] == ns;
  }

  /** The kinds `cleanContent` removes. */
  const Unwanted: set<Kind> := {ScriptTag, StyleTag, CommentNode}

  /** `cleanContent`: scripts, then styles, then comments are removed; the clone's root itself is
      never removed. */
  method CleanContent(ns: seq<Node>) returns (cleaned: seq<Node>)
    ensures cleaned == Strip(ns, Unwanted)
    ensures Free(cleaned, Unwanted)
  {
    var noScripts := RemoveAll(ns, {ScriptTag});
    var noStyles := RemoveAll(noScripts, {StyleTag});
    cleaned := RemoveAll(noStyles, {CommentNode});
    StripCompose(ns, {ScriptTag}, {StyleTag});
    StripCompose(ns, {ScriptTag} + {StyleTag}, {CommentNode});
    assert {ScriptTag} + {StyleTag} + {CommentNode} == Unwanted;
    StripFree(ns, Unwanted);
  }

  // ---------------------------------------------------------------- simpleTextExtraction

  /** The `textContent` of every `p` element below the nodes, in document order. */
  function ParagraphTexts(ns: seq<Node>): seq<string> {
    if ns == [] then []
    else
      var n := ns[0];
      (if n.Element? then (if n.tag == "P" then [TextContent(n)] else []) + ParagraphTexts(n.children) else [])
      + ParagraphTexts(ns[1..])
  }

  /** `querySelector('.reader-title')` on the content, then its `textContent`: the first element
      in document order whose `class` attribute is `reader-title`, the only class the reader gives
      its title heading. */
  function ReaderTitle(ns: seq<Node>): Option<string> {
    if ns == [] then None
    else
      var n := ns[0];
      if n.Element? && GetAttr(n.attrs, "class") == Some("reader-title") then Some(TextContent(n))
      else
        var inner := if n.Element? then ReaderTitle(n.children) else None;
        if inner.Some? then inner else ReaderTitle(ns[1..])
  }

  /** The heading line for the `.reader-title` element's text, if there is one. */
  function TitleLine(title: Option<string>): string {
    match title
    case Some(t) => "# " + Trim(t) + "\n\n"
    case None => ""
  }

  /** The fallback Markdown: the heading line, then every non-blank paragraph. */
  function SimpleMarkdown(title: Option<string>, paragraphs: seq<string>): string {
    TitleLine(title) + Paragraphs(paragraphs)
  }

  /** The fallback makes nothing exactly when there is no title and every paragraph is blank. */
  lemma SimpleMarkdownEmpty(title: Option<string>, paragraphs: seq<string>)
    ensures SimpleMarkdown(title, paragraphs) == "" <==>
      title.None? && forall i :: 0 <= i < |paragraphs| ==> Blank(paragraphs[i])
  {
    BlocksEmpty(paragraphs);
  }

  /** `simpleTextExtraction`. */
  method SimpleTextExtraction(title: Option<string>, paragraphs: seq<string>) returns (markdown: string)
    ensures markdown == SimpleMarkdown(title, paragraphs)
  {
    markdown := "";
    if title.Some? {
      markdown := markdown + "# " + Trim(title.value) + "\n\n";
    }
    ghost var head := markdown;
    assert head == TitleLine(title);
    ghost var body := "";
    var i := 0;
    while i < |paragraphs|
      invariant 0 <= i <= |paragraphs|
      invariant body == Paragraphs(paragraphs[..i])
      invariant markdown == head + body
    {
      var text := Trim(paragraphs[i]);
      ParagraphsExtend(paragraphs, i);
      if text != "" {
        markdown := markdown + (text + "\n\n");
        body := body + (text + "\n\n");
      }
      i := i + 1;
    }
    assert paragraphs[..i] == paragraphs;
  }

  // ---------------------------------------------------------------- copyMarkdown

  /** The toasts `copyMarkdown` shows; the error's own message is not shown. */
  const SuccessToast: string := "Markdown内容已复制到剪贴板！"
  const ErrorToast: string := "复制失败，请重试"

  /** The Markdown `copyMarkdown` copies: the cleaned content converted by Turndown when it is
      loaded, by the fallback on the title and paragraphs found in the cleaned content otherwise,
      then cleaned. */
  function ExportedMarkdown(content: seq<Node>, turndown: Option<seq<Node> -> string>): string {
    var cleaned := Strip(content, Unwanted);
    CleanMarkdown(match turndown
                  case Some(convert) => convert(cleaned)
                  case None => SimpleMarkdown(ReaderTitle(cleaned), ParagraphTexts(cleaned)))
  }

  /** The copy button; only its loading state is modelled. */
  class CopyButton {
    var loading: bool

    constructor()
      ensures !loading
    {
      loading := false;
    }
  }

  /** `MarkdownCopy`: `turndown` is the engine when the library was loaded. */
  class MarkdownCopy {
    var turndown: Option<seq<Node> -> string>

    constructor(engine: Option<seq<Node> -> string>)
      ensures turndown == engine
    {
      turndown := engine;
    }

    /** `copyMarkdown`: `content` is the `.reader-content` element's children when there is one,
        and `clipboardWorks` whether the clipboard write succeeds. Returns the copied text and the toast shown; the button's loading state is
        cleared on every path. */
    method CopyMarkdown(button: CopyButton, content: Option<seq<Node>>, clipboardWorks: bool)
      returns (copied: Option<string>, toast: string)
      modifies button
      ensures !button.loading
      ensures copied == if content.Some? && clipboardWorks then Some(ExportedMarkdown(content.value, turndown)) else None
      ensures toast == if copied.Some? then SuccessToast else ErrorToast
      ensures copied.Some? ==> NoBlankRun(copied.value)
    {
      button.loading := true;
      copied := None;
      toast := ErrorToast;
      if content.Some? {
        var cleaned := CleanContent(content.value);
        var markdown: string;
        if turndown.Some? {
          markdown := turndown.value(cleaned);
        } else {
          markdown := SimpleTextExtraction(ReaderTitle(cleaned), ParagraphTexts(cleaned));
        }
        markdown := CleanMarkdown(markdown);
        CleanMarkdownNoBlankRun(if turndown.Some? then turndown.value(cleaned) else SimpleMarkdown(ReaderTitle(cleaned), ParagraphTexts(cleaned)));
        if clipboardWorks {
          copied := Some(markdown);
          toast := SuccessToast;
        }
      }
      button.loading := false;
    }
  }
}
