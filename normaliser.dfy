/** The regular-expression chain the first `cleanContent` applies to a text node. The class declares
    a second method of the same name later, which replaces this one, so the chain never runs in the
    extension; it is modelled here on its own. */
module TextNormaliser {
  import opened Strings

  /** `[一-龥]`: the CJK unified ideographs the chain treats as Chinese. */
  predicate IsCjk(c: char) {
    '\U{4E00}' <= c <= '\U{9FA5}'
  }

  /** `[a-zA-Z0-9]`. */
  predicate IsAsciiAlnum(c: char) {
    ('a' <= c <= 'z') || ('A' <= c <= 'Z') || ('0' <= c <= '9')
  }

  /** The punctuation a space is put after: full-width comma, full stop, exclamation and question
      marks, semicolon, colon and closing brackets, and the ASCII double and single quote. */
  predicate IsClosingPunct(c: char) {
    c == '\U{FF0C}' || c == '\U{3002}' || c == '\U{FF01}' || c == '\U{FF1F}' || c == '\U{FF1B}'
    || c == '\U{FF1A}' || c == '"' || c == '\'' || c == '\U{FF09}' || c == '\U{3011}' || c == '\U{300B}'
  }

  /** The full-width opening brackets a space is put before. */
  predicate IsOpeningPunct(c: char) {
    c == '\U{FF08}' || c == '\U{3010}' || c == '\U{300A}'
  }

  /** The index of the CJK character that closes a gap opening at `s[0]`: `s[0]` is CJK, white
      space follows it, and a CJK character follows that. Zero when `s` opens no gap. */
  function GapEnd(s: string): (j: nat)
    ensures j == 0 || (2 <= j < |s| && IsCjk(s[0]) && IsCjk(s[j]) && Blank(s[1..j]))
  {
    if |s| >= 2 && IsCjk(s[0]) then
      var k := LeadingSpaces(s[1..]);
      if k > 0 && 1 + k < |s| && IsCjk(s[1 + k]) then
        LeadingSpacesRun(s[1..]);
        assert s[1..1 + k] == s[1..][..k];
        1 + k
      else 0
    else 0
  }

  /** No gap opens anywhere in `s`. */
  predicate GapFree(s: string) {
    s == [] || (GapEnd(s) == 0 && GapFree(s[1..]))
  }

  /** Dropping the blank run `s[1..j]` keeps every character that is not white space. */
  lemma SkipGap(s: string, j: nat)
    requires 1 <= j <= |s| && Blank(s[1..j])
    ensures NonSpace(s) == NonSpace([s[0]]) + NonSpace(s[j..])
  {
    SplitAt(s, j);
    NonSpaceAppend([s[0]], s[1..j] + s[j..]);
    NonSpaceAppend(s[1..j], s[j..]);
    NonSpaceOfBlank(s[1..j]);
  }

  lemma SplitAt(s: string, j: nat)
    requires 1 <= j <= |s|
    ensures s == [s[0]] + (s[1..j] + s[j..])
  {
    assert s == [s[0]] + s[1..];
    assert s[1..] == s[1..j] + s[j..];
  }

  lemma SplitHead(s: string)
    requires s != []
    ensures NonSpace(s) == NonSpace([s[0]]) + NonSpace(s[1..])
  {
    assert s == [s[0]] + s[1..];
    NonSpaceAppend([s[0]], s[1..]);
  }

  /** `s.replace(/([一-龥])\s+([一-龥])/g, '$1$2')` as written: a match consumes the
      CJK character that closes the gap, so the search resumes after it and a gap that opens at
      that same character is left alone. */
  function CollapseCjkGapsAsWritten(s: string): (r: string)
    ensures NonSpace(r) == NonSpace(s)
    decreases |s|
  {
    if s == [] then []
    else
      var j := GapEnd(s);
      if j > 0 then
        var rest := CollapseCjkGapsAsWritten(s[j + 1..]);
        SkipGap(s, j);
        SplitHead(s[j..]);
        assert s[j..][1..] == s[j + 1..];
        NonSpaceAppend([s[0]], [s[j]] + rest);
        NonSpaceAppend([s[j]], rest);
        [s[0]] + ([s[j]] + rest)
      else
        var rest := CollapseCjkGapsAsWritten(s[1..]);
        SplitHead(s);
        NonSpaceAppend([s[0]], rest);
        [s[0]] + rest
  }

  /** "中 文 字" keeps a space: the second gap opens at the character that closed the first. */
  lemma CollapseCjkGapsAsWrittenMissesGap()
    ensures CollapseCjkGapsAsWritten("中 文 字") == "中文 字"
    ensures !GapFree(CollapseCjkGapsAsWritten("中 文 字"))
  {
    var s := "中 文 字";
    assert LeadingSpaces(s[1..]) == 1;
    assert GapEnd(s) == 2;
    assert s[3..] == " 字";
    assert GapEnd(" 字") == 0;
    assert GapEnd("字") == 0;
    var r := CollapseCjkGapsAsWritten(s);
    assert r == "中文 字";
    assert r[1..] == "文 字";
    assert LeadingSpaces(r[1..][1..]) == 1;
    assert GapEnd(r[1..]) == 2;
  }

  /** The evident intent, "no white space between two Chinese characters": the search resumes at the
      character that closed the gap, so that character can open the next one. */
  function CollapseCjkGaps(s: string): (r: string)
    ensures r == [] <==> s == []
    ensures s != [] ==> r[0] == s[0]
    decreases |s|
  {
    if s == [] then []
    else
      var j := GapEnd(s);
      if j > 0 then [s[0]] + CollapseCjkGaps(s[j..])
      else [s[0]] + CollapseCjkGaps(s[1..])
  }

  /** The corrected step removes white space only. */
  lemma {:induction false} CollapseCjkGapsNonSpace(s: string)
    ensures NonSpace(CollapseCjkGaps(s)) == NonSpace(s)
    decreases |s|
  {
    if s != [] {
      var j := GapEnd(s);
      if j > 0 {
        CollapseCjkGapsNonSpace(s[j..]);
        SkipGap(s, j);
        NonSpaceAppend([s[0]], CollapseCjkGaps(s[j..]));
      } else {
        CollapseCjkGapsNonSpace(s[1..]);
        SplitHead(s);
        NonSpaceAppend([s[0]], CollapseCjkGaps(s[1..]));
      }
    }
  }

  /** No gap is left after the corrected step. */
  lemma {:induction false} CollapseCjkGapsGapFree(s: string)
    ensures GapFree(CollapseCjkGaps(s))
    decreases |s|
  {
    if s != [] {
      var j := GapEnd(s);
      if j > 0 {
        CollapseCjkGapsGapFree(s[j..]);
        ClosedGapStaysClosed(s);
      } else {
        CollapseCjkGapsGapFree(s[1..]);
        NoGapStaysOpenless(s);
      }
    }
  }

  /** After a collapsed gap the closing CJK character follows at once. */
  lemma ClosedGapStaysClosed(s: string)
    requires s != [] && GapEnd(s) > 0
    ensures GapEnd(CollapseCjkGaps(s)) == 0
    ensures CollapseCjkGaps(s)[1..] == CollapseCjkGaps(s[GapEnd(s)..])
  {
    var r := CollapseCjkGaps(s);
    assert r[1..] == CollapseCjkGaps(s[GapEnd(s)..]);
    assert LeadingSpaces(r[1..]) == 0;
  }

  /** Where no gap opens at the first character, none opens there after collapsing either. */
  lemma NoGapStaysOpenless(s: string)
    requires s != [] && GapEnd(s) == 0
    ensures GapEnd(CollapseCjkGaps(s)) == 0
    ensures CollapseCjkGaps(s)[1..] == CollapseCjkGaps(s[1..])
  {
    var r := CollapseCjkGaps(s);
    var rest := CollapseCjkGaps(s[1..]);
    assert r[1..] == rest;
    if |s| >= 2 && IsCjk(s[0]) {
      var t := s[1..];
      var k := LeadingSpaces(t);
      LeadingSpacesRun(t);
      CollapseKeepsLeadingRun(t);
      var tail := CollapseCjkGaps(t[k..]);
      LeadingSpacesOfPrefix(t[..k], tail);
      if k < |t| {
        assert rest[k] == t[k];
      }
    }
  }

  /** Collapsing keeps the white-space run a string starts with, and the character after it. */
  lemma CollapseKeepsLeadingRun(t: string)
    ensures CollapseCjkGaps(t) == t[..LeadingSpaces(t)] + CollapseCjkGaps(t[LeadingSpaces(t)..])
    ensures |CollapseCjkGaps(t)| == LeadingSpaces(t) + |CollapseCjkGaps(t[LeadingSpaces(t)..])|
    ensures LeadingSpaces(t) < |t| ==> CollapseCjkGaps(t)[LeadingSpaces(t)] == t[LeadingSpaces(t)]
  {
    var k := LeadingSpaces(t);
    LeadingSpacesRun(t);
    BlankPrefixSplit(t, k);
  }

  /** Splitting off a blank prefix of length `k`. */
  lemma BlankPrefixSplit(t: string, k: nat)
    requires k <= |t| && Blank(t[..k])
    ensures CollapseCjkGaps(t) == t[..k] + CollapseCjkGaps(t[k..])
    ensures |CollapseCjkGaps(t)| == k + |CollapseCjkGaps(t[k..])|
    ensures k < |t| ==> CollapseCjkGaps(t)[k] == t[k]
  {
    var pre, post := t[..k], t[k..];
    assert t == pre + post;
    CollapseKeepsBlankPrefix(pre, post);
    var r := CollapseCjkGaps(post);
    assert |pre| == k;
    if k < |t| {
      assert r[0] == post[0] == t[k];
      assert (pre + r)[k] == r[0];
    }
  }

  /** The gap step keeps leading white space as it is. */
  lemma {:induction false} CollapseKeepsBlankPrefix(a: string, b: string)
    requires Blank(a)
    ensures CollapseCjkGaps(a + b) == a + CollapseCjkGaps(b)
  {
    if a == [] {
      assert a + b == b;
    } else {
      CollapseKeepsBlankPrefix(a[1..], b);
      CollapseBlankStep(a, b);
      ConsTail(a, CollapseCjkGaps(b));
    }
  }

  lemma ConsTail(a: string, rest: string)
    requires a != []
    ensures [a[0]] + (a[1..] + rest) == a + rest
  {
    assert a == [a[0]] + a[1..];
  }

  /** A leading white-space character is copied and the scan moves on. */
  lemma CollapseBlankStep(a: string, b: string)
    requires a != [] && IsSpace(a[0])
    ensures CollapseCjkGaps(a + b) == [a[0]] + CollapseCjkGaps(a[1..] + b)
  {
    var t := a + b;
    assert t[0] == a[0];
    assert t[1..] == a[1..] + b;
    CollapseUnfold(t);
  }

  /** A string that opens no gap is collapsed past its first character. */
  lemma CollapseUnfold(t: string)
    requires t != [] && !IsCjk(t[0])
    ensures CollapseCjkGaps(t) == [t[0]] + CollapseCjkGaps(t[1..])
  {
  }

  /** A blank prefix followed by a string that does not start with white space is exactly the
      leading white space. */
  lemma {:induction false} LeadingSpacesOfPrefix(a: string, b: string)
    requires Blank(a) && (b == [] || !IsSpace(b[0]))
    ensures LeadingSpaces(a + b) == |a|
    ensures b != [] ==> (a + b)[|a|] == b[0]
  {
    if a != [] {
      assert (a + b)[1..] == a[1..] + b;
      LeadingSpacesOfPrefix(a[1..], b);
    } else {
      assert a + b == b;
    }
  }

  /** A string without gaps is its own collapse. */
  lemma {:induction false} CollapseCjkGapsFixpoint(s: string)
    requires GapFree(s)
    ensures CollapseCjkGaps(s) == s
    decreases |s|
  {
    if s != [] {
      CollapseCjkGapsFixpoint(s[1..]);
      assert s == [s[0]] + s[1..];
    }
  }

  /** Collapsing twice is collapsing once; the chain as written does not have this property. */
  lemma CollapseCjkGapsIdempotent(s: string)
    ensures CollapseCjkGaps(CollapseCjkGaps(s)) == CollapseCjkGaps(s)
  {
    CollapseCjkGapsGapFree(s);
    CollapseCjkGapsFixpoint(CollapseCjkGaps(s));
  }

  /** `s.replace(/(F)(S)/g, '$1 $2')` for one-character classes `F` and `S`: a match consumes both
      characters and the search resumes after them. */
  function SpaceBetween(s: string, first: char -> bool, second: char -> bool): (r: string)
    ensures NonSpace(r) == NonSpace(s)
    ensures r == [] <==> s == []
    ensures s != [] ==> r[0] == s[0]
    decreases |s|
  {
    if |s| < 2 then s
    else if first(s[0]) && second(s[1]) then
      var rest := SpaceBetween(s[2..], first, second);
      assert s == [s[0], s[1]] + s[2..];
      NonSpaceAppend([s[0], s[1]], s[2..]);
      NonSpaceAppend([s[0], ' ', s[1]], rest);
      NonSpaceAppend([s[0]], [' ', s[1]]);
      NonSpaceAppend([s[0]], [s[1]]);
      [s[0], ' ', s[1]] + rest
    else
      var rest := SpaceBetween(s[1..], first, second);
      SplitHead(s);
      NonSpaceAppend([s[0]], rest);
      [s[0]] + rest
  }

  /** The reference reading of that replacement: one space at every place where a character of `F`
      is directly followed by one of `S`. */
  function SpacedBoundaries(s: string, first: char -> bool, second: char -> bool): string
    decreases |s|
  {
    if |s| < 2 then s
    else [s[0]] + (if first(s[0]) && second(s[1]) then " " else "") + SpacedBoundaries(s[1..], first, second)
  }

  /** When no character is in both classes the scan misses no boundary: the replacement agrees with
      the reference reading. */
  lemma {:induction false} SpaceBetweenMissesNothing(s: string, first: char -> bool, second: char -> bool)
    requires forall c :: second(c) ==> !first(c)
    ensures SpaceBetween(s, first, second) == SpacedBoundaries(s, first, second)
    decreases |s|
  {
    if |s| >= 2 {
      if first(s[0]) && second(s[1]) {
        SpaceBetweenMissesNothing(s[2..], first, second);
        assert s[1..][1..] == s[2..];
      } else {
        SpaceBetweenMissesNothing(s[1..], first, second);
      }
    }
  }

  /** No character of class `P` is directly followed by one of class `Q`. */
  predicate NoAdjacent(s: string, p: char -> bool, q: char -> bool) {
    forall i :: 0 <= i < |s| - 1 ==> !(p(s[i]) && q(s[i + 1]))
  }

  lemma NoAdjacentConcat(a: string, b: string, p: char -> bool, q: char -> bool)
    requires NoAdjacent(a, p, q) && NoAdjacent(b, p, q)
    requires a != [] && b != [] ==> !(p(a[|a| - 1]) && q(b[0]))
    ensures NoAdjacent(a + b, p, q)
  {
    var s := a + b;
    forall i | 0 <= i < |s| - 1 ensures !(p(s[i]) && q(s[i + 1])) {
      if i + 1 < |a| {
        assert s[i] == a[i] && s[i + 1] == a[i + 1];
      } else if i >= |a| {
        assert s[i] == b[i - |a|] && s[i + 1] == b[i + 1 - |a|];
      }
    }
  }

  lemma NoAdjacentSuffix(s: string, n: nat, p: char -> bool, q: char -> bool)
    requires n <= |s| && NoAdjacent(s, p, q)
    ensures NoAdjacent(s[n..], p, q)
  {
    var t := s[n..];
    forall i | 0 <= i < |t| - 1 ensures !(p(t[i]) && q(t[i + 1])) {
      assert t[i] == s[n + i] && t[i + 1] == s[n + i + 1];
    }
  }

  /** After `SpaceBetween` no character of `F` is directly followed by one of `S`. */
  lemma {:induction false} SpaceBetweenSeparates(s: string, first: char -> bool, second: char -> bool)
    requires forall c :: second(c) ==> !first(c)
    requires !first(' ') && !second(' ')
    ensures NoAdjacent(SpaceBetween(s, first, second), first, second)
    decreases |s|
  {
    if |s| >= 2 {
      if first(s[0]) && second(s[1]) {
        var rest := SpaceBetween(s[2..], first, second);
        SpaceBetweenSeparates(s[2..], first, second);
        NoAdjacentConcat([s[0], ' ', s[1]], rest, first, second);
      } else {
        var rest := SpaceBetween(s[1..], first, second);
        SpaceBetweenSeparates(s[1..], first, second);
        NoAdjacentConcat([s[0]], rest, first, second);
      }
    }
  }

  /** `SpaceBetween` makes no two characters adjacent that were not: it only puts spaces between
      characters. */
  lemma {:induction false} SpaceBetweenKeeps(s: string, first: char -> bool, second: char -> bool,
                                             p: char -> bool, q: char -> bool)
    requires !p(' ') && !q(' ') && NoAdjacent(s, p, q)
    ensures NoAdjacent(SpaceBetween(s, first, second), p, q)
    decreases |s|
  {
    if |s| >= 2 {
      if first(s[0]) && second(s[1]) {
        var rest := SpaceBetween(s[2..], first, second);
        NoAdjacentSuffix(s, 2, p, q);
        SpaceBetweenKeeps(s[2..], first, second, p, q);
        NoAdjacentConcat([s[0], ' ', s[1]], rest, p, q);
        if rest != [] {
          assert rest[0] == s[2];
          assert !(p(s[1]) && q(s[2]));
        }
      } else {
        var rest := SpaceBetween(s[1..], first, second);
        NoAdjacentSuffix(s, 1, p, q);
        SpaceBetweenKeeps(s[1..], first, second, p, q);
        if rest != [] {
          assert rest[0] == s[1];
          assert !(p(s[0]) && q(s[1]));
        }
        NoAdjacentConcat([s[0]], rest, p, q);
      }
    }
  }

  /** `s.replace(/([，。！？；："'）】》])/g, '$1 ')`. */
  function SpaceAfterClosing(s: string): (r: string)
    ensures NonSpace(r) == NonSpace(s)
    ensures r == [] <==> s == []
    ensures s != [] ==> r[0] == s[0]
  {
    if s == [] then []
    else
      var head := if IsClosingPunct(s[0]) then [s[0], ' '] else [s[0]];
      var rest := SpaceAfterClosing(s[1..]);
      SplitHead(s);
      NonSpaceAppend(head, rest);
      NonSpaceAppend([s[0]], [' ']);
      head + rest
  }

  /** Every closing mark ends up followed by a space. */
  lemma {:induction false} SpaceAfterClosingSpaces(s: string)
    ensures forall i :: 0 <= i < |SpaceAfterClosing(s)| && IsClosingPunct(SpaceAfterClosing(s)[i]) ==>
      i + 1 < |SpaceAfterClosing(s)| && SpaceAfterClosing(s)[i + 1] == ' '
  {
    if s != [] {
      SpaceAfterClosingSpaces(s[1..]);
      var head := if IsClosingPunct(s[0]) then [s[0], ' '] else [s[0]];
      var rest := SpaceAfterClosing(s[1..]);
      var r := head + rest;
      assert r == SpaceAfterClosing(s);
      forall i | 0 <= i < |r| && IsClosingPunct(r[i]) ensures i + 1 < |r| && r[i + 1] == ' ' {
        if i >= |head| {
          assert r[i] == rest[i - |head|] && r[i + 1] == rest[i + 1 - |head|];
        }
      }
    }
  }

  /** Putting spaces after closing marks makes no two characters adjacent that were not, for
      classes that exclude white space and, on the left, closing marks. */
  lemma {:induction false} SpaceAfterClosingKeeps(s: string, p: char -> bool, q: char -> bool)
    requires !p(' ') && !q(' ') && forall c :: IsClosingPunct(c) ==> !p(c)
    requires NoAdjacent(s, p, q)
    ensures NoAdjacent(SpaceAfterClosing(s), p, q)
  {
    if s != [] {
      var head := if IsClosingPunct(s[0]) then [s[0], ' '] else [s[0]];
      var rest := SpaceAfterClosing(s[1..]);
      NoAdjacentSuffix(s, 1, p, q);
      SpaceAfterClosingKeeps(s[1..], p, q);
      if rest != [] {
        assert rest[0] == s[1];
        assert !(p(s[0]) && q(s[1]));
      }
      NoAdjacentConcat(head, rest, p, q);
    }
  }

  /** `s.replace(/([（【《])/g, ' $1')`. */
  function SpaceBeforeOpening(s: string): (r: string)
    ensures NonSpace(r) == NonSpace(s)
    ensures r == [] <==> s == []
    ensures s != [] ==> r[0] == s[0] || (r[0] == ' ' && IsOpeningPunct(s[0]))
  {
    if s == [] then []
    else
      var head := if IsOpeningPunct(s[0]) then [' ', s[0]] else [s[0]];
      var rest := SpaceBeforeOpening(s[1..]);
      SplitHead(s);
      NonSpaceAppend(head, rest);
      NonSpaceAppend([' '], [s[0]]);
      head + rest
  }

  /** Every opening bracket ends up preceded by a space. */
  lemma {:induction false} SpaceBeforeOpeningSpaces(s: string)
    ensures forall i :: 0 <= i < |SpaceBeforeOpening(s)| && IsOpeningPunct(SpaceBeforeOpening(s)[i]) ==>
      0 < i && SpaceBeforeOpening(s)[i - 1] == ' '
  {
    if s != [] {
      SpaceBeforeOpeningSpaces(s[1..]);
      var head := if IsOpeningPunct(s[0]) then [' ', s[0]] else [s[0]];
      var rest := SpaceBeforeOpening(s[1..]);
      var r := head + rest;
      assert r == SpaceBeforeOpening(s);
      forall i | 0 <= i < |r| && IsOpeningPunct(r[i]) ensures 0 < i && r[i - 1] == ' ' {
        if i > |head| {
          assert r[i] == rest[i - |head|] && r[i - 1] == rest[i - 1 - |head|];
        }
      }
    }
  }

  /** Putting spaces before opening brackets keeps the space after every closing mark, and makes no
      two characters adjacent that were not, for classes that exclude white space and, on the right,
      opening brackets. */
  lemma {:induction false} SpaceBeforeOpeningKeeps(s: string, p: char -> bool, q: char -> bool)
    requires forall i :: 0 <= i < |s| && IsClosingPunct(s[i]) ==> i + 1 < |s| && s[i + 1] == ' '
    requires !p(' ') && !q(' ') && forall c :: IsOpeningPunct(c) ==> !q(c)
    requires NoAdjacent(s, p, q)
    ensures forall i :: 0 <= i < |SpaceBeforeOpening(s)| && IsClosingPunct(SpaceBeforeOpening(s)[i]) ==>
      i + 1 < |SpaceBeforeOpening(s)| && SpaceBeforeOpening(s)[i + 1] == ' '
    ensures NoAdjacent(SpaceBeforeOpening(s), p, q)
  {
    if s != [] {
      var head := if IsOpeningPunct(s[0]) then [' ', s[0]] else [s[0]];
      var rest := SpaceBeforeOpening(s[1..]);
      var t := s[1..];
      assert forall i :: 0 <= i < |t| ==> t[i] == s[i + 1];
      NoAdjacentSuffix(s, 1, p, q);
      SpaceBeforeOpeningKeeps(t, p, q);
      var r := head + rest;
      assert r == SpaceBeforeOpening(s);
      forall i | 0 <= i < |r| && IsClosingPunct(r[i]) ensures i + 1 < |r| && r[i + 1] == ' ' {
        if i >= |head| {
          assert r[i] == rest[i - |head|] && r[i + 1] == rest[i + 1 - |head|];
        } else {
          assert s[1] == ' ';
          assert rest[0] == ' ';
        }
      }
      if rest != [] {
        assert !(p(s[0]) && q(s[1]));
      }
      NoAdjacentConcat(head, rest, p, q);
    }
  }

  /** The whole chain: trim, close gaps between Chinese characters, space Chinese off from Latin
      letters and digits in both directions, then space the punctuation. */
  function Normalise(s: string): string {
    var trimmed := Trim(s);
    var closed := CollapseCjkGapsAsWritten(trimmed);
    var cjkLatin := SpaceBetween(closed, IsCjk, IsAsciiAlnum);
    var latinCjk := SpaceBetween(cjkLatin, IsAsciiAlnum, IsCjk);
    SpaceBeforeOpening(SpaceAfterClosing(latinCjk))
  }

  /** The chain only adds and removes white space; afterwards no Chinese character touches a Latin
      letter or digit, every closing mark is followed by a space and every opening bracket is
      preceded by one. */
  lemma NormaliseSpacing(s: string)
    ensures NonSpace(Normalise(s)) == NonSpace(s)
    ensures NoAdjacent(Normalise(s), IsCjk, IsAsciiAlnum)
    ensures NoAdjacent(Normalise(s), IsAsciiAlnum, IsCjk)
    ensures forall i :: 0 <= i < |Normalise(s)| && IsClosingPunct(Normalise(s)[i]) ==>
      i + 1 < |Normalise(s)| && Normalise(s)[i + 1] == ' '
    ensures forall i :: 0 <= i < |Normalise(s)| && IsOpeningPunct(Normalise(s)[i]) ==>
      0 < i && Normalise(s)[i - 1] == ' '
  {
    TrimNonSpace(s);
    var closed := CollapseCjkGapsAsWritten(Trim(s));
    var cjkLatin := SpaceBetween(closed, IsCjk, IsAsciiAlnum);
    var latinCjk := SpaceBetween(cjkLatin, IsAsciiAlnum, IsCjk);
    var after := SpaceAfterClosing(latinCjk);
    SpaceBetweenSeparates(closed, IsCjk, IsAsciiAlnum);
    SpaceBetweenSeparates(cjkLatin, IsAsciiAlnum, IsCjk);
    SpaceBetweenKeeps(cjkLatin, IsAsciiAlnum, IsCjk, IsCjk, IsAsciiAlnum);
    SpaceAfterClosingKeeps(latinCjk, IsCjk, IsAsciiAlnum);
    SpaceAfterClosingKeeps(latinCjk, IsAsciiAlnum, IsCjk);
    SpaceAfterClosingSpaces(latinCjk);
    SpaceBeforeOpeningKeeps(after, IsCjk, IsAsciiAlnum);
    SpaceBeforeOpeningKeeps(after, IsAsciiAlnum, IsCjk);
    SpaceBeforeOpeningSpaces(after);
  }

  /** Two spaces between a Chinese word and a Latin one stay: only the ends are trimmed, and
      neither step that spaces scripts apart sees a Chinese character next to a Latin letter. */
  lemma NormaliseKeepsMixedGap()
    ensures Normalise("\U{3000}你好  world\U{3000}") == "你好  world"
  {
    var t := "你好  world";
    TrimMixedExample();
    MixedExampleClasses();
    CollapseMixedExample();
    SpaceBetweenUnchanged(t, IsCjk, IsAsciiAlnum);
    SpaceBetweenUnchanged(t, IsAsciiAlnum, IsCjk);
    SpaceAfterClosingUnchanged(t);
    SpaceBeforeOpeningUnchanged(t);
  }

  lemma MixedExampleClasses()
    ensures forall i :: 2 <= i < |"你好  world"| ==> !IsCjk("你好  world"[i])
    ensures forall i :: 0 <= i < 3 ==> !IsAsciiAlnum("你好  world"[i])
    ensures forall i :: 0 <= i < |"你好  world"| ==> !IsClosingPunct("你好  world"[i]) && !IsOpeningPunct("你好  world"[i])
    ensures NoAdjacent("你好  world", IsCjk, IsAsciiAlnum)
    ensures NoAdjacent("你好  world", IsAsciiAlnum, IsCjk)
  {
  }

  lemma TrimMixedExample()
    ensures Trim("\U{3000}你好  world\U{3000}") == "你好  world"
  {
    var s := "\U{3000}你好  world\U{3000}";
    assert LeadingSpaces(s[1..]) == 0;
    assert LeadingSpaces(s) == 1;
    var u := "你好  world\U{3000}";
    assert s[1..] == u;
    assert TrailingSpaces(u[..|u| - 1]) == 0;
    assert TrailingSpaces(u) == 1;
  }

  lemma CollapseMixedExample()
    ensures CollapseCjkGapsAsWritten("你好  world") == "你好  world"
  {
    var t := "你好  world";
    MixedExampleClasses();
    GapFreeWordThenLatin(t);
    CollapseCjkGapsAsWrittenFixpoint(t);
  }

  /** The gap replacement as written leaves text without a gap unchanged. */
  lemma {:induction false} CollapseCjkGapsAsWrittenFixpoint(s: string)
    requires GapFree(s)
    ensures CollapseCjkGapsAsWritten(s) == s
    decreases |s|
  {
    if s != [] {
      CollapseCjkGapsAsWrittenFixpoint(s[1..]);
      assert s == [s[0]] + s[1..];
    }
  }

  /** Text whose second character is not white space and that has no Chinese character from the
      third on opens no gap. */
  lemma GapFreeWordThenLatin(t: string)
    requires |t| >= 2 && !IsSpace(t[1])
    requires forall i :: 2 <= i < |t| ==> !IsCjk(t[i])
    ensures GapFree(t)
  {
    assert LeadingSpaces(t[1..]) == 0;
    var u := t[1..];
    assert forall i :: 1 <= i < |u| ==> !IsCjk(u[i]) by {
      assert forall i :: 1 <= i < |u| ==> u[i] == t[i + 1];
    }
    assert GapEnd(u) == 0;
    assert u[1..] == t[2..];
    GapFreeOfNoCjk(t[2..]);
  }

  /** A string without Chinese characters opens no gap. */
  lemma {:induction false} GapFreeOfNoCjk(s: string)
    requires forall i :: 0 <= i < |s| ==> !IsCjk(s[i])
    ensures GapFree(s)
  {
    if s != [] {
      GapFreeOfNoCjk(s[1..]);
    }
  }

  /** `SpaceBetween` changes nothing where no character of `F` is followed by one of `S`. */
  lemma {:induction false} SpaceBetweenUnchanged(s: string, first: char -> bool, second: char -> bool)
    requires NoAdjacent(s, first, second)
    ensures SpaceBetween(s, first, second) == s
    decreases |s|
  {
    if |s| >= 2 {
      NoAdjacentSuffix(s, 1, first, second);
      SpaceBetweenUnchanged(s[1..], first, second);
      assert s == [s[0]] + s[1..];
    }
  }

  lemma {:induction false} SpaceAfterClosingUnchanged(s: string)
    requires forall i :: 0 <= i < |s| ==> !IsClosingPunct(s[i])
    ensures SpaceAfterClosing(s) == s
  {
    if s != [] {
      SpaceAfterClosingUnchanged(s[1..]);
      assert s == [s[0]] + s[1..];
    }
  }

  lemma {:induction false} SpaceBeforeOpeningUnchanged(s: string)
    requires forall i :: 0 <= i < |s| ==> !IsOpeningPunct(s[i])
    ensures SpaceBeforeOpening(s) == s
  {
    if s != [] {
      SpaceBeforeOpeningUnchanged(s[1..]);
      assert s == [s[0]] + s[1..];
    }
  }

  /** The ASCII apostrophe counts as a closing mark, so an English contraction is split. */
  lemma NormaliseSplitsApostrophe()
    ensures Normalise("it's") != "it's"
  {
    ClosingMarkGetsSpace("it's", 2);
  }

  /** Text with a closing mark not followed by a space is always changed. */
  lemma ClosingMarkGetsSpace(s: string, i: nat)
    requires i + 1 < |s| && IsClosingPunct(s[i]) && s[i + 1] != ' '
    ensures Normalise(s) != s
  {
    NormaliseSpacing(s);
  }
}
