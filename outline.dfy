/** The article outline and the reading-progress bar (scripts/outline-progress.js): which headings
    the outline lists and how they are indented, the ids given to headings without one, the choice
    of the heading being read, the single highlighted outline item, the collapse toggle, and the
    width of the progress bar.

    Geometry (heading positions, scroll offsets, heights) comes in as parameters; it is read from
    the layout in the source. Positions are reals: floating-point rounding is not modelled. */
module Outline {
  import opened Strings
  import opened Wrappers

  /** The level of a heading element: the digit of its tag `h1`–`h6`. */
  type Level = l: int | 1 <= l <= 6 witness 1

  /** A heading of the reader's content: its level, its `id` attribute (`""` when it has none) and
      its text. */
  datatype Heading = Heading(level: Level, id: string, text: string)

  /** An outline item `li.outline-item`: the level of its heading, `data-index`, the left padding
      in pixels, the link text, and whether it carries the `active` class. */
  datatype Item = Item(level: Level, index: nat, padding: int, text: string, active: bool)

  /** How many headings the outline leaves out at the front: the first one when it is an `h1`, which
      is taken for the article title. */
  function Dropped(headings: seq<Heading>): (d: nat)
    ensures d <= |headings| && d <= 1
  {
    if |headings| > 0 && headings[0].level == 1 then 1 else 0
  }

  /** The headings the outline lists, in document order. */
  function Listed(headings: seq<Heading>): seq<Heading> {
    headings[Dropped(headings)..]
  }

  /** The left padding of an item: 16 pixels per level below the first. */
  function Padding(level: Level): (p: int)
    ensures 0 <= p <= 80 && p % 16 == 0
  {
    (level - 1) * 16
  }

  /** The padding determines the level back. */
  lemma PaddingLevel(level: Level)
    ensures Padding(level) / 16 + 1 == level
  {
  }

  /** `item` is the outline entry generated for heading `h` at position `k` of the listed headings. */
  predicate Shows(item: Item, h: Heading, k: nat) {
    item.level == h.level && item.index == k && item.padding == Padding(h.level) && item.text == h.text
  }

  /** The outline lists the listed headings, one item each, in order. */
  predicate Describes(items: seq<Item>, headings: seq<Heading>) {
    |items| == |Listed(headings)|
    && forall k :: 0 <= k < |items| ==> Shows(items[k], Listed(headings)[k], k)
  }

  /** The outline of a non-empty article omits exactly one heading when, and only when, the first
      heading is an `h1`. */
  lemma OutlineOmitsTitle(items: seq<Item>, headings: seq<Heading>)
    requires Describes(items, headings) && headings != []
    ensures |items| == |headings| - 1 <==> headings[0].level == 1
    ensures headings[0].level != 1 ==> Shows(items[0], headings[0], 0)
  {
  }

  /** The id `generateOutline` gives the heading at position `k` of the listed headings: its own, or
      `heading-k` when it has none. */
  function IdFor(h: Heading, k: nat): string {
    if h.id == "" then "heading-" + Decimal(k) else h.id
  }

  /** The headings after `generateOutline` named the listed ones that had no id. */
  function WithIds(headings: seq<Heading>): (r: seq<Heading>)
    ensures |r| == |headings|
  {
    var d := Dropped(headings);
    seq(|headings|, j requires 0 <= j < |headings| =>
      if j < d then headings[j] else headings[j].(id := IdFor(headings[j], j - d)))
  }

  /** The headings after the loop of `generateOutline` has named the first `k` listed ones. */
  function PartlyNamed(headings: seq<Heading>, k: nat): (r: seq<Heading>)
    ensures |r| == |headings|
  {
    var d := Dropped(headings);
    seq(|headings|, j requires 0 <= j < |headings| =>
      if d <= j < d + k then headings[j].(id := IdFor(headings[j], j - d)) else headings[j])
  }

  /** Naming one more listed heading sets its id when it has none, and changes nothing
      otherwise; naming none changes nothing, and naming all is `WithIds`. */
  lemma PartlyNamedStep(headings: seq<Heading>, k: nat)
    requires k < |Listed(headings)|
    ensures var d, named := Dropped(headings), PartlyNamed(headings, k);
      PartlyNamed(headings, k + 1)
      == if headings[d + k].id == "" then named[d + k := named[d + k].(id := "heading-" + Decimal(k))] else named
  {
  }

  lemma PartlyNamedEnds(headings: seq<Heading>)
    ensures PartlyNamed(headings, 0) == headings
    ensures PartlyNamed(headings, |Listed(headings)|) == WithIds(headings)
  {
  }

  /** Naming changes ids only, so the outline of the named headings is the same; every listed
      heading then has an id, the title keeps its own, and the generated ids differ from each
      other. */
  lemma WithIdsProperties(headings: seq<Heading>)
    ensures Dropped(WithIds(headings)) == Dropped(headings)
    ensures forall items :: Describes(items, WithIds(headings)) <==> Describes(items, headings)
    ensures forall j :: Dropped(headings) <= j < |headings| ==> WithIds(headings)[j].id != ""
    ensures forall j :: 0 <= j < Dropped(headings) ==> WithIds(headings)[j] == headings[j]
    ensures forall i, j :: (Dropped(headings) <= i < j < |headings| && headings[i].id == "" && headings[j].id == ""
      ==> WithIds(headings)[i].id != WithIds(headings)[j].id)
  {
    var d := Dropped(headings);
    var w := WithIds(headings);
    forall i, j | d <= i < j < |headings| && headings[i].id == "" && headings[j].id == ""
      ensures w[i].id != w[j].id
    {
      GeneratedIdsDiffer(i - d, j - d);
    }
    WithIdsListed(headings);
    forall items
      ensures Describes(items, w) <==> Describes(items, headings)
    {
      WithIdsKeepsOutline(headings, items);
    }
  }

  /** Naming keeps which headings are listed, with their levels and texts. */
  lemma WithIdsListed(headings: seq<Heading>)
    ensures Dropped(WithIds(headings)) == Dropped(headings)
    ensures |Listed(WithIds(headings))| == |Listed(headings)|
    ensures forall k :: 0 <= k < |Listed(headings)| ==>
      Listed(WithIds(headings))[k].level == Listed(headings)[k].level
      && Listed(WithIds(headings))[k].text == Listed(headings)[k].text
  {
    var d := Dropped(headings);
    var w := WithIds(headings);
    if |headings| > 0 {
      assert w[0].level == headings[0].level;
    }
    assert Dropped(w) == d;
    var lw, lh := Listed(w), Listed(headings);
    assert forall k :: 0 <= k < |lh| ==> lw[k] == w[k + d] && lh[k] == headings[k + d];
  }

  /** The items describing the headings are the items describing the named headings. */
  lemma WithIdsKeepsOutline(headings: seq<Heading>, items: seq<Item>)
    ensures Describes(items, WithIds(headings)) <==> Describes(items, headings)
  {
    WithIdsListed(headings);
    var lw, lh := Listed(WithIds(headings)), Listed(headings);
    assert forall k :: 0 <= k < |items| && k < |lh| ==> (Shows(items[k], lw[k], k) <==> Shows(items[k], lh[k], k));
  }

  /** Generated ids of different positions differ. */
  lemma GeneratedIdsDiffer(m: nat, n: nat)
    requires m != n
    ensures "heading-" + Decimal(m) != "heading-" + Decimal(n)
  {
    var p := "heading-";
    if p + Decimal(m) == p + Decimal(n) {
      assert Decimal(m) == (p + Decimal(m))[|p|..];
      DecimalInjective(m, n);
    }
  }

  /** The outline position of the heading at `activeIndex`, or -1 when that index is out of range. */
  function OutlineIndex(headings: seq<Heading>, activeIndex: int): int {
    if 0 <= activeIndex < |headings| then activeIndex - Dropped(headings) else -1
  }

  /** The items with `active` exactly on position `target`. */
  function Highlighted(items: seq<Item>, target: int): (r: seq<Item>)
    ensures |r| == |items|
  {
    seq(|items|, k requires 0 <= k < |items| => items[k].(active := k == target))
  }

  /** After highlighting, at most one item is active; there is one exactly when the active heading
      is listed in the outline, and it is that heading's item. */
  lemma HighlightSingle(items: seq<Item>, headings: seq<Heading>, activeIndex: int)
    requires Describes(items, headings)
    ensures var r := Highlighted(items, OutlineIndex(headings, activeIndex));
      && (forall i, j :: 0 <= i < j < |r| ==> !(r[i].active && r[j].active))
      && ((exists k :: 0 <= k < |r| && r[k].active)
          <==> Dropped(headings) <= activeIndex < |headings|)
      && (Dropped(headings) <= activeIndex < |headings| ==>
            var t := activeIndex - Dropped(headings);
            r[t].active && Shows(r[t], headings[activeIndex], t))
  {
    var r := Highlighted(items, OutlineIndex(headings, activeIndex));
    var d := Dropped(headings);
    if d <= activeIndex < |headings| {
      var t := activeIndex - d;
      assert Listed(headings)[t] == headings[activeIndex];
      assert r[t].active;
    }
  }

  /** The threshold line of the scroll rule: a tenth of the container's height below its top. */
  function Threshold(scrollTop: real, containerHeight: real): real {
    scrollTop + containerHeight / 10.0
  }

  /** `Math.abs(a - b)`. */
  function Distance(a: real, b: real): (d: real)
    ensures d == if a >= b then a - b else b - a
  {
    if a - b < 0.0 then b - a else a - b
  }

  /** Heading `i` is at or above the threshold. */
  predicate Passed(tops: seq<real>, threshold: real, i: int) {
    0 <= i < |tops| && tops[i] <= threshold
  }

  /** Heading `i` is the one the scroll rule picks among the passed ones: none is closer to the
      threshold, and every earlier one is farther. */
  predicate Current(tops: seq<real>, threshold: real, i: int) {
    Passed(tops, threshold, i)
    && (forall j :: 0 <= j < |tops| && tops[j] <= threshold ==> tops[j] <= tops[i])
    && (forall j :: 0 <= j < i && tops[j] <= threshold ==> tops[j] < tops[i])
  }

  /** At most one heading is current. */
  lemma CurrentUnique(tops: seq<real>, threshold: real, i: int, j: int)
    requires Current(tops, threshold, i) && Current(tops, threshold, j)
    ensures i == j
  {
  }

  /** The heading the scroll rule selects: the current one, else the first heading, else none. */
  ghost function SelectedIndex(tops: seq<real>, threshold: real): int {
    if exists i :: Current(tops, threshold, i) then
      var i :| Current(tops, threshold, i); i
    else if tops == [] then -1 else 0
  }

  /** The loop of the scroll handler: the passed heading closest to the threshold, the first of
      equally close ones, or the first heading when none has passed. `-1` stands for `Infinity`'s
      companion: no heading seen yet. */
  method SelectHeading(tops: seq<real>, scrollTop: real, containerHeight: real) returns (index: int)
    ensures var threshold := Threshold(scrollTop, containerHeight);
      && ((exists i :: Passed(tops, threshold, i)) ==> Current(tops, threshold, index))
      && (!(exists i :: Passed(tops, threshold, i)) ==> index == if tops == [] then -1 else 0)
    ensures index == SelectedIndex(tops, Threshold(scrollTop, containerHeight))
  {
    var threshold := Threshold(scrollTop, containerHeight);
    index := -1;
    var closest := 0.0;
    var i := 0;
    while i < |tops|
      invariant 0 <= i <= |tops|
      invariant -1 <= index < i
      invariant index == -1 <==> forall j :: 0 <= j < i ==> tops[j] > threshold
      invariant index >= 0 ==> Passed(tops, threshold, index) && closest == threshold - tops[index]
      invariant index >= 0 ==> forall j :: 0 <= j < i && tops[j] <= threshold ==> tops[j] <= tops[index]
      invariant index >= 0 ==> forall j :: 0 <= j < index && tops[j] <= threshold ==> tops[j] < tops[index]
    {
      if tops[i] <= threshold {
        var distance := Distance(tops[i], threshold);
        assert distance == threshold - tops[i];
        if index == -1 || distance < closest {
          closest := distance;
          index := i;
        }
      }
      i := i + 1;
    }
    if index == -1 && |tops| > 0 {
      index := 0;
    }
    if Current(tops, threshold, index) {
      CurrentUnique(tops, threshold, index, SelectedIndex(tops, threshold));
    }
  }

  /** `ArticleOutline`: whether the outline container exists, the headings found by `init`, the
      outline items, whether the outline is visible and whether the container carries the
      `collapsed` class. */
  class ArticleOutline {
    var hasContainer: bool
    var headings: seq<Heading>
    var items: seq<Item>
    var isVisible: bool
    var hasOutline: bool
    var collapsed: bool

    /** A container exists only for an article with headings, and once generated it lists them;
        the `collapsed` class mirrors `isVisible`. The mirror holds for the methods of this class
        only: the toolbar's outline button flips `collapsed` on the container by itself
        (`scripts/content.js:733-744`), and that handler is not part of this model. */
    predicate Valid()
      reads this
    {
      && (hasContainer ==> hasOutline && Describes(items, headings))
      && (collapsed <==> !isVisible)
    }

    constructor()
      ensures !hasContainer && headings == [] && items == [] && isVisible && !hasOutline && Valid()
    {
      hasContainer := false;
      headings := [];
      items := [];
      isVisible := true;
      hasOutline := false;
      collapsed := false;
    }

    /** `init(readerContainer, contentContainer)`; `content` is `None` when either is missing, and
        otherwise the headings of the content in document order. */
    method Init(content: Option<seq<Heading>>)
      requires Valid() && !hasContainer
      modifies this
      ensures Valid()
      ensures content.None? ==> unchanged(this)
      ensures content.Some? && content.value == [] ==>
        headings == [] && !hasOutline && !hasContainer && items == old(items)
      ensures content.Some? && content.value != [] ==>
        && hasOutline && hasContainer && headings == WithIds(content.value)
        && Describes(items, content.value) && (forall k :: 0 <= k < |items| ==> !items[k].active)
      ensures isVisible == old(isVisible) && collapsed == old(collapsed)
    {
      if content.None? {
        return;
      }
      headings := content.value;
      if headings == [] {
        hasOutline := false;
        return;
      }
      hasOutline := true;
      hasContainer := true;
      items := [];
      GenerateOutline();
    }

    /** `generateOutline`: one item per listed heading, and an id for each listed heading without
        one. */
    method GenerateOutline()
      requires hasOutline
      modifies this
      ensures hasContainer ==> headings == WithIds(old(headings)) && Describes(items, old(headings))
                               && (forall k :: 0 <= k < |items| ==> !items[k].active)
      ensures !hasContainer ==> headings == old(headings) && items == old(items)
      ensures hasContainer == old(hasContainer) && hasOutline == old(hasOutline)
      ensures isVisible == old(isVisible) && collapsed == old(collapsed)
      ensures hasContainer ==> Describes(items, headings)
    {
      if !hasContainer {
        return;
      }
      var original := headings;
      var d := Dropped(original);
      var listed := original[d..];
      var named := original;
      var built := [];
      PartlyNamedEnds(original);
      var k := 0;
      while k < |listed|
        invariant k <= |listed| && listed == Listed(original)
        invariant |built| == k
        invariant forall j :: 0 <= j < k ==> Shows(built[j], listed[j], j) && !built[j].active
        invariant named == PartlyNamed(original, k)
        invariant unchanged(this)
      {
        var h := listed[k];
        PartlyNamedStep(original, k);
        built := built + [Item(h.level, k, Padding(h.level), h.text, false)];
        if h.id == "" {
          named := named[d + k := named[d + k].(id := "heading-" + Decimal(k))];
        }
        k := k + 1;
      }
      assert named == WithIds(original);
      assert Describes(built, original);
      WithIdsKeepsOutline(original, built);
      items := built;
      headings := named;
    }

    /** `updateOutlineHighlight(activeIndex)`: clears `active` on every item, then sets it on the
        item of the heading at `activeIndex` if the outline lists that heading. */
    method UpdateOutlineHighlight(activeIndex: int)
      modifies this
      ensures hasContainer && old(items) != [] ==> items == Highlighted(old(items), OutlineIndex(headings, activeIndex))
      ensures !(hasContainer && old(items) != []) ==> items == old(items)
      ensures hasContainer == old(hasContainer) && headings == old(headings) && hasOutline == old(hasOutline)
      ensures isVisible == old(isVisible) && collapsed == old(collapsed)
    {
      if !hasContainer || items == [] {
        return;
      }
      var original := items;
      var cleared := items;
      var k := 0;
      while k < |cleared|
        invariant k <= |cleared| == |original|
        invariant forall j :: 0 <= j < |cleared| ==> cleared[j] == if j < k then original[j].(active := false) else original[j]
      {
        cleared := cleared[k := cleared[k].(active := false)];
        k := k + 1;
      }
      if 0 <= activeIndex < |headings| {
        var target := if headings[0].level == 1 then activeIndex - 1 else activeIndex;
        if 0 <= target < |cleared| {
          cleared := cleared[target := cleared[target].(active := true)];
        }
      }
      items := cleared;
    }

    /** The scroll handler: picks the current heading and highlights it. `tops` are the headings'
        positions in the scrolled content. */
    method OnScroll(tops: seq<real>, scrollTop: real, containerHeight: real)
      requires Valid() && |tops| == |headings|
      modifies this
      ensures Valid()
      ensures hasContainer && old(items) != [] ==>
        items == Highlighted(old(items), OutlineIndex(headings, SelectedIndex(tops, Threshold(scrollTop, containerHeight))))
      ensures !(hasContainer && old(items) != []) ==> items == old(items)
      ensures hasContainer ==> forall i, j :: 0 <= i < j < |items| ==> !(items[i].active && items[j].active)
      ensures hasContainer == old(hasContainer) && headings == old(headings) && hasOutline == old(hasOutline)
      ensures isVisible == old(isVisible) && collapsed == old(collapsed)
    {
      var index := SelectHeading(tops, scrollTop, containerHeight);
      if hasContainer {
        HighlightSingle(items, headings, index);
      }
      UpdateOutlineHighlight(index);
    }

    /** `toggleOutline`: nothing without an outline (a toast aside) or a container; otherwise flips
        `isVisible` and sets `collapsed` to match. No script calls it: the toolbar toggles the
        class directly. */
    method ToggleOutline()
      requires Valid()
      modifies this
      ensures Valid()
      ensures isVisible == if old(hasOutline) && old(hasContainer) then !old(isVisible) else old(isVisible)
      ensures hasContainer == old(hasContainer) && headings == old(headings) && items == old(items)
      ensures hasOutline == old(hasOutline)
    {
      if !hasOutline {
        return;
      }
      if !hasContainer {
        return;
      }
      isVisible := !isVisible;
      if isVisible {
        collapsed := false;
      } else {
        collapsed := true;
      }
    }
  }

  /** `updateProgress`: the scrolled share of the scrollable height, as a percentage clamped to
      [0, 100]; 0 when nothing can be scrolled. */
  function ProgressWidth(scrollTop: real, contentHeight: real, containerHeight: real): (w: real)
    ensures 0.0 <= w <= 100.0
    ensures contentHeight - containerHeight <= 0.0 ==> w == 0.0
    ensures 0.0 <= scrollTop <= contentHeight - containerHeight ==>
      w * (contentHeight - containerHeight) == scrollTop * 100.0
  {
    var denominator := contentHeight - containerHeight;
    var percent := if denominator > 0.0 then scrollTop / denominator * 100.0 else 0.0;
    if percent < 0.0 then 0.0 else if percent > 100.0 then 100.0 else percent
  }

  /** Scrolling further never shrinks the bar. */
  lemma ProgressMonotonic(s1: real, s2: real, contentHeight: real, containerHeight: real)
    requires s1 <= s2
    ensures ProgressWidth(s1, contentHeight, containerHeight) <= ProgressWidth(s2, contentHeight, containerHeight)
  {
    var d := contentHeight - containerHeight;
    if d > 0.0 {
      QuotientMonotonic(s1, s2, d);
    }
  }

  /** Dividing by a positive number keeps the order. */
  lemma QuotientMonotonic(a: real, b: real, d: real)
    requires a <= b && d > 0.0
    ensures a / d <= b / d
  {
    var q := b / d - a / d;
    assert q * d == b - a;
    assert q < 0.0 ==> q * d < 0.0;
  }

  /** `ReadingProgress`: whether the bar exists, and its `display` and `width` styles. */
  class ReadingProgress {
    var hasBar: bool
    var displayed: bool
    var width: real

    constructor()
      ensures !hasBar && !displayed && width == 0.0
    {
      hasBar := false;
      displayed := false;
      width := 0.0;
    }

    /** `init(readerContainer)`: creates the bar when there is a reader container. */
    method Init(hasReader: bool)
      modifies this
      ensures hasBar == (old(hasBar) || hasReader)
      ensures displayed == old(displayed) && width == old(width)
    {
      if hasReader {
        hasBar := true;
      }
    }

    /** `updateProgress`: nothing without a bar; otherwise shows it at the progress width. */
    method UpdateProgress(scrollTop: real, contentHeight: real, containerHeight: real)
      modifies this
      ensures hasBar == old(hasBar)
      ensures hasBar ==> displayed && width == ProgressWidth(scrollTop, contentHeight, containerHeight)
      ensures !hasBar ==> displayed == old(displayed) && width == old(width)
    {
      if !hasBar {
        return;
      }
      displayed := true;
      width := ProgressWidth(scrollTop, contentHeight, containerHeight);
    }
  }
}
