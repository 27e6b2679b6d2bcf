/** The text-selection bubble (scripts/text-selection.js): recognising a selection that looks like
    a link, completing it to a URL, placing the bubble inside the viewport, its visibility and the
    selected text it keeps, and the single instance the reader creates and removes.

    The selection, its bounding rectangle, the mouse position and the viewport width are
    parameters; opening a tab, the clipboard and the search message are not modelled beyond the
    value they would be given. */
module TextSelection {
  import opened Strings
  import opened Wrappers

  // ---------------------------------------------------------------- link recognition

  /** `\w` without the `u` flag. */
  predicate IsWordChar(c: char) {
    ('A' <= c <= 'Z') || ('a' <= c <= 'z') || ('0' <= c <= '9') || c == '_'
  }

  /** `(\.[^\s]+){1,}` matches all of `c`: one or more groups, each a dot and at least one
      character that is not white space. */
  ghost predicate DotGroups(c: string)
    decreases |c|
  {
    |c| >= 2 && c[0] == '.'
    && exists k :: 2 <= k <= |c| && NoSpace(c[1..k]) && (k == |c| || DotGroups(c[k..]))
  }

  /** The language of `/^\w+[^\s]+(\.[^\s]+){1,}$/`: some split of the text into a run of word
      characters, a non-empty run without white space, and the dot groups. */
  ghost predicate LinkRegex(t: string) {
    exists i, j :: 1 <= i < j <= |t|
      && (forall k :: 0 <= k < i ==> IsWordChar(t[k]))
      && NoSpace(t[i..j])
      && DotGroups(t[j..])
  }

  /** The same language in plain terms: no white space, a word character first, and a dot that is
      neither among the first two characters nor the last one. */
  predicate LooksLikeLink(t: string) {
    |t| >= 1 && NoSpace(t) && IsWordChar(t[0])
    && exists i :: 2 <= i < |t| - 1 && t[i] == '.'
  }

  /** Dot groups hold no white space and start with a dot followed by at least one character. */
  lemma {:induction false} DotGroupsNoSpace(c: string)
    requires DotGroups(c)
    ensures NoSpace(c) && |c| >= 2 && c[0] == '.'
    decreases |c|
  {
    var k :| 2 <= k <= |c| && NoSpace(c[1..k]) && (k == |c| || DotGroups(c[k..]));
    if k < |c| {
      DotGroupsNoSpace(c[k..]);
      assert forall i :: k <= i < |c| ==> c[i] == c[k..][i - k];
    }
    assert forall i :: 1 <= i < k ==> c[i] == c[1..k][i - 1];
  }

  /** A single dot group: a dot and a non-empty run without white space. */
  lemma SingleDotGroup(c: string)
    requires |c| >= 2 && c[0] == '.' && NoSpace(c[1..])
    ensures DotGroups(c)
  {
    assert c[1..|c|] == c[1..];
  }

  /** The regular expression accepts exactly the texts that look like links. */
  lemma LinkRegexCharacterisation(t: string)
    ensures LinkRegex(t) <==> LooksLikeLink(t)
  {
    if LinkRegex(t) {
      var i, j :| 1 <= i < j <= |t|
        && (forall k :: 0 <= k < i ==> IsWordChar(t[k]))
        && NoSpace(t[i..j])
        && DotGroups(t[j..]);
      DotGroupsNoSpace(t[j..]);
      assert t[j] == t[j..][0] == '.';
      assert forall k :: 0 <= k < |t| ==> !IsSpace(t[k]) by {
        forall k | 0 <= k < |t|
          ensures !IsSpace(t[k])
        {
          if k < i {
            assert IsWordChar(t[k]);
          } else if k < j {
            assert t[k] == t[i..j][k - i];
          } else {
            assert t[k] == t[j..][k - j];
          }
        }
      }
      assert 2 <= j < |t| - 1;
    }
    if LooksLikeLink(t) {
      var d :| 2 <= d < |t| - 1 && t[d] == '.';
      assert NoSpace(t[1..d]) by {
        assert forall k :: 0 <= k < d - 1 ==> t[1..d][k] == t[k + 1];
      }
      assert NoSpace(t[d..][1..]) by {
        assert forall k :: 0 <= k < |t| - d - 1 ==> t[d..][1..][k] == t[d + 1 + k];
      }
      SingleDotGroup(t[d..]);
      assert 1 <= 1 < d <= |t| && (forall k :: 0 <= k < 1 ==> IsWordChar(t[k]));
    }
  }

  /** `isTextLink(text)`. */
  function IsTextLink(t: string): (r: bool)
    ensures r <==> LinkRegex(t)
  {
    LinkRegexCharacterisation(t);
    |t| >= 1 && (forall i | 0 <= i < |t| :: !IsSpace(t[i])) && IsWordChar(t[0])
    && exists i | 2 <= i < |t| - 1 :: t[i] == '.'
  }

  /** ASCII letters lowered, as the `i` flag compares them; other characters unchanged. */
  function LowerAscii(s: string): (r: string)
    ensures |r| == |s|
  {
    if s == [] then [] else
      var c := s[0];
      [if 'A' <= c <= 'Z' then (c as int + 32) as char else c] + LowerAscii(s[1..])
  }

  /** Text without upper-case ASCII letters is its own lowering. */
  lemma {:induction false} LowerAsciiKeepsLower(s: string)
    requires forall i :: 0 <= i < |s| ==> !('A' <= s[i] <= 'Z')
    ensures LowerAscii(s) == s
  {
    if s != [] {
      assert forall i :: 0 <= i < |s| - 1 ==> s[1..][i] == s[i + 1];
      LowerAsciiKeepsLower(s[1..]);
      assert s == [s[0]] + s[1..];
    }
  }

  /** `/^https?:\/\//i`. */
  predicate HasHttpScheme(url: string) {
    (|url| >= 7 && LowerAscii(url[..7]) == "http://")
    || (|url| >= 8 && LowerAscii(url[..8]) == "https://")
  }

  /** The URL `handleOpenLink` opens for a selected text. */
  function LinkUrl(t: string): (url: string)
    ensures HasHttpScheme(url)
    ensures url == t || url == "https://" + t
  {
    if HasHttpScheme(t) then t
    else
      assert ("https://" + t)[..8] == "https://";
      LowerAsciiKeepsLower("https://");
      "https://" + t
  }

  /** Completing a URL twice is completing it once; a text with a scheme, in any case, is kept. */
  lemma LinkUrlIdempotent(t: string)
    ensures LinkUrl(LinkUrl(t)) == LinkUrl(t)
    ensures HasHttpScheme(t) <==> LinkUrl(t) == t
  {
    assert HasHttpScheme(LinkUrl(t));
  }

  /** `handleOpenLink`: nothing unless the selection is non-empty and was recognised as a link. */
  function OpenLink(selectedText: string, isLink: bool): (r: Option<string>)
    ensures r.Some? <==> selectedText != "" && isLink
    ensures r.Some? ==> r.value == LinkUrl(selectedText)
  {
    if selectedText == "" || !isLink then None else Some(LinkUrl(selectedText))
  }

  // ---------------------------------------------------------------- placement

  /** The bubble's size and its distances to the viewport edge and to the selection. */
  const BubbleWidth: real := 90.0
  const BubbleHeight: real := 40.0
  const Spacing: real := 10.0

  /** `getBoundingClientRect()` of the selection. */
  datatype Rect = Rect(left: real, top: real, width: real, height: real, bottom: real)

  /** Where the bubble belongs for the horizontal centre `x`, the top `above` and the bottom `below`
      of what it points at: centred when that fits between the 10-pixel margins, otherwise against
      the margin it would cross (the right one when the viewport is too narrow for both); above
      when that leaves at least 10 pixels, else below. */
  predicate Placed(left: real, top: real, x: real, above: real, below: real, innerWidth: real) {
    var centred := x - BubbleWidth / 2.0;
    var rightmost := innerWidth - BubbleWidth - 10.0;
    && (innerWidth < BubbleWidth + 20.0 ==> left == rightmost)
    && (innerWidth >= BubbleWidth + 20.0 && centred < 10.0 ==> left == 10.0)
    && (centred > rightmost ==> left == rightmost)
    && (10.0 <= centred <= rightmost ==> left == centred)
    && (above - BubbleHeight - Spacing >= 10.0 ==> top == above - BubbleHeight - Spacing)
    && (above - BubbleHeight - Spacing < 10.0 ==> top == below + Spacing)
  }

  /** The rule leaves no choice: one position satisfies it. */
  lemma PlacedUnique(l1: real, t1: real, l2: real, t2: real, x: real, above: real, below: real, innerWidth: real)
    requires Placed(l1, t1, x, above, below, innerWidth) && Placed(l2, t2, x, above, below, innerWidth)
    ensures l1 == l2 && t1 == t2
  {
  }

  /** A placed bubble never passes the right margin, and keeps the left one when the viewport is
      wide enough. */
  lemma PlacedWithinMargins(left: real, top: real, x: real, above: real, below: real, innerWidth: real)
    requires Placed(left, top, x, above, below, innerWidth)
    ensures left <= innerWidth - BubbleWidth - 10.0
    ensures innerWidth >= BubbleWidth + 20.0 ==> 10.0 <= left <= innerWidth - BubbleWidth - 10.0
  {
  }

  /** The placement shared by `showBubble` and `showBubbleAtMousePosition`: centred on `x`, above
      `above` when there is room and below `below` otherwise, pushed inside the viewport's
      horizontal margins with the right margin winning on a narrow viewport. */
  method Place(x: real, above: real, below: real, innerWidth: real) returns (left: real, top: real)
    ensures left <= innerWidth - BubbleWidth - 10.0
    ensures left >= 10.0 || left == innerWidth - BubbleWidth - 10.0
    ensures innerWidth >= BubbleWidth + 20.0 ==> 10.0 <= left
    ensures 10.0 <= x - BubbleWidth / 2.0 <= innerWidth - BubbleWidth - 10.0 ==> left == x - BubbleWidth / 2.0
    ensures above - BubbleHeight - Spacing >= 10.0 ==> top == above - BubbleHeight - Spacing
    ensures above - BubbleHeight - Spacing < 10.0 ==> top == below + Spacing
    ensures Placed(left, top, x, above, below, innerWidth)
  {
    left := x - BubbleWidth / 2.0;
    top := above - BubbleHeight - Spacing;
    if left < 10.0 {
      left := 10.0;
    }
    if left + BubbleWidth > innerWidth - 10.0 {
      left := innerWidth - BubbleWidth - 10.0;
    }
    if top < 10.0 {
      top := below + Spacing;
    }
  }

  /** `e.clientX || window.innerWidth / 2` and its vertical twin: a zero coordinate is falsy. */
  function OrCentre(v: real, extent: real): real {
    if v == 0.0 then extent / 2.0 else v
  }

  /** A rectangle `handleTextSelection` places the bubble on: one was found and it is not empty. */
  predicate Usable(rect: Option<Rect>) {
    rect.Some? && rect.value.width > 0.0 && rect.value.height > 0.0
  }

  // ---------------------------------------------------------------- the bubble

  /** `TextSelectionBubble`: whether the bubble is visible, the selected text it keeps, whether
      that text was recognised as a link, whether the open-link button shows, and the bubble's
      position. */
  class TextSelectionBubble {
    var isVisible: bool
    var selectedText: string
    var isLink: bool
    var openLinkShown: bool
    var left: real
    var top: real

    constructor()
      ensures !isVisible && selectedText == "" && !isLink && !openLinkShown
    {
      isVisible := false;
      selectedText := "";
      isLink := false;
      openLinkShown := false;
      left := 0.0;
      top := 0.0;
    }

    /** `hideBubble`. */
    method HideBubble()
      modifies this
      ensures !isVisible
      ensures selectedText == old(selectedText) && isLink == old(isLink) && openLinkShown == old(openLinkShown)
      ensures left == old(left) && top == old(top)
    {
      isVisible := false;
    }

    /** `showBubble(rect)`. */
    method ShowBubble(rect: Rect, innerWidth: real)
      modifies this
      ensures isVisible
      ensures Placed(left, top, rect.left + rect.width / 2.0, rect.top, rect.bottom, innerWidth)
      ensures innerWidth >= BubbleWidth + 20.0 ==> 10.0 <= left <= innerWidth - BubbleWidth - 10.0
      ensures rect.top - BubbleHeight - Spacing >= 10.0 ==> top == rect.top - BubbleHeight - Spacing
      ensures rect.top - BubbleHeight - Spacing < 10.0 ==> top == rect.bottom + Spacing
      ensures selectedText == old(selectedText) && isLink == old(isLink) && openLinkShown == old(openLinkShown)
    {
      left, top := Place(rect.left + rect.width / 2.0, rect.top, rect.bottom, innerWidth);
      isVisible := true;
    }

    /** `showBubbleAtMousePosition(e)`: nothing without a selected text. */
    method ShowBubbleAtMousePosition(clientX: real, clientY: real, innerWidth: real, innerHeight: real)
      modifies this
      ensures isVisible == (old(isVisible) || selectedText != "")
      ensures selectedText != "" ==>
        var y := OrCentre(clientY, innerHeight);
        Placed(left, top, OrCentre(clientX, innerWidth), y, y, innerWidth)
      ensures selectedText != "" && innerWidth >= BubbleWidth + 20.0 ==> 10.0 <= left <= innerWidth - BubbleWidth - 10.0
      ensures selectedText == "" ==> left == old(left) && top == old(top)
      ensures selectedText == old(selectedText) && isLink == old(isLink) && openLinkShown == old(openLinkShown)
    {
      if selectedText == "" {
        return;
      }
      var y := OrCentre(clientY, innerHeight);
      left, top := Place(OrCentre(clientX, innerWidth), y, y, innerWidth);
      isVisible := true;
    }

    /** `handleSelectionChange`: a non-blank selection is kept trimmed; a blank one hides the
        bubble. */
    method HandleSelectionChange(selection: string)
      modifies this
      ensures Trim(selection) != "" ==> selectedText == Trim(selection) && isVisible == old(isVisible)
      ensures Trim(selection) == "" ==> selectedText == old(selectedText) && !isVisible
      ensures isLink == old(isLink) && openLinkShown == old(openLinkShown)
      ensures left == old(left) && top == old(top)
    {
      var text := Trim(selection);
      if |text| > 0 {
        selectedText := text;
      } else if isVisible {
        HideBubble();
      }
    }

    /** The delayed part of `handleTextSelection`: `selection` is `None` when there is no
        selection object, and `rect` is `None` when no usable rectangle was found (no range, an
        empty rectangle or an exception), in which case the mouse position is used. */
    method HandleTextSelection(selection: Option<string>, rect: Option<Rect>,
                               clientX: real, clientY: real, innerWidth: real, innerHeight: real)
      modifies this
      ensures selection.None? ==> isVisible == old(isVisible) && selectedText == old(selectedText)
                                  && isLink == old(isLink) && openLinkShown == old(openLinkShown)
                                  && left == old(left) && top == old(top)
      ensures selection.Some? && Trim(selection.value) == "" ==>
        !isVisible && selectedText == old(selectedText) && isLink == old(isLink)
        && openLinkShown == old(openLinkShown) && left == old(left) && top == old(top)
      ensures selection.Some? && Trim(selection.value) != "" ==>
        && isVisible && selectedText == Trim(selection.value)
        && isLink == LinkRegex(Trim(selection.value)) && openLinkShown == isLink
        && (innerWidth >= BubbleWidth + 20.0 ==> 10.0 <= left <= innerWidth - BubbleWidth - 10.0)
      ensures selection.Some? && Trim(selection.value) != "" && Usable(rect) ==>
        Placed(left, top, rect.value.left + rect.value.width / 2.0, rect.value.top, rect.value.bottom, innerWidth)
      ensures selection.Some? && Trim(selection.value) != "" && !Usable(rect) ==>
        var y := OrCentre(clientY, innerHeight);
        Placed(left, top, OrCentre(clientX, innerWidth), y, y, innerWidth)
    {
      if selection.None? {
        return;
      }
      var text := Trim(selection.value);
      if text == "" {
        if isVisible {
          HideBubble();
        }
        return;
      }
      selectedText := text;
      isLink := IsTextLink(text);
      openLinkShown := isLink;
      if Usable(rect) {
        ShowBubble(rect.value, innerWidth);
      } else {
        ShowBubbleAtMousePosition(clientX, clientY, innerWidth, innerHeight);
      }
    }

    /** `handleOpenLink`: returns the URL it opens, and hides the bubble when it opens one. */
    method HandleOpenLink() returns (link: Option<string>)
      modifies this
      ensures link == OpenLink(old(selectedText), old(isLink))
      ensures isVisible == (old(isVisible) && link.None?)
      ensures selectedText == old(selectedText) && isLink == old(isLink)
      ensures openLinkShown == old(openLinkShown) && left == old(left) && top == old(top)
    {
      if selectedText == "" || !isLink {
        return None;
      }
      var url := selectedText;
      if !HasHttpScheme(url) {
        url := "https://" + url;
      }
      link := Some(url);
      HideBubble();
    }

    /** `handleSearch`: returns the text sent for searching, and hides the bubble after sending. */
    method HandleSearch() returns (sent: Option<string>)
      modifies this
      ensures sent == if old(selectedText) == "" then None else Some(old(selectedText))
      ensures isVisible == (old(isVisible) && old(selectedText) == "")
      ensures selectedText == old(selectedText) && isLink == old(isLink)
      ensures openLinkShown == old(openLinkShown) && left == old(left) && top == old(top)
    {
      if selectedText == "" {
        return None;
      }
      sent := Some(selectedText);
      HideBubble();
    }

    /** The `mousedown` outside the bubble and the `Escape` key handlers. */
    method Dismiss()
      modifies this
      ensures !isVisible && selectedText == old(selectedText) && isLink == old(isLink)
      ensures openLinkShown == old(openLinkShown) && left == old(left) && top == old(top)
    {
      if isVisible {
        HideBubble();
      }
    }
  }

  /** `window.textSelectionBubble` with `initTextSelectionBubble` and `removeTextSelectionBubble`. */
  class BubbleSlot {
    var instance: TextSelectionBubble?

    constructor()
      ensures instance == null
    {
      instance := null;
    }

    /** `initTextSelectionBubble`: creates the bubble only when there is none. */
    method InitTextSelectionBubble()
      modifies this
      ensures instance != null
      ensures old(instance) != null ==> instance == old(instance)
      ensures old(instance) == null ==> fresh(instance) && !instance.isVisible && instance.selectedText == ""
    {
      if instance == null {
        instance := new TextSelectionBubble();
      }
    }

    /** `removeTextSelectionBubble`: hides a visible bubble and drops the instance. */
    method RemoveTextSelectionBubble()
      modifies this, instance
      ensures instance == null
      ensures old(instance) != null ==> !old(instance).isVisible
    {
      if instance != null {
        if instance.isVisible {
          instance.HideBubble();
        }
        instance := null;
      }
    }
  }
}
