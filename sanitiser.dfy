/** The clean-up `createReaderMode` runs on the extracted article before showing it: `cleanElement`
    strips attributes and removes empty elements, then links around images are made to open in a
    new tab. The article is parsed into a detached `div` first. */
module Sanitiser {
  import opened Strings
  import opened Wrappers
  import opened Dom

  /** The only attributes `cleanElement` keeps. */
  const AllowedAttrs: set<string> := {"src", "href", "alt", "target", "rel"}

  /** The removal test of `cleanElement`: a non-media element whose text is blank and that has no
      media element below it. */
  predicate Removable(n: Node) {
    n.Element? && n.tag !in MediaTags && Blank(TextContent(n)) && !HasTagIn(n.children, MediaTags)
  }

  /** The attributes left after every attribute outside `AllowedAttrs` is removed. */
  function KeepAllowed(attrs: seq<Attr>): (r: seq<Attr>)
    ensures forall k :: 0 <= k < |r| ==> r[k].name in AllowedAttrs && r[k] in attrs
    ensures forall k :: 0 <= k < |attrs| && attrs[k].name in AllowedAttrs ==> attrs[k] in r
  {
    if attrs == [] then []
    else if attrs[0].name in AllowedAttrs then [attrs[0]] + KeepAllowed(attrs[1..])
    else KeepAllowed(attrs[1..])
  }

  /** `cleanElement` on every element child of a node, in order; text and comment children are not
      visited and stay. */
  function CleanChildren(cs: seq<Node>): seq<Node> {
    if cs == [] then [] else CleanChild(cs[0]) + CleanChildren(cs[1..])
  }

  /** What one child turns into: nothing when it is removed. */
  function CleanChild(c: Node): seq<Node> {
    if !c.Element? then [c]
    else if Removable(c) then []
    else [Element(c.tag, KeepAllowed(c.attrs), CleanChildren(c.children))]
  }

  /** `cleanElement` on the detached container. Removing a node without a parent does nothing, so
      a container that is itself removable comes back untouched, attributes below it included. */
  function CleanRoot(root: Node): (r: Node)
    ensures Removable(root) ==> r == root
    ensures root.Element? && !Removable(root) ==>
      r.Element? && r.tag == root.tag && AllAllowed([r]) && NoneRemovable([r])
  {
    if root.Element? && !Removable(root) then
      var r := Element(root.tag, KeepAllowed(root.attrs), CleanChildren(root.children));
      CleanChildrenResult(root.children);
      CleanChildrenText(root.children);
      CleanChildrenMedia(root.children);
      NonSpaceOfBlank(TextContent(root));
      NonSpaceOfBlank(TextContent(r));
      assert ForestText(r.children) == ForestText([r]) by {
        assert [r][1..] == [];
      }
      assert HasTagIn([r], MediaTags) == (r.tag in MediaTags || HasTagIn(r.children, MediaTags)) by {
        assert [r][1..] == [];
      }
      r
    else root
  }

  /** Every element in `ns`, at any depth, carries only allowed attributes. */
  predicate AllAllowed(ns: seq<Node>) {
    forall k :: 0 <= k < |ns| ==> ns[k].Element? ==>
      (forall j :: 0 <= j < |ns[k].attrs| ==> ns[k].attrs[j].name in AllowedAttrs)
      && AllAllowed(ns[k].children)
  }

  /** No element in `ns`, at any depth, passes the removal test. */
  predicate NoneRemovable(ns: seq<Node>) {
    forall k :: 0 <= k < |ns| ==> ns[k].Element? ==> !Removable(ns[k]) && NoneRemovable(ns[k].children)
  }

  lemma {:induction false} CleanChildrenAppend(a: seq<Node>, b: seq<Node>)
    ensures CleanChildren(a + b) == CleanChildren(a) + CleanChildren(b)
  {
    if a == [] {
      assert a + b == b;
    } else {
      assert (a + b)[1..] == a[1..] + b;
      CleanChildrenAppend(a[1..], b);
    }
  }

  /** Cleaning removes only white space from the text. */
  lemma {:induction false} CleanChildrenText(cs: seq<Node>)
    ensures NonSpace(ForestText(CleanChildren(cs))) == NonSpace(ForestText(cs))
  {
    if cs != [] {
      var c := cs[0];
      CleanChildText(c);
      CleanChildrenText(cs[1..]);
      assert cs == [c] + cs[1..];
      ForestTextAppend([c], cs[1..]);
      ForestTextAppend(CleanChild(c), CleanChildren(cs[1..]));
      NonSpaceAppend(ForestText([c]), ForestText(cs[1..]));
      NonSpaceAppend(ForestText(CleanChild(c)), ForestText(CleanChildren(cs[1..])));
    }
  }

  lemma {:induction false} CleanChildText(c: Node)
    ensures NonSpace(ForestText(CleanChild(c))) == NonSpace(ForestText([c]))
  {
    assert [c][1..] == [];
    if c.Element? {
      if Removable(c) {
        NonSpaceOfBlank(ForestText([c]));
      } else {
        var r := CleanChild(c)[0];
        assert CleanChild(c) == [r] && [r][1..] == [];
        assert ForestText([r]) == ForestText(r.children);
        assert ForestText([c]) == ForestText(c.children);
        CleanChildrenText(c.children);
      }
    }
  }

  /** Cleaning removes no media element: a removed element has none below it. */
  lemma {:induction false} CleanChildrenMedia(cs: seq<Node>)
    ensures HasTagIn(CleanChildren(cs), MediaTags) == HasTagIn(cs, MediaTags)
  {
    if cs != [] {
      var c := cs[0];
      CleanChildMedia(c);
      CleanChildrenMedia(cs[1..]);
      assert cs == [c] + cs[1..];
      HasTagInAppend([c], cs[1..], MediaTags);
      HasTagInAppend(CleanChild(c), CleanChildren(cs[1..]), MediaTags);
    }
  }

  lemma {:induction false} CleanChildMedia(c: Node)
    ensures HasTagIn(CleanChild(c), MediaTags) == HasTagIn([c], MediaTags)
  {
    assert [c][1..] == [];
    if c.Element? && !Removable(c) {
      assert CleanChild(c)[1..] == [];
      CleanChildrenMedia(c.children);
    }
  }

  /** After cleaning, every element carries only allowed attributes and none is removable. */
  lemma {:induction false} CleanChildrenResult(cs: seq<Node>)
    ensures AllAllowed(CleanChildren(cs)) && NoneRemovable(CleanChildren(cs))
  {
    if cs != [] {
      CleanChildResult(cs[0]);
      CleanChildrenResult(cs[1..]);
      var r := CleanChildren(cs);
      assert r == CleanChild(cs[0]) + CleanChildren(cs[1..]);
      forall k | 0 <= k < |r| && r[k].Element?
        ensures (forall j :: 0 <= j < |r[k].attrs| ==> r[k].attrs[j].name in AllowedAttrs)
          && AllAllowed(r[k].children) && !Removable(r[k]) && NoneRemovable(r[k].children)
      {
        if k < |CleanChild(cs[0])| {
          assert r[k] == CleanChild(cs[0])[k];
        } else {
          assert r[k] == CleanChildren(cs[1..])[k - |CleanChild(cs[0])|];
        }
      }
    }
  }

  lemma {:induction false} CleanChildResult(c: Node)
    ensures AllAllowed(CleanChild(c)) && NoneRemovable(CleanChild(c))
  {
    if c.Element? && !Removable(c) {
      var r := CleanChild(c)[0];
      CleanChildrenResult(c.children);
      CleanChildrenText(c.children);
      CleanChildrenMedia(c.children);
      if c.tag !in MediaTags && !HasTagIn(c.children, MediaTags) {
        NonSpaceOfBlank(TextContent(c));
        NonSpaceOfBlank(TextContent(r));
      }
    }
  }

  /** Cleaning leaves a tree alone exactly when it is already clean: the result is a fixpoint. */
  lemma {:induction false} CleanChildrenFixpoint(cs: seq<Node>)
    ensures CleanChildren(cs) == cs <==> AllAllowed(cs) && NoneRemovable(cs)
  {
    if AllAllowed(cs) && NoneRemovable(cs) {
      CleanChildrenOfClean(cs);
    } else {
      CleanChildrenResult(cs);
    }
  }

  lemma {:induction false} CleanChildrenOfClean(cs: seq<Node>)
    requires AllAllowed(cs) && NoneRemovable(cs)
    ensures CleanChildren(cs) == cs
    decreases cs
  {
    if cs != [] {
      var c := cs[0];
      assert AllAllowed(cs[1..]) && NoneRemovable(cs[1..]) by {
        forall k | 0 <= k < |cs[1..]| ensures cs[1..][k] == cs[k + 1] { }
      }
      CleanChildrenOfClean(cs[1..]);
      if c.Element? {
        CleanChildrenOfClean(c.children);
        KeepAllowedOfAllowed(c.attrs);
      }
      assert cs == [c] + cs[1..];
    }
  }

  lemma {:induction false} KeepAllowedOfAllowed(attrs: seq<Attr>)
    requires forall j :: 0 <= j < |attrs| ==> attrs[j].name in AllowedAttrs
    ensures KeepAllowed(attrs) == attrs
  {
    if attrs != [] {
      KeepAllowedOfAllowed(attrs[1..]);
      assert attrs == [attrs[0]] + attrs[1..];
    }
  }

  /** Cleaning twice is cleaning once. */
  lemma CleanChildrenIdempotent(cs: seq<Node>)
    ensures CleanChildren(CleanChildren(cs)) == CleanChildren(cs)
  {
    CleanChildrenResult(cs);
    CleanChildrenOfClean(CleanChildren(cs));
  }

  /** `cleanElement` on the element children of a node, walking a snapshot of them the way
      `Array.from(element.children).forEach(...)` does: removed children are skipped, kept ones lose
      their disallowed attributes and are cleaned in turn. */
  method CleanForest(cs: seq<Node>) returns (kept: seq<Node>)
    ensures kept == CleanChildren(cs)
  {
    var snapshot := cs;
    kept := [];
    var i := 0;
    while i < |snapshot|
      invariant 0 <= i <= |snapshot|
      invariant kept == CleanChildren(snapshot[..i])
    {
      var child := snapshot[i];
      assert snapshot[..i + 1] == snapshot[..i] + [child];
      CleanChildrenAppend(snapshot[..i], [child]);
      assert CleanChildren([child]) == CleanChild(child);
      if !child.Element? {
        kept := kept + [child];
      } else if !Removable(child) {
        var attrs := StripAttributes(child.attrs);
        var grandchildren := CleanForest(child.children);
        kept := kept + [Element(child.tag, attrs, grandchildren)];
      }
      i := i + 1;
    }
    assert snapshot[..i] == cs;
  }

  /** The attribute loop of `cleanElement`: every attribute outside `AllowedAttrs` is removed. */
  method StripAttributes(attrs: seq<Attr>) returns (r: seq<Attr>)
    ensures r == KeepAllowed(attrs)
  {
    r := [];
    var i := 0;
    while i < |attrs|
      invariant 0 <= i <= |attrs|
      invariant r == KeepAllowed(attrs[..i])
    {
      KeepAllowedAppend(attrs[..i], [attrs[i]]);
      assert attrs[..i + 1] == attrs[..i] + [attrs[i]];
      if attrs[i].name in AllowedAttrs {
        r := r + [attrs[i]];
      }
      i := i + 1;
    }
    assert attrs[..i] == attrs;
  }

  lemma {:induction false} KeepAllowedAppend(a: seq<Attr>, b: seq<Attr>)
    ensures KeepAllowed(a + b) == KeepAllowed(a) + KeepAllowed(b)
  {
    if a == [] {
      assert a + b == b;
    } else {
      assert (a + b)[1..] == a[1..] + b;
      KeepAllowedAppend(a[1..], b);
    }
  }

  /** The attributes a link wrapping an image gets: `target="_blank"`, then
      `rel="noopener noreferrer"`. */
  function MarkLink(attrs: seq<Attr>): (r: seq<Attr>)
    ensures GetAttr(r, "target") == Some("_blank") && GetAttr(r, "rel") == Some("noopener noreferrer")
    ensures forall other :: other != "target" && other != "rel" ==> GetAttr(r, other) == GetAttr(attrs, other)
    ensures forall k :: 0 <= k < |r| ==> r[k].name in {"target", "rel"} || r[k] in attrs
  {
    var withTarget := SetAttr(attrs, "target", "_blank");
    var r := SetAttr(withTarget, "rel", "noopener noreferrer");
    assert forall k :: 0 <= k < |r| ==> r[k].name == "rel" || r[k] in withTarget;
    r
  }

  /** An `A` element with an `href` and an `IMG` below it: the links `createReaderMode` marks
      (`link.href` is non-empty exactly when the attribute is present). */
  predicate WrapsImage(n: Node) {
    n.Element? && n.tag == "A" && HasTagIn(n.children, {"IMG"}) && GetAttr(n.attrs, "href").Some?
  }

  /** The anchor pass over the container's descendants, in document order. */
  function RewriteLinks(ns: seq<Node>): (r: seq<Node>)
    ensures |r| == |ns|
  {
    if ns == [] then [] else [RewriteLink(ns[0])] + RewriteLinks(ns[1..])
  }

  function RewriteLink(n: Node): Node {
    match n
    case Element(tag, attrs, cs) =>
      Element(tag, if WrapsImage(n) then MarkLink(attrs) else attrs, RewriteLinks(cs))
    case _ => n
  }

  /** Every link in `ns` that wraps an image opens in a new tab without an opener. */
  predicate LinksMarked(ns: seq<Node>) {
    forall k :: 0 <= k < |ns| ==> ns[k].Element? ==>
      (WrapsImage(ns[k]) ==>
        GetAttr(ns[k].attrs, "target") == Some("_blank")
        && GetAttr(ns[k].attrs, "rel") == Some("noopener noreferrer"))
      && LinksMarked(ns[k].children)
  }

  /** The anchor pass changes only the `target` and `rel` attributes of the links it marks: the
      tree, its text and every other attribute stay as they were. */
  lemma {:induction false} RewriteKeepsTree(ns: seq<Node>, tags: set<string>)
    ensures ForestText(RewriteLinks(ns)) == ForestText(ns)
    ensures HasTagIn(RewriteLinks(ns), tags) == HasTagIn(ns, tags)
  {
    if ns != [] {
      RewriteKeepsTree(ns[1..], tags);
      if ns[0].Element? {
        RewriteKeepsTree(ns[0].children, tags);
      }
    }
  }

  lemma {:induction false} RewriteMarksLinks(ns: seq<Node>)
    ensures LinksMarked(RewriteLinks(ns))
  {
    if ns != [] {
      RewriteMarksLinks(ns[1..]);
      var n := ns[0];
      if n.Element? {
        RewriteMarksLinks(n.children);
        RewriteKeepsTree(n.children, {"IMG"});
      }
      var r := RewriteLinks(ns);
      forall k | 0 <= k < |r| && r[k].Element?
        ensures (WrapsImage(r[k]) ==>
            GetAttr(r[k].attrs, "target") == Some("_blank")
            && GetAttr(r[k].attrs, "rel") == Some("noopener noreferrer"))
          && LinksMarked(r[k].children)
      {
        if k > 0 {
          assert r[k] == RewriteLinks(ns[1..])[k - 1];
        } else {
          assert r[0] == RewriteLink(n);
          assert WrapsImage(r[0]) ==> WrapsImage(n);
        }
      }
    }
  }

  /** The anchor pass keeps a clean tree clean: it only adds attributes that are allowed. */
  lemma {:induction false} RewriteKeepsClean(ns: seq<Node>)
    requires AllAllowed(ns) && NoneRemovable(ns)
    ensures AllAllowed(RewriteLinks(ns)) && NoneRemovable(RewriteLinks(ns))
  {
    if ns != [] {
      assert AllAllowed(ns[1..]) && NoneRemovable(ns[1..]) by {
        forall k | 0 <= k < |ns[1..]| ensures ns[1..][k] == ns[k + 1] { }
      }
      RewriteKeepsClean(ns[1..]);
      var n := ns[0];
      if n.Element? {
        RewriteKeepsClean(n.children);
        RewriteKeepsTree(n.children, MediaTags);
        assert TextContent(RewriteLink(n)) == TextContent(n);
      }
      var r := RewriteLinks(ns);
      forall k | 0 <= k < |r| && r[k].Element?
        ensures (forall j :: 0 <= j < |r[k].attrs| ==> r[k].attrs[j].name in AllowedAttrs)
          && AllAllowed(r[k].children) && !Removable(r[k]) && NoneRemovable(r[k].children)
      {
        if k > 0 {
          assert r[k] == RewriteLinks(ns[1..])[k - 1];
        }
      }
    }
  }

  /** The container `createReaderMode` reads the article back from: the parsed content in a `div`,
      cleaned, then with the links around images marked. */
  function Sanitise(content: seq<Node>): Node {
    var root := CleanRoot(Element("DIV", [], content));
    Element(root.tag, root.attrs, RewriteLinks(root.children))
  }

  /** What the reader shows: all the text but white space, every media element, image links that
      open in a new tab and, unless the article was blank to begin with, only allowed attributes
      and no empty element. */
  lemma SanitiseResult(content: seq<Node>)
    ensures Sanitise(content).tag == "DIV"
    ensures NonSpace(ForestText(Sanitise(content).children)) == NonSpace(ForestText(content))
    ensures HasTagIn(Sanitise(content).children, MediaTags) == HasTagIn(content, MediaTags)
    ensures LinksMarked(Sanitise(content).children)
    ensures !Removable(Element("DIV", [], content)) ==>
      AllAllowed(Sanitise(content).children) && NoneRemovable(Sanitise(content).children)
    ensures Removable(Element("DIV", [], content)) ==> Sanitise(content).children == RewriteLinks(content)
  {
    var root := CleanRoot(Element("DIV", [], content));
    RewriteKeepsTree(root.children, MediaTags);
    RewriteMarksLinks(root.children);
    if !Removable(Element("DIV", [], content)) {
      CleanChildrenResult(content);
      CleanChildrenText(content);
      CleanChildrenMedia(content);
      RewriteKeepsClean(root.children);
    }
  }
}
