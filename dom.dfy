/** A document tree as the content scripts see it through the DOM API. */
module Dom {
  import opened Strings
  import opened Wrappers

  /** An attribute; HTML parsing lower-cases its name. */
  datatype Attr = Attr(name: string, value: string)

  /** A node; `tag` is the upper-case `tagName` of an HTML element. */
  datatype Node =
    | Text(data: string)
    | Comment(data: string)
    | Element(tag: string, attrs: seq<Attr>, children: seq<Node>)

  /** `node.textContent` of an element or text node: the text of every text node inside, in document
      order. A comment contributes nothing to the text of the element holding it. */
  function TextContent(n: Node): string {
    match n
    case Text(d) => d
    case Comment(_) => ""
    case Element(_, _, cs) => ForestText(cs)
  }

  /** The text of a sequence of sibling nodes, as their parent's `textContent` reads it. */
  function ForestText(ns: seq<Node>): string {
    if ns == [] then "" else TextContent(ns[0]) + ForestText(ns[1..])
  }

  lemma {:induction false} ForestTextAppend(a: seq<Node>, b: seq<Node>)
    ensures ForestText(a + b) == ForestText(a) + ForestText(b)
  {
    if a == [] {
      assert a + b == b;
    } else {
      assert (a + b)[1..] == a[1..] + b;
      ForestTextAppend(a[1..], b);
    }
  }

  /** The tags the scripts treat as media: such an element counts as content without any text. */
  const MediaTags: set<string> := {"IMG", "BR", "HR", "IFRAME", "VIDEO", "AUDIO"}

  /** Some node of `ns`, or a node below one of them, is an element whose tag is in `tags`
      (`querySelector` with a list of tag selectors, run on the parent of `ns`). */
  predicate HasTagIn(ns: seq<Node>, tags: set<string>) {
    if ns == [] then false
    else
      (ns[0].Element? && (ns[0].tag in tags || HasTagIn(ns[0].children, tags)))
      || HasTagIn(ns[1..], tags)
  }

  lemma {:induction false} HasTagInAppend(a: seq<Node>, b: seq<Node>, tags: set<string>)
    ensures HasTagIn(a + b, tags) <==> HasTagIn(a, tags) || HasTagIn(b, tags)
  {
    if a == [] {
      assert a + b == b;
    } else {
      assert (a + b)[1..] == a[1..] + b;
      HasTagInAppend(a[1..], b, tags);
    }
  }

  /** `element.getAttribute(name)`: the value of the first attribute with that name. */
  function GetAttr(attrs: seq<Attr>, name: string): (r: Option<string>)
    ensures r.None? <==> forall k :: 0 <= k < |attrs| ==> attrs[k].name != name
    ensures r.Some? ==> exists k :: 0 <= k < |attrs| && attrs[k] == Attr(name, r.value)
  {
    if attrs == [] then None
    else if attrs[0].name == name then Some(attrs[0].value)
    else
      var r := GetAttr(attrs[1..], name);
      assert r.Some? ==> attrs[1..][0] == attrs[1];
      r
  }

  /** `element.setAttribute(name, value)`: the first attribute with that name gets the value in
      place; without one, the attribute is appended. */
  function SetAttr(attrs: seq<Attr>, name: string, value: string): (r: seq<Attr>)
    ensures GetAttr(r, name) == Some(value)
    ensures forall other :: other != name ==> GetAttr(r, other) == GetAttr(attrs, other)
    ensures forall k :: 0 <= k < |r| ==> r[k].name == name || r[k] in attrs
  {
    if attrs == [] then [Attr(name, value)]
    else if attrs[0].name == name then [Attr(name, value)] + attrs[1..]
    else
      var rest := SetAttr(attrs[1..], name, value);
      [attrs[0]] + rest
  }
}
