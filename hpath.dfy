/**
 * HPath (hpath/path.go): a small XPath-like query on an HTML document.
 * `/html/head/title` finds the `title` element under `head` under `html`;
 * `/html/body/div/p@name` reads the `name` attribute of that `p`.
 *
 * The document is a tree value. A cursor on a node is the list of that node
 * and its later siblings, so the node is the head of the list, its next
 * sibling the head of the tail, and the empty list is the nil node.
 */
module HPath {
  import opened Wrappers
  import opened Strings

  /** The kinds of HTML node. */
  datatype NodeKind = ErrorNode | TextNode | DocumentNode | ElementNode | CommentNode | DoctypeNode | RawNode

  /** An attribute of an element. */
  datatype Attribute = Attribute(key: string, val: string)

  /** A node: its kind, its data (the tag name of an element), its attributes and its children in order. */
  datatype Node = Node(kind: NodeKind, data: string, attrs: seq<Attribute>, children: seq<Node>)

  /** The number of nodes in a node's subtree. */
  function Size(n: Node): nat
    ensures Size(n) >= 1
    decreases n, 1
  {
    1 + Forest(n.children)
  }

  /** The number of nodes under a cursor: the node, its later siblings and all their descendants. */
  function Forest(ns: seq<Node>): nat
    decreases ns, 0
  {
    if |ns| == 0 then 0 else Size(ns[0]) + Forest(ns[1..])
  }

  /** Moving to the first child or to the next sibling leaves fewer nodes under the cursor. */
  lemma ForestShrinks(ns: seq<Node>)
    requires |ns| > 0
    ensures Forest(ns[0].children) < Forest(ns) && Forest(ns[1..]) < Forest(ns)
  {
  }

  /**
   * A path segment split at its first `@`: the element name before it and
   * the attribute name after it, or the whole segment and "" when it has none.
   */
  function SegmentParts(name: string): (parts: (string, string))
    ensures '@' !in parts.0
    ensures '@' !in name ==> parts == (name, "")
    ensures '@' in name ==> parts.0 + "@" + parts.1 == name
  {
    var split := IndexByte(name, '@');
    if split == -1 then (name, "")
    else
      assert name == name[..split] + "@" + name[split + 1..];
      (name[..split], name[split + 1..])
  }

  /** An element name without `@`, then `@` and an attribute name, splits back into the two. */
  lemma SegmentOf(element: string, attr: string)
    requires '@' !in element
    ensures SegmentParts(element + "@" + attr) == (element, attr)
  {
    var name := element + "@" + attr;
    assert name[|element|] == '@';
    var split := IndexByte(name, '@');
    assert forall k | 0 <= k < |element| :: name[k] == element[k];
    assert name[..split + 1][split] == '@';
    assert split == |element|;
    assert name[..split] == element && name[split + 1..] == attr;
  }

  /** The value of the first attribute named `key`. */
  function FirstAttr(attrs: seq<Attribute>, key: string): Option<string>
  {
    if |attrs| == 0 then None
    else if attrs[0].key == key then Some(attrs[0].val)
    else FirstAttr(attrs[1..], key)
  }

  /** The attribute found is the first one with that name. */
  lemma {:induction false} FirstAttrIs(attrs: seq<Attribute>, key: string, i: nat)
    requires i < |attrs| && attrs[i].key == key
    requires forall j | 0 <= j < i :: attrs[j].key != key
    ensures FirstAttr(attrs, key) == Some(attrs[i].val)
  {
    if i > 0 {
      assert attrs[0].key != key;
      forall j | 0 <= j < i - 1
        ensures attrs[1..][j].key != key
      {
        assert attrs[1..][j] == attrs[j + 1];
      }
      FirstAttrIs(attrs[1..], key, i - 1);
    }
  }

  /** No attribute is found exactly when none has that name. */
  lemma {:induction false} FirstAttrNone(attrs: seq<Attribute>, key: string)
    ensures FirstAttr(attrs, key).None? <==> forall j | 0 <= j < |attrs| :: attrs[j].key != key
  {
    if |attrs| > 0 {
      FirstAttrNone(attrs[1..], key);
      if attrs[0].key != key {
        forall j | 1 <= j < |attrs|
          ensures attrs[j] == attrs[1..][j - 1]
        {
        }
      }
    }
  }

  /** The loop over an element's attributes: the value of the first one named `key`. */
  method AttrValue(attrs: seq<Attribute>, key: string) returns (found: Option<string>)
    ensures found == FirstAttr(attrs, key)
  {
    for a := 0 to |attrs|
      invariant forall j | 0 <= j < a :: attrs[j].key != key
    {
      if attrs[a].key == key {
        FirstAttrIs(attrs, key, a);
        return Some(attrs[a].val);
      }
    }
    FirstAttrNone(attrs, key);
    return None;
  }

  /**
   * The outcome of a query that has reached segment `d` of `dir` with the
   * cursor `cursor`, step by step as `Path` takes it.
   */
  function Eval(dir: seq<string>, d: nat, cursor: seq<Node>): Result<string>
    decreases |dir| - d, Forest(cursor)
  {
    if d >= |dir| then Failure("Couldn't find path")
    else if |dir[d]| == 0 then Eval(dir, d + 1, cursor)
    else if |cursor| == 0 then Failure("Couldn't find path at segment")
    else
      ForestShrinks(cursor);
      var current := cursor[0];
      if current.kind == DocumentNode then Eval(dir, d, current.children)
      else if current.kind != ElementNode then Eval(dir, d, cursor[1..])
      else
        var (element, attr) := SegmentParts(dir[d]);
        if element != current.data then Eval(dir, d, cursor[1..])
        else if d < |dir| - 1 then Eval(dir, d + 1, current.children)
        else if |attr| == 0 then Success(current.data)
        else match FirstAttr(current.attrs, attr)
          case Some(v) => Success(v)
          case None => Failure("Couldn't find attribute")
  }

  /**
   * `Path`: splits the path at `/`, then moves a cursor over the document
   * starting at its root: empty segments are skipped, a document node steps
   * to its first child, a doctype or other non-element node to its next
   * sibling, an element that does not match the segment to its next sibling,
   * and a matching element to its first child and the next segment. The last
   * segment's element gives its name, or the value of the attribute named
   * after `@`; running out of segments or of nodes is an error.
   */
  method Path(root: Node, path: string) returns (value: Result<string>)
    ensures value == Eval(Split(path, '/'), 0, [root])
  {
    var dir := Split(path, '/');
    var cursor := [root];
    var d := 0;
    while true
      invariant d <= |dir|
      invariant Eval(dir, d, cursor) == Eval(dir, 0, [root])
      decreases |dir| - d, Forest(cursor)
    {
      if d >= |dir| {
        return Failure("Couldn't find path");
      }
      var name := dir[d];
      if |name| == 0 {
        d := d + 1;
        continue;
      }
      if |cursor| == 0 {
        return Failure("Couldn't find path at segment");
      }
      var current := cursor[0];
      ForestShrinks(cursor);
      if current.kind == DocumentNode {
        cursor := current.children;
        continue;
      }
      if current.kind == DoctypeNode {
        cursor := cursor[1..];
        continue;
      }
      if current.kind != ElementNode {
        cursor := cursor[1..];
        continue;
      }
      var (element, attr) := SegmentParts(name);
      if element == current.data {
        if d == |dir| - 1 {
          if |attr| > 0 {
            var found := AttrValue(current.attrs, attr);
            if found.Some? {
              return Success(found.value);
            }
            return Failure("Couldn't find attribute");
          }
          return Success(current.data);
        }
        d := d + 1;
        cursor := current.children;
        continue;
      }
      cursor := cursor[1..];
    }
  }

  /** A query whose last segment has no attribute can only give that segment's element name. */
  lemma {:induction false} PlainPathGivesName(dir: seq<string>, d: nat, cursor: seq<Node>)
    requires |dir| > 0 && SegmentParts(dir[|dir| - 1]).1 == ""
    ensures Eval(dir, d, cursor).Success? ==> Eval(dir, d, cursor).value == SegmentParts(dir[|dir| - 1]).0
    decreases |dir| - d, Forest(cursor)
  {
    if d < |dir| {
      if |dir[d]| == 0 {
        PlainPathGivesName(dir, d + 1, cursor);
      } else if |cursor| > 0 {
        var current := cursor[0];
        ForestShrinks(cursor);
        if current.kind == DocumentNode {
          PlainPathGivesName(dir, d, current.children);
        } else if current.kind != ElementNode || SegmentParts(dir[d]).0 != current.data {
          PlainPathGivesName(dir, d, cursor[1..]);
        } else if d < |dir| - 1 {
          PlainPathGivesName(dir, d + 1, current.children);
        }
      }
    }
  }

  /** `n` is an element named `element` whose first `attr` attribute holds `v`. */
  predicate HoldsAttribute(n: Node, element: string, attr: string, v: string)
  {
    n.kind == ElementNode && n.data == element && FirstAttr(n.attrs, attr) == Some(v)
  }

  /**
   * `n` is one of the nodes the cursor `ns` can reach: the first node, or a
   * node reached from its first child or its next sibling.
   */
  ghost predicate InForest(n: Node, ns: seq<Node>)
    decreases Forest(ns)
  {
    |ns| > 0 && (ForestShrinks(ns); n == ns[0] || InForest(n, ns[0].children) || InForest(n, ns[1..]))
  }

  /**
   * A path whose last segment is `element@attr` only ever yields the value
   * of the first `attr` attribute of an element named `element` of the
   * queried document.
   */
  lemma {:induction false} AttributePathGivesValue(dir: seq<string>, d: nat, cursor: seq<Node>)
    requires |dir| > 0 && SegmentParts(dir[|dir| - 1]).1 != ""
    ensures var (element, attr) := SegmentParts(dir[|dir| - 1]);
      Eval(dir, d, cursor).Success? ==>
        exists n | InForest(n, cursor) :: HoldsAttribute(n, element, attr, Eval(dir, d, cursor).value)
    decreases |dir| - d, Forest(cursor)
  {
    var (element, attr) := SegmentParts(dir[|dir| - 1]);
    if d < |dir| && Eval(dir, d, cursor).Success? {
      var v := Eval(dir, d, cursor).value;
      if |dir[d]| == 0 {
        AttributePathGivesValue(dir, d + 1, cursor);
      } else {
        var current := cursor[0];
        ForestShrinks(cursor);
        var inner: seq<Node>;
        if current.kind == DocumentNode {
          inner := current.children;
          AttributePathGivesValue(dir, d, inner);
        } else if current.kind != ElementNode || SegmentParts(dir[d]).0 != current.data {
          inner := cursor[1..];
          AttributePathGivesValue(dir, d, inner);
        } else if d < |dir| - 1 {
          inner := current.children;
          AttributePathGivesValue(dir, d + 1, inner);
        } else {
          assert InForest(current, cursor) && HoldsAttribute(current, element, attr, v);
          return;
        }
        var n :| InForest(n, inner) && HoldsAttribute(n, element, attr, v);
        assert InForest(n, cursor);
      }
    }
  }

  /** A query whose last segment is empty never succeeds: no match can be on the last segment. */
  lemma {:induction false} EmptyLastSegmentFails(dir: seq<string>, d: nat, cursor: seq<Node>)
    requires |dir| > 0 && dir[|dir| - 1] == ""
    ensures Eval(dir, d, cursor).Failure?
    decreases |dir| - d, Forest(cursor)
  {
    if d < |dir| {
      if |dir[d]| == 0 {
        EmptyLastSegmentFails(dir, d + 1, cursor);
      } else if |cursor| > 0 {
        var current := cursor[0];
        ForestShrinks(cursor);
        if current.kind == DocumentNode {
          EmptyLastSegmentFails(dir, d, current.children);
        } else if current.kind != ElementNode || SegmentParts(dir[d]).0 != current.data {
          EmptyLastSegmentFails(dir, d, cursor[1..]);
        } else {
          EmptyLastSegmentFails(dir, d + 1, current.children);
        }
      }
    }
  }

  /** A joined list that ends with the separator has an empty last part, when no part holds the separator. */
  lemma {:induction false} JoinEndsWithSep(parts: seq<string>, sep: char)
    requires |parts| >= 1 && forall k | 0 <= k < |parts| :: sep !in parts[k]
    ensures var s := Join(parts, sep); |s| > 0 && s[|s| - 1] == sep ==> parts[|parts| - 1] == ""
  {
    if |parts| > 1 {
      var rest := parts[1..];
      JoinEndsWithSep(rest, sep);
      var j := Join(rest, sep);
      var s := Join(parts, sep);
      assert s == parts[0] + [sep] + j;
      if |j| > 0 {
        assert s[|s| - 1] == j[|j| - 1];
      }
      assert parts[|parts| - 1] == rest[|rest| - 1];
    }
  }

  /** A path that ends with `/` finds nothing, whatever the document. */
  lemma TrailingSlashFails(root: Node, path: string)
    requires |path| > 0 && path[|path| - 1] == '/'
    ensures Eval(Split(path, '/'), 0, [root]).Failure?
  {
    var dir := Split(path, '/');
    assert Join(dir, '/') == path;
    JoinEndsWithSep(dir, '/');
    EmptyLastSegmentFails(dir, 0, [root]);
  }

  /** A document without any node in it has nothing to find. */
  lemma {:induction false} EmptyDocumentFails(dir: seq<string>, d: nat)
    ensures Eval(dir, d, [Node(DocumentNode, "", [], [])]).Failure?
    decreases |dir| - d
  {
    if d < |dir| && |dir[d]| == 0 {
      EmptyDocumentFails(dir, d + 1);
    }
  }

  /** Splitting a string whose first part has no separator. */
  lemma SplitFirst(a: string, rest: string, sep: char)
    requires sep !in a
    ensures Split(a + [sep] + rest, sep) == [a] + Split(rest, sep)
  {
    var s := a + [sep] + rest;
    assert s[|a|] == sep;
    var i := IndexByte(s, sep);
    assert forall k | 0 <= k < |a| :: s[k] == a[k];
    assert s[..i + 1][i] == sep;
    assert i == |a|;
    assert s[..i] == a && s[i + 1..] == rest;
  }

  /** Splitting a string without separator gives that string alone. */
  lemma SplitNone(a: string, sep: char)
    requires sep !in a
    ensures Split(a, sep) == [a]
  {
  }

  /** `/html/body/p` splits into an empty segment, then `html`, `body` and `p`. */
  lemma SplitParagraphPath(html: string, body: string, p: string)
    requires html == "html" && body == "body" && p == "p"
    ensures Split([] + ['/'] + (html + ['/'] + (body + ['/'] + p)), '/') == ["", html, body, p]
  {
    SplitNone(p, '/');
    SplitFirst(body, p, '/');
    SplitFirst(html, body + ['/'] + p, '/');
    SplitFirst([], html + ['/'] + (body + ['/'] + p), '/');
  }

  /** An element without attributes. */
  function Element(tag: string, children: seq<Node>): Node
  {
    Node(ElementNode, tag, [], children)
  }

  /** Inside `html` of the next example: `body/p` finds the `p`. */
  lemma ParagraphInHtml()
    ensures Eval(["", "html", "body", "p"], 2, [Element("head", []), Element("body", [Element("p", [])])]) == Success("p")
  {
  }

  /**
   * `/html/body/p` on the document an HTML5 parser builds from
   * `<html><body><p></p></body></html>` (it adds an empty `head`) gives `p`.
   */
  lemma ParagraphExample()
    ensures Eval(["", "html", "body", "p"], 0,
                 [Node(DocumentNode, "", [], [Element("html", [Element("head", []), Element("body", [Element("p", [])])])])])
         == Success("p")
  {
    ParagraphInHtml();
  }

  /** At the `p` of the next example, the segment `p@name` reads the attribute. */
  lemma AttributeAtP(seg: string)
    requires seg == "p@name"
    ensures Eval(["", "html", "body", "div", seg], 4, [Node(ElementNode, "p", [Attribute("name", "success")], [])])
         == Success("success")
  {
    assert seg == "p" + "@" + "name";
    SegmentOf("p", "name");
  }

  /** Inside `body` of the next example: `div/p@name` reads the attribute. */
  lemma AttributeInBody(seg: string)
    requires seg == "p@name"
    ensures Eval(["", "html", "body", "div", seg], 3,
                 [Element("div", [Node(ElementNode, "p", [Attribute("name", "success")], [])])])
         == Success("success")
  {
    AttributeAtP(seg);
  }

  /** Inside `html` of the next example: `body/div/p@name` reads the attribute. */
  lemma AttributeInHtml(seg: string)
    requires seg == "p@name"
    ensures Eval(["", "html", "body", "div", seg], 2,
                 [Element("head", []), Element("body", [Element("div", [Node(ElementNode, "p", [Attribute("name", "success")], [])])])])
         == Success("success")
  {
    AttributeInBody(seg);
  }

  /**
   * `/html/body/div/p@name` on the document of
   * `<html><body><div><p name=success></p></div></body></html>` gives `success`.
   */
  lemma AttributeExample(seg: string)
    requires seg == "p@name"
    ensures Eval(["", "html", "body", "div", seg], 0,
                 [Node(DocumentNode, "", [], [Element("html", [Element("head", []), Element("body", [
                    Element("div", [Node(ElementNode, "p", [Attribute("name", "success")], [])])])])])])
         == Success("success")
  {
    var body := Element("body", [Element("div", [Node(ElementNode, "p", [Attribute("name", "success")], [])])]);
    var html := Element("html", [Element("head", []), body]);
    var dir := ["", "html", "body", "div", seg];
    AttributeInHtml(seg);
    assert Eval(dir, 1, [Node(DocumentNode, "", [], [html])]) == Eval(dir, 1, [html]);
  }

  /**
   * `/html/doc/p@name` on the document an HTML5 parser builds from an empty
   * input (`html` with an empty `head` and `body`) finds nothing: there is no `doc`.
   */
  lemma BlankDocumentExample()
    ensures Eval(["", "html", "doc", "p@name"], 0,
                 [Node(DocumentNode, "", [], [Element("html", [Element("head", []), Element("body", [])])])]).Failure?
  {
  }
}
