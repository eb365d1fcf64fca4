/** The document tree the editor works on: component templates, the page's
    component instances and the exporter's scratch copy are all forests of
    these nodes. Attribute order, inter-element whitespace text and parsing
    or serialising markup are not part of this model. */
module Dom {

  /** An element (tag, class list, the other attributes, children) or a text node.
      The `class` attribute is kept as the element's token list, not in `attrs`. */
  datatype Node =
    | Element(tag: string, classes: seq<string>, attrs: map<string, string>, children: seq<Node>)
    | Text(text: string)

  predicate HasClass(n: Node, c: string) {
    n.Element? && c in n.classes
  }

  /** ASCII whitespace, which a class token may not contain. */
  predicate IsAsciiWhitespace(c: char) {
    c == ' ' || c == '\t' || c == '\n' || c == '\r' || c == '\U{000C}'
  }

  /** What `classList.add` accepts without throwing: a non-empty token
      without ASCII whitespace. */
  predicate IsToken(s: string) {
    s != [] && forall i :: 0 <= i < |s| ==> !IsAsciiWhitespace(s[i])
  }

  /** `classList.remove(...drop)`: every listed token goes, the rest keep their order. */
  function RemoveClasses(classes: seq<string>, drop: seq<string>): (r: seq<string>)
    ensures forall c :: c in r <==> c in classes && c !in drop
    ensures |r| <= |classes|
  {
    if classes == [] then []
    else
      var rest := RemoveClasses(classes[1..], drop);
      if classes[0] in drop then rest else [classes[0]] + rest
  }

  /** Removing works token by token, so it distributes over concatenation. */
  lemma {:induction false} RemoveClassesAppend(a: seq<string>, b: seq<string>, drop: seq<string>)
    ensures RemoveClasses(a + b, drop) == RemoveClasses(a, drop) + RemoveClasses(b, drop)
  {
    if a == [] {
      assert a + b == b;
    } else {
      assert (a + b)[0] == a[0];
      assert (a + b)[1..] == a[1..] + b;
      RemoveClassesAppend(a[1..], b, drop);
    }
  }

  /** Removing tokens that are not there changes nothing. */
  lemma {:induction false} RemoveClassesAbsent(classes: seq<string>, drop: seq<string>)
    requires forall i :: 0 <= i < |classes| ==> classes[i] !in drop
    ensures RemoveClasses(classes, drop) == classes
  {
    if classes != [] {
      assert forall i :: 0 <= i < |classes| - 1 ==> classes[1..][i] == classes[i + 1];
      RemoveClassesAbsent(classes[1..], drop);
      assert classes == [classes[0]] + classes[1..];
    }
  }

  /** `classList.add(c)`: appended unless already present. */
  function AddClass(classes: seq<string>, c: string): (r: seq<string>)
    ensures forall x :: x in r <==> x in classes || x == c
    ensures c in classes ==> r == classes
    ensures c !in classes ==> r == classes + [c]
    ensures |r| >= |classes| && r[..|classes|] == classes
  {
    if c in classes then classes else classes + [c]
  }

  /** `el.classList.add(c)` on a node (text nodes have no class list). */
  function WithClass(n: Node, c: string): (r: Node)
    ensures r.Element? == n.Element?
    ensures n.Element? ==> r == n.(classes := AddClass(n.classes, c))
    ensures n.Text? ==> r == n
  {
    if n.Element? then n.(classes := AddClass(n.classes, c)) else n
  }

  /** `el.classList.remove(c)` on a node. */
  function WithoutClass(n: Node, c: string): (r: Node)
    ensures r.Element? == n.Element?
    ensures n.Element? ==> r == n.(classes := RemoveClasses(n.classes, [c]))
    ensures n.Text? ==> r == n
  {
    if n.Element? then n.(classes := RemoveClasses(n.classes, [c])) else n
  }

  /** `el.setAttribute(name, value)` on a node. */
  function WithAttribute(n: Node, name: string, value: string): (r: Node)
    ensures n.Element? ==> r == n.(attrs := n.attrs[name := value])
    ensures n.Text? ==> r == n
  {
    if n.Element? then n.(attrs := n.attrs[name := value]) else n
  }

  /** The custom properties after `style.setProperty(name, value)`: an empty
      value removes the property, as CSSOM specifies; any other value is
      stored under `name`. No other property changes. */
  function WithProperty(props: map<string, string>, name: string, value: string): (r: map<string, string>)
    ensures value == "" ==> name !in r
    ensures value != "" ==> name in r && r[name] == value
    ensures forall k :: k != name ==> (k in r <==> k in props)
    ensures forall k :: k != name && k in r ==> r[k] == props[k]
  {
    if value == "" then props - {name} else props[name := value]
  }

  /** The inline style of the document's root element, where global style
      values are published as CSS custom properties. The editor and the
      style manager write to the same one. */
  class DocumentStyle {
    var properties: map<string, string>

    constructor (initial: map<string, string>)
      ensures properties == initial
    {
      properties := initial;
    }

    /** `document.documentElement.style.setProperty(name, value)` */
    method SetProperty(name: string, value: string)
      modifies this
      ensures properties == WithProperty(old(properties), name, value)
    {
      if value == "" {
        properties := properties - {name};
      } else {
        properties := properties[name := value];
      }
    }
  }
}
