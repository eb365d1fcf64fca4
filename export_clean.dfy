/** The exporter's `cleanHTML` (js/exporter.js:167-200) on the page's node
    forest: six query-and-edit passes, shown equal to a single traversal
    that says per node what is removed and what is kept. */
module ExportClean {
  import opened Common
  import opened Dom

  const ControlsClass := "component-controls"
  const HandleClass := "drag-handle"

  // ---------------------------------------------------------------------
  // The passes, in the order the source runs them.

  /** `querySelectorAll('.' + c).forEach(el => el.remove())`: every element
      with class `c` goes, with everything inside it. */
  function DropWithClass(f: seq<Node>, c: string): seq<Node> {
    if f == [] then []
    else (if HasClass(f[0], c) then [] else [DropInside(f[0], c)]) + DropWithClass(f[1..], c)
  }

  function DropInside(n: Node, c: string): Node {
    match n
    case Text(_) => n
    case Element(tag, classes, attrs, children) => Element(tag, classes, attrs, DropWithClass(children, c))
  }

  /** The body of one of the later `forEach` loops. */
  datatype Edit =
    | UnmarkComponent          // `.component`: remove classes `component` and `selected`
    | UnmarkEditable           // `.editable`: remove `editable`, `editing` and `contenteditable`
    | RemoveAttribute(name: string)  // `[name]`: remove that attribute

  function EditClasses(e: Edit, classes: seq<string>): seq<string> {
    match e
    case UnmarkComponent =>
      if "component" in classes then RemoveClasses(classes, ["component", "selected"]) else classes
    case UnmarkEditable =>
      if "editable" in classes then RemoveClasses(classes, ["editable", "editing"]) else classes
    case RemoveAttribute(_) => classes
  }

  function EditAttrs(e: Edit, classes: seq<string>, attrs: map<string, string>): map<string, string> {
    match e
    case UnmarkComponent => attrs
    case UnmarkEditable => if "editable" in classes then attrs - {"contenteditable"} else attrs
    case RemoveAttribute(name) => if name in attrs then attrs - {name} else attrs
  }

  /** One edit loop: every element the query matches, at any depth. */
  function EditAll(f: seq<Node>, e: Edit): seq<Node> {
    if f == [] then [] else [EditNode(f[0], e)] + EditAll(f[1..], e)
  }

  function EditNode(n: Node, e: Edit): Node {
    match n
    case Text(_) => n
    case Element(tag, classes, attrs, children) =>
      Element(tag, EditClasses(e, classes), EditAttrs(e, classes, attrs), EditAll(children, e))
  }

  /** The six passes of `cleanHTML`, one after the other. */
  function Passes(f: seq<Node>): seq<Node> {
    EditAll(EditAll(EditAll(EditAll(
      DropWithClass(DropWithClass(f, ControlsClass), HandleClass),
      UnmarkComponent), UnmarkEditable), RemoveAttribute("data-component")), RemoveAttribute("data-field"))
  }

  /** `cleanHTML(html, settings)`: unchanged unless `removeEditorStyles` is
      set; otherwise every node is cleaned as `Clean` says. */
  function CleanHtml(page: seq<Node>, removeEditorStyles: bool): (r: seq<Node>)
    ensures !removeEditorStyles ==> r == page
    ensures removeEditorStyles ==> r == Clean(page)
  {
    if !removeEditorStyles then page
    else
      PassesAreClean(page);
      Passes(page)
  }

  // ---------------------------------------------------------------------
  // The same result in one traversal.

  /** Editor controls and drag handles, which are removed with their contents. */
  predicate IsEditorWidget(n: Node) {
    HasClass(n, ControlsClass) || HasClass(n, HandleClass)
  }

  /** The classes an element keeps: `component` and `selected` go only from
      an element that had `component`, `editable` and `editing` only from
      one that had `editable`, and every other class stays. */
  function KeptClasses(classes: seq<string>): (r: seq<string>)
    ensures forall c :: c in r <==>
      c in classes
      && !("component" in classes && (c == "component" || c == "selected"))
      && !("editable" in classes && (c == "editable" || c == "editing"))
  {
    RemoveClasses(classes,
      (if "component" in classes then ["component", "selected"] else []) +
      (if "editable" in classes then ["editable", "editing"] else []))
  }

  /** The attributes an element keeps: `data-component` and `data-field`
      go, `contenteditable` goes from an element that had class `editable`,
      and every other attribute, `data-component-id` among them, stays with
      its value. */
  function KeptAttrs(classes: seq<string>, attrs: map<string, string>): (r: map<string, string>)
    ensures forall a :: a in r <==>
      a in attrs && a != "data-component" && a != "data-field"
      && !("editable" in classes && a == "contenteditable")
    ensures forall a :: a in r ==> r[a] == attrs[a]
  {
    attrs - {"data-component", "data-field"} - (if "editable" in classes then {"contenteditable"} else {})
  }

  function Clean(f: seq<Node>): seq<Node> {
    if f == [] then []
    else (if IsEditorWidget(f[0]) then [] else [CleanNode(f[0])]) + Clean(f[1..])
  }

  /** A node that is not an editor widget, cleaned; text is kept as it is. */
  function CleanNode(n: Node): (r: Node)
    ensures n.Text? ==> r == n
    ensures n.Element? ==>
      (r.Element? && r.tag == n.tag && r.children == Clean(n.children)
       && r.classes == KeptClasses(n.classes) && r.attrs == KeptAttrs(n.classes, n.attrs))
  {
    match n
    case Text(_) => n
    case Element(tag, classes, attrs, children) =>
      Element(tag, KeptClasses(classes), KeptAttrs(classes, attrs), Clean(children))
  }

  // ---------------------------------------------------------------------
  // The passes compute `Clean`.

  lemma {:induction false} DropWithClassAppend(a: seq<Node>, b: seq<Node>, c: string)
    ensures DropWithClass(a + b, c) == DropWithClass(a, c) + DropWithClass(b, c)
  {
    if a == [] {
      assert a + b == b;
    } else {
      assert (a + b)[0] == a[0] && (a + b)[1..] == a[1..] + b;
      DropWithClassAppend(a[1..], b, c);
    }
  }

  lemma {:induction false} EditAllAppend(a: seq<Node>, b: seq<Node>, e: Edit)
    ensures EditAll(a + b, e) == EditAll(a, e) + EditAll(b, e)
  {
    if a == [] {
      assert a + b == b;
    } else {
      assert (a + b)[0] == a[0] && (a + b)[1..] == a[1..] + b;
      EditAllAppend(a[1..], b, e);
    }
  }

  lemma PassesAppend(a: seq<Node>, b: seq<Node>)
    ensures Passes(a + b) == Passes(a) + Passes(b)
  {
    var d1a, d1b := DropWithClass(a, ControlsClass), DropWithClass(b, ControlsClass);
    DropWithClassAppend(a, b, ControlsClass);
    var d2a, d2b := DropWithClass(d1a, HandleClass), DropWithClass(d1b, HandleClass);
    DropWithClassAppend(d1a, d1b, HandleClass);
    var e3a, e3b := EditAll(d2a, UnmarkComponent), EditAll(d2b, UnmarkComponent);
    EditAllAppend(d2a, d2b, UnmarkComponent);
    var e4a, e4b := EditAll(e3a, UnmarkEditable), EditAll(e3b, UnmarkEditable);
    EditAllAppend(e3a, e3b, UnmarkEditable);
    var e5a, e5b := EditAll(e4a, RemoveAttribute("data-component")), EditAll(e4b, RemoveAttribute("data-component"));
    EditAllAppend(e4a, e4b, RemoveAttribute("data-component"));
    EditAllAppend(e5a, e5b, RemoveAttribute("data-field"));
  }

  /** The classes after the two class loops. */
  lemma EditedClasses(classes: seq<string>)
    ensures EditClasses(UnmarkEditable, EditClasses(UnmarkComponent, classes)) == KeptClasses(classes)
  {
    var cd: seq<string> := if "component" in classes then ["component", "selected"] else [];
    var ed: seq<string> := if "editable" in classes then ["editable", "editing"] else [];
    var c3 := RemoveClasses(classes, cd);
    assert EditClasses(UnmarkComponent, classes) == c3 by {
      if cd == [] {
        RemoveClassesAbsent(classes, []);
      }
    }
    assert "editable" in c3 <==> "editable" in classes;
    RemoveClassesTwice(classes, cd, ed);
    if ed == [] {
      RemoveClassesAbsent(c3, []);
    }
  }

  /** Removing two lists of tokens one after the other removes both. */
  lemma {:induction false} RemoveClassesTwice(classes: seq<string>, a: seq<string>, b: seq<string>)
    ensures RemoveClasses(RemoveClasses(classes, a), b) == RemoveClasses(classes, a + b)
  {
    if classes != [] {
      RemoveClassesTwice(classes[1..], a, b);
      var x := classes[0];
      if x !in a {
        var ra := RemoveClasses(classes, a);
        assert ra[0] == x && ra[1..] == RemoveClasses(classes[1..], a);
      }
    }
  }

  /** The attributes after the three attribute loops. */
  lemma EditedAttrs(classes: seq<string>, attrs: map<string, string>)
    ensures var c3 := EditClasses(UnmarkComponent, classes);
      EditAttrs(RemoveAttribute("data-field"), c3,
        EditAttrs(RemoveAttribute("data-component"), c3,
          EditAttrs(UnmarkEditable, c3, attrs))) == KeptAttrs(classes, attrs)
  {
    var c3 := EditClasses(UnmarkComponent, classes);
    assert "editable" in c3 <==> "editable" in classes;
  }

  lemma EditAllOne(x: Node, e: Edit)
    ensures EditAll([x], e) == [EditNode(x, e)]
  {
    assert [x][1..] == [];
  }

  /** One node through all six passes. */
  lemma {:induction false} PassesOfNode(n: Node)
    ensures Passes([n]) == if IsEditorWidget(n) then [] else [CleanNode(n)]
    decreases n, 1
  {
    assert [n][1..] == [];
    if !IsEditorWidget(n) {
      match n
      case Text(_) =>
        assert DropWithClass([n], ControlsClass) == [n];
        assert DropWithClass([n], HandleClass) == [n];
        EditAllOne(n, UnmarkComponent);
        EditAllOne(n, UnmarkEditable);
        EditAllOne(n, RemoveAttribute("data-component"));
        EditAllOne(n, RemoveAttribute("data-field"));
      case Element(tag, classes, attrs, children) =>
        var d := DropWithClass(DropWithClass(children, ControlsClass), HandleClass);
        var x2 := Element(tag, classes, attrs, d);
        assert DropWithClass(DropWithClass([n], ControlsClass), HandleClass) == [x2] by {
          var x1 := Element(tag, classes, attrs, DropWithClass(children, ControlsClass));
          assert DropWithClass([n], ControlsClass) == [x1];
          assert [x1][1..] == [];
        }
        var x3 := EditNode(x2, UnmarkComponent);
        EditAllOne(x2, UnmarkComponent);
        var x4 := EditNode(x3, UnmarkEditable);
        EditAllOne(x3, UnmarkEditable);
        var x5 := EditNode(x4, RemoveAttribute("data-component"));
        EditAllOne(x4, RemoveAttribute("data-component"));
        var x6 := EditNode(x5, RemoveAttribute("data-field"));
        EditAllOne(x5, RemoveAttribute("data-field"));
        assert Passes([n]) == [x6];
        EditedClasses(classes);
        EditedAttrs(classes, attrs);
        PassesAreClean(children);
        assert x6.children == Passes(children);
    }
  }

  /** The six passes compute `Clean`. */
  lemma {:induction false} PassesAreClean(f: seq<Node>)
    ensures Passes(f) == Clean(f)
    decreases f, 0
  {
    if f != [] {
      assert f == [f[0]] + f[1..];
      PassesAppend([f[0]], f[1..]);
      PassesOfNode(f[0]);
      PassesAreClean(f[1..]);
    }
  }

  // ---------------------------------------------------------------------
  // What cleaning guarantees.

  /** No editor widget, no `component` or `editable` class and no
      `data-component` or `data-field` attribute, at any depth. */
  predicate Cleaned(f: seq<Node>) {
    forall i :: 0 <= i < |f| ==> CleanedNode(f[i])
  }

  predicate CleanedNode(n: Node) {
    match n
    case Text(_) => true
    case Element(_, classes, attrs, children) =>
      ControlsClass !in classes && HandleClass !in classes
      && "component" !in classes && "editable" !in classes
      && "data-component" !in attrs && "data-field" !in attrs
      && Cleaned(children)
  }

  lemma {:induction false} CleanIsCleaned(f: seq<Node>)
    ensures Cleaned(Clean(f))
    decreases f, 1
  {
    if f != [] {
      CleanIsCleaned(f[1..]);
      var head := if IsEditorWidget(f[0]) then [] else [CleanNode(f[0])];
      if !IsEditorWidget(f[0]) {
        CleanNodeIsCleaned(f[0]);
      }
      assert Clean(f) == head + Clean(f[1..]);
    }
  }

  lemma {:induction false} CleanNodeIsCleaned(n: Node)
    requires !IsEditorWidget(n)
    ensures CleanedNode(CleanNode(n))
    decreases n, 0
  {
    if n.Element? {
      CleanIsCleaned(n.children);
    }
  }

  /** A forest with nothing left to clean is left as it is. */
  lemma {:induction false} CleanOfCleaned(f: seq<Node>)
    requires Cleaned(f)
    ensures Clean(f) == f
    decreases f, 1
  {
    if f != [] {
      assert CleanedNode(f[0]);
      assert Cleaned(f[1..]) by {
        assert forall i :: 0 <= i < |f| - 1 ==> f[1..][i] == f[i + 1];
      }
      CleanOfCleaned(f[1..]);
      CleanNodeOfCleaned(f[0]);
      assert f == [f[0]] + f[1..];
    }
  }

  lemma {:induction false} CleanNodeOfCleaned(n: Node)
    requires CleanedNode(n)
    ensures !IsEditorWidget(n) && CleanNode(n) == n
    decreases n, 0
  {
    match n
    case Text(_) =>
    case Element(tag, classes, attrs, children) =>
      CleanOfCleaned(children);
      assert KeptClasses(classes) == classes by {
        var none: seq<string> := [];
        assert (if "component" in classes then ["component", "selected"] else none) +
               (if "editable" in classes then ["editable", "editing"] else none) == none;
        RemoveClassesAbsent(classes, none);
      }
      assert KeptAttrs(classes, attrs) == attrs;
  }

  /** Cleaning twice gives what cleaning once gives. */
  lemma CleanIdempotent(f: seq<Node>)
    ensures Clean(Clean(f)) == Clean(f)
  {
    CleanIsCleaned(f);
    CleanOfCleaned(Clean(f));
  }
}
