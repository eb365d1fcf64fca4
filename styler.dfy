/** The style manager (js/styler.js:2-172, 295-330): the four global style
    values, published as custom properties on the document's root element,
    and per-component overrides keyed by component id, from which it writes
    a stylesheet. */
module Styler {
  import opened Common
  import opened Dom
  import opened OrderedMaps

  /** A style object: CSS property names and their values, in insertion order. */
  type Declarations = seq<(string, string)>

  /** The global style record the manager starts with and resets to. */
  function DefaultGlobals(): (r: seq<(string, string)>)
    ensures |r| == 4 && DistinctKeys(r)
  {
    [("primaryColor", "#007bff"), ("secondaryColor", "#6c757d"),
     ("fontFamily", "Inter"), ("baseFontSize", "16px")]
  }

  /** The root element's custom properties after `setGlobalStyle` was called
      with each entry in turn. */
  function Published(props: map<string, string>, entries: seq<(string, string)>): map<string, string>
  {
    if entries == [] then props
    else
      var last := entries[|entries| - 1];
      WithProperty(Published(props, entries[..|entries| - 1]), CssVarName(last.0), last.1)
  }

  lemma PublishedAppend(props: map<string, string>, entries: seq<(string, string)>, x: (string, string))
    ensures Published(props, entries + [x]) == WithProperty(Published(props, entries), CssVarName(x.0), x.1)
  {
    assert (entries + [x])[..|entries|] == entries;
  }

  /** Publishing the defaults sets exactly the four custom properties the
      page's stylesheet reads. */
  lemma PublishedDefaults(props: map<string, string>)
    ensures Published(props, DefaultGlobals()) ==
      props["--primary-color" := "#007bff"]["--secondary-color" := "#6c757d"]
           ["--font-family" := "Inter"]["--base-font-size" := "16px"]
  {
    var a, b, c, d := ("primaryColor", "#007bff"), ("secondaryColor", "#6c757d"),
                      ("fontFamily", "Inter"), ("baseFontSize", "16px");
    var e1, e2, e3 := [a], [a, b], [a, b, c];
    assert e1 == [] + [a];
    assert e2 == e1 + [b];
    assert e3 == e2 + [c];
    assert DefaultGlobals() == e3 + [d];
    PrimaryColorVar(a.0);
    SecondaryColorVar(b.0);
    FontFamilyVar(c.0);
    BaseFontSizeVar(d.0);
    PublishedAppend(props, [], a);
    var m1 := props["--primary-color" := "#007bff"];
    assert Published(props, e1) == m1;
    PublishedAppend(props, e1, b);
    var m2 := m1["--secondary-color" := "#6c757d"];
    assert Published(props, e2) == m2;
    PublishedAppend(props, e2, c);
    var m3 := m2["--font-family" := "Inter"];
    assert Published(props, e3) == m3;
    PublishedAppend(props, e3, d);
  }

  /** The preset table of `applyPreset`. */
  function Presets(): (r: seq<(string, seq<(string, string)>)>)
    ensures Keys(r) == ["modern", "classic", "minimal", "vibrant"] && DistinctKeys(r)
  {
    [("modern", [("primaryColor", "#6366f1"), ("secondaryColor", "#8b5cf6"),
                 ("fontFamily", "Inter"), ("baseFontSize", "16px")]),
     ("classic", [("primaryColor", "#dc2626"), ("secondaryColor", "#7c2d12"),
                  ("fontFamily", "Georgia"), ("baseFontSize", "18px")]),
     ("minimal", [("primaryColor", "#000000"), ("secondaryColor", "#6b7280"),
                  ("fontFamily", "Arial"), ("baseFontSize", "15px")]),
     ("vibrant", [("primaryColor", "#f59e0b"), ("secondaryColor", "#ea580c"),
                  ("fontFamily", "Inter"), ("baseFontSize", "16px")])]
  }

  /** Every preset sets the same four global keys as the defaults, each once. */
  lemma PresetsSetTheGlobalKeys(i: int)
    requires 0 <= i < |Presets()|
    ensures Keys(Presets()[i].1) == Keys(DefaultGlobals())
    ensures DistinctKeys(Presets()[i].1)
  {
  }

  // ---------------------------------------------------------------------
  // The stylesheet `generateStyleSheet` writes.

  lemma OccursInRootBlock(p: string, m: string, s: string, q: string, r: string, u: string)
    ensures Contains(((p + ((m + s) + q)) + r) + u, s)
  {
    var t := ((p + ((m + s) + q)) + r) + u;
    var k := |p| + |m|;
    forall j | 0 <= j < |s|
      ensures t[k + j] == s[j]
    {
      assert t[k + j] == (p + ((m + s) + q))[k + j] == ((m + s) + q)[|m| + j];
    }
    assert OccursAt(t, s, k);
  }

  lemma OccursInRules(p: string, r: string, m: string, s: string, q: string)
    ensures Contains(p + r + ((m + s) + q), s)
  {
    var t := p + r + ((m + s) + q);
    var k := |p + r| + |m|;
    forall j | 0 <= j < |s|
      ensures t[k + j] == s[j]
    {
      assert t[k + j] == ((m + s) + q)[|m| + j];
    }
    assert OccursAt(t, s, k);
  }

  /** The `:root` line for one global value. */
  function RootLine(entry: (string, string)): string {
    "  " + CssVarName(entry.0) + ": " + entry.1 + ";\n"
  }

  /** One declaration inside a component's rule. */
  function DeclarationLine(decl: (string, string)): string {
    "  " + decl.0 + ": " + decl.1 + ";\n"
  }

  function RuleHeader(id: string): string {
    "[data-component-id=\"" + id + "\"] {\n"
  }

  /** The rule for one component's overrides. */
  function Rule(id: string, decls: Declarations): string {
    RuleHeader(id) + Concat(decls, DeclarationLine) + "}\n\n"
  }

  /** A component's rule, or nothing when it has no overrides. */
  function RuleIfAny(component: (string, Declarations)): string {
    if |component.1| > 0 then Rule(component.0, component.1) else ""
  }

  /** What `generateStyleSheet` returns. */
  function StyleSheet(globals: seq<(string, string)>, custom: seq<(string, Declarations)>): string {
    ":root {\n" + Concat(globals, RootLine) + "}\n\n" + Concat(custom, RuleIfAny)
  }

  /** Every global value has its line in the `:root` block. */
  lemma StyleSheetHasRootLine(globals: seq<(string, string)>, custom: seq<(string, Declarations)>, i: int)
    requires 0 <= i < |globals|
    ensures Contains(StyleSheet(globals, custom), RootLine(globals[i]))
  {
    ConcatAround(globals, i, RootLine);
    OccursInRootBlock(":root {\n", Concat(globals[..i], RootLine), RootLine(globals[i]),
      Concat(globals[i + 1..], RootLine), "}\n\n", Concat(custom, RuleIfAny));
  }

  /** Every component with at least one override has its rule. */
  lemma StyleSheetHasRule(globals: seq<(string, string)>, custom: seq<(string, Declarations)>, i: int)
    requires 0 <= i < |custom| && |custom[i].1| > 0
    ensures Contains(StyleSheet(globals, custom), Rule(custom[i].0, custom[i].1))
  {
    ConcatAround(custom, i, RuleIfAny);
    OccursInRules(":root {\n" + Concat(globals, RootLine), "}\n\n", Concat(custom[..i], RuleIfAny),
      RuleIfAny(custom[i]), Concat(custom[i + 1..], RuleIfAny));
  }

  /** A component whose overrides were all removed contributes nothing: the
      stylesheet is the one written without it. */
  lemma StyleSheetSkipsEmpty(globals: seq<(string, string)>, custom: seq<(string, Declarations)>, i: int)
    requires 0 <= i < |custom| && custom[i].1 == []
    ensures StyleSheet(globals, custom) == StyleSheet(globals, custom[..i] + custom[i + 1..])
  {
    assert RuleIfAny(custom[i]) == [];
    ConcatSkip(custom, i, RuleIfAny);
  }

  /** The loop that writes the declarations of one rule. */
  method WriteDeclarations(decls: Declarations) returns (text: string)
    ensures text == Concat(decls, DeclarationLine)
  {
    text := "";
    var j := 0;
    while j < |decls|
      invariant 0 <= j <= |decls|
      invariant text == Concat(decls[..j], DeclarationLine)
    {
      text := text + DeclarationLine(decls[j]);
      assert decls[..j + 1][..j] == decls[..j];
      j := j + 1;
    }
    assert decls[..j] == decls;
  }

  // ---------------------------------------------------------------------

  /** What `exportStyles` returns and `importStyles` takes: the global values
      and the overrides of each component. For an import either part may be
      missing. */
  datatype StyleExport = StyleExport(global: seq<(string, string)>, components: seq<(string, Declarations)>)
  datatype StyleImport = StyleImport(global: Option<seq<(string, string)>>, components: Option<seq<(string, Declarations)>>)

  /** Objects have distinct keys, at both levels. */
  predicate WellFormedComponents(components: seq<(string, Declarations)>) {
    DistinctKeys(components) && forall i :: 0 <= i < |components| ==> DistinctKeys(components[i].1)
  }

  class StyleManager {
    /** `customStyles`: component id to that component's style object, in Map order. */
    var customStyles: seq<(string, Declarations)>
    /** `globalStyles`: the global style record's entries. */
    var globalStyles: seq<(string, string)>
    /** `document.documentElement.style` */
    const root: DocumentStyle

    /** Keys are distinct, as an object's and a Map's are. */
    predicate Valid()
      reads this
    {
      DistinctKeys(globalStyles) && WellFormedComponents(customStyles)
    }

    /** `new StyleManager()`: the defaults, published on the root element. */
    constructor (root: DocumentStyle)
      modifies root
      ensures this.root == root && Valid()
      ensures customStyles == [] && globalStyles == DefaultGlobals()
      ensures root.properties == Published(old(root.properties), DefaultGlobals())
    {
      this.root := root;
      customStyles := [];
      globalStyles := DefaultGlobals();
      new;
      LoadDefaultStyles();
    }

    /** `loadDefaultStyles`: publishes every current global value; the record
        itself ends as it began. */
    method LoadDefaultStyles()
      requires Valid()
      modifies this, root
      ensures Valid()
      ensures globalStyles == old(globalStyles) && customStyles == old(customStyles)
      ensures root.properties == Published(old(root.properties), old(globalStyles))
    {
      ghost var g := globalStyles;
      SetGlobalStyles(globalStyles);
      SetAllOwnEntries(g, |g|);
      assert g[..|g|] == g;
    }

    /** `setGlobalStyle`: publishes the value under the property's custom
        property name and records it under the key. */
    method SetGlobalStyle(property: string, value: string)
      requires Valid()
      modifies this, root
      ensures Valid()
      ensures root.properties == WithProperty(old(root.properties), CssVarName(property), value)
      ensures globalStyles == Set(old(globalStyles), property, value)
      ensures customStyles == old(customStyles)
      ensures GetGlobalStyle(property) == Some(value)
      ensures forall k :: k != property ==> GetGlobalStyle(k) == old(GetGlobalStyle(k))
    {
      root.SetProperty(CssVarName(property), value);
      ghost var g := globalStyles;
      globalStyles := Set(globalStyles, property, value);
      SetKeepsDistinct(g, property, value);
      SetLookup(g, property, value, property);
      forall k | k != property
        ensures Lookup(globalStyles, k) == Lookup(g, k)
      {
        SetLookup(g, property, value, k);
      }
    }

    /** `Object.entries(values).forEach(([k, v]) => this.setGlobalStyle(k, v))` */
    method SetGlobalStyles(entries: seq<(string, string)>)
      requires Valid()
      modifies this, root
      ensures Valid()
      ensures globalStyles == SetAll(old(globalStyles), entries)
      ensures root.properties == Published(old(root.properties), entries)
      ensures customStyles == old(customStyles)
    {
      var k := 0;
      while k < |entries|
        invariant 0 <= k <= |entries| && Valid()
        invariant globalStyles == SetAll(old(globalStyles), entries[..k])
        invariant root.properties == Published(old(root.properties), entries[..k])
        invariant customStyles == old(customStyles)
      {
        SetGlobalStyle(entries[k].0, entries[k].1);
        assert entries[..k + 1][..k] == entries[..k];
        k := k + 1;
      }
      assert entries[..k] == entries;
    }

    /** `getGlobalStyle`: `undefined` for a key never set. */
    function GetGlobalStyle(property: string): (r: Option<string>)
      reads this
      ensures r.Some? <==> property in Keys(globalStyles)
    {
      Lookup(globalStyles, property)
    }

    /** `getComponentStyles`: an empty object for an unknown id. */
    function GetComponentStyles(id: string): (r: Declarations)
      reads this
      ensures id !in Keys(customStyles) ==> r == []
      ensures id in Keys(customStyles) ==> (id, r) in customStyles
    {
      Lookup(customStyles, id).GetOr([])
    }

    /** `setComponentStyle`: creates an empty style object for a new id, then
        sets the property in it. */
    method SetComponentStyle(id: string, property: string, value: string)
      requires Valid()
      modifies this
      ensures Valid()
      ensures customStyles == Set(old(customStyles), id, Set(old(GetComponentStyles(id)), property, value))
      ensures globalStyles == old(globalStyles)
      ensures Lookup(GetComponentStyles(id), property) == Some(value)
      ensures forall p :: p != property ==> Lookup(GetComponentStyles(id), p) == Lookup(old(GetComponentStyles(id)), p)
      ensures forall other :: other != id ==> GetComponentStyles(other) == old(GetComponentStyles(other))
    {
      ghost var cs := customStyles;
      var decls := GetComponentStyles(id);
      var updated := Set(decls, property, value);
      customStyles := Set(customStyles, id, updated);
      assert DistinctKeys(decls) by {
        if id in Keys(cs) {
          var i :| 0 <= i < |cs| && cs[i] == (id, decls);
        }
      }
      SetKeepsDistinct(decls, property, value);
      PutKeepsWellFormed(cs, id, updated);
      SetLookup(cs, id, updated, id);
      SetLookup(decls, property, value, property);
      forall p | p != property
        ensures Lookup(updated, p) == Lookup(decls, p)
      {
        SetLookup(decls, property, value, p);
      }
      forall other | other != id
        ensures Lookup(customStyles, other) == Lookup(cs, other)
      {
        SetLookup(cs, id, updated, other);
      }
    }

    /** `removeComponentStyle`: deletes the property from a known id's style
        object; an unknown id is left unknown. */
    method RemoveComponentStyle(id: string, property: string)
      requires Valid()
      modifies this
      ensures Valid()
      ensures id !in Keys(old(customStyles)) ==> customStyles == old(customStyles)
      ensures id in Keys(old(customStyles)) ==>
        customStyles == Set(old(customStyles), id, Remove(old(GetComponentStyles(id)), property))
      ensures globalStyles == old(globalStyles)
      ensures Lookup(GetComponentStyles(id), property) == None
      ensures forall p :: p != property ==> Lookup(GetComponentStyles(id), p) == Lookup(old(GetComponentStyles(id)), p)
      ensures forall other :: other != id ==> GetComponentStyles(other) == old(GetComponentStyles(other))
    {
      ghost var cs := customStyles;
      var known := Lookup(customStyles, id);
      if known.Some? {
        var decls := known.value;
        var updated := Remove(decls, property);
        customStyles := Set(customStyles, id, updated);
        RemoveKeepsWellFormed(cs, id, property);
        SetLookup(cs, id, updated, id);
        RemoveLookup(decls, property, property);
        forall p | p != property
          ensures Lookup(updated, p) == Lookup(decls, p)
        {
          RemoveLookup(decls, property, p);
        }
        forall other | other != id
          ensures Lookup(customStyles, other) == Lookup(cs, other)
        {
          SetLookup(cs, id, updated, other);
        }
      }
    }

    /** `exportStyles`: a copy of the global record and the overrides as an object. */
    function ExportStyles(): (r: StyleExport)
      reads this
      ensures forall k :: Lookup(r.global, k) == GetGlobalStyle(k)
      ensures forall id :: Lookup(r.components, id).GetOr([]) == GetComponentStyles(id)
    {
      StyleExport(globalStyles, customStyles)
    }

    /** `importStyles`: sets every given global value, and replaces the whole
        style object of every listed component. */
    method ImportStyles(styles: StyleImport)
      requires Valid()
      requires styles.global.Some? ==> DistinctKeys(styles.global.value)
      requires styles.components.Some? ==> WellFormedComponents(styles.components.value)
      modifies this, root
      ensures Valid()
      ensures globalStyles == SetAll(old(globalStyles), styles.global.GetOr([]))
      ensures root.properties == Published(old(root.properties), styles.global.GetOr([]))
      ensures customStyles == SetAll(old(customStyles), styles.components.GetOr([]))
      ensures styles == StyleImport(Some(old(globalStyles)), Some(old(customStyles))) ==>
        globalStyles == old(globalStyles) && customStyles == old(customStyles)
    {
      ghost var g, cs := globalStyles, customStyles;
      SetAllOwnEntries(g, |g|);
      SetAllOwnEntries(cs, |cs|);
      assert g[..|g|] == g && cs[..|cs|] == cs;
      if styles.global.Some? {
        SetGlobalStyles(styles.global.value);
      }
      if styles.components.Some? {
        var components := styles.components.value;
        var k := 0;
        while k < |components|
          invariant 0 <= k <= |components| && Valid()
          invariant customStyles == SetAll(old(customStyles), components[..k])
          invariant globalStyles == SetAll(old(globalStyles), styles.global.GetOr([]))
          invariant root.properties == Published(old(root.properties), styles.global.GetOr([]))
        {
          ghost var cs := customStyles;
          customStyles := Set(customStyles, components[k].0, components[k].1);
          PutKeepsWellFormed(cs, components[k].0, components[k].1);
          assert components[..k + 1][..k] == components[..k];
          k := k + 1;
        }
        assert components[..k] == components;
      }
    }

    /** `resetStyles`: no overrides, the default global values, published again. */
    method ResetStyles()
      modifies this, root
      ensures Valid()
      ensures customStyles == [] && globalStyles == DefaultGlobals()
      ensures root.properties == Published(old(root.properties), DefaultGlobals())
    {
      customStyles := [];
      globalStyles := DefaultGlobals();
      LoadDefaultStyles();
    }

    /** `applyPreset`: a known preset's values are set one after the other;
        an unknown name changes nothing. */
    method ApplyPreset(name: string)
      requires Valid()
      modifies this, root
      ensures Valid() && customStyles == old(customStyles)
      ensures Lookup(Presets(), name).None? ==>
        globalStyles == old(globalStyles) && root.properties == old(root.properties)
      ensures Lookup(Presets(), name).Some? ==>
        globalStyles == SetAll(old(globalStyles), Lookup(Presets(), name).value) &&
        root.properties == Published(old(root.properties), Lookup(Presets(), name).value)
    {
      var preset := Lookup(Presets(), name);
      if preset.Some? {
        SetGlobalStyles(preset.value);
      }
    }

    /** `generateStyleSheet` */
    method GenerateStyleSheet() returns (css: string)
      ensures css == StyleSheet(globalStyles, customStyles)
    {
      var lines := "";
      var k := 0;
      while k < |globalStyles|
        invariant 0 <= k <= |globalStyles|
        invariant lines == Concat(globalStyles[..k], RootLine)
      {
        lines := lines + RootLine(globalStyles[k]);
        assert globalStyles[..k + 1][..k] == globalStyles[..k];
        k := k + 1;
      }
      assert globalStyles[..k] == globalStyles;
      var rules := "";
      var c := 0;
      while c < |customStyles|
        invariant 0 <= c <= |customStyles|
        invariant rules == Concat(customStyles[..c], RuleIfAny)
      {
        var id, decls := customStyles[c].0, customStyles[c].1;
        assert customStyles[..c + 1][..c] == customStyles[..c];
        if |decls| > 0 {
          var body := WriteDeclarations(decls);
          rules := rules + (RuleHeader(id) + body + "}\n\n");
        }
        c := c + 1;
      }
      assert customStyles[..c] == customStyles;
      css := ":root {\n" + lines + "}\n\n" + rules;
    }
  }

  /** Setting one component's whole style object keeps keys distinct. */
  lemma PutKeepsWellFormed(components: seq<(string, Declarations)>, id: string, decls: Declarations)
    requires WellFormedComponents(components) && DistinctKeys(decls)
    ensures WellFormedComponents(Set(components, id, decls))
  {
    var r := Set(components, id, decls);
    SetKeepsDistinct(components, id, decls);
    forall i | 0 <= i < |r|
      ensures DistinctKeys(r[i].1)
    {
      SetEntries(components, id, decls, r[i]);
    }
  }

  /** Deleting a property from a known component keeps keys distinct. */
  lemma RemoveKeepsWellFormed(components: seq<(string, Declarations)>, id: string, property: string)
    requires WellFormedComponents(components) && Lookup(components, id).Some?
    ensures WellFormedComponents(Set(components, id, Remove(Lookup(components, id).value, property)))
  {
    var decls := Lookup(components, id).value;
    RemoveKeepsDistinct(decls, property);
    PutKeepsWellFormed(components, id, Remove(decls, property));
  }
}
