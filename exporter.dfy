/** The exporter (js/exporter.js, class `PageExporter`): the page settings it
    starts from, the stylesheet and script it writes, and the document it
    assembles around the cleaned page. */
module Exporter {
  import opened Common
  import opened Dom
  import opened OrderedMaps
  import opened ExportClean
  import opened ExportMinify
  import Styler

  /** The three options the export dialog offers. */
  datatype ExportSettings = ExportSettings(removeEditorStyles: bool, minifyCss: bool, includeFaqJs: bool)

  /** The document's title, meta description and favicon address. */
  datatype PageSettings = PageSettings(title: string, description: string, favicon: string)

  /** A piece of script text; each of the exporter's script pieces has text. */
  type Script = s: string | s != [] witness "\n"

  /** The fixed text the exporter writes: its base and component
      stylesheets and the three pieces of its script. */
  datatype ExportTexts = ExportTexts(
    baseCss: string, componentCss: string,
    menuJs: Script, faqJs: Script, scrollJs: Script)

  /** What a `PageExporter` holds: the page, the global style values it was
      given and the page settings. */
  datatype PageExporter = PageExporter(
    landingPage: seq<Node>, globalStyles: seq<(string, string)>, pageSettings: PageSettings)

  /** `value || fallback` for a form field's value that may be missing. */
  function ValueOr(value: Option<string>, fallback: string): (r: string)
    ensures r == fallback || (value.Some? && r == value.value && r != "")
  {
    if value.Some? && value.value != "" then value.value else fallback
  }

  const DefaultTitle := "My Landing Page"
  const DefaultDescription := "A beautifully crafted landing page"

  /** The page settings the constructor reads from the three form fields;
      a missing or empty field falls back to its default. */
  function NewPageSettings(title: Option<string>, description: Option<string>, favicon: Option<string>): (r: PageSettings)
    ensures r.title != "" && r.description != ""
    ensures title.Some? && title.value != "" ==> r.title == title.value
    ensures (title.None? || title.value == "") ==> r.title == DefaultTitle
    ensures description.Some? && description.value != "" ==> r.description == description.value
    ensures (description.None? || description.value == "") ==> r.description == DefaultDescription
    ensures r.favicon == (if favicon.Some? then favicon.value else "")
  {
    PageSettings(ValueOr(title, DefaultTitle), ValueOr(description, DefaultDescription), ValueOr(favicon, ""))
  }

  /** `getPropertyValue`: the empty string for a property that is not set. */
  function PropertyValue(props: map<string, string>, name: string): string {
    if name in props then props[name] else ""
  }

  /** The global style values the editor hands the exporter: each of the four
      custom properties as the root element currently has it. */
  function ComputedGlobals(props: map<string, string>): (r: seq<(string, string)>)
    ensures Keys(r) == ["primaryColor", "secondaryColor", "fontFamily", "baseFontSize"]
  {
    [("primaryColor", PropertyValue(props, "--primary-color")),
     ("secondaryColor", PropertyValue(props, "--secondary-color")),
     ("fontFamily", PropertyValue(props, "--font-family")),
     ("baseFontSize", PropertyValue(props, "--base-font-size"))]
  }

  // ---------------------------------------------------------------------
  // The stylesheet.

  /** A global style value, or `fallback` when it is missing or empty. */
  function GlobalValue(globals: seq<(string, string)>, key: string, fallback: string): (r: string)
    ensures Lookup(globals, key).Some? && Lookup(globals, key).value != "" ==> r == Lookup(globals, key).value
    ensures key !in Keys(globals) || Lookup(globals, key).value == "" ==> r == fallback
  {
    ValueOr(Lookup(globals, key), fallback)
  }

  /** One custom-property line of the exported `:root` block. */
  function VariableLine(property: string, value: string): string {
    "    --" + property + ": " + value + ";\n"
  }

  const RootHeader := "\n/* Global Variables */\n:root {\n"

  /** The exported `:root` block for four values. */
  function RootBlock(primary: string, secondary: string, font: string, size: string): string {
    RootHeader + VariableLine("primary-color", primary) + VariableLine("secondary-color", secondary) +
      VariableLine("font-family", font) + VariableLine("base-font-size", size) + "}\n"
  }

  /** `getGlobalVariablesCSS()` */
  function GlobalVariablesCss(globals: seq<(string, string)>): string {
    RootBlock(GlobalValue(globals, "primaryColor", "#007bff"), GlobalValue(globals, "secondaryColor", "#6c757d"),
              GlobalValue(globals, "fontFamily", "Inter"), GlobalValue(globals, "baseFontSize", "16px"))
  }

  /** Each line of the `:root` block is in the exported stylesheet block. */
  lemma RootBlockHasLines(primary: string, secondary: string, font: string, size: string)
    ensures Contains(RootBlock(primary, secondary, font, size), VariableLine("primary-color", primary))
    ensures Contains(RootBlock(primary, secondary, font, size), VariableLine("secondary-color", secondary))
    ensures Contains(RootBlock(primary, secondary, font, size), VariableLine("font-family", font))
    ensures Contains(RootBlock(primary, secondary, font, size), VariableLine("base-font-size", size))
  {
    var l1, l2, l3, l4 := VariableLine("primary-color", primary), VariableLine("secondary-color", secondary),
                          VariableLine("font-family", font), VariableLine("base-font-size", size);
    var block := RootBlock(primary, secondary, font, size);
    assert OccursAt(block, l1, |RootHeader|);
    assert OccursAt(block, l2, |RootHeader| + |l1|);
    assert OccursAt(block, l3, |RootHeader| + |l1| + |l2|);
    assert OccursAt(block, l4, |RootHeader| + |l1| + |l2| + |l3|);
  }

  /** Globals without any of the four keys: the block holds the defaults. */
  lemma GlobalVariablesCssDefaults(globals: seq<(string, string)>)
    requires forall k :: k in Keys(globals) ==> k !in ["primaryColor", "secondaryColor", "fontFamily", "baseFontSize"]
    ensures GlobalVariablesCss(globals) == RootBlock("#007bff", "#6c757d", "Inter", "16px")
  {
    assert "primaryColor" !in Keys(globals) && "secondaryColor" !in Keys(globals);
    assert "fontFamily" !in Keys(globals) && "baseFontSize" !in Keys(globals);
  }

  /** Globals with all four keys set to non-empty values: the block holds
      exactly those values. */
  lemma GlobalVariablesCssOfSet(globals: seq<(string, string)>, primary: string, secondary: string, font: string, size: string)
    requires Lookup(globals, "primaryColor") == Some(primary) && primary != ""
    requires Lookup(globals, "secondaryColor") == Some(secondary) && secondary != ""
    requires Lookup(globals, "fontFamily") == Some(font) && font != ""
    requires Lookup(globals, "baseFontSize") == Some(size) && size != ""
    ensures GlobalVariablesCss(globals) == RootBlock(primary, secondary, font, size)
  {
  }

  lemma FourUpdates(props: map<string, string>, k1: string, k2: string, k3: string, k4: string,
                    v1: string, v2: string, v3: string, v4: string)
    requires k1 != k2 && k1 != k3 && k1 != k4 && k2 != k3 && k2 != k4 && k3 != k4
    ensures var m := props[k1 := v1][k2 := v2][k3 := v3][k4 := v4];
      PropertyValue(m, k1) == v1 && PropertyValue(m, k2) == v2 &&
      PropertyValue(m, k3) == v3 && PropertyValue(m, k4) == v4
  {
  }

  /** What the exported `:root` block holds for the root element's custom
      properties `props`: each property's value, or the default when the
      property is unset or empty. */
  lemma ExportOfProperties(props: map<string, string>)
    ensures GlobalVariablesCss(ComputedGlobals(props)) ==
      RootBlock(ValueOr(Some(PropertyValue(props, "--primary-color")), "#007bff"),
                ValueOr(Some(PropertyValue(props, "--secondary-color")), "#6c757d"),
                ValueOr(Some(PropertyValue(props, "--font-family")), "Inter"),
                ValueOr(Some(PropertyValue(props, "--base-font-size")), "16px"))
  {
    var globals := ComputedGlobals(props);
    var p, q, f, z := "primaryColor", "secondaryColor", "fontFamily", "baseFontSize";
    assert p[0] == 'p' && q[0] == 's' && f[0] == 'f' && z[0] == 'b';
    assert globals[0].0 == p && globals[1].0 == q && globals[2].0 == f && globals[3].0 == z;
    assert Lookup(globals[3..], z) == Some(globals[3].1);
    assert Lookup(globals[2..], f) == Some(globals[2].1) && Lookup(globals[2..], z) == Lookup(globals[3..], z);
    assert Lookup(globals[1..], q) == Some(globals[1].1);
    assert Lookup(globals[1..], f) == Lookup(globals[2..], f) && Lookup(globals[1..], z) == Lookup(globals[2..], z);
    assert Lookup(globals, p) == Some(globals[0].1);
    assert Lookup(globals, q) == Lookup(globals[1..], q);
    assert Lookup(globals, f) == Lookup(globals[1..], f) && Lookup(globals, z) == Lookup(globals[1..], z);
  }

  /** The root element's custom properties with the four defaults set: the
      exported `:root` block holds those defaults. */
  lemma DefaultPropertiesExport(props: map<string, string>)
    ensures var m := props["--primary-color" := "#007bff"]["--secondary-color" := "#6c757d"]
                          ["--font-family" := "Inter"]["--base-font-size" := "16px"];
      GlobalVariablesCss(ComputedGlobals(m)) == RootBlock("#007bff", "#6c757d", "Inter", "16px")
  {
    var p, q, f, z := "--primary-color", "--secondary-color", "--font-family", "--base-font-size";
    assert p[2] == 'p' && q[2] == 's' && f[2] == 'f' && z[2] == 'b';
    FourUpdates(props, p, q, f, z, "#007bff", "#6c757d", "Inter", "16px");
    ExportOfProperties(props[p := "#007bff"][q := "#6c757d"][f := "Inter"][z := "16px"]);
  }

  /** The values the style manager publishes by default reach the exported
      `:root` block unchanged when the editor hands them to the exporter. */
  lemma ManagerDefaultsReachExport(props: map<string, string>)
    ensures GlobalVariablesCss(ComputedGlobals(Styler.Published(props, Styler.DefaultGlobals()))) ==
      RootBlock("#007bff", "#6c757d", "Inter", "16px")
  {
    Styler.PublishedDefaults(props);
    DefaultPropertiesExport(props);
  }

  /** `generateCSS(settings)` */
  function GenerateCss(texts: ExportTexts, globals: seq<(string, string)>, settings: ExportSettings): string {
    var css := texts.baseCss + texts.componentCss + GlobalVariablesCss(globals);
    if settings.minifyCss then MinifyCss(css) else css
  }

  /** The stylesheet is base, component and `:root` text in that order, and
      minified, with the minifier's guarantees, exactly when asked. */
  lemma GenerateCssShape(texts: ExportTexts, globals: seq<(string, string)>, settings: ExportSettings)
    ensures var css := texts.baseCss + texts.componentCss + GlobalVariablesCss(globals);
      GenerateCss(texts, globals, settings) == (if settings.minifyCss then MinifyCss(css) else css)
    ensures settings.minifyCss ==> var r := GenerateCss(texts, globals, settings);
      |r| <= |texts.baseCss| + |texts.componentCss| + |GlobalVariablesCss(globals)| &&
      (r == [] || (!IsSpace(r[0]) && !IsSpace(r[|r| - 1]))) &&
      SingleSpaced(r) && NoSpaceBeside(r, '{') && NoSpaceAfter(r, ';') && NoSpaceAfter(r, ',')
  {
    MinifyCssShape(texts.baseCss + texts.componentCss + GlobalVariablesCss(globals));
  }

  // ---------------------------------------------------------------------
  // The script.

  /** `generateJS(includeFAQJS)`: menu code, the FAQ code when asked for,
      then the smooth-scrolling code. */
  function GenerateJs(texts: ExportTexts, includeFaqJs: bool): (js: string)
    ensures js != []
  {
    texts.menuJs + (if includeFaqJs then texts.faqJs else "") + texts.scrollJs
  }

  /** The FAQ code is in the script exactly when it was asked for (given
      that the menu and scrolling code do not themselves contain it). */
  lemma FaqJsPresentIff(texts: ExportTexts, includeFaqJs: bool)
    requires !Contains(texts.menuJs + texts.scrollJs, texts.faqJs)
    ensures Contains(GenerateJs(texts, includeFaqJs), texts.faqJs) <==> includeFaqJs
    ensures Contains(GenerateJs(texts, includeFaqJs), texts.menuJs)
    ensures Contains(GenerateJs(texts, includeFaqJs), texts.scrollJs)
  {
    var menu, faq, scroll := texts.menuJs, texts.faqJs, texts.scrollJs;
    if includeFaqJs {
      assert GenerateJs(texts, includeFaqJs) == menu + faq + scroll;
      ContainsEachOfThree(menu, faq, scroll);
    } else {
      assert GenerateJs(texts, includeFaqJs) == menu + scroll;
      ContainsEachOfTwo(menu, scroll);
    }
  }

  lemma ContainsEachOfThree(a: string, b: string, c: string)
    ensures Contains(a + b + c, a) && Contains(a + b + c, b) && Contains(a + b + c, c)
  {
    ContainsMiddle(a, b, c);
    ContainsMiddle([], a, b + c);
    ContainsMiddle(a + b, c, []);
    assert [] + a + (b + c) == a + b + c;
    assert a + b + c + [] == a + b + c;
  }

  lemma ContainsEachOfTwo(a: string, b: string)
    ensures Contains(a + b, a) && Contains(a + b, b)
  {
    ContainsMiddle([], a, b);
    ContainsMiddle(a, b, []);
    assert [] + a + b == a + b;
    assert a + b + [] == a + b;
  }

  // ---------------------------------------------------------------------
  // The document.

  function FaviconLink(favicon: string): (r: string)
    ensures r != "" <==> favicon != ""
  {
    if favicon == "" then "" else "<link rel=\"icon\" href=\"" + favicon + "\">"
  }

  function ScriptElement(js: string): (r: string)
    ensures js != "" ==> r == "<script>\n" + js + "\n</script>"
  {
    if js == "" then "" else "<script>\n" + js + "\n</script>"
  }

  // The fixed text of the document template, between its interpolations.
  const DocumentHead := "<!DOCTYPE html>\n<html lang=\"en\">\n<head>\n    <meta charset=\"UTF-8\">\n    <meta name=\"viewport\" content=\"width=device-width, initial-scale=1.0\">\n    <title>"
  const AfterTitle := "</title>\n    <meta name=\"description\" content=\""
  const AfterDescription := "\">\n    "
  const AfterFavicon := "\n    <link href=\"https://fonts.googleapis.com/css2?family=Inter:wght@300;400;500;600;700&display=swap\" rel=\"stylesheet\">\n    <link rel=\"stylesheet\" href=\"https://cdnjs.cloudflare.com/ajax/libs/font-awesome/6.0.0/css/all.min.css\">\n    <style>\n"
  const AfterCss := "\n    </style>\n</head>\n<body>\n    <div class=\"landing-page\">\n"
  const AfterBody := "\n    </div>\n    "
  const DocumentTail := "\n</body>\n</html>"

  /** The document template of `generateHTML`, cut at its interpolations. */
  function HtmlPieces(title: string, description: string, favicon: string, css: string, body: string, js: string): (r: seq<string>)
    ensures |r| == 13
    ensures r[1] == title && r[3] == description && r[5] == FaviconLink(favicon)
    ensures r[7] == css && r[9] == body && r[11] == ScriptElement(js)
  {
    [DocumentHead, title, AfterTitle, description, AfterDescription, FaviconLink(favicon), AfterFavicon,
     css, AfterCss, body, AfterBody, ScriptElement(js), DocumentTail]
  }

  function Verbatim(s: string): string { s }

  /** `generateHTML(settings)`; `serialize` stands for reading `innerHTML`. */
  function GenerateHtml(exporter: PageExporter, settings: ExportSettings, texts: ExportTexts,
                        serialize: seq<Node> -> string): string
  {
    var page := exporter.pageSettings;
    var body := serialize(CleanHtml(exporter.landingPage, settings.removeEditorStyles));
    Concat(HtmlPieces(page.title, page.description, page.favicon,
                      GenerateCss(texts, exporter.globalStyles, settings), body,
                      GenerateJs(texts, settings.includeFaqJs)), Verbatim)
  }

  lemma PieceOccurs(pieces: seq<string>, i: int)
    requires 0 <= i < |pieces|
    ensures Contains(Concat(pieces, Verbatim), pieces[i])
  {
    ConcatAround(pieces, i, Verbatim);
    ContainsMiddle(Concat(pieces[..i], Verbatim), pieces[i], Concat(pieces[i + 1..], Verbatim));
  }

  /** The document carries the title, description, stylesheet and cleaned
      page verbatim, always a script element, and a favicon link exactly
      when a favicon address was given. */
  lemma GenerateHtmlContents(exporter: PageExporter, settings: ExportSettings, texts: ExportTexts,
                             serialize: seq<Node> -> string)
    ensures var html := GenerateHtml(exporter, settings, texts, serialize);
      Contains(html, exporter.pageSettings.title) && Contains(html, exporter.pageSettings.description)
    ensures var html := GenerateHtml(exporter, settings, texts, serialize);
      Contains(html, GenerateCss(texts, exporter.globalStyles, settings)) &&
      Contains(html, serialize(CleanHtml(exporter.landingPage, settings.removeEditorStyles)))
    ensures var html := GenerateHtml(exporter, settings, texts, serialize);
      Contains(html, "<script>\n" + GenerateJs(texts, settings.includeFaqJs) + "\n</script>")
    ensures var html := GenerateHtml(exporter, settings, texts, serialize);
      exporter.pageSettings.favicon != "" ==>
        Contains(html, "<link rel=\"icon\" href=\"" + exporter.pageSettings.favicon + "\">")
  {
    var page := exporter.pageSettings;
    var body := serialize(CleanHtml(exporter.landingPage, settings.removeEditorStyles));
    var css := GenerateCss(texts, exporter.globalStyles, settings);
    var js := GenerateJs(texts, settings.includeFaqJs);
    var pieces := HtmlPieces(page.title, page.description, page.favicon, css, body, js);
    PieceOccurs(pieces, 1);
    PieceOccurs(pieces, 3);
    PieceOccurs(pieces, 5);
    PieceOccurs(pieces, 7);
    PieceOccurs(pieces, 9);
    PieceOccurs(pieces, 11);
  }

  /** With no favicon address the document is the same as with the link
      slot left empty: no favicon link is written. */
  lemma GenerateHtmlWithoutFavicon(exporter: PageExporter, settings: ExportSettings, texts: ExportTexts,
                                   serialize: seq<Node> -> string)
    requires exporter.pageSettings.favicon == ""
    ensures var page := exporter.pageSettings;
      var pieces := HtmlPieces(page.title, page.description, page.favicon,
                               GenerateCss(texts, exporter.globalStyles, settings),
                               serialize(CleanHtml(exporter.landingPage, settings.removeEditorStyles)),
                               GenerateJs(texts, settings.includeFaqJs));
      GenerateHtml(exporter, settings, texts, serialize) == Concat(pieces[..5] + pieces[6..], Verbatim)
  {
    var page := exporter.pageSettings;
    var pieces := HtmlPieces(page.title, page.description, page.favicon,
                             GenerateCss(texts, exporter.globalStyles, settings),
                             serialize(CleanHtml(exporter.landingPage, settings.removeEditorStyles)),
                             GenerateJs(texts, settings.includeFaqJs));
    assert Verbatim(pieces[5]) == [];
    ConcatSkip(pieces, 5, Verbatim);
  }
}
