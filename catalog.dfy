/** The component catalog (js/components.js): a constant table of eight block
    types, each with a name, a category, its editable fields and, for two of
    them, style options; the template each type is instantiated from; and the
    queries over the table. */
module Catalog {
  import opened Common
  import opened Dom
  import opened OrderedMaps

  datatype FieldKind = TextField | TextareaField | ImageField

  datatype FieldSpec = FieldSpec(kind: FieldKind, labelText: string)

  /** Every style option in the table is a `select` over a list of class names. */
  datatype StyleSpec = SelectStyle(options: seq<string>)

  datatype Definition = Definition(
    name: string,
    category: string,
    fields: seq<(string, FieldSpec)>,
    styles: Option<seq<(string, StyleSpec)>>)

  // ---------------------------------------------------------------------
  // Template builders: the pieces every template repeats. Each states the
  // `data-field` slots it contributes, so that a template's slots follow
  // from how it is put together.

  /** The `data-field` values of a tree, in document order. */
  function FieldSlots(n: Node): seq<string> {
    match n
    case Text(_) => []
    case Element(_, _, attrs, children) =>
      (if "data-field" in attrs then [attrs["data-field"]] else []) + FieldSlotsOf(children)
  }

  function FieldSlotsOf(f: seq<Node>): seq<string> {
    if f == [] then [] else FieldSlots(f[0]) + FieldSlotsOf(f[1..])
  }

  lemma SlotsOfCons(x: Node, rest: seq<Node>)
    ensures FieldSlotsOf([x] + rest) == FieldSlots(x) + FieldSlotsOf(rest)
  {
    assert ([x] + rest)[1..] == rest;
  }

  function Kids1(a: Node): (r: seq<Node>)
    ensures FieldSlotsOf(r) == FieldSlots(a)
  {
    SlotsOfCons(a, []);
    assert [a] + [] == [a];
    [a]
  }

  function Kids2(a: Node, b: Node): (r: seq<Node>)
    ensures FieldSlotsOf(r) == FieldSlots(a) + FieldSlots(b)
  {
    SlotsOfCons(a, Kids1(b));
    [a] + Kids1(b)
  }

  function Kids3(a: Node, b: Node, c: Node): (r: seq<Node>)
    ensures FieldSlotsOf(r) == FieldSlots(a) + FieldSlots(b) + FieldSlots(c)
  {
    SlotsOfCons(a, Kids2(b, c));
    [a] + Kids2(b, c)
  }

  function Kids5(a: Node, b: Node, c: Node, d: Node, e: Node): (r: seq<Node>)
    ensures FieldSlotsOf(r) == FieldSlots(a) + FieldSlots(b) + FieldSlots(c) + FieldSlots(d) + FieldSlots(e)
  {
    SlotsOfCons(a, [b] + Kids3(c, d, e));
    SlotsOfCons(b, Kids3(c, d, e));
    [a] + ([b] + Kids3(c, d, e))
  }

  function Icon(name: string): (r: Node)
    ensures FieldSlots(r) == []
  {
    Element("i", ["fas", name], map[], [])
  }

  function Span(): (r: Node)
    ensures FieldSlots(r) == []
  {
    Element("span", [], map[], [])
  }

  function Para(text: string): (r: Node)
    ensures FieldSlots(r) == []
  {
    Element("p", [], map[], Kids1(Text(text)))
  }

  function ControlButton(action: string, title: string, icon: string): (r: Node)
    ensures FieldSlots(r) == []
  {
    Element("button", ["control-btn"], map["data-action" := action, "title" := title], Kids1(Icon(icon)))
  }

  /** The edit / duplicate / delete buttons shown on every component in the editor. */
  function Controls(): (r: Node)
    ensures FieldSlots(r) == []
  {
    Element("div", ["component-controls"], map[], Kids3(
      ControlButton("edit", "Edit", "fa-edit"),
      ControlButton("duplicate", "Duplicate", "fa-copy"),
      ControlButton("delete", "Delete", "fa-trash")))
  }

  function DragHandle(): (r: Node)
    ensures FieldSlots(r) == []
  {
    Element("div", ["drag-handle"], map[], Kids1(Icon("fa-grip-vertical")))
  }

  /** An image slot that shows a caption until an image is chosen. */
  function ImagePlaceholder(extra: seq<string>, field: string, caption: string): (r: Node)
    ensures FieldSlots(r) == [field]
  {
    Element("div", ["image-placeholder"] + extra, map["data-field" := field], Kids2(Icon("fa-image"), Para(caption)))
  }

  /** An in-place editable text element bound to a field. */
  function Editable(tag: string, classes: seq<string>, attrs: map<string, string>, field: string, text: string): (r: Node)
    ensures FieldSlots(r) == [field]
  {
    Element(tag, classes + ["editable"], attrs["data-field" := field], Kids1(Text(text)))
  }

  function Div(classes: seq<string>, children: seq<Node>): (r: Node)
    ensures FieldSlots(r) == FieldSlotsOf(children)
  {
    Element("div", classes, map[], children)
  }

  /** A component's root: its classes end with `component`, it names its
      type, and it holds the controls, the drag handle and a container. */
  function Root(tag: string, classes: seq<string>, id: Option<string>, key: string, body: seq<Node>): (r: Node)
    ensures r.Element? && "component" in r.classes
    ensures "data-component" in r.attrs && r.attrs["data-component"] == key
    ensures FieldSlots(r) == FieldSlotsOf(body)
  {
    var attrs := if id.Some? then map["id" := id.value, "data-component" := key] else map["data-component" := key];
    Element(tag, classes + ["component"], attrs, Kids3(Controls(), DragHandle(), Div(["container"], body)))
  }

  function LogoItem(field: string, caption: string): (r: Node)
    ensures FieldSlots(r) == [field]
  {
    Div(["logo-item"], Kids1(ImagePlaceholder([], field, caption)))
  }

  function BenefitItem(image: string, caption: string, title: string, heading: string, text: string, body: string): (r: Node)
    ensures FieldSlots(r) == [image, title, text]
  {
    Div(["benefit-item"], Kids3(
      ImagePlaceholder(["benefit-image"], image, caption),
      Editable("h3", [], map[], title, heading),
      Editable("p", [], map[], text, body)))
  }

  function ProcessStep(icon: string, title: string, heading: string, text: string, body: string): (r: Node)
    ensures FieldSlots(r) == [title, text]
  {
    Div(["process-step"], Kids3(
      Div(["step-icon"], Kids1(Icon(icon))),
      Editable("h3", [], map[], title, heading),
      Editable("p", [], map[], text, body)))
  }

  /** One question and answer; the question's field sits on the button, the
      editable text on the span inside it. */
  function FaqItem(question: string, questionCopy: string, answer: string, answerCopy: string): (r: Node)
    ensures FieldSlots(r) == [question, answer]
  {
    var questionText := Element("span", ["editable"], map[], [Text(questionCopy)]);
    SlotsOfCons(Text(questionCopy), []);
    assert [Text(questionCopy)] + [] == [Text(questionCopy)];
    Div(["faq-item"], Kids2(
      Element("button", ["faq-question"], map["data-field" := question], Kids1(questionText)),
      Div(["faq-answer"], Kids1(Editable("p", [], map[], answer, answerCopy)))))
  }

  // ---------------------------------------------------------------------
  // The placeholder copy of the templates (link texts, headings,
  // paragraphs, image captions). Nothing depends on its wording, so each
  // piece is a named constant whose text the model leaves open.

  const LogoCaption: string
  const Nav1Copy: string
  const Nav2Copy: string
  const Nav3Copy: string
  const HeaderCtaCopy: string
  const HeroTitleCopy: string
  const HeroSubtitleCopy: string
  const HeroCtaCopy: string
  const HeroImageCaption: string
  const TrustTitleCopy: string
  const LogoItemCaption: string
  const BenefitsTitleCopy: string
  const BenefitImageCaption: string
  const Benefit1TitleCopy: string
  const Benefit1TextCopy: string
  const Benefit2TitleCopy: string
  const Benefit2TextCopy: string
  const Benefit3TitleCopy: string
  const Benefit3TextCopy: string
  const ProcessTitleCopy: string
  const Step1TitleCopy: string
  const Step1TextCopy: string
  const Step2TitleCopy: string
  const Step2TextCopy: string
  const Step3TitleCopy: string
  const Step3TextCopy: string
  const QuoteCopy: string
  const AuthorCopy: string
  const CompanyCopy: string
  const FaqTitleCopy: string
  const Question1Copy: string
  const Answer1Copy: string
  const Question2Copy: string
  const Answer2Copy: string
  const Question3Copy: string
  const Answer3Copy: string
  const FooterLogoCaption: string
  const FooterDescriptionCopy: string
  const CopyrightCopy: string

  // ---------------------------------------------------------------------
  // The eight templates (js/components.js:6-47, 65-96, 113-164, 179-224,
  // 243-285, 301-324, 336-381, 397-427), as the trees they parse to.

  const HeaderTemplate: Node :=
    Root("header", ["header-section"], None, "header", Kids1(
      Element("nav", ["navbar"], map[], Kids3(
        Div(["navbar-brand"], Kids1(ImagePlaceholder(["brand-logo"], "logo", LogoCaption))),
        Div(["navbar-menu"], Kids2(
          Div(["navbar-nav"], Kids3(
            Editable("a", ["nav-link"], map["href" := "#hero"], "nav1", Nav1Copy),
            Editable("a", ["nav-link"], map["href" := "#benefits"], "nav2", Nav2Copy),
            Editable("a", ["nav-link"], map["href" := "#faq"], "nav3", Nav3Copy))),
          Div(["navbar-cta"], Kids1(
            Editable("a", ["cta-button"], map["href" := "#"], "header_cta", HeaderCtaCopy))))),
        Div(["mobile-menu-toggle"], Kids3(Span(), Span(), Span()))))))

  const HeroTemplate: Node :=
    Root("section", ["hero-section", "section", "large"], Some("hero"), "hero", Kids1(
      Div(["hero-grid"], Kids2(
        Div(["hero-content"], Kids3(
          Editable("h1", [], map[], "title", HeroTitleCopy),
          Editable("p", [], map[], "subtitle", HeroSubtitleCopy),
          Editable("a", ["cta-button"], map["href" := "#"], "cta", HeroCtaCopy))),
        Div(["hero-image"], Kids1(ImagePlaceholder(["hero-img"], "hero_image", HeroImageCaption)))))))

  const TrustBadgesTemplate: Node :=
    Root("section", ["trust-badges", "section"], None, "trust-badges", Kids2(
      Editable("h2", [], map[], "title", TrustTitleCopy),
      Div(["logos-grid"], Kids5(
        LogoItem("logo1", LogoItemCaption), LogoItem("logo2", LogoItemCaption), LogoItem("logo3", LogoItemCaption),
        LogoItem("logo4", LogoItemCaption), LogoItem("logo5", LogoItemCaption)))))

  const BenefitsTemplate: Node :=
    Root("section", ["benefits-section", "section"], Some("benefits"), "benefits", Kids2(
      Editable("h2", [], map[], "title", BenefitsTitleCopy),
      Div(["benefits-grid"], Kids3(
        BenefitItem("image1", BenefitImageCaption, "benefit1_title", Benefit1TitleCopy, "benefit1_text", Benefit1TextCopy),
        BenefitItem("image2", BenefitImageCaption, "benefit2_title", Benefit2TitleCopy, "benefit2_text", Benefit2TextCopy),
        BenefitItem("image3", BenefitImageCaption, "benefit3_title", Benefit3TitleCopy, "benefit3_text", Benefit3TextCopy)))))

  const ProcessTemplate: Node :=
    Root("section", ["process-section", "section"], None, "process", Kids2(
      Editable("h2", [], map[], "title", ProcessTitleCopy),
      Div(["process-grid"], Kids3(
        ProcessStep("fa-lightbulb", "step1_title", Step1TitleCopy, "step1_text", Step1TextCopy),
        ProcessStep("fa-rocket", "step2_title", Step2TitleCopy, "step2_text", Step2TextCopy),
        ProcessStep("fa-chart-line", "step3_title", Step3TitleCopy, "step3_text", Step3TextCopy)))))

  const TestimonialTemplate: Node :=
    Root("section", ["testimonial-section", "section"], None, "testimonial", Kids1(
      Div(["testimonial-content"], Kids3(
        Editable("div", ["testimonial-quote"], map[], "quote", QuoteCopy),
        Editable("div", ["testimonial-author"], map[], "author", AuthorCopy),
        Editable("div", ["testimonial-company"], map[], "company", CompanyCopy)))))

  const FaqTemplate: Node :=
    Root("section", ["faq-section", "section"], Some("faq"), "faq", Kids2(
      Editable("h2", [], map[], "title", FaqTitleCopy),
      Div(["faq-container"], Kids3(
        FaqItem("question1", Question1Copy, "answer1", Answer1Copy),
        FaqItem("question2", Question2Copy, "answer2", Answer2Copy),
        FaqItem("question3", Question3Copy, "answer3", Answer3Copy)))))

  const FooterTemplate: Node :=
    Root("footer", ["footer-section", "section"], None, "footer", Kids2(
      Div(["footer-content"], Kids1(
        Div([], Kids2(
          ImagePlaceholder(["footer-logo"], "logo", FooterLogoCaption),
          Editable("p", ["footer-text"], map[], "description", FooterDescriptionCopy))))),
      Div(["footer-bottom"], Kids1(
        Editable("p", [], map[], "copyright", CopyrightCopy)))))

  // ---------------------------------------------------------------------
  // The table (js/components.js:2-435), in declaration order.

  function F(key: string, kind: FieldKind, labelText: string): (string, FieldSpec) {
    (key, FieldSpec(kind, labelText))
  }

  function HeaderDefinition(): Definition {
    Definition("Header/Navigation", "header",
      [F("logo", ImageField, "Company Logo"), F("nav1", TextField, "Navigation Link 1"),
       F("nav2", TextField, "Navigation Link 2"), F("nav3", TextField, "Navigation Link 3"),
       F("header_cta", TextField, "Header CTA Button")],
      Some([("background", SelectStyle(["bg-white", "bg-light", "bg-dark", "bg-transparent"])),
            ("position", SelectStyle(["static", "sticky"]))]))
  }

  function HeroDefinition(): Definition {
    Definition("Hero Section", "header",
      [F("title", TextField, "Main Title"), F("subtitle", TextareaField, "Subtitle"),
       F("cta", TextField, "Call to Action"), F("hero_image", ImageField, "Hero Image")],
      Some([("background", SelectStyle(["bg-white", "bg-light", "bg-gradient-blue", "bg-gradient-sunset",
                                        "bg-gradient-ocean", "bg-gradient-forest"])),
            ("textAlign", SelectStyle(["text-center", "text-left", "text-right"]))]))
  }

  function TrustBadgesDefinition(): Definition {
    Definition("Trust Badges", "social-proof",
      [F("title", TextField, "Section Title"), F("logo1", ImageField, "Logo 1"), F("logo2", ImageField, "Logo 2"),
       F("logo3", ImageField, "Logo 3"), F("logo4", ImageField, "Logo 4"), F("logo5", ImageField, "Logo 5")],
      None)
  }

  function BenefitsDefinition(): Definition {
    Definition("Benefits Grid", "content",
      [F("title", TextField, "Section Title"),
       F("image1", ImageField, "Benefit 1 Image"), F("benefit1_title", TextField, "Benefit 1 Title"),
       F("benefit1_text", TextareaField, "Benefit 1 Description"),
       F("image2", ImageField, "Benefit 2 Image"), F("benefit2_title", TextField, "Benefit 2 Title"),
       F("benefit2_text", TextareaField, "Benefit 2 Description"),
       F("image3", ImageField, "Benefit 3 Image"), F("benefit3_title", TextField, "Benefit 3 Title"),
       F("benefit3_text", TextareaField, "Benefit 3 Description")],
      None)
  }

  function ProcessDefinition(): Definition {
    Definition("Process Steps", "content",
      [F("title", TextField, "Section Title"),
       F("step1_title", TextField, "Step 1 Title"), F("step1_text", TextareaField, "Step 1 Description"),
       F("step2_title", TextField, "Step 2 Title"), F("step2_text", TextareaField, "Step 2 Description"),
       F("step3_title", TextField, "Step 3 Title"), F("step3_text", TextareaField, "Step 3 Description")],
      None)
  }

  function TestimonialDefinition(): Definition {
    Definition("Testimonial", "social-proof",
      [F("quote", TextareaField, "Testimonial Quote"), F("author", TextField, "Author Name & Title"),
       F("company", TextField, "Company Name")],
      None)
  }

  function FaqDefinition(): Definition {
    Definition("FAQ Section", "content",
      [F("title", TextField, "Section Title"),
       F("question1", TextField, "Question 1"), F("answer1", TextareaField, "Answer 1"),
       F("question2", TextField, "Question 2"), F("answer2", TextareaField, "Answer 2"),
       F("question3", TextField, "Question 3"), F("answer3", TextareaField, "Answer 3")],
      None)
  }

  function FooterDefinition(): Definition {
    Definition("Footer", "footer",
      [F("logo", ImageField, "Company Logo"), F("description", TextareaField, "Company Description"),
       F("copyright", TextField, "Copyright Text")],
      None)
  }

  /** The `Components` object as its entries, in declaration order. */
  function Components(): seq<(string, Definition)> {
    [("header", HeaderDefinition()), ("hero", HeroDefinition()), ("trust-badges", TrustBadgesDefinition()),
     ("benefits", BenefitsDefinition()), ("process", ProcessDefinition()), ("testimonial", TestimonialDefinition()),
     ("faq", FaqDefinition()), ("footer", FooterDefinition())]
  }

  // ---------------------------------------------------------------------
  // Queries (js/components.js:438-473).

  /** `Object.keys(Components)`: the keys in declaration order. */
  function GetTypes(): (r: seq<string>)
    ensures r == ["header", "hero", "trust-badges", "benefits", "process", "testimonial", "faq", "footer"]
  {
    Keys(Components())
  }

  /** `Components[type] || null` */
  function GetDefinition(key: string): (r: Option<Definition>)
    ensures r.Some? <==> key in GetTypes()
    ensures r.Some? ==> (key, r.value) in Components()
  {
    Lookup(Components(), key)
  }

  /** No key is declared twice, so each entry is what `getDefinition` finds for its key. */
  lemma GetDefinitionOfEachEntry(i: int)
    requires 0 <= i < |Components()|
    ensures GetDefinition(Components()[i].0) == Some(Components()[i].1)
  {
    var keys := GetTypes();
    assert DistinctKeys(Components()) by {
      forall a, b | 0 <= a < b < |Components()|
        ensures Components()[a].0 != Components()[b].0
      {
        assert Components()[a].0 == keys[a] && Components()[b].0 == keys[b];
      }
    }
    LookupFindsEach(Components(), i);
  }

  /** Only the header and hero entries declare style options, and every
      option list they declare is non-empty. */
  lemma OnlyHeaderAndHeroHaveStyles(i: int)
    requires 0 <= i < |Components()|
    ensures Components()[i].1.styles.Some? <==> Components()[i].0 in ["header", "hero"]
    ensures Components()[i].1.styles.Some? ==>
      forall s :: s in Components()[i].1.styles.value ==> s.1.options != []
  {
    var keys := GetTypes();
    assert Components()[i].0 == keys[i];
    if i >= 2 {
      assert Components()[i].1.styles == None;
    }
  }

  /** `Object.entries(Components).filter(([k, c]) => c.category === category)` */
  function GetByCategory(category: string): (r: seq<(string, Definition)>)
    ensures forall e :: e in r <==> e in Components() && e.1.category == category
  {
    FilterByCategory(Components(), category)
  }

  function FilterByCategory(entries: seq<(string, Definition)>, category: string): (r: seq<(string, Definition)>)
    ensures forall e :: e in r <==> e in entries && e.1.category == category
    ensures |r| <= |entries|
  {
    if entries == [] then []
    else
      var rest := FilterByCategory(entries[1..], category);
      if entries[0].1.category == category then [entries[0]] + rest else rest
  }

  /** Filtering works entry by entry, so the kept entries keep the table's
      order: filtering a concatenation concatenates the filtered parts. */
  lemma {:induction false} FilterAppend(a: seq<(string, Definition)>, b: seq<(string, Definition)>, category: string)
    ensures FilterByCategory(a + b, category) == FilterByCategory(a, category) + FilterByCategory(b, category)
  {
    if a == [] {
      assert a + b == b;
    } else {
      assert (a + b)[0] == a[0];
      assert (a + b)[1..] == a[1..] + b;
      FilterAppend(a[1..], b, category);
    }
  }

  /** An entry list none of whose entries is in the category filters to nothing. */
  lemma {:induction false} FilterNoneMatching(entries: seq<(string, Definition)>, category: string)
    requires forall i :: 0 <= i < |entries| ==> entries[i].1.category != category
    ensures FilterByCategory(entries, category) == []
  {
    if entries != [] {
      assert forall i :: 0 <= i < |entries| - 1 ==> entries[1..][i] == entries[i + 1];
      FilterNoneMatching(entries[1..], category);
    }
  }

  /** A category no entry declares selects nothing. */
  lemma UnknownCategoryIsEmpty(category: string)
    requires category !in ["header", "social-proof", "content", "footer"]
    ensures GetByCategory(category) == []
  {
    FilterNoneMatching(Components(), category);
  }

  /** The template of the table entry for `key`: there is one exactly for
      the table's keys, and its root is a component element naming that key. */
  function Template(key: string): (r: Option<Node>)
    ensures r.Some? <==> key in ["header", "hero", "trust-badges", "benefits", "process", "testimonial", "faq", "footer"]
    ensures r.Some? ==> r.value.Element? && "component" in r.value.classes
    ensures r.Some? ==> "data-component" in r.value.attrs && r.value.attrs["data-component"] == key
  {
    if key == "header" then Some(HeaderTemplate)
    else if key == "hero" then Some(HeroTemplate)
    else if key == "trust-badges" then Some(TrustBadgesTemplate)
    else if key == "benefits" then Some(BenefitsTemplate)
    else if key == "process" then Some(ProcessTemplate)
    else if key == "testimonial" then Some(TestimonialTemplate)
    else if key == "faq" then Some(FaqTemplate)
    else if key == "footer" then Some(FooterTemplate)
    else None
  }

  /** The instance id `'comp_' + Date.now() + '_' + suffix`, with the clock
      reading and the random suffix given as inputs. */
  function NewComponentId(time: nat, suffix: string): (r: string)
    ensures |r| > 6 && r[..5] == "comp_"
  {
    "comp_" + NatToDecimal(time) + "_" + suffix
  }

  /** `ComponentUtils.create(type)`: `null` for an unknown type, otherwise
      the template's root tagged with a fresh instance id. */
  function Create(key: string, time: nat, suffix: string): (r: Option<Node>)
    ensures r.None? <==> Template(key).None?
    ensures r.Some? ==> r.value == WithAttribute(Template(key).value, "data-component-id", NewComponentId(time, suffix))
  {
    match Template(key)
    case None => None
    case Some(t) => Some(WithAttribute(t, "data-component-id", NewComponentId(time, suffix)))
  }

  /** Tagging a component root with its instance id keeps the type it names. */
  lemma TaggedRootKeepsType(t: Node, id: string)
    requires t.Element? && "data-component" in t.attrs
    ensures WithAttribute(t, "data-component-id", id).Element?
    ensures WithAttribute(t, "data-component-id", id).attrs["data-component"] == t.attrs["data-component"]
    ensures WithAttribute(t, "data-component-id", id).attrs["data-component-id"] == id
  {
  }

  /** `String(n)` never gives two numbers the same digits. */
  lemma {:induction false} NatToDecimalInjective(m: nat, n: nat)
    requires NatToDecimal(m) == NatToDecimal(n)
    ensures m == n
  {
    var a, b := NatToDecimal(m), NatToDecimal(n);
    if m < 10 && n < 10 {
      assert a[0] == b[0];
    } else if m >= 10 && n >= 10 {
      assert a[..|a| - 1] == NatToDecimal(m / 10);
      assert b[..|b| - 1] == NatToDecimal(n / 10);
      NatToDecimalInjective(m / 10, n / 10);
      assert a[|a| - 1] == b[|b| - 1];
    }
  }

  /** Two creations get the same instance id only with the same clock
      reading and the same suffix: the digits end at the first `_`. */
  lemma NewComponentIdInjective(t1: nat, s1: string, t2: nat, s2: string)
    requires NewComponentId(t1, s1) == NewComponentId(t2, s2)
    ensures t1 == t2 && s1 == s2
  {
    var d1, d2 := NatToDecimal(t1), NatToDecimal(t2);
    var id := NewComponentId(t1, s1);
    assert id == "comp_" + d1 + "_" + s1 == "comp_" + d2 + "_" + s2;
    assert forall k :: 0 <= k < |d1| ==> id[5 + k] == d1[k];
    assert forall k :: 0 <= k < |d2| ==> id[5 + k] == d2[k];
    assert id[5 + |d1|] == '_' == id[5 + |d2|];
    assert d1 == id[5..5 + |d1|] == d2;
    NatToDecimalInjective(t1, t2);
    assert s1 == id[6 + |d1|..] == s2;
  }

  // ---------------------------------------------------------------------
  // Each template's `data-field` slots are exactly its definition's field keys.

  lemma HeaderSlotShape()
    ensures FieldSlots(HeaderTemplate) == [] + (["logo"] + (((["nav1"] + ["nav2"]) + ["nav3"]) + ["header_cta"]) + (([] + []) + []))
  {
  }

  lemma HeaderFieldKeys()
    ensures Keys(HeaderDefinition().fields) == ["logo", "nav1", "nav2", "nav3", "header_cta"]
  {
  }

  lemma HeaderFlatten()
    ensures [] + (["logo"] + (((["nav1"] + ["nav2"]) + ["nav3"]) + ["header_cta"]) + (([] + []) + [])) == ["logo", "nav1", "nav2", "nav3", "header_cta"]
  {
  }

  lemma HeaderFieldsAreSlots()
    ensures FieldSlots(HeaderTemplate) == Keys(HeaderDefinition().fields)
  {
    HeaderSlotShape();
    HeaderFieldKeys();
    HeaderFlatten();
  }

  lemma HeroSlotShape()
    ensures FieldSlots(HeroTemplate) == ((["title"] + ["subtitle"]) + ["cta"]) + ["hero_image"]
  {
  }

  lemma HeroFieldKeys()
    ensures Keys(HeroDefinition().fields) == ["title", "subtitle", "cta", "hero_image"]
  {
  }

  lemma HeroFlatten()
    ensures ((["title"] + ["subtitle"]) + ["cta"]) + ["hero_image"] == ["title", "subtitle", "cta", "hero_image"]
  {
  }

  lemma HeroFieldsAreSlots()
    ensures FieldSlots(HeroTemplate) == Keys(HeroDefinition().fields)
  {
    HeroSlotShape();
    HeroFieldKeys();
    HeroFlatten();
  }

  lemma TrustBadgesSlotShape()
    ensures FieldSlots(TrustBadgesTemplate) == ["title"] + ((((["logo1"] + ["logo2"]) + ["logo3"]) + ["logo4"]) + ["logo5"])
  {
  }

  lemma TrustBadgesFieldKeys()
    ensures Keys(TrustBadgesDefinition().fields) == ["title", "logo1", "logo2", "logo3", "logo4", "logo5"]
  {
  }

  lemma TrustBadgesFlatten()
    ensures ["title"] + ((((["logo1"] + ["logo2"]) + ["logo3"]) + ["logo4"]) + ["logo5"]) == ["title", "logo1", "logo2", "logo3", "logo4", "logo5"]
  {
  }

  lemma TrustBadgesFieldsAreSlots()
    ensures FieldSlots(TrustBadgesTemplate) == Keys(TrustBadgesDefinition().fields)
  {
    TrustBadgesSlotShape();
    TrustBadgesFieldKeys();
    TrustBadgesFlatten();
  }

  lemma BenefitsSlotShape()
    ensures FieldSlots(BenefitsTemplate) == ["title"] + ((["image1", "benefit1_title", "benefit1_text"] + ["image2", "benefit2_title", "benefit2_text"]) + ["image3", "benefit3_title", "benefit3_text"])
  {
  }

  lemma BenefitsFieldKeys()
    ensures Keys(BenefitsDefinition().fields) == ["title", "image1", "benefit1_title", "benefit1_text", "image2", "benefit2_title", "benefit2_text", "image3", "benefit3_title", "benefit3_text"]
  {
  }

  lemma BenefitsFlatten()
    ensures ["title"] + ((["image1", "benefit1_title", "benefit1_text"] + ["image2", "benefit2_title", "benefit2_text"]) + ["image3", "benefit3_title", "benefit3_text"]) == ["title", "image1", "benefit1_title", "benefit1_text", "image2", "benefit2_title", "benefit2_text", "image3", "benefit3_title", "benefit3_text"]
  {
  }

  lemma BenefitsFieldsAreSlots()
    ensures FieldSlots(BenefitsTemplate) == Keys(BenefitsDefinition().fields)
  {
    BenefitsSlotShape();
    BenefitsFieldKeys();
    BenefitsFlatten();
  }

  lemma ProcessSlotShape()
    ensures FieldSlots(ProcessTemplate) == ["title"] + ((["step1_title", "step1_text"] + ["step2_title", "step2_text"]) + ["step3_title", "step3_text"])
  {
  }

  lemma ProcessFieldKeys()
    ensures Keys(ProcessDefinition().fields) == ["title", "step1_title", "step1_text", "step2_title", "step2_text", "step3_title", "step3_text"]
  {
  }

  lemma ProcessFlatten()
    ensures ["title"] + ((["step1_title", "step1_text"] + ["step2_title", "step2_text"]) + ["step3_title", "step3_text"]) == ["title", "step1_title", "step1_text", "step2_title", "step2_text", "step3_title", "step3_text"]
  {
  }

  lemma ProcessFieldsAreSlots()
    ensures FieldSlots(ProcessTemplate) == Keys(ProcessDefinition().fields)
  {
    ProcessSlotShape();
    ProcessFieldKeys();
    ProcessFlatten();
  }

  lemma TestimonialSlotShape()
    ensures FieldSlots(TestimonialTemplate) == (["quote"] + ["author"]) + ["company"]
  {
  }

  lemma TestimonialFieldKeys()
    ensures Keys(TestimonialDefinition().fields) == ["quote", "author", "company"]
  {
  }

  lemma TestimonialFlatten()
    ensures (["quote"] + ["author"]) + ["company"] == ["quote", "author", "company"]
  {
  }

  lemma TestimonialFieldsAreSlots()
    ensures FieldSlots(TestimonialTemplate) == Keys(TestimonialDefinition().fields)
  {
    TestimonialSlotShape();
    TestimonialFieldKeys();
    TestimonialFlatten();
  }

  lemma FaqSlotShape()
    ensures FieldSlots(FaqTemplate) == ["title"] + ((["question1", "answer1"] + ["question2", "answer2"]) + ["question3", "answer3"])
  {
  }

  lemma FaqFieldKeys()
    ensures Keys(FaqDefinition().fields) == ["title", "question1", "answer1", "question2", "answer2", "question3", "answer3"]
  {
  }

  lemma FaqFlatten()
    ensures ["title"] + ((["question1", "answer1"] + ["question2", "answer2"]) + ["question3", "answer3"]) == ["title", "question1", "answer1", "question2", "answer2", "question3", "answer3"]
  {
  }

  lemma FaqFieldsAreSlots()
    ensures FieldSlots(FaqTemplate) == Keys(FaqDefinition().fields)
  {
    FaqSlotShape();
    FaqFieldKeys();
    FaqFlatten();
  }

  lemma FooterSlotShape()
    ensures FieldSlots(FooterTemplate) == (["logo"] + ["description"]) + ["copyright"]
  {
  }

  lemma FooterFieldKeys()
    ensures Keys(FooterDefinition().fields) == ["logo", "description", "copyright"]
  {
  }

  lemma FooterFlatten()
    ensures (["logo"] + ["description"]) + ["copyright"] == ["logo", "description", "copyright"]
  {
  }

  lemma FooterFieldsAreSlots()
    ensures FieldSlots(FooterTemplate) == Keys(FooterDefinition().fields)
  {
    FooterSlotShape();
    FooterFieldKeys();
    FooterFlatten();
  }

}
