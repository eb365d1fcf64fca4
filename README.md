# Landing-page builder core, modelled in Dafny

This project models the core of a browser-based landing-page builder.

- **Component catalogue (`Catalog`).** The eight component types, their templates, `data-field` slots and categories. It also covers `create`, which tags a fresh instance with a `data-component-id`.
- **Editor (`Editor`, `History`).** The page is a list of component trees with a selection. The undo history holds at most 50 snapshots. Add, duplicate, delete, select and style operations each save a snapshot.
- **Style manager (`Styler`, `Colors`).** Global style values are published as CSS custom properties. Per-component declarations, export/import/reset, presets and stylesheet generation are modelled. So are the colour utilities: hex parsing and writing, lighten and darken.
- **Exporter (`ExportClean`, `ExportMinify`, `Exporter`).** Removing editor markup from the page tree, the CSS minifier, and the `:root` variables block. Also the assembly of the stylesheet, the script and the final HTML document.

## Modelling choices

- **Page content.** The page is a forest of `Dom.Node` values: an element has a tag, an ordered class list, an attribute map and children; a text node has text.
- **Maps.** JavaScript objects and `Map`s that keep insertion order are association lists (`OrderedMaps`).
- **Mutable state.** State changed in place is a class. `Styler.StyleManager` holds the global and per-component styles. `Editor.LandingPageEditor` holds the page, the selection and the history. `Dom.DocumentStyle` holds the root element's custom properties. The pure parts are functions.
- **`cleanHTML` (`ExportClean`).** It is modelled twice:
  - `ExportClean.Passes` follows the six query-and-mutate passes of js/exporter.js:167-200, on values.
  - `ExportClean.Clean` is a one-pass reference definition.
  - `ExportClean.PassesAreClean` proves the two equal.
- **`minifyCSS` (`ExportMinify`).** Each of its six global regular-expression replacements is a left-to-right scan that resumes after each match, as `String.prototype.replace` does.
- **Colour arithmetic (`Colors`).**
  - `rgbToHex` keeps the source's 32-bit `<<` shifts.
  - `toString(16)` of a possibly negative sum and the `slice(1)` are kept.
  - `Math.round(channel * factor)`, with the factor `(100 ± percent) / 100` computed first, is exact integer rounding, half up.
- **Background style.** `applyStyleToComponent` removes only the four `bg-gradient-*` classes (js/editor.js:352-361), so an earlier `bg-dark` stays when `bg-light` is applied. `Editor.StyledClasses` models exactly that.

## Model

| member | source | states |
|---|---|---|
| Dom.RemoveClasses | js/exporter.js:181-188 | `classList.remove`: a class is kept exactly when it was present and is not among those removed; the list never grows |
| Dom.AddClass | js/editor.js:239 | `classList.add`: the result holds the old classes in order plus the new one; adding a present class changes nothing |
| Dom.WithProperty | js/styler.js:46 | `style.setProperty(name, value)`: an empty value removes the property, any other value is stored under the name, and no other property changes |
| Catalog.GetTypes | js/components.js:463-465 | the catalogue's type keys, in declaration order: header, hero, trust-badges, benefits, process, testimonial, faq, footer |
| Catalog.GetDefinition | js/components.js:458-460 | a definition exists exactly for the eight types, and it is the catalogue's own entry for that key |
| Catalog.GetDefinitionOfEachEntry | js/components.js:458-460 | every catalogue entry is found again by its own key (the keys are distinct) |
| Catalog.OnlyHeaderAndHeroHaveStyles | js/components.js:56-59 | exactly the header and hero entries carry a default style map |
| Catalog.GetByCategory | js/components.js:468-472 | the result holds exactly the catalogue entries of the given category |
| Catalog.UnknownCategoryIsEmpty | js/components.js:468-472 | a category outside header, social-proof, content and footer selects nothing |
| Catalog.Template | js/components.js:440-449 | a template root exists exactly for the eight types; it is an element with class `component` whose `data-component` is the type |
| Catalog.NewComponentId | js/components.js:452 | a fresh id starts with `comp_` |
| Catalog.NewComponentIdInjective | js/components.js:452 | different (time, random suffix) pairs give different ids |
| Catalog.Create | js/components.js:440-455 | an unknown type yields nothing; a known one yields its template root with `data-component-id` set to the fresh id |
| Catalog.TaggedRootKeepsType | js/components.js:450-453 | tagging an instance keeps its `data-component` type and sets its `data-component-id` |
| Catalog.HeaderFieldsAreSlots | js/components.js:3-55 | the header template's `data-field` slots, in document order, are exactly its definition's field keys |
| Catalog.HeroFieldsAreSlots | js/components.js:62-103 | the same for hero |
| Catalog.TrustBadgesFieldsAreSlots | js/components.js:110-173 | the same for trust-badges |
| Catalog.BenefitsFieldsAreSlots | js/components.js:176-237 | the same for benefits |
| Catalog.ProcessFieldsAreSlots | js/components.js:240-295 | the same for process |
| Catalog.TestimonialFieldsAreSlots | js/components.js:298-330 | the same for testimonial |
| Catalog.FaqFieldsAreSlots | js/components.js:333-391 | the same for faq |
| Catalog.FooterFieldsAreSlots | js/components.js:394-433 | the same for footer |
| History.StyleEntries | js/editor.js:444-449 | a snapshot's styles are the four keys primaryColor, secondaryColor, fontFamily, baseFontSize, in that order |
| History.Save | js/editor.js:453-465 | the new snapshot becomes the current last entry; the redo tail is dropped; over 50 entries the oldest goes |
| History.Undo | js/editor.js:470-476 | the cursor moves back one exactly when it is above 0; the entries never change |
| History.Redo | js/editor.js:478-484 | the cursor moves forward one exactly when a later entry exists; the entries never change |
| History.SaveKeepsValid | js/editor.js:442-468 | after a save the log holds 1 to 50 entries, nothing can be redone, and undo is possible exactly when there was a current entry |
| History.SaveWhenFullDropsOldest | js/editor.js:462-465 | saving into a full log keeps 50 entries: all but the oldest, then the new one |
| History.SaveThenUndo | js/editor.js:442-476 | undo right after a save returns to the snapshot that was current before it |
| History.UndoThenRedo | js/editor.js:470-484 | redo undoes an undo |
| History.RedoThenUndo | js/editor.js:470-484 | undo undoes a redo |
| History.UndoRedoKeepValid | js/editor.js:470-484 | undo and redo keep the cursor within the log and the log within 50 entries |
| History.PutIfSet | js/editor.js:490-494 | a style value is written to the root only when it is non-empty |
| History.RestoredStyles | js/editor.js:489-494 | restoring a snapshot's four style values writes each non-empty one to its kebab-cased custom property |
| Editor.InsertAfter | js/editor.js:377-385 | the clone lands right after the original; the components before are unchanged and those after shift by one |
| Editor.RemoveAt | js/editor.js:387-393 | the component goes; those before are unchanged and those after shift back by one |
| Editor.RemoveUndoesInsert | js/editor.js:377-393 | deleting a just-inserted duplicate restores the page |
| Editor.SelectionFollowsInsert | js/editor.js:377-385 | after duplicating, the selection still designates the same component |
| Editor.SelectionFollowsRemove | js/editor.js:387-393 | deleting clears the selection exactly when the deleted component was selected; otherwise the same component stays selected |
| Editor.Deselected | js/editor.js:245-253 | only the selected component changes: it loses class `selected` |
| Editor.StyledClasses | js/editor.js:352-361 | the new class is present; any other class stays exactly unless the property is `background` and it is one of the four gradient classes |
| Editor.StyledClassesIdempotent | js/editor.js:352-361 | applying the same style twice equals applying it once |
| Editor.Styled | js/editor.js:352-361 | an element gets the styled class list; a text node is untouched |
| Editor.LandingPageEditor.constructor | js/editor.js:3-19 | the editor starts with the page, no selection, one saved snapshot at index 0 and both undo and redo disabled |
| Editor.LandingPageEditor.UpdateUndoRedoButtons | js/editor.js:504-510 | undo is disabled exactly when the index is at most 0, redo exactly when it is at the last entry |
| Editor.LandingPageEditor.SaveState | js/editor.js:442-468 | the history becomes the log with the current page and styles saved; the buttons follow the new log |
| Editor.LandingPageEditor.RestoreStyles | js/editor.js:489-494 | the root's custom properties become those restored from the snapshot's non-empty style values |
| Editor.LandingPageEditor.LoadState | js/editor.js:486-502 | the page becomes the snapshot's, styles are restored and nothing stays selected; the history is untouched |
| Editor.LandingPageEditor.Undo | js/editor.js:470-476 | the log steps back and the page and styles become the now-current snapshot's; at the first entry nothing changes |
| Editor.LandingPageEditor.Redo | js/editor.js:478-484 | the log steps forward and the page and styles become the now-current snapshot's; at the last entry nothing changes |
| Editor.LandingPageEditor.DeselectComponent | js/editor.js:245-253 | the selected component loses class `selected` and the selection is cleared |
| Editor.LandingPageEditor.SelectComponent | js/editor.js:233-243 | the previous selection is cleared and the chosen component gains class `selected` and becomes the selection |
| Editor.LandingPageEditor.AddComponent | js/editor.js:160-170 | an unknown type changes nothing; otherwise the new component is appended, a snapshot is saved and the new component is selected |
| Editor.LandingPageEditor.ApplyStyleToComponent | js/editor.js:352-361 | only that component's classes change, as `StyledClasses` says, and a snapshot is saved |
| Editor.LandingPageEditor.DuplicateComponent | js/editor.js:377-385 | a copy with a fresh `data-component-id` is inserted right after the original, the selection follows, and a snapshot is saved |
| Editor.LandingPageEditor.DeleteComponent | js/editor.js:387-393 | the component is removed, the selection is cleared if it was that component, and a snapshot is saved |
| OrderedMaps.Lookup | js/styler.js:50-52 | a key has a value exactly when it is present, and the value is the one stored with it |
| OrderedMaps.LookupFindsEach | js/styler.js:84-86 | with distinct keys, every stored entry is found by its key |
| OrderedMaps.Set | js/styler.js:47 | assigning a property adds one entry for a new key and keeps the length for an existing one |
| OrderedMaps.SetKeys | js/styler.js:47 | assignment keeps the key order, appending a new key at the end |
| OrderedMaps.SetLookup | js/styler.js:47 | after assignment the key reads the new value and every other key reads as before |
| OrderedMaps.SetExisting | js/styler.js:47 | assigning a key its current value changes nothing |
| OrderedMaps.SetKeepsDistinct | js/styler.js:47 | assignment keeps keys distinct |
| OrderedMaps.SetEntries | js/styler.js:47 | assignment introduces no entry other than the one assigned |
| OrderedMaps.Remove | js/styler.js:75 | `delete` never adds entries |
| OrderedMaps.RemoveLookup | js/styler.js:75 | after `delete` the key is absent and every other key reads as before |
| OrderedMaps.RemoveAbsent | js/styler.js:75 | deleting an absent key changes nothing |
| OrderedMaps.RemoveKeepsDistinct | js/styler.js:75 | `delete` keeps keys distinct |
| OrderedMaps.SetAllFindsEach | js/styler.js:141-145 | after assigning a list of distinct entries, each reads its assigned value |
| OrderedMaps.SetAllKeepsOthers | js/styler.js:141-145 | keys not among the assigned ones read as before |
| OrderedMaps.SetAllOwnEntries | js/styler.js:133-145 | assigning an object's own entries (any prefix of them) back to it changes nothing |
| Styler.DefaultGlobals | js/styler.js:5-10 | the four default global styles, with distinct keys |
| Styler.PublishedAppend | js/styler.js:44-48 | publishing one more entry sets its kebab-cased custom property |
| Styler.PublishedDefaults | js/styler.js:20-25 | loading the defaults sets `--primary-color`, `--secondary-color`, `--font-family` and `--base-font-size` to `#007bff`, `#6c757d`, `Inter`, `16px` |
| Styler.Presets | js/styler.js:296-324 | the presets are `modern`, `classic`, `minimal` and `vibrant`, in that order and each named once |
| Styler.PresetsSetTheGlobalKeys | js/styler.js:296-324 | every preset sets exactly the four global keys, once each, in the defaults' order |
| Styler.StyleSheetHasRootLine | js/styler.js:108-117 | every global style has its `--name: value;` line in the `:root` block |
| Styler.StyleSheetHasRule | js/styler.js:119-128 | every component with declarations has its `[data-component-id="…"]` rule |
| Styler.StyleSheetSkipsEmpty | js/styler.js:119-121 | a component with no declarations contributes nothing to the stylesheet |
| Styler.WriteDeclarations | js/styler.js:122-125 | the loop writes one `property: value;` line per declaration, in order |
| Styler.StyleManager.constructor | js/styler.js:3-25 | no component styles, the default globals, and the defaults published on the root |
| Styler.StyleManager.LoadDefaultStyles | js/styler.js:20-25 | every global style is published on the root; the manager's own state is unchanged |
| Styler.StyleManager.SetGlobalStyle | js/styler.js:44-48 | the property is published and stored; it reads back as the new value and every other global reads as before |
| Styler.StyleManager.SetGlobalStyles | js/styler.js:326-328 | each entry in turn is stored and published |
| Styler.StyleManager.GetGlobalStyle | js/styler.js:50-52 | a value exists exactly when the property is set |
| Styler.StyleManager.GetComponentStyles | js/styler.js:84-86 | an unknown id gives the empty declarations; a known one gives its stored declarations |
| Styler.StyleManager.SetComponentStyle | js/styler.js:54-63 | the component's map gains the declaration (created if missing); other properties and other components read as before |
| Styler.StyleManager.RemoveComponentStyle | js/styler.js:72-82 | an unknown id changes nothing; otherwise only that property goes from that component's map |
| Styler.StyleManager.ExportStyles | js/styler.js:133-138 | the export reads back every global and every component's declarations as the manager holds them |
| Styler.StyleManager.ImportStyles | js/styler.js:140-155 | globals are assigned and published, component maps are replaced by id; importing an export of the current state changes nothing |
| Styler.StyleManager.ResetStyles | js/styler.js:157-172 | component styles are cleared, the globals are the defaults, and the defaults are published |
| Styler.StyleManager.ApplyPreset | js/styler.js:296-330 | an unknown name changes nothing; a known preset's four values are stored and published |
| Styler.StyleManager.GenerateStyleSheet | js/styler.js:108-131 | the loops build exactly `Styler.StyleSheet`, the stylesheet text: the `:root` block, then one rule per component with declarations |
| Styler.PutKeepsWellFormed | js/styler.js:54-63 | storing a declaration map with distinct keys keeps every component's map keyed distinctly |
| Styler.RemoveKeepsWellFormed | js/styler.js:72-82 | removing a property keeps every component's map keyed distinctly |
| Colors.HexToRgb | js/styler.js:197-204 | a colour parses exactly when, after an optional `#`, it is six hex digits of either case; each channel is within 0..255 |
| Colors.ToInt32 | js/styler.js:207 | the 32-bit wrap of `<<` stays in the signed 32-bit range and leaves in-range values alone |
| Colors.RgbToHexOfChannels | js/styler.js:206-208 | `Colors.RgbToHex` (`rgbToHex`): for channels within 0..255 the result is `#` and two lower-case hex digits per channel |
| Colors.RgbToHexToRgb | js/styler.js:197-208 | parsing what `rgbToHex` wrote gives back the channels |
| Colors.HexToRgbToHex | js/styler.js:197-208 | writing a parsed colour gives `#` and its six digits in lower case |
| Colors.RoundPercent | js/styler.js:215-218 | `Math.round(c * factor)` with `factor = (100 + p) / 100` computed first: the nearest integer, halves rounded up |
| Colors.LightenChannel | js/styler.js:215-218 | a lightened channel is at most 255, no darker than before for a non-negative percent, and never negative for a percent of at least -100 |
| Colors.DarkenChannel | js/styler.js:227-230 | for a percent in 0..100 a darkened channel lies between 0 and the original |
| Colors.LightenColor | js/styler.js:210-220 | a colour that does not parse comes back unchanged |
| Colors.DarkenColor | js/styler.js:222-232 | a colour that does not parse comes back unchanged |
| Colors.LightenColorChannels | js/styler.js:210-220 | a parsed colour's lightened form parses back to the lightened channels, each no darker than before for a non-negative percent |
| Colors.DarkenColorChannels | js/styler.js:222-232 | a parsed colour's darkened form parses back to the darkened channels, each no lighter than before |
| Colors.DarkenPastBlack | js/styler.js:222-232 | darkening by more than 100% is not clamped: white darkened by 150% gives `#08081`, which does not parse as a colour |
| ExportClean.CleanHtml | js/exporter.js:167-200 | without `removeEditorStyles` the page is returned unchanged; with it the page is cleaned |
| ExportClean.KeptClasses | js/exporter.js:181-188 | `component` and `selected` go only from elements with class `component`; `editable` and `editing` only from elements with class `editable`; every other class stays |
| ExportClean.KeptAttrs | js/exporter.js:186-197 | `data-component` and `data-field` go, `contenteditable` goes only from `editable` elements, and every other attribute, `data-component-id` included, keeps its value |
| ExportClean.CleanNode | js/exporter.js:167-200 | a text node is unchanged; an element keeps its tag and gets the kept classes, the kept attributes and cleaned children |
| ExportClean.PassesAreClean | js/exporter.js:167-200 | `ExportClean.Passes`, the six passes over the page in the source's order, gives `ExportClean.Clean`, the one-pass cleaned page |
| ExportClean.PassesOfNode | js/exporter.js:177-197 | a control or drag-handle subtree disappears; any other node becomes its cleaned form |
| ExportClean.CleanIsCleaned | js/exporter.js:177-197 | no control or drag-handle subtree, no `component` or `editable` class and no `data-component` or `data-field` attribute remains anywhere |
| ExportClean.CleanOfCleaned | js/exporter.js:167-200 | a page with no editor markup is left unchanged by cleaning |
| ExportClean.CleanIdempotent | js/exporter.js:167-200 | cleaning twice gives the same page as cleaning once |
| ExportMinify.StripCommentsWithoutOpener | js/exporter.js:1126 | text with no comment opener passes the comment pass unchanged |
| ExportMinify.StripCommentsOfComment | js/exporter.js:1126 | a closed comment is removed up to its first closer, leaving the text after it |
| ExportMinify.CollapseSpacesSingleSpaced | js/exporter.js:1127 | after the whitespace pass every whitespace character is a single plain space |
| ExportMinify.TightenBracesNoSpaceBeside | js/exporter.js:1129 | after the brace pass no whitespace touches an opening brace |
| ExportMinify.SquashAfterNoSpaceAfter | js/exporter.js:1130-1131 | after the semicolon or comma pass no whitespace follows that character |
| ExportMinify.MinifyCssShape | js/exporter.js:1124-1133 | `ExportMinify.MinifyCss` (`minifyCSS`): the minified CSS has no leading or trailing whitespace, only single plain spaces, none beside `{` and none after `;` or `,`, and is never longer than its input |
| Exporter.NewPageSettings | js/exporter.js:6-10 | a missing or empty title or description falls back to its default; the favicon falls back to empty; title and description are never empty |
| Exporter.ExportOfProperties | js/exporter.js:1034-1044 | the exported `:root` block holds, for each of the four variables, the root's current value, or the default when that is unset or empty |
| Exporter.RootBlockHasLines | js/exporter.js:1034-1044 | `Exporter.GlobalVariablesCss` (`getGlobalVariablesCSS`): each of the four `--name: value;` lines is in the `:root` block |
| Exporter.ManagerDefaultsReachExport | js/exporter.js:1034-1044 | the defaults the style manager publishes reach the exported `:root` block unchanged: `#007bff`, `#6c757d`, `Inter`, `16px` |
| Exporter.GlobalValue | js/exporter.js:1038-1041 | a global style value that is set and non-empty is used; a missing or empty one gives the default |
| Exporter.GenerateCssShape | js/exporter.js:202-220 | `Exporter.GenerateCss` (`generateCSS`): the stylesheet is base CSS, component CSS, then the `:root` block; it is minified exactly when asked, and is then trimmed and single-spaced |
| Exporter.GenerateJs | js/exporter.js:1046-1122 | the script is never empty |
| Exporter.FaqJsPresentIff | js/exporter.js:1078-1102 | the FAQ code is in the script exactly when it was asked for; the menu and smooth-scroll code always are |
| Exporter.FaviconLink | js/exporter.js:151 | the favicon link is written exactly when a favicon address is given |
| Exporter.GenerateHtmlContents | js/exporter.js:139-165 | `Exporter.GenerateHtml` (`generateHTML`): the document carries the title, description, stylesheet and cleaned page verbatim, always a `<script>` element, and the favicon link when there is an address |
| Exporter.GenerateHtmlWithoutFavicon | js/exporter.js:151 | with no favicon address the document has nothing where the link would go |

## Left out

- **js/main.js.** Bootstrap, keyboard shortcuts, autosave to `localStorage` and notifications are application I/O and are not part of this model.
- **DOM events and UI in js/editor.js.** Event wiring, the image modal, in-place text editing, tab and device switching, and the drag-and-drop placeholder are not modelled. `getComputedStyle` reads are the `computed` parameter of the editor's methods.
- **Snapshots.** The JSON text of a snapshot is treated as the value it encodes. Parsing and serialising through `innerHTML`, with the browser's normalisation, is not modelled. `Exporter.GenerateHtml` takes the serialiser as a parameter.
- **Ids.** `Date.now()` and `Math.random()` become the `time` and `suffix` parameters.
- **Template text.** The templates' placeholder copy is uninterpreted constants. Only the element structure, classes, attributes and `data-field` slots are modelled.
- **Exporter text.** The base and component stylesheets and the three pieces of the emitted script are parameters (`Exporter.ExportTexts`), not their literal text. The script pieces are known only to be non-empty.
- **Exporter side effects.** The export modal, `Blob` and object URLs, `window.open`, downloads, the ZIP message and the injected animation stylesheet are not modelled.
- **DOM-bound parts of js/styler.js.** `MutationObserver` (`setupStyleObserver`, `onStyleChange`), `applyComponentStyle`, the CSS-class helpers, responsive styles, custom CSS, animations and `ThemeManager` are not modelled. Components' own inline styles are not modelled, so two DOM effects are missing: `removeComponentStyle` calling `style.removeProperty` on the component element (js/styler.js:79), and `resetStyles` removing the `style` attribute of every `[data-component-id]` element (js/styler.js:168-171). The root element's inline style is `Dom.DocumentStyle`.
- **Styler.StyleManager.RemoveComponentStyle:** changes only the stored declarations. The matching `style.removeProperty` on the component element is not modelled.
- **Styler.StyleManager.ResetStyles:** does not model removing the `style` attribute from every `[data-component-id]` element.
- **Catalog.GetDefinition:** treats a key inherited from `Object.prototype` as absent. For example, the source's `getDefinition("constructor")` returns the `Object` function rather than `null` (js/components.js:459). The application only passes `data-component` values (js/editor.js:24, 263).
- **Catalog.Create:** treats an inherited name as an unknown type and returns nothing. For such a name (`create("toString")`, say), the source passes the `!component` test and then throws on `component.template.trim()` (js/components.js:441-447).
- **Styler.StyleManager.GetGlobalStyle:** treats an inherited name as absent, where the source's `getGlobalStyle("toString")` returns a function (js/styler.js:51).
- **Aliasing.** The export, the import and the manager share style objects by reference in the source. The model copies values.
- **Key order.** JavaScript orders integer-like object keys numerically before other keys. The association lists keep plain insertion order.
- **Class lists.** A `DOMTokenList` drops duplicate tokens whenever it rewrites the `class` attribute. `Dom.RemoveClasses` and `Dom.AddClass` keep any duplicates already in the list.
- **Whitespace text.** Whitespace-only text nodes between elements, which parsing the templates' markup produces, are not part of the page tree.
- **Selection.** The selected component is a position in the page list, not an element reference. `Editor.SelectionFollowsInsert` and `Editor.SelectionFollowsRemove` show that the position moves as the element would.
- **Exporter.ComputedGlobals:** reads the root element's inline custom properties (js/editor.js:514-517). `getComputedStyle` would also see a value set by a `:root` rule in a stylesheet once the inline property is removed. Such stylesheet values are not modelled.
- **Lower-casing.** `toLowerCase` in the kebab-case conversion is ASCII only; other Unicode case mappings are not modelled.
- **Colors.RoundPercent:** exact arithmetic, where the source rounds the floating-point product `c * ((100 ± percent) / 100)`. At some exact halves the two differ, e.g. lightening 50 by 15%: floating point gives 57.49999…, which rounds to 57, while exact arithmetic gives 57.5 and 58. Fractional percents are not modelled.
- **Colors.LightenChannel:** rounds as `Colors.RoundPercent` does, so it shares that floating-point gap.
- **Colors.DarkenChannel:** rounds `c * ((100 - percent) / 100)` as `Colors.RoundPercent` does, so it shares that floating-point gap.
- **Colors.DarkenColor:** built from `Colors.DarkenChannel`, so it shares the same floating-point gap.
- **Editor.LandingPageEditor.AddComponent:** takes the result of `create` (or nothing for an unknown type) as a parameter instead of calling `Catalog.Create` itself. The two are connected by `Catalog.Create`'s contract.
- **Editor.LandingPageEditor.ApplyStyleToComponent:** requires the class name to be a single token. `classList.add` throws on an empty name or one containing whitespace, and that failure is not modelled.
- **Styler.StyleManager.ImportStyles:** requires the imported global and component maps to have distinct keys, as any JavaScript object does. Inputs that are not objects are not modelled.
- **Exporter.FaqJsPresentIff:** the "only if" half needs the FAQ code not to occur inside the menu and smooth-scroll code. That holds for the source's literal text, which is not modelled.
- **Exporter.FaviconLink and Exporter.GenerateHtmlWithoutFavicon:** state that the favicon link is absent as an empty slot in the template, not as absence from the whole document. A title or page body could itself contain such text.
