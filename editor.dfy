/** The editor (js/editor.js, class `LandingPageEditor`): the page as an
    ordered list of component trees, the selected component, the undo log
    and the undo/redo button states. The page list and the log are updated
    in place by the methods below; the pure functions beside them say what
    each update does, and the lemmas what follows from that. */
module Editor {
  import opened Common
  import opened Dom
  import opened History
  import Catalog

  // ---------------------------------------------------------------------
  // The page list.

  /** `insertBefore(clone, component.nextSibling)`: `x` goes right after position `i`. */
  function InsertAfter(page: seq<Node>, i: nat, x: Node): (r: seq<Node>)
    requires i < |page|
    ensures |r| == |page| + 1 && r[i + 1] == x
    ensures forall k :: 0 <= k <= i ==> r[k] == page[k]
    ensures forall k :: i + 1 < k < |r| ==> r[k] == page[k - 1]
  {
    page[..i + 1] + [x] + page[i + 1..]
  }

  /** `component.remove()`: position `i` goes, the others close up. */
  function RemoveAt(page: seq<Node>, i: nat): (r: seq<Node>)
    requires i < |page|
    ensures |r| == |page| - 1
    ensures forall k :: 0 <= k < i ==> r[k] == page[k]
    ensures forall k :: i <= k < |r| ==> r[k] == page[k + 1]
  {
    page[..i] + page[i + 1..]
  }

  /** Removing what was just inserted gives the page back. */
  lemma RemoveUndoesInsert(page: seq<Node>, i: nat, x: Node)
    requires i < |page|
    ensures RemoveAt(InsertAfter(page, i, x), i + 1) == page
  {
    var r := RemoveAt(InsertAfter(page, i, x), i + 1);
    assert forall k :: 0 <= k < |page| ==> r[k] == page[k];
  }

  /** The selected element's position after an insertion right after `i`. */
  function SelectionAfterInsert(sel: Option<nat>, i: nat): Option<nat> {
    match sel
    case None => None
    case Some(k) => Some(if k > i then k + 1 else k)
  }

  /** The selected element's position after position `i` is removed:
      none when it was the one removed. */
  function SelectionAfterRemove(sel: Option<nat>, i: nat): Option<nat> {
    match sel
    case None => None
    case Some(k) => if k == i then None else Some(if k > i then k - 1 else k)
  }

  /** A duplication leaves the selection on the same element. */
  lemma SelectionFollowsInsert(page: seq<Node>, i: nat, x: Node, sel: Option<nat>)
    requires i < |page| && sel.Some? && sel.value < |page|
    ensures SelectionAfterInsert(sel, i).Some?
    ensures SelectionAfterInsert(sel, i).value < |InsertAfter(page, i, x)|
    ensures InsertAfter(page, i, x)[SelectionAfterInsert(sel, i).value] == page[sel.value]
  {
  }

  /** A deletion clears the selection iff the selected element is the one
      deleted, and otherwise leaves it on the same element. */
  lemma SelectionFollowsRemove(page: seq<Node>, i: nat, sel: Option<nat>)
    requires i < |page| && sel.Some? && sel.value < |page|
    ensures SelectionAfterRemove(sel, i).None? <==> sel.value == i
    ensures sel.value != i ==>
      SelectionAfterRemove(sel, i).value < |RemoveAt(page, i)| &&
      RemoveAt(page, i)[SelectionAfterRemove(sel, i).value] == page[sel.value]
  {
  }

  /** `deselectComponent`: the selected element, if any, loses class `selected`. */
  function Deselected(page: seq<Node>, sel: Option<nat>): (r: seq<Node>)
    requires sel.Some? ==> sel.value < |page|
    ensures |r| == |page|
    ensures forall k :: 0 <= k < |page| && sel != Some(k) ==> r[k] == page[k]
    ensures sel.Some? ==> r[sel.value] == WithoutClass(page[sel.value], "selected")
  {
    if sel.Some? then page[sel.value := WithoutClass(page[sel.value], "selected")] else page
  }

  // ---------------------------------------------------------------------
  // Style classes (js/editor.js:352-361).

  /** The classes `applyStyleToComponent` removes before a `background` value. */
  const GradientClasses: seq<string> := ["bg-gradient-blue", "bg-gradient-sunset", "bg-gradient-ocean", "bg-gradient-forest"]

  /** A component's classes after a style option is applied: for `background`
      the four gradient classes go first; the value is then present. */
  function StyledClasses(classes: seq<string>, property: string, value: string): (r: seq<string>)
    ensures value in r
    ensures forall c :: c in r <==> c == value || (c in classes && (property != "background" || c !in GradientClasses))
  {
    var kept := if property == "background" then RemoveClasses(classes, GradientClasses) else classes;
    AddClass(kept, value)
  }

  /** Applying the same option twice is the same as applying it once. */
  lemma StyledClassesIdempotent(classes: seq<string>, property: string, value: string)
    ensures StyledClasses(StyledClasses(classes, property, value), property, value) == StyledClasses(classes, property, value)
  {
    var once := StyledClasses(classes, property, value);
    if property == "background" {
      var kept := RemoveClasses(classes, GradientClasses);
      RemoveClassesAbsent(kept, GradientClasses);
      if value !in kept {
        assert once == kept + [value];
        RemoveClassesAppend(kept, [value], GradientClasses);
        if value in GradientClasses {
          assert RemoveClasses([value], GradientClasses) == [];
          assert RemoveClasses(once, GradientClasses) == kept;
        } else {
          RemoveClassesAbsent([value], GradientClasses);
          assert RemoveClasses(once, GradientClasses) == once;
        }
      }
    }
  }

  /** `component.classList` after `applyStyleToComponent`. */
  function Styled(n: Node, property: string, value: string): (r: Node)
    ensures n.Element? ==> r == n.(classes := StyledClasses(n.classes, property, value))
    ensures n.Text? ==> r == n
  {
    if n.Element? then n.(classes := StyledClasses(n.classes, property, value)) else n
  }

  // ---------------------------------------------------------------------
  // The editor object.

  class LandingPageEditor {
    /** The children of `#landing-page`, in order. */
    var page: seq<Node>
    /** `selectedComponent`, as a position in `page`. */
    var selected: Option<nat>
    var history: seq<Snapshot>
    var historyIndex: int
    /** The `disabled` flags of the undo and redo buttons. */
    var undoDisabled: bool
    var redoDisabled: bool
    /** `document.documentElement.style`, where snapshots' style values are restored. */
    const root: DocumentStyle

    function CurrentLog(): Log
      reads this
    {
      Log(history, historyIndex)
    }

    predicate Valid()
      reads this
    {
      && History.Valid(CurrentLog()) && historyIndex >= 0
      && (selected.Some? ==> selected.value < |page|)
      && undoDisabled == !CanUndo(CurrentLog())
      && redoDisabled == !CanRedo(CurrentLog())
    }

    /** The constructor and `init`: an empty log, then the first snapshot of
        the initial page. */
    constructor (initial: seq<Node>, documentStyle: DocumentStyle, computed: StyleValues)
      ensures Valid()
      ensures page == initial && selected == None && root == documentStyle
      ensures history == [Snapshot(initial, StyleEntries(computed))] && historyIndex == 0
      ensures undoDisabled && redoDisabled
    {
      page := initial;
      selected := None;
      history := [];
      historyIndex := -1;
      root := documentStyle;
      new;
      SaveState(computed);
    }

    /** `updateUndoRedoButtons` */
    method UpdateUndoRedoButtons()
      modifies this
      ensures undoDisabled == (historyIndex <= 0) && redoDisabled == (historyIndex >= |history| - 1)
      ensures page == old(page) && selected == old(selected)
      ensures history == old(history) && historyIndex == old(historyIndex)
    {
      undoDisabled := historyIndex <= 0;
      redoDisabled := historyIndex >= |history| - 1;
    }

    /** `saveState`, with the four computed style values given as input. */
    method SaveState(computed: StyleValues)
      requires CursorInRange(CurrentLog())
      modifies this
      ensures CurrentLog() == Save(old(CurrentLog()), Snapshot(page, StyleEntries(computed)))
      ensures page == old(page) && selected == old(selected)
      ensures undoDisabled == !CanUndo(CurrentLog()) && redoDisabled == !CanRedo(CurrentLog())
      ensures History.Valid(old(CurrentLog())) ==> History.Valid(CurrentLog()) && historyIndex >= 0
    {
      ghost var before := CurrentLog();
      var s := Snapshot(page, StyleEntries(computed));
      if historyIndex < |history| - 1 {
        history := history[..historyIndex + 1];
      }
      history := history + [s];
      historyIndex := historyIndex + 1;
      if |history| > MaxEntries {
        history := history[1..];
        historyIndex := historyIndex - 1;
      }
      UpdateUndoRedoButtons();
      if History.Valid(before) {
        SaveKeepsValid(before, s);
      }
    }

    /** The `forEach` of `loadState` over a snapshot's style entries: each
        non-empty value is published under its key's custom property. */
    method RestoreStyles(entries: seq<(string, string)>)
      modifies root
      ensures root.properties == Restored(old(root.properties), entries)
    {
      var k := 0;
      while k < |entries|
        invariant 0 <= k <= |entries|
        invariant root.properties == Restored(old(root.properties), entries[..k])
      {
        var (key, value) := entries[k];
        if value != "" {
          root.SetProperty(CssVarName(key), value);
        }
        RestoredAppend(old(root.properties), entries[..k], entries[k]);
        assert entries[..k + 1] == entries[..k] + [entries[k]];
        k := k + 1;
      }
      assert entries[..k] == entries;
    }

    /** `loadState`: the page becomes the snapshot's, its non-empty style
        values are published in order, and the selection is dropped (the
        element it named is no longer on the page, so no class changes). */
    method LoadState(s: Snapshot)
      modifies this, root
      ensures page == s.page && selected == None
      ensures history == old(history) && historyIndex == old(historyIndex)
      ensures undoDisabled == old(undoDisabled) && redoDisabled == old(redoDisabled)
      ensures root.properties == Restored(old(root.properties), s.styles)
    {
      page := s.page;
      RestoreStyles(s.styles);
      selected := None;
    }

    /** `undo`: one snapshot back, when there is one. */
    method Undo()
      requires Valid()
      modifies this, root
      ensures Valid()
      ensures CurrentLog() == History.Undo(old(CurrentLog()))
      ensures CanUndo(old(CurrentLog())) ==>
        page == history[historyIndex].page && selected == None &&
        root.properties == Restored(old(root.properties), history[historyIndex].styles)
      ensures !CanUndo(old(CurrentLog())) ==>
        page == old(page) && selected == old(selected) && root.properties == old(root.properties)
    {
      if historyIndex > 0 {
        historyIndex := historyIndex - 1;
        LoadState(history[historyIndex]);
        UpdateUndoRedoButtons();
      }
    }

    /** `redo`: one snapshot forward, when there is one. */
    method Redo()
      requires Valid()
      modifies this, root
      ensures Valid()
      ensures CurrentLog() == History.Redo(old(CurrentLog()))
      ensures CanRedo(old(CurrentLog())) ==>
        page == history[historyIndex].page && selected == None &&
        root.properties == Restored(old(root.properties), history[historyIndex].styles)
      ensures !CanRedo(old(CurrentLog())) ==>
        page == old(page) && selected == old(selected) && root.properties == old(root.properties)
    {
      if historyIndex < |history| - 1 {
        historyIndex := historyIndex + 1;
        LoadState(history[historyIndex]);
        UpdateUndoRedoButtons();
      }
    }

    /** `deselectComponent` */
    method DeselectComponent()
      requires selected.Some? ==> selected.value < |page|
      modifies this
      ensures page == Deselected(old(page), old(selected)) && selected == None
      ensures history == old(history) && historyIndex == old(historyIndex)
      ensures undoDisabled == old(undoDisabled) && redoDisabled == old(redoDisabled)
    {
      if selected.Some? {
        page := page[selected.value := WithoutClass(page[selected.value], "selected")];
        selected := None;
      }
    }

    /** `selectComponent`: the previous selection is cleared, then the
        component at `i` is selected and gets class `selected`. */
    method SelectComponent(i: nat)
      requires Valid() && i < |page|
      modifies this
      ensures Valid() && selected == Some(i)
      ensures page == Deselected(old(page), old(selected))[i := WithClass(Deselected(old(page), old(selected))[i], "selected")]
      ensures history == old(history) && historyIndex == old(historyIndex)
    {
      DeselectComponent();
      selected := Some(i);
      page := page[i := WithClass(page[i], "selected")];
    }

    /** `addComponent(type)`, given what `ComponentUtils.create(type)`
        returned (`Catalog.Create`): nothing happens for an unknown type;
        otherwise the new instance is appended, the state saved, and the
        instance selected. */
    method AddComponent(created: Option<Node>, computed: StyleValues)
      requires Valid()
      modifies this
      ensures Valid()
      ensures created.None? ==>
        page == old(page) && selected == old(selected) && CurrentLog() == old(CurrentLog())
      ensures created.Some? ==>
        var added := old(page) + [created.value];
        && CurrentLog() == Save(old(CurrentLog()), Snapshot(added, StyleEntries(computed)))
        && selected == Some(|added| - 1)
        && page == Deselected(added, old(selected))[|added| - 1 := WithClass(created.value, "selected")]
    {
      if created.Some? {
        page := page + [created.value];
        SaveState(computed);
        SelectComponent(|page| - 1);
      }
    }

    /** `applyStyleToComponent` on the component at `i`, then `saveState`.
        `classList.add` throws on an empty or spaced token, so the value
        must be a token. */
    method ApplyStyleToComponent(i: nat, property: string, value: string, computed: StyleValues)
      requires Valid() && i < |page| && IsToken(value)
      modifies this
      ensures Valid()
      ensures page == old(page)[i := Styled(old(page)[i], property, value)]
      ensures selected == old(selected)
      ensures CurrentLog() == Save(old(CurrentLog()), Snapshot(page, StyleEntries(computed)))
    {
      page := page[i := Styled(page[i], property, value)];
      SaveState(computed);
    }

    /** `duplicateComponent`: a copy of the component at `i`, with a fresh
        instance id, goes right after it; the state is saved. */
    method DuplicateComponent(i: nat, time: nat, suffix: string, computed: StyleValues)
      requires Valid() && i < |page|
      modifies this
      ensures Valid()
      ensures page == InsertAfter(old(page), i, WithAttribute(old(page)[i], "data-component-id", Catalog.NewComponentId(time, suffix)))
      ensures selected == SelectionAfterInsert(old(selected), i)
      ensures CurrentLog() == Save(old(CurrentLog()), Snapshot(page, StyleEntries(computed)))
    {
      var clone := WithAttribute(page[i], "data-component-id", Catalog.NewComponentId(time, suffix));
      page := InsertAfter(page, i, clone);
      selected := SelectionAfterInsert(selected, i);
      SaveState(computed);
    }

    /** `deleteComponent`: the selection is cleared if it is this component,
        the component is removed, and the state is saved. */
    method DeleteComponent(i: nat, computed: StyleValues)
      requires Valid() && i < |page|
      modifies this
      ensures Valid()
      ensures page == RemoveAt(old(page), i)
      ensures selected == SelectionAfterRemove(old(selected), i)
      ensures CurrentLog() == Save(old(CurrentLog()), Snapshot(page, StyleEntries(computed)))
    {
      if selected == Some(i) {
        DeselectComponent();
      }
      page := RemoveAt(page, i);
      selected := SelectionAfterRemove(selected, i);
      SaveState(computed);
    }
  }
}
