/** The editor's undo log (js/editor.js:442-510) as a value: the saved
    snapshots and a cursor at the one currently shown. The editor class keeps
    the same two things in its `history` and `historyIndex` fields and is
    proved to change them exactly as the functions here say. */
module History {
  import opened Common
  import opened Dom

  /** The four global style values read from the document when a snapshot is
      taken, in the order they are written into it. */
  datatype StyleValues = StyleValues(primaryColor: string, secondaryColor: string, fontFamily: string, baseFontSize: string)

  /** A saved state: the page's component trees and the entries of its
      `styles` object. The JSON text the source stores is treated as this
      value itself. */
  datatype Snapshot = Snapshot(page: seq<Node>, styles: seq<(string, string)>)

  /** The style values as the `(key, value)` entries a snapshot's `styles`
      object enumerates. */
  function StyleEntries(v: StyleValues): (r: seq<(string, string)>)
    ensures |r| == 4
    ensures r[0].0 == "primaryColor" && r[1].0 == "secondaryColor" && r[2].0 == "fontFamily" && r[3].0 == "baseFontSize"
  {
    [("primaryColor", v.primaryColor), ("secondaryColor", v.secondaryColor),
     ("fontFamily", v.fontFamily), ("baseFontSize", v.baseFontSize)]
  }

  /** The log never holds more than this many snapshots. */
  const MaxEntries: nat := 50

  /** The saved snapshots and the cursor (`-1` before the first save). */
  datatype Log = Log(entries: seq<Snapshot>, cursor: int)

  /** The cursor points at an entry or, while the log is empty, just before it. */
  predicate CursorInRange(l: Log) {
    -1 <= l.cursor < |l.entries|
  }

  /** What the editor keeps true of its log. */
  predicate Valid(l: Log) {
    CursorInRange(l) && |l.entries| <= MaxEntries
  }

  /** `saveState`: the entries after the cursor are dropped, the snapshot is
      appended and becomes current, and if that makes the log one too long
      its oldest entry goes. */
  function Save(l: Log, s: Snapshot): (r: Log)
    requires CursorInRange(l)
    ensures 0 <= r.cursor == |r.entries| - 1 && r.entries[r.cursor] == s
    ensures l.cursor + 2 <= MaxEntries ==> r.entries == l.entries[..l.cursor + 1] + [s]
    ensures l.cursor + 2 > MaxEntries ==> r.entries == l.entries[1..l.cursor + 1] + [s]
  {
    var kept := l.entries[..l.cursor + 1] + [s];
    if |kept| > MaxEntries then
      assert kept[1..] == l.entries[1..l.cursor + 1] + [s];
      Log(kept[1..], |kept| - 2)
    else
      Log(kept, |kept| - 1)
  }

  /** `undo` is possible, and the undo button enabled, iff the cursor is past the first entry. */
  predicate CanUndo(l: Log) {
    l.cursor > 0
  }

  /** `redo` is possible, and the redo button enabled, iff the cursor is before the last entry. */
  predicate CanRedo(l: Log) {
    l.cursor < |l.entries| - 1
  }

  /** `undo`: one entry back when possible, otherwise nothing changes. */
  function Undo(l: Log): (r: Log)
    ensures r.entries == l.entries
    ensures CanUndo(l) ==> r.cursor == l.cursor - 1
    ensures !CanUndo(l) ==> r == l
  {
    if l.cursor > 0 then l.(cursor := l.cursor - 1) else l
  }

  /** `redo`: one entry forward when possible, otherwise nothing changes. */
  function Redo(l: Log): (r: Log)
    ensures r.entries == l.entries
    ensures CanRedo(l) ==> r.cursor == l.cursor + 1
    ensures !CanRedo(l) ==> r == l
  {
    if l.cursor < |l.entries| - 1 then l.(cursor := l.cursor + 1) else l
  }

  /** Saving keeps the log within its bound, leaves the new snapshot as the
      last one (nothing left to redo) and, once anything was saved before,
      something to undo. */
  lemma SaveKeepsValid(l: Log, s: Snapshot)
    requires Valid(l)
    ensures Valid(Save(l, s))
    ensures 1 <= |Save(l, s).entries| <= MaxEntries
    ensures !CanRedo(Save(l, s))
    ensures CanUndo(Save(l, s)) <==> l.cursor >= 0
  {
    var r := Save(l, s);
    if l.cursor + 2 <= MaxEntries {
      assert |r.entries| == l.cursor + 2;
    } else {
      assert |r.entries| == l.cursor + 1;
    }
  }

  /** Saving while the log is full drops exactly the oldest entry. */
  lemma SaveWhenFullDropsOldest(l: Log, s: Snapshot)
    requires Valid(l) && |l.entries| == MaxEntries && l.cursor == MaxEntries - 1
    ensures |Save(l, s).entries| == MaxEntries
    ensures Save(l, s).entries == l.entries[1..] + [s]
  {
  }

  /** Undoing right after a save shows again what was shown before the save. */
  lemma SaveThenUndo(l: Log, s: Snapshot)
    requires Valid(l) && l.cursor >= 0
    ensures CanUndo(Save(l, s))
    ensures Undo(Save(l, s)).entries[Undo(Save(l, s)).cursor] == l.entries[l.cursor]
  {
    var r := Save(l, s);
    if l.cursor + 2 <= MaxEntries {
      assert r.entries[r.cursor - 1] == l.entries[..l.cursor + 1][l.cursor];
    } else {
      assert r.entries[r.cursor - 1] == l.entries[1..l.cursor + 1][l.cursor - 1];
    }
  }

  /** A successful undo followed by a redo returns to where the log was. */
  lemma UndoThenRedo(l: Log)
    requires CursorInRange(l) && CanUndo(l)
    ensures CanRedo(Undo(l)) && Redo(Undo(l)) == l
  {
  }

  /** A successful redo followed by an undo returns to where the log was. */
  lemma RedoThenUndo(l: Log)
    requires 0 <= l.cursor < |l.entries| && CanRedo(l)
    ensures CanUndo(Redo(l)) && Undo(Redo(l)) == l
  {
  }

  /** Undo and redo keep the cursor in range. */
  lemma UndoRedoKeepValid(l: Log)
    requires Valid(l)
    ensures Valid(Undo(l)) && Valid(Redo(l))
  {
  }

  // ---------------------------------------------------------------------
  // Restoring the style values of a snapshot (js/editor.js:489-494).

  /** `setProperty(name, value)` when the value is non-empty; an empty value
      (a property the snapshot found unset) leaves the old one in place. */
  function PutIfSet(props: map<string, string>, name: string, value: string): (r: map<string, string>)
    ensures value != "" ==> r == props[name := value]
    ensures value == "" ==> r == props
  {
    if value != "" then props[name := value] else props
  }

  /** The properties after publishing `entries` one after the other, each
      under the custom property named after its key. */
  function Restored(props: map<string, string>, entries: seq<(string, string)>): map<string, string>
  {
    if entries == [] then props
    else
      var last := entries[|entries| - 1];
      PutIfSet(Restored(props, entries[..|entries| - 1]), CssVarName(last.0), last.1)
  }

  /** Publishing one more entry publishes the others first. */
  lemma RestoredAppend(props: map<string, string>, entries: seq<(string, string)>, x: (string, string))
    ensures Restored(props, entries + [x]) == PutIfSet(Restored(props, entries), CssVarName(x.0), x.1)
  {
    assert (entries + [x])[..|entries|] == entries;
  }

  /** Restoring a snapshot's style values sets exactly the four custom
      properties the stylesheet reads, each only when the value is non-empty. */
  lemma RestoredStyles(props: map<string, string>, v: StyleValues)
    ensures Restored(props, StyleEntries(v)) ==
      PutIfSet(PutIfSet(PutIfSet(PutIfSet(props,
        "--primary-color", v.primaryColor),
        "--secondary-color", v.secondaryColor),
        "--font-family", v.fontFamily),
        "--base-font-size", v.baseFontSize)
  {
    var a, b, c, d := ("primaryColor", v.primaryColor), ("secondaryColor", v.secondaryColor),
                      ("fontFamily", v.fontFamily), ("baseFontSize", v.baseFontSize);
    var e1, e2, e3 := [a], [a, b], [a, b, c];
    assert e1 == [] + [a];
    assert e2 == e1 + [b];
    assert e3 == e2 + [c];
    assert StyleEntries(v) == e3 + [d];
    PrimaryColorVar(a.0);
    SecondaryColorVar(b.0);
    FontFamilyVar(c.0);
    BaseFontSizeVar(d.0);
    RestoredAppend(props, [], a);
    var m1 := PutIfSet(props, "--primary-color", v.primaryColor);
    assert Restored(props, e1) == m1;
    RestoredAppend(props, e1, b);
    var m2 := PutIfSet(m1, "--secondary-color", v.secondaryColor);
    assert Restored(props, e2) == m2;
    RestoredAppend(props, e2, c);
    var m3 := PutIfSet(m2, "--font-family", v.fontFamily);
    assert Restored(props, e3) == m3;
    RestoredAppend(props, e3, d);
  }
}
