/** Cursor movement and selection toggling on the file list (`App::next`,
    `App::previous`, `App::toggle_selected`), as functions of the old values. */
module Navigation {
  import opened Session

  /** The row `next` selects: one down, wrapping from the last row to the
      first; an unset cursor goes to the first row. */
  function NextIndex(cursor: Option<nat>, len: nat): (i: nat)
    requires len > 0
    ensures i < len
    ensures cursor == None ==> i == 0
    ensures cursor.Some? && cursor.value + 1 < len ==> i == cursor.value + 1
    ensures cursor.Some? && cursor.value + 1 == len ==> i == 0
  {
    match cursor
    case Some(i) => (i + 1) % len
    case None => 0
  }

  /** The row `previous` selects: one up, wrapping from the first row to the
      last; an unset cursor goes to the first row. */
  function PreviousIndex(cursor: Option<nat>, len: nat): (i: nat)
    requires len > 0
    ensures CursorInRange(cursor, len) ==> i < len
    ensures cursor == None ==> i == 0
    ensures cursor == Some(0) ==> i == len - 1
    ensures cursor.Some? && cursor.value > 0 ==> i + 1 == cursor.value
  {
    match cursor
    case Some(i) => if i == 0 then len - 1 else i - 1
    case None => 0
  }

  /** The list after `toggle_selected`: only the entry under the cursor has
      its mark flipped; with no cursor nothing changes. */
  function Toggled(files: seq<FileItem>, cursor: Option<nat>): (r: seq<FileItem>)
    requires CursorInRange(cursor, |files|)
    ensures |r| == |files|
    ensures forall j :: 0 <= j < |files| ==> r[j].name == files[j].name
    ensures forall j :: 0 <= j < |files| ==> (r[j].selected != files[j].selected <==> cursor == Some(j))
    ensures cursor == None ==> r == files
  {
    match cursor
    case None => files
    case Some(i) => files[i := files[i].(selected := !files[i].selected)]
  }

  /** `previous` undoes `next` at every row. */
  lemma PreviousUndoesNext(i: nat, len: nat)
    requires i < len
    ensures PreviousIndex(Some(NextIndex(Some(i), len)), len) == i
  {
  }

  /** `next` undoes `previous` at every row. */
  lemma NextUndoesPrevious(i: nat, len: nat)
    requires i < len
    ensures NextIndex(Some(PreviousIndex(Some(i), len)), len) == i
  {
  }

  /** The row reached from `i` by `k` presses of `next`. */
  function Advance(i: nat, k: nat, len: nat): (j: nat)
    requires i < len
    ensures j < len
    decreases k
  {
    if k == 0 then i else NextIndex(Some(Advance(i, k - 1, len)), len)
  }

  /** Presses of `next` compose: `a` presses then `b` presses are `a + b` presses. */
  lemma {:induction false} AdvanceCompose(i: nat, a: nat, b: nat, len: nat)
    requires i < len
    ensures Advance(Advance(i, a, len), b, len) == Advance(i, a + b, len)
    decreases b
  {
    if b > 0 {
      AdvanceCompose(i, a, b - 1, len);
    }
  }

  /** Fewer than `len` presses of `next` move the cursor `k` rows down,
      wrapping past the last row at most once. */
  lemma {:induction false} AdvanceWithinOneCycle(i: nat, k: nat, len: nat)
    requires i < len && k < len
    ensures Advance(i, k, len) == if i + k < len then i + k else i + k - len
    decreases k
  {
    if k > 0 {
      AdvanceWithinOneCycle(i, k - 1, len);
    }
  }

  /** Pressing `next` once per file returns the cursor to where it started. */
  lemma {:induction false} AdvanceFullCycle(i: nat, len: nat)
    requires i < len
    ensures Advance(i, len, len) == i
  {
    AdvanceWithinOneCycle(i, len - i - 1, len);
    assert Advance(i, len - i, len) == 0;
    AdvanceCompose(i, len - i, i, len);
    AdvanceWithinOneCycle(0, i, len);
  }

  /** With a single file both movements keep the cursor on row 0. */
  lemma SingleFileNavigation(cursor: Option<nat>)
    requires CursorInRange(cursor, 1)
    ensures NextIndex(cursor, 1) == 0 && PreviousIndex(cursor, 1) == 0
  {
  }

  /** Toggling twice at the same cursor restores the list. */
  lemma ToggleTwice(files: seq<FileItem>, cursor: Option<nat>)
    requires CursorInRange(cursor, |files|)
    ensures Toggled(Toggled(files, cursor), cursor) == files
  {
  }
}
