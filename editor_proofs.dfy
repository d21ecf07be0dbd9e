/** Properties of the editor buffer of Tools/CodeEditor.py: what undo and redo bring
    back after a save, how far the history reaches, what text a deleted selection
    removes, which call the autocomplete context names, and the theme cycle. */
module EditorProofs {
  import opened Common
  import opened Editor

  // ---------------------------------------------------------------------------
  // History

  /** A save keeps the entries up to the current one, appends the snapshot, and drops
      the oldest entry exactly when that would exceed `max_history`. */
  lemma SaveKeepsPast(e: EditorState)
    requires -1 <= e.historyIdx < |e.history|
    ensures var kept := e.history[..e.historyIdx + 1] + [Snapshot(e.lines, e.cx, e.cy)];
      var r := WithHistory(e);
      (|kept| <= MaxHistory ==> r.history == kept) &&
      (|kept| > MaxHistory ==> r.history == kept[1..])
  {
    if e.historyIdx == |e.history| - 1 {
      assert e.history[..e.historyIdx + 1] == e.history;
    }
  }

  /** After an edit is saved, undo brings back the snapshot that was current before
      the save. */
  lemma UndoAfterSave(e: EditorState)
    requires 0 <= e.historyIdx < |e.history| <= MaxHistory
    ensures var r := Undone(WithHistory(e));
      r.historyIdx >= 0 && Snapshot(r.lines, r.cx, r.cy) == e.history[e.historyIdx]
  {
    SaveKeepsPast(e);
  }

  /** Undo then redo, away from the first entry, returns to the same entry and brings
      back its snapshot. */
  lemma UndoThenRedo(e: EditorState)
    requires 0 < e.historyIdx < |e.history|
    ensures var r := Redone(Undone(e));
      r.historyIdx == e.historyIdx && r.history == e.history &&
      Snapshot(r.lines, r.cx, r.cy) == e.history[e.historyIdx]
  {
  }

  /** Redo then undo, away from the last entry, returns to the same entry. */
  lemma RedoThenUndo(e: EditorState)
    requires 0 <= e.historyIdx < |e.history| - 1
    ensures var r := Undone(Redone(e));
      r.historyIdx == e.historyIdx && r.history == e.history &&
      Snapshot(r.lines, r.cx, r.cy) == e.history[e.historyIdx]
  {
  }

  /** Undo at the first entry does nothing, but a redo from there moves on: undo then
      redo is not the identity at index 0 when there is something to redo. */
  lemma UndoRedoAtFirstEntry(e: EditorState)
    requires e.historyIdx == 0 && |e.history| >= 2
    ensures Undone(e) == e && Redone(Undone(e)).historyIdx == 1
  {
  }

  /** Undo and redo keep a valid editor valid, whatever the anchor. */
  lemma UndoRedoKeepValid(e: EditorState)
    requires Valid(e)
    ensures Valid(Undone(e)) && Valid(Redone(e))
  {
  }

  /** Undo leaves the anchor where it was, so it can point past the restored lines:
      type `a` in an empty buffer, press Enter, extend the selection one row up and
      undo. A delete from there (Backspace, Enter, Tab or a character key with the
      selection set) saves the history and then raises IndexError. */
  lemma StaleAnchorRaises()
    ensures var e := EditorState(["a", ""], 0, 0, Some(Pos(0, 1)),
                                 [Snapshot([""], 0, 0), Snapshot([""], 0, 0), Snapshot(["a"], 1, 0)], 2, "DARK");
      var u := Undone(e);
      Valid(e) && Valid(u) && u.lines == [""] && u.selStart == Some(Pos(0, 1)) &&
      SelectionDeleted(u) == (WithHistory(u), Err(IndexError))
  {
    var e := EditorState(["a", ""], 0, 0, Some(Pos(0, 1)),
                         [Snapshot([""], 0, 0), Snapshot([""], 0, 0), Snapshot(["a"], 1, 0)], 2, "DARK");
    assert Undone(e).lines == [""];
  }

  // ---------------------------------------------------------------------------
  // Deleting a selection removes exactly the selected text

  /** `"\n".join(lines)`. */
  function Join(lines: seq<string>): string
  {
    if |lines| == 0 then ""
    else if |lines| == 1 then lines[0]
    else lines[0] + "\n" + Join(lines[1..])
  }

  lemma {:induction false} JoinAppend(a: seq<string>, b: seq<string>)
    requires |a| > 0 && |b| > 0
    ensures Join(a + b) == Join(a) + "\n" + Join(b)
    decreases |a|
  {
    if |a| == 1 {
      assert (a + b)[1..] == b;
    } else {
      assert (a + b)[1..] == a[1..] + b;
      JoinAppend(a[1..], b);
    }
  }

  /** The text before row `k`, with its line break. */
  function Head(lines: seq<string>, k: nat): string
    requires k <= |lines|
  {
    if k == 0 then "" else Join(lines[..k]) + "\n"
  }

  /** The text after row `k`, with its line break. */
  function Tail(lines: seq<string>, k: nat): string
    requires k < |lines|
  {
    if k + 1 == |lines| then "" else "\n" + Join(lines[k + 1..])
  }

  /** The text is the rows before `k`, row `k`, and the rows after it. */
  lemma Decompose(lines: seq<string>, k: nat)
    requires k < |lines|
    ensures Join(lines) == Head(lines, k) + lines[k] + Tail(lines, k)
  {
    RowThenTail(lines, k);
    HeadThenRest(lines, k);
    Assemble(Join(lines), Head(lines, k), Join(lines[k..]), lines[k], Tail(lines, k));
  }

  lemma Assemble(whole: string, head: string, rest: string, row: string, tail: string)
    requires whole == head + rest && rest == row + tail
    ensures whole == head + row + tail
  {
  }

  lemma HeadThenRest(lines: seq<string>, k: nat)
    requires k < |lines|
    ensures Join(lines) == Head(lines, k) + Join(lines[k..])
  {
    if k == 0 {
      assert lines[k..] == lines;
    } else {
      assert lines == lines[..k] + lines[k..];
      JoinAppend(lines[..k], lines[k..]);
    }
  }

  lemma RowThenTail(lines: seq<string>, k: nat)
    requires k < |lines|
    ensures Join(lines[k..]) == lines[k] + Tail(lines, k)
  {
    if k + 1 < |lines| {
      assert lines[k..][1..] == lines[k + 1..];
    } else {
      assert lines[k..] == [lines[k]];
    }
  }

  /** The offset in the joined text of column `p.x` in row `p.y`. */
  function Offset(lines: seq<string>, p: Pos): int
    requires 0 <= p.y < |lines|
  {
    |Head(lines, p.y)| + p.x
  }

  lemma SliceMiddle(a: string, b: string, c: string, k: nat)
    requires k <= |b|
    ensures (a + b + c)[..|a| + k] == a + b[..k]
    ensures (a + b + c)[|a| + k..] == b[k..] + c
  {
    assert a + b + c == (a + b[..k]) + (b[k..] + c);
  }

  /** Row `i` ends before row `j` starts when `i < j`. */
  lemma RowsInOrder(lines: seq<string>, i: nat, j: nat)
    requires i < j < |lines|
    ensures |Head(lines, i)| + |lines[i]| < |Head(lines, j)|
  {
    var a := lines[..i + 1];
    if i + 1 < j {
      assert lines[..j] == a + lines[i + 1..j];
      JoinAppend(a, lines[i + 1..j]);
    } else {
      assert lines[..j] == a;
    }
    if i > 0 {
      assert a == lines[..i] + [lines[i]];
      JoinAppend(lines[..i], [lines[i]]);
    }
  }

  /** The joined text of the lines once the selection is cut. */
  lemma JoinWithout(lines: seq<string>, start: Pos, end: Pos)
    requires 0 <= start.y <= end.y < |lines| && start.x >= 0 && end.x >= 0
    ensures Join(LinesWithout(lines, start, end)) ==
      Head(lines, start.y) + (Prefix(lines[start.y], start.x) + Suffix(lines[end.y], end.x)) + Tail(lines, end.y)
  {
    var r := LinesWithout(lines, start, end);
    Decompose(r, start.y);
    assert r[..start.y] == lines[..start.y];
    assert r[start.y + 1..] == lines[end.y + 1..];
  }

  /** Deleting a sorted selection whose ends lie within their rows leaves the text
      before the start followed by the text after the end. */
  lemma DeletedText(lines: seq<string>, start: Pos, end: Pos)
    requires 0 <= start.y <= end.y < |lines|
    requires 0 <= start.x <= |lines[start.y]| && 0 <= end.x <= |lines[end.y]|
    requires !PosLess(end, start)
    ensures var t := Join(lines);
      0 <= Offset(lines, start) <= Offset(lines, end) <= |t| &&
      Join(LinesWithout(lines, start, end)) == t[..Offset(lines, start)] + t[Offset(lines, end)..]
  {
    OffsetsOrdered(lines, start, end);
    SplitAt(lines, start);
    SplitAt(lines, end);
    CutRows(lines, start, end);
    Regroup(Head(lines, start.y), lines[start.y][..start.x], lines[end.y][end.x..], Tail(lines, end.y));
  }

  /** The text before and after column `p.x` of row `p.y`. */
  lemma SplitAt(lines: seq<string>, p: Pos)
    requires 0 <= p.y < |lines| && 0 <= p.x <= |lines[p.y]| && Offset(lines, p) <= |Join(lines)|
    ensures Join(lines)[..Offset(lines, p)] == Head(lines, p.y) + lines[p.y][..p.x]
    ensures Join(lines)[Offset(lines, p)..] == lines[p.y][p.x..] + Tail(lines, p.y)
  {
    Decompose(lines, p.y);
    SliceMiddle(Head(lines, p.y), lines[p.y], Tail(lines, p.y), p.x);
  }

  /** `JoinWithout` with the cut written as slices. */
  lemma CutRows(lines: seq<string>, start: Pos, end: Pos)
    requires 0 <= start.y <= end.y < |lines|
    requires 0 <= start.x <= |lines[start.y]| && 0 <= end.x <= |lines[end.y]|
    ensures Join(LinesWithout(lines, start, end)) ==
      Head(lines, start.y) + (lines[start.y][..start.x] + lines[end.y][end.x..]) + Tail(lines, end.y)
  {
    JoinWithout(lines, start, end);
    assert Prefix(lines[start.y], start.x) == lines[start.y][..start.x];
    assert Suffix(lines[end.y], end.x) == lines[end.y][end.x..];
  }

  lemma Regroup(a: string, b: string, c: string, d: string)
    ensures a + (b + c) + d == (a + b) + (c + d)
  {
  }

  /** The start of a sorted selection comes no later in the text than its end. */
  lemma OffsetsOrdered(lines: seq<string>, start: Pos, end: Pos)
    requires 0 <= start.y <= end.y < |lines|
    requires 0 <= start.x <= |lines[start.y]| && 0 <= end.x <= |lines[end.y]|
    requires !PosLess(end, start)
    ensures 0 <= Offset(lines, start) <= Offset(lines, end) <= |Join(lines)|
  {
    Decompose(lines, end.y);
    if start.y < end.y {
      RowsInOrder(lines, start.y, end.y);
    }
  }

  /** `delete_selection` on a valid editor whose selection ends lie inside their rows
      removes exactly the selected text and leaves `ey - sy` fewer rows. */
  lemma DeleteSelectionText(e: EditorState)
    requires Valid(e) && e.selStart.Some? && e.selStart.value.y < |e.lines|
    requires e.cx <= |e.lines[e.cy]| && e.selStart.value.x <= |e.lines[e.selStart.value.y]|
    ensures var (r, deleted) := SelectionDeleted(e);
      var (start, end) := SortedSelection(e.selStart, Pos(e.cx, e.cy)).value;
      var t := Join(e.lines);
      deleted == Ok(true) && r.cx == start.x && r.cy == start.y &&
      |r.lines| == |e.lines| - (end.y - start.y) &&
      0 <= Offset(e.lines, start) <= Offset(e.lines, end) <= |t| &&
      Join(r.lines) == t[..Offset(e.lines, start)] + t[Offset(e.lines, end)..]
  {
    var (start, end) := SortedSelection(e.selStart, Pos(e.cx, e.cy)).value;
    DeletedText(e.lines, start, end);
  }

  /** Because the snapshot is saved before the edit, undo after `delete_selection`
      goes back to the entry that was current before it, and a redo from there brings
      back the buffer as it was just before the deletion. */
  lemma DeleteSelectionUndo(e: EditorState)
    requires Valid(e) && e.selStart.Some? && e.historyIdx >= 0
    ensures var r := SelectionDeleted(e).0;
      var u := Undone(r);
      Snapshot(u.lines, u.cx, u.cy) == e.history[e.historyIdx] &&
      var d := Redone(u);
      d.lines == e.lines && d.cx == e.cx && d.cy == e.cy
  {
    SaveKeepsPast(e);
  }

  // ---------------------------------------------------------------------------
  // Strip and the identifier before a paren

  /** `strip` removes whitespace only, from both ends. */
  lemma StripRemovesSpace(s: string)
    ensures exists i, j ::
      0 <= i <= j <= |s| && Strip(s) == s[i..j] &&
      (forall m :: 0 <= m < i ==> IsSpace(s[m])) && (forall m :: j <= m < |s| ==> IsSpace(s[m]))
  {
    var a := Lead(s, 0);
    var b := Trail(s, a, |s|);
    assert Strip(s) == s[a..b];
  }

  /** `re.search(r'([a-zA-Z_]\w*)$', s)` finds the leftmost position where an
      identifier start is followed only by word characters, and nothing when there is
      no such position. */
  lemma TrailingIdentLeftmost(s: string)
    ensures var r := TrailingIdent(s);
      (r.None? <==> forall p :: 0 <= p < |s| ==> !IdentAt(s, p)) &&
      (r.Some? ==> exists p ::
        IdentAt(s, p) && r.value == s[p..] && forall q :: 0 <= q < p ==> !IdentAt(s, q))
  {
    var w := WordRunStart(s);
    var q := FirstIdentStart(s, w);
    forall p | 0 <= p < q
      ensures !IdentAt(s, p)
    {
      if p == w - 1 {
        assert !IsWord(s[p]);
      } else if p < w - 1 {
        assert s[p + 1..][w - p - 2] == s[w - 1];
      }
    }
    if q < |s| {
      assert s[q + 1..] == s[w..][q + 1 - w..];
      assert IdentAt(s, q);
    }
  }

  // ---------------------------------------------------------------------------
  // The call context of the cursor

  /** The right-to-left scan, run from `j` with the balance and comma count of
      `t[j..]`, stops at the last unmatched `(` before `j`. */
  lemma {:induction false} ScanFinds(t: string, i: nat, j: nat, balance: int, argIndex: int)
    requires i < j <= |t| && OpensCall(t, i)
    requires forall k :: i < k < |t| ==> !OpensCall(t, k)
    requires balance == Net(t[j..]) && balance >= 0 && argIndex == TopLevelCommas(t[j..])
    ensures var name := TrailingIdent(Strip(t[..i]));
      ScanBack(t, j, balance, argIndex) == if name.Some? then (name, TopLevelCommas(t[i + 1..])) else (None, 0)
    decreases j
  {
    if j - 1 == i {
      ScanAtOpen(t, i, balance, argIndex);
    } else {
      var b, a := ScanStep(t, j, balance, argIndex);
      ScanFinds(t, i, j - 1, b, a);
    }
  }

  /** Reaching the `(` that opens the call, the scan reports the name before it. */
  lemma ScanAtOpen(t: string, i: nat, balance: int, argIndex: int)
    requires OpensCall(t, i) && balance == Net(t[i + 1..]) && argIndex == TopLevelCommas(t[i + 1..])
    ensures var name := TrailingIdent(Strip(t[..i]));
      ScanBack(t, i + 1, balance, argIndex) == if name.Some? then (name, argIndex) else (None, 0)
  {
  }

  /** One step of the scan over a character that does not open the call: the
      balance and the comma count follow the text one character longer. */
  lemma ScanStep(t: string, j: nat, balance: int, argIndex: int) returns (b: int, a: int)
    requires 0 < j <= |t| && !OpensCall(t, j - 1)
    requires balance == Net(t[j..]) && balance >= 0
    ensures b == Net(t[j - 1..]) && b >= 0
    ensures argIndex == TopLevelCommas(t[j..]) ==> a == TopLevelCommas(t[j - 1..])
    ensures ScanBack(t, j, balance, argIndex) == ScanBack(t, j - 1, b, a)
  {
    var c := t[j - 1];
    assert t[j - 1..][1..] == t[j..];
    b := if c == ')' then balance + 1 else if c == '(' then balance - 1 else balance;
    a := if c == ',' && balance == 0 then argIndex + 1 else argIndex;
  }

  /** With no unmatched `(` before `j`, the scan finds no call. */
  lemma {:induction false} ScanFindsNothing(t: string, j: nat, balance: int, argIndex: int)
    requires j <= |t| && forall k :: 0 <= k < |t| ==> !OpensCall(t, k)
    requires balance == Net(t[j..]) && balance >= 0
    ensures ScanBack(t, j, balance, argIndex) == (None, 0)
    decreases j
  {
    if j > 0 {
      var b, a := ScanStep(t, j, balance, argIndex);
      ScanFindsNothing(t, j - 1, b, a);
    }
  }

  /** `analyze_cursor_context`: at the last `(` left of the cursor whose parens to the
      right are balanced, the identifier before it (after stripping) and the number of
      commas after it outside inner parens; `(None, 0)` when there is no such `(` or
      no identifier before it. */
  lemma CursorContextSpec(t: string)
    ensures (forall k :: 0 <= k < |t| ==> !OpensCall(t, k)) ==> CursorContext(t) == (None, 0)
    ensures forall i :: OpensCall(t, i) && (forall k :: i < k < |t| ==> !OpensCall(t, k)) ==>
      var name := TrailingIdent(Strip(t[..i]));
      CursorContext(t) == if name.Some? then (name, TopLevelCommas(t[i + 1..])) else (None, 0)
  {
    assert t[|t|..] == [];
    if forall k :: 0 <= k < |t| ==> !OpensCall(t, k) {
      ScanFindsNothing(t, |t|, 0, 0);
    }
    forall i | OpensCall(t, i) && (forall k :: i < k < |t| ==> !OpensCall(t, k))
      ensures var name := TrailingIdent(Strip(t[..i]));
        CursorContext(t) == if name.Some? then (name, TopLevelCommas(t[i + 1..])) else (None, 0)
    {
      ScanFinds(t, i, |t|, 0, 0);
    }
  }

  // ---------------------------------------------------------------------------
  // Theme

  /** Toggling moves from each theme to the next one in `THEMES` order, wrapping
      around from the last to the first. */
  lemma ThemeStep(i: nat)
    requires i < |ThemeNames|
    ensures NextTheme(ThemeNames[i]) == ThemeNames[(i + 1) % |ThemeNames|]
    ensures NextTheme(ThemeNames[i]) != ThemeNames[i]
  {
    ThemesDistinct();
    assert ThemeIndex(ThemeNames[i]) == i;
  }

  /** Four toggles come back to the theme they started from. */
  lemma ThemeCycle(name: string)
    requires name in ThemeNames
    ensures NextTheme(NextTheme(NextTheme(NextTheme(name)))) == name
  {
    var t0, t1, t2, t3 := ThemeNames[0], ThemeNames[1], ThemeNames[2], ThemeNames[3];
    ThemeStep(0);
    ThemeStep(1);
    ThemeStep(2);
    ThemeStep(3);
    assert NextTheme(t0) == t1 && NextTheme(t1) == t2 && NextTheme(t2) == t3 && NextTheme(t3) == t0;
    assert name == t0 || name == t1 || name == t2 || name == t3;
  }

  /** The four theme names differ. */
  lemma ThemesDistinct()
    ensures forall i, j :: 0 <= i < j < |ThemeNames| ==> ThemeNames[i] != ThemeNames[j]
  {
    assert ThemeNames[0][1] == 'A' && ThemeNames[1][1] == 'E' && ThemeNames[2][1] == 'R' && ThemeNames[3][1] == 'R';
    assert |ThemeNames[2]| == 7 && |ThemeNames[3]| == 5;
  }

  /** A name that is not a theme toggles to the second theme, as if it were the first. */
  lemma UnknownThemeToggles(name: string)
    requires name !in ThemeNames
    ensures NextTheme(name) == "RETRO"
  {
  }
}
