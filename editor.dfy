/** The text-buffer logic of Tools/CodeEditor.py: the undo history, the selection,
    the indentation and call-site helpers, and the theme switch. The functions give
    each operation's meaning on an explicit editor state; the class `CodeEditor` at
    the end holds the same state in fields and its methods are proved to reach it. */
module Editor {
  import opened Common

  /** A cursor position `(cx, cy)`: column `x` in row `y`. */
  datatype Pos = Pos(x: int, y: int)

  /** One history entry: a copy of the lines and the cursor. */
  datatype Snapshot = Snapshot(lines: seq<string>, cx: int, cy: int)

  /** The fields the buffer operations read and write. `selStart` is the selection
      anchor; the selection runs from it to the cursor. */
  datatype EditorState = EditorState(
    lines: seq<string>, cx: int, cy: int, selStart: Option<Pos>,
    history: seq<Snapshot>, historyIdx: int, themeName: string)

  /** `max_history`: the number of snapshots kept. */
  const MaxHistory: int := 50

  /** The keys of `THEMES` in Tools/Themes.py, in insertion order. */
  const ThemeNames: seq<string> := ["DARK", "RETRO", "DRACULA", "CREAM"]

  // ---------------------------------------------------------------------------
  // Well-formed states

  predicate ValidBuffer(lines: seq<string>, cx: int, cy: int)
  {
    |lines| >= 1 && 0 <= cy < |lines| && 0 <= cx
  }

  /** What the editor keeps true between events: a non-empty buffer with the cursor
      on an existing row, an anchor at non-negative coordinates, and `history_idx` at
      an entry (or `-1` before the first save). The anchor is a cursor position when
      it is set, but undo and redo replace the lines without clearing it, so its row
      may no longer exist. */
  predicate Valid(e: EditorState)
  {
    ValidBuffer(e.lines, e.cx, e.cy) &&
    (e.selStart.Some? ==> 0 <= e.selStart.value.y && 0 <= e.selStart.value.x) &&
    -1 <= e.historyIdx < |e.history| && |e.history| <= MaxHistory &&
    forall k :: 0 <= k < |e.history| ==> ValidBuffer(e.history[k].lines, e.history[k].cx, e.history[k].cy)
  }

  // ---------------------------------------------------------------------------
  // History

  /** `save_history`: drop the redo tail past `history_idx`, append a snapshot of the
      buffer, drop the oldest entry beyond `max_history`, and point at the last entry. */
  function WithHistory(e: EditorState): (r: EditorState)
    requires -1 <= e.historyIdx < |e.history|
    ensures r == e.(history := r.history, historyIdx := r.historyIdx)
    ensures |r.history| >= 1 && r.historyIdx == |r.history| - 1
    ensures r.history[r.historyIdx] == Snapshot(e.lines, e.cx, e.cy)
    ensures |e.history| <= MaxHistory ==> |r.history| <= MaxHistory
  {
    var kept := if e.historyIdx < |e.history| - 1 then e.history[..e.historyIdx + 1] else e.history;
    var appended := kept + [Snapshot(e.lines, e.cx, e.cy)];
    var h := if |appended| > MaxHistory then appended[1..] else appended;
    e.(history := h, historyIdx := |h| - 1)
  }

  /** Restore the buffer and cursor from history entry `i`. */
  function Restored(e: EditorState, i: int): EditorState
    requires 0 <= i < |e.history|
  {
    e.(historyIdx := i, lines := e.history[i].lines, cx := e.history[i].cx, cy := e.history[i].cy)
  }

  /** `undo`: step back one entry, unless already at the first. */
  function Undone(e: EditorState): (r: EditorState)
    requires -1 <= e.historyIdx < |e.history|
    ensures r.history == e.history && r.selStart == e.selStart && r.themeName == e.themeName
    ensures e.historyIdx > 0 ==>
      r.historyIdx == e.historyIdx - 1 && Snapshot(r.lines, r.cx, r.cy) == e.history[e.historyIdx - 1]
    ensures e.historyIdx <= 0 ==> r == e
  {
    if e.historyIdx > 0 then Restored(e, e.historyIdx - 1) else e
  }

  /** `redo`: step forward one entry, unless already at the last. */
  function Redone(e: EditorState): (r: EditorState)
    requires -1 <= e.historyIdx < |e.history|
    ensures r.history == e.history && r.selStart == e.selStart && r.themeName == e.themeName
    ensures e.historyIdx < |e.history| - 1 ==>
      r.historyIdx == e.historyIdx + 1 && Snapshot(r.lines, r.cx, r.cy) == e.history[e.historyIdx + 1]
    ensures e.historyIdx >= |e.history| - 1 ==> r == e
  {
    if e.historyIdx < |e.history| - 1 then Restored(e, e.historyIdx + 1) else e
  }

  // ---------------------------------------------------------------------------
  // Selection

  /** `(y, x)` tuple order: by row, then by column. */
  predicate PosLess(a: Pos, b: Pos)
  {
    a.y < b.y || (a.y == b.y && a.x < b.x)
  }

  /** `get_sorted_selection`: nothing without an anchor, else the anchor and the
      cursor in document order. */
  function SortedSelection(anchor: Option<Pos>, cursor: Pos): (r: Option<(Pos, Pos)>)
    ensures r.Some? <==> anchor.Some?
    ensures r.Some? ==> multiset{r.value.0, r.value.1} == multiset{anchor.value, cursor}
    ensures r.Some? ==> !PosLess(r.value.1, r.value.0)
  {
    if anchor.None? then None
    else if PosLess(anchor.value, cursor) then Some((anchor.value, cursor))
    else Some((cursor, anchor.value))
  }

  /** `s[:k]` for `k >= 0`: a slice past the end stops at the end. */
  function Prefix(s: string, k: int): (r: string)
    requires k >= 0
    ensures |r| == Min(k, |s|) && r == s[..|r|]
  {
    if k < |s| then s[..k] else s
  }

  /** `s[k:]` for `k >= 0`. */
  function Suffix(s: string, k: int): (r: string)
    requires k >= 0
    ensures |r| == |s| - Min(k, |s|) && r == s[|s| - |r|..]
  {
    if k < |s| then s[k..] else []
  }

  /** The lines once the text from `start` to `end` is cut out: row `start.y` keeps
      its text before `start` followed by row `end.y`'s text from `end` on, and the
      rows after it up to `end.y` go. */
  function LinesWithout(lines: seq<string>, start: Pos, end: Pos): (r: seq<string>)
    requires 0 <= start.y <= end.y < |lines| && start.x >= 0 && end.x >= 0
    ensures |r| == |lines| - (end.y - start.y)
    ensures r[..start.y] == lines[..start.y] && r[start.y + 1..] == lines[end.y + 1..]
    ensures r[start.y] == Prefix(lines[start.y], start.x) + Suffix(lines[end.y], end.x)
  {
    lines[..start.y] + [Prefix(lines[start.y], start.x) + Suffix(lines[end.y], end.x)] + lines[end.y + 1..]
  }

  /** The exception `delete_selection` can raise: indexing `lines` at a row that no
      longer exists. */
  datatype EditorError = IndexError

  /** `delete_selection`: without a selection, nothing happens and the answer is
      false; otherwise save the history, cut the selected text, put the cursor at the
      start, and drop the anchor. When the anchor's row is past the last line (an
      anchor left behind by undo or redo), reading `lines[ey]` raises IndexError after
      the history was saved and before anything else changed. */
  function SelectionDeleted(e: EditorState): (r: (EditorState, Result<bool, EditorError>))
    requires Valid(e)
    ensures r.1 == Ok(false) <==> e.selStart.None?
    ensures r.1 == Ok(false) ==> r.0 == e
    ensures r.1.Err? <==> e.selStart.Some? && e.selStart.value.y >= |e.lines|
    ensures r.1.Err? ==> r.0 == WithHistory(e) && r.0.lines == e.lines && r.0.selStart == e.selStart
    ensures r.1 == Ok(true) ==> Valid(r.0) && r.0.selStart.None? && r.0.themeName == e.themeName
  {
    match SortedSelection(e.selStart, Pos(e.cx, e.cy))
    case None => (e, Ok(false))
    case Some((start, end)) =>
      var h := WithHistory(e);
      if end.y >= |h.lines| then (h, Err(IndexError))
      else (h.(lines := LinesWithout(h.lines, start, end), cx := start.x, cy := start.y, selStart := None), Ok(true))
  }

  // ---------------------------------------------------------------------------
  // Call-site context for the autocomplete popup

  /** `[a-zA-Z_]`. */
  predicate IsIdentStart(c: char)
  {
    'a' <= c <= 'z' || 'A' <= c <= 'Z' || c == '_'
  }

  /** `\w`, as ASCII: letters, digits and `_`. */
  predicate IsWord(c: char)
  {
    IsIdentStart(c) || '0' <= c <= '9'
  }

  predicate AllWord(s: string)
  {
    forall k :: 0 <= k < |s| ==> IsWord(s[k])
  }

  /** Whether the pattern `[a-zA-Z_]\w*$` matches `s` starting at `p`. */
  predicate IdentAt(s: string, p: int)
  {
    0 <= p < |s| && IsIdentStart(s[p]) && AllWord(s[p + 1..])
  }

  /** The start of the longest all-word suffix of `s`. */
  function WordRunStart(s: string): (w: nat)
    ensures w <= |s| && AllWord(s[w..])
    ensures w > 0 ==> !IsWord(s[w - 1])
  {
    if |s| == 0 || !IsWord(s[|s| - 1]) then |s|
    else
      var w := WordRunStart(s[..|s| - 1]);
      assert s[w..] == s[..|s| - 1][w..] + [s[|s| - 1]];
      w
  }

  /** The first position at or after `p` holding an identifier start. */
  function FirstIdentStart(s: string, p: nat): (q: nat)
    requires p <= |s|
    ensures p <= q <= |s| && (q < |s| ==> IsIdentStart(s[q]))
    ensures forall k :: p <= k < q ==> !IsIdentStart(s[k])
    decreases |s| - p
  {
    if p == |s| || IsIdentStart(s[p]) then p else FirstIdentStart(s, p + 1)
  }

  /** `re.search(r'([a-zA-Z_]\w*)$', s)`: group 1 of the leftmost match, if any. */
  function TrailingIdent(s: string): Option<string>
  {
    var q := FirstIdentStart(s, WordRunStart(s));
    if q < |s| then Some(s[q..]) else None
  }

  /** The effect of one character on the paren balance read right to left. */
  function ParenDelta(c: char): int
  {
    if c == ')' then 1 else if c == '(' then -1 else 0
  }

  /** `)` minus `(` in `u`. */
  function Net(u: string): int
  {
    if u == [] then 0 else ParenDelta(u[0]) + Net(u[1..])
  }

  /** Where the right-to-left scan stops: an opening paren with the text after it
      balanced. */
  predicate OpensCall(t: string, i: int)
  {
    0 <= i < |t| && t[i] == '(' && Net(t[i + 1..]) == 0
  }

  /** The commas of `u` that sit outside every pair of parens closed to their right. */
  function TopLevelCommas(u: string): nat
  {
    if u == [] then 0
    else (if u[0] == ',' && Net(u[1..]) == 0 then 1 else 0) + TopLevelCommas(u[1..])
  }

  /** The loop of `analyze_cursor_context` from index `j - 1` down, with `balance`
      and `argIndex` so far. */
  function ScanBack(t: string, j: nat, balance: int, argIndex: int): (Option<string>, int)
    requires j <= |t|
  {
    if j == 0 then (None, 0)
    else
      var c := t[j - 1];
      if c == ')' then ScanBack(t, j - 1, balance + 1, argIndex)
      else if c == '(' then
        if balance > 0 then ScanBack(t, j - 1, balance - 1, argIndex)
        else
          var name := TrailingIdent(Strip(t[..j - 1]));
          if name.Some? then (name, argIndex) else (None, 0)
      else if c == ',' && balance == 0 then ScanBack(t, j - 1, balance, argIndex + 1)
      else ScanBack(t, j - 1, balance, argIndex)
  }

  /** `analyze_cursor_context` on the text left of the cursor. */
  function CursorContext(textBefore: string): (Option<string>, int)
  {
    ScanBack(textBefore, |textBefore|, 0, 0)
  }

  // ---------------------------------------------------------------------------
  // Theme

  /** `theme_names.index(name)`, or `0` when it is not a theme. */
  function ThemeIndex(name: string): (i: nat)
    ensures i < |ThemeNames|
    ensures name in ThemeNames ==> ThemeNames[i] == name
    ensures name !in ThemeNames ==> i == 0
  {
    if name == "DARK" then 0 else if name == "RETRO" then 1
    else if name == "DRACULA" then 2 else if name == "CREAM" then 3 else 0
  }

  /** `toggle_theme`: the theme after `name`, wrapping around. */
  function NextTheme(name: string): (r: string)
    ensures r in ThemeNames
  {
    ThemeNames[(ThemeIndex(name) + 1) % |ThemeNames|]
  }

  // ---------------------------------------------------------------------------
  // The editor object

  /** The buffer part of the CodeEditor object. */
  class CodeEditor {
    var lines: seq<string>
    var cx: int
    var cy: int
    var selStart: Option<Pos>
    var history: seq<Snapshot>
    var historyIdx: int
    var themeName: string

    function State(): EditorState
      reads this
    {
      EditorState(lines, cx, cy, selStart, history, historyIdx, themeName)
    }

    /** `__init__`: one empty line, the DARK theme, and the initial snapshot saved. */
    constructor()
      ensures State() == EditorState([""], 0, 0, None, [Snapshot([""], 0, 0)], 0, "DARK")
      ensures Valid(State())
    {
      lines := [""];
      cx := 0;
      cy := 0;
      themeName := "DARK";
      selStart := None;
      history := [];
      historyIdx := -1;
      new;
      SaveHistory();
    }

    method SaveHistory()
      requires -1 <= historyIdx < |history|
      modifies this
      ensures State() == WithHistory(old(State()))
    {
      if historyIdx < |history| - 1 {
        history := history[..historyIdx + 1];
      }
      history := history + [Snapshot(lines, cx, cy)];
      if |history| > MaxHistory {
        history := history[1..];
      }
      historyIdx := |history| - 1;
    }

    method Undo()
      requires -1 <= historyIdx < |history|
      modifies this
      ensures State() == Undone(old(State()))
    {
      if historyIdx > 0 {
        historyIdx := historyIdx - 1;
        var s := history[historyIdx];
        lines := s.lines;
        cx := s.cx;
        cy := s.cy;
      }
    }

    method Redo()
      requires -1 <= historyIdx < |history|
      modifies this
      ensures State() == Redone(old(State()))
    {
      if historyIdx < |history| - 1 {
        historyIdx := historyIdx + 1;
        var s := history[historyIdx];
        lines := s.lines;
        cx := s.cx;
        cy := s.cy;
      }
    }

    /** `get_sorted_selection`. */
    function GetSortedSelection(): Option<(Pos, Pos)>
      reads this
    {
      SortedSelection(selStart, Pos(cx, cy))
    }

    method DeleteSelection() returns (deleted: Result<bool, EditorError>)
      requires Valid(State())
      modifies this
      ensures (State(), deleted) == SelectionDeleted(old(State()))
    {
      var sel := GetSortedSelection();
      if sel.None? {
        return Ok(false);
      }
      var (start, end) := sel.value;
      SaveHistory();
      var sx, sy := start.x, start.y;
      var ex, ey := end.x, end.y;
      // `sy` is the cursor's row or an earlier one, so only `lines[ey]` can fail.
      if ey >= |lines| {
        return Err(IndexError);
      }
      if sy == ey {
        ghost var before := lines;
        lines := lines[sy := Prefix(lines[sy], sx) + Suffix(lines[sy], ex)];
        assert lines == LinesWithout(before, start, end);
      } else {
        ghost var before := lines;
        lines := lines[sy := Prefix(lines[sy], sx) + Suffix(lines[ey], ex)];
        lines := lines[..sy + 1] + lines[ey + 1..];
        assert lines == LinesWithout(before, start, end);
      }
      cx, cy := sx, sy;
      selStart := None;
      deleted := Ok(true);
    }

    /** `analyze_cursor_context`: the function whose call the cursor sits in, and the
        index of the argument it is on. */
    method AnalyzeCursorContext() returns (name: Option<string>, argIndex: int)
      requires 0 <= cy < |lines| && cx >= 0
      ensures (name, argIndex) == CursorContext(Prefix(lines[cy], cx))
    {
      var textBefore := Prefix(lines[cy], cx);
      var balance := 0;
      argIndex := 0;
      var i := |textBefore|;
      while i > 0
        invariant 0 <= i <= |textBefore|
        invariant CursorContext(textBefore) == ScanBack(textBefore, i, balance, argIndex)
        decreases i
      {
        var c := textBefore[i - 1];
        if c == ')' {
          balance := balance + 1;
        } else if c == '(' {
          if balance > 0 {
            balance := balance - 1;
          } else {
            var prefix := Strip(textBefore[..i - 1]);
            name := TrailingIdent(prefix);
            if name.Some? {
              return;
            }
            return None, 0;
          }
        } else if c == ',' && balance == 0 {
          argIndex := argIndex + 1;
        }
        i := i - 1;
      }
      return None, 0;
    }

    /** `get_indentation(line)`: the number of leading spaces. */
    method GetIndentation(line: string) returns (count: int)
      ensures 0 <= count <= |line|
      ensures forall k :: 0 <= k < count ==> line[k] == ' '
      ensures count < |line| ==> line[count] != ' '
    {
      count := 0;
      for i := 0 to |line|
        invariant count == i
        invariant forall k :: 0 <= k < count ==> line[k] == ' '
      {
        if line[i] == ' ' {
          count := count + 1;
        } else {
          break;
        }
      }
    }

    method ToggleTheme()
      modifies this
      ensures State() == old(State()).(themeName := NextTheme(old(themeName)))
    {
      var current := ThemeIndex(themeName);
      var nextIdx := (current + 1) % |ThemeNames|;
      themeName := ThemeNames[nextIdx];
    }
  }
}
