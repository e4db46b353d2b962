/**
 * The code editor's key handling: Tab inserts two spaces, Shift+Tab removes two
 * spaces at the start of the caret's line, Enter carries the indentation over
 * (two more after an IF, WHILE or ELSE header), and Backspace at the start of a
 * line removes two spaces of indentation when the previous line starts with at
 * least two spaces. Each handler maps the text and the selection to a new text and
 * a new caret; the caret that the source sets on the textarea is returned.
 * Positions follow the JavaScript built-ins, including `lastIndexOf` with a
 * negative start and `slice` with a negative end, counted in characters of
 * `string` rather than in UTF-16 code units.
 */
module CodeEditor {
  import opened JsText
  import Interpreter

  /** The keys the handler distinguishes. */
  datatype Key = Tab | Enter | Backspace | OtherKey

  /** What one key press does to the editor. */
  datatype KeyResult =
    | Default                             // the handler leaves the browser's own action in place
    | Prevented                           // the browser's action is cancelled and nothing changes
    | Edited(text: string, caret: int)    // cancelled, replaced by this text and caret

  /** A selection inside the text, as the textarea reports it. */
  predicate ValidSelection(v: string, s: int, e: int) {
    0 <= s <= e <= |v|
  }

  /** `value.lastIndexOf("\n", pos - 1) + 1`: where the source takes the line of `pos` to start. */
  function LineStart(v: string, pos: int): (r: nat)
    ensures r <= |v|
  {
    LastIndexOf(v, '\n', pos - 1) + 1
  }

  /** `value.slice(start, start + 2) === "  "` */
  predicate IndentAt(v: string, start: int) {
    Slice(v, start, start + 2) == "  "
  }

  /** Two spaces begin at `start` exactly when both characters there are spaces. */
  lemma IndentAtIff(v: string, start: nat)
    requires start <= |v|
    ensures IndentAt(v, start) <==> start + 2 <= |v| && v[start] == ' ' && v[start + 1] == ' '
  {
    if start + 2 > |v| {
      assert |Slice(v, start, start + 2)| < 2;
    } else {
      assert Slice(v, start, start + 2) == [v[start], v[start + 1]];
    }
  }

  /** `value.slice(0, start) + value.slice(start + 2)` cuts the two characters at `start`. */
  lemma SliceAround(v: string, start: nat)
    requires start + 2 <= |v|
    ensures Slice(v, 0, start) + Slice(v, start + 2, |v|) == v[..start] + v[start + 2..]
  {
    assert Slice(v, 0, start) == v[..start];
    assert Slice(v, start + 2, |v|) == v[start + 2..|v|];
    assert v[start + 2..|v|] == v[start + 2..];
  }

  // ---------------------------------------------------------------------------
  // Tab
  // ---------------------------------------------------------------------------

  /** Tab without Shift: the selection becomes two spaces and the caret follows them. */
  function TabKey(v: string, s: int, e: int): (r: KeyResult)
    requires ValidSelection(v, s, e)
    ensures r.Edited? && r.caret == s + 2
    ensures |r.text| == |v| - (e - s) + 2
    ensures r.text[..s] == v[..s] && r.text[s..s + 2] == "  " && r.text[s + 2..] == v[e..]
  {
    Edited(Slice(v, 0, s) + "  " + Slice(v, e, |v|), s + 2)
  }

  // ---------------------------------------------------------------------------
  // Shift+Tab
  // ---------------------------------------------------------------------------

  /** Shift+Tab: drop two spaces at the start of the line, moving the caret two to the left. */
  function ShiftTabKey(v: string, s: int, e: int): (r: KeyResult)
    requires ValidSelection(v, s, e)
    ensures var start := LineStart(v, s);
      r.Edited? <==> start + 2 <= |v| && v[start] == ' ' && v[start + 1] == ' '
    ensures var start := LineStart(v, s);
      r.Edited? ==> r.text == v[..start] + v[start + 2..] && r.caret == s - 2
    ensures !r.Edited? ==> r == Prevented
  {
    var start := LineStart(v, s);
    IndentAtIff(v, start);
    if IndentAt(v, start) then
      SliceAround(v, start);
      Edited(Slice(v, 0, start) + Slice(v, start + 2, |v|), s - 2)
    else Prevented
  }

  /** Positions up to `k` agree, so the backward search from `k` finds the same index. */
  lemma {:induction false} LastIndexFromPrefix(a: string, b: string, c: char, k: int)
    requires -1 <= k < |a| && k < |b|
    requires forall j :: 0 <= j <= k ==> a[j] == b[j]
    ensures LastIndexFrom(a, c, k) == LastIndexFrom(b, c, k)
    decreases k + 1
  {
    if k >= 0 && a[k] != c {
      LastIndexFromPrefix(a, b, c, k - 1);
    }
  }

  /** The backward search from `k` stops at `m` when nothing after `m` up to `k` matches. */
  lemma {:induction false} LastIndexFromStops(s: string, c: char, k: int, m: int)
    requires -1 <= m <= k < |s|
    requires m == -1 || s[m] == c
    requires forall j :: m < j <= k ==> s[j] != c
    ensures LastIndexFrom(s, c, k) == m
    decreases k + 1
  {
    if k > m {
      LastIndexFromStops(s, c, k - 1, m);
    }
  }

  /** Two spaces inserted at a line start leave that line start in place. */
  lemma InsertedIndentKeepsLineStart(v: string, s: int, t: string)
    requires 0 <= s <= |v| && LineStart(v, s) == s
    requires t == v[..s] + "  " + v[s..]
    ensures LineStart(t, s + 2) == s
  {
    if s == 0 {
      LastIndexFromStops(t, '\n', 1, -1);
    } else {
      assert LastIndexFrom(v, '\n', s - 1) == s - 1;
      LastIndexFromPrefix(t, v, '\n', s - 1);
      LastIndexFromStops(t, '\n', s + 1, s - 1);
    }
  }

  /** Shift+Tab with the caret two past a line start that holds two spaces cuts them. */
  lemma ShiftTabAtIndent(t: string, s: nat)
    requires s + 2 <= |t| && LineStart(t, s + 2) == s && t[s] == ' ' && t[s + 1] == ' '
    ensures ShiftTabKey(t, s + 2, s + 2) == Edited(t[..s] + t[s + 2..], s)
  {
  }

  /**
   * Tab then Shift+Tab at the start of a line, with nothing selected, gives the
   * original text and caret back.
   */
  lemma {:induction false} TabShiftTabRoundTrip(v: string, s: int)
    requires ValidSelection(v, s, s) && LineStart(v, s) == s
    ensures var t := TabKey(v, s, s);
      ShiftTabKey(t.text, t.caret, t.caret) == Edited(v, s)
  {
    var r := TabKey(v, s, s);
    var t := r.text;
    assert t == v[..s] + "  " + v[s..];
    InsertedIndentKeepsLineStart(v, s, t);
    ShiftTabAtIndent(t, s);
    assert t[..s] + t[s + 2..] == v;
  }

  // ---------------------------------------------------------------------------
  // Enter
  // ---------------------------------------------------------------------------

  /** `/^(IF |WHILE |ELSE$)/.test(trimmed)`: the line opens or continues a block. */
  predicate OpensBlock(trimmed: string)
    ensures OpensBlock(trimmed) ==> trimmed != "" && !Interpreter.IsPrimitive(trimmed)
  {
    assert "ELSE"[0] != "MOVE"[0] && "ELSE"[0] != "TURN LEFT"[0] && "ELSE"[0] != "TURN RIGHT"[0];
    StartsWith(trimmed, "IF ") || StartsWith(trimmed, "WHILE ") || trimmed == "ELSE"
  }

  /**
   * The indentation Enter gives the new line: spaces only, as many as lead the
   * text between the line start and the caret, two more after a block header.
   */
  function NewIndent(v: string, s: int): (r: string)
    ensures forall i :: 0 <= i < |r| ==> r[i] == ' '
    ensures var line := Slice(v, LineStart(v, s), s);
      |r| == |LeadingSpaces(line)| + (if OpensBlock(Trim(line)) then 2 else 0)
  {
    var line := Slice(v, LineStart(v, s), s);
    var indent := LeadingSpaces(line);
    if OpensBlock(Trim(line)) then indent + "  " else indent
  }

  /** Enter: a line break, then the new indentation, in place of the selection. */
  function EnterKey(v: string, s: int, e: int): (r: KeyResult)
    requires ValidSelection(v, s, e)
    ensures r.Edited? && r.caret == s + 1 + |NewIndent(v, s)|
    ensures r.text == v[..s] + "\n" + NewIndent(v, s) + v[e..]
  {
    var indent := NewIndent(v, s);
    Edited(Slice(v, 0, s) + "\n" + indent + Slice(v, e, |v|), s + 1 + |indent|)
  }

  /** Behind a line break and a run of spaces, the line starts right after the break. */
  lemma {:induction false} BreakStartsLine(head: string, indent: string, tail: string)
    requires forall i :: 0 <= i < |indent| ==> indent[i] == ' '
    ensures var t := head + "\n" + indent + tail;
      LineStart(t, |head| + 1 + |indent|) == |head| + 1
      && t[|head| + 1..|head| + 1 + |indent|] == indent
      && t[|head| + 1 + |indent|..] == tail
      && t[..|head|] == head
  {
    var t := head + "\n" + indent + tail;
    var s, caret := |head|, |head| + 1 + |indent|;
    assert t[s] == '\n';
    assert t[s + 1..caret] == indent;
    forall j | s < j <= caret - 1 ensures t[j] != '\n' {
      assert t[j] == indent[j - s - 1];
    }
    LastIndexFromStops(t, '\n', caret - 1, s);
  }

  /**
   * After Enter the caret sits on a new line that starts right after the
   * inserted break, holds exactly the new indentation before the caret, and
   * continues with the text that followed the selection.
   */
  lemma {:induction false} EnterOpensIndentedLine(v: string, s: int, e: int)
    requires ValidSelection(v, s, e)
    ensures var r := EnterKey(v, s, e);
      LineStart(r.text, r.caret) == s + 1
      && r.text[s + 1..r.caret] == NewIndent(v, s)
      && r.text[r.caret..] == v[e..]
      && r.text[..s] == v[..s]
  {
    BreakStartsLine(v[..s], NewIndent(v, s), v[e..]);
  }

  // ---------------------------------------------------------------------------
  // Backspace
  // ---------------------------------------------------------------------------

  /** The indentation of the line before the one starting at `start`, read as the source reads it. */
  function PrevIndent(v: string, start: int): (r: string)
    ensures |r| <= |v| && forall i :: 0 <= i < |r| ==> r[i] == ' '
  {
    var prevLineStart := LastIndexOf(v, '\n', start - 2) + 1;
    LeadingSpaces(Slice(v, prevLineStart, start - 1))
  }

  /**
   * Backspace with the caret at the start of a line: when the line begins with
   * two spaces and the previous line is indented by at least two, those two
   * spaces go and the caret stays; in every other case the handler stays out of
   * the way.
   */
  function BackspaceKey(v: string, s: int, e: int): (r: KeyResult)
    requires ValidSelection(v, s, e)
    ensures var start := LineStart(v, s);
      r.Edited? <==> s == e && s == start && start + 2 <= |v| && v[start] == ' ' && v[start + 1] == ' '
                     && |PrevIndent(v, start)| >= 2
    ensures var start := LineStart(v, s);
      r.Edited? ==> r.text == v[..start] + v[start + 2..] && r.caret == s
    ensures !r.Edited? ==> r == Default
  {
    var start := LineStart(v, s);
    IndentAtIff(v, start);
    if s == e && s == start then
      var prevIndent := PrevIndent(v, start);
      if |prevIndent| < (if IndentAt(v, start) then 2 else 0) then Default
      else if IndentAt(v, start) then
        SliceAround(v, start);
        Edited(Slice(v, 0, start) + Slice(v, start + 2, |v|), s)
      else Default
    else Default
  }

  // ---------------------------------------------------------------------------
  // The handler and the gutter
  // ---------------------------------------------------------------------------

  /** `handleKeyDown`: Tab and Enter are always taken over; other keys never are. */
  function HandleKeyDown(key: Key, shift: bool, v: string, s: int, e: int): (r: KeyResult)
    requires ValidSelection(v, s, e)
    ensures key == Tab ==> !r.Default?
    ensures key == Enter ==> r.Edited?
    ensures key == OtherKey ==> r == Default
    ensures key == Backspace ==> !r.Prevented?
  {
    if key == Tab && !shift then TabKey(v, s, e)
    else if key == Tab && shift then ShiftTabKey(v, s, e)
    else if key == Enter then EnterKey(v, s, e)
    else if key == Backspace then BackspaceKey(v, s, e)
    else Default
  }

  /** `Math.max(8, lines.length)`: the gutter shows at least eight rows and one per line. */
  function LineCount(v: string): (r: nat)
    ensures r >= 8 && r >= CountChar(v, '\n') + 1
    ensures r == 8 || r == CountChar(v, '\n') + 1
  {
    var lines := SplitLines(v);
    if 8 > |lines| then 8 else |lines|
  }

  // ---------------------------------------------------------------------------
  // Defects and their corrections
  // ---------------------------------------------------------------------------

  /** The start of the line that holds position `pos`: after the last break strictly before it. */
  function CaretLineStart(v: string, pos: int): (r: nat)
    requires 0 <= pos <= |v|
    ensures r <= pos
    ensures r == 0 || v[r - 1] == '\n'
    ensures forall j :: r <= j < pos ==> v[j] != '\n'
  {
    if pos == 0 then 0 else LastIndexOf(v, '\n', pos - 1) + 1
  }

  /** The source's line start agrees with the caret's line everywhere except at position 0. */
  lemma LineStartAgrees(v: string, pos: int)
    requires 0 < pos <= |v|
    ensures LineStart(v, pos) == CaretLineStart(v, pos)
  {
  }

  /**
   * At position 0 the source searches from index 0 anyway, so a text that
   * begins with a line break puts the caret's line at 1.
   */
  lemma LineStartAtZero(v: string)
    requires |v| > 0 && v[0] == '\n'
    ensures LineStart(v, 0) == 1 && CaretLineStart(v, 0) == 0
  {
  }

  /**
   * Shift+Tab with the caret's line found as above, and the caret kept on that
   * line: it moves two to the left but never before the line's start.
   */
  function ShiftTabCorrected(v: string, s: int, e: int): (r: KeyResult)
    requires ValidSelection(v, s, e)
    ensures var start := CaretLineStart(v, s);
      r.Edited? <==> start + 2 <= |v| && v[start] == ' ' && v[start + 1] == ' '
    ensures var start := CaretLineStart(v, s);
      r.Edited? ==> r.text == v[..start] + v[start + 2..] && start <= r.caret <= s
    ensures !r.Edited? ==> r == Prevented
  {
    var start := CaretLineStart(v, s);
    IndentAtIff(v, start);
    if IndentAt(v, start) then
      SliceAround(v, start);
      Edited(Slice(v, 0, start) + Slice(v, start + 2, |v|), if s - 2 < start then start else s - 2)
    else Prevented
  }

  /** The corrected Shift+Tab leaves the caret on the line it de-indented. */
  lemma ShiftTabCorrectedKeepsLine(v: string, s: int, e: int)
    requires ValidSelection(v, s, e)
    requires ShiftTabCorrected(v, s, e).Edited?
    ensures var r := ShiftTabCorrected(v, s, e);
      0 <= r.caret <= |r.text| && CaretLineStart(r.text, r.caret) == CaretLineStart(v, s)
  {
    var start := CaretLineStart(v, s);
    var r := ShiftTabCorrected(v, s, e);
    var t := r.text;
    assert t == v[..start] + v[start + 2..];
    if r.caret > 0 {
      forall j | start <= j < r.caret ensures t[j] != '\n' {
        assert t[j] == v[j + 2];
      }
      if start > 0 {
        assert t[start - 1] == v[start - 1];
      }
      LastIndexFromStops(t, '\n', r.caret - 1, start - 1);
    }
  }

  /** The corrected Shift+Tab agrees with the source when the caret is two or more into its line. */
  lemma ShiftTabCorrectedAgrees(v: string, s: int, e: int)
    requires ValidSelection(v, s, e) && s >= CaretLineStart(v, s) + 2
    ensures ShiftTabCorrected(v, s, e) == ShiftTabKey(v, s, e)
  {
    LineStartAgrees(v, s);
  }

  /** Shift+Tab on the second line's start, "A\n  B" at 2: the caret lands on the first line. */
  lemma ShiftTabCaretLeavesLine(v: string)
    requires v == "A\n  B"
    ensures ShiftTabKey(v, 2, 2) == Edited("A\nB", 0)
    ensures CaretLineStart("A\nB", 0) != CaretLineStart(v, 2)
    ensures ShiftTabCorrected(v, 2, 2) == Edited("A\nB", 2)
  {
    assert v[1] == '\n';
    assert LineStart(v, 2) == 2;
    assert v[..2] + v[4..] == "A\nB";
  }

  /** Shift+Tab at position 0 of "\n  B" de-indents the second line, not the caret's own. */
  lemma ShiftTabAtZeroHitsNextLine(v: string)
    requires v == "\n  B"
    ensures ShiftTabKey(v, 0, 0) == Edited("\nB", -2)
    ensures ShiftTabCorrected(v, 0, 0) == Prevented
  {
    assert LineStart(v, 0) == 1;
    assert v[..1] + v[3..] == "\nB";
  }

  /** A line is indented by two or more exactly when its first two characters are spaces. */
  lemma LeadingSpacesAtLeastTwo(line: string)
    ensures |LeadingSpaces(line)| >= 2 <==> |line| >= 2 && line[0] == ' ' && line[1] == ' '
  {
    var r := LeadingSpaces(line);
    if |line| >= 2 && line[0] == ' ' && line[1] == ' ' {
      assert |r| != 0 && |r| != 1;
    }
  }

  /**
   * Backspace with the previous line found as the line that really ends at
   * the break before the caret; on the first line there is no previous line
   * and the handler stays out of the way. It removes the two spaces that start
   * the caret's line exactly when that previous line is itself indented by two
   * or more, and the caret stays at the start of its line.
   */
  function BackspaceCorrected(v: string, s: int, e: int): (r: KeyResult)
    requires ValidSelection(v, s, e)
    ensures r.Edited? <==>
      s == e && 0 < s && CaretLineStart(v, s) == s && TwoSpacesAt(v, s) && TwoSpacesAt(v, CaretLineStart(v, s - 1))
    ensures r.Edited? ==>
      r.text == v[..s] + v[s + 2..] && r.caret == s && CaretLineStart(r.text, r.caret) == s
    ensures !r.Edited? ==> r == Default
  {
    if s == e && 0 < s && CaretLineStart(v, s) == s then
      var p := CaretLineStart(v, s - 1);
      var prev := v[p..s - 1];
      PrevLineIndent(v, s);
      IndentAtIff(v, s);
      if IndentAt(v, s) && |LeadingSpaces(prev)| >= 2 then
        CaretAfterBreak(v[..s] + v[s + 2..], s);
        Edited(v[..s] + v[s + 2..], s)
      else Default
    else Default
  }

  /** Two spaces at position `i`. */
  predicate TwoSpacesAt(v: string, i: nat) {
    i + 2 <= |v| && v[i] == ' ' && v[i + 1] == ' '
  }

  /** Right after a line break the caret is at the start of its line. */
  lemma CaretAfterBreak(t: string, s: int)
    requires 0 < s <= |t| && t[s - 1] == '\n'
    ensures CaretLineStart(t, s) == s
  {
    LastIndexFromStops(t, '\n', s - 1, s - 1);
  }

  /** The line that ends at the break before `s` is indented by two or more iff two spaces start it. */
  lemma PrevLineIndent(v: string, s: int)
    requires 0 < s <= |v| && CaretLineStart(v, s) == s
    ensures var p := CaretLineStart(v, s - 1);
      |LeadingSpaces(v[p..s - 1])| >= 2 <==> TwoSpacesAt(v, p)
  {
    var p := CaretLineStart(v, s - 1);
    LeadingSpacesAtLeastTwo(v[p..s - 1]);
    assert v[s - 1] == '\n';
  }

  /** Below the first line the source's reading of the previous line is the real one. */
  lemma PrevIndentAgrees(v: string, s: int)
    requires 0 < s <= |v| && CaretLineStart(v, s) == s
    ensures PrevIndent(v, s) == LeadingSpaces(v[CaretLineStart(v, s - 1)..s - 1])
  {
    var p := CaretLineStart(v, s - 1);
    if s >= 2 {
      LineStartAgrees(v, s - 1);
      assert Slice(v, p, s - 1) == v[p..s - 1];
    } else {
      assert v[0] == '\n';
      assert Slice(v, 1, 0) == "" && v[p..s - 1] == "";
    }
  }

  /** Below the first line the corrected Backspace is the source's. */
  lemma BackspaceCorrectedAgrees(v: string, s: int, e: int)
    requires ValidSelection(v, s, e) && s > 0
    ensures BackspaceCorrected(v, s, e) == BackspaceKey(v, s, e)
  {
    LineStartAgrees(v, s);
    if s == e && CaretLineStart(v, s) == s {
      PrevIndentAgrees(v, s);
      PrevLineIndent(v, s);
    }
  }

  /**
   * At position 0 the source reads the "previous line" as `slice(0, -1)`, the
   * whole text but its last character, so "  A" loses its indentation.
   */
  lemma BackspaceAtTopUsesWholeText(v: string)
    requires v == "  A"
    ensures PrevIndent(v, 0) == "  "
    ensures BackspaceKey(v, 0, 0) == Edited("A", 0)
    ensures BackspaceCorrected(v, 0, 0) == Default
  {
    assert LineStart(v, 0) == 0;
    assert Slice(v, 0, -1) == "  ";
    assert LeadingSpaces("  ") == "  " by {
      assert "  "[1..] == " " && " "[1..] == "";
    }
    assert v[..0] + v[2..] == "A";
  }
}
