/** The tab handling that schling-front/src/components/textarea.js installs on a
    textarea: Tab inserts four spaces at the selection, Shift+Tab removes four
    leading spaces from one line. The two modifier flags live in the
    closure; the textarea's value and selection are the DOM's. */
module TextArea {
  import Texts

  const TAB := "    "
  const KEY_TAB := 9
  const KEY_SHIFT := 16
  const KEY_CTRL := 17

  /** The largest value a WebIDL `unsigned long` holds, plus one. */
  const TWO_POW_32: int := 0x1_0000_0000

  // ---------------------------------------------------------------------------
  // The string pieces of `removeTab`.

  /** The index of the first newline, or the length when there is none. */
  function LineEnd(s: string): (k: nat)
    ensures k <= |s| && forall i | 0 <= i < k :: s[i] != '\n'
    ensures k < |s| ==> s[k] == '\n'
  {
    if s == [] || s[0] == '\n' then 0 else 1 + LineEnd(s[1..])
  }

  predicate NoNewline(s: string) {
    forall i | 0 <= i < |s| :: s[i] != '\n'
  }

  /** `String.prototype.split('\n')`: never empty, no piece holds a newline,
      and joining the pieces with newlines gives the string back. */
  function SplitLines(s: string): (ls: seq<string>)
    ensures |ls| >= 1
    ensures forall i | 0 <= i < |ls| :: NoNewline(ls[i])
    ensures Texts.Join(ls, "\n") == s
    decreases |s|
  {
    var k := LineEnd(s);
    if k == |s| then
      assert s[..k] == s;
      [s]
    else
      var rest := SplitLines(s[k + 1..]);
      JoinLine(s[..k], rest);
      assert s == s[..k] + "\n" + s[k + 1..];
      [s[..k]] + rest
  }

  lemma JoinLine(l: string, rest: seq<string>)
    requires rest != []
    ensures Texts.Join([l] + rest, "\n") == l + "\n" + Texts.Join(rest, "\n")
  {
    assert ([l] + rest)[1..] == rest;
  }

  /** `line.replace(/^    /, '')`: four leading spaces go, nothing else does. */
  function StripTab(line: string): (r: string)
    ensures TAB <= line ==> r == line[|TAB|..]
    ensures !(TAB <= line) ==> r == line
  {
    if TAB <= line then line[|TAB|..] else line
  }

  /** The summed length of the lines, newlines not counted. */
  function Total(ls: seq<string>): nat {
    if ls == [] then 0 else |ls[0]| + Total(ls[1..])
  }

  lemma {:induction false} TotalAppend(ls: seq<string>, l: string)
    ensures Total(ls + [l]) == Total(ls) + |l|
  {
    if ls != [] {
      assert (ls + [l])[1..] == ls[1..] + [l];
      TotalAppend(ls[1..], l);
    }
  }

  lemma TotalStep(ls: seq<string>, i: nat)
    requires i < |ls|
    ensures Total(ls[..i + 1]) == Total(ls[..i]) + |ls[i]|
  {
    assert ls[..i + 1] == ls[..i] + [ls[i]];
    TotalAppend(ls[..i], ls[i]);
  }

  /** Running totals only grow. */
  lemma {:induction false} TotalMonotone(ls: seq<string>, i: nat, j: nat)
    requires i <= j <= |ls|
    ensures Total(ls[..i]) <= Total(ls[..j])
    decreases j - i
  {
    if i < j {
      TotalMonotone(ls, i, j - 1);
      assert ls[..j] == ls[..j - 1] + [ls[j - 1]];
      TotalAppend(ls[..j - 1], ls[j - 1]);
    }
  }

  /** The running total after line `j`. */
  function RunningTotal(ls: seq<string>, j: nat): nat
    requires j < |ls|
  {
    Total(ls[..j + 1])
  }

  /** The line `removeTab` edits: the first whose running total of lengths
      reaches the cursor; `|ls|` when none does. */
  function FirstReach(ls: seq<string>, pos: int, k: nat := 0): (t: nat)
    requires k <= |ls|
    requires forall j | 0 <= j < k :: RunningTotal(ls, j) < pos
    ensures k <= t <= |ls|
    ensures forall j | 0 <= j < t :: RunningTotal(ls, j) < pos
    ensures t < |ls| ==> RunningTotal(ls, t) >= pos
    decreases |ls| - k
  {
    if k == |ls| then k
    else if RunningTotal(ls, k) >= pos then k
    else FirstReach(ls, pos, k + 1)
  }

  /** The lines with the line at `t`, if any, stripped of its tab. */
  function Edited(ls: seq<string>, t: nat): (r: seq<string>)
    ensures |r| == |ls|
    ensures forall j | 0 <= j < |ls| && j != t :: r[j] == ls[j]
    ensures t < |ls| ==> r[t] == StripTab(ls[t])
  {
    if t < |ls| then ls[t := StripTab(ls[t])] else ls
  }

  /** Every line followed by a newline, the last one included. */
  function Terminated(ls: seq<string>): string {
    if ls == [] then "" else ls[0] + "\n" + Terminated(ls[1..])
  }

  lemma {:induction false} TerminatedAppend(ls: seq<string>, l: string)
    ensures Terminated(ls + [l]) == Terminated(ls) + l + "\n"
  {
    if ls != [] {
      assert (ls + [l])[1..] == ls[1..] + [l];
      TerminatedAppend(ls[1..], l);
    }
  }

  lemma TerminatedStep(ls: seq<string>, i: nat)
    requires i < |ls|
    ensures Terminated(ls[..i + 1]) == Terminated(ls[..i]) + ls[i] + "\n"
  {
    assert ls[..i + 1] == ls[..i] + [ls[i]];
    TerminatedAppend(ls[..i], ls[i]);
  }

  /** What `removeTab` writes back. */
  function RemovedValue(value: string, cursor: int): string {
    var ls := SplitLines(value);
    Terminated(Edited(ls, FirstReach(ls, cursor)))
  }

  /** The cursor `removeTab` computes: four back exactly when it stripped a
      tab, with no lower bound. */
  function RemovedCursor(value: string, cursor: int): int {
    var ls := SplitLines(value);
    var t := FirstReach(ls, cursor);
    if t < |ls| && TAB <= ls[t] then cursor - |TAB| else cursor
  }

  /** Assigning an offset to `selectionStart`/`selectionEnd`: WebIDL converts
      it to an unsigned 32-bit integer (so a negative offset wraps around)
      and the textarea clamps it to the length of its value. */
  function DomOffset(pos: int, len: nat): (o: nat)
    ensures o <= len
    ensures 0 <= pos <= len < TWO_POW_32 ==> o == pos
  {
    var u := pos % TWO_POW_32;
    if u > len then len else u
  }

  // ---------------------------------------------------------------------------
  // What `removeTab` promises.

  /** The new value always ends in a newline: every line, the last included,
      is written with one. */
  lemma RemovedEndsInNewline(value: string, cursor: int)
    ensures |RemovedValue(value, cursor)| >= 1
    ensures RemovedValue(value, cursor)[|RemovedValue(value, cursor)| - 1] == '\n'
  {
    var ls := Edited(SplitLines(value), FirstReach(SplitLines(value), cursor));
    TerminatedEnds(ls);
  }

  lemma {:induction false} TerminatedEnds(ls: seq<string>)
    requires ls != []
    ensures |Terminated(ls)| >= 1 && Terminated(ls)[|Terminated(ls)| - 1] == '\n'
  {
    if ls[1..] != [] {
      TerminatedEnds(ls[1..]);
    }
  }

  /** Terminating lines is joining them and adding one final newline. */
  lemma {:induction false} TerminatedIsJoined(ls: seq<string>)
    requires ls != []
    ensures Terminated(ls) == Texts.Join(ls, "\n") + "\n"
  {
    if |ls| > 1 {
      TerminatedIsJoined(ls[1..]);
    }
  }

  /** Splitting the new value at newlines gives the old lines back, the
      chosen one edited and every other verbatim, and one empty line after
      the final newline. */
  lemma {:induction false} SplitTerminated(ls: seq<string>)
    requires forall i | 0 <= i < |ls| :: NoNewline(ls[i])
    ensures SplitLines(Terminated(ls)) == ls + [""]
  {
    if ls == [] {
      SplitLastLine("");
    } else {
      SplitAfterLine(ls[0], Terminated(ls[1..]));
      SplitTerminated(ls[1..]);
      assert ls == [ls[0]] + ls[1..];
    }
  }

  /** A line without a newline is split off whole. */
  lemma SplitAfterLine(l: string, rest: string)
    requires NoNewline(l)
    ensures SplitLines(l + "\n" + rest) == [l] + SplitLines(rest)
  {
    var s := l + "\n" + rest;
    LineEndOf(s, |l|);
    assert s[..|l|] == l;
    assert s[|l| + 1..] == rest;
  }

  lemma SplitLastLine(l: string)
    requires NoNewline(l)
    ensures SplitLines(l) == [l]
  {
    NoNewlineEnd(l);
    assert l[..|l|] == l;
  }

  lemma {:induction false} NoNewlineEnd(l: string)
    requires NoNewline(l)
    ensures LineEnd(l) == |l|
  {
    if l != [] && l[0] != '\n' {
      NoNewlineEnd(l[1..]);
    }
  }

  lemma LineEndOf(s: string, k: nat)
    requires k < |s| && s[k] == '\n' && forall i | 0 <= i < k :: s[i] != '\n'
    ensures LineEnd(s) == k
  {
  }

  /** Stripping changes one line at most. */
  lemma RemovedLines(value: string, cursor: int)
    ensures var ls := SplitLines(value);
            var t := FirstReach(ls, cursor);
            SplitLines(RemovedValue(value, cursor)) == Edited(ls, t) + [""]
  {
    var ls := SplitLines(value);
    var e := Edited(ls, FirstReach(ls, cursor));
    forall i | 0 <= i < |e|
      ensures NoNewline(e[i])
    {
    }
    SplitTerminated(e);
  }

  /** When the chosen line has no leading tab (or no line is chosen), the
      value gains exactly one trailing newline and the cursor stays. */
  lemma NothingToStrip(value: string, cursor: int)
    requires var ls := SplitLines(value);
             var t := FirstReach(ls, cursor);
             t == |ls| || !(TAB <= ls[t])
    ensures RemovedValue(value, cursor) == value + "\n"
    ensures RemovedCursor(value, cursor) == cursor
  {
    var ls := SplitLines(value);
    assert Edited(ls, FirstReach(ls, cursor)) == ls;
    TerminatedIsJoined(ls);
  }

  /** Shift+Tab at the start of the text undoes a Tab typed there, apart from
      the newline it adds at the end. */
  lemma RemoveUndoesAddAtStart(value: string)
    ensures RemovedValue(TAB + value, |TAB|) == value + "\n"
    ensures RemovedCursor(TAB + value, |TAB|) == 0
  {
    var ls := SplitLines(value);
    var ls' := SplitLines(TAB + value);
    SplitWithTab(value, TAB + value);
    assert ls'[..1] == [ls'[0]];
    assert FirstReach(ls', |TAB|) == 0;
    assert StripTab(ls'[0]) == ls[0] by {
      assert (TAB + ls[0])[|TAB|..] == ls[0];
    }
    assert Edited(ls', 0) == ls by {
      assert ls == [ls[0]] + ls[1..];
    }
    TerminatedIsJoined(ls);
  }

  /** A tab typed at the start of the text lands on its first line. */
  lemma SplitWithTab(value: string, t: string)
    requires t == TAB + value
    ensures var ls := SplitLines(value);
            SplitLines(t) == [TAB + ls[0]] + ls[1..]
  {
    var k := LineEnd(value);
    if k == |value| {
      SplitLastLine(value);
      SplitLastLine(t);
    } else {
      SplitAt(value, k);
      TabbedFirstLine(value, t, k);
      var rest := SplitLines(value[k + 1..]);
      assert ([value[..k]] + rest)[0] == value[..k];
      assert ([value[..k]] + rest)[1..] == rest;
    }
  }

  lemma SplitAt(s: string, k: nat)
    requires k < |s| && s[k] == '\n' && forall i | 0 <= i < k :: s[i] != '\n'
    ensures SplitLines(s) == [s[..k]] + SplitLines(s[k + 1..])
  {
    LineEndOf(s, k);
  }

  lemma TabbedFirstLine(value: string, t: string, k: nat)
    requires t == TAB + value && k < |value| && value[k] == '\n'
    requires forall i | 0 <= i < k :: value[i] != '\n'
    ensures SplitLines(t) == [TAB + value[..k]] + SplitLines(value[k + 1..])
  {
    assert t[|TAB| + k] == '\n';
    SplitAt(t, |TAB| + k);
    assert t[..|TAB| + k] == TAB + value[..k];
    assert t[|TAB| + k + 1..] == value[k + 1..];
  }

  /** The running total leaves out the newlines, so it falls behind the
      cursor line by line: with the cursor at the end of the second of three
      lines, it is the third line that loses its indentation, and the cursor
      moves back four places, before the start of the text when the first
      two lines hold fewer than three characters (`a`, `b`, `    c` with the
      cursor at 3 ends with the cursor at -1). */
  lemma StripsLaterLine(x: string, y: string, w: string)
    requires NoNewline(x) && NoNewline(y) && NoNewline(w)
    ensures RemovedValue(x + "\n" + (y + "\n" + (TAB + w)), |x| + 1 + |y|) == x + "\n" + y + "\n" + w + "\n"
    ensures RemovedCursor(x + "\n" + (y + "\n" + (TAB + w)), |x| + 1 + |y|) == |x| + 1 + |y| - |TAB|
  {
    var ls := [x, y, TAB + w];
    ThreeLines(x, y, TAB + w);
    ThirdReached(ls, |x| + 1 + |y|);
    assert Edited(ls, 2) == [x, y, w] by {
      assert (TAB + w)[|TAB|..] == w;
    }
    TerminatedThree(x, y, w);
  }

  lemma ThirdReached(ls: seq<string>, cursor: int)
    requires |ls| == 3 && cursor == |ls[0]| + 1 + |ls[1]| && TAB <= ls[2]
    ensures FirstReach(ls, cursor) == 2
  {
    ThreeTotals(ls);
  }

  lemma ThreeLines(x: string, y: string, z: string)
    requires NoNewline(x) && NoNewline(y) && NoNewline(z)
    ensures SplitLines(x + "\n" + (y + "\n" + z)) == [x, y, z]
  {
    SplitLastLine(z);
    SplitAfterLine(y, z);
    SplitAfterLine(x, y + "\n" + z);
  }

  lemma ThreeTotals(ls: seq<string>)
    requires |ls| == 3
    ensures RunningTotal(ls, 0) == |ls[0]|
    ensures RunningTotal(ls, 1) == |ls[0]| + |ls[1]|
    ensures RunningTotal(ls, 2) == |ls[0]| + |ls[1]| + |ls[2]|
  {
    TotalAppend([], ls[0]);
    assert ls[..1] == [] + [ls[0]];
    TotalAppend(ls[..1], ls[1]);
    assert ls[..2] == ls[..1] + [ls[1]];
    TotalAppend(ls[..2], ls[2]);
    assert ls[..3] == ls[..2] + [ls[2]];
  }

  lemma TerminatedThree(x: string, y: string, z: string)
    ensures Terminated([x, y, z]) == x + "\n" + y + "\n" + z + "\n"
  {
    TerminatedAppend([], x);
    assert [] + [x] == [x] && "" + x == x;
    TerminatedAppend([x], y);
    assert [x] + [y] == [x, y];
    TerminatedAppend([x, y], z);
    assert [x, y] + [z] == [x, y, z];
  }

  // ---------------------------------------------------------------------------
  // The closure state and the textarea.

  /** `checkSpecialKeys`: Shift and Control each flip their flag on every
      keydown and every keyup; other keys leave both alone. */
  function SpecialKeys(shift: bool, ctrl: bool, keyCode: int): (r: (bool, bool))
    ensures keyCode == KEY_SHIFT ==> r == (!shift, ctrl)
    ensures keyCode == KEY_CTRL ==> r == (shift, !ctrl)
    ensures keyCode != KEY_SHIFT && keyCode != KEY_CTRL ==> r == (shift, ctrl)
  {
    if keyCode == KEY_SHIFT then (!shift, ctrl)
    else if keyCode == KEY_CTRL then (shift, !ctrl)
    else (shift, ctrl)
  }

  /** A press and release of the same key leaves both flags as they were;
      any other number of events of one modifier key flips its flag. */
  lemma PressReleaseRestores(shift: bool, ctrl: bool, keyCode: int)
    ensures var (s, c) := SpecialKeys(shift, ctrl, keyCode);
            SpecialKeys(s, c, keyCode) == (shift, ctrl)
  {
  }

  class TabTextArea {
    /** The closure's flags. */
    var shiftPressed: bool
    var ctrlPressed: bool
    /** The textarea's `value`, `selectionStart` and `selectionEnd`. */
    var value: string
    var selectionStart: nat
    var selectionEnd: nat

    /** The selection lies within the value, as the DOM keeps it. */
    ghost predicate Valid()
      reads this
    {
      selectionStart <= selectionEnd <= |value|
    }

    /** `tab_textarea`: both flags start cleared. */
    constructor Attach(text: string)
      ensures !shiftPressed && !ctrlPressed
      ensures value == text && selectionStart == 0 && selectionEnd == 0 && Valid()
    {
      shiftPressed, ctrlPressed := false, false;
      value := text;
      selectionStart, selectionEnd := 0, 0;
    }

    /** `selectionStart = selectionEnd = pos`. */
    method Select(pos: int)
      modifies this
      ensures selectionStart == selectionEnd == DomOffset(pos, |value|)
      ensures value == old(value) && shiftPressed == old(shiftPressed) && ctrlPressed == old(ctrlPressed)
      ensures Valid()
    {
      selectionEnd := DomOffset(pos, |value|);
      selectionStart := selectionEnd;
    }

    method CheckSpecialKeys(keyCode: int)
      modifies this
      ensures (shiftPressed, ctrlPressed) == SpecialKeys(old(shiftPressed), old(ctrlPressed), keyCode)
      ensures value == old(value) && selectionStart == old(selectionStart) && selectionEnd == old(selectionEnd)
    {
      if keyCode == KEY_SHIFT {
        shiftPressed := !shiftPressed;
      } else if keyCode == KEY_CTRL {
        ctrlPressed := !ctrlPressed;
      }
    }

    /** `addTab`: the selection is replaced by four spaces and the cursor
        put right after them. */
    method AddTab()
      requires Valid()
      modifies this
      ensures value == old(value)[..old(selectionStart)] + TAB + old(value)[old(selectionEnd)..]
      ensures selectionStart == selectionEnd == DomOffset(old(selectionStart) + |TAB|, |value|)
      ensures |value| < TWO_POW_32 ==> selectionStart == old(selectionStart) + |TAB|
      ensures shiftPressed == old(shiftPressed) && ctrlPressed == old(ctrlPressed)
      ensures Valid()
    {
      var start, end := selectionStart, selectionEnd;
      value := value[..start] + TAB + value[end..];
      Select(start + |TAB|);
    }

    /** `removeTab`: the lines are copied one by one, each followed by a
        newline; the first line whose running total of lengths reaches the
        cursor loses four leading spaces, if it has them. */
    method RemoveTab()
      requires Valid()
      modifies this
      ensures value == RemovedValue(old(value), old(selectionStart))
      ensures selectionStart == selectionEnd == DomOffset(RemovedCursor(old(value), old(selectionStart)), |value|)
      ensures shiftPressed == old(shiftPressed) && ctrlPressed == old(ctrlPressed)
      ensures Valid()
    {
      var curPos: int := selectionStart;
      var lines := SplitLines(value);
      var newValue := "";
      var done := false;
      var cnt := 0;
      ghost var cursor := curPos;
      ghost var t := FirstReach(lines, cursor);
      var i := 0;
      while i < |lines|
        invariant 0 <= i <= |lines|
        invariant cnt == Total(lines[..i])
        invariant done <==> t < i
        invariant newValue == Terminated(Edited(lines, t)[..i])
        invariant curPos == if t < i && TAB <= lines[t] then cursor - |TAB| else cursor
        invariant shiftPressed == old(shiftPressed) && ctrlPressed == old(ctrlPressed)
      {
        var line := lines[i];
        TotalStep(lines, i);
        cnt := cnt + |line|;
        assert cnt == RunningTotal(lines, i);
        if !done {
          assert t >= i;
          if cnt >= cursor {
            assert t == i;
          } else {
            assert t != i;
          }
        }
        if cnt >= curPos && !done {
          var newLine := StripTab(line);
          if newLine != line {
            line := newLine;
            curPos := curPos - |TAB|;
          }
          done := true;
        }
        assert line == Edited(lines, t)[i];
        TerminatedStep(Edited(lines, t), i);
        newValue := newValue + line + "\n";
        i := i + 1;
      }
      assert Edited(lines, t)[..i] == Edited(lines, t);
      value := newValue;
      Select(curPos);
    }

    /** The textarea's keydown listener: Tab indents, Shift+Tab outdents. */
    method OnKeyDown(keyCode: int)
      requires Valid()
      modifies this
      ensures keyCode == KEY_TAB && !old(shiftPressed) ==>
                value == old(value)[..old(selectionStart)] + TAB + old(value)[old(selectionEnd)..] &&
                selectionStart == selectionEnd == DomOffset(old(selectionStart) + |TAB|, |value|)
      ensures keyCode == KEY_TAB && old(shiftPressed) ==>
                value == RemovedValue(old(value), old(selectionStart)) &&
                selectionStart == selectionEnd == DomOffset(RemovedCursor(old(value), old(selectionStart)), |value|)
      ensures keyCode != KEY_TAB ==>
                value == old(value) && selectionStart == old(selectionStart) && selectionEnd == old(selectionEnd)
      ensures shiftPressed == old(shiftPressed) && ctrlPressed == old(ctrlPressed)
      ensures Valid()
    {
      if keyCode == KEY_TAB {
        if !shiftPressed {
          AddTab();
        } else {
          RemoveTab();
        }
      }
    }

    /** A keydown reaches the textarea's listener, then bubbles to the
        document's `checkSpecialKeys`. */
    method KeyDown(keyCode: int)
      requires Valid()
      modifies this
      ensures (shiftPressed, ctrlPressed) == SpecialKeys(old(shiftPressed), old(ctrlPressed), keyCode)
      ensures keyCode == KEY_TAB && !old(shiftPressed) ==>
                value == old(value)[..old(selectionStart)] + TAB + old(value)[old(selectionEnd)..] &&
                selectionStart == selectionEnd == DomOffset(old(selectionStart) + |TAB|, |value|)
      ensures keyCode == KEY_TAB && old(shiftPressed) ==>
                value == RemovedValue(old(value), old(selectionStart)) &&
                selectionStart == selectionEnd == DomOffset(RemovedCursor(old(value), old(selectionStart)), |value|)
      ensures keyCode != KEY_TAB ==>
                value == old(value) && selectionStart == old(selectionStart) && selectionEnd == old(selectionEnd)
      ensures Valid()
    {
      OnKeyDown(keyCode);
      CheckSpecialKeys(keyCode);
    }

    /** A keyup only reaches `checkSpecialKeys`. */
    method KeyUp(keyCode: int)
      modifies this
      ensures (shiftPressed, ctrlPressed) == SpecialKeys(old(shiftPressed), old(ctrlPressed), keyCode)
      ensures value == old(value) && selectionStart == old(selectionStart) && selectionEnd == old(selectionEnd)
    {
      CheckSpecialKeys(keyCode);
    }
  }
}
