/** The text-editing rules of the code panel in src/ui.rs (`egui_system`): the
    selection keys of the completion popup, accepting a completion into the code,
    the typed token that drives the completion engine, auto-indent on Enter and the
    4-space backspace, all acting on the `CodePilotCode` record of src/main.rs. */
module Editor {
  import opened Text
  import opened AutoComplete

  /** `usize::MAX` on a 64-bit target. */
  const USIZE_MAX: nat := 0xFFFF_FFFF_FFFF_FFFF

  /** The characters the code panel splits its text at to find the typed token. */
  const Blanks: set<char> := {'\t', ' ', '\n'}

  // ---------------------------------------------------------------------------
  // Selection keys
  // ---------------------------------------------------------------------------

  /** ArrowDown: the next completion, round to the first after the last. */
  function NextSelection(selected: nat, n: nat): (r: nat)
    requires n > 0
    ensures r < n
    ensures selected < n ==> r == if selected == n - 1 then 0 else selected + 1
  {
    (selected + 1) % n
  }

  /** ArrowUp: `(selected - 1) % n` in `usize`, so from the first completion the
      subtraction wraps to `usize::MAX` before the remainder is taken. */
  function PreviousSelection(selected: nat, n: nat): (r: nat)
    requires n > 0
    ensures r < n
    ensures 0 < selected <= n ==> r == selected - 1
    ensures selected == 0 ==> r == USIZE_MAX % n
  {
    if selected == 0 then USIZE_MAX % n else (selected - 1) % n
  }

  /** From the first of three completions ArrowUp stays on the first one, and from
      the first of two it goes to the second: the wrap lands on the last completion
      only when the count divides 2^64. */
  lemma PreviousFromFirstExample()
    ensures PreviousSelection(0, 3) == 0
    ensures PreviousSelection(0, 2) == 1
    ensures PreviousSelection(0, 5) == 0
  {
  }

  // ---------------------------------------------------------------------------
  // The typed token
  // ---------------------------------------------------------------------------

  /** The token before the cursor: the last piece of the text before the cursor split
      at tabs, spaces and newlines. It is the longest suffix of that text without a
      blank: it ends at the cursor, holds no blank, and starts at the beginning of
      the text or right after a blank. */
  function TokenBefore(code: string, cursor: nat): (token: string)
    requires cursor <= |code|
    ensures EndsWith(code[..cursor], token)
    ensures Free(token, Blanks)
    ensures |token| == cursor || code[cursor - |token| - 1] in Blanks
  {
    var head := code[..cursor];
    SplitLast(head, Blanks);
    var pieces := Split(head, Blanks);
    pieces[|pieces| - 1]
  }

  // ---------------------------------------------------------------------------
  // Accepting a completion
  // ---------------------------------------------------------------------------

  /** How many leading characters of `completion` are already typed: the whole token
      for an ordinary completion; for a member completion (starting with '.') none
      when the token holds no '.', else its last '.'-segment and that '.'. */
  function SpliceCut(token: string, completion: string): (k: nat)
    ensures k <= |token|
  {
    if StartsWith(completion, ".") then
      var parts := Split(token, {'.'});
      SplitLast(token, {'.'});
      if |parts| == 1 then 0 else |parts[|parts| - 1]| + 1
    else |token|
  }

  /** The text with the untyped rest of `completion` inserted at the cursor. */
  function Spliced(code: string, cursor: nat, completion: string, cut: nat): string
    requires cursor <= |code| && cut <= |completion|
  {
    code[..cursor] + completion[cut..] + code[cursor..]
  }

  /** A member completion cut after a '.' starts right at the token's last '.'. */
  lemma SpliceCutLaw(token: string, completion: string)
    ensures var k := SpliceCut(token, completion);
      StartsWith(completion, ".") && k > 0 ==> token[|token| - k] == '.'
  {
    SplitLast(token, {'.'});
  }

  /** When the completion starts with the typed characters it cuts, accepting it
      replaces those characters before the cursor by the whole completion. */
  lemma AcceptReplacesTyped(code: string, cursor: nat, token: string, completion: string)
    requires cursor <= |code| && EndsWith(code[..cursor], token)
    requires var k := SpliceCut(token, completion);
      k <= |completion| && completion[..k] == token[|token| - k..]
    ensures var k := SpliceCut(token, completion);
      k <= cursor && Spliced(code, cursor, completion, k) == code[..cursor - k] + completion + code[cursor..]
  {
    CutReplaces(code, cursor, token, completion, SpliceCut(token, completion));
  }

  /** `AcceptReplacesTyped` for any cut `k` of at most the token's length. */
  lemma CutReplaces(code: string, cursor: nat, token: string, completion: string, k: nat)
    requires cursor <= |code| && EndsWith(code[..cursor], token)
    requires k <= |token| && k <= |completion| && completion[..k] == token[|token| - k..]
    ensures k <= cursor && code[..cursor] + completion[k..] + code[cursor..] == code[..cursor - k] + completion + code[cursor..]
  {
    assert code[cursor - k..cursor] == token[|token| - k..];
    assert completion == completion[..k] + completion[k..];
    assert code[..cursor] == code[..cursor - k] + code[cursor - k..cursor];
  }

  /** An ordinary completion that starts with the token fits it: its cut is the
      whole token. */
  lemma PlainCompletionFits(token: string, completion: string)
    requires !StartsWith(completion, ".") && StartsWith(completion, token)
    ensures var k := SpliceCut(token, completion);
      k == |token| && k <= |completion| && completion[..k] == token[|token| - k..]
  {
  }

  /** After a token `head.tail` a member completion for a method that starts with
      `tail` fits: its cut is `.tail`, exactly what the completion starts with. */
  lemma MemberCompletionFits(token: string, name: string, params: seq<string>)
    requires |Split(token, {'.'})| == 2 && StartsWith(name, Split(token, {'.'})[1])
    ensures var completion := FormatMember(name, params); var k := SpliceCut(token, completion);
      k == |Split(token, {'.'})[1]| + 1 && k <= |completion| && completion[..k] == token[|token| - k..]
  {
    var parts := Split(token, {'.'});
    var tail := parts[1];
    JoinSplit(token, '.');
    assert token == parts[0] + "." + tail;
    DotTail(parts[0], tail);
    var rest := "(" + Join(WithoutSelf(params), ", ") + ")";
    var completion := FormatMember(name, params);
    assert completion == "." + name + rest;
    DottedNamePrefix(name, rest, tail);
  }

  lemma DotTail(head: string, tail: string)
    ensures var token := head + "." + tail; token[|token| - |tail| - 1..] == "." + tail
  {
    var token := head + "." + tail;
    assert token == head + ("." + tail);
  }

  lemma DottedNamePrefix(name: string, rest: string, tail: string)
    requires StartsWith(name, tail)
    ensures |tail| + 1 <= |"." + name + rest| && ("." + name + rest)[..|tail| + 1] == "." + tail
  {
    assert name[..|tail|] == tail;
    assert ("." + name + rest)[..|tail| + 1] == "." + name[..|tail|];
  }

  /** After a token with several '.', the cut of a member completion counts only the
      last '.'-segment and its '.'. */
  lemma DeepDottedCut(parts: seq<string>, completion: string)
    requires |parts| >= 2 && forall i :: 0 <= i < |parts| ==> Free(parts[i], {'.'})
    requires StartsWith(completion, ".")
    ensures SpliceCut(Join(parts, "."), completion) == |parts[|parts| - 1]| + 1
  {
    SplitJoin(parts, '.');
  }

  /** For the token `f.a.bbbbb` and the member completion `.m()` the cut is 6
      characters, beyond the completion's end, so taking the rest of the completion
      panics. */
  lemma DeepDottedTokenExample()
    ensures SpliceCut(Join(["f", "a", "bbbbb"], "."), ".m()") == 6 > |".m()"|
  {
    var parts := ["f", "a", "bbbbb"];
    assert Free(parts[0], {'.'}) && Free(parts[1], {'.'}) && Free(parts[2], {'.'});
    DeepDottedCut(parts, ".m()");
  }

  // ---------------------------------------------------------------------------
  // Auto-indent
  // ---------------------------------------------------------------------------

  /** `line.chars().take_while(|c| c == ch).count()`. */
  function LeadingRun(line: string, ch: char): (n: nat)
    ensures n <= |line|
    ensures forall i :: 0 <= i < n ==> line[i] == ch
    ensures n == |line| || line[n] != ch
    decreases |line|
  {
    if line != [] && line[0] == ch then 1 + LeadingRun(line[1..], ch) else 0
  }

  /** `ch` written `n` times. */
  function Repeat(ch: char, n: nat): (r: string)
    ensures |r| == n && forall i :: 0 <= i < n ==> r[i] == ch
  {
    seq(n, _ => ch)
  }

  /** A line that opens a block: it ends with ':', '{', '[' or '('. */
  predicate OpensBlock(line: string) {
    EndsWith(line, ":") || EndsWith(line, "{") || EndsWith(line, "[") || EndsWith(line, "(")
  }

  /** What Enter inserts after `line`: a newline, the line's leading tabs, its leading
      spaces, and after a line that opens a block one more tab when the line starts
      with a tab, else four more spaces. */
  function IndentAfter(line: string): string {
    var tabs := LeadingRun(line, '\t');
    var spaces := LeadingRun(line, ' ');
    var extraTab := if OpensBlock(line) && tabs > 0 then 1 else 0;
    var extraSpaces := if OpensBlock(line) && tabs == 0 then 4 else 0;
    "\n" + Repeat('\t', tabs + extraTab) + Repeat(' ', spaces + extraSpaces)
  }

  /** The new line repeats the line's indentation (its leading run of tabs or of
      spaces, never both), one level deeper after a line that opens a block; so the
      cursor moves past a newline and that indentation. */
  lemma IndentLaw(line: string)
    ensures var tabs := LeadingRun(line, '\t'); var spaces := LeadingRun(line, ' ');
      var indentation := line[..tabs + spaces];
      && (tabs == 0 || spaces == 0)
      && (!OpensBlock(line) ==> IndentAfter(line) == "\n" + indentation)
      && (OpensBlock(line) && tabs > 0 ==> IndentAfter(line) == "\n" + indentation + "\t")
      && (OpensBlock(line) && tabs == 0 ==> IndentAfter(line) == "\n" + indentation + "    ")
  {
    var tabs := LeadingRun(line, '\t');
    var spaces := LeadingRun(line, ' ');
    if tabs > 0 {
      assert line[0] == '\t';
      assert Repeat('\t', tabs) == line[..tabs];
      assert Repeat('\t', tabs + 1) == line[..tabs] + "\t";
    } else {
      assert Repeat(' ', spaces) == line[..spaces];
      assert Repeat(' ', spaces + 4) == line[..spaces] + "    ";
    }
    assert Repeat('\t', 0) == [] && Repeat(' ', 0) == [];
  }

  /** The row of the cursor: the number of newlines before it. */
  function CursorRow(code: string, cursor: nat): nat
    requires cursor <= |code|
  {
    multiset(code[..cursor])['\n']
  }

  /** The line the cursor is on: piece `CursorRow` of the text split at '\n'. */
  function ActiveLine(code: string, cursor: nat): string
    requires cursor <= |code|
  {
    SplitCount(code[..cursor], '\n');
    SplitAppend(code[..cursor], code[cursor..], {'\n'});
    assert code[..cursor] + code[cursor..] == code;
    Split(code, {'\n'})[CursorRow(code, cursor)]
  }

  /** The cursor's row indexes the lines, and the active line is that line. */
  lemma ActiveLineIndex(code: string, cursor: nat)
    requires cursor <= |code|
    ensures CursorRow(code, cursor) < |Split(code, {'\n'})|
    ensures ActiveLine(code, cursor) == Split(code, {'\n'})[CursorRow(code, cursor)]
  {
    SplitCount(code[..cursor], '\n');
    SplitAppend(code[..cursor], code[cursor..], {'\n'});
    assert code[..cursor] + code[cursor..] == code;
  }

  /** The active line is the text from the last newline before the cursor to the
      first newline after it. */
  lemma ActiveLineLaw(code: string, cursor: nat)
    requires cursor <= |code|
    ensures var before := Split(code[..cursor], {'\n'}); var after := Split(code[cursor..], {'\n'});
      ActiveLine(code, cursor) == before[|before| - 1] + after[0]
  {
    SplitCount(code[..cursor], '\n');
    SplitAppend(code[..cursor], code[cursor..], {'\n'});
    assert code[..cursor] + code[cursor..] == code;
  }

  /** The text after Enter: the indentation of the active line inserted at the cursor. */
  function Indented(code: string, cursor: nat): (r: string)
    requires cursor <= |code|
    ensures |code| < |r| && r[..cursor] == code[..cursor]
  {
    code[..cursor] + IndentAfter(ActiveLine(code, cursor)) + code[cursor..]
  }

  // ---------------------------------------------------------------------------
  // Backspace
  // ---------------------------------------------------------------------------

  /** The text after Backspace: four spaces right before the cursor are removed
      together, anything else one character at a time. */
  function Backspaced(code: string, cursor: nat): string
    requires 1 <= cursor <= |code|
  {
    if EndsWith(code[..cursor], "    ") then code[..cursor - 4] + code[cursor..]
    else code[..cursor - 1] + code[cursor..]
  }

  /** How many characters Backspace removes. */
  function BackspaceWidth(code: string, cursor: nat): (w: nat)
    requires 1 <= cursor <= |code|
    ensures w <= cursor
  {
    if EndsWith(code[..cursor], "    ") then 4 else 1
  }

  /** Backspace right after a typed character takes it out again, unless it completed
      a run of four spaces. */
  lemma BackspaceUndoesTyping(a: string, ch: char, b: string)
    requires !EndsWith(a + [ch], "    ")
    ensures Backspaced(a + [ch] + b, |a| + 1) == a + b
  {
    var code := a + [ch] + b;
    assert code[..|a| + 1] == a + [ch];
    assert code[..|a|] == a && code[|a| + 1..] == b;
  }

  /** Backspace after four spaces removes the whole indentation level. */
  lemma BackspaceDedents(a: string, b: string)
    ensures Backspaced(a + "    " + b, |a| + 4) == a + b
  {
    var code := a + "    " + b;
    assert code[..|a| + 4] == a + "    ";
    assert code[..|a|] == a && code[|a| + 4..] == b;
  }

  /** Backspace takes out the last thing typed before the cursor: a run of four spaces
      as one unit, or any single character that did not complete such a run. It
      removes exactly that many characters. */
  lemma BackspaceRemovesTyped(a: string, typed: string, b: string)
    requires typed == "    " || (|typed| == 1 && !EndsWith(a + typed, "    "))
    ensures |a| + |typed| >= 1 && |a| + |typed| <= |a + typed + b|
    ensures Backspaced(a + typed + b, |a| + |typed|) == a + b
    ensures BackspaceWidth(a + typed + b, |a| + |typed|) == |typed|
  {
    var code := a + typed + b;
    assert code[..|a| + |typed|] == a + typed;
    if typed == "    " {
      BackspaceDedents(a, b);
    } else {
      assert typed == [typed[0]];
      BackspaceUndoesTyping(a, typed[0], b);
    }
  }

  /** Enter after a line that opens a block and is indented by spaces, then Backspace
      at the new cursor: the added level goes again, and the new line keeps the
      indentation of the line above. */
  lemma EnterThenBackspace(code: string, cursor: nat)
    requires cursor <= |code|
    requires var line := ActiveLine(code, cursor); OpensBlock(line) && LeadingRun(line, '\t') == 0
    ensures var line := ActiveLine(code, cursor); var spaces := LeadingRun(line, ' ');
      var typed := Indented(code, cursor); var at := cursor + |IndentAfter(line)|;
      at <= |typed| && at >= 1
      && Backspaced(typed, at) == code[..cursor] + "\n" + line[..spaces] + code[cursor..]
  {
    var line := ActiveLine(code, cursor);
    var spaces := LeadingRun(line, ' ');
    IndentLaw(line);
    var a := code[..cursor] + "\n" + line[..spaces];
    assert Indented(code, cursor) == a + "    " + code[cursor..];
    BackspaceDedents(a, code[cursor..]);
  }

  // ---------------------------------------------------------------------------
  // The editor state and one frame of the code panel
  // ---------------------------------------------------------------------------

  /** The keys pressed in a frame without modifiers, as the panel consumes them
      (`consume_key` with `Modifiers::NONE`); a key pressed with a modifier, such as
      Shift+Enter, goes to the text widget. */
  datatype Keys = Keys(
    escape: bool := false,
    arrowDown: bool := false,
    arrowUp: bool := false,
    tab: bool := false,
    enter: bool := false,
    backspace: bool := false)

  /** What the text widget reports after it has shown (and the user has edited) the
      code: the edited text and, when the widget has focus, the cursor's character
      index. */
  datatype WidgetOutput = WidgetOutput(code: string, cursor: Option<nat>)

  /** How a frame ends: a panic (which aborts the program), or normally with the
      cursor position the panel stores back into the widget, if it has a cursor. */
  datatype FrameResult = Panicked | Finished(cursor: Option<nat>)

  /** The fields of `CodePilotCode` as one value. */
  datatype CodeState = CodeState(
    rawCode: string,
    completions: seq<string>,
    autocompleteToken: string,
    cursorIndex: Option<nat>,
    selectedCompletion: nat)

  /** What the text before the cursor asks of the completion engine: its token, and
      the whole code as the source. */
  datatype Query = Query(token: string, code: string)

  /** A frame's outcome, its final state and the query it made, if any. */
  datatype Frame = Frame(result: FrameResult, state: CodeState, query: Option<Query>)

  /** Escape, ArrowDown and ArrowUp, in that order, with `n` the number of
      completions at the start of the frame. */
  function AfterSelectionKeys(s: CodeState, keys: Keys, n: nat): CodeState
    requires n > 0
  {
    var s1 := if keys.escape then s.(completions := []) else s;
    var s2 := if keys.arrowDown then s1.(selectedCompletion := NextSelection(s1.selectedCompletion, n)) else s1;
    if keys.arrowUp then s2.(selectedCompletion := PreviousSelection(s2.selectedCompletion, n)) else s2
  }

  /** Accepting the selected completion into `code` at `cursor` does not panic: the
      selection indexes the list, the cursor is within the text and the cut within
      the completion. */
  predicate CanAccept(s: CodeState, code: string, cursor: nat) {
    && s.selectedCompletion < |s.completions|
    && cursor <= |code|
    && SpliceCut(s.autocompleteToken, s.completions[s.selectedCompletion]) <= |s.completions[s.selectedCompletion]|
  }

  /** The state after accepting the selected completion. */
  function Accepted(s: CodeState, code: string, cursor: nat): CodeState
    requires CanAccept(s, code, cursor)
  {
    var completion := s.completions[s.selectedCompletion];
    s.(rawCode := Spliced(code, cursor, completion, SpliceCut(s.autocompleteToken, completion)))
  }

  /** How many characters accepting the selected completion inserts. */
  function AcceptedLength(s: CodeState, code: string, cursor: nat): nat
    requires CanAccept(s, code, cursor)
  {
    var completion := s.completions[s.selectedCompletion];
    |completion| - SpliceCut(s.autocompleteToken, completion)
  }

  /** The keys handled before the widget is shown. */
  datatype KeyPhase = KeyPhase(panicked: bool, state: CodeState, inserted: nat, enterConsumed: bool)

  /** With completions on offer, the selection keys, then Tab or Enter (Enter is only
      looked at, and consumed, when Tab was not pressed) accept the selected
      completion at the stored cursor. */
  function KeyPhaseOf(s: CodeState, keys: Keys): KeyPhase {
    var n := |s.completions|;
    if n == 0 then KeyPhase(false, s, 0, false)
    else
      var s1 := AfterSelectionKeys(s, keys, n);
      if s.cursorIndex.None? || !(keys.tab || keys.enter) then KeyPhase(false, s1, 0, false)
      else if !CanAccept(s1, s.rawCode, s.cursorIndex.value) then KeyPhase(true, s1, 0, !keys.tab)
      else
        KeyPhase(false, Accepted(s1, s.rawCode, s.cursorIndex.value),
                 AcceptedLength(s1, s.rawCode, s.cursorIndex.value), !keys.tab)
  }

  /** The state after the token refresh: a non-empty token gets the engine's list,
      is stored and selects the first entry; an empty one clears both. */
  function Refreshed(s: CodeState, token: string, offered: seq<string>): CodeState {
    if token != [] then s.(completions := offered, autocompleteToken := token, selectedCompletion := 0)
    else s.(completions := [], autocompleteToken := [], selectedCompletion := 0)
  }

  /** The edits at the widget's cursor, from the state `s` the widget left (its code
      already taken over) and the state `start` the frame began with: the token
      refresh when code or cursor changed, then `KeyEdits`. */
  function CursorPhase(start: CodeState, s: CodeState, cursor: nat, keys: Keys, kp: KeyPhase, offered: seq<string>): Frame {
    var s3 := s.(cursorIndex := Some(cursor));
    if cursor > |s3.rawCode| then Frame(Panicked, s3, None)
    else
      var changed := s3.rawCode != start.rawCode || s3.cursorIndex != start.cursorIndex;
      var token := TokenBefore(s3.rawCode, cursor);
      var s4 := if changed then Refreshed(s3, token, offered) else s3;
      var query := if changed && token != [] then Some(Query(token, s3.rawCode)) else None;
      var edited := KeyEdits(s4, cursor, keys, kp);
      Frame(edited.result, edited.state, query)
  }

  /** Auto-indent on a newline request, then Backspace, and the cursor the panel
      stores back: the widget's cursor moved by what was inserted and removed. */
  function KeyEdits(s: CodeState, cursor: nat, keys: Keys, kp: KeyPhase): Frame
    requires cursor <= |s.rawCode|
  {
    var newline := keys.enter && !kp.enterConsumed;
    var s5 := if newline then s.(rawCode := Indented(s.rawCode, cursor)) else s;
    var added := if newline then |IndentAfter(ActiveLine(s.rawCode, cursor))| else 0;
    if keys.backspace && cursor == 0 then Frame(Panicked, s5, None)
    else
      var s6 := if keys.backspace then s5.(rawCode := Backspaced(s5.rawCode, cursor)) else s5;
      var removed := if keys.backspace then BackspaceWidth(s5.rawCode, cursor) else 0;
      Frame(Finished(Some(cursor + kp.inserted + added - removed)), s6, None)
  }

  /** One frame of the panel from state `s`, with `offered` standing for the list the
      completion engine returns for the frame's query. */
  function FrameOf(s: CodeState, keys: Keys, widget: string -> WidgetOutput, offered: seq<string>): Frame {
    var kp := KeyPhaseOf(s, keys);
    if kp.panicked then Frame(Panicked, kp.state, None)
    else
      var output := widget(kp.state.rawCode);
      var s2 := kp.state.(rawCode := output.code);
      match output.cursor
      case None => Frame(Finished(None), s2, None)
      case Some(cursor) => CursorPhase(s, s2, cursor, keys, kp, offered)
  }

  // ---------------------------------------------------------------------------
  // Laws of a frame
  // ---------------------------------------------------------------------------

  /** A frame with no keys in which the widget leaves code and cursor as they were
      changes nothing, asks the engine nothing and stores the cursor back. */
  lemma QuietFrame(s: CodeState, cursor: nat, widget: string -> WidgetOutput, offered: seq<string>)
    requires s.cursorIndex == Some(cursor) && cursor <= |s.rawCode|
    requires widget(s.rawCode) == WidgetOutput(s.rawCode, Some(cursor))
    ensures FrameOf(s, Keys(), widget, offered) == Frame(Finished(Some(cursor)), s, None)
  {
  }

  /** When the widget changes the code, the token before its cursor is refreshed: a
      non-empty token is queried against the whole code and its list offered from
      the first entry; an empty one closes the list. */
  lemma RefreshFrame(s: CodeState, code: string, cursor: nat, widget: string -> WidgetOutput, offered: seq<string>)
    requires code != s.rawCode && cursor <= |code|
    requires widget(s.rawCode) == WidgetOutput(code, Some(cursor))
    ensures var f := FrameOf(s, Keys(), widget, offered); var token := TokenBefore(code, cursor);
      && f.result == Finished(Some(cursor))
      && f.state == CodeState(code, if token == [] then [] else offered, token, Some(cursor), 0)
      && f.query == (if token == [] then None else Some(Query(token, code)))
  {
  }

  /** ArrowDown with a list on offer moves the selection to the next entry, from the
      last back to the first. */
  lemma ArrowDownFrame(s: CodeState, cursor: nat, widget: string -> WidgetOutput, offered: seq<string>)
    requires s.selectedCompletion < |s.completions| && s.cursorIndex == Some(cursor) && cursor <= |s.rawCode|
    requires widget(s.rawCode) == WidgetOutput(s.rawCode, Some(cursor))
    ensures var f := FrameOf(s, Keys(arrowDown := true), widget, offered);
      && f.result == Finished(Some(cursor))
      && f.state == s.(selectedCompletion := if s.selectedCompletion + 1 == |s.completions| then 0 else s.selectedCompletion + 1)
  {
  }

  /** Tab accepts the selected completion: what the token has not typed of it is
      inserted at the cursor, and the cursor is stored right after the insertion. */
  lemma TabFrame(s: CodeState, cursor: nat, widget: string -> WidgetOutput, offered: seq<string>)
    requires |s.completions| > 0 && s.cursorIndex == Some(cursor) && CanAccept(s, s.rawCode, cursor)
    requires var code := Accepted(s, s.rawCode, cursor).rawCode; widget(code) == WidgetOutput(code, Some(cursor))
    ensures var completion := s.completions[s.selectedCompletion];
      var rest := completion[SpliceCut(s.autocompleteToken, completion)..];
      var f := FrameOf(s, Keys(tab := true), widget, offered);
      && f.state.rawCode == s.rawCode[..cursor] + rest + s.rawCode[cursor..]
      && f.result == Finished(Some(cursor + |rest|))
      && f.state.rawCode[..cursor + |rest|] == s.rawCode[..cursor] + rest
  {
    var completion := s.completions[s.selectedCompletion];
    var rest := completion[SpliceCut(s.autocompleteToken, completion)..];
    var code := s.rawCode[..cursor] + rest + s.rawCode[cursor..];
    assert code[..cursor + |rest|] == s.rawCode[..cursor] + rest;
  }

  /** Enter with a list on offer accepts like Tab and is consumed: no line break is
      inserted. */
  lemma EnterAcceptsFrame(s: CodeState, cursor: nat, widget: string -> WidgetOutput, offered: seq<string>)
    requires |s.completions| > 0 && s.cursorIndex == Some(cursor) && CanAccept(s, s.rawCode, cursor)
    requires var code := Accepted(s, s.rawCode, cursor).rawCode; widget(code) == WidgetOutput(code, Some(cursor))
    ensures FrameOf(s, Keys(enter := true), widget, offered).state.rawCode == Accepted(s, s.rawCode, cursor).rawCode
    ensures FrameOf(s, Keys(enter := true), widget, offered).result == FrameOf(s, Keys(tab := true), widget, offered).result
  {
  }

  /** Tab and Enter in one frame: Tab accepts, and Enter, left unconsumed, also breaks
      the line after the accepted text. */
  lemma TabAndEnterFrame(s: CodeState, cursor: nat, widget: string -> WidgetOutput, offered: seq<string>)
    requires |s.completions| > 0 && s.cursorIndex == Some(cursor) && CanAccept(s, s.rawCode, cursor)
    requires var code := Accepted(s, s.rawCode, cursor).rawCode; widget(code) == WidgetOutput(code, Some(cursor))
    ensures var code := Accepted(s, s.rawCode, cursor).rawCode;
      FrameOf(s, Keys(tab := true, enter := true), widget, offered).state.rawCode == Indented(code, cursor)
  {
    var code := Accepted(s, s.rawCode, cursor).rawCode;
    assert cursor <= |code|;
  }

  /** Escape and Tab in one frame: the list is closed before the selected entry is
      read, so the frame panics. */
  lemma EscapeAndTabPanics(s: CodeState, widget: string -> WidgetOutput, offered: seq<string>)
    requires |s.completions| > 0 && s.cursorIndex.Some?
    ensures FrameOf(s, Keys(escape := true, tab := true), widget, offered).result == Panicked
  {
  }

  /** Enter with no list on offer breaks the line with the active line's indentation
      and stores the cursor right after it. */
  lemma EnterFrame(s: CodeState, cursor: nat, widget: string -> WidgetOutput, offered: seq<string>)
    requires s.completions == [] && s.cursorIndex == Some(cursor) && cursor <= |s.rawCode|
    requires widget(s.rawCode) == WidgetOutput(s.rawCode, Some(cursor))
    ensures var indent := IndentAfter(ActiveLine(s.rawCode, cursor));
      var f := FrameOf(s, Keys(enter := true), widget, offered);
      && f.state.rawCode == s.rawCode[..cursor] + indent + s.rawCode[cursor..]
      && f.result == Finished(Some(cursor + |indent|))
      && f.state.rawCode[..cursor + |indent|] == s.rawCode[..cursor] + indent
  {
    var indent := IndentAfter(ActiveLine(s.rawCode, cursor));
    var code := s.rawCode[..cursor] + indent + s.rawCode[cursor..];
    assert code[..cursor + |indent|] == s.rawCode[..cursor] + indent;
  }

  /** Backspace with no list on offer removes `BackspaceWidth` characters before
      the cursor and stores the cursor where they began; at the start of the text it
      panics. */
  lemma BackspaceFrame(s: CodeState, cursor: nat, widget: string -> WidgetOutput, offered: seq<string>)
    requires s.completions == [] && s.cursorIndex == Some(cursor) && cursor <= |s.rawCode|
    requires widget(s.rawCode) == WidgetOutput(s.rawCode, Some(cursor))
    ensures var f := FrameOf(s, Keys(backspace := true), widget, offered);
      if cursor == 0 then f.result == Panicked
      else
        var w := BackspaceWidth(s.rawCode, cursor);
        && f.state.rawCode == s.rawCode[..cursor - w] + s.rawCode[cursor..]
        && f.result == Finished(Some(cursor - w))
  {
  }

  /** `String::remove`: the text without the character at `i`. */
  function RemoveAt(s: string, i: nat): string
    requires i < |s|
  {
    s[..i] + s[i + 1..]
  }

  /** The code panel's state record. The compiled program it also holds belongs to
      the interpreter and is not part of this model. */
  class CodePilotCode {
    var rawCode: string
    var completions: seq<string>
    var autocompleteToken: string
    var cursorIndex: Option<nat>
    var selectedCompletion: nat

    function State(): CodeState
      reads this
    {
      CodeState(rawCode, completions, autocompleteToken, cursorIndex, selectedCompletion)
    }

    /** `CodePilotCode::default()`: empty code, no completions, no token, no cursor. */
    constructor ()
      ensures State() == CodeState([], [], [], None, 0)
    {
      rawCode := [];
      completions := [];
      autocompleteToken := [];
      cursorIndex := None;
      selectedCompletion := 0;
    }

    /** Escape closes the completion list. */
    method Escape()
      modifies this
      ensures State() == old(State()).(completions := [])
    {
      completions := [];
    }

    /** ArrowDown, with `n` the number of completions at the start of the frame. */
    method SelectNext(n: nat)
      requires n > 0
      modifies this
      ensures State() == old(State()).(selectedCompletion := NextSelection(old(selectedCompletion), n))
    {
      selectedCompletion := (selectedCompletion + 1) % n;
    }

    /** ArrowUp, with `n` the number of completions at the start of the frame. */
    method SelectPrevious(n: nat)
      requires n > 0
      modifies this
      ensures State() == old(State()).(selectedCompletion := PreviousSelection(old(selectedCompletion), n))
    {
      var previous: nat := if selectedCompletion == 0 then USIZE_MAX else selectedCompletion - 1;
      selectedCompletion := previous % n;
    }

    /** Tab or Enter: the selected completion, less what is already typed, goes into
        the code as it was at the start of the frame, at the stored cursor. */
    method AcceptCompletion(prevRawCode: string, cursor: nat) returns (panicked: bool, inserted: nat)
      modifies this
      ensures panicked == !CanAccept(old(State()), prevRawCode, cursor)
      ensures panicked ==> State() == old(State())
      ensures !panicked ==> (State() == Accepted(old(State()), prevRawCode, cursor)
        && inserted == AcceptedLength(old(State()), prevRawCode, cursor))
    {
      if selectedCompletion >= |completions| {
        return true, 0;
      }
      var completion := completions[selectedCompletion];
      var cut := SpliceCut(autocompleteToken, completion);
      if cursor > |prevRawCode| || cut > |completion| {
        return true, 0;
      }
      var first := prevRawCode[..cursor];
      var last := prevRawCode[cursor..];
      var newCode := first;
      var completionToInsert := completion[cut..];
      newCode := newCode + completionToInsert;
      newCode := newCode + last;
      rawCode := newCode;
      panicked, inserted := false, |completionToInsert|;
    }

    /** The token refresh: the token before the cursor either gets the completion
        engine's list for the whole code, or (when empty) clears the list. */
    method RefreshToken(parse: string -> ParseResult, cursor: nat) returns (ghost offered: seq<string>)
      requires cursor <= |rawCode|
      modifies this
      ensures var token := TokenBefore(old(rawCode), cursor);
        && State() == Refreshed(old(State()), token, offered)
        && (token != [] ==> MaySuggest(parse, token, old(rawCode), offered))
    {
      var head := rawCode[..cursor];
      var pieces := Split(head, Blanks);
      var last := pieces[|pieces| - 1];
      offered := [];
      if last != [] {
        var found := SuggestCompletions(parse, last, rawCode);
        offered := found;
        completions := found;
        autocompleteToken := last;
        selectedCompletion := 0;
      } else {
        completions := [];
        selectedCompletion := 0;
        autocompleteToken := [];
      }
    }

    /** Enter without a completion to accept: inserts the indentation for the active
        line at the cursor. */
    method InsertNewline(cursor: nat) returns (added: nat)
      requires cursor <= |rawCode|
      modifies this
      ensures State() == old(State()).(rawCode := Indented(old(rawCode), cursor))
      ensures added == |IndentAfter(ActiveLine(old(rawCode), cursor))|
    {
      var row := CursorRow(rawCode, cursor);
      var codeLines := Split(rawCode, {'\n'});
      ActiveLineIndex(rawCode, cursor);
      var activeLine := codeLines[row];
      var tabs := LeadingRun(activeLine, '\t');
      var spaces := LeadingRun(activeLine, ' ');
      if OpensBlock(activeLine) {
        if tabs > 0 {
          tabs := tabs + 1;
        } else {
          spaces := spaces + 4;
        }
      }
      var indent := "\n" + Repeat('\t', tabs) + Repeat(' ', spaces);
      rawCode := rawCode[..cursor] + indent + rawCode[cursor..];
      added := 1 + tabs + spaces;
    }

    /** Backspace: four spaces before the cursor go one character at a time in a
        loop of four removals at the same index; otherwise one character goes. */
    method Backspace(cursor: nat) returns (removed: nat)
      requires 1 <= cursor <= |rawCode|
      modifies this
      ensures State() == old(State()).(rawCode := Backspaced(old(rawCode), cursor))
      ensures removed == BackspaceWidth(old(rawCode), cursor)
    {
      ghost var code := rawCode;
      if EndsWith(rawCode[..cursor], "    ") {
        for j := 0 to 4
          invariant rawCode == code[..cursor - 4] + code[cursor - 4 + j..]
          invariant State() == old(State()).(rawCode := rawCode)
        {
          rawCode := RemoveAt(rawCode, cursor - 4);
          assert rawCode == code[..cursor - 4] + code[cursor - 4 + j + 1..];
        }
        removed := 4;
      } else {
        rawCode := RemoveAt(rawCode, cursor - 1);
        removed := 1;
      }
    }

    /** The keys handled before the widget is shown. */
    method HandleKeys(keys: Keys) returns (kp: KeyPhase)
      modifies this
      ensures kp == KeyPhaseOf(old(State()), keys) && State() == kp.state
    {
      ghost var start := State();
      var prevRawCode := rawCode;
      var inserted: nat := 0;
      var enterConsumed := false;
      var completionsLen := |completions|;
      if completionsLen > 0 {
        if keys.escape {
          Escape();
        }
        if keys.arrowDown {
          SelectNext(completionsLen);
        }
        if keys.arrowUp {
          SelectPrevious(completionsLen);
        }
        assert State() == AfterSelectionKeys(start, keys, completionsLen);
        if cursorIndex.Some? && (keys.tab || keys.enter) {
          enterConsumed := !keys.tab;
          var panicked;
          panicked, inserted := AcceptCompletion(prevRawCode, cursorIndex.value);
          if panicked {
            return KeyPhase(true, State(), 0, enterConsumed);
          }
        }
      }
      kp := KeyPhase(false, State(), inserted, enterConsumed);
    }

    /** The edits at the widget's cursor; `start` is the state the frame began with. */
    method EditAtCursor(parse: string -> ParseResult, start: CodeState, cursor: nat, keys: Keys, kp: KeyPhase)
      returns (result: FrameResult, ghost offered: seq<string>)
      modifies this
      ensures var f := CursorPhase(start, old(State()), cursor, keys, kp, offered);
        && result == f.result && State() == f.state
        && (f.query.Some? ==> MaySuggest(parse, f.query.value.token, f.query.value.code, offered))
    {
      offered := [];
      cursorIndex := Some(cursor);
      if cursor > |rawCode| {
        return Panicked, offered;
      }
      ghost var s3 := State();
      if start.rawCode != rawCode || cursorIndex != start.cursorIndex {
        offered := RefreshToken(parse, cursor);
        assert State() == Refreshed(s3, TokenBefore(s3.rawCode, cursor), offered);
      }
      result := EditKeys(cursor, keys, kp);
    }

    /** Auto-indent and Backspace at the widget's cursor. */
    method EditKeys(cursor: nat, keys: Keys, kp: KeyPhase) returns (result: FrameResult)
      requires cursor <= |rawCode|
      modifies this
      ensures var f := KeyEdits(old(State()), cursor, keys, kp);
        result == f.result && State() == f.state
    {
      var added: nat := 0;
      if keys.enter && !kp.enterConsumed {
        added := InsertNewline(cursor);
      }
      if keys.backspace {
        if cursor == 0 {
          return Panicked;
        }
        var removed := Backspace(cursor);
        return Finished(Some(cursor + kp.inserted + added - removed));
      }
      return Finished(Some(cursor + kp.inserted + added));
    }

    /** One run of the code panel: the keys before the widget, the widget, then the
        edits at its cursor. */
    method RunFrame(parse: string -> ParseResult, keys: Keys, widget: string -> WidgetOutput)
      returns (result: FrameResult, ghost offered: seq<string>)
      modifies this
      ensures var f := FrameOf(old(State()), keys, widget, offered);
        && result == f.result && State() == f.state
        && (f.query.Some? ==> MaySuggest(parse, f.query.value.token, f.query.value.code, offered))
    {
      offered := [];
      var start := State();
      var kp := HandleKeys(keys);
      if kp.panicked {
        return Panicked, offered;
      }
      var output := widget(rawCode);
      rawCode := output.code;
      if output.cursor.None? {
        return Finished(None), offered;
      }
      result, offered := EditAtCursor(parse, start, output.cursor.value, keys, kp);
    }
  }
}
