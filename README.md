# Codepilot editor and completion engine, in Dafny

This project models the code panel of Codepilot. The player types Python into an
in-game text editor, and the editor offers completions for the names that the
script defines. There are two parts.

* **The error-tolerant completion engine** (`src/autocomplete.rs`). It has three
  stages.
  * `strip_parse` parses the script. When the parser reports an error, it deletes
    the line that holds the error offset (`remove_line`) and tries again. It gives
    up once the text is empty.
  * `get_available_autocompletes` reads the top-level statements into three maps:
    * each class to its methods and their parameter names;
    * each function to its parameter names;
    * each assigned name to the name it calls, or to `""`.
  * `suggest_completions` matches the typed token against those maps. It emits:
    * class names;
    * `name(args)` for functions;
    * bare binding names;
    * `.method(args)` member completions, with `__init__` and `self` dropped and
      the methods sorted by name.
* **The editing rules of the code panel** (`egui_system` in `src/ui.rs`). These act
  on the `CodePilotCode` state record (`src/main.rs`):
  * selection keys: ArrowDown, ArrowUp and Escape;
  * the splice of the chosen completion on Tab or Enter, without the part already
    typed;
  * the token before the cursor, which is looked up afresh whenever the code or
    the cursor changes;
  * auto-indent on Enter;
  * the four-space backspace;
  * the cursor adjustment that all of these add up to.

The project has three files.

* `text.dfy` (module `Text`): the Rust standard-library operations the source
  relies on, read on ASCII text. These are `str::split` on a set of characters,
  `join`, `str::lines`, prefix and suffix tests, and the sorted order of a key set.
* `autocomplete.dfy` (module `AutoComplete`):
  * the parser's output as a small datatype;
  * `remove_line`, and `strip_parse` over a parser given as a parameter;
  * the symbol-table builder;
  * the matcher. It is stated over explicit key orders, because a HashMap hands its
    keys out in an order the program does not control.

  Each imperative routine is a method with loops, proved equal to a specification
  function. The laws are lemmas about those functions.
* `editor.dfy` (module `Editor`):
  * the pure editing rules;
  * `FrameOf`, one whole frame of the panel as a function of the state, the keys
    and the text widget;
  * the class `CodePilotCode`, whose methods change the record step by step as
    `egui_system` does. `RunFrame` composes them and is proved to agree with
    `FrameOf`.

Two readings of the source worth noting:

* Querying `x` on a script whose only statement is `x = 5` offers nothing, not the
  bare name `x`. The name equals the first `.`-part of the query, so the branch for
  an exactly matching binding runs. That branch looks up the class `""`, finds
  nothing, and the bare-name branch is never reached (`UnresolvedBindingExample`).
* `remove_line` counts the newlines at positions 0 to `index` *inclusive*
  (`LineNumberAt`).

## Model

| member | source | states |
|---|---|---|
| AutoComplete.RemoveLine | src/autocomplete.rs:132-152 | The counting loop and the in-place removal compute `LineRemoved`. The line number is the count of '\n' at positions 0..=index. The result is "" when the guard rejects that number, else the other lines joined by "\n". |
| AutoComplete.RemovedLineLaw | src/autocomplete.rs:144-151 | When the guard lets line k through, the result is `lines()` with exactly line k removed, the rest in order. Split at '\n', it gives `lines[..k] + lines[k+1..]`. It is "" when that was the only line, and a trailing newline is not kept. |
| AutoComplete.StripParse | src/autocomplete.rs:154-179 | The recursion itself, without its own ensures. `AttemptsChain` and `StripParseLast` state what it returns. |
| AutoComplete.ShortenedHasFewerLines | src/autocomplete.rs:166-175 | The text `strip_parse` retries on is empty or has strictly fewer lines than the text before it, which is why the recursion terminates. |
| AutoComplete.AttemptsChain | src/autocomplete.rs:154-179 | The chain of texts `strip_parse` tries starts with the source. Each text but the last fails to parse and is followed by its own shortening, which is non-empty and has fewer lines. There are at most (lines of the source) + 1 attempts. |
| AutoComplete.StripParseLast | src/autocomplete.rs:158-171 | `strip_parse` returns the tree of the first text in the chain that parses. It returns None exactly when the last text fails and its shortening is empty. |
| AutoComplete.FirstLineErrorGivesUp | src/autocomplete.rs:145-147 | An error on the first line (line number 0, where the usize subtraction underflows; read in the integers here) makes the guard reject it, and recovery ends with None. |
| AutoComplete.MethodsOfLaw | src/autocomplete.rs:203-215 | A class's method table holds exactly the names of its direct `def` children. Each maps to the parameter list of the last `def` of that name. |
| AutoComplete.CollectClassesLaw | src/autocomplete.rs:198-219 | The class map holds exactly the top-level classes. Each maps to the method table of the last class of that name; a later duplicate overwrites. |
| AutoComplete.CollectFunctionsLaw | src/autocomplete.rs:220-228 | The function map holds exactly the top-level functions, each with the parameters of its last definition. |
| AutoComplete.CollectAssignmentsLaw | src/autocomplete.rs:229-246 | The binding map holds exactly the first targets of top-level assignments. Each maps to the callee's text when the last such assignment's value is a call, else to "". |
| AutoComplete.GetAvailableAutocompletes | src/autocomplete.rs:182-273 | The loops that fill the three maps by insertion compute `AvailableAutocompletes`. That is None when recovery gives nothing or the tree is not a module, else `Collect` of its body. |
| AutoComplete.KeysInSomeOrder | src/autocomplete.rs:28 | The keys of a map are collected in some order: each key exactly once, nothing else. |
| AutoComplete.WithoutSelf | src/autocomplete.rs:78 | The parameters kept are exactly those other than "self", never more than there were. |
| AutoComplete.WithoutSelfAppend | src/autocomplete.rs:78 | Dropping `self` distributes over concatenation, so the other parameters keep their order and their duplicates. |
| AutoComplete.WithoutSelfSingle | src/autocomplete.rs:78 | One parameter is kept exactly when it is not "self". |
| AutoComplete.MatchingLaw | src/autocomplete.rs:27-33 | The class group holds exactly the names that start with the query, each once. |
| AutoComplete.FunctionGroupLaw | src/autocomplete.rs:35-50 | The function group has one entry per function name that starts with the query, in key order. Each entry is `name(p1, p2)` with every parameter, `self` included. |
| AutoComplete.SuggestionGroups | src/autocomplete.rs:27-122 | A completion list is all matching classes, each once, then all matching functions, each once and formatted with their parameters, then what the bindings contribute, in that order of groups. |
| AutoComplete.MethodNamesLaw | src/autocomplete.rs:71-75 | The member names kept are exactly those that start with the prefix and are not `__init__`, and they stay in ascending order. |
| AutoComplete.MembersOverLaw | src/autocomplete.rs:74-85 | Each kept method yields `.name(args)` in the order of the names, with `self` dropped from the arguments. |
| AutoComplete.MemberCompletionsLaw | src/autocomplete.rs:66-88 | The member completions of a class are its methods in strictly ascending name order. They are filtered by the prefix, `__init__` is left out, and each is formatted `.name(args)`. |
| AutoComplete.MemberCompletionShape | src/autocomplete.rs:97-111 | Every member completion is `.name(args)` for a method of the class that is not `__init__`, with no argument equal to "self". |
| AutoComplete.DottedQueryLaw | src/autocomplete.rs:57-88 | A query with exactly two `.`-parts: only the binding equal to the head contributes, namely its class's methods that start with the tail. Every other binding contributes nothing, not even its name. |
| AutoComplete.UndottedQueryLaw | src/autocomplete.rs:89-119 | Any other query: the binding equal to the first part contributes all of its class's methods, and nothing when it names no class. Every other binding that starts with the whole query contributes its bare name. |
| AutoComplete.MemberQueryExample | src/autocomplete.rs:60-88 | With `class Foo` having `def bar(self, x)` and `f = Foo()`, the query `f.` yields exactly `.bar(x)`. |
| AutoComplete.UnresolvedBindingExample | src/autocomplete.rs:89-96 | With `x = 5` only, the query `x` yields nothing. |
| AutoComplete.EmptyQueryExample | src/autocomplete.rs:27-50 | The empty query yields every class and every function: `Foo` and then `move(speed)`. |
| AutoComplete.MemberCompletionText | src/autocomplete.rs:80-83 | Building `.name(` + args + `)` by pushes gives the member format. |
| AutoComplete.PushMemberCompletions | src/autocomplete.rs:96-115 | Sorting the method names and pushing each kept method appends exactly the class's member completions. |
| AutoComplete.PushMembersOver | src/autocomplete.rs:100-114 | The loop over sorted names appends the member completion of each kept name, in order. |
| AutoComplete.PushMatchingClasses | src/autocomplete.rs:28-33 | The loop over class names appends the matching ones, in order. |
| AutoComplete.CallText | src/autocomplete.rs:42-46 | Building `name(` + args + `)` by pushes gives the call format. |
| AutoComplete.PushFunctionCompletions | src/autocomplete.rs:36-50 | The loop over function names appends the function group. |
| AutoComplete.PushBindingSuggestions | src/autocomplete.rs:56-119 | One binding's dispatch appends exactly what that binding contributes. |
| AutoComplete.PushBindingGroup | src/autocomplete.rs:53-122 | The loop over the bindings appends the binding group. |
| AutoComplete.SuggestionListOf | src/autocomplete.rs:21-127 | Classes, then functions, then bindings, listed in orders that enumerate the maps, form a completion list of the table. |
| AutoComplete.SuggestCompletions | src/autocomplete.rs:15-128 | `suggest_completions` returns [] when no table is recovered. Otherwise it returns the completion list of the table for some order of its keys. |
| Text.Lines | src/autocomplete.rs:144 | No line holds a '\n', there are no more lines than '\n'-pieces, and a non-empty text has a line. |
| Text.LinesWithoutCR | src/autocomplete.rs:144 | In text without '\r', the lines are the '\n'-pieces, less a final empty piece. |
| Text.LastPieceEmpty | src/autocomplete.rs:144 | The last '\n'-piece is empty exactly when the text is empty or ends with '\n'. |
| Text.LinesJoin | src/autocomplete.rs:144-151 | In text without '\r' that does not end with '\n', the lines are the '\n'-pieces. Joining the lines with "\n" gives the text back, less a final '\n'. |
| Text.Split | src/ui.rs:220 | `str::split` on a set of characters, with at least one piece. `JoinSplit`, `SplitJoin`, `SplitPiecesFree` and `SplitLast` state what the pieces are. |
| Text.SplitPiecesFree | src/ui.rs:220 | No piece of a split holds a separator. |
| Text.JoinSplit | src/autocomplete.rs:57 | Joining the pieces of a split at one character with that character gives the text back. |
| Text.SplitJoin | src/autocomplete.rs:151 | Splitting a join of pieces that hold no separator recovers the pieces. |
| Text.Join | src/autocomplete.rs:151 | `slice::join`, without its own ensures. `JoinSplit`, `SplitJoin` and `LinesJoin` state it as the inverse of splitting. |
| Text.SplitCount | src/ui.rs:258 | A split at one character has one more piece than the text has that character. |
| Text.SplitAppend | src/ui.rs:258-259 | In a split of a concatenation, the last piece of the first part runs into the first piece of the second. The other pieces are those of each part. |
| Text.SortedKeys | src/autocomplete.rs:71-72 | The keys collected and sorted, without its own ensures. `SortedKeysEnumerates` and `SortedKeysAscending` state what it is. |
| Text.SortedKeysEnumerates | src/autocomplete.rs:71-72 | The sorted method names list exactly the keys, each once. |
| Text.SortedKeysAscending | src/autocomplete.rs:71-72 | The sorted method names are strictly ascending in Rust's string order. |
| Text.LexLeTotal | src/autocomplete.rs:72 | Rust's string order, which the sort uses, is total. |
| Text.LexLeTransitive | src/autocomplete.rs:72 | That order is transitive. |
| Text.LexLeAntisymmetric | src/autocomplete.rs:72 | That order is antisymmetric. |
| Text.SplitLast | src/ui.rs:220-223 | The last piece of a split contains no separator, ends the text, and starts the text or follows a separator. |
| Editor.NextSelection | src/ui.rs:145-147 | ArrowDown keeps the selection below the count, going from the last completion back to the first. |
| Editor.PreviousSelection | src/ui.rs:149-151 | ArrowUp keeps the selection below the count and moves up one. From the first completion the usize wrap gives `(2^64-1) % n`. |
| Editor.PreviousFromFirstExample | src/ui.rs:149-151 | From the first of 3 or 5 completions ArrowUp stays on the first, and from the first of 2 it goes to the second. |
| Editor.TokenBefore | src/ui.rs:218-223 | The token is the longest blank-free suffix of the text before the cursor. It ends at the cursor, holds no tab, space or newline, and starts the text or follows a blank. |
| Editor.SpliceCut | src/ui.rs:159-174 | The cut of a completion is never longer than the token. |
| Editor.SpliceCutLaw | src/ui.rs:163-173 | For a member completion, a non-zero cut starts at a '.' of the token: the cut is the last `.`-segment plus its dot. |
| Editor.AcceptReplacesTyped | src/ui.rs:176-184 | When the completion starts with what it cuts, accepting it replaces the cut characters before the cursor by the whole completion. |
| Editor.PlainCompletionFits | src/ui.rs:159-161 | An ordinary completion that starts with the token has the whole token as its cut. |
| Editor.MemberCompletionFits | src/ui.rs:163-173 | After the token `head.tail`, a member completion of a method starting with `tail` cuts exactly `.tail`, which is how the completion starts. |
| Editor.DeepDottedCut | src/ui.rs:163-173 | With several dots in the token, the cut counts only the last segment and its dot. |
| Editor.DeepDottedTokenExample | src/ui.rs:171-178 | After `f.a.bbbbb` the cut of `.m()` is 6, longer than the completion, so taking its rest panics. |
| Editor.LeadingRun | src/ui.rs:262-263 | `take_while(...).count()` is the length of the leading run of that character. |
| Editor.Repeat | src/ui.rs:273 | `repeat(n)` is n copies of the character. |
| Editor.IndentLaw | src/ui.rs:256-277 | Enter inserts '\n' plus the active line's indentation, which is leading tabs or leading spaces and never both. After a line ending in ':', '{', '[' or '(' it adds one more tab, or four spaces when the line has no leading tab. |
| Editor.ActiveLineIndex | src/ui.rs:258-259 | The cursor's row indexes the '\n'-pieces of the code, and the active line is that piece. |
| Editor.ActiveLineLaw | src/ui.rs:258-259 | The active line is the text from the last '\n' before the cursor to the first '\n' after it. |
| Editor.Indented | src/ui.rs:273-275 | Inserting the indentation lengthens the code and keeps the text before the cursor. |
| Editor.BackspaceWidth | src/ui.rs:283-291 | Backspace never removes more than the text before the cursor. |
| Editor.BackspaceRemovesTyped | src/ui.rs:280-291 | Backspace after four typed spaces, or after one typed character that does not complete four spaces, removes exactly what was typed. The text on both sides is kept and the width is the length of what was typed. |
| Editor.BackspaceUndoesTyping | src/ui.rs:288-291 | Backspace right after a typed character removes it again, unless it completed four spaces. |
| Editor.BackspaceDedents | src/ui.rs:283-287 | Backspace after four spaces removes the whole level. |
| Editor.EnterThenBackspace | src/ui.rs:256-291 | Enter after a space-indented line that opens a block, then Backspace, leaves a new line with the indentation of the line above. |
| Editor.KeyPhaseOf | src/ui.rs:137-190 | The key phase before the widget, without its own ensures. `HandleKeys` computes it step by step, and the frame lemmas state its cases. |
| Editor.CursorPhase | src/ui.rs:210-235 | The edits at the widget's cursor, without its own ensures. `EditAtCursor` computes it, and `RefreshFrame` and `QuietFrame` state its cases. |
| Editor.KeyEdits | src/ui.rs:256-302 | Auto-indent, backspace and the stored cursor, without their own ensures. `EditKeys` computes them, and `EnterFrame` and `BackspaceFrame` state their cases. |
| Editor.FrameOf | src/ui.rs:129-303 | One frame, without its own ensures. `RunFrame` runs it on the record, and the frame lemmas from `QuietFrame` to `BackspaceFrame` state its cases. |
| Editor.QuietFrame | src/ui.rs:222 | A frame with no keys and an unchanged widget changes nothing, asks the engine nothing, and keeps the cursor. |
| Editor.RefreshFrame | src/ui.rs:218-235 | When the code changes, a non-empty token before the cursor is queried against the whole code, stored, and its list offered from the first entry. An empty token clears the list and the token. |
| Editor.ArrowDownFrame | src/ui.rs:145-147 | ArrowDown with a list on offer moves the selection one down, wrapping to the first. |
| Editor.TabFrame | src/ui.rs:153-184 | Tab inserts what the token has not typed of the selected completion at the cursor. The cursor is stored right after the insertion. |
| Editor.EnterAcceptsFrame | src/ui.rs:154-189 | Enter with a list on offer accepts like Tab and is consumed, so no line break is inserted. |
| Editor.TabAndEnterFrame | src/ui.rs:154-277 | Tab and Enter together: Tab accepts, and Enter, not consumed, also breaks the line with indentation. |
| Editor.EscapeAndTabPanics | src/ui.rs:140-157 | Escape and Tab in one frame panic: the list is emptied before the selected entry is read. |
| Editor.EnterFrame | src/ui.rs:256-277 | Enter with no list breaks the line with the active line's indentation, and the cursor is stored right after it. |
| Editor.BackspaceFrame | src/ui.rs:280-291 | Backspace removes `BackspaceWidth` characters and stores the cursor where they began. At the start of the text it panics. |
| Editor.CodePilotCode.constructor | src/main.rs:110-120 | The default record: empty code, no completions, empty token, no cursor, selection 0. |
| Editor.CodePilotCode.Escape | src/ui.rs:140-143 | Escape empties the completion list and changes nothing else. |
| Editor.CodePilotCode.SelectNext | src/ui.rs:145-147 | The selection becomes `NextSelection` of the frame's starting count; nothing else changes. |
| Editor.CodePilotCode.SelectPrevious | src/ui.rs:149-151 | The selection becomes `PreviousSelection` (with the usize wrap); nothing else changes. |
| Editor.CodePilotCode.AcceptCompletion | src/ui.rs:157-184 | It panics exactly when the selection, the cursor or the cut is out of range. Otherwise the code becomes the splice, and the inserted length is what the cursor moves by. |
| Editor.CodePilotCode.RefreshToken | src/ui.rs:218-235 | The record becomes `Refreshed` with the token before the cursor. For a non-empty token the list is one `suggest_completions` may return for it on the whole code. |
| Editor.CodePilotCode.InsertNewline | src/ui.rs:256-278 | The active line's indentation is inserted at the cursor, and the cursor moves by its length. |
| Editor.CodePilotCode.Backspace | src/ui.rs:280-292 | The four single-character removals, or the one, leave `Backspaced`. The cursor moves back by the width. |
| Editor.CodePilotCode.HandleKeys | src/ui.rs:137-187 | The keys before the widget, handled step by step, give `KeyPhaseOf`. |
| Editor.CodePilotCode.EditAtCursor | src/ui.rs:210-303 | The edits at the widget's cursor give `CursorPhase`, and the engine's list is one it may return. |
| Editor.CodePilotCode.EditKeys | src/ui.rs:256-302 | Auto-indent, backspace and the stored cursor give `KeyEdits`. |
| Editor.CodePilotCode.RunFrame | src/ui.rs:129-303 | One frame, run on the record, ends with the outcome and the state of `FrameOf`. The list the engine returns is one `suggest_completions` may return for the frame's query. |

## Left out

- The Python parser (`rustpython_parser::parse`) is a parameter `parse` that returns a module tree or an error offset. Rendering expressions with `to_string` is opaque: call targets are given as text.
- HashMap iteration order is not fixed. The completion list is stated for every order in which the maps may hand out their keys, not for one order.
- `dbg!` and `println!` are logging and are left out.
- Everything egui draws is left out: the text widget, the popup window and its float placement, syntax highlighting, and the focus request after Escape. The text widget is a parameter: a function from the code to the edited code and an optional cursor.
- A click on a popup entry (`selectable_value`) changes the selection from the rendering closure. It is left out.
- `TextEdit::load_state` is taken to succeed and hold the widget's own cursor. The stored cursor is therefore the widget's cursor plus the adjustment.
- Text is ASCII, so byte offsets and character indices agree. The parser's byte offset, `split_at`, `remove` and the slice of the completion are then read as character indices. A character-boundary panic is not modelled.
- The active line's row is the number of '\n' before the cursor. Line wrapping by the layouter is not modelled.
- A panic (a slice or index out of range) is the outcome `Panicked`. The state is recorded as it was at that point; the program would abort there.
- `FirstLineErrorGivesUp`: `line_count - 1` with `line_count == 0` underflows in Rust; read in the integers, so the guard rejects it and "" is returned. A debug build would panic there, and a release build would wrap and remove line 0.
- `LinesJoin`, `LinesWithoutCR`: stated for text without '\r'. With "\r\n" line ends, `lines()` also drops the '\r', so joining does not give the text back.
- The key phases see only keys pressed without modifiers (`consume_key` with `Modifiers::NONE`). A key pressed with a modifier goes to the text widget, which is a parameter.
- `PreviousSelection`: models the release-build wrap of `selected - 1` at 0. A debug build would panic.
- `RefreshToken`, `EditAtCursor`, `RunFrame`: the list the engine returns is a ghost out-parameter. The contract says it is one that `suggest_completions` may return, not which one, because the key order is open.
- The compiled program held in `CodePilotCode` belongs to the interpreter, and it is left out.
- The other files of the repository are not part of this model: the game systems, the interpreter plumbing, the HUD and the app setup.
