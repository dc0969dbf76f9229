/** The error-tolerant completion engine of src/autocomplete.rs: a recovering parser
    that deletes the offending line and retries, a builder that walks the top-level
    statements of the recovered module once into a symbol table, and a matcher that
    formats the entries of that table that fit the typed token. */
module AutoComplete {
  import opened Text

  datatype Option<T> = None | Some(value: T)

  /** The expression kinds the engine tells apart. A call keeps only the text the
      parser library prints for its callee. */
  datatype Expr = Call(func: string) | OtherExpr

  /** The statement kinds the engine tells apart. A function definition keeps the
      names of its positional parameters in declaration order; an assignment keeps the
      printed text of its first target. Every other statement (including `async def`)
      is `OtherStmt`. */
  datatype Stmt =
    | ClassDef(name: string, body: seq<Stmt>)
    | FunctionDef(name: string, params: seq<string>)
    | Assign(target: string, value: Expr)
    | OtherStmt

  /** A parsed program: a plain module body, or one of the parser's other modes. */
  datatype Mod = Module(body: seq<Stmt>) | OtherMod

  /** What the parser library returns: a tree, or the offset where it gave up. */
  datatype ParseResult = Parsed(tree: Mod) | Failed(offset: nat)

  /** Method name to parameter names. */
  type MethodTable = map<string, seq<string>>

  /** The symbol table (`AutoCompletes`): class to its methods, free function to its
      parameters, and assigned name to the printed callee of its right-hand side, or
      "" when the right-hand side is not a call. */
  datatype AutoCompletes = AutoCompletes(
    classes: map<string, MethodTable>,
    functions: map<string, seq<string>>,
    assignments: map<string, string>)

  // ---------------------------------------------------------------------------
  // Recovering parser
  // ---------------------------------------------------------------------------

  /** The line number `remove_line` computes for a character index: the number of
      '\n' characters at positions 0 to `index` inclusive (all of them when `index`
      is past the end). */
  function LineNumberAt(s: string, index: nat): nat {
    var end := if index < |s| then index + 1 else |s|;
    multiset(s[..end])['\n']
  }

  /** What `remove_line(s, index, offset)` returns, with its usize arithmetic read
      in the integers: "" when the guard rejects the line number (which includes
      line number 0 with offset 0), otherwise the lines of `s` with line
      `lineCount - offset` taken out, joined by "\n". */
  function LineRemoved(s: string, index: nat, offset: nat): string {
    var lineCount: int := LineNumberAt(s, index);
    var lines := Lines(s);
    if offset > lineCount - 1 || lineCount - offset >= |lines| then ""
    else
      var k := lineCount - offset;
      Join(lines[..k] + lines[k + 1..], "\n")
  }

  /** `remove_line`: counts newlines up to the index, then removes that line from the
      vector of lines in place and joins the rest. */
  method RemoveLine(input: string, index: nat, offset: nat) returns (r: string)
    ensures r == LineRemoved(input, index, offset)
  {
    var lineCount := 0;
    var i := 0;
    while i < |input|
      invariant 0 <= i <= |input| && i <= index
      invariant lineCount == multiset(input[..i])['\n']
    {
      assert input[..i + 1] == input[..i] + [input[i]];
      if input[i] == '\n' {
        lineCount := lineCount + 1;
      }
      if i == index {
        i := i + 1;
        break;
      }
      i := i + 1;
    }
    assert lineCount == LineNumberAt(input, index);
    var lines := Lines(input);
    if offset > lineCount - 1 || lineCount - offset >= |lines| {
      return "";
    }
    var k := lineCount - offset;
    lines := lines[..k] + lines[k + 1..];
    r := Join(lines, "\n");
  }

  /** When the guard lets the line through, the result is the other lines in their
      order: splitting it at '\n' gives exactly the lines before and after the removed
      one (and the text is "" when no line is left). */
  lemma RemovedLineLaw(s: string, index: nat, offset: nat)
    requires var lineCount: int := LineNumberAt(s, index);
      offset <= lineCount - 1 && lineCount - offset < |Lines(s)|
    ensures var k := LineNumberAt(s, index) - offset; var lines := Lines(s);
      && (|lines| == 1 ==> LineRemoved(s, index, offset) == "")
      && (|lines| > 1 ==> Split(LineRemoved(s, index, offset), {'\n'}) == lines[..k] + lines[k + 1..])
  {
    var k := LineNumberAt(s, index) - offset;
    var lines := Lines(s);
    var kept := lines[..k] + lines[k + 1..];
    assert LineRemoved(s, index, offset) == Join(kept, "\n");
    if |lines| > 1 {
      forall i | 0 <= i < |kept| ensures Free(kept[i], {'\n'}) {
        if i < k { assert kept[i] == lines[i]; } else { assert kept[i] == lines[i + 1]; }
      }
      SplitJoin(kept, '\n');
    }
  }

  /** A text that `strip_parse` retries on has strictly fewer lines than the one
      before it. */
  lemma ShortenedHasFewerLines(s: string, index: nat)
    ensures var t := LineRemoved(s, index, 0); t == [] || |Lines(t)| < |Lines(s)|
  {
    var lineCount: int := LineNumberAt(s, index);
    if !(0 > lineCount - 1 || lineCount >= |Lines(s)|) {
      FewerLines(Lines(s), lineCount);
    }
  }

  /** `strip_parse`: the tree of the first text that parses, where each next text is
      the previous one with the line at the parser's error offset removed; nothing
      once a removal leaves the empty text. The parser library is the parameter
      `parse`. It terminates because every retry has fewer lines. */
  function StripParse(parse: string -> ParseResult, source: string): Option<Mod>
    decreases |Lines(source)|
  {
    match parse(source)
    case Parsed(tree) => Some(tree)
    case Failed(offset) =>
      var shortened := LineRemoved(source, offset, 0);
      if |shortened| == 0 then None
      else
        ShortenedHasFewerLines(source, offset);
        StripParse(parse, shortened)
  }

  /** The texts `strip_parse` hands to the parser, in order. */
  ghost function Attempts(parse: string -> ParseResult, source: string): seq<string>
    decreases |Lines(source)|
  {
    match parse(source)
    case Parsed(_) => [source]
    case Failed(offset) =>
      var shortened := LineRemoved(source, offset, 0);
      if |shortened| == 0 then [source]
      else
        ShortenedHasFewerLines(source, offset);
        [source] + Attempts(parse, shortened)
  }

  /** `u` is the retry `strip_parse` makes after `t` fails to parse: `t` with the
      error line removed, non-empty, with strictly fewer lines than `t`. */
  predicate Retries(parse: string -> ParseResult, t: string, u: string) {
    && parse(t).Failed?
    && u == LineRemoved(t, parse(t).offset, 0)
    && u != []
    && |Lines(u)| < |Lines(t)|
  }

  /** The chain of attempts starts at the source and each attempt but the last is
      followed by its retry; so there is at most one more attempt than the source has
      lines. */
  lemma {:induction false} AttemptsChain(parse: string -> ParseResult, source: string)
    ensures var a := Attempts(parse, source);
      && |a| >= 1 && a[0] == source
      && |a| <= |Lines(source)| + 1
      && forall i :: 0 <= i < |a| - 1 ==> Retries(parse, a[i], a[i + 1])
    decreases |Lines(source)|
  {
    match parse(source)
    case Parsed(_) =>
    case Failed(offset) =>
      var shortened := LineRemoved(source, offset, 0);
      if |shortened| != 0 {
        ShortenedHasFewerLines(source, offset);
        AttemptsChain(parse, shortened);
        var a := Attempts(parse, source);
        var b := Attempts(parse, shortened);
        assert a == [source] + b;
        assert |Lines(shortened)| >= 1;
        assert Retries(parse, a[0], a[1]);
        forall i | 1 <= i < |a| - 1 ensures Retries(parse, a[i], a[i + 1]) {
          assert a[i] == b[i - 1] && a[i + 1] == b[i];
        }
      }
  }

  /** The result of `strip_parse` is decided by the last attempt: its tree when it
      parses; nothing when it fails, its shortened text then being empty. */
  lemma {:induction false} StripParseLast(parse: string -> ParseResult, source: string)
    ensures var a := Attempts(parse, source); var last := a[|a| - 1];
      && (StripParse(parse, source).Some? <==> parse(last).Parsed?)
      && (StripParse(parse, source).Some? ==> StripParse(parse, source).value == parse(last).tree)
      && (StripParse(parse, source).None? ==> LineRemoved(last, parse(last).offset, 0) == [])
    decreases |Lines(source)|
  {
    match parse(source)
    case Parsed(_) =>
    case Failed(offset) =>
      var shortened := LineRemoved(source, offset, 0);
      if |shortened| != 0 {
        ShortenedHasFewerLines(source, offset);
        StripParseLast(parse, shortened);
        var a := Attempts(parse, source);
        var b := Attempts(parse, shortened);
        assert a == [source] + b;
        assert a[|a| - 1] == b[|b| - 1];
      }
  }

  /** A parse error on the first line ends recovery with nothing: its line number is
      0, which the guard of `remove_line` rejects. */
  lemma FirstLineErrorGivesUp(parse: string -> ParseResult, source: string)
    requires parse(source).Failed? && LineNumberAt(source, parse(source).offset) == 0
    ensures StripParse(parse, source) == None
  {
  }

  // ---------------------------------------------------------------------------
  // Symbol-table builder
  // ---------------------------------------------------------------------------

  predicate DefinesFunction(s: Stmt, name: string) {
    s.FunctionDef? && s.name == name
  }

  predicate DefinesClass(s: Stmt, name: string) {
    s.ClassDef? && s.name == name
  }

  predicate AssignsTo(s: Stmt, name: string) {
    s.Assign? && s.target == name
  }

  /** The text an assignment binds its target to. */
  function Callee(value: Expr): string {
    match value
    case Call(func) => func
    case OtherExpr => ""
  }

  /** The method table of a class body: each direct `def` child, later ones
      overwriting earlier ones of the same name. */
  function MethodsOf(body: seq<Stmt>): MethodTable
    decreases |body|
  {
    if body == [] then map[]
    else
      var table := MethodsOf(body[..|body| - 1]);
      match body[|body| - 1]
      case FunctionDef(name, params) => table[name := params]
      case _ => table
  }

  /** The table after one top-level statement has been recorded. */
  function Record(table: AutoCompletes, stmt: Stmt): AutoCompletes {
    match stmt
    case ClassDef(name, body) => table.(classes := table.classes[name := MethodsOf(body)])
    case FunctionDef(name, params) => table.(functions := table.functions[name := params])
    case Assign(target, value) => table.(assignments := table.assignments[target := Callee(value)])
    case OtherStmt => table
  }

  /** The table built from a module body, one statement after the other. */
  function Collect(body: seq<Stmt>): AutoCompletes
    decreases |body|
  {
    if body == [] then AutoCompletes(map[], map[], map[])
    else Record(Collect(body[..|body| - 1]), body[|body| - 1])
  }

  /** `get_available_autocompletes`: the table of the recovered module, or nothing
      when recovery fails or the tree is not a plain module. */
  function AvailableAutocompletes(parse: string -> ParseResult, source: string): Option<AutoCompletes> {
    match StripParse(parse, source)
    case None => None
    case Some(Module(body)) => Some(Collect(body))
    case Some(OtherMod) => None
  }

  /** A class body's method table has exactly the names of its direct `def`
      children, each with the parameters of the last `def` of that name. */
  lemma {:induction false} MethodsOfLaw(body: seq<Stmt>, name: string)
    ensures name in MethodsOf(body) <==> exists i :: 0 <= i < |body| && DefinesFunction(body[i], name)
    ensures forall i :: (0 <= i < |body| && DefinesFunction(body[i], name)
        && (forall j :: i < j < |body| ==> !DefinesFunction(body[j], name))
        ==> MethodsOf(body)[name] == body[i].params)
    decreases |body|
  {
    if body != [] {
      var init := body[..|body| - 1];
      MethodsOfLaw(init, name);
      forall i | 0 <= i < |init| ensures init[i] == body[i] { }
    }
  }

  /** The classes of the table are exactly the top-level class definitions, each
      with the method table of the last definition of that name. */
  lemma {:induction false} CollectClassesLaw(body: seq<Stmt>, name: string)
    ensures name in Collect(body).classes <==> exists i :: 0 <= i < |body| && DefinesClass(body[i], name)
    ensures forall i :: (0 <= i < |body| && DefinesClass(body[i], name)
        && (forall j :: i < j < |body| ==> !DefinesClass(body[j], name))
        ==> Collect(body).classes[name] == MethodsOf(body[i].body))
    decreases |body|
  {
    if body != [] {
      var init := body[..|body| - 1];
      CollectClassesLaw(init, name);
      forall i | 0 <= i < |init| ensures init[i] == body[i] { }
    }
  }

  /** The functions of the table are exactly the top-level function definitions (not
      the methods), each with the parameters of the last definition of that name. */
  lemma {:induction false} CollectFunctionsLaw(body: seq<Stmt>, name: string)
    ensures name in Collect(body).functions <==> exists i :: 0 <= i < |body| && DefinesFunction(body[i], name)
    ensures forall i :: (0 <= i < |body| && DefinesFunction(body[i], name)
        && (forall j :: i < j < |body| ==> !DefinesFunction(body[j], name))
        ==> Collect(body).functions[name] == body[i].params)
    decreases |body|
  {
    if body != [] {
      var init := body[..|body| - 1];
      CollectFunctionsLaw(init, name);
      forall i | 0 <= i < |init| ensures init[i] == body[i] { }
    }
  }

  /** The bindings of the table are exactly the top-level assignment targets, each
      bound to the callee of the last assignment to it (or "" for a non-call). */
  lemma {:induction false} CollectAssignmentsLaw(body: seq<Stmt>, name: string)
    ensures name in Collect(body).assignments <==> exists i :: 0 <= i < |body| && AssignsTo(body[i], name)
    ensures forall i :: (0 <= i < |body| && AssignsTo(body[i], name)
        && (forall j :: i < j < |body| ==> !AssignsTo(body[j], name))
        ==> Collect(body).assignments[name] == Callee(body[i].value))
    decreases |body|
  {
    if body != [] {
      var init := body[..|body| - 1];
      CollectAssignmentsLaw(init, name);
      forall i | 0 <= i < |init| ensures init[i] == body[i] { }
    }
  }

  /** `get_available_autocompletes`: strips the source until it parses, then fills
      the three maps by inserting inside loops over the module body and over each
      class body. */
  method GetAvailableAutocompletes(parse: string -> ParseResult, source: string)
    returns (r: Option<AutoCompletes>)
    ensures r == AvailableAutocompletes(parse, source)
  {
    var classes: map<string, MethodTable> := map[];
    var functions: map<string, seq<string>> := map[];
    var assignments: map<string, string> := map[];
    var program := StripParse(parse, source);
    match program {
      case None =>
        return None;
      case Some(OtherMod) =>
        return None;
      case Some(Module(body)) =>
        var i := 0;
        while i < |body|
          invariant 0 <= i <= |body|
          invariant AutoCompletes(classes, functions, assignments) == Collect(body[..i])
        {
          assert body[..i + 1][..i] == body[..i];
          match body[i] {
            case ClassDef(name, classBody) =>
              var classFunctions: MethodTable := map[];
              var j := 0;
              while j < |classBody|
                invariant 0 <= j <= |classBody|
                invariant classFunctions == MethodsOf(classBody[..j])
              {
                assert classBody[..j + 1][..j] == classBody[..j];
                match classBody[j] {
                  case FunctionDef(functionName, params) =>
                    classFunctions := classFunctions[functionName := params];
                  case _ =>
                }
                j := j + 1;
              }
              assert classBody[..j] == classBody;
              classes := classes[name := classFunctions];
            case FunctionDef(name, params) =>
              functions := functions[name := params];
            case Assign(target, value) =>
              match value {
                case Call(func) =>
                  assignments := assignments[target := func];
                case OtherExpr =>
                  assignments := assignments[target := ""];
              }
            case OtherStmt =>
          }
          i := i + 1;
        }
        assert body[..i] == body;
        return Some(AutoCompletes(classes, functions, assignments));
    }
  }

  // ---------------------------------------------------------------------------
  // Matcher and formatter
  // ---------------------------------------------------------------------------

  predicate Distinct(order: seq<string>) {
    forall i, j :: 0 <= i < j < |order| ==> order[i] != order[j]
  }

  predicate Within(order: seq<string>, keys: set<string>) {
    forall i :: 0 <= i < |order| ==> order[i] in keys
  }

  /** `order` lists every key exactly once: an order in which a HashMap may hand out
      its keys. */
  ghost predicate Enumerates(order: seq<string>, keys: set<string>) {
    Distinct(order) && forall k :: k in order <==> k in keys
  }

  /** `HashMap::keys().collect()`: the keys in an order the model leaves open. */
  method KeysInSomeOrder(keys: set<string>) returns (order: seq<string>)
    ensures Enumerates(order, keys)
  {
    order := [];
    var rest := keys;
    while rest != {}
      invariant rest <= keys && Distinct(order)
      invariant forall k :: k in keys <==> k in rest || k in order
      invariant forall k :: k in order ==> k !in rest
      decreases rest
    {
      var k :| k in rest;
      order := order + [k];
      rest := rest - {k};
    }
  }

  /** The names of `order` that start with `input`, in that order. */
  function Matching(order: seq<string>, input: string): seq<string>
    decreases |order|
  {
    if order == [] then []
    else
      var name := order[|order| - 1];
      Matching(order[..|order| - 1], input) + (if StartsWith(name, input) then [name] else [])
  }

  /** `name(p1, p2)`: a function with all of its parameters, `self` included. */
  function FormatCall(name: string, params: seq<string>): string {
    name + "(" + Join(params, ", ") + ")"
  }

  /** The parameters other than `self`, in their order. */
  function WithoutSelf(params: seq<string>): (r: seq<string>)
    ensures |r| <= |params|
    ensures forall p :: p in r <==> p in params && p != "self"
    decreases |params|
  {
    if params == [] then []
    else
      var rest := WithoutSelf(params[1..]);
      if params[0] == "self" then rest else [params[0]] + rest
  }

  /** Dropping `self` keeps the other parameters in their order, duplicates
      included: it distributes over concatenation. */
  lemma {:induction false} WithoutSelfAppend(a: seq<string>, b: seq<string>)
    ensures WithoutSelf(a + b) == WithoutSelf(a) + WithoutSelf(b)
    decreases |a|
  {
    if a != [] {
      assert (a + b)[0] == a[0] && (a + b)[1..] == a[1..] + b;
      WithoutSelfAppend(a[1..], b);
    } else {
      assert a + b == b;
    }
  }

  /** A single parameter is kept exactly when it is not `self`. */
  lemma WithoutSelfSingle(p: string)
    ensures WithoutSelf([p]) == if p == "self" then [] else [p]
  {
    assert [p][1..] == [];
  }

  /** `.name(p1, p2)`: a member completion, `self` left out of the parameters. */
  function FormatMember(name: string, params: seq<string>): string {
    "." + name + "(" + Join(WithoutSelf(params), ", ") + ")"
  }

  /** The function completions, following `order`. */
  function FunctionGroup(functions: map<string, seq<string>>, input: string, order: seq<string>): seq<string>
    requires Within(order, functions.Keys)
    decreases |order|
  {
    if order == [] then []
    else
      var name := order[|order| - 1];
      FunctionGroup(functions, input, order[..|order| - 1])
        + (if StartsWith(name, input) then [FormatCall(name, functions[name])] else [])
  }

  /** The method names among `names` that start with `prefix`, the constructor
      `__init__` excepted. */
  function MethodNames(names: seq<string>, prefix: string): seq<string>
    decreases |names|
  {
    if names == [] then []
    else
      var name := names[|names| - 1];
      MethodNames(names[..|names| - 1], prefix)
        + (if StartsWith(name, prefix) && name != "__init__" then [name] else [])
  }

  /** The member completions for the methods among `names`. */
  function MembersOver(methods: MethodTable, prefix: string, names: seq<string>): seq<string>
    requires Within(names, methods.Keys)
    decreases |names|
  {
    if names == [] then []
    else
      var name := names[|names| - 1];
      MembersOver(methods, prefix, names[..|names| - 1])
        + (if StartsWith(name, prefix) && name != "__init__" then [FormatMember(name, methods[name])] else [])
  }

  /** The member completions of a class, by ascending method name. */
  function MemberCompletions(methods: MethodTable, prefix: string): seq<string> {
    SortedKeysEnumerates(methods.Keys);
    assert Within(SortedKeys(methods.Keys), methods.Keys) by {
      forall i | 0 <= i < |SortedKeys(methods.Keys)| ensures SortedKeys(methods.Keys)[i] in methods.Keys {
        assert SortedKeys(methods.Keys)[i] in SortedKeys(methods.Keys);
      }
    }
    MembersOver(methods, prefix, SortedKeys(methods.Keys))
  }

  /** The member completions of the class a binding names; none when it names no
      class of the table. */
  function ClassMembers(table: AutoCompletes, className: string, prefix: string): seq<string> {
    if className in table.classes then MemberCompletions(table.classes[className], prefix) else []
  }

  /** What one binding contributes. The query is split at every '.'. With exactly two
      parts only the binding equal to the first part contributes: its class's
      methods that start with the second part. Otherwise the binding equal to the
      first part contributes all its class's methods (prefix "" is no filter), and
      any other binding that starts with the whole query contributes its bare name. */
  function BindingSuggestions(table: AutoCompletes, input: string, name: string): seq<string>
    requires name in table.assignments
  {
    var parts := Split(input, {'.'});
    if |parts| == 2 then
      if name == parts[0] then ClassMembers(table, table.assignments[name], parts[1]) else []
    else if name == parts[0] then ClassMembers(table, table.assignments[name], "")
    else if StartsWith(name, input) then [name]
    else []
  }

  /** The binding-derived completions, following `order`. */
  function BindingGroup(table: AutoCompletes, input: string, order: seq<string>): seq<string>
    decreases |order|
  {
    if order == [] then []
    else
      var name := order[|order| - 1];
      BindingGroup(table, input, order[..|order| - 1])
        + (if name in table.assignments then BindingSuggestions(table, input, name) else [])
  }

  /** The completion list for given key orders of the three maps: the matching
      classes, then the matching functions, then what the bindings contribute. */
  function Suggestions(table: AutoCompletes, input: string,
                       classOrder: seq<string>, functionOrder: seq<string>, bindingOrder: seq<string>): seq<string>
    requires Within(functionOrder, table.functions.Keys)
    requires Within(bindingOrder, table.assignments.Keys)
  {
    Matching(classOrder, input)
      + FunctionGroup(table.functions, input, functionOrder)
      + BindingGroup(table, input, bindingOrder)
  }

  /** `r` is the completion list for some order of the table's keys. */
  ghost predicate IsSuggestionList(table: AutoCompletes, input: string, r: seq<string>) {
    exists classOrder, functionOrder, bindingOrder ::
      && Enumerates(classOrder, table.classes.Keys)
      && Enumerates(functionOrder, table.functions.Keys)
      && Enumerates(bindingOrder, table.assignments.Keys)
      && r == Suggestions(table, input, classOrder, functionOrder, bindingOrder)
  }

  /** `r` is a list `suggest_completions(input, source)` may return: [] when no
      table is recovered from the source, else the completion list of the table for
      some order of its keys. */
  ghost predicate MaySuggest(parse: string -> ParseResult, input: string, source: string, r: seq<string>) {
    match AvailableAutocompletes(parse, source)
    case None => r == []
    case Some(table) => IsSuggestionList(table, input, r)
  }

  lemma DistinctSnoc(s: seq<string>, x: string)
    requires Distinct(s) && x !in s
    ensures Distinct(s + [x])
  {
    var t := s + [x];
    forall i, j | 0 <= i < j < |t| ensures t[i] != t[j] {
      if j == |s| {
        assert t[i] == s[i];
      } else {
        assert t[i] == s[i] && t[j] == s[j];
      }
    }
  }

  lemma DistinctInit(s: seq<string>)
    requires s != [] && Distinct(s)
    ensures Distinct(s[..|s| - 1]) && s[|s| - 1] !in s[..|s| - 1]
  {
    var init := s[..|s| - 1];
    forall i, j | 0 <= i < j < |init| ensures init[i] != init[j] {
      assert init[i] == s[i] && init[j] == s[j];
    }
    forall k | 0 <= k < |init| ensures init[k] != s[|s| - 1] {
      assert init[k] == s[k];
    }
  }

  /** The class group holds exactly the class names that start with the query, and
      each of them once when `order` lists each class once. */
  lemma {:induction false} MatchingLaw(order: seq<string>, input: string)
    ensures forall c :: c in Matching(order, input) <==> c in order && StartsWith(c, input)
    ensures Distinct(order) ==> Distinct(Matching(order, input))
    decreases |order|
  {
    if order != [] {
      var init := order[..|order| - 1];
      var name := order[|order| - 1];
      MatchingLaw(init, input);
      assert order == init + [name];
      if Distinct(order) {
        DistinctInit(order);
        if StartsWith(name, input) {
          DistinctSnoc(Matching(init, input), name);
        }
      }
    }
  }

  /** The function group is the matching function names in order, each followed by
      its whole parameter list in parentheses. */
  lemma {:induction false} FunctionGroupLaw(functions: map<string, seq<string>>, input: string, order: seq<string>)
    requires Within(order, functions.Keys)
    ensures var names := Matching(order, input); var group := FunctionGroup(functions, input, order);
      && |group| == |names|
      && forall i :: 0 <= i < |names| ==>
           names[i] in functions && group[i] == FormatCall(names[i], functions[names[i]])
    decreases |order|
  {
    if order != [] {
      var init := order[..|order| - 1];
      var name := order[|order| - 1];
      assert Within(init, functions.Keys) by {
        forall i | 0 <= i < |init| ensures init[i] in functions.Keys {
          assert init[i] == order[i];
        }
      }
      FunctionGroupLaw(functions, input, init);
      assert name in functions.Keys;
    }
  }

  /** The method names kept are exactly those that start with the prefix and are not
      `__init__`; a strictly ascending list stays strictly ascending. */
  lemma {:induction false} MethodNamesLaw(names: seq<string>, prefix: string)
    ensures forall n :: n in MethodNames(names, prefix) <==> n in names && StartsWith(n, prefix) && n != "__init__"
    ensures StrictlySorted(names) ==> StrictlySorted(MethodNames(names, prefix))
    decreases |names|
  {
    if names != [] {
      var init := names[..|names| - 1];
      var name := names[|names| - 1];
      MethodNamesLaw(init, prefix);
      assert names == init + [name];
      if StrictlySorted(names) {
        assert StrictlySorted(init) by {
          forall i, j | 0 <= i < j < |init| ensures LexLt(init[i], init[j]) {
            assert init[i] == names[i] && init[j] == names[j];
          }
        }
        var kept := MethodNames(init, prefix);
        if StartsWith(name, prefix) && name != "__init__" {
          var r := kept + [name];
          forall i, j | 0 <= i < j < |r| ensures LexLt(r[i], r[j]) {
            if j < |kept| {
              assert r[i] == kept[i] && r[j] == kept[j];
            } else {
              assert r[i] == kept[i] && r[i] in init;
              var k :| 0 <= k < |init| && init[k] == r[i];
              assert names[k] == r[i];
            }
          }
        }
      }
    }
  }

  /** The member completions over `names` are the kept method names in order, each
      formatted as a member call without `self`. */
  lemma {:induction false} MembersOverLaw(methods: MethodTable, prefix: string, names: seq<string>)
    requires Within(names, methods.Keys)
    ensures var kept := MethodNames(names, prefix); var r := MembersOver(methods, prefix, names);
      && |r| == |kept|
      && forall i :: 0 <= i < |kept| ==> kept[i] in methods && r[i] == FormatMember(kept[i], methods[kept[i]])
    decreases |names|
  {
    if names != [] {
      var init := names[..|names| - 1];
      var name := names[|names| - 1];
      assert Within(init, methods.Keys) by {
        forall i | 0 <= i < |init| ensures init[i] in methods.Keys {
          assert init[i] == names[i];
        }
      }
      MembersOverLaw(methods, prefix, init);
      assert name in methods.Keys;
    }
  }

  /** The member completions of a class: one `.name(args)` per method that starts
      with the prefix and is not `__init__`, by strictly ascending name, each with the
      method's parameters minus `self`. */
  lemma MemberCompletionsLaw(methods: MethodTable, prefix: string)
    ensures var names := MethodNames(SortedKeys(methods.Keys), prefix); var r := MemberCompletions(methods, prefix);
      && (forall n :: n in names <==> n in methods && StartsWith(n, prefix) && n != "__init__")
      && StrictlySorted(names)
      && |r| == |names|
      && forall i :: 0 <= i < |names| ==> names[i] in methods && r[i] == FormatMember(names[i], methods[names[i]])
  {
    var sorted := SortedKeys(methods.Keys);
    SortedKeysEnumerates(methods.Keys);
    SortedKeysAscending(methods.Keys);
    assert Within(sorted, methods.Keys) by {
      forall i | 0 <= i < |sorted| ensures sorted[i] in methods.Keys {
        assert sorted[i] in sorted;
      }
    }
    MethodNamesLaw(sorted, prefix);
    MembersOverLaw(methods, prefix, sorted);
  }

  /** A member completion never names `__init__` and never lists a `self` parameter. */
  lemma MemberCompletionShape(methods: MethodTable, prefix: string, c: string)
    requires c in MemberCompletions(methods, prefix)
    ensures exists name :: (name in methods && name != "__init__" && StartsWith(name, prefix)
      && c == FormatMember(name, methods[name]) && "self" !in WithoutSelf(methods[name]))
  {
    MemberCompletionsLaw(methods, prefix);
    var names := MethodNames(SortedKeys(methods.Keys), prefix);
    var r := MemberCompletions(methods, prefix);
    var i :| 0 <= i < |r| && r[i] == c;
    assert names[i] in names;
  }

  /** A query `head.tail` (exactly one '.'): only the binding named `head`
      contributes, with its class's methods that start with `tail`; every other
      binding contributes nothing, not even its bare name. */
  lemma {:induction false} DottedQueryLaw(table: AutoCompletes, input: string, order: seq<string>)
    requires Within(order, table.assignments.Keys) && Distinct(order)
    requires |Split(input, {'.'})| == 2
    ensures var parts := Split(input, {'.'});
      BindingGroup(table, input, order)
        == if parts[0] in order then ClassMembers(table, table.assignments[parts[0]], parts[1]) else []
    decreases |order|
  {
    if order != [] {
      var init := order[..|order| - 1];
      var name := order[|order| - 1];
      var head := Split(input, {'.'})[0];
      assert Within(init, table.assignments.Keys) by {
        forall i | 0 <= i < |init| ensures init[i] in table.assignments.Keys {
          assert init[i] == order[i];
        }
      }
      DistinctInit(order);
      DottedQueryLaw(table, input, init);
      assert order == init + [name];
      assert head in order <==> head in init || head == name;
      var step := BindingSuggestions(table, input, name);
      assert BindingGroup(table, input, order) == BindingGroup(table, input, init) + step;
      if name == head {
        assert step == ClassMembers(table, table.assignments[head], Split(input, {'.'})[1]);
        assert BindingGroup(table, input, init) == [];
      } else {
        assert step == [];
      }
    }
  }

  /** Any other query: the binding equal to its first '.'-segment contributes all the
      methods of its class (nothing when it names no class), and every other binding
      that starts with the whole query contributes its bare name. */
  lemma {:induction false} UndottedQueryLaw(table: AutoCompletes, input: string, order: seq<string>)
    requires Within(order, table.assignments.Keys)
    requires |Split(input, {'.'})| != 2
    ensures var head := Split(input, {'.'})[0];
      forall c :: c in BindingGroup(table, input, order) <==>
        || (head in order && c in ClassMembers(table, table.assignments[head], ""))
        || (c in order && c != head && StartsWith(c, input))
    decreases |order|
  {
    if order != [] {
      var init := order[..|order| - 1];
      var name := order[|order| - 1];
      assert Within(init, table.assignments.Keys) by {
        forall i | 0 <= i < |init| ensures init[i] in table.assignments.Keys {
          assert init[i] == order[i];
        }
      }
      UndottedQueryLaw(table, input, init);
      assert order == init + [name];
    }
  }

  /** The three groups of a completion list: first each class that starts with the
      query, once; then each function that does, once, with all its parameters;
      then what the bindings contribute. */
  lemma SuggestionGroups(table: AutoCompletes, input: string,
                         classOrder: seq<string>, functionOrder: seq<string>, bindingOrder: seq<string>)
    requires Enumerates(classOrder, table.classes.Keys) && Enumerates(functionOrder, table.functions.Keys)
    requires Within(functionOrder, table.functions.Keys) && Within(bindingOrder, table.assignments.Keys)
    ensures var classes := Matching(classOrder, input); var names := Matching(functionOrder, input);
      var r := Suggestions(table, input, classOrder, functionOrder, bindingOrder);
      && Distinct(classes) && (forall c :: c in classes <==> c in table.classes && StartsWith(c, input))
      && Distinct(names) && (forall n :: n in names <==> n in table.functions && StartsWith(n, input))
      && |classes| + |names| <= |r|
      && r[..|classes|] == classes
      && (forall i :: 0 <= i < |names| ==>
            names[i] in table.functions && r[|classes| + i] == FormatCall(names[i], table.functions[names[i]]))
      && r[|classes| + |names|..] == BindingGroup(table, input, bindingOrder)
  {
    var classes := Matching(classOrder, input);
    var names := Matching(functionOrder, input);
    var group := FunctionGroup(table.functions, input, functionOrder);
    MatchingLaw(classOrder, input);
    MatchingLaw(functionOrder, input);
    FunctionGroupLaw(table.functions, input, functionOrder);
    var r := Suggestions(table, input, classOrder, functionOrder, bindingOrder);
    assert r == classes + group + BindingGroup(table, input, bindingOrder);
    forall i | 0 <= i < |names|
      ensures r[|classes| + i] == group[i]
    {
    }
  }

  /** A class with the single method `bar(self, x)`, bound to `f` by `f = Foo()`:
      the query `f.` yields exactly the member completion `.bar(x)`. */
  lemma MemberQueryExample()
    ensures var table := AutoCompletes(map["Foo" := map["bar" := ["self", "x"]]], map[], map["f" := "Foo"]);
      Suggestions(table, "f.", ["Foo"], [], ["f"]) == [".bar(x)"]
  {
    var methods: MethodTable := map["bar" := ["self", "x"]];
    SortedKeysEnumerates(methods.Keys);
    var sorted := SortedKeys(methods.Keys);
    assert sorted == ["bar"] by {
      assert |sorted| == 1 && "bar" in sorted;
    }
    assert Split("f.", {'.'}) == ["f", ""] by {
      assert "f."[1..] == "." && "."[1..] == "";
      assert Split(".", {'.'}) == [[]] + Split("", {'.'}) == ["", ""];
      assert Split("f.", {'.'}) == [['f'] + ""] + [""];
      assert ['f'] + "" == "f";
    }
    assert MembersOver(methods, "", ["bar"]) == [FormatMember("bar", ["self", "x"])] by {
      assert ["bar"][..0] == [];
    }
    assert FormatMember("bar", ["self", "x"]) == ".bar(x)";
    assert WithoutSelf(["self", "x"]) == ["x"] by {
      assert ["self", "x"][1..] == ["x"];
      assert ["x"][1..] == [];
    }
    assert ["f"][..0] == [] && ["Foo"][..0] == [];
  }

  /** `x = 5` gives the binding `x` the text "", which names no class; the query `x`
      equals that binding's name, so the binding branch for an exact match is taken
      and yields nothing: no bare `x` is offered. */
  lemma UnresolvedBindingExample()
    ensures var table := AutoCompletes(map[], map[], map["x" := ""]);
      Suggestions(table, "x", [], [], ["x"]) == []
  {
    assert Split("x", {'.'}) == ["x"] by {
      assert "x"[1..] == "";
      assert Split("", {'.'}) == [[]];
      assert ['x'] + "" == "x";
    }
    assert ["x"][..0] == [];
  }

  /** The empty query matches everything: a class `Foo` and a function
      `move(speed)` are both offered, the class first. */
  lemma EmptyQueryExample()
    ensures var table := AutoCompletes(map["Foo" := map[]], map["move" := ["speed"]], map[]);
      Suggestions(table, "", ["Foo"], ["move"], []) == ["Foo", "move(speed)"]
  {
    var table := AutoCompletes(map["Foo" := map[]], map["move" := ["speed"]], map[]);
    assert ["Foo"][..0] == [] && ["move"][..0] == [];
    assert Matching(["Foo"], "") == ["Foo"];
    assert FormatCall("move", ["speed"]) == "move(speed)";
    assert FunctionGroup(table.functions, "", ["move"]) == ["move(speed)"];
  }

  /** Builds `.name(args)` as `format!` and `push`/`push_str` do, `self` filtered out. */
  method MemberCompletionText(name: string, params: seq<string>) returns (completion: string)
    ensures completion == FormatMember(name, params)
  {
    var args := WithoutSelf(params);
    completion := "." + name;
    completion := completion + "(";
    completion := completion + Join(args, ", ");
    completion := completion + ")";
  }

  /** Appends the member completions of `methods` that start with `prefix`, in
      ascending method name order, to `suggestions`. */
  method PushMemberCompletions(suggestions: seq<string>, methods: MethodTable, prefix: string)
    returns (r: seq<string>)
    ensures r == suggestions + MemberCompletions(methods, prefix)
  {
    var names := SortedKeys(methods.Keys);
    SortedKeysEnumerates(methods.Keys);
    assert Within(names, methods.Keys) by {
      forall i | 0 <= i < |names| ensures names[i] in methods.Keys {
        assert names[i] in names;
      }
    }
    r := PushMembersOver(suggestions, methods, prefix, names);
  }

  /** The loop over the sorted method names. */
  method PushMembersOver(suggestions: seq<string>, methods: MethodTable, prefix: string, names: seq<string>)
    returns (r: seq<string>)
    requires Within(names, methods.Keys)
    ensures r == suggestions + MembersOver(methods, prefix, names)
  {
    r := suggestions;
    var j := 0;
    while j < |names|
      invariant 0 <= j <= |names|
      invariant r == suggestions + MembersOver(methods, prefix, names[..j])
    {
      var name := names[j];
      assert names[..j + 1][..j] == names[..j];
      if StartsWith(name, prefix) && name != "__init__" {
        var completion := MemberCompletionText(name, methods[name]);
        r := r + [completion];
      }
      j := j + 1;
    }
    assert names[..j] == names;
  }

  /** A HashMap enumeration stays within the map's keys. */
  lemma EnumeratesWithin(order: seq<string>, keys: set<string>)
    requires Enumerates(order, keys)
    ensures Within(order, keys)
  {
    forall i | 0 <= i < |order| ensures order[i] in keys {
      assert order[i] in order;
    }
  }

  /** The loop over the class names. */
  method PushMatchingClasses(suggestions: seq<string>, classNames: seq<string>, input: string)
    returns (r: seq<string>)
    ensures r == suggestions + Matching(classNames, input)
  {
    r := suggestions;
    var i := 0;
    while i < |classNames|
      invariant 0 <= i <= |classNames|
      invariant r == suggestions + Matching(classNames[..i], input)
    {
      assert classNames[..i + 1][..i] == classNames[..i];
      if StartsWith(classNames[i], input) {
        r := r + [classNames[i]];
      }
      i := i + 1;
    }
    assert classNames[..i] == classNames;
  }

  /** Builds `name(args)` as the `push`/`push_str` calls do. */
  method CallText(name: string, params: seq<string>) returns (completion: string)
    ensures completion == FormatCall(name, params)
  {
    completion := name;
    completion := completion + "(";
    completion := completion + Join(params, ", ");
    completion := completion + ")";
  }

  /** The loop over the function names. */
  method PushFunctionCompletions(suggestions: seq<string>, functions: map<string, seq<string>>,
                                 input: string, functionNames: seq<string>)
    returns (r: seq<string>)
    requires Within(functionNames, functions.Keys)
    ensures r == suggestions + FunctionGroup(functions, input, functionNames)
  {
    r := suggestions;
    var i := 0;
    while i < |functionNames|
      invariant 0 <= i <= |functionNames|
      invariant r == suggestions + FunctionGroup(functions, input, functionNames[..i])
    {
      assert functionNames[..i + 1][..i] == functionNames[..i];
      var functionName := functionNames[i];
      if StartsWith(functionName, input) {
        var functionWithArgs := CallText(functionName, functions[functionName]);
        r := r + [functionWithArgs];
      }
      i := i + 1;
    }
    assert functionNames[..i] == functionNames;
  }

  /** The body of the loop over the bindings: what one binding contributes. */
  method PushBindingSuggestions(suggestions: seq<string>, table: AutoCompletes, input: string,
                                assignmentName: string)
    returns (r: seq<string>)
    requires assignmentName in table.assignments
    ensures r == suggestions + BindingSuggestions(table, input, assignmentName)
  {
    r := suggestions;
    var splitInput := Split(input, {'.'});
    var inputStart := splitInput[0];
    if |splitInput| == 2 {
      var inputEnd := splitInput[1];
      if assignmentName == inputStart {
        var assignmentValue := table.assignments[assignmentName];
        if assignmentValue in table.classes {
          r := PushMemberCompletions(r, table.classes[assignmentValue], inputEnd);
        }
      }
    } else if assignmentName == inputStart {
      var assignmentValue := table.assignments[assignmentName];
      if assignmentValue in table.classes {
        r := PushMemberCompletions(r, table.classes[assignmentValue], "");
      }
    } else if StartsWith(assignmentName, input) {
      r := r + [assignmentName];
    }
  }

  /** The loop over the bindings. */
  method PushBindingGroup(suggestions: seq<string>, table: AutoCompletes, input: string,
                          assignmentNames: seq<string>)
    returns (r: seq<string>)
    requires Within(assignmentNames, table.assignments.Keys)
    ensures r == suggestions + BindingGroup(table, input, assignmentNames)
  {
    r := suggestions;
    var i := 0;
    while i < |assignmentNames|
      invariant 0 <= i <= |assignmentNames|
      invariant r == suggestions + BindingGroup(table, input, assignmentNames[..i])
    {
      assert assignmentNames[..i + 1][..i] == assignmentNames[..i];
      r := PushBindingSuggestions(r, table, input, assignmentNames[i]);
      i := i + 1;
    }
    assert assignmentNames[..i] == assignmentNames;
  }

  /** Three appended groups, for enumerations of the table's keys, make a completion list. */
  lemma SuggestionListOf(table: AutoCompletes, input: string,
                         classOrder: seq<string>, functionOrder: seq<string>, bindingOrder: seq<string>,
                         classPart: seq<string>, namedPart: seq<string>, r: seq<string>)
    requires Enumerates(classOrder, table.classes.Keys)
    requires Enumerates(functionOrder, table.functions.Keys)
    requires Enumerates(bindingOrder, table.assignments.Keys)
    requires Within(functionOrder, table.functions.Keys) && Within(bindingOrder, table.assignments.Keys)
    requires classPart == [] + Matching(classOrder, input)
    requires namedPart == classPart + FunctionGroup(table.functions, input, functionOrder)
    requires r == namedPart + BindingGroup(table, input, bindingOrder)
    ensures IsSuggestionList(table, input, r)
  {
    assert [] + Matching(classOrder, input) == Matching(classOrder, input);
    assert r == Suggestions(table, input, classOrder, functionOrder, bindingOrder);
  }

  /** `suggest_completions`: the completion list of the recovered program's table for
      some order of its keys, or [] when there is no table. */
  method SuggestCompletions(parse: string -> ParseResult, input: string, source: string)
    returns (suggestions: seq<string>)
    ensures AvailableAutocompletes(parse, source).None? ==> suggestions == []
    ensures AvailableAutocompletes(parse, source).Some? ==>
      IsSuggestionList(AvailableAutocompletes(parse, source).value, input, suggestions)
  {
    var available := GetAvailableAutocompletes(parse, source);
    suggestions := [];
    match available {
      case None =>
      case Some(table) =>
        var classNames := KeysInSomeOrder(table.classes.Keys);
        suggestions := PushMatchingClasses(suggestions, classNames, input);
        ghost var classPart := suggestions;
        var functionNames := KeysInSomeOrder(table.functions.Keys);
        EnumeratesWithin(functionNames, table.functions.Keys);
        suggestions := PushFunctionCompletions(suggestions, table.functions, input, functionNames);
        ghost var namedPart := suggestions;
        var assignmentNames := KeysInSomeOrder(table.assignments.Keys);
        EnumeratesWithin(assignmentNames, table.assignments.Keys);
        suggestions := PushBindingGroup(suggestions, table, input, assignmentNames);
        SuggestionListOf(table, input, classNames, functionNames, assignmentNames, classPart, namedPart, suggestions);
    }
  }
}
