/** String helpers with the meaning the Rust standard library gives them, restricted
    to ASCII text (one character per byte, so byte and character indices agree). */
module Text {

  /** `str::starts_with`: a byte-wise, case-sensitive prefix test. */
  predicate StartsWith(s: string, prefix: string) {
    prefix <= s
  }

  /** `str::ends_with`. */
  predicate EndsWith(s: string, suffix: string) {
    |suffix| <= |s| && s[|s| - |suffix|..] == suffix
  }

  /** No character of `s` is one of `seps`. */
  predicate Free(s: string, seps: set<char>) {
    forall i :: 0 <= i < |s| ==> s[i] !in seps
  }

  /** `str::split` on every character in `seps`: the pieces between separators, in
      order, with an empty piece before a leading, after a trailing and between two
      adjacent separators; the empty string splits into one empty piece. */
  function Split(s: string, seps: set<char>): (pieces: seq<string>)
    ensures |pieces| >= 1
    decreases |s|
  {
    if s == [] then [[]]
    else
      var rest := Split(s[1..], seps);
      if s[0] in seps then [[]] + rest
      else [[s[0]] + rest[0]] + rest[1..]
  }

  /** `slice::join`: the pieces with `sep` between each two neighbours. */
  function Join(pieces: seq<string>, sep: string): string
    decreases |pieces|
  {
    if |pieces| == 0 then ""
    else if |pieces| == 1 then pieces[0]
    else pieces[0] + sep + Join(pieces[1..], sep)
  }

  /** No piece of a split holds a separator. */
  lemma {:induction false} SplitPiecesFree(s: string, seps: set<char>)
    ensures forall i :: 0 <= i < |Split(s, seps)| ==> Free(Split(s, seps)[i], seps)
    decreases |s|
  {
    if s != [] {
      SplitPiecesFree(s[1..], seps);
      var rest := Split(s[1..], seps);
      var pieces := Split(s, seps);
      if s[0] in seps {
        assert pieces == [[]] + rest;
        forall i | 1 <= i < |pieces| ensures Free(pieces[i], seps) {
          assert pieces[i] == rest[i - 1];
        }
      } else {
        assert pieces == [[s[0]] + rest[0]] + rest[1..];
        forall i | 1 <= i < |pieces| ensures Free(pieces[i], seps) {
          assert pieces[i] == rest[i];
        }
        assert Free(rest[0], seps);
      }
    }
  }

  /** Joining the pieces of a split with the separator gives the text back. */
  lemma {:induction false} JoinSplit(s: string, c: char)
    ensures Join(Split(s, {c}), [c]) == s
    decreases |s|
  {
    if s != [] {
      JoinSplit(s[1..], c);
      var rest := Split(s[1..], {c});
      if s[0] != c && |rest| > 1 {
        assert Join(rest, [c]) == rest[0] + [c] + Join(rest[1..], [c]);
        assert Split(s, {c})[1..] == rest[1..];
        assert s == [s[0]] + s[1..];
      }
    }
  }

  /** A prefix free of separators extends the first piece of a split. */
  lemma {:induction false} SplitFreePrefix(p: string, t: string, seps: set<char>)
    requires Free(p, seps)
    ensures Split(p + t, seps) == [p + Split(t, seps)[0]] + Split(t, seps)[1..]
    decreases |p|
  {
    if p != [] {
      assert (p + t)[0] == p[0] && (p + t)[1..] == p[1..] + t;
      SplitFreePrefix(p[1..], t, seps);
      var rest := Split(p[1..] + t, seps);
      assert Split(p + t, seps) == [[p[0]] + rest[0]] + rest[1..];
      assert rest[0] == p[1..] + Split(t, seps)[0];
      assert rest[1..] == Split(t, seps)[1..];
      assert [p[0]] + (p[1..] + Split(t, seps)[0]) == p + Split(t, seps)[0];
    } else {
      assert p + t == t && p + Split(t, seps)[0] == Split(t, seps)[0];
    }
  }

  /** Splitting a join recovers the pieces, when none holds the separator. */
  lemma {:induction false} SplitJoin(pieces: seq<string>, c: char)
    requires |pieces| >= 1
    requires forall i :: 0 <= i < |pieces| ==> Free(pieces[i], {c})
    ensures Split(Join(pieces, [c]), {c}) == pieces
    decreases |pieces|
  {
    if |pieces| == 1 {
      SplitFreePrefix(pieces[0], [], {c});
      assert pieces[0] + [] == pieces[0];
    } else {
      var rest := Join(pieces[1..], [c]);
      SplitJoin(pieces[1..], c);
      assert Split([c] + rest, {c}) == [[]] + Split(rest, {c});
      SplitFreePrefix(pieces[0], [c] + rest, {c});
      assert pieces[0] + [c] + rest == pieces[0] + ([c] + rest);
      assert pieces[0] + [] == pieces[0];
      assert pieces == [pieces[0]] + pieces[1..];
    }
  }

  /** The law of `SplitLast` for the text `s`. */
  predicate LastPieceLaw(s: string, seps: set<char>) {
    var pieces := Split(s, seps); var w := pieces[|pieces| - 1];
    && EndsWith(s, w) && Free(w, seps) && (|w| == |s| || s[|s| - |w| - 1] in seps)
    && (|pieces| == 1 ==> w == s) && (|pieces| > 1 ==> |w| < |s|)
  }

  /** The last piece of a split is the suffix after the last separator: it holds no
      separator, and it is either the whole text or preceded by a separator. */
  lemma {:induction false} SplitLast(s: string, seps: set<char>)
    ensures LastPieceLaw(s, seps)
    decreases |s|
  {
    if s == [] {
      assert Split(s, seps) == [[]];
    } else {
      SplitLast(s[1..], seps);
      SplitLastStep(s, seps);
    }
  }

  /** The step of `SplitLast`: from the law for `s[1..]` to the law for `s`. */
  lemma SplitLastStep(s: string, seps: set<char>)
    requires s != [] && LastPieceLaw(s[1..], seps)
    ensures LastPieceLaw(s, seps)
  {
    var t := s[1..];
    var rest := Split(t, seps);
    var v := rest[|rest| - 1];
    var pieces := Split(s, seps);
    assert t[|t| - |v|..] == v;
    if s[0] in seps {
      assert pieces == [[]] + rest;
      assert pieces[|pieces| - 1] == v;
      assert s[|s| - |v|..] == v;
      if |v| < |t| {
        assert s[|s| - |v| - 1] == t[|t| - |v| - 1];
      }
    } else if |rest| == 1 {
      assert pieces == [[s[0]] + rest[0]];
      assert [s[0]] + t == s;
      PrependFree(s[0], t, seps);
    } else {
      assert pieces == [[s[0]] + rest[0]] + rest[1..];
      assert pieces[|pieces| - 1] == v;
      assert s[|s| - |v|..] == v;
      assert s[|s| - |v| - 1] == t[|t| - |v| - 1];
    }
  }

  lemma PrependFree(c: char, t: string, seps: set<char>)
    requires c !in seps && Free(t, seps)
    ensures Free([c] + t, seps)
  {
    forall i | 0 <= i < |[c] + t|
      ensures ([c] + t)[i] !in seps
    {
      if i > 0 {
        assert ([c] + t)[i] == t[i - 1];
      }
    }
  }

  /** Every '\n' adds one piece to a split at '\n'. */
  lemma {:induction false} SplitCount(s: string, c: char)
    ensures |Split(s, {c})| == multiset(s)[c] + 1
    decreases |s|
  {
    if s != [] {
      SplitCount(s[1..], c);
      assert s == [s[0]] + s[1..];
      assert multiset(s) == multiset([s[0]]) + multiset(s[1..]);
    }
  }

  /** The law of `SplitAppend` for the text `a` and the tail `b`. */
  predicate SplitsAppended(a: string, b: string, seps: set<char>) {
    var pa := Split(a, seps); var pb := Split(b, seps);
    Split(a + b, seps) == pa[..|pa| - 1] + [pa[|pa| - 1] + pb[0]] + pb[1..]
  }

  /** Splitting a concatenation: the last piece of the first part runs on into the
      first piece of the second. */
  lemma {:induction false} SplitAppend(a: string, b: string, seps: set<char>)
    ensures SplitsAppended(a, b, seps)
    decreases |a|
  {
    if a == [] {
      SplitAppendEmpty(b, seps);
    } else {
      SplitAppend(a[1..], b, seps);
      SplitAppendStep(a, b, seps);
    }
  }

  lemma SplitAppendEmpty(b: string, seps: set<char>)
    ensures SplitsAppended([], b, seps)
  {
    var pb := Split(b, seps);
    var pa: seq<string> := Split([], seps);
    assert [] + b == b;
    assert pa == [[]] && pa[..0] == [];
    assert pa[0] + pb[0] == pb[0];
    assert [pb[0]] + pb[1..] == pb;
  }

  /** The step of `SplitAppend`: from the law for `a[1..]` to the law for `a`. */
  lemma SplitAppendStep(a: string, b: string, seps: set<char>)
    requires a != [] && SplitsAppended(a[1..], b, seps)
    ensures SplitsAppended(a, b, seps)
  {
    var t := a[1..];
    var pt, pb, rt := Split(t, seps), Split(b, seps), Split(t + b, seps);
    assert (a + b)[0] == a[0] && (a + b)[1..] == t + b;
    if a[0] in seps {
      assert Split(a, seps) == [[]] + pt;
      assert Split(a + b, seps) == [[]] + rt;
      SeparatorAlgebra(pt, pb, rt);
    } else {
      assert Split(a, seps) == [[a[0]] + pt[0]] + pt[1..];
      assert Split(a + b, seps) == [[a[0]] + rt[0]] + rt[1..];
      if |pt| == 1 {
        OnePieceAlgebra(a[0], pt, pb, rt);
      } else {
        PiecesAlgebra(a[0], pt, pb, rt);
      }
    }
  }

  /** The sequence algebra of `SplitAppendStep` after a separator. */
  lemma SeparatorAlgebra(pa: seq<string>, pb: seq<string>, r: seq<string>)
    requires |pa| >= 1 && |pb| >= 1
    requires r == pa[..|pa| - 1] + [pa[|pa| - 1] + pb[0]] + pb[1..]
    ensures var whole := [[]] + pa;
      [[]] + r == whole[..|whole| - 1] + [whole[|whole| - 1] + pb[0]] + pb[1..]
  {
    var whole := [[]] + pa;
    assert whole[..|whole| - 1] == [[]] + pa[..|pa| - 1];
  }

  /** The sequence algebra of `SplitAppendStep` when the rest has one piece. */
  lemma OnePieceAlgebra(x: char, pa: seq<string>, pb: seq<string>, r: seq<string>)
    requires |pa| == 1 && |pb| >= 1
    requires r == pa[..|pa| - 1] + [pa[|pa| - 1] + pb[0]] + pb[1..]
    ensures var whole := [[x] + pa[0]] + pa[1..];
      [[x] + r[0]] + r[1..] == whole[..|whole| - 1] + [whole[|whole| - 1] + pb[0]] + pb[1..]
  {
    assert r == [pa[0] + pb[0]] + pb[1..];
    assert [x] + (pa[0] + pb[0]) == [x] + pa[0] + pb[0];
  }

  /** The sequence algebra of `SplitAppendStep` when the rest has several pieces. */
  lemma PiecesAlgebra(x: char, pa: seq<string>, pb: seq<string>, r: seq<string>)
    requires |pa| > 1 && |pb| >= 1
    requires r == pa[..|pa| - 1] + [pa[|pa| - 1] + pb[0]] + pb[1..]
    ensures var whole := [[x] + pa[0]] + pa[1..];
      [[x] + r[0]] + r[1..] == whole[..|whole| - 1] + [whole[|whole| - 1] + pb[0]] + pb[1..]
  {
    var n := |pa|;
    var first := [[x] + pa[0]];
    var middle := pa[1..n - 1];
    var joint := [pa[n - 1] + pb[0]];
    var tail := pb[1..];
    var whole := first + pa[1..];
    assert pa[..n - 1] == [pa[0]] + middle;
    assert r == [pa[0]] + middle + joint + tail;
    assert r[0] == pa[0] && r[1..] == middle + joint + tail;
    assert whole[..|whole| - 1] == first + middle;
    assert whole[|whole| - 1] == pa[n - 1];
  }

  /** Removes one trailing carriage return. */
  function StripCR(line: string): string {
    if |line| > 0 && line[|line| - 1] == '\r' then line[..|line| - 1] else line
  }

  /** `str::lines`: the text split at each '\n', a '\r' directly before a '\n'
      removed, and no final empty line after a terminating '\n' (so "" has no lines). */
  function Lines(s: string): (lines: seq<string>)
    ensures forall i :: 0 <= i < |lines| ==> Free(lines[i], {'\n'})
    ensures |lines| <= |Split(s, {'\n'})|
    ensures s != [] ==> |lines| >= 1
  {
    var pieces := Split(s, {'\n'});
    SplitPiecesFree(s, {'\n'});
    var n := |pieces| - 1;
    var init := seq(n, i requires 0 <= i < n => StripCR(pieces[i]));
    assert s != [] && n == 0 ==> pieces[0] != [] by {
      if s != [] && n == 0 {
        JoinSplit(s, '\n');
      }
    }
    init + (if pieces[n] == [] then [] else [pieces[n]])
  }

  /** The lines of a text, piece by piece: every '\n'-piece but the last without a
      final '\r', then the last piece unless it is empty. */
  lemma LinesOfPieces(s: string)
    ensures var pieces := Split(s, {'\n'}); var n := |pieces| - 1; var lines := Lines(s);
      && |lines| == (if pieces[n] == [] then n else n + 1)
      && (forall i :: 0 <= i < n ==> lines[i] == StripCR(pieces[i]))
      && (pieces[n] != [] ==> lines[n] == pieces[n])
  {
  }

  /** A split keeps every character the text does not hold out of its pieces. */
  lemma {:induction false} SplitKeepsFree(s: string, seps: set<char>, others: set<char>)
    requires Free(s, others)
    ensures forall i :: 0 <= i < |Split(s, seps)| ==> Free(Split(s, seps)[i], others)
    decreases |s|
  {
    if s != [] {
      assert Free(s[1..], others) by {
        forall i | 0 <= i < |s[1..]| ensures s[1..][i] !in others {
          assert s[1..][i] == s[i + 1];
        }
      }
      SplitKeepsFree(s[1..], seps, others);
      var rest := Split(s[1..], seps);
      var pieces := Split(s, seps);
      if s[0] in seps {
        assert pieces == [[]] + rest;
        forall i | 1 <= i < |pieces| ensures Free(pieces[i], others) {
          assert pieces[i] == rest[i - 1];
        }
      } else {
        assert pieces == [[s[0]] + rest[0]] + rest[1..];
        forall i | 1 <= i < |pieces| ensures Free(pieces[i], others) {
          assert pieces[i] == rest[i];
        }
        PrependFree(s[0], rest[0], others);
      }
    }
  }

  lemma StripCRFree(p: string)
    requires Free(p, {'\r'})
    ensures StripCR(p) == p
  {
    if |p| > 0 {
      assert p[|p| - 1] != '\r';
    }
  }

  /** Without '\r', the lines are the '\n'-pieces, less a final empty one. */
  lemma LinesWithoutCR(s: string)
    requires Free(s, {'\r'})
    ensures var pieces := Split(s, {'\n'}); var n := |pieces| - 1;
      Lines(s) == if pieces[n] == [] then pieces[..n] else pieces
  {
    var pieces := Split(s, {'\n'});
    var n := |pieces| - 1;
    var lines := Lines(s);
    var expected := if pieces[n] == [] then pieces[..n] else pieces;
    LinesOfPieces(s);
    SplitKeepsFree(s, {'\n'}, {'\r'});
    assert |lines| == |expected|;
    forall i | 0 <= i < |lines| ensures lines[i] == expected[i] {
      if i < n {
        assert Free(pieces[i], {'\r'});
        StripCRFree(pieces[i]);
      }
    }
  }

  /** The last '\n'-piece is empty exactly when the text is empty or ends with '\n'. */
  lemma LastPieceEmpty(s: string)
    ensures var pieces := Split(s, {'\n'});
      pieces[|pieces| - 1] == [] <==> s == [] || EndsWith(s, "\n")
  {
    SplitLast(s, {'\n'});
    var pieces := Split(s, {'\n'});
    var w := pieces[|pieces| - 1];
    if w == [] && s != [] {
      assert |pieces| > 1;
      assert s[|s| - 1] == '\n';
      assert s[|s| - 1..] == "\n";
    }
  }

  /** Joining with one more piece adds the separator and that piece. */
  lemma {:induction false} JoinSnoc(p: seq<string>, x: string, sep: string)
    requires |p| >= 1
    ensures Join(p + [x], sep) == Join(p, sep) + sep + x
    decreases |p|
  {
    if |p| == 1 {
      assert (p + [x])[1..] == [x];
    } else {
      assert (p + [x])[1..] == p[1..] + [x];
      JoinSnoc(p[1..], x, sep);
    }
  }

  /** A final empty piece contributes only its separator to the join. */
  lemma JoinDropEmpty(pieces: seq<string>, sep: string)
    requires |pieces| >= 2 && pieces[|pieces| - 1] == []
    ensures Join(pieces, sep) == Join(pieces[..|pieces| - 1], sep) + sep
  {
    var n := |pieces| - 1;
    assert pieces == pieces[..n] + [[]];
    JoinSnoc(pieces[..n], [], sep);
  }

  /** Dropping a final empty piece from pieces that join to `s` joins to `s` less its
      final '\n'. */
  lemma JoinTrimmed(pieces: seq<string>, s: string)
    requires |pieces| >= 1 && Join(pieces, "\n") == s
    requires pieces[|pieces| - 1] == [] <==> s == [] || EndsWith(s, "\n")
    ensures var n := |pieces| - 1;
      Join(if pieces[n] == [] then pieces[..n] else pieces, "\n")
        == if EndsWith(s, "\n") then s[..|s| - 1] else s
  {
    var n := |pieces| - 1;
    if pieces[n] == [] && n >= 1 {
      JoinDropEmpty(pieces, "\n");
      assert s[..|s| - 1] == Join(pieces[..n], "\n");
    }
  }

  /** `str::lines` and `join("\n")` are inverse on text without '\r': the lines are
      the '\n'-pieces when the text does not end in '\n', and joining them gives the
      text back, less a final '\n'. */
  lemma LinesJoin(s: string)
    requires Free(s, {'\r'})
    ensures s != [] && !EndsWith(s, "\n") ==> Lines(s) == Split(s, {'\n'})
    ensures Join(Lines(s), "\n") == if EndsWith(s, "\n") then s[..|s| - 1] else s
  {
    var pieces := Split(s, {'\n'});
    var n := |pieces| - 1;
    var kept := if pieces[n] == [] then pieces[..n] else pieces;
    LinesWithoutCR(s);
    assert Lines(s) == kept;
    LastPieceEmpty(s);
    JoinSplit(s, '\n');
    JoinTrimmed(pieces, s);
    assert Join(kept, "\n") == if EndsWith(s, "\n") then s[..|s| - 1] else s;
  }

  /** Removing one of the lines of a text and joining the rest again gives a text
      with strictly fewer lines, or the empty text. */
  lemma FewerLines(lines: seq<string>, k: nat)
    requires k < |lines|
    requires forall i :: 0 <= i < |lines| ==> Free(lines[i], {'\n'})
    ensures var t := Join(lines[..k] + lines[k + 1..], "\n");
      t == [] || |Lines(t)| < |lines|
  {
    var kept := lines[..k] + lines[k + 1..];
    if |kept| >= 1 {
      forall i | 0 <= i < |kept| ensures Free(kept[i], {'\n'}) {
        if i < k { assert kept[i] == lines[i]; } else { assert kept[i] == lines[i + 1]; }
      }
      SplitJoin(kept, '\n');
    }
  }

  /** Rust's `Ord` on `String` (byte-wise lexicographic order), for ASCII text. */
  predicate LexLe(a: string, b: string)
    decreases |a|
  {
    a == [] || (b != [] && (a[0] < b[0] || (a[0] == b[0] && LexLe(a[1..], b[1..]))))
  }

  predicate LexLt(a: string, b: string) {
    LexLe(a, b) && a != b
  }

  lemma {:induction false} LexLeReflexive(a: string)
    ensures LexLe(a, a)
    decreases |a|
  {
    if a != [] {
      LexLeReflexive(a[1..]);
    }
  }

  lemma {:induction false} LexLeTotal(a: string, b: string)
    ensures LexLe(a, b) || LexLe(b, a)
    decreases |a|
  {
    if a != [] && b != [] && a[0] == b[0] {
      LexLeTotal(a[1..], b[1..]);
    }
  }

  lemma {:induction false} LexLeAntisymmetric(a: string, b: string)
    requires LexLe(a, b) && LexLe(b, a)
    ensures a == b
    decreases |a|
  {
    if a != [] {
      LexLeAntisymmetric(a[1..], b[1..]);
      assert a == [a[0]] + a[1..] && b == [b[0]] + b[1..];
    }
  }

  lemma {:induction false} LexLeTransitive(a: string, b: string, c: string)
    requires LexLe(a, b) && LexLe(b, c)
    ensures LexLe(a, c)
    decreases |a|
  {
    if a != [] && a[0] == b[0] && b[0] == c[0] {
      LexLeTransitive(a[1..], b[1..], c[1..]);
    }
  }

  predicate IsLeast(m: string, keys: set<string>) {
    m in keys && forall x :: x in keys ==> LexLe(m, x)
  }

  lemma {:induction false} LeastExists(keys: set<string>)
    requires keys != {}
    ensures exists m :: IsLeast(m, keys)
    decreases keys
  {
    var y :| y in keys;
    if keys != {y} {
      LeastExists(keys - {y});
      var m :| IsLeast(m, keys - {y});
      LexLeTotal(m, y);
      if LexLe(m, y) {
        assert IsLeast(m, keys);
      } else {
        forall x | x in keys ensures LexLe(y, x) {
          if x != y {
            assert x in keys - {y};
            LexLeTransitive(y, m, x);
          } else {
            LexLeReflexive(y);
          }
        }
        assert IsLeast(y, keys);
      }
    } else {
      LexLeReflexive(y);
      assert IsLeast(y, keys);
    }
  }

  lemma LeastUnique(keys: set<string>)
    ensures forall a, b :: IsLeast(a, keys) && IsLeast(b, keys) ==> a == b
  {
    forall a, b | IsLeast(a, keys) && IsLeast(b, keys) ensures a == b {
      LexLeAntisymmetric(a, b);
    }
  }

  /** Every earlier element is strictly smaller than every later one. */
  predicate StrictlySorted(r: seq<string>) {
    forall i, j :: 0 <= i < j < |r| ==> LexLt(r[i], r[j])
  }

  /** The keys of a map collected into a vector and sorted (`Vec::sort`): the unique
      strictly ascending enumeration of the key set. */
  function SortedKeys(keys: set<string>): seq<string>
    decreases keys
  {
    if keys == {} then []
    else
      LeastExists(keys);
      LeastUnique(keys);
      var m :| IsLeast(m, keys);
      [m] + SortedKeys(keys - {m})
  }

  /** `SortedKeys` lists exactly the keys, each once. */
  lemma {:induction false} SortedKeysEnumerates(keys: set<string>)
    ensures |SortedKeys(keys)| == |keys|
    ensures forall x :: x in SortedKeys(keys) <==> x in keys
    decreases keys
  {
    if keys != {} {
      LeastExists(keys);
      LeastUnique(keys);
      var m :| IsLeast(m, keys);
      assert SortedKeys(keys) == [m] + SortedKeys(keys - {m});
      SortedKeysEnumerates(keys - {m});
    }
  }

  /** The enumeration `SortedKeys` gives is strictly ascending. */
  lemma {:induction false} SortedKeysAscending(keys: set<string>)
    ensures StrictlySorted(SortedKeys(keys))
    decreases keys
  {
    if keys != {} {
      var r := SortedKeys(keys);
      var m := r[0];
      assert r == [m] + SortedKeys(keys - {m});
      assert IsLeast(m, keys) by {
        LeastExists(keys);
        LeastUnique(keys);
      }
      SortedKeysAscending(keys - {m});
      SortedKeysEnumerates(keys - {m});
      forall i, j | 0 <= i < j < |r| ensures LexLt(r[i], r[j]) {
        if i > 0 {
          assert r[i] == SortedKeys(keys - {m})[i - 1] && r[j] == SortedKeys(keys - {m})[j - 1];
        } else {
          assert r[j] in SortedKeys(keys - {m});
        }
      }
    }
  }
}
