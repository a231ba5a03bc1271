/**
 * The selector grammar of HyperFlex, `tag#id.class1.class2…`, and its parser
 * `_parseQuerySelector`.
 *
 * The source matches the whole string against the pattern
 *   ^([\w-]*)([#\w\d-_]*)?([.\w\d-_]*)?$
 * Outside unicode mode `\d-_` inside a bracket is three literal items, so the
 * three groups read the character classes [A-Za-z0-9_-], [#A-Za-z0-9_-] and
 * [.A-Za-z0-9_-]. The model replaces the regular-expression engine by a
 * scanner that takes each group greedily (`Run`) and proves that this finds a
 * match exactly when the pattern's language holds the string (`MatchIsRegexMatch`).
 */
module QuerySelector {
  import opened Wrappers

  /** The three bracket expressions of the pattern. */
  datatype CharClass = TagChars | IdChars | ClassChars

  /** `\w`: ASCII letters, digits and the underscore. */
  predicate IsWordChar(c: char) {
    'a' <= c <= 'z' || 'A' <= c <= 'Z' || '0' <= c <= '9' || c == '_'
  }

  predicate InClass(c: char, cls: CharClass) {
    match cls
    case TagChars => IsWordChar(c) || c == '-'
    case IdChars => IsWordChar(c) || c == '-' || c == '#'
    case ClassChars => IsWordChar(c) || c == '-' || c == '.'
  }

  predicate AllIn(s: string, cls: CharClass) {
    forall i :: 0 <= i < |s| ==> InClass(s[i], cls)
  }

  /** Length of the longest prefix of `s` drawn from `cls`: a greedy `[…]*`. */
  function Run(s: string, cls: CharClass): (n: nat)
    ensures n <= |s|
    ensures AllIn(s[..n], cls)
    ensures n < |s| ==> !InClass(s[n], cls)
  {
    if s == [] || !InClass(s[0], cls) then 0
    else
      var m := Run(s[1..], cls);
      assert s[..1 + m] == [s[0]] + s[1..][..m];
      1 + m
  }

  lemma RunCoversPrefix(s: string, cls: CharClass, k: nat)
    requires k <= |s| && AllIn(s[..k], cls)
    ensures Run(s, cls) >= k
  {
  }

  /** The language of the pattern: the string splits into the three groups. */
  ghost predicate InLanguage(s: string) {
    exists i, j :: 0 <= i <= j <= |s| && AllIn(s[..i], TagChars) && AllIn(s[i..j], IdChars) && AllIn(s[j..], ClassChars)
  }

  /** The capture groups 1, 2 and 3. A group that did not take part in the
      match reads as "" here: the source only tests the groups for truthiness. */
  datatype Groups = Groups(tag: string, hash: string, dots: string)

  /** `exec` on the pattern: `None` stands for the `null` it returns on no match.
      Each group is taken greedily, as the backtracking engine's first try does. */
  function Match(s: string): (m: Option<Groups>)
    ensures m.Some? ==> s == m.value.tag + m.value.hash + m.value.dots
    ensures m.Some? ==> AllIn(m.value.tag, TagChars) && AllIn(m.value.hash, IdChars) && AllIn(m.value.dots, ClassChars)
    ensures m.Some? && m.value.hash != "" ==> m.value.hash[0] == '#'
    ensures m.Some? && m.value.dots != "" ==> m.value.dots[0] == '.'
  {
    var n1 := Run(s, TagChars);
    var rest := s[n1..];
    var n2 := Run(rest, IdChars);
    var tail := rest[n2..];
    if Run(tail, ClassChars) == |tail| then
      assert s == s[..n1] + rest[..n2] + tail;
      assert tail[..|tail|] == tail;
      Some(Groups(s[..n1], rest[..n2], tail))
    else None
  }

  /** Greedy scanning is complete for this pattern: `exec` finds a match exactly
      when the string is in the pattern's language. */
  lemma MatchIsRegexMatch(s: string)
    ensures Match(s).Some? <==> InLanguage(s)
  {
    if Match(s).Some? {
      MatchSound(s);
    }
    if InLanguage(s) {
      var i, j :| 0 <= i <= j <= |s| && AllIn(s[..i], TagChars) && AllIn(s[i..j], IdChars) && AllIn(s[j..], ClassChars);
      MatchComplete(s, i, j);
    }
  }

  lemma MatchSound(s: string)
    requires Match(s).Some?
    ensures InLanguage(s)
  {
    var g := Match(s).value;
    var i, j := |g.tag|, |g.tag| + |g.hash|;
    assert s[..i] == g.tag;
    assert s[i..j] == g.hash;
    assert s[j..] == g.dots;
  }

  lemma MatchComplete(s: string, i: nat, j: nat)
    requires i <= j <= |s|
    requires AllIn(s[..i], TagChars) && AllIn(s[i..j], IdChars) && AllIn(s[j..], ClassChars)
    ensures Match(s).Some?
  {
    var n1 := Run(s, TagChars);
    RunCoversPrefix(s, TagChars, i);
    var rest := s[n1..];
    if n1 < j {
      var m := j - n1;
      var pre := rest[..m];
      forall k | 0 <= k < m ensures InClass(pre[k], IdChars) {
        assert pre[k] == s[n1 + k] == s[i..j][n1 + k - i];
      }
      RunCoversPrefix(rest, IdChars, m);
    }
    var n2 := Run(rest, IdChars);
    var tail := rest[n2..];
    assert n1 + n2 >= j;
    forall k | 0 <= k < |tail| ensures InClass(tail[k], ClassChars) {
      assert tail[k] == s[j..][n1 + n2 - j + k];
    }
    RunAllIn(tail, ClassChars);
  }

  lemma RunAllIn(s: string, cls: CharClass)
    requires AllIn(s, cls)
    ensures Run(s, cls) == |s|
  {
  }

  /** The result of `_parseQuerySelector`. */
  datatype Descriptor = Descriptor(tag: string, id: string, classList: seq<string>)

  /** `NoMatch`: `exec` returned null and reading `matches[1]` throws a
      TypeError. `EmptyTag`: the assertion that the tag is not empty fails. */
  datatype ParseError = NoMatch | EmptyTag

  /** First index of `c` in `s`. */
  function IndexOf(s: string, c: char): (i: nat)
    requires c in s
    ensures i < |s| && s[i] == c && c !in s[..i]
  {
    if s[0] == c then 0 else 1 + IndexOf(s[1..], c)
  }

  /** `Array.prototype.join` with a one-character separator. */
  function Join(parts: seq<string>, sep: char): string {
    if |parts| == 0 then ""
    else if |parts| == 1 then parts[0]
    else parts[0] + [sep] + Join(parts[1..], sep)
  }

  /** `String.prototype.split` with a one-character separator: the pieces
      between separators, so never fewer than one ("" gives [""]). */
  function Split(s: string, sep: char): (parts: seq<string>)
    ensures |parts| >= 1
    ensures forall i :: 0 <= i < |parts| ==> sep !in parts[i]
    ensures Join(parts, sep) == s
    decreases |s|
  {
    if sep in s then
      var i := IndexOf(s, sep);
      var tail := Split(s[i + 1..], sep);
      assert s == s[..i] + [sep] + s[i + 1..];
      assert ([s[..i]] + tail)[1..] == tail;
      [s[..i]] + tail
    else [s]
  }

  lemma IndexOfUnique(s: string, c: char, k: nat)
    requires k < |s| && s[k] == c && c !in s[..k]
    ensures IndexOf(s, c) == k
  {
    var i := IndexOf(s, c);
    forall m | 0 <= m < k ensures s[m] != c {
      assert s[..k][m] == s[m];
    }
    forall m | 0 <= m < i ensures s[m] != c {
      assert s[..i][m] == s[m];
    }
  }

  /** Splitting undoes joining when no piece holds the separator. */
  lemma {:induction false} SplitJoin(parts: seq<string>, sep: char)
    requires |parts| >= 1
    requires forall i :: 0 <= i < |parts| ==> sep !in parts[i]
    ensures Split(Join(parts, sep), sep) == parts
    decreases |parts|
  {
    if |parts| > 1 {
      var p0, rest := parts[0], parts[1..];
      var tail := Join(rest, sep);
      var s := p0 + [sep] + tail;
      assert Join(parts, sep) == s;
      assert s[..|p0|] == p0 && s[|p0|] == sep;
      IndexOfUnique(s, sep, |p0|);
      assert s[|p0| + 1..] == tail;
      SplitJoin(rest, sep);
      assert Split(s, sep) == [p0] + Split(tail, sep);
      assert parts == [p0] + rest;
    }
  }

  /** `_parseQuerySelector` (src/js/HyperFlex.js:96-109). */
  function ParseQuerySelector(s: string): (r: Result<Descriptor, ParseError>)
    ensures r.Ok? ==> WellFormed(r.value)
  {
    match Match(s)
    case None => Err(NoMatch)
    case Some(g) =>
      if g.tag == "" then Err(EmptyTag)
      else
        var id := if g.hash != "" then g.hash[1..] else "";
        var classList := if g.dots != "" then Split(g.dots[1..], '.') else [];
        assert AllIn(id, IdChars) by {
          forall k | 0 <= k < |id| ensures InClass(id[k], IdChars) {
            assert id[k] == g.hash[k + 1];
          }
        }
        assert forall i :: 0 <= i < |classList| ==> AllIn(classList[i], TagChars) by {
          if g.dots != "" {
            forall k | 0 <= k < |g.dots| - 1 ensures InClass(g.dots[1..][k], ClassChars) {
              assert g.dots[1..][k] == g.dots[k + 1];
            }
            SplitNamesAreTagChars(g.dots[1..]);
          }
        }
        Ok(Descriptor(g.tag, id, classList))
  }

  /** The selector a descriptor is written as. */
  function IdPart(id: string): string {
    if id == "" then "" else "#" + id
  }

  function ClassPart(classList: seq<string>): string {
    if classList == [] then "" else "." + Join(classList, '.')
  }

  function Format(d: Descriptor): string {
    d.tag + IdPart(d.id) + ClassPart(d.classList)
  }

  /** A descriptor the grammar can express: a non-empty tag of [\w-], an id of
      [#\w-] (the id group admits further '#'), class names of [\w-]. */
  ghost predicate WellFormed(d: Descriptor) {
    d.tag != "" && AllIn(d.tag, TagChars) && AllIn(d.id, IdChars)
    && forall i :: 0 <= i < |d.classList| ==> AllIn(d.classList[i], TagChars)
  }

  /** The class names read off a dot run hold no dot, so are made of [\w-]. */
  lemma {:induction false} SplitNamesAreTagChars(s: string)
    requires AllIn(s, ClassChars)
    ensures forall i :: 0 <= i < |Split(s, '.')| ==> AllIn(Split(s, '.')[i], TagChars)
    decreases |s|
  {
    if '.' in s {
      var i := IndexOf(s, '.');
      var head, tail := s[..i], s[i + 1..];
      forall k | 0 <= k < |tail| ensures InClass(tail[k], ClassChars) {
        assert tail[k] == s[i + 1 + k];
      }
      SplitNamesAreTagChars(tail);
      forall k | 0 <= k < |head| ensures InClass(head[k], TagChars) {
        assert head[k] == s[k];
        assert head[k] != '.';
      }
      var parts := Split(s, '.');
      assert parts == [head] + Split(tail, '.');
    } else {
      forall k | 0 <= k < |s| ensures InClass(s[k], TagChars) {
        assert s[k] != '.';
      }
      assert Split(s, '.') == [s];
    }
  }

  /** Any prefix length with the two properties of `Run` is `Run`. */
  lemma RunUnique(s: string, cls: CharClass, n: nat)
    requires n <= |s| && AllIn(s[..n], cls) && (n < |s| ==> !InClass(s[n], cls))
    ensures Run(s, cls) == n
  {
    RunCoversPrefix(s, cls, n);
  }

  lemma {:induction false} JoinClassChars(parts: seq<string>)
    requires forall i :: 0 <= i < |parts| ==> AllIn(parts[i], TagChars)
    ensures AllIn(Join(parts, '.'), ClassChars)
  {
    if |parts| > 1 {
      JoinClassChars(parts[1..]);
      var rest := Join(parts[1..], '.');
      assert Join(parts, '.') == parts[0] + ['.'] + rest;
      forall k | 0 <= k < |Join(parts, '.')| ensures InClass(Join(parts, '.')[k], ClassChars) {
        if k < |parts[0]| {
          assert Join(parts, '.')[k] == parts[0][k];
        } else if k > |parts[0]| {
          assert Join(parts, '.')[k] == rest[k - |parts[0]| - 1];
        }
      }
    } else if |parts| == 1 {
      assert AllIn(parts[0], TagChars);
    }
  }

  lemma ClassPartChars(classList: seq<string>)
    requires forall i :: 0 <= i < |classList| ==> AllIn(classList[i], TagChars)
    ensures AllIn(ClassPart(classList), ClassChars)
    ensures ClassPart(classList) != "" ==> ClassPart(classList)[0] == '.'
  {
    if classList != [] {
      JoinClassChars(classList);
      var j := Join(classList, '.');
      var c := ClassPart(classList);
      forall k | 0 <= k < |c| ensures InClass(c[k], ClassChars) {
        if k > 0 { assert c[k] == j[k - 1]; }
      }
    }
  }

  lemma IdPartChars(id: string)
    requires AllIn(id, IdChars)
    ensures AllIn(IdPart(id), IdChars)
    ensures IdPart(id) != "" ==> IdPart(id)[0] == '#'
  {
    var h := IdPart(id);
    if id != "" {
      forall k | 0 <= k < |h| ensures InClass(h[k], IdChars) {
        if k > 0 { assert h[k] == id[k - 1]; }
      }
    }
  }

  /** `exec` on a written-out descriptor yields its three parts as the groups. */
  lemma FormatGroups(d: Descriptor)
    requires WellFormed(d)
    ensures Match(Format(d)) == Some(Groups(d.tag, IdPart(d.id), ClassPart(d.classList)))
  {
    var s := Format(d);
    var t, h, c := d.tag, IdPart(d.id), ClassPart(d.classList);
    ClassPartChars(d.classList);
    IdPartChars(d.id);
    assert s == t + (h + c);
    assert s[..|t|] == t;
    assert |t| < |s| ==> s[|t|] == (h + c)[0];
    RunUnique(s, TagChars, |t|);
    var rest := s[|t|..];
    assert rest == h + c;
    assert rest[..|h|] == h;
    assert |h| < |rest| ==> rest[|h|] == c[0];
    RunUnique(rest, IdChars, |h|);
    assert rest[|h|..] == c;
    RunAllIn(c, ClassChars);
  }

  /** Round trip: a well-formed descriptor, written as a selector, parses back to
      itself; e.g. "div#monId.maClass" gives div, monId and [maClass]. */
  lemma ParseFormat(d: Descriptor)
    requires WellFormed(d)
    ensures ParseQuerySelector(Format(d)) == Ok(d)
  {
    FormatGroups(d);
    var h, c := IdPart(d.id), ClassPart(d.classList);
    if d.id != "" {
      assert h[1..] == d.id;
    }
    if d.classList != [] {
      assert c[1..] == Join(d.classList, '.');
      forall i | 0 <= i < |d.classList| ensures '.' !in d.classList[i] {
        assert AllIn(d.classList[i], TagChars);
      }
      SplitJoin(d.classList, '.');
    }
  }

  /** The id read off group 2, written back, is group 2 unless that is a bare '#'. */
  lemma IdPartOfHash(hash: string)
    requires hash != "" ==> hash[0] == '#'
    ensures var id := if hash != "" then hash[1..] else "";
      IdPart(id) == hash || (id == "" && hash == "#")
  {
    if hash != "" {
      assert hash == "#" + hash[1..];
    }
  }

  /** The class list read off group 3, written back, is group 3. */
  lemma ClassPartOfDots(dots: string)
    requires dots != "" ==> dots[0] == '.'
    ensures ClassPart(if dots != "" then Split(dots[1..], '.') else []) == dots
  {
    if dots != "" {
      var rest := dots[1..];
      var parts := Split(rest, '.');
      assert Join(parts, '.') == rest;
      assert dots == "." + rest;
    }
  }

  /** Every selector that parses is the descriptor written out, except that a
      bare '#' (empty id group) may stand between tag and classes. */
  lemma ParseOkShape(s: string)
    requires ParseQuerySelector(s).Ok?
    ensures var d := ParseQuerySelector(s).value;
      s == Format(d) || (d.id == "" && s == d.tag + "#" + ClassPart(d.classList))
  {
    var g := Match(s).value;
    IdPartOfHash(g.hash);
    ClassPartOfDots(g.dots);
  }

  /** The pattern rejects exactly the strings outside its language: `exec` gives
      null and `matches[1]` throws. */
  lemma ParseNoMatchIff(s: string)
    ensures ParseQuerySelector(s) == Err(NoMatch) <==> !InLanguage(s)
  {
    MatchIsRegexMatch(s);
  }

  /** A selector in the language is refused for its tag exactly when it does not
      start with a tag character, as "#id" and ".cls" do. */
  lemma ParseEmptyTagIff(s: string)
    ensures ParseQuerySelector(s) == Err(EmptyTag) <==> InLanguage(s) && (s == "" || !InClass(s[0], TagChars))
  {
    MatchIsRegexMatch(s);
    if s != "" && InClass(s[0], TagChars) {
      assert Run(s, TagChars) > 0;
    }
  }

  /** A string holding a character of `cls` at index `i` is not made of `cls2`
      when the character is outside `cls2`. */
  lemma OutsideAt(s: string, i: nat, lo: nat, hi: nat, cls: CharClass)
    requires lo <= i < hi <= |s| && !InClass(s[i], cls)
    ensures !AllIn(s[lo..hi], cls)
  {
    assert s[lo..hi][i - lo] == s[i];
  }

  /** The split at `a`, `b` fails when index `i` holds a character that is
      neither a tag nor an id character, and index `j >= i` one that is not a
      class character. */
  lemma NoSplitAt(s: string, a: nat, b: nat, i: nat, j: nat)
    requires a <= b <= |s| && i <= j < |s|
    requires !InClass(s[i], TagChars) && !InClass(s[i], IdChars) && !InClass(s[j], ClassChars)
    ensures !(AllIn(s[..a], TagChars) && AllIn(s[a..b], IdChars) && AllIn(s[b..], ClassChars))
  {
    if i < a {
      assert s[..a] == s[0..a];
      OutsideAt(s, i, 0, a, TagChars);
    } else if i < b {
      OutsideAt(s, i, a, b, IdChars);
    } else {
      assert s[b..] == s[b..|s|];
      OutsideAt(s, j, b, |s|, ClassChars);
    }
  }

  /** No split works when index `i` holds neither a tag nor an id character
      and index `j >= i` no class character: `exec` gives null. */
  lemma NoSplitRejected(s: string, i: nat, j: nat)
    requires i <= j < |s|
    requires !InClass(s[i], TagChars) && !InClass(s[i], IdChars) && !InClass(s[j], ClassChars)
    ensures ParseQuerySelector(s) == Err(NoMatch)
  {
    forall a, b | 0 <= a <= b <= |s|
      ensures !(AllIn(s[..a], TagChars) && AllIn(s[a..b], IdChars) && AllIn(s[b..], ClassChars))
    {
      NoSplitAt(s, a, b, i, j);
    }
    ParseNoMatchIff(s);
  }

  /** A character outside every bracket (a space, a '>', a ':') makes parsing fail. */
  lemma ForeignCharRejected(s: string, i: nat)
    requires i < |s| && !InClass(s[i], IdChars) && !InClass(s[i], ClassChars)
    ensures ParseQuerySelector(s) == Err(NoMatch)
  {
    NoSplitRejected(s, i, i);
  }

  /** An id may not follow a class: a '#' after a '.' makes parsing fail. */
  lemma HashAfterDotRejected(s: string, i: nat, j: nat)
    requires i < j < |s| && s[i] == '.' && s[j] == '#'
    ensures ParseQuerySelector(s) == Err(NoMatch)
  {
    NoSplitRejected(s, i, j);
  }

  /** The selector of the source's test: "div#monId.maClass" gives div, monId, [maClass]. */
  lemma ParseTestSelector()
    ensures ParseQuerySelector("div#monId.maClass") == Ok(Descriptor("div", "monId", ["maClass"]))
  {
    var d := Descriptor("div", "monId", ["maClass"]);
    assert Format(d) == "div#monId.maClass";
    ParseFormat(d);
  }

  /** A bare tag: "div" gives div, no id, no classes. */
  lemma ParseBareTag()
    ensures ParseQuerySelector("div") == Ok(Descriptor("div", "", []))
  {
    var d := Descriptor("div", "", []);
    assert Format(d) == "div";
    ParseFormat(d);
  }

  /** A selector without a tag is refused: "#id". */
  lemma ParseIdOnly()
    ensures ParseQuerySelector("#id") == Err(EmptyTag)
  {
    MatchComplete("#id", 0, 3);
  }

  /** A selector without a tag is refused: ".cls". */
  lemma ParseClassOnly()
    ensures ParseQuerySelector(".cls") == Err(EmptyTag)
  {
    MatchComplete(".cls", 0, 0);
  }
}
