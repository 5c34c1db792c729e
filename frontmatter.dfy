/** The two frontmatter patterns, matched the way Python's `re.match` with DOTALL does:
    `^---\s*\n(.*?)\n---\s*\n` (md2json.py) and, lenient, `^\s*---\s*\n(.*?)\n\s*---\s*\n`
    (markdown_to_json.py). */
module Frontmatter {
  import opened Wrappers
  import opened Strings

  /** The end of the whitespace run starting at `i`. */
  function SkipSpaces(s: string, i: nat): (j: nat)
    requires i <= |s|
    ensures i <= j <= |s|
    ensures forall k :: i <= k < j ==> IsSpace(s[k])
    ensures j == |s| || !IsSpace(s[j])
    decreases |s| - i
  {
    if i < |s| && IsSpace(s[i]) then SkipSpaces(s, i + 1) else i
  }

  /** The position just after the last newline of `s[i..j]`. */
  function LastNewline(s: string, i: nat, j: nat): (p: Option<nat>)
    requires i <= j <= |s|
    ensures p.Some? ==> i < p.value <= j && s[p.value - 1] == '\n'
    ensures p.Some? ==> forall k :: p.value <= k < j ==> s[k] != '\n'
    ensures p.None? ==> forall k :: i <= k < j ==> s[k] != '\n'
    decreases j
  {
    if j == i then None else if s[j - 1] == '\n' then Some(j) else LastNewline(s, i, j - 1)
  }

  /** `\s*\n` at `i` as the engine first takes it: the longest whitespace that ends in a
      newline. At the end of the pattern that first choice is the one kept. */
  function SpacesToNewline(s: string, i: nat): (p: Option<nat>)
    requires i <= |s|
    ensures p.Some? ==> i < p.value <= |s|
  {
    LastNewline(s, i, SkipSpaces(s, i))
  }

  /** Where the match ends if the group ends at `e`: after the closing `---` line. */
  function CloseAt(s: string, e: nat, lenient: bool): (end: Option<nat>)
    requires e <= |s|
    ensures end.Some? ==> e < end.value <= |s|
  {
    if lenient then
      if e < |s| && s[e] == '\n' then
        var w := SkipSpaces(s, e + 1);
        if StartsWith(s[w..], "---") then SpacesToNewline(s, w + 3) else None
      else None
    else if StartsWith(s[e..], "\n---") then SpacesToNewline(s, e + 4)
    else None
  }

  /** A match: the group `s[groupStart..groupEnd]` and the end of the whole match. */
  datatype Match = Match(groupStart: nat, groupEnd: nat, end: nat)

  /** The lazy `(.*?)` from `a`, trying group ends `e`, `e + 1`, ... in turn. */
  function LazyGroup(s: string, a: nat, e: nat, lenient: bool): (m: Option<Match>)
    requires a <= e <= |s|
    ensures m.Some? ==> m.value.groupStart == a && e <= m.value.groupEnd < m.value.end <= |s|
    ensures m.Some? ==> CloseAt(s, m.value.groupEnd, lenient) == Some(m.value.end)
    decreases |s| - e
  {
    match CloseAt(s, e, lenient)
    case Some(end) => Some(Match(a, e, end))
    case None => if e < |s| then LazyGroup(s, a, e + 1, lenient) else None
  }

  /** The group is as short as it can be: no earlier end lets the closing line match. */
  lemma {:induction false} LazyGroupShortest(s: string, a: nat, e: nat, lenient: bool)
    requires a <= e <= |s|
    ensures LazyGroup(s, a, e, lenient).Some? ==>
      forall k :: e <= k < LazyGroup(s, a, e, lenient).value.groupEnd ==> CloseAt(s, k, lenient).None?
    ensures LazyGroup(s, a, e, lenient).None? ==> forall k :: e <= k <= |s| ==> CloseAt(s, k, lenient).None?
    decreases |s| - e
  {
    hide CloseAt;
    if CloseAt(s, e, lenient).None? && e < |s| {
      LazyGroupShortest(s, a, e + 1, lenient);
    }
  }

  /** The opening `\s*\n`: each newline of `s[i..j]` in turn, the last first, until the
      rest of the pattern matches after it. */
  function TryOpenings(s: string, i: nat, j: nat, lenient: bool): (m: Option<Match>)
    requires i <= j <= |s|
    ensures m.Some? ==> m.value.groupStart <= m.value.groupEnd < m.value.end <= |s|
    decreases j
  {
    match LastNewline(s, i, j)
    case None => None
    case Some(p) =>
      match LazyGroup(s, p, p, lenient)
      case Some(m) => Some(m)
      case None => TryOpenings(s, i, p - 1, lenient)
  }

  /** What `TryOpenings` finds is the lazy group from just after a newline of `s[i..j]`. */
  lemma {:induction false} TryOpeningsFound(s: string, i: nat, j: nat, lenient: bool)
    requires i <= j <= |s|
    ensures var m := TryOpenings(s, i, j, lenient);
      m.Some? ==>
        i < m.value.groupStart <= j && s[m.value.groupStart - 1] == '\n'
        && LazyGroup(s, m.value.groupStart, m.value.groupStart, lenient) == m
    decreases j
  {
    hide *;
    TryOpeningsCases(s, i, j, lenient);
    var ln := LastNewline(s, i, j);
    if ln.Some? && LazyGroup(s, ln.value, ln.value, lenient).None? {
      TryOpeningsFound(s, i, ln.value - 1, lenient);
    }
  }

  /** The three ways `TryOpenings` proceeds. */
  lemma TryOpeningsCases(s: string, i: nat, j: nat, lenient: bool)
    requires i <= j <= |s|
    ensures LastNewline(s, i, j).None? ==> TryOpenings(s, i, j, lenient).None?
    ensures LastNewline(s, i, j).Some? ==>
      var p := LastNewline(s, i, j).value;
      if LazyGroup(s, p, p, lenient).Some? then TryOpenings(s, i, j, lenient) == LazyGroup(s, p, p, lenient)
      else TryOpenings(s, i, j, lenient) == TryOpenings(s, i, p - 1, lenient)
  {
    hide LazyGroup, LastNewline;
  }

  /** Where the opening `---` starts. */
  function OpeningStart(s: string, lenient: bool): (start: nat)
    ensures start <= |s|
    ensures forall k :: 0 <= k < start ==> IsSpace(s[k])
  {
    if lenient then SkipSpaces(s, 0) else 0
  }

  function MatchFrontmatter(s: string, lenient: bool): Option<Match> {
    var start := OpeningStart(s, lenient);
    if StartsWith(s[start..], "---") then TryOpenings(s, start + 3, SkipSpaces(s, start + 3), lenient)
    else None
  }

  /** The closing line between the group's end `e` and the match end: a newline, (when
      lenient) whitespace, `---`, whitespace ending in a newline. */
  predicate ClosingLine(s: string, e: nat, end: nat, lenient: bool) {
    e < end <= |s| && s[e] == '\n' && s[end - 1] == '\n'
    && var w := if lenient then SkipSpaces(s, e + 1) else e + 1;
       w + 3 < end && s[w..w + 3] == "---"
       && (forall k :: w + 3 <= k < end - 1 ==> IsSpace(s[k]))
  }

  lemma CloseAtShape(s: string, e: nat, lenient: bool)
    requires e <= |s| && CloseAt(s, e, lenient).Some?
    ensures ClosingLine(s, e, CloseAt(s, e, lenient).value, lenient)
  {
    CloseAtCases(s, e, lenient);
    hide CloseAt, SkipSpaces, LastNewline, StartsWith, IsSpace;
    var end := CloseAt(s, e, lenient).value;
    var w := if lenient then SkipSpaces(s, e + 1) else e + 1;
    if !lenient {
      NewlineDashesAt(s, e);
    } else {
      DashesAt(s, w);
    }
    SpacesToNewlineShape(s, w + 3);
  }

  /** The two closing patterns: after `\n` and (lenient only) whitespace, `---` and then
      whitespace ending in a newline. */
  lemma CloseAtCases(s: string, e: nat, lenient: bool)
    requires e <= |s|
    ensures lenient && CloseAt(s, e, lenient).Some? ==>
      e < |s| && s[e] == '\n'
      && var w := SkipSpaces(s, e + 1);
         StartsWith(s[w..], "---") && w + 3 <= |s| && CloseAt(s, e, lenient) == SpacesToNewline(s, w + 3)
    ensures !lenient && CloseAt(s, e, lenient).Some? ==>
      StartsWith(s[e..], "\n---") && e + 4 <= |s| && CloseAt(s, e, lenient) == SpacesToNewline(s, e + 4)
  {
    hide SpacesToNewline, SkipSpaces, StartsWith;
    if lenient && CloseAt(s, e, lenient).Some? {
      var w := SkipSpaces(s, e + 1);
      DashesAt(s, w);
    }
  }

  lemma NewlineDashesAt(s: string, e: nat)
    requires e <= |s| && StartsWith(s[e..], "\n---")
    ensures e + 4 <= |s| && s[e] == '\n' && s[e + 1..e + 4] == "---"
  {
    assert s[e..][..4] == "\n---";
    assert s[e + 1..e + 4] == s[e..][1..4];
  }

  /** `\s*\n` as found: whitespace, the last of it a newline. */
  lemma SpacesToNewlineShape(s: string, i: nat)
    requires i <= |s| && SpacesToNewline(s, i).Some?
    ensures var p := SpacesToNewline(s, i).value;
      i < p <= |s| && s[p - 1] == '\n' && forall k :: i <= k < p - 1 ==> IsSpace(s[k])
  {
    hide SkipSpaces, LastNewline, IsSpace;
  }

  /** A match is an opening line (after leading whitespace only when lenient) of `---`,
      whitespace and a newline, then the group, then a closing line, and nothing more. */
  lemma MatchShape(s: string, lenient: bool)
    requires MatchFrontmatter(s, lenient).Some?
    ensures var m := MatchFrontmatter(s, lenient).value;
      var start := OpeningStart(s, lenient);
      start + 3 < m.groupStart <= m.groupEnd < m.end <= |s|
      && s[start..start + 3] == "---"
      && (forall k :: start + 3 <= k < m.groupStart - 1 ==> IsSpace(s[k]))
      && s[m.groupStart - 1] == '\n'
      && ClosingLine(s, m.groupEnd, m.end, lenient)
  {
    hide *;
    var start := OpeningStart(s, lenient);
    MatchOpens(s, lenient);
    DashesAt(s, start);
    var m := TryOpenings(s, start + 3, SkipSpaces(s, start + 3), lenient).value;
    TryOpeningsFound(s, start + 3, SkipSpaces(s, start + 3), lenient);
    CloseAtShape(s, m.groupEnd, lenient);
  }

  /** A match found starts with `---` at the opening and then tries the newlines of the
      following whitespace. */
  lemma MatchOpens(s: string, lenient: bool)
    requires MatchFrontmatter(s, lenient).Some?
    ensures var start := OpeningStart(s, lenient);
      && StartsWith(s[start..], "---")
      && MatchFrontmatter(s, lenient) == TryOpenings(s, start + 3, SkipSpaces(s, start + 3), lenient)
  {
    hide StartsWith, TryOpenings, SkipSpaces, OpeningStart;
  }

  /** `StartsWith(s[i..], "---")` read as the three characters at `i`. */
  lemma DashesAt(s: string, i: nat)
    requires i <= |s| && StartsWith(s[i..], "---")
    ensures i + 3 <= |s| && s[i..i + 3] == "---"
  {
    assert s[i..][..3] == s[i..i + 3];
  }

  /** The strict pattern only matches text that starts with `---`. */
  lemma StrictNeedsDashesFirst(s: string)
    requires !StartsWith(s, "---")
    ensures MatchFrontmatter(s, false).None?
  {
    assert s[0..] == s;
  }

  /** Leading whitespace is skipped by the lenient pattern and not by the strict one; the
      group is the text between the dash lines. */
  lemma LeadingSpaceExample()
    ensures MatchFrontmatter(" ---\na\n---\nb", true) == Some(Match(5, 6, 11))
    ensures MatchFrontmatter(" ---\na\n---\nb", false).None?
    ensures MatchFrontmatter("---\na\n---\nb", false) == Some(Match(4, 5, 10))
  {
    var s := " ---\na\n---\nb";
    assert s[..3][0] == ' ';
    assert !StartsWith(s, "---");
    hide *;
    LenientLeadingSpace();
    StrictNeedsDashesFirst(s);
    StrictFirstColumn();
  }

  lemma LenientLeadingSpace()
    ensures MatchFrontmatter(" ---\na\n---\nb", true) == Some(Match(5, 6, 11))
  {
    var s := " ---\na\n---\nb";
    assert SkipSpaces(s, 0) == 1;
    assert s[1..][..3] == "---";
    assert SkipSpaces(s, 4) == 5;
    assert LastNewline(s, 4, 5) == Some(5);
    assert CloseAt(s, 5, true).None?;
    assert SkipSpaces(s, 7) == 7;
    assert s[7..][..3] == "---";
    assert SkipSpaces(s, 10) == 11;
    assert CloseAt(s, 6, true) == Some(11);
  }

  lemma StrictFirstColumn()
    ensures MatchFrontmatter("---\na\n---\nb", false) == Some(Match(4, 5, 10))
  {
    var t := "---\na\n---\nb";
    assert t[0..] == t && t[..3] == "---";
    assert SkipSpaces(t, 3) == 4;
    assert LastNewline(t, 3, 4) == Some(4);
    assert t[4..][..4] != "\n---";
    assert CloseAt(t, 4, false).None?;
    assert t[5..][..4] == "\n---";
    assert SkipSpaces(t, 9) == 10;
    assert CloseAt(t, 5, false) == Some(10);
  }

  /** When no newline follows the opening dashes in the first run of whitespace, a second
      newline there lets the group start empty: the engine backs off to the earlier one. */
  lemma EmptyGroupExample()
    ensures MatchFrontmatter("---\n\n---\n", false) == Some(Match(4, 4, 9))
  {
    var t := "---\n\n---\n";
    assert t[0..] == t && t[..3] == "---";
    assert SkipSpaces(t, 3) == 5;
    assert LastNewline(t, 3, 5) == Some(5);
    assert LazyGroup(t, 5, 5, false).None? by {
      assert t[5..][..1] != "\n";
      assert CloseAt(t, 5, false).None?;
      assert t[6..][0] != '\n';
      assert CloseAt(t, 6, false).None?;
      assert CloseAt(t, 7, false).None?;
      assert CloseAt(t, 8, false).None?;
      assert CloseAt(t, 9, false).None?;
      assert LazyGroup(t, 5, 9, false).None?;
      assert LazyGroup(t, 5, 8, false).None?;
      assert LazyGroup(t, 5, 7, false).None?;
      assert LazyGroup(t, 5, 6, false).None?;
    }
    assert LastNewline(t, 3, 4) == Some(4);
    assert t[4..][..4] == "\n---";
    assert SkipSpaces(t, 8) == 9;
    assert CloseAt(t, 4, false) == Some(9);
  }
}
