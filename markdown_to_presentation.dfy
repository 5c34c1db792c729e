/** The line rewriter of markdown_to_presentation.py: a first pass re-inserts the nearest
    level-2 heading after a `---` rule, a second pass wraps `***`-separated content in
    pandoc column fences. */
module MarkdownToPresentation {
  import opened Wrappers
  import opened Strings

  /** `list.pop()` on an empty list raises IndexError. */
  datatype Crash = PopFromEmpty

  // ---------------------------------------------------------------------------
  // The two line patterns, as `re.match` applies them to one line.

  /** Index of the first '\n' of `s` at or after `i`, or |s|. */
  function FirstNewline(s: string, i: nat): (k: nat)
    requires i <= |s|
    ensures i <= k <= |s|
    ensures k < |s| ==> s[k] == '\n'
    ensures forall t :: i <= t < k ==> s[t] != '\n'
    decreases |s| - i
  {
    if i == |s| || s[i] == '\n' then i else FirstNewline(s, i + 1)
  }

  /** `^prefix.+\n$`: after the prefix, one or more characters other than '\n', then a
      '\n' that ends the string or is followed by one final '\n' (Python's `$` also
      matches just before a trailing newline). */
  predicate LineMatch(s: string, prefix: string) {
    StartsWith(s, prefix) &&
    var rest := s[|prefix|..];
    var m := FirstNewline(rest, 0);
    0 < m < |rest| && (m == |rest| - 1 || (m == |rest| - 2 && rest[|rest| - 1] == '\n'))
  }

  /** Pattern `p`: `^## .+\n$`. */
  predicate IsH2(s: string) { LineMatch(s, "## ") }

  /** Pattern `k`: `^[#]{1,2} .+\n$`. */
  predicate IsH12(s: string) { LineMatch(s, "# ") || LineMatch(s, "## ") }

  // ---------------------------------------------------------------------------
  // First pass (lines 16-29).

  /** `for j in range(i, 0, -1): if p.match(r[j]) ... break` — index 0 is never looked at. */
  function Nearest(r: seq<string>, j: nat): (h: Option<nat>)
    requires j < |r|
    ensures h.Some? ==>
      1 <= h.value <= j && IsH2(r[h.value]) && (forall t :: h.value < t <= j ==> !IsH2(r[t]))
    ensures h.None? ==> forall t :: 1 <= t <= j ==> !IsH2(r[t])
  {
    if j == 0 then None else if IsH2(r[j]) then Some(j) else Nearest(r, j - 1)
  }

  /** A rule needs its heading re-inserted unless the line two further on is a `## ` heading. */
  predicate NeedsHeading(r: seq<string>, i: nat)
    requires i < |r|
  {
    r[i] == "---\n" && !(i + 2 < |r| && IsH2(r[i + 2]))
  }

  /** What the first pass emits for line `i`. */
  function Piece(r: seq<string>, i: nat): seq<string>
    requires i < |r|
  {
    if NeedsHeading(r, i) then
      [r[i]] + (match Nearest(r, i) case Some(j) => ["\n", r[j]] case None => [])
    else [r[i]]
  }

  /** `processed` after the first `n` lines. */
  function FirstPass(r: seq<string>, n: nat): seq<string>
    requires n <= |r|
  {
    if n == 0 then [] else FirstPass(r, n - 1) + Piece(r, n - 1)
  }

  // ---------------------------------------------------------------------------
  // Second pass (lines 31-68).

  /** The state the second pass carries: `column_separated` and `tail`. */
  datatype Cols = Cols(out: seq<string>, tail: int)

  predicate IsStop(line: string) { IsH2(line) || line == "---\n" }

  /** Where the backward scan from `j` stops: the nearest index in 1..j holding a `## `
      heading or a `---` rule, or 0 when the scan runs out. */
  function LastStop(P: seq<string>, j: nat): (s: nat)
    requires j < |P|
    ensures s <= j
  {
    if j == 0 then 0 else if IsStop(P[j]) then j else LastStop(P, j - 1)
  }

  /** The lines of `ls` other than `***` rules, in order. */
  function Kept(ls: seq<string>): seq<string> {
    if ls == [] then [] else (if ls[0] != "***\n" then [ls[0]] else []) + Kept(ls[1..])
  }

  /** `before` for the rule at `i`: the scanned lines, back to the stop, without `***` rules. */
  function Before(P: seq<string>, i: nat): seq<string>
    requires i < |P|
  {
    Kept(P[LastStop(P, i) + 1..i + 1])
  }

  /** Number of `pop()` calls for the rule at `i`: one per scanned line other than `i`. */
  function Pops(P: seq<string>, i: nat): nat
    requires i < |P|
  {
    if LastStop(P, i) < i then i - LastStop(P, i) - 1 else 0
  }

  /** First index at or after `j` holding a level-1/2 heading or a `---` rule, or |P|. */
  function NextStop(P: seq<string>, j: nat): (s: nat)
    requires j <= |P|
    ensures j <= s <= |P|
    decreases |P| - j
  {
    if j == |P| then j else if IsH12(P[j]) || P[j] == "---\n" then j else NextStop(P, j + 1)
  }

  /** `tail` after the rule at `i`: lines up to the next stop, less two, or up to the end. */
  function TailAfter(P: seq<string>, i: nat): int
    requires i <= |P|
  {
    var s := NextStop(P, i);
    if s < |P| then s - i - 2 else |P| - i
  }

  const Opening: seq<string> := ["\n", "::: {.columns}\n", "::: {.column}\n"]
  const Middle: seq<string> := [":::\n", "::: {.column}\n"]
  const Closing: seq<string> := [":::\n", ":::\n", "\n"]

  /** One iteration of the second loop. */
  function ColumnStep(P: seq<string>, i: nat, st: Cols): Result<Cols, Crash>
    requires i < |P|
  {
    if P[i] == "***\n" then
      if Pops(P, i) > |st.out| then Failure(PopFromEmpty)
      else Success(Cols(st.out[..|st.out| - Pops(P, i)] + Opening + Before(P, i) + Middle, TailAfter(P, i)))
    else
      Success(Cols(st.out + [P[i]] + (if st.tail == 0 then Closing else []), st.tail - 1))
  }

  /** The second pass over the first `n` lines of `P`. */
  function SecondPass(P: seq<string>, n: nat): Result<Cols, Crash>
    requires n <= |P|
  {
    if n == 0 then Success(Cols([], -1))
    else match SecondPass(P, n - 1)
      case Failure(e) => Failure(e)
      case Success(st) => ColumnStep(P, n - 1, st)
  }

  /** `convert_markdown_to_presentation(markdown_content)` */
  function Convert(md: string): Result<string, Crash> {
    var r := SplitLinesKeepEnds(md);
    var P := FirstPass(r, |r|);
    match SecondPass(P, |P|)
    case Failure(e) => Failure(e)
    case Success(st) => Success(Concat(st.out))
  }

  // ---------------------------------------------------------------------------
  // The imperative procedure.

  ghost function Popped(i: nat, j: nat): nat {
    if j < i then i - j - 1 else 0
  }

  lemma SecondPassFails(P: seq<string>, n: nat, m: nat)
    requires n <= m <= |P|
    requires SecondPass(P, n).Failure?
    ensures SecondPass(P, m) == SecondPass(P, n)
    decreases m - n
  {
    if m > n {
      SecondPassFails(P, n, m - 1);
    }
  }

  /** One more line: the step applied to the state so far, or the earlier failure. */
  lemma SecondPassStep(P: seq<string>, n: nat)
    requires n < |P|
    ensures SecondPass(P, n).Success? ==> SecondPass(P, n + 1) == ColumnStep(P, n, SecondPass(P, n).value)
    ensures SecondPass(P, n).Failure? ==> SecondPass(P, n + 1) == SecondPass(P, n)
  {
    hide ColumnStep;
  }

  /** The two kinds of step: a `***` rule, and any other line. */
  lemma ColumnStepCases(P: seq<string>, i: nat, st: Cols)
    requires i < |P|
    ensures P[i] == "***\n" && Pops(P, i) > |st.out| ==> ColumnStep(P, i, st) == Failure(PopFromEmpty)
    ensures P[i] == "***\n" && Pops(P, i) <= |st.out| ==>
      ColumnStep(P, i, st) == Success(Cols(st.out[..|st.out| - Pops(P, i)] + Opening + Before(P, i) + Middle, TailAfter(P, i)))
    ensures P[i] != "***\n" ==> ColumnStep(P, i, st) == Success(Cols(st.out + [P[i]] + (if st.tail == 0 then Closing else []), st.tail - 1))
  {
    hide Pops, Before, TailAfter;
  }

  lemma SecondPassStart(P: seq<string>)
    ensures SecondPass(P, 0) == Success(Cols([], -1))
  {
  }

  /** A `***` rule is neither a stop of the backward scan nor of the forward count. */
  lemma RuleIsNoStop()
    ensures !IsStop("***\n") && !IsH12("***\n")
  {
    var r := "***\n";
    assert r[..2][0] == '*' && r[..3][0] == '*';
  }

  /** The inner loop of the first pass: the nearest `## ` heading at an index in i..1. */
  method FindHeading(r: seq<string>, i: nat) returns (h: Option<nat>)
    requires i < |r|
    ensures h == Nearest(r, i)
  {
    var j := i;
    while j > 0
      invariant 0 <= j <= i
      invariant Nearest(r, j) == Nearest(r, i)
    {
      if IsH2(r[j]) {
        return Some(j);
      }
      j := j - 1;
    }
    return None;
  }

  /** The first loop: `processed` from the lines `r`. */
  method InsertHeadings(r: seq<string>) returns (processed: seq<string>)
    ensures processed == FirstPass(r, |r|)
  {
    hide IsH2, Nearest;
    processed := [];
    var i := 0;
    while i < |r|
      invariant 0 <= i <= |r|
      invariant processed == FirstPass(r, i)
    {
      var line := r[i];
      if line == "---\n" {
        var m := i + 2 < |r| && IsH2(r[i + 2]);
        if !m {
          processed := processed + [line];
          var h := FindHeading(r, i);
          if h.Some? {
            processed := processed + ["\n", r[h.value]];
          }
        } else {
          processed := processed + [line];
        }
      } else {
        processed := processed + [line];
      }
      assert processed == FirstPass(r, i) + Piece(r, i);
      i := i + 1;
    }
  }

  /** The backward scan for the rule at `i`: the lines it collects, and `column_separated`
      after its pops, or the crash of a pop from an empty list. */
  method CollectBefore(processed: seq<string>, i: nat, columns: seq<string>)
    returns (res: Result<(seq<string>, seq<string>), Crash>)
    requires i < |processed| && processed[i] == "***\n"
    ensures Pops(processed, i) > |columns| ==> res == Failure(PopFromEmpty)
    ensures Pops(processed, i) <= |columns| ==>
      res == Success((Before(processed, i), columns[..|columns| - Pops(processed, i)]))
  {
    hide *;
    var before: seq<string> := [];
    var columnSeparated := columns;
    var j := i;
    ScanStart(processed, i);
    while j > 0
      invariant 0 <= j <= i
      invariant LastStop(processed, j) == LastStop(processed, i)
      invariant before == Kept(processed[j + 1..i + 1])
      invariant Popped(i, j) <= |columns|
      invariant columnSeparated == columns[..|columns| - Popped(i, j)]
    {
      IsStopIs(processed[j]);
      if IsH2(processed[j]) || processed[j] == "---\n" {
        break;
      } else {
        ScanStep(processed, i, j);
        if processed[j] != "***\n" {
          before := [processed[j]] + before;
        }
        if j != i {
          if columnSeparated == [] {
            ScanOverrun(processed, i, j);
            return Failure(PopFromEmpty);
          }
          columnSeparated := columnSeparated[..|columnSeparated| - 1];
        }
      }
      j := j - 1;
    }
    ScanExit(processed, i, j);
    res := Success((before, columnSeparated));
  }

  lemma IsStopIs(line: string)
    ensures IsStop(line) <==> IsH2(line) || line == "---\n"
  {
    hide IsH2;
  }

  /** Before the scan: nothing collected, nothing popped. */
  lemma ScanStart(P: seq<string>, i: nat)
    requires i < |P|
    ensures Kept(P[i + 1..i + 1]) == [] && Popped(i, i) == 0
  {
    assert P[i + 1..i + 1] == [];
  }

  /** One scanned line that is no stop: the scan goes on to `j - 1`, collecting the line
      unless it is a `***` rule, and popping unless it is the rule itself. */
  lemma ScanStep(P: seq<string>, i: nat, j: nat)
    requires 0 < j <= i < |P| && !IsStop(P[j])
    ensures LastStop(P, j) == LastStop(P, j - 1)
    ensures Kept(P[j..i + 1]) == (if P[j] != "***\n" then [P[j]] else []) + Kept(P[j + 1..i + 1])
    ensures Popped(i, j - 1) == Popped(i, j) + (if j != i then 1 else 0)
  {
    hide IsStop;
    assert P[j..i + 1] == [P[j]] + P[j + 1..i + 1];
  }

  /** A pop at a line that is no stop and not the rule: the scan needs more pops. */
  lemma ScanOverrun(P: seq<string>, i: nat, j: nat)
    requires 0 < j < i < |P| && !IsStop(P[j]) && LastStop(P, j) == LastStop(P, i)
    ensures Pops(P, i) > Popped(i, j)
  {
    hide IsStop;
  }

  /** Where the scan ends, at index 0 or at a stop, it has collected `Before` and popped
      `Pops` lines. */
  lemma ScanExit(P: seq<string>, i: nat, j: nat)
    requires j <= i < |P| && LastStop(P, j) == LastStop(P, i)
    requires j == 0 || IsStop(P[j])
    ensures Before(P, i) == Kept(P[j + 1..i + 1]) && Pops(P, i) == Popped(i, j)
  {
    hide IsStop, Kept;
  }

  /** The forward count for the rule at `i`: the new `tail`. */
  method CountTail(processed: seq<string>, i: nat) returns (tail: int)
    requires i < |processed|
    ensures tail == TailAfter(processed, i)
  {
    tail := 0;
    var t := i;
    while t < |processed|
      invariant i <= t <= |processed|
      invariant tail == t - i
      invariant NextStop(processed, t) == NextStop(processed, i)
    {
      if IsH12(processed[t]) || processed[t] == "---\n" {
        tail := tail - 2;
        break;
      } else {
        tail := tail + 1;
      }
      t := t + 1;
    }
  }

  /** The appends after the backward scan: the opening fence, the collected lines, and the
      fence between the two columns. */
  method EmitFence(columns: seq<string>, before: seq<string>) returns (columnSeparated: seq<string>)
    ensures columnSeparated == columns + Opening + before + Middle
  {
    columnSeparated := columns + ["\n", "::: {.columns}\n", "::: {.column}\n"];
    var k := 0;
    while k < |before|
      invariant 0 <= k <= |before|
      invariant columnSeparated == columns + Opening + before[..k]
    {
      assert before[..k + 1] == before[..k] + [before[k]];
      columnSeparated := columnSeparated + [before[k]];
      k := k + 1;
    }
    assert before[..k] == before;
    columnSeparated := columnSeparated + [":::\n", "::: {.column}\n"];
  }

  lemma ClosingAppend(columns: seq<string>, line: string)
    ensures columns + [line] + [":::\n", ":::\n", "\n"] == columns + [line] + Closing
    ensures columns + [line] == columns + [line] + []
  {
  }

  /** The second loop: `column_separated` from `processed`. */
  method SeparateColumns(processed: seq<string>) returns (res: Result<seq<string>, Crash>)
    ensures SecondPass(processed, |processed|).Failure? ==>
      res == Failure(SecondPass(processed, |processed|).error)
    ensures SecondPass(processed, |processed|).Success? ==>
      res == Success(SecondPass(processed, |processed|).value.out)
  {
    hide *;
    SecondPassStart(processed);
    var columnSeparated: seq<string> := [];
    var tail := -1;
    var i := 0;
    while i < |processed|
      invariant 0 <= i <= |processed|
      invariant SecondPass(processed, i) == Success(Cols(columnSeparated, tail))
    {
      var line := processed[i];
      ghost var st := Cols(columnSeparated, tail);
      SecondPassStep(processed, i);
      ColumnStepCases(processed, i, st);
      if line == "***\n" {
        var scanned := CollectBefore(processed, i, columnSeparated);
        if scanned.Failure? {
          assert SecondPass(processed, i + 1) == Failure(PopFromEmpty);
          SecondPassFails(processed, i + 1, |processed|);
          return Failure(scanned.error);
        }
        columnSeparated := EmitFence(scanned.value.1, scanned.value.0);
        tail := CountTail(processed, i);
      } else {
        ClosingAppend(columnSeparated, line);
        columnSeparated := columnSeparated + [line];
        if tail == 0 {
          columnSeparated := columnSeparated + [":::\n", ":::\n", "\n"];
        }
        tail := tail - 1;
        assert columnSeparated == st.out + [line] + (if st.tail == 0 then Closing else []);
      }
      assert SecondPass(processed, i + 1) == Success(Cols(columnSeparated, tail));
      i := i + 1;
    }
    res := Success(columnSeparated);
  }

  method ConvertMarkdownToPresentation(markdownContent: string) returns (res: Result<string, Crash>)
    ensures res == Convert(markdownContent)
  {
    var r := SplitLinesKeepEnds(markdownContent);
    var processed := InsertHeadings(r);
    var columnSeparated := SeparateColumns(processed);
    match columnSeparated
    case Failure(e) => res := Failure(e);
    case Success(lines) => res := Success(Concat(lines));
  }

  // ---------------------------------------------------------------------------
  // Properties.

  /** The backward scan stops at a heading or rule, or at index 0, and passes only lines
      that are neither. */
  lemma {:induction false} LastStopSpec(P: seq<string>, j: nat)
    requires j < |P|
    ensures var s := LastStop(P, j);
      (s == 0 || IsStop(P[s])) && forall t :: s < t <= j ==> !IsStop(P[t])
  {
    if j > 0 && !IsStop(P[j]) {
      LastStopSpec(P, j - 1);
    }
  }

  /** The forward count stops at the first level-1/2 heading or `---` rule at or after `j`. */
  lemma {:induction false} NextStopSpec(P: seq<string>, j: nat)
    requires j <= |P|
    ensures var s := NextStop(P, j);
      && (s < |P| ==> IsH12(P[s]) || P[s] == "---\n")
      && forall t :: j <= t < s ==> !IsH12(P[t]) && P[t] != "---\n"
    decreases |P| - j
  {
    if j < |P| && !(IsH12(P[j]) || P[j] == "---\n") {
      NextStopSpec(P, j + 1);
    }
  }

  /** `Kept` drops exactly the `***` rules. */
  lemma {:induction false} KeptSpec(ls: seq<string>)
    ensures |Kept(ls)| <= |ls|
    ensures forall l :: l in Kept(ls) ==> l in ls && l != "***\n"
    ensures (forall t :: 0 <= t < |ls| ==> ls[t] != "***\n") ==> Kept(ls) == ls
  {
    if ls != [] {
      KeptSpec(ls[1..]);
      assert ls == [ls[0]] + ls[1..];
    }
  }

  /** The first pass only appends: an earlier `processed` is a prefix of a later one. */
  lemma {:induction false} FirstPassPrefix(r: seq<string>, m: nat, n: nat)
    requires m <= n <= |r|
    ensures |FirstPass(r, m)| <= |FirstPass(r, n)|
    ensures FirstPass(r, n)[..|FirstPass(r, m)|] == FirstPass(r, m)
    decreases n - m
  {
    hide Piece;
    if m < n {
      FirstPassPrefix(r, m, n - 1);
      assert FirstPass(r, n) == FirstPass(r, n - 1) + Piece(r, n - 1);
      PrefixOfAppend(FirstPass(r, m), FirstPass(r, n - 1), Piece(r, n - 1));
    }
  }

  lemma PrefixOfAppend(a: seq<string>, b: seq<string>, c: seq<string>)
    requires |a| <= |b| && b[..|a|] == a
    ensures |a| <= |b + c| && (b + c)[..|a|] == a
  {
    assert (b + c)[..|a|] == b[..|a|];
  }

  /** Every input line is kept, in order: line `i` sits at position |FirstPass(r, i)| of the
      result, and these positions strictly increase. */
  lemma FirstPassKeepsLines(r: seq<string>, i: nat)
    requires i < |r|
    ensures |FirstPass(r, i)| < |FirstPass(r, i + 1)| <= |FirstPass(r, |r|)|
    ensures FirstPass(r, |r|)[|FirstPass(r, i)|] == r[i]
  {
    hide *;
    PieceStartsWithLine(r, i);
    FirstPassStep(r, i);
    FirstPassPrefix(r, i + 1, |r|);
    assert FirstPass(r, i + 1)[|FirstPass(r, i)|] == r[i];
  }

  lemma FirstPassStep(r: seq<string>, i: nat)
    requires i < |r|
    ensures FirstPass(r, i + 1) == FirstPass(r, i) + Piece(r, i)
  {
    hide Piece;
  }

  /** What the first pass emits for a line starts with that line. */
  lemma PieceStartsWithLine(r: seq<string>, i: nat)
    requires i < |r|
    ensures |Piece(r, i)| >= 1 && Piece(r, i)[0] == r[i]
  {
    hide Nearest, IsH2;
  }

  /** Every line of the first pass is an input line or an inserted blank line. */
  lemma {:induction false} FirstPassLines(r: seq<string>, n: nat)
    requires n <= |r|
    ensures forall l :: l in FirstPass(r, n) ==> l in r || l == "\n"
  {
    if n > 0 {
      FirstPassLines(r, n - 1);
    }
  }

  /** Without `---` lines the first pass is the identity. */
  lemma {:induction false} FirstPassIdentity(r: seq<string>, n: nat)
    requires n <= |r|
    requires forall t :: 0 <= t < |r| ==> r[t] != "---\n"
    ensures FirstPass(r, n) == r[..n]
  {
    if n > 0 {
      FirstPassIdentity(r, n - 1);
      assert r[..n] == r[..n - 1] + [r[n - 1]];
    }
  }

  /** Without `***` lines the second pass copies its input: `tail` starts at -1 and only
      decreases, so no closing fence is ever emitted. */
  lemma {:induction false} SecondPassIdentity(P: seq<string>, n: nat)
    requires n <= |P|
    requires forall t :: 0 <= t < |P| ==> P[t] != "***\n"
    ensures SecondPass(P, n) == Success(Cols(P[..n], -1 - n))
  {
    if n > 0 {
      SecondPassIdentity(P, n - 1);
      assert P[..n] == P[..n - 1] + [P[n - 1]];
      var st := Cols(P[..n - 1], -1 - (n - 1));
      assert st.tail != 0;
      assert st.out + [P[n - 1]] + [] == P[..n];
      assert ColumnStep(P, n - 1, st) == Success(Cols(P[..n], -1 - n));
    }
  }

  /** Input with neither `---` nor `***` lines comes back unchanged. */
  lemma UnchangedWithoutRules(md: string)
    requires forall l :: l in SplitLinesKeepEnds(md) ==> l != "---\n" && l != "***\n"
    ensures Convert(md) == Success(md)
  {
    var r := SplitLinesKeepEnds(md);
    assert forall t :: 0 <= t < |r| ==> r[t] != "---\n" && r[t] != "***\n" by {
      forall t | 0 <= t < |r| ensures r[t] != "---\n" && r[t] != "***\n" {
        assert r[t] in r;
      }
    }
    FirstPassIdentity(r, |r|);
    assert r[..|r|] == r;
    SecondPassIdentity(r, |r|);
    SplitLinesKeepEndsConcat(md);
  }

  /** Input without `***` lines yields the first-pass lines, joined. */
  lemma OnlyFirstPassWithoutColumns(md: string)
    requires forall l :: l in SplitLinesKeepEnds(md) ==> l != "***\n"
    ensures var r := SplitLinesKeepEnds(md); Convert(md) == Success(Concat(FirstPass(r, |r|)))
  {
    var r := SplitLinesKeepEnds(md);
    var P := FirstPass(r, |r|);
    FirstPassLines(r, |r|);
    assert forall t :: 0 <= t < |P| ==> P[t] != "***\n" by {
      forall t | 0 <= t < |P| ensures P[t] != "***\n" {
        assert P[t] in P;
      }
    }
    SecondPassIdentity(P, |P|);
    assert P[..|P|] == P;
  }

  /** One iteration emits no `***` line. */
  lemma ColumnStepNoRule(P: seq<string>, i: nat, st: Cols)
    requires i < |P|
    requires forall l :: l in st.out ==> l != "***\n"
    requires ColumnStep(P, i, st).Success?
    ensures forall l :: l in ColumnStep(P, i, st).value.out ==> l != "***\n"
  {
    if P[i] == "***\n" {
      var kept := st.out[..|st.out| - Pops(P, i)];
      assert forall l :: l in kept ==> l in st.out;
      KeptSpec(P[LastStop(P, i) + 1..i + 1]);
      var out := kept + Opening + Before(P, i) + Middle;
      assert forall l :: l in out ==> l in kept || l in Opening || l in Before(P, i) || l in Middle;
    } else {
      var out := st.out + [P[i]] + (if st.tail == 0 then Closing else []);
      assert forall l :: l in out ==> l in st.out || l == P[i] || l in Closing;
    }
  }

  /** No `***` line is ever emitted. */
  lemma {:induction false} NoRuleEmitted(P: seq<string>, n: nat)
    requires n <= |P|
    requires SecondPass(P, n).Success?
    ensures forall l :: l in SecondPass(P, n).value.out ==> l != "***\n"
  {
    hide *;
    SecondPassStart(P);
    if n > 0 {
      SecondPassStep(P, n - 1);
      NoRuleEmitted(P, n - 1);
      ColumnStepNoRule(P, n - 1, SecondPass(P, n - 1).value);
    }
  }

  /** What a `***` rule collects: the lines after the nearest `## ` heading or `---` rule in
      1..i (or after index 0 when there is none), up to the rule, without other `***` rules;
      none of them is a heading or a rule, and one earlier output line is popped for each
      scanned line other than the rule itself. */
  lemma BeforeLines(P: seq<string>, i: nat)
    requires i < |P| && P[i] == "***\n"
    ensures var s := LastStop(P, i);
      && (s == 0 || IsStop(P[s]))
      && (forall t :: s < t <= i ==> !IsStop(P[t]))
      && Before(P, i) == Kept(P[s + 1..i + 1])
      && (forall l :: l in Before(P, i) ==> l != "***\n" && !IsStop(l))
      && Pops(P, i) == (if i == 0 then 0 else i - s - 1)
  {
    hide *;
    var s := LastStop(P, i);
    LastStopSpec(P, i);
    RuleIsNoStop();
    BeforeAndPops(P, i);
    KeptSpec(P[s + 1..i + 1]);
    SliceAvoidsStops(P, s, i);
  }

  lemma BeforeAndPops(P: seq<string>, i: nat)
    requires i < |P|
    ensures Before(P, i) == Kept(P[LastStop(P, i) + 1..i + 1])
    ensures Pops(P, i) == if LastStop(P, i) < i then i - LastStop(P, i) - 1 else 0
  {
    hide LastStop, Kept;
  }

  lemma SliceAvoidsStops(P: seq<string>, s: nat, i: nat)
    requires s <= i < |P|
    requires forall t :: s < t <= i ==> !IsStop(P[t])
    ensures forall l :: l in P[s + 1..i + 1] ==> !IsStop(l)
  {
    hide IsStop;
    forall l | l in P[s + 1..i + 1] ensures !IsStop(l) {
      var t :| 0 <= t < |P[s + 1..i + 1]| && P[s + 1..i + 1][t] == l;
      assert P[s + 1 + t] == l;
    }
  }

  /** A `***` rule replaces the lines it collects by the two-column fence, in this order. */
  lemma RuleFence(P: seq<string>, i: nat, st: Cols)
    requires i < |P| && P[i] == "***\n"
    requires Pops(P, i) <= |st.out|
    ensures ColumnStep(P, i, st).Success?
    ensures var out := ColumnStep(P, i, st).value.out;
      var k := |st.out| - Pops(P, i);
      && out[..k] == st.out[..k]
      && out[k..k + 3] == ["\n", "::: {.columns}\n", "::: {.column}\n"]
      && out[k + 3..|out| - 2] == Before(P, i)
      && out[|out| - 2..] == [":::\n", "::: {.column}\n"]
  {
  }

  /** A line `a` followed by eleven `***` rules. */
  const CrashLines: seq<string> := ["a\n"] + seq(11, _ => "***\n")

  lemma {:induction false} CrashLinesScan(j: nat)
    requires j < |CrashLines|
    ensures LastStop(CrashLines, j) == 0
    ensures Kept(CrashLines[1..j + 1]) == []
  {
    assert !IsH2("***\n");
    if j > 0 {
      CrashLinesScan(j - 1);
      assert CrashLines[1..j + 1] == CrashLines[1..j] + ["***\n"];
      KeptAppendRule(CrashLines[1..j]);
    }
  }

  lemma {:induction false} KeptAppendRule(ls: seq<string>)
    ensures Kept(ls + ["***\n"]) == Kept(ls)
  {
    if ls == [] {
      assert ls + ["***\n"] == ["***\n"];
    } else {
      assert (ls + ["***\n"])[1..] == ls[1..] + ["***\n"];
      KeptAppendRule(ls[1..]);
    }
  }

  /** Length of `column_separated` after the first n crash lines, n = 1 .. 11. */
  const CrashSizes: seq<nat> := [0, 1, 6, 10, 13, 15, 16, 16, 15, 13, 10, 6]

  lemma CrashStep(n: nat)
    requires 1 <= n < 11
    requires SecondPass(CrashLines, n).Success? && |SecondPass(CrashLines, n).value.out| == CrashSizes[n]
    ensures SecondPass(CrashLines, n + 1).Success? && |SecondPass(CrashLines, n + 1).value.out| == CrashSizes[n + 1]
  {
    var st := SecondPass(CrashLines, n).value;
    CrashLinesScan(n);
    SecondPassStep(CrashLines, n);
    CrashSizesStep(n);
    assert CrashLines[n] == "***\n";
    hide *;
    RuleStepSize(CrashLines, n, st);
  }

  /** Each rule of the crash lines after the first adds six lines and pops one more. */
  lemma CrashSizesStep(n: nat)
    requires 1 <= n < 11
    ensures CrashSizes[n + 1] == CrashSizes[n] + 6 - n
  {
  }

  /** The size of the output after a `***` rule whose scan stops at index 0 and keeps
      nothing. */
  lemma RuleStepSize(P: seq<string>, i: nat, st: Cols)
    requires 0 < i < |P| && P[i] == "***\n" && LastStop(P, i) == 0 && Kept(P[1..i + 1]) == []
    ensures Pops(P, i) == i - 1
    ensures i - 1 <= |st.out| ==> ColumnStep(P, i, st).Success? && |ColumnStep(P, i, st).value.out| == |st.out| - (i - 1) + 5
    ensures i - 1 > |st.out| ==> ColumnStep(P, i, st) == Failure(PopFromEmpty)
  {
    hide LastStop, Kept, TailAfter, IsH2;
  }

  /** Eleven `***` rules after one line pop more lines than were ever emitted: the
      eleventh rule scans ten earlier rules back to index 0 and pops ten times, while only
      six lines are left, so the conversion raises IndexError. */
  lemma PopFromEmptyCrash(md: string)
    requires SplitLinesKeepEnds(md) == CrashLines
    ensures Convert(md) == Failure(PopFromEmpty)
  {
    var P := CrashLines;
    FirstPassIdentity(P, |P|);
    assert P[..|P|] == P;
    CrashLast();
    hide SecondPass, FirstPass;
  }

  /** The first line is copied. */
  lemma CrashFirstLine()
    ensures SecondPass(CrashLines, 1) == Success(Cols(["a\n"], -2))
  {
    var P := CrashLines;
    assert P[0] == "a\n" != "***\n";
    assert [] + [P[0]] + [] == ["a\n"];
  }

  /** The ten rules before the last leave six lines. */
  lemma CrashTenRules()
    ensures SecondPass(CrashLines, 11).Success? && |SecondPass(CrashLines, 11).value.out| == CrashSizes[11]
  {
    CrashFirstLine();
    assert |CrashLines| == 12 && |CrashSizes| == 12 && CrashSizes[1] == |["a\n"]|;
    hide *;
    var n := 1;
    while n < 11
      invariant 1 <= n <= 11
      invariant SecondPass(CrashLines, n).Success? && |SecondPass(CrashLines, n).value.out| == CrashSizes[n]
    {
      CrashStep(n);
      n := n + 1;
    }
  }

  /** The eleventh rule pops ten lines of six. */
  lemma CrashLast()
    ensures SecondPass(CrashLines, 12) == Failure(PopFromEmpty)
  {
    CrashTenRules();
    CrashLinesScan(11);
    SecondPassStep(CrashLines, 11);
    assert CrashLines[11] == "***\n" && |CrashLines| == 12 && CrashSizes[11] == 6;
    hide *;
    RuleStepSize(CrashLines, 11, SecondPass(CrashLines, 11).value);
  }
}
