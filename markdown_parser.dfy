/** The line classifier of markdown_parser.py: every line of the text becomes a typed
    record, lines inside a `---` ... `---` block are dropped, and unclassified lines are
    collected in a module-level list. */
module MarkdownParser {
  import opened Wrappers
  import opened Strings

  datatype LineKind =
    | Heading(level: nat)
    | ListItem
    | OrderedListItem
    | Image
    | Link
    | HorizontalLine
    | HorizontalLineAsterisks
    | BlankLine
    | Paragraph

  /** `{'type': ..., 'content': ..., 'raw': ...}` */
  datatype Record = Record(kind: LineKind, content: string, raw: string)

  // ---------------------------------------------------------------------------
  // The line patterns.

  /** `re.match(r'^\s*-\s+', line)`: the rest of the line after the match, if it matches. */
  function BulletRest(line: string): Option<string> {
    var t := LStrip(line);
    if |t| >= 2 && t[0] == '-' && IsSpace(t[1]) then Some(LStrip(t[1..])) else None
  }

  /** Number of leading ASCII digits of `s` from `i` on. */
  function DigitsFrom(s: string, i: nat): (k: nat)
    requires i <= |s|
    ensures i <= k <= |s|
    ensures forall t :: i <= t < k ==> IsDigit(s[t])
    ensures k < |s| ==> !IsDigit(s[k])
    decreases |s| - i
  {
    if i < |s| && IsDigit(s[i]) then DigitsFrom(s, i + 1) else i
  }

  /** `re.match(r'^\s*\d+\.\s+', line)`: the rest of the line after the match, if it matches. */
  function OrderedRest(line: string): Option<string> {
    var t := LStrip(line);
    var d := DigitsFrom(t, 0);
    if 0 < d && d + 1 < |t| && t[d] == '.' && IsSpace(t[d + 1]) then Some(LStrip(t[d + 1..])) else None
  }

  /** The largest p in lo..hi with `]` at p and `(` at p + 1. */
  function LastBracketParen(s: string, lo: nat, hi: int): (p: Option<nat>)
    requires hi + 1 < |s|
    ensures p.Some? ==> lo <= p.value <= hi && s[p.value] == ']' && s[p.value + 1] == '('
    ensures p.Some? ==> forall q :: p.value < q <= hi ==> !(s[q] == ']' && s[q + 1] == '(')
    ensures p.None? ==> forall q :: lo <= q <= hi ==> !(s[q] == ']' && s[q + 1] == '(')
    decreases hi + 1
  {
    if hi < lo then None
    else if s[hi] == ']' && s[hi + 1] == '(' then Some(hi)
    else LastBracketParen(s, lo, hi - 1)
  }

  /** `re.match(prefix + r'.*\]\((.*)\)$', line).group(1)`: `.` stops at '\n', and the
      greedy first `.*` makes the group start after the LAST `](` of the line. */
  function Target(line: string, prefix: string): Option<string> {
    if StartsWith(line, prefix) && |line| >= |prefix| + 3 && line[|line| - 1] == ')'
      && (forall k :: 0 <= k < |line| ==> line[k] != '\n')
    then
      match LastBracketParen(line, |prefix|, |line| - 3)
      case Some(p) => Some(line[p + 2..|line| - 1])
      case None => None
    else None
  }

  /** `re.match(r'^ccc+$', line)` for a character c: three or more c and nothing else. */
  predicate IsRule(line: string, c: char) {
    |line| >= 3 && forall k :: 0 <= k < |line| ==> line[k] == c
  }

  /** The `# ` ... `###### ` tests: the heading level, or 0 when none matches. */
  function HeadingLevel(l: string): (k: nat)
    ensures k <= 6
  {
    if StartsWith(l, "# ") then 1
    else if StartsWith(l, "## ") then 2
    else if StartsWith(l, "### ") then 3
    else if StartsWith(l, "#### ") then 4
    else if StartsWith(l, "##### ") then 5
    else if StartsWith(l, "###### ") then 6
    else 0
  }

  /** The tests after the headings, on the right-stripped line. */
  function ClassifyRest(l: string): (r: Record)
    ensures r.raw == l && !r.kind.Heading?
    ensures r.kind == Paragraph ==> r.content == l
    ensures r.kind == BlankLine ==> l == "" && r.content == ""
  {
    if BulletRest(l).Some? then Record(ListItem, Strip(BulletRest(l).value), l)
    else if OrderedRest(l).Some? then Record(OrderedListItem, Strip(OrderedRest(l).value), l)
    else if Target(l, "![").Some? then Record(Image, Target(l, "![").value, l)
    else if Target(l, "[").Some? then Record(Link, Target(l, "[").value, l)
    else if IsRule(l, '-') then Record(HorizontalLine, "", l)
    else if IsRule(l, '*') then Record(HorizontalLineAsterisks, "", l)
    else if l == "" then Record(BlankLine, "", l)
    else Record(Paragraph, l, l)
  }

  /** `parse_markdown_line(line)` without the append to the unidentified lines; a level-k
      heading prefix is k + 1 characters long. */
  function Classify(line: string): (r: Record)
    ensures r.raw == RStrip(line)
    ensures r.kind == Paragraph ==> r.content == r.raw
    ensures r.kind.Heading? ==> 1 <= r.kind.level <= 6
  {
    var l := RStrip(line);
    var h := HeadingLevel(l);
    if h != 0 then Record(Heading(h), Strip(l[h + 1..]), l) else ClassifyRest(l)
  }

  // ---------------------------------------------------------------------------
  // `parse_markdown`: the `---` toggle.

  /** Number of lines exactly equal to `---`. */
  function Toggles(lines: seq<string>): nat {
    if lines == [] then 0 else Toggles(lines[..|lines| - 1]) + (if lines[|lines| - 1] == "---" then 1 else 0)
  }

  /** `skip_yaml_frontmatter` after `lines`: each `---` line flips it. */
  function Skipping(lines: seq<string>): bool {
    if lines == [] then false else Skipping(lines[..|lines| - 1]) != (lines[|lines| - 1] == "---")
  }

  /** The lines `parse_markdown` keeps: not `---`, and not inside an open `---` block. */
  function KeptLines(lines: seq<string>): seq<string> {
    if lines == [] then []
    else
      var init := lines[..|lines| - 1];
      var last := lines[|lines| - 1];
      KeptLines(init) + (if last == "---" || Skipping(init) then [] else [last])
  }

  function Records(lines: seq<string>): (rs: seq<Record>)
    ensures |rs| == |lines|
  {
    seq(|lines|, i requires 0 <= i < |lines| => Classify(lines[i]))
  }

  /** The raw text of the paragraph records, in order. */
  function Paragraphs(rs: seq<Record>): seq<string> {
    if rs == [] then []
    else Paragraphs(rs[..|rs| - 1]) + (if rs[|rs| - 1].kind == Paragraph then [rs[|rs| - 1].raw] else [])
  }

  /** `parse_markdown(markdown)` */
  function ParseMarkdown(markdown: string): seq<Record> {
    Records(KeptLines(SplitLines(markdown)))
  }

  lemma KeptStep(lines: seq<string>, i: nat)
    requires i < |lines|
    ensures var init := lines[..i];
      && Skipping(lines[..i + 1]) == (Skipping(init) != (lines[i] == "---"))
      && KeptLines(lines[..i + 1])
         == KeptLines(init) + (if lines[i] == "---" || Skipping(init) then [] else [lines[i]])
  {
    assert lines[..i + 1][..i] == lines[..i];
  }

  lemma SnocRecords(ls: seq<string>, l: string)
    ensures Records(ls + [l]) == Records(ls) + [Classify(l)]
  {
    hide Classify;
  }

  /** One line of `parse_markdown`: a kept line adds its record, any other adds none. */
  lemma RecordsStep(lines: seq<string>, i: nat)
    requires i < |lines|
    ensures Skipping(lines[..i + 1]) == (Skipping(lines[..i]) != (lines[i] == "---"))
    ensures Records(KeptLines(lines[..i + 1]))
      == Records(KeptLines(lines[..i])) + (if lines[i] == "---" || Skipping(lines[..i]) then [] else [Classify(lines[i])])
  {
    KeptStep(lines, i);
    if !(lines[i] == "---" || Skipping(lines[..i])) {
      SnocRecords(KeptLines(lines[..i]), lines[i]);
    } else {
      assert KeptLines(lines[..i + 1]) == KeptLines(lines[..i]);
    }
  }

  lemma SnocParagraphs(rs: seq<Record>, r: Record)
    ensures Paragraphs(rs + [r]) == Paragraphs(rs) + (if r.kind == Paragraph then [r.raw] else [])
  {
    assert (rs + [r])[..|rs|] == rs;
  }

  /** Before the first line nothing is skipped, recorded or collected; the result is the
      records of the kept lines. */
  lemma ParseStart(markdown: string)
    ensures var lines := SplitLines(markdown);
      && !Skipping(lines[..0]) && Records(KeptLines(lines[..0])) == [] && Paragraphs([]) == []
      && ParseMarkdown(markdown) == Records(KeptLines(lines))
  {
    assert SplitLines(markdown)[..0] == [];
  }

  /** The module-level `unidentified_lines` list and the two functions that use it. */
  class Parser {
    var unidentifiedLines: seq<string>

    constructor()
      ensures unidentifiedLines == []
    {
      unidentifiedLines := [];
    }

    /** `parse_markdown_line(line)` */
    method ParseMarkdownLine(line: string) returns (rec: Record)
      modifies this
      ensures rec == Classify(line)
      ensures unidentifiedLines == old(unidentifiedLines) + (if rec.kind == Paragraph then [RStrip(line)] else [])
    {
      rec := Classify(line);
      if rec.kind == Paragraph {
        unidentifiedLines := unidentifiedLines + [rec.raw];
      }
    }

    /** `parse_markdown(markdown)` */
    method ParseMarkdownText(markdown: string) returns (parsedLines: seq<Record>)
      modifies this
      ensures parsedLines == ParseMarkdown(markdown)
      ensures unidentifiedLines == old(unidentifiedLines) + Paragraphs(parsedLines)
    {
      var lines := SplitLines(markdown);
      ParseStart(markdown);
      hide *;
      parsedLines := [];
      var skipYamlFrontmatter := false;
      var i := 0;
      while i < |lines|
        invariant 0 <= i <= |lines|
        invariant skipYamlFrontmatter == Skipping(lines[..i])
        invariant parsedLines == Records(KeptLines(lines[..i]))
        invariant unidentifiedLines == old(unidentifiedLines) + Paragraphs(parsedLines)
      {
        var line := lines[i];
        RecordsStep(lines, i);
        if line == "---" && !skipYamlFrontmatter {
          skipYamlFrontmatter := true;
        } else if line == "---" && skipYamlFrontmatter {
          skipYamlFrontmatter := false;
        } else if !skipYamlFrontmatter {
          var rec := ParseMarkdownLine(line);
          SnocParagraphs(parsedLines, rec);
          parsedLines := parsedLines + [rec];
        }
        i := i + 1;
      }
      assert lines[..i] == lines;
    }
  }

  // ---------------------------------------------------------------------------
  // Properties.

  /** Number of leading `#` characters of `s` from `i` on. */
  function Hashes(s: string, i: nat): (k: nat)
    requires i <= |s|
    ensures i <= k <= |s|
    ensures forall t :: i <= t < k ==> s[t] == '#'
    ensures k < |s| ==> s[k] != '#'
    decreases |s| - i
  {
    if i < |s| && s[i] == '#' then Hashes(s, i + 1) else i
  }

  /** `l` starts with k `#` characters and a space exactly when its run of leading `#`
      has length k and a space follows it. */
  lemma HashPrefix(l: string, k: nat)
    ensures StartsWith(l, Repeat('#', k) + " ") <==> (Hashes(l, 0) == k && k < |l| && l[k] == ' ')
  {
    var p := Repeat('#', k) + " ";
    var n := Hashes(l, 0);
    assert |p| == k + 1 && p[k] == ' ' && forall t :: 0 <= t < k ==> p[t] == '#';
    if n == k && k < |l| && l[k] == ' ' {
      assert l[..k + 1] == p;
    } else if StartsWith(l, p) {
      assert forall t :: 0 <= t <= k ==> l[t] == l[..k + 1][t] == p[t];
    }
  }

  lemma HeadingPrefixes()
    ensures Repeat('#', 1) + " " == "# " && Repeat('#', 2) + " " == "## "
    ensures Repeat('#', 3) + " " == "### " && Repeat('#', 4) + " " == "#### "
    ensures Repeat('#', 5) + " " == "##### " && Repeat('#', 6) + " " == "###### "
  {
    assert Repeat('#', 1) + " " == "# ";
    assert Repeat('#', 2) + " " == "## ";
    assert Repeat('#', 3) + " " == "### ";
    assert Repeat('#', 4) + " " == "#### ";
    assert Repeat('#', 5) + " " == "##### ";
    assert Repeat('#', 6) + " " == "###### ";
  }

  /** The six prefix tests amount to: one to six `#` characters, then a space. */
  lemma HeadingLevelIsHashRun(l: string)
    ensures var n := Hashes(l, 0);
      HeadingLevel(l) == (if 1 <= n <= 6 && n < |l| && l[n] == ' ' then n else 0)
  {
    HeadingPrefixes();
    HashPrefix(l, 1);
    HashPrefix(l, 2);
    HashPrefix(l, 3);
    HashPrefix(l, 4);
    HashPrefix(l, 5);
    HashPrefix(l, 6);
  }

  /** A line that does not start with `#` is no heading. */
  lemma NoHeading(l: string)
    requires l == [] || l[0] != '#'
    ensures HeadingLevel(l) == 0
  {
    HeadingLevelIsHashRun(l);
  }

  /** A pattern anchored at a literal first character fails on a line that starts otherwise. */
  lemma NoTarget(l: string, prefix: string)
    requires prefix != [] && (l == [] || l[0] != prefix[0])
    ensures Target(l, prefix) == None
  {
  }

  lemma NoDigits(l: string)
    requires l == [] || (!IsSpace(l[0]) && !IsDigit(l[0]))
    ensures OrderedRest(l) == None
  {
  }

  /** A line whose ends are not white space is its own right and left strip. */
  lemma Unstripped(l: string)
    requires l != [] && !IsSpace(l[0]) && !IsSpace(l[|l| - 1])
    ensures RStrip(l) == l && LStrip(l) == l && Strip(l) == l
  {
  }

  /** Three or more dashes, or three or more asterisks, are the two horizontal rules. */
  lemma Rules(line: string, c: char)
    requires IsRule(line, c) && (c == '-' || c == '*')
    ensures Classify(line) == Record(if c == '-' then HorizontalLine else HorizontalLineAsterisks, "", line)
  {
    hide OrderedRest;
    assert line[0] == c && line[1] == c && line[|line| - 1] == c;
    Unstripped(line);
    NoHeading(line);
    NoDigits(line);
    NoTarget(line, "![");
    NoTarget(line, "[");
    assert BulletRest(line) == None;
    assert !IsRule(line, '-') || c == '-';
  }

  /** Spaces, a dash, a space, then text that starts and ends with a non-space character
      parse as a bullet whose content is that text. */
  lemma BulletItems(indent: string, text: string)
    requires forall k :: 0 <= k < |indent| ==> indent[k] == ' '
    requires text != [] && !IsSpace(text[0]) && !IsSpace(text[|text| - 1])
    ensures Classify(indent + "- " + text) == Record(ListItem, text, indent + "- " + text)
  {
    hide OrderedRest;
    var line := indent + "- " + text;
    BulletRestOf(indent, text);
    Unstripped(text);
    assert line[0] == ' ' || line[0] == '-';
    NoHeading(line);
  }

  lemma BulletRestOf(indent: string, text: string)
    requires forall k :: 0 <= k < |indent| ==> indent[k] == ' '
    requires text != [] && !IsSpace(text[0]) && !IsSpace(text[|text| - 1])
    ensures RStrip(indent + "- " + text) == indent + "- " + text
    ensures BulletRest(indent + "- " + text) == Some(text)
  {
    var rest := "- " + text;
    var line := indent + rest;
    assert indent + "- " + text == line;
    assert line[|line| - 1] == text[|text| - 1];
    KeepsTrailing(line);
    LStripSpaces(indent, rest);
    DashSpaceRest(text);
  }

  lemma DashSpaceRest(text: string)
    requires text != [] && !IsSpace(text[0])
    ensures ("- " + text)[0] == '-' && IsSpace(("- " + text)[1])
    ensures LStrip(("- " + text)[1..]) == text
  {
    assert ("- " + text)[1..] == [' '] + text;
    LStripSpace(' ', text);
  }

  lemma KeepsTrailing(l: string)
    requires l != [] && !IsSpace(l[|l| - 1])
    ensures RStrip(l) == l
  {
  }

  lemma {:induction false} LStripSpace(c: char, t: string)
    requires IsSpace(c)
    ensures LStrip([c] + t) == LStrip(t)
  {
    var s := [c] + t;
    assert s != [] && s[0] == c && s[1..] == t;
  }

  lemma {:induction false} LStripSpaces(indent: string, rest: string)
    requires forall k :: 0 <= k < |indent| ==> indent[k] == ' '
    requires rest != [] && !IsSpace(rest[0])
    ensures LStrip(indent + rest) == rest
  {
    if indent != [] {
      assert (indent + rest)[0] == ' ';
      assert (indent + rest)[1..] == indent[1..] + rest;
      LStripSpaces(indent[1..], rest);
    } else {
      assert indent + rest == rest;
    }
  }

  /** `![alt](url)` is an image whose content is the url, provided neither part holds a
      newline and the url holds no `](`. */
  lemma ImageUrls(alt: string, url: string)
    requires forall k :: 0 <= k < |alt| ==> alt[k] != '\n'
    requires forall k :: 0 <= k < |url| ==> url[k] != '\n'
    requires forall q :: 0 <= q < |url| - 1 ==> !(url[q] == ']' && url[q + 1] == '(')
    ensures var line := "![" + alt + "](" + url + ")";
      Classify(line) == Record(Image, url, line)
  {
    hide OrderedRest, Target;
    var line := "![" + alt + "](" + url + ")";
    ImageTarget(alt, url);
    BracketLineChars("![", alt, url);
    assert line[0] == '!' && line[|line| - 1] == ')';
    Unstripped(line);
    NoHeading(line);
    NoDigits(line);
    assert BulletRest(line) == None;
  }

  lemma ImageTarget(alt: string, url: string)
    requires forall k :: 0 <= k < |alt| ==> alt[k] != '\n'
    requires forall k :: 0 <= k < |url| ==> url[k] != '\n'
    requires forall q :: 0 <= q < |url| - 1 ==> !(url[q] == ']' && url[q + 1] == '(')
    ensures Target("![" + alt + "](" + url + ")", "![") == Some(url)
  {
    BracketTarget("![", alt, url);
  }

  /** `[text](url)` is a link whose content is the url, under the same conditions as an
      image: the last `](` of the line opens the url. */
  lemma LinkUrls(text: string, url: string)
    requires forall k :: 0 <= k < |text| ==> text[k] != '\n'
    requires forall k :: 0 <= k < |url| ==> url[k] != '\n'
    requires forall q :: 0 <= q < |url| - 1 ==> !(url[q] == ']' && url[q + 1] == '(')
    ensures var line := "[" + text + "](" + url + ")";
      Classify(line) == Record(Link, url, line)
  {
    hide OrderedRest, Target;
    var line := "[" + text + "](" + url + ")";
    BracketTarget("[", text, url);
    BracketLineChars("[", text, url);
    assert line[0] == '[' && line[|line| - 1] == ')';
    Unstripped(line);
    NoHeading(line);
    NoDigits(line);
    NoTarget(line, "![");
    assert BulletRest(line) == None;
  }

  /** The group of `pre` + `alt` + `](` + `url` + `)` is the url, for the image and the link
      openings. */
  lemma BracketTarget(pre: string, alt: string, url: string)
    requires pre == "![" || pre == "["
    requires forall k :: 0 <= k < |alt| ==> alt[k] != '\n'
    requires forall k :: 0 <= k < |url| ==> url[k] != '\n'
    requires forall q :: 0 <= q < |url| - 1 ==> !(url[q] == ']' && url[q + 1] == '(')
    ensures Target(pre + alt + "](" + url + ")", pre) == Some(url)
  {
    var line := pre + alt + "](" + url + ")";
    var p := |pre| + |alt|;
    BracketLineChars(pre, alt, url);
    hide LastBracketParen;
    BracketNoLaterBracket(pre, alt, url);
    LastBracketParenFinds(line, |pre|, |line| - 3, p);
    assert forall k :: 0 <= k < |pre| ==> pre[k] != '\n';
    BracketNoNewline(pre, alt, url);
  }

  lemma BracketNoLaterBracket(pre: string, alt: string, url: string)
    requires forall q :: 0 <= q < |url| - 1 ==> !(url[q] == ']' && url[q + 1] == '(')
    ensures var line := pre + alt + "](" + url + ")"; var p := |pre| + |alt|;
      forall q :: p < q <= |line| - 3 ==> !(line[q] == ']' && line[q + 1] == '(')
  {
    var line := pre + alt + "](" + url + ")";
    var p := |pre| + |alt|;
    BracketLineChars(pre, alt, url);
    forall q | p < q <= |line| - 3 ensures !(line[q] == ']' && line[q + 1] == '(') {
      if q > p + 1 {
        assert line[q] == url[q - p - 2];
      }
    }
  }

  lemma BracketNoNewline(pre: string, alt: string, url: string)
    requires forall k :: 0 <= k < |pre| ==> pre[k] != '\n'
    requires forall k :: 0 <= k < |alt| ==> alt[k] != '\n'
    requires forall k :: 0 <= k < |url| ==> url[k] != '\n'
    ensures var line := pre + alt + "](" + url + ")";
      forall k :: 0 <= k < |line| ==> line[k] != '\n'
  {
    var mid := "](";
    var close := ")";
    assert forall k :: 0 <= k < |mid| ==> mid[k] != '\n';
    assert forall k :: 0 <= k < |close| ==> close[k] != '\n';
    hide *;
    NoNewlineConcat(pre, alt);
    NoNewlineConcat(pre + alt, mid);
    NoNewlineConcat(pre + alt + mid, url);
    NoNewlineConcat(pre + alt + mid + url, close);
  }

  lemma NoNewlineConcat(a: string, b: string)
    requires forall k :: 0 <= k < |a| ==> a[k] != '\n'
    requires forall k :: 0 <= k < |b| ==> b[k] != '\n'
    ensures forall k :: 0 <= k < |a + b| ==> (a + b)[k] != '\n'
  {
    forall k | 0 <= k < |a + b| ensures (a + b)[k] != '\n' {
      if k >= |a| {
        assert (a + b)[k] == b[k - |a|];
      }
    }
  }

  /** Where the parts of `pre` + `alt` + `](` + `url` + `)` sit. */
  lemma BracketLineChars(pre: string, alt: string, url: string)
    ensures var line := pre + alt + "](" + url + ")"; var p := |pre| + |alt|;
      && |line| == p + |url| + 3 && line[..|pre|] == pre && StartsWith(line, pre)
      && (pre != [] ==> line[0] == pre[0]) && line[p] == ']' && line[p + 1] == '(' && line[|line| - 1] == ')'
      && (forall k :: 0 <= k < |pre| ==> line[k] == pre[k])
      && (forall k :: 0 <= k < |alt| ==> line[k + |pre|] == alt[k])
      && (forall k :: 0 <= k < |url| ==> line[p + 2 + k] == url[k])
      && line[p + 2..|line| - 1] == url
  {
    var line := pre + alt + "](" + url + ")";
    var p := |pre| + |alt|;
    assert line == pre + alt + "](" + url + ")";
    assert line[..|pre|] == pre;
    assert forall k :: 0 <= k < |url| ==> line[p + 2 + k] == url[k];
    assert line[p + 2..|line| - 1] == url;
  }

  lemma {:induction false} LastBracketParenFinds(s: string, lo: nat, hi: int, p: nat)
    requires hi + 1 < |s|
    requires lo <= p <= hi && s[p] == ']' && s[p + 1] == '('
    requires forall q :: p < q <= hi ==> !(s[q] == ']' && s[q + 1] == '(')
    ensures LastBracketParen(s, lo, hi) == Some(p)
    decreases hi + 1
  {
    if hi != p {
      LastBracketParenFinds(s, lo, hi - 1, p);
    }
  }

  /** A line that is empty after right-stripping, and only such a line, is a blank line
      with empty content. */
  lemma BlankLines(line: string)
    ensures Classify(line).kind == BlankLine <==> RStrip(line) == ""
    ensures Classify(line).kind == BlankLine ==> Classify(line).content == ""
  {
    hide ClassifyRest;
    if RStrip(line) == "" {
      NoHeading("");
      EmptyRest();
    }
  }

  lemma EmptyRest()
    ensures ClassifyRest("") == Record(BlankLine, "", "")
  {
    hide OrderedRest;
    NoDigits("");
    NoTarget("", "![");
    NoTarget("", "[");
  }

  /** A paragraph is exactly a non-empty line that no earlier test matched, and its content
      is the right-stripped line. */
  lemma ParagraphMatchesNothing(line: string)
    ensures var l := RStrip(line);
      Classify(line).kind == Paragraph <==>
        (&& l != "" && HeadingLevel(l) == 0 && BulletRest(l).None? && OrderedRest(l).None?
         && Target(l, "![").None? && Target(l, "[").None? && !IsRule(l, '-') && !IsRule(l, '*'))
    ensures Classify(line).kind == Paragraph ==> Classify(line) == Record(Paragraph, RStrip(line), RStrip(line))
  {
  }

  /** The skip flag is the parity of the `---` lines seen so far. */
  lemma {:induction false} SkippingIsParity(lines: seq<string>)
    ensures Skipping(lines) <==> Toggles(lines) % 2 == 1
  {
    if lines != [] {
      SkippingIsParity(lines[..|lines| - 1]);
    }
  }

  /** Kept lines are input lines other than `---`, in order; without `---` lines every
      line is kept. */
  lemma {:induction false} KeptLinesSpec(lines: seq<string>)
    ensures |KeptLines(lines)| <= |lines|
    ensures forall l :: l in KeptLines(lines) ==> l in lines && l != "---"
    ensures (forall t :: 0 <= t < |lines| ==> lines[t] != "---") ==> KeptLines(lines) == lines && !Skipping(lines)
  {
    KeptLinesFrom(lines);
    if forall t :: 0 <= t < |lines| ==> lines[t] != "---" {
      KeptWithoutFences(lines);
    }
  }

  lemma {:induction false} KeptLinesFrom(lines: seq<string>)
    ensures |KeptLines(lines)| <= |lines|
    ensures forall l :: l in KeptLines(lines) ==> l in lines && l != "---"
  {
    if lines != [] {
      var init := lines[..|lines| - 1];
      KeptLinesFrom(init);
      assert lines == init + [lines[|lines| - 1]];
      assert forall l :: l in init ==> l in lines;
    }
  }

  lemma {:induction false} KeptWithoutFences(lines: seq<string>)
    requires forall t :: 0 <= t < |lines| ==> lines[t] != "---"
    ensures KeptLines(lines) == lines && !Skipping(lines)
  {
    if lines != [] {
      var init := lines[..|lines| - 1];
      assert forall t :: 0 <= t < |init| ==> init[t] == lines[t];
      KeptWithoutFences(init);
      assert lines == init + [lines[|lines| - 1]];
    }
  }

  /** A line other than `---` is kept exactly when an even number of `---` lines precede it. */
  lemma LineKept(lines: seq<string>, i: nat)
    requires i < |lines| && lines[i] != "---"
    ensures KeptLines(lines[..i + 1]) == KeptLines(lines[..i]) + [lines[i]] <==> Toggles(lines[..i]) % 2 == 0
    ensures Toggles(lines[..i]) % 2 == 1 ==> KeptLines(lines[..i + 1]) == KeptLines(lines[..i])
  {
    KeptStep(lines, i);
    SkippingIsParity(lines[..i]);
    var kept := KeptLines(lines[..i]);
    assert |kept + [lines[i]]| != |kept|;
  }

  /** One record per line of the text when it holds no `---` line. */
  lemma OneRecordPerLine(markdown: string)
    requires forall l :: l in SplitLines(markdown) ==> l != "---"
    ensures ParseMarkdown(markdown) == Records(SplitLines(markdown))
    ensures |ParseMarkdown(markdown)| == |SplitLines(markdown)|
  {
    var lines := SplitLines(markdown);
    assert forall t :: 0 <= t < |lines| ==> lines[t] != "---" by {
      forall t | 0 <= t < |lines| ensures lines[t] != "---" {
        assert lines[t] in lines;
      }
    }
    KeptLinesSpec(lines);
  }
}
