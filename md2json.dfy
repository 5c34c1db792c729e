/** md2json.py: the frontmatter split, the output dictionary and the export file name. The
    YAML loader and the mistune tokenizer are parameters. */
module Md2Json {
  import opened Wrappers
  import opened Frontmatter
  import Json

  datatype YamlOutcome = Loaded(value: Json.Json) | YamlError

  /** `extract_frontmatter(markdown_text)`: `yaml.safe_load(fm_text) or {}`, and the block
      removed whenever the pattern matches. */
  function ExtractFrontmatter(markdownText: string, load: string -> YamlOutcome): (Json.Json, string) {
    match MatchFrontmatter(markdownText, false)
    case None => (Json.JObject(map[]), markdownText)
    case Some(m) =>
      var frontmatter :=
        match load(markdownText[m.groupStart..m.groupEnd])
        case Loaded(v) => if Json.Truthy(v) then v else Json.JObject(map[])
        case YamlError => Json.JObject(map[]);
      (frontmatter, markdownText[m.end..])
  }

  /** Without a match the text is kept whole; with one the block goes even when YAML fails,
      and a falsy document (null, empty) gives `{}`, so the frontmatter is always truthy or
      `{}`. */
  lemma ExtractFrontmatterCases(markdownText: string, load: string -> YamlOutcome)
    ensures MatchFrontmatter(markdownText, false).None? ==>
      ExtractFrontmatter(markdownText, load) == (Json.JObject(map[]), markdownText)
    ensures MatchFrontmatter(markdownText, false).Some? ==>
      var m := MatchFrontmatter(markdownText, false).value;
      ExtractFrontmatter(markdownText, load).1 == markdownText[m.end..]
      && markdownText == markdownText[..m.end] + ExtractFrontmatter(markdownText, load).1
      && (load(markdownText[m.groupStart..m.groupEnd]).YamlError? ==> ExtractFrontmatter(markdownText, load).0 == Json.JObject(map[]))
    ensures var fm := ExtractFrontmatter(markdownText, load).0; Json.Truthy(fm) || fm == Json.JObject(map[])
  {
    if MatchFrontmatter(markdownText, false).Some? {
      MatchShape(markdownText, false);
    }
  }

  /** The block is only recognised at the very start of the text. */
  lemma FrontmatterOnlyAtStart(markdownText: string, load: string -> YamlOutcome)
    requires !Strings.StartsWith(markdownText, "---")
    ensures ExtractFrontmatter(markdownText, load) == (Json.JObject(map[]), markdownText)
  {
    StrictNeedsDashesFirst(markdownText);
  }

  /** The dictionary `main` prints or exports; `analyze` stands for the tokenizer. */
  function Output(mdContent: string, load: string -> YamlOutcome, analyze: string -> Json.Json): map<string, Json.Json> {
    var (frontmatter, remainingText) := ExtractFrontmatter(mdContent, load);
    map["frontmatter" := frontmatter, "tokens" := analyze(remainingText)]
  }

  lemma OutputShape(mdContent: string, load: string -> YamlOutcome, analyze: string -> Json.Json)
    ensures Output(mdContent, load, analyze).Keys == {"frontmatter", "tokens"}
    ensures Output(mdContent, load, analyze)["tokens"] == analyze(ExtractFrontmatter(mdContent, load).1)
    ensures Output(mdContent, load, analyze)["frontmatter"] == ExtractFrontmatter(mdContent, load).0
  {}

  // ---------------------------------------------------------------------------
  // The export name (lines 68-73).

  /** The last index of `c` in `p`, or -1 (`str.rfind`). */
  function RFind(p: string, c: char): (i: int)
    ensures -1 <= i < |p|
    ensures i >= 0 ==> p[i] == c
    ensures forall k :: i < k < |p| ==> p[k] != c
  {
    if p == [] then -1 else if p[|p| - 1] == c then |p| - 1 else RFind(p[..|p| - 1], c)
  }

  /** Whether `p[from..to]` holds a character other than a dot. */
  predicate HasNonDot(p: string, from: int, to: int)
    requires 0 <= from && to <= |p|
  {
    exists k :: from <= k < to && p[k] != '.'
  }

  /** `os.path.splitext(p)[0]` (POSIX): the text before the last dot of the last path
      component, unless that component is only dots up to it. */
  function SplitExtRoot(p: string): (root: string)
    ensures StartsWith(p, root)
  {
    var sep := RFind(p, '/');
    var dot := RFind(p, '.');
    if dot > sep && HasNonDot(p, sep + 1, dot) then p[..dot] else p
  }

  predicate StartsWith(s: string, prefix: string) { |prefix| <= |s| && s[..|prefix|] == prefix }

  /** `out_filename`: `file` is the `--file` argument. */
  function ExportName(file: Option<string>): string {
    match file
    case Some(f) => if f != "" then SplitExtRoot(f) + ".json" else "output.json"
    case None => "output.json"
  }

  /** A file name with an extension loses it, whatever dots the directories or the rest of
      the name hold (`./notes.md`, `v1.2/a.md`, `a.tar.gz`), as long as the last path
      component has a character other than a dot before the extension; without a file the
      name is `output.json`. */
  lemma ExportNameSpec(root: string, ext: string)
    requires '.' !in ext && '/' !in ext
    requires HasNonDot(root, RFind(root, '/') + 1, |root|)
    ensures ExportName(Some(root + "." + ext)) == root + ".json"
    ensures ExportName(None) == "output.json"
  {
    hide *;
    ExportNameOf(root + "." + ext);
    ExtensionDropped(root, ext);
  }

  /** A name whose last path component has no dot keeps its whole name. */
  lemma ExportNameWithoutExtension(file: string)
    requires file != []
    requires forall k | RFind(file, '/') < k < |file| :: file[k] != '.'
    ensures ExportName(Some(file)) == file + ".json"
  {
    hide *;
    ExportNameOf(file);
    NoExtensionKept(file);
  }

  /** A dot file keeps its whole name: its leading dot is not an extension. */
  lemma ExportNameOfDotFile(name: string)
    requires '/' !in name && '.' !in name
    ensures ExportName(Some("." + name)) == "." + name + ".json"
  {
    hide *;
    ExportNameOf("." + name);
    DotFileKept(name);
  }

  lemma ExportNameOf(f: string)
    ensures f != [] ==> ExportName(Some(f)) == SplitExtRoot(f) + ".json"
    ensures ExportName(None) == "output.json"
  {
    hide SplitExtRoot;
  }

  lemma ExtensionDropped(root: string, ext: string)
    requires '.' !in ext && '/' !in ext
    requires HasNonDot(root, RFind(root, '/') + 1, |root|)
    ensures SplitExtRoot(root + "." + ext) == root
  {
    hide *;
    DotIsLast(root, ext);
    SlashInRoot(root, ext);
    assert (root + "." + ext)[..|root|] == root;
    NonDotInPrefix(root + "." + ext, root, RFind(root, '/') + 1, |root|);
    SplitExtAt(root + "." + ext, RFind(root, '/'), |root|);
  }

  /** The added dot is the last one when the extension has none. */
  lemma DotIsLast(root: string, ext: string)
    requires '.' !in ext
    ensures RFind(root + "." + ext, '.') == |root|
  {
    hide RFind;
    TailLacks(root, ext, '.');
    RFindIs(root + "." + ext, '.', |root|);
  }

  /** The last slash is that of the root when the extension has none. */
  lemma SlashInRoot(root: string, ext: string)
    requires '/' !in ext
    ensures RFind(root + "." + ext, '/') == RFind(root, '/')
  {
    var p := root + "." + ext;
    var i := RFind(root, '/');
    assert forall k :: i < k < |root| ==> p[k] == root[k];
    assert p[|root|] == '.';
    assert i >= 0 ==> p[i] == root[i];
    hide *;
    TailLacks(root, ext, '/');
    RFindIs(p, '/', i);
  }

  /** A character other than a dot in a prefix is one in the whole text. */
  lemma NonDotInPrefix(p: string, q: string, from: int, to: int)
    requires 0 <= from && to <= |q| <= |p| && q == p[..|q|]
    requires HasNonDot(q, from, to)
    ensures HasNonDot(p, from, to)
  {
    var w :| from <= w < to && q[w] != '.';
    assert p[w] == q[w];
  }

  /** The characters after the added dot are those of the extension. */
  lemma TailLacks(root: string, ext: string, c: char)
    requires c !in ext
    ensures forall k :: |root| < k < |root + "." + ext| ==> (root + "." + ext)[k] != c
  {
    forall k | |root| < k < |root + "." + ext|
      ensures (root + "." + ext)[k] != c
    {
      assert (root + "." + ext)[k] == ext[k - |root| - 1];
      assert ext[k - |root| - 1] in ext;
    }
  }

  lemma SplitExtAt(p: string, sep: int, dot: int)
    requires sep == RFind(p, '/') && dot == RFind(p, '.') && sep < dot
    requires HasNonDot(p, sep + 1, dot)
    ensures SplitExtRoot(p) == p[..dot]
  {
    hide RFind, HasNonDot;
  }

  lemma NoExtensionKept(root: string)
    requires forall k | RFind(root, '/') < k < |root| :: root[k] != '.'
    ensures SplitExtRoot(root) == root
  {
    hide RFind;
    if RFind(root, '.') > RFind(root, '/') {
      assert root[RFind(root, '.')] == '.';
    }
  }

  lemma DotFileKept(root: string)
    requires '/' !in root && '.' !in root
    ensures SplitExtRoot("." + root) == "." + root
  {
    hide RFind;
    var q := "." + root;
    assert forall k :: 0 < k < |q| ==> q[k] != '.' && q[k] != '/' by {
      forall k | 0 < k < |q| ensures q[k] != '.' && q[k] != '/' {
        assert q[k] == root[k - 1];
        assert root[k - 1] in root;
      }
    }
    RFindIs(q, '/', -1);
    RFindIs(q, '.', 0);
  }

  /** `str.rfind` is the last occurrence: any index with the character and none after it. */
  lemma RFindIs(p: string, c: char, i: int)
    requires -1 <= i < |p| && (i >= 0 ==> p[i] == c)
    requires forall k :: i < k < |p| ==> p[k] != c
    ensures RFind(p, c) == i
  {
  }
}
