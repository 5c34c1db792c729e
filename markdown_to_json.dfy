/** markdown_to_json.py: the horizontal-rule token of the custom block parser, the
    frontmatter split and the shape of the result. The YAML loader and the mistune parse
    are parameters. */
module MarkdownToJson {
  import opened Wrappers
  import opened Strings
  import opened Frontmatter
  import Json

  /** What `yaml.safe_load` does with a frontmatter block. */
  datatype YamlOutcome = Loaded(value: Json.Json) | YamlError

  /** The marker type of a horizontal rule from its matched text. */
  function MarkerType(matched: string): (m: string)
    ensures m in {"dash", "asterisk", "underscore", "unknown"}
  {
    var marker := Strip(matched);
    if '-' in marker then "dash"
    else if '*' in marker then "asterisk"
    else if '_' in marker then "underscore"
    else "unknown"
  }

  /** `parse_horizontal_rule`: the token it returns. */
  function RuleToken(matched: string): (t: Json.Json)
    ensures t.JObject? && t.fields.Keys == {"type", "marker_type"}
    ensures t.fields["type"] == Json.JStr("thematic_break")
  {
    var m := Json.JStr(MarkerType(matched));
    TwoKeys("type", "marker_type", Json.JStr("thematic_break"), m);
    Json.JObject(map["type" := Json.JStr("thematic_break"), "marker_type" := m])
  }

  lemma TwoKeys(a: string, b: string, x: Json.Json, y: Json.Json)
    requires |a| != |b|
    ensures map[a := x, b := y].Keys == {a, b}
    ensures map[a := x, b := y][a] == x
  {
  }

  lemma {:induction false} RStripKeeps(s: string, c: char)
    requires !IsSpace(c)
    ensures c in RStrip(s) <==> c in s
  {
    hide RStrip, IsSpace;
    var r := RStrip(s);
    if c in s {
      var k :| 0 <= k < |s| && s[k] == c;
      assert k < |r|;
      assert r[k] == c;
    }
    if c in r {
      var k :| 0 <= k < |r| && r[k] == c;
      assert s[k] == c;
    }
  }

  lemma {:induction false} LStripKeeps(s: string, c: char)
    requires !IsSpace(c)
    ensures c in LStrip(s) <==> c in s
  {
    hide LStrip, IsSpace;
    var l := LStrip(s);
    var d := |s| - |l|;
    if c in s {
      var k :| 0 <= k < |s| && s[k] == c;
      assert d <= k;
      assert l[k - d] == c;
    }
    if c in l {
      var k :| 0 <= k < |l| && l[k] == c;
      assert s[d + k] == c;
    }
  }

  lemma StripKeeps(s: string, c: char)
    requires !IsSpace(c)
    ensures c in Strip(s) <==> c in s
  {
    RStripKeeps(s, c);
    LStripKeeps(RStrip(s), c);
  }

  /** A dash anywhere in the rule makes it a dash rule; otherwise an asterisk makes it an
      asterisk rule, otherwise an underscore an underscore rule. */
  lemma MarkerTypeSpec(matched: string)
    ensures MarkerType(matched) == "dash" <==> '-' in matched
    ensures MarkerType(matched) == "asterisk" <==> '-' !in matched && '*' in matched
    ensures MarkerType(matched) == "underscore" <==> '-' !in matched && '*' !in matched && '_' in matched
    ensures MarkerType(matched) == "unknown" <==> '-' !in matched && '*' !in matched && '_' !in matched
  {
    StripKeeps(matched, '-');
    StripKeeps(matched, '*');
    StripKeeps(matched, '_');
  }

  /** `extract_frontmatter(content)`: the frontmatter and the content that is parsed. */
  function ExtractFrontmatter(content: string, load: string -> YamlOutcome): (Json.Json, string) {
    match MatchFrontmatter(content, true)
    case None => (Json.JObject(map[]), content)
    case Some(m) =>
      match load(content[m.groupStart..m.groupEnd])
      case Loaded(v) => (v, content[m.end..])
      case YamlError => (Json.JObject(map[]), content)
  }

  /** Without a match, or with a block YAML refuses, the content is kept whole; otherwise
      what follows the closing line is kept and the loaded value is the frontmatter. */
  lemma ExtractFrontmatterCases(content: string, load: string -> YamlOutcome)
    ensures MatchFrontmatter(content, true).None? ==> ExtractFrontmatter(content, load) == (Json.JObject(map[]), content)
    ensures MatchFrontmatter(content, true).Some? ==>
      var m := MatchFrontmatter(content, true).value;
      (load(content[m.groupStart..m.groupEnd]).YamlError? ==> ExtractFrontmatter(content, load) == (Json.JObject(map[]), content))
      && (load(content[m.groupStart..m.groupEnd]).Loaded? ==>
            ExtractFrontmatter(content, load) == (load(content[m.groupStart..m.groupEnd]).value, content[m.end..])
            && content == content[..m.end] + ExtractFrontmatter(content, load).1)
  {
    if MatchFrontmatter(content, true).Some? {
      MatchShape(content, true);
    }
  }

  /** `parse_markdown(markdown_content)`; `parse` stands for the mistune parse. */
  function ParseMarkdown(markdownContent: string, load: string -> YamlOutcome, parse: string -> Json.Json): map<string, Json.Json> {
    var (frontmatter, rest) := ExtractFrontmatter(markdownContent, load);
    var result := map["content" := parse(rest)];
    if Json.Truthy(frontmatter) then result["frontmatter" := frontmatter] else result
  }

  /** The result always holds the parsed remainder under `content`, and holds `frontmatter`
      exactly when the frontmatter is truthy. */
  lemma ParseMarkdownShape(markdownContent: string, load: string -> YamlOutcome, parse: string -> Json.Json)
    ensures var r := ParseMarkdown(markdownContent, load, parse);
      var (fm, rest) := ExtractFrontmatter(markdownContent, load);
      "content" in r && r["content"] == parse(rest)
      && ("frontmatter" in r <==> Json.Truthy(fm))
      && ("frontmatter" in r ==> r["frontmatter"] == fm)
      && r.Keys <= {"content", "frontmatter"}
  {}
}
