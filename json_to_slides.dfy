/** json_to_slides.py: the older segmenter. Level-2 headings and `---` rules start slides,
    `***` rules switch a slide to two columns, and every other token becomes a content item. */
module JsonToSlides {
  import opened Wrappers
  import Json
  import opened Strings
  import opened Mistune

  /** The `styles` of a span: `{}`, `{"bold": True}`, `{"italic": True}` or `{"link": url}`. */
  datatype SpanStyle = Plain | Bold | Italic | LinkTo(url: string)

  datatype Span = Span(text: string, style: SpanStyle)

  /** A list entry; `subitems` is absent unless there are nested entries. */
  datatype ListEntry = ListEntry(text: string, level: int, subitems: Option<seq<ListEntry>>)

  /** The dicts `process_content_node` returns. The constant keys are left implicit: code
      `styles` `{"background": "#f0f0f0"}`, quote `styles` `{"color": "#666666"}`, image
      `caption` "" and `width`/`height` None, table `headers` and `rows` []. */
  datatype Item =
    | ParagraphBlock(spans: seq<Span>)
    | HeadingBlock(level: int, spans: seq<Span>)
    | ListBlock(numbered: bool, items: seq<ListEntry>)
    | CodeBlock(language: string, text: string)
    | QuoteBlock(spans: seq<Span>)
    | ImageBlock(path: string, alt: string)
    | TableBlock

  /** `columns`: two columns, each of width 0.5. */
  datatype Columns = Columns(first: seq<Item>, second: seq<Item>)

  datatype SlideOut = SlideOut(id: string, title: string, layout: string, content: seq<Item>, columns: Option<Columns>)

  datatype Metadata = Metadata(title: Json.Json, author: Json.Json, theme: Json.Json)

  datatype Presentation = Presentation(metadata: Metadata, slides: seq<SlideOut>)

  /** The input: a dict with `content` (and maybe `frontmatter`), or the token list itself. */
  datatype Input =
    | Wrapped(content: seq<Node>, frontmatter: Option<map<string, Json.Json>>)
    | Bare(nodes: seq<Node>)

  // ---------------------------------------------------------------------------
  // Helpers on tokens

  /** `extract_text_from_node(node)` */
  function ExtractText(n: Node): string
    decreases n
  {
    if n.raw.Some? then n.raw.value
    else if n.hasChildren then ExtractParts(n.children)
    else ""
  }

  /** The `''.join(text_parts)` of the children: text raws, strong/emphasis recursively,
      softbreaks as spaces; anything else contributes nothing. */
  function ExtractParts(cs: seq<Node>): string
    decreases cs
  {
    if cs == [] then ""
    else
      var c := cs[0];
      (if c.kind == Text then c.raw.GetOr("")
       else if c.kind == Strong || c.kind == Emphasis then ExtractText(c)
       else if c.kind == Softbreak then " "
       else "")
      + ExtractParts(cs[1..])
  }

  /** `process_inline_content(children)` */
  function Inline(cs: seq<Node>): seq<Span>
    decreases cs
  {
    if cs == [] then []
    else
      var c := cs[0];
      (if c.kind == Text then [Span(c.raw.GetOr(""), Plain)]
       else if c.kind == Strong then [Span(ExtractText(c), Bold)]
       else if c.kind == Emphasis then [Span(ExtractText(c), Italic)]
       else if c.kind == Link then [Span(ExtractText(c), LinkTo(c.attrs.url.GetOr("")))]
       else if c.kind == Softbreak then [Span(" ", Plain)]
       else if c.kind == Hardbreak then [Span("\n", Plain)]
       else if c.children != [] then Inline(c.children)
       else [])
      + Inline(cs[1..])
  }

  function SpanTexts(spans: seq<Span>): seq<string> {
    if spans == [] then [] else [spans[0].text] + SpanTexts(spans[1..])
  }

  lemma {:induction false} SpanTextsAppend(a: seq<Span>, b: seq<Span>)
    ensures SpanTexts(a + b) == SpanTexts(a) + SpanTexts(b)
  {
    if a == [] {
      assert a + b == b;
    } else {
      assert (a + b)[1..] == a[1..] + b;
      SpanTextsAppend(a[1..], b);
    }
  }

  /** Children made only of text, strong, emphasis and softbreak tokens. */
  predicate FlatInline(cs: seq<Node>) {
    forall i :: 0 <= i < |cs| ==> cs[i].kind in {Text, Strong, Emphasis, Softbreak}
  }

  /** On flat inline children, the spans spell out exactly the extracted text: the span
      builder and the text extractor agree. */
  lemma {:induction false} SpansSpellExtractedText(cs: seq<Node>)
    requires FlatInline(cs)
    ensures Concat(SpanTexts(Inline(cs))) == ExtractParts(cs)
  {
    if cs != [] {
      var c := cs[0];
      assert FlatInline(cs[1..]) by {
        forall i | 0 <= i < |cs[1..]| ensures cs[1..][i].kind in {Text, Strong, Emphasis, Softbreak} {
          assert cs[1..][i] == cs[i + 1];
        }
      }
      SpansSpellExtractedText(cs[1..]);
      var own := if c.kind == Text then [Span(c.raw.GetOr(""), Plain)]
        else if c.kind == Strong then [Span(ExtractText(c), Bold)]
        else if c.kind == Emphasis then [Span(ExtractText(c), Italic)]
        else [Span(" ", Plain)];
      assert Inline(cs) == own + Inline(cs[1..]);
      SpanTextsAppend(own, Inline(cs[1..]));
      ConcatAppend(SpanTexts(own), SpanTexts(Inline(cs[1..])));
      assert Concat(SpanTexts(own)) == SpanTexts(own)[0] + Concat([]);
    }
  }

  /** `process_list_items(items, level)`: one entry per item, at `level`; nested entries
      one level deeper, and a `subitems` key only when there are some. */
  function ListItems(items: seq<Node>, level: int): (r: seq<ListEntry>)
    ensures |r| == |items|
    ensures forall i :: 0 <= i < |r| ==>
      (r[i].level == level
       && (r[i].subitems.Some? ==>
             (r[i].subitems.value != []
              && forall j :: 0 <= j < |r[i].subitems.value| ==> r[i].subitems.value[j].level == level + 1)))
    decreases items
  {
    if items == [] then [] else [ListEntryOf(items[0], level)] + ListItems(items[1..], level)
  }

  function ListEntryOf(item: Node, level: int): (e: ListEntry)
    ensures e.level == level
    ensures BlockTexts(item.children) == [] ==> e.text == ""
    ensures |BlockTexts(item.children)| == 1 ==> e.text == BlockTexts(item.children)[0]
    ensures |BlockTexts(item.children)| >= 2 ==>
      e.text == BlockTexts(item.children)[0] + " " + Join(" ", BlockTexts(item.children)[1..])
    ensures e.subitems.Some? ==>
      (e.subitems.value != [] && forall j :: 0 <= j < |e.subitems.value| ==> e.subitems.value[j].level == level + 1)
    decreases item
  {
    var subs := SubItems(item.children, level + 1);
    ListEntry(Join(" ", BlockTexts(item.children)), level, if subs == [] then None else Some(subs))
  }

  /** The texts of an item's `block_text` children. */
  function BlockTexts(cs: seq<Node>): (r: seq<string>)
    ensures |r| <= |cs|
    ensures forall t :: t in r <==> exists i :: 0 <= i < |cs| && cs[i].kind == BlockText && ExtractText(cs[i]) == t
  {
    if cs == [] then []
    else (if cs[0].kind == BlockText then [ExtractText(cs[0])] else []) + BlockTexts(cs[1..])
  }

  /** The texts keep the order of the children: a block_text child contributes its text,
      any other child nothing, and the texts of two runs of children concatenate. */
  lemma {:induction false} BlockTextsAppend(a: seq<Node>, b: seq<Node>)
    ensures BlockTexts(a + b) == BlockTexts(a) + BlockTexts(b)
    ensures forall c :: BlockTexts([c]) == (if c.kind == BlockText then [ExtractText(c)] else [])
    decreases |a|
  {
    hide *;
    BlockTextsCons(a);
    if a == [] {
      assert a + b == b;
    } else {
      assert a + b == [a[0]] + (a[1..] + b) && a == [a[0]] + a[1..];
      BlockTextsCons(a + b);
      assert (a + b)[1..] == a[1..] + b;
      BlockTextsAppend(a[1..], b);
    }
    forall c ensures BlockTexts([c]) == (if c.kind == BlockText then [ExtractText(c)] else []) {
      BlockTextsCons([c]);
      BlockTextsCons([]);
      assert [c][1..] == [];
    }
  }

  /** One step of the collection. */
  lemma BlockTextsCons(cs: seq<Node>)
    ensures cs == [] ==> BlockTexts(cs) == []
    ensures cs != [] ==>
      BlockTexts(cs) == (if cs[0].kind == BlockText then [ExtractText(cs[0])] else []) + BlockTexts(cs[1..])
  {
    hide ExtractText;
  }

  /** The entries of an item's nested `list` children, all at `level`. */
  function SubItems(cs: seq<Node>, level: int): (r: seq<ListEntry>)
    ensures forall j :: 0 <= j < |r| ==> r[j].level == level
    decreases cs
  {
    if cs == [] then []
    else (if cs[0].kind == List then ListItems(cs[0].children, level) else []) + SubItems(cs[1..], level)
  }

  /** `process_content_node(node)`; None for level-2 headings and unknown types. */
  function ProcessContent(n: Node): Option<Item> {
    match n.kind
    case Paragraph => Some(ParagraphBlock(Inline(n.children)))
    case Heading =>
      var level := n.attrs.level.GetOr(1);
      if level != 2 then Some(HeadingBlock(level, Inline(n.children))) else None
    case List => Some(ListBlock(n.attrs.ordered == Some(true), ListItems(n.children, 0)))
    case BlockCode => Some(CodeBlock(n.attrs.info.GetOr(""), n.raw.GetOr("")))
    case BlockQuote => Some(QuoteBlock(Inline(n.children)))
    case Image => Some(ImageBlock(n.attrs.url.GetOr(""), ExtractText(n)))
    case Table => Some(TableBlock)
    case _ => None
  }

  /** The node types that make content. */
  predicate MakesContent(n: Node) {
    n.kind in {Paragraph, List, BlockCode, BlockQuote, Image, Table}
    || (n.kind == Heading && n.attrs.level != Some(2))
  }

  lemma ProcessContentDefined(n: Node)
    ensures ProcessContent(n).Some? <==> MakesContent(n)
    ensures n.raw.Some? ==> ExtractText(n) == n.raw.value
  {
  }

  // ---------------------------------------------------------------------------
  // The segmenting loop

  /** The loop's state: `slides`, `current_slide`, `current_title`, `slide_id_counter`,
      `in_second_column`. */
  datatype Conv = Conv(slides: seq<SlideOut>, current: Option<SlideOut>, title: string, counter: nat, second: bool)

  const Start := Conv([], None, "Untitled", 1, false)

  function SlideId(n: nat): string { "slide-" + IntToString(n) }

  /** The current slide has columns exactly when its layout is two-column. */
  predicate WellFormed(c: Conv) {
    c.current.Some? ==> (c.current.value.layout == "two_content" <==> c.current.value.columns.Some?)
  }

  /** Push the current slide, if any, counting it. */
  function Pushed(c: Conv): Conv {
    if c.current.Some? then c.(slides := c.slides + [c.current.value], counter := c.counter + 1) else c
  }

  function NewSlide(c: Conv, title: string): SlideOut {
    SlideOut(SlideId(c.counter), title, "title_and_content", [], None)
  }

  /** Append an item to the content, or to the current column of a two-column slide. */
  function Place(s: SlideOut, item: Item, second: bool): SlideOut
    requires s.layout == "two_content" ==> s.columns.Some?
  {
    if s.layout == "two_content" then
      var cols := s.columns.value;
      s.(columns := Some(if second then cols.(second := cols.second + [item]) else cols.(first := cols.first + [item])))
    else s.(content := s.content + [item])
  }

  predicate IsH2(n: Node) { n.kind == Heading && n.attrs.level == Some(2) }

  /** One iteration of the loop over the content nodes. */
  function ConvStep(c: Conv, n: Node): (r: Conv)
    requires WellFormed(c)
    ensures WellFormed(r)
  {
    if IsH2(n) then
      var p := Pushed(c);
      var text := ExtractText(n);
      var title := if text != "" then text else "Slide " + IntToString(p.counter);
      p.(current := Some(NewSlide(p, title)), title := title, second := false)
    else if n.kind.ThematicBreak? then
      var marker := n.kind.markerType.GetOr("dash");
      if marker == "dash" then
        var p := Pushed(c);
        p.(current := Some(NewSlide(p, p.title)), second := false)
      else if marker == "asterisk" then
        if c.current.Some? then
          var s := c.current.value;
          if s.layout != "two_content" then
            c.(current := Some(s.(layout := "two_content", columns := Some(Columns(s.content, [])), content := [])), second := true)
          else c.(second := true)
        else
          c.(current := Some(SlideOut(SlideId(c.counter), c.title, "two_content", [], Some(Columns([], [])))), second := true)
      else c
    else if n.kind == BlankLine then c
    else
      var c1 := if c.current.None? then c.(current := Some(NewSlide(c, c.title)), second := false) else c;
      match ProcessContent(n)
      case None => c1
      case Some(item) => c1.(current := Some(Place(c1.current.value, item, c1.second)))
  }

  function ConvSteps(c: Conv, nodes: seq<Node>): (r: Conv)
    requires WellFormed(c)
    ensures WellFormed(r)
  {
    if nodes == [] then c else ConvStep(ConvSteps(c, nodes[..|nodes| - 1]), nodes[|nodes| - 1])
  }

  const DefaultMetadata := Metadata(Json.JStr("Untitled Presentation"), Json.JStr(""), Json.JStr("default"))

  /** The metadata with the frontmatter's `title`, `author` and `theme` keys applied. */
  function MetadataOf(input: Input): Metadata {
    if input.Wrapped? && input.frontmatter.Some? then
      var fm := input.frontmatter.value;
      Metadata(if "title" in fm then fm["title"] else DefaultMetadata.title,
               if "author" in fm then fm["author"] else DefaultMetadata.author,
               if "theme" in fm then fm["theme"] else DefaultMetadata.theme)
    else DefaultMetadata
  }

  function NodesOf(input: Input): seq<Node> {
    if input.Wrapped? then input.content else input.nodes
  }

  function Finish(c: Conv): seq<SlideOut> {
    if c.current.Some? then c.slides + [c.current.value] else c.slides
  }

  /** `convert_mistune_to_slide_format(markdown_data)["presentation"]` */
  function Convert(input: Input): Presentation {
    Presentation(MetadataOf(input), Finish(ConvSteps(Start, NodesOf(input))))
  }

  /** The loop of `convert_mistune_to_slide_format`, on local variables. */
  method ConvertMistune(input: Input) returns (p: Presentation)
    ensures p == Convert(input)
  {
    hide ExtractText, ProcessContent, ConvSteps, SlideId, IntToString;
    var nodes := if input.Wrapped? then input.content else input.nodes;
    var metadata := DefaultMetadata;
    if input.Wrapped? && input.frontmatter.Some? {
      var fm := input.frontmatter.value;
      if "title" in fm { metadata := metadata.(title := fm["title"]); }
      if "author" in fm { metadata := metadata.(author := fm["author"]); }
      if "theme" in fm { metadata := metadata.(theme := fm["theme"]); }
    }
    var slides: seq<SlideOut> := [];
    var currentSlide: Option<SlideOut> := None;
    var currentTitle := "Untitled";
    var slideIdCounter: nat := 1;
    var inSecondColumn := false;
    assert metadata == MetadataOf(input);
    ConvStepsSnoc(nodes, 0);
    var i := 0;
    while i < |nodes|
      invariant 0 <= i <= |nodes|
      invariant Conv(slides, currentSlide, currentTitle, slideIdCounter, inSecondColumn) == ConvSteps(Start, nodes[..i])
    {
      ConvStepsSnoc(nodes, i);
      ghost var c := Conv(slides, currentSlide, currentTitle, slideIdCounter, inSecondColumn);
      var node := nodes[i];
      if node.kind == Heading && node.attrs.level == Some(2) {
        if currentSlide.Some? {
          slides := slides + [currentSlide.value];
          slideIdCounter := slideIdCounter + 1;
        }
        var titleText := ExtractText(node);
        currentTitle := if titleText != "" then titleText else "Slide " + IntToString(slideIdCounter);
        currentSlide := Some(SlideOut(SlideId(slideIdCounter), currentTitle, "title_and_content", [], None));
        inSecondColumn := false;
      } else if node.kind.ThematicBreak? {
        var markerType := node.kind.markerType.GetOr("dash");
        if markerType == "dash" {
          if currentSlide.Some? {
            slides := slides + [currentSlide.value];
            slideIdCounter := slideIdCounter + 1;
          }
          currentSlide := Some(SlideOut(SlideId(slideIdCounter), currentTitle, "title_and_content", [], None));
          inSecondColumn := false;
        } else if markerType == "asterisk" {
          if currentSlide.Some? {
            var s := currentSlide.value;
            if s.layout != "two_content" {
              currentSlide := Some(s.(layout := "two_content", columns := Some(Columns(s.content, [])), content := []));
            }
            inSecondColumn := true;
          } else {
            currentSlide := Some(SlideOut(SlideId(slideIdCounter), currentTitle, "two_content", [], Some(Columns([], []))));
            inSecondColumn := true;
          }
        }
      } else if node.kind == BlankLine {
      } else {
        if currentSlide.None? {
          currentSlide := Some(SlideOut(SlideId(slideIdCounter), currentTitle, "title_and_content", [], None));
          inSecondColumn := false;
        }
        var processed := ProcessContent(node);
        if processed.Some? {
          var s := currentSlide.value;
          if s.layout == "two_content" {
            var cols := s.columns.value;
            if inSecondColumn {
              currentSlide := Some(s.(columns := Some(cols.(second := cols.second + [processed.value]))));
            } else {
              currentSlide := Some(s.(columns := Some(cols.(first := cols.first + [processed.value]))));
            }
          } else {
            currentSlide := Some(s.(content := s.content + [processed.value]));
          }
        }
      }
      assert Conv(slides, currentSlide, currentTitle, slideIdCounter, inSecondColumn) == ConvStep(c, node);
      i := i + 1;
    }
    assert nodes[..i] == nodes;
    if currentSlide.Some? {
      slides := slides + [currentSlide.value];
    }
    return Presentation(metadata, slides);
  }

  /** The loop's state after no nodes, and after one more node. */
  lemma ConvStepsSnoc(nodes: seq<Node>, i: nat)
    requires i <= |nodes|
    ensures ConvSteps(Start, nodes[..0]) == Start
    ensures i < |nodes| ==> ConvSteps(Start, nodes[..i + 1]) == ConvStep(ConvSteps(Start, nodes[..i]), nodes[i])
  {
    hide ConvStep;
    assert nodes[..0] == [];
    if i < |nodes| {
      assert nodes[..i + 1][..i] == nodes[..i];
    }
  }

  // ---------------------------------------------------------------------------
  // Properties of the loop

  /** Slide ids are consecutive: the k-th slide (from 1) has id `slide-k`, and the counter
      is one more than the number of slides pushed. */
  predicate IdsInOrder(c: Conv) {
    c.counter == |c.slides| + 1
    && (forall k :: 0 <= k < |c.slides| ==> c.slides[k].id == SlideId(k + 1))
    && (c.current.Some? ==> c.current.value.id == SlideId(c.counter))
  }

  lemma ConvStepIds(c: Conv, n: Node)
    requires WellFormed(c) && IdsInOrder(c)
    ensures IdsInOrder(ConvStep(c, n))
  {
    hide ExtractText, ProcessContent, IntToString;
  }

  lemma {:induction false} ConvStepsIds(nodes: seq<Node>)
    ensures IdsInOrder(ConvSteps(Start, nodes))
  {
    if nodes != [] {
      ConvStepsIds(nodes[..|nodes| - 1]);
      ConvStepIds(ConvSteps(Start, nodes[..|nodes| - 1]), nodes[|nodes| - 1]);
    }
  }

  /** The slides come out numbered `slide-1`, `slide-2`, ... in order. */
  lemma SlideIdsConsecutive(input: Input)
    ensures var slides := Convert(input).slides;
      forall k :: 0 <= k < |slides| ==> slides[k].id == SlideId(k + 1)
  {
    ConvStepsIds(NodesOf(input));
  }

  function ItemCount(s: SlideOut): nat {
    |s.content| + (if s.columns.Some? then |s.columns.value.first| + |s.columns.value.second| else 0)
  }

  function ItemsOf(slides: seq<SlideOut>): nat {
    if slides == [] then 0 else ItemsOf(slides[..|slides| - 1]) + ItemCount(slides[|slides| - 1])
  }

  /** The nodes of a list that make content (neither slide breaks nor blank lines). */
  function ContentNodes(nodes: seq<Node>): nat {
    if nodes == [] then 0
    else
      var n := nodes[|nodes| - 1];
      ContentNodes(nodes[..|nodes| - 1])
      + (if !IsH2(n) && !n.kind.ThematicBreak? && n.kind != BlankLine && ProcessContent(n).Some? then 1 else 0)
  }

  function Held(c: Conv): nat {
    ItemsOf(c.slides) + (if c.current.Some? then ItemCount(c.current.value) else 0)
  }

  lemma ConvStepItems(c: Conv, n: Node)
    requires WellFormed(c)
    ensures Held(ConvStep(c, n)) ==
      Held(c) + (if !IsH2(n) && !n.kind.ThematicBreak? && n.kind != BlankLine && ProcessContent(n).Some? then 1 else 0)
  {
    hide ExtractText, ProcessContent, IntToString;
    assert ItemsOf(Pushed(c).slides) == Held(c) by {
      if c.current.Some? {
        assert (c.slides + [c.current.value])[..|c.slides|] == c.slides;
      }
    }
    if IsH2(n) || n.kind.ThematicBreak? || n.kind == BlankLine {
    } else {
      var c1 := if c.current.None? then c.(current := Some(NewSlide(c, c.title)), second := false) else c;
      assert Held(c1) == Held(c);
      if ProcessContent(n).Some? {
        var s := c1.current.value;
        var item := ProcessContent(n).value;
        assert ItemCount(Place(s, item, c1.second)) == ItemCount(s) + 1;
        assert ConvStep(c, n) == c1.(current := Some(Place(s, item, c1.second)));
      } else {
        assert ConvStep(c, n) == c1;
      }
    }
  }

  /** No content is lost or duplicated: the slides hold exactly one item per content node,
      whether in `content` or in a column (the `***` conversion moves, it does not copy). */
  lemma {:induction false} ItemsConserved(input: Input)
    ensures ItemsOf(Convert(input).slides) == ContentNodes(NodesOf(input))
  {
    var nodes := NodesOf(input);
    HeldSteps(nodes);
    var c := ConvSteps(Start, nodes);
    if c.current.Some? {
      assert (c.slides + [c.current.value])[..|c.slides|] == c.slides;
    }
  }

  lemma {:induction false} HeldSteps(nodes: seq<Node>)
    ensures Held(ConvSteps(Start, nodes)) == ContentNodes(nodes)
  {
    if nodes != [] {
      HeldSteps(nodes[..|nodes| - 1]);
      ConvStepItems(ConvSteps(Start, nodes[..|nodes| - 1]), nodes[|nodes| - 1]);
    }
  }

  /** A level-2 heading with no text is titled `Slide {counter}` after the counter moved
      past the pushed slide; a dash rule starts a slide with the current title. */
  lemma BreakTitles(c: Conv, n: Node)
    requires WellFormed(c) && IdsInOrder(c)
    ensures IsH2(n) && ExtractText(n) == "" ==>
      ConvStep(c, n).current.value.title == "Slide " + IntToString(|Finish(c)| + 1)
    ensures n.kind.ThematicBreak? && n.kind.markerType.GetOr("dash") == "dash" ==>
      ConvStep(c, n).current == Some(SlideOut(SlideId(|Finish(c)| + 1), c.title, "title_and_content", [], None))
      && ConvStep(c, n).slides == Finish(c)
  {
  }

  /** A `***` rule on a one-column slide moves its content into the first of two columns and
      empties `content`; content after it goes to the end of the second column. */
  lemma AsteriskMakesColumns(c: Conv, rule: Node, n: Node)
    requires WellFormed(c) && c.current.Some? && c.current.value.layout != "two_content"
    requires rule.kind == ThematicBreak(Some("asterisk"))
    requires !IsH2(n) && !n.kind.ThematicBreak? && ProcessContent(n).Some?
    ensures var r := ConvStep(c, rule);
      && r.current.value.columns == Some(Columns(c.current.value.content, []))
      && r.current.value.content == [] && r.current.value.layout == "two_content"
      && ConvStep(r, n).current.value.columns == Some(Columns(c.current.value.content, [ProcessContent(n).value]))
  {
    assert [] + [ProcessContent(n).value] == [ProcessContent(n).value];
  }

  /** Underscore and unknown rules, and blank lines, change nothing. */
  lemma NoOpTokens(c: Conv, n: Node)
    requires WellFormed(c)
    requires n.kind == BlankLine
      || (n.kind.ThematicBreak? && n.kind.markerType.Some? && n.kind.markerType.value != "dash"
          && n.kind.markerType.value != "asterisk")
    ensures ConvStep(c, n) == c
  {
  }

  /** Content before any heading lands on a slide titled "Untitled" with id `slide-1`. */
  lemma ContentBeforeHeading(n: Node)
    requires !IsH2(n) && !n.kind.ThematicBreak? && n.kind != BlankLine && ProcessContent(n).Some?
    ensures ConvStep(Start, n).current
      == Some(SlideOut(SlideId(1), "Untitled", "title_and_content", [ProcessContent(n).value], None))
  {
    assert [] + [ProcessContent(n).value] == [ProcessContent(n).value];
  }

  /** Frontmatter keys override the defaults, one by one. */
  lemma FrontmatterOverrides(content: seq<Node>, fm: map<string, Json.Json>)
    ensures var m := Convert(Wrapped(content, Some(fm))).metadata;
      && ("title" in fm ==> m.title == fm["title"]) && ("title" !in fm ==> m.title == Json.JStr("Untitled Presentation"))
      && ("author" in fm ==> m.author == fm["author"]) && ("author" !in fm ==> m.author == Json.JStr(""))
      && ("theme" in fm ==> m.theme == fm["theme"]) && ("theme" !in fm ==> m.theme == Json.JStr("default"))
  {
  }
}
