/** The slide/placeholder segmenter of json2slide.py (`process_json`): one pass over the
    token list that cuts it into slides, and each slide into placeholders.

    The state the nested helpers share through `nonlocal` is the `Deck`; the functions
    below (`Finalize`, `WithPlaceholder`, `WithToken`, `Step`, `Steps`, `Segment`) say what
    each helper and the whole pass compute, and the class `SlideBuilder` performs the same
    updates in place, each method proved to match its function. */
module Json2Slide {
  import opened Wrappers
  import Json
  import opened Mistune
  import opened Json2SlideRuns
  import opened Json2SlideLists

  /** The `consume` key added to every placeholder entry. */
  datatype Consume = Shared | Monopoly

  /** The token dict `add_token` receives, without its `consume`. */
  datatype Content =
    | HeadingContent(level: int, runs: seq<Run>)       // levels 3..6
    | BlockQuoteContent(runs: seq<Run>)
    | ParagraphContent(runs: seq<Run>)
    | ImageContent(url: string, alt: Option<string>)   // no `alt` key when the alt text is ""
    | ListContent(items: seq<ListRecord>)
    | CodeContent(lang: string, code: string)

  datatype Entry = Entry(content: Content, consume: Consume)

  /** A slide dict; a `title` of `{}` is None, `{"runs": runs}` is Some(runs). */
  datatype Slide = Slide(title: Option<seq<Run>>, layout: string, placeholders: seq<seq<Entry>>, notes: seq<string>)

  /** `NEW_SLIDE` */
  const NewSlide := Slide(None, "", [[]], [])

  /** The exceptions the blind dict and list indexing can raise. */
  datatype Crash = KeyError | IndexError

  /** The input dict: its `frontmatter` and `tokens` keys. */
  datatype Input = Input(frontmatter: Option<Json.Json>, tokens: Option<seq<Node>>)

  /** The returned dict. */
  datatype Document = Document(frontmatter: Json.Json, slides: seq<Slide>)

  /** The shared state: `processed['slides']`, `current_slide`, `current_placeholder`, and the
      `consume` of `prev_token` (None while `prev_token` is `{}`). */
  datatype Deck = Deck(slides: seq<Slide>, current: nat, placeholder: nat, prev: Option<Consume>)

  const Initial := Deck([NewSlide], 0, 0, None)

  /** The cursors always point at the last slide and at its last placeholder. */
  predicate WellFormed(d: Deck) {
    |d.slides| == d.current + 1 && |d.slides[d.current].placeholders| == d.placeholder + 1
  }

  // ---------------------------------------------------------------------------
  // determine_layout

  /** Number of non-empty placeholders. */
  function CountNonEmpty(ps: seq<seq<Entry>>): (n: nat)
    ensures n <= |ps|
  {
    if ps == [] then 0 else CountNonEmpty(ps[..|ps| - 1]) + (if ps[|ps| - 1] != [] then 1 else 0)
  }

  /** `determine_layout(slide)`: the directive if one was set, otherwise the table on the
      number of non-empty placeholders. With two, `placeholders[0][0]` and
      `placeholders[1][0]` are read blindly and raise IndexError when either is empty. */
  function LayoutOf(s: Slide): Result<string, Crash> {
    if s.layout != "" then Success(s.layout)
    else
      var n := CountNonEmpty(s.placeholders);
      if n == 0 then Success("section_header")
      else if n == 1 then Success("title_and_content")
      else if n == 2 then
        if s.placeholders[0] == [] || s.placeholders[1] == [] then Failure(IndexError)
        else if s.placeholders[0][0].consume != Monopoly && s.placeholders[1][0].consume != Monopoly
        then Success("two_content")
        else Success("content_with_caption")
      else Success("")
  }

  predicate InferredLayout(l: string) {
    l == "section_header" || l == "title_and_content" || l == "two_content"
    || l == "content_with_caption" || l == ""
  }

  lemma {:induction false} CountNonEmptyAll(ps: seq<seq<Entry>>)
    requires forall j :: 0 <= j < |ps| ==> ps[j] != []
    ensures CountNonEmpty(ps) == |ps|
  {
    if ps != [] {
      CountNonEmptyAll(ps[..|ps| - 1]);
    }
  }

  lemma {:induction false} CountNonEmptyNone(ps: seq<seq<Entry>>)
    requires forall j :: 0 <= j < |ps| ==> ps[j] == []
    ensures CountNonEmpty(ps) == 0
  {
    if ps != [] {
      CountNonEmptyNone(ps[..|ps| - 1]);
    }
  }

  /** The layout a slide gets: the directive, or one of the five inferred values; it can
      only fail on a slide without directive that has exactly two non-empty placeholders,
      one of the first two being empty. */
  lemma LayoutOutcomes(s: Slide)
    ensures s.layout != "" ==> LayoutOf(s) == Success(s.layout)
    ensures s.layout == "" && LayoutOf(s).Success? ==> InferredLayout(LayoutOf(s).value)
    ensures LayoutOf(s).Failure? <==>
      s.layout == "" && CountNonEmpty(s.placeholders) == 2 && (s.placeholders[0] == [] || s.placeholders[1] == [])
  {
  }

  /** A slide with no empty placeholder always gets a layout; with two placeholders it is
      two_content exactly when neither first entry is a monopoly. */
  lemma LayoutWithoutGaps(s: Slide)
    requires s.layout == ""
    requires forall j :: 0 <= j < |s.placeholders| ==> s.placeholders[j] != []
    ensures LayoutOf(s).Success?
    ensures |s.placeholders| == 0 ==> LayoutOf(s) == Success("section_header")
    ensures |s.placeholders| == 1 ==> LayoutOf(s) == Success("title_and_content")
    ensures |s.placeholders| == 2 ==>
      (LayoutOf(s) == Success("two_content") <==>
        s.placeholders[0][0].consume == Shared && s.placeholders[1][0].consume == Shared)
    ensures |s.placeholders| > 2 ==> LayoutOf(s) == Success("")
  {
    CountNonEmptyAll(s.placeholders);
  }

  /** A slide whose placeholders are all empty is a section header. */
  lemma EmptySlideIsSectionHeader(s: Slide)
    requires s.layout == ""
    requires forall j :: 0 <= j < |s.placeholders| ==> s.placeholders[j] == []
    ensures LayoutOf(s) == Success("section_header")
  {
    CountNonEmptyNone(s.placeholders);
  }

  /** Writing the inferred layout back is a fixed point: a finalized slide lays out as itself. */
  lemma LayoutIdempotent(s: Slide)
    requires LayoutOf(s).Success?
    ensures LayoutOf(s.(layout := LayoutOf(s).value)) == LayoutOf(s)
  {
  }

  // ---------------------------------------------------------------------------
  // The helpers that update the shared state

  function SetCurrent(d: Deck, s: Slide): (r: Deck)
    requires WellFormed(d)
    requires |s.placeholders| == d.placeholder + 1
    ensures WellFormed(r)
    ensures r.slides == d.slides[d.current := s]
  {
    d.(slides := d.slides[d.current := s])
  }

  /** `finalize_slide()`: fixes the current slide's layout, appends a fresh slide, moves the
      slide cursor to it and the placeholder cursor to 0; `prev_token` is left alone. */
  function Finalize(d: Deck): (r: Result<Deck, Crash>)
    requires WellFormed(d)
    ensures r.Failure? <==> LayoutOf(d.slides[d.current]).Failure?
    ensures r.Success? ==>
      WellFormed(r.value)
      && r.value.slides == d.slides[d.current := d.slides[d.current].(layout := LayoutOf(d.slides[d.current]).value)] + [NewSlide]
      && r.value.current == d.current + 1 && r.value.placeholder == 0 && r.value.prev == d.prev
  {
    var s := d.slides[d.current];
    match LayoutOf(s)
    case Failure(e) => Failure(e)
    case Success(l) => Success(Deck(d.slides[d.current := s.(layout := l)] + [NewSlide], d.current + 1, 0, d.prev))
  }

  /** `add_placeholder()`: a new empty placeholder on the current slide becomes current. */
  function WithPlaceholder(d: Deck): (r: Deck)
    requires WellFormed(d)
    ensures WellFormed(r) && r.current == d.current && r.placeholder == d.placeholder + 1 && r.prev == d.prev
    ensures r.slides[d.current].placeholders == d.slides[d.current].placeholders + [[]]
  {
    var s := d.slides[d.current];
    Deck(d.slides[d.current := s.(placeholders := s.placeholders + [[]])], d.current, d.placeholder + 1, d.prev)
  }

  /** The test of `add_token`: the current placeholder is kept when it is empty, or when both
      the previous token and this one are shared. */
  predicate KeepsPlaceholder(d: Deck, consume: Consume)
    requires WellFormed(d)
  {
    d.slides[d.current].placeholders[d.placeholder] == [] || (d.prev == Some(Shared) && consume == Shared)
  }

  function Current(d: Deck): seq<Entry>
    requires WellFormed(d)
  {
    d.slides[d.current].placeholders[d.placeholder]
  }

  /** `add_token(token, consume)` */
  function WithToken(d: Deck, c: Content, consume: Consume): (r: Deck)
    requires WellFormed(d)
    ensures WellFormed(r) && r.current == d.current && r.prev == Some(consume)
  {
    var d1 := if KeepsPlaceholder(d, consume) then d else WithPlaceholder(d);
    var s := d1.slides[d1.current];
    Deck(d1.slides[d1.current := s.(placeholders := s.placeholders[d1.placeholder := s.placeholders[d1.placeholder] + [Entry(c, consume)]])],
         d1.current, d1.placeholder, Some(consume))
  }

  function SetTitle(d: Deck, title: Option<seq<Run>>): (r: Deck)
    requires WellFormed(d)
    ensures WellFormed(r)
  {
    SetCurrent(d, d.slides[d.current].(title := title))
  }

  // ---------------------------------------------------------------------------
  // The dispatch loop

  /** The content of a `paragraph` token whose first child is an image: the image's url and
      the raw text of its first child as alt; None when a read key is missing. */
  function ImageOf(image: Node): Result<Content, Crash> {
    if !image.hasChildren then Failure(KeyError)
    else if image.children == [] then Failure(IndexError)
    else if image.children[0].raw.None? then Failure(KeyError)
    else if image.attrs.url.None? then Failure(KeyError)
    else
      var alt := image.children[0].raw.value;
      Success(ImageContent(image.attrs.url.value, if alt == "" then None else Some(alt)))
  }

  /** One iteration of the `for token in tokens` loop. */
  function Step(d: Deck, t: Node): (r: Result<Deck, Crash>)
    requires WellFormed(d)
    ensures r.Success? ==> WellFormed(r.value)
  {
    match t.kind
    case Heading =>
      if t.attrs.level.None? then Failure(KeyError)
      else
        var level := t.attrs.level.value;
        if level == 1 || level == 2 then
          (match Finalize(d)
           case Failure(e) => Failure(e)
           case Success(d1) =>
             if !t.hasChildren then Failure(KeyError)
             else Success(SetTitle(d1, Some(ParagraphRuns(t.children)))))
        else if 3 <= level <= 6 then
          if !t.hasChildren then Failure(KeyError)
          else Success(WithToken(d, HeadingContent(level, ParagraphRuns(t.children)), Shared))
        else Success(d)
    case ThematicBreak(_) =>
      (match Finalize(d)
       case Failure(e) => Failure(e)
       case Success(d1) => Success(SetTitle(d1, d1.slides[d1.current - 1].title)))
    case WildcardBreak => Success(WithPlaceholder(d))
    case BlockQuote =>
      if !t.hasChildren then Failure(KeyError)
      else if t.children == [] then Failure(IndexError)
      else if !t.children[0].hasChildren then Failure(KeyError)
      else Success(WithToken(d, BlockQuoteContent(ParagraphRuns(t.children[0].children)), Shared))
    case Paragraph =>
      if !t.hasChildren then Failure(KeyError)
      else if t.children == [] then Failure(IndexError)
      else if t.children[0].kind == Text then Success(WithToken(d, ParagraphContent(ParagraphRuns(t.children)), Shared))
      else if t.children[0].kind == Image then
        (match ImageOf(t.children[0])
         case Failure(e) => Failure(e)
         case Success(c) => Success(WithToken(d, c, Monopoly)))
      else Success(d)
    case List => Success(WithToken(d, ListContent(ProcessList(t)), Shared))
    case BlockCode =>
      if t.attrs.info.None? || t.raw.None? then Failure(KeyError)
      else Success(WithToken(d, CodeContent(t.attrs.info.value, t.raw.value), Shared))
    case CommentBlock(key, value) =>
      if key == "layout" then Success(SetCurrent(d, d.slides[d.current].(layout := value)))
      else if key == "note" then Success(SetCurrent(d, d.slides[d.current].(notes := d.slides[d.current].notes + [value])))
      else Success(d)
    case _ => Success(d)
  }

  /** The loop over a token list; the first exception ends it. */
  function Steps(d: Deck, tokens: seq<Node>): (r: Result<Deck, Crash>)
    requires WellFormed(d)
    ensures r.Success? ==> WellFormed(r.value)
  {
    if tokens == [] then Success(d)
    else
      match Steps(d, tokens[..|tokens| - 1])
      case Failure(e) => Failure(e)
      case Success(d1) => Step(d1, tokens[|tokens| - 1])
  }

  /** `process_json(data)`: no `finalize_slide` runs after the last token. */
  function Segment(data: Input): Result<Document, Crash> {
    if data.frontmatter.None? || data.tokens.None? then Failure(KeyError)
    else
      match Steps(Initial, data.tokens.value)
      case Failure(e) => Failure(e)
      case Success(d) => Success(Document(data.frontmatter.value, d.slides))
  }

  lemma StepsSnoc(d: Deck, tokens: seq<Node>, t: Node)
    requires WellFormed(d)
    ensures Steps(d, tokens + [t]) ==
      match Steps(d, tokens) case Failure(e) => Failure(e) case Success(d1) => Step(d1, t)
  {
    assert (tokens + [t])[..|tokens + [t]| - 1] == tokens;
  }

  // ---------------------------------------------------------------------------
  // The invariant: a monopoly entry is alone in its placeholder

  predicate MonopolyAlone(p: seq<Entry>) {
    forall i :: 0 <= i < |p| && p[i].consume == Monopoly ==> |p| == 1
  }

  predicate SlideAlone(s: Slide) {
    forall j :: 0 <= j < |s.placeholders| ==> MonopolyAlone(s.placeholders[j])
  }

  /** What every reachable state satisfies: monopoly entries are alone; when the current
      placeholder is non-empty, `prev_token`'s consume is that of its last entry; every slide
      before the current one is finalized (its layout is what `determine_layout` returns for it). */
  predicate Inv(d: Deck) {
    WellFormed(d)
    && (forall k :: 0 <= k < |d.slides| ==> SlideAlone(d.slides[k]))
    && (Current(d) != [] ==> d.prev == Some(Current(d)[|Current(d)| - 1].consume))
    && (forall k :: 0 <= k < d.current ==> LayoutOf(d.slides[k]) == Success(d.slides[k].layout))
  }

  lemma InitialInv()
    ensures Inv(Initial)
  {
  }

  lemma SetCurrentInv(d: Deck, s: Slide)
    requires Inv(d)
    requires s.placeholders == d.slides[d.current].placeholders
    ensures Inv(SetCurrent(d, s))
  {
    var r := SetCurrent(d, s);
    forall k | 0 <= k < |r.slides|
      ensures SlideAlone(r.slides[k])
    {
      if k != d.current {
        assert r.slides[k] == d.slides[k];
      }
    }
  }

  lemma FinalizeInv(d: Deck)
    requires Inv(d)
    requires Finalize(d).Success?
    ensures Inv(Finalize(d).value)
  {
    var r := Finalize(d).value;
    var s := d.slides[d.current];
    forall k | 0 <= k < |r.slides|
      ensures SlideAlone(r.slides[k])
    {
      if k < d.current {
        assert r.slides[k] == d.slides[k];
      } else if k == d.current {
        assert r.slides[k].placeholders == s.placeholders;
        assert SlideAlone(s);
      }
    }
    forall k | 0 <= k < r.current
      ensures LayoutOf(r.slides[k]) == Success(r.slides[k].layout)
    {
      if k < d.current {
        assert r.slides[k] == d.slides[k];
      } else {
        LayoutIdempotent(s);
      }
    }
  }

  lemma WithPlaceholderInv(d: Deck)
    requires Inv(d)
    ensures Inv(WithPlaceholder(d))
  {
    var r := WithPlaceholder(d);
    forall k | 0 <= k < |r.slides|
      ensures SlideAlone(r.slides[k])
    {
      if k != d.current {
        assert r.slides[k] == d.slides[k];
      } else {
        var ps := r.slides[k].placeholders;
        forall j | 0 <= j < |ps|
          ensures MonopolyAlone(ps[j])
        {
          if j < |d.slides[k].placeholders| {
            assert ps[j] == d.slides[k].placeholders[j];
          }
        }
      }
    }
  }

  /** Where `add_token` puts its entry: at the end of the current placeholder, which is a
      new one exactly when the old current placeholder is non-empty and not both this token
      and the previous one are shared; nothing else changes. */
  lemma WithTokenPlacement(d: Deck, c: Content, consume: Consume)
    requires WellFormed(d)
    ensures var r := WithToken(d, c, consume);
      && r.placeholder == d.placeholder + (if KeepsPlaceholder(d, consume) then 0 else 1)
      && r.slides[..d.current] == d.slides[..d.current]
      && |r.slides| == |d.slides|
      && var s := d.slides[d.current]; var rs := r.slides[r.current];
      && rs.title == s.title && rs.layout == s.layout && rs.notes == s.notes
      && rs.placeholders[..d.placeholder] == s.placeholders[..d.placeholder]
      && (KeepsPlaceholder(d, consume) ==>
            rs.placeholders[d.placeholder] == s.placeholders[d.placeholder] + [Entry(c, consume)])
      && (!KeepsPlaceholder(d, consume) ==>
            rs.placeholders[d.placeholder] == s.placeholders[d.placeholder]
            && rs.placeholders[d.placeholder + 1] == [Entry(c, consume)])
  {
    var r := WithToken(d, c, consume);
    assert r.slides[..d.current] == d.slides[..d.current];
  }

  lemma WithTokenInv(d: Deck, c: Content, consume: Consume)
    requires Inv(d)
    ensures Inv(WithToken(d, c, consume))
  {
    var d1 := if KeepsPlaceholder(d, consume) then d else WithPlaceholder(d);
    if !KeepsPlaceholder(d, consume) {
      WithPlaceholderInv(d);
    }
    assert Inv(d1);
    var r := WithToken(d, c, consume);
    var p := Current(d1);
    assert p == [] || (d1.prev == Some(Shared) && consume == Shared);
    var p' := p + [Entry(c, consume)];
    assert Current(r) == p';
    assert MonopolyAlone(p') by {
      if p != [] {
        assert p[|p| - 1].consume == Shared;
        assert MonopolyAlone(p);
        forall i | 0 <= i < |p'|
          ensures p'[i].consume == Shared
        {
          if i < |p| && p[i].consume == Monopoly {
            assert false;
          }
        }
      }
    }
    forall k | 0 <= k < |r.slides|
      ensures SlideAlone(r.slides[k])
    {
      if k != d1.current {
        assert r.slides[k] == d1.slides[k];
      } else {
        var ps := r.slides[k].placeholders;
        forall j | 0 <= j < |ps|
          ensures MonopolyAlone(ps[j])
        {
          if j != d1.placeholder {
            assert ps[j] == d1.slides[k].placeholders[j];
          }
        }
      }
    }
    forall k | 0 <= k < r.current
      ensures LayoutOf(r.slides[k]) == Success(r.slides[k].layout)
    {
      assert r.slides[k] == d1.slides[k];
    }
  }

  lemma StepInv(d: Deck, t: Node)
    requires Inv(d)
    requires Step(d, t).Success?
    ensures Inv(Step(d, t).value)
  {
    match t.kind
    case Heading =>
      var level := t.attrs.level.value;
      if level == 1 || level == 2 {
        FinalizeInv(d);
        var d1 := Finalize(d).value;
        SetCurrentInv(d1, d1.slides[d1.current].(title := Some(ParagraphRuns(t.children))));
      } else if 3 <= level <= 6 {
        WithTokenInv(d, HeadingContent(level, ParagraphRuns(t.children)), Shared);
      }
    case ThematicBreak(_) =>
      FinalizeInv(d);
      var d1 := Finalize(d).value;
      SetCurrentInv(d1, d1.slides[d1.current].(title := d1.slides[d1.current - 1].title));
    case WildcardBreak => WithPlaceholderInv(d);
    case BlockQuote => WithTokenInv(d, BlockQuoteContent(ParagraphRuns(t.children[0].children)), Shared);
    case Paragraph =>
      if t.children[0].kind == Text {
        WithTokenInv(d, ParagraphContent(ParagraphRuns(t.children)), Shared);
      } else if t.children[0].kind == Image {
        WithTokenInv(d, ImageOf(t.children[0]).value, Monopoly);
      }
    case List => WithTokenInv(d, ListContent(ProcessList(t)), Shared);
    case BlockCode => WithTokenInv(d, CodeContent(t.attrs.info.value, t.raw.value), Shared);
    case CommentBlock(key, value) =>
      if key == "layout" {
        SetCurrentInv(d, d.slides[d.current].(layout := value));
      } else if key == "note" {
        SetCurrentInv(d, d.slides[d.current].(notes := d.slides[d.current].notes + [value]));
      }
    case _ =>
  }

  lemma {:induction false} StepsInv(d: Deck, tokens: seq<Node>)
    requires Inv(d)
    requires Steps(d, tokens).Success?
    ensures Inv(Steps(d, tokens).value)
    decreases |tokens|
  {
    if tokens != [] {
      var front := tokens[..|tokens| - 1];
      StepsInv(d, front);
      StepInv(Steps(d, front).value, tokens[|tokens| - 1]);
    }
  }

  /** The segmenter's invariant on its output: every monopoly (image) entry is alone in its
      placeholder, and every slide but the last carries the layout `determine_layout` gives it. */
  lemma SegmentInvariant(data: Input)
    requires Segment(data).Success?
    ensures var slides := Segment(data).value.slides;
      && |slides| >= 1
      && (forall k, j, i :: 0 <= k < |slides| && 0 <= j < |slides[k].placeholders|
            && 0 <= i < |slides[k].placeholders[j]| && slides[k].placeholders[j][i].consume == Monopoly
            ==> slides[k].placeholders[j] == [slides[k].placeholders[j][i]])
      && (forall k :: 0 <= k < |slides| - 1 ==> LayoutOf(slides[k]) == Success(slides[k].layout))
  {
    InitialInv();
    StepsInv(Initial, data.tokens.value);
    var slides := Segment(data).value.slides;
    forall k, j, i | 0 <= k < |slides| && 0 <= j < |slides[k].placeholders|
      && 0 <= i < |slides[k].placeholders[j]| && slides[k].placeholders[j][i].consume == Monopoly
      ensures slides[k].placeholders[j] == [slides[k].placeholders[j][i]]
    {
      assert SlideAlone(slides[k]);
      assert MonopolyAlone(slides[k].placeholders[j]);
    }
  }

  /** A monopoly token lands alone in a placeholder, and whatever token comes next opens a
      new placeholder. */
  lemma MonopolyOpensAndCloses(d: Deck, c: Content, c2: Content, consume2: Consume)
    requires Inv(d)
    ensures var r := WithToken(d, c, Monopoly);
      && Current(r) == [Entry(c, Monopoly)]
      && r.placeholder == d.placeholder + (if Current(d) == [] then 0 else 1)
      && WithToken(r, c2, consume2).placeholder == r.placeholder + 1
  {
    WithTokenPlacement(d, c, Monopoly);
  }

  /** Consecutive shared tokens stay together: when the current placeholder ends with a shared
      entry, a shared token is appended to that same placeholder. */
  lemma SharedTokensStayTogether(d: Deck, c: Content)
    requires Inv(d)
    requires Current(d) != [] && Current(d)[|Current(d)| - 1].consume == Shared
    ensures var r := WithToken(d, c, Shared);
      r.placeholder == d.placeholder && Current(r) == Current(d) + [Entry(c, Shared)]
  {
    WithTokenPlacement(d, c, Shared);
  }

  // ---------------------------------------------------------------------------
  // Slide count, titles and the unfinalized last slide

  /** Does this token start a new slide (a level-1/2 heading or a thematic break)? */
  predicate Breaks(t: Node) {
    (t.kind == Heading && (t.attrs.level == Some(1) || t.attrs.level == Some(2))) || t.kind.ThematicBreak?
  }

  function BreakCount(tokens: seq<Node>): nat {
    if tokens == [] then 0 else BreakCount(tokens[..|tokens| - 1]) + (if Breaks(tokens[|tokens| - 1]) then 1 else 0)
  }

  lemma StepSlideCount(d: Deck, t: Node)
    requires WellFormed(d)
    requires Step(d, t).Success?
    ensures |Step(d, t).value.slides| == |d.slides| + (if Breaks(t) then 1 else 0)
  {
  }

  /** The final slide count is one plus the number of level-1/2 headings and thematic breaks:
      the initial slide is kept even when nothing lands on it, and no slide is ever dropped. */
  lemma {:induction false} SlideCount(tokens: seq<Node>)
    requires Steps(Initial, tokens).Success?
    ensures |Steps(Initial, tokens).value.slides| == 1 + BreakCount(tokens)
  {
    if tokens != [] {
      var front := tokens[..|tokens| - 1];
      SlideCount(front);
      StepSlideCount(Steps(Initial, front).value, tokens[|tokens| - 1]);
    }
  }

  /** A thematic break starts a slide that carries the title of the slide before it. */
  lemma ThematicBreakCopiesTitle(d: Deck, t: Node)
    requires WellFormed(d) && t.kind.ThematicBreak?
    requires Step(d, t).Success?
    ensures var r := Step(d, t).value;
      r.current == d.current + 1 && r.slides[r.current].title == d.slides[d.current].title
      && r.slides[r.current].placeholders == [[]]
  {
  }

  predicate IsLayoutDirective(t: Node) {
    t.kind.CommentBlock? && t.kind.key == "layout"
  }

  /** The last slide is never finalized: without a `layout` directive among the tokens it
      ends with layout "". */
  lemma {:induction false} LastSlideUnfinalized(tokens: seq<Node>)
    requires Steps(Initial, tokens).Success?
    requires forall i :: 0 <= i < |tokens| ==> !IsLayoutDirective(tokens[i])
    ensures var d := Steps(Initial, tokens).value; d.slides[d.current].layout == ""
  {
    if tokens != [] {
      var front := tokens[..|tokens| - 1];
      assert forall i :: 0 <= i < |front| ==> front[i] == tokens[i];
      assert Steps(Initial, tokens) == Step(Steps(Initial, front).value, tokens[|tokens| - 1]);
      hide *;
      LastSlideUnfinalized(front);
      StepKeepsOpenLayout(Steps(Initial, front).value, tokens[|tokens| - 1]);
    }
  }

  /** Only a `layout` directive sets the layout of the slide being built; a new slide
      starts with layout "". */
  lemma StepKeepsOpenLayout(d: Deck, t: Node)
    requires WellFormed(d) && d.slides[d.current].layout == "" && !IsLayoutDirective(t)
    requires Step(d, t).Success?
    ensures var r := Step(d, t).value; r.slides[r.current].layout == ""
  {
    hide ParagraphRuns, ProcessList, ImageOf, LayoutOf;
  }

  /** Paragraph dispatch: a first child of type text adds a shared paragraph of the runs of
      all children; an image adds a monopoly image entry; any other first child adds nothing. */
  lemma ParagraphDispatch(d: Deck, t: Node)
    requires WellFormed(d) && t.kind == Paragraph && t.hasChildren && t.children != []
    ensures t.children[0].kind == Text ==>
      Step(d, t) == Success(WithToken(d, ParagraphContent(ParagraphRuns(t.children)), Shared))
    ensures t.children[0].kind == Image && ImageOf(t.children[0]).Success? ==>
      Step(d, t) == Success(WithToken(d, ImageOf(t.children[0]).value, Monopoly))
      && ImageOf(t.children[0]).value.url == t.children[0].attrs.url.value
      && (ImageOf(t.children[0]).value.alt.None? <==> t.children[0].children[0].raw == Some(""))
    ensures t.children[0].kind != Text && t.children[0].kind != Image ==> Step(d, t) == Success(d)
  {
  }

  // Concrete tokens for the scenario below.
  function TextNode(s: string): Node { Node(Text, Some(s), false, [], NoAttrs) }
  function HeadingNode(level: int, s: string): Node {
    Node(Heading, None, true, [TextNode(s)], Attrs(Some(level), None, None, None))
  }
  function ParagraphNode(s: string): Node { Node(Paragraph, None, true, [TextNode(s)], NoAttrs) }

  /** Text before the first heading stays on the initial slide, which is kept: three slides
      for `# A`, `x`, `# B`; the first two are finalized, the last is not. */
  lemma InitialSlideKept()
    ensures var r := Steps(Initial, [ParagraphNode("x"), HeadingNode(1, "A"), HeadingNode(1, "B")]);
      && r.Success?
      && |r.value.slides| == 3
      && r.value.slides[0].layout == "title_and_content"
      && r.value.slides[0].placeholders == [[Entry(ParagraphContent([Run(false, false, false, None, "x")]), Shared)]]
      && r.value.slides[1].title == Some([Run(false, false, false, None, "A")])
      && r.value.slides[1].layout == "section_header"
      && r.value.slides[2].layout == ""
  {
    var p, a, b := ParagraphNode("x"), HeadingNode(1, "A"), HeadingNode(1, "B");
    var runX, runA, runB := Run(false, false, false, None, "x"), Run(false, false, false, None, "A"), Run(false, false, false, None, "B");
    assert ParagraphRuns([TextNode("x")]) == [runX];
    assert ParagraphRuns([TextNode("A")]) == [runA];
    assert ParagraphRuns([TextNode("B")]) == [runB];
    var entry := Entry(ParagraphContent([runX]), Shared);
    var s0 := Slide(None, "", [[entry]], []);
    var d1 := Deck([s0], 0, 0, Some(Shared));
    assert KeepsPlaceholder(Initial, Shared);
    assert [NewSlide][0 := s0] == [s0];
    assert [] + [entry] == [entry];
    assert NewSlide.placeholders[0 := NewSlide.placeholders[0] + [entry]] == [[entry]];
    assert WithToken(Initial, ParagraphContent([runX]), Shared) == d1;
    assert Step(Initial, p) == Success(d1);
    StepsSnoc(Initial, [], p);
    assert [] + [p] == [p];
    assert CountNonEmpty(s0.placeholders) == 1;
    var s1 := Slide(Some([runA]), "", [[]], []);
    var d2 := Deck([s0.(layout := "title_and_content"), s1], 1, 0, Some(Shared));
    assert LayoutOf(s0) == Success("title_and_content");
    assert [s0][0 := s0.(layout := "title_and_content")] + [NewSlide] == [s0.(layout := "title_and_content"), NewSlide];
    assert Finalize(d1) == Success(Deck([s0.(layout := "title_and_content"), NewSlide], 1, 0, Some(Shared)));
    assert [s0.(layout := "title_and_content"), NewSlide][1 := s1] == d2.slides;
    assert Step(d1, a) == Success(d2);
    StepsSnoc(Initial, [p], a);
    assert [p] + [a] == [p, a];
    assert CountNonEmpty(s1.placeholders) == 0;
    var d3 := Deck([s0.(layout := "title_and_content"), s1.(layout := "section_header"), Slide(Some([runB]), "", [[]], [])], 2, 0, Some(Shared));
    assert LayoutOf(s1) == Success("section_header");
    assert d2.slides[1 := s1.(layout := "section_header")] + [NewSlide]
      == [s0.(layout := "title_and_content"), s1.(layout := "section_header"), NewSlide];
    assert Finalize(d2) == Success(Deck([s0.(layout := "title_and_content"), s1.(layout := "section_header"), NewSlide], 2, 0, Some(Shared)));
    assert [s0.(layout := "title_and_content"), s1.(layout := "section_header"), NewSlide][2 := Slide(Some([runB]), "", [[]], [])] == d3.slides;
    assert Step(d2, b) == Success(d3);
    StepsSnoc(Initial, [p, a], b);
    assert [p, a] + [b] == [p, a, b];
  }

  // ---------------------------------------------------------------------------
  // The imperative segmenter

  /** `determine_layout(slide)`, counting the non-empty placeholders in a loop. */
  method DetermineLayout(slide: Slide) returns (r: Result<string, Crash>)
    ensures r == LayoutOf(slide)
  {
    if slide.layout != "" {
      return Success(slide.layout);
    }
    var count := 0;
    var i := 0;
    while i < |slide.placeholders|
      invariant 0 <= i <= |slide.placeholders|
      invariant count == CountNonEmpty(slide.placeholders[..i])
    {
      assert slide.placeholders[..i + 1][..i] == slide.placeholders[..i];
      if |slide.placeholders[i]| > 0 {
        count := count + 1;
      }
      i := i + 1;
    }
    assert slide.placeholders[..i] == slide.placeholders;
    var layout := "";
    if count == 0 {
      layout := "section_header";
    } else if count == 1 {
      layout := "title_and_content";
    } else if count == 2 {
      if slide.placeholders[0] == [] || slide.placeholders[1] == [] {
        return Failure(IndexError);
      }
      var first := slide.placeholders[0][0].consume != Monopoly;
      var second := slide.placeholders[1][0].consume != Monopoly;
      if first && second {
        layout := "two_content";
      } else {
        layout := "content_with_caption";
      }
    }
    return Success(layout);
  }

  /** The state `process_json`'s nested helpers share, updated in place. */
  class SlideBuilder {
    var slides: seq<Slide>
    var currentSlide: nat
    var currentPlaceholder: nat
    var prevConsume: Option<Consume>

    function State(): Deck
      reads this
    {
      Deck(slides, currentSlide, currentPlaceholder, prevConsume)
    }

    predicate Valid()
      reads this
    {
      WellFormed(State())
    }

    constructor()
      ensures Valid() && State() == Initial
    {
      slides := [NewSlide];
      currentSlide := 0;
      currentPlaceholder := 0;
      prevConsume := None;
    }

    /** `finalize_slide()`; a returned crash is the exception `determine_layout` raised. */
    method FinalizeSlide() returns (err: Option<Crash>)
      requires Valid()
      modifies this
      ensures err.None? ==> Valid() && Finalize(old(State())) == Success(State())
      ensures err.Some? ==> Finalize(old(State())) == Failure(err.value)
    {
      var layout := DetermineLayout(slides[currentSlide]);
      if layout.Failure? {
        return Some(layout.error);
      }
      slides := slides[currentSlide := slides[currentSlide].(layout := layout.value)];
      currentSlide := currentSlide + 1;
      currentPlaceholder := 0;
      slides := slides + [NewSlide];
      return None;
    }

    /** `add_placeholder()` */
    method AddPlaceholder()
      requires Valid()
      modifies this
      ensures Valid() && State() == WithPlaceholder(old(State()))
    {
      var s := slides[currentSlide];
      slides := slides[currentSlide := s.(placeholders := s.placeholders + [[]])];
      currentPlaceholder := currentPlaceholder + 1;
    }

    /** `add_token(token, consume)` */
    method AddToken(c: Content, consume: Consume)
      requires Valid()
      modifies this
      ensures Valid() && State() == WithToken(old(State()), c, consume)
    {
      var placeholder := slides[currentSlide].placeholders[currentPlaceholder];
      if !(placeholder == [] || (prevConsume == Some(Shared) && consume == Shared)) {
        AddPlaceholder();
      }
      var s := slides[currentSlide];
      slides := slides[currentSlide := s.(placeholders := s.placeholders[currentPlaceholder := s.placeholders[currentPlaceholder] + [Entry(c, consume)]])];
      prevConsume := Some(consume);
    }

    /** One pass of the dispatch loop; a returned crash is the exception the token raised. */
    method Feed(t: Node) returns (err: Option<Crash>)
      requires Valid()
      modifies this
      ensures err.None? ==> Valid() && Step(old(State()), t) == Success(State())
      ensures err.Some? ==> Step(old(State()), t) == Failure(err.value)
    {
      hide ParagraphRuns, ProcessList, ImageOf, Finalize, WithToken, WithPlaceholder, LayoutOf;
      err := None;
      match t.kind
      case Heading =>
        if t.attrs.level.None? {
          return Some(KeyError);
        }
        var level := t.attrs.level.value;
        if level == 1 || level == 2 {
          err := FinalizeSlide();
          if err.Some? {
            return;
          }
          if !t.hasChildren {
            return Some(KeyError);
          }
          slides := slides[currentSlide := slides[currentSlide].(title := Some(ParagraphRuns(t.children)))];
        } else if 3 <= level <= 6 {
          if !t.hasChildren {
            return Some(KeyError);
          }
          AddToken(HeadingContent(level, ParagraphRuns(t.children)), Shared);
        }
      case ThematicBreak(_) =>
        err := FinalizeSlide();
        if err.Some? {
          return;
        }
        slides := slides[currentSlide := slides[currentSlide].(title := slides[currentSlide - 1].title)];
      case WildcardBreak =>
        AddPlaceholder();
      case BlockQuote =>
        if !t.hasChildren {
          return Some(KeyError);
        }
        if t.children == [] {
          return Some(IndexError);
        }
        if !t.children[0].hasChildren {
          return Some(KeyError);
        }
        AddToken(BlockQuoteContent(ParagraphRuns(t.children[0].children)), Shared);
      case Paragraph =>
        if !t.hasChildren {
          return Some(KeyError);
        }
        if t.children == [] {
          return Some(IndexError);
        }
        var child := t.children[0];
        if child.kind == Text {
          AddToken(ParagraphContent(ParagraphRuns(t.children)), Shared);
        } else if child.kind == Image {
          var image := ImageOf(child);
          if image.Failure? {
            return Some(image.error);
          }
          AddToken(image.value, Monopoly);
        }
      case List =>
        AddToken(ListContent(ProcessList(t)), Shared);
      case BlockCode =>
        if t.attrs.info.None? || t.raw.None? {
          return Some(KeyError);
        }
        AddToken(CodeContent(t.attrs.info.value, t.raw.value), Shared);
      case CommentBlock(key, value) =>
        if key == "layout" {
          slides := slides[currentSlide := slides[currentSlide].(layout := value)];
        } else if key == "note" {
          slides := slides[currentSlide := slides[currentSlide].(notes := slides[currentSlide].notes + [value])];
        }
      case _ =>
    }
  }

  lemma {:induction false} StepsFailureSticks(d: Deck, tokens: seq<Node>, i: nat)
    requires WellFormed(d) && i <= |tokens|
    requires Steps(d, tokens[..i]).Failure?
    ensures Steps(d, tokens) == Steps(d, tokens[..i])
    decreases |tokens| - i
  {
    if i < |tokens| {
      StepsSnoc(d, tokens[..i], tokens[i]);
      assert tokens[..i] + [tokens[i]] == tokens[..i + 1];
      StepsFailureSticks(d, tokens, i + 1);
    } else {
      assert tokens[..i] == tokens;
    }
  }

  /** `process_json(data)`: the loop over the tokens, proved to compute `Segment`. */
  method ProcessJson(data: Input) returns (r: Result<Document, Crash>)
    ensures r == Segment(data)
  {
    if data.frontmatter.None? || data.tokens.None? {
      return Failure(KeyError);
    }
    var tokens := data.tokens.value;
    var builder := new SlideBuilder();
    var i := 0;
    while i < |tokens|
      invariant 0 <= i <= |tokens|
      invariant builder.Valid()
      invariant Steps(Initial, tokens[..i]) == Success(builder.State())
    {
      StepsSnoc(Initial, tokens[..i], tokens[i]);
      assert tokens[..i] + [tokens[i]] == tokens[..i + 1];
      var err := builder.Feed(tokens[i]);
      if err.Some? {
        StepsFailureSticks(Initial, tokens, i + 1);
        return Failure(err.value);
      }
      i := i + 1;
    }
    assert tokens[..i] == tokens;
    return Success(Document(data.frontmatter.value, builder.slides));
  }
}
