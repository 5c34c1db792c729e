/** The computations of slides_to_pptx.py that stand apart from the python-pptx calls:
    colour parsing, the heading-size and layout tables, which spans become runs, the
    height estimates and the shape of a table. */
module SlidesToPptx {
  import opened Wrappers
  import opened Strings
  import Json

  datatype Crash = ValueError | TypeError | AttributeError

  // ---------------------------------------------------------------------------
  // Colours (`hex_to_rgb`, lines 27-40, and its callers).

  function HexDigitValue(c: char): (v: Option<nat>)
    ensures v.Some? ==> v.value < 16
  {
    if '0' <= c <= '9' then Some(c as int - '0' as int)
    else if 'a' <= c <= 'f' then Some(c as int - 'a' as int + 10)
    else if 'A' <= c <= 'F' then Some(c as int - 'A' as int + 10)
    else None
  }

  predicate AllHex(s: string) {
    forall k :: 0 <= k < |s| ==> HexDigitValue(s[k]).Some?
  }

  function Pow16(n: nat): nat {
    if n == 0 then 1 else 16 * Pow16(n - 1)
  }

  /** The value of a run of hex digits, most significant first. */
  function HexValue(ds: string): (v: nat)
    requires AllHex(ds)
    ensures v < Pow16(|ds|)
  {
    if ds == [] then 0 else HexValue(ds[..|ds| - 1]) * 16 + HexDigitValue(ds[|ds| - 1]).value
  }

  /** `int(t, 16)` for a slice of at most two characters: surrounding whitespace and one
      sign are allowed, then at least one hex digit. */
  function ParseHex(t: string): Result<int, Crash> {
    var u := Strip(t);
    var signed := u != [] && (u[0] == '-' || u[0] == '+');
    var ds := if signed then u[1..] else u;
    if ds != [] && AllHex(ds) then
      Success(if signed && u[0] == '-' then -(HexValue(ds) as int) else HexValue(ds))
    else Failure(ValueError)
  }

  /** Python's `s[i:j]` for 0 <= i <= j: bounds past the end are clipped. */
  function Slice(s: string, i: nat, j: nat): (r: string)
    requires i <= j
    ensures |r| <= j - i
  {
    var lo := if i < |s| then i else |s|;
    var hi := if j < |s| then j else |s|;
    s[lo..hi]
  }

  /** `s.lstrip(c)` */
  function LStripChar(s: string, c: char): (r: string)
    ensures r == [] || r[0] != c
    ensures |r| <= |s| && r == s[|s| - |r|..]
  {
    if s != [] && s[0] == c then LStripChar(s[1..], c) else s
  }

  datatype Rgb = Rgb(r: int, g: int, b: int)

  function HexToRgb(hexColor: string): Result<Rgb, Crash> {
    var h := LStripChar(hexColor, '#');
    match ParseHex(Slice(h, 0, 2))
    case Failure(e) => Failure(e)
    case Success(r) =>
      match ParseHex(Slice(h, 2, 4))
      case Failure(e) => Failure(e)
      case Success(g) =>
        match ParseHex(Slice(h, 4, 6))
        case Failure(e) => Failure(e)
        case Success(b) => Success(Rgb(r, g, b))
  }

  predicate InRange(c: Rgb) {
    0 <= c.r <= 255 && 0 <= c.g <= 255 && 0 <= c.b <= 255
  }

  /** The colour a `color` style gives its run: `RGBColor` refuses components outside
      0..255 with a ValueError, which the caller catches like a parse error and warns. */
  function ColorOf(hexColor: string): Option<Rgb> {
    match HexToRgb(hexColor)
    case Success(c) => if InRange(c) then Some(c) else None
    case Failure(_) => None
  }

  function HexChar(d: nat): char
    requires d < 16
  {
    if d < 10 then ('0' as int + d) as char else ('A' as int + d - 10) as char
  }

  function ToHex2(n: nat): string
    requires n < 256
  {
    [HexChar(n / 16), HexChar(n % 16)]
  }

  /** `#RRGGBB` */
  function ToHex(c: Rgb): string
    requires InRange(c)
  {
    "#" + ToHex2(c.r) + ToHex2(c.g) + ToHex2(c.b)
  }

  lemma HexCharValue(d: nat)
    requires d < 16
    ensures HexDigitValue(HexChar(d)) == Some(d)
    ensures HexChar(d) != '#' && HexChar(d) != '-' && HexChar(d) != '+' && !IsSpace(HexChar(d))
  {}

  /** A string with no whitespace at either end is its own `strip()`. */
  lemma StripUnchanged(s: string)
    requires s != [] ==> !IsSpace(s[0]) && !IsSpace(s[|s| - 1])
    ensures Strip(s) == s
  {}

  lemma ParseHex2(n: nat)
    requires n < 256
    ensures ParseHex(ToHex2(n)) == Success(n)
  {
    var t := ToHex2(n);
    HexCharValue(n / 16);
    HexCharValue(n % 16);
    StripUnchanged(t);
    assert t[..1] == [HexChar(n / 16)];
    assert HexValue(t[..1]) == n / 16 by {
      assert t[..1][..0] == [];
    }
  }

  /** Writing a colour as `#RRGGBB` and parsing it back gives the colour. */
  lemma HexToRgbRoundTrip(c: Rgb)
    requires InRange(c)
    ensures HexToRgb(ToHex(c)) == Success(c)
    ensures ColorOf(ToHex(c)) == Some(c)
  {
    var body := ToHex2(c.r) + ToHex2(c.g) + ToHex2(c.b);
    assert ToHex(c) == "#" + body;
    HexCharValue(c.r / 16);
    assert LStripChar(ToHex(c), '#') == body by {
      assert ToHex(c)[1..] == body;
    }
    assert Slice(body, 0, 2) == ToHex2(c.r);
    assert Slice(body, 2, 4) == ToHex2(c.g);
    assert Slice(body, 4, 6) == ToHex2(c.b);
    ParseHex2(c.r);
    ParseHex2(c.g);
    ParseHex2(c.b);
  }

  /** Leading `#` characters are ignored, however many there are. */
  lemma HashesIgnored(s: string)
    ensures HexToRgb("#" + s) == HexToRgb(s)
  {
    assert ("#" + s)[1..] == s;
  }

  /** Characters after the sixth are ignored. */
  lemma TrailingIgnored(s: string, rest: string)
    requires |s| == 6 && s[0] != '#'
    ensures HexToRgb(s + rest) == HexToRgb(s)
  {
    assert Slice(s + rest, 0, 2) == Slice(s, 0, 2);
    assert Slice(s + rest, 2, 4) == Slice(s, 2, 4);
    assert Slice(s + rest, 4, 6) == Slice(s, 4, 6);
  }

  /** Six hex digits give three components in 0..255, so the run gets the colour. */
  lemma SixHexDigits(s: string)
    requires |s| == 6 && AllHex(s)
    ensures HexToRgb(s).Success? && InRange(HexToRgb(s).value)
    ensures ColorOf(s) == Some(HexToRgb(s).value)
  {
    assert HexDigitValue(s[0]).Some?;
    assert LStripChar(s, '#') == s;
    SixHexPair(s, 0);
    SixHexPair(s, 2);
    SixHexPair(s, 4);
    HexToRgbParts(s);
  }

  lemma SixHexPair(s: string, i: nat)
    requires |s| == 6 && AllHex(s) && i <= 4
    ensures ParseHex(Slice(s, i, i + 2)).Success? && 0 <= ParseHex(Slice(s, i, i + 2)).value < 256
  {
    assert Slice(s, i, i + 2) == s[i..i + 2];
    HexPair(s[i..i + 2]);
  }

  /** `hex_to_rgb` from the three slices: it fails when one of them does, and otherwise
      returns their values. */
  lemma HexToRgbParts(hexColor: string)
    ensures var h := LStripChar(hexColor, '#');
      var r, g, b := ParseHex(Slice(h, 0, 2)), ParseHex(Slice(h, 2, 4)), ParseHex(Slice(h, 4, 6));
      if r.Success? && g.Success? && b.Success? then HexToRgb(hexColor) == Success(Rgb(r.value, g.value, b.value))
      else HexToRgb(hexColor).Failure?
  {
  }

  lemma HexPair(t: string)
    requires |t| == 2 && AllHex(t)
    ensures ParseHex(t).Success? && 0 <= ParseHex(t).value < 256
  {
    assert HexDigitValue(t[0]).Some? && HexDigitValue(t[1]).Some?;
    assert !IsSpace(t[0]) && !IsSpace(t[1]) && t[0] != '-' && t[0] != '+';
    StripUnchanged(t);
  }

  /** Fewer than five characters after the `#`s leave the last slice empty: a ValueError,
      and the run keeps its colour. */
  lemma ShortColorFails(hexColor: string)
    requires |LStripChar(hexColor, '#')| <= 4
    ensures HexToRgb(hexColor).Failure? && ColorOf(hexColor).None?
  {
    assert Slice(LStripChar(hexColor, '#'), 4, 6) == [];
    EmptySliceFails();
    HexToRgbParts(hexColor);
  }

  /** An empty slice has no digits: `int('', 16)` raises ValueError. */
  lemma EmptySliceFails()
    ensures ParseHex([]) == Failure(ValueError)
  {
    assert Strip([]) == [];
  }

  // ---------------------------------------------------------------------------
  // Tables of sizes and layouts (lines 158-179 and 530-539).

  /** Python's `==` between a decoded JSON value and an int (`True == 1`). */
  predicate EqualsInt(v: Json.Json, n: int) {
    (v.JInt? && v.i == n) || (v.JBool? && (if v.b then 1 else 0) == n)
  }

  /** The font size in points of a heading element. */
  function HeadingSize(element: map<string, Json.Json>): nat {
    var level := Json.Get(element, "level", Json.JInt(1));
    if EqualsInt(level, 1) then 32
    else if EqualsInt(level, 3) then 24
    else if EqualsInt(level, 4) then 20
    else if EqualsInt(level, 5) then 18
    else if EqualsInt(level, 6) then 16
    else 28
  }

  /** Level 1 is the largest and sizes fall with the level; level 2 and every unlisted
      level share 28; a heading without a level is a level-1 heading. */
  lemma HeadingSizeTable(element: map<string, Json.Json>, n: int)
    requires "level" in element && element["level"] == Json.JInt(n)
    ensures n == 1 ==> HeadingSize(element) == 32
    ensures n == 3 ==> HeadingSize(element) == 24
    ensures n == 4 ==> HeadingSize(element) == 20
    ensures n == 5 ==> HeadingSize(element) == 18
    ensures n == 6 ==> HeadingSize(element) == 16
    ensures !(n in {1, 3, 4, 5, 6}) ==> HeadingSize(element) == 28
    ensures HeadingSize(element - {"level"}) == 32
  {}

  /** The index into the template's layouts for a slide's `layout`. */
  function SlideLayoutIndex(slideData: map<string, Json.Json>): nat {
    var layout := Json.Get(slideData, "layout", Json.JStr("title_and_content"));
    if layout == Json.JStr("title_only") then 5
    else if layout == Json.JStr("two_content") then 3
    else 1
  }

  lemma SlideLayoutIndexCases(slideData: map<string, Json.Json>)
    ensures SlideLayoutIndex(slideData) == 5 <==> "layout" in slideData && slideData["layout"] == Json.JStr("title_only")
    ensures SlideLayoutIndex(slideData) == 3 <==> "layout" in slideData && slideData["layout"] == Json.JStr("two_content")
    ensures SlideLayoutIndex(slideData) in {1, 3, 5}
    ensures "layout" !in slideData ==> SlideLayoutIndex(slideData) == 1
  {}

  // ---------------------------------------------------------------------------
  // Spans and runs (`apply_text_style`, lines 43-93).

  datatype Span = Span(text: string, styles: map<string, Json.Json>)

  datatype Run = Run(text: string, bold: bool, italic: bool, underline: bool, color: Option<Rgb>, link: Option<Json.Json>)

  /** The run one span with text gets; a `color` that is no string has no `lstrip`. */
  function RunOf(span: Span): Result<Run, Crash> {
    var st := span.styles;
    var color :=
      if "color" !in st then Success(None)
      else match st["color"]
        case JStr(h) => Success(ColorOf(h))
        case _ => Failure(AttributeError);
    match color
    case Failure(e) => Failure(e)
    case Success(c) =>
      Success(Run(span.text,
        Json.Truthy(Json.Get(st, "bold", Json.JNull)),
        Json.Truthy(Json.Get(st, "italic", Json.JNull)),
        Json.Truthy(Json.Get(st, "underline", Json.JNull)),
        c,
        if "link" in st then Some(st["link"]) else None))
  }

  /** The runs of the first `spans`, stopping at the first crash. */
  function Runs(spans: seq<Span>): Result<seq<Run>, Crash> {
    if spans == [] then Success([])
    else
      match Runs(spans[..|spans| - 1])
      case Failure(e) => Failure(e)
      case Success(rs) =>
        var span := spans[|spans| - 1];
        if span.text == "" then Success(rs)
        else
          match RunOf(span)
          case Failure(e) => Failure(e)
          case Success(r) => Success(rs + [r])
  }

  lemma {:induction false} RunsFailureSticks(spans: seq<Span>, i: nat)
    requires i <= |spans| && Runs(spans[..i]).Failure?
    ensures Runs(spans) == Runs(spans[..i])
    decreases |spans| - i
  {
    if i < |spans| {
      assert spans[..i + 1][..i] == spans[..i];
      RunsFailureSticks(spans, i + 1);
    } else {
      assert spans[..i] == spans;
    }
  }

  /** `apply_text_style(text_frame, spans)`: the runs added to the first paragraph. */
  method ApplyTextStyle(spans: seq<Span>) returns (runs: Result<seq<Run>, Crash>)
    ensures runs == Runs(spans)
  {
    var added: seq<Run> := [];
    var i := 0;
    while i < |spans|
      invariant 0 <= i <= |spans|
      invariant Runs(spans[..i]) == Success(added)
    {
      var span := spans[i];
      assert spans[..i + 1][..i] == spans[..i];
      if span.text != "" {
        var run := RunOf(span);
        if run.Failure? {
          RunsFailureSticks(spans, i + 1);
          return Failure(run.error);
        }
        added := added + [run.value];
      }
      i := i + 1;
    }
    assert spans[..i] == spans;
    return Success(added);
  }

  function SpanTexts(spans: seq<Span>): seq<string> {
    if spans == [] then [] else SpanTexts(spans[..|spans| - 1]) + [spans[|spans| - 1].text]
  }

  function RunTexts(runs: seq<Run>): seq<string> {
    if runs == [] then [] else RunTexts(runs[..|runs| - 1]) + [runs[|runs| - 1].text]
  }

  function NonEmptyCount(spans: seq<Span>): nat {
    if spans == [] then 0 else NonEmptyCount(spans[..|spans| - 1]) + (if spans[|spans| - 1].text == "" then 0 else 1)
  }

  /** Every run has text, there is one per span with text, and together they hold the
      text of all the spans. */
  lemma {:induction false} RunsKeepText(spans: seq<Span>)
    requires Runs(spans).Success?
    ensures |Runs(spans).value| == NonEmptyCount(spans)
    ensures forall k :: 0 <= k < |Runs(spans).value| ==> Runs(spans).value[k].text != ""
    ensures Concat(RunTexts(Runs(spans).value)) == Concat(SpanTexts(spans))
  {
    if spans != [] {
      var init := spans[..|spans| - 1];
      var span := spans[|spans| - 1];
      RunsKeepText(init);
      var rs := Runs(init).value;
      ConcatAppend(SpanTexts(init), [span.text]);
      if span.text != "" {
        var r := RunOf(span).value;
        assert Runs(spans).value == rs + [r];
        assert (rs + [r])[..|rs|] == rs;
        ConcatAppend(RunTexts(rs), [r.text]);
      } else {
        assert Concat([span.text]) == "";
      }
    }
  }

  /** A style sets its flag when its value is truthy, unlike the presence test of the
      JSON-to-pptx writer: `"bold": false` gives a plain run. */
  lemma RunOfStyles(span: Span)
    requires !("color" in span.styles && !span.styles["color"].JStr?)
    ensures RunOf(span).Success?
    ensures RunOf(span).value.bold <==> "bold" in span.styles && Json.Truthy(span.styles["bold"])
    ensures RunOf(span).value.underline <==> "underline" in span.styles && Json.Truthy(span.styles["underline"])
    ensures RunOf(span).value.text == span.text
    ensures RunOf(Span(span.text, map["bold" := Json.JBool(false)])).value.bold == false
  {}

  /** The runs crash exactly when a span with text has a colour that is no string. */
  lemma {:induction false} RunsSucceed(spans: seq<Span>)
    ensures Runs(spans).Success? <==>
      forall k :: 0 <= k < |spans| && spans[k].text != "" && "color" in spans[k].styles ==> spans[k].styles["color"].JStr?
  {
    if spans != [] {
      var init := spans[..|spans| - 1];
      RunsSucceed(init);
      assert forall k :: 0 <= k < |init| ==> init[k] == spans[k];
    }
  }

  // ---------------------------------------------------------------------------
  // Height estimates (lines 128, 252, 310, 414-415).

  function Sum(ns: seq<nat>): nat {
    if ns == [] then 0 else Sum(ns[..|ns| - 1]) + ns[|ns| - 1]
  }

  function TextLength(spans: seq<Span>): nat {
    if spans == [] then 0 else TextLength(spans[..|spans| - 1]) + |spans[|spans| - 1].text|
  }

  /** `chars // perLine + 1` */
  function LineEstimate(chars: nat, perLine: nat): nat
    requires perLine > 0
  {
    chars / perLine + 1
  }

  /** The estimate is the number of lines of `perLine` characters the text needs, plus one
      when it fills its last line exactly. */
  lemma LineEstimateSpec(chars: nat, perLine: nat)
    requires perLine > 0
    ensures LineEstimate(chars, perLine) >= 1
    ensures (LineEstimate(chars, perLine) - 1) * perLine <= chars < LineEstimate(chars, perLine) * perLine
  {}

  function ParagraphLines(spans: seq<Span>): nat { LineEstimate(TextLength(spans), 50) }

  function BlockquoteLines(spans: seq<Span>): nat { LineEstimate(TextLength(spans), 40) }

  lemma {:induction false} TextLengthIsConcat(spans: seq<Span>)
    ensures TextLength(spans) == |Concat(SpanTexts(spans))|
  {
    if spans != [] {
      TextLengthIsConcat(spans[..|spans| - 1]);
      ConcatAppend(SpanTexts(spans[..|spans| - 1]), [spans[|spans| - 1].text]);
    }
  }

  /** A blockquote, with its narrower lines, is never estimated shorter than a paragraph
      of the same spans; both count the text of the runs they write. */
  lemma QuoteAtLeastParagraph(spans: seq<Span>)
    requires Runs(spans).Success?
    ensures BlockquoteLines(spans) >= ParagraphLines(spans)
    ensures TextLength(spans) == |Concat(RunTexts(Runs(spans).value))|
  {
    RunsKeepText(spans);
    TextLengthIsConcat(spans);
  }

  /** The code shown: the language and a colon on a line of their own, then the code. */
  function CodeText(text: string, language: string): string {
    if language != "" then language + ":\n" + text else text
  }

  function CodeLines(text: string, language: string): nat {
    Count(CodeText(text, language), '\n') + 1
  }

  lemma {:induction false} CountAppend(a: string, b: string, c: char)
    ensures Count(a + b, c) == Count(a, c) + Count(b, c)
  {
    if a != [] {
      assert (a + b)[1..] == a[1..] + b;
      CountAppend(a[1..], b, c);
    } else {
      assert a + b == b;
    }
  }

  /** The line estimate of code is its number of lines; a language label adds its own. */
  lemma CodeLinesSpec(text: string, language: string)
    ensures CodeLines(text, "") == Count(text, '\n') + 1
    ensures language != "" ==> CodeLines(text, language) == Count(language, '\n') + 1 + CodeLines(text, "")
  {
    if language != "" {
      CountAppend(language, ":\n", '\n');
      CountAppend(language + ":\n", text, '\n');
      assert Count(":\n", '\n') == 1 by {
        assert ":\n"[1..] == "\n";
        assert "\n"[1..] == "";
      }
    }
  }

  // ---------------------------------------------------------------------------
  // Lists (`add_list_element`, lines 217-255).

  datatype SubItem = SubItem(level: Option<int>, text: string)

  datatype ListItem = ListItem(level: int, text: string, subitems: seq<SubItem>)

  /** One paragraph of the text frame: its indentation level and its text. */
  datatype Para = Para(level: int, text: string)

  function ItemText(i: nat, item: ListItem, numbered: bool): string {
    if numbered then IntToString(i + 1) + ". " + item.text else item.text
  }

  function SubText(i: nat, j: nat, sub: SubItem, numbered: bool): string {
    if numbered then IntToString(i + 1) + "." + IntToString(j + 1) + ". " + sub.text else sub.text
  }

  /** The paragraphs of the first `n` subitems of item `i`; a subitem without a level sits
      one level below its item. */
  function SubParas(i: nat, item: ListItem, numbered: bool, n: nat): seq<Para>
    requires n <= |item.subitems|
  {
    if n == 0 then []
    else
      var sub := item.subitems[n - 1];
      SubParas(i, item, numbered, n - 1) + [Para(sub.level.GetOr(item.level + 1), SubText(i, n - 1, sub, numbered))]
  }

  /** The paragraphs of the first `n` items, each followed by its subitems. */
  function ListParas(items: seq<ListItem>, numbered: bool, n: nat): seq<Para>
    requires n <= |items|
  {
    if n == 0 then []
    else
      var item := items[n - 1];
      ListParas(items, numbered, n - 1) + [Para(item.level, ItemText(n - 1, item, numbered))]
        + SubParas(n - 1, item, numbered, |item.subitems|)
  }

  /** `len(items) + sum(len(item.get("subitems", [])) for item in items)` over the first `n`. */
  function ItemCount(items: seq<ListItem>, n: nat): nat
    requires n <= |items|
  {
    if n == 0 then 0 else ItemCount(items, n - 1) + 1 + |items[n - 1].subitems|
  }

  /** The paragraphs a list adds; `numbered` is `element.get("style") == "number"`. */
  method AddList(items: seq<ListItem>, numbered: bool) returns (paras: seq<Para>)
    ensures paras == ListParas(items, numbered, |items|)
  {
    paras := [];
    var i := 0;
    while i < |items|
      invariant 0 <= i <= |items|
      invariant paras == ListParas(items, numbered, i)
    {
      var item := items[i];
      var start := paras + [Para(item.level, ItemText(i, item, numbered))];
      paras := start;
      var j := 0;
      while j < |item.subitems|
        invariant 0 <= j <= |item.subitems|
        invariant paras == start + SubParas(i, item, numbered, j)
      {
        var sub := item.subitems[j];
        paras := paras + [Para(sub.level.GetOr(item.level + 1), SubText(i, j, sub, numbered))];
        j := j + 1;
      }
      i := i + 1;
    }
  }

  lemma {:induction false} SubParasLength(i: nat, item: ListItem, numbered: bool, n: nat)
    requires n <= |item.subitems|
    ensures |SubParas(i, item, numbered, n)| == n
  {
    if n > 0 {
      SubParasLength(i, item, numbered, n - 1);
    }
  }

  /** The height estimate counts exactly the paragraphs the list writes, numbered or not;
      an empty list is estimated at no lines. */
  lemma {:induction false} ItemCountIsParagraphs(items: seq<ListItem>, numbered: bool, n: nat)
    requires n <= |items|
    ensures |ListParas(items, numbered, n)| == ItemCount(items, n)
    ensures ItemCount(items, n) >= n
  {
    if n > 0 {
      ItemCountIsParagraphs(items, numbered, n - 1);
      SubParasLength(n - 1, items[n - 1], numbered, |items[n - 1].subitems|);
    }
  }

  // ---------------------------------------------------------------------------
  // Tables (`add_table_element`, lines 436-474).

  datatype Cell = Cell(row: nat, col: nat, text: string)

  /** NoTable is the early `return top`. */
  datatype TablePlan = NoTable | Table(rows: nat, cols: nat, cells: seq<Cell>)

  function HeaderCells(headers: seq<string>, cols: nat, n: nat): seq<Cell>
    requires n <= |headers|
  {
    if n == 0 then []
    else HeaderCells(headers, cols, n - 1) + (if n - 1 < cols then [Cell(0, n - 1, headers[n - 1])] else [])
  }

  function RowCells(r: nat, row: seq<string>, cols: nat, n: nat): seq<Cell>
    requires n <= |row|
  {
    if n == 0 then []
    else RowCells(r, row, cols, n - 1) + (if n - 1 < cols then [Cell(r + 1, n - 1, row[n - 1])] else [])
  }

  function BodyCells(rows: seq<seq<string>>, cols: nat, n: nat): seq<Cell>
    requires n <= |rows|
  {
    if n == 0 then [] else BodyCells(rows, cols, n - 1) + RowCells(n - 1, rows[n - 1], cols, |rows[n - 1]|)
  }

  function TableCells(headers: seq<string>, rows: seq<seq<string>>, cols: nat): seq<Cell> {
    HeaderCells(headers, cols, |headers|) + BodyCells(rows, cols, |rows|)
  }

  /** The table as written: without headers, `cols` is the first row itself rather than its
      length, so `cols == 0` never holds and the table is created with a list for its width
      in columns. */
  function PlanTableAsWritten(headers: seq<string>, rows: seq<seq<string>>): Result<TablePlan, Crash> {
    if headers == [] && rows == [] then Success(NoTable)
    else if headers != [] then Success(Table(1 + |rows|, |headers|, TableCells(headers, rows, |headers|)))
    else Failure(TypeError)
  }

  /** The number of columns: the headers', or else the first row's. */
  function TableColumns(headers: seq<string>, rows: seq<seq<string>>): nat {
    if headers != [] then |headers| else if rows != [] then |rows[0]| else 0
  }

  function PlanTable(headers: seq<string>, rows: seq<seq<string>>): TablePlan {
    if headers == [] && rows == [] then NoTable
    else
      var cols := TableColumns(headers, rows);
      if cols == 0 then NoTable else Table(1 + |rows|, cols, TableCells(headers, rows, cols))
  }

  lemma CellsStart(headers: seq<string>, rows: seq<seq<string>>, cols: nat)
    ensures HeaderCells(headers, cols, 0) == [] && BodyCells(rows, cols, 0) == []
  {
  }

  lemma HeaderStep(headers: seq<string>, cols: nat, n: nat)
    requires n < |headers|
    ensures HeaderCells(headers, cols, n + 1) == HeaderCells(headers, cols, n) + (if n < cols then [Cell(0, n, headers[n])] else [])
  {
  }

  lemma RowStart(r: nat, row: seq<string>, cols: nat)
    ensures RowCells(r, row, cols, 0) == []
  {
  }

  lemma RowStep(r: nat, row: seq<string>, cols: nat, n: nat)
    requires n < |row|
    ensures RowCells(r, row, cols, n + 1) == RowCells(r, row, cols, n) + (if n < cols then [Cell(r + 1, n, row[n])] else [])
  {
  }

  lemma BodyStep(rows: seq<seq<string>>, cols: nat, n: nat)
    requires n < |rows|
    ensures BodyCells(rows, cols, n + 1) == BodyCells(rows, cols, n) + RowCells(n, rows[n], cols, |rows[n]|)
  {
    hide RowCells;
  }

  /** The table a table element adds, as written: one header row and a row per data row,
      with the cells written in order; rows without headers raise TypeError, because the
      first row itself is passed as the number of columns. Wherever it returns a table, that
      table is the corrected PlanTable. */
  method AddTable(headers: seq<string>, rows: seq<seq<string>>) returns (plan: Result<TablePlan, Crash>)
    ensures plan == PlanTableAsWritten(headers, rows)
    ensures plan.Success? ==> plan.value == PlanTable(headers, rows)
  {
    hide HeaderCells, RowCells, BodyCells;
    if headers == [] && rows == [] {
      return Success(NoTable);
    }
    if headers == [] {
      return Failure(TypeError);
    }
    var cols := |headers|;
    var cells: seq<Cell> := [];
    var i := 0;
    CellsStart(headers, rows, cols);
    while i < |headers|
      invariant 0 <= i <= |headers|
      invariant cells == HeaderCells(headers, cols, i)
    {
      HeaderStep(headers, cols, i);
      if i < cols {
        cells := cells + [Cell(0, i, headers[i])];
      }
      i := i + 1;
    }
    var rowIdx := 0;
    while rowIdx < |rows|
      invariant 0 <= rowIdx <= |rows|
      invariant cells == HeaderCells(headers, cols, |headers|) + BodyCells(rows, cols, rowIdx)
    {
      var rowData := rows[rowIdx];
      var before := cells;
      var colIdx := 0;
      RowStart(rowIdx, rowData, cols);
      BodyStep(rows, cols, rowIdx);
      while colIdx < |rowData|
        invariant 0 <= colIdx <= |rowData|
        invariant cells == before + RowCells(rowIdx, rowData, cols, colIdx)
      {
        RowStep(rowIdx, rowData, cols, colIdx);
        if colIdx < cols {
          cells := cells + [Cell(rowIdx + 1, colIdx, rowData[colIdx])];
        }
        colIdx := colIdx + 1;
      }
      rowIdx := rowIdx + 1;
    }
    return Success(Table(1 + |rows|, cols, cells));
  }

  /** A cell inside the table, holding the header or row entry at its place. */
  predicate CellFits(c: Cell, headers: seq<string>, rows: seq<seq<string>>, cols: nat) {
    c.col < cols
    && (c.row == 0 ==> c.col < |headers| && c.text == headers[c.col])
    && (c.row > 0 ==> c.row - 1 < |rows| && c.col < |rows[c.row - 1]| && c.text == rows[c.row - 1][c.col])
  }

  lemma {:induction false} HeaderCellsSpec(headers: seq<string>, rows: seq<seq<string>>, cols: nat, n: nat)
    requires n <= |headers|
    ensures forall c :: c in HeaderCells(headers, cols, n) ==> CellFits(c, headers, rows, cols) && c.row == 0
    ensures forall i :: 0 <= i < n && i < cols ==> Cell(0, i, headers[i]) in HeaderCells(headers, cols, n)
  {
    if n > 0 {
      HeaderCellsSpec(headers, rows, cols, n - 1);
    }
  }

  lemma {:induction false} RowCellsSpec(headers: seq<string>, rows: seq<seq<string>>, cols: nat, r: nat, n: nat)
    requires r < |rows| && n <= |rows[r]|
    ensures forall c :: c in RowCells(r, rows[r], cols, n) ==> CellFits(c, headers, rows, cols) && c.row == r + 1
    ensures forall k :: 0 <= k < n && k < cols ==> Cell(r + 1, k, rows[r][k]) in RowCells(r, rows[r], cols, n)
  {
    if n > 0 {
      RowCellsSpec(headers, rows, cols, r, n - 1);
    }
  }

  lemma {:induction false} BodyCellsSpec(headers: seq<string>, rows: seq<seq<string>>, cols: nat, n: nat)
    requires n <= |rows|
    ensures forall c :: c in BodyCells(rows, cols, n) ==> CellFits(c, headers, rows, cols) && 0 < c.row <= n
    ensures forall r, k :: 0 <= r < n && 0 <= k < |rows[r]| && k < cols ==> Cell(r + 1, k, rows[r][k]) in BodyCells(rows, cols, n)
  {
    if n > 0 {
      BodyCellsSpec(headers, rows, cols, n - 1);
      RowCellsSpec(headers, rows, cols, n - 1, |rows[n - 1]|);
    }
  }

  /** Every cell written lies inside the table and holds the entry at its place; every
      header and row entry below the column count is written, and the rest are ignored. */
  lemma TableCellsSpec(headers: seq<string>, rows: seq<seq<string>>)
    requires PlanTable(headers, rows).Table?
    ensures forall c :: c in PlanTable(headers, rows).cells ==>
      CellFits(c, headers, rows, PlanTable(headers, rows).cols) && c.row < PlanTable(headers, rows).rows
    ensures forall i :: 0 <= i < |headers| ==> Cell(0, i, headers[i]) in PlanTable(headers, rows).cells
    ensures forall r, k :: 0 <= r < |rows| && 0 <= k < |rows[r]| && k < PlanTable(headers, rows).cols ==>
      Cell(r + 1, k, rows[r][k]) in PlanTable(headers, rows).cells
  {
    var cols := TableColumns(headers, rows);
    HeaderCellsSpec(headers, rows, cols, |headers|);
    BodyCellsSpec(headers, rows, cols, |rows|);
  }

  /** Wherever the code as written returns, it agrees with the first row's length used as
      the column count. */
  lemma TableAsWrittenAgrees(headers: seq<string>, rows: seq<seq<string>>)
    requires headers != [] || rows == []
    ensures PlanTableAsWritten(headers, rows) == Success(PlanTable(headers, rows))
  {}

  /** Rows without headers always crash as written, even a single empty row, which has no
      columns and should leave the slide as it is. */
  lemma TableWithoutHeadersCrashes(rows: seq<seq<string>>)
    requires rows != []
    ensures PlanTableAsWritten([], rows) == Failure(TypeError)
    ensures PlanTable([], [[]]) == NoTable
    ensures PlanTable([], [["a"]]) == Table(2, 1, [Cell(1, 0, "a")])
  {
    assert RowCells(0, ["a"], 1, 1) == [Cell(1, 0, "a")];
    assert BodyCells([["a"]], 1, 1) == [Cell(1, 0, "a")];
  }
}
