/** The inline run builder of json2slide.py (`paragraph` and its inner `process_token`):
    a token tree becomes a flat sequence of styled runs, one per token that carries `raw`. */
module Json2SlideRuns {
  import opened Wrappers
  import opened Mistune

  /** The style dict passed down the tree: a key is present exactly when its flag is true
      (`hyperlink` when it is Some). */
  datatype Style = Style(bold: bool, italic: bool, monospace: bool, hyperlink: Option<string>)

  const NoStyle := Style(false, false, false, None)

  /** `{**style, 'text': raw}` */
  datatype Run = Run(bold: bool, italic: bool, monospace: bool, hyperlink: Option<string>, text: string)

  /** The copy of the inherited style a token hands to itself and its children. */
  function StyleFor(n: Node, inherited: Style): (s: Style)
    ensures n.kind == Strong ==> s.bold
    ensures n.kind == Emphasis ==> s.italic
    ensures n.kind == Codespan ==> s.monospace
    ensures n.kind == Link && n.attrs.url.Some? ==> s.hyperlink == n.attrs.url
    ensures inherited.bold ==> s.bold
    ensures inherited.italic ==> s.italic
    ensures inherited.monospace ==> s.monospace
    ensures inherited.hyperlink.Some? ==> s.hyperlink.Some?
    ensures s.bold ==> inherited.bold || n.kind == Strong
    ensures s.italic ==> inherited.italic || n.kind == Emphasis
    ensures s.monospace ==> inherited.monospace || n.kind == Codespan
  {
    match n.kind
    case Strong => inherited.(bold := true)
    case Emphasis => inherited.(italic := true)
    case Codespan => inherited.(monospace := true)
    case Link => if n.attrs.url.Some? then inherited.(hyperlink := n.attrs.url) else inherited
    case _ => inherited
  }

  /** `process_token(token, current_style)` */
  function ProcessToken(n: Node, inherited: Style): seq<Run>
    decreases n
  {
    var s := StyleFor(n, inherited);
    (if n.raw.Some? then [Run(s.bold, s.italic, s.monospace, s.hyperlink, n.raw.value)] else [])
    + ProcessTokens(n.children, s)
  }

  /** The runs of a list of sibling tokens, each started from the same inherited style. */
  function ProcessTokens(cs: seq<Node>, inherited: Style): seq<Run>
    decreases cs
  {
    if cs == [] then [] else ProcessToken(cs[0], inherited) + ProcessTokens(cs[1..], inherited)
  }

  /** `paragraph(children)` (named apart from the `paragraph` token kind) */
  function ParagraphRuns(children: seq<Node>): seq<Run> {
    ProcessTokens(children, NoStyle)
  }

  // ---------------------------------------------------------------------------
  // Reference definitions the builder is proved against.

  /** The `raw` values of a forest, in pre-order (parent before children, left to right). */
  function PreorderRaws(cs: seq<Node>): seq<string>
    decreases cs
  {
    if cs == [] then []
    else (if cs[0].raw.Some? then [cs[0].raw.value] else []) + PreorderRaws(cs[0].children) + PreorderRaws(cs[1..])
  }

  function Texts(runs: seq<Run>): seq<string> {
    if runs == [] then [] else [runs[0].text] + Texts(runs[1..])
  }

  lemma {:induction false} TextsAppend(a: seq<Run>, b: seq<Run>)
    ensures Texts(a + b) == Texts(a) + Texts(b)
    ensures |Texts(a)| == |a|
  {
    if a == [] {
      assert a + b == b;
    } else {
      assert (a + b)[1..] == a[1..] + b;
      TextsAppend(a[1..], b);
    }
  }

  /** Some token of the forest, at any depth, has kind `k`. */
  predicate HasKind(cs: seq<Node>, k: Kind)
    decreases cs
  {
    cs != [] && (cs[0].kind == k || HasKind(cs[0].children, k) || HasKind(cs[1..], k))
  }

  /** Siblings do not influence each other: the runs of a concatenated forest are the
      concatenated runs (the style is copied, never shared). */
  lemma {:induction false} ProcessTokensAppend(a: seq<Node>, b: seq<Node>, s: Style)
    ensures ProcessTokens(a + b, s) == ProcessTokens(a, s) + ProcessTokens(b, s)
  {
    if a == [] {
      assert a + b == b;
    } else {
      assert (a + b)[0] == a[0];
      assert (a + b)[1..] == a[1..] + b;
      ProcessTokensAppend(a[1..], b, s);
    }
  }

  /** One run per raw-bearing token, carrying that token's text, in pre-order. */
  lemma {:induction false} RunTextsArePreorderRaws(cs: seq<Node>, s: Style)
    ensures Texts(ProcessTokens(cs, s)) == PreorderRaws(cs)
    ensures |ProcessTokens(cs, s)| == |PreorderRaws(cs)|
    decreases cs
  {
    if cs != [] {
      var n := cs[0];
      var st := StyleFor(n, s);
      var own := if n.raw.Some? then [Run(st.bold, st.italic, st.monospace, st.hyperlink, n.raw.value)] else [];
      RunTextsArePreorderRaws(n.children, st);
      RunTextsArePreorderRaws(cs[1..], s);
      TextsAppend(own, ProcessTokens(n.children, st));
      TextsAppend(own + ProcessTokens(n.children, st), ProcessTokens(cs[1..], s));
      TextsAppend(ProcessTokens(n.children, st), ProcessTokens(cs[1..], s));
      TextsAppend(own, ProcessTokens(n.children, st) + ProcessTokens(cs[1..], s));
      assert ProcessTokens(cs, s) == own + ProcessTokens(n.children, st) + ProcessTokens(cs[1..], s);
    }
  }

  /** Styles are inherited: whatever the parent style sets, every run below it carries. */
  lemma {:induction false} StylesInherited(cs: seq<Node>, s: Style)
    ensures forall r :: r in ProcessTokens(cs, s) ==>
      (s.bold ==> r.bold) && (s.italic ==> r.italic) && (s.monospace ==> r.monospace)
      && (s.hyperlink.Some? ==> r.hyperlink.Some?)
    decreases cs
  {
    if cs != [] {
      StylesInherited(cs[0].children, StyleFor(cs[0], s));
      StylesInherited(cs[1..], s);
    }
  }

  /** Styles come only from ancestors: without a `strong` token in the forest and without
      bold inherited, no run is bold (likewise for emphasis/italic and codespan/monospace). */
  lemma {:induction false} StylesOnlyFromAncestors(cs: seq<Node>, s: Style)
    ensures !s.bold && !HasKind(cs, Strong) ==> forall r :: r in ProcessTokens(cs, s) ==> !r.bold
    ensures !s.italic && !HasKind(cs, Emphasis) ==> forall r :: r in ProcessTokens(cs, s) ==> !r.italic
    ensures !s.monospace && !HasKind(cs, Codespan) ==> forall r :: r in ProcessTokens(cs, s) ==> !r.monospace
    decreases cs
  {
    if cs != [] {
      StylesOnlyFromAncestors(cs[0].children, StyleFor(cs[0], s));
      StylesOnlyFromAncestors(cs[1..], s);
    }
  }

  /** A `strong` token makes every run of its own subtree bold. */
  lemma StrongSubtreeBold(n: Node, s: Style)
    requires n.kind == Strong
    ensures forall r :: r in ProcessToken(n, s) ==> r.bold
  {
    StylesInherited(n.children, StyleFor(n, s));
  }
}
