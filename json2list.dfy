/** test/json2list.py: `parse_tokens`, which prints a token tree as an indented list. */
module Json2List {
  import opened Wrappers
  import opened Strings
  import opened Mistune

  /** `token.get('raw') or token.get('attrs', {}).get('url', '')` */
  function Content(t: Node): string {
    if t.raw.Some? && t.raw.value != "" then t.raw.value
    else if t.attrs.url.Some? then t.attrs.url.value
    else ""
  }

  /** The line of one token at depth `indent`. */
  function LineOf(t: Node, indent: nat): string {
    var text := if Content(t) != "" then TypeName(t.kind) + ": " + Content(t) else TypeName(t.kind);
    Repeat(' ', 2 * indent) + "- " + text + "\n"
  }

  /** The lines of a forest in pre-order: each token, then its children one level deeper. */
  function Lines(tokens: seq<Node>, indent: nat): seq<string>
    decreases tokens
  {
    if tokens == [] then []
    else
      [LineOf(tokens[0], indent)]
      + (if tokens[0].hasChildren then Lines(tokens[0].children, indent + 1) else [])
      + Lines(tokens[1..], indent)
  }

  function Entry(t: Node, indent: nat): seq<string>
    decreases t, 0
  {
    [LineOf(t, indent)] + (if t.hasChildren then Lines(t.children, indent + 1) else [])
  }

  lemma {:induction false} LinesSnoc(tokens: seq<Node>, t: Node, indent: nat)
    ensures Lines(tokens + [t], indent) == Lines(tokens, indent) + Entry(t, indent)
    decreases tokens
  {
    if tokens == [] {
      assert [] + [t] == [t];
      assert [t][1..] == [];
    } else {
      assert (tokens + [t])[1..] == tokens[1..] + [t];
      LinesSnoc(tokens[1..], t, indent);
    }
  }

  lemma LinesPrefixStep(tokens: seq<Node>, i: nat, indent: nat)
    requires i < |tokens|
    ensures Concat(Lines(tokens[..i + 1], indent)) ==
      Concat(Lines(tokens[..i], indent)) + LineOf(tokens[i], indent)
      + (if tokens[i].hasChildren then Concat(Lines(tokens[i].children, indent + 1)) else "")
  {
    var t := tokens[i];
    assert tokens[..i + 1] == tokens[..i] + [t];
    LinesSnoc(tokens[..i], t, indent);
    ConcatAppend(Lines(tokens[..i], indent), Entry(t, indent));
    var children := if t.hasChildren then Lines(t.children, indent + 1) else [];
    ConcatAppend([LineOf(t, indent)], children);
    assert Concat([LineOf(t, indent)]) == LineOf(t, indent);
  }

  /** `parse_tokens(tokens, indent)` */
  method ParseTokens(tokens: seq<Node>, indent: nat) returns (markdown: string)
    ensures markdown == Concat(Lines(tokens, indent))
    decreases tokens
  {
    markdown := "";
    var i := 0;
    while i < |tokens|
      invariant 0 <= i <= |tokens|
      invariant markdown == Concat(Lines(tokens[..i], indent))
    {
      var token := tokens[i];
      var sub := "";
      if token.hasChildren {
        assert token in tokens;
        sub := ParseTokens(token.children, indent + 1);
      }
      LinesPrefixStep(tokens, i, indent);
      markdown := markdown + LineOf(token, indent) + sub;
      i := i + 1;
    }
    assert tokens[..i] == tokens;
  }

  /** Every token of the tree, at every depth, gives exactly one line (when no child list is
      hidden behind a missing `children` key); an empty list gives "". */
  lemma {:induction false} OneLinePerToken(tokens: seq<Node>, indent: nat)
    requires AllListed(tokens)
    ensures |Lines(tokens, indent)| == Size(tokens)
    ensures Lines([], indent) == [] && Concat(Lines([], indent)) == ""
    decreases tokens
  {
    if tokens != [] {
      assert tokens[0] in tokens;
      OneLinePerToken(tokens[0].children, indent + 1);
      OneLinePerToken(tokens[1..], indent);
    }
  }

  /** Every child list of the tree sits behind a `children` key. */
  predicate AllListed(tokens: seq<Node>)
    decreases tokens
  {
    forall k :: 0 <= k < |tokens| ==>
      (tokens[k].hasChildren || tokens[k].children == []) && AllListed(tokens[k].children)
  }

  /** The first line is the first token's, with two spaces per level, `- `, the type, and
      `: content` when the content is not empty; its children follow right after it. */
  lemma FirstLines(t: Node, rest: seq<Node>, indent: nat)
    ensures Lines([t] + rest, indent)[0] == Repeat(' ', 2 * indent) + "- " +
      (if Content(t) != "" then TypeName(t.kind) + ": " + Content(t) else TypeName(t.kind)) + "\n"
    ensures Lines([t] + rest, indent) == Entry(t, indent) + Lines(rest, indent)
  {
    assert ([t] + rest)[1..] == rest;
  }

  /** A token's content is its non-empty `raw`, else its `attrs.url`, else empty. */
  lemma ContentSpec(t: Node)
    ensures t.raw.Some? && t.raw.value != "" ==> Content(t) == t.raw.value
    ensures (t.raw.None? || t.raw.value == "") && t.attrs.url.Some? ==> Content(t) == t.attrs.url.value
    ensures (t.raw.None? || t.raw.value == "") && t.attrs.url.None? ==> Content(t) == ""
  {}
}
