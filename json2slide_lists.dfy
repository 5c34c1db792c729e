/** The nested-list flattener of json2slide.py (`process_list` and its inner `iter_token`):
    a list token with nested lists becomes one flat sequence of (depth, runs) records. */
module Json2SlideLists {
  import opened Wrappers
  import opened Mistune
  import opened Json2SlideRuns

  /** `{"type": "list_item", "depth": depth, "runs": runs}`; the records carry no ordered flag. */
  datatype ListRecord = ListRecord(depth: nat, runs: seq<Run>)

  /** `iter_token(token, depth)`; a None or empty result is the empty sequence. */
  function IterToken(n: Node, depth: nat): seq<ListRecord>
    decreases n
  {
    match n.kind
    case List => IterTokens(n.children, depth + 1)
    case ListItem => OwnRecord(ItemRuns(n.children), depth) + ItemExtras(n.children, depth)
    case BlockText => [ListRecord(depth, ParagraphRuns(n.children))]
    case _ => []
  }

  /** The records of the children of a `list` token, in order. */
  function IterTokens(cs: seq<Node>, depth: nat): seq<ListRecord>
    decreases cs
  {
    if cs == [] then [] else IterToken(cs[0], depth) + IterTokens(cs[1..], depth)
  }

  /** The `runs` an item's children leave behind: those of its LAST `block_text` child. */
  function ItemRuns(cs: seq<Node>): Option<seq<Run>> {
    if cs == [] then None
    else if cs[|cs| - 1].kind == BlockText then Some(ParagraphRuns(cs[|cs| - 1].children))
    else ItemRuns(cs[..|cs| - 1])
  }

  /** `if runs: result.append(...)`; None and empty runs give no record. */
  function OwnRecord(runs: Option<seq<Run>>, depth: nat): seq<ListRecord> {
    if runs.Some? && runs.value != [] then [ListRecord(depth, runs.value)] else []
  }

  /** `extra_items`: every child that is not a `block_text`, processed at the item's depth. */
  function ItemExtras(cs: seq<Node>, depth: nat): seq<ListRecord>
    decreases cs
  {
    if cs == [] then []
    else (if cs[0].kind == BlockText then [] else IterToken(cs[0], depth)) + ItemExtras(cs[1..], depth)
  }

  /** `process_list(list_token)["children"]` */
  function ProcessList(listToken: Node): seq<ListRecord> {
    IterTokens(listToken.children, 0)
  }

  // ---------------------------------------------------------------------------

  function Shift(rs: seq<ListRecord>, k: nat): (r: seq<ListRecord>)
    ensures |r| == |rs|
    ensures forall i :: 0 <= i < |rs| ==> r[i] == ListRecord(rs[i].depth + k, rs[i].runs)
  {
    if rs == [] then [] else [ListRecord(rs[0].depth + k, rs[0].runs)] + Shift(rs[1..], k)
  }

  lemma ShiftAppend(a: seq<ListRecord>, b: seq<ListRecord>, k: nat)
    ensures Shift(a + b, k) == Shift(a, k) + Shift(b, k)
  {
  }

  /** Depth is relative: starting `k` levels deeper shifts every record by exactly `k`. */
  lemma {:induction false} IterTokenShift(n: Node, depth: nat, k: nat)
    ensures IterToken(n, depth + k) == Shift(IterToken(n, depth), k)
    decreases n, 2
  {
    match n.kind
    case List => IterTokensShift(n.children, depth + 1, k);
    case ListItem =>
      ItemExtrasShift(n.children, depth, k);
      ShiftAppend(OwnRecord(ItemRuns(n.children), depth), ItemExtras(n.children, depth), k);
    case BlockText =>
    case _ =>
  }

  lemma {:induction false} IterTokensShift(cs: seq<Node>, depth: nat, k: nat)
    ensures IterTokens(cs, depth + k) == Shift(IterTokens(cs, depth), k)
    decreases cs, 1
  {
    if cs != [] {
      IterTokenShift(cs[0], depth, k);
      IterTokensShift(cs[1..], depth, k);
      ShiftAppend(IterToken(cs[0], depth), IterTokens(cs[1..], depth), k);
    }
  }

  lemma {:induction false} ItemExtrasShift(cs: seq<Node>, depth: nat, k: nat)
    ensures ItemExtras(cs, depth + k) == Shift(ItemExtras(cs, depth), k)
    decreases cs, 1
  {
    if cs != [] {
      if cs[0].kind != BlockText {
        IterTokenShift(cs[0], depth, k);
      }
      ItemExtrasShift(cs[1..], depth, k);
      ShiftAppend(if cs[0].kind == BlockText then [] else IterToken(cs[0], depth), ItemExtras(cs[1..], depth), k);
    }
  }

  /** Number of `list` tokens on the deepest path of a forest. */
  function Nesting(cs: seq<Node>): nat
    decreases cs
  {
    if cs == [] then 0
    else
      var here := (if cs[0].kind == List then 1 else 0) + Nesting(cs[0].children);
      var rest := Nesting(cs[1..]);
      if here >= rest then here else rest
  }

  /** Every record of a token processed at `depth` lies between `depth` and `depth` plus
      the number of nested `list` tokens in it; a `list` token pushes its items one deeper. */
  lemma {:induction false} IterTokenDepthBounds(n: Node, depth: nat)
    ensures forall r :: r in IterToken(n, depth) ==>
      depth <= r.depth <= depth + (if n.kind == List then 1 else 0) + Nesting(n.children)
    ensures n.kind == List ==> forall r :: r in IterToken(n, depth) ==> depth + 1 <= r.depth
    decreases n, 2
  {
    match n.kind
    case List => IterTokensDepthBounds(n.children, depth + 1);
    case ListItem => ItemExtrasDepthBounds(n.children, depth);
    case BlockText =>
    case _ =>
  }

  lemma {:induction false} IterTokensDepthBounds(cs: seq<Node>, depth: nat)
    ensures forall r :: r in IterTokens(cs, depth) ==> depth <= r.depth <= depth + Nesting(cs)
    decreases cs, 1
  {
    if cs != [] {
      IterTokenDepthBounds(cs[0], depth);
      IterTokensDepthBounds(cs[1..], depth);
    }
  }

  lemma {:induction false} ItemExtrasDepthBounds(cs: seq<Node>, depth: nat)
    ensures forall r :: r in ItemExtras(cs, depth) ==> depth <= r.depth <= depth + Nesting(cs)
    decreases cs, 1
  {
    if cs != [] {
      if cs[0].kind != BlockText {
        IterTokenDepthBounds(cs[0], depth);
      }
      ItemExtrasDepthBounds(cs[1..], depth);
    }
  }

  /** Top-level items of a list get depth 0: the own record of every `list_item` child of the
      list token is in the result at depth 0, every record of a list nested directly in such
      an item is in the result at depth at least 1, and no depth exceeds the list nesting
      below the list token. */
  lemma ProcessListDepths(listToken: Node)
    ensures forall r :: r in ProcessList(listToken) ==> r.depth <= Nesting(listToken.children)
    ensures forall i | 0 <= i < |listToken.children| && listToken.children[i].kind == ListItem ::
      forall r :: r in OwnRecord(ItemRuns(listToken.children[i].children), 0) ==>
        r in ProcessList(listToken) && r.depth == 0
    ensures forall i, j | 0 <= i < |listToken.children| && listToken.children[i].kind == ListItem
      && 0 <= j < |listToken.children[i].children| && listToken.children[i].children[j].kind == List ::
      forall r :: r in IterToken(listToken.children[i].children[j], 0) ==>
        r in ProcessList(listToken) && 1 <= r.depth
  {
    var cs := listToken.children;
    IterTokensDepthBounds(cs, 0);
    forall i | 0 <= i < |cs| && cs[i].kind == ListItem
      ensures forall r :: r in OwnRecord(ItemRuns(cs[i].children), 0) ==> r in ProcessList(listToken) && r.depth == 0
    {
      IterTokensContains(cs, 0, i);
    }
    forall i, j | 0 <= i < |cs| && cs[i].kind == ListItem && 0 <= j < |cs[i].children| && cs[i].children[j].kind == List
      ensures forall r :: r in IterToken(cs[i].children[j], 0) ==> r in ProcessList(listToken) && 1 <= r.depth
    {
      IterTokensContains(cs, 0, i);
      ItemExtrasContains(cs[i].children, 0, j);
      IterTokenDepthBounds(cs[i].children[j], 0);
    }
  }

  /** The records of each child of a `list` token are among the list's records. */
  lemma {:induction false} IterTokensContains(cs: seq<Node>, depth: nat, i: nat)
    requires i < |cs|
    ensures forall r :: r in IterToken(cs[i], depth) ==> r in IterTokens(cs, depth)
    decreases i
  {
    if i > 0 {
      IterTokensContains(cs[1..], depth, i - 1);
      assert cs[1..][i - 1] == cs[i];
    }
  }

  /** The records of each nested child of an item are among the item's extra records. */
  lemma {:induction false} ItemExtrasContains(cs: seq<Node>, depth: nat, j: nat)
    requires j < |cs| && cs[j].kind != BlockText
    ensures forall r :: r in IterToken(cs[j], depth) ==> r in ItemExtras(cs, depth)
    decreases j
  {
    if j > 0 {
      ItemExtrasContains(cs[1..], depth, j - 1);
      assert cs[1..][j - 1] == cs[j];
    }
  }

  /** An item's own record comes first, before the records of its nested lists; an item
      whose block_text gives no runs has no record of its own. */
  lemma ItemRecordFirst(n: Node, depth: nat)
    requires n.kind == ListItem
    ensures ItemRuns(n.children).Some? && ItemRuns(n.children).value != [] ==>
      IterToken(n, depth) == [ListRecord(depth, ItemRuns(n.children).value)] + ItemExtras(n.children, depth)
    ensures !(ItemRuns(n.children).Some? && ItemRuns(n.children).value != []) ==>
      IterToken(n, depth) == ItemExtras(n.children, depth)
  {
  }
}
