/** The token tree the mistune parser (with the repository's plugins) hands to the segmenters. */
module Mistune {
  import opened Wrappers

  /** The `type` of a token; `Other` carries only a type name not listed here (`ValidKind`). */
  datatype Kind =
    | Heading | Paragraph | Text | Strong | Emphasis | Codespan | Link | Image
    | Softbreak | Linebreak | Hardbreak | BlockText | List | ListItem | BlockQuote
    | BlockCode | Table | BlankLine | WildcardBreak
    | ThematicBreak(markerType: Option<string>)   // `marker_type`, set by the custom rule parser
    | CommentBlock(key: string, value: string)    // `[key]: # (value)` lines
    | Other(name: string)

  /** The `attrs` entries the sources read; an absent `attrs` is all None. */
  datatype Attrs = Attrs(level: Option<int>, url: Option<string>, info: Option<string>, ordered: Option<bool>)

  /** A token: `raw` and `children` as Options of their keys. `children` holds the
      list when `hasChildren` (the key is present) and is empty otherwise. */
  datatype Node = Node(kind: Kind, raw: Option<string>, hasChildren: bool, children: seq<Node>, attrs: Attrs)

  const NoAttrs := Attrs(None, None, None, None)

  /** The token's `type` string. */
  function TypeName(k: Kind): string {
    match k
    case Heading => "heading"
    case Paragraph => "paragraph"
    case Text => "text"
    case Strong => "strong"
    case Emphasis => "emphasis"
    case Codespan => "codespan"
    case Link => "link"
    case Image => "image"
    case Softbreak => "softbreak"
    case Linebreak => "linebreak"
    case Hardbreak => "hardbreak"
    case BlockText => "block_text"
    case List => "list"
    case ListItem => "list_item"
    case BlockQuote => "block_quote"
    case BlockCode => "block_code"
    case Table => "table"
    case BlankLine => "blank_line"
    case WildcardBreak => "wildcard_break"
    case ThematicBreak(_) => "thematic_break"
    case CommentBlock(_, _) => "comment_block"
    case Other(name) => name
  }

  /** The type names of the listed kinds. */
  const ListedNames: set<string> := {
    "heading", "paragraph", "text", "strong", "emphasis", "codespan", "link", "image",
    "softbreak", "linebreak", "hardbreak", "block_text", "list", "list_item", "block_quote",
    "block_code", "table", "blank_line", "wildcard_break", "thematic_break", "comment_block"}

  /** A token type decoded from its name: a listed name always gives its own kind. */
  predicate ValidKind(k: Kind) {
    k.Other? ==> k.name !in ListedNames
  }

  /** With `Other` kept to unlisted names, the type name tells `Other` from the listed kinds,
      so no token type has two kinds. */
  lemma OtherIsUnlisted(k: Kind)
    requires ValidKind(k)
    ensures TypeName(k) in ListedNames <==> !k.Other?
  {
  }

  /** Number of tokens in a forest (every node, at every depth). */
  function Size(cs: seq<Node>): nat {
    if cs == [] then 0 else 1 + Size(cs[0].children) + Size(cs[1..])
  }
}
