/** The data side of json2pptx.py: turning the template's layout names into enum members,
    choosing a slide's layout with its fallback, and the dispatch and flag tables that
    decide what is written into the title and the placeholders. */
module Json2Pptx {
  import opened Wrappers
  import opened Strings
  import Json

  // ---------------------------------------------------------------------------
  // Member names (`get_slide_layout_enum`, lines 26-39).

  /** `\w` on one character: ASCII letters, digits and `_`; every non-ASCII character is
      taken as a letter. */
  predicate IsWordChar(c: char) {
    ('a' <= c <= 'z') || ('A' <= c <= 'Z') || IsDigit(c) || c == '_' || c >= '\U{80}'
  }

  /** `str.upper()` on ASCII letters; other characters are kept. */
  function UpperChar(c: char): char {
    if 'a' <= c <= 'z' then (c as int - 32) as char else c
  }

  function Upper(s: string): string {
    seq(|s|, k requires 0 <= k < |s| => UpperChar(s[k]))
  }

  /** Each non-word character replaced by `_`. */
  function Underscored(s: string): string {
    seq(|s|, k requires 0 <= k < |s| => if IsWordChar(s[k]) then s[k] else '_')
  }

  /** `re.sub(r"\W|^(?=\d)", "_", raw.upper())` */
  function Sanitize(raw: string): string {
    var u := Upper(raw);
    (if u != [] && IsDigit(u[0]) then "_" else "") + Underscored(u)
  }

  function DefaultName(idx: nat): string { "LAYOUT_" + IntToString(idx) }

  /** The member name before the duplicate check; `None` is a layout without a name. */
  function BaseName(raw: Option<string>, idx: nat): string {
    var n := Sanitize(raw.GetOr(DefaultName(idx)));
    if n == "" then DefaultName(idx) else n
  }

  /** One entry of `layout_members`; the list keeps the dict's insertion order. */
  datatype Member = Member(name: string, value: nat)

  function MaxNameLength(ms: seq<Member>): nat {
    if ms == [] then 0
    else if |ms[0].name| >= MaxNameLength(ms[1..]) then |ms[0].name| else MaxNameLength(ms[1..])
  }

  /** `layout_members.get(key)`, the first entry with that name. */
  function Lookup(ms: seq<Member>, key: string): (v: Option<nat>)
    ensures v.Some? ==> |key| <= MaxNameLength(ms)
    ensures v.Some? ==> exists i :: 0 <= i < |ms| && ms[i] == Member(key, v.value)
    ensures v.None? ==> forall i :: 0 <= i < |ms| ==> ms[i].name != key
  {
    if ms == [] then None
    else if ms[0].name == key then Some(ms[0].value)
    else Lookup(ms[1..], key)
  }

  /** `layout_members[key] = v`: an existing entry keeps its place, a new one goes last. */
  function Put(ms: seq<Member>, key: string, v: nat): seq<Member> {
    if ms == [] then [Member(key, v)]
    else if ms[0].name == key then [Member(key, v)] + ms[1..]
    else [ms[0]] + Put(ms[1..], key, v)
  }

  predicate DistinctNames(ms: seq<Member>) {
    forall i, j :: 0 <= i < j < |ms| ==> ms[i].name != ms[j].name
  }

  /** `if member_name in layout_members: member_name = f"{member_name}_{idx}"` */
  function MemberName(ms: seq<Member>, raw: Option<string>, idx: nat): string {
    var n := BaseName(raw, idx);
    if Lookup(ms, n).Some? then n + "_" + IntToString(idx) else n
  }

  /** `layout_members` after the first `n` layouts. */
  function MembersOf(names: seq<Option<string>>, n: nat): seq<Member>
    requires n <= |names|
  {
    if n == 0 then []
    else
      var ms := MembersOf(names, n - 1);
      Put(ms, MemberName(ms, names[n - 1], n - 1), n - 1)
  }

  /** `get_slide_layout_enum(prs)` on the names of the template's layouts, in order. */
  method GetSlideLayoutEnum(names: seq<Option<string>>) returns (layoutMembers: seq<Member>)
    ensures layoutMembers == MembersOf(names, |names|)
  {
    layoutMembers := [];
    var idx := 0;
    while idx < |names|
      invariant 0 <= idx <= |names|
      invariant layoutMembers == MembersOf(names, idx)
    {
      var memberName := Sanitize(names[idx].GetOr(DefaultName(idx)));
      if memberName == "" {
        memberName := DefaultName(idx);
      }
      if Lookup(layoutMembers, memberName).Some? {
        memberName := memberName + "_" + IntToString(idx);
      }
      layoutMembers := Put(layoutMembers, memberName, idx);
      idx := idx + 1;
    }
  }

  // ---------------------------------------------------------------------------
  // Layout choice (`convert_json_to_pptx`, lines 69-82).

  datatype Crash =
    | NotAString      // `.upper()` on a layout that is no string
    | NoLayout        // `prs.slide_layouts[None]`
    | NotAnObject     // `.get` on a title that is no dict
    | NotAList        // iterating over runs that are not iterable
    | RunNotAnObject  // `run.get` on a run that is no dict

  /** `slide.get("layout", "title_and_content").upper()` */
  function LayoutKey(slide: map<string, Json.Json>): Result<string, Crash> {
    match Json.Get(slide, "layout", Json.JStr("title_and_content"))
    case JStr(s) => Success(Upper(s))
    case _ => Failure(NotAString)
  }

  /** The layout index of a slide: its own layout's member, else the `TITLE_AND_CONTENT`
      member, else the crash of indexing the layouts with None. */
  function LayoutIndex(ms: seq<Member>, slide: map<string, Json.Json>): Result<nat, Crash> {
    match LayoutKey(slide)
    case Failure(e) => Failure(e)
    case Success(key) =>
      match Lookup(ms, key)
      case Some(v) => Success(v)
      case None =>
        match Lookup(ms, "TITLE_AND_CONTENT")
        case Some(v) => Success(v)
        case None => Failure(NoLayout)
  }

  /** The fallback loop: `for layout in layouts: if layout.name == "TITLE_AND_CONTENT"`. */
  method FindDefaultLayout(layouts: seq<Member>) returns (layoutIndex: Option<nat>)
    ensures layoutIndex == Lookup(layouts, "TITLE_AND_CONTENT")
  {
    layoutIndex := None;
    var i := 0;
    while i < |layouts|
      invariant 0 <= i <= |layouts|
      invariant Lookup(layouts, "TITLE_AND_CONTENT") == Lookup(layouts[i..], "TITLE_AND_CONTENT")
    {
      if layouts[i].name == "TITLE_AND_CONTENT" {
        layoutIndex := Some(layouts[i].value);
        break;
      }
      assert layouts[i..][1..] == layouts[i + 1..];
      i := i + 1;
    }
  }

  method ChooseLayout(layouts: seq<Member>, slide: map<string, Json.Json>) returns (r: Result<nat, Crash>)
    ensures r == LayoutIndex(layouts, slide)
  {
    var key := LayoutKey(slide);
    if key.Failure? {
      return Failure(key.error);
    }
    var found := Lookup(layouts, key.value);
    if found.Some? {
      return Success(found.value);
    }
    var layoutIndex := FindDefaultLayout(layouts);
    if layoutIndex.None? {
      return Failure(NoLayout);
    }
    return Success(layoutIndex.value);
  }

  // ---------------------------------------------------------------------------
  // Title, placeholders, tokens and runs (lines 86-145).

  /** The `title` default as written: the runs sit one level too deep, under "title". */
  const DefaultTitle: Json.Json :=
    Json.JObject(map["title" := Json.JObject(map["runs" := Json.JArray([Json.JObject(map["text" := Json.JStr("제목없음.")])])])])

  /** What `process_runs` iterates over: the items of a list, the characters of a string or
      the keys of a dict. Each must be a dict, since `run.get` is called on it, so only a list
      of dicts, an empty string and an empty dict get through; the rest are not iterable. */
  function RunsOf(runs: Json.Json): Result<seq<Json.Json>, Crash> {
    match runs
    case JArray(items) =>
      if forall i | 0 <= i < |items| :: items[i].JObject? then Success(items) else Failure(RunNotAnObject)
    case JStr(chars) => if chars == "" then Success([]) else Failure(RunNotAnObject)
    case JObject(keys) => if keys == map[] then Success([]) else Failure(RunNotAnObject)
    case _ => Failure(NotAList)
  }

  /** The runs written into the title shape, or None when the title is empty (falsy). */
  function TitleRunsWith(slide: map<string, Json.Json>, default: Json.Json): Result<Option<seq<Json.Json>>, Crash> {
    match Json.Get(slide, "title", default)
    case JObject(title) =>
      if title == map[] then Success(None)
      else
        (match RunsOf(Json.Get(title, "runs", Json.JArray([])))
         case Success(runs) => Success(Some(runs))
         case Failure(crash) => Failure(crash))
    case _ => Failure(NotAnObject)
  }

  function TitleRuns(slide: map<string, Json.Json>): Result<Option<seq<Json.Json>>, Crash> {
    TitleRunsWith(slide, DefaultTitle)
  }

  /** The `title` default with its runs where `title.get("runs")` looks for them. */
  const IntendedDefaultTitle: Json.Json :=
    Json.JObject(map["runs" := Json.JArray([Json.JObject(map["text" := Json.JStr("제목없음.")])])])

  function IntendedTitleRuns(slide: map<string, Json.Json>): Result<Option<seq<Json.Json>>, Crash> {
    TitleRunsWith(slide, IntendedDefaultTitle)
  }

  /** `process_token`: what a token does to its placeholder. */
  datatype Action = AddParagraph(runs: Json.Json) | InsertPicture(url: Json.Json) | Ignore

  function TokenAction(token: map<string, Json.Json>): Action {
    var t := Json.Get(token, "type", Json.JStr(""));
    if t == Json.JStr("paragraph") then AddParagraph(Json.Get(token, "runs", Json.JArray([])))
    else if t == Json.JStr("image") then InsertPicture(Json.Get(token, "url", Json.JStr("")))
    else Ignore
  }

  /** The format one run dict gives its pptx run. */
  datatype RunFormat = RunFormat(text: Json.Json, bold: bool, italic: bool, fontName: Option<string>, hyperlink: Option<Json.Json>)

  function FormatRun(run: map<string, Json.Json>): RunFormat {
    RunFormat(
      Json.Get(run, "text", Json.JStr("")),
      "bold" in run,
      "italic" in run,
      if "monospace" in run then Some("Consolas") else None,
      if "hyperlink" in run then Some(run["hyperlink"]) else None)
  }

  /** Placeholder list k (from 1) goes to shape k of the slide. */
  datatype Write = Write(shape: nat, tokens: Json.Json)

  /** The writes the placeholder loop performs on a slide with `shapeCount` placeholders. */
  function PlannedWrites(shapeCount: nat, lists: seq<Json.Json>, n: nat): seq<Write>
    requires n <= |lists|
  {
    if n == 0 then []
    else PlannedWrites(shapeCount, lists, n - 1) + (if shapeCount > n then [Write(n, lists[n - 1])] else [])
  }

  /** `for pholder_data in slide.get("placeholders", [])` with its counter. */
  method PlaceholderLoop(shapeCount: nat, lists: seq<Json.Json>) returns (writes: seq<Write>)
    ensures writes == PlannedWrites(shapeCount, lists, |lists|)
  {
    writes := [];
    var pholderNo := 0;
    while pholderNo < |lists|
      invariant 0 <= pholderNo <= |lists|
      invariant writes == PlannedWrites(shapeCount, lists, pholderNo)
    {
      var pholderData := lists[pholderNo];
      pholderNo := pholderNo + 1;
      if shapeCount > pholderNo {
        writes := writes + [Write(pholderNo, pholderData)];
      }
    }
  }

  // ---------------------------------------------------------------------------
  // Properties of the member list.

  lemma {:induction false} PutLookup(ms: seq<Member>, key: string, v: nat, other: string)
    ensures Lookup(Put(ms, key, v), key) == Some(v)
    ensures other != key ==> Lookup(Put(ms, key, v), other) == Lookup(ms, other)
    ensures |Put(ms, key, v)| == |ms| + (if Lookup(ms, key).Some? then 0 else 1)
  {
    if ms != [] && ms[0].name != key {
      PutLookup(ms[1..], key, v, other);
      assert Put(ms, key, v)[1..] == Put(ms[1..], key, v);
    }
  }

  /** Every entry of `Put(ms, key, v)` is the new one or an untouched entry of `ms`. */
  lemma {:induction false} PutEntries(ms: seq<Member>, key: string, v: nat)
    ensures forall i :: 0 <= i < |Put(ms, key, v)| ==>
      Put(ms, key, v)[i] == Member(key, v) || Put(ms, key, v)[i] in ms
  {
    if ms != [] && ms[0].name != key {
      PutEntries(ms[1..], key, v);
      var p := Put(ms, key, v);
      forall i | 0 < i < |p|
        ensures p[i] == Member(key, v) || p[i] in ms
      {
        assert p[i] == Put(ms[1..], key, v)[i - 1];
        assert forall m :: m in ms[1..] ==> m in ms;
      }
    }
  }

  lemma {:induction false} PutDistinct(ms: seq<Member>, key: string, v: nat)
    requires DistinctNames(ms)
    ensures DistinctNames(Put(ms, key, v))
  {
    if ms != [] && ms[0].name != key {
      PutDistinct(ms[1..], key, v);
      PutEntries(ms[1..], key, v);
      var p := Put(ms, key, v);
      assert p == [ms[0]] + Put(ms[1..], key, v);
      forall j | 0 < j < |p|
        ensures p[0].name != p[j].name
      {
        assert p[j] == Put(ms[1..], key, v)[j - 1];
        if p[j] != Member(key, v) {
          var k :| 0 <= k < |ms[1..]| && ms[1..][k] == p[j];
          assert ms[k + 1] == p[j];
        }
      }
    }
  }

  /** After `n` layouts every member's value is the index of one of them, and no name
      occurs twice. */
  lemma {:induction false} MembersOfSpec(names: seq<Option<string>>, n: nat)
    requires n <= |names|
    ensures DistinctNames(MembersOf(names, n))
    ensures forall i :: 0 <= i < |MembersOf(names, n)| ==> MembersOf(names, n)[i].value < n
  {
    if n > 0 {
      var ms := MembersOf(names, n - 1);
      MembersOfSpec(names, n - 1);
      var key := MemberName(ms, names[n - 1], n - 1);
      assert MembersOf(names, n) == Put(ms, key, n - 1);
      hide *;
      PutKeeps(ms, key, n - 1);
    }
  }

  /** `Put` keeps the names distinct and adds only the value `v`. */
  lemma PutKeeps(ms: seq<Member>, key: string, v: nat)
    requires DistinctNames(ms) && forall i :: 0 <= i < |ms| ==> ms[i].value < v
    ensures DistinctNames(Put(ms, key, v))
    ensures forall i :: 0 <= i < |Put(ms, key, v)| ==> Put(ms, key, v)[i].value < v + 1
  {
    hide *;
    PutDistinct(ms, key, v);
    PutEntries(ms, key, v);
    var p := Put(ms, key, v);
    forall i | 0 <= i < |p| ensures p[i].value < v + 1 {
      if p[i] != Member(key, v) {
        var k :| 0 <= k < |ms| && ms[k] == p[i];
      }
    }
  }

  /** While no two layouts sanitize to the same name, layout `i` becomes member `i` under
      its sanitized name. */
  lemma {:induction false} MembersOfDistinctBases(names: seq<Option<string>>, n: nat)
    requires n <= |names|
    requires forall i, j :: 0 <= i < j < n ==> BaseName(names[i], i) != BaseName(names[j], j)
    ensures |MembersOf(names, n)| == n
    ensures forall i :: 0 <= i < n ==> MembersOf(names, n)[i] == Member(BaseName(names[i], i), i)
  {
    if n > 0 {
      var ms := MembersOf(names, n - 1);
      MembersOfDistinctBases(names, n - 1);
      var key := BaseName(names[n - 1], n - 1);
      hide *;
      forall i | 0 <= i < |ms| ensures ms[i].name != key {
        assert ms[i] == Member(BaseName(names[i], i), i);
        assert BaseName(names[i], i) != BaseName(names[n - 1], n - 1);
      }
      AbsentName(ms, key);
      MembersOfStep(names, n);
      MemberNameFresh(ms, names[n - 1], n - 1);
      PutAppends(ms, key, n - 1);
    }
  }

  lemma MembersOfStep(names: seq<Option<string>>, n: nat)
    requires 0 < n <= |names|
    ensures var ms := MembersOf(names, n - 1); MembersOf(names, n) == Put(ms, MemberName(ms, names[n - 1], n - 1), n - 1)
  {
    hide Put, MemberName;
  }

  lemma MemberNameFresh(ms: seq<Member>, raw: Option<string>, idx: nat)
    requires Lookup(ms, BaseName(raw, idx)).None?
    ensures MemberName(ms, raw, idx) == BaseName(raw, idx)
  {
    hide BaseName, Lookup;
  }

  lemma AbsentName(ms: seq<Member>, key: string)
    requires forall i :: 0 <= i < |ms| ==> ms[i].name != key
    ensures Lookup(ms, key).None?
  {
    hide Lookup;
  }

  lemma {:induction false} PutAppends(ms: seq<Member>, key: string, v: nat)
    requires Lookup(ms, key).None?
    ensures Put(ms, key, v) == ms + [Member(key, v)]
  {
    if ms != [] {
      PutAppends(ms[1..], key, v);
      assert ms == [ms[0]] + ms[1..];
    }
  }

  /** A sanitized name is made of word characters, has no lower-case ASCII letter and does
      not start with a digit. */
  lemma SanitizeShape(raw: string)
    ensures forall k :: 0 <= k < |Sanitize(raw)| ==> IsWordChar(Sanitize(raw)[k]) && !('a' <= Sanitize(raw)[k] <= 'z')
    ensures Sanitize(raw) != [] ==> !IsDigit(Sanitize(raw)[0])
    ensures |Sanitize(raw)| == |raw| + (if raw != [] && IsDigit(raw[0]) then 1 else 0)
  {
    var u := Upper(raw);
    var p: string := if u != [] && IsDigit(u[0]) then "_" else "";
    assert Sanitize(raw) == p + Underscored(u);
    forall k | 0 <= k < |Sanitize(raw)|
      ensures IsWordChar(Sanitize(raw)[k]) && !('a' <= Sanitize(raw)[k] <= 'z')
    {
      if k >= |p| {
        assert Sanitize(raw)[k] == Underscored(u)[k - |p|];
      }
    }
  }

  lemma BaseNameNonEmpty(raw: Option<string>, idx: nat)
    ensures BaseName(raw, idx) != []
  {}

  // A layout list whose renamed duplicate lands on an existing name.
  const CollidingNames: seq<Option<string>> := [Some("Title 2"), Some("Title"), Some("Title")]

  lemma CollidingSanitized()
    ensures Sanitize("Title 2") == "TITLE_2"
    ensures Sanitize("Title") == "TITLE"
  {
    assert Upper("Title 2") == "TITLE 2";
    assert Upper("Title") == "TITLE";
    assert Underscored("TITLE 2") == "TITLE_2";
    assert Underscored("TITLE") == "TITLE";
  }

  lemma CollidingFirstTwo()
    ensures MembersOf(CollidingNames, 2) == [Member("TITLE_2", 0), Member("TITLE", 1)]
  {
    CollidingSanitized();
    var m1 := MembersOf(CollidingNames, 1);
    assert MemberName([], Some("Title 2"), 0) == "TITLE_2";
    assert m1 == [Member("TITLE_2", 0)];
    assert BaseName(Some("Title"), 1) == "TITLE";
    assert Lookup(m1, "TITLE").None?;
    assert MemberName(m1, Some("Title"), 1) == "TITLE";
  }

  /** The third layout is renamed `TITLE_2`, which the first already holds: the enum keeps
      two members and the first layout has none. */
  lemma CollisionLosesLayout()
    ensures MembersOf(CollidingNames, 3) == [Member("TITLE_2", 2), Member("TITLE", 1)]
    ensures forall i :: 0 <= i < |MembersOf(CollidingNames, 3)| ==> MembersOf(CollidingNames, 3)[i].value != 0
  {
    hide *;
    CollidingShape();
    CollidingFirstTwo();
    MembersOfStep(CollidingNames, 3);
    CollidingThirdName();
    CollidingThirdPut();
  }

  lemma CollidingShape()
    ensures |CollidingNames| == 3 && CollidingNames[2] == Some("Title")
  {
  }

  lemma CollidingThirdName()
    ensures MemberName([Member("TITLE_2", 0), Member("TITLE", 1)], Some("Title"), 2) == "TITLE_2"
  {
    var m2 := [Member("TITLE_2", 0), Member("TITLE", 1)];
    CollidingSanitized();
    hide Sanitize;
    assert BaseName(Some("Title"), 2) == "TITLE";
    assert Lookup(m2, "TITLE") == Some(1);
    assert IntToString(2) == "2";
  }

  lemma CollidingThirdPut()
    ensures Put([Member("TITLE_2", 0), Member("TITLE", 1)], "TITLE_2", 2) == [Member("TITLE_2", 2), Member("TITLE", 1)]
  {
  }

  /** The renaming step repeated until the name is free. */
  function UniqueName(ms: seq<Member>, candidate: string, idx: nat): (r: string)
    ensures Lookup(ms, r).None?
    decreases MaxNameLength(ms) + 1 - |candidate|
  {
    if Lookup(ms, candidate).Some? then UniqueName(ms, candidate + "_" + IntToString(idx), idx)
    else candidate
  }

  /** The member list when every renamed duplicate is checked again. */
  function UniqueMembersOf(names: seq<Option<string>>, n: nat): seq<Member>
    requires n <= |names|
  {
    if n == 0 then []
    else
      var ms := UniqueMembersOf(names, n - 1);
      Put(ms, UniqueName(ms, BaseName(names[n - 1], n - 1), n - 1), n - 1)
  }

  /** With the repeated check layout `i` is always member `i`, under a name of its own. */
  lemma {:induction false} UniqueMembersOfSpec(names: seq<Option<string>>, n: nat)
    requires n <= |names|
    ensures |UniqueMembersOf(names, n)| == n
    ensures DistinctNames(UniqueMembersOf(names, n))
    ensures forall i :: 0 <= i < n ==> UniqueMembersOf(names, n)[i].value == i
    ensures forall i :: 0 <= i < n ==> Lookup(UniqueMembersOf(names, n), UniqueMembersOf(names, n)[i].name) == Some(i)
  {
    if n > 0 {
      var ms := UniqueMembersOf(names, n - 1);
      UniqueMembersOfSpec(names, n - 1);
      var key := UniqueName(ms, BaseName(names[n - 1], n - 1), n - 1);
      PutAppends(ms, key, n - 1);
      assert UniqueMembersOf(names, n) == ms + [Member(key, n - 1)];
      hide *;
      AppendFresh(ms, key, n - 1);
    }
  }

  /** A name not yet present, added last with the next index, keeps the names distinct and
      every member at its own index. */
  lemma AppendFresh(ms: seq<Member>, key: string, v: nat)
    requires |ms| == v && DistinctNames(ms) && Lookup(ms, key).None?
    requires forall i :: 0 <= i < v ==> ms[i].value == i
    ensures var r := ms + [Member(key, v)];
      && |r| == v + 1 && DistinctNames(r)
      && (forall i :: 0 <= i < v + 1 ==> r[i].value == i)
      && (forall i :: 0 <= i < v + 1 ==> Lookup(r, r[i].name) == Some(i))
  {
    var r := ms + [Member(key, v)];
    assert DistinctNames(r) by {
      forall i, j | 0 <= i < j < |r| ensures r[i].name != r[j].name {
        if j < v {
          assert r[i] == ms[i] && r[j] == ms[j];
        } else {
          assert r[i] == ms[i];
        }
      }
    }
    forall i | 0 <= i < v + 1
      ensures Lookup(r, r[i].name) == Some(i)
    {
      DistinctLookup(r, i);
    }
  }

  lemma {:induction false} DistinctLookup(ms: seq<Member>, i: nat)
    requires DistinctNames(ms) && i < |ms|
    ensures Lookup(ms, ms[i].name) == Some(ms[i].value)
  {
    if i > 0 {
      DistinctLookup(ms[1..], i - 1);
    }
  }

  // ---------------------------------------------------------------------------
  // Properties of the layout choice.

  lemma DefaultLayoutKey()
    ensures Upper("title_and_content") == "TITLE_AND_CONTENT"
  {}

  /** A slide whose layout names a member gets that member's layout; one without a layout
      gets `TITLE_AND_CONTENT`; any other name falls back to it; only a non-string layout
      or a missing fallback crashes. */
  lemma LayoutIndexCases(ms: seq<Member>, slide: map<string, Json.Json>)
    ensures "layout" in slide && slide["layout"].JStr? && Lookup(ms, Upper(slide["layout"].s)).Some? ==>
      LayoutIndex(ms, slide) == Success(Lookup(ms, Upper(slide["layout"].s)).value)
    ensures "layout" in slide && slide["layout"].JStr? && Lookup(ms, Upper(slide["layout"].s)).None? ==>
      LayoutIndex(ms, slide) == (if Lookup(ms, "TITLE_AND_CONTENT").Some? then Success(Lookup(ms, "TITLE_AND_CONTENT").value) else Failure(NoLayout))
    ensures "layout" !in slide ==>
      LayoutIndex(ms, slide) == (if Lookup(ms, "TITLE_AND_CONTENT").Some? then Success(Lookup(ms, "TITLE_AND_CONTENT").value) else Failure(NoLayout))
    ensures "layout" in slide && !slide["layout"].JStr? ==> LayoutIndex(ms, slide) == Failure(NotAString)
  {
    DefaultLayoutKey();
  }

  /** The chosen index is always one of the template's layouts. */
  lemma LayoutIndexInRange(names: seq<Option<string>>, slide: map<string, Json.Json>)
    ensures LayoutIndex(MembersOf(names, |names|), slide).Success? ==>
      LayoutIndex(MembersOf(names, |names|), slide).value < |names|
  {
    var ms := MembersOf(names, |names|);
    MembersOfSpec(names, |names|);
    match LayoutKey(slide)
    case Failure(_) =>
    case Success(key) =>
      if Lookup(ms, key).Some? {
        var i :| 0 <= i < |ms| && ms[i] == Member(key, Lookup(ms, key).value);
      } else if Lookup(ms, "TITLE_AND_CONTENT").Some? {
        var i :| 0 <= i < |ms| && ms[i] == Member("TITLE_AND_CONTENT", Lookup(ms, "TITLE_AND_CONTENT").value);
      }
  }

  // ---------------------------------------------------------------------------
  // Properties of the title.

  const Untitled: seq<Json.Json> := [Json.JObject(map["text" := Json.JStr("제목없음.")])]

  /** As written, a slide without a title gets an empty title paragraph: the default's runs
      are not where they are looked up. */
  lemma UntitledGetsNoRuns(slide: map<string, Json.Json>)
    requires "title" !in slide
    ensures TitleRuns(slide) == Success(Some([]))
  {
    assert "title" in DefaultTitle.fields;
    assert "runs" !in DefaultTitle.fields;
  }

  /** With the runs at the top of the default, a slide without a title is marked untitled,
      and every slide with a title is treated as before. */
  lemma IntendedTitleRunsSpec(slide: map<string, Json.Json>)
    ensures "title" !in slide ==> IntendedTitleRuns(slide) == Success(Some(Untitled))
    ensures "title" in slide ==> IntendedTitleRuns(slide) == TitleRuns(slide)
  {
    assert "runs" in IntendedDefaultTitle.fields;
  }

  /** A title written by json2slide, `{"runs": [...]}`, yields its runs when every run is a
      dict and crashes otherwise; an empty title writes nothing. */
  lemma TitleRunsOfObject(slide: map<string, Json.Json>, runs: seq<Json.Json>)
    ensures slide == map["title" := Json.JObject(map["runs" := Json.JArray(runs)])] ==>
      ((forall i | 0 <= i < |runs| :: runs[i].JObject?) <==> TitleRuns(slide) == Success(Some(runs)))
    ensures slide == map["title" := Json.JObject(map["runs" := Json.JArray(runs)])] ==>
      ((exists i | 0 <= i < |runs| :: !runs[i].JObject?) <==> TitleRuns(slide) == Failure(RunNotAnObject))
    ensures slide == map["title" := Json.JObject(map[])] ==> TitleRuns(slide) == Success(None)
  {
    var t := map["runs" := Json.JArray(runs)];
    assert "runs" in t;
  }

  /** Runs that are an empty string or an empty dict are iterated zero times: the title stays
      empty and nothing is raised. A non-empty string or dict yields strings, on which
      `run.get` fails; a number, a boolean or null is not iterable. */
  lemma TitleRunsNotAList(slide: map<string, Json.Json>, runs: Json.Json)
    requires slide == map["title" := Json.JObject(map["runs" := runs])] && !runs.JArray?
    ensures runs == Json.JStr("") || runs == Json.JObject(map[]) <==> TitleRuns(slide) == Success(Some([]))
    ensures runs.JStr? && runs != Json.JStr("") ==> TitleRuns(slide) == Failure(RunNotAnObject)
    ensures runs.JObject? && runs != Json.JObject(map[]) ==> TitleRuns(slide) == Failure(RunNotAnObject)
    ensures runs.JNull? || runs.JBool? || runs.JInt? ==> TitleRuns(slide) == Failure(NotAList)
  {
    var t := map["runs" := runs];
    assert "runs" in t;
  }

  // ---------------------------------------------------------------------------
  // Properties of the placeholder loop and the runs.

  /** Placeholder list `k` (from 0) is written to shape `k + 1`, and exactly the lists
      that have such a shape are written. */
  lemma {:induction false} PlannedWritesSpec(shapeCount: nat, lists: seq<Json.Json>, n: nat)
    requires n <= |lists|
    ensures |PlannedWrites(shapeCount, lists, n)| == (if shapeCount == 0 then 0 else if n < shapeCount - 1 then n else shapeCount - 1)
    ensures forall k :: 0 <= k < |PlannedWrites(shapeCount, lists, n)| ==> PlannedWrites(shapeCount, lists, n)[k] == Write(k + 1, lists[k])
  {
    if n > 0 {
      PlannedWritesSpec(shapeCount, lists, n - 1);
    }
  }

  /** A style key sets its style whatever its value: `"bold": false` still gives bold. */
  lemma FormatByPresence(run: map<string, Json.Json>)
    ensures FormatRun(run).bold <==> "bold" in run
    ensures FormatRun(run).italic <==> "italic" in run
    ensures FormatRun(run).fontName.Some? <==> "monospace" in run
    ensures FormatRun(run).hyperlink.Some? <==> "hyperlink" in run
    ensures FormatRun(map["bold" := Json.JBool(false)]).bold
  {}

  /** Only paragraph and image tokens do anything. */
  lemma TokenActionCases(token: map<string, Json.Json>)
    ensures TokenAction(token).AddParagraph? <==> "type" in token && token["type"] == Json.JStr("paragraph")
    ensures TokenAction(token).InsertPicture? <==> "type" in token && token["type"] == Json.JStr("image")
    ensures TokenAction(token) == Ignore <==> !("type" in token && token["type"] in {Json.JStr("paragraph"), Json.JStr("image")})
  {}
}
