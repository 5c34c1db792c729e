/** `dict_shape` and the numbering table of `orderify` from utils/util.py. */
module Util {
  import opened Wrappers
  import Json

  /** The shape attributes `dict_shape` reads, in EMU. */
  datatype ShapeAttrs = ShapeAttrs(name: string, top: int, left: int, width: int, height: int)

  /** `**from_pl` on a value that is not a mapping. */
  datatype Crash = NotAMapping

  const GeometryKeys: set<string> := {"name", "top", "left", "width", "height", "right", "bottom"}

  function Geometry(shape: ShapeAttrs): (g: map<string, Json.Json>)
    ensures g.Keys == GeometryKeys
  {
    map["name" := Json.JStr(shape.name),
        "top" := Json.JInt(shape.top),
        "left" := Json.JInt(shape.left),
        "width" := Json.JInt(shape.width),
        "height" := Json.JInt(shape.height),
        "right" := Json.JInt(shape.left + shape.width),
        "bottom" := Json.JInt(shape.top + shape.height)]
  }

  /** `dict_shape(shape, placeholder)`. `fromPlaceholder` is what `json.loads(placeholder.name)`
      gives, or None when it raises (no placeholder, or a name that is no JSON). */
  function DictShape(shape: ShapeAttrs, fromPlaceholder: Option<Json.Json>): Result<map<string, Json.Json>, Crash> {
    match fromPlaceholder
    case None => Success(Geometry(shape))
    case Some(JObject(fields)) => Success(Geometry(shape) + fields)
    case Some(_) => Failure(NotAMapping)
  }

  /** Without placeholder keys the dict holds the seven geometry keys, with the right and
      bottom edges computed from the left and top edges and the size. */
  lemma DictShapeGeometry(shape: ShapeAttrs)
    ensures DictShape(shape, None).Success?
    ensures DictShape(shape, None).value.Keys == GeometryKeys
    ensures DictShape(shape, None).value["right"] == Json.JInt(shape.left + shape.width)
    ensures DictShape(shape, None).value["bottom"] == Json.JInt(shape.top + shape.height)
    ensures DictShape(shape, Some(Json.JObject(map[]))) == DictShape(shape, None)
  {
    assert Geometry(shape) + map[] == Geometry(shape);
  }

  /** Keys parsed from the placeholder's name win over every geometry key; the other
      geometry keys are kept. */
  lemma DictShapeOverride(shape: ShapeAttrs, fields: map<string, Json.Json>, key: string)
    ensures DictShape(shape, Some(Json.JObject(fields))).Success?
    ensures DictShape(shape, Some(Json.JObject(fields))).value.Keys == GeometryKeys + fields.Keys
    ensures key in fields ==> DictShape(shape, Some(Json.JObject(fields))).value[key] == fields[key]
    ensures key in GeometryKeys && key !in fields ==>
      DictShape(shape, Some(Json.JObject(fields))).value[key] == Geometry(shape)[key]
  {}

  /** A placeholder name that parses to anything but an object crashes the unpacking. */
  lemma DictShapeCrash(shape: ShapeAttrs, parsed: Json.Json)
    ensures DictShape(shape, Some(parsed)).Failure? <==> !parsed.JObject?
  {}

  /** `style_map.get(level, "arabicPeriod")` in `orderify`. */
  function AutoNumType(level: int): string {
    if level == 0 then "romanUcPeriod"
    else if level == 1 then "arabicPeriod"
    else if level == 2 then "alphaLcParenR"
    else if level == 3 then "alphaUcParenR"
    else if level == 4 then "romanLcParenR"
    else "arabicPeriod"
  }

  /** Levels 0 to 4 get five different schemes; every other level numbers like level 1. */
  lemma AutoNumTypeLevels(level: int, other: int)
    ensures 0 <= level < other <= 4 ==> AutoNumType(level) != AutoNumType(other)
    ensures (level < 0 || level > 4) ==> AutoNumType(level) == AutoNumType(1)
    ensures AutoNumType(level) in {"romanUcPeriod", "arabicPeriod", "alphaLcParenR", "alphaUcParenR", "romanLcParenR"}
  {}
}
