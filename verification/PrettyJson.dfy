/** `JSON.stringify(value, null, 2)`. */
module PrettyJson {
  import opened Strings
  import opened Json

  const NEW_LINE: CodeUnit := 0x0A
  const SPACE: CodeUnit := 0x20

  function Indent(depth: nat): Text {
    if depth == 0 then [] else [SPACE, SPACE] + Indent(depth - 1)
  }

  function Pretty(v: Json, depth: nat): Text
    decreases v, 1
  {
    match v
    case JArray(items) =>
      if items == [] then [OPEN_ARRAY, CLOSE_ARRAY]
      else [OPEN_ARRAY, NEW_LINE] + PrettyItems(items, depth + 1) + [NEW_LINE] + Indent(depth) + [CLOSE_ARRAY]
    case JObject(fields) =>
      if fields == [] then [OPEN_OBJECT, CLOSE_OBJECT]
      else [OPEN_OBJECT, NEW_LINE] + PrettyFields(fields, depth + 1) + [NEW_LINE] + Indent(depth) + [CLOSE_OBJECT]
    case _ => Print(v)
  }

  function PrettyItems(items: seq<Json>, depth: nat): Text
    requires items != []
    decreases items, 0
  {
    var first := Indent(depth) + Pretty(items[0], depth);
    if |items| == 1 then first else first + [COMMA, NEW_LINE] + PrettyItems(items[1..], depth)
  }

  function PrettyFields(fields: seq<Field>, depth: nat): Text
    requires fields != []
    decreases fields, 0
  {
    var first := Indent(depth) + PrettyField(fields[0], depth);
    if |fields| == 1 then first else first + [COMMA, NEW_LINE] + PrettyFields(fields[1..], depth)
  }

  function PrettyField(f: Field, depth: nat): Text
    decreases f, 0
  {
    Quote(f.key) + [COLON, SPACE] + Pretty(f.value, depth)
  }
}
