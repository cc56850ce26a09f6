/** Decoded JSON values and Python's `str` and `int` on them. A list or an object carries the
    text that `str` gives for it. */
module Json {
  import opened Common
  import opened Decimal

  datatype Json =
    | JNull
    | JBool(flag: bool)
    | JInt(number: int)
    | JText(text: string)
    | JList(items: seq<Json>, shown: string)
    | JObject(fields: map<string, Json>, shown: string)

  type Dict = map<string, Json>

  /** `source.get(key)`. */
  function Get(source: Dict, key: string): Json {
    if key in source then source[key] else JNull
  }

  function Show(v: Json): string {
    match v
    case JNull => "None"
    case JBool(flag) => if flag then "True" else "False"
    case JInt(number) => DecimalText(number)
    case JText(text) => text
    case JList(_, shown) => shown
    case JObject(_, shown) => shown
  }

  /** `int(v)`, or None when it raises. */
  function ToInt(v: Json): Option<int> {
    match v
    case JNull => None
    case JBool(flag) => Some(if flag then 1 else 0)
    case JInt(number) => Some(number)
    case JText(text) => ParseDecimal(text)
    case JList(_, _) => None
    case JObject(_, _) => None
  }

  function GetString(source: Dict, key: string): Option<string> {
    var v := Get(source, key);
    if v.JNull? then None else Some(Show(v))
  }

  function GetInt(source: Dict, key: string): Option<int> {
    var v := Get(source, key);
    if v.JNull? then None else ToInt(v)
  }

  function StringOrEmpty(v: Json): string {
    if v.JNull? then "" else Show(v)
  }

  // ---------------------------------------------------------------- callback metadata

  /** The items of `CallbackMetadata.Item`, or none. */
  function MetadataItems(callback: Dict): seq<Json> {
    var metadata := Get(callback, "CallbackMetadata");
    if !metadata.JObject? then []
    else
      var items := Get(metadata.fields, "Item");
      if items.JList? then items.items else []
  }

  /** Whether an item is an object with a text name and a value, and so names something. */
  predicate Names(item: Json, name: string) {
    item.JObject? && Get(item.fields, "Name") == JText(name) && "Value" in item.fields
  }

  predicate Usable(item: Json) {
    item.JObject? && Get(item.fields, "Name").JText? && "Value" in item.fields
  }

  function WithItem(parsed: Dict, item: Json): Dict {
    if Usable(item) then parsed[item.fields["Name"].text := item.fields["Value"]] else parsed
  }

  function Parsed(items: seq<Json>): Dict {
    if items == [] then map[] else WithItem(Parsed(items[..|items| - 1]), items[|items| - 1])
  }

  function Metadata(callback: Dict): Dict {
    Parsed(MetadataItems(callback))
  }

  method ExtractMetadata(callback: Dict) returns (parsed: Dict)
    ensures parsed == Metadata(callback)
  {
    var metadata := Get(callback, "CallbackMetadata");
    if !metadata.JObject? {
      return map[];
    }
    var items := Get(metadata.fields, "Item");
    if !items.JList? {
      return map[];
    }
    parsed := map[];
    for i := 0 to |items.items|
      invariant parsed == Parsed(items.items[..i])
    {
      assert items.items[..i + 1][..i] == items.items[..i];
      var item := items.items[i];
      if !item.JObject? {
        continue;
      }
      var name := Get(item.fields, "Name");
      if !name.JText? || "Value" !in item.fields {
        continue;
      }
      parsed := parsed[name.text := item.fields["Value"]];
    }
    assert items.items[..|items.items|] == items.items;
  }

  /** The value of the last item that names `name`. */
  function LastNamed(items: seq<Json>, name: string): Option<Json> {
    if items == [] then None
    else
      var item := items[|items| - 1];
      if Names(item, name) then Some(item.fields["Value"]) else LastNamed(items[..|items| - 1], name)
  }

  /** A name is known exactly when some item names it, and the last such item gives its value. */
  lemma {:induction false} LastItemWins(items: seq<Json>, name: string)
    ensures (if name in Parsed(items) then Some(Parsed(items)[name]) else None) == LastNamed(items, name)
  {
    if items == [] {
    } else {
      LastItemWins(items[..|items| - 1], name);
    }
  }
}
