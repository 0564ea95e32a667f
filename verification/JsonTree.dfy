/** JSON values as `serde_json` holds them once read. */
module JsonTree {
  import opened Bytes

  datatype Json =
    | Null
    | Bool(b: bool)
    | Number(n: int)
    | String(s: Text)
    | Array(items: seq<Json>)
    | Object(fields: map<Text, Json>)

  const EMPTY_OBJECT: Json := Object(map[])

  /** The text form of JSON: a printer and a parser. The text syntax itself is not modelled;
      what is used of it is `Lawful`, that a printed value reads back as itself. */
  datatype Codec = Codec(print_: Json -> Text, parse: Text -> Option<Json>) {
    ghost predicate Lawful() {
      forall j :: parse(print_(j)) == Some(j)
    }

    /** Arguments as a whole value: what they parse to, or an empty object when they do not. */
    function ReadArguments(args: Text): Json {
      match parse(args)
      case Some(j) => j
      case None => EMPTY_OBJECT
    }
  }
}
