/**
 * The records of src/types.ts, and the JavaScript values that the parsed
 * model reply is made of.
 */
module Types {

  /** A parsed JSON value, as JSON.parse returns it. */
  datatype Json =
    | JNull
    | JBool(b: bool)
    | JNumber(n: real)
    | JString(s: string)
    | JArray(items: seq<Json>)
    | JObject(members: seq<(string, Json)>)

  /** What a property read yields in JavaScript: a value, or `undefined`. */
  datatype JsValue = Undefined | Defined(value: Json)

  /** JavaScript truthiness, as used by `x || default`. */
  predicate Truthy(v: JsValue)
  {
    match v
    case Undefined => false
    case Defined(j) =>
      match j
      case JNull => false
      case JBool(b) => b
      case JNumber(n) => n != 0.0
      case JString(s) => s != ""
      case JArray(_) => true
      case JObject(_) => true
  }

  /** An Obsidian note: its file name, its text and its path below the chosen folder. */
  datatype Note = Note(filename: string, content: string, path: string)

  /**
   * A flashcard. The question, answer and tags are whatever the parsed
   * reply held under those keys: the TypeScript field types are not checked
   * at run time, so a missing key gives `Undefined` and a tag list may be any
   * truthy value. `tags == Undefined` is the absent optional field.
   */
  datatype FlashCard = FlashCard(id: string, question: JsValue, answer: JsValue, source: string, tags: JsValue)
}
