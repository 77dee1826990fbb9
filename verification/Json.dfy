/**
 * Decoded JSON values (RFC 8259): what encoding/json hands to the program. A number keeps its
 * spelling, as json.Number does.
 */
module Json {
  import opened Results

  datatype Json =
    | Null
    | Bool(flag: bool)
    | Num(literal: string)
    | Str(text: string)
    | Arr(items: seq<Json>)
    | Obj(members: map<string, Json>)

  type Members = map<string, Json>

  function Member(m: Members, key: string): Option<Json>
  {
    if key in m then Some(m[key]) else None
  }

  /** optionalString: a member that is a non-empty string. */
  function OptionalString(m: Members, key: string): Option<string>
  {
    if key in m && m[key].Str? && m[key].text != "" then Some(m[key].text) else None
  }

  /** `v, _ := m[key].(string)`: the empty string stands for every miss. */
  function StringOrEmpty(m: Members, key: string): string
  {
    if key in m && m[key].Str? then m[key].text else ""
  }
}
