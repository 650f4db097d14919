/** A task record as the Python code passes it around: a `dict` from field names to
    values that are `None`, a `str` or a list of `str`. */
module Records {
  import opened Text

  datatype Val = VNone | VStr(s: string) | VList(items: seq<string>)

  type Entry = map<string, Val>

  /** `entry.get(key)`: missing keys read as `None`. */
  function Get(entry: Entry, key: string): (v: Val)
    ensures key !in entry ==> v == VNone
    ensures key in entry ==> v == entry[key]
  {
    if key in entry then entry[key] else VNone
  }

  /** `entry.get(key, default)`: the default is used only when the key is absent. */
  function GetOr(entry: Entry, key: string, default: Val): (v: Val)
    ensures key !in entry ==> v == default
    ensures key in entry ==> v == entry[key]
  {
    if key in entry then entry[key] else default
  }

  /** Python truthiness: `None`, `""` and `[]` are false. */
  predicate Truthy(v: Val) {
    match v
    case VNone => false
    case VStr(s) => s != ""
    case VList(items) => items != []
  }

  /** `a or b` on two values. */
  function Or(a: Val, b: Val): (v: Val)
    ensures Truthy(a) ==> v == a
    ensures !Truthy(a) ==> v == b
  {
    if Truthy(a) then a else b
  }

  /** The text of a value used where the code expects a string; a falsy value reads as "". */
  function TextOf(v: Val): string {
    match v
    case VStr(s) => s
    case _ => ""
  }

  /** `str(v)` as an f-string renders it. Lists are rendered with single quotes and no
      escaping, which is what `repr` gives only for strings that hold no quote, no
      backslash and no line break, tab or other non-printable character. */
  function Render(v: Val): string {
    match v
    case VNone => "None"
    case VStr(s) => s
    case VList(items) => "[" + Join(Quoted(items), ", ") + "]"
  }

  function Quoted(items: seq<string>): (r: seq<string>)
    ensures |r| == |items|
  {
    if items == [] then [] else ["'" + items[0] + "'"] + Quoted(items[1..])
  }

  /** The value is a string or `None`; the code calls string methods on such fields. */
  predicate StrOrNone(v: Val) { v.VNone? || v.VStr? }
}
