/**
  A parsed JSON or YAML document, as the Python scripts see it after
  `json.load` / `yaml.safe_load`, with Python's truthiness and `str()`.
 */
module Values {
  import opened Text

  /** JSON-like values: `None`, `str`, integers, `bool`, `list`, `dict`. */
  datatype Value =
    | Null
    | Str(s: string)
    | Num(n: int)
    | Bool(b: bool)
    | List(items: seq<Value>)
    | Obj(fields: map<string, Value>)

  /** What reading and parsing one file gives: a value, a syntax error of the
      parser chosen by the extension, or another failure (I/O, encoding). */
  datatype LoadOutcome =
    | Parsed(value: Value)
    | SyntaxError(detail: string)
    | ReadError(detail: string)

  /** Python's `bool(v)`: None, "", 0, False, [] and {} are false. */
  predicate Truthy(v: Value) {
    if v.Str? then v.s != ""
    else if v.Num? then v.n != 0
    else if v.Bool? then v.b
    else if v.List? then v.items != []
    else if v.Obj? then v.fields != map[]
    else false
  }

  /** Python's `str(v)`. A string is itself; a list or a dict is rendered only
      by its brackets, since no rule reads past the opening one. */
  function ToStr(v: Value): string {
    if v.Str? then v.s
    else if v.Num? then IntToString(v.n)
    else if v.Bool? then (if v.b then "True" else "False")
    else if v.List? then (if v.items == [] then "[]" else "[...]")
    else if v.Obj? then (if v.fields == map[] then "{}" else "{...}")
    else "None"
  }

  /** The rendering of anything but a string is already stripped, never
      blank, and begins with 'N', 'T', 'F', '-', a digit, '[' or '{'. */
  lemma NonStringRendering(v: Value)
    requires !v.Str?
    ensures ToStr(v) != [] && !IsBlank(ToStr(v))
    ensures Strip(ToStr(v)) == ToStr(v)
    ensures var c := ToStr(v)[0]; c in "NTF-[{" || IsDigit(c)
  {
    var r := ToStr(v);
    assert r != [] && !IsSpace(r[0]) && !IsSpace(r[|r| - 1]);
    StripKeepsTrimmed(r);
  }

  /** `not str(v).strip()`: only a string can render as whitespace. */
  predicate IsBlankText(v: Value) {
    v.Str? && IsBlank(v.s)
  }

  /** `str(v).strip()`: the rendering of anything but a string has nothing to strip. */
  function StrippedText(v: Value): string {
    if v.Str? then Strip(v.s) else ToStr(v)
  }

  /** Both shortcuts agree with rendering first and stripping after. */
  lemma TextRendering(v: Value)
    ensures IsBlankText(v) <==> IsBlank(ToStr(v))
    ensures StrippedText(v) == Strip(ToStr(v))
  {
    if !v.Str? {
      NonStringRendering(v);
    }
  }
}
