/** The small slice of Python runtime behaviour the chat relay relies on:
    optional values, results carrying an exception text, dictionary lookups on
    decoded JSON objects, negative-index slicing, and the texts `str(e)` gives
    for the exceptions the relay can hit. */
module Py {

  datatype Option<+T> = None | Some(value: T)

  /** A computation that either produced a value or raised an exception whose
      `str(e)` is `error`. */
  datatype Result<+T> = Ok(value: T) | Fail(error: string)

  /** One key of a decoded JSON object: missing, present with JSON `null`, or
      present with a value. `obj.get(key, d)` yields `d`, `None` and the value
      respectively; `obj[key]` raises `KeyError` only for `Absent`. */
  datatype Field<+T> = Absent | Null | Present(value: T)

  /** Truthiness of `obj.get(key, default)` for a boolean-valued key. */
  predicate TruthyFlag(f: Field<bool>, default: bool)
  {
    match f
    case Absent => default
    case Null => false
    case Present(b) => b
  }

  /** Truthiness of `obj.get(key)` for a string-valued key: `None` and `""`
      are falsy. */
  predicate TruthyText(f: Field<string>)
  {
    f.Present? && f.value != ""
  }

  function Min(a: int, b: int): int
  {
    if a <= b then a else b
  }

  /** `xs[-k:]`. Python reads `-0` as `0`, so `k == 0` keeps the whole list;
      otherwise the last `k` elements, or all of them when there are fewer. */
  function Suffix<T>(xs: seq<T>, k: nat): (r: seq<T>)
    ensures k == 0 ==> r == xs
    ensures k > 0 ==> |r| == Min(k, |xs|)
    ensures r == xs[|xs| - |r|..]
  {
    if k == 0 || |xs| <= k then xs else xs[|xs| - k..]
  }

  /** `str(KeyError(key))`: the key in single quotes. */
  function KeyErrorText(key: string): string
  {
    "'" + key + "'"
  }

  /** `str(e)` for the `AttributeError` raised by `x.get(...)` when `x` is a
      value of type `typeName` rather than a dict. */
  function NoGetText(typeName: string): string
  {
    "'" + typeName + "' object has no attribute 'get'"
  }

  /** `str(e)` for the `TypeError` raised by slicing `None`. */
  const NotSubscriptableText := "'NoneType' object is not subscriptable"

  /** `str(e)` for the `JSONDecodeError` raised by `json.loads("")`. */
  const EmptyDocumentText := "Expecting value: line 1 column 1 (char 0)"

  /** `str(e)` for the `TypeError` raised by `json.loads(None)`. */
  const NotADocumentText := "the JSON object must be str, bytes or bytearray, not NoneType"
}
