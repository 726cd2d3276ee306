/** Decoded JSON values as the search API delivers them, and the lookup of
    a key in a raw result record with missing keys reading as `None`. */
module JsonValues {
  import opened Wrappers

  /** A decoded JSON value. Numbers are modelled as integers only. */
  datatype Json =
    | JNull
    | JBool(b: bool)
    | JNum(n: int)
    | JStr(s: string)
    | JArr(items: seq<Json>)
    | JObj(fields: map<string, Json>)

  /** One raw result record: an untyped key/value mapping in which any key may be missing. */
  type Record = map<string, Json>

  /** Whether the record holds a non-null value under `key`. */
  predicate Has(raw: Record, key: string) {
    key in raw && raw[key] != JNull
  }

  /** `data[key]` after `data = defaultdict(lambda: None); data.update(raw)`:
      the stored value, or `None` when the key is missing. A key that is
      present but holds JSON `null` also reads as `None`, since `json.loads`
      turns `null` into Python's `None`. */
  function Field(raw: Record, key: string): (v: Option<Json>)
    ensures v.Some? <==> Has(raw, key)
    ensures v.Some? ==> v.value == raw[key] && v.value != JNull
  {
    if Has(raw, key) then Some(raw[key]) else None
  }
}
