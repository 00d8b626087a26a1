/** Documents as the application reads and writes them in its document
    store: a record is a map from field name to value, and the collections are
    maps from document id to record. */
module Records {

  datatype Option<+T> = None | Some(value: T)

  datatype Result<+T, +E> = Ok(value: T) | Err(error: E)

  /** A field value. Timestamps, which the application writes as ISO strings
      and only ever compares, are integers here; `Null` is JavaScript's `null`. */
  datatype Value = Text(s: string) | Stamp(t: int) | Null

  type Doc = map<string, Value>

  /** `doc.data().field`: a field that is not there reads as `Null`, since
      JavaScript's `undefined` behaves like `null` in every test the
      application makes (it is falsy and equal to no string). */
  function Field(d: Doc, k: string): Value {
    if k in d then d[k] else Null
  }

  /** `getDoc(doc(db, collection, id))`: the record stored under `id`, if any. */
  function Lookup(c: map<string, Doc>, id: string): (r: Option<Doc>)
    ensures r.Some? <==> id in c
    ensures r.Some? ==> r.value == c[id]
  {
    if id in c then Some(c[id]) else None
  }

  /** `error.message || fallback`: the message a failure notification shows. */
  function ShownMessage(message: string, fallback: string): (m: string)
    ensures message != "" ==> m == message
    ensures message == "" ==> m == fallback
  {
    if message == "" then fallback else message
  }

  // Field names and string values the application writes.
  const PENDING := "pending"
  const APPROVED := "approved"
  const REJECTED := "rejected"
}
