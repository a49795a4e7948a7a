/** String-keyed field maps, the `Map<string, string>` objects the
    synchronisation passes around, and the Markdown renderer. */
module Fields {
  import opened Wrappers

  type FieldMap = map<string, string>

  /** `m.get(k)`: `None` (JavaScript's `undefined`) when the key is absent. */
  function Get(m: FieldMap, k: string): (r: Option<string>)
    ensures r.Some? <==> k in m
    ensures r.Some? ==> r.value == m[k]
  {
    if k in m then Some(m[k]) else None
  }

  /** The Lute engine's `Md2HTML`, an external Markdown-to-HTML renderer.
      The model never looks inside it; it is applied to whatever the code
      hands it, `undefined` included. */
  type Md2Html = Option<string> -> string
}
