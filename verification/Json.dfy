/** Decoded JSON documents, as far as the client looks into them. */
module Json {

  // `Void` is the value of a missing field.
  datatype Json =
    | Void
    | Null
    | Bool(b: bool)
    | Num(n: int)
    | Str(s: string)
    | Arr(items: seq<Json>)
    | Obj(fields: map<string, Json>)
  {
    function Get(key: string): Json {
      if Obj? && key in fields then fields[key] else Void
    }
  }

  // The "#" member of a document: its version token.
  function VersionOf(doc: Json): string {
    var v := doc.Get("#");
    if v.Str? then v.s else ""
  }

  // What the server stores: the patched content with a new version token.
  function Stamp(doc: Json, version: string): Json {
    if doc.Obj? then Obj(doc.fields["#" := Str(version)]) else doc
  }

  // The token is stored under "#", read from there, and nothing else changes.
  lemma {:induction false} StampSetsVersion(doc: Json, version: string, key: string)
    requires doc.Obj?
    ensures Stamp(doc, version).Get("#") == Str(version) && VersionOf(Stamp(doc, version)) == version
    ensures key != "#" ==> Stamp(doc, version).Get(key) == doc.Get(key)
  {
  }
}
