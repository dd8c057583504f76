/** Document reference strings (refs/refs.go). */
module Refs {
  import opened Text

  datatype Kind = Direct | Cached

  datatype Parsed = NotARef | Invalid | Ref(kind: Kind, collection: string, id: string)

  function Mark(kind: Kind): string {
    if kind.Direct? then "@__" else "@@__"
  }

  // FormatDirect and FormatCached.
  function Format(kind: Kind, collection: string, id: string): string {
    Mark(kind) + collection + "__" + id
  }

  // strings.Index(s, "__"), or |s| if there is none.
  function IndexOfBars(s: string): (n: nat)
    ensures n <= |s|
    ensures n < |s| ==> n + 1 < |s| && s[n] == s[n + 1] == '_'
    ensures forall k :: 0 <= k < n && k + 1 < |s| ==> !(s[k] == s[k + 1] == '_')
  {
    if |s| < 2 then |s|
    else if s[0] == s[1] == '_' then 0
    else
      var rest := IndexOfBars(s[1..]);
      assert forall k :: 0 < k < rest + 1 && k + 1 < |s| ==> s[k] == s[1..][k - 1] && s[k + 1] == s[1..][k];
      rest + 1
  }

  function ParseRest(kind: Kind, rest: string): Parsed {
    var idx := IndexOfBars(rest);
    if idx == |rest| || idx == 0 || idx + 2 >= |rest| then Invalid
    else Ref(kind, rest[..idx], rest[idx + 2..])
  }

  function Parse(raw: string): Parsed {
    var s := TrimSpace(raw);
    if Mark(Cached) <= s then ParseRest(Cached, s[4..])
    else if Mark(Direct) <= s then ParseRest(Direct, s[3..])
    else NotARef
  }

  // The components that survive printing and parsing.
  ghost predicate Printable(collection: string, id: string) {
    && collection != "" && collection[|collection| - 1] != '_'
    && (forall k :: 0 <= k < |collection| - 1 ==> !(collection[k] == collection[k + 1] == '_'))
    && id != "" && !IsSpace(id[|id| - 1])
  }

  lemma BarsFollow(collection: string, id: string)
    requires collection != "" && collection[|collection| - 1] != '_'
    requires forall k :: 0 <= k < |collection| - 1 ==> !(collection[k] == collection[k + 1] == '_')
    ensures IndexOfBars(collection + "__" + id) == |collection|
  {
    var rest := collection + "__" + id;
    var c := |collection|;
    assert rest[c] == rest[c + 1] == '_';
    forall k | 0 <= k < c ensures !(rest[k] == rest[k + 1] == '_') {
      assert rest[k] == collection[k];
      assert rest[k + 1] == if k + 1 < c then collection[k + 1] else '_';
    }
  }

  lemma {:induction false} RestRoundTrips(kind: Kind, rest: string, collection: string, id: string)
    requires rest != "" ==> !IsSpace(rest[|rest| - 1])
    ensures ParseRest(kind, rest) == Ref(kind, collection, id)
            <==> rest == collection + "__" + id && Printable(collection, id)
  {
    if rest == collection + "__" + id && Printable(collection, id) {
      BarsFollow(collection, id);
      assert rest[..|collection|] == collection && rest[|collection| + 2..] == id;
    }
    if ParseRest(kind, rest) == Ref(kind, collection, id) { RestReprints(kind, rest); }
  }

  lemma RestReprints(kind: Kind, rest: string)
    requires rest != "" && !IsSpace(rest[|rest| - 1]) && ParseRest(kind, rest).Ref?
    ensures var r := ParseRest(kind, rest); rest == r.collection + "__" + r.id && Printable(r.collection, r.id)
  {
    var r, idx := ParseRest(kind, rest), IndexOfBars(rest);
    assert rest[idx..idx + 2] == "__";
    assert rest == rest[..idx] + rest[idx..idx + 2] + rest[idx + 2..];
    assert r.id[|r.id| - 1] == rest[|rest| - 1];
    assert r.collection[idx - 1] == rest[idx - 1];
  }

  // Parsing is exactly the inverse of printing, up to surrounding space.
  lemma {:induction false} ParseInvertsFormat(raw: string, kind: Kind, collection: string, id: string)
    ensures Parse(raw) == Ref(kind, collection, id)
            <==> TrimSpace(raw) == Format(kind, collection, id) && Printable(collection, id)
  {
    var s := TrimSpace(raw);
    TrimSpaceTrimmed(raw);
    if Mark(kind) <= s {
      MarkedParse(raw, kind);
      MarkedInverts(s, kind, collection, id);
    } else {
      OtherKind(raw, kind);
      assert Format(kind, collection, id) == Mark(kind) + (collection + "__" + id);
    }
  }

  lemma MarkedInverts(s: string, kind: Kind, collection: string, id: string)
    requires Mark(kind) <= s && Trimmed(s)
    ensures ParseRest(kind, s[|Mark(kind)|..]) == Ref(kind, collection, id)
            <==> s == Format(kind, collection, id) && Printable(collection, id)
  {
    var rest, tail := s[|Mark(kind)|..], collection + "__" + id;
    assert rest != "" ==> rest[|rest| - 1] == s[|s| - 1];
    RestRoundTrips(kind, rest, collection, id);
    SameAfterMark(s, kind, rest, tail);
    assert Format(kind, collection, id) == Mark(kind) + tail;
  }

  lemma SameAfterMark(s: string, kind: Kind, rest: string, tail: string)
    requires s == Mark(kind) + rest
    ensures s == Mark(kind) + tail <==> rest == tail
  {
    assert s[|Mark(kind)|..] == rest;
    if s == Mark(kind) + tail { assert s[|Mark(kind)|..] == tail; }
  }

  lemma MarkedParse(raw: string, kind: Kind)
    requires Mark(kind) <= TrimSpace(raw)
    ensures Parse(raw) == ParseRest(kind, TrimSpace(raw)[|Mark(kind)|..])
  {
    if kind.Direct? { assert TrimSpace(raw)[1] == '_'; }
  }

  lemma OtherKind(raw: string, kind: Kind)
    requires !(Mark(kind) <= TrimSpace(raw))
    ensures Parse(raw).Ref? ==> Parse(raw).kind != kind
  {
  }

  // The other two answers: a string is no reference if it begins with neither
  // mark, and an invalid one if it begins with one but is no printed reference.
  lemma {:induction false} ParseTotal(raw: string)
    ensures Parse(raw) == NotARef <==> !("@__" <= TrimSpace(raw)) && !("@@__" <= TrimSpace(raw))
    ensures Parse(raw) == Invalid <==>
              && ("@__" <= TrimSpace(raw) || "@@__" <= TrimSpace(raw))
              && forall kind, c, i :: TrimSpace(raw) == Format(kind, c, i) ==> !Printable(c, i)
  {
    if Parse(raw).Ref? {
      var Ref(kind, c, i) := Parse(raw);
      ParseInvertsFormat(raw, kind, c, i);
    }
    forall kind, c, i | TrimSpace(raw) == Format(kind, c, i) && Printable(c, i) ensures Parse(raw).Ref? {
      ParseInvertsFormat(raw, kind, c, i);
    }
  }

  // For printed references: which ones read back as they were written.
  lemma {:induction false} FormatReadsBack(kind: Kind, collection: string, id: string)
    ensures Parse(Format(kind, collection, id)) == Ref(kind, collection, id) <==> Printable(collection, id)
  {
    var s := Format(kind, collection, id);
    ParseInvertsFormat(s, kind, collection, id);
    TrimSpaceTrimmed(s);
    if Printable(collection, id) {
      assert s[|s| - 1] == id[|id| - 1];
      assert s[0] == '@';
    }
  }

  // No string is both a direct and a cached reference.
  lemma {:induction false} ImagesAreDisjoint(c1: string, i1: string, c2: string, i2: string)
    ensures Format(Direct, c1, i1) != Format(Cached, c2, i2)
  {
    assert Format(Direct, c1, i1)[1] == '_';
    assert Format(Cached, c2, i2)[1] == '@';
  }
}
