/** Arrays of cached references and their summaries (frontpage.go). */
module FrontPage {
  import opened Wrappers
  import opened Json
  import opened Text
  import Refs

  // What a read with cacheSummaries returns, as far as it matters here.
  datatype ReadResult = ReadResult(sot: Json, summaries: Json)

  datatype FieldError = NotAnArray | BadRef(text: string)

  // What one array element contributes.
  datatype Element = Skipped | Malformed | Shown(summary: Json)

  // The cached summary of a document, unless it is missing or a stub.
  function SummaryOf(summaries: Json, collection: string, id: string): Element {
    var sum := summaries.Get(collection).Get(id);
    if sum.Obj? && !sum.Get("#").Void? && !sum.Get("#").Null? then Shown(sum) else Skipped
  }

  function Look(summaries: Json, elem: Json): (e: Element)
    ensures e.Malformed? ==> elem.Str?
  {
    if !elem.Str? then Skipped
    else
      match Refs.Parse(elem.s)
      case Invalid => Malformed
      case Ref(Cached, c, i) => SummaryOf(summaries, c, i)
      case _ => Skipped
  }

  // The summaries of the elements, in their order.
  function Collect(summaries: Json, items: seq<Json>): seq<Json> {
    if items == [] then []
    else
      var last := Look(summaries, items[|items| - 1]);
      Collect(summaries, items[..|items| - 1]) + (if last.Shown? then [last.summary] else [])
  }

  method SummariesForArrayField(rr: ReadResult, arrayField: string) returns (r: Result<seq<Json>, FieldError>)
    ensures rr.sot.Get(arrayField).Void? ==> r == Success([])
    ensures r == Failure(NotAnArray) <==> !rr.sot.Get(arrayField).Void? && !rr.sot.Get(arrayField).Arr?
    ensures rr.sot.Get(arrayField).Arr? ==>
              var items := rr.sot.Get(arrayField).items;
              && (r.Success? <==> AllWellFormed(rr.summaries, items))
              && (r.Success? ==> r.value == Collect(rr.summaries, items))
              && (r.Failure? ==> r.error.BadRef? && FirstMalformed(rr.summaries, items, r.error.text))
  {
    var field := rr.sot.Get(arrayField);
    if field.Void? { return Success([]); }
    if !field.Arr? { return Failure(NotAnArray); }
    var out := [];
    for n := 0 to |field.items|
      invariant AllWellFormed(rr.summaries, field.items[..n])
      invariant out == Collect(rr.summaries, field.items[..n])
    {
      var elem := field.items[n];
      assert field.items[..n + 1][..n] == field.items[..n];
      match Look(rr.summaries, elem) {
        case Skipped =>
        case Malformed => return Failure(BadRef(elem.s));
        case Shown(summary) => out := out + [summary];
      }
    }
    assert field.items[..|field.items|] == field.items;
    return Success(out);
  }

  predicate AllWellFormed(summaries: Json, items: seq<Json>) {
    forall k :: 0 <= k < |items| ==> !Look(summaries, items[k]).Malformed?
  }

  ghost predicate FirstMalformed(summaries: Json, items: seq<Json>, text: string) {
    exists n :: 0 <= n < |items| && items[n] == Str(text) && Look(summaries, items[n]).Malformed?
                && AllWellFormed(summaries, items[..n])
  }

  lemma {:induction false} CollectConcat(summaries: Json, a: seq<Json>, b: seq<Json>)
    ensures Collect(summaries, a + b) == Collect(summaries, a) + Collect(summaries, b)
  {
    if b == [] {
      assert a + b == a;
    } else {
      var n := |b| - 1;
      assert (a + b)[..|a + b| - 1] == a + b[..n];
      CollectConcat(summaries, a, b[..n]);
    }
  }

  // The element is this cached reference, written out, but for blanks.
  ghost predicate Caches(elem: Json, collection: string, id: string) {
    elem.Str? && TrimSpace(elem.s) == "@@__" + collection + "__" + id && Refs.Printable(collection, id)
  }

  // The summary kept for a document: an object with a "#" that is not null.
  ghost predicate Kept(summaries: Json, collection: string, id: string, summary: Json) {
    && summaries.Obj? && collection in summaries.fields
    && summaries.fields[collection].Obj? && id in summaries.fields[collection].fields
    && summary == summaries.fields[collection].fields[id]
    && summary.Obj? && "#" in summary.fields && !summary.fields["#"].Null? && !summary.fields["#"].Void?
  }

  // An element shows exactly the summary kept for the cached reference it is; it
  // is malformed if it looks like a reference and is none.
  lemma {:induction false} LookExact(summaries: Json, elem: Json, summary: Json)
    ensures Look(summaries, elem) == Shown(summary)
            <==> exists c, i :: Caches(elem, c, i) && Kept(summaries, c, i, summary)
    ensures Look(summaries, elem) == Malformed
            <==> && elem.Str? && ("@__" <= TrimSpace(elem.s) || "@@__" <= TrimSpace(elem.s))
                 && forall kind, c, i :: TrimSpace(elem.s) == Refs.Format(kind, c, i) ==> !Refs.Printable(c, i)
  {
    if elem.Str? {
      Refs.ParseTotal(elem.s);
      if Look(summaries, elem) == Shown(summary) {
        var Ref(_, c, i) := Refs.Parse(elem.s);
        CachedText(elem.s, c, i);
        KeptExact(summaries, c, i, summary);
      }
      if c, i :| Caches(elem, c, i) && Kept(summaries, c, i, summary) {
        CachedText(elem.s, c, i);
        KeptExact(summaries, c, i, summary);
      }
    }
  }

  lemma CachedText(s: string, c: string, i: string)
    ensures Refs.Parse(s) == Refs.Ref(Refs.Cached, c, i)
            <==> TrimSpace(s) == "@@__" + c + "__" + i && Refs.Printable(c, i)
  {
    Refs.ParseInvertsFormat(s, Refs.Cached, c, i);
  }

  lemma {:induction false} KeptExact(summaries: Json, c: string, i: string, summary: Json)
    ensures SummaryOf(summaries, c, i) == Shown(summary) <==> Kept(summaries, c, i, summary)
  {
  }

  // The positions of the elements that have a summary.
  ghost function Places(summaries: Json, items: seq<Json>): seq<nat> {
    if items == [] then []
    else
      var n := |items| - 1;
      Places(summaries, items[..n]) + (if Look(summaries, items[n]).Shown? then [n] else [])
  }

  ghost predicate Rising(at: seq<nat>, bound: nat) {
    && (forall k :: 0 <= k < |at| ==> at[k] < bound)
    && (forall j, k :: 0 <= j < k < |at| ==> at[j] < at[k])
  }

  lemma {:induction false} PlacesRise(summaries: Json, items: seq<Json>)
    ensures Rising(Places(summaries, items), |items|)
  {
    if items != [] { PlacesRise(summaries, items[..|items| - 1]); }
  }

  lemma {:induction false} PlaceOf(summaries: Json, items: seq<Json>, n: nat)
    requires n < |items| && Look(summaries, items[n]).Shown?
    ensures n in Places(summaries, items)
  {
    if n < |items| - 1 { PlaceOf(summaries, items[..|items| - 1], n); }
  }

  lemma {:induction false} PlaceHas(summaries: Json, items: seq<Json>, k: nat)
    requires k < |Places(summaries, items)|
    ensures |Collect(summaries, items)| == |Places(summaries, items)| && Places(summaries, items)[k] < |items|
    ensures Look(summaries, items[Places(summaries, items)[k]]) == Shown(Collect(summaries, items)[k])
  {
    var n := |items| - 1;
    var init := items[..n];
    SameCount(summaries, init);
    if k < |Places(summaries, init)| {
      PlaceHas(summaries, init, k);
      assert init[Places(summaries, init)[k]] == items[Places(summaries, init)[k]];
    }
  }

  lemma {:induction false} SameCount(summaries: Json, items: seq<Json>)
    ensures |Collect(summaries, items)| == |Places(summaries, items)|
  {
    if items != [] { SameCount(summaries, items[..|items| - 1]); }
  }

  // Nothing is invented, nothing resolvable is dropped, the order is kept: there
  // is a rising list of positions whose summaries are the result, and every
  // position with a summary is on it.
  lemma {:induction false} CollectPicks(summaries: Json, items: seq<Json>) returns (at: seq<nat>)
    ensures |at| == |Collect(summaries, items)|
    ensures forall k :: 0 <= k < |at| ==>
              at[k] < |items| && Look(summaries, items[at[k]]) == Shown(Collect(summaries, items)[k])
    ensures forall j, k :: 0 <= j < k < |at| ==> at[j] < at[k]
    ensures forall n :: 0 <= n < |items| && Look(summaries, items[n]).Shown? ==> n in at
  {
    at := Places(summaries, items);
    SameCount(summaries, items);
    PlacesRise(summaries, items);
    forall k | 0 <= k < |at| ensures Look(summaries, items[at[k]]) == Shown(Collect(summaries, items)[k]) {
      PlaceHas(summaries, items, k);
    }
    forall n | 0 <= n < |items| && Look(summaries, items[n]).Shown? ensures n in at {
      PlaceOf(summaries, items, n);
    }
  }

  /* ---- appending a reference ---- */

  datatype AddOp = AddOp(path: string, value: Json)

  function AppendCachedRefOp(arrayField: string, collection: string, id: string): AddOp {
    AddOp("/" + arrayField + "/-", Str(Refs.Format(Refs.Cached, collection, id)))
  }

  // Section 4 of RFC 6901: "~1" stands for "/" and "~0" for "~".
  function Unescape(token: string): Option<string> {
    if token == "" then Some("")
    else if token[0] != '~' then
      (match Unescape(token[1..]) case Some(rest) => Some([token[0]] + rest) case None => None)
    else if |token| > 1 && token[1] in {'0', '1'} then
      (match Unescape(token[2..])
       case Some(rest) => Some([if token[1] == '0' then '~' else '/'] + rest)
       case None => None)
    else None
  }

  function UnescapeAll(tokens: seq<string>): Option<seq<string>> {
    if tokens == [] then Some([])
    else
      match (Unescape(tokens[0]), UnescapeAll(tokens[1..]))
      case (Some(t), Some(rest)) => Some([t] + rest)
      case _ => None
  }

  function Pointer(path: string): Option<seq<string>> {
    if path == "" then Some([]) else if path[0] != '/' then None else UnescapeAll(Split(path[1..], '/'))
  }

  // Section 4.1 of RFC 6902, for object members and the end of an array.
  function AddAt(doc: Json, tokens: seq<string>, value: Json): Option<Json> {
    if tokens == [] then Some(value)
    else if |tokens| == 1 && doc.Arr? && tokens[0] == "-" then Some(Arr(doc.items + [value]))
    else if |tokens| == 1 && doc.Obj? then Some(Obj(doc.fields[tokens[0] := value]))
    else if doc.Obj? && tokens[0] in doc.fields then
      match AddAt(doc.fields[tokens[0]], tokens[1..], value)
      case Some(child) => Some(Obj(doc.fields[tokens[0] := child]))
      case None => None
    else None
  }

  function ApplyAdd(doc: Json, op: AddOp): Option<Json> {
    match Pointer(op.path)
    case Some(tokens) => AddAt(doc, tokens, op.value)
    case None => None
  }

  predicate PlainName(s: string) {
    forall k :: 0 <= k < |s| ==> s[k] != '/' && s[k] != '~'
  }

  lemma {:induction false} PlainUnescaped(s: string)
    requires PlainName(s)
    ensures Unescape(s) == Some(s)
  {
    if s != "" { PlainUnescaped(s[1..]); assert [s[0]] + s[1..] == s; }
  }

  lemma PathTokens(arrayField: string)
    requires PlainName(arrayField)
    ensures Pointer("/" + arrayField + "/-") == Some([arrayField, "-"])
  {
    var path := "/" + arrayField + "/-";
    assert path[1..] == arrayField + "/" + "-";
    SplitFirst(arrayField, '/', "-");
    SplitFirst("-", '/', "");
    PlainUnescaped(arrayField);
    PlainUnescaped("-");
    var tokens := [arrayField] + ["-"];
    assert Split(path[1..], '/') == tokens;
    assert tokens[1..] == ["-"] && ["-"][1..] == [];
    assert UnescapeAll([]) == Some([]);
    assert UnescapeAll(["-"]) == Some(["-"] + []);
    assert UnescapeAll(tokens) == Some([arrayField] + ["-"]);
    assert tokens == [arrayField, "-"];
  }

  // Appending puts the reference at the end of the array and nowhere else.
  lemma {:induction false} AppendedAtTheEnd(sot: Json, arrayField: string, collection: string, id: string)
    requires sot.Get(arrayField).Arr? && PlainName(arrayField)
    ensures ApplyAdd(sot, AppendCachedRefOp(arrayField, collection, id))
            == var ref := Str(Refs.Format(Refs.Cached, collection, id));
               Some(Obj(sot.fields[arrayField := Arr(sot.Get(arrayField).items + [ref])]))
  {
    PathTokens(arrayField);
    var tokens, value := [arrayField, "-"], Str(Refs.Format(Refs.Cached, collection, id));
    assert tokens[1..] == ["-"];
    assert AddAt(sot.Get(arrayField), ["-"], value) == Some(Arr(sot.Get(arrayField).items + [value]));
    assert AddAt(sot, tokens, value) == Some(Obj(sot.fields[arrayField := Arr(sot.Get(arrayField).items + [value])]));
  }

  // After an append the summaries are the old ones and then, if it is known,
  // exactly the one of the new reference.
  lemma {:induction false} AppendAddsOneSummary(rr: ReadResult, arrayField: string, collection: string, id: string)
    requires rr.sot.Get(arrayField).Arr? && PlainName(arrayField) && Refs.Printable(collection, id)
    ensures var items := rr.sot.Get(arrayField).items;
            var after := ApplyAdd(rr.sot, AppendCachedRefOp(arrayField, collection, id));
            var one := SummaryOf(rr.summaries, collection, id);
            && after.Some? && after.value.Get(arrayField).Arr?
            && AllWellFormed(rr.summaries, after.value.Get(arrayField).items) == AllWellFormed(rr.summaries, items)
            && Collect(rr.summaries, after.value.Get(arrayField).items)
               == Collect(rr.summaries, items) + (if one.Shown? then [one.summary] else [])
  {
    var items, ref := rr.sot.Get(arrayField).items, Str(Refs.Format(Refs.Cached, collection, id));
    AppendedAtTheEnd(rr.sot, arrayField, collection, id);
    Refs.FormatReadsBack(Refs.Cached, collection, id);
    assert Look(rr.summaries, ref) == SummaryOf(rr.summaries, collection, id);
    assert (items + [ref])[..|items|] == items;
    if AllWellFormed(rr.summaries, items + [ref]) {
      forall k | 0 <= k < |items| ensures !Look(rr.summaries, items[k]).Malformed? {
        assert (items + [ref])[k] == items[k];
      }
    }
  }
}
