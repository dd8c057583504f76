/** The reference walk (resolve.go): depth-limited, over possibly cyclic data. */
module Resolve {
  import opened Wrappers
  import opened Json
  import opened Text
  import Refs

  datatype Target = Target(collection: string, id: string)

  // The key of the seen and out maps.
  function Key(t: Target): string {
    t.collection + "/" + t.id
  }

  datatype WalkError = BadRef(text: string) | ReadFailed(target: Target)

  // answers: what a Read of each target answers (every key is read at most once).
  // order: the order in which the fields of a document come, which may differ
  // from one walk to the next; walks are numbered by the answers made before them.
  datatype Env = Env(answers: Target -> Option<Json>, order: (nat, Json) -> seq<string>, maxDepth: nat)

  ghost predicate Fair(env: Env) {
    forall n: nat, doc: Json, k: string :: doc.Obj? ==> (k in env.order(n, doc) <==> k in doc.fields)
  }

  datatype State = State(seen: set<string>, out: map<string, Json>, log: seq<Target>)

  datatype Outcome = Outcome(st: State, err: Option<WalkError>)

  function Walk(env: Env, doc: Json, depth: nat, st: State): Outcome
    requires depth <= env.maxDepth + 1
    decreases env.maxDepth + 1 - depth, 2, 0
  {
    if depth > env.maxDepth || !doc.Obj? then Outcome(st, None)
    else Fields(env, doc, env.order(|st.log|, doc), depth, st)
  }

  function Fields(env: Env, doc: Json, keys: seq<string>, depth: nat, st: State): Outcome
    requires depth <= env.maxDepth
    decreases env.maxDepth + 1 - depth, 1, |keys|
  {
    if keys == [] then Outcome(st, None)
    else
      var o := Visit(env, doc.Get(keys[0]), depth, st);
      if o.err.Some? then o else Fields(env, doc, keys[1..], depth, o.st)
  }

  function Visit(env: Env, v: Json, depth: nat, st: State): Outcome
    requires depth <= env.maxDepth
    decreases env.maxDepth + 1 - depth, 0, 0
  {
    match Kind(v)
    case Plain => Outcome(st, None)
    case Malformed => Outcome(st, Some(BadRef(v.s)))
    case Direct(t) =>
      if Key(t) in st.seen then Outcome(st, None)
      else
        var st' := State(st.seen + {Key(t)}, st.out, st.log + [t]);
        match env.answers(t)
        case None => Outcome(st', Some(ReadFailed(t)))
        case Some(d) => Walk(env, d, depth + 1, st'.(out := st.out[Key(t) := d]))
  }

  // What the walk makes of one field value.
  datatype FieldKind = Plain | Malformed | Direct(t: Target)

  function Kind(v: Json): (k: FieldKind)
    ensures k.Malformed? ==> v.Str?
  {
    if !v.Str? then Plain
    else
      match Refs.Parse(v.s)
      case Invalid => Malformed
      case Ref(Direct, c, i) => Direct(Target(c, i))
      case _ => Plain
  }

  /* ---- the graph ---- */

  ghost predicate Points(doc: Json, t: Target) {
    doc.Obj? && exists k :: k in doc.fields && Kind(doc.fields[k]) == Direct(t)
  }

  // A chain of at most n direct references leads from sot to t.
  ghost predicate Reachable(answers: Target -> Option<Json>, sot: Json, n: nat, t: Target) {
    n > 0 && (Points(sot, t)
              || exists u :: Reachable(answers, sot, n - 1, u) && answers(u).Some? && Points(answers(u).value, t))
  }

  lemma {:induction false} ReachableGrows(answers: Target -> Option<Json>, sot: Json, n: nat, m: nat, t: Target)
    requires n <= m && Reachable(answers, sot, n, t)
    ensures Reachable(answers, sot, m, t)
  {
    if !Points(sot, t) {
      var u :| Reachable(answers, sot, n - 1, u) && answers(u).Some? && Points(answers(u).value, t);
      ReachableGrows(answers, sot, n - 1, m - 1, u);
    }
  }

  /* ---- soundness ---- */

  ghost predicate Justified(env: Env, sot: Json, key: string, doc: Json) {
    exists t :: Key(t) == key && env.answers(t) == Some(doc) && Reachable(env.answers, sot, env.maxDepth, t)
  }

  // Every entry was read from a target within reach, and no key was read twice.
  ghost predicate Sound(env: Env, sot: Json, st: State) {
    && st.out.Keys <= st.seen
    && AllJustified(env, sot, st.out)
    && LogInOrder(st)
  }

  ghost predicate AllJustified(env: Env, sot: Json, out: map<string, Json>) {
    forall k :: k in out ==> Justified(env, sot, k, out[k])
  }

  ghost predicate LogInOrder(st: State) {
    && (forall i :: 0 <= i < |st.log| ==> Key(st.log[i]) in st.seen)
    && (forall i, j :: 0 <= i < j < |st.log| ==> Key(st.log[i]) != Key(st.log[j]))
  }

  // What a finished walk adds to a state in which every key seen is resolved.
  ghost predicate Extends(env: Env, sot: Json, st: State, o: Outcome) {
    Sound(env, sot, o.st) && st.seen <= o.st.seen && (o.err.None? ==> o.st.out.Keys == o.st.seen)
  }

  ghost predicate WithinReach(env: Env, sot: Json, doc: Json, depth: nat) {
    forall t :: Points(doc, t) ==> Reachable(env.answers, sot, depth, t)
  }

  lemma {:induction false} WalkSound(env: Env, sot: Json, doc: Json, depth: nat, st: State)
    requires Fair(env) && depth <= env.maxDepth + 1 && WithinReach(env, sot, doc, depth)
    requires Sound(env, sot, st) && st.out.Keys == st.seen
    ensures Extends(env, sot, st, Walk(env, doc, depth, st))
    decreases env.maxDepth + 1 - depth, 2, 0
  {
    if depth <= env.maxDepth && doc.Obj? {
      FieldsSound(env, sot, doc, env.order(|st.log|, doc), depth, st);
    }
  }

  lemma {:induction false} FieldsSound(env: Env, sot: Json, doc: Json, keys: seq<string>, depth: nat, st: State)
    requires Fair(env) && depth <= env.maxDepth && WithinReach(env, sot, doc, depth)
    requires doc.Obj? && forall k :: k in keys ==> k in doc.fields
    requires Sound(env, sot, st) && st.out.Keys == st.seen
    ensures Extends(env, sot, st, Fields(env, doc, keys, depth, st))
    decreases env.maxDepth + 1 - depth, 1, |keys|
  {
    if keys != [] {
      var v := doc.Get(keys[0]);
      if Kind(v).Direct? { assert Points(doc, Kind(v).t); }
      VisitSound(env, sot, v, depth, st);
      var o := Visit(env, v, depth, st);
      if o.err.None? { FieldsSound(env, sot, doc, keys[1..], depth, o.st); }
    }
  }

  lemma ChildrenWithinReach(env: Env, sot: Json, depth: nat, t: Target)
    requires Reachable(env.answers, sot, depth, t) && env.answers(t).Some?
    ensures WithinReach(env, sot, env.answers(t).value, depth + 1)
  {
  }

  lemma {:induction false} VisitSound(env: Env, sot: Json, v: Json, depth: nat, st: State)
    requires Fair(env) && depth <= env.maxDepth
    requires Kind(v).Direct? ==> Reachable(env.answers, sot, depth, Kind(v).t)
    requires Sound(env, sot, st) && st.out.Keys == st.seen
    ensures Extends(env, sot, st, Visit(env, v, depth, st))
    decreases env.maxDepth + 1 - depth, 0, 0
  {
    if Kind(v).Direct? && Key(Kind(v).t) !in st.seen {
      var t := Kind(v).t;
      ReachableGrows(env.answers, sot, depth, env.maxDepth, t);
      ReadSound(env, sot, st, t);
      if env.answers(t).Some? {
        var d := env.answers(t).value;
        ChildrenWithinReach(env, sot, depth, t);
        WalkSound(env, sot, d, depth + 1, State(st.seen + {Key(t)}, st.out[Key(t) := d], st.log + [t]));
      }
    }
  }

  // Reading a new target keeps the books right, whether it succeeds or not.
  lemma ReadSound(env: Env, sot: Json, st: State, t: Target)
    requires Sound(env, sot, st) && st.out.Keys == st.seen && Key(t) !in st.seen
    requires Reachable(env.answers, sot, env.maxDepth, t)
    ensures Sound(env, sot, State(st.seen + {Key(t)}, st.out, st.log + [t]))
    ensures env.answers(t).Some? ==>
              Sound(env, sot, State(st.seen + {Key(t)}, st.out[Key(t) := env.answers(t).value], st.log + [t]))
  {
    LogGrows(st, t);
    if env.answers(t).Some? { OutGrows(env, sot, st.out, t, env.answers(t).value); }
  }

  lemma OutGrows(env: Env, sot: Json, out: map<string, Json>, t: Target, doc: Json)
    requires AllJustified(env, sot, out) && env.answers(t) == Some(doc)
    requires Reachable(env.answers, sot, env.maxDepth, t)
    ensures AllJustified(env, sot, out[Key(t) := doc])
  {
    assert Justified(env, sot, Key(t), doc);
  }

  lemma LogGrows(st: State, t: Target)
    requires Key(t) !in st.seen && LogInOrder(st)
    ensures LogInOrder(State(st.seen + {Key(t)}, st.out, st.log + [t]))
  {
    var log := st.log + [t];
    assert forall i :: 0 <= i < |st.log| ==> log[i] == st.log[i];
  }

  /* ---- what counts as a reference, by its text ---- */

  // The field value is this direct reference, written out, but for blanks.
  ghost predicate Refers(v: Json, t: Target) {
    v.Str? && TrimSpace(v.s) == "@__" + t.collection + "__" + t.id && Refs.Printable(t.collection, t.id)
  }

  // The field value looks like a reference, direct or cached, and is none.
  ghost predicate Misspelled(v: Json) {
    && v.Str? && ("@__" <= TrimSpace(v.s) || "@@__" <= TrimSpace(v.s))
    && forall kind, c, i :: TrimSpace(v.s) == Refs.Format(kind, c, i) ==> !Refs.Printable(c, i)
  }

  // Exactly the direct references are followed; cached ones are skipped, and
  // what only looks like a reference is an error.
  lemma {:induction false} KindExact(v: Json, t: Target)
    ensures Kind(v) == Direct(t) <==> Refers(v, t)
    ensures Kind(v) == Malformed <==> Misspelled(v)
  {
    if v.Str? {
      DirectText(v.s, t);
      Refs.ParseTotal(v.s);
    }
  }

  lemma DirectText(s: string, t: Target)
    ensures Refs.Parse(s) == Refs.Ref(Refs.Direct, t.collection, t.id)
            <==> TrimSpace(s) == "@__" + t.collection + "__" + t.id && Refs.Printable(t.collection, t.id)
  {
    Refs.ParseInvertsFormat(s, Refs.Direct, t.collection, t.id);
  }

  // So the graph of references is that of the texts.
  lemma {:induction false} PointsExact(doc: Json, t: Target)
    ensures Points(doc, t) <==> doc.Obj? && exists k :: k in doc.fields && Refers(doc.fields[k], t)
  {
    if doc.Obj? {
      forall k | k in doc.fields ensures Kind(doc.fields[k]) == Direct(t) <==> Refers(doc.fields[k], t) {
        KindExact(doc.fields[k], t);
      }
    }
  }

  /* ---- errors ---- */

  // A document the walk may look into.
  ghost predicate Walked(env: Env, sot: Json, doc: Json) {
    doc == sot || exists u :: Reachable(env.answers, sot, env.maxDepth, u) && env.answers(u) == Some(doc)
  }

  ghost predicate Holds(doc: Json, text: string) {
    doc.Obj? && Kind(Str(text)).Malformed? && exists k :: k in doc.fields && doc.fields[k] == Str(text)
  }

  // An error names a misspelled reference in some document within reach, or the
  // target within reach whose read failed, which is then the last one.
  ghost predicate Explained(env: Env, sot: Json, o: Outcome) {
    match o.err
    case None => true
    case Some(BadRef(text)) => exists doc :: Walked(env, sot, doc) && Holds(doc, text)
    case Some(ReadFailed(t)) =>
      && env.answers(t) == None && Reachable(env.answers, sot, env.maxDepth, t)
      && o.st.log != [] && o.st.log[|o.st.log| - 1] == t
  }

  lemma {:induction false} WalkExplained(env: Env, sot: Json, doc: Json, depth: nat, st: State)
    requires Fair(env) && depth <= env.maxDepth + 1 && WithinReach(env, sot, doc, depth) && Walked(env, sot, doc)
    ensures Explained(env, sot, Walk(env, doc, depth, st))
    decreases env.maxDepth + 1 - depth, 2, 0
  {
    if depth <= env.maxDepth && doc.Obj? {
      FieldsExplained(env, sot, doc, env.order(|st.log|, doc), depth, st);
    }
  }

  lemma {:induction false} FieldsExplained(env: Env, sot: Json, doc: Json, keys: seq<string>, depth: nat, st: State)
    requires Fair(env) && depth <= env.maxDepth && WithinReach(env, sot, doc, depth) && Walked(env, sot, doc)
    requires doc.Obj? && forall k :: k in keys ==> k in doc.fields
    ensures Explained(env, sot, Fields(env, doc, keys, depth, st))
    decreases env.maxDepth + 1 - depth, 1, |keys|
  {
    if keys != [] {
      var v := doc.Get(keys[0]);
      if Kind(v).Direct? { assert Points(doc, Kind(v).t); }
      if Kind(v).Malformed? { assert Holds(doc, v.s); }
      VisitExplained(env, sot, v, depth, st);
      var o := Visit(env, v, depth, st);
      if o.err.None? { FieldsExplained(env, sot, doc, keys[1..], depth, o.st); }
    }
  }

  lemma {:induction false} VisitExplained(env: Env, sot: Json, v: Json, depth: nat, st: State)
    requires Fair(env) && depth <= env.maxDepth
    requires Kind(v).Direct? ==> Reachable(env.answers, sot, depth, Kind(v).t)
    requires Kind(v).Malformed? ==> exists doc :: Walked(env, sot, doc) && Holds(doc, v.s)
    ensures Explained(env, sot, Visit(env, v, depth, st))
    decreases env.maxDepth + 1 - depth, 0, 0
  {
    if Kind(v).Direct? && Key(Kind(v).t) !in st.seen {
      var t := Kind(v).t;
      ReachableGrows(env.answers, sot, depth, env.maxDepth, t);
      if env.answers(t).Some? {
        var d := env.answers(t).value;
        ChildrenWithinReach(env, sot, depth, t);
        assert Walked(env, sot, d);
        WalkExplained(env, sot, d, depth + 1, State(st.seen + {Key(t)}, st.out[Key(t) := d], st.log + [t]));
      }
    }
  }

  // Without an error no field was misspelled, and every reference was resolved.
  lemma {:induction false} NoErrorMeansClean(env: Env, doc: Json, keys: seq<string>, depth: nat, st: State)
    requires depth <= env.maxDepth && doc.Obj? && (forall k :: k in keys ==> k in doc.fields)
    requires Fields(env, doc, keys, depth, st).err.None?
    ensures forall k :: k in keys ==> !Kind(doc.fields[k]).Malformed?
    decreases |keys|
  {
    if keys != [] {
      NoErrorMeansClean(env, doc, keys[1..], depth, Visit(env, doc.Get(keys[0]), depth, st).st);
      assert forall k :: k in keys ==> k == keys[0] || k in keys[1..];
    }
  }

  /* ---- completeness ---- */

  ghost predicate Clean(doc: Json) {
    doc.Obj? ==> forall k :: k in doc.fields ==> !Kind(doc.fields[k]).Malformed?
  }

  // A finite set of targets that reading and following references never
  // leaves, in which nothing fails and keys are unambiguous.
  ghost predicate Closed(answers: Target -> Option<Json>, reach: set<Target>) {
    && (forall t :: t in reach ==> answers(t).Some? && Clean(answers(t).value) && '/' !in t.collection)
    && (forall t, u :: t in reach && Points(answers(t).value, u) ==> u in reach)
  }

  ghost function Keys(reach: set<Target>): set<string> {
    set t | t in reach :: Key(t)
  }

  ghost predicate PointsInto(doc: Json, reach: set<Target>) {
    Clean(doc) && forall t :: Points(doc, t) ==> t in reach
  }

  // At depth d at least d - 1 keys have been seen: those on the way here.
  ghost predicate Promising(env: Env, reach: set<Target>, depth: nat, st: State) {
    Fair(env) && Closed(env.answers, reach) && |reach| <= env.maxDepth
    && st.seen <= Keys(reach) && |st.seen| + 1 >= depth
  }

  ghost predicate AllSeen(doc: Json, seen: set<string>) {
    forall t :: Points(doc, t) ==> Key(t) in seen
  }

  // Whatever became seen in between has had all its references seen too.
  ghost predicate Settled(answers: Target -> Option<Json>, reach: set<Target>, before: set<string>,
                          after: set<string>) {
    forall t :: t in reach && Key(t) in after && Key(t) !in before
                ==> answers(t).Some? && AllSeen(answers(t).value, after)
  }

  // What a walk over promising ground achieves.
  ghost predicate Explores(env: Env, reach: set<Target>, st: State, o: Outcome) {
    && o.err.None? && st.seen <= o.st.seen <= Keys(reach)
    && Settled(env.answers, reach, st.seen, o.st.seen)
  }

  lemma KeyInjective(t: Target, u: Target)
    requires '/' !in t.collection && '/' !in u.collection && Key(t) == Key(u)
    ensures t == u
  {
    var a, b := |t.collection|, |u.collection|;
    forall k | 0 <= k < a ensures Key(t)[k] != '/' { assert Key(t)[k] == t.collection[k]; }
    forall k | 0 <= k < b ensures Key(u)[k] != '/' { assert Key(u)[k] == u.collection[k]; }
    assert Key(t)[a] == '/' && Key(u)[b] == '/';
    assert Key(t)[..a] == t.collection && Key(u)[..b] == u.collection;
    assert Key(t)[a + 1..] == t.id && Key(u)[b + 1..] == u.id;
  }

  lemma {:induction false} KeysCard(reach: set<Target>)
    ensures |Keys(reach)| <= |reach|
  {
    if reach != {} {
      var t :| t in reach;
      KeysCard(reach - {t});
      assert Keys(reach) == Keys(reach - {t}) + {Key(t)};
    }
  }

  // Below the depth limit there is nothing left to see.
  lemma ExhaustedAtTheLimit(env: Env, reach: set<Target>, doc: Json, depth: nat, st: State)
    requires Promising(env, reach, depth, st) && depth > env.maxDepth && PointsInto(doc, reach)
    ensures AllSeen(doc, st.seen)
  {
    KeysCard(reach);
    SubsetCard(st.seen, Keys(reach));
  }

  lemma {:induction false} SubsetCard<T>(a: set<T>, b: set<T>)
    requires a <= b && |b| <= |a|
    ensures a == b
  {
    if a != {} {
      var x :| x in a;
      SubsetCard(a - {x}, b - {x});
    }
  }

  lemma {:induction false} WalkComplete(env: Env, reach: set<Target>, doc: Json, depth: nat, st: State)
    requires depth <= env.maxDepth + 1 && Promising(env, reach, depth, st) && PointsInto(doc, reach)
    ensures Explores(env, reach, st, Walk(env, doc, depth, st))
    ensures AllSeen(doc, Walk(env, doc, depth, st).st.seen)
    decreases env.maxDepth + 1 - depth, 2, 0
  {
    if depth > env.maxDepth {
      ExhaustedAtTheLimit(env, reach, doc, depth, st);
    } else if doc.Obj? {
      var keys := env.order(|st.log|, doc);
      FieldsComplete(env, reach, doc, keys, depth, st);
      forall t | Points(doc, t) ensures Key(t) in Walk(env, doc, depth, st).st.seen {
        var k :| k in doc.fields && Kind(doc.fields[k]) == Direct(t);
        assert k in keys;
      }
    }
  }

  lemma {:induction false} FieldsComplete(env: Env, reach: set<Target>, doc: Json, keys: seq<string>, depth: nat,
                                          st: State)
    requires depth <= env.maxDepth && Promising(env, reach, depth, st) && PointsInto(doc, reach)
    requires doc.Obj? && forall k :: k in keys ==> k in doc.fields
    ensures var o := Fields(env, doc, keys, depth, st);
            && Explores(env, reach, st, o)
            && forall k :: k in keys && Kind(doc.fields[k]).Direct? ==> Key(Kind(doc.fields[k]).t) in o.st.seen
    decreases env.maxDepth + 1 - depth, 1, |keys|
  {
    if keys != [] {
      var v := doc.Get(keys[0]);
      if Kind(v).Direct? { assert Points(doc, Kind(v).t); }
      VisitComplete(env, reach, v, depth, st);
      var mid := Visit(env, v, depth, st).st;
      MoreSeen(st.seen, mid.seen);
      FieldsComplete(env, reach, doc, keys[1..], depth, mid);
      var after := Fields(env, doc, keys[1..], depth, mid).st;
      SettledTwice(env.answers, reach, st.seen, mid.seen, after.seen);
      assert forall k :: k in keys ==> k == keys[0] || k in keys[1..];
    }
  }

  lemma MoreSeen<T>(a: set<T>, b: set<T>)
    requires a <= b
    ensures |a| <= |b|
  {
    assert b == a + (b - a);
  }

  lemma SettledTwice(answers: Target -> Option<Json>, reach: set<Target>, a: set<string>, b: set<string>,
                     c: set<string>)
    requires a <= b <= c && Settled(answers, reach, a, b) && Settled(answers, reach, b, c)
    ensures Settled(answers, reach, a, c)
  {
  }

  lemma {:induction false} VisitComplete(env: Env, reach: set<Target>, v: Json, depth: nat, st: State)
    requires depth <= env.maxDepth && Promising(env, reach, depth, st)
    requires !Kind(v).Malformed? && (Kind(v).Direct? ==> Kind(v).t in reach)
    ensures var o := Visit(env, v, depth, st);
            Explores(env, reach, st, o) && (Kind(v).Direct? ==> Key(Kind(v).t) in o.st.seen)
    decreases env.maxDepth + 1 - depth, 0, 0
  {
    if Kind(v).Direct? && Key(Kind(v).t) !in st.seen {
      var t := Kind(v).t;
      var d := env.answers(t).value;
      var st' := State(st.seen + {Key(t)}, st.out[Key(t) := d], st.log + [t]);
      assert Key(t) in Keys(reach);
      WalkComplete(env, reach, d, depth + 1, st');
      var after := Walk(env, d, depth + 1, st').st.seen;
      forall u | u in reach && Key(u) in after && Key(u) !in st.seen
        ensures env.answers(u).Some? && AllSeen(env.answers(u).value, after)
      {
        if Key(u) == Key(t) { KeyInjective(u, t); }
      }
    }
  }

  /* ---- the theorems about a whole call ---- */

  const NOTHING := State({}, map[], [])

  // Every result is within max(1, maxDepth) references, no key is read twice,
  // and without an error exactly the keys seen are resolved.
  lemma {:induction false} ResolveSound(env: Env, sot: Json)
    requires Fair(env) && env.maxDepth >= 1
    ensures Extends(env, sot, NOTHING, Walk(env, sot, 1, NOTHING))
  {
    WalkSound(env, sot, sot, 1, NOTHING);
  }

  // An error is due to what it names; a misspelled reference in the document
  // itself is never overlooked.
  lemma {:induction false} ErrorsExplained(env: Env, sot: Json)
    requires Fair(env) && env.maxDepth >= 1
    ensures Explained(env, sot, Walk(env, sot, 1, NOTHING))
    ensures Walk(env, sot, 1, NOTHING).err.None? ==> Clean(sot)
  {
    WalkExplained(env, sot, sot, 1, NOTHING);
    if sot.Obj? && Walk(env, sot, 1, NOTHING).err.None? {
      NoErrorMeansClean(env, sot, env.order(0, sot), 1, NOTHING);
    }
  }

  // A document without direct references resolves nothing.
  lemma {:induction false} NothingToResolve(env: Env, sot: Json)
    requires Fair(env) && env.maxDepth >= 1 && Clean(sot)
    requires sot.Obj? ==> forall k, t :: k in sot.fields ==> !Refers(sot.fields[k], t)
    ensures Walk(env, sot, 1, NOTHING).err.None? && Walk(env, sot, 1, NOTHING).st.out == map[]
  {
    forall t ensures !Points(sot, t) { PointsExact(sot, t); }
    ResolveComplete(env, sot, {});
    forall k ensures !ReachableKey(env, sot, k) {
      if t, n :| Key(t) == k && Reachable(env.answers, sot, n, t) { Nowhere(env.answers, sot, n, t); }
    }
    assert Walk(env, sot, 1, NOTHING).st.out.Keys == {};
  }

  lemma {:induction false} Nowhere(answers: Target -> Option<Json>, sot: Json, n: nat, t: Target)
    requires forall u :: !Points(sot, u)
    ensures !Reachable(answers, sot, n, t)
  {
    if Reachable(answers, sot, n, t) {
      var u :| Reachable(answers, sot, n - 1, u) && answers(u).Some? && Points(answers(u).value, t);
      Nowhere(answers, sot, n - 1, u);
    }
  }

  // The key of some reachable target.
  ghost predicate ReachableKey(env: Env, sot: Json, k: string) {
    exists t, n :: Key(t) == k && Reachable(env.answers, sot, n, t)
  }

  // If nothing fails and the depth limit is at least the number of reachable
  // targets, exactly the reachable targets are resolved, in any field order.
  lemma {:induction false} ResolveComplete(env: Env, sot: Json, reach: set<Target>)
    requires Fair(env) && env.maxDepth >= 1
    requires Closed(env.answers, reach) && PointsInto(sot, reach) && |reach| <= env.maxDepth
    ensures var o := Walk(env, sot, 1, NOTHING);
            && o.err.None?
            && forall k :: k in o.st.out <==> ReachableKey(env, sot, k)
  {
    WalkComplete(env, reach, sot, 1, NOTHING);
    forall k ensures k in Walk(env, sot, 1, NOTHING).st.out <==> ReachableKey(env, sot, k) {
      if k in Walk(env, sot, 1, NOTHING).st.out { OutIsReachable(env, sot, k); }
      if ReachableKey(env, sot, k) { ReachableIsOut(env, sot, reach, k); }
    }
  }

  lemma OutIsReachable(env: Env, sot: Json, k: string)
    requires Fair(env) && env.maxDepth >= 1 && k in Walk(env, sot, 1, NOTHING).st.out
    ensures ReachableKey(env, sot, k)
  {
    ResolveSound(env, sot);
    assert Justified(env, sot, k, Walk(env, sot, 1, NOTHING).st.out[k]);
  }

  lemma ReachableIsOut(env: Env, sot: Json, reach: set<Target>, k: string)
    requires Fair(env) && env.maxDepth >= 1 && ReachableKey(env, sot, k)
    requires Closed(env.answers, reach) && PointsInto(sot, reach) && |reach| <= env.maxDepth
    ensures k in Walk(env, sot, 1, NOTHING).st.out
  {
    var o := Walk(env, sot, 1, NOTHING);
    ResolveSound(env, sot);
    WalkComplete(env, reach, sot, 1, NOTHING);
    var t, n :| Key(t) == k && Reachable(env.answers, sot, n, t);
    ReachableSeen(env, reach, sot, n, t, o.st.seen);
  }

  lemma {:induction false} ReachableSeen(env: Env, reach: set<Target>, sot: Json, n: nat, t: Target, seen: set<string>)
    requires Closed(env.answers, reach) && PointsInto(sot, reach)
    requires AllSeen(sot, seen) && Settled(env.answers, reach, {}, seen)
    requires Reachable(env.answers, sot, n, t)
    ensures t in reach && Key(t) in seen
  {
    if !Points(sot, t) {
      var u :| Reachable(env.answers, sot, n - 1, u) && env.answers(u).Some? && Points(env.answers(u).value, t);
      ReachableSeen(env, reach, sot, n - 1, u, seen);
    }
  }

  /* ---- the walk as the client runs it: two shared maps and a recursive closure ---- */

  class Walker {
    const env: Env
    var seen: set<string>
    var out: map<string, Json>
    var log: seq<Target>

    constructor (env: Env)
      ensures this.env == env && S() == NOTHING
    {
      this.env := env;
      seen, out, log := {}, map[], [];
    }

    function S(): State
      reads this
    {
      State(seen, out, log)
    }

    method Run(doc: Json, depth: nat) returns (err: Option<WalkError>)
      requires depth <= env.maxDepth + 1
      modifies this
      ensures Outcome(S(), err) == Walk(env, doc, depth, old(S()))
      decreases env.maxDepth + 1 - depth
    {
      if depth > env.maxDepth || !doc.Obj? { return None; }
      var keys := env.order(|log|, doc);
      for i := 0 to |keys|
        invariant Fields(env, doc, keys[i..], depth, S()) == Walk(env, doc, depth, old(S()))
      {
        assert keys[i..][1..] == keys[i + 1..];
        var v := doc.Get(keys[i]);
        match Kind(v) {
          case Plain =>
          case Malformed => return Some(BadRef(v.s));
          case Direct(t) =>
            if Key(t) !in seen {
              seen, log := seen + {Key(t)}, log + [t];
              var d := env.answers(t);
              if d.None? { return Some(ReadFailed(t)); }
              out := out[Key(t) := d.value];
              err := Run(d.value, depth + 1);
              if err.Some? { return; }
            }
        }
      }
      return None;
    }
  }

  method ResolveRefsInSOT(answers: Target -> Option<Json>, order: (nat, Json) -> seq<string>, sot: Json, maxDepth: int)
    returns (out: map<string, Json>, err: Option<WalkError>)
    ensures var o := Walk(Env(answers, order, if maxDepth < 1 then 1 else maxDepth), sot, 1, NOTHING);
            out == o.st.out && err == o.err
  {
    var depth := if maxDepth < 1 then 1 else maxDepth;
    var w := new Walker(Env(answers, order, depth));
    err := w.Run(sot, 1);
    out := w.out;
  }
}
