/**
  What a depth limit is worth: exactly when the reference walk resolves all
  reachable targets, and exactly when it resolves those within the limit.
 */
module ResolveLimits {
  import opened Wrappers
  import opened Json
  import opened Resolve
  import Refs

  // Nothing fails in this call, and at most n targets can be reached.
  ghost predicate Benign(env: Env, sot: Json, reach: set<Target>, limit: nat, n: nat) {
    Fair(env) && env.maxDepth == limit && Encloses(reach, env.answers, sot, n)
  }

  // At most n targets, which reading and following references never leaves.
  ghost predicate Encloses(reach: set<Target>, answers: Target -> Option<Json>, sot: Json, n: nat) {
    Closed(answers, reach) && PointsInto(sot, reach) && |reach| <= n
  }

  ghost predicate Resolves(env: Env, sot: Json, t: Target)
    requires env.maxDepth >= 1
  {
    Key(t) in Walk(env, sot, 1, NOTHING).st.out
  }

  ghost predicate Overlooks(env: Env, sot: Json, m: nat, t: Target)
    requires env.maxDepth >= 1
  {
    Reachable(env.answers, sot, m, t) && !Resolves(env, sot, t)
  }

  // A call that misses a target m references away.
  ghost predicate Misses(env: Env, sot: Json, reach: set<Target>, limit: nat, n: nat, m: nat, t: Target) {
    Benign(env, sot, reach, limit, n) && limit >= 1 && Overlooks(env, sot, m, t)
  }

  // No call with this limit that can reach at most n targets misses any of
  // them ...
  ghost predicate AllResolved(limit: nat, n: nat) {
    forall env, sot, reach, t, m: nat :: !Misses(env, sot, reach, limit, n, m, t)
  }

  // ... or at least none that is no more than `limit` references away.
  ghost predicate NearResolved(limit: nat, n: nat) {
    forall env, sot, reach, t :: !Misses(env, sot, reach, limit, n, limit, t)
  }

  // The exact condition for all targets.
  lemma {:induction false} AllResolvedIff(limit: nat, n: nat)
    requires limit >= 1
    ensures AllResolved(limit, n) <==> n <= limit
  {
    if n <= limit {
      forall env, sot, reach, t, m: nat ensures !Misses(env, sot, reach, limit, n, m, t) {
        EnoughDepth(env, sot, reach, limit, n, m, t);
      }
    } else {
      var env, docs, sot := SomeChainCase(limit);
      ChainCaseMisses(env, docs, sot, n);
    }
  }

  // The exact condition for near targets: a limit of one is a distance, a
  // larger one is none unless it is as large as the number of targets.
  lemma {:induction false} NearResolvedIff(limit: nat, n: nat)
    requires limit >= 1
    ensures NearResolved(limit, n) <==> n <= limit || limit == 1
  {
    if n <= limit {
      forall env, sot, reach, t ensures !Misses(env, sot, reach, limit, n, limit, t) {
        EnoughDepth(env, sot, reach, limit, n, limit, t);
      }
    } else if limit == 1 {
      forall env, sot, reach, t ensures !Misses(env, sot, reach, 1, n, 1, t) {
        OneLevel(env, reach, sot, t, n);
      }
    } else {
      var env, docs, root := SomeForkCase(limit);
      ForkCaseMisses(env, docs, root, n);
    }
  }

  lemma EnoughDepth(env: Env, sot: Json, reach: set<Target>, limit: nat, n: nat, m: nat, t: Target)
    requires n <= limit
    ensures !Misses(env, sot, reach, limit, n, m, t)
  {
    if Misses(env, sot, reach, limit, n, m, t) {
      assert ReachableKey(env, sot, Key(t));
      ReachableIsOut(env, sot, reach, Key(t));
    }
  }

  /* ---- a limit of one ---- */

  lemma OneLevel(env: Env, reach: set<Target>, sot: Json, t: Target, n: nat)
    ensures !Misses(env, sot, reach, 1, n, 1, t)
  {
    if Misses(env, sot, reach, 1, n, 1, t) {
      OneAway(env.answers, sot, t);
      DirectIsOut(env, reach, sot, t);
    }
  }

  lemma OneAway(answers: Target -> Option<Json>, sot: Json, t: Target)
    requires Reachable(answers, sot, 1, t)
    ensures Points(sot, t)
  {
    forall u ensures !Reachable(answers, sot, 0, u) {}
  }

  lemma DirectIsOut(env: Env, reach: set<Target>, sot: Json, t: Target)
    requires Fair(env) && env.maxDepth == 1 && Closed(env.answers, reach) && PointsInto(sot, reach) && Points(sot, t)
    ensures Resolves(env, sot, t)
  {
    var keys := env.order(0, sot);
    var k :| k in sot.fields && Kind(sot.fields[k]) == Direct(t);
    assert k in keys;
    FieldsAtTheLimit(env, reach, sot, keys, NOTHING);
  }

  lemma {:induction false} FieldsAtTheLimit(env: Env, reach: set<Target>, doc: Json, keys: seq<string>, st: State)
    requires env.maxDepth == 1 && Closed(env.answers, reach) && PointsInto(doc, reach)
    requires doc.Obj? && (forall k :: k in keys ==> k in doc.fields) && st.out.Keys == st.seen
    ensures var o := Fields(env, doc, keys, 1, st);
            && o.err.None? && st.seen <= o.st.seen && o.st.out.Keys == o.st.seen
            && forall k :: k in keys && Kind(doc.fields[k]).Direct? ==> Key(Kind(doc.fields[k]).t) in o.st.seen
    decreases |keys|
  {
    if keys != [] {
      var v := doc.Get(keys[0]);
      if Kind(v).Direct? { assert Points(doc, Kind(v).t); }
      VisitAtTheLimit(env, reach, v, st);
      FieldsAtTheLimit(env, reach, doc, keys[1..], Visit(env, v, 1, st).st);
      assert forall k :: k in keys ==> k == keys[0] || k in keys[1..];
    }
  }

  lemma VisitAtTheLimit(env: Env, reach: set<Target>, v: Json, st: State)
    requires env.maxDepth == 1 && Closed(env.answers, reach) && st.out.Keys == st.seen
    requires !Kind(v).Malformed? && (Kind(v).Direct? ==> Kind(v).t in reach)
    ensures var o := Visit(env, v, 1, st);
            && o.err.None? && st.seen <= o.st.seen && o.st.out.Keys == o.st.seen
            && (Kind(v).Direct? ==> Key(Kind(v).t) in o.st.seen)
  {
    if Kind(v).Direct? && Key(Kind(v).t) !in st.seen {
      VisitNew(env, v, 1, st, Kind(v).t, env.answers(Kind(v).t).value);
    }
  }

  // The first visit of a target reads it and walks on.
  lemma VisitNew(env: Env, v: Json, depth: nat, st: State, t: Target, d: Json)
    requires depth <= env.maxDepth && Kind(v) == Direct(t) && Key(t) !in st.seen && env.answers(t) == Some(d)
    ensures Visit(env, v, depth, st)
            == Walk(env, d, depth + 1, State(st.seen + {Key(t)}, st.out[Key(t) := d], st.log + [t]))
  {
  }

  /* ---- chains ---- */

  // "a", "aa", "aaa", ...
  function Name(n: nat): (id: string)
    ensures |id| == n && forall k :: 0 <= k < n ==> id[k] == 'a'
  {
    seq(n, _ => 'a')
  }

  function T(n: nat): Target {
    Target("C", Name(n))
  }

  // The document refers to the n-th target and to nothing else.
  ghost predicate LinksTo(doc: Json, n: nat) {
    doc.Obj? && doc.fields.Keys == {"r"} && Kind(doc.fields["r"]) == Direct(T(n))
  }

  ghost predicate Linked(docs: nat -> Json, n: nat) {
    LinksTo(docs(n), n)
  }

  ghost predicate Answers(answers: Target -> Option<Json>, docs: nat -> Json, n: nat) {
    answers(T(n)) == Some(docs(n + 1))
  }

  // docs(n) refers to target n, which reads as docs(n + 1); the last target
  // reads as an empty document.
  ghost predicate Chain(answers: Target -> Option<Json>, docs: nat -> Json, len: nat) {
    len >= 1 && AllLinked(docs, len) && AllAnswer(answers, docs, len) && answers(T(len)) == Some(Obj(map[]))
  }

  ghost predicate AllLinked(docs: nat -> Json, len: nat) {
    forall n :: 1 <= n <= len ==> Linked(docs, n)
  }

  ghost predicate AllAnswer(answers: Target -> Option<Json>, docs: nat -> Json, len: nat) {
    forall n :: 1 <= n < len ==> Answers(answers, docs, n)
  }

  lemma LinkPoints(doc: Json, n: nat, t: Target)
    requires LinksTo(doc, n)
    ensures Points(doc, t) <==> t == T(n)
    ensures Clean(doc)
  {
    assert "r" in doc.fields;
  }

  ghost function ChainTargets(len: nat): set<Target> {
    if len == 0 then {} else ChainTargets(len - 1) + {T(len)}
  }

  lemma {:induction false} ChainTarget(len: nat, t: Target)
    ensures t in ChainTargets(len) <==> 1 <= |t.id| <= len && t == T(|t.id|)
    ensures |ChainTargets(len)| <= len
  {
    if len > 0 { ChainTarget(len - 1, t); }
  }

  lemma LinkPointsInto(doc: Json, n: nat, len: nat)
    requires LinksTo(doc, n) && 1 <= n <= len
    ensures PointsInto(doc, ChainTargets(len))
  {
    forall t ensures Points(doc, t) ==> t in ChainTargets(len) {
      LinkPoints(doc, n, t);
      ChainTarget(len, t);
    }
    LinkPoints(doc, n, T(n));
  }

  lemma ChainDocument(answers: Target -> Option<Json>, docs: nat -> Json, len: nat, t: Target)
    requires Chain(answers, docs, len) && t in ChainTargets(len)
    ensures answers(t).Some? && PointsInto(answers(t).value, ChainTargets(len)) && '/' !in t.collection
  {
    ChainTarget(len, t);
    ChainReads(answers, docs, len, |t.id|);
  }

  lemma ChainReads(answers: Target -> Option<Json>, docs: nat -> Json, len: nat, n: nat)
    requires Chain(answers, docs, len) && 1 <= n <= len
    ensures answers(T(n)).Some? && PointsInto(answers(T(n)).value, ChainTargets(len))
  {
    if n < len {
      assert Answers(answers, docs, n) && Linked(docs, n + 1);
      LinkPointsInto(docs(n + 1), n + 1, len);
    }
  }

  lemma ChainClosed(answers: Target -> Option<Json>, docs: nat -> Json, len: nat)
    requires Chain(answers, docs, len)
    ensures Closed(answers, ChainTargets(len)) && |ChainTargets(len)| <= len
  {
    ChainTarget(len, T(0));
    forall t | t in ChainTargets(len)
      ensures answers(t).Some? && PointsInto(answers(t).value, ChainTargets(len)) && '/' !in t.collection
    {
      ChainDocument(answers, docs, len, t);
    }
  }

  // Target n of the chain is n references away from its first document, ...
  lemma {:induction false} ChainReaches(answers: Target -> Option<Json>, docs: nat -> Json, len: nat, n: nat)
    requires Chain(answers, docs, len) && 1 <= n <= len
    ensures Reachable(answers, docs(1), n, T(n))
  {
    assert Linked(docs, n);
    LinkPoints(docs(n), n, T(n));
    if n > 1 {
      ChainReaches(answers, docs, len, n - 1);
      assert Answers(answers, docs, n - 1);
    }
  }

  // ... and no fewer.
  lemma {:induction false} ChainDistance(answers: Target -> Option<Json>, docs: nat -> Json, len: nat, n: nat,
                                         t: Target)
    requires Chain(answers, docs, len) && Reachable(answers, docs(1), n, t)
    ensures t == T(|t.id|) && 1 <= |t.id| <= len && |t.id| <= n
  {
    assert Linked(docs, 1);
    LinkPoints(docs(1), 1, t);
    if !Points(docs(1), t) {
      var u := Before(answers, docs(1), n, t);
      ChainDistance(answers, docs, len, n - 1, u);
      ChainStep(answers, docs, len, |u.id|, t);
    }
  }

  lemma ChainStep(answers: Target -> Option<Json>, docs: nat -> Json, len: nat, n: nat, t: Target)
    requires Chain(answers, docs, len) && 1 <= n <= len && answers(T(n)).Some? && Points(answers(T(n)).value, t)
    ensures n < len && t == T(n + 1)
  {
    if n < len {
      assert Answers(answers, docs, n) && Linked(docs, n + 1);
      LinkPoints(docs(n + 1), n + 1, t);
    }
  }

  lemma Before(answers: Target -> Option<Json>, sot: Json, n: nat, t: Target) returns (u: Target)
    requires Reachable(answers, sot, n, t) && !Points(sot, t)
    ensures n > 0 && Reachable(answers, sot, n - 1, u) && answers(u).Some? && Points(answers(u).value, t)
  {
    u :| Reachable(answers, sot, n - 1, u) && answers(u).Some? && Points(answers(u).value, t);
  }

  // The first document of a chain one longer than the limit.
  ghost predicate ChainCase(env: Env, docs: nat -> Json, sot: Json) {
    Fair(env) && env.maxDepth >= 1 && Chain(env.answers, docs, env.maxDepth + 1) && sot == docs(1)
  }

  // A chain one longer than the limit: in every field order its last target is
  // missed.
  lemma {:induction false} LimitBelowCountMisses(env: Env, docs: nat -> Json, sot: Json)
    requires ChainCase(env, docs, sot)
    ensures Overlooks(env, sot, env.maxDepth + 1, T(env.maxDepth + 1))
  {
    ChainReaches(env.answers, docs, env.maxDepth + 1, env.maxDepth + 1);
    BeyondTheLimit(env, docs, sot);
  }

  lemma BeyondTheLimit(env: Env, docs: nat -> Json, sot: Json)
    requires ChainCase(env, docs, sot)
    ensures !Resolves(env, sot, T(env.maxDepth + 1))
  {
    if Resolves(env, sot, T(env.maxDepth + 1)) {
      var t := WithinLimit(env, sot, Key(T(env.maxDepth + 1)));
      OtherKey(env.answers, docs, env.maxDepth, t);
    }
  }

  lemma OtherKey(answers: Target -> Option<Json>, docs: nat -> Json, limit: nat, t: Target)
    requires Chain(answers, docs, limit + 1) && Reachable(answers, docs(1), limit, t)
    ensures Key(t) != Key(T(limit + 1))
  {
    ChainDistance(answers, docs, limit + 1, limit, t);
    KeysApart(|t.id|, limit + 1);
  }

  lemma KeysApart(n: nat, m: nat)
    requires n != m
    ensures Key(T(n)) != Key(T(m))
  {
    assert |Key(T(n))| == n + 2 && |Key(T(m))| == m + 2;
  }

  lemma WithinLimit(env: Env, sot: Json, key: string) returns (t: Target)
    requires Fair(env) && env.maxDepth >= 1 && key in Walk(env, sot, 1, NOTHING).st.out
    ensures Key(t) == key && Reachable(env.answers, sot, env.maxDepth, t)
  {
    ResolveSound(env, sot);
    assert Justified(env, sot, key, Walk(env, sot, 1, NOTHING).st.out[key]);
    t :| Key(t) == key && Reachable(env.answers, sot, env.maxDepth, t);
  }

  /* ---- forks ---- */

  // A root that refers to the first target of a chain and to the last but one.
  // The walk comes to that one through the chain, at the limit, does not look
  // into it, and does not return: what it refers to is missed, two references
  // away from the root.
  ghost predicate Fork(root: Json, limit: nat) {
    && root.Obj? && root.fields.Keys == {"x", "y"}
    && Kind(root.fields["x"]) == Direct(T(1)) && Kind(root.fields["y"]) == Direct(T(limit))
  }

  ghost predicate InOrder(env: Env, doc: Json) {
    forall w: nat :: env.order(w, doc) == ["r"]
  }

  ghost predicate InTurn(env: Env, docs: nat -> Json, n: nat) {
    InOrder(env, docs(n))
  }

  // The keys of the chain before its n-th target.
  ghost function KeysBefore(n: nat): set<string> {
    if n <= 1 then {} else KeysBefore(n - 1) + {Key(T(n - 1))}
  }

  lemma {:induction false} InKeysBefore(n: nat, i: nat)
    requires 1 <= n && 1 <= i
    ensures Key(T(i)) in KeysBefore(n) <==> i < n
  {
    if n > 1 {
      InKeysBefore(n - 1, i);
      if i != n - 1 { KeysApart(i, n - 1); }
    }
  }

  // Down the chain from its n-th target to the limit.
  lemma {:induction false} Down(env: Env, docs: nat -> Json, v: Json, n: nat, st: State) returns (after: State)
    requires Chain(env.answers, docs, env.maxDepth + 1) && 1 <= n <= env.maxDepth && st.seen == KeysBefore(n)
    requires forall i :: 1 <= i <= env.maxDepth ==> InTurn(env, docs, i)
    requires Kind(v) == Direct(T(n))
    ensures Visit(env, v, n, st) == Outcome(after, None)
    ensures after.seen == KeysBefore(env.maxDepth + 1)
    decreases env.maxDepth - n
  {
    var d := docs(n + 1);
    after := State(st.seen + {Key(T(n))}, st.out[Key(T(n)) := d], st.log + [T(n)]);
    ReadOne(env, docs, v, n, st, after);
    if n < env.maxDepth {
      var st' := after;
      assert Linked(docs, n + 1) && InTurn(env, docs, n + 1);
      after := Down(env, docs, d.fields["r"], n + 1, st');
      OnlyField(env, d, n + 1, st', after);
    }
  }

  lemma ReadOne(env: Env, docs: nat -> Json, v: Json, n: nat, st: State, read: State)
    requires Chain(env.answers, docs, env.maxDepth + 1) && 1 <= n <= env.maxDepth && st.seen == KeysBefore(n)
    requires Kind(v) == Direct(T(n))
    requires read == State(st.seen + {Key(T(n))}, st.out[Key(T(n)) := docs(n + 1)], st.log + [T(n)])
    ensures Visit(env, v, n, st) == Walk(env, docs(n + 1), n + 1, read) && read.seen == KeysBefore(n + 1)
  {
    InKeysBefore(n, n);
    assert Answers(env.answers, docs, n);
    VisitNew(env, v, n, st, T(n), docs(n + 1));
  }

  // A walk over a document with one field is the visit of that field.
  lemma OnlyField(env: Env, doc: Json, depth: nat, st: State, after: State)
    requires doc.Obj? && "r" in doc.fields && depth <= env.maxDepth && InOrder(env, doc)
    requires Visit(env, doc.fields["r"], depth, st) == Outcome(after, None)
    ensures Walk(env, doc, depth, st) == Outcome(after, None)
  {
    assert env.order(|st.log|, doc) == ["r"];
    assert ["r"][1..] == [];
    assert Fields(env, doc, [], depth, after) == Outcome(after, None);
  }

  // A walk over a document with two fields visits one and then the other.
  lemma TwoFields(env: Env, root: Json, first: State, second: State)
    requires root.Obj? && "x" in root.fields && "y" in root.fields && 1 <= env.maxDepth
    requires env.order(0, root) == ["x", "y"]
    requires Visit(env, root.fields["x"], 1, NOTHING) == Outcome(first, None)
    requires Visit(env, root.fields["y"], 1, first) == Outcome(second, None)
    ensures Walk(env, root, 1, NOTHING) == Outcome(second, None)
  {
    assert ["x", "y"][1..] == ["y"] && ["y"][1..] == [];
    assert Fields(env, root, [], 1, second) == Outcome(second, None);
    assert Fields(env, root, ["y"], 1, first) == Outcome(second, None);
    assert Fields(env, root, ["x", "y"], 1, NOTHING) == Outcome(second, None);
  }

  lemma SeenIsSkipped(env: Env, v: Json, st: State, t: Target)
    requires 1 <= env.maxDepth && Kind(v) == Direct(t) && Key(t) in st.seen
    ensures Visit(env, v, 1, st) == Outcome(st, None)
  {
  }

  lemma ForkWalk(env: Env, docs: nat -> Json, root: Json)
    requires env.maxDepth >= 2 && Chain(env.answers, docs, env.maxDepth + 1) && Fork(root, env.maxDepth)
    requires env.order(0, root) == ["x", "y"] && forall i :: 1 <= i <= env.maxDepth ==> InTurn(env, docs, i)
    ensures var o := Walk(env, root, 1, NOTHING); o.err.None? && Key(T(env.maxDepth + 1)) !in o.st.seen
  {
    var after := Down(env, docs, root.fields["x"], 1, NOTHING);
    InKeysBefore(env.maxDepth + 1, env.maxDepth);
    InKeysBefore(env.maxDepth + 1, env.maxDepth + 1);
    SeenIsSkipped(env, root.fields["y"], after, T(env.maxDepth));
    TwoFields(env, root, after, after);
  }

  lemma ForkReaches(answers: Target -> Option<Json>, docs: nat -> Json, root: Json, limit: nat)
    requires limit >= 1 && Chain(answers, docs, limit + 1) && Fork(root, limit)
    ensures Reachable(answers, root, 2, T(limit + 1))
  {
    assert Answers(answers, docs, limit) && Linked(docs, limit + 1);
    LinkPoints(docs(limit + 1), limit + 1, T(limit + 1));
    ForkPoints(root, limit, T(limit));
    TwoAway(answers, root, T(limit), docs(limit + 1), T(limit + 1));
  }

  lemma UnseenIsMissed(env: Env, sot: Json, t: Target)
    requires Fair(env) && env.maxDepth >= 1 && Key(t) !in Walk(env, sot, 1, NOTHING).st.seen
    ensures !Resolves(env, sot, t)
  {
    ResolveSound(env, sot);
  }

  lemma {:induction false} NearTargetsCanBeMissed(env: Env, docs: nat -> Json, root: Json)
    requires Fair(env) && env.maxDepth >= 2 && Chain(env.answers, docs, env.maxDepth + 1) && Fork(root, env.maxDepth)
    requires env.order(0, root) == ["x", "y"] && forall i :: 1 <= i <= env.maxDepth ==> InTurn(env, docs, i)
    ensures Overlooks(env, root, 2, T(env.maxDepth + 1))
    ensures Walk(env, root, 1, NOTHING).err.None?
  {
    ForkWalk(env, docs, root);
    ForkReaches(env.answers, docs, root, env.maxDepth);
    UnseenIsMissed(env, root, T(env.maxDepth + 1));
  }

  lemma TwoAway(answers: Target -> Option<Json>, sot: Json, u: Target, doc: Json, t: Target)
    requires Points(sot, u) && answers(u) == Some(doc) && Points(doc, t)
    ensures Reachable(answers, sot, 2, t)
  {
    assert Reachable(answers, sot, 1, u);
  }

  lemma ForkPoints(root: Json, limit: nat, t: Target)
    requires Fork(root, limit)
    ensures Points(root, t) <==> t == T(1) || t == T(limit)
    ensures Clean(root)
  {
    assert "x" in root.fields && "y" in root.fields;
  }

  lemma ForkPointsInto(root: Json, limit: nat, len: nat)
    requires Fork(root, limit) && 1 <= limit <= len
    ensures PointsInto(root, ChainTargets(len))
  {
    forall t ensures Points(root, t) ==> t in ChainTargets(len) {
      ForkPoints(root, limit, t);
      ChainTarget(len, t);
    }
    ForkPoints(root, limit, T(1));
  }

  /* ---- there are such chains and forks ---- */

  function Link(n: nat): Json {
    Str(Refs.Format(Refs.Direct, "C", Name(n)))
  }

  lemma LinkKind(n: nat)
    requires n >= 1
    ensures Kind(Link(n)) == Direct(T(n))
  {
    Refs.FormatReadsBack(Refs.Direct, "C", Name(n));
  }

  function To(n: nat): Json {
    Obj(map["r" := Link(n)])
  }

  function ChainAnswers(len: nat): Target -> Option<Json> {
    (t: Target) => Some(if |t.id| < len then To(|t.id| + 1) else Obj(map[]))
  }

  lemma SomeChain(len: nat) returns (answers: Target -> Option<Json>, docs: nat -> Json)
    requires len >= 1
    ensures Chain(answers, docs, len)
  {
    answers, docs := ChainAnswers(len), To;
    forall n | 1 <= n <= len ensures Linked(docs, n) { ToLinks(n); }
    forall n | 1 <= n < len ensures Answers(answers, docs, n) { ChainAnswer(len, n); }
    ChainAnswer(len, len);
  }

  lemma ToLinks(n: nat)
    requires n >= 1
    ensures LinksTo(To(n), n)
  {
    LinkKind(n);
  }

  lemma ChainAnswer(len: nat, n: nat)
    ensures ChainAnswers(len)(T(n)) == Some(if n < len then To(n + 1) else Obj(map[]))
  {
    assert |T(n).id| == n;
  }

  lemma SomeFork(limit: nat) returns (root: Json)
    requires limit >= 1
    ensures Fork(root, limit)
  {
    root := Obj(map["x" := Link(1), "y" := Link(limit)]);
    LinkKind(1);
    LinkKind(limit);
    assert root.fields.Keys == {"x", "y"};
  }

  // Fields in some order.
  ghost function Listed(keys: set<string>): (s: seq<string>)
    ensures forall k :: k in s <==> k in keys
  {
    if keys == {} then []
    else var k :| k in keys; [k] + Listed(keys - {k})
  }

  lemma OneKey(k: string)
    ensures Listed({k}) == [k]
  {
    assert {k} - {k} == {};
  }

  // An order that puts "x" before "y".
  ghost function XBeforeY(): (nat, Json) -> seq<string> {
    (n: nat, doc: Json) =>
      if !doc.Obj? then [] else if doc.fields.Keys == {"x", "y"} then ["x", "y"] else Listed(doc.fields.Keys)
  }

  // In every walk the only field comes as such, and "x" before "y".
  ghost predicate Orderly(env: Env) {
    forall w: nat, doc: Json :: doc.Obj? ==>
      && (doc.fields.Keys == {"r"} ==> env.order(w, doc) == ["r"])
      && (doc.fields.Keys == {"x", "y"} ==> env.order(w, doc) == ["x", "y"])
  }

  lemma ChainEnv(answers: Target -> Option<Json>, limit: nat) returns (env: Env)
    ensures env.maxDepth == limit && env.answers == answers && Fair(env) && Orderly(env)
  {
    env := Env(answers, XBeforeY(), limit);
    forall n: nat, doc: Json, k: string | doc.Obj? ensures k in env.order(n, doc) <==> k in doc.fields {
      assert k in doc.fields <==> k in doc.fields.Keys;
    }
    forall w: nat, doc: Json | doc.Obj? && doc.fields.Keys == {"r"} ensures env.order(w, doc) == ["r"] {
      OneKey("r");
      assert "x" !in doc.fields.Keys;
    }
  }

  lemma SomeChainCase(limit: nat) returns (env: Env, docs: nat -> Json, sot: Json)
    requires limit >= 1
    ensures ChainCase(env, docs, sot) && env.maxDepth == limit
  {
    var answers;
    answers, docs := SomeChain(limit + 1);
    env := ChainEnv(answers, limit);
    sot := docs(1);
  }

  lemma ChainCaseMisses(env: Env, docs: nat -> Json, sot: Json, n: nat)
    requires ChainCase(env, docs, sot) && env.maxDepth < n
    ensures Misses(env, sot, ChainTargets(env.maxDepth + 1), env.maxDepth, n, env.maxDepth + 1, T(env.maxDepth + 1))
  {
    LimitBelowCountMisses(env, docs, sot);
    ChainEnclosed(env, docs, sot, n);
  }

  lemma ChainEnclosed(env: Env, docs: nat -> Json, sot: Json, n: nat)
    requires ChainCase(env, docs, sot) && env.maxDepth < n
    ensures Encloses(ChainTargets(env.maxDepth + 1), env.answers, sot, n)
  {
    assert Linked(docs, 1);
    LinkPointsInto(sot, 1, env.maxDepth + 1);
    ChainEncloses(env.answers, docs, env.maxDepth + 1, sot, n);
  }

  // A fork over a chain one longer than the limit, walked in order.
  ghost predicate ForkCase(env: Env, docs: nat -> Json, root: Json) {
    && Fair(env) && Orderly(env) && env.maxDepth >= 2
    && Chain(env.answers, docs, env.maxDepth + 1) && Fork(root, env.maxDepth)
  }

  lemma SomeForkCase(limit: nat) returns (env: Env, docs: nat -> Json, root: Json)
    requires limit >= 2
    ensures ForkCase(env, docs, root) && env.maxDepth == limit
  {
    var answers;
    answers, docs := SomeChain(limit + 1);
    env := ChainEnv(answers, limit);
    root := SomeFork(limit);
  }

  lemma ForkCaseMisses(env: Env, docs: nat -> Json, root: Json, n: nat)
    requires ForkCase(env, docs, root) && env.maxDepth < n
    ensures Misses(env, root, ChainTargets(env.maxDepth + 1), env.maxDepth, n, env.maxDepth, T(env.maxDepth + 1))
  {
    ForkMisses(env, docs, root);
    ForkEnclosed(env, docs, root, n);
  }

  lemma ForkMisses(env: Env, docs: nat -> Json, root: Json)
    requires ForkCase(env, docs, root)
    ensures Overlooks(env, root, env.maxDepth, T(env.maxDepth + 1))
  {
    forall i | 1 <= i <= env.maxDepth ensures InTurn(env, docs, i) { assert Linked(docs, i); }
    NearTargetsCanBeMissed(env, docs, root);
    ReachableGrows(env.answers, root, 2, env.maxDepth, T(env.maxDepth + 1));
  }

  lemma ForkEnclosed(env: Env, docs: nat -> Json, root: Json, n: nat)
    requires ForkCase(env, docs, root) && env.maxDepth < n
    ensures Encloses(ChainTargets(env.maxDepth + 1), env.answers, root, n)
  {
    ForkPointsInto(root, env.maxDepth, env.maxDepth + 1);
    ChainEncloses(env.answers, docs, env.maxDepth + 1, root, n);
  }

  lemma ChainEncloses(answers: Target -> Option<Json>, docs: nat -> Json, len: nat, sot: Json, n: nat)
    requires Chain(answers, docs, len) && len <= n && PointsInto(sot, ChainTargets(len))
    ensures Encloses(ChainTargets(len), answers, sot, n)
  {
    ChainClosed(answers, docs, len);
  }
}
