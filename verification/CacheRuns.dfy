/**
  The establishment cache of one client under any interleaving of calls: a plain
  Establish, a bounce that refreshes, and the lazy ones (ensureEstablished and
  Bind) that look into the cache first.  Looking, fetching, parsing, the catalog
  check, the store and the look afterwards are separate steps; only the store
  and the looks hold the lock.
 */
module CacheRuns {
  import opened Wrappers
  import opened Establish
  import Bounce

  datatype Stage =
    | Looking
    | Fetching
    | Answered
    | Parsed(est: Establishment)
    | Checked(est: Establishment)
    | Stored(est: Establishment)
    | Holding(found: Option<Establishment>)   // what the call goes on with
    | Failed
    | Unbound                                 // stored, but found no schema afterwards

  // cols: the catalog this call validates; empty for none.  lazy: the call looks
  // before it fetches.  answer: what its fetch was answered, if it got that far.
  datatype Call = Call(cols: map<string, int>, lazy: bool, answer: Option<Envelope>, stage: Stage)

  // stores: the calls that reached the store, in that order.
  datatype State = State(cache: Option<Establishment>, calls: seq<Call>, stores: seq<nat>)

  datatype Action =
    | Begin(cols: map<string, int>, lazy: bool)
    | Look(call: nat)
    | Answer(call: nat, env: Envelope)
    | Fail(call: nat)                  // transport, token or context error
    | Parse(call: nat)
    | Validate(call: nat)
    | Store(call: nat)
    | LookAgain(call: nat)

  // What becomes of a call's answer when nothing else runs: the document it
  // stores, if it stores one.
  ghost function Alone(cols: map<string, int>, answer: Option<Envelope>): Option<Establishment> {
    if answer.Some? && Acceptable(answer.value) && CatalogOk(Decoded(answer.value), cols)
    then Some(Decoded(answer.value)) else None
  }

  ghost predicate Enabled(s: State, a: Action) {
    a.Begin? || (a.call < |s.calls|
                 && var stage := s.calls[a.call].stage;
                    match a
                    case Begin(_, _) => true
                    case Look(_) => stage.Looking?
                    case Answer(_, _) => stage.Fetching?
                    case Fail(_) => stage.Fetching?
                    case Parse(_) => stage.Answered?
                    case Validate(_) => stage.Parsed?
                    case Store(_) => stage.Checked?
                    case LookAgain(_) => stage.Stored? && (s.calls[a.call].lazy || s.calls[a.call].cols == map[]))
  }

  // The document has a schema for each collection, of whatever version.
  predicate Lists(est: Establishment, cols: map<string, int>) {
    forall name :: name in cols ==> name in est.schemas
  }

  // The next stage of the call that acts.  A lazy call that finds a document at
  // once checks the catalog against it; after its own store it only wants the
  // schemas to be there.
  ghost function Next(s: State, a: Action): Stage
    requires Enabled(s, a) && !a.Begin?
  {
    var call := s.calls[a.call];
    match a
    case Begin(_, _) => call.stage
    case Look(_) =>
      if s.cache.None? then Fetching else if CatalogOk(s.cache.value, call.cols) then Holding(s.cache) else Failed
    case Answer(_, _) => Answered
    case Fail(_) => Failed
    case Parse(_) =>
      if call.answer.Some? && Acceptable(call.answer.value) then Parsed(Decoded(call.answer.value)) else Failed
    case Validate(_) => if CatalogOk(call.stage.est, call.cols) then Checked(call.stage.est) else Failed
    case Store(_) => Stored(call.stage.est)
    case LookAgain(_) => if s.cache.Some? && !Lists(s.cache.value, call.cols) then Unbound else Holding(s.cache)
  }

  ghost function Do(s: State, a: Action): State
    requires Enabled(s, a)
  {
    if a.Begin? then s.(calls := s.calls + [Call(a.cols, a.lazy, None, if a.lazy then Looking else Fetching)])
    else
      var call := s.calls[a.call].(stage := Next(s, a));
      var s' := s.(calls := s.calls[a.call := if a.Answer? then call.(answer := Some(a.env)) else call]);
      if a.Store? then s'.(cache := Some(call.stage.est), stores := s.stores + [a.call]) else s'
  }

  ghost function Exec(s: State, actions: seq<Action>): Option<State> {
    if actions == [] then Some(s)
    else
      match Exec(s, actions[..|actions| - 1])
      case None => None
      case Some(k) =>
        var a := actions[|actions| - 1];
        if Enabled(k, a) then Some(Do(k, a)) else None
  }

  const EMPTY := State(None, [], [])

  /* ---- the invariant ---- */

  // Put into the cache by one of the calls.
  ghost predicate StoredBy(s: State, est: Establishment) {
    exists i :: i in s.stores && i < |s.calls| && Alone(s.calls[i].cols, s.calls[i].answer) == Some(est)
  }

  ghost predicate CallInv(s: State, i: nat)
    requires i < |s.calls|
  {
    var call := s.calls[i];
    var alone := Alone(call.cols, call.answer);
    match call.stage
    case Looking => i !in s.stores && call.answer.None?
    case Fetching => i !in s.stores && call.answer.None?
    case Answered => i !in s.stores && call.answer.Some?
    case Parsed(est) =>
      i !in s.stores && call.answer.Some? && Acceptable(call.answer.value) && est == Decoded(call.answer.value)
    case Checked(est) => i !in s.stores && alone == Some(est)
    case Stored(est) => i in s.stores && alone == Some(est)
    case Holding(found) =>
      && found.Some? && StoredBy(s, found.value)
      && (if call.answer.None? then i !in s.stores && CatalogOk(found.value, call.cols)
          else i in s.stores && alone.Some?)
    case Failed => i !in s.stores && alone.None?
    case Unbound => i in s.stores && alone.Some?
  }

  // The cache is empty until the first store and then holds what the last
  // store put there.
  ghost predicate CacheInv(s: State) {
    && (forall n :: 0 <= n < |s.stores| ==> s.stores[n] < |s.calls|)
    && (if s.stores == [] then s.cache == None
        else var last := s.calls[s.stores[|s.stores| - 1]];
             s.cache.Some? && s.cache == Alone(last.cols, last.answer))
  }

  ghost predicate Inv(s: State) {
    CacheInv(s) && forall i :: 0 <= i < |s.calls| ==> CallInv(s, i)
  }

  lemma CacheStored(s: State)
    requires CacheInv(s) && s.cache.Some?
    ensures StoredBy(s, s.cache.value)
  {
    assert s.stores[|s.stores| - 1] in s.stores;
  }

  // A later state has every store of an earlier one.
  ghost predicate Later(s: State, s': State) {
    && |s.calls| <= |s'.calls|
    && (forall i :: i in s.stores ==> i in s'.stores)
    && forall i :: i in s.stores && i < |s.calls| ==>
         Alone(s'.calls[i].cols, s'.calls[i].answer) == Alone(s.calls[i].cols, s.calls[i].answer)
  }

  lemma StoredLater(s: State, s': State, est: Establishment)
    requires Later(s, s') && StoredBy(s, est)
    ensures StoredBy(s', est)
  {
    var i :| i in s.stores && i < |s.calls| && Alone(s.calls[i].cols, s.calls[i].answer) == Some(est);
    assert i in s'.stores;
  }

  // A call that does not act keeps its invariant.
  lemma BystanderKeepsInv(s: State, s': State, i: nat)
    requires i < |s.calls| && Later(s, s') && s'.calls[i] == s.calls[i] && CallInv(s, i)
    requires i in s'.stores ==> i in s.stores
    ensures CallInv(s', i)
  {
    if s.calls[i].stage.Holding? { StoredLater(s, s', s.calls[i].stage.found.value); }
  }

  lemma DoIsLater(s: State, a: Action)
    requires Inv(s) && Enabled(s, a)
    ensures Later(s, Do(s, a))
  {
    if a.Answer? { assert CallInv(s, a.call); }
  }

  lemma ActorKeepsInv(s: State, a: Action)
    requires Inv(s) && Enabled(s, a) && !a.Begin?
    ensures CallInv(Do(s, a), a.call)
  {
    assert CallInv(s, a.call);
    if a.Look? { LookKeepsInv(s, a.call); }
    if a.LookAgain? { LookAgainKeepsInv(s, a.call); }
  }

  lemma LookKeepsInv(s: State, i: nat)
    requires Inv(s) && Enabled(s, Look(i))
    ensures CallInv(Do(s, Look(i)), i)
  {
    assert CallInv(s, i);
    DoIsLater(s, Look(i));
    if s.cache.Some? {
      CacheStored(s);
      StoredLater(s, Do(s, Look(i)), s.cache.value);
    }
  }

  lemma LookAgainKeepsInv(s: State, i: nat)
    requires Inv(s) && Enabled(s, LookAgain(i))
    ensures CallInv(Do(s, LookAgain(i)), i)
  {
    assert CallInv(s, i);
    assert s.stores != [];
    DoIsLater(s, LookAgain(i));
    CacheStored(s);
    StoredLater(s, Do(s, LookAgain(i)), s.cache.value);
  }

  lemma CacheKeepsInv(s: State, a: Action)
    requires Inv(s) && Enabled(s, a)
    ensures CacheInv(Do(s, a))
  {
    if a.Store? { assert CallInv(s, a.call); }
    if a.Answer? { assert CallInv(s, a.call); }
  }

  lemma DoKeepsInv(s: State, a: Action)
    requires Inv(s) && Enabled(s, a)
    ensures Inv(Do(s, a))
  {
    var s' := Do(s, a);
    DoIsLater(s, a);
    CacheKeepsInv(s, a);
    forall i | 0 <= i < |s'.calls| ensures CallInv(s', i) {
      if a.Begin? && i == |s.calls| {
        assert i !in s.stores;
      } else if !a.Begin? && i == a.call {
        ActorKeepsInv(s, a);
      } else {
        BystanderKeepsInv(s, s', i);
      }
    }
  }

  lemma {:induction false} ExecKeepsInv(actions: seq<Action>, k: State)
    requires Exec(EMPTY, actions) == Some(k)
    ensures Inv(k)
  {
    if actions != [] {
      var n := |actions| - 1;
      var before := Exec(EMPTY, actions[..n]).value;
      ExecKeepsInv(actions[..n], before);
      DoKeepsInv(before, actions[n]);
    }
  }

  /* ---- the theorems ---- */

  lemma AloneSound(cols: map<string, int>, answer: Option<Envelope>)
    requires Alone(cols, answer).Some?
    ensures Sound(Alone(cols, answer).value)
  {
    var m := Decoded(answer.value).shardMap;
    assert m.Keys == answer.value.shards.Keys;
    SameKeys(m, answer.value.shards);
  }

  // Whatever is cached was fetched, fully parsed and checked by some call, and
  // its shard map is empty or an exact partition.
  lemma {:induction false} CacheIsSound(actions: seq<Action>, k: State)
    requires Exec(EMPTY, actions) == Some(k)
    ensures k.cache.Some? ==> Sound(k.cache.value) && StoredBy(k, k.cache.value)
  {
    ExecKeepsInv(actions, k);
    if k.cache.Some? {
      CacheStored(k);
      var last := k.calls[k.stores[|k.stores| - 1]];
      AloneSound(last.cols, last.answer);
    }
  }

  // A call that looks after its own store, or finds something at once, goes on
  // with a sound document: "cache empty after fetch" is never reported.
  lemma {:induction false} NeverEmptyAfterSuccess(actions: seq<Action>, k: State, i: nat)
    requires Exec(EMPTY, actions) == Some(k) && i < |k.calls|
    ensures k.calls[i].stage.Holding? ==>
              && k.calls[i].stage.found.Some? && Sound(k.calls[i].stage.found.value)
              && StoredBy(k, k.calls[i].stage.found.value)
    ensures k.calls[i].stage.Stored? ==> k.cache.Some?
  {
    ExecKeepsInv(actions, k);
    assert CallInv(k, i);
    if k.calls[i].stage.Holding? {
      var found := k.calls[i].stage.found.value;
      var j :| j in k.stores && j < |k.calls| && Alone(k.calls[j].cols, k.calls[j].answer) == Some(found);
      AloneSound(k.calls[j].cols, k.calls[j].answer);
    }
  }

  // Between any two moments of a run: once filled the cache is never empty
  // again, and it has changed only if something was stored in between.
  lemma {:induction false} CacheOnlyMovesByStores(actions: seq<Action>, n: nat, early: State, late: State)
    requires n <= |actions| && Exec(EMPTY, actions[..n]) == Some(early) && Exec(EMPTY, actions) == Some(late)
    ensures early.cache.Some? ==> late.cache.Some?
    ensures early.stores <= late.stores
    ensures late.cache != early.cache ==> |late.stores| > |early.stores|
  {
    if n == |actions| {
      assert actions[..n] == actions;
    } else {
      var m := |actions| - 1;
      assert actions[..m][..n] == actions[..n];
      CacheOnlyMovesByStores(actions[..m], n, early, Exec(EMPTY, actions[..m]).value);
    }
  }

  // In every interleaving a finished call has stored exactly what its answer
  // alone would have made it store; a failed one stored nothing.
  lemma {:induction false} FinishedAsAlone(actions: seq<Action>, k: State, i: nat)
    requires Exec(EMPTY, actions) == Some(k) && i < |k.calls|
    ensures k.calls[i].stage.Stored? ==> Alone(k.calls[i].cols, k.calls[i].answer) == Some(k.calls[i].stage.est)
    ensures k.calls[i].stage.Failed? ==> i !in k.stores && Alone(k.calls[i].cols, k.calls[i].answer) == None
  {
    ExecKeepsInv(actions, k);
    assert CallInv(k, i);
  }

  lemma ExecOne(s: State, actions: seq<Action>, k: State, a: Action)
    requires Exec(s, actions) == Some(k) && Enabled(k, a)
    ensures Exec(s, actions + [a]) == Some(Do(k, a))
  {
    assert (actions + [a])[..|actions|] == actions;
  }

  /* ---- whose document a call goes on with ---- */

  predicate HoldsCatalog(call: Call) {
    call.stage.Holding? && call.stage.found.Some? ==> CatalogOk(call.stage.found.value, call.cols)
  }

  // No other call stores between call i's own store and its second look.
  ghost predicate Undisturbed(actions: seq<Action>, i: nat) {
    actions == []
    || var init, a := actions[..|actions| - 1], actions[|actions| - 1];
       && Undisturbed(init, i)
       && (a.Store? && a.call != i ==> !HasStored(Exec(EMPTY, init), i))
  }

  ghost predicate HasStored(k: Option<State>, i: nat) {
    k.Some? && i < |k.value.calls| && k.value.calls[i].stage.Stored?
  }

  // A run in which call i, for this catalog, goes on with a document that does
  // not have it.
  ghost predicate GoesAstray(cols: map<string, int>, undisturbed: bool, actions: seq<Action>, i: nat) {
    && Exec(EMPTY, actions).Some? && i < |Exec(EMPTY, actions).value.calls|
    && Exec(EMPTY, actions).value.calls[i].cols == cols
    && (undisturbed ==> Undisturbed(actions, i))
    && !HoldsCatalog(Exec(EMPTY, actions).value.calls[i])
  }

  // In all runs, whatever else the client does, a call for this catalog goes on
  // only with a document that has it.
  ghost predicate CatalogHeld(cols: map<string, int>, undisturbed: bool) {
    forall actions, i: nat :: !GoesAstray(cols, undisturbed, actions, i)
  }

  // That is so exactly if no other store comes between a call's own store and
  // its second look, or the call has no catalog.
  lemma {:induction false} CatalogHeldIffUndisturbed(cols: map<string, int>, undisturbed: bool)
    ensures CatalogHeld(cols, undisturbed) <==> undisturbed || cols == map[]
  {
    if undisturbed {
      forall actions, i: nat ensures !GoesAstray(cols, undisturbed, actions, i) {
        if GoesAstray(cols, undisturbed, actions, i) { UndisturbedHolds(actions, Exec(EMPTY, actions).value, i); }
      }
    } else if cols == map[] {
      forall actions, i: nat ensures !GoesAstray(cols, undisturbed, actions, i) {}
    } else {
      NextVersions(cols);
      var actions, k := Overtaken(cols, Offering(Increased(cols)));
      assert GoesAstray(cols, undisturbed, actions, 0);
    }
  }

  lemma {:induction false} UndisturbedHolds(actions: seq<Action>, k: State, i: nat)
    requires Exec(EMPTY, actions) == Some(k) && i < |k.calls| && Undisturbed(actions, i)
    ensures HoldsCatalog(k.calls[i])
    ensures k.calls[i].stage.Stored? ==> k.cache == Some(k.calls[i].stage.est)
  {
    var n := |actions| - 1;
    var before, a := Exec(EMPTY, actions[..n]).value, actions[n];
    if i < |before.calls| {
      UndisturbedHolds(actions[..n], before, i);
      ExecKeepsInv(actions[..n], before);
      UndisturbedStep(before, a, i);
    }
  }

  lemma UndisturbedStep(s: State, a: Action, i: nat)
    requires Inv(s) && Enabled(s, a) && i < |s.calls| && HoldsCatalog(s.calls[i])
    requires s.calls[i].stage.Stored? ==> s.cache == Some(s.calls[i].stage.est)
    requires a.Store? && a.call != i ==> !s.calls[i].stage.Stored?
    ensures var call := Do(s, a).calls[i];
            HoldsCatalog(call) && (call.stage.Stored? ==> Do(s, a).cache == Some(call.stage.est))
  {
    assert CallInv(s, i);
  }

  // An answer with these schemas and no shard map.
  function Offering(schemas: map<string, int>): Envelope {
    Envelope(true, Bounce.Unknown, true, None, map[], map[], schemas)
  }

  function Increased(cols: map<string, int>): map<string, int> {
    map name | name in cols :: cols[name] + 1
  }

  lemma NextVersions(cols: map<string, int>)
    requires cols != map[]
    ensures var e := Offering(Increased(cols));
            Acceptable(e) && Lists(Decoded(e), cols) && !CatalogOk(Decoded(e), cols)
  {
    assert cols.Keys != {};
    var name :| name in cols;
    assert Decoded(Offering(Increased(cols))).schemas[name] != cols[name];
  }

  // A lazy call for cols and a refresh, both at some stage.
  function Both(cols: map<string, int>, other: Envelope, first: Stage, second: Stage): seq<Call> {
    [Call(cols, true, Some(Offering(cols)), first), Call(map[], false, Some(other), second)]
  }

  // The first is answered with what it asks for, the second with another
  // document, and the second stores before the first looks again.
  lemma Overtaken(cols: map<string, int>, other: Envelope) returns (actions: seq<Action>, k: State)
    requires Acceptable(other) && Lists(Decoded(other), cols) && !CatalogOk(Decoded(other), cols)
    ensures Exec(EMPTY, actions) == Some(k) && |k.calls| == 2
    ensures k.calls[0].cols == cols && !HoldsCatalog(k.calls[0])
  {
    var one, two := Decoded(Offering(cols)), Decoded(other);
    actions := BothChecked(cols, other);
    k := State(None, Both(cols, other, Checked(one), Checked(two)), []);
    actions, k := Take(actions, k, Store(0));
    assert k == State(Some(one), Both(cols, other, Stored(one), Checked(two)), [0]);
    actions, k := Take(actions, k, Store(1));
    assert k == State(Some(two), Both(cols, other, Stored(one), Stored(two)), [0, 1]);
    actions, k := Take(actions, k, LookAgain(0));
  }

  lemma BothAsked(cols: map<string, int>) returns (actions: seq<Action>)
    ensures Exec(EMPTY, actions)
            == Some(State(None, [Call(cols, true, None, Fetching), Call(map[], false, None, Fetching)], []))
  {
    var k;
    actions, k := Take([], EMPTY, Begin(cols, true));
    assert k == State(None, [Call(cols, true, None, Looking)], []);
    actions, k := Take(actions, k, Look(0));
    assert k == State(None, [Call(cols, true, None, Fetching)], []);
    actions, k := Take(actions, k, Begin(map[], false));
    assert k.calls == [Call(cols, true, None, Fetching), Call(map[], false, None, Fetching)];
  }

  lemma BothAnswered(cols: map<string, int>, other: Envelope) returns (actions: seq<Action>)
    ensures Exec(EMPTY, actions) == Some(State(None, Both(cols, other, Answered, Answered), []))
  {
    actions := BothAsked(cols);
    var k := State(None, [Call(cols, true, None, Fetching), Call(map[], false, None, Fetching)], []);
    actions, k := Take(actions, k, Answer(0, Offering(cols)));
    assert k.calls == [Call(cols, true, Some(Offering(cols)), Answered), Call(map[], false, None, Fetching)];
    actions, k := Take(actions, k, Answer(1, other));
    assert k.calls == Both(cols, other, Answered, Answered);
  }

  lemma BothParsed(cols: map<string, int>, other: Envelope) returns (actions: seq<Action>)
    requires Acceptable(other)
    ensures Exec(EMPTY, actions)
            == Some(State(None, Both(cols, other, Parsed(Decoded(Offering(cols))), Parsed(Decoded(other))), []))
  {
    actions := BothAnswered(cols, other);
    var k := State(None, Both(cols, other, Answered, Answered), []);
    actions, k := Take(actions, k, Parse(0));
    assert k.calls == Both(cols, other, Parsed(Decoded(Offering(cols))), Answered);
    actions, k := Take(actions, k, Parse(1));
    assert k.calls == Both(cols, other, Parsed(Decoded(Offering(cols))), Parsed(Decoded(other)));
  }

  lemma BothChecked(cols: map<string, int>, other: Envelope) returns (actions: seq<Action>)
    requires Acceptable(other)
    ensures Exec(EMPTY, actions)
            == Some(State(None, Both(cols, other, Checked(Decoded(Offering(cols))), Checked(Decoded(other))), []))
  {
    var one, two := Decoded(Offering(cols)), Decoded(other);
    actions := BothParsed(cols, other);
    var k := State(None, Both(cols, other, Parsed(one), Parsed(two)), []);
    actions, k := Take(actions, k, Validate(0));
    assert k.calls == Both(cols, other, Checked(one), Parsed(two));
    actions, k := Take(actions, k, Validate(1));
    assert k.calls == Both(cols, other, Checked(one), Checked(two));
  }

  lemma Take(actions: seq<Action>, k: State, a: Action) returns (actions': seq<Action>, k': State)
    requires Exec(EMPTY, actions) == Some(k) && Enabled(k, a)
    ensures Exec(EMPTY, actions') == Some(k') && k' == Do(k, a)
  {
    ExecOne(EMPTY, actions, k, a);
    actions', k' := actions + [a], Do(k, a);
  }
}
