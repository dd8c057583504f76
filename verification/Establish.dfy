/** Parsing and caching the establishment document (establish.go, client.go). */
module Establish {
  import opened Wrappers
  import opened Shard
  import Bounce

  datatype Assignment = Assignment(sot: string, readers: seq<string>, proxies: seq<string>)

  datatype General = General(server: string, version: int)

  // servers: name to base URL.  shardMap: raw range to assignment.  schemas:
  // collection to schema version.
  datatype Establishment = Establishment(
    general: General,
    servers: map<string, string>,
    shardMap: map<string, Assignment>,
    schemas: map<string, int>)

  // An establish answer.  None marks a part that does not decode; a general
  // block may also be absent.
  datatype Envelope = Envelope(
    ok: bool,
    code: Bounce.Code,
    isObject: bool,
    general: Option<Option<General>>,
    servers: map<string, Option<string>>,
    shards: map<string, Option<Assignment>>,
    schemas: map<string, int>)

  datatype ParseError =
    | NotOk(code: Bounce.Code)
    | NotAnObject
    | BadGeneral
    | BadServer(name: string)
    | BadShard(key: string)
    | BadRange(key: string)
    | BadCoverage(why: Coverage)

  /* ---- what is accepted ---- */

  predicate Owns(key: string, slot: Slot) {
    ParseRange(key).Some? && Contains(ParseRange(key).value, slot)
  }

  // Exactly one key of the map covers the slot.
  ghost predicate OwnedOnce<T>(shardMap: map<string, T>, slot: Slot) {
    exists key :: key in shardMap && Owns(key, slot)
                  && forall other :: other in shardMap && Owns(other, slot) ==> other == key
  }

  ghost predicate Partition<T>(shardMap: map<string, T>) {
    && (forall key :: key in shardMap ==> ParseRange(key).Some?)
    && forall slot: Slot :: OwnedOnce(shardMap, slot)
  }

  // The invariant of every document the client ever caches.
  ghost predicate Sound(est: Establishment) {
    est.shardMap == map[] || Partition(est.shardMap)
  }

  ghost predicate Decodes(env: Envelope) {
    && env.ok && env.isObject && env.general != Some(None)
    && (forall k :: k in env.servers ==> env.servers[k].Some?)
    && (forall k :: k in env.shards ==> env.shards[k].Some?)
  }

  ghost predicate Acceptable(env: Envelope) {
    Decodes(env) && (env.shards == map[] || Partition(env.shards))
  }

  ghost function Decoded(env: Envelope): Establishment
    requires Decodes(env)
  {
    Establishment(
      if env.general.Some? then env.general.value.value else General("", 0),
      map k | k in env.servers :: env.servers[k].value,
      map k | k in env.shards :: env.shards[k].value,
      env.schemas)
  }

  // Decode every entry of an object, in whatever order its keys come.
  method DecodeAll<T>(entries: map<string, Option<T>>) returns (bad: Option<string>, out: map<string, T>)
    ensures bad.Some? ==> bad.value in entries && entries[bad.value].None?
    ensures bad.None? ==> forall k :: k in entries ==> entries[k].Some?
    ensures bad.None? ==> out == map k | k in entries && entries[k].Some? :: entries[k].value
  {
    out := map[];
    var left := entries.Keys;
    while left != {}
      invariant left <= entries.Keys && out.Keys == entries.Keys - left
      invariant forall k :: k in out ==> entries[k] == Some(out[k])
      decreases left
    {
      var k :| k in left;
      left := left - {k};
      if entries[k].None? { return Some(k), out; }
      out := out[k := entries[k].value];
    }
    bad := None;
  }

  // The ranges slice: one range per key.  `keys` remembers the order of the walk.
  method CollectRanges(shardMap: map<string, Assignment>)
    returns (bad: Option<string>, ranges: seq<Range>, ghost keys: seq<string>)
    ensures bad.Some? ==> bad.value in shardMap && ParseRange(bad.value).None?
    ensures bad.None? ==> forall k :: k in shardMap ==> ParseRange(k).Some?
    ensures bad.None? ==> Listing(shardMap, keys, ranges)
  {
    ranges, keys := [], [];
    var left := shardMap.Keys;
    while left != {}
      invariant left <= shardMap.Keys
      invariant forall k :: k in keys <==> k in shardMap && k !in left
      invariant |keys| == |ranges|
      invariant forall i :: 0 <= i < |keys| ==> ParseRange(keys[i]) == Some(ranges[i])
      invariant forall i, j :: 0 <= i < j < |keys| ==> keys[i] != keys[j]
      decreases left
    {
      var k :| k in left;
      left := left - {k};
      var r := ParseRange(k);
      if r.None? { return Some(k), ranges, keys; }
      ranges, keys := ranges + [r.value], keys + [k];
    }
    bad := None;
  }

  // The keys without repetition, each with its range.
  ghost predicate Listing<T>(shardMap: map<string, T>, keys: seq<string>, ranges: seq<Range>) {
    && |keys| == |ranges|
    && (forall k :: k in keys <==> k in shardMap)
    && (forall i :: 0 <= i < |keys| ==> ParseRange(keys[i]) == Some(ranges[i]))
    && (forall i, j :: 0 <= i < j < |keys| ==> keys[i] != keys[j])
  }

  lemma KeyHits<T>(shardMap: map<string, T>, keys: seq<string>, ranges: seq<Range>, i: nat, slot: Slot)
    requires Listing(shardMap, keys, ranges) && i < |keys|
    ensures keys[i] in shardMap && (Owns(keys[i], slot) <==> Contains(ranges[i], slot))
  {
    assert keys[i] in keys;
  }

  lemma ExactMakesPartition<T>(shardMap: map<string, T>, keys: seq<string>, ranges: seq<Range>)
    requires Listing(shardMap, keys, ranges) && Exact(ranges)
    ensures Partition(shardMap)
  {
    forall slot: Slot ensures OwnedOnce(shardMap, slot) {
      ExactOwnsOnce(shardMap, keys, ranges, slot);
    }
    forall key | key in shardMap ensures ParseRange(key).Some? {
      var i :| 0 <= i < |keys| && keys[i] == key;
    }
  }

  lemma ExactOwnsOnce<T>(shardMap: map<string, T>, keys: seq<string>, ranges: seq<Range>, slot: Slot)
    requires Listing(shardMap, keys, ranges) && Exact(ranges)
    ensures OwnedOnce(shardMap, slot)
  {
    assert Covered(ranges, slot);
    var i :| 0 <= i < |ranges| && Contains(ranges[i], slot);
    KeyHits(shardMap, keys, ranges, i, slot);
    forall other | other in shardMap && Owns(other, slot) ensures other == keys[i] {
      NoSecondKey(shardMap, keys, ranges, slot, i, other);
    }
  }

  lemma NoSecondKey<T>(shardMap: map<string, T>, keys: seq<string>, ranges: seq<Range>, slot: Slot, i: nat,
                       other: string)
    requires Listing(shardMap, keys, ranges) && !Clash(ranges) && i < |keys| && Contains(ranges[i], slot)
    requires other in shardMap && Owns(other, slot)
    ensures other == keys[i]
  {
    assert other in keys;
    var j :| 0 <= j < |keys| && keys[j] == other;
    KeyHits(shardMap, keys, ranges, j, slot);
  }

  lemma PartitionMakesExact<T>(shardMap: map<string, T>, keys: seq<string>, ranges: seq<Range>)
    requires Listing(shardMap, keys, ranges) && Partition(shardMap)
    ensures Exact(ranges)
  {
    forall slot | 0 <= slot < 256 ensures Covered(ranges, slot) {
      assert OwnedOnce(shardMap, slot);
      var key :| key in shardMap && Owns(key, slot);
      assert key in keys;
      var i :| 0 <= i < |keys| && keys[i] == key;
      KeyHits(shardMap, keys, ranges, i, slot);
      assert Contains(ranges[i], slot);
    }
    if Clash(ranges) {
      var i, j, slot :| 0 <= i < j < |ranges| && Contains(ranges[i], slot) && Contains(ranges[j], slot);
      assert OwnedOnce(shardMap, slot);
      KeyHits(shardMap, keys, ranges, i, slot);
      KeyHits(shardMap, keys, ranges, j, slot);
    }
  }

  // The check on the list decides the property of the map.
  lemma {:induction false} ExactIsPartition<T>(shardMap: map<string, T>, keys: seq<string>, ranges: seq<Range>)
    requires Listing(shardMap, keys, ranges)
    ensures Exact(ranges) <==> Partition(shardMap)
  {
    if Exact(ranges) { ExactMakesPartition(shardMap, keys, ranges); }
    if Partition(shardMap) { PartitionMakesExact(shardMap, keys, ranges); }
  }

  // What a coverage error says of the map: two keys share a slot, or the slot
  // named is the least that no key covers.
  ghost predicate Explains<T>(why: Coverage, shardMap: map<string, T>) {
    match why
    case Full => false
    case Overlapping(slot) =>
      exists a, b :: a in shardMap && b in shardMap && a != b && Owns(a, slot) && Owns(b, slot)
    case Missing(slot) =>
      && (forall key :: key in shardMap ==> !Owns(key, slot))
      && forall x: Slot :: x < slot ==> Owned(shardMap, x)
  }

  ghost predicate Owned<T>(shardMap: map<string, T>, slot: Slot) {
    exists key :: key in shardMap && Owns(key, slot)
  }

  lemma CoveredIsOwned<T>(shardMap: map<string, T>, keys: seq<string>, ranges: seq<Range>, slot: Slot)
    requires Listing(shardMap, keys, ranges)
    ensures Covered(ranges, slot) <==> Owned(shardMap, slot)
  {
    if Covered(ranges, slot) {
      var i :| 0 <= i < |ranges| && Contains(ranges[i], slot);
      KeyHits(shardMap, keys, ranges, i, slot);
    }
    if Owned(shardMap, slot) {
      var key :| key in shardMap && Owns(key, slot);
      var i :| 0 <= i < |keys| && keys[i] == key;
      KeyHits(shardMap, keys, ranges, i, slot);
    }
  }

  lemma OverlapExplained<T>(shardMap: map<string, T>, keys: seq<string>, ranges: seq<Range>, n: nat, slot: Slot)
    requires Listing(shardMap, keys, ranges) && n < |ranges| && FirstClash(ranges, n, slot)
    ensures Explains(Overlapping(slot), shardMap)
  {
    var i :| 0 <= i < n && Contains(ranges[..n][i], slot);
    KeyHits(shardMap, keys, ranges, i, slot);
    KeyHits(shardMap, keys, ranges, n, slot);
  }

  lemma GapExplained<T>(shardMap: map<string, T>, keys: seq<string>, ranges: seq<Range>, slot: Slot)
    requires Listing(shardMap, keys, ranges)
    requires !Covered(ranges, slot) && forall x :: 0 <= x < slot ==> Covered(ranges, x)
    ensures Explains(Missing(slot), shardMap)
  {
    CoveredIsOwned(shardMap, keys, ranges, slot);
    forall x: Slot | x < slot ensures Owned(shardMap, x) { CoveredIsOwned(shardMap, keys, ranges, x); }
  }

  // The range and coverage checks at the end of parsing.
  method CheckShardMap(shards: map<string, Assignment>) returns (bad: Option<ParseError>)
    ensures bad.None? <==> shards == map[] || Partition(shards)
    ensures bad.Some? ==>
              || (bad.value.BadRange? && bad.value.key in shards && ParseRange(bad.value.key).None?)
              || (bad.value.BadCoverage? && Explains(bad.value.why, shards)
                  && forall key :: key in shards ==> ParseRange(key).Some?)
  {
    var badRange, ranges, keys := CollectRanges(shards);
    if badRange.Some? { return Some(BadRange(badRange.value)); }
    if |ranges| > 0 {
      var c := ValidateFullCoverage(ranges);
      ExactIsPartition(shards, keys, ranges);
      assert keys[0] in keys;
      match c {
        case Full => return None;
        case Overlapping(slot) =>
          ghost var n :| 0 <= n < |ranges| && FirstClash(ranges, n, slot);
          OverlapExplained(shards, keys, ranges, n, slot);
        case Missing(slot) => GapExplained(shards, keys, ranges, slot);
      }
      return Some(BadCoverage(c));
    }
    NothingListed(shards, keys, ranges);
    return None;
  }

  // The document has what the answer has, part by part.
  ghost predicate Keeps(env: Envelope, est: Establishment) {
    && (env.general.Some? ==> env.general == Some(Some(est.general)))
    && (env.general.None? ==> est.general == General("", 0))
    && est.servers.Keys == env.servers.Keys
    && (forall name :: name in env.servers ==> env.servers[name] == Some(est.servers[name]))
    && est.shardMap.Keys == env.shards.Keys
    && (forall key :: key in env.shards ==> env.shards[key] == Some(est.shardMap[key]))
    && est.schemas == env.schemas
  }

  lemma {:induction false} DecodedKeeps(env: Envelope)
    requires Decodes(env)
    ensures Keeps(env, Decoded(env))
  {
    if env.general.Some? { assert env.general.value.Some?; }
  }

  method ParseEstablishment(env: Envelope) returns (r: Result<Establishment, ParseError>)
    ensures r.Success? <==> Acceptable(env)
    ensures r.Success? ==> r.value == Decoded(env) && Sound(r.value)
    ensures r.Failure? ==>
              match r.error
              case NotOk(code) => !env.ok && code == env.code
              case NotAnObject => env.ok && !env.isObject
              case BadGeneral => env.ok && env.isObject && env.general == Some(None)
              case BadServer(name) => env.ok && env.isObject && name in env.servers && env.servers[name].None?
              case BadShard(key) => env.ok && env.isObject && key in env.shards && env.shards[key].None?
              case BadRange(key) => Decodes(env) && key in env.shards && ParseRange(key).None?
              case BadCoverage(why) =>
                Decodes(env) && Explains(why, env.shards) && forall key :: key in env.shards ==> ParseRange(key).Some?
  {
    if !env.ok { return Failure(NotOk(env.code)); }
    if !env.isObject { return Failure(NotAnObject); }
    var general := General("", 0);
    if env.general.Some? {
      if env.general.value.None? { return Failure(BadGeneral); }
      general := env.general.value.value;
    }
    var badServer, servers := DecodeAll(env.servers);
    if badServer.Some? { return Failure(BadServer(badServer.value)); }
    var badShard, shards := DecodeAll(env.shards);
    if badShard.Some? { return Failure(BadShard(badShard.value)); }
    assert shards.Keys == env.shards.Keys;
    SameKeys(shards, env.shards);
    assert shards == Decoded(env).shardMap && servers == Decoded(env).servers;
    var bad := CheckShardMap(shards);
    if bad.Some? && bad.value.BadCoverage? { SameExplanation(bad.value.why, shards, env.shards); }
    if bad.Some? { return Failure(bad.value); }
    return Success(Establishment(general, servers, shards, env.schemas));
  }

  lemma SameExplanation<S, T>(why: Coverage, a: map<string, S>, b: map<string, T>)
    requires a.Keys == b.Keys && Explains(why, a)
    ensures Explains(why, b)
  {
    assert forall key :: key in a <==> key in b;
    if why.Missing? {
      forall x: Slot | x < why.slot ensures Owned(b, x) {
        assert Owned(a, x);
      }
    }
  }

  lemma NothingListed<T>(shardMap: map<string, T>, keys: seq<string>, ranges: seq<Range>)
    requires Listing(shardMap, keys, ranges) && ranges == []
    ensures shardMap == map[]
  {
    assert forall k :: k !in shardMap;
  }

  lemma SameKeys<S, T>(a: map<string, S>, b: map<string, T>)
    requires a.Keys == b.Keys
    ensures Partition(a) <==> Partition(b)
    ensures a == map[] <==> b == map[]
  {
    assert forall k :: k in a <==> k in b;
    forall slot: Slot ensures OwnedOnce(a, slot) <==> OwnedOnce(b, slot) {
      if OwnedOnce(a, slot) {
        var key :| key in a && Owns(key, slot) && forall other :: other in a && Owns(other, slot) ==> other == key;
        assert key in b;
      }
      if OwnedOnce(b, slot) {
        var key :| key in b && Owns(key, slot) && forall other :: other in b && Owns(other, slot) ==> other == key;
        assert key in a;
      }
    }
    assert a == map[] <==> a.Keys == {};
    assert b == map[] <==> b.Keys == {};
  }

  /* ---- looking a slot up ---- */

  // The one key that covers the slot.
  ghost function OwnerKey(est: Establishment, slot: Slot): string
    requires est.shardMap != map[] && Sound(est)
    ensures OwnerKey(est, slot) in est.shardMap && Owns(OwnerKey(est, slot), slot)
  {
    assert OwnedOnce(est.shardMap, slot);
    var key :| key in est.shardMap && Owns(key, slot);
    key
  }

  // The slot-to-assignment function a shard map stands for.
  ghost function Owner(est: Establishment, slot: Slot): Option<Assignment>
    requires Sound(est)
  {
    if est.shardMap == map[] then None else Some(est.shardMap[OwnerKey(est, slot)])
  }

  // Whichever key is found to cover the slot, it is the one.
  lemma OwnerIs(est: Establishment, slot: Slot, key: string)
    requires Sound(est) && key in est.shardMap && Owns(key, slot)
    ensures Owner(est, slot) == Some(est.shardMap[key])
  {
    assert est.shardMap != map[];
    assert OwnedOnce(est.shardMap, slot);
    SameOwner(est.shardMap, slot, key, OwnerKey(est, slot));
  }

  lemma SameOwner<T>(shardMap: map<string, T>, slot: Slot, a: string, b: string)
    requires OwnedOnce(shardMap, slot)
    requires a in shardMap && Owns(a, slot) && b in shardMap && Owns(b, slot)
    ensures a == b
  {
  }

  // The map is walked in an arbitrary order; keys that do not parse are skipped.
  method AssignmentForSlot(est: Establishment, slot: Slot) returns (a: Option<Assignment>)
    ensures a.Some? <==> exists key :: key in est.shardMap && Owns(key, slot)
    ensures a.Some? ==> exists key :: key in est.shardMap && Owns(key, slot) && a.value == est.shardMap[key]
    ensures Sound(est) ==> a == Owner(est, slot)
  {
    var left := est.shardMap.Keys;
    while left != {}
      invariant left <= est.shardMap.Keys
      invariant forall key :: key in est.shardMap && key !in left ==> !Owns(key, slot)
      decreases left
    {
      var raw :| raw in left;
      left := left - {raw};
      var r := ParseRange(raw);
      if r.Some? && Contains(r.value, slot) {
        assert Owns(raw, slot);
        if Sound(est) { OwnerIs(est, slot, raw); }
        return Some(est.shardMap[raw]);
      }
    }
    assert Sound(est) && est.shardMap != map[] ==> OwnedOnce(est.shardMap, slot);
    return None;
  }

  /* ---- the catalog ---- */

  predicate CatalogOk(est: Establishment, cols: map<string, int>) {
    forall name :: name in cols ==> name in est.schemas && est.schemas[name] == cols[name]
  }

  // The catalog is part of the document's, name by name with the very version.
  lemma {:induction false} CatalogExact(est: Establishment, cols: map<string, int>)
    ensures CatalogOk(est, cols) <==> cols.Items <= est.schemas.Items
  {
    if CatalogOk(est, cols) {
      forall item | item in cols.Items ensures item in est.schemas.Items {
        assert item.0 in cols && cols[item.0] == item.1;
      }
    }
    if cols.Items <= est.schemas.Items {
      forall name | name in cols ensures name in est.schemas && est.schemas[name] == cols[name] {
        assert (name, cols[name]) in cols.Items;
      }
    }
  }
}
