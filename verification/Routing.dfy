/** Choosing the server for a command (routing.go, client.go). */
module Routing {
  import opened Wrappers
  import opened Text
  import opened Shard
  import opened Establish
  import RangeText

  datatype Kind = WriteRoute | ReadRoute

  datatype Route = Route(server: string, baseURL: string, slot: Option<Slot>)

  datatype RouteError = NoAssignment(slot: Slot) | NoServer(slot: Slot) | MissingBaseURL(server: string)

  // crc: see Shard.DocumentSlot.
  datatype Config = Config(establishmentURL: string, rewrite: map<string, string>, prefer: string, crc: string -> nat)

  function RewriteURL(cfg: Config, server: string, baseURL: string): string {
    if server in cfg.rewrite && cfg.rewrite[server] != "" then TrimRight(cfg.rewrite[server], '/')
    else if baseURL in cfg.rewrite && cfg.rewrite[baseURL] != "" then TrimRight(cfg.rewrite[baseURL], '/')
    else TrimRight(baseURL, '/')
  }

  function ServerBaseURL(est: Establishment, name: string): string {
    if name in est.servers then est.servers[name] else ""
  }

  // The preferred server if it is one of the readers, else the first reader.
  method PickReadMember(a: Assignment, prefer: string) returns (name: string)
    ensures name == ReadMember(a, prefer)
  {
    if prefer != "" {
      for i := 0 to |a.readers|
        invariant prefer !in a.readers[..i]
      {
        if a.readers[i] == prefer { return prefer; }
      }
      assert a.readers[..|a.readers|] == a.readers;
    }
    return if |a.readers| > 0 then a.readers[0] else "";
  }

  function ReadMember(a: Assignment, prefer: string): string {
    if prefer != "" && prefer in a.readers then prefer
    else if |a.readers| > 0 then a.readers[0]
    else ""
  }

  function SearchMember(a: Assignment, prefer: string): string {
    if prefer != "" && (prefer == a.sot || prefer in a.readers) then prefer
    else if a.sot == "" && |a.readers| > 0 then a.readers[0]
    else a.sot
  }

  // From a chosen server name to a route.
  function ToServer(cfg: Config, est: Establishment, slot: Slot, name: string): Result<Route, RouteError> {
    if name == "" then Failure(NoServer(slot))
    else if ServerBaseURL(est, name) == "" then Failure(MissingBaseURL(name))
    else Success(Route(name, RewriteURL(cfg, name, ServerBaseURL(est, name)), Some(slot)))
  }

  // Commands without a usable document id go to the preferred or establishment server.
  function DefaultRoute(cfg: Config, est: Establishment): Route {
    var name := if cfg.prefer != "" then cfg.prefer else est.general.server;
    var u := ServerBaseURL(est, name);
    Route(name, RewriteURL(cfg, name, if u == "" then cfg.establishmentURL else u), None)
  }

  predicate Ordinary(id: string) {
    id != "" && id != "null"
  }

  // What routeDocument and routeSearch amount to on a sound document.
  ghost function DocumentRoute(cfg: Config, est: Establishment, id: string, kind: Kind): Result<Route, RouteError>
    requires Sound(est)
  {
    if !Ordinary(id) then Success(DefaultRoute(cfg, est))
    else
      var slot := DocumentSlot(cfg.crc, id);
      match Owner(est, slot)
      case None => Failure(NoAssignment(slot))
      case Some(a) => ToServer(cfg, est, slot, if kind.WriteRoute? then a.sot else ReadMember(a, cfg.prefer))
  }

  ghost function SearchRoute(cfg: Config, est: Establishment, slot: Slot): Result<Route, RouteError>
    requires Sound(est)
  {
    match Owner(est, slot)
    case None => Failure(NoAssignment(slot))
    case Some(a) => ToServer(cfg, est, slot, SearchMember(a, cfg.prefer))
  }

  method RouteDocument(cfg: Config, est: Establishment, id: string, kind: Kind) returns (r: Result<Route, RouteError>)
    ensures Sound(est) ==> r == DocumentRoute(cfg, est, id, kind)
  {
    if !Ordinary(id) { return Success(DefaultRoute(cfg, est)); }
    var slot := DocumentSlot(cfg.crc, id);
    var a := AssignmentForSlot(est, slot);
    if a.None? { return Failure(NoAssignment(slot)); }
    var name;
    match kind {
      case WriteRoute => name := a.value.sot;
      case ReadRoute => name := PickReadMember(a.value, cfg.prefer);
    }
    return ToServer(cfg, est, slot, name);
  }

  // The preferred member if it is the SOT or a read member, else the SOT member.
  method PickSearchMember(a: Assignment, prefer: string) returns (name: string)
    ensures name == SearchMember(a, prefer)
  {
    name := a.sot;
    if prefer != "" {
      if prefer == a.sot {
        name := prefer;
      } else {
        for i := 0 to |a.readers|
          invariant prefer !in a.readers[..i] && name == a.sot
        {
          if a.readers[i] == prefer {
            name := a.readers[i];
            break;
          }
        }
        assert a.readers[..|a.readers|] == a.readers;
      }
    }
    if name == "" && |a.readers| > 0 { name := a.readers[0]; }
  }

  method RouteSearch(cfg: Config, est: Establishment, slot: Slot) returns (r: Result<Route, RouteError>)
    ensures Sound(est) ==> r == SearchRoute(cfg, est, slot)
  {
    var found := AssignmentForSlot(est, slot);
    if found.None? { return Failure(NoAssignment(slot)); }
    var name := PickSearchMember(found.value, cfg.prefer);
    return ToServer(cfg, est, slot, name);
  }

  /* ---- total, deterministic, and where the rules say ---- */

  // The member a document command goes to.
  function DocumentMember(cfg: Config, a: Assignment, kind: Kind): string {
    if kind.WriteRoute? then a.sot else ReadMember(a, cfg.prefer)
  }

  // With a non-empty sound shard map an ordinary id has one assignment, and
  // routing fails exactly for want of a server name or of its base URL.  Writes
  // go to the source-of-truth member, reads to a listed reader.
  lemma {:induction false} OrdinaryRoutes(cfg: Config, est: Establishment, id: string, kind: Kind)
    requires Sound(est) && est.shardMap != map[] && Ordinary(id)
    ensures exists a :: Owner(est, DocumentSlot(cfg.crc, id)) == Some(a)
    ensures var slot := DocumentSlot(cfg.crc, id);
            var a := Owner(est, slot).value;
            var name, r := DocumentMember(cfg, a, kind), DocumentRoute(cfg, est, id, kind);
            && (r.Failure? <==> name == "" || ServerBaseURL(est, name) == "")
            && (r == Failure(NoServer(slot)) <==> name == "")
            && (r == Failure(MissingBaseURL(name)) <==> name != "" && ServerBaseURL(est, name) == "")
            && (r.Success? ==> r.value.server == name && r.value.slot == Some(slot))
            && (r.Success? && kind.ReadRoute? ==> name in a.readers)
  {
    var slot := DocumentSlot(cfg.crc, id);
    assert Owner(est, slot) == Some(est.shardMap[OwnerKey(est, slot)]);
  }

  // The same shard map with every proxy list emptied.
  ghost function WithoutProxies(est: Establishment): Establishment {
    est.(shardMap := map k | k in est.shardMap :: est.shardMap[k].(proxies := []))
  }

  lemma SameTarget(cfg: Config, a: Establishment, b: Establishment, slot: Slot, name: string)
    requires a.servers == b.servers
    ensures ToServer(cfg, a, slot, name) == ToServer(cfg, b, slot, name)
  {
  }

  lemma BareSound(est: Establishment)
    requires Sound(est)
    ensures Sound(WithoutProxies(est)) && (WithoutProxies(est).shardMap == map[] <==> est.shardMap == map[])
  {
    var bare := WithoutProxies(est);
    assert bare.shardMap.Keys == est.shardMap.Keys;
    SameKeys(bare.shardMap, est.shardMap);
  }

  lemma BareOwner(est: Establishment, slot: Slot)
    requires Sound(est) && est.shardMap != map[] && Sound(WithoutProxies(est))
    ensures Owner(est, slot).Some?
    ensures Owner(WithoutProxies(est), slot) == Some(Owner(est, slot).value.(proxies := []))
  {
    OwnerIs(WithoutProxies(est), slot, OwnerKey(est, slot));
  }

  lemma {:induction false} ProxiesNeverMatter(cfg: Config, est: Establishment, id: string, kind: Kind, slot: Slot)
    requires Sound(est)
    ensures Sound(WithoutProxies(est))
    ensures DocumentRoute(cfg, WithoutProxies(est), id, kind) == DocumentRoute(cfg, est, id, kind)
    ensures SearchRoute(cfg, WithoutProxies(est), slot) == SearchRoute(cfg, est, slot)
  {
    BareSound(est);
    BareDocumentRoute(cfg, est, id, kind);
    BareSearchRoute(cfg, est, slot);
  }

  lemma BareDocumentRoute(cfg: Config, est: Establishment, id: string, kind: Kind)
    requires Sound(est) && Sound(WithoutProxies(est))
    ensures DocumentRoute(cfg, WithoutProxies(est), id, kind) == DocumentRoute(cfg, est, id, kind)
  {
    var bare := WithoutProxies(est);
    BareSound(est);
    if !Ordinary(id) {
      assert DefaultRoute(cfg, bare) == DefaultRoute(cfg, est);
    } else if est.shardMap != map[] {
      var slot := DocumentSlot(cfg.crc, id);
      BareOwner(est, slot);
      var a := Owner(est, slot).value;
      assert ReadMember(a.(proxies := []), cfg.prefer) == ReadMember(a, cfg.prefer);
      SameTarget(cfg, bare, est, slot, a.sot);
      SameTarget(cfg, bare, est, slot, ReadMember(a, cfg.prefer));
    }
  }

  lemma BareSearchRoute(cfg: Config, est: Establishment, slot: Slot)
    requires Sound(est) && Sound(WithoutProxies(est))
    ensures SearchRoute(cfg, WithoutProxies(est), slot) == SearchRoute(cfg, est, slot)
  {
    BareSound(est);
    if est.shardMap != map[] {
      BareOwner(est, slot);
      var a := Owner(est, slot).value;
      assert SearchMember(a.(proxies := []), cfg.prefer) == SearchMember(a, cfg.prefer);
      SameTarget(cfg, WithoutProxies(est), est, slot, SearchMember(a, cfg.prefer));
    }
  }

  // Two documents that assign every slot alike, over the same servers.
  ghost predicate SameAssignments(a: Establishment, b: Establishment)
    requires Sound(a) && Sound(b)
  {
    && a.servers == b.servers && a.general == b.general
    && forall slot: Slot :: Owner(a, slot) == Owner(b, slot)
  }

  // How the map is written down does not matter: only what it assigns.
  lemma {:induction false} RoutingSeesOnlyAssignments(cfg: Config, a: Establishment, b: Establishment, id: string,
                                                      kind: Kind, slot: Slot)
    requires Sound(a) && Sound(b) && SameAssignments(a, b)
    ensures DocumentRoute(cfg, a, id, kind) == DocumentRoute(cfg, b, id, kind)
    ensures SearchRoute(cfg, a, slot) == SearchRoute(cfg, b, slot)
  {
    assert Owner(a, DocumentSlot(cfg.crc, id)) == Owner(b, DocumentSlot(cfg.crc, id));
    assert Owner(a, slot) == Owner(b, slot);
  }

  // Ranges that meet are assigned alike, whatever ranges the two maps are made of.
  ghost predicate Agree(a: Establishment, b: Establishment) {
    forall ka, kb, slot: Slot :: ka in a.shardMap && kb in b.shardMap && Owns(ka, slot) && Owns(kb, slot)
                                 ==> a.shardMap[ka] == b.shardMap[kb]
  }

  lemma {:induction false} AgreeingMapsAssignAlike(a: Establishment, b: Establishment)
    requires Sound(a) && Sound(b) && (a.shardMap == map[] <==> b.shardMap == map[])
    ensures Agree(a, b) <==> forall slot: Slot :: Owner(a, slot) == Owner(b, slot)
  {
    if Agree(a, b) && a.shardMap != map[] {
      forall slot: Slot ensures Owner(a, slot) == Owner(b, slot) {
        assert Owns(OwnerKey(a, slot), slot) && Owns(OwnerKey(b, slot), slot);
      }
    }
    if forall slot: Slot :: Owner(a, slot) == Owner(b, slot) {
      forall ka, kb, slot: Slot | ka in a.shardMap && kb in b.shardMap && Owns(ka, slot) && Owns(kb, slot)
        ensures a.shardMap[ka] == b.shardMap[kb]
      {
        OwnerIs(a, slot, ka);
        OwnerIs(b, slot, kb);
        assert Owner(a, slot) == Owner(b, slot);
      }
    }
  }

  // Splitting one range in two, however the three keys are spelled.
  ghost predicate SplitOf(est: Establishment, key: string, low: string, high: string) {
    && key in est.shardMap && low != high
    && (low in est.shardMap ==> low == key) && (high in est.shardMap ==> high == key)
    && ParseRange(low).Some? && ParseRange(high).Some?
    && forall slot: Slot :: Owns(key, slot) <==> (Owns(low, slot) != Owns(high, slot))
  }

  ghost predicate Disjoint(low: string, high: string) {
    forall slot: Slot :: !(Owns(low, slot) && Owns(high, slot))
  }

  ghost function SplitRange(est: Establishment, key: string, low: string, high: string): Establishment
    requires key in est.shardMap
  {
    est.(shardMap := (est.shardMap - {key})[low := est.shardMap[key]][high := est.shardMap[key]])
  }

  lemma {:induction false} SplittingARangeChangesNothing(cfg: Config, est: Establishment, key: string, low: string,
                                                         high: string, id: string, kind: Kind, at: Slot)
    requires Sound(est) && SplitOf(est, key, low, high) && Disjoint(low, high)
    ensures Sound(SplitRange(est, key, low, high))
    ensures DocumentRoute(cfg, SplitRange(est, key, low, high), id, kind) == DocumentRoute(cfg, est, id, kind)
    ensures SearchRoute(cfg, SplitRange(est, key, low, high), at) == SearchRoute(cfg, est, at)
  {
    var cut := SplitRange(est, key, low, high);
    forall slot: Slot ensures OwnedOnce(cut.shardMap, slot) {
      var _ := SplitOwner(est, key, low, high, slot);
    }
    assert cut.shardMap != map[] by { assert low in cut.shardMap; }
    forall slot: Slot ensures Owner(cut, slot) == Owner(est, slot) {
      SplitSameOwner(est, key, low, high, slot);
    }
    RoutingSeesOnlyAssignments(cfg, cut, est, id, kind, at);
  }

  lemma SplitSameOwner(est: Establishment, key: string, low: string, high: string, slot: Slot)
    requires Sound(est) && SplitOf(est, key, low, high) && Disjoint(low, high) && Sound(SplitRange(est, key, low, high))
    ensures Owner(SplitRange(est, key, low, high), slot) == Owner(est, slot)
  {
    var k := SplitOwner(est, key, low, high, slot);
    OwnerIs(SplitRange(est, key, low, high), slot, k);
  }

  // In particular at any slot, with the two halves in their usual spelling: an
  // accepted map has no key for either half besides.
  lemma {:induction false} SplitAnywhere(est: Establishment, key: string, at: Slot)
    requires Sound(est) && key in est.shardMap && ParseRange(key).Some?
    requires ParseRange(key).value.start <= at < ParseRange(key).value.end
    ensures var r := ParseRange(key).value;
            var low, high := RangeText.Write(Range(r.start, at)), RangeText.Write(Range(at + 1, r.end));
            SplitOf(est, key, low, high) && Disjoint(low, high)
  {
    var r := ParseRange(key).value;
    RangeText.WriteReads(Range(r.start, at));
    RangeText.WriteReads(Range(at + 1, r.end));
    NoOtherKey(est, key, RangeText.Write(Range(r.start, at)), r.start);
    NoOtherKey(est, key, RangeText.Write(Range(at + 1, r.end)), r.end);
  }

  lemma NoOtherKey(est: Establishment, key: string, other: string, slot: Slot)
    requires Sound(est) && key in est.shardMap && Owns(key, slot) && Owns(other, slot)
    ensures other in est.shardMap ==> other == key
  {
    if other in est.shardMap {
      assert est.shardMap != map[];
      assert OwnedOnce(est.shardMap, slot);
      SameOwner(est.shardMap, slot, key, other);
    }
  }

  lemma SplitOwner(est: Establishment, key: string, low: string, high: string, slot: Slot) returns (k: string)
    requires Sound(est) && SplitOf(est, key, low, high) && Disjoint(low, high)
    ensures var cut := SplitRange(est, key, low, high);
            && OwnedOnce(cut.shardMap, slot)
            && k in cut.shardMap && Owns(k, slot)
            && Owner(est, slot) == Some(cut.shardMap[k])
  {
    var cut := SplitRange(est, key, low, high);
    assert est.shardMap != map[];
    var was := OwnerKey(est, slot);
    k := if was != key then was else if Owns(low, slot) then low else high;
    forall other | other in cut.shardMap && Owns(other, slot) ensures other == k {
      PieceOwner(est, key, low, high, slot, other);
    }
    assert Owner(est, slot) == Some(est.shardMap[was]);
  }

  // Whichever piece owns the slot stands for the key that owned it before.
  lemma PieceOwner(est: Establishment, key: string, low: string, high: string, slot: Slot, other: string)
    requires Sound(est) && SplitOf(est, key, low, high) && Disjoint(low, high)
    requires other in SplitRange(est, key, low, high).shardMap && Owns(other, slot)
    ensures est.shardMap != map[] && OwnerKey(est, slot) == if other == low || other == high then key else other
  {
    assert est.shardMap != map[];
    assert OwnedOnce(est.shardMap, slot);
    if other == low || other == high { assert Owns(key, slot); }
    SameOwner(est.shardMap, slot, if other == low || other == high then key else other, OwnerKey(est, slot));
  }

  /* ---- where a route points ---- */

  // u is s less the slashes at its end, and less nothing else.
  ghost predicate Chopped(u: string, s: string) {
    u <= s && (u == "" || u[|u| - 1] != '/') && forall k :: |u| <= k < |s| ==> s[k] == '/'
  }

  // The base URL to use for a server whose document URL is raw: a rewrite by
  // server name counts first, then one by URL; empty rewrites count as none.
  ghost predicate Addressed(cfg: Config, server: string, raw: string, u: string) {
    if server in cfg.rewrite && cfg.rewrite[server] != "" then Chopped(u, cfg.rewrite[server])
    else if raw in cfg.rewrite && cfg.rewrite[raw] != "" then Chopped(u, cfg.rewrite[raw])
    else Chopped(u, raw)
  }

  lemma {:induction false} RewriteAddresses(cfg: Config, server: string, raw: string)
    ensures Addressed(cfg, server, raw, RewriteURL(cfg, server, raw))
  {
    TrimRightPrefix(if server in cfg.rewrite then cfg.rewrite[server] else "", '/');
    TrimRightPrefix(if raw in cfg.rewrite then cfg.rewrite[raw] else "", '/');
    TrimRightPrefix(raw, '/');
  }

  // A rewrite by server name hides whatever URL the document has for the server,
  // and no route ends in a slash.
  lemma {:induction false} RewritesHideURLs(cfg: Config, server: string, baseURL: string, other: string)
    ensures var u := RewriteURL(cfg, server, baseURL); u == "" || u[|u| - 1] != '/'
    ensures server in cfg.rewrite && cfg.rewrite[server] != "" ==>
              RewriteURL(cfg, server, baseURL) == RewriteURL(cfg, server, other) <= cfg.rewrite[server]
    ensures server !in cfg.rewrite && baseURL !in cfg.rewrite ==>
              var u := RewriteURL(cfg, server, baseURL);
              u <= baseURL && forall k :: |u| <= k < |baseURL| ==> baseURL[k] == '/'
  {
    RewriteAddresses(cfg, server, baseURL);
  }

  // The server whose URL the document has, and the one a rewrite or that URL
  // leads to.
  ghost predicate Reaches(cfg: Config, est: Establishment, name: string, slot: Option<Slot>, route: Route) {
    && route.server == name && route.slot == slot
    && name in est.servers && est.servers[name] != ""
    && Addressed(cfg, name, est.servers[name], route.baseURL)
  }

  // Every route of a document or a search is to the chosen member at its own
  // address, or there is none because that has no name or no URL.
  lemma {:induction false} RoutesReachTheMember(cfg: Config, est: Establishment, id: string, kind: Kind, slot: Slot)
    requires Sound(est) && est.shardMap != map[]
    ensures Ordinary(id) ==>
              var at := DocumentSlot(cfg.crc, id);
              Leads(cfg, est, at, DocumentMember(cfg, Owner(est, at).value, kind), DocumentRoute(cfg, est, id, kind))
    ensures Leads(cfg, est, slot, SearchMember(Owner(est, slot).value, cfg.prefer), SearchRoute(cfg, est, slot))
  {
    var at := DocumentSlot(cfg.crc, id);
    ToServerLeads(cfg, est, at, DocumentMember(cfg, Owner(est, at).value, kind));
    ToServerLeads(cfg, est, slot, SearchMember(Owner(est, slot).value, cfg.prefer));
  }

  ghost predicate Leads(cfg: Config, est: Establishment, slot: Slot, name: string, r: Result<Route, RouteError>) {
    if name == "" then r == Failure(NoServer(slot))
    else if name !in est.servers || est.servers[name] == "" then r == Failure(MissingBaseURL(name))
    else r.Success? && Reaches(cfg, est, name, Some(slot), r.value)
  }

  lemma ToServerLeads(cfg: Config, est: Establishment, slot: Slot, name: string)
    ensures Leads(cfg, est, slot, name, ToServer(cfg, est, slot, name))
  {
    if name in est.servers { RewriteAddresses(cfg, name, est.servers[name]); }
  }

  // Who is chosen: for a read the preferred reader, else the first; for a search
  // the preferred SOT or reader, else the SOT member, else the first reader; for
  // a write the SOT member, whoever is preferred.
  lemma {:induction false} MembersExact(cfg: Config, a: Assignment)
    ensures var read := DocumentMember(cfg, a, ReadRoute);
            && (cfg.prefer != "" && cfg.prefer in a.readers ==> read == cfg.prefer)
            && (cfg.prefer == "" || cfg.prefer !in a.readers ==> [read] <= a.readers || (a.readers == [] && read == ""))
    ensures var search := SearchMember(a, cfg.prefer);
            && (cfg.prefer != "" && cfg.prefer in [a.sot] + a.readers ==> search == cfg.prefer)
            && (cfg.prefer == "" || cfg.prefer !in [a.sot] + a.readers ==>
                  if a.sot != "" then search == a.sot else [search] <= a.readers || (a.readers == [] && search == ""))
    ensures DocumentMember(cfg, a, WriteRoute) == a.sot
  {
    assert forall x :: x in [a.sot] + a.readers <==> x == a.sot || x in a.readers;
  }

  // A command for the id "" or "null" goes to the preferred server, or to the
  // one that served the document if none is preferred, at its address, or at the
  // configured one if it has none.
  lemma {:induction false} OtherRoutes(cfg: Config, est: Establishment, id: string, kind: Kind)
    requires Sound(est) && id in {"", "null"}
    ensures DocumentRoute(cfg, est, id, kind).Success?
    ensures var route := DocumentRoute(cfg, est, id, kind).value;
            && route.server == (if cfg.prefer == "" then est.general.server else cfg.prefer)
            && route.slot == None
            && if route.server in est.servers && est.servers[route.server] != ""
               then Reaches(cfg, est, route.server, None, route)
               else Addressed(cfg, route.server, cfg.establishmentURL, route.baseURL)
  {
    var name := if cfg.prefer == "" then est.general.server else cfg.prefer;
    var raw := if ServerBaseURL(est, name) == "" then cfg.establishmentURL else ServerBaseURL(est, name);
    RewriteAddresses(cfg, name, raw);
  }

  // Identifiers that share a sharding prefix are routed alike.
  lemma {:induction false} SamePrefixSameRoute(cfg: Config, est: Establishment, a: string, b: string, kind: Kind)
    requires Sound(est) && ShardingPrefix(a) == ShardingPrefix(b)
    ensures DocumentRoute(cfg, est, a, kind) == DocumentRoute(cfg, est, b, kind)
  {
    ShortPrefix(a);
    ShortPrefix(b);
    assert DocumentSlot(cfg.crc, a) == DocumentSlot(cfg.crc, b);
  }

  // A prefix of fewer than six characters is the whole id.
  lemma ShortPrefix(id: string)
    ensures |ShardingPrefix(id)| < 6 ==> ShardingPrefix(id) == id
    ensures Ordinary(id) <==> Ordinary(ShardingPrefix(id))
  {
  }
}
