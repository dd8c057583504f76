/**
  The client's methods as the source writes them (client.go, command.go), run
  against a network whose answers are fixed in advance but arbitrary.  Each is
  proved to be a run of the machine in Bounce.dfy.
 */
module Client {
  import opened Wrappers
  import opened Json
  import opened Bounce
  import opened Shard
  import opened Establish
  import opened Routing
  import CacheRuns

  // A decoded command answer; None is an error entry with an empty code.
  datatype Answer = Answer(ok: bool, codes: seq<Option<Code>>, value: Json)

  // The code appErrorFromResult reports.
  function AppCode(res: Answer): Code {
    if res.codes == [] || res.codes[0].None? then Unknown else res.codes[0].value
  }

  function VerdictOf(res: Answer): Verdict {
    if res.ok then Accepted else Refused(AppCode(res))
  }

  // What an answer means, field by field: ok ends the command with its value; a
  // refusal ends it with the code of the first error, or with "unknown" if there
  // is none; only wrongMachine, and only while retries are left (again), does not
  // end it.
  ghost predicate Judges(res: Answer, again: bool, o: Option<Outcome>) {
    if res.ok then o == Some(Done(res.value))
    else if res.codes == [] || res.codes[0].None? then o == Some(Failed(AppFailure(Unknown)))
    else if res.codes[0] == Some(WrongMachine) && again then o == None
    else o == Some(Failed(AppFailure(res.codes[0].value)))
  }

  // The verdict that the events of a command speak of is that of the answer.
  lemma {:induction false} VerdictExact(res: Answer, c: Code)
    ensures VerdictOf(res) == Accepted <==> res.ok
    ensures VerdictOf(res) == Refused(c) <==>
              && !res.ok
              && (if res.codes == [] || res.codes[0].None? then c == Unknown else res.codes[0] == Some(c))
  {
  }

  // Faults: see Bounce.Reply.
  datatype PostAnswer = PostAnswer(taken: nat, wire: PostWire)
  datatype PostWire = Replied(res: Answer) | PostLost | PostBroken
  datatype GetAnswer = GotEnvelope(env: Envelope) | GetLost | GetBroken

  // An answer to a file download.  fileHeaders: a file version or checksum
  // header is present.  copied, copyOk: how far copying the body gets.
  // hookOk: the caller's OnResponse agrees.  readOk: the body of a non-stream
  // can be read and is not oversized.
  datatype FileAnswer =
    | NoResponse(local: bool)
    | Response(status: int, fileHeaders: bool, body: seq<Byte>, copied: nat, copyOk: bool, hookOk: bool,
               readOk: bool, decoded: Option<Answer>)

  // What doJSON returns; with a negative retry count, an empty result.
  datatype JsonResult<T> = Res(res: T) | Err(failure: Failure)

  const EMPTY_ANSWER := Answer(false, [], Void)
  const EMPTY_CONFIG := Envelope(false, Unknown, false, None, map[], map[], map[])

  // The reader a command body is sent from.
  class Reader {
    const data: seq<Byte>
    var pos: nat

    constructor (data: seq<Byte>)
      ensures this.data == data && pos == 0
    {
      this.data := data;
      pos := 0;
    }
  }

  function ReplyOf(wire: PostWire): Reply {
    match wire
    case Replied(res) => Answered(VerdictOf(res), res.value)
    case PostLost => Lost
    case PostBroken => Broken
  }

  /* ---- runs of the machine, with the bytes each POST offers ---- */

  // From m, the events lead to k; each POST among them offers what is left of the
  // body at that point.
  ghost predicate Drives(m: Machine, events: seq<Event>, offered: seq<seq<Byte>>, body: seq<Byte>, k: Machine) {
    |offered| == |events| && forall n :: 0 <= n <= |events| ==> DrivesTo(m, events, offered, body, k, n)
  }

  // So far after n of the events.
  ghost predicate DrivesTo(m: Machine, events: seq<Event>, offered: seq<seq<Byte>>, body: seq<Byte>, k: Machine, n: nat)
    requires |offered| == |events| && n <= |events|
  {
    && Run(m, events[..n]).Some?
    && (n == |events| ==> Run(m, events) == Some(k))
    && (n < |events| && events[n].Posted? ==>
          var at := Run(m, events[..n]).value;
          at.phase.Posting? && at.phase.pos <= |body| && offered[n] == body[at.phase.pos..])
  }

  lemma DrivesNone(m: Machine, body: seq<Byte>)
    ensures Drives(m, [], [], body, m)
  {
  }

  lemma DrivesOne(m: Machine, events: seq<Event>, offered: seq<seq<Byte>>, body: seq<Byte>, k: Machine, e: Event,
                  bytes: seq<Byte>)
    requires Drives(m, events, offered, body, k) && Fits(k, e)
    requires e.Posted? ==> k.phase.pos <= |body| && bytes == body[k.phase.pos..]
    ensures Drives(m, events + [e], offered + [bytes], body, Step(k, e))
  {
    var all, more := events + [e], offered + [bytes];
    assert DrivesTo(m, events, offered, body, k, |events|);
    RunOne(m, events, k, e);
    forall n | 0 <= n <= |all| ensures DrivesTo(m, all, more, body, Step(k, e), n) {
      if n <= |events| {
        assert DrivesTo(m, events, offered, body, k, n);
        assert all[..n] == events[..n];
      } else {
        assert all[..n] == all;
      }
    }
  }

  // The first POST of every hop carries the whole command; without transport
  // retries every POST does.
  lemma {:induction false} FirstPostIsWhole(m: Machine, events: seq<Event>, offered: seq<seq<Byte>>, body: seq<Byte>,
                                            k: Machine, i: nat)
    requires WellFormed(m) && Drives(m, events, offered, body, k)
    requires i < |events| && events[i].Posted?
    ensures Run(m, events[..i]).Some? && Run(m, events[..i]).value.phase.Posting?
    ensures Run(m, events[..i]).value.phase.try == 0 || m.p.postTries == 0 ==> offered[i] == body
  {
    assert DrivesTo(m, events, offered, body, k, i);
    RunWellFormed(m, events[..i], Run(m, events[..i]).value);
  }

  // A command: the machine it begins as, its body, and how its route is found.
  datatype Order = Order(start: Machine, body: seq<Byte>, resolver: Resolver)

  // A command under way: what happened to it, what its POSTs offered of the
  // body, and where it is now.
  datatype Record = Record(order: Order, events: seq<Event>, offered: seq<seq<Byte>>, now: Machine)

  const BLANK := Machine(Bounce.Params(0, 0, 0, 0), false, 0, Looking)

  type Tape = r: Record | Drives(r.order.start, r.events, r.offered, r.order.body, r.now)
    witness Record(Order(BLANK, [], NoResolver), [], [], BLANK)

  lemma TapeRuns(t: Tape)
    ensures Run(t.order.start, t.events) == Some(t.now)
  {
    assert DrivesTo(t.order.start, t.events, t.offered, t.order.body, t.now, |t.events|);
  }

  function Fresh(order: Order): (t: Tape)
    ensures t.order == order && t.now == order.start && t.events == []
  {
    DrivesNone(order.start, order.body);
    Record(order, [], [], order.start)
  }

  ghost function Then(t: Tape, e: Event): (t': Tape)
    requires Fits(t.now, e) && (e.Posted? ==> t.now.phase.pos <= |t.order.body|)
    ensures t'.order == t.order && t'.now == Step(t.now, e) && t'.events == t.events + [e]
  {
    var bytes := if e.Posted? then t.order.body[t.now.phase.pos..] else [];
    DrivesOne(t.order.start, t.events, t.offered, t.order.body, t.now, e, bytes);
    Record(t.order, t.events + [e], t.offered + [bytes], Step(t.now, e))
  }

  // The n-th thing to happen is answered by the n-th answer of its kind.
  class Network {
    const posts: nat -> PostAnswer
    const gets: nat -> GetAnswer
    const cancels: nat -> bool
    const opens: nat -> bool         // whether an upload body can be opened
    const files: nat -> FileAnswer
    var clock: nat
    ghost var tape: Tape

    // A new command begins.
    ghost method Begin(order: Order)
      modifies this`tape
      ensures tape == Fresh(order)
    {
      tape := Fresh(order);
    }

    method Happened(ghost e: Event)
      requires Fits(tape.now, e) && (e.Posted? ==> tape.now.phase.pos <= |tape.order.body|)
      modifies this
      ensures tape.order == old(tape.order) && tape.now == Step(old(tape.now), e)
      ensures clock == old(clock) + 1
    {
      tape := Then(tape, e);
      clock := clock + 1;
    }

    // One POST to a base URL: some of the body is read, and an answer comes or
    // does not.
    method Post(base: string, reader: Reader) returns (wire: PostWire)
      requires tape.now.phase.Posting? && tape.now.phase.base == base
      requires tape.now.phase.pos == reader.pos <= |reader.data| == tape.now.p.size
      requires reader.data == tape.order.body
      modifies this, reader`pos
      ensures old(reader.pos) <= reader.pos <= |reader.data|
      ensures tape.order == old(tape.order)
      ensures tape.now == OnPosted(old(tape.now), base, old(tape.now).phase.try, reader.pos, ReplyOf(wire))
      ensures wire.Replied? ==> Said(wire.res)
    {
      var a := posts(clock);
      var taken := if reader.pos + a.taken <= |reader.data| then a.taken else |reader.data| - reader.pos;
      wire := a.wire;
      Happened(Posted(taken, ReplyOf(wire)));
      reader.pos := reader.pos + taken;
    }

    // The last exchange was a POST answered like this.
    predicate Said(res: Answer)
      reads this
    {
      clock > 0 && posts(clock - 1).wire == Replied(res)
    }

    // A pause that is not part of a command.
    method Wait(ms: nat) returns (canceled: bool, ghost waited: nat)
      modifies this`clock
      ensures waited == ms
    {
      waited := ms;
      canceled := cancels(clock);
      clock := clock + 1;
    }

    // The pause after attempt number `try` of a transport loop.
    method Sleep(ms: nat) returns (canceled: bool)
      requires tape.now.phase.PostPause? || tape.now.phase.GetPause?
      requires ms == 100 * (tape.now.phase.try + 1)
      modifies this
      ensures tape.order == old(tape.order)
      ensures tape.now == Step(old(tape.now), Slept(canceled)) && clock == old(clock) + 1
    {
      canceled := cancels(clock);
      Happened(Slept(canceled));
    }
  }

  /* ---- the client ---- */

  datatype Resolver =
    | NoResolver
    | ByDocument(id: string, kind: Kind)
    | BySlot(slot: Slot)
    | ByDefault

  ghost function RouteBy(cfg: Routing.Config, est: Establishment, resolver: Resolver): RouteReply
    requires Sound(est)
  {
    match resolver
    case NoResolver => Nowhere
    case ByDocument(id, kind) => AsReply(DocumentRoute(cfg, est, id, kind))
    case BySlot(slot) => AsReply(SearchRoute(cfg, est, slot))
    case ByDefault => AsReply(Success(DefaultRoute(cfg, est)))
  }

  function AsReply(r: Result<Route, RouteError>): RouteReply {
    match r
    case Failure(_) => NoRoute
    case Success(route) => if route.baseURL == "" then Nowhere else Hop(route.baseURL)
  }

  // Where a hop goes: writes of a document to its SOT member, reads to a listed
  // reader, searches to the member chosen for the slot; each at that member's own
  // address.
  lemma {:induction false} HopsReachTheMember(cfg: Routing.Config, est: Establishment, id: string, kind: Kind,
                                              slot: Slot, u: string)
    requires Sound(est) && est.shardMap != map[]
    ensures Ordinary(id) && RouteBy(cfg, est, ByDocument(id, kind)) == Hop(u) ==>
              var a := Owner(est, DocumentSlot(cfg.crc, id)).value;
              exists name :: name in est.servers && Addressed(cfg, name, est.servers[name], u)
                             && if kind.WriteRoute? then name == a.sot else name in a.readers
    ensures RouteBy(cfg, est, BySlot(slot)) == Hop(u) ==>
              var a := Owner(est, slot).value;
              exists name :: name in est.servers && Addressed(cfg, name, est.servers[name], u)
                             && (name == a.sot || name in a.readers)
    ensures RouteBy(cfg, est, NoResolver) == Nowhere
  {
    RoutesReachTheMember(cfg, est, id, kind, slot);
    if Ordinary(id) { MembersExact(cfg, Owner(est, DocumentSlot(cfg.crc, id)).value); }
    MembersExact(cfg, Owner(est, slot).value);
  }

  class SmartClient {
    const cfg: Routing.Config
    const wmRetries: nat
    const trRetries: int
    var cache: Option<Establishment>

    // New clamps the bounce retries but leaves the transport retries as they are.
    constructor (cfg: Routing.Config, wrongMachineRetries: int, transportRetries: int)
      ensures this.cfg == cfg && wmRetries == Hops(wrongMachineRetries) >= 1 && trRetries == transportRetries
      ensures Valid() && cache == None
    {
      this.cfg := cfg;
      wmRetries := Hops(wrongMachineRetries);
      trRetries := transportRetries;
      cache := None;
    }

    // With negative transport retries the cache is never filled.
    ghost predicate Valid()
      reads this
    {
      cache.Some? ==> Sound(cache.value) && trRetries >= 0
    }

    function Params(size: nat): Bounce.Params {
      Bounce.Params(wmRetries, trRetries, trRetries, size)
    }

    // After lost attempt i of a transport loop: a pause, if another one follows.
    method PauseOrGiveUp(net: Network, i: nat) returns (failed: Option<Failure>)
      requires if i < trRetries
               then (net.tape.now.phase.PostPause? || net.tape.now.phase.GetPause?) && net.tape.now.phase.try == i
               else i == trRetries && net.tape.now.phase == Over(Failed(TransportFailure))
      modifies net
      ensures net.tape.order == old(net.tape.order) && net.clock >= old(net.clock)
      ensures failed.Some? ==> net.tape.now == Fail(old(net.tape.now), failed.value) && !failed.value.AppFailure?
      ensures failed.None? ==> i < trRetries && net.tape.now == Step(old(net.tape.now), Slept(false))
    {
      if i + 1 == trRetries + 1 { return Some(TransportFailure); }
      var canceled := net.Sleep((i + 1) * 100);
      return if canceled then Some(LocalFailure) else None;
    }

    // One attempt of a hop and, if it was lost, the pause before the next.
    method PostAttempt(net: Network, base: string, i: nat, reader: Reader) returns (r: Option<JsonResult<Answer>>)
      requires net.tape.order.body == reader.data && net.tape.now.p == Params(|reader.data|)
      requires i <= trRetries && net.tape.now.phase == Posting(base, i, reader.pos) && reader.pos <= |reader.data|
      modifies net, reader`pos
      ensures net.tape.order == old(net.tape.order)
      ensures r.None? ==>
                && i < trRetries && reader.pos <= |reader.data|
                && net.tape.now == old(net.tape.now).(phase := Posting(base, i + 1, reader.pos))
      ensures r.Some? ==> net.tape.now == AfterPost(old(net.tape.now), r.value)
      ensures r.Some? && r.value.Res? ==> net.Said(r.value.res)
      ensures r.Some? && r.value.Err? ==> !r.value.failure.AppFailure?
    {
      var wire := net.Post(base, reader);
      match wire {
        case Replied(res) => return Some(Res(res));
        case PostBroken => return Some(Err(LocalFailure));
        case PostLost =>
      }
      var failed := PauseOrGiveUp(net, i);
      return if failed.Some? then Some(Err(failed.value)) else None;
    }

    // doJSON for a POST: every attempt of the hop reads from the same reader.
    method DoPost(net: Network, base: string, reader: Reader) returns (r: JsonResult<Answer>)
      requires net.tape.order.body == reader.data && net.tape.now.p == Params(|reader.data|)
      requires reader.pos == 0 < |reader.data|
      requires net.tape.now == EnterPost(net.tape.now, base)
      modifies net, reader`pos
      ensures net.tape.order == old(net.tape.order)
      ensures net.tape.now == AfterPost(old(net.tape.now), r)
      ensures r.Res? ==> if trRetries < 0 then r.res == EMPTY_ANSWER else net.Said(r.res)
      ensures r.Err? ==> !r.failure.AppFailure?
    {
      var i := 0;
      while i < trRetries + 1
        invariant 0 <= i && (i < trRetries + 1 || i == 0) && reader.pos <= |reader.data|
        invariant net.tape.order == old(net.tape.order)
        invariant net.tape.now == if trRetries < 0 then old(net.tape.now)
                                  else old(net.tape.now).(phase := Posting(base, i, reader.pos))
        decreases trRetries - i
      {
        var done := PostAttempt(net, base, i, reader);
        if done.Some? { return done.value; }
        i := i + 1;
      }
      return Res(EMPTY_ANSWER);
    }

    // postCommand: an empty command never leaves the client.
    method PostCommand(net: Network, base: string, body: seq<Byte>) returns (r: JsonResult<Answer>)
      requires net.tape.order.body == body && net.tape.now.p == Params(|body|)
      requires net.tape.now == EnterPost(net.tape.now, base)
      modifies net
      ensures net.tape.order == old(net.tape.order)
      ensures net.tape.now == AfterPost(old(net.tape.now), r)
      ensures r.Res? ==> if trRetries < 0 then r.res == EMPTY_ANSWER else net.Said(r.res)
      ensures r.Err? ==> !r.failure.AppFailure?
    {
      if |body| == 0 { return Err(LocalFailure); }
      var reader := new Reader(body);
      r := DoPost(net, base, reader);
    }

    // One attempt of the establish GET and, if it was lost, the pause after it.
    // An envelope is left for Establish to judge.
    method GetAttempt(net: Network, i: nat) returns (r: Option<JsonResult<Envelope>>)
      requires i <= trRetries && net.tape.now.p.getTries == trRetries && net.tape.now.phase == Getting(i)
      modifies net
      ensures net.tape.order == old(net.tape.order)
      ensures r.None? ==> i < trRetries && net.tape.now == old(net.tape.now).(phase := Getting(i + 1))
      ensures r.Some? && r.value.Err? ==>
                net.tape.now == Fail(old(net.tape.now), r.value.failure) && !r.value.failure.AppFailure?
      ensures r.Some? && r.value.Res? ==>
                net.tape.now == old(net.tape.now) && net.gets(net.clock) == GotEnvelope(r.value.res)
      ensures net.clock >= old(net.clock)
    {
      var wire := net.gets(net.clock);
      match wire {
        case GotEnvelope(env) => return Some(Res(env));
        case GetBroken => net.Happened(Fetched(FetchBroken)); return Some(Err(LocalFailure));
        case GetLost =>
      }
      net.Happened(Fetched(FetchLost));
      assert net.tape.now == OnFetched(old(net.tape.now), i, FetchLost);
      var failed := PauseOrGiveUp(net, i);
      return if failed.Some? then Some(Err(failed.value)) else None;
    }

    // doJSON for the establish GET.
    method DoGet(net: Network) returns (r: JsonResult<Envelope>)
      requires net.tape.now.p.getTries == trRetries && net.tape.now == EnterGet(net.tape.now)
      modifies net
      ensures net.tape.order == old(net.tape.order)
      ensures r.Err? ==> net.tape.now == Fail(old(net.tape.now), r.failure) && !r.failure.AppFailure?
      ensures trRetries < 0 ==>
                net.tape.now == old(net.tape.now) && r == Res(EMPTY_CONFIG) && net.clock == old(net.clock)
      ensures r.Res? && trRetries >= 0 ==>
                && net.gets(net.clock) == GotEnvelope(r.res) && net.clock >= old(net.clock)
                && net.tape.now.phase.Getting? && net.tape.now == old(net.tape.now).(phase := net.tape.now.phase)
    {
      var i := 0;
      while i < trRetries + 1
        invariant 0 <= i && (i < trRetries + 1 || i == 0)
        invariant net.tape.order == old(net.tape.order)
        invariant net.clock >= old(net.clock) && (trRetries < 0 ==> net.clock == old(net.clock))
        invariant net.tape.now == if trRetries < 0 then old(net.tape.now) else old(net.tape.now).(phase := Getting(i))
        decreases trRetries - i
      {
        var done := GetAttempt(net, i);
        if done.Some? { return done.value; }
        i := i + 1;
      }
      return Res(EMPTY_CONFIG);
    }

    // Fetch, parse, check the catalog, store.  `answer` is the envelope the last
    // exchange of this call was answered with, if that is how it went; what it
    // alone would make the call store is stored, or the cache stays.
    method Establish(net: Network, cols: map<string, int>)
      returns (err: Option<Failure>, ghost answer: Option<Envelope>)
      requires Valid() && net.tape.now.p.getTries == trRetries && net.tape.now == EnterGet(net.tape.now)
      modifies net, this
      ensures Valid() && net.tape.order == old(net.tape.order)
      ensures answer.Some? ==> net.clock > old(net.clock) && net.gets(net.clock - 1) == GotEnvelope(answer.value)
      ensures err.None? <==> CacheRuns.Alone(cols, answer).Some?
      ensures cache == if err.None? then CacheRuns.Alone(cols, answer) else old(cache)
      ensures err.None? ==> net.tape.now == old(net.tape.now).(phase := Resolving)
      ensures err.Some? ==> net.tape.now == Fail(old(net.tape.now), err.value)
      ensures trRetries < 0 ==> err == Some(AppFailure(Unknown)) && net.clock == old(net.clock)
      ensures answer.Some? && !answer.value.ok ==> err == Some(AppFailure(answer.value.code))
      ensures answer.Some? && answer.value.ok && err.Some? ==> err == Some(LocalFailure)
      ensures answer.None? && trRetries >= 0 ==> err in {Some(TransportFailure), Some(LocalFailure)}
    {
      answer := None;
      var r := DoGet(net);
      if r.Err? { return Some(r.failure), answer; }
      if trRetries >= 0 { answer := Some(r.res); }
      var parsed := ParseEstablishment(r.res);
      if parsed.Failure? {
        var f := if parsed.error.NotOk? then AppFailure(parsed.error.code) else LocalFailure;
        if trRetries >= 0 {
          net.Happened(Fetched(if parsed.error.NotOk? then RefusedConfig(parsed.error.code) else BadConfig));
        }
        return Some(f), answer;
      }
      if !CatalogOk(parsed.value, cols) {
        net.Happened(Fetched(BadConfig));
        return Some(LocalFailure), answer;
      }
      cache := Some(parsed.value);
      net.Happened(Fetched(GotConfig));
      return None, answer;
    }

    // The resolver closures the commands pass to executeRouted.
    method Resolve(est: Establishment, resolver: Resolver) returns (r: RouteReply)
      ensures Sound(est) ==> r == RouteBy(cfg, est, resolver)
    {
      match resolver {
        case NoResolver => return Nowhere;
        case ByDocument(id, kind) => var route := RouteDocument(cfg, est, id, kind); return AsReply(route);
        case BySlot(slot) => var route := RouteSearch(cfg, est, slot); return AsReply(route);
        case ByDefault => return AsReply(Success(DefaultRoute(cfg, est)));
      }
    }

    // A wrongMachine answer: always refresh, recompute, and ignore what the
    // bounce itself says.  The next base URL, or how the command ends.
    method Rebound(net: Network, resolver: Resolver) returns (r: Result<string, Failure>)
      requires net.tape.order.resolver == resolver
      requires Valid() && net.tape.now.p.getTries == trRetries && net.tape.now.started
      requires net.tape.now == EnterGet(net.tape.now)
      modifies net, this
      ensures Valid() && net.tape.order == old(net.tape.order)
      ensures r.Success? ==> net.tape.now == EnterPost(old(net.tape.now), r.value)
      ensures r.Success? ==> cache.Some? && RouteBy(cfg, cache.value, resolver) == Hop(r.value) && r.value != ""
      ensures r.Failure? ==> net.tape.now == Fail(old(net.tape.now), r.error)
    {
      var err, answer := Establish(net, map[]);
      if err.Some? { return Failure(err.value); }
      var route := Resolve(cache.value, resolver);
      net.Happened(Resolved(route));
      match route {
        case NoRoute => return Failure(LocalFailure);
        case Nowhere => return Failure(AppFailure(WrongMachine));
        case Hop(base) => return Success(base);
      }
    }

    // One POST hop: how the command ends, or that it bounced.  `answer` is what
    // the hop was answered, if it was.
    method OneHop(net: Network, base: string, body: seq<Byte>, attempt: nat)
      returns (o: Option<Outcome>, ghost answer: Option<Answer>)
      requires net.tape.order.body == body && net.tape.now.p == Params(|body|)
      requires net.tape.now == EnterPost(net.tape.now, base)
      requires net.tape.now.bounced == attempt <= wmRetries
      modifies net
      ensures net.tape.order == old(net.tape.order) && net.tape.now.p == Params(|body|)
      ensures net.tape.now.started
      ensures o.Some? ==> net.tape.now.phase == Over(o.value)
      ensures o.None? ==> attempt < wmRetries && net.tape.now == EnterGet(net.tape.now)
                          && net.tape.now.bounced == attempt + 1
      ensures answer.Some? ==> Judges(answer.value, attempt < wmRetries, o)
      ensures answer.Some? ==> if trRetries < 0 then answer.value == EMPTY_ANSWER else net.Said(answer.value)
      ensures answer.None? ==> o in {Some(Failed(TransportFailure)), Some(Failed(LocalFailure))}
    {
      var r := PostCommand(net, base, body);
      answer := if r.Res? then Some(r.res) else None;
      if r.Err? { return Some(Failed(r.failure)), answer; }
      if r.res.ok { return Some(Done(r.res.value)), answer; }
      var code := AppCode(r.res);
      if code != WrongMachine { return Some(Failed(AppFailure(code))), answer; }
      if attempt == wmRetries { return Some(Failed(AppFailure(WrongMachine))), answer; }
      return None, answer;
    }

    // executeRouted.  The loop always returns from inside.
    method ExecuteRouted(net: Network, initial: string, body: seq<Byte>, resolver: Resolver) returns (o: Outcome)
      requires net.tape.order.resolver == resolver
      requires Valid() && net.tape.order.body == body && net.tape.now.p == Params(|body|) && net.tape.now.bounced == 0
      requires net.tape.now == EnterPost(net.tape.now, if initial == "" then cfg.establishmentURL else initial)
      modifies net, this
      ensures Valid() && net.tape.order == old(net.tape.order)
      ensures net.tape.now.phase == Over(o) && net.tape.now.started
    {
      var base := if initial == "" then cfg.establishmentURL else initial;
      o := Failed(AppFailure(Unknown));
      var attempt := 0;
      while attempt <= wmRetries
        invariant Valid() && net.tape.order == old(net.tape.order) && net.tape.now.p == Params(|body|)
        invariant net.tape.now == EnterPost(net.tape.now, base) && net.tape.now.bounced == attempt <= wmRetries
      {
        var over, answer := OneHop(net, base, body, attempt);
        if over.Some? { return over.value; }
        var next := Rebound(net, resolver);
        if next.Failure? { return Failed(next.error); }
        base := next.value;
        attempt := attempt + 1;
      }
      assert false;
    }

    // Only an empty cache is filled, and never without an exchange.
    method EnsureEstablished(net: Network) returns (err: Option<Failure>)
      requires Valid() && net.tape.now.p.getTries == trRetries && net.tape.now.phase.Looking?
      modifies net, this
      ensures Valid() && net.tape.order == old(net.tape.order)
      ensures (old(cache).Some? ==> err.None? && cache == old(cache))
      ensures err.None? ==> cache.Some? && net.tape.now == old(net.tape.now).(phase := Resolving)
      ensures err.Some? ==> cache == None && net.tape.now == Fail(old(net.tape.now), err.value)
      ensures trRetries < 0 ==> err == Some(AppFailure(Unknown))
    {
      var hit := cache.Some?;
      net.Happened(Looked(hit));
      if hit { return None; }
      ghost var answer;
      err, answer := Establish(net, map[]);
    }

    // What precedes executeRouted in every command: ensureEstablished and the
    // first route.  The base URL to start from, or how the command ends.
    method Prepare(net: Network, body: seq<Byte>, resolver: Resolver) returns (r: Result<string, Failure>)
      requires Valid() && !resolver.NoResolver?
      modifies net, this
      ensures Valid() && net.tape.order == Order(Start(Params(|body|)), body, resolver)
      ensures r.Failure? ==> net.tape.now.phase == Over(Failed(r.error)) && !net.tape.now.started
      ensures trRetries < 0 ==> r == Failure(AppFailure(Unknown))
      ensures r.Success? ==>
                && net.tape.now == EnterPost(net.tape.now, if r.value == "" then cfg.establishmentURL else r.value)
                && net.tape.now.p == Params(|body|) && net.tape.now.bounced == 0
      ensures r.Success? ==>
                cache.Some? && RouteBy(cfg, cache.value, resolver) == if r.value == "" then Nowhere else Hop(r.value)
    {
      net.Begin(Order(Start(Params(|body|)), body, resolver));
      var err := EnsureEstablished(net);
      if err.Some? { return Failure(err.value); }
      var route := Resolve(cache.value, resolver);
      if route.NoRoute? {
        net.Happened(Resolved(NoRoute));
        return Failure(LocalFailure);
      }
      var initial := if route.Hop? then route.base else "";
      net.Happened(Resolved(Hop(if initial == "" then cfg.establishmentURL else initial)));
      return Success(initial);
    }

    // Read, Patch, Delete and the like.
    method Command(net: Network, body: seq<Byte>, resolver: Resolver) returns (o: Outcome)
      requires Valid() && !resolver.NoResolver?
      modifies net, this
      ensures Valid() && net.tape.order == Order(Start(Params(|body|)), body, resolver)
      ensures net.tape.now.phase == Over(o)
      ensures trRetries < 0 ==> o == Failed(AppFailure(Unknown))
    {
      var initial := Prepare(net, body, resolver);
      if initial.Failure? { return Failed(initial.error); }
      o := ExecuteRouted(net, initial.value, body, resolver);
    }
  }

  // Where a finished transport loop leaves the machine, whichever attempt it was.
  function AfterPost(m: Machine, r: JsonResult<Answer>): Machine {
    match r
    case Res(res) => OnPosted(m, "", 0, 0, Answered(VerdictOf(res), res.value))
    case Err(f) => Fail(m, f)
  }
}
