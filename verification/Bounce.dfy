/**
  The client side of one routed command, as a deterministic machine over the
  things that can happen to it.  `Step` is the single place where the bounce
  rule lives: the code-shaped methods in Client.dfy and Files.dfy are proved to
  follow it, and the cluster models in VersionRetry.dfy, CreateVerify.dfy and
  Drift.dfy interleave it with servers and other clients.
 */
module Bounce {
  import opened Wrappers
  import opened Json

  // Application error codes the client treats specially.  `Malformed` is the
  // server's answer to a command it could not parse (invalidRequest), `Unknown`
  // the client's own name for ok:false without a code.
  datatype Code =
    | WrongMachine
    | VersionMismatch
    | DocumentExists
    | Malformed
    | Unknown
    | Other(name: string)

  datatype Verdict = Accepted | Refused(code: Code)

  // Lost: a transport error.  Broken: a token or context error.
  datatype Reply = Answered(verdict: Verdict, value: Json) | Lost | Broken

  datatype FetchReply = GotConfig | RefusedConfig(code: Code) | BadConfig | FetchLost | FetchBroken

  // NoRoute: the resolver failed.  Nowhere: no cached document, no resolver or
  // an empty base URL.
  datatype RouteReply = NoRoute | Nowhere | Hop(base: string)

  datatype Event =
    | Looked(hit: bool)                    // ensureEstablished looks into the cache
    | Fetched(config: FetchReply)          // one GET /establish exchange
    | Resolved(route: RouteReply)          // the route is computed from the cache
    | Posted(taken: nat, reply: Reply)     // one POST; `taken` body bytes were read
    | Aborted                              // one POST cut short: its body could not be opened
    | Slept(canceled: bool)                // a back-off pause ended

  predicate Sends(e: Event) {
    e.Posted? || e.Aborted?
  }

  datatype Failure = TransportFailure | LocalFailure | AppFailure(code: Code)

  datatype Outcome = Done(value: Json) | Failed(failure: Failure)

  datatype Phase =
    | Looking
    | Getting(try: nat)
    | GetPause(try: nat)
    | Resolving
    | Posting(base: string, try: nat, pos: nat)
    | PostPause(base: string, try: nat, pos: nat)
    | Over(outcome: Outcome)

  // New replaces a bounce limit below one by the default.
  function Hops(configured: int): nat {
    if configured <= 0 then 3 else configured
  }

  // hops: wmRetries.  postTries / getTries: transport retries, which New does
  // not clamp.  size: length of the command body.
  datatype Params = Params(hops: nat, postTries: int, getTries: int, size: nat)

  // started: the first POST hop has begun.  bounced: wrongMachine answers so far.
  datatype Machine = Machine(p: Params, started: bool, bounced: nat, phase: Phase)

  function Fail(m: Machine, f: Failure): Machine {
    m.(phase := Over(Failed(f)))
  }

  // A hop begins: an empty command is refused locally, and with a negative
  // retry count the transport loop never runs and yields an empty result.
  function EnterPost(m: Machine, base: string): Machine {
    var m := m.(started := true);
    if m.p.size == 0 then Fail(m, LocalFailure)
    else if m.p.postTries < 0 then Fail(m, AppFailure(Unknown))
    else m.(phase := Posting(base, 0, 0))
  }

  function EnterGet(m: Machine): Machine {
    if m.p.getTries < 0 then Fail(m, AppFailure(Unknown)) else m.(phase := Getting(0))
  }

  // A whole command, beginning with ensureEstablished.
  function Start(p: Params): Machine {
    Machine(p, false, 0, Looking)
  }

  // executeRouted alone, with the initial route already known.
  function StartRouted(p: Params, base: string): Machine {
    EnterPost(Machine(p, false, 0, Looking), base)
  }

  predicate Fits(m: Machine, e: Event) {
    match m.phase
    case Looking => e.Looked?
    case Getting(_) => e.Fetched?
    case GetPause(_) => e.Slept?
    case Resolving => e.Resolved?
    case Posting(_, _, pos) => e.Aborted? || (e.Posted? && pos + e.taken <= m.p.size)
    case PostPause(_, _, _) => e.Slept?
    case Over(_) => false
  }

  function Step(m: Machine, e: Event): Machine
    requires Fits(m, e)
  {
    match m.phase
    case Looking => if e.hit then m.(phase := Resolving) else EnterGet(m)
    case Getting(try) => OnFetched(m, try, e.config)
    case GetPause(try) =>
      if e.canceled then Fail(m, LocalFailure) else m.(phase := Getting(try + 1))
    case Resolving =>
      (match e.route
       case Hop(base) => EnterPost(m, base)
       case NoRoute => Fail(m, LocalFailure)
       case Nowhere => Fail(m, if m.started then AppFailure(WrongMachine) else LocalFailure))
    case Posting(base, try, pos) =>
      if e.Aborted? then OnPosted(m, base, try, pos, Lost) else OnPosted(m, base, try, pos + e.taken, e.reply)
    case PostPause(base, try, pos) =>
      if e.canceled then Fail(m, LocalFailure) else m.(phase := Posting(base, try + 1, pos))
    case Over(_) => m
  }

  function OnFetched(m: Machine, try: nat, config: FetchReply): Machine {
    match config
    case GotConfig => m.(phase := Resolving)
    case RefusedConfig(code) => Fail(m, AppFailure(code))
    case BadConfig => Fail(m, LocalFailure)
    case FetchBroken => Fail(m, LocalFailure)
    case FetchLost => if try < m.p.getTries then m.(phase := GetPause(try)) else Fail(m, TransportFailure)
  }

  function OnPosted(m: Machine, base: string, try: nat, pos: nat, reply: Reply): Machine {
    match reply
    case Answered(Accepted, value) => m.(phase := Over(Done(value)))
    case Answered(Refused(WrongMachine), _) =>
      var m' := m.(bounced := m.bounced + 1);
      if m.bounced >= m.p.hops then Fail(m', AppFailure(WrongMachine)) else EnterGet(m')
    case Answered(Refused(code), _) => Fail(m, AppFailure(code))
    case Broken => Fail(m, LocalFailure)
    case Lost => if try < m.p.postTries then m.(phase := PostPause(base, try, pos)) else Fail(m, TransportFailure)
  }

  // The machine reached from m by a list of events, if each of them fits.
  ghost function Run(m: Machine, events: seq<Event>): Option<Machine> {
    if events == [] then Some(m)
    else
      var last := events[|events| - 1];
      match Run(m, events[..|events| - 1])
      case None => None
      case Some(k) => if Fits(k, last) then Some(Step(k, last)) else None
  }

  lemma RunOne(m: Machine, events: seq<Event>, k: Machine, e: Event)
    requires Run(m, events) == Some(k) && Fits(k, e)
    ensures Run(m, events + [e]) == Some(Step(k, e))
  {
    assert (events + [e])[..|events|] == events;
  }

  /* ---- what every run keeps ---- */

  // Only a hop's first attempt is sure to start at the beginning of the body.
  ghost predicate WellFormed(m: Machine) {
    && (m.phase.Posting? ==>
          && m.started && m.p.size > 0 && m.phase.try <= m.p.postTries
          && m.phase.pos <= m.p.size && (m.phase.try == 0 ==> m.phase.pos == 0))
    && (m.phase.PostPause? ==>
          m.started && m.p.size > 0 && m.phase.try < m.p.postTries && m.phase.pos <= m.p.size)
    && (m.phase.Getting? ==> m.phase.try <= m.p.getTries)
    && (m.phase.GetPause? ==> m.phase.try < m.p.getTries)
    && (m.started || m.bounced == 0)
    && (if m.phase.Over? then m.bounced <= m.p.hops + 1 else m.bounced <= m.p.hops)
    && (m.started && (m.phase.Getting? || m.phase.GetPause? || m.phase.Resolving?) ==> m.bounced > 0)
    && (m.phase.Looking? ==> !m.started)
    && (m.started && !GaveUpUnsent(m) ==> m.p.size > 0 && m.p.postTries >= 0)
    && (m.phase.Over? && m.phase.outcome.Done? ==> m.started)
  }

  // The two ways in which a hop ends without a request.
  predicate GaveUpUnsent(m: Machine) {
    m.phase == Over(Failed(LocalFailure)) || m.phase == Over(Failed(AppFailure(Unknown)))
  }

  lemma StepWellFormed(m: Machine, e: Event)
    requires WellFormed(m) && Fits(m, e)
    ensures WellFormed(Step(m, e)) && Step(m, e).p == m.p
  {
  }

  lemma {:induction false} RunWellFormed(m: Machine, events: seq<Event>, k: Machine)
    requires WellFormed(m) && Run(m, events) == Some(k)
    ensures WellFormed(k) && k.p == m.p
  {
    if events != [] {
      var n := |events| - 1;
      var before := Run(m, events[..n]).value;
      RunWellFormed(m, events[..n], before);
      StepWellFormed(before, events[n]);
    }
  }
}
