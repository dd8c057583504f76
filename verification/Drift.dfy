/**
  Bounces against configuration drift: one routed command while the cluster
  configuration moves on.  Servers refuse with wrongMachine only when the route
  was computed from an outdated configuration; no exchange is lost; the client
  has one Establish in flight.
 */
module Drift {
  import opened Wrappers
  import opened Json
  import opened Bounce
  import opened Traces

  // config: the version the servers hold.  cached: the client's copy.
  // route: the version the current route was computed from.
  // reply: the version inside an establish answer on its way back.
  datatype State = State(config: nat, cached: nat, route: nat, reply: Option<nat>, m: Machine)

  datatype Action =
    | Reconfigure(to: nat)
    | ServeFetch            // an establish request is answered with the current version
    | Client(e: Event)

  // Nothing is lost, refreshes deliver a usable document, routes have a base URL.
  predicate Faultless(e: Event) {
    match e
    case Looked(_) => true
    case Fetched(c) => c.GotConfig?
    case Resolved(r) => r.Hop?
    case Posted(_, r) => r.Answered?
    case Aborted => false
    case Slept(_) => true
  }

  predicate Enabled(s: State, a: Action) {
    match a
    case Reconfigure(to) => s.config <= to
    case ServeFetch => s.m.phase.Getting? && s.reply.None?
    case Client(e) =>
      && Fits(s.m, e) && Faultless(e)
      && (IsBounce(e) ==> s.route < s.config)
      && (e.Fetched? ==> s.reply.Some?)
  }

  function Do(s: State, a: Action): State
    requires Enabled(s, a)
  {
    match a
    case Reconfigure(to) => s.(config := to)
    case ServeFetch => s.(reply := Some(s.config))
    case Client(e) =>
      var m := Step(s.m, e);
      if e.Fetched? then s.(m := m, cached := s.reply.value, reply := None)
      else if e.Resolved? then s.(m := m, route := s.cached)
      else s.(m := m)
  }

  ghost function Exec(s: State, actions: seq<Action>): Option<State> {
    if actions == [] then Some(s)
    else
      match Exec(s, actions[..|actions| - 1])
      case None => None
      case Some(k) =>
        var a := actions[|actions| - 1];
        if Enabled(k, a) then Some(Do(k, a)) else None
  }

  // executeRouted begins with a route computed from the cached configuration.
  ghost predicate Initial(s: State) {
    && s.cached == s.route <= s.config && s.reply.None?
    && exists base :: s.m == StartRouted(s.m.p, base)
  }

  // Every bounce so far was paid for by a newer configuration.
  ghost predicate Paid(s: State, from: nat) {
    && WellFormed(s.m) && s.m.started
    && s.route <= s.config && s.cached <= s.config
    && from + s.m.bounced <= s.config
    && (s.m.phase.Posting? || s.m.phase.PostPause? ==> from + s.m.bounced <= s.route)
    && (s.m.phase.Resolving? ==> from + s.m.bounced <= s.cached)
    && (s.reply.Some? ==> s.m.phase.Getting? && from + s.m.bounced <= s.reply.value <= s.config)
    && (s.m.phase.Over? && s.m.phase.outcome == Failed(AppFailure(WrongMachine)) ==> s.m.bounced == s.m.p.hops + 1)
  }

  lemma DoKeepsPaid(s: State, a: Action, from: nat)
    requires Paid(s, from) && Enabled(s, a)
    ensures Paid(Do(s, a), from) && Do(s, a).m.p == s.m.p
  {
    if a.Client? { StepWellFormed(s.m, a.e); }
  }

  lemma {:induction false} ExecKeepsPaid(s: State, actions: seq<Action>, k: State)
    requires Initial(s) && Exec(s, actions) == Some(k)
    ensures Paid(k, s.cached) && k.m.p == s.m.p
  {
    if actions != [] {
      var n := |actions| - 1;
      var before := Exec(s, actions[..n]).value;
      ExecKeepsPaid(s, actions[..n], before);
      DoKeepsPaid(before, actions[n], s.cached);
    }
  }

  // No more bounces than configuration changes since the cached version, and
  // giving up takes more changes than there are retries.
  lemma {:induction false} BouncesBoundedByDrift(s: State, actions: seq<Action>, k: State)
    requires Initial(s) && Exec(s, actions) == Some(k)
    ensures k.m.bounced <= k.config - s.cached
    ensures k.m.phase == Over(Failed(AppFailure(WrongMachine))) ==> k.config - s.cached > k.m.p.hops
  {
    ExecKeepsPaid(s, actions, k);
  }

  // So a client from New survives as many changes as it was told to, and three
  // if it was told none or less.
  lemma {:induction false} ConfiguredRetriesSurvive(configured: int, s: State, actions: seq<Action>, k: State)
    requires Initial(s) && Exec(s, actions) == Some(k) && s.m.p.hops == Hops(configured)
    requires k.config - s.cached <= (if configured >= 1 then configured else 3)
    ensures k.m.phase != Over(Failed(AppFailure(WrongMachine)))
  {
    BouncesBoundedByDrift(s, actions, k);
    ExecKeepsPaid(s, actions, k);
  }

  /* ---- the bound is tight ---- */

  function Refusal(): Action { Client(Posted(0, Answered(Refused(WrongMachine), Null))) }

  function OneRound(b: nat): seq<Action> {
    [Reconfigure(b), Refusal(), ServeFetch, Client(Fetched(GotConfig)), Client(Resolved(Hop("")))]
  }

  // b bounces, each answered by a configuration change just before it.
  function Chase(b: nat): seq<Action> {
    if b == 0 then []
    else Chase(b - 1) + OneRound(b)
  }

  function Posted0(p: Params, b: nat): State {
    State(b, b, b, None, Machine(p, true, b, Posting("", 0, 0)))
  }

  lemma ExecOne(s: State, actions: seq<Action>, k: State, a: Action)
    requires Exec(s, actions) == Some(k) && Enabled(k, a)
    ensures Exec(s, actions + [a]) == Some(Do(k, a))
  {
    assert (actions + [a])[..|actions|] == actions;
  }

  // One round of the chase, from the b-th to the next posting.
  lemma Round(s: State, actions: seq<Action>, p: Params, b: nat)
    requires p.size > 0 && p.postTries >= 0 && p.getTries >= 0 && b < p.hops
    requires Exec(s, actions) == Some(Posted0(p, b))
    ensures Exec(s, actions + OneRound(b + 1))
            == Some(Posted0(p, b + 1))
  {
    var k0 := Posted0(p, b);
    var k1 := k0.(config := b + 1);
    ExecOne(s, actions, k0, Reconfigure(b + 1));
    var a1 := actions + [Reconfigure(b + 1)];
    var k2 := k1.(m := Machine(p, true, b + 1, Getting(0)));
    ExecOne(s, a1, k1, Refusal());
    var a2 := a1 + [Refusal()];
    var k3 := k2.(reply := Some(b + 1));
    ExecOne(s, a2, k2, ServeFetch);
    var a3 := a2 + [ServeFetch];
    var k4 := k3.(cached := b + 1, reply := None, m := Machine(p, true, b + 1, Resolving));
    ExecOne(s, a3, k3, Client(Fetched(GotConfig)));
    var a4 := a3 + [Client(Fetched(GotConfig))];
    ExecOne(s, a4, k4, Client(Resolved(Hop(""))));
    assert actions + OneRound(b + 1)
           == a4 + [Client(Resolved(Hop("")))];
  }

  lemma {:induction false} ChaseRuns(p: Params, b: nat)
    requires p.size > 0 && p.postTries >= 0 && p.getTries >= 0 && b <= p.hops
    ensures Exec(Posted0(p, 0), Chase(b)) == Some(Posted0(p, b))
  {
    if b > 0 {
      ChaseRuns(p, b - 1);
      Round(Posted0(p, 0), Chase(b - 1), p, b - 1);
    }
  }

  // With one change more than there are retries, wrongMachine can be returned.
  lemma DriftBeyondRetriesCanFail(p: Params) returns (actions: seq<Action>, k: State)
    requires p.size > 0 && p.postTries >= 0 && p.getTries >= 0
    ensures Initial(Posted0(p, 0)) && Exec(Posted0(p, 0), actions) == Some(k)
    ensures k.m.phase == Over(Failed(AppFailure(WrongMachine)))
    ensures k.config - Posted0(p, 0).cached == p.hops + 1
  {
    var s := Posted0(p, 0);
    assert s.m == StartRouted(p, "");
    ChaseRuns(p, p.hops);
    actions, k := Chase(p.hops), Posted0(p, p.hops);
    ExecOne(s, actions, k, Reconfigure(p.hops + 1));
    actions, k := actions + [Reconfigure(p.hops + 1)], k.(config := p.hops + 1);
    ExecOne(s, actions, k, Refusal());
    actions, k := actions + [Refusal()], Do(k, Refusal());
  }

  // With one change more than it is configured for, or four if that is below
  // one, a client from New can return it.
  lemma {:induction false} ConfiguredRetriesRunOut(configured: int, p: Params)
    returns (s: State, actions: seq<Action>, k: State)
    requires p.hops == Hops(configured) && p.size > 0 && p.postTries >= 0 && p.getTries >= 0
    ensures Initial(s) && s.m.p == p && Exec(s, actions) == Some(k)
    ensures k.config - s.cached == if configured >= 1 then configured + 1 else 4
    ensures k.m.phase == Over(Failed(AppFailure(WrongMachine)))
  {
    s := Posted0(p, 0);
    actions, k := DriftBeyondRetriesCanFail(p);
  }
}
