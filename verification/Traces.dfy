/**
  The runs of a command as sequences of events, without the machine: what comes
  after what, which server is asked, and what every outcome is due to.
 */
module Traces {
  import opened Wrappers
  import opened Bounce

  predicate IsBounce(e: Event) {
    e.Posted? && e.reply.Answered? && e.reply.verdict == Refused(WrongMachine)
  }

  predicate IsLost(e: Event) {
    e.Aborted? || (e.Posted? && e.reply.Lost?) || e == Fetched(FetchLost)
  }

  // Which event can come after which: a refresh after a bounce, a pause after a
  // loss, nothing after a verdict, a fault or a canceled pause.
  predicate Follows(e1: Event, e2: Event) {
    match e1
    case Looked(hit) => if hit then e2.Resolved? else e2.Fetched?
    case Fetched(config) => if config.GotConfig? then e2.Resolved? else config.FetchLost? && e2.Slept?
    case Resolved(route) => route.Hop? && Sends(e2)
    case Posted(_, reply) => if IsBounce(e1) then e2.Fetched? else reply.Lost? && e2.Slept?
    case Aborted => e2.Slept?
    case Slept(canceled) => !canceled && (Sends(e2) || e2.Fetched?)
  }

  lemma StepFollows(m: Machine, e1: Event, e2: Event)
    requires Fits(m, e1) && Fits(Step(m, e1), e2)
    ensures Follows(e1, e2)
  {
  }

  // After a pause the exchange that was lost is tried again.
  lemma StepRetries(m: Machine, e1: Event, e2: Event, e3: Event)
    requires Fits(m, e1) && Fits(Step(m, e1), e2) && Fits(Step(Step(m, e1), e2), e3) && e2.Slept?
    ensures IsLost(e1) && (Sends(e1) <==> Sends(e3))
  {
  }

  // Every event of a run fits where the events before it have led.
  lemma {:induction false} EachFits(m: Machine, events: seq<Event>, i: nat)
    requires Run(m, events).Some? && i < |events|
    ensures var at := Run(m, events[..i]);
            at.Some? && Fits(at.value, events[i]) && Run(m, events[..i + 1]) == Some(Step(at.value, events[i]))
  {
    var n := |events| - 1;
    if i < n {
      EachFits(m, events[..n], i);
      assert events[..n][..i] == events[..i] && events[..n][..i + 1] == events[..i + 1];
    } else {
      assert events[..i + 1] == events;
    }
  }

  // The events of every run come in that order.
  lemma {:induction false} EventGrammar(m: Machine, events: seq<Event>, i: nat)
    requires Run(m, events).Some? && 0 < i < |events|
    ensures Follows(events[i - 1], events[i])
    ensures i > 1 && events[i - 1].Slept? ==> IsLost(events[i - 2]) && (Sends(events[i - 2]) <==> Sends(events[i]))
  {
    EachFits(m, events, i - 1);
    EachFits(m, events, i);
    StepFollows(Run(m, events[..i - 1]).value, events[i - 1], events[i]);
    if i > 1 && events[i - 1].Slept? {
      EachFits(m, events, i - 2);
      StepRetries(Run(m, events[..i - 2]).value, events[i - 2], events[i - 1], events[i]);
    }
  }

  ghost function Refusals(events: seq<Event>): nat {
    if events == [] then 0
    else Refusals(events[..|events| - 1]) + (if IsBounce(events[|events| - 1]) then 1 else 0)
  }

  // The base URL resolved last.
  ghost function LatestBase(events: seq<Event>, initial: string): string {
    if events == [] then initial
    else
      var last := events[|events| - 1];
      if last.Resolved? && last.route.Hop? then last.route.base else LatestBase(events[..|events| - 1], initial)
  }

  // Bounces are counted, and a POST goes to the base URL resolved last.
  lemma {:induction false} RunCounts(m: Machine, events: seq<Event>, k: Machine, initial: string)
    requires Run(m, events) == Some(k)
    requires (m.phase.Posting? || m.phase.PostPause?) ==> m.phase.base == initial
    ensures k.bounced == m.bounced + Refusals(events)
    ensures k.phase.Posting? || k.phase.PostPause? ==> k.phase.base == LatestBase(events, initial)
  {
    if events != [] {
      var n := |events| - 1;
      RunCounts(m, events[..n], Run(m, events[..n]).value, initial);
    }
  }

  // How a command can end with a given event, after so many bounces before it.
  // `sent`: a hop had begun.
  predicate EndsWith(p: Params, sent: bool, bounces: nat, e: Event, o: Outcome) {
    match o
    case Done(v) => e.Posted? && e.reply == Answered(Accepted, v)
    case Failed(TransportFailure) => IsLost(e)
    case Failed(LocalFailure) =>
      || e == Slept(true) || e == Fetched(BadConfig) || e == Fetched(FetchBroken)
      || (e.Posted? && e.reply.Broken?)
      || e == Resolved(NoRoute) || (e == Resolved(Nowhere) && !sent)
      || (e.Resolved? && e.route.Hop? && p.size == 0)
    case Failed(AppFailure(c)) =>
      || (e.Posted? && e.reply.Answered? && e.reply.verdict == Refused(c) && (c == WrongMachine ==> bounces >= p.hops))
      || e == Fetched(RefusedConfig(c))
      || (c == WrongMachine && e == Resolved(Nowhere) && sent)
      || (c == Unknown && (e == Looked(false) || IsBounce(e)) && p.getTries < 0)
      || (c == Unknown && e.Resolved? && e.route.Hop? && p.postTries < 0)
  }

  lemma StepEnds(m: Machine, e: Event)
    requires Fits(m, e) && Step(m, e).phase.Over?
    ensures EndsWith(m.p, m.started, m.bounced, e, Step(m, e).phase.outcome)
  {
  }

  predicate IsHop(e: Event) {
    e.Resolved? && e.route.Hop?
  }

  ghost predicate HopBegan(events: seq<Event>) {
    events != [] && (IsHop(events[|events| - 1]) || HopBegan(events[..|events| - 1]))
  }

  // An event after which there is nothing to do; `bounces` counts it.
  predicate IsFinal(p: Params, bounces: nat, e: Event) {
    match e
    case Looked(_) => false
    case Fetched(config) => !config.GotConfig? && !config.FetchLost?
    case Resolved(route) => !route.Hop?
    case Posted(_, reply) => if IsBounce(e) then bounces > p.hops else !reply.Lost?
    case Aborted => false
    case Slept(canceled) => canceled
  }

  lemma {:induction false} RunStands(p: Params, events: seq<Event>, k: Machine)
    requires Run(Start(p), events) == Some(k)
    ensures k.p == p && (k.started <==> HopBegan(events))
  {
    if events != [] {
      RunStands(p, events[..|events| - 1], Run(Start(p), events[..|events| - 1]).value);
    }
  }

  // Whatever a whole command returns is explained by its last event, and an
  // event that leaves nothing to do is the last.
  lemma {:induction false} OutcomeExplained(p: Params, events: seq<Event>, k: Machine)
    requires Run(Start(p), events) == Some(k) && events != []
    ensures var init, e := events[..|events| - 1], events[|events| - 1];
            && (k.phase.Over? ==> EndsWith(p, HopBegan(init), Refusals(init), e, k.phase.outcome))
            && (IsFinal(p, Refusals(events), e) ==> k.phase.Over?)
  {
    var init := events[..|events| - 1];
    var before := Run(Start(p), init).value;
    RunCounts(Start(p), init, before, "");
    RunStands(p, init, before);
    if k.phase.Over? { StepEnds(before, events[|events| - 1]); }
  }

  // A transport error is returned only after every retry: the attempt that was
  // lost last is the number t of its loop.
  lemma {:induction false} TransportErrorsAreRetried(p: Params, events: seq<Event>, k: Machine)
    requires Run(Start(p), events) == Some(k) && k.phase == Over(Failed(TransportFailure))
    ensures events != [] && IsLost(events[|events| - 1])
    ensures LossesAtEnd(events) == 1 + if Sends(events[|events| - 1]) then p.postTries else p.getTries
  {
    var n := |events| - 1;
    var before := Run(Start(p), events[..n]).value;
    RunStands(p, events[..n], before);
    StepEnds(before, events[n]);
    LossesCounted(p, events[..n], before);
  }

  // How many exchanges at the end were lost, with the pauses between them.
  ghost function LossesAtEnd(events: seq<Event>): nat {
    if events == [] then 0
    else
      var init, e := events[..|events| - 1], events[|events| - 1];
      if e.Slept? then LossesAtEnd(init) else if IsLost(e) then LossesAtEnd(init) + 1 else 0
  }

  lemma {:induction false} LossesCounted(p: Params, events: seq<Event>, k: Machine)
    requires Run(Start(p), events) == Some(k)
    ensures k.phase.Posting? || k.phase.Getting? ==> LossesAtEnd(events) == k.phase.try
    ensures k.phase.PostPause? || k.phase.GetPause? ==> LossesAtEnd(events) == k.phase.try + 1
    ensures k.phase.Looking? || k.phase.Resolving? ==> LossesAtEnd(events) == 0
    ensures WellFormed(k)
  {
    if events != [] {
      var before := Run(Start(p), events[..|events| - 1]).value;
      LossesCounted(p, events[..|events| - 1], before);
      StepWellFormed(before, events[|events| - 1]);
    }
  }
}
