/** What a routed command can cost, over every sequence of answers. */
module Costs {
  import opened Wrappers
  import opened Json
  import opened Bounce

  ghost function Posts(events: seq<Event>): nat {
    if events == [] then 0
    else Posts(events[..|events| - 1]) + (if Sends(events[|events| - 1]) then 1 else 0)
  }

  ghost function Fetches(events: seq<Event>): nat {
    if events == [] then 0
    else Fetches(events[..|events| - 1]) + (if events[|events| - 1].Fetched? then 1 else 0)
  }

  // The pause before retry number try+1 lasts 100 * (try + 1) milliseconds.
  function PauseMs(m: Machine, posting: bool): nat {
    match m.phase
    case PostPause(_, try, _) => if posting then 100 * (try + 1) else 0
    case GetPause(try) => if posting then 0 else 100 * (try + 1)
    case _ => 0
  }

  // Time slept in the back-off pauses between POSTs (posting) or between
  // establish GETs; a canceled pause may have been shorter.
  ghost function SleptMs(m: Machine, events: seq<Event>, posting: bool): nat {
    if events == [] then 0
    else
      var before := events[..|events| - 1];
      SleptMs(m, before, posting) + (match Run(m, before) case Some(k) => PauseMs(k, posting) case None => 0)
  }

  // Sleep of one transport loop with t retries, all of them used.
  function LoopMs(t: int): nat
    decreases if t < 0 then 0 else t
  {
    if t <= 0 then 0 else LoopMs(t - 1) + 100 * t
  }

  function Attempts(t: int): nat {
    if t < 0 then 0 else t + 1
  }

  // b shares, as a sum; multiplication is kept out of the step proofs.
  function Times(b: nat, share: nat): nat {
    if b == 0 then 0 else Times(b - 1, share) + share
  }

  lemma {:induction false} TimesMul(b: nat, share: nat)
    ensures Times(b, share) == b * share
  {
    if b > 0 {
      TimesMul(b - 1, share);
      assert b * share == (b - 1) * share + share;
    }
  }

  // The same without recursion.
  function Backoffs(t: int): nat {
    if t < 0 then 0 else 50 * (t * (t + 1))
  }

  lemma {:induction false} LoopMsClosed(t: int)
    ensures LoopMs(t) == Backoffs(t)
    decreases if t < 0 then 0 else t
  {
    if t > 0 {
      LoopMsClosed(t - 1);
      assert t * (t + 1) == (t - 1) * t + 2 * t;
    }
  }

  lemma {:induction false} TimesGrows(b: nat, h: nat, share: nat)
    requires b <= h
    ensures Times(b, share) <= Times(h, share)
  {
    if b < h { TimesGrows(b, h - 1, share); }
  }

  lemma {:induction false} LoopGrows(a: int, b: int)
    requires a <= b
    ensures LoopMs(a) <= LoopMs(b)
    decreases b - a
  {
    if a < b { LoopGrows(a, b - 1); }
  }

  // A count: at most one share per finished hop, plus `now` for the current one.
  ghost predicate Below(n: nat, hops: nat, share: nat, now: nat) {
    n <= Times(hops, share) + now
  }

  ghost predicate PostsWithin(m: Machine, posts: nat) {
    var b, P := m.bounced, Attempts(m.p.postTries);
    match m.phase
    case Posting(_, try, _) => Below(posts, b, P, try)
    case PostPause(_, try, _) => Below(posts, b, P, try + 1)
    case Over(_) => Below(posts, m.p.hops + 1, P, 0)
    case _ => Below(posts, b, P, 0)
  }

  ghost predicate FetchesWithin(m: Machine, fetches: nat) {
    var b, G := m.bounced, Attempts(m.p.getTries);
    match m.phase
    case Getting(try) => b > 0 && Below(fetches, b - 1, G, try)
    case GetPause(try) => b > 0 && Below(fetches, b - 1, G, try + 1)
    case Over(_) => Below(fetches, m.p.hops, G, 0)
    case _ => Below(fetches, b, G, 0)
  }

  ghost predicate PostSleepWithin(m: Machine, slept: nat, S: nat) {
    match m.phase
    case Posting(_, try, _) => Below(slept, m.bounced, S, LoopMs(try))
    case PostPause(_, try, _) => Below(slept, m.bounced, S, LoopMs(try))
    case Over(_) => Below(slept, m.p.hops + 1, S, 0)
    case _ => Below(slept, m.bounced, S, 0)
  }

  ghost predicate GetSleepWithin(m: Machine, slept: nat, R: nat) {
    match m.phase
    case Getting(try) => m.bounced > 0 && Below(slept, m.bounced - 1, R, LoopMs(try))
    case GetPause(try) => m.bounced > 0 && Below(slept, m.bounced - 1, R, LoopMs(try))
    case Over(_) => Below(slept, m.p.hops, R, 0)
    case _ => Below(slept, m.bounced, R, 0)
  }

  lemma StepPosts(m: Machine, e: Event, posts: nat)
    requires WellFormed(m) && m.started && Fits(m, e) && PostsWithin(m, posts)
    ensures PostsWithin(Step(m, e), posts + if Sends(e) then 1 else 0)
  {
    TimesGrows(m.bounced, m.p.hops, Attempts(m.p.postTries));
    assert Times(m.p.hops + 1, Attempts(m.p.postTries))
           == Times(m.p.hops, Attempts(m.p.postTries)) + Attempts(m.p.postTries);
  }

  lemma StepFetches(m: Machine, e: Event, fetches: nat)
    requires WellFormed(m) && m.started && Fits(m, e) && FetchesWithin(m, fetches)
    ensures FetchesWithin(Step(m, e), fetches + if e.Fetched? then 1 else 0)
  {
    if m.phase.Getting? || m.phase.GetPause? {
      StepInFetches(m, e, fetches);
    } else {
      TimesGrows(m.bounced, m.p.hops, Attempts(m.p.getTries));
    }
  }

  lemma StepInFetches(m: Machine, e: Event, fetches: nat)
    requires WellFormed(m) && m.started && Fits(m, e) && FetchesWithin(m, fetches)
    requires m.phase.Getting? || m.phase.GetPause?
    ensures FetchesWithin(Step(m, e), fetches + if e.Fetched? then 1 else 0)
  {
    assert Times(m.bounced, Attempts(m.p.getTries))
           == Times(m.bounced - 1, Attempts(m.p.getTries)) + Attempts(m.p.getTries);
    TimesGrows(m.bounced, m.p.hops, Attempts(m.p.getTries));
  }

  // One back-off: the loop so far, this pause, and what the whole loop may sleep.
  lemma Backoff(try: nat, t: int)
    requires try <= t
    ensures LoopMs(try) <= LoopMs(t)
    ensures try < t ==> LoopMs(try) + 100 * (try + 1) == LoopMs(try + 1) <= LoopMs(t)
  {
    LoopGrows(try, t);
    if try < t { LoopGrows(try + 1, t); }
  }

  // What fits with part of a loop fits with the whole of it, and then with all
  // later hops.
  lemma LoopFits(n: nat, b: nat, h: nat, S: nat, now: nat)
    requires Below(n, b, S, now) && now <= S && b <= h
    ensures Below(n, b + 1, S, 0) && Below(n, h + 1, S, 0)
  {
    TimesGrows(b + 1, h + 1, S);
  }

  // The same after one more pause.
  lemma PauseFits(slept: nat, b: nat, h: nat, S: nat, try: nat, t: int)
    requires Below(slept, b, S, LoopMs(try)) && try < t && S == LoopMs(t) && b <= h
    ensures Below(slept + 100 * (try + 1), b, S, LoopMs(try + 1))
    ensures Below(slept + 100 * (try + 1), h + 1, S, 0)
  {
    Backoff(try, t);
    LoopFits(slept + 100 * (try + 1), b, h, S, LoopMs(try + 1));
  }

  lemma StepPostSleep(m: Machine, e: Event, slept: nat, S: nat)
    requires WellFormed(m) && m.started && Fits(m, e) && PostSleepWithin(m, slept, S)
    requires S == LoopMs(m.p.postTries)
    ensures PostSleepWithin(Step(m, e), slept + PauseMs(m, true), S)
  {
    if m.phase.PostPause? {
      PauseFits(slept, m.bounced, m.p.hops, S, m.phase.try, m.p.postTries);
    } else if m.phase.Posting? {
      StepInLoop(m, e, slept, S);
    } else {
      TimesGrows(m.bounced, m.p.hops + 1, S);
    }
  }

  lemma StepInLoop(m: Machine, e: Event, slept: nat, S: nat)
    requires WellFormed(m) && Fits(m, e) && m.phase.Posting? && PostSleepWithin(m, slept, S)
    requires S == LoopMs(m.p.postTries)
    ensures PostSleepWithin(Step(m, e), slept, S)
  {
    LoopGrows(m.phase.try, m.p.postTries);
    LoopFits(slept, m.bounced, m.p.hops, S, LoopMs(m.phase.try));
  }

  lemma StepGetSleep(m: Machine, e: Event, slept: nat, R: nat)
    requires WellFormed(m) && m.started && Fits(m, e) && GetSleepWithin(m, slept, R)
    requires R == LoopMs(m.p.getTries)
    ensures GetSleepWithin(Step(m, e), slept + PauseMs(m, false), R)
  {
    if m.phase.GetPause? {
      StepGetPause(m, e, slept, R);
    } else if m.phase.Getting? {
      StepInGets(m, e, slept, R);
    } else {
      StepOutOfGets(m, e, slept, R);
    }
  }

  lemma StepGetPause(m: Machine, e: Event, slept: nat, R: nat)
    requires WellFormed(m) && m.started && Fits(m, e) && m.phase.GetPause? && GetSleepWithin(m, slept, R)
    requires R == LoopMs(m.p.getTries)
    ensures GetSleepWithin(Step(m, e), slept + PauseMs(m, false), R)
  {
    PauseFits(slept, m.bounced - 1, m.p.hops - 1, R, m.phase.try, m.p.getTries);
  }

  lemma StepInGets(m: Machine, e: Event, slept: nat, R: nat)
    requires WellFormed(m) && m.started && Fits(m, e) && m.phase.Getting? && GetSleepWithin(m, slept, R)
    requires R == LoopMs(m.p.getTries)
    ensures GetSleepWithin(Step(m, e), slept, R)
  {
    LoopGrows(m.phase.try, m.p.getTries);
    LoopFits(slept, m.bounced - 1, m.p.hops - 1, R, LoopMs(m.phase.try));
  }

  lemma StepOutOfGets(m: Machine, e: Event, slept: nat, R: nat)
    requires WellFormed(m) && m.started && Fits(m, e) && !m.phase.GetPause? && !m.phase.Getting?
    requires GetSleepWithin(m, slept, R)
    ensures GetSleepWithin(Step(m, e), slept, R)
  {
    TimesGrows(m.bounced, m.p.hops, R);
  }

  // Everything that holds of the machine itself on the way.
  lemma {:induction false} RunStarted(p: Params, base: string, events: seq<Event>, k: Machine)
    requires Run(StartRouted(p, base), events) == Some(k)
    ensures WellFormed(k) && k.started && k.p == p
  {
    if events != [] {
      var before := Run(StartRouted(p, base), events[..|events| - 1]).value;
      RunStarted(p, base, events[..|events| - 1], before);
      StepWellFormed(before, events[|events| - 1]);
    }
  }

  lemma {:induction false} RunPosts(p: Params, base: string, events: seq<Event>, k: Machine)
    requires Run(StartRouted(p, base), events) == Some(k)
    ensures PostsWithin(k, Posts(events))
  {
    if events != [] {
      var before := Run(StartRouted(p, base), events[..|events| - 1]).value;
      RunStarted(p, base, events[..|events| - 1], before);
      RunPosts(p, base, events[..|events| - 1], before);
      StepPosts(before, events[|events| - 1], Posts(events[..|events| - 1]));
    }
  }

  lemma {:induction false} RunFetches(p: Params, base: string, events: seq<Event>, k: Machine)
    requires Run(StartRouted(p, base), events) == Some(k)
    ensures FetchesWithin(k, Fetches(events))
  {
    if events != [] {
      var before := Run(StartRouted(p, base), events[..|events| - 1]).value;
      RunStarted(p, base, events[..|events| - 1], before);
      RunFetches(p, base, events[..|events| - 1], before);
      StepFetches(before, events[|events| - 1], Fetches(events[..|events| - 1]));
    }
  }

  lemma {:induction false} RunPostSleep(p: Params, base: string, events: seq<Event>, k: Machine)
    requires Run(StartRouted(p, base), events) == Some(k)
    ensures PostSleepWithin(k, SleptMs(StartRouted(p, base), events, true), LoopMs(p.postTries))
  {
    if events != [] {
      var m0, init := StartRouted(p, base), events[..|events| - 1];
      RunStarted(p, base, init, Run(m0, init).value);
      RunPostSleep(p, base, init, Run(m0, init).value);
      StepPostSleep(Run(m0, init).value, events[|events| - 1], SleptMs(m0, init, true), LoopMs(p.postTries));
    }
  }

  lemma {:induction false} RunGetSleep(p: Params, base: string, events: seq<Event>, k: Machine)
    requires Run(StartRouted(p, base), events) == Some(k)
    ensures GetSleepWithin(k, SleptMs(StartRouted(p, base), events, false), LoopMs(p.getTries))
  {
    if events != [] {
      var m0, init := StartRouted(p, base), events[..|events| - 1];
      RunStarted(p, base, init, Run(m0, init).value);
      RunGetSleep(p, base, init, Run(m0, init).value);
      StepGetSleep(Run(m0, init).value, events[|events| - 1], SleptMs(m0, init, false), LoopMs(p.getTries));
    }
  }

  // The bill of a finished executeRouted with w bounce retries, t transport
  // retries for a POST and u for a refresh; u is t for commands, while uploads
  // and downloads have no t.
  lemma {:induction false} RoutedCost(p: Params, base: string, events: seq<Event>, k: Machine)
    requires Run(StartRouted(p, base), events) == Some(k) && k.phase.Over?
    ensures Posts(events) <= (p.hops + 1) * Attempts(p.postTries)
    ensures Fetches(events) <= p.hops * Attempts(p.getTries)
    ensures SleptMs(StartRouted(p, base), events, true) <= (p.hops + 1) * Backoffs(p.postTries)
    ensures SleptMs(StartRouted(p, base), events, false) <= p.hops * Backoffs(p.getTries)
  {
    BillInTimes(p, base, events, k);
    TimesMul(p.hops + 1, Attempts(p.postTries));
    TimesMul(p.hops, Attempts(p.getTries));
    TimesMul(p.hops + 1, LoopMs(p.postTries));
    TimesMul(p.hops, LoopMs(p.getTries));
    LoopMsClosed(p.postTries);
    LoopMsClosed(p.getTries);
  }

  // The same as sums; no multiplication comes near the machine.
  lemma BillInTimes(p: Params, base: string, events: seq<Event>, k: Machine)
    requires Run(StartRouted(p, base), events) == Some(k) && k.phase.Over?
    ensures Posts(events) <= Times(p.hops + 1, Attempts(p.postTries))
    ensures Fetches(events) <= Times(p.hops, Attempts(p.getTries))
    ensures SleptMs(StartRouted(p, base), events, true) <= Times(p.hops + 1, LoopMs(p.postTries))
    ensures SleptMs(StartRouted(p, base), events, false) <= Times(p.hops, LoopMs(p.getTries))
  {
    RunStarted(p, base, events, k);
    RunPosts(p, base, events, k);
    RunFetches(p, base, events, k);
    RunPostSleep(p, base, events, k);
    RunGetSleep(p, base, events, k);
  }

  lemma {:induction false} TimesUnits(n: nat)
    ensures Times(n, 1) == n && Times(n, 0) == 0
  {
    if n > 0 { TimesUnits(n - 1); }
  }

  // One POST a hop, and no pause between POSTs.
  lemma {:induction false} WithoutPostRetries(p: Params, base: string, events: seq<Event>, k: Machine)
    requires p.postTries == 0 && Run(StartRouted(p, base), events) == Some(k) && k.phase.Over?
    ensures Posts(events) <= p.hops + 1 && SleptMs(StartRouted(p, base), events, true) == 0
  {
    BillInTimes(p, base, events, k);
    TimesUnits(p.hops + 1);
  }

  // Commands have the same retries for both.
  lemma {:induction false} CommandSleep(p: Params, base: string, events: seq<Event>, k: Machine)
    requires p.postTries == p.getTries && Run(StartRouted(p, base), events) == Some(k) && k.phase.Over?
    ensures SleptMs(StartRouted(p, base), events, true) + SleptMs(StartRouted(p, base), events, false)
            <= (2 * p.hops + 1) * Backoffs(p.postTries)
  {
    BillInTimes(p, base, events, k);
    Doubled(p.hops, LoopMs(p.postTries));
    LoopMsClosed(p.postTries);
    TimesMul(2 * p.hops + 1, LoopMs(p.postTries));
  }

  lemma {:induction false} Doubled(h: nat, ms: nat)
    ensures Times(h + 1, ms) + Times(h, ms) == Times(2 * h + 1, ms)
  {
    if h > 0 {
      Doubled(h - 1, ms);
      assert Times(2 * h + 1, ms) == Times(2 * h, ms) + ms && Times(2 * h, ms) == Times(2 * h - 1, ms) + ms;
    }
  }

  // A nil error is only ever the verdict of the last POST.
  lemma {:induction false} NilErrorMeansAccepted(p: Params, base: string, events: seq<Event>, k: Machine)
    requires Run(StartRouted(p, base), events) == Some(k) && k.phase.Over? && k.phase.outcome.Done?
    ensures |events| > 0
    ensures var last := events[|events| - 1];
            last.Posted? && last.reply == Answered(Accepted, k.phase.outcome.value)
  {
    var n := |events| - 1;
    assert Run(StartRouted(p, base), events[..n]).Some?;
  }

  /* ---- negative transport retries ---- */

  predicate Exchange(e: Event) {
    Sends(e) || e.Fetched?
  }

  // With a negative retry count nothing is ever sent, neither by a whole command
  // nor by executeRouted alone.  A command that finds the cache empty fails with
  // the code "unknown" although no server said so.
  lemma {:induction false} NegativeRetriesExchangeNothing(p: Params, base: string, m0: Machine, events: seq<Event>,
                                                          k: Machine)
    requires p.postTries == p.getTries < 0 && m0 in {Start(p), StartRouted(p, base)} && Run(m0, events) == Some(k)
    ensures forall i :: 0 <= i < |events| ==> !Exchange(events[i])
    ensures k.phase.Over? ==> GaveUpUnsent(k)
    ensures events != [] && events[0] == Looked(false) ==> k.phase == Over(Failed(AppFailure(Unknown)))
    ensures k.phase.Looking? || k.phase.Resolving? || k.phase.Over?
    ensures k.phase.Looking? ==> events == []
  {
    if events != [] {
      var n := |events| - 1;
      NegativeRetriesExchangeNothing(p, base, m0, events[..n], Run(m0, events[..n]).value);
      assert n > 0 ==> events[..n][0] == events[0];
    }
  }

  // So a command can talk to a server at all if and only if the retry count is
  // not negative.
  lemma {:induction false} ExchangeIffRetries(p: Params)
    requires p.postTries == p.getTries
    ensures (exists events, i :: Run(Start(p), events).Some? && 0 <= i < |events| && Exchange(events[i]))
            <==> p.getTries >= 0
  {
    if p.getTries >= 0 {
      var events := [Looked(false), Fetched(FetchLost)];
      RunOne(Start(p), [], Start(p), Looked(false));
      RunOne(Start(p), [Looked(false)], Step(Start(p), Looked(false)), Fetched(FetchLost));
      assert events == [] + [Looked(false)] + [Fetched(FetchLost)] && Exchange(events[1]);
    } else {
      forall events, i | Run(Start(p), events).Some? && 0 <= i < |events| ensures !Exchange(events[i]) {
        NegativeRetriesExchangeNothing(p, "", Start(p), events, Run(Start(p), events).value);
      }
    }
  }

  /* ---- the bill can be that high ---- */

  // The four entries of the bill, for a command that began as m0.
  datatype Bill = Bill(posts: nat, fetches: nat, postMs: nat, getMs: nat)

  ghost function BillOf(m0: Machine, events: seq<Event>): Bill {
    Bill(Posts(events), Fetches(events), SleptMs(m0, events, true), SleptMs(m0, events, false))
  }

  lemma BillOne(m0: Machine, events: seq<Event>, k: Machine, e: Event)
    requires Run(m0, events) == Some(k) && Fits(k, e)
    ensures Run(m0, events + [e]) == Some(Step(k, e))
    ensures var b, b' := BillOf(m0, events), BillOf(m0, events + [e]);
            && b'.posts == b.posts + (if Sends(e) then 1 else 0)
            && b'.fetches == b.fetches + (if e.Fetched? then 1 else 0)
            && b'.postMs == b.postMs + PauseMs(k, true) && b'.getMs == b.getMs + PauseMs(k, false)
  {
    RunOne(m0, events, k, e);
    assert (events + [e])[..|events|] == events;
  }

  // One lost POST and the pause after it.
  lemma LosePost(m0: Machine, events: seq<Event>, m: Machine) returns (events': seq<Event>)
    requires Run(m0, events) == Some(m) && m.phase.Posting? && m.phase.try < m.p.postTries && m.phase.pos <= m.p.size
    ensures Run(m0, events') == Some(m.(phase := Posting(m.phase.base, m.phase.try + 1, m.phase.pos)))
    ensures var b := BillOf(m0, events);
            BillOf(m0, events') == b.(posts := b.posts + 1, postMs := b.postMs + 100 * (m.phase.try + 1))
  {
    BillOne(m0, events, m, Posted(0, Lost));
    var m1 := Step(m, Posted(0, Lost));
    BillOne(m0, events + [Posted(0, Lost)], m1, Slept(false));
    events' := events + [Posted(0, Lost)] + [Slept(false)];
  }

  // The first i attempts of a POST loop are lost.
  lemma {:induction false} LostPosts(m0: Machine, events: seq<Event>, m: Machine, base: string, i: nat)
    returns (events': seq<Event>)
    requires i <= m.p.postTries && Run(m0, events) == Some(m) && m.phase == Posting(base, 0, 0)
    ensures Run(m0, events') == Some(m.(phase := Posting(base, i, 0)))
    ensures var b := BillOf(m0, events);
            BillOf(m0, events') == b.(posts := b.posts + i, postMs := b.postMs + LoopMs(i))
  {
    if i == 0 {
      events' := events;
    } else {
      events' := LostPosts(m0, events, m, base, i - 1);
      events' := LosePost(m0, events', m.(phase := Posting(base, i - 1, 0)));
    }
  }

  // One lost establish GET and the pause after it.
  lemma LoseFetch(m0: Machine, events: seq<Event>, m: Machine) returns (events': seq<Event>)
    requires Run(m0, events) == Some(m) && m.phase.Getting? && m.phase.try < m.p.getTries
    ensures Run(m0, events') == Some(m.(phase := Getting(m.phase.try + 1)))
    ensures var b := BillOf(m0, events);
            BillOf(m0, events') == b.(fetches := b.fetches + 1, getMs := b.getMs + 100 * (m.phase.try + 1))
  {
    BillOne(m0, events, m, Fetched(FetchLost));
    BillOne(m0, events + [Fetched(FetchLost)], Step(m, Fetched(FetchLost)), Slept(false));
    events' := events + [Fetched(FetchLost)] + [Slept(false)];
  }

  lemma {:induction false} LostFetches(m0: Machine, events: seq<Event>, m: Machine, i: nat)
    returns (events': seq<Event>)
    requires i <= m.p.getTries && Run(m0, events) == Some(m) && m.phase == Getting(0)
    ensures Run(m0, events') == Some(m.(phase := Getting(i)))
    ensures var b := BillOf(m0, events);
            BillOf(m0, events') == b.(fetches := b.fetches + i, getMs := b.getMs + LoopMs(i))
  {
    if i == 0 {
      events' := events;
    } else {
      events' := LostFetches(m0, events, m, i - 1);
      events' := LoseFetch(m0, events', m.(phase := Getting(i - 1)));
    }
  }

  const REFUSAL := Posted(0, Answered(Refused(WrongMachine), Null))

  // After a full-price hop: the refresh at full price and the next hop.
  lemma Refreshed(m0: Machine, events: seq<Event>, m: Machine) returns (events': seq<Event>)
    requires m.p.postTries >= 0 && m.p.getTries >= 0 && m.p.size > 0 && m.started
    requires Run(m0, events) == Some(m) && m.phase == Getting(0)
    ensures Run(m0, events') == Some(m.(phase := Posting("", 0, 0)))
    ensures var b, u := BillOf(m0, events), m.p.getTries;
            BillOf(m0, events') == b.(fetches := b.fetches + u + 1, getMs := b.getMs + LoopMs(u))
  {
    events' := LostFetches(m0, events, m, m.p.getTries);
    BillOne(m0, events', m.(phase := Getting(m.p.getTries)), Fetched(GotConfig));
    events' := events' + [Fetched(GotConfig)];
    BillOne(m0, events', m.(phase := Resolving), Resolved(Hop("")));
    events' := events' + [Resolved(Hop(""))];
  }

  // A whole hop at full price, ending in a bounce.
  lemma Bounced(m0: Machine, events: seq<Event>, m: Machine) returns (events': seq<Event>)
    requires m.p.postTries >= 0 && Run(m0, events) == Some(m) && m.phase == Posting("", 0, 0)
    ensures Run(m0, events') == Some(OnPosted(m, "", 0, 0, REFUSAL.reply))
    ensures var b, t := BillOf(m0, events), m.p.postTries;
            BillOf(m0, events') == b.(posts := b.posts + t + 1, postMs := b.postMs + LoopMs(t))
  {
    events' := LostPosts(m0, events, m, "", m.p.postTries);
    BillOne(m0, events', m.(phase := Posting("", m.p.postTries, 0)), REFUSAL);
    events' := events' + [REFUSAL];
  }

  // What n rounds cost.
  ghost function Full(n: nat, t: nat, u: nat): Bill {
    Bill(Times(n, t + 1), Times(n, u + 1), Times(n, LoopMs(t)), Times(n, LoopMs(u)))
  }

  lemma FullOne(n: nat, t: nat, u: nat)
    ensures var b := Full(n, t, u);
            Full(n + 1, t, u) == Bill(b.posts + t + 1, b.fetches + u + 1, b.postMs + LoopMs(t), b.getMs + LoopMs(u))
  {
  }

  // A command, not empty, with t and u transport retries.
  predicate Retrying(p: Params, t: nat, u: nat) {
    p.postTries == t && p.getTries == u && p.size > 0
  }

  // One round from hop n to hop n + 1.
  lemma OneRound(p: Params, t: nat, u: nat, n: nat, before: seq<Event>) returns (events: seq<Event>)
    requires Retrying(p, t, u) && n < p.hops
    requires Run(StartRouted(p, ""), before) == Some(StartRouted(p, "").(bounced := n))
    ensures Run(StartRouted(p, ""), events) == Some(StartRouted(p, "").(bounced := n + 1))
    ensures var b, b' := BillOf(StartRouted(p, ""), before), BillOf(StartRouted(p, ""), events);
            b' == Bill(b.posts + t + 1, b.fetches + u + 1, b.postMs + LoopMs(t), b.getMs + LoopMs(u))
  {
    var m0 := StartRouted(p, "");
    events := Bounced(m0, before, m0.(bounced := n));
    events := Refreshed(m0, events, m0.(bounced := n + 1, phase := Getting(0)));
  }

  lemma {:induction false} Rounds(p: Params, t: nat, u: nat, n: nat) returns (events: seq<Event>)
    requires Retrying(p, t, u) && n <= p.hops
    ensures Run(StartRouted(p, ""), events) == Some(StartRouted(p, "").(bounced := n))
    ensures BillOf(StartRouted(p, ""), events) == Full(n, t, u)
  {
    if n == 0 {
      events := [];
    } else {
      var before := Rounds(p, t, u, n - 1);
      FullOne(n - 1, t, u);
      events := OneRound(p, t, u, n - 1, before);
      assert BillOf(StartRouted(p, ""), events) == Full(n, t, u);
    }
  }

  // All rounds and the last hop, which bounces too.
  lemma FullStorm(p: Params, t: nat, u: nat) returns (events: seq<Event>)
    requires Retrying(p, t, u)
    ensures Run(StartRouted(p, ""), events).Some? && Run(StartRouted(p, ""), events).value.phase.Over?
    ensures var b, m := Full(p.hops, t, u), Full(p.hops + 1, t, u);
            BillOf(StartRouted(p, ""), events) == Bill(m.posts, b.fetches, m.postMs, b.getMs)
  {
    var m0 := StartRouted(p, "");
    var before := Rounds(p, t, u, p.hops);
    events := Bounced(m0, before, m0.(bounced := p.hops));
    FullOne(p.hops, t, u);
  }

  // The bounds of RoutedCost are attained together.
  lemma CostIsAttained(p: Params, t: nat, u: nat) returns (events: seq<Event>)
    requires Retrying(p, t, u)
    ensures Run(StartRouted(p, ""), events).Some? && Run(StartRouted(p, ""), events).value.phase.Over?
    ensures Posts(events) == (p.hops + 1) * Attempts(t) && Fetches(events) == p.hops * Attempts(u)
    ensures SleptMs(StartRouted(p, ""), events, true) == (p.hops + 1) * Backoffs(t)
    ensures SleptMs(StartRouted(p, ""), events, false) == p.hops * Backoffs(u)
  {
    events := FullStorm(p, t, u);
    assert BillOf(StartRouted(p, ""), events)
           == Bill(Posts(events), Fetches(events),
                   SleptMs(StartRouted(p, ""), events, true), SleptMs(StartRouted(p, ""), events, false));
    TimesMul(p.hops + 1, Attempts(t));
    TimesMul(p.hops, Attempts(u));
    TimesMul(p.hops + 1, LoopMs(t));
    TimesMul(p.hops, LoopMs(u));
    LoopMsClosed(t);
    LoopMsClosed(u);
  }
}
