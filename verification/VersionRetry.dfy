/**
  Any number of PatchWithVersionRetry calls against one document, in every
  interleaving, with stale read members, lost answers, stray requests and other
  writers.  The document history is serializable: it is a fold of updates, each
  built from its immediate predecessor, and no call contributes more than once.

  Assumed of the servers, beyond WriteSession: a patch is executed only while its
  "#" is the current version, and every commit gets a version token not used
  before in this history; a read answers with some committed document.
 */
module VersionRetry {
  import opened Wrappers
  import opened Json
  import opened Bounce
  import opened WriteSession

  // A patch detail: the "#" it names and what its operations do to a document.
  datatype Detail = Detail(version: string, ops: Json -> Json)

  // One call: its build callback, its retry settings and its command sizes.
  datatype Job = Job(build: Json -> Option<Detail>, readSize: nat, patchSize: Detail -> nat, hops: nat, tries: int)

  // Where the call is; `again` is false for the first read and patch.
  datatype Stage =
    | Reading(again: bool, rm: Machine)
    | Patching(again: bool, sot: Json, detail: Detail, pm: Machine)
    | GaveUp

  function ReadStart(job: Job): Machine {
    Start(Params(job.hops, job.tries, job.tries, job.readSize))
  }

  function PatchStart(job: Job, detail: Detail): Machine {
    Start(Params(job.hops, job.tries, job.tries, job.patchSize(detail)))
  }

  predicate Mismatch(m: Machine) {
    m.phase == Over(Failed(AppFailure(VersionMismatch)))
  }

  // The code between two commands: build after a read, read again after a
  // version mismatch of the first patch.  Every other stage is left as it is.
  function Turn(job: Job, st: Stage): Stage {
    match st
    case Reading(again, m) =>
      if m.phase.Over? && m.phase.outcome.Done? then
        (match job.build(m.phase.outcome.value)
         case None => GaveUp
         case Some(d) => Patching(again, m.phase.outcome.value, d, PatchStart(job, d)))
      else st
    case Patching(again, _, _, m) => if !again && Mismatch(m) then Reading(true, ReadStart(job)) else st
    case GaveUp => st
  }

  predicate Succeeded(st: Stage) {
    st.Patching? && st.pm.phase.Over? && st.pm.phase.outcome.Done?
  }

  // The call has not come to a patch (again), or its patch failed in a way that
  // shows that no server executed it: not by a transport error, and not by a
  // refusal that a truncated repetition may have earned.
  predicate Unexecuted(job: Job, st: Stage) {
    match st
    case Patching(_, _, _, m) =>
      && m.phase.Over? && m.phase.outcome.Failed?
      && var f := m.phase.outcome.failure;
         (f.AppFailure? && f.code != Malformed) || (job.tries <= 0 && !f.TransportFailure?)
    case _ => true
  }

  /* ---- one call on its own: a list of finished commands ---- */

  function MachineOf(st: Stage): Machine
    requires !st.GaveUp?
  {
    if st.Reading? then st.rm else st.pm
  }

  function WithMachine(st: Stage, m: Machine): Stage
    requires !st.GaveUp?
  {
    if st.Reading? then st.(rm := m) else st.(pm := m)
  }

  // The stage after the given commands, each a list of events.
  ghost function Replay(job: Job, commands: seq<seq<Event>>): Option<Stage> {
    if commands == [] then Some(Reading(false, ReadStart(job)))
    else
      match Replay(job, commands[..|commands| - 1])
      case None => None
      case Some(st) =>
        if st.GaveUp? then None
        else
          match Run(MachineOf(st), commands[|commands| - 1])
          case None => None
          case Some(m) => Some(Turn(job, WithMachine(st, m)))
  }

  lemma ReplayOne(job: Job, commands: seq<seq<Event>>, st: Stage, events: seq<Event>, m: Machine)
    requires Replay(job, commands) == Some(st) && !st.GaveUp? && Run(MachineOf(st), events) == Some(m)
    ensures Replay(job, commands + [events]) == Some(Turn(job, WithMachine(st, m)))
  {
    assert (commands + [events])[..|commands|] == commands;
  }

  // What PatchWithVersionRetry returns.
  datatype Result = Patched(value: Json) | BuildError | CommandError(failure: Failure)

  // The call has returned r: no turn is left to take.
  ghost predicate Returned(job: Job, st: Stage, r: Result) {
    && Turn(job, st) == st
    && match r
       case Patched(v) => st.Patching? && st.pm.phase == Over(Done(v))
       case BuildError => st.GaveUp?
       case CommandError(f) => !st.GaveUp? && MachineOf(st).phase == Over(Failed(f))
  }

  /* ---- the cluster ---- */

  datatype Call = Call(job: Job, stage: Stage, c: Courier)

  // Who committed what; None stands for writers outside this model.
  datatype Commit = Commit(who: Option<nat>, ops: Json -> Json, version: string)

  // history[0] is the document as the run begins; commits[i] made history[i+1].
  datatype State = State(history: seq<Json>, commits: seq<Commit>, calls: seq<Call>)

  datatype Action =
    | Read(call: nat, e: Event)
    | Turning(call: nat)
    | Write(call: nat, mv: Move, token: string)
    | Foreign(ops: Json -> Json, token: string)

  ghost predicate Fresh(s: State, version: string) {
    forall d :: d in s.history ==> VersionOf(d) != version
  }

  function Last(s: State): Json
    requires s.history != []
  {
    s.history[|s.history| - 1]
  }

  // Executing a command: content from the operations, version from the server.
  function Committed(s: State, who: Option<nat>, ops: Json -> Json, token: string): State
    requires s.history != []
  {
    s.(history := s.history + [Stamp(ops(Last(s)), token)], commits := s.commits + [Commit(who, ops, token)])
  }

  ghost predicate Enabled(s: State, a: Action) {
    && s.history != []
    && (a.Foreign? || a.call < |s.calls|)
    && match a
       case Read(i, e) =>
         && s.calls[i].stage.Reading? && Fits(s.calls[i].stage.rm, e)
         && (e.Posted? && e.reply.Answered? && e.reply.verdict.Accepted? ==> e.reply.value in s.history)
       case Turning(i) => Turn(s.calls[i].job, s.calls[i].stage) != s.calls[i].stage
       case Write(i, mv, token) =>
         var st := s.calls[i].stage;
         && st.Patching? && CanMove(Session(st.pm, s.calls[i].c), mv)
         && (Commits(mv) ==>
               st.detail.version == VersionOf(Last(s)) && st.detail.ops(Last(s)).Obj? && Fresh(s, token))
       case Foreign(ops, token) => ops(Last(s)).Obj? && Fresh(s, token)
  }

  ghost function Do(s: State, a: Action): State
    requires Enabled(s, a)
  {
    match a
    case Read(i, e) =>
      s.(calls := s.calls[i := s.calls[i].(stage := s.calls[i].stage.(rm := Step(s.calls[i].stage.rm, e)))])
    case Turning(i) =>
      s.(calls := s.calls[i := s.calls[i].(stage := Turn(s.calls[i].job, s.calls[i].stage))])
    case Write(i, mv, token) =>
      var st := s.calls[i].stage;
      var after := Apply(Session(st.pm, s.calls[i].c), mv);
      var s' := s.(calls := s.calls[i := Call(s.calls[i].job, st.(pm := after.m), after.c)]);
      if Commits(mv) then Committed(s', Some(i), st.detail.ops, token) else s'
    case Foreign(ops, token) => Committed(s, None, ops, token)
  }

  ghost function Exec(s: State, actions: seq<Action>): Option<State> {
    if actions == [] then Some(s)
    else
      match Exec(s, actions[..|actions| - 1])
      case None => None
      case Some(k) =>
        var a := actions[|actions| - 1];
        if Enabled(k, a) then Some(Do(k, a)) else None
  }

  // The build callback names the version of the document it was given.
  ghost predicate CopiesVersion(job: Job) {
    forall d :: job.build(d).Some? ==> job.build(d).value.version == VersionOf(d)
  }

  ghost predicate Initial(s: State) {
    && |s.history| == 1 && s.commits == []
    && forall i :: 0 <= i < |s.calls| ==>
         && CopiesVersion(s.calls[i].job)
         && s.calls[i].stage == Reading(false, ReadStart(s.calls[i].job)) && s.calls[i].c == NEW_COURIER
  }

  ghost function By(commits: seq<Commit>, i: nat): nat {
    if commits == [] then 0
    else By(commits[..|commits| - 1], i) + (if commits[|commits| - 1].who == Some(i) then 1 else 0)
  }

  /* ---- the invariant ---- */

  // Each document is its predecessor with one commit applied.
  ghost predicate Folded(s: State) {
    && |s.history| == |s.commits| + 1
    && forall i :: 0 <= i < |s.commits| ==>
         s.history[i + 1] == Stamp(s.commits[i].ops(s.history[i]), s.commits[i].version)
  }

  // A call's commit is what its build makes of the immediate predecessor.
  ghost predicate BuiltFromPredecessor(s: State) {
    && |s.history| == |s.commits| + 1
    && forall i :: 0 <= i < |s.commits| && s.commits[i].who.Some? ==>
         && s.commits[i].who.value < |s.calls|
         && var made := s.calls[s.commits[i].who.value].job.build(s.history[i]);
            made.Some? && made.value.ops == s.commits[i].ops
  }

  ghost predicate DistinctVersions(history: seq<Json>) {
    forall i, j :: 0 <= i < j < |history| ==> VersionOf(history[i]) != VersionOf(history[j])
  }

  ghost predicate CallInv(s: State, i: nat)
    requires i < |s.calls|
  {
    CallOk(s.calls[i], s.history, By(s.commits, i))
  }

  // A call that has committed n times into this history.
  ghost predicate CallOk(call: Call, history: seq<Json>, n: nat) {
    && CopiesVersion(call.job)
    && n == call.c.commits
    && (match call.stage
        case Reading(_, m) =>
          && call.c == NEW_COURIER
          && (m.phase.Over? && m.phase.outcome.Done? ==> m.phase.outcome.value in history)
        case Patching(_, sot, detail, m) =>
          && WriteSession.Inv(Session(m, call.c)) && m.p.postTries == call.job.tries
          && sot in history && call.job.build(sot) == Some(detail)
        case GaveUp => call.c == NEW_COURIER)
  }

  lemma CallOkGrows(call: Call, history: seq<Json>, d: Json, n: nat)
    requires CallOk(call, history, n)
    ensures CallOk(call, history + [d], n)
  {
  }

  ghost predicate Inv(s: State) {
    && Folded(s) && BuiltFromPredecessor(s) && DistinctVersions(s.history)
    && forall i :: 0 <= i < |s.calls| ==> CallInv(s, i)
  }

  lemma ByOne(commits: seq<Commit>, c: Commit, i: nat)
    ensures By(commits + [c], i) == By(commits, i) + (if c.who == Some(i) then 1 else 0)
  {
    assert (commits + [c])[..|commits|] == commits;
  }

  // Steps that touch nothing but one call.
  lemma CallKeepsInv(s: State, i: nat, call: Call)
    requires Inv(s) && i < |s.calls| && call.job == s.calls[i].job
    requires CallInv(s.(calls := s.calls[i := call]), i)
    ensures Inv(s.(calls := s.calls[i := call]))
  {
    var s' := s.(calls := s.calls[i := call]);
    assert forall k :: 0 <= k < |s.calls| ==> s'.calls[k].job == s.calls[k].job;
    forall k | 0 <= k < |s'.calls| ensures CallInv(s', k) {
      assert CallInv(s, k);
    }
  }

  lemma ReadKeepsInv(s: State, i: nat, e: Event)
    requires Inv(s) && Enabled(s, Read(i, e))
    ensures Inv(Do(s, Read(i, e)))
  {
    assert CallInv(s, i);
    CallKeepsInv(s, i, Do(s, Read(i, e)).calls[i]);
  }

  lemma TurnKeepsInv(s: State, i: nat)
    requires Inv(s) && Enabled(s, Turning(i))
    ensures Inv(Do(s, Turning(i)))
  {
    assert CallInv(s, i);
    var call := Do(s, Turning(i)).calls[i];
    if call.stage.Patching? { NewSession(call.stage.pm); }
    CallKeepsInv(s, i, call);
  }

  // A commit extends the fold, the versions stay distinct, nothing else changes.
  lemma CommitKeepsHistory(s: State, who: Option<nat>, ops: Json -> Json, token: string)
    requires Folded(s) && BuiltFromPredecessor(s) && DistinctVersions(s.history)
    requires ops(Last(s)).Obj? && Fresh(s, token)
    requires who.Some? ==>
               && who.value < |s.calls|
               && s.calls[who.value].job.build(Last(s)).Some?
               && s.calls[who.value].job.build(Last(s)).value.ops == ops
    ensures var s' := Committed(s, who, ops, token);
            Folded(s') && BuiltFromPredecessor(s') && DistinctVersions(s'.history)
  {
    var s' := Committed(s, who, ops, token);
    var n := |s.commits|;
    assert s'.commits[n] == Commit(who, ops, token) && s'.history[n] == Last(s);
    assert VersionOf(s'.history[n + 1]) == token;
    forall i, j | 0 <= i < j < |s'.history|
      ensures VersionOf(s'.history[i]) != VersionOf(s'.history[j])
    {
      if j == n + 1 { assert s.history[i] in s.history; }
    }
  }

  // Compare-and-swap: the version names the current document, so the document
  // the detail was built from is the current one.
  lemma SameVersionSameDocument(s: State, sot: Json)
    requires DistinctVersions(s.history) && s.history != []
    requires sot in s.history && VersionOf(sot) == VersionOf(Last(s))
    ensures sot == Last(s)
  {
    var k :| 0 <= k < |s.history| && s.history[k] == sot;
    assert k == |s.history| - 1;
  }

  lemma WriteKeepsInv(s: State, i: nat, mv: Move, token: string)
    requires Inv(s) && Enabled(s, Write(i, mv, token))
    ensures Inv(Do(s, Write(i, mv, token)))
  {
    assert CallInv(s, i);
    var st, s' := s.calls[i].stage, Do(s, Write(i, mv, token));
    MoveKeepsInv(Session(st.pm, s.calls[i].c), mv);
    if Commits(mv) {
      SameVersionSameDocument(s, st.sot);
      CommitKeepsInv(s, i, s'.calls[i], st.detail.ops, token);
    } else {
      CallKeepsInv(s, i, s'.calls[i]);
    }
  }

  // A call that commits what its build made of the current document.
  lemma CommitKeepsInv(s: State, i: nat, call: Call, ops: Json -> Json, token: string)
    requires Inv(s) && i < |s.calls| && call.job == s.calls[i].job && AfterCommit(s.calls[i], call)
    requires ops(Last(s)).Obj? && Fresh(s, token) && call.job.build(Last(s)).Some?
    requires call.job.build(Last(s)).value.ops == ops
    ensures Inv(Committed(s.(calls := s.calls[i := call]), Some(i), ops, token))
  {
    var mid := s.(calls := s.calls[i := call]);
    assert forall k :: 0 <= k < |s.calls| ==> mid.calls[k].job == s.calls[k].job;
    CommitKeepsHistory(mid, Some(i), ops, token);
    forall k | 0 <= k < |s.calls| ensures CallInv(Committed(mid, Some(i), ops, token), k) {
      assert CallInv(s, k);
      CommitKeepsCall(s, i, call, ops, token, k);
    }
  }

  // The call after a move that executed its patch.
  ghost predicate AfterCommit(was: Call, now: Call) {
    && was.stage.Patching? && now.stage.Patching? && now.stage == was.stage.(pm := now.stage.pm)
    && now.stage.pm.p == was.stage.pm.p
    && now.c.commits == was.c.commits + 1 && WriteSession.Inv(Session(now.stage.pm, now.c))
  }

  lemma CommitterOk(was: Call, now: Call, history: seq<Json>, n: nat)
    requires CallOk(was, history, n) && AfterCommit(was, now) && now.job == was.job
    ensures CallOk(now, history, n + 1)
  {
  }

  lemma CommitKeepsCall(s: State, i: nat, call: Call, ops: Json -> Json, token: string, k: nat)
    requires i < |s.calls| && call.job == s.calls[i].job && AfterCommit(s.calls[i], call)
    requires k < |s.calls| && CallInv(s, k) && s.history != []
    ensures CallInv(Committed(s.(calls := s.calls[i := call]), Some(i), ops, token), k)
  {
    var n, d := By(s.commits, k), Stamp(ops(Last(s)), token);
    if k == i {
      CommitterOk(s.calls[i], call, s.history, n);
      CallOkGrows(call, s.history, d, n + 1);
      CommitSeen(s, i, call, ops, token, k, call, n + 1);
    } else {
      CallOkGrows(s.calls[k], s.history, d, n);
      CommitSeen(s, i, call, ops, token, k, s.calls[k], n);
    }
  }

  // What call k's invariant is about, after call i has committed.
  lemma CommitSeen(s: State, i: nat, call: Call, ops: Json -> Json, token: string, k: nat, now: Call, n: nat)
    requires i < |s.calls| && k < |s.calls| && s.history != []
    requires now == if k == i then call else s.calls[k]
    requires n == By(s.commits, k) + if k == i then 1 else 0
    requires CallOk(now, s.history + [Stamp(ops(Last(s)), token)], n)
    ensures CallInv(Committed(s.(calls := s.calls[i := call]), Some(i), ops, token), k)
  {
    ByOne(s.commits, Commit(Some(i), ops, token), k);
    var s' := Committed(s.(calls := s.calls[i := call]), Some(i), ops, token);
    assert s'.history == s.history + [Stamp(ops(Last(s)), token)] && s'.calls[k] == now;
  }

  lemma ForeignKeepsInv(s: State, ops: Json -> Json, token: string)
    requires Inv(s) && Enabled(s, Foreign(ops, token))
    ensures Inv(Do(s, Foreign(ops, token)))
  {
    CommitKeepsHistory(s, None, ops, token);
    forall k | 0 <= k < |s.calls| ensures CallInv(Do(s, Foreign(ops, token)), k) {
      assert CallInv(s, k);
      ByOne(s.commits, Commit(None, ops, token), k);
      CallOkGrows(s.calls[k], s.history, Stamp(ops(Last(s)), token), By(s.commits, k));
    }
  }

  lemma {:induction false} ExecKeepsInv(s: State, actions: seq<Action>, k: State)
    requires Initial(s) && Exec(s, actions) == Some(k)
    ensures Inv(k) && |k.calls| == |s.calls| && k.history[0] == s.history[0]
    ensures forall i :: 0 <= i < |s.calls| ==> k.calls[i].job == s.calls[i].job
  {
    if actions != [] {
      var n := |actions| - 1;
      var before := Exec(s, actions[..n]).value;
      ExecKeepsInv(s, actions[..n], before);
      match actions[n] {
        case Read(i, e) => ReadKeepsInv(before, i, e);
        case Turning(i) => TurnKeepsInv(before, i);
        case Write(i, mv, token) => WriteKeepsInv(before, i, mv, token);
        case Foreign(ops, token) => ForeignKeepsInv(before, ops, token);
      }
    }
  }

  /* ---- the calls in the cluster are the calls of the code ---- */

  // The stage is the outcome of some finished commands and the machine steps of
  // one more.
  ghost predicate FollowsCode(job: Job, st: Stage) {
    exists commands, st0, events :: Explains(job, commands, st0, events, st)
  }

  ghost predicate Explains(job: Job, commands: seq<seq<Event>>, st0: Stage, events: seq<Event>, st: Stage) {
    Replay(job, commands) == Some(st0)
    && if st0.GaveUp? then st == st0
       else Run(MachineOf(st0), events).Some? && st == WithMachine(st0, Run(MachineOf(st0), events).value)
  }

  lemma StepFollows(job: Job, st: Stage, e: Event)
    requires FollowsCode(job, st) && !st.GaveUp? && Fits(MachineOf(st), e)
    ensures FollowsCode(job, WithMachine(st, Step(MachineOf(st), e)))
  {
    var commands, st0, events :| Explains(job, commands, st0, events, st);
    RunOne(MachineOf(st0), events, MachineOf(st), e);
    assert Explains(job, commands, st0, events + [e], WithMachine(st, Step(MachineOf(st), e)));
  }

  lemma BetweenCommands(job: Job, commands: seq<seq<Event>>, st: Stage)
    requires Replay(job, commands) == Some(st)
    ensures FollowsCode(job, st)
  {
    assert Explains(job, commands, st, [], st);
  }

  lemma TurnFollows(job: Job, st: Stage)
    requires FollowsCode(job, st)
    ensures FollowsCode(job, Turn(job, st))
  {
    var commands, st0, events :| Explains(job, commands, st0, events, st);
    if !st0.GaveUp? {
      ReplayOne(job, commands, st0, events, MachineOf(st));
      BetweenCommands(job, commands + [events], Turn(job, st));
    }
  }

  lemma {:induction false} ClusterFollowsCode(s: State, actions: seq<Action>, k: State, i: nat)
    requires Initial(s) && Exec(s, actions) == Some(k) && i < |k.calls|
    ensures FollowsCode(k.calls[i].job, k.calls[i].stage)
  {
    if actions == [] {
      var st := k.calls[i].stage;
      BetweenCommands(k.calls[i].job, [], st);
    } else {
      var n := |actions| - 1;
      var before, a := Exec(s, actions[..n]).value, actions[n];
      ClusterFollowsCode(s, actions[..n], before, i);
      if !a.Foreign? && a.call == i {
        var call := before.calls[i];
        match a {
          case Read(_, e) => StepFollows(call.job, call.stage, e);
          case Turning(_) => TurnFollows(call.job, call.stage);
          case Write(_, mv, _) =>
            var e := MachineEvent(call.c, mv);
            if e.Some? { StepFollows(call.job, call.stage, e.value); }
          case Foreign(_, _) =>
        }
      }
    }
  }

  /* ---- the theorems ---- */

  // Serializability, at every moment of every run.
  lemma {:induction false} Serializable(s: State, actions: seq<Action>, k: State)
    requires Initial(s) && Exec(s, actions) == Some(k)
    ensures Folded(k) && BuiltFromPredecessor(k) && k.history[0] == s.history[0]
    ensures forall i :: 0 <= i < |k.calls| ==> By(k.commits, i) <= 1
    ensures forall i :: 0 <= i < |k.calls| && Succeeded(k.calls[i].stage) ==> By(k.commits, i) == 1
    ensures forall i :: 0 <= i < |k.calls| && Unexecuted(k.calls[i].job, k.calls[i].stage) ==> By(k.commits, i) == 0
  {
    ExecKeepsInv(s, actions, k);
    forall i | 0 <= i < |k.calls|
      ensures By(k.commits, i) <= 1 && (Succeeded(k.calls[i].stage) ==> By(k.commits, i) == 1)
      ensures Unexecuted(k.calls[i].job, k.calls[i].stage) ==> By(k.commits, i) == 0
    {
      assert CallInv(k, i);
    }
  }

  // How many of the first n calls have returned without an error.
  ghost function Successes(k: State, n: nat): nat
    requires n <= |k.calls|
  {
    if n == 0 then 0 else Successes(k, n - 1) + (if Succeeded(k.calls[n - 1].stage) then 1 else 0)
  }

  // Commits made by the first n calls.
  ghost function ByFirst(commits: seq<Commit>, n: nat): nat {
    if n == 0 then 0 else ByFirst(commits, n - 1) + By(commits, n - 1)
  }

  lemma {:induction false} ByFirstOne(commits: seq<Commit>, c: Commit, n: nat)
    ensures ByFirst(commits + [c], n)
            == ByFirst(commits, n) + (if c.who.Some? && c.who.value < n then 1 else 0)
  {
    if n > 0 {
      ByFirstOne(commits, c, n - 1);
      ByOne(commits, c, n - 1);
    }
  }

  lemma {:induction false} EveryCommitHasAnOwner(commits: seq<Commit>, n: nat)
    requires forall i :: 0 <= i < |commits| ==> commits[i].who.Some? && commits[i].who.value < n
    ensures ByFirst(commits, n) == |commits|
  {
    if commits == [] {
      NoCommits(n);
    } else {
      var m := |commits| - 1;
      EveryCommitHasAnOwner(commits[..m], n);
      ByFirstOne(commits[..m], commits[m], n);
      assert commits[..m] + [commits[m]] == commits;
    }
  }

  lemma {:induction false} NoCommits(n: nat)
    ensures ByFirst([], n) == 0
  {
    if n > 0 { NoCommits(n - 1); }
  }

  lemma {:induction false} SuccessesCounted(k: State, n: nat)
    requires n <= |k.calls|
    requires forall i :: 0 <= i < n ==> By(k.commits, i) <= 1
    requires forall i :: 0 <= i < n && Succeeded(k.calls[i].stage) ==> By(k.commits, i) == 1
    ensures Successes(k, n) <= ByFirst(k.commits, n) <= n
  {
    if n > 0 { SuccessesCounted(k, n - 1); }
  }

  // An update that adds one to some measure, whatever version it is stored under.
  ghost predicate Increments(job: Job, count: Json -> int) {
    forall d, v :: job.build(d).Some? ==> count(Stamp(job.build(d).value.ops(d), v)) == count(d) + 1
  }

  lemma {:induction false} Counted(k: State, count: Json -> int, n: nat)
    requires Folded(k) && BuiltFromPredecessor(k) && n <= |k.commits|
    requires forall i :: 0 <= i < |k.calls| ==> Increments(k.calls[i].job, count)
    requires forall i :: 0 <= i < |k.commits| ==> k.commits[i].who.Some?
    ensures count(k.history[n]) == count(k.history[0]) + n
  {
    if n > 0 {
      Counted(k, count, n - 1);
      var job := k.calls[k.commits[n - 1].who.value].job;
      assert Increments(job, count);
      assert job.build(k.history[n - 1]).value.ops == k.commits[n - 1].ops;
    }
  }

  // Successful increments are never lost and never doubled: between the number
  // of calls that returned success and the number of calls made.
  lemma {:induction false} NoLostUpdates(s: State, actions: seq<Action>, k: State, count: Json -> int)
    requires Initial(s) && Exec(s, actions) == Some(k)
    requires forall i :: 0 <= i < |s.calls| ==> Increments(s.calls[i].job, count)
    requires forall i :: 0 <= i < |k.commits| ==> k.commits[i].who.Some?
    ensures count(s.history[0]) + Successes(k, |k.calls|) <= count(Last(k)) <= count(s.history[0]) + |k.calls|
  {
    ExecKeepsInv(s, actions, k);
    Serializable(s, actions, k);
    Counted(k, count, |k.commits|);
    EveryCommitHasAnOwner(k.commits, |k.calls|);
    SuccessesCounted(k, |k.calls|);
  }
}
