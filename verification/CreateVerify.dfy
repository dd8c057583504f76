/**
  Any number of executeCreate calls for one document id, in every interleaving
  with each other, with lost answers, stray requests, stale reads and other
  writers.

  Assumed of the servers, beyond WriteSession: a create is executed only while no
  document has the id; a read answers with some document that had the id.
 */
module CreateVerify {
  import opened Wrappers
  import opened Json
  import opened Bounce
  import opened WriteSession

  // delay: CreateAmbiguousVerifyDelay as configured, in milliseconds.
  datatype Job = Job(content: Json, size: nat, readSize: nat, hops: nat, tries: int, delay: int)

  datatype CreateResult = Created(value: Json) | Adopted(value: Json) | Rejected(failure: Failure)

  datatype Stage =
    | Sending
    | Waiting(err: Failure)
    | Checking(err: Failure, rm: Machine)
    | Ended(result: CreateResult)

  const DEFAULT_VERIFY_DELAY := 3000

  // A negative setting removes the wait; it does not remove the read.
  function VerifyDelay(configured: int): nat {
    if configured < 0 then 0 else if configured == 0 then DEFAULT_VERIFY_DELAY else configured
  }

  function CreateStart(job: Job): Machine {
    Start(Params(job.hops, job.tries, job.tries, job.size))
  }

  function ReadStart(job: Job): Machine {
    Start(Params(job.hops, job.tries, job.tries, job.readSize))
  }

  // The code between the commands of executeCreate; `sm` sent the create.
  function Turn(job: Job, sm: Machine, st: Stage): Stage {
    match st
    case Sending =>
      (match sm.phase
       case Over(Done(value)) => Ended(Created(value))
       case Over(Failed(f)) =>
         if !sm.started then Ended(Rejected(f))
         else if f == AppFailure(DocumentExists) then Checking(f, ReadStart(job))
         else if f == TransportFailure then
           if VerifyDelay(job.delay) > 0 then Waiting(f) else Checking(f, ReadStart(job))
         else Ended(Rejected(f))
       case _ => Sending)
    case Waiting(_) => st
    case Checking(err, m) =>
      (match m.phase
       case Over(Done(value)) => Ended(Adopted(value))
       case Over(Failed(_)) => Ended(Rejected(err))
       case _ => st)
    case Ended(_) => st
  }

  // The pause before the follow-up read ended, or the context did.
  function Wake(job: Job, st: Stage, canceled: bool): Stage
    requires st.Waiting?
  {
    if canceled then Ended(Rejected(st.err)) else Checking(st.err, ReadStart(job))
  }

  // The stage a lone call reaches: its create ran to `sm`, a pause ended as
  // told, and its follow-up read, if there is one, ran to `rm`.
  function Course(job: Job, sm: Machine, canceled: bool, rm: Machine): Stage {
    var st1 := Turn(job, sm, Sending);
    var st2 := if st1.Waiting? then Wake(job, st1, canceled) else st1;
    if st2.Checking? then Turn(job, sm, st2.(rm := rm)) else st2
  }

  // Whether a lone call gets as far as its follow-up read.
  function LooksForDocument(job: Job, sm: Machine, canceled: bool): bool {
    var st1 := Turn(job, sm, Sending);
    (if st1.Waiting? then Wake(job, st1, canceled) else st1).Checking?
  }

  // Exactly when there is a follow-up read, after a create that was sent: always
  // after a duplicate id, and after a lost one unless the context ends in the
  // wait.  A negative delay removes the wait and so that exception; it does not
  // remove the read.
  lemma {:induction false} FollowUpRead(job: Job, sm: Machine, canceled: bool)
    requires sm.started
    ensures LooksForDocument(job, sm, canceled)
            <==> || sm.phase == Over(Failed(AppFailure(DocumentExists)))
                 || (sm.phase == Over(Failed(TransportFailure)) && (job.delay < 0 || !canceled))
    ensures sm.phase == Over(Failed(TransportFailure)) ==>
              (!LooksForDocument(job, sm, canceled) <==> job.delay >= 0 && canceled)
  {
  }

  // What the read is for: it decides the call, for every delay, whenever there
  // is one; without it the call ends as the create did.
  lemma {:induction false} FollowUpDecides(job: Job, sm: Machine, canceled: bool, rm: Machine)
    requires sm.phase.Over? && rm.phase.Over?
    ensures Course(job, sm, canceled, rm).Ended?
    ensures var r := Course(job, sm, canceled, rm).result;
            match sm.phase.outcome
            case Done(v) => r == Created(v)
            case Failed(f) =>
              if LooksForDocument(job, sm, canceled) && rm.phase.outcome.Done? then r == Adopted(rm.phase.outcome.value)
              else r == Rejected(f)
  {
  }

  /* ---- the cluster ---- */

  datatype Call = Call(job: Job, sm: Machine, stage: Stage, c: Courier)

  // history: what the id named, over time; owners[i] made history[i+1].
  datatype State = State(history: seq<Option<Json>>, owners: seq<Option<nat>>, calls: seq<Call>)

  datatype Action =
    | Write(call: nat, mv: Move)
    | Check(call: nat, e: Event)
    | Turning(call: nat)
    | Waking(call: nat, canceled: bool)
    | Foreign(now: Option<Json>)

  function Last(s: State): Option<Json>
    requires s.history != []
  {
    s.history[|s.history| - 1]
  }

  ghost predicate Enabled(s: State, a: Action) {
    && s.history != []
    && (a.Foreign? || a.call < |s.calls|)
    && match a
       case Write(i, mv) =>
         && CanMove(Session(s.calls[i].sm, s.calls[i].c), mv)
         && (!mv.ServeStray? ==> s.calls[i].stage.Sending?)
         && (Commits(mv) ==> Last(s) == None)
       case Check(i, e) =>
         && s.calls[i].stage.Checking? && Fits(s.calls[i].stage.rm, e)
         && (e.Posted? && e.reply.Answered? && e.reply.verdict.Accepted? ==> Some(e.reply.value) in s.history)
       case Turning(i) => Turn(s.calls[i].job, s.calls[i].sm, s.calls[i].stage) != s.calls[i].stage
       case Waking(i, _) => s.calls[i].stage.Waiting?
       case Foreign(_) => true
  }

  function Changed(s: State, who: Option<nat>, now: Option<Json>): State {
    s.(history := s.history + [now], owners := s.owners + [who])
  }

  function SetCall(s: State, i: nat, call: Call): State
    requires i < |s.calls|
  {
    s.(calls := s.calls[i := call])
  }

  ghost function Do(s: State, a: Action): State
    requires Enabled(s, a)
  {
    match a
    case Write(i, mv) =>
      var after := Apply(Session(s.calls[i].sm, s.calls[i].c), mv);
      var s' := SetCall(s, i, s.calls[i].(sm := after.m, c := after.c));
      if Commits(mv) then Changed(s', Some(i), Some(s.calls[i].job.content)) else s'
    case Check(i, e) =>
      SetCall(s, i, s.calls[i].(stage := s.calls[i].stage.(rm := Step(s.calls[i].stage.rm, e))))
    case Turning(i) =>
      SetCall(s, i, s.calls[i].(stage := Turn(s.calls[i].job, s.calls[i].sm, s.calls[i].stage)))
    case Waking(i, canceled) =>
      SetCall(s, i, s.calls[i].(stage := Wake(s.calls[i].job, s.calls[i].stage, canceled)))
    case Foreign(now) => Changed(s, None, now)
  }

  ghost function Exec(s: State, actions: seq<Action>): Option<State> {
    if actions == [] then Some(s)
    else
      match Exec(s, actions[..|actions| - 1])
      case None => None
      case Some(k) =>
        var a := actions[|actions| - 1];
        if Enabled(k, a) then Some(Do(k, a)) else None
  }

  ghost predicate Initial(s: State) {
    && |s.history| == 1 && s.owners == []
    && forall i :: 0 <= i < |s.calls| ==>
         s.calls[i] == Call(s.calls[i].job, CreateStart(s.calls[i].job), Sending, NEW_COURIER)
  }

  ghost function By(owners: seq<Option<nat>>, i: nat): nat {
    if owners == [] then 0
    else By(owners[..|owners| - 1], i) + (if owners[|owners| - 1] == Some(i) then 1 else 0)
  }

  /* ---- the invariant ---- */

  ghost predicate HistoryInv(s: State) {
    && |s.history| == |s.owners| + 1
    && forall j :: 0 <= j < |s.owners| && s.owners[j].Some? ==>
         && s.owners[j].value < |s.calls|
         && s.history[j] == None && s.history[j + 1] == Some(s.calls[s.owners[j].value].job.content)
  }

  // The error a follow-up read tries to explain away.
  ghost predicate Ambiguous(call: Call, err: Failure) {
    && call.sm.phase == Over(Failed(err))
    && (err == AppFailure(DocumentExists) || err == TransportFailure)
  }

  ghost predicate StageInv(s: State, call: Call) {
    match call.stage
    case Sending => true
    case Waiting(err) => Ambiguous(call, err)
    case Checking(err, m) =>
      && Ambiguous(call, err)
      && (m.phase.Over? && m.phase.outcome.Done? ==> Some(m.phase.outcome.value) in s.history)
    case Ended(Created(value)) => call.sm.phase == Over(Done(value))
    case Ended(Adopted(value)) => Some(value) in s.history
    case Ended(Rejected(f)) => call.sm.phase == Over(Failed(f))
  }

  ghost predicate CallInv(s: State, i: nat)
    requires i < |s.calls|
  {
    var call := s.calls[i];
    && WriteSession.Inv(Session(call.sm, call.c))
    && call.sm.p == CreateStart(call.job).p
    && By(s.owners, i) == call.c.commits
    && (call.c.commits > 0 ==> Some(call.job.content) in s.history)
    && StageInv(s, call)
  }

  ghost predicate Inv(s: State) {
    HistoryInv(s) && forall i :: 0 <= i < |s.calls| ==> CallInv(s, i)
  }

  lemma ByOne(owners: seq<Option<nat>>, who: Option<nat>, i: nat)
    ensures By(owners + [who], i) == By(owners, i) + (if who == Some(i) then 1 else 0)
  {
    assert (owners + [who])[..|owners|] == owners;
  }

  lemma WriteKeepsInv(s: State, i: nat, mv: Move)
    requires Inv(s) && Enabled(s, Write(i, mv))
    ensures Inv(Do(s, Write(i, mv)))
  {
    WriteKeepsHistory(s, i, mv);
    WriterKeepsInv(s, i, mv);
    forall k | 0 <= k < |s.calls| && k != i ensures CallInv(Do(s, Write(i, mv)), k) {
      BystanderKeepsInv(s, i, mv, k);
    }
  }

  lemma WriteKeepsHistory(s: State, i: nat, mv: Move)
    requires HistoryInv(s) && Enabled(s, Write(i, mv))
    ensures HistoryInv(Do(s, Write(i, mv)))
  {
    var s' := Do(s, Write(i, mv));
    assert forall k :: 0 <= k < |s.calls| ==> s'.calls[k].job == s.calls[k].job;
  }

  lemma BystanderKeepsInv(s: State, i: nat, mv: Move, k: nat)
    requires k < |s.calls| && k != i && CallInv(s, k) && Enabled(s, Write(i, mv))
    ensures CallInv(Do(s, Write(i, mv)), k)
  {
    ByOne(s.owners, Some(i), k);
  }

  lemma WriterKeepsInv(s: State, i: nat, mv: Move)
    requires Inv(s) && Enabled(s, Write(i, mv))
    ensures CallInv(Do(s, Write(i, mv)), i)
  {
    assert CallInv(s, i);
    MoveKeepsInv(Session(s.calls[i].sm, s.calls[i].c), mv);
    ByOne(s.owners, Some(i), i);
    var s' := Do(s, Write(i, mv));
    assert Commits(mv) ==> s'.history[|s.history|] == Some(s.calls[i].job.content);
  }

  // Steps that touch nothing but one call's stage.
  lemma StageKeepsInv(s: State, i: nat, st: Stage)
    requires Inv(s) && i < |s.calls|
    requires StageInv(s, s.calls[i].(stage := st))
    ensures Inv(SetCall(s, i, s.calls[i].(stage := st)))
  {
    var s' := SetCall(s, i, s.calls[i].(stage := st));
    assert forall k :: 0 <= k < |s.calls| ==> s'.calls[k].job == s.calls[k].job;
    forall k | 0 <= k < |s'.calls| ensures CallInv(s', k) {
      assert CallInv(s, k);
    }
  }

  lemma LocalKeepsInv(s: State, a: Action)
    requires Inv(s) && Enabled(s, a) && (a.Check? || a.Turning? || a.Waking?)
    ensures Inv(Do(s, a))
  {
    assert CallInv(s, a.call);
    StageKeepsInv(s, a.call, Do(s, a).calls[a.call].stage);
  }

  lemma ForeignKeepsInv(s: State, now: Option<Json>)
    requires Inv(s)
    ensures Inv(Changed(s, None, now))
  {
    var s' := Changed(s, None, now);
    forall k | 0 <= k < |s'.calls| ensures CallInv(s', k) {
      assert CallInv(s, k);
      ByOne(s.owners, None, k);
    }
  }

  lemma {:induction false} ExecKeepsInv(s: State, actions: seq<Action>, k: State)
    requires Initial(s) && Exec(s, actions) == Some(k)
    ensures Inv(k) && |k.calls| == |s.calls| && k.history[0] == s.history[0]
    ensures forall i :: 0 <= i < |s.calls| ==> k.calls[i].job == s.calls[i].job
  {
    if actions == [] {
      forall i | 0 <= i < |s.calls| ensures CallInv(s, i) {
        NewSession(s.calls[i].sm);
      }
    } else {
      var n := |actions| - 1;
      var before := Exec(s, actions[..n]).value;
      ExecKeepsInv(s, actions[..n], before);
      match actions[n] {
        case Write(i, mv) => WriteKeepsInv(before, i, mv);
        case Foreign(now) => ForeignKeepsInv(before, now);
        case _ => LocalKeepsInv(before, actions[n]);
      }
    }
  }

  /* ---- the calls in the cluster are the calls of the code ---- */

  ghost predicate Reached(from: Machine, m: Machine) {
    exists events :: Run(from, events) == Some(m)
  }

  // The create ran to sm, and the stage is what the code makes of it.
  ghost predicate FollowsCode(call: Call) {
    && Reached(CreateStart(call.job), call.sm)
    && match call.stage
       case Sending => true
       case Waiting(_) => call.stage == Turn(call.job, call.sm, Sending)
       case Checking(err, m) => CheckBegun(call.job, call.sm, err) && Reached(ReadStart(call.job), m)
       case Ended(r) =>
         exists canceled, rm :: Reached(ReadStart(call.job), rm) && Course(call.job, call.sm, canceled, rm) == Ended(r)
  }

  // The follow-up read begins, with or without a wait before it.
  ghost predicate CheckBegun(job: Job, sm: Machine, err: Failure) {
    var st := Turn(job, sm, Sending);
    st == Waiting(err) || st == Checking(err, ReadStart(job))
  }

  lemma ReachedStep(from: Machine, m: Machine, e: Event)
    requires Reached(from, m) && Fits(m, e)
    ensures Reached(from, Step(m, e))
  {
    var events :| Run(from, events) == Some(m);
    RunOne(from, events, m, e);
  }

  lemma ReachedStart(m: Machine)
    ensures Reached(m, m)
  {
    assert Run(m, []) == Some(m);
  }

  lemma TurnFollows(call: Call)
    requires FollowsCode(call)
    ensures FollowsCode(call.(stage := Turn(call.job, call.sm, call.stage)))
  {
    ReachedStart(ReadStart(call.job));
    var st := Turn(call.job, call.sm, call.stage);
    if st.Ended? && !call.stage.Ended? {
      var rm := if call.stage.Checking? then call.stage.rm else ReadStart(call.job);
      assert Course(call.job, call.sm, false, rm) == st;
    }
  }

  lemma WakeFollows(call: Call, canceled: bool)
    requires FollowsCode(call) && call.stage.Waiting?
    ensures FollowsCode(call.(stage := Wake(call.job, call.stage, canceled)))
  {
    ReachedStart(ReadStart(call.job));
    if canceled {
      assert Course(call.job, call.sm, true, ReadStart(call.job)) == Wake(call.job, call.stage, true);
    }
  }

  lemma {:induction false} ClusterFollowsCode(s: State, actions: seq<Action>, k: State, i: nat)
    requires Initial(s) && Exec(s, actions) == Some(k) && i < |k.calls|
    ensures FollowsCode(k.calls[i])
  {
    if actions == [] {
      ReachedStart(CreateStart(k.calls[i].job));
    } else {
      var n := |actions| - 1;
      var before, a := Exec(s, actions[..n]).value, actions[n];
      ClusterFollowsCode(s, actions[..n], before, i);
      if !a.Foreign? && a.call == i {
        var call := before.calls[i];
        match a {
          case Write(_, mv) =>
            var e := MachineEvent(call.c, mv);
            if e.Some? { ReachedStep(CreateStart(call.job), call.sm, e.value); }
          case Check(_, e) => ReachedStep(ReadStart(call.job), call.stage.rm, e);
          case Turning(_) => TurnFollows(call);
          case Waking(_, canceled) => WakeFollows(call, canceled);
          case Foreign(_) =>
        }
      }
    }
  }

  /* ---- the theorems ---- */

  predicate Succeeded(st: Stage) {
    st.Ended? && !st.result.Rejected?
  }

  predicate AppRejected(st: Stage) {
    st.Ended? && st.result.Rejected? && st.result.failure.AppFailure?
  }

  // At every moment of every run: at most one commit per call, and success only
  // if the id has named a document.
  lemma {:induction false} CreateSafe(s: State, actions: seq<Action>, k: State, i: nat)
    requires Initial(s) && Exec(s, actions) == Some(k) && i < |k.calls|
    ensures By(k.owners, i) <= 1
    ensures Succeeded(k.calls[i].stage) ==> exists j :: 0 <= j < |k.history| && k.history[j].Some?
    ensures k.calls[i].stage.Ended? && k.calls[i].stage.result.Created? ==> By(k.owners, i) == 1
  {
    ExecKeepsInv(s, actions, k);
    assert CallInv(k, i);
    if Succeeded(k.calls[i].stage) {
      var d :| d in k.history && d.Some?;
    }
  }

  // If nobody else touches the id, success means this call's own content was
  // committed, exactly once, and is all the id has ever named.
  lemma {:induction false} SoleCreatorOwnsTheDocument(s: State, actions: seq<Action>, k: State, i: nat)
    requires Initial(s) && Exec(s, actions) == Some(k) && i < |k.calls|
    requires s.history == [None] && forall j :: 0 <= j < |k.owners| ==> k.owners[j] == Some(i)
    requires Succeeded(k.calls[i].stage)
    ensures By(k.owners, i) == 1 && k.history == [None, Some(k.calls[i].job.content)]
  {
    ExecKeepsInv(s, actions, k);
    CreateSafe(s, actions, k, i);
    AllMine(k.owners, i);
    OwnHistory(k, i);
  }

  lemma OwnHistory(k: State, i: nat)
    requires HistoryInv(k) && i < |k.calls| && k.history[0] == None && |k.owners| <= 1
    requires forall j :: 0 <= j < |k.owners| ==> k.owners[j] == Some(i)
    requires exists j :: 0 <= j < |k.history| && k.history[j].Some?
    ensures |k.owners| == 1 && k.history == [None, Some(k.calls[i].job.content)]
  {
    assert |k.owners| == 1;
    assert k.owners[0] == Some(i);
    assert k.history[0 + 1] == Some(k.calls[i].job.content);
  }

  lemma {:induction false} AllMine(owners: seq<Option<nat>>, i: nat)
    requires forall j :: 0 <= j < |owners| ==> owners[j] == Some(i)
    ensures By(owners, i) == |owners|
  {
    if owners != [] { AllMine(owners[..|owners| - 1], i); }
  }

  // A refusal means nothing was committed and nothing is left that could be,
  // unless the refused attempt may have been a truncated repetition.
  lemma {:induction false} RefusedMeansNotCommitted(s: State, actions: seq<Action>, k: State, i: nat)
    requires Initial(s) && Exec(s, actions) == Some(k) && i < |k.calls|
    requires AppRejected(k.calls[i].stage)
    requires k.calls[i].job.tries <= 0 || k.calls[i].stage.result.failure.code != Malformed
    ensures By(k.owners, i) == 0 && !k.calls[i].c.stray && k.calls[i].c.wire.Idle?
  {
    ExecKeepsInv(s, actions, k);
    assert CallInv(k, i);
  }

  // In every run, whatever the other calls are, a call with this job that was
  // refused has committed nothing.
  ghost predicate RefusalsAreClean(job: Job) {
    forall s, actions, i: nat :: !RefusedYetCommitted(job, s, actions, i)
  }

  ghost predicate RefusedYetCommitted(job: Job, s: State, actions: seq<Action>, i: nat) {
    && Initial(s) && i < |s.calls| && s.calls[i].job == job
    && Exec(s, actions).Some? && i < |Exec(s, actions).value.calls|
    && AppRejected(Exec(s, actions).value.calls[i].stage)
    && By(Exec(s, actions).value.owners, i) != 0
  }

  lemma {:induction false} RefusalsAreCleanIffNoRetries(job: Job)
    ensures RefusalsAreClean(job) <==> job.tries <= 0 || job.size == 0
  {
    if job.tries <= 0 || job.size == 0 {
      forall s, actions, i: nat ensures !RefusedYetCommitted(job, s, actions, i) {
        if RefusedYetCommitted(job, s, actions, i) { CleanRefusal(s, actions, Exec(s, actions).value, i); }
      }
    } else {
      var s, actions, k := RefusedAfterCommit(job);
      assert RefusedYetCommitted(job, s, actions, 0);
    }
  }

  lemma CleanRefusal(s: State, actions: seq<Action>, k: State, i: nat)
    requires Initial(s) && Exec(s, actions) == Some(k) && i < |s.calls| && i < |k.calls|
    requires s.calls[i].job.tries <= 0 || s.calls[i].job.size == 0
    requires AppRejected(k.calls[i].stage)
    ensures By(k.owners, i) == 0
  {
    ExecKeepsInv(s, actions, k);
    assert CallInv(k, i);
  }

  lemma ExecOne(s: State, actions: seq<Action>, k: State, a: Action)
    requires Exec(s, actions) == Some(k) && Enabled(k, a)
    ensures Exec(s, actions + [a]) == Some(Do(k, a))
  {
    assert (actions + [a])[..|actions|] == actions;
  }

  // A cluster with one call, still sending.
  function Solo(job: Job, history: seq<Option<Json>>, owners: seq<Option<nat>>, x: Session): State {
    State(history, owners, [Call(job, x.m, Sending, x.c)])
  }

  // Moves of the only call that commit nothing.
  lemma {:induction false} SoloQuiet(s: State, actions: seq<Action>, job: Job, history: seq<Option<Json>>,
                                     owners: seq<Option<nat>>, x: Session, moves: seq<Move>)
    returns (actions': seq<Action>)
    requires Exec(s, actions) == Some(Solo(job, history, owners, x)) && history != []
    requires Quiet(x, moves)
    ensures Exec(s, actions') == Some(Solo(job, history, owners, After(x, moves)))
    decreases moves
  {
    if moves == [] {
      actions' := actions;
    } else {
      var a := Write(0, moves[0]);
      var k := Solo(job, history, owners, x);
      assert Do(k, a) == Solo(job, history, owners, Apply(x, moves[0]));
      ExecOne(s, actions, k, a);
      actions' := SoloQuiet(s, actions + [a], job, history, owners, Apply(x, moves[0]), moves[1..]);
    }
  }

  predicate Quiet(x: Session, moves: seq<Move>)
    decreases moves
  {
    moves == [] || (CanMove(x, moves[0]) && !Commits(moves[0]) && Quiet(Apply(x, moves[0]), moves[1..]))
  }

  function After(x: Session, moves: seq<Move>): Session
    requires Quiet(x, moves)
    decreases moves
  {
    if moves == [] then x else After(Apply(x, moves[0]), moves[1..])
  }

  lemma {:induction false} Then(x: Session, mv: Move, moves: seq<Move>)
    requires CanMove(x, mv) && !Commits(mv) && Quiet(Apply(x, mv), moves)
    ensures Quiet(x, [mv] + moves) && After(x, [mv] + moves) == After(Apply(x, mv), moves)
  {
    assert ([mv] + moves)[1..] == moves;
  }

  // Up to the whole command being under way, and after its answer is lost: the
  // retry finds the body reader at its end, sends nothing and is refused.
  lemma WitnessMoves(p: Params) returns (before: seq<Move>, after: seq<Move>)
    requires p.postTries > 0 && p.size > 0
    ensures Quiet(Session(Start(p), NEW_COURIER), before)
    ensures After(Session(Start(p), NEW_COURIER), before)
            == Session(Machine(p, true, 0, Posting("", 0, 0)), Courier(InFlight(true, p.size), false, 0))
    ensures var x := Session(Machine(p, true, 0, Posting("", 0, 0)), Courier(Served(p.size, Accepted, Null), false, 1));
            Quiet(x, after)
            && After(x, after)
               == Session(Machine(p, true, 0, Over(Failed(AppFailure(Malformed)))), Courier(Idle, false, 1))
  {
    before := SentWhole(p);
    after := RefusedRest(p);
  }

  lemma SentWhole(p: Params) returns (before: seq<Move>)
    requires p.postTries >= 0 && p.size > 0
    ensures Quiet(Session(Start(p), NEW_COURIER), before)
    ensures After(Session(Start(p), NEW_COURIER), before)
            == Session(Machine(p, true, 0, Posting("", 0, 0)), Courier(InFlight(true, p.size), false, 0))
  {
    var hop := Local(Resolved(Hop("")));
    Then(Session(Machine(p, true, 0, Posting("", 0, 0)), NEW_COURIER), Send(p.size), []);
    Then(Session(Machine(p, false, 0, Resolving), NEW_COURIER), hop, [Send(p.size)] + []);
    before := [Local(Looked(true))] + ([hop] + ([Send(p.size)] + []));
    Then(Session(Start(p), NEW_COURIER), Local(Looked(true)), [hop] + ([Send(p.size)] + []));
  }

  lemma RefusedRest(p: Params) returns (after: seq<Move>)
    requires p.postTries > 0 && p.size > 0
    ensures var x := Session(Machine(p, true, 0, Posting("", 0, 0)), Courier(Served(p.size, Accepted, Null), false, 1));
            Quiet(x, after)
            && After(x, after)
               == Session(Machine(p, true, 0, Over(Failed(AppFailure(Malformed)))), Courier(Idle, false, 1))
  {
    var m, refuse := Machine(p, true, 0, Posting("", 0, 0)), Serve(Refused(Malformed), Null);
    var m1 := Machine(p, true, 0, Posting("", 1, p.size));
    Then(Session(m1, Courier(Served(0, Refused(Malformed), Null), false, 1)), Deliver, []);
    Then(Session(m1, Courier(InFlight(false, 0), false, 1)), refuse, [Deliver] + []);
    Then(Session(m1, Courier(Idle, false, 1)), Send(0), [refuse] + ([Deliver] + []));
    var rest := [Send(0)] + ([refuse] + ([Deliver] + []));
    Then(Session(Machine(p, true, 0, PostPause("", 0, p.size)), Courier(Idle, false, 1)), Local(Slept(false)), rest);
    after := [Lose] + ([Local(Slept(false))] + rest);
    Then(Session(m, Courier(Served(p.size, Accepted, Null), false, 1)), Lose, [Local(Slept(false))] + rest);
  }

  function JobParams(job: Job): Params {
    Params(job.hops, job.tries, job.tries, job.size)
  }

  // With retries a call with any command can be refused although it was executed.
  lemma RefusedAfterCommit(job: Job) returns (s: State, actions: seq<Action>, k: State)
    requires job.tries > 0 && job.size > 0
    ensures Initial(s) && |s.calls| == 1 && s.calls[0].job == job
    ensures Exec(s, actions) == Some(k) && |k.calls| == 1
    ensures AppRejected(k.calls[0].stage) && By(k.owners, 0) == 1
  {
    var p, mine := JobParams(job), Some(job.content);
    var m := Machine(p, true, 0, Posting("", 0, 0));
    var before, after := WitnessMoves(p);
    s := Solo(job, [None], [], Session(Start(p), NEW_COURIER));
    actions := SoloQuiet(s, [], job, [None], [], Session(Start(p), NEW_COURIER), before);
    k := Solo(job, [None], [], Session(m, Courier(InFlight(true, p.size), false, 0)));
    ExecOne(s, actions, k, Write(0, Serve(Accepted, Null)));
    actions := actions + [Write(0, Serve(Accepted, Null))];
    var x := Session(m, Courier(Served(p.size, Accepted, Null), false, 1));
    assert Do(k, Write(0, Serve(Accepted, Null))) == Solo(job, [None, mine], [Some(0)], x);
    actions := SoloQuiet(s, actions, job, [None, mine], [Some(0)], x, after);
    actions, k := RefusalReturned(s, actions, job, p);
  }

  lemma RefusalReturned(s: State, actions: seq<Action>, job: Job, p: Params) returns (actions': seq<Action>, k: State)
    requires var x := Session(Machine(p, true, 0, Over(Failed(AppFailure(Malformed)))), Courier(Idle, false, 1));
             Exec(s, actions) == Some(Solo(job, [None, Some(job.content)], [Some(0)], x))
    ensures Exec(s, actions') == Some(k) && |k.calls| == 1
    ensures AppRejected(k.calls[0].stage) && By(k.owners, 0) == 1
  {
    k := Exec(s, actions).value;
    ExecOne(s, actions, k, Turning(0));
    actions', k := actions + [Turning(0)], Do(k, Turning(0));
    ByOne([], Some(0), 0);
    assert [] + [Some(0 as nat)] == k.owners;
  }

  /* ---- whose document a success speaks of ---- */

  // Only call i ever changes what the id names, and at first it names nothing.
  ghost predicate Exclusive(s: State, k: State, i: nat) {
    s.history == [None] && forall j :: 0 <= j < |k.owners| ==> k.owners[j] == Some(i)
  }

  // A success of a call whose content was never committed.
  ghost predicate SucceededForAnother(job: Job, exclusive: bool, s: State, actions: seq<Action>, i: nat) {
    && Initial(s) && i < |s.calls| && s.calls[i].job == job
    && Exec(s, actions).Some? && i < |Exec(s, actions).value.calls|
    && (exclusive ==> Exclusive(s, Exec(s, actions).value, i))
    && Succeeded(Exec(s, actions).value.calls[i].stage) && By(Exec(s, actions).value.owners, i) != 1
  }

  // In every run success of a call with this job means that its own content was
  // committed, exactly once.
  ghost predicate SuccessMeansMine(job: Job, exclusive: bool) {
    forall s, actions, i: nat :: !SucceededForAnother(job, exclusive, s, actions, i)
  }

  // That is so exactly if nobody else uses the id, leaving aside calls that
  // cannot send, or cannot read.
  lemma {:induction false} SuccessMeansMineIffExclusive(job: Job, exclusive: bool)
    ensures SuccessMeansMine(job, exclusive) <==> exclusive || job.size == 0 || job.readSize == 0 || job.tries < 0
  {
    if exclusive || job.size == 0 || job.readSize == 0 || job.tries < 0 {
      forall s, actions, i: nat ensures !SucceededForAnother(job, exclusive, s, actions, i) {
        if SucceededForAnother(job, exclusive, s, actions, i) {
          var k := Exec(s, actions).value;
          ExecKeepsInv(s, actions, k);
          if exclusive {
            SoleCreatorOwnsTheDocument(s, actions, k, i);
          } else {
            OnlyCreatedCanSucceed(s, actions, k, i);
            CreateSafe(s, actions, k, i);
          }
        }
      }
    } else {
      var s, actions, k := AdoptsAnothersDocument(job, Null);
      assert SucceededForAnother(job, exclusive, s, actions, 0);
    }
  }

  // In particular a call that was told of a duplicate id never committed and
  // never will: a success after that speaks of another's document.
  lemma {:induction false} DuplicateIsNeverMine(s: State, actions: seq<Action>, k: State, i: nat)
    requires Initial(s) && Exec(s, actions) == Some(k) && i < |k.calls|
    requires k.calls[i].sm.phase == Over(Failed(AppFailure(DocumentExists)))
    ensures By(k.owners, i) == 0 && !k.calls[i].c.stray && k.calls[i].c.wire.Idle?
  {
    ExecKeepsInv(s, actions, k);
    assert CallInv(k, i);
  }

  // A call that cannot send, or cannot read, never adopts a document.
  lemma OnlyCreatedCanSucceed(s: State, actions: seq<Action>, k: State, i: nat)
    requires Initial(s) && Exec(s, actions) == Some(k) && i < |k.calls| && Succeeded(k.calls[i].stage)
    requires var job := k.calls[i].job; job.size == 0 || job.readSize == 0 || job.tries < 0
    ensures k.calls[i].stage.result.Created?
  {
    var call := k.calls[i];
    ClusterFollowsCode(s, actions, k, i);
    if call.stage.result.Adopted? {
      var canceled, rm :| Reached(ReadStart(call.job), rm) && Course(call.job, call.sm, canceled, rm) == call.stage;
      ReachedWellFormed(CreateStart(call.job), call.sm);
      ReachedWellFormed(ReadStart(call.job), rm);
    }
  }

  lemma ReachedWellFormed(from: Machine, m: Machine)
    requires Reached(from, m) && WellFormed(from)
    ensures WellFormed(m) && m.p == from.p
  {
    var events :| Run(from, events) == Some(m);
    RunWellFormed(from, events, m);
  }

  // The id is taken by somebody else's document; the create is refused, the read
  // finds that document, and the call succeeds with it.
  lemma AdoptsAnothersDocument(job: Job, other: Json) returns (s: State, actions: seq<Action>, k: State)
    requires job.size > 0 && job.readSize > 0 && job.tries >= 0
    ensures Initial(s) && s.history == [None] && |s.calls| == 1 && s.calls[0].job == job
    ensures Exec(s, actions) == Some(k) && |k.calls| == 1
    ensures k.calls[0].stage == Ended(Adopted(other)) && k.owners == [None] && By(k.owners, 0) == 0
  {
    var p := JobParams(job);
    s := Solo(job, [None], [], Session(Start(p), NEW_COURIER));
    actions := TakenBefore(s, job, p, other);
    actions := RefusedAsTaken(s, actions, job, p, other);
    actions, k := Adopting(s, actions, job, p, other);
    ByOne([], None, 0);
    assert [] + [None] == k.owners;
  }

  lemma TakenBefore(s: State, job: Job, p: Params, other: Json) returns (actions: seq<Action>)
    requires s == Solo(job, [None], [], Session(Start(p), NEW_COURIER))
    ensures Exec(s, actions) == Some(Solo(job, [None, Some(other)], [None], Session(Start(p), NEW_COURIER)))
  {
    ExecOne(s, [], s, Foreign(Some(other)));
    actions := [] + [Foreign(Some(other))];
    assert Do(s, Foreign(Some(other))) == Solo(job, [None, Some(other)], [None], Session(Start(p), NEW_COURIER));
  }

  lemma RefusedAsTaken(s: State, actions: seq<Action>, job: Job, p: Params, other: Json) returns (actions': seq<Action>)
    requires p.size > 0 && p.postTries >= 0
    requires Exec(s, actions) == Some(Solo(job, [None, Some(other)], [None], Session(Start(p), NEW_COURIER)))
    ensures Exec(s, actions') == Some(At(job, other, p, Sending))
  {
    var taken := [None, Some(other)];
    var sent := SentWhole(p);
    actions' := SoloQuiet(s, actions, job, taken, [None], Session(Start(p), NEW_COURIER), sent);
    var refused := DuplicateRefused(p);
    var m := Machine(p, true, 0, Posting("", 0, 0));
    var x := Session(m, Courier(InFlight(true, p.size), false, 0));
    actions' := SoloQuiet(s, actions', job, taken, [None], x, refused);
  }

  lemma DuplicateRefused(p: Params) returns (moves: seq<Move>)
    ensures var x := Session(Machine(p, true, 0, Posting("", 0, 0)), Courier(InFlight(true, p.size), false, 0));
            Quiet(x, moves)
            && After(x, moves) == Session(Machine(p, true, 0, Over(Failed(AppFailure(DocumentExists)))), NEW_COURIER)
  {
    var m, refuse := Machine(p, true, 0, Posting("", 0, 0)), Serve(Refused(DocumentExists), Null);
    Then(Session(m, Courier(Served(p.size, Refused(DocumentExists), Null), false, 0)), Deliver, []);
    Then(Session(m, Courier(InFlight(true, p.size), false, 0)), refuse, [Deliver] + []);
    moves := [refuse] + ([Deliver] + []);
  }

  // The cluster with one call at a given stage.
  function At(job: Job, other: Json, p: Params, stage: Stage): State {
    State([None, Some(other)], [None],
          [Call(job, Machine(p, true, 0, Over(Failed(AppFailure(DocumentExists)))), stage, NEW_COURIER)])
  }

  lemma Adopting(s: State, actions: seq<Action>, job: Job, p: Params, other: Json)
    returns (actions': seq<Action>, k: State)
    requires job.readSize > 0 && job.tries >= 0
    requires Exec(s, actions) == Some(At(job, other, p, Sending))
    ensures Exec(s, actions') == Some(k) && k == At(job, other, p, Ended(Adopted(other)))
  {
    var r0, answer := ReadStart(job), Posted(job.readSize, Answered(Accepted, other));
    var r2 := r0.(started := true, phase := Posting("", 0, 0));
    var r3 := r2.(phase := Over(Done(other)));
    actions' := AtStep(s, actions, job, other, p, Sending, Turning(0), Checking(AppFailure(DocumentExists), r0));
    actions' := AtRead(s, actions', job, other, p, r0, Looked(true), r0.(phase := Resolving));
    actions' := AtRead(s, actions', job, other, p, r0.(phase := Resolving), Resolved(Hop("")), r2);
    actions' := AtRead(s, actions', job, other, p, r2, answer, r3);
    actions' := AtStep(s, actions', job, other, p, Checking(AppFailure(DocumentExists), r3), Turning(0),
                       Ended(Adopted(other)));
    k := At(job, other, p, Ended(Adopted(other)));
  }

  // One step of the follow-up read.
  lemma AtRead(s: State, actions: seq<Action>, job: Job, other: Json, p: Params, rm: Machine, e: Event, next: Machine)
    returns (actions': seq<Action>)
    requires Exec(s, actions) == Some(At(job, other, p, Checking(AppFailure(DocumentExists), rm)))
    requires Fits(rm, e) && Step(rm, e) == next
    requires e.Posted? ==> e.reply == Answered(Accepted, other)
    ensures Exec(s, actions') == Some(At(job, other, p, Checking(AppFailure(DocumentExists), next)))
  {
    var k := At(job, other, p, Checking(AppFailure(DocumentExists), rm));
    assert k.history[1] == Some(other);
    actions' := AtStep(s, actions, job, other, p, k.calls[0].stage, Check(0, e),
                       Checking(AppFailure(DocumentExists), next));
  }

  lemma AtStep(s: State, actions: seq<Action>, job: Job, other: Json, p: Params, from: Stage, a: Action, to: Stage)
    returns (actions': seq<Action>)
    requires Exec(s, actions) == Some(At(job, other, p, from))
    requires Enabled(At(job, other, p, from), a) && Do(At(job, other, p, from), a) == At(job, other, p, to)
    ensures Exec(s, actions') == Some(At(job, other, p, to))
  {
    ExecOne(s, actions, At(job, other, p, from), a);
    actions' := actions + [a];
  }
}
