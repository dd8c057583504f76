/**
  The two protocols built from routed commands, as the source writes them
  (crud.go, create_verify.go).  Each takes exactly the turns that the cluster
  models interleave.
 */
module Calls {
  import opened Wrappers
  import opened Json
  import opened Bounce
  import opened Client
  import opened Routing
  import VersionRetry
  import CreateVerify

  // readBody and encode: the marshaled commands; empty stands for a command
  // that cannot be built.
  datatype Work = Work(
    id: string,
    build: Json -> Option<VersionRetry.Detail>,
    readBody: seq<Byte>,
    encode: VersionRetry.Detail -> seq<Byte>)

  // The events of each command of a call.
  ghost function Commands(tapes: seq<Tape>): seq<seq<Event>> {
    if tapes == [] then [] else Commands(tapes[..|tapes| - 1]) + [tapes[|tapes| - 1].events]
  }

  // Even commands read through a read member; odd ones send, to the write
  // member, the patch built from what the read before them answered.
  ghost predicate ReadsAndPatches(c: SmartClient, w: Work, tapes: seq<Tape>) {
    forall i :: 0 <= i < |tapes| ==> InPlace(c, w, tapes, i)
  }

  ghost predicate InPlace(c: SmartClient, w: Work, tapes: seq<Tape>, i: nat)
    requires i < |tapes|
  {
    if i % 2 == 0 then Reads(c, w, tapes[i]) else Patches(c, w, tapes[i - 1], tapes[i])
  }

  ghost predicate Reads(c: SmartClient, w: Work, read: Tape) {
    read.order == Order(Start(c.Params(|w.readBody|)), w.readBody, ByDocument(w.id, ReadRoute))
  }

  ghost predicate Patches(c: SmartClient, w: Work, read: Tape, patch: Tape) {
    && read.now.phase.Over? && read.now.phase.outcome.Done?
    && var detail := w.build(read.now.phase.outcome.value);
       && detail.Some?
       && patch.order
          == Order(Start(c.Params(|w.encode(detail.value)|)), w.encode(detail.value), ByDocument(w.id, WriteRoute))
  }

  // One more command of a call.
  lemma OneMore(c: SmartClient, w: Work, tapes: seq<Tape>, st: VersionRetry.Stage, t: Tape)
    requires VersionRetry.Replay(PatchJob(c, w), Commands(tapes)) == Some(st) && !st.GaveUp?
    requires t.order.start == VersionRetry.MachineOf(st)
    ensures VersionRetry.Replay(PatchJob(c, w), Commands(tapes + [t]))
            == Some(VersionRetry.Turn(PatchJob(c, w), VersionRetry.WithMachine(st, t.now)))
  {
    assert (tapes + [t])[..|tapes|] == tapes;
    TapeRuns(t);
    VersionRetry.ReplayOne(PatchJob(c, w), Commands(tapes), st, t.events, t.now);
  }

  lemma InTurn(c: SmartClient, w: Work, tapes: seq<Tape>, t: Tape)
    requires ReadsAndPatches(c, w, tapes)
    requires if |tapes| % 2 == 0 then Reads(c, w, t) else Patches(c, w, tapes[|tapes| - 1], t)
    ensures ReadsAndPatches(c, w, tapes + [t])
  {
    forall i | 0 <= i < |tapes| + 1 ensures InPlace(c, w, tapes + [t], i) {
      if i < |tapes| { assert InPlace(c, w, tapes, i); }
    }
  }

  // Read and Patch, as the commands of such a call.
  method CommandOf(c: SmartClient, net: Network, w: Work, body: seq<Byte>, resolver: Resolver,
                   ghost before: seq<Tape>, ghost st: VersionRetry.Stage)
    returns (o: Outcome, ghost tapes: seq<Tape>, ghost st': VersionRetry.Stage)
    requires c.Valid() && !resolver.NoResolver?
    requires VersionRetry.Replay(PatchJob(c, w), Commands(before)) == Some(st) && !st.GaveUp?
    requires VersionRetry.MachineOf(st) == Start(c.Params(|body|))
    modifies c, net
    ensures c.Valid() && net.tape.order == Order(Start(c.Params(|body|)), body, resolver)
    ensures net.tape.now.phase == Over(o) && tapes == before + [net.tape]
    ensures VersionRetry.Replay(PatchJob(c, w), Commands(tapes)) == Some(st')
    ensures st' == VersionRetry.Turn(PatchJob(c, w), VersionRetry.WithMachine(st, net.tape.now))
  {
    o := c.Command(net, body, resolver);
    OneMore(c, w, before, st, net.tape);
    tapes, st' := before + [net.tape], VersionRetry.Turn(PatchJob(c, w), VersionRetry.WithMachine(st, net.tape.now));
  }

  // The patch that t is found its version outdated.
  ghost predicate Outdated(t: Tape) {
    t.now.phase == Over(Failed(AppFailure(VersionMismatch)))
  }

  // What the last command of a call, and the build after a last read, come to.
  ghost predicate Reports(w: Work, tapes: seq<Tape>, r: VersionRetry.Result)
    requires tapes != []
  {
    var last := tapes[|tapes| - 1].now.phase;
    && last.Over?
    && if last.outcome.Failed? then r == VersionRetry.CommandError(last.outcome.failure)
       else if |tapes| % 2 == 1 then r == VersionRetry.BuildError && w.build(last.outcome.value).None?
       else r == VersionRetry.Patched(last.outcome.value)
  }

  // Read, build, patch.  `retry`: the patch found its version outdated.
  method ReadAndPatch(c: SmartClient, net: Network, w: Work, again: bool, ghost before: seq<Tape>)
    returns (r: VersionRetry.Result, retry: bool, ghost tapes: seq<Tape>, ghost st: VersionRetry.Stage)
    requires c.Valid() && |before| == (if again then 2 else 0) && ReadsAndPatches(c, w, before)
    requires VersionRetry.Replay(PatchJob(c, w), Commands(before))
             == Some(VersionRetry.Reading(again, VersionRetry.ReadStart(PatchJob(c, w))))
    modifies c, net
    ensures c.Valid() && ReadsAndPatches(c, w, tapes)
    ensures VersionRetry.Replay(PatchJob(c, w), Commands(tapes)) == Some(st)
    ensures if retry && !again then
            |tapes| == 2 && st == VersionRetry.Reading(true, VersionRetry.ReadStart(PatchJob(c, w)))
            else VersionRetry.Returned(PatchJob(c, w), st, r)
    ensures before < tapes && |tapes| <= |before| + 2 && Reports(w, tapes, r)
    ensures retry <==> |tapes| == |before| + 2 && Outdated(tapes[|tapes| - 1])
  {
    st := VersionRetry.Reading(again, VersionRetry.ReadStart(PatchJob(c, w)));
    var read;
    read, tapes, st := CommandOf(c, net, w, w.readBody, ByDocument(w.id, ReadRoute), before, st);
    InTurn(c, w, before, net.tape);
    if read.Failed? { return VersionRetry.CommandError(read.failure), false, tapes, st; }
    var detail := w.build(read.value);
    if detail.None? { return VersionRetry.BuildError, false, tapes, st; }
    ghost var sofar := tapes;
    var patch;
    patch, tapes, st := CommandOf(c, net, w, w.encode(detail.value), ByDocument(w.id, WriteRoute), tapes, st);
    InTurn(c, w, sofar, net.tape);
    if patch.Done? { return VersionRetry.Patched(patch.value), false, tapes, st; }
    return VersionRetry.CommandError(patch.failure), patch.failure == AppFailure(VersionMismatch), tapes, st;
  }

  // PatchWithVersionRetry: once more after a version mismatch, and no more.
  method PatchWithVersionRetry(c: SmartClient, net: Network, w: Work)
    returns (r: VersionRetry.Result, ghost tapes: seq<Tape>, ghost st: VersionRetry.Stage)
    requires c.Valid()
    modifies c, net
    ensures c.Valid() && ReadsAndPatches(c, w, tapes)
    ensures VersionRetry.Replay(PatchJob(c, w), Commands(tapes)) == Some(st)
    ensures VersionRetry.Returned(PatchJob(c, w), st, r)
    ensures 1 <= |tapes| <= 4 && Reports(w, tapes, r)
    ensures |tapes| > 2 <==> |tapes| >= 2 && Outdated(tapes[1])
  {
    var retry;
    r, retry, tapes, st := ReadAndPatch(c, net, w, false, []);
    if retry {
      r, retry, tapes, st := ReadAndPatch(c, net, w, true, tapes);
    }
  }

  ghost function PatchJob(c: SmartClient, w: Work): VersionRetry.Job {
    VersionRetry.Job(w.build, |w.readBody|, d => |w.encode(d)|, c.wmRetries, c.trRetries)
  }

  // executeCreate, with the follow-up read after a duplicate id or a lost
  // answer.  `sent` is the create; `read` the follow-up read, or one not begun.
  method ExecuteCreate(c: SmartClient, net: Network, id: string, body: seq<Byte>, readBody: seq<Byte>, delay: int,
                       ghost content: Json)
    returns (r: CreateVerify.CreateResult, ghost sent: Tape, ghost canceled: bool, ghost read: Tape,
             ghost waited: nat)
    requires c.Valid()
    modifies c, net
    ensures c.Valid()
    ensures sent.order == Order(Start(c.Params(|body|)), body, ByDocument(id, WriteRoute))
    ensures read.order == Order(Start(c.Params(|readBody|)), readBody, ByDocument(id, ReadRoute))
    ensures var job := CreateVerify.Job(content, |body|, |readBody|, c.wmRetries, c.trRetries, delay);
            && CreateVerify.Course(job, sent.now, canceled, read.now) == CreateVerify.Ended(r)
            && (read.events != [] <==> CreateVerify.LooksForDocument(job, sent.now, canceled))
    ensures waited == if sent.now.started && sent.now.phase == Over(Failed(TransportFailure)) && delay >= 0
                      then (if delay == 0 then 3000 else delay) else 0
  {
    canceled, waited := false, 0;
    read := Fresh(Order(Start(c.Params(|readBody|)), readBody, ByDocument(id, ReadRoute)));
    var initial := c.Prepare(net, body, ByDocument(id, WriteRoute));
    sent := net.tape;
    if initial.Failure? { return CreateVerify.Rejected(initial.error), sent, canceled, read, waited; }
    var created := c.ExecuteRouted(net, initial.value, body, ByDocument(id, WriteRoute));
    sent := net.tape;
    if created.Done? { return CreateVerify.Created(created.value), sent, canceled, read, waited; }
    var err := created.failure;
    if err == AppFailure(DocumentExists) {
    } else if err == TransportFailure {
      if CreateVerify.VerifyDelay(delay) > 0 {
        var stopped;
        stopped, waited := net.Wait(CreateVerify.VerifyDelay(delay));
        canceled := stopped;
        if stopped { return CreateVerify.Rejected(err), sent, canceled, read, waited; }
      }
    } else {
      return CreateVerify.Rejected(err), sent, canceled, read, waited;
    }
    var found := c.Command(net, readBody, ByDocument(id, ReadRoute));
    read := net.tape;
    TapeRuns(read);
    r := if found.Done? then CreateVerify.Adopted(found.value) else CreateVerify.Rejected(err);
  }
}
