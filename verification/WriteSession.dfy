/**
  One executeRouted call that carries a write, together with the network between
  the client and the servers.  A request may be served late, its answer may be
  lost, and a request the client has given up on may still be served afterwards
  (a stray).  The transport loop hands the same body reader to every attempt of
  a hop, so an attempt that follows one which read the body sends only the rest.

  Assumed of the servers: a refusal has no effect; ok is answered only by the
  exchange that committed; a command that arrives truncated is answered as
  malformed.
 */
module WriteSession {
  import opened Wrappers
  import opened Bounce
  import opened Json

  // `whole`: the server received the complete command.
  datatype Wire =
    | Idle
    | InFlight(whole: bool, taken: nat)
    | Served(taken: nat, verdict: Verdict, value: Json)

  // commits: how often a server executed this command.
  datatype Courier = Courier(wire: Wire, stray: bool, commits: nat)

  datatype Session = Session(m: Machine, c: Courier)

  datatype Move =
    | Local(e: Event)
    | Send(taken: nat)
    | Serve(verdict: Verdict, value: Json)
    | Deliver
    | Lose
    | ServeStray(commit: bool)

  const NEW_COURIER := Courier(Idle, false, 0)

  predicate CanMove(s: Session, mv: Move) {
    match mv
    case Local(e) => s.c.wire.Idle? && Fits(s.m, e) && (Sends(e) ==> e == Posted(0, Broken))
    case Send(taken) => s.c.wire.Idle? && s.m.phase.Posting? && s.m.phase.pos + taken <= s.m.p.size
    case Serve(verdict, _) => s.c.wire.InFlight? && (!s.c.wire.whole ==> verdict == Refused(Malformed))
    case Deliver => s.c.wire.Served? && Fits(s.m, Posted(s.c.wire.taken, Answered(s.c.wire.verdict, s.c.wire.value)))
    case Lose => !s.c.wire.Idle? && Fits(s.m, Posted(s.c.wire.taken, Lost))
    case ServeStray(_) => s.c.stray
  }

  // Does the server execute the command in this move?
  predicate Commits(mv: Move) {
    (mv.Serve? && mv.verdict.Accepted?) || (mv.ServeStray? && mv.commit)
  }

  function Apply(s: Session, mv: Move): Session
    requires CanMove(s, mv)
  {
    var c := s.c;
    match mv
    case Local(e) => s.(m := Step(s.m, e))
    case Send(taken) => s.(c := c.(wire := InFlight(s.m.phase.pos == 0 && taken == s.m.p.size, taken)))
    case Serve(verdict, value) =>
      s.(c := c.(wire := Served(c.wire.taken, verdict, value),
                 commits := c.commits + if verdict.Accepted? then 1 else 0))
    case Deliver =>
      Session(Step(s.m, Posted(c.wire.taken, Answered(c.wire.verdict, c.wire.value))), c.(wire := Idle))
    case Lose =>
      Session(Step(s.m, Posted(c.wire.taken, Lost)),
              c.(wire := Idle, stray := c.stray || (c.wire.InFlight? && c.wire.whole)))
    case ServeStray(commit) =>
      s.(c := c.(stray := false, commits := c.commits + if commit then 1 else 0))
  }

  // The machine event behind a move, if the client takes part in it.
  function MachineEvent(c: Courier, mv: Move): Option<Event> {
    match mv
    case Local(e) => Some(e)
    case Deliver =>
      if c.wire.Served? then Some(Posted(c.wire.taken, Answered(c.wire.verdict, c.wire.value))) else None
    case Lose => if c.wire.Idle? then None else Some(Posted(c.wire.taken, Lost))
    case _ => None
  }

  // Commits that happened or still can happen without a further send.
  ghost function Exposure(c: Courier): nat {
    c.commits + (if c.stray then 1 else 0) + (if c.wire.InFlight? && c.wire.whole then 1 else 0)
  }

  // Whether exposure is possible at all in a given client phase.
  ghost predicate Consistent(s: Session) {
    var m, c := s.m, s.c;
    && (m.p.size == 0 ==> c == NEW_COURIER)
    && (!c.wire.Idle? ==> m.phase.Posting? && m.phase.pos + c.wire.taken <= m.p.size)
    && (c.wire.InFlight? ==> (c.wire.whole <==> m.phase.pos == 0 && c.wire.taken == m.p.size))
    && (c.wire.Served? && c.wire.verdict.Accepted? ==>
          c.commits == 1 && m.phase.pos == 0 && c.wire.taken == m.p.size)
    && (c.wire.Served? && c.wire.verdict.Refused? && m.phase.pos > 0 ==> c.wire.verdict.code == Malformed)
    && match m.phase
       case Posting(_, _, pos) =>
         Exposure(c) == 0 || pos == m.p.size
         || (c.wire.InFlight? && c.wire.whole) || (c.wire.Served? && c.wire.verdict.Accepted?)
       case PostPause(_, _, pos) => Exposure(c) == 0 || pos == m.p.size
       case Over(Done(_)) => c.commits == 1
       case Over(Failed(f)) =>
         (f.AppFailure? && f.code != Malformed) || (m.p.postTries <= 0 && !f.TransportFailure?) ==> Exposure(c) == 0
       case _ => Exposure(c) == 0
  }

  ghost predicate Inv(s: Session) {
    WellFormed(s.m) && Exposure(s.c) <= 1 && Consistent(s)
  }

  // Start and every later phase reached without a send.
  lemma NewSession(m: Machine)
    requires WellFormed(m) && !m.phase.Posting? && !(m.phase.Over? && m.phase.outcome.Done?)
    ensures Inv(Session(m, NEW_COURIER))
  {
  }

  lemma {:induction false} MoveKeepsInv(s: Session, mv: Move)
    requires Inv(s) && CanMove(s, mv)
    ensures Inv(Apply(s, mv))
    ensures Apply(s, mv).m.p == s.m.p
  {
    match mv {
      case Local(e) => StepWellFormed(s.m, e);
      case Deliver => StepWellFormed(s.m, Posted(s.c.wire.taken, Answered(s.c.wire.verdict, s.c.wire.value)));
      case Lose => StepWellFormed(s.m, Posted(s.c.wire.taken, Lost));
      case _ =>
    }
  }
}
