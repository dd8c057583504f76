/** Routed uploads and downloads (files.go): the same bounce machine twice more. */
module Files {
  import opened Wrappers
  import opened Json
  import opened Bounce
  import opened Client
  import Costs

  // No transport retries around a POST here; the establish GETs still have them.
  function FileParams(c: SmartClient, size: nat): Params {
    Params(c.wmRetries, 0, c.trRetries, size)
  }

  // An upload or download as it begins; body is all an attempt has to send.
  function FileOrder(c: SmartClient, initial: string, body: seq<Byte>, resolver: Resolver): Order {
    Order(StartRouted(FileParams(c, |body|), if initial == "" then c.cfg.establishmentURL else initial), body, resolver)
  }

  /* ---- uploads ---- */

  // The caller's body: a seekable reader, or one whose content can be opened
  // anew.  Either may have been read from before.
  class Upload {
    const source: Reader
    const reopens: bool

    constructor (source: Reader, reopens: bool)
      ensures this.source == source && this.reopens == reopens
    {
      this.source, this.reopens := source, reopens;
    }

    // openUploadBody: the reader the next attempt copies from, where it stands.
    method Open(works: bool) returns (body: Option<Reader>)
      modifies source`pos
      ensures body.Some? <==> works
      ensures body.Some? ==> body.value.data == source.data && body.value.pos == 0
      ensures body.Some? ==> if reopens then fresh(body.value) else body.value == source
      ensures reopens || !works ==> source.pos == old(source.pos)
    {
      if !works { return None; }
      if reopens {
        var copy := new Reader(source.data);
        return Some(copy);
      }
      source.pos := 0;
      return Some(source);
    }
  }

  // One multipart POST: the command part, then whatever the opened body has left.
  // Without a body the request breaks off after the command part.
  method DoMultipart(net: Network, base: string, command: seq<Byte>, up: Upload) returns (r: JsonResult<Answer>)
    requires net.tape.order.body == command + up.source.data
    requires net.tape.now.p.size == |net.tape.order.body| && net.tape.now.p.postTries == 0
    requires net.tape.now.phase == Posting(base, 0, 0)
    modifies net, up.source`pos
    ensures net.tape.order == old(net.tape.order)
    ensures net.tape.now == AfterPost(old(net.tape.now), r)
    ensures r.Res? ==> net.Said(r.res)
    ensures r.Err? ==> !r.failure.AppFailure?
  {
    var got := up.Open(net.opens(net.clock));
    if got.None? {
      net.Happened(Aborted);
      return Err(TransportFailure);
    }
    var body := got.value;
    var reader := new Reader(command + body.data[body.pos..]);
    var wire := net.Post(base, reader);
    if reader.pos > |command| { body.pos := body.pos + (reader.pos - |command|); }
    match wire {
      case Replied(res) => return Res(res);
      case PostBroken => return Err(LocalFailure);
      case PostLost => return Err(TransportFailure);
    }
  }

  // One attempt of an upload: how it ends, or that it bounced.  `answer` is what
  // the attempt was answered, if it was.
  method UploadHop(c: SmartClient, net: Network, base: string, command: seq<Byte>, up: Upload, attempt: nat)
    returns (o: Option<Outcome>, ghost answer: Option<Answer>)
    requires net.tape.order.body == command + up.source.data && |command| > 0
    requires net.tape.now.p == FileParams(c, |net.tape.order.body|) && net.tape.now == EnterPost(net.tape.now, base)
    requires net.tape.now.bounced == attempt <= c.wmRetries
    modifies net, up.source`pos
    ensures net.tape.order == old(net.tape.order) && net.tape.now.p == old(net.tape.now.p) && net.tape.now.started
    ensures o.Some? ==> net.tape.now.phase == Over(o.value)
    ensures o.None? ==> attempt < c.wmRetries && net.tape.now == EnterGet(net.tape.now)
                        && net.tape.now.bounced == attempt + 1
    ensures answer.Some? ==> Judges(answer.value, attempt < c.wmRetries, o) && net.Said(answer.value)
    ensures answer.None? ==> o in {Some(Failed(TransportFailure)), Some(Failed(LocalFailure))}
  {
    var r := DoMultipart(net, base, command, up);
    answer := if r.Res? then Some(r.res) else None;
    if r.Err? { return Some(Failed(r.failure)), answer; }
    if r.res.ok { return Some(Done(r.res.value)), answer; }
    var code := AppCode(r.res);
    if code != WrongMachine { return Some(Failed(AppFailure(code))), answer; }
    if attempt == c.wmRetries { return Some(Failed(AppFailure(WrongMachine))), answer; }
    return None, answer;
  }

  // executeRoutedMultipart
  method ExecuteRoutedMultipart(c: SmartClient, net: Network, initial: string, command: seq<Byte>, up: Upload,
                                resolver: Resolver)
    returns (o: Outcome)
    requires c.Valid() && |command| > 0
    modifies c, net, up.source`pos
    ensures c.Valid()
    ensures net.tape.order == FileOrder(c, initial, command + up.source.data, resolver) && net.tape.now.phase == Over(o)
  {
    var base := if initial == "" then c.cfg.establishmentURL else initial;
    ghost var body := command + up.source.data;
    net.Begin(FileOrder(c, initial, body, resolver));
    o := Failed(AppFailure(Unknown));
    var attempt := 0;
    while attempt <= c.wmRetries
      invariant c.Valid() && net.tape.order == FileOrder(c, initial, body, resolver)
      invariant net.tape.now.p == FileParams(c, |body|)
      invariant net.tape.now == EnterPost(net.tape.now, base) && net.tape.now.bounced == attempt <= c.wmRetries
    {
      var over, answer := UploadHop(c, net, base, command, up, attempt);
      if over.Some? { return over.value; }
      var next := c.Rebound(net, resolver);
      if next.Failure? { return Failed(next.error); }
      base := next.value;
      attempt := attempt + 1;
    }
    assert false;
  }

  /* ---- downloads ---- */

  // Where the file goes.  hooks counts OnResponse calls, hookedAt is how much
  // had been written when the last one ran.
  class Sink {
    const hooked: bool
    var data: seq<Byte>
    var hooks: nat
    var hookedAt: nat

    method OnResponse()
      requires hooked
      modifies this
      ensures data == old(data) && hooks == old(hooks) + 1 && hookedAt == |data|
    {
      hooks, hookedAt := hooks + 1, |data|;
    }

    method Copy(bytes: seq<Byte>)
      modifies this`data
      ensures data == old(data) + bytes
    {
      data := data + bytes;
    }
  }

  datatype DownloadResult = Streamed | Enveloped(res: Answer) | Broke(failure: Failure)

  function AfterDownload(m: Machine, r: DownloadResult): Machine {
    match r
    case Streamed => OnPosted(m, "", 0, 0, Answered(Accepted, Void))
    case Enveloped(res) => OnPosted(m, "", 0, 0, Answered(Refused(AppCode(res)), res.value))
    case Broke(f) => Fail(m, f)
  }

  // An answer that is an application error or an unexpected success: no file, read
  // and decoded, and outside 2xx only if it says what is wrong.
  predicate Described(a: FileAnswer)
    requires a.Response?
  {
    && a.status != 206 && !(a.status == 200 && a.fileHeaders)
    && a.readOk && a.decoded.Some?
    && (200 <= a.status < 300 || !a.decoded.value.ok || a.decoded.value.codes != [])
  }

  // What each kind of answer leads to.
  ghost predicate Treated(a: FileAnswer, hooked: bool, r: DownloadResult) {
    match a
    case NoResponse(local) => r == Broke(if local then LocalFailure else TransportFailure)
    case Response(status, fileHeaders, _, _, copyOk, hookOk, _, decoded) =>
      if status == 206 || (status == 200 && fileHeaders) then
        r == if hooked && !hookOk then Broke(LocalFailure) else if !copyOk then Broke(TransportFailure) else Streamed
      else if Described(a) then r == Enveloped(decoded.value)
      else r == Broke(TransportFailure)
  }

  // Only a file's bytes are written, as far as copying got; none if OnResponse
  // objects.
  ghost predicate Written(a: FileAnswer, hooked: bool, before: seq<Byte>, after: seq<Byte>) {
    if a.Response? && (a.status == 206 || (a.status == 200 && a.fileHeaders)) && (hooked ==> a.hookOk) then
      if a.copyOk || a.copied > |a.body| then after == before + a.body else after == before + a.body[..a.copied]
    else after == before
  }

  // A file, and all of it.
  ghost predicate Complete(a: FileAnswer, before: seq<Byte>, after: seq<Byte>) {
    a.Response? && (a.status == 206 || (a.status == 200 && a.fileHeaders)) && a.copyOk && after == before + a.body
  }

  // doFileDownloadOnce, field by field of the answer.
  method DoFileDownloadOnce(net: Network, base: string, w: Sink) returns (r: DownloadResult)
    requires net.tape.now.phase == Posting(base, 0, 0)
    requires net.tape.now.p.size == |net.tape.order.body| && net.tape.now.p.postTries == 0
    modifies net, w
    ensures net.tape.order == old(net.tape.order)
    ensures net.tape.now == AfterDownload(old(net.tape.now), r) && net.clock == old(net.clock) + 1
    ensures Treated(net.files(old(net.clock)), w.hooked, r)
    ensures Written(net.files(old(net.clock)), w.hooked, old(w.data), w.data)
    ensures r.Streamed? ==> Complete(net.files(old(net.clock)), old(w.data), w.data)
    ensures w.hooks == old(w.hooks) || (w.hooks == old(w.hooks) + 1 && w.hookedAt == |old(w.data)|)
    ensures w.hooks > old(w.hooks) <==>
              && net.files(old(net.clock)).Response? && w.hooked
              && (net.files(old(net.clock)).status == 206
                  || (net.files(old(net.clock)).status == 200 && net.files(old(net.clock)).fileHeaders))
  {
    var a := net.files(net.clock);
    ghost var all := |net.tape.order.body|;
    if a.NoResponse? {
      net.Happened(Posted(all, if a.local then Broken else Lost));
      return Broke(if a.local then LocalFailure else TransportFailure);
    }
    if a.status == 206 || (a.status == 200 && a.fileHeaders) {
      if w.hooked {
        w.OnResponse();
        if !a.hookOk {
          net.Happened(Posted(all, Broken));
          return Broke(LocalFailure);
        }
      }
      w.Copy(if a.copyOk || a.copied > |a.body| then a.body else a.body[..a.copied]);
      if !a.copyOk {
        net.Happened(Posted(all, Lost));
        return Broke(TransportFailure);
      }
      net.Happened(Posted(all, Answered(Accepted, Void)));
      return Streamed;
    }
    if a.readOk && a.decoded.Some? && (200 <= a.status < 300 || !a.decoded.value.ok || a.decoded.value.codes != []) {
      var res := a.decoded.value;
      net.Happened(Posted(all, Answered(Refused(AppCode(res)), res.value)));
      return Enveloped(res);
    }
    net.Happened(Posted(all, Lost));
    return Broke(TransportFailure);
  }

  // One attempt of a download: how it ends, or that it bounced.
  method DownloadHop(c: SmartClient, net: Network, base: string, w: Sink, attempt: nat) returns (o: Option<Outcome>)
    requires |net.tape.order.body| > 0
    requires net.tape.now.p == FileParams(c, |net.tape.order.body|) && net.tape.now == EnterPost(net.tape.now, base)
    requires net.tape.now.bounced == attempt <= c.wmRetries
    modifies net, w
    ensures net.tape.order == old(net.tape.order) && net.tape.now.p == old(net.tape.now.p) && net.tape.now.started
    ensures o.Some? ==> net.tape.now.phase == Over(o.value)
    ensures o.None? ==> attempt < c.wmRetries && net.tape.now == EnterGet(net.tape.now)
                        && net.tape.now.bounced == attempt + 1
    ensures net.clock == old(net.clock) + 1
    ensures o.Some? && o.value.Done? ==> Complete(net.files(old(net.clock)), old(w.data), w.data)
    ensures var a := net.files(old(net.clock));
            a.Response? && Described(a) ==> Judges(a.decoded.value.(ok := false), attempt < c.wmRetries, o)
    ensures Written(net.files(old(net.clock)), w.hooked, old(w.data), w.data)
    ensures w.hooks == old(w.hooks) || (w.hooks == old(w.hooks) + 1 && w.hookedAt == |old(w.data)|)
    ensures w.hooks == old(w.hooks) + 1 || w.data != old(w.data) ==>
              && o.Some?
              && var a := net.files(old(net.clock));
                 a.Response? && (a.status == 206 || (a.status == 200 && a.fileHeaders))
    ensures o.Some? && o.value.Done? && w.hooked ==> w.hooks == old(w.hooks) + 1
  {
    var r := DoFileDownloadOnce(net, base, w);
    if r.Broke? { return Some(Failed(r.failure)); }
    if r.Streamed? { return Some(Done(Void)); }
    var code := AppCode(r.res);
    if code != WrongMachine { return Some(Failed(AppFailure(code))); }
    if attempt == c.wmRetries { return Some(Failed(AppFailure(WrongMachine))); }
    return None;
  }

  // executeRoutedFileDownload.  The writer receives bytes of one answer only,
  // the last, and only of a file; on success it is the whole file; OnResponse
  // runs at most once and before the first byte.
  method ExecuteRoutedFileDownload(c: SmartClient, net: Network, initial: string, command: seq<Byte>, w: Sink,
                                   resolver: Resolver)
    returns (o: Outcome)
    requires c.Valid() && |command| > 0
    modifies c, net, w
    ensures c.Valid()
    ensures net.tape.order == FileOrder(c, initial, command, resolver) && net.tape.now.phase == Over(o)
    ensures w.data != old(w.data) || w.hooks != old(w.hooks) || o.Done? ==>
              && net.clock > 0
              && var a := net.files(net.clock - 1);
                 && a.Response? && (a.status == 206 || (a.status == 200 && a.fileHeaders))
                 && Written(a, w.hooked, old(w.data), w.data)
    ensures w.hooks == old(w.hooks) || (w.hooks == old(w.hooks) + 1 && w.hookedAt == |old(w.data)|)
    ensures o.Done? ==> net.clock > 0 && Complete(net.files(net.clock - 1), old(w.data), w.data)
    ensures o.Done? && w.hooked ==> w.hooks == old(w.hooks) + 1
  {
    var base := if initial == "" then c.cfg.establishmentURL else initial;
    net.Begin(FileOrder(c, initial, command, resolver));
    o := Failed(AppFailure(Unknown));
    var attempt := 0;
    while attempt <= c.wmRetries
      invariant c.Valid() && net.tape.order == FileOrder(c, initial, command, resolver)
      invariant net.tape.now.p == FileParams(c, |command|)
      invariant net.tape.now == EnterPost(net.tape.now, base) && net.tape.now.bounced == attempt <= c.wmRetries
      invariant w.data == old(w.data) && w.hooks == old(w.hooks)
    {
      var over := DownloadHop(c, net, base, w, attempt);
      if over.Some? { return over.value; }
      var next := c.Rebound(net, resolver);
      if next.Failure? { return Failed(next.error); }
      base := next.value;
      attempt := attempt + 1;
    }
    assert false;
  }

  // In both, every POST starts at the beginning of what it has to send.
  lemma {:induction false} EveryFilePostIsWhole(c: SmartClient, initial: string, body: seq<Byte>, resolver: Resolver,
                                                t: Tape, i: nat)
    requires t.order == FileOrder(c, initial, body, resolver)
    requires i < |t.events| && t.events[i].Posted?
    ensures t.offered[i] == body
  {
    FirstPostIsWhole(t.order.start, t.events, t.offered, body, t.now, i);
  }

  // What a finished upload or download cost: one POST a hop, and no pauses
  // between POSTs.
  lemma {:induction false} FileCost(c: SmartClient, initial: string, body: seq<Byte>, resolver: Resolver, t: Tape)
    requires t.order == FileOrder(c, initial, body, resolver) && t.now.phase.Over?
    ensures Costs.Posts(t.events) <= c.wmRetries + 1
    ensures Costs.Fetches(t.events) <= c.wmRetries * Costs.Attempts(c.trRetries)
    ensures Costs.SleptMs(t.order.start, t.events, true) == 0
    ensures Costs.SleptMs(t.order.start, t.events, false) <= c.wmRetries * Costs.Backoffs(c.trRetries)
  {
    TapeRuns(t);
    var base := if initial == "" then c.cfg.establishmentURL else initial;
    Costs.RoutedCost(FileParams(c, |body|), base, t.events, t.now);
    Costs.WithoutPostRetries(FileParams(c, |body|), base, t.events, t.now);
  }
}
