/**
 * The POST handler in the source's own form: shared maps and sessions updated in place, a chunk loop, early
 * returns. Run alone it does exactly what the transition system says its events do; what other transfers may
 * do in between is covered by `UploadIsolation`.
 */
module Server {
  import opened Prelude
  import opened StagedFile
  import opened Checksum
  import opened Session
  import opened ContentRange
  import opened Filename
  import opened SafePath
  import opened Upload
  import opened UploadScript

  /** Signals sent by other parties through their handle on the session. */
  method DeliverAll(session: TransferSession, signals: seq<Signal>)
    modifies session
    ensures session.State() == ApplyAll(old(session.State()), signals)
  {
    var k := 0;
    while k < |signals|
      invariant 0 <= k <= |signals|
      invariant ApplyAll(session.State(), signals[k..]) == ApplyAll(old(session.State()), signals)
    {
      session.Deliver(signals[k]);
      assert signals[k..][1..] == signals[k + 1..];
      k := k + 1;
    }
  }

  /** The sleeping loop: it ends when the flag is seen down, and the signal that ends a wait is a resume. */
  method AwaitResume(session: TransferSession, asleep: seq<Signal>)
    modifies session
    ensures session.State() == ApplyAll(old(session.State()), asleep).Apply(Resume)
  {
    var k := 0;
    while session.paused || k < |asleep|
      invariant 0 <= k <= |asleep| + 1
      invariant k <= |asleep| ==> ApplyAll(session.State(), asleep[k..]) == ApplyAll(old(session.State()), asleep)
      invariant k > |asleep| ==> session.State() == ApplyAll(old(session.State()), asleep).Apply(Resume)
      decreases |asleep| + 1 - k
    {
      if k < |asleep| {
        session.Deliver(asleep[k]);
        assert asleep[k..][1..] == asleep[k + 1..];
      } else {
        assert asleep[k..] == [];
        session.Deliver(Resume);
      }
      k := k + 1;
    }
    assert k <= |asleep| ==> asleep[k..] == [];
  }

  /**
   * The open staging file. It writes behind: `queue` has been accepted and belongs at `cursor`, but is not in the
   * file yet.
   */
  class PartFile {
    var cursor: nat
    var queue: Bytes

    constructor (cursor: nat)
      ensures this.cursor == cursor && queue == []
    {
      this.cursor, queue := cursor, [];
    }
  }

  /** How opening a transfer ends: with an answer, or with all that its chunk loop works on. */
  datatype Opening = Refused(reply: Reply) | Ready(session: TransferSession, hasher: Sha256Hasher, file: PartFile)

  function RequestOf(h: Handler): Request {
    Request(h.target, h.total, h.expected, h.resume)
  }

  /** The handler after up to `n` pending bytes have landed. */
  function AfterLanding(h: Handler, n: nat): Handler {
    h.(pending := |h.Tail()| - if n < |h.Tail()| then n else |h.Tail()|)
  }

  /** The handler after the file accepted `chunk`. */
  function TookIn(h: Handler, chunk: Bytes): Handler {
    var h' := if chunk == [] then h else AfterLanding(h, |h.Tail()|);
    h'.(fed := h.fed + chunk, pending := h'.pending + |chunk|,
        written := AddU64(h.written, |chunk|), stage := Receiving)
  }

  lemma LandingKeepsStage(h: Handler, n: nat)
    ensures AfterLanding(h, n) == h.(pending := AfterLanding(h, n).pending)
  {
  }

  /** Accepting a chunk after what was pending has landed is what the transition system calls a write. */
  lemma AcceptedIsWritten(w: World, v: World, id: Uuid, chunk: Bytes, h: Handler, h1: Handler)
    requires w.live == map[id := h] && v.live == map[id := h1] && Running(w, id) && Running(v, id)
    requires chunk == [] ==> v == w && h1 == h
    requires chunk != [] ==> v == DoLand(w, id, |h.Tail()|) && h1 == AfterLanding(h, |h.Tail()|)
    ensures var h' := TookIn(h, chunk);
            && h' == h1.(fed := h1.fed + chunk, pending := h1.pending + |chunk|,
                         written := AddU64(h1.written, |chunk|), stage := Receiving)
            && DoWrite(w, id, chunk) ==
               v.(sessions := v.sessions[id := v.sessions[id].AddBytes(|chunk|)], live := map[id := h'])
  {
    hide DoLand, AddU64;
  }

  class Server {
    const cfg: Config
    var staging: map<Uuid, Bytes>
    var received: map<Path, Bytes>
    var sessions: map<Uuid, TransferSession>
    ghost var log: seq<Entry>

    constructor (cfg: Config, staging: map<Uuid, Bytes>, received: map<Path, Bytes>)
      ensures this.cfg == cfg
      ensures View(map[]) == World(staging, received, map[], map[], [])
    {
      this.cfg, this.staging, this.received := cfg, staging, received;
      sessions, log := map[], [];
    }

    ghost function SessionStates(): map<Uuid, SessionState>
      reads this, sessions.Values
    {
      map id | id in sessions :: sessions[id].State()
    }

    /** The world this server is in while `live` handlers are running. */
    ghost function View(live: map<Uuid, Handler>): World
      reads this, sessions.Values
    {
      World(staging, received, SessionStates(), live, log)
    }

    /** The handler `h` of `id` waits for its next chunk, and its file object stands where `h` says. */
    ghost predicate Serving(id: Uuid, session: TransferSession, hasher: Sha256Hasher, file: PartFile, h: Handler)
      reads this, sessions.Values, session, hasher, file
    {
      && id in staging && id in sessions && sessions[id] == session
      && (forall other :: other in sessions && other != id ==> sessions[other] != session)
      && hasher.sha == cfg.sha && hasher.fed == h.fed
      && h.pending <= |h.fed| && file.cursor == h.resume + h.Landed() && file.queue == h.Tail()
      && h.stage.Receiving?
    }

    /** Up to `n` accepted bytes reach the staging file. */
    method LandBytes(id: Uuid, file: PartFile, n: nat, ghost h: Handler)
      requires id in staging && h.pending <= |h.fed|
      requires file.cursor == h.resume + h.Landed() && file.queue == h.Tail()
      requires id in sessions
      modifies this`staging, file
      ensures id in staging && View(map[id := AfterLanding(h, n)]) == DoLand(old(View(map[id := h])), id, n)
      ensures var h' := AfterLanding(h, n);
              h'.pending <= |h'.fed| && file.cursor == h'.resume + h'.Landed() && file.queue == h'.Tail()
    {
      hide WriteAt;
      var k := if n < |file.queue| then n else |file.queue|;
      assert h.Tail() + [] == h.Tail() && h.Tail()[..|h.Tail()|] == h.Tail();
      staging := staging[id := WriteAt(staging[id], file.cursor, file.queue[..k])];
      file.cursor, file.queue := file.cursor + k, file.queue[k..];
      assert SessionStates() == old(SessionStates());
      assert map[id := h][id := AfterLanding(h, n)] == map[id := AfterLanding(h, n)];
    }

    /** Signals reach the session of `id`, and accepted bytes its file; nothing else in the world changes. */
    method Listen(id: Uuid, session: TransferSession, hasher: Sha256Hasher, file: PartFile,
                  signals: seq<Signal>, landing: nat, ghost h: Handler)
      returns (ghost h': Handler)
      requires Serving(id, session, hasher, file, h)
      modifies this`staging, session, file
      ensures View(map[id := h']) == Meanwhile(old(View(map[id := h])), id, signals, landing)
      ensures Serving(id, session, hasher, file, h') && h' == h.(pending := h'.pending)
      ensures session.State() == ApplyAll(old(session.State()), signals)
    {
      hide ApplyAll, DoLand;
      DeliverAll(session, signals);
      assert SessionStates() == old(SessionStates())[id := session.State()];
      LandBytes(id, file, landing, h);
      h' := AfterLanding(h, landing);
    }

    /** Waits while paused. */
    method Wait(id: Uuid, session: TransferSession, hasher: Sha256Hasher, file: PartFile,
                asleep: seq<Signal>, ghost h: Handler)
      requires Serving(id, session, hasher, file, h)
      modifies session
      ensures View(map[id := h]) ==
              SetSession(old(View(map[id := h])), id, ApplyAll(old(session.State()), asleep).Apply(Resume))
    {
      hide ApplyAll;
      AwaitResume(session, asleep);
      assert SessionStates() == old(SessionStates())[id := session.State()];
    }

    /** Answers: the session goes unless it is kept, and with it the partial file if it is to be dropped. */
    method Finish(id: Uuid, reply: Reply, dropPart: bool, keepSession: bool, ghost h: Handler)
      modifies this
      ensures View(map[]) ==
              Close(old(View(map[id := h])), id, reply, if dropPart then None else Get(old(staging), id), keepSession)
      ensures log == old(log) + [Replied(id, reply)]
      ensures sessions == if keepSession then old(sessions) else old(sessions) - {id}
    {
      if !keepSession {
        sessions := sessions - {id};
      }
      if dropPart {
        staging := staging - {id};
      }
      log := log + [Replied(id, reply)];
      assert SessionStates() == if keepSession then old(SessionStates()) else old(SessionStates()) - {id};
      assert map[id := h] - {id} == map[];
      assert id in old(staging) ==> old(staging) == old(staging)[id := old(staging)[id]];
      assert id !in old(staging) ==> old(staging) == old(staging) - {id};
    }

    /** Hashes a chunk, hands it to a file that is done with what it had, and counts it. */
    method AcceptChunk(id: Uuid, session: TransferSession, hasher: Sha256Hasher, file: PartFile,
                       chunk: Bytes, ghost h: Handler)
      returns (ghost h': Handler)
      requires Serving(id, session, hasher, file, h)
      modifies session, hasher, file
      ensures h' == h.(fed := h.fed + chunk, pending := h.pending + |chunk|,
                       written := AddU64(h.written, |chunk|), stage := Receiving)
      ensures var w := old(View(map[id := h]));
              View(map[id := h']) == w.(sessions := w.sessions[id := w.sessions[id].AddBytes(|chunk|)],
                                        live := map[id := h'])
      ensures Serving(id, session, hasher, file, h')
    {
      hide AddU64;
      hasher.Update(chunk);
      file.queue := file.queue + chunk;
      session.AddBytes(|chunk|);
      h' := h.(fed := h.fed + chunk, pending := h.pending + |chunk|,
               written := AddU64(h.written, |chunk|), stage := Receiving);
      assert SessionStates() == old(SessionStates())[id := session.State()];
      assert h'.Tail() == h.Tail() + chunk;
    }

    /** One chunk is written: a file that still has some to write is waited for first. */
    method WriteChunk(id: Uuid, session: TransferSession, hasher: Sha256Hasher, file: PartFile,
                      chunk: Bytes, ghost h: Handler)
      requires Serving(id, session, hasher, file, h)
      modifies this`staging, session, hasher, file
      ensures View(map[id := TookIn(h, chunk)]) == DoWrite(old(View(map[id := h])), id, chunk)
      ensures Serving(id, session, hasher, file, TookIn(h, chunk))
    {
      hide DoLand, DoWrite, AddU64, Handler.Landed, Handler.Tail, AfterLanding, TookIn;
      ghost var w := View(map[id := h]);
      ghost var h1 := h;
      if chunk != [] {
        LandBytes(id, file, |file.queue|, h);
        h1 := AfterLanding(h, |h.Tail()|);
        LandingKeepsStage(h, |h.Tail()|);
      }
      ghost var v := View(map[id := h1]);
      ghost var h' := AcceptChunk(id, session, hasher, file, chunk, h1);
      AcceptedIsWritten(w, v, id, chunk, h, h1);
    }

    /** A write that fails: of what the file had accepted and of the chunk behind it, `n` bytes reach it. */
    method WriteTorn(id: Uuid, session: TransferSession, hasher: Sha256Hasher, file: PartFile,
                     chunk: Bytes, n: nat, ghost h: Handler)
      requires Serving(id, session, hasher, file, h)
      modifies this, hasher
      ensures View(map[]) ==
              Close(old(View(map[id := h])), id, WriteFailed,
                    Some(PartAfter(old(View(map[id := h])), id, chunk, n)), false)
      ensures log == old(log) + [Replied(id, WriteFailed)]
      ensures sessions == old(sessions) - {id}
    {
      hide WriteAt, Handler.Landed, Handler.Tail;
      hasher.Update(chunk);
      ghost var w := View(map[id := h]);
      ghost var part := PartAfter(w, id, chunk, n);
      var queue := file.queue + chunk;
      staging := staging[id := WriteAt(staging[id], file.cursor, if n < |queue| then queue[..n] else queue)];
      assert View(map[id := h]) == w.(staging := w.staging[id := part]);
      Finish(id, WriteFailed, false, false, h);
      assert w.staging[id := part][id := part] == w.staging[id := part];
    }

    /** One pass of the chunk loop. */
    method TakeTurn(id: Uuid, session: TransferSession, hasher: Sha256Hasher, file: PartFile, turn: Turn,
                    ghost h: Handler)
      returns (reply: Option<Reply>, ghost h': Handler)
      requires Serving(id, session, hasher, file, h)
      modifies this, session, hasher, file
      ensures View(if reply.None? then map[id := h'] else map[]) == AfterTurn(old(View(map[id := h])), id, turn)
      ensures reply.None? ==> Serving(id, session, hasher, file, h') && sessions == old(sessions)
      ensures reply.None? ==> turn.item.Some? && h'.written == AddU64(h.written, |turn.item.value|)
      ensures reply.None? ==> RequestOf(h') == RequestOf(h)
      ensures reply.Some? ==> log == old(log) + [Replied(id, reply.value)] && sessions == old(sessions) - {id}
    {
      hide WriteAt, ApplyAll, Close, DoWrite, PartAfter, Meanwhile;
      reply := None;
      h' := Listen(id, session, hasher, file, turn.before, turn.landing, h);
      if turn.item.None? {
        Finish(id, StreamBroken, false, false, h');
        reply := Some(StreamBroken);
      } else if session.cancelled {
        Finish(id, TransferCancelled, turn.removable, false, h');
        reply := Some(TransferCancelled);
      } else {
        Wait(id, session, hasher, file, turn.asleep, h');
        if turn.torn.Some? {
          WriteTorn(id, session, hasher, file, turn.item.value, turn.torn.value, h');
          reply := Some(WriteFailed);
        } else {
          WriteChunk(id, session, hasher, file, turn.item.value, h');
          h' := TookIn(h', turn.item.value);
        }
      }
    }

    /** The rename, and the answer after it. */
    method Publish(id: Uuid, target: Path, renamed: bool, ghost h: Handler) returns (reply: Reply)
      requires id in staging && id in sessions && h.target == target
      modifies this
      ensures View(map[]) == AfterVerified(old(View(map[id := h])), id, renamed)
      ensures log != [] && log[|log| - 1] == Replied(id, reply)
    {
      if !renamed {
        Finish(id, RenameFailed, false, true, h);
        return RenameFailed;
      }
      ghost var w := View(map[id := h]);
      ghost var moved := h.(stage := Moved);
      received := received[target := staging[id]];
      log := log + [Published(id, target, staging[id])];
      staging := staging - {id};
      assert map[id := h][id := moved] == map[id := moved];
      assert View(map[id := moved]) == DoRename(w, id, true);
      Finish(id, Complete, false, false, moved);
      reply := Complete;
    }

    /** The digest of what was received: the running one if all of it came in this request, else from disk. */
    method ActualDigest(id: Uuid, hasher: Sha256Hasher, resume: U64Int, readable: bool) returns (r: Result<string, ()>)
      requires id in staging && hasher.sha == cfg.sha
      ensures resume == 0 ==> r == Ok(HexDigest(cfg.sha, hasher.fed))
      ensures resume != 0 ==> (r.Ok? <==> readable) && (readable ==> r == Ok(HexDigest(cfg.sha, staging[id])))
    {
      if resume == 0 {
        var hex := hasher.FinalizeHex();
        r := Ok(hex);
      } else {
        r := Sha256File(cfg.sha, staging[id], if readable then None else Some(0));
      }
    }

    /** The digest check, and what follows it. */
    method VerifyAndPublish(id: Uuid, hasher: Sha256Hasher, request: Request, ending: Ending, ghost h: Handler)
      returns (reply: Reply)
      requires id in staging && id in sessions && hasher.sha == cfg.sha && hasher.fed == h.fed
      requires RequestOf(h) == request && ending.BodyEnds?
      modifies this
      ensures View(map[]) == AfterSized(cfg, old(View(map[id := h])), id, ending)
      ensures log != [] && log[|log| - 1] == Replied(id, reply)
    {
      hide HexDigest, Close, AfterVerified;
      if request.expected.Some? {
        var actual := ActualDigest(id, hasher, request.resume, ending.readable);
        if actual.Err? {
          Finish(id, RehashFailed, false, true, h);
          return RehashFailed;
        }
        if actual.value != request.expected.value {
          Finish(id, ChecksumMismatch, ending.removable, false, h);
          return ChecksumMismatch;
        }
      }
      ViewStage(h, id, Verified);
      reply := Publish(id, request.target, ending.renamed, h.(stage := Verified));
    }

    /** From the end of the body to the answer. */
    method EndOfBody(id: Uuid, session: TransferSession, hasher: Sha256Hasher, file: PartFile,
                     request: Request, written: U64Int, ending: Ending, ghost h: Handler)
      returns (reply: Reply)
      requires Serving(id, session, hasher, file, h) && ending.BodyEnds?
      requires RequestOf(h) == request && written == h.written
      modifies this, file
      ensures View(map[]) == AfterBody(cfg, old(View(map[id := h])), id, ending)
      ensures log != [] && log[|log| - 1] == Replied(id, reply)
    {
      hide HexDigest, Close, AfterSized, DoLand;
      ghost var ended := h.(stage := Ended);
      ViewStage(h, id, Ended);
      if !ending.flushed && file.queue != [] {
        Finish(id, FlushFailed, false, true, ended);
        return FlushFailed;
      }
      LandBytes(id, file, |file.queue|, ended);
      ghost var settled := AfterLanding(ended, |ended.Tail()|);
      if written != request.total {
        Finish(id, Partial(written, request.total), false, false, settled);
        return Partial(written, request.total);
      }
      ViewStage(settled, id, Sized);
      reply := VerifyAndPublish(id, hasher, request, ending, settled.(stage := Sized));
    }

    /** Only the handler's stage changes. */
    lemma ViewStage(h: Handler, id: Uuid, stage: Stage)
      ensures SetStage(View(map[id := h]), id, stage) == View(map[id := h.(stage := stage)])
    {
      assert map[id := h][id := h.(stage := stage)] == map[id := h.(stage := stage)];
    }

    /** The header checks, in the source's order. */
    method CheckHeaders(headers: Headers) returns (r: Result<Request, Reply>)
      ensures r == Admit(cfg, headers)
    {
      if headers.fileName.None? {
        return Err(MissingFileName);
      }
      var total := if headers.totalSize.Some? then ParseU64(headers.totalSize.value) else None;
      if total.None? {
        return Err(MissingTotalSize);
      }
      var target := SafeJoin(cfg.receivedDir, SanitizeFilename(headers.fileName.value));
      if target.Err? {
        return Err(UnsafePath);
      }
      r := Ok(Request(target.value, total.value, headers.sha256, ResumeOffset(headers)));
    }

    /** Opens the staging file, truncating it for a fresh upload, and seeks to the resume point. */
    method OpenFile(id: Uuid, resume: U64Int, outcome: OpenOutcome) returns (failed: bool)
      modifies this`staging
      ensures failed <==> outcome.DirFailed? || outcome.OpenFailed? || (outcome.SeekFailed? && resume > 0)
      ensures View(map[]) == if outcome.DirFailed? || outcome.OpenFailed? then old(View(map[])) else
                old(View(map[])).(staging := old(staging)[id := OpenedContents(old(View(map[])), id, resume)])
    {
      failed := outcome.DirFailed? || outcome.OpenFailed?;
      if !failed {
        if resume == 0 || id !in staging {
          staging := staging[id := []];
        }
        failed := outcome.SeekFailed? && resume > 0;
      }
      assert SessionStates() == old(SessionStates());
    }

    /** Opens the file and registers a session for it. */
    method Open(id: Uuid, headers: Headers, request: Request, outcome: OpenOutcome)
      returns (r: Opening, ghost h: Handler)
      modifies this
      ensures View(if r.Ready? then map[id := h] else map[]) == DoOpen(old(View(map[])), id, headers, request, outcome)
      ensures r.Refused? ==> log != [] && log[|log| - 1] == Replied(id, r.reply)
      ensures r.Ready? ==>
                && fresh(r.session) && fresh(r.hasher) && fresh(r.file)
                && Serving(id, r.session, r.hasher, r.file, h) && RequestOf(h) == request && h.written == request.resume
    {
      hide OpenedContents, DoOpen, Answer;
      ghost var w := View(map[]);
      OpenCases(w, id, headers, request, outcome);
      h := Handler(request.target, request.total, request.expected, request.resume,
                   OpenedContents(w, id, request.resume), [], 0, request.resume, Receiving);
      var failed := OpenFile(id, request.resume, outcome);
      if failed {
        Reject(id, StorageError);
        r := Refused(StorageError);
      } else {
        r := StartServing(id, headers, request, h);
      }
    }

    /** A session, a hasher and a file cursor for an opened file. */
    method StartServing(id: Uuid, headers: Headers, request: Request, ghost h: Handler) returns (r: Opening)
      requires id in staging && RequestOf(h) == request
      requires h.fed == [] && h.pending == 0 && h.written == request.resume && h.stage.Receiving?
      modifies this
      ensures r.Ready? && fresh(r.session) && fresh(r.hasher) && fresh(r.file)
      ensures Serving(id, r.session, r.hasher, r.file, h)
      ensures View(map[id := h]) ==
              World(old(staging), old(received),
                    old(SessionStates())[id := SessionState(request.resume, request.total, false, false)],
                    map[id := h], old(log) + [Accepted(id, headers)])
    {
      var session := new TransferSession(id, request.total, Direction.Receive, request.resume);
      var hasher := new Sha256Hasher(cfg.sha);
      var file := new PartFile(request.resume);
      assert SessionStates() == old(SessionStates());
      Register(id, headers, session, hasher, file, h);
      r := Ready(session, hasher, file);
    }

    method Reject(id: Uuid, reply: Reply)
      modifies this`log
      ensures View(map[]) == Answer(old(View(map[])), id, reply)
      ensures log == old(log) + [Replied(id, reply)]
    {
      log := log + [Replied(id, reply)];
      assert SessionStates() == old(SessionStates());
    }

    /** From here on the session can be found under its id. */
    method Register(id: Uuid, headers: Headers, session: TransferSession, hasher: Sha256Hasher, file: PartFile,
                    ghost h: Handler)
      requires id in staging && (forall other :: other in sessions ==> sessions[other] != session)
      requires hasher.sha == cfg.sha && hasher.fed == h.fed == [] && h.pending == 0 && h.stage.Receiving?
      requires file.cursor == h.resume && file.queue == []
      modifies this`sessions, this`log
      ensures Serving(id, session, hasher, file, h)
      ensures View(map[id := h]) ==
              World(staging, received, old(SessionStates())[id := session.State()], map[id := h],
                    old(log) + [Accepted(id, headers)])
    {
      sessions := sessions[id := session];
      log := log + [Accepted(id, headers)];
      assert SessionStates() == old(SessionStates())[id := session.State()];
    }

    /**
     * The whole handler. Left alone from its headers to its answer, it takes the world exactly where the run
     * of its events takes it, and its answer is the last thing logged; no answer means the peer went away.
     */
    method ReceiveTransfer(id: Uuid, headers: Headers, script: Script) returns (reply: Option<Reply>)
      modifies this
      ensures View(map[]) == Run(cfg, old(View(map[])), PostEvents(cfg, old(View(map[])), id, headers, script))
      ensures reply.Some? ==> log != [] && log[|log| - 1] == Replied(id, reply.value)
      ensures reply.None? ==> script.ending.Disconnected?
    {
      hide Admit, DoOpen, TurnEvents, EndingEvents, AfterTurn, AfterEnding, Run;
      ghost var w := View(map[]);
      ghost var begin := At(id, Begin(headers, script.outcome));
      ghost var w1 := Step(cfg, w, begin);
      ghost var rest := TurnsEvents(id, script.turns) + EndingEvents(id, script.ending);
      RunOne(cfg, w, begin, rest);
      RunOne(cfg, w, begin, []);
      var admitted := CheckHeaders(headers);
      if admitted.Err? {
        Reject(id, admitted.error);
        assert PostEvents(cfg, w, id, headers, script) == [begin];
        return Some(admitted.error);
      }
      var request := admitted.value;
      var opening; ghost var h;
      opening, h := Open(id, headers, request, script.outcome);
      assert w1 == DoOpen(w, id, headers, request, script.outcome);
      if opening.Refused? {
        assert PostEvents(cfg, w, id, headers, script) == [begin];
        return Some(opening.reply);
      }
      reply := ServeBody(id, opening.session, opening.hasher, opening.file, request, script, h);
    }

    /** The chunk loop and what follows it. */
    method ServeBody(id: Uuid, session: TransferSession, hasher: Sha256Hasher, file: PartFile, request: Request,
                     script: Script, ghost start: Handler)
      returns (reply: Option<Reply>)
      requires Serving(id, session, hasher, file, start)
      requires RequestOf(start) == request
      requires start.written == request.resume
      modifies this, session, hasher, file
      ensures View(map[]) ==
              Run(cfg, old(View(map[id := start])), TurnsEvents(id, script.turns) + EndingEvents(id, script.ending))
      ensures reply.Some? ==> log != [] && log[|log| - 1] == Replied(id, reply.value)
      ensures reply.None? ==> script.ending.Disconnected?
    {
      hide TurnEvents, EndingEvents, AfterTurn, Run, AfterBody;
      ghost var w := View(map[id := start]);
      ghost var tail := EndingEvents(id, script.ending);
      ghost var final := Run(cfg, w, TurnsEvents(id, script.turns) + tail);
      ghost var h := start;
      var written := request.resume;
      var k := 0;
      assert script.turns[0..] == script.turns;
      while k < |script.turns|
        invariant 0 <= k <= |script.turns|
        invariant Serving(id, session, hasher, file, h)
        invariant RequestOf(h) == request && written == h.written
        invariant Run(cfg, View(map[id := h]), TurnsEvents(id, script.turns[k..]) + tail) == final
      {
        var turn := script.turns[k];
        ghost var w1 := View(map[id := h]);
        TurnsPeel(cfg, w1, id, script.turns[k..], script.ending);
        ghost var h0 := h;
        reply, h := TakeTurn(id, session, hasher, file, turn, h);
        if reply.Some? {
          RestEventsPlain(id, script.turns[k..][1..], script.ending);
          GoneStays(cfg, View(map[]), id, TurnsEvents(id, script.turns[k..][1..]) + tail);
          return;
        }
        written := AddU64(written, |turn.item.value|);
        assert script.turns[k..][1..] == script.turns[k + 1..];
        k := k + 1;
      }
      assert TurnsEvents(id, script.turns[k..]) + tail == tail;
      EndingRuns(cfg, View(map[id := h]), id, script.ending);
      if script.ending.Disconnected? {
        ghost var w1 := View(map[id := h]);
        DropEnds(w1, id, script.ending.torn);
        LandBytes(id, file, script.ending.torn, h);
        assert map[id := AfterLanding(h, script.ending.torn)] - {id} == map[];
        return None;
      }
      h := Listen(id, session, hasher, file, script.ending.before, script.ending.landing, h);
      var answer := EndOfBody(id, session, hasher, file, request, written, script.ending, h);
      reply := Some(answer);
    }
  }

  /** The three ways opening can go. */
  lemma OpenCases(w: World, id: Uuid, headers: Headers, r: Request, outcome: OpenOutcome)
    requires w.live == map[]
    ensures var found := OpenedContents(w, id, r.resume);
            var w1 := w.(staging := w.staging[id := found]);
            DoOpen(w, id, headers, r, outcome) ==
            if outcome.DirFailed? || outcome.OpenFailed? then Answer(w, id, StorageError)
            else if outcome.SeekFailed? && r.resume > 0 then Answer(w1, id, StorageError)
            else World(w1.staging, w.received, w.sessions[id := SessionState(r.resume, r.total, false, false)],
                       map[id := Handler(r.target, r.total, r.expected, r.resume, found, [], 0, r.resume, Receiving)],
                       w.log + [Accepted(id, headers)])
  {
    hide OpenedContents;
  }

  /** Taking the first pass of the loop off the events still to come. */
  lemma TurnsPeel(cfg: Config, w: World, id: Uuid, turns: seq<Turn>, ending: Ending)
    requires turns != [] && Running(w, id) && w.live[id].stage.Receiving?
    ensures Run(cfg, w, TurnsEvents(id, turns) + EndingEvents(id, ending)) ==
            Run(cfg, AfterTurn(w, id, turns[0]), TurnsEvents(id, turns[1..]) + EndingEvents(id, ending))
  {
    hide Run, TurnEvents, EndingEvents, AfterTurn;
    var rest := TurnsEvents(id, turns[1..]) + EndingEvents(id, ending);
    assert TurnsEvents(id, turns) + EndingEvents(id, ending) == TurnEvents(id, turns[0]) + rest;
    RunAppend(cfg, w, TurnEvents(id, turns[0]), rest);
    TurnRuns(cfg, w, id, turns[0]);
  }

  /** A handler dropped while it waits leaves its session behind, and its file as far as it has come. */
  lemma DropEnds(w: World, id: Uuid, torn: nat)
    requires Running(w, id) && w.live[id].stage.Receiving?
    ensures var w' := DoLand(w, id, torn);
            DoDrop(w, id, torn) == w'.(live := w'.live - {id})
  {
    hide PartAfter;
    assert DoLand(w, id, torn).live - {id} == w.live - {id};
  }
}
