/**
 * What a sender that lost its connection can learn from the status endpoint, what resuming there leads to, and
 * exactly when the file it then delivers is its own.
 */
module UploadStatus {
  import opened Prelude
  import opened StagedFile
  import opened Checksum
  import opened Upload
  import opened UploadIsolation
  import opened UploadSafety
  import opened UploadTheorems
  import opened UploadControl
  import opened UploadResume
  import opened UploadScript
  import opened Client

  /** The actions that end handler `h` and leave its session behind: a drop, and a failed flush, re-hash or rename. */
  predicate LeavesKnown(h: Handler, action: Action) {
    match action
    case Drop(_) => true
    case Flush(flushed) => h.stage.Ended? && !flushed && h.pending > 0
    case Verify(readable, _) => h.stage.Sized? && h.expected.Some? && h.resume != 0 && !readable
    case Rename(renamed) => h.stage.Verified? && !renamed
    case _ => false
  }

  lemma HandlerEndingStatus(cfg: Config, w: World, id: Uuid, action: Action)
    requires Running(w, id) && id !in HandlerStep(cfg, w, id, action).live
    ensures if LeavesKnown(w.live[id], action) then Status(HandlerStep(cfg, w, id, action), id) == Status(w, id)
            else Status(HandlerStep(cfg, w, id, action), id).None?
  {
    hide HexDigest, PartAfter;
  }

  lemma ActEndingStatus(cfg: Config, w: World, id: Uuid, action: Action)
    requires id in w.live && id !in Act(cfg, w, id, action).live
    ensures if LeavesKnown(w.live[id], action) then Status(Act(cfg, w, id, action), id) == Status(w, id)
            else Status(Act(cfg, w, id, action), id).None?
  {
    hide HandlerStep, Admit, DoOpen, PartAfter;
    if Running(w, id) && !action.Begin? && !action.Signalled? && !action.Drop? && !action.Acknowledge? {
      HandlerEndingStatus(cfg, w, id, action);
    }
  }

  /**
   * However a request ends, with an answer, by a dropped connection or with the process: afterwards the status
   * endpoint knows the transfer iff the connection was dropped or flush, re-hash or rename failed. What it reports
   * then is the resume point plus what that request had accepted, modulo 2^64.
   */
  lemma StatusAfterEnding(cfg: Config, w: World, e: Event, id: Uuid)
    requires id in w.live && HandlerSound(cfg, w, id) && id !in Step(cfg, w, e).live
    ensures var w', h := Step(cfg, w, e), w.live[id];
            && (Status(w', id).Some? <==> e.At? && LeavesKnown(h, e.action))
            && (Status(w', id).Some? ==>
                  Status(w', id).value.bytes == AddU64(h.resume, |h.fed|) && Status(w', id).value.total == h.total)
  {
    hide Act, WriteAt, HexDigest, AddU64;
    if e.At? {
      if e.id == id {
        ActEndingStatus(cfg, w, id, e.action);
      } else {
        ActElsewhere(cfg, w, e.id, e.action, id);
      }
    }
  }

  /**
   * The protocol document has a dropped sender ask the status endpoint where to resume. After the 206 that
   * reports the drop, and after a broken stream, the session is gone: the endpoint answers 404.
   */
  lemma StatusUnknownAfterPartial(cfg: Config, w: World, id: Uuid, action: Action, reply: Reply)
    requires id in w.live && HandlerSound(cfg, w, id)
    requires Act(cfg, w, id, action).log == w.log + [Replied(id, reply)]
    ensures Status(Act(cfg, w, id, action), id).Some? <==> LeavesSession(reply)
    ensures reply.Partial? || reply.StreamBroken? ==> Status(Act(cfg, w, id, action), id).None?
  {
    hide Act, HandlerSound;
    ReplyDecidesWhatRemains(cfg, w, id, action, reply);
  }

  /** How long the partial file is. */
  function PartLength(w: World, id: Uuid): nat {
    if id in w.staging then |w.staging[id]| else 0
  }

  /** A request that resumes at `n` starts within what the part holds. */
  predicate Usable(w: World, id: Uuid, n: U64Int) {
    n <= |OpenedContents(w, id, n)|
  }

  lemma UsableIsLength(w: World, id: Uuid, n: U64Int)
    ensures Usable(w, id, n) <==> n <= PartLength(w, id)
  {
  }

  /** How far a part reaches that had `found` bytes when `landed` bytes reached it from `resume` on. */
  function Extent(found: nat, resume: nat, landed: nat): nat {
    if landed == 0 || resume + landed < found then found else resume + landed
  }

  /** How many bytes an action of the running handler `h` brings into the file. */
  function LandedBy(h: Handler, action: Action): nat {
    match action
    case Land(n) => Least(n, h.pending)
    case Write => if h.stage.Writing? && h.stage.chunk != [] then h.pending else 0
    case Flush(flushed) => if h.stage.Ended? && (flushed || h.pending == 0) then h.pending else 0
    case WriteError(torn) => if h.stage.Writing? then Least(torn, h.pending + |h.stage.chunk|) else 0
    case Drop(torn) => Least(torn, h.pending + |BeingWritten(h.stage)|)
    case _ => 0
  }

  function Least(a: nat, b: nat): nat {
    if a < b then a else b
  }

  /** The steps that take the part away: a truncating request, a removal, or the rename. */
  predicate TakesPart(cfg: Config, w: World, e: Event, id: Uuid) {
    e.At? && e.id == id &&
    match e.action
    case Begin(headers, outcome) =>
      && id !in w.live && Admit(cfg, headers).Ok? && Admit(cfg, headers).value.resume == 0
      && !outcome.DirFailed? && !outcome.OpenFailed?
    case Chunk(_, removable) => Running(w, id) && w.live[id].stage.Receiving? && w.sessions[id].cancelled && removable
    case Verify(readable, removable) =>
      && Running(w, id) && w.live[id].stage.Sized? && w.live[id].expected.Some? && removable
      && (w.live[id].resume == 0 || readable) && !DigestAgrees(cfg, w, id)
    case Rename(renamed) => Running(w, id) && w.live[id].stage.Verified? && renamed
    case _ => false
  }

  /** The part as the handler record tells it. */
  lemma PartIsExtent(cfg: Config, w: World, id: Uuid)
    requires id in w.live && HandlerSound(cfg, w, id) && !w.live[id].stage.Moved?
    ensures var h := w.live[id];
            Running(w, id) && h.pending <= |h.fed| && PartLength(w, id) == Extent(|h.found|, h.resume, h.Landed())
  {
    hide HexDigest, AddU64;
  }

  /** What a step of a running handler leaves of its part, if the handler ends and the part is not taken. */
  lemma EndingPart(cfg: Config, w: World, id: Uuid, action: Action)
    requires id in w.live && HandlerSound(cfg, w, id) && !w.live[id].stage.Moved?
    requires id !in Act(cfg, w, id, action).live
    ensures var w', h := Act(cfg, w, id, action), w.live[id];
            if TakesPart(cfg, w, At(id, action), id) then id !in w'.staging
            else
              PartLength(w', id) == Extent(|h.found|, h.resume, h.Landed() + LandedBy(h, action))
  {
    hide HexDigest, AddU64, Admit, DoOpen, HandlerStep, PartAfter;
    PartIsExtent(cfg, w, id);
    var h := w.live[id];
    if action.Drop? {
      ExtentOfPart(cfg, w, id, BeingWritten(h.stage), action.cut);
    } else if !action.Begin? && !action.Signalled? && !action.Acknowledge? {
      HandlerEndingPart(cfg, w, id, action);
    }
  }

  lemma ExtentOfPart(cfg: Config, w: World, id: Uuid, chunk: Bytes, n: nat)
    requires id in w.live && HandlerSound(cfg, w, id) && Running(w, id)
    ensures var h := w.live[id];
            |PartAfter(w, id, chunk, n)| == Extent(|h.found|, h.resume, h.Landed() + Least(n, h.pending + |chunk|))
  {
    hide HexDigest, AddU64, PartAfter;
    PartAfterIs(cfg, w, id, chunk, n);
  }

  /** A flush that ends the request leaves the part as it is if it fails, and everything in it if it does not. */
  lemma FlushEndingPart(cfg: Config, w: World, id: Uuid, flushed: bool)
    requires id in w.live && HandlerSound(cfg, w, id) && Running(w, id) && id !in DoFlush(w, id, flushed).live
    ensures var h := w.live[id];
            PartLength(DoFlush(w, id, flushed), id) ==
            Extent(|h.found|, h.resume, h.Landed() + if flushed || h.pending == 0 then h.pending else 0)
  {
    hide HexDigest, AddU64, PartAfter, WriteAt, HandlerSound;
    SoundPending(cfg, w, id);
    PartIsExtent(cfg, w, id);
    ExtentOfPart(cfg, w, id, [], |w.live[id].Tail()|);
  }

  lemma HandlerEndingPart(cfg: Config, w: World, id: Uuid, action: Action)
    requires id in w.live && HandlerSound(cfg, w, id) && Running(w, id)
    requires id !in HandlerStep(cfg, w, id, action).live
    ensures var w', h := HandlerStep(cfg, w, id, action), w.live[id];
            if TakesPart(cfg, w, At(id, action), id) then id !in w'.staging
            else
              PartLength(w', id) == Extent(|h.found|, h.resume, h.Landed() + LandedBy(h, action))
  {
    hide HexDigest, AddU64, PartAfter, WriteAt, HandlerSound, DoLand, DoWrite, DoFlush, Extent;
    hide Handler.Landed, Handler.Tail;
    var h := w.live[id];
    SoundPending(cfg, w, id);
    PartIsExtent(cfg, w, id);
    WritingGoesOn(w, id);
    if action.WriteError? && h.stage.Writing? {
      ExtentOfPart(cfg, w, id, h.stage.chunk, action.torn);
    } else if action.Flush? && h.stage.Ended? {
      FlushEndingPart(cfg, w, id, action.flushed);
    }
  }

  lemma WritingGoesOn(w: World, id: Uuid)
    requires Running(w, id)
    ensures forall n :: id in DoLand(w, id, n).live
    ensures forall chunk :: id in DoWrite(w, id, chunk).live
  {
    hide PartAfter, AddU64;
  }

  lemma SoundPending(cfg: Config, w: World, id: Uuid)
    requires id in w.live && HandlerSound(cfg, w, id)
    ensures var h := w.live[id];
            && h.pending <= |h.fed| && |h.Tail()| == h.pending && (h.pending > 0 ==> MayLag(h.stage))
            && (Running(w, id) <==> !h.stage.Moved?)
  {
    hide HexDigest, AddU64, WriteAt;
  }

  /**
   * What a step of a running handler that does not end it leaves: the same request, with what has landed told by
   * `LandedBy`; or, if the part is taken, the renamed file's handler.
   */
  lemma LivingHandler(cfg: Config, w: World, id: Uuid, action: Action)
    requires id in w.live && HandlerSound(cfg, w, id) && !w.live[id].stage.Moved?
    requires id in Act(cfg, w, id, action).live
    ensures var h, h' := w.live[id], Act(cfg, w, id, action).live[id];
            && (TakesPart(cfg, w, At(id, action), id) <==> h'.stage.Moved?)
            && (!h'.stage.Moved? ==>
                  && h'.found == h.found && h'.resume == h.resume && h'.pending <= |h'.fed|
                  && h'.Landed() == h.Landed() + LandedBy(h, action))
  {
    hide HexDigest, AddU64, Admit, DoOpen, HandlerStep, HandlerSound;
    SoundPending(cfg, w, id);
    if Running(w, id) && !action.Begin? && !action.Signalled? && !action.Drop? && !action.Acknowledge? {
      HandlerLives(cfg, w, id, action);
    }
  }

  lemma HandlerLives(cfg: Config, w: World, id: Uuid, action: Action)
    requires id in w.live && HandlerSound(cfg, w, id) && Running(w, id) && id in HandlerStep(cfg, w, id, action).live
    requires !action.Drop?
    ensures var h, h' := w.live[id], HandlerStep(cfg, w, id, action).live[id];
            && (TakesPart(cfg, w, At(id, action), id) <==> h'.stage.Moved?)
            && (!h'.stage.Moved? ==>
                  && h'.found == h.found && h'.resume == h.resume && h'.pending <= |h'.fed|
                  && h'.Landed() == h.Landed() + LandedBy(h, action))
  {
    hide HexDigest, AddU64, PartAfter, WriteAt, HandlerSound, Close, DoLand, DoFlush, DoWrite;
    var h := w.live[id];
    SoundPending(cfg, w, id);
    CloseEndsHandler(w, id);
    if action.Land? {
      LandingMoves(w, id, action.n);
    } else if action.Write? && h.stage.Writing? {
      WritingMoves(w, id, h.stage.chunk);
    } else if action.Flush? && h.stage.Ended? {
      FlushingMoves(w, id, action.flushed);
    }
  }

  lemma LandingMoves(w: World, id: Uuid, n: nat)
    requires Running(w, id) && w.live[id].pending <= |w.live[id].fed|
    ensures var h, w' := w.live[id], DoLand(w, id, n);
            && Running(w', id) && w'.live[id] == h.(pending := h.pending - Least(n, h.pending))
            && w'.live[id].Landed() == h.Landed() + Least(n, h.pending)
  {
    hide PartAfter;
  }

  lemma WritingMoves(w: World, id: Uuid, chunk: Bytes)
    requires Running(w, id) && w.live[id].pending <= |w.live[id].fed|
    ensures var h, w' := w.live[id], DoWrite(w, id, chunk);
            && id in w'.live && w'.live[id].found == h.found && w'.live[id].resume == h.resume
            && w'.live[id].stage.Receiving? && w'.live[id].pending <= |w'.live[id].fed|
            && w'.live[id].Landed() == h.Landed() + if chunk == [] then 0 else h.pending
  {
    hide DoLand, AddU64;
    LandingMoves(w, id, |w.live[id].Tail()|);
  }

  lemma FlushingMoves(w: World, id: Uuid, flushed: bool)
    requires Running(w, id) && w.live[id].pending <= |w.live[id].fed| && id in DoFlush(w, id, flushed).live
    ensures var h, h' := w.live[id], DoFlush(w, id, flushed).live[id];
            && h'.found == h.found && h'.resume == h.resume && h'.stage.Sized? && h'.pending <= |h'.fed|
            && (flushed || h.pending == 0) && h'.Landed() == h.Landed() + h.pending
  {
    hide DoLand, Close;
    LandingMoves(w, id, |w.live[id].Tail()|);
    CloseEndsHandler(w, id);
    CloseEndsHandler(Settle(w, id), id);
  }

  /** The endpoint reports a count, and a request that resumes there starts within what the part holds. */
  predicate CanResume(w: World, id: Uuid) {
    Status(w, id).Some? && Usable(w, id, Status(w, id).value.bytes)
  }

  lemma LeavingKnownTakesNothing(cfg: Config, w: World, id: Uuid, action: Action)
    requires id in w.live && LeavesKnown(w.live[id], action)
    ensures !TakesPart(cfg, w, At(id, action), id)
  {
    hide HexDigest, Admit;
  }

  /**
   * When the reported count is of use: after an ending that leaves the session, resuming at it starts within the
   * part iff the file had not yet been renamed away (or is empty), and the part it found, or what reached it, goes as
   * far as was counted.
   */
  lemma CanResumeIff(cfg: Config, w: World, id: Uuid, action: Action)
    requires id in w.live && HandlerSound(cfg, w, id) && LeavesKnown(w.live[id], action)
    requires id !in Act(cfg, w, id, action).live
    ensures var h := w.live[id];
            CanResume(Act(cfg, w, id, action), id) <==>
            if h.stage.Moved? then h.total == 0
            else AddU64(h.resume, |h.fed|) <= Extent(|h.found|, h.resume, h.Landed() + LandedBy(h, action))
  {
    hide Act, WriteAt, HexDigest, AddU64, TakesPart, LandedBy;
    var w', h := Act(cfg, w, id, action), w.live[id];
    StatusAfterEnding(cfg, w, At(id, action), id);
    UsableIsLength(w', id, Status(w', id).value.bytes);
    if h.stage.Moved? {
      MovedEnding(cfg, w, id, action);
    } else {
      LeavingKnownTakesNothing(cfg, w, id, action);
      EndingPart(cfg, w, id, action);
    }
  }

  lemma MovedEnding(cfg: Config, w: World, id: Uuid, action: Action)
    requires id in w.live && HandlerSound(cfg, w, id) && w.live[id].stage.Moved?
    requires id !in Act(cfg, w, id, action).live
    ensures id !in Act(cfg, w, id, action).staging
  {
    hide HexDigest, AddU64, Admit, DoOpen, HandlerStep;
  }

  /**
   * For an honest sender: iff the request did not end between rename and answer (the empty file apart), and either
   * everything it had counted reached the file or the part had been that long before. A failed flush is one that
   * leaves something out.
   */
  lemma HonestCanResumeIff(cfg: Config, source: Bytes, w: World, id: Uuid, action: Action)
    requires id in w.live && HandlerSound(cfg, w, id) && LeavesKnown(w.live[id], action)
    requires id !in Act(cfg, w, id, action).live && Delivering(cfg, source, w, id)
    ensures var h := w.live[id];
            CanResume(Act(cfg, w, id, action), id) <==>
            || (!h.stage.Moved? && (LandedBy(h, action) >= h.pending || h.Position() <= |h.found|))
            || (h.stage.Moved? && source == [])
    ensures action.Flush? ==> LandedBy(w.live[id], action) < w.live[id].pending
  {
    hide Act, HandlerSound, CanResume, HexDigest;
    CanResumeIff(cfg, w, id, action);
    SoundPending(cfg, w, id);
    FeedingBounds(cfg, source, w.live[id]);
  }

  /** No request of `id` is begun. */
  predicate NoBeginning(events: seq<Event>, id: Uuid) {
    forall e :: e in events ==> !(e.At? && e.id == id && e.action.Begin?)
  }

  /** Some step of the run takes the part of `id`. */
  predicate TakenIn(cfg: Config, w: World, events: seq<Event>, id: Uuid)
    decreases |events|
  {
    events != [] && (TakesPart(cfg, w, events[0], id) || TakenIn(cfg, Step(cfg, w, events[0]), events[1..], id))
  }

  /** How many bytes the present handler of `id` brings into its file in this run. */
  function LandsIn(cfg: Config, w: World, events: seq<Event>, id: Uuid): nat
    decreases |events|
  {
    if events == [] || id !in w.live then 0
    else
      (if events[0].At? && events[0].id == id then LandedBy(w.live[id], events[0].action) else 0)
      + LandsIn(cfg, Step(cfg, w, events[0]), events[1..], id)
  }

  lemma NoBeginningRest(events: seq<Event>, id: Uuid)
    requires events != [] && NoBeginning(events, id)
    ensures NoBeginning(events[1..], id) && !(events[0].At? && events[0].id == id && events[0].action.Begin?)
  {
    assert events[0] in events;
    assert forall e :: e in events[1..] ==> e in events;
  }

  lemma IdleAct(cfg: Config, w: World, id: Uuid, action: Action)
    requires id !in w.live && !action.Begin?
    ensures var w' := Act(cfg, w, id, action);
            id !in w'.live && Get(w'.staging, id) == Get(w.staging, id)
    ensures !TakesPart(cfg, w, At(id, action), id)
  {
    hide HandlerStep, HexDigest;
  }

  lemma StepOfOthers(cfg: Config, w: World, e: Event, id: Uuid)
    requires !(e.At? && e.id == id)
    ensures var w' := Step(cfg, w, e);
            && Get(w'.staging, id) == Get(w.staging, id) && !TakesPart(cfg, w, e, id)
            && (id in w'.live ==> Get(w'.live, id) == Get(w.live, id))
            && (e.At? && id in w.live ==> id in w'.live)
  {
    hide Act;
    if e.At? {
      ActElsewhere(cfg, w, e.id, e.action, id);
    }
  }

  /** With no request in flight the part stays as it is. */
  lemma {:induction false} IdlePartStays(cfg: Config, w: World, events: seq<Event>, id: Uuid)
    requires id !in w.live && NoBeginning(events, id)
    ensures Get(Run(cfg, w, events).staging, id) == Get(w.staging, id) && !TakenIn(cfg, w, events, id)
    ensures id !in Run(cfg, w, events).live && LandsIn(cfg, w, events, id) == 0
    decreases |events|
  {
    hide Act, TakesPart;
    if events != [] {
      var e := events[0];
      NoBeginningRest(events, id);
      if e.At? && e.id == id {
        IdleAct(cfg, w, id, e.action);
      } else {
        StepOfOthers(cfg, w, e, id);
      }
      assert id !in Step(cfg, w, e).live;
      IdlePartStays(cfg, Step(cfg, w, e), events[1..], id);
    }
  }

  /** After the rename nothing brings the part back. */
  lemma {:induction false} MovedPartStays(cfg: Config, w: World, events: seq<Event>, id: Uuid)
    requires Inv(cfg, w) && id in w.live && w.live[id].stage.Moved? && NoBeginning(events, id)
    ensures id !in Run(cfg, w, events).staging
    decreases |events|
  {
    hide Act, HexDigest, WriteAt, LoggedSound, LogSound, AddU64;
    assert HandlerSound(cfg, w, id);
    if events != [] {
      var e := events[0];
      var w' := Step(cfg, w, e);
      NoBeginningRest(events, id);
      StepKeepsInv(cfg, w, e);
      if e.At? && e.id == id {
        MovedAct(cfg, w, id, e.action);
      } else {
        StepOfOthers(cfg, w, e, id);
      }
      if id in w'.live {
        MovedPartStays(cfg, w', events[1..], id);
      } else {
        IdlePartStays(cfg, w', events[1..], id);
      }
    }
  }

  lemma MovedAct(cfg: Config, w: World, id: Uuid, action: Action)
    requires id in w.live && w.live[id].stage.Moved? && id !in w.staging
    ensures var w' := Act(cfg, w, id, action);
            id !in w'.staging && (id in w'.live ==> w'.live[id].stage.Moved?)
  {
    hide HandlerStep, HexDigest, Admit, DoOpen;
  }

  /**
   * What becomes of a part after a moment at which its handler was at work, as long as no further request is begun:
   * it is gone if some step took it, and otherwise reaches exactly as far as what had landed and what lands since.
   */
  lemma {:induction false} PartSince(cfg: Config, w: World, events: seq<Event>, id: Uuid)
    requires Inv(cfg, w) && id in w.live && !w.live[id].stage.Moved? && NoBeginning(events, id)
    ensures var w', h := Run(cfg, w, events), w.live[id];
            PartLength(w', id) ==
            if TakenIn(cfg, w, events, id) then 0
            else Extent(|h.found|, h.resume, h.Landed() + LandsIn(cfg, w, events, id))
    decreases |events|
  {
    hide Act, HandlerSound, LoggedSound, LogSound, TakesPart, LandedBy;
    PartIsExtent(cfg, w, id);
    if events != [] {
      var e := events[0];
      var w' := Step(cfg, w, e);
      NoBeginningRest(events, id);
      StepKeepsInv(cfg, w, e);
      if !(e.At? && e.id == id) {
        StepOfOthers(cfg, w, e, id);
      } else if id in w'.live {
        LivingHandler(cfg, w, id, e.action);
      } else {
        EndingPart(cfg, w, id, e.action);
      }
      if id !in w'.live {
        IdlePartStays(cfg, w', events[1..], id);
      } else if w'.live[id].stage.Moved? {
        MovedPartStays(cfg, w', events[1..], id);
      } else {
        PartSince(cfg, w', events[1..], id);
      }
    }
  }

  /**
   * A count reported at `at` still stands after `since`: the part has not been renamed away, removed or truncated,
   * and it held as much at the answer, or what was counted and still pending then has reached it since.
   */
  predicate CountStands(cfg: Config, at: World, since: seq<Event>, id: Uuid) {
    && Status(at, id).Some? && !TakenIn(cfg, at, since, id)
    && (|| Status(at, id).value.bytes <= PartLength(at, id)
        || (id in at.live && !at.live[id].stage.Moved? && at.live[id].pending <= LandsIn(cfg, at, since, id)))
  }

  /**
   * Exactly when a count that an honest sender was told is good for the request it makes later, whatever has
   * happened in between, short of another request of its own.
   */
  lemma HeardUsableIff(cfg: Config, source: Bytes, at: World, since: seq<Event>, id: Uuid)
    requires Inv(cfg, at) && Delivering(cfg, source, at, id) && NoBeginning(since, id)
    requires Status(at, id).Some? && Status(at, id).value.bytes > 0
    ensures Usable(Run(cfg, at, since), id, Status(at, id).value.bytes) <==> CountStands(cfg, at, since, id)
  {
    hide Run, HexDigest, WriteAt, LoggedSound, LogSound, TakenIn, LandsIn;
    var w' := Run(cfg, at, since);
    UsableIsLength(w', id, Status(at, id).value.bytes);
    if id !in at.live {
      IdlePartStays(cfg, at, since, id);
    } else if at.live[id].stage.Moved? {
      assert HandlerSound(cfg, at, id);
      MovedPartStays(cfg, at, since, id);
    } else {
      assert HandlerSound(cfg, at, id);
      PartSince(cfg, at, since, id);
      PartIsExtent(cfg, at, id);
      FeedingBounds(cfg, source, at.live[id]);
    }
  }

  /** A sender's doings: it asks the status endpoint, or something happens to its transfer or another. */
  datatype Doing = Asks | Happens(e: Event)

  /** What the sender has heard last, in which state, and what has happened since. */
  datatype Memory = Nothing | Heard(at: World, since: seq<Event>)

  function EventsOf(doings: seq<Doing>): seq<Event> {
    if doings == [] then []
    else (if doings[0].Asks? then [] else [doings[0].e]) + EventsOf(doings[1..])
  }

  /** An answer is used once: after a request of its own the sender asks again. */
  function Remember(memory: Memory, e: Event, id: Uuid): Memory {
    if memory.Nothing? || (e.At? && e.id == id && e.action.Begin?) then Nothing
    else Heard(memory.at, memory.since + [e])
  }

  /**
   * What a sender of `source` does that trusts the status endpoint: it starts afresh or at the count it has heard,
   * and sends what follows in any pieces. `CountStands` says that the count it has heard is still good.
   */
  ghost predicate FollowsStatus(
    cfg: Config, source: Bytes, w: World, id: Uuid, action: Action, memory: Memory)
  {
    match action
    case Begin(headers, _) =>
      id !in w.live && Admit(cfg, headers).Ok? ==>
        var r := Admit(cfg, headers).value;
        && r.total == |source| && HonestDigest(cfg, source, r.expected)
        && (|| r.resume == 0
            || (&& memory.Heard? && CountStands(cfg, memory.at, memory.since, id)
                && r.resume == Status(memory.at, id).value.bytes))
    case _ => HonestAction(cfg, source, w, id, action)
  }

  ghost predicate FollowingRun(
    cfg: Config, source: Bytes, w: World, doings: seq<Doing>, id: Uuid, memory: Memory)
    decreases |doings|
  {
    doings != [] ==>
      match doings[0]
      case Asks => FollowingRun(cfg, source, w, doings[1..], id, Heard(w, []))
      case Happens(e) =>
        && (e.At? && e.id == id ==> FollowsStatus(cfg, source, w, id, e.action, memory))
        && FollowingRun(cfg, source, Step(cfg, w, e), doings[1..], id, Remember(memory, e, id))
  }

  /** The memory is of an earlier state of this run, with no request of the sender's own since. */
  ghost predicate Remembers(cfg: Config, source: Bytes, w: World, id: Uuid, memory: Memory) {
    memory.Heard? ==>
      && Inv(cfg, memory.at) && Delivering(cfg, source, memory.at, id)
      && NoBeginning(memory.since, id) && Run(cfg, memory.at, memory.since) == w
  }

  /** A count that stands is one an honest sender may resume at. */
  lemma FollowingIsHonestNow(cfg: Config, source: Bytes, w: World, id: Uuid, action: Action, memory: Memory)
    requires Remembers(cfg, source, w, id, memory) && FollowsStatus(cfg, source, w, id, action, memory)
    ensures HonestAction(cfg, source, w, id, action)
  {
    hide Admit, HonestDigest, Run, Inv, Delivering;
    if action.Begin? && id !in w.live && Admit(cfg, action.headers).Ok?
       && Admit(cfg, action.headers).value.resume != 0
    {
      HeardUsableIff(cfg, source, memory.at, memory.since, id);
    }
  }

  lemma MemoryGoesOn(cfg: Config, source: Bytes, w: World, e: Event, id: Uuid, memory: Memory)
    requires Remembers(cfg, source, w, id, memory)
    ensures Remembers(cfg, source, Step(cfg, w, e), id, Remember(memory, e, id))
  {
    hide Run, Inv, Delivering, Step;
    if Remember(memory, e, id).Heard? {
      RunAppend(cfg, memory.at, memory.since, [e]);
      RunSingle(cfg, w, e);
    }
  }

  lemma {:induction false} FollowingIsHonest(
    cfg: Config, source: Bytes, w: World, doings: seq<Doing>, id: Uuid, memory: Memory)
    requires Inv(cfg, w) && Delivering(cfg, source, w, id) && Remembers(cfg, source, w, id, memory)
    requires FollowingRun(cfg, source, w, doings, id, memory)
    ensures HonestRun(cfg, source, w, EventsOf(doings), id)
    decreases |doings|
  {
    hide Step, Inv, Delivering, Remembers, FollowsStatus, HonestAction, Remember;
    if doings != [] {
      match doings[0] {
        case Asks =>
          FreshMemory(cfg, source, w, id);
          assert EventsOf(doings) == EventsOf(doings[1..]);
          FollowingIsHonest(cfg, source, w, doings[1..], id, Heard(w, []));
        case Happens(e) =>
          if e.At? && e.id == id {
            FollowingIsHonestNow(cfg, source, w, id, e.action, memory);
          }
          StepKeepsInv(cfg, w, e);
          StepDelivers(cfg, source, w, e, id);
          MemoryGoesOn(cfg, source, w, e, id, memory);
          FollowingIsHonest(cfg, source, Step(cfg, w, e), doings[1..], id, Remember(memory, e, id));
          assert EventsOf(doings)[0] == e && EventsOf(doings)[1..] == EventsOf(doings[1..]);
      }
    }
  }

  lemma FreshMemory(cfg: Config, source: Bytes, w: World, id: Uuid)
    requires Inv(cfg, w) && Delivering(cfg, source, w, id)
    ensures Remembers(cfg, source, w, id, Heard(w, []))
  {
    hide Inv, Delivering;
  }

  /**
   * The promise of the protocol document, as far as it holds. The status request and the resuming request are two
   * requests, and anything may happen between them. A sender that starts afresh or at a count it has heard and that
   * still stands, over any number of drops, crashes, cuts and errors, delivers exactly its file: the part stays a
   * prefix of it, only it is published, and no mismatch is reported.
   */
  lemma FollowingStatusDelivers(cfg: Config, source: Bytes, w: World, doings: seq<Doing>, id: Uuid)
    requires Started(w) && |source| < U64 && (id in w.staging ==> w.staging[id] <= source)
    requires FollowingRun(cfg, source, w, doings, id, Nothing)
    ensures var w' := Run(cfg, w, EventsOf(doings));
            && (id in w'.staging ==> w'.staging[id] <= source)
            && (forall path, contents :: Published(id, path, contents) in w'.log ==> contents == source)
            && Replied(id, ChecksumMismatch) !in w'.log
  {
    hide FollowingRun, Run;
    StartedInv(cfg, w);
    FollowingIsHonest(cfg, source, w, doings, id, Nothing);
    HonestSenderDeliversTheSource(cfg, source, w, EventsOf(doings), id);
  }
}
