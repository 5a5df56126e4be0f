/** What a cancel or a pause does to the handler it reaches: how much is still written, and when it is seen at all. */
module UploadCancel {
  import opened Prelude
  import opened StagedFile
  import opened Checksum
  import opened Session
  import opened Filename
  import opened Upload
  import opened UploadIsolation
  import opened UploadSafety
  import opened UploadTheorems
  import opened UploadControl
  import opened UploadResume
  import opened UploadScript
  import opened Client

  /** Whether this event completes a chunk write of `id`. */
  predicate WritesChunk(w: World, e: Event, id: Uuid) {
    e == At(id, Write) && Running(w, id) && w.live[id].stage.Writing?
  }

  /** How many chunks the present handler of `id` still writes in this run. */
  function ChunksWritten(cfg: Config, w: World, events: seq<Event>, id: Uuid): nat
    decreases |events|
  {
    if events == [] || id !in w.live then 0
    else (if WritesChunk(w, events[0], id) then 1 else 0) + ChunksWritten(cfg, Step(cfg, w, events[0]), events[1..], id)
  }

  predicate HasChunkInHand(stage: Stage) {
    stage.Holding? || stage.Writing?
  }

  predicate CancelledLive(w: World, id: Uuid) {
    id in w.live && id in w.sessions && w.sessions[id].cancelled
  }

  /** Once set, a live handler's cancel flag stays, and no new chunk is taken in hand. */
  lemma CancelStays(cfg: Config, w: World, id: Uuid, action: Action)
    requires CancelledLive(w, id)
    ensures var w' := Act(cfg, w, id, action);
            id in w'.live ==>
              && CancelledLive(w', id)
              && (HasChunkInHand(w'.live[id].stage) ==> HasChunkInHand(w.live[id].stage))
              && (WritesChunk(w, At(id, action), id) ==> !HasChunkInHand(w'.live[id].stage))
  {
    hide Admit, HexDigest, PartAfter, Close, DoOpen, DoFlush, DoVerify, DoRename;
    hide HandlerStep;
    if Running(w, id) {
      CancelStaysInHandler(cfg, w, id, action);
    }
    CloseEnds(w, id);
  }

  lemma CloseEnds(w: World, id: Uuid)
    ensures forall reply, part, keep :: id !in Close(w, id, reply, part, keep).live
  {
  }

  lemma CancelStaysInHandler(cfg: Config, w: World, id: Uuid, action: Action)
    requires CancelledLive(w, id) && Running(w, id)
    ensures var w' := HandlerStep(cfg, w, id, action);
            id in w'.live ==>
              && CancelledLive(w', id)
              && (HasChunkInHand(w'.live[id].stage) ==> HasChunkInHand(w.live[id].stage))
              && (WritesChunk(w, At(id, action), id) ==> !HasChunkInHand(w'.live[id].stage))
  {
    hide HexDigest, PartAfter, Close;
    CloseEnds(w, id);
    CloseEnds(Settle(w, id), id);
  }

  /**
   * After a cancel at most one more chunk is written, the one already past the cancel check, whatever pause
   * and resume signals, crashes or steps of other transfers follow.
   */
  lemma {:induction false} CancelBoundsWrites(cfg: Config, w: World, events: seq<Event>, id: Uuid)
    requires CancelledLive(w, id)
    ensures ChunksWritten(cfg, w, events, id) <= if HasChunkInHand(w.live[id].stage) then 1 else 0
    decreases |events|
  {
    hide Act;
    if events != [] {
      var e := events[0];
      var w' := Step(cfg, w, e);
      if e.At? {
        if e.id == id {
          CancelStays(cfg, w, id, e.action);
        } else {
          ActElsewhere(cfg, w, e.id, e.action, id);
        }
      }
      if id in w'.live {
        CancelBoundsWrites(cfg, w', events[1..], id);
      }
    }
  }

  /** A chunk reaches the handler of `id` while it waits for one. */
  predicate ChunkArrives(w: World, e: Event, id: Uuid) {
    e.At? && e.id == id && e.action.Chunk? && Running(w, id) && w.live[id].stage.Receiving?
  }

  /** In this run a further chunk reaches the present handler of `id`. */
  predicate MoreArrives(cfg: Config, w: World, events: seq<Event>, id: Uuid)
    decreases |events|
  {
    && events != [] && id in w.live
    && (ChunkArrives(w, events[0], id) || MoreArrives(cfg, Step(cfg, w, events[0]), events[1..], id))
  }

  /** What the present handler of `id` answers in this run, if it comes to that. */
  function AnswerIn(cfg: Config, w: World, events: seq<Event>, id: Uuid): Option<Reply>
    decreases |events|
  {
    if events == [] || id !in w.live then None
    else
      var w' := Step(cfg, w, events[0]);
      if id in w'.live then AnswerIn(cfg, w', events[1..], id)
      else if |w'.log| > |w.log| && w'.log[|w.log|].Replied? then Some(w'.log[|w.log|].reply)
      else None
  }

  predicate PausedLive(w: World, id: Uuid) {
    id in w.live && id in w.sessions && w.sessions[id].paused
  }

  predicate NoResume(events: seq<Event>, id: Uuid) {
    forall e :: e in events ==> e != At(id, Signalled(Resume))
  }

  lemma NoResumeRest(events: seq<Event>, id: Uuid)
    requires events != [] && NoResume(events, id)
    ensures NoResume(events[1..], id)
  {
    assert forall e :: e in events[1..] ==> e in events;
  }

  lemma PauseStaysInHandler(cfg: Config, w: World, id: Uuid, action: Action)
    requires PausedLive(w, id) && Running(w, id)
    ensures var w' := HandlerStep(cfg, w, id, action);
            id in w'.live ==>
              && PausedLive(w', id)
              && (w'.live[id].stage.Writing? ==> w.live[id].stage.Writing? && !WritesChunk(w, At(id, action), id))
              && (w.live[id].stage.Holding? ==> w'.live[id].stage == w.live[id].stage)
    ensures w.live[id].stage.Holding? ==> id in HandlerStep(cfg, w, id, action).live
  {
    hide HexDigest, PartAfter, Close;
    CloseEnds(w, id);
    CloseEnds(Settle(w, id), id);
  }

  /** Until it is resumed, a paused handler does not start on a chunk, and one that holds a chunk goes on holding it. */
  lemma PauseStays(cfg: Config, w: World, id: Uuid, action: Action)
    requires PausedLive(w, id) && action != Signalled(Resume)
    ensures var w' := Act(cfg, w, id, action);
            id in w'.live ==>
              && PausedLive(w', id)
              && (w'.live[id].stage.Writing? ==> w.live[id].stage.Writing? && !WritesChunk(w, At(id, action), id))
              && (w.live[id].stage.Holding? ==> w'.live[id].stage == w.live[id].stage)
    ensures var w' := Act(cfg, w, id, action);
            w.live[id].stage.Holding? && id !in w'.live ==> action.Drop? && w'.log == w.log
  {
    hide Admit, HexDigest, PartAfter, Close, DoOpen, HandlerStep;
    if Running(w, id) {
      PauseStaysInHandler(cfg, w, id, action);
    }
    CloseEnds(w, id);
  }

  /**
   * While a transfer is paused and not resumed, at most one more chunk is written, the one whose write had already
   * begun, whatever other signals, crashes or steps of other transfers follow.
   */
  lemma {:induction false} PauseBoundsWrites(cfg: Config, w: World, events: seq<Event>, id: Uuid)
    requires PausedLive(w, id) && NoResume(events, id)
    ensures ChunksWritten(cfg, w, events, id) <= if w.live[id].stage.Writing? then 1 else 0
    decreases |events|
  {
    hide Act;
    if events != [] {
      var e := events[0];
      var w' := Step(cfg, w, e);
      assert e in events;
      if e.At? {
        if e.id == id {
          PauseStays(cfg, w, id, e.action);
        } else {
          ActElsewhere(cfg, w, e.id, e.action, id);
        }
      }
      if id in w'.live {
        NoResumeRest(events, id);
        PauseBoundsWrites(cfg, w', events[1..], id);
      }
    }
  }

  /** As long as the present handler of `id` lasts in this run, it holds `chunk`. */
  predicate HoldsThrough(cfg: Config, w: World, events: seq<Event>, id: Uuid, chunk: Bytes)
    decreases |events|
  {
    id in w.live ==>
      && w.live[id].stage == Holding(chunk)
      && (events != [] ==> HoldsThrough(cfg, Step(cfg, w, events[0]), events[1..], id, chunk))
  }

  /**
   * A handler that is paused over a chunk goes on holding it until it is resumed, even if it is cancelled meanwhile:
   * it gives no answer, and only a lost connection or the end of the process ends it.
   */
  lemma {:induction false} PauseHolds(cfg: Config, w: World, events: seq<Event>, id: Uuid, chunk: Bytes)
    requires PausedLive(w, id) && w.live[id].stage == Holding(chunk) && NoResume(events, id)
    ensures HoldsThrough(cfg, w, events, id, chunk) && AnswerIn(cfg, w, events, id) == None
    decreases |events|
  {
    hide Act;
    if events != [] {
      var e := events[0];
      var w' := Step(cfg, w, e);
      assert e in events;
      if e.At? {
        if e.id == id {
          PauseStays(cfg, w, id, e.action);
        } else {
          ActElsewhere(cfg, w, e.id, e.action, id);
        }
      }
      if id in w'.live {
        NoResumeRest(events, id);
        PauseHolds(cfg, w', events[1..], id, chunk);
      }
    }
  }

  /** The present handler of `id` publishes in this run. */
  predicate PublishesIn(cfg: Config, w: World, events: seq<Event>, id: Uuid)
    decreases |events|
  {
    && events != [] && id in w.live
    && ((Publishes(w, events[0]) && events[0].id == id) || PublishesIn(cfg, Step(cfg, w, events[0]), events[1..], id))
  }

  lemma HandlerAnswersCancel(cfg: Config, w: World, id: Uuid, action: Action)
    requires CancelledLive(w, id) && Running(w, id) && id !in HandlerStep(cfg, w, id, action).live
    ensures exists reply: Reply :: HandlerStep(cfg, w, id, action).log == w.log + [Replied(id, reply)]
                         && (reply.TransferCancelled? <==> ChunkArrives(w, At(id, action), id))
  {
    hide HexDigest, PartAfter, Close, DoLand;
    LandLogsNothing(w, id);
    forall v: World, reply: Reply, part, keep
      ensures Close(v, id, reply, part, keep).log == v.log + [Replied(id, reply)]
    {
      CloseLogs(v, id, reply, part, keep);
    }
  }

  lemma ChunkEndsCancelled(cfg: Config, w: World, id: Uuid, action: Action)
    requires CancelledLive(w, id) && ChunkArrives(w, At(id, action), id)
    ensures id !in Act(cfg, w, id, action).live
  {
  }

  /** The step that ends a cancelled handler answers 499 iff it is the arrival of a chunk. */
  lemma EndingAnswersCancel(cfg: Config, w: World, id: Uuid, action: Action)
    requires CancelledLive(w, id) && id !in Act(cfg, w, id, action).live
    ensures var w' := Act(cfg, w, id, action);
            || (w'.log == w.log && !ChunkArrives(w, At(id, action), id))
            || exists reply: Reply :: w'.log == w.log + [Replied(id, reply)]
                            && (reply.TransferCancelled? <==> ChunkArrives(w, At(id, action), id))
  {
    hide HandlerStep, Admit, DoOpen, WriteAt;
    if Running(w, id) && !action.Begin? && !action.Signalled? && !action.Drop? && !action.Acknowledge? {
      HandlerAnswersCancel(cfg, w, id, action);
    } else if action.Acknowledge? {
      CloseLogs(w, id, Complete, Get(w.staging, id), false);
    }
  }

  /**
   * When a cancel is honoured. In any run from a state in which it has been given, whatever stage the handler is
   * in and whatever else happens, the handler answers 499 iff a further chunk reaches it while it waits for one.
   */
  lemma {:induction false} CancelSeenIff(cfg: Config, w: World, events: seq<Event>, id: Uuid)
    requires CancelledLive(w, id)
    ensures AnswerIn(cfg, w, events, id) == Some(TransferCancelled) <==> MoreArrives(cfg, w, events, id)
    decreases |events|
  {
    hide Act, ChunkArrives;
    if events != [] {
      var e := events[0];
      var w' := Step(cfg, w, e);
      if e.At? && e.id == id {
        CancelStays(cfg, w, id, e.action);
        if id in w'.live {
          NoChunkIfLive(cfg, w, id, e.action);
        } else {
          EndingAnswersCancel(cfg, w, id, e.action);
          assert !MoreArrives(cfg, w', events[1..], id);
        }
      } else {
        OthersArriveNot(w, e, id);
        if e.At? {
          ActElsewhere(cfg, w, e.id, e.action, id);
        }
      }
      if id in w'.live {
        CancelSeenIff(cfg, w', events[1..], id);
      }
    }
  }

  lemma NoChunkIfLive(cfg: Config, w: World, id: Uuid, action: Action)
    requires CancelledLive(w, id) && id in Act(cfg, w, id, action).live
    ensures !ChunkArrives(w, At(id, action), id)
  {
    hide Act;
    if ChunkArrives(w, At(id, action), id) {
      ChunkEndsCancelled(cfg, w, id, action);
    }
  }

  lemma OthersArriveNot(w: World, e: Event, id: Uuid)
    requires !(e.At? && e.id == id)
    ensures !ChunkArrives(w, e, id)
  {
  }

  function Unflagged(state: SessionState): SessionState {
    state.(cancelled := false)
  }

  /** For transfer `id` the two worlds differ at most in the cancel flag. */
  ghost predicate TwinsButFlag(v: World, w: World, id: Uuid) {
    && Get(v.staging, id) == Get(w.staging, id)
    && Get(v.live, id) == Get(w.live, id)
    && id in v.sessions && id in w.sessions && Unflagged(v.sessions[id]) == Unflagged(w.sessions[id])
  }

  lemma LandTwins(v: World, w: World, id: Uuid, n: nat)
    requires TwinsButFlag(v, w, id) && Running(w, id)
    ensures Running(v, id) && TwinsButFlag(DoLand(v, id, n), DoLand(w, id, n), id) && Running(DoLand(w, id, n), id)
  {
    hide WriteAt;
  }

  lemma WriteTwins(v: World, w: World, id: Uuid, chunk: Bytes)
    requires TwinsButFlag(v, w, id) && Running(v, id) && Running(w, id)
    ensures TwinsButFlag(DoWrite(v, id, chunk), DoWrite(w, id, chunk), id) && id in DoWrite(w, id, chunk).live
  {
    hide DoLand, AddU64;
    LandTwins(v, w, id, |w.live[id].Tail()|);
  }

  lemma FlushTwins(v: World, w: World, id: Uuid, flushed: bool)
    requires TwinsButFlag(v, w, id) && Running(v, id) && Running(w, id)
    ensures var v', w' := DoFlush(v, id, flushed), DoFlush(w, id, flushed);
            && (id in v'.live <==> id in w'.live)
            && (id in w'.live ==> TwinsButFlag(v', w', id))
  {
    hide DoLand, Close;
    LandTwins(v, w, id, |w.live[id].Tail()|);
    CloseEnds(v, id);
    CloseEnds(w, id);
    CloseEnds(Settle(v, id), id);
    CloseEnds(Settle(w, id), id);
  }

  lemma HandlerTwins(cfg: Config, v: World, w: World, id: Uuid, action: Action)
    requires TwinsButFlag(v, w, id) && Running(w, id) && !ChunkArrives(w, At(id, action), id)
    ensures Running(v, id)
    ensures var v', w' := HandlerStep(cfg, v, id, action), HandlerStep(cfg, w, id, action);
            && (id in v'.live <==> id in w'.live)
            && (id in w'.live ==> TwinsButFlag(v', w', id))
  {
    hide HexDigest, PartAfter, Close, DoLand, DoWrite, DoFlush;
    CloseEnds(v, id);
    CloseEnds(w, id);
    var stage := w.live[id].stage;
    if action.Land? {
      LandTwins(v, w, id, action.n);
    } else if action.Write? && stage.Writing? {
      WriteTwins(v, w, id, stage.chunk);
    } else if action.Flush? && stage.Ended? {
      FlushTwins(v, w, id, action.flushed);
    }
  }

  lemma ActTwins(cfg: Config, v: World, w: World, id: Uuid, action: Action)
    requires TwinsButFlag(v, w, id) && id in w.live && !ChunkArrives(w, At(id, action), id)
    ensures var v', w' := Act(cfg, v, id, action), Act(cfg, w, id, action);
            && (id in v'.live <==> id in w'.live)
            && (id in w'.live ==> TwinsButFlag(v', w', id))
    ensures Publishes(v, At(id, action)) <==> Publishes(w, At(id, action))
  {
    hide HandlerStep, WriteAt, Admit, DoOpen;
    if Running(w, id) {
      HandlerTwins(cfg, v, w, id, action);
    }
  }

  /** Without a further chunk a cancelled handler publishes iff one that was not cancelled would. */
  lemma {:induction false} TwinsPublishAlike(cfg: Config, v: World, w: World, events: seq<Event>, id: Uuid)
    requires TwinsButFlag(v, w, id) && id in w.live && !MoreArrives(cfg, w, events, id)
    ensures PublishesIn(cfg, v, events, id) <==> PublishesIn(cfg, w, events, id)
    decreases |events|
  {
    hide Act, ChunkArrives, TwinsButFlag;
    if events != [] {
      var e := events[0];
      assert id in v.live by { TwinsLive(v, w, id); }
      if e.At? && e.id == id {
        ActTwins(cfg, v, w, id, e.action);
      } else if e.At? {
        ActElsewhere(cfg, v, e.id, e.action, id);
        ActElsewhere(cfg, w, e.id, e.action, id);
        TwinsByAgreement(v, w, Act(cfg, v, e.id, e.action), Act(cfg, w, e.id, e.action), id);
      }
      if id in Step(cfg, w, e).live {
        TwinsPublishAlike(cfg, Step(cfg, v, e), Step(cfg, w, e), events[1..], id);
      }
    }
  }

  lemma TwinsLive(v: World, w: World, id: Uuid)
    requires TwinsButFlag(v, w, id)
    ensures id in v.live <==> id in w.live
  {
  }

  lemma TwinsByAgreement(v: World, w: World, v': World, w': World, id: Uuid)
    requires TwinsButFlag(v, w, id) && Agree(v', v, id) && Agree(w', w, id)
    ensures TwinsButFlag(v', w', id) && (id in w'.live <==> id in w.live) && (id in v'.live <==> id in v.live)
  {
    hide LogOf;
  }

  /** A published handler does not wait for chunks any more, and one that was refused never publishes. */
  lemma {:induction false} PublishedTakesNoMore(cfg: Config, w: World, events: seq<Event>, id: Uuid)
    requires CancelledLive(w, id) && PublishesIn(cfg, w, events, id)
    ensures !MoreArrives(cfg, w, events, id)
    decreases |events|
  {
    hide Act, ChunkArrives;
    var e := events[0];
    var w' := Step(cfg, w, e);
    if e.At? && e.id == id {
      CancelStays(cfg, w, id, e.action);
      if Publishes(w, e) {
        PublishingEndsWaiting(cfg, w, events, id);
      } else {
        NoChunkIfLive(cfg, w, id, e.action);
        PublishedTakesNoMore(cfg, w', events[1..], id);
      }
    } else {
      OthersArriveNot(w, e, id);
      if e.At? {
        ActElsewhere(cfg, w, e.id, e.action, id);
      }
      PublishedTakesNoMore(cfg, w', events[1..], id);
    }
  }

  predicate IsMoved(w: World, id: Uuid) {
    id in w.live ==> w.live[id].stage.Moved?
  }

  lemma MovedStays(cfg: Config, w: World, id: Uuid, action: Action)
    requires id in w.live && IsMoved(w, id)
    ensures IsMoved(Act(cfg, w, id, action), id)
  {
    hide Admit, DoOpen, WriteAt;
  }

  lemma {:induction false} MovedTakesNoMore(cfg: Config, w: World, events: seq<Event>, id: Uuid)
    requires IsMoved(w, id)
    ensures !MoreArrives(cfg, w, events, id)
    decreases |events|
  {
    hide Act;
    if events != [] && id in w.live {
      var e := events[0];
      if e.At? && e.id == id {
        MovedStays(cfg, w, id, e.action);
      } else if e.At? {
        ActElsewhere(cfg, w, e.id, e.action, id);
      }
      MovedTakesNoMore(cfg, Step(cfg, w, e), events[1..], id);
    }
  }

  lemma PublishingEndsWaiting(cfg: Config, w: World, events: seq<Event>, id: Uuid)
    requires events != [] && Publishes(w, events[0]) && events[0].id == id
    ensures !MoreArrives(cfg, w, events, id)
  {
    hide MoreArrives;
    var w' := Step(cfg, w, events[0]);
    assert IsMoved(w', id) && !ChunkArrives(w, events[0], id);
    MovedTakesNoMore(cfg, w', events[1..], id);
    MoreArrivesMore(cfg, w, events, id);
  }

  lemma MoreArrivesMore(cfg: Config, w: World, events: seq<Event>, id: Uuid)
    requires events != []
    ensures MoreArrives(cfg, w, events, id) <==>
            && id in w.live
            && (ChunkArrives(w, events[0], id) || MoreArrives(cfg, Step(cfg, w, events[0]), events[1..], id))
  {
    hide Step, ChunkArrives;
  }

  /** The world in which the cancel was not given. */
  function Uncancelled(w: World, id: Uuid): World
    requires id in w.sessions
  {
    w.(sessions := w.sessions[id := Unflagged(w.sessions[id])])
  }

  /**
   * When a cancel is not honoured. In any run, from any stage, a cancelled handler publishes iff no further chunk
   * reaches it and it would have published without the cancel.
   */
  lemma CancelMissedIff(cfg: Config, w: World, events: seq<Event>, id: Uuid)
    requires CancelledLive(w, id)
    ensures PublishesIn(cfg, w, events, id) <==>
            !MoreArrives(cfg, w, events, id) && PublishesIn(cfg, Uncancelled(w, id), events, id)
  {
    hide PublishesIn, MoreArrives;
    if PublishesIn(cfg, w, events, id) {
      PublishedTakesNoMore(cfg, w, events, id);
    }
    if !MoreArrives(cfg, w, events, id) {
      TwinsPublishAlike(cfg, Uncancelled(w, id), w, events, id);
    }
  }

  /** The flush succeeds: by the system's word, or because nothing is left to be written by then. */
  predicate FlushPasses(w: World, id: Uuid, ending: Ending)
    requires Running(w, id) && ending.BodyEnds?
  {
    ending.flushed || |w.live[id].Tail()| <= ending.landing
  }

  /** The length, digest and rename after the flush all go well, in the world in which everything is in the file. */
  predicate ChecksPass(cfg: Config, v: World, id: Uuid, ending: Ending)
    requires Running(v, id) && ending.BodyEnds?
  {
    && v.live[id].written == v.live[id].total
    && (v.live[id].expected.Some? && v.live[id].resume != 0 ==> ending.readable)
    && DigestAgrees(cfg, v, id) && ending.renamed
  }

  /** What the end of the body is answered after the flush: the first check or call that fails decides. */
  function CheckReply(cfg: Config, v: World, id: Uuid, ending: Ending): Reply
    requires Running(v, id) && ending.BodyEnds?
  {
    var h := v.live[id];
    if h.written != h.total then Partial(h.written, h.total)
    else if h.expected.Some? && h.resume != 0 && !ending.readable then RehashFailed
    else if !DigestAgrees(cfg, v, id) then ChecksumMismatch
    else if !ending.renamed then RenameFailed
    else Complete
  }

  /** What the checks add to the log. */
  function CheckEntries(cfg: Config, v: World, id: Uuid, ending: Ending): seq<Entry>
    requires Running(v, id) && ending.BodyEnds?
  {
    if ChecksPass(cfg, v, id, ending) then [Published(id, v.live[id].target, v.staging[id]), Replied(id, Complete)]
    else [Replied(id, CheckReply(cfg, v, id, ending))]
  }

  /** What a request whose body is over adds to the log. */
  function EndingEntries(cfg: Config, w: World, id: Uuid, ending: Ending): seq<Entry>
    requires Running(w, id)
  {
    if ending.Disconnected? then []
    else if !FlushPasses(w, id, ending) then [Replied(id, FlushFailed)]
    else CheckEntries(cfg, Fed(w, id, []), id, ending)
  }

  lemma VerifiedLogs(w: World, id: Uuid, renamed: bool)
    requires Running(w, id)
    ensures AfterVerified(w, id, renamed).log ==
            w.log + if renamed then [Published(id, w.live[id].target, w.staging[id]), Replied(id, Complete)]
                    else [Replied(id, RenameFailed)]
  {
  }

  lemma SizedLogs(cfg: Config, w: World, id: Uuid, ending: Ending)
    requires Running(w, id) && ending.BodyEnds? && w.live[id].written == w.live[id].total
    ensures AfterSized(cfg, w, id, ending).log == w.log + CheckEntries(cfg, w, id, ending)
  {
    hide HexDigest, AfterVerified, Close;
    CloseEndsHandler(w, id);
    CloseLogs(w, id, RehashFailed, Some(w.staging[id]), true);
    CloseLogs(w, id, ChecksumMismatch, if ending.removable then None else Some(w.staging[id]), false);
    VerifiedLogs(SetStage(w, id, Verified), id, ending.renamed);
  }

  lemma BodyEndLogs(cfg: Config, w: World, id: Uuid, ending: Ending)
    requires Running(w, id) && ending.BodyEnds? && w.live[id].pending <= |w.live[id].fed|
    requires ending.flushed || w.live[id].pending == 0
    ensures AfterBody(cfg, w, id, ending).log == w.log + CheckEntries(cfg, Fed(w, id, []), id, ending)
  {
    hide HexDigest, AfterSized, Close, Fed, DoFlush;
    FedNothingKeeps(w, id);
    FlushSettles(cfg, w, id, ending.flushed);
    var v := Fed(w, id, []);
    CloseEndsHandler(v, id);
    CloseLogs(v, id, Partial(w.live[id].written, w.live[id].total), Some(v.staging[id]), false);
    if w.live[id].written == w.live[id].total {
      SizedLogs(cfg, SetStage(v, id, Sized), id, ending);
      assert CheckEntries(cfg, SetStage(v, id, Sized), id, ending) == CheckEntries(cfg, v, id, ending);
    }
  }

  lemma FailedFlushLogs(cfg: Config, w: World, id: Uuid, ending: Ending)
    requires Running(w, id) && ending.BodyEnds? && !ending.flushed && w.live[id].pending > 0
    ensures AfterBody(cfg, w, id, ending).log == w.log + [Replied(id, FlushFailed)]
  {
    hide HexDigest, AfterSized, Close;
    var w1 := SetStage(w, id, Ended);
    CloseEndsHandler(w1, id);
    CloseLogs(w1, id, FlushFailed, Some(w.staging[id]), true);
  }

  /** Signals and landing before the end change nothing of what the end amounts to. */
  lemma MeanwhileFed(w: World, id: Uuid, signals: seq<Signal>, landing: nat)
    requires Running(w, id) && w.live[id].pending <= |w.live[id].fed|
    ensures var w' := Meanwhile(w, id, signals, landing);
            && Running(w', id) && w'.live[id].pending <= |w'.live[id].fed| && w'.log == w.log
            && (w'.live[id].pending == 0 <==> |w.live[id].Tail()| <= landing)
            && var v, v' := Fed(w, id, []), Fed(w', id, []);
               v'.live[id] == v.live[id] && v'.staging == v.staging
  {
    hide WriteAt, AddU64, DoLand;
    var w1 := SetSession(w, id, ApplyAll(w.sessions[id], signals));
    LandsPiece(w1, id, landing);
    LandThenFed(w1, id, landing, []);
  }

  /** How the end of the body goes, whatever signals come before it. */
  lemma EndingLogs(cfg: Config, w: World, id: Uuid, ending: Ending)
    requires Running(w, id) && w.live[id].pending <= |w.live[id].fed|
    ensures AfterEnding(cfg, w, id, ending).log == w.log + EndingEntries(cfg, w, id, ending)
  {
    hide HexDigest, AfterBody, Fed, Meanwhile;
    if ending.BodyEnds? {
      var w' := Meanwhile(w, id, ending.before, ending.landing);
      MeanwhileFed(w, id, ending.before, ending.landing);
      FedNothingKeeps(w, id);
      FedNothingKeeps(w', id);
      if !ending.flushed && w'.live[id].pending > 0 {
        FailedFlushLogs(cfg, w', id, ending);
      } else {
        assert CheckEntries(cfg, Fed(w', id, []), id, ending) == CheckEntries(cfg, Fed(w, id, []), id, ending);
        BodyEndLogs(cfg, w', id, ending);
      }
    }
  }

  /**
   * The rest of a request whose waiting handler has been cancelled, told from what the network and the disk do.
   * Another chunk is answered 499 and a broken stream 400; without either, the cancel is lost, and the end of the
   * body publishes iff every later check and call goes well.
   */
  lemma CancelledOutcome(cfg: Config, w: World, id: Uuid, turns: seq<Turn>, ending: Ending)
    requires CancelledLive(w, id) && Running(w, id) && w.live[id].stage.Receiving?
    requires w.live[id].pending <= |w.live[id].fed|
    ensures Run(cfg, w, TurnsEvents(id, turns) + EndingEvents(id, ending)).log ==
            w.log + if turns == [] then EndingEntries(cfg, w, id, ending)
                    else [Replied(id, if turns[0].item.Some? then TransferCancelled else StreamBroken)]
  {
    hide Run, TurnEvents, EndingEvents, AfterTurn, AfterEnding, EndingEntries;
    if turns == [] {
      assert TurnsEvents(id, turns) + EndingEvents(id, ending) == EndingEvents(id, ending);
      EndingRuns(cfg, w, id, ending);
      EndingLogs(cfg, w, id, ending);
    } else {
      var rest := TurnsEvents(id, turns[1..]) + EndingEvents(id, ending);
      assert TurnsEvents(id, turns) + EndingEvents(id, ending) == TurnEvents(id, turns[0]) + rest;
      RunAppend(cfg, w, TurnEvents(id, turns[0]), rest);
      TurnRuns(cfg, w, id, turns[0]);
      CancelledTurn(w, id, turns[0]);
      RestEventsPlain(id, turns[1..], ending);
      GoneStays(cfg, AfterTurn(w, id, turns[0]), id, rest);
    }
  }

  /** The next pass of the loop ends a cancelled handler. */
  lemma CancelledTurn(w: World, id: Uuid, turn: Turn)
    requires CancelledLive(w, id) && Running(w, id)
    ensures Gone(AfterTurn(w, id, turn), id)
    ensures AfterTurn(w, id, turn).log ==
            w.log + [Replied(id, if turn.item.Some? then TransferCancelled else StreamBroken)]
  {
    hide PartAfter;
  }

  /**
   * The chunk in hand when the cancel comes is still accepted, however long the handler sleeps over it, and what was
   * accepted before it is in the file by then. After that it waits, cancelled, and `CancelledOutcome` says how it
   * goes on.
   */
  lemma ChunkInHandIsWritten(cfg: Config, w: World, id: Uuid, chunk: Bytes, asleep: seq<Signal>)
    requires CancelledLive(w, id) && Running(w, id) && HandlerSound(cfg, w, id)
    requires w.live[id].stage == Holding(chunk) || w.live[id].stage == Writing(chunk)
    ensures var w' := Run(cfg, w, WaitEvents(id, asleep) + [At(id, Write)]);
            && CancelledLive(w', id) && Running(w', id) && w'.live[id].stage.Receiving? && HandlerSound(cfg, w', id)
            && w'.live[id].fed == w.live[id].fed + chunk && w'.log == w.log
            && (chunk != [] ==> w'.live[id].Landed() == |w.live[id].fed|)
  {
    hide Run, WriteAt, WaitEvents, AddU64, PartAfter, HandlerSound, DoLand;
    WaitRuns(cfg, w, id, chunk, asleep);
    var state := ApplyAll(w.sessions[id], asleep).Apply(Resume);
    var w1 := SetStage(SetSession(w, id, state), id, Writing(chunk));
    WaitKeepsHandler(cfg, w, id, chunk, state);
    WriteKeepsHandler(cfg, w1, id, chunk);
    LandKeepsSound(cfg, w1, id);
    RunAppend(cfg, w, WaitEvents(id, asleep), [At(id, Write)]);
    RunSingle(cfg, w1, At(id, Write));
  }

  lemma WaitKeepsHandler(cfg: Config, w: World, id: Uuid, chunk: Bytes, state: SessionState)
    requires id in w.live && Running(w, id) && HandlerSound(cfg, w, id) && MayLag(w.live[id].stage)
    requires state.bytes == w.sessions[id].bytes && state.total == w.sessions[id].total
    ensures HandlerSound(cfg, SetStage(SetSession(w, id, state), id, Writing(chunk)), id)
  {
    hide WriteAt, HexDigest, AddU64;
  }

  lemma LandKeepsSound(cfg: Config, w: World, id: Uuid)
    requires id in w.live && Running(w, id) && HandlerSound(cfg, w, id) && MayLag(w.live[id].stage)
    ensures var v := Settle(w, id);
            Running(v, id) && v.live[id] == w.live[id].(pending := v.live[id].pending) && v.sessions == w.sessions
            && v.log == w.log
  {
    hide HandlerSound, PartAfter;
    LandKeepsHandler(cfg, w, id, |w.live[id].Tail()|);
  }

  /** The world after a cancel signal has reached the session of `id`. */
  function Cancelled(w: World, id: Uuid): World
    requires id in w.sessions
  {
    SetSession(w, id, w.sessions[id].Apply(Cancel))
  }

  /** Once published, nothing tells whether the cancel had been given. */
  lemma FinishedForgetsSession(w: World, id: Uuid)
    requires Running(w, id)
    ensures var v, v' := Fed(w, id, []), Fed(Cancelled(w, id), id, []);
            && Running(v, id) && Running(v', id) && v'.live == v.live && v'.staging == v.staging
            && Finished(v', id) == Finished(v, id)
  {
    hide WriteAt, AddU64;
    assert Fed(Cancelled(w, id), id, []).sessions - {id} == Fed(w, id, []).sessions - {id};
  }

  lemma CancelRuns(cfg: Config, w: World, id: Uuid)
    requires Running(w, id)
    ensures Run(cfg, w, [At(id, Signalled(Cancel))]) == Cancelled(w, id)
    ensures CancelledLive(Cancelled(w, id), id)
  {
    assert [At(id, Signalled(Cancel))][1..] == [];
  }

  /**
   * A cancel between the last chunk and the end of the body changes nothing at all: the world afterwards is the
   * one `ReachingTheEndPublishes` describes for a request that nobody cancelled.
   */
  lemma LateCancelIsIgnored(
    cfg: Config, source: Bytes, w: World, id: Uuid, headers: Headers, pieces: seq<Piece>)
    requires id !in w.live && Admit(cfg, headers).Ok?
    requires HonestRequest(cfg, source, w, id, Admit(cfg, headers).value)
    requires Data(pieces) == source[Admit(cfg, headers).value.resume..]
    ensures var upload := [At(id, Begin(headers, Opened))] + BodyEvents(id, pieces);
            var w1 := Run(cfg, w, upload + [At(id, Signalled(Cancel))]);
            && CancelledLive(w1, id)
            && w1.log == w.log + [Accepted(id, headers)]
            && Run(cfg, w1, EndEvents(id)) == Run(cfg, w, upload + EndEvents(id))
  {
    hide Admit, WriteAt, HexDigest, Data, BodyEvents, EndEvents, DoOpen, Finished, HonestRequest, OpenedContents;
    hide Step, Run, Fed, AddU64;
    var upload := [At(id, Begin(headers, Opened))] + BodyEvents(id, pieces);
    var r := Admit(cfg, headers).value;
    var w0 := Step(cfg, w, At(id, Begin(headers, Opened)));
    BeginFlows(cfg, w, id, headers);
    OpenedState(w, id, headers, r);
    RestCompletes(cfg, source, w, id, headers);
    FedKeepsLog(w0, id, Data(pieces));
    AnyChunking(cfg, w0, id, pieces);
    RunAppend(cfg, w, [At(id, Begin(headers, Opened))], BodyEvents(id, pieces));
    RunSingle(cfg, w, At(id, Begin(headers, Opened)));
    var taken := Run(cfg, w0, BodyEvents(id, pieces));
    FedNothingKeeps(taken, id);
    RunAppend(cfg, w, upload, [At(id, Signalled(Cancel))]);
    RunAppend(cfg, w, upload, EndEvents(id));
    CancelRuns(cfg, taken, id);
    FinishedForgetsSession(taken, id);
    EndPublishes(cfg, taken, id);
    EndPublishes(cfg, Cancelled(taken, id), id);
  }

  lemma FedKeepsLog(w: World, id: Uuid, data: Bytes)
    requires Running(w, id)
    ensures Fed(w, id, data).log == w.log
  {
  }

  /**
   * A cancel that is lost: a server that has just started takes a one-byte file, its session is cancelled after the
   * only chunk, and the file is published and answered with a 200.
   */
  lemma CancelCanComeTooLate(cfg: Config) returns (w: World, headers: Headers, events: seq<Event>)
    ensures Started(w) && headers == ClientHeaders(cfg.sha, "a", [7], SendOptions(0, true))
    ensures events ==
            [At(0, Begin(headers, Opened))] + BodyEvents(0, [Piece([7], 1)]) + [At(0, Signalled(Cancel))]
    ensures var w1 := Run(cfg, w, events);
            && CancelledLive(w1, 0)
            && Run(cfg, w1, EndEvents(0)).log ==
               w1.log + [Published(0, TargetOf(cfg, headers), [7])] + [Replied(0, Complete)]
  {
    hide HexDigest, SanitizeFilename, Admit, Run, EndEvents, BodyEvents, ClientHeaders;
    var source: Bytes, opts := [7], SendOptions(0, true);
    var pieces := [Piece(source, 1)];
    w := World(map[], map[], map[], map[], []);
    headers := ClientHeaders(cfg.sha, "a", source, opts);
    HeadersArriveAsMeant(cfg, "a", source, opts);
    AdmittedFromHeaders(cfg, headers);
    OnePiece(source, 1);
    assert source == source[0..];
    events := [At(0, Begin(headers, Opened))] + BodyEvents(0, pieces) + [At(0, Signalled(Cancel))];
    hide Data;
    LateCancelIsIgnored(cfg, source, w, 0, headers, pieces);
    ReachingTheEndPublishes(cfg, source, w, 0, headers, pieces);
  }
}
