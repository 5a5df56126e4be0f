/** Handlers for different transfer ids do not disturb each other, however their steps interleave. */
module UploadIsolation {
  import opened Prelude
  import opened StagedFile
  import opened Checksum
  import opened Upload

  /** The entries about `id`, in order. */
  function LogOf(log: seq<Entry>, id: Uuid): seq<Entry> {
    if log == [] then []
    else
      var init := LogOf(log[..|log| - 1], id);
      if log[|log| - 1].id == id then init + [log[|log| - 1]] else init
  }

  /** The latest entry about `id`. */
  function LastOf(log: seq<Entry>, id: Uuid): Option<Entry> {
    var mine := LogOf(log, id);
    if mine == [] then None else Some(mine[|mine| - 1])
  }

  lemma LogOfAppend(log: seq<Entry>, e: Entry, id: Uuid)
    ensures LogOf(log + [e], id) == if e.id == id then LogOf(log, id) + [e] else LogOf(log, id)
  {
    assert (log + [e])[..|log|] == log;
  }

  /** Everything transfer `id` can tell about the world, received files apart. */
  ghost predicate Agree(v: World, w: World, id: Uuid) {
    && Get(v.staging, id) == Get(w.staging, id)
    && Get(v.sessions, id) == Get(w.sessions, id)
    && Get(v.live, id) == Get(w.live, id)
    && LogOf(v.log, id) == LogOf(w.log, id)
  }

  /** A step about `id` adds nothing to the log or one entry about `id`. */
  ghost predicate LogsOnly(w: World, w': World, id: Uuid) {
    || w'.log == w.log
    || (w'.log != [] && w'.log[|w'.log| - 1].id == id && w'.log[..|w'.log| - 1] == w.log)
  }

  /** Nothing but the maps' entries for `id` and the received files differ. */
  ghost predicate TouchesOnly(w: World, w': World, id: Uuid) {
    && (forall k :: k != id ==> Get(w.staging, k) == Get(w'.staging, k))
    && (forall k :: k != id ==> Get(w.sessions, k) == Get(w'.sessions, k))
    && (forall k :: k != id ==> Get(w.live, k) == Get(w'.live, k))
    && LogsOnly(w, w', id)
  }

  lemma CloseTouchesOnly(w: World, id: Uuid)
    ensures forall reply, part, keep :: TouchesOnly(w, Close(w, id, reply, part, keep), id)
  {
  }

  lemma MovesTouchOnly(w: World, id: Uuid)
    requires Running(w, id)
    ensures forall stage :: TouchesOnly(w, SetStage(w, id, stage), id)
    ensures forall n :: TouchesOnly(w, DoLand(w, id, n), id)
    ensures forall renamed :: TouchesOnly(w, DoRename(w, id, renamed), id)
  {
    hide PartAfter;
  }

  lemma WriteTouchesOnly(w: World, id: Uuid, chunk: Bytes)
    requires Running(w, id)
    ensures TouchesOnly(w, DoWrite(w, id, chunk), id)
  {
    hide PartAfter;
  }

  lemma FlushTouchesOnly(w: World, id: Uuid, flushed: bool)
    requires Running(w, id)
    ensures TouchesOnly(w, DoFlush(w, id, flushed), id)
  {
    hide PartAfter;
  }

  lemma HandlerTouchesOnly(cfg: Config, w: World, id: Uuid, action: Action)
    requires Running(w, id)
    ensures TouchesOnly(w, HandlerStep(cfg, w, id, action), id)
  {
    hide HexDigest, PartAfter, Close, SetStage, DoLand, DoWrite, DoFlush, DoRename;
    CloseTouchesOnly(w, id);
    MovesTouchOnly(w, id);
    if action.Write? && w.live[id].stage.Writing? {
      WriteTouchesOnly(w, id, w.live[id].stage.chunk);
    } else if action.Flush? {
      FlushTouchesOnly(w, id, action.flushed);
    }
  }

  lemma OpenTouchesOnly(w: World, id: Uuid, headers: Headers, r: Request, outcome: OpenOutcome)
    ensures TouchesOnly(w, DoOpen(w, id, headers, r, outcome), id)
  {
    hide OpenedContents;
  }

  lemma ActTouchesOnly(cfg: Config, w: World, id: Uuid, action: Action)
    ensures TouchesOnly(w, Act(cfg, w, id, action), id)
  {
    hide Admit, DoOpen, HandlerStep, PartAfter;
    if action.Begin? {
      match Admit(cfg, action.headers) {
        case Err(reply) =>
        case Ok(request) => OpenTouchesOnly(w, id, action.headers, request, action.outcome);
      }
    } else if Running(w, id) {
      HandlerTouchesOnly(cfg, w, id, action);
    }
  }

  /** An action of one transfer is invisible to every other. */
  lemma ActElsewhere(cfg: Config, w: World, id: Uuid, action: Action, other: Uuid)
    requires id != other
    ensures Agree(Act(cfg, w, id, action), w, other)
  {
    hide Act;
    ActTouchesOnly(cfg, w, id, action);
    var w' := Act(cfg, w, id, action);
    if w'.log != w.log {
      LogOfAppend(w.log, w'.log[|w'.log| - 1], other);
      assert w'.log == w.log + [w'.log[|w'.log| - 1]];
    }
  }

  lemma LogOfGrowsAlike(v: seq<Entry>, w: seq<Entry>, id: Uuid)
    requires LogOf(v, id) == LogOf(w, id)
    ensures forall e: Entry :: LogOf(v + [e], id) == LogOf(w + [e], id)
  {
    forall e: Entry ensures LogOf(v + [e], id) == LogOf(w + [e], id) {
      LogOfAppend(v, e, id);
      LogOfAppend(w, e, id);
    }
  }

  lemma CloseHere(v: World, w: World, id: Uuid)
    requires Agree(v, w, id)
    ensures forall reply, part, keep :: Agree(Close(v, id, reply, part, keep), Close(w, id, reply, part, keep), id)
  {
    hide LogOf;
    LogOfGrowsAlike(v.log, w.log, id);
  }

  lemma MovesHere(cfg: Config, v: World, w: World, id: Uuid)
    requires Agree(v, w, id) && Running(v, id)
    ensures Running(w, id)
    ensures forall stage :: Agree(SetStage(v, id, stage), SetStage(w, id, stage), id)
    ensures forall n :: Agree(DoLand(v, id, n), DoLand(w, id, n), id)
    ensures forall chunk, n :: PartAfter(v, id, chunk, n) == PartAfter(w, id, chunk, n)
    ensures v.staging[id] == w.staging[id] && v.sessions[id] == w.sessions[id] && v.live[id] == w.live[id]
  {
    hide LogOf, WriteAt;
  }

  lemma WriteHere(cfg: Config, v: World, w: World, id: Uuid, chunk: Bytes)
    requires Agree(v, w, id) && Running(v, id) && Running(w, id)
    ensures Agree(DoWrite(v, id, chunk), DoWrite(w, id, chunk), id)
  {
    hide LogOf, WriteAt, DoLand, AddU64;
    MovesHere(cfg, v, w, id);
    if chunk != [] {
      LandKeepsRunning(v, id);
      LandKeepsRunning(w, id);
      MovesHere(cfg, Settle(v, id), Settle(w, id), id);
    }
  }

  lemma LandKeepsRunning(w: World, id: Uuid)
    requires Running(w, id)
    ensures forall n :: Running(DoLand(w, id, n), id)
  {
  }

  lemma FlushHere(cfg: Config, v: World, w: World, id: Uuid, flushed: bool)
    requires Agree(v, w, id) && Running(v, id) && Running(w, id)
    ensures Agree(DoFlush(v, id, flushed), DoFlush(w, id, flushed), id)
  {
    hide LogOf, WriteAt, DoLand, Close, SetStage;
    CloseHere(v, w, id);
    MovesHere(cfg, v, w, id);
    LandKeepsRunning(v, id);
    LandKeepsRunning(w, id);
    CloseHere(Settle(v, id), Settle(w, id), id);
    MovesHere(cfg, Settle(v, id), Settle(w, id), id);
  }

  lemma RenameHere(v: World, w: World, id: Uuid, renamed: bool)
    requires Agree(v, w, id) && Running(v, id) && Running(w, id)
    ensures Agree(DoRename(v, id, renamed), DoRename(w, id, renamed), id)
  {
    hide LogOf, Close;
    LogOfGrowsAlike(v.log, w.log, id);
    CloseHere(v, w, id);
  }

  lemma HandlerHere(cfg: Config, v: World, w: World, id: Uuid, action: Action)
    requires Agree(v, w, id) && Running(v, id)
    ensures Running(w, id) && Agree(HandlerStep(cfg, v, id, action), HandlerStep(cfg, w, id, action), id)
  {
    hide HexDigest, WriteAt, LogOf, PartAfter, Close, SetStage, DoLand, DoWrite, DoFlush, DoRename;
    CloseHere(v, w, id);
    MovesHere(cfg, v, w, id);
    if action.Write? && v.live[id].stage.Writing? {
      WriteHere(cfg, v, w, id, v.live[id].stage.chunk);
    } else if action.Flush? {
      FlushHere(cfg, v, w, id, action.flushed);
    } else if action.Rename? {
      RenameHere(v, w, id, action.renamed);
    }
  }

  lemma AnswerHere(v: World, w: World, id: Uuid, reply: Reply)
    requires Agree(v, w, id)
    ensures Agree(Answer(v, id, reply), Answer(w, id, reply), id)
  {
    hide LogOf;
    LogOfAppend(v.log, Replied(id, reply), id);
    LogOfAppend(w.log, Replied(id, reply), id);
  }

  lemma OpenHere(v: World, w: World, id: Uuid, headers: Headers, r: Request, outcome: OpenOutcome)
    requires Agree(v, w, id)
    ensures Agree(DoOpen(v, id, headers, r, outcome), DoOpen(w, id, headers, r, outcome), id)
  {
    hide LogOf, Answer;
    var found := OpenedContents(v, id, r.resume);
    assert found == OpenedContents(w, id, r.resume);
    if outcome.DirFailed? || outcome.OpenFailed? {
      AnswerHere(v, w, id, StorageError);
    } else {
      var v1, w1 := v.(staging := v.staging[id := found]), w.(staging := w.staging[id := found]);
      assert Agree(v1, w1, id);
      if outcome.SeekFailed? && r.resume > 0 {
        AnswerHere(v1, w1, id, StorageError);
      } else {
        LogOfAppend(v.log, Accepted(id, headers), id);
        LogOfAppend(w.log, Accepted(id, headers), id);
      }
    }
  }

  /** What an action does to its own transfer depends on nothing else. */
  lemma ActHere(cfg: Config, v: World, w: World, id: Uuid, action: Action)
    requires Agree(v, w, id)
    ensures Agree(Act(cfg, v, id, action), Act(cfg, w, id, action), id)
  {
    hide Admit, DoOpen, HandlerStep, WriteAt, LogOf;
    LogOfGrowsAlike(v.log, w.log, id);
    if action.Begin? {
      match Admit(cfg, action.headers) {
        case Err(reply) =>
        case Ok(request) => OpenHere(v, w, id, action.headers, request, action.outcome);
      }
    } else if Running(v, id) {
      HandlerHere(cfg, v, w, id, action);
    }
  }

  /** The events that concern `id`: its own and the crashes. */
  function Only(events: seq<Event>, id: Uuid): seq<Event> {
    if events == [] then []
    else (if events[0].Crash? || events[0].id == id then [events[0]] else []) + Only(events[1..], id)
  }

  /**
   * However the steps of any number of transfers interleave, each transfer's staging file, session,
   * handler and answers are what they would be had it run alone.
   */
  lemma {:induction false} InterleavingIsUnobservable(cfg: Config, v: World, w: World, events: seq<Event>, id: Uuid)
    requires Agree(v, w, id)
    ensures Agree(Run(cfg, v, events), Run(cfg, w, Only(events, id)), id)
    decreases |events|
  {
    hide Act;
    if events != [] {
      var e := events[0];
      var rest := Only(events[1..], id);
      if e.Crash? || e.id == id {
        assert Only(events, id) == [e] + rest && ([e] + rest)[1..] == rest;
        if e.At? {
          ActHere(cfg, v, w, id, e.action);
        }
        InterleavingIsUnobservable(cfg, Step(cfg, v, e), Step(cfg, w, e), events[1..], id);
      } else {
        assert Only(events, id) == rest;
        ActElsewhere(cfg, v, e.id, e.action, id);
        InterleavingIsUnobservable(cfg, Step(cfg, v, e), w, events[1..], id);
      }
    }
  }
}
