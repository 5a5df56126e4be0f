/** Byte counters, and what the received directory ends up holding. */
module UploadControl {
  import opened Prelude
  import opened StagedFile
  import opened Checksum
  import opened Session
  import opened Upload
  import opened UploadIsolation
  import opened UploadSafety
  import opened UploadTheorems

  /** The status endpoint: `None` is its 404. */
  function Status(w: World, id: Uuid): Option<SessionState> {
    Get(w.sessions, id)
  }

  /**
   * In every reachable state a live transfer's reported byte count, and its handler's, are the resume offset
   * plus what this request received, modulo 2^64. The file is exactly what was found overwritten by that, less the
   * bytes still pending, and when the length has been checked nothing is pending any more.
   */
  lemma CountersFollowTheFile(cfg: Config, w: World, events: seq<Event>, id: Uuid)
    requires Started(w) && id in Run(cfg, w, events).live
    ensures var w' := Run(cfg, w, events);
            var h := w'.live[id];
            && Status(w', id).Some?
            && Status(w', id).value.bytes == h.written == AddU64(h.resume, |h.fed|)
            && Status(w', id).value.total == h.total
            && h.pending <= |h.fed| && (h.stage.Sized? || h.stage.Verified? ==> h.pending == 0)
            && (!h.stage.Moved? ==>
                  Get(w'.staging, id) == Some(WriteAt(h.found, h.resume, h.fed[..|h.fed| - h.pending])))
  {
    hide Run, WriteAt, HexDigest, LoggedSound, LogSound;
    ReachableInv(cfg, w, events);
    assert HandlerSound(cfg, Run(cfg, w, events), id);
  }

  /** What was published last under `path`. */
  function LastPublished(log: seq<Entry>, path: Path): Option<Bytes> {
    if log == [] then None
    else
      var e := log[|log| - 1];
      if e.Published? && e.path == path then Some(e.contents) else LastPublished(log[..|log| - 1], path)
  }

  /** The received directory is the original one overlaid with the latest publication of each name. */
  ghost predicate HoldsLastPublished(original: map<Path, Bytes>, w: World) {
    forall path :: Get(w.received, path) ==
      (if LastPublished(w.log, path).Some? then LastPublished(w.log, path) else Get(original, path))
  }

  lemma LastPublishedAppend(log: seq<Entry>, e: Entry, path: Path)
    ensures LastPublished(log + [e], path) ==
            if e.Published? && e.path == path then Some(e.contents) else LastPublished(log, path)
  {
    assert (log + [e])[..|log|] == log;
  }

  /** A step logs a publication exactly when it changes the received directory. */
  lemma ActLogsPublication(cfg: Config, w: World, id: Uuid, action: Action)
    ensures var w' := Act(cfg, w, id, action);
            if Publishes(w, At(id, action)) then w'.log == w.log + [Published(id, w.live[id].target, w.staging[id])]
            else w'.log == w.log || exists e: Entry :: !e.Published? && w'.log == w.log + [e]
  {
    hide HandlerStep, Admit, DoOpen, HexDigest, WriteAt;
    if Publishes(w, At(id, action)) {
      RenameLogs(cfg, w, id);
    } else if Running(w, id) && !action.Begin? && !action.Signalled? && !action.Drop? && !action.Acknowledge? {
      HandlerLogsNoPublication(cfg, w, id, action);
    } else if action.Begin? && Admit(cfg, action.headers).Ok? {
      OpenLogs(w, id, action.headers, Admit(cfg, action.headers).value, action.outcome);
    }
  }

  lemma RenameLogs(cfg: Config, w: World, id: Uuid)
    requires Publishes(w, At(id, Rename(true)))
    ensures HandlerStep(cfg, w, id, Rename(true)).log == w.log + [Published(id, w.live[id].target, w.staging[id])]
  {
  }

  lemma OpenLogs(w: World, id: Uuid, headers: Headers, r: Request, outcome: OpenOutcome)
    ensures exists e: Entry :: !e.Published? && DoOpen(w, id, headers, r, outcome).log == w.log + [e]
  {
    assert !Replied(id, StorageError).Published? && !Accepted(id, headers).Published?;
  }

  lemma HandlerLogsNoPublication(cfg: Config, w: World, id: Uuid, action: Action)
    requires Running(w, id) && !Publishes(w, At(id, action))
    ensures HandlerStep(cfg, w, id, action).log == w.log
         || exists e: Entry :: !e.Published? && HandlerStep(cfg, w, id, action).log == w.log + [e]
  {
    hide HexDigest, PartAfter, Close, DoLand;
    forall v: World, reply: Reply, part, keep
      ensures Close(v, id, reply, part, keep).log == v.log + [Replied(id, reply)]
    {
      CloseLogs(v, id, reply, part, keep);
    }
    LandLogsNothing(w, id);
  }

  lemma LandLogsNothing(w: World, id: Uuid)
    requires Running(w, id)
    ensures forall n :: DoLand(w, id, n).log == w.log && Running(DoLand(w, id, n), id)
  {
  }

  lemma CloseLogs(w: World, id: Uuid, reply: Reply, part: Option<Bytes>, keep: bool)
    ensures Close(w, id, reply, part, keep).log == w.log + [Replied(id, reply)]
  {
  }

  lemma StepHoldsLastPublished(cfg: Config, original: map<Path, Bytes>, w: World, e: Event)
    requires HoldsLastPublished(original, w)
    ensures HoldsLastPublished(original, Step(cfg, w, e))
  {
    hide Act, LastPublished;
    if e.At? {
      var w' := Act(cfg, w, e.id, e.action);
      ActReceived(cfg, w, e.id, e.action);
      ActLogsPublication(cfg, w, e.id, e.action);
      if w'.log != w.log {
        var x := w'.log[|w'.log| - 1];
        assert w'.log == w.log + [x];
        forall path ensures Get(w'.received, path) ==
          (if LastPublished(w'.log, path).Some? then LastPublished(w'.log, path) else Get(original, path))
        {
          LastPublishedAppend(w.log, x, path);
        }
      }
    }
  }

  /** However transfers interleave, the last rename to a name decides what stands under it. */
  lemma {:induction false} LastRenameWins(cfg: Config, original: map<Path, Bytes>, w: World, events: seq<Event>)
    requires HoldsLastPublished(original, w)
    ensures HoldsLastPublished(original, Run(cfg, w, events))
    decreases |events|
  {
    hide Step, HoldsLastPublished;
    if events != [] {
      StepHoldsLastPublished(cfg, original, w, events[0]);
      LastRenameWins(cfg, original, Step(cfg, w, events[0]), events[1..]);
    }
  }

  /** Nobody but `id` publishes under `path`. */
  ghost predicate OnlyPublisher(log: seq<Entry>, path: Path, id: Uuid) {
    forall e :: e in log && e.Published? && e.path == path ==> e.id == id
  }

  lemma {:induction false} LastPublishedAlone(log: seq<Entry>, path: Path, id: Uuid)
    requires OnlyPublisher(log, path, id)
    ensures LastPublished(log, path) == LastPublished(LogOf(log, id), path)
  {
    if log != [] {
      var init := log[..|log| - 1];
      LastPublishedAlone(init, path, id);
      if log[|log| - 1].id == id {
        LastPublishedAppend(LogOf(init, id), log[|log| - 1], path);
      }
    }
  }

  /** A run of one transfer logs nothing about any other. */
  lemma {:induction false} AloneLogsOwn(cfg: Config, w: World, events: seq<Event>, id: Uuid)
    requires forall e :: e in w.log ==> e.id == id
    ensures forall e :: e in Run(cfg, w, Only(events, id)).log ==> e.id == id
    decreases |events|
  {
    hide Act;
    if events != [] {
      var e := events[0];
      var rest := Only(events[1..], id);
      if e.Crash? || e.id == id {
        assert Only(events, id) == [e] + rest && ([e] + rest)[1..] == rest;
        var w' := Step(cfg, w, e);
        if e.At? {
          ActTouchesOnly(cfg, w, id, e.action);
          assert w'.log != w.log ==> w'.log == w.log + [w'.log[|w'.log| - 1]];
        }
        AloneLogsOwn(cfg, w', events[1..], id);
      } else {
        assert Only(events, id) == rest;
        AloneLogsOwn(cfg, w, events[1..], id);
      }
    }
  }

  /**
   * A received file differs from what its transfer alone would have left only if some other transfer
   * published under the same name.
   */
  lemma ReceivedAsIfAlone(cfg: Config, w: World, events: seq<Event>, id: Uuid, path: Path)
    requires Started(w)
    requires OnlyPublisher(Run(cfg, w, events).log, path, id)
    ensures Get(Run(cfg, w, events).received, path) == Get(Run(cfg, w, Only(events, id)).received, path)
  {
    hide Run;
    AloneLogsOwn(cfg, w, events, id);
    InterleavingIsUnobservable(cfg, w, w, events, id);
    LastRenameWins(cfg, w.received, w, events);
    LastRenameWins(cfg, w.received, w, Only(events, id));
    LastPublishedAlone(Run(cfg, w, events).log, path, id);
    LastPublishedAlone(Run(cfg, w, Only(events, id)).log, path, id);
  }

  /**
   * When the length check tells the truth. Only the request's own bytes are counted, so a published file has
   * the announced length iff the file found at the start had it, or was shorter and the resume point lies
   * before the end. No file holds 2^64 bytes: offsets are signed, and a seek to 2^63 or beyond fails.
   */
  lemma PublishedLengthExact(cfg: Config, w: World, e: Event)
    requires Publishes(w, e) && HandlerSound(cfg, w, e.id) && |w.staging[e.id]| < U64
    ensures var h := w.live[e.id];
            |w.staging[e.id]| == h.total <==>
            |h.found| == h.total || (|h.found| < h.total && h.resume < h.total)
  {
    hide HexDigest;
  }
}
