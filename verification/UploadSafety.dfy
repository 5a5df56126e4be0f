/** What every step of the upload protocol keeps, and what follows for whole runs. */
module UploadSafety {
  import opened Prelude
  import opened StagedFile
  import opened Checksum
  import opened ContentRange
  import opened Filename
  import opened SafePath
  import opened Upload
  import opened UploadIsolation

  /** Where the headers say a file is to go. */
  function TargetOf(cfg: Config, headers: Headers): Path {
    if headers.fileName.None? then [] else cfg.receivedDir + [SanitizeFilename(headers.fileName.value)]
  }

  /**
   * An entry is justified by what came before it: a publication follows the acceptance of a request,
   * goes where that request's name says, and matches the digest that request asked for; a 200 follows
   * a publication.
   */
  ghost predicate Justified(cfg: Config, log: seq<Entry>, e: Entry) {
    match e
    case Accepted(_, _) => true
    case Published(id, path, contents) =>
      var last := LastOf(log, id);
      && last.Some? && last.value.Accepted?
      && path == TargetOf(cfg, last.value.headers)
      && (last.value.headers.sha256.Some? ==>
            HexDigest(cfg.sha, contents) == last.value.headers.sha256.value)
    case Replied(id, reply) =>
      reply.Complete? ==> LastOf(log, id).Some? && LastOf(log, id).value.Published?
  }

  ghost predicate LogSound(cfg: Config, log: seq<Entry>) {
    forall k :: 0 <= k < |log| ==> Justified(cfg, log[..k], log[k])
  }

  lemma LogSoundAppend(cfg: Config, log: seq<Entry>, e: Entry)
    requires LogSound(cfg, log) && Justified(cfg, log, e)
    ensures LogSound(cfg, log + [e])
  {
    hide Justified;
    var longer := log + [e];
    forall k | 0 <= k < |longer| ensures Justified(cfg, longer[..k], longer[k]) {
      if k < |log| {
        assert longer[..k] == log[..k];
      } else {
        assert longer[..k] == log;
      }
    }
  }

  /** The handler's variables agree with the headers it accepted. */
  ghost predicate FromHeaders(cfg: Config, h: Handler, headers: Headers) {
    && Admit(cfg, headers) == Ok(Request(h.target, h.total, h.expected, h.resume))
    && h.target == TargetOf(cfg, headers)
    && h.expected == headers.sha256
  }

  /** The latest entry about a live handler: what it accepted, or after the rename what it published. */
  ghost predicate LoggedSound(cfg: Config, w: World, id: Uuid)
    requires id in w.live
  {
    var last := LastOf(w.log, id);
    && last.Some?
    && (if w.live[id].stage.Moved? then last.value.Published?
        else last.value.Accepted? && FromHeaders(cfg, w.live[id], last.value.headers))
  }

  /** The stages in which the file may lag behind. */
  predicate MayLag(stage: Stage) {
    stage.Receiving? || stage.Holding? || stage.Writing? || stage.Ended?
  }

  /**
   * One live handler: its file holds what was found there overwritten by what has landed of what it received, both
   * byte counters agree with what it received modulo 2^64, and a passed check is still true.
   */
  ghost predicate HandlerSound(cfg: Config, w: World, id: Uuid)
    requires id in w.live
  {
    var h := w.live[id];
    && id in w.sessions
    && h.written == AddU64(h.resume, |h.fed|) == w.sessions[id].bytes
    && w.sessions[id].total == h.total
    && (h.resume == 0 ==> h.found == [])
    && h.pending <= |h.fed| && (h.pending > 0 ==> MayLag(h.stage))
    && (h.stage.Sized? || h.stage.Verified? || h.stage.Moved? ==> h.written == h.total)
    && (if h.stage.Moved? then id !in w.staging
        else id in w.staging && w.staging[id] == WriteAt(h.found, h.resume, h.fed[..h.Landed()]))
    && (h.stage.Verified? && h.expected.Some? ==> HexDigest(cfg.sha, w.staging[id]) == h.expected.value)
  }

  ghost predicate Inv(cfg: Config, w: World) {
    && LogSound(cfg, w.log)
    && forall id :: id in w.live ==> HandlerSound(cfg, w, id) && LoggedSound(cfg, w, id)
  }

  /** A server that has just started, over whatever files earlier runs left behind. */
  predicate Started(w: World) {
    w.live == map[] && w.sessions == map[] && w.log == []
  }

  lemma QueuePrefix(fed: Bytes, chunk: Bytes, landed: nat, n: nat)
    requires landed <= |fed|
    ensures var queue := fed[landed..] + chunk;
            var piece := if n < |queue| then queue[..n] else queue;
            var end := if n < |queue| then landed + n else |fed| + |chunk|;
            |piece| == end - landed && fed[..landed] + piece == (fed + chunk)[..end]
  {
  }

  /** Writing on from what has landed: the file is what was found overwritten by that much more. */
  lemma PartAfterIs(cfg: Config, w: World, id: Uuid, chunk: Bytes, n: nat)
    requires id in w.live && HandlerSound(cfg, w, id) && Running(w, id)
    ensures var h := w.live[id];
            var end := if n < h.pending + |chunk| then h.Landed() + n else |h.fed| + |chunk|;
            PartAfter(w, id, chunk, n) == WriteAt(h.found, h.resume, (h.fed + chunk)[..end])
  {
    hide WriteAt, HexDigest, AddU64;
    var h := w.live[id];
    var queue := h.Tail() + chunk;
    QueuePrefix(h.fed, chunk, h.Landed(), n);
    WriteAtCompose(h.found, h.resume, h.fed[..h.Landed()], if n < |queue| then queue[..n] else queue);
  }

  /** Accepted bytes that land bring the file forward, and nothing else changes. */
  lemma LandKeepsHandler(cfg: Config, w: World, id: Uuid, n: nat)
    requires id in w.live && HandlerSound(cfg, w, id) && Running(w, id) && MayLag(w.live[id].stage)
    ensures var w' := DoLand(w, id, n);
            && Running(w', id) && HandlerSound(cfg, w', id)
            && w'.live[id] == w.live[id].(pending := w'.live[id].pending)
            && w'.live[id].Landed() >= w.live[id].Landed()
    ensures n >= w.live[id].pending ==> DoLand(w, id, n).live[id].pending == 0
  {
    hide HexDigest, AddU64;
    PartAfterIs(cfg, w, id, [], n);
    hide PartAfter, WriteAt;
    var h := w.live[id];
    var h' := DoLand(w, id, n).live[id];
    assert h.fed + [] == h.fed;
    assert h'.Landed() == if n < h.pending then h.Landed() + n else |h.fed|;
  }

  /** With nothing pending there is nothing to land. */
  lemma LandNothing(cfg: Config, w: World, id: Uuid, n: nat)
    requires id in w.live && HandlerSound(cfg, w, id) && Running(w, id) && w.live[id].pending == 0
    ensures DoLand(w, id, n) == w
  {
    hide HexDigest, AddU64;
    var h := w.live[id];
    PartAfterIs(cfg, w, id, [], n);
    hide PartAfter, WriteAt;
    assert h.fed + [] == h.fed && h.fed[..|h.fed|] == h.fed;
    assert w.staging[id := w.staging[id]] == w.staging;
    assert w.live[id := h] == w.live;
  }

  /** Accepting one chunk keeps the file, the session and the handler in step. */
  lemma WriteKeepsHandler(cfg: Config, w: World, id: Uuid, chunk: Bytes)
    requires id in w.live && HandlerSound(cfg, w, id) && Running(w, id) && w.live[id].stage == Writing(chunk)
    ensures HandlerSound(cfg, DoWrite(w, id, chunk), id)
    ensures chunk != [] ==>
              var h' := DoWrite(w, id, chunk).live[id];
              h'.Landed() == |w.live[id].fed| && h'.Tail() == chunk
  {
    hide HexDigest, WriteAt, AddU64, PartAfter, DoLand;
    var h := w.live[id];
    AddU64Twice(h.resume, |h.fed|, |chunk|);
    if chunk == [] {
      assert h.fed + chunk == h.fed;
    } else {
      LandKeepsHandler(cfg, w, id, |h.Tail()|);
      assert (h.fed + chunk)[..|h.fed|] == h.fed[..|h.fed|];
    }
  }

  /** A flush that goes on leaves nothing pending. */
  lemma FlushKeepsHandler(cfg: Config, w: World, id: Uuid, flushed: bool)
    requires id in w.live && HandlerSound(cfg, w, id) && Running(w, id) && w.live[id].stage == Ended
    ensures var w' := DoFlush(w, id, flushed);
            id in w'.live ==> HandlerSound(cfg, w', id)
  {
    hide HexDigest, WriteAt, AddU64, PartAfter, DoLand;
    LandKeepsHandler(cfg, w, id, |w.live[id].Tail()|);
  }

  /** What the digest step compares is always the digest of the file. */
  lemma VerifyKeepsHandler(cfg: Config, w: World, id: Uuid, readable: bool, removable: bool)
    requires id in w.live && HandlerSound(cfg, w, id) && Running(w, id) && w.live[id].stage == Sized
    ensures var w' := DoVerify(cfg, w, id, readable, removable);
            id in w'.live ==> HandlerSound(cfg, w', id)
  {
    hide HexDigest, WriteAt, AddU64;
    var h := w.live[id];
    assert h.fed[..|h.fed|] == h.fed;
    if h.resume == 0 {
      WriteAtStart(h.fed);
    }
  }

  lemma StagesKeepHandler(cfg: Config, w: World, id: Uuid, action: Action)
    requires id in w.live && HandlerSound(cfg, w, id) && Running(w, id)
    ensures var w' := HandlerStep(cfg, w, id, action); id in w'.live ==> HandlerSound(cfg, w', id)
  {
    hide HexDigest, WriteAt, AddU64, PartAfter, DoLand, DoWrite, DoFlush, DoVerify;
    var stage := w.live[id].stage;
    if action.Write? && stage.Writing? {
      WriteKeepsHandler(cfg, w, id, stage.chunk);
    } else if action.Land? {
      if MayLag(stage) {
        LandKeepsHandler(cfg, w, id, action.n);
      } else {
        LandNothing(cfg, w, id, action.n);
      }
    } else if action.Flush? && stage.Ended? {
      FlushKeepsHandler(cfg, w, id, action.flushed);
    } else if action.Verify? && stage.Sized? {
      VerifyKeepsHandler(cfg, w, id, action.readable, action.removable);
    }
  }

  lemma ActKeepsHandler(cfg: Config, w: World, id: Uuid, action: Action)
    requires id in w.live ==> HandlerSound(cfg, w, id)
    ensures var w' := Act(cfg, w, id, action); id in w'.live ==> HandlerSound(cfg, w', id)
  {
    hide HexDigest, WriteAt, HandlerStep, Admit;
    if id in w.live && Running(w, id) {
      StagesKeepHandler(cfg, w, id, action);
    }
  }

  lemma LastOfAppend(log: seq<Entry>, e: Entry)
    ensures LastOf(log + [e], e.id) == Some(e)
  {
    LogOfAppend(log, e, e.id);
  }

  /** An accepted request goes where its name says, directly under the received directory. */
  lemma AdmittedFromHeaders(cfg: Config, headers: Headers)
    requires Admit(cfg, headers).Ok?
    ensures Admit(cfg, headers).value.target == TargetOf(cfg, headers)
    ensures Admit(cfg, headers).value.expected == headers.sha256
  {
    hide SanitizeFilename, Resolve, ParseU64, ResumeOffset;
    SanitizedJoinsDirectlyUnderBase(cfg.receivedDir, headers.fileName.value);
  }

  lemma BeginKeepsLog(cfg: Config, w: World, id: Uuid, headers: Headers, outcome: OpenOutcome)
    requires LogSound(cfg, w.log) && id !in w.live
    ensures var w' := DoBegin(cfg, w, id, headers, outcome);
            LogSound(cfg, w'.log) && (id in w'.live ==> LoggedSound(cfg, w', id))
  {
    hide LogSound, LastOf, Admit, OpenedContents;
    match Admit(cfg, headers) {
      case Err(reply) =>
        AdmitNeverCompletes(cfg, headers);
        LogSoundAppend(cfg, w.log, Replied(id, reply));
      case Ok(request) =>
        AdmittedFromHeaders(cfg, headers);
        LogSoundAppend(cfg, w.log, Replied(id, StorageError));
        LogSoundAppend(cfg, w.log, Accepted(id, headers));
        LastOfAppend(w.log, Accepted(id, headers));
    }
  }

  lemma AdmitNeverCompletes(cfg: Config, headers: Headers)
    ensures Admit(cfg, headers).Err? ==> !Admit(cfg, headers).error.Complete?
  {
    hide SanitizeFilename, Resolve, ParseU64, ResumeOffset;
  }

  lemma CloseKeepsLog(cfg: Config, w: World, id: Uuid, reply: Reply, part: Option<Bytes>, keep: bool)
    requires LogSound(cfg, w.log)
    requires reply.Complete? ==> LastOf(w.log, id).Some? && LastOf(w.log, id).value.Published?
    ensures var w' := Close(w, id, reply, part, keep); id !in w'.live && LogSound(cfg, w'.log)
  {
    hide LogSound, LastOf;
    LogSoundAppend(cfg, w.log, Replied(id, reply));
  }

  lemma RenameKeepsLog(cfg: Config, w: World, id: Uuid, renamed: bool)
    requires LogSound(cfg, w.log) && Running(w, id) && w.live[id].stage.Verified?
    requires HandlerSound(cfg, w, id) && LoggedSound(cfg, w, id)
    ensures var w' := DoRename(w, id, renamed);
            LogSound(cfg, w'.log) && (id in w'.live ==> LoggedSound(cfg, w', id))
  {
    hide LogSound, LastOf, HexDigest, WriteAt, TargetOf, Admit;
    var entry := Published(id, w.live[id].target, w.staging[id]);
    CloseKeepsLog(cfg, w, id, RenameFailed, Some(w.staging[id]), true);
    LogSoundAppend(cfg, w.log, entry);
    LastOfAppend(w.log, entry);
  }

  lemma FlushKeepsLog(cfg: Config, w: World, id: Uuid, flushed: bool)
    requires LogSound(cfg, w.log) && Running(w, id) && w.live[id].stage.Ended? && LoggedSound(cfg, w, id)
    ensures var w' := DoFlush(w, id, flushed);
            LogSound(cfg, w'.log) && (id in w'.live ==> LoggedSound(cfg, w', id))
  {
    hide LogSound, LastOf, PartAfter, TargetOf, Admit, Close;
    var h := w.live[id];
    CloseKeepsLog(cfg, w, id, FlushFailed, Some(w.staging[id]), true);
    CloseKeepsLog(cfg, Settle(w, id), id, Partial(h.written, h.total), Some(Settle(w, id).staging[id]), false);
  }

  lemma StagesKeepLog(cfg: Config, w: World, id: Uuid, action: Action)
    requires LogSound(cfg, w.log) && Running(w, id)
    requires HandlerSound(cfg, w, id) && LoggedSound(cfg, w, id)
    ensures var w' := HandlerStep(cfg, w, id, action);
            LogSound(cfg, w'.log) && (id in w'.live ==> LoggedSound(cfg, w', id))
  {
    hide LogSound, LastOf, HexDigest, WriteAt, TargetOf, Admit, Close, DoFlush, DoRename, PartAfter;
    forall reply: Reply, part, keep | !reply.Complete?
      ensures id !in Close(w, id, reply, part, keep).live && LogSound(cfg, Close(w, id, reply, part, keep).log)
    {
      CloseKeepsLog(cfg, w, id, reply, part, keep);
    }
    if action.Flush? && w.live[id].stage.Ended? {
      FlushKeepsLog(cfg, w, id, action.flushed);
    } else if action.Rename? && w.live[id].stage.Verified? {
      RenameKeepsLog(cfg, w, id, action.renamed);
    }
  }

  /** One POST per id at a time: a second one is outside the model. */
  lemma BeginWhileLive(cfg: Config, w: World, id: Uuid, headers: Headers, outcome: OpenOutcome)
    requires id in w.live
    ensures DoBegin(cfg, w, id, headers, outcome) == w
  {
  }

  lemma ActKeepsLog(cfg: Config, w: World, id: Uuid, action: Action)
    requires LogSound(cfg, w.log)
    requires id in w.live ==> HandlerSound(cfg, w, id) && LoggedSound(cfg, w, id)
    ensures var w' := Act(cfg, w, id, action);
            LogSound(cfg, w'.log) && (id in w'.live ==> LoggedSound(cfg, w', id))
  {
    hide LogSound, LastOf, HexDigest, WriteAt, TargetOf, DoBegin, Admit, Close, HandlerStep, PartAfter;
    if id !in w.live {
      if action.Begin? {
        BeginKeepsLog(cfg, w, id, action.headers, action.outcome);
      }
    } else if action.Begin? {
      BeginWhileLive(cfg, w, id, action.headers, action.outcome);
    } else if action.Acknowledge? && w.live[id].stage.Moved? {
      CloseKeepsLog(cfg, w, id, Complete, Get(w.staging, id), false);
    } else if Running(w, id) {
      StagesKeepLog(cfg, w, id, action);
    }
  }

  lemma SoundByAgreement(cfg: Config, v: World, w: World, id: Uuid)
    requires Agree(v, w, id) && id in v.live
    requires id in w.live ==> HandlerSound(cfg, w, id) && LoggedSound(cfg, w, id)
    ensures HandlerSound(cfg, v, id) && LoggedSound(cfg, v, id)
  {
    hide HexDigest, WriteAt, LogOf, FromHeaders;
  }

  /** Every step, of any transfer, keeps the invariant of all of them. */
  lemma StepKeepsInv(cfg: Config, w: World, e: Event)
    requires Inv(cfg, w)
    ensures Inv(cfg, Step(cfg, w, e))
  {
    hide Act, LogSound, HandlerSound, LoggedSound, Agree;
    if e.At? {
      var w' := Act(cfg, w, e.id, e.action);
      ActKeepsHandler(cfg, w, e.id, e.action);
      ActKeepsLog(cfg, w, e.id, e.action);
      forall id | id in w'.live && id != e.id ensures HandlerSound(cfg, w', id) && LoggedSound(cfg, w', id) {
        ActElsewhere(cfg, w, e.id, e.action, id);
        SoundByAgreement(cfg, w', w, id);
      }
    }
  }

  lemma {:induction false} RunKeepsInv(cfg: Config, w: World, events: seq<Event>)
    requires Inv(cfg, w)
    ensures Inv(cfg, Run(cfg, w, events))
    decreases |events|
  {
    hide Inv, Step;
    if events != [] {
      StepKeepsInv(cfg, w, events[0]);
      RunKeepsInv(cfg, Step(cfg, w, events[0]), events[1..]);
    }
  }
}
