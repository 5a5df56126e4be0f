/** Honest senders: whatever is cut, dropped, retried or crashed, the file that arrives is the file that was sent. */
module UploadResume {
  import opened Prelude
  import opened StagedFile
  import opened Checksum
  import opened Session
  import opened ContentRange
  import opened Filename
  import opened SafePath
  import opened Upload
  import opened UploadIsolation
  import opened UploadSafety
  import opened UploadTheorems

  /** A digest header that is absent or right. */
  predicate HonestDigest(cfg: Config, source: Bytes, expected: Option<string>) {
    expected.Some? ==> expected.value == HexDigest(cfg.sha, source)
  }

  /** `data` is what `source` holds from `pos` on. */
  predicate PieceOf(source: Bytes, pos: nat, data: Bytes) {
    pos + |data| <= |source| && data == source[pos..pos + |data|]
  }

  function InHand(stage: Stage): Bytes {
    match stage
    case Holding(chunk) => chunk
    case Writing(chunk) => chunk
    case _ => []
  }

  /** A handler that found a prefix of `source` and is being fed `source` from a point within that prefix. */
  ghost predicate Feeding(cfg: Config, source: Bytes, h: Handler) {
    && h.found <= source && h.resume <= |h.found|
    && PieceOf(source, h.resume, h.fed)
    && PieceOf(source, h.Position(), InHand(h.stage))
    && h.total == |source|
    && HonestDigest(cfg, source, h.expected)
  }

  /** Transfer `id` is on its way to delivering `source`, or has delivered it. */
  ghost predicate Delivering(cfg: Config, source: Bytes, w: World, id: Uuid) {
    && |source| < U64
    && (id in w.staging ==> w.staging[id] <= source)
    && (id in w.live ==> Feeding(cfg, source, w.live[id]))
    && (forall e :: e in w.log ==> e != Replied(id, ChecksumMismatch))
    && (forall e :: e in w.log && e.Published? && e.id == id ==> e.contents == source)
  }

  /**
   * What an honest sender of `source` may do next: start anywhere up to the length of the partial file,
   * send any piece of what follows, of any size. Errors, cuts and signals are unrestricted.
   */
  ghost predicate HonestAction(cfg: Config, source: Bytes, w: World, id: Uuid, action: Action) {
    match action
    case Begin(headers, _) =>
      id !in w.live && Admit(cfg, headers).Ok? ==>
        var r := Admit(cfg, headers).value;
        && r.total == |source| && HonestDigest(cfg, source, r.expected)
        && r.resume <= |OpenedContents(w, id, r.resume)|
    case Chunk(bytes, _) =>
      id in w.live ==> PieceOf(source, w.live[id].Position(), bytes)
    case _ => true
  }

  ghost predicate HonestRun(cfg: Config, source: Bytes, w: World, events: seq<Event>, id: Uuid)
    decreases |events|
  {
    events != [] ==>
      && (events[0].At? && events[0].id == id ==> HonestAction(cfg, source, w, id, events[0].action))
      && HonestRun(cfg, source, Step(cfg, w, events[0]), events[1..], id)
  }

  lemma PieceTake(source: Bytes, pos: nat, data: Bytes, n: nat)
    requires PieceOf(source, pos, data) && n <= |data|
    ensures PieceOf(source, pos, data[..n])
  {
  }

  lemma PieceAppend(source: Bytes, pos: nat, a: Bytes, b: Bytes)
    requires PieceOf(source, pos, a) && PieceOf(source, pos + |a|, b)
    ensures PieceOf(source, pos, a + b)
  {
  }

  /** The partial file, written or torn, stays a prefix; at the end it is the whole source. */
  lemma FedFileIsPrefix(cfg: Config, source: Bytes, h: Handler, chunk: Bytes, n: nat)
    requires Feeding(cfg, source, h) && PieceOf(source, h.Position(), chunk) && n <= |h.fed| + |chunk|
    ensures WriteAt(h.found, h.resume, (h.fed + chunk)[..n]) <= source
    ensures h.Position() == |source| ==> WriteAt(h.found, h.resume, h.fed) == source
  {
    hide WriteAt, HonestDigest;
    PieceAppend(source, h.resume, h.fed, chunk);
    PieceTake(source, h.resume, h.fed + chunk, n);
    WriteAtKeepsPrefix(source, h.found, h.resume, (h.fed + chunk)[..n]);
    WriteAtKeepsPrefix(source, h.found, h.resume, h.fed);
  }

  lemma PartAfterIsPrefix(cfg: Config, source: Bytes, w: World, id: Uuid, chunk: Bytes, n: nat)
    requires Delivering(cfg, source, w, id) && Running(w, id) && HandlerSound(cfg, w, id)
    requires chunk == [] || chunk == InHand(w.live[id].stage)
    ensures PartAfter(w, id, chunk, n) <= source
  {
    hide WriteAt, HexDigest, AddU64, PartAfter;
    var h := w.live[id];
    FeedingBounds(cfg, source, h);
    PartAfterIs(cfg, w, id, chunk, n);
    FedFileIsPrefix(cfg, source, h, chunk, if n < h.pending + |chunk| then h.Landed() + n else |h.fed| + |chunk|);
  }

  lemma FeedingBounds(cfg: Config, source: Bytes, h: Handler)
    requires Feeding(cfg, source, h)
    ensures h.Position() + |InHand(h.stage)| <= |source| && PieceOf(source, h.Position(), [])
  {
  }

  /** At the announced length the file is the source, and so are the bytes fed to a fresh request's hasher. */
  lemma CompleteIsSource(cfg: Config, source: Bytes, w: World, id: Uuid)
    requires Delivering(cfg, source, w, id) && Running(w, id) && HandlerSound(cfg, w, id)
    requires w.live[id].stage.Sized? || w.live[id].stage.Verified?
    ensures w.staging[id] == source
    ensures w.live[id].resume == 0 ==> w.live[id].fed == source
  {
    hide WriteAt, HexDigest;
    var h := w.live[id];
    assert h.Position() == |source|;
    assert h.fed[..|h.fed|] == h.fed;
    FeedingBounds(cfg, source, h);
    FedFileIsPrefix(cfg, source, h, [], 0);
    WriteAtStart(h.fed);
  }

  lemma LandDelivers(cfg: Config, source: Bytes, w: World, id: Uuid, n: nat)
    requires Delivering(cfg, source, w, id) && Running(w, id) && HandlerSound(cfg, w, id)
    ensures Delivering(cfg, source, DoLand(w, id, n), id)
  {
    hide HonestDigest, HandlerSound;
    PartAfterIsPrefix(cfg, source, w, id, [], n);
    hide PartAfter;
  }

  lemma AcceptDelivers(cfg: Config, source: Bytes, w: World, id: Uuid, h': Handler, sessions: map<Uuid, SessionState>)
    requires Delivering(cfg, source, w, id) && id in w.live && w.live[id].stage.Writing?
    requires var h := w.live[id];
             h' == h.(fed := h.fed + h.stage.chunk, pending := h'.pending, written := h'.written, stage := Receiving)
    ensures Delivering(cfg, source, w.(sessions := sessions, live := w.live[id := h']), id)
  {
    hide HonestDigest;
    PieceAppend(source, w.live[id].resume, w.live[id].fed, w.live[id].stage.chunk);
  }

  lemma WriteDelivers(cfg: Config, source: Bytes, w: World, id: Uuid)
    requires Delivering(cfg, source, w, id) && Running(w, id) && HandlerSound(cfg, w, id) && w.live[id].stage.Writing?
    ensures Delivering(cfg, source, DoWrite(w, id, w.live[id].stage.chunk), id)
  {
    hide HonestDigest, HandlerSound, Feeding, Delivering, DoLand, AddU64;
    var chunk := w.live[id].stage.chunk;
    var v := if chunk == [] then w else Settle(w, id);
    LandDelivers(cfg, source, w, id, |w.live[id].Tail()|);
    LandsRunning(w, id, |w.live[id].Tail()|);
    var w' := DoWrite(w, id, chunk);
    AcceptDelivers(cfg, source, v, id, w'.live[id], w'.sessions);
  }

  lemma FlushDelivers(cfg: Config, source: Bytes, w: World, id: Uuid, flushed: bool)
    requires Delivering(cfg, source, w, id) && Running(w, id) && HandlerSound(cfg, w, id) && w.live[id].stage.Ended?
    ensures Delivering(cfg, source, DoFlush(w, id, flushed), id)
  {
    hide HonestDigest, HandlerSound, DoLand, Close, Feeding;
    var h := w.live[id];
    LandDelivers(cfg, source, w, id, |h.Tail()|);
    LandsRunning(w, id, |h.Tail()|);
    CloseDelivers(cfg, source, w, id, FlushFailed, Some(w.staging[id]), true);
    CloseDelivers(cfg, source, Settle(w, id), id, Partial(h.written, h.total), Some(Settle(w, id).staging[id]), false);
    hide Delivering;
    StageDelivers(cfg, source, Settle(w, id), id, Sized);
  }

  lemma LandsRunning(w: World, id: Uuid, n: nat)
    requires Running(w, id)
    ensures Running(DoLand(w, id, n), id) && DoLand(w, id, n).live[id].stage == w.live[id].stage
  {
    hide PartAfter;
  }

  lemma StageDelivers(cfg: Config, source: Bytes, w: World, id: Uuid, stage: Stage)
    requires Delivering(cfg, source, w, id) && id in w.live && InHand(stage) == []
    ensures Delivering(cfg, source, SetStage(w, id, stage), id)
  {
    hide HonestDigest;
  }

  lemma CloseDelivers(cfg: Config, source: Bytes, w: World, id: Uuid, reply: Reply, part: Option<Bytes>, keep: bool)
    requires Delivering(cfg, source, w, id) && reply != ChecksumMismatch
    requires part.Some? ==> part.value <= source
    ensures Delivering(cfg, source, Close(w, id, reply, part, keep), id)
  {
    hide Feeding;
  }

  lemma VerifyDelivers(cfg: Config, source: Bytes, w: World, id: Uuid, readable: bool, removable: bool)
    requires Delivering(cfg, source, w, id) && Running(w, id) && HandlerSound(cfg, w, id) && w.live[id].stage.Sized?
    ensures Delivering(cfg, source, DoVerify(cfg, w, id, readable, removable), id)
  {
    hide Close, HexDigest;
    CompleteIsSource(cfg, source, w, id);
    CloseDelivers(cfg, source, w, id, RehashFailed, Some(w.staging[id]), true);
  }

  lemma RenameDelivers(cfg: Config, source: Bytes, w: World, id: Uuid, renamed: bool)
    requires Delivering(cfg, source, w, id) && Running(w, id) && HandlerSound(cfg, w, id) && w.live[id].stage.Verified?
    ensures Delivering(cfg, source, DoRename(w, id, renamed), id)
  {
    hide Close, HexDigest;
    CompleteIsSource(cfg, source, w, id);
    CloseDelivers(cfg, source, w, id, RenameFailed, Some(w.staging[id]), true);
  }

  lemma HandlerDelivers(cfg: Config, source: Bytes, w: World, id: Uuid, action: Action)
    requires Delivering(cfg, source, w, id) && Running(w, id) && HandlerSound(cfg, w, id)
    requires HonestAction(cfg, source, w, id, action)
    ensures Delivering(cfg, source, HandlerStep(cfg, w, id, action), id)
  {
    hide Close, HexDigest, AddU64, DoLand, DoWrite, DoFlush, DoVerify, DoRename, PartAfter, HonestDigest, HandlerSound;
    var stage := w.live[id].stage;
    forall reply: Reply, part: Option<Bytes>, keep | reply != ChecksumMismatch && (part.Some? ==> part.value <= source)
      ensures Delivering(cfg, source, Close(w, id, reply, part, keep), id)
    {
      CloseDelivers(cfg, source, w, id, reply, part, keep);
    }
    if action.Write? && stage.Writing? {
      WriteDelivers(cfg, source, w, id);
    } else if action.Land? {
      LandDelivers(cfg, source, w, id, action.n);
    } else if action.WriteError? && stage.Writing? {
      PartAfterIsPrefix(cfg, source, w, id, stage.chunk, action.torn);
    } else if action.Flush? && stage.Ended? {
      FlushDelivers(cfg, source, w, id, action.flushed);
    } else if action.Verify? && stage.Sized? {
      VerifyDelivers(cfg, source, w, id, action.readable, action.removable);
    } else if action.Rename? && stage.Verified? {
      RenameDelivers(cfg, source, w, id, action.renamed);
    }
  }

  lemma OpenDelivers(cfg: Config, source: Bytes, w: World, id: Uuid, headers: Headers, r: Request, outcome: OpenOutcome)
    requires Delivering(cfg, source, w, id) && id !in w.live
    requires r.total == |source| && HonestDigest(cfg, source, r.expected)
    requires r.resume <= |OpenedContents(w, id, r.resume)|
    ensures Delivering(cfg, source, DoOpen(w, id, headers, r, outcome), id)
  {
    hide HonestDigest;
  }

  lemma BeginDelivers(cfg: Config, source: Bytes, w: World, id: Uuid, headers: Headers, outcome: OpenOutcome)
    requires Delivering(cfg, source, w, id) && HonestAction(cfg, source, w, id, Begin(headers, outcome))
    ensures Delivering(cfg, source, DoBegin(cfg, w, id, headers, outcome), id)
  {
    hide Admit, DoOpen, Feeding;
    AdmitAnswersHeaders(cfg, headers);
    if id !in w.live && Admit(cfg, headers).Ok? {
      OpenDelivers(cfg, source, w, id, headers, Admit(cfg, headers).value, outcome);
    }
  }

  lemma AdmitAnswersHeaders(cfg: Config, headers: Headers)
    ensures Admit(cfg, headers).Err? ==> Admit(cfg, headers).error in {MissingFileName, MissingTotalSize, UnsafePath}
  {
    hide SanitizeFilename, Resolve, ParseU64, ResumeOffset;
  }

  lemma ActDelivers(cfg: Config, source: Bytes, w: World, id: Uuid, action: Action)
    requires Delivering(cfg, source, w, id) && HonestAction(cfg, source, w, id, action)
    requires id in w.live ==> HandlerSound(cfg, w, id)
    ensures Delivering(cfg, source, Act(cfg, w, id, action), id)
  {
    hide HandlerSound, DoBegin, HandlerStep, PartAfter, Close, Admit, Feeding;
    if action.Begin? {
      BeginDelivers(cfg, source, w, id, action.headers, action.outcome);
    } else if action.Acknowledge? && id in w.live {
      CloseDelivers(cfg, source, w, id, Complete, Get(w.staging, id), false);
    } else if Running(w, id) {
      if action.Drop? {
        PartAfterIsPrefix(cfg, source, w, id, BeingWritten(w.live[id].stage), action.cut);
      }
      HandlerDelivers(cfg, source, w, id, action);
    }
  }

  lemma OthersDeliver(cfg: Config, source: Bytes, w: World, id: Uuid, other: Uuid, action: Action)
    requires Delivering(cfg, source, w, id) && id != other
    ensures Delivering(cfg, source, Act(cfg, w, other, action), id)
  {
    hide Act, Feeding;
    ActTouchesOnly(cfg, w, other, action);
    var w' := Act(cfg, w, other, action);
    assert Get(w.staging, id) == Get(w'.staging, id) && Get(w.live, id) == Get(w'.live, id);
    assert w'.log != w.log ==> w'.log == w.log + [w'.log[|w'.log| - 1]];
  }

  lemma StepDelivers(cfg: Config, source: Bytes, w: World, e: Event, id: Uuid)
    requires Inv(cfg, w) && Delivering(cfg, source, w, id)
    requires e.At? && e.id == id ==> HonestAction(cfg, source, w, id, e.action)
    ensures Delivering(cfg, source, Step(cfg, w, e), id)
  {
    hide Act, HonestAction, Feeding, HandlerSound, LoggedSound, LogSound;
    if e.At? {
      if e.id == id {
        ActDelivers(cfg, source, w, id, e.action);
      } else {
        OthersDeliver(cfg, source, w, id, e.id, e.action);
      }
    }
  }

  lemma {:induction false} RunDelivers(cfg: Config, source: Bytes, w: World, events: seq<Event>, id: Uuid)
    requires Inv(cfg, w) && Delivering(cfg, source, w, id) && HonestRun(cfg, source, w, events, id)
    ensures Delivering(cfg, source, Run(cfg, w, events), id)
    decreases |events|
  {
    hide Step, Inv, Delivering, HonestAction;
    if events != [] {
      StepKeepsInv(cfg, w, events[0]);
      StepDelivers(cfg, source, w, events[0], id);
      RunDelivers(cfg, source, Step(cfg, w, events[0]), events[1..], id);
    }
  }

  /**
   * For every source file and every run in which the sender of `id` is honest, with any chunk sizes, cuts, torn
   * writes, cancels, crashes, restarts of the sender and any behaviour of other transfers: the partial file is
   * always a prefix of the source, whatever is published is exactly the source, and no mismatch is ever reported.
   */
  lemma HonestSenderDeliversTheSource(cfg: Config, source: Bytes, w: World, events: seq<Event>, id: Uuid)
    requires Started(w) && |source| < U64 && (id in w.staging ==> w.staging[id] <= source)
    requires HonestRun(cfg, source, w, events, id)
    ensures var w' := Run(cfg, w, events);
            && (id in w'.staging ==> w'.staging[id] <= source)
            && (forall path, contents :: Published(id, path, contents) in w'.log ==> contents == source)
            && Replied(id, ChecksumMismatch) !in w'.log
  {
    StartedInv(cfg, w);
    RunDelivers(cfg, source, w, events, id);
  }

  function Flatten(chunks: seq<Bytes>): Bytes {
    if chunks == [] then [] else chunks[0] + Flatten(chunks[1..])
  }

  /** A chunk of a body, and how many of the bytes then pending reach the file before the next one comes. */
  datatype Piece = Piece(chunk: Bytes, landing: nat)

  function Chunks(pieces: seq<Piece>): seq<Bytes> {
    if pieces == [] then [] else [pieces[0].chunk] + Chunks(pieces[1..])
  }

  /** The bytes of a body. */
  function Data(pieces: seq<Piece>): Bytes {
    Flatten(Chunks(pieces))
  }

  lemma OnePiece(chunk: Bytes, landing: nat)
    ensures Data([Piece(chunk, landing)]) == chunk
  {
    var pieces := [Piece(chunk, landing)];
    assert pieces[1..] == [] && Chunks(pieces) == [chunk];
    assert Flatten([chunk][1..]) == [] && chunk + [] == chunk;
  }

  /** The steps that take in one chunk undisturbed. */
  function ChunkEvents(id: Uuid, piece: Piece): seq<Event> {
    [At(id, Chunk(piece.chunk, true)), At(id, Proceed), At(id, Write), At(id, Land(piece.landing))]
  }

  function BodyEvents(id: Uuid, pieces: seq<Piece>): seq<Event> {
    if pieces == [] then [] else ChunkEvents(id, pieces[0]) + BodyEvents(id, pieces[1..])
  }

  /** The steps after the last chunk when no system call fails. */
  function EndEvents(id: Uuid): seq<Event> {
    [At(id, EndOfStream), At(id, Flush(true)), At(id, Verify(true, true)), At(id, Rename(true)), At(id, Acknowledge)]
  }

  predicate Flowing(w: World, id: Uuid) {
    && Running(w, id) && w.live[id].stage.Receiving? && w.live[id].pending <= |w.live[id].fed|
    && !w.sessions[id].paused && !w.sessions[id].cancelled
  }

  /** The world after `data` more bytes have been taken in and everything has reached the file. */
  function Fed(w: World, id: Uuid, data: Bytes): World
    requires Running(w, id)
  {
    var h := w.live[id];
    w.(staging := w.staging[id := WriteAt(w.staging[id], h.resume + h.Landed(), h.Tail() + data)],
       sessions := w.sessions[id := w.sessions[id].AddBytes(|data|)],
       live := w.live[id := h.(fed := h.fed + data, pending := 0, written := AddU64(h.written, |data|))])
  }

  lemma FedNothing(w: World, id: Uuid)
    requires Running(w, id) && w.live[id].pending <= |w.live[id].fed|
    ensures Fed(w, id, []) == Settle(w, id)
  {
    hide WriteAt;
    var h := w.live[id];
    assert h.fed + [] == h.fed && h.Tail() + [] == h.Tail();
    assert w.sessions[id := w.sessions[id]] == w.sessions;
  }

  lemma TailAfterLanding(h: Handler, n: nat, data: Bytes)
    requires h.pending <= |h.fed|
    ensures var piece := h.Tail()[..if n < h.pending then n else h.pending];
            var h' := h.(pending := h.pending - |piece|);
            && |h.Tail()| == h.pending
            && h'.Landed() == h.Landed() + |piece| && h'.Tail() == h.Tail()[|piece|..]
            && piece + (h'.Tail() + data) == h.Tail() + data
  {
  }

  /** What landing does, with the piece that lands spelled out. */
  lemma LandsPiece(w: World, id: Uuid, n: nat)
    requires Running(w, id) && w.live[id].pending <= |w.live[id].fed|
    ensures var h := w.live[id];
            |h.Tail()| == h.pending &&
            var piece := h.Tail()[..if n < h.pending then n else h.pending];
            DoLand(w, id, n) ==
            w.(staging := w.staging[id := WriteAt(w.staging[id], h.resume + h.Landed(), piece)],
               live := w.live[id := h.(pending := h.pending - |piece|)])
  {
    hide WriteAt;
    assert w.live[id].Tail() + [] == w.live[id].Tail();
  }

  /** Landing changes nothing that is left once everything has landed. */
  lemma LandThenFed(w: World, id: Uuid, n: nat, data: Bytes)
    requires Running(w, id) && w.live[id].pending <= |w.live[id].fed|
    ensures var w' := DoLand(w, id, n);
            Running(w', id) && w'.live[id].pending <= |w'.live[id].fed| && Fed(w', id, data) == Fed(w, id, data)
  {
    hide WriteAt, AddU64, DoLand, Handler.Landed, Handler.Tail;
    var h := w.live[id];
    LandsPiece(w, id, n);
    TailAfterLanding(h, n, data);
    var piece := h.Tail()[..if n < h.pending then n else h.pending];
    var h' := h.(pending := h.pending - |piece|);
    WriteAtCompose(w.staging[id], h.resume + h.Landed(), piece, h'.Tail() + data);
  }

  /** An accepted chunk is in what everything amounts to once it has landed. */
  lemma WriteThenFed(w: World, id: Uuid, chunk: Bytes, data: Bytes)
    requires Running(w, id) && w.live[id].stage.Receiving? && w.live[id].pending <= |w.live[id].fed|
    ensures var w' := DoWrite(w, id, chunk);
            Running(w', id) && w'.live[id].pending <= |w'.live[id].fed| && Fed(w', id, data) == Fed(w, id, chunk + data)
  {
    hide WriteAt;
    var v := if chunk == [] then w else Settle(w, id);
    LandThenFed(w, id, |w.live[id].Tail()|, chunk + data);
    AcceptThenFed(v, id, chunk, data);
  }

  lemma AcceptThenFed(w: World, id: Uuid, chunk: Bytes, data: Bytes)
    requires Running(w, id) && w.live[id].stage.Receiving? && w.live[id].pending <= |w.live[id].fed|
    ensures var h := w.live[id];
            var w' := w.(sessions := w.sessions[id := w.sessions[id].AddBytes(|chunk|)],
                         live := w.live[id := h.(fed := h.fed + chunk, pending := h.pending + |chunk|,
                                                 written := AddU64(h.written, |chunk|), stage := Receiving)]);
            Running(w', id) && Fed(w', id, data) == Fed(w, id, chunk + data)
  {
    hide WriteAt;
    var h := w.live[id];
    var h' := h.(fed := h.fed + chunk, pending := h.pending + |chunk|, written := AddU64(h.written, |chunk|));
    AddU64Twice(h.written, |chunk|, |data|);
    AddU64Twice(w.sessions[id].bytes, |chunk|, |data|);
    hide AddU64;
    assert h'.Landed() == h.Landed();
    assert h'.Tail() == h.Tail() + chunk;
    assert h'.Tail() + data == h.Tail() + (chunk + data);
    assert h'.fed + data == h.fed + (chunk + data);
    assert |chunk + data| == |chunk| + |data|;
  }

  lemma OneChunk(cfg: Config, w: World, id: Uuid, piece: Piece, data: Bytes)
    requires Flowing(w, id)
    ensures var w' := Run(cfg, w, ChunkEvents(id, piece));
            Flowing(w', id) && Fed(w', id, data) == Fed(w, id, piece.chunk + data)
  {
    hide Fed, DoLand, DoWrite;
    var chunk := piece.chunk;
    var w1 := SetStage(w, id, Holding(chunk));
    var w2 := SetStage(w, id, Writing(chunk));
    assert Step(cfg, w, At(id, Chunk(chunk, true))) == w1;
    assert Step(cfg, w1, At(id, Proceed)) == w2;
    var w3 := Step(cfg, w2, At(id, Write));
    WriteFromReceiving(w, id, chunk);
    WriteFlows(w, id, chunk);
    WriteThenFed(w, id, chunk, data);
    LandFlows(w3, id, piece.landing);
    LandThenFed(w3, id, piece.landing, data);
    RunFour(cfg, w, ChunkEvents(id, piece));
  }

  /** Writing forgets which stage it came from. */
  lemma WriteFromReceiving(w: World, id: Uuid, chunk: Bytes)
    requires Running(w, id)
    ensures DoWrite(SetStage(w, id, Writing(chunk)), id, chunk) == DoWrite(w, id, chunk)
  {
    hide WriteAt, AddU64;
  }

  lemma WriteFlows(w: World, id: Uuid, chunk: Bytes)
    requires Flowing(w, id)
    ensures Flowing(DoWrite(w, id, chunk), id)
  {
    hide WriteAt, AddU64;
  }

  lemma LandFlows(w: World, id: Uuid, n: nat)
    requires Flowing(w, id)
    ensures Flowing(DoLand(w, id, n), id)
  {
    hide WriteAt;
  }

  lemma RunFour(cfg: Config, w: World, events: seq<Event>)
    requires |events| == 4
    ensures Run(cfg, w, events) ==
            Step(cfg, Step(cfg, Step(cfg, Step(cfg, w, events[0]), events[1]), events[2]), events[3])
  {
    hide Step;
    RunThree(cfg, Step(cfg, w, events[0]), events[1..]);
  }

  lemma RunThree(cfg: Config, w: World, events: seq<Event>)
    requires |events| == 3
    ensures Run(cfg, w, events) == Step(cfg, Step(cfg, Step(cfg, w, events[0]), events[1]), events[2])
  {
    hide Step;
    assert events[1..][1..] == [events[2]];
    assert Run(cfg, w, events) == Run(cfg, Step(cfg, Step(cfg, w, events[0]), events[1]), [events[2]]);
  }

  /** How the body is cut into chunks, and when they reach the file, does not matter once all of it has. */
  lemma {:induction false} AnyChunking(cfg: Config, w: World, id: Uuid, pieces: seq<Piece>)
    requires Flowing(w, id)
    ensures var w' := Run(cfg, w, BodyEvents(id, pieces));
            Flowing(w', id) && Fed(w', id, []) == Fed(w, id, Data(pieces))
    decreases |pieces|
  {
    hide Fed, Step, ChunkEvents, Flowing;
    if pieces != [] {
      var w1 := Run(cfg, w, ChunkEvents(id, pieces[0]));
      var rest := Data(pieces[1..]);
      assert Chunks(pieces)[1..] == Chunks(pieces[1..]);
      assert Data(pieces) == pieces[0].chunk + rest;
      FlowingRuns(w, id);
      OneChunk(cfg, w, id, pieces[0], rest);
      RunAppend(cfg, w, ChunkEvents(id, pieces[0]), BodyEvents(id, pieces[1..]));
      AnyChunking(cfg, w1, id, pieces[1..]);
    }
  }

  lemma FlowingRuns(w: World, id: Uuid)
    requires Flowing(w, id)
    ensures Running(w, id)
  {
  }

  /** The digest the server would compute is the one asked for. */
  predicate DigestAgrees(cfg: Config, w: World, id: Uuid)
    requires Running(w, id)
  {
    var h := w.live[id];
    h.expected.Some? ==> h.expected.value == HexDigest(cfg.sha, if h.resume == 0 then h.fed else w.staging[id])
  }

  /** The world after `id` was published and acknowledged. */
  function Finished(w: World, id: Uuid): World
    requires Running(w, id)
  {
    var h := w.live[id];
    World(w.staging - {id}, w.received[h.target := w.staging[id]], w.sessions - {id}, w.live - {id},
          w.log + [Published(id, h.target, w.staging[id])] + [Replied(id, Complete)])
  }

  /** Nothing is left to be written, and the counters are those of now. */
  lemma FedNothingKeeps(w: World, id: Uuid)
    requires Running(w, id)
    ensures var v, h := Fed(w, id, []), w.live[id];
            && Running(v, id) && v.live[id] == h.(pending := 0) && v.sessions == w.sessions
            && v.received == w.received && v.log == w.log && v.live - {id} == w.live - {id}
            && v.staging - {id} == w.staging - {id}
  {
    hide WriteAt;
    assert w.live[id].fed + [] == w.live[id].fed;
    assert w.sessions[id := w.sessions[id]] == w.sessions;
  }

  /** A flush that succeeds lets everything reach the file before the length is looked at. */
  lemma FlushSettles(cfg: Config, w: World, id: Uuid, flushed: bool)
    requires Running(w, id) && w.live[id].pending <= |w.live[id].fed| && (flushed || w.live[id].pending == 0)
    ensures var v := Fed(w, id, []);
            Running(v, id) && DoFlush(SetStage(w, id, Ended), id, flushed) ==
            if w.live[id].written == w.live[id].total then SetStage(v, id, Sized)
            else Close(v, id, Partial(w.live[id].written, w.live[id].total), Some(v.staging[id]), false)
  {
    hide WriteAt, AddU64;
    FedNothing(w, id);
    FedNothing(SetStage(w, id, Ended), id);
    assert Settle(SetStage(w, id, Ended), id) == SetStage(Settle(w, id), id, Ended);
    var v := Settle(w, id);
    assert SetStage(SetStage(v, id, Ended), id, Sized) == SetStage(v, id, Sized);
    assert SetStage(v, id, Ended).live - {id} == v.live - {id};
  }

  /**
   * The end of a body at the announced length, with the right digest, publishes. Neither a pause nor a cancel
   * that arrives after the last chunk is looked at any more.
   */
  lemma EndPublishes(cfg: Config, w: World, id: Uuid)
    requires Running(w, id) && w.live[id].stage.Receiving? && w.live[id].pending <= |w.live[id].fed|
    requires w.live[id].written == w.live[id].total
    requires Running(Fed(w, id, []), id) && DigestAgrees(cfg, Fed(w, id, []), id)
    ensures Run(cfg, w, EndEvents(id)) == Finished(Fed(w, id, []), id)
  {
    hide HexDigest, Fed, DoFlush;
    var events := EndEvents(id);
    FedNothingKeeps(w, id);
    FlushSettles(cfg, w, id, true);
    var v := Fed(w, id, []);
    var w1 := SetStage(w, id, Ended);
    var w2 := SetStage(v, id, Sized);
    var w3 := SetStage(v, id, Verified);
    assert Step(cfg, w, events[0]) == w1;
    assert Step(cfg, w1, events[1]) == w2;
    assert Step(cfg, w2, events[2]) == w3;
    var w4 := DoRename(w3, id, true);
    assert Step(cfg, w3, events[3]) == w4;
    AcknowledgeEnds(cfg, v, w4, id);
    RunFive(cfg, w, events);
  }

  lemma AcknowledgeEnds(cfg: Config, w: World, w4: World, id: Uuid)
    requires Running(w, id) && w4.live.Keys == w.live.Keys
    requires forall k :: k in w.live && k != id ==> w4.live[k] == w.live[k]
    requires w4.live[id].stage.Moved? && w4.staging == w.staging - {id} && w4.sessions == w.sessions
    requires w4.received == w.received[w.live[id].target := w.staging[id]]
    requires w4.log == w.log + [Published(id, w.live[id].target, w.staging[id])]
    ensures Step(cfg, w4, At(id, Acknowledge)) == Finished(w, id)
  {
    assert w4.live - {id} == w.live - {id};
    assert Put(w4.staging, id, None) == w4.staging;
  }

  lemma RunFive(cfg: Config, w: World, events: seq<Event>)
    requires |events| == 5
    ensures Run(cfg, w, events) ==
            Step(cfg, Step(cfg, Step(cfg, Step(cfg, Step(cfg, w, events[0]), events[1]), events[2]), events[3]),
                 events[4])
  {
    hide Step;
    RunThree(cfg, Step(cfg, Step(cfg, w, events[0]), events[1]), events[2..]);
    assert events[1..][1..] == events[2..];
    assert Run(cfg, w, events) == Run(cfg, Step(cfg, Step(cfg, w, events[0]), events[1]), events[2..]);
  }

  /** What an honest request for `source` looks like to the server. */
  predicate HonestRequest(cfg: Config, source: Bytes, w: World, id: Uuid, r: Request) {
    && |source| < U64
    && r.total == |source| && HonestDigest(cfg, source, r.expected)
    && OpenedContents(w, id, r.resume) <= source && r.resume <= |OpenedContents(w, id, r.resume)|
  }

  lemma BeginFlows(cfg: Config, w: World, id: Uuid, headers: Headers)
    requires id !in w.live && Admit(cfg, headers).Ok?
    ensures var r := Admit(cfg, headers).value;
            var w1 := Step(cfg, w, At(id, Begin(headers, Opened)));
            && w1 == DoOpen(w, id, headers, r, Opened)
            && Flowing(w1, id)
            && w1.live[id] == Handler(r.target, r.total, r.expected, r.resume,
                                      OpenedContents(w, id, r.resume), [], 0, r.resume, Receiving)
  {
    hide Admit, OpenedContents;
  }

  /** A whole undisturbed request runs to the world in which its body was taken in and published. */
  lemma WholeRequestRuns(cfg: Config, w: World, id: Uuid, headers: Headers, pieces: seq<Piece>)
    requires id !in w.live && Admit(cfg, headers).Ok?
    requires var w1 := DoOpen(w, id, headers, Admit(cfg, headers).value, Opened);
             Running(w1, id) && var w2 := Fed(w1, id, Data(pieces));
             Running(w2, id) && w2.live[id].written == w2.live[id].total && DigestAgrees(cfg, w2, id)
    ensures var w1 := DoOpen(w, id, headers, Admit(cfg, headers).value, Opened);
            Run(cfg, w, [At(id, Begin(headers, Opened))] + BodyEvents(id, pieces) + EndEvents(id)) ==
            Finished(Fed(w1, id, Data(pieces)), id)
  {
    hide Admit, WriteAt, HexDigest, Data, BodyEvents, EndEvents, DoOpen, Finished, DigestAgrees, Fed;
    var first := [At(id, Begin(headers, Opened))];
    var w1 := Step(cfg, w, first[0]);
    BeginFlows(cfg, w, id, headers);
    AnyChunking(cfg, w1, id, pieces);
    var w2 := Run(cfg, w1, BodyEvents(id, pieces));
    FedNothingKeeps(w2, id);
    EndPublishes(cfg, w2, id);
    RunAppend(cfg, w, first + BodyEvents(id, pieces), EndEvents(id));
    RunAppend(cfg, w, first, BodyEvents(id, pieces));
    assert first[1..] == [];
    assert Run(cfg, w, first) == w1;
  }

  /** Taking in the rest of the source completes the file, and a fresh request was fed all of it. */
  lemma RestCompletes(cfg: Config, source: Bytes, w: World, id: Uuid, headers: Headers)
    requires id !in w.live && Admit(cfg, headers).Ok?
    requires HonestRequest(cfg, source, w, id, Admit(cfg, headers).value)
    ensures var r := Admit(cfg, headers).value;
            var w1 := DoOpen(w, id, headers, r, Opened);
            Running(w1, id) && var w2 := Fed(w1, id, source[r.resume..]);
            && Running(w2, id) && w2.staging[id] == source
            && w2.live[id].written == w2.live[id].total && DigestAgrees(cfg, w2, id)
  {
    hide Admit, WriteAt, HexDigest, DoOpen, OpenedContents, AddU64, Step;
    var r := Admit(cfg, headers).value;
    BeginFlows(cfg, w, id, headers);
    var found := OpenedContents(w, id, r.resume);
    var rest := source[r.resume..];
    var w1 := DoOpen(w, id, headers, r, Opened);
    WriteAtKeepsPrefix(source, found, r.resume, rest);
    WriteFreshIsData(found, r.resume, rest, source);
    OpenedState(w, id, headers, r);
    AddWithinU64(r.resume, |rest|);
    assert Fed(w1, id, rest).live[id].fed == rest;
  }

  lemma AddWithinU64(a: U64Int, n: nat)
    requires a + n < U64
    ensures AddU64(a, n) == a + n
  {
  }

  /**
   * The request that reaches the end publishes the source: from any state, with any chunking of what the
   * partial file still lacks, and with or without a digest header.
   */
  lemma ReachingTheEndPublishes(
    cfg: Config, source: Bytes, w: World, id: Uuid, headers: Headers, pieces: seq<Piece>)
    requires id !in w.live && Admit(cfg, headers).Ok?
    requires HonestRequest(cfg, source, w, id, Admit(cfg, headers).value)
    requires Data(pieces) == source[Admit(cfg, headers).value.resume..]
    ensures var target := Admit(cfg, headers).value.target;
            Run(cfg, w, [At(id, Begin(headers, Opened))] + BodyEvents(id, pieces) + EndEvents(id)) ==
            World(w.staging - {id}, w.received[target := source], w.sessions - {id}, w.live - {id},
                  w.log + [Accepted(id, headers)] + [Published(id, target, source)] + [Replied(id, Complete)])
  {
    hide Admit, Data, BodyEvents, EndEvents, DoOpen, Run, Finished, Fed;
    hide HonestDigest, OpenedContents, DigestAgrees, Step;
    RestCompletes(cfg, source, w, id, headers);
    WholeRequestRuns(cfg, w, id, headers, pieces);
    FinishedAfterOpen(w, id, headers, Admit(cfg, headers).value, source[Admit(cfg, headers).value.resume..], source);
  }

  lemma OpenedState(w: World, id: Uuid, headers: Headers, r: Request)
    ensures var w1 := DoOpen(w, id, headers, r, Opened);
            && w1.staging == w.staging[id := OpenedContents(w, id, r.resume)]
            && w1.received == w.received
            && w1.sessions - {id} == w.sessions - {id}
            && Get(w1.sessions, id) == Some(SessionState(r.resume, r.total, false, false))
            && w1.live - {id} == w.live - {id}
            && w1.log == w.log + [Accepted(id, headers)]
  {
    hide OpenedContents;
  }

  lemma WriteFreshIsData(found: Bytes, resume: nat, rest: Bytes, source: Bytes)
    requires resume <= |source| && rest == source[resume..]
    ensures resume == 0 ==> rest == source
  {
  }

  lemma FinishedAfterOpen(w: World, id: Uuid, headers: Headers, r: Request, data: Bytes, source: Bytes)
    requires id !in w.live && Running(DoOpen(w, id, headers, r, Opened), id)
    requires Fed(DoOpen(w, id, headers, r, Opened), id, data).staging[id] == source
    ensures Finished(Fed(DoOpen(w, id, headers, r, Opened), id, data), id) ==
            World(w.staging - {id}, w.received[r.target := source], w.sessions - {id}, w.live - {id},
                  w.log + [Accepted(id, headers)] + [Published(id, r.target, source)] + [Replied(id, Complete)])
  {
    hide WriteAt, OpenedContents, AddU64;
    var w1 := DoOpen(w, id, headers, r, Opened);
    var w2 := Fed(w1, id, data);
    assert w2.staging - {id} == w.staging - {id};
    assert w2.sessions - {id} == w.sessions - {id};
    assert w2.live - {id} == w.live - {id};
    assert w2.log == w.log + [Accepted(id, headers)] && w2.received == w.received;
  }
}
