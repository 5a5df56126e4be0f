/**
 * The receiving side of an upload (`transfer/server.rs`) as a transition system. Every await point of
 * the handler is a place where other handlers, signals, dropped connections and crashes can come in.
 */
module Upload {
  import opened Prelude
  import opened StagedFile
  import opened Checksum
  import opened Session
  import opened ContentRange
  import opened Filename
  import opened SafePath

  /** The headers of a POST that are present and readable. */
  datatype Headers = Headers(
    fileName: Option<HeaderText>,
    totalSize: Option<string>,
    sha256: Option<string>,
    contentRange: Option<string>)

  datatype Reply =
    | MissingFileName
    | MissingTotalSize
    | UnsafePath
    | StorageError
    | StreamBroken
    | WriteFailed
    | TransferCancelled
    | FlushFailed
    | Partial(written: U64Int, total: U64Int)
    | RehashFailed
    | ChecksumMismatch
    | RenameFailed
    | Complete

  function StatusCode(reply: Reply): nat {
    match reply
    case MissingFileName | MissingTotalSize | UnsafePath | StreamBroken => 400
    case StorageError | WriteFailed | FlushFailed | RehashFailed | RenameFailed => 500
    case TransferCancelled => 499
    case Partial(_, _) => 206
    case ChecksumMismatch => 422
    case Complete => 200
  }

  /** Where a handler stands between two steps. */
  datatype Stage =
    | Receiving                // waiting for the next chunk
    | Holding(chunk: Bytes)    // past the cancel check, waiting while paused
    | Writing(chunk: Bytes)    // saw the transfer unpaused
    | Ended                    // body exhausted
    | Sized                    // flushed, length as announced
    | Verified                 // digest checked, or none asked for
    | Moved                    // renamed into the received directory

  /**
   * The local variables of one POST handler, and the file contents it found (`found`). The file object writes
   * behind: a chunk it has accepted may reach the file later, so the last `pending` bytes of `fed` may be missing
   * from it.
   */
  datatype Handler = Handler(
    target: Path,
    total: U64Int,
    expected: Option<string>,
    resume: U64Int,
    found: Bytes,
    fed: Bytes,
    pending: nat,
    written: U64Int,
    stage: Stage)
  {
    function Position(): nat { resume + |fed| }

    /** How many bytes of `fed` have reached the file. */
    function Landed(): nat { if pending < |fed| then |fed| - pending else 0 }

    /** The bytes of `fed` that have not. */
    function Tail(): Bytes { fed[Landed()..] }
  }

  /** What the outside can see of a run: requests taken up, files published, answers given. */
  datatype Entry =
    | Accepted(id: Uuid, headers: Headers)
    | Published(id: Uuid, path: Path, contents: Bytes)
    | Replied(id: Uuid, reply: Reply)

  datatype World = World(
    staging: map<Uuid, Bytes>,
    received: map<Path, Bytes>,
    sessions: map<Uuid, SessionState>,
    live: map<Uuid, Handler>,
    log: seq<Entry>)

  datatype Config = Config(sha: Digest, receivedDir: Path)

  datatype OpenOutcome = Opened | DirFailed | OpenFailed | SeekFailed

  /** What can happen to one transfer. The flags say how the system calls went. */
  datatype Action =
    | Begin(headers: Headers, outcome: OpenOutcome)
    | Chunk(bytes: Bytes, removable: bool)
    | StreamError
    | Proceed
    | Write
    | Land(n: nat)
    | WriteError(torn: nat)
    | EndOfStream
    | Flush(flushed: bool)
    | Verify(readable: bool, removable: bool)
    | Rename(renamed: bool)
    | Acknowledge
    | Signalled(signal: Signal)
    | Drop(cut: nat)

  /** One step of some transfer, or the end of the whole process. */
  datatype Event = At(id: Uuid, action: Action) | Crash

  function Get<K, V>(m: map<K, V>, k: K): Option<V> {
    if k in m then Some(m[k]) else None
  }

  function Put<K, V>(m: map<K, V>, k: K, v: Option<V>): map<K, V> {
    if v.Some? then m[k := v.value] else m - {k}
  }

  function Answer(w: World, id: Uuid, reply: Reply): World {
    w.(log := w.log + [Replied(id, reply)])
  }

  /** A handler answers and is gone. */
  function Close(w: World, id: Uuid, reply: Reply, part: Option<Bytes>, keepSession: bool): World {
    World(Put(w.staging, id, part), w.received,
          if keepSession then w.sessions else w.sessions - {id},
          w.live - {id}, w.log + [Replied(id, reply)])
  }

  function ResumeOffset(headers: Headers): U64Int {
    match ParseResumeOffset(headers.contentRange)
    case Some(offset) => offset
    case None => 0
  }

  /** Contents after opening: a fresh upload truncates, a resumed one keeps or creates. */
  function OpenedContents(w: World, id: Uuid, resume: U64Int): Bytes {
    if resume == 0 || id !in w.staging then [] else w.staging[id]
  }

  /** What valid headers ask for. */
  datatype Request = Request(target: Path, total: U64Int, expected: Option<string>, resume: U64Int)

  /** The header checks, in the order in which they are made. */
  function Admit(cfg: Config, headers: Headers): Result<Request, Reply> {
    if headers.fileName.None? then Err(MissingFileName)
    else if headers.totalSize.None? || ParseU64(headers.totalSize.value).None? then Err(MissingTotalSize)
    else
      match Resolve(cfg.receivedDir, SanitizeFilename(headers.fileName.value))
      case None => Err(UnsafePath)
      case Some(target) =>
        Ok(Request(target, ParseU64(headers.totalSize.value).value, headers.sha256, ResumeOffset(headers)))
  }

  /** Opening the staging file and starting the session and the chunk loop. */
  function DoOpen(w: World, id: Uuid, headers: Headers, r: Request, outcome: OpenOutcome): World {
    var found := OpenedContents(w, id, r.resume);
    if outcome.DirFailed? || outcome.OpenFailed? then Answer(w, id, StorageError)
    else if outcome.SeekFailed? && r.resume > 0 then
      Answer(w.(staging := w.staging[id := found]), id, StorageError)
    else
      w.(staging := w.staging[id := found],
         sessions := w.sessions[id := SessionState(r.resume, r.total, false, false)],
         live := w.live[id := Handler(r.target, r.total, r.expected, r.resume, found, [], 0, r.resume, Receiving)],
         log := w.log + [Accepted(id, headers)])
  }

  function DoBegin(cfg: Config, w: World, id: Uuid, headers: Headers, outcome: OpenOutcome): World {
    if id in w.live then w
    else
      match Admit(cfg, headers)
      case Err(reply) => Answer(w, id, reply)
      case Ok(request) => DoOpen(w, id, headers, request, outcome)
  }

  function SetStage(w: World, id: Uuid, stage: Stage): World
    requires id in w.live
  {
    w.(live := w.live[id := w.live[id].(stage := stage)])
  }

  /** The handler's file, session and variables are all there. */
  predicate Running(w: World, id: Uuid) {
    id in w.live && id in w.staging && id in w.sessions
  }

  function DoChunk(w: World, id: Uuid, bytes: Bytes, removable: bool): World
    requires Running(w, id)
  {
    if w.sessions[id].cancelled then
      Close(w, id, TransferCancelled, if removable then None else Some(w.staging[id]), false)
    else
      SetStage(w, id, Holding(bytes))
  }

  /** The file after the first `n` bytes of what is still to be written, and of `chunk` behind it, reached it. */
  function PartAfter(w: World, id: Uuid, chunk: Bytes, n: nat): Bytes
    requires Running(w, id)
  {
    var h := w.live[id];
    var queue := h.Tail() + chunk;
    WriteAt(w.staging[id], h.resume + h.Landed(), if n < |queue| then queue[..n] else queue)
  }

  /** Up to `n` accepted bytes reach the file. */
  function DoLand(w: World, id: Uuid, n: nat): World
    requires Running(w, id)
  {
    var h := w.live[id];
    w.(staging := w.staging[id := PartAfter(w, id, [], n)],
       live := w.live[id := h.(pending := |h.Tail()| - if n < |h.Tail()| then n else |h.Tail()|)])
  }

  /** Everything accepted is in the file. */
  function Settle(w: World, id: Uuid): World
    requires Running(w, id)
  {
    DoLand(w, id, |w.live[id].Tail()|)
  }

  /** The file object accepts a chunk: once what it accepted before is in the file. An empty chunk is never offered. */
  function DoWrite(w: World, id: Uuid, chunk: Bytes): World
    requires Running(w, id)
  {
    var w' := if chunk == [] then w else Settle(w, id);
    var h := w'.live[id];
    w'.(sessions := w'.sessions[id := w'.sessions[id].AddBytes(|chunk|)],
        live := w'.live[id := h.(fed := h.fed + chunk, pending := h.pending + |chunk|,
                                 written := AddU64(h.written, |chunk|), stage := Receiving)])
  }

  /** Flushing waits for what is still to be written, and fails iff some of that never reaches the file. */
  function DoFlush(w: World, id: Uuid, flushed: bool): World
    requires Running(w, id)
  {
    var h := w.live[id];
    if !flushed && h.pending > 0 then Close(w, id, FlushFailed, Some(w.staging[id]), true)
    else
      var w' := Settle(w, id);
      if h.written != h.total then Close(w', id, Partial(h.written, h.total), Some(w'.staging[id]), false)
      else SetStage(w', id, Sized)
  }

  function DoVerify(cfg: Config, w: World, id: Uuid, readable: bool, removable: bool): World
    requires Running(w, id)
  {
    var h := w.live[id];
    if h.expected.None? then SetStage(w, id, Verified)
    else if h.resume != 0 && !readable then Close(w, id, RehashFailed, Some(w.staging[id]), true)
    else
      var actual := HexDigest(cfg.sha, if h.resume == 0 then h.fed else w.staging[id]);
      if actual == h.expected.value then SetStage(w, id, Verified)
      else Close(w, id, ChecksumMismatch, if removable then None else Some(w.staging[id]), false)
  }

  function DoRename(w: World, id: Uuid, renamed: bool): World
    requires Running(w, id)
  {
    var h := w.live[id];
    if !renamed then Close(w, id, RenameFailed, Some(w.staging[id]), true)
    else
      SetStage(w, id, Moved).(
        staging := w.staging - {id},
        received := w.received[h.target := w.staging[id]],
        log := w.log + [Published(id, h.target, w.staging[id])])
  }

  /** The chunk being offered to the file. */
  function BeingWritten(stage: Stage): Bytes {
    if stage.Writing? then stage.chunk else []
  }

  /** The connection is lost; `torn` more bytes still reach the file. */
  function DoDrop(w: World, id: Uuid, torn: nat): World {
    if id !in w.live then w
    else
      var part := if Running(w, id) then Some(PartAfter(w, id, BeingWritten(w.live[id].stage), torn))
                  else Get(w.staging, id);
      w.(staging := Put(w.staging, id, part), live := w.live - {id})
  }

  /** What a running handler does, stage by stage. */
  function HandlerStep(cfg: Config, w: World, id: Uuid, action: Action): World
    requires Running(w, id)
  {
    var stage := w.live[id].stage;
    match action
    case Chunk(bytes, removable) =>
      if stage.Receiving? then DoChunk(w, id, bytes, removable) else w
    case StreamError =>
      if stage.Receiving? then Close(w, id, StreamBroken, Some(w.staging[id]), false) else w
    case Proceed =>
      if stage.Holding? && !w.sessions[id].paused then SetStage(w, id, Writing(stage.chunk)) else w
    case Write =>
      if stage.Writing? then DoWrite(w, id, stage.chunk) else w
    case Land(n) => DoLand(w, id, n)
    case WriteError(torn) =>
      if stage.Writing? then Close(w, id, WriteFailed, Some(PartAfter(w, id, stage.chunk, torn)), false) else w
    case EndOfStream =>
      if stage.Receiving? then SetStage(w, id, Ended) else w
    case Flush(flushed) =>
      if stage.Ended? then DoFlush(w, id, flushed) else w
    case Verify(readable, removable) =>
      if stage.Sized? then DoVerify(cfg, w, id, readable, removable) else w
    case Rename(renamed) =>
      if stage.Verified? then DoRename(w, id, renamed) else w
    case _ => w
  }

  function Act(cfg: Config, w: World, id: Uuid, action: Action): World {
    match action
    case Begin(headers, outcome) => DoBegin(cfg, w, id, headers, outcome)
    case Signalled(signal) =>
      if id in w.sessions then w.(sessions := w.sessions[id := w.sessions[id].Apply(signal)]) else w
    case Drop(torn) => DoDrop(w, id, torn)
    case Acknowledge =>
      if id in w.live && w.live[id].stage.Moved? then Close(w, id, Complete, Get(w.staging, id), false) else w
    case _ =>
      if Running(w, id) then HandlerStep(cfg, w, id, action) else w
  }

  /** An event whose moment has not come changes nothing, so every list of events is a run. */
  function Step(cfg: Config, w: World, e: Event): World {
    match e
    case Crash => w.(sessions := map[], live := map[])
    case At(id, action) => Act(cfg, w, id, action)
  }

  function Run(cfg: Config, w: World, events: seq<Event>): World
    decreases |events|
  {
    if events == [] then w else Run(cfg, Step(cfg, w, events[0]), events[1..])
  }

  lemma {:induction false} RunAppend(cfg: Config, w: World, a: seq<Event>, b: seq<Event>)
    ensures Run(cfg, w, a + b) == Run(cfg, Run(cfg, w, a), b)
    decreases |a|
  {
    if a == [] {
      assert a + b == b;
    } else {
      assert (a + b)[1..] == a[1..] + b;
      RunAppend(cfg, Step(cfg, w, a[0]), a[1..], b);
    }
  }
}
