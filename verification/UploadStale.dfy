/**
 * Where following the status endpoint goes wrong: what a request publishes that resumes at a count the part does not
 * hold, and the runs in which the endpoint tells an honest sender such a count.
 */
module UploadStale {
  import opened Prelude
  import opened StagedFile
  import opened Checksum
  import opened ContentRange
  import opened Filename
  import opened Session
  import opened Upload
  import opened UploadSafety
  import opened UploadControl
  import opened UploadResume
  import opened UploadScript
  import opened Client
  import opened UploadDigest

  /**
   * What an undisturbed request of an honest sender publishes that resumes at `n`, whatever the receiver holds: the
   * part, with the rest of the file written at `n`, hole and all. The length check passes; only a checksum can tell.
   */
  lemma ResumeOutcome(
    cfg: Config, w: World, id: Uuid, name: HeaderText, source: Bytes, n: U64Int, verify: bool, pieces: seq<Piece>)
    requires 0 < n <= |source| < U64 && id !in w.live && Data(pieces) == source[n..]
    ensures var headers := ClientHeaders(cfg.sha, name, source, SendOptions(n, verify));
            PublishesUnlessTold(cfg, w, Run(cfg, w, ResumeEvents(id, headers, pieces)), id, headers, source,
                                WriteAt(PartFor(w, id, n), n, source[n..]), verify)
  {
    hide SanitizeFilename, Run, ClientHeaders, Data, WriteAt, ResumeEvents, PublishesUnlessTold;
    RequestOutcome(cfg, w, id, name, source, n, verify, pieces);
  }

  /**
   * When resuming beyond the part does no harm: never, except where the bytes skipped are zeros like those of the
   * hole, and something follows them.
   */
  lemma ResumeHarmlessIff(source: Bytes, part: Bytes, n: nat)
    requires part <= source && n <= |source|
    ensures WriteAt(part, n, source[n..]) == source <==>
            n <= |part| || (n < |source| && forall i :: |part| <= i < n ==> source[i] == 0)
  {
    var out := WriteAt(part, n, source[n..]);
    if n == |source| {
      assert out == part;
    } else {
      forall i | 0 <= i < |source|
        ensures |out| == |source| && out[i] == if |part| <= i < n then 0 else source[i]
      {
        WriteAtIndex(part, n, source[n..], i);
      }
      if n > |part| && out == source {
        assert forall i :: |part| <= i < n ==> out[i] == 0;
      }
    }
  }

  /**
   * Resuming at the very end of a file against a receiver holding nothing publishes an empty file, unless the
   * request carries a checksum that tells the two apart: then the answer is 422 and nothing is published.
   */
  lemma ResumeAtEndIff(cfg: Config, w: World, id: Uuid, name: HeaderText, source: Bytes, verify: bool)
    requires 0 < |source| < U64 && id !in w.live && id !in w.staging
    ensures var headers := ClientHeaders(cfg.sha, name, source, SendOptions(|source|, verify));
            PublishesUnlessTold(cfg, w, Run(cfg, w, ResumeEvents(id, headers, [])), id, headers, source, [], verify)
  {
    hide HexDigest, SanitizeFilename, Run, EndEvents, BodyEvents, ClientHeaders, ResumeEvents;
    assert Data([]) == [] == source[|source|..];
    ResumeOutcome(cfg, w, id, name, source, |source|, verify, []);
  }

  /** Without a checksum nothing notices. */
  lemma ResumeAtEndPublishesEmptyFile(cfg: Config, w: World, id: Uuid, name: HeaderText, source: Bytes)
    requires 0 < |source| < U64 && id !in w.live && id !in w.staging
    ensures var headers := ClientHeaders(cfg.sha, name, source, SendOptions(|source|, false));
            var target := cfg.receivedDir + [SanitizeFilename(name)];
            var w' := Run(cfg, w, [At(id, Begin(headers, Opened))] + EndEvents(id));
            w'.received == w.received[target := []] &&
            w'.log == w.log + [Accepted(id, headers)] + [Published(id, target, [])] + [Replied(id, Complete)]
  {
    hide HexDigest, SanitizeFilename, Run, EndEvents, Decimal, FormatContentRange;
    ResumeAtEndIff(cfg, w, id, name, source, false);
    var headers := ClientHeaders(cfg.sha, name, source, SendOptions(|source|, false));
    assert BodyEvents(id, []) == [];
    assert ResumeEvents(id, headers, []) == [At(id, Begin(headers, Opened))] + EndEvents(id);
  }

  /** The end of a request whose connection breaks after the rename and before the answer. */
  function DroppedEndEvents(id: Uuid): seq<Event> {
    [At(id, EndOfStream), At(id, Flush(true)), At(id, Verify(true, true)), At(id, Rename(true)), At(id, Drop(0))]
  }

  lemma DroppedEndRuns(cfg: Config, w: World, id: Uuid)
    requires Running(w, id) && w.live[id].stage.Receiving? && w.live[id].pending <= |w.live[id].fed|
    requires w.live[id].written == w.live[id].total
    requires Running(Fed(w, id, []), id) && DigestAgrees(cfg, Fed(w, id, []), id)
    ensures var w', h := Run(cfg, w, DroppedEndEvents(id)), w.live[id];
            && id !in w'.live && id !in w'.staging
            && w'.sessions == w.sessions
            && w'.received == w.received[h.target := Fed(w, id, []).staging[id]]
  {
    hide HexDigest, Fed, DoFlush;
    var events := DroppedEndEvents(id);
    FedNothingKeeps(w, id);
    FlushSettles(cfg, w, id, true);
    var v := Fed(w, id, []);
    var w1 := SetStage(w, id, Ended);
    var w2 := SetStage(v, id, Sized);
    var w3 := SetStage(v, id, Verified);
    assert Step(cfg, w, events[0]) == w1;
    assert Step(cfg, w1, events[1]) == w2;
    assert Step(cfg, w2, events[2]) == w3;
    var w4 := DoRename(w3, id, true);
    assert Step(cfg, w3, events[3]) == w4;
    RunFive(cfg, w, events);
  }

  /** The events of a first upload up to the end of its body. */
  function UploadEvents(id: Uuid, headers: Headers, pieces: seq<Piece>): seq<Event> {
    [At(id, Begin(headers, Opened))] + BodyEvents(id, pieces)
  }

  /** A fresh upload that has taken in all of `data`: what the endpoint says, and what its file amounts to. */
  lemma FreshUploadRuns(
    cfg: Config, w: World, id: Uuid, name: HeaderText, source: Bytes, verify: bool, pieces: seq<Piece>)
    requires |source| < U64 && id !in w.live && Data(pieces) <= source
    ensures var headers := ClientHeaders(cfg.sha, name, source, SendOptions(0, verify));
            var w1, data := Run(cfg, w, UploadEvents(id, headers, pieces)), Data(pieces);
            && Flowing(w1, id) && Status(w1, id).Some? && Status(w1, id).value.bytes == w1.live[id].written == |data|
            && w1.live[id].target == TargetOf(cfg, headers) && w1.live[id].total == |source|
            && w1.received == w.received && w1.log == w.log + [Accepted(id, headers)]
            && w1.live[id].resume == 0 && w1.live[id].fed == data && w1.live[id].found == []
            && var v := Fed(w1, id, []);
               Running(v, id) && v.staging[id] == data && (data == source ==> DigestAgrees(cfg, v, id))
  {
    hide HexDigest, SanitizeFilename, Admit, Run, BodyEvents, ClientHeaders, DoOpen, Data, Step;
    var headers := ClientHeaders(cfg.sha, name, source, SendOptions(0, verify));
    HeadersArriveAsMeant(cfg, name, source, SendOptions(0, verify));
    AdmittedFromHeaders(cfg, headers);
    var r := Admit(cfg, headers).value;
    var first := [At(id, Begin(headers, Opened))];
    var w0 := Step(cfg, w, first[0]);
    BeginFlows(cfg, w, id, headers);
    OpenedState(w, id, headers, r);
    AnyChunking(cfg, w0, id, pieces);
    var w1 := Run(cfg, w0, BodyEvents(id, pieces));
    RunAppend(cfg, w, first, BodyEvents(id, pieces));
    RunSingle(cfg, w, first[0]);
    FedNothingKeeps(w1, id);
    AddWithinU64(0, |Data(pieces)|);
    WriteAtStart(Data(pieces));
    hide WriteAt, AddU64;
    assert [] + Data(pieces) == Data(pieces);
  }

  lemma SameTarget(cfg: Config, name: HeaderText, source: Bytes, a: SendOptions, b: SendOptions)
    ensures TargetOf(cfg, ClientHeaders(cfg.sha, name, source, a)) ==
            TargetOf(cfg, ClientHeaders(cfg.sha, name, source, b))
  {
    hide SanitizeFilename, HexDigest, Decimal, FormatContentRange;
  }

  /**
   * First way to be misled. An upload loses its connection right after the rename. The file is there, the endpoint
   * reports all its bytes, and a sender that resumes at that count gets a 200 for overwriting the file with an
   * empty one, unless its checksum tells the two apart.
   */
  lemma FollowingStatusOverwrites(
    cfg: Config, w: World, id: Uuid, name: HeaderText, source: Bytes, verify: bool, pieces: seq<Piece>)
    requires 0 < |source| < U64 && id !in w.live && Data(pieces) == source
    ensures var headers := ClientHeaders(cfg.sha, name, source, SendOptions(0, verify));
            var w1 := Run(cfg, w, UploadEvents(id, headers, pieces) + DroppedEndEvents(id));
            && Get(w1.received, TargetOf(cfg, headers)) == Some(source)
            && Status(w1, id).Some? && Status(w1, id).value.bytes == |source|
            && var again := ClientHeaders(cfg.sha, name, source, SendOptions(Status(w1, id).value.bytes, verify));
               && TargetOf(cfg, again) == TargetOf(cfg, headers)
               && PublishesUnlessTold(cfg, w1, Run(cfg, w1, ResumeEvents(id, again, [])), id, again, source, [], verify)
  {
    hide HexDigest, SanitizeFilename, Run, EndEvents, DroppedEndEvents, BodyEvents, Data, ClientHeaders, WriteAt;
    hide UploadEvents, ResumeEvents, PublishesUnlessTold, AddU64, Flowing, Fed;
    var headers := ClientHeaders(cfg.sha, name, source, SendOptions(0, verify));
    var upload := UploadEvents(id, headers, pieces);
    FreshUploadRuns(cfg, w, id, name, source, verify, pieces);
    var w0 := Run(cfg, w, upload);
    FlowingState(w0, id);
    RunAppend(cfg, w, upload, DroppedEndEvents(id));
    DroppedEndRuns(cfg, w0, id);
    var w1 := Run(cfg, w, upload + DroppedEndEvents(id));
    ResumeAtEndIff(cfg, w1, id, name, source, verify);
    SameTarget(cfg, name, source, SendOptions(0, verify), SendOptions(|source|, verify));
  }

  lemma FlowingState(w: World, id: Uuid)
    requires Flowing(w, id)
    ensures Running(w, id) && w.live[id].stage.Receiving? && w.live[id].pending <= |w.live[id].fed|
  {
  }

  /**
   * Second way. The sender asks while its upload, all of which has arrived, is still being dealt with, and is told its
   * full length. The upload then completes with a 200 that the sender never sees; no connection of it was dropped.
   * The sender resumes where it was told, and the file is overwritten with an empty one.
   */
  lemma AnswerOvertaken(
    cfg: Config, w: World, id: Uuid, name: HeaderText, source: Bytes, verify: bool, pieces: seq<Piece>)
    requires 0 < |source| < U64 && id !in w.live && Data(pieces) == source
    ensures var headers := ClientHeaders(cfg.sha, name, source, SendOptions(0, verify));
            var asked := Run(cfg, w, UploadEvents(id, headers, pieces));
            var w1 := Run(cfg, asked, EndEvents(id));
            && Status(asked, id).Some? && Status(asked, id).value.bytes == |source|
            && Get(w1.received, TargetOf(cfg, headers)) == Some(source)
            && w1.log == asked.log + [Published(id, TargetOf(cfg, headers), source)] + [Replied(id, Complete)]
            && var again := ClientHeaders(cfg.sha, name, source, SendOptions(Status(asked, id).value.bytes, verify));
               && TargetOf(cfg, again) == TargetOf(cfg, headers)
               && PublishesUnlessTold(cfg, w1, Run(cfg, w1, ResumeEvents(id, again, [])), id, again, source, [], verify)
  {
    hide HexDigest, SanitizeFilename, Run, EndEvents, BodyEvents, Data, ClientHeaders, WriteAt;
    hide UploadEvents, ResumeEvents, PublishesUnlessTold, AddU64, Flowing, Fed;
    var headers := ClientHeaders(cfg.sha, name, source, SendOptions(0, verify));
    FreshUploadRuns(cfg, w, id, name, source, verify, pieces);
    var asked := Run(cfg, w, UploadEvents(id, headers, pieces));
    FlowingState(asked, id);
    FedNothingKeeps(asked, id);
    EndPublishes(cfg, asked, id);
    var w1 := Run(cfg, asked, EndEvents(id));
    ResumeAtEndIff(cfg, w1, id, name, source, verify);
    SameTarget(cfg, name, source, SendOptions(0, verify), SendOptions(|source|, verify));
  }

  /** A cancel, and the chunk that makes it seen. */
  function CancelledEvents(id: Uuid, chunk: Bytes): seq<Event> {
    [At(id, Signalled(Cancel)), At(id, Chunk(chunk, true))]
  }

  lemma CancelledRuns(cfg: Config, w: World, id: Uuid, chunk: Bytes)
    requires Flowing(w, id)
    ensures var w' := Run(cfg, w, CancelledEvents(id, chunk));
            && id !in w'.live && id !in w'.staging && w'.received == w.received
            && w'.log == w.log + [Replied(id, TransferCancelled)]
  {
    var a, b := At(id, Signalled(Cancel)), At(id, Chunk(chunk, true));
    assert CancelledEvents(id, chunk) == [a, b] + [];
    RunTwo(cfg, w, a, b, []);
    RunNothing(cfg, Step(cfg, Step(cfg, w, a), b));
  }

  /**
   * Third way. The sender asks in the middle of an upload. The upload is then cancelled and its part removed. The
   * sender resumes where it was told, and a file of the right length is published whose beginning is zeros.
   */
  lemma CancelLeavesHole(
    cfg: Config, w: World, id: Uuid, name: HeaderText, source: Bytes, n: U64Int, verify: bool,
    pieces: seq<Piece>, chunk: Bytes, rest: seq<Piece>)
    requires 0 < n < |source| < U64 && id !in w.live && Data(pieces) == source[..n] && Data(rest) == source[n..]
    ensures var headers := ClientHeaders(cfg.sha, name, source, SendOptions(0, verify));
            var asked := Run(cfg, w, UploadEvents(id, headers, pieces));
            var w1 := Run(cfg, asked, CancelledEvents(id, chunk));
            && Status(asked, id).Some? && Status(asked, id).value.bytes == n
            && w1.log == asked.log + [Replied(id, TransferCancelled)]
            && var again := ClientHeaders(cfg.sha, name, source, SendOptions(Status(asked, id).value.bytes, verify));
               PublishesUnlessTold(cfg, w1, Run(cfg, w1, ResumeEvents(id, again, rest)), id, again, source,
                            Zeros(n) + source[n..], verify)
  {
    hide HexDigest, SanitizeFilename, Run, EndEvents, BodyEvents, Data, ClientHeaders, WriteAt;
    hide UploadEvents, ResumeEvents, PublishesUnlessTold, AddU64, Flowing, Fed, CancelledEvents;
    var headers := ClientHeaders(cfg.sha, name, source, SendOptions(0, verify));
    FreshUploadRuns(cfg, w, id, name, source, verify, pieces);
    var asked := Run(cfg, w, UploadEvents(id, headers, pieces));
    CancelledRuns(cfg, asked, id, chunk);
    var w1 := Run(cfg, asked, CancelledEvents(id, chunk));
    ResumeOutcome(cfg, w1, id, name, source, n, verify, rest);
    HoleIsZeros(n, source[n..]);
  }

  lemma HoleIsZeros(n: nat, data: Bytes)
    requires data != []
    ensures WriteAt([], n, data) == Zeros(n) + data
  {
    assert [] + Zeros(n) == Zeros(n) && Zeros(n)[..n] == Zeros(n);
  }

  /** The end of a body whose last chunk never reaches the file in full. */
  function FailedEndEvents(id: Uuid): seq<Event> {
    [At(id, EndOfStream), At(id, Flush(false))]
  }

  lemma FailedEndRuns(cfg: Config, w: World, id: Uuid)
    requires Running(w, id) && w.live[id].stage.Receiving? && w.live[id].pending > 0
    ensures var w' := Run(cfg, w, FailedEndEvents(id));
            && id !in w'.live && w'.sessions == w.sessions && w'.staging == w.staging && w'.received == w.received
            && w'.log == w.log + [Replied(id, FlushFailed)]
  {
    var a, b := At(id, EndOfStream), At(id, Flush(false));
    assert FailedEndEvents(id) == [a, b] + [];
    RunTwo(cfg, w, a, b, []);
    RunNothing(cfg, Step(cfg, Step(cfg, w, a), b));
    assert w.staging[id := w.staging[id]] == w.staging;
  }

  /** After one chunk has been accepted and `landing` bytes of it have landed, the file is that long. */
  lemma OneChunkLands(cfg: Config, w: World, id: Uuid, headers: Headers, chunk: Bytes, landing: nat)
    requires id !in w.live && Admit(cfg, headers).Ok? && Admit(cfg, headers).value.resume == 0 && landing < |chunk|
    ensures var w1 := Run(cfg, w, UploadEvents(id, headers, [Piece(chunk, landing)]));
            && Running(w1, id) && w1.live[id].stage.Receiving?
            && w1.live[id].pending == |chunk| - landing && w1.staging[id] == chunk[..landing]
  {
    hide Admit, Run, DoOpen;
    var first := At(id, Begin(headers, Opened));
    var w0 := Step(cfg, w, first);
    BeginFlows(cfg, w, id, headers);
    OpenedState(w, id, headers, Admit(cfg, headers).value);
    var piece := Piece(chunk, landing);
    assert [piece][1..] == [] && BodyEvents(id, []) == [];
    assert BodyEvents(id, [piece]) == ChunkEvents(id, piece) + [] == ChunkEvents(id, piece);
    RunAppend(cfg, w, [first], ChunkEvents(id, piece));
    RunSingle(cfg, w, first);
    FreshChunkLands(cfg, w0, id, chunk, landing);
  }

  lemma FreshChunkLands(cfg: Config, w: World, id: Uuid, chunk: Bytes, landing: nat)
    requires Flowing(w, id) && w.staging[id] == [] && w.live[id].fed == [] && w.live[id].pending == 0
    requires w.live[id].resume == 0 && landing < |chunk|
    ensures var w1 := Run(cfg, w, ChunkEvents(id, Piece(chunk, landing)));
            && Running(w1, id) && w1.live[id].stage.Receiving?
            && w1.live[id].pending == |chunk| - landing && w1.staging[id] == chunk[..landing]
  {
    hide DoLand, DoWrite;
    var events := ChunkEvents(id, Piece(chunk, landing));
    var w1 := SetStage(w, id, Holding(chunk));
    var w2 := SetStage(w, id, Writing(chunk));
    assert Step(cfg, w, events[0]) == w1;
    assert Step(cfg, w1, events[1]) == w2;
    var w3 := DoWrite(w2, id, chunk);
    assert Step(cfg, w2, events[2]) == w3;
    FreshWrite(w, id, chunk);
    assert Step(cfg, w3, events[3]) == DoLand(w3, id, landing);
    RunFour(cfg, w, events);
    hide Run, Step;
    LandsPiece(w3, id, landing);
    WriteAtStart(chunk[..landing]);
  }

  lemma FreshWrite(w: World, id: Uuid, chunk: Bytes)
    requires Running(w, id) && w.staging[id] == [] && w.live[id].fed == [] && w.live[id].pending == 0
    requires w.live[id].resume == 0 && chunk != []
    ensures var w' := DoWrite(SetStage(w, id, Writing(chunk)), id, chunk);
            && Running(w', id) && w'.live[id].stage.Receiving? && w'.staging[id] == []
            && w'.live[id].fed == chunk && w'.live[id].pending == |chunk| && w'.live[id].resume == 0
  {
    hide AddU64;
    assert [] + chunk == chunk;
  }

  /**
   * Fourth way. The disk fills up under the only chunk of an upload: the flush fails, the answer is a 500, and of the
   * chunk only `landing` bytes are in the part, but the endpoint reports all of it. The sender resumes where it was
   * told, and a file cut short is published.
   */
  lemma FailedFlushShortens(
    cfg: Config, w: World, id: Uuid, name: HeaderText, source: Bytes, landing: nat, verify: bool)
    requires landing < |source| < U64 && id !in w.live
    ensures var headers := ClientHeaders(cfg.sha, name, source, SendOptions(0, verify));
            var w1 := Run(cfg, w, UploadEvents(id, headers, [Piece(source, landing)]) + FailedEndEvents(id));
            && w1.log == w.log + [Accepted(id, headers)] + [Replied(id, FlushFailed)]
            && Get(w1.staging, id) == Some(source[..landing])
            && Status(w1, id).Some? && Status(w1, id).value.bytes == |source|
            && var again := ClientHeaders(cfg.sha, name, source, SendOptions(Status(w1, id).value.bytes, verify));
               PublishesUnlessTold(cfg, w1, Run(cfg, w1, ResumeEvents(id, again, [])), id, again, source,
                            source[..landing], verify)
  {
    hide HexDigest, SanitizeFilename, Run, EndEvents, BodyEvents, ClientHeaders, WriteAt, Admit;
    hide ResumeEvents, PublishesUnlessTold, AddU64, Flowing, Fed, FailedEndEvents, UploadEvents;
    var pieces := [Piece(source, landing)];
    var headers := ClientHeaders(cfg.sha, name, source, SendOptions(0, verify));
    OnePiece(source, landing);
    FreshUploadRuns(cfg, w, id, name, source, verify, pieces);
    HeadersArriveAsMeant(cfg, name, source, SendOptions(0, verify));
    OneChunkLands(cfg, w, id, headers, source, landing);
    var w0 := Run(cfg, w, UploadEvents(id, headers, pieces));
    RunAppend(cfg, w, UploadEvents(id, headers, pieces), FailedEndEvents(id));
    FailedEndRuns(cfg, w0, id);
    var w1 := Run(cfg, w, UploadEvents(id, headers, pieces) + FailedEndEvents(id));
    assert Data([]) == [] == source[|source|..];
    ResumeOutcome(cfg, w1, id, name, source, |source|, verify, []);
    WriteNothing(source[..landing], |source|);
  }

  lemma WriteNothing(file: Bytes, pos: nat)
    ensures WriteAt(file, pos, []) == file
  {
  }
}
