/** The sending side (`transfer/client.rs`) and the whole way from a file on one device to a file on the other. */
module Client {
  import opened Prelude
  import opened StagedFile
  import opened Checksum
  import opened Session
  import opened ContentRange
  import opened Filename
  import opened SafePath
  import opened Upload
  import opened UploadResume

  const CHUNK_SIZE: nat := 1024 * 1024

  datatype SendOptions = SendOptions(resumeFrom: U64Int, verifyChecksum: bool)

  datatype Outgoing = Outgoing(headers: Headers, body: seq<Bytes>)

  /** What is left of a file after seeking to `from`; past the end there is nothing. */
  function Rest(source: Bytes, from: nat): Bytes {
    if from <= |source| then source[from..] else []
  }

  /** Wraps the open file and counts what is read from it. */
  class ProgressReader {
    const source: Bytes
    const session: TransferSession
    var pos: nat

    constructor (source: Bytes, session: TransferSession, pos: nat)
      ensures this.source == source && this.session == session && this.pos == pos
    {
      this.source, this.session, this.pos := source, session, pos;
    }

    /** One poll: any positive number of the remaining bytes that fits, or none at the end. */
    method PollRead(capacity: nat) returns (data: Bytes)
      requires capacity > 0
      modifies this`pos, session
      ensures data == [] <==> Rest(source, old(pos)) == []
      ensures |data| <= capacity && Rest(source, old(pos)) == data + Rest(source, pos)
      ensures session.State() == old(session.State()).AddBytes(|data|)
    {
      data := [];
      if pos < |source| {
        var n :| 0 < n <= capacity && pos + n <= |source|;
        data := source[pos..pos + n];
      }
      pos := pos + |data|;
      if data != [] {
        session.AddBytes(|data|);
      }
    }
  }

  /** The headers of a send. */
  function ClientHeaders(sha: Digest, name: HeaderText, source: Bytes, opts: SendOptions): Headers {
    Headers(
      Some(name),
      Some(Decimal(|source|)),
      if opts.verifyChecksum then Some(HexDigest(sha, source)) else None,
      if opts.resumeFrom > 0 then Some(FormatContentRange(opts.resumeFrom, |source|)) else None)
  }

  lemma {:induction false} FlattenAppend(chunks: seq<Bytes>, chunk: Bytes)
    ensures Flatten(chunks + [chunk]) == Flatten(chunks) + chunk
  {
    if chunks == [] {
      assert Flatten([chunk]) == chunk + Flatten([chunk][1..]);
    } else {
      FlattenAppend(chunks[1..], chunk);
      assert (chunks + [chunk])[1..] == chunks[1..] + [chunk];
      assert Flatten(chunks + [chunk]) == chunks[0] + (Flatten(chunks[1..]) + chunk);
    }
  }

  /** Reads the file to its end, whatever the sizes of the reads. */
  method StreamBody(reader: ProgressReader) returns (body: seq<Bytes>)
    modifies reader, reader.session
    ensures Flatten(body) == Rest(reader.source, old(reader.pos))
    ensures forall chunk :: chunk in body ==> 0 < |chunk| <= CHUNK_SIZE
    ensures reader.session.State() == old(reader.session.State()).AddBytes(|Flatten(body)|)
  {
    hide AddU64, Flatten, Rest;
    body := [];
    FlattenNothing();
    ghost var start := reader.session.State();
    ghost var counted := 0;
    AddNothing(start);
    while true
      invariant Flatten(body) + Rest(reader.source, reader.pos) == Rest(reader.source, old(reader.pos))
      invariant forall chunk :: chunk in body ==> 0 < |chunk| <= CHUNK_SIZE
      invariant counted == |Flatten(body)| && reader.session.State() == start.AddBytes(counted)
      decreases |Rest(reader.source, reader.pos)|
    {
      var chunk := reader.PollRead(CHUNK_SIZE);
      AddBytesTwice(start, counted, |chunk|);
      if chunk == [] {
        assert Flatten(body) + [] == Flatten(body);
        break;
      }
      FlattenAppend(body, chunk);
      body, counted := body + [chunk], counted + |chunk|;
    }
  }

  lemma FlattenNothing()
    ensures Flatten([]) == []
  {
  }

  lemma AddNothing(state: SessionState)
    ensures state.AddBytes(0) == state
  {
  }

  /**
   * Builds the request and streams the file from the resume point. However the reads fall, the body is the
   * rest of the file in non-empty chunks of at most `CHUNK_SIZE`, and the session has counted exactly the
   * bytes of the body.
   */
  method SendFile(sha: Digest, name: HeaderText, file: Option<Bytes>, session: TransferSession, opts: SendOptions)
    returns (r: Result<Outgoing, ()>)
    modifies session
    ensures r.Err? <==> file.None?
    ensures r.Ok? ==>
              && r.value.headers == ClientHeaders(sha, name, file.value, opts)
              && Flatten(r.value.body) == Rest(file.value, opts.resumeFrom)
              && (forall chunk :: chunk in r.value.body ==> 0 < |chunk| <= CHUNK_SIZE)
              && session.State() == old(session.State()).AddBytes(|Rest(file.value, opts.resumeFrom)|)
  {
    hide Flatten, Rest, HexDigest, Decimal, FormatContentRange;
    if file.None? {
      return Err(());
    }
    var source := file.value;
    var checksum := None;
    if opts.verifyChecksum {
      var hex := Sha256File(sha, source, None);
      checksum := Some(hex.value);
    }
    var reader := new ProgressReader(source, session, opts.resumeFrom);
    var body := StreamBody(reader);
    var headers := Headers(Some(name), Some(Decimal(|source|)), checksum, None);
    if opts.resumeFrom > 0 {
      headers := headers.(contentRange := Some(FormatContentRange(opts.resumeFrom, |source|)));
    }
    r := Ok(Outgoing(headers, body));
  }

  /** How the client reads a status: anything in the 200s counts as delivered. */
  predicate CountsAsSuccess(reply: Reply) {
    200 <= StatusCode(reply) < 300
  }

  /** The client's success covers the 206 of a partial upload as well as the 200. */
  lemma SuccessMeans(reply: Reply)
    ensures CountsAsSuccess(reply) <==> reply.Complete? || reply.Partial?
  {
  }

  /** The server reads the client's headers as the client meant them. */
  lemma HeadersArriveAsMeant(cfg: Config, name: HeaderText, source: Bytes, opts: SendOptions)
    requires |source| < U64
    ensures Admit(cfg, ClientHeaders(cfg.sha, name, source, opts)) ==
            Ok(Request(cfg.receivedDir + [SanitizeFilename(name)], |source|,
                       if opts.verifyChecksum then Some(HexDigest(cfg.sha, source)) else None, opts.resumeFrom))
  {
    hide HexDigest, Resolve, SanitizeFilename, ParseU64, ParseResumeOffset, FormatContentRange, Decimal;
    DecimalRoundTrip(|source|);
    ContentRangeRoundTrip(opts.resumeFrom, |source|);
    SanitizedJoinsDirectlyUnderBase(cfg.receivedDir, name);
    NoHeaderNoOffset();
  }

  lemma NoHeaderNoOffset()
    ensures ParseResumeOffset(None) == None
  {
  }

  /**
   * End to end: whatever part of the file is already staged, a client that resumes within it, with or without
   * a checksum, and whose body is cut into chunks in any way, leaves exactly its file under the sanitized name.
   */
  lemma EndToEnd(
    cfg: Config, w: World, id: Uuid, name: HeaderText, source: Bytes, opts: SendOptions, pieces: seq<Piece>)
    requires |source| < U64 && id !in w.live
    requires OpenedContents(w, id, opts.resumeFrom) <= source
    requires opts.resumeFrom <= |OpenedContents(w, id, opts.resumeFrom)|
    requires Data(pieces) == Rest(source, opts.resumeFrom)
    ensures var headers := ClientHeaders(cfg.sha, name, source, opts);
            var target := cfg.receivedDir + [SanitizeFilename(name)];
            Run(cfg, w, [At(id, Begin(headers, Opened))] + BodyEvents(id, pieces) + EndEvents(id)) ==
            World(w.staging - {id}, w.received[target := source], w.sessions - {id}, w.live - {id},
                  w.log + [Accepted(id, headers)] + [Published(id, target, source)] + [Replied(id, Complete)])
  {
    hide HexDigest, SanitizeFilename, Admit, Run, EndEvents, BodyEvents, Data, ClientHeaders;
    HeadersArriveAsMeant(cfg, name, source, opts);
    ReachingTheEndPublishes(cfg, source, w, id, ClientHeaders(cfg.sha, name, source, opts), pieces);
  }

  lemma RunSingle(cfg: Config, w: World, e: Event)
    ensures Run(cfg, w, [e]) == Step(cfg, w, e)
  {
    hide Step;
    assert [e][1..] == [];
  }

  /**
   * A `Content-Range` the parser rejects, overflow included, makes the request go exactly as one without the
   * header: the part is truncated and the handler starts at zero. Only the log remembers the header.
   */
  lemma RejectedRangeIsFreshUpload(cfg: Config, w: World, id: Uuid, headers: Headers, outcome: OpenOutcome)
    requires ParseResumeOffset(headers.contentRange).None?
    ensures var plain := headers.(contentRange := None);
            var v, u := DoBegin(cfg, w, id, headers, outcome), DoBegin(cfg, w, id, plain, outcome);
            && v.(log := u.log) == u
            && (id !in w.live && id in v.live ==>
                  v.live[id].resume == 0 && v.live[id].found == [] && v.staging[id] == [])
  {
    hide Resolve, SanitizeFilename, ParseU64;
    NoHeaderNoOffset();
    var plain := headers.(contentRange := None);
    assert Admit(cfg, headers) == Admit(cfg, plain);
  }

  /**
   * A body cut short of the end is answered 206, which the client takes for success, and the longer of the old
   * part and the cut stays, a prefix of the file.
   */
  lemma CutBodyStaysResumable(
    cfg: Config, w: World, id: Uuid, name: HeaderText, source: Bytes, opts: SendOptions, pieces: seq<Piece>, cut: nat)
    requires |source| < U64 && id !in w.live
    requires OpenedContents(w, id, opts.resumeFrom) <= source
    requires opts.resumeFrom <= |OpenedContents(w, id, opts.resumeFrom)|
    requires opts.resumeFrom <= cut < |source| && Data(pieces) == source[opts.resumeFrom..cut]
    ensures var headers := ClientHeaders(cfg.sha, name, source, opts);
            var found := OpenedContents(w, id, opts.resumeFrom);
            var w' := Run(cfg, w, [At(id, Begin(headers, Opened))] + BodyEvents(id, pieces)
                                  + [At(id, EndOfStream), At(id, Flush(true))]);
            && w'.log == w.log + [Accepted(id, headers)] + [Replied(id, Partial(cut, |source|))]
            && CountsAsSuccess(Partial(cut, |source|))
            && w'.received == w.received && id !in w'.live && id !in w'.sessions
            && Get(w'.staging, id) == Some(source[..if cut < |found| then |found| else cut])
  {
    hide HexDigest, SanitizeFilename, Admit, Run, BodyEvents, Data, ClientHeaders, DoOpen, WriteAt;
    hide OpenedContents, AddU64, Step, StatusCode;
    var headers := ClientHeaders(cfg.sha, name, source, opts);
    HeadersArriveAsMeant(cfg, name, source, opts);
    var r := Admit(cfg, headers).value;
    var found := OpenedContents(w, id, opts.resumeFrom);
    var first := [At(id, Begin(headers, Opened))];
    var tail := [At(id, EndOfStream), At(id, Flush(true))];
    var w1 := Step(cfg, w, first[0]);
    BeginFlows(cfg, w, id, headers);
    OpenedState(w, id, headers, r);
    AnyChunking(cfg, w1, id, pieces);
    var piece := source[opts.resumeFrom..cut];
    var w2 := Run(cfg, w1, BodyEvents(id, pieces));
    WriteAtKeepsPrefix(source, found, opts.resumeFrom, piece);
    CutLength(source, found, opts.resumeFrom, cut);
    AddWithinU64(opts.resumeFrom, |piece|);
    SuccessMeans(Partial(cut, |source|));
    RunAppend(cfg, w, first + BodyEvents(id, pieces), tail);
    RunAppend(cfg, w, first, BodyEvents(id, pieces));
    RunSingle(cfg, w, first[0]);
    assert [] + piece == piece;
    FedNothingKeeps(w2, id);
    PartialEnds(cfg, w2, id);
  }

  lemma CutLength(source: Bytes, found: Bytes, from: nat, cut: nat)
    requires found <= source && from <= |found| && from <= cut <= |source|
    requires WriteAt(found, from, source[from..cut]) <= source
    ensures WriteAt(found, from, source[from..cut]) == source[..if cut < |found| then |found| else cut]
  {
    assert |WriteAt(found, from, source[from..cut])| == if cut < |found| then |found| else cut;
  }

  lemma PartialEnds(cfg: Config, w: World, id: Uuid)
    requires Running(w, id) && w.live[id].stage.Receiving? && w.live[id].pending <= |w.live[id].fed|
    requires w.live[id].written != w.live[id].total
    ensures var v := Fed(w, id, []);
            Running(v, id) && Run(cfg, w, [At(id, EndOfStream), At(id, Flush(true))]) ==
            Close(v, id, Partial(w.live[id].written, w.live[id].total), Some(v.staging[id]), false)
  {
    hide Run, DoFlush, Fed;
    var w1 := SetStage(w, id, Ended);
    FlushSettles(cfg, w, id, true);
    RunSingle(cfg, w1, At(id, Flush(true)));
    RunAppend(cfg, w, [At(id, EndOfStream)], [At(id, Flush(true))]);
    RunSingle(cfg, w, At(id, EndOfStream));
    assert [At(id, EndOfStream)] + [At(id, Flush(true))] == [At(id, EndOfStream), At(id, Flush(true))];
  }
}
