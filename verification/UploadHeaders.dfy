/** What the headers of a request amount to, what opening does, and what the answers say on the wire. */
module UploadHeaders {
  import opened Prelude
  import opened Session
  import opened ContentRange
  import opened Filename
  import opened SafePath
  import opened Upload

  /** The offset a header names, if it names one. */
  ghost predicate ResumesAt(header: Option<string>, n: nat) {
    if header.Some? && (exists sign, digits, tail, k: nat :: NamesOffset(header.value, sign, digits, tail, k)) then
      exists sign, digits, tail :: NamesOffset(header.value, sign, digits, tail, n)
    else n == 0
  }

  /**
   * Which headers are refused and why, and what the others ask for. A name and a size that is a number below 2^64 are
   * required; then the request is for that size, under the sanitized name, with the digest given if any, from the
   * offset named if any. The check of the path refuses nothing.
   */
  lemma AdmitExact(cfg: Config, headers: Headers)
    ensures var r := Admit(cfg, headers);
            var sized := headers.totalSize.Some? && exists n :: NamesNumber(headers.totalSize.value, n);
            if headers.fileName.None? then r == Err(MissingFileName)
            else if !sized then r == Err(MissingTotalSize)
            else
              && r.Ok? && NamesNumber(headers.totalSize.value, r.value.total)
              && r.value.target == cfg.receivedDir + [SanitizeFilename(headers.fileName.value)]
              && r.value.expected == headers.sha256 && ResumesAt(headers.contentRange, r.value.resume)
  {
    hide SanitizeFilename, Resolve, ParseU64, ParseResumeOffset, NamesNumber, NamesOffset;
    if headers.fileName.Some? {
      SanitizedJoinsDirectlyUnderBase(cfg.receivedDir, headers.fileName.value);
    }
    if headers.totalSize.Some? {
      SizeParsed(headers.totalSize.value);
    }
    OffsetResumes(headers.contentRange);
  }

  lemma SizeParsed(text: string)
    ensures ParseU64(text).None? <==> !exists n :: NamesNumber(text, n)
    ensures ParseU64(text).Some? ==> NamesNumber(text, ParseU64(text).value)
  {
    if ParseU64(text).Some? {
      ParseU64Names(text, ParseU64(text).value);
    }
    forall n: nat | NamesNumber(text, n) ensures ParseU64(text).Some? {
      NumberSmall(text, n);
      ParseU64Names(text, n);
    }
  }

  lemma NumberSmall(text: string, n: nat)
    requires NamesNumber(text, n)
    ensures n < U64
  {
    var sign, digits :| NumberIn(text, sign, digits, n);
  }

  lemma OffsetResumes(header: Option<string>)
    ensures ResumesAt(header, match ParseResumeOffset(header) case Some(n) => n case None => 0)
  {
    hide ParseResumeOffset, NamesOffset;
    match header {
      case None => NoHeader();
      case Some(raw) =>
        if ParseResumeOffset(header).Some? {
          ParseResumeOffsetExact(raw, ParseResumeOffset(header).value);
        }
        forall sign, digits, tail, k: nat | NamesOffset(raw, sign, digits, tail, k)
          ensures ParseResumeOffset(header) == Some(k)
        {
          OffsetSmall(raw, sign, digits, tail, k);
          ParseResumeOffsetExact(raw, k);
        }
    }
  }

  lemma NoHeader()
    ensures ParseResumeOffset(None) == None
  {
  }

  lemma OffsetSmall(raw: string, sign: string, digits: string, tail: string, k: nat)
    requires NamesOffset(raw, sign, digits, tail, k)
    ensures k < U64
  {
  }

  /** What opening does to the part, and when there is a session afterwards. */
  lemma OpeningExact(cfg: Config, w: World, id: Uuid, headers: Headers, outcome: OpenOutcome)
    requires id !in w.live && Admit(cfg, headers).Ok?
    ensures var w', r := Act(cfg, w, id, Begin(headers, outcome)), Admit(cfg, headers).value;
            var kept := if id in w.staging then w.staging[id] else [];
            if outcome.DirFailed? || outcome.OpenFailed? then
              w' == w.(log := w.log + [Replied(id, StorageError)])
            else if outcome.SeekFailed? && r.resume > 0 then
              w' == w.(staging := w.staging[id := kept], log := w.log + [Replied(id, StorageError)])
            else
              && w'.staging == w.staging[id := if r.resume == 0 then [] else kept] && w'.received == w.received
              && w'.sessions == w.sessions[id := SessionState(r.resume, r.total, false, false)]
              && w'.log == w.log + [Accepted(id, headers)] && id in w'.live
  {
    hide Admit;
  }

  /** The statuses of the protocol document, section 4.4, each with the endings it stands for. */
  lemma StatusCodesAsDocumented(reply: Reply)
    ensures StatusCode(reply) == 200 <==> reply.Complete?
    ensures StatusCode(reply) == 206 <==> reply.Partial?
    ensures StatusCode(reply) == 422 <==> reply.ChecksumMismatch?
    ensures StatusCode(reply) == 499 <==> reply.TransferCancelled?
    ensures StatusCode(reply) == 400 <==>
            reply.MissingFileName? || reply.MissingTotalSize? || reply.UnsafePath? || reply.StreamBroken?
    ensures StatusCode(reply) == 500 <==>
            || reply.StorageError? || reply.WriteFailed? || reply.FlushFailed?
            || reply.RehashFailed? || reply.RenameFailed?
  {
  }
}
