/**
 * What the digest check is worth: whatever bytes arrive, a request whose checksum header spells the digest of a file is
 * answered 200 iff the hash cannot tell what is then in the part from that file.
 */
module UploadDigest {
  import opened Prelude
  import opened StagedFile
  import opened Checksum
  import opened Filename
  import opened Upload
  import opened UploadSafety
  import opened UploadResume
  import opened Client

  /**
   * The digest check itself, over the hash: a header that spells the digest of `source` lets the part pass iff it
   * hashes alike, whether the running digest is compared or the file is read again. Otherwise the answer is 422.
   */
  lemma DigestStepDecides(
    cfg: Config, w: World, id: Uuid, source: Bytes, text: string, readable: bool, removable: bool)
    requires id in w.live && HandlerSound(cfg, w, id) && Running(w, id) && w.live[id].stage == Sized
    requires w.live[id].expected == Some(text) && SpellsHex(text, cfg.sha(source))
    requires w.live[id].resume == 0 || readable
    ensures var w' := Act(cfg, w, id, Verify(readable, removable));
            if cfg.sha(w.staging[id]) == cfg.sha(source) then w' == SetStage(w, id, Verified)
            else
              && id !in w'.live && id !in w'.sessions && (removable ==> id !in w'.staging)
              && w'.received == w.received && w'.log == w.log + [Replied(id, ChecksumMismatch)]
  {
    var h := w.live[id];
    assert h.fed[..|h.fed|] == h.fed;
    if h.resume == 0 {
      WriteAtStart(h.fed);
    }
    SpellingIsUnique(text, cfg.sha(source));
    HexDigestIff(cfg.sha, w.staging[id], source);
    hide HexEncode, WriteAt, AddU64, SpellsHex;
  }

  /** The end of a body at the announced length with a wrong digest is answered 422, and the part is gone. */
  lemma EndMismatches(cfg: Config, w: World, id: Uuid)
    requires Running(w, id) && w.live[id].stage.Receiving? && w.live[id].pending <= |w.live[id].fed|
    requires w.live[id].written == w.live[id].total && Running(Fed(w, id, []), id)
    requires !DigestAgrees(cfg, Fed(w, id, []), id)
    ensures Run(cfg, w, EndEvents(id)) == Close(Fed(w, id, []), id, ChecksumMismatch, None, false)
  {
    hide HexDigest, Fed, DoFlush;
    var events := EndEvents(id);
    FedNothingKeeps(w, id);
    FlushSettles(cfg, w, id, true);
    var v := Fed(w, id, []);
    var w1 := SetStage(w, id, Ended);
    var w2 := SetStage(v, id, Sized);
    assert Step(cfg, w, events[0]) == w1;
    assert Step(cfg, w1, events[1]) == w2;
    var w3 := Close(w2, id, ChecksumMismatch, None, false);
    assert w2.live - {id} == v.live - {id};
    assert Step(cfg, w2, events[2]) == w3;
    assert Step(cfg, w3, events[3]) == w3 && Step(cfg, w3, events[4]) == w3;
    RunFive(cfg, w, events);
  }

  /** A checksum header is sent, and the hash tells `other` from `source`. */
  predicate ChecksumTells(sha: Digest, source: Bytes, other: Bytes, verify: bool) {
    verify && sha(source) != sha(other)
  }

  /** From `w` to `w'`, a request with these headers is answered 200 for publishing `out`, or 422 by its checksum. */
  predicate PublishesUnlessTold(
    cfg: Config, w: World, w': World, id: Uuid, headers: Headers, source: Bytes, out: Bytes, verify: bool)
  {
    var target := TargetOf(cfg, headers);
    if ChecksumTells(cfg.sha, source, out, verify) then
      && w'.received == w.received && id !in w'.staging
      && w'.log == w.log + [Accepted(id, headers)] + [Replied(id, ChecksumMismatch)]
    else
      && w'.received == w.received[target := out] && id !in w'.staging
      && w'.log == w.log + [Accepted(id, headers)] + [Published(id, target, out)] + [Replied(id, Complete)]
  }

  function ResumeEvents(id: Uuid, headers: Headers, pieces: seq<Piece>): seq<Event> {
    [At(id, Begin(headers, Opened))] + BodyEvents(id, pieces) + EndEvents(id)
  }

  /** What a request finds on opening: nothing if it starts afresh, else the part, if there is one. */
  function PartFor(w: World, id: Uuid, n: nat): Bytes {
    if n == 0 || id !in w.staging then [] else w.staging[id]
  }

  /**
   * What an undisturbed request comes to, whatever the receiver holds and whatever bytes arrive, as long as they bring
   * the count to the announced length: the part with those bytes written where the request starts is published with a
   * 200, unless a checksum is sent and the hash tells it from the sender's file. Then the answer is 422, the part is
   * removed and nothing is published.
   */
  lemma RequestOutcome(
    cfg: Config, w: World, id: Uuid, name: HeaderText, source: Bytes, n: U64Int, verify: bool, pieces: seq<Piece>)
    requires |source| < U64 && n + |Data(pieces)| == |source| && id !in w.live
    ensures var headers := ClientHeaders(cfg.sha, name, source, SendOptions(n, verify));
            PublishesUnlessTold(cfg, w, Run(cfg, w, ResumeEvents(id, headers, pieces)), id, headers, source,
                                WriteAt(PartFor(w, id, n), n, Data(pieces)), verify)
  {
    hide HexDigest, SanitizeFilename, Admit, Run, EndEvents, BodyEvents, ClientHeaders, DoOpen, Data, WriteAt;
    hide AddU64, Step;
    var headers := ClientHeaders(cfg.sha, name, source, SendOptions(n, verify));
    HeadersArriveAsMeant(cfg, name, source, SendOptions(n, verify));
    AdmittedFromHeaders(cfg, headers);
    var r := Admit(cfg, headers).value;
    var first := [At(id, Begin(headers, Opened))];
    var w0 := Step(cfg, w, first[0]);
    BeginFlows(cfg, w, id, headers);
    OpenedState(w, id, headers, r);
    AnyChunking(cfg, w0, id, pieces);
    var w1 := Run(cfg, w0, BodyEvents(id, pieces));
    FedNothingKeeps(w1, id);
    AddWithinU64(n, |Data(pieces)|);
    assert [] + Data(pieces) == Data(pieces);
    var out := WriteAt(PartFor(w, id, n), n, Data(pieces));
    if n == 0 {
      WriteAtStart(Data(pieces));
    }
    HexDigestIff(cfg.sha, source, out);
    RunAppend(cfg, w, first + BodyEvents(id, pieces), EndEvents(id));
    RunAppend(cfg, w, first, BodyEvents(id, pieces));
    RunSingle(cfg, w, first[0]);
    var v := Fed(w1, id, []);
    assert v.staging[id] == out;
    assert DigestAgrees(cfg, v, id) <==> !ChecksumTells(cfg.sha, source, out, verify);
    if DigestAgrees(cfg, v, id) {
      EndPublishes(cfg, w1, id);
    } else {
      EndMismatches(cfg, w1, id);
    }
  }
}
