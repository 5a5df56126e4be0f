/** The promises of the receiving protocol, over every run from any files an earlier process left behind. */
module UploadTheorems {
  import opened Prelude
  import opened StagedFile
  import opened Checksum
  import opened Upload
  import opened UploadIsolation
  import opened UploadSafety

  lemma StartedInv(cfg: Config, w: World)
    requires Started(w)
    ensures Inv(cfg, w)
  {
  }

  lemma ReachableInv(cfg: Config, w: World, events: seq<Event>)
    requires Started(w)
    ensures Inv(cfg, Run(cfg, w, events))
  {
    StartedInv(cfg, w);
    RunKeepsInv(cfg, w, events);
  }

  /** The latest entry about `id` stands somewhere in the log, with nothing about `id` after it. */
  lemma {:induction false} LastOfPosition(log: seq<Entry>, id: Uuid) returns (j: nat)
    requires LastOf(log, id).Some?
    ensures j < |log| && log[j] == LastOf(log, id).value && log[j].id == id
    ensures LogOf(log, id) == LogOf(log[..j], id) + [log[j]]
  {
    var last := log[|log| - 1];
    if last.id == id {
      j := |log| - 1;
    } else {
      j := LastOfPosition(log[..|log| - 1], id);
      assert log[..|log| - 1][..j] == log[..j];
    }
  }

  /**
   * In any run whatever (malformed offsets, holes, longer leftovers, drops, crashes, other transfers in
   * between), a 200 answers a request that was accepted and then published, with nothing in between; what
   * was published went where that request's name says and hashes to the digest that request asked for.
   */
  lemma CompleteMeansPublishedAndVerified(cfg: Config, w: World, events: seq<Event>, k: nat, id: Uuid)
    returns (earlier: seq<Entry>, headers: Headers, contents: Bytes)
    requires Started(w) && k < |Run(cfg, w, events).log|
    requires Run(cfg, w, events).log[k] == Replied(id, Complete)
    ensures LogOf(Run(cfg, w, events).log[..k], id) ==
            earlier + [Accepted(id, headers), Published(id, TargetOf(cfg, headers), contents)]
    ensures headers.sha256.Some? ==>
              HexDigest(cfg.sha, contents) == headers.sha256.value && SpellsHex(headers.sha256.value, cfg.sha(contents))
  {
    hide Run, HexDigest, TargetOf, HandlerSound, LoggedSound;
    var log := Run(cfg, w, events).log;
    ReachableInv(cfg, w, events);
    assert Justified(cfg, log[..k], log[k]);
    var j := LastOfPosition(log[..k], id);
    assert log[..k][..j] == log[..j];
    assert Justified(cfg, log[..j], log[j]);
    var i := LastOfPosition(log[..j], id);
    earlier, headers, contents := LogOf(log[..j][..i], id), log[i].headers, log[j].contents;
    assert log[i] == Accepted(id, headers);
    assert log[j] == Published(id, TargetOf(cfg, headers), contents);
    HexDigestIff(cfg.sha, contents, contents);
  }

  /** The one step that publishes. */
  predicate Publishes(w: World, e: Event) {
    e.At? && e.action == Rename(true) && Running(w, e.id) && w.live[e.id].stage.Verified?
  }

  lemma ActReceived(cfg: Config, w: World, id: Uuid, action: Action)
    ensures Act(cfg, w, id, action).received ==
            if Publishes(w, At(id, action)) then w.received[w.live[id].target := w.staging[id]] else w.received
  {
    hide Admit, HexDigest, WriteAt, OpenedContents;
  }

  /**
   * No step of any reachable state, a crash included, touches the received directory, except the rename
   * of a file whose announced length was reached and whose digest, if one was asked for, is right. That
   * step moves the staging file and changes one name.
   */
  lemma ReceivedChangesOnlyByRename(cfg: Config, w: World, e: Event)
    requires Inv(cfg, w)
    ensures !Publishes(w, e) ==> Step(cfg, w, e).received == w.received
    ensures Publishes(w, e) ==>
              var h := w.live[e.id];
              && Step(cfg, w, e).received == w.received[h.target := w.staging[e.id]]
              && Step(cfg, w, e).staging == w.staging - {e.id}
              && h.written == h.total
              && (h.expected.Some? ==>
                    && HexDigest(cfg.sha, w.staging[e.id]) == h.expected.value
                    && SpellsHex(h.expected.value, cfg.sha(w.staging[e.id])))
  {
    hide WriteAt, HexDigest, LoggedSound, LogSound, Act;
    if e.At? {
      ActReceived(cfg, w, e.id, e.action);
    }
    if Publishes(w, e) {
      assert HandlerSound(cfg, w, e.id);
      RenameMoves(cfg, w, e.id);
      HexDigestIff(cfg.sha, w.staging[e.id], w.staging[e.id]);
    }
  }

  lemma RenameMoves(cfg: Config, w: World, id: Uuid)
    requires Publishes(w, At(id, Rename(true)))
    ensures Act(cfg, w, id, Rename(true)).staging == w.staging - {id}
  {
  }

  /** Sessions outlive the answer only after a failed flush, re-hash or rename. */
  predicate LeavesSession(reply: Reply) {
    reply.FlushFailed? || reply.RehashFailed? || reply.RenameFailed?
  }

  /** Answers after which the partial file is thrown away. */
  predicate DiscardsPart(reply: Reply) {
    reply.TransferCancelled? || reply.ChecksumMismatch?
  }

  /**
   * The partial file after a failed write. The error may be about this chunk or about the one accepted before it:
   * what had landed is there, and of the rest some prefix.
   */
  ghost predicate TornWrite(w: World, w': World, id: Uuid) {
    && Running(w, id) && w.live[id].stage.Writing? && id in w'.staging
    && var h := w.live[id];
       exists n :: h.Landed() <= n <= |h.fed| + |h.stage.chunk| && w'.staging[id] ==
         WriteAt(h.found, h.resume, (h.fed + h.stage.chunk)[..n])
  }

  /** What the step to `w'` that gave `reply` leaves behind. */
  ghost predicate Remains(w: World, w': World, id: Uuid, reply: Reply, removable: bool)
    requires id in w.live
  {
    var h := w.live[id];
    && id !in w'.live
    && w'.received == w.received
    && (id in w'.sessions <==> LeavesSession(reply))
    && (if reply.Complete? then id !in w'.staging
        else if reply.WriteFailed? then TornWrite(w, w', id)
        else if reply.Partial? then Get(w'.staging, id) == Some(WriteAt(h.found, h.resume, h.fed))
        else if DiscardsPart(reply) && removable then id !in w'.staging
        else id in w.staging && id in w'.staging && w'.staging[id] == w.staging[id])
    && (reply.FlushFailed? ==> h.pending > 0)
  }

  /** Whether removing the partial file would succeed, for the two actions that may try. */
  function Removable(action: Action): bool {
    if action.Chunk? || action.Verify? then action.removable else false
  }

  lemma TornWriteRemains(cfg: Config, w: World, id: Uuid, torn: nat)
    requires Running(w, id) && w.live[id].stage.Writing? && HandlerSound(cfg, w, id)
    ensures var part := PartAfter(w, id, w.live[id].stage.chunk, torn);
            Remains(w, Close(w, id, WriteFailed, Some(part), false), id, WriteFailed, false)
  {
    hide WriteAt, HexDigest, AddU64, PartAfter;
    PartAfterIs(cfg, w, id, w.live[id].stage.chunk, torn);
  }

  lemma FlushRemains(cfg: Config, w: World, id: Uuid, flushed: bool, reply: Reply)
    requires Running(w, id) && w.live[id].stage.Ended? && HandlerSound(cfg, w, id)
    requires DoFlush(w, id, flushed).log == w.log + [Replied(id, reply)]
    ensures Remains(w, DoFlush(w, id, flushed), id, reply, false)
  {
    hide WriteAt, HexDigest, AddU64, PartAfter, TornWrite;
    var h := w.live[id];
    OneEntry(w.log, Replied(id, reply));
    PartAfterIs(cfg, w, id, [], |h.Tail()|);
    assert h.fed + [] == h.fed && h.fed[..|h.fed|] == h.fed;
  }

  lemma HandlerReplyRemains(cfg: Config, w: World, id: Uuid, action: Action, reply: Reply)
    requires Running(w, id) && HandlerSound(cfg, w, id)
    requires HandlerStep(cfg, w, id, action).log == w.log + [Replied(id, reply)]
    ensures Remains(w, HandlerStep(cfg, w, id, action), id, reply, Removable(action))
  {
    hide HexDigest, PartAfter, TornWrite, WriteAt, HandlerSound, DoFlush;
    OneEntry(w.log, Replied(id, reply));
    if action.WriteError? && w.live[id].stage.Writing? {
      TornWriteRemains(cfg, w, id, action.torn);
    } else if action.Flush? && w.live[id].stage.Ended? {
      FlushRemains(cfg, w, id, action.flushed, reply);
    }
  }

  /**
   * A handler's last answer decides what it leaves behind. Received files are never touched by it. A mismatch
   * or an observed cancel removes the partial file (unless removal itself fails); every other failure keeps it. A
   * 206 leaves all that was received in it, a failed flush lacks some of the chunk accepted last, and a failed write
   * leaves everything that had landed and some prefix of the rest.
   */
  lemma ReplyDecidesWhatRemains(cfg: Config, w: World, id: Uuid, action: Action, reply: Reply)
    requires id in w.live && HandlerSound(cfg, w, id)
    requires Act(cfg, w, id, action).log == w.log + [Replied(id, reply)]
    ensures Remains(w, Act(cfg, w, id, action), id, reply, Removable(action))
  {
    hide HandlerStep, Admit, WriteAt, HexDigest, TornWrite, PartAfter, DoOpen;
    OneEntry(w.log, Replied(id, reply));
    if Running(w, id) && !action.Begin? && !action.Signalled? && !action.Drop? && !action.Acknowledge? {
      HandlerReplyRemains(cfg, w, id, action, reply);
    }
  }

  /** Appending different entries gives different logs, and appending one is a change. */
  lemma OneEntry(log: seq<Entry>, e: Entry)
    ensures log + [e] != log
    ensures forall x: Entry :: log + [x] == log + [e] ==> x == e
  {
    assert |log + [e]| == |log| + 1;
    forall x: Entry | log + [x] == log + [e] ensures x == e {
      assert (log + [x])[|log|] == (log + [e])[|log|];
    }
  }
}
