/** `send_files` and the worker it spawns per file (`api/mod.rs`), each run by itself, on the real queue. */
module Sending {
  import opened Prelude
  import opened Session
  import opened Queue
  import opened Scheduler

  /** What is known of a file that can be read. */
  datatype FileInfo = FileInfo(name: string, size: U64Int)

  predicate Readable(files: seq<Option<FileInfo>>, n: nat)
    requires n <= |files|
  {
    forall i :: 0 <= i < n ==> files[i].Some?
  }

  /** The queue entry made for file `i`. */
  function EntryFor(files: seq<Option<FileInfo>>, ids: seq<Uuid>, i: nat): QueuedTransfer
    requires i < |files| && i < |ids| && files[i].Some?
  {
    QueuedTransfer(ids[i], files[i].value.name, files[i].value.size, Direction.Send, Queued)
  }

  function EntriesFor(files: seq<Option<FileInfo>>, ids: seq<Uuid>, n: nat): seq<QueuedTransfer>
    requires n <= |files| <= |ids| && Readable(files, n)
  {
    seq(n, i requires 0 <= i < n => EntryFor(files, ids, i))
  }

  /** Fresh identifiers that differ keep all that wait apart. */
  lemma FreshIdsStayDistinct(waiting: seq<QueuedTransfer>, files: seq<Option<FileInfo>>, ids: seq<Uuid>, n: nat)
    requires n <= |files| <= |ids| && Readable(files, n)
    ensures Distinct(ids) && Distinct(PendingIds(waiting)) && (forall id :: id in ids ==> id !in PendingIds(waiting))
            ==> Distinct(PendingIds(waiting + EntriesFor(files, ids, n)))
  {
    var before, all := PendingIds(waiting), PendingIds(waiting + EntriesFor(files, ids, n));
    forall i | 0 <= i < |all| ensures all[i] == if i < |waiting| then before[i] else ids[i - |waiting|] {
    }
    if Distinct(ids) && Distinct(before) && (forall id :: id in ids ==> id !in before) {
      forall i, j | 0 <= i < j < |all| ensures all[i] != all[j] {
        if i < |waiting| <= j {
          assert all[i] in before && all[j] in ids;
        }
      }
    }
  }

  /**
   * Enqueues the files in order and spawns a worker for each, until one cannot be read: then the call fails, but
   * what was enqueued before stays enqueued and its workers run. `ids` are the fresh identifiers drawn.
   */
  method SendFiles(queue: TransferQueue, files: seq<Option<FileInfo>>, ids: seq<Uuid>)
    returns (r: Result<seq<Uuid>, ()>, spawned: seq<Uuid>)
    requires |ids| == |files|
    modifies queue
    ensures |spawned| <= |files| && Readable(files, |spawned|) && spawned == ids[..|spawned|]
    ensures |spawned| < |files| ==> files[|spawned|].None?
    ensures |queue.pending| == |old(queue.pending)| + |spawned| && old(queue.pending) <= queue.pending
    ensures forall i :: 0 <= i < |spawned| ==>
              var entry := queue.pending[|old(queue.pending)| + i];
              && entry.id == ids[i] && entry.fileName == files[i].value.name && entry.total == files[i].value.size
              && entry.direction == Direction.Send && entry.status == Queued
    ensures Distinct(ids) && Distinct(PendingIds(old(queue.pending)))
            && (forall id :: id in ids ==> id !in PendingIds(old(queue.pending)))
            ==> Distinct(PendingIds(queue.pending))
    ensures queue.active == old(queue.active) && queue.free == old(queue.free)
    ensures r.Ok? <==> Readable(files, |files|)
    ensures r.Ok? ==> r.value == ids
  {
    spawned := [];
    for i := 0 to |files|
      invariant Readable(files, i) && spawned == ids[..i]
      invariant queue.pending == old(queue.pending) + EntriesFor(files, ids, i)
      invariant queue.active == old(queue.active) && queue.free == old(queue.free)
    {
      if files[i].None? {
        FreshIdsStayDistinct(old(queue.pending), files, ids, i);
        return Err(()), spawned;
      }
      queue.Enqueue(EntryFor(files, ids, i));
      assert EntriesFor(files, ids, i + 1) == EntriesFor(files, ids, i) + [EntryFor(files, ids, i)];
      spawned := spawned + [ids[i]];
    }
    assert ids[..|files|] == ids;
    FreshIdsStayDistinct(old(queue.pending), files, ids, |files|);
    r := Ok(spawned);
  }

  /**
   * The worker of transfer `id`, given how its send goes. It waits for a permit, and such a wait ends when another
   * worker drops one. It announces its own transfer and marks it finished, but the entry it takes off the queue, and
   * the session it works with, are those of the oldest pending transfer.
   */
  method RunQueuedSend(queue: TransferQueue, id: Uuid, sendSucceeds: bool)
    returns (notes: seq<Note>, session: Option<TransferSession>)
    modifies queue
    ensures queue.free == if old(queue.free) == 0 then 1 else old(queue.free)
    ensures old(queue.pending) == [] ==>
              notes == [] && session == None && queue.pending == [] && queue.active == old(queue.active)
    ensures old(queue.pending) != [] ==>
              && notes == [Started(id), if sendSucceeds then Completed(id) else Failed(id)]
              && queue.pending == old(queue.pending)[1..]
              && queue.State().active == Without(old(queue.State()).active + [old(queue.pending)[0].id], id)
              && session.Some? && fresh(session.value) && session.value.id == old(queue.pending)[0].id
  {
    notes, session := [], None;
    if queue.free == 0 {
      queue.DropPermit();
    }
    var next := queue.Next();
    if !next.Handed? {
      return;
    }
    session := Some(next.session);
    notes := notes + [Started(id)];
    if sendSucceeds {
      notes := notes + [Completed(id)];
    } else {
      notes := notes + [Failed(id)];
    }
    queue.MarkFinished(id);
    queue.DropPermit();
  }
}
