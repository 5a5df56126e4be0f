/** The transfer queue with its three permits (`transfer/queue.rs`). */
module Queue {
  import opened Prelude
  import opened Session

  const MAX_PARALLEL_TRANSFERS: nat := 3

  datatype TransferStatus = Queued | Connecting

  datatype QueuedTransfer = QueuedTransfer(
    id: Uuid, fileName: string, total: U64Int, direction: Direction, status: TransferStatus)

  /** What the scheduler can see of the queue: ids waiting, ids active, permits free. */
  datatype QueueState = QueueState(pending: seq<Uuid>, active: seq<Uuid>, free: nat) {

    function Enqueue(id: Uuid): QueueState {
      this.(pending := pending + [id])
    }

    function Acquire(): QueueState
      requires free > 0
    {
      this.(free := free - 1)
    }

    function Pop(): QueueState
      requires pending != []
    {
      this.(pending := pending[1..])
    }

    function PushActive(id: Uuid): QueueState {
      this.(active := active + [id])
    }

    function MarkFinished(id: Uuid): QueueState {
      this.(active := Without(active, id))
    }

    function Release(): QueueState {
      this.(free := free + 1)
    }
  }

  /** `ids` with every `id` taken out, the order kept. */
  function Without(ids: seq<Uuid>, id: Uuid): (r: seq<Uuid>)
    ensures forall x :: x in r <==> x in ids && x != id
    ensures |r| <= |ids|
  {
    if ids == [] then []
    else (if ids[0] == id then [] else [ids[0]]) + Without(ids[1..], id)
  }

  ghost predicate Distinct(ids: seq<Uuid>) {
    forall i, j :: 0 <= i < j < |ids| ==> ids[i] != ids[j]
  }

  /** From a list without repetitions exactly one element goes, if it is there at all. */
  lemma {:induction false} WithoutDistinct(ids: seq<Uuid>, id: Uuid)
    requires Distinct(ids)
    ensures Distinct(Without(ids, id))
    ensures |Without(ids, id)| == if id in ids then |ids| - 1 else |ids|
  {
    if ids != [] {
      var rest := ids[1..];
      assert Distinct(rest) && ids[0] !in rest;
      WithoutDistinct(rest, id);
    }
  }

  lemma {:induction false} WithoutAppend(ids: seq<Uuid>, x: Uuid, id: Uuid)
    ensures Without(ids + [x], id) == Without(ids, id) + (if x == id then [] else [x])
  {
    if ids == [] {
      assert [x][1..] == [];
    } else {
      assert (ids + [x])[0] == ids[0] && (ids + [x])[1..] == ids[1..] + [x];
      WithoutAppend(ids[1..], x, id);
      var head := if ids[0] == id then [] else [ids[0]];
      var tail := if x == id then [] else [x];
      assert Without(ids + [x], id) == head + (Without(ids[1..], id) + tail);
    }
  }

  datatype NextResult =
    | Blocked                  // no permit is free: the caller would wait
    | Empty                    // nothing pending: the permit goes straight back
    | Handed(transfer: QueuedTransfer, session: TransferSession)

  class TransferQueue {
    var pending: seq<QueuedTransfer>
    var active: seq<(QueuedTransfer, TransferSession)>
    var free: nat

    ghost function State(): QueueState
      reads this
    {
      QueueState(PendingIds(pending), ActiveIds(active), free)
    }

    constructor ()
      ensures State() == QueueState([], [], MAX_PARALLEL_TRANSFERS)
    {
      pending, active, free := [], [], MAX_PARALLEL_TRANSFERS;
    }

    method Enqueue(transfer: QueuedTransfer)
      modifies this`pending
      ensures pending == old(pending) + [transfer]
      ensures State() == old(State()).Enqueue(transfer.id)
    {
      PendingIdsAppend(pending, transfer);
      pending := pending + [transfer];
    }

    /** Takes a permit, then the oldest pending transfer with a fresh session. */
    method Next() returns (r: NextResult)
      modifies this
      ensures r.Blocked? <==> old(free) == 0
      ensures r.Empty? <==> old(free) > 0 && old(pending) == []
      ensures !r.Handed? ==> pending == old(pending) && active == old(active) && free == old(free)
      ensures r.Handed? ==>
                && r.transfer == old(pending)[0].(status := Connecting) && pending == old(pending)[1..]
                && active == old(active) + [(r.transfer, r.session)]
                && fresh(r.session) && r.session.id == r.transfer.id && r.session.direction == r.transfer.direction
                && r.session.State() == SessionState(0, r.transfer.total, false, false)
                && State() == old(State()).Acquire().Pop().PushActive(r.transfer.id)
    {
      if free == 0 {
        return Blocked;
      }
      free := free - 1;
      if pending == [] {
        free := free + 1;
        return Empty;
      }
      var transfer := pending[0].(status := Connecting);
      assert PendingIds(pending)[1..] == PendingIds(pending[1..]);
      pending := pending[1..];
      var session := new TransferSession(transfer.id, transfer.total, transfer.direction, 0);
      ActiveIdsAppend(active, (transfer, session));
      active := active + [(transfer, session)];
      r := Handed(transfer, session);
    }

    /** The session of the first active transfer with this id. */
    method FindSession(id: Uuid) returns (r: Option<TransferSession>)
      ensures r.None? <==> id !in ActiveIds(active)
      ensures r.Some? ==> exists k :: 0 <= k < |active| && active[k].0.id == id && active[k].1 == r.value
                                      && id !in ActiveIds(active[..k])
    {
      for k := 0 to |active|
        invariant id !in ActiveIds(active[..k])
      {
        ActiveIdsAppend(active[..k], active[k]);
        assert active[..k + 1] == active[..k] + [active[k]];
        if active[k].0.id == id {
          ActiveIdsSplit(active, k);
          return Some(active[k].1);
        }
      }
      assert active[..|active|] == active;
      return None;
    }

    method MarkFinished(id: Uuid)
      modifies this`active
      ensures State() == old(State()).MarkFinished(id)
      ensures forall entry :: entry in active <==> entry in old(active) && entry.0.id != id
    {
      var entries := active;
      var kept: seq<(QueuedTransfer, TransferSession)> := [];
      for k := 0 to |entries|
        invariant ActiveIds(kept) == Without(ActiveIds(entries[..k]), id)
        invariant forall entry :: entry in kept <==> entry in entries[..k] && entry.0.id != id
      {
        assert entries[..k + 1] == entries[..k] + [entries[k]];
        ActiveIdsAppend(entries[..k], entries[k]);
        WithoutAppend(ActiveIds(entries[..k]), entries[k].0.id, id);
        if entries[k].0.id != id {
          ActiveIdsAppend(kept, entries[k]);
          kept := kept + [entries[k]];
        }
      }
      assert entries[..|entries|] == entries;
      active := kept;
    }

    method DropPermit()
      modifies this`free
      ensures State() == old(State()).Release()
    {
      free := free + 1;
    }
  }

  function PendingIds(transfers: seq<QueuedTransfer>): (ids: seq<Uuid>)
    ensures |ids| == |transfers|
  {
    seq(|transfers|, i requires 0 <= i < |transfers| => transfers[i].id)
  }

  function ActiveIds(entries: seq<(QueuedTransfer, TransferSession)>): (ids: seq<Uuid>)
    ensures |ids| == |entries|
  {
    seq(|entries|, i requires 0 <= i < |entries| => entries[i].0.id)
  }

  lemma PendingIdsAppend(transfers: seq<QueuedTransfer>, transfer: QueuedTransfer)
    ensures PendingIds(transfers + [transfer]) == PendingIds(transfers) + [transfer.id]
  {
  }

  lemma ActiveIdsAppend(entries: seq<(QueuedTransfer, TransferSession)>, entry: (QueuedTransfer, TransferSession))
    ensures ActiveIds(entries + [entry]) == ActiveIds(entries) + [entry.0.id]
  {
  }

  lemma ActiveIdsSplit(entries: seq<(QueuedTransfer, TransferSession)>, k: nat)
    requires k < |entries|
    ensures ActiveIds(entries)[k] == entries[k].0.id && entries[k].0.id in ActiveIds(entries)
  {
    assert ActiveIds(entries)[k] in ActiveIds(entries);
  }
}
