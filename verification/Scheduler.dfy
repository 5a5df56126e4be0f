/**
 * `send_files` callers and their `run_queued_send` workers (`api/mod.rs`) over the shared queue, as a transition
 * system: every lock, permit and event is a step that any other worker may come between.
 *
 * File `i` is transfer `i`; `call[i]` says which call of `send_files` it belongs to, and the files of a call
 * are dealt with in order.
 */
module Scheduler {
  import opened Prelude
  import opened Queue

  /** How far file `i` and the worker spawned for it have come. `entry` is what its `next()` was handed. */
  datatype Pc =
    | NotYet
    | Skipped                        // its metadata, or that of an earlier file of the call, could not be read
    | Enqueued
    | Spawned                        // waiting for a permit
    | Holding                        // has a permit
    | Popped(entry: Uuid)
    | Registered(entry: Uuid)        // pushed the entry on the active list
    | Sending(entry: Uuid)           // announced the start of its own file
    | Sent(entry: Uuid, ok: bool)
    | Reported(entry: Uuid)
    | Marked(entry: Uuid)
    | Finished                       // permit dropped
    | FoundNothing                   // `next()` answered that the queue was empty

  datatype Note = Started(id: Uuid) | Completed(id: Uuid) | Failed(id: Uuid)

  /** Which id a worker marks finished: its own, as the code does, or the one it was handed. */
  datatype Policy = MarkOwn | MarkHanded

  datatype Sys = Sys(
    queue: QueueState,
    workers: seq<Pc>,
    notes: seq<Note>,
    enqueued: seq<Uuid>,             // in the order of enqueueing
    popped: seq<Uuid>)               // in the order of popping

  datatype Act =
    | Skip | Enqueue | Spawn | Acquire | Pop | Push | Start | Send(ok: bool) | Report | Mark | Release

  predicate IsResolved(pc: Pc) {
    !pc.NotYet? && !pc.Enqueued?
  }

  predicate HoldsPermit(pc: Pc) {
    pc.Holding? || pc.Popped? || pc.Registered? || pc.Sending? || pc.Sent? || pc.Reported? || pc.Marked?
  }

  /** Its transfer is in the queue and its worker has not popped anything yet. */
  predicate OwesPop(pc: Pc) {
    pc.Enqueued? || pc.Spawned? || pc.Holding?
  }

  predicate WasEnqueued(pc: Pc) {
    !pc.NotYet? && !pc.Skipped?
  }

  predicate HasEntry(pc: Pc) {
    pc.Popped? || pc.Registered? || pc.Sending? || pc.Sent? || pc.Reported? || pc.Marked?
  }

  /** Pushed an entry that it has not taken off again. */
  predicate HasActive(pc: Pc) {
    pc.Registered? || pc.Sending? || pc.Sent? || pc.Reported?
  }

  predicate HasMarked(pc: Pc) {
    pc.Marked? || pc.Finished?
  }

  predicate IsOver(pc: Pc) {
    pc.Skipped? || pc.Finished? || pc.FoundNothing?
  }

  /** Steps still ahead at most. */
  function Rank(pc: Pc): nat {
    match pc
    case NotYet => 11
    case Enqueued => 10
    case Spawned => 9
    case Holding => 8
    case Popped(_) => 7
    case Registered(_) => 6
    case Sending(_) => 5
    case Sent(_, _) => 4
    case Reported(_) => 3
    case Marked(_) => 2
    case Skipped | Finished | FoundNothing => 0
  }

  /** Every earlier file of the same call is resolved, and for enqueueing none of them failed. */
  predicate CallReached(s: Sys, call: seq<nat>, i: nat, needAll: bool)
    requires |call| == |s.workers| && i < |s.workers|
  {
    forall j :: 0 <= j < i && call[j] == call[i] ==>
      IsResolved(s.workers[j]) && (needAll ==> !s.workers[j].Skipped?)
  }

  predicate Enabled(s: Sys, call: seq<nat>, i: nat, act: Act)
    requires |call| == |s.workers|
  {
    i < |s.workers| &&
    match act
    case Skip => s.workers[i].NotYet? && CallReached(s, call, i, false)
    case Enqueue => s.workers[i].NotYet? && CallReached(s, call, i, true)
    case Spawn => s.workers[i].Enqueued?
    case Acquire => s.workers[i].Spawned? && s.queue.free > 0
    case Pop => s.workers[i].Holding?
    case Push => s.workers[i].Popped?
    case Start => s.workers[i].Registered?
    case Send(_) => s.workers[i].Sending?
    case Report => s.workers[i].Sent?
    case Mark => s.workers[i].Reported?
    case Release => s.workers[i].Marked?
  }

  function Move(s: Sys, i: nat, pc: Pc): Sys
    requires i < |s.workers|
  {
    s.(workers := s.workers[i := pc])
  }

  function Step(policy: Policy, s: Sys, call: seq<nat>, i: nat, act: Act): (r: Sys)
    requires |call| == |s.workers| && Enabled(s, call, i, act)
    ensures |r.workers| == |s.workers|
  {
    match act
    case Skip => Move(s, i, Skipped)
    case Enqueue => Move(s, i, Enqueued).(queue := s.queue.Enqueue(i), enqueued := s.enqueued + [i])
    case Spawn => Move(s, i, Spawned)
    case Acquire => Move(s, i, Holding).(queue := s.queue.Acquire())
    case Pop =>
      if s.queue.pending == [] then Move(s, i, FoundNothing).(queue := s.queue.Release())
      else
        var entry := s.queue.pending[0];
        Move(s, i, Popped(entry)).(queue := s.queue.Pop(), popped := s.popped + [entry])
    case Push =>
      var entry := s.workers[i].entry;
      Move(s, i, Registered(entry)).(queue := s.queue.PushActive(entry))
    case Start => Move(s, i, Sending(s.workers[i].entry)).(notes := s.notes + [Started(i)])
    case Send(ok) => Move(s, i, Sent(s.workers[i].entry, ok))
    case Report =>
      Move(s, i, Reported(s.workers[i].entry)).(
        notes := s.notes + [if s.workers[i].ok then Completed(i) else Failed(i)])
    case Mark =>
      var id := if policy.MarkOwn? then i else s.workers[i].entry;
      Move(s, i, Marked(s.workers[i].entry)).(queue := s.queue.MarkFinished(id))
    case Release => Move(s, i, Finished).(queue := s.queue.Release())
  }

  function Initial(n: nat): Sys {
    Sys(QueueState([], [], MAX_PARALLEL_TRANSFERS), seq(n, _ => NotYet), [], [], [])
  }

  function Count(workers: seq<Pc>, p: Pc -> bool): nat {
    if workers == [] then 0 else (if p(workers[0]) then 1 else 0) + Count(workers[1..], p)
  }

  function Total(workers: seq<Pc>): nat {
    if workers == [] then 0 else Rank(workers[0]) + Total(workers[1..])
  }

  lemma {:induction false} CountUpdate(workers: seq<Pc>, i: nat, pc: Pc, p: Pc -> bool)
    requires i < |workers|
    ensures Count(workers[i := pc], p) ==
            Count(workers, p) - (if p(workers[i]) then 1 else 0) + (if p(pc) then 1 else 0)
    ensures p(workers[i]) ==> Count(workers, p) > 0
  {
    if i == 0 {
      assert workers[i := pc][1..] == workers[1..];
    } else {
      assert workers[i := pc][1..] == workers[1..][i - 1 := pc];
      CountUpdate(workers[1..], i - 1, pc, p);
    }
  }

  lemma {:induction false} TotalUpdate(workers: seq<Pc>, i: nat, pc: Pc)
    requires i < |workers|
    ensures Total(workers[i := pc]) == Total(workers) - Rank(workers[i]) + Rank(pc)
  {
    if i == 0 {
      assert workers[i := pc][1..] == workers[1..];
    } else {
      assert workers[i := pc][1..] == workers[1..][i - 1 := pc];
      TotalUpdate(workers[1..], i - 1, pc);
    }
  }

  lemma {:induction false} CountNone(workers: seq<Pc>, p: Pc -> bool)
    requires forall i :: 0 <= i < |workers| ==> !p(workers[i])
    ensures Count(workers, p) == 0
  {
    if workers != [] {
      assert forall i :: 0 <= i < |workers| - 1 ==> workers[1..][i] == workers[i + 1];
      CountNone(workers[1..], p);
    }
  }

  lemma {:induction false} CountMonotone(workers: seq<Pc>, p: Pc -> bool, q: Pc -> bool)
    requires forall pc :: p(pc) ==> q(pc)
    ensures Count(workers, p) <= Count(workers, q)
  {
    if workers != [] {
      CountMonotone(workers[1..], p, q);
    }
  }

  /** Every step uses up some of the work that is left: no run is longer than `11` steps per file. */
  lemma StepsRunOut(policy: Policy, s: Sys, call: seq<nat>, i: nat, act: Act)
    requires |call| == |s.workers| && Enabled(s, call, i, act)
    ensures Total(Step(policy, s, call, i, act).workers) < Total(s.workers)
  {
    TotalUpdate(s.workers, i, Step(policy, s, call, i, act).workers[i]);
  }
}
