/**
 * Whose bytes a session counts. `next()` hands a worker the oldest entry and its session, but the worker sends its own
 * file with it, and that is what the session found under the entry's id then reports.
 */
module SchedulerSessions {
  import opened Queue
  import opened Scheduler
  import opened SchedulerProofs
  import opened SchedulerActive

  /** A worker with the entry, and so the session, that it was handed. */
  datatype Handout = Handout(worker: nat, entry: nat)

  /** What the pops of a run hand out, in order. */
  function Handouts(policy: Policy, s: Sys, call: seq<nat>, moves: seq<Move>): seq<Handout>
    requires |call| == |s.workers| && Possible(policy, s, call, moves)
    decreases |moves|
  {
    if moves == [] then []
    else
      (if moves[0].act.Pop? && s.queue.pending != [] then [Handout(moves[0].worker, s.queue.pending[0])] else [])
      + Handouts(policy, Step(policy, s, call, moves[0].worker, moves[0].act), call, moves[1..])
  }

  function WorkersOf(handouts: seq<Handout>): seq<nat> {
    if handouts == [] then [] else [handouts[0].worker] + WorkersOf(handouts[1..])
  }

  function EntriesOf(handouts: seq<Handout>): seq<nat> {
    if handouts == [] then [] else [handouts[0].entry] + EntriesOf(handouts[1..])
  }

  lemma {:induction false} PartsOf(handouts: seq<Handout>)
    ensures |WorkersOf(handouts)| == |EntriesOf(handouts)| == |handouts|
    ensures forall j :: 0 <= j < |handouts| ==>
              WorkersOf(handouts)[j] == handouts[j].worker && EntriesOf(handouts)[j] == handouts[j].entry
  {
    if handouts != [] {
      PartsOf(handouts[1..]);
      assert forall j :: 0 < j < |handouts| ==> handouts[j] == handouts[1..][j - 1];
    }
  }

  lemma StepOrder(policy: Policy, s: Sys, call: seq<nat>, i: nat, act: Act)
    requires |call| == |s.workers| && Enabled(s, call, i, act) && (act.Pop? ==> s.queue.pending != [])
    ensures var s1 := Step(policy, s, call, i, act);
            && s1.popped == (if act.Pop? then s.popped + [s.queue.pending[0]] else s.popped)
            && s1.enqueued == (if act.Enqueue? then s.enqueued + [i] else s.enqueued)
  {
    hide CallReached, Without;
  }

  lemma HandoutsMore(policy: Policy, s: Sys, call: seq<nat>, moves: seq<Move>)
    requires |call| == |s.workers| && Possible(policy, s, call, moves) && moves != []
    requires moves[0].act.Pop? ==> s.queue.pending != []
    ensures var s1 := Step(policy, s, call, moves[0].worker, moves[0].act);
            var all, rest := Handouts(policy, s, call, moves), Handouts(policy, s1, call, moves[1..]);
            if moves[0].act.Pop? then
              && WorkersOf(all) == [moves[0].worker] + WorkersOf(rest)
              && EntriesOf(all) == [s.queue.pending[0]] + EntriesOf(rest)
            else all == rest
  {
    hide Step, Enabled;
    var s1 := Step(policy, s, call, moves[0].worker, moves[0].act);
    var rest := Handouts(policy, s1, call, moves[1..]);
    if moves[0].act.Pop? {
      var all := [Handout(moves[0].worker, s.queue.pending[0])] + rest;
      assert all[1..] == rest;
    }
  }

  lemma NothingPopsNothing(s: Sys, call: seq<nat>, i: nat)
    requires |call| == |s.workers| && Inv(s) && Enabled(s, call, i, Pop)
    ensures s.queue.pending != []
  {
    PopFindsSomething(s, call, i);
  }

  /** A run pops in order and enqueues in order. */
  lemma {:induction false} RunOrders(policy: Policy, s: Sys, call: seq<nat>, moves: seq<Move>)
    requires |call| == |s.workers| && Possible(policy, s, call, moves) && Inv(s)
    ensures var t, out := Run(policy, s, call, moves), Handouts(policy, s, call, moves);
            && Inv(t) && WorkersOf(out) == OrderOf(moves, Pop)
            && t.popped == s.popped + EntriesOf(out)
            && t.enqueued == s.enqueued + OrderOf(moves, Enqueue)
    decreases |moves|
  {
    hide Step, Enabled, Inv;
    if moves == [] {
      assert s.enqueued + [] == s.enqueued && s.popped + [] == s.popped;
    } else {
      var i, act := moves[0].worker, moves[0].act;
      if act.Pop? {
        NothingPopsNothing(s, call, i);
      }
      hide OrderOf, Handouts, WorkersOf, EntriesOf;
      StepKeepsInv(policy, s, call, i, act);
      StepOrder(policy, s, call, i, act);
      OrderOfMore(moves, Pop);
      OrderOfMore(moves, Enqueue);
      HandoutsMore(policy, s, call, moves);
      var s1 := Step(policy, s, call, i, act);
      RunOrders(policy, s1, call, moves[1..]);
      Append3(s.enqueued, i, OrderOf(moves[1..], Enqueue));
      if act.Pop? {
        Append3(s.popped, s.queue.pending[0], EntriesOf(Handouts(policy, s1, call, moves[1..])));
      }
    }
  }

  lemma Append3(a: seq<nat>, x: nat, b: seq<nat>)
    ensures a + [x] + b == a + ([x] + b)
  {
  }

  /** In this run worker `k` is handed the session of entry `e`, and so counts file `k` on it. */
  predicate Feeds(policy: Policy, s: Sys, call: seq<nat>, moves: seq<Move>, k: nat, e: nat)
    requires |call| == |s.workers| && Possible(policy, s, call, moves)
  {
    Handout(k, e) in Handouts(policy, s, call, moves)
  }

  /**
   * Whose bytes are counted: in any run from the start, the session of entry `e` counts the file of worker `k` iff
   * `k` was as early among those that came to `next()` as `e` was among those enqueued.
   */
  lemma SessionFedBy(policy: Policy, call: seq<nat>, moves: seq<Move>, k: nat, e: nat)
    requires Possible(policy, Initial(|call|), call, moves)
    ensures var pops, all := OrderOf(moves, Pop), OrderOf(moves, Enqueue);
            && |pops| <= |all|
            && (Feeds(policy, Initial(|call|), call, moves, k, e) <==>
                  exists j :: 0 <= j < |pops| && pops[j] == k && all[j] == e)
  {
    hide Run, Possible, Handouts, OrderOf, PermitsAddUp, PendingIsOwed, EntriesApart, NotesSound;
    InitialInv(|call|);
    RunOrders(policy, Initial(|call|), call, moves);
    var t, out := Run(policy, Initial(|call|), call, moves), Handouts(policy, Initial(|call|), call, moves);
    PartsOf(out);
    hide WorkersOf, EntriesOf;
    var pops, all := OrderOf(moves, Pop), OrderOf(moves, Enqueue);
    assert [] + all == all == t.enqueued && [] + EntriesOf(out) == EntriesOf(out) == t.popped;
    assert forall j :: 0 <= j < |t.popped| ==> t.popped[j] == t.enqueued[j];
    if Handout(k, e) in out {
      var j :| 0 <= j < |out| && out[j] == Handout(k, e);
      assert pops[j] == k && all[j] == e;
    }
    if j :| 0 <= j < |pops| && pops[j] == k && all[j] == e {
      assert out[j] == Handout(k, e);
    }
  }

  /**
   * The status of every transfer counts that transfer's own bytes iff the workers come to `next()` in the order in
   * which their files were enqueued. Otherwise some transfer reports another file's bytes against its own total.
   */
  lemma SessionsCountOwnIff(policy: Policy, call: seq<nat>, moves: seq<Move>)
    requires Possible(policy, Initial(|call|), call, moves)
    ensures (forall k: nat, e: nat :: Feeds(policy, Initial(|call|), call, moves, k, e) ==> k == e) <==>
            OrderOf(moves, Pop) <= OrderOf(moves, Enqueue)
  {
    hide Possible, Feeds, OrderOf;
    var pops, all := OrderOf(moves, Pop), OrderOf(moves, Enqueue);
    SessionFedBy(policy, call, moves, 0, 0);
    if forall k: nat, e: nat :: Feeds(policy, Initial(|call|), call, moves, k, e) ==> k == e {
      forall j | 0 <= j < |pops| ensures pops[j] == all[j] {
        SessionFedBy(policy, call, moves, pops[j], all[j]);
      }
    }
    if pops <= all {
      forall k: nat, e: nat | Feeds(policy, Initial(|call|), call, moves, k, e) ensures k == e {
        SessionFedBy(policy, call, moves, k, e);
      }
    }
  }

  /** The mix-up is real: in the run that leaks, some session counts the bytes of another transfer's file. */
  lemma SessionsCanMix() returns (moves: seq<Move>, k: nat, e: nat)
    ensures Possible(MarkOwn, Initial(2), [0, 0], moves)
    ensures Feeds(MarkOwn, Initial(2), [0, 0], moves, k, e) && k != e
  {
    hide Feeds, Run, OrderOf, Quiescent, Possible;
    var t;
    moves, t := OwnMarkingCanLeak();
    assert Initial(|[0, 0]|) == Initial(2);
    if OrderOf(moves, Pop) <= OrderOf(moves, Enqueue) {
      InOrderWorkersLeaveNone([0, 0], moves);
      assert false;
    }
    SessionsCountOwnIff(MarkOwn, [0, 0], moves);
    k, e :| Feeds(MarkOwn, Initial(2), [0, 0], moves, k, e) && k != e;
  }
}
