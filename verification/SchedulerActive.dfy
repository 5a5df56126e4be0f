/**
 * The active list. Callers that mark the transfer they were handed keep it in step with the permits; the
 * actual workers mark their own transfer instead, and what that leaves behind is described exactly.
 */
module SchedulerActive {
  import opened Prelude
  import opened Queue
  import opened Scheduler
  import opened SchedulerProofs

  /** Some worker that holds a permit has `e` on the active list. */
  ghost predicate Owned(s: Sys, e: nat) {
    exists i :: 0 <= i < |s.workers| && HasActive(s.workers[i]) && s.workers[i].entry == e
  }

  /** Active entries are the entries of workers between their push and their mark, each once. */
  ghost predicate ActiveIsOwned(s: Sys) {
    && Distinct(s.queue.active)
    && |s.queue.active| == Count(s.workers, HasActive)
    && (forall e: nat :: e in s.queue.active <==> Owned(s, e))
  }

  lemma OwnedMoves(s: Sys, s': Sys, i: nat)
    requires i < |s.workers| == |s'.workers| && EntriesApart(s)
    requires s'.workers == s.workers[i := s'.workers[i]]
    requires HasEntry(s.workers[i]) && HasEntry(s'.workers[i]) && s.workers[i].entry == s'.workers[i].entry
    ensures forall e: nat :: Owned(s', e) <==> if e == s.workers[i].entry then HasActive(s'.workers[i]) else Owned(s, e)
  {
    forall e: nat ensures Owned(s', e) <==> if e == s.workers[i].entry then HasActive(s'.workers[i]) else Owned(s, e) {
      if Owned(s, e) {
        var k :| 0 <= k < |s.workers| && HasActive(s.workers[k]) && s.workers[k].entry == e;
        assert k != i ==> s'.workers[k] == s.workers[k];
      }
      if HasActive(s'.workers[i]) {
        assert Owned(s', s.workers[i].entry);
      }
    }
  }

  lemma OwnedStays(s: Sys, s': Sys, i: nat)
    requires i < |s.workers| == |s'.workers|
    requires s'.workers == s.workers[i := s'.workers[i]]
    requires !HasActive(s.workers[i]) && !HasActive(s'.workers[i])
    ensures forall e: nat :: Owned(s', e) <==> Owned(s, e)
  {
    forall e: nat ensures Owned(s', e) <==> Owned(s, e) {
      if Owned(s, e) {
        var k :| 0 <= k < |s.workers| && HasActive(s.workers[k]) && s.workers[k].entry == e;
        assert s'.workers[k] == s.workers[k];
      }
    }
  }

  lemma OwnedByHolder(s: Sys, i: nat)
    requires i < |s.workers| && EntriesApart(s) && HasEntry(s.workers[i])
    ensures Owned(s, s.workers[i].entry) <==> HasActive(s.workers[i])
  {
  }

  lemma PushKeepsActive(s: Sys, call: seq<nat>, i: nat)
    requires |call| == |s.workers| && Enabled(s, call, i, Push) && EntriesApart(s) && ActiveIsOwned(s)
    ensures ActiveIsOwned(Step(MarkHanded, s, call, i, Push))
  {
    var s' := Step(MarkHanded, s, call, i, Push);
    CountUpdate(s.workers, i, s'.workers[i], HasActive);
    OwnedMoves(s, s', i);
    OwnedByHolder(s, i);
    hide Count, Owned, EntriesApart;
  }

  lemma MarkKeepsActive(s: Sys, call: seq<nat>, i: nat)
    requires |call| == |s.workers| && Enabled(s, call, i, Mark) && EntriesApart(s) && ActiveIsOwned(s)
    ensures ActiveIsOwned(Step(MarkHanded, s, call, i, Mark))
  {
    var s' := Step(MarkHanded, s, call, i, Mark);
    CountUpdate(s.workers, i, s'.workers[i], HasActive);
    OwnedMoves(s, s', i);
    OwnedByHolder(s, i);
    hide Count, Owned, EntriesApart, Without;
    WithoutDistinct(s.queue.active, s.workers[i].entry);
  }

  /** Every other step moves a worker between stages with, or between stages without, an active entry. */
  lemma OtherStepsKeepActive(s: Sys, call: seq<nat>, i: nat, act: Act)
    requires |call| == |s.workers| && Enabled(s, call, i, act) && !act.Push? && !act.Mark?
    requires PendingIsOwed(s) && EntriesApart(s) && ActiveIsOwned(s)
    ensures ActiveIsOwned(Step(MarkHanded, s, call, i, act))
  {
    var s' := Step(MarkHanded, s, call, i, act);
    CountUpdate(s.workers, i, s'.workers[i], HasActive);
    hide Count, Owned, CallReached;
    if HasActive(s.workers[i]) {
      OwnedMoves(s, s', i);
      OwnedByHolder(s, i);
    } else {
      OwnedStays(s, s', i);
    }
  }

  lemma StepKeepsActive(s: Sys, call: seq<nat>, i: nat, act: Act)
    requires |call| == |s.workers| && Enabled(s, call, i, act) && Inv(s) && ActiveIsOwned(s)
    ensures ActiveIsOwned(Step(MarkHanded, s, call, i, act))
  {
    hide ActiveIsOwned, Step;
    if act.Push? {
      PushKeepsActive(s, call, i);
    } else if act.Mark? {
      MarkKeepsActive(s, call, i);
    } else {
      OtherStepsKeepActive(s, call, i, act);
    }
  }

  lemma {:induction false} RunKeepsActive(s: Sys, call: seq<nat>, moves: seq<Move>)
    requires |call| == |s.workers| && Possible(MarkHanded, s, call, moves) && Inv(s) && ActiveIsOwned(s)
    ensures ActiveIsOwned(Run(MarkHanded, s, call, moves)) && Inv(Run(MarkHanded, s, call, moves))
    decreases |moves|
  {
    hide Step, Enabled, Inv, ActiveIsOwned;
    if moves != [] {
      StepKeepsInv(MarkHanded, s, call, moves[0].worker, moves[0].act);
      StepKeepsActive(s, call, moves[0].worker, moves[0].act);
      RunKeepsActive(Step(MarkHanded, s, call, moves[0].worker, moves[0].act), call, moves[1..]);
    }
  }

  /**
   * For callers that mark what they were handed, in any run every active entry sits on its own permit: there are
   * never more than three, and none once all are over.
   */
  lemma HandedCallersStayWithinPermits(call: seq<nat>, moves: seq<Move>)
    requires Possible(MarkHanded, Initial(|call|), call, moves)
    ensures var s := Run(MarkHanded, Initial(|call|), call, moves);
            && ActiveIsOwned(s)
            && |s.queue.active| + s.queue.free <= MAX_PARALLEL_TRANSFERS
            && (Quiescent(s) ==> s.queue.active == [])
  {
    InitialInv(|call|);
    CountNone(Initial(|call|).workers, HasActive);
    RunKeepsActive(Initial(|call|), call, moves);
    var s := Run(MarkHanded, Initial(|call|), call, moves);
    CountMonotone(s.workers, HasActive, HoldsPermit);
    if Quiescent(s) {
      CountNone(s.workers, HasActive);
    }
  }

  /** `e` was handed out and its receiver has pushed it. */
  ghost predicate Pushed(s: Sys, e: nat) {
    e in s.popped && forall k :: 0 <= k < |s.workers| ==> s.workers[k] != Popped(e)
  }

  /**
   * With workers that mark their own transfer, an entry is active from its push until its own worker marks it, and
   * for ever if it was pushed after that (`late`).
   */
  ghost predicate ActiveUntilOwnMark(s: Sys, late: set<nat>) {
    && (forall e: nat :: e in s.queue.active <==>
          Pushed(s, e) && e < |s.workers| && (e in late || !HasMarked(s.workers[e])))
    && (forall e: nat :: e in late ==> Pushed(s, e) && e < |s.workers| && HasMarked(s.workers[e]))
  }

  /** This step pushes an entry whose own worker has already marked it. */
  predicate PushesLate(s: Sys, i: nat, act: Act) {
    && i < |s.workers| && act.Push? && s.workers[i].Popped? && s.workers[i].entry < |s.workers|
    && HasMarked(s.workers[s.workers[i].entry])
  }

  function LateAfter(s: Sys, i: nat, act: Act, late: set<nat>): set<nat> {
    if PushesLate(s, i, act) then late + {s.workers[i].entry} else late
  }

  /** `late` and what the run pushes late. */
  function Late(s: Sys, call: seq<nat>, moves: seq<Move>, late: set<nat>): set<nat>
    requires |call| == |s.workers| && Possible(MarkOwn, s, call, moves)
    decreases |moves|
  {
    if moves == [] then late
    else Late(Step(MarkOwn, s, call, moves[0].worker, moves[0].act), call, moves[1..],
              LateAfter(s, moves[0].worker, moves[0].act, late))
  }

  lemma PushedSame(s: Sys, s': Sys, i: nat)
    requires i < |s.workers| == |s'.workers| && s'.workers == s.workers[i := s'.workers[i]] && s'.popped == s.popped
    requires !s.workers[i].Popped? && !s'.workers[i].Popped?
    ensures forall e: nat :: Pushed(s', e) <==> Pushed(s, e)
  {
    forall e: nat ensures Pushed(s', e) <==> Pushed(s, e) {
      assert forall k :: 0 <= k < |s.workers| && k != i ==> s'.workers[k] == s.workers[k];
    }
  }

  lemma PushedByPop(s: Sys, call: seq<nat>, i: nat)
    requires |call| == |s.workers| && Enabled(s, call, i, Pop) && Inv(s)
    ensures forall e: nat :: Pushed(Step(MarkOwn, s, call, i, Pop), e) <==> Pushed(s, e)
  {
    hide Count, CallReached, PermitsAddUp, NotesSound;
    PopFindsSomething(s, call, i);
    var s' := Step(MarkOwn, s, call, i, Pop);
    var first := s.queue.pending[0];
    assert s.enqueued[|s.popped|] == first;
    assert first !in s.popped by {
      assert forall k :: 0 <= k < |s.popped| ==> s.popped[k] == s.enqueued[k];
    }
    forall e: nat ensures Pushed(s', e) <==> Pushed(s, e) {
      assert s'.workers[i] == Popped(first);
      assert forall k :: 0 <= k < |s.workers| && k != i ==> s'.workers[k] == s.workers[k];
    }
  }

  lemma PushedByPush(s: Sys, call: seq<nat>, i: nat)
    requires |call| == |s.workers| && Enabled(s, call, i, Push) && Inv(s)
    ensures forall e: nat :: Pushed(Step(MarkOwn, s, call, i, Push), e) <==> Pushed(s, e) || e == s.workers[i].entry
    ensures !Pushed(s, s.workers[i].entry) && s.workers[i].entry < |s.workers|
  {
    hide Count, CallReached, PermitsAddUp, NotesSound;
    var s' := Step(MarkOwn, s, call, i, Push);
    var mine := s.workers[i].entry;
    assert mine in s.enqueued;
    forall e: nat ensures Pushed(s', e) <==> Pushed(s, e) || e == mine {
      assert forall k :: 0 <= k < |s.workers| && k != i ==> s'.workers[k] == s.workers[k];
    }
  }

  lemma StepKeepsOwnMark(s: Sys, call: seq<nat>, i: nat, act: Act, late: set<nat>)
    requires |call| == |s.workers| && Enabled(s, call, i, act) && Inv(s) && ActiveUntilOwnMark(s, late)
    ensures ActiveUntilOwnMark(Step(MarkOwn, s, call, i, act), LateAfter(s, i, act, late))
  {
    hide Count, CallReached, PermitsAddUp, NotesSound, EntriesApart, FirstInFirstOut, Pushed;
    if act.Pop? {
      PopFindsSomething(s, call, i);
      PushedByPop(s, call, i);
    } else if act.Push? {
      PushedByPush(s, call, i);
    } else {
      PushedSame(s, Step(MarkOwn, s, call, i, act), i);
    }
  }

  lemma {:induction false} RunKeepsOwnMark(s: Sys, call: seq<nat>, moves: seq<Move>, late: set<nat>)
    requires |call| == |s.workers| && Possible(MarkOwn, s, call, moves) && Inv(s) && ActiveUntilOwnMark(s, late)
    ensures ActiveUntilOwnMark(Run(MarkOwn, s, call, moves), Late(s, call, moves, late))
    ensures Inv(Run(MarkOwn, s, call, moves))
    decreases |moves|
  {
    hide Step, Enabled, Inv, ActiveUntilOwnMark, LateAfter;
    if moves != [] {
      var i, act := moves[0].worker, moves[0].act;
      StepKeepsInv(MarkOwn, s, call, i, act);
      StepKeepsOwnMark(s, call, i, act, late);
      RunKeepsOwnMark(Step(MarkOwn, s, call, i, act), call, moves[1..], LateAfter(s, i, act, late));
    }
  }

  /** The `j`-th move pushes `e` on the active list. */
  predicate PushesAt(s: Sys, call: seq<nat>, moves: seq<Move>, j: nat, e: nat)
    requires |call| == |s.workers| && Possible(MarkOwn, s, call, moves)
    decreases |moves|
  {
    if j >= |moves| then false
    else if j == 0 then moves[0].act.Push? && s.workers[moves[0].worker].entry == e
    else PushesAt(Step(MarkOwn, s, call, moves[0].worker, moves[0].act), call, moves[1..], j - 1, e)
  }

  /** Worker `e` marks its own transfer finished before the `j`-th move. */
  predicate MarkedBefore(moves: seq<Move>, j: nat, e: nat) {
    exists i :: 0 <= i < j && i < |moves| && moves[i] == Move(e, Mark)
  }

  /** Some worker pushes `e` after `e` was marked, in this run or (`already`) before it. */
  predicate PushedAfterMark(s: Sys, call: seq<nat>, moves: seq<Move>, e: nat, already: bool)
    requires |call| == |s.workers| && Possible(MarkOwn, s, call, moves)
  {
    exists j :: 0 <= j < |moves| && PushesAt(s, call, moves, j, e) && (already || MarkedBefore(moves, j, e))
  }

  lemma MarkedBeforeMore(moves: seq<Move>, j: nat, e: nat)
    requires moves != []
    ensures MarkedBefore(moves, j + 1, e) <==> moves[0] == Move(e, Mark) || MarkedBefore(moves[1..], j, e)
    ensures !MarkedBefore(moves, 0, e)
  {
    if MarkedBefore(moves, j + 1, e) {
      var i :| 0 <= i < j + 1 && i < |moves| && moves[i] == Move(e, Mark);
      assert i > 0 ==> moves[1..][i - 1] == moves[i];
    }
    if MarkedBefore(moves[1..], j, e) {
      var i :| 0 <= i < j && i < |moves| - 1 && moves[1..][i] == Move(e, Mark);
      assert moves[i + 1] == Move(e, Mark);
    }
  }

  lemma PushesAtMore(s: Sys, call: seq<nat>, moves: seq<Move>, j: nat, e: nat)
    requires |call| == |s.workers| && Possible(MarkOwn, s, call, moves) && moves != []
    ensures var s1 := Step(MarkOwn, s, call, moves[0].worker, moves[0].act);
            PushesAt(s, call, moves, j + 1, e) <==> PushesAt(s1, call, moves[1..], j, e)
  {
    hide Step, Enabled;
  }

  lemma PushedLater(s: Sys, call: seq<nat>, moves: seq<Move>, e: nat, already: bool)
    requires |call| == |s.workers| && Possible(MarkOwn, s, call, moves) && moves != []
    requires PushedAfterMark(s, call, moves, e, already) && !(already && PushesAt(s, call, moves, 0, e))
    ensures var s1 := Step(MarkOwn, s, call, moves[0].worker, moves[0].act);
            PushedAfterMark(s1, call, moves[1..], e, already || moves[0] == Move(e, Mark))
  {
    hide Step, Enabled, MarkedBefore, PushesAt;
    MarkedBeforeMore(moves, 0, e);
    var j :| 0 <= j < |moves| && PushesAt(s, call, moves, j, e) && (already || MarkedBefore(moves, j, e));
    MarkedBeforeMore(moves, j - 1, e);
    PushesAtMore(s, call, moves, j - 1, e);
  }

  /** Taking the first move off. */
  lemma PushedAfterMarkMore(s: Sys, call: seq<nat>, moves: seq<Move>, e: nat, already: bool)
    requires |call| == |s.workers| && Possible(MarkOwn, s, call, moves) && moves != []
    ensures var s1 := Step(MarkOwn, s, call, moves[0].worker, moves[0].act);
            PushedAfterMark(s, call, moves, e, already) <==>
            || (already && PushesAt(s, call, moves, 0, e))
            || PushedAfterMark(s1, call, moves[1..], e, already || moves[0] == Move(e, Mark))
  {
    hide Step, Enabled, MarkedBefore, PushesAt;
    var s1 := Step(MarkOwn, s, call, moves[0].worker, moves[0].act);
    var later := already || moves[0] == Move(e, Mark);
    if PushedAfterMark(s, call, moves, e, already) && !(already && PushesAt(s, call, moves, 0, e)) {
      PushedLater(s, call, moves, e, already);
    }
    if PushedAfterMark(s1, call, moves[1..], e, later) {
      var j :| 0 <= j < |moves| - 1 && PushesAt(s1, call, moves[1..], j, e)
            && (later || MarkedBefore(moves[1..], j, e));
      MarkedBeforeMore(moves, j, e);
      PushesAtMore(s, call, moves, j, e);
    }
  }

  /** A worker has marked after a step iff it had before, or the step is its mark. */
  lemma MarkMarks(s: Sys, call: seq<nat>, i: nat, act: Act, e: nat)
    requires |call| == |s.workers| && Enabled(s, call, i, act) && e < |s.workers|
    ensures HasMarked(Step(MarkOwn, s, call, i, act).workers[e]) <==>
            HasMarked(s.workers[e]) || Move(i, act) == Move(e, Mark)
    ensures PushesLate(s, i, act) && s.workers[i].entry == e <==>
            HasMarked(s.workers[e]) && act.Push? && s.workers[i].entry == e
  {
    hide CallReached, Without;
  }

  /** What is late, told from the moves alone. */
  lemma {:induction false} LateIff(s: Sys, call: seq<nat>, moves: seq<Move>, late: set<nat>, e: nat)
    requires |call| == |s.workers| && Possible(MarkOwn, s, call, moves) && e < |s.workers|
    ensures e in Late(s, call, moves, late) <==>
            e in late || PushedAfterMark(s, call, moves, e, HasMarked(s.workers[e]))
    decreases |moves|
  {
    if moves != [] {
      var i, act := moves[0].worker, moves[0].act;
      MarkMarks(s, call, i, act, e);
      hide Step, Enabled, PushesLate, HasMarked;
      var s1 := Step(MarkOwn, s, call, i, act);
      LateIff(s1, call, moves[1..], LateAfter(s, i, act, late), e);
      hide PushedAfterMark;
      PushedAfterMarkMore(s, call, moves, e, HasMarked(s.workers[e]));
    }
  }

  lemma {:induction false} LateInRange(s: Sys, call: seq<nat>, moves: seq<Move>, late: set<nat>)
    requires |call| == |s.workers| && Possible(MarkOwn, s, call, moves)
    requires forall e :: e in late ==> e < |s.workers|
    ensures forall e :: e in Late(s, call, moves, late) ==> e < |s.workers|
    decreases |moves|
  {
    hide Step, Enabled;
    if moves != [] {
      LateInRange(Step(MarkOwn, s, call, moves[0].worker, moves[0].act), call, moves[1..],
                  LateAfter(s, moves[0].worker, moves[0].act, late));
    }
  }

  /** At quiescence what is active is what is late. */
  lemma QuiescentActiveIsLate(call: seq<nat>, moves: seq<Move>)
    requires Possible(MarkOwn, Initial(|call|), call, moves)
    requires Quiescent(Run(MarkOwn, Initial(|call|), call, moves))
    ensures forall e: nat :: e in Run(MarkOwn, Initial(|call|), call, moves).queue.active <==>
              e in Late(Initial(|call|), call, moves, {})
  {
    InitialInv(|call|);
    RunKeepsOwnMark(Initial(|call|), call, moves, {});
    hide Run, Late, PermitsAddUp, PendingIsOwed, NotesSound, EntriesApart;
    var s := Run(MarkOwn, Initial(|call|), call, moves);
    forall e: nat | Pushed(s, e) ensures e < |s.workers| && HasMarked(s.workers[e]) {
      assert e in s.enqueued;
    }
  }

  /**
   * What the actual workers leave on the active list once all are over: exactly the transfers that some worker
   * pushed after their own worker's mark.
   */
  lemma OwnMarkingLeavesTheLate(call: seq<nat>, moves: seq<Move>, e: nat)
    requires Possible(MarkOwn, Initial(|call|), call, moves)
    requires Quiescent(Run(MarkOwn, Initial(|call|), call, moves))
    ensures e in Run(MarkOwn, Initial(|call|), call, moves).queue.active <==>
            exists j :: 0 <= j < |moves| && PushesAt(Initial(|call|), call, moves, j, e) && MarkedBefore(moves, j, e)
  {
    hide Run, Step, Enabled, Quiescent;
    QuiescentActiveIsLate(call, moves);
    LateInRange(Initial(|call|), call, moves, {});
    if e < |call| {
      LateIff(Initial(|call|), call, moves, {}, e);
    } else {
      hide Possible, PushesAt;
      assert forall i :: 0 <= i < |moves| ==> moves[i] != Move(e, Mark) by {
        MovesInRange(MarkOwn, Initial(|call|), call, moves);
      }
    }
  }

  lemma {:induction false} MovesInRange(policy: Policy, s: Sys, call: seq<nat>, moves: seq<Move>)
    requires |call| == |s.workers| && Possible(policy, s, call, moves)
    ensures forall i :: 0 <= i < |moves| ==> moves[i].worker < |call|
    decreases |moves|
  {
    hide Step, CallReached;
    if moves != [] {
      MovesInRange(policy, Step(policy, s, call, moves[0].worker, moves[0].act), call, moves[1..]);
      assert forall i :: 0 < i < |moves| ==> moves[i] == moves[1..][i - 1];
    }
  }

  /** The workers that take `act`, in order. */
  function OrderOf(moves: seq<Move>, act: Act): seq<nat> {
    if moves == [] then []
    else (if moves[0].act == act then [moves[0].worker] else []) + OrderOf(moves[1..], act)
  }

  /** Whatever a worker holds is its own entry. */
  ghost predicate HoldsOwn(s: Sys) {
    forall i :: 0 <= i < |s.workers| && HasEntry(s.workers[i]) ==> s.workers[i].entry == i
  }

  lemma OrderOfMore(moves: seq<Move>, act: Act)
    requires moves != []
    ensures moves[0].act == act ==> OrderOf(moves, act) == [moves[0].worker] + OrderOf(moves[1..], act)
    ensures moves[0].act != act ==> OrderOf(moves, act) == OrderOf(moves[1..], act)
  {
  }

  lemma StepOrders(s: Sys, call: seq<nat>, i: nat, act: Act)
    requires |call| == |s.workers| && Enabled(s, call, i, act) && (act.Pop? ==> s.queue.pending != [])
    ensures var s1 := Step(MarkOwn, s, call, i, act);
            && s1.popped == (if act.Pop? then s.popped + [s.queue.pending[0]] else s.popped)
            && s1.enqueued == (if act.Enqueue? then s.enqueued + [i] else s.enqueued)
  {
    hide CallReached, Without;
  }

  lemma NextOfPrefix(a: seq<nat>, x: nat, b: seq<nat>, c: seq<nat>, d: seq<nat>)
    requires a + ([x] + b) <= c + d && |a| < |c|
    ensures c[|a|] == x && (a + [x]) + b <= c + d
  {
    assert (a + ([x] + b))[|a|] == x;
    assert (c + d)[|a|] == c[|a|];
    assert (a + [x]) + b == a + ([x] + b);
  }

  /** The order of pops follows the order of enqueueing through one step, and a worker that pops pops its own entry. */
  lemma OrderGoesOn(s: Sys, call: seq<nat>, moves: seq<Move>)
    requires |call| == |s.workers| && Possible(MarkOwn, s, call, moves) && moves != []
    requires FirstInFirstOut(s) && PendingIsOwed(s)
    requires s.popped + OrderOf(moves, Pop) <= s.enqueued + OrderOf(moves, Enqueue)
    ensures moves[0].act.Pop? ==> s.queue.pending != [] && s.queue.pending[0] == moves[0].worker
    ensures var s1 := Step(MarkOwn, s, call, moves[0].worker, moves[0].act);
            s1.popped + OrderOf(moves[1..], Pop) <= s1.enqueued + OrderOf(moves[1..], Enqueue)
  {
    hide FirstInFirstOut, PendingIsOwed, Enabled, Step, OrderOf;
    var i, act := moves[0].worker, moves[0].act;
    OrderOfMore(moves, Pop);
    OrderOfMore(moves, Enqueue);
    if act.Pop? {
      PopFindsSomething(s, call, i);
      FirstPendingIsNext(s);
      NextOfPrefix(s.popped, i, OrderOf(moves[1..], Pop), s.enqueued, OrderOf(moves[1..], Enqueue));
    }
    StepOrders(s, call, i, act);
    if act.Enqueue? {
      assert s.enqueued + [i] + OrderOf(moves[1..], Enqueue) == s.enqueued + ([i] + OrderOf(moves[1..], Enqueue));
    }
  }

  lemma FirstPendingIsNext(s: Sys)
    requires FirstInFirstOut(s) && s.queue.pending != []
    ensures |s.popped| < |s.enqueued| && s.enqueued[|s.popped|] == s.queue.pending[0]
  {
  }

  lemma OwnPop(s: Sys, call: seq<nat>, i: nat, act: Act)
    requires |call| == |s.workers| && Enabled(s, call, i, act) && HoldsOwn(s)
    requires act.Pop? ==> s.queue.pending != [] && s.queue.pending[0] == i
    ensures HoldsOwn(Step(MarkOwn, s, call, i, act)) && !PushesLate(s, i, act)
  {
    hide CallReached, Without;
  }

  lemma {:induction false} OwnPopsAreNeverLate(s: Sys, call: seq<nat>, moves: seq<Move>)
    requires |call| == |s.workers| && Possible(MarkOwn, s, call, moves) && Inv(s) && HoldsOwn(s)
    requires s.popped + OrderOf(moves, Pop) <= s.enqueued + OrderOf(moves, Enqueue)
    ensures Late(s, call, moves, {}) == {}
    decreases |moves|
  {
    hide Step, Enabled, OrderOf, PushesLate, HoldsOwn;
    hide PermitsAddUp, FirstInFirstOut, PendingIsOwed, EntriesApart, NotesSound;
    if moves != [] {
      OrderGoesOn(s, call, moves);
      OwnPop(s, call, moves[0].worker, moves[0].act);
      StepKeepsInv(MarkOwn, s, call, moves[0].worker, moves[0].act);
      OwnPopsAreNeverLate(Step(MarkOwn, s, call, moves[0].worker, moves[0].act), call, moves[1..]);
    }
  }

  /** Nothing is left active when the workers come to `next()` in the order in which their files were enqueued. */
  lemma InOrderWorkersLeaveNone(call: seq<nat>, moves: seq<Move>)
    requires Possible(MarkOwn, Initial(|call|), call, moves)
    requires Quiescent(Run(MarkOwn, Initial(|call|), call, moves))
    requires OrderOf(moves, Pop) <= OrderOf(moves, Enqueue)
    ensures Run(MarkOwn, Initial(|call|), call, moves).queue.active == []
  {
    hide Run, Possible, Quiescent, Inv, OrderOf, Late;
    InitialInv(|call|);
    var s := Initial(|call|);
    assert s.popped + OrderOf(moves, Pop) == OrderOf(moves, Pop);
    assert s.enqueued + OrderOf(moves, Enqueue) == OrderOf(moves, Enqueue);
    assert HoldsOwn(s);
    hide Initial, HoldsOwn;
    OwnPopsAreNeverLate(s, call, moves);
    QuiescentActiveIsLate(call, moves);
    if Run(MarkOwn, s, call, moves).queue.active != [] {
      SomeElement(Run(MarkOwn, s, call, moves).queue.active);
    }
  }

  lemma SomeElement(s: seq<nat>)
    requires s != []
    ensures exists e: nat :: e in s
  {
    assert s[0] in s;
  }

  /** `moves` lead from `s` to `t`. */
  ghost predicate Leads(s: Sys, call: seq<nat>, moves: seq<Move>, t: Sys)
    requires |call| == |s.workers|
  {
    Possible(MarkOwn, s, call, moves) && Run(MarkOwn, s, call, moves) == t
  }

  lemma {:induction false} LeadsOn(s: Sys, call: seq<nat>, a: seq<Move>, t: Sys, b: seq<Move>, u: Sys)
    requires |call| == |s.workers| == |t.workers| && Leads(s, call, a, t) && Leads(t, call, b, u)
    ensures Leads(s, call, a + b, u)
    decreases |a|
  {
    hide Step, Enabled;
    if a == [] {
      assert a + b == b;
    } else {
      assert (a + b)[0] == a[0] && (a + b)[1..] == a[1..] + b;
      LeadsOn(Step(MarkOwn, s, call, a[0].worker, a[0].act), call, a[1..], t, b, u);
    }
  }

  lemma LeadsOne(s: Sys, call: seq<nat>, i: nat, act: Act)
    requires |call| == |s.workers| && Enabled(s, call, i, act)
    ensures Leads(s, call, [Move(i, act)], Step(MarkOwn, s, call, i, act))
  {
    hide Step, Enabled;
    assert [Move(i, act)][1..] == [];
    assert Run(MarkOwn, Step(MarkOwn, s, call, i, act), call, []) == Step(MarkOwn, s, call, i, act);
  }

  /**
   * One worker runs from its permit to its end undisturbed: it is handed whatever is oldest, announces its own file as
   * it went, and leaves the queue as the worker method by itself does.
   */
  lemma SoloRun(s: Sys, call: seq<nat>, i: nat, ok: bool) returns (moves: seq<Move>, t: Sys)
    requires |call| == |s.workers| && i < |s.workers| && s.workers[i].Spawned?
    requires s.queue.free > 0 && s.queue.pending != []
    ensures Leads(s, call, moves, t) && |t.workers| == |s.workers|
    ensures t.workers == s.workers[i := Finished] && t.queue.free == s.queue.free
    ensures t.queue.pending == s.queue.pending[1..]
    ensures t.queue.active == Without(s.queue.active + [s.queue.pending[0]], i)
    ensures t.notes == s.notes + [Started(i), if ok then Completed(i) else Failed(i)]
  {
    moves, t := [], s;
    for k := 0 to 8
      invariant Leads(s, call, moves, t) && AfterSolo(s, t, i, ok, k)
    {
      hide Possible, Run, Leads, AfterSolo, Step, Enabled;
      var act := SoloAct(ok, k);
      SoloStep(s, t, call, i, ok, k);
      LeadsOne(t, call, i, act);
      LeadsOn(s, call, moves, t, [Move(i, act)], Step(MarkOwn, t, call, i, act));
      moves, t := moves + [Move(i, act)], Step(MarkOwn, t, call, i, act);
    }
  }

  function SoloAct(ok: bool, k: nat): Act {
    if k == 0 then Acquire else if k == 1 then Pop else if k == 2 then Push else if k == 3 then Start
    else if k == 4 then Send(ok) else if k == 5 then Report else if k == 6 then Mark else Release
  }

  /** Where worker `i` has brought the system after `k` of its eight steps. */
  ghost predicate AfterSolo(s: Sys, t: Sys, i: nat, ok: bool, k: nat)
    requires i < |s.workers| && s.queue.pending != [] && s.queue.free > 0
  {
    && t.workers == s.workers[i := SoloStage(ok, k, s.queue.pending[0])]
    && t.notes == s.notes + SoloNotes(i, ok, k)
    && t.queue.free == (if k == 0 || k == 8 then s.queue.free else s.queue.free - 1)
    && t.queue.pending == (if k < 2 then s.queue.pending else s.queue.pending[1..])
    && t.queue.active == (if k < 3 then s.queue.active
                          else if k < 7 then s.queue.active + [s.queue.pending[0]]
                          else Without(s.queue.active + [s.queue.pending[0]], i))
  }

  function SoloNotes(i: nat, ok: bool, k: nat): seq<Note> {
    if k < 4 then [] else if k < 6 then [Started(i)] else [Started(i), if ok then Completed(i) else Failed(i)]
  }

  lemma SoloStep(s: Sys, t: Sys, call: seq<nat>, i: nat, ok: bool, k: nat)
    requires |call| == |s.workers| == |t.workers| && i < |s.workers| && k < 8
    requires s.queue.pending != [] && s.queue.free > 0 && AfterSolo(s, t, i, ok, k)
    ensures Enabled(t, call, i, SoloAct(ok, k))
    ensures AfterSolo(s, Step(MarkOwn, t, call, i, SoloAct(ok, k)), i, ok, k + 1)
  {
    hide Without;
  }

  function SoloStage(ok: bool, k: nat, entry: Uuid): Pc {
    if k == 0 then Spawned else if k == 1 then Holding else if k == 2 then Popped(entry)
    else if k == 3 then Registered(entry) else if k == 4 then Sending(entry) else if k == 5 then Sent(entry, ok)
    else if k == 6 then Reported(entry) else if k == 7 then Marked(entry) else Finished
  }

  /** One call has enqueued two files and spawned their workers. */
  lemma TwoSpawned() returns (moves: seq<Move>, t: Sys)
    ensures Leads(Initial(2), [0, 0], moves, t)
    ensures t.workers == [Spawned, Spawned] && t.queue == QueueState([0, 1], [], 3)
  {
    var s, call := Initial(2), [0, 0];
    assert s.workers == [NotYet, NotYet];
    var s1 := Step(MarkOwn, s, call, 0, Enqueue);
    var s2 := Step(MarkOwn, s1, call, 0, Spawn);
    var s3 := Step(MarkOwn, s2, call, 1, Enqueue);
    t := Step(MarkOwn, s3, call, 1, Spawn);
    assert t.workers == [Spawned, Spawned] && t.queue == QueueState([0, 1], [], 3);
    hide Leads;
    LeadsOne(s, call, 0, Enqueue);
    LeadsOne(s1, call, 0, Spawn);
    LeadsOne(s2, call, 1, Enqueue);
    LeadsOne(s3, call, 1, Spawn);
    hide Step, Enabled;
    LeadsOn(s, call, [Move(0, Enqueue)], s1, [Move(0, Spawn)], s2);
    LeadsOn(s, call, [Move(0, Enqueue)] + [Move(0, Spawn)], s2, [Move(1, Enqueue)], s3);
    moves := [Move(0, Enqueue)] + [Move(0, Spawn)] + [Move(1, Enqueue)] + [Move(1, Spawn)];
    LeadsOn(s, call, [Move(0, Enqueue)] + [Move(0, Spawn)] + [Move(1, Enqueue)], s3, [Move(1, Spawn)], t);
  }

  /**
   * The leak is real. One call sends two files; the second worker gets its permit first, is handed the first file's
   * entry, sends, and marks its own id before its own entry is even popped. When all is over that entry is
   * still on the active list.
   */
  lemma OwnMarkingCanLeak() returns (moves: seq<Move>, t: Sys)
    ensures Leads(Initial(2), [0, 0], moves, t) && Quiescent(t) && t.queue.active == [1]
  {
    hide Leads, Step;
    var s, call := Initial(2), [0, 0];
    var setup, s4 := TwoSpawned();
    var first, u := SoloRun(s4, call, 1, true);
    assert u.queue.active == Without([0], 1) == [0];
    var second, v := SoloRun(u, call, 0, true);
    LeadsOn(s, call, setup, s4, first, u);
    LeadsOn(s, call, setup + first, u, second, v);
    assert v.queue.active == Without([0, 1], 0) == [1];
    moves, t := setup + first + second, v;
  }
}
