/** Safety and progress of the scheduler over every interleaving of any number of calls. */
module SchedulerProofs {
  import opened Prelude
  import opened Queue
  import opened Scheduler

  /** Held and free permits always add up to three. */
  ghost predicate PermitsAddUp(s: Sys) {
    s.queue.free + Count(s.workers, HoldsPermit) == MAX_PARALLEL_TRANSFERS
  }

  /** What was popped followed by what is pending is what was enqueued, in order, each file at most once. */
  ghost predicate FirstInFirstOut(s: Sys) {
    && s.popped + s.queue.pending == s.enqueued
    && Distinct(s.enqueued)
    && (forall e: nat :: e in s.enqueued <==> e < |s.workers| && WasEnqueued(s.workers[e]))
  }

  /** There is one pending transfer for every worker that has yet to pop one. */
  ghost predicate PendingIsOwed(s: Sys) {
    && |s.queue.pending| == Count(s.workers, OwesPop)
    && (forall i :: 0 <= i < |s.workers| ==> !s.workers[i].FoundNothing?)
  }

  /** Workers hold different entries, all of them popped. */
  ghost predicate EntriesApart(s: Sys) {
    && (forall i :: 0 <= i < |s.workers| && HasEntry(s.workers[i]) ==> s.workers[i].entry in s.popped)
    && (forall i, j :: 0 <= i < j < |s.workers| && HasEntry(s.workers[i]) && HasEntry(s.workers[j])
          ==> s.workers[i].entry != s.workers[j].entry)
  }

  /** The notes about `id`, in order. */
  function NotesOf(notes: seq<Note>, id: Uuid): seq<Note> {
    if notes == [] then []
    else
      var init := NotesOf(notes[..|notes| - 1], id);
      if notes[|notes| - 1].id == id then init + [notes[|notes| - 1]] else init
  }

  lemma NotesOfAppend(notes: seq<Note>, note: Note, id: Uuid)
    ensures NotesOf(notes + [note], id) == if note.id == id then NotesOf(notes, id) + [note] else NotesOf(notes, id)
  {
    assert (notes + [note])[..|notes|] == notes;
  }

  /** A started transfer was announced once, an ended one has exactly one outcome after that. */
  ghost predicate NotesFit(notes: seq<Note>, id: Uuid, pc: Pc) {
    if pc.Sending? || pc.Sent? then notes == [Started(id)]
    else if pc.Reported? || pc.Marked? || pc.Finished? then
      notes == [Started(id), Completed(id)] || notes == [Started(id), Failed(id)]
    else notes == []
  }

  ghost predicate NotesSound(s: Sys) {
    forall i :: 0 <= i < |s.workers| ==> NotesFit(NotesOf(s.notes, i), i, s.workers[i])
  }

  ghost predicate Inv(s: Sys) {
    PermitsAddUp(s) && FirstInFirstOut(s) && PendingIsOwed(s) && EntriesApart(s) && NotesSound(s)
  }

  lemma {:induction false} InitialInv(n: nat)
    ensures Inv(Initial(n))
  {
    CountNone(Initial(n).workers, HoldsPermit);
    CountNone(Initial(n).workers, OwesPop);
  }

  lemma StepKeepsPermits(policy: Policy, s: Sys, call: seq<nat>, i: nat, act: Act)
    requires |call| == |s.workers| && Enabled(s, call, i, act) && PermitsAddUp(s)
    ensures PermitsAddUp(Step(policy, s, call, i, act))
  {
    CountUpdate(s.workers, i, Step(policy, s, call, i, act).workers[i], HoldsPermit);
  }

  lemma StepKeepsPending(policy: Policy, s: Sys, call: seq<nat>, i: nat, act: Act)
    requires |call| == |s.workers| && Enabled(s, call, i, act) && PendingIsOwed(s)
    ensures PendingIsOwed(Step(policy, s, call, i, act))
  {
    hide Count;
    CountUpdate(s.workers, i, Step(policy, s, call, i, act).workers[i], OwesPop);
  }

  /** A worker's `next()` never finds the queue empty. */
  lemma PopFindsSomething(s: Sys, call: seq<nat>, i: nat)
    requires |call| == |s.workers| && PendingIsOwed(s) && Enabled(s, call, i, Pop)
    ensures s.queue.pending != []
  {
    CountUpdate(s.workers, i, Finished, OwesPop);
  }

  lemma StepKeepsOrder(policy: Policy, s: Sys, call: seq<nat>, i: nat, act: Act)
    requires |call| == |s.workers| && Enabled(s, call, i, act) && FirstInFirstOut(s) && PendingIsOwed(s)
    ensures FirstInFirstOut(Step(policy, s, call, i, act))
  {
    hide Count, CallReached;
    var s' := Step(policy, s, call, i, act);
    if act.Enqueue? {
      assert s.popped + (s.queue.pending + [i]) == s.enqueued + [i];
    } else if act.Pop? {
      PopFindsSomething(s, call, i);
      var e := s.queue.pending[0];
      assert (s.popped + [e]) + s.queue.pending[1..] == s.popped + s.queue.pending;
    }
  }

  lemma StepKeepsEntries(policy: Policy, s: Sys, call: seq<nat>, i: nat, act: Act)
    requires |call| == |s.workers| && Enabled(s, call, i, act)
    requires FirstInFirstOut(s) && PendingIsOwed(s) && EntriesApart(s)
    ensures EntriesApart(Step(policy, s, call, i, act))
  {
    hide Count, CallReached;
    if act.Pop? {
      PopFindsSomething(s, call, i);
      var e := s.queue.pending[0];
      assert s.enqueued[|s.popped|] == e;
      assert e !in s.popped by {
        assert forall k :: 0 <= k < |s.popped| ==> s.popped[k] == s.enqueued[k];
      }
    }
  }

  lemma StepKeepsNotes(policy: Policy, s: Sys, call: seq<nat>, i: nat, act: Act)
    requires |call| == |s.workers| && Enabled(s, call, i, act) && NotesSound(s)
    ensures NotesSound(Step(policy, s, call, i, act))
  {
    hide NotesOf, CallReached;
    var s' := Step(policy, s, call, i, act);
    forall k | 0 <= k < |s.workers| ensures NotesFit(NotesOf(s'.notes, k), k, s'.workers[k]) {
      assert NotesFit(NotesOf(s.notes, k), k, s.workers[k]);
      if act.Start? {
        NotesOfAppend(s.notes, Started(i), k);
      } else if act.Report? {
        NotesOfAppend(s.notes, if s.workers[i].ok then Completed(i) else Failed(i), k);
      }
    }
  }

  lemma StepKeepsInv(policy: Policy, s: Sys, call: seq<nat>, i: nat, act: Act)
    requires |call| == |s.workers| && Enabled(s, call, i, act) && Inv(s)
    ensures Inv(Step(policy, s, call, i, act))
  {
    hide PermitsAddUp, FirstInFirstOut, PendingIsOwed, EntriesApart, NotesSound, Step;
    StepKeepsPermits(policy, s, call, i, act);
    StepKeepsPending(policy, s, call, i, act);
    StepKeepsOrder(policy, s, call, i, act);
    StepKeepsEntries(policy, s, call, i, act);
    StepKeepsNotes(policy, s, call, i, act);
  }

  predicate Quiescent(s: Sys) {
    forall i :: 0 <= i < |s.workers| ==> IsOver(s.workers[i])
  }

  /** The first file not yet dealt with can always be dealt with. */
  lemma {:induction false} CallersAreNeverStuck(s: Sys, call: seq<nat>, i: nat) returns (j: nat, act: Act)
    requires |call| == |s.workers| && i < |s.workers| && !IsResolved(s.workers[i])
    ensures Enabled(s, call, j, act)
    decreases i
  {
    if k :| 0 <= k < i && !IsResolved(s.workers[k]) {
      j, act := CallersAreNeverStuck(s, call, k);
    } else {
      j, act := i, if s.workers[i].Enqueued? then Spawn else Skip;
    }
  }

  /** What a worker holding a permit does next. */
  function NextAct(pc: Pc): Act
    requires HoldsPermit(pc)
  {
    match pc
    case Holding => Pop
    case Popped(_) => Push
    case Registered(_) => Start
    case Sending(_) => Send(true)
    case Sent(_, _) => Report
    case Reported(_) => Mark
    case Marked(_) => Release
  }

  /** As long as some worker is not over, some step is enabled: the scheduler cannot deadlock. */
  lemma SomethingIsEnabled(s: Sys, call: seq<nat>) returns (i: nat, act: Act)
    requires |call| == |s.workers| && PermitsAddUp(s) && !Quiescent(s)
    ensures Enabled(s, call, i, act)
  {
    hide Count, CallReached;
    if k :| 0 <= k < |s.workers| && !IsResolved(s.workers[k]) {
      i, act := CallersAreNeverStuck(s, call, k);
    } else if k :| 0 <= k < |s.workers| && HoldsPermit(s.workers[k]) {
      i, act := k, NextAct(s.workers[k]);
    } else {
      CountNone(s.workers, HoldsPermit);
      var k :| 0 <= k < |s.workers| && !IsOver(s.workers[k]);
      i, act := k, Acquire;
    }
  }

  /**
   * When every worker is over: nothing is pending, all three permits are free, everything enqueued was popped in
   * that order, and every file that was enqueued has exactly one start followed by exactly one outcome.
   */
  lemma QuiescenceIsClean(s: Sys)
    requires Inv(s) && Quiescent(s)
    ensures s.queue.pending == [] && s.queue.free == MAX_PARALLEL_TRANSFERS && s.popped == s.enqueued
    ensures forall i :: 0 <= i < |s.workers| ==>
              if i in s.enqueued
              then NotesOf(s.notes, i) == [Started(i), Completed(i)] || NotesOf(s.notes, i) == [Started(i), Failed(i)]
              else NotesOf(s.notes, i) == []
  {
    CountNone(s.workers, HoldsPermit);
    CountNone(s.workers, OwesPop);
    hide Count, NotesOf;
    assert s.popped + [] == s.popped;
    forall i | 0 <= i < |s.workers| ensures NotesFit(NotesOf(s.notes, i), i, s.workers[i]) {
    }
  }

  datatype Move = Move(worker: nat, act: Act)

  /** `moves` can be taken from `s`, each when its turn comes. */
  predicate Possible(policy: Policy, s: Sys, call: seq<nat>, moves: seq<Move>)
    requires |call| == |s.workers|
    decreases |moves|
  {
    moves != [] ==>
      && Enabled(s, call, moves[0].worker, moves[0].act)
      && Possible(policy, Step(policy, s, call, moves[0].worker, moves[0].act), call, moves[1..])
  }

  function Run(policy: Policy, s: Sys, call: seq<nat>, moves: seq<Move>): (r: Sys)
    requires |call| == |s.workers| && Possible(policy, s, call, moves)
    ensures |r.workers| == |s.workers|
    decreases |moves|
  {
    if moves == [] then s
    else Run(policy, Step(policy, s, call, moves[0].worker, moves[0].act), call, moves[1..])
  }

  lemma {:induction false} RunKeepsInv(policy: Policy, s: Sys, call: seq<nat>, moves: seq<Move>)
    requires |call| == |s.workers| && Possible(policy, s, call, moves) && Inv(s)
    ensures Inv(Run(policy, s, call, moves))
    ensures |moves| + Total(Run(policy, s, call, moves).workers) <= Total(s.workers)
    decreases |moves|
  {
    hide Inv, Step, Enabled, Total;
    if moves != [] {
      StepKeepsInv(policy, s, call, moves[0].worker, moves[0].act);
      StepsRunOut(policy, s, call, moves[0].worker, moves[0].act);
      RunKeepsInv(policy, Step(policy, s, call, moves[0].worker, moves[0].act), call, moves[1..]);
    }
  }

  lemma {:induction false} InitialTotal(n: nat)
    ensures Total(Initial(n).workers) == 11 * n
  {
    if n > 0 {
      assert Initial(n).workers[1..] == Initial(n - 1).workers;
      InitialTotal(n - 1);
    }
  }

  /** How the end of a send is announced. */
  function Outcome(id: Uuid, ok: bool): Note {
    if ok then Completed(id) else Failed(id)
  }

  /** The moves hold a send of `i` that went as `ok` says, or (`sent`) it has already been, and then a report of it. */
  predicate Told(moves: seq<Move>, i: nat, ok: bool, sent: bool) {
    exists b :: 0 <= b < |moves| && moves[b] == Move(i, Report) && (sent || SentBefore(moves, b, i, ok))
  }

  predicate SentBefore(moves: seq<Move>, b: nat, i: nat, ok: bool) {
    exists a :: 0 <= a < b && a < |moves| && moves[a] == Move(i, Send(ok))
  }

  lemma SentBeforeMore(moves: seq<Move>, b: nat, i: nat, ok: bool)
    requires moves != []
    ensures SentBefore(moves, b + 1, i, ok) <==> moves[0] == Move(i, Send(ok)) || SentBefore(moves[1..], b, i, ok)
  {
    if a :| 0 <= a < b + 1 && a < |moves| && moves[a] == Move(i, Send(ok)) {
      assert a > 0 ==> moves[1..][a - 1] == moves[a];
    }
    if a :| 0 <= a < b && a < |moves| - 1 && moves[1..][a] == Move(i, Send(ok)) {
      assert moves[a + 1] == Move(i, Send(ok));
    }
  }

  /** Taking the first move off. */
  lemma ToldMore(moves: seq<Move>, i: nat, ok: bool, sent: bool)
    requires moves != []
    ensures Told(moves, i, ok, sent) <==>
            || (moves[0] == Move(i, Report) && sent)
            || Told(moves[1..], i, ok, sent || moves[0] == Move(i, Send(ok)))
  {
    hide SentBefore;
    var later := sent || moves[0] == Move(i, Send(ok));
    assert !SentBefore(moves, 0, i, ok) by {
      NothingBefore(moves, i, ok);
    }
    if b :| 0 <= b < |moves| && moves[b] == Move(i, Report) && (sent || SentBefore(moves, b, i, ok)) {
      if b > 0 {
        SentBeforeMore(moves, b - 1, i, ok);
        assert moves[1..][b - 1] == Move(i, Report);
      }
    }
    if b :| 0 <= b < |moves| - 1 && moves[1..][b] == Move(i, Report) && (later || SentBefore(moves[1..], b, i, ok)) {
      SentBeforeMore(moves, b, i, ok);
      assert moves[b + 1] == Move(i, Report);
    }
  }

  lemma NothingBefore(moves: seq<Move>, i: nat, ok: bool)
    ensures !SentBefore(moves, 0, i, ok)
  {
  }

  /** What one step adds to the notes about an outcome, and whether the send has then been. */
  lemma StepTells(policy: Policy, s: Sys, call: seq<nat>, w: nat, act: Act, i: nat, ok: bool)
    requires |call| == |s.workers| && Enabled(s, call, w, act) && i < |s.workers|
    ensures var s1, sent := Step(policy, s, call, w, act), s.workers[i].Sent? && s.workers[i].ok == ok;
            && (Outcome(i, ok) in s1.notes <==> Outcome(i, ok) in s.notes || (Move(w, act) == Move(i, Report) && sent))
            && ((s1.workers[i].Sent? && s1.workers[i].ok == ok) <==>
                  (sent && Move(w, act) != Move(i, Report)) || Move(w, act) == Move(i, Send(ok)))
    ensures Move(w, act) == Move(i, Report) ==> s.workers[i].Sent?
  {
    hide CallReached;
  }

  /** Once reported, a worker reports no more, and before it has sent it does not report. */
  lemma {:induction false} NoReportAgain(policy: Policy, s: Sys, call: seq<nat>, moves: seq<Move>, i: nat, ok: bool)
    requires |call| == |s.workers| && Possible(policy, s, call, moves) && i < |s.workers|
    requires s.workers[i].Reported? || s.workers[i].Marked? || s.workers[i].Finished?
    ensures !Told(moves, i, ok, true)
    decreases |moves|
  {
    if moves != [] {
      var w, act := moves[0].worker, moves[0].act;
      ReportedStays(policy, s, call, w, act, i);
      hide Step, Enabled, Told;
      ToldMore(moves, i, ok, true);
      NoReportAgain(policy, Step(policy, s, call, w, act), call, moves[1..], i, ok);
    }
  }

  lemma ReportedStays(policy: Policy, s: Sys, call: seq<nat>, w: nat, act: Act, i: nat)
    requires |call| == |s.workers| && Enabled(s, call, w, act) && i < |s.workers|
    requires s.workers[i].Reported? || s.workers[i].Marked? || s.workers[i].Finished?
    ensures var pc := Step(policy, s, call, w, act).workers[i]; pc.Reported? || pc.Marked? || pc.Finished?
    ensures Move(w, act) != Move(i, Report)
  {
    hide CallReached;
  }

  lemma {:induction false} OutcomeToldFrom(policy: Policy, s: Sys, call: seq<nat>, moves: seq<Move>, i: nat, ok: bool)
    requires |call| == |s.workers| && Possible(policy, s, call, moves) && i < |s.workers|
    ensures Outcome(i, ok) in Run(policy, s, call, moves).notes <==>
            Outcome(i, ok) in s.notes || Told(moves, i, ok, s.workers[i].Sent? && s.workers[i].ok == ok)
    decreases |moves|
  {
    if moves != [] {
      var w, act := moves[0].worker, moves[0].act;
      var sent := s.workers[i].Sent? && s.workers[i].ok == ok;
      StepTells(policy, s, call, w, act, i, ok);
      if Move(w, act) == Move(i, Report) {
        ReportEnds(policy, s, call, i);
        NoReportAgain(policy, Step(policy, s, call, w, act), call, moves[1..], i, ok);
        ToldSooner(moves[1..], i, ok);
      }
      hide Step, Enabled, Told;
      ToldMore(moves, i, ok, sent);
      OutcomeToldFrom(policy, Step(policy, s, call, w, act), call, moves[1..], i, ok);
    }
  }

  lemma ReportEnds(policy: Policy, s: Sys, call: seq<nat>, i: nat)
    requires |call| == |s.workers| && Enabled(s, call, i, Report)
    ensures Step(policy, s, call, i, Report).workers[i].Reported?
  {
  }

  lemma ToldSooner(moves: seq<Move>, i: nat, ok: bool)
    ensures Told(moves, i, ok, false) ==> Told(moves, i, ok, true)
  {
  }

  /** Worker `i` sent its file, which went as `ok` says, and later reported. */
  ghost predicate SentAndReported(moves: seq<Move>, i: nat, ok: bool) {
    exists a, b :: 0 <= a < b < |moves| && moves[a] == Move(i, Send(ok)) && moves[b] == Move(i, Report)
  }

  /**
   * What is announced is what happened: in any run from the start, a transfer is announced as completed iff its worker
   * sent it with success and then reported, and as failed iff the send failed and was then reported.
   */
  lemma OutcomeTold(policy: Policy, call: seq<nat>, moves: seq<Move>, i: nat)
    requires Possible(policy, Initial(|call|), call, moves) && i < |call|
    ensures Completed(i) in Run(policy, Initial(|call|), call, moves).notes <==> SentAndReported(moves, i, true)
    ensures Failed(i) in Run(policy, Initial(|call|), call, moves).notes <==> SentAndReported(moves, i, false)
  {
    hide Run, Possible;
    OutcomeToldFrom(policy, Initial(|call|), call, moves, i, true);
    OutcomeToldFrom(policy, Initial(|call|), call, moves, i, false);
    hide Told;
    ToldIsSentAndReported(moves, i, true);
    ToldIsSentAndReported(moves, i, false);
  }

  lemma ToldIsSentAndReported(moves: seq<Move>, i: nat, ok: bool)
    ensures Told(moves, i, ok, false) <==> SentAndReported(moves, i, ok)
  {
    if b :| 0 <= b < |moves| && moves[b] == Move(i, Report) && SentBefore(moves, b, i, ok) {
      var a :| 0 <= a < b && a < |moves| && moves[a] == Move(i, Send(ok));
      assert moves[a] == Move(i, Send(ok)) && moves[b] == Move(i, Report);
    }
    if a, b :| 0 <= a < b < |moves| && moves[a] == Move(i, Send(ok)) && moves[b] == Move(i, Report) {
      assert SentBefore(moves, b, i, ok);
    }
  }

  lemma {:induction false} NotesOfHolds(notes: seq<Note>, id: Uuid, note: Note)
    requires note.id == id
    ensures note in NotesOf(notes, id) <==> note in notes
  {
    if notes != [] {
      NotesOfHolds(notes[..|notes| - 1], id, note);
      assert notes == notes[..|notes| - 1] + [notes[|notes| - 1]];
    }
  }

  /** File `i` was announced once as started and once as what became of it, or, not enqueued, not at all. */
  ghost predicate ToldAsItWent(s: Sys, moves: seq<Move>, i: nat) {
    if i !in s.enqueued then
      NotesOf(s.notes, i) == [] && !SentAndReported(moves, i, true) && !SentAndReported(moves, i, false)
    else if SentAndReported(moves, i, true) then
      NotesOf(s.notes, i) == [Started(i), Completed(i)] && !SentAndReported(moves, i, false)
    else
      NotesOf(s.notes, i) == [Started(i), Failed(i)] && SentAndReported(moves, i, false)
  }

  /** Where every worker is over, each file has been announced as it went. */
  lemma QuiescenceTells(policy: Policy, call: seq<nat>, moves: seq<Move>, i: nat)
    requires Possible(policy, Initial(|call|), call, moves) && i < |call|
    requires Quiescent(Run(policy, Initial(|call|), call, moves))
    ensures ToldAsItWent(Run(policy, Initial(|call|), call, moves), moves, i)
  {
    hide Run, Possible, Quiescent, NotesOf, SentAndReported;
    InitialInv(|call|);
    RunKeepsInv(policy, Initial(|call|), call, moves);
    var s := Run(policy, Initial(|call|), call, moves);
    QuiescenceIsClean(s);
    OutcomeTold(policy, call, moves, i);
    NotesOfHolds(s.notes, i, Completed(i));
    NotesOfHolds(s.notes, i, Failed(i));
  }

  /** The files of a call are enqueued in their order, none of them after one that could not be read. */
  ghost predicate InCallOrder(s: Sys, call: seq<nat>)
    requires |call| == |s.workers|
  {
    forall k, j :: 0 <= k < |s.enqueued| && 0 <= j < s.enqueued[k] < |call| && call[j] == call[s.enqueued[k]] ==>
      j in s.enqueued[..k]
  }

  lemma StepKeepsCallOrder(policy: Policy, s: Sys, call: seq<nat>, i: nat, act: Act)
    requires |call| == |s.workers| && Enabled(s, call, i, act) && FirstInFirstOut(s) && InCallOrder(s, call)
    ensures InCallOrder(Step(policy, s, call, i, act), call)
  {
    if act.Enqueue? {
      var longer := s.enqueued + [i];
      forall k, j | 0 <= k < |longer| && 0 <= j < longer[k] < |call| && call[j] == call[longer[k]]
        ensures j in longer[..k]
      {
        if k < |s.enqueued| {
          assert longer[..k] == s.enqueued[..k];
        } else {
          assert longer[..k] == s.enqueued;
        }
      }
    }
  }

  /** In every run the calls enqueue their files in order, up to the first that cannot be read. */
  lemma {:induction false} RunKeepsCallOrder(policy: Policy, s: Sys, call: seq<nat>, moves: seq<Move>)
    requires |call| == |s.workers| && Possible(policy, s, call, moves) && Inv(s) && InCallOrder(s, call)
    ensures InCallOrder(Run(policy, s, call, moves), call)
    decreases |moves|
  {
    hide Step, Enabled, InCallOrder, PermitsAddUp, FirstInFirstOut, PendingIsOwed, EntriesApart, NotesSound;
    if moves != [] {
      StepKeepsInv(policy, s, call, moves[0].worker, moves[0].act);
      StepKeepsCallOrder(policy, s, call, moves[0].worker, moves[0].act);
      RunKeepsCallOrder(policy, Step(policy, s, call, moves[0].worker, moves[0].act), call, moves[1..]);
    }
  }

  /**
   * Any number of `send_files` calls, any interleaving: the invariants hold throughout, each call's files are enqueued
   * in order, a run of `n` files has at most `11 * n` steps, and where it can go no further every worker is over,
   * everything is clean, and every file has been announced as it went.
   */
  lemma EveryScheduleCompletes(policy: Policy, call: seq<nat>, moves: seq<Move>)
    requires Possible(policy, Initial(|call|), call, moves)
    ensures var s := Run(policy, Initial(|call|), call, moves);
            && Inv(s) && InCallOrder(s, call)
            && |moves| <= 11 * |call|
            && ((forall i, act :: !Enabled(s, call, i, act)) ==>
                  Quiescent(s) && forall i :: 0 <= i < |call| ==> ToldAsItWent(s, moves, i))
  {
    InitialInv(|call|);
    InitialTotal(|call|);
    RunKeepsInv(policy, Initial(|call|), call, moves);
    RunKeepsCallOrder(policy, Initial(|call|), call, moves);
    hide Run, Enabled, Total, ToldAsItWent, InCallOrder;
    var s := Run(policy, Initial(|call|), call, moves);
    if !Quiescent(s) {
      var i, act := SomethingIsEnabled(s, call);
    } else {
      hide Quiescent;
      forall i | 0 <= i < |call| ensures ToldAsItWent(s, moves, i) {
        QuiescenceTells(policy, call, moves, i);
      }
    }
  }
}
