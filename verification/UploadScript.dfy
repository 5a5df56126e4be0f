/**
 * One whole POST as seen by its handler: what the network, the disk and other parties do while it runs, and
 * what each stretch of it amounts to in the transition system.
 */
module UploadScript {
  import opened Prelude
  import opened StagedFile
  import opened Checksum
  import opened Session
  import opened Upload
  import opened UploadResume

  /** One pass of the chunk loop. `item` is `None` when the stream breaks; `torn` says how far a failing write got. */
  datatype Turn = Turn(
    before: seq<Signal>,       // signals that arrive before the chunk does
    landing: nat,              // bytes accepted earlier that reach the file meanwhile
    item: Option<Bytes>,
    removable: bool,
    asleep: seq<Signal>,       // signals that arrive while the handler may be sleeping
    torn: Option<nat>)

  datatype Ending =
    | Disconnected(torn: nat)  // the handler is dropped while it waits for more; so many more bytes reach the file
    | BodyEnds(before: seq<Signal>, landing: nat, flushed: bool, readable: bool, removable: bool, renamed: bool)

  datatype Script = Script(outcome: OpenOutcome, turns: seq<Turn>, ending: Ending)

  function SignalEvents(id: Uuid, signals: seq<Signal>): seq<Event> {
    if signals == [] then [] else [At(id, Signalled(signals[0]))] + SignalEvents(id, signals[1..])
  }

  /** The pause loop: it looks at the flag after every signal, and a wait ends with a resume. */
  function WaitEvents(id: Uuid, signals: seq<Signal>): seq<Event> {
    if signals == [] then [At(id, Signalled(Resume)), At(id, Proceed)]
    else [At(id, Signalled(signals[0])), At(id, Proceed)] + WaitEvents(id, signals[1..])
  }

  function WriteEvent(id: Uuid, turn: Turn): Event {
    At(id, match turn.torn case None => Write case Some(n) => WriteError(n))
  }

  function ChunkTurnEvents(id: Uuid, turn: Turn, chunk: Bytes): seq<Event> {
    [At(id, Chunk(chunk, turn.removable)), At(id, Proceed)] + (WaitEvents(id, turn.asleep) + [WriteEvent(id, turn)])
  }

  function TurnEvents(id: Uuid, turn: Turn): seq<Event> {
    SignalEvents(id, turn.before) + ([At(id, Land(turn.landing))] +
    match turn.item
    case None => [At(id, StreamError)]
    case Some(chunk) => ChunkTurnEvents(id, turn, chunk))
  }

  function TurnsEvents(id: Uuid, turns: seq<Turn>): seq<Event> {
    if turns == [] then [] else TurnEvents(id, turns[0]) + TurnsEvents(id, turns[1..])
  }

  function BodyEndEvents(id: Uuid, ending: Ending): seq<Event>
    requires ending.BodyEnds?
  {
    [At(id, EndOfStream), At(id, Flush(ending.flushed)), At(id, Verify(ending.readable, ending.removable)),
     At(id, Rename(ending.renamed)), At(id, Acknowledge)]
  }

  function EndingEvents(id: Uuid, ending: Ending): seq<Event> {
    match ending
    case Disconnected(torn) => [At(id, Drop(torn))]
    case BodyEnds(before, landing, _, _, _, _) =>
      SignalEvents(id, before) + ([At(id, Land(landing))] + BodyEndEvents(id, ending))
  }

  /** The events of one POST, from its headers to its answer. */
  function PostEvents(cfg: Config, w: World, id: Uuid, headers: Headers, script: Script): seq<Event> {
    var begin := At(id, Begin(headers, script.outcome));
    [begin] + (if id in Step(cfg, w, begin).live
               then TurnsEvents(id, script.turns) + EndingEvents(id, script.ending) else [])
  }

  function SetSession(w: World, id: Uuid, state: SessionState): World {
    w.(sessions := w.sessions[id := state])
  }

  /** What a chunk does, once the signals before it have arrived. */
  function AfterChunk(w: World, id: Uuid, turn: Turn, chunk: Bytes): World
    requires Running(w, id)
  {
    if w.sessions[id].cancelled then
      Close(w, id, TransferCancelled, if turn.removable then None else Some(w.staging[id]), false)
    else
      var w' := SetSession(w, id, ApplyAll(w.sessions[id], turn.asleep).Apply(Resume));
      match turn.torn
      case None => DoWrite(w', id, chunk)
      case Some(n) => Close(w', id, WriteFailed, Some(PartAfter(w', id, chunk, n)), false)
  }

  /** Signals arrive and accepted bytes reach the file while the handler waits. */
  function Meanwhile(w: World, id: Uuid, signals: seq<Signal>, landing: nat): World
    requires Running(w, id)
  {
    DoLand(SetSession(w, id, ApplyAll(w.sessions[id], signals)), id, landing)
  }

  /** What one pass of the chunk loop does to the world. */
  function AfterTurn(w: World, id: Uuid, turn: Turn): World
    requires Running(w, id)
  {
    var w' := Meanwhile(w, id, turn.before, turn.landing);
    match turn.item
    case None => Close(w', id, StreamBroken, Some(w'.staging[id]), false)
    case Some(chunk) => AfterChunk(w', id, turn, chunk)
  }

  lemma {:induction false} SignalsRun(cfg: Config, w: World, id: Uuid, signals: seq<Signal>)
    requires id in w.sessions
    ensures Run(cfg, w, SignalEvents(id, signals)) == SetSession(w, id, ApplyAll(w.sessions[id], signals))
    decreases |signals|
  {
    if signals == [] {
      assert w.sessions[id := w.sessions[id]] == w.sessions;
    } else {
      var e := At(id, Signalled(signals[0]));
      var w1 := Step(cfg, w, e);
      assert SignalEvents(id, signals)[1..] == SignalEvents(id, signals[1..]);
      assert w1 == SetSession(w, id, w.sessions[id].Apply(signals[0]));
      SignalsRun(cfg, w1, id, signals[1..]);
    }
  }

  lemma RunTwo(cfg: Config, w: World, a: Event, b: Event, rest: seq<Event>)
    ensures Run(cfg, w, [a, b] + rest) == Run(cfg, Step(cfg, Step(cfg, w, a), b), rest)
  {
    hide Step;
    assert ([a, b] + rest)[1..] == [b] + rest;
    assert ([b] + rest)[1..] == rest;
  }

  lemma SignalStep(cfg: Config, w: World, id: Uuid, signal: Signal)
    requires Running(w, id)
    ensures Step(cfg, w, At(id, Signalled(signal))) == SetSession(w, id, w.sessions[id].Apply(signal))
  {
  }

  /** Of several changes of session and stage only the last ones count. */
  lemma LastSetCounts(w: World, id: Uuid, state: SessionState, stage: Stage)
    requires Running(w, id)
    ensures var w' := SetStage(SetSession(w, id, state), id, stage);
            && Running(w', id) && w'.sessions[id] == state && w'.live[id].stage == stage
            && (forall later, last ::
                  SetStage(SetSession(w', id, later), id, last) == SetStage(SetSession(w, id, later), id, last))
  {
  }

  /** However signals arrive during the wait, the handler comes out of it about to write its chunk. */
  lemma {:induction false} WaitRuns(cfg: Config, w: World, id: Uuid, chunk: Bytes, signals: seq<Signal>)
    requires Running(w, id) && (w.live[id].stage == Holding(chunk) || w.live[id].stage == Writing(chunk))
    ensures Run(cfg, w, WaitEvents(id, signals)) ==
            SetStage(SetSession(w, id, ApplyAll(w.sessions[id], signals).Apply(Resume)), id, Writing(chunk))
    decreases |signals|
  {
    hide Step, Run;
    var signal := if signals == [] then Resume else signals[0];
    var state := w.sessions[id].Apply(signal);
    var a, b := At(id, Signalled(signal)), At(id, Proceed);
    var w1 := SetSession(w, id, state);
    var w2 := Step(cfg, w1, b);
    SignalStep(cfg, w, id, signal);
    WaitStep(cfg, w1, id, chunk);
    if signals == [] {
      assert WaitEvents(id, signals) == [a, b] + [];
      RunTwo(cfg, w, a, b, []);
      RunNothing(cfg, w2);
    } else {
      RunTwo(cfg, w, a, b, WaitEvents(id, signals[1..]));
      LastSetCounts(w, id, state, Holding(chunk));
      LastSetCounts(w, id, state, Writing(chunk));
      hide SetStage, SetSession;
      WaitRuns(cfg, w2, id, chunk, signals[1..]);
    }
  }

  lemma WaitStep(cfg: Config, w: World, id: Uuid, chunk: Bytes)
    requires Running(w, id) && (w.live[id].stage == Holding(chunk) || w.live[id].stage == Writing(chunk))
    ensures var w' := Step(cfg, w, At(id, Proceed));
            && (w' == SetStage(w, id, Writing(chunk)) || w' == SetStage(w, id, Holding(chunk)))
            && (!w.sessions[id].paused ==> w' == SetStage(w, id, Writing(chunk)))
  {
    assert w.live[id := w.live[id]] == w.live;
  }

  /** Nothing addressed to a transfer that has neither handler nor session has any effect. */
  predicate Gone(w: World, id: Uuid) {
    id !in w.live && id !in w.sessions
  }

  predicate NoBegin(events: seq<Event>, id: Uuid) {
    forall e :: e in events ==> e.At? && e.id == id && !e.action.Begin?
  }

  lemma {:induction false} GoneStays(cfg: Config, w: World, id: Uuid, events: seq<Event>)
    requires Gone(w, id) && NoBegin(events, id)
    ensures Run(cfg, w, events) == w
    decreases |events|
  {
    if events != [] {
      assert events[0] in events;
      assert forall e :: e in events[1..] ==> e in events;
      GoneStays(cfg, w, id, events[1..]);
    }
  }

  lemma {:induction false} SignalEventsPlain(id: Uuid, signals: seq<Signal>)
    ensures NoBegin(SignalEvents(id, signals), id)
  {
    if signals != [] {
      SignalEventsPlain(id, signals[1..]);
    }
  }

  lemma {:induction false} WaitEventsPlain(id: Uuid, signals: seq<Signal>)
    ensures NoBegin(WaitEvents(id, signals), id)
  {
    if signals != [] {
      WaitEventsPlain(id, signals[1..]);
    }
  }

  lemma NoBeginAppend(a: seq<Event>, b: seq<Event>, id: Uuid)
    requires NoBegin(a, id) && NoBegin(b, id)
    ensures NoBegin(a + b, id)
  {
  }

  lemma TurnEventsPlain(id: Uuid, turn: Turn)
    ensures NoBegin(TurnEvents(id, turn), id)
  {
    SignalEventsPlain(id, turn.before);
    WaitEventsPlain(id, turn.asleep);
  }

  lemma EndingEventsPlain(id: Uuid, ending: Ending)
    ensures NoBegin(EndingEvents(id, ending), id)
  {
    if ending.BodyEnds? {
      SignalEventsPlain(id, ending.before);
    }
  }

  lemma {:induction false} RestEventsPlain(id: Uuid, turns: seq<Turn>, ending: Ending)
    ensures NoBegin(TurnsEvents(id, turns) + EndingEvents(id, ending), id)
  {
    hide TurnEvents, EndingEvents, NoBegin;
    EndingEventsPlain(id, ending);
    if turns == [] {
      assert TurnsEvents(id, turns) + EndingEvents(id, ending) == EndingEvents(id, ending);
    } else {
      var rest := TurnsEvents(id, turns[1..]) + EndingEvents(id, ending);
      TurnEventsPlain(id, turns[0]);
      RestEventsPlain(id, turns[1..], ending);
      NoBeginAppend(TurnEvents(id, turns[0]), rest, id);
      assert TurnsEvents(id, turns) + EndingEvents(id, ending) == TurnEvents(id, turns[0]) + rest;
    }
  }

  /** A stretch of waiting is the run of its events. */
  lemma MeanwhileRuns(cfg: Config, w: World, id: Uuid, signals: seq<Signal>, landing: nat, rest: seq<Event>)
    requires Running(w, id)
    ensures var w' := Meanwhile(w, id, signals, landing);
            && Running(w', id) && w'.live[id].stage == w.live[id].stage
            && Run(cfg, w, SignalEvents(id, signals) + ([At(id, Land(landing))] + rest)) == Run(cfg, w', rest)
  {
    hide Run, SignalEvents, PartAfter;
    var w1 := SetSession(w, id, ApplyAll(w.sessions[id], signals));
    SignalsRun(cfg, w, id, signals);
    RunAppend(cfg, w, SignalEvents(id, signals), [At(id, Land(landing))] + rest);
    RunOne(cfg, w1, At(id, Land(landing)), rest);
  }

  /** A pass of the chunk loop is the run of its events. */
  lemma TurnRuns(cfg: Config, w: World, id: Uuid, turn: Turn)
    requires Running(w, id) && w.live[id].stage.Receiving?
    ensures Run(cfg, w, TurnEvents(id, turn)) == AfterTurn(w, id, turn)
  {
    hide Step, Run, Close, PartAfter, DoWrite, SignalEvents, WaitEvents, Meanwhile;
    var w' := Meanwhile(w, id, turn.before, turn.landing);
    match turn.item {
      case None =>
        MeanwhileRuns(cfg, w, id, turn.before, turn.landing, [At(id, StreamError)]);
        BrokenRuns(cfg, w', id);
      case Some(chunk) =>
        MeanwhileRuns(cfg, w, id, turn.before, turn.landing, ChunkTurnEvents(id, turn, chunk));
        ChunkTurnRuns(cfg, w', id, turn, chunk);
    }
  }

  lemma BrokenRuns(cfg: Config, w: World, id: Uuid)
    requires Running(w, id) && w.live[id].stage.Receiving?
    ensures Run(cfg, w, [At(id, StreamError)]) == Close(w, id, StreamBroken, Some(w.staging[id]), false)
  {
    hide Close;
    assert [At(id, StreamError)][1..] == [];
  }

  lemma ChunkTurnRuns(cfg: Config, w: World, id: Uuid, turn: Turn, chunk: Bytes)
    requires Running(w, id) && w.live[id].stage.Receiving? && turn.item == Some(chunk)
    ensures Run(cfg, w, ChunkTurnEvents(id, turn, chunk)) == AfterChunk(w, id, turn, chunk)
  {
    hide Run, Close, PartAfter, DoWrite, WaitEvents;
    var a, b := At(id, Chunk(chunk, turn.removable)), At(id, Proceed);
    var wait, write := WaitEvents(id, turn.asleep), WriteEvent(id, turn);
    RunTwo(cfg, w, a, b, wait + [write]);
    var w1 := Step(cfg, w, a);
    if w.sessions[id].cancelled {
      CancelledRuns(cfg, w, id, chunk, turn.removable);
      WaitEventsPlain(id, turn.asleep);
      GoneStays(cfg, w1, id, [b] + (wait + [write]));
      RunOne(cfg, w1, b, wait + [write]);
    } else {
      assert w1 == SetStage(w, id, Holding(chunk));
      var w2 := Step(cfg, w1, b);
      WaitStep(cfg, w1, id, chunk);
      WaitRuns(cfg, w2, id, chunk, turn.asleep);
      RunAppend(cfg, w2, wait, [write]);
      var w3 := SetSession(w, id, ApplyAll(w.sessions[id], turn.asleep).Apply(Resume));
      StageOverwrites(w, id, chunk, ApplyAll(w.sessions[id], turn.asleep).Apply(Resume));
      RunOne(cfg, SetStage(w3, id, Writing(chunk)), write, []);
      WriteRuns(cfg, w3, id, chunk, turn.torn);
    }
  }

  /** Only the last stage set counts, and it does not matter when the session changed. */
  lemma StageOverwrites(w: World, id: Uuid, chunk: Bytes, state: SessionState)
    requires Running(w, id)
    ensures var held := SetStage(w, id, Holding(chunk));
            var end := SetStage(SetSession(w, id, state), id, Writing(chunk));
            && SetStage(SetSession(SetStage(held, id, Holding(chunk)), id, state), id, Writing(chunk)) == end
            && SetStage(SetSession(SetStage(held, id, Writing(chunk)), id, state), id, Writing(chunk)) == end
  {
  }

  lemma RunOne(cfg: Config, w: World, e: Event, rest: seq<Event>)
    ensures Run(cfg, w, [e] + rest) == Run(cfg, Step(cfg, w, e), rest)
    ensures Run(cfg, w, [e]) == Step(cfg, w, e)
  {
    hide Step;
    assert ([e] + rest)[1..] == rest;
    assert [e][1..] == [];
  }

  lemma CancelledRuns(cfg: Config, w: World, id: Uuid, chunk: Bytes, removable: bool)
    requires Running(w, id) && w.live[id].stage.Receiving? && w.sessions[id].cancelled
    ensures Step(cfg, w, At(id, Chunk(chunk, removable))) ==
            Close(w, id, TransferCancelled, if removable then None else Some(w.staging[id]), false)
    ensures Gone(Step(cfg, w, At(id, Chunk(chunk, removable))), id)
  {
  }

  lemma WriteRuns(cfg: Config, w: World, id: Uuid, chunk: Bytes, torn: Option<nat>)
    requires Running(w, id) && w.live[id].stage.Receiving?
    ensures var w' := Step(cfg, SetStage(w, id, Writing(chunk)),
                           At(id, match torn case None => Write case Some(n) => WriteError(n)));
            w' == match torn
                  case None => DoWrite(w, id, chunk)
                  case Some(n) => Close(w, id, WriteFailed, Some(PartAfter(w, id, chunk, n)), false)
  {
    hide WriteAt, DoWrite;
    var w1 := SetStage(w, id, Writing(chunk));
    assert w1.live - {id} == w.live - {id};
    WriteFromReceiving(w, id, chunk);
  }

  /** After the digest check: rename, then answer. */
  function AfterVerified(w: World, id: Uuid, renamed: bool): World
    requires Running(w, id)
  {
    var w' := DoRename(w, id, renamed);
    if id !in w'.live then w' else Close(w', id, Complete, Get(w'.staging, id), false)
  }

  /** After the length check: digest, then the rest. */
  function AfterSized(cfg: Config, w: World, id: Uuid, ending: Ending): World
    requires Running(w, id) && ending.BodyEnds?
  {
    var w' := DoVerify(cfg, w, id, ending.readable, ending.removable);
    if id !in w'.live then w' else AfterVerified(w', id, ending.renamed)
  }

  /** What the end of the body does: flush and length, digest, rename, answer; the first failure is the last step. */
  function AfterBody(cfg: Config, w: World, id: Uuid, ending: Ending): World
    requires Running(w, id) && ending.BodyEnds?
  {
    var w' := DoFlush(SetStage(w, id, Ended), id, ending.flushed);
    if id !in w'.live then w' else AfterSized(cfg, w', id, ending)
  }

  function AfterEnding(cfg: Config, w: World, id: Uuid, ending: Ending): World
    requires Running(w, id)
  {
    match ending
    case Disconnected(torn) => DoDrop(w, id, torn)
    case BodyEnds(before, landing, _, _, _, _) => AfterBody(cfg, Meanwhile(w, id, before, landing), id, ending)
  }

  predicate IsTailAction(action: Action) {
    action.Flush? || action.Verify? || action.Rename? || action.Acknowledge?
  }

  lemma {:induction false} TailWithoutHandler(cfg: Config, w: World, id: Uuid, events: seq<Event>)
    requires id !in w.live
    requires forall i :: 0 <= i < |events| ==> events[i].At? && events[i].id == id && IsTailAction(events[i].action)
    ensures Run(cfg, w, events) == w
    decreases |events|
  {
    if events != [] {
      assert events[0].At?;
      TailWithoutHandler(cfg, w, id, events[1..]);
    }
  }

  lemma VerifiedRuns(cfg: Config, w: World, id: Uuid, renamed: bool)
    requires Running(w, id) && w.live[id].stage.Verified?
    ensures Run(cfg, w, [At(id, Rename(renamed)), At(id, Acknowledge)]) == AfterVerified(w, id, renamed)
  {
    hide Run, Close;
    var w' := DoRename(w, id, renamed);
    CloseEndsHandler(w, id);
    RunTwo(cfg, w, At(id, Rename(renamed)), At(id, Acknowledge), []);
    RunNothing(cfg, Step(cfg, w', At(id, Acknowledge)));
    assert [At(id, Rename(renamed)), At(id, Acknowledge)] == [At(id, Rename(renamed)), At(id, Acknowledge)] + [];
  }

  lemma RunNothing(cfg: Config, w: World)
    ensures Run(cfg, w, []) == w
  {
  }

  lemma SizedRuns(cfg: Config, w: World, id: Uuid, ending: Ending)
    requires Running(w, id) && w.live[id].stage.Sized? && ending.BodyEnds?
    ensures Run(cfg, w, [At(id, Verify(ending.readable, ending.removable)), At(id, Rename(ending.renamed)),
                         At(id, Acknowledge)])
         == AfterSized(cfg, w, id, ending)
  {
    hide Run, Close, HexDigest, AfterVerified, DoRename;
    var rest := [At(id, Rename(ending.renamed)), At(id, Acknowledge)];
    var w' := DoVerify(cfg, w, id, ending.readable, ending.removable);
    CloseEndsHandler(w, id);
    StageSet(w, id, Verified);
    RunOne(cfg, w, At(id, Verify(ending.readable, ending.removable)), rest);
    assert [At(id, Verify(ending.readable, ending.removable))] + rest ==
           [At(id, Verify(ending.readable, ending.removable)), At(id, Rename(ending.renamed)), At(id, Acknowledge)];
    if id !in w'.live {
      TailWithoutHandler(cfg, w', id, rest);
    } else {
      VerifiedRuns(cfg, w', id, ending.renamed);
    }
  }

  lemma BodyRuns(cfg: Config, w: World, id: Uuid, ending: Ending)
    requires Running(w, id) && w.live[id].stage.Receiving? && ending.BodyEnds?
    ensures Run(cfg, w, BodyEndEvents(id, ending)) == AfterBody(cfg, w, id, ending)
  {
    hide Run, Close, HexDigest, AfterSized, DoVerify, DoRename, DoLand;
    var rest := [At(id, Verify(ending.readable, ending.removable)), At(id, Rename(ending.renamed)),
                 At(id, Acknowledge)];
    var w' := DoFlush(SetStage(w, id, Ended), id, ending.flushed);
    StageSet(w, id, Ended);
    FlushEnds(SetStage(w, id, Ended), id, ending.flushed);
    RunTwo(cfg, w, At(id, EndOfStream), At(id, Flush(ending.flushed)), rest);
    assert BodyEndEvents(id, ending) == [At(id, EndOfStream), At(id, Flush(ending.flushed))] + rest;
    if id !in w'.live {
      TailWithoutHandler(cfg, w', id, rest);
    } else {
      SizedRuns(cfg, w', id, ending);
    }
  }

  lemma FlushEnds(w: World, id: Uuid, flushed: bool)
    requires Running(w, id)
    ensures var w' := DoFlush(w, id, flushed);
            id in w'.live ==> Running(w', id) && w'.live[id].stage.Sized?
  {
    hide PartAfter;
  }

  lemma StageSet(w: World, id: Uuid, stage: Stage)
    requires Running(w, id)
    ensures Running(SetStage(w, id, stage), id) && SetStage(w, id, stage).live[id].stage == stage
  {
  }

  lemma CloseEndsHandler(w: World, id: Uuid)
    ensures forall reply, part, keep :: id !in Close(w, id, reply, part, keep).live
  {
  }

  /** The end of a POST is the run of its events. */
  lemma EndingRuns(cfg: Config, w: World, id: Uuid, ending: Ending)
    requires Running(w, id) && w.live[id].stage.Receiving?
    ensures Run(cfg, w, EndingEvents(id, ending)) == AfterEnding(cfg, w, id, ending)
  {
    match ending {
      case Disconnected(torn) =>
        RunOne(cfg, w, At(id, Drop(torn)), []);
      case BodyEnds(before, landing, _, _, _, _) =>
        hide Run, AfterBody, BodyEndEvents, SignalEvents, Meanwhile;
        MeanwhileRuns(cfg, w, id, before, landing, BodyEndEvents(id, ending));
        BodyRuns(cfg, Meanwhile(w, id, before, landing), id, ending);
    }
  }
}
