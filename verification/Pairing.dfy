/** The pairing state machine (`pairing/state.rs`), with the clock passed in. */
module Pairing {
  import opened Prelude
  import Tokens

  type Text = Tokens.Text

  datatype PairingState = Pending | AwaitingConfirmation | Paired | Rejected

  datatype PairingError = InvalidPairingToken | DeviceNotFound

  datatype PairingRequest = PairingRequest(
    name: string, token: Text, state: PairingState, createdAt: int, expiresAt: int)
  {
    predicate IsExpired(now: int) {
      now >= expiresAt
    }
  }

  type Requests = map<Uuid, PairingRequest>

  const I64_HALF: int := 0x8000_0000_0000_0000

  /** Signed 64-bit addition, which wraps around. */
  function AddI64(a: int, b: int): int {
    (a + b + I64_HALF) % (2 * I64_HALF) - I64_HALF
  }

  datatype Op =
    | Create(peer: Uuid, name: string, token: Text, ttl: int, now: int)
    | Present(peer: Uuid, token: Text, now: int)
    | Confirm(peer: Uuid, accept: bool)
    | Sweep(now: int)

  function Expiry(op: Op): int
    requires op.Create?
  {
    AddI64(op.now, op.ttl)
  }

  function SetState(m: Requests, peer: Uuid, state: PairingState): Requests
    requires peer in m
  {
    m[peer := m[peer].(state := state)]
  }

  function Swept(r: PairingRequest, now: int): PairingRequest {
    if !r.state.Paired? && r.IsExpired(now) then r.(state := Rejected) else r
  }

  function Apply(m: Requests, op: Op): Requests {
    match op
    case Create(peer, name, token, ttl, now) =>
      m[peer := PairingRequest(name, token, Pending, now, AddI64(now, ttl))]
    case Present(peer, token, now) =>
      if peer !in m then m
      else if m[peer].IsExpired(now) then SetState(m, peer, Rejected)
      else if m[peer].token != token then m
      else SetState(m, peer, AwaitingConfirmation)
    case Confirm(peer, accept) =>
      if peer !in m then m else SetState(m, peer, if accept then Paired else Rejected)
    case Sweep(now) => map peer | peer in m :: Swept(m[peer], now)
  }

  /** What the operation answers. */
  datatype Answer =
    | Created(request: PairingRequest)
    | Presented(r: Result<(), PairingError>)
    | Confirmed(s: Result<PairingState, PairingError>)
    | SweptAll

  function AnswerOf(m: Requests, op: Op): Answer {
    match op
    case Create(peer, name, token, ttl, now) =>
      Created(PairingRequest(name, token, Pending, now, AddI64(now, ttl)))
    case Present(peer, token, now) =>
      Presented(if peer in m && !m[peer].IsExpired(now) && m[peer].token == token then Ok(())
                else Err(InvalidPairingToken))
    case Confirm(peer, accept) =>
      Confirmed(if peer in m then Ok(if accept then Paired else Rejected) else Err(DeviceNotFound))
    case Sweep(_) => SweptAll
  }

  class PairingStateMachine {
    var requests: Requests
    ghost var history: seq<Op>

    ghost predicate Valid()
      reads this
    {
      requests == Run(history)
    }

    constructor ()
      ensures requests == map[] && history == [] && Valid()
    {
      requests, history := map[], [];
    }

    /** An operation goes on record. */
    ghost method Record(op: Op)
      requires Valid()
      modifies this`history
      ensures history == old(history) + [op] && Run(history) == Apply(requests, op)
    {
      history := history + [op];
      assert history[..|history| - 1] == old(history);
    }

    method CreateRequest(peer: Uuid, name: string, token: Text, ttl: int, now: int) returns (request: PairingRequest)
      requires Valid()
      modifies this
      ensures Valid() && history == old(history) + [Create(peer, name, token, ttl, now)]
      ensures requests == Apply(old(requests), Create(peer, name, token, ttl, now))
      ensures Created(request) == AnswerOf(old(requests), Create(peer, name, token, ttl, now))
      ensures peer in requests && requests[peer] == request
      ensures request == PairingRequest(name, token, Pending, now, request.expiresAt)
      ensures -0x8000_0000_0000_0000 <= now + ttl < 0x8000_0000_0000_0000 ==> request.expiresAt == now + ttl
    {
      Record(Create(peer, name, token, ttl, now));
      request := PairingRequest(name, token, Pending, now, AddI64(now, ttl));
      requests := requests[peer := request];
    }

    method PresentToken(peer: Uuid, presented: Text, now: int) returns (r: Result<(), PairingError>)
      requires Valid()
      modifies this
      ensures Valid() && history == old(history) + [Present(peer, presented, now)]
      ensures requests == Apply(old(requests), Present(peer, presented, now))
      ensures Presented(r) == AnswerOf(old(requests), Present(peer, presented, now))
      ensures r == if PresentedInTime(history, |history| - 1, peer) then Ok(()) else Err(InvalidPairingToken)
    {
      PresentAnswers(history, peer, presented, now);
      Record(Present(peer, presented, now));
      if peer !in requests {
        return Err(InvalidPairingToken);
      }
      var request := requests[peer];
      if request.IsExpired(now) {
        requests := requests[peer := request.(state := Rejected)];
        return Err(InvalidPairingToken);
      }
      var matching := Tokens.TokensMatch(request.token, presented);
      if !matching {
        return Err(InvalidPairingToken);
      }
      requests := requests[peer := request.(state := AwaitingConfirmation)];
      return Ok(());
    }

    method ConfirmPairing(peer: Uuid, accept: bool) returns (r: Result<PairingState, PairingError>)
      requires Valid()
      modifies this
      ensures Valid() && history == old(history) + [Confirm(peer, accept)]
      ensures requests == Apply(old(requests), Confirm(peer, accept))
      ensures Confirmed(r) == AnswerOf(old(requests), Confirm(peer, accept))
      ensures LatestCreate(old(history), peer).None? ==> r == Err(DeviceNotFound)
      ensures LatestCreate(old(history), peer).Some? ==>
                r == Ok(if accept then Paired else Rejected) && peer in requests && requests[peer].state == r.value
    {
      ConfirmAnswers(history, peer, accept);
      Record(Confirm(peer, accept));
      if peer !in requests {
        return Err(DeviceNotFound);
      }
      var state := if accept then Paired else Rejected;
      requests := requests[peer := requests[peer].(state := state)];
      return Ok(state);
    }

    /** Answers from the record what the whole history says. */
    method IsPairedNow(peer: Uuid) returns (paired: bool)
      requires Valid()
      ensures paired <==> PairedByHistory(history, peer)
    {
      PairedIff(history, peer);
      paired := peer in requests && requests[peer].state == Paired;
    }

    /** Visits every record once, in whatever order the map yields them. */
    method SweepExpired(now: int)
      requires Valid()
      modifies this
      ensures Valid() && history == old(history) + [Sweep(now)]
      ensures requests == Apply(old(requests), Sweep(now))
    {
      Record(Sweep(now));
      var todo := requests.Keys;
      while todo != {}
        invariant history == old(history) + [Sweep(now)] && Run(history) == Apply(old(requests), Sweep(now))
        invariant todo <= requests.Keys == old(requests).Keys
        invariant forall peer :: peer in todo ==> requests[peer] == old(requests)[peer]
        invariant forall peer :: peer in requests && peer !in todo ==> requests[peer] == Swept(old(requests)[peer], now)
        decreases todo
      {
        var peer :| peer in todo;
        if requests[peer].state != Paired && requests[peer].IsExpired(now) {
          requests := requests[peer := requests[peer].(state := Rejected)];
        }
        todo := todo - {peer};
      }
    }
  }

  predicate IsPaired(m: Requests, peer: Uuid) {
    peer in m && m[peer].state.Paired?
  }

  /** The records after a run, oldest operation first. */
  function Run(ops: seq<Op>): Requests {
    if ops == [] then map[] else Apply(Run(ops[..|ops| - 1]), ops[|ops| - 1])
  }

  /** The latest request made for `peer`: its token and expiry come from nowhere else. */
  function LatestCreate(ops: seq<Op>, peer: Uuid): Option<Op>
    ensures LatestCreate(ops, peer).Some? ==> LatestCreate(ops, peer).value.Create?
  {
    if ops == [] then None
    else
      var op := ops[|ops| - 1];
      if op.Create? && op.peer == peer then Some(op) else LatestCreate(ops[..|ops| - 1], peer)
  }

  /** There is a record iff one was asked for; all of it but the state is what the latest request put there. */
  lemma {:induction false} RecordsComeFromCreates(ops: seq<Op>, peer: Uuid)
    ensures peer in Run(ops) <==> LatestCreate(ops, peer).Some?
    ensures peer in Run(ops) ==>
              var c := LatestCreate(ops, peer).value;
              var record := Run(ops)[peer];
              && record.name == c.name && record.token == c.token
              && record.createdAt == c.now && record.expiresAt == Expiry(c)
  {
    if ops != [] {
      RecordsComeFromCreates(ops[..|ops| - 1], peer);
    }
  }

  /** At `k` a token was presented for `peer` that was past expiry or equal to the one asked for. */
  predicate PresentedConclusively(ops: seq<Op>, k: nat, peer: Uuid)
    requires k < |ops|
  {
    && ops[k].Present? && ops[k].peer == peer && LatestCreate(ops[..k], peer).Some?
    && (var c := LatestCreate(ops[..k], peer).value;
        ops[k].now >= Expiry(c) || ops[k].token == c.token)
  }

  /** Operation `k` ends a pairing with `peer`. */
  predicate Unpairs(ops: seq<Op>, k: nat, peer: Uuid)
    requires k < |ops|
  {
    || (ops[k].Create? && ops[k].peer == peer)
    || ops[k] == Confirm(peer, false)
    || PresentedConclusively(ops, k, peer)
  }

  /** A pairing told from the history alone. */
  ghost predicate PairedByHistory(ops: seq<Op>, peer: Uuid) {
    exists k :: 0 <= k < |ops| && ops[k] == Confirm(peer, true) && LatestCreate(ops[..k], peer).Some?
             && forall j :: k < j < |ops| ==> !Unpairs(ops, j, peer)
  }

  lemma PrefixUnpairs(ops: seq<Op>, k: nat, peer: Uuid)
    requires 0 < |ops| && k < |ops| - 1
    ensures Unpairs(ops[..|ops| - 1], k, peer) <==> Unpairs(ops, k, peer)
  {
    assert ops[..|ops| - 1][..k] == ops[..k];
  }

  lemma HistoryStep(ops: seq<Op>, peer: Uuid)
    requires ops != []
    ensures var init, n := ops[..|ops| - 1], |ops| - 1;
            PairedByHistory(ops, peer) <==>
            || (ops[n] == Confirm(peer, true) && LatestCreate(init, peer).Some?)
            || (PairedByHistory(init, peer) && !Unpairs(ops, n, peer))
  {
    hide Unpairs, LatestCreate;
    var init, n := ops[..|ops| - 1], |ops| - 1;
    forall k | 0 <= k < n ensures init[..k] == ops[..k] && (Unpairs(init, k, peer) <==> Unpairs(ops, k, peer)) {
      PrefixUnpairs(ops, k, peer);
    }
    if PairedByHistory(init, peer) && !Unpairs(ops, n, peer) {
      var k :| 0 <= k < |init| && init[k] == Confirm(peer, true) && LatestCreate(init[..k], peer).Some?
            && forall j :: k < j < |init| ==> !Unpairs(init, j, peer);
      assert ops[k] == Confirm(peer, true);
    }
    if PairedByHistory(ops, peer) {
      var k :| 0 <= k < |ops| && ops[k] == Confirm(peer, true) && LatestCreate(ops[..k], peer).Some?
            && forall j :: k < j < |ops| ==> !Unpairs(ops, j, peer);
      if k < n {
        assert init[k] == Confirm(peer, true);
      }
    }
  }

  /**
   * For every run, timed in any way: two devices are paired iff an existing request was accepted and since then
   * there was no new request, no rejection, and no token presented that was expired or matched. Sweeps, and
   * anything done for other peers, play no part.
   */
  lemma {:induction false} PairedIff(ops: seq<Op>, peer: Uuid)
    ensures IsPaired(Run(ops), peer) <==> PairedByHistory(ops, peer)
  {
    if ops != [] {
      var init := ops[..|ops| - 1];
      PairedIff(init, peer);
      RecordsComeFromCreates(init, peer);
      HistoryStep(ops, peer);
      hide PairedByHistory, LatestCreate;
    }
  }

  /** At `k` the exact token of the latest request was presented, strictly before its expiry. */
  predicate PresentedInTime(ops: seq<Op>, k: nat, peer: Uuid)
    requires k < |ops|
  {
    && ops[k].Present? && ops[k].peer == peer && LatestCreate(ops[..k], peer).Some?
    && (var c := LatestCreate(ops[..k], peer).value; ops[k].now < Expiry(c) && ops[k].token == c.token)
  }

  /** Operation `k` takes `peer` out of waiting for the user. */
  predicate EndsWaiting(ops: seq<Op>, k: nat, peer: Uuid)
    requires k < |ops|
  {
    || (ops[k].Create? && ops[k].peer == peer)
    || (ops[k].Confirm? && ops[k].peer == peer)
    || ((ops[k].Sweep? || (ops[k].Present? && ops[k].peer == peer))
        && LatestCreate(ops[..k], peer).Some? && ops[k].now >= Expiry(LatestCreate(ops[..k], peer).value))
  }

  ghost predicate AwaitingByHistory(ops: seq<Op>, peer: Uuid) {
    exists k :: 0 <= k < |ops| && PresentedInTime(ops, k, peer)
             && forall j :: k < j < |ops| ==> !EndsWaiting(ops, j, peer)
  }

  lemma PrefixAwaits(ops: seq<Op>, k: nat, peer: Uuid)
    requires 0 < |ops| && k < |ops| - 1
    ensures PresentedInTime(ops[..|ops| - 1], k, peer) <==> PresentedInTime(ops, k, peer)
    ensures EndsWaiting(ops[..|ops| - 1], k, peer) <==> EndsWaiting(ops, k, peer)
  {
    assert ops[..|ops| - 1][..k] == ops[..k];
  }

  lemma AwaitingStep(ops: seq<Op>, peer: Uuid)
    requires ops != []
    ensures var init, n := ops[..|ops| - 1], |ops| - 1;
            AwaitingByHistory(ops, peer) <==>
            PresentedInTime(ops, n, peer) || (AwaitingByHistory(init, peer) && !EndsWaiting(ops, n, peer))
  {
    hide PresentedInTime, EndsWaiting;
    var init, n := ops[..|ops| - 1], |ops| - 1;
    forall k | 0 <= k < n
      ensures PresentedInTime(init, k, peer) <==> PresentedInTime(ops, k, peer)
      ensures EndsWaiting(init, k, peer) <==> EndsWaiting(ops, k, peer)
    {
      PrefixAwaits(ops, k, peer);
    }
    if AwaitingByHistory(init, peer) && !EndsWaiting(ops, n, peer) {
      var k :| 0 <= k < |init| && PresentedInTime(init, k, peer)
            && forall j :: k < j < |init| ==> !EndsWaiting(init, j, peer);
      assert PresentedInTime(ops, k, peer);
    }
    if AwaitingByHistory(ops, peer) {
      var k :| 0 <= k < |ops| && PresentedInTime(ops, k, peer)
            && forall j :: k < j < |ops| ==> !EndsWaiting(ops, j, peer);
      if k < n {
        assert PresentedInTime(init, k, peer);
      }
    }
  }

  /**
   * A record waits for the user iff its exact token was presented before its expiry and after the peer's latest
   * request, and nothing has ended the wait since.
   */
  lemma {:induction false} AwaitingIff(ops: seq<Op>, peer: Uuid)
    ensures (peer in Run(ops) && Run(ops)[peer].state.AwaitingConfirmation?) <==> AwaitingByHistory(ops, peer)
  {
    if ops != [] {
      var init := ops[..|ops| - 1];
      AwaitingIff(init, peer);
      RecordsComeFromCreates(init, peer);
      AwaitingStep(ops, peer);
      hide AwaitingByHistory, LatestCreate;
    }
  }

  /** Operation `k` turns `peer` away: a refusal, or a token or a sweep past the expiry of an unpaired request. */
  ghost predicate TurnsAway(ops: seq<Op>, k: nat, peer: Uuid)
    requires k < |ops|
  {
    var latest := LatestCreate(ops[..k], peer);
    latest.Some? &&
    match ops[k]
    case Create(_, _, _, _, _) => false
    case Confirm(p, accept) => p == peer && !accept
    case Present(p, _, now) => p == peer && now >= Expiry(latest.value)
    case Sweep(now) => now >= Expiry(latest.value) && !PairedByHistory(ops[..k], peer)
  }

  /** Operation `k` gives `peer` another chance: a new request, an acceptance, or its token in time. */
  predicate LetsBack(ops: seq<Op>, k: nat, peer: Uuid)
    requires k < |ops|
  {
    (ops[k].Create? && ops[k].peer == peer) || ops[k] == Confirm(peer, true) || PresentedInTime(ops, k, peer)
  }

  ghost predicate RejectedByHistory(ops: seq<Op>, peer: Uuid) {
    exists k :: 0 <= k < |ops| && TurnsAway(ops, k, peer)
             && forall j :: k < j < |ops| ==> !LetsBack(ops, j, peer)
  }

  lemma PrefixTurnsAway(ops: seq<Op>, k: nat, peer: Uuid)
    requires 0 < |ops| && k < |ops| - 1
    ensures TurnsAway(ops[..|ops| - 1], k, peer) <==> TurnsAway(ops, k, peer)
    ensures LetsBack(ops[..|ops| - 1], k, peer) <==> LetsBack(ops, k, peer)
  {
    hide PairedByHistory, LatestCreate;
    assert ops[..|ops| - 1][..k] == ops[..k];
  }

  lemma RejectedStep(ops: seq<Op>, peer: Uuid)
    requires ops != []
    ensures var init, n := ops[..|ops| - 1], |ops| - 1;
            RejectedByHistory(ops, peer) <==>
            TurnsAway(ops, n, peer) || (RejectedByHistory(init, peer) && !LetsBack(ops, n, peer))
  {
    hide TurnsAway, LetsBack;
    var init, n := ops[..|ops| - 1], |ops| - 1;
    forall k | 0 <= k < n
      ensures TurnsAway(init, k, peer) <==> TurnsAway(ops, k, peer)
      ensures LetsBack(init, k, peer) <==> LetsBack(ops, k, peer)
    {
      PrefixTurnsAway(ops, k, peer);
    }
    if RejectedByHistory(init, peer) && !LetsBack(ops, n, peer) {
      var k :| 0 <= k < |init| && TurnsAway(init, k, peer)
            && forall j :: k < j < |init| ==> !LetsBack(init, j, peer);
      assert TurnsAway(ops, k, peer);
    }
    if RejectedByHistory(ops, peer) {
      var k :| 0 <= k < |ops| && TurnsAway(ops, k, peer)
            && forall j :: k < j < |ops| ==> !LetsBack(ops, j, peer);
      if k < n {
        assert TurnsAway(init, k, peer);
      }
    }
  }

  /**
   * A record is rejected iff its peer was turned away since anything last let it back. What exists and is neither
   * paired, waiting nor rejected is pending.
   */
  lemma {:induction false} RejectedIff(ops: seq<Op>, peer: Uuid)
    ensures (peer in Run(ops) && Run(ops)[peer].state.Rejected?) <==> RejectedByHistory(ops, peer)
    decreases |ops|
  {
    if ops != [] {
      var init := ops[..|ops| - 1];
      RejectedIff(init, peer);
      PairedIff(init, peer);
      RecordsComeFromCreates(init, peer);
      RejectedStep(ops, peer);
      hide RejectedByHistory, PairedByHistory, LatestCreate;
    }
  }

  lemma RunMore(ops: seq<Op>, op: Op)
    ensures Run(ops + [op]) == Apply(Run(ops), op) && (ops + [op])[..|ops|] == ops
  {
    assert (ops + [op])[..|ops|] == ops;
  }

  /** A token is accepted iff it is the one of the latest request, presented before its expiry. */
  lemma PresentAnswers(ops: seq<Op>, peer: Uuid, token: Text, now: int)
    ensures var op := Present(peer, token, now);
            AnswerOf(Run(ops), op) ==
            Presented(if PresentedInTime(ops + [op], |ops|, peer) then Ok(()) else Err(InvalidPairingToken))
  {
    RunMore(ops, Present(peer, token, now));
    RecordsComeFromCreates(ops, peer);
    hide Run, LatestCreate;
  }

  /** A confirmation succeeds iff there is a request, and then names the state the record has from now on. */
  lemma ConfirmAnswers(ops: seq<Op>, peer: Uuid, accept: bool)
    ensures var op := Confirm(peer, accept);
            var after := Run(ops + [op]);
            if LatestCreate(ops, peer).Some? then
              && peer in after && AnswerOf(Run(ops), op) == Confirmed(Ok(after[peer].state))
              && after[peer].state == if accept then Paired else Rejected
            else after == Run(ops) && AnswerOf(Run(ops), op) == Confirmed(Err(DeviceNotFound))
  {
    RunMore(ops, Confirm(peer, accept));
    RecordsComeFromCreates(ops, peer);
    hide Run, LatestCreate;
  }

  /** The request returned is the record filed, and what was asked for. */
  lemma CreateAnswers(ops: seq<Op>, peer: Uuid, name: string, token: Text, ttl: int, now: int)
    ensures var op := Create(peer, name, token, ttl, now);
            var after := Run(ops + [op]);
            && peer in after && AnswerOf(Run(ops), op) == Created(after[peer])
            && after[peer].name == name && after[peer].token == token && after[peer].state == Pending
            && after[peer].createdAt == now && after[peer].expiresAt == Expiry(op)
  {
    RunMore(ops, Create(peer, name, token, ttl, now));
  }

  /** A request expires `ttl` after it was made, as far as a signed 64-bit clock can tell. */
  lemma ExpiryExact(op: Op)
    requires op.Create?
    ensures -0x8000_0000_0000_0000 <= Expiry(op) < 0x8000_0000_0000_0000
    ensures (Expiry(op) - (op.now + op.ttl)) % 0x1_0000_0000_0000_0000 == 0
    ensures -0x8000_0000_0000_0000 <= op.now + op.ttl < 0x8000_0000_0000_0000 ==> Expiry(op) == op.now + op.ttl
  {
  }

  /** The time stamped on an operation, if it has one. */
  function TimeOf(op: Op): Option<int> {
    match op
    case Create(_, _, _, _, now) => Some(now)
    case Present(_, _, now) => Some(now)
    case Confirm(_, _) => None
    case Sweep(now) => Some(now)
  }

  /** The clock never goes back: every stamp is at least `since` and every earlier stamp. */
  predicate Monotone(ops: seq<Op>, since: int) {
    ops != [] ==>
      match TimeOf(ops[0])
      case None => Monotone(ops[1..], since)
      case Some(now) => now >= since && Monotone(ops[1..], now)
  }

  function WithoutSweeps(ops: seq<Op>): seq<Op> {
    if ops == [] then [] else (if ops[0].Sweep? then [] else [ops[0]]) + WithoutSweeps(ops[1..])
  }

  /** What callers see of a run from `m`: each answer and the record it leaves behind; sweeps answer nobody. */
  function Trace(m: Requests, ops: seq<Op>): seq<(Answer, Option<PairingRequest>)>
    decreases |ops|
  {
    if ops == [] then []
    else
      var m' := Apply(m, ops[0]);
      (if ops[0].Sweep? then [] else [(AnswerOf(m, ops[0]), RecordAfter(m', ops[0]))]) + Trace(m', ops[1..])
  }

  /** The record of the peer the operation was about. */
  function RecordAfter(m: Requests, op: Op): Option<PairingRequest> {
    if !op.Sweep? && op.peer in m then Some(m[op.peer]) else None
  }

  /** `m` was swept at times up to `now`, `w` was not. */
  ghost predicate SweptVersion(m: Requests, w: Requests, now: int) {
    && m.Keys == w.Keys
    && forall peer :: peer in m ==>
         || m[peer] == w[peer]
         || (!w[peer].state.Paired? && w[peer].IsExpired(now) && m[peer] == w[peer].(state := Rejected))
  }

  lemma SweepUnseen(m: Requests, w: Requests, since: int, now: int)
    requires SweptVersion(m, w, since) && now >= since
    ensures SweptVersion(Apply(m, Sweep(now)), w, now)
  {
  }

  lemma OpSeenAlike(m: Requests, w: Requests, since: int, op: Op)
    requires SweptVersion(m, w, since) && !op.Sweep?
    requires TimeOf(op).Some? ==> TimeOf(op).value >= since
    ensures var now := if TimeOf(op).Some? then TimeOf(op).value else since;
            SweptVersion(Apply(m, op), Apply(w, op), now)
    ensures AnswerOf(m, op) == AnswerOf(w, op)
    ensures RecordAfter(Apply(m, op), op) == RecordAfter(Apply(w, op), op)
  {
  }

  /**
   * With a clock that never goes back, sweeping eagerly cannot be told from expiring lazily: taking every sweep
   * out of a run changes no answer, no record that an operation leaves for its peer, and no pairing.
   */
  lemma {:induction false} SweepsAreUnobservable(m: Requests, w: Requests, ops: seq<Op>, since: int)
    requires SweptVersion(m, w, since) && Monotone(ops, since)
    ensures Trace(m, ops) == Trace(w, WithoutSweeps(ops))
    ensures forall peer :: IsPaired(RunFrom(m, ops), peer) <==> IsPaired(RunFrom(w, WithoutSweeps(ops)), peer)
    decreases |ops|
  {
    if ops != [] {
      var op := ops[0];
      var now := if TimeOf(op).Some? then TimeOf(op).value else since;
      var rest := WithoutSweeps(ops[1..]);
      if op.Sweep? {
        SweepUnseen(m, w, since, now);
        SweepsAreUnobservable(Apply(m, op), w, ops[1..], now);
        assert WithoutSweeps(ops) == rest;
      } else {
        OpSeenAlike(m, w, since, op);
        SweepsAreUnobservable(Apply(m, op), Apply(w, op), ops[1..], now);
        assert WithoutSweeps(ops) == [op] + rest && ([op] + rest)[1..] == rest;
      }
    }
  }

  function RunFrom(m: Requests, ops: seq<Op>): Requests
    decreases |ops|
  {
    if ops == [] then m else RunFrom(Apply(m, ops[0]), ops[1..])
  }

  /** A later sweep absorbs an earlier one. */
  lemma SweepAbsorbs(m: Requests, earlier: int, later: int)
    requires earlier <= later
    ensures Apply(Apply(m, Sweep(earlier)), Sweep(later)) == Apply(m, Sweep(later))
  {
  }
}
