/** One transfer's shared runtime state (`transfer/session.rs`). */
module Session {
  import opened Prelude

  datatype Direction = Send | Receive

  /** Signals that other parties may send to a transfer at any time. */
  datatype Signal = Pause | Resume | Cancel

  /** The observable value of a session. */
  datatype SessionState = SessionState(bytes: U64Int, total: U64Int, paused: bool, cancelled: bool) {

    function AddBytes(n: nat): SessionState {
      this.(bytes := AddU64(bytes, n))
    }

    function Apply(signal: Signal): SessionState {
      match signal
      case Pause => this.(paused := true)
      case Resume => this.(paused := false)
      case Cancel => this.(cancelled := true)
    }
  }

  function ApplyAll(state: SessionState, signals: seq<Signal>): (r: SessionState)
    ensures r.bytes == state.bytes && r.total == state.total
    ensures state.cancelled ==> r.cancelled
    decreases |signals|
  {
    if signals == [] then state else ApplyAll(state.Apply(signals[0]), signals[1..])
  }

  lemma AddBytesTwice(state: SessionState, m: nat, n: nat)
    ensures state.AddBytes(m).AddBytes(n) == state.AddBytes(m + n)
  {
    AddU64Twice(state.bytes, m, n);
  }

  class TransferSession {
    const id: Uuid
    const total: U64Int
    const direction: Direction
    var bytes: U64Int
    var paused: bool
    var cancelled: bool

    ghost function State(): SessionState
      reads this
    {
      SessionState(bytes, total, paused, cancelled)
    }

    constructor (id: Uuid, total: U64Int, direction: Direction, initial: U64Int)
      ensures this.id == id && this.direction == direction
      ensures State() == SessionState(initial, total, false, false)
    {
      this.id, this.total, this.direction := id, total, direction;
      bytes, paused, cancelled := initial, false, false;
    }

    method AddBytes(n: nat)
      modifies this
      ensures State() == old(State()).AddBytes(n)
      ensures bytes == (old(bytes) + n) % U64 && paused == old(paused) && cancelled == old(cancelled)
    {
      bytes := AddU64(bytes, n);
    }

    method Deliver(signal: Signal)
      modifies this
      ensures State() == old(State()).Apply(signal)
      ensures bytes == old(bytes)
      ensures paused <==> signal == Pause || (old(paused) && signal != Resume)
      ensures cancelled <==> signal == Cancel || old(cancelled)
    {
      match signal {
        case Pause => paused := true;
        case Resume => paused := false;
        case Cancel => cancelled := true;
      }
    }
  }
}
