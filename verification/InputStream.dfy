/**
 The input stream of the Bluetooth audio HAL (system/audio_bluetooth_hw/stream_apis.cc): the
 polling loop that waits for a state to be left, and the read that depends on it. Other threads
 may do anything to the port whenever the loop releases the stream lock.
 */
module InputStream {
  import opened Options
  import opened AudioPort
  import opened ErrorCodes
  import opened MachineInt

  const DEFAULT_STATE_TIMEOUT_MS: int := 20

  /** The number of millisecond sleeps after which the loop gives up; a zero timeout wraps. */
  function Rounds(timeoutMs: int): int {
    if timeoutMs == 0 then TWO_16 else timeoutMs
  }

  /** `in_state_transition_timeout`. `seen(k)` is the port as the loop finds it after `k` sleeps. */
  method StateTransitionTimeout(seen: nat -> Port, state: StreamState, timeoutMs: int)
    returns (left: bool, rounds: nat)
    requires 0 <= timeoutMs < TWO_16
    ensures rounds <= Rounds(timeoutMs)
    ensures left <==> exists k: nat :: k < Rounds(timeoutMs) && seen(k).state != state
    ensures left ==> rounds < Rounds(timeoutMs) && seen(rounds).state != state
    ensures forall k: nat :: k < rounds ==> seen(k).state == state
    ensures !left ==> rounds == Rounds(timeoutMs)
  {
    var timeout := timeoutMs;
    rounds := 0;
    while seen(rounds).state == state
      invariant 0 <= rounds < Rounds(timeoutMs)
      invariant timeout == (timeoutMs - rounds) % TWO_16
      invariant forall k: nat :: k < rounds ==> seen(k).state == state
      decreases Rounds(timeoutMs) - rounds
    {
      rounds := rounds + 1;
      timeout := (timeout - 1) % TWO_16;
      if timeout <= 0 {
        return false, rounds;
      }
    }
    return true, rounds;
  }

  /** The callbacks grant the start that a read asks of a port in standby. */
  predicate StartGranted(p: Port, accepted: bool, callbacks: seq<Event>) {
    InUse(p) && accepted && GrantsStart(AddressedOnly(p.cookie.value, callbacks))
  }

  /** The port stays in `STARTING` for the whole waiting time of a read. */
  ghost predicate StuckStarting(seen: nat -> Port) {
    forall k: nat :: k < 20 ==> seen(k).state.Starting?
  }

  /** `in_read` up to the data path: no error means that the data path is reached with port `p`.
      The read waits at most twenty milliseconds for a start in progress, never sleeps longer than
      it has to, and then reaches the data path exactly if it finds the port started or makes it so. */
  method ReadPrologue(seen: nat -> Port, accepted: bool, callbacks: seq<Event>)
    returns (error: Option<int>, rounds: nat, p: Port)
    requires forall k: nat :: !seen(k).state.Unknown?
    requires AllCallbacks(callbacks)
    ensures rounds <= 20
    ensures forall k: nat :: k < rounds ==> seen(k).state.Starting?
    ensures StuckStarting(seen) ==> error == Some(-16) && rounds == 20
    ensures !StuckStarting(seen) ==>
              error == match seen(rounds).state
                       case Started => None
                       case Standby => if StartGranted(seen(rounds), accepted, callbacks) then None else Some(-5)
                       case Suspending => Some(-16)
                       case Disabled => Some(-22)
                       case _ => Some(0)
    ensures !StuckStarting(seen) ==> !seen(rounds).state.Starting?
    ensures error.None? ==> p.state.Started?
  {
    var left;
    left, rounds := StateTransitionTimeout(seen, Starting, DEFAULT_STATE_TIMEOUT_MS);
    p := seen(rounds);
    if !left {
      return Some(-EBUSY), rounds, p;
    }
    error := None;
    if p.state != Started {
      if p.state == Standby {
        var (p1, r1) := Step(p, StartCall(accepted));
        var ok := false;
        if r1.Returned? {
          p := p1;
          ok := r1.ok;
        } else {
          StartOutcome(p, callbacks);
          CallbacksKeep(p1, callbacks);
          var (p2, r2) := Step(After(p1, callbacks), WakeUpFrom);
          p := p2;
          ok := r2.Returned? && r2.ok;
        }
        error := if ok then None else Some(-EIO);
      } else if p.state == Suspending {
        error := Some(-EBUSY);
      } else if p.state == Disabled {
        error := Some(-EINVAL);
      }
    }
  }
}
