/** The simulated smart lock (internal/smartlockserver/server.go). */
module SmartLockServer {

  const DEMO_DEVICE := "demo-front-door"

  datatype LockState = LockState(unlocked: bool, unlockCount: nat)

  const LOCKED := LockState(false, 0)

  datatype Answer = Unlocked | NotLocked | WrongDevice

  function Unlocking(s: LockState, device: string): (LockState, Answer) {
    if device != DEMO_DEVICE then (s, WrongDevice)
    else if s.unlocked then (s, NotLocked)
    else (LockState(true, s.unlockCount + 1), Unlocked)
  }

  /** The counter shows the state. */
  predicate Valid(s: LockState) {
    s.unlockCount == if s.unlocked then 1 else 0
  }

  lemma UnlockingKeepsValid(s: LockState, device: string)
    requires Valid(s)
    ensures Valid(Unlocking(s, device).0)
  {
  }

  // ----- Runs of requests and resets -----

  datatype Op = Unlock(device: string) | Reset

  function After(s: LockState, op: Op): LockState {
    match op
    case Unlock(device) => Unlocking(s, device).0
    case Reset => LOCKED
  }

  function Successes(s: LockState, ops: seq<Op>): nat
    decreases |ops|
  {
    if ops == [] then 0
    else
      (if ops[0].Unlock? && Unlocking(s, ops[0].device).1 == Unlocked then 1 else 0)
      + Successes(After(s, ops[0]), ops[1..])
  }

  function Resets(ops: seq<Op>): nat {
    if ops == [] then 0 else (if ops[0].Reset? then 1 else 0) + Resets(ops[1..])
  }

  /** In every run the lock opens at most once between resets. */
  lemma {:induction false} OneSuccessPerReset(s: LockState, ops: seq<Op>)
    ensures Successes(s, ops) + (if s.unlocked then 1 else 0) <= Resets(ops) + 1
    decreases |ops|
  {
    if ops != [] { OneSuccessPerReset(After(s, ops[0]), ops[1..]); }
  }

  class SmartLock {
    var unlocked: bool
    var unlockCount: nat

    ghost function State(): LockState
      reads this
    {
      LockState(unlocked, unlockCount)
    }

    constructor ()
      ensures State() == LOCKED && Valid(State())
    {
      unlocked, unlockCount := false, 0;
    }

    method PostUnlock(device: string) returns (answer: Answer)
      requires Valid(State())
      modifies this
      ensures (State(), answer) == Unlocking(old(State()), device)
      ensures Valid(State())
      ensures answer == Unlocked <==> device == DEMO_DEVICE && !old(unlocked)
      ensures unlocked <==> old(unlocked) || answer == Unlocked
    {
      if device != DEMO_DEVICE { return WrongDevice; }
      if unlocked { return NotLocked; }
      unlocked := true;
      unlockCount := unlockCount + 1;
      answer := Unlocked;
    }

    method PostReset()
      modifies this
      ensures State() == LOCKED && Valid(State())
    {
      unlocked := false;
      unlockCount := 0;
    }
  }
}
