/**
 The ownership machine as a value: one step function over every entry point of
 the guard.  The mutable guard (module OwnershipGuards) is proved against it,
 and the run-level results (Reservations, Attempts, UnlockProtocol) are stated
 over sequences of its steps.  Clock readings are nanoseconds.
 */
module OwnershipSpec {
  import opened Wrappers

  const UNLOCK_MAX_ATTEMPTS := 5
  const UNLOCK_WINDOW := 60_000_000_000

  datatype Mode = Legacy | Level1 | Password | AutoUnlock {
    predicate RequiresManualUnlock() { !Legacy? }
    predicate UsesOwnerSeed() { Password? || AutoUnlock? }
  }

  datatype State = Unclaimed | Locked | Unlocking | Unlocked | Error

  datatype OwnershipError =
    | RateLimited
    | NotLocked
    | PasswordRequired
    | WrongPassword
    | InstanceIdMissing
    | Timeout
    | UnlockAmbiguous(detail: string)
    | Filesystem(detail: string)
    | Kdf(detail: string)
    | Envelope(detail: string)
    | OwnerSeedUnavailable(detail: string)
    | Store(detail: string)
  {
    /** Environmental failures may be probed again; every other error is final. */
    predicate IsReprobeable() { OwnerSeedUnavailable? }

    function Text(): string {
      match this
      case RateLimited => "rate_limited"
      case NotLocked => "not_locked"
      case PasswordRequired => "password_required"
      case WrongPassword => "wrong_password"
      case InstanceIdMissing => "instance_id_missing"
      case Timeout => "timeout"
      case UnlockAmbiguous(d) => "unlock_ambiguous: " + d
      case Filesystem(d) => "filesystem_error: " + d
      case Kdf(d) => "kdf_error: " + d
      case Envelope(d) => "envelope_error: " + d
      case OwnerSeedUnavailable(d) => "owner_seed_unavailable: " + d
      case Store(d) => "storage_error: " + d
    }
  }

  /** What one refresh saw upstream. */
  datatype Observation = Observation(encryptedPresent: bool, sealedPresent: bool) {
    predicate Owned() { encryptedPresent || sealedPresent }
  }

  datatype RecoveryClaim = UnlockReservation | NowUnclaimed | Conflict

  datatype Machine = Machine(
    state: State,
    error: Option<string>,
    errorReprobeable: bool,
    attempts: seq<int>,
    generation: nat)

  /** Every way a request may touch the machine under its lock. */
  datatype Call =
    | BeginSecretOperation(now: int)
    | BeginUnlock(now: int)
    | BeginRecoveryFromError(now: int)
    | BeginRecoveryVerification
    | ClaimRecovered(token: nat, seen: Observation)
    | SetLocked
    | SetUnclaimed
    | SetUnclaimedPreservingAttempts
    | SetUnlocking
    | SetUnlocked
    | SetError(message: string)
    | SetOwnershipError(failure: OwnershipError)
    | RestoreIfUnlocking(token: nat)
  {
    /** The three entry points that share the attempt budget. */
    predicate Timed() { BeginSecretOperation? || BeginUnlock? || BeginRecoveryFromError? }
  }

  datatype Reply =
    | Done
    | Reserved(token: nat)
    | Refused(reason: OwnershipError)
    | Claimed(claim: RecoveryClaim)

  /** The attempts still inside the window, wherever they stand in the queue. */
  function Fresh(attempts: seq<int>, now: int): seq<int> {
    if attempts == [] then []
    else (if now - attempts[0] < UNLOCK_WINDOW then [attempts[0]] else []) + Fresh(attempts[1..], now)
  }

  function Initial(mode: Mode): Machine {
    Machine(if mode.RequiresManualUnlock() then Locked else Unlocked, None, false, [], 0)
  }

  function Reserve(m: Machine): Machine {
    m.(state := Unlocking, generation := m.generation + 1)
  }

  const RECOVERY_CANCELLED := OwnerSeedUnavailable("recovery_cancelled")

  function Step(mode: Mode, m: Machine, c: Call): (r: (Machine, Reply))
    // Every entry into Unlocking, and nothing else, issues the next token.
    ensures r.0.generation == m.generation || r.0.generation == m.generation + 1
    ensures r.0.generation == m.generation + 1 ==> r.0.state == Unlocking
    ensures r.0.generation == m.generation && r.0.state == Unlocking ==> m.state == Unlocking
  {
    match c
    case BeginSecretOperation(now) =>
      if !mode.RequiresManualUnlock() then (m, Done) else
      var p := m.(attempts := Fresh(m.attempts, now));
      if |p.attempts| >= UNLOCK_MAX_ATTEMPTS then (p, Refused(RateLimited))
      else (p.(attempts := p.attempts + [now], error := None), Done)
    case BeginUnlock(now) =>
      if !mode.RequiresManualUnlock() then (m, Done) else
      var p := m.(attempts := Fresh(m.attempts, now));
      if |p.attempts| >= UNLOCK_MAX_ATTEMPTS then (p, Refused(RateLimited))
      else if m.state != Locked then (p, Refused(NotLocked))
      else (Reserve(p.(attempts := p.attempts + [now], error := None)), Done)
    case BeginRecoveryFromError(now) =>
      var p := m.(attempts := Fresh(m.attempts, now));
      if |p.attempts| >= UNLOCK_MAX_ATTEMPTS then (p, Refused(RateLimited))
      else if m.state != Error || !m.errorReprobeable then (p, Refused(NotLocked))
      else (Reserve(p.(attempts := p.attempts + [now])), Reserved(m.generation + 1))
    case BeginRecoveryVerification =>
      if m.state == Locked || m.state == Unclaimed then (Reserve(m.(error := None)), Done)
      else (m, Refused(NotLocked))
    case ClaimRecovered(token, seen) =>
      if seen.Owned() then
        if m.state == Locked then (Reserve(m.(error := None)), Claimed(UnlockReservation))
        else (m, Claimed(Conflict))
      else if m.state == Unlocking && m.generation == token then
        (m.(state := Unclaimed, error := None, attempts := []), Claimed(NowUnclaimed))
      else (m, Claimed(Conflict))
    case SetLocked => (m.(state := Locked, error := None), Done)
    case SetUnclaimed => (m.(state := Unclaimed, error := None, attempts := []), Done)
    case SetUnclaimedPreservingAttempts => (m.(state := Unclaimed, error := None), Done)
    case SetUnlocking => (Reserve(m.(error := None)), Done)
    case SetUnlocked => (m.(state := Unlocked, error := None), Done)
    case SetError(message) =>
      (m.(state := Error, error := Some(message), errorReprobeable := false), Done)
    case SetOwnershipError(failure) =>
      (m.(state := Error, error := Some(failure.Text()), errorReprobeable := failure.IsReprobeable()), Done)
    case RestoreIfUnlocking(token) =>
      if m.state != Unlocking || m.generation != token then (m, Done)
      else (m.(state := Error, error := Some(RECOVERY_CANCELLED.Text()), errorReprobeable := true), Done)
  }

  // ---------------------------------------------------------------- runs

  ghost predicate IsRun(mode: Mode, ms: seq<Machine>, calls: seq<Call>) {
    && |ms| == |calls| + 1
    && forall i :: 0 <= i < |calls| ==> ms[i + 1] == Step(mode, ms[i], calls[i]).0
  }

  /** A run of the guard from its construction. */
  ghost predicate IsGuardRun(mode: Mode, ms: seq<Machine>, calls: seq<Call>) {
    IsRun(mode, ms, calls) && ms[0] == Initial(mode)
  }

  ghost predicate Sorted(times: seq<int>) {
    forall i, j :: 0 <= i < j < |times| ==> times[i] <= times[j]
  }

  ghost predicate NotAfter(times: seq<int>, now: int) {
    forall i :: 0 <= i < |times| ==> times[i] <= now
  }
}
