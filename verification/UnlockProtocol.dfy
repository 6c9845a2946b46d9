/**
 The reserving handlers as interleaved processes: any number of `unlock` and
 `recover` requests, the tasks and ready watches they spawn, and any other request
 that touches the guard without reserving it.  Every guard call is one step; a
 request may be dropped at every await, a spawned task at none.  What a process
 cannot see in advance (clock, upstream answers, the outcome of the handoff) is part
 of the event that moves it.
 */
module UnlockProtocol {
  import opened Wrappers
  import opened OwnershipSpec

  /** The program has the cancel guard; `guarded == false` is the variant without it. */
  datatype Config = Config(mode: Mode, instanceIdEmpty: bool, guarded: bool)

  /** Program counter inside refresh_ownership_state; Loading is its await. */
  datatype Refresh =
    | Loading
    | MarkLocked(seen: Observation)
    | AskUnlocking(seen: Observation)
    | AskUnclaimed(seen: Observation)
    | MarkUnclaimed(preserve: bool, seen: Observation)
    | Returned(seen: Observation)
    | Raised(failure: OwnershipError)

  datatype TaskStage = Fetching | Revalidating(r: Refresh) | Deciding

  datatype Process =
    | Entry
    | EntryRefresh(r: Refresh)
    | AfterEntry
    | CheckLatch
    | BeginRecovery
    | Recovering(token: nat, retried: bool, r: Refresh)
    | Claiming(token: nat, seen: Observation)
    | Latching(token: nat, failure: OwnershipError)
    | Dropping(token: nat, next: Option<nat>)  // the cancel guard's drop
    | BeginNormal
    | Spawning(token: nat)
    | Task(token: nat, stage: TaskStage)
    | Watching
    | Finished
    | RecoverEntry
    | RecoverCharge
    | RecoverFetching
    | RecoverRevalidating(r: Refresh)
    | RecoverBuilt
    | RecoverProbing(restore: bool)
    | RecoverReserve(restore: bool)
    | Verifying(token: nat, restore: bool, check: Check)
    | RecoverUpdating(token: nat)
    | RecoverFinalizing(token: nat)
    | RecoverHanding(token: nat)
    | RecoverWatching(token: nat)  // the spawned late watch
    | Abandoned(token: nat)        // dropped with a reservation and no guard; it never runs again

  /** The awaits of verify_owner_seed_for_recovery after its reservation. */
  datatype Check = Clearing | Asking | AwaitingReady

  /** How a spawned unlock task ends. */
  datatype Outcome =
    | Opened
    | Rejected
    | OnlySealed
    | SeedGone
    | Broken(failure: OwnershipError)
    | Fatal(message: string)

  datatype Choice = Choice(
    now: int, loadOk: bool, seen: Observation, failure: OwnershipError,
    stop: bool, revalidate: bool, outcome: Outcome, watch: bool)

  datatype Event =
    | Arrive(pid: nat)
    | ArriveRecover(pid: nat)
    | Run(pid: nat, choice: Choice)
    | Cancel(pid: nat)
    | Other(call: Call)

  datatype World = World(machine: Machine, procs: map<nat, Process>)

  function CompletionCall(o: Outcome): Call {
    match o
    case Opened => SetUnlocked
    case Rejected => SetLocked
    case OnlySealed => SetLocked
    case SeedGone => SetUnclaimed
    case Broken(failure) => SetOwnershipError(failure)
    case Fatal(message) => SetError(message)
  }

  /** Guard calls of all other handlers; none of them reserves the machine. */
  predicate NonReserving(c: Call) {
    c.BeginSecretOperation? || c.SetLocked? || c.SetUnclaimed? || c.SetUnclaimedPreservingAttempts? ||
    c.SetUnlocked? || c.SetError? || c.SetOwnershipError?
  }

  function StartRefresh(cfg: Config): Refresh {
    if cfg.mode.UsesOwnerSeed() then Loading else Returned(Observation(false, false))
  }

  function RunRefresh(cfg: Config, m: Machine, r: Refresh, ch: Choice): (Machine, Refresh) {
    match r
    case Loading =>
      if !ch.loadOk then (m, Raised(ch.failure))
      else if ch.seen.Owned() then (m, MarkLocked(ch.seen))
      else (m, AskUnlocking(ch.seen))
    case MarkLocked(seen) => (Step(cfg.mode, m, SetLocked).0, Returned(seen))
    case AskUnlocking(seen) => if m.state == Unlocking then (m, Returned(seen)) else (m, AskUnclaimed(seen))
    case AskUnclaimed(seen) => (m, MarkUnclaimed(m.state == Unclaimed, seen))
    case MarkUnclaimed(preserve, seen) =>
      (Step(cfg.mode, m, if preserve then SetUnclaimedPreservingAttempts else SetUnclaimed).0, Returned(seen))
    case Returned(_) => (m, r)
    case Raised(_) => (m, r)
  }

  function RunProcess(cfg: Config, m: Machine, p: Process, ch: Choice): (Machine, Process) {
    match p
    case Entry =>
      if !cfg.mode.RequiresManualUnlock() then (m, Finished)
      else if m.state == Unclaimed then (m, EntryRefresh(StartRefresh(cfg)))
      else (m, AfterEntry)
    case EntryRefresh(r) =>
      if r.Raised? then (m, Finished)
      else if r.Returned? then (m, AfterEntry)
      else var (m', r') := RunRefresh(cfg, m, r, ch); (m', EntryRefresh(r'))
    case AfterEntry =>
      if m.state == Unclaimed || ch.stop then (m, Finished) else (m, CheckLatch)
    case CheckLatch =>
      (m, if m.state == Error && m.errorReprobeable then BeginRecovery else BeginNormal)
    case BeginRecovery =>
      var (m', reply) := Step(cfg.mode, m, BeginRecoveryFromError(ch.now));
      (m', if reply.Reserved? then Recovering(reply.token, false, StartRefresh(cfg))
           else if reply == Refused(RateLimited) then Finished
           else BeginNormal)
    case Recovering(token, retried, r) =>
      if r.Raised? then
        (m, if retried then Latching(token, r.failure) else Recovering(token, true, StartRefresh(cfg)))
      else if r.Returned? then (m, Claiming(token, r.seen))
      else var (m', r') := RunRefresh(cfg, m, r, ch); (m', Recovering(token, retried, r'))
    case Claiming(token, seen) =>
      var (m', reply) := Step(cfg.mode, m, ClaimRecovered(token, seen));
      (m', Dropping(token, if reply == Claimed(UnlockReservation) then Some(m'.generation) else None))
    case Latching(token, failure) =>
      (Step(cfg.mode, m, SetOwnershipError(failure)).0, Dropping(token, None))
    case Dropping(token, next) =>
      (Step(cfg.mode, m, RestoreIfUnlocking(token)).0,
       match next case Some(g) => Spawning(g) case None => Finished)
    case BeginNormal =>
      var (m', reply) := Step(cfg.mode, m, BeginUnlock(ch.now));
      (m', if reply.Refused? then Finished else Spawning(m'.generation))
    case Spawning(token) =>
      if cfg.instanceIdEmpty then (Step(cfg.mode, m, SetError("configuration_error")).0, Finished)
      else (m, Task(token, Fetching))
    case Task(token, stage) =>
      (match stage
       case Fetching =>
         (m, Task(token, if ch.revalidate && cfg.mode.UsesOwnerSeed() then Revalidating(Loading) else Deciding))
       case Revalidating(r) =>
         if r.Raised? || r.Returned? then (m, Task(token, Deciding))
         else var (m', r') := RunRefresh(cfg, m, r, ch); (m', Task(token, Revalidating(r')))
       case Deciding =>
         (Step(cfg.mode, m, CompletionCall(ch.outcome)).0,
          if ch.outcome.Opened? && ch.watch then Watching else Finished))
    case Watching =>
      (Step(cfg.mode, m, if ch.loadOk then SetUnlocked else SetError(ch.failure.Text())).0, Finished)
    case Finished => (m, Finished)
    case Abandoned(_) => (m, p)
    case _ => RunRecover(cfg, m, p, ch)
  }

  /** The guard call that undoes a recovery reservation after a failure init did report. */
  function UndoCall(restore: bool): Call { if restore then SetUnclaimedPreservingAttempts else SetLocked }

  /** recover; `stop` is any answer it can give without touching the guard. */
  function RunRecover(cfg: Config, m: Machine, p: Process, ch: Choice): (Machine, Process) {
    match p
    case RecoverEntry => (m, if ch.stop then Finished else RecoverCharge)
    case RecoverCharge =>
      var (m', reply) := Step(cfg.mode, m, BeginSecretOperation(ch.now));
      (m', if reply.Refused? || ch.stop then Finished else RecoverFetching)
    case RecoverFetching =>
      (m, if !ch.loadOk then Finished
          else if ch.revalidate && cfg.mode.UsesOwnerSeed() then RecoverRevalidating(Loading)
          else RecoverBuilt)
    case RecoverRevalidating(r) =>
      if r.Raised? then (m, Finished)
      else if r.Returned? then (m, RecoverBuilt)
      else var (m', r') := RunRefresh(cfg, m, r, ch); (m', RecoverRevalidating(r'))
    case RecoverBuilt =>
      (m, if ch.stop then Finished else RecoverProbing(m.state == Unclaimed && !ch.seen.encryptedPresent))
    case RecoverProbing(restore) => (m, if ch.stop then Finished else RecoverReserve(restore))
    case RecoverReserve(restore) =>
      var (m', reply) := Step(cfg.mode, m, BeginRecoveryVerification);
      (m', if reply.Refused? then Finished else Verifying(m'.generation, restore, Clearing))
    case Verifying(token, restore, check) => RunVerifying(cfg, m, token, restore, check, ch)
    case RecoverUpdating(token) =>
      if ch.loadOk then (m, RecoverFinalizing(token))
      else (Step(cfg.mode, m, SetError("recovery_persistence_requires_restart")).0, Finished)
    case RecoverFinalizing(token) =>
      if m.state != Unlocked then (m, RecoverHanding(token))
      else if ch.loadOk then (Step(cfg.mode, m, SetUnlocked).0, Finished)
      else (Step(cfg.mode, m, SetOwnershipError(ch.failure)).0, Finished)
    case RecoverHanding(_) =>
      if ch.loadOk then (Step(cfg.mode, m, SetUnlocked).0, if ch.watch then Watching else Finished)
      else (Step(cfg.mode, m, SetOwnershipError(ch.failure)).0, Finished)
    case RecoverWatching(_) =>
      (Step(cfg.mode, m, SetError(if ch.loadOk then "recovery_persistence_requires_restart" else ch.failure.Text())).0,
       Finished)
    case _ => (m, p)
  }

  /** The three awaits under the reservation: go on, undo, latch what is ambiguous, or leave it to the late watch. */
  function RunVerifying(cfg: Config, m: Machine, token: nat, restore: bool, check: Check, ch: Choice): (Machine, Process) {
    if ch.loadOk then
      (m, match check
          case Clearing => Verifying(token, restore, Asking)
          case Asking => Verifying(token, restore, AwaitingReady)
          case AwaitingReady => RecoverUpdating(token))
    else if check.AwaitingReady? && ch.failure == Timeout then (m, RecoverWatching(token))
    else if !check.Clearing? && ch.failure.UnlockAmbiguous? then
      (Step(cfg.mode, m, SetError("recovery_verification_ambiguous_restart_required")).0, Finished)
    else (Step(cfg.mode, m, UndoCall(restore)).0, Finished)
  }

  /** Dropping the request at an await; only the recovery section of unlock leaves a guard behind. */
  function Cancelled(cfg: Config, p: Process): Process {
    match p
    case EntryRefresh(Loading) => Finished
    case Recovering(token, _, Loading) => if cfg.guarded then Dropping(token, None) else Abandoned(token)
    case RecoverFetching => Finished
    case RecoverRevalidating(Loading) => Finished
    case RecoverProbing(_) => Finished
    case Verifying(token, _, _) => Abandoned(token)
    case RecoverUpdating(token) => Abandoned(token)
    case RecoverHanding(token) => Abandoned(token)
    case _ => p
  }

  function Exec(cfg: Config, w: World, e: Event): World {
    match e
    case Arrive(pid) => if pid in w.procs then w else w.(procs := w.procs[pid := Entry])
    case ArriveRecover(pid) => if pid in w.procs then w else w.(procs := w.procs[pid := RecoverEntry])
    case Run(pid, choice) =>
      if pid !in w.procs then w
      else var (m, p) := RunProcess(cfg, w.machine, w.procs[pid], choice);
        World(m, w.procs[pid := p])
    case Cancel(pid) =>
      if pid !in w.procs then w else w.(procs := w.procs[pid := Cancelled(cfg, w.procs[pid])])
    case Other(call) =>
      if NonReserving(call) then w.(machine := Step(cfg.mode, w.machine, call).0) else w
  }

  function ExecAll(cfg: Config, w: World, es: seq<Event>): World
    decreases es
  {
    if es == [] then w else ExecAll(cfg, Exec(cfg, w, es[0]), es[1..])
  }

  function Boot(cfg: Config): World { World(Initial(cfg.mode), map[]) }

  // ------------------------------------------------- ownership

  /** The token a process answers for. */
  function Holder(p: Process): Option<nat> {
    match p
    case Recovering(token, _, _) => Some(token)
    case Claiming(token, _) => Some(token)
    case Latching(token, _) => Some(token)
    case Dropping(token, next) => if next.Some? then next else Some(token)
    case Spawning(token) => Some(token)
    case Task(token, _) => Some(token)
    case Verifying(token, _, _) => Some(token)
    case RecoverUpdating(token) => Some(token)
    case RecoverFinalizing(token) => Some(token)
    case RecoverHanding(token) => Some(token)
    case RecoverWatching(token) => Some(token)
    case Abandoned(token) => Some(token)
    case _ => None
  }

  ghost predicate Holds(w: World, pid: nat, token: nat) {
    pid in w.procs && Holder(w.procs[pid]) == Some(token)
  }

  /** A holder that will still run. */
  ghost predicate Owns(w: World, pid: nat, token: nat) {
    Holds(w, pid, token) && !w.procs[pid].Abandoned?
  }

  /** An Unlocking machine has a holder, living or not, of exactly its generation. */
  ghost predicate NotStranded(w: World) {
    w.machine.state == Unlocking ==> exists pid :: Holds(w, pid, w.machine.generation)
  }

  /** No token has two owners and none is from the future. */
  ghost predicate TokensUnique(w: World) {
    && (forall p, g: nat :: Holds(w, p, g) ==> g <= w.machine.generation)
    && (forall p, q, g: nat :: Holds(w, p, g) && Holds(w, q, g) ==> p == q)
  }

  /** A process of the recover handler, or one it leaves behind. */
  predicate Recovers(p: Process) {
    p.RecoverEntry? || p.RecoverCharge? || p.RecoverFetching? || p.RecoverRevalidating? || p.RecoverBuilt? ||
    p.RecoverProbing? || p.RecoverReserve? || p.Verifying? || p.RecoverUpdating? || p.RecoverFinalizing? ||
    p.RecoverHanding? || p.RecoverWatching? || p.Watching? || p.Abandoned?
  }

  /** Without manual unlocking the unlock handler answers 404 at its first step. */
  predicate Served(cfg: Config, p: Process) {
    cfg.mode.RequiresManualUnlock() || p == Entry || p == Finished || Recovers(p)
  }

  ghost predicate Sound(cfg: Config, w: World) {
    NotStranded(w) && TokensUnique(w) && forall pid :: pid in w.procs ==> Served(cfg, w.procs[pid])
  }

  /** A step that treats the token p answers for, and the machine, as an owner may. */
  ghost predicate Responsible(m: Machine, p: Process, m': Machine, p': Process) {
    && m.generation <= m'.generation
    && (Holder(p') == Holder(p) || Holder(p') == None ||
        (Holder(p') == Some(m'.generation) && m'.generation == m.generation + 1))
    && (m'.state == Unlocking ==>
          if m'.generation == m.generation
          then m.state == Unlocking && (Holder(p) == Some(m.generation) ==> Holder(p') == Holder(p))
          else Holder(p') == Some(m'.generation))
  }

  /** What one step of a process does to its token and to the machine. */
  lemma ProcessStep(cfg: Config, m: Machine, p: Process, ch: Choice)
    requires Served(cfg, p)
    ensures Served(cfg, RunProcess(cfg, m, p, ch).1)
    ensures Responsible(m, p, RunProcess(cfg, m, p, ch).0, RunProcess(cfg, m, p, ch).1)
  {
    if Recovers(p) {
      RecoverStep(cfg, m, p, ch);
    } else if p.EntryRefresh? || p.Recovering? || p.Task? {
      RefreshingStep(cfg, m, p, ch);
    } else {
      OtherStep(cfg, m, p, ch);
    }
  }

  lemma RefreshingStep(cfg: Config, m: Machine, p: Process, ch: Choice)
    requires p.EntryRefresh? || p.Recovering? || p.Task?
    ensures Responsible(m, p, RunProcess(cfg, m, p, ch).0, RunProcess(cfg, m, p, ch).1)
  {
  }

  lemma OtherStep(cfg: Config, m: Machine, p: Process, ch: Choice)
    requires Served(cfg, p) && !Recovers(p) && !p.EntryRefresh? && !p.Recovering? && !p.Task?
    ensures Responsible(m, p, RunProcess(cfg, m, p, ch).0, RunProcess(cfg, m, p, ch).1)
  {
  }

  lemma RecoverStep(cfg: Config, m: Machine, p: Process, ch: Choice)
    requires Recovers(p)
    ensures var (m', p') := RunProcess(cfg, m, p, ch); Responsible(m, p, m', p') && (Recovers(p') || p' == Finished)
  {
    if p.Verifying? {
      VerifyingStep(cfg, m, p.token, p.restore, p.check, ch);
    } else if p.RecoverRevalidating? {
      RevalidatingStep(cfg, m, p.r, ch);
    } else if !p.Watching? && !p.Abandoned? {
      RecoverOtherStep(cfg, m, p, ch);
    }
  }

  lemma RevalidatingStep(cfg: Config, m: Machine, r: Refresh, ch: Choice)
    ensures var (m', p') := RunRecover(cfg, m, RecoverRevalidating(r), ch);
            Responsible(m, RecoverRevalidating(r), m', p') && (Recovers(p') || p' == Finished)
  {
  }

  lemma VerifyingStep(cfg: Config, m: Machine, token: nat, restore: bool, check: Check, ch: Choice)
    ensures var (m', p') := RunVerifying(cfg, m, token, restore, check, ch);
            Responsible(m, Verifying(token, restore, check), m', p') && (Recovers(p') || p' == Finished)
  {
  }

  lemma RecoverOtherStep(cfg: Config, m: Machine, p: Process, ch: Choice)
    requires Recovers(p) && !p.Verifying? && !p.RecoverRevalidating? && !p.Watching? && !p.Abandoned?
    ensures var (m', p') := RunRecover(cfg, m, p, ch); Responsible(m, p, m', p') && (Recovers(p') || p' == Finished)
  {
  }

  lemma RunSound(cfg: Config, w: World, pid: nat, ch: Choice)
    requires Sound(cfg, w) && pid in w.procs
    ensures Sound(cfg, Exec(cfg, w, Run(pid, ch)))
  {
    var w' := Exec(cfg, w, Run(pid, ch));
    ProcessStep(cfg, w.machine, w.procs[pid], ch);
    forall p, g: nat | Holds(w', p, g) ensures g <= w'.machine.generation {
      assert p != pid ==> Holds(w, p, g);
      assert p == pid && Holder(w.procs[pid]) == Some(g) ==> Holds(w, p, g);
    }
    forall p, q, g: nat | Holds(w', p, g) && Holds(w', q, g) ensures p == q {
      assert p != pid ==> Holds(w, p, g);
      assert q != pid ==> Holds(w, q, g);
      assert Holder(w.procs[pid]) == Some(g) ==> Holds(w, pid, g);
    }
    if w'.machine.state == Unlocking {
      if w'.machine.generation == w.machine.generation {
        var p :| Holds(w, p, w.machine.generation);
        assert Holds(w', p, w'.machine.generation);
      } else {
        assert Holds(w', pid, w'.machine.generation);
      }
    }
  }

  lemma OtherStepsSound(cfg: Config, w: World, e: Event)
    requires Sound(cfg, w) && !e.Run?
    ensures Sound(cfg, Exec(cfg, w, e))
  {
    var w' := Exec(cfg, w, e);
    assert w'.machine.generation == w.machine.generation;
    assert forall p, g: nat :: Holds(w', p, g) <==> Holds(w, p, g);
    if w'.machine.state == Unlocking {
      var p :| Holds(w, p, w.machine.generation);
      assert Holds(w', p, w'.machine.generation);
    }
  }

  lemma ExecSound(cfg: Config, w: World, e: Event)
    requires Sound(cfg, w)
    ensures Sound(cfg, Exec(cfg, w, e))
  {
    if e.Run? {
      if e.pid in w.procs { RunSound(cfg, w, e.pid, e.choice); }
    } else {
      OtherStepsSound(cfg, w, e);
    }
  }

  lemma {:induction false} ExecAllSound(cfg: Config, w: World, es: seq<Event>)
    requires Sound(cfg, w)
    ensures Sound(cfg, ExecAll(cfg, w, es))
    decreases es
  {
    if es != [] {
      ExecSound(cfg, w, es[0]);
      ExecAllSound(cfg, Exec(cfg, w, es[0]), es[1..]);
    }
  }

  // ------------------------------------------------- who owns an Unlocking machine

  lemma {:induction false} ExecAllSnoc(cfg: Config, w: World, es: seq<Event>, e: Event)
    ensures ExecAll(cfg, w, es + [e]) == Exec(cfg, ExecAll(cfg, w, es), e)
    decreases es
  {
    if es == [] {
      var last := Exec(cfg, w, e);
      assert ([] + [e])[1..] == [] && ExecAll(cfg, last, []) == last;
    } else {
      assert (es + [e])[0] == es[0] && (es + [e])[1..] == es[1..] + [e];
      ExecAllSnoc(cfg, Exec(cfg, w, es[0]), es[1..], e);
    }
  }

  /** This event drops a process that holds token g and leaves nothing behind to give it up. */
  ghost predicate DropsHolder(cfg: Config, w: World, e: Event, g: nat) {
    && e.Cancel? && Holds(w, e.pid, g)
    && Cancelled(cfg, w.procs[e.pid]).Abandoned? && !w.procs[e.pid].Abandoned?
  }

  /** With the guard in place, only recoveries are dropped like that. */
  lemma OnlyRecoveriesLoseTheirReservation(cfg: Config, w: World, e: Event, g: nat)
    requires cfg.guarded && DropsHolder(cfg, w, e, g)
    ensures var p := w.procs[e.pid]; p.Verifying? || p.RecoverUpdating? || p.RecoverHanding?
  {
  }

  /** At some point of the run a holder of g was dropped. */
  ghost predicate HolderDropped(cfg: Config, es: seq<Event>, g: nat) {
    exists k :: 0 <= k < |es| && DropsHolder(cfg, ExecAll(cfg, Boot(cfg), es[..k]), es[k], g)
  }

  ghost predicate Lost(w: World, g: nat) { exists pid: nat :: pid in w.procs && w.procs[pid] == Abandoned(g) }

  lemma LostStep(cfg: Config, w: World, e: Event, g: nat)
    ensures Lost(Exec(cfg, w, e), g) <==> Lost(w, g) || DropsHolder(cfg, w, e, g)
  {
    var w' := Exec(cfg, w, e);
    if Lost(w, g) {
      var pid: nat :| pid in w.procs && w.procs[pid] == Abandoned(g);
      assert w'.procs[pid] == Abandoned(g);
    }
    if DropsHolder(cfg, w, e, g) { assert w'.procs[e.pid] == Abandoned(g); }
    if Lost(w', g) {
      var pid: nat :| pid in w'.procs && w'.procs[pid] == Abandoned(g);
      OnlyDropsAbandon(cfg, w, e, pid, g);
    }
  }

  lemma OnlyDropsAbandon(cfg: Config, w: World, e: Event, pid: nat, g: nat)
    requires pid in Exec(cfg, w, e).procs && Exec(cfg, w, e).procs[pid] == Abandoned(g)
    ensures (pid in w.procs && w.procs[pid] == Abandoned(g)) || DropsHolder(cfg, w, e, g)
  {
    if e.Run? && e.pid == pid && pid in w.procs { StepsDoNotAbandon(cfg, w.machine, w.procs[pid], e.choice); }
  }

  lemma StepsDoNotAbandon(cfg: Config, m: Machine, p: Process, ch: Choice)
    ensures RunProcess(cfg, m, p, ch).1.Abandoned? ==> RunProcess(cfg, m, p, ch).1 == p
  {
  }

  /** A reservation is lost exactly by dropping its holder. */
  lemma {:induction false} LostIffDropped(cfg: Config, es: seq<Event>, g: nat)
    ensures Lost(ExecAll(cfg, Boot(cfg), es), g) <==> HolderDropped(cfg, es, g)
  {
    if es == [] {
      assert ExecAll(cfg, Boot(cfg), es) == Boot(cfg);
    } else {
      var n := |es| - 1;
      var front, last := es[..n], es[n];
      LostIffDropped(cfg, front, g);
      assert es == front + [last];
      ExecAllSnoc(cfg, Boot(cfg), front, last);
      LostStep(cfg, ExecAll(cfg, Boot(cfg), front), last, g);
      DroppedSnoc(cfg, front, last, g);
    }
  }

  lemma DroppedSnoc(cfg: Config, front: seq<Event>, last: Event, g: nat)
    ensures HolderDropped(cfg, front + [last], g) <==>
            HolderDropped(cfg, front, g) || DropsHolder(cfg, ExecAll(cfg, Boot(cfg), front), last, g)
  {
    var es := front + [last];
    assert es[..|front|] == front && es[|front|] == last;
    assert forall k :: 0 <= k < |front| ==> es[..k] == front[..k] && es[k] == front[k];
  }

  /**
   No stranded unlock, exactly.  After every interleaving of unlock and recover
   requests, drops at any await, spawned tasks, watches and other handlers' guard
   calls, an Unlocking machine has exactly one live owner of its current reservation,
   or none at all; it has none if and only if the process holding that reservation
   was dropped without a guard.
   */
  lemma OwnerIsLiveUnlessDropped(cfg: Config, es: seq<Event>)
    ensures var w := ExecAll(cfg, Boot(cfg), es); var g := w.machine.generation;
            w.machine.state == Unlocking ==>
              && ((exists pid :: Owns(w, pid, g)) <==> !HolderDropped(cfg, es, g))
              && (forall p, q :: Owns(w, p, g) && Owns(w, q, g) ==> p == q)
  {
    ExecAllSound(cfg, Boot(cfg), es);
    var w := ExecAll(cfg, Boot(cfg), es);
    LostIffDropped(cfg, es, w.machine.generation);
    if w.machine.state == Unlocking { OwnerIsLiveUnlessLost(cfg, w); }
  }

  lemma OwnerIsLiveUnlessLost(cfg: Config, w: World)
    requires Sound(cfg, w) && w.machine.state == Unlocking
    ensures var g := w.machine.generation;
            && ((exists pid :: Owns(w, pid, g)) <==> !Lost(w, g))
            && (forall p, q :: Owns(w, p, g) && Owns(w, q, g) ==> p == q)
  {
    var g := w.machine.generation;
    var pid :| Holds(w, pid, g);
    if Lost(w, g) {
      var dead: nat :| dead in w.procs && w.procs[dead] == Abandoned(g);
      assert Holds(w, dead, g);
    } else {
      assert Owns(w, pid, g);
    }
  }

  /** No recover request is ever dropped under a reservation. */
  ghost predicate NoRecoveryDropped(cfg: Config, es: seq<Event>) {
    forall k :: 0 <= k < |es| && es[k].Cancel? ==>
      var w := ExecAll(cfg, Boot(cfg), es[..k]);
      es[k].pid in w.procs ==> !w.procs[es[k].pid].Verifying? && !w.procs[es[k].pid].RecoverUpdating? &&
                               !w.procs[es[k].pid].RecoverHanding?
  }

  /** With the cancel guard, dropped unlock requests never strand the machine; only dropped recoveries can. */
  lemma NoStrandedUnlock(cfg: Config, es: seq<Event>)
    requires cfg.guarded && NoRecoveryDropped(cfg, es)
    ensures var w := ExecAll(cfg, Boot(cfg), es);
            w.machine.state == Unlocking ==> exists pid :: Owns(w, pid, w.machine.generation)
  {
    OwnerIsLiveUnlessDropped(cfg, es);
    var g := ExecAll(cfg, Boot(cfg), es).machine.generation;
    if HolderDropped(cfg, es, g) {
      var k :| 0 <= k < |es| && DropsHolder(cfg, ExecAll(cfg, Boot(cfg), es[..k]), es[k], g);
      OnlyRecoveriesLoseTheirReservation(cfg, ExecAll(cfg, Boot(cfg), es[..k]), es[k], g);
      assert false;
    }
  }

  // ------------------------------------------------- the two ways to be stranded

  const GO := Choice(0, true, Observation(true, false), Timeout, false, false, Opened, false)

  ghost predicate Stranded(w: World) {
    w.machine.state == Unlocking && forall pid :: !Owns(w, pid, w.machine.generation)
  }

  /** One process alone. */
  function Solo(m: Machine, p: Process): World { World(m, map[0 := p]) }

  lemma SoloRun(cfg: Config, es: seq<Event>, m: Machine, p: Process, ch: Choice, m': Machine, p': Process)
    requires ExecAll(cfg, Boot(cfg), es) == Solo(m, p) && RunProcess(cfg, m, p, ch) == (m', p')
    ensures ExecAll(cfg, Boot(cfg), es + [Run(0, ch)]) == Solo(m', p')
  {
    ExecAllSnoc(cfg, Boot(cfg), es, Run(0, ch));
  }

  lemma SoloDrop(cfg: Config, es: seq<Event>, m: Machine, p: Process)
    requires ExecAll(cfg, Boot(cfg), es) == Solo(m, p)
    ensures ExecAll(cfg, Boot(cfg), es + [Cancel(0)]) == Solo(m, Cancelled(cfg, p))
  {
    ExecAllSnoc(cfg, Boot(cfg), es, Cancel(0));
  }

  lemma DroppedSoloIsStranded(m: Machine, g: nat)
    requires m.state == Unlocking && m.generation == g
    ensures Stranded(Solo(m, Abandoned(g)))
  {
  }

  lemma RecoveryStarts(cfg: Config) returns (es: seq<Event>, m: Machine)
    requires cfg.mode.UsesOwnerSeed()
    ensures ExecAll(cfg, Boot(cfg), es) == Solo(m, RecoverFetching) && m == Initial(cfg.mode).(attempts := [0])
  {
    var m0 := Initial(cfg.mode);
    m := m0.(attempts := [0]);
    es := [] + [ArriveRecover(0)];
    ExecAllSnoc(cfg, Boot(cfg), [], ArriveRecover(0));
    SoloRun(cfg, es, m0, RecoverEntry, GO, m0, RecoverCharge);
    es := es + [Run(0, GO)];
    assert Fresh([], 0) + [0] == [0];
    SoloRun(cfg, es, m0, RecoverCharge, GO, m, RecoverFetching);
    es := es + [Run(0, GO)];
  }

  lemma RecoveryBuilds(cfg: Config) returns (es: seq<Event>, m: Machine)
    requires cfg.mode.UsesOwnerSeed()
    ensures ExecAll(cfg, Boot(cfg), es) == Solo(m, RecoverProbing(false)) && m.state == Locked && m.generation == 0
  {
    es, m := RecoveryStarts(cfg);
    SoloRun(cfg, es, m, RecoverFetching, GO, m, RecoverBuilt);
    es := es + [Run(0, GO)];
    SoloRun(cfg, es, m, RecoverBuilt, GO, m, RecoverProbing(false));
    es := es + [Run(0, GO)];
  }

  lemma RecoveryReserves(cfg: Config) returns (es: seq<Event>, m: Machine)
    requires cfg.mode.UsesOwnerSeed()
    ensures ExecAll(cfg, Boot(cfg), es) == Solo(m, Verifying(1, false, Clearing))
    ensures m.state == Unlocking && m.generation == 1
  {
    var m0;
    es, m0 := RecoveryBuilds(cfg);
    SoloRun(cfg, es, m0, RecoverProbing(false), GO, m0, RecoverReserve(false));
    es := es + [Run(0, GO)];
    m := Reserve(m0.(error := None));
    SoloRun(cfg, es, m0, RecoverReserve(false), GO, m, Verifying(1, false, Clearing));
    es := es + [Run(0, GO)];
  }

  /** A recovery on its own that is dropped under its reservation. */
  lemma DroppedRecoveryStrands(cfg: Config) returns (es: seq<Event>)
    requires cfg.mode.UsesOwnerSeed()
    ensures Stranded(ExecAll(cfg, Boot(cfg), es))
  {
    var m;
    es, m := RecoveryReserves(cfg);
    SoloDrop(cfg, es, m, Verifying(1, false, Clearing));
    es := es + [Cancel(0)];
    DroppedSoloIsStranded(m, 1);
  }

  lemma UnlockStarts(cfg: Config) returns (es: seq<Event>, m: Machine)
    requires cfg.mode.UsesOwnerSeed()
    ensures ExecAll(cfg, Boot(cfg), es) == Solo(m, Entry)
    ensures m == Step(cfg.mode, Initial(cfg.mode), SetOwnershipError(RECOVERY_CANCELLED)).0
  {
    var latch := Other(SetOwnershipError(RECOVERY_CANCELLED));
    m := Step(cfg.mode, Initial(cfg.mode), SetOwnershipError(RECOVERY_CANCELLED)).0;
    es := [] + [latch];
    ExecAllSnoc(cfg, Boot(cfg), [], latch);
    ExecAllSnoc(cfg, Boot(cfg), es, Arrive(0));
    es := es + [Arrive(0)];
  }

  lemma UnlockChecks(cfg: Config) returns (es: seq<Event>, m: Machine)
    requires cfg.mode.UsesOwnerSeed()
    ensures ExecAll(cfg, Boot(cfg), es) == Solo(m, CheckLatch)
    ensures m == Step(cfg.mode, Initial(cfg.mode), SetOwnershipError(RECOVERY_CANCELLED)).0
  {
    es, m := UnlockStarts(cfg);
    SoloRun(cfg, es, m, Entry, GO, m, AfterEntry);
    es := es + [Run(0, GO)];
    SoloRun(cfg, es, m, AfterEntry, GO, m, CheckLatch);
    es := es + [Run(0, GO)];
  }

  /** Up to its reservation, an unlock request that finds a re-probeable error. */
  lemma UnlockReserves(cfg: Config) returns (es: seq<Event>, m: Machine)
    requires cfg.mode.UsesOwnerSeed()
    ensures ExecAll(cfg, Boot(cfg), es) == Solo(m, Recovering(1, false, Loading))
    ensures m.state == Unlocking && m.generation == 1
  {
    var m0;
    es, m0 := UnlockChecks(cfg);
    SoloRun(cfg, es, m0, CheckLatch, GO, m0, BeginRecovery);
    es := es + [Run(0, GO)];
    assert Fresh([], 0) + [0] == [0];
    m := m0.(attempts := [0], state := Unlocking, generation := 1);
    SoloRun(cfg, es, m0, BeginRecovery, GO, m, Recovering(1, false, Loading));
    es := es + [Run(0, GO)];
  }

  /** What the cancel guard is for: the same drop strands the machine without it, and is cleaned up with it. */
  lemma GuardIsNeeded(cfg: Config) returns (es: seq<Event>)
    requires cfg.mode.UsesOwnerSeed()
    ensures cfg.guarded ==> ExecAll(cfg, Boot(cfg), es).machine.state == Error
    ensures !cfg.guarded ==> Stranded(ExecAll(cfg, Boot(cfg), es))
  {
    var m;
    es, m := UnlockReserves(cfg);
    SoloDrop(cfg, es, m, Recovering(1, false, Loading));
    es := es + [Cancel(0)];
    var p := Cancelled(cfg, Recovering(1, false, Loading));
    var (m', p') := RunProcess(cfg, m, p, GO);
    SoloRun(cfg, es, m, p, GO, m', p');
    es := es + [Run(0, GO)];
    if !cfg.guarded { DroppedSoloIsStranded(m, 1); }
  }

  // ------------------------------------------------- bounded release

  /** The task leaves Unlocking on every completion. */
  lemma TaskCompletionLeavesUnlocking(cfg: Config, m: Machine, p: Process, ch: Choice)
    requires p.Task? && !RunProcess(cfg, m, p, ch).1.Task?
    ensures RunProcess(cfg, m, p, ch).0.state != Unlocking
  {
  }

  function RefreshRank(r: Refresh): nat {
    match r
    case Loading => 4
    case MarkLocked(_) => 1
    case AskUnlocking(_) => 3
    case AskUnclaimed(_) => 2
    case MarkUnclaimed(_, _) => 1
    case Returned(_) => 0
    case Raised(_) => 0
  }

  /** Own steps a process has left at most. */
  function Rank(p: Process): nat {
    match p
    case Entry => 37
    case EntryRefresh(r) => 32 + RefreshRank(r)
    case AfterEntry => 31
    case CheckLatch => 30
    case BeginRecovery => 29
    case Recovering(_, retried, r) => (if retried then 18 else 23) + RefreshRank(r)
    case Claiming(_, _) => 17
    case Latching(_, _) => 17
    case Dropping(_, next) => if next.Some? then 12 else 1
    case BeginNormal => 28
    case Spawning(_) => 11
    case Task(_, stage) =>
      (match stage case Fetching => 10 case Revalidating(r) => 4 + RefreshRank(r) case Deciding => 2)
    case Watching => 1
    case Finished => 0
    case RecoverEntry => 18
    case RecoverCharge => 17
    case RecoverFetching => 16
    case RecoverRevalidating(r) => 11 + RefreshRank(r)
    case RecoverBuilt => 10
    case RecoverProbing(_) => 9
    case RecoverReserve(_) => 8
    case Verifying(_, _, check) => (match check case Clearing => 7 case Asking => 6 case AwaitingReady => 5)
    case RecoverUpdating(_) => 4
    case RecoverFinalizing(_) => 3
    case RecoverHanding(_) => 2
    case RecoverWatching(_) => 1
    case Abandoned(_) => 0
  }

  lemma OwnStepsAreBounded(cfg: Config, m: Machine, p: Process, ch: Choice)
    requires p != Finished && !p.Abandoned?
    ensures Rank(RunProcess(cfg, m, p, ch).1) < Rank(p)
  {
    if Recovers(p) { RecoverStepsAreBounded(cfg, m, p, ch); } else { UnlockStepsAreBounded(cfg, m, p, ch); }
  }

  lemma UnlockStepsAreBounded(cfg: Config, m: Machine, p: Process, ch: Choice)
    requires p != Finished && !Recovers(p)
    ensures Rank(RunProcess(cfg, m, p, ch).1) < Rank(p)
  {
  }

  lemma RecoverStepsAreBounded(cfg: Config, m: Machine, p: Process, ch: Choice)
    requires Recovers(p) && !p.Abandoned?
    ensures Rank(RunProcess(cfg, m, p, ch).1) < Rank(p)
  {
    if p.Verifying? {
      VerifyingIsBounded(cfg, m, p.token, p.restore, p.check, ch);
    } else if p.RecoverRevalidating? {
      RevalidatingIsBounded(cfg, m, p.r, ch);
    } else if !p.Watching? {
      PlainRecoverIsBounded(cfg, m, p, ch);
    }
  }

  lemma VerifyingIsBounded(cfg: Config, m: Machine, token: nat, restore: bool, check: Check, ch: Choice)
    ensures Rank(RunVerifying(cfg, m, token, restore, check, ch).1) < Rank(Verifying(token, restore, check))
  {
  }

  lemma RevalidatingIsBounded(cfg: Config, m: Machine, r: Refresh, ch: Choice)
    ensures Rank(RunRecover(cfg, m, RecoverRevalidating(r), ch).1) < Rank(RecoverRevalidating(r))
  {
  }

  lemma PlainRecoverIsBounded(cfg: Config, m: Machine, p: Process, ch: Choice)
    requires Recovers(p) && !p.Abandoned? && !p.Verifying? && !p.RecoverRevalidating? && !p.Watching?
    ensures Rank(RunRecover(cfg, m, p, ch).1) < Rank(p)
  {
    if p.RecoverUpdating? || p.RecoverFinalizing? || p.RecoverHanding? || p.RecoverWatching? {
      LateRecoverIsBounded(cfg, m, p, ch);
    } else {
      EarlyRecoverIsBounded(cfg, m, p, ch);
    }
  }

  lemma EarlyRecoverIsBounded(cfg: Config, m: Machine, p: Process, ch: Choice)
    requires p.RecoverEntry? || p.RecoverCharge? || p.RecoverFetching? || p.RecoverBuilt? || p.RecoverProbing? || p.RecoverReserve?
    ensures Rank(RunRecover(cfg, m, p, ch).1) < Rank(p)
  {
  }

  lemma LateRecoverIsBounded(cfg: Config, m: Machine, p: Process, ch: Choice)
    requires p.RecoverUpdating? || p.RecoverFinalizing? || p.RecoverHanding? || p.RecoverWatching?
    ensures Rank(RunRecover(cfg, m, p, ch).1) < Rank(p)
  {
  }

  function StepsOf(es: seq<Event>, pid: nat): nat
    decreases es
  {
    if es == [] then 0 else (if es[0].Run? && es[0].pid == pid then 1 else 0) + StepsOf(es[1..], pid)
  }

  predicate Over(p: Process) { p == Finished || p.Abandoned? }

  lemma EventLowersRank(cfg: Config, w: World, e: Event, pid: nat)
    requires pid in w.procs
    ensures var w' := Exec(cfg, w, e);
            && pid in w'.procs
            && Rank(w'.procs[pid]) <= Rank(w.procs[pid])
            && (e.Run? && e.pid == pid && !Over(w.procs[pid]) ==> Rank(w'.procs[pid]) < Rank(w.procs[pid]))
  {
    if e.Run? && e.pid == pid && !Over(w.procs[pid]) { OwnStepsAreBounded(cfg, w.machine, w.procs[pid], e.choice); }
    DropLowersRank(cfg, w.procs[pid]);
  }

  lemma DropLowersRank(cfg: Config, p: Process)
    ensures Rank(Cancelled(cfg, p)) <= Rank(p) && (Rank(p) == 0 <==> Over(p))
  {
  }

  lemma {:induction false} EnoughStepsFinish(cfg: Config, w: World, es: seq<Event>, pid: nat)
    requires pid in w.procs && StepsOf(es, pid) >= Rank(w.procs[pid])
    ensures var w' := ExecAll(cfg, w, es); pid in w'.procs && Over(w'.procs[pid])
    decreases es
  {
    DropLowersRank(cfg, w.procs[pid]);
    if es != [] {
      EventLowersRank(cfg, w, es[0], pid);
      EnoughStepsFinish(cfg, Exec(cfg, w, es[0]), es[1..], pid);
    }
  }

  /** A token never passes from one process to another. */
  lemma {:induction false} TokensStay(cfg: Config, w: World, es: seq<Event>, pid: nat, g: nat)
    requires Sound(cfg, w) && g <= w.machine.generation
    requires forall q :: Holds(w, q, g) ==> q == pid
    ensures forall q :: Holds(ExecAll(cfg, w, es), q, g) ==> q == pid
    decreases es
  {
    if es != [] {
      var w1 := Exec(cfg, w, es[0]);
      ExecSound(cfg, w, es[0]);
      if es[0].Run? && es[0].pid in w.procs {
        ProcessStep(cfg, w.machine, w.procs[es[0].pid], es[0].choice);
      }
      forall q | Holds(w1, q, g) ensures q == pid {
        assert Holds(w, q, g);
      }
      TokensStay(cfg, w1, es[1..], pid, g);
    }
  }

  /**
   Bounded release.  Whoever owns a reservation gives it up after a fixed number of
   its own steps, however the other processes are interleaved: after any continuation
   in which it takes 37 steps, the machine is Unlocking under that token only if the
   owner was dropped without a guard.
   */
  lemma ReservationIsReleased(cfg: Config, es: seq<Event>, later: seq<Event>, pid: nat)
    requires var w := ExecAll(cfg, Boot(cfg), es);
             w.machine.state == Unlocking && Owns(w, pid, w.machine.generation)
    requires StepsOf(later, pid) >= 37
    ensures var w := ExecAll(cfg, Boot(cfg), es); var w' := ExecAll(cfg, w, later);
            w'.machine.state == Unlocking && w'.machine.generation == w.machine.generation ==>
              pid in w'.procs && w'.procs[pid] == Abandoned(w.machine.generation)
  {
    ExecAllSound(cfg, Boot(cfg), es);
    var w := ExecAll(cfg, Boot(cfg), es);
    var w' := ExecAll(cfg, w, later);
    ExecAllSound(cfg, w, later);
    EnoughStepsFinish(cfg, w, later, pid);
    TokensStay(cfg, w, later, pid, w.machine.generation);
    assert NotStranded(w');
    if w'.machine.state == Unlocking && w'.machine.generation == w.machine.generation {
      var q :| Holds(w', q, w'.machine.generation);
      assert q == pid;
    }
  }
}
