/** The isolated check lane of scripts/check_workspace.py as a step relation: any number of controllers,
    gate supervisors and commands share one lane directory, and any of them may die at any step. */
module LaneProtocol {
  import opened Wrappers

  type Run = nat
  type Pid = nat

  /** How far a controller has got in `run_isolated`. */
  datatype Phase =
    | Waiting                 // source captured, polling the lease
    | Leased                  // flock succeeded, marker not yet looked at
    | Cleared                 // marker seen absent; validating the lane
    | Syncing                 // marker written; changing the source tree
    | Synced                  // tree verified, manifest stored; about to start the gate
    | Supervising             // gate started
    | Reaped(status: int)     // `supervise` returned this status
    | Confirmed(status: int)  // the completed receipt holds the same status
    | Finished(status: int)   // marker removed
    | Dead                    // returned, raised or killed

  datatype Role = Gate | Command

  /** A live process that inherited a run's lease descriptor. */
  datatype Worker = Worker(run: Run, role: Role)

  /** Who wrote the `incomplete` marker; `Prior` is one found at the start. */
  datatype Mark = Prior | By(run: Run)

  datatype State = State(
    controllers: map<Run, Phase>,
    workers: map<Pid, Worker>,
    spawned: set<Pid>,              // every pid used so far
    owner: Option<Run>,             // the run whose open file description last took the lock
    marker: Option<Mark>,
    tree: Option<Run>,              // whose captured entries the source tree holds exactly
    changes: seq<Run>,              // every change to the source tree, by run
    receipts: map<Run, int>,        // gate-completed.json
    exits: map<Run, int>,           // the gate process's own exit status
    cancelled: map<Run, int>)       // the signal that ended a controller's supervision

  datatype Step =
    | Arrive(run: Run)
    | Acquire(run: Run)
    | SeeMarker(run: Run)
    | SeeClear(run: Run)
    | WriteMarker(run: Run)
    | Change(run: Run)
    | FinishSync(run: Run)
    | SpawnGate(run: Run, pid: Pid)
    | SpawnCommand(parent: Pid, pid: Pid)
    | WriteReceipt(pid: Pid, status: int)
    | GateEnds(pid: Pid, status: int)
    | CommandEnds(pid: Pid)
    | Reap(run: Run)
    | ReapCancelled(run: Run, signal: int)
    | CheckReceipt(run: Run)
    | Unlink(run: Run)
    | Stop(run: Run)                // a timeout, an exception, a normal return or a crash

  predicate At(s: State, run: Run, phase: Phase) {
    run in s.controllers && s.controllers[run] == phase
  }

  /** A live controller that has taken the lease keeps the descriptor open until it stops. */
  predicate HoldsAsController(s: State, run: Run) {
    run in s.controllers && s.controllers[run] != Waiting && s.controllers[run] != Dead
  }

  predicate HoldsAsWorker(s: State, run: Run) {
    exists pid | pid in s.workers :: s.workers[pid].run == run
  }

  predicate Alive(s: State, run: Run) {
    HoldsAsController(s, run) || HoldsAsWorker(s, run)
  }

  /** flock: the lock lasts while any process holds the description that took it. */
  predicate LeaseHeld(s: State) {
    s.owner.Some? && Alive(s, s.owner.value)
  }

  /** The gate's last two statements write its result and exit with it, of which a process keeps the low eight
      bits; a negative status is a death by signal. */
  predicate ExitsWith(receipt: int, status: int) {
    status < 0 || status == receipt % 256
  }

  predicate Enabled(s: State, step: Step) {
    match step
    case Arrive(run) => run !in s.controllers
    case Acquire(run) => At(s, run, Waiting) && !LeaseHeld(s)
    case SeeMarker(run) => At(s, run, Leased) && s.marker.Some?
    case SeeClear(run) => At(s, run, Leased) && s.marker.None?
    case WriteMarker(run) => At(s, run, Cleared)
    case Change(run) => At(s, run, Syncing)
    case FinishSync(run) => At(s, run, Syncing)
    case SpawnGate(run, pid) => At(s, run, Synced) && pid !in s.spawned
    case SpawnCommand(parent, pid) => parent in s.workers && pid !in s.spawned
    case WriteReceipt(pid, _) => pid in s.workers && s.workers[pid].role == Gate && s.workers[pid].run !in s.receipts
    case GateEnds(pid, status) =>
      && pid in s.workers && s.workers[pid].role == Gate && status <= 255
      && (s.workers[pid].run in s.receipts ==> ExitsWith(s.receipts[s.workers[pid].run], status))
    case CommandEnds(pid) => pid in s.workers && s.workers[pid].role == Command
    case Reap(run) => At(s, run, Supervising) && run in s.exits
    case ReapCancelled(run, signal) => At(s, run, Supervising) && run in s.exits && signal in {1, 2, 15}
    case CheckReceipt(run) => run in s.controllers && s.controllers[run].Reaped?
    case Unlink(run) => run in s.controllers && s.controllers[run].Confirmed?
    case Stop(run) => run in s.controllers && s.controllers[run] != Dead
  }

  function Move(s: State, run: Run, phase: Phase): State {
    s.(controllers := s.controllers[run := phase])
  }

  function Apply(s: State, step: Step): State
    requires Enabled(s, step)
  {
    match step
    case Arrive(run) => Move(s, run, Waiting)
    case Acquire(run) => Move(s, run, Leased).(owner := Some(run))
    case SeeMarker(run) => Move(s, run, Dead)
    case SeeClear(run) => Move(s, run, Cleared)
    case WriteMarker(run) => Move(s, run, Syncing).(marker := Some(By(run)))
    case Change(run) => s.(tree := None, changes := s.changes + [run])
    case FinishSync(run) => Move(s, run, Synced).(tree := Some(run))
    case SpawnGate(run, pid) => Spawn(Move(s, run, Supervising), pid, Worker(run, Gate))
    case SpawnCommand(parent, pid) => Spawn(s, pid, Worker(s.workers[parent].run, Command))
    case WriteReceipt(pid, status) => s.(receipts := s.receipts[s.workers[pid].run := status])
    case GateEnds(pid, status) =>
      s.(workers := s.workers - {pid}, exits := s.exits[s.workers[pid].run := status])
    case CommandEnds(pid) => s.(workers := s.workers - {pid})
    case Reap(run) =>
      // A negative return code is an unexpected death: `supervise` raises.
      Move(s, run, if s.exits[run] < 0 then Dead else Reaped(s.exits[run]))
    case ReapCancelled(run, signal) => Move(s, run, Reaped(128 + signal)).(cancelled := s.cancelled[run := signal])
    case CheckReceipt(run) =>
      var status := s.controllers[run].status;
      Move(s, run, if run in s.receipts && s.receipts[run] == status then Confirmed(status) else Dead)
    case Unlink(run) => Move(s, run, Finished(s.controllers[run].status)).(marker := None)
    case Stop(run) => Move(s, run, Dead)
  }

  function Spawn(s: State, pid: Pid, worker: Worker): State {
    s.(workers := s.workers[pid := worker], spawned := s.spawned + {pid})
  }

  /** The state after a run of steps, if each was possible when it was taken. */
  function Exec(s: State, steps: seq<Step>): Option<State>
    decreases |steps|
  {
    if steps == [] then Some(s)
    else if Enabled(s, steps[0]) then Exec(Apply(s, steps[0]), steps[1..])
    else None
  }

  /** A lane directory at rest: no process of ours yet, perhaps an old marker and an old tree. */
  predicate Initial(s: State) {
    && s.controllers == map[] && s.workers == map[] && s.spawned == {} && s.owner == None
    && (s.marker == None || s.marker == Some(Prior))
    && s.changes == [] && s.tree == None && s.receipts == map[] && s.exits == map[] && s.cancelled == map[]
  }

  ghost predicate Reachable(s: State) {
    exists init, steps :: Initial(init) && Exec(init, steps) == Some(s)
  }

  // ----- the inductive invariant

  /** The phases in which a run owns the marker it wrote. */
  predicate Marked(phase: Phase) {
    phase.Syncing? || phase.Synced? || phase.Supervising? || phase.Reaped? || phase.Confirmed?
  }

  predicate BeforeGate(phase: Phase) {
    phase.Waiting? || phase.Leased? || phase.Cleared? || phase.Syncing? || phase.Synced?
  }

  predicate PhaseOk(s: State, run: Run, phase: Phase) {
    && (phase != Waiting && phase != Dead ==> s.owner == Some(run))
    && (phase == Cleared ==> s.marker == None)
    && (Marked(phase) ==> s.marker == Some(By(run)))
    && (phase == Synced || phase == Supervising ==> s.tree == Some(run))
    && (BeforeGate(phase) ==> run !in s.exits && run !in s.receipts)
    && (run in s.exits && run in s.receipts ==> ExitsWith(s.receipts[run], s.exits[run]))
    && (run in s.exits ==> s.exits[run] <= 255)
    && (run in s.cancelled ==> phase.Reaped? || phase.Confirmed? || phase.Finished? || phase.Dead?)
    && (phase.Reaped? || phase.Confirmed? ==> SupervisedStatus(s, run, phase.status))
    && (phase.Confirmed? ==> run in s.receipts && s.receipts[run] == phase.status)
  }

  /** What `supervise` may return: the gate's exit status, or 128 plus the signal that cancelled it. */
  predicate SupervisedStatus(s: State, run: Run, status: int) {
    && run in s.exits
    && if run in s.cancelled then s.cancelled[run] in {1, 2, 15} && status == 128 + s.cancelled[run]
       else status == s.exits[run] >= 0
  }

  predicate WorkerOk(s: State, pid: Pid)
    requires pid in s.workers
  {
    var w := s.workers[pid];
    && pid in s.spawned
    && s.owner == Some(w.run)
    && s.tree == Some(w.run)
    && w.run in s.controllers && !BeforeGate(s.controllers[w.run])
    && (w.role == Gate ==> w.run !in s.exits)
  }

  ghost predicate Inv(s: State) {
    && (forall run | run in s.controllers :: PhaseOk(s, run, s.controllers[run]))
    && (forall pid | pid in s.workers :: WorkerOk(s, pid))
    && (forall p, q | p in s.workers && q in s.workers && s.workers[p].role == s.workers[q].role == Gate :: p == q)
    && s.exits.Keys <= s.controllers.Keys && s.receipts.Keys <= s.controllers.Keys
    && s.cancelled.Keys <= s.controllers.Keys
    && (s.marker.Some? && s.marker.value.By? ==> MarkerOk(s, s.marker.value.run))
  }

  predicate MarkerOk(s: State, run: Run) {
    run in s.controllers && (Marked(s.controllers[run]) || s.controllers[run] == Dead)
  }

  lemma WaitingKeepsInv(s: State, run: Run)
    requires Inv(s) && run !in s.controllers
    ensures Inv(Move(s, run, Waiting))
  {
    hide ExitsWith;
    var t := Move(s, run, Waiting);
    forall r | r in t.controllers ensures PhaseOk(t, r, t.controllers[r]) {
      assert r in s.controllers ==> PhaseOk(s, r, s.controllers[r]);
    }
  }

  lemma ArriveKeepsInv(s: State, step: Step)
    requires Inv(s) && Enabled(s, step) && step.Arrive?
    ensures Inv(Apply(s, step))
  {
    hide Inv, LeaseHeld;
    WaitingKeepsInv(s, step.run);
  }

  lemma AcquireKeepsInv(s: State, step: Step)
    requires Inv(s) && Enabled(s, step) && step.Acquire?
    ensures Inv(Apply(s, step))
  {
    hide ExitsWith, SupervisedStatus;
  }

  lemma DeathKeepsInv(s: State, run: Run)
    requires Inv(s) && run in s.controllers
    ensures Inv(Move(s, run, Dead))
  {
    var t := Move(s, run, Dead);
    forall r | r in t.controllers ensures PhaseOk(t, r, t.controllers[r]) {
      assert PhaseOk(s, r, s.controllers[r]);
    }
    forall pid | pid in t.workers ensures WorkerOk(t, pid) { assert WorkerOk(s, pid); }
  }

  lemma LooksKeepInv(s: State, step: Step)
    requires Inv(s) && Enabled(s, step) && (step.SeeMarker? || step.SeeClear?)
    ensures Inv(Apply(s, step))
  {
    hide Inv;
    if step.SeeMarker? { DeathKeepsInv(s, step.run); } else { ClearKeepsInv(s, step.run); }
  }

  lemma ClearKeepsInv(s: State, run: Run)
    requires Inv(s) && At(s, run, Leased) && s.marker.None?
    ensures Inv(Move(s, run, Cleared))
  {
    var t := Move(s, run, Cleared);
    forall r | r in t.controllers ensures PhaseOk(t, r, t.controllers[r]) {
      assert PhaseOk(s, r, s.controllers[r]);
    }
  }

  lemma StopKeepsInv(s: State, step: Step)
    requires Inv(s) && Enabled(s, step) && step.Stop?
    ensures Inv(Apply(s, step))
  {
    hide Inv;
    DeathKeepsInv(s, step.run);
  }

  lemma MarkKeepsInv(s: State, step: Step)
    requires Inv(s) && Enabled(s, step) && step.WriteMarker?
    ensures Inv(Apply(s, step))
  {
    hide LeaseHeld, ExitsWith;
  }

  /** Until its gate starts, the run that holds the lease has the lane to itself. */
  lemma NoWorkerYet(s: State, run: Run)
    requires Inv(s) && run in s.controllers && s.owner == Some(run) && BeforeGate(s.controllers[run])
    ensures s.workers == map[]
  {
    hide PhaseOk;
    assert forall pid | pid in s.workers :: WorkerOk(s, pid);
    assert s.workers.Keys == {};
  }

  lemma TreeKeepsInv(s: State, run: Run, tree: Option<Run>, changes: seq<Run>)
    requires Inv(s) && At(s, run, Syncing)
    ensures Inv(s.(tree := tree, changes := changes))
  {
    hide ExitsWith;
    var t := s.(tree := tree, changes := changes);
    assert PhaseOk(s, run, s.controllers[run]);
    NoWorkerYet(s, run);
    forall r | r in t.controllers ensures PhaseOk(t, r, t.controllers[r]) {
      assert PhaseOk(s, r, s.controllers[r]);
    }
  }

  lemma SyncedKeepsInv(s: State, run: Run)
    requires Inv(s) && At(s, run, Syncing) && s.tree == Some(run)
    ensures Inv(Move(s, run, Synced))
  {
    hide ExitsWith;
    var t := Move(s, run, Synced);
    assert PhaseOk(s, run, s.controllers[run]);
    NoWorkerYet(s, run);
    forall r | r in t.controllers ensures PhaseOk(t, r, t.controllers[r]) {
      assert PhaseOk(s, r, s.controllers[r]);
    }
  }

  lemma SyncKeepsInv(s: State, step: Step)
    requires Inv(s) && Enabled(s, step) && (step.Change? || step.FinishSync?)
    ensures Inv(Apply(s, step))
  {
    hide Inv, LeaseHeld;
    if step.Change? {
      TreeKeepsInv(s, step.run, None, s.changes + [step.run]);
    } else {
      TreeKeepsInv(s, step.run, Some(step.run), s.changes);
      SyncedKeepsInv(s.(tree := Some(step.run)), step.run);
    }
  }

  lemma GateKeepsInv(s: State, run: Run, pid: Pid)
    requires Inv(s) && At(s, run, Synced) && pid !in s.spawned
    ensures Inv(Spawn(Move(s, run, Supervising), pid, Worker(run, Gate)))
  {
    hide ExitsWith, SupervisedStatus;
    var t := Spawn(Move(s, run, Supervising), pid, Worker(run, Gate));
    assert PhaseOk(s, run, s.controllers[run]);
    NoWorkerYet(s, run);
    forall r | r in t.controllers ensures PhaseOk(t, r, t.controllers[r]) {
      assert PhaseOk(s, r, s.controllers[r]);
    }
    assert t.workers == map[pid := Worker(run, Gate)];
  }

  lemma SpawnGateKeepsInv(s: State, step: Step)
    requires Inv(s) && Enabled(s, step) && step.SpawnGate?
    ensures Inv(Apply(s, step))
  {
    hide Inv, LeaseHeld;
    GateKeepsInv(s, step.run, step.pid);
  }

  lemma CommandKeepsInv(s: State, parent: Pid, pid: Pid)
    requires Inv(s) && parent in s.workers && pid !in s.spawned
    ensures Inv(Spawn(s, pid, Worker(s.workers[parent].run, Command)))
  {
    hide ExitsWith;
    var t := Spawn(s, pid, Worker(s.workers[parent].run, Command));
    forall r | r in t.controllers ensures PhaseOk(t, r, t.controllers[r]) {
      assert PhaseOk(s, r, s.controllers[r]);
    }
  }

  lemma SpawnCommandKeepsInv(s: State, step: Step)
    requires Inv(s) && Enabled(s, step) && step.SpawnCommand?
    ensures Inv(Apply(s, step))
  {
    hide Inv, LeaseHeld;
    CommandKeepsInv(s, step.parent, step.pid);
  }

  lemma ReceiptKeepsInv(s: State, step: Step)
    requires Inv(s) && Enabled(s, step) && step.WriteReceipt?
    ensures Inv(Apply(s, step))
  {
    hide LeaseHeld, Marked;
  }

  lemma CommandEndKeepsInv(s: State, step: Step)
    requires Inv(s) && Enabled(s, step) && step.CommandEnds?
    ensures Inv(Apply(s, step))
  {
    hide LeaseHeld, Marked, BeforeGate;
  }

  lemma ExitKeepsInv(s: State, pid: Pid, status: int)
    requires Inv(s) && pid in s.workers && s.workers[pid].role == Gate && status <= 255
    requires s.workers[pid].run in s.receipts ==> ExitsWith(s.receipts[s.workers[pid].run], status)
    ensures Inv(s.(workers := s.workers - {pid}, exits := s.exits[s.workers[pid].run := status]))
  {
    hide ExitsWith;
    var t := s.(workers := s.workers - {pid}, exits := s.exits[s.workers[pid].run := status]);
    assert WorkerOk(s, pid);
    forall r | r in t.controllers ensures PhaseOk(t, r, t.controllers[r]) {
      assert PhaseOk(s, r, s.controllers[r]);
    }
  }

  lemma GateEndKeepsInv(s: State, step: Step)
    requires Inv(s) && Enabled(s, step) && step.GateEnds?
    ensures Inv(Apply(s, step))
  {
    hide Inv, LeaseHeld;
    ExitKeepsInv(s, step.pid, step.status);
  }

  lemma ReapKeepsInv(s: State, step: Step)
    requires Inv(s) && Enabled(s, step) && step.Reap?
    ensures Inv(Apply(s, step))
  {
    hide Inv;
    if s.exits[step.run] < 0 { DeathKeepsInv(s, step.run); } else { ReapedKeepsInv(s, step.run); }
  }

  lemma ReapedKeepsInv(s: State, run: Run)
    requires Inv(s) && At(s, run, Supervising) && run in s.exits && s.exits[run] >= 0
    ensures Inv(Move(s, run, Reaped(s.exits[run])))
  {
    var t := Move(s, run, Reaped(s.exits[run]));
    forall r | r in t.controllers ensures PhaseOk(t, r, t.controllers[r]) {
      assert PhaseOk(s, r, s.controllers[r]);
    }
    forall pid | pid in t.workers ensures WorkerOk(t, pid) { assert WorkerOk(s, pid); }
  }

  lemma CancelledKeepsInv(s: State, run: Run, signal: int)
    requires Inv(s) && At(s, run, Supervising) && run in s.exits && signal in {1, 2, 15}
    ensures Inv(Move(s, run, Reaped(128 + signal)).(cancelled := s.cancelled[run := signal]))
  {
    hide ExitsWith;
    var t := Move(s, run, Reaped(128 + signal)).(cancelled := s.cancelled[run := signal]);
    forall r | r in t.controllers ensures PhaseOk(t, r, t.controllers[r]) {
      assert PhaseOk(s, r, s.controllers[r]);
    }
  }

  lemma CancelKeepsInv(s: State, step: Step)
    requires Inv(s) && Enabled(s, step) && step.ReapCancelled?
    ensures Inv(Apply(s, step))
  {
    hide Inv, LeaseHeld;
    CancelledKeepsInv(s, step.run, step.signal);
  }

  lemma ConfirmKeepsInv(s: State, run: Run)
    requires Inv(s) && run in s.controllers && s.controllers[run].Reaped?
    requires run in s.receipts && s.receipts[run] == s.controllers[run].status
    ensures Inv(Move(s, run, Confirmed(s.controllers[run].status)))
  {
    var t := Move(s, run, Confirmed(s.controllers[run].status));
    forall r | r in t.controllers ensures PhaseOk(t, r, t.controllers[r]) {
      assert PhaseOk(s, r, s.controllers[r]);
    }
    forall pid | pid in t.workers ensures WorkerOk(t, pid) { assert WorkerOk(s, pid); }
  }

  lemma CheckKeepsInv(s: State, step: Step)
    requires Inv(s) && Enabled(s, step) && step.CheckReceipt?
    ensures Inv(Apply(s, step))
  {
    hide Inv;
    var run := step.run;
    if run in s.receipts && s.receipts[run] == s.controllers[run].status {
      ConfirmKeepsInv(s, run);
    } else {
      DeathKeepsInv(s, run);
    }
  }

  lemma UnmarkedKeepsInv(s: State, run: Run)
    requires Inv(s) && run in s.controllers && s.controllers[run].Confirmed?
    ensures Inv(Move(s, run, Finished(s.controllers[run].status)).(marker := None))
  {
    hide ExitsWith;
    var t := Move(s, run, Finished(s.controllers[run].status)).(marker := None);
    forall r | r in t.controllers ensures PhaseOk(t, r, t.controllers[r]) {
      assert PhaseOk(s, r, s.controllers[r]);
    }
  }

  lemma UnlinkKeepsInv(s: State, step: Step)
    requires Inv(s) && Enabled(s, step) && step.Unlink?
    ensures Inv(Apply(s, step))
  {
    hide Inv, LeaseHeld;
    UnmarkedKeepsInv(s, step.run);
  }

  lemma StepKeepsInv(s: State, step: Step)
    requires Inv(s) && Enabled(s, step)
    ensures Inv(Apply(s, step))
  {
    hide Inv, Enabled, Apply;
    match step
    case Arrive(_) => ArriveKeepsInv(s, step);
    case Acquire(_) => AcquireKeepsInv(s, step);
    case SeeMarker(_) | SeeClear(_) => LooksKeepInv(s, step);
    case Stop(_) => StopKeepsInv(s, step);
    case WriteMarker(_) => MarkKeepsInv(s, step);
    case Change(_) | FinishSync(_) => SyncKeepsInv(s, step);
    case SpawnGate(_, _) => SpawnGateKeepsInv(s, step);
    case SpawnCommand(_, _) => SpawnCommandKeepsInv(s, step);
    case WriteReceipt(_, _) => ReceiptKeepsInv(s, step);
    case CommandEnds(_) => CommandEndKeepsInv(s, step);
    case GateEnds(_, _) => GateEndKeepsInv(s, step);
    case Reap(_) => ReapKeepsInv(s, step);
    case ReapCancelled(_, _) => CancelKeepsInv(s, step);
    case CheckReceipt(_) => CheckKeepsInv(s, step);
    case Unlink(_) => UnlinkKeepsInv(s, step);
  }

  lemma {:induction false} ExecKeepsInv(s: State, steps: seq<Step>)
    requires Inv(s) && Exec(s, steps).Some?
    ensures Inv(Exec(s, steps).value)
    decreases |steps|
  {
    hide Inv, Enabled, Apply;
    if steps == [] {
    } else {
      StepKeepsInv(s, steps[0]);
      ExecKeepsInv(Apply(s, steps[0]), steps[1..]);
    }
  }

  lemma ReachableInv(s: State)
    requires Reachable(s)
    ensures Inv(s)
  {
    hide Enabled, Apply;
    var init, steps :| Initial(init) && Exec(init, steps) == Some(s);
    ExecKeepsInv(init, steps);
  }

  // ----- mutual exclusion

  /** Two runs are never in the lane at once: as long as the controller, gate or any cooperating command
      of one run lives, the lease is that run's, is held, and no other controller can take it. */
  lemma LaneIsExclusive(s: State, run: Run, other: Run)
    requires Reachable(s) && Alive(s, run)
    ensures s.owner == Some(run) && LeaseHeld(s)
    ensures !Enabled(s, Acquire(other))
    ensures Alive(s, other) ==> other == run
  {
    ReachableInv(s);
  }

  /** While a gate or command of a run lives, the source tree holds exactly what that run captured. */
  lemma GateSeesItsCapture(s: State, pid: Pid)
    requires Reachable(s) && pid in s.workers
    ensures s.tree == Some(s.workers[pid].run)
  {
    ReachableInv(s);
  }

  // ----- an abandoned run blocks the lane

  /** The marker is present and no live controller answers for it. */
  predicate Abandoned(s: State) {
    s.marker.Some? && (s.marker.value.By? ==> !HoldsAsController(s, s.marker.value.run))
  }

  /** A new gate or a change of source, as opposed to an old run's leftover processes winding down. */
  predicate Uses(step: Step) {
    step.WriteMarker? || step.Change? || step.FinishSync? || step.SpawnGate? || step.Unlink?
  }

  lemma AbandonedStep(s: State, step: Step)
    requires Inv(s) && Abandoned(s) && Enabled(s, step)
    ensures !Uses(step)
    ensures var t := Apply(s, step);
      Abandoned(t) && t.marker == s.marker && t.tree == s.tree && t.changes == s.changes
  {
  }

  /** Once a run has died after writing the marker, no later step of anyone changes the source tree,
      starts a gate or removes the marker. */
  lemma {:induction false} AbandonedForever(s: State, steps: seq<Step>)
    requires Inv(s) && Abandoned(s) && Exec(s, steps).Some?
    ensures var t := Exec(s, steps).value;
      Abandoned(t) && t.marker == s.marker && t.tree == s.tree && t.changes == s.changes
    ensures forall step :: step in steps ==> !Uses(step)
    decreases |steps|
  {
    hide Inv, Enabled, Apply, Abandoned, Uses;
    if steps == [] {
    } else {
      AbandonedStep(s, steps[0]);
      StepKeepsInv(s, steps[0]);
      AbandonedForever(Apply(s, steps[0]), steps[1..]);
      assert steps == [steps[0]] + steps[1..];
    }
  }

  /** A controller that dies anywhere between writing the marker and removing it abandons the lane. */
  lemma DeathAbandons(s: State, run: Run, steps: seq<Step>)
    requires Reachable(s) && run in s.controllers && Marked(s.controllers[run])
    requires Exec(Apply(s, Stop(run)), steps).Some?
    ensures var t := Exec(Apply(s, Stop(run)), steps).value;
      t.marker == Some(By(run)) && t.changes == s.changes && t.tree == s.tree
    ensures forall step :: step in steps ==> !Uses(step)
  {
    ReachableInv(s);
    var dead := Apply(s, Stop(run));
    StepKeepsInv(s, Stop(run));
    assert Abandoned(dead) && dead.marker == Some(By(run));
    AbandonedForever(dead, steps);
  }

  // ----- when the marker goes away

  /** The marker disappears only when its own run removes it, after its gate has ended and left a
      completed receipt equal to the supervised status. The receipt is the gate's exit status exactly
      unless the controller was cancelled and the gate was killed after it had recorded its result. */
  lemma MarkerRemoved(s: State, step: Step)
    requires Reachable(s) && Enabled(s, step) && s.marker.Some? && Apply(s, step).marker.None?
    ensures step.Unlink?
    ensures var run := step.run;
      && s.marker == Some(By(run)) && run in s.receipts && run in s.exits
      && s.controllers[run] == Confirmed(s.receipts[run])
      && (forall pid :: pid in s.workers ==> s.workers[pid] != Worker(run, Gate))
      && (run in s.cancelled ==> s.cancelled[run] in {1, 2, 15} && s.receipts[run] == 128 + s.cancelled[run])
      && (s.receipts[run] == s.exits[run] <==> run !in s.cancelled || s.exits[run] >= 0)
      && Removable(s.receipts[run], s.exits[run])
  {
    hide Reachable;
    ReachableInv(s);
    RemovalByOwner(s, step);
  }

  lemma RemovalByOwner(s: State, step: Step)
    requires Inv(s) && Enabled(s, step) && s.marker.Some? && Apply(s, step).marker.None?
    ensures step.Unlink? && step.run in s.controllers && s.controllers[step.run].Confirmed?
    ensures PhaseOk(s, step.run, s.controllers[step.run])
    ensures forall pid :: pid in s.workers ==> s.workers[pid] != Worker(step.run, Gate)
  {
    hide LeaseHeld, ExitsWith;
  }

  /** A receipt and an exit status the marker may go away with. */
  predicate Removable(receipt: int, exit: int) {
    0 <= receipt == exit <= 255 || (receipt in {129, 130, 143} && exit < 0)
  }

  lemma {:induction false} ExecAppend(s: State, a: seq<Step>, b: seq<Step>)
    requires Exec(s, a).Some?
    ensures Exec(s, a + b) == Exec(Exec(s, a).value, b)
    decreases |a|
  {
    hide Enabled, Apply;
    if a == [] {
      assert a + b == b;
    } else {
      ExecAppend(Apply(s, a[0]), a[1..], b);
      assert (a + b)[1..] == a[1..] + b;
    }
  }

  lemma OneStep(s: State, step: Step)
    requires Enabled(s, step)
    ensures Exec(s, [step]) == Some(Apply(s, step))
  {
    assert [step][1..] == [];
  }

  lemma Extend(s: State, steps: seq<Step>, step: Step)
    requires Exec(s, steps).Some? && Enabled(Exec(s, steps).value, step)
    ensures Exec(s, steps + [step]) == Some(Apply(Exec(s, steps).value, step))
  {
    hide Enabled, Apply;
    ExecAppend(s, steps, [step]);
    OneStep(Exec(s, steps).value, step);
  }

  lemma SyncGoesThrough(s: State, run: Run) returns (steps: seq<Step>)
    requires At(s, run, Waiting) && !LeaseHeld(s) && s.marker == None
    ensures Exec(s, steps)
         == Some(Move(s, run, Synced).(owner := Some(run), marker := Some(By(run)), tree := Some(run)))
  {
    hide Alive, LeaseHeld;
    steps := [Acquire(run)];
    OneStep(s, Acquire(run));
    Extend(s, steps, SeeClear(run));
    steps := steps + [SeeClear(run)];
    Extend(s, steps, WriteMarker(run));
    steps := steps + [WriteMarker(run)];
    Extend(s, steps, FinishSync(run));
    steps := steps + [FinishSync(run)];
    assert s.controllers[run := Leased][run := Cleared][run := Syncing][run := Synced]
        == s.controllers[run := Synced];
  }

  lemma GateEndsRun(s: State, run: Run, pid: Pid, receipt: int, exit: int) returns (steps: seq<Step>)
    requires At(s, run, Synced) && pid !in s.spawned && run !in s.receipts
    requires ExitsWith(receipt, exit) && exit <= 255
    ensures Exec(s, steps).Some?
    ensures var t := Exec(s, steps).value;
      && At(t, run, Supervising) && run in t.receipts && t.receipts[run] == receipt
      && run in t.exits && t.exits[run] == exit
      && t.tree == s.tree && t.cancelled == s.cancelled
  {
    hide LeaseHeld;
    steps := [SpawnGate(run, pid)];
    OneStep(s, SpawnGate(run, pid));
    Extend(s, steps, WriteReceipt(pid, receipt));
    steps := steps + [WriteReceipt(pid, receipt)];
    Extend(s, steps, GateEnds(pid, exit));
    steps := steps + [GateEnds(pid, exit)];
  }

  /** How the controller ends its supervision: with the gate's own status, or cancelled. */
  predicate Reaps(reap: Step, run: Run, receipt: int, exit: int) {
    || (reap == Reap(run) && receipt == exit >= 0)
    || (reap.ReapCancelled? && reap.run == run && reap.signal in {1, 2, 15} && receipt == 128 + reap.signal)
  }

  lemma ReapConfirms(s: State, run: Run, reap: Step, receipt: int) returns (steps: seq<Step>)
    requires At(s, run, Supervising) && run in s.exits && run in s.receipts && s.receipts[run] == receipt
    requires Reaps(reap, run, receipt, s.exits[run])
    ensures Exec(s, steps).Some?
    ensures var t := Exec(s, steps).value;
      At(t, run, Confirmed(receipt)) && t.tree == s.tree && t.receipts == s.receipts && t.exits == s.exits
  {
    hide LeaseHeld;
    steps := [reap];
    OneStep(s, reap);
    Extend(s, steps, CheckReceipt(run));
    steps := steps + [CheckReceipt(run)];
  }

  /** Run `run` is about to remove the marker. */
  predicate Removes(s: State, run: Run, receipt: int, exit: int) {
    && At(s, run, Confirmed(receipt)) && run in s.receipts && s.receipts[run] == receipt
    && run in s.exits && s.exits[run] == exit
  }

  lemma GateConfirms(s: State, run: Run, pid: Pid, receipt: int, exit: int, reap: Step) returns (steps: seq<Step>)
    requires At(s, run, Synced) && pid !in s.spawned && run !in s.receipts
    requires Reaps(reap, run, receipt, exit) && ExitsWith(receipt, exit) && exit <= 255
    ensures Exec(s, steps).Some?
    ensures Removes(Exec(s, steps).value, run, receipt, exit) && Exec(s, steps).value.tree == s.tree
  {
    hide Enabled, Apply, Exec;
    var gate := GateEndsRun(s, run, pid, receipt, exit);
    var rest := ReapConfirms(Exec(s, gate).value, run, reap, receipt);
    steps := gate + rest;
    ExecAppend(s, gate, rest);
  }

  lemma GateGoesThrough(s: State, run: Run, pid: Pid, receipt: int, exit: int, reap: Step) returns (steps: seq<Step>)
    requires At(s, run, Synced) && pid !in s.spawned && run !in s.receipts
    requires Reaps(reap, run, receipt, exit) && ExitsWith(receipt, exit) && exit <= 255
    ensures Exec(s, steps).Some?
    ensures var t := Exec(s, steps).value;
      && At(t, run, Finished(receipt)) && t.marker == None && t.tree == s.tree
      && run in t.receipts && t.receipts[run] == receipt && run in t.exits && t.exits[run] == exit
  {
    hide Exec, LeaseHeld;
    steps := GateConfirms(s, run, pid, receipt, exit, reap);
    Extend(s, steps, Unlink(run));
    steps := steps + [Unlink(run)];
  }

  /** A lane nobody holds, without a marker, can always be used again, whatever earlier runs did: a
      waiting run gets through with any exit status of its gate and leaves the marker absent. */
  lemma LaneIsReusable(s: State, run: Run, pid: Pid, status: nat) returns (steps: seq<Step>)
    requires Reachable(s) && status <= 255
    requires At(s, run, Waiting) && !LeaseHeld(s) && s.marker == None && pid !in s.spawned
    ensures Exec(s, steps).Some?
    ensures var t := Exec(s, steps).value;
      At(t, run, Finished(status)) && t.marker == None && t.tree == Some(run)
  {
    hide LeaseHeld, Enabled, Apply, Exec;
    NoReceiptYet(s, run);
    var sync := SyncGoesThrough(s, run);
    var gate := GateGoesThrough(Exec(s, sync).value, run, pid, status, status, Reap(run));
    steps := sync + gate;
    ExecAppend(s, sync, gate);
  }

  lemma NoReceiptYet(s: State, run: Run)
    requires Reachable(s) && run in s.controllers && BeforeGate(s.controllers[run])
    ensures run !in s.receipts
  {
    hide LeaseHeld;
    ReachableInv(s);
    assert PhaseOk(s, run, s.controllers[run]);
  }

  /** The gap left by cancellation: whichever of the three signals it was, a gate may record 128 plus the
      signal and then be killed by any signal, and the marker still goes away. */
  lemma CancelledMismatch(s: State, run: Run, pid: Pid, signal: int, exit: int) returns (steps: seq<Step>)
    requires Reachable(s) && At(s, run, Synced) && pid !in s.spawned && signal in {1, 2, 15} && exit < 0
    ensures Exec(s, steps).Some?
    ensures var t := Exec(s, steps).value;
      && t.marker == None && At(t, run, Finished(128 + signal))
      && run in t.receipts && t.receipts[run] == 128 + signal && run in t.exits && t.exits[run] == exit
  {
    hide Enabled, Apply, Exec;
    NoReceiptYet(s, run);
    steps := GateGoesThrough(s, run, pid, 128 + signal, exit, ReapCancelled(run, signal));
  }

  function EmptyLane(): State {
    State(map[], map[], {}, None, None, None, [], map[], map[], map[])
  }

  lemma SomeRun(receipt: int, exit: int) returns (s: State, steps: seq<Step>)
    requires Removable(receipt, exit)
    ensures Exec(EmptyLane(), steps) == Some(s) && Removes(s, 0, receipt, exit)
  {
    var arrive := [Arrive(0)];
    OneStep(EmptyLane(), Arrive(0));
    var ready := Apply(EmptyLane(), Arrive(0));
    hide Enabled, Apply, Exec;
    var sync := SyncGoesThrough(ready, 0);
    var synced := Exec(ready, sync).value;
    var reap := if receipt == exit >= 0 then Reap(0) else ReapCancelled(0, receipt - 128);
    var gate := GateConfirms(synced, 0, 0, receipt, exit, reap);
    ExecAppend(ready, sync, gate);
    ExecAppend(EmptyLane(), arrive, sync + gate);
    steps := arrive + (sync + gate);
    s := Exec(synced, gate).value;
  }

  ghost predicate Possible(receipt: int, exit: int) {
    exists s, run :: Reachable(s) && Removes(s, run, receipt, exit)
  }

  /** The marker can go away with a receipt and an exit status exactly when they are one exit status, or the
      receipt is 128 plus one of the three handled signals and the gate was killed. */
  lemma RemovalPairs(receipt: int, exit: int)
    ensures Possible(receipt, exit) <==> Removable(receipt, exit)
  {
    hide Enabled, Apply, Exec, LeaseHeld;
    if Possible(receipt, exit) {
      var s, run :| Reachable(s) && Removes(s, run, receipt, exit);
      ReachableInv(s);
      assert PhaseOk(s, run, s.controllers[run]);
    }
    if Removable(receipt, exit) {
      var s, steps := SomeRun(receipt, exit);
      assert Reachable(s);
    }
  }

  // ----- gates that report only success or failure

  /** The result `run_checks` returns. */
  predicate PassOrFail(step: Step) {
    step.WriteReceipt? ==> step.status == 0 || step.status == 1
  }

  predicate CancelledBlocked(s: State) {
    && (forall run | run in s.receipts :: s.receipts[run] == 0 || s.receipts[run] == 1)
    && forall run | run in s.cancelled ::
         run in s.controllers && (s.controllers[run].Reaped? || s.controllers[run].Dead?) && s.marker == Some(By(run))
  }

  lemma CancelledStep(s: State, step: Step)
    requires Inv(s) && CancelledBlocked(s) && Enabled(s, step) && PassOrFail(step)
    ensures CancelledBlocked(Apply(s, step))
  {
    hide Inv, LeaseHeld;
    var t := Apply(s, step);
    forall run | run in t.cancelled
      ensures run in t.controllers && (t.controllers[run].Reaped? || t.controllers[run].Dead?)
      ensures t.marker == Some(By(run))
    {
      CancelledPhase(s, step, run);
    }
  }

  lemma CancelledPhase(s: State, step: Step, run: Run)
    requires Inv(s) && CancelledBlocked(s) && Enabled(s, step) && run in Apply(s, step).cancelled
    ensures var t := Apply(s, step);
      run in t.controllers && (t.controllers[run].Reaped? || t.controllers[run].Dead?) && t.marker == Some(By(run))
  {
    hide LeaseHeld, ExitsWith, SupervisedStatus;
    if run in s.cancelled {
      MarkerStays(s, step, run);
    } else {
      assert PhaseOk(s, run, s.controllers[run]);
    }
  }

  lemma MarkerStays(s: State, step: Step, run: Run)
    requires Inv(s) && CancelledBlocked(s) && Enabled(s, step) && run in s.cancelled
    ensures var t := Apply(s, step);
      run in t.controllers && (t.controllers[run].Reaped? || t.controllers[run].Dead?) && t.marker == Some(By(run))
  {
    assert forall r | r in s.controllers :: PhaseOk(s, r, s.controllers[r]);
    hide Inv, LeaseHeld, ExitsWith, SupervisedStatus;
  }

  lemma {:induction false} CancelledStaysBlocked(s: State, steps: seq<Step>)
    requires Inv(s) && CancelledBlocked(s) && Exec(s, steps).Some?
    requires forall step | step in steps :: PassOrFail(step)
    ensures CancelledBlocked(Exec(s, steps).value)
    decreases |steps|
  {
    hide Inv, Enabled, Apply, CancelledBlocked, PassOrFail;
    if steps == [] {
    } else {
      assert steps[0] in steps;
      CancelledStep(s, steps[0]);
      StepKeepsInv(s, steps[0]);
      CancelledStaysBlocked(Apply(s, steps[0]), steps[1..]);
    }
  }

  /** With gates that report 0 or 1, a cancelled run never removes its marker: from its cancellation on the
      lane is marked as its own. */
  lemma CancelledRunKeepsMarker(init: State, steps: seq<Step>, run: Run)
    requires Initial(init) && Exec(init, steps).Some? && run in Exec(init, steps).value.cancelled
    requires forall step | step in steps :: PassOrFail(step)
    ensures Exec(init, steps).value.marker == Some(By(run))
  {
    hide Exec;
    assert Inv(init) && CancelledBlocked(init);
    CancelledStaysBlocked(init, steps);
  }
}
