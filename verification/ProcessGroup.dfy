/** Anchored process-group cleanup, scripts/owned_process_group.py: `exited`,
    `confirm_terminal_after_disappearance` and `cleanup`, against an operating system whose answers,
    timing and failures are arbitrary. Times are in whole units of the clock. */
module ProcessGroup {
  import opened Wrappers

  /** The owned child. Its pid, which is also its group, stays reserved until it is reaped. */
  datatype Child = Running | Zombie | Reaped

  datatype Signal = TERM | KILL

  /** What the cleanup did and what the group showed it from the first signal on, in order; each call
      writes its own entry. A signal records when it was sent and the state it met: the child, and whether
      the pid had been recycled for somebody else's group. */
  datatype Action =
    | Signalled(signal: Signal, group: int, child: Child, recycled: bool, time: int)
    | Saw(live: nat, zombies: nat)   // an inventory
    | Blind                          // an inventory that failed
    | ReapedChild

  /** What the looks at the child itself gave, in order; each call writes its own entry. */
  datatype Sight =
    | Exit(exited: bool)             // waitid without reaping
    | Group(leader: Option<int>)     // getpgid; none when there is no such process
    | Failed(fault: Fault)

  datatype Fault =
    | NotOurChild           // ECHILD: somebody reaped it
    | Vanished              // ProcessLookupError not explained by an exit
    | IdentityLost          // the child is not its group's leader
    | OwnGroup              // the watchdog's own group
    | OsFailure             // any other failing call
    | TelemetryFailure      // an event callback error outside the caught classes
    | WaitTimeout
    | Unconfirmed           // members remained until the deadline, or no inventory fitted in

  // ----- the protocol as an automaton over the actions

  datatype Look = Looking | Clear | Lost

  datatype Stage =
    | Idle
    | Terminating(look: Look)
    | Killing(look: Look)
    | Waiting               // child reaped
    | Confirmed             // an inventory without members
    | Unsure                // an inventory failed after the reap

  function Observe(look: Look, a: Action): Option<Look> {
    match (look, a)
    case (Looking, Saw(live, _)) => Some(if live == 0 then Clear else Looking)
    case (Looking, Blind) => Some(Lost)
    case _ => None
  }

  /** Which action may follow which: SIGTERM first, SIGKILL unless an observation found no live member,
      then the reap, then inventories until one is empty. */
  function Advance(stage: Stage, a: Action, pid: int): Option<Stage> {
    match stage
    case Idle => if Anchored(a, TERM, pid) then Some(Terminating(Looking)) else None
    case Terminating(look) =>
      if Anchored(a, KILL, pid) && look != Clear then Some(Killing(Looking))
      else if a == ReapedChild && look == Clear then Some(Waiting)
      else (match Observe(look, a) case Some(l) => Some(Terminating(l)) case None => None)
    case Killing(look) =>
      if a == ReapedChild then Some(Waiting)
      else (match Observe(look, a) case Some(l) => Some(Killing(l)) case None => None)
    case Waiting =>
      (match a
       case Saw(live, zombies) => Some(if live == 0 && zombies == 0 then Confirmed else Waiting)
       case Blind => Some(Unsure)
       case _ => None)
    case Confirmed => None
    case Unsure => None
  }

  predicate Anchored(a: Action, signal: Signal, pid: int) {
    a.Signalled? && a.signal == signal && a.group == pid && a.child != Reaped && !a.recycled
  }

  function Follow(log: seq<Action>, pid: int): Option<Stage> {
    if log == [] then Some(Idle)
    else
      match Follow(log[..|log| - 1], pid)
      case None => None
      case Some(stage) => Advance(stage, log[|log| - 1], pid)
  }

  // ----- what the looks before the first signal came to

  predicate AllRunning(looks: seq<Sight>) {
    forall k | 0 <= k < |looks| :: looks[k] == Exit(false)
  }

  /** A running child whose group could not be found. */
  predicate NoGroup(looks: seq<Sight>) {
    |looks| > 2 && looks[0] == Exit(false) && looks[1] == Group(None)
  }

  /** The child has exited and waits to be reaped, or it leads its own group, or its group was not found and
      then it turned out to have exited. */
  predicate Ours(looks: seq<Sight>, pid: int) {
    || looks == [Exit(true)]
    || looks == [Exit(false), Group(Some(pid))]
    || (NoGroup(looks) && AllRunning(looks[2..|looks| - 1]) && looks[|looks| - 1] == Exit(true))
  }

  predicate InOtherGroup(looks: seq<Sight>, pid: int) {
    && |looks| == 2 && looks[0] == Exit(false)
    && looks[1].Group? && looks[1].leader.Some? && looks[1].leader.value != pid
  }

  predicate GroupMissing(looks: seq<Sight>) {
    NoGroup(looks) && AllRunning(looks[2..])
  }

  predicate LookFailed(looks: seq<Sight>, fault: Fault) {
    looks != [] && looks[|looks| - 1] == Failed(fault)
  }

  /** Before the grace is over SIGKILL follows only a failed observation. */
  predicate GraceKept(log: seq<Action>, grace: int) {
    forall i | 0 < i < |log| :: log[i].Signalled? && log[i].signal == KILL && log[0].Signalled? ==>
      log[i].time >= log[0].time + grace || log[i - 1] == Blind
  }

  /** The operating system as the watchdog sees it. Every call lets time pass, and time lets the child
      exit; a pid may be recycled only once its child is reaped. Nobody else reaps the child. */
  class System {
    const pid: int
    const ownGroup: int
    var child: Child
    var recycled: bool
    var clock: int
    ghost var log: seq<Action>
    ghost var looks: seq<Sight>
    ghost var complaints: nat   // telemetry errors of the caught classes so far

    predicate Valid()
      reads this
    {
      recycled ==> child == Reaped
    }

    constructor (pid: int, ownGroup: int, child: Child, recycled: bool, clock: int)
      requires recycled ==> child == Reaped
      ensures Valid() && log == [] && looks == [] && complaints == 0 && this.pid == pid && this.ownGroup == ownGroup
    {
      this.pid, this.ownGroup, this.child, this.recycled, this.clock := pid, ownGroup, child, recycled, clock;
      log, looks, complaints := [], [], 0;
    }

    method Elapse()
      requires Valid()
      modifies `child, `recycled, `clock
      ensures Valid() && clock >= old(clock)
      ensures child == Reaped <==> old(child) == Reaped
      ensures old(child) == Zombie ==> child == Zombie
    {
      var exits: bool := *;
      var reused: bool := *;
      var ticks: int := *;
      if child == Running && exits { child := Zombie; }
      if child == Reaped && reused { recycled := true; }
      if ticks > 0 { clock := clock + ticks; }
    }

    method Now() returns (now: int)
      requires Valid()
      modifies `child, `recycled, `clock
      ensures Valid() && old(clock) <= now == clock
      ensures child == Reaped <==> old(child) == Reaped
    {
      Elapse();
      now := clock;
    }

    method Sleep(units: int)
      requires Valid() && units > 0
      modifies `child, `recycled, `clock
      ensures Valid() && clock >= old(clock) + units
      ensures child == Reaped <==> old(child) == Reaped
    {
      Elapse();
      clock := clock + units;
    }

    /** `exited`: waitid with WNOHANG and WNOWAIT, which never reaps. */
    method Exited() returns (r: Result<bool, Fault>)
      requires Valid()
      modifies `child, `recycled, `clock, `looks
      ensures Valid() && clock >= old(clock)
      ensures child == Reaped <==> old(child) == Reaped
      ensures r.Ok? ==> child != Reaped && r.value == (child == Zombie)
      ensures r.Err? ==> r.error in {NotOurChild, OsFailure}
      ensures looks == old(looks) + [if r.Ok? then Exit(r.value) else Failed(r.error)]
    {
      Elapse();
      var fails: bool := *;
      r := if child == Reaped then Err(NotOurChild) else if fails then Err(OsFailure) else Ok(child == Zombie);
      looks := looks + [if r.Ok? then Exit(r.value) else Failed(r.error)];
    }

    /** `os.getpgid`: none stands for ProcessLookupError. */
    method GroupOf() returns (r: Result<Option<int>, Fault>)
      requires Valid()
      modifies `child, `recycled, `clock, `looks
      ensures Valid() && clock >= old(clock)
      ensures child == Reaped <==> old(child) == Reaped
      ensures r.Err? ==> r.error == OsFailure
      ensures looks == old(looks) + [if r.Ok? then Group(r.value) else Failed(r.error)]
    {
      Elapse();
      var group: int := *;
      var found: bool := *;
      var fails: bool := *;
      r := if fails then Err(OsFailure) else Ok(if found then Some(group) else None);
      looks := looks + [if r.Ok? then Group(r.value) else Failed(r.error)];
    }

    /** `os.killpg`: whether it raised one of the two tolerated errors is of no consequence. */
    method SignalGroup(signal: Signal)
      requires Valid()
      modifies `child, `recycled, `clock, `log
      ensures Valid() && clock >= old(clock)
      ensures child == Reaped <==> old(child) == Reaped
      ensures log == old(log) + [Signalled(signal, pid, old(child), old(recycled), old(clock))]
    {
      log := log + [Signalled(signal, pid, child, recycled, clock)];
      Elapse();
    }

    /** `members`: how many live and zombie members, or a failed observation. */
    method Members() returns (r: Result<(nat, nat), Fault>)
      requires Valid()
      modifies `child, `recycled, `clock, `log
      ensures Valid() && clock >= old(clock)
      ensures child == Reaped <==> old(child) == Reaped
      ensures r.Err? ==> r.error == OsFailure
      ensures log == old(log) + [if r.Ok? then Saw(r.value.0, r.value.1) else Blind]
    {
      Elapse();
      var live: nat :| true;
      var zombies: nat :| true;
      var fails: bool := *;
      r := if fails then Err(OsFailure) else Ok((live, zombies));
      log := log + [if r.Ok? then Saw(live, zombies) else Blind];
    }

    /** `process.wait(timeout=...)` */
    method Wait() returns (r: Result<(), Fault>)
      requires Valid() && child != Reaped
      modifies `child, `recycled, `clock, `log
      ensures Valid() && clock >= old(clock)
      ensures r.Ok? ==> child == Reaped && log == old(log) + [ReapedChild]
      ensures r.Err? ==> r.error == WaitTimeout && child != Reaped && log == old(log)
    {
      Elapse();
      if child != Zombie { return Err(WaitTimeout); }
      child := Reaped;
      log := log + [ReapedChild];
      r := Ok(());
    }

    /** `note`: telemetry errors of the caught classes are collected, others escape. */
    method Note(errors: nat) returns (r: Result<nat, Fault>)
      requires Valid() && errors == complaints
      modifies `child, `recycled, `clock, `complaints
      ensures Valid() && clock >= old(clock)
      ensures child == Reaped <==> old(child) == Reaped
      ensures old(complaints) <= complaints <= old(complaints) + 1
      ensures r.Ok? ==> r.value == complaints
      ensures r.Err? ==> r.error == TelemetryFailure
    {
      Elapse();
      var raises: bool := *;
      var caught: bool := *;
      if raises && !caught { return Err(TelemetryFailure); }
      if raises { complaints := complaints + 1; }
      r := Ok(if raises then errors + 1 else errors);
    }

    /** `confirm_terminal_after_disappearance`: looks until the child has exited, a look fails, or `timeout`
        has passed with the child still running at every look. */
    method ConfirmTerminal(timeout: int) returns (r: Result<bool, Fault>)
      requires Valid()
      modifies `child, `recycled, `clock, `looks
      ensures Valid() && clock >= old(clock)
      ensures child == Reaped <==> old(child) == Reaped
      ensures old(looks) < looks
      ensures AllRunning(looks[|old(looks)|..|looks| - 1])
      ensures looks[|looks| - 1] == if r.Ok? then Exit(r.value) else Failed(r.error)
      ensures r == Ok(true) ==> child == Zombie
      ensures r == Ok(false) ==> clock >= old(clock) + timeout
      ensures r.Err? ==> r.error in {NotOurChild, OsFailure}
    {
      var now := Now();
      var deadline := now + timeout;
      while true
        invariant Valid() && clock >= old(clock)
        invariant child == Reaped <==> old(child) == Reaped
        invariant old(looks) <= looks && AllRunning(looks[|old(looks)|..])
        decreases deadline - clock
      {
        ghost var before := looks;
        r := Exited();
        assert looks[|old(looks)|..|looks| - 1] == before[|old(looks)|..];
        if r.Err? || r.value { return; }
        now := Now();
        var remaining := deadline - now;
        if remaining <= 0 { return Ok(false); }
        Sleep(if remaining < 5 then remaining else 5);
      }
    }

    /** Watch the group after a signal until it has no live member, the wait is over, or looking fails. */
    method Watch(wait: int, errors: nat) returns (r: Result<(bool, nat), Fault>)
      requires Valid() && child != Reaped && errors == complaints
      requires Follow(log, pid) == Some(Terminating(Looking)) || Follow(log, pid) == Some(Killing(Looking))
      modifies `child, `recycled, `clock, `log, `complaints
      ensures Valid() && child != Reaped && clock >= old(clock)
      ensures r.Ok? ==> r.value.1 == complaints
      ensures SameSignal(old(log), log, pid)
      ensures r.Ok? ==> (r.value.0 <==> LookOf(log, pid) == Some(Clear))
      ensures r.Ok? && !r.value.0 ==> log[|log| - 1] == Blind || clock >= old(clock) + wait
      ensures r.Err? ==> r.error == TelemetryFailure
    {
      var empty := false;
      var now := Now();
      var deadline := now + wait;
      now := Now();
      var count := errors;
      while now < deadline
        invariant Valid() && child != Reaped && old(clock) <= now <= clock && count == complaints
        invariant SameSignal(old(log), log, pid) && LookOf(log, pid) == Some(Looking)
        decreases deadline - now
      {
        ghost var before := log;
        var inventory := Members();
        Extend(before, log[|before|], pid);
        if inventory.Err? {
          var noted := Note(count);
          if noted.Err? { return Err(noted.error); }
          return Ok((false, noted.value));
        }
        empty := inventory.value.0 == 0;
        if empty { return Ok((true, count)); }
        Sleep(20);
        now := Now();
      }
      r := Ok((false, count));
    }

    /** `cleanup`. The looks at the child decide whether its group may be signalled at all; from SIGTERM on
        the log follows the protocol. */
    method Cleanup(grace: int) returns (r: Result<nat, Fault>)
      requires Valid() && log == [] && looks == [] && complaints == 0
      modifies this
      ensures Valid() && Follow(log, pid).Some? && GraceKept(log, grace)
      ensures r.Ok? ==> Follow(log, pid) == Some(Confirmed) && child == Reaped && r.value == complaints
      ensures log != [] ==> old(child) != Reaped
      ensures child == Reaped ==> old(child) == Reaped || ReapedChild in log
      ensures log != [] <==> Ours(looks, pid) && pid != ownGroup
      ensures r == Err(OwnGroup) <==> Ours(looks, pid) && pid == ownGroup
      ensures r == Err(IdentityLost) <==> InOtherGroup(looks, pid)
      ensures r == Err(Vanished) <==> GroupMissing(looks)
      ensures r == Err(Vanished) ==> clock >= old(clock) + 250
      ensures log == [] && r.Err? && r.error !in {OwnGroup, IdentityLost, Vanished} ==> LookFailed(looks, r.error)
      ensures r == Err(WaitTimeout) ==>
        LookOf(log, pid) == Some(Clear) || (Follow(log, pid).value.Killing? && child != Reaped)
      ensures r == Err(Unconfirmed) ==> Follow(log, pid) == Some(Waiting) && clock >= old(clock) + 2000
      ensures r == Err(OsFailure) && log != [] ==> Follow(log, pid) == Some(Unsure)
    {
      hide Advance, Observe, Follow;
      NothingYet(pid);
      var terminal := Exited();
      assert looks[0] == if terminal.Ok? then Exit(terminal.value) else Failed(terminal.error);
      if terminal.Err? { return Err(terminal.error); }
      if !terminal.value {
        var group := GroupOf();
        assert looks[1] == if group.Ok? then Group(group.value) else Failed(group.error);
        if group.Err? { return Err(group.error); }
        if group.value.None? {
          assert looks == [Exit(false), Group(None)];
          var confirmed := ConfirmTerminal(250);
          assert looks[0] == Exit(false) && looks[1] == Group(None);
          assert looks[2..] == looks[2..|looks| - 1] + [looks[|looks| - 1]];
          if confirmed.Err? { return Err(confirmed.error); }
          if !confirmed.value { return Err(Vanished); }
        } else if group.value.value != pid {
          return Err(IdentityLost);
        }
      }
      if pid == ownGroup { return Err(OwnGroup); }
      r := SignalAndReap(grace);
    }

    /** The loop over SIGTERM and SIGKILL, the reap and the inventories after it. */
    method SignalAndReap(grace: int) returns (r: Result<nat, Fault>)
      requires Valid() && log == [] && child != Reaped && complaints == 0
      modifies `child, `recycled, `clock, `log, `complaints
      ensures Valid() && log != [] && Follow(log, pid).Some? && GraceKept(log, grace)
      ensures clock >= old(clock)
      ensures r.Ok? ==> Follow(log, pid) == Some(Confirmed) && child == Reaped && r.value == complaints
      ensures child == Reaped ==> ReapedChild in log
      ensures r.Err? ==> r.error in {TelemetryFailure, WaitTimeout, Unconfirmed, OsFailure}
      ensures r == Err(WaitTimeout) ==>
        LookOf(log, pid) == Some(Clear) || (Follow(log, pid).value.Killing? && child != Reaped)
      ensures r == Err(Unconfirmed) ==> Follow(log, pid) == Some(Waiting) && clock >= old(clock) + 2000
      ensures r == Err(OsFailure) ==> Follow(log, pid) == Some(Unsure)
    {
      hide Advance, Observe, Follow, GraceKept;
      ghost var first := Signalled(TERM, pid, child, recycled, clock);
      TermStarts(first, pid);
      SignalGroup(TERM);
      assert log == [first];
      EarlyKill(log, pid, grace);
      var noted := Note(0);
      if noted.Err? { return Err(noted.error); }
      var watched := Watch(grace, noted.value);
      EarlyKill(log, pid, grace);
      if watched.Err? { return Err(watched.error); }
      var errors := watched.value.1;
      if !watched.value.0 {
        ghost var before, kill := log, Signalled(KILL, pid, child, recycled, clock);
        KillFollows(log, kill, pid);
        SignalGroup(KILL);
        LateKill(before, kill, log, pid, grace);
        noted := Note(errors);
        if noted.Err? { return Err(noted.error); }
        watched := Watch(2000, noted.value);
        LateKill(before, kill, log, pid, grace);
        if watched.Err? { return Err(watched.error); }
        errors := watched.value.1;
      }
      ghost var signalled := log;
      ReapFollows(log, pid);
      var waited := Wait();
      if waited.Err? { return Err(waited.error); }
      r := TakeInventories(errors);
      assert log[|signalled|] == ReapedChild;
      GraceStays(signalled, log, pid, grace);
    }

    /** After the reap: inventories until one is empty or time is up. */
    method TakeInventories(errors: nat) returns (r: Result<nat, Fault>)
      requires Valid() && child == Reaped && Follow(log, pid) == Some(Waiting) && errors == complaints
      modifies `child, `recycled, `clock, `log, `complaints
      ensures Valid() && child == Reaped && old(log) <= log && clock >= old(clock)
      ensures Follow(log, pid).Some? && Follow(log, pid).value in {Waiting, Confirmed, Unsure}
      ensures r.Ok? ==> Follow(log, pid) == Some(Confirmed) && r.value == complaints
      ensures r.Err? ==> r.error in {OsFailure, TelemetryFailure, Unconfirmed}
      ensures r == Err(OsFailure) ==> Follow(log, pid) == Some(Unsure)
      ensures r == Err(TelemetryFailure) ==> Follow(log, pid) == Some(Confirmed)
      ensures r == Err(Unconfirmed) ==> Follow(log, pid) == Some(Waiting) && clock >= old(clock) + 2000
    {
      var now := Now();
      var deadline := now + 2000;
      now := Now();
      while now < deadline
        invariant Valid() && child == Reaped && old(clock) <= now <= clock && old(log) <= log
        invariant Follow(log, pid) == Some(Waiting) && errors == complaints
        decreases deadline - now
      {
        ghost var before := log;
        var inventory := Members();
        Extend(before, log[|before|], pid);
        if inventory.Err? { return Err(inventory.error); }
        if inventory.value.0 + inventory.value.1 == 0 {
          r := Note(errors);
          return;
        }
        Sleep(20);
        now := Now();
      }
      return Err(Unconfirmed);
    }
  }

  lemma Extend(log: seq<Action>, a: Action, pid: int)
    requires Follow(log, pid).Some?
    ensures Follow(log + [a], pid) == Advance(Follow(log, pid).value, a, pid)
  {
    assert (log + [a])[..|log|] == log;
  }

  lemma NothingYet(pid: int)
    ensures Follow([], pid) == Some(Idle)
  {
  }

  lemma TermStarts(a: Action, pid: int)
    requires Anchored(a, TERM, pid)
    ensures Follow([a], pid) == Some(Terminating(Looking))
  {
    Extend([], a, pid);
  }

  lemma KillFollows(log: seq<Action>, a: Action, pid: int)
    requires Anchored(a, KILL, pid)
    requires Follow(log, pid).Some? && Follow(log, pid).value.Terminating? && LookOf(log, pid) != Some(Clear)
    ensures Follow(log + [a], pid) == Some(Killing(Looking))
  {
    Extend(log, a, pid);
  }

  lemma ReapFollows(log: seq<Action>, pid: int)
    requires Follow(log, pid).Some?
    requires Follow(log, pid).value.Killing? || Follow(log, pid).value == Terminating(Clear)
    ensures Follow(log + [ReapedChild], pid) == Some(Waiting)
  {
    Extend(log, ReapedChild, pid);
  }

  function LookOf(log: seq<Action>, pid: int): Option<Look> {
    match Follow(log, pid)
    case Some(Terminating(look)) => Some(look)
    case Some(Killing(look)) => Some(look)
    case _ => None
  }

  /** The later log is in the same signalling stage as the earlier one, which it extends. */
  predicate SameSignal(earlier: seq<Action>, later: seq<Action>, pid: int) {
    && earlier <= later && Follow(earlier, pid).Some? && Follow(later, pid).Some?
    && (Follow(earlier, pid).value.Terminating? ==> Follow(later, pid).value.Terminating?)
    && (Follow(earlier, pid).value.Killing? ==> Follow(later, pid).value.Killing?)
  }

  // ----- what an accepted log guarantees

  predicate HasKill(log: seq<Action>) {
    exists i | 0 <= i < |log| :: log[i].Signalled? && log[i].signal == KILL
  }

  predicate HasSignal(log: seq<Action>) {
    exists i | 0 <= i < |log| :: log[i].Signalled?
  }

  lemma {:induction false} PrefixFollows(log: seq<Action>, k: nat, pid: int)
    requires Follow(log, pid).Some? && k <= |log|
    ensures Follow(log[..k], pid).Some?
    ensures k < |log| ==> Advance(Follow(log[..k], pid).value, log[k], pid) == Follow(log[..k + 1], pid)
    decreases |log|
  {
    if k == |log| {
      assert log[..k] == log;
    } else {
      var before := log[..|log| - 1];
      PrefixFollows(before, k, pid);
      assert before[..k] == log[..k];
      if k < |before| {
        assert before[..k + 1] == log[..k + 1];
      } else {
        assert log[..k + 1] == log && log[..k] == before;
      }
    }
  }

  /** Every group signal met an unreaped child, its unrecycled pid and no other group; the first was
      SIGTERM. */
  lemma {:induction false} SignalsAreAnchored(log: seq<Action>, i: nat, pid: int)
    requires Follow(log, pid).Some? && i < |log| && log[i].Signalled?
    ensures log[i].child != Reaped && !log[i].recycled && log[i].group == pid
    ensures i == 0 <==> log[i].signal == TERM
  {
    PrefixFollows(log, i, pid);
    PrefixFollows(log, i + 1, pid);
    StageMeaning(log[..i], pid);
    if i == 0 { assert log[..0] == []; }
  }

  lemma {:induction false} AfterReap(log: seq<Action>, i: nat, j: nat, pid: int)
    requires Follow(log, pid).Some? && i < j <= |log| && log[i] == ReapedChild
    ensures Follow(log[..j], pid).Some? && Follow(log[..j], pid).value in {Waiting, Confirmed, Unsure}
    decreases j
  {
    PrefixFollows(log, j - 1, pid);
    PrefixFollows(log, j, pid);
    if j == i + 1 {
    } else {
      AfterReap(log, i, j - 1, pid);
    }
  }

  lemma {:induction false} AfterKill(log: seq<Action>, i: nat, j: nat, pid: int)
    requires Follow(log, pid).Some? && i < j <= |log| && log[i].Signalled? && log[i].signal == KILL
    ensures Follow(log[..j], pid).Some?
    ensures Follow(log[..j], pid).value.Killing? || Follow(log[..j], pid).value in {Waiting, Confirmed, Unsure}
    decreases j
  {
    PrefixFollows(log, j - 1, pid);
    PrefixFollows(log, j, pid);
    if j == i + 1 {
    } else {
      AfterKill(log, i, j - 1, pid);
    }
  }

  /** SIGKILL is sent at most once. */
  lemma KillIsOnce(log: seq<Action>, i: nat, j: nat, pid: int)
    requires Follow(log, pid).Some? && i < j < |log| && log[i].Signalled? && log[i].signal == KILL
    ensures !log[j].Signalled?
  {
    AfterKill(log, i, j, pid);
    PrefixFollows(log, j, pid);
  }

  lemma EarlyKill(log: seq<Action>, pid: int, grace: int)
    requires Follow(log, pid).Some? && Follow(log, pid).value.Terminating?
    ensures GraceKept(log, grace)
  {
    StageMeaning(log, pid);
  }

  lemma LateKill(before: seq<Action>, kill: Action, log: seq<Action>, pid: int, grace: int)
    requires Follow(before, pid).Some? && Follow(before, pid).value.Terminating?
    requires kill.Signalled? && kill.signal == KILL && before != [] && before[0].Signalled?
    requires kill.time >= before[0].time + grace || before[|before| - 1] == Blind
    requires before + [kill] <= log && Follow(log, pid).Some?
    ensures GraceKept(log, grace)
  {
    EarlyKill(before, pid, grace);
    assert log[|before|] == kill && log[0] == before[0] && log[|before| - 1] == before[|before| - 1];
    forall i | |before| < i < |log| ensures !log[i].Signalled? { KillIsOnce(log, |before|, i, pid); }
    forall i | 0 <= i < |before| ensures log[i] == before[i] { }
  }

  lemma GraceStays(before: seq<Action>, log: seq<Action>, pid: int, grace: int)
    requires GraceKept(before, grace) && before + [ReapedChild] <= log && Follow(log, pid).Some?
    ensures GraceKept(log, grace)
  {
    assert log[|before|] == ReapedChild;
    forall i | |before| < i < |log| ensures !log[i].Signalled? { ReapIsAfterSignals(log, |before|, i, pid); }
    forall i | 0 <= i < |before| ensures log[i] == before[i] { }
  }

  /** The child is reaped once, after the last signal. */
  lemma ReapIsAfterSignals(log: seq<Action>, i: nat, j: nat, pid: int)
    requires Follow(log, pid).Some? && i < j < |log| && log[i] == ReapedChild
    ensures !log[j].Signalled? && log[j] != ReapedChild
  {
    AfterReap(log, i, j, pid);
    PrefixFollows(log, j, pid);
  }

  predicate Empty(a: Action) {
    a.Saw? && a.live == 0
  }

  predicate FoundEmpty(log: seq<Action>) {
    exists i | 0 <= i < |log| :: Empty(log[i])
  }

  /** What each stage says about the whole log. */
  ghost predicate Meaning(log: seq<Action>, stage: Stage) {
    match stage
    case Idle => log == []
    case Terminating(look) =>
      log != [] && !HasKill(log) && ReapedChild !in log && (look == Clear ==> Empty(log[|log| - 1]))
    case Killing(_) => log != [] && HasKill(log) && ReapedChild !in log
    case Waiting => log != [] && (HasKill(log) || FoundEmpty(log)) && ReapedChild in log
    case Confirmed =>
      log != [] && (HasKill(log) || FoundEmpty(log)) && ReapedChild in log && log[|log| - 1] == Saw(0, 0)
    case Unsure => log != [] && (HasKill(log) || FoundEmpty(log)) && ReapedChild in log && log[|log| - 1] == Blind
  }

  lemma {:induction false} StageMeaning(log: seq<Action>, pid: int)
    requires Follow(log, pid).Some?
    ensures Meaning(log, Follow(log, pid).value)
  {
    if log == [] {
    } else {
      var before, last := log[..|log| - 1], log[|log| - 1];
      StageMeaning(before, pid);
      assert log == before + [last];
      MeaningStep(before, last, Follow(before, pid).value, pid);
    }
  }

  lemma MeaningStep(before: seq<Action>, last: Action, stage: Stage, pid: int)
    requires Meaning(before, stage) && Advance(stage, last, pid).Some?
    ensures Meaning(before + [last], Advance(stage, last, pid).value)
  {
    var log := before + [last];
    assert log[|before|] == last;
    assert HasKill(log) <==> HasKill(before) || (last.Signalled? && last.signal == KILL) by {
      if HasKill(before) {
        var i :| 0 <= i < |before| && before[i].Signalled? && before[i].signal == KILL;
        assert log[i] == before[i];
      }
    }
    assert FoundEmpty(log) <==> FoundEmpty(before) || Empty(last) by {
      if FoundEmpty(before) {
        var i :| 0 <= i < |before| && Empty(before[i]);
        assert log[i] == before[i];
      }
    }
    assert forall a :: a in log <==> a in before || a == last;
  }

  /** A reap without a SIGKILL came after an observation that found no live member; an unsuccessful or
      failed look always escalates. */
  lemma KillSkippedOnlyWhenClear(log: seq<Action>, pid: int)
    requires Follow(log, pid).Some? && ReapedChild in log && !HasKill(log)
    ensures FoundEmpty(log)
  {
    StageMeaning(log, pid);
  }

  /** A confirmed cleanup ends with an inventory that found nobody, zombies included. */
  lemma ConfirmedIsEmpty(log: seq<Action>, pid: int)
    requires Follow(log, pid) == Some(Confirmed)
    ensures log != [] && log[|log| - 1] == Saw(0, 0) && ReapedChild in log && HasSignal(log)
  {
    StageMeaning(log, pid);
    PrefixFollows(log, 0, pid);
    PrefixFollows(log, 1, pid);
    assert log[..0] == [];
    assert log[0].Signalled?;
  }
}
