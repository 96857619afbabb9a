/** Memory sampling of an owned process group, `footprint` of scripts/owned_process_group.py: what the process
    inventory and the sampler answer is arbitrary; pids may be recycled between samples. */
module Footprint {
  import opened Wrappers

  /** A second look at a member that vanished while it was sampled; `NoLook` is a failing inventory. */
  datatype Again = Gone | NowZombie | StillListed | NoLook

  /** What sampling one listed member brings. `Vanished` is ProcessLookupError; an empty identity is 0. */
  datatype Reading =
    | Zombie
    | OtherGroup
    | Vanished(again: Again)
    | Broken
    | Measured(size: int, identity: nat)

  datatype Member = Member(pid: int, reading: Reading)

  datatype Fault =
    | InventoryFailed | LeaderAbsent | GroupChanged | LostMember | SamplerFailed | BadMeasurement
    | IdentityChanged | NotOurChild

  /** Whether the leader's exit can be confirmed; an error when it is no longer our child. */
  type Confirmation = Result<bool, Fault>

  type Identities = map<int, nat>

  predicate Distinct(group: seq<Member>) {
    forall i, j | 0 <= i < j < |group| :: group[i].pid != group[j].pid
  }

  predicate Lists(group: seq<Member>, pid: int) {
    exists i | 0 <= i < |group| :: group[i].pid == pid
  }

  /** Measured, well formed, and of the process already known under that pid, if any. */
  predicate Chargeable(m: Member, known: Identities) {
    && m.reading.Measured? && m.reading.size >= 0 && m.reading.identity != 0
    && (m.pid in known ==> known[m.pid] == m.reading.identity)
  }

  /** Skipped without a fault: a zombie, or a member other than the leader that is gone on a second look. */
  predicate Skippable(m: Member, leader: int) {
    || m.reading.Zombie?
    || (m.reading.Vanished? && m.pid != leader && (m.reading.again.Gone? || m.reading.again.NowZombie?))
  }

  /** A lookup error that reaches the handler: the leader vanished, or another member did and is still listed. */
  predicate Lookup(m: Member, leader: int) {
    m.reading.Vanished? && (m.pid == leader || m.reading.again.StillListed?)
  }

  function Charge(m: Member): int {
    if m.reading.Measured? then m.reading.size else 0
  }

  function Charges(group: seq<Member>): int {
    if group == [] then 0 else Charges(group[..|group| - 1]) + Charge(group[|group| - 1])
  }

  /** `after` keeps everything in `before` and adds only what members of `group` showed. */
  predicate Learned(before: Identities, after: Identities, group: seq<Member>) {
    && (forall pid | pid in before :: pid in after && after[pid] == before[pid])
    && forall pid | pid in after && pid !in before ::
         Shown(group, pid, after[pid])
  }

  /** A member of `group` was measured under that pid with that identity. */
  predicate Shown(group: seq<Member>, pid: int, identity: nat) {
    exists i | 0 <= i < |group| :: Shows(group[i], pid, identity)
  }

  predicate Shows(m: Member, pid: int, identity: nat) {
    m.pid == pid && m.reading.Measured? && m.reading.identity == identity
  }

  /** Every measured member is on record under its identity. */
  predicate OnRecord(group: seq<Member>, known: Identities) {
    forall i | 0 <= i < |group| && group[i].reading.Measured? ::
      group[i].pid in known && known[group[i].pid] == group[i].reading.identity
  }

  /** The handler of a lookup error, and the check when the leader is not listed. */
  function Confirmed(confirmation: Confirmation, fault: Fault): (r: Result<Option<int>, Fault>)
    ensures r == Ok(None) <==> confirmation == Ok(true)
    ensures r.Ok? ==> r.value == None
  {
    match confirmation
    case Ok(true) => Ok(None)
    case Ok(false) => Err(fault)
    case Err(error) => Err(error)
  }

  predicate Fine(m: Member, leader: int, known: Identities) {
    Chargeable(m, known) || Skippable(m, leader)
  }

  /** The first member from `i` that cannot be charged or skipped, or the number of members. */
  function FirstStop(group: seq<Member>, leader: int, known: Identities, i: nat): (r: nat)
    requires i <= |group|
    ensures i <= r <= |group| && (forall j | i <= j < r :: Fine(group[j], leader, known))
    ensures r < |group| ==> !Fine(group[r], leader, known)
    decreases |group| - i
  {
    if i == |group| || !Fine(group[i], leader, known) then i else FirstStop(group, leader, known, i + 1)
  }

  /** What a call returns: the first member in the way decides. */
  function Verdict(inventory: Option<seq<Member>>, leader: int, known: Identities, confirmation: Confirmation)
    : Result<Option<int>, Fault>
  {
    if inventory.None? then Err(InventoryFailed)
    else
      var group := inventory.value;
      if !Lists(group, leader) then Confirmed(confirmation, LeaderAbsent)
      else
        var i := FirstStop(group, leader, known, 0);
        if i == |group| then Ok(Some(Charges(group)))
        else if Lookup(group[i], leader) then Confirmed(confirmation, LostMember)
        else Err(MemberFault(group[i]))
  }

  function MemberFault(m: Member): Fault {
    match m.reading
    case OtherGroup => GroupChanged
    case Broken => SamplerFailed
    case Measured(size, identity) => if size < 0 || identity == 0 then BadMeasurement else IdentityChanged
    case _ => InventoryFailed
  }

  /** The caller's sampling state. */
  class Watch {
    var identities: Identities

    constructor ()
      ensures identities == map[]
    {
      identities := map[];
    }

    /** The total, `None` when the leader has exited. The inventory is none when it cannot be taken. */
    method Sample(leader: int, inventory: Option<seq<Member>>, confirmation: Confirmation)
      returns (r: Result<Option<int>, Fault>)
      requires inventory.Some? ==> Distinct(inventory.value)
      modifies this
      ensures r == Verdict(inventory, leader, old(identities), confirmation)
      ensures Recorded(old(identities), identities, if inventory.Some? then inventory.value else [],
                       r.Ok? && r.value.Some?)
    {
      hide Learned, OnRecord, Lists, Skippable, Chargeable;
      LearnedNothing(identities, if inventory.Some? then inventory.value else []);
      if inventory.None? { return Err(InventoryFailed); }
      var group := inventory.value;
      if !Lists(group, leader) { return Confirmed(confirmation, LeaderAbsent); }
      ghost var known := identities;
      LearnedNothing(known, group[..0]);
      assert OnRecord(group[..0], known) by { EmptyOnRecord(known); }
      var total := 0;
      for i := 0 to |group|
        invariant Learned(known, identities, group[..i])
        invariant FirstStop(group, leader, known, 0) == FirstStop(group, leader, known, i)
        invariant OnRecord(group[..i], identities)
        invariant forall j | i <= j < |group| && group[j].pid in identities :: group[j].pid in known
        invariant total == Charges(group[..i])
      {
        label entry:
        var m := group[i];
        assert group[..i + 1][..i] == group[..i];
        LearnedKeeps(known, identities, group[..i]);
        LearnedAll(known, identities, group, i);
        SameRecord(m, known, identities);
        var step := Charged(m, leader, identities);
        match step
        case Skip =>
          LearnedMore(known, identities, group, i);
          RecordMore(group, i, identities);
        case Stop =>
          return if Lookup(m, leader) then Confirmed(confirmation, LostMember) else Err(MemberFault(m));
        case Count =>
          LearnedOne(known, identities, group, i);
          if m.pid !in identities { identities := identities[m.pid := m.reading.identity]; }
          RecordOne(group, i, old@entry(identities), identities);
          total := total + m.reading.size;
      }
      assert group[..|group|] == group;
      r := Ok(Some(total));
    }
  }

  datatype Decision = Skip | Count | Stop

  /** The checks on one member, in order. */
  method Charged(m: Member, leader: int, known: Identities) returns (d: Decision)
    ensures d == Count <==> Chargeable(m, known)
    ensures d == Skip <==> Skippable(m, leader)
    ensures d == Count ==> m.reading.Measured? && (m.pid in known ==> known[m.pid] == m.reading.identity)
    ensures Skippable(m, leader) ==> !m.reading.Measured?
    ensures Fine(m, leader, known) <==> d != Stop
  {
    match m.reading
    case Zombie => d := Skip;
    case OtherGroup => d := Stop;
    case Broken => d := Stop;
    case Vanished(again) =>
      if m.pid == leader {
        d := Stop;
      } else if again.Gone? || again.NowZombie? {
        d := Skip;
      } else {
        d := Stop;
      }
    case Measured(size, identity) =>
      if size < 0 || identity == 0 || (m.pid in known && known[m.pid] != identity) {
        d := Stop;
      } else {
        d := Count;
      }
  }

  lemma SameRecord(m: Member, known: Identities, now: Identities)
    requires Keeps(known, now) && (m.pid in now ==> m.pid in known)
    ensures Chargeable(m, known) <==> Chargeable(m, now)
  {
  }

  /** What a call leaves on record: what was there, what the group showed, all of it when a total came back. */
  predicate Recorded(before: Identities, after: Identities, group: seq<Member>, ok: bool) {
    Learned(before, after, group) && (ok ==> OnRecord(group, after))
  }

  lemma {:induction false} ChargesNonNegative(group: seq<Member>, leader: int, known: Identities)
    requires forall i | 0 <= i < |group| :: Fine(group[i], leader, known)
    ensures Charges(group) >= 0
  {
    if group != [] { ChargesNonNegative(group[..|group| - 1], leader, known); }
  }

  /** A total exactly when the leader is listed and every member is chargeable or skippable; it is the sum of the
      charges. None exactly when the exit is confirmed and either the leader is not listed or the first member
      in the way is a lookup error. */
  lemma VerdictMeaning(group: seq<Member>, leader: int, known: Identities, confirmation: Confirmation)
    ensures var r := Verdict(Some(group), leader, known, confirmation);
      && ((r.Ok? && r.value.Some?) <==>
            Lists(group, leader) && forall i | 0 <= i < |group| :: Fine(group[i], leader, known))
      && (r.Ok? && r.value.Some? ==> r.value.value == Charges(group) >= 0)
      && (r == Ok(None) <==>
            confirmation == Ok(true) &&
            (!Lists(group, leader) ||
             exists i | 0 <= i < |group| ::
               Lookup(group[i], leader) && forall j | 0 <= j < i :: Fine(group[j], leader, known)))
  {
    hide Lists;
    var stop := FirstStop(group, leader, known, 0);
    assert forall m :: Lookup(m, leader) ==> !Fine(m, leader, known);
    if stop == |group| {
      ChargesNonNegative(group, leader, known);
    }
  }

  /** A member that does not stop the sampling: a zombie, a measured process that is the one on record, or another
      member than the leader that ended meanwhile. */
  predicate Passes(m: Member, leader: int, known: Identities) {
    match m.reading
    case Zombie => true
    case Vanished(again) => m.pid != leader && (again == Gone || again == NowZombie)
    case Measured(size, identity) => size >= 0 && identity > 0 && (m.pid !in known || known[m.pid] == identity)
    case _ => false
  }

  /** The reading that each fault stands for. */
  predicate Explains(m: Member, leader: int, known: Identities, fault: Fault) {
    match fault
    case GroupChanged => m.reading == OtherGroup
    case SamplerFailed => m.reading == Broken
    case BadMeasurement => m.reading.Measured? && (m.reading.size < 0 || m.reading.identity == 0)
    case IdentityChanged =>
      && m.reading.Measured? && m.reading.size >= 0 && m.reading.identity > 0
      && m.pid in known && known[m.pid] != m.reading.identity
    case LostMember => m.reading.Vanished? && (m.pid == leader || m.reading.again == StillListed)
    case InventoryFailed => m.reading == Vanished(NoLook) && m.pid != leader
    case _ => false
  }

  lemma PassesMeans(m: Member, leader: int, known: Identities, fault: Fault)
    ensures Passes(m, leader, known) <==> Fine(m, leader, known)
    ensures Explains(m, leader, known, fault) ==> !Passes(m, leader, known)
    ensures Explains(m, leader, known, fault) ==>
      if fault == LostMember then Lookup(m, leader) else !Lookup(m, leader) && MemberFault(m) == fault
    ensures !Passes(m, leader, known) ==>
      exists f | f in {GroupChanged, SamplerFailed, BadMeasurement, IdentityChanged, LostMember, InventoryFailed} ::
        Explains(m, leader, known, f)
  {
    if !Passes(m, leader, known) {
      assert Explains(m, leader, known, if Lookup(m, leader) then LostMember else MemberFault(m));
    }
  }

  /** Of the members that do not pass the first one decides, by the fault its reading stands for; a lookup error
      is forgiven when the leader's exit is confirmed. */
  lemma FirstFaultDecides(group: seq<Member>, leader: int, known: Identities, confirmation: Confirmation, i: nat,
                          fault: Fault)
    requires Lists(group, leader) && i < |group|
    requires forall j | 0 <= j < i :: Passes(group[j], leader, known)
    requires Explains(group[i], leader, known, fault)
    ensures Verdict(Some(group), leader, known, confirmation)
      == if fault != LostMember then Err(fault)
         else if confirmation.Err? then Err(confirmation.error)
         else if confirmation.value then Ok(None) else Err(LostMember)
  {
    hide Lists, Fine, Passes, Explains, Lookup, MemberFault;
    forall j | 0 <= j < |group| ensures Passes(group[j], leader, known) <==> Fine(group[j], leader, known) {
      PassesMeans(group[j], leader, known, fault);
    }
    PassesMeans(group[i], leader, known, fault);
    assert FirstStop(group, leader, known, 0) == i;
  }

  lemma LearnedNothing(known: Identities, group: seq<Member>)
    ensures Learned(known, known, group)
  {
  }

  lemma LearnedKeeps(before: Identities, after: Identities, group: seq<Member>)
    requires Learned(before, after, group)
    ensures Keeps(before, after)
  {
  }

  lemma EmptyOnRecord(known: Identities)
    ensures OnRecord([], known)
  {
  }

  lemma RecordMore(group: seq<Member>, i: nat, known: Identities)
    requires i < |group| && !group[i].reading.Measured? && OnRecord(group[..i], known)
    ensures OnRecord(group[..i + 1], known)
  {
    assert forall j | 0 <= j < i :: group[..i + 1][j] == group[..i][j];
  }

  lemma RecordOne(group: seq<Member>, i: nat, before: Identities, after: Identities)
    requires i < |group| && OnRecord(group[..i], before) && Keeps(before, after)
    requires group[i].reading.Measured?
    requires group[i].pid in after && after[group[i].pid] == group[i].reading.identity
    ensures OnRecord(group[..i + 1], after)
  {
    assert forall j | 0 <= j < i :: group[..i + 1][j] == group[..i][j];
  }

  lemma LearnedMore(before: Identities, after: Identities, group: seq<Member>, i: nat)
    requires i < |group| && Learned(before, after, group[..i])
    ensures Learned(before, after, group[..i + 1])
  {
    LearnedWithin(before, after, group[..i], group[..i + 1]);
  }

  lemma LearnedAll(before: Identities, after: Identities, group: seq<Member>, i: nat)
    requires i <= |group| && Learned(before, after, group[..i])
    ensures Learned(before, after, group)
  {
    LearnedWithin(before, after, group[..i], group);
  }

  lemma LearnedWithin(before: Identities, after: Identities, part: seq<Member>, group: seq<Member>)
    requires part <= group && Learned(before, after, part)
    ensures Learned(before, after, group)
  {
    forall pid | pid in after && pid !in before ensures Shown(group, pid, after[pid]) {
      var i :| 0 <= i < |part| && Shows(part[i], pid, after[pid]);
      assert Shows(group[i], pid, after[pid]);
    }
  }

  lemma LearnedOne(before: Identities, after: Identities, group: seq<Member>, i: nat)
    requires i < |group| && Learned(before, after, group[..i]) && group[i].reading.Measured?
    requires group[i].pid in after ==> after[group[i].pid] == group[i].reading.identity
    ensures Learned(before, after[group[i].pid := group[i].reading.identity], group[..i + 1])
    ensures group[i].pid in after ==> Learned(before, after, group[..i + 1])
  {
    LearnedMore(before, after, group, i);
    var more, m := after[group[i].pid := group[i].reading.identity], group[i];
    assert Shows(group[..i + 1][i], m.pid, m.reading.identity);
    forall pid | pid in more && pid !in before ensures Shown(group[..i + 1], pid, more[pid]) {
      if pid != m.pid { assert pid in after; }
    }
  }

  // ----- over a whole run of samples

  /** One call on the shared record: `known` is the record after it, `ok` whether it returned a total. */
  datatype Round = Round(group: seq<Member>, known: Identities, ok: bool)

  /** Consecutive calls. */
  predicate Run(start: Identities, rounds: seq<Round>)
    decreases |rounds|
  {
    rounds == [] ||
    (Recorded(start, rounds[0].known, rounds[0].group, rounds[0].ok) && Run(rounds[0].known, rounds[1..]))
  }

  predicate Keeps(before: Identities, after: Identities) {
    forall pid | pid in before :: pid in after && after[pid] == before[pid]
  }

  lemma {:induction false} RecordsLast(start: Identities, rounds: seq<Round>, k: nat)
    requires Run(start, rounds) && k < |rounds|
    ensures Keeps(start, rounds[k].known) && Keeps(rounds[k].known, rounds[|rounds| - 1].known)
    decreases |rounds|
  {
    var rest := rounds[1..];
    if k > 0 {
      RecordsLast(rounds[0].known, rest, k - 1);
    } else if |rounds| > 1 {
      RecordsLast(rounds[0].known, rest, |rest| - 1);
    }
  }

  lemma {:induction false} RoundOnRecord(start: Identities, rounds: seq<Round>, k: nat)
    requires Run(start, rounds) && k < |rounds| && rounds[k].ok
    ensures OnRecord(rounds[k].group, rounds[k].known)
    decreases |rounds|
  {
    if k > 0 { RoundOnRecord(rounds[0].known, rounds[1..], k - 1); }
  }

  /** Across all totals ever returned on one record a pid is charged for one process only: a recycled pid is
      never summed in the place of the process first seen under it. */
  lemma OneProcessPerPid(rounds: seq<Round>, j: nat, k: nat, a: nat, b: nat)
    requires Run(map[], rounds) && j < |rounds| && k < |rounds| && rounds[j].ok && rounds[k].ok
    requires a < |rounds[j].group| && b < |rounds[k].group|
    requires rounds[j].group[a].reading.Measured? && rounds[k].group[b].reading.Measured?
    requires rounds[j].group[a].pid == rounds[k].group[b].pid
    ensures rounds[j].group[a].reading.identity == rounds[k].group[b].reading.identity
  {
    hide Run;
    RecordsLast(map[], rounds, j);
    RecordsLast(map[], rounds, k);
    RoundOnRecord(map[], rounds, j);
    RoundOnRecord(map[], rounds, k);
  }
}
