/** The fixed-concurrency load driver of scripts/bench_load.py: `run_load` with its shared queue iterator and
    record list behind one lock, as a transition system over the worker threads. */
module LoadQueue {
  import opened Sorting
  import opened Wrappers

  datatype Record = Record(index: nat, body: string)

  /** Where a worker stands. It holds the lock in `Fetching`, `Fetched`, `Recording` and `Recorded`. */
  datatype Pc =
    | Unstarted
    | Waiting
    | Fetching
    | Fetched(index: Option<nat>)
    | Sending(prompt: nat)
    | Answered(answer: Record)
    | Recording(pending: Record)
    | Recorded
    | Returned
    | Raised(lost: Option<nat>)

  /** `next` is the position of the queue iterator, `sends` the prompts in the order they were sent. */
  datatype State = State(next: nat, lock: Option<nat>, pcs: seq<Pc>, records: seq<Record>, sends: seq<nat>)

  /** One atomic step of a worker. `Launch` is the main thread starting it, in order; `Fail` an exception out of
      `send`, `FailJournal` one out of `journal` with the lock held. */
  datatype Action =
    | Launch | AcquireQueue | Advance | Release | Answer(body: string) | Fail | AcquireRecords | Append
    | ReleaseRecords | FailJournal

  predicate Holds(pc: Pc) {
    pc.Fetching? || pc.Fetched? || pc.Recording? || pc.Recorded?
  }

  function Init(concurrency: nat): State {
    State(0, None, seq(concurrency, _ => Unstarted), [], [])
  }

  predicate Enabled(s: State, w: nat, a: Action) {
    w < |s.pcs| &&
    match a
    case Launch => s.pcs[w].Unstarted? && forall v | 0 <= v < w :: !s.pcs[v].Unstarted?
    case AcquireQueue => s.pcs[w].Waiting? && s.lock.None?
    case Advance => s.pcs[w].Fetching?
    case Release => s.pcs[w].Fetched?
    case Answer(_) => s.pcs[w].Sending?
    case Fail => s.pcs[w].Sending?
    case AcquireRecords => s.pcs[w].Answered? && s.lock.None?
    case Append => s.pcs[w].Recording?
    case ReleaseRecords => s.pcs[w].Recorded?
    case FailJournal => s.pcs[w].Recorded?
  }

  /** The step on prompts 0..n-1. */
  function Apply(s: State, w: nat, a: Action, n: nat): State
    requires Enabled(s, w, a)
  {
    match a
    case Launch => s.(pcs := s.pcs[w := Waiting])
    case AcquireQueue => s.(pcs := s.pcs[w := Fetching], lock := Some(w))
    case Advance =>
      if s.next < n then s.(pcs := s.pcs[w := Fetched(Some(s.next))], next := s.next + 1)
      else s.(pcs := s.pcs[w := Fetched(None)])
    case Release =>
      if s.pcs[w].index.None? then s.(pcs := s.pcs[w := Returned], lock := None)
      else
        var i := s.pcs[w].index.value;
        s.(pcs := s.pcs[w := Sending(i)], lock := None, sends := s.sends + [i])
    case Answer(body) => s.(pcs := s.pcs[w := Answered(Record(s.pcs[w].prompt, body))])
    case Fail => s.(pcs := s.pcs[w := Raised(Some(s.pcs[w].prompt))])
    case AcquireRecords => s.(pcs := s.pcs[w := Recording(s.pcs[w].answer)], lock := Some(w))
    case Append => s.(pcs := s.pcs[w := Recorded], records := s.records + [s.pcs[w].pending])
    case ReleaseRecords => s.(pcs := s.pcs[w := Waiting], lock := None)
    case FailJournal => s.(pcs := s.pcs[w := Raised(None)], lock := None)
  }

  datatype Move = Move(worker: nat, action: Action)

  /** The state after a schedule; none when a move is not enabled. */
  function Exec(s: State, moves: seq<Move>, n: nat): Option<State>
    decreases |moves|
  {
    if moves == [] then Some(s)
    else
      var before := Exec(s, moves[..|moves| - 1], n);
      var m := moves[|moves| - 1];
      if before.Some? && Enabled(before.value, m.worker, m.action)
      then Some(Apply(before.value, m.worker, m.action, n)) else None
  }

  // ----- where every prompt is

  function One(i: nat, j: nat): nat {
    if i == j then 1 else 0
  }

  function OneOf(i: Option<nat>, j: nat): nat {
    if i.Some? then One(i.value, j) else 0
  }

  /** 1 when the worker has taken prompt `i` and not recorded it. */
  function Carried(pc: Pc, i: nat): nat {
    match pc
    case Fetched(index) => OneOf(index, i)
    case Sending(prompt) => One(prompt, i)
    case Answered(answer) => One(answer.index, i)
    case Recording(pending) => One(pending.index, i)
    case Raised(lost) => OneOf(lost, i)
    case _ => 0
  }

  /** 1 when the worker has taken prompt `i` and not yet sent it. */
  function Unsent(pc: Pc, i: nat): nat {
    if pc.Fetched? then OneOf(pc.index, i) else 0
  }

  /** How many workers. */
  function Tally(pcs: seq<Pc>, of: (Pc, nat) -> nat, i: nat): nat {
    if pcs == [] then 0 else of(pcs[0], i) + Tally(pcs[1..], of, i)
  }

  function Indices(records: seq<Record>): seq<nat> {
    seq(|records|, k requires 0 <= k < |records| => records[k].index)
  }

  /** How often prompt `i` is in a list. */
  function Times(indices: seq<nat>, i: nat): nat {
    multiset(indices)[i]
  }

  function Below(i: nat, n: nat): nat {
    if i < n then 1 else 0
  }

  lemma {:induction false} TallyUpdate(pcs: seq<Pc>, w: nat, pc: Pc, of: (Pc, nat) -> nat, i: nat)
    requires w < |pcs|
    ensures Tally(pcs[w := pc], of, i) + of(pcs[w], i) == Tally(pcs, of, i) + of(pc, i)
  {
    if w == 0 {
      assert pcs[w := pc][1..] == pcs[1..];
    } else {
      TallyUpdate(pcs[1..], w - 1, pc, of, i);
      assert pcs[w := pc][1..] == pcs[1..][w - 1 := pc] && pcs[w := pc][0] == pcs[0];
    }
  }

  lemma {:induction false} TallyNothing(pcs: seq<Pc>, of: (Pc, nat) -> nat, i: nat)
    requires forall w | 0 <= w < |pcs| :: of(pcs[w], i) == 0
    ensures Tally(pcs, of, i) == 0
  {
    if pcs != [] { TallyNothing(pcs[1..], of, i); }
  }

  lemma TimesAppend(indices: seq<nat>, j: nat, i: nat)
    ensures Times(indices + [j], i) == Times(indices, i) + One(j, i)
  {
  }

  lemma RecordAppended(records: seq<Record>, r: Record, i: nat)
    ensures Times(Indices(records + [r]), i) == Times(Indices(records), i) + One(r.index, i)
  {
    assert Indices(records + [r]) == Indices(records) + [r.index];
    TimesAppend(Indices(records), r.index, i);
  }

  /** A prompt behind the iterator is with one worker or recorded, one ahead of it nowhere. */
  predicate Conserved(s: State, i: nat) {
    Tally(s.pcs, Carried, i) + Times(Indices(s.records), i) == Below(i, s.next)
  }

  /** Likewise a prompt behind the iterator is unsent with one worker or was sent once. */
  predicate SentOnce(s: State, i: nat) {
    Tally(s.pcs, Unsent, i) + Times(s.sends, i) == Below(i, s.next)
  }

  lemma StepConserves(s: State, w: nat, a: Action, n: nat, i: nat)
    requires Enabled(s, w, a) && Conserved(s, i)
    ensures Conserved(Apply(s, w, a, n), i)
  {
    hide Tally, Indices, Times;
    var t := Apply(s, w, a, n);
    TallyUpdate(s.pcs, w, t.pcs[w], Carried, i);
    assert t.pcs == s.pcs[w := t.pcs[w]];
    if a.Append? { RecordAppended(s.records, s.pcs[w].pending, i); }
  }

  lemma StepSends(s: State, w: nat, a: Action, n: nat, i: nat)
    requires Enabled(s, w, a) && SentOnce(s, i)
    ensures SentOnce(Apply(s, w, a, n), i)
  {
    hide Tally, Indices, Times;
    var t := Apply(s, w, a, n);
    TallyUpdate(s.pcs, w, t.pcs[w], Unsent, i);
    assert t.pcs == s.pcs[w := t.pcs[w]];
    if a.Release? && s.pcs[w].index.Some? { TimesAppend(s.sends, s.pcs[w].index.value, i); }
  }

  /** The lock and the queue's end, as the workers' positions show them. */
  ghost predicate Consistent(s: State, n: nat) {
    && s.next <= n
    && (forall w | 0 <= w < |s.pcs| :: Holds(s.pcs[w]) <==> s.lock == Some(w))
    && (s.lock.Some? ==> s.lock.value < |s.pcs|)
    && (forall w | 0 <= w < |s.pcs| :: s.pcs[w] == Fetched(None) || s.pcs[w].Returned? ==> s.next == n)
  }

  lemma StaysConsistent(s: State, w: nat, a: Action, n: nat)
    requires Consistent(s, n) && Enabled(s, w, a)
    ensures Consistent(Apply(s, w, a, n), n)
  {
    var t := Apply(s, w, a, n);
    assert t.pcs == s.pcs[w := t.pcs[w]];
  }

  ghost predicate Inv(s: State, n: nat) {
    Consistent(s, n) && forall i: nat :: Conserved(s, i) && SentOnce(s, i)
  }

  lemma StepKeepsInv(s: State, w: nat, a: Action, n: nat)
    requires Inv(s, n) && Enabled(s, w, a)
    ensures Inv(Apply(s, w, a, n), n)
  {
    hide Conserved, SentOnce, Apply, Enabled, Consistent;
    StaysConsistent(s, w, a, n);
    forall i: nat ensures Conserved(Apply(s, w, a, n), i) && SentOnce(Apply(s, w, a, n), i) {
      StepConserves(s, w, a, n, i);
      StepSends(s, w, a, n, i);
    }
  }

  lemma InitialInv(concurrency: nat, n: nat)
    ensures Inv(Init(concurrency), n)
  {
    forall i: nat ensures Conserved(Init(concurrency), i) && SentOnce(Init(concurrency), i) {
      TallyNothing(Init(concurrency).pcs, Carried, i);
      TallyNothing(Init(concurrency).pcs, Unsent, i);
    }
  }

  lemma {:induction false} ReachableInv(concurrency: nat, moves: seq<Move>, n: nat)
    requires Exec(Init(concurrency), moves, n).Some?
    ensures Inv(Exec(Init(concurrency), moves, n).value, n)
    ensures |Exec(Init(concurrency), moves, n).value.pcs| == concurrency
    decreases |moves|
  {
    if moves == [] {
      InitialInv(concurrency, n);
    } else {
      hide Inv, Apply;
      var m := moves[|moves| - 1];
      ReachableInv(concurrency, moves[..|moves| - 1], n);
      var s := Exec(Init(concurrency), moves[..|moves| - 1], n).value;
      StepKeepsInv(s, m.worker, m.action, n);
      SameWorkers(s, m.worker, m.action, n);
    }
  }

  lemma SameWorkers(s: State, w: nat, a: Action, n: nat)
    requires Enabled(s, w, a)
    ensures |Apply(s, w, a, n).pcs| == |s.pcs|
  {
  }

  // ----- no schedule gets stuck or runs on

  predicate Ended(s: State) {
    forall w | 0 <= w < |s.pcs| :: s.pcs[w].Returned? || s.pcs[w].Raised?
  }

  /** What a worker that can move does next. */
  function NextAction(pc: Pc): Action {
    match pc
    case Unstarted => Launch
    case Waiting => AcquireQueue
    case Fetching => Advance
    case Fetched(_) => Release
    case Sending(_) => Answer("")
    case Answered(_) => AcquireRecords
    case Recording(_) => Append
    case _ => ReleaseRecords
  }

  lemma FirstUnstarted(pcs: seq<Pc>, w: nat) returns (v: nat)
    requires w < |pcs| && pcs[w].Unstarted?
    ensures v <= w && pcs[v].Unstarted? && forall u | 0 <= u < v :: !pcs[u].Unstarted?
  {
    v := 0;
    while !pcs[v].Unstarted?
      invariant v <= w && forall u | 0 <= u < v :: !pcs[u].Unstarted?
      decreases w - v
    {
      v := v + 1;
    }
  }

  /** Until every worker has ended, some worker can move. */
  lemma NeverStuck(s: State, n: nat) returns (w: nat)
    requires Inv(s, n) && !Ended(s)
    ensures w < |s.pcs| && Enabled(s, w, NextAction(s.pcs[w]))
  {
    hide Conserved, SentOnce;
    w :| w < |s.pcs| && !(s.pcs[w].Returned? || s.pcs[w].Raised?);
    if s.lock.Some? {
      w := s.lock.value;
      assert Holds(s.pcs[w]);
    } else {
      assert !Holds(s.pcs[w]);
      if s.pcs[w].Unstarted? { w := FirstUnstarted(s.pcs, w); }
    }
  }

  function Rank(pc: Pc): nat {
    match pc
    case Unstarted => 5
    case Waiting => 4
    case Fetching => 3
    case Fetched(index) => if index.None? then 2 else 12
    case Sending(_) => 10
    case Answered(_) => 9
    case Recording(_) => 8
    case Recorded => 7
    case Returned => 0
    case Raised(_) => 0
  }

  function Ranks(pcs: seq<Pc>): nat {
    if pcs == [] then 0 else Rank(pcs[0]) + Ranks(pcs[1..])
  }

  lemma {:induction false} RanksUpdate(pcs: seq<Pc>, w: nat, pc: Pc)
    requires w < |pcs|
    ensures Ranks(pcs[w := pc]) + Rank(pcs[w]) == Ranks(pcs) + Rank(pc)
  {
    if w == 0 {
      assert pcs[w := pc][1..] == pcs[1..];
    } else {
      RanksUpdate(pcs[1..], w - 1, pc);
      assert pcs[w := pc][1..] == pcs[1..][w - 1 := pc] && pcs[w := pc][0] == pcs[0];
    }
  }

  function Work(s: State, n: nat): int {
    10 * (n - s.next) + Ranks(s.pcs)
  }

  lemma StepWorks(s: State, w: nat, a: Action, n: nat)
    requires Enabled(s, w, a)
    ensures Work(Apply(s, w, a, n), n) < Work(s, n)
  {
    hide Ranks;
    var t := Apply(s, w, a, n);
    RanksUpdate(s.pcs, w, t.pcs[w]);
    assert t.pcs == s.pcs[w := t.pcs[w]];
  }

  lemma {:induction false} InitialRanks(concurrency: nat)
    ensures Ranks(Init(concurrency).pcs) == 5 * concurrency
  {
    if concurrency == 0 {
    } else {
      assert Init(concurrency).pcs[1..] == Init(concurrency - 1).pcs;
      InitialRanks(concurrency - 1);
    }
  }

  lemma {:induction false} RunsSpendWork(concurrency: nat, moves: seq<Move>, n: nat)
    requires Exec(Init(concurrency), moves, n).Some?
    ensures |moves| + Work(Exec(Init(concurrency), moves, n).value, n) <= 10 * n + 5 * concurrency
    decreases |moves|
  {
    if moves == [] {
      InitialRanks(concurrency);
    } else {
      hide Apply, Enabled, Work;
      var m := moves[|moves| - 1];
      RunsSpendWork(concurrency, moves[..|moves| - 1], n);
      StepWorks(Exec(Init(concurrency), moves[..|moves| - 1], n).value, m.worker, m.action, n);
    }
  }

  lemma WorkLeft(s: State, n: nat)
    requires Inv(s, n)
    ensures Work(s, n) >= 0
  {
  }

  /** Every schedule is finite, of at most ten steps per prompt and five per worker; one that cannot go on has
      ended every worker, as the joins require. */
  lemma SchedulesEnd(concurrency: nat, moves: seq<Move>, n: nat)
    requires Exec(Init(concurrency), moves, n).Some?
    ensures |moves| <= 10 * n + 5 * concurrency
    ensures var s := Exec(Init(concurrency), moves, n).value;
      (forall w: nat, a: Action :: !Enabled(s, w, a)) <==> Ended(s)
  {
    hide Exec, Inv, Apply, Ranks;
    var s := Exec(Init(concurrency), moves, n).value;
    RunsSpendWork(concurrency, moves, n);
    ReachableInv(concurrency, moves, n);
    WorkLeft(s, n);
    if !Ended(s) {
      var w := NeverStuck(s, n);
    }
  }

  // ----- the records of a finished run

  function InFlight(pcs: seq<Pc>): nat {
    if pcs == [] then 0 else (if pcs[0].Sending? then 1 else 0) + InFlight(pcs[1..])
  }

  lemma {:induction false} InFlightBound(pcs: seq<Pc>)
    ensures InFlight(pcs) <= |pcs|
  {
    if pcs != [] { InFlightBound(pcs[1..]); }
  }

  /** At any moment of any schedule: no prompt is sent or recorded twice, nothing else is, and at most
      `concurrency` requests are in flight. */
  lemma NeverTwice(concurrency: nat, moves: seq<Move>, n: nat, i: nat)
    requires Exec(Init(concurrency), moves, n).Some?
    ensures var s := Exec(Init(concurrency), moves, n).value;
      && Times(s.sends, i) <= Below(i, n) && Times(Indices(s.records), i) <= Below(i, n)
      && InFlight(s.pcs) <= concurrency
  {
    hide Exec, Tally, Indices, Times, InFlight;
    ReachableInv(concurrency, moves, n);
    var s := Exec(Init(concurrency), moves, n).value;
    InFlightBound(s.pcs);
    assert Conserved(s, i) && SentOnce(s, i);
  }

  predicate NoneRaised(s: State) {
    forall w | 0 <= w < |s.pcs| :: !s.pcs[w].Raised?
  }

  predicate ByIndex(a: Record, b: Record) { a.index <= b.index }

  /** `sorted(records, key=lambda record: record.index)` */
  function Result(s: State): seq<Record> {
    Sort(s.records, ByIndex)
  }

  predicate OnceEach(indices: seq<nat>, n: nat) {
    && (forall i | 0 <= i < n :: Times(indices, i) == 1)
    && forall k | 0 <= k < |indices| :: indices[k] < n
  }

  predicate Ascending(indices: seq<nat>) {
    forall i, j | 0 <= i < j < |indices| :: indices[i] <= indices[j]
  }

  lemma PresentAt(indices: seq<nat>, i: nat) returns (p: nat)
    requires Times(indices, i) > 0
    ensures p < |indices| && indices[p] == i
  {
    assert i in multiset(indices);
    p :| p < |indices| && indices[p] == i;
  }

  lemma {:induction false} AscendingOnceEach(indices: seq<nat>, n: nat)
    requires Ascending(indices) && OnceEach(indices, n)
    ensures |indices| == n && forall k | 0 <= k < n :: indices[k] == k
  {
    hide Times;
    if n == 0 {
      assert indices == [];
    } else {
      var m := |indices| - 1;
      assert Times(indices, n - 1) == 1;
      var p := PresentAt(indices, n - 1);
      assert indices[p] <= indices[m];
      LastOnce(indices, n);
      AscendingOnceEach(indices[..m], n - 1);
    }
  }

  lemma LastOnce(indices: seq<nat>, n: nat)
    requires n > 0 && indices != [] && OnceEach(indices, n) && indices[|indices| - 1] == n - 1
    ensures OnceEach(indices[..|indices| - 1], n - 1)
  {
    var m := |indices| - 1;
    var before := indices[..m];
    assert indices == before + [n - 1];
    forall i | 0 <= i < n ensures Times(indices, i) == Times(before, i) + One(n - 1, i) {
      TimesAppend(before, n - 1, i);
    }
    assert Times(before, n - 1) == 0;
    forall k | 0 <= k < m ensures before[k] < n - 1 {
      assert before[k] in multiset(before);
      assert indices[k] < n;
    }
  }

  lemma Without<T>(b: seq<T>, k: nat)
    requires k < |b|
    ensures multiset(b[..k] + b[k + 1..]) == multiset(b) - multiset{b[k]}
  {
    assert b == b[..k] + [b[k]] + b[k + 1..];
  }

  lemma TimesSplit(b: seq<Record>, k: nat, i: nat)
    requires k < |b|
    ensures Times(Indices(b), i) == One(b[k].index, i) + Times(Indices(b[..k] + b[k + 1..]), i)
  {
    assert Indices(b) == Indices(b[..k]) + [b[k].index] + Indices(b[k + 1..]);
    assert Indices(b[..k] + b[k + 1..]) == Indices(b[..k]) + Indices(b[k + 1..]);
  }

  lemma {:induction false} PermutedIndices(a: seq<Record>, b: seq<Record>, i: nat)
    requires multiset(a) == multiset(b)
    ensures Times(Indices(a), i) == Times(Indices(b), i)
    decreases |a|
  {
    if a == [] {
      assert |multiset(b)| == 0;
    } else {
      hide Times, Indices;
      assert a[0] in multiset(b);
      var k :| 0 <= k < |b| && b[k] == a[0];
      Without(b, k);
      Without(a, 0);
      TimesSplit(b, k, i);
      TimesSplit(a, 0, i);
      PermutedIndices(a[..0] + a[1..], b[..k] + b[k + 1..], i);
    }
  }

  lemma {:induction false} NothingCarried(pcs: seq<Pc>, i: nat)
    requires forall w | 0 <= w < |pcs| :: pcs[w].Returned?
    ensures Tally(pcs, Carried, i) == 0 && Tally(pcs, Unsent, i) == 0
  {
    TallyNothing(pcs, Carried, i);
    TallyNothing(pcs, Unsent, i);
  }

  /** A schedule that ended without an exception sent every prompt it took exactly once and returns their
      records in order; it took all prompts exactly when there was a worker, or no prompt. */
  lemma EndedRunIsComplete(concurrency: nat, moves: seq<Move>, n: nat)
    requires Exec(Init(concurrency), moves, n).Some?
    requires var s := Exec(Init(concurrency), moves, n).value; Ended(s) && NoneRaised(s)
    ensures var s := Exec(Init(concurrency), moves, n).value;
      && (s.next == n <==> concurrency > 0 || n == 0)
      && |Result(s)| == s.next && (forall k | 0 <= k < s.next :: Result(s)[k].index == k)
      && (forall i: nat :: Times(s.sends, i) == Below(i, s.next))
      && multiset(Result(s)) == multiset(s.records)
  {
    hide Exec, Apply;
    ReachableInv(concurrency, moves, n);
    var s := Exec(Init(concurrency), moves, n).value;
    AllReturned(s, n);
    if concurrency == 0 { NoWorkersNoStep(moves, n); } else { assert s.pcs[0].Returned?; }
    ReturnedRecords(s);
  }

  lemma {:induction false} NoWorkersNoStep(moves: seq<Move>, n: nat)
    requires Exec(Init(0), moves, n).Some?
    ensures Exec(Init(0), moves, n).value.next == 0
    decreases |moves|
  {
    if moves != [] { NoWorkersNoStep(moves[..|moves| - 1], n); ReachableInv(0, moves[..|moves| - 1], n); }
  }

  lemma AllReturned(s: State, n: nat)
    requires Inv(s, n) && Ended(s) && NoneRaised(s)
    ensures forall i: nat :: Times(Indices(s.records), i) == Below(i, s.next) && Times(s.sends, i) == Below(i, s.next)
  {
    hide Tally, Indices, Times;
    forall i: nat ensures Times(Indices(s.records), i) == Below(i, s.next) && Times(s.sends, i) == Below(i, s.next) {
      assert Conserved(s, i) && SentOnce(s, i);
      NothingCarried(s.pcs, i);
    }
  }

  lemma ReturnedRecords(s: State)
    requires forall i: nat :: Times(Indices(s.records), i) == Below(i, s.next)
    ensures |Result(s)| == s.next && forall k | 0 <= k < s.next :: Result(s)[k].index == k
    ensures multiset(Result(s)) == multiset(s.records)
  {
    hide Times, Sort;
    var r := Result(s);
    assert TotalPreorder(ByIndex);
    SortSorts(s.records, ByIndex);
    SortPermutes(s.records, ByIndex);
    forall i: nat ensures Times(Indices(r), i) == Below(i, s.next) { PermutedIndices(r, s.records, i); }
    OnceEachFromTimes(Indices(r), s.next);
    assert Ascending(Indices(r)) by {
      forall i, j | 0 <= i < j < |r| ensures Indices(r)[i] <= Indices(r)[j] { assert ByIndex(r[i], r[j]); }
    }
    AscendingOnceEach(Indices(r), s.next);
    assert forall k | 0 <= k < |r| :: r[k].index == Indices(r)[k];
  }

  lemma OnceEachFromTimes(indices: seq<nat>, n: nat)
    requires forall i: nat :: Times(indices, i) == Below(i, n)
    ensures OnceEach(indices, n)
  {
    forall k | 0 <= k < |indices| ensures indices[k] < n {
      assert indices[k] in multiset(indices);
      assert Times(indices, indices[k]) == Below(indices[k], n);
    }
  }

  // ----- runs with exceptions

  /** The prompt's request raised in some worker. */
  ghost predicate Lost(s: State, i: nat) {
    exists w | 0 <= w < |s.pcs| :: s.pcs[w] == Raised(Some(i))
  }

  lemma {:induction false} TallyFinds(pcs: seq<Pc>, i: nat) returns (w: nat)
    requires forall v | 0 <= v < |pcs| :: pcs[v].Returned? || pcs[v].Raised?
    requires Tally(pcs, Carried, i) > 0
    ensures w < |pcs| && pcs[w] == Raised(Some(i))
  {
    if Carried(pcs[0], i) > 0 {
      w := 0;
    } else {
      w := TallyFinds(pcs[1..], i);
      w := w + 1;
    }
  }

  lemma {:induction false} TallyCounts(pcs: seq<Pc>, of: (Pc, nat) -> nat, w: nat, i: nat)
    requires w < |pcs|
    ensures Tally(pcs, of, i) >= of(pcs[w], i)
  {
    if w > 0 { TallyCounts(pcs[1..], of, w - 1, i); }
  }

  lemma EndedAccount(s: State, i: nat)
    requires Ended(s) && Conserved(s, i) && SentOnce(s, i)
    ensures Times(s.sends, i) == Below(i, s.next)
    ensures Lost(s, i) ==> i < s.next
    ensures Times(Indices(s.records), i) == if Lost(s, i) then 0 else Below(i, s.next)
  {
    hide Tally, Times, Indices;
    TallyNothing(s.pcs, Unsent, i);
    if w :| 0 <= w < |s.pcs| && s.pcs[w] == Raised(Some(i)) {
      TallyCounts(s.pcs, Carried, w, i);
    }
    if Tally(s.pcs, Carried, i) > 0 {
      var w := TallyFinds(s.pcs, i);
    }
  }

  predicate Increasing(records: seq<Record>) {
    forall j, k | 0 <= j < k < |records| :: records[j].index < records[k].index
  }

  lemma DistinctIndices(records: seq<Record>, j: nat, k: nat)
    requires j < k < |records| && forall i: nat :: Times(Indices(records), i) <= 1
    ensures records[j].index != records[k].index
  {
    var s := Indices(records);
    if s[j] == s[k] { CountedTwice(s, j, k); }
  }

  lemma CountedTwice(indices: seq<nat>, j: nat, k: nat)
    requires j < k < |indices| && indices[j] == indices[k]
    ensures Times(indices, indices[j]) >= 2
  {
    assert indices == indices[..j] + [indices[j]] + indices[j + 1..k] + [indices[k]] + indices[k + 1..];
  }

  lemma ResultIsIncreasing(s: State)
    requires forall i: nat :: Times(Indices(s.records), i) <= 1
    ensures Increasing(Result(s)) && multiset(Result(s)) == multiset(s.records)
  {
    hide Times, Sort, Indices;
    var r := Result(s);
    SortSorts(s.records, ByIndex);
    SortPermutes(s.records, ByIndex);
    forall i: nat ensures Times(Indices(r), i) <= 1 { PermutedIndices(r, s.records, i); }
    forall j, k | 0 <= j < k < |r| ensures r[j].index < r[k].index {
      assert ByIndex(r[j], r[k]);
      DistinctIndices(r, j, k);
    }
  }

  /** However a run ended, every prompt it took was sent once, and its sorted records are those of exactly the
      prompts taken whose request did not raise; it took all of them if any worker returned. */
  lemma EndedRunAccounts(concurrency: nat, moves: seq<Move>, n: nat)
    requires Exec(Init(concurrency), moves, n).Some? && Ended(Exec(Init(concurrency), moves, n).value)
    ensures var s := Exec(Init(concurrency), moves, n).value;
      && s.next <= n && ((exists w | 0 <= w < |s.pcs| :: s.pcs[w].Returned?) ==> s.next == n)
      && (forall i: nat :: Times(s.sends, i) == Below(i, s.next))
      && (forall i: nat :: Times(Indices(s.records), i) == if Lost(s, i) then 0 else Below(i, s.next))
      && (forall i: nat :: Lost(s, i) ==> i < s.next)
      && Increasing(Result(s)) && multiset(Result(s)) == multiset(s.records)
  {
    hide Exec, Apply, Times, Indices, Tally, Result, Increasing, Lost;
    ReachableInv(concurrency, moves, n);
    var s := Exec(Init(concurrency), moves, n).value;
    forall i: nat
      ensures Times(s.sends, i) == Below(i, s.next) && (Lost(s, i) ==> i < s.next)
      ensures Times(Indices(s.records), i) == if Lost(s, i) then 0 else Below(i, s.next)
    {
      assert Conserved(s, i) && SentOnce(s, i);
      EndedAccount(s, i);
    }
    ResultIsIncreasing(s);
  }
}
