/** The span matcher of scripts/mx_spans.py: begin and end events of a Chrome trace, matched per thread as a
    stack, with request ids inherited from the enclosing request. */
module TraceSpans {
  import opened JsonValues
  import opened Wrappers

  datatype Key = Key(pid: Option<int>, tid: Option<int>)

  /** `at` is the event's place in the trace; the code never reads it. */
  datatype Event = Event(at: nat, ph: string, name: string, key: Key, ts: real, args: map<string, Json>)

  type Loads = string -> Option<Json>

  /** `value`: text is decoded when it is JSON. */
  function Value(v: Json, loads: Loads): Json {
    if v.Str? && loads(v.text).Some? then loads(v.text).value else v
  }

  function Fields(begin: Event, end: Event, loads: Loads): map<string, Json> {
    var merged := begin.args + end.args;
    map k | k in merged :: Value(merged[k], loads)
  }

  /** The trace holds `v` as `raw`: as JSON text, or as itself when that is no JSON text. */
  predicate Records(raw: Json, v: Json, loads: Loads) {
    if raw.Str? && raw != v then loads(raw.text) == Some(v)
    else raw == v && (raw.Str? ==> loads(raw.text) in {None, Some(v)})
  }

  /** However the fields were recorded, a span has those of both its events, the end's over the begin's, and
      a request event brings the id it recorded. */
  lemma FieldsAreRecorded(begin: Event, end: Event, mine: map<string, Json>, theirs: map<string, Json>, loads: Loads)
    requires begin.args.Keys == mine.Keys && forall k :: k in mine ==> Records(begin.args[k], mine[k], loads)
    requires end.args.Keys == theirs.Keys && forall k :: k in theirs ==> Records(end.args[k], theirs[k], loads)
    ensures Fields(begin, end, loads) == mine + theirs
    ensures OwnId(begin, loads) == if begin.name == "http.request" then Get(mine, "request_id") else Null
  {
    assert forall k :: k in mine ==> Value(begin.args[k], loads) == mine[k];
    assert forall k :: k in theirs ==> Value(end.args[k], loads) == theirs[k];
    assert (begin.args + end.args).Keys == (mine + theirs).Keys;
  }

  /** An open begin event and its request id. */
  datatype Frame = Frame(begin: Event, requestId: Json)

  datatype Span = Span(begin: Event, end: Event, fields: map<string, Json>, requestId: Json) {
    function Start(): real { begin.ts / 1000.0 }
    function End(): real { end.ts / 1000.0 }
  }

  /** The id an event brings itself. */
  function OwnId(e: Event, loads: Loads): Json {
    if e.name == "http.request" then Value(Get(e.args, "request_id"), loads) else Null
  }

  function TopId(stack: seq<Frame>): Json {
    if stack == [] then Null else stack[|stack| - 1].requestId
  }

  function Open(e: Event, inherited: Json, loads: Loads): Frame {
    Frame(e, if Truthy(OwnId(e, loads)) then OwnId(e, loads) else inherited)
  }

  function Close(frame: Frame, e: Event, loads: Loads): Span {
    Span(frame.begin, e, Fields(frame.begin, e, loads), frame.requestId)
  }

  /** The stack cut back to its last frame of that name, or emptied. */
  function PopTo(stack: seq<Frame>, name: string): (r: seq<Frame>)
    ensures r <= stack && (r != [] ==> r[|r| - 1].begin.name == name)
    ensures forall i | |r| <= i < |stack| :: stack[i].begin.name != name
  {
    if stack == [] || stack[|stack| - 1].begin.name == name then stack
    else PopTo(stack[..|stack| - 1], name)
  }

  // ----- one thread

  datatype Thread = Thread(stack: seq<Frame>, out: seq<Span>)

  function StepThread(t: Thread, e: Event, loads: Loads): Thread {
    if e.ph == "B" then t.(stack := t.stack + [Open(e, TopId(t.stack), loads)])
    else if e.ph != "E" then t
    else
      var kept := PopTo(t.stack, e.name);
      if kept == [] then t.(stack := [])
      else Thread(kept[..|kept| - 1], t.out + [Close(kept[|kept| - 1], e, loads)])
  }

  function RunThread(events: seq<Event>, loads: Loads): Thread {
    if events == [] then Thread([], [])
    else StepThread(RunThread(events[..|events| - 1], loads), events[|events| - 1], loads)
  }

  // ----- all threads

  datatype Matcher = Matcher(stacks: map<Key, seq<Frame>>, out: seq<Span>)

  function StackOf(stacks: map<Key, seq<Frame>>, key: Key): seq<Frame> {
    if key in stacks then stacks[key] else []
  }

  /** The thread's own step on its stack; what it emits goes to the common list. */
  function Step(m: Matcher, e: Event, loads: Loads): Matcher {
    var t := StepThread(Thread(StackOf(m.stacks, e.key), m.out), e, loads);
    Matcher(if e.ph == "B" || (e.ph == "E" && e.key in m.stacks) then m.stacks[e.key := t.stack] else m.stacks, t.out)
  }

  function Run(events: seq<Event>, loads: Loads): Matcher {
    if events == [] then Matcher(map[], [])
    else Step(Run(events[..|events| - 1], loads), events[|events| - 1], loads)
  }

  /** `intervals`. */
  method Intervals(events: seq<Event>, loads: Loads) returns (out: seq<Span>)
    ensures out == Run(events, loads).out
  {
    var stacks: map<Key, seq<Frame>> := map[];
    out := [];
    for i := 0 to |events|
      invariant Matcher(stacks, out) == Run(events[..i], loads)
    {
      var event := events[i];
      assert events[..i + 1][..i] == events[..i];
      if event.ph == "B" {
        var stack := StackOf(stacks, event.key);
        var requestId := OwnId(event, loads);
        if !Truthy(requestId) { requestId := TopId(stack); }
        stacks := stacks[event.key := stack + [Frame(event, requestId)]];
      } else if event.ph == "E" {
        var stack := StackOf(stacks, event.key);
        ghost var whole := stack;
        while stack != [] && stack[|stack| - 1].begin.name != event.name
          invariant PopTo(stack, event.name) == PopTo(whole, event.name)
          invariant event.key !in stacks ==> stack == []
        {
          stack := stack[..|stack| - 1];
        }
        if stack != [] {
          var begin := stack[|stack| - 1];
          stack := stack[..|stack| - 1];
          out := out + [Close(begin, event, loads)];
        }
        if event.key in stacks { stacks := stacks[event.key := stack]; }
      }
    }
    assert events[..|events|] == events;
  }

  // ----- threads are independent

  function OfThread(events: seq<Event>, key: Key): seq<Event> {
    if events == [] then []
    else
      var last := events[|events| - 1];
      var before := OfThread(events[..|events| - 1], key);
      if last.key == key then before + [last] else before
  }

  function SpansOf(out: seq<Span>, key: Key): seq<Span> {
    if out == [] then []
    else
      var last := out[|out| - 1];
      var before := SpansOf(out[..|out| - 1], key);
      if last.end.key == key then before + [last] else before
  }

  lemma OfThreadAppend(events: seq<Event>, e: Event, key: Key)
    ensures OfThread(events + [e], key) == if e.key == key then OfThread(events, key) + [e] else OfThread(events, key)
  {
    assert (events + [e])[..|events|] == events;
  }

  lemma SpansOfAppend(out: seq<Span>, s: Span, key: Key)
    ensures SpansOf(out + [s], key) == if s.end.key == key then SpansOf(out, key) + [s] else SpansOf(out, key)
  {
    assert (out + [s])[..|out|] == out;
  }

  lemma RunThreadAppend(events: seq<Event>, e: Event, loads: Loads)
    ensures RunThread(events + [e], loads) == StepThread(RunThread(events, loads), e, loads)
  {
    assert (events + [e])[..|events|] == events;
  }

  /** The part of the matcher that belongs to one thread. */
  function Part(m: Matcher, key: Key): Thread {
    Thread(StackOf(m.stacks, key), SpansOf(m.out, key))
  }

  lemma StepPart(m: Matcher, e: Event, key: Key, loads: Loads)
    ensures Part(Step(m, e, loads), key) == if e.key == key then StepThread(Part(m, key), e, loads) else Part(m, key)
  {
    hide SpansOf, Open, TopId, Fields;
    var kept := PopTo(StackOf(m.stacks, e.key), e.name);
    if e.ph == "E" && kept != [] {
      SpansOfAppend(m.out, Close(kept[|kept| - 1], e, loads), key);
    }
  }

  lemma {:induction false} RunPart(events: seq<Event>, key: Key, loads: Loads)
    ensures Part(Run(events, loads), key) == RunThread(OfThread(events, key), loads)
  {
    if events == [] {
    } else {
      hide Step, StepThread;
      var n := |events| - 1;
      RunPart(events[..n], key, loads);
      StepPart(Run(events[..n], loads), events[n], key, loads);
      if events[n].key == key { RunThreadAppend(OfThread(events[..n], key), events[n], loads); }
    }
  }

  lemma {:induction false} OfThreadTwice(events: seq<Event>, key: Key)
    ensures OfThread(OfThread(events, key), key) == OfThread(events, key)
  {
    if events == [] {
    } else {
      var n := |events| - 1;
      OfThreadTwice(events[..n], key);
      if events[n].key == key { OfThreadAppend(OfThread(events[..n], key), events[n], key); }
    }
  }

  /** The spans of a thread are those of its own events alone. */
  lemma ThreadsAreIndependent(events: seq<Event>, key: Key, loads: Loads)
    ensures SpansOf(Run(events, loads).out, key) == SpansOf(Run(OfThread(events, key), loads).out, key)
    ensures SpansOf(Run(events, loads).out, key) == RunThread(OfThread(events, key), loads).out
  {
    hide Run, RunThread, OfThread;
    RunPart(events, key, loads);
    RunPart(OfThread(events, key), key, loads);
    OfThreadTwice(events, key);
  }

  // ----- spans of a thread are laminar

  predicate Ordered(events: seq<Event>) {
    forall i, j | 0 <= i < j < |events| :: events[i].at < events[j].at
  }

  /** No clock steps back between two events of the thread. */
  predicate Timed(events: seq<Event>) {
    forall i, j | 0 <= i < j < |events| :: events[i].ts <= events[j].ts
  }

  predicate Disjoint(a: Span, b: Span) {
    a.end.at < b.begin.at
  }

  predicate Nested(a: Span, b: Span) {
    b.begin.at < a.begin.at && a.end.at < b.end.at
  }

  predicate Outside(s: Span, f: Frame) {
    s.end.at < f.begin.at || f.begin.at < s.begin.at
  }

  /** `within`. */
  predicate Within(inner: Span, outer: Span) {
    outer.Start() <= inner.Start() && inner.End() <= outer.End()
  }

  predicate Matched(s: Span) {
    s.begin.ph == "B" && s.end.ph == "E" && s.begin.name == s.end.name && s.begin.at < s.end.at
  }

  predicate Stacked(stack: seq<Frame>) {
    && (forall i | 0 <= i < |stack| :: stack[i].begin.ph == "B")
    && forall i, j | 0 <= i < j < |stack| :: stack[i].begin.at < stack[j].begin.at
  }

  predicate Apart(out: seq<Span>, stack: seq<Frame>) {
    forall i, j | 0 <= i < |out| && 0 <= j < |stack| :: Outside(out[i], stack[j])
  }

  predicate Laminar(out: seq<Span>) {
    && (forall i | 0 <= i < |out| :: Matched(out[i]))
    && forall i, j | 0 <= i < j < |out| :: Disjoint(out[i], out[j]) || Nested(out[i], out[j])
  }

  /** Everything so far came from these events. */
  predicate From(t: Thread, events: seq<Event>) {
    && (forall i | 0 <= i < |t.stack| :: t.stack[i].begin in events)
    && forall i | 0 <= i < |t.out| :: t.out[i].begin in events && t.out[i].end in events
  }

  predicate Sound(t: Thread, events: seq<Event>) {
    From(t, events) && Stacked(t.stack) && Apart(t.out, t.stack) && Laminar(t.out)
  }

  lemma StepBegin(t: Thread, events: seq<Event>, e: Event, f: Frame)
    requires Sound(t, events) && e.ph == "B" && f.begin == e
    requires forall x | x in events :: x.at < e.at
    ensures Sound(t.(stack := t.stack + [f]), events + [e])
  {
  }

  lemma StepPop(t: Thread, events: seq<Event>, kept: seq<Frame>)
    requires Sound(t, events) && kept <= t.stack
    ensures Sound(t.(stack := kept), events)
  {
    assert forall j | 0 <= j < |kept| :: kept[j] == t.stack[j];
  }

  lemma MoreEvents(t: Thread, events: seq<Event>, e: Event)
    requires Sound(t, events)
    ensures Sound(t, events + [e])
  {
    hide Apart, Stacked, Laminar;
  }

  lemma StepEnd(t: Thread, events: seq<Event>, e: Event, s: Span)
    requires Sound(t, events) && t.stack != [] && e.ph == "E"
    requires s.begin == t.stack[|t.stack| - 1].begin && s.end == e && s.begin.name == e.name
    requires forall x | x in events :: x.at < e.at
    ensures Sound(Thread(t.stack[..|t.stack| - 1], t.out + [s]), events + [e])
  {
    var rest, out := t.stack[..|t.stack| - 1], t.out + [s];
    EndLaminar(t, events, e, s);
    assert Apart(out, rest) by {
      forall i, j | 0 <= i < |out| && 0 <= j < |rest| ensures Outside(out[i], rest[j]) {
        if i < |t.out| { assert Outside(t.out[i], t.stack[j]); }
      }
    }
    assert From(Thread(rest, out), events + [e]) by { hide Apart, Laminar, Stacked; }
  }

  lemma EndLaminar(t: Thread, events: seq<Event>, e: Event, s: Span)
    requires Sound(t, events) && t.stack != [] && e.ph == "E"
    requires s.begin == t.stack[|t.stack| - 1].begin && s.end == e && s.begin.name == e.name
    requires forall x | x in events :: x.at < e.at
    ensures Laminar(t.out + [s])
  {
    hide Stacked;
    var f := t.stack[|t.stack| - 1];
    assert f.begin.ph == "B" && f.begin in events by {
      assert Stacked(t.stack) && t.stack[|t.stack| - 1].begin in events;
      StackedTop(t.stack);
    }
    forall i | 0 <= i < |t.out| ensures Disjoint(t.out[i], s) || Nested(t.out[i], s) {
      assert Outside(t.out[i], t.stack[|t.stack| - 1]);
      assert t.out[i].end in events;
    }
  }

  lemma StackedTop(stack: seq<Frame>)
    requires Stacked(stack) && stack != []
    ensures stack[|stack| - 1].begin.ph == "B"
  {
  }

  lemma StepSound(t: Thread, events: seq<Event>, e: Event, loads: Loads)
    requires Sound(t, events) && forall x | x in events :: x.at < e.at
    ensures Sound(StepThread(t, e, loads), events + [e])
  {
    hide Sound, Fields, OwnId, PopTo;
    if e.ph == "B" {
      StepBegin(t, events, e, Open(e, TopId(t.stack), loads));
    } else if e.ph != "E" {
      MoreEvents(t, events, e);
    } else {
      var kept := PopTo(t.stack, e.name);
      StepPop(t, events, kept);
      if kept == [] {
        MoreEvents(t.(stack := kept), events, e);
      } else {
        StepEnd(t.(stack := kept), events, e, Close(kept[|kept| - 1], e, loads));
      }
    }
  }

  lemma {:induction false} RunSound(events: seq<Event>, loads: Loads)
    requires Ordered(events)
    ensures Sound(RunThread(events, loads), events)
  {
    if events == [] {
    } else {
      hide Sound, StepThread;
      var n := |events| - 1;
      RunSound(events[..n], loads);
      StepSound(RunThread(events[..n], loads), events[..n], events[n], loads);
      assert events[..n] + [events[n]] == events;
    }
  }

  lemma {:induction false} OfThreadOrdered(events: seq<Event>, key: Key)
    requires Ordered(events)
    ensures Ordered(OfThread(events, key)) && forall e | e in OfThread(events, key) :: e in events
  {
    if events == [] {
    } else {
      var n := |events| - 1;
      OfThreadOrdered(events[..n], key);
      assert forall e | e in events[..n] :: e.at < events[n].at;
    }
  }

  lemma EarlierIsSooner(events: seq<Event>, a: Event, b: Event)
    requires Ordered(events) && Timed(events) && a in events && b in events && a.at < b.at
    ensures a.ts <= b.ts
  {
    var i :| 0 <= i < |events| && events[i] == a;
    var j :| 0 <= j < |events| && events[j] == b;
    assert j < i ==> events[j].at < events[i].at;
  }

  /** The spans of a thread pair a begin with a later end of the same name, use each event at most once, and
      are pairwise nested or disjoint; with a clock that never steps back, also in time. */
  lemma SpansAreLaminar(events: seq<Event>, key: Key, loads: Loads)
    requires Ordered(events)
    ensures var out := SpansOf(Run(events, loads).out, key);
      && Laminar(out)
      && (forall s | s in out :: s.begin in OfThread(events, key) && s.end in OfThread(events, key))
      && (forall i, j | 0 <= i < j < |out| :: out[i].begin != out[j].begin && out[i].end != out[j].end)
      && (Timed(OfThread(events, key)) ==> forall i, j | 0 <= i < j < |out| ::
            out[i].End() <= out[j].Start() || Within(out[i], out[j]))
  {
    hide Run, RunThread, SpansOf, OfThread, Ordered, Timed, Stacked, Apart;
    var mine := OfThread(events, key);
    var out := SpansOf(Run(events, loads).out, key);
    ThreadsAreIndependent(events, key, loads);
    OfThreadOrdered(events, key);
    RunSound(mine, loads);
    forall i, j | Timed(mine) && 0 <= i < j < |out| ensures out[i].End() <= out[j].Start() || Within(out[i], out[j]) {
      if Disjoint(out[i], out[j]) {
        EarlierIsSooner(mine, out[i].end, out[j].begin);
      } else {
        EarlierIsSooner(mine, out[j].begin, out[i].begin);
        EarlierIsSooner(mine, out[i].end, out[j].end);
      }
    }
  }

  // ----- properly nested streams

  /** The events of a thread whose spans close in the reverse order of opening. */
  datatype Forest =
    | Done
    | Mark(event: Event, rest: Forest)
    | Pair(begin: Event, inside: Forest, end: Event, rest: Forest)

  predicate Proper(f: Forest) {
    match f
    case Done => true
    case Mark(event, rest) => event.ph != "B" && event.ph != "E" && Proper(rest)
    case Pair(begin, inside, end, rest) =>
      begin.ph == "B" && end.ph == "E" && begin.name == end.name && Proper(inside) && Proper(rest)
  }

  function Flatten(f: Forest): seq<Event> {
    match f
    case Done => []
    case Mark(event, rest) => [event] + Flatten(rest)
    case Pair(begin, inside, end, rest) => [begin] + Flatten(inside) + [end] + Flatten(rest)
  }

  /** Each pair once, inner before outer, with the id of its nearest ancestor that has one. */
  function PostOrder(f: Forest, inherited: Json, loads: Loads): seq<Span> {
    match f
    case Done => []
    case Mark(_, rest) => PostOrder(rest, inherited, loads)
    case Pair(begin, inside, end, rest) =>
      var frame := Open(begin, inherited, loads);
      PostOrder(inside, frame.requestId, loads) + [Close(frame, end, loads)] + PostOrder(rest, inherited, loads)
  }

  lemma CloseTop(t: Thread, top: Frame, e: Event, loads: Loads)
    requires e.ph == "E" && top.begin.name == e.name
    ensures StepThread(Thread(t.stack + [top], t.out), e, loads) == t.(out := t.out + [Close(top, e, loads)])
  {
    hide Fields;
    var stack := t.stack + [top];
    assert PopTo(stack, e.name) == stack && stack[..|stack| - 1] == t.stack;
  }

  lemma {:induction false} RunNested(before: seq<Event>, f: Forest, loads: Loads)
    requires Proper(f)
    ensures var t := RunThread(before, loads);
      RunThread(before + Flatten(f), loads) == t.(out := t.out + PostOrder(f, TopId(t.stack), loads))
    decreases f, 0
  {
    hide RunThread, Open, Fields;
    var t := RunThread(before, loads);
    match f
    case Done =>
      assert before + [] == before && t.out + [] == t.out;
    case Mark(event, rest) =>
      RunThreadAppend(before, event, loads);
      RunNested(before + [event], rest, loads);
      assert before + Flatten(f) == before + [event] + Flatten(rest);
    case Pair(begin, inside, end, rest) =>
      RunPair(before, begin, inside, end, loads);
      var middle := before + [begin] + Flatten(inside) + [end];
      RunNested(middle, rest, loads);
      assert before + Flatten(f) == middle + Flatten(rest);
      var frame := Open(begin, TopId(t.stack), loads);
      var first := PostOrder(inside, frame.requestId, loads) + [Close(frame, end, loads)];
      assert t.out + first + PostOrder(rest, TopId(t.stack), loads) == t.out + PostOrder(f, TopId(t.stack), loads);
  }

  lemma {:induction false} RunPair(before: seq<Event>, begin: Event, inside: Forest, end: Event, loads: Loads)
    requires begin.ph == "B" && end.ph == "E" && begin.name == end.name && Proper(inside)
    ensures var t := RunThread(before, loads);
      var frame := Open(begin, TopId(t.stack), loads);
      RunThread(before + [begin] + Flatten(inside) + [end], loads)
      == t.(out := t.out + (PostOrder(inside, frame.requestId, loads) + [Close(frame, end, loads)]))
    decreases inside, 1
  {
    hide RunThread, Fields, OwnId, PopTo;
    var t := RunThread(before, loads);
    var frame := Open(begin, TopId(t.stack), loads);
    RunThreadAppend(before, begin, loads);
    RunNested(before + [begin], inside, loads);
    var inner := PostOrder(inside, frame.requestId, loads);
    RunThreadAppend(before + [begin] + Flatten(inside), end, loads);
    CloseTop(Thread(t.stack, t.out + inner), frame, end, loads);
    assert t.out + inner + [Close(frame, end, loads)] == t.out + (inner + [Close(frame, end, loads)]);
  }

  /** A properly nested thread yields every pair exactly once. */
  lemma NestedStreamsMatchExactly(f: Forest, loads: Loads)
    requires Proper(f)
    ensures RunThread(Flatten(f), loads) == Thread([], PostOrder(f, Null, loads))
  {
    RunNested([], f, loads);
    assert [] + Flatten(f) == Flatten(f);
  }

  // ----- the phases of a request

  predicate BringsNoId(f: Forest, loads: Loads) {
    forall e | e in Flatten(f) :: !Truthy(OwnId(e, loads))
  }

  lemma {:induction false} PostOrderMembers(f: Forest, inherited: Json, loads: Loads)
    ensures forall s | s in PostOrder(f, inherited, loads) :: s.begin in Flatten(f) && s.end in Flatten(f)
  {
    hide Fields, OwnId;
    match f
    case Done =>
    case Mark(_, rest) => PostOrderMembers(rest, inherited, loads);
    case Pair(begin, inside, end, rest) =>
      PostOrderMembers(inside, Open(begin, inherited, loads).requestId, loads);
      PostOrderMembers(rest, inherited, loads);
  }

  lemma {:induction false} PostOrderIds(f: Forest, inherited: Json, loads: Loads)
    requires BringsNoId(f, loads)
    ensures forall s | s in PostOrder(f, inherited, loads) :: s.requestId == inherited
  {
    hide Fields, OwnId;
    match f
    case Done =>
    case Mark(event, rest) =>
      assert Flatten(f) == [event] + Flatten(rest);
      PostOrderIds(rest, inherited, loads);
    case Pair(begin, inside, end, rest) =>
      assert begin in Flatten(f);
      PostOrderIds(inside, inherited, loads);
      PostOrderIds(rest, inherited, loads);
  }

  function Select(spans: seq<Span>, keep: Span -> bool): seq<Span> {
    if spans == [] then []
    else if keep(spans[0]) then [spans[0]] + Select(spans[1..], keep)
    else Select(spans[1..], keep)
  }

  predicate IsPhase(s: Span, request: Span, rid: Json) {
    s.begin.at != request.begin.at && s.requestId == rid && Within(s, request)
  }

  /** `inside`: the other spans with the request's id that lie within it. Begins are distinct, so a span is the
      request itself when it has its begin. */
  function PhasesOf(spans: seq<Span>, request: Span, rid: Json): seq<Span> {
    Select(spans, s => IsPhase(s, request, rid))
  }

  /** The spans that carry an id. */
  function Carrying(spans: seq<Span>, rid: Json): seq<Span> {
    Select(spans, (s: Span) => s.requestId == rid)
  }

  /** The spans that carry an id within the request's time. */
  function During(spans: seq<Span>, request: Span, rid: Json): seq<Span> {
    Select(spans, (s: Span) => s.requestId == rid && Within(s, request))
  }

  lemma {:induction false} SelectAppend(a: seq<Span>, b: seq<Span>, keep: Span -> bool)
    ensures Select(a + b, keep) == Select(a, keep) + Select(b, keep)
  {
    if a == [] {
      assert a + b == b;
    } else {
      SelectAppend(a[1..], b, keep);
      assert (a + b)[1..] == a[1..] + b;
    }
  }

  lemma SelectOne(s: Span, keep: Span -> bool)
    ensures Select([s], keep) == if keep(s) then [s] else []
  {
    assert [s][1..] == [];
  }

  lemma {:induction false} SelectSame(spans: seq<Span>, keep: Span -> bool, other: Span -> bool)
    requires forall s | s in spans :: keep(s) == other(s)
    ensures Select(spans, keep) == Select(spans, other)
  {
    if spans != [] { SelectSame(spans[1..], keep, other); }
  }

  lemma {:induction false} SelectNone(spans: seq<Span>, keep: Span -> bool)
    requires forall s | s in spans :: !keep(s)
    ensures Select(spans, keep) == []
  {
    if spans != [] { SelectNone(spans[1..], keep); }
  }

  lemma {:induction false} SelectAll(spans: seq<Span>, keep: Span -> bool)
    requires forall s | s in spans :: keep(s)
    ensures Select(spans, keep) == spans
  {
    if spans != [] { SelectAll(spans[1..], keep); }
  }

  lemma {:induction false} SelectMembers(spans: seq<Span>, keep: Span -> bool)
    ensures forall s | s in Select(spans, keep) :: s in spans && keep(s)
  {
    if spans != [] { SelectMembers(spans[1..], keep); }
  }

  lemma {:induction false} SelectTwice(spans: seq<Span>, first: Span -> bool, keep: Span -> bool)
    requires forall s | s in spans && keep(s) :: first(s)
    ensures Select(Select(spans, first), keep) == Select(spans, keep)
  {
    if spans != [] {
      SelectTwice(spans[1..], first, keep);
      var rest := Select(spans[1..], first);
      assert ([spans[0]] + rest)[1..] == rest;
    }
  }

  /** How many begins bring the id. */
  function Bringers(f: Forest, rid: Json, loads: Loads): nat {
    match f
    case Done => 0
    case Mark(_, rest) => Bringers(rest, rid, loads)
    case Pair(begin, inside, _, rest) =>
      (if OwnId(begin, loads) == rid then 1 else 0) + Bringers(inside, rid, loads) + Bringers(rest, rid, loads)
  }

  /** The pair is somewhere in the forest. */
  predicate Has(f: Forest, begin: Event, inside: Forest, end: Event) {
    match f
    case Done => false
    case Mark(_, rest) => Has(rest, begin, inside, end)
    case Pair(b, i, e, rest) =>
      (b == begin && i == inside && e == end) || Has(i, begin, inside, end) || Has(rest, begin, inside, end)
  }

  lemma {:induction false} HasBrings(f: Forest, begin: Event, inside: Forest, end: Event, loads: Loads)
    requires Has(f, begin, inside, end)
    ensures Bringers(f, OwnId(begin, loads), loads) >= 1 + Bringers(inside, OwnId(begin, loads), loads)
    decreases f
  {
    hide OwnId;
    match f
    case Done =>
    case Mark(_, rest) => HasBrings(rest, begin, inside, end, loads);
    case Pair(b, i, e, rest) =>
      if b == begin && i == inside && e == end {
      } else if Has(i, begin, inside, end) {
        HasBrings(i, begin, inside, end, loads);
      } else {
        HasBrings(rest, begin, inside, end, loads);
      }
  }

  lemma FlattenPair(b: Event, i: Forest, e: Event, rest: Forest)
    ensures Flatten(Pair(b, i, e, rest)) == [b] + Flatten(i) + [e] + Flatten(rest)
  {
  }

  predicate Splits(all: seq<Event>, before: seq<Event>, node: seq<Event>, after: seq<Event>) {
    all == before + node + after
  }

  lemma Embed(x: seq<Event>, all: seq<Event>, y: seq<Event>, before: seq<Event>, node: seq<Event>, after: seq<Event>)
    requires Splits(all, before, node, after)
    ensures Splits(x + all + y, x + before, node, after + y)
  {
  }

  lemma SplitsWhole(node: seq<Event>, after: seq<Event>)
    ensures Splits(node + after, [], node, after)
  {
  }

  lemma EmptyRight(all: seq<Event>)
    ensures all + [] == all
  {
  }

  lemma {:induction false} HasSlice(f: Forest, begin: Event, inside: Forest, end: Event)
    returns (before: seq<Event>, after: seq<Event>)
    requires Has(f, begin, inside, end)
    ensures Splits(Flatten(f), before, [begin] + Flatten(inside) + [end], after)
    decreases f
  {
    hide Splits;
    var node := [begin] + Flatten(inside) + [end];
    match f
    case Done =>
    case Mark(event, rest) =>
      var a, z := HasSlice(rest, begin, inside, end);
      Embed([event], Flatten(rest), [], a, node, z);
      EmptyRight([event] + Flatten(rest));
      before, after := [event] + a, z + [];
    case Pair(b, i, e, rest) =>
      FlattenPair(b, i, e, rest);
      hide Flatten;
      if b == begin && i == inside && e == end {
        SplitsWhole(node, Flatten(rest));
        before, after := [], Flatten(rest);
      } else if Has(i, begin, inside, end) {
        var a, z := HasSlice(i, begin, inside, end);
        Embed([b], Flatten(i), [e] + Flatten(rest), a, node, z);
        assert [b] + Flatten(i) + ([e] + Flatten(rest)) == [b] + Flatten(i) + [e] + Flatten(rest);
        before, after := [b] + a, z + ([e] + Flatten(rest));
      } else {
        var a, z := HasSlice(rest, begin, inside, end);
        Embed([b] + Flatten(i) + [e], Flatten(rest), [], a, node, z);
        EmptyRight([b] + Flatten(i) + [e] + Flatten(rest));
        before, after := [b] + Flatten(i) + [e] + a, z + [];
      }
  }

  /** The spans of one pair of a forest and those after it. */
  lemma CarryingPair(begin: Event, inside: Forest, end: Event, rest: Forest, inherited: Json, rid: Json, loads: Loads)
    ensures var frame := Open(begin, inherited, loads);
      var span := Close(frame, end, loads);
      Carrying(PostOrder(Pair(begin, inside, end, rest), inherited, loads), rid)
      == Carrying(PostOrder(inside, frame.requestId, loads), rid) + (if frame.requestId == rid then [span] else [])
         + Carrying(PostOrder(rest, inherited, loads), rid)
  {
    hide OwnId, Fields;
    var frame := Open(begin, inherited, loads);
    var inner, span := PostOrder(inside, frame.requestId, loads), Close(frame, end, loads);
    var keep := (s: Span) => s.requestId == rid;
    SelectAppend(inner + [span], PostOrder(rest, inherited, loads), keep);
    SelectAppend(inner, [span], keep);
    SelectOne(span, keep);
  }

  /** An id nobody brings or hands down is carried by nobody. */
  lemma {:induction false} NobodyCarries(f: Forest, inherited: Json, rid: Json, loads: Loads)
    requires Bringers(f, rid, loads) == 0 && inherited != rid
    ensures Carrying(PostOrder(f, inherited, loads), rid) == []
    decreases f
  {
    hide OwnId, Fields;
    match f
    case Done =>
    case Mark(_, rest) => NobodyCarries(rest, inherited, rid, loads);
    case Pair(begin, inside, end, rest) =>
      CarryingPair(begin, inside, end, rest, inherited, rid, loads);
      NobodyCarries(inside, Open(begin, inherited, loads).requestId, rid, loads);
      NobodyCarries(rest, inherited, rid, loads);
  }

  /** The spans that carry an id brought once: those under its request that no nearer request claims, then the
      request. */
  lemma {:induction false} CarriersOfRequest(f: Forest, begin: Event, inside: Forest, end: Event, inherited: Json,
                                             loads: Loads)
    requires Has(f, begin, inside, end) && Truthy(OwnId(begin, loads))
    requires Bringers(f, OwnId(begin, loads), loads) == 1 && inherited != OwnId(begin, loads)
    ensures var rid := OwnId(begin, loads);
      Carrying(PostOrder(f, inherited, loads), rid)
      == Carrying(PostOrder(inside, rid, loads), rid) + [Close(Frame(begin, rid), end, loads)]
    decreases f
  {
    hide OwnId, Fields, Close;
    var rid := OwnId(begin, loads);
    match f
    case Done =>
    case Mark(_, rest) => CarriersOfRequest(rest, begin, inside, end, inherited, loads);
    case Pair(b, i, e, rest) =>
      CarryingPair(b, i, e, rest, inherited, rid, loads);
      if b == begin && i == inside && e == end {
        NobodyCarries(rest, inherited, rid, loads);
      } else if Has(i, begin, inside, end) {
        HasBrings(i, begin, inside, end, loads);
        CarriersOfRequest(i, begin, inside, end, Open(b, inherited, loads).requestId, loads);
        NobodyCarries(rest, inherited, rid, loads);
      } else {
        HasBrings(rest, begin, inside, end, loads);
        NobodyCarries(i, Open(b, inherited, loads).requestId, rid, loads);
        CarriersOfRequest(rest, begin, inside, end, inherited, loads);
      }
  }

  lemma PhasesAreCarriers(spans: seq<Span>, request: Span, rid: Json)
    ensures PhasesOf(spans, request, rid) == PhasesOf(Carrying(spans, rid), request, rid)
  {
    hide Within;
    SelectTwice(spans, (s: Span) => s.requestId == rid, s => IsPhase(s, request, rid));
  }

  lemma AllArePhases(spans: seq<Span>, request: Span, rid: Json)
    requires forall s | s in spans :: s.begin.at != request.begin.at && s.requestId == rid && Within(s, request)
    ensures PhasesOf(spans + [request], request, rid) == spans
  {
    hide Within;
    var keep := (s: Span) => IsPhase(s, request, rid);
    SelectAppend(spans, [request], keep);
    SelectAll(spans, keep);
    SelectOne(request, keep);
  }

  lemma CarryingMembers(spans: seq<Span>, rid: Json)
    ensures forall s | s in Carrying(spans, rid) :: s in spans && s.requestId == rid
    ensures (forall s | s in spans :: s.requestId == rid) ==> Carrying(spans, rid) == spans
  {
    var keep := (s: Span) => s.requestId == rid;
    SelectMembers(spans, keep);
    if forall s | s in spans :: s.requestId == rid { SelectAll(spans, keep); }
  }

  lemma SliceInOrder(before: seq<Event>, middle: seq<Event>, after: seq<Event>)
    requires Ordered(before + middle + after) && Timed(before + middle + after)
    ensures Ordered(middle) && Timed(middle)
  {
    var all := before + middle + after;
    assert forall i | 0 <= i < |middle| :: middle[i] == all[|before| + i];
  }

  lemma LaterThanBegin(begin: Event, flat: seq<Event>, end: Event, x: Event)
    requires Ordered([begin] + flat + [end]) && x in flat
    ensures begin.at < x.at
  {
    var i :| 0 <= i < |flat| && flat[i] == x;
    var all := [begin] + flat + [end];
    assert all[0] == begin && all[i + 1] == x;
  }

  // ----- the filter under strictly increasing clocks

  /** Later in the trace and strictly later by the clock. */
  predicate Forward(events: seq<Event>) {
    forall i, j | 0 <= i < j < |events| :: events[i].at < events[j].at && events[i].ts < events[j].ts
  }

  lemma ForwardSplit(a: seq<Event>, b: seq<Event>)
    requires Forward(a + b)
    ensures Forward(a) && Forward(b)
    ensures forall x, y | x in a && y in b :: x.at < y.at && x.ts < y.ts
  {
    var all := a + b;
    forall i, j | 0 <= i < j < |a| ensures a[i].at < a[j].at && a[i].ts < a[j].ts {
      assert all[i] == a[i] && all[j] == a[j];
    }
    forall i, j | 0 <= i < j < |b| ensures b[i].at < b[j].at && b[i].ts < b[j].ts {
      assert all[|a| + i] == b[i] && all[|a| + j] == b[j];
    }
    forall x, y | x in a && y in b ensures x.at < y.at && x.ts < y.ts {
      var i :| 0 <= i < |a| && a[i] == x;
      var j :| 0 <= j < |b| && b[j] == y;
      assert all[i] == x && all[|a| + j] == y;
    }
  }

  lemma ForwardPair(begin: Event, inside: seq<Event>, end: Event, rest: seq<Event>)
    requires Forward([begin] + inside + [end] + rest)
    ensures Forward(inside) && Forward(rest) && begin.at < end.at && begin.ts < end.ts
    ensures forall x | x in inside :: begin.at < x.at < end.at && begin.ts < x.ts < end.ts
    ensures forall y | y in rest :: end.at < y.at && end.ts < y.ts
    ensures forall x, y | x in inside && y in rest :: x.ts < y.ts
  {
    hide Forward;
    ForwardSplit([begin] + inside + [end], rest);
    ForwardSplit([begin] + inside, [end]);
    ForwardSplit([begin], inside);
    assert begin in [begin] && end in [end];
    assert forall x | x in inside :: x in [begin] + inside && x in [begin] + inside + [end];
    assert end in [begin] + inside + [end];
  }

  lemma {:induction false} HasMembers(f: Forest, begin: Event, inside: Forest, end: Event)
    requires Has(f, begin, inside, end)
    ensures begin in Flatten(f) && end in Flatten(f)
  {
    var before, after := HasSlice(f, begin, inside, end);
    var node := [begin] + Flatten(inside) + [end];
    assert begin == node[0] && end == node[|node| - 1];
    assert begin in node && end in node;
  }

  /** The id handed down to the pair. */
  function Above(f: Forest, begin: Event, inside: Forest, end: Event, inherited: Json, loads: Loads): Json
    requires Has(f, begin, inside, end)
    decreases f
  {
    match f
    case Done => Null
    case Mark(_, rest) => Above(rest, begin, inside, end, inherited, loads)
    case Pair(b, i, e, rest) =>
      if b == begin && i == inside && e == end then inherited
      else if Has(i, begin, inside, end) then
        Above(i, begin, inside, end, Open(b, inherited, loads).requestId, loads)
      else Above(rest, begin, inside, end, inherited, loads)
  }

  /** The pair's own span. */
  function SpanOf(f: Forest, begin: Event, inside: Forest, end: Event, inherited: Json, loads: Loads): Span
    requires Has(f, begin, inside, end)
  {
    Close(Open(begin, Above(f, begin, inside, end, inherited, loads), loads), end, loads)
  }

  lemma {:induction false} SpanIsEmitted(f: Forest, begin: Event, inside: Forest, end: Event, inherited: Json,
                                         loads: Loads)
    requires Has(f, begin, inside, end)
    ensures SpanOf(f, begin, inside, end, inherited, loads) in PostOrder(f, inherited, loads)
    decreases f
  {
    hide OwnId, Fields;
    match f
    case Done =>
    case Mark(_, rest) => SpanIsEmitted(rest, begin, inside, end, inherited, loads);
    case Pair(b, i, e, rest) =>
      if b == begin && i == inside && e == end {
      } else if Has(i, begin, inside, end) {
        SpanIsEmitted(i, begin, inside, end, Open(b, inherited, loads).requestId, loads);
      } else {
        SpanIsEmitted(rest, begin, inside, end, inherited, loads);
      }
  }

  lemma PhasesAppend(a: seq<Span>, b: seq<Span>, request: Span, rid: Json)
    ensures PhasesOf(a + b, request, rid) == PhasesOf(a, request, rid) + PhasesOf(b, request, rid)
  {
    SelectAppend(a, b, s => IsPhase(s, request, rid));
  }

  lemma PhasesOutside(spans: seq<Span>, request: Span, rid: Json)
    requires forall s | s in spans :: s.begin.at == request.begin.at || !Within(s, request)
    ensures PhasesOf(spans, request, rid) == []
  {
    hide Within;
    SelectNone(spans, s => IsPhase(s, request, rid));
  }

  lemma PhasesInside(spans: seq<Span>, request: Span, rid: Json)
    requires forall s | s in spans :: s.begin.at != request.begin.at && Within(s, request)
    ensures PhasesOf(spans, request, rid) == Carrying(spans, rid)
  {
    hide Within;
    SelectSame(spans, s => IsPhase(s, request, rid), (s: Span) => s.requestId == rid);
  }

  /** The filter on the spans of one pair and those after it. */
  lemma PhasesOfPair(begin: Event, inside: Forest, end: Event, rest: Forest, inherited: Json, request: Span, rid: Json,
                     loads: Loads)
    ensures var frame := Open(begin, inherited, loads);
      PhasesOf(PostOrder(Pair(begin, inside, end, rest), inherited, loads), request, rid)
      == PhasesOf(PostOrder(inside, frame.requestId, loads), request, rid)
         + PhasesOf([Close(frame, end, loads)], request, rid)
         + PhasesOf(PostOrder(rest, inherited, loads), request, rid)
  {
    hide OwnId, Fields, PhasesOf;
    var frame := Open(begin, inherited, loads);
    var inner, span := PostOrder(inside, frame.requestId, loads), Close(frame, end, loads);
    PhasesAppend(inner + [span], PostOrder(rest, inherited, loads), request, rid);
    PhasesAppend(inner, [span], request, rid);
  }

  lemma SpansAfter(f: Forest, inherited: Json, request: Span, rid: Json, loads: Loads)
    requires forall x | x in Flatten(f) :: request.end.ts < x.ts
    ensures PhasesOf(PostOrder(f, inherited, loads), request, rid) == []
  {
    hide PhasesOf, PostOrder, Flatten;
    PostOrderMembers(f, inherited, loads);
    PhasesOutside(PostOrder(f, inherited, loads), request, rid);
  }

  lemma SpansBefore(f: Forest, inherited: Json, request: Span, rid: Json, loads: Loads)
    requires forall x | x in Flatten(f) :: x.ts < request.begin.ts
    ensures PhasesOf(PostOrder(f, inherited, loads), request, rid) == []
  {
    hide PhasesOf, PostOrder, Flatten;
    PostOrderMembers(f, inherited, loads);
    PhasesOutside(PostOrder(f, inherited, loads), request, rid);
  }

  lemma SpansInside(f: Forest, inherited: Json, request: Span, rid: Json, loads: Loads)
    requires forall x | x in Flatten(f) ::
      request.begin.at < x.at && request.begin.ts < x.ts && x.ts < request.end.ts
    ensures PhasesOf(PostOrder(f, inherited, loads), request, rid) == Carrying(PostOrder(f, inherited, loads), rid)
  {
    hide PhasesOf, PostOrder, Flatten, Carrying;
    PostOrderMembers(f, inherited, loads);
    PhasesInside(PostOrder(f, inherited, loads), request, rid);
  }

  lemma ForwardOrder(events: seq<Event>, x: Event, y: Event)
    requires Forward(events) && x in events && y in events
    ensures x.at < y.at <==> x.ts < y.ts
    ensures x.at == y.at ==> x == y
  {
    var i :| 0 <= i < |events| && events[i] == x;
    var j :| 0 <= j < |events| && events[j] == y;
    assert i < j || i == j || j < i;
  }

  lemma PhaseIsNested(events: seq<Event>, out: seq<Span>, p: nat, q: nat)
    requires Forward(events) && Laminar(out) && p < |out| && q < |out|
    requires forall s | s in out :: s.begin in events && s.end in events
    requires forall i, j | 0 <= i < j < |out| :: out[i].end != out[j].end
    ensures out[p].begin.at != out[q].begin.at && Within(out[p], out[q]) <==> Nested(out[p], out[q])
  {
    hide Forward;
    var s, r := out[p], out[q];
    ForwardOrder(events, s.begin, r.begin);
    ForwardOrder(events, r.begin, s.begin);
    ForwardOrder(events, s.end, r.end);
    ForwardOrder(events, r.end, s.end);
    assert p != q ==> s.end != r.end;
  }

  /** On any thread whose clock strictly advances, nested properly or not: the phases of one of its spans are
      exactly the spans that carry the id and whose begin and end both fall between its own. */
  lemma PhasesAreNested(events: seq<Event>, key: Key, request: Span, rid: Json, loads: Loads)
    requires Ordered(events) && Forward(OfThread(events, key)) && request in SpansOf(Run(events, loads).out, key)
    ensures var mine := SpansOf(Run(events, loads).out, key);
      PhasesOf(mine, request, rid) == Select(mine, (s: Span) => s.requestId == rid && Nested(s, request))
  {
    hide Run, SpansOf, OfThread, Ordered, Forward, Timed, Laminar, Within, Nested;
    var mine := SpansOf(Run(events, loads).out, key);
    SpansAreLaminar(events, key, loads);
    var q :| 0 <= q < |mine| && mine[q] == request;
    forall s | s in mine ensures IsPhase(s, request, rid) == (s.requestId == rid && Nested(s, request)) {
      var p :| 0 <= p < |mine| && mine[p] == s;
      PhaseIsNested(OfThread(events, key), mine, p, q);
    }
    SelectSame(mine, s => IsPhase(s, request, rid), (s: Span) => s.requestId == rid && Nested(s, request));
  }

  /** The request is the first pair of the forest. */
  lemma PhasesHere(begin: Event, inside: Forest, end: Event, rest: Forest, inherited: Json, request: Span, rid: Json,
                   loads: Loads)
    requires Forward([begin] + Flatten(inside) + [end] + Flatten(rest)) && request.begin == begin && request.end == end
    ensures PhasesOf(PostOrder(Pair(begin, inside, end, rest), inherited, loads), request, rid)
      == Carrying(PostOrder(inside, Open(begin, inherited, loads).requestId, loads), rid)
  {
    hide OwnId, Fields, PhasesOf, Carrying, Forward, PostOrder, Flatten;
    var frame := Open(begin, inherited, loads);
    PhasesOfPair(begin, inside, end, rest, inherited, request, rid, loads);
    ForwardPair(begin, Flatten(inside), end, Flatten(rest));
    SpansInside(inside, frame.requestId, request, rid, loads);
    PhasesOutside([Close(frame, end, loads)], request, rid);
    SpansAfter(rest, inherited, request, rid, loads);
  }

  /** The request is inside the first pair of the forest. */
  lemma PhasesUnder(b: Event, i: Forest, e: Event, rest: Forest, inherited: Json, request: Span, rid: Json,
                    loads: Loads)
    requires Forward([b] + Flatten(i) + [e] + Flatten(rest))
    requires request.begin in Flatten(i) && request.end in Flatten(i)
    ensures PhasesOf(PostOrder(Pair(b, i, e, rest), inherited, loads), request, rid)
      == PhasesOf(PostOrder(i, Open(b, inherited, loads).requestId, loads), request, rid)
  {
    hide OwnId, Fields, PhasesOf, Forward, PostOrder, Flatten;
    var frame := Open(b, inherited, loads);
    PhasesOfPair(b, i, e, rest, inherited, request, rid, loads);
    ForwardPair(b, Flatten(i), e, Flatten(rest));
    PhasesOutside([Close(frame, e, loads)], request, rid);
    SpansAfter(rest, inherited, request, rid, loads);
  }

  /** The request is after the first pair of the forest. */
  lemma PhasesBeyond(b: Event, i: Forest, e: Event, rest: Forest, inherited: Json, request: Span, rid: Json,
                     loads: Loads)
    requires Forward([b] + Flatten(i) + [e] + Flatten(rest)) && request.begin in Flatten(rest)
    ensures PhasesOf(PostOrder(Pair(b, i, e, rest), inherited, loads), request, rid)
      == PhasesOf(PostOrder(rest, inherited, loads), request, rid)
  {
    hide OwnId, Fields, PhasesOf, Forward, PostOrder, Flatten;
    var frame := Open(b, inherited, loads);
    PhasesOfPair(b, i, e, rest, inherited, request, rid, loads);
    ForwardPair(b, Flatten(i), e, Flatten(rest));
    SpansBefore(i, frame.requestId, request, rid, loads);
    PhasesOutside([Close(frame, e, loads)], request, rid);
  }

  lemma ForwardParts(b: Event, i: seq<Event>, e: Event, rest: seq<Event>)
    requires Forward([b] + i + [e] + rest)
    ensures Forward(i) && Forward(rest)
  {
    hide Forward;
    ForwardPair(b, i, e, rest);
  }

  /** Of a nested thread's spans the filter keeps exactly those inside the pair that carry the id, whoever else
      brings it, and whatever id is asked for. */
  lemma {:induction false} PhasesInForest(f: Forest, begin: Event, inside: Forest, end: Event, inherited: Json,
                                          request: Span, rid: Json, loads: Loads)
    requires Has(f, begin, inside, end) && Forward(Flatten(f)) && request.begin == begin && request.end == end
    ensures var own := SpanOf(f, begin, inside, end, inherited, loads).requestId;
      PhasesOf(PostOrder(f, inherited, loads), request, rid) == Carrying(PostOrder(inside, own, loads), rid)
    decreases f
  {
    hide OwnId, Fields, PhasesOf, Carrying, Forward;
    match f
    case Done =>
    case Mark(event, rest) =>
      ForwardSplit([event], Flatten(rest));
      PhasesInForest(rest, begin, inside, end, inherited, request, rid, loads);
    case Pair(b, i, e, rest) =>
      FlattenPair(b, i, e, rest);
      hide PostOrder, Flatten;
      if b == begin && i == inside && e == end {
        PhasesHere(b, i, e, rest, inherited, request, rid, loads);
      } else if Has(i, begin, inside, end) {
        HasMembers(i, begin, inside, end);
        PhasesUnder(b, i, e, rest, inherited, request, rid, loads);
        ForwardParts(b, Flatten(i), e, Flatten(rest));
        PhasesInForest(i, begin, inside, end, Open(b, inherited, loads).requestId, request, rid, loads);
      } else {
        HasMembers(rest, begin, inside, end);
        PhasesBeyond(b, i, e, rest, inherited, request, rid, loads);
        ForwardParts(b, Flatten(i), e, Flatten(rest));
        PhasesInForest(rest, begin, inside, end, inherited, request, rid, loads);
      }
  }

  lemma {:induction false} SelectByThread(spans: seq<Span>, keep: Span -> bool, key: Key)
    ensures SpansOf(Select(spans, keep), key) == Select(SpansOf(spans, key), keep)
  {
    if spans == [] {
    } else {
      var n := |spans| - 1;
      var before, last := spans[..n], spans[n];
      assert spans == before + [last];
      SelectByThread(before, keep, key);
      SelectAppend(before, [last], keep);
      SelectAppend(SpansOf(before, key), [last], keep);
      SelectOne(last, keep);
      if keep(last) {
        SpansOfAppend(Select(before, keep), last, key);
      } else {
        assert Select(before, keep) + [] == Select(before, keep);
      }
      assert Select(SpansOf(before, key), keep) + [] == Select(SpansOf(before, key), keep);
    }
  }

  lemma PhasesByThread(spans: seq<Span>, request: Span, rid: Json, key: Key)
    ensures SpansOf(PhasesOf(spans, request, rid), key) == PhasesOf(SpansOf(spans, key), request, rid)
  {
    SelectByThread(spans, s => IsPhase(s, request, rid), key);
  }

  lemma PhasesElsewhere(spans: seq<Span>, request: Span, rid: Json)
    requires forall s | s in spans :: s.begin.at != request.begin.at
    ensures PhasesOf(spans, request, rid) == During(spans, request, rid)
  {
    hide Within;
    SelectSame(spans, s => IsPhase(s, request, rid), (s: Span) => s.requestId == rid && Within(s, request));
  }

  lemma {:induction false} OfThreadMembers(events: seq<Event>, key: Key)
    ensures forall e | e in OfThread(events, key) :: e in events && e.key == key
  {
    if events == [] {
    } else {
      OfThreadMembers(events[..|events| - 1], key);
    }
  }

  lemma {:induction false} SpansOfMembers(out: seq<Span>, key: Key)
    ensures forall s | s in SpansOf(out, key) :: s in out
  {
    if out == [] {
    } else {
      SpansOfMembers(out[..|out| - 1], key);
    }
  }

  lemma OneEventPerPlace(events: seq<Event>, x: Event, y: Event)
    requires Ordered(events) && x in events && y in events && x != y
    ensures x.at != y.at
  {
    var i :| 0 <= i < |events| && events[i] == x;
    var j :| 0 <= j < |events| && events[j] == y;
    assert i < j || j < i;
  }

  lemma ElsewhereBegins(events: seq<Event>, begin: Event, key: Key, loads: Loads)
    requires Ordered(events) && begin in events && begin.key != key
    ensures forall s | s in SpansOf(Run(events, loads).out, key) :: s.begin.at != begin.at
  {
    hide Run, SpansOf, OfThread, Ordered, Timed, Laminar;
    SpansAreLaminar(events, key, loads);
    OfThreadMembers(events, key);
    forall s | s in SpansOf(Run(events, loads).out, key) ensures s.begin.at != begin.at {
      OneEventPerPlace(events, s.begin, begin);
    }
  }

  /** The ownership filter over a whole trace, for a request anywhere on a properly nested thread whose clock
      strictly advances, and for any id: on the request's own thread it selects exactly the spans inside the
      request that carry the id, in order, however many begins bring it; on every other thread exactly those
      that carry it within the request's time. */
  lemma PhasesAreOwned(events: seq<Event>, f: Forest, begin: Event, inside: Forest, end: Event, rid: Json, key: Key,
                       loads: Loads)
    requires Ordered(events) && OfThread(events, begin.key) == Flatten(f)
    requires Proper(f) && Forward(Flatten(f)) && Has(f, begin, inside, end)
    ensures var spans := Run(events, loads).out;
      var request := SpanOf(f, begin, inside, end, Null, loads);
      var phases := SpansOf(PhasesOf(spans, request, rid), key);
      && request in spans
      && (key == begin.key ==> phases == Carrying(PostOrder(inside, request.requestId, loads), rid))
      && (key != begin.key ==> phases == During(SpansOf(spans, key), request, rid))
  {
    hide Ordered, OfThread, Flatten, Proper, Forward, Has, Above, Run, RunThread, PostOrder, SpansOf, PhasesOf;
    hide Carrying, During, OwnId, Fields;
    var spans := Run(events, loads).out;
    var request := SpanOf(f, begin, inside, end, Null, loads);
    HasMembers(f, begin, inside, end);
    OfThreadMembers(events, begin.key);
    ThreadsAreIndependent(events, begin.key, loads);
    NestedStreamsMatchExactly(f, loads);
    SpanIsEmitted(f, begin, inside, end, Null, loads);
    SpansOfMembers(spans, begin.key);
    PhasesByThread(spans, request, rid, key);
    if key == begin.key {
      PhasesInForest(f, begin, inside, end, Null, request, rid, loads);
    } else {
      ElsewhereBegins(events, begin, key, loads);
      PhasesElsewhere(SpansOf(spans, key), request, rid);
    }
  }

  function RequestEvent(at: nat, ph: string, args: map<string, Json>): Event {
    Event(at, ph, "http.request", Key(Some(1), Some(1)), at as real, args)
  }

  /** A request entered under "a" whose end names "b", around one that brings "b". */
  function Renamed(): Forest {
    Pair(RequestEvent(0, "B", map["request_id" := Str("a")]), Brought(),
         RequestEvent(3, "E", map["request_id" := Str("b")]), Done)
  }

  function Brought(): Forest {
    Pair(RequestEvent(1, "B", map["request_id" := Str("b")]), Done, RequestEvent(2, "E", map[]), Done)
  }

  lemma RenamedIsForward()
    ensures Proper(Renamed()) && Forward(Flatten(Renamed()))
    ensures Has(Renamed(), Renamed().begin, Brought(), Renamed().end)
  {
    assert Flatten(Brought()) == [Brought().begin, Brought().end];
    assert Flatten(Renamed()) == [Renamed().begin, Brought().begin, Brought().end, Renamed().end];
  }

  /** Text that is no JSON stays text. */
  function NoJson(): Loads {
    _ => None
  }

  lemma RenamedIds()
    ensures OwnId(Renamed().begin, NoJson()) == Str("a") && OwnId(Brought().begin, NoJson()) == Str("b")
    ensures Get(Fields(Renamed().begin, Renamed().end, NoJson()), "request_id") == Str("b")
  {
    var merged := Renamed().begin.args + Renamed().end.args;
    assert "request_id" in merged && merged["request_id"] == Str("b");
  }

  /** A request whose end names another id than its begin owns what is inside under that id: here a nested
      request that brings it. */
  lemma EndNamesNested() returns (nested: Span)
    ensures var f, loads := Renamed(), NoJson();
      && Proper(f) && Forward(Flatten(f)) && Has(f, f.begin, f.inside, f.end)
      && var request := SpanOf(f, f.begin, f.inside, f.end, Null, loads);
         request.requestId == Str("a") && Get(request.fields, "request_id") == Str("b")
         && PhasesOf(RunThread(Flatten(f), loads).out, request, Str("b")) == [nested]
  {
    hide Proper, Forward, Flatten, RunThread, PhasesOf, OwnId, Fields, Get, RequestEvent, Has, NoJson;
    var f, loads := Renamed(), NoJson();
    RenamedIsForward();
    RenamedIds();
    var request := SpanOf(f, f.begin, f.inside, f.end, Null, loads);
    NestedStreamsMatchExactly(f, loads);
    PhasesInForest(f, f.begin, f.inside, f.end, Null, request, Str("b"), loads);
    nested := Close(Open(Brought().begin, Str("a"), loads), Brought().end, loads);
    assert PostOrder(Brought(), Str("a"), loads) == [nested];
    SelectOne(nested, (s: Span) => s.requestId == Str("b"));
  }

  // ----- the filter under clocks that may stand still

  /** With equal timestamps allowed, for a request whose id no other begin on its thread brings. */
  lemma PhasesWithTies(f: Forest, begin: Event, inside: Forest, end: Event, loads: Loads)
    requires Proper(f) && Ordered(Flatten(f)) && Timed(Flatten(f)) && Has(f, begin, inside, end)
    requires Truthy(OwnId(begin, loads)) && Bringers(f, OwnId(begin, loads), loads) == 1
    ensures var spans := RunThread(Flatten(f), loads).out;
      var request := Close(Frame(begin, OwnId(begin, loads)), end, loads);
      var rid := Get(request.fields, "request_id");
      && request in spans
      && (rid == OwnId(begin, loads) ==>
            && PhasesOf(spans, request, rid) == Carrying(PostOrder(inside, rid, loads), rid)
            && (BringsNoId(inside, loads) ==> PhasesOf(spans, request, rid) == PostOrder(inside, rid, loads)))
      && (rid == OwnId(begin, loads) <==>
            "request_id" !in end.args || Value(end.args["request_id"], loads) == OwnId(begin, loads))
      && (Truthy(rid) && Bringers(f, rid, loads) == 0 ==> PhasesOf(spans, request, rid) == [])
  {
    hide Proper, OwnId, Close, RunThread, Ordered, Timed, PostOrder, Has, Bringers, BringsNoId, Flatten, PhasesOf;
    hide Truthy;
    var rid := OwnId(begin, loads);
    var request := Close(Frame(begin, rid), end, loads);
    var spans := PostOrder(f, Null, loads);
    NestedStreamsMatchExactly(f, loads);
    MergedId(begin, end, loads);
    NullIsFalse();
    CarriersOfRequest(f, begin, inside, end, Null, loads);
    var mine := Carrying(PostOrder(inside, rid, loads), rid);
    CarryingMembers(spans, rid);
    assert request in Carrying(spans, rid) by { assert (mine + [request])[|mine|] == request; }
    PhasesAreCarriers(spans, request, rid);
    MineAreWithin(f, begin, inside, end, loads);
    AllArePhases(mine, request, rid);
    if BringsNoId(inside, loads) {
      PostOrderIds(inside, rid, loads);
      CarryingMembers(PostOrder(inside, rid, loads), rid);
    }
    var named := Get(request.fields, "request_id");
    if Truthy(named) && Bringers(f, named, loads) == 0 {
      NobodyCarries(f, Null, named, loads);
      PhasesAreCarriers(spans, request, named);
      NoPhases(request, named);
    }
  }

  lemma NullIsFalse()
    ensures !Truthy(Null)
  {
  }

  lemma NoPhases(request: Span, rid: Json)
    ensures PhasesOf([], request, rid) == []
  {
  }

  /** The merged fields name the begin's id unless the end names another. */
  lemma MergedId(begin: Event, end: Event, loads: Loads)
    requires Truthy(OwnId(begin, loads))
    ensures Get(Close(Frame(begin, OwnId(begin, loads)), end, loads).fields, "request_id") == OwnId(begin, loads)
      <==> "request_id" !in end.args || Value(end.args["request_id"], loads) == OwnId(begin, loads)
  {
    var merged := begin.args + end.args;
    assert "request_id" in begin.args by { NoArgIsFalse(begin, loads); }
    assert "request_id" in merged;
  }

  lemma NoArgIsFalse(begin: Event, loads: Loads)
    ensures "request_id" !in begin.args ==> !Truthy(OwnId(begin, loads))
  {
  }

  lemma MineAreWithin(f: Forest, begin: Event, inside: Forest, end: Event, loads: Loads)
    requires Ordered(Flatten(f)) && Timed(Flatten(f)) && Has(f, begin, inside, end)
    ensures var rid := OwnId(begin, loads);
      var request := Close(Frame(begin, rid), end, loads);
      forall s | s in Carrying(PostOrder(inside, rid, loads), rid) ::
        s.begin.at != request.begin.at && s.requestId == rid && Within(s, request)
  {
    hide OwnId, PostOrder, Has, Ordered, Timed, Fields, Carrying;
    var rid, flat := OwnId(begin, loads), Flatten(inside);
    var before, after := HasSlice(f, begin, inside, end);
    SliceInOrder(before, [begin] + flat + [end], after);
    PostOrderMembers(inside, rid, loads);
    CarryingMembers(PostOrder(inside, rid, loads), rid);
    forall x | x in flat ensures begin.ts <= x.ts <= end.ts && begin.at < x.at {
      BetweenEnds(begin, flat, end, x);
      LaterThanBegin(begin, flat, end, x);
    }
  }

  lemma BetweenEnds(begin: Event, flat: seq<Event>, end: Event, x: Event)
    requires Timed([begin] + flat + [end]) && x in flat
    ensures begin.ts <= x.ts <= end.ts
  {
    var i :| 0 <= i < |flat| && flat[i] == x;
    var all := [begin] + flat + [end];
    assert all[0] == begin && all[i + 1] == x && all[|flat| + 1] == end;
  }

  // ----- the entry that stands for a request

  predicate IsEntry(s: Span, rid: Json, str: Json -> string) {
    && s.end.name == "http.request" && Get(s.fields, "request_id") == rid && Truthy(rid)
    && "/v1/" <= if "route" in s.fields then str(s.fields["route"]) else ""
  }

  function Duration(s: Span): real {
    s.End() - s.Start()
  }

  /** The first longest entry of the request among the spans. */
  predicate LongestAt(spans: seq<Span>, i: nat, rid: Json, str: Json -> string) {
    && i < |spans| && IsEntry(spans[i], rid, str)
    && forall j | 0 <= j < |spans| && IsEntry(spans[j], rid, str) ::
         Duration(spans[j]) <= Duration(spans[i]) && (j < i ==> Duration(spans[j]) < Duration(spans[i]))
  }

  ghost predicate Chosen(spans: seq<Span>, byId: map<Json, Span>, str: Json -> string) {
    && (forall i | 0 <= i < |spans| ::
          var rid := Get(spans[i].fields, "request_id"); IsEntry(spans[i], rid, str) ==> rid in byId)
    && forall rid | rid in byId :: exists i: nat :: LongestAt(spans, i, rid, str) && spans[i] == byId[rid]
  }

  /** The loop that keeps, of the entries of each request, the longest. */
  method LongestEntries(spans: seq<Span>, str: Json -> string) returns (byId: map<Json, Span>)
    ensures Chosen(spans, byId, str)
  {
    hide Chosen, Truthy, Duration;
    byId := map[];
    assert Chosen([], byId, str) by { NothingChosen(str); }
    assert spans[..0] == [];
    for k := 0 to |spans|
      invariant Chosen(spans[..k], byId, str)
    {
      var span := spans[k];
      var rid := Get(span.fields, "request_id");
      var route := if "route" in span.fields then str(span.fields["route"]) else "";
      ghost var before := byId;
      if span.end.name == "http.request" && Truthy(rid) && "/v1/" <= route {
        if rid !in byId || Duration(span) > Duration(byId[rid]) { byId := byId[rid := span]; }
      }
      ChooseNext(spans[..k], span, before, byId, str);
      assert spans[..k] + [span] == spans[..k + 1];
    }
    assert spans[..|spans|] == spans;
  }

  lemma NothingChosen(str: Json -> string)
    ensures Chosen([], map[], str)
  {
  }

  lemma ChooseNext(spans: seq<Span>, s: Span, before: map<Json, Span>, after: map<Json, Span>, str: Json -> string)
    requires Chosen(spans, before, str)
    requires var rid := Get(s.fields, "request_id");
      after == if IsEntry(s, rid, str) && (rid !in before || Duration(s) > Duration(before[rid])) then before[rid := s]
               else before
    ensures Chosen(spans + [s], after, str)
  {
    hide IsEntry, Duration;
    var more, own := spans + [s], Get(s.fields, "request_id");
    assert forall i | 0 <= i < |spans| :: more[i] == spans[i];
    forall rid | rid in after ensures exists i: nat :: LongestAt(more, i, rid, str) && more[i] == after[rid] {
      if rid in before {
        var i: nat :| LongestAt(spans, i, rid, str) && spans[i] == before[rid];
        EntryId(s, rid, str);
        KeepsLongest(spans, s, i, rid, str);
      } else {
        FirstEntry(spans, s, before, str);
      }
    }
    forall i | 0 <= i < |more|
      ensures var rid := Get(more[i].fields, "request_id"); IsEntry(more[i], rid, str) ==> rid in after
    {
    }
  }

  lemma EntryId(s: Span, rid: Json, str: Json -> string)
    ensures IsEntry(s, rid, str) ==> rid == Get(s.fields, "request_id")
  {
  }

  lemma KeepsLongest(spans: seq<Span>, s: Span, i: nat, rid: Json, str: Json -> string)
    requires LongestAt(spans, i, rid, str)
    ensures var at: nat := if IsEntry(s, rid, str) && Duration(s) > Duration(spans[i]) then |spans| else i;
      LongestAt(spans + [s], at, rid, str)
  {
    hide IsEntry, Duration;
  }

  lemma FirstEntry(spans: seq<Span>, s: Span, before: map<Json, Span>, str: Json -> string)
    requires Chosen(spans, before, str) && Get(s.fields, "request_id") !in before
    requires IsEntry(s, Get(s.fields, "request_id"), str)
    ensures LongestAt(spans + [s], |spans|, Get(s.fields, "request_id"), str)
  {
    hide Duration;
    var rid := Get(s.fields, "request_id");
    forall j | 0 <= j < |spans| ensures !IsEntry(spans[j], rid, str) {
      EntryId(spans[j], rid, str);
    }
  }

  // ----- inherited request ids

  function Begins(stack: seq<Frame>): seq<Event> {
    if stack == [] then [] else Begins(stack[..|stack| - 1]) + [stack[|stack| - 1].begin]
  }

  /** The id of the innermost open event that brings one. */
  function NearestId(opens: seq<Event>, loads: Loads): Json {
    if opens == [] then Null
    else if Truthy(OwnId(opens[|opens| - 1], loads)) then OwnId(opens[|opens| - 1], loads)
    else NearestId(opens[..|opens| - 1], loads)
  }

  /** Event `b` opened frame `j`, on top of the frames still below it. */
  predicate OpenedAt(events: seq<Event>, stack: seq<Frame>, j: nat, b: nat, loads: Loads) {
    && b < |events| && j < |stack|
    && RunThread(events[..b], loads).stack == stack[..j]
    && stack[j] == Open(events[b], TopId(stack[..j]), loads)
  }

  predicate OpenedSpan(events: seq<Event>, s: Span, b: nat, loads: Loads) {
    && b < |events| && s.begin == events[b]
    && s.requestId == Open(events[b], TopId(RunThread(events[..b], loads).stack), loads).requestId
  }

  ghost predicate Opened(events: seq<Event>, stack: seq<Frame>, j: nat, loads: Loads) {
    exists b: nat :: OpenedAt(events, stack, j, b, loads)
  }

  ghost predicate Emitted(events: seq<Event>, s: Span, loads: Loads) {
    exists b: nat :: OpenedSpan(events, s, b, loads)
  }

  ghost predicate Traced(events: seq<Event>, t: Thread, loads: Loads) {
    && (forall j: nat | j < |t.stack| :: Opened(events, t.stack, j, loads))
    && forall i | 0 <= i < |t.out| :: Emitted(events, t.out[i], loads)
  }

  lemma StillOpen(events: seq<Event>, e: Event, stack: seq<Frame>, kept: seq<Frame>, j: nat, b: nat, loads: Loads)
    requires OpenedAt(events, stack, j, b, loads) && j < |kept| && (kept <= stack || stack <= kept)
    ensures OpenedAt(events + [e], kept, j, b, loads)
  {
    hide RunThread, Open;
    assert (events + [e])[..b] == events[..b] && kept[..j] == stack[..j];
  }

  lemma StillEmitted(events: seq<Event>, e: Event, s: Span, b: nat, loads: Loads)
    requires OpenedSpan(events, s, b, loads)
    ensures OpenedSpan(events + [e], s, b, loads)
  {
    hide RunThread, Open;
    assert (events + [e])[..b] == events[..b];
  }

  lemma EmitsTop(events: seq<Event>, e: Event, stack: seq<Frame>, j: nat, b: nat, loads: Loads)
    requires OpenedAt(events, stack, j, b, loads)
    ensures OpenedSpan(events + [e], Close(stack[j], e, loads), b, loads)
  {
    hide RunThread, OwnId, Fields;
    assert (events + [e])[..b] == events[..b];
  }

  lemma KeptTraced(events: seq<Event>, e: Event, t: Thread, kept: seq<Frame>, loads: Loads)
    requires Traced(events, t, loads) && kept <= t.stack
    ensures Traced(events + [e], t.(stack := kept), loads)
  {
    hide OpenedAt, OpenedSpan;
    forall j: nat | j < |kept| ensures Opened(events + [e], kept, j, loads) {
      assert Opened(events, t.stack, j, loads);
      var b: nat :| OpenedAt(events, t.stack, j, b, loads);
      StillOpen(events, e, t.stack, kept, j, b, loads);
    }
    forall i | 0 <= i < |t.out| ensures Emitted(events + [e], t.out[i], loads) {
      var b: nat :| OpenedSpan(events, t.out[i], b, loads);
      StillEmitted(events, e, t.out[i], b, loads);
    }
  }

  lemma BeginTraced(events: seq<Event>, e: Event, loads: Loads)
    requires Traced(events, RunThread(events, loads), loads) && e.ph == "B"
    ensures Traced(events + [e], StepThread(RunThread(events, loads), e, loads), loads)
  {
    hide OpenedAt, OpenedSpan, RunThread, Open;
    var t := RunThread(events, loads);
    var stack := t.stack + [Open(e, TopId(t.stack), loads)];
    KeptTraced(events, e, t, t.stack, loads);
    forall j: nat | j < |stack| ensures Opened(events + [e], stack, j, loads) {
      if j < |t.stack| {
        assert Opened(events, t.stack, j, loads);
        var b: nat :| OpenedAt(events, t.stack, j, b, loads);
        StillOpen(events, e, t.stack, stack, j, b, loads);
      } else {
        PushOpens(events, e, loads);
      }
    }
  }

  lemma PushOpens(events: seq<Event>, e: Event, loads: Loads)
    ensures var stack := RunThread(events, loads).stack;
      OpenedAt(events + [e], stack + [Open(e, TopId(stack), loads)], |stack|, |events|, loads)
  {
    hide RunThread, Open;
    var stack := RunThread(events, loads).stack;
    assert (events + [e])[..|events|] == events;
    assert (stack + [Open(e, TopId(stack), loads)])[..|stack|] == stack;
  }

  lemma EndTraced(events: seq<Event>, e: Event, t: Thread, loads: Loads)
    requires Traced(events, t, loads) && e.ph == "E"
    ensures Traced(events + [e], StepThread(t, e, loads), loads)
  {
    hide OpenedAt, OpenedSpan, Close;
    var kept := PopTo(t.stack, e.name);
    if kept == [] {
      KeptTraced(events, e, t, kept, loads);
    } else {
      var j := |kept| - 1;
      KeptTraced(events, e, t, kept[..j], loads);
      assert kept[j] == t.stack[j] && Opened(events, t.stack, j, loads);
      var b: nat :| OpenedAt(events, t.stack, j, b, loads);
      EmitsTop(events, e, t.stack, j, b, loads);
      assert Emitted(events + [e], Close(kept[j], e, loads), loads);
    }
  }

  lemma {:induction false} RunTraced(events: seq<Event>, loads: Loads)
    ensures Traced(events, RunThread(events, loads), loads)
  {
    if events == [] {
    } else {
      hide Traced, PopTo, Open;
      var n := |events| - 1;
      var before, e := events[..n], events[n];
      assert before + [e] == events;
      RunTraced(before, loads);
      RunThreadAppend(before, e, loads);
      if e.ph == "B" {
        BeginTraced(before, e, loads);
      } else if e.ph == "E" {
        EndTraced(before, e, RunThread(before, loads), loads);
      } else {
        KeptTraced(before, e, RunThread(before, loads), RunThread(before, loads).stack, loads);
      }
    }
  }

  predicate Linked(stack: seq<Frame>, loads: Loads) {
    forall j | 0 <= j < |stack| :: stack[j] == Open(stack[j].begin, TopId(stack[..j]), loads)
  }

  lemma {:induction false} TopIsNearest(stack: seq<Frame>, loads: Loads)
    requires Linked(stack, loads)
    ensures TopId(stack) == NearestId(Begins(stack), loads)
  {
    if stack == [] {
    } else {
      hide OwnId;
      var n := |stack| - 1;
      var below := stack[..n];
      forall j | 0 <= j < n ensures below[j] == Open(below[j].begin, TopId(below[..j]), loads) {
        assert below[j] == stack[j] && below[..j] == stack[..j];
      }
      TopIsNearest(below, loads);
      assert stack[n] == Open(stack[n].begin, TopId(below), loads);
      assert Begins(stack)[..n] == Begins(below) by { BeginsLength(below); }
      BeginsLength(stack);
    }
  }

  lemma {:induction false} BeginsLength(stack: seq<Frame>)
    ensures |Begins(stack)| == |stack|
  {
    if stack != [] { BeginsLength(stack[..|stack| - 1]); }
  }

  lemma OpenIsBegin(e: Event, inherited: Json, loads: Loads)
    ensures Open(e, inherited, loads).begin == e
  {
  }

  lemma StacksAreLinked(events: seq<Event>, loads: Loads)
    ensures Linked(RunThread(events, loads).stack, loads)
  {
    hide RunThread, Open, TopId;
    var stack := RunThread(events, loads).stack;
    RunTraced(events, loads);
    forall j | 0 <= j < |stack| ensures stack[j] == Open(stack[j].begin, TopId(stack[..j]), loads) {
      assert Opened(events, stack, j, loads);
      var b: nat :| OpenedAt(events, stack, j, b, loads);
      OpenIsBegin(events[b], TopId(stack[..j]), loads);
    }
  }

  /** The span's begin is event `b`, and its id that of the innermost event then open, itself included, that
      brings one. */
  predicate NearestAt(events: seq<Event>, s: Span, b: nat, loads: Loads) {
    && b < |events| && s.begin == events[b]
    && s.requestId == NearestId(Begins(RunThread(events[..b], loads).stack) + [events[b]], loads)
  }

  lemma RequestIdIsNearest(events: seq<Event>, i: nat, loads: Loads)
    requires i < |RunThread(events, loads).out|
    ensures exists b: nat :: NearestAt(events, RunThread(events, loads).out[i], b, loads)
  {
    hide RunThread, OwnId, TopId, Begins;
    var s := RunThread(events, loads).out[i];
    RunTraced(events, loads);
    assert Emitted(events, s, loads);
    var b: nat :| OpenedSpan(events, s, b, loads);
    var stack := RunThread(events[..b], loads).stack;
    StacksAreLinked(events[..b], loads);
    TopIsNearest(stack, loads);
    var opens := Begins(stack) + [events[b]];
    assert opens[..|opens| - 1] == Begins(stack);
    assert NearestAt(events, s, b, loads);
  }
}
