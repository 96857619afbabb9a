/** The incremental server-sent-event reader of scripts/e2e_agents.py: `sse_events`, `check_event` and
    the buffer loop of `Tap.forward`, over decoded text. */
module EventStream {
  import opened JsonValues
  import opened Wrappers

  // ----- splitting on \r?\n\r?\n

  /** The length of the delimiter at `i`, or 0. The expression has at most one match from a position. */
  function Delimiter(s: string, i: nat): (n: nat)
    ensures n == 0 || (2 <= n <= 4 && i + n <= |s|)
  {
    var a := i + if i < |s| && s[i] == '\r' then 1 else 0;
    if a >= |s| || s[a] != '\n' then 0
    else
      var b := a + 1 + if a + 1 < |s| && s[a + 1] == '\r' then 1 else 0;
      if b >= |s| || s[b] != '\n' then 0 else b + 1 - i
  }

  /** The first position from `i` where a delimiter matches, or the length. */
  function FirstDelimiter(s: string, i: nat): (r: nat)
    requires i <= |s|
    ensures i <= r <= |s| && (r < |s| ==> Delimiter(s, r) > 0)
    ensures forall k :: i <= k < r ==> Delimiter(s, k) == 0
    decreases |s| - i
  {
    if i == |s| || Delimiter(s, i) > 0 then i else FirstDelimiter(s, i + 1)
  }

  datatype Pieces = Pieces(events: seq<string>, tail: string)

  /** `*events, tail = re.split(r"\r?\n\r?\n", text)` */
  function Split(s: string): Pieces
    decreases |s|
  {
    var j := FirstDelimiter(s, 0);
    if j == |s| then Pieces([], s)
    else
      var rest := Split(s[j + Delimiter(s, j)..]);
      Pieces([s[..j]] + rest.events, rest.tail)
  }

  // ----- the data payload of an event

  /** The line boundaries of `str.splitlines`. */
  predicate LineBreak(c: char) {
    c in {'\n', '\r', '\U{0B}', '\U{0C}', '\U{1C}', '\U{1D}', '\U{1E}', '\U{85}', '\U{2028}', '\U{2029}'}
  }

  function FirstBreak(s: string, i: nat): (r: nat)
    requires i <= |s|
    ensures i <= r <= |s| && (r < |s| ==> LineBreak(s[r]))
    ensures forall k :: i <= k < r ==> !LineBreak(s[k])
    decreases |s| - i
  {
    if i == |s| || LineBreak(s[i]) then i else FirstBreak(s, i + 1)
  }

  function SplitLines(s: string): seq<string>
    decreases |s|
  {
    if s == "" then []
    else
      var k := FirstBreak(s, 0);
      if k == |s| then [s]
      else [s[..k]] + SplitLines(s[if s[k] == '\r' && k + 1 < |s| && s[k + 1] == '\n' then k + 2 else k + 1..])
  }

  predicate Space(c: char) {
    c in {' ', '\t', '\n', '\r', '\U{0B}', '\U{0C}', '\U{1C}', '\U{1D}', '\U{1E}', '\U{1F}', '\U{85}', '\U{A0}',
          '\U{1680}', '\U{2028}', '\U{2029}', '\U{202F}', '\U{205F}', '\U{3000}'}
    || '\U{2000}' <= c <= '\U{200A}'
  }

  function StripLeft(s: string): string {
    if s != "" && Space(s[0]) then StripLeft(s[1..]) else s
  }

  /** Between two letters, the characters of these code points and no others make two lines. */
  lemma LinesBreakAt(c: char)
    ensures SplitLines(['a', c, 'b']) == if BreakCode(c as int) then ["a", "b"] else [['a', c, 'b']]
  {
    var s := ['a', c, 'b'];
    var k := FirstBreak(s, 0);
    assert s[0] == 'a' && s[1] == c && s[2] == 'b' && !LineBreak('a') && !LineBreak('b');
    if LineBreak(c) {
      assert k == 1 && s[..1] == "a" && s[2..] == "b";
      assert FirstBreak("b", 0) == 1;
    } else {
      assert k == 3;
    }
  }

  predicate BreakCode(n: int) {
    10 <= n <= 13 || 28 <= n <= 30 || n == 133 || 8232 <= n <= 8233
  }

  /** The characters of these code points and no others are stripped from the start of a data text. */
  lemma SpaceIsStripped(c: char)
    ensures StripLeft([c, 'a']) == if SpaceCode(c as int) then "a" else [c, 'a']
  {
    assert StripLeft("a") == "a";
    assert [c, 'a'][1..] == "a";
  }

  predicate SpaceCode(n: int) {
    || 9 <= n <= 13 || 28 <= n <= 32 || n == 133 || n == 160 || n == 5760 || 8192 <= n <= 8202
    || 8232 <= n <= 8233 || n == 8239 || n == 8287 || n == 12288
  }

  function DataLines(lines: seq<string>): seq<string> {
    if lines == [] then []
    else (if "data:" <= lines[0] then [StripLeft(lines[0][5..])] else []) + DataLines(lines[1..])
  }

  function JoinLines(lines: seq<string>): string {
    if lines == [] then ""
    else if |lines| == 1 then lines[0]
    else lines[0] + "\n" + JoinLines(lines[1..])
  }

  /** The payload of one event: none when it has no data line. */
  function EventPayload(event: string): seq<string> {
    var data := DataLines(SplitLines(event));
    if data == [] then [] else [JoinLines(data)]
  }

  function Payloads(events: seq<string>): seq<string> {
    if events == [] then [] else EventPayload(events[0]) + Payloads(events[1..])
  }

  /** `sse_events`: the complete events' payloads and the unfinished tail. */
  function SseEvents(text: string): (seq<string>, string) {
    var pieces := Split(text);
    (Payloads(pieces.events), pieces.tail)
  }

  // ----- recording an event

  /** `value or {}` used as a dictionary: none when the truthy value has no `get` method. */
  function OrEmpty(v: Json): Option<map<string, Json>> {
    if !Truthy(v) then Some(map[]) else if v.Obj? then Some(v.fields) else None
  }

  /** What the exchange records. `raised` is an attribute or type error that escapes the handler. */
  datatype Record = Record(events: nat, errors: seq<string>, terminal: bool, toolCalls: seq<Json>, raised: bool)

  function Take(s: string, n: nat): string {
    if |s| <= n then s else s[..n]
  }

  function AddError(r: Record, error: string): Record {
    r.(errors := r.errors + [error])
  }

  function AddTool(r: Record, name: Json): Record {
    r.(toolCalls := r.toolCalls + [name])
  }

  function Raise(r: Record): Record {
    r.(raised := true)
  }

  /** Anthropic and Responses streams: a started item of the right type is a tool call. */
  function CheckItem(item: Json, kind: string, r: Record, str: Json -> string): Record {
    match OrEmpty(item)
    case None => Raise(r)
    case Some(fields) =>
      if Get(fields, "type") == Str(kind) then AddTool(r, Str(str(Get(fields, "name")))) else r
  }

  function CheckCalls(calls: seq<Json>, r: Record): Record {
    if calls == [] then r
    else if !calls[0].Obj? then Raise(r)
    else
      match OrEmpty(Get(calls[0].fields, "function"))
      case None => Raise(r)
      case Some(called) =>
        var name := Get(called, "name");
        CheckCalls(calls[1..], if Truthy(name) then AddTool(r, name) else r)
  }

  /** `value or []` iterated where each element must be a dictionary: none when that raises at once.
      A truthy dictionary or string yields strings, whose first `get` raises. */
  function OrNone(v: Json): Option<seq<Json>> {
    if !Truthy(v) then Some([]) else if v.Arr? then Some(v.items) else None
  }

  function CheckChoices(choices: seq<Json>, r: Record): Record {
    if choices == [] then r
    else if !choices[0].Obj? then Raise(r)
    else
      match OrEmpty(Get(choices[0].fields, "delta"))
      case None => Raise(r)
      case Some(delta) =>
        match OrNone(Get(delta, "tool_calls"))
        case None => Raise(r)
        case Some(calls) =>
          var next := CheckCalls(calls, r);
          if next.raised then next else CheckChoices(choices[1..], next)
  }

  function CheckObject(path: string, payload: string, event: map<string, Json>, r: Record, str: Json -> string)
    : Record
  {
    var kind := Get(event, "type");
    if path == "/v1/messages" then
      if kind == Str("message_stop") then r.(terminal := true)
      else if kind == Str("error") then AddError(r, "error event: " + Take(payload, 200))
      else if kind == Str("content_block_start") then CheckItem(Get(event, "content_block"), "tool_use", r, str)
      else r
    else if path == "/v1/responses" then
      if kind in {Str("response.completed"), Str("response.incomplete")} then r.(terminal := true)
      else if kind in {Str("response.failed"), Str("error")} then AddError(r, kind.text + ": " + Take(payload, 200))
      else if kind == Str("response.output_item.added") then CheckItem(Get(event, "item"), "function_call", r, str)
      else r
    else if path == "/v1/chat/completions" then
      var noted := if "error" in event then AddError(r, "error: " + Take(payload, 200)) else r;
      match OrNone(Get(event, "choices"))
      case None => Raise(noted)
      case Some(choices) => CheckChoices(choices, noted)
    else r
  }

  /** `check_event`; `parse` is `json.loads`, none standing for a decode error, and `str` is Python's. */
  function Check(path: string, payload: string, r: Record, parse: string -> Option<Json>, str: Json -> string): Record {
    if payload == "[DONE]" then
      if path == "/v1/chat/completions" then r.(terminal := true) else AddError(r, "unexpected [DONE] on " + path)
    else
      match parse(payload)
      case None => AddError(r, "undecodable event: " + Take(payload, 80))
      case Some(event) =>
        if !event.Obj? then AddError(r, "event is not an object: " + Take(payload, 80))
        else CheckObject(path, payload, event.fields, r, str)
  }

  /** The record after a sequence of payloads; nothing is recorded after an escaping error. */
  function CheckAll(path: string, payloads: seq<string>, r: Record, parse: string -> Option<Json>, str: Json -> string)
    : Record
  {
    if payloads == [] || r.raised then r
    else CheckAll(path, payloads[1..], Check(path, payloads[0], r.(events := r.events + 1), parse, str), parse, str)
  }

  /** What a whole streamed body leaves in the record. */
  function Outcome(path: string, text: string, r: Record, parse: string -> Option<Json>, str: Json -> string): Record {
    CheckAll(path, SseEvents(text).0, r, parse, str)
  }

  /** One request through the proxy: the fields of `Exchange` that its stream updates. */
  class Exchange {
    var events: nat
    var errors: seq<string>
    var terminal: bool
    var toolCalls: seq<Json>
    var raised: bool

    constructor ()
      ensures Recorded() == Record(0, [], false, [], false)
    {
      events, errors, terminal, toolCalls, raised := 0, [], false, [], false;
    }

    function Recorded(): Record
      reads this
    {
      Record(events, errors, terminal, toolCalls, raised)
    }

    /** A started item of the right type is a tool call. */
    method RecordItem(item: Json, kind: string, str: Json -> string)
      modifies `toolCalls, `raised
      ensures Recorded() == CheckItem(item, kind, old(Recorded()), str)
    {
      var fields := OrEmpty(item);
      if fields.None? {
        raised := true;
      } else if Get(fields.value, "type") == Str(kind) {
        toolCalls := toolCalls + [Str(str(Get(fields.value, "name")))];
      }
    }

    /** The loop over one choice's tool calls. */
    method RecordCalls(calls: seq<Json>)
      requires !raised
      modifies `toolCalls, `raised
      ensures Recorded() == CheckCalls(calls, old(Recorded()))
    {
      hide Truthy;
      for i := 0 to |calls|
        invariant !raised && CheckCalls(calls[i..], Recorded()) == CheckCalls(calls, old(Recorded()))
      {
        assert calls[i..][0] == calls[i] && calls[i..][1..] == calls[i + 1..];
        if !calls[i].Obj? { raised := true; return; }
        var called := OrEmpty(Get(calls[i].fields, "function"));
        if called.None? { raised := true; return; }
        var name := Get(called.value, "name");
        if Truthy(name) { toolCalls := toolCalls + [name]; }
      }
    }

    /** The loop over the choices of a chat completion chunk. */
    method RecordChoices(choices: seq<Json>)
      requires !raised
      modifies `toolCalls, `raised
      ensures Recorded() == CheckChoices(choices, old(Recorded()))
    {
      hide Truthy, CheckCalls;
      for i := 0 to |choices|
        invariant !raised && CheckChoices(choices[i..], Recorded()) == CheckChoices(choices, old(Recorded()))
      {
        assert choices[i..][0] == choices[i] && choices[i..][1..] == choices[i + 1..];
        if !choices[i].Obj? { raised := true; return; }
        var delta := OrEmpty(Get(choices[i].fields, "delta"));
        if delta.None? { raised := true; return; }
        var calls := OrNone(Get(delta.value, "tool_calls"));
        if calls.None? { raised := true; return; }
        RecordCalls(calls.value);
        if raised { return; }
      }
    }

    /** `check_event` on a decoded object, by protocol. */
    method RecordObject(path: string, payload: string, event: map<string, Json>, str: Json -> string)
      requires !raised
      modifies this
      ensures Recorded() == CheckObject(path, payload, event, old(Recorded()), str)
    {
      hide CheckChoices, CheckItem, Truthy, Take;
      var kind := Get(event, "type");
      if path == "/v1/messages" {
        if kind == Str("message_stop") {
          terminal := true;
        } else if kind == Str("error") {
          errors := errors + ["error event: " + Take(payload, 200)];
        } else if kind == Str("content_block_start") {
          RecordItem(Get(event, "content_block"), "tool_use", str);
        }
      } else if path == "/v1/responses" {
        if kind in {Str("response.completed"), Str("response.incomplete")} {
          terminal := true;
        } else if kind in {Str("response.failed"), Str("error")} {
          errors := errors + [kind.text + ": " + Take(payload, 200)];
        } else if kind == Str("response.output_item.added") {
          RecordItem(Get(event, "item"), "function_call", str);
        }
      } else if path == "/v1/chat/completions" {
        if "error" in event { errors := errors + ["error: " + Take(payload, 200)]; }
        var choices := OrNone(Get(event, "choices"));
        if choices.None? {
          raised := true;
        } else {
          RecordChoices(choices.value);
        }
      }
    }

    /** `check_event`: the terminal flag is set when the payload ends its protocol, its error is appended when it
        complains, and the tool calls it names are appended up to an escaping error. */
    method CheckEvent(path: string, payload: string, parse: string -> Option<Json>, str: Json -> string)
      requires !raised
      modifies this
      ensures Recorded() == Check(path, payload, old(Recorded()), parse, str)
      ensures Effect(old(Recorded()), Recorded(), Ends(path, payload, parse), Errors(path, payload, parse),
                     Says(path, payload, parse, str))
    {
      hide CheckObject, EndsObject, ComplainsObject, Take;
      CheckEffect(path, payload, Recorded(), parse, str);
      if payload == "[DONE]" {
        if path == "/v1/chat/completions" {
          terminal := true;
        } else {
          errors := errors + ["unexpected [DONE] on " + path];
        }
        return;
      }
      var event := parse(payload);
      if event.None? {
        errors := errors + ["undecodable event: " + Take(payload, 80)];
      } else if !event.value.Obj? {
        errors := errors + ["event is not an object: " + Take(payload, 80)];
      } else {
        RecordObject(path, payload, event.value.fields, str);
      }
    }

    /** The payloads of one chunk, in order; an escaping error leaves the rest unrecorded. */
    method RecordPayloads(path: string, payloads: seq<string>, parse: string -> Option<Json>, str: Json -> string)
      requires !raised
      modifies this
      ensures Recorded() == CheckAll(path, payloads, old(Recorded()), parse, str)
    {
      hide Check;
      ghost var first := Recorded();
      for j := 0 to |payloads|
        invariant !raised
        invariant Recorded() == CheckAll(path, payloads[..j], first, parse, str)
      {
        events := events + 1;
        CheckEvent(path, payloads[j], parse, str);
        CheckNext(path, payloads, j, first, parse, str);
        if raised {
          StopsAtRaise(path, payloads, j + 1, first, parse, str);
          return;
        }
      }
      assert payloads[..|payloads|] == payloads;
    }

    /** The read loop of a streamed response: `texts` are the decoded chunks in arrival order. */
    method Forward(path: string, texts: seq<string>, parse: string -> Option<Json>, str: Json -> string)
      returns (buffer: string)
      requires !raised
      modifies this
      ensures Recorded() == Outcome(path, Concat(texts), old(Recorded()), parse, str)
      ensures !raised ==> buffer == SseEvents(Concat(texts)).1
    {
      hide Outcome, SseEvents, CheckAll, Concat;
      EmptyStream(path, Recorded(), parse, str);
      buffer := "";
      ghost var first := Recorded();
      for i := 0 to |texts|
        invariant !raised
        invariant Recorded() == Outcome(path, Concat(texts[..i]), first, parse, str)
        invariant buffer == SseEvents(Concat(texts[..i])).1
      {
        var (payloads, tail) := SseEvents(buffer + texts[i]);
        ChunkStep(path, texts, i, first, parse, str);
        buffer := tail;
        RecordPayloads(path, payloads, parse, str);
        if raised {
          RestIsLost(path, texts, i + 1, first, parse, str);
          return;
        }
      }
      assert texts[..|texts|] == texts;
    }
  }

  function Concat(texts: seq<string>): string {
    if texts == [] then "" else texts[0] + Concat(texts[1..])
  }

  lemma {:induction false} ConcatPrefix(texts: seq<string>, i: nat)
    requires i <= |texts|
    ensures Concat(texts) == Concat(texts[..i]) + Concat(texts[i..])
  {
    if i == 0 {
      assert texts[..0] == [] && texts[0..] == texts;
    } else {
      ConcatPrefix(texts[1..], i - 1);
      assert texts[..i][1..] == texts[1..][..i - 1] && texts[1..][i - 1..] == texts[i..];
    }
  }

  lemma ConcatAppend(texts: seq<string>, i: nat)
    requires i < |texts|
    ensures Concat(texts[..i + 1]) == Concat(texts[..i]) + texts[i]
  {
    ConcatPrefix(texts[..i + 1], i);
    assert texts[..i + 1][..i] == texts[..i] && texts[..i + 1][i..] == [texts[i]];
    assert Concat([texts[i]]) == texts[i] + Concat([]);
  }

  // ----- chunking does not matter

  /** More text cannot move or lengthen the first delimiter: a match that straddled the cut would need a
      third line feed. */
  lemma FirstDelimiterStable(s: string, t: string)
    requires FirstDelimiter(s, 0) < |s|
    ensures FirstDelimiter(s + t, 0) == FirstDelimiter(s, 0)
    ensures Delimiter(s + t, FirstDelimiter(s, 0)) == Delimiter(s, FirstDelimiter(s, 0))
  {
    var j := FirstDelimiter(s, 0);
    DelimiterStable(s, t, j);
    forall k | 0 <= k < j ensures Delimiter(s + t, k) == 0 { NoEarlierDelimiter(s, t, j, k); }
    var r := FirstDelimiter(s + t, 0);
    assert r < j ==> Delimiter(s + t, r) == 0;
    assert j < r ==> Delimiter(s + t, j) == 0;
  }

  lemma DelimiterStable(s: string, t: string, j: nat)
    requires Delimiter(s, j) > 0
    ensures Delimiter(s + t, j) == Delimiter(s, j)
  {
  }

  lemma NoEarlierDelimiter(s: string, t: string, j: nat, k: nat)
    requires k < j && Delimiter(s, j) > 0 && Delimiter(s, k) == 0
    ensures Delimiter(s + t, k) == 0
  {
    var u := s + t;
    assert forall x :: 0 <= x < |s| ==> u[x] == s[x];
  }

  /** One unfolding of `Split`. */
  lemma SplitFirst(s: string)
    ensures var j := FirstDelimiter(s, 0);
      Split(s) == if j == |s| then Pieces([], s)
                  else Pieces([s[..j]] + Split(s[j + Delimiter(s, j)..]).events, Split(s[j + Delimiter(s, j)..]).tail)
  {
    hide Delimiter, FirstDelimiter;
  }

  lemma SplitFirstAppend(s: string, t: string)
    requires FirstDelimiter(s, 0) < |s|
    ensures var j := FirstDelimiter(s, 0); var rest := s[j + Delimiter(s, j)..] + t;
      Split(s + t) == Pieces([s[..j]] + Split(rest).events, Split(rest).tail)
  {
    hide Delimiter, FirstDelimiter, Split;
    FirstDelimiterStable(s, t);
    SplitFirst(s + t);
    var j := FirstDelimiter(s, 0);
    assert (s + t)[..j] == s[..j];
    assert (s + t)[j + Delimiter(s, j)..] == s[j + Delimiter(s, j)..] + t;
  }

  /** Splitting a text in two pieces gives the same events and tail as splitting it whole. */
  lemma {:induction false} SplitAppend(s: string, t: string)
    ensures Split(s + t).events == Split(s).events + Split(Split(s).tail + t).events
    ensures Split(s + t).tail == Split(Split(s).tail + t).tail
    decreases |s|
  {
    hide Delimiter, FirstDelimiter, Split;
    SplitFirst(s);
    var j := FirstDelimiter(s, 0);
    if j < |s| {
      SplitFirstAppend(s, t);
      var rest := s[j + Delimiter(s, j)..];
      SplitAppend(rest, t);
      var more := Split(Split(rest).tail + t).events;
      assert [s[..j]] + (Split(rest).events + more) == ([s[..j]] + Split(rest).events) + more;
    }
  }

  lemma PayloadsFirst(event: string, rest: seq<string>)
    ensures Payloads([event] + rest) == EventPayload(event) + Payloads(rest)
  {
    hide EventPayload;
    assert ([event] + rest)[1..] == rest;
  }

  lemma Regroup<T>(a: seq<T>, b: seq<T>, c: seq<T>)
    ensures a + b + c == a + (b + c)
  {
  }

  lemma {:induction false} PayloadsAppend(a: seq<string>, b: seq<string>)
    ensures Payloads(a + b) == Payloads(a) + Payloads(b)
  {
    hide EventPayload;
    if a == [] {
      assert a + b == b;
    } else {
      hide Payloads;
      var rest := a[1..];
      PayloadsAppend(rest, b);
      assert a == [a[0]] + rest && a + b == [a[0]] + (rest + b);
      PayloadsFirst(a[0], rest);
      PayloadsFirst(a[0], rest + b);
      Regroup(EventPayload(a[0]), Payloads(rest), Payloads(b));
    }
  }

  lemma EventsAppend(s: string, t: string)
    ensures SseEvents(s + t).0 == SseEvents(s).0 + SseEvents(SseEvents(s).1 + t).0
    ensures SseEvents(s + t).1 == SseEvents(SseEvents(s).1 + t).1
  {
    hide Split, Payloads;
    SplitAppend(s, t);
    PayloadsAppend(Split(s).events, Split(Split(s).tail + t).events);
  }

  lemma {:induction false} CheckAllAppend(path: string, a: seq<string>, b: seq<string>, r: Record,
                                          parse: string -> Option<Json>, str: Json -> string)
    ensures CheckAll(path, a + b, r, parse, str) == CheckAll(path, b, CheckAll(path, a, r, parse, str), parse, str)
    decreases |a|
  {
    hide Check;
    if a == [] {
      assert a + b == b;
    } else if !r.raised {
      assert (a + b)[1..] == a[1..] + b;
      CheckAllAppend(path, a[1..], b, Check(path, a[0], r.(events := r.events + 1), parse, str), parse, str);
    }
  }

  lemma CheckNext(path: string, payloads: seq<string>, j: nat, r: Record,
                  parse: string -> Option<Json>, str: Json -> string)
    requires j < |payloads| && !CheckAll(path, payloads[..j], r, parse, str).raised
    ensures var before := CheckAll(path, payloads[..j], r, parse, str);
      CheckAll(path, payloads[..j + 1], r, parse, str)
      == Check(path, payloads[j], before.(events := before.events + 1), parse, str)
  {
    hide Check;
    assert payloads[..j + 1] == payloads[..j] + [payloads[j]];
    CheckAllAppend(path, payloads[..j], [payloads[j]], r, parse, str);
  }

  lemma StopsAtRaise(path: string, payloads: seq<string>, j: nat, r: Record,
                     parse: string -> Option<Json>, str: Json -> string)
    requires j <= |payloads| && CheckAll(path, payloads[..j], r, parse, str).raised
    ensures CheckAll(path, payloads, r, parse, str) == CheckAll(path, payloads[..j], r, parse, str)
  {
    hide Check;
    assert payloads == payloads[..j] + payloads[j..];
    CheckAllAppend(path, payloads[..j], payloads[j..], r, parse, str);
  }

  /** Recording a text in two pieces: the tail of the first is prefixed to the second. */
  lemma OutcomeAppend(path: string, s: string, t: string, r: Record, parse: string -> Option<Json>, str: Json -> string)
    ensures Outcome(path, s + t, r, parse, str)
            == Outcome(path, SseEvents(s).1 + t, Outcome(path, s, r, parse, str), parse, str)
  {
    hide SseEvents, CheckAll;
    EventsAppend(s, t);
    CheckAllAppend(path, SseEvents(s).0, SseEvents(SseEvents(s).1 + t).0, r, parse, str);
  }

  lemma EmptyStream(path: string, r: Record, parse: string -> Option<Json>, str: Json -> string)
    ensures Outcome(path, Concat([]), r, parse, str) == r && SseEvents(Concat([])).1 == ""
  {
    assert FirstDelimiter("", 0) == 0;
    assert Split("") == Pieces([], "");
  }

  lemma ChunkStep(path: string, texts: seq<string>, i: nat, r: Record,
                  parse: string -> Option<Json>, str: Json -> string)
    requires i < |texts|
    ensures var (payloads, tail) := SseEvents(SseEvents(Concat(texts[..i])).1 + texts[i]);
      && tail == SseEvents(Concat(texts[..i + 1])).1
      && CheckAll(path, payloads, Outcome(path, Concat(texts[..i]), r, parse, str), parse, str)
         == Outcome(path, Concat(texts[..i + 1]), r, parse, str)
  {
    hide SseEvents, CheckAll, Concat;
    ConcatAppend(texts, i);
    EventsAppend(Concat(texts[..i]), texts[i]);
    OutcomeAppend(path, Concat(texts[..i]), texts[i], r, parse, str);
  }

  lemma RestIsLost(path: string, texts: seq<string>, i: nat, r: Record,
                   parse: string -> Option<Json>, str: Json -> string)
    requires i <= |texts| && Outcome(path, Concat(texts[..i]), r, parse, str).raised
    ensures Outcome(path, Concat(texts), r, parse, str) == Outcome(path, Concat(texts[..i]), r, parse, str)
  {
    hide SseEvents, Concat, Check;
    ConcatPrefix(texts, i);
    OutcomeAppend(path, Concat(texts[..i]), Concat(texts[i..]), r, parse, str);
  }

  // ----- what a stream's record means

  /** The event ends the stream of its protocol. */
  predicate EndsObject(path: string, event: map<string, Json>) {
    var kind := Get(event, "type");
    if path == "/v1/messages" then kind == Str("message_stop")
    else path == "/v1/responses" && (kind == Str("response.completed") || kind == Str("response.incomplete"))
  }

  predicate Ends(path: string, payload: string, parse: string -> Option<Json>) {
    if payload == "[DONE]" then path == "/v1/chat/completions"
    else parse(payload).Some? && parse(payload).value.Obj? && EndsObject(path, parse(payload).value.fields)
  }

  /** The event reports an error. */
  predicate ComplainsObject(path: string, event: map<string, Json>) {
    var kind := Get(event, "type");
    || (path == "/v1/messages" && kind == Str("error"))
    || (path == "/v1/responses" && (kind == Str("response.failed") || kind == Str("error")))
    || (path == "/v1/chat/completions" && "error" in event)
  }

  /** The payload is no event of its protocol, or reports an error. */
  predicate Complains(path: string, payload: string, parse: string -> Option<Json>) {
    if payload == "[DONE]" then path != "/v1/chat/completions"
    else if parse(payload).None? || !parse(payload).value.Obj? then true
    else ComplainsObject(path, parse(payload).value.fields)
  }

  /** The text of the one error a complaint records. */
  function ErrorText(path: string, payload: string, parse: string -> Option<Json>): string {
    if payload == "[DONE]" then "unexpected [DONE] on " + path
    else if parse(payload).None? then "undecodable event: " + Take(payload, 80)
    else if !parse(payload).value.Obj? then "event is not an object: " + Take(payload, 80)
    else if path == "/v1/messages" then "error event: " + Take(payload, 200)
    else if path == "/v1/responses" && Get(parse(payload).value.fields, "type").Str? then
      Get(parse(payload).value.fields, "type").text + ": " + Take(payload, 200)
    else "error: " + Take(payload, 200)
  }

  function Errors(path: string, payload: string, parse: string -> Option<Json>): seq<string> {
    if Complains(path, payload, parse) then [ErrorText(path, payload, parse)] else []
  }

  /** The tool calls a part of an event names, and whether looking at it raises, which ends the event there. */
  datatype Said = Said(tools: seq<Json>, raises: bool)

  const SILENT := Said([], false)
  const RAISES := Said([], true)

  function Then(a: Said, b: Said): Said {
    if a.raises then a else Said(a.tools + b.tools, b.raises)
  }

  function ItemSays(item: Json, kind: string, str: Json -> string): Said {
    if !Truthy(item) then SILENT
    else if !item.Obj? then RAISES
    else if Get(item.fields, "type") == Str(kind) then Said([Str(str(Get(item.fields, "name")))], false)
    else SILENT
  }

  function CallSays(call: Json): Said {
    if !call.Obj? then RAISES
    else
      var called := Get(call.fields, "function");
      if !Truthy(called) then SILENT
      else if !called.Obj? then RAISES
      else if Truthy(Get(called.fields, "name")) then Said([Get(called.fields, "name")], false)
      else SILENT
  }

  function CallsSay(calls: seq<Json>): Said {
    if calls == [] then SILENT
    else Then(CallsSay(calls[..|calls| - 1]), CallSays(calls[|calls| - 1]))
  }

  function ListSays(list: Json): Said {
    if !Truthy(list) then SILENT else if list.Arr? then CallsSay(list.items) else RAISES
  }

  function ChoiceSays(choice: Json): Said {
    if !choice.Obj? then RAISES
    else
      var delta := Get(choice.fields, "delta");
      if !Truthy(delta) then SILENT else if !delta.Obj? then RAISES else ListSays(Get(delta.fields, "tool_calls"))
  }

  function ChoicesSay(choices: seq<Json>): Said {
    if choices == [] then SILENT
    else Then(ChoicesSay(choices[..|choices| - 1]), ChoiceSays(choices[|choices| - 1]))
  }

  function ObjectSays(path: string, event: map<string, Json>, str: Json -> string): Said {
    var kind := Get(event, "type");
    if path == "/v1/messages" && kind == Str("content_block_start") then
      ItemSays(Get(event, "content_block"), "tool_use", str)
    else if path == "/v1/responses" && kind == Str("response.output_item.added") then
      ItemSays(Get(event, "item"), "function_call", str)
    else if path == "/v1/chat/completions" then
      var choices := Get(event, "choices");
      if !Truthy(choices) then SILENT else if choices.Arr? then ChoicesSay(choices.items) else RAISES
    else SILENT
  }

  function Says(path: string, payload: string, parse: string -> Option<Json>, str: Json -> string): Said {
    if payload == "[DONE]" || parse(payload).None? || !parse(payload).value.Obj? then SILENT
    else ObjectSays(path, parse(payload).value.fields, str)
  }

  /** One event's whole effect. */
  predicate Effect(r: Record, after: Record, ends: bool, errors: seq<string>, said: Said) {
    after == Record(r.events, r.errors + errors, r.terminal || ends, r.toolCalls + said.tools, r.raised || said.raises)
  }

  lemma ThenAssociates(a: Said, b: Said, c: Said)
    ensures Then(a, Then(b, c)) == Then(Then(a, b), c) && Then(SILENT, a) == a == Then(a, SILENT)
  {
  }

  lemma {:induction false} CallsSayFirst(calls: seq<Json>)
    requires calls != []
    ensures CallsSay(calls) == Then(CallSays(calls[0]), CallsSay(calls[1..]))
  {
    hide CallSays, Then;
    var n := |calls| - 1;
    if n == 0 {
      assert calls[..0] == [] && calls[1..] == [];
      ThenAssociates(CallSays(calls[0]), SILENT, SILENT);
    } else {
      CallsSayFirst(calls[..n]);
      assert calls[..n][1..] == calls[1..][..n - 1];
      ThenAssociates(CallSays(calls[0]), CallsSay(calls[1..][..n - 1]), CallSays(calls[n]));
    }
  }

  lemma {:induction false} ChoicesSayFirst(choices: seq<Json>)
    requires choices != []
    ensures ChoicesSay(choices) == Then(ChoiceSays(choices[0]), ChoicesSay(choices[1..]))
  {
    hide ChoiceSays, Then;
    var n := |choices| - 1;
    if n == 0 {
      assert choices[..0] == [] && choices[1..] == [];
      ThenAssociates(ChoiceSays(choices[0]), SILENT, SILENT);
    } else {
      ChoicesSayFirst(choices[..n]);
      assert choices[..n][1..] == choices[1..][..n - 1];
      ThenAssociates(ChoiceSays(choices[0]), ChoicesSay(choices[1..][..n - 1]), ChoiceSays(choices[n]));
    }
  }

  lemma EffectThen(r: Record, middle: Record, after: Record, a: Said, b: Said)
    requires Effect(r, middle, false, [], a) && !a.raises && Effect(middle, after, false, [], b)
    ensures Effect(r, after, false, [], Then(a, b))
  {
  }

  lemma {:induction false} CallsEffect(calls: seq<Json>, r: Record)
    requires !r.raised
    ensures Effect(r, CheckCalls(calls, r), false, [], CallsSay(calls))
  {
    if calls != [] {
      hide Truthy, CallsSay;
      CallsSayFirst(calls);
      var call := calls[0];
      if CallSays(call).raises {
      } else {
        var next := if CallSays(call).tools == [] then r else AddTool(r, CallSays(call).tools[0]);
        NoTruthInEmpty();
        CallsEffect(calls[1..], next);
        EffectThen(r, next, CheckCalls(calls[1..], next), CallSays(call), CallsSay(calls[1..]));
      }
    }
  }

  lemma NoTruthInEmpty()
    ensures OrEmpty(Null).Some? && OrEmpty(Null).value == map[] && !Truthy(Null)
    ensures Get(map[], "name") == Null
  {
  }

  lemma {:induction false} ChoicesEffect(choices: seq<Json>, r: Record)
    requires !r.raised
    ensures Effect(r, CheckChoices(choices, r), false, [], ChoicesSay(choices))
  {
    if choices != [] {
      hide Truthy, CallsSay, CheckCalls, ChoicesSay;
      ChoicesSayFirst(choices);
      ChoiceEffect(choices[0], r);
      var said := ChoiceSays(choices[0]);
      if said.raises {
        ChoiceRaises(choices, r);
      } else {
        var next := CheckCalls(ChoiceCalls(choices[0]).value, r);
        ChoicesEffect(choices[1..], next);
        EffectThen(r, next, CheckChoices(choices[1..], next), said, ChoicesSay(choices[1..]));
      }
    }
  }

  /** The calls of a choice, none when reaching them raises. */
  function ChoiceCalls(choice: Json): Option<seq<Json>> {
    if !choice.Obj? then None
    else
      match OrEmpty(Get(choice.fields, "delta"))
      case None => None
      case Some(delta) => OrNone(Get(delta, "tool_calls"))
  }

  lemma ChoiceEffect(choice: Json, r: Record)
    requires !r.raised
    ensures ChoiceCalls(choice).None? ==> ChoiceSays(choice) == RAISES
    ensures ChoiceCalls(choice).Some? ==>
      Effect(r, CheckCalls(ChoiceCalls(choice).value, r), false, [], ChoiceSays(choice))
  {
    if ChoiceCalls(choice).Some? { CallsEffect(ChoiceCalls(choice).value, r); }
    hide CheckCalls, CallsSay;
  }

  lemma ChoiceRaises(choices: seq<Json>, r: Record)
    requires choices != [] && !r.raised && ChoiceSays(choices[0]).raises
    ensures Effect(r, CheckChoices(choices, r), false, [], ChoiceSays(choices[0]))
  {
    ChoiceEffect(choices[0], r);
    hide CheckCalls, CallsSay, ChoiceSays;
  }

  lemma ItemEffect(item: Json, kind: string, r: Record, str: Json -> string)
    requires !r.raised
    ensures Effect(r, CheckItem(item, kind, r, str), false, [], ItemSays(item, kind, str))
  {
  }

  lemma ChatEffect(path: string, payload: string, event: map<string, Json>, r: Record, str: Json -> string)
    requires path == "/v1/chat/completions" && !r.raised
    ensures Effect(r, CheckObject(path, payload, event, r, str), EndsObject(path, event),
                   if ComplainsObject(path, event) then ["error: " + Take(payload, 200)] else [],
                   ObjectSays(path, event, str))
  {
    hide CheckChoices, Take, CheckItem, ChoicesSay;
    var noted := if "error" in event then AddError(r, "error: " + Take(payload, 200)) else r;
    var choices := OrNone(Get(event, "choices"));
    if choices.Some? { ChoicesEffect(choices.value, noted); NothingSaid(noted); }
  }

  lemma NothingSaid(r: Record)
    ensures CheckChoices([], r) == r && ChoicesSay([]) == SILENT
  {
  }

  lemma MessagesEffect(path: string, payload: string, event: map<string, Json>, r: Record, str: Json -> string)
    requires path == "/v1/messages" && !r.raised
    ensures Effect(r, CheckObject(path, payload, event, r, str), EndsObject(path, event),
                   if ComplainsObject(path, event) then ["error event: " + Take(payload, 200)] else [],
                   ObjectSays(path, event, str))
  {
    hide CheckChoices, Take, Truthy, CheckItem, ItemSays;
    ItemEffect(Get(event, "content_block"), "tool_use", r, str);
  }

  lemma ResponsesEffect(path: string, payload: string, event: map<string, Json>, r: Record, str: Json -> string)
    requires path == "/v1/responses" && !r.raised
    ensures ComplainsObject(path, event) ==> Get(event, "type").Str?
    ensures Effect(r, CheckObject(path, payload, event, r, str), EndsObject(path, event),
                   if ComplainsObject(path, event) then [Get(event, "type").text + ": " + Take(payload, 200)] else [],
                   ObjectSays(path, event, str))
  {
    hide CheckChoices, Take, Truthy, CheckItem, ItemSays;
    ItemEffect(Get(event, "item"), "function_call", r, str);
  }

  lemma ObjectEffect(path: string, payload: string, r: Record, parse: string -> Option<Json>, str: Json -> string)
    requires payload != "[DONE]" && parse(payload).Some? && parse(payload).value.Obj? && !r.raised
    ensures var event := parse(payload).value.fields;
      Effect(r, CheckObject(path, payload, event, r, str), EndsObject(path, event), Errors(path, payload, parse),
             ObjectSays(path, event, str))
  {
    var event := parse(payload).value.fields;
    if path == "/v1/chat/completions" {
      hide CheckObject, EndsObject, ComplainsObject, ObjectSays, Take;
      ChatEffect(path, payload, event, r, str);
    } else if path == "/v1/messages" {
      hide CheckObject, EndsObject, ComplainsObject, ObjectSays, Take;
      MessagesEffect(path, payload, event, r, str);
    } else if path == "/v1/responses" {
      hide CheckObject, EndsObject, ComplainsObject, ObjectSays, Take;
      ResponsesEffect(path, payload, event, r, str);
    } else {
      hide CheckChoices, CheckItem, ItemSays, ChoicesSay, ErrorText;
    }
  }

  lemma CheckEffect(path: string, payload: string, r: Record, parse: string -> Option<Json>, str: Json -> string)
    requires !r.raised
    ensures Effect(r, Check(path, payload, r, parse, str), Ends(path, payload, parse), Errors(path, payload, parse),
                   Says(path, payload, parse, str))
  {
    hide CheckObject, EndsObject, ComplainsObject, Take, ObjectSays;
    if payload != "[DONE]" && parse(payload).Some? && parse(payload).value.Obj? {
      ObjectEffect(path, payload, r, parse, str);
    }
  }

  function AllErrors(path: string, payloads: seq<string>, parse: string -> Option<Json>): seq<string> {
    if payloads == [] then [] else Errors(path, payloads[0], parse) + AllErrors(path, payloads[1..], parse)
  }

  function AllTools(path: string, payloads: seq<string>, parse: string -> Option<Json>, str: Json -> string)
    : seq<Json>
  {
    if payloads == [] then []
    else Says(path, payloads[0], parse, str).tools + AllTools(path, payloads[1..], parse, str)
  }

  lemma CheckAllFirst(path: string, payloads: seq<string>, r: Record, parse: string -> Option<Json>,
                      str: Json -> string)
    requires payloads != [] && !r.raised
    ensures CheckAll(path, payloads, r, parse, str)
      == CheckAll(path, payloads[1..], Check(path, payloads[0], r.(events := r.events + 1), parse, str), parse, str)
  {
    hide Check;
  }

  lemma {:induction false} StreamLists(path: string, payloads: seq<string>, r: Record,
                                       parse: string -> Option<Json>, str: Json -> string)
    requires !CheckAll(path, payloads, r, parse, str).raised
    ensures var after := CheckAll(path, payloads, r, parse, str);
      && after.events == r.events + |payloads|
      && after.errors == r.errors + AllErrors(path, payloads, parse)
      && after.toolCalls == r.toolCalls + AllTools(path, payloads, parse, str)
    decreases |payloads|
  {
    if payloads == [] || r.raised {
    } else {
      hide Check, Ends, Errors, Says, CheckAll;
      var next := r.(events := r.events + 1);
      var first := Check(path, payloads[0], next, parse, str);
      CheckAllFirst(path, payloads, r, parse, str);
      CheckEffect(path, payloads[0], next, parse, str);
      StreamLists(path, payloads[1..], first, parse, str);
      Regroup(r.errors, Errors(path, payloads[0], parse), AllErrors(path, payloads[1..], parse));
      Regroup(r.toolCalls, Says(path, payloads[0], parse, str).tools, AllTools(path, payloads[1..], parse, str));
    }
  }

  lemma {:induction false} StreamEnds(path: string, payloads: seq<string>, r: Record,
                                      parse: string -> Option<Json>, str: Json -> string)
    requires !CheckAll(path, payloads, r, parse, str).raised
    ensures CheckAll(path, payloads, r, parse, str).terminal
      <==> r.terminal || exists k | 0 <= k < |payloads| :: Ends(path, payloads[k], parse)
    decreases |payloads|
  {
    if payloads == [] {
    } else {
      hide Check, Ends, Errors, Says;
      if !r.raised {
        var next := r.(events := r.events + 1);
        CheckEffect(path, payloads[0], next, parse, str);
        var rest := payloads[1..];
        StreamEnds(path, rest, Check(path, payloads[0], next, parse, str), parse, str);
        assert forall k | 0 <= k < |rest| :: rest[k] == payloads[k + 1];
        assert forall k | 1 <= k < |payloads| :: payloads[k] == rest[k - 1];
      }
    }
  }

  /** A stream without an escaping error: every payload counted, the complaints' errors and the named tool calls
      recorded in order, and the terminal flag set exactly when some payload ends the protocol. */
  lemma StreamMeaning(path: string, payloads: seq<string>, r: Record,
                      parse: string -> Option<Json>, str: Json -> string)
    requires !CheckAll(path, payloads, r, parse, str).raised
    ensures var after := CheckAll(path, payloads, r, parse, str);
      && after.events == r.events + |payloads|
      && after.errors == r.errors + AllErrors(path, payloads, parse)
      && after.toolCalls == r.toolCalls + AllTools(path, payloads, parse, str)
      && (after.terminal <==> r.terminal || exists k | 0 <= k < |payloads| :: Ends(path, payloads[k], parse))
  {
    hide CheckAll, AllErrors, AllTools, Ends;
    StreamLists(path, payloads, r, parse, str);
    StreamEnds(path, payloads, r, parse, str);
  }

  /** A stream raises exactly at a payload whose reading raises: the record then stops with it. */
  lemma {:induction false} StreamRaises(path: string, payloads: seq<string>, r: Record,
                                        parse: string -> Option<Json>, str: Json -> string)
    requires !r.raised
    ensures CheckAll(path, payloads, r, parse, str).raised
      <==> exists k | 0 <= k < |payloads| :: Says(path, payloads[k], parse, str).raises
    decreases |payloads|
  {
    if payloads == [] {
    } else {
      hide Check, Ends, Errors, Says;
      var next := r.(events := r.events + 1);
      CheckEffect(path, payloads[0], next, parse, str);
      var rest, after := payloads[1..], Check(path, payloads[0], next, parse, str);
      if after.raised {
        assert Says(path, payloads[0], parse, str).raises;
      } else {
        StreamRaises(path, rest, after, parse, str);
        assert forall k | 0 <= k < |rest| :: rest[k] == payloads[k + 1];
        assert forall k | 1 <= k < |payloads| :: payloads[k] == rest[k - 1];
      }
    }
  }

  // ----- the splitter alone, chunk by chunk

  /** Payloads and tail when the tail of each call is prefixed to the next chunk. */
  function SseChunks(chunks: seq<string>, buffer: string): (seq<string>, string) {
    if chunks == [] then ([], buffer)
    else
      var (payloads, tail) := SseEvents(buffer + chunks[0]);
      var (more, last) := SseChunks(chunks[1..], tail);
      (payloads + more, last)
  }

  lemma {:induction false} TailIsUnfinished(s: string)
    ensures Split(Split(s).tail) == Pieces([], Split(s).tail)
    decreases |s|
  {
    hide Delimiter, FirstDelimiter, Split;
    SplitFirst(s);
    var j := FirstDelimiter(s, 0);
    if j < |s| { TailIsUnfinished(s[j + Delimiter(s, j)..]); }
  }

  lemma {:induction false} ChunksFromBuffer(chunks: seq<string>, buffer: string)
    requires Split(buffer) == Pieces([], buffer)
    ensures SseChunks(chunks, buffer) == SseEvents(buffer + Concat(chunks))
    decreases |chunks|
  {
    hide Split, EventPayload;
    if chunks == [] {
      assert buffer + Concat(chunks) == buffer;
    } else {
      hide Payloads;
      var tail := SseEvents(buffer + chunks[0]).1;
      TailIsUnfinished(buffer + chunks[0]);
      ChunksFromBuffer(chunks[1..], tail);
      EventsAppend(buffer + chunks[0], Concat(chunks[1..]));
      Regroup(buffer, chunks[0], Concat(chunks[1..]));
    }
  }

  /** However a stream is cut, also inside a delimiter, the payloads and the final tail are those of one
      call on the whole text. */
  lemma ChunkingIrrelevant(chunks: seq<string>)
    ensures SseChunks(chunks, "") == SseEvents(Concat(chunks))
  {
    hide SseEvents, SseChunks;
    assert Split("") == Pieces([], "") by { assert FirstDelimiter("", 0) == 0; }
    ChunksFromBuffer(chunks, "");
    assert "" + Concat(chunks) == Concat(chunks);
  }

  // ----- a well-formed stream is read back

  predicate LineEnd(eol: string) {
    eol == "\n" || eol == "\r\n"
  }

  /** The delimiters are the four ways to write two line ends. */
  lemma DelimiterIs(s: string, i: nat, n: nat)
    requires n > 0
    ensures Delimiter(s, i) == n <==>
      i + n <= |s| && s[i..i + n] in {"\n\n", "\r\n\n", "\n\r\n", "\r\n\r\n"}
  {
    if i + n <= |s| {
      if n == 2 { TwoAt(s, i); } else if n == 3 { ThreeAt(s, i); } else if n == 4 { FourAt(s, i); }
    }
  }

  lemma TwoAt(s: string, i: nat)
    requires i + 2 <= |s|
    ensures s[i..i + 2] == [s[i], s[i + 1]]
  {
  }

  lemma ThreeAt(s: string, i: nat)
    requires i + 3 <= |s|
    ensures s[i..i + 3] == [s[i], s[i + 1], s[i + 2]]
  {
  }

  lemma FourAt(s: string, i: nat)
    requires i + 4 <= |s|
    ensures s[i..i + 4] == [s[i], s[i + 1], s[i + 2], s[i + 3]]
  {
  }

  /** A line of an event: a data field, with any space before its text, or anything else. */
  datatype Line = Data(pad: string, text: string) | Other(text: string)

  predicate NoBreak(text: string) {
    forall i | 0 <= i < |text| :: !LineBreak(text[i])
  }

  predicate Good(line: Line) {
    && NoBreak(line.text)
    && match line
       case Data(pad, text) =>
         NoBreak(pad) && (forall i | 0 <= i < |pad| :: Space(pad[i])) && (text != "" ==> !Space(text[0]))
       case Other(text) => text != "" && !("data:" <= text)
  }

  function Render(line: Line): string {
    match line
    case Data(pad, text) => "data:" + (pad + text)
    case Other(text) => text
  }

  /** Lines with the end each is written with. */
  datatype Wired = Wired(line: Line, eol: string)

  predicate GoodLines(lines: seq<Wired>) {
    lines != [] && forall i | 0 <= i < |lines| :: Good(lines[i].line) && LineEnd(lines[i].eol)
  }

  /** The lines of one event up to the end of the last. */
  function EventText(lines: seq<Wired>): string
    requires lines != []
  {
    if |lines| == 1 then Render(lines[0].line)
    else Render(lines[0].line) + lines[0].eol + EventText(lines[1..])
  }

  /** An event and the line end of the blank line behind it. */
  datatype Event = Event(lines: seq<Wired>, blank: string)

  predicate GoodEvents(events: seq<Event>) {
    forall i | 0 <= i < |events| :: GoodLines(events[i].lines) && LineEnd(events[i].blank)
  }

  function Wire(events: seq<Event>): string
    requires GoodEvents(events)
  {
    if events == [] then ""
    else
      var lines := events[0].lines;
      EventText(lines) + (lines[|lines| - 1].eol + events[0].blank + Wire(events[1..]))
  }

  /** The texts of the data lines, in order. */
  function Texts(lines: seq<Wired>): seq<string> {
    if lines == [] then []
    else (if lines[0].line.Data? then [lines[0].line.text] else []) + Texts(lines[1..])
  }

  function Rendered(lines: seq<Wired>): seq<string> {
    if lines == [] then [] else [Render(lines[0].line)] + Rendered(lines[1..])
  }

  /** No blank line inside, and no line boundary at either end. */
  predicate Unbroken(s: string) {
    && s != "" && s[|s| - 1] != '\r' && s[0] != '\n' && s[0] != '\r'
    && forall i | 0 <= i < |s| && s[i] == '\n' :: i + 1 < |s| && s[i + 1] != '\n' && s[i + 1] != '\r'
  }

  lemma RenderIsUnbroken(line: Line)
    requires Good(line)
    ensures Unbroken(Render(line)) && NoBreak(Render(line))
  {
    hide Space;
    var s := Render(line);
    assert NoBreak(s) by {
      hide LineBreak;
      assert forall i | 0 <= i < 5 :: !LineBreak("data:"[i]) by { DataHasNoBreak(); }
    }
    assert !LineBreak(s[0]) && !LineBreak(s[|s| - 1]);
  }

  lemma DataHasNoBreak()
    ensures forall i | 0 <= i < 5 :: !LineBreak("data:"[i])
  {
  }

  lemma UnbrokenJoin(a: string, eol: string, b: string)
    requires Unbroken(a) && NoBreak(a) && LineEnd(eol) && Unbroken(b)
    ensures Unbroken(a + eol + b)
  {
    var s := a + eol + b;
    var n := |a| + |eol|;
    forall i | 0 <= i < |a| ensures s[i] != '\n' { assert s[i] == a[i] && !LineBreak(a[i]); }
    assert s[|s| - 1] == b[|b| - 1] && s[0] == a[0];
    forall i | 0 <= i < |s| && s[i] == '\n' ensures i + 1 < |s| && s[i + 1] != '\n' && s[i + 1] != '\r' {
      if i < n {
        assert s[n] == b[0];
      } else {
        assert b[i - n] == '\n' && s[i + 1] == b[i + 1 - n];
      }
    }
  }

  lemma {:induction false} EventIsUnbroken(lines: seq<Wired>)
    requires GoodLines(lines)
    ensures Unbroken(EventText(lines))
  {
    hide Good, Unbroken, LineBreak, LineEnd, NoBreak, Render;
    RenderIsUnbroken(lines[0].line);
    if |lines| > 1 {
      EventIsUnbroken(lines[1..]);
      UnbrokenJoin(Render(lines[0].line), lines[0].eol, EventText(lines[1..]));
    }
  }

  lemma NoDelimiterInside(s: string, eol: string, blank: string, rest: string, k: nat)
    requires Unbroken(s) && LineEnd(eol) && LineEnd(blank) && k < |s|
    ensures Delimiter(s + (eol + blank + rest), k) == 0
  {
    var u := s + (eol + blank + rest);
    assert forall x :: 0 <= x < |s| ==> u[x] == s[x];
  }

  lemma DelimiterAtEnd(s: string, eol: string, blank: string, rest: string)
    requires LineEnd(eol) && LineEnd(blank)
    ensures Delimiter(s + (eol + blank + rest), |s|) == |eol| + |blank|
  {
    var u := s + (eol + blank + rest);
    assert forall x :: 0 <= x < |eol| + |blank| ==> u[|s| + x] == (eol + blank)[x];
  }

  lemma WireSplits(s: string, eol: string, blank: string, rest: string)
    requires Unbroken(s) && LineEnd(eol) && LineEnd(blank)
    ensures Split(s + (eol + blank + rest)) == Pieces([s] + Split(rest).events, Split(rest).tail)
  {
    hide Unbroken, Delimiter, Split;
    var u := s + (eol + blank + rest);
    forall k | 0 <= k < |s| ensures Delimiter(u, k) == 0 { NoDelimiterInside(s, eol, blank, rest, k); }
    DelimiterAtEnd(s, eol, blank, rest);
    FirstDelimiterIs(u, |s|);
    SplitFirst(u);
    assert u[..|s|] == s && u[|s| + (|eol| + |blank|)..] == rest;
  }

  lemma FirstDelimiterIs(s: string, j: nat)
    requires j < |s| && Delimiter(s, j) > 0 && forall k | 0 <= k < j :: Delimiter(s, k) == 0
    ensures FirstDelimiter(s, 0) == j
  {
    hide Delimiter;
    var r := FirstDelimiter(s, 0);
    assert r == j || r < j || j < r;
  }

  lemma FirstBreakIs(s: string, j: nat)
    requires j <= |s| && (j < |s| ==> LineBreak(s[j])) && forall k | 0 <= k < j :: !LineBreak(s[k])
    ensures FirstBreak(s, 0) == j
  {
    hide LineBreak;
    var r := FirstBreak(s, 0);
    assert r == j || r < j || j < r;
  }

  lemma LinesOfJoin(a: string, eol: string, b: string)
    requires LineEnd(eol) && b != "" && b[0] != '\n' && NoBreak(a)
    ensures SplitLines(a + eol + b) == [a] + SplitLines(b)
  {
    var s := a + eol + b;
    forall k | 0 <= k < |a| ensures !LineBreak(s[k]) { assert s[k] == a[k]; }
    assert s[|a|] == eol[0] && LineBreak(eol[0]);
    FirstBreakIs(s, |a|);
    assert s[|a| + |eol|] == b[0];
    assert s[..|a|] == a && s[|a| + |eol|..] == b;
    if eol == "\r\n" { assert s[|a| + 1] == '\n'; }
  }

  lemma {:induction false} EventTextLines(lines: seq<Wired>)
    requires GoodLines(lines)
    ensures SplitLines(EventText(lines)) == Rendered(lines)
  {
    hide Good, LineBreak, LineEnd, Render;
    var first := Render(lines[0].line);
    RenderIsUnbroken(lines[0].line);
    if |lines| == 1 {
      FirstBreakIs(first, |first|);
      assert lines[1..] == [];
    } else {
      hide SplitLines;
      EventTextLines(lines[1..]);
      EventIsUnbroken(lines[1..]);
      LinesOfJoin(first, lines[0].eol, EventText(lines[1..]));
    }
  }

  lemma {:induction false} StripsPad(pad: string, text: string)
    requires (forall i | 0 <= i < |pad| :: Space(pad[i])) && (text != "" ==> !Space(text[0]))
    ensures StripLeft(pad + text) == text
  {
    hide Space;
    if pad == "" {
      assert pad + text == text;
    } else {
      StripsPad(pad[1..], text);
      assert (pad + text)[1..] == pad[1..] + text;
    }
  }

  lemma {:induction false} DataLinesOfRendered(lines: seq<Wired>)
    requires forall i | 0 <= i < |lines| :: Good(lines[i].line)
    ensures DataLines(Rendered(lines)) == Texts(lines)
  {
    if lines != [] {
      hide StripLeft, Space, NoBreak;
      DataLinesOfRendered(lines[1..]);
      var line := lines[0].line;
      assert Rendered(lines)[0] == Render(line) && Rendered(lines)[1..] == Rendered(lines[1..]);
      if line.Data? {
        StripsPad(line.pad, line.text);
        assert ("data:" + (line.pad + line.text))[5..] == line.pad + line.text;
      }
    }
  }

  /** What an event hands on: its data texts joined, or nothing when it has none. */
  function Payload(lines: seq<Wired>): seq<string> {
    if Texts(lines) == [] then [] else [JoinLines(Texts(lines))]
  }

  lemma EventTextPayload(lines: seq<Wired>)
    requires GoodLines(lines)
    ensures EventPayload(EventText(lines)) == Payload(lines)
  {
    hide Good, SplitLines, DataLines, Rendered, EventText, JoinLines, Texts;
    EventTextLines(lines);
    DataLinesOfRendered(lines);
  }

  function AllPayloads(events: seq<Event>): seq<string> {
    if events == [] then [] else Payload(events[0].lines) + AllPayloads(events[1..])
  }

  /** A stream of events of any lines, each written with either line end, is read back: of every event exactly its
      data texts in order, stripped of leading space and joined, nothing of its other lines, and no tail. */
  lemma {:induction false} WireRoundTrip(events: seq<Event>)
    requires GoodEvents(events)
    ensures SseEvents(Wire(events)) == (AllPayloads(events), "")
  {
    if events == [] {
      assert FirstDelimiter("", 0) == 0;
    } else {
      hide Split, EventPayload, EventText, Payload, GoodEvents, GoodLines, LineEnd, Wire, Payloads;
      WireFirst(events);
      EventSplits(events[0], Wire(events[1..]));
      EventTextPayload(events[0].lines);
      WireRoundTrip(events[1..]);
      PayloadsFirst(EventText(events[0].lines), Split(Wire(events[1..])).events);
    }
  }

  lemma EventSplits(first: Event, rest: string)
    requires GoodLines(first.lines) && LineEnd(first.blank)
    ensures first.lines != []
    ensures Split(EventText(first.lines) + (first.lines[|first.lines| - 1].eol + first.blank + rest))
      == Pieces([EventText(first.lines)] + Split(rest).events, Split(rest).tail)
  {
    hide Split, EventText, LineEnd, Unbroken, GoodLines;
    var lines := first.lines;
    EventIsUnbroken(lines);
    LastEnds(lines);
    WireSplits(EventText(lines), lines[|lines| - 1].eol, first.blank, rest);
  }

  lemma WireFirst(events: seq<Event>)
    requires GoodEvents(events) && events != []
    ensures GoodLines(events[0].lines) && LineEnd(events[0].blank) && GoodEvents(events[1..])
    ensures var lines := events[0].lines;
      Wire(events) == EventText(lines) + (lines[|lines| - 1].eol + events[0].blank + Wire(events[1..]))
  {
    hide EventText;
  }

  lemma LastEnds(lines: seq<Wired>)
    requires GoodLines(lines)
    ensures lines != [] && LineEnd(lines[|lines| - 1].eol)
  {
  }

  /** A payload cut at its line feeds. */
  function CutLines(payload: string): (r: seq<string>)
    ensures r != []
  {
    if payload == "" then [""]
    else
      var rest := CutLines(payload[1..]);
      if payload[0] == '\n' then [""] + rest else [[payload[0]] + rest[0]] + rest[1..]
  }

  lemma {:induction false} CutFirst(text: string, rest: string)
    requires '\n' !in text
    ensures CutLines(text + ("\n" + rest)) == [text] + CutLines(rest)
  {
    if text == "" {
      assert text + ("\n" + rest) == "\n" + rest;
      assert ("\n" + rest)[1..] == rest;
    } else {
      CutFirst(text[1..], rest);
      assert (text + ("\n" + rest))[1..] == text[1..] + ("\n" + rest);
      assert [text[0]] + text[1..] == text;
    }
  }

  lemma {:induction false} CutWhole(text: string)
    requires '\n' !in text
    ensures CutLines(text) == [text]
  {
    if text != "" {
      CutWhole(text[1..]);
      assert [text[0]] + text[1..] == text;
    }
  }

  /** Nothing is lost in joining: the line feeds of a payload separate its data texts. */
  lemma {:induction false} JoinedTextsRead(texts: seq<string>)
    requires texts != [] && forall t | t in texts :: '\n' !in t
    ensures CutLines(JoinLines(texts)) == texts
  {
    if |texts| == 1 {
      CutWhole(texts[0]);
      assert texts == [texts[0]];
    } else {
      JoinedTextsRead(texts[1..]);
      CutFirst(texts[0], JoinLines(texts[1..]));
      assert JoinLines(texts) == texts[0] + ("\n" + JoinLines(texts[1..]));
      assert [texts[0]] + texts[1..] == texts;
    }
  }
}
