/** `closing` of scripts/check_observability.py: the end of a balanced Rust token group. */
module TokenGroups {

  predicate Opener(token: string) {
    token == "(" || token == "[" || token == "{"
  }

  predicate Closer(token: string) {
    token == ")" || token == "]" || token == "}"
  }

  function Partner(open: string): (close: string)
    requires Opener(open)
    ensures Closer(close)
  {
    if open == "(" then ")" else if open == "[" then "]" else "}"
  }

  /** What the loop returns from `index` with the expected closers on `stack`, the next one last. */
  function Close(tokens: seq<string>, index: nat, stack: seq<string>): (r: nat)
    requires index <= |tokens|
    ensures index <= r <= |tokens|
    decreases |tokens| - index
  {
    if index == |tokens| then index
    else
      var token := tokens[index];
      if Opener(token) then Close(tokens, index + 1, stack + [Partner(token)])
      else if Closer(token) then
        if stack == [] || stack[|stack| - 1] != token then |tokens|
        else if |stack| == 1 then index
        else Close(tokens, index + 1, stack[..|stack| - 1])
      else Close(tokens, index + 1, stack)
  }

  method Closing(tokens: seq<string>, start: nat) returns (end: nat)
    requires start <= |tokens|
    ensures end == Close(tokens, start, [])
  {
    var stack: seq<string> := [];
    for index := start to |tokens|
      invariant Close(tokens, start, []) == Close(tokens, index, stack)
    {
      var token := tokens[index];
      if Opener(token) {
        stack := stack + [Partner(token)];
      } else if Closer(token) {
        if stack == [] || stack[|stack| - 1] != token { return |tokens|; }
        stack := stack[..|stack| - 1];
        if stack == [] { return index; }
      }
    }
    return |tokens|;
  }

  predicate Brackets(open: string, close: string) {
    (open == "(" && close == ")") || (open == "[" && close == "]") || (open == "{" && close == "}")
  }

  predicate NoBracket(token: string) {
    token != "(" && token != ")" && token != "[" && token != "]" && token != "{" && token != "}"
  }

  lemma BracketsPair(open: string, close: string)
    ensures Brackets(open, close) <==> Opener(open) && Partner(open) == close
    ensures Brackets(open, close) ==> Closer(close) && !Opener(close)
  {
  }

  lemma OpensGroup(tokens: seq<string>, i: nat)
    requires i < |tokens| && Opener(tokens[i])
    ensures Close(tokens, i, []) == Close(tokens, i + 1, [Partner(tokens[i])])
  {
    hide Opener, Closer, Partner;
    assert [] + [Partner(tokens[i])] == [Partner(tokens[i])];
  }

  /** A group of each kind of bracket around tokens that are none. */
  lemma PlainGroup(open: string, inner: seq<string>, close: string)
    requires Brackets(open, close)
    requires forall i :: 0 <= i < |inner| ==> NoBracket(inner[i])
    ensures Close([open] + inner + [close], 0, []) == |inner| + 1
  {
    hide Opener, Closer, Partner, NoBracket, Close;
    BracketsPair(open, close);
    PlainCloses(open, inner, close);
  }

  lemma PlainCloses(open: string, inner: seq<string>, close: string)
    requires Opener(open) && Partner(open) == close && Closer(close) && !Opener(close)
    requires forall i :: 0 <= i < |inner| ==> NoBracket(inner[i])
    ensures Close([open] + inner + [close], 0, []) == |inner| + 1
  {
    hide Opener, Closer, Partner, NoBracket, Close;
    var tokens := [open] + inner + [close];
    assert tokens[0] == open;
    OpensGroup(tokens, 0);
    PlainInside(open, inner, close, 0);
  }

  lemma Unbracketed(token: string)
    ensures NoBracket(token) <==> !Opener(token) && !Closer(token)
  {
  }

  lemma {:induction false} PlainInside(open: string, inner: seq<string>, close: string, i: nat)
    requires Closer(close) && !Opener(close) && i <= |inner|
    requires forall j :: 0 <= j < |inner| ==> NoBracket(inner[j])
    ensures Close([open] + inner + [close], i + 1, [close]) == |inner| + 1
    decreases |inner| - i
  {
    hide Opener, Closer, NoBracket;
    var tokens := [open] + inner + [close];
    if i < |inner| {
      Unbracketed(inner[i]);
      assert tokens[i + 1] == inner[i];
      PlainInside(open, inner, close, i + 1);
    } else {
      assert tokens[i + 1] == close;
    }
  }

  // ----- the grammar of balanced token groups

  datatype Items = Nil | Leaf(token: string, rest: Items) | Group(open: string, inner: Items, rest: Items)

  predicate Balanced(items: Items) {
    match items
    case Nil => true
    case Leaf(token, rest) => !Opener(token) && !Closer(token) && Balanced(rest)
    case Group(open, inner, rest) => Opener(open) && Balanced(inner) && Balanced(rest)
  }

  function Flat(items: Items): seq<string>
    requires Balanced(items)
  {
    match items
    case Nil => []
    case Leaf(token, rest) => [token] + Flat(rest)
    case Group(open, inner, rest) => [open] + (Flat(inner) + ([Partner(open)] + Flat(rest)))
  }

  /** `tokens[start..end + 1]` is one complete group. */
  ghost predicate IsGroup(tokens: seq<string>, start: nat, end: nat) {
    && start < end < |tokens| && Opener(tokens[start])
    && exists inner :: Balanced(inner)
         && tokens[start..end + 1] == [tokens[start]] + (Flat(inner) + [Partner(tokens[start])])
  }

  predicate Shows(tokens: seq<string>, i: nat, part: seq<string>) {
    i + |part| <= |tokens| && tokens[i..i + |part|] == part
  }

  lemma ShowsFits(tokens: seq<string>, i: nat, part: seq<string>)
    requires Shows(tokens, i, part)
    ensures i + |part| <= |tokens|
  {
  }

  lemma ShowsParts(tokens: seq<string>, i: nat, a: seq<string>, b: seq<string>)
    requires Shows(tokens, i, a + b)
    ensures Shows(tokens, i, a) && Shows(tokens, i + |a|, b)
  {
    assert tokens[i..i + |a + b|][..|a|] == tokens[i..i + |a|];
    assert tokens[i..i + |a + b|][|a|..] == tokens[i + |a|..i + |a| + |b|];
  }

  lemma ShowsOne(tokens: seq<string>, i: nat, token: string)
    requires Shows(tokens, i, [token])
    ensures i < |tokens| && tokens[i] == token
  {
    assert tokens[i..i + 1][0] == tokens[i];
  }

  /** Inside a group, balanced items leave the stack as it was. */
  lemma {:induction false} ItemsArePassed(tokens: seq<string>, i: nat, items: Items, stack: seq<string>)
    requires Balanced(items) && stack != [] && Shows(tokens, i, Flat(items))
    ensures i + |Flat(items)| <= |tokens|
    ensures Close(tokens, i, stack) == Close(tokens, i + |Flat(items)|, stack)
    decreases items
  {
    hide Opener, Closer, Partner, Shows;
    OneKind();
    ShowsFits(tokens, i, Flat(items));
    match items
    case Nil =>
    case Leaf(token, rest) =>
      ShowsParts(tokens, i, [token], Flat(rest));
      ShowsOne(tokens, i, token);
      ItemsArePassed(tokens, i + 1, rest, stack);
    case Group(open, inner, rest) =>
      GroupParts(tokens, i, open, inner, rest);
      ItemsArePassed(tokens, i + 1, inner, stack + [Partner(open)]);
      ClosePops(tokens, i + 1 + |Flat(inner)|, stack, Partner(open));
      ItemsArePassed(tokens, i + 1 + |Flat(inner)| + 1, rest, stack);
  }

  lemma GroupParts(tokens: seq<string>, i: nat, open: string, inner: Items, rest: Items)
    requires Balanced(Group(open, inner, rest)) && Shows(tokens, i, Flat(Group(open, inner, rest)))
    ensures i < |tokens| && tokens[i] == open && Shows(tokens, i + 1, Flat(inner))
    ensures Shows(tokens, i + 1 + |Flat(inner)|, [Partner(open)])
    ensures Shows(tokens, i + 1 + |Flat(inner)| + 1, Flat(rest))
  {
    hide Opener, Closer, Partner, Shows;
    var tail := [Partner(open)] + Flat(rest);
    ShowsParts(tokens, i, [open], Flat(inner) + tail);
    ShowsOne(tokens, i, open);
    ShowsParts(tokens, i + 1, Flat(inner), tail);
    ShowsParts(tokens, i + 1 + |Flat(inner)|, [Partner(open)], Flat(rest));
  }

  lemma OneKind()
    ensures forall token :: !(Opener(token) && Closer(token))
  {
  }

  lemma ClosePops(tokens: seq<string>, i: nat, stack: seq<string>, close: string)
    requires stack != [] && Closer(close) && Shows(tokens, i, [close])
    ensures Close(tokens, i, stack + [close]) == Close(tokens, i + 1, stack)
  {
    hide Opener, Closer, Shows;
    OneKind();
    ShowsOne(tokens, i, close);
    assert (stack + [close])[..|stack|] == stack;
  }

  /** The tokens that finish a stack: for each expected closer, some items and then it. */
  function Unwind(stack: seq<string>, parts: seq<Items>): seq<string>
    requires |stack| == |parts| && forall k :: 0 <= k < |parts| ==> Balanced(parts[k])
  {
    if stack == [] then []
    else Flat(parts[0]) + ([stack[|stack| - 1]] + Unwind(stack[..|stack| - 1], parts[1..]))
  }

  /** When the loop stops at a closer, what it read parses. */
  lemma {:induction false} ReadParses(tokens: seq<string>, i: nat, stack: seq<string>) returns (parts: seq<Items>)
    requires i <= |tokens| && stack != [] && Close(tokens, i, stack) < |tokens|
    ensures |parts| == |stack| && forall k :: 0 <= k < |parts| ==> Balanced(parts[k])
    ensures tokens[i..Close(tokens, i, stack) + 1] == Unwind(stack, parts)
    decreases |tokens| - i
  {
    hide Opener, Closer, Partner, Flat, Balanced, Unwind;
    OneKind();
    var token, end := tokens[i], Close(tokens, i, stack);
    if Closer(token) && |stack| == 1 {
      parts := [Nil];
      UnwindLast(token);
      assert tokens[i..i + 1] == [token] && stack == [token];
    } else {
      assert tokens[i..end + 1] == [token] + tokens[i + 1..end + 1];
      if Opener(token) {
        var deeper := ReadParses(tokens, i + 1, stack + [Partner(token)]);
        parts := [Group(token, deeper[0], deeper[1])] + deeper[2..];
        UnwindGroup(stack, token, deeper);
      } else if Closer(token) {
        var rest := ReadParses(tokens, i + 1, stack[..|stack| - 1]);
        parts := [Nil] + rest;
        UnwindPop(stack, rest);
      } else {
        var rest := ReadParses(tokens, i + 1, stack);
        parts := [Leaf(token, rest[0])] + rest[1..];
        UnwindLeaf(stack, token, rest);
      }
    }
  }

  lemma UnwindLast(token: string)
    ensures Balanced(Nil) && Unwind([token], [Nil]) == [token]
  {
    assert [token][..0] == [] && [Nil][1..] == [];
  }

  lemma UnwindPop(stack: seq<string>, rest: seq<Items>)
    requires |stack| == |rest| + 1 && forall k :: 0 <= k < |rest| ==> Balanced(rest[k])
    ensures Balanced(Nil) && forall k :: 0 <= k < |stack| ==> Balanced(([Nil] + rest)[k])
    ensures Unwind(stack, [Nil] + rest) == [stack[|stack| - 1]] + Unwind(stack[..|stack| - 1], rest)
  {
    assert ([Nil] + rest)[1..] == rest;
  }

  lemma UnwindLeaf(stack: seq<string>, token: string, rest: seq<Items>)
    requires |stack| == |rest| > 0 && forall k :: 0 <= k < |rest| ==> Balanced(rest[k])
    requires !Opener(token) && !Closer(token)
    ensures var parts := [Leaf(token, rest[0])] + rest[1..];
      (forall k :: 0 <= k < |parts| ==> Balanced(parts[k])) && Unwind(stack, parts) == [token] + Unwind(stack, rest)
  {
    hide Opener, Closer;
    var parts := [Leaf(token, rest[0])] + rest[1..];
    assert parts[1..] == rest[1..];
  }

  lemma UnwindGroup(stack: seq<string>, open: string, deeper: seq<Items>)
    requires stack != [] && Opener(open) && |deeper| == |stack| + 1
    requires forall k :: 0 <= k < |deeper| ==> Balanced(deeper[k])
    ensures var parts := [Group(open, deeper[0], deeper[1])] + deeper[2..];
      && (forall k :: 0 <= k < |parts| ==> Balanced(parts[k]))
      && Unwind(stack, parts) == [open] + Unwind(stack + [Partner(open)], deeper)
  {
    hide Opener, Closer, Partner;
    var parts := [Group(open, deeper[0], deeper[1])] + deeper[2..];
    var last, below := [stack[|stack| - 1]], stack[..|stack| - 1];
    assert (stack + [Partner(open)])[..|stack|] == stack;
    assert deeper[1..][0] == deeper[1] && deeper[1..][1..] == deeper[2..] == parts[1..];
    var a, b := Flat(deeper[0]), Flat(deeper[1]);
    var tail := last + Unwind(below, deeper[2..]);
    assert Unwind(stack, parts) == ([open] + (a + ([Partner(open)] + b))) + tail;
    assert Unwind(stack, deeper[1..]) == b + tail;
    Regroup([open], a, [Partner(open)], b, tail);
  }

  lemma Regroup(o: seq<string>, a: seq<string>, c: seq<string>, b: seq<string>, t: seq<string>)
    ensures (o + (a + (c + b))) + t == o + (a + (c + (b + t)))
  {
  }

  lemma FoundIsGroup(tokens: seq<string>, start: nat)
    requires start < |tokens| && Opener(tokens[start]) && Close(tokens, start, []) < |tokens|
    ensures IsGroup(tokens, start, Close(tokens, start, []))
  {
    hide Opener, Closer, Partner;
    var open, end := tokens[start], Close(tokens, start, []);
    var close := Partner(open);
    assert [] + [close] == [close];
    var parts := ReadParses(tokens, start + 1, [close]);
    UnwindOne(close, parts);
    assert tokens[start..end + 1] == [open] + tokens[start + 1..end + 1];
    assert Balanced(parts[0]);
  }

  lemma UnwindOne(close: string, parts: seq<Items>)
    requires |parts| == 1 && Balanced(parts[0])
    ensures Unwind([close], parts) == Flat(parts[0]) + [close]
  {
    assert [close][..0] == [] && parts[1..] == [];
  }

  lemma GroupCloses(tokens: seq<string>, start: nat, open: string, inner: Items)
    requires Balanced(inner) && Opener(open) && Shows(tokens, start, [open] + (Flat(inner) + [Partner(open)]))
    ensures start + 1 + |Flat(inner)| < |tokens|
    ensures Close(tokens, start, []) == start + 1 + |Flat(inner)|
  {
    hide Opener, Closer, Partner, Shows, Flat;
    OneKind();
    var close := Partner(open);
    ShowsParts(tokens, start, [open], Flat(inner) + [close]);
    ShowsParts(tokens, start + 1, Flat(inner), [close]);
    ShowsOne(tokens, start, open);
    ShowsOne(tokens, start + 1 + |Flat(inner)|, close);
    ItemsArePassed(tokens, start + 1, inner, [close]);
    assert [] + [close] == [close];
  }

  lemma GroupIsFound(tokens: seq<string>, start: nat, end: nat)
    requires IsGroup(tokens, start, end)
    ensures Close(tokens, start, []) == end
  {
    hide Opener, Closer, Partner, Close, Flat, Balanced;
    var open := tokens[start];
    var inner :| Balanced(inner) && tokens[start..end + 1] == [open] + (Flat(inner) + [Partner(open)]);
    assert |tokens[start..end + 1]| == 1 + |Flat(inner)| + 1;
    GroupCloses(tokens, start, open, inner);
  }

  /** `closing` finds the end of the group that starts at an opener, exactly when there is one. */
  lemma ClosingFindsGroup(tokens: seq<string>, start: nat, end: nat)
    requires start < |tokens| && Opener(tokens[start]) && end < |tokens|
    ensures Close(tokens, start, []) == end <==> IsGroup(tokens, start, end)
  {
    hide IsGroup, Close;
    if Close(tokens, start, []) == end { FoundIsGroup(tokens, start); }
    if IsGroup(tokens, start, end) { GroupIsFound(tokens, start, end); }
  }

  /** It returns the number of tokens exactly when no group starts there. */
  lemma ClosingReportsNoGroup(tokens: seq<string>, start: nat)
    requires start < |tokens| && Opener(tokens[start])
    ensures Close(tokens, start, []) == |tokens| <==> !exists end :: IsGroup(tokens, start, end)
  {
    forall end: nat ensures IsGroup(tokens, start, end) ==> Close(tokens, start, []) == end {
      if IsGroup(tokens, start, end) { ClosingFindsGroup(tokens, start, end); }
    }
    if Close(tokens, start, []) < |tokens| {
      ClosingFindsGroup(tokens, start, Close(tokens, start, []));
    }
  }

  /** No two groups start at the same opener. */
  lemma GroupIsUnique(tokens: seq<string>, start: nat, end: nat, other: nat)
    requires IsGroup(tokens, start, end) && IsGroup(tokens, start, other)
    ensures end == other
  {
    ClosingFindsGroup(tokens, start, end);
    ClosingFindsGroup(tokens, start, other);
  }
}
