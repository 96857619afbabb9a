/** The request encoder of scripts/julia_encoding_contract.py: `sequence` on a validated row. A tokenizer is
    any function from text to token ids. */
module RequestEncoding {
  import opened Wrappers

  datatype Kind = Choice | Score | Noul

  function KindName(kind: Kind): string {
    match kind
    case Choice => "choice"
    case Score => "score"
    case Noul => "noul"
  }

  /** A kind's place among the type names. */
  function QType(kind: Kind): (r: int)
    ensures 0 <= r < 3 && ["choice", "score", "noul"][r] == KindName(kind)
  {
    match kind
    case Choice => 0
    case Score => 1
    case Noul => 2
  }

  /** `state` is the text itself or the JSON dump of the state. */
  datatype Row = Row(state: string, question: string, options: seq<string>, kind: Kind)

  /** The part of `validate_row` that bounds the options. */
  predicate Valid(row: Row) {
    2 <= |row.options| <= 20 && (row.kind.Noul? ==> |row.options| == 2)
  }

  datatype Tokenizer = Tokenizer(encode: string -> seq<int>, maskId: Option<int>, clsId: Option<int>,
                                 sepId: Option<int>, maskToken: Option<string>)

  datatype Fault =
    | NoRoomBeyondHead | MissingIds | MissingMaskToken | ReservedMarker | OptionTooLong | HeadNotLossless
    | OverBudget | StateTooLong

  datatype Encoded = Encoded(ids: seq<int>, markers: seq<nat>, qtype: int, truncated: bool,
                             optionTokens: Option<seq<nat>>)

  // ----- text

  /** `pattern in text` */
  predicate Contains(text: string, pattern: string) {
    pattern <= text || (text != "" && Contains(text[1..], pattern))
  }

  function Interleave(text: string): string {
    if text == "" then " " else " " + [text[0]] + Interleave(text[1..])
  }

  /** `text.replace(pattern, " ")`; an empty pattern matches around every character. */
  function Clean(text: string, pattern: string): string
    decreases |text|
  {
    if pattern == "" then Interleave(text)
    else if text == "" then ""
    else if pattern <= text then " " + Clean(text[|pattern|..], pattern)
    else [text[0]] + Clean(text[1..], pattern)
  }

  // ----- tokens

  /** `tokens[:k]` */
  function Take<T>(tokens: seq<T>, k: nat): (r: seq<T>)
    ensures r <= tokens && |r| == if |tokens| <= k then |tokens| else k
  {
    if |tokens| <= k then tokens else tokens[..k]
  }

  function Max(a: int, b: int): int { if a < b then b else a }

  /** `sum(map(len, options))` */
  function Total(options: seq<seq<int>>): nat {
    if options == [] then 0 else |options[0]| + Total(options[1..])
  }

  function Flat(options: seq<seq<int>>): seq<int> {
    if options == [] then [] else options[0] + Flat(options[1..])
  }

  /** Where each block of `Flat(options)` starts when the first starts at `start`. */
  function MarkersFrom(start: nat, options: seq<seq<int>>): seq<nat>
    decreases |options|
  {
    if options == [] then [] else [start] + MarkersFrom(start + |options[0]|, options[1..])
  }

  function Marked(maskId: int, optionIds: seq<seq<int>>): (r: seq<seq<int>>)
    ensures |r| == |optionIds|
  {
    seq(|optionIds|, i requires 0 <= i < |optionIds| => [maskId] + Take(optionIds[i], 48))
  }

  function Shortened(options: seq<seq<int>>, k: nat): (r: seq<seq<int>>)
    ensures |r| == |options|
  {
    seq(|options|, i requires 0 <= i < |options| => Take(options[i], k))
  }

  /** `max(4, (head_length - 16) // n)`: floor division, `n` being positive. */
  function PerOption(headLength: int, n: nat): nat
    requires n > 0
  {
    Max(4, (headLength - 16) / n)
  }

  /** The option blocks after the two levels of truncation. */
  function Blocks(maskId: int, optionIds: seq<seq<int>>, headLength: int): (r: seq<seq<int>>)
    requires optionIds != []
    ensures |r| == |optionIds|
  {
    var marked := Marked(maskId, optionIds);
    if headLength - Total(marked) < 16 then Shortened(marked, PerOption(headLength, |optionIds|)) else marked
  }

  /** The tokens of a row: question head, options, state. */
  datatype Tokens = Tokens(head: seq<int>, options: seq<seq<int>>, state: seq<int>)

  function Tokenize(encode: string -> seq<int>, row: Row, maskToken: string): (t: Tokens)
    ensures |t.options| == |row.options|
  {
    Tokens(encode(KindName(row.kind) + " question: " + Clean(row.question, maskToken)),
           seq(|row.options|, i requires 0 <= i < |row.options| => encode(" " + Clean(row.options[i], maskToken))),
           encode(Clean(row.state, maskToken)))
  }

  predicate AnyReserved(row: Row, maskToken: string) {
    Contains(row.state, maskToken) || Contains(row.question, maskToken)
    || exists i | 0 <= i < |row.options| :: Contains(row.options[i], maskToken)
  }

  predicate AnyLong(optionIds: seq<seq<int>>) {
    exists i | 0 <= i < |optionIds| :: |optionIds[i]| > 48
  }

  predicate AnyCut(blocks: seq<seq<int>>, optionIds: seq<seq<int>>)
    requires |blocks| == |optionIds|
  {
    exists i | 0 <= i < |blocks| :: |blocks[i]| != |optionIds[i]| + 1
  }

  function Lengths(optionIds: seq<seq<int>>): seq<nat> {
    seq(|optionIds|, i requires 0 <= i < |optionIds| => |optionIds[i]|)
  }

  function HeadPart(cls: int, head: seq<int>, budget: int, sep: int): (r: seq<int>)
    ensures |r| >= 2
  {
    [cls] + Take(head, Max(8, budget)) + [sep]
  }

  /** Everything after tokenization. */
  function Assemble(mask: int, cls: int, sep: int, t: Tokens, qtype: int, maxLength: int, headLength: int,
                    strict: bool): Result<Encoded, Fault>
    requires t.options != []
  {
    if strict && AnyLong(t.options) then Err(OptionTooLong)
    else
      var blocks := Blocks(mask, t.options, headLength);
      var budget := headLength - Total(blocks);
      if strict && (|t.head| > budget || AnyCut(blocks, t.options)) then Err(HeadNotLossless)
      else
        var front := HeadPart(cls, t.head, budget, sep);
        var ids := front + Flat(blocks) + [sep];
        var room := maxLength - |ids| - 1;
        if room < 1 then Err(OverBudget)
        else if strict && |t.state| > room then Err(StateTooLong)
        else Ok(Encoded(ids + Take(t.state, room) + [sep], MarkersFrom(|front|, blocks), qtype, |t.state| > room,
                        if strict then Some(Lengths(t.options)) else None))
  }

  /** The first complaint before any text is tokenized. */
  function Refusal(tok: Tokenizer, row: Row, maxLength: int, headLength: int, strict: bool): Option<Fault> {
    if headLength + 4 >= maxLength then Some(NoRoomBeyondHead)
    else if tok.maskId.None? || tok.clsId.None? || tok.sepId.None? then Some(MissingIds)
    else if tok.maskToken.None? then Some(MissingMaskToken)
    else if strict && AnyReserved(row, tok.maskToken.value) then Some(ReservedMarker)
    else None
  }

  /** `sequence` */
  function Sequence(tok: Tokenizer, row: Row, maxLength: int, headLength: int, strict: bool): Result<Encoded, Fault>
    requires Valid(row)
  {
    var refusal := Refusal(tok, row, maxLength, headLength, strict);
    if refusal.Some? then Err(refusal.value)
    else
      Assemble(tok.maskId.value, tok.clsId.value, tok.sepId.value,
               Tokenize(tok.encode, row, tok.maskToken.value), QType(row.kind),
               maxLength, headLength, strict)
  }

  /** The loop that lays the option blocks out and notes where each starts. */
  method LayOut(front: seq<int>, options: seq<seq<int>>) returns (ids: seq<int>, markers: seq<nat>)
    ensures ids == front + Flat(options)
    ensures markers == MarkersFrom(|front|, options)
  {
    ids, markers := front, [];
    for i := 0 to |options|
      invariant ids + Flat(options[i..]) == front + Flat(options)
      invariant markers + MarkersFrom(|ids|, options[i..]) == MarkersFrom(|front|, options)
    {
      assert options[i..][1..] == options[i + 1..];
      assert ids + (options[i] + Flat(options[i + 1..])) == ids + options[i] + Flat(options[i + 1..]);
      assert markers + ([|ids|] + MarkersFrom(|ids| + |options[i]|, options[i + 1..]))
          == markers + [|ids|] + MarkersFrom(|ids| + |options[i]|, options[i + 1..]);
      markers := markers + [|ids|];
      ids := ids + options[i];
    }
    assert options[|options|..] == [];
  }

  method Encode(tok: Tokenizer, row: Row, maxLength: int, headLength: int, strict: bool)
    returns (r: Result<Encoded, Fault>)
    requires Valid(row)
    ensures r == Sequence(tok, row, maxLength, headLength, strict)
  {
    hide Flat, MarkersFrom, Marked, Shortened, Contains, Clean, KindName, Total, Lengths;
    if headLength + 4 >= maxLength { return Err(NoRoomBeyondHead); }
    if tok.maskId.None? || tok.clsId.None? || tok.sepId.None? { return Err(MissingIds); }
    if tok.maskToken.None? { return Err(MissingMaskToken); }
    if strict && AnyReserved(row, tok.maskToken.value) { return Err(ReservedMarker); }
    var t := Tokenize(tok.encode, row, tok.maskToken.value);
    if strict && AnyLong(t.options) { return Err(OptionTooLong); }
    var options := Marked(tok.maskId.value, t.options);
    var budget := headLength - Total(options);
    if budget < 16 {
      options := Shortened(options, PerOption(headLength, |options|));
      budget := headLength - Total(options);
    }
    if strict && (|t.head| > budget || AnyCut(options, t.options)) { return Err(HeadNotLossless); }
    var ids, markers := LayOut(HeadPart(tok.clsId.value, t.head, budget, tok.sepId.value), options);
    ids := ids + [tok.sepId.value];
    var room := maxLength - |ids| - 1;
    if room < 1 { return Err(OverBudget); }
    if strict && |t.state| > room { return Err(StateTooLong); }
    return Ok(Encoded(ids + Take(t.state, room) + [tok.sepId.value], markers, QType(row.kind), |t.state| > room,
                      if strict then Some(Lengths(t.options)) else None));
  }

  // ----- lengths and positions of the blocks

  lemma {:induction false} FlatLength(options: seq<seq<int>>)
    ensures |Flat(options)| == Total(options)
  {
    if options != [] { FlatLength(options[1..]); }
  }

  lemma {:induction false} MarkersLength(start: nat, options: seq<seq<int>>)
    ensures |MarkersFrom(start, options)| == |options|
    decreases |options|
  {
    if options != [] { MarkersLength(start + |options[0]|, options[1..]); }
  }

  /** Marker `i` is where block `i` lies. */
  predicate BlockAt(ids: seq<int>, at: int, block: seq<int>) {
    0 <= at && at + |block| <= |ids| && ids[at..at + |block|] == block
  }

  lemma BlockBefore(ids: seq<int>, more: seq<int>, at: int, block: seq<int>)
    requires BlockAt(ids, at, block)
    ensures BlockAt(ids + more, at, block)
  {
    assert (ids + more)[at..at + |block|] == ids[at..at + |block|];
  }

  lemma {:induction false} MarkersPoint(front: seq<int>, options: seq<seq<int>>, i: nat)
    requires i < |options|
    ensures |MarkersFrom(|front|, options)| == |options|
    ensures BlockAt(front + Flat(options), MarkersFrom(|front|, options)[i], options[i])
    ensures MarkersFrom(|front|, options)[i] + |options[i]|
            == if i + 1 < |options| then MarkersFrom(|front|, options)[i + 1] else |front| + Total(options)
    decreases |options|
  {
    MarkersLength(|front|, options);
    var next := front + options[0];
    assert front + Flat(options) == next + Flat(options[1..]);
    MarkersLength(|next|, options[1..]);
    if i == 0 {
      assert (front + Flat(options))[|front|..|front| + |options[0]|] == options[0];
      assert |options| == 1 ==> options[1..] == [];
    } else {
      MarkersPoint(next, options[1..], i - 1);
    }
  }

  lemma {:induction false} TotalShortened(options: seq<seq<int>>, k: nat)
    ensures Total(Shortened(options, k)) <= k * |options|
  {
    if options != [] {
      assert Shortened(options, k)[1..] == Shortened(options[1..], k);
      TotalShortened(options[1..], k);
      assert k * |options| == k + k * (|options| - 1);
    }
  }

  lemma FloorTimes(a: int, n: nat)
    requires n > 0
    ensures (a / n) * n <= a < (a / n) * n + n
  {
  }

  /** The blocks leave at least eight head tokens exactly when the head has room for four tokens an option. */
  lemma BlocksFit(mask: int, optionIds: seq<seq<int>>, headLength: int)
    requires optionIds != [] && headLength >= 8 + 4 * |optionIds|
    ensures Total(Blocks(mask, optionIds, headLength)) + 8 <= headLength
  {
    hide Total, Marked, Shortened;
    var n, marked := |optionIds|, Marked(mask, optionIds);
    if headLength - Total(marked) < 16 {
      var per := PerOption(headLength, n);
      TotalShortened(marked, per);
      FloorTimes(headLength - 16, n);
      if per == 4 {
      } else {
        assert per * n == ((headLength - 16) / n) * n;
      }
    }
  }

  // ----- the sequence budget

  /** Under the smaller head the blocks are cut to four tokens each, or left room enough. */
  lemma BlocksSpill(mask: int, optionIds: seq<seq<int>>, headLength: int)
    requires optionIds != [] && headLength < 8 + 4 * |optionIds|
    ensures var total := Total(Blocks(mask, optionIds, headLength));
      total + 16 <= headLength || total <= 4 * |optionIds|
  {
    hide Total, Marked, Shortened;
    var n, marked := |optionIds|, Marked(mask, optionIds);
    if headLength - Total(marked) < 16 {
      FloorBelow(headLength - 16, n, 4);
      TotalShortened(marked, PerOption(headLength, n));
    }
  }

  /** In strict mode, with room for eight head tokens and four per option, or with a sequence long enough for
      both, the head always fits. */
  lemma HeadFits(mask: int, cls: int, sep: int, t: Tokens, qtype: int, maxLength: int, headLength: int, strict: bool)
    requires t.options != [] && headLength + 4 < maxLength
    requires strict || headLength >= 8 + 4 * |t.options| || maxLength >= 13 + 4 * |t.options|
    ensures Assemble(mask, cls, sep, t, qtype, maxLength, headLength, strict) != Err(OverBudget)
  {
    hide Flat, Total, MarkersFrom, Blocks, AnyCut, AnyLong, Lengths;
    var blocks := Blocks(mask, t.options, headLength);
    FlatLength(blocks);
    if headLength >= 8 + 4 * |t.options| {
      BlocksFit(mask, t.options, headLength);
    } else {
      BlocksSpill(mask, t.options, headLength);
    }
  }

  function Repeat(x: int, n: nat): (r: seq<int>)
    ensures |r| == n
  {
    seq(n, _ => x)
  }

  lemma {:induction false} TotalOfEqual(options: seq<seq<int>>, k: nat)
    requires forall i | 0 <= i < |options| :: |options[i]| == k
    ensures Total(options) == k * |options|
  {
    if options != [] {
      TotalOfEqual(options[1..], k);
      assert k * |options| == k + k * (|options| - 1);
    }
  }

  /** Eight tokens for every text. */
  function Wordy(): Tokenizer {
    Tokenizer(_ => Repeat(7, 8), Some(4), Some(1), Some(2), Some("[MASK]"))
  }

  function Plain(n: nat): Row {
    Row("", "", seq(n, _ => "x"), if n == 2 then Noul else Choice)
  }

  /** With less room in both, a head of eight tokens and options of three do not fit. */
  lemma HeadOverflows(mask: int, cls: int, sep: int, t: Tokens, qtype: int, maxLength: int, headLength: int)
    requires t.options != [] && headLength < 8 + 4 * |t.options| && maxLength < 13 + 4 * |t.options|
    requires |t.head| == 8 && forall i | 0 <= i < |t.options| :: |t.options[i]| == 8
    ensures Assemble(mask, cls, sep, t, qtype, maxLength, headLength, false) == Err(OverBudget)
  {
    hide Flat, Total, MarkersFrom, AnyCut, AnyLong, Lengths;
    var n := |t.options|;
    var marked := Marked(mask, t.options);
    TotalOfEqual(marked, 9);
    FloorBelow(headLength - 16, n, 4);
    assert PerOption(headLength, n) == 4;
    var blocks := Shortened(marked, 4);
    TotalOfEqual(blocks, 4);
    assert Blocks(mask, t.options, headLength) == blocks;
    FlatLength(blocks);
  }

  lemma FloorBelow(a: int, n: nat, k: int)
    requires n > 0 && a < k * n
    ensures a / n < k
  {
    FloorTimes(a, n);
    TimesMonotone(k, a / n, n);
  }

  lemma TimesMonotone(a: int, b: int, n: nat)
    ensures a <= b ==> a * n <= b * n
  {
  }

  ghost predicate NeverOverBudget(n: nat, maxLength: int, headLength: int) {
    forall tok: Tokenizer, row: Row | Valid(row) && |row.options| == n ::
      Sequence(tok, row, maxLength, headLength, false) != Err(OverBudget)
  }

  /** For rows with `n` options the budget error is out of reach exactly when the entry check refuses the lengths
      anyway, the head length covers eight head tokens and four tokens per option, or the sequence length does,
      with the five ids around them. */
  lemma BudgetIsEnough(n: nat, maxLength: int, headLength: int)
    requires 2 <= n <= 20
    ensures NeverOverBudget(n, maxLength, headLength)
      <==> headLength + 4 >= maxLength || headLength >= 8 + 4 * n || maxLength >= 13 + 4 * n
  {
    hide Assemble, Tokenize, Sequence;
    if headLength + 4 >= maxLength || headLength >= 8 + 4 * n || maxLength >= 13 + 4 * n {
      forall tok: Tokenizer, row: Row | Valid(row) && |row.options| == n
        ensures Sequence(tok, row, maxLength, headLength, false) != Err(OverBudget)
      {
        NotOverBudget(tok, row, maxLength, headLength, false);
      }
    } else {
      BudgetRunsOut(n, maxLength, headLength);
    }
  }

  /** Over all sequence lengths, exactly when the head length suffices. */
  lemma BudgetForAnyLength(n: nat, headLength: int)
    requires 2 <= n <= 20
    ensures (forall maxLength: int :: NeverOverBudget(n, maxLength, headLength)) <==> headLength >= 8 + 4 * n
  {
    hide NeverOverBudget;
    forall maxLength: int
      ensures NeverOverBudget(n, maxLength, headLength)
        <==> headLength + 4 >= maxLength || headLength >= 8 + 4 * n || maxLength >= 13 + 4 * n
    {
      BudgetIsEnough(n, maxLength, headLength);
    }
    assert headLength < 8 + 4 * n ==> !NeverOverBudget(n, headLength + 5, headLength);
  }

  lemma NotOverBudget(tok: Tokenizer, row: Row, maxLength: int, headLength: int, strict: bool)
    requires Valid(row)
    requires strict || headLength + 4 >= maxLength || headLength >= 8 + 4 * |row.options|
             || maxLength >= 13 + 4 * |row.options|
    ensures Sequence(tok, row, maxLength, headLength, strict) != Err(OverBudget)
  {
    hide Assemble, AnyReserved;
    if Refusal(tok, row, maxLength, headLength, strict).None? {
      HeadFits(tok.maskId.value, tok.clsId.value, tok.sepId.value, Tokenize(tok.encode, row, tok.maskToken.value),
               QType(row.kind), maxLength, headLength, strict);
    }
  }

  lemma BudgetRunsOut(n: nat, maxLength: int, headLength: int)
    requires 2 <= n <= 20 && headLength + 4 < maxLength < 13 + 4 * n && headLength < 8 + 4 * n
    ensures Valid(Plain(n)) && Sequence(Wordy(), Plain(n), maxLength, headLength, false) == Err(OverBudget)
  {
    hide Assemble, Clean;
    HeadOverflows(4, 1, 2, Tokenize(Wordy().encode, Plain(n), "[MASK]"), QType(Plain(n).kind), maxLength, headLength);
  }

  /** A strict call never runs over the sequence budget, whatever the head length. */
  lemma StrictIsWithinBudget(tok: Tokenizer, row: Row, maxLength: int, headLength: int)
    requires Valid(row)
    ensures Sequence(tok, row, maxLength, headLength, true) != Err(OverBudget)
  {
    hide Sequence;
    NotOverBudget(tok, row, maxLength, headLength, true);
  }

  // ----- the shape of every successful encoding

  /** A block is the mask token and the option's first tokens: at least three of them when there are three, at
      most 48. */
  lemma BlockShape(mask: int, optionIds: seq<seq<int>>, headLength: int, i: nat)
    requires i < |optionIds|
    ensures var b := Blocks(mask, optionIds, headLength)[i];
      && b != [] && b[0] == mask && b[1..] <= optionIds[i] && |b| <= 49
      && (|b| >= 4 || |b| == |optionIds[i]| + 1)
  {
    hide Total;
    var b := Blocks(mask, optionIds, headLength)[i];
    var tokens := Take(optionIds[i], 48);
    assert b <= [mask] + tokens;
    assert ([mask] + tokens)[1..] == tokens;
    assert b[1..] == tokens[..|b| - 1];
  }

  /** At the marker: the mask token and the option's first `k` tokens. */
  predicate OptionAt(ids: seq<int>, at: nat, mask: int, option: seq<int>, k: nat) {
    && k <= |option| && k <= 48 && (k >= 3 || k == |option|)
    && BlockAt(ids, at, [mask] + option[..k])
  }

  /** Class token, a prefix of the head that is whole or has eight tokens, separator. */
  predicate HeadAt(ids: seq<int>, first: nat, head: seq<int>, cls: int, sep: int) {
    && 2 <= first <= |ids| && ids[0] == cls && ids[first - 1] == sep
    && ids[1..first - 1] <= head && (first - 2 >= 8 || first - 2 == |head|)
  }

  /** Separator, a prefix of the state, separator, and nothing else. */
  predicate StateAt(ids: seq<int>, at: nat, state: seq<int>, sep: int, truncated: bool) {
    && at < |ids| - 1 && ids[at] == sep && ids[|ids| - 1] == sep
    && ids[at + 1..|ids| - 1] <= state && (truncated <==> |ids| - at - 2 < |state|)
  }

  /** Block `i`, of the marker and `k` tokens, ends where the next one starts, the last one at `tail`. */
  predicate EndsAt(markers: seq<nat>, i: nat, k: nat, tail: nat) {
    i < |markers| && markers[i] + 1 + k == if i + 1 < |markers| then markers[i + 1] else tail
  }

  /** The whole of `ids`: head, one block per option and marker, state, with nothing between them. */
  ghost predicate WellFormed(e: Encoded, t: Tokens, mask: int, cls: int, sep: int, kept: seq<nat>,
                              tail: nat) {
    && |e.markers| == |kept| == |t.options| && e.markers != []
    && HeadAt(e.ids, e.markers[0], t.head, cls, sep)
    && (forall i | 0 <= i < |kept| :: OptionAt(e.ids, e.markers[i], mask, t.options[i], kept[i]))
    && (forall i | 0 <= i < |kept| :: EndsAt(e.markers, i, kept[i], tail))
    && StateAt(e.ids, tail, t.state, sep, e.truncated)
  }

  /** A successful call, put together from its parts. */
  lemma AssembleParts(mask: int, cls: int, sep: int, t: Tokens, qtype: int, maxLength: int, headLength: int,
                      strict: bool, e: Encoded)
    requires t.options != []
    requires Assemble(mask, cls, sep, t, qtype, maxLength, headLength, strict) == Ok(e)
    ensures var blocks := Blocks(mask, t.options, headLength);
      var front := HeadPart(cls, t.head, headLength - Total(blocks), sep);
      var room := maxLength - |front| - Total(blocks) - 2;
      && room >= 1
      && e.ids == front + Flat(blocks) + [sep] + Take(t.state, room) + [sep]
      && |front + Flat(blocks)| == |front| + Total(blocks)
      && e.markers == MarkersFrom(|front|, blocks)
      && (e.truncated <==> |t.state| > room)
  {
    hide Flat, Total, MarkersFrom, Blocks, AnyCut, AnyLong, Lengths;
    var blocks := Blocks(mask, t.options, headLength);
    FlatLength(blocks);
    var front := HeadPart(cls, t.head, headLength - Total(blocks), sep);
    var ids := front + Flat(blocks) + [sep];
    assert forall state: seq<int> :: ids + state + [sep] == front + Flat(blocks) + [sep] + state + [sep];
  }

  /** In every successful call at most `maxLength` ids, exactly that many when truncated. */
  lemma AssembleLength(mask: int, cls: int, sep: int, t: Tokens, qtype: int, maxLength: int, headLength: int,
                       strict: bool, e: Encoded)
    requires t.options != []
    requires Assemble(mask, cls, sep, t, qtype, maxLength, headLength, strict) == Ok(e)
    ensures |e.ids| <= maxLength && (e.truncated ==> |e.ids| == maxLength)
    ensures e.qtype == qtype
  {
    AssembleParts(mask, cls, sep, t, qtype, maxLength, headLength, strict, e);
    hide Flat, Total, MarkersFrom, Blocks, AnyCut, AnyLong, Lengths;
  }

  lemma BlockPlaced(front: seq<int>, blocks: seq<seq<int>>, rest: seq<int>, i: nat)
    requires i < |blocks|
    ensures |MarkersFrom(|front|, blocks)| == |blocks|
    ensures BlockAt(front + Flat(blocks) + rest, MarkersFrom(|front|, blocks)[i], blocks[i])
    ensures MarkersFrom(|front|, blocks)[i] + |blocks[i]|
            == if i + 1 < |blocks| then MarkersFrom(|front|, blocks)[i + 1] else |front| + Total(blocks)
    ensures i == 0 ==> MarkersFrom(|front|, blocks)[i] == |front|
  {
    hide BlockAt, Flat, Total;
    MarkersPoint(front, blocks, i);
    BlockBefore(front + Flat(blocks), rest, MarkersFrom(|front|, blocks)[i], blocks[i]);
  }

  lemma OptionPlaced(mask: int, optionIds: seq<seq<int>>, headLength: int, front: seq<int>, rest: seq<int>, i: nat)
    requires i < |optionIds|
    ensures var blocks := Blocks(mask, optionIds, headLength);
      var markers := MarkersFrom(|front|, blocks);
      && |markers| == |optionIds| && blocks[i] != [] && markers[0] == |front|
      && OptionAt(front + Flat(blocks) + rest, markers[i], mask, optionIds[i], |blocks[i]| - 1)
      && EndsAt(markers, i, |blocks[i]| - 1, |front| + Total(blocks))
  {
    hide Flat, Total, MarkersFrom, Blocks, BlockAt;
    var blocks := Blocks(mask, optionIds, headLength);
    BlockShape(mask, optionIds, headLength, i);
    BlockPlaced(front, blocks, rest, i);
    BlockPlaced(front, blocks, rest, 0);
    assert blocks[i] == [mask] + optionIds[i][..|blocks[i]| - 1];
  }

  function Kept(blocks: seq<seq<int>>): seq<nat>
    requires forall i | 0 <= i < |blocks| :: blocks[i] != []
  {
    seq(|blocks|, i requires 0 <= i < |blocks| => |blocks[i]| - 1)
  }

  lemma AssembleShape(mask: int, cls: int, sep: int, t: Tokens, qtype: int, maxLength: int, headLength: int,
                      strict: bool, e: Encoded) returns (kept: seq<nat>, tail: nat)
    requires t.options != []
    requires Assemble(mask, cls, sep, t, qtype, maxLength, headLength, strict) == Ok(e)
    ensures WellFormed(e, t, mask, cls, sep, kept, tail)
    ensures var blocks := Blocks(mask, t.options, headLength);
      && (forall i | 0 <= i < |kept| :: kept[i] == |blocks[i]| - 1)
      && e.markers[0] == |HeadPart(cls, t.head, headLength - Total(blocks), sep)|
  {
    hide Flat, Total, MarkersFrom, Blocks, Assemble, OptionAt, HeadPart, HeadAt, StateAt, EndsAt;
    var blocks := Blocks(mask, t.options, headLength);
    var n, total := |blocks|, Total(blocks);
    var front := HeadPart(cls, t.head, headLength - total, sep);
    AssembleParts(mask, cls, sep, t, qtype, maxLength, headLength, strict, e);
    var state := Take(t.state, maxLength - |front| - total - 2);
    var rest := [sep] + state + [sep];
    assert e.ids == front + Flat(blocks) + rest;
    forall i | 0 <= i < n ensures blocks[i] != [] { BlockShape(mask, t.options, headLength, i); }
    kept := Kept(blocks);
    forall i | 0 <= i < |kept|
      ensures |e.markers| == n && e.markers[0] == |front|
      ensures OptionAt(e.ids, e.markers[i], mask, t.options[i], kept[i])
      ensures EndsAt(e.markers, i, kept[i], |front| + total)
    {
      OptionPlaced(mask, t.options, headLength, front, rest, i);
    }
    tail := |front| + total;
    assert kept[0] >= 0;
    assert e.ids == front + (Flat(blocks) + rest);
    ShapeOfHead(cls, sep, t.head, headLength - total, Flat(blocks) + rest, e.ids);
    ShapeOfState(sep, front + Flat(blocks), state, t.state, e.ids, e.truncated);
  }

  lemma ShapeOfHead(cls: int, sep: int, head: seq<int>, budget: int, rest: seq<int>, ids: seq<int>)
    requires ids == HeadPart(cls, head, budget, sep) + rest
    ensures HeadAt(ids, |HeadPart(cls, head, budget, sep)|, head, cls, sep)
  {
    var kept, front := Take(head, Max(8, budget)), HeadPart(cls, head, budget, sep);
    assert front == [cls] + kept + [sep] && |front| == |kept| + 2;
    assert ids[..|front|] == front;
    assert ids[1..|front| - 1] == front[1..|front| - 1] == kept;
  }

  lemma ShapeOfState(sep: int, before: seq<int>, state: seq<int>, whole: seq<int>, ids: seq<int>, truncated: bool)
    requires state <= whole && (truncated <==> |state| < |whole|)
    requires ids == before + ([sep] + state + [sep])
    ensures StateAt(ids, |before|, whole, sep, truncated)
  {
    var after := [sep] + state + [sep];
    assert ids[|before|..] == after;
    assert ids[|before| + 1..|ids| - 1] == after[1..|after| - 1] == state;
  }

  lemma {:induction false} MarkersIncrease(markers: seq<nat>, kept: seq<nat>, tail: nat, i: nat, j: nat)
    requires |markers| == |kept| && i < j < |markers|
    requires forall k | 0 <= k < |kept| :: EndsAt(markers, k, kept[k], tail)
    ensures markers[i] + 1 + kept[i] <= markers[j]
    decreases j
  {
    assert EndsAt(markers, j - 1, kept[j - 1], tail);
    if i < j - 1 { MarkersIncrease(markers, kept, tail, i, j - 1); }
  }

  // ----- strict calls lose nothing

  function Slice<T>(s: seq<T>, from: int, to: int): seq<T> {
    if 0 <= from <= to <= |s| then s[from..to] else []
  }

  function ReadOptions(ids: seq<int>, markers: seq<nat>, lengths: seq<nat>): (r: seq<seq<int>>)
    requires |markers| == |lengths|
    ensures |r| == |markers|
  {
    seq(|markers|, i requires 0 <= i < |markers| => Slice(ids, markers[i] + 1, markers[i] + 1 + lengths[i]))
  }

  /** The tokens of a row, read back from its encoding. */
  function Decode(e: Encoded): Tokens
    requires e.optionTokens.Some? && |e.markers| == |e.optionTokens.value| && e.markers != []
  {
    var n, lengths := |e.markers|, e.optionTokens.value;
    Tokens(Slice(e.ids, 1, e.markers[0] as int - 1),
           ReadOptions(e.ids, e.markers, lengths),
           Slice(e.ids, e.markers[n - 1] + lengths[n - 1] + 2, |e.ids| - 1))
  }

  lemma OptionReads(ids: seq<int>, at: nat, mask: int, option: seq<int>)
    requires OptionAt(ids, at, mask, option, |option|)
    ensures Slice(ids, at + 1, at + 1 + |option|) == option
  {
    var block := [mask] + option[..|option|];
    assert ids[at..at + |block|][1..] == option;
  }

  lemma HeadReads(ids: seq<int>, first: nat, head: seq<int>, cls: int, sep: int)
    requires HeadAt(ids, first, head, cls, sep) && first == |head| + 2
    ensures Slice(ids, 1, first - 1) == head
  {
  }

  lemma StateReads(ids: seq<int>, at: nat, state: seq<int>, sep: int)
    requires StateAt(ids, at, state, sep, false)
    ensures Slice(ids, at + 1, |ids| - 1) == state
  {
  }

  lemma WholeDecodes(e: Encoded, t: Tokens, mask: int, cls: int, sep: int, kept: seq<nat>, tail: nat)
    requires WellFormed(e, t, mask, cls, sep, kept, tail)
    requires e.markers[0] == |t.head| + 2 && !e.truncated
    requires forall i | 0 <= i < |kept| :: kept[i] == |t.options[i]|
    requires e.optionTokens == Some(kept)
    ensures Decode(e) == t
  {
    hide OptionAt, HeadAt, StateAt, Slice, ReadOptions;
    HeadReads(e.ids, e.markers[0], t.head, cls, sep);
    StateReads(e.ids, tail, t.state, sep);
    assert EndsAt(e.markers, |kept| - 1, kept[|kept| - 1], tail);
    OptionsRead(e.ids, e.markers, mask, t.options, kept);
  }

  lemma OptionsRead(ids: seq<int>, markers: seq<nat>, mask: int, options: seq<seq<int>>, kept: seq<nat>)
    requires |markers| == |kept| == |options|
    requires forall i | 0 <= i < |kept| :: OptionAt(ids, markers[i], mask, options[i], kept[i])
    requires forall i | 0 <= i < |kept| :: kept[i] == |options[i]|
    ensures ReadOptions(ids, markers, kept) == options
  {
    hide OptionAt, Slice;
    forall i | 0 <= i < |kept| ensures ReadOptions(ids, markers, kept)[i] == options[i] {
      assert OptionAt(ids, markers[i], mask, options[i], kept[i]);
      OptionReads(ids, markers[i], mask, options[i]);
    }
  }

  lemma StrictKeeps(mask: int, cls: int, sep: int, t: Tokens, qtype: int, maxLength: int, headLength: int, e: Encoded)
    requires t.options != []
    requires Assemble(mask, cls, sep, t, qtype, maxLength, headLength, true) == Ok(e)
    ensures var blocks := Blocks(mask, t.options, headLength);
      && (forall i | 0 <= i < |blocks| :: |blocks[i]| == |t.options[i]| + 1)
      && |HeadPart(cls, t.head, headLength - Total(blocks), sep)| == |t.head| + 2
    ensures !e.truncated && e.optionTokens == Some(Lengths(t.options))
    ensures Assemble(mask, cls, sep, t, qtype, maxLength, headLength, false) == Ok(e.(optionTokens := None))
  {
    hide Flat, Total, MarkersFrom, Blocks, Lengths;
  }

  lemma AssembleLossless(mask: int, cls: int, sep: int, t: Tokens, qtype: int, maxLength: int, headLength: int,
                         e: Encoded)
    requires t.options != []
    requires Assemble(mask, cls, sep, t, qtype, maxLength, headLength, true) == Ok(e)
    ensures e.optionTokens.Some? && |e.markers| == |e.optionTokens.value| && e.markers != [] && Decode(e) == t
  {
    hide Assemble, Blocks, Total, HeadPart, OptionAt, HeadAt, StateAt, EndsAt, Decode;
    StrictKeeps(mask, cls, sep, t, qtype, maxLength, headLength, e);
    var kept, tail := AssembleShape(mask, cls, sep, t, qtype, maxLength, headLength, true, e);
    assert kept == Lengths(t.options);
    WholeDecodes(e, t, mask, cls, sep, kept, tail);
  }

  lemma {:induction false} CleanKeeps(text: string, pattern: string)
    requires !Contains(text, pattern)
    ensures Clean(text, pattern) == text
  {
    if text == "" {
    } else {
      CleanKeeps(text[1..], pattern);
      assert [text[0]] + text[1..] == text;
    }
  }

  /** The tokens of the row's own texts. */
  function RawTokens(encode: string -> seq<int>, row: Row): Tokens {
    Tokens(encode(KindName(row.kind) + " question: " + row.question),
           seq(|row.options|, i requires 0 <= i < |row.options| => encode(" " + row.options[i])),
           encode(row.state))
  }

  lemma NothingToClean(encode: string -> seq<int>, row: Row, maskToken: string)
    requires !AnyReserved(row, maskToken)
    ensures Tokenize(encode, row, maskToken) == RawTokens(encode, row)
  {
    hide Contains, Clean, KindName;
    CleanKeeps(row.question, maskToken);
    CleanKeeps(row.state, maskToken);
    forall i | 0 <= i < |row.options| ensures Clean(row.options[i], maskToken) == row.options[i] {
      CleanKeeps(row.options[i], maskToken);
    }
    assert Tokenize(encode, row, maskToken).options == RawTokens(encode, row).options;
  }

  /** A strict success is lossless: the decoder recovers the tokens of the question, of every option and of the
      state as the caller wrote them; and the ordinary call returns the same ids and markers, untruncated. */
  lemma StrictIsLossless(tok: Tokenizer, row: Row, maxLength: int, headLength: int)
    requires Valid(row)
    ensures var r := Sequence(tok, row, maxLength, headLength, true);
      r.Ok? ==>
        var e := r.value;
        && e.optionTokens.Some? && |e.markers| == |e.optionTokens.value| && e.markers != []
        && Decode(e) == RawTokens(tok.encode, row)
        && !e.truncated
        && Sequence(tok, row, maxLength, headLength, false) == Ok(e.(optionTokens := None))
  {
    hide Assemble, AnyReserved, Decode, Tokenize, RawTokens, Lengths, Blocks, Total, HeadPart;
    var r := Sequence(tok, row, maxLength, headLength, true);
    if r.Ok? {
      var mask, cls, sep := tok.maskId.value, tok.clsId.value, tok.sepId.value;
      var t := Tokenize(tok.encode, row, tok.maskToken.value);
      NothingToClean(tok.encode, row, tok.maskToken.value);
      StrictKeeps(mask, cls, sep, t, QType(row.kind), maxLength, headLength, r.value);
      AssembleLossless(mask, cls, sep, t, QType(row.kind), maxLength, headLength, r.value);
    }
  }

  /** What a strict call needs, checked on the token counts alone: no option beyond 48 tokens, question and marked
      options within the head length, and either sixteen tokens of it to spare or no option that its equal share of
      the head length less sixteen, at least four with the mark, would cut. */
  predicate Fits(t: Tokens, maxLength: int, headLength: int) {
    var n, spent := |t.options|, Total(t.options) + |t.options|;
    && (forall i | 0 <= i < n :: |t.options[i]| <= 48)
    && |t.head| + spent <= headLength
    && (spent + 16 <= headLength
        || forall i | 0 <= i < n :: |t.options[i]| < 4 || (|t.options[i]| + 1) * n + 16 <= headLength)
    && |t.head| + spent + |t.state| + 4 <= maxLength
  }

  /** A whole number below the floor of a quotient. */
  lemma BelowFloor(a: int, n: nat, k: int)
    requires n > 0
    ensures k <= a / n <==> k * n <= a
  {
    FloorTimes(a, n);
    TimesMonotone(k, a / n, n);
    TimesMonotone(a / n + 1, k, n);
    assert (a / n + 1) * n == (a / n) * n + n;
  }

  lemma ShareCuts(headLength: int, n: nat, tokens: nat)
    requires n > 0
    ensures tokens < PerOption(headLength, n) <==> tokens < 4 || (tokens + 1) * n + 16 <= headLength
  {
    BelowFloor(headLength - 16, n, tokens + 1);
  }

  lemma {:induction false} TotalUncut(blocks: seq<seq<int>>, optionIds: seq<seq<int>>)
    requires |blocks| == |optionIds| && forall i | 0 <= i < |blocks| :: |blocks[i]| == |optionIds[i]| + 1
    ensures Total(blocks) == Total(optionIds) + |optionIds|
  {
    if blocks != [] { TotalUncut(blocks[1..], optionIds[1..]); }
  }

  lemma UncutBlocks(mask: int, optionIds: seq<seq<int>>, headLength: int)
    requires optionIds != [] && !AnyLong(optionIds)
    ensures var spent := Total(optionIds) + |optionIds|;
      !AnyCut(Blocks(mask, optionIds, headLength), optionIds)
      <==> spent + 16 <= headLength
           || forall i | 0 <= i < |optionIds| ::
                |optionIds[i]| < 4 || (|optionIds[i]| + 1) * |optionIds| + 16 <= headLength
  {
    hide Total, PerOption;
    forall i | 0 <= i < |optionIds|
      ensures |optionIds[i]| < PerOption(headLength, |optionIds|)
        <==> |optionIds[i]| < 4 || (|optionIds[i]| + 1) * |optionIds| + 16 <= headLength
    {
      ShareCuts(headLength, |optionIds|, |optionIds[i]|);
    }
    var marked, per := Marked(mask, optionIds), PerOption(headLength, |optionIds|);
    assert forall i | 0 <= i < |marked| :: |marked[i]| == |optionIds[i]| + 1;
    TotalUncut(marked, optionIds);
    var short := Shortened(marked, per);
    forall i | 0 <= i < |short|
      ensures |short[i]| == |optionIds[i]| + 1 <==> |optionIds[i]| < per
    {
      assert |short[i]| == |Take(marked[i], per)|;
    }
  }

  lemma NoneLong(optionIds: seq<seq<int>>)
    ensures !AnyLong(optionIds) <==> forall i | 0 <= i < |optionIds| :: |optionIds[i]| <= 48
  {
  }

  lemma AssembleStrict(mask: int, cls: int, sep: int, t: Tokens, qtype: int, maxLength: int, headLength: int)
    requires t.options != [] && headLength + 4 < maxLength
    ensures Assemble(mask, cls, sep, t, qtype, maxLength, headLength, true).Ok? <==> Fits(t, maxLength, headLength)
  {
    hide Flat, Total, MarkersFrom, Blocks, AnyLong, Lengths, PerOption;
    assert !AnyLong(t.options) <==> forall i | 0 <= i < |t.options| :: |t.options[i]| <= 48 by { NoneLong(t.options); }
    if !AnyLong(t.options) {
      var blocks := Blocks(mask, t.options, headLength);
      UncutBlocks(mask, t.options, headLength);
      if !AnyCut(blocks, t.options) {
        TotalUncut(blocks, t.options);
        FlatLength(blocks);
      }
    }
  }

  /** Exactly the rows a strict call accepts. */
  lemma StrictAccepts(tok: Tokenizer, row: Row, maxLength: int, headLength: int)
    requires Valid(row)
    ensures Sequence(tok, row, maxLength, headLength, true).Ok?
      <==> Refusal(tok, row, maxLength, headLength, true).None?
           && Fits(RawTokens(tok.encode, row), maxLength, headLength)
  {
    hide Assemble, AnyReserved, Tokenize, Fits;
    if Refusal(tok, row, maxLength, headLength, true).None? {
      NothingToClean(tok.encode, row, tok.maskToken.value);
      AssembleStrict(tok.maskId.value, tok.clsId.value, tok.sepId.value,
                     Tokenize(tok.encode, row, tok.maskToken.value), QType(row.kind), maxLength, headLength);
    }
  }

  // ----- how much is kept

  function Lesser(a: int, b: int): int { if a < b then a else b }

  /** The mark and at most 48 of the option's tokens. */
  function Whole(option: seq<int>): nat {
    1 + Lesser(48, |option|)
  }

  function WholeTotal(options: seq<seq<int>>): nat {
    if options == [] then 0 else Whole(options[0]) + WholeTotal(options[1..])
  }

  function Sum(kept: seq<nat>): nat {
    if kept == [] then 0 else kept[0] + Sum(kept[1..])
  }

  /** An equal share of the head length less sixteen, at least four. */
  predicate IsShare(cap: nat, n: nat, headLength: int) {
    cap >= 4 && (cap == 4 || n * cap + 16 <= headLength) && headLength < n * (cap + 1) + 16
  }

  /** Every option whole when that leaves sixteen tokens of the head length, otherwise cut to its share. */
  predicate KeptRight(kept: seq<nat>, options: seq<seq<int>>, headLength: int, cap: nat) {
    && |kept| == |options|
    && if WholeTotal(options) + 16 <= headLength
       then forall i | 0 <= i < |kept| :: kept[i] + 1 == Whole(options[i])
       else IsShare(cap, |options|, headLength)
            && forall i | 0 <= i < |kept| :: kept[i] + 1 == Lesser(Whole(options[i]), cap)
  }

  lemma {:induction false} MarkedTotal(mask: int, optionIds: seq<seq<int>>)
    ensures Total(Marked(mask, optionIds)) == WholeTotal(optionIds)
  {
    if optionIds != [] {
      assert Marked(mask, optionIds)[1..] == Marked(mask, optionIds[1..]);
      MarkedTotal(mask, optionIds[1..]);
    }
  }

  lemma ShareIs(headLength: int, n: nat)
    requires n > 0
    ensures IsShare(PerOption(headLength, n), n, headLength)
  {
    var cap := PerOption(headLength, n);
    BelowFloor(headLength - 16, n, cap);
    BelowFloor(headLength - 16, n, cap + 1);
    assert n * cap == cap * n && n * (cap + 1) == (cap + 1) * n;
  }

  lemma BlocksKept(mask: int, optionIds: seq<seq<int>>, headLength: int, kept: seq<nat>) returns (cap: nat)
    requires optionIds != [] && |kept| == |optionIds|
    requires forall i | 0 <= i < |kept| :: kept[i] + 1 == |Blocks(mask, optionIds, headLength)[i]|
    ensures KeptRight(kept, optionIds, headLength, cap)
  {
    hide Total, WholeTotal, PerOption, IsShare;
    MarkedTotal(mask, optionIds);
    ShareIs(headLength, |optionIds|);
    cap := PerOption(headLength, |optionIds|);
    var marked := Marked(mask, optionIds);
    assert forall i | 0 <= i < |marked| :: |marked[i]| == Whole(optionIds[i]);
    var short := Shortened(marked, cap);
    assert forall i | 0 <= i < |short| :: |short[i]| == Lesser(|marked[i]|, cap);
  }

  lemma {:induction false} TotalKept(blocks: seq<seq<int>>, kept: seq<nat>)
    requires |kept| == |blocks| && forall i | 0 <= i < |kept| :: kept[i] + 1 == |blocks[i]|
    ensures Total(blocks) == Sum(kept) + |kept|
  {
    if blocks != [] { TotalKept(blocks[1..], kept[1..]); }
  }

  /** Every successful call, strict or not: the whole of `ids` is accounted for, at most `maxLength` of them and
      exactly that many when truncated; one marker per option, strictly increasing, each at a mask token
      followed by a prefix of that option's tokens. Options and question keep exactly what the head length
      leaves them: every option whole, or cut to its equal share, and of the question what the options leave, but
      eight tokens. */
  lemma SequenceShape(tok: Tokenizer, row: Row, maxLength: int, headLength: int, strict: bool)
    returns (kept: seq<nat>, tail: nat, cap: nat)
    requires Valid(row) && Sequence(tok, row, maxLength, headLength, strict).Ok?
    ensures var e := Sequence(tok, row, maxLength, headLength, strict).value;
      && tok.maskId.Some? && tok.clsId.Some? && tok.sepId.Some? && tok.maskToken.Some?
      && var t := Tokenize(tok.encode, row, tok.maskToken.value);
      && WellFormed(e, t, tok.maskId.value, tok.clsId.value, tok.sepId.value, kept, tail)
      && KeptRight(kept, t.options, headLength, cap)
      && e.markers[0] == 2 + Lesser(|t.head|, Max(8, headLength - (Sum(kept) + |kept|)))
      && |e.ids| <= maxLength && (e.truncated ==> |e.ids| == maxLength)
      && |e.markers| == |row.options|
      && (forall i, j | 0 <= i < j < |e.markers| :: e.markers[i] < e.markers[j])
      && (forall i | 0 <= i < |e.markers| :: e.markers[i] < |e.ids| && e.ids[e.markers[i]] == tok.maskId.value)
      && e.qtype == QType(row.kind)
  {
    hide Assemble, AnyReserved, Tokenize, HeadAt, StateAt, EndsAt, Blocks, Total, HeadPart, KeptRight, Sum;
    var mask, cls, sep := tok.maskId.value, tok.clsId.value, tok.sepId.value;
    var t := Tokenize(tok.encode, row, tok.maskToken.value);
    var e := Sequence(tok, row, maxLength, headLength, strict).value;
    kept, tail := AssembleShape(mask, cls, sep, t, QType(row.kind), maxLength, headLength, strict, e);
    cap := BlocksKept(mask, t.options, headLength, kept);
    TotalKept(Blocks(mask, t.options, headLength), kept);
    HeadLength(cls, t.head, headLength - (Sum(kept) + |kept|), sep);
    AssembleLength(mask, cls, sep, t, QType(row.kind), maxLength, headLength, strict, e);
    forall i, j | 0 <= i < j < |e.markers| ensures e.markers[i] < e.markers[j] {
      MarkersIncrease(e.markers, kept, tail, i, j);
    }
    forall i | 0 <= i < |e.markers| ensures e.markers[i] < |e.ids| && e.ids[e.markers[i]] == mask {
      assert OptionAt(e.ids, e.markers[i], mask, t.options[i], kept[i]);
      MaskAtMarker(e.ids, e.markers[i], mask, t.options[i], kept[i]);
    }
  }

  lemma HeadLength(cls: int, head: seq<int>, budget: int, sep: int)
    ensures |HeadPart(cls, head, budget, sep)| == 2 + Lesser(|head|, Max(8, budget))
  {
  }

  lemma MaskAtMarker(ids: seq<int>, at: nat, mask: int, option: seq<int>, k: nat)
    requires OptionAt(ids, at, mask, option, k)
    ensures at < |ids| && ids[at] == mask
  {
    assert ids[at..at + 1 + k][0] == mask;
  }

  // ----- cleaning

  /** The pieces of a text with a separator between them. */
  function Between(pieces: seq<string>, separator: string): string
    requires pieces != []
  {
    if |pieces| == 1 then pieces[0] else pieces[0] + (separator + Between(pieces[1..], separator))
  }

  predicate OccursAt(text: string, pattern: string, k: nat) {
    k + |pattern| <= |text| && text[k..k + |pattern|] == pattern
  }

  predicate NoneBefore(text: string, pattern: string, n: nat) {
    forall k | 0 <= k < n :: !OccursAt(text, pattern, k)
  }

  /** The pieces a left-to-right search for the pattern leaves: it occurs in none of them, nor across the end of
      one and the occurrence behind it. */
  predicate Leftmost(pieces: seq<string>, pattern: string) {
    && pieces != []
    && (forall i | 0 <= i < |pieces| - 1 :: NoneBefore(pieces[i] + pattern, pattern, |pieces[i]|))
    && NoneBefore(pieces[|pieces| - 1], pattern, |pieces[|pieces| - 1]| + 1)
  }

  lemma OccursLater(text: string, pattern: string, k: nat)
    requires text != ""
    ensures OccursAt(text, pattern, k + 1) <==> OccursAt(text[1..], pattern, k)
  {
    if k + 1 + |pattern| <= |text| {
      assert text[k + 1..k + 1 + |pattern|] == text[1..][k..k + |pattern|];
    }
  }

  lemma NoneInTail(text: string, pattern: string, n: nat)
    requires text != "" && NoneBefore(text, pattern, n + 1)
    ensures NoneBefore(text[1..], pattern, n)
  {
    forall k | 0 <= k < n ensures !OccursAt(text[1..], pattern, k) { OccursLater(text, pattern, k); }
  }

  lemma NotAtFront(a: string, b: string, pattern: string)
    requires |pattern| <= |a| && !OccursAt(a, pattern, 0)
    ensures !(pattern <= a + b)
  {
    assert (a + b)[..|pattern|] == a[..|pattern|];
  }

  lemma {:induction false} CleanPiece(piece: string, pattern: string, rest: string)
    requires pattern != "" && NoneBefore(piece + pattern, pattern, |piece|)
    ensures Clean(piece + (pattern + rest), pattern) == piece + (" " + Clean(rest, pattern))
    decreases |piece|
  {
    var text := piece + (pattern + rest);
    if piece == "" {
      assert text == pattern + rest && text[|pattern|..] == rest;
    } else {
      hide NoneBefore, OccursAt;
      var tail := piece[1..];
      assert (piece + pattern)[1..] == tail + pattern;
      NoneInTail(piece + pattern, pattern, |tail|);
      CleanPiece(tail, pattern, rest);
      assert !OccursAt(piece + pattern, pattern, 0) by { NoneFirst(piece + pattern, pattern, |piece|); }
      NotAtFront(piece + pattern, rest, pattern);
      CleanStep(piece, pattern, rest);
    }
  }

  lemma NoneFirst(text: string, pattern: string, n: nat)
    requires n > 0 && NoneBefore(text, pattern, n)
    ensures !OccursAt(text, pattern, 0)
  {
  }

  lemma CleanFirst(text: string, pattern: string)
    requires pattern != "" && text != "" && !(pattern <= text)
    ensures Clean(text, pattern) == [text[0]] + Clean(text[1..], pattern)
  {
  }

  lemma CleanStep(piece: string, pattern: string, rest: string)
    requires pattern != "" && piece != "" && !(pattern <= piece + pattern + rest)
    requires Clean(piece[1..] + (pattern + rest), pattern) == piece[1..] + (" " + Clean(rest, pattern))
    ensures Clean(piece + (pattern + rest), pattern) == piece + (" " + Clean(rest, pattern))
  {
    hide Clean;
    var text, tail, cleaned := piece + (pattern + rest), piece[1..], " " + Clean(rest, pattern);
    assert text == piece + pattern + rest;
    assert text[1..] == tail + (pattern + rest) && text[0] == piece[0];
    CleanFirst(text, pattern);
    assert [piece[0]] + (tail + cleaned) == ([piece[0]] + tail) + cleaned;
    assert [piece[0]] + tail == piece;
  }

  lemma {:induction false} CleanLast(piece: string, pattern: string)
    requires pattern != "" && NoneBefore(piece, pattern, |piece| + 1)
    ensures Clean(piece, pattern) == piece
  {
    if piece != "" {
      hide NoneBefore;
      var tail := piece[1..];
      NoneInTail(piece, pattern, |tail| + 1);
      CleanLast(tail, pattern);
      NoneFirst(piece, pattern, |piece| + 1);
      assert [piece[0]] + tail == piece;
    }
  }

  /** Every mask token of a text, found from the left, becomes one space, and nothing else changes. */
  lemma {:induction false} CleanReplaces(pieces: seq<string>, pattern: string)
    requires pattern != "" && Leftmost(pieces, pattern)
    ensures Clean(Between(pieces, pattern), pattern) == Between(pieces, " ")
  {
    if |pieces| == 1 {
      CleanLast(pieces[0], pattern);
    } else {
      hide NoneBefore, Clean;
      var rest := pieces[1..];
      assert rest[|rest| - 1] == pieces[|pieces| - 1];
      assert forall i | 0 <= i < |rest| :: rest[i] == pieces[i + 1];
      CleanReplaces(rest, pattern);
      CleanPiece(pieces[0], pattern, Between(rest, pattern));
    }
  }

  /** An empty mask token puts a space around every character. */
  lemma {:induction false} CleanSpreads(text: string)
    ensures |Clean(text, "")| == 2 * |text| + 1
    ensures forall k | 0 <= k < |Clean(text, "")| ::
      Clean(text, "")[k] == if k % 2 == 0 then ' ' else text[k / 2]
  {
    if text != "" {
      var rest := Clean(text[1..], "");
      CleanSpreads(text[1..]);
      assert Clean(text, "") == " " + [text[0]] + rest;
      forall k | 0 <= k < |Clean(text, "")| ensures Clean(text, "")[k] == if k % 2 == 0 then ' ' else text[k / 2] {
        if k >= 2 { assert Clean(text, "")[k] == rest[k - 2]; }
      }
    }
  }
}
