/** The padding collator of scripts/julia_encoding_contract.py: `collate` lays encoded rows out as equally long
    lists of ids, attention, marker positions and marker masks, with labels and teacher logits when asked for. */
module Collation {
  import opened RequestEncoding
  import opened Wrappers

  /** A row that carries its encoding, or one to encode. */
  datatype Item = Ready(encoded: Encoded) | Raw(row: Row)

  /** The value of a row's `teacher_logits` key, which may be absent or null. */
  datatype Teacher = NoTeacher | NullTeacher | Logits(values: seq<real>)

  /** A row with what training adds to it. */
  datatype Labelled = Labelled(item: Item, target: Option<int>, teacher: Teacher)

  datatype Refused = NoRows | NotEncoded(fault: Fault) | TeacherIsNull

  datatype Batch = Batch(inputIds: seq<seq<int>>, attention: seq<seq<int>>, positions: seq<seq<nat>>,
                         markerMask: seq<seq<bool>>, qtype: seq<int>)

  datatype Collation = Collation(batch: Batch, labels: Option<seq<int>>, teacher: Option<seq<seq<real>>>)

  predicate Encodable(items: seq<Item>) {
    forall i | 0 <= i < |items| && items[i].Raw? :: Valid(items[i].row)
  }

  /** The encodings in order, or the first failure. */
  function Encodings(tok: Tokenizer, items: seq<Item>, maxLength: int, headLength: int)
    : (r: Result<seq<Encoded>, Fault>)
    requires Encodable(items)
    ensures r.Ok? ==> |r.value| == |items|
  {
    if items == [] then Ok([])
    else
      var before := Encodings(tok, items[..|items| - 1], maxLength, headLength);
      if before.Err? then before
      else
        match items[|items| - 1]
        case Ready(e) => Ok(before.value + [e])
        case Raw(row) =>
          match Sequence(tok, row, maxLength, headLength, false)
          case Ok(e) => Ok(before.value + [e])
          case Err(fault) => Err(fault)
  }

  function Longest(encoded: seq<Encoded>): (r: nat)
    ensures forall i | 0 <= i < |encoded| :: |encoded[i].ids| <= r
    ensures encoded != [] ==> exists i | 0 <= i < |encoded| :: |encoded[i].ids| == r
  {
    if encoded == [] then 0
    else
      var before, last := Longest(encoded[..|encoded| - 1]), |encoded[|encoded| - 1].ids|;
      assert encoded == encoded[..|encoded| - 1] + [encoded[|encoded| - 1]];
      if last > before then last else before
  }

  function MostMarkers(encoded: seq<Encoded>): (r: nat)
    ensures forall i | 0 <= i < |encoded| :: |encoded[i].markers| <= r
    ensures encoded != [] ==> exists i | 0 <= i < |encoded| :: |encoded[i].markers| == r
  {
    if encoded == [] then 0
    else
      var before, last := MostMarkers(encoded[..|encoded| - 1]), |encoded[|encoded| - 1].markers|;
      assert encoded == encoded[..|encoded| - 1] + [encoded[|encoded| - 1]];
      if last > before then last else before
  }

  /** `min(max_length, ((longest + 7) // 8) * 8)` */
  function RowLength(longest: nat, maxLength: int): int {
    var rounded := ((longest + 7) / 8) * 8;
    if maxLength < rounded then maxLength else rounded
  }

  /** `[x] * n`, empty for a negative `n` */
  function Fill<T>(x: T, n: int): (r: seq<T>)
    ensures |r| == if n < 0 then 0 else n
    ensures forall k | 0 <= k < |r| :: r[k] == x
  {
    if n < 0 then [] else seq(n, _ => x)
  }

  /** The list after `row[:len(values)] = values`, which grows a row that is too short. */
  function Overwrite<T>(row: seq<T>, values: seq<T>): seq<T> {
    if |values| <= |row| then values + row[|values|..] else values
  }

  function Padded<T>(values: seq<T>, pad: T, n: int): seq<T> {
    Overwrite(Fill(pad, n), values)
  }

  /** The finished lists, row by row. */
  function BatchOf(encoded: seq<Encoded>, pad: int, length: int, count: int): Batch {
    var n := |encoded|;
    Batch(seq(n, i requires 0 <= i < n => Padded(encoded[i].ids, pad, length)),
          seq(n, i requires 0 <= i < n => Padded(Fill(1, |encoded[i].ids|), 0, length)),
          seq(n, i requires 0 <= i < n => Padded(encoded[i].markers, 0, count)),
          seq(n, i requires 0 <= i < n => Padded(Fill(true, |encoded[i].markers|), false, count)),
          seq(n, i requires 0 <= i < n => encoded[i].qtype))
  }

  /** The list after `row[:k] = values`, whatever the number of values. */
  function Spliced<T>(row: seq<T>, k: nat, values: seq<T>): seq<T> {
    values + if k <= |row| then row[k..] else []
  }

  function Items(rows: seq<Labelled>): (r: seq<Item>)
    ensures |r| == |rows|
  {
    seq(|rows|, i requires 0 <= i < |rows| => rows[i].item)
  }

  predicate AllTargets(rows: seq<Labelled>) {
    forall i | 0 <= i < |rows| :: rows[i].target.Some?
  }

  predicate AllTeachers(rows: seq<Labelled>) {
    forall i | 0 <= i < |rows| :: !rows[i].teacher.NoTeacher?
  }

  function Targets(rows: seq<Labelled>): seq<int>
    requires AllTargets(rows)
  {
    seq(|rows|, i requires 0 <= i < |rows| => rows[i].target.value)
  }

  predicate NoNullTeacher(rows: seq<Labelled>) {
    forall i | 0 <= i < |rows| :: !rows[i].teacher.NullTeacher?
  }

  function TeacherRows(rows: seq<Labelled>, encoded: seq<Encoded>, count: nat): (r: seq<seq<real>>)
    requires AllTeachers(rows) && NoNullTeacher(rows) && |rows| == |encoded|
    ensures |r| == |rows|
  {
    seq(|rows|, i requires 0 <= i < |rows| => Spliced(Fill(0.0, count), |encoded[i].markers|, rows[i].teacher.values))
  }

  /** `collate` */
  function Collated(tok: Tokenizer, pad: int, rows: seq<Labelled>, maxLength: int, headLength: int,
                    includeTargets: bool): Result<Collation, Refused>
    requires Encodable(Items(rows))
  {
    if rows == [] then Err(NoRows)
    else
      match Encodings(tok, Items(rows), maxLength, headLength)
      case Err(fault) => Err(NotEncoded(fault))
      case Ok(encoded) =>
        var hasTeacher := includeTargets && AllTeachers(rows);
        if hasTeacher && !NoNullTeacher(rows) then Err(TeacherIsNull)
        else
          var count := MostMarkers(encoded);
          Ok(Collation(BatchOf(encoded, pad, RowLength(Longest(encoded), maxLength), count),
                       if includeTargets && AllTargets(rows) then Some(Targets(rows)) else None,
                       if hasTeacher then Some(TeacherRows(rows, encoded, count)) else None))
  }

  method EncodeAll(tok: Tokenizer, items: seq<Item>, maxLength: int, headLength: int)
    returns (r: Result<seq<Encoded>, Fault>)
    requires Encodable(items)
    ensures r == Encodings(tok, items, maxLength, headLength)
  {
    hide Sequence;
    var encoded: seq<Encoded> := [];
    for i := 0 to |items|
      invariant Encodings(tok, items[..i], maxLength, headLength) == Ok(encoded)
    {
      assert items[..i + 1][..i] == items[..i];
      match items[i]
      case Ready(e) => encoded := encoded + [e];
      case Raw(row) =>
        var one := Encode(tok, row, maxLength, headLength, false);
        if one.Err? {
          FailureStays(tok, items, i + 1, maxLength, headLength);
          return Err(one.error);
        }
        encoded := encoded + [one.value];
    }
    assert items[..|items|] == items;
    r := Ok(encoded);
  }

  lemma {:induction false} FailureStays(tok: Tokenizer, items: seq<Item>, n: nat, maxLength: int, headLength: int)
    requires Encodable(items) && n <= |items| && Encodings(tok, items[..n], maxLength, headLength).Err?
    ensures Encodings(tok, items, maxLength, headLength) == Encodings(tok, items[..n], maxLength, headLength)
    decreases |items|
  {
    hide Sequence;
    if n == |items| {
      assert items[..n] == items;
    } else {
      var before := items[..|items| - 1];
      assert before[..n] == items[..n];
      FailureStays(tok, before, n, maxLength, headLength);
    }
  }

  /** The loop that overwrites the padded lists row by row. */
  method FillRows(encoded: seq<Encoded>, pad: int, length: int, count: int) returns (batch: Batch)
    ensures batch == BatchOf(encoded, pad, length, count)
  {
    var n := |encoded|;
    var ids, attention := Fill(Fill(pad, length), n), Fill(Fill(0, length), n);
    var positions: seq<seq<nat>>, markerMask := Fill(Fill(0, count), n), Fill(Fill(false, count), n);
    ghost var done := BatchOf(encoded, pad, length, count);
    for i := 0 to n
      invariant |ids| == |attention| == |positions| == |markerMask| == n
      invariant ids == done.inputIds[..i] + Fill(Fill(pad, length), n - i)
      invariant attention == done.attention[..i] + Fill(Fill(0, length), n - i)
      invariant positions == done.positions[..i] + Fill(Fill(0, count), n - i)
      invariant markerMask == done.markerMask[..i] + Fill(Fill(false, count), n - i)
    {
      var item := encoded[i];
      ids := ids[i := Overwrite(ids[i], item.ids)];
      attention := attention[i := Overwrite(attention[i], Fill(1, |item.ids|))];
      positions := positions[i := Overwrite(positions[i], item.markers)];
      markerMask := markerMask[i := Overwrite(markerMask[i], Fill(true, |item.markers|))];
    }
    batch := Batch(ids, attention, positions, markerMask, seq(n, i requires 0 <= i < n => encoded[i].qtype));
  }

  /** The teacher rows of the same loop; a null value cannot be assigned to a slice. */
  method FillTeacher(rows: seq<Labelled>, encoded: seq<Encoded>, count: nat) returns (teacher: Option<seq<seq<real>>>)
    requires AllTeachers(rows) && |rows| == |encoded|
    ensures teacher.Some? <==> NoNullTeacher(rows)
    ensures teacher.Some? ==> teacher.value == TeacherRows(rows, encoded, count)
  {
    var n := |rows|;
    var filled := Fill(Fill(0.0, count), n);
    for i := 0 to n
      invariant |filled| == n && NoNullTeacher(rows[..i])
      invariant forall j | 0 <= j < i ::
        filled[j] == Spliced(Fill(0.0, count), |encoded[j].markers|, rows[j].teacher.values)
      invariant forall j | i <= j < n :: filled[j] == Fill(0.0, count)
    {
      if rows[i].teacher.NullTeacher? { return None; }
      assert forall j | 0 <= j < i + 1 :: rows[..i + 1][j] == rows[j];
      filled := filled[i := Spliced(filled[i], |encoded[i].markers|, rows[i].teacher.values)];
    }
    assert rows[..n] == rows;
    assert filled == TeacherRows(rows, encoded, count);
    teacher := Some(filled);
  }

  method Collate(tok: Tokenizer, pad: int, rows: seq<Labelled>, maxLength: int, headLength: int, includeTargets: bool)
    returns (r: Result<Collation, Refused>)
    requires Encodable(Items(rows))
    ensures r == Collated(tok, pad, rows, maxLength, headLength, includeTargets)
  {
    hide Encodings, BatchOf, Longest, MostMarkers, RowLength, TeacherRows, NoNullTeacher, AllTeachers, AllTargets;
    if rows == [] { return Err(NoRows); }
    var encoded := EncodeAll(tok, Items(rows), maxLength, headLength);
    if encoded.Err? { return Err(NotEncoded(encoded.error)); }
    var count := MostMarkers(encoded.value);
    var batch := FillRows(encoded.value, pad, RowLength(Longest(encoded.value), maxLength), count);
    var teacher: Option<seq<seq<real>>> := None;
    if includeTargets && AllTeachers(rows) {
      teacher := FillTeacher(rows, encoded.value, count);
      if teacher.None? { return Err(TeacherIsNull); }
    }
    var labels := if includeTargets && AllTargets(rows) then Some(Targets(rows)) else None;
    r := Ok(Collation(batch, labels, teacher));
  }

  // ----- what the batch holds

  lemma RowLengthShape(longest: nat, maxLength: int)
    ensures var n := RowLength(longest, maxLength);
      && (n % 8 == 0 || n == maxLength) && n <= maxLength && n < longest + 8
      && (longest <= n <==> longest <= maxLength)
      && forall m | longest <= m < n :: m % 8 != 0
  {
  }

  /** The entries whose mark is `on`. */
  function Strip<T, M(==)>(row: seq<T>, marks: seq<M>, on: M): seq<T>
    requires |row| == |marks|
  {
    if row == [] then []
    else (if marks[0] == on then [row[0]] else []) + Strip(row[1..], marks[1..], on)
  }

  lemma {:induction false} StripNothing<T, M>(row: seq<T>, marks: seq<M>, on: M)
    requires |row| == |marks| && forall k | 0 <= k < |marks| :: marks[k] != on
    ensures Strip(row, marks, on) == []
  {
    if row != [] { StripNothing(row[1..], marks[1..], on); }
  }

  lemma {:induction false} StripPrefix<T, M>(values: seq<T>, rest: seq<T>, marks: seq<M>, on: M)
    requires |values| + |rest| == |marks|
    requires forall k | 0 <= k < |marks| :: marks[k] == on <==> k < |values|
    ensures Strip(values + rest, marks, on) == values
  {
    if values == [] {
      assert values + rest == rest;
      StripNothing(rest, marks, on);
    } else {
      StripPrefix(values[1..], rest, marks[1..], on);
      assert (values + rest)[1..] == values[1..] + rest;
      assert [values[0]] + values[1..] == values;
    }
  }

  lemma PaddedStrips<T, M>(values: seq<T>, pad: T, on: M, off: M, n: nat)
    requires |values| <= n && on != off
    ensures var marks := Padded(Fill(on, |values|), off, n);
      && |Padded(values, pad, n)| == |marks| == n
      && (forall k | 0 <= k < n :: marks[k] == on <==> k < |values|)
      && (forall k | 0 <= k < n :: Padded(values, pad, n)[k] == if k < |values| then values[k] else pad)
      && (forall k | |values| <= k < n :: marks[k] == off)
      && Strip(Padded(values, pad, n), marks, on) == values
  {
    StripPrefix(values, Fill(pad, n)[|values|..], Padded(Fill(on, |values|), off, n), on);
  }

  /** Every row has the common length exactly when no encoding is longer than `maxLength`. */
  lemma RowsAreEqual(encoded: seq<Encoded>, pad: int, maxLength: int, count: int)
    requires encoded != []
    ensures var length := RowLength(Longest(encoded), maxLength);
      (forall i | 0 <= i < |encoded| :: |BatchOf(encoded, pad, length, count).inputIds[i]| == length)
      <==> forall i | 0 <= i < |encoded| :: |encoded[i].ids| <= maxLength
  {
    hide RowLength, Longest;
    var length := RowLength(Longest(encoded), maxLength);
    RowLengthShape(Longest(encoded), maxLength);
    assert Longest(encoded) <= length <==> Longest(encoded) <= maxLength;
    var b := BatchOf(encoded, pad, length, count);
    forall i | 0 <= i < |encoded|
      ensures |b.inputIds[i]| == length <==> |encoded[i].ids| <= length
    {
      assert b.inputIds[i] == Padded(encoded[i].ids, pad, length);
    }
    LongestBounds(encoded, length);
    LongestBounds(encoded, maxLength);
  }

  /** The rows are equally long exactly when every encoding fits, or all encodings are equally long. */
  lemma RowsAgree(encoded: seq<Encoded>, pad: int, maxLength: int, count: int)
    requires encoded != []
    ensures var rows := BatchOf(encoded, pad, RowLength(Longest(encoded), maxLength), count).inputIds;
      (forall i, j | 0 <= i < |encoded| && 0 <= j < |encoded| :: |rows[i]| == |rows[j]|)
      <==> (forall i | 0 <= i < |encoded| :: |encoded[i].ids| <= maxLength)
           || forall i, j | 0 <= i < |encoded| && 0 <= j < |encoded| :: |encoded[i].ids| == |encoded[j].ids|
  {
    hide RowLength, Longest;
    var longest, length := Longest(encoded), RowLength(Longest(encoded), maxLength);
    RowLengthShape(longest, maxLength);
    RowLengthBeyond(longest, maxLength);
    LongestBounds(encoded, maxLength);
    var rows := BatchOf(encoded, pad, length, count).inputIds;
    var top :| 0 <= top < |encoded| && |encoded[top].ids| == longest;
    forall i | 0 <= i < |encoded|
      ensures |rows[i]| == if |encoded[i].ids| <= length then length else |encoded[i].ids|
      ensures |encoded[i].ids| <= longest
    {
      assert rows[i] == Padded(encoded[i].ids, pad, length);
    }
    if longest > maxLength {
      assert |rows[top]| == longest;
      assert forall i | 0 <= i < |encoded| :: |rows[i]| == |rows[top]| <==> |encoded[i].ids| == longest;
    }
  }

  lemma RowLengthBeyond(longest: nat, maxLength: int)
    ensures longest > maxLength ==> RowLength(longest, maxLength) == maxLength
  {
  }

  /** A bound on every row is a bound on the longest, which is attained. */
  lemma LongestBounds(encoded: seq<Encoded>, n: int)
    requires encoded != []
    ensures (forall i | 0 <= i < |encoded| :: |encoded[i].ids| <= n) <==> Longest(encoded) <= n
  {
    hide Longest;
    var i :| 0 <= i < |encoded| && |encoded[i].ids| == Longest(encoded);
    assert |encoded[i].ids| <= n <==> Longest(encoded) <= n;
  }

  /** What `sequence` promises of an encoding: within `maxLength`, every marker at a mask token. */
  predicate Promised(e: Encoded, mask: int, maxLength: int) {
    && |e.ids| <= maxLength
    && forall k | 0 <= k < |e.markers| :: e.markers[k] < |e.ids| && e.ids[e.markers[k]] == mask
  }

  /** One finished row against the encoding it came from. */
  predicate RowOf(b: Batch, i: nat, e: Encoded, pad: int, mask: int, length: int, count: nat)
    requires i < |b.inputIds| == |b.attention| == |b.positions| == |b.markerMask| == |b.qtype|
  {
    && |b.inputIds[i]| == |b.attention[i]| == length && |b.positions[i]| == |b.markerMask[i]| == count
    && (forall k | 0 <= k < length :: b.attention[i][k] == if k < |e.ids| then 1 else 0)
    && (forall k | |e.ids| <= k < length :: b.inputIds[i][k] == pad)
    && (forall k | 0 <= k < count :: b.markerMask[i][k] <==> k < |e.markers|)
    && (forall k | |e.markers| <= k < count :: b.positions[i][k] == 0)
    && Strip(b.inputIds[i], b.attention[i], 1) == e.ids
    && Strip(b.positions[i], b.markerMask[i], true) == e.markers
    && (forall k | 0 <= k < count && b.markerMask[i][k] ::
          var at := b.positions[i][k];
          at < length && b.attention[i][at] == 1 && b.inputIds[i][at] == mask)
    && b.qtype[i] == e.qtype
  }

  /** The least multiple of 8 that is not below `longest`, or `maxLength` below that. */
  predicate LeastLength(length: int, longest: int, maxLength: int) {
    && (length % 8 == 0 || length == maxLength) && longest <= length <= maxLength
    && forall m | longest <= m < length :: m % 8 != 0
  }

  /** The whole batch against the encodings of its items. */
  predicate Faithful(b: Batch, items: seq<Item>, encoded: seq<Encoded>, pad: int, mask: int, maxLength: int) {
    var length, count := RowLength(Longest(encoded), maxLength), MostMarkers(encoded);
    && |b.inputIds| == |b.attention| == |b.positions| == |b.markerMask| == |b.qtype| == |items| == |encoded|
    && LeastLength(length, Longest(encoded), maxLength)
    && (encoded != [] ==> exists i | 0 <= i < |encoded| :: |encoded[i].markers| == count)
    && forall i | 0 <= i < |items| :: RowOf(b, i, encoded[i], pad, mask, length, count)
  }

  lemma RowIsRight(encoded: seq<Encoded>, pad: int, length: nat, count: nat, mask: int, maxLength: int, i: nat)
    requires i < |encoded| && Promised(encoded[i], mask, maxLength)
    requires |encoded[i].ids| <= length && |encoded[i].markers| <= count
    ensures RowOf(BatchOf(encoded, pad, length, count), i, encoded[i], pad, mask, length, count)
  {
    hide Padded, Fill, Strip;
    var e := encoded[i];
    PaddedStrips(e.ids, pad, 1, 0, length);
    PaddedStrips(e.markers, 0, true, false, count);
    var b := BatchOf(encoded, pad, length, count);
    assert b.inputIds[i] == Padded(e.ids, pad, length);
    assert b.attention[i] == Padded(Fill(1, |e.ids|), 0, length);
    assert b.positions[i] == Padded(e.markers, 0, count);
    assert b.markerMask[i] == Padded(Fill(true, |e.markers|), false, count);
  }

  predicate ReadyOnesPromised(items: seq<Item>, mask: int, maxLength: int) {
    forall i | 0 <= i < |items| && items[i].Ready? :: Promised(items[i].encoded, mask, maxLength)
  }

  lemma {:induction false} AllPromised(tok: Tokenizer, items: seq<Item>, maxLength: int, headLength: int)
    requires Encodable(items) && tok.maskId.Some? && ReadyOnesPromised(items, tok.maskId.value, maxLength)
    requires Encodings(tok, items, maxLength, headLength).Ok?
    ensures var encoded := Encodings(tok, items, maxLength, headLength).value;
      && (forall i | 0 <= i < |encoded| :: Promised(encoded[i], tok.maskId.value, maxLength))
      && forall i | 0 <= i < |encoded| ::
           if items[i].Ready? then encoded[i] == items[i].encoded
           else Sequence(tok, items[i].row, maxLength, headLength, false) == Ok(encoded[i])
  {
    hide Sequence, WellFormed, Promised;
    if items == [] {
    } else {
      var n := |items| - 1;
      AllPromised(tok, items[..n], maxLength, headLength);
      if items[n].Raw? { SequencePromises(tok, items[n].row, maxLength, headLength); }
    }
  }

  lemma SequencePromises(tok: Tokenizer, row: Row, maxLength: int, headLength: int)
    requires Valid(row) && Sequence(tok, row, maxLength, headLength, false).Ok? && tok.maskId.Some?
    ensures Promised(Sequence(tok, row, maxLength, headLength, false).value, tok.maskId.value, maxLength)
  {
    hide Sequence, WellFormed;
    var kept, tail, cap := SequenceShape(tok, row, maxLength, headLength, false);
  }

  lemma BatchIsFaithful(tok: Tokenizer, pad: int, items: seq<Item>, maxLength: int, headLength: int)
    requires Encodable(items) && tok.maskId.Some? && ReadyOnesPromised(items, tok.maskId.value, maxLength)
    requires items != [] && Encodings(tok, items, maxLength, headLength).Ok?
    ensures var encoded := Encodings(tok, items, maxLength, headLength).value;
      Faithful(BatchOf(encoded, pad, RowLength(Longest(encoded), maxLength), MostMarkers(encoded)), items, encoded,
               pad, tok.maskId.value, maxLength)
  {
    hide Encodings, RowLength, Promised, RowOf, LeastLength, Longest;
    AllPromised(tok, items, maxLength, headLength);
    var encoded := Encodings(tok, items, maxLength, headLength).value;
    var length, count := RowLength(Longest(encoded), maxLength), MostMarkers(encoded);
    LongestFits(encoded, tok.maskId.value, maxLength);
    LengthIsLeast(Longest(encoded), maxLength);
    LongestBounds(encoded, length);
    forall i | 0 <= i < |items|
      ensures RowOf(BatchOf(encoded, pad, length, count), i, encoded[i], pad, tok.maskId.value, length, count)
    {
      RowIsRight(encoded, pad, length, count, tok.maskId.value, maxLength, i);
    }
  }

  predicate ZeroFrom(row: seq<real>, n: nat) {
    forall k | n <= k < |row| :: row[k] == 0.0
  }

  lemma LengthIsLeast(longest: nat, maxLength: int)
    requires longest <= maxLength
    ensures LeastLength(RowLength(longest, maxLength), longest, maxLength)
    ensures longest <= RowLength(longest, maxLength)
  {
    hide RowLength;
    RowLengthShape(longest, maxLength);
  }

  /** A teacher row has the common width exactly when it has one logit per marker, and then the marker mask picks
      the logits out again. */
  lemma TeacherRowIsRight(e: Encoded, logits: seq<real>, count: nat)
    requires |e.markers| <= count
    ensures var row := Spliced(Fill(0.0, count), |e.markers|, logits);
      && (|row| == count <==> |logits| == |e.markers|)
      && (|row| == count ==> Strip(row, Padded(Fill(true, |e.markers|), false, count), true) == logits)
      && (|row| == count ==> ZeroFrom(row, |logits|))
  {
    if |logits| == |e.markers| { PaddedStrips(logits, 0.0, true, false, count); }
  }

  /** One logit per option, as the row check demands of a row that has any. */
  predicate OneLogitEach(rows: seq<Labelled>) {
    forall i | 0 <= i < |rows| && rows[i].teacher.Logits? ::
      |rows[i].teacher.values| == match rows[i].item case Ready(e) => |e.markers| case Raw(row) => |row.options|
  }

  lemma MarkersAreOptions(tok: Tokenizer, row: Row, maxLength: int, headLength: int)
    requires Valid(row) && Sequence(tok, row, maxLength, headLength, false).Ok?
    ensures |Sequence(tok, row, maxLength, headLength, false).value.markers| == |row.options|
  {
    hide Sequence, WellFormed;
    var kept, tail, cap := SequenceShape(tok, row, maxLength, headLength, false);
  }

  /** The teacher rows against the batch they stand beside. */
  predicate TeacherOf(c: Collation, rows: seq<Labelled>) {
    c.teacher.Some? ==>
      && |c.teacher.value| == |c.batch.markerMask| == |rows|
      && forall i | 0 <= i < |rows| ::
           && rows[i].teacher.Logits? && |c.teacher.value[i]| == |c.batch.markerMask[i]|
           && Strip(c.teacher.value[i], c.batch.markerMask[i], true) == rows[i].teacher.values
           && ZeroFrom(c.teacher.value[i], |rows[i].teacher.values|)
  }

  lemma TeacherIsFaithful(tok: Tokenizer, pad: int, rows: seq<Labelled>, maxLength: int, headLength: int)
    requires Encodable(Items(rows)) && OneLogitEach(rows) && AllTeachers(rows) && NoNullTeacher(rows)
    requires tok.maskId.Some? && ReadyOnesPromised(Items(rows), tok.maskId.value, maxLength)
    requires Encodings(tok, Items(rows), maxLength, headLength).Ok?
    ensures var encoded := Encodings(tok, Items(rows), maxLength, headLength).value;
      var count, length := MostMarkers(encoded), RowLength(Longest(encoded), maxLength);
      forall i | 0 <= i < |rows| ::
        var row, mask := TeacherRows(rows, encoded, count)[i], BatchOf(encoded, pad, length, count).markerMask[i];
        && |row| == |mask| == count && Strip(row, mask, true) == rows[i].teacher.values
        && ZeroFrom(row, |rows[i].teacher.values|)
  {
    hide Encodings, Sequence, Longest, MostMarkers, RowLength, Promised, Strip, Spliced, Fill, Padded;
    var encoded := Encodings(tok, Items(rows), maxLength, headLength).value;
    var count, length := MostMarkers(encoded), RowLength(Longest(encoded), maxLength);
    AllPromised(tok, Items(rows), maxLength, headLength);
    forall i | 0 <= i < |rows|
      ensures var row, mask := TeacherRows(rows, encoded, count)[i], BatchOf(encoded, pad, length, count).markerMask[i];
        && |row| == |mask| == count && Strip(row, mask, true) == rows[i].teacher.values
        && ZeroFrom(row, |rows[i].teacher.values|)
    {
      var item, e := Items(rows)[i], encoded[i];
      assert item == rows[i].item;
      if item.Raw? { MarkersAreOptions(tok, item.row, maxLength, headLength); }
      TeacherRowIsRight(e, rows[i].teacher.values, count);
      assert BatchOf(encoded, pad, length, count).markerMask[i] == Padded(Fill(true, |e.markers|), false, count);
      MaskWidth(e, count);
    }
  }

  lemma MaskWidth(e: Encoded, count: nat)
    requires |e.markers| <= count
    ensures |Padded(Fill(true, |e.markers|), false, count)| == count
  {
  }

  /** A successful collation: one row per item, all of one length, the least multiple of 8 the longest fits or
      `maxLength` when that is less; attention is 1 on the encoding's own prefix and 0 on the padding, so stripping
      recovers ids and markers; every unmasked marker holds the mask id inside that prefix. Targets and teacher
      logits appear exactly when asked for and given for every row, the logits where the markers are. */
  lemma CollationIsFaithful(tok: Tokenizer, pad: int, rows: seq<Labelled>, maxLength: int, headLength: int,
                            includeTargets: bool)
    requires Encodable(Items(rows)) && tok.maskId.Some? && OneLogitEach(rows)
    requires ReadyOnesPromised(Items(rows), tok.maskId.value, maxLength)
    ensures var r := Collated(tok, pad, rows, maxLength, headLength, includeTargets);
      r.Ok? ==>
        && rows != [] && Encodings(tok, Items(rows), maxLength, headLength).Ok?
        && Faithful(r.value.batch, Items(rows), Encodings(tok, Items(rows), maxLength, headLength).value,
                    pad, tok.maskId.value, maxLength)
        && (r.value.labels.Some? <==> includeTargets && AllTargets(rows))
        && (r.value.labels.Some? ==> r.value.labels.value == Targets(rows))
        && (r.value.teacher.Some? <==> includeTargets && AllTeachers(rows))
        && TeacherOf(r.value, rows)
  {
    hide Encodings, Faithful, RowLength, Longest, MostMarkers, OneLogitEach, ReadyOnesPromised, Strip, Spliced;
    var r := Collated(tok, pad, rows, maxLength, headLength, includeTargets);
    if r.Ok? {
      BatchIsFaithful(tok, pad, Items(rows), maxLength, headLength);
      if r.value.teacher.Some? { TeacherIsFaithful(tok, pad, rows, maxLength, headLength); }
    }
  }

  lemma LongestFits(encoded: seq<Encoded>, mask: int, maxLength: int)
    requires encoded != [] && forall i | 0 <= i < |encoded| :: Promised(encoded[i], mask, maxLength)
    ensures Longest(encoded) <= maxLength
  {
    hide Longest;
    forall i | 0 <= i < |encoded| ensures |encoded[i].ids| <= maxLength {
      assert Promised(encoded[i], mask, maxLength);
    }
    LongestBounds(encoded, maxLength);
  }
}
