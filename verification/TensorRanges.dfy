/** The safetensors header check of scripts/inspect-julia.py. */
module TensorRanges {
  import opened JsonValues
  import opened Sorting
  import opened Wrappers

  const MAX_HEADER_BYTES: nat := 100 * 1024 * 1024
  const F32_BYTES: nat := 4

  /** One member of the header object, in file order. */
  datatype Entry = Entry(name: string, value: Json)

  datatype Tensor = Tensor(name: string, shape: seq<Json>, start: int, end: int)

  datatype Error =
    | DeclaredTooSmall | PrefixTooShort | HeaderTooLong | FileShorterThanHeader | WrongSuppliedLength
    | InvalidJson | DuplicateKey | BadMetadata | EmptyName | NotAnObject(name: string)
    | UnsupportedFields(name: string) | WrongType(name: string) | ShapeNotArray(name: string)
    | BadOffsets(name: string) | BadShape(name: string) | LengthMismatch(name: string)
    | BeyondPayload(name: string) | NoTensors | HoleOrOverlap(name: string) | TrailingBytes

  predicate ValidShape(shape: seq<Json>) {
    forall i | 0 <= i < |shape| :: shape[i].Int? && shape[i].number >= 0
  }

  function Product(shape: seq<Json>): nat
    requires ValidShape(shape)
  {
    if shape == [] then 1 else shape[|shape| - 1].number * Product(shape[..|shape| - 1])
  }

  method ProductOf(shape: seq<Json>) returns (product: Option<nat>)
    ensures product.Some? <==> ValidShape(shape)
    ensures product.Some? ==> product.value == Product(shape)
  {
    var total := 1;
    for i := 0 to |shape|
      invariant ValidShape(shape[..i]) && total == Product(shape[..i])
    {
      if !shape[i].Int? || shape[i].number < 0 { return None; }
      assert shape[..i + 1][..i] == shape[..i];
      total := total * shape[i].number;
    }
    assert shape[..|shape|] == shape;
    return Some(total);
  }

  predicate ValidMetadata(value: Json) {
    value.Obj? && forall key | key in value.fields :: value.fields[key].Str?
  }

  predicate ValidOffsets(value: Json) {
    && value.Arr? && |value.items| == 2
    && value.items[0].Int? && value.items[1].Int?
    && 0 <= value.items[0].number && 0 <= value.items[1].number
    && value.items[0].number <= value.items[1].number
  }

  /** The checks on one header member other than `__metadata__`. */
  function CheckTensor(entry: Entry, payload: int): Result<Tensor, Error> {
    var name := entry.name;
    if name == "" then Err(EmptyName)
    else if !entry.value.Obj? then Err(NotAnObject(name))
    else
      var fields := entry.value.fields;
      if fields.Keys != {"dtype", "shape", "data_offsets"} then Err(UnsupportedFields(name))
      else if fields["dtype"] != Str("F32") then Err(WrongType(name))
      else if !fields["shape"].Arr? then Err(ShapeNotArray(name))
      else if !ValidOffsets(fields["data_offsets"]) then Err(BadOffsets(name))
      else if !ValidShape(fields["shape"].items) then Err(BadShape(name))
      else
        var start, end := fields["data_offsets"].items[0].number, fields["data_offsets"].items[1].number;
        if end - start != Product(fields["shape"].items) * F32_BYTES then Err(LengthMismatch(name))
        else if end > payload then Err(BeyondPayload(name))
        else Ok(Tensor(name, fields["shape"].items, start, end))
  }

  predicate IsMetadata(entry: Entry) {
    entry.name == "__metadata__"
  }

  predicate EntryOk(entry: Entry, payload: int) {
    if IsMetadata(entry) then ValidMetadata(entry.value) else CheckTensor(entry, payload).Ok?
  }

  /** The tensors in file order, or the first entry's error. */
  function Collect(header: seq<Entry>, payload: int): Result<seq<Tensor>, Error> {
    if header == [] then Ok([])
    else
      var last := header[|header| - 1];
      match Collect(header[..|header| - 1], payload)
      case Err(e) => Err(e)
      case Ok(before) =>
        if IsMetadata(last) then (if ValidMetadata(last.value) then Ok(before) else Err(BadMetadata))
        else
          match CheckTensor(last, payload)
          case Err(e) => Err(e)
          case Ok(t) => Ok(before + [t])
  }

  predicate StringLe(a: string, b: string) {
    a == "" || (b != "" && (a[0] < b[0] || (a[0] == b[0] && StringLe(a[1..], b[1..]))))
  }

  /** Python's order on `(start, end, name)`. */
  predicate Before(a: Tensor, b: Tensor) {
    a.start < b.start
    || (a.start == b.start && (a.end < b.end || (a.end == b.end && StringLe(a.name, b.name))))
  }

  /** The cursor sweep over sorted ranges, from `cursor`: the first fault, or none. */
  function Sweep(sorted: seq<Tensor>, cursor: int, payload: int): Option<Error> {
    if sorted == [] then (if cursor == payload then None else Some(TrailingBytes))
    else if sorted[0].start != cursor then Some(HoleOrOverlap(sorted[0].name))
    else Sweep(sorted[1..], sorted[0].end, payload)
  }

  predicate DistinctKeys(header: seq<Entry>) {
    forall i, j | 0 <= i < j < |header| :: header[i].name != header[j].name
  }

  function TensorMap(tensors: seq<Tensor>): map<string, Tensor> {
    if tensors == [] then map[]
    else TensorMap(tensors[..|tensors| - 1])[tensors[|tensors| - 1].name := tensors[|tensors| - 1]]
  }

  function Inspect(header: seq<Entry>, payload: int): Result<map<string, Tensor>, Error> {
    if !DistinctKeys(header) then Err(DuplicateKey)
    else
      match Collect(header, payload)
      case Err(e) => Err(e)
      case Ok(tensors) =>
        if tensors == [] then Err(NoTensors)
        else
          match Sweep(Sort(tensors, Before), 0, payload)
          case Some(e) => Err(e)
          case None => Ok(TensorMap(tensors))
  }

  /** The loop over the header's members: the ranges in file order and the tensors by name. */
  method ReadTensors(header: seq<Entry>, payload: int)
    returns (fault: Option<Error>, ranges: seq<Tensor>, tensors: map<string, Tensor>)
    ensures Collect(header, payload) == (match fault case None => Ok(ranges) case Some(e) => Err(e))
    ensures fault.None? ==> tensors == TensorMap(ranges)
  {
    hide CheckTensor, ValidMetadata;
    fault, ranges, tensors := None, [], map[];
    for i := 0 to |header|
      invariant Collect(header[..i], payload) == Ok(ranges) && tensors == TensorMap(ranges)
    {
      assert header[..i + 1][..i] == header[..i];
      var entry := header[i];
      if IsMetadata(entry) {
        if !ValidMetadata(entry.value) {
          CollectFails(header, i + 1, payload);
          return Some(BadMetadata), ranges, tensors;
        }
      } else {
        var checked := CheckTensor(entry, payload);
        if checked.Err? {
          CollectFails(header, i + 1, payload);
          return Some(checked.error), ranges, tensors;
        }
        var t := checked.value;
        assert (ranges + [t])[..|ranges|] == ranges;
        tensors := tensors[t.name := t];
        ranges := ranges + [t];
      }
    }
    assert header[..|header|] == header;
  }

  /** The cursor loop over the sorted ranges. */
  method SweepRanges(sorted: seq<Tensor>, payload: int) returns (fault: Option<Error>)
    ensures fault == Sweep(sorted, 0, payload)
  {
    var cursor := 0;
    for i := 0 to |sorted|
      invariant Sweep(sorted, 0, payload) == Sweep(sorted[i..], cursor, payload)
    {
      assert sorted[i..][1..] == sorted[i + 1..];
      if sorted[i].start != cursor { return Some(HoleOrOverlap(sorted[i].name)); }
      cursor := sorted[i].end;
    }
    fault := if cursor != payload then Some(TrailingBytes) else None;
  }

  /** `parse_safetensors_header`: `supplied` bytes whose first eight hold `headerBytes`, and the decoded
      header members, or none when the bytes are not a UTF-8 JSON object. */
  method ParseHeader(declared: int, supplied: nat, headerBytes: nat, decoded: Option<seq<Entry>>)
    returns (r: Result<map<string, Tensor>, Error>)
    ensures r.Ok? <==>
      && declared >= 8 && supplied == 8 + headerBytes && headerBytes <= 104857600
      && declared >= 8 + headerBytes && decoded.Some?
      && Inspect(decoded.value, declared - 8 - headerBytes).Ok?
    ensures (declared >= supplied == 8 + headerBytes && headerBytes <= 104857600 && decoded.Some?) ==>
      r == Inspect(decoded.value, declared - 8 - headerBytes)
  {
    hide Collect, Sweep, Sort, TensorMap, DistinctKeys;
    if declared < 8 { return Err(DeclaredTooSmall); }
    if supplied < 8 { return Err(PrefixTooShort); }
    if headerBytes > MAX_HEADER_BYTES { return Err(HeaderTooLong); }
    var required := 8 + headerBytes;
    if declared < required { return Err(FileShorterThanHeader); }
    if supplied != required { return Err(WrongSuppliedLength); }
    if decoded.None? { return Err(InvalidJson); }
    var header := decoded.value;
    if !DistinctKeys(header) { return Err(DuplicateKey); }
    var fault, ranges, tensors := ReadTensors(header, declared - required);
    if fault.Some? { return Err(fault.value); }
    if ranges == [] { return Err(NoTensors); }
    var uneven := SweepRanges(Sort(ranges, Before), declared - required);
    if uneven.Some? { return Err(uneven.value); }
    return Ok(tensors);
  }

  lemma {:induction false} CollectFails(header: seq<Entry>, n: nat, payload: int)
    requires n <= |header| && Collect(header[..n], payload).Err?
    ensures Collect(header, payload) == Collect(header[..n], payload)
    decreases |header|
  {
    if n == |header| {
      assert header[..n] == header;
    } else {
      var before := header[..|header| - 1];
      assert before[..n] == header[..n];
      CollectFails(before, n, payload);
    }
  }

  // ----- what acceptance means

  predicate Covers(t: Tensor, byte: int) {
    t.start <= byte < t.end
  }

  /** An empty tensor strictly inside another tensor's bytes. */
  predicate SplitBy(t: Tensor, empty: Tensor) {
    empty.start == empty.end && t.start < empty.start < t.end
  }

  ghost predicate Covered(s: seq<Tensor>, byte: int) {
    exists i :: 0 <= i < |s| && Covers(s[i], byte)
  }

  /** Every byte of [from, to) lies in exactly one range, no range leaves it, and empty ranges sit on
      boundaries only. */
  ghost predicate Tiles(s: seq<Tensor>, from: int, to: int) {
    && (forall i | 0 <= i < |s| :: from <= s[i].start <= s[i].end <= to)
    && (forall byte | from <= byte < to :: Covered(s, byte))
    && (forall byte, i, j | 0 <= i < j < |s| && Covers(s[i], byte) :: !Covers(s[j], byte))
    && (forall i, j | 0 <= i < |s| && 0 <= j < |s| :: !SplitBy(s[i], s[j]))
    && from <= to
  }

  lemma {:induction false} SweepTiles(s: seq<Tensor>, from: int, to: int)
    requires Sweep(s, from, to) == None
    requires forall i :: 0 <= i < |s| ==> s[i].start <= s[i].end
    ensures Tiles(s, from, to)
  {
    if s == [] {
    } else {
      var rest := s[1..];
      SweepTiles(rest, s[0].end, to);
      forall i | 0 <= i < |s| ensures from <= s[i].start <= s[i].end <= to && (i > 0 ==> s[0].end <= s[i].start) {
        if i > 0 { assert s[i] == rest[i - 1]; }
      }
      forall byte | from <= byte < to ensures Covered(s, byte) {
        assert s[0].end <= byte ==> Covered(rest, byte);
        if byte < s[0].end {
          assert Covers(s[0], byte);
        } else {
          var i :| 0 <= i < |rest| && Covers(rest[i], byte);
          assert Covers(s[i + 1], byte);
        }
      }
      forall byte, i, j | 0 <= i < j < |s| && Covers(s[i], byte) ensures !Covers(s[j], byte) {
        if i > 0 { assert Covers(rest[i - 1], byte) && s[j] == rest[j - 1]; }
      }
      forall i, j | 0 <= i < |s| && 0 <= j < |s| ensures !SplitBy(s[i], s[j]) {
        if i > 0 && j > 0 { assert !SplitBy(rest[i - 1], rest[j - 1]); }
      }
    }
  }

  lemma HeadMeetsCursor(s: seq<Tensor>, from: int, to: int)
    requires Tiles(s, from, to) && Sorted(s, Before) && s != []
    ensures s[0].start == from
    ensures forall i :: 0 < i < |s| ==> s[0].end <= s[i].start
  {
    forall i | 0 <= i < |s| ensures s[0].start <= s[i].start { assert i == 0 || Before(s[0], s[i]); }
    assert from < s[0].start ==> Covered(s, from);
    forall i | 0 < i < |s| ensures s[0].end <= s[i].start {
      assert Before(s[0], s[i]);
      assert !(Covers(s[0], s[i].start) && Covers(s[i], s[i].start));
      assert !SplitBy(s[0], s[i]);
    }
  }

  lemma {:induction false} TilesSweep(s: seq<Tensor>, from: int, to: int)
    requires Tiles(s, from, to) && Sorted(s, Before)
    ensures Sweep(s, from, to) == None
  {
    if s == [] {
      assert from < to ==> Covered(s, from);
    } else {
      HeadMeetsCursor(s, from, to);
      var rest := s[1..];
      forall i, j | 0 <= i < j < |rest| ensures Before(rest[i], rest[j]) { assert Before(s[i + 1], s[j + 1]); }
      forall byte | s[0].end <= byte < to ensures Covered(rest, byte) {
        assert Covered(s, byte);
        var i :| 0 <= i < |s| && Covers(s[i], byte);
        assert i > 0 && rest[i - 1] == s[i];
      }
      forall byte, i, j | 0 <= i < j < |rest| && Covers(rest[i], byte) ensures !Covers(rest[j], byte) {
        assert Covers(s[i + 1], byte) && !Covers(s[j + 1], byte);
      }
      forall i, j | 0 <= i < |rest| && 0 <= j < |rest| ensures !SplitBy(rest[i], rest[j]) {
        assert !SplitBy(s[i + 1], s[j + 1]);
      }
      TilesSweep(rest, s[0].end, to);
    }
  }

  // ----- the same, as a property of the set of header members

  ghost predicate CoveredBy(tensors: set<Tensor>, byte: int) {
    exists t :: t in tensors && Covers(t, byte)
  }

  /** Order-free: each payload byte in exactly one tensor's range, and empty tensors on boundaries. */
  ghost predicate TileExactly(tensors: set<Tensor>, payload: int) {
    && (forall t | t in tensors :: 0 <= t.start <= t.end <= payload)
    && (forall byte | 0 <= byte < payload :: CoveredBy(tensors, byte))
    && (forall byte, t, u | t in tensors && u in tensors && Covers(t, byte) && Covers(u, byte) :: t == u)
    && (forall t, u | t in tensors && u in tensors :: !SplitBy(t, u))
  }

  function TensorsOf(entries: set<Entry>, payload: int): set<Tensor> {
    set e | e in entries && !IsMetadata(e) && CheckTensor(e, payload).Ok? :: CheckTensor(e, payload).value
  }

  /** The index vectors of a shape: one number below each dimension. */
  ghost function Indices(shape: seq<Json>): set<seq<int>> {
    if shape == [] then {[]}
    else Layers(Indices(shape[..|shape| - 1]), Dimension(shape[|shape| - 1]))
  }

  ghost function Layers(vectors: set<seq<int>>, n: int): set<seq<int>> {
    set v, k | v in vectors && 0 <= k < n :: v + [k]
  }

  function Dimension(d: Json): int {
    if d.Int? then d.number else 0
  }

  /** The member spells out exactly this tensor: its three fields, and four bytes for each place of an F32
      array of its shape, inside the payload. */
  ghost predicate Describes(e: Entry, t: Tensor, payload: int) {
    && e.name == t.name != ""
    && e.value == Obj(map["dtype" := Str("F32"), "shape" := Arr(t.shape),
                          "data_offsets" := Arr([Int(t.start), Int(t.end)])])
    && (forall i | 0 <= i < |t.shape| :: t.shape[i].Int? && t.shape[i].number >= 0)
    && 0 <= t.start <= t.end <= payload
    && t.end - t.start == 4 * |Indices(t.shape)|
  }

  ghost predicate DescribedIn(entries: set<Entry>, t: Tensor, payload: int) {
    exists e :: e in entries && e.name != "__metadata__" && Describes(e, t, payload)
  }

  /** Metadata maps strings to strings, every other member describes a tensor, and these tensors, of which
      there is one, tile the payload. */
  ghost predicate Accepted(entries: set<Entry>, tensors: set<Tensor>, payload: int) {
    && (forall e | e in entries ::
          if e.name == "__metadata__" then
            e.value.Obj? && forall key | key in e.value.fields :: e.value.fields[key].Str?
          else exists t :: Describes(e, t, payload))
    && (forall t :: t in tensors <==> DescribedIn(entries, t, payload))
    && tensors != {}
    && TileExactly(tensors, payload)
  }

  predicate DistinctNames(tensors: seq<Tensor>) {
    forall i, j | 0 <= i < j < |tensors| :: tensors[i].name != tensors[j].name
  }

  function Elements<T>(s: seq<T>): set<T> {
    set x | x in s
  }

  lemma {:induction false} CollectSucceeds(header: seq<Entry>, payload: int)
    ensures Collect(header, payload).Ok? <==> forall i :: 0 <= i < |header| ==> EntryOk(header[i], payload)
  {
    if header == [] {
    } else {
      var before, last := header[..|header| - 1], header[|header| - 1];
      CollectSucceeds(before, payload);
      assert Collect(header, payload).Ok? <==> Collect(before, payload).Ok? && EntryOk(last, payload);
      assert forall i :: 0 <= i < |before| ==> before[i] == header[i];
    }
  }

  ghost predicate From(header: seq<Entry>, t: Tensor, payload: int) {
    exists e :: e in header && !IsMetadata(e) && CheckTensor(e, payload) == Ok(t)
  }

  lemma {:induction false} CollectMeaning(header: seq<Entry>, payload: int)
    requires Collect(header, payload).Ok?
    ensures forall t :: t in Collect(header, payload).value <==> From(header, t, payload)
  {
    hide CheckTensor, From;
    if header == [] {
      forall t ensures !From(header, t, payload) { FromNothing(t, payload); }
    } else {
      var before, last := header[..|header| - 1], header[|header| - 1];
      CollectMeaning(before, payload);
      assert header == before + [last];
      forall t ensures From(header, t, payload) <==>
        (From(before, t, payload) || (!IsMetadata(last) && CheckTensor(last, payload) == Ok(t))) {
        FromAppend(before, last, t, payload);
      }
    }
  }

  lemma FromNothing(t: Tensor, payload: int)
    ensures !From([], t, payload)
  {
  }

  lemma {:induction false} CollectDistinct(header: seq<Entry>, payload: int)
    requires Collect(header, payload).Ok? && DistinctKeys(header)
    ensures DistinctNames(Collect(header, payload).value)
  {
    hide From;
    if header == [] {
    } else {
      var before, last := header[..|header| - 1], header[|header| - 1];
      CollectDistinct(before, payload);
      CollectMeaning(before, payload);
      var tensors := Collect(before, payload).value;
      forall i | 0 <= i < |tensors| ensures tensors[i].name != last.name {
        assert tensors[i] in tensors;
        FromNamed(before, tensors[i], payload);
      }
    }
  }

  lemma FromAppend(before: seq<Entry>, last: Entry, t: Tensor, payload: int)
    ensures From(before + [last], t, payload) <==>
      (From(before, t, payload) || (!IsMetadata(last) && CheckTensor(last, payload) == Ok(t)))
  {
    hide CheckTensor;
    assert forall e :: e in before + [last] <==> e in before || e == last;
  }

  lemma FromNamed(header: seq<Entry>, t: Tensor, payload: int)
    requires From(header, t, payload)
    ensures exists i :: 0 <= i < |header| && header[i].name == t.name
  {
    var e :| e in header && !IsMetadata(e) && CheckTensor(e, payload) == Ok(t);
    assert e.name == t.name;
  }

  lemma CoverUnique(s: seq<Tensor>, from: int, to: int, byte: int, i: nat, j: nat)
    requires Tiles(s, from, to) && i < |s| && j < |s| && Covers(s[i], byte) && Covers(s[j], byte)
    ensures i == j
  {
  }

  lemma TilesAsSet(s: seq<Tensor>, payload: int)
    requires DistinctNames(s) && payload >= 0
    ensures Tiles(s, 0, payload) <==> TileExactly(Elements(s), payload)
  {
    var tensors := Elements(s);
    forall byte ensures Covered(s, byte) <==> CoveredBy(tensors, byte) {
      if Covered(s, byte) {
        var i :| 0 <= i < |s| && Covers(s[i], byte);
        assert s[i] in tensors;
      }
    }
    if Tiles(s, 0, payload) {
      forall byte, t, u | t in tensors && u in tensors && Covers(t, byte) && Covers(u, byte) ensures t == u {
        var i :| 0 <= i < |s| && s[i] == t;
        var j :| 0 <= j < |s| && s[j] == u;
        CoverUnique(s, 0, payload, byte, i, j);
      }
    }
    if TileExactly(tensors, payload) {
      forall byte, i, j | 0 <= i < j < |s| && Covers(s[i], byte) ensures !Covers(s[j], byte) {
        assert s[i] in tensors && s[j] in tensors && s[i].name != s[j].name;
      }
      forall i | 0 <= i < |s| ensures 0 <= s[i].start <= s[i].end <= payload { assert s[i] in tensors; }
      forall i, j | 0 <= i < |s| && 0 <= j < |s| ensures !SplitBy(s[i], s[j]) {
        assert s[i] in tensors && s[j] in tensors;
      }
    }
  }

  lemma {:induction false} StringTotal(a: string, b: string)
    ensures StringLe(a, b) || StringLe(b, a)
  {
    if a == "" || b == "" {
    } else {
      StringTotal(a[1..], b[1..]);
    }
  }

  lemma {:induction false} StringTransitive(a: string, b: string, c: string)
    requires StringLe(a, b) && StringLe(b, c)
    ensures StringLe(a, c)
  {
    if a == "" || b == "" || c == "" {
    } else if a[0] == b[0] == c[0] {
      StringTransitive(a[1..], b[1..], c[1..]);
    }
  }

  lemma BeforeIsOrder()
    ensures TotalPreorder(Before)
  {
    forall a, b ensures Before(a, b) || Before(b, a) { StringTotal(a.name, b.name); }
    forall a, b, c | Before(a, b) && Before(b, c) ensures Before(a, c) {
      if StringLe(a.name, b.name) && StringLe(b.name, c.name) { StringTransitive(a.name, b.name, c.name); }
    }
  }

  lemma SortedSame(s: seq<Tensor>)
    ensures Sorted(Sort(s, Before), Before) && Elements(Sort(s, Before)) == Elements(s)
    ensures DistinctNames(s) ==> DistinctNames(Sort(s, Before))
  {
    BeforeIsOrder();
    SortSorts(s, Before);
    SortPermutes(s, Before);
    var t := Sort(s, Before);
    forall x ensures x in t <==> x in s { assert x in t <==> x in multiset(t); assert x in s <==> x in multiset(s); }
    if DistinctNames(s) {
      forall i, j | 0 <= i < j < |t| ensures t[i].name != t[j].name {
        assert t[i] in s && t[j] in s;
        if t[i].name == t[j].name {
          assert t[i] == t[j];
          CountTwo(t, i, j);
          var k := CountsOnce(s, t[i]);
        }
      }
    }
  }

  lemma CountsOnce(s: seq<Tensor>, t: Tensor) returns (k: nat)
    requires DistinctNames(s) && t in s
    ensures k < |s| && s[k] == t && multiset(s)[t] == 1
  {
    k :| 0 <= k < |s| && s[k] == t;
    assert s == s[..k] + [s[k]] + s[k + 1..];
    assert t !in s[..k] && t !in s[k + 1..];
    assert t !in multiset(s[..k]) && t !in multiset(s[k + 1..]);
  }

  lemma CollectElements(header: seq<Entry>, payload: int)
    requires Collect(header, payload).Ok?
    ensures Elements(Collect(header, payload).value) == TensorsOf(Elements(header), payload)
  {
    CollectMeaning(header, payload);
    var s := Collect(header, payload).value;
    forall t ensures t in Elements(s) <==> t in TensorsOf(Elements(header), payload) {
      if t in s {
        assert From(header, t, payload);
        var e :| e in header && !IsMetadata(e) && CheckTensor(e, payload) == Ok(t);
        assert e in Elements(header);
      }
      if t in TensorsOf(Elements(header), payload) { assert From(header, t, payload); }
    }
  }

  lemma CollectForward(header: seq<Entry>, payload: int)
    requires Collect(header, payload).Ok?
    ensures forall t :: t in Collect(header, payload).value ==> t.start <= t.end
  {
    CollectMeaning(header, payload);
    forall t | t in Collect(header, payload).value ensures t.start <= t.end {
      assert From(header, t, payload);
      var e :| e in header && !IsMetadata(e) && CheckTensor(e, payload) == Ok(t);
    }
  }

  lemma SweepMeaning(s: seq<Tensor>, payload: int)
    requires DistinctNames(s) && payload >= 0
    requires forall t :: t in s ==> t.start <= t.end
    ensures Sweep(Sort(s, Before), 0, payload) == None <==> TileExactly(Elements(s), payload)
  {
    var t := Sort(s, Before);
    SortedSame(s);
    TilesAsSet(t, payload);
    if Sweep(t, 0, payload) == None {
      forall i | 0 <= i < |t| ensures t[i].start <= t[i].end { assert t[i] in Elements(t); }
      SweepTiles(t, 0, payload);
    }
    if Tiles(t, 0, payload) {
      TilesSweep(t, 0, payload);
    }
  }

  // ----- how many numbers a shape holds

  lemma {:induction false} IndicesMeaning(shape: seq<Json>, v: seq<int>)
    ensures v in Indices(shape) <==>
      |v| == |shape| && forall k :: 0 <= k < |v| ==> 0 <= v[k] < Dimension(shape[k])
  {
    if shape == [] {
    } else {
      var inner := shape[..|shape| - 1];
      if v != [] {
        var init := v[..|v| - 1];
        IndicesMeaning(inner, init);
        assert v == init + [v[|v| - 1]];
        assert v in Indices(shape) <==>
          init in Indices(inner) && 0 <= v[|v| - 1] < Dimension(shape[|shape| - 1]) by {
          if v in Indices(shape) {
            var u, k :| u in Indices(inner) && 0 <= k < Dimension(shape[|shape| - 1]) && v == u + [k];
            assert u == init;
          }
        }
        forall k | 0 <= k < |init| ensures v[k] == init[k] { }
      }
    }
  }

  ghost predicate Image<A(!new), B>(s: set<A>, f: A -> B, image: set<B>) {
    && (forall a :: a in s ==> f(a) in image)
    && (forall b | b in image :: exists a :: a in s && f(a) == b)
  }

  lemma {:induction false} ImageSize<A(!new), B>(s: set<A>, f: A -> B, image: set<B>)
    requires forall a, b :: a in s && b in s && f(a) == f(b) ==> a == b
    requires Image(s, f, image)
    ensures |image| == |s|
  {
    if s == {} {
      assert image == {};
    } else {
      var x :| x in s;
      ImageSize(s - {x}, f, image - {f(x)});
    }
  }

  lemma {:induction false} LayersSize(vectors: set<seq<int>>, n: nat)
    ensures |Layers(vectors, n)| == n * |vectors|
  {
    if n == 0 {
      assert Layers(vectors, 0) == {};
    } else {
      LayersSize(vectors, n - 1);
      var tag := (v: seq<int>) => Append(v, n - 1);
      forall u, v | u in vectors && v in vectors && tag(u) == tag(v) ensures u == v {
        assert tag(u)[..|u|] == u && tag(v)[..|v|] == v;
      }
      var top := set v | v in vectors :: Append(v, n - 1);
      forall v | v in vectors ensures tag(v) in top { assert tag(v) == Append(v, n - 1); }
      forall w | w in top ensures exists v :: v in vectors && tag(v) == w {
        var v :| v in vectors && w == Append(v, n - 1);
        assert tag(v) == w;
      }
      ImageSize(vectors, tag, top);
      TopLayer(vectors, n, top);
    }
  }

  function Append(v: seq<int>, k: int): seq<int> {
    v + [k]
  }

  lemma TopLayer(vectors: set<seq<int>>, n: nat, top: set<seq<int>>)
    requires n > 0 && top == set v | v in vectors :: Append(v, n - 1)
    ensures |Layers(vectors, n)| == |Layers(vectors, n - 1)| + |top|
  {
    var below := Layers(vectors, n - 1);
    forall v | v in below ensures v[|v| - 1] < n - 1 { }
    forall v | v in top ensures v[|v| - 1] == n - 1 { }
    assert below * top == {};
    forall v | v in Layers(vectors, n) ensures v in below + top {
      var u, k :| u in vectors && 0 <= k < n && v == u + [k];
      if k == n - 1 { assert v == Append(u, k); }
    }
    assert Layers(vectors, n) == below + top;
  }

  /** The product of the dimensions counts the places of the array. */
  lemma {:induction false} ProductCounts(shape: seq<Json>)
    requires ValidShape(shape)
    ensures Product(shape) == |Indices(shape)|
  {
    if shape == [] {
    } else {
      ProductCounts(shape[..|shape| - 1]);
      LayersSize(Indices(shape[..|shape| - 1]), shape[|shape| - 1].number);
    }
  }

  /** The checks pass exactly on a member that describes a tensor, and they return that tensor. */
  lemma CheckMeans(e: Entry, t: Tensor, payload: int)
    ensures CheckTensor(e, payload) == Ok(t) <==> Describes(e, t, payload)
  {
    hide Indices, Product;
    if ValidShape(t.shape) { ProductCounts(t.shape); }
    if CheckTensor(e, payload) == Ok(t) {
      var fields := e.value.fields;
      var offsets := fields["data_offsets"].items;
      assert offsets == [Int(t.start), Int(t.end)];
      assert fields == map["dtype" := Str("F32"), "shape" := Arr(t.shape), "data_offsets" := Arr(offsets)];
    }
  }

  lemma TensorsDescribed(entries: set<Entry>, payload: int, t: Tensor)
    ensures t in TensorsOf(entries, payload) <==> DescribedIn(entries, t, payload)
  {
    hide CheckTensor, Describes;
    forall e ensures CheckTensor(e, payload) == Ok(t) <==> Describes(e, t, payload) {
      CheckMeans(e, t, payload);
    }
  }

  lemma EntryMeans(e: Entry, payload: int)
    ensures EntryOk(e, payload) <==>
      if e.name == "__metadata__" then
        e.value.Obj? && forall key | key in e.value.fields :: e.value.fields[key].Str?
      else exists t :: Describes(e, t, payload)
  {
    hide CheckTensor, Describes;
    if e.name != "__metadata__" {
      if CheckTensor(e, payload).Ok? { CheckMeans(e, CheckTensor(e, payload).value, payload); }
      if t :| Describes(e, t, payload) { CheckMeans(e, t, payload); }
    }
  }

  lemma AcceptedMeans(entries: set<Entry>, payload: int)
    ensures (forall e | e in entries :: EntryOk(e, payload))
      && TensorsOf(entries, payload) != {} && TileExactly(TensorsOf(entries, payload), payload)
      <==> Accepted(entries, TensorsOf(entries, payload), payload)
    ensures forall tensors :: Accepted(entries, tensors, payload) ==> tensors == TensorsOf(entries, payload)
  {
    hide EntryOk, Describes, DescribedIn, TensorsOf, TileExactly;
    forall e ensures EntryOk(e, payload) <==>
      if e.name == "__metadata__" then
        e.value.Obj? && forall key | key in e.value.fields :: e.value.fields[key].Str?
      else exists t :: Describes(e, t, payload) {
      EntryMeans(e, payload);
    }
    forall t ensures t in TensorsOf(entries, payload) <==> DescribedIn(entries, t, payload) {
      TensorsDescribed(entries, payload, t);
    }
  }

  /** The inspector accepts exactly the headers with distinct keys whose members describe tensors that tile
      the payload. */
  lemma InspectAccepts(header: seq<Entry>, payload: int)
    requires payload >= 0
    ensures Inspect(header, payload).Ok? <==>
      DistinctKeys(header) && exists tensors :: Accepted(Elements(header), tensors, payload)
  {
    if DistinctKeys(header) {
      InspectPasses(header, payload);
      AcceptedMeans(Elements(header), payload);
    }
  }

  lemma InspectPasses(header: seq<Entry>, payload: int)
    requires payload >= 0 && DistinctKeys(header)
    ensures Inspect(header, payload).Ok? <==>
      (forall e | e in Elements(header) :: EntryOk(e, payload))
      && TensorsOf(Elements(header), payload) != {}
      && TileExactly(TensorsOf(Elements(header), payload), payload)
  {
    CollectSucceeds(header, payload);
    if Collect(header, payload).Ok? {
      CollectElements(header, payload);
      CollectDistinct(header, payload);
      CollectForward(header, payload);
      SweepMeaning(Collect(header, payload).value, payload);
      forall e | e in header ensures EntryOk(e, payload) { }
    } else {
      var i :| 0 <= i < |header| && !EntryOk(header[i], payload);
      assert header[i] in Elements(header);
    }
  }

  ghost predicate Named(tensors: seq<Tensor>, name: string, t: Tensor) {
    t in tensors && t.name == name
  }

  lemma {:induction false} MapHolds(tensors: seq<Tensor>, name: string)
    requires DistinctNames(tensors)
    ensures name in TensorMap(tensors) <==> exists t :: Named(tensors, name, t)
    ensures name in TensorMap(tensors) ==> Named(tensors, name, TensorMap(tensors)[name])
  {
    if tensors == [] {
    } else {
      var before, last := tensors[..|tensors| - 1], tensors[|tensors| - 1];
      MapHolds(before, name);
      assert tensors == before + [last];
      assert Named(tensors, last.name, last);
      forall t ensures Named(tensors, name, t) <==> Named(before, name, t) || (t == last && t.name == name) { }
    }
  }

  lemma SameNamesSameMap(a: seq<Tensor>, b: seq<Tensor>)
    requires DistinctNames(a) && DistinctNames(b) && Elements(a) == Elements(b)
    ensures TensorMap(a) == TensorMap(b)
  {
    forall name ensures name in TensorMap(a) <==> name in TensorMap(b) {
      MapHolds(a, name);
      MapHolds(b, name);
      if t :| Named(a, name, t) { assert t in Elements(b) && Named(b, name, t); }
      if t :| Named(b, name, t) { assert t in Elements(a) && Named(a, name, t); }
    }
    forall name | name in TensorMap(a) ensures TensorMap(a)[name] == TensorMap(b)[name] {
      MapHolds(a, name);
      MapHolds(b, name);
      OneOfAName(b, name, TensorMap(a)[name], TensorMap(b)[name]);
    }
  }

  lemma OneOfAName(s: seq<Tensor>, name: string, t: Tensor, u: Tensor)
    requires DistinctNames(s) && t in Elements(s) && u in Elements(s) && t.name == u.name == name
    ensures t == u
  {
    var i :| 0 <= i < |s| && s[i] == t;
    var j :| 0 <= j < |s| && s[j] == u;
    assert i == j;
  }

  /** The parsed map holds the described tensors, each under its own name. */
  lemma InspectGives(header: seq<Entry>, payload: int)
    requires payload >= 0 && Inspect(header, payload).Ok?
    ensures Accepted(Elements(header), Inspect(header, payload).value.Values, payload)
    ensures forall name | name in Inspect(header, payload).value ::
      Inspect(header, payload).value[name].name == name
  {
    hide TileExactly, Accepted;
    var tensors := Collect(header, payload).value;
    var parsed := TensorMap(tensors);
    CollectDistinct(header, payload);
    CollectElements(header, payload);
    InspectPasses(header, payload);
    AcceptedMeans(Elements(header), payload);
    forall name | name in parsed ensures parsed[name].name == name && parsed[name] in tensors {
      MapHolds(tensors, name);
    }
    forall t | t in tensors ensures t in parsed.Values {
      MapHolds(tensors, t.name);
      assert Named(tensors, t.name, t);
      OneOfAName(tensors, t.name, t, parsed[t.name]);
    }
    assert parsed.Values == Elements(tensors);
  }

  /** Every number of every tensor: the tensor's name and an index into its array. */
  ghost function Places(tensors: set<Tensor>): set<(string, seq<int>)> {
    set t, v | t in tensors && v in Indices(t.shape) :: (t.name, v)
  }

  /** The numbers of one tensor. */
  ghost function PlacesOf(t: Tensor): set<(string, seq<int>)> {
    set v | v in Indices(t.shape) :: (t.name, v)
  }

  lemma PlacesOfSize(t: Tensor)
    ensures |PlacesOf(t)| == |Indices(t.shape)|
  {
    hide Indices;
    var tag := (v: seq<int>) => (t.name, v);
    forall v | v in Indices(t.shape) ensures tag(v) in PlacesOf(t) { assert tag(v) == (t.name, v); }
    forall place | place in PlacesOf(t) ensures exists v :: v in Indices(t.shape) && tag(v) == place {
      var v :| v in Indices(t.shape) && place == (t.name, v);
      assert tag(v) == place;
    }
    ImageSize(Indices(t.shape), tag, PlacesOf(t));
  }

  lemma PlacesSplit(s: seq<Tensor>)
    requires s != [] && DistinctNames(s)
    ensures |Places(Elements(s))| == |Indices(s[0].shape)| + |Places(Elements(s[1..]))|
  {
    hide Indices;
    var first, rest := PlacesOf(s[0]), Places(Elements(s[1..]));
    PlacesOfSize(s[0]);
    assert s == [s[0]] + s[1..];
    assert forall t :: t in Elements(s) <==> t == s[0] || t in Elements(s[1..]);
    assert first !! rest by {
      forall t | t in s[1..] ensures t.name != s[0].name { }
    }
    assert Places(Elements(s)) == first + rest;
  }

  lemma {:induction false} SweepCounts(s: seq<Tensor>, cursor: int, payload: int)
    requires Sweep(s, cursor, payload) == None && DistinctNames(s)
    requires forall t :: t in s ==> t.end - t.start == 4 * |Indices(t.shape)|
    ensures payload - cursor == 4 * |Places(Elements(s))|
  {
    hide Indices;
    if s == [] {
      assert Places(Elements(s)) == {};
    } else {
      SweepCounts(s[1..], s[0].end, payload);
      PlacesSplit(s);
    }
  }

  /** An accepted payload holds four bytes for each number of the parsed tensors, and nothing else. */
  lemma PayloadIsElements(header: seq<Entry>, payload: int)
    requires payload >= 0 && Inspect(header, payload).Ok?
    ensures payload == 4 * |Places(Inspect(header, payload).value.Values)|
  {
    hide Accepted, Places, Sweep, Describes, TensorsOf;
    var tensors := Collect(header, payload).value;
    var parsed := Inspect(header, payload).value;
    CollectDistinct(header, payload);
    CollectElements(header, payload);
    SortedSame(tensors);
    InspectGives(header, payload);
    AcceptedMeans(Elements(header), payload);
    var sorted := Sort(tensors, Before);
    forall t | t in sorted ensures t.end - t.start == 4 * |Indices(t.shape)| {
      assert t in Elements(tensors);
      DescribedLength(Elements(header), t, payload);
    }
    SweepCounts(sorted, 0, payload);
  }

  lemma DescribedLength(entries: set<Entry>, t: Tensor, payload: int)
    requires t in TensorsOf(entries, payload)
    ensures t.end - t.start == 4 * |Indices(t.shape)|
  {
    TensorsDescribed(entries, payload, t);
  }

  /** Neither acceptance nor the parsed tensors depend on the order of the header's keys. */
  lemma InspectIgnoresOrder(a: seq<Entry>, b: seq<Entry>, payload: int)
    requires DistinctKeys(a) && DistinctKeys(b) && payload >= 0
    requires forall e :: e in a <==> e in b
    ensures Inspect(a, payload).Ok? <==> Inspect(b, payload).Ok?
    ensures Inspect(a, payload).Ok? ==> Inspect(a, payload) == Inspect(b, payload)
  {
    assert Elements(a) == Elements(b);
    InspectPasses(a, payload);
    InspectPasses(b, payload);
    if Inspect(a, payload).Ok? {
      CollectElements(a, payload);
      CollectElements(b, payload);
      CollectDistinct(a, payload);
      CollectDistinct(b, payload);
      SameNamesSameMap(Collect(a, payload).value, Collect(b, payload).value);
    }
  }
}
