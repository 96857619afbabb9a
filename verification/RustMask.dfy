/** `masked` of scripts/check_observability.py: blanks Rust comments and literals, keeping every offset. */
module RustMask {
  import opened Wrappers

  predicate StartsWith(s: string, pattern: string, i: nat) {
    i + |pattern| <= |s| && s[i..i + |pattern|] == pattern
  }

  /** `s.find(pattern, i)`, or the length of `s` where Python gives -1. */
  function Find(s: string, pattern: string, i: nat): (r: nat)
    requires i <= |s| && pattern != ""
    ensures i <= r <= |s| && (r < |s| ==> StartsWith(s, pattern, r))
    ensures forall k :: i <= k < r ==> !StartsWith(s, pattern, k)
    decreases |s| - i
  {
    if i == |s| || StartsWith(s, pattern, i) then i
    else Find(s, pattern, i + 1)
  }

  predicate Hex(c: char) {
    '0' <= c <= '9' || 'a' <= c <= 'f' || 'A' <= c <= 'F'
  }

  // ----- where the literal or comment that starts at `i` ends; `i` itself when none starts there

  /** The end of a nested block comment from `i`, at the given depth. */
  function BlockEnd(s: string, i: nat, depth: nat): (r: nat)
    requires i <= |s|
    ensures i <= r <= |s|
    decreases |s| - i
  {
    if i == |s| || depth == 0 then i
    else if StartsWith(s, "/*", i) then BlockEnd(s, i + 2, depth + 1)
    else if StartsWith(s, "*/", i) then BlockEnd(s, i + 2, depth - 1)
    else BlockEnd(s, i + 1, depth)
  }

  function Hashes(s: string, i: nat): (r: nat)
    ensures i <= |s| ==> i + r <= |s|
    decreases |s| - i
  {
    if i < |s| && s[i] == '#' then 1 + Hashes(s, i + 1) else 0
  }

  function RawPrefix(s: string, i: nat): nat {
    if StartsWith(s, "br", i) || StartsWith(s, "cr", i) then 2
    else if StartsWith(s, "r", i) then 1
    else 0
  }

  /** `(?:br|cr|r)(#*)"` matches at `i`. */
  predicate RawOpens(s: string, i: nat) {
    RawPrefix(s, i) > 0 && StartsWith(s, "\"", i + RawPrefix(s, i) + Hashes(s, i + RawPrefix(s, i)))
  }

  function Repeat(c: char, n: nat): (r: string)
    ensures |r| == n
  {
    seq(n, i => c)
  }

  function RawEnd(s: string, i: nat): (r: nat)
    requires RawOpens(s, i)
  {
    var body := i + RawPrefix(s, i);
    var hashes := Hashes(s, body);
    var end := Find(s, "\"" + Repeat('#', hashes), body + hashes + 1);
    if end >= |s| then |s| else end + 1 + hashes
  }

  /** The end of a quoted string whose contents start at `i`; a trailing backslash steps past the text. */
  function StringEnd(s: string, i: nat): (r: nat)
    ensures i <= r && (i <= |s| + 1 ==> r <= |s| + 1)
    decreases |s| - i
  {
    if i >= |s| then i
    else if s[i] == '\\' then StringEnd(s, i + 2)
    else if s[i] == '"' then i + 1
    else StringEnd(s, i + 1)
  }

  /** The end of the run of hexadecimal digits and underscores from `i`. */
  function HexRun(s: string, i: nat): (r: nat)
    ensures i <= r && (i <= |s| ==> r <= |s|)
    decreases |s| - i
  {
    if i < |s| && (Hex(s[i]) || s[i] == '_') then HexRun(s, i + 1) else i
  }

  predicate UnicodeChar(s: string, i: nat) {
    StartsWith(s, "'\\u{", i) && HexRun(s, i + 4) > i + 4 && StartsWith(s, "}'", HexRun(s, i + 4))
  }

  predicate HexChar(s: string, i: nat) {
    StartsWith(s, "'\\x", i) && i + 6 <= |s| && Hex(s[i + 3]) && Hex(s[i + 4]) && s[i + 5] == '\''
  }

  predicate EscapedChar(s: string, i: nat) {
    StartsWith(s, "'\\", i) && i + 4 <= |s| && s[i + 2] != '\n' && s[i + 3] == '\''
  }

  predicate PlainChar(s: string, i: nat) {
    i + 3 <= |s| && s[i] == '\'' && s[i + 1] !in {'\'', '\\', '\n'} && s[i + 2] == '\''
  }

  /** The end of the character literal at `i`, or `i` where the expression does not match. */
  function CharEnd(s: string, i: nat): (r: nat)
    requires i < |s|
    ensures i <= r <= |s|
  {
    if UnicodeChar(s, i) then HexRun(s, i + 4) + 2
    else if HexChar(s, i) then i + 6
    else if EscapedChar(s, i) then i + 4
    else if PlainChar(s, i) then i + 3
    else i
  }

  function TokenEnd(s: string, i: nat): (r: nat)
    requires i < |s|
    ensures i <= r <= |s| + 1
  {
    if StartsWith(s, "//", i) then Find(s, "\n", i)
    else if StartsWith(s, "/*", i) then BlockEnd(s, i + 2, 1)
    else if RawOpens(s, i) then RawEnd(s, i)
    else if s[i] == '"' then StringEnd(s, i + 1)
    else CharEnd(s, i)
  }

  predicate IsCode(s: string, i: nat)
    requires i < |s|
  {
    TokenEnd(s, i) == i
  }

  // ----- the mask

  function Min(a: nat, b: nat): nat {
    if a < b then a else b
  }

  function Blank(c: char): char {
    if c == '\n' then '\n' else ' '
  }

  function Blanks(s: string): (r: string)
    ensures |r| == |s| && forall i :: 0 <= i < |s| ==> r[i] == Blank(s[i])
  {
    seq(|s|, i requires 0 <= i < |s| => Blank(s[i]))
  }

  /** The masked text from `i` on. */
  function MaskFrom(s: string, i: nat): string
    decreases |s| - i
  {
    if i >= |s| then ""
    else if IsCode(s, i) then [s[i]] + MaskFrom(s, i + 1)
    else Blanks(s[i..Min(TokenEnd(s, i), |s|)]) + MaskFrom(s, TokenEnd(s, i))
  }

  function Mask(s: string): string {
    MaskFrom(s, 0)
  }

  /** One token further: what is finished, then the rest of the mask. */
  lemma MaskStep(s: string, start: nat, done: string)
    requires start < |s| && done + MaskFrom(s, start) == Mask(s)
    ensures var end := TokenEnd(s, start);
      if end == start then done + [s[start]] + MaskFrom(s, start + 1) == Mask(s)
      else done + Blanks(s[start..Min(end, |s|)]) + MaskFrom(s, end) == Mask(s)
  {
    hide TokenEnd, Blanks, Mask;
    var end := TokenEnd(s, start);
    if end == start {
      Join(done, [s[start]], MaskFrom(s, start + 1));
    } else {
      Join(done, Blanks(s[start..Min(end, |s|)]), MaskFrom(s, end));
    }
  }

  lemma MaskEnds(s: string, done: string)
    ensures [] + MaskFrom(s, 0) == Mask(s)
    ensures forall i :: i >= |s| ==> done + MaskFrom(s, i) == done
  {
    hide TokenEnd, Blanks;
    assert forall i :: i >= |s| ==> MaskFrom(s, i) == "";
  }

  /** The scanner, overwriting a copy of the text in place. */
  method Masked(source: string) returns (result: array<char>)
    ensures fresh(result) && result[..] == Mask(source)
  {
    hide TokenEnd, Blanks, Mask, MaskFrom;
    result := new char[|source|](k requires 0 <= k < |source| => source[k]);
    MaskEnds(source, []);
    assert result[..0] == [];
    var i := 0;
    while i < |source|
      invariant 0 <= i <= |source| + 1
      invariant result[..Min(i, |source|)] + MaskFrom(source, i) == Mask(source)
      invariant forall k :: i <= k < |source| ==> result[k] == source[k]
      decreases |source| + 1 - i
    {
      var start := i;
      MaskStep(source, start, result[..start]);
      var end := ScanToken(source, start);
      if end == start {
        i := i + 1;
        assert result[..i] == result[..start] + [source[start]];
      } else {
        i := end;
        BlankOut(source, result, start, Min(i, |source|));
      }
    }
    MaskEnds(source, result[..]);
    assert result[..Min(i, |source|)] == result[..];
  }

  lemma Join(a: string, b: string, c: string)
    ensures a + (b + c) == (a + b) + c
  {
  }

  /** The branches of the scanner: where the token at `start` ends. */
  method ScanToken(source: string, start: nat) returns (i: nat)
    requires start < |source|
    ensures i == TokenEnd(source, start)
  {
    hide BlockEnd, StringEnd, RawEnd, RawOpens, CharEnd;
    if StartsWith(source, "//", start) {
      i := Find(source, "\n", start);
    } else if StartsWith(source, "/*", start) {
      i := ScanBlock(source, start + 2);
    } else if RawOpens(source, start) {
      i := RawEnd(source, start);
    } else if source[start] == '"' {
      i := ScanString(source, start + 1);
    } else {
      i := CharEnd(source, start);
    }
  }

  method ScanBlock(source: string, start: nat) returns (i: nat)
    requires start <= |source|
    ensures i == BlockEnd(source, start, 1)
  {
    var depth := 1;
    i := start;
    while i < |source| && depth > 0
      invariant start <= i <= |source|
      invariant BlockEnd(source, start, 1) == BlockEnd(source, i, depth)
      decreases |source| - i
    {
      if StartsWith(source, "/*", i) {
        depth := depth + 1;
        i := i + 2;
      } else if StartsWith(source, "*/", i) {
        depth := depth - 1;
        i := i + 2;
      } else {
        i := i + 1;
      }
    }
  }

  method ScanString(source: string, start: nat) returns (i: nat)
    requires start <= |source|
    ensures i == StringEnd(source, start)
  {
    i := start;
    while i < |source|
      invariant start <= i <= |source| + 1
      invariant StringEnd(source, start) == StringEnd(source, i)
      decreases |source| + 1 - i
    {
      if source[i] == '\\' {
        i := i + 2;
      } else if source[i] == '"' {
        return i + 1;
      } else {
        i := i + 1;
      }
    }
  }

  method BlankOut(source: string, result: array<char>, start: nat, end: nat)
    requires result.Length == |source| && start <= end <= |source|
    requires forall k :: start <= k < |source| ==> result[k] == source[k]
    modifies result
    ensures forall k :: 0 <= k < start || end <= k < |source| ==> result[k] == old(result[k])
    ensures result[..end] == old(result[..start]) + Blanks(source[start..end])
  {
    for pos := start to end
      invariant forall k :: 0 <= k < start || pos <= k < |source| ==> result[k] == old(result[k])
      invariant forall k :: start <= k < pos ==> result[k] == Blank(source[k])
    {
      if result[pos] != '\n' { result[pos] := ' '; }
    }
  }

  // ----- which positions are blanked

  /** Scanning from `i`, the start of the token that covers position `p`, if one does. */
  function TokenOver(s: string, i: nat, p: nat): (r: Option<nat>)
    requires p < |s|
    ensures r.Some? ==> i <= r.value <= p
    decreases |s| - i
  {
    if i > p then None
    else if IsCode(s, i) then TokenOver(s, i + 1, p)
    else if p < TokenEnd(s, i) then Some(i)
    else TokenOver(s, TokenEnd(s, i), p)
  }

  predicate Hidden(s: string, p: nat)
    requires p < |s|
  {
    TokenOver(s, 0, p).Some?
  }

  /** Each character is kept, or blanked because a token covers it; a newline is always kept. */
  lemma {:induction false} MaskFromAt(s: string, i: nat, p: nat)
    requires i <= p < |s|
    ensures |MaskFrom(s, i)| == |s| - i
    ensures MaskFrom(s, i)[p - i] == if TokenOver(s, i, p).Some? then Blank(s[p]) else s[p]
    decreases |s| - i
  {
    hide TokenEnd, Blanks, Blank;
    MaskFromLength(s, i);
    if IsCode(s, i) {
      MaskFromLength(s, i + 1);
      if i < p {
        MaskFromAt(s, i + 1, p);
        Later([s[i]], MaskFrom(s, i + 1), p - i);
      }
    } else {
      var end := TokenEnd(s, i);
      var head := s[i..Min(end, |s|)];
      MaskFromLength(s, end);
      if p < end {
        assert head[p - i] == s[p];
        assert Blanks(head)[p - i] == Blank(s[p]);
      } else {
        MaskFromAt(s, end, p);
        Later(Blanks(head), MaskFrom(s, end), p - i);
      }
    }
  }

  lemma Later(a: string, b: string, k: nat)
    requires |a| <= k < |a| + |b|
    ensures (a + b)[k] == b[k - |a|]
  {
  }

  lemma {:induction false} MaskFromLength(s: string, i: nat)
    ensures |MaskFrom(s, i)| == if i <= |s| then |s| - i else 0
    decreases |s| - i
  {
    hide TokenEnd;
    if i < |s| {
      MaskFromLength(s, if IsCode(s, i) then i + 1 else TokenEnd(s, i));
    }
  }

  /** Same length; every character unchanged or a space; newlines exactly where the source has them. */
  lemma MaskShape(s: string)
    ensures |Mask(s)| == |s|
    ensures forall p :: 0 <= p < |s| ==> Mask(s)[p] == if Hidden(s, p) then Blank(s[p]) else s[p]
    ensures forall p :: 0 <= p < |s| ==> (Mask(s)[p] == '\n' <==> s[p] == '\n')
  {
    hide MaskFrom, TokenOver;
    MaskFromLength(s, 0);
    forall p | 0 <= p < |s| ensures Mask(s)[p] == if Hidden(s, p) then Blank(s[p]) else s[p] {
      MaskFromAt(s, 0, p);
    }
  }

  // ----- scanning the masked text finds nothing

  /** Every token covers two characters, or runs to the end of the text. */
  lemma TokenLength(s: string, i: nat)
    requires i < |s| && !IsCode(s, i)
    ensures TokenEnd(s, i) >= i + 2 || TokenEnd(s, i) >= |s|
  {
    if StartsWith(s, "//", i) {
      FindSkips(s, i);
    } else if StartsWith(s, "/*", i) {
    } else if RawOpens(s, i) {
    } else if s[i] == '"' {
      StringSkips(s, i + 1);
    }
  }

  lemma FindSkips(s: string, i: nat)
    requires StartsWith(s, "//", i)
    ensures Find(s, "\n", i) >= i + 2
  {
    assert s[i..i + 2][0] == s[i] && s[i..i + 2][1] == s[i + 1];
    assert !StartsWith(s, "\n", i) && !StartsWith(s, "\n", i + 1);
  }

  lemma StringSkips(s: string, i: nat)
    requires i <= |s|
    ensures StringEnd(s, i) >= i + 1 || StringEnd(s, i) >= |s|
  {
  }

  lemma {:induction false} OverCode(s: string, i: nat, p: nat)
    requires i <= p < |s| && TokenOver(s, i, p).None?
    ensures IsCode(s, p)
    ensures p + 1 < |s| && TokenOver(s, i, p + 1).Some? ==>
      TokenOver(s, i, p + 1) == Some(p + 1) && !IsCode(s, p + 1)
    decreases |s| - i
  {
    hide TokenEnd;
    if i == p {
    } else if IsCode(s, i) {
      OverCode(s, i + 1, p);
    } else {
      OverCode(s, TokenEnd(s, i), p);
    }
  }

  /** A token covers everything up to its end. */
  lemma {:induction false} OverToken(s: string, i: nat, p: nat, r: nat)
    requires i <= p <= r < |s| && TokenOver(s, i, p).Some? && r < TokenEnd(s, TokenOver(s, i, p).value)
    ensures TokenOver(s, i, r) == TokenOver(s, i, p)
    decreases |s| - i
  {
    hide TokenEnd;
    if IsCode(s, i) {
      OverCodeStep(s, i, p);
      OverToken(s, i + 1, p, r);
    } else if p < TokenEnd(s, i) {
    } else {
      OverToken(s, TokenEnd(s, i), p, r);
    }
  }

  lemma OverCodeStep(s: string, i: nat, p: nat)
    requires i <= p < |s| && IsCode(s, i) && TokenOver(s, i, p).Some?
    ensures i < p
  {
  }

  /** A visible character after code and one blanked position cannot exist: blanks come in runs. */
  lemma NoLoneBlank(s: string, p: nat)
    requires p + 2 < |s| && !Hidden(s, p) && Hidden(s, p + 1)
    ensures Hidden(s, p + 2)
  {
    hide TokenEnd;
    OverCode(s, 0, p);
    TokenLength(s, p + 1);
    OverToken(s, 0, p + 1, p + 2);
  }

  /** A copy of `s` in which some characters are blanked. */
  predicate MaskOf(m: string, s: string) {
    && |m| == |s|
    && (forall k | 0 <= k < |s| :: m[k] == s[k] || m[k] == ' ')
  }

  lemma {:induction false} HashesAgree(m: string, s: string, i: nat)
    requires MaskOf(m, s) && i <= |s| && i + Hashes(m, i) < |m| && m[i + Hashes(m, i)] == '"'
    ensures Hashes(s, i) == Hashes(m, i)
    decreases |s| - i
  {
    if i < |m| && m[i] == '#' {
      HashesAgree(m, s, i + 1);
    }
  }

  lemma {:induction false} HexRunAgrees(m: string, s: string, i: nat)
    requires MaskOf(m, s) && i <= |s| && HexRun(m, i) < |m| && m[HexRun(m, i)] == '}'
    ensures HexRun(s, i) == HexRun(m, i)
    decreases |s| - i
  {
    if i < |m| && (Hex(m[i]) || m[i] == '_') {
      HexRunAgrees(m, s, i + 1);
    }
  }

  /** A pattern without blanks that shows in the masked text was there in the source. */
  lemma StartsAgree(m: string, s: string, pattern: string, i: nat)
    requires MaskOf(m, s) && ' ' !in pattern && StartsWith(m, pattern, i)
    ensures StartsWith(s, pattern, i)
  {
    forall k | 0 <= k < |pattern| ensures s[i + k] == pattern[k] {
      assert m[i..i + |pattern|][k] == m[i + k];
      assert pattern[k] in pattern;
    }
    assert s[i..i + |pattern|] == pattern;
  }

  lemma RawPrefixAgrees(m: string, s: string, i: nat)
    requires MaskOf(m, s) && RawPrefix(m, i) > 0
    ensures RawPrefix(s, i) == RawPrefix(m, i)
  {
    hide MaskOf;
    if StartsWith(m, "br", i) { StartsAgree(m, s, "br", i); }
    else if StartsWith(m, "cr", i) { StartsAgree(m, s, "cr", i); }
    else {
      StartsAgree(m, s, "r", i);
      StartsWithFirst(s, "r", i);
      if StartsWith(s, "br", i) { StartsWithFirst(s, "br", i); }
      if StartsWith(s, "cr", i) { StartsWithFirst(s, "cr", i); }
    }
  }

  lemma RawAgrees(m: string, s: string, i: nat)
    requires MaskOf(m, s) && RawOpens(m, i)
    ensures RawOpens(s, i)
  {
    hide MaskOf, RawPrefix, StartsWith;
    var body := i + RawPrefix(m, i);
    RawPrefixAgrees(m, s, i);
    HashesFollow(m, s, body);
    StartsAgree(m, s, "\"", body + Hashes(m, body));
  }

  lemma HashesFollow(m: string, s: string, body: nat)
    requires MaskOf(m, s) && StartsWith(m, "\"", body + Hashes(m, body))
    ensures Hashes(s, body) == Hashes(m, body)
  {
    StartsWithFirst(m, "\"", body + Hashes(m, body));
    HashesAgree(m, s, body);
  }

  lemma UnicodeAgrees(m: string, s: string, i: nat)
    requires MaskOf(m, s) && UnicodeChar(m, i)
    ensures UnicodeChar(s, i)
  {
    StartsAgree(m, s, "'\\u{", i);
    var end := HexRun(m, i + 4);
    assert m[end..end + 2][0] == m[end];
    HexRunAgrees(m, s, i + 4);
    StartsAgree(m, s, "}'", end);
  }

  lemma HexCharAgrees(m: string, s: string, i: nat)
    requires MaskOf(m, s) && HexChar(m, i)
    ensures HexChar(s, i)
  {
    StartsAgree(m, s, "'\\x", i);
  }

  /** The two one-character forms are the only ones a blank could complete, and it would be a lone one. */
  lemma EscapedAgrees(s: string, i: nat)
    requires i < |s| && |Mask(s)| == |s| && EscapedChar(Mask(s), i)
    ensures EscapedChar(s, i)
  {
    hide TokenEnd;
    var m := Mask(s);
    MaskShape(s);
    assert MaskOf(m, s);
    StartsAgree(m, s, "'\\", i);
    assert m[i..i + 2][1] == m[i + 1];
    assert !Hidden(s, i + 1) && !Hidden(s, i + 3);
    if Hidden(s, i + 2) { NoLoneBlank(s, i + 1); }
  }

  lemma PlainAgrees(s: string, i: nat)
    requires i < |s| && |Mask(s)| == |s| && PlainChar(Mask(s), i)
    ensures PlainChar(s, i)
  {
    hide TokenEnd;
    MaskShape(s);
    assert !Hidden(s, i) && !Hidden(s, i + 2);
    if Hidden(s, i + 1) { NoLoneBlank(s, i); }
  }

  lemma BlankIsCode(m: string, p: nat)
    requires p < |m| && (m[p] == ' ' || m[p] == '\n')
    ensures IsCode(m, p)
  {
    if StartsWith(m, "//", p) { StartsWithFirst(m, "//", p); }
    if StartsWith(m, "/*", p) { StartsWithFirst(m, "/*", p); }
    if StartsWith(m, "br", p) { StartsWithFirst(m, "br", p); }
    if StartsWith(m, "cr", p) { StartsWithFirst(m, "cr", p); }
    if StartsWith(m, "r", p) { StartsWithFirst(m, "r", p); }
    if UnicodeChar(m, p) { StartsWithFirst(m, "'\\u{", p); }
    if HexChar(m, p) { StartsWithFirst(m, "'\\x", p); }
    if EscapedChar(m, p) { StartsWithFirst(m, "'\\", p); }
  }

  /** No comment, string or character literal starts anywhere in a masked text. */
  lemma NothingLeft(s: string, p: nat)
    requires p < |s|
    ensures |Mask(s)| == |s| && IsCode(Mask(s), p)
  {
    var m := Mask(s);
    MaskShape(s);
    if Hidden(s, p) {
      BlankIsCode(m, p);
    } else {
      OverCode(s, 0, p);
      VisibleStaysCode(s, p);
    }
  }

  lemma VisibleStaysCode(s: string, p: nat)
    requires p < |s| && |Mask(s)| == |s| && MaskOf(Mask(s), s) && Mask(s)[p] == s[p] && IsCode(s, p)
    ensures IsCode(Mask(s), p)
  {
    hide Mask, UnicodeChar, HexChar, EscapedChar, PlainChar, RawOpens, Find, BlockEnd, RawEnd, StringEnd;
    var m := Mask(s);
    NoneStarts(s, p);
    if StartsWith(m, "//", p) { StartsAgree(m, s, "//", p); }
    if StartsWith(m, "/*", p) { StartsAgree(m, s, "/*", p); }
    if RawOpens(m, p) { RawAgrees(m, s, p); }
    if UnicodeChar(m, p) { UnicodeAgrees(m, s, p); }
    if HexChar(m, p) { HexCharAgrees(m, s, p); }
    if EscapedChar(m, p) { EscapedAgrees(s, p); }
    if PlainChar(m, p) { PlainAgrees(s, p); }
  }

  /** At a code position none of the seven openings matches. */
  lemma NoneStarts(s: string, p: nat)
    requires p < |s| && IsCode(s, p)
    ensures !StartsWith(s, "//", p) && !StartsWith(s, "/*", p) && !RawOpens(s, p) && s[p] != '"'
    ensures !UnicodeChar(s, p) && !HexChar(s, p) && !EscapedChar(s, p) && !PlainChar(s, p)
  {
    if StartsWith(s, "//", p) { FindSkips(s, p); }
  }

  lemma {:induction false} AllCode(m: string, i: nat)
    requires i <= |m| && forall p :: i <= p < |m| ==> IsCode(m, p)
    ensures MaskFrom(m, i) == m[i..]
    decreases |m| - i
  {
    hide TokenEnd;
    if i < |m| {
      AllCode(m, i + 1);
      assert m[i..] == [m[i]] + m[i + 1..];
    }
  }

  /** Masking is idempotent. */
  lemma MaskIdempotent(s: string)
    ensures Mask(Mask(s)) == Mask(s)
  {
    hide TokenEnd, Mask;
    var m := Mask(s);
    MaskShape(s);
    forall p | 0 <= p < |m| ensures IsCode(m, p) { NothingLeft(s, p); }
    MaskIsMaskFrom(m);
    AllCode(m, 0);
  }

  lemma MaskIsMaskFrom(s: string)
    ensures Mask(s) == MaskFrom(s, 0)
  {
  }

  // ----- the line a policy violation is reported on

  function Lines(s: string): nat {
    if s == "" then 0 else Lines(s[..|s| - 1]) + if s[|s| - 1] == '\n' then 1 else 0
  }

  /** An offset found in the masked text is on the same line of the source. */
  lemma {:induction false} SameLine(s: string, offset: nat)
    requires offset <= |s|
    ensures |Mask(s)| == |s| && Lines(Mask(s)[..offset]) == Lines(s[..offset])
  {
    MaskShape(s);
    var m := Mask(s);
    if offset > 0 {
      SameLine(s, offset - 1);
      assert m[..offset][..offset - 1] == m[..offset - 1] && s[..offset][..offset - 1] == s[..offset - 1];
    }
  }

  // ----- tokens as a program writes them are recognised to their end

  /** The inside of a block comment: characters and nested comments. */
  datatype Body = End | Char(c: char, rest: Body) | Nest(inner: Body, rest: Body)

  function Render(b: Body): string {
    match b
    case End => ""
    case Char(c, rest) => [c] + Render(rest)
    case Nest(inner, rest) => "/*" + Render(inner) + "*/" + Render(rest)
  }

  /** The character after a position, the comment's own closing included. */
  function Next(b: Body): char {
    match b
    case End => '*'
    case Char(c, _) => c
    case Nest(_, _) => '/'
  }

  /** No character of the comment's own text forms a delimiter with the one after it. */
  predicate Clear(b: Body) {
    match b
    case End => true
    case Char(c, rest) => !(c == '/' && Next(rest) == '*') && !(c == '*' && Next(rest) == '/') && Clear(rest)
    case Nest(inner, rest) => Clear(inner) && Clear(rest)
  }

  predicate Shows(s: string, i: nat, text: string) {
    i + |text| <= |s| && forall k | 0 <= k < |text| :: s[i + k] == text[k]
  }

  lemma ShowsParts(s: string, i: nat, a: string, b: string)
    requires Shows(s, i, a + b)
    ensures Shows(s, i, a) && Shows(s, i + |a|, b)
  {
    forall k | 0 <= k < |a| ensures s[i + k] == a[k] { assert (a + b)[k] == a[k]; }
    forall k | 0 <= k < |b| ensures s[i + |a| + k] == b[k] { assert (a + b)[|a| + k] == b[k]; }
  }

  lemma ShowsHead(s: string, i: nat, c: char, rest: string)
    requires Shows(s, i, [c] + rest)
    ensures i < |s| && s[i] == c && Shows(s, i + 1, rest)
  {
    ShowsParts(s, i, [c], rest);
    assert s[i + 0] == [c][0];
  }

  lemma StartsWithFirst(s: string, pattern: string, i: nat)
    requires pattern != "" && StartsWith(s, pattern, i)
    ensures s[i] == pattern[0]
  {
    assert s[i..i + |pattern|][0] == s[i];
  }

  lemma ShowsStarts(s: string, i: nat, text: string)
    requires Shows(s, i, text)
    ensures StartsWith(s, text, i)
  {
    assert s[i..i + |text|] == text;
  }

  lemma BlockCloses(s: string, i: nat, depth: nat)
    requires depth > 0 && Shows(s, i, "*/")
    ensures i + 2 <= |s| && BlockEnd(s, i, depth) == BlockEnd(s, i + 2, depth - 1)
  {
    ShowsStarts(s, i, "*/");
    StartsWithFirst(s, "*/", i);
    if StartsWith(s, "/*", i) { StartsWithFirst(s, "/*", i); }
  }

  lemma BlockOpens(s: string, i: nat, depth: nat)
    requires depth > 0 && Shows(s, i, "/*")
    ensures i + 2 <= |s| && BlockEnd(s, i, depth) == BlockEnd(s, i + 2, depth + 1)
  {
    ShowsStarts(s, i, "/*");
  }

  lemma StartsWithSecond(s: string, pattern: string, i: nat)
    requires |pattern| >= 2 && StartsWith(s, pattern, i)
    ensures s[i] == pattern[0] && i + 1 < |s| && s[i + 1] == pattern[1]
  {
    assert s[i..i + |pattern|][0] == s[i] && s[i..i + |pattern|][1] == s[i + 1];
  }

  lemma BlockSkips(s: string, i: nat, depth: nat)
    requires depth > 0 && i + 1 < |s|
    requires !(s[i] == '/' && s[i + 1] == '*') && !(s[i] == '*' && s[i + 1] == '/')
    ensures BlockEnd(s, i, depth) == BlockEnd(s, i + 1, depth)
  {
    if StartsWith(s, "/*", i) { StartsWithSecond(s, "/*", i); }
    if StartsWith(s, "*/", i) { StartsWithSecond(s, "*/", i); }
  }

  lemma NextShown(s: string, i: nat, b: Body)
    requires Shows(s, i, Render(b) + "*/")
    ensures i < |s| && s[i] == Next(b)
  {
    assert (Render(b) + "*/")[0] == Next(b);
    assert s[i + 0] == (Render(b) + "*/")[0];
  }

  lemma NestParts(s: string, i: nat, inner: Body, rest: Body)
    requires Shows(s, i, Render(Nest(inner, rest)) + "*/")
    ensures Shows(s, i, "/*") && Shows(s, i + 2, Render(inner) + "*/")
    ensures Shows(s, i + 2 + |Render(inner)| + 2, Render(rest) + "*/")
  {
    hide Shows;
    var tail := Render(rest) + "*/";
    assert Render(Nest(inner, rest)) + "*/" == "/*" + ((Render(inner) + "*/") + tail);
    ShowsParts(s, i, "/*", (Render(inner) + "*/") + tail);
    ShowsParts(s, i + 2, Render(inner) + "*/", tail);
  }

  lemma {:induction false} NestedEnds(s: string, i: nat, depth: nat, b: Body)
    requires depth > 0 && Clear(b) && Shows(s, i, Render(b) + "*/")
    ensures i + |Render(b)| + 2 <= |s|
    ensures BlockEnd(s, i, depth) == BlockEnd(s, i + |Render(b)| + 2, depth - 1)
    decreases b
  {
    hide Shows, StartsWith, BlockEnd;
    match b
    case End =>
      assert Render(b) + "*/" == "*/";
      BlockCloses(s, i, depth);
    case Char(c, rest) =>
      assert Render(b) + "*/" == [c] + (Render(rest) + "*/");
      ShowsHead(s, i, c, Render(rest) + "*/");
      NextShown(s, i + 1, rest);
      BlockSkips(s, i, depth);
      NestedEnds(s, i + 1, depth, rest);
    case Nest(inner, rest) =>
      NestParts(s, i, inner, rest);
      BlockOpens(s, i, depth);
      NestedEnds(s, i + 2, depth + 1, inner);
      NestedEnds(s, i + 2 + |Render(inner)| + 2, depth, rest);
  }

  /** A block comment is one token from its opening to the closing that matches it, however nested and whatever
      else it holds: stars and slashes too, as in documentation comments and paths. */
  lemma CommentIsOneToken(s: string, i: nat, b: Body)
    requires Clear(b) && i < |s| && Shows(s, i, "/*" + (Render(b) + "*/"))
    ensures TokenEnd(s, i) == i + |Render(b)| + 4
  {
    ShowsParts(s, i, "/*", Render(b) + "*/");
    ShowsStarts(s, i, "/*");
    assert s[i..i + 2][1] == '*';
    NestedEnds(s, i + 2, 1, b);
  }

  /** The bodies of `|parts|` enclosing comments, innermost first, each with its closing. */
  function Unwind(parts: seq<Body>): string {
    if parts == [] then "" else Render(parts[0]) + "*/" + Unwind(parts[1..])
  }

  predicate AllClear(parts: seq<Body>) {
    forall k | 0 <= k < |parts| :: Clear(parts[k])
  }

  lemma ShowsJoin(s: string, i: nat, a: string, b: string)
    requires Shows(s, i, a) && Shows(s, i + |a|, b)
    ensures Shows(s, i, a + b)
  {
    forall k | 0 <= k < |a + b| ensures s[i + k] == (a + b)[k] {
      if k >= |a| { assert s[i + |a| + (k - |a|)] == b[k - |a|]; }
    }
  }

  lemma StartsShow(s: string, i: nat, text: string)
    requires StartsWith(s, text, i)
    ensures Shows(s, i, text)
  {
    forall k | 0 <= k < |text| ensures s[i + k] == text[k] { assert s[i..i + |text|][k] == s[i + k]; }
  }

  lemma OpenParses(s: string, i: nat, parts: seq<Body>) returns (nested: seq<Body>)
    requires StartsWith(s, "/*", i) && |parts| >= 2 && AllClear(parts) && Shows(s, i + 2, Unwind(parts))
    ensures |nested| == |parts| - 1 && AllClear(nested) && Shows(s, i, Unwind(nested))
    ensures |Unwind(nested)| == |Unwind(parts)| + 2
  {
    hide Shows, StartsWith;
    nested := [Nest(parts[0], parts[1])] + parts[2..];
    assert parts[1..][1..] == parts[2..] && nested[1..] == parts[2..];
    assert Unwind(parts) == Render(parts[0]) + "*/" + (Render(parts[1]) + "*/" + Unwind(parts[2..]));
    StartsShow(s, i, "/*");
    ShowsJoin(s, i, "/*", Unwind(parts));
    assert Unwind(nested) == "/*" + Unwind(parts);
  }

  lemma CharParses(s: string, i: nat, parts: seq<Body>) returns (longer: seq<Body>)
    requires i < |s| && parts != [] && AllClear(parts) && Shows(s, i + 1, Unwind(parts))
    requires !StartsWith(s, "/*", i) && !StartsWith(s, "*/", i)
    ensures |longer| == |parts| && AllClear(longer) && Shows(s, i, Unwind(longer))
    ensures |Unwind(longer)| == |Unwind(parts)| + 1
  {
    hide StartsWith, Shows;
    var tail := Unwind(parts[1..]);
    ShowsParts(s, i + 1, Render(parts[0]) + "*/", tail);
    NextShown(s, i + 1, parts[0]);
    NotStarting(s, i, Next(parts[0]));
    longer := [Char(s[i], parts[0])] + parts[1..];
    assert longer[1..] == parts[1..];
    assert Unwind(longer) == [s[i]] + Unwind(parts);
    assert Shows(s, i, [s[i]]) by { OneShown(s, i); }
    ShowsJoin(s, i, [s[i]], Unwind(parts));
  }

  lemma OneShown(s: string, i: nat)
    requires i < |s|
    ensures Shows(s, i, [s[i]])
  {
  }

  lemma NotStarting(s: string, i: nat, next: char)
    requires i + 1 < |s| && s[i + 1] == next && !StartsWith(s, "/*", i) && !StartsWith(s, "*/", i)
    ensures !(s[i] == '/' && next == '*') && !(s[i] == '*' && next == '/')
  {
    assert s[i..i + 2] == [s[i], s[i + 1]];
  }

  lemma CloseParses(s: string, i: nat, parts: seq<Body>) returns (longer: seq<Body>)
    requires StartsWith(s, "*/", i) && AllClear(parts) && Shows(s, i + 2, Unwind(parts))
    ensures |longer| == |parts| + 1 && AllClear(longer) && Shows(s, i, Unwind(longer))
    ensures |Unwind(longer)| == |Unwind(parts)| + 2
  {
    hide StartsWith, Shows;
    longer := [End] + parts;
    assert longer[1..] == parts;
    StartsShow(s, i, "*/");
    ShowsJoin(s, i, "*/", Unwind(parts));
    assert Unwind(longer) == "*/" + Unwind(parts);
  }

  /** What the scanner passed before it closed `depth` comments parses as their bodies. */
  lemma {:induction false} BlockParses(s: string, i: nat, depth: nat) returns (parts: seq<Body>)
    requires i <= |s| && BlockEnd(s, i, depth) < |s|
    ensures |parts| == depth && AllClear(parts) && Shows(s, i, Unwind(parts))
    ensures BlockEnd(s, i, depth) == i + |Unwind(parts)|
    decreases |s| - i
  {
    hide Unwind, Shows, AllClear, StartsWith;
    if depth == 0 {
      parts := [];
      NothingShown(s, i);
    } else if StartsWith(s, "/*", i) {
      StartsWithSecond(s, "/*", i);
      var inner := BlockParses(s, i + 2, depth + 1);
      parts := OpenParses(s, i, inner);
    } else if StartsWith(s, "*/", i) {
      StartsWithSecond(s, "*/", i);
      var outer := BlockParses(s, i + 2, depth - 1);
      parts := CloseParses(s, i, outer);
    } else {
      var later := BlockParses(s, i + 1, depth);
      parts := CharParses(s, i, later);
    }
  }

  lemma NothingShown(s: string, i: nat)
    requires i <= |s|
    ensures AllClear([]) && Shows(s, i, Unwind([])) && Unwind([]) == ""
  {
  }

  predicate CommentAt(s: string, i: nat, b: Body, end: nat) {
    Clear(b) && Shows(s, i, "/*" + (Render(b) + "*/")) && end == i + |Render(b)| + 4
  }

  /** A token that starts a block comment ends, before the end of the text, exactly where a comment of the nested
      grammar does. */
  lemma CommentTokens(s: string, i: nat, end: nat)
    requires StartsWith(s, "/*", i) && end < |s|
    ensures TokenEnd(s, i) == end <==> exists b :: CommentAt(s, i, b, end)
  {
    hide Shows, StartsWith, BlockEnd;
    StartsWithSecond(s, "/*", i);
    BlockToken(s, i);
    if TokenEnd(s, i) == end {
      var parts := BlockParses(s, i + 2, 1);
      assert parts[1..] == [] && Unwind(parts[1..]) == "";
      assert Unwind(parts) == Render(parts[0]) + "*/";
      StartsShow(s, i, "/*");
      ShowsJoin(s, i, "/*", Unwind(parts));
      assert CommentAt(s, i, parts[0], end);
    }
    if b :| CommentAt(s, i, b, end) {
      CommentIsOneToken(s, i, b);
    }
  }

  lemma BlockToken(s: string, i: nat)
    requires StartsWith(s, "/*", i)
    ensures TokenEnd(s, i) == BlockEnd(s, i + 2, 1)
  {
    StartsWithSecond(s, "/*", i);
    if StartsWith(s, "//", i) { StartsWithSecond(s, "//", i); }
  }

  /** String contents with quotes and backslashes escaped. */
  function Escape(text: string): string {
    if text == "" then ""
    else (if text[0] == '"' || text[0] == '\\' then ['\\', text[0]] else [text[0]]) + Escape(text[1..])
  }

  lemma {:induction false} EscapedEnds(s: string, i: nat, text: string)
    requires Shows(s, i, Escape(text) + "\"")
    ensures StringEnd(s, i) == i + |Escape(text)| + 1
    decreases |text|
  {
    if text == "" {
      assert Escape(text) + "\"" == "\"";
      ShowsStarts(s, i, "\"");
      assert s[i] == '"';
    } else {
      var tail := Escape(text[1..]) + "\"";
      var head := if text[0] == '"' || text[0] == '\\' then ['\\', text[0]] else [text[0]];
      assert Escape(text) + "\"" == head + tail;
      ShowsParts(s, i, head, tail);
      assert s[i] == head[0];
      EscapedEnds(s, i + |head|, text[1..]);
    }
  }

  /** An escaped string literal is one token from quote to quote, whatever its contents. */
  lemma StringIsOneToken(s: string, i: nat, text: string)
    requires i < |s| && Shows(s, i, "\"" + (Escape(text) + "\""))
    ensures TokenEnd(s, i) == i + |Escape(text)| + 2
  {
    ShowsHead(s, i, '"', Escape(text) + "\"");
    if StartsWith(s, "//", i) { StartsWithFirst(s, "//", i); }
    if StartsWith(s, "/*", i) { StartsWithFirst(s, "/*", i); }
    if StartsWith(s, "br", i) { StartsWithFirst(s, "br", i); }
    if StartsWith(s, "cr", i) { StartsWithFirst(s, "cr", i); }
    if StartsWith(s, "r", i) { StartsWithFirst(s, "r", i); }
    EscapedEnds(s, i + 1, text);
  }

  // ----- raw strings

  predicate RawName(prefix: string) {
    prefix == "r" || prefix == "br" || prefix == "cr"
  }

  /** What ends a raw string with that many hashes. */
  function Stop(hashes: nat): (r: string)
    ensures |r| == hashes + 1
  {
    "\"" + Repeat('#', hashes)
  }

  /** The contents do not end the string early. */
  predicate Inside(content: string, hashes: nat) {
    forall k | 0 <= k <= |content| :: !StartsWith(content, Stop(hashes), k)
  }

  lemma PrefixShown(s: string, i: nat, prefix: string, rest: string)
    requires RawName(prefix) && Shows(s, i, prefix + rest)
    ensures i < |s| && RawPrefix(s, i) == |prefix| && Shows(s, i + |prefix|, rest)
    ensures !StartsWith(s, "//", i) && !StartsWith(s, "/*", i)
  {
    ShowsParts(s, i, prefix, rest);
    ShowsStarts(s, i, prefix);
    assert s[i + 0] == prefix[0];
    if StartsWith(s, "br", i) { StartsWithFirst(s, "br", i); }
    if StartsWith(s, "cr", i) { StartsWithFirst(s, "cr", i); }
    if StartsWith(s, "//", i) { StartsWithFirst(s, "//", i); }
    if StartsWith(s, "/*", i) { StartsWithFirst(s, "/*", i); }
  }

  lemma {:induction false} HashesShown(s: string, i: nat, n: nat, rest: string)
    requires Shows(s, i, Repeat('#', n) + ("\"" + rest))
    ensures Hashes(s, i) == n && StartsWith(s, "\"", i + n) && Shows(s, i + n + 1, rest)
    decreases n
  {
    if n == 0 {
      assert Repeat('#', 0) + ("\"" + rest) == "\"" + rest;
      ShowsParts(s, i, "\"", rest);
      ShowsStarts(s, i, "\"");
      StartsWithFirst(s, "\"", i);
    } else {
      assert Repeat('#', n) + ("\"" + rest) == ['#'] + (Repeat('#', n - 1) + ("\"" + rest));
      ShowsHead(s, i, '#', Repeat('#', n - 1) + ("\"" + rest));
      HashesShown(s, i + 1, n - 1, rest);
    }
  }

  lemma HashShown(s: string, p: nat, hashes: nat, j: nat)
    requires Shows(s, p, Stop(hashes)) && 0 < j <= hashes
    ensures s[p + j] == '#'
  {
    assert Stop(hashes)[j] == Repeat('#', hashes)[j - 1];
  }

  lemma StopWithin(s: string, i: nat, content: string, rest: string, hashes: nat, p: nat)
    requires Shows(s, i, content + rest) && Shows(s, p, Stop(hashes)) && i <= p && p + hashes + 1 <= i + |content|
    ensures StartsWith(content, Stop(hashes), p - i)
  {
    ShowsParts(s, i, content, rest);
    var stop, k := Stop(hashes), p - i;
    forall j | 0 <= j < |stop| ensures content[k + j] == stop[j] { assert s[i + (k + j)] == s[p + j]; }
    ShowsStarts(content, k, stop);
  }

  /** No earlier end: one that ran past the contents would have a quote where a hash must be. */
  lemma NoEarlyStop(s: string, i: nat, content: string, hashes: nat, p: nat)
    requires Inside(content, hashes) && Shows(s, i, content + Stop(hashes)) && i <= p < i + |content|
    ensures !StartsWith(s, Stop(hashes), p)
  {
    QuoteAfter(s, i, content, hashes);
    hide StartsWith, Shows;
    if StartsWith(s, Stop(hashes), p) {
      StartsShow(s, p, Stop(hashes));
      if p + hashes + 1 <= i + |content| {
        StopWithin(s, i, content, Stop(hashes), hashes, p);
      } else {
        HashShown(s, p, hashes, i + |content| - p);
      }
    }
  }

  lemma QuoteAfter(s: string, i: nat, content: string, hashes: nat)
    requires Shows(s, i, content + Stop(hashes))
    ensures i + |content| < |s| && s[i + |content|] == '"'
  {
    ShowsParts(s, i, content, Stop(hashes));
    assert s[i + |content| + 0] == Stop(hashes)[0];
  }

  lemma FindIs(s: string, pattern: string, i: nat, at: nat)
    requires pattern != "" && i <= at < |s| && StartsWith(s, pattern, at)
    requires forall p | i <= p < at :: !StartsWith(s, pattern, p)
    ensures Find(s, pattern, i) == at
  {
    hide StartsWith;
    var r := Find(s, pattern, i);
    assert r == at || r < at || at < r;
  }

  lemma StopFound(s: string, i: nat, content: string, hashes: nat)
    requires Inside(content, hashes) && Shows(s, i, content + Stop(hashes))
    ensures i + |content| < |s| && Find(s, Stop(hashes), i) == i + |content|
  {
    hide StartsWith, Shows, Inside;
    QuoteAfter(s, i, content, hashes);
    ShowsParts(s, i, content, Stop(hashes));
    ShowsStarts(s, i + |content|, Stop(hashes));
    forall p | i <= p < i + |content| ensures !StartsWith(s, Stop(hashes), p) {
      NoEarlyStop(s, i, content, hashes, p);
    }
    FindIs(s, Stop(hashes), i, i + |content|);
  }

  /** A raw string literal is one token, whatever it holds short of its own end. */
  lemma RawIsOneToken(s: string, i: nat, prefix: string, hashes: nat, content: string)
    requires RawName(prefix) && Inside(content, hashes)
    requires Shows(s, i, prefix + (Repeat('#', hashes) + ("\"" + (content + Stop(hashes)))))
    ensures i < |s| && TokenEnd(s, i) == i + |prefix| + hashes + 1 + |content| + 1 + hashes
  {
    hide Shows, StartsWith, Inside, RawPrefix;
    var rest := content + Stop(hashes);
    PrefixShown(s, i, prefix, Repeat('#', hashes) + ("\"" + rest));
    HashesShown(s, i + |prefix|, hashes, rest);
    StopFound(s, i + |prefix| + hashes + 1, content, hashes);
  }
}
