/** Where the scanner's tokens end, told by the grammar of each token alone: together with the block comments of
    `RustMask`, what `masked` takes for a token and what it leaves as code, for every text. */
module RustTokens {
  import opened RustMask
  import opened Wrappers

  // ----- line comments

  /** A line comment is one token up to the end of its line, or of the text. */
  lemma LineCommentIsOneToken(s: string, i: nat, text: string)
    requires '\n' !in text && Shows(s, i, "//" + text)
    requires i + 2 + |text| == |s| || s[i + 2 + |text|] == '\n'
    ensures i < |s| && TokenEnd(s, i) == i + 2 + |text|
  {
    var end := i + 2 + |text|;
    ShowsParts(s, i, "//", text);
    ShowsStarts(s, i, "//");
    StartsWithSecond(s, "//", i);
    forall p | i <= p < end ensures !StartsWith(s, "\n", p) {
      if StartsWith(s, "\n", p) {
        StartsWithFirst(s, "\n", p);
        LineHasNoBreak(s, i, text, p);
      }
    }
    if end < |s| {
      assert s[end..end + 1] == "\n";
      FindIs(s, "\n", i, end);
    } else {
      FindNowhere(s, "\n", i);
    }
  }

  lemma LineHasNoBreak(s: string, i: nat, text: string, p: nat)
    requires '\n' !in text && Shows(s, i, "//" + text) && i <= p < i + 2 + |text|
    ensures s[p] != '\n'
  {
    var all := "//" + text;
    assert s[i + (p - i)] == all[p - i];
    if p >= i + 2 { assert all[p - i] == text[p - i - 2]; }
  }

  lemma FindNowhere(s: string, pattern: string, i: nat)
    requires pattern != "" && i <= |s| && forall p | i <= p < |s| :: !StartsWith(s, pattern, p)
    ensures Find(s, pattern, i) == |s|
  {
    hide StartsWith;
    var r := Find(s, pattern, i);
  }

  // ----- strings

  /** A string's contents: characters other than the quote and the backslash, and escapes of any character. */
  datatype Piece = Plain(c: char) | Escape(c: char)

  function Written(pieces: seq<Piece>): string {
    if pieces == [] then ""
    else (match pieces[0] case Plain(c) => [c] case Escape(c) => ['\\', c]) + Written(pieces[1..])
  }

  predicate WellWritten(pieces: seq<Piece>) {
    forall k | 0 <= k < |pieces| && pieces[k].Plain? :: pieces[k].c != '"' && pieces[k].c != '\\'
  }

  predicate StringAt(s: string, i: nat, pieces: seq<Piece>, end: nat) {
    WellWritten(pieces) && Shows(s, i, "\"" + (Written(pieces) + "\"")) && end == i + |Written(pieces)| + 2
  }

  lemma {:induction false} PiecesEnd(s: string, i: nat, pieces: seq<Piece>)
    requires WellWritten(pieces) && Shows(s, i, Written(pieces) + "\"")
    ensures StringEnd(s, i) == i + |Written(pieces)| + 1
    decreases |pieces|
  {
    if pieces == [] {
      assert Written(pieces) + "\"" == "\"";
      ShowsHead(s, i, '"', "");
    } else {
      var tail := Written(pieces[1..]) + "\"";
      match pieces[0]
      case Plain(c) =>
        assert Written(pieces) + "\"" == [c] + tail;
        ShowsHead(s, i, c, tail);
        PiecesEnd(s, i + 1, pieces[1..]);
      case Escape(c) =>
        assert Written(pieces) + "\"" == ['\\'] + ([c] + tail);
        ShowsHead(s, i, '\\', [c] + tail);
        ShowsHead(s, i + 1, c, tail);
        PiecesEnd(s, i + 2, pieces[1..]);
    }
  }

  lemma QuoteStartsString(s: string, i: nat)
    requires i < |s| && s[i] == '"'
    ensures TokenEnd(s, i) == StringEnd(s, i + 1)
  {
    hide StringEnd, RawEnd, BlockEnd, Find;
    if StartsWith(s, "//", i) { StartsWithFirst(s, "//", i); }
    if StartsWith(s, "/*", i) { StartsWithFirst(s, "/*", i); }
    if StartsWith(s, "br", i) { StartsWithFirst(s, "br", i); }
    if StartsWith(s, "cr", i) { StartsWithFirst(s, "cr", i); }
    if StartsWith(s, "r", i) { StartsWithFirst(s, "r", i); }
  }

  /** A string literal, with any escapes, is one token from quote to quote. */
  lemma LiteralIsOneToken(s: string, i: nat, pieces: seq<Piece>, end: nat)
    requires StringAt(s, i, pieces, end)
    ensures i < |s| && TokenEnd(s, i) == end
  {
    hide TokenEnd;
    ShowsHead(s, i, '"', Written(pieces) + "\"");
    QuoteStartsString(s, i);
    PiecesEnd(s, i + 1, pieces);
  }

  lemma {:induction false} StringParses(s: string, i: nat) returns (pieces: seq<Piece>)
    requires i <= |s| && StringEnd(s, i) < |s|
    ensures WellWritten(pieces) && Shows(s, i, Written(pieces) + "\"")
    ensures StringEnd(s, i) == i + |Written(pieces)| + 1
    decreases |s| - i
  {
    if s[i] == '"' {
      pieces := [];
      assert Written(pieces) + "\"" == "\"";
    } else {
      var step := if s[i] == '\\' then 2 else 1;
      var rest := StringParses(s, i + step);
      var piece := if s[i] == '\\' then Escape(s[i + 1]) else Plain(s[i]);
      pieces := [piece] + rest;
      assert pieces[1..] == rest;
      var head := if s[i] == '\\' then ['\\', s[i + 1]] else [s[i]];
      assert Shows(s, i, head);
      ShowsJoin(s, i, head, Written(rest) + "\"");
      assert Written(pieces) + "\"" == head + (Written(rest) + "\"");
    }
  }

  /** A token that starts with a quote ends, before the end of the text, exactly where a string literal does. */
  lemma StringTokens(s: string, i: nat, end: nat)
    requires i < |s| && s[i] == '"' && end < |s|
    ensures TokenEnd(s, i) == end <==> exists pieces :: StringAt(s, i, pieces, end)
  {
    hide TokenEnd, StringEnd, Shows;
    QuoteStartsString(s, i);
    if TokenEnd(s, i) == end {
      var pieces := StringParses(s, i + 1);
      assert Shows(s, i, "\"") by { OneShown(s, i); }
      ShowsJoin(s, i, "\"", Written(pieces) + "\"");
      assert StringAt(s, i, pieces, end);
    }
    if pieces :| StringAt(s, i, pieces, end) {
      LiteralIsOneToken(s, i, pieces, end);
    }
  }

  // ----- raw strings

  predicate RawAt(s: string, i: nat, prefix: string, hashes: nat, content: string, end: nat) {
    && RawName(prefix) && Inside(content, hashes)
    && Shows(s, i, prefix + (Repeat('#', hashes) + ("\"" + (content + Stop(hashes)))))
    && end == i + |prefix| + hashes + 1 + |content| + 1 + hashes
  }

  /** The opening of a raw string: its prefix, hashes and quote. */
  predicate RawOpeningAt(s: string, i: nat, prefix: string, hashes: nat) {
    RawName(prefix) && Shows(s, i, prefix + (Repeat('#', hashes) + "\""))
  }

  lemma {:induction false} HashesAreShown(s: string, i: nat)
    requires i <= |s|
    ensures Shows(s, i, Repeat('#', Hashes(s, i)))
    decreases |s| - i
  {
    if i < |s| && s[i] == '#' {
      HashesAreShown(s, i + 1);
      assert Repeat('#', Hashes(s, i)) == ['#'] + Repeat('#', Hashes(s, i + 1));
      OneShown(s, i);
      ShowsJoin(s, i, ['#'], Repeat('#', Hashes(s, i + 1)));
    } else {
      assert Repeat('#', 0) == "";
    }
  }

  lemma PrefixName(s: string, i: nat) returns (prefix: string)
    requires RawPrefix(s, i) > 0
    ensures RawName(prefix) && |prefix| == RawPrefix(s, i) && Shows(s, i, prefix)
  {
    prefix := if StartsWith(s, "br", i) then "br" else if StartsWith(s, "cr", i) then "cr" else "r";
    StartsShow(s, i, prefix);
  }

  /** The scanner takes for a raw string exactly what opens like one. */
  lemma RawOpenings(s: string, i: nat)
    ensures RawOpens(s, i) <==> exists prefix, hashes: nat :: RawOpeningAt(s, i, prefix, hashes)
  {
    hide StartsWith, Shows, RawPrefix, Hashes;
    if RawOpens(s, i) {
      var prefix := PrefixName(s, i);
      RawOpeningShown(s, i, prefix);
    }
    if prefix, hashes: nat :| RawOpeningAt(s, i, prefix, hashes) {
      PrefixShown(s, i, prefix, Repeat('#', hashes) + "\"");
      assert "\"" + "" == "\"";
      HashesShown(s, i + |prefix|, hashes, "");
    }
  }

  lemma RawOpeningShown(s: string, i: nat, prefix: string)
    requires RawOpens(s, i) && RawName(prefix) && |prefix| == RawPrefix(s, i) && Shows(s, i, prefix)
    ensures RawOpeningAt(s, i, prefix, Hashes(s, i + |prefix|))
  {
    hide StartsWith, Shows, RawPrefix, Hashes;
    var body := i + |prefix|;
    assert body <= |s| by { ShownFits(s, i, prefix); }
    var hashes := Hashes(s, body);
    HashesAreShown(s, body);
    StartsShow(s, body + hashes, "\"");
    ShowsJoin(s, body, Repeat('#', hashes), "\"");
    ShowsJoin(s, i, prefix, Repeat('#', hashes) + "\"");
  }

  lemma ShownFits(s: string, i: nat, text: string)
    requires Shows(s, i, text)
    ensures i + |text| <= |s|
  {
  }

  /** What lies between the opening and the first stop. */
  lemma ContentIsInside(s: string, open: nat, stop: nat, hashes: nat)
    requires open <= stop <= |s| && Find(s, Stop(hashes), open) == stop
    ensures Inside(s[open..stop], hashes)
  {
    var content := s[open..stop];
    forall k | 0 <= k <= |content| ensures !StartsWith(content, Stop(hashes), k) {
      if StartsWith(content, Stop(hashes), k) {
        StartsShow(content, k, Stop(hashes));
        assert Shows(s, open + k, Stop(hashes)) by {
          forall j | 0 <= j < |Stop(hashes)| ensures s[open + k + j] == Stop(hashes)[j] {
            assert content[k + j] == s[open + (k + j)];
          }
        }
        ShowsStarts(s, open + k, Stop(hashes));
      }
    }
  }

  lemma SliceShown(s: string, from: nat, to: nat)
    requires from <= to <= |s|
    ensures Shows(s, from, s[from..to])
  {
  }

  lemma RawParses(s: string, i: nat) returns (prefix: string, hashes: nat, content: string)
    requires RawOpens(s, i) && RawEnd(s, i) < |s|
    ensures RawAt(s, i, prefix, hashes, content, RawEnd(s, i))
  {
    hide StartsWith, Shows, RawPrefix, Hashes, Inside;
    prefix := PrefixName(s, i);
    RawOpeningShown(s, i, prefix);
    var body := i + |prefix|;
    hashes := Hashes(s, body);
    ShownFits(s, i, prefix + (Repeat('#', hashes) + "\""));
    var open := body + hashes + 1;
    var stop := Find(s, Stop(hashes), open);
    content := s[open..stop];
    ContentIsInside(s, open, stop, hashes);
    StartsShow(s, stop, Stop(hashes));
    SliceShown(s, open, stop);
    ShowsJoin(s, open, content, Stop(hashes));
    var first := prefix + (Repeat('#', hashes) + "\"");
    ShowsJoin(s, i, first, content + Stop(hashes));
    assert first + (content + Stop(hashes)) == prefix + (Repeat('#', hashes) + ("\"" + (content + Stop(hashes))));
  }

  lemma RawStartsToken(s: string, i: nat)
    requires RawOpens(s, i)
    ensures i < |s| && TokenEnd(s, i) == RawEnd(s, i)
  {
    hide RawEnd, BlockEnd, Find, StringEnd, Hashes;
    var prefix := PrefixName(s, i);
    assert prefix + "" == prefix;
    PrefixShown(s, i, prefix, "");
  }

  /** A token that opens like a raw string ends, before the end of the text, exactly where a raw string does. */
  lemma RawTokens(s: string, i: nat, end: nat)
    requires RawOpens(s, i) && end < |s|
    ensures i < |s|
    ensures TokenEnd(s, i) == end <==>
      exists prefix, hashes: nat, content :: RawAt(s, i, prefix, hashes, content, end)
  {
    hide TokenEnd, RawEnd, RawOpens;
    RawStartsToken(s, i);
    if TokenEnd(s, i) == end {
      var prefix, hashes, content := RawParses(s, i);
    }
    if prefix, hashes: nat, content :| RawAt(s, i, prefix, hashes, content, end) {
      RawIsOneToken(s, i, prefix, hashes, content);
    }
  }

  // ----- character literals

  /** The four forms of a character literal of `n` characters. */
  predicate CharAt(s: string, i: nat, n: nat) {
    && n >= 3 && i + n <= |s| && s[i] == '\'' && s[i + n - 1] == '\''
    && (|| (n == 3 && s[i + 1] !in {'\'', '\\', '\n'})
        || (n == 4 && s[i + 1] == '\\' && s[i + 2] != '\n')
        || (n == 6 && s[i + 1] == '\\' && s[i + 2] == 'x' && Hex(s[i + 3]) && Hex(s[i + 4]))
        || (n >= 7 && UnicodeBody(s, i, i + n - 2)))
  }

  /** Backslash, `u`, and hexadecimal digits or underscores in braces. */
  predicate UnicodeBody(s: string, i: nat, end: nat) {
    && i + 5 <= end < |s| && s[i + 1] == '\\' && s[i + 2] == 'u' && s[i + 3] == '{' && s[end] == '}'
    && forall k | i + 4 <= k < end :: Hex(s[k]) || s[k] == '_'
  }

  lemma {:induction false} HexRunIs(s: string, i: nat, end: nat)
    requires i <= end < |s| && !Hex(s[end]) && s[end] != '_'
    requires forall k | i <= k < end :: Hex(s[k]) || s[k] == '_'
    ensures HexRun(s, i) == end
    decreases end - i
  {
    if i < end { HexRunIs(s, i + 1, end); }
  }

  lemma {:induction false} HexRunHolds(s: string, i: nat)
    requires i <= |s|
    ensures forall k | i <= k < HexRun(s, i) :: Hex(s[k]) || s[k] == '_'
    decreases |s| - i
  {
    if i < |s| && (Hex(s[i]) || s[i] == '_') { HexRunHolds(s, i + 1); }
  }

  lemma StartsTwo(s: string, i: nat, a: char, b: char)
    ensures StartsWith(s, [a, b], i) <==> i + 1 < |s| && s[i] == a && s[i + 1] == b
  {
    if i + 1 < |s| { assert s[i..i + 2] == [s[i], s[i + 1]]; }
  }

  lemma StartsThree(s: string, i: nat, a: char, b: char, c: char)
    ensures StartsWith(s, [a, b, c], i) <==> i + 2 < |s| && s[i] == a && s[i + 1] == b && s[i + 2] == c
  {
    if i + 2 < |s| { assert s[i..i + 3] == [s[i], s[i + 1], s[i + 2]]; }
  }

  lemma StartsFour(s: string, i: nat, a: char, b: char, c: char, d: char)
    ensures StartsWith(s, [a, b, c, d], i)
      <==> i + 3 < |s| && s[i] == a && s[i + 1] == b && s[i + 2] == c && s[i + 3] == d
  {
    if i + 3 < |s| { assert s[i..i + 4] == [s[i], s[i + 1], s[i + 2], s[i + 3]]; }
  }

  lemma UnicodeForm(s: string, i: nat)
    ensures UnicodeChar(s, i) ==> CharAt(s, i, HexRun(s, i + 4) + 2 - i) && HexRun(s, i + 4) >= i + 5
    ensures forall n | n >= 7 && CharAt(s, i, n) :: UnicodeChar(s, i) && HexRun(s, i + 4) + 2 == i + n
  {
    hide StartsWith;
    StartsFour(s, i, '\'', '\\', 'u', '{');
    assert "'\\u{" == ['\'', '\\', 'u', '{'] && "}'" == ['}', '\''];
    if UnicodeChar(s, i) {
      StartsTwo(s, HexRun(s, i + 4), '}', '\'');
      HexRunHolds(s, i + 4);
    }
    forall n | n >= 7 && CharAt(s, i, n) ensures UnicodeChar(s, i) && HexRun(s, i + 4) + 2 == i + n {
      HexRunIs(s, i + 4, i + n - 2);
      StartsTwo(s, i + n - 2, '}', '\'');
    }
  }

  lemma HexForm(s: string, i: nat)
    ensures HexChar(s, i) <==> CharAt(s, i, 6)
  {
    hide StartsWith;
    StartsThree(s, i, '\'', '\\', 'x');
    assert "'\\x" == ['\'', '\\', 'x'];
  }

  lemma EscapedForm(s: string, i: nat)
    ensures EscapedChar(s, i) <==> CharAt(s, i, 4)
  {
    hide StartsWith;
    StartsTwo(s, i, '\'', '\\');
    assert "'\\" == ['\'', '\\'];
  }

  lemma OneForm(s: string, i: nat, n: nat, m: nat)
    requires CharAt(s, i, n) && CharAt(s, i, m)
    ensures n == m
  {
  }

  /** The character-literal expression matches exactly the four forms, each to its closing quote. */
  lemma CharTokens(s: string, i: nat, n: nat)
    requires i < |s| && n > 0
    ensures CharEnd(s, i) == i + n <==> CharAt(s, i, n)
  {
    UnicodeForm(s, i);
    HexForm(s, i);
    EscapedForm(s, i);
    assert PlainChar(s, i) <==> CharAt(s, i, 3);
    hide CharAt, UnicodeChar, HexChar, EscapedChar, PlainChar;
    var e := CharEnd(s, i);
    assert e > i ==> CharAt(s, i, e - i);
    if CharAt(s, i, n) {
      CharForms(s, i, n);
      if e > i { OneForm(s, i, n, e - i); }
    }
  }

  lemma CharForms(s: string, i: nat, n: nat)
    requires CharAt(s, i, n)
    ensures n == 3 || n == 4 || n == 6 || n >= 7
  {
  }

  // ----- code

  ghost predicate CharShown(s: string, i: nat) {
    exists n: nat :: CharAt(s, i, n)
  }

  ghost predicate RawShown(s: string, i: nat) {
    exists prefix, hashes: nat :: RawOpeningAt(s, i, prefix, hashes)
  }

  /** A position is left as code exactly when no comment, string, raw string or character literal starts there. */
  lemma CodeIsTheRest(s: string, i: nat)
    requires i < |s|
    ensures IsCode(s, i) <==>
      !Shows(s, i, "//") && !Shows(s, i, "/*") && !RawShown(s, i) && s[i] != '"' && !CharShown(s, i)
  {
    StartsShows(s, i, "//");
    StartsShows(s, i, "/*");
    RawOpenings(s, i);
    hide Shows, StartsWith, RawOpens, RawShown, CharAt, Find, BlockEnd, StringEnd, RawEnd, CharEnd;
    CharEnds(s, i);
    if StartsWith(s, "//", i) { FindSkips(s, i); }
    RawShownIs(s, i);
    RawEndSkips(s, i);
  }

  lemma StartsShows(s: string, i: nat, text: string)
    ensures StartsWith(s, text, i) <==> Shows(s, i, text)
  {
    if StartsWith(s, text, i) { StartsShow(s, i, text); }
    if Shows(s, i, text) { ShowsStarts(s, i, text); }
  }

  lemma RawShownIs(s: string, i: nat)
    ensures RawShown(s, i) <==> RawOpens(s, i)
  {
    hide RawOpens, RawOpeningAt;
    RawOpenings(s, i);
  }

  lemma RawEndSkips(s: string, i: nat)
    ensures RawOpens(s, i) ==> RawEnd(s, i) > i
  {
    hide StartsWith, Hashes;
  }

  lemma CharEnds(s: string, i: nat)
    requires i < |s|
    ensures CharEnd(s, i) == i <==> !CharShown(s, i)
  {
    hide CharAt, CharEnd;
    if CharEnd(s, i) > i { CharTokens(s, i, CharEnd(s, i) - i); }
    if n: nat :| CharAt(s, i, n) {
      assert n > 0 by { CharForms(s, i, n); }
      CharTokens(s, i, n);
    }
  }
}
