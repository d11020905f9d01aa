/**
 * The string primitives the extractor relies on: Python's notion of
 * whitespace, `str.strip`, `str.lower`, `str.splitlines`, `str.join` and
 * substring search, all restricted to ASCII.
 */
module Text {
  import opened Options

  /** `str.isspace()` and the regex class `\s` on ASCII: tab, line feed,
      vertical tab, form feed, carriage return, the separators 0x1C-0x1F
      and space. */
  predicate IsSpace(c: char) {
    (9 <= c as int <= 13) || (28 <= c as int <= 32)
  }

  /** The ASCII characters at which `str.splitlines()` breaks a string. */
  predicate IsLineBreak(c: char) {
    (10 <= c as int <= 13) || (28 <= c as int <= 30)
  }

  predicate IsDigit(c: char) {
    '0' <= c <= '9'
  }

  predicate IsLetter(c: char) {
    ('a' <= c <= 'z') || ('A' <= c <= 'Z')
  }

  /** The regex class `\w` on ASCII. */
  predicate IsWordChar(c: char) {
    IsLetter(c) || IsDigit(c) || c == '_'
  }

  predicate AllSpace(s: string) {
    forall i :: 0 <= i < |s| ==> IsSpace(s[i])
  }

  predicate AllDigits(s: string) {
    forall i :: 0 <= i < |s| ==> IsDigit(s[i])
  }

  /** Neither the first nor the last character is whitespace. */
  predicate IsStripped(s: string) {
    s == [] || (!IsSpace(s[0]) && !IsSpace(s[|s| - 1]))
  }

  function LowerChar(c: char): char {
    if 'A' <= c <= 'Z' then (c as int + 32) as char else c
  }

  /** `str.lower()` on ASCII. */
  function Lower(s: string): (r: string)
    ensures |r| == |s|
  {
    seq(|s|, i requires 0 <= i < |s| => LowerChar(s[i]))
  }

  /** Length of the run of characters satisfying `IsSpace` that starts at `i`. */
  function SpaceRun(s: string, i: nat): (n: nat)
    requires i <= |s|
    ensures i + n <= |s|
    decreases |s| - i
  {
    if i < |s| && IsSpace(s[i]) then 1 + SpaceRun(s, i + 1) else 0
  }

  /** Length of the run of ASCII digits that starts at `i`. */
  function DigitRun(s: string, i: nat): (n: nat)
    requires i <= |s|
    ensures i + n <= |s|
    decreases |s| - i
  {
    if i < |s| && IsDigit(s[i]) then 1 + DigitRun(s, i + 1) else 0
  }

  /** The run is whitespace, and whatever follows it is not. */
  lemma {:induction false} SpaceRunIsRun(s: string, i: nat)
    requires i <= |s|
    ensures forall k :: i <= k < i + SpaceRun(s, i) ==> IsSpace(s[k])
    ensures i + SpaceRun(s, i) == |s| || !IsSpace(s[i + SpaceRun(s, i)])
    decreases |s| - i
  {
    if i < |s| && IsSpace(s[i]) {
      SpaceRunIsRun(s, i + 1);
    }
  }

  /** The run is digits, and whatever follows it is not. */
  lemma {:induction false} DigitRunIsRun(s: string, i: nat)
    requires i <= |s|
    ensures forall k :: i <= k < i + DigitRun(s, i) ==> IsDigit(s[k])
    ensures i + DigitRun(s, i) == |s| || !IsDigit(s[i + DigitRun(s, i)])
    decreases |s| - i
  {
    if i < |s| && IsDigit(s[i]) {
      DigitRunIsRun(s, i + 1);
    }
  }

  /** No run of whitespace starting at `i` is longer than `SpaceRun(s, i)`. */
  lemma SpaceRunMaximal(s: string, i: nat, n: nat)
    requires i + n <= |s|
    requires forall k :: i <= k < i + n ==> IsSpace(s[k])
    ensures n <= SpaceRun(s, i)
  {
    SpaceRunIsRun(s, i);
    var r := SpaceRun(s, i);
    assert i + r == |s| || !IsSpace(s[i + r]);
  }

  /** No run of digits starting at `i` is longer than `DigitRun(s, i)`. */
  lemma DigitRunMaximal(s: string, i: nat, n: nat)
    requires i + n <= |s|
    requires forall k :: i <= k < i + n ==> IsDigit(s[k])
    ensures n <= DigitRun(s, i)
  {
    DigitRunIsRun(s, i);
    var r := DigitRun(s, i);
    assert i + r == |s| || !IsDigit(s[i + r]);
  }

  function TrimStart(s: string): (r: string)
    ensures |r| <= |s| && r == s[|s| - |r|..]
    ensures AllSpace(s[..|s| - |r|])
    ensures r == [] || !IsSpace(r[0])
    ensures |r| < |s| ==> IsSpace(s[0])
  {
    if s != [] && IsSpace(s[0]) then
      var r := TrimStart(s[1..]);
      assert s[1..][|s| - 1 - |r|..] == s[|s| - |r|..];
      assert forall k :: 0 < k < |s| - |r| ==> s[k] == s[1..][..|s| - 1 - |r|][k - 1];
      r
    else s
  }

  function TrimEnd(s: string): (r: string)
    ensures |r| <= |s| && r == s[..|r|]
    ensures AllSpace(s[|r|..])
    ensures r == [] || !IsSpace(r[|r| - 1])
    ensures |r| < |s| ==> IsSpace(s[|s| - 1])
  {
    if s != [] && IsSpace(s[|s| - 1]) then
      var r := TrimEnd(s[..|s| - 1]);
      assert s[..|s| - 1][..|r|] == s[..|r|];
      assert forall k :: |r| <= k < |s| - 1 ==> s[k] == s[..|s| - 1][|r|..][k - |r|];
      r
    else s
  }

  /** `str.strip()`: the string without its leading and trailing whitespace. */
  function Strip(s: string): (r: string)
    ensures IsStripped(r)
  {
    var t := TrimStart(s);
    var r := TrimEnd(t);
    assert r != [] ==> r[0] == t[0];
    r
  }

  /** What stripping removes: the stripped string is a stretch of `s` with
      only whitespace before and after it. */
  lemma StripTrims(s: string)
    ensures var r := Strip(s);
      exists a :: 0 <= a <= |s| - |r| && r == s[a..a + |r|] && AllSpace(s[..a]) && AllSpace(s[a + |r|..])
  {
    var t := TrimStart(s);
    var r := TrimEnd(t);
    var a := |s| - |t|;
    assert s[a..a + |r|] == t[..|r|];
    assert s[a + |r|..] == t[|r|..];
  }

  /** Stripping leaves nothing exactly when the string is all whitespace. */
  lemma StripBlank(s: string)
    ensures Strip(s) == [] <==> AllSpace(s)
  {
    var t := TrimStart(s);
    var r := TrimEnd(t);
    var n := |s| - |t|;
    if t != [] {
      assert t[0] == s[n];
    }
    if r == [] {
      assert t[|r|..] == t;
      assert t == [];
      assert s[..n] == s;
    }
  }

  /** Leading whitespace makes no difference to `strip()`. */
  lemma {:induction false} StripSkipsSpace(u: string, c: nat)
    requires c <= |u|
    requires forall k :: 0 <= k < c ==> IsSpace(u[k])
    ensures Strip(u[c..]) == Strip(u)
    decreases c
  {
    if c > 0 {
      StripDropsSpace(u);
      StripSkipsSpace(u[1..], c - 1);
      assert u[1..][c - 1..] == u[c..];
    }
  }

  /** One leading whitespace character makes no difference to stripping. */
  lemma StripDropsSpace(u: string)
    requires u != [] && IsSpace(u[0])
    ensures Strip(u[1..]) == Strip(u)
  {
    assert TrimStart(u) == TrimStart(u[1..]);
  }

  /** Stripping a stripped string changes nothing. */
  lemma StripStripped(s: string)
    requires IsStripped(s)
    ensures Strip(s) == s
  {
    var t := TrimStart(s);
    assert t == s;
    var r := TrimEnd(t);
    assert r == s;
  }

  /** `pat` occurs in `s` at position `i`. */
  predicate OccursAt(s: string, pat: string, i: nat) {
    i + |pat| <= |s| && s[i..i + |pat|] == pat
  }

  /** The leftmost occurrence of `pat` in `s` at or after `from` (`str.find`). */
  function IndexFrom(s: string, pat: string, from: nat): (r: Option<nat>)
    requires from <= |s|
    ensures r.Some? ==> from <= r.value && OccursAt(s, pat, r.value)
    decreases |s| - from
  {
    if OccursAt(s, pat, from) then Some(from)
    else if from == |s| then None
    else IndexFrom(s, pat, from + 1)
  }

  /** The search finds the leftmost occurrence, and finds none only when
      there is none. */
  lemma {:induction false} IndexFromIsLeftmost(s: string, pat: string, from: nat)
    requires from <= |s|
    ensures IndexFrom(s, pat, from).Some? ==> forall j :: from <= j < IndexFrom(s, pat, from).value ==> !OccursAt(s, pat, j)
    ensures IndexFrom(s, pat, from).None? <==> forall j :: from <= j <= |s| ==> !OccursAt(s, pat, j)
    decreases |s| - from
  {
    if !OccursAt(s, pat, from) && from < |s| {
      IndexFromIsLeftmost(s, pat, from + 1);
    }
  }

  function IndexOf(s: string, pat: string): Option<nat> {
    IndexFrom(s, pat, 0)
  }

  /** Python's `pat in s`. */
  predicate Contains(s: string, pat: string) {
    IndexOf(s, pat).Some?
  }

  /** `pat in s` holds exactly when `pat` occurs somewhere in `s`. */
  lemma ContainsIff(s: string, pat: string)
    ensures Contains(s, pat) <==> exists i :: 0 <= i <= |s| && OccursAt(s, pat, i)
  {
    IndexFromIsLeftmost(s, pat, 0);
  }

  /** The pieces of `s` between line breaks (`str.splitlines()`, which
      treats `\r\n` as one break and drops a trailing empty piece; the
      extra pieces this version makes are empty, and every caller drops
      blank pieces). */
  function SplitLines(s: string): (r: seq<string>)
    ensures |r| >= 1
  {
    if s == [] then [[]]
    else
      var rest := SplitLines(s[1..]);
      if IsLineBreak(s[0]) then [[]] + rest
      else [[s[0]] + rest[0]] + rest[1..]
  }

  /** Every piece is whitespace only. */
  predicate AllBlank(pieces: seq<string>) {
    forall k :: 0 <= k < |pieces| ==> AllSpace(pieces[k])
  }

  /** A line break is whitespace, so a string is blank exactly when all its
      lines are. */
  lemma {:induction false} SplitLinesBlank(s: string)
    ensures AllSpace(s) <==> AllBlank(SplitLines(s))
  {
    if s != [] {
      var t := s[1..];
      SplitLinesBlank(t);
      var rest := SplitLines(t);
      var r := SplitLines(s);
      AllSpaceCons(s[0], t);
      assert s == [s[0]] + t;
      if IsLineBreak(s[0]) {
        assert IsSpace(s[0]);
        assert r == [[]] + rest;
        AllBlankCons([], rest);
      } else {
        assert r == [[s[0]] + rest[0]] + rest[1..];
        assert rest == [rest[0]] + rest[1..];
        AllSpaceCons(s[0], rest[0]);
        AllBlankCons([s[0]] + rest[0], rest[1..]);
        AllBlankCons(rest[0], rest[1..]);
      }
    }
  }

  lemma AllBlankCons(x: string, rest: seq<string>)
    ensures AllBlank([x] + rest) <==> AllSpace(x) && AllBlank(rest)
  {
    var r := [x] + rest;
    assert r[0] == x;
    assert forall k :: 0 <= k < |rest| ==> rest[k] == r[k + 1];
  }

  lemma AllSpaceCons(c: char, t: string)
    ensures AllSpace([c] + t) <==> IsSpace(c) && AllSpace(t)
  {
    var s := [c] + t;
    assert s[0] == c;
    assert forall j :: 0 <= j < |t| ==> t[j] == s[j + 1];
  }

  /** The stripped, non-blank pieces, in order. */
  function NonBlankStripped(pieces: seq<string>): (r: seq<string>)
    ensures forall k :: 0 <= k < |r| ==> r[k] != [] && IsStripped(r[k])
    ensures r == [] <==> AllBlank(pieces)
  {
    if pieces == [] then []
    else
      var rest := NonBlankStripped(pieces[1..]);
      var line := Strip(pieces[0]);
      StripBlank(pieces[0]);
      assert pieces == [pieces[0]] + pieces[1..];
      AllBlankCons(pieces[0], pieces[1..]);
      if line != [] then [line] + rest else rest
  }

  /** No character of `s` breaks a line. */
  predicate OneLine(s: string) {
    forall i :: 0 <= i < |s| ==> !IsLineBreak(s[i])
  }

  /** `splitlines()` leaves no line break inside a piece, so the regex `.`,
      which stops at a line feed, can match any character of a line. */
  lemma {:induction false} SplitLinesOneLine(s: string)
    ensures forall k :: 0 <= k < |SplitLines(s)| ==> OneLine(SplitLines(s)[k])
  {
    if s != [] {
      SplitLinesOneLine(s[1..]);
      var rest := SplitLines(s[1..]);
      if !IsLineBreak(s[0]) {
        assert OneLine(rest[0]);
        assert OneLine([s[0]] + rest[0]);
      }
    }
  }

  /** Stripping a piece of one line leaves one line. */
  lemma StripOneLine(s: string)
    requires OneLine(s)
    ensures OneLine(Strip(s))
  {
    OneLineSuffix(s, |s| - |TrimStart(s)|);
    OneLinePrefix(TrimStart(s), |TrimEnd(TrimStart(s))|);
  }

  lemma OneLineSuffix(s: string, n: nat)
    requires OneLine(s) && n <= |s|
    ensures OneLine(s[n..])
  {
    assert forall i :: 0 <= i < |s| - n ==> s[n..][i] == s[n + i];
  }

  lemma OneLinePrefix(s: string, n: nat)
    requires OneLine(s) && n <= |s|
    ensures OneLine(s[..n])
  {
    assert forall i :: 0 <= i < n ==> s[..n][i] == s[i];
  }

  /** Keeping the stripped, non-blank pieces keeps them on one line each. */
  lemma {:induction false} NonBlankStrippedOneLine(pieces: seq<string>)
    requires forall k :: 0 <= k < |pieces| ==> OneLine(pieces[k])
    ensures forall k :: 0 <= k < |NonBlankStripped(pieces)| ==> OneLine(NonBlankStripped(pieces)[k])
  {
    if pieces != [] {
      NonBlankStrippedOneLine(pieces[1..]);
      StripOneLine(pieces[0]);
    }
  }

  /** `[line.strip() for line in s.splitlines() if line.strip()]`. */
  function KeptLines(s: string): seq<string> {
    NonBlankStripped(SplitLines(s))
  }

  /** `sep.join(parts)`. */
  function Join(parts: seq<string>, sep: string): string {
    if parts == [] then []
    else if |parts| == 1 then parts[0]
    else Join(parts[..|parts| - 1], sep) + sep + parts[|parts| - 1]
  }

  /** A block has no kept lines exactly when every character is whitespace. */
  lemma KeptLinesEmptyIffBlank(s: string)
    ensures KeptLines(s) == [] <==> AllSpace(s)
  {
    SplitLinesBlank(s);
  }

  /** No kept line holds a line break. */
  lemma KeptLinesOneLine(s: string)
    ensures forall k :: 0 <= k < |KeptLines(s)| ==> OneLine(KeptLines(s)[k])
  {
    SplitLinesOneLine(s);
    NonBlankStrippedOneLine(SplitLines(s));
  }

  /** Every kept line is non-empty and carries no surrounding whitespace. */
  lemma KeptLinesStripped(s: string)
    ensures forall k :: 0 <= k < |KeptLines(s)| ==> KeptLines(s)[k] != [] && IsStripped(KeptLines(s)[k])
  {
  }
}
