/**
 * The fixed patterns `parse_entity` applies to the lines of an entity block,
 * each written out as a matcher over characters. Every matcher is paired with
 * a predicate that describes the ways the original regular expression can
 * match, and a lemma showing that the matcher returns the match the regex
 * engine's backtracking order picks.
 */
module Matchers {
  import opened Options
  import opened Text
  import opened Records

  // ---------------------------------------------------------------------
  // Entity number and business name: re.match(r"^(\d+)\.?\s*(.+)", line)
  // ---------------------------------------------------------------------

  datatype HeadingMatch = HeadingMatch(number: string, rest: string)

  /** `^(\d+)\.?\s*(.+)` matches `line` with `\d+` taking `a` characters,
      `\.?` taking `b` and `\s*` taking `c`; `(.+)` takes the rest. */
  predicate HeadingSplit(line: string, a: nat, b: nat, c: nat) {
    && 1 <= a && b <= 1 && a + b + c < |line|
    && (forall k :: 0 <= k < a ==> IsDigit(line[k]))
    && (b == 1 ==> line[a] == '.')
    && (forall k :: a + b <= k < a + b + c ==> IsSpace(line[k]))
  }

  /** Backtracking order of three greedy quantifiers: the engine prefers a
      longer first capture, then a longer second, then a longer third. */
  predicate TriedNoLaterThan(a: nat, b: nat, c: nat, a': nat, b': nat, c': nat) {
    a > a' || (a == a' && (b > b' || (b == b' && c >= c')))
  }

  /** Where the three quantifiers stop in a split. */
  datatype HeadingCut = HeadingCut(a: nat, b: nat, c: nat)

  /** The split the regex engine finds first, or `None`: each quantifier
      takes its whole run, and when `(.+)` is left nothing, the engine gives
      back one character from the last quantifier that has one. */
  function FirstHeadingCut(line: string): (r: Option<HeadingCut>)
    ensures r.Some? ==> HeadingSplit(line, r.value.a, r.value.b, r.value.c)
  {
    var d := DigitRun(line, 0);
    DigitRunIsRun(line, 0);
    if d == 0 then None
    else
      var i := if d < |line| && line[d] == '.' then d + 1 else d;
      var s := SpaceRun(line, i);
      SpaceRunIsRun(line, i);
      if i + s < |line| then Some(HeadingCut(d, i - d, s))
      // `(.+)` found nothing: `\s*` gives back one character first,
      else if s > 0 then Some(HeadingCut(d, i - d, s - 1))
      // then `\.?` gives back the dot,
      else if i > d then Some(HeadingCut(d, 0, 0))
      // and last `\d+` gives back one digit.
      else if d >= 2 then Some(HeadingCut(d - 1, 0, 0))
      else None
  }

  /** The groups of the first match in backtracking order, or `None`. */
  function EntityHeading(line: string): Option<HeadingMatch> {
    match FirstHeadingCut(line)
    case None => None
    case Some(k) => Some(HeadingMatch(line[..k.a], line[k.a + k.b + k.c..]))
  }

  /** Any split takes at most the leading digit run, at most the dot and at
      most the whitespace run that follows. */
  lemma HeadingSplitWithinRuns(line: string, a: nat, b: nat, c: nat)
    requires HeadingSplit(line, a, b, c)
    ensures a <= DigitRun(line, 0)
    ensures c <= SpaceRun(line, a + b)
  {
    DigitRunMaximal(line, 0, a);
    SpaceRunMaximal(line, a + b, c);
  }

  /** When the heading does not match, no split exists. */
  lemma EntityHeadingNoneIffNoSplit(line: string)
    ensures EntityHeading(line).None? <==> forall a: nat, b: nat, c: nat :: !HeadingSplit(line, a, b, c)
  {
    if FirstHeadingCut(line).None? {
      forall a: nat, b: nat, c: nat ensures !HeadingSplit(line, a, b, c) {
        if HeadingSplit(line, a, b, c) {
          HeadingSplitWithinRuns(line, a, b, c);
        }
      }
    }
  }

  /** The split whose groups EntityHeading returns comes first in
      backtracking order. */
  lemma EntityHeadingSplit(line: string) returns (a: nat, b: nat, c: nat)
    requires EntityHeading(line).Some?
    ensures HeadingSplit(line, a, b, c)
    ensures EntityHeading(line).value == HeadingMatch(line[..a], line[a + b + c..])
    ensures forall a': nat, b': nat, c': nat :: HeadingSplit(line, a', b', c') ==> TriedNoLaterThan(a, b, c, a', b', c')
  {
    var k := FirstHeadingCut(line).value;
    a, b, c := k.a, k.b, k.c;
    forall a': nat, b': nat, c': nat | HeadingSplit(line, a', b', c')
      ensures TriedNoLaterThan(a, b, c, a', b', c')
    {
      FirstHeadingCutComesFirst(line, a', b', c');
    }
  }

  lemma FirstHeadingCutComesFirst(line: string, a': nat, b': nat, c': nat)
    requires HeadingSplit(line, a', b', c')
    ensures FirstHeadingCut(line).Some?
    ensures var k := FirstHeadingCut(line).value; TriedNoLaterThan(k.a, k.b, k.c, a', b', c')
  {
    HeadingSplitWithinRuns(line, a', b', c');
    var d := DigitRun(line, 0);
    var dot := d < |line| && line[d] == '.';
    var i := if dot then d + 1 else d;
    var s := SpaceRun(line, i);
    if a' == d && b' == i - d {
      assert c' <= s;
    }
    if a' == d && b' == 1 {
      assert dot;
    }
    if i + s >= |line| && s == 0 && i > d && a' == d {
      assert b' == 0;
      assert !IsSpace(line[d]);
    }
  }

  /** EntityHeading returns exactly the regex's first match: it fails only
      when no split exists, and otherwise returns the groups of the split
      that comes first in backtracking order. */
  lemma EntityHeadingIsFirstMatch(line: string) returns (a: nat, b: nat, c: nat)
    ensures EntityHeading(line).None? <==> forall a': nat, b': nat, c': nat :: !HeadingSplit(line, a', b', c')
    ensures EntityHeading(line).Some? ==>
      && HeadingSplit(line, a, b, c)
      && EntityHeading(line).value == HeadingMatch(line[..a], line[a + b + c..])
      && forall a': nat, b': nat, c': nat :: HeadingSplit(line, a', b', c') ==> TriedNoLaterThan(a, b, c, a', b', c')
  {
    EntityHeadingNoneIffNoSplit(line);
    a, b, c := 0, 0, 0;
    if EntityHeading(line).Some? {
      a, b, c := EntityHeadingSplit(line);
    }
  }

  lemma StrippedHeadingMatchesIff(line: string)
    requires line != [] && IsStripped(line)
    ensures EntityHeading(line).Some? <==> |line| >= 2 && IsDigit(line[0])
  {
    var d := DigitRun(line, 0);
  }

  lemma StrippedHeadingGroups(line: string)
    requires line != [] && IsStripped(line)
    requires EntityHeading(line).Some?
    ensures var m := EntityHeading(line).value;
      m.number != [] && AllDigits(m.number) && Strip(m.rest) != []
  {
    var a, b, c := EntityHeadingSplit(line);
    var m := EntityHeading(line).value;
    assert AllDigits(m.number) by {
      forall k | 0 <= k < |m.number| ensures IsDigit(m.number[k]) {
        assert m.number[k] == line[k];
      }
    }
    assert !AllSpace(m.rest) by {
      assert m.rest[|m.rest| - 1] == line[|line| - 1];
    }
    StripBlank(m.rest);
  }

  /** The number a stripped heading line yields: its leading digit run,
      or all but the last digit when the line is nothing but digits. */
  function LeadingNumber(line: string): string
    requires line != []
  {
    if AllDigits(line) then line[..|line| - 1] else line[..DigitRun(line, 0)]
  }

  lemma StrippedHeadingNumber(line: string)
    requires line != [] && IsStripped(line)
    requires EntityHeading(line).Some?
    ensures EntityHeading(line).value.number == LeadingNumber(line)
    ensures AllDigits(line) ==> EntityHeading(line).value.rest == [line[|line| - 1]]
  {
    var d := DigitRun(line, 0);
    DigitRunIsRun(line, 0);
    if AllDigits(line) {
      DigitRunMaximal(line, 0, |line|);
      assert d == |line|;
    } else {
      assert d < |line|;
      assert !IsSpace(line[|line| - 1]);
    }
  }

  /** The business name a stripped heading line yields: what follows the
      leading digit run and the dot after it, stripped; a dot that ends the
      line is the name itself, and an all-digit line gives its last digit. */
  function LeadingName(line: string): string
    requires line != []
  {
    if AllDigits(line) then [line[|line| - 1]] else NameAfterNumber(line, DigitRun(line, 0))
  }

  /** What follows a number of `d` digits and the dot after it, stripped. */
  function NameAfterNumber(line: string, d: nat): string
    requires d <= |line|
  {
    if d + 1 < |line| && line[d] == '.' then Strip(line[d + 1..]) else Strip(line[d..])
  }

  lemma StrippedHeadingName(line: string)
    requires line != [] && IsStripped(line)
    requires EntityHeading(line).Some?
    ensures Strip(EntityHeading(line).value.rest) == LeadingName(line)
  {
    if AllDigits(line) {
      DigitHeadingName(line);
    } else {
      NamedHeadingRest(line);
    }
  }

  /** On an all-digit line backtracking leaves the last digit as the name. */
  lemma DigitHeadingName(line: string)
    requires line != [] && IsStripped(line) && AllDigits(line)
    requires EntityHeading(line).Some?
    ensures Strip(EntityHeading(line).value.rest) == [line[|line| - 1]]
  {
    StrippedHeadingNumber(line);
    StripStripped([line[|line| - 1]]);
  }

  /** On a line that is not all digits the whole digit run is the number,
      and `(.+)` starts after the dot and the whitespace that follow it. */
  lemma NamedHeadingRest(line: string)
    requires line != [] && IsStripped(line) && !AllDigits(line)
    requires EntityHeading(line).Some?
    ensures Strip(EntityHeading(line).value.rest) == NameAfterNumber(line, DigitRun(line, 0))
  {
    var d := DigitRun(line, 0);
    DigitRunShort(line);
    HeadingHasDigits(line);
    if line[d] == '.' && d + 1 == |line| {
      RestAfterDot(line, d);
    } else {
      RestAfterSpace(line, d, if line[d] == '.' then d + 1 else d);
    }
  }

  /** A heading match needs at least one leading digit. */
  lemma HeadingHasDigits(line: string)
    requires EntityHeading(line).Some?
    ensures DigitRun(line, 0) > 0
  {
  }

  /** The leading digit run of a line that is not all digits stops short
      of its end. */
  lemma DigitRunShort(line: string)
    requires !AllDigits(line)
    ensures DigitRun(line, 0) < |line|
  {
    DigitRunIsRun(line, 0);
  }

  /** On a stripped line, whitespace never runs to the end. */
  lemma SpaceRunBeforeEnd(line: string, i: nat)
    requires IsStripped(line) && i < |line|
    ensures i + SpaceRun(line, i) < |line|
  {
    SpaceRunIsRun(line, i);
  }

  /** When text follows the number and its dot, `(.+)` starts after the
      whitespace, which stripping the name ignores. */
  lemma RestAfterSpace(line: string, d: nat, i: nat)
    requires IsStripped(line)
    requires d == DigitRun(line, 0) && 0 < d < |line|
    requires i == if line[d] == '.' then d + 1 else d
    requires i < |line|
    ensures EntityHeading(line).Some? && Strip(EntityHeading(line).value.rest) == NameAfterNumber(line, d)
  {
    var s := SpaceRun(line, i);
    CutAfterSpace(line, d, i, s);
    SpaceRunSpaces(line, i, s);
    SkipSpaces(line, i, s);
    assert NameAfterNumber(line, d) == Strip(line[i..]);
  }

  /** The whitespace run is whitespace throughout. */
  lemma SpaceRunSpaces(line: string, i: nat, s: nat)
    requires i <= |line| && s == SpaceRun(line, i)
    ensures i + s <= |line|
    ensures forall k :: i <= k < i + s ==> IsSpace(line[k])
  {
    SpaceRunIsRun(line, i);
  }

  /** On a stripped line with text after the number and its dot, the
      engine's first cut takes every quantifier's whole run. */
  lemma CutAfterSpace(line: string, d: nat, i: nat, s: nat)
    requires IsStripped(line)
    requires d == DigitRun(line, 0) && 0 < d < |line|
    requires i == if line[d] == '.' then d + 1 else d
    requires i < |line| && s == SpaceRun(line, i)
    ensures i + s < |line|
    ensures EntityHeading(line).Some? && EntityHeading(line).value.rest == line[i + s..]
  {
    SpaceRunBeforeEnd(line, i);
  }

  /** When the dot ends the line, the dot is given back to `(.+)`. */
  lemma RestAfterDot(line: string, d: nat)
    requires d == DigitRun(line, 0) && d > 0 && d + 1 == |line| && line[d] == '.'
    ensures EntityHeading(line).Some? && EntityHeading(line).value.rest == line[d..]
    ensures NameAfterNumber(line, d) == Strip(line[d..])
  {
    assert SpaceRun(line, d + 1) == 0;
    assert FirstHeadingCut(line) == Some(HeadingCut(d, 0, 0));
  }

  /** Skipping whitespace before a group does not change it once stripped. */
  lemma SkipSpaces(line: string, i: nat, s: nat)
    requires i + s <= |line|
    requires forall k :: i <= k < i + s ==> IsSpace(line[k])
    ensures Strip(line[i + s..]) == Strip(line[i..])
  {
    assert line[i..][s..] == line[i + s..];
    StripSkipsSpace(line[i..], s);
  }

  /** For a stripped, non-empty first line (the only kind `parse_entity`
      passes), the heading matches exactly when the line starts with a digit
      and has a second character; the number is the whole leading digit run
      unless the line is all digits, when the last digit goes to the name;
      and the business name, stripped, is never empty and is what follows
      the number and its dot. */
  lemma HeadingOfStrippedLine(line: string)
    requires line != [] && IsStripped(line)
    ensures EntityHeading(line).Some? <==> |line| >= 2 && IsDigit(line[0])
    ensures EntityHeading(line).Some? ==>
      var m := EntityHeading(line).value;
      && m.number != [] && AllDigits(m.number)
      && Strip(m.rest) != []
      && m.number == LeadingNumber(line)
      && (AllDigits(line) ==> m.rest == [line[|line| - 1]])
      && Strip(m.rest) == LeadingName(line)
  {
    StrippedHeadingMatchesIff(line);
    if EntityHeading(line).Some? {
      StrippedHeadingGroups(line);
      StrippedHeadingNumber(line);
      StrippedHeadingName(line);
    }
  }

  // ---------------------------------------------------------------------
  // Doing-business-as name:
  // re.search(r"doing business as:\s*(.+)", line, re.IGNORECASE)
  // ---------------------------------------------------------------------

  const DbaLabel := "doing business as:"

  /** The pattern matches at `p`, ignoring case, with `\s*` taking `c`
      characters and `(.+)` the rest of the line. */
  predicate DbaSplit(line: string, p: nat, c: nat) {
    && OccursAt(Lower(line), DbaLabel, p)
    && p + |DbaLabel| + c < |line|
    && forall k :: p + |DbaLabel| <= k < p + |DbaLabel| + c ==> IsSpace(line[k])
  }

  /** Where the first match starts and how much whitespace `\s*` takes.
      Only the label's first occurrence can start a match: when nothing
      follows it, no later occurrence fits either. */
  function FirstDbaCut(line: string): (r: Option<(nat, nat)>)
    ensures r.Some? ==> DbaSplit(line, r.value.0, r.value.1)
  {
    match IndexOf(Lower(line), DbaLabel)
    case None => None
    case Some(p) =>
      var a := p + |DbaLabel|;
      var s := SpaceRun(line, a);
      SpaceRunIsRun(line, a);
      if a + s < |line| then Some((p, s))
      // `(.+)` found nothing: `\s*` gives back one character.
      else if s > 0 then Some((p, s - 1))
      else None
  }

  /** Group 1 of the search. */
  function DbaGroup(line: string): Option<string> {
    match FirstDbaCut(line)
    case None => None
    case Some((p, c)) => Some(line[p + |DbaLabel| + c..])
  }

  lemma DbaSplitWithinRuns(line: string, p: nat, c: nat)
    requires DbaSplit(line, p, c)
    ensures IndexOf(Lower(line), DbaLabel).Some?
    ensures IndexOf(Lower(line), DbaLabel).value <= p
    ensures c <= SpaceRun(line, p + |DbaLabel|)
  {
    SpaceRunMaximal(line, p + |DbaLabel|, c);
    IndexFromIsLeftmost(Lower(line), DbaLabel, 0);
  }

  /** When DbaGroup fails, the pattern matches nowhere. */
  lemma DbaGroupNoneIffNoSplit(line: string)
    ensures DbaGroup(line).None? <==> forall p': nat, c': nat :: !DbaSplit(line, p', c')
  {
    if FirstDbaCut(line).None? {
      forall p': nat, c': nat ensures !DbaSplit(line, p', c') {
        if DbaSplit(line, p', c') {
          DbaSplitWithinRuns(line, p', c');
        }
      }
    }
  }

  /** The split whose group DbaGroup returns comes first: the leftmost
      start, and there the longest run of whitespace before the group. */
  lemma DbaGroupSplit(line: string) returns (p: nat, c: nat)
    requires DbaGroup(line).Some?
    ensures DbaSplit(line, p, c)
    ensures DbaGroup(line).value == line[p + |DbaLabel| + c..]
    ensures forall p': nat, c': nat :: DbaSplit(line, p', c') ==> p < p' || (p == p' && c' <= c)
  {
    p, c := FirstDbaCut(line).value.0, FirstDbaCut(line).value.1;
    forall p': nat, c': nat | DbaSplit(line, p', c')
      ensures p < p' || (p == p' && c' <= c)
    {
      DbaSplitWithinRuns(line, p', c');
    }
  }

  /** DbaGroup returns exactly the search's first match. */
  lemma DbaGroupIsFirstMatch(line: string) returns (p: nat, c: nat)
    ensures DbaGroup(line).None? <==> forall p': nat, c': nat :: !DbaSplit(line, p', c')
    ensures DbaGroup(line).Some? ==>
      && DbaSplit(line, p, c)
      && DbaGroup(line).value == line[p + |DbaLabel| + c..]
      && forall p': nat, c': nat :: DbaSplit(line, p', c') ==> p < p' || (p == p' && c' <= c)
  {
    DbaGroupNoneIffNoSplit(line);
    p, c := 0, 0;
    if DbaGroup(line).Some? {
      p, c := DbaGroupSplit(line);
    }
  }

  // ---------------------------------------------------------------------
  // Licence number:
  // re.search(r"license\s*#:\s*([\w\-]+)", line, re.IGNORECASE)
  // ---------------------------------------------------------------------

  const LicenseLabel := "license"

  /** The character class `[\w\-]` on ASCII. */
  predicate IsLicenseChar(c: char) {
    IsWordChar(c) || c == '-'
  }

  /** A non-empty run of `[\w\-]`: what the licence group can capture. */
  predicate IsLicenseNumber(s: string) {
    s != [] && forall k :: 0 <= k < |s| ==> IsLicenseChar(s[k])
  }

  /** A licence number has no whitespace to strip. */
  lemma LicenseNumberStripped(s: string)
    requires IsLicenseNumber(s)
    ensures Strip(s) == s
  {
    assert IsLicenseChar(s[0]) && IsLicenseChar(s[|s| - 1]);
  }

  function LicenseRun(s: string, i: nat): (n: nat)
    requires i <= |s|
    ensures i + n <= |s|
    ensures forall k :: i <= k < i + n ==> IsLicenseChar(s[k])
    ensures i + n == |s| || !IsLicenseChar(s[i + n])
    decreases |s| - i
  {
    if i < |s| && IsLicenseChar(s[i]) then 1 + LicenseRun(s, i + 1) else 0
  }

  /** After the label ending at `q`: the first `\s*` takes `c1` characters,
      then `#:`, the second `\s*` takes `c2`, and the group takes `w`. */
  predicate LicenseRest(line: string, q: nat, c1: nat, c2: nat, w: nat) {
    var a := q + c1;
    var b := a + 2 + c2;
    && 1 <= w && b + w <= |line|
    && (forall k :: q <= k < a ==> IsSpace(line[k]))
    && line[a] == '#' && line[a + 1] == ':'
    && (forall k :: a + 2 <= k < b ==> IsSpace(line[k]))
    && (forall k :: b <= k < b + w ==> IsLicenseChar(line[k]))
  }

  /** The pattern matches at `p`, ignoring case, with the two `\s*` taking
      `c1` and `c2` characters and the group taking `w`. */
  predicate LicenseSplit(line: string, p: nat, c1: nat, c2: nat, w: nat) {
    OccursAt(Lower(line), LicenseLabel, p) && LicenseRest(line, p + |LicenseLabel|, c1, c2, w)
  }

  /** The group after the label ending at `q`. Giving back whitespace never
      helps, since `#` and `[\w\-]` are not whitespace, so each `\s*` takes
      its whole run and the group its longest run. */
  function LicenseAfter(line: string, q: nat): Option<string>
    requires q <= |line|
  {
    var a := q + SpaceRun(line, q);
    if a + 2 <= |line| && line[a] == '#' && line[a + 1] == ':' then
      var b := a + 2 + SpaceRun(line, a + 2);
      var w := LicenseRun(line, b);
      if w > 0 then Some(line[b..b + w]) else None
    else None
  }

  /** Group 1 when the pattern is tried at position `p`. */
  function LicenseAt(line: string, p: nat): (r: Option<string>)
    requires p <= |line|
    ensures r.Some? ==> IsLicenseNumber(r.value)
  {
    if OccursAt(Lower(line), LicenseLabel, p) then LicenseAfter(line, p + |LicenseLabel|) else None
  }

  /** Every split after `q` takes the whole whitespace runs and at most the
      longest group. */
  lemma LicenseRestWithinRuns(line: string, q: nat, c1: nat, c2: nat, w: nat)
    requires LicenseRest(line, q, c1, c2, w)
    ensures c1 == SpaceRun(line, q)
    ensures c2 == SpaceRun(line, q + c1 + 2)
    ensures w <= LicenseRun(line, q + c1 + 2 + c2)
  {
    SpaceRunMaximal(line, q, c1);
    SpaceRunIsRun(line, q);
    assert !IsSpace(line[q + c1]);
    SpaceRunMaximal(line, q + c1 + 2, c2);
    SpaceRunIsRun(line, q + c1 + 2);
    assert !IsSpace(line[q + c1 + 2 + c2]);
    LicenseRunMaximal(line, q + c1 + 2 + c2, w);
  }

  /** Whenever a split exists after `q`, LicenseAfter finds a group. */
  lemma LicenseRestFound(line: string, q: nat, c1: nat, c2: nat, w: nat)
    requires q <= |line| && LicenseRest(line, q, c1, c2, w)
    ensures LicenseAfter(line, q).Some?
  {
    LicenseRestWithinRuns(line, q, c1, c2, w);
  }

  /** What LicenseAfter finds is a split, with the longest group. */
  lemma LicenseAfterWitness(line: string, q: nat) returns (c1: nat, c2: nat, w: nat)
    requires q <= |line| && LicenseAfter(line, q).Some?
    ensures LicenseRest(line, q, c1, c2, w)
    ensures LicenseAfter(line, q).value == line[q + c1 + 2 + c2..q + c1 + 2 + c2 + w]
    ensures w == LicenseRun(line, q + c1 + 2 + c2)
  {
    c1 := SpaceRun(line, q);
    SpaceRunIsRun(line, q);
    c2 := SpaceRun(line, q + c1 + 2);
    SpaceRunIsRun(line, q + c1 + 2);
    w := LicenseRun(line, q + c1 + 2 + c2);
  }

  /** What LicenseAt finds is a split at `p`. */
  lemma LicenseAtWitness(line: string, p: nat) returns (c1: nat, c2: nat, w: nat)
    requires p <= |line| && LicenseAt(line, p).Some?
    ensures LicenseSplit(line, p, c1, c2, w)
    ensures LicenseAt(line, p).value == line[p + |LicenseLabel| + c1 + 2 + c2..p + |LicenseLabel| + c1 + 2 + c2 + w]
    ensures w == LicenseRun(line, p + |LicenseLabel| + c1 + 2 + c2)
  {
    var q := p + |LicenseLabel|;
    assert OccursAt(Lower(line), LicenseLabel, p) && LicenseAt(line, p) == LicenseAfter(line, q);
    c1, c2, w := LicenseAfterWitness(line, q);
  }

  /** The split whose group LicenseAt returns has the longest group. */
  lemma LicenseAtSplit(line: string, p: nat) returns (c1: nat, c2: nat, w: nat)
    requires p <= |line| && LicenseAt(line, p).Some?
    ensures LicenseSplit(line, p, c1, c2, w)
    ensures LicenseAt(line, p).value == line[p + |LicenseLabel| + c1 + 2 + c2..p + |LicenseLabel| + c1 + 2 + c2 + w]
    ensures forall c1': nat, c2': nat, w': nat :: LicenseSplit(line, p, c1', c2', w') ==> w' <= w
  {
    var q := p + |LicenseLabel|;
    c1, c2, w := LicenseAtWitness(line, p);
    forall c1': nat, c2': nat, w': nat | LicenseSplit(line, p, c1', c2', w')
      ensures w' <= w
    {
      LicenseRestWithinRuns(line, q, c1', c2', w');
    }
  }

  /** When LicenseAt fails, no split starts at `p`. */
  lemma LicenseAtNoneIffNoSplit(line: string, p: nat)
    requires p <= |line|
    ensures LicenseAt(line, p).None? <==> forall c1': nat, c2': nat, w': nat :: !LicenseSplit(line, p, c1', c2', w')
  {
    if LicenseAt(line, p).Some? {
      var c1, c2, w := LicenseAtWitness(line, p);
    } else {
      forall c1': nat, c2': nat, w': nat ensures !LicenseSplit(line, p, c1', c2', w') {
        if LicenseSplit(line, p, c1', c2', w') {
          LicenseRestFound(line, p + |LicenseLabel|, c1', c2', w');
        }
      }
    }
  }

  /** LicenseAt fails exactly when no split starts at `p`, and otherwise
      returns the group of the split with the longest group. */
  lemma LicenseAtIsFirstMatch(line: string, p: nat) returns (c1: nat, c2: nat, w: nat)
    requires p <= |line|
    ensures LicenseAt(line, p).None? <==> forall c1': nat, c2': nat, w': nat :: !LicenseSplit(line, p, c1', c2', w')
    ensures LicenseAt(line, p).Some? ==>
      && LicenseSplit(line, p, c1, c2, w)
      && LicenseAt(line, p).value == line[p + |LicenseLabel| + c1 + 2 + c2..p + |LicenseLabel| + c1 + 2 + c2 + w]
      && forall c1': nat, c2': nat, w': nat :: LicenseSplit(line, p, c1', c2', w') ==> w' <= w
  {
    LicenseAtNoneIffNoSplit(line, p);
    c1, c2, w := 0, 0, 0;
    if LicenseAt(line, p).Some? {
      c1, c2, w := LicenseAtSplit(line, p);
    }
  }

  lemma LicenseRunMaximal(s: string, i: nat, n: nat)
    requires i + n <= |s|
    requires forall k :: i <= k < i + n ==> IsLicenseChar(s[k])
    ensures n <= LicenseRun(s, i)
  {
    var r := LicenseRun(s, i);
    assert i + r == |s| || !IsLicenseChar(s[i + r]);
  }

  /** Group 1 of the search from position `from`: the pattern tried at each
      position in turn, the leftmost success winning. */
  function LicenseSearch(line: string, from: nat): (r: Option<string>)
    requires from <= |line|
    ensures r.Some? ==> IsLicenseNumber(r.value)
    ensures r.Some? ==> exists p :: from <= p <= |line| && LicenseAt(line, p) == r && forall q :: from <= q < p ==> LicenseAt(line, q).None?
    ensures r.None? <==> forall q :: from <= q <= |line| ==> LicenseAt(line, q).None?
    decreases |line| - from
  {
    if LicenseAt(line, from).Some? then LicenseAt(line, from)
    else if from == |line| then None
    else LicenseSearch(line, from + 1)
  }

  /** The captured licence number: `if "license" in line.lower()` guards the
      search at line 51, and the group holds no whitespace, so the `strip()`
      at line 54 leaves it unchanged. */
  function LicenseGroup(line: string): (r: Option<string>)
    ensures r.Some? ==> IsLicenseNumber(r.value)
  {
    if Contains(Lower(line), LicenseLabel) then LicenseSearch(line, 0) else None
  }

  // ---------------------------------------------------------------------
  // Address and ZIP code: re.search(r"\d{5}$", line) and
  // re.search(r"\b(\d{5})\b", line)
  // ---------------------------------------------------------------------

  /** The line ends in five digits. */
  predicate EndsInFiveDigits(line: string) {
    |line| >= 5 && forall k :: |line| - 5 <= k < |line| ==> IsDigit(line[k])
  }

  /** `\b\d{5}\b` matches at `p`: five digits with no word character
      directly before or after them. */
  predicate StandaloneFiveDigitsAt(line: string, p: nat) {
    && p + 5 <= |line|
    && (forall k :: p <= k < p + 5 ==> IsDigit(line[k]))
    && (p == 0 || !IsWordChar(line[p - 1]))
    && (p + 5 == |line| || !IsWordChar(line[p + 5]))
  }

  /** The leftmost standalone five-digit group at or after `from`. */
  function FirstStandaloneFiveDigits(line: string, from: nat): (r: Option<nat>)
    requires from <= |line|
    ensures r.Some? ==> from <= r.value && StandaloneFiveDigitsAt(line, r.value)
    ensures r.Some? ==> forall q :: from <= q < r.value ==> !StandaloneFiveDigitsAt(line, q)
    ensures r.None? <==> forall q :: from <= q <= |line| ==> !StandaloneFiveDigitsAt(line, q)
    decreases |line| - from
  {
    if StandaloneFiveDigitsAt(line, from) then Some(from)
    else if from == |line| then None
    else FirstStandaloneFiveDigits(line, from + 1)
  }

  /** Group 1 of the ZIP search. */
  function ZipGroup(line: string): Option<string> {
    match FirstStandaloneFiveDigits(line, 0)
    case Some(p) => Some(line[p..p + 5])
    case None => None
  }

  /** When the line's last five digits are preceded by a non-word character
      (or start the line), a ZIP code is found, though it may be an earlier
      group; when they are part of a longer digit run, the trailing group
      never counts. */
  lemma ZipOfAddressLine(line: string)
    requires EndsInFiveDigits(line)
    ensures (|line| == 5 || !IsWordChar(line[|line| - 6])) ==> ZipGroup(line).Some?
    ensures |line| > 5 && IsDigit(line[|line| - 6]) ==> !StandaloneFiveDigitsAt(line, |line| - 5)
  {
    if |line| == 5 || !IsWordChar(line[|line| - 6]) {
      assert StandaloneFiveDigitsAt(line, |line| - 5);
    }
  }

  // ---------------------------------------------------------------------
  // Alcohol type: substring tests on the lower-cased, space-joined block
  // ---------------------------------------------------------------------

  /** Both licence types demand these three phrases. */
  predicate CommonPhrases(details: string) {
    Contains(details, "applied") && Contains(details, "common victualler") && Contains(details, "7 day")
  }

  predicate QualifiesAllAlcoholic(details: string) {
    && CommonPhrases(details)
    && (Contains(details, "all-alcoholic beverages") || Contains(details, "all alcoholic beverages"))
  }

  predicate QualifiesWinesAndMalt(details: string) {
    CommonPhrases(details) && Contains(details, "wines and malt beverages")
  }

  /** The classification at lines 62-78; the first test wins. */
  function AlcoholType(details: string): (r: Option<string>)
    ensures r == Some(AllAlcoholic) <==> QualifiesAllAlcoholic(details)
    ensures r == Some(WinesAndMalt) <==> !QualifiesAllAlcoholic(details) && QualifiesWinesAndMalt(details)
    ensures r.None? <==> !QualifiesAllAlcoholic(details) && !QualifiesWinesAndMalt(details)
    ensures r.None? || AllowedType(r)
  {
    if QualifiesAllAlcoholic(details) then Some(AllAlcoholic)
    else if QualifiesWinesAndMalt(details) then Some(WinesAndMalt)
    else None
  }
}
