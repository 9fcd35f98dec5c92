/**
 * The text processing of the RepRap 5D driver
 * (replicatorg.drivers.reprap.SimpleRepRap5DDriver): how an outgoing line
 * is cleaned and fixed for the firmware, how the temperatures are read out
 * of an "ok T:" acknowledgement, and the G-code each driver call renders.
 * The regular expressions the driver uses are written out with Java's
 * matching rules.
 */
module RepRapText {
  import opened Common
  import C = Capability

  // ---------------------------------------------------------------------------
  // clean and fix

  /** clean: String.trim, the line between its outermost characters above U+0020. */
  function Clean(s: string): (r: string)
    ensures |r| <= |s|
    ensures |r| > 0 ==> !IsTrimmed(r[0]) && !IsTrimmed(r[|r| - 1])
    ensures exists i, j :: 0 <= i <= j <= |s| && r == s[i..j] &&
              (forall k :: 0 <= k < i ==> IsTrimmed(s[k])) && (forall k :: j <= k < |s| ==> IsTrimmed(s[k]))
  {
    Trim(s)
  }

  /** Cleaning a cleaned line changes nothing. */
  lemma CleanIdempotent(s: string)
    ensures Clean(Clean(s)) == Clean(s)
  {
    TrimFixed(Clean(s));
  }

  /** An occurrence of M10[123] at index `i`. */
  predicate ExtruderCodeAt(s: string, i: int)
  {
    0 <= i && i + 4 <= |s| && s[i] == 'M' && s[i + 1] == '1' && s[i + 2] == '0' && '1' <= s[i + 3] <= '3'
  }

  /** The find() of M10[123](.*): an M101, M102 or M103 anywhere in the line. */
  predicate HasExtruderCode(s: string)
  {
    exists i | 0 <= i < |s| :: ExtruderCodeAt(s, i)
  }

  /** The characters of Java's \s: space, tab, LF, vertical tab, form feed, CR. */
  predicate IsRegexSpace(c: char)
  {
    c == ' ' || c == '\t' || c == '\n' || c == '\U{000B}' || c == '\U{000C}' || c == '\r'
  }

  /** The length of the maximal [0-9.] run starting at `from`. */
  function DotRun(s: string, from: nat): (n: nat)
    requires from <= |s|
    ensures from + n <= |s|
    ensures forall k :: from <= k < from + n ==> IsDigitOrDot(s[k])
    ensures from + n < |s| ==> !IsDigitOrDot(s[from + n])
    decreases |s| - from
  {
    if from == |s| || !IsDigitOrDot(s[from]) then 0 else 1 + DotRun(s, from + 1)
  }

  /** Where a non-multiline `$` may match: at the end, or before a final line terminator (or final CR LF). */
  predicate EndAnchor(s: string, p: nat)
  {
    p == |s|
    || (p + 1 == |s| && IsLineTerminator(s[p]))
    || (p + 2 == |s| && s[p] == '\r' && s[p + 1] == '\n')
  }

  /** The pieces of a match of ^(.*)(F[0-9.]*)\s?E([0-9.]*)$ whose F is at index i. */
  datatype Reorder = Reorder(f: nat, fEnd: nat, e: nat, eEnd: nat)

  /**
   * Whether (F[0-9.]*)\s?E([0-9.]*)$ matches from the 'F' at index i: the F
   * run is maximal, the optional whitespace is taken when present, the E run
   * is maximal and must reach the end anchor.
   */
  function TailAt(s: string, i: nat): (r: Option<Reorder>)
    requires i < |s|
    ensures r.Some? ==> r.value.f == i && i < r.value.fEnd <= r.value.e < r.value.eEnd <= |s|
    ensures r.Some? ==> s[i] == 'F' && s[r.value.e] == 'E' && EndAnchor(s, r.value.eEnd)
  {
    if s[i] != 'F' then None
    else
      var j := i + 1 + DotRun(s, i + 1);
      var k := if j < |s| && IsRegexSpace(s[j]) then j + 1 else j;
      if k < |s| && s[k] == 'E' then
        var p := k + 1 + DotRun(s, k + 1);
        if EndAnchor(s, p) then Some(Reorder(i, j, k, p)) else None
      else None
  }

  /** The match of ^(.*)(F…)… : (.*) cannot cross a line terminator, so the F lies before the first one. */
  function FindReorder(s: string, from: nat): (r: Option<Reorder>)
    requires from <= |s|
    ensures r.Some? ==> from <= r.value.f < |s| && TailAt(s, r.value.f) == r
    ensures r.Some? ==> forall k :: from <= k < r.value.f ==> !IsLineTerminator(s[k])
    decreases |s| - from
  {
    if from == |s| then None
    else if TailAt(s, from).Some? then TailAt(s, from)
    else if IsLineTerminator(s[from]) then None
    else FindReorder(s, from + 1)
  }

  /**
   * fix: a line holding M101, M102 or M103 becomes empty; a line ending in
   * an F word, optional whitespace and an E word has the F word moved last,
   * as prefix + " E" + value + " " + F word; any other line is unchanged.
   */
  function Fix(s: string): (r: string)
    ensures r == "" <==> s == "" || HasExtruderCode(s)
    ensures !HasExtruderCode(s) && FindReorder(s, 0).None? ==> r == s
  {
    if HasExtruderCode(s) then "" else Reordered(s)
  }

  /** The replacement of ^(.*)(F[0-9.]*)\s?E([0-9.]*)$ by group 1, " E", group 3, " ", group 2. */
  function Reordered(s: string): string
  {
    match FindReorder(s, 0)
    case None => s
    case Some(Reorder(i, j, k, p)) => s[..i] + " E" + s[k + 1..p] + " " + s[i..j]
  }

  /** The line sendCommand puts on the wire for `next` (before the "\n"). */
  function Outgoing(next: string): (r: string)
    ensures r == "" <==> Clean(next) == "" || HasExtruderCode(Clean(next))
    ensures !HasExtruderCode(Clean(next)) && FindReorder(Clean(next), 0).None? ==> r == Clean(next)
  {
    Fix(Clean(next))
  }

  /** An extruder code anywhere makes the line vanish, so it is never sent. */
  lemma ExtruderCodesDropped(s: string)
    requires HasExtruderCode(s)
    ensures Fix(s) == ""
  {
  }

  /** Characters after the F of a match are never another 'F'. */
  lemma NoFInTail(s: string, i: nat, k: nat)
    requires i < |s| && TailAt(s, i).Some?
    requires i < k < |s|
    ensures s[k] != 'F'
  {
    var t := TailAt(s, i).value;
    if k < t.fEnd {
      assert IsDigitOrDot(s[k]);
    } else if k < t.e {
      assert IsRegexSpace(s[k]);
    } else if k == t.e {
    } else if k < t.eEnd {
      assert IsDigitOrDot(s[k]);
    } else {
      assert IsLineTerminator(s[k]);
    }
  }

  /** The reorder match is unique: at most one 'F' starts a matching tail. */
  lemma FindReorderIsTheMatch(s: string, from: nat, i: nat)
    requires from <= i < |s| && TailAt(s, i).Some?
    requires forall k :: from <= k < i ==> !IsLineTerminator(s[k])
    ensures FindReorder(s, from) == TailAt(s, i)
    decreases i - from
  {
    if from < i {
      if TailAt(s, from).Some? {
        NoFInTail(s, from, i);
        assert false;
      }
      FindReorderIsTheMatch(s, from + 1, i);
    }
  }

  /**
   * The reorder rule on a concrete shape: a prefix without line terminators,
   * "F" and a [0-9.] run, an optional space, "E" and a [0-9.] run at the end.
   */
  lemma ReorderMovesFeedLast(prefix: string, f: string, space: string, e: string)
    requires forall k :: 0 <= k < |prefix| ==> !IsLineTerminator(prefix[k])
    requires forall k :: 0 <= k < |f| ==> IsDigitOrDot(f[k])
    requires forall k :: 0 <= k < |e| ==> IsDigitOrDot(e[k])
    requires space == "" || space == " "
    ensures Reordered(prefix + "F" + f + space + "E" + e) == prefix + " E" + e + " " + "F" + f
  {
    var s := prefix + "F" + f + space + "E" + e;
    var i := |prefix|;
    var j := i + 1 + |f|;
    var k := j + |space|;
    ShapeSlices(prefix, f, space, e);
    TailOfShape(prefix, f, space, e);
    forall m | 0 <= m < i ensures !IsLineTerminator(s[m]) {
      assert s[m] == s[..i][m];
    }
    ReorderOfPieces(s, Reorder(i, j, k, |s|), prefix, f, e);
  }

  lemma ReorderOfPieces(s: string, r: Reorder, prefix: string, f: string, e: string)
    requires r.f < |s| && TailAt(s, r.f) == Some(r)
    requires forall m :: 0 <= m < r.f ==> !IsLineTerminator(s[m])
    requires s[..r.f] == prefix && s[r.e + 1..r.eEnd] == e && s[r.f..r.fEnd] == "F" + f
    ensures Reordered(s) == prefix + " E" + e + " " + "F" + f
  {
    ReorderOfTail(s, r);
    AppendAssoc(prefix + " E" + e + " ", "F", f);
  }

  /** A matching tail after a line without terminators is what the reorder rule rewrites. */
  lemma ReorderOfTail(s: string, r: Reorder)
    requires r.f < |s| && TailAt(s, r.f) == Some(r)
    requires forall m :: 0 <= m < r.f ==> !IsLineTerminator(s[m])
    ensures Reordered(s) == s[..r.f] + " E" + s[r.e + 1..r.eEnd] + " " + s[r.f..r.fEnd]
  {
    FindReorderIsTheMatch(s, 0, r.f);
    FixOfMatch(s, r);
  }

  /** The pieces of the reorder shape, read back out of the whole line. */
  lemma ShapeSlices(prefix: string, f: string, space: string, e: string)
    requires space == "" || space == " "
    ensures var s := prefix + "F" + f + space + "E" + e;
            var i := |prefix|;
            var j := i + 1 + |f|;
            var k := j + |space|;
            |s| == k + 1 + |e| && s[..i] == prefix && s[i..j] == "F" + f && s[k + 1..|s|] == e
            && s[i] == 'F' && s[k] == 'E' && (j < k ==> s[j] == ' ')
  {
    var s := prefix + "F" + f + space + "E" + e;
    var i := |prefix|;
    var j := i + 1 + |f|;
    var k := j + |space|;
    var w := prefix + "F" + f;
    assert s == w + (space + "E") + e;
    assert w[i..] == "F" + f;
    assert s[..k + 1] == w + (space + "E");
    assert s[i..j] == w[i..];
  }

  lemma FixOfMatch(s: string, r: Reorder)
    requires FindReorder(s, 0) == Some(r)
    ensures Reordered(s) == s[..r.f] + " E" + s[r.e + 1..r.eEnd] + " " + s[r.f..r.fEnd]
  {
    assert TailAt(s, r.f) == Some(r);
    assert r.f < r.fEnd <= r.e < r.eEnd <= |s|;
  }

  lemma TailOfShape(prefix: string, f: string, space: string, e: string)
    requires forall k :: 0 <= k < |f| ==> IsDigitOrDot(f[k])
    requires forall k :: 0 <= k < |e| ==> IsDigitOrDot(e[k])
    requires space == "" || space == " "
    ensures var s := prefix + "F" + f + space + "E" + e;
            var j := |prefix| + 1 + |f|;
            TailAt(s, |prefix|) == Some(Reorder(|prefix|, j, j + |space|, |s|))
  {
    var s := prefix + "F" + f + space + "E" + e;
    var i := |prefix|;
    var j := i + 1 + |f|;
    var k := j + |space|;
    ShapeSlices(prefix, f, space, e);
    forall m | i < m < j ensures IsDigitOrDot(s[m]) {
      assert s[m] == s[i..j][m - i] == f[m - i - 1];
    }
    forall m | k < m < |s| ensures IsDigitOrDot(s[m]) {
      assert s[m] == s[k + 1..|s|][m - k - 1] == e[m - k - 1];
    }
    TailOfRuns(s, i, j, k);
  }

  /** A tail read off its pieces: F and a [0-9.] run to j, at most one space, E and a [0-9.] run to the end. */
  lemma TailOfRuns(s: string, i: nat, j: nat, k: nat)
    requires i < j <= k < |s| && k <= j + 1
    requires s[i] == 'F' && s[k] == 'E' && (j < k ==> s[j] == ' ')
    requires forall m :: i < m < j ==> IsDigitOrDot(s[m])
    requires forall m :: k < m < |s| ==> IsDigitOrDot(s[m])
    ensures TailAt(s, i) == Some(Reorder(i, j, k, |s|))
  {
    DotRunIs(s, i + 1, j - i - 1);
    DotRunIs(s, k + 1, |s| - k - 1);
    var k' := if j < |s| && IsRegexSpace(s[j]) then j + 1 else j;
    assert k' == k;
    assert EndAnchor(s, k + 1 + DotRun(s, k + 1));
  }

  lemma DotRunIs(s: string, from: nat, n: nat)
    requires from + n <= |s|
    requires forall k :: from <= k < from + n ==> IsDigitOrDot(s[k])
    requires from + n == |s| || !IsDigitOrDot(s[from + n])
    ensures DotRun(s, from) == n
  {
  }

  // ---------------------------------------------------------------------------
  // Temperatures in "ok T:" acknowledgements

  /**
   * Whether ^ok T:([0-9.]+)[^0-9] matches a line starting "ok T:" with a
   * group of `n` characters: n characters of [0-9.] after the prefix, then a
   * character that is not a digit.
   */
  predicate TemperatureMatch(line: string, n: nat)
  {
    0 < n && 5 + n < |line| && (forall k :: 5 <= k < 5 + n ==> IsDigitOrDot(line[k])) && !IsDigit(line[5 + n])
  }

  /**
   * Group 1 of ^ok T:([0-9.]+)[^0-9] on a line starting "ok T:": the greedy
   * run backtracks to the longest group that lets the pattern match. The run
   * is whole when a non-digit follows it; when it reaches the end of the line
   * it is cut at its last '.', so "ok T:210.5" yields "210" and "ok T:210"
   * yields nothing.
   */
  function CurrentTemperatureToken(line: string): (r: Option<string>)
    requires StartsWith(line, "ok T:")
    ensures r.Some? ==> forall k :: 0 <= k < |r.value| ==> IsDigitOrDot(r.value[k])
    ensures r.Some? ==> TemperatureMatch(line, |r.value|) && r.value == line[5..5 + |r.value|]
    ensures r.Some? ==> forall n :: |r.value| < n ==> !TemperatureMatch(line, n)
    ensures r.None? <==> forall n :: !TemperatureMatch(line, n)
  {
    var n := DotRun(line, 5);
    if n == 0 then
      None
    else if 5 + n < |line| then
      assert TemperatureMatch(line, n);
      Some(line[5..5 + n])
    else
      match LastIndexIn(line, '.', 6, 5 + n)
      case None =>
        None
      case Some(d) =>
        assert TemperatureMatch(line, d - 5);
        Some(line[5..d])
  }

  /** The length of the maximal [0-9.] run ending at `to`. */
  function DotRunBefore(s: string, to: nat): (n: nat)
    requires to <= |s|
    ensures n <= to
    ensures forall k :: to - n <= k < to ==> IsDigitOrDot(s[k])
    ensures n < to ==> !IsDigitOrDot(s[to - n - 1])
  {
    if to == 0 || !IsDigitOrDot(s[to - 1]) then 0 else 1 + DotRunBefore(s, to - 1)
  }

  /**
   * Where a non-multiline `$` matches after a character that is not a line
   * terminator: before a final CR LF, before a final line terminator, or at
   * the end.
   */
  function DollarEnd(s: string): (p: nat)
    ensures p <= |s| && EndAnchor(s, p)
  {
    if |s| >= 2 && s[|s| - 2] == '\r' && s[|s| - 1] == '\n' then |s| - 2
    else if |s| > 0 && IsLineTerminator(s[|s| - 1]) then |s| - 1
    else |s|
  }

  /**
   * Whether ^ok.*B:([0-9.]+)$ matches a line starting "ok" with group 1 at
   * [q, p): "B:" right before it, `$` right after it, and no line terminator
   * for `.*` to cross between "ok" and "B:".
   */
  predicate BedMatch(line: string, q: nat, p: nat)
  {
    4 <= q < p <= |line| && EndAnchor(line, p) && line[q - 2] == 'B' && line[q - 1] == ':' &&
    (forall k :: q <= k < p ==> IsDigitOrDot(line[k])) &&
    (forall k :: 2 <= k < q - 2 ==> !IsLineTerminator(line[k]))
  }

  /** A bed match can only sit at the one place the `$` and the [0-9.] run allow. */
  lemma BedMatchPlace(line: string, q: nat, p: nat)
    requires BedMatch(line, q, p)
    ensures p == DollarEnd(line) && q == p - DotRunBefore(line, p)
  {
    assert IsDigitOrDot(line[p - 1]);
    var n := DotRunBefore(line, p);
  }

  /**
   * Group 1 of ^ok.*B:([0-9.]+)$: the [0-9.] run that ends where `$` matches,
   * provided "B:" directly precedes it and no line terminator lies between
   * "ok" and that "B:". The match is unique, so the greedy `.*` changes nothing.
   */
  function BedTemperatureToken(line: string): (r: Option<string>)
    requires StartsWith(line, "ok")
    ensures r.Some? ==> |r.value| > 0 && forall k :: 0 <= k < |r.value| ==> IsDigitOrDot(r.value[k])
    ensures r.Some? ==> exists q: nat, p: nat :: BedMatch(line, q, p) && r.value == line[q..p]
    ensures r.None? <==> forall q: nat, p: nat :: !BedMatch(line, q, p)
  {
    var p := DollarEnd(line);
    var n := DotRunBefore(line, p);
    var q := p - n;
    if n > 0 && q >= 4 && line[q - 2] == 'B' && line[q - 1] == ':'
       && forall k :: 2 <= k < q - 2 ==> !IsLineTerminator(line[k])
    then
      assert BedMatch(line, q, p);
      Some(line[q..p])
    else
      assert forall q': nat, p': nat :: !BedMatch(line, q', p') by {
        forall q': nat, p': nat | BedMatch(line, q', p') ensures false { BedMatchPlace(line, q', p'); }
      }
      None
  }

  /** The motivating case: "ok T:210.5" reads 210, because of the backtracking. */
  lemma TemperatureBacktracks()
    ensures CurrentTemperatureToken("ok T:210.5") == Some("210")
  {
    var a := "ok T:210.5";
    assert StartsWith(a, "ok T:") by { assert a[..5] == "ok T:"; }
    DotRunIs(a, 5, 5);
    assert LastIndexIn(a, '.', 6, 10) == Some(8);
    assert a[5..8] == "210";
  }

  /** Without a character after the number there is no match at all. */
  lemma TemperatureNeedsTerminator()
    ensures CurrentTemperatureToken("ok T:210") == None
  {
    var b := "ok T:210";
    assert StartsWith(b, "ok T:") by { assert b[..5] == "ok T:"; }
    DotRunIs(b, 5, 3);
    assert LastIndexIn(b, '.', 6, 8) == None;
  }

  /** A full acknowledgement: the extruder temperature stops at the space. */
  lemma ExtruderTemperatureOfFullAck()
    ensures CurrentTemperatureToken("ok T:210.5 B:60") == Some("210.5")
  {
    var c := "ok T:210.5 B:60";
    assert StartsWith(c, "ok T:") by { assert c[..5] == "ok T:"; }
    DotRunIs(c, 5, 5);
    assert c[5..10] == "210.5";
  }

  /** A full acknowledgement: the bed temperature is the number after the last "B:". */
  lemma BedTemperatureOfFullAck()
    ensures BedTemperatureToken("ok T:210.5 B:60") == Some("60")
  {
    var c := "ok T:210.5 B:60";
    assert StartsWith(c, "ok") by { assert c[..2] == "ok"; }
    assert !IsLineTerminator(c[14]);
    assert !IsDigitOrDot(c[12]) && IsDigitOrDot(c[13]) && IsDigitOrDot(c[14]);
    assert c[11] == 'B' && c[12] == ':';
    forall k | 2 <= k < 11 ensures !IsLineTerminator(c[k]) {
      assert c[k] in "T:210.5 ";
    }
    BedTokenAt(c, 13);
    assert c[13..15] == "60";
  }

  /** The bed token read off a line ending, without a terminator, in "B:" and a [0-9.] run starting at q. */
  lemma BedTokenAt(line: string, q: nat)
    requires StartsWith(line, "ok") && 4 <= q < |line|
    requires !IsLineTerminator(line[|line| - 1])
    requires line[q - 2] == 'B' && line[q - 1] == ':'
    requires forall k :: q <= k < |line| ==> IsDigitOrDot(line[k])
    requires forall k :: 2 <= k < q - 2 ==> !IsLineTerminator(line[k])
    ensures BedTemperatureToken(line) == Some(line[q..])
  {
    DotRunBeforeIs(line, |line|, |line| - q);
    assert DotRunBefore(line, |line|) == |line| - q;
    assert line[q..|line|] == line[q..];
  }

  lemma DotRunBeforeIs(s: string, to: nat, n: nat)
    requires n <= to <= |s|
    requires forall k :: to - n <= k < to ==> IsDigitOrDot(s[k])
    requires n == to || !IsDigitOrDot(s[to - n - 1])
    ensures DotRunBefore(s, to) == n
    decreases n
  {
    if n > 0 {
      DotRunBeforeIs(s, to - 1, n - 1);
    }
  }

  /** A line without extruder codes is only reordered. */
  lemma FixIsReordered(s: string)
    requires !HasExtruderCode(s)
    ensures Fix(s) == Reordered(s)
  {
  }

  /** Fixing a fixed line changes nothing: a reordered line has no F…E… tail left and gains no extruder code. */
  lemma FixIdempotent(s: string)
    ensures Fix(Fix(s)) == Fix(s)
  {
    if HasExtruderCode(s) {
      assert FindReorder("", 0).None?;
    } else if FindReorder(s, 0).Some? {
      ReorderedOnce(s);
    }
  }

  /** A line the reorder rule rewrites comes out without an extruder code and with nothing left to reorder. */
  lemma ReorderedOnce(s: string)
    requires !HasExtruderCode(s) && FindReorder(s, 0).Some?
    ensures !HasExtruderCode(Reordered(s)) && Reordered(Reordered(s)) == Reordered(s)
  {
    var r := FindReorder(s, 0).value;
    var e := s[r.e + 1..r.eEnd];
    var f := s[r.f + 1..r.fEnd];
    ReorderedParts(s, r);
    PrefixHasNoCode(s, r.f);
    ReorderedIsFixed(Reordered(s), s[..r.f], e, f);
  }

  predicate DigitsAndDots(x: string)
  {
    forall m :: 0 <= m < |x| ==> IsDigitOrDot(x[m])
  }

  /** The rewritten line, split into prefix, E value and F digits. */
  lemma ReorderedParts(s: string, r: Reorder)
    requires FindReorder(s, 0) == Some(r)
    ensures r.f < r.fEnd <= r.e < r.eEnd <= |s|
    ensures Reordered(s) == s[..r.f] + " E" + s[r.e + 1..r.eEnd] + " " + "F" + s[r.f + 1..r.fEnd]
    ensures DigitsAndDots(s[r.e + 1..r.eEnd]) && DigitsAndDots(s[r.f + 1..r.fEnd])
  {
    TailDigits(s, r);
    var a := s[..r.f] + " E" + s[r.e + 1..r.eEnd] + " ";
    var f := s[r.f + 1..r.fEnd];
    FixOfMatch(s, r);
    FeedTokenSplit(s, r.f, r.fEnd);
    assert s[r.f..r.fEnd] == "F" + f;
    AppendAssoc(a, "F", f);
  }

  /** The F and E runs of a match are made of [0-9.]. */
  lemma TailDigits(s: string, r: Reorder)
    requires r.f < |s| && TailAt(s, r.f) == Some(r)
    ensures r.f < r.fEnd <= r.e < r.eEnd <= |s|
    ensures DigitsAndDots(s[r.e + 1..r.eEnd]) && DigitsAndDots(s[r.f + 1..r.fEnd])
  {
    TailRuns(s, r.f);
    var e := s[r.e + 1..r.eEnd];
    var f := s[r.f + 1..r.fEnd];
    forall m | 0 <= m < |e| ensures IsDigitOrDot(e[m]) {
      assert e[m] == s[r.e + 1 + m];
    }
    forall m | 0 <= m < |f| ensures IsDigitOrDot(f[m]) {
      assert f[m] == s[r.f + 1 + m];
    }
  }

  lemma FeedTokenSplit(s: string, i: nat, j: nat)
    requires i < j <= |s|
    ensures s[i..j] == [s[i]] + s[i + 1..j]
  {
  }

  /** A prefix of a line without an extruder code has none either. */
  lemma PrefixHasNoCode(s: string, i: nat)
    requires !HasExtruderCode(s) && i <= |s|
    ensures forall x :: 0 <= x < |s[..i]| ==> !ExtruderCodeAt(s[..i], x)
  {
    forall x | 0 <= x < i ensures !ExtruderCodeAt(s[..i], x) {
      if ExtruderCodeAt(s[..i], x) {
        assert ExtruderCodeAt(s, x);
      }
    }
  }

  /** A reordered line, prefix + " E" + e + " " + "F" + f, is left alone by fix. */
  lemma ReorderedIsFixed(t: string, prefix: string, e: string, f: string)
    requires t == prefix + " E" + e + " " + "F" + f
    requires forall x :: 0 <= x < |prefix| ==> !ExtruderCodeAt(prefix, x)
    requires forall m :: 0 <= m < |e| ==> IsDigitOrDot(e[m])
    requires forall m :: 0 <= m < |f| ==> IsDigitOrDot(f[m])
    ensures !HasExtruderCode(t) && Reordered(t) == t
  {
    var posF := |prefix| + 3 + |e|;
    assert t[posF] == 'F';
    forall m | posF < m < |t| ensures IsDigitOrDot(t[m]) {
      assert t[m] == f[m - posF - 1];
    }
    NoTailAfterFeed(t, posF);
    NoTailNoReorder(t, 0);
    forall x | 0 <= x < |t| ensures !ExtruderCodeAt(t, x) {
      if x + 4 <= |prefix| {
        assert t[x..x + 4] == prefix[x..x + 4];
        assert !ExtruderCodeAt(prefix, x);
      } else if x < |prefix| {
        assert t[|prefix|] == ' ';
      } else if x < |prefix| + 2 {
        assert t[x] == ' ' || t[x] == 'E';
      } else if x < |prefix| + 2 + |e| {
        assert t[x] == e[x - |prefix| - 2];
      } else if x <= posF {
        assert t[x] == ' ' || t[x] == 'F';
      } else {
        assert IsDigitOrDot(t[x]);
      }
    }
  }

  /** The [0-9.] runs of a matching tail: after its F up to fEnd, after its E up to eEnd. */
  lemma TailRuns(s: string, i: nat)
    requires i < |s| && TailAt(s, i).Some?
    ensures var r := TailAt(s, i).value;
            (forall m :: i < m < r.fEnd ==> IsDigitOrDot(s[m])) && (forall m :: r.e < m < r.eEnd ==> IsDigitOrDot(s[m]))
  {
  }

  /** A line ending in 'F' and a [0-9.] run has no F…E… tail anywhere: the E run could not reach the end. */
  lemma NoTailAfterFeed(t: string, posF: nat)
    requires posF < |t| && t[posF] == 'F'
    requires forall m :: posF < m < |t| ==> IsDigitOrDot(t[m])
    ensures forall x :: 0 <= x < |t| ==> TailAt(t, x).None?
  {
    assert !IsLineTerminator(t[|t| - 1]);
    forall x | 0 <= x < |t| ensures TailAt(t, x).None? {
      if TailAt(t, x).Some? {
        TailRuns(t, x);
      }
    }
  }

  lemma {:induction false} NoTailNoReorder(t: string, from: nat)
    requires from <= |t|
    requires forall x :: 0 <= x < |t| ==> TailAt(t, x).None?
    ensures FindReorder(t, from).None?
    decreases |t| - from
  {
    if from < |t| {
      NoTailNoReorder(t, from + 1);
    }
  }

  /**
   * One instance of the reorder: a prefix without 'M' and a single space or
   * none between the words. The general case (any \s, any line without an
   * extruder code) is FixIsReordered with ReorderMovesFeedLast.
   */
  lemma FixMovesFeedLast(prefix: string, f: string, space: string, e: string)
    requires forall k :: 0 <= k < |prefix| ==> !IsLineTerminator(prefix[k])
    requires forall k :: 0 <= k < |f| ==> IsDigitOrDot(f[k])
    requires forall k :: 0 <= k < |e| ==> IsDigitOrDot(e[k])
    requires space == "" || space == " "
    requires 'M' !in prefix
    ensures Fix(prefix + "F" + f + space + "E" + e) == prefix + " E" + e + " " + "F" + f
  {
    var s := prefix + "F" + f + space + "E" + e;
    assert 'M' !in s by {
      assert forall k :: 0 <= k < |f| ==> f[k] != 'M';
      assert forall k :: 0 <= k < |e| ==> e[k] != 'M';
    }
    FixIsReordered(s);
    ReorderMovesFeedLast(prefix, f, space, e);
  }

  // ---------------------------------------------------------------------------
  // Renderers

  /** Left padding with '0' to at least `width` characters. */
  function ZeroPad(s: string, width: nat): (r: string)
    ensures |r| == if |s| < width then width else |s|
    decreases width - |s|
  {
    if |s| >= width then s else ZeroPad("0" + s, width)
  }

  /** Drops trailing '0' characters. */
  function DropTrailingZeros(s: string): (r: string)
    ensures |r| <= |s| && r == s[..|r|]
    ensures |r| > 0 ==> r[|r| - 1] != '0'
  {
    if |s| > 0 && s[|s| - 1] == '0' then DropTrailingZeros(s[..|s| - 1]) else s
  }

  /**
   * Rounding half to even of a non-negative real, DecimalFormat's default
   * rounding: the nearest integer, and the even one of the two at a tie.
   */
  function RoundHalfEven(a: real): (n: int)
    requires a >= 0.0
    ensures n >= 0
    ensures (n as real) - 0.5 <= a <= (n as real) + 0.5
    ensures a - a.Floor as real != 0.5 ==> (n as real) - 0.5 < a < (n as real) + 0.5
    ensures a - a.Floor as real == 0.5 ==> n % 2 == 0
  {
    var f := a.Floor;
    var frac := a - f as real;
    if frac > 0.5 || (frac == 0.5 && f % 2 == 1) then f + 1 else f
  }

  /**
   * DecimalFormat("#.######") with '.' as separator: at most six fraction
   * digits rounded half to even, no trailing zeros, no integer digit when the
   * integer part is zero (0.5 prints ".5"), "0" for zero, and a '-' for every
   * negative value (so a tiny negative prints "-0").
   */
  function Format(x: real): (r: string)
    ensures |r| > 0
    ensures r[0] == '-' <==> x < 0.0
  {
    var neg := x < 0.0;
    var n := RoundHalfEven((if neg then -x else x) * 1000000.0);
    var whole := n / 1000000;
    var part := n % 1000000;
    var intText := if whole == 0 then "" else NatString(whole);
    var fracText := if part == 0 then "" else "." + DropTrailingZeros(ZeroPad(NatString(part), 6));
    var body := if intText == "" && fracText == "" then "0" else intText + fracText;
    (if neg then "-" else "") + body
  }

  /** Whole numbers print as their decimal digits. */
  lemma FormatInteger(k: int)
    ensures Format(k as real) == IntString(k)
  {
    var a: nat := if k < 0 then -k else k;
    assert (if k as real < 0.0 then -(k as real) else k as real) == a as real;
    ScaledWhole(a);
    assert NatString(0) == "0";
    if a == 0 {
      assert Format(k as real) == "0";
    } else {
      assert NatString(a) + "" == NatString(a);
    }
  }

  /** A value below one prints without an integer digit: 0.5 prints ".5". */
  lemma FormatHalf()
    ensures Format(0.5) == ".5"
  {
    HalfScaled();
    HalfDigits();
    assert 500000 / 1000000 == 0 && 500000 % 1000000 == 500000;
    assert ZeroPad("500000", 6) == "500000";
  }

  lemma HalfScaled()
    ensures RoundHalfEven(0.5 * 1000000.0) == 500000
  {
    assert 0.5 * 1000000.0 == 500000 as real;
    assert (500000 as real).Floor == 500000;
  }

  lemma HalfDigits()
    ensures NatString(500000) == "500000"
    ensures DropTrailingZeros("500000") == "5"
  {
    assert NatString(5) == "5";
    assert NatString(50) == "50";
    assert NatString(500) == "500";
    assert NatString(5000) == "5000";
    assert NatString(50000) == "50000";
    assert "500000"[..5] == "50000";
    assert "50000"[..4] == "5000";
    assert "5000"[..3] == "500";
    assert "500"[..2] == "50";
    assert "50"[..1] == "5";
  }

  /** A whole number scaled by 10^6 rounds to itself and leaves no fraction digits. */
  lemma ScaledWhole(a: nat)
    ensures RoundHalfEven((a as real) * 1000000.0) == a * 1000000
    ensures (a * 1000000) / 1000000 == a && (a * 1000000) % 1000000 == 0
  {
    var scaled := (a as real) * 1000000.0;
    assert scaled == (a * 1000000) as real;
    assert scaled.Floor == a * 1000000;
  }

  /** _getToolCode: "T", the tool index (the current tool for -1), then a space. */
  function ToolCode(current: Int32, toolhead: Int32): (r: string)
    ensures StartsWith(r, "T") && r[|r| - 1] == ' '
    ensures r[1..|r| - 1] == IntString(if toolhead == -1 then current else toolhead)
  {
    "T" + IntString(if toolhead == -1 then current else toolhead) + " "
  }

  /** The tool code names the addressed tool: two codes agree only for the same resolved index. */
  lemma ToolCodeInjective(current: Int32, t: Int32, u: Int32)
    requires ToolCode(current, t) == ToolCode(current, u)
    ensures (if t == -1 then current else t) == (if u == -1 then current else u)
  {
    IntStringInjective(if t == -1 then current else t, if u == -1 then current else u);
  }

  /** changeGearRatio as written: 40 + index in 32-bit arithmetic, then clamped to 40..46. */
  function GearCodeAsWritten(ratioIndex: Int32): (code: int)
    ensures 40 <= code <= 46
  {
    var code := Wrap32(40 + ratioIndex);
    var lower := if code > 40 then code else 40;
    if lower < 46 then lower else 46
  }

  /** changeGearRatio as intended: the gear code 40 + index clamped to 40..46, without overflow. */
  function GearCode(ratioIndex: Int32): (code: int)
    ensures 40 <= code <= 46
    ensures 0 <= ratioIndex <= 6 ==> code == 40 + ratioIndex
    ensures ratioIndex < 0 ==> code == 40
    ensures ratioIndex > 6 ==> code == 46
  {
    if ratioIndex < 0 then 40 else if ratioIndex > 6 then 46 else 40 + ratioIndex
  }

  /** The two agree except where 40 + index overflows an int. */
  lemma GearCodeAgreesWithoutOverflow(ratioIndex: Int32)
    requires 40 + ratioIndex < TwoTo31
    ensures GearCodeAsWritten(ratioIndex) == GearCode(ratioIndex)
  {
  }

  /** The largest index wraps to a negative code and selects M40 instead of M46. */
  lemma GearCodeOverflow()
    ensures GearCodeAsWritten(TwoTo31 - 1) == 40
    ensures GearCode(TwoTo31 - 1) == 46
  {
  }

  /**
   * changeGearRatio's line, "M" and the gear code as the driver computes it:
   * M40 to M46, the intended code whenever 40 + index fits an int.
   */
  function GearLine(ratioIndex: Int32): (r: string)
    ensures StartsWith(r, "M4") && |r| == 3 && r[2] == DigitChar(GearCodeAsWritten(ratioIndex) - 40)
    ensures 40 + ratioIndex < TwoTo31 ==> r == "M" + IntString(GearCode(ratioIndex))
  {
    var code := GearCodeAsWritten(ratioIndex);
    assert NatString(code) == [DigitChar(code / 10)] + [DigitChar(code % 10)];
    "M" + IntString(code)
  }

  /** At the largest index the driver sends M40, where M46 was meant. */
  lemma GearLineOverflow()
    ensures GearLine(TwoTo31 - 1) == "M40"
    ensures "M" + IntString(GearCode(TwoTo31 - 1)) == "M46"
  {
    assert NatString(40) == [DigitChar(4)] + [DigitChar(0)];
    assert NatString(46) == [DigitChar(4)] + [DigitChar(6)];
  }

  /** Java's long division, which truncates toward zero. */
  function TruncatedDiv(a: int, b: int): (q: int)
    requires b > 0
    ensures a >= 0 ==> q == a / b
    ensures a < 0 ==> q == -((-a) / b)
  {
    if a >= 0 then a / b else -((-a) / b)
  }

  /** Saturation of a value to the int range, as Math.round does. */
  function Saturate32(x: int): (r: Int32)
    ensures -TwoTo31 <= x < TwoTo31 ==> r == x
    ensures x >= TwoTo31 ==> r == TwoTo31 - 1
    ensures x < -TwoTo31 ==> r == -TwoTo31
  {
    if x < -TwoTo31 then -TwoTo31 else if x >= TwoTo31 then TwoTo31 - 1 else x
  }

  /** delay: "G4 P" and the whole seconds, millis / 1000 truncated toward zero. */
  function DelayLine(millis: Int64): (r: string)
    ensures StartsWith(r, "G4 P")
    ensures 0 <= millis < 1000 ==> r == "G4 P0"
  {
    "G4 P" + IntString(Saturate32(TruncatedDiv(millis, 1000)))
  }

  function AxisName(a: C.Axis): string
  {
    match a
    case X => "X"
    case Y => "Y"
    case Z => "Z"
    case A => "A"
    case B => "B"
  }

  function AxisWord(axes: set<C.Axis>, a: C.Axis): string
  {
    if a in axes then " " + AxisName(a) else ""
  }

  /**
   * homeAxes: "G28" followed by " " and the name of each axis of the set, in
   * axis order; the homed axes are exactly the axis letters of the line.
   */
  function HomeLine(axes: set<C.Axis>): (r: string)
    ensures StartsWith(r, "G28")
  {
    var r := "G28" + AxisWord(axes, C.X) + AxisWord(axes, C.Y) + AxisWord(axes, C.Z)
             + AxisWord(axes, C.A) + AxisWord(axes, C.B);
    assert r[..3] == "G28";
    r
  }

  /** The homed axes are exactly those whose letter appears in the line. */
  lemma HomeLineNamesAxes(axes: set<C.Axis>)
    ensures forall a: C.Axis :: a in axes <==> AxisName(a)[0] in HomeLine(axes)
  {
    forall a: C.Axis
      ensures a in axes <==> AxisName(a)[0] in HomeLine(axes)
    {
      HomeLineNamesAxis(axes, a);
    }
  }

  lemma HomeLineNamesAxis(axes: set<C.Axis>, a: C.Axis)
    ensures a in axes <==> AxisName(a)[0] in HomeLine(axes)
  {
    var c := AxisName(a)[0];
    var wx, wy, wz := AxisWord(axes, C.X), AxisWord(axes, C.Y), AxisWord(axes, C.Z);
    var wa, wb := AxisWord(axes, C.A), AxisWord(axes, C.B);
    assert HomeLine(axes) == "G28" + wx + wy + wz + wa + wb;
    assert c in HomeLine(axes) <==> c in "G28" || c in wx || c in wy || c in wz || c in wa || c in wb;
    assert c !in "G28";
    WordHolds(axes, C.X, c);
    WordHolds(axes, C.Y, c);
    WordHolds(axes, C.Z, c);
    WordHolds(axes, C.A, c);
    WordHolds(axes, C.B, c);
  }

  /** An axis word holds a letter exactly when it names that axis and the axis is homed. */
  lemma WordHolds(axes: set<C.Axis>, b: C.Axis, c: char)
    requires c != ' '
    ensures c in AxisWord(axes, b) <==> b in axes && c == AxisName(b)[0]
  {
  }
}
