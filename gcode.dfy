/**
 * The G-code line scanner (replicatorg.app.gcode.GCodeCommand): strips one
 * comment, then records one numeric value per letter of a fixed alphabet.
 * This is the scanner as the program implements it with Java regular
 * expressions, not a conforming RS-274 parser; the regular expressions'
 * matching rules are written out below (greedy `.*` that stops at a line
 * terminator, leftmost match, replaceAll over successive matches).
 */
module GCode {
  import opened Common

  /** The letter codes the scanner understands, in the order it tries them. */
  const Codes: string := "ABDEFGHIJKLMPQRSTXYZ"

  datatype Parameter = Parameter(code: char, value: real)

  /**
   * A scanned line: the command text with its comments removed, the cleaned
   * comment, and the recorded parameters in alphabet order.
   */
  datatype GCodeCommand = GCodeCommand(command: string, comment: string, parameters: seq<Parameter>)

  // ---------------------------------------------------------------------------
  // Regular-expression matching, written out

  /** The index of the first line terminator at or after `i`, or |s|: where a `.*` starting at `i` must stop. */
  function SegmentEnd(s: string, i: nat): (e: nat)
    requires i <= |s|
    ensures i <= e <= |s|
    ensures forall k :: i <= k < e ==> !IsLineTerminator(s[k])
    ensures e < |s| ==> IsLineTerminator(s[e])
    decreases |s| - i
  {
    if i == |s| || IsLineTerminator(s[i]) then i else SegmentEnd(s, i + 1)
  }

  /** The first index at or after `from` holding `c`. */
  function IndexFrom(s: string, c: char, from: nat): (r: Option<nat>)
    requires from <= |s|
    ensures r.Some? ==> from <= r.value < |s| && s[r.value] == c
    ensures r.Some? ==> forall k :: from <= k < r.value ==> s[k] != c
    ensures r.None? ==> forall k :: from <= k < |s| ==> s[k] != c
    decreases |s| - from
  {
    if from == |s| then None
    else if s[from] == c then Some(from)
    else IndexFrom(s, c, from + 1)
  }

  /** Whether a match of \((.*)\) starts at `i`, and where its ')' is. */
  function ParenAt(s: string, i: nat): (r: Option<nat>)
    requires i < |s|
    ensures r.Some? ==> s[i] == '(' && i < r.value < SegmentEnd(s, i + 1) && s[r.value] == ')'
  {
    if s[i] == '(' then LastIndexIn(s, ')', i + 1, SegmentEnd(s, i + 1)) else None
  }

  /** The leftmost match of \((.*)\) at or after `from`, as the indices of its '(' and ')'. */
  function ParenMatch(s: string, from: nat): (r: Option<(nat, nat)>)
    requires from <= |s|
    ensures r.Some? ==> from <= r.value.0 < r.value.1 < |s|
    ensures r.Some? ==> ParenAt(s, r.value.0) == Some(r.value.1)
    ensures r.Some? ==> forall k :: from <= k < r.value.0 ==> ParenAt(s, k).None?
    ensures r.None? ==> forall k :: from <= k < |s| ==> ParenAt(s, k).None?
    decreases |s| - from
  {
    if from == |s| then None
    else if ParenAt(s, from).Some? then Some((from, ParenAt(s, from).value))
    else ParenMatch(s, from + 1)
  }

  /** replaceAll("") of \((.*)\) applied to s[from..]. */
  function StripParens(s: string, from: nat): (r: string)
    requires from <= |s|
    ensures |r| <= |s| - from
    ensures forall c :: c in r ==> c in s[from..]
    ensures ParenMatch(s, from).None? ==> r == s[from..]
    ensures ParenMatch(s, from).Some? ==> var i := ParenMatch(s, from).value.0; i - from <= |r| && r[..i - from] == s[from..i]
    decreases |s| - from
  {
    match ParenMatch(s, from)
    case None => s[from..]
    case Some((i, j)) =>
      var rest := StripParens(s, j + 1);
      assert forall c :: c in rest ==> c in s[from..] by {
        forall c | c in rest ensures c in s[from..] {
          var k :| j + 1 <= k < |s| && s[k] == c;
          assert s[from..][k - from] == c;
        }
      }
      var r := s[from..i] + rest;
      assert r[..i - from] == s[from..i];
      r
  }

  /** replaceAll("") of ;(.*) applied to s[from..]: every ';' up to its line's end goes. */
  function StripSemis(s: string, from: nat): (r: string)
    requires from <= |s|
    ensures ';' !in r
    ensures IndexFrom(s, ';', from).None? ==> r == s[from..]
    ensures IndexFrom(s, ';', from).Some? ==>
              var k := IndexFrom(s, ';', from).value;
              k - from <= |r| && r[..k - from] == s[from..k] && (SegmentEnd(s, k + 1) == |s| ==> r == s[from..k])
    decreases |s| - from
  {
    match IndexFrom(s, ';', from)
    case None =>
      assert forall m :: 0 <= m < |s[from..]| ==> s[from..][m] == s[from + m];
      s[from..]
    case Some(k) =>
      var head := s[from..k];
      var rest := StripSemis(s, SegmentEnd(s, k + 1));
      assert forall m :: 0 <= m < |head| ==> head[m] == s[from + m];
      assert (head + rest)[..k - from] == head;
      head + rest
  }

  // ---------------------------------------------------------------------------
  // parseComments

  /**
   * The comment text before cleaning: group 1 of the first ;(.*) match when
   * there is one (it overrides a parenthesised comment), else group 1 of the
   * first \((.*)\) match, else nothing. Both are searched in the original line.
   */
  function RawComment(line: string): (r: string)
    ensures forall k :: 0 <= k < |r| ==> !IsLineTerminator(r[k])
    ensures IndexFrom(line, ';', 0).Some? ==> IndexFrom(line, ';', 0).value + 1 + |r| <= |line|
  {
    match IndexFrom(line, ';', 0)
    case Some(k) => line[k + 1..SegmentEnd(line, k + 1)]
    case None =>
      match ParenMatch(line, 0)
      case Some((i, j)) => line[i + 1..j]
      case None => ""
  }

  /** The stored comment: trimmed, then every '|' turned into a line break. */
  function CleanComment(raw: string): (c: string)
    ensures '|' !in c
    ensures |c| == |Trim(raw)|
    ensures forall k :: 0 <= k < |c| ==> c[k] == (if Trim(raw)[k] == '|' then '\n' else Trim(raw)[k])
  {
    var c := ReplaceChar(Trim(raw), '|', '\n');
    assert forall i :: 0 <= i < |c| ==> c[i] != '|';
    c
  }

  /** The command text: parenthesised comments removed first, then semicolon comments. */
  function StripComments(line: string): (r: string)
    ensures ';' !in r
  {
    StripSemis(StripParens(line, 0), 0)
  }

  // ---------------------------------------------------------------------------
  // parseCodes

  /** The class [0-9.+-] of a code's numeric run. */
  predicate IsNumberChar(c: char)
  {
    IsDigit(c) || c == '.' || c == '+' || c == '-'
  }

  /** The length of the maximal [0-9.+-] run starting at `from`. */
  function RunLength(s: string, from: nat): (n: nat)
    requires from <= |s|
    ensures from + n <= |s|
    ensures forall k :: from <= k < from + n ==> IsNumberChar(s[k])
    ensures from + n < |s| ==> !IsNumberChar(s[from + n])
    decreases |s| - from
  {
    if from == |s| || !IsNumberChar(s[from]) then 0 else 1 + RunLength(s, from + 1)
  }

  lemma RunLengthIs(s: string, from: nat, n: nat)
    requires from + n <= |s|
    requires forall k :: from <= k < from + n ==> IsNumberChar(s[k])
    requires from + n == |s| || !IsNumberChar(s[from + n])
    ensures RunLength(s, from) == n
  {
  }

  /**
   * Group 1 of the leftmost match of `code`([0-9.+-]+) at or after `from`:
   * the maximal run after the first occurrence of `code` that is directly
   * followed by a number character.
   */
  function NumberAfter(s: string, code: char, from: nat): (r: Option<string>)
    requires from <= |s|
    ensures r.Some? ==> |r.value| > 0 && forall k :: 0 <= k < |r.value| ==> IsNumberChar(r.value[k])
    ensures r.None? <==> FirstCode(s, code, from).None?
    ensures r.Some? ==> var p := FirstCode(s, code, from).value; r.value == s[p + 1..p + 1 + RunLength(s, p + 1)]
    decreases |s| - from
  {
    if from + 1 >= |s| then None
    else if s[from] == code && IsNumberChar(s[from + 1]) then Some(s[from + 1..from + 1 + RunLength(s, from + 1)])
    else NumberAfter(s, code, from + 1)
  }

  /** Whether a match of `code`([0-9.+-]+) starts at p: the letter, then at least one number character. */
  predicate CodeAt(s: string, code: char, p: nat)
  {
    p + 1 < |s| && s[p] == code && IsNumberChar(s[p + 1])
  }

  /** The first position at or after `from` where a match of `code`([0-9.+-]+) starts. */
  function FirstCode(s: string, code: char, from: nat): (r: Option<nat>)
    requires from <= |s|
    ensures r.Some? ==> from <= r.value < |s| && CodeAt(s, code, r.value)
    ensures r.Some? ==> forall q :: from <= q < r.value ==> !CodeAt(s, code, q)
    ensures r.None? ==> forall q :: from <= q < |s| ==> !CodeAt(s, code, q)
    decreases |s| - from
  {
    if from == |s| then None
    else if CodeAt(s, code, from) then Some(from)
    else FirstCode(s, code, from + 1)
  }

  /** The value recorded for a code that occurs in the command: its parsed run, or 0 without one. */
  function CodeValue(command: string, code: char): (r: Result<real>)
    ensures r.Err? ==> NumberAfter(command, code, 0).Some? && r.error == NumberFormat(NumberAfter(command, code, 0).value)
    ensures NumberAfter(command, code, 0).None? ==> r == Ok(0.0)
    ensures NumberAfter(command, code, 0).Some? ==>
              (r.Ok? <==> ParseDecimal(NumberAfter(command, code, 0).value).Some?) &&
              (r.Ok? ==> r.value == ParseDecimal(NumberAfter(command, code, 0).value).value)
  {
    match NumberAfter(command, code, 0)
    case None => Ok(0.0)
    case Some(token) =>
      match ParseDecimal(token)
      case None => Err(NumberFormat(token))
      case Some(v) => Ok(v)
  }

  /**
   * The parameters recorded for the letters of `letters`, tried in order;
   * the first malformed run aborts the scan with NumberFormatException.
   */
  function ScanCodes(command: string, letters: string): (r: Result<seq<Parameter>>)
    ensures r.Ok? ==> forall p :: p in r.value ==> p.code in letters && p.code in command
    ensures r.Err? ==> r.error.NumberFormat?
    decreases |letters|
  {
    if |letters| == 0 then Ok([])
    else
      match ScanCodes(command, letters[..|letters| - 1])
      case Err(e) => Err(e)
      case Ok(ps) =>
        var c := letters[|letters| - 1];
        if c !in command then Ok(ps)
        else
          match CodeValue(command, c)
          case Err(e) => Err(e)
          case Ok(v) => Ok(ps + [Parameter(c, v)])
  }

  /** The letters of `letters` that occur in the command, in order. */
  function Present(command: string, letters: string): (r: string)
    ensures forall c :: c in r <==> c in letters && c in command
    decreases |letters|
  {
    if |letters| == 0 then ""
    else
      var c := letters[|letters| - 1];
      var rest := Present(command, letters[..|letters| - 1]);
      assert forall d :: d in letters <==> d in letters[..|letters| - 1] || d == c by {
        assert letters == letters[..|letters| - 1] + [c];
      }
      if c in command then rest + [c] else rest
  }

  /** The codes of a parameter list, in order. */
  function CodesOf(ps: seq<Parameter>): (r: string)
    ensures |r| == |ps| && forall i :: 0 <= i < |ps| ==> r[i] == ps[i].code
  {
    seq(|ps|, i requires 0 <= i < |ps| => ps[i].code)
  }

  /** The whole line scan, as a value: the constructor's specification. */
  function ParseLine(line: string): (r: Result<GCodeCommand>)
    ensures r.Err? ==> r.error.NumberFormat?
    ensures r.Ok? ==> ';' !in r.value.command && '|' !in r.value.comment
    ensures r.Ok? ==> forall p :: p in r.value.parameters ==> p.code in Codes && p.code in r.value.command
  {
    var command := StripComments(line);
    match ScanCodes(command, Codes)
    case Err(e) => Err(e)
    case Ok(ps) => Ok(GCodeCommand(command, CleanComment(RawComment(line)), ps))
  }

  /** Once a prefix of the alphabet fails, the whole scan fails with the same exception. */
  lemma {:induction false} ScanErrorPropagates(command: string, letters: string, n: nat)
    requires n <= |letters|
    requires ScanCodes(command, letters[..n]).Err?
    ensures ScanCodes(command, letters) == ScanCodes(command, letters[..n])
    decreases |letters| - n
  {
    if n < |letters| {
      assert letters[..n + 1][..n] == letters[..n];
      assert ScanCodes(command, letters[..n + 1]) == ScanCodes(command, letters[..n]);
      ScanErrorPropagates(command, letters, n + 1);
    } else {
      assert letters[..n] == letters;
    }
  }

  /**
   * parseCodes: for each letter of the alphabet that occurs anywhere in the
   * command, record the value of its first numeric run (0 when there is none).
   */
  method ParseCodes(command: string) returns (r: Result<seq<Parameter>>)
    ensures r == ScanCodes(command, Codes)
  {
    var parameters: seq<Parameter> := [];
    for i := 0 to |Codes|
      invariant ScanCodes(command, Codes[..i]) == Ok(parameters)
    {
      var code := Codes[i];
      assert Codes[..i + 1][..i] == Codes[..i];
      if code in command {
        var value := 0.0;
        var token := NumberAfter(command, code, 0);
        if token.Some? {
          var parsed := ParseDecimal(token.value);
          if parsed.None? {
            r := Err(NumberFormat(token.value));
            ScanErrorPropagates(command, Codes, i + 1);
            return;
          }
          value := parsed.value;
        }
        parameters := parameters + [Parameter(code, value)];
      }
    }
    assert Codes[..|Codes|] == Codes;
    r := Ok(parameters);
  }

  /**
   * The constructor GCodeCommand(String): strip the comments, keep the cleaned
   * comment, scan the codes; a malformed number throws NumberFormatException.
   */
  method Parse(line: string) returns (r: Result<GCodeCommand>)
    ensures r == ParseLine(line)
    ensures r.Ok? ==> ';' !in r.value.command && '|' !in r.value.comment
  {
    var command := StripComments(line);
    var comment := CleanComment(RawComment(line));
    var scanned := ParseCodes(command);
    if scanned.Err? {
      return Err(scanned.error);
    }
    r := Ok(GCodeCommand(command, comment, scanned.value));
  }

  // ---------------------------------------------------------------------------
  // Accessors

  /** The value of the first parameter with code `c`. */
  function Lookup(ps: seq<Parameter>, c: char): (r: Option<real>)
    ensures r.None? <==> c !in CodesOf(ps)
    ensures r.Some? ==> exists i :: 0 <= i < |ps| && ps[i] == Parameter(c, r.value) && c !in CodesOf(ps[..i])
  {
    if |ps| == 0 then None
    else if ps[0].code == c then
      assert ps[..0] == [];
      Some(ps[0].value)
    else
      var r := Lookup(ps[1..], c);
      assert CodesOf(ps) == [ps[0].code] + CodesOf(ps[1..]);
      if r.Some? then
        var i :| 0 <= i < |ps[1..]| && ps[1..][i] == Parameter(c, r.value) && c !in CodesOf(ps[1..][..i]);
        assert ps[..i + 1][1..] == ps[1..][..i];
        assert CodesOf(ps[..i + 1]) == [ps[0].code] + CodesOf(ps[1..][..i]);
        assert ps[i + 1] == Parameter(c, r.value);
        r
      else r
  }

  /** hasCode. */
  predicate HasCode(g: GCodeCommand, c: char)
  {
    Lookup(g.parameters, c).Some?
  }

  /** getCodeValue(char): the recorded value, or IllegalStateException when there is none. */
  function GetCodeValue(g: GCodeCommand, c: char): (r: Result<real>)
    ensures r.Ok? <==> HasCode(g, c)
    ensures r.Ok? ==> Parameter(c, r.value) in g.parameters
    ensures r.Err? ==> r.error.IllegalState?
  {
    match Lookup(g.parameters, c)
    case Some(v) => Ok(v)
    case None =>
      Err(IllegalState("getCodeValue called for nonexistent code " + [c] + "; caller should have checked hasCode first!"))
  }

  /** getCodeValue(char, double): the recorded value, or the fallback. */
  function GetCodeValueOr(g: GCodeCommand, c: char, fallback: real): (r: real)
    ensures HasCode(g, c) ==> Parameter(c, r) in g.parameters
    ensures !HasCode(g, c) ==> r == fallback
  {
    match Lookup(g.parameters, c)
    case Some(v) => v
    case None => fallback
  }

  /** Java's (int) conversion of a double: truncation toward zero, saturating at the int range. */
  function TruncateToInt(v: real): (r: Int32)
    ensures (v >= 0.0 ==> r >= 0) && (v <= 0.0 ==> r <= 0)
    ensures -TwoTo31 as real < v < TwoTo31 as real ==> -1.0 < v - r as real < 1.0
    ensures -TwoTo31 as real < v < TwoTo31 as real ==> (if v >= 0.0 then r as real <= v else v <= r as real)
    ensures v >= TwoTo31 as real ==> r == TwoTo31 - 1
    ensures v <= -TwoTo31 as real ==> r == -TwoTo31
  {
    if v >= 0.0 then
      if v.Floor >= TwoTo31 then TwoTo31 - 1 else v.Floor
    else
      var t := -((-v).Floor);
      assert v <= t as real < v + 1.0;
      if t < -TwoTo31 then -TwoTo31 else t
  }

  /** getCodeValueInt(char): the recorded value truncated to an int, or IllegalStateException. */
  function GetCodeValueInt(g: GCodeCommand, c: char): (r: Result<Int32>)
    ensures r.Ok? <==> HasCode(g, c)
    ensures r.Ok? ==> exists v :: Parameter(c, v) in g.parameters && r.value == TruncateToInt(v)
    ensures r.Err? ==> r.error.IllegalState?
  {
    match Lookup(g.parameters, c)
    case Some(v) => Ok(TruncateToInt(v))
    case None =>
      Err(IllegalState("getCodeValueInt called for nonexistent code " + [c] + "; caller should have checked hasCode first!"))
  }

  /** getCodeValueInt(char, int): (int) getCodeValue(c, fallback). */
  function GetCodeValueIntOr(g: GCodeCommand, c: char, fallback: Int32): (r: Int32)
    ensures !HasCode(g, c) ==> r == fallback
    ensures HasCode(g, c) ==> GetCodeValueInt(g, c) == Ok(r)
  {
    TruncateToInt(GetCodeValueOr(g, c, fallback as real))
  }

  // ---------------------------------------------------------------------------
  // Properties of the scan

  predicate StrictlyIncreasing(s: string)
  {
    forall i, j :: 0 <= i < j < |s| ==> s[i] < s[j]
  }

  /** The alphabet is in character order, so "alphabet order" is character order. */
  lemma CodesIncreasing()
    ensures StrictlyIncreasing(Codes)
  {
    assert forall i :: 0 <= i < |Codes| - 1 ==> Codes[i] < Codes[i + 1];
    IncreasingFromConsecutive(Codes);
  }

  lemma IncreasingFromConsecutive(s: string)
    requires forall i :: 0 <= i < |s| - 1 ==> s[i] < s[i + 1]
    ensures StrictlyIncreasing(s)
  {
    forall i, j | 0 <= i < j < |s| ensures s[i] < s[j] {
      var k := i;
      while k < j
        invariant i <= k <= j && s[i] <= s[k]
        invariant k > i ==> s[i] < s[k]
      {
        k := k + 1;
      }
    }
  }

  /** A successful scan records, in order, exactly the letters present, each with its CodeValue. */
  lemma {:induction false} ScanShape(command: string, letters: string)
    requires ScanCodes(command, letters).Ok?
    ensures CodesOf(ScanCodes(command, letters).value) == Present(command, letters)
    ensures forall p :: p in ScanCodes(command, letters).value ==> CodeValue(command, p.code) == Ok(p.value)
    decreases |letters|
  {
    if |letters| > 0 {
      var prefix := letters[..|letters| - 1];
      ScanShape(command, prefix);
      var ps := ScanCodes(command, prefix).value;
      var c := letters[|letters| - 1];
      if c in command {
        assert CodesOf(ps + [Parameter(c, CodeValue(command, c).value)]) == CodesOf(ps) + [c];
      }
    }
  }

  /** The scan fails exactly when some present letter has a malformed numeric run. */
  lemma {:induction false} ScanFailsIff(command: string, letters: string)
    ensures ScanCodes(command, letters).Err? <==>
            exists c :: c in letters && c in command && CodeValue(command, c).Err?
    decreases |letters|
  {
    if |letters| > 0 {
      var prefix := letters[..|letters| - 1];
      var c := letters[|letters| - 1];
      ScanFailsIff(command, prefix);
      assert letters == prefix + [c];
      assert forall d :: d in letters <==> d in prefix || d == c;
      if ScanCodes(command, prefix).Err? {
        var d :| d in prefix && d in command && CodeValue(command, d).Err?;
        assert d in letters;
      } else if c in command && CodeValue(command, c).Err? {
        assert ScanCodes(command, letters).Err?;
      } else {
        assert ScanCodes(command, letters).Ok?;
        forall d | d in letters && d in command ensures CodeValue(command, d).Ok? {
          if d !in prefix {
            assert d == c;
          }
        }
      }
    }
  }

  /** Present keeps the order of an increasing alphabet. */
  lemma {:induction false} PresentIncreasing(command: string, letters: string)
    requires StrictlyIncreasing(letters)
    ensures StrictlyIncreasing(Present(command, letters))
    decreases |letters|
  {
    if |letters| > 0 {
      var prefix := letters[..|letters| - 1];
      var c := letters[|letters| - 1];
      PresentIncreasing(command, prefix);
      var rest := Present(command, prefix);
      forall d | d in rest ensures d < c {
        var k :| 0 <= k < |prefix| && prefix[k] == d;
      }
      if c in command {
        var r := rest + [c];
        forall i, j | 0 <= i < j < |r| ensures r[i] < r[j] {
          if j == |rest| {
            assert r[i] == rest[i] && rest[i] in rest;
          }
        }
      }
    }
  }

  /**
   * A scanned line holds a parameter for `c` exactly when `c` is in the
   * alphabet and occurs in the stripped command; the parameters are in
   * alphabet order with one entry per letter, and each holds its CodeValue.
   */
  lemma ParsedParameters(line: string, c: char)
    requires ParseLine(line).Ok?
    ensures HasCode(ParseLine(line).value, c) <==> c in Codes && c in ParseLine(line).value.command
    ensures StrictlyIncreasing(CodesOf(ParseLine(line).value.parameters))
    ensures HasCode(ParseLine(line).value, c) ==>
              GetCodeValue(ParseLine(line).value, c) == CodeValue(ParseLine(line).value.command, c)
  {
    var g := ParseLine(line).value;
    ScanShape(g.command, Codes);
    CodesIncreasing();
    PresentIncreasing(g.command, Codes);
  }

  /** Construction fails exactly when some present alphabet letter is followed by a malformed run. */
  lemma ParseFailsIff(line: string)
    ensures ParseLine(line).Err? <==>
            exists c :: c in Codes && c in StripComments(line) && CodeValue(StripComments(line), c).Err?
    ensures ParseLine(line).Err? ==> ParseLine(line).error.NumberFormat?
  {
    ScanFailsIff(StripComments(line), Codes);
    ScanErrorsAreNumberFormat(StripComments(line), Codes);
  }

  lemma {:induction false} ScanErrorsAreNumberFormat(command: string, letters: string)
    ensures ScanCodes(command, letters).Err? ==> ScanCodes(command, letters).error.NumberFormat?
    decreases |letters|
  {
    if |letters| > 0 {
      ScanErrorsAreNumberFormat(command, letters[..|letters| - 1]);
    }
  }

  /** A run such as "1.2.3" after a present letter makes construction throw. */
  lemma MalformedRunThrows(line: string, c: char, i: nat, j: nat)
    requires c in Codes && c in StripComments(line)
    requires NumberAfter(StripComments(line), c, 0).Some?
    requires i < j < |NumberAfter(StripComments(line), c, 0).value|
    requires NumberAfter(StripComments(line), c, 0).value[i] == '.'
    requires NumberAfter(StripComments(line), c, 0).value[j] == '.'
    ensures ParseLine(line).Err?
  {
    TwoDotsRejected(NumberAfter(StripComments(line), c, 0).value, i, j);
    ParseFailsIff(line);
  }

  // ---------------------------------------------------------------------------
  // Properties of comment stripping

  /** Without '(' or ';' the command is the line itself, untouched, and the comment is empty. */
  lemma NoCommentKeepsLine(line: string)
    requires '(' !in line && ';' !in line
    ensures StripComments(line) == line
    ensures ParseLine(line).Ok? ==> ParseLine(line).value.comment == ""
  {
    assert ParenMatch(line, 0).None? by {
      assert forall k :: 0 <= k < |line| ==> ParenAt(line, k).None?;
    }
    assert StripParens(line, 0) == line;
  }

  /** When a ';' is present the comment is the rest of its line, whatever parentheses precede it. */
  lemma SemicolonCommentWins(line: string, k: nat)
    requires k < |line| && line[k] == ';' && ';' !in line[..k]
    ensures RawComment(line) == line[k + 1..SegmentEnd(line, k + 1)]
  {
    assert IndexFrom(line, ';', 0) == Some(k) by {
      var r := IndexFrom(line, ';', 0);
      if r.None? || r.value > k {
        assert false;
      } else if r.value < k {
        assert false;
      }
    }
  }

  /** Without a line terminator, the search for the last ')' finds the given final ')'. */
  lemma LastCloseIs(s: string, lo: nat, j: nat)
    requires lo <= j < |s| && s[j] == ')'
    requires forall k :: j < k < |s| ==> s[k] != ')'
    ensures LastIndexIn(s, ')', lo, |s|) == Some(j)
  {
    var r := LastIndexIn(s, ')', lo, |s|);
    if r.None? || r.value < j {
      assert false;
    }
  }

  lemma NoTerminatorSegment(s: string, i: nat)
    requires i <= |s|
    requires forall k :: 0 <= k < |s| ==> !IsLineTerminator(s[k])
    ensures SegmentEnd(s, i) == |s|
  {
  }

  /** On a one-line input, the first '(' that has a ')' after it starts the leftmost match. */
  lemma FirstParenMatch(line: string, i: nat, j: nat)
    requires forall k :: 0 <= k < |line| ==> !IsLineTerminator(line[k])
    requires i < j < |line| && line[i] == '(' && line[j] == ')'
    requires '(' !in line[..i]
    requires forall k :: j < k < |line| ==> line[k] != ')'
    ensures ParenMatch(line, 0) == Some((i, j))
  {
    assert ParenAt(line, i) == Some(j) by {
      NoTerminatorSegment(line, i + 1);
      LastCloseIs(line, i + 1, j);
    }
    forall k | 0 <= k < i ensures ParenAt(line, k).None? {
      assert line[..i][k] == line[k];
    }
    var m := ParenMatch(line, 0);
    if m.None? || m.value.0 > i {
      assert false;
    }
  }

  /** On a one-line input, nothing after the last ')' can start a match. */
  lemma NoParenMatchAfter(line: string, from: nat)
    requires forall k :: 0 <= k < |line| ==> !IsLineTerminator(line[k])
    requires from <= |line|
    requires forall k :: from <= k < |line| ==> line[k] != ')'
    ensures ParenMatch(line, from).None?
  {
    forall k | from <= k < |line| ensures ParenAt(line, k).None? {
      NoTerminatorSegment(line, k + 1);
    }
  }

  /**
   * On a one-line input without ';', the parenthesised comment is greedy: it
   * runs from the first '(' to the last ')', and that whole span is deleted.
   */
  lemma GreedyParenComment(line: string, i: nat, j: nat)
    requires forall k :: 0 <= k < |line| ==> !IsLineTerminator(line[k])
    requires ';' !in line
    requires i < j < |line| && line[i] == '(' && line[j] == ')'
    requires '(' !in line[..i]
    requires forall k :: j < k < |line| ==> line[k] != ')'
    ensures StripComments(line) == line[..i] + line[j + 1..]
    ensures RawComment(line) == line[i + 1..j]
  {
    FirstParenMatch(line, i, j);
    NoParenMatchAfter(line, j + 1);
    var stripped := line[..i] + line[j + 1..];
    assert StripParens(line, j + 1) == line[j + 1..];
    assert line[0..i] == line[..i];
    assert StripParens(line, 0) == stripped;
    assert ';' !in stripped by {
      assert forall k :: 0 <= k < |stripped| ==> stripped[k] in line;
    }
    assert IndexFrom(stripped, ';', 0).None?;
    assert StripSemis(stripped, 0) == stripped[0..];
    assert IndexFrom(line, ';', 0).None?;
  }

  /**
   * On a one-line input, everything from the first ';' left after removing
   * the parenthesised comment to the end of the line is deleted, and the text
   * before it is kept unaltered.
   */
  lemma SemicolonCommandIsPrefix(line: string, k: nat)
    requires forall m :: 0 <= m < |line| ==> !IsLineTerminator(line[m])
    requires k < |StripParens(line, 0)| && StripParens(line, 0)[k] == ';' && ';' !in StripParens(line, 0)[..k]
    ensures StripComments(line) == StripParens(line, 0)[..k]
  {
    var p := StripParens(line, 0);
    forall m | 0 <= m < |p| ensures !IsLineTerminator(p[m]) {
      assert p[m] in p;
      var n :| 0 <= n < |line| && line[n] == p[m];
    }
    assert IndexFrom(p, ';', 0) == Some(k) by {
      var r := IndexFrom(p, ';', 0);
      if r.None? || r.value > k {
        assert false;
      } else if r.value < k {
        assert false;
      }
    }
    NoTerminatorSegment(p, k + 1);
  }

  /** A one-line command without parentheses is the text before its first ';'. */
  lemma SemicolonCommentCut(line: string, k: nat)
    requires forall m :: 0 <= m < |line| ==> !IsLineTerminator(line[m])
    requires '(' !in line
    requires k < |line| && line[k] == ';' && ';' !in line[..k]
    ensures StripComments(line) == line[..k]
  {
    assert ParenMatch(line, 0).None? by {
      assert forall m :: 0 <= m < |line| ==> ParenAt(line, m).None?;
    }
    assert StripParens(line, 0) == line;
    SemicolonCommandIsPrefix(line, k);
  }

  /**
   * The value recorded for a code is read from the first occurrence of the
   * letter followed by a number character, over the whole run that follows.
   */
  lemma CodeValueReadsWord(command: string, code: char, p: nat, n: nat)
    requires CodeAt(command, code, p)
    requires forall q :: 0 <= q < p ==> !CodeAt(command, code, q)
    requires p + 1 + n <= |command| && AllDigits(command[p + 1..p + 1 + n])
    requires p + 1 + n == |command| || !IsNumberChar(command[p + 1 + n])
    ensures CodeValue(command, code) == Ok(DigitsValue(command[p + 1..p + 1 + n]) as real)
  {
    var word := command[p + 1..p + 1 + n];
    assert forall k :: p + 1 <= k < p + 1 + n ==> IsNumberChar(command[k]) by {
      forall k | p + 1 <= k < p + 1 + n ensures IsNumberChar(command[k]) {
        assert word[k - p - 1] == command[k];
      }
    }
    RunLengthIs(command, p + 1, n);
    FirstCodeAt(command, code, p);
    assert NumberAfter(command, code, 0) == Some(word);
    assert n > 0;
    DigitsParse(word);
  }

  /** The token is taken at the first position where the letter is followed by a number character. */
  lemma FirstCodeAt(s: string, code: char, p: nat)
    requires p < |s| && CodeAt(s, code, p)
    requires forall q :: 0 <= q < p ==> !CodeAt(s, code, q)
    ensures NumberAfter(s, code, 0) == Some(s[p + 1..p + 1 + RunLength(s, p + 1)])
  {
    var r := FirstCode(s, code, 0);
    if r.None? || r.value > p {
      assert false;
    } else if r.value < p {
      assert false;
    }
  }

  /** "G1 X5" records 5 for X: the run after the X, not after the first letter. */
  lemma MoveWordRead()
    ensures CodeValue("G1 X5", 'X') == Ok(5.0)
  {
    var c := "G1 X5";
    assert forall q :: 0 <= q < 3 ==> !CodeAt(c, 'X', q);
    assert c[4..5] == "5";
    assert DigitsValue("5") == 5 by { assert DigitsValue("") == 0; }
    CodeValueReadsWord(c, 'X', 3, 1);
  }

  // ---------------------------------------------------------------------------
  // Re-parsing a stripped command

  /** A line terminator lies strictly between i and j. */
  predicate TerminatorBetween(r: string, i: nat, j: nat)
  {
    exists k :: i < k < j <= |r| && IsLineTerminator(r[k])
  }

  /** No '(' has a ')' after it on the same line: the paren pattern cannot match. */
  predicate Closed(r: string)
  {
    forall i, j :: 0 <= i < j < |r| && r[i] == '(' && r[j] == ')' ==> TerminatorBetween(r, i, j)
  }

  /** A '(' that starts no match is separated by a line terminator from every later ')'. */
  lemma OpenParenGap(s: string, k: nat, j: nat)
    requires k < j < |s| && s[k] == '(' && s[j] == ')' && ParenAt(s, k).None?
    ensures TerminatorBetween(s, k, j)
  {
    var e := SegmentEnd(s, k + 1);
    if e <= j {
      assert IsLineTerminator(s[e]);
    }
  }

  /** A stretch in which no position starts a paren match is itself closed. */
  lemma NoMatchClosed(s: string, from: nat, hi: nat)
    requires from <= hi <= |s|
    requires forall k :: from <= k < hi ==> ParenAt(s, k).None?
    ensures Closed(s[from..hi])
  {
    var r := s[from..hi];
    forall a, b | 0 <= a < b < |r| && r[a] == '(' && r[b] == ')' ensures TerminatorBetween(r, a, b) {
      OpenParenGap(s, from + a, from + b);
      var t :| from + a < t < from + b <= |s| && IsLineTerminator(s[t]);
      assert r[t - from] == s[t];
    }
  }

  /** Any stretch of a closed text is closed. */
  lemma ClosedSlice(s: string, lo: nat, hi: nat)
    requires lo <= hi <= |s| && Closed(s)
    ensures Closed(s[lo..hi])
  {
    var r := s[lo..hi];
    forall a, b | 0 <= a < b < |r| && r[a] == '(' && r[b] == ')' ensures TerminatorBetween(r, a, b) {
      assert s[lo + a] == '(' && s[lo + b] == ')';
      var t :| lo + a < t < lo + b <= |s| && IsLineTerminator(s[t]);
      assert r[t - lo] == s[t];
    }
  }

  /**
   * Two closed texts joined stay closed when every '(' of the first is cut
   * off from the second by a line terminator no later than the join.
   */
  lemma ConcatClosed(pre: string, rest: string)
    requires Closed(pre) && Closed(rest)
    requires |rest| > 0 ==> forall a :: 0 <= a < |pre| && pre[a] == '(' ==> TerminatorBetween(pre + rest, a, |pre| + 1)
    ensures Closed(pre + rest)
  {
    var r := pre + rest;
    forall a, b | 0 <= a < b < |r| && r[a] == '(' && r[b] == ')' ensures TerminatorBetween(r, a, b) {
      if b < |pre| {
        assert pre[a] == '(' && pre[b] == ')';
        var t :| a < t < b <= |pre| && IsLineTerminator(pre[t]);
        assert r[t] == pre[t];
      } else if a >= |pre| {
        assert rest[a - |pre|] == '(' && rest[b - |pre|] == ')';
        var t :| a - |pre| < t < b - |pre| <= |rest| && IsLineTerminator(rest[t]);
        assert r[t + |pre|] == rest[t];
      } else {
        assert pre[a] == '(';
        var t :| a < t < |pre| + 1 <= |r| && IsLineTerminator(r[t]);
        assert t != b;
      }
    }
  }

  /** Before a paren match, every '(' meets a line terminator before the match's ')'. */
  lemma ParenCross(s: string, from: nat, i: nat, j: nat, rest: string)
    requires from <= |s| && ParenMatch(s, from) == Some((i, j))
    ensures |rest| > 0 ==> forall a :: 0 <= a < i - from && s[from..i][a] == '(' ==> TerminatorBetween(s[from..i] + rest, a, i - from + 1)
  {
    var pre := s[from..i];
    forall a | 0 <= a < |pre| && pre[a] == '(' && |rest| > 0 ensures TerminatorBetween(pre + rest, a, |pre| + 1) {
      OpenParenGap(s, from + a, j);
      var t :| from + a < t < j <= |s| && IsLineTerminator(s[t]);
      assert t < i by {
        assert ParenAt(s, i) == Some(j);
      }
      assert (pre + rest)[t - from] == s[t];
    }
  }

  /** replaceAll of the paren pattern leaves no match behind. */
  lemma {:induction false} ParensClosed(s: string, from: nat)
    requires from <= |s|
    ensures Closed(StripParens(s, from))
    decreases |s| - from
  {
    match ParenMatch(s, from)
    case None =>
      NoMatchClosed(s, from, |s|);
      assert s[from..|s|] == s[from..];
    case Some((i, j)) =>
      ParensClosed(s, j + 1);
      ParenStepClosed(s, from, i, j, StripParens(s, j + 1));
  }

  /** One match removed: the text before it joined to the closed rest stays closed. */
  lemma ParenStepClosed(s: string, from: nat, i: nat, j: nat, rest: string)
    requires from <= |s| && ParenMatch(s, from) == Some((i, j)) && Closed(rest)
    ensures Closed(s[from..i] + rest)
  {
    NoMatchClosed(s, from, i);
    ParenCross(s, from, i, j, rest);
    ConcatClosed(s[from..i], rest);
  }

  /** A later stretch of semicolon stripping starts with the line terminator that ended the comment. */
  lemma SemisRestStarts(s: string, e: nat)
    requires e < |s| && IsLineTerminator(s[e])
    ensures |StripSemis(s, e)| > 0 && StripSemis(s, e)[0] == s[e]
  {
  }

  /** A text that starts with a line terminator is cut off from every '(' before it. */
  lemma SemisCross(pre: string, rest: string)
    requires |rest| > 0 ==> IsLineTerminator(rest[0])
    ensures |rest| > 0 ==> forall a :: 0 <= a < |pre| && pre[a] == '(' ==> TerminatorBetween(pre + rest, a, |pre| + 1)
  {
    if |rest| > 0 {
      assert (pre + rest)[|pre|] == rest[0];
    }
  }

  /** replaceAll of ;(.*) keeps a text without paren matches free of them. */
  lemma {:induction false} SemisClosed(s: string, from: nat)
    requires from <= |s| && Closed(s)
    ensures Closed(StripSemis(s, from))
    decreases |s| - from
  {
    match IndexFrom(s, ';', from)
    case None =>
      ClosedSlice(s, from, |s|);
      assert s[from..|s|] == s[from..];
    case Some(k) =>
      var e := SegmentEnd(s, k + 1);
      SemisClosed(s, e);
      SemiUnfoldClosed(s, from, k, e);
  }

  /** StripSemis from `from` is the text up to the first ';' joined to StripSemis from its line's end. */
  lemma SemiUnfoldClosed(s: string, from: nat, k: nat, e: nat)
    requires from <= |s| && Closed(s) && IndexFrom(s, ';', from) == Some(k) && e == SegmentEnd(s, k + 1)
    requires Closed(StripSemis(s, e))
    ensures Closed(StripSemis(s, from))
  {
    var rest := StripSemis(s, e);
    if e < |s| {
      SemisRestStarts(s, e);
    }
    SemiStepClosed(s, from, k, e, rest);
    assert StripSemis(s, from) == s[from..k] + rest;
  }

  /** One comment removed: the text before it joined to the closed rest stays closed. */
  lemma SemiStepClosed(s: string, from: nat, k: nat, e: nat, rest: string)
    requires from <= k < e <= |s| && Closed(s) && Closed(rest)
    requires |rest| > 0 ==> e < |s| && rest[0] == s[e]
    requires e < |s| ==> IsLineTerminator(s[e])
    ensures Closed(s[from..k] + rest)
  {
    ClosedSlice(s, from, k);
    SemisCross(s[from..k], rest);
    ConcatClosed(s[from..k], rest);
  }

  /** A stripped command has no paren match left. */
  lemma ClosedNoParenMatch(c: string)
    requires Closed(c)
    ensures ParenMatch(c, 0).None?
  {
    forall k | 0 <= k < |c| ensures ParenAt(c, k).None? {
      if ParenAt(c, k).Some? {
        assert false;
      }
    }
  }

  /** Stripping the comments of a stripped command changes nothing. */
  lemma StripCommentsIdempotent(line: string)
    ensures StripComments(StripComments(line)) == StripComments(line)
  {
    var c := StripComments(line);
    ParensClosed(line, 0);
    SemisClosed(StripParens(line, 0), 0);
    ClosedNoParenMatch(c);
    assert StripParens(c, 0) == c;
    assert IndexFrom(c, ';', 0).None?;
  }

  /** Re-parsing getCommand() gives the same command and parameters and an empty comment. */
  lemma ReparseCommand(line: string)
    requires ParseLine(line).Ok?
    ensures var g := ParseLine(line).value; ParseLine(g.command) == Ok(GCodeCommand(g.command, "", g.parameters))
  {
    var c := StripComments(line);
    StripCommentsIdempotent(line);
    ParensClosed(line, 0);
    SemisClosed(StripParens(line, 0), 0);
    ClosedNoParenMatch(c);
    assert IndexFrom(c, ';', 0).None?;
    assert RawComment(c) == "";
    assert CleanComment("") == "";
  }
}
