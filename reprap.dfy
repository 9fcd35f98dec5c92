/**
 * The RepRap 5D driver (replicatorg.drivers.reprap.SimpleRepRap5DDriver):
 * a flow-controlled link to firmware with a 128-byte receive buffer. Every
 * line sent is recorded with its length; every "ok" from the firmware
 * releases the oldest record. The serial port is a script of read events and
 * a log of written strings.
 */
module RepRap {
  import opened Common
  import C = Capability
  import opened DriverBase
  import opened RepRapText
  import Versions
  import GCode

  /** The firmware's receive buffer, in bytes. */
  const MaxBufferSize: int := 128

  const ExtruderFailMessage: string := "Extruder failed:  cannot extrude as this rate."

  /** What one serial read delivers: some bytes (none on a timeout), end of stream, or an IOException. */
  datatype ReadEvent = Chunk(data: seq<bv8>) | EndOfStream | ReadFailure

  /** new String(bytes, "US-ASCII"): every byte above 127 decodes to U+FFFD. */
  function Decode(data: seq<bv8>): (s: string)
    ensures |s| == |data|
    ensures forall i :: 0 <= i < |data| && data[i] < 128 ==> s[i] as int == data[i] as int
    ensures forall i :: 0 <= i < |data| && data[i] >= 128 ==> s[i] == '\U{FFFD}'
  {
    seq(|data|, i requires 0 <= i < |data| => if data[i] < 128 then (data[i] as int) as char else '\U{FFFD}')
  }

  /** The text one read appends to the pending input; None when the read returns EOF or fails. */
  function Arrival(input: seq<ReadEvent>): Option<string>
  {
    if |input| == 0 then Some("")
    else
      match input[0]
      case Chunk(data) => Some(Decode(data))
      case EndOfStream => None
      case ReadFailure => None
  }

  /** The read events left after one read. */
  function Remaining(input: seq<ReadEvent>): seq<ReadEvent>
  {
    if |input| == 0 then [] else input[1..]
  }

  predicate IsSuffix<T(==)>(a: seq<T>, b: seq<T>)
  {
    |a| <= |b| && a == b[|b| - |a|..]
  }

  lemma SuffixTransitive<T>(a: seq<T>, b: seq<T>, c: seq<T>)
    requires IsSuffix(a, b) && IsSuffix(b, c)
    ensures IsSuffix(a, c)
  {
    assert c[|c| - |b|..][|b| - |a|..] == c[|c| - |a|..];
  }

  // ---------------------------------------------------------------------------
  // Buffer accounting

  function Sum(s: seq<int>): int
  {
    if |s| == 0 then 0 else s[0] + Sum(s[1..])
  }

  lemma {:induction false} SumAppend(s: seq<int>, x: int)
    ensures Sum(s + [x]) == Sum(s) + x
  {
    if |s| > 0 {
      assert (s + [x])[1..] == s[1..] + [x];
      SumAppend(s[1..], x);
    }
  }

  lemma {:induction false} SumAtLeast(s: seq<int>)
    requires forall i :: 0 <= i < |s| ==> s[i] >= 2
    ensures Sum(s) >= 2 * |s|
  {
    if |s| > 0 {
      SumAtLeast(s[1..]);
    }
  }

  /** Dropping records from the front never raises the count. */
  lemma {:induction false} SumOfSuffix(a: seq<int>, b: seq<int>)
    requires IsSuffix(a, b) && forall i :: 0 <= i < |b| ==> b[i] >= 0
    ensures Sum(a) <= Sum(b)
    decreases |b|
  {
    if |a| < |b| {
      assert a == b[1..][|b[1..]| - |a|..];
      SumOfSuffix(a, b[1..]);
    }
  }

  /**
   * The buffer count is the sum of the outstanding records, stays within the
   * firmware's buffer, and every record is a line of at least one character
   * plus its newline.
   */
  predicate Accounted(commands: seq<int>, bufferSize: int)
  {
    bufferSize == Sum(commands) && bufferSize <= MaxBufferSize &&
    forall i :: 0 <= i < |commands| ==> commands[i] >= 2
  }

  /** The buffer is empty exactly when no command awaits its "ok". */
  lemma EmptyBufferMeansNothingOutstanding(commands: seq<int>, bufferSize: int)
    requires Accounted(commands, bufferSize)
    ensures bufferSize >= 0
    ensures bufferSize == 0 <==> commands == []
  {
    SumAtLeast(commands);
  }

  // ---------------------------------------------------------------------------
  // Responses from the firmware

  /** The state a response line can change: the accounting and three parts of the driver core. */
  datatype Link = Link(commands: seq<int>, bufferSize: int, initialized: bool, errors: seq<DriverError>, machine: Machine)

  /** The new state after a line, and the exception handling it threw, if any. */
  datatype Step = Step(link: Link, thrown: Option<Exception>)

  function WithCurrentTemperature(m: Machine, v: real): (r: Machine)
    requires m.current in m.tools
    ensures SameSettings(r, m) && ReadingsOf(r, r.current).currentTemperature == v
    ensures ReadingsOf(r, r.current).platformCurrentTemperature == ReadingsOf(m, m.current).platformCurrentTemperature
    ensures forall k :: k != m.current ==> ReadingsOf(r, k) == ReadingsOf(m, k)
  {
    m.(readings := m.readings[m.current := ReadingsOf(m, m.current).(currentTemperature := v)])
  }

  function WithPlatformTemperature(m: Machine, v: real): (r: Machine)
    requires m.current in m.tools
    ensures SameSettings(r, m) && ReadingsOf(r, r.current).platformCurrentTemperature == v
    ensures ReadingsOf(r, r.current).currentTemperature == ReadingsOf(m, m.current).currentTemperature
    ensures forall k :: k != m.current ==> ReadingsOf(r, k) == ReadingsOf(m, k)
  {
    m.(readings := m.readings[m.current := ReadingsOf(m, m.current).(platformCurrentTemperature := v)])
  }

  /** An "ok T:" line is an "ok" line. */
  lemma OkTIsOk(line: string)
    requires StartsWith(line, "ok T:")
    ensures StartsWith(line, "ok")
  {
    assert line[..2] == line[..5][..2];
  }

  /** The first half of ReadTemperatures: the current tool's temperature. */
  function CurrentStep(s: Link, line: string): (r: Step)
    requires StartsWith(line, "ok T:") && WellFormed(s.machine)
    ensures WellFormed(r.link.machine) && SameSettings(r.link.machine, s.machine)
    ensures r.link == s.(machine := r.link.machine) && r.link.machine.current == s.machine.current
    ensures forall k :: k != s.machine.current ==> ReadingsOf(r.link.machine, k) == ReadingsOf(s.machine, k)
    ensures ReadingsOf(r.link.machine, s.machine.current).platformCurrentTemperature ==
            ReadingsOf(s.machine, s.machine.current).platformCurrentTemperature
    ensures var t := CurrentTemperatureToken(line);
            var now := ReadingsOf(r.link.machine, s.machine.current).currentTemperature;
            (t.Some? && ParseDecimal(t.value).None? <==> r.thrown.Some?) &&
            (r.thrown.Some? ==> r == Step(s, Some(NumberFormat(t.value)))) &&
            (t.Some? && ParseDecimal(t.value).Some? ==> now == ParseDecimal(t.value).value) &&
            (t.None? ==> now == ReadingsOf(s.machine, s.machine.current).currentTemperature)
  {
    match CurrentTemperatureToken(line)
    case None => Step(s, None)
    case Some(t) =>
      (match ParseDecimal(t)
       case None => Step(s, Some(NumberFormat(t)))
       case Some(v) => Step(s.(machine := WithCurrentTemperature(s.machine, v)), None))
  }

  /** The second half of ReadTemperatures: the bed temperature of the current tool. */
  function BedStep(s: Link, line: string): (r: Step)
    requires StartsWith(line, "ok") && WellFormed(s.machine)
    ensures WellFormed(r.link.machine) && SameSettings(r.link.machine, s.machine)
    ensures r.link == s.(machine := r.link.machine) && r.link.machine.current == s.machine.current
    ensures forall k :: k != s.machine.current ==> ReadingsOf(r.link.machine, k) == ReadingsOf(s.machine, k)
    ensures ReadingsOf(r.link.machine, s.machine.current).currentTemperature ==
            ReadingsOf(s.machine, s.machine.current).currentTemperature
    ensures var b := BedTemperatureToken(line);
            var bed := ReadingsOf(r.link.machine, s.machine.current).platformCurrentTemperature;
            (b.Some? && ParseDecimal(b.value).None? <==> r.thrown.Some?) &&
            (r.thrown.Some? ==> r == Step(s, Some(NumberFormat(b.value)))) &&
            (b.Some? && ParseDecimal(b.value).Some? ==> bed == ParseDecimal(b.value).value) &&
            (b.None? ==> bed == ReadingsOf(s.machine, s.machine.current).platformCurrentTemperature)
  {
    match BedTemperatureToken(line)
    case None => Step(s, None)
    case Some(t) =>
      (match ParseDecimal(t)
       case None => Step(s, Some(NumberFormat(t)))
       case Some(v) => Step(s.(machine := WithPlatformTemperature(s.machine, v)), None))
  }

  /**
   * The temperature part of an "ok T:" line: the extruder reading, then the
   * bed reading, each stored on the current tool; a token that does not
   * parse throws NumberFormatException and stops the rest.
   */
  function ReadTemperatures(s: Link, line: string): (r: Step)
    requires StartsWith(line, "ok T:") && WellFormed(s.machine)
    ensures WellFormed(r.link.machine) && SameSettings(r.link.machine, s.machine)
    ensures r.link == s.(machine := r.link.machine)
    ensures forall k :: k != s.machine.current ==> ReadingsOf(r.link.machine, k) == ReadingsOf(s.machine, k)
    ensures var t := CurrentTemperatureToken(line);
            var now := ReadingsOf(r.link.machine, s.machine.current).currentTemperature;
            (t.Some? && ParseDecimal(t.value).None? ==> r == Step(s, Some(NumberFormat(t.value)))) &&
            (t.Some? && ParseDecimal(t.value).Some? ==> now == ParseDecimal(t.value).value) &&
            (t.None? ==> now == ReadingsOf(s.machine, s.machine.current).currentTemperature)
    ensures (OkTIsOk(line);
             var b := BedTemperatureToken(line);
             var bed := ReadingsOf(r.link.machine, s.machine.current).platformCurrentTemperature;
             (r.thrown.None? && b.Some? ==> ParseDecimal(b.value).Some? && bed == ParseDecimal(b.value).value) &&
             (b.None? ==> bed == ReadingsOf(s.machine, s.machine.current).platformCurrentTemperature))
    ensures r.thrown.Some? ==>
              (exists t :: (CurrentTemperatureToken(line) == Some(t) || BedTemperatureToken(line) == Some(t)) &&
                 ParseDecimal(t).None? && r.thrown == Some(NumberFormat(t)))
  {
    OkTIsOk(line);
    var first := CurrentStep(s, line);
    if first.thrown.Some? then
      var t := CurrentTemperatureToken(line).value;
      assert CurrentTemperatureToken(line) == Some(t) && ParseDecimal(t).None? && first.thrown == Some(NumberFormat(t));
      first
    else
      var r := BedStep(first.link, line);
      assert r.thrown.Some? ==>
        var t := BedTemperatureToken(line).value;
        BedTemperatureToken(line) == Some(t) && ParseDecimal(t).None? && r.thrown == Some(NumberFormat(t));
      r
  }

  /**
   * One trimmed, non-empty response line: "ok" releases the oldest record
   * (NoSuchElementException when there is none) and reads temperatures from
   * "ok T:"; "start" marks the driver initialised; "Extruder Fail" records
   * a fatal error; anything else is only logged.
   */
  function OnLine(s: Link, line: string): (r: Step)
    requires WellFormed(s.machine)
    ensures WellFormed(r.link.machine) && SameSettings(r.link.machine, s.machine)
  {
    if StartsWith(line, "ok") then
      if |s.commands| == 0 then Step(s, Some(NoSuchElement))
      else
        var released := s.(commands := s.commands[1..], bufferSize := s.bufferSize - s.commands[0]);
        if StartsWith(line, "ok T:") then ReadTemperatures(released, line) else Step(released, None)
    else if StartsWith(line, "start") then Step(s.(initialized := true), None)
    else if StartsWith(line, "Extruder Fail") then Step(s.(errors := s.errors + [DriverError(ExtruderFailMessage, true)]), None)
    else Step(s, None)
  }

  /**
   * What a line does to the accounting: an "ok" releases exactly the oldest
   * record (or throws, changing nothing, when none is outstanding); no other
   * line touches the accounting; nothing un-initialises the driver.
   */
  lemma OnLineAccounting(s: Link, line: string)
    requires WellFormed(s.machine)
    ensures var r := OnLine(s, line);
            (StartsWith(line, "ok") && |s.commands| > 0 ==>
               r.link.commands == s.commands[1..] && r.link.bufferSize == s.bufferSize - s.commands[0]) &&
            (StartsWith(line, "ok") && |s.commands| == 0 ==> r == Step(s, Some(NoSuchElement))) &&
            (!StartsWith(line, "ok") ==> r.link.commands == s.commands && r.link.bufferSize == s.bufferSize && r.thrown.None?) &&
            (s.initialized ==> r.link.initialized) &&
            (StartsWith(line, "start") ==> r.link.initialized) &&
            (StartsWith(line, "Extruder Fail") ==> r.link.errors == s.errors + [DriverError(ExtruderFailMessage, true)]) &&
            (!StartsWith(line, "Extruder Fail") ==> r.link.errors == s.errors)
  {
    assert StartsWith(line, "start") ==> line[0] == 's';
    assert StartsWith(line, "ok") ==> line[0] == 'o';
    assert StartsWith(line, "Extruder Fail") ==> line[0] == 'E';
  }

  /** Acknowledgements keep the accounting exact. */
  lemma OnLineKeepsAccounted(s: Link, line: string)
    requires WellFormed(s.machine) && Accounted(s.commands, s.bufferSize)
    ensures var r := OnLine(s, line); Accounted(r.link.commands, r.link.bufferSize)
    ensures var r := OnLine(s, line); IsSuffix(r.link.commands, s.commands)
    ensures s.initialized ==> OnLine(s, line).link.initialized
  {
    OnLineAccounting(s, line);
    var r := OnLine(s, line);
    if StartsWith(line, "ok") && |s.commands| > 0 {
      SumAtLeast(s.commands[1..]);
      assert forall i :: 0 <= i < |s.commands[1..]| ==> s.commands[1..][i] == s.commands[i + 1];
    }
  }

  /** The outcome of draining the pending text line by line. */
  datatype Drained = Drained(link: Link, rest: string, thrown: Option<Exception>)

  /**
   * The loop of readResponse: while the pending text holds a '\n', take the
   * trimmed text before it as a line, keep the text after it, skip an empty
   * line and handle any other; an exception ends the loop with the rest of
   * the text still pending.
   */
  function Drain(s: Link, text: string): (r: Drained)
    requires WellFormed(s.machine)
    ensures WellFormed(r.link.machine)
    ensures IsSuffix(r.rest, text)
    decreases |text|
  {
    match IndexOf(text, '\n')
    case None => Drained(s, text, None)
    case Some(i) =>
      var line := Trim(text[..i]);
      var rest := text[i + 1..];
      if |line| == 0 then Drain(s, rest)
      else
        var step := OnLine(s, line);
        if step.thrown.Some? then Drained(step.link, rest, step.thrown) else Drain(step.link, rest)
  }

  /**
   * Draining keeps the accounting exact, only ever releases the oldest
   * records, leaves the machine's settings alone and never un-initialises.
   */
  lemma {:induction false} DrainInvariants(s: Link, text: string)
    requires WellFormed(s.machine) && Accounted(s.commands, s.bufferSize)
    ensures var r := Drain(s, text);
            Accounted(r.link.commands, r.link.bufferSize) && IsSuffix(r.link.commands, s.commands) &&
            SameSettings(r.link.machine, s.machine) && (s.initialized ==> r.link.initialized)
    decreases |text|
  {
    match IndexOf(text, '\n')
    case None =>
    case Some(i) =>
      var line := Trim(text[..i]);
      var rest := text[i + 1..];
      if |line| == 0 {
        DrainInvariants(s, rest);
      } else {
        var step := OnLine(s, line);
        OnLineKeepsAccounted(s, line);
        if step.thrown.None? {
          DrainInvariants(step.link, rest);
          var r := Drain(step.link, rest);
          SameSettingsTransitive(r.link.machine, step.link.machine, s.machine);
          SuffixTransitive(r.link.commands, step.link.commands, s.commands);
        }
      }
  }

  /** One round of the loop: the line before the first newline is handled, or the loop stops. */
  lemma DrainUnfold(s: Link, text: string, i: nat)
    requires WellFormed(s.machine) && IndexOf(text, '\n') == Some(i)
    ensures var line := Trim(text[..i]);
            var step := OnLine(s, line);
            Drain(s, text) ==
              if |line| == 0 then Drain(s, text[i + 1..])
              else if step.thrown.Some? then Drained(step.link, text[i + 1..], step.thrown)
              else Drain(step.link, text[i + 1..])
  {
  }

  /** Text without a newline is left pending untouched. */
  lemma DrainWaitsForNewline(s: Link, text: string)
    requires WellFormed(s.machine) && '\n' !in text
    ensures Drain(s, text) == Drained(s, text, None)
  {
  }

  /** Drained text never holds a complete line unless an exception stopped the loop. */
  lemma {:induction false} DrainLeavesNoLine(s: Link, text: string)
    requires WellFormed(s.machine)
    ensures Drain(s, text).thrown.None? ==> '\n' !in Drain(s, text).rest
    decreases |text|
  {
    match IndexOf(text, '\n')
    case None =>
    case Some(i) =>
      var line := Trim(text[..i]);
      var rest := text[i + 1..];
      if |line| == 0 {
        DrainLeavesNoLine(s, rest);
      } else if OnLine(s, line).thrown.None? {
        DrainLeavesNoLine(OnLine(s, line).link, rest);
      }
  }

  // ---------------------------------------------------------------------------
  // G-code the driver calls render

  /** How a send or a driver call ends: normally, with an exception, or waiting for an "ok" that never comes. */
  datatype Completion = Normal | Raised(error: Exception) | Stalled

  /** How sendCommand ends: the line was empty, sent, never fitted, or an exception was thrown. */
  datatype Send = Skipped | Sent | Blocked | Failed(error: Exception)

  /** How initialize() ends. */
  datatype Startup = NoSerial | TimedOut | Ready(caught: Option<Exception>, g90: Send)

  /** What sendCommand writes for a line once fixed: nothing when it is empty, else the line and its newline. */
  function Framed(fixed: string): (r: seq<string>)
    ensures |fixed| == 0 <==> r == []
  {
    if |fixed| == 0 then [] else [fixed + "\n"]
  }

  /** What sendCommand writes for one line. */
  function Frame(line: string): seq<string>
  {
    Framed(Outgoing(line))
  }

  /** The strings `frame` writes for each of `lines`, in order. */
  function Joined(frame: string -> seq<string>, lines: seq<string>): seq<string>
  {
    if |lines| == 0 then [] else frame(lines[0]) + Joined(frame, lines[1..])
  }

  /** The strings a list of lines puts on the wire. */
  function Wire(lines: seq<string>): seq<string>
  {
    Joined(Frame, lines)
  }

  /** The number of characters a list of written strings holds. */
  function TotalLength(ws: seq<string>): nat
  {
    if |ws| == 0 then 0 else |ws[0]| + TotalLength(ws[1..])
  }

  lemma {:induction false} TotalLengthAppend(a: seq<string>, b: seq<string>)
    ensures TotalLength(a + b) == TotalLength(a) + TotalLength(b)
  {
    if |a| > 0 {
      assert (a + b)[1..] == a[1..] + b;
      TotalLengthAppend(a[1..], b);
    } else {
      assert a + b == b;
    }
  }

  /** The characters a line puts on the wire: none when its fixed form is empty, else that form and its newline. */
  lemma FrameLength(line: string)
    ensures TotalLength(Frame(line)) == if |Outgoing(line)| == 0 then 0 else |Outgoing(line)| + 1
  {
    if |Outgoing(line)| > 0 {
      assert Frame(line)[1..] == [];
    }
  }

  lemma SplitAt<T>(s: seq<T>, k: nat)
    requires k <= |s|
    ensures s[..k] + s[k..] == s
  {
  }

  /** A prefix of the lines, and the next one, write no more than all of them. */
  lemma WirePrefixLength(lines: seq<string>, i: nat)
    requires i < |lines|
    ensures TotalLength(Wire(lines[..i])) + TotalLength(Frame(lines[i])) <= TotalLength(Wire(lines))
  {
    var before, upto, after := lines[..i], lines[..i + 1], lines[i + 1..];
    JoinedGrows(Frame, lines, i);
    assert Wire(upto) == Wire(before) + Frame(lines[i]);
    TotalLengthAppend(Wire(before), Frame(lines[i]));
    SplitAt(lines, i + 1);
    JoinedAppend(Frame, upto, after);
    assert Wire(lines) == Wire(upto) + Wire(after);
    TotalLengthAppend(Wire(upto), Wire(after));
  }

  /** What the lines up to i, and from i, write once line i is moved across. */
  lemma WireStep(lines: seq<string>, i: nat)
    requires i < |lines|
    ensures Wire(lines[..i + 1]) == Wire(lines[..i]) + Frame(lines[i])
    ensures TotalLength(Wire(lines[..i + 1])) == TotalLength(Wire(lines[..i])) + TotalLength(Frame(lines[i]))
    ensures TotalLength(Wire(lines[i..])) == TotalLength(Frame(lines[i])) + TotalLength(Wire(lines[i + 1..]))
  {
    JoinedGrows(Frame, lines, i);
    TotalLengthAppend(Wire(lines[..i]), Frame(lines[i]));
    assert lines[i..][0] == lines[i] && lines[i..][1..] == lines[i + 1..];
    assert Wire(lines[i..]) == Frame(lines[i]) + Wire(lines[i + 1..]);
    TotalLengthAppend(Frame(lines[i]), Wire(lines[i + 1..]));
  }

  /** Three lists write as many characters as each writes, added up. */
  lemma WireLengthThree(a: seq<string>, b: seq<string>, c: seq<string>)
    ensures TotalLength(Wire(a + b + c)) == TotalLength(Wire(a)) + TotalLength(Wire(b)) + TotalLength(Wire(c))
  {
    JoinedAppend(Frame, a, b);
    JoinedAppend(Frame, a + b, c);
    TotalLengthAppend(Wire(a), Wire(b));
    TotalLengthAppend(Wire(a + b), Wire(c));
  }

  /** Writing two lists in turn writes what each list writes. */
  lemma {:induction false} JoinedAppend(frame: string -> seq<string>, a: seq<string>, b: seq<string>)
    ensures Joined(frame, a + b) == Joined(frame, a) + Joined(frame, b)
  {
    if |a| > 0 {
      assert (a + b)[1..] == a[1..] + b;
      assert (a + b)[0] == a[0];
      JoinedAppend(frame, a[1..], b);
      AppendAssoc(frame(a[0]), Joined(frame, a[1..]), Joined(frame, b));
    } else {
      assert a + b == b;
    }
  }

  /** One more line adds what it writes. */
  lemma JoinedGrows(frame: string -> seq<string>, lines: seq<string>, i: nat)
    requires i < |lines|
    ensures Joined(frame, lines[..i + 1]) == Joined(frame, lines[..i]) + frame(lines[i])
  {
    assert lines[..i + 1] == lines[..i] + [lines[i]];
    JoinedAppend(frame, lines[..i], [lines[i]]);
    assert Joined(frame, [lines[i]]) == frame(lines[i]) + Joined(frame, []);
  }

  /** Writing three lists in turn after `before` writes their concatenation after it. */
  lemma JoinedAfterThree(frame: string -> seq<string>, before: seq<string>, a: seq<string>, b: seq<string>, c: seq<string>)
    ensures before + Joined(frame, a) + Joined(frame, b) + Joined(frame, c) == before + Joined(frame, a + b + c)
  {
    JoinedAppend(frame, a, b);
    JoinedAppend(frame, a + b, c);
    AppendAssoc(before, Joined(frame, a), Joined(frame, b));
    AppendAssoc(before, Joined(frame, a) + Joined(frame, b), Joined(frame, c));
  }

  /** Three lines write what each writes, in order. */
  lemma JoinedThree(frame: string -> seq<string>, a: string, b: string, c: string)
    ensures Joined(frame, [a, b, c]) == frame(a) + frame(b) + frame(c)
  {
    var lines := [a, b, c];
    assert Joined(frame, lines) == frame(a) + Joined(frame, lines[1..]);
    assert Joined(frame, lines[1..]) == frame(b) + Joined(frame, lines[2..]);
    assert Joined(frame, lines[2..]) == frame(c) + Joined(frame, lines[3..]);
  }

  /**
   * The lines an overridden driver call sends before (if at all) it calls
   * the base driver, or the exception thrown before anything is sent.
   * enableMotor and enableSpindle read the tool at the raw index, without
   * resolving -1. Calls the driver does not override send nothing.
   */
  function Rendered(m: Machine, feedrate: real, call: C.DriverCall): (r: Result<seq<string>>)
    ensures r.Err? ==> (call.EnableMotor? || call.EnableSpindle?) && r.error == NoSuchTool(call.toolhead)
    ensures r.Err? <==> (call.EnableMotor? || call.EnableSpindle?) && call.toolhead !in m.tools
  {
    match call
    case QueuePoint(p) =>
      Ok(["G1 F" + Format(feedrate),
          "G1 X" + Format(p.x) + " Y" + Format(p.y) + " Z" + Format(p.z) + " F" + Format(feedrate)])
    case SetCurrentPosition(p) => Ok(["G92 X" + Format(p.x) + " Y" + Format(p.y) + " Z" + Format(p.z)])
    case HomeAxes(axes) => Ok([HomeLine(axes)])
    case Delay(millis) => Ok([DelayLine(millis)])
    case OpenClamp(i) => Ok(["M11 Q" + IntString(i)])
    case CloseClamp(i) => Ok(["M10 Q" + IntString(i)])
    case EnableDrives => Ok(["M17"])
    case DisableDrives => Ok(["M18"])
    case ChangeGearRatio(i) => Ok([GearLine(i)])
    case SetMotorRPM(rpm, t) => Ok([ToolCode(m.current, t) + "M108 R" + Format(rpm)])
    case SetMotorSpeedPWM(pwm, t) => Ok([ToolCode(m.current, t) + "M108 S" + IntString(pwm)])
    case EnableMotor(t) =>
      (match ToolAt(m, t)
       case Err(e) => Err(e)
       case Ok(tool) => Ok([ToolCode(m.current, t) + (if tool.motorDirection == C.MotorClockwise then "M101" else "M102")]))
    case DisableMotor(t) => Ok([ToolCode(m.current, t) + "M103"])
    case SetSpindleRPM(rpm, t) => Ok([ToolCode(m.current, t) + "S" + Format(rpm)])
    case EnableSpindle(t) =>
      (match ToolAt(m, t)
       case Err(e) => Err(e)
       case Ok(tool) => Ok([ToolCode(m.current, t) + (if tool.spindleDirection == C.MotorClockwise then "M3" else "M4")]))
    case DisableSpindle(t) => Ok([ToolCode(m.current, t) + "M5"])
    case SetTemperature(v, t) => Ok([ToolCode(m.current, t) + "M104 S" + Format(v)])
    case ReadTemperature(t) => Ok([ToolCode(m.current, t) + "M105"])
    case EnableFloodCoolant => Ok([ToolCode(m.current, m.current) + "M7"])
    case DisableFloodCoolant => Ok([ToolCode(m.current, m.current) + "M9"])
    case EnableMistCoolant => Ok([ToolCode(m.current, m.current) + "M8"])
    case DisableMistCoolant => Ok([ToolCode(m.current, m.current) + "M9"])
    case EnableFan(t) => Ok([ToolCode(m.current, t) + "M106"])
    case DisableFan(t) => Ok([ToolCode(m.current, t) + "M107"])
    case OpenValve(t) => Ok([ToolCode(m.current, t) + "M126"])
    case CloseValve(t) => Ok([ToolCode(m.current, t) + "M127"])
    case OpenCollet => Ok([ToolCode(m.current, m.current) + "M21"])
    case CloseCollet => Ok([ToolCode(m.current, m.current) + "M22"])
    case _ => Ok([])
  }

  /**
   * The lines a driver call sends. The timed enableMotor is inherited from
   * the base driver, which resolves the tool once and calls this driver's
   * own enableMotor, delay and disableMotor.
   */
  function CallLines(m: Machine, feedrate: real, call: C.DriverCall): (r: Result<seq<string>>)
    ensures r.Err? ==> r.error.NoSuchTool?
    ensures call.EnableMotorFor? ==> (r.Err? <==> Resolve(m, call.toolhead) !in m.tools)
    ensures call.EnableMotorFor? && r.Ok? ==>
              |r.value| >= 2 && r.value[|r.value| - 2] == DelayLine(call.millis) &&
              r.value[|r.value| - 1] == ToolCode(m.current, Resolve(m, call.toolhead)) + "M103"
  {
    if call.EnableMotorFor? then
      var r := Resolve(m, call.toolhead);
      match Rendered(m, feedrate, C.EnableMotor(r))
      case Err(e) => Err(e)
      case Ok(enable) => Ok(enable + [DelayLine(call.millis)] + [ToolCode(m.current, r) + "M103"])
    else Rendered(m, feedrate, call)
  }

  /**
   * The timed enable puts only its delay on the wire: the enable and disable
   * lines carry M101/M102 and M103, which the fix-up turns into nothing.
   */
  lemma TimedEnableSendsOnlyDelay(m: Machine, feedrate: real, millis: Int64, toolhead: Int32)
    requires Resolve(m, toolhead) in m.tools
    ensures CallLines(m, feedrate, C.EnableMotorFor(millis, toolhead)).Ok?
    ensures Wire(CallLines(m, feedrate, C.EnableMotorFor(millis, toolhead)).value) == [DelayLine(millis) + "\n"]
  {
    var r := Resolve(m, toolhead);
    var code := ToolCode(m.current, r);
    var ext := if m.tools[r].motorDirection == C.MotorClockwise then "M101" else "M102";
    TimedEnableLines(m, feedrate, millis, toolhead);
    DelayLinePasses(millis);
    WireDropsExtruderLines(code, ext, DelayLine(millis));
  }

  /** The timed enable sends what enableMotor sends on the resolved tool, then the delay and the disable line. */
  lemma TimedCallLines(m: Machine, feedrate: real, millis: Int64, toolhead: Int32)
    ensures var r := Resolve(m, toolhead);
            var enable := Rendered(m, feedrate, C.EnableMotor(r));
            CallLines(m, feedrate, C.EnableMotorFor(millis, toolhead)) ==
              if enable.Err? then Err(enable.error)
              else Ok(enable.value + [DelayLine(millis)] + [ToolCode(m.current, r) + "M103"])
  {
  }

  /** The lines of the timed enable: the enable line, the delay, the disable line. */
  lemma TimedEnableLines(m: Machine, feedrate: real, millis: Int64, toolhead: Int32)
    requires Resolve(m, toolhead) in m.tools
    ensures var r := Resolve(m, toolhead);
            var code := ToolCode(m.current, r);
            var ext := if m.tools[r].motorDirection == C.MotorClockwise then "M101" else "M102";
            CallLines(m, feedrate, C.EnableMotorFor(millis, toolhead)) == Ok([code + ext, DelayLine(millis), code + "M103"])
  {
    var r := Resolve(m, toolhead);
    var code := ToolCode(m.current, r);
    var ext := if m.tools[r].motorDirection == C.MotorClockwise then "M101" else "M102";
    assert Rendered(m, feedrate, C.EnableMotor(r)) == Ok([code + ext]);
    assert [code + ext] + [DelayLine(millis)] + [code + "M103"] == [code + ext, DelayLine(millis), code + "M103"];
  }

  /** Between two extruder lines, only the middle line reaches the wire. */
  lemma WireDropsExtruderLines(code: string, ext: string, d: string)
    requires ext == "M101" || ext == "M102"
    requires Outgoing(d) == d && |d| > 0
    ensures Wire([code + ext, d, code + "M103"]) == [d + "\n"]
  {
    ExtruderCodeVanishes(code, ext);
    ExtruderCodeVanishes(code, "M103");
    JoinedThree(Frame, code + ext, d, code + "M103");
  }

  /** A tool code followed by an extruder code is cleaned and then dropped entirely. */
  lemma ExtruderCodeVanishes(code: string, ext: string)
    requires ext == "M101" || ext == "M102" || ext == "M103"
    ensures Outgoing(code + ext) == ""
  {
    var s := code + ext;
    assert ExtruderCodeAt(s, |s| - 4) by {
      assert s[|s| - 4] == ext[0] && s[|s| - 3] == ext[1] && s[|s| - 2] == ext[2] && s[|s| - 1] == ext[3];
    }
    CleanKeepsFinalCode(s);
    var c := Clean(s);
    assert HasExtruderCode(c) by {
      assert ExtruderCodeAt(c, |c| - 4);
    }
    ExtruderCodesDropped(c);
  }

  /** An extruder code at the very end of a line survives the clean-up. */
  lemma CleanKeepsFinalCode(s: string)
    requires |s| >= 4 && ExtruderCodeAt(s, |s| - 4)
    ensures var c := Clean(s); |c| >= 4 && ExtruderCodeAt(c, |c| - 4)
  {
    var st := TrimStart(s, 0);
    assert st <= |s| - 4;
    assert TrimEnd(s, st, |s|) == |s|;
    var c := Clean(s);
    assert c == s[st..];
    assert c[|c| - 4] == s[|s| - 4] && c[|c| - 3] == s[|s| - 3];
    assert c[|c| - 2] == s[|s| - 2] && c[|c| - 1] == s[|s| - 1];
  }

  /** A line with no blank at either end, no 'M' and no 'F' passes the clean-up and the fix-up unchanged. */
  lemma PlainLinePasses(s: string)
    requires |s| > 0 && !IsTrimmed(s[0]) && !IsTrimmed(s[|s| - 1])
    requires 'M' !in s && 'F' !in s
    ensures Outgoing(s) == s
  {
    TrimFixed(s);
    NoFeedNoReorder(s, 0);
    FixIsReordered(s);
  }

  /** Decimal text holds only digits and a leading '-'. */
  lemma IntStringChars(n: int)
    ensures forall k :: 0 <= k < |IntString(n)| ==> IntString(n)[k] == '-' || IsDigit(IntString(n)[k])
    ensures IsDigit(IntString(n)[|IntString(n)| - 1])
  {
    if n < 0 {
      var d := NatString(-n);
      assert IntString(n) == "-" + d;
      assert forall k :: 1 <= k < |IntString(n)| ==> IntString(n)[k] == d[k - 1];
    }
  }

  /** The delay line passes the clean-up and the fix-up unchanged. */
  lemma DelayLinePasses(millis: Int64)
    ensures Outgoing(DelayLine(millis)) == DelayLine(millis)
  {
    var q := Saturate32(TruncatedDiv(millis, 1000));
    var digits := IntString(q);
    var d := DelayLine(millis);
    assert d == "G4 P" + digits;
    IntStringChars(q);
    assert forall k :: 4 <= k < |d| ==> d[k] == digits[k - 4];
    assert 'M' !in d && 'F' !in d;
    PlainLinePasses(d);
  }

  /** Without an 'F' there is nothing to reorder. */
  lemma {:induction false} NoFeedNoReorder(s: string, from: nat)
    requires from <= |s| && 'F' !in s
    ensures FindReorder(s, from).None?
    decreases |s| - from
  {
    if from < |s| {
      NoFeedNoReorder(s, from + 1);
    }
  }

  /** "G90" reaches the wire as it is. */
  lemma G90Passes()
    ensures Outgoing("G90") == "G90"
  {
    var s := "G90";
    assert 'M' !in s && 'F' !in s;
    PlainLinePasses(s);
  }

  /**
   * The tool code names the addressed tool: read back by the G-code scanner,
   * its T word is the resolved index, whatever follows the code.
   */
  lemma ToolWordReadsBack(current: Int32, toolhead: Int32, rest: string)
    ensures var k := if toolhead == -1 then current else toolhead;
            GCode.NumberAfter(ToolCode(current, toolhead) + rest, 'T', 0) == Some(IntString(k)) &&
            GCode.CodeValue(ToolCode(current, toolhead) + rest, 'T') == Ok(k as real)
  {
    var k := if toolhead == -1 then current else toolhead;
    var d := IntString(k);
    var s := ToolCode(current, toolhead) + rest;
    assert s == "T" + d + " " + rest;
    IntStringChars(k);
    forall m | 1 <= m < 1 + |d| ensures GCode.IsNumberChar(s[m]) {
      assert s[m] == d[m - 1];
    }
    assert s[1 + |d|] == ' ';
    GCode.RunLengthIs(s, 1, |d|);
    assert s[1..1 + |d|] == d;
    IntStringParses(k);
  }

  /** The gear line's M word, read back by the G-code scanner, is the gear code the driver computed. */
  lemma GearWordReadsBack(ratioIndex: Int32)
    ensures GCode.CodeValue(GearLine(ratioIndex), 'M') == Ok(GearCodeAsWritten(ratioIndex) as real)
  {
    var code := GearCodeAsWritten(ratioIndex);
    var d := IntString(code);
    var s := GearLine(ratioIndex);
    assert s == "M" + d;
    IntStringChars(code);
    forall m | 1 <= m < |s| ensures GCode.IsNumberChar(s[m]) {
      assert s[m] == d[m - 1];
    }
    GCode.RunLengthIs(s, 1, |d|);
    assert s[1..1 + |d|] == d;
    IntStringParses(code);
  }

  /** The origin is this driver's reconcilePosition(). */
  const Reconciliation: DriverBase.Reconcile := Reconciled(Origin5)

  /** getPlatformTemperature as overridden here: the tool at the raw index, -1 not resolved. */
  function PlatformTemperature(m: Machine, toolhead: Int32): (r: Result<real>)
    ensures r.Ok? <==> toolhead in m.tools
    ensures r.Ok? ==> r.value == ReadingsOf(m, toolhead).platformCurrentTemperature
  {
    match ToolAt(m, toolhead)
    case Err(e) => Err(e)
    case Ok(_) => Ok(ReadingsOf(m, toolhead).platformCurrentTemperature)
  }

  /** The override agrees with the base query on explicit indices, and not on -1. */
  lemma PlatformTemperatureOverride(m: Machine, toolhead: Int32)
    requires WellFormed(m)
    ensures toolhead != -1 ==> PlatformTemperature(m, toolhead) == GetPlatformTemperature(m, toolhead)
    ensures PlatformTemperature(m, -1) == Err(NoSuchTool(-1)) && GetPlatformTemperature(m, -1).Ok?
  {
  }

  // ---------------------------------------------------------------------------
  // The driver

  class SimpleRepRap5DDriver {
    /** The base driver state (DriverBaseImplementation). */
    const core: DriverCore
    /** Whether a serial port is attached. */
    var linked: bool
    /** The read events the serial port will deliver, in order. */
    var input: seq<ReadEvent>
    /** Every string written to the serial port, in order. */
    var output: seq<string>
    /** The length of every line sent and not yet acknowledged, oldest first. */
    var commands: seq<int>
    /** The bytes the firmware's buffer holds. */
    var bufferSize: int
    /** Received text not yet split into lines. */
    var result: string

    predicate Valid()
      reads this`commands, this`bufferSize, core`machine
    {
      core.Valid() && Accounted(commands, bufferSize)
    }

    /** The part of the state a response line can change. */
    function Snapshot(): Link
      reads this`commands, this`bufferSize, core`initialized, core`errors, core`machine
    {
      Link(commands, bufferSize, core.initialized, core.errors, core.machine)
    }

    /** SimpleRepRap5DDriver(): no outstanding command, an empty buffer, not initialised. */
    constructor(m: Machine, serial: bool, incoming: seq<ReadEvent>)
      requires WellFormed(m)
      ensures Valid() && fresh(core)
      ensures linked == serial && input == incoming && output == [] && result == ""
      ensures commands == [] && bufferSize == 0
      ensures core.machine == m && !core.initialized && core.errors == [] && core.position.None?
    {
      core := new DriverCore(m);
      linked := serial;
      input := incoming;
      output := [];
      commands := [];
      bufferSize := 0;
      result := "";
      new;
      core.SetInitialized(false);
    }

    /** One response line: the imperative handling that OnLine specifies. */
    method HandleLine(line: string) returns (thrown: Option<Exception>)
      requires Valid()
      modifies this, core`machine, core`initialized, core`errors, core`position
      ensures Valid()
      ensures OnLine(old(Snapshot()), line) == Step(Snapshot(), thrown)
      ensures linked == old(linked) && input == old(input) && output == old(output) && result == old(result)
      ensures core.position == old(core.position)
    {
      OnLineKeepsAccounted(Snapshot(), line);
      if StartsWith(line, "ok") {
        if |commands| == 0 {
          return Some(NoSuchElement);
        }
        bufferSize := bufferSize - commands[0];
        commands := commands[1..];
        if StartsWith(line, "ok T:") {
          thrown := StoreTemperatures(line);
        } else {
          thrown := None;
        }
      } else if StartsWith(line, "start") {
        core.SetInitialized(true);
        thrown := None;
      } else if StartsWith(line, "Extruder Fail") {
        core.SetErrorMessage(ExtruderFailMessage);
        thrown := None;
      } else {
        thrown := None;
      }
    }

    /** The temperatures of an "ok T:" line, stored on the current tool. */
    method StoreTemperatures(line: string) returns (thrown: Option<Exception>)
      requires core.Valid() && StartsWith(line, "ok T:")
      modifies core`machine
      ensures core.Valid()
      ensures ReadTemperatures(old(Snapshot()), line) == Step(Snapshot(), thrown)
    {
      ghost var s0 := Snapshot();
      OkTIsOk(line);
      match CurrentTemperatureToken(line) {
        case Some(t) =>
          match ParseDecimal(t) {
            case None =>
              assert ReadTemperatures(s0, line) == Step(s0, Some(NumberFormat(t)));
              return Some(NumberFormat(t));
            case Some(v) => core.machine := WithCurrentTemperature(core.machine, v);
          }
        case None =>
      }
      ghost var s1 := Snapshot();
      assert s1 == CurrentStep(s0, line).link && CurrentStep(s0, line).thrown.None?;
      match BedTemperatureToken(line) {
        case Some(t) =>
          match ParseDecimal(t) {
            case None =>
              assert ReadTemperatures(s0, line) == Step(s1, Some(NumberFormat(t)));
              return Some(NumberFormat(t));
            case Some(v) => core.machine := WithPlatformTemperature(core.machine, v);
          }
        case None =>
      }
      thrown := None;
    }

    /**
     * readResponse: one read, then every complete line of the pending text
     * handled in order (Drain). EOF and an IOException end it quietly; a
     * missing serial port throws NullPointerException; an exception from a
     * line propagates with the rest of the text still pending.
     */
    method ReadResponse() returns (thrown: Option<Exception>)
      requires Valid()
      modifies this, core`machine, core`initialized, core`errors, core`position
      ensures Valid()
      ensures linked == old(linked) && output == old(output) && core.position == old(core.position)
      ensures !linked ==> thrown == Some(NullPointer) && input == old(input) && result == old(result) && Snapshot() == old(Snapshot())
      ensures linked ==> input == Remaining(old(input))
      ensures linked && Arrival(old(input)).None? ==> thrown.None? && result == old(result) && Snapshot() == old(Snapshot())
      ensures linked && Arrival(old(input)).Some? ==>
                Drain(old(Snapshot()), old(result) + Arrival(old(input)).value) == Drained(Snapshot(), result, thrown)
      ensures IsSuffix(commands, old(commands)) && SameSettings(core.machine, old(core.machine))
      ensures old(core.initialized) ==> core.initialized
    {
      if !linked {
        return Some(NullPointer);
      }
      var arrival := Arrival(input);
      input := Remaining(input);
      if arrival.None? {
        return None;
      }
      result := result + arrival.value;
      DrainInvariants(Snapshot(), result);
      thrown := DrainPending();
    }

    /**
     * readResponse as the waiting loops see it: it keeps the accounting,
     * only releases records, consumes read events, leaves the settings and
     * the output alone and never un-initialises.
     */
    method Poll() returns (thrown: Option<Exception>)
      requires Valid()
      modifies this, core`machine, core`initialized, core`errors, core`position
      ensures Valid()
      ensures linked == old(linked) && output == old(output) && core.position == old(core.position)
      ensures IsSuffix(commands, old(commands)) && SameSettings(core.machine, old(core.machine))
      ensures IsSuffix(input, old(input))
      ensures old(core.initialized) ==> core.initialized
    {
      thrown := ReadResponse();
    }

    /** The loop of readResponse over the pending text, as Drain specifies it. */
    method DrainPending() returns (thrown: Option<Exception>)
      requires Valid()
      modifies this, core`machine, core`initialized, core`errors, core`position
      ensures Valid()
      ensures linked == old(linked) && input == old(input) && output == old(output) && core.position == old(core.position)
      ensures Drain(old(Snapshot()), old(result)) == Drained(Snapshot(), result, thrown)
    {
      thrown := None;
      ghost var goal := Drain(Snapshot(), result);
      var index := IndexOf(result, '\n');
      while index.Some?
        invariant Valid() && linked == old(linked) && input == old(input) && output == old(output)
        invariant core.position == old(core.position)
        invariant index == IndexOf(result, '\n')
        invariant goal == Drain(Snapshot(), result) && thrown.None?
        decreases |result|
      {
        thrown := NextLine(index.value);
        if thrown.Some? {
          return;
        }
        index := IndexOf(result, '\n');
      }
    }

    /** One round of the readResponse loop: the line before the newline at `i` is taken off the pending text and handled. */
    method NextLine(i: nat) returns (thrown: Option<Exception>)
      requires Valid() && IndexOf(result, '\n') == Some(i)
      modifies this, core`machine, core`initialized, core`errors, core`position
      ensures Valid()
      ensures linked == old(linked) && input == old(input) && output == old(output) && core.position == old(core.position)
      ensures |result| < old(|result|)
      ensures Drain(old(Snapshot()), old(result)) ==
                if thrown.Some? then Drained(Snapshot(), result, thrown) else Drain(Snapshot(), result)
    {
      ghost var before := Snapshot();
      ghost var pending := result;
      var line := Trim(result[..i]);
      result := result[i + 1..];
      DrainUnfold(before, pending, i);
      assert Snapshot() == before;
      if |line| > 0 {
        thrown := HandleLine(line);
        assert OnLine(before, line) == Step(Snapshot(), thrown);
      } else {
        thrown := None;
      }
    }

    /**
     * sendCommand: the line is cleaned and fixed (Outgoing), then sent as
     * SendLine describes.
     */
    method SendCommand(next: string, fuel: nat) returns (outcome: Send)
      requires Valid()
      modifies this, core`machine, core`initialized, core`errors, core`position
      ensures Valid()
      ensures linked == old(linked) && core.position == old(core.position)
      ensures SameSettings(core.machine, old(core.machine)) && IsSuffix(input, old(input))
      ensures old(core.initialized) ==> core.initialized
      ensures outcome.Skipped? <==> |Outgoing(next)| == 0
      ensures outcome.Skipped? ==>
                input == old(input) && output == old(output) && result == old(result) && Snapshot() == old(Snapshot())
      ensures |Outgoing(next)| > 0 && !linked ==>
                outcome == Failed(NullPointer) && output == old(output) && Snapshot() == old(Snapshot())
      ensures outcome.Sent? ==>
                output == old(output) + [Outgoing(next) + "\n"] &&
                |commands| > 0 && commands[|commands| - 1] == |Outgoing(next)| + 1 &&
                IsSuffix(commands[..|commands| - 1], old(commands))
      ensures !outcome.Sent? ==> output == old(output) && IsSuffix(commands, old(commands))
      ensures |Outgoing(next)| + 1 > MaxBufferSize ==> !outcome.Sent?
      ensures |Outgoing(next)| > 0 && linked && old(bufferSize) + |Outgoing(next)| + 1 <= MaxBufferSize ==>
                outcome.Sent? && input == old(input) &&
                commands == old(commands) + [|Outgoing(next)| + 1] && bufferSize == old(bufferSize) + |Outgoing(next)| + 1
      ensures outcome.Sent? || outcome.Skipped? ==> output == old(output) + Frame(next)
    {
      var line := Outgoing(next);
      outcome := SendLine(line, fuel);
    }

    /**
     * The rest of sendCommand, once the line is fixed: an empty line is
     * skipped; otherwise responses are read until the line and its newline
     * fit in the firmware's buffer, then it is written and recorded. `fuel`
     * bounds the reads spent waiting (the source waits without bound).
     */
    method SendLine(line: string, fuel: nat) returns (outcome: Send)
      requires Valid()
      modifies this, core`machine, core`initialized, core`errors, core`position
      ensures Valid()
      ensures linked == old(linked) && core.position == old(core.position)
      ensures SameSettings(core.machine, old(core.machine)) && IsSuffix(input, old(input))
      ensures old(core.initialized) ==> core.initialized
      ensures outcome.Skipped? <==> |line| == 0
      ensures outcome.Skipped? ==>
                input == old(input) && output == old(output) && result == old(result) && Snapshot() == old(Snapshot())
      ensures |line| > 0 && !linked ==>
                outcome == Failed(NullPointer) && output == old(output) && Snapshot() == old(Snapshot())
      ensures outcome.Sent? ==>
                output == old(output) + [line + "\n"] &&
                |commands| > 0 && commands[|commands| - 1] == |line| + 1 &&
                IsSuffix(commands[..|commands| - 1], old(commands))
      ensures !outcome.Sent? ==> output == old(output) && IsSuffix(commands, old(commands))
      ensures |line| + 1 > MaxBufferSize ==> !outcome.Sent?
      ensures |line| > 0 && linked && old(bufferSize) + |line| + 1 <= MaxBufferSize ==>
                outcome.Sent? && input == old(input) &&
                commands == old(commands) + [|line| + 1] && bufferSize == old(bufferSize) + |line| + 1
    {
      if |line| == 0 {
        return Skipped;
      }
      if !linked {
        return Failed(NullPointer);
      }
      var stopped := AwaitRoom(|line| + 1, fuel);
      if stopped.Some? {
        return stopped.value;
      }
      EmptyBufferMeansNothingOutstanding(commands, bufferSize);
      ghost var waited := commands;
      Transmit(line);
      assert commands[..|commands| - 1] == waited;
      outcome := Sent;
    }

    /** The write of sendCommand: the line and its newline go out and their length is recorded. */
    method Transmit(line: string)
      requires Valid() && |line| > 0 && bufferSize + |line| + 1 <= MaxBufferSize
      modifies this
      ensures Valid()
      ensures output == old(output) + [line + "\n"]
      ensures commands == old(commands) + [|line| + 1] && bufferSize == old(bufferSize) + |line| + 1
      ensures linked == old(linked) && input == old(input) && result == old(result)
    {
      output := output + [line + "\n"];
      SumAppend(commands, |line| + 1);
      commands := commands + [|line| + 1];
      bufferSize := bufferSize + |line| + 1;
    }

    /**
     * The wait of sendCommand: responses are read until `size` more bytes
     * fit in the firmware's buffer. None when they fit; Blocked when `fuel`
     * reads were not enough; Failed when a read threw.
     */
    method AwaitRoom(size: int, fuel: nat) returns (stopped: Option<Send>)
      requires Valid() && linked
      modifies this, core`machine, core`initialized, core`errors, core`position
      ensures Valid()
      ensures linked == old(linked) && output == old(output) && core.position == old(core.position)
      ensures SameSettings(core.machine, old(core.machine)) && IsSuffix(input, old(input))
      ensures IsSuffix(commands, old(commands))
      ensures old(core.initialized) ==> core.initialized
      ensures stopped.None? ==> bufferSize + size <= MaxBufferSize
      ensures stopped.Some? ==> stopped.value.Blocked? || stopped.value.Failed?
      ensures old(bufferSize) + size <= MaxBufferSize ==> stopped.None? && Snapshot() == old(Snapshot()) && input == old(input)
    {
      var attempts := 0;
      while bufferSize + size > MaxBufferSize
        invariant Valid() && linked && output == old(output) && core.position == old(core.position)
        invariant SameSettings(core.machine, old(core.machine)) && IsSuffix(input, old(input))
        invariant IsSuffix(commands, old(commands))
        invariant old(core.initialized) ==> core.initialized
        invariant attempts <= fuel
        invariant old(bufferSize) + size <= MaxBufferSize ==> attempts == 0 && Snapshot() == old(Snapshot()) && input == old(input)
        decreases fuel - attempts
      {
        if attempts == fuel {
          return Some(Blocked);
        }
        ghost var m0, c0, i0 := core.machine, commands, input;
        var thrown := Poll();
        SameSettingsTransitive(core.machine, m0, old(core.machine));
        SuffixTransitive(commands, c0, old(commands));
        SuffixTransitive(input, i0, old(input));
        if thrown.Some? {
          return Some(Failed(thrown.value));
        }
        attempts := attempts + 1;
      }
      stopped := None;
    }

    /**
     * initialize(): without a serial port, nothing; when not initialised,
     * read until a "start" line arrives, giving up (without G90) once the
     * clock passes its deadline, which happens after `budget` + 1 reads here;
     * an exception while waiting is swallowed; then "G90" is sent.
     */
    method Initialize(budget: nat, fuel: nat) returns (outcome: Startup)
      requires Valid()
      modifies this, core`machine, core`initialized, core`errors, core`position
      ensures Valid()
      ensures linked == old(linked) && core.position == old(core.position)
      ensures SameSettings(core.machine, old(core.machine))
      ensures outcome.NoSerial? <==> !old(linked)
      ensures outcome.NoSerial? ==>
                input == old(input) && output == old(output) && result == old(result) && Snapshot() == old(Snapshot())
      ensures outcome.TimedOut? ==> output == old(output)
      ensures outcome.Ready? ==> output == old(output) + (if outcome.g90.Sent? then ["G90\n"] else [])
      ensures outcome.Ready? && outcome.caught.None? ==> core.initialized
      ensures old(linked) && old(core.initialized) ==> outcome.Ready? && outcome.caught.None?
      ensures outcome.Ready? && old(bufferSize) + 4 <= MaxBufferSize ==> outcome.g90.Sent? && output == old(output) + ["G90\n"]
    {
      if !linked {
        return NoSerial;
      }
      var caught: Option<Exception> := None;
      if !core.initialized {
        var waited := AwaitStart(budget);
        if waited.None? {
          return TimedOut;
        }
        caught := waited.value;
      }
      ghost var m1 := core.machine;
      var sent := SendAbsolute(fuel);
      SameSettingsTransitive(core.machine, m1, old(core.machine));
      outcome := Ready(caught, sent);
    }

    /** sendCommand("G90"), which the fix-up leaves as it is. */
    method SendAbsolute(fuel: nat) returns (sent: Send)
      requires Valid()
      modifies this, core`machine, core`initialized, core`errors, core`position
      ensures Valid()
      ensures linked == old(linked) && core.position == old(core.position)
      ensures SameSettings(core.machine, old(core.machine))
      ensures old(core.initialized) ==> core.initialized
      ensures output == old(output) + (if sent.Sent? then ["G90\n"] else [])
      ensures linked && old(bufferSize) + 4 <= MaxBufferSize ==> sent.Sent?
    {
      G90Passes();
      assert |Outgoing("G90")| + 1 == 4 && Outgoing("G90") + "\n" == "G90\n";
      sent := SendCommand("G90", fuel);
    }

    /**
     * The wait of initialize(): reads until a "start" line arrives. None when
     * the deadline has passed after a read (after `budget` + 1 reads here),
     * even if that read brought the "start"; Some(None) once initialised;
     * Some(Some(e)) when a read threw `e`, which ends the wait.
     */
    method AwaitStart(budget: nat) returns (waited: Option<Option<Exception>>)
      requires Valid() && linked
      modifies this, core`machine, core`initialized, core`errors, core`position
      ensures Valid()
      ensures linked == old(linked) && output == old(output) && core.position == old(core.position)
      ensures SameSettings(core.machine, old(core.machine))
      ensures waited == Some(None) ==> core.initialized
      ensures old(core.initialized) ==> waited == Some(None)
      ensures bufferSize <= old(bufferSize)
    {
      var attempts := 0;
      while !core.initialized
        invariant Valid() && linked && output == old(output) && core.position == old(core.position)
        invariant SameSettings(core.machine, old(core.machine))
        invariant IsSuffix(commands, old(commands))
        invariant old(core.initialized) ==> core.initialized
        invariant attempts <= budget
        decreases budget - attempts
      {
        ghost var m0 := core.machine;
        ghost var c0 := commands;
        var thrown := Poll();
        SameSettingsTransitive(core.machine, m0, old(core.machine));
        SuffixTransitive(commands, c0, old(commands));
        SumOfSuffix(commands, old(commands));
        if thrown.Some? {
          return Some(thrown);
        }
        if attempts == budget {
          return None;
        }
        attempts := attempts + 1;
      }
      SumOfSuffix(commands, old(commands));
      waited := Some(None);
    }

    /** reset(): forget initialisation (and so the position), then initialize(). */
    method Reset(budget: nat, fuel: nat) returns (outcome: Startup)
      requires Valid()
      modifies this, core`machine, core`initialized, core`errors, core`position
      ensures Valid()
      ensures core.position.None?
      ensures outcome.NoSerial? <==> !old(linked)
      ensures outcome.TimedOut? ==> output == old(output)
      ensures outcome.Ready? ==> output == old(output) + (if outcome.g90.Sent? then ["G90\n"] else [])
      ensures outcome.Ready? && outcome.caught.None? ==> core.initialized
      ensures outcome.Ready? && old(bufferSize) + 4 <= MaxBufferSize ==> outcome.g90.Sent? && output == old(output) + ["G90\n"]
    {
      core.SetInitialized(false);
      outcome := Initialize(budget, fuel);
    }

    /** isBufferEmpty() and isFinished(): one read, any exception ignored, then whether nothing is outstanding. */
    method IsBufferEmpty() returns (empty: bool)
      requires Valid()
      modifies this, core`machine, core`initialized, core`errors, core`position
      ensures Valid()
      ensures empty <==> commands == []
      ensures empty <==> bufferSize == 0
      ensures output == old(output) && IsSuffix(commands, old(commands))
      ensures SameSettings(core.machine, old(core.machine))
    {
      var _ := Poll();
      EmptyBufferMeansNothingOutstanding(commands, bufferSize);
      empty := bufferSize == 0;
    }

    /**
     * getCurrentPosition with this driver's reconcilePosition, which
     * answers the origin: a lost position (or a forced update) becomes the
     * origin.
     */
    method GetCurrentPosition(forceUpdate: bool) returns (r: Result<Point5d>)
      modifies core
      ensures old(core.position).None? || forceUpdate ==> r == Ok(Origin5) && core.position == Some(Origin5)
      ensures !(old(core.position).None? || forceUpdate) ==> r == Ok(old(core.position).value) && core.position == old(core.position)
      ensures core.machine == old(core.machine) && core.initialized == old(core.initialized)
    {
      r := core.GetCurrentPosition(forceUpdate, Reconciliation);
    }

    /** sendCommand, seen from a sequence of sends: what it adds to the wire. */
    method SendFramed(next: string, fuel: nat) returns (outcome: Send)
      requires Valid()
      modifies this, core`machine, core`initialized, core`errors, core`position
      ensures Valid()
      ensures linked == old(linked) && core.position == old(core.position)
      ensures SameSettings(core.machine, old(core.machine))
      ensures outcome.Sent? || outcome.Skipped? ==> output == old(output) + Frame(next)
      ensures linked && old(bufferSize) + TotalLength(Frame(next)) <= MaxBufferSize ==>
                (outcome.Sent? || outcome.Skipped?) && bufferSize == old(bufferSize) + TotalLength(Frame(next))
    {
      FrameLength(next);
      outcome := SendCommand(next, fuel);
    }

    /**
     * What SendAll has done after its first i lines: their frames are on the
     * wire and, when all the lines fit from count `start`, they are counted
     * and the rest still fit.
     */
    ghost predicate SentPrefix(lines: seq<string>, i: nat, sent0: seq<string>, start: int, fits: bool)
      requires i <= |lines|
      reads this
    {
      output == sent0 + Wire(lines[..i]) &&
      (fits ==> linked && bufferSize == start + TotalLength(Wire(lines[..i])) &&
                start + TotalLength(Wire(lines)) <= MaxBufferSize)
    }

    /** The link, the position and the settings are still those of the start of a run of lines. */
    ghost predicate Steady(linked0: bool, position0: Option<Point5d>, machine0: Machine)
      reads this, core
    {
      Valid() && linked == linked0 && core.position == position0 && SameSettings(core.machine, machine0)
    }

    /** Line i of SendAll; when every line fits it goes through without a read. */
    method SendNext(lines: seq<string>, i: nat, fuel: nat, ghost sent0: seq<string>, ghost start: int, ghost fits: bool,
                    ghost linked0: bool, ghost position0: Option<Point5d>, ghost machine0: Machine)
      returns (sent: Send)
      requires i < |lines| && Steady(linked0, position0, machine0) && SentPrefix(lines, i, sent0, start, fits)
      modifies this, core`machine, core`initialized, core`errors, core`position
      ensures Steady(linked0, position0, machine0)
      ensures fits ==> sent.Sent? || sent.Skipped?
      ensures sent.Sent? || sent.Skipped? ==> SentPrefix(lines, i + 1, sent0, start, fits)
    {
      WirePrefixLength(lines, i);
      WireStep(lines, i);
      ghost var m0 := core.machine;
      sent := SendFramed(lines[i], fuel);
      SameSettingsTransitive(core.machine, m0, machine0);
      AppendAssoc(sent0, Wire(lines[..i]), Frame(lines[i]));
    }

    /** Send each line in order, stopping at the first that does not go through. */
    method SendAll(lines: seq<string>, fuel: nat) returns (outcome: Completion)
      requires Valid()
      modifies this, core`machine, core`initialized, core`errors, core`position
      ensures Valid()
      ensures linked == old(linked) && core.position == old(core.position)
      ensures SameSettings(core.machine, old(core.machine))
      ensures outcome.Normal? ==> output == old(output) + Wire(lines)
      ensures linked && old(bufferSize) + TotalLength(Wire(lines)) <= MaxBufferSize ==>
                outcome.Normal? && bufferSize == old(bufferSize) + TotalLength(Wire(lines))
    {
      ghost var fits := linked && bufferSize + TotalLength(Wire(lines)) <= MaxBufferSize;
      assert lines[..0] == [];
      outcome := Normal;
      var i := 0;
      while i < |lines| && outcome.Normal?
        invariant i <= |lines|
        invariant Steady(old(linked), old(core.position), old(core.machine))
        invariant outcome.Normal? ==> SentPrefix(lines, i, old(output), old(bufferSize), fits)
        invariant fits ==> outcome.Normal?
        decreases |lines| - i, outcome.Normal?
      {
        var sent := SendNext(lines, i, fuel, old(output), old(bufferSize), fits, old(linked), old(core.position), old(core.machine));
        if sent.Blocked? {
          outcome := Stalled;
        } else if sent.Failed? {
          outcome := Raised(sent.error);
        } else {
          i := i + 1;
        }
      }
      if outcome.Normal? {
        assert lines[..i] == lines;
      }
    }

    /** A call the driver handles directly: its lines, then the base driver (except for delay, which has no base call). */
    method ExecuteOne(call: C.DriverCall, fuel: nat) returns (outcome: Completion)
      requires Valid() && !call.EnableMotorFor?
      modifies this, core`machine, core`initialized, core`errors, core`position, core`feedrate
      ensures Valid()
      ensures var lines := Rendered(old(core.machine), old(core.feedrate), call);
              lines.Err? ==> outcome == Raised(lines.error) && output == old(output) && Snapshot() == old(Snapshot())
      ensures outcome.Normal? ==>
                var lines := Rendered(old(core.machine), old(core.feedrate), call);
                lines.Ok? && output == old(output) + Wire(lines.value) &&
                PerformOn(old(core.machine), call).Ok? &&
                SameSettings(core.machine, PerformOn(old(core.machine), call).value)
      ensures outcome.Normal? ==>
                core.position == (if call.QueuePoint? || call.SetCurrentPosition? then Some(call.point) else old(core.position)) &&
                core.feedrate == (if call.SetFeedrate? then call.feed else old(core.feedrate))
      ensures var lines := Rendered(old(core.machine), old(core.feedrate), call);
              (linked && lines.Ok? && old(bufferSize) + TotalLength(Wire(lines.value)) <= MaxBufferSize &&
               PerformOn(old(core.machine), call).Ok?) ==> outcome.Normal?
    {
      var lines := Rendered(core.machine, core.feedrate, call);
      if lines.Err? {
        return Raised(lines.error);
      }
      outcome := Run(call, lines.value, fuel);
    }

    /** The lines of a call are sent, then the base driver performs it (delay has no base call). */
    method Run(call: C.DriverCall, lines: seq<string>, fuel: nat) returns (outcome: Completion)
      requires Valid()
      modifies this, core`machine, core`initialized, core`errors, core`position, core`feedrate
      ensures Valid()
      ensures outcome.Normal? ==>
                output == old(output) + Wire(lines) &&
                PerformOn(old(core.machine), call).Ok? &&
                SameSettings(core.machine, PerformOn(old(core.machine), call).value)
      ensures outcome.Normal? ==>
                core.position == (if call.QueuePoint? || call.SetCurrentPosition? then Some(call.point) else old(core.position)) &&
                core.feedrate == (if call.SetFeedrate? then call.feed else old(core.feedrate))
      ensures linked && old(bufferSize) + TotalLength(Wire(lines)) <= MaxBufferSize && PerformOn(old(core.machine), call).Ok? ==>
                outcome.Normal? && bufferSize == old(bufferSize) + TotalLength(Wire(lines))
      ensures linked == old(linked)
    {
      ghost var m0 := core.machine;
      outcome := SendAll(lines, fuel);
      if !outcome.Normal? {
        return;
      }
      ghost var m1 := core.machine;
      PerformIgnoresReadings(m1, m0, call);
      if !call.Delay? {
        var s := core.Perform(call);
        if s.Thrown? {
          return Raised(s.error);
        }
      } else {
        assert PerformOn(m1, call) == Ok(m1);
      }
    }

    /**
     * A driver call on this driver. The timed enableMotor is the base
     * driver's: the tool is resolved once, then this driver's enableMotor,
     * delay and disableMotor run in turn.
     */
    method Execute(call: C.DriverCall, fuel: nat) returns (outcome: Completion)
      requires Valid()
      modifies this, core`machine, core`initialized, core`errors, core`position, core`feedrate
      ensures Valid()
      ensures var lines := CallLines(old(core.machine), old(core.feedrate), call);
              lines.Err? ==> outcome == Raised(lines.error) && output == old(output) && Snapshot() == old(Snapshot())
      ensures outcome.Normal? ==>
                var lines := CallLines(old(core.machine), old(core.feedrate), call);
                lines.Ok? && output == old(output) + Wire(lines.value) &&
                PerformOn(old(core.machine), call).Ok? &&
                SameSettings(core.machine, PerformOn(old(core.machine), call).value)
      ensures outcome.Normal? ==>
                core.position == (if call.QueuePoint? || call.SetCurrentPosition? then Some(call.point) else old(core.position)) &&
                core.feedrate == (if call.SetFeedrate? then call.feed else old(core.feedrate))
      ensures var lines := CallLines(old(core.machine), old(core.feedrate), call);
              (linked && lines.Ok? && old(bufferSize) + TotalLength(Wire(lines.value)) <= MaxBufferSize &&
               PerformOn(old(core.machine), call).Ok?) ==> outcome.Normal?
    {
      if call.EnableMotorFor? {
        outcome := TimedEnable(call, fuel);
      } else {
        outcome := ExecuteOne(call, fuel);
      }
    }

    /**
     * The base driver's timed enableMotor: the tool is resolved once, then
     * this driver's enableMotor, delay and disableMotor run in turn.
     */
    method TimedEnable(call: C.DriverCall, fuel: nat) returns (outcome: Completion)
      requires Valid() && call.EnableMotorFor?
      modifies this, core`machine, core`initialized, core`errors, core`position, core`feedrate
      ensures Valid()
      ensures var lines := CallLines(old(core.machine), old(core.feedrate), call);
              lines.Err? ==> outcome == Raised(lines.error) && output == old(output) && Snapshot() == old(Snapshot())
      ensures outcome.Normal? ==>
                var lines := CallLines(old(core.machine), old(core.feedrate), call);
                lines.Ok? && output == old(output) + Wire(lines.value) &&
                PerformOn(old(core.machine), call).Ok? &&
                SameSettings(core.machine, PerformOn(old(core.machine), call).value)
      ensures outcome.Normal? ==> core.position == old(core.position) && core.feedrate == old(core.feedrate)
      ensures var lines := CallLines(old(core.machine), old(core.feedrate), call);
              (linked && lines.Ok? && old(bufferSize) + TotalLength(Wire(lines.value)) <= MaxBufferSize &&
               PerformOn(old(core.machine), call).Ok?) ==> outcome.Normal?
    {
      var r := Resolve(core.machine, call.toolhead);
      var enable := Rendered(core.machine, core.feedrate, C.EnableMotor(r));
      TimedCallLines(core.machine, core.feedrate, call.millis, call.toolhead);
      if enable.Err? {
        outcome := Raised(enable.error);
      } else {
        outcome := RunTimed(call, r, enable.value, fuel);
      }
    }

    /** The three steps of the timed enable once its enable line is rendered. */
    method RunTimed(call: C.DriverCall, r: int, enable: seq<string>, fuel: nat) returns (outcome: Completion)
      requires Valid() && call.EnableMotorFor? && r == Resolve(core.machine, call.toolhead)
      modifies this, core`machine, core`initialized, core`errors, core`position, core`feedrate
      ensures Valid()
      ensures outcome.Normal? ==>
                output == old(output) + Wire(enable + [DelayLine(call.millis)] + [ToolCode(old(core.machine).current, r) + "M103"]) &&
                PerformOn(old(core.machine), call).Ok? &&
                SameSettings(core.machine, PerformOn(old(core.machine), call).value) &&
                core.position == old(core.position) && core.feedrate == old(core.feedrate)
      ensures linked && PerformOn(old(core.machine), call).Ok? &&
              old(bufferSize) + TotalLength(Wire(enable + [DelayLine(call.millis)] + [ToolCode(old(core.machine).current, r) + "M103"])) <= MaxBufferSize
              ==> outcome.Normal?
    {
      var m0 := core.machine;
      var delay := [DelayLine(call.millis)];
      var disable := [ToolCode(m0.current, r) + "M103"];
      ghost var fits := linked && bufferSize + TotalLength(Wire(enable + delay + disable)) <= MaxBufferSize &&
                        PerformOn(m0, call).Ok?;
      if fits {
        TimedCallParts(m0, call.millis, call.toolhead);
        WireLengthThree(enable, delay, disable);
      }
      outcome := Run(C.EnableMotor(r), enable, fuel);
      if outcome.Normal? {
        var m1 := core.machine;
        ghost var e := PerformOn(m0, C.EnableMotor(r)).value;
        PerformTouchesOnlyTarget(m0, C.EnableMotor(r));
        assert m1.current == m0.current;
        if fits {
          PerformIgnoresReadings(m1, e, C.DisableMotor(r));
        }
        outcome := FinishTimed(call.millis, r, fuel);
        if outcome.Normal? {
          TimedCallSettings(m0, m1, m1, core.machine, call.millis, call.toolhead);
          JoinedAfterThree(Frame, old(output), enable, delay, disable);
        }
      }
    }

    /** The delay and the disable line of the timed enable, then the base driver's disableMotor. */
    method FinishTimed(millis: Int64, r: Int32, fuel: nat) returns (outcome: Completion)
      requires Valid()
      modifies this, core`machine, core`initialized, core`errors, core`position, core`feedrate
      ensures Valid() && linked == old(linked)
      ensures outcome.Normal? ==>
                output == old(output) + Wire([DelayLine(millis)]) + Wire([ToolCode(old(core.machine).current, r) + "M103"]) &&
                PerformOn(old(core.machine), C.DisableMotor(r)).Ok? &&
                SameSettings(core.machine, PerformOn(old(core.machine), C.DisableMotor(r)).value) &&
                core.position == old(core.position) && core.feedrate == old(core.feedrate)
      ensures linked && PerformOn(old(core.machine), C.DisableMotor(r)).Ok? &&
              old(bufferSize) + TotalLength(Wire([DelayLine(millis)])) +
                TotalLength(Wire([ToolCode(old(core.machine).current, r) + "M103"])) <= MaxBufferSize
              ==> outcome.Normal?
    {
      var m0 := core.machine;
      var disable := [ToolCode(m0.current, r) + "M103"];
      outcome := SendAll([DelayLine(millis)], fuel);
      if outcome.Normal? {
        var m1 := core.machine;
        PerformIgnoresReadings(m1, m0, C.DisableMotor(r));
        outcome := Run(C.DisableMotor(r), disable, fuel);
        if outcome.Normal? {
          SameSettingsTransitive(core.machine, PerformOn(m1, C.DisableMotor(r)).value, PerformOn(m0, C.DisableMotor(r)).value);
        }
      }
    }
  }

  /**
   * The settings reached by the three calls of the timed enable, each on
   * the machine the previous one left (readings aside), are those of the
   * timed call on the starting machine.
   */
  lemma TimedCallParts(m0: Machine, millis: Int64, toolhead: Int32)
    requires PerformOn(m0, C.EnableMotorFor(millis, toolhead)).Ok?
    ensures var r := Resolve(m0, toolhead);
            PerformOn(m0, C.EnableMotor(r)).Ok? &&
            PerformOn(PerformOn(m0, C.EnableMotor(r)).value, C.DisableMotor(r)).Ok?
  {
    var r := Resolve(m0, toolhead);
    TimedEnableIsItsCalls(m0, millis, toolhead);
    var calls := TimedEnableCalls(m0, millis, toolhead);
    PerformThree(m0, calls);
    assert PerformOn(m0, calls[0]).Ok?;
    var e := PerformOn(m0, C.EnableMotor(r)).value;
    assert PerformOn(e, C.Delay(millis)) == Ok(e);
  }

  /** Once the motor is enabled, the timed call ends as the disable call does on that state. */
  lemma TimedCallAfterEnable(m0: Machine, millis: Int64, toolhead: Int32)
    requires PerformOn(m0, C.EnableMotor(Resolve(m0, toolhead))).Ok?
    ensures var r := Resolve(m0, toolhead);
            PerformOn(m0, C.EnableMotorFor(millis, toolhead)) ==
            PerformOn(PerformOn(m0, C.EnableMotor(r)).value, C.DisableMotor(r))
  {
    var r := Resolve(m0, toolhead);
    var e := PerformOn(m0, C.EnableMotor(r)).value;
    TimedEnableIsItsCalls(m0, millis, toolhead);
    var calls := TimedEnableCalls(m0, millis, toolhead);
    PerformThree(m0, calls);
    assert PerformOn(e, C.Delay(millis)) == Ok(e);
  }

  lemma TimedCallSettings(m0: Machine, m1: Machine, m2: Machine, m3: Machine, millis: Int64, toolhead: Int32)
    requires var r := Resolve(m0, toolhead);
             PerformOn(m0, C.EnableMotor(r)).Ok? && SameSettings(m1, PerformOn(m0, C.EnableMotor(r)).value) &&
             SameSettings(m2, m1) &&
             PerformOn(m2, C.DisableMotor(r)).Ok? && SameSettings(m3, PerformOn(m2, C.DisableMotor(r)).value)
    ensures PerformOn(m0, C.EnableMotorFor(millis, toolhead)).Ok?
    ensures SameSettings(m3, PerformOn(m0, C.EnableMotorFor(millis, toolhead)).value)
  {
    var r := Resolve(m0, toolhead);
    var e := PerformOn(m0, C.EnableMotor(r)).value;
    TimedCallAfterEnable(m0, millis, toolhead);
    SameSettingsTransitive(m2, m1, e);
    PerformIgnoresReadings(m2, e, C.DisableMotor(r));
    SameSettingsTransitive(m3, PerformOn(m2, C.DisableMotor(r)).value, PerformOn(e, C.DisableMotor(r)).value);
  }
}
