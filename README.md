# ReplicatorG driver core in Dafny

This project models the part of ReplicatorG that sits between a G-code
stream and a 3D printer's firmware, and proves properties of that model.

- **`RepRap`** models `SimpleRepRap5DDriver`, the flow-controlled send/acknowledge engine of the RepRap 5D driver, as a class.
  - The firmware's receive buffer holds 128 bytes.
  - Every line sent is recorded with its length (`commands`), and the byte count (`bufferSize`) is their sum.
  - `sendCommand` cleans and fixes a line, then waits, reading responses, until the line and its newline fit. Only then does it write the line and record it.
  - `readResponse` splits received text into lines:
    - `ok` releases the oldest record and may carry `T:`/`B:` temperatures;
    - `start` marks the driver initialised;
    - `Extruder Fail` queues a fatal error.
  - The serial port is a script of read events (byte chunks, end of stream, an `IOException`) plus a log of written strings.
- **`RepRapText`** holds that driver's pure text functions: `clean`, the `fix` rewrite (M101/M102/M103 lines dropped, a trailing `F…E…` pair reordered), the temperature patterns, `DecimalFormat("#.######")`, tool codes, gear codes, `G4` delays and `G28` homing lines.
- **`DriverBase`** models `DriverBaseImplementation`: the state every driver shares.
  - The class `DriverCore` holds the initialised flag, the FIFO error queue, the cached position with reconcile on demand, the table of seven offsets, the feedrate, and firmware name and versions.
  - The machine's tools are a map from index to tool settings plus the index of the current tool. The toolhead `-1` stands for the current tool and is resolved when a call is performed.
- **`Capability`** lists the driver calls (the shape of `Driver`) as a datatype.
- **`Commands`** models the operation objects of `drivers/commands`: a checked constructor per class, and `Run`, the single driver call each object's `run` makes.
- **`GCode`** models `GCodeCommand`:
  - comments are stripped (a greedy `(…)`, then `;…`);
  - one value is recorded per letter of the fixed 20-letter alphabet;
  - the `hasCode`/`getCodeValue*` accessors are modelled with their throwing and fallback variants.
- **`Versions`** and **`Preconditions`** model `Version` and `Preconditions.checkNonNegative`.
- **`Common`** holds the Java behaviours the rest relies on:
  - 32-bit wrap-around;
  - `String.trim`;
  - `indexOf`;
  - decimal text of integers;
  - `Double.parseDouble` over the characters the scanners let through.

Exceptions are values. Methods and functions return `Result`, `Status`, `Send` or `Completion` and never throw.

### Behaviour of the code that the model keeps

- **Acknowledgement with nothing outstanding.** An `ok` with no outstanding record reaches `commands.remove()`, which throws `NoSuchElementException` out of `readResponse`. `RepRap.OnLine` returns that exception.
- **Extruder temperature pattern.** The pattern `^ok T:([0-9\.]+)[^0-9]` needs a non-digit after the number, and it backtracks:
  - `ok T:210.5` yields `210`;
  - `ok T:210` yields nothing;
  - `ok T:210.5 B:60` yields `210.5`.

  See `RepRapText.TemperatureBacktracks`, `RepRapText.TemperatureNeedsTerminator` and `RepRapText.ExtruderTemperatureOfFullAck`.
- **Initialisation handshake.**
  - The deadline is checked after each read, even one that delivered `start`, and then `initialize` returns without sending `G90`.
  - An exception while waiting is swallowed, and `G90` is still sent.
  - The model has a read budget in place of the clock, and its `Startup` outcome records the swallowed exception.
- **Unplanned `start`.** A `start` line on an initialised driver marks it initialised again and changes nothing else; the outstanding records are kept.
- **`enableMotor` and `enableSpindle`.** This driver's versions look up the tool at the raw index without resolving `-1`, so `-1` fails with `NoSuchTool`.
- **`getPlatformTemperature`.** This driver overrides it with the same raw lookup, unlike the base class (`RepRap.PlatformTemperatureOverride`).
- **`changeGearRatio`.** The driver sends the code as the code computes it, wrap-around included (see "## Findings").

## Model

| member | source | states |
|---|---|---|
| Preconditions.CheckNonNegative | src/replicatorg/util/Preconditions.java:11-14 | accepted exactly when the value is >= 0 (zero included); an accepted value comes back unchanged; a negative one gives IllegalArgumentException with the caller's message |
| Preconditions.CheckIdempotent | src/replicatorg/util/Preconditions.java:9-14 | checking an accepted value again accepts it again and returns the same value, whatever the message: the check keeps no state |
| Versions.EqualsIsValueEquality | src/replicatorg/drivers/Version.java:12-18 | equals holds exactly when both major and minor agree |
| Versions.CompareTo | src/replicatorg/drivers/Version.java:28-32 | the result is always one of -1, 0, 1 |
| Versions.CompareToIsLexicographic | src/replicatorg/drivers/Version.java:28-32 | 1 exactly when the other version comes first in the lexicographic (major, minor) order (defined independently); 0 exactly when equals holds; -1 exactly when this version comes first |
| Versions.CompareToAntisymmetric | src/replicatorg/drivers/Version.java:28-32 | a.compareTo(b) == -b.compareTo(a) |
| Versions.CompareToTransitive | src/replicatorg/drivers/Version.java:28-32 | greater-than is transitive |
| Versions.AtLeastReflexive | src/replicatorg/drivers/Version.java:24-26 | every version is at least itself |
| Versions.AtLeastTransitive | src/replicatorg/drivers/Version.java:24-26 | atLeast is transitive |
| Versions.HashCode | src/replicatorg/drivers/Version.java:20-22 | the hash is major*31 + minor modulo 2^32, as Java's int arithmetic computes it |
| Versions.HashCodeConsistent | src/replicatorg/drivers/Version.java:20-22 | equal versions hash alike; when nothing overflows the hash is exactly major*31 + minor |
| Versions.ToString | src/replicatorg/drivers/Version.java:34-36 | the text has at least the three characters of "d.d" |
| Versions.ToStringInjective | src/replicatorg/drivers/Version.java:34-36 | decimal major, '.', decimal minor loses nothing: distinct versions print differently |
| Commands.WithTool | src/replicatorg/drivers/commands/DisableMotor.java:11-14 | the shared constructor check: the command is built exactly when the index is >= 0, with the index stored unchanged; otherwise IllegalArgumentException "Tool indices should not be negative" |
| Commands.NewCloseValve | src/replicatorg/drivers/commands/CloseValve.java:10-13 | built exactly when toolIndex >= 0, holding that index; otherwise IllegalArgumentException with the tool message |
| Commands.NewCloseValveCurrent | src/replicatorg/drivers/commands/CloseValve.java:15-17 | the deprecated constructor stores the -1 current-tool sentinel |
| Commands.NewOpenValve | src/replicatorg/drivers/commands/OpenValve.java:11-14 | built exactly when toolIndex >= 0, holding that index; otherwise IllegalArgumentException with the tool message |
| Commands.NewOpenValveCurrent | src/replicatorg/drivers/commands/OpenValve.java:16-18 | the deprecated constructor stores the -1 sentinel |
| Commands.NewDelay | src/replicatorg/drivers/commands/Delay.java:10-12 | never fails; any long, negative included, is stored as given |
| Commands.NewDisableFan | src/replicatorg/drivers/commands/DisableFan.java:12-16 | built exactly when toolhead >= 0, holding it unchanged; otherwise IllegalArgumentException |
| Commands.NewEnableFan | src/replicatorg/drivers/commands/EnableFan.java:11-15 | built exactly when toolhead >= 0, holding it unchanged; otherwise IllegalArgumentException |
| Commands.NewDisableMotor | src/replicatorg/drivers/commands/DisableMotor.java:11-14 | built exactly when toolhead >= 0, holding it unchanged; otherwise IllegalArgumentException |
| Commands.NewDisableSpindle | src/replicatorg/drivers/commands/DisableSpindle.java:11-14 | built exactly when toolIndex >= 0 (no sentinel constructor, so a built command never holds -1); otherwise IllegalArgumentException |
| Commands.NewEnableSpindle | src/replicatorg/drivers/commands/EnableSpindle.java:11-14 | built exactly when toolIndex >= 0; otherwise IllegalArgumentException |
| Commands.NewEnableExtruderMotorFor | src/replicatorg/drivers/commands/EnableExtruderMotor.java:17-21 | the toolhead is checked and millis is not: built exactly when toolhead >= 0, holding both values |
| Commands.NewEnableExtruderMotor | src/replicatorg/drivers/commands/EnableExtruderMotor.java:13-15 | the one-argument form builds the untimed command (millis 0) under the same check |
| Commands.NewSetMotorDirection | src/replicatorg/drivers/commands/SetMotorDirection.java:13-17 | built exactly when toolhead >= 0, with direction and toolhead stored; otherwise IllegalArgumentException |
| Commands.NewSetSpindleDirection | src/replicatorg/drivers/commands/SetSpindleDirection.java:12-16 | built exactly when toolIndex >= 0, with direction and index stored; otherwise IllegalArgumentException |
| Commands.NewSetSpindleDirectionCurrent | src/replicatorg/drivers/commands/SetSpindleDirection.java:18-21 | the deprecated constructor stores the direction and the -1 sentinel |
| Commands.NewSetMotorSpeedPWM | src/replicatorg/drivers/commands/SetMotorSpeedPWM.java:13-17 | built exactly when toolhead >= 0; the pwm, negative included, is stored unchecked |
| Commands.NewSetMotorSpeedRPM | src/replicatorg/drivers/commands/SetMotorSpeedRPM.java:13-17 | built exactly when toolhead >= 0; the rpm is stored unchecked |
| Commands.NewSetSpindleRPM | src/replicatorg/drivers/commands/SetSpindleRPM.java:12-16 | built exactly when toolIndex >= 0; the rpm is stored unchecked |
| Commands.NewSetSpindleRPMCurrent | src/replicatorg/drivers/commands/SetSpindleRPM.java:18-21 | the deprecated constructor stores the rpm and the -1 sentinel |
| Commands.NewSetTemperature | src/replicatorg/drivers/commands/SetTemperature.java:18-22 | built exactly when toolIndex >= 0; the temperature is stored without a range check |
| Commands.NewSetPlatformTemperature | src/replicatorg/drivers/commands/SetPlatformTemperature.java:18-22 | built exactly when toolIndex >= 0, so the field's default of -1 never survives construction |
| Commands.NewToggleAutomatedBuildPlatform | src/replicatorg/drivers/commands/ToggleAutomatedBuildPlatform.java:12-17 | built exactly when toolhead >= 0, with the state stored as given |
| Commands.Run | src/replicatorg/drivers/commands/EnableExtruderMotor.java:24-31 | every run makes one call on the stored tool: non-zero millis (negative included) makes the timed enableMotor call and zero the untimed one; delay passes the stored millis; a direction of CLOCKWISE becomes MOTOR_CLOCKWISE and any other MOTOR_COUNTER_CLOCKWISE, for motor and spindle alike |
| Commands.RunLosesNothing | src/replicatorg/drivers/commands/SetSpindleDirection.java:24-32 | for every operation object (closeValve, openValve, enable/disableFan, disableMotor, enable/disableSpindle, setMotorSpeedPWM, setMotorRPM, setSpindleRPM, setSpindleDirection, setMotorDirection, setTemperature, setPlatformTemperature, setAutomatedBuildPlatformRunning, delay, enableMotor), run makes a single call that carries every stored argument unchanged: the object reads back exactly from its call |
| Commands.RunInjective | src/replicatorg/drivers/commands/SetMotorDirection.java:20-28 | distinct operation objects make distinct driver calls (so the two directions reach the driver as two different motor directions) |
| GCode.Parse | src/replicatorg/app/gcode/GCodeCommand.java:39-51 | the constructor computes the line's scan; a parsed command holds no ';' and its comment holds no '\|' |
| GCode.ParseLine | src/replicatorg/app/gcode/GCodeCommand.java:39-93 | the scan as a value: it fails only with NumberFormatException; a parsed command holds no ';', its comment no '\|', and every recorded letter is an alphabet letter that occurs in the command |
| GCode.StripComments | src/replicatorg/app/gcode/GCodeCommand.java:70-73 | the stripped command never holds a ';'; see StripSemis and SemicolonCommandIsPrefix for what is kept |
| GCode.StripParens | src/replicatorg/app/gcode/GCodeCommand.java:70 | replaceAll of the paren pattern: every character left comes from the line; with no match the text is unchanged, and the text before the first match is kept |
| GCode.StripSemis | src/replicatorg/app/gcode/GCodeCommand.java:72-73 | replaceAll of `;(.*)`: no ';' is left; with no ';' the text is unchanged; the text before the first ';' is kept, and when that ';' is on the last line the result is exactly that text |
| GCode.SemicolonCommandIsPrefix | src/replicatorg/app/gcode/GCodeCommand.java:70-73 | on a one-line input, the command is the paren-stripped line cut at its first ';': the text before it is kept unaltered and everything from it to the end is deleted |
| GCode.SemicolonCommentCut | src/replicatorg/app/gcode/GCodeCommand.java:70-73 | a one-line input without '(' keeps exactly the text before its first ';' |
| GCode.ParensClosed | src/replicatorg/app/gcode/GCodeCommand.java:70 | after replaceAll of the paren pattern, no '(' has a ')' after it on the same line |
| GCode.SemisClosed | src/replicatorg/app/gcode/GCodeCommand.java:72-73 | replaceAll of `;(.*)` keeps that property |
| GCode.StripCommentsIdempotent | src/replicatorg/app/gcode/GCodeCommand.java:54-73 | stripping the comments of a stripped command changes nothing |
| GCode.ReparseCommand | src/replicatorg/app/gcode/GCodeCommand.java:39-93 | parsing getCommand() again succeeds with the same command, the same parameters and an empty comment |
| GCode.CleanComment | src/replicatorg/app/gcode/GCodeCommand.java:66-67 | the stored comment is the trimmed raw comment, character by character, with each '|' replaced by a line break and every other character kept |
| GCode.RawComment | src/replicatorg/app/gcode/GCodeCommand.java:59-63 | the comment text before cleaning never spans a line terminator; a ';' comment lies after its ';' (the ';' comment is taken over a paren comment, see SemicolonCommentWins) |
| GCode.ParenMatch | src/replicatorg/app/gcode/GCodeCommand.java:16 | the first '(' with a ')' after it on the same line (the pattern's `.` stops at line terminators), paired with the last such ')' |
| GCode.GreedyParenComment | src/replicatorg/app/gcode/GCodeCommand.java:59-60 | with no ';', the comment is the text between the first '(' and the last ')', and the command is the line with that whole span deleted |
| GCode.SemicolonCommentWins | src/replicatorg/app/gcode/GCodeCommand.java:62-63 | a ';' makes the comment the text after the first ';' up to the line end, overriding any paren comment |
| GCode.NoCommentKeepsLine | src/replicatorg/app/gcode/GCodeCommand.java:54-74 | a line without '(' or ';' is kept as it is, untrimmed, with an empty comment |
| GCode.RunLength | src/replicatorg/app/gcode/GCodeCommand.java:79 | the maximal run of [0-9.+-] characters from a position |
| GCode.NumberAfter | src/replicatorg/app/gcode/GCodeCommand.java:79 | group 1 of the leftmost match of `code`([0-9.+-]+): none exactly when no position holds the letter followed by a number character; otherwise the maximal run after the first such position (FirstCode), which is non-empty and made of number characters |
| GCode.FirstCode | src/replicatorg/app/gcode/GCodeCommand.java:79-85 | the first position where the letter is followed by a number character, none exactly when there is no such position |
| GCode.FirstCodeAt | src/replicatorg/app/gcode/GCodeCommand.java:79-85 | the token is the whole run after the first position where the letter is followed by a number character |
| GCode.CodeValue | src/replicatorg/app/gcode/GCodeCommand.java:83-88 | a letter with no number after it reads 0; otherwise the value is the parsed token when it parses, and NumberFormatException naming the token exactly when it does not |
| GCode.CodeValueReadsWord | src/replicatorg/app/gcode/GCodeCommand.java:79-88 | the value recorded for a letter is the decimal value of the digit run after its first occurrence that a number character follows |
| GCode.MoveWordRead | src/replicatorg/app/gcode/GCodeCommand.java:79-88 | "G1 X5" records 5 for X |
| GCode.Present | src/replicatorg/app/gcode/GCodeCommand.java:82 | the letters of the alphabet that occur in the command, and only those |
| GCode.ParseCodes | src/replicatorg/app/gcode/GCodeCommand.java:77-93 | the loop over the alphabet computes the scan of the command (ScanCodes) |
| GCode.ScanCodes | src/replicatorg/app/gcode/GCodeCommand.java:78-91 | a scan records only letters it was given that occur in the command, and the only exception it throws is NumberFormatException |
| GCode.ScanShape | src/replicatorg/app/gcode/GCodeCommand.java:78-91 | one parameter per present letter, in alphabet order, each holding that letter's value |
| GCode.ScanFailsIff | src/replicatorg/app/gcode/GCodeCommand.java:85-88 | scanning fails exactly when some present letter's token does not parse |
| GCode.ScanErrorPropagates | src/replicatorg/app/gcode/GCodeCommand.java:85-90 | once a letter has thrown, the later letters do not change the outcome |
| GCode.ScanErrorsAreNumberFormat | src/replicatorg/app/gcode/GCodeCommand.java:87 | the only exception scanning throws is NumberFormatException |
| GCode.PresentIncreasing | src/replicatorg/app/gcode/GCodeCommand.java:78-91 | the recorded letters are strictly increasing, so each appears at most once |
| GCode.ParsedParameters | src/replicatorg/app/gcode/GCodeCommand.java:78-91 | hasCode(c) holds exactly when c is in the alphabet and in the stripped command; codes are increasing; getCodeValue returns the value of c's first token |
| GCode.ParseFailsIff | src/replicatorg/app/gcode/GCodeCommand.java:85-88 | construction throws exactly when a present letter's token does not parse, and what it throws is NumberFormatException |
| GCode.MalformedRunThrows | src/replicatorg/app/gcode/GCodeCommand.java:85-88 | a token with two dots, such as "1.2.3", after a present letter makes construction throw |
| GCode.Lookup | src/replicatorg/app/gcode/GCodeCommand.java:113-121 | absent exactly when no parameter has the letter; otherwise the value of the first parameter with it |
| GCode.GetCodeValue | src/replicatorg/app/gcode/GCodeCommand.java:133-143 | a value exactly when hasCode, and then the recorded one; otherwise IllegalStateException |
| GCode.GetCodeValueOr | src/replicatorg/app/gcode/GCodeCommand.java:163-171 | the recorded value when present, the fallback otherwise |
| GCode.TruncateToInt | src/replicatorg/app/gcode/GCodeCommand.java:186 | Java's (int) cast of a double: toward zero, within one of the value and no farther from zero; out-of-range values saturate to the int bounds |
| GCode.GetCodeValueInt | src/replicatorg/app/gcode/GCodeCommand.java:183-193 | a value exactly when hasCode, and then the truncated recorded value; otherwise IllegalStateException |
| GCode.GetCodeValueIntOr | src/replicatorg/app/gcode/GCodeCommand.java:209-211 | the fallback when absent; otherwise what getCodeValueInt returns |
| Common.Wrap32 | src/replicatorg/drivers/Version.java:21 | Java int arithmetic: congruent to the exact value modulo 2^32, and equal to it when it fits |
| Common.IntStringInjective | src/replicatorg/drivers/Version.java:35 | decimal text of ints is injective |
| Common.NatStringRoundTrip | src/replicatorg/drivers/Version.java:35 | reading back the decimal digits of n gives n |
| Common.DigitsParse | src/replicatorg/app/gcode/GCodeCommand.java:87 | parseDouble of a string of digits is its decimal value |
| Common.TwoDotsRejected | src/replicatorg/app/gcode/GCodeCommand.java:87 | parseDouble rejects a token with two dots |
| Common.LastIndexIn | src/replicatorg/app/gcode/GCodeCommand.java:15 | the last occurrence of a character in a range, which is where a greedy `.*` before that character backtracks to; none exactly when the range does not hold it |
| Common.Trim | src/replicatorg/drivers/reprap/SimpleRepRap5DDriver.java:189 | String.trim: the result is the slice of the input between its first and last characters above U+0020; everything cut off on either side is at or below U+0020; a string with none of those is kept whole |
| DriverBase.Resolve | src/replicatorg/drivers/DriverBaseImplementation.java:462-463 | -1 becomes the current tool's index; any other index is kept |
| DriverBase.ToolAt | src/replicatorg/drivers/DriverBaseImplementation.java:465 | the tool at an index, or NoSuchTool for an index the machine does not have (the null dereference) |
| DriverBase.PerformTouchesOnlyTarget | src/replicatorg/drivers/DriverBaseImplementation.java:460-509 | a tool call changes at most the tool it addresses, never the set of tools or the current tool; it fails exactly when that tool does not exist; calls that address no tool change nothing |
| DriverBase.PerformOn | src/replicatorg/drivers/DriverBaseImplementation.java:460-509 | the base driver's effect of a call: it fails exactly when the addressed tool does not exist; otherwise the current tool and the set of tools stay as they were |
| DriverBase.Target | src/replicatorg/drivers/DriverBaseImplementation.java:460-509 | the tool a call addresses: a tool call's toolhead with -1 resolved to the current tool, the current tool for coolant and collet calls, none for readTemperature |
| DriverBase.Configure | src/replicatorg/drivers/DriverBaseImplementation.java:460-509 | the settings a call leaves on its tool: spindle readings never change; enableMotor enables the motor; the timed enable and disableMotor leave it disabled; setTemperature and setPlatformTemperature set their targets; readTemperature, delay and queuePoint change nothing |
| DriverBase.PerformKeepsWellFormed | src/replicatorg/drivers/DriverBaseImplementation.java:460-509 | performing a call keeps tool indices non-negative and the current tool present |
| DriverBase.SentinelMeansCurrentTool | src/replicatorg/drivers/DriverBaseImplementation.java:461-466 | a command built with -1 acts exactly like the same command built for whichever tool is current when it is performed |
| DriverBase.SameEffect | src/replicatorg/drivers/DriverBaseImplementation.java:616-622 | two calls with the same target and the same change to it have the same effect |
| DriverBase.RetargetedConfigures | src/replicatorg/drivers/DriverBaseImplementation.java:616-622 | the change a command makes to its tool does not depend on which index it names |
| DriverBase.TimedEnableCalls | src/replicatorg/drivers/DriverBaseImplementation.java:486-493 | the timed enableMotor makes three calls: enableMotor, delay(millis), disableMotor, both motor calls on the tool resolved once beforehand |
| DriverBase.TimedEnableIsItsCalls | src/replicatorg/drivers/DriverBaseImplementation.java:486-493 | the timed call has the same effect as its three calls performed in order, stopping at the first exception |
| DriverBase.TimedEnableEndsDisabled | src/replicatorg/drivers/DriverBaseImplementation.java:486-493 | on an existing tool the timed call succeeds, leaves that motor off, and has the effect of disableMotor |
| DriverBase.PerformIgnoresReadings | src/replicatorg/drivers/DriverBaseImplementation.java:460-509 | calls do not depend on temperature readings: machines with the same settings fail alike and end with the same settings |
| DriverBase.GetSpindleRPM | src/replicatorg/drivers/DriverBaseImplementation.java:597-600 | the spindle speed reading of the resolved tool; NoSuchTool when it does not exist |
| DriverBase.GetSpindleSpeedPWMAsWritten | src/replicatorg/drivers/DriverBaseImplementation.java:606-609 | as written: the current tool's reading, whatever tool was asked for |
| DriverBase.GetSpindleSpeedPWM | src/replicatorg/drivers/DriverBaseImplementation.java:606-609 | as intended: the reading of the resolved tool; NoSuchTool when it does not exist |
| DriverBase.SpindleQueriesAgree | src/replicatorg/drivers/DriverBaseImplementation.java:597-609 | the corrected PWM query fails exactly when the RPM query does, and differs from the code as written only for a tool other than the current one |
| DriverBase.SpindleSpeedPWMReadsWrongTool | src/replicatorg/drivers/DriverBaseImplementation.java:606-609 | with tool 0 current and tool 1 reading 255, asking for tool 1 answers 0 as written and 255 once corrected |
| DriverBase.GetTemperature | src/replicatorg/drivers/DriverBaseImplementation.java:628-634 | the current temperature reading of the resolved tool (0.0 before any report); NoSuchTool when it does not exist |
| DriverBase.GetPlatformTemperature | src/replicatorg/drivers/DriverBaseImplementation.java:654-660 | the platform reading of the resolved tool; NoSuchTool when it does not exist |
| DriverBase.SetTemperatureSetsTarget | src/replicatorg/drivers/DriverBaseImplementation.java:616-622 | after setTemperature(v, toolhead) on an existing tool, that tool's target temperature is v |
| DriverBase.DriverCore.constructor | src/replicatorg/drivers/DriverBaseImplementation.java:82-92 | seven zero offsets, firmware "Unknown", versions 0.0, not initialised, no errors, position lost, feedrate 0 |
| DriverBase.DriverCore.SetInitialized | src/replicatorg/drivers/DriverBaseImplementation.java:130-136 | the flag takes the new status; clearing it also forgets the position, and setting it keeps the position |
| DriverBase.DriverCore.Initialize | src/replicatorg/drivers/DriverBaseImplementation.java:122-124 | initialised, position kept |
| DriverBase.DriverCore.Uninitialize | src/replicatorg/drivers/DriverBaseImplementation.java:126-128 | not initialised, position lost |
| DriverBase.DriverCore.SetError | src/replicatorg/drivers/DriverBaseImplementation.java:149-151 | the error is appended at the back of the queue |
| DriverBase.DriverCore.SetErrorMessage | src/replicatorg/drivers/DriverBaseImplementation.java:153-155 | a fatal error with the message is appended |
| DriverBase.DriverCore.HasError | src/replicatorg/drivers/DriverBaseImplementation.java:158-160 | holds exactly when the queue is not empty |
| DriverBase.DriverCore.GetError | src/replicatorg/drivers/DriverBaseImplementation.java:162-164 | removes and returns the oldest error; on an empty queue, NoSuchElementException and nothing changes |
| DriverBase.DriverCore.CheckErrors | src/replicatorg/drivers/DriverBaseImplementation.java:166-171 | with an error queued, removes the oldest and throws BuildFailureException with its message; otherwise returns normally; nothing else changes |
| DriverBase.DriverCore.FirmwareInfo | src/replicatorg/drivers/DriverBaseImplementation.java:193-195 | the firmware name, then " v", then the version |
| DriverBase.DriverCore.GetOffset | src/replicatorg/drivers/DriverBaseImplementation.java:213-215 | the entry at i when i is inside the table; ArrayIndexOutOfBoundsException otherwise |
| DriverBase.DriverCore.SetOffsetX | src/replicatorg/drivers/DriverBaseImplementation.java:217-219 | only the x coordinate of entry i changes; an index outside the table throws and changes nothing |
| DriverBase.DriverCore.SetOffsetY | src/replicatorg/drivers/DriverBaseImplementation.java:221-223 | only the y coordinate of entry i changes; an index outside the table throws and changes nothing |
| DriverBase.DriverCore.SetOffsetZ | src/replicatorg/drivers/DriverBaseImplementation.java:225-227 | only the z coordinate of entry i changes; an index outside the table throws and changes nothing |
| DriverBase.DriverCore.SetInternalPosition | src/replicatorg/drivers/DriverBaseImplementation.java:304-306 | the cache holds exactly the given point (or nothing) |
| DriverBase.DriverCore.InvalidatePosition | src/replicatorg/drivers/DriverBaseImplementation.java:240-242 | afterwards the position is lost |
| DriverBase.DriverCore.GetCurrentPosition | src/replicatorg/drivers/DriverBaseImplementation.java:267-289 | reconciles only when the position is lost or an update is forced; a reconciled point replaces the cache, a RetryException keeps it, the base RuntimeException escapes; the answer is the cache or the zero point while still lost |
| DriverBase.DriverCore.Perform | src/replicatorg/drivers/DriverBaseImplementation.java:300-313 | queuePoint and setCurrentPosition store exactly the point, setFeedrate the feedrate; the motor, spindle and tool calls (lines 460-509 onwards) update the machine as PerformOn says, or throw NoSuchTool and keep it |
| RepRap.EmptyBufferMeansNothingOutstanding | src/replicatorg/drivers/reprap/SimpleRepRap5DDriver.java:310-316 | under the accounting invariant, bufferSize is 0 exactly when no command awaits its "ok" |
| RepRap.Decode | src/replicatorg/drivers/reprap/SimpleRepRap5DDriver.java:245 | US-ASCII decoding: one character per byte, bytes below 128 as themselves, others as U+FFFD |
| RepRap.WithCurrentTemperature | src/replicatorg/drivers/reprap/SimpleRepRap5DDriver.java:269-270 | the current tool's extruder reading becomes v; every other reading and every setting is kept |
| RepRap.WithPlatformTemperature | src/replicatorg/drivers/reprap/SimpleRepRap5DDriver.java:276-277 | the current tool's platform reading becomes v; every other reading and every setting is kept |
| RepRap.CurrentStep | src/replicatorg/drivers/reprap/SimpleRepRap5DDriver.java:263-270 | the extruder half: a parsing T: token becomes the current tool's temperature and nothing else changes; a token that does not parse throws NumberFormatException exactly then, leaving the state as it was; no token keeps the reading |
| RepRap.BedStep | src/replicatorg/drivers/reprap/SimpleRepRap5DDriver.java:272-278 | the bed half: a parsing B: token becomes the current tool's platform temperature and nothing else changes; one that does not parse throws NumberFormatException and leaves the state as it was; no token keeps the reading |
| RepRap.ReadTemperatures | src/replicatorg/drivers/reprap/SimpleRepRap5DDriver.java:263-279 | only readings of the current tool change: an extruder token that parses becomes its current temperature, and one that does not throws NumberFormatException before anything changes; then a bed token that parses becomes its platform temperature; a missing token keeps the reading; a thrown exception names the offending token |
| RepRap.OnLine | src/replicatorg/drivers/reprap/SimpleRepRap5DDriver.java:258-293 | no response line changes a tool setting or the current tool |
| RepRap.OnLineAccounting | src/replicatorg/drivers/reprap/SimpleRepRap5DDriver.java:260-293 | "ok" releases exactly the oldest record and subtracts its length, or throws NoSuchElementException changing nothing when none is outstanding; other lines never touch the accounting; "start" initialises; only "Extruder Fail" adds an error (a fatal one); nothing un-initialises |
| RepRap.OnLineKeepsAccounted | src/replicatorg/drivers/reprap/SimpleRepRap5DDriver.java:261 | bufferSize stays the sum of the outstanding lengths, at most 128, and records are only released from the front |
| RepRap.DrainInvariants | src/replicatorg/drivers/reprap/SimpleRepRap5DDriver.java:249-259 | handling all complete lines keeps the accounting exact, releases only the oldest records, keeps the settings and never un-initialises |
| RepRap.DrainWaitsForNewline | src/replicatorg/drivers/reprap/SimpleRepRap5DDriver.java:250 | text without a newline stays pending untouched |
| RepRap.DrainLeavesNoLine | src/replicatorg/drivers/reprap/SimpleRepRap5DDriver.java:250-259 | unless an exception stopped it, the loop leaves no complete line pending |
| RepRap.Framed | src/replicatorg/drivers/reprap/SimpleRepRap5DDriver.java:160-171 | nothing is written exactly when the fixed line is empty; otherwise the line and its newline |
| RepRap.Rendered | src/replicatorg/drivers/reprap/SimpleRepRap5DDriver.java:328-565 | the lines each overridden call sends (the gear call as the code computes it); rendering fails only for enableMotor/enableSpindle, and exactly when the raw (unresolved) index has no tool, with NoSuchTool |
| RepRap.ToolWordReadsBack | src/replicatorg/drivers/reprap/SimpleRepRap5DDriver.java:404-406 | read back by the G-code scanner, the T word of a tool code is the resolved tool index, whatever follows the code |
| RepRap.GearWordReadsBack | src/replicatorg/drivers/reprap/SimpleRepRap5DDriver.java:393-399 | read back by the G-code scanner, the M word of the gear line is the gear code the driver computed |
| RepRap.TimedCallLines | src/replicatorg/drivers/DriverBaseImplementation.java:486-493 | the timed enable renders this driver's enableMotor on the resolved tool, then the delay line, then the disable line |
| RepRap.CallLines | src/replicatorg/drivers/reprap/SimpleRepRap5DDriver.java:328-565 | the lines a call renders: it fails only with NoSuchTool; the timed enable fails exactly when the resolved tool is missing and otherwise ends with the delay line and the tool's M103 line |
| RepRap.TimedEnableLines | src/replicatorg/drivers/DriverBaseImplementation.java:486-493 | on an existing tool: the tool code with M101 or M102 (by motor direction), the delay line, the tool code with M103 |
| RepRap.TimedEnableSendsOnlyDelay | src/replicatorg/drivers/reprap/SimpleRepRap5DDriver.java:427-444 | of the timed enable only the delay line reaches the wire, since the fix-up drops the M101/M102/M103 lines |
| RepRap.WireDropsExtruderLines | src/replicatorg/drivers/reprap/SimpleRepRap5DDriver.java:203-209 | between two extruder-code lines only the middle line is written |
| RepRap.ExtruderCodeVanishes | src/replicatorg/drivers/reprap/SimpleRepRap5DDriver.java:157-162 | a tool code followed by M101, M102 or M103 is cleaned, fixed to nothing and not sent |
| RepRap.PlainLinePasses | src/replicatorg/drivers/reprap/SimpleRepRap5DDriver.java:213-230 | a line with no blank at either end and no 'M' or 'F' passes clean and fix unchanged |
| RepRap.NoFeedNoReorder | src/replicatorg/drivers/reprap/SimpleRepRap5DDriver.java:213-215 | without an 'F' the reorder pattern finds no match |
| RepRap.DelayLinePasses | src/replicatorg/drivers/reprap/SimpleRepRap5DDriver.java:361-367 | the delay line reaches the wire as rendered |
| RepRap.G90Passes | src/replicatorg/drivers/reprap/SimpleRepRap5DDriver.java:130 | "G90" reaches the wire as it is |
| RepRap.IntStringChars | src/replicatorg/drivers/reprap/SimpleRepRap5DDriver.java:364 | decimal text holds only digits and a leading '-', and ends in a digit |
| RepRap.PlatformTemperature | src/replicatorg/drivers/reprap/SimpleRepRap5DDriver.java:489-491 | the platform reading of the tool at the raw index; NoSuchTool when it does not exist |
| RepRap.PlatformTemperatureOverride | src/replicatorg/drivers/reprap/SimpleRepRap5DDriver.java:489-491 | agrees with the base query on explicit indices, and fails on -1 where the base query succeeds |
| RepRap.TimedCallAfterEnable | src/replicatorg/drivers/DriverBaseImplementation.java:486-493 | once enableMotor succeeded, the timed call ends exactly as disableMotor does on the machine it left (the delay changes nothing) |
| RepRap.TimedCallSettings | src/replicatorg/drivers/DriverBaseImplementation.java:486-493 | the three calls, each on the machine the last one left (readings aside), reach the settings of the timed call |
| RepRap.TimedCallParts | src/replicatorg/drivers/DriverBaseImplementation.java:486-493 | when the timed call succeeds, its enableMotor succeeds, and disableMotor then succeeds on the machine that left |
| RepRap.SimpleRepRap5DDriver.constructor | src/replicatorg/drivers/reprap/SimpleRepRap5DDriver.java:72-84 | no outstanding command, an empty buffer, nothing pending or written, not initialised, position lost |
| RepRap.SimpleRepRap5DDriver.HandleLine | src/replicatorg/drivers/reprap/SimpleRepRap5DDriver.java:260-293 | the in-place handling of a line is exactly what OnLine specifies, and keeps the accounting invariant |
| RepRap.SimpleRepRap5DDriver.StoreTemperatures | src/replicatorg/drivers/reprap/SimpleRepRap5DDriver.java:263-279 | the in-place storage is exactly ReadTemperatures: T: then B:, stored on the current tool, a token that does not parse throwing NumberFormatException and skipping the rest |
| RepRap.SimpleRepRap5DDriver.ReadResponse | src/replicatorg/drivers/reprap/SimpleRepRap5DDriver.java:233-301 | no port: NullPointerException, nothing changes; end of stream or IOException: one event consumed, nothing else changes; otherwise the decoded bytes are appended and the pending text is drained as Drain says; the accounting holds and records only leave from the front |
| RepRap.SimpleRepRap5DDriver.Poll | src/replicatorg/drivers/reprap/SimpleRepRap5DDriver.java:165-167 | a read while waiting keeps the accounting, only releases records, writes nothing, keeps the settings and never un-initialises |
| RepRap.SimpleRepRap5DDriver.DrainPending | src/replicatorg/drivers/reprap/SimpleRepRap5DDriver.java:249-259 | the loop over the pending text computes exactly Drain |
| RepRap.Drain | src/replicatorg/drivers/reprap/SimpleRepRap5DDriver.java:249-259 | the readResponse loop as a value: the machine stays well formed and the text left pending is a suffix of the text drained (only whole lines from the front are consumed) |
| RepRap.SimpleRepRap5DDriver.NextLine | src/replicatorg/drivers/reprap/SimpleRepRap5DDriver.java:250-258 | one iteration shortens the pending text and agrees with one round of Drain |
| RepRap.SimpleRepRap5DDriver.SendCommand | src/replicatorg/drivers/reprap/SimpleRepRap5DDriver.java:139-183 | executeGCodeLine and sendCommand: skipped exactly when the cleaned, fixed line is empty (nothing written or recorded); without a port a non-empty line throws NullPointerException; a sent line is written as fixed line plus newline and recorded with that length; a line of 128 or more characters is never sent; a non-empty line that already fits is sent at once, without a read; outside a send nothing is written and records only leave from the front |
| RepRap.SimpleRepRap5DDriver.SendLine | src/replicatorg/drivers/reprap/SimpleRepRap5DDriver.java:160-177 | the send of a fixed line: skip when empty, NullPointerException without a port, otherwise wait for room, then write it with its newline and record its length; a line that fits is sent without waiting |
| RepRap.SimpleRepRap5DDriver.Transmit | src/replicatorg/drivers/reprap/SimpleRepRap5DDriver.java:171-177 | the line and newline are written; its length is appended to the records and added to bufferSize, keeping it within 128 |
| RepRap.SimpleRepRap5DDriver.AwaitRoom | src/replicatorg/drivers/reprap/SimpleRepRap5DDriver.java:165-167 | when the wait ends normally the line fits (bufferSize + size <= 128); if it already fitted, nothing is read; otherwise Blocked (out of fuel) or the exception a read threw |
| RepRap.SimpleRepRap5DDriver.Initialize | src/replicatorg/drivers/reprap/SimpleRepRap5DDriver.java:90-131 | no port: nothing happens; past the deadline: nothing is written; otherwise G90 is sent, even after a swallowed exception, and it goes out whenever 4 bytes fit in the buffer; an already initialised driver goes straight to G90 |
| RepRap.SimpleRepRap5DDriver.AwaitStart | src/replicatorg/drivers/reprap/SimpleRepRap5DDriver.java:105-125 | a normal end means initialised; an initialised driver does not wait; the exception that ends the wait is returned to be swallowed |
| RepRap.SimpleRepRap5DDriver.SendAbsolute | src/replicatorg/drivers/reprap/SimpleRepRap5DDriver.java:130 | "G90\n" is written when the send goes through, and nothing else is; it goes through whenever 4 bytes fit |
| RepRap.SimpleRepRap5DDriver.Reset | src/replicatorg/drivers/reprap/SimpleRepRap5DDriver.java:567-571 | initialisation is forgotten (and with it the position), then initialize runs; G90 goes out whenever 4 bytes fit |
| RepRap.SimpleRepRap5DDriver.IsBufferEmpty | src/replicatorg/drivers/reprap/SimpleRepRap5DDriver.java:303-316 | after one read, true exactly when no command awaits its "ok" (bufferSize is 0) |
| RepRap.SimpleRepRap5DDriver.GetCurrentPosition | src/replicatorg/drivers/reprap/SimpleRepRap5DDriver.java:573-575 | reconcilePosition answers the origin, so a lost (or forced) position becomes the origin and is cached |
| RepRap.SimpleRepRap5DDriver.SendAll | src/replicatorg/drivers/reprap/SimpleRepRap5DDriver.java:328-339 | sending the lines in order writes what each one writes, stopping at the first that does not go through; when all of them fit in the buffer they all go through and the count grows by exactly what they write |
| RepRap.SimpleRepRap5DDriver.SendFramed | src/replicatorg/drivers/reprap/SimpleRepRap5DDriver.java:139-183 | a send adds Frame(line) to the wire; when that fits it goes through and the count grows by exactly its length |
| RepRap.SimpleRepRap5DDriver.ExecuteOne | src/replicatorg/drivers/reprap/SimpleRepRap5DDriver.java:328-565 | an overridden call writes its rendered lines and then the base driver performs it (delay has no base call); a rendering error throws before anything is written; when the lines fit and the base call succeeds on the tools, the call completes |
| RepRap.SimpleRepRap5DDriver.Run | src/replicatorg/drivers/reprap/SimpleRepRap5DDriver.java:328-565 | the lines of a call are written, then the base driver performs it; when the lines fit and the base call succeeds, the call completes |
| RepRap.SimpleRepRap5DDriver.Execute | src/replicatorg/drivers/reprap/SimpleRepRap5DDriver.java:328-565 | any call: the wire gets exactly CallLines, and the settings become those PerformOn gives; when the lines fit and the base call succeeds on the tools, the call completes |
| RepRap.SimpleRepRap5DDriver.TimedEnable | src/replicatorg/drivers/DriverBaseImplementation.java:486-493 | the inherited timed enable writes the enable, delay and disable lines and reaches the timed call's settings, keeping position and feedrate |
| RepRap.SimpleRepRap5DDriver.RunTimed | src/replicatorg/drivers/DriverBaseImplementation.java:486-493 | enableMotor, delay and disableMotor on the resolved tool write their three renderings in order and reach the timed call's settings; when all fit, the call completes |
| RepRap.SimpleRepRap5DDriver.FinishTimed | src/replicatorg/drivers/DriverBaseImplementation.java:490-491 | the delay line, then the disable line and the base disableMotor; when both fit and the tool exists, both complete |
| RepRapText.Clean | src/replicatorg/drivers/reprap/SimpleRepRap5DDriver.java:185-195 | the cleaned line is the slice between its outermost characters above U+0020, everything cut off being at or below U+0020 |
| RepRapText.CleanIdempotent | src/replicatorg/drivers/reprap/SimpleRepRap5DDriver.java:185-195 | cleaning a cleaned line changes nothing |
| RepRapText.ExtruderCodesDropped | src/replicatorg/drivers/reprap/SimpleRepRap5DDriver.java:203-209 | a line holding M101, M102 or M103 anywhere on a line fixes to the empty string |
| RepRapText.FindReorderIsTheMatch | src/replicatorg/drivers/reprap/SimpleRepRap5DDriver.java:213-215 | the search finds the F at which the anchored pattern matches |
| RepRapText.ReorderMovesFeedLast | src/replicatorg/drivers/reprap/SimpleRepRap5DDriver.java:213-217 | prefix + F-token + optional space + E-value becomes prefix + " E" + E-value + " " + F-token |
| RepRapText.FixIsReordered | src/replicatorg/drivers/reprap/SimpleRepRap5DDriver.java:197-231 | a line without an extruder code is only reordered |
| RepRapText.Fix | src/replicatorg/drivers/reprap/SimpleRepRap5DDriver.java:197-231 | fix: the result is empty exactly when the line is empty or holds M101, M102 or M103; a line with neither an extruder code nor an F…E… tail is unchanged |
| RepRapText.Outgoing | src/replicatorg/drivers/reprap/SimpleRepRap5DDriver.java:157-158 | the line sendCommand sends: empty (so skipped) exactly when the cleaned line is empty or holds an extruder code; a cleaned line without either and without an F…E… tail goes out as it is |
| RepRapText.FixMovesFeedLast | src/replicatorg/drivers/reprap/SimpleRepRap5DDriver.java:197-231 | fix moves the feed token after the E-value on a line ending F…E… |
| RepRapText.FixIdempotent | src/replicatorg/drivers/reprap/SimpleRepRap5DDriver.java:197-231 | fixing a fixed line changes nothing, for every line: a reordered line has no F…E… tail left and gains no M101/M102/M103 |
| RepRapText.CurrentTemperatureToken | src/replicatorg/drivers/reprap/SimpleRepRap5DDriver.java:264-268 | exactly the group of `^ok T:([0-9.]+)[^0-9]`: a found token is the longest [0-9.] run right after "ok T:" that a non-digit follows, so no longer group matches; none exactly when no group length matches |
| RepRapText.BedTemperatureToken | src/replicatorg/drivers/reprap/SimpleRepRap5DDriver.java:272-276 | exactly the group of `^ok.*B:([0-9.]+)$`: a found token is a non-empty [0-9.] run with "B:" right before it, ending where `$` matches, with no line terminator between "ok" and "B:"; none exactly when no such match exists |
| RepRapText.BedTokenAt | src/replicatorg/drivers/reprap/SimpleRepRap5DDriver.java:272-276 | "B:" followed by a [0-9.] run to the end of the line yields that run |
| RepRapText.TemperatureBacktracks | src/replicatorg/drivers/reprap/SimpleRepRap5DDriver.java:264-268 | "ok T:210.5" reads 210: the pattern backtracks to find a non-digit |
| RepRapText.TemperatureNeedsTerminator | src/replicatorg/drivers/reprap/SimpleRepRap5DDriver.java:264 | "ok T:210" reads no temperature |
| RepRapText.ExtruderTemperatureOfFullAck | src/replicatorg/drivers/reprap/SimpleRepRap5DDriver.java:264-268 | "ok T:210.5 B:60" reads the extruder at 210.5 |
| RepRapText.BedTemperatureOfFullAck | src/replicatorg/drivers/reprap/SimpleRepRap5DDriver.java:272-276 | "ok T:210.5 B:60" reads the bed at 60 |
| RepRapText.RoundHalfEven | src/replicatorg/drivers/reprap/SimpleRepRap5DDriver.java:83 | DecimalFormat's rounding: the nearest integer, within a half; strictly nearer than a half unless the fraction is exactly .5, and then the even neighbour |
| RepRapText.FormatInteger | src/replicatorg/drivers/reprap/SimpleRepRap5DDriver.java:421-425 | a whole number formats as its plain decimal digits |
| RepRapText.Format | src/replicatorg/drivers/reprap/SimpleRepRap5DDriver.java:81-83 | DecimalFormat("#.######"): never empty, and it starts with '-' exactly for negative values |
| RepRapText.FormatHalf | src/replicatorg/drivers/reprap/SimpleRepRap5DDriver.java:81-83 | 0.5 prints ".5", with no integer digit |
| RepRapText.ToolCode | src/replicatorg/drivers/reprap/SimpleRepRap5DDriver.java:404-410 | "T", the decimal index of the addressed tool (the current tool for -1), then a space |
| RepRapText.ToolCodeInjective | src/replicatorg/drivers/reprap/SimpleRepRap5DDriver.java:404-406 | two tool codes are equal only when they address the same resolved tool |
| RepRapText.GearCodeAsWritten | src/replicatorg/drivers/reprap/SimpleRepRap5DDriver.java:393-397 | the clamp as written, on Java int 40 + ratioIndex, still lands in 40..46 |
| RepRapText.GearCode | src/replicatorg/drivers/reprap/SimpleRepRap5DDriver.java:393-397 | 40 + ratioIndex clamped to 40..46 |
| RepRapText.GearCodeAgreesWithoutOverflow | src/replicatorg/drivers/reprap/SimpleRepRap5DDriver.java:395-397 | the code as written and the intended code agree whenever 40 + ratioIndex does not overflow |
| RepRapText.GearCodeOverflow | src/replicatorg/drivers/reprap/SimpleRepRap5DDriver.java:395-397 | at ratioIndex 2^31-1 the code as written gives M40, the intended code M46 |
| RepRapText.GearLine | src/replicatorg/drivers/reprap/SimpleRepRap5DDriver.java:393-402 | the line is "M4" and one digit: M40..M46, the digit being the code as the driver computes it (Java int 40 + ratioIndex, clamped); whenever 40 + ratioIndex fits an int this is the intended code |
| RepRapText.GearLineOverflow | src/replicatorg/drivers/reprap/SimpleRepRap5DDriver.java:393-399 | at ratioIndex 2^31-1 the driver sends "M40" where "M46" was meant |
| RepRapText.TruncatedDiv | src/replicatorg/drivers/reprap/SimpleRepRap5DDriver.java:362 | Java's long division: it truncates toward zero |
| RepRapText.Saturate32 | src/replicatorg/drivers/reprap/SimpleRepRap5DDriver.java:362 | Math.round's int result: a value within int range is kept, one beyond it is clamped to the nearer int bound |
| RepRapText.DelayLine | src/replicatorg/drivers/reprap/SimpleRepRap5DDriver.java:361-367 | "G4 P" then the seconds; under one second gives "G4 P0" |
| RepRapText.HomeLine | src/replicatorg/drivers/reprap/SimpleRepRap5DDriver.java:348-359 | the homing line starts with "G28" |
| RepRapText.HomeLineNamesAxes | src/replicatorg/drivers/reprap/SimpleRepRap5DDriver.java:351-356 | an axis name appears in the line exactly when that axis is to be homed |

## Left out

- Concurrency: `synchronized` blocks and the serial port's lock. Every operation is sequential.
- Logging and `System.out`.
- Java `assert` statements. They are not enabled in production.
- The serial port's lifecycle (`SerialDriver`).
  - The port is a script of read events plus a log of writes.
  - A read that times out delivers no bytes. An exhausted script behaves the same way.
- The 10-second wall clock of `initialize`. It becomes a read budget: the deadline passes after budget + 1 reads.
- The unbounded waits of `sendCommand`. Each is bounded by fuel and ends `Blocked`/`Stalled` when the fuel runs out. The real driver waits forever.
- DriverBase.DriverCore.GetOffset: it returns the offset as a value. The code returns the table's own `Point3d`, so a caller that changes it changes the driver's offset; that aliasing is not modelled, and nothing in the modelled core relies on it.
- `MachineModel` and `ToolModel` internals.
  - Tools are a map of settings records.
  - A missing tool is `NoSuchTool`, where the code throws `NullPointerException`.
  - A tool the firmware has not reported on reads 0.0.
- Floating point.
  - Doubles are exact reals.
  - `Double.parseDouble` is modelled only on the `[0-9.+-]` tokens the patterns extract, as exact decimals, with signs and at most one dot.
  - `DecimalFormat("#.######")` is modelled exactly on reals: half-even rounding to six places.
- `getSafeFeedrate`, `getDelta` and the other floating-point geometry: they need `sqrt`.
- `loadXML`, `dispose`, `PluginEngine`, and the version getters and setters that only store a field.
- Driver operations outside the modelled core: pause, stop, stepper voltages, lights, sounds and the read-only diagnostics. `Capability.DriverCall` lists only the calls that the core issues or implements. Among those, the ones this driver does not override (for example setMotorDirection and setFeedrate) send nothing and go straight to the base driver.
- RepRapText.DelayLine: `Math.round(millis / 1000)` widens the long quotient to float. The model keeps the quotient exact and only saturates it to int, so it differs from the code for delays of more than 2^24 seconds, where float rounding changes the value.
- The `RetryException` part of every operation's `run`. `Commands.Run` is the single driver call it makes. A driver exception would pass through `run` unchanged, so no separate model is needed.
- Axis iteration order of `homeAxes`: the axes are written in declaration order X, Y, Z, A, B.
- Versions.ToString: its contract only bounds the length; that the text is decimal major, '.', decimal minor is stated as injectivity by `Versions.ToStringInjective`.
- RepRapText.HomeLine: its contract only fixes the "G28" prefix; which axes are named is stated by `RepRapText.HomeLineNamesAxes`.
- RepRapText.DelayLine: its contract fixes the prefix and the sub-second case. That the seconds are `millis / 1000` truncated (and saturated to int) is the body, and `RepRap.DelayLinePasses` states that it reaches the wire unchanged.
- RepRapText.Format: its contract states only the sign character; the digits are stated for whole numbers (`RepRapText.FormatInteger`) and for 0.5 (`RepRapText.FormatHalf`).
- RepRap.SimpleRepRap5DDriver.SendLine, Transmit and `RepRap.Framed`: a line's length is counted in characters (`|line|`), where `String.length()` counts UTF-16 code units. The two agree only for text in the Basic Multilingual Plane; a character above U+FFFF counts 2 in the driver's buffer accounting and 1 in the model.
- RepRap.SimpleRepRap5DDriver.SendCommand: when it has to wait, records are only said to leave from the front of the queue. How many leave depends on how many "ok" lines the reads brought, which the contract does not count.
- RepRap.SimpleRepRap5DDriver.SendAll and Execute: the output is stated only when the outcome is normal. On `Raised`/`Stalled`, a prefix of the lines has been written, and the contract does not say which.

## Findings

| source | as written | input that shows it | evidently intended | confidence | as-written member | corrected member |
|---|---|---|---|---|---|---|
| src/replicatorg/drivers/DriverBaseImplementation.java:606-609 | getSpindleSpeedPWM resolves `toolhead` and then reads `machine.currentTool()`, ignoring it | tool 0 current with PWM reading 0, tool 1 with 255; `getSpindleSpeedPWM(1)` answers 0 | read the addressed tool, as getSpindleRPM does | not executed | DriverBase.GetSpindleSpeedPWMAsWritten | DriverBase.GetSpindleSpeedPWM |
| src/replicatorg/drivers/reprap/SimpleRepRap5DDriver.java:395-397 | `40 + ratioIndex` is computed in int before clamping, so it wraps for large indices | `changeGearRatio(2147483647)` sends M40 | clamp the index to 40..46, so any index above 6 gives M46 | not executed | RepRapText.GearCodeAsWritten | RepRapText.GearCode |

`DriverBase.SpindleSpeedPWMReadsWrongTool` exhibits the first discrepancy and `DriverBase.SpindleQueriesAgree` proves the corrected query. `RepRapText.GearCodeOverflow` exhibits the second and `RepRapText.GearCodeAgreesWithoutOverflow` relates the two. The driver itself (`RepRapText.GearLine`) sends the code as written, so the wire carries what the program sends; `RepRapText.GearLineOverflow` shows the line at the largest index.
