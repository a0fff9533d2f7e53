# SLAP scoreboard pipeline, modelled in Dafny

SLAP turns the serial output of a Trans-Lux FairPlay MP-70 scoreboard controller into
broadcast graphics. This project models the core of that pipeline:

- **MP-70 framing and decoding** (`mp70.dfy`, module `MP70`). STX (0x02) … ETX (0x03)
  frames are cut out of a byte buffer. Clock packets (`'C'`) update a sticky clock.
  Full-state packets (`'H'`) are decoded from fixed byte offsets into `GameData`.
- **Hockey rules** (`hockey.dfy`, module `Hockey`). The event detector remembers the
  previous scores and period and reports at most one event per update. The power-play
  computation is also here.
- **Game simulator and fake serial port** (`fake_serial.dfy`, module `Simulator`). A
  game advances one second per tick, with every random draw passed in. The 80-byte
  packet encoder writes a zeroed byte array in place. The port's input buffer is a
  byte FIFO. This file also proves the encode → extract → decode round trip against
  the parser.
- **Application state** (`state.dfy`, module `State`). It holds the game record, the
  keyword merge of `update_game`, `period_display`, the five output flags and the
  change listeners. Each notification round is logged with the listeners it called
  and the state they saw.
- **Python text primitives** (`text.dfy`, module `PyText`). These are the parts of
  `bytes.decode("ascii")`, `str.strip()`, `int()`, `str()`, `f"{n:2d}"` and
  `f"{n:02d}"` that the core relies on, over ASCII. `str.strip()` and `int()` skip
  different whitespace: `int()` does not skip the separators 0x1C..0x1F.

Each stateful entity is a class. Each class is proved against a specification
function:

| class | specification function |
|---|---|
| `MP70.Parser` | `Decoded` / `NextClock` |
| `MP70.Parser.ExtractPackets` | `Extract` |
| `Hockey.HockeyLogic` | `Detect` |
| `Simulator.GameSimulator` | `Step` / `View` |
| `Simulator.FakeSerial` | `EncodePacket` |
| `State.SystemState` | `Merge` |

The properties are proved as lemmas about those specification functions.

## Model

| member | source | states |
|---|---|---|
| `PyText.AsciiDecode` | src/slap/parser/mp70.py:84 | decoding succeeds exactly when every byte is below 128, and then yields the same code points |
| `PyText.AsciiEncode` | src/slap/simulator/fake_serial.py:215 | encoding ASCII text gives bytes that decode back to that text |
| `PyText.AsciiJoin` | src/slap/simulator/fake_serial.py:207-208 | ASCII text joined to ASCII text is ASCII, so it encodes |
| `PyText.Strip` | src/slap/parser/mp70.py:84 | `strip()` never lengthens the text and leaves no whitespace at either end |
| `PyText.StripKeeps` | src/slap/parser/mp70.py:84 | every non-whitespace character survives `strip()`, at its place in the kept slice |
| `PyText.StripBlank` | src/slap/parser/mp70.py:85-86 | `strip()` gives nothing exactly when the text is all whitespace |
| `PyText.StripNoop` | src/slap/parser/mp70.py:84 | text with no whitespace at either end is unchanged by `strip()` |
| `PyText.StripOne` | src/slap/parser/mp70.py:151 | a single character is kept unless it is whitespace |
| `PyText.StripIdempotent` | src/slap/parser/mp70.py:84 | stripping twice is stripping once |
| `PyText.StripWhole` | src/slap/parser/mp70.py:105-106 | `strip()` keeps all of the text exactly when neither end is whitespace, so a four-character clock field keeps its length only then |
| `PyText.StripSpaceThen` | src/slap/parser/mp70.py:149 | a space followed by a non-space character strips to that character, as a right-aligned one-digit score does |
| `PyText.IntStrip` | src/slap/parser/mp70.py:87-88 | the number part `int()` reads never lengthens the text and has none of the whitespace `int()` skips (tab to carriage return, space) at either end |
| `PyText.IntStripKeeps` | src/slap/parser/mp70.py:87-88 | every character `int()` does not skip stays in the number part, at its place |
| `PyText.IntStripNoop` | src/slap/parser/mp70.py:87-88 | text with no such whitespace at either end is read whole |
| `PyText.PyInt` | src/slap/parser/mp70.py:87-88 | `int()` accepts only text whose number part is not empty |
| `PyText.PyIntRejects` | src/slap/parser/mp70.py:87-90 | `int()` fails when its number part holds a character that is neither a digit, a sign nor an underscore |
| `PyText.PyIntStray` | src/slap/parser/mp70.py:87-90 | `int()` fails on text holding, anywhere, a character that is neither whitespace it skips nor numeric; the separators 0x1C..0x1F are such characters |
| `PyText.StripWiderThanInt` | src/slap/parser/mp70.py:84-88 | a digit followed by 0x1C strips to the digit, but `int()` of the unstripped text fails |
| `PyText.PyIntDigits` | src/slap/parser/mp70.py:87-89 | `int()` of a non-empty run of digits is its decimal value |
| `PyText.TwoDigitsValue` | src/slap/parser/mp70.py:87-88 | two digits read as ten times the first plus the second |
| `PyText.OneDigit` | src/slap/parser/mp70.py:149 | a single digit reads as its own value |
| `PyText.Decimal` | src/slap/simulator/fake_serial.py:71 | the digits of a natural number, read back, are that number; one digit below 10, two below 100 |
| `PyText.IntToString` | src/slap/simulator/fake_serial.py:71 | `str(n)` is ASCII, a sign or digit first and digits after; below 10 it is the single digit |
| `PyText.SpacePad2` | src/slap/simulator/fake_serial.py:214 | `f"{n:2d}"` is ASCII made of digits, '-' and spaces |
| `PyText.PadZeros` | src/slap/simulator/fake_serial.py:64 | zero-padding reaches the width, keeps only digits and does not change the value |
| `PyText.ZeroPadded` | src/slap/simulator/fake_serial.py:64 | `f"{n:0Wd}"` of a natural number is digits that read back as `n` |
| `PyText.ZeroPad2` | src/slap/simulator/fake_serial.py:231 | `f"{n:02d}"` is ASCII text |
| `PyText.LeadingZero` | src/slap/simulator/fake_serial.py:64 | a leading zero does not change a number's value |
| `PyText.ZeroPad2Digits` | src/slap/simulator/fake_serial.py:62-64 | below 100, `f"{n:02d}"` is exactly two digits that read back as `n` |
| `PyText.SpacePad2RoundTrip` | src/slap/simulator/fake_serial.py:214 | from -9 to 99, `f"{n:2d}"` is two columns that `int(text.strip())` reads back as `n` |
| `MP70.GameData.ToDict` | src/slap/parser/mp70.py:40-49 | exactly the six keys of `to_dict`, with integer scores and text period and clock |
| `MP70.Find` | src/slap/parser/mp70.py:197-199 | `buffer.index(x, from)` is the first position at or after `from` holding `x`; None exactly when there is none |
| `MP70.NoMarkerNoFrame` | src/slap/parser/mp70.py:196 | a buffer lacking STX or ETX holds no complete frame |
| `MP70.Extract` | src/slap/parser/mp70.py:194-210 | with no STX, or no ETX at or after the first STX, nothing is extracted and the buffer is returned unchanged; otherwise at least one packet |
| `MP70.ExtractStep` | src/slap/parser/mp70.py:197-208 | one loop round: the packet runs from the first STX to the first ETX after it, and extraction goes on after that ETX |
| `MP70.FirstFrame` | src/slap/parser/mp70.py:197-208 | the first round's positions, its frame and the bytes it drops |
| `MP70.ExtractFramesAreFrames` | src/slap/parser/mp70.py:196-205 | every extracted packet starts with STX, ends with ETX and holds no other ETX |
| `MP70.ExtractRest` | src/slap/parser/mp70.py:208-210 | the remainder is a suffix of the input that holds no complete frame |
| `MP70.Skipped` | src/slap/parser/mp70.py:197-208 | one dropped prefix per extracted packet |
| `MP70.ExtractTiles` | src/slap/parser/mp70.py:194-210 | the input is each dropped prefix followed by its packet, in order, then the remainder |
| `MP70.SkippedHasNoStart` | src/slap/parser/mp70.py:197 | a dropped prefix never holds an STX |
| `MP70.ExtractFrameFirst` | src/slap/parser/mp70.py:196-208 | a complete frame at the front of the buffer is extracted first, whole |
| `MP70.ExtractConcatenation` | src/slap/parser/mp70.py:194-210 | frames written back to back are extracted as exactly those frames, with nothing left over |
| `MP70.ParseMmss` | src/slap/parser/mp70.py:73-92 | a non-ASCII field gives None; a value only comes from a field that is not blank |
| `MP70.ParseMmssBlank` | src/slap/parser/mp70.py:84-86 | a blank field gives None |
| `MP70.ParseMmssStray` | src/slap/parser/mp70.py:83-92 | a character that is neither whitespace nor numeric gives None |
| `MP70.CutRejects` | src/slap/parser/mp70.py:84-89 | a character that `int()` neither skips nor reads lands in the minutes part or the seconds part, and that part is no number |
| `MP70.ParseMmssSeparator` | src/slap/parser/mp70.py:83-92 | a separator byte 0x1C..0x1F with non-whitespace on both sides survives `strip()` and gives None |
| `MP70.ParseMmssPartFails` | src/slap/parser/mp70.py:84-91 | when either part is no number the field reads as nothing |
| `MP70.ParseMmssCut` | src/slap/parser/mp70.py:84-89 | a four-character field with nothing to strip is cut after its second character and reads as minutes * 60 + seconds |
| `MP70.ParseMmssSplit` | src/slap/parser/mp70.py:84-89 | four ASCII digits are cut into the two-digit minutes and the two-digit seconds, each read as a number |
| `MP70.ParseMmssDigits` | src/slap/parser/mp70.py:83-89 | four digits MMSS give MM*60+SS (b"0130" gives 90) |
| `MP70.FormatClockField` | src/slap/parser/mp70.py:94-111 | a four-byte field gives a clock exactly when it is ASCII with no whitespace at either end, and then the clock is `text[:-2] + ":" + text[-2:]` |
| `MP70.ScoreField` | src/slap/parser/mp70.py:149-150 | a non-ASCII score field fails |
| `MP70.ScoreFieldBlank` | src/slap/parser/mp70.py:149-150 | a blank score field reads as 0 |
| `MP70.ScoreFieldStray` | src/slap/parser/mp70.py:149-150 | a character that is neither whitespace nor numeric makes the score fail |
| `MP70.ScoreFieldSeparator` | src/slap/parser/mp70.py:149-150 | a separator byte 0x1C..0x1F with non-whitespace on both sides survives `strip()` and makes the score fail |
| `MP70.PeriodField` | src/slap/parser/mp70.py:151 | the period byte fails above 127, reads as "1" when whitespace, and as itself otherwise |
| `MP70.Present` | src/slap/parser/mp70.py:154-166 | the penalty list is no longer than its fields, holds every parsed value, and is as long as the fields when all of them parsed; `PresentOnlyParsed` and `PresentConcat` give the rest, and `Simulator.PresentPair` the exact two-slot list |
| `MP70.PresentOnlyParsed` | src/slap/parser/mp70.py:154-166 | every entry of the penalty list is the value of some slot that parsed |
| `MP70.PresentConcat` | src/slap/parser/mp70.py:154-166 | absent slots are dropped and the parsed values keep field order: the list for two stretches of slots is the two lists joined |
| `MP70.Decoded` | src/slap/parser/mp70.py:127-182 | packets under 80 bytes, or not of type 'H', yield nothing; an 'H' packet yields data exactly when both scores parse and the period byte is ASCII; the data carry the sticky clock and at most two penalties per side |
| `MP70.NextClock` | src/slap/parser/mp70.py:137-143 | the clock moves only on a 'C' packet of at least 80 bytes; on such a packet it becomes the formatted field when that field is readable and stays as it was when it is not |
| `MP70.PacketKindsDisjoint` | src/slap/parser/mp70.py:137-146 | a packet that yields data leaves the clock alone, and one that moves the clock yields no data |
| `MP70.DecodedFields` | src/slap/parser/mp70.py:146-175 | unfolds `Decoded` at the fixed offsets: an 'H' packet whose score and period fields read yields exactly those fields, the sticky clock and the readable penalty slots of each side |
| `MP70.KeepsClock` | src/slap/parser/mp70.py:137-143 | only a clock packet of at least 80 bytes can move the sticky clock |
| `MP70.BadScoreDropsPacket` | src/slap/parser/mp70.py:147-179 | a non-numeric character in either score field drops the whole 'H' packet |
| `MP70.Parser.constructor` | src/slap/parser/mp70.py:60-61 | the sticky clock starts at "20:00" |
| `MP70.Parser.SetLastClock` | src/slap/parser/mp70.py:68-71 | the setter replaces the sticky clock |
| `MP70.Parser.Parse` | src/slap/parser/mp70.py:113-182 | `parse` returns the decoded data and leaves the sticky clock as the packet dictates |
| `MP70.Parser.ExtractPackets` | src/slap/parser/mp70.py:184-210 | the loop returns exactly the extracted packets and remainder |
| `Hockey.IntOr` | src/slap/core/hockey.py:38-39 | `d.get(key, default)`: the default for a missing key, the entry otherwise |
| `Hockey.GetOr` | src/slap/core/hockey.py:40 | `d.get(key, default)`: the default for a missing key, the entry otherwise |
| `Hockey.GoalOf` | src/slap/core/hockey.py:72-79 | "HOME" exactly when home rose; "AWAY" exactly when home did not rise and away did; None otherwise |
| `Hockey.Detect` | src/slap/core/hockey.py:42-63 | GOAL_HOME exactly when home rose; GOAL_AWAY exactly when only away rose; PERIOD_CHANGE exactly when no goal and the period differs; None exactly when neither score rose and the period is equal |
| `Hockey.LastGoalAgreesWithEvent` | src/slap/core/hockey.py:65-79 | `get_last_goal` names the side whose goal `process_update` would report from the same state |
| `Hockey.RepeatIsQuiet` | src/slap/core/hockey.py:42-63 | replaying the update just processed reports nothing |
| `Hockey.Active` | src/slap/core/hockey.py:98-99 | the count of positive entries is at most the length; zero exactly when none is positive; the length exactly when all are |
| `Hockey.ActiveSplit` | src/slap/core/hockey.py:98-99 | counting over two stretches is the sum of the counts |
| `Hockey.IsPowerPlay` | src/slap/core/hockey.py:81-106 | home_adv == -away_adv; home_pp exactly when home_adv > 0; away_pp exactly when away_adv > 0; never both; equal counts give neither and no advantage |
| `Hockey.ExpiredPenaltyIgnored` | src/slap/core/hockey.py:98-99 | an entry of zero or less changes nothing |
| `Hockey.NewPenaltyShiftsAdvantage` | src/slap/core/hockey.py:98-106 | a further running penalty against a side gives the other side one more advantage |
| `Hockey.PowerPlay.ToDict` | src/slap/core/hockey.py:101-106 | exactly the four keys, two booleans and two integers |
| `Hockey.PowerPlayDict` | src/slap/core/hockey.py:98-106 | unfolds `IsPowerPlay` through `ToDict`: each side's flag is set exactly when the other side has more running penalties, and its advantage is the difference of the counts |
| `Hockey.ParsedUpdateFeedsDetector` | src/slap/core/hockey.py:38-40 | the parser's dict has integer scores, and the detector reads from it the parsed scores and period |
| `Hockey.HockeyLogic.constructor` | src/slap/core/hockey.py:22-25 | a new detector holds 0, 0 and "1" |
| `Hockey.HockeyLogic.ProcessUpdate` | src/slap/core/hockey.py:27-63 | reports `Detect` of the old state and the update, then holds the incoming values with 0, 0 and "1" for missing keys; the string returned is the event's `Name` |
| `Hockey.EventNamesDistinct` | src/slap/core/hockey.py:44-55 | "GOAL_HOME", "GOAL_AWAY" and "PERIOD_CHANGE" are the names of the three events, and two events have the same name only when they are the same event |
| `Hockey.HockeyLogic.GetLastGoal` | src/slap/core/hockey.py:65-79 | reports `GoalOf` of the held state and changes nothing; the string returned is the side's `Name` |
| `Hockey.SideNamesDistinct` | src/slap/core/hockey.py:74-78 | "HOME" and "AWAY" are the names of the two sides, and two sides have the same name only when they are the same side |
| `Hockey.HockeyLogic.Reset` | src/slap/core/hockey.py:108-112 | back to 0, 0 and "1", the constructor's state |
| `State.GameState.ToDict` | src/slap/core/state.py:26-37 | exactly eight keys; scores under "home" and "away", the other fields under their own names, missing values as null |
| `State.DefaultGame` | src/slap/core/state.py:14-24 | the defaults: 0, 0, "1", "20:00", no penalties, no last goal, no update time |
| `State.Upper` | src/slap/core/state.py:51-53 | `upper()` keeps the length and raises exactly the ASCII lower-case letters |
| `State.PeriodDisplay` | src/slap/core/state.py:43-56 | "1st", "2nd" and "3rd" for "1" to "3"; "OT" exactly for OT, O and 4 in any case; "SO" exactly for SO and S in any case; any other text as it is |
| `State.UpperFixes` | src/slap/core/state.py:51-53 | text without lower-case letters is its own upper case |
| `State.UpperIdempotent` | src/slap/core/state.py:51-53 | upper-casing twice is upper-casing once |
| `State.PeriodDisplayIdempotent` | src/slap/core/state.py:43-56 | displaying a displayed period changes nothing |
| `State.PeriodDisplayIgnoresCase` | src/slap/core/state.py:51-54 | apart from text shown as it is, the display ignores letter case |
| `State.Assign` | src/slap/core/state.py:144-145 | `setattr` sets the named field to the keyword's value and leaves every other field alone |
| `State.Merge` | src/slap/core/state.py:143-145 | after the keyword loop, a last keyword that names a field has set that field; a last keyword naming nothing is skipped |
| `State.MergeKeeps` | src/slap/core/state.py:143-145 | a field no keyword names keeps its value |
| `State.MergeLastWins` | src/slap/core/state.py:143-145 | a named field takes the value of the last keyword naming it |
| `State.Known` | src/slap/core/state.py:144 | no more keywords than given, each naming a field; when every keyword names a field all are kept, in order |
| `State.KnownConcat` | src/slap/core/state.py:143-144 | the filter keeps the order: the kept keywords of two stretches, joined |
| `State.KnownSnoc` | src/slap/core/state.py:143-144 | unfolds `Known` for one more keyword: a keyword at the end is kept, after the others, exactly when it names a field |
| `State.KnownMembers` | src/slap/core/state.py:143-144 | a keyword is kept exactly when it is given and names a field |
| `State.MergeIgnoresUnknown` | src/slap/core/state.py:143-145 | names `GameState` lacks have no effect |
| `State.RemoveFirst` | src/slap/core/state.py:164-165 | `list.remove` drops one occurrence: one shorter, same elements otherwise |
| `State.IndexOf` | src/slap/core/state.py:165 | the first position holding the element |
| `State.RemoveFirstCuts` | src/slap/core/state.py:164-165 | removal cuts out the first occurrence and keeps the order of the rest |
| `State.SystemState.constructor` | src/slap/core/state.py:64-72 | default game, `bug_visible` on, the other four flags off, no listeners |
| `State.SystemState.ToDict` | src/slap/core/state.py:177-187 | exactly six keys: the game's dict under "game" and each flag under its own name |
| `State.SystemState.NotifyListeners` | src/slap/core/state.py:167-175 | one round calling every listener in order, whatever each does, and nothing else changed |
| `State.SystemState.SetBugVisible` | src/slap/core/state.py:85-89 | sets only its flag, then one notification round |
| `State.SystemState.SetReplayActive` | src/slap/core/state.py:96-100 | sets only its flag, then one notification round |
| `State.SystemState.SetSerialConnected` | src/slap/core/state.py:107-111 | sets only its flag, then one notification round |
| `State.SystemState.SetCasparConnected` | src/slap/core/state.py:118-122 | sets only its flag, then one notification round |
| `State.SystemState.SetSimulatorRunning` | src/slap/core/state.py:129-133 | sets only its flag, then one notification round |
| `State.SystemState.UpdateGame` | src/slap/core/state.py:135-147 | the game becomes the keyword merge, stamped with the update time; flags and listeners unchanged; one notification round after the change |
| `State.SystemState.SetGame` | src/slap/core/state.py:149-154 | the game becomes the given record, stamped; one notification round after the change |
| `State.SystemState.AddListener` | src/slap/core/state.py:156-159 | appends the listener, without notifying |
| `State.SystemState.RemoveListener` | src/slap/core/state.py:161-165 | removes the first occurrence if present, otherwise changes nothing |
| `Simulator.Initial` | src/slap/simulator/fake_serial.py:43-52 | a new game: 0-0, period 1, a full period on the clock, no penalties, first goal armed |
| `Simulator.InitialWellFormed` | src/slap/simulator/fake_serial.py:43-52 | a new game is well formed |
| `Simulator.Max0` | src/slap/simulator/fake_serial.py:89 | `max(0, x)` |
| `Simulator.CountDown` | src/slap/simulator/fake_serial.py:89-90 | the counted-down list is no longer than before and holds only positive entries |
| `Simulator.CountDownDecrements` | src/slap/simulator/fake_serial.py:89-90 | every surviving entry is at least a second below the old bound |
| `Simulator.CountDownExact` | src/slap/simulator/fake_serial.py:89-90 | entries above one second all survive, each exactly one lower, in order; entries of at most one second all go |
| `Simulator.CountDownLive` | src/slap/simulator/fake_serial.py:89-90 | a list of penalties above one second all survive, each exactly one lower, in order |
| `Simulator.CountDownExpired` | src/slap/simulator/fake_serial.py:89-90 | a list of penalties of at most one second all go |
| `Simulator.CountDownConcat` | src/slap/simulator/fake_serial.py:89-90 | the countdown works entry by entry, so for any mixed list each entry above one second survives one lower, in order, and each other entry goes |
| `Simulator.NextPenalties` | src/slap/simulator/fake_serial.py:88-113 | the counted-down list is kept as a prefix; at most one entry is appended, the drawn penalty, exactly when it is called against this side and the side holds fewer than two; a side never goes past two new entries |
| `Simulator.Step` | src/slap/simulator/fake_serial.py:77-121 | scores never fall and together rise by exactly one when the goal countdown runs out, otherwise not at all; the period stays or rises by one |
| `Simulator.StepWellFormed` | src/slap/simulator/fake_serial.py:84-121 | a tick keeps scores non-negative, the period in 1..3, the clock within the period and at most two penalties per side, each of at most five minutes |
| `Simulator.StepClock` | src/slap/simulator/fake_serial.py:84-119 | a clock that is not negative stays non-negative or becomes the configured period length; it drops by exactly one while positive and is unchanged otherwise within a period; on a period change it is set to the period length |
| `Simulator.StepPeriod` | src/slap/simulator/fake_serial.py:115-119 | the period rises by one exactly when the clock runs out before the third period ends |
| `Simulator.StepScores` | src/slap/simulator/fake_serial.py:92-101 | scores never fall; exactly one rises by one when the goal countdown runs out, which re-arms it; otherwise none does |
| `Simulator.StepPenalties` | src/slap/simulator/fake_serial.py:88-113 | penalties are counted down, and one is added only against a side that holds fewer than two |
| `Simulator.RunWellFormed` | src/slap/simulator/fake_serial.py:156-168 | however many ticks run, the game stays well formed and neither the scores nor the period fall |
| `Simulator.ClockTextReads` | src/slap/simulator/fake_serial.py:60-64 | below 100 minutes, `format_clock` is two digits, a colon and two digits with MM*60+SS equal to the clock seconds |
| `Simulator.ClockText` | src/slap/simulator/fake_serial.py:60-64 | `format_clock` ends in a colon and two digits that are the seconds within the minute |
| `Simulator.ClockTextCut` | src/slap/simulator/fake_serial.py:60-64 | below 100 minutes the clock text without its colon is four digits, and putting the colon back after the second gives the clock text |
| `Simulator.ColonCut` | src/slap/simulator/fake_serial.py:207 | two digits, a colon and two digits lose only the colon, and the parser's cut after the second digit restores the text |
| `Simulator.DigitPairPlain` | src/slap/simulator/fake_serial.py:207 | two digits are ASCII, carry no whitespace and are left alone by colon removal |
| `Simulator.PeriodText` | src/slap/simulator/fake_serial.py:71 | "OT" exactly past the third period; for periods 1 to 3 the period's digit |
| `Simulator.View` | src/slap/simulator/fake_serial.py:66-75 | `get_state` reports the scores, the penalty lists, the period text and the formatted clock |
| `Simulator.GameSimulator.constructor` | src/slap/simulator/fake_serial.py:28-54 | the configured game in its initial, well-formed state |
| `Simulator.GameSimulator.GetState` | src/slap/simulator/fake_serial.py:66-75 | the state view of the current fields; "OT" exactly past the third period |
| `Simulator.GameSimulator.Tick` | src/slap/simulator/fake_serial.py:77-121 | the fields become `Step` of the old fields and the draws, and the returned state is their view |
| `Simulator.GameSimulator.Reset` | src/slap/simulator/fake_serial.py:145-154 | back to the initial game |
| `Simulator.Zeros` | src/slap/simulator/fake_serial.py:200 | `bytearray(n)`: n zero bytes |
| `Simulator.RemoveColons` | src/slap/simulator/fake_serial.py:207 | `replace(":", "")` leaves no colon, never lengthens and keeps ASCII text ASCII |
| `Simulator.RemoveColonsConcat` | src/slap/simulator/fake_serial.py:207 | removing colons piecewise is removing them from the whole |
| `Simulator.RemoveColonsNone` | src/slap/simulator/fake_serial.py:207 | text without a colon is unchanged |
| `Simulator.RemoveColonsSkip` | src/slap/simulator/fake_serial.py:207 | a leading colon is dropped |
| `Simulator.ColonDropped` | src/slap/simulator/fake_serial.py:207 | between two colon-free pieces, the colon is the only thing removed |
| `Simulator.Ljust4` | src/slap/simulator/fake_serial.py:208 | `ljust(4)` keeps the bytes and pads with spaces up to four |
| `Simulator.ScoreBytes` | src/slap/simulator/fake_serial.py:214-219 | three bytes whose first two are the score in two columns |
| `Simulator.PenaltyTextReads` | src/slap/simulator/fake_serial.py:226-231 | below 100 minutes a running penalty is four digits MMSS with MM*60+SS equal to its seconds |
| `Simulator.PenaltyText` | src/slap/simulator/fake_serial.py:226-231 | ASCII text that is four blanks exactly when the penalty has expired |
| `Simulator.PenaltyBytes` | src/slap/simulator/fake_serial.py:226-231 | a penalty field is four bytes |
| `Simulator.ClockBytes` | src/slap/simulator/fake_serial.py:207-208 | the clock field is four bytes |
| `Simulator.PeriodBytes` | src/slap/simulator/fake_serial.py:222-223 | the period byte is the first character of the period |
| `Simulator.SlotBytes` | src/slap/simulator/fake_serial.py:234-245 | a penalty slot is four bytes |
| `Simulator.EncodePacket` | src/slap/simulator/fake_serial.py:199-247 | 80 bytes, STX first, ETX last, 'C' or 'H' at byte 1 as chosen |
| `Simulator.ScoreColumns` | src/slap/simulator/fake_serial.py:213-219 | the scores sit at 13-14 and 29-30, as `f"{n:2d}"`, and the parser reads them back |
| `Simulator.PeriodColumn` | src/slap/simulator/fake_serial.py:221-223 | the period's first character sits at 45, and the parser reads it back (a blank as "1") |
| `Simulator.SlotColumns` | src/slap/simulator/fake_serial.py:233-245 | the penalty slots sit at 52 and 57 for the home side and at 62 and 67 for the away side |
| `Simulator.SideSlotsRead` | src/slap/simulator/fake_serial.py:233-245 | both slots of a side read back as the running penalties among its first two |
| `Simulator.ClockLayout` | src/slap/simulator/fake_serial.py:206-208 | the clock sits at bytes 2 to 5 |
| `Simulator.ScoreFieldReads` | src/slap/simulator/fake_serial.py:214-215 | the parser reads a written score back as itself |
| `Simulator.PenaltyBytesDigits` | src/slap/simulator/fake_serial.py:226-231 | a running penalty is written as four digit bytes whose MMSS value is its seconds |
| `Simulator.PenaltyBytesRead` | src/slap/simulator/fake_serial.py:226-231 | the parser reads a running penalty back as its seconds |
| `Simulator.ExpiredPenaltyUnread` | src/slap/simulator/fake_serial.py:227-228 | an expired penalty's four blanks read as no penalty |
| `Simulator.ZeroSlotUnread` | src/slap/simulator/fake_serial.py:234-245 | a slot left zeroed reads as no penalty |
| `Simulator.SlotDecodes` | src/slap/simulator/fake_serial.py:234-245 | a slot reads back as its penalty when that is running, and as nothing otherwise |
| `Simulator.Running` | src/slap/simulator/fake_serial.py:226-228 | the entries the parser gets back (the positive ones, since an expired one is written blank), in order |
| `Simulator.RunningKeepsRunning` | src/slap/simulator/fake_serial.py:226-228 | a list of positive entries is its own filter |
| `Simulator.FirstTwo` | src/slap/simulator/fake_serial.py:234-245 | the first two penalties, the whole list when it is that short |
| `Simulator.PresentPair` | src/slap/parser/mp70.py:154-166 | the parsed penalty list of two slots, spelled out |
| `Simulator.RunningFirstTwo` | src/slap/simulator/fake_serial.py:234-245 | the running penalties among the first two, spelled out |
| `Simulator.SlotsDecode` | src/slap/simulator/fake_serial.py:234-245 | the two slots of a side read back as its running penalties among the first two |
| `Simulator.PeriodRead` | src/slap/parser/mp70.py:151 | the period the parser reads is one non-whitespace character |
| `Simulator.ScorePacketRoundTrip` | src/slap/simulator/fake_serial.py:210-245 | an 'H' packet decodes to the same scores, the period's first character, the running penalties among the first two per side and the parser's clock |
| `Simulator.ScorePacketKeepsClock` | src/slap/simulator/fake_serial.py:209-211 | an 'H' packet leaves the parser's clock where it was |
| `Simulator.ClockPacketRoundTrip` | src/slap/simulator/fake_serial.py:205-208 | a 'C' packet yields no data and sets the clock to the colon-free text re-read as "MM:SS" when that is four characters without edge whitespace |
| `Simulator.SimulatedScoreRoundTrip` | src/slap/simulator/fake_serial.py:197-247 | a well-formed simulated game with scores up to 99 decodes from its 'H' packet to its own state view, the clock aside |
| `Simulator.SimulatedClockRoundTrip` | src/slap/simulator/fake_serial.py:197-247 | the simulator's clock text becomes the parser's clock through a 'C' packet |
| `Simulator.RemoveColonsNoEtx` | src/slap/simulator/fake_serial.py:207 | removing colons brings in no ETX |
| `Simulator.ScoreBytesNoEtx` | src/slap/simulator/fake_serial.py:214-219 | no score byte is ETX |
| `Simulator.SlotNoEtx` | src/slap/simulator/fake_serial.py:226-245 | no penalty byte is ETX |
| `Simulator.ClockBytesNoEtx` | src/slap/simulator/fake_serial.py:207-208 | no clock byte is ETX when the clock holds none |
| `Simulator.EncodedIsFrame` | src/slap/simulator/fake_serial.py:199-247 | an encodable packet whose clock (for 'C') holds no ETX byte, or whose period starts with no ETX (for 'H'), is one complete frame |
| `Simulator.EncodeAll` | src/slap/simulator/fake_serial.py:197-251 | one packet per state, in order |
| `Simulator.GeneratedStreamSplits` | src/slap/simulator/fake_serial.py:249-251 | packets written back to back, each encodable and free of ETX in its clock or period as for `EncodedIsFrame`, are extracted as exactly those packets, with nothing left over |
| `Simulator.NoEtxJoin` | src/slap/simulator/fake_serial.py:64 | text joined from ETX-free pieces is ETX-free |
| `Simulator.ZeroPad2NoEtx` | src/slap/simulator/fake_serial.py:64 | a zero-padded number holds no ETX |
| `Simulator.ClockTextNoEtx` | src/slap/simulator/fake_serial.py:60-64 | `format_clock` never produces an ETX, for any number of seconds |
| `Simulator.SimulatedFrameSafe` | src/slap/simulator/fake_serial.py:66-75 | every simulator view is free of ETX in its clock and at the start of its period, so both packet kinds frame |
| `Simulator.Views` | src/slap/simulator/fake_serial.py:66-75 | one `get_state` view per simulator state, in order |
| `Simulator.SimulatedStreamSplits` | src/slap/simulator/fake_serial.py:197-251 | the packets written for any run of encodable simulator states are extracted as exactly those packets, with no framing premise |
| `Simulator.Put` | src/slap/simulator/fake_serial.py:208 | slice assignment writes the bytes at their place and leaves the rest of the array alone |
| `Simulator.FieldBytes` | src/slap/simulator/fake_serial.py:205-223 | the clock, score and period fields hold their bytes at their offsets, with zero bytes up to the next field |
| `Simulator.SlotBytesAt` | src/slap/simulator/fake_serial.py:233-245 | each penalty slot holds its slot bytes at its offset, with zero bytes up to the next slot |
| `Simulator.PutField` | src/slap/simulator/fake_serial.py:207-223 | writing one field at its offset extends the finished prefix of the packet up to the next field, and the frame and type bytes stay |
| `Simulator.PutSlot` | src/slap/simulator/fake_serial.py:233-245 | a penalty slot is written only when the side has that many penalties; either way the finished prefix extends past the slot |
| `Simulator.SliceBound` | src/slap/simulator/fake_serial.py:270 | how much `buffer[:size]` takes, with Python's clamping and negative bounds |
| `Simulator.FakeSerial.constructor` | src/slap/simulator/fake_serial.py:178-195 | an empty buffer over a default simulator in its initial state |
| `Simulator.FakeSerial.GeneratePacket` | src/slap/simulator/fake_serial.py:197-251 | the buffer grows by exactly the encoded packet |
| `Simulator.FakeSerial.Read` | src/slap/simulator/fake_serial.py:265-272 | the bytes read followed by the bytes left are the old buffer, and the number of bytes read is the end of Python's slice `[:size]` clamped to the buffer, which for a negative size counts back from the end |
| `Simulator.FakeSerial.Write` | src/slap/simulator/fake_serial.py:274-276 | reports the whole of `data` written |
| `Simulator.FakeSerial.InWaiting` | src/slap/simulator/fake_serial.py:278-282 | the number of bytes waiting in the buffer |
| `Simulator.FakeSerial.ResetInputBuffer` | src/slap/simulator/fake_serial.py:284-287 | the buffer is empty afterwards |

## Left out

- Locks, threads and the simulator's run loop (`start`, `stop`, `_run_loop`, `set_on_update`, `open`, `close`, the context-manager methods and `get_simulator`) are not modelled. Operations are modelled one at a time. `GeneratedStreamSplits` and `SimulatedStreamSplits` cover the effect of the loop feeding packets into the port.
- Randomness is passed in as parameters. The draws of `tick` are a `TickDraws` record; the first goal delay and `_generate_packet`'s packet kind are arguments.
- `datetime.now()` is passed in as a parameter. A moment is held as its ISO text.
- The float settings `penalty_chance` and `speed_multiplier` are not modelled. The port's `port`, `baudrate` and `timeout` are stored by the source and never used, so they are left out, and so is `reset_output_buffer`, which does nothing.
- `to_json` on both records is left out: it is JSON serialisation of `to_dict`, which is modelled.
- Logging is left out.
- Simulator.FakeSerial.GeneratePacket: requires scores from -9 to 99, a non-empty period whose first character is ASCII, penalties under 100 minutes, and an ASCII clock of at most four characters once its colons are removed. Outside those bounds the source does one of two things, and neither is modelled:
  - It raises an exception. An empty period raises `IndexError` at `period_str[0]`. A non-ASCII period character or a non-ASCII clock raises `UnicodeEncodeError` in `.encode("ascii")`.
  - Its slice assignments resize the bytearray, so the packet is no longer 80 bytes. This happens with a score outside -9..99, a penalty of 100 minutes or more, or a clock longer than four characters without its colons.
- Simulator.EncodedIsFrame, Simulator.GeneratedStreamSplits: they require that a clock packet's clock holds no ETX (0x03) byte and that a full-state packet's period does not start with one. An ETX written into the packet ends the frame early in the parser's extraction, in the source as in the model, so for such states the framing promise does not hold. `SimulatedFrameSafe` shows the simulator never produces such a state, and `SimulatedStreamSplits` states the simulator's stream without the premise.
- Hockey.HockeyLogic.ProcessUpdate: the period is compared by structural equality of the JSON value. Python's `!=` treats `1`, `1.0` and `True` as equal, so an update whose period switches between such values reports a period change in the model but not in the source; floats are not modelled, and mixed int/bool periods are not either.
- Hockey.HockeyLogic.ProcessUpdate: requires the scores in the update, where present, to be integers. The source compares them with `>`, which Python defines for other types as well; such updates are not modelled.
- Hockey.HockeyLogic.GetLastGoal: requires integer scores, for the same reason as `process_update`.
- State.SystemState.UpdateGame: keyword arguments are typed per field, and a name `GameState` has no attribute for is `Unknown`. Python's `hasattr` also matches method and dunder names, and `setattr` accepts values of any type; neither is modelled.
- State.SystemState.SetGame stores the record by value. The source keeps a reference to the caller's object and writes `last_update` into it, so the caller sees the change; that aliasing is not modelled.
- Listeners are identified by a number. A notification round records which listeners were called and the state they saw. What a callback does, any exception it raises and any re-entrant call back into the state are not modelled.
- State.PeriodDisplay upper-cases ASCII letters only. Non-ASCII case mappings of `str.upper()` are not modelled.
- `int()` is modelled on ASCII text: tab to carriage return and space at either end, an optional sign, and digits with single underscores between them. Non-ASCII digits and whitespace cannot occur, because fields are decoded as ASCII first.
- src/run.py, the web app, the database, the CasparCG and OBS outputs, configuration and the CLI and installer scripts are not part of this model.
