# Ecoville core in Dafny

Ecoville is a browser city-building game on a 5×5 grid. The player places
buildings (a residential complex, a house, a wind turbine, a tree, a gas plant,
a factory) that cost money and change the city's population, pollution,
energy, income and happiness. The game ends lost when pollution reaches 100 or
the city is broke with no income, and won when population, energy and
happiness meet their thresholds. A breadboard attached by a serial line can
drive the game: it reports `cell,resistance` records, one per line, and each
resistor value stands for a building kind.

This project models the logic of that game:

- `building_types.dfy`: the building table, its key lookup and the 50% refund.
- `game_state.dfy`: the metrics and their clamping, the update step, the end
  check and the turn step as pure functions. The class `City` holds the same
  state in mutable fields and a 5×5 array; each method is proved to agree with
  the function for its operation.
- `buildings.dfy`: placing a building and clearing a cell. Each is a guard
  chain that either fails and changes nothing, or writes one cell and applies
  the building's effects. Both exist as pure functions and as methods on a
  `City`.
- `text.dfy`: the JavaScript string operations the serial decoder uses
  (`split`, `trim`, `parseInt`, `parseFloat`) on the text a device sends.
- `arduino_handler.dfy`: the resistor bands, the cell-number conversion, the
  classification, the record decision, and the line framing of the read loop.
  The class `Handler` holds the buffer and drives a `City`.

The city's state is also described as a value (`CityState`: metrics and
board). The stateful methods state their effect as "the new state is the pure
function of the old state". The properties themselves are proved about those
functions:

- the clamping invariant over any run of updates and turns;
- exact effects when no clamp fires;
- what a failed placement or clear leaves behind;
- the place-then-clear round trip and where a clamp breaks it;
- the cell-number conversion as a bijection;
- the order-independence of the classification;
- that cutting the serial text into chunks at any point never changes what is
  processed.

## Model

| member | source | states |
|---|---|---|
| `BuildingTypes.Lookup` | js/buildings.js:144-147 | the table lookup finds a kind for exactly the six table keys, and the kind found is the one stored under that key |
| `BuildingTypes.DataOf` | js/buildings.js:6-61 | every table cost is positive and even, so the 50% refund is exactly half the cost |
| `BuildingTypes.Refund` | js/buildings.js:226 | `Math.floor(cost * 0.5)` is the largest whole number whose double does not exceed the cost; it lies between 0 and the cost for a non-negative cost |
| `GameState.CheckedEnd` | js/gameState.js:90-116 | the check leaves every figure and the turn count alone; pollution at or above 100 loses; otherwise a budget ≤ 0 with income ≤ 0 loses; otherwise the three thresholds win; `gameOver` is set exactly when the game was over or one of these holds; `gameWon` is set exactly when no loss holds and the game wins or had been won |
| `GameState.Updated` | js/gameState.js:62-78 | afterwards happiness is min(100, happiness + delta) and budget, pollution and population are max(0, value + delta), so the clamping invariant holds whatever the deltas; energy and income move by exactly their delta; the turn count is untouched; the end check then decides on the new figures: `gameOver` is set exactly when the game was over or the new figures lose or win, `gameWon` exactly when they do not lose and either win or the game had been won |
| `GameState.NextTurn` | js/gameState.js:81-87 | the budget becomes max(0, budget + income), the turn count goes up by one, energy and income do not change, nothing else moves in a clamped state, the result is clamped; the end check then decides on the new figures: `gameOver` is set exactly when the game was over or the new figures lose or win, `gameWon` exactly when they do not lose and either win or the game had been won |
| `GameState.RunKeepsInvariants` | js/gameState.js:62-87 | from a clamped state, any sequence of updates and turns keeps the clamping invariant, raises the turn count by the number of turns, and never clears `gameOver` |
| `GameState.EndCheckIsIdempotent` | js/gameState.js:84-86 | a second end check decides as the first one did |
| `GameState.InitialIsClamped` | js/gameState.js:2-13 | the initial metrics satisfy the clamping invariant and neither lose nor win |
| `GameState.WinAtThresholds` | js/gameState.js:108-115 | the win thresholds are inclusive: population 500, energy 0 and happiness 70 win when no loss holds |
| `GameState.PollutionAtMaxLoses` | js/gameState.js:92-98 | pollution of exactly 100 loses, whatever the other metrics |
| `GameState.City.constructor` | js/gameState.js:2-30 | a new city has the initial metrics and an empty grid |
| `GameState.City.ResetGameState` | js/gameState.js:39-59 | after a reset the metrics are the initial ones and every cell is empty |
| `GameState.City.UpdateGameState` | js/gameState.js:62-78 | the new metrics are `Updated` of the old ones; the grid is not touched |
| `GameState.City.AddChanges` | js/gameState.js:64-69 | each non-zero delta is added to its metric and a zero delta is skipped |
| `GameState.City.ClampMetrics` | js/gameState.js:71-75 | happiness is capped at 100 and budget, pollution and population are floored at 0 |
| `GameState.City.EndTurn` | js/gameState.js:81-87 | the new metrics are `NextTurn` of the old ones |
| `GameState.City.CheckGameEndConditions` | js/gameState.js:90-116 | only the two flags change, as `CheckedEnd` says |
| `Buildings.Place` | js/buildings.js:142-205 | placement succeeds exactly when the key is known, both coordinates are in 0..4, the cell is empty and the budget covers the cost (equality is enough). On failure the city is unchanged. On success the cell holds the kind and a copy of its table row, no other cell changes, the metrics are `Updated` by the placement deltas, the budget drops by exactly the cost, and cells keep holding their kind's row |
| `Buildings.Clear` | js/buildings.js:208-248 | for a row on the grid, clearing succeeds exactly when the column is on the grid and the cell is occupied. On failure the city is unchanged. On success the cell is emptied, no other cell changes, and the metrics are `Updated` by the refund and the negated stored effects. From a non-negative budget, the budget rises by exactly half the cost |
| `Buildings.PlaceThenClear` | js/buildings.js:142-248 | placing and then clearing the same cell restores the grid, leaves the budget at `b - cost + cost/2` and the turn count unchanged; the other figures come back exactly when no clamp fired during the placement |
| `Buildings.HouseRoundTripAtFullHappiness` | js/buildings.js:192-236 | a house placed at 100 happiness and removed again leaves happiness at 90: the clamp on placement is not undone by the removal |
| `Buildings.PlaceBuilding` | js/buildings.js:142-205 | the returned flag and the new city are those of `Place` on the old city |
| `Buildings.ClearCell` | js/buildings.js:208-248 | the returned flag and the new city are those of `Clear` on the old city |
| `Text.Split` | js/arduinoHandler.js:136 | splitting on one character gives one piece more than there are separators, and no piece holds the separator |
| `Text.JoinSplit` | js/arduinoHandler.js:136 | joining the pieces of a split with the separator gives back the text |
| `Text.SplitJoin` | js/arduinoHandler.js:91 | splitting the join of separator-free pieces gives back the pieces |
| `Text.SplitNoSeparator` | js/arduinoHandler.js:91-95 | a text without the separator splits into itself alone |
| `Text.SplitAppend` | js/arduinoHandler.js:133-139 | the pieces of `a + b` are the complete pieces of `a` followed by the pieces of `a`'s last piece continued by `b` |
| `Text.Trim` | js/arduinoHandler.js:91 | `trim()` gives the slice of the text between its leading and trailing white space; the slice neither starts nor ends with white space, and it is empty exactly when the text is all white space |
| `Text.TrimUntrimmed` | js/arduinoHandler.js:143 | a text that neither starts nor ends with white space trims to itself |
| `Text.ParseInt` | js/arduinoHandler.js:97 | the field is a number exactly when, trimmed, it is decimal digits with an optional sign; plain digits give their value, and a negative number comes only from a leading `-` |
| `Text.ParseSigned` | js/arduinoHandler.js:97-98 | every whole number, negative ones included, printed in decimal parses back to itself as an integer and as a number |
| `Text.ParseFloat` | js/arduinoHandler.js:98 | a number is parsed only from a text that is not blank once trimmed; plain digits give the same value as `parseInt`; a negative number comes only from a leading `-` |
| `Text.ParseFloatAccepts` | js/arduinoHandler.js:98 | a field is a number exactly when, trimmed, it is digits with an optional sign and optionally a `.` strictly inside the digits; anything else is NaN |
| `Text.FractionValue` | js/arduinoHandler.js:98 | the digits after a decimal point, each worth a tenth of the one before, denote a value in [0, 1) |
| `Text.ParseFraction` | js/arduinoHandler.js:98 | digits, `.` and digits parse to the value of the whole part plus the fraction |
| `Text.ParseTenths` | js/arduinoHandler.js:98 | a reading printed with one decimal (`300.0`, `21.1`) parses to its whole units plus its tenths over ten |
| `Text.ParseDigits` | js/arduinoHandler.js:97-98 | the decimal notation of a natural number parses back to that number as an integer and as a real |
| `ArduinoHandler.ConvertGridPosition` | js/arduinoHandler.js:67-76 | a position is returned exactly for cell numbers 0..24; it lies on the grid and its cell number is the argument |
| `ArduinoHandler.ConvertCellNumber` | js/arduinoHandler.js:73-75 | every grid position is reached from its own cell number, so the conversion is a bijection from 0..24 onto the grid |
| `ArduinoHandler.ConversionExamples` | js/arduinoHandler.js:67-76 | 0 is (0, 4), 12 is (2, 2), 24 is (4, 0); 25 and -1 are rejected |
| `ArduinoHandler.IdentifyBuildingType` | js/arduinoHandler.js:79-87 | the loop returns the kind of the first band, in declared order, that holds the reading, or none when no band holds it |
| `ArduinoHandler.FirstMatchIsSomeBand` | js/arduinoHandler.js:80-86 | a first match is a band holding the reading with no earlier band holding it; no match means no band holds it |
| `ArduinoHandler.ClassificationIgnoresOrder` | js/arduinoHandler.js:15-22 | the bands do not overlap, so a reading gets a kind exactly when that kind's band holds it |
| `ArduinoHandler.ClassificationEdges` | js/arduinoHandler.js:15-22 | the factory is never recognised, and both edges of all five bands are inclusive: each edge is recognised and a tenth of an ohm beyond it is nothing (725.5 beyond the gas plant's top) |
| `ArduinoHandler.ParseRecord` | js/arduinoHandler.js:91-103 | a record is parsed exactly when the trimmed input splits on `,` into two fields of which the first is an integer and the second a number; the record holds their values, and the input then has exactly one comma |
| `ArduinoHandler.ParseFormatted` | js/arduinoHandler.js:91-103 | the line `cell,ohms` a device prints for whole numbers is read back as exactly that record |
| `ArduinoHandler.ParseReadingRecord` | js/arduinoHandler.js:91-103 | a cell number, a comma and any comma-free reading that `parseFloat` accepts and that ends in a digit (such as `300.0`) are read back as that cell and the reading's value |
| `ArduinoHandler.RecordOfFields` | js/arduinoHandler.js:91-103 | a line that splits into an integer field and a number field is the record of their values |
| `ArduinoHandler.SingleFieldIsNoRecord` | js/arduinoHandler.js:92-95 | the single field `12` is not a record |
| `ArduinoHandler.WordsAreNoRecord` | js/arduinoHandler.js:97-103 | `abc,xyz` is not a record: its fields are not numbers |
| `ArduinoHandler.MalformedRecordsDoNothing` | js/arduinoHandler.js:91-103 | the malformed inputs `12` and `abc,xyz` decide no action |
| `ArduinoHandler.Decide` | js/arduinoHandler.js:90-120 | every action is on the grid. A malformed record does nothing. A clear happens exactly for a reading of 0 at a cell number in 0..24. A placement happens exactly for a non-zero reading that some band holds, at a cell number in 0..24, and it places the kind of the first band holding the reading. The action's position has the record's cell number |
| `ArduinoHandler.NonBlank` | js/arduinoHandler.js:142-146 | no record handed on is blank, and there are no more records than lines |
| `ArduinoHandler.NonBlankIsTheRecords` | js/arduinoHandler.js:142-146 | the records handed on are exactly the lines that are not blank |
| `ArduinoHandler.NonBlankAppend` | js/arduinoHandler.js:142-146 | the records of two runs of lines are the records of the first followed by those of the second, so order and repetitions are kept |
| `ArduinoHandler.NonBlankOne` | js/arduinoHandler.js:143 | one line is handed on exactly when it is not blank |
| `ArduinoHandler.BlankLinesAreSkipped` | js/arduinoHandler.js:142-146 | processing the lines is processing only the non-blank ones |
| `ArduinoHandler.RunLinesAppend` | js/arduinoHandler.js:142-146 | processing two runs of lines in turn is processing their concatenation |
| `ArduinoHandler.FramingReconstructs` | js/arduinoHandler.js:136-139 | the complete lines, each with its newline, followed by the buffered tail give back the text; neither a line nor the tail holds a newline |
| `ArduinoHandler.Fed` | js/arduinoHandler.js:133-147 | after a chunk, the buffer holds no newline |
| `ArduinoHandler.FramingAppend` | js/arduinoHandler.js:133-139 | cutting the text in two does not move its line breaks: the complete lines and the tail of the whole are those found by framing the first part and then its tail continued by the second |
| `ArduinoHandler.ChunkingIsInvisible` | js/arduinoHandler.js:128-147 | delivering two chunks one after the other leaves the city and the buffer exactly as delivering them as one chunk |
| `ArduinoHandler.FramingOfTerminated` | js/arduinoHandler.js:136-139 | newline-terminated lines are exactly the complete lines of their text, and nothing stays buffered |
| `ArduinoHandler.TerminatedLines` | js/arduinoHandler.js:133-147 | newline-terminated lines delivered to an empty buffer are processed exactly and in order, and the buffer ends empty |
| `ArduinoHandler.Handler.constructor` | js/arduinoHandler.js:7-13 | a new handler drives the given city and starts with an empty buffer |
| `ArduinoHandler.Handler.ProcessInput` | js/arduinoHandler.js:90-120 | the new city is the old city with `Decide`'s action carried out through the guarded place and clear operations |
| `ArduinoHandler.Handler.Feed` | js/arduinoHandler.js:133-147 | the new city and buffer are `Fed` of the old city and buffer with the chunk |
| `ArduinoHandler.Handler.ProcessLines` | js/arduinoHandler.js:142-146 | the new city is the old city with every line processed in order |
| `ArduinoHandler.Handler.ProcessLine` | js/arduinoHandler.js:143-145 | a blank line leaves the city alone; any other line is processed as a record |

## Left out

- Rendering, the 3D scene, building models and colours, and `updateUI` are
  not modelled. Neither is `showGameEndMessage` or anything else that touches
  the page. The `scene` field of the game state is dropped.
- `clearCell` stops early when the scene is missing (js/buildings.js:218-221).
  The model assumes a scene is always present, so this guard is not modelled.
- `Buildings.Clear`: requires the row `z` to be on the grid. The game indexes
  `gameGrid[z]` before any guard and faults on any other row. A column off the
  grid reads `undefined` and gives false, and that case is modelled.
- `Buildings.Clear`: the budget increase `cost / 2` is stated for grids whose
  cells hold their table rows and for a non-negative budget. Other cases are
  covered only by the general `Updated` contract.
- `Text.ParseInt`: `parseInt(s, 10)` also accepts a valid prefix ("12abc" is
  12, "1.5" is 1). The model accepts only an optional sign and digits, with
  white space around. Anything else is rejected as not a number.
- `Text.ParseFloat`: `parseFloat` also accepts a valid prefix, exponents,
  `Infinity`, and a leading or trailing `.`. The model accepts only an
  optional sign and digits, optionally followed by `.` and digits.
- JavaScript numbers are doubles. Every value the game produces from its own
  table is a whole number, so metrics and costs are `int` and readings are
  `real`. Rounding and NaN are not modelled; a failed parse is `None`.
- A lookup of `buildingTypes` with an inherited property name such as
  "toString" would find a prototype member in JavaScript. The model's lookup
  knows only the six keys.
- The serial port is not modelled: connecting, disconnecting, the async read
  loop, `TextDecoder`, the reader lock and error reporting. `Handler.Feed`
  models one iteration of the inner read loop on already-decoded text.
- `initializeGameState` only stores the scene and resets, so it is covered by
  `ResetGameState`.
- `buildingResistances` is a per-instance field in the game and a constant
  here, since nothing changes it.
- Happiness is capped at 100 but never floored at 0 (js/gameState.js:71), so
  a removal can leave it negative; the model keeps that.
- Complete lines are cut all at once with `split` (js/arduinoHandler.js:136-147)
  rather than one newline at a time; `ChunkingIsInvisible` shows that where
  the text is cut into chunks does not change what is processed.
