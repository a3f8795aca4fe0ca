/** The serial side-channel: a breadboard reports, one text line per event,
    which cell (0..24) holds which resistor. The handler buffers the incoming
    text, cuts it into newline-terminated records, parses each record into a
    cell number and a resistance, maps the cell number to grid coordinates,
    classifies the resistance into a building kind by tolerance bands, and
    places or clears a building accordingly. */
module ArduinoHandler {

  import opened Wrappers
  import opened BuildingTypes
  import opened GameState
  import opened Buildings
  import opened Text

  /** A resistor's nominal value and the inclusive band of readings that
      identify its building kind. */
  datatype Band = Band(kind: BuildingKind, value: int, minValue: int, maxValue: int)

  /** The bands in declared order. The factory has no band: its entry is
      disabled in the game. */
  const BuildingResistances: seq<Band> := [
    Band(Residential, 20, 19, 21),
    Band(House, 40, 38, 42),
    Band(WindTurbine, 300, 285, 315),
    Band(Tree, 178, 170, 190),
    Band(GasPlant, 690, 655, 725)
  ]

  predicate InBand(b: Band, resistance: real)
  {
    b.minValue as real <= resistance <= b.maxValue as real
  }

  /** The kind of the first band, in order, that holds the reading. */
  function FirstMatch(bands: seq<Band>, resistance: real): Option<BuildingKind>
    decreases |bands|
  {
    if bands == [] then None
    else if InBand(bands[0], resistance) then Some(bands[0].kind)
    else FirstMatch(bands[1..], resistance)
  }

  /** Grid coordinates: column `x` and row `z`. */
  datatype Position = Position(x: int, z: int)

  /** The cell number the device uses for a grid position: it counts cells
      row by row from the far row (`z = 4`) to the near one. */
  function CellNumber(p: Position): int
  {
    (4 - p.z) * 5 + p.x
  }

  /** `convertGridPosition(cellNumber)`: defined exactly on 0..24, where it
      gives a position on the grid whose cell number is the argument. */
  function ConvertGridPosition(cellNumber: int): (p: Option<Position>)
    ensures p.Some? <==> 0 <= cellNumber <= 24
    ensures p.Some? ==> 0 <= p.value.x < GridSize && 0 <= p.value.z < GridSize
    ensures p.Some? ==> CellNumber(p.value) == cellNumber
  {
    if cellNumber < 0 || cellNumber > 24 then None
    else
      var row := cellNumber / 5;
      var col := cellNumber % 5;
      Some(Position(col, 4 - row))
  }

  /** Every grid position is reached, from its own cell number: together with
      `ConvertGridPosition`'s contract, the conversion is a bijection from
      0..24 onto the 25 cells. */
  lemma ConvertCellNumber(p: Position)
    requires 0 <= p.x < GridSize && 0 <= p.z < GridSize
    ensures 0 <= CellNumber(p) <= 24
    ensures ConvertGridPosition(CellNumber(p)) == Some(p)
  {
    var n := CellNumber(p);
    assert n / 5 == 4 - p.z && n % 5 == p.x by {
      assert n == 5 * (4 - p.z) + p.x;
    }
  }

  /** The corners and the centre: 0 is (0, 4), 12 is (2, 2), 24 is (4, 0). */
  lemma ConversionExamples()
    ensures ConvertGridPosition(0) == Some(Position(0, 4))
    ensures ConvertGridPosition(12) == Some(Position(2, 2))
    ensures ConvertGridPosition(24) == Some(Position(4, 0))
    ensures ConvertGridPosition(25).None? && ConvertGridPosition(-1).None?
  {
  }

  /** `identifyBuildingType(resistance)`: the first band, in declared order,
      holding the reading; `None` when no band holds it. */
  method IdentifyBuildingType(resistance: real) returns (kind: Option<BuildingKind>)
    ensures kind == FirstMatch(BuildingResistances, resistance)
    ensures kind.None? ==> forall i :: 0 <= i < |BuildingResistances| ==> !InBand(BuildingResistances[i], resistance)
    ensures kind.Some? ==> exists i :: (0 <= i < |BuildingResistances| &&
      InBand(BuildingResistances[i], resistance) && BuildingResistances[i].kind == kind.value &&
      forall j :: 0 <= j < i ==> !InBand(BuildingResistances[j], resistance))
  {
    var bands := BuildingResistances;
    var i := 0;
    while i < |bands|
      invariant 0 <= i <= |bands|
      invariant forall j :: 0 <= j < i ==> !InBand(bands[j], resistance)
      invariant FirstMatch(bands[i..], resistance) == FirstMatch(bands, resistance)
    {
      if InBand(bands[i], resistance) {
        return Some(bands[i].kind);
      }
      assert bands[i..][1..] == bands[i + 1..];
      i := i + 1;
    }
    return None;
  }

  /** No reading lies in two bands, so the declared order never decides the
      answer: a reading gets a kind exactly when that kind's band holds it. */
  lemma {:induction false} ClassificationIgnoresOrder(resistance: real, kind: BuildingKind)
    ensures FirstMatch(BuildingResistances, resistance) == Some(kind) <==>
      exists i :: 0 <= i < |BuildingResistances| &&
        BuildingResistances[i].kind == kind && InBand(BuildingResistances[i], resistance)
  {
    var bands := BuildingResistances;
    assert forall i, j :: 0 <= i < j < |bands| ==>
      bands[i].maxValue < bands[j].minValue || bands[j].maxValue < bands[i].minValue;
    assert forall i, j :: 0 <= i < j < |bands| ==> bands[i].kind != bands[j].kind;
    FirstMatchIsSomeBand(bands, resistance);
  }

  /** A first match is a band that holds the reading, and a band holding the
      reading always yields some match. */
  lemma {:induction false} FirstMatchIsSomeBand(bands: seq<Band>, resistance: real)
    ensures FirstMatch(bands, resistance).Some? ==> exists i :: (0 <= i < |bands| &&
      bands[i].kind == FirstMatch(bands, resistance).value && InBand(bands[i], resistance) &&
      forall j :: 0 <= j < i ==> !InBand(bands[j], resistance))
    ensures FirstMatch(bands, resistance).None? ==> forall i :: 0 <= i < |bands| ==> !InBand(bands[i], resistance)
    decreases |bands|
  {
    if bands != [] && !InBand(bands[0], resistance) {
      FirstMatchIsSomeBand(bands[1..], resistance);
      if FirstMatch(bands, resistance).Some? {
        var i :| 0 <= i < |bands[1..]| && bands[1..][i].kind == FirstMatch(bands, resistance).value &&
          InBand(bands[1..][i], resistance) && forall j :: 0 <= j < i ==> !InBand(bands[1..][j], resistance);
        assert bands[i + 1] == bands[1..][i];
      }
    }
  }

  /** The factory is never recognised, and both edges of every band are
      inclusive: 21 is a residential complex, 21.1 is nothing. */
  lemma ClassificationEdges(resistance: real)
    ensures FirstMatch(BuildingResistances, resistance) != Some(Factory)
    ensures FirstMatch(BuildingResistances, 18.9) == None
    ensures FirstMatch(BuildingResistances, 19.0) == Some(Residential)
    ensures FirstMatch(BuildingResistances, 21.0) == Some(Residential)
    ensures FirstMatch(BuildingResistances, 21.1) == None
    ensures FirstMatch(BuildingResistances, 37.9) == None
    ensures FirstMatch(BuildingResistances, 38.0) == Some(House)
    ensures FirstMatch(BuildingResistances, 42.0) == Some(House)
    ensures FirstMatch(BuildingResistances, 42.1) == None
    ensures FirstMatch(BuildingResistances, 169.9) == None
    ensures FirstMatch(BuildingResistances, 170.0) == Some(Tree)
    ensures FirstMatch(BuildingResistances, 190.0) == Some(Tree)
    ensures FirstMatch(BuildingResistances, 190.1) == None
    ensures FirstMatch(BuildingResistances, 284.9) == None
    ensures FirstMatch(BuildingResistances, 285.0) == Some(WindTurbine)
    ensures FirstMatch(BuildingResistances, 315.0) == Some(WindTurbine)
    ensures FirstMatch(BuildingResistances, 315.1) == None
    ensures FirstMatch(BuildingResistances, 654.9) == None
    ensures FirstMatch(BuildingResistances, 655.0) == Some(GasPlant)
    ensures FirstMatch(BuildingResistances, 725.0) == Some(GasPlant)
    ensures FirstMatch(BuildingResistances, 725.5) == None
  {
  }

  /** A parsed record: the cell number and the resistance in ohms. */
  datatype Record = Record(cell: int, resistance: real)

  /** The parsing half of `processInput(input)`: the trimmed input must split
      on `,` into exactly two fields, an integer and a number, and the record
      holds their values. */
  function ParseRecord(input: string): (r: Option<Record>)
    ensures r.Some? ==> Count(Trim(input), ',') == 1
    ensures var parts := Split(Trim(input), ',');
      r.Some? <==> |parts| == 2 && ParseInt(parts[0]).Some? && ParseFloat(parts[1]).Some?
    ensures var parts := Split(Trim(input), ',');
      r.Some? ==> |parts| == 2 && r.value == Record(ParseInt(parts[0]).value, ParseFloat(parts[1]).value)
  {
    var parts := Split(Trim(input), ',');
    if |parts| != 2 then None
    else
      match (ParseInt(parts[0]), ParseFloat(parts[1]))
      case (Some(cell), Some(resistance)) => Some(Record(cell, resistance))
      case _ => None
  }

  /** The line a device sends for a cell and a whole number of ohms. */
  function FormatRecord(cell: nat, ohms: nat): string
  {
    NatToDigits(cell) + [','] + NatToDigits(ohms)
  }

  /** What the device sends is read back as sent. */
  lemma ParseFormatted(cell: nat, ohms: nat)
    ensures ParseRecord(FormatRecord(cell, ohms)) == Some(Record(cell, ohms as real))
  {
    var a, b := NatToDigits(cell), NatToDigits(ohms);
    var line := FormatRecord(cell, ohms);
    assert IsDigit(line[0]) && IsDigit(line[|line| - 1]);
    TrimUntrimmed(line);
    assert line == Join([a, b], ',');
    SplitJoin([a, b], ',');
    ParseDigits(cell);
    ParseDigits(ohms);
  }

  /** A cell number followed by any reading that `parseFloat` accepts, and
      that holds no comma and ends in a digit, is read back as that cell and
      the reading's value. */
  lemma ParseReadingRecord(cell: nat, reading: string, value: real)
    requires ',' !in reading && reading != [] && IsDigit(reading[|reading| - 1])
    requires ParseFloat(reading) == Some(value)
    ensures ParseRecord(NatToDigits(cell) + [','] + reading) == Some(Record(cell, value))
  {
    var a := NatToDigits(cell);
    assert ',' !in a by {
      assert forall i :: 0 <= i < |a| ==> IsDigit(a[i]);
    }
    TwoFieldLine(a, reading);
    ParseDigits(cell);
    RecordOfFields(a + [','] + reading, a, reading, cell, value);
  }

  /** Two comma-free fields that start and end with a digit form a line with
      nothing to trim that splits back into them. */
  lemma TwoFieldLine(a: string, b: string)
    requires a != [] && b != [] && IsDigit(a[0]) && IsDigit(b[|b| - 1])
    requires ',' !in a && ',' !in b
    ensures Split(Trim(a + [','] + b), ',') == [a, b]
  {
    var line := a + [','] + b;
    assert IsDigit(line[0]) && IsDigit(line[|line| - 1]);
    TrimUntrimmed(line);
    SplitAfterPiece(a, b, ',');
    SplitNoSeparator(b, ',');
  }

  /** A line that splits into an integer and a number is the record of
      their values. */
  lemma RecordOfFields(line: string, a: string, b: string, cell: int, resistance: real)
    requires Split(Trim(line), ',') == [a, b] && ParseInt(a) == Some(cell) && ParseFloat(b) == Some(resistance)
    ensures ParseRecord(line) == Some(Record(cell, resistance))
  {
  }

  /** What a record asks of the city. */
  datatype Action = NoAction | ClearAt(x: int, z: int) | PlaceAt(x: int, z: int, kind: BuildingKind)

  predicate OnGrid(a: Action)
  {
    a.NoAction? || (0 <= a.x < GridSize && 0 <= a.z < GridSize)
  }

  /** The decision `processInput(input)` takes. A malformed record or a cell
      number off the board does nothing; a reading of exactly 0 clears the
      cell and never places; any other reading places the kind its band
      names, or does nothing when no band holds it. */
  function Decide(input: string): (a: Action)
    ensures OnGrid(a)
    ensures ParseRecord(input).None? ==> a.NoAction?
    ensures a.ClearAt? <==> (ParseRecord(input).Some? && ParseRecord(input).value.resistance == 0.0 &&
      0 <= ParseRecord(input).value.cell <= 24)
    ensures a.PlaceAt? <==> (ParseRecord(input).Some? && ParseRecord(input).value.resistance != 0.0 &&
      0 <= ParseRecord(input).value.cell <= 24 &&
      FirstMatch(BuildingResistances, ParseRecord(input).value.resistance).Some?)
    ensures a.PlaceAt? ==> FirstMatch(BuildingResistances, ParseRecord(input).value.resistance) == Some(a.kind)
    ensures !a.NoAction? ==> CellNumber(Position(a.x, a.z)) == ParseRecord(input).value.cell
  {
    match ParseRecord(input)
    case None => NoAction
    case Some(record) =>
      match ConvertGridPosition(record.cell)
      case None => NoAction
      case Some(position) =>
        if record.resistance == 0.0 then ClearAt(position.x, position.z)
        else
          match FirstMatch(BuildingResistances, record.resistance)
          case None => NoAction
          case Some(kind) => PlaceAt(position.x, position.z, kind)
  }

  /** Malformed records do nothing: a single field, or fields that are not
      numbers. */
  lemma MalformedRecordsDoNothing()
    ensures Decide("12") == NoAction
    ensures Decide("abc,xyz") == NoAction
  {
    SingleFieldIsNoRecord();
    WordsAreNoRecord();
  }

  lemma SingleFieldIsNoRecord()
    ensures ParseRecord("12") == None
  {
    var line := "12";
    assert !IsSpace(line[0]) && !IsSpace(line[|line| - 1]);
    TrimUntrimmed(line);
    assert ',' !in line;
    SplitNoSeparator(line, ',');
  }

  lemma WordsAreNoRecord()
    ensures ParseRecord("abc,xyz") == None
  {
    var line := "abc,xyz";
    assert !IsSpace(line[0]) && !IsSpace(line[|line| - 1]);
    TrimUntrimmed(line);
    WordsSplit();
    WordIsNoNumber();
  }

  lemma WordsSplit()
    ensures Split("abc,xyz", ',') == ["abc", "xyz"]
  {
    var parts := ["abc", "xyz"];
    assert ',' !in parts[0] && ',' !in parts[1];
    assert "abc,xyz" == Join(parts, ',');
    SplitJoin(parts, ',');
  }

  lemma WordIsNoNumber()
    ensures ParseInt("abc") == None
  {
    var word := "abc";
    assert !IsSpace(word[0]) && !IsSpace(word[|word| - 1]);
    TrimUntrimmed(word);
    assert !IsDigit(word[0]);
  }

  /** Carrying out an action on a city value. */
  function Perform(s: CityState, a: Action): (r: CityState)
    requires IsBoard(s.board) && OnGrid(a)
    ensures IsBoard(r.board)
  {
    match a
    case NoAction => s
    case ClearAt(x, z) => Clear(s, x, z).after
    case PlaceAt(x, z, kind) => Place(s, x, z, Key(kind)).after
  }

  /** A line `line.trim()` leaves empty; such lines are skipped. */
  predicate IsBlank(line: string)
  {
    Trim(line) == []
  }

  /** A line as a record: nothing when it is blank, the line otherwise. */
  function RecordsIn(line: string): seq<string>
  {
    if IsBlank(line) then [] else [line]
  }

  /** The city after one line: unchanged by a blank line, otherwise what the
      record in it decides. */
  function AfterLine(s: CityState, line: string): (r: CityState)
    requires IsBoard(s.board)
    ensures IsBoard(r.board)
  {
    if IsBlank(line) then s else Perform(s, Decide(line))
  }

  /** The records among the lines: the lines that are not blank, in order. */
  function NonBlank(lines: seq<string>): (r: seq<string>)
    ensures |r| <= |lines|
    ensures forall i :: 0 <= i < |r| ==> !IsBlank(r[i])
    decreases |lines|
  {
    if lines == [] then []
    else
      NonBlank(lines[..|lines| - 1]) + RecordsIn(lines[|lines| - 1])
  }

  /** The records are exactly the lines that are not blank: every record is
      such a line and every such line is a record. */
  lemma {:induction false} NonBlankIsTheRecords(lines: seq<string>)
    ensures forall l :: l in NonBlank(lines) <==> l in lines && !IsBlank(l)
    decreases |lines|
  {
    if lines != [] {
      var init := lines[..|lines| - 1];
      NonBlankIsTheRecords(init);
      assert lines == init + [lines[|lines| - 1]];
    }
  }

  /** Keeping the records commutes with concatenation, so they keep the
      order and the repetitions of the lines they come from. */
  lemma {:induction false} NonBlankAppend(a: seq<string>, b: seq<string>)
    ensures NonBlank(a + b) == NonBlank(a) + NonBlank(b)
    decreases |b|
  {
    if b == [] {
      assert a + b == a;
    } else {
      var init, last := b[..|b| - 1], RecordsIn(b[|b| - 1]);
      DropLast(a, b);
      assert NonBlank(a + b) == NonBlank(a + init) + last;
      NonBlankAppend(a, init);
      AppendAssociates(NonBlank(a), NonBlank(init), last);
    }
  }

  lemma AppendAssociates<T>(x: seq<T>, y: seq<T>, z: seq<T>)
    ensures (x + y) + z == x + (y + z)
  {
  }

  /** A single line is kept exactly when it is not blank. */
  lemma NonBlankOne(line: string)
    ensures NonBlank([line]) == RecordsIn(line)
  {
    assert [line][..0] == [];
  }

  /** Blank lines do nothing: processing the lines is processing the
      records among them alone. */
  lemma {:induction false} BlankLinesAreSkipped(s: CityState, lines: seq<string>)
    requires IsBoard(s.board)
    ensures RunLines(s, lines) == RunLines(s, NonBlank(lines))
    decreases |lines|
  {
    if lines != [] {
      var init, last := lines[..|lines| - 1], lines[|lines| - 1];
      BlankLinesAreSkipped(s, init);
      RunLinesAppend(s, NonBlank(init), RecordsIn(last));
      assert [last][..0] == [];
    }
  }

  /** The city after processing, in order, every non-blank line. */
  function RunLines(s: CityState, lines: seq<string>): (r: CityState)
    requires IsBoard(s.board)
    ensures IsBoard(r.board)
    decreases |lines|
  {
    if lines == [] then s
    else
      AfterLine(RunLines(s, lines[..|lines| - 1]), lines[|lines| - 1])
  }

  /** Processing one more line is applying that line alone to the city the
      earlier lines left. */
  lemma RunLinesStep(s: CityState, lines: seq<string>, i: int)
    requires IsBoard(s.board) && 0 <= i < |lines|
    ensures RunLines(s, lines[..i + 1]) == AfterLine(RunLines(s, lines[..i]), lines[i])
  {
    assert lines[..i + 1][..i] == lines[..i];
  }

  /** The complete lines of a text: everything before its last newline, cut
      at each newline. */
  function CompleteLines(text: string): seq<string>
  {
    var pieces := Split(text, '\n');
    pieces[..|pieces| - 1]
  }

  /** The unterminated tail of a text: everything after its last newline. */
  function Unterminated(text: string): string
  {
    var pieces := Split(text, '\n');
    pieces[|pieces| - 1]
  }

  /** The complete lines, each with its newline, followed by the tail, give
      back the text; neither a line nor the tail holds a newline. */
  lemma {:induction false} FramingReconstructs(text: string)
    ensures Join(CompleteLines(text) + [Unterminated(text)], '\n') == text
    ensures '\n' !in Unterminated(text)
    ensures forall i :: 0 <= i < |CompleteLines(text)| ==> '\n' !in CompleteLines(text)[i]
  {
    var pieces := Split(text, '\n');
    assert CompleteLines(text) + [Unterminated(text)] == pieces;
    JoinSplit(text, '\n');
  }

  /** The decoder as a value: the city it drives and its text buffer. */
  datatype Decoder = Decoder(city: CityState, buffer: string)

  /** One chunk of text arriving: it is appended to the buffer, every complete
      line is processed, and the unterminated tail stays buffered. */
  function Fed(d: Decoder, chunk: string): (r: Decoder)
    requires IsBoard(d.city.board)
    ensures IsBoard(r.city.board)
    ensures '\n' !in r.buffer
  {
    var text := d.buffer + chunk;
    FramingReconstructs(text);
    Decoder(RunLines(d.city, CompleteLines(text)), Unterminated(text))
  }

  /** Processing two runs of lines one after the other is processing their
      concatenation. */
  lemma {:induction false} RunLinesAppend(s: CityState, first: seq<string>, second: seq<string>)
    requires IsBoard(s.board)
    ensures RunLines(s, first + second) == RunLines(RunLines(s, first), second)
    decreases |second|
  {
    if second == [] {
      assert first + second == first;
    } else {
      DropLast(first, second);
      RunLinesAppend(s, first, second[..|second| - 1]);
    }
  }

  /** Dropping the last element of a concatenation with a non-empty right
      part drops it from the right part. */
  lemma DropLast<T>(a: seq<T>, b: seq<T>)
    requires b != []
    ensures (a + b)[..|a + b| - 1] == a + b[..|b| - 1]
    ensures (a + b)[|a + b| - 1] == b[|b| - 1]
  {
  }

  /** Cutting a text in two does not move its line breaks: the complete
      lines of the whole are those of the first part followed by those of its
      tail continued by the second part, and the tails agree. */
  lemma FramingAppend(text: string, more: string)
    ensures CompleteLines(text + more) ==
      CompleteLines(text) + CompleteLines(Unterminated(text) + more)
    ensures Unterminated(text + more) == Unterminated(Unterminated(text) + more)
  {
    SplitAppend(text, more, '\n');
  }

  /** Framing does not depend on how the text is cut into chunks: delivering
      two chunks one after the other leaves the city and the buffer exactly
      as delivering them as one chunk. */
  lemma ChunkingIsInvisible(d: Decoder, first: string, second: string)
    requires IsBoard(d.city.board)
    ensures Fed(Fed(d, first), second) == Fed(d, first + second)
  {
    var text := d.buffer + first;
    assert d.buffer + (first + second) == text + second;
    FramingAppend(text, second);
    RunLinesAppend(d.city, CompleteLines(text), CompleteLines(Unterminated(text) + second));
  }

  /** Lines each ended by a newline are exactly the complete lines of their
      text, with nothing after the last newline. */
  lemma FramingOfTerminated(lines: seq<string>)
    requires forall i :: 0 <= i < |lines| ==> '\n' !in lines[i]
    ensures CompleteLines(Join(lines + [""], '\n')) == lines
    ensures Unterminated(Join(lines + [""], '\n')) == ""
  {
    var pieces := lines + [""];
    assert forall i :: 0 <= i < |pieces| ==> '\n' !in pieces[i];
    SplitJoin(pieces, '\n');
    assert pieces[..|pieces| - 1] == lines;
  }

  /** Lines each ended by a newline, delivered to an empty buffer, are
      processed exactly, in order, and leave the buffer empty. */
  lemma TerminatedLines(d: Decoder, lines: seq<string>)
    requires IsBoard(d.city.board) && d.buffer == ""
    requires forall i :: 0 <= i < |lines| ==> '\n' !in lines[i]
    ensures Fed(d, Join(lines + [""], '\n')) == Decoder(RunLines(d.city, lines), "")
  {
    FedEmpty(d, Join(lines + [""], '\n'));
    FramingOfTerminated(lines);
  }

  /** From an empty buffer the text alone decides the framing. */
  lemma FedEmpty(d: Decoder, text: string)
    requires IsBoard(d.city.board) && d.buffer == ""
    ensures Fed(d, text) == Decoder(RunLines(d.city, CompleteLines(text)), Unterminated(text))
  {
    assert d.buffer + text == text;
  }

  /** The serial handler: the city it drives, and the text received but not
      yet cut into lines. */
  class Handler {
    const city: City
    var buffer: string

    constructor (city: City)
      ensures this.city == city && buffer == ""
    {
      this.city := city;
      buffer := "";
    }

    /** `processInput(input)`: places or clears as `Decide` says, through the
        city's own guarded operations. */
    method ProcessInput(input: string)
      requires city.Valid()
      modifies city, city.grid
      ensures city.State() == Perform(old(city.State()), Decide(input))
    {
      var parts := Split(Trim(input), ',');
      if |parts| != 2 {
        return;
      }
      var cellNumber := ParseInt(parts[0]);
      var resistance := ParseFloat(parts[1]);
      if cellNumber.None? || resistance.None? {
        return;
      }
      var position := ConvertGridPosition(cellNumber.value);
      if position.None? {
        return;
      }
      if resistance.value == 0.0 {
        var cleared := ClearCell(city, position.value.x, position.value.z);
        return;
      }
      var buildingType := IdentifyBuildingType(resistance.value);
      if buildingType.None? {
        return;
      }
      var placed := PlaceBuilding(city, position.value.x, position.value.z, Key(buildingType.value));
    }

    /** The body of the read loop for one chunk: append it to the buffer,
        keep the text after the last newline as the new buffer and process
        every complete non-blank line in order. */
    method Feed(chunk: string)
      requires city.Valid()
      modifies this, city, city.grid
      ensures Decoder(city.State(), buffer) == Fed(old(Decoder(city.State(), buffer)), chunk)
    {
      buffer := buffer + chunk;
      ghost var text := buffer;
      var lines := Split(buffer, '\n');
      if |lines| > 1 {
        buffer := lines[|lines| - 1];
        ProcessLines(lines[..|lines| - 1]);
      } else {
        JoinSplit(text, '\n');
      }
    }

    /** The loop over the complete lines of one chunk: each line in turn. */
    method ProcessLines(lines: seq<string>)
      requires city.Valid()
      modifies city, city.grid
      ensures city.State() == RunLines(old(city.State()), lines)
    {
      ghost var start := city.State();
      for i := 0 to |lines|
        invariant city.State() == RunLines(start, lines[..i])
      {
        RunLinesStep(start, lines, i);
        ProcessLine(lines[i]);
      }
      assert lines[..|lines|] == lines;
    }

    /** One line of the read loop: a line that is not blank goes to
        `ProcessInput`; a blank one is skipped. */
    method ProcessLine(line: string)
      requires city.Valid()
      modifies city, city.grid
      ensures city.State() == AfterLine(old(city.State()), line)
    {
      if Trim(line) != "" {
        ProcessInput(line);
      }
    }
  }

}
