/**
 * The shared vocabulary of types/index.ts: the nurse record and its wire
 * form, the per-day schedule the remote service returns, and the two fixed
 * lookup tables for positions and shift abbreviations.
 */
module Types {
  import opened Wrappers

  /** A per-day assignment value: the wire strings "day", "evening", "night" and "off". */
  datatype Shift = Day | Evening | Night | Off

  /** The string a shift value has in the JSON the remote service returns. */
  function WireName(s: Shift): string {
    match s
    case Day => "day"
    case Evening => "evening"
    case Night => "night"
    case Off => "off"
  }

  /** Reads a wire string back as a shift; any other string is not a shift value. */
  function ShiftFromWire(w: string): (r: Option<Shift>)
    ensures r.Some? <==> w in {"day", "evening", "night", "off"}
    ensures r.Some? ==> WireName(r.value) == w
  {
    if w == "day" then Some(Day)
    else if w == "evening" then Some(Evening)
    else if w == "night" then Some(Night)
    else if w == "off" then Some(Off)
    else None
  }

  /** Every shift value has a wire string that reads back as the same value. */
  lemma WireNameRoundTrip(s: Shift)
    ensures ShiftFromWire(WireName(s)) == Some(s)
  {
  }

  /** Reads an abbreviation back as the shift it stands for. */
  function ShiftOfAbbreviation(a: string): Option<Shift> {
    if a == "D" then Some(Day)
    else if a == "E" then Some(Evening)
    else if a == "N" then Some(Night)
    else if a == "OFF" then Some(Off)
    else None
  }

  /**
   * SHIFT_DISPLAY_MAP: the abbreviation shown for a shift. The table is total
   * over the four shift values, its entries are never empty and never hold a
   * CSV separator, and the abbreviation identifies its shift.
   */
  function Abbreviation(s: Shift): (a: string)
    ensures ShiftOfAbbreviation(a) == Some(s)
    ensures a in {"D", "E", "N", "OFF"}
    ensures ',' !in a && '\n' !in a
  {
    match s
    case Day => "D"
    case Evening => "E"
    case Night => "N"
    case Off => "OFF"
  }

  /** Two shifts with the same abbreviation are the same shift. */
  lemma AbbreviationInjective(s: Shift, t: Shift)
    ensures Abbreviation(s) == Abbreviation(t) ==> s == t
  {
    assert ShiftOfAbbreviation(Abbreviation(s)) == Some(s);
    assert ShiftOfAbbreviation(Abbreviation(t)) == Some(t);
  }

  /** An entry of POSITION_OPTIONS: a display label (`label` in the source) and the numeric position code. */
  datatype PositionOption = PositionOption(caption: string, value: int)

  /** POSITION_OPTIONS, in the order the position picker lists them. */
  const PositionOptions: seq<PositionOption> := [
    PositionOption("수간호사", 0),
    PositionOption("책임 간호사", 1),
    PositionOption("주임 간호사", 2),
    PositionOption("평간호사", 3)
  ]

  /** The position codes are exactly 0..3, each at its own index, so no two entries share a code. */
  lemma PositionCodes()
    ensures |PositionOptions| == 4
    ensures forall i :: 0 <= i < |PositionOptions| ==> PositionOptions[i].value == i
    ensures forall i, j :: 0 <= i < j < |PositionOptions| ==> PositionOptions[i].value != PositionOptions[j].value
    ensures (set o | o in PositionOptions :: o.value) == {0, 1, 2, 3}
  {
  }

  /** A nurse entered in the form: an opaque id, a name, a position code, and day offsets off. */
  datatype Nurse = Nurse(id: string, name: string, position: int, off: seq<int>)

  /** `Omit<Nurse, "id">`: what the remote service receives per nurse. */
  datatype NurseEntry = NurseEntry(name: string, position: int, off: seq<int>)

  /** The request body: formatted start and end days and the nurse list without ids (`nurse_list` on the wire). */
  datatype ScheduleRequest = ScheduleRequest(start: string, end: string, nurseList: seq<NurseEntry>)

  /** One `nurseName: shift` entry of a day's mapping, in the order the response lists it. */
  datatype Assignment = Assignment(name: string, shift: Shift)

  /** ScheduleResponseItem: a yyyy-MM-dd date string and that day's assignments. */
  datatype ScheduleResponseItem = ScheduleResponseItem(date: string, nurses: seq<Assignment>)

  type ScheduleResponse = seq<ScheduleResponseItem>

  /** The keys of a day's mapping, in order (`Object.keys`). */
  function Names(assignments: seq<Assignment>): (names: seq<string>)
    ensures |names| == |assignments|
    ensures forall i :: 0 <= i < |assignments| ==> names[i] == assignments[i].name
  {
    if assignments == [] then [] else [assignments[0].name] + Names(assignments[1..])
  }
}
