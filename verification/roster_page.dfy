/**
 * The roster form of app/page.tsx: the state the page keeps (the chosen
 * range, the nurse being entered, the nurse list, the generated schedule,
 * the loading flag and the error text) and the handlers that change it.
 *
 * `crypto.randomUUID()` is an id passed in by the caller, fresh among the
 * listed nurses; the browser's `fetch` of /api/schedule is a `ClientReply`
 * value; which local calendar day a day number falls on is the `calendar`
 * parameter, as in `Utils.FormatDate`.
 */
module RosterPage {
  import opened Wrappers
  import opened Types
  import opened Utils
  import opened JsValues
  import Text
  import ScheduleRoute

  /** react-day-picker's DateRange: a first day and a last day, either of which may be missing. */
  datatype DateRange = DateRange(from: Option<Date>, to: Option<Date>)

  /**
   * The JSON of an ok reply, which the page takes as it is: a schedule, or
   * one of the falsy values the proxy relays just as well.
   */
  datatype OkBody = Schedule(data: ScheduleResponse) | Falsy(value: FalsyValue)

  /** What the browser gets back from POST /api/schedule. */
  datatype ClientReply =
    | FetchRejected(error: Thrown)
    | Ok(okBody: Parsed<OkBody>)
    | NotOk(status: int, body: Parsed<Json>)

  /**
   * How a submit ends: a schedule to show, an error text, or a falsy result
   * stored with no error, which the page shows as no schedule at all.
   */
  datatype Outcome = Scheduled(data: ScheduleResponse) | Cleared | Failed(message: string)

  const ValidationMessage := "근무표 기간과 최소 한 명의 간호사를 입력해주세요."
  const UnparsableReply := "응답을 파싱할 수 없습니다."
  const GenerationFailed := "근무표 생성 중 오류가 발생했습니다."

  /** `nurses.filter((nurse) => nurse.id !== id)`. */
  function RemoveById(nurses: seq<Nurse>, id: string): (kept: seq<Nurse>)
    ensures |kept| <= |nurses|
    ensures forall n :: n in kept <==> n in nurses && n.id != id
    ensures (forall k :: 0 <= k < |nurses| ==> nurses[k].id != id) ==> kept == nurses
    ensures |nurses| == 1 ==> kept == if nurses[0].id == id then [] else nurses
  {
    if nurses == [] then []
    else
      var init, last := nurses[..|nurses| - 1], nurses[|nurses| - 1];
      assert nurses == init + [last];
      if last.id == id then RemoveById(init, id) else RemoveById(init, id) + [last]
  }

  /**
   * Filtering a list is filtering its two parts and putting them back in the
   * same order; with the one-element case this fixes the kept nurses' order
   * as their order in the list.
   */
  lemma {:induction false} RemoveByIdAppend(a: seq<Nurse>, b: seq<Nurse>, id: string)
    ensures RemoveById(a + b, id) == RemoveById(a, id) + RemoveById(b, id)
    decreases |b|
  {
    if b == [] {
      assert a + b == a;
    } else {
      var init, last := b[..|b| - 1], b[|b| - 1];
      var t := if last.id == id then [] else [last];
      assert b == init + [last];
      calc {
        RemoveById(a + b, id);
        { assert a + b == (a + init) + [last]; }
        RemoveById((a + init) + [last], id);
        { RemoveByIdSnoc(a + init, last, id); }
        RemoveById(a + init, id) + t;
        { RemoveByIdAppend(a, init, id); }
        RemoveById(a, id) + RemoveById(init, id) + t;
        { RemoveByIdSnoc(init, last, id); }
        RemoveById(a, id) + RemoveById(b, id);
      }
    }
  }

  /** Filtering a list with one more nurse at the end. */
  lemma RemoveByIdSnoc(nurses: seq<Nurse>, last: Nurse, id: string)
    ensures RemoveById(nurses + [last], id) ==
      RemoveById(nurses, id) + (if last.id == id then [] else [last])
  {
    var xs := nurses + [last];
    assert xs[..|xs| - 1] == nurses;
  }

  /** The ids of the listed nurses are pairwise different. */
  predicate DistinctIds(nurses: seq<Nurse>) {
    forall i, j :: 0 <= i < j < |nurses| ==> nurses[i].id != nurses[j].id
  }

  /** Removing the id of a nurse just added at the end gives back the list before the add. */
  lemma {:induction false} RemoveAddedNurse(nurses: seq<Nurse>, added: Nurse)
    requires forall k :: 0 <= k < |nurses| ==> nurses[k].id != added.id
    ensures RemoveById(nurses + [added], added.id) == nurses
  {
    assert (nurses + [added])[..|nurses|] == nurses;
  }

  /** Removal keeps the ids pairwise different. */
  lemma {:induction false} RemoveKeepsDistinct(nurses: seq<Nurse>, id: string)
    requires DistinctIds(nurses)
    ensures DistinctIds(RemoveById(nurses, id))
    decreases |nurses|
  {
    if nurses != [] {
      var init := nurses[..|nurses| - 1];
      RemoveKeepsDistinct(init, id);
      var last := nurses[|nurses| - 1];
      if last.id != id {
        var kept := RemoveById(init, id);
        forall k | 0 <= k < |kept| ensures kept[k].id != last.id {
          assert kept[k] in init;
        }
      }
    }
  }

  /** Appending a nurse whose id is not listed keeps the ids pairwise different. */
  lemma AppendFreshId(nurses: seq<Nurse>, added: Nurse)
    requires DistinctIds(nurses)
    requires forall k :: 0 <= k < |nurses| ==> nurses[k].id != added.id
    ensures DistinctIds(nurses + [added])
  {
  }

  /** `nurses.map(({ name, position, off }) => ({ name, position, off }))`: the entries without ids, in order. */
  function Entries(nurses: seq<Nurse>): (entries: seq<NurseEntry>)
    ensures |entries| == |nurses|
    ensures forall k :: 0 <= k < |nurses| ==>
      entries[k] == NurseEntry(nurses[k].name, nurses[k].position, nurses[k].off)
  {
    if nurses == [] then [] else Entries(nurses[..|nurses| - 1]) + [NurseEntry(nurses[|nurses| - 1].name, nurses[|nurses| - 1].position, nurses[|nurses| - 1].off)]
  }

  /** Putting each entry back with its nurse's id gives the nurse list: stripping ids loses nothing else. */
  lemma EntriesKeepEverythingButIds(nurses: seq<Nurse>)
    ensures var entries := Entries(nurses);
      forall k :: 0 <= k < |nurses| ==>
        nurses[k] == Nurse(nurses[k].id, entries[k].name, entries[k].position, entries[k].off)
  {
  }

  /** `error.message || "근무표 생성 중 오류가 발생했습니다."`, as the page's `catch` sets the error text. */
  function CaughtMessage(message: string): (text: string)
    ensures text != ""
    ensures message != "" ==> text == message
    ensures message == "" ==> text == GenerationFailed
  {
    if message != "" then message else GenerationFailed
  }

  /** "HTTP <status> 오류가 발생했습니다.". */
  function HttpFailure(status: int): string {
    "HTTP " + Text.IntToDecimal(status) + " 오류가 발생했습니다."
  }

  /**
   * How one reply ends the submit. A parsed schedule is shown; a falsy body
   * is stored as the result, so neither a schedule nor an error is shown. A
   * rejected fetch or an unparsable ok body shows the error's message. A failed
   * status shows the body's truthy `message` as text, else "HTTP s 오류가
   * 발생했습니다."; an unparsable body stands for `{message: "응답을 파싱할 수
   * 없습니다."}` and a `null` body throws on the property read. An empty
   * text falls back to "근무표 생성 중 오류가 발생했습니다.".
   */
  function ClientOutcome(reply: ClientReply): (outcome: Outcome)
    ensures outcome.Scheduled? <==> reply.Ok? && reply.okBody.Parsed? && reply.okBody.value.Schedule?
    ensures outcome.Scheduled? ==> outcome.data == reply.okBody.value.data
    ensures outcome.Cleared? <==> reply.Ok? && reply.okBody.Parsed? && reply.okBody.value.Falsy?
    ensures outcome.Failed? ==> outcome.message != ""
    ensures reply.FetchRejected? ==> outcome == Failed(CaughtMessage(reply.error.message))
    ensures reply.NotOk? && reply.body.Unparsable? ==> outcome == Failed(UnparsableReply)
  {
    match reply
    case FetchRejected(e) => Failed(CaughtMessage(e.message))
    case Ok(body) =>
      (match body
       case Parsed(Schedule(data)) => Scheduled(data)
       case Parsed(Falsy(_)) => Cleared
       case Unparsable(e) => Failed(CaughtMessage(e.message)))
    case NotOk(status, body) =>
      var errorData := match body case Parsed(j) => j case Unparsable(_) => MessageObject(JString(UnparsableReply));
      if errorData.JNull? then Failed(CaughtMessage(NullReadMessage))
      else Failed(CaughtMessage(ToJsString(Or(MessageOf(errorData), JString(HttpFailure(status))))))
  }

  /**
   * The error text the proxy puts in its reply reaches the form: a failure of
   * the proxy itself shows its message, and an upstream failure shows its
   * message as text (the empty-text fallback only applies to an empty array).
   */
  lemma ProxyMessageReachesForm(res: ScheduleRoute.ProxyResponse)
    requires !res.body.Relay?
    requires res.body.ProxyFailure? ==> res.body.message != ""
    requires res.body.UpstreamFailure? ==> Truthy(res.body.userMessage)
    ensures res.body.ProxyFailure? ==>
      ClientOutcome(NotOk(res.status, Parsed(ScheduleRoute.BodyJson(res.body)))) == Failed(res.body.message)
    ensures res.body.UpstreamFailure? ==>
      ClientOutcome(NotOk(res.status, Parsed(ScheduleRoute.BodyJson(res.body)))) ==
        Failed(CaughtMessage(ToJsString(res.body.userMessage)))
  {
    var j := ScheduleRoute.BodyJson(res.body);
    assert j.JObject? && "message" in j.fields;
  }

  /** A listed nurse: a non-empty trimmed name and ascending off-day offsets. */
  predicate WellFormedEntry(n: Nurse) {
    Text.IsTrimmedNonEmpty(n.name) && Ascending(n.off)
  }

  /** A nurse list the form can hold: distinct ids and well-formed entries. */
  predicate WellFormedList(nurses: seq<Nurse>) {
    DistinctIds(nurses) && forall k :: 0 <= k < |nurses| ==> WellFormedEntry(nurses[k])
  }

  /** Appending a well-formed nurse with a fresh id keeps the list well formed. */
  lemma AppendKeepsWellFormed(nurses: seq<Nurse>, added: Nurse)
    requires WellFormedList(nurses) && WellFormedEntry(added)
    requires forall k :: 0 <= k < |nurses| ==> nurses[k].id != added.id
    ensures WellFormedList(nurses + [added])
  {
    AppendFreshId(nurses, added);
  }

  /** Removal keeps the list well formed. */
  lemma RemoveKeepsWellFormed(nurses: seq<Nurse>, id: string)
    requires WellFormedList(nurses)
    ensures WellFormedList(RemoveById(nurses, id))
  {
    RemoveKeepsDistinct(nurses, id);
    var kept := RemoveById(nurses, id);
    forall k | 0 <= k < |kept| ensures WellFormedEntry(kept[k]) {
      assert kept[k] in nurses;
    }
  }

  class RosterForm {
    var dateRange: Option<DateRange>
    var nurseName: string
    var nursePosition: Option<int>
    var preferredOffDays: Option<seq<Date>>
    var nurses: seq<Nurse>
    var scheduleResult: Option<ScheduleResponse>
    var isLoading: bool
    var error: Option<string>

    /**
     * Between two events: nurse ids are pairwise different, every listed nurse
     * is well formed, no request is in flight, and a shown error is never the
     * empty text.
     */
    ghost predicate Valid()
      reads this
    {
      && WellFormedList(nurses)
      && !isLoading
      && (error.Some? ==> error.value != "")
    }

    /** `dateRange?.from`. */
    function RangeFrom(): Option<Date>
      reads this
    {
      if dateRange.Some? then dateRange.value.from else None
    }

    /** `dateRange?.to`. */
    function RangeTo(): Option<Date>
      reads this
    {
      if dateRange.Some? then dateRange.value.to else None
    }

    /** The initial state of every `useState`. */
    constructor ()
      ensures Valid()
      ensures dateRange.None? && nurseName == "" && nursePosition.None? && preferredOffDays == Some([])
      ensures nurses == [] && scheduleResult.None? && !isLoading && error.None?
    {
      dateRange := None;
      nurseName := "";
      nursePosition := None;
      preferredOffDays := Some([]);
      nurses := [];
      scheduleResult := None;
      isLoading := false;
      error := None;
    }

    /** The name input's onChange. */
    method SetNurseName(name: string)
      modifies this
      requires Valid()
      ensures Valid()
      ensures nurseName == name
      ensures dateRange == old(dateRange) && nursePosition == old(nursePosition) && preferredOffDays == old(preferredOffDays)
      ensures nurses == old(nurses) && scheduleResult == old(scheduleResult) && error == old(error)
    {
      nurseName := name;
    }

    /** The position select's onValueChange: the picker offers the codes of POSITION_OPTIONS. */
    method SelectPosition(k: nat)
      modifies this
      requires Valid() && k < |PositionOptions|
      ensures Valid()
      ensures nursePosition == Some(PositionOptions[k].value)
      ensures dateRange == old(dateRange) && nurseName == old(nurseName) && preferredOffDays == old(preferredOffDays)
      ensures nurses == old(nurses) && scheduleResult == old(scheduleResult) && error == old(error)
    {
      nursePosition := Some(PositionOptions[k].value);
    }

    /** The off-days calendar's onSelect. */
    method SelectOffDays(days: Option<seq<Date>>)
      modifies this
      requires Valid()
      ensures Valid()
      ensures preferredOffDays == days
      ensures dateRange == old(dateRange) && nurseName == old(nurseName) && nursePosition == old(nursePosition)
      ensures nurses == old(nurses) && scheduleResult == old(scheduleResult) && error == old(error)
    {
      preferredOffDays := days;
    }

    /** isAddNurseDisabled: a blank name, no position, or no first day of the range. */
    function IsAddNurseDisabled(): (disabled: bool)
      reads this
      ensures !disabled ==> Text.Trim(nurseName) != "" && nursePosition.Some? && RangeFrom().Some?
      ensures disabled ==> Text.IsBlank(nurseName) || nursePosition.None? || RangeFrom().None?
    {
      Text.Trim(nurseName) == "" || nursePosition.None? || RangeFrom().None?
    }

    /** isDateRangeDisabled: the range is locked once a nurse is listed. */
    function IsDateRangeDisabled(): bool
      reads this
    {
      |nurses| > 0
    }

    /**
     * The submit button's `disabled`: no nurses, a request in flight, or an
     * incomplete range. While no request is in flight it agrees with the guard
     * handleGenerateSchedule applies itself.
     */
    function IsSubmitDisabled(): (disabled: bool)
      reads this
      ensures isLoading ==> disabled
      ensures !isLoading ==> (disabled <==> RangeFrom().None? || RangeTo().None? || |nurses| == 0)
    {
      |nurses| == 0 || isLoading || RangeFrom().None? || RangeTo().None?
    }

    /**
     * handleAddNurse: when the add button is enabled, appends one nurse with
     * the fresh id, the trimmed name, the position and the off-day offsets from
     * the range's first day, and clears the entry fields; otherwise changes
     * nothing.
     */
    method HandleAddNurse(freshId: string)
      modifies this
      requires Valid()
      requires forall k :: 0 <= k < |nurses| ==> nurses[k].id != freshId
      ensures Valid()
      ensures old(IsAddNurseDisabled()) ==>
        nurses == old(nurses) && nurseName == old(nurseName) && nursePosition == old(nursePosition)
        && preferredOffDays == old(preferredOffDays)
      ensures !old(IsAddNurseDisabled()) ==>
        && nurses == old(nurses) + [Nurse(freshId, Text.Trim(old(nurseName)), old(nursePosition).value,
                                          CalculateOffDays(old(preferredOffDays), old(RangeFrom())))]
        && nurseName == "" && nursePosition.None? && preferredOffDays == Some([])
      ensures dateRange == old(dateRange) && scheduleResult == old(scheduleResult) && error == old(error)
    {
      if Text.Trim(nurseName) == "" || nursePosition.None? || RangeFrom().None? {
        return;
      }
      var offDaysNumbers := CalculateOffDays(preferredOffDays, RangeFrom());
      var added := Nurse(freshId, Text.Trim(nurseName), nursePosition.value, offDaysNumbers);
      assert WellFormedEntry(added);
      AppendKeepsWellFormed(nurses, added);
      nurses := nurses + [added];
      nurseName := "";
      nursePosition := None;
      preferredOffDays := Some([]);
    }

    /** handleRemoveNurse: keeps exactly the nurses with another id, in their order. */
    method HandleRemoveNurse(id: string)
      modifies this
      requires Valid()
      ensures Valid()
      ensures nurses == RemoveById(old(nurses), id)
      ensures forall n :: n in nurses <==> n in old(nurses) && n.id != id
      ensures dateRange == old(dateRange) && nurseName == old(nurseName) && nursePosition == old(nursePosition)
      ensures preferredOffDays == old(preferredOffDays) && scheduleResult == old(scheduleResult) && error == old(error)
    {
      RemoveKeepsWellFormed(nurses, id);
      nurses := RemoveById(nurses, id);
    }

    /**
     * handleGenerateSchedule: with an incomplete range or no nurses, sets the
     * validation message and sends nothing. Otherwise sends the formatted
     * range and the nurse entries without ids, and then holds either the
     * schedule with no error or an error with no schedule, except after an ok
     * reply whose body is falsy, which leaves neither; the loading flag is off
     * again at the end.
     */
    method HandleGenerateSchedule(calendar: Date -> CivilDate, reply: ClientReply) returns (sent: Option<ScheduleRequest>)
      modifies this
      requires Valid()
      ensures Valid()
      ensures sent.None? <==> old(IsSubmitDisabled())
      ensures sent.None? ==> error == Some(ValidationMessage) && scheduleResult == old(scheduleResult)
      ensures sent.Some? ==> sent.value == ScheduleRequest(IsoText(calendar(old(RangeFrom()).value)), IsoText(calendar(old(RangeTo()).value)), Entries(old(nurses)))
      ensures sent.Some? ==> match ClientOutcome(reply)
        case Scheduled(data) => scheduleResult == Some(data) && error.None?
        case Cleared => scheduleResult.None? && error.None?
        case Failed(message) => scheduleResult.None? && error == Some(message)
      ensures sent.Some? && !ClientOutcome(reply).Cleared? ==>
        (scheduleResult.Some? && error.None?) || (scheduleResult.None? && error.Some?)
      ensures !isLoading
      ensures dateRange == old(dateRange) && nurseName == old(nurseName) && nursePosition == old(nursePosition)
      ensures preferredOffDays == old(preferredOffDays) && nurses == old(nurses)
    {
      if RangeFrom().None? || RangeTo().None? || |nurses| == 0 {
        error := Some(ValidationMessage);
        return None;
      }
      isLoading := true;
      error := None;
      var requestBody := ScheduleRequest(FormatDate(RangeFrom(), calendar), FormatDate(RangeTo(), calendar), Entries(nurses));
      match ClientOutcome(reply) {
        case Scheduled(data) =>
          scheduleResult := Some(data);
        case Cleared =>
          scheduleResult := None;
        case Failed(message) =>
          error := Some(message);
          scheduleResult := None;
      }
      isLoading := false;
      sent := Some(requestBody);
    }

    /** handleRedo: back to the form, with no schedule and no error. */
    method HandleRedo()
      modifies this
      requires Valid()
      ensures Valid()
      ensures scheduleResult.None? && error.None?
      ensures dateRange == old(dateRange) && nurseName == old(nurseName) && nursePosition == old(nursePosition)
      ensures preferredOffDays == old(preferredOffDays) && nurses == old(nurses)
    {
      scheduleResult := None;
      error := None;
    }

    /**
     * handleDateRangeSelect: a click on a complete range starts a new range at
     * the clicked day with no last day; otherwise the picker's range is taken.
     */
    method HandleDateRangeSelect(newRange: Option<DateRange>, selectedDate: Date)
      modifies this
      requires Valid()
      ensures Valid()
      ensures old(RangeFrom()).Some? && old(RangeTo()).Some? ==> dateRange == Some(DateRange(Some(selectedDate), None))
      ensures !(old(RangeFrom()).Some? && old(RangeTo()).Some?) ==> dateRange == newRange
      ensures nurseName == old(nurseName) && nursePosition == old(nursePosition) && preferredOffDays == old(preferredOffDays)
      ensures nurses == old(nurses) && scheduleResult == old(scheduleResult) && error == old(error)
    {
      if RangeFrom().Some? && RangeTo().Some? {
        dateRange := Some(DateRange(Some(selectedDate), None));
      } else {
        dateRange := newRange;
      }
    }

    /** A click in the range calendar, which is disabled while nurses are listed: the range then stays as it was. */
    method ClickRangeDay(newRange: Option<DateRange>, selectedDate: Date)
      modifies this
      requires Valid()
      ensures Valid()
      ensures |old(nurses)| > 0 ==> dateRange == old(dateRange)
      ensures |old(nurses)| == 0 && old(RangeFrom()).Some? && old(RangeTo()).Some? ==>
        dateRange == Some(DateRange(Some(selectedDate), None))
      ensures |old(nurses)| == 0 && !(old(RangeFrom()).Some? && old(RangeTo()).Some?) ==> dateRange == newRange
      ensures nurseName == old(nurseName) && nursePosition == old(nursePosition) && preferredOffDays == old(preferredOffDays)
      ensures nurses == old(nurses) && scheduleResult == old(scheduleResult) && error == old(error)
    {
      if !IsDateRangeDisabled() {
        HandleDateRangeSelect(newRange, selectedDate);
      }
    }

    /**
     * nurseNamesForTable: no rows without a non-empty schedule; else the names
     * of the first day's mapping, in order, when it has any; else the listed
     * nurses' names.
     */
    function NurseNamesForTable(): (names: seq<string>)
      reads this
      ensures scheduleResult.None? || scheduleResult.value == [] ==> names == []
      ensures scheduleResult.Some? && scheduleResult.value != [] && scheduleResult.value[0].nurses != [] ==>
        |names| == |scheduleResult.value[0].nurses| &&
        forall k :: 0 <= k < |names| ==> names[k] == scheduleResult.value[0].nurses[k].name
      ensures scheduleResult.Some? && scheduleResult.value != [] && scheduleResult.value[0].nurses == [] ==>
        |names| == |nurses| && forall k :: 0 <= k < |names| ==> names[k] == nurses[k].name
    {
      match scheduleResult
      case None => []
      case Some(result) =>
        var listed := nurses;
        if result == [] then []
        else if |result[0].nurses| > 0 then Names(result[0].nurses)
        else seq(|listed|, k requires 0 <= k < |listed| => listed[k].name)
    }
  }
}
