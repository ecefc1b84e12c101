/**
 * The booking timeline component: the selectable 30-minute start slots, the 40 quarter-hour cells of the
 * occupancy grid with the label of the first block covering each, the ten hour rows, the selection
 * highlight and the guard on clicking a slot.
 */
module BookingTimeline {
  import opened Wrappers
  import opened JsText
  import opened TimeCalculations

  /** Minutes between two selectable starts. */
  const SlotStep: int := 30
  /** Minutes covered by one cell of the occupancy grid. */
  const CellStep: int := 15
  /** The grid covers the whole 600-minute window. */
  const CellCount: int := 40
  /** Hour rows 9, 10, ..., 18. */
  const FirstHour: int := 9
  const HourCount: int := 10

  // ---------------------------------------------------------------- the selected duration

  /** `durationMinutes`: the parsed duration, or an hour when no duration is selected yet. */
  function DurationMinutes(selectedDuration: string): Num
    requires selectedDuration == [] || WholeMinuteDuration(selectedDuration)
  {
    if selectedDuration == [] then Finite(60) else ParseDuration(selectedDuration)
  }

  /** Nothing selected is an hour; a "N mins" text is what `parseInt` reads; an hours text is 60 per hour. */
  lemma DurationMinutesCases(selectedDuration: string)
    requires selectedDuration == [] || WholeMinuteDuration(selectedDuration)
    ensures selectedDuration == [] ==> DurationMinutes(selectedDuration) == Finite(60)
    ensures Contains(selectedDuration, "mins") ==> DurationMinutes(selectedDuration) == ParseInt(selectedDuration)
    ensures selectedDuration != [] && !Contains(selectedDuration, "mins") ==>
      match ParseFloat(selectedDuration)
      case None => DurationMinutes(selectedDuration) == NaN
      case Some(hours) =>
        DurationMinutes(selectedDuration).Finite? &&
        DurationMinutes(selectedDuration).n * Pow10(hours.places) == hours.mantissa * 60
  {
    if selectedDuration != [] && !Contains(selectedDuration, "mins") {
      ParseDurationOfHours(selectedDuration);
    }
  }

  // ---------------------------------------------------------------- selectable slots

  datatype Slot = Slot(time: string, minutes: int, available: bool)

  /** The `k`-th selectable start: `30 k` minutes after 9:00, its 12-hour display, and whether it is free. */
  predicate IsSlot(slot: Slot, k: nat, d: int, blocks: seq<TimeBlock>) {
    slot.minutes == SlotStep * k &&
    slot.time == MinutesToTime(SlotStep * k, false) &&
    (slot.available <==> SlotAvailable(SlotStep * k, d, blocks))
  }

  /** The slot list for a numeric duration `d`: every start `0, 30, ... <= 600 - d`, in ascending order. */
  predicate SlotList(slots: seq<Slot>, d: int, blocks: seq<TimeBlock>) {
    (forall k :: 0 <= k < |slots| ==> SlotStep * k <= WindowLength - d && IsSlot(slots[k], k, d, blocks))
    && SlotStep * |slots| > WindowLength - d
  }

  /**
   * `timeSlots`: a loop from 0 while `minutes <= 600 - durationMinutes`, asking `isTimeSlotAvailable` for
   * each start. A NaN duration fails the very first comparison, and so does one longer than the window.
   */
  method BuildTimeSlots(durationMinutes: Num, bookedBlocks: seq<TimeBlock>) returns (slots: seq<Slot>)
    ensures durationMinutes.NaN? ==> slots == []
    ensures durationMinutes.Finite? ==> SlotList(slots, durationMinutes.n, bookedBlocks)
    ensures durationMinutes.Finite? && durationMinutes.n > WindowLength ==> slots == []
  {
    slots := [];
    if durationMinutes.NaN? {
      // `minutes <= 600 - NaN` is false: the loop does not run.
      return;
    }
    var d := durationMinutes.n;
    var minutes := 0;
    while Le(Finite(minutes), Minus(Finite(WindowLength), durationMinutes))
      invariant minutes == SlotStep * |slots|
      invariant forall k :: 0 <= k < |slots| ==> SlotStep * k <= WindowLength - d && IsSlot(slots[k], k, d, bookedBlocks)
      decreases WindowLength - d - minutes
    {
      var time := MinutesToTime(minutes, false);
      var available := IsTimeSlotAvailable(minutes, d, bookedBlocks);
      SlotListGrows(slots, d, bookedBlocks, Slot(time, minutes, available));
      slots := slots + [Slot(time, minutes, available)];
      minutes := minutes + SlotStep;
    }
  }

  /** One more slot, the next start, keeps the slot list well formed. */
  lemma SlotListGrows(slots: seq<Slot>, d: int, blocks: seq<TimeBlock>, slot: Slot)
    requires forall k :: 0 <= k < |slots| ==> SlotStep * k <= WindowLength - d && IsSlot(slots[k], k, d, blocks)
    requires SlotStep * |slots| <= WindowLength - d && IsSlot(slot, |slots|, d, blocks)
    ensures forall k :: 0 <= k < |slots| + 1 ==>
      SlotStep * k <= WindowLength - d && IsSlot((slots + [slot])[k], k, d, blocks)
  {
  }

  /** The slots a user may pick: `timeSlots.filter(s => s.available)`. */
  function AvailableSlots(slots: seq<Slot>): (r: seq<Slot>)
    ensures |r| <= |slots|
    ensures forall s :: s in r <==> s in slots && s.available
  {
    if slots == [] then []
    else (if slots[0].available then [slots[0]] else []) + AvailableSlots(slots[1..])
  }

  /** The free slots from the `k`-th on are exactly the available candidates `getAvailableSlotsCount` counts. */
  lemma {:induction false} AvailableSlotsCountFrom(slots: seq<Slot>, d: int, blocks: seq<TimeBlock>, k: nat)
    requires k <= |slots|
    requires forall j :: k <= j < |slots| ==> Candidate(j, SlotStep) <= WindowLength - d
    requires forall j :: k <= j < |slots| ==> (slots[j].available <==> SlotAvailable(Candidate(j, SlotStep), d, blocks))
    requires Candidate(|slots|, SlotStep) > WindowLength - d
    ensures |AvailableSlots(slots[k..])| == CountAvailableFrom(k, d, blocks, SlotStep)
    decreases |slots| - k
  {
    if k < |slots| {
      var rest := slots[k..];
      assert rest[0] == slots[k] && rest[1..] == slots[k + 1..];
      AvailableSlotsCountFrom(slots, d, blocks, k + 1);
    }
  }

  /** Each slot of a slot list starts at its candidate and is available exactly when that start is free. */
  lemma SlotsAreCandidates(slots: seq<Slot>, d: int, blocks: seq<TimeBlock>)
    requires SlotList(slots, d, blocks)
    ensures forall j :: 0 <= j < |slots| ==> Candidate(j, SlotStep) <= WindowLength - d
    ensures forall j :: 0 <= j < |slots| ==> (slots[j].available <==> SlotAvailable(Candidate(j, SlotStep), d, blocks))
    ensures Candidate(|slots|, SlotStep) > WindowLength - d
  {
    forall j | 0 <= j < |slots|
      ensures Candidate(j, SlotStep) <= WindowLength - d
      ensures slots[j].available <==> SlotAvailable(Candidate(j, SlotStep), d, blocks)
    {
      assert IsSlot(slots[j], j, d, blocks);
    }
  }

  /**
   * The "no slots available" message shows exactly when `getAvailableSlotsCount(d, blocks, 30)` is 0, that
   * is, exactly when no start `30 k <= 600 - d` is free.
   */
  lemma NoSlotsMessageIff(slots: seq<Slot>, d: int, blocks: seq<TimeBlock>)
    requires SlotList(slots, d, blocks)
    ensures |AvailableSlots(slots)| == CountAvailableFrom(0, d, blocks, SlotStep)
    ensures |AvailableSlots(slots)| == 0 <==>
      forall k: nat :: Candidate(k, SlotStep) <= WindowLength - d ==> !SlotAvailable(Candidate(k, SlotStep), d, blocks)
  {
    assert slots[0..] == slots;
    SlotsAreCandidates(slots, d, blocks);
    AvailableSlotsCountFrom(slots, d, blocks, 0);
    NoNextSlotIffCountZero(d, blocks, SlotStep);
  }

  /** A click on a slot reaches `onTimeSelect` only when the slot is available, with the slot's time. */
  function SlotClick(slot: Slot): (selected: Option<string>)
    ensures selected.Some? <==> slot.available
    ensures selected.Some? ==> selected.value == slot.time
  {
    if slot.available then Some(slot.time) else None
  }

  /** A time that reaches `onTimeSelect` reads back as a free start of the requested duration. */
  lemma ClickedSlotIsFree(slots: seq<Slot>, d: int, blocks: seq<TimeBlock>, k: nat)
    requires SlotList(slots, d, blocks) && k < |slots| && d > 0
    requires SlotClick(slots[k]).Some?
    ensures ParseTimeToMinutes(SlotClick(slots[k]).value) == SlotStep * k
    ensures SlotAvailable(ParseTimeToMinutes(SlotClick(slots[k]).value), d, blocks)
  {
    RoundTrip(SlotStep * k, false);
  }

  // ---------------------------------------------------------------- the occupancy grid

  datatype Cell = Cell(minutes: int, isBooked: bool, bookingLabel: Option<string>)

  /** `minutes >= block.start && minutes < block.end`, false against a NaN end. */
  predicate Covers(block: TimeBlock, m: int) { m >= block.start && Lt(Finite(m), block.end) }

  /** The index of the first block, from the `i`-th on and in list order, that covers minute `m`. */
  function FirstCoveringFrom(blocks: seq<TimeBlock>, m: int, i: nat): (r: Option<nat>)
    requires i <= |blocks|
    ensures r.Some? ==>
      i <= r.value < |blocks| && Covers(blocks[r.value], m) && forall j :: i <= j < r.value ==> !Covers(blocks[j], m)
    ensures r.None? ==> forall j :: i <= j < |blocks| ==> !Covers(blocks[j], m)
    decreases |blocks| - i
  {
    if i == |blocks| then None
    else if Covers(blocks[i], m) then Some(i)
    else FirstCoveringFrom(blocks, m, i + 1)
  }

  /** What cell `k` shows: booked, with the label of the first block covering minute `15 k`, or free. */
  function GridCell(blocks: seq<TimeBlock>, k: nat): Cell {
    match FirstCoveringFrom(blocks, CellStep * k, 0)
    case None => Cell(CellStep * k, false, None)
    case Some(i) => Cell(CellStep * k, true, Some(blocks[i].labelText))
  }

  /**
   * A cell is booked exactly when some block covers its minute, and its label is that of the first such
   * block; later overlapping blocks are ignored.
   */
  lemma GridCellMeaning(blocks: seq<TimeBlock>, k: nat)
    ensures GridCell(blocks, k).minutes == CellStep * k
    ensures GridCell(blocks, k).isBooked <==> exists i :: 0 <= i < |blocks| && Covers(blocks[i], CellStep * k)
    ensures !GridCell(blocks, k).isBooked ==> GridCell(blocks, k).bookingLabel == None
    ensures forall i ::
      (0 <= i < |blocks| && Covers(blocks[i], CellStep * k) && forall j :: 0 <= j < i ==> !Covers(blocks[j], CellStep * k))
      ==> GridCell(blocks, k).bookingLabel == Some(blocks[i].labelText)
  {
    var r := FirstCoveringFrom(blocks, CellStep * k, 0);
    if r.Some? {
      assert Covers(blocks[r.value], CellStep * k);
    }
  }

  /**
   * `timelineCells`: for each of the minutes 0, 15, ..., 585 a scan of the blocks that sets the booked flag
   * and label at the first covering block and breaks.
   */
  method BuildTimelineCells(bookedBlocks: seq<TimeBlock>) returns (cells: seq<Cell>)
    ensures |cells| == CellCount
    ensures forall k :: 0 <= k < |cells| ==> cells[k] == GridCell(bookedBlocks, k)
  {
    cells := [];
    var minutes := 0;
    while minutes < WindowLength
      invariant minutes == CellStep * |cells| && |cells| <= CellCount
      invariant forall k :: 0 <= k < |cells| ==> cells[k] == GridCell(bookedBlocks, k)
      decreases WindowLength - minutes
    {
      var isBooked := false;
      var bookingLabel: Option<string> := None;
      var i := 0;
      while i < |bookedBlocks|
        invariant 0 <= i <= |bookedBlocks|
        invariant !isBooked && bookingLabel == None
        invariant forall j :: 0 <= j < i ==> !Covers(bookedBlocks[j], minutes)
      {
        var block := bookedBlocks[i];
        if minutes >= block.start && Lt(Finite(minutes), block.end) {
          isBooked := true;
          bookingLabel := Some(block.labelText);
          break;
        }
        i := i + 1;
      }
      assert isBooked ==>
        i < |bookedBlocks| && Covers(bookedBlocks[i], minutes) && bookingLabel == Some(bookedBlocks[i].labelText);
      cells := cells + [Cell(minutes, isBooked, bookingLabel)];
      minutes := minutes + CellStep;
    }
  }

  // ---------------------------------------------------------------- hour rows

  datatype HourGroup = HourGroup(hour: string, cells: seq<Cell>)

  /** `cells.filter(cell => cell.minutes >= lo && cell.minutes < hi)`. */
  function CellsInRange(cells: seq<Cell>, lo: int, hi: int): (r: seq<Cell>)
    ensures |r| <= |cells|
  {
    if cells == [] then []
    else (if lo <= cells[0].minutes < hi then [cells[0]] else []) + CellsInRange(cells[1..], lo, hi)
  }

  /** The filter keeps exactly the cells whose minute lies in `[lo, hi)`. */
  lemma {:induction false} CellsInRangeMembers(cells: seq<Cell>, lo: int, hi: int)
    ensures forall c :: c in CellsInRange(cells, lo, hi) <==> c in cells && lo <= c.minutes < hi
    decreases |cells|
  {
    if cells != [] {
      CellsInRangeMembers(cells[1..], lo, hi);
      assert cells == [cells[0]] + cells[1..];
    }
  }

  /** The filter distributes over concatenation. */
  lemma {:induction false} CellsInRangeAppend(a: seq<Cell>, b: seq<Cell>, lo: int, hi: int)
    ensures CellsInRange(a + b, lo, hi) == CellsInRange(a, lo, hi) + CellsInRange(b, lo, hi)
    decreases |a|
  {
    if a == [] {
      assert a + b == b;
    } else {
      assert (a + b)[1..] == a[1..] + b;
      CellsInRangeAppend(a[1..], b, lo, hi);
    }
  }

  /** Cells all inside the range are kept as they are. */
  lemma {:induction false} CellsInRangeAll(cells: seq<Cell>, lo: int, hi: int)
    requires forall i :: 0 <= i < |cells| ==> lo <= cells[i].minutes < hi
    ensures CellsInRange(cells, lo, hi) == cells
    decreases |cells|
  {
    if cells != [] {
      CellsInRangeAll(cells[1..], lo, hi);
    }
  }

  /** Cells all outside the range are all dropped. */
  lemma {:induction false} CellsInRangeNone(cells: seq<Cell>, lo: int, hi: int)
    requires forall i :: 0 <= i < |cells| ==> !(lo <= cells[i].minutes < hi)
    ensures CellsInRange(cells, lo, hi) == []
    decreases |cells|
  {
    if cells != [] {
      CellsInRangeNone(cells[1..], lo, hi);
    }
  }

  /** The hour an hour row shows: `hour > 12 ? hour - 12 : hour`. */
  function DisplayHour(hour: int): int { if hour > 12 then hour - 12 else hour }

  /** `م` from noon on, `ص` before. */
  function Period(hour: int): string { if hour >= 12 then PmMarker else AmMarker }

  /** The row label "`displayHour` `period`". */
  function HourLabel(hour: int): string { IntToString(DisplayHour(hour)) + " " + Period(hour) }

  /** `hourGroups`: for each hour 9..18, its label and the cells of its sixty minutes. */
  method BuildHourGroups(timelineCells: seq<Cell>) returns (groups: seq<HourGroup>)
    ensures |groups| == HourCount
    ensures forall g :: 0 <= g < |groups| ==>
      groups[g] == HourGroup(HourLabel(FirstHour + g), CellsInRange(timelineCells, 60 * g, 60 * g + 60))
  {
    groups := [];
    var hour := FirstHour;
    while hour < FirstHour + HourCount
      invariant hour == FirstHour + |groups| && |groups| <= HourCount
      invariant forall g :: 0 <= g < |groups| ==>
        groups[g] == HourGroup(HourLabel(FirstHour + g), CellsInRange(timelineCells, 60 * g, 60 * g + 60))
    {
      var hourMinutes := (hour - FirstHour) * 60;
      var hourCells := CellsInRange(timelineCells, hourMinutes, hourMinutes + 60);
      var isPM := hour >= 12;
      var displayHour := if hour > 12 then hour - 12 else hour;
      var period := if isPM then PmMarker else AmMarker;
      groups := groups + [HourGroup(IntToString(displayHour) + " " + period, hourCells)];
      hour := hour + 1;
    }
  }

  /** On the 40-cell grid, the row of hour `9 + g` holds exactly the four cells `4 g .. 4 g + 3`. */
  lemma GridHourRow(cells: seq<Cell>, g: nat)
    requires |cells| == CellCount && g < HourCount
    requires forall k :: 0 <= k < |cells| ==> cells[k].minutes == CellStep * k
    ensures CellsInRange(cells, 60 * g, 60 * g + 60) == cells[4 * g .. 4 * g + 4]
  {
    var before, row, after := cells[..4 * g], cells[4 * g .. 4 * g + 4], cells[4 * g + 4..];
    assert cells == before + (row + after);
    GridRowParts(cells, g);
    CellsInRangeAppend(row, after, 60 * g, 60 * g + 60);
    CellsInRangeAppend(before, row + after, 60 * g, 60 * g + 60);
  }

  /** Before the row every cell is too early, in it every cell fits, after it every cell is too late. */
  lemma GridRowParts(cells: seq<Cell>, g: nat)
    requires |cells| == CellCount && g < HourCount
    requires forall k :: 0 <= k < |cells| ==> cells[k].minutes == CellStep * k
    ensures CellsInRange(cells[..4 * g], 60 * g, 60 * g + 60) == []
    ensures CellsInRange(cells[4 * g .. 4 * g + 4], 60 * g, 60 * g + 60) == cells[4 * g .. 4 * g + 4]
    ensures CellsInRange(cells[4 * g + 4..], 60 * g, 60 * g + 60) == []
  {
    CellsInRangeNone(cells[..4 * g], 60 * g, 60 * g + 60);
    CellsInRangeAll(cells[4 * g .. 4 * g + 4], 60 * g, 60 * g + 60);
    CellsInRangeNone(cells[4 * g + 4..], 60 * g, 60 * g + 60);
  }

  /**
   * A row's hour and marker agree with the 12-hour display of its first minute: the row of hour `9 + g`
   * starts at the time `minutesToTime(60 g)` shows.
   */
  lemma HourLabelAgreesWithClock(g: nat)
    requires g < HourCount
    ensures 1 <= DisplayHour(FirstHour + g) <= 12
    ensures MinutesToTime(60 * g, false) == ClockText(DisplayHour(FirstHour + g), 0) + " " + Period(FirstHour + g)
  {
    MinutesToTime12WithinDay(60 * g);
    assert (540 + 60 * g) / 60 == FirstHour + g && (540 + 60 * g) % 60 == 0;
  }

  // ---------------------------------------------------------------- selection and cell styles

  /** `selectedMinutes`: the parsed selected time, or -1 when nothing is selected. */
  function SelectedMinutes(selectedTime: string): int {
    if selectedTime == [] then -1 else ParseTimeToMinutes(selectedTime)
  }

  /** `selectedEndMinutes`: the selected start plus the duration, or -1 without a selection. */
  function SelectedEndMinutes(selected: int, durationMinutes: Num): Num {
    if selected >= 0 then Plus(Finite(selected), durationMinutes) else Finite(-1)
  }

  /** `isInSelection` for a cell at minute `m`. */
  predicate IsInSelection(m: int, selected: int, selectedEnd: Num) {
    selected >= 0 && m >= selected && Lt(Finite(m), selectedEnd)
  }

  /**
   * A cell is highlighted exactly when a time is selected, it reads as a start at or after 9:00, and the
   * cell's minute lies in `[start, start + d)`; a NaN duration highlights nothing.
   */
  lemma SelectionIff(selectedTime: string, durationMinutes: Num, m: int)
    ensures var sel := SelectedMinutes(selectedTime);
      IsInSelection(m, sel, SelectedEndMinutes(sel, durationMinutes)) <==>
        selectedTime != [] && durationMinutes.Finite? &&
        0 <= ParseTimeToMinutes(selectedTime) <= m < ParseTimeToMinutes(selectedTime) + durationMinutes.n
  {
  }

  /** After choosing the `k`-th slot, the highlighted cells are exactly those in `[30 k, 30 k + d)`. */
  lemma SelectedSlotHighlight(slots: seq<Slot>, d: int, blocks: seq<TimeBlock>, k: nat, m: int)
    requires SlotList(slots, d, blocks) && k < |slots| && d > 0
    ensures var sel := SelectedMinutes(slots[k].time);
      IsInSelection(m, sel, SelectedEndMinutes(sel, Finite(d))) <==> SlotStep * k <= m < SlotStep * k + d
  {
    RoundTrip(SlotStep * k, false);
    SelectionIff(slots[k].time, Finite(d), m);
    assert slots[k].time != [] by {
      MinutesToTime12WithinDay(SlotStep * k);
    }
  }

  datatype CellStyle = BookedStyle | SelectedStyle | FreeStyle

  /** The cell's class: booked first, then selection, then plain. */
  function CellStyleOf(cell: Cell, selected: int, selectedEnd: Num): (style: CellStyle)
    ensures style == BookedStyle <==> cell.isBooked
    ensures style == SelectedStyle <==> !cell.isBooked && IsInSelection(cell.minutes, selected, selectedEnd)
  {
    if cell.isBooked then BookedStyle
    else if IsInSelection(cell.minutes, selected, selectedEnd) then SelectedStyle
    else FreeStyle
  }
}
