/** The schedule policy: working hours, the slot list of a day and the
    day-of-week rules (closed on Sunday, shorter hours on Saturday). */
module Schedule {
  import opened Text

  /** `workingHours` of the booking system. */
  const StartHour: nat := 8
  const EndHour: nat := 18
  /** Slot length in minutes. */
  const Interval: nat := 30
  /** Saturday's closing hour. */
  const SaturdayEndHour: nat := 14

  /** The result of `Date.getDay()`: 0 is Sunday, 6 is Saturday. */
  type DayOfWeek = d: int | 0 <= d <= 6

  /** An hour rendered as `hour.toString().padStart(2, '0')`. */
  function HourLabel(hour: nat): string {
    PadStart2(DecimalString(hour))
  }

  /** Whether the ":30" slot of `hour` is offered when the day ends at `endHour`. */
  predicate HalfHourOffered(hour: nat, endHour: nat) {
    hour < endHour - 1 || (hour == endHour - 1 && Interval == 30)
  }

  /** The slots one iteration of the hour loop pushes. */
  function HourSlots(hour: nat, endHour: nat): seq<string> {
    [HourLabel(hour) + ":00"] + (if HalfHourOffered(hour, endHour) then [HourLabel(hour) + ":30"] else [])
  }

  /** The slots pushed by the iterations for the hours `startHour .. upTo - 1`. */
  function SlotsUpTo(startHour: nat, upTo: nat, endHour: nat): seq<string>
    decreases upTo
  {
    if upTo <= startHour then [] else SlotsUpTo(startHour, upTo - 1, endHour) + HourSlots(upTo - 1, endHour)
  }

  /** The value `generateTimeSlots(startHour, endHour)` returns. */
  function TimeSlots(startHour: nat, endHour: nat): seq<string> {
    SlotsUpTo(startHour, endHour, endHour)
  }

  /** The `k`-th slot of a day opening at `startHour`, in closed form. */
  function SlotAt(startHour: nat, k: nat): string {
    HourLabel(startHour + k / 2) + (if k % 2 == 0 then ":00" else ":30")
  }

  /** `generateTimeSlots`: one loop iteration per hour, pushing ":00" and,
      when the half-hour condition holds, ":30". */
  method GenerateTimeSlots(startHour: nat, endHour: nat) returns (slots: seq<string>)
    ensures slots == TimeSlots(startHour, endHour)
  {
    slots := [];
    var hour := startHour;
    while hour < endHour
      invariant startHour <= hour
      invariant hour == startHour || hour <= endHour
      invariant slots == SlotsUpTo(startHour, hour, endHour)
      decreases endHour - hour
    {
      slots := slots + [HourLabel(hour) + ":00"];
      if hour < endHour - 1 || (hour == endHour - 1 && Interval == 30) {
        slots := slots + [HourLabel(hour) + ":30"];
      }
      hour := hour + 1;
    }
  }

  /** Hours below 100 are rendered as exactly two digits. */
  lemma HourLabelTwoDigits(hour: nat)
    requires hour < 100
    ensures HourLabel(hour) == [DigitChar(hour / 10), DigitChar(hour % 10)]
  {
    if hour >= 10 {
      assert DecimalString(hour) == DecimalString(hour / 10) + [DigitChar(hour % 10)];
    }
  }

  /** With a 30-minute interval every hour of the loop yields two slots, so the
      first `2 * (upTo - startHour)` slots are the closed-form `SlotAt` ones. */
  lemma {:induction false} SlotsUpToShape(startHour: nat, upTo: nat, endHour: nat)
    requires startHour <= upTo <= endHour
    ensures |SlotsUpTo(startHour, upTo, endHour)| == 2 * (upTo - startHour)
    ensures forall k :: 0 <= k < |SlotsUpTo(startHour, upTo, endHour)| ==>
              SlotsUpTo(startHour, upTo, endHour)[k] == SlotAt(startHour, k)
  {
    if upTo > startHour {
      SlotsUpToShape(startHour, upTo - 1, endHour);
      var prefix := SlotsUpTo(startHour, upTo - 1, endHour);
      var m := upTo - 1 - startHour;
      assert HalfHourOffered(upTo - 1, endHour);
      assert SlotsUpTo(startHour, upTo, endHour) == prefix + HourSlots(upTo - 1, endHour);
      assert (2 * m) / 2 == m && (2 * m) % 2 == 0;
      assert (2 * m + 1) / 2 == m && (2 * m + 1) % 2 == 1;
    }
  }

  /** `generateTimeSlots(start, end)` returns `2 * (end - start)` slots (none
      when `end <= start`): "HH:00" then "HH:30" for every hour from `start`
      to `end - 1`, hours zero-padded. */
  lemma TimeSlotsShape(startHour: nat, endHour: nat)
    ensures |TimeSlots(startHour, endHour)| == if startHour <= endHour then 2 * (endHour - startHour) else 0
    ensures forall k :: 0 <= k < |TimeSlots(startHour, endHour)| ==> TimeSlots(startHour, endHour)[k] == SlotAt(startHour, k)
  {
    if startHour <= endHour {
      SlotsUpToShape(startHour, endHour, endHour);
    }
  }

  /** A "HH:MM" string of digits. */
  predicate IsClockTime(s: string) {
    |s| == 5 && IsDigit(s[0]) && IsDigit(s[1]) && s[2] == ':' && IsDigit(s[3]) && IsDigit(s[4])
  }

  /** The minutes since midnight that a "HH:MM" string denotes. */
  function MinutesOfDay(s: string): nat
    requires IsClockTime(s)
  {
    (10 * DigitValue(s[0]) + DigitValue(s[1])) * 60 + 10 * DigitValue(s[3]) + DigitValue(s[4])
  }

  lemma SlotAtMinutes(startHour: nat, k: nat)
    requires startHour + k / 2 < 100
    ensures IsClockTime(SlotAt(startHour, k))
    ensures MinutesOfDay(SlotAt(startHour, k)) == 60 * startHour + Interval * k
  {
    var h := startHour + k / 2;
    HourLabelTwoDigits(h);
    assert DigitValue(DigitChar(h / 10)) == h / 10;
    assert DigitValue(DigitChar(h % 10)) == h % 10;
    assert 10 * (h / 10) + h % 10 == h;
    assert k == 2 * (k / 2) + k % 2;
  }

  /** For hours below 100 every generated slot is a "HH:MM" time; the `k`-th
      slot starts `Interval * k` minutes after opening, so consecutive slots
      are exactly one interval apart, the list is strictly ascending, and
      every slot starts before the closing hour. */
  lemma TimeSlotsAreOrderedClockTimes(startHour: nat, endHour: nat)
    requires endHour <= 100
    ensures forall k :: 0 <= k < |TimeSlots(startHour, endHour)| ==>
              IsClockTime(TimeSlots(startHour, endHour)[k])
              && MinutesOfDay(TimeSlots(startHour, endHour)[k]) == 60 * startHour + Interval * k
              && MinutesOfDay(TimeSlots(startHour, endHour)[k]) < 60 * endHour
    ensures forall k :: 0 <= k < |TimeSlots(startHour, endHour)| - 1 ==>
              MinutesOfDay(TimeSlots(startHour, endHour)[k + 1]) == MinutesOfDay(TimeSlots(startHour, endHour)[k]) + Interval
    ensures forall i, j :: 0 <= i < j < |TimeSlots(startHour, endHour)| ==>
              MinutesOfDay(TimeSlots(startHour, endHour)[i]) < MinutesOfDay(TimeSlots(startHour, endHour)[j])
  {
    var slots := TimeSlots(startHour, endHour);
    TimeSlotsShape(startHour, endHour);
    forall k | 0 <= k < |slots|
      ensures IsClockTime(slots[k]) && MinutesOfDay(slots[k]) == 60 * startHour + Interval * k
    {
      SlotAtMinutes(startHour, k);
    }
  }

  /** The opening state of a day: closed, or open until a closing hour. */
  datatype DayHours = Closed | Open(endHour: nat)

  /** The day rule of `updateAvailableHours`. */
  function HoursFor(day: DayOfWeek): DayHours {
    if day == 0 then Closed else Open(if day == 6 then SaturdayEndHour else EndHour)
  }

  /** The slots offered on a day of the week (none when closed). */
  function DaySlots(day: DayOfWeek): seq<string> {
    match HoursFor(day)
    case Closed => []
    case Open(endHour) => TimeSlots(StartHour, endHour)
  }

  /** The `k`-th slot of a day opening at 08:00 whose hour is `h`. */
  lemma SlotAtFromEight(k: nat, hour: nat, half: bool)
    requires 8 + k / 2 == hour < 100 && (k % 2 == 1 <==> half)
    ensures SlotAt(StartHour, k) == [DigitChar(hour / 10), DigitChar(hour % 10)] + (if half then ":30" else ":00")
  {
    HourLabelTwoDigits(hour);
  }

  /** Sunday is closed. */
  lemma SundayClosed(day: DayOfWeek)
    ensures HoursFor(day) == Closed <==> day == 0
    ensures day == 0 ==> DaySlots(day) == []
  {
  }

  /** Saturday runs from 08:00 to 13:30: 12 slots. */
  lemma SaturdaySlots()
    ensures HoursFor(6) == Open(14)
    ensures |DaySlots(6)| == 12 && DaySlots(6)[0] == "08:00" && DaySlots(6)[11] == "13:30"
  {
    TimeSlotsShape(StartHour, SaturdayEndHour);
    SlotAtFromEight(0, 8, false);
    SlotAtFromEight(11, 13, true);
  }

  /** Monday to Friday run from 08:00 to 17:30: 20 slots. */
  lemma WeekdaySlots(day: DayOfWeek)
    requires 1 <= day <= 5
    ensures HoursFor(day) == Open(18)
    ensures |DaySlots(day)| == 20 && DaySlots(day)[0] == "08:00" && DaySlots(day)[19] == "17:30"
  {
    TimeSlotsShape(StartHour, EndHour);
    SlotAtFromEight(0, 8, false);
    SlotAtFromEight(19, 17, true);
  }
}
