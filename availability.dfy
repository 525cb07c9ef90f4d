/** The availability engine behind `updateAvailableHours`: the slots of the
    chosen day, each marked booked when `getBookedSlots` lists it. */
module Availability {
  import opened Schedule
  import opened Appointments

  /** One entry of the time picker. */
  datatype SlotOption = SlotOption(time: string, booked: bool)

  /** What the time picker offers for a (date, barber) choice. */
  datatype HoursView =
    | NoSelection                        // date or barber not chosen yet
    | ClosedOnSunday
    | Offered(options: seq<SlotOption>)

  /** The decisions of `updateAvailableHours` for a date whose weekday is `day`. */
  function AvailableHours(appointments: seq<Appointment>, date: string, barber: string, day: DayOfWeek): HoursView {
    if date == [] || barber == [] then NoSelection
    else match HoursFor(day)
      case Closed => ClosedOnSunday
      case Open(endHour) =>
        var slots := TimeSlots(StartHour, endHour);
        var booked := BookedSlots(appointments, date, barber);
        Offered(seq(|slots|, i requires 0 <= i < |slots| => SlotOption(slots[i], slots[i] in booked)))
  }

  /** Without a date or a barber nothing is offered; otherwise Sunday shows
      "closed" and any other day offers exactly that day's slots, in order,
      with a slot marked booked exactly when a non-cancelled appointment of
      the barber on the date holds it. */
  lemma AvailableHoursMarksBooked(appointments: seq<Appointment>, date: string, barber: string, day: DayOfWeek)
    ensures AvailableHours(appointments, date, barber, day) == NoSelection <==> date == [] || barber == []
    ensures AvailableHours(appointments, date, barber, day) == ClosedOnSunday <==> date != [] && barber != [] && day == 0
    ensures date != [] && barber != [] && day != 0 ==>
              var view := AvailableHours(appointments, date, barber, day);
              view.Offered? && |view.options| == |DaySlots(day)|
              && forall k :: 0 <= k < |view.options| ==>
                   view.options[k].time == DaySlots(day)[k]
                   && (view.options[k].booked <==>
                         exists i :: 0 <= i < |appointments| && Occupies(appointments[i], date, barber)
                                     && appointments[i].time == DaySlots(day)[k])
  {
    forall t | t in DaySlots(day) {
      BookedSlotsMembership(appointments, date, barber, t);
    }
  }
}
