/** The booking system object: the appointment list it owns, the commit of a
    booking form and the cancellation of an appointment. */
module Booking {
  import opened Appointments
  import opened Validation

  /** The six values `handleBooking` reads from the form. */
  datatype BookingForm = BookingForm(name: string, phone: string, service: string, barber: string, date: string, time: string)

  /** How a submission ends: stored, refused by validation, or refused because
      the slot was taken in the meantime. */
  datatype BookingOutcome = Booked(appointment: Appointment) | Invalid(reason: Rejection) | SlotTaken

  /** `appointmentData`: the form values with the given id, status
      `Confirmed` and the given creation time. */
  function NewAppointment(form: BookingForm, id: string, createdAt: string): (a: Appointment)
    ensures a.status == Confirmed && a.id == id && a.createdAt == createdAt
    ensures a.name == form.name && a.phone == form.phone && a.service == form.service
            && a.barber == form.barber && a.date == form.date && a.time == form.time
  {
    Appointment(id, form.name, form.phone, form.service, form.barber, form.date, form.time, Confirmed, createdAt)
  }

  class BarbeariaSystem {
    /** `this.appointments`, in store order. */
    var appointments: seq<Appointment>

    /** Starts from the stored list (read from local storage in the original). */
    constructor (stored: seq<Appointment>)
      ensures appointments == stored
    {
      appointments := stored;
    }

    /** The commit part of `handleBooking`: validate, re-check the slot
        against `getBookedSlots`, and only then append the new record. */
    method HandleBooking(form: BookingForm, id: string, createdAt: string) returns (outcome: BookingOutcome)
      modifies this
      ensures var data := NewAppointment(form, id, createdAt);
              match outcome
              case Invalid(reason) =>
                ValidateAppointment(data) == Rejected(reason) && appointments == old(appointments)
              case SlotTaken =>
                ValidateAppointment(data) == Accepted
                && data.time in BookedSlots(old(appointments), data.date, data.barber)
                && appointments == old(appointments)
              case Booked(a) =>
                ValidateAppointment(data) == Accepted
                && data.time !in BookedSlots(old(appointments), data.date, data.barber)
                && a == data && appointments == old(appointments) + [a]
      ensures ConflictFree(old(appointments)) ==> ConflictFree(appointments)
    {
      var data := NewAppointment(form, id, createdAt);
      var verdict := ValidateAppointment(data);
      if verdict.Rejected? {
        return Invalid(verdict.reason);
      }
      var bookedSlots := BookedSlots(appointments, data.date, data.barber);
      if data.time in bookedSlots {
        return SlotTaken;
      }
      if ConflictFree(appointments) {
        AppendKeepsConflictFree(appointments, data);
      }
      appointments := appointments + [data];
      outcome := Booked(data);
    }

    /** `cancelAppointment(appointmentId)`, with the answer to the
        confirmation dialog as `confirmed`: finds the first record with the
        id and sets its status to `Cancelled`; an unknown id changes nothing. */
    method CancelAppointment(appointmentId: string, confirmed: bool)
      modifies this
      ensures appointments == if confirmed then CancelFirst(old(appointments), appointmentId) else old(appointments)
      ensures ConflictFree(old(appointments)) ==> ConflictFree(appointments)
    {
      if !confirmed {
        return;
      }
      var i := 0;
      while i < |appointments| && appointments[i].id != appointmentId
        invariant 0 <= i <= |appointments|
        invariant forall k :: 0 <= k < i ==> appointments[k].id != appointmentId
      {
        i := i + 1;
      }
      var appointmentIndex := if i < |appointments| then i else -1;
      if appointmentIndex == -1 {
        return;
      }
      if ConflictFree(appointments) {
        CancelKeepsConflictFree(appointments, appointmentId);
      }
      appointments := appointments[appointmentIndex := appointments[appointmentIndex].(status := Cancelled)];
    }
  }

  /** Two submissions of the same valid form for a free slot: the first is
      booked, the second finds the slot taken, and the store gains exactly
      one record. */
  method BookSameSlotTwice(stored: seq<Appointment>, form: BookingForm, firstId: string, secondId: string,
                           firstAt: string, secondAt: string)
    returns (first: BookingOutcome, second: BookingOutcome, store: seq<Appointment>)
    requires ValidateAppointment(NewAppointment(form, firstId, firstAt)) == Accepted
    requires form.time !in BookedSlots(stored, form.date, form.barber)
    ensures first == Booked(NewAppointment(form, firstId, firstAt))
    ensures second == SlotTaken
    ensures store == stored + [NewAppointment(form, firstId, firstAt)]
    ensures ConflictFree(stored) ==> ConflictFree(store)
  {
    var system := new BarbeariaSystem(stored);
    first := system.HandleBooking(form, firstId, firstAt);
    BookedSlotsAppend(stored, NewAppointment(form, firstId, firstAt), form.date, form.barber);
    VerdictIgnoresBookkeeping(NewAppointment(form, firstId, firstAt), secondId, Confirmed, secondAt);
    second := system.HandleBooking(form, secondId, secondAt);
    store := system.appointments;
  }

  /** A record appended after records that all have other ids is the first
      with its id. */
  lemma FirstIndexOfFreshRecord(stored: seq<Appointment>, a: Appointment)
    requires forall k :: 0 <= k < |stored| ==> stored[k].id != a.id
    ensures FirstIndex(stored + [a], a.id) == |stored|
  {
    var s := stored + [a];
    assert s[|stored|].id == a.id;
    assert forall k :: 0 <= k < |stored| ==> s[k].id != a.id;
  }

  /** Cancelling the id of a record just appended, when no earlier record
      has that id, marks exactly that record, and the slot it held is then
      as free as it was before the booking. */
  lemma CancelFreshRecord(stored: seq<Appointment>, a: Appointment)
    requires forall k :: 0 <= k < |stored| ==> stored[k].id != a.id
    ensures CancelFirst(stored + [a], a.id) == stored + [a.(status := Cancelled)]
    ensures forall date, barber ::
              BookedSlots(stored + [a.(status := Cancelled)], date, barber) == BookedSlots(stored, date, barber)
  {
    FirstIndexOfFreshRecord(stored, a);
    assert (stored + [a])[|stored| := a.(status := Cancelled)] == stored + [a.(status := Cancelled)];
    forall date, barber
      ensures BookedSlots(stored + [a.(status := Cancelled)], date, barber) == BookedSlots(stored, date, barber)
    {
      BookedSlotsAppend(stored, a.(status := Cancelled), date, barber);
    }
  }

  /** Book a free slot, cancel that booking by its id, and book the same slot
      again: the cancelled record no longer blocks the slot. */
  method CancelThenRebook(stored: seq<Appointment>, form: BookingForm, firstId: string, secondId: string,
                          firstAt: string, secondAt: string)
    returns (first: BookingOutcome, second: BookingOutcome, store: seq<Appointment>)
    requires ValidateAppointment(NewAppointment(form, firstId, firstAt)) == Accepted
    requires form.time !in BookedSlots(stored, form.date, form.barber)
    requires forall k :: 0 <= k < |stored| ==> stored[k].id != firstId
    ensures first == Booked(NewAppointment(form, firstId, firstAt))
    ensures second == Booked(NewAppointment(form, secondId, secondAt))
    ensures store == stored + [NewAppointment(form, firstId, firstAt).(status := Cancelled)] + [NewAppointment(form, secondId, secondAt)]
  {
    var a := NewAppointment(form, firstId, firstAt);
    var b := NewAppointment(form, secondId, secondAt);
    var c := a.(status := Cancelled);
    var system := new BarbeariaSystem(stored);
    first := system.HandleBooking(form, firstId, firstAt);
    assert first == Booked(a);
    assert system.appointments == stored + [a];
    system.CancelAppointment(firstId, true);
    assert system.appointments == stored + [c] by {
      CancelFreshRecord(stored, a);
    }
    assert ValidateAppointment(b) == Accepted by {
      VerdictIgnoresBookkeeping(a, secondId, Confirmed, secondAt);
    }
    assert b.time !in BookedSlots(system.appointments, b.date, b.barber) by {
      CancelFreshRecord(stored, a);
    }
    second := system.HandleBooking(form, secondId, secondAt);
    assert second == Booked(b);
    store := system.appointments;
  }
}
