/** Appointment records and the queries over the appointment list: the times
    a barber already has taken on a date, the first record with an id, and
    the conflict-freedom invariant. */
module Appointments {

  /** The `status` field; the booking form only ever writes `Confirmed`. */
  datatype Status = Confirmed | Pending | Cancelled

  /** One stored appointment, with the fields `handleBooking` fills in. */
  datatype Appointment = Appointment(
    id: string,
    name: string,
    phone: string,
    service: string,
    barber: string,
    date: string,
    time: string,
    status: Status,
    createdAt: string)

  /** The filter of `getBookedSlots`: same date, same barber, not cancelled. */
  predicate Occupies(a: Appointment, date: string, barber: string) {
    a.date == date && a.barber == barber && a.status != Cancelled
  }

  /** `getBookedSlots(date, barber)`: the times of the non-cancelled
      appointments of `barber` on `date`, in store order. */
  function BookedSlots(appointments: seq<Appointment>, date: string, barber: string): (r: seq<string>)
    ensures |r| <= |appointments|
  {
    if appointments == [] then []
    else
      var last := appointments[|appointments| - 1];
      BookedSlots(appointments[..|appointments| - 1], date, barber) + (if Occupies(last, date, barber) then [last.time] else [])
  }

  /** A time is in `getBookedSlots(date, barber)` exactly when some
      non-cancelled appointment of that barber on that date has that time. */
  lemma {:induction false} BookedSlotsMembership(appointments: seq<Appointment>, date: string, barber: string, t: string)
    ensures t in BookedSlots(appointments, date, barber) <==>
              exists i :: 0 <= i < |appointments| && Occupies(appointments[i], date, barber) && appointments[i].time == t
  {
    if appointments != [] {
      var n := |appointments| - 1;
      var prefix := appointments[..n];
      BookedSlotsMembership(prefix, date, barber, t);
      if t in BookedSlots(appointments, date, barber) && t in BookedSlots(prefix, date, barber) {
        var i :| 0 <= i < |prefix| && Occupies(prefix[i], date, barber) && prefix[i].time == t;
        assert appointments[i] == prefix[i];
      }
      if i :| 0 <= i < |appointments| && Occupies(appointments[i], date, barber) && appointments[i].time == t {
        if i < n {
          assert prefix[i] == appointments[i];
        }
      }
    }
  }

  /** Appending a record adds its time to the booked slots exactly when it
      occupies the queried date and barber. */
  lemma BookedSlotsAppend(appointments: seq<Appointment>, a: Appointment, date: string, barber: string)
    ensures BookedSlots(appointments + [a], date, barber)
            == BookedSlots(appointments, date, barber) + (if Occupies(a, date, barber) then [a.time] else [])
  {
    assert (appointments + [a])[..|appointments|] == appointments;
  }

  /** Cancelled records never contribute a booked slot. */
  lemma {:induction false} CancelledNeverBooked(appointments: seq<Appointment>, date: string, barber: string)
    requires forall i :: 0 <= i < |appointments| ==> appointments[i].status == Cancelled
    ensures BookedSlots(appointments, date, barber) == []
  {
    if appointments != [] {
      var prefix := appointments[..|appointments| - 1];
      assert forall i :: 0 <= i < |prefix| ==> prefix[i] == appointments[i];
      CancelledNeverBooked(prefix, date, barber);
    }
  }

  /** No two non-cancelled appointments share the same (date, barber, time). */
  predicate ConflictFree(appointments: seq<Appointment>) {
    forall i, j :: 0 <= i < j < |appointments| && appointments[i].status != Cancelled && appointments[j].status != Cancelled
      ==> !(appointments[i].date == appointments[j].date && appointments[i].barber == appointments[j].barber
            && appointments[i].time == appointments[j].time)
  }

  /** Appending a record whose slot `getBookedSlots` does not list keeps the
      store conflict-free (the commit-time check of `handleBooking`). */
  lemma AppendKeepsConflictFree(appointments: seq<Appointment>, a: Appointment)
    requires ConflictFree(appointments)
    requires a.time !in BookedSlots(appointments, a.date, a.barber)
    ensures ConflictFree(appointments + [a])
  {
    BookedSlotsMembership(appointments, a.date, a.barber, a.time);
    var s := appointments + [a];
    forall i, j | 0 <= i < j < |s| && s[i].status != Cancelled && s[j].status != Cancelled
      ensures !(s[i].date == s[j].date && s[i].barber == s[j].barber && s[i].time == s[j].time)
    {
      if j == |appointments| && s[i].date == a.date && s[i].barber == a.barber && s[i].time == a.time {
        assert Occupies(appointments[i], a.date, a.barber);
      }
    }
  }

  /** `appointments.findIndex(apt => apt.id === id)`: the first index whose
      record has the id, or -1 when none has. */
  function FirstIndex(appointments: seq<Appointment>, id: string): (r: int)
    ensures -1 <= r < |appointments|
    ensures r == -1 <==> forall k :: 0 <= k < |appointments| ==> appointments[k].id != id
    ensures r != -1 ==> appointments[r].id == id && forall k :: 0 <= k < r ==> appointments[k].id != id
  {
    if appointments == [] then -1
    else if appointments[0].id == id then 0
    else
      var j := FirstIndex(appointments[1..], id);
      if j == -1 then -1 else j + 1
  }

  /** The state update of `cancelAppointment`: the first record with the id
      gets status `Cancelled`; with no such record nothing changes. */
  function CancelFirst(appointments: seq<Appointment>, id: string): seq<Appointment> {
    var i := FirstIndex(appointments, id);
    if i == -1 then appointments else appointments[i := appointments[i].(status := Cancelled)]
  }

  /** Cancelling an unknown id changes nothing; otherwise only the status of
      the first matching record changes, to `Cancelled`. */
  lemma CancelFirstEffect(appointments: seq<Appointment>, id: string)
    ensures |CancelFirst(appointments, id)| == |appointments|
    ensures (forall k :: 0 <= k < |appointments| ==> appointments[k].id != id) ==> CancelFirst(appointments, id) == appointments
    ensures forall k :: 0 <= k < |appointments| && appointments[k].id == id ==>
              var i := FirstIndex(appointments, id);
              i <= k && CancelFirst(appointments, id)[i] == appointments[i].(status := Cancelled)
    ensures forall k :: 0 <= k < |appointments| && k != FirstIndex(appointments, id) ==>
              CancelFirst(appointments, id)[k] == appointments[k]
  {
  }

  /** Cancelling keeps the store conflict-free. */
  lemma CancelKeepsConflictFree(appointments: seq<Appointment>, id: string)
    requires ConflictFree(appointments)
    ensures ConflictFree(CancelFirst(appointments, id))
  {
  }

  /** After a cancellation a time is booked for a (date, barber) exactly when
      some record other than the cancelled one books it; in a conflict-free
      store the slot of a cancelled active record therefore becomes free. */
  lemma CancelFreesSlot(appointments: seq<Appointment>, id: string, date: string, barber: string, t: string)
    requires FirstIndex(appointments, id) != -1
    ensures var i := FirstIndex(appointments, id);
            t in BookedSlots(CancelFirst(appointments, id), date, barber) <==>
              exists k :: 0 <= k < |appointments| && k != i && Occupies(appointments[k], date, barber) && appointments[k].time == t
    ensures var a := appointments[FirstIndex(appointments, id)];
            ConflictFree(appointments) && a.status != Cancelled ==>
              a.time !in BookedSlots(CancelFirst(appointments, id), a.date, a.barber)
  {
    var i := FirstIndex(appointments, id);
    var c := CancelFirst(appointments, id);
    var a := appointments[i];
    BookedSlotsMembership(c, date, barber, t);
    BookedSlotsMembership(c, a.date, a.barber, a.time);
    if t in BookedSlots(c, date, barber) {
      var k :| 0 <= k < |c| && Occupies(c[k], date, barber) && c[k].time == t;
      assert k != i && Occupies(appointments[k], date, barber);
    }
    if k :| 0 <= k < |appointments| && k != i && Occupies(appointments[k], date, barber) && appointments[k].time == t {
      assert c[k] == appointments[k];
    }
  }
}
