# Barbearia booking core, modelled in Dafny

The barbershop booking page keeps a list of appointments. For each one it
records the client, the service, the barber, the date and the start time.
This project models the logic under the page's DOM code:

- **Schedule** (`schedule.dfy`): builds the "HH:00"/"HH:30" slot list for the
  working hours (08 to 18, one slot per 30 minutes). A day-of-week rule
  closes Sunday and shortens Saturday to end at 14.
- **Appointments** (`appointments.dfy`): the appointment record and the
  queries the booking code runs over the list. These are the times a barber
  has already taken on a date (`getBookedSlots`) and the first record with a
  given id (`findIndex`). The module also states the conflict-freedom
  invariant: no two non-cancelled appointments share a (date, barber, time).
- **Availability** (`availability.dfy`): what the time picker offers. It is
  nothing before a date and a barber are chosen and "closed" on Sunday.
  Otherwise it is the day's slots, with a slot marked booked when
  `getBookedSlots` lists it.
- **Validation** (`validation.dfy`): the form check. Six checks run in a fixed
  order and the first failure decides the rejection reason.
- **PhoneMask** (`phone_mask.dfy`): the formatting the phone field applies on
  every input event.
- **Booking** (`booking.dfy`): the `BarbeariaSystem` class. It owns the
  appointment list and has the commit step of `handleBooking` and the state
  update of `cancelAppointment`. Two client methods run booking sequences
  through the class.
- **Text** (`text.dfy`): the JavaScript string operations used above:
  `toString`, `padStart(2, '0')`, `replace(/\D/g, '')` and `trim()`.

The pure parts (the day rule, `getBookedSlots`, `validateAppointment`, the
mask) are functions with lemmas. The parts that change state step by step
are methods with loops:
- the slot loop of `generateTimeSlots`;
- the push in `handleBooking`;
- the `findIndex` followed by an in-place status write in `cancelAppointment`.

Three inputs come from the browser in the original. Here they are
parameters:
- the day of the week (`getDay()` of the chosen date);
- the appointment id and creation time (`Date.now()`, `new Date()`);
- the answer to the confirmation dialog.

Where a stricter design is conceivable, the model follows what the code does:

- Validation only checks that service, barber, date and time are non-empty.
  It does not check that the barber or service is in the catalog, that the
  date lies in the booking window, or that the time is a generated slot
  (`Validation.CatalogWindowAndSlotUnchecked`).
- A new record's id is not checked against existing ids, and an id clash is
  not retried.
- Cancelling an id that no record has returns silently instead of reporting
  a not-found error (`Appointments.CancelFirstEffect`).
- The conflict check at commit time looks only at non-cancelled records with
  the same date and barber. So the invariant holds only if the stored list
  already satisfied it, and every preservation result is conditional on that.

## Model

| member | source | states |
|---|---|---|
| `Schedule.GenerateTimeSlots` | Barbearia/script.js:111-120 | the hour loop returns exactly the slot list `TimeSlots(startHour, endHour)`, pushing "HH:00" and, when the line-115 condition holds, "HH:30" per hour |
| `Schedule.SlotsUpToShape` | Barbearia/script.js:113-118 | with a 30-minute interval, each hour before the closing hour contributes two slots; after the hours start..upTo-1 there are 2*(upTo-start) slots and slot k is hour start+k/2, minute 00 for even k and 30 for odd k |
| `Schedule.TimeSlotsShape` | Barbearia/script.js:111-120 | `generateTimeSlots(start, end)` has 2*(end-start) slots (none when end <= start), namely "HH:00", "HH:30" for each hour start..end-1 |
| `Schedule.HourLabelTwoDigits` | Barbearia/script.js:114 | `hour.toString().padStart(2, '0')` is exactly the two decimal digits of an hour below 100 |
| `Schedule.SlotAtMinutes` | Barbearia/script.js:114-116 | slot k of a day opening at hour h is a "HH:MM" string denoting 60*h + 30*k minutes after midnight |
| `Schedule.TimeSlotsAreOrderedClockTimes` | Barbearia/script.js:111-120 | every slot is a "HH:MM" time; slot k starts 30*k minutes after opening; consecutive slots are one interval apart; the list is strictly ascending; every slot starts before the closing hour |
| `Schedule.SlotAtFromEight` | Barbearia/script.js:93 | slot k of a day opening at 08 is the two digits of hour 8+k/2 followed by ":00" or ":30" |
| `Schedule.SundayClosed` | Barbearia/script.js:84-88 | the day is closed exactly on day 0 (Sunday), and then no slots are offered |
| `Schedule.SaturdaySlots` | Barbearia/script.js:90-93 | day 6 (Saturday) closes at 14: 12 slots from "08:00" to "13:30" |
| `Schedule.WeekdaySlots` | Barbearia/script.js:18-22 | days 1 to 5 close at the working-hours end 18: 20 slots from "08:00" to "17:30" |
| `Appointments.BookedSlots` | Barbearia/script.js:122-126 | `getBookedSlots` returns no more times than there are appointments |
| `Appointments.BookedSlotsMembership` | Barbearia/script.js:122-126 | t is in `getBookedSlots(date, barber)` if and only if some appointment has that date, that barber, time t and a status other than cancelled |
| `Appointments.BookedSlotsAppend` | Barbearia/script.js:123-125 | appending a record adds its time at the end of the booked list exactly when it matches the date and barber and is not cancelled |
| `Appointments.CancelledNeverBooked` | Barbearia/script.js:124 | a list of cancelled records books no slot |
| `Appointments.AppendKeepsConflictFree` | Barbearia/script.js:149-158 | appending a record whose time `getBookedSlots` does not list for its date and barber keeps the list conflict-free |
| `Appointments.FirstIndex` | Barbearia/script.js:372-373 | `findIndex` by id gives -1 exactly when no record has the id; otherwise it gives the first index whose record has it |
| `Appointments.CancelFirstEffect` | Barbearia/script.js:372-375 | cancelling keeps the length; an unknown id changes nothing; otherwise only the first record with the id changes, and only its status, which becomes cancelled |
| `Appointments.CancelKeepsConflictFree` | Barbearia/script.js:375 | cancelling keeps a conflict-free list conflict-free |
| `Appointments.CancelFreesSlot` | Barbearia/script.js:372-375 | after cancelling, a time is booked for a (date, barber) exactly when a record other than the cancelled one books it; in a conflict-free list the slot of a cancelled active record becomes free |
| `Availability.AvailableHoursMarksBooked` | Barbearia/script.js:79-101 | with no date or no barber nothing is offered; on Sunday the picker shows closed; otherwise it offers exactly the day's slots in order, each marked booked exactly when a non-cancelled appointment of that barber on that date holds it |
| `Validation.AcceptedIff` | Barbearia/script.js:176-208 | a form is accepted if and only if the name has a non-whitespace character, the phone has a non-whitespace character and at least 11 digits, and service, barber, date and time are non-empty |
| `Validation.FirstFailureWins` | Barbearia/script.js:176-205 | each rejection reason (name, phone, service, barber, date, time) is reported exactly when its own check fails and every earlier check passes |
| `Validation.VerdictIgnoresBookkeeping` | Barbearia/script.js:176-208 | the verdict depends on the six form fields only, not on id, status or creation time |
| `Validation.PhoneAcceptedIffElevenDigits` | Barbearia/script.js:182 | the phone check passes exactly when the phone has at least 11 digits, since such a phone is never blank |
| `Validation.DigitInSource` | Barbearia/script.js:182 | a string with at least one digit has a character that is not whitespace |
| `Validation.CatalogWindowAndSlotUnchecked` | Barbearia/script.js:187-205 | an accepted form stays accepted with any non-empty service, barber, date and time: catalog membership, the date window and the slot list are not checked |
| `Validation.MaskedPhoneAccepted` | Barbearia/script.js:60-67 | a value left by the phone mask passes the phone check exactly when at least 11 digits were typed |
| `PhoneMask.FormatKeepsDigitsMobile` | Barbearia/script.js:61-62 | for 11 or more digits, removing the non-digits from "(DD) DDDDD-DDDD" plus the remaining digits gives back the input |
| `PhoneMask.FormatKeepsDigitsLandline` | Barbearia/script.js:63-64 | for 7 to 10 digits, removing the non-digits from "(DD) DDDD-rest" gives back the input |
| `PhoneMask.FormatKeepsDigitsShort` | Barbearia/script.js:65-66 | for 3 to 6 digits, removing the non-digits from "(DD) rest" gives back the input |
| `PhoneMask.FormatKeepsDigits` | Barbearia/script.js:60-67 | for a digits-only string, stripping the non-digits from the formatted output gives back the input |
| `PhoneMask.MaskKeepsDigits` | Barbearia/script.js:59-68 | the mask never adds or loses a digit: the masked value's digits are the typed value's digits, in order |
| `PhoneMask.MaskIdempotent` | Barbearia/script.js:59-68 | masking an already masked value changes nothing |
| `PhoneMask.ElevenDigitsMobileLayout` | Barbearia/script.js:61-62 | exactly 11 digits are shown as "(DD) DDDDD-DDDD", digits in typed order |
| `PhoneMask.ShortInputIsBareDigits` | Barbearia/script.js:60-67 | with fewer than 3 digits the field holds just the digits |
| `Text.TrimEmptyIffBlank` | Barbearia/script.js:177 | `s.trim()` is empty exactly when every character of s is ECMAScript whitespace or a line terminator |
| `Booking.NewAppointment` | Barbearia/script.js:132-142 | the new record carries the six form values, the given id and creation time, and status confirmed |
| `Booking.BarbeariaSystem.constructor` | Barbearia/script.js:5-6 | the system starts with the stored appointment list |
| `Booking.BarbeariaSystem.HandleBooking` | Barbearia/script.js:144-159 | a form that fails validation is refused with the validator's reason and the list is unchanged; a valid form whose time `getBookedSlots` lists is refused as taken and the list is unchanged; otherwise exactly the new confirmed record is appended at the end and earlier records are untouched; conflict-freedom is preserved |
| `Booking.BarbeariaSystem.CancelAppointment` | Barbearia/script.js:367-375 | without confirmation nothing changes; with confirmation the list becomes `CancelFirst` of the old list (first record with the id cancelled, unknown id: no change); conflict-freedom is preserved |
| `Booking.BookSameSlotTwice` | Barbearia/script.js:145-158 | two submissions of the same valid form for a free slot: the first is booked, the second is refused as taken, and the list gains exactly one record |
| `Booking.FirstIndexOfFreshRecord` | Barbearia/script.js:372 | a record appended after records with other ids is the first with its id |
| `Booking.CancelFreshRecord` | Barbearia/script.js:372-375 | cancelling the just-appended record marks exactly that record, and the booked slots are then those before the booking |
| `Booking.CancelThenRebook` | Barbearia/script.js:367-375 | book a free slot, cancel that booking by id, and book the same slot again: both bookings succeed, and the list ends with the cancelled record followed by the new one |

## Left out

- DOM wiring and rendering are not modelled (`setupEventListeners`, the `<option>` elements of `updateAvailableHours`, `createAppointmentCard`, `showNotification`, scrolling, the submit spinner, the `DOMContentLoaded` handler). These are presentation only.
- `saveAppointments` and the `localStorage` read in the constructor are not modelled; they are foreign calls. The model is the in-memory list, and the stored list is a constructor parameter.
- `sendWhatsAppConfirmation`, `sendReminder` and `scheduleReminder` are not modelled. They build message text, open an external window and start a timer.
- `setMinDate` is not modelled. It reads the clock and time zone and only sets HTML attributes that validation never checks.
- Date parsing and `getDay()` are not modelled. The day of the week is a parameter, and dates are opaque strings compared for equality.
- The service-worker registration and the static barber and service catalogs are not modelled. The catalogs are used only for display lookups.
- Booking.BarbeariaSystem.HandleBooking: states the list right after the push. The `loadAppointments` call that follows sorts `this.appointments` in place by date and time. That reorder is not modelled, because it depends on `Date` parsing of `date + 'T' + time`.
- Booking.BarbeariaSystem.CancelAppointment: states the list right after the status write. The re-sort by the `loadAppointments` call that follows is not modelled, for the same reason.
- Booking.BarbeariaSystem.constructor: does not model the re-sort that `init` performs through `loadAppointments`.
- Schedule.GenerateTimeSlots: hours are natural numbers. The code only ever passes 8, 14 and 18, so negative or fractional hours are not modelled.
- Schedule.TimeSlotsAreOrderedClockTimes: requires a closing hour of at most 100. From hour 100 on, `toString` yields three digits and a slot is no longer "HH:MM".
- Appointments.Status: the status is a three-valued datatype (confirmed, pending, cancelled). Records read back from storage could hold any string; every string other than 'cancelled' blocks a slot just as confirmed does.
