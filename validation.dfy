/** `validateAppointment`: an ordered chain of field checks in which the first
    failing check decides the rejection. */
module Validation {
  import opened Text
  import opened Appointments
  import opened PhoneMask

  /** A phone number needs at least this many digits. */
  const MinPhoneDigits: nat := 11

  /** Why a booking form is refused, one reason per check, in check order. */
  datatype Rejection = MissingName | InvalidPhone | MissingService | MissingBarber | MissingDate | MissingTime

  datatype Verdict = Accepted | Rejected(reason: Rejection)

  /** The phone check: not blank, and at least 11 digits once non-digits are removed. */
  predicate PhoneAccepted(phone: string) {
    !(Trim(phone) == [] || |Digits(phone)| < MinPhoneDigits)
  }

  /** The chain of checks over the six form fields, first failure first. */
  function CheckFields(name: string, phone: string, service: string, barber: string, date: string, time: string): Verdict {
    if Trim(name) == [] then Rejected(MissingName)
    else if !PhoneAccepted(phone) then Rejected(InvalidPhone)
    else if service == [] then Rejected(MissingService)
    else if barber == [] then Rejected(MissingBarber)
    else if date == [] then Rejected(MissingDate)
    else if time == [] then Rejected(MissingTime)
    else Accepted
  }

  /** `validateAppointment(data)`; the notification it shows is not modelled. */
  function ValidateAppointment(data: Appointment): Verdict {
    CheckFields(data.name, data.phone, data.service, data.barber, data.date, data.time)
  }

  /** A string holds a character that is not whitespace. */
  predicate HasVisibleChar(s: string) {
    exists i :: 0 <= i < |s| && !IsWhitespace(s[i])
  }

  /** A form is accepted exactly when the name has a visible character, the
      phone has a visible character and at least 11 digits, and service,
      barber, date and time are non-empty. Nothing else is examined: not the
      catalog, not the booking window, not the slot list. */
  lemma AcceptedIff(data: Appointment)
    ensures ValidateAppointment(data) == Accepted <==>
              HasVisibleChar(data.name)
              && HasVisibleChar(data.phone) && |Digits(data.phone)| >= 11
              && data.service != [] && data.barber != [] && data.date != [] && data.time != []
  {
    TrimEmptyIffBlank(data.name);
    TrimEmptyIffBlank(data.phone);
  }

  /** Each rejection reason is reported exactly when its own check fails and
      every earlier check passes. */
  lemma FirstFailureWins(data: Appointment)
    ensures ValidateAppointment(data) == Rejected(MissingName) <==> !HasVisibleChar(data.name)
    ensures ValidateAppointment(data) == Rejected(InvalidPhone) <==>
              HasVisibleChar(data.name) && (!HasVisibleChar(data.phone) || |Digits(data.phone)| < 11)
    ensures ValidateAppointment(data) == Rejected(MissingService) <==>
              HasVisibleChar(data.name) && PhoneAccepted(data.phone) && data.service == []
    ensures ValidateAppointment(data) == Rejected(MissingBarber) <==>
              HasVisibleChar(data.name) && PhoneAccepted(data.phone) && data.service != [] && data.barber == []
    ensures ValidateAppointment(data) == Rejected(MissingDate) <==>
              HasVisibleChar(data.name) && PhoneAccepted(data.phone) && data.service != [] && data.barber != []
              && data.date == []
    ensures ValidateAppointment(data) == Rejected(MissingTime) <==>
              HasVisibleChar(data.name) && PhoneAccepted(data.phone) && data.service != [] && data.barber != []
              && data.date != [] && data.time == []
  {
    TrimEmptyIffBlank(data.name);
    TrimEmptyIffBlank(data.phone);
  }

  /** The verdict depends only on the six form fields: id, status and
      creation time play no part. */
  lemma VerdictIgnoresBookkeeping(data: Appointment, id: string, status: Status, createdAt: string)
    ensures ValidateAppointment(data.(id := id, status := status, createdAt := createdAt)) == ValidateAppointment(data)
  {
  }

  /** A phone with at least 11 digits is never blank, so the phone check is
      the digit count alone. */
  lemma PhoneAcceptedIffElevenDigits(phone: string)
    ensures PhoneAccepted(phone) <==> |Digits(phone)| >= MinPhoneDigits
  {
    if |Digits(phone)| >= MinPhoneDigits {
      TrimEmptyIffBlank(phone);
      var d := Digits(phone);
      assert IsDigit(d[0]);
      DigitInSource(phone);
    }
  }

  /** A string whose digit list is non-empty contains a digit, hence a
      character that is not whitespace. */
  lemma {:induction false} DigitInSource(s: string)
    requires Digits(s) != []
    ensures HasVisibleChar(s)
  {
    if IsDigit(s[0]) {
      assert !IsWhitespace(s[0]);
    } else {
      DigitInSource(s[1..]);
      var i :| 0 <= i < |s[1..]| && !IsWhitespace(s[1..][i]);
      assert s[i + 1] == s[1..][i];
    }
  }

  /** Any non-empty service, barber, date and time pass: an accepted form
      stays accepted with a service or barber outside the catalog, a date
      outside the booking window or a time that is not a generated slot. */
  lemma CatalogWindowAndSlotUnchecked(data: Appointment, service: string, barber: string, date: string, time: string)
    ensures ValidateAppointment(data) == Accepted && service != [] && barber != [] && date != [] && time != [] ==>
              ValidateAppointment(data.(service := service, barber := barber, date := date, time := time)) == Accepted
  {
  }

  /** A value left in the field by the phone mask passes the phone check
      exactly when at least 11 digits were typed. */
  lemma MaskedPhoneAccepted(input: string)
    ensures PhoneAccepted(MaskPhone(input)) <==> |Digits(input)| >= MinPhoneDigits
  {
    MaskKeepsDigits(input);
    PhoneAcceptedIffElevenDigits(MaskPhone(input));
  }
}
