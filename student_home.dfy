/** The student booking dashboard: the time slots offered for a day of the week, and
    the ledger of labs (free systems) and the student's bookings that booking and
    cancelling keep in step. */
module StudentHome {

  import opened Wrappers
  import opened Text
  import opened Schema
  import Seqs

  /** `hour.toString().padStart(2, "0")`. */
  function TwoDigits(hour: nat): string {
    PadStart(DecimalString(hour), 2, '0')
  }

  /** The clock text of a whole hour, e.g. "08:00". */
  function Clock(hour: nat): string {
    TwoDigits(hour) + ":00"
  }

  /** The slot from `hour` to the next hour, e.g. "08:00-09:00". */
  function Slot(hour: nat): string {
    Clock(hour) + "-" + Clock(hour + 1)
  }

  /** Below 100 the hour is written with exactly two digits. */
  lemma TwoDigitsText(hour: nat)
    requires hour < 100
    ensures TwoDigits(hour) == [Digit(hour / 10), Digit(hour % 10)]
  {
    if hour < 10 {
      assert DecimalString(hour) == [Digit(hour)];
      assert Digit(0) == '0';
    } else {
      assert DecimalString(hour) == DecimalString(hour / 10) + [Digit(hour % 10)];
      assert DecimalString(hour / 10) == [Digit(hour / 10)];
    }
  }

  /** The two digits read back as the hour. */
  lemma TwoDigitsValue(hour: nat)
    requires hour < 100
    ensures forall i | 0 <= i < |TwoDigits(hour)| :: '0' <= TwoDigits(hour)[i] <= '9'
    ensures DigitsValue(TwoDigits(hour)) == hour
  {
    TwoDigitsText(hour);
    var hi, lo := Digit(hour / 10), Digit(hour % 10);
    PairValue(hi, lo);
    assert (hi as int) - ('0' as int) == hour / 10;
    assert (lo as int) - ('0' as int) == hour % 10;
  }

  lemma PairValue(hi: char, lo: char)
    requires '0' <= hi <= '9' && '0' <= lo <= '9'
    ensures DigitsValue([hi, lo]) == ((hi as int) - ('0' as int)) * 10 + ((lo as int) - ('0' as int))
  {
    var s := [hi, lo];
    assert s[..1] == [hi] && [hi][..0] == [];
    assert DigitsValue([hi]) == DigitsValue([hi][..0]) * 10 + ((hi as int) - ('0' as int));
    assert DigitsValue(s) == DigitsValue(s[..1]) * 10 + ((s[1] as int) - ('0' as int));
  }

  /** The text of a clock, character by character. */
  lemma ClockText(hour: nat)
    requires hour < 100
    ensures Clock(hour) == [Digit(hour / 10), Digit(hour % 10), ':', '0', '0']
  {
    TwoDigitsText(hour);
  }

  /** The text of the slot of `hour`, given the texts of its two clocks. */
  lemma SlotIs(hour: nat, a: char, b: char, c: char, d: char)
    requires Clock(hour) == [a, b, ':', '0', '0'] && Clock(hour + 1) == [c, d, ':', '0', '0']
    ensures Slot(hour) == [a, b, ':', '0', '0', '-', c, d, ':', '0', '0']
  {
    DashJoin(Clock(hour), Clock(hour + 1), a, b, c, d);
  }

  lemma DashJoin(start: string, end: string, a: char, b: char, c: char, d: char)
    requires start == [a, b, ':', '0', '0'] && end == [c, d, ':', '0', '0']
    ensures start + "-" + end == [a, b, ':', '0', '0', '-', c, d, ':', '0', '0']
  {
  }

  /** A clock text has no '-', so a slot splits into its two clock texts. */
  lemma SlotParts(hour: nat)
    requires hour < 99
    ensures Split(Slot(hour), '-') == [Clock(hour), Clock(hour + 1)]
  {
    ClockHasNoDash(hour);
    ClockHasNoDash(hour + 1);
    SplitPair(Clock(hour), Clock(hour + 1), '-');
  }

  lemma ClockHasNoDash(hour: nat)
    requires hour < 100
    ensures '-' !in Clock(hour)
  {
    ClockText(hour);
  }

  /** The slots `getTimeSlots` offers on day `day` (Sunday = 0 … Saturday = 6). */
  function TimeSlots(day: int): seq<string> {
    if day == 0 || day == 6 then seq(13, i requires 0 <= i < 13 => Slot(8 + i))
    else ["18:00-19:00", "19:00-20:00", "20:00-21:00"]
  }

  /** `getTimeSlots`: on a weekend the loop over the hours 8 to 20, otherwise the three evening slots. */
  method GetTimeSlots(day: int) returns (slots: seq<string>)
    requires 0 <= day <= 6
    ensures day == 0 || day == 6 ==> |slots| == 13 && forall i | 0 <= i < 13 :: slots[i] == Slot(8 + i)
    ensures day != 0 && day != 6 ==> slots == ["18:00-19:00", "19:00-20:00", "20:00-21:00"]
    ensures slots == TimeSlots(day)
  {
    if day == 0 || day == 6 {
      slots := [];
      for hour := 8 to 21
        invariant |slots| == hour - 8
        invariant forall i | 0 <= i < |slots| :: slots[i] == Slot(8 + i)
      {
        var start := TwoDigits(hour) + ":00";
        var end := TwoDigits(hour + 1) + ":00";
        slots := slots + [start + "-" + end];
      }
    } else {
      slots := ["18:00-19:00", "19:00-20:00", "20:00-21:00"];
    }
  }

  /** The first hour offered: 8 on a weekend, 18 otherwise. */
  function FirstHour(day: int): nat {
    if day == 0 || day == 6 then 8 else 18
  }

  /** The slot of an hour below 99, character by character, given the digits of its two clocks. */
  lemma SlotChars(h: nat, a: char, b: char, c: char, d: char)
    requires h < 99
    requires a == Digit(h / 10) && b == Digit(h % 10) && c == Digit((h + 1) / 10) && d == Digit((h + 1) % 10)
    ensures Slot(h) == [a, b, ':', '0', '0', '-', c, d, ':', '0', '0']
  {
    ClockText(h);
    ClockText(h + 1);
    SlotIs(h, a, b, c, d);
  }

  lemma SlotOf8(h: nat)
    requires h == 8
    ensures Slot(h) == "08:00-09:00"
  {
    assert h / 10 == 0 && h % 10 == 8 && (h + 1) / 10 == 0 && (h + 1) % 10 == 9;
    SlotChars(h, '0', '8', '0', '9');
  }

  lemma SlotOf18(h: nat)
    requires h == 18
    ensures Slot(h) == "18:00-19:00"
  {
    assert h / 10 == 1 && h % 10 == 8 && (h + 1) / 10 == 1 && (h + 1) % 10 == 9;
    SlotChars(h, '1', '8', '1', '9');
  }

  lemma SlotOf19(h: nat)
    requires h == 19
    ensures Slot(h) == "19:00-20:00"
  {
    assert h / 10 == 1 && h % 10 == 9 && (h + 1) / 10 == 2 && (h + 1) % 10 == 0;
    SlotChars(h, '1', '9', '2', '0');
  }

  lemma SlotOf20(h: nat)
    requires h == 20
    ensures Slot(h) == "20:00-21:00"
  {
    assert h / 10 == 2 && h % 10 == 0 && (h + 1) / 10 == 2 && (h + 1) % 10 == 1;
    SlotChars(h, '2', '0', '2', '1');
  }

  /** The three literal weekday slots are the slots of the hours 18, 19 and 20. */
  lemma WeekdaySlot(i: nat)
    requires i < 3
    ensures ["18:00-19:00", "19:00-20:00", "20:00-21:00"][i] == Slot(18 + i)
  {
    if i == 0 {
      SlotOf18(18 + i);
    } else if i == 1 {
      SlotOf19(18 + i);
    } else {
      SlotOf20(18 + i);
    }
  }

  /** The weekend starts with "08:00-09:00". */
  lemma WeekendFirst(day: int)
    requires day == 0 || day == 6
    ensures |TimeSlots(day)| == 13 && TimeSlots(day)[0] == "08:00-09:00"
  {
    SlotOf8(FirstHour(day));
  }

  /** Every day's slots are the slots of consecutive hours, ending with the hour 20. */
  lemma TimeSlotsConsecutive(day: int)
    ensures |TimeSlots(day)| == 21 - FirstHour(day)
    ensures forall i | 0 <= i < |TimeSlots(day)| :: TimeSlots(day)[i] == Slot(FirstHour(day) + i)
  {
    if day != 0 && day != 6 {
      forall i | 0 <= i < 3 ensures TimeSlots(day)[i] == Slot(FirstHour(day) + i) {
        WeekdaySlot(i);
      }
    }
  }

  /** One slot's end is the next slot's start: the offered slots leave no gap and do not overlap. */
  lemma SlotsAbut(day: int)
    ensures forall i | 0 <= i < |TimeSlots(day)| - 1 ::
              Part(Split(TimeSlots(day)[i], '-'), 1) == Some(Split(TimeSlots(day)[i + 1], '-')[0])
  {
    TimeSlotsConsecutive(day);
    var slots, first := TimeSlots(day), FirstHour(day);
    forall i | 0 <= i < |slots| - 1
      ensures Part(Split(slots[i], '-'), 1) == Some(Split(slots[i + 1], '-')[0])
    {
      SlotParts(first + i);
      SlotParts(first + i + 1);
    }
  }

  /** `slot` runs from the clock of some hour from 8 to 20 to the clock of the next hour. */
  ghost predicate WithinOpeningHours(slot: string) {
    exists h: nat | 8 <= h <= 20 :: Split(slot, '-') == [Clock(h), Clock(h + 1)]
  }

  /** Every offered slot lies within the opening hours: none starts before 08:00 or ends
      after 21:00 (the clock of an hour reads back as that hour, `TwoDigitsValue`). */
  lemma SlotsWithinOpeningHours(day: int)
    ensures forall i | 0 <= i < |TimeSlots(day)| :: WithinOpeningHours(TimeSlots(day)[i])
  {
    TimeSlotsConsecutive(day);
    forall i | 0 <= i < |TimeSlots(day)| ensures WithinOpeningHours(TimeSlots(day)[i]) {
      var h: nat := FirstHour(day) + i;
      SlotParts(h);
    }
  }

  /** `labs` with the capacity of every lab with id `labId` moved by `delta`. */
  function WithCapacity(labs: seq<Lab>, labId: string, delta: int): (r: seq<Lab>)
    ensures |r| == |labs|
    ensures forall i | 0 <= i < |labs| :: r[i] == labs[i].(capacity := r[i].capacity)
    ensures forall i | 0 <= i < |labs| ::
              r[i].capacity == if labs[i].labId == labId then labs[i].capacity + delta else labs[i].capacity
  {
    seq(|labs|, i requires 0 <= i < |labs| =>
      if labs[i].labId == labId then labs[i].(capacity := labs[i].capacity + delta) else labs[i])
  }

  /** Restoring after decrementing gives back the labs, and the other way round. */
  lemma CapacityRoundTrip(labs: seq<Lab>, labId: string)
    ensures WithCapacity(WithCapacity(labs, labId, -1), labId, 1) == labs
    ensures WithCapacity(WithCapacity(labs, labId, 1), labId, -1) == labs
  {
    var down, up := WithCapacity(labs, labId, -1), WithCapacity(labs, labId, 1);
    assert forall i | 0 <= i < |labs| :: WithCapacity(down, labId, 1)[i] == labs[i];
    assert forall i | 0 <= i < |labs| :: WithCapacity(up, labId, -1)[i] == labs[i];
  }

  /** `bookings` with the rows of `bookingId` marked "cancelled". */
  function Cancelled(bookings: seq<StudentBooking>, bookingId: string): (r: seq<StudentBooking>)
    ensures |r| == |bookings|
    ensures forall i | 0 <= i < |bookings| && bookings[i].bookingId == bookingId ::
              r[i] == bookings[i].(status := "cancelled")
    ensures forall i | 0 <= i < |bookings| && bookings[i].bookingId != bookingId :: r[i] == bookings[i]
  {
    if bookings == [] then []
    else [if bookings[0].bookingId == bookingId then bookings[0].(status := "cancelled") else bookings[0]]
         + Cancelled(bookings[1..], bookingId)
  }

  predicate IsActive(b: StudentBooking) {
    b.status == "active"
  }

  /** `bookings.find((b) => b.lab_id === labId && b.status === "active")` finds one. */
  predicate HasActiveFor(bookings: seq<StudentBooking>, labId: string) {
    exists i | 0 <= i < |bookings| :: bookings[i].labId == labId && IsActive(bookings[i])
  }

  /** The "Active Bookings" tab. */
  function ActiveBookings(bookings: seq<StudentBooking>): seq<StudentBooking> {
    Seqs.Filter(bookings, IsActive)
  }

  /** The "Booking History" tab: every booking, active and cancelled. */
  function BookingHistory(bookings: seq<StudentBooking>): seq<StudentBooking> {
    bookings
  }

  /** The active tab shows exactly the active bookings, in their order, each as often as it occurs. */
  lemma ActiveBookingsContents(bookings: seq<StudentBooking>)
    ensures forall b :: b in ActiveBookings(bookings) <==> b in bookings && IsActive(b)
    ensures forall b :: multiset(ActiveBookings(bookings))[b] == if IsActive(b) then multiset(bookings)[b] else 0
    ensures Seqs.IsSubsequence(ActiveBookings(bookings), bookings)
  {
    Seqs.FilterCount(bookings, IsActive);
    Seqs.FilterIsSubsequence(bookings, IsActive);
  }

  /** The student holds at most one active booking per lab. */
  predicate AtMostOneActive(bookings: seq<StudentBooking>) {
    forall i, j | 0 <= i < j < |bookings| && IsActive(bookings[i]) && IsActive(bookings[j]) ::
      bookings[i].labId != bookings[j].labId
  }

  /** `lab_id` is the key of the labs table. */
  predicate UniqueLabIds(labs: seq<Lab>) {
    forall i, j | 0 <= i < j < |labs| :: labs[i].labId != labs[j].labId
  }

  predicate NoNegativeCapacity(labs: seq<Lab>) {
    forall i | 0 <= i < |labs| :: labs[i].capacity >= 0
  }

  /** The capacity the booking form shows for the selected lab is no more than the lab's. */
  predicate SnapshotBounded(selected: Option<Lab>, labs: seq<Lab>) {
    selected.Some? ==>
      forall i | 0 <= i < |labs| && labs[i].labId == selected.value.labId :: selected.value.capacity <= labs[i].capacity
  }

  /** The first of `handleBookLab`'s checks that fails, if any. */
  function BookingGuard(student: Option<string>, selected: Option<Lab>, slot: string,
                        bookings: seq<StudentBooking>): Option<string>
  {
    if student.None? then Some("User not authenticated.")
    else if selected.None? then Some("No lab selected.")
    else if selected.value.capacity <= 0 then Some("No available systems in this lab.")
    else if slot == "" then Some("Please select a time slot.")
    else if HasActiveFor(bookings, selected.value.labId) then Some("You already have an active booking for this lab.")
    else None
  }

  /** Each message appears exactly when its check is the first to fail. */
  lemma BookingGuardOrder(student: Option<string>, selected: Option<Lab>, slot: string, bookings: seq<StudentBooking>)
    ensures var g := BookingGuard(student, selected, slot, bookings);
      && (g == Some("User not authenticated.") <==> student.None?)
      && (g == Some("No lab selected.") <==> student.Some? && selected.None?)
      && (g == Some("No available systems in this lab.") <==>
            student.Some? && selected.Some? && selected.value.capacity <= 0)
      && (g == Some("Please select a time slot.") <==>
            student.Some? && selected.Some? && selected.value.capacity > 0 && slot == "")
      && (g == Some("You already have an active booking for this lab.") <==>
            && student.Some? && selected.Some? && selected.value.capacity > 0 && slot != ""
            && HasActiveFor(bookings, selected.value.labId))
      && (g.None? <==>
            && student.Some? && selected.Some? && selected.value.capacity > 0 && slot != ""
            && !HasActiveFor(bookings, selected.value.labId))
  {
  }

  /** The row a booking adds: the slot split on '-' gives `from` and `to`. */
  function NewBooking(bookingId: string, studentId: string, lab: Lab, date: string, slot: string): StudentBooking {
    var parts := Split(slot, '-');
    StudentBooking(bookingId, studentId, lab.labId, date, parts[0], Part(parts, 1), "active")
  }

  /** A booking made for an offered slot runs from its start clock to its end clock. */
  lemma NewBookingTimes(bookingId: string, studentId: string, lab: Lab, date: string, hour: nat)
    requires hour < 99
    ensures NewBooking(bookingId, studentId, lab, date, Slot(hour)).from == Clock(hour)
    ensures NewBooking(bookingId, studentId, lab, date, Slot(hour)).to == Some(Clock(hour + 1))
  {
    SlotParts(hour);
  }

  class StudentBookingDashboard {
    var labs: seq<Lab>
    /** The lab whose booking form is open: a copy taken when it was clicked. */
    var selectedLab: Option<Lab>
    /** `formatDate(selectedDate)`. */
    var selectedDate: string
    var selectedSlot: string
    var bookings: seq<StudentBooking>
    /** The id of the signed-in user, once `getUser` has returned one. */
    var student: Option<string>
    var error: string
    var success: string

    ghost predicate Valid()
      reads this
    {
      && AtMostOneActive(bookings)
      && UniqueLabIds(labs)
      && NoNegativeCapacity(labs)
      && SnapshotBounded(selectedLab, labs)
    }

    constructor (date: string)
      ensures Valid()
      ensures labs == [] && selectedLab == None && selectedDate == date && selectedSlot == ""
      ensures bookings == [] && student == None && error == "" && success == ""
    {
      labs, selectedLab, selectedDate, selectedSlot := [], None, date, "";
      bookings, student, error, success := [], None, "", "";
    }

    /** `fetchUser`: the student is set only when a user comes back. */
    method FetchUser(user: Option<string>)
      modifies this`student
      ensures user.Some? ==> student == user
      ensures user.None? ==> student == old(student)
    {
      if user.Some? {
        student := user;
      }
    }

    /** `fetchLabs`, which the page runs only once a student is loaded. The ledger stays
        consistent when the rows are. */
    method FetchLabs(data: seq<Lab>, queryError: Option<string>)
      requires Valid()
      modifies this`labs
      ensures student.Some? && queryError.None? ==> labs == data
      ensures student.None? || queryError.Some? ==> labs == old(labs)
      ensures (labs == old(labs) ||
               (UniqueLabIds(data) && NoNegativeCapacity(data) && SnapshotBounded(selectedLab, data))) ==> Valid()
    {
      if student.Some? && queryError.None? {
        labs := data;
      }
    }

    /** `fetchBookings`: the student's rows of `student_bookings`, once a student is loaded. */
    method FetchBookings(data: seq<StudentBooking>, queryError: Option<string>)
      requires Valid()
      modifies this`bookings
      ensures student.Some? && queryError.None? ==> bookings == data
      ensures student.None? || queryError.Some? ==> bookings == old(bookings)
      ensures (bookings == old(bookings) || AtMostOneActive(data)) ==> Valid()
    {
      if student.Some? && queryError.None? {
        bookings := data;
      }
    }

    /** Clicking a lab card opens its booking form. */
    method SelectLab(lab: Lab)
      requires Valid() && lab in labs
      modifies this`selectedLab
      ensures Valid() && selectedLab == Some(lab)
    {
      selectedLab := Some(lab);
    }

    /** The form's Cancel button. */
    method CloseForm()
      requires Valid()
      modifies this`selectedLab
      ensures Valid() && selectedLab == None
    {
      selectedLab := None;
    }

    method SelectSlot(slot: string)
      modifies this`selectedSlot
      ensures selectedSlot == slot
    {
      selectedSlot := slot;
    }

    method SelectDate(date: string)
      modifies this`selectedDate
      ensures selectedDate == date
    {
      selectedDate := date;
    }

    /** `handleBookLab`: the checks in order, the insert, the capacity update, and then the
        new booking and the lowered capacity in the ledger. */
    method Book(bookingId: string, insertError: Option<string>, updateError: Option<string>)
      requires Valid()
      modifies this`labs, this`bookings, this`selectedLab, this`selectedSlot, this`error, this`success
      ensures Valid()
      ensures BookingGuard(old(student), old(selectedLab), old(selectedSlot), old(bookings)).Some? ==>
                && error == BookingGuard(old(student), old(selectedLab), old(selectedSlot), old(bookings)).value
                && success == ""
                && labs == old(labs) && bookings == old(bookings)
                && selectedLab == old(selectedLab) && selectedSlot == old(selectedSlot)
      ensures BookingGuard(old(student), old(selectedLab), old(selectedSlot), old(bookings)).None? && insertError.Some? ==>
                && error == "Booking failed: " + insertError.value && success == ""
                && labs == old(labs) && bookings == old(bookings)
                && selectedLab == old(selectedLab) && selectedSlot == old(selectedSlot)
      ensures (BookingGuard(old(student), old(selectedLab), old(selectedSlot), old(bookings)).None? &&
               insertError.None? && updateError.Some?) ==>
                && error == "Error updating lab capacity: " + updateError.value && success == ""
                && labs == old(labs) && bookings == old(bookings)
                && selectedLab == old(selectedLab) && selectedSlot == old(selectedSlot)
      ensures (BookingGuard(old(student), old(selectedLab), old(selectedSlot), old(bookings)).None? &&
               insertError.None? && updateError.None?) ==>
                && error == "" && success == "Booking successful!"
                && bookings == old(bookings) + [NewBooking(bookingId, old(student).value, old(selectedLab).value,
                                                            selectedDate, old(selectedSlot))]
                && labs == WithCapacity(old(labs), old(selectedLab).value.labId, -1)
                && selectedLab == None && selectedSlot == ""
    {
      error, success := "", "";
      if student.None? {
        error := "User not authenticated.";
        return;
      }
      if selectedLab.None? {
        error := "No lab selected.";
        return;
      }
      var lab := selectedLab.value;
      if lab.capacity <= 0 {
        error := "No available systems in this lab.";
        return;
      }
      if selectedSlot == "" {
        error := "Please select a time slot.";
        return;
      }
      if exists i | 0 <= i < |bookings| :: bookings[i].labId == lab.labId && IsActive(bookings[i]) {
        error := "You already have an active booking for this lab.";
        return;
      }
      var parts := Split(selectedSlot, '-');
      var row := StudentBooking(bookingId, student.value, lab.labId, selectedDate, parts[0], Part(parts, 1), "active");
      if insertError.Some? {
        error := "Booking failed: " + insertError.value;
        return;
      }
      if updateError.Some? {
        error := "Error updating lab capacity: " + updateError.value;
        return;
      }
      success := "Booking successful!";
      BookKeepsOneActive(bookings, row);
      bookings := bookings + [row];
      labs := WithCapacity(labs, lab.labId, -1);
      selectedLab := None;
      selectedSlot := "";
    }

    /** `handleCancelBooking`: the booking is marked cancelled and, when its lab is listed,
        that lab's capacity goes back up by one. */
    method Cancel(booking: StudentBooking, updateError: Option<string>, capacityError: Option<string>)
      requires Valid()
      modifies this`labs, this`bookings, this`error, this`success
      ensures Valid()
      ensures student.None? ==>
                error == "User not authenticated." && success == "" && labs == old(labs) && bookings == old(bookings)
      ensures student.Some? && updateError.Some? ==>
                && error == "Error cancelling booking: " + updateError.value && success == ""
                && labs == old(labs) && bookings == old(bookings)
      ensures (student.Some? && updateError.None? && capacityError.Some? &&
               (exists i | 0 <= i < |old(labs)| :: old(labs)[i].labId == booking.labId)) ==>
                && error == "Error updating lab capacity: " + capacityError.value && success == ""
                && labs == old(labs) && bookings == old(bookings)
      ensures (student.Some? && updateError.None? &&
               (capacityError.None? || !(exists i | 0 <= i < |old(labs)| :: old(labs)[i].labId == booking.labId))) ==>
                && error == "" && success == "Booking cancelled successfully."
                && bookings == Cancelled(old(bookings), booking.bookingId)
                && labs == WithCapacity(old(labs), booking.labId, 1)
    {
      error, success := "", "";
      if student.None? {
        error := "User not authenticated.";
        return;
      }
      if updateError.Some? {
        error := "Error cancelling booking: " + updateError.value;
        return;
      }
      if exists i | 0 <= i < |labs| :: labs[i].labId == booking.labId {
        if capacityError.Some? {
          error := "Error updating lab capacity: " + capacityError.value;
          return;
        }
        labs := WithCapacity(labs, booking.labId, 1);
      } else {
        UnlistedLabUnchanged(labs, booking.labId);
      }
      CancelKeepsOneActive(bookings, booking.bookingId);
      bookings := Cancelled(bookings, booking.bookingId);
      success := "Booking cancelled successfully.";
    }
  }

  /** Appending an active booking for a lab without one keeps at most one per lab. */
  lemma BookKeepsOneActive(bookings: seq<StudentBooking>, row: StudentBooking)
    requires AtMostOneActive(bookings) && !HasActiveFor(bookings, row.labId)
    ensures AtMostOneActive(bookings + [row])
  {
    var after := bookings + [row];
    forall i, j | 0 <= i < j < |after| && IsActive(after[i]) && IsActive(after[j])
      ensures after[i].labId != after[j].labId
    {
      assert after[i] == bookings[i];
      if j < |bookings| {
        assert after[j] == bookings[j];
      }
    }
  }

  /** Cancelling only turns active bookings into cancelled ones, so the bound survives. */
  lemma CancelKeepsOneActive(bookings: seq<StudentBooking>, bookingId: string)
    requires AtMostOneActive(bookings)
    ensures AtMostOneActive(Cancelled(bookings, bookingId))
  {
    var after := Cancelled(bookings, bookingId);
    forall i, j | 0 <= i < j < |after| && IsActive(after[i]) && IsActive(after[j])
      ensures after[i].labId != after[j].labId
    {
      assert IsActive(bookings[i]) && IsActive(bookings[j]);
    }
  }

  /** A lab id no lab has leaves the labs as they are. */
  lemma UnlistedLabUnchanged(labs: seq<Lab>, labId: string)
    requires !exists i | 0 <= i < |labs| :: labs[i].labId == labId
    ensures WithCapacity(labs, labId, 1) == labs
  {
    assert forall i | 0 <= i < |labs| :: WithCapacity(labs, labId, 1)[i] == labs[i];
  }

  /** Booking a lab and then cancelling that booking leaves the labs as they were, and the
      bookings with one more, cancelled, row. */
  method BookThenCancel(labs: seq<Lab>, bookings: seq<StudentBooking>, lab: Lab, studentId: string,
                        date: string, slot: string, bookingId: string)
    returns (labsAfter: seq<Lab>, bookingsAfter: seq<StudentBooking>)
    requires lab in labs && lab.capacity > 0 && slot != ""
    requires UniqueLabIds(labs) && NoNegativeCapacity(labs)
    requires AtMostOneActive(bookings) && !HasActiveFor(bookings, lab.labId)
    requires forall i | 0 <= i < |bookings| :: bookings[i].bookingId != bookingId
    ensures labsAfter == labs
    ensures bookingsAfter == bookings + [NewBooking(bookingId, studentId, lab, date, slot).(status := "cancelled")]
  {
    var page := new StudentBookingDashboard(date);
    page.FetchUser(Some(studentId));
    page.FetchLabs(labs, None);
    page.FetchBookings(bookings, None);
    page.SelectLab(lab);
    page.SelectSlot(slot);
    page.Book(bookingId, None, None);
    var made := NewBooking(bookingId, studentId, lab, date, slot);
    assert page.bookings == bookings + [made];
    assert made.labId == lab.labId && (exists i | 0 <= i < |page.labs| :: page.labs[i].labId == made.labId) by {
      var k :| 0 <= k < |labs| && labs[k] == lab;
      assert page.labs[k].labId == lab.labId;
    }
    page.Cancel(made, None, None);
    CapacityRoundTrip(labs, lab.labId);
    labsAfter, bookingsAfter := page.labs, page.bookings;
    assert bookingsAfter == Cancelled(bookings + [made], bookingId);
    assert forall i | 0 <= i < |bookings| :: Cancelled(bookings + [made], bookingId)[i] == bookings[i];
  }
}
