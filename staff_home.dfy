/** The staff booking page: the case-insensitive search over lab names, the date and
    slot chosen per lab, and the guarded insert of a "pending" row into `lab_bookings`. */
module StaffHome {

  import opened Wrappers
  import opened Text
  import opened Schema
  import Seqs

  /** The filter's test: the lower-cased name includes the lower-cased search term. */
  predicate NameMatches(lab: Lab, searchTerm: string) {
    Includes(ToLower(lab.labName), ToLower(searchTerm))
  }

  /** The labs the search lists, in their original order. */
  function FilteredLabs(labs: seq<Lab>, searchTerm: string): seq<Lab> {
    Seqs.Filter(labs, (lab: Lab) => NameMatches(lab, searchTerm))
  }

  /** A lab is listed exactly when it is one of the labs and the lower-cased term occurs in
      its lower-cased name; the listing keeps the labs' order. */
  lemma SearchIff(labs: seq<Lab>, searchTerm: string)
    ensures forall lab | lab in FilteredLabs(labs, searchTerm) ::
              lab in labs && OccursIn(ToLower(searchTerm), ToLower(lab.labName))
    ensures forall lab | lab in labs && OccursIn(ToLower(searchTerm), ToLower(lab.labName)) ::
              lab in FilteredLabs(labs, searchTerm)
    ensures Seqs.IsSubsequence(FilteredLabs(labs, searchTerm), labs)
  {
    forall lab | lab in labs {
      IncludesIff(ToLower(lab.labName), ToLower(searchTerm));
    }
    Seqs.FilterIsSubsequence(labs, (lab: Lab) => NameMatches(lab, searchTerm));
  }

  /** An empty search lists every lab. */
  lemma SearchEmpty(labs: seq<Lab>)
    ensures FilteredLabs(labs, "") == labs
  {
    forall lab | lab in labs ensures NameMatches(lab, "") {
      IncludesEmpty(ToLower(lab.labName));
    }
    Seqs.FilterAll(labs, (lab: Lab) => NameMatches(lab, ""));
  }

  /** The case of the term does not matter: searching for its lower-cased form lists the same labs. */
  lemma SearchIgnoresCase(labs: seq<Lab>, searchTerm: string)
    ensures FilteredLabs(labs, ToLower(searchTerm)) == FilteredLabs(labs, searchTerm)
  {
    ToLowerIdempotent(searchTerm);
    Seqs.FilterExt(labs, (lab: Lab) => NameMatches(lab, ToLower(searchTerm)),
                   (lab: Lab) => NameMatches(lab, searchTerm));
  }

  /** `m[labId]` is truthy: present and not the empty string. */
  predicate Chosen(m: map<string, string>, labId: string) {
    labId in m && m[labId] != ""
  }

  /** The row `handleBookLab` inserts: the slot's text before the first '-' is the start,
      the text after it (up to a second '-', if any) the end. */
  function BookingRow(bookingId: string, userId: string, labId: string, date: string, slot: string): LabBooking {
    var parts := Split(slot, '-');
    LabBooking(bookingId, userId, labId, date, parts[0], Part(parts, 1), "Project Work", "pending")
  }

  /** A slot with one '-' gives back its two halves, spaces included: the option
      "10:45 am - 01:15 pm" is stored as start "10:45 am " and end " 01:15 pm". */
  lemma BookingRowTimes(bookingId: string, userId: string, labId: string, date: string, start: string, end: string)
    requires '-' !in start && '-' !in end
    ensures var row := BookingRow(bookingId, userId, labId, date, start + "-" + end);
      && row.startTime == start && row.endTime == Some(end)
      && row.status == "pending" && row.purpose == "Project Work"
      && row.userId == userId && row.labId == labId && row.date == date
  {
    SplitPair(start, end, '-');
  }

  /** The first option of the slot picker, as stored. */
  lemma FirstOptionRow(bookingId: string, userId: string, labId: string, date: string, slot: string)
    requires slot == "10:45 am - 01:15 pm"
    ensures BookingRow(bookingId, userId, labId, date, slot).startTime == "10:45 am "
    ensures BookingRow(bookingId, userId, labId, date, slot).endTime == Some(" 01:15 pm")
  {
    var start, end := "10:45 am ", " 01:15 pm";
    assert slot == start + "-" + end;
    BookingRowTimes(bookingId, userId, labId, date, start, end);
  }

  /** A slot without any '-' has no end time (`split("-")[1]` is undefined). */
  lemma BookingRowNoDash(bookingId: string, userId: string, labId: string, date: string, slot: string)
    requires '-' !in slot
    ensures BookingRow(bookingId, userId, labId, date, slot).startTime == slot
    ensures BookingRow(bookingId, userId, labId, date, slot).endTime == None
  {
    SplitFreeSingle(slot);
  }

  lemma {:induction false} SplitFreeSingle(s: string)
    requires '-' !in s
    ensures Split(s, '-') == [s]
    decreases |s|
  {
    if s != [] {
      SplitFreeSingle(s[1..]);
      assert s == [s[0]] + s[1..];
    }
  }

  class LabBookingPage {
    var searchTerm: string
    var labs: seq<Lab>
    /** Never assigned after the constructor: the page has no code that sets it. */
    var userId: Option<string>
    var selectedDate: map<string, string>
    var selectedTimeSlot: map<string, string>
    /** The `lab_bookings` table. */
    var table: seq<LabBooking>

    constructor (table: seq<LabBooking>)
      ensures searchTerm == "" && labs == [] && userId == None
      ensures selectedDate == map[] && selectedTimeSlot == map[] && this.table == table
    {
      searchTerm, labs, userId := "", [], None;
      selectedDate, selectedTimeSlot := map[], map[];
      this.table := table;
    }

    /** The Book button of a lab is disabled unless both a date and a slot are chosen for it. */
    predicate BookDisabled(labId: string)
      reads this
    {
      !Chosen(selectedDate, labId) || !Chosen(selectedTimeSlot, labId)
    }

    /** `fetchLabs`: the labs are replaced only when the query succeeds. */
    method FetchLabs(data: seq<Lab>, queryError: Option<string>)
      modifies this`labs
      ensures queryError.None? ==> labs == data
      ensures queryError.Some? ==> labs == old(labs)
    {
      if queryError.None? {
        labs := data;
      }
    }

    method SetSearchTerm(term: string)
      modifies this`searchTerm
      ensures searchTerm == term
    {
      searchTerm := term;
    }

    /** The date picker of one lab: only that lab's entry changes. */
    method SelectDate(labId: string, value: string)
      modifies this`selectedDate
      ensures selectedDate == old(selectedDate)[labId := value]
      ensures forall k | k in old(selectedDate) && k != labId :: k in selectedDate && selectedDate[k] == old(selectedDate)[k]
    {
      selectedDate := selectedDate[labId := value];
    }

    /** The slot picker of one lab: only that lab's entry changes. */
    method SelectTimeSlot(labId: string, value: string)
      modifies this`selectedTimeSlot
      ensures selectedTimeSlot == old(selectedTimeSlot)[labId := value]
      ensures forall k | k in old(selectedTimeSlot) && k != labId ::
                k in selectedTimeSlot && selectedTimeSlot[k] == old(selectedTimeSlot)[k]
    {
      selectedTimeSlot := selectedTimeSlot[labId := value];
    }

    /** `handleBookLab`; returns the alert shown, if any. `bookingId` is the id the server assigns. */
    method HandleBookLab(labId: string, bookingId: string, insertError: Option<string>)
      returns (alert: Option<string>)
      modifies this`table
      ensures userId.None? ==> alert == Some("User not authenticated!") && table == old(table)
      ensures userId.Some? && BookDisabled(labId) ==>
                alert == Some("Please select both date and time slot.") && table == old(table)
      ensures userId.Some? && !BookDisabled(labId) && insertError.Some? ==> alert == None && table == old(table)
      ensures userId.Some? && !BookDisabled(labId) && insertError.None? ==>
                && alert == Some("Lab booked successfully!")
                && table == old(table) + [BookingRow(bookingId, userId.value, labId, selectedDate[labId],
                                                     selectedTimeSlot[labId])]
    {
      if userId.None? {
        return Some("User not authenticated!");
      }
      if !Chosen(selectedDate, labId) || !Chosen(selectedTimeSlot, labId) {
        return Some("Please select both date and time slot.");
      }
      var slot := selectedTimeSlot[labId];
      var row := LabBooking(bookingId, userId.value, labId, selectedDate[labId],
                            Split(slot, '-')[0], Part(Split(slot, '-'), 1), "Project Work", "pending");
      if insertError.None? {
        table := table + [row];
        alert := Some("Lab booked successfully!");
      } else {
        alert := None;
      }
    }
  }

  /** Since nothing sets `userId`, a freshly opened page inserts nothing, whatever is chosen. */
  method FreshPageNeverBooks(table: seq<LabBooking>, labId: string, date: string, slot: string, bookingId: string)
    returns (after: seq<LabBooking>, alert: Option<string>)
    ensures after == table
    ensures alert == Some("User not authenticated!")
  {
    var page := new LabBookingPage(table);
    page.SelectDate(labId, date);
    page.SelectTimeSlot(labId, slot);
    alert := page.HandleBookLab(labId, bookingId, None);
    after := page.table;
  }
}
