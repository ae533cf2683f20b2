/** The admin dashboard: the two per-date aggregates behind its charts, the lab details
    panel (a lab's bookings ordered by date), and the approve / reject decision on a
    booking of `lab_bookings`. */
module AdminDashboard {

  import opened Wrappers
  import opened Schema
  import Seqs
  import DateTally

  function UtilDate(u: Utilization): string { u.date }
  function UtilHours(u: Utilization): int { u.totalHoursUsed }
  function BookingDate(b: LabBooking): string { b.date }
  /** Each booking counts once. */
  function One(b: LabBooking): int { 1 }

  /** `utilizationByDate`: the hours used on each date, keys in `Object.keys` order. */
  method UtilizationByDate(utilization: seq<Utilization>) returns (dates: seq<string>, hours: map<string, int>)
    ensures DateTally.Distinct(dates)
    ensures forall d :: d in hours <==> d in dates
    ensures forall i | 0 <= i < |utilization| :: utilization[i].date in hours
    ensures forall d | d in dates :: exists i | 0 <= i < |utilization| :: utilization[i].date == d
    ensures forall d | d in hours :: hours[d] == DateTally.SumFor(utilization, UtilDate, UtilHours, d)
    ensures DateTally.SumOver(dates, hours) == DateTally.Total(utilization, UtilHours)
  {
    dates, hours := DateTally.Tally(utilization, UtilDate, UtilHours);
    DateTally.TallyKeys(utilization, UtilDate, UtilHours);
    DateTally.KeysOfItems(utilization, UtilDate);
    DateTally.TallyValues(utilization, UtilDate, UtilHours);
    DateTally.TallyTotal(utilization, UtilDate, UtilHours);
  }

  /** Counting with weight one gives the length. */
  lemma {:induction false} TotalOnes(bookings: seq<LabBooking>)
    ensures DateTally.Total(bookings, One) == |bookings|
    decreases |bookings|
  {
    if bookings != [] {
      TotalOnes(bookings[1..]);
    }
  }

  /** `bookingsByDate`: the number of bookings on each date; every listed date has at least
      one, and the counts add up to the number of bookings. */
  method BookingsByDate(bookings: seq<LabBooking>) returns (dates: seq<string>, counts: map<string, int>)
    ensures DateTally.Distinct(dates)
    ensures forall d :: d in counts <==> d in dates
    ensures forall i | 0 <= i < |bookings| :: bookings[i].date in counts
    ensures forall d | d in dates :: exists i | 0 <= i < |bookings| :: bookings[i].date == d
    ensures forall d | d in counts :: counts[d] == DateTally.SumFor(bookings, BookingDate, One, d) && counts[d] >= 1
    ensures DateTally.SumOver(dates, counts) == |bookings|
  {
    dates, counts := DateTally.Tally(bookings, BookingDate, One);
    DateTally.TallyKeys(bookings, BookingDate, One);
    DateTally.KeysOfItems(bookings, BookingDate);
    DateTally.TallyValues(bookings, BookingDate, One);
    DateTally.TallyTotal(bookings, BookingDate, One);
    DateTally.TallyPositive(bookings, BookingDate, One);
    TotalOnes(bookings);
  }

  /** String order, as the `date` column of ISO `YYYY-MM-DD` dates sorts. */
  predicate DateLe(a: string, b: string)
    decreases |a|
  {
    a == [] || (b != [] && (a[0] < b[0] || (a[0] == b[0] && DateLe(a[1..], b[1..]))))
  }

  lemma {:induction false} DateLeTotal(a: string, b: string)
    ensures DateLe(a, b) || DateLe(b, a)
    decreases |a|
  {
    if a != [] && b != [] && a[0] == b[0] {
      DateLeTotal(a[1..], b[1..]);
    }
  }

  predicate SortedByDate(s: seq<LabBooking>) {
    forall i | 0 <= i < |s| - 1 :: DateLe(s[i].date, s[i + 1].date)
  }

  /** Insert `b` before the first booking it is not later than. */
  function InsertByDate(b: LabBooking, s: seq<LabBooking>): seq<LabBooking>
    decreases |s|
  {
    if s == [] then [b]
    else if DateLe(b.date, s[0].date) then [b] + s
    else [s[0]] + InsertByDate(b, s[1..])
  }

  /** `.order("date", { ascending: true })`. */
  function SortByDate(s: seq<LabBooking>): seq<LabBooking>
    decreases |s|
  {
    if s == [] then [] else InsertByDate(s[0], SortByDate(s[1..]))
  }

  lemma {:induction false} InsertByDateFacts(b: LabBooking, s: seq<LabBooking>)
    requires SortedByDate(s)
    ensures SortedByDate(InsertByDate(b, s))
    ensures multiset(InsertByDate(b, s)) == multiset(s) + multiset{b}
    ensures InsertByDate(b, s) != [] && (InsertByDate(b, s)[0] == b || (s != [] && InsertByDate(b, s)[0] == s[0]))
    decreases |s|
  {
    if s != [] && !DateLe(b.date, s[0].date) {
      var rest := s[1..];
      assert SortedByDate(rest) by {
        forall i | 0 <= i < |rest| - 1 ensures DateLe(rest[i].date, rest[i + 1].date) {
          assert rest[i] == s[i + 1] && rest[i + 1] == s[i + 2];
        }
      }
      InsertByDateFacts(b, rest);
      DateLeTotal(b.date, s[0].date);
      var r := InsertByDate(b, rest);
      assert InsertByDate(b, s) == [s[0]] + r;
      assert s == [s[0]] + rest;
      var out := [s[0]] + r;
      forall i | 0 <= i < |out| - 1 ensures DateLe(out[i].date, out[i + 1].date) {
        if i == 0 {
          assert out[1] == r[0];
          if r[0] != b {
            assert s[1] == rest[0];
          }
        } else {
          assert out[i] == r[i - 1] && out[i + 1] == r[i];
        }
      }
    }
  }

  /** The sort orders by date and keeps every booking as often as it occurs. */
  lemma {:induction false} SortByDateFacts(s: seq<LabBooking>)
    ensures SortedByDate(SortByDate(s))
    ensures multiset(SortByDate(s)) == multiset(s)
    decreases |s|
  {
    if s != [] {
      SortByDateFacts(s[1..]);
      InsertByDateFacts(s[0], SortByDate(s[1..]));
      assert s == [s[0]] + s[1..];
    }
  }

  /** The bookings the details panel shows for a lab: its rows of the table, by date. */
  function DetailsFor(table: seq<LabBooking>, labId: string): seq<LabBooking> {
    SortByDate(Seqs.Filter(table, (b: LabBooking) => b.labId == labId))
  }

  /** The panel holds exactly the lab's bookings, each as often as in the table, sorted by date. */
  lemma DetailsContents(table: seq<LabBooking>, labId: string)
    ensures SortedByDate(DetailsFor(table, labId))
    ensures forall b :: multiset(DetailsFor(table, labId))[b] == if b.labId == labId then multiset(table)[b] else 0
    ensures forall b :: b in DetailsFor(table, labId) <==> b in table && b.labId == labId
  {
    var kept := Seqs.Filter(table, (b: LabBooking) => b.labId == labId);
    SortByDateFacts(kept);
    Seqs.FilterCount(table, (b: LabBooking) => b.labId == labId);
    forall b ensures b in DetailsFor(table, labId) <==> b in table && b.labId == labId {
      assert b in DetailsFor(table, labId) <==> multiset(DetailsFor(table, labId))[b] > 0;
      assert b in table <==> multiset(table)[b] > 0;
    }
  }

  /** The admin's two buttons. */
  datatype Decision = Approve | Reject

  function StatusFor(d: Decision): string {
    match d
    case Approve => "approved"
    case Reject => "rejected"
  }

  /** The buttons are rendered only for a booking whose status is "pending". */
  predicate Offered(b: LabBooking) {
    b.status == "pending"
  }

  /** The table after `update({ status }).eq("booking_id", bookingId)`. */
  function SetStatus(table: seq<LabBooking>, bookingId: string, status: string): (r: seq<LabBooking>)
    ensures |r| == |table|
    ensures forall i | 0 <= i < |table| && table[i].bookingId == bookingId :: r[i] == table[i].(status := status)
    ensures forall i | 0 <= i < |table| && table[i].bookingId != bookingId :: r[i] == table[i]
  {
    if table == [] then []
    else [if table[0].bookingId == bookingId then table[0].(status := status) else table[0]]
         + SetStatus(table[1..], bookingId, status)
  }

  predicate UniqueIds(table: seq<LabBooking>) {
    forall i, j | 0 <= i < j < |table| :: table[i].bookingId != table[j].bookingId
  }

  /** The status changes the dashboard can make: none, or a pending booking decided. */
  predicate AllowedTransition(before: string, after: string) {
    before == after || (before == "pending" && (after == "approved" || after == "rejected"))
  }

  /** Deciding an offered booking changes that row alone, and only from "pending" to the decision. */
  lemma DecisionTransition(table: seq<LabBooking>, b: LabBooking, d: Decision)
    requires b in table && Offered(b) && UniqueIds(table)
    ensures forall i | 0 <= i < |table| ::
              AllowedTransition(table[i].status, SetStatus(table, b.bookingId, StatusFor(d))[i].status)
    ensures forall i | 0 <= i < |table| && SetStatus(table, b.bookingId, StatusFor(d))[i] != table[i] ::
              table[i] == b && SetStatus(table, b.bookingId, StatusFor(d))[i] == b.(status := StatusFor(d))
  {
    var j :| 0 <= j < |table| && table[j] == b;
    forall i | 0 <= i < |table| && table[i].bookingId == b.bookingId ensures table[i] == b {
      assert i == j;
    }
  }

  /** A lab and its bookings, as the details panel holds them. */
  datatype LabDetails = LabDetails(lab: Lab, bookings: seq<LabBooking>)

  class AdminDashboardPage {
    var labs: seq<Lab>
    var bookings: seq<LabBooking>
    var pendingRequests: seq<LabBooking>
    var utilization: seq<Utilization>
    var loading: bool
    var selectedLab: Option<LabDetails>
    /** The `lab_bookings` table. */
    var table: seq<LabBooking>

    constructor (table: seq<LabBooking>)
      ensures labs == [] && bookings == [] && pendingRequests == [] && utilization == []
      ensures loading && selectedLab == None && this.table == table
    {
      labs, bookings, pendingRequests, utilization := [], [], [], [];
      loading, selectedLab := true, None;
      this.table := table;
    }

    /** `fetchLabs`. */
    method FetchLabs(data: seq<Lab>, queryError: Option<string>)
      modifies this`labs
      ensures queryError.None? ==> labs == data
      ensures queryError.Some? ==> labs == old(labs)
    {
      if queryError.None? {
        labs := data;
      }
    }

    /** `fetchBookings`: both lists get the same, unfiltered rows. */
    method FetchBookings(queryError: Option<string>)
      modifies this`bookings, this`pendingRequests
      ensures queryError.None? ==> bookings == table && pendingRequests == table
      ensures queryError.Some? ==> bookings == old(bookings) && pendingRequests == old(pendingRequests)
    {
      if queryError.None? {
        bookings := table;
        pendingRequests := table;
      }
    }

    /** `fetchUtilization`. */
    method FetchUtilization(data: seq<Utilization>, queryError: Option<string>)
      modifies this`utilization
      ensures queryError.None? ==> utilization == data
      ensures queryError.Some? ==> utilization == old(utilization)
    {
      if queryError.None? {
        utilization := data;
      }
    }

    /** The mount effect: the three fetches, then loading ends. */
    method FetchData(labsData: seq<Lab>, labsError: Option<string>, utilData: seq<Utilization>,
                     utilError: Option<string>, bookingsError: Option<string>)
      modifies this`labs, this`bookings, this`pendingRequests, this`utilization, this`loading
      ensures !loading
      ensures labsError.None? ==> labs == labsData
      ensures labsError.Some? ==> labs == old(labs)
      ensures bookingsError.None? ==> bookings == table && pendingRequests == table
      ensures bookingsError.Some? ==> bookings == old(bookings) && pendingRequests == old(pendingRequests)
      ensures utilError.None? ==> utilization == utilData
      ensures utilError.Some? ==> utilization == old(utilization)
    {
      loading := true;
      FetchLabs(labsData, labsError);
      FetchBookings(bookingsError);
      FetchUtilization(utilData, utilError);
      loading := false;
    }

    /** `openLabDetails`. */
    method OpenLabDetails(lab: Lab, queryError: Option<string>)
      modifies this`selectedLab
      ensures queryError.None? ==> selectedLab == Some(LabDetails(lab, DetailsFor(table, lab.labId)))
      ensures queryError.Some? ==> selectedLab == old(selectedLab)
    {
      if queryError.None? {
        selectedLab := Some(LabDetails(lab, DetailsFor(table, lab.labId)));
      }
    }

    /** The panel's close button. */
    method CloseDetails()
      modifies this`selectedLab
      ensures selectedLab == None
    {
      selectedLab := None;
    }

    /** The rows on screen are the table's: the request list is the whole table, and an
        open panel shows its lab's rows of the table by date. */
    ghost predicate InSync()
      reads this
    {
      && pendingRequests == table
      && (selectedLab.Some? ==> selectedLab.value.bookings == DetailsFor(table, selectedLab.value.lab.labId))
    }

    /** `b` is drawn with its Approve and Reject buttons: a pending row of the request list
        or of the open panel. */
    ghost predicate Offers(b: LabBooking)
      reads this
    {
      Offered(b) && (b in pendingRequests || (selectedLab.Some? && b in selectedLab.value.bookings))
    }

    /** A click on Approve or Reject of a row the page draws. While the screen shows the
        table, the click only decides a pending booking; when every query succeeds the
        screen shows the table again. */
    method Decide(b: LabBooking, decision: Decision, updateError: Option<string>,
                  detailsError: Option<string>, fetchError: Option<string>)
      requires Offers(b)
      modifies this`table, this`selectedLab, this`bookings, this`pendingRequests
      ensures updateError.Some? ==>
                && table == old(table) && selectedLab == old(selectedLab)
                && bookings == old(bookings) && pendingRequests == old(pendingRequests)
      ensures updateError.None? ==> table == SetStatus(old(table), b.bookingId, StatusFor(decision))
      ensures updateError.None? && old(selectedLab).Some? && detailsError.None? ==>
                selectedLab == Some(LabDetails(old(selectedLab).value.lab,
                                               DetailsFor(table, old(selectedLab).value.lab.labId)))
      ensures updateError.None? && (old(selectedLab).None? || detailsError.Some?) ==>
                selectedLab == old(selectedLab)
      ensures updateError.None? && fetchError.None? ==> bookings == table && pendingRequests == table
      ensures updateError.None? && fetchError.Some? ==>
                bookings == old(bookings) && pendingRequests == old(pendingRequests)
      ensures old(InSync()) && UniqueIds(old(table)) ==>
                && |table| == |old(table)|
                && forall i | 0 <= i < |table| :: AllowedTransition(old(table)[i].status, table[i].status)
      ensures updateError.None? && detailsError.None? && fetchError.None? ==> InSync()
      ensures updateError.Some? && old(InSync()) ==> InSync()
    {
      ghost var before := table;
      if InSync() && selectedLab.Some? && b in selectedLab.value.bookings {
        DetailsContents(table, selectedLab.value.lab.labId);
      }
      if InSync() && UniqueIds(table) {
        DecisionTransition(table, b, decision);
      }
      UpdateBookingStatus(b.bookingId, decision, updateError, detailsError, fetchError);
    }

    /** `updateBookingStatus`: on success the open panel is reloaded and the bookings re-fetched. */
    method UpdateBookingStatus(bookingId: string, decision: Decision, updateError: Option<string>,
                               detailsError: Option<string>, fetchError: Option<string>)
      modifies this`table, this`selectedLab, this`bookings, this`pendingRequests
      ensures updateError.Some? ==>
                && table == old(table) && selectedLab == old(selectedLab)
                && bookings == old(bookings) && pendingRequests == old(pendingRequests)
      ensures updateError.None? ==> table == SetStatus(old(table), bookingId, StatusFor(decision))
      ensures updateError.None? && old(selectedLab).Some? && detailsError.None? ==>
                selectedLab == Some(LabDetails(old(selectedLab).value.lab,
                                               DetailsFor(table, old(selectedLab).value.lab.labId)))
      ensures updateError.None? && (old(selectedLab).None? || detailsError.Some?) ==>
                selectedLab == old(selectedLab)
      ensures updateError.None? && fetchError.None? ==> bookings == table && pendingRequests == table
      ensures updateError.None? && fetchError.Some? ==>
                bookings == old(bookings) && pendingRequests == old(pendingRequests)
    {
      if updateError.Some? {
        return;
      }
      table := SetStatus(table, bookingId, StatusFor(decision));
      if selectedLab.Some? {
        OpenLabDetails(selectedLab.value.lab, detailsError);
      }
      FetchBookings(fetchError);
    }
  }

  /** When the re-fetch after an approval fails, the request list keeps showing the booking
      as pending, and its Reject button then turns the approved booking into a rejected one. */
  method StaleRowRedecided(b: LabBooking) returns (approvedAs: string, finallyAs: string)
    requires Offered(b)
    ensures approvedAs == "approved" && finallyAs == "rejected"
  {
    var page := new AdminDashboardPage([b]);
    page.FetchBookings(None);
    page.Decide(b, Approve, None, None, Some("fetch failed"));
    approvedAs := page.table[0].status;
    page.Decide(b, Reject, None, None, None);
    finallyAs := page.table[0].status;
  }
}
