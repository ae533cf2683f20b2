# Lab booking portal — a Dafny model of its core

The portal lets students book a computer lab for a one-hour slot, lets staff request a lab
for a date and a time range, and lets an administrator approve new accounts and decide the
staff requests. The front end is a set of React pages over a hosted Postgres database (the
`labs`, `student_bookings`, `lab_bookings`, `users` and `lab_utilization` tables) and an
authentication provider.

This project models the logic of those pages and of the server actions on the `users`
table:

- **StudentHome**: the student dashboard.
  - The time slots offered for a day of the week.
  - The five booking checks, in order.
  - Booking and cancelling, which keep the student's bookings and the labs' free capacity
    in step.
- **AdminDashboard** and **DateTally**: the administrator's dashboard.
  - The two per-date aggregates behind its charts.
  - The lab details panel, which lists a lab's bookings sorted by date.
  - The approve or reject decision on a pending staff request.
- **UserActions**: the service-role actions `approveUser`, `rejectUser`, `deleteUser` and
  `fetchUsers`. The fetch splits the users into those awaiting approval and the rest.
- **StaffManagement**: the administrator's user-management page.
  - The check of the stored admin record.
  - The run-once initialisation.
  - The action handlers, which reload the lists after each action.
- **StaffHome**: the staff booking page.
  - The case-insensitive lab search.
  - The date and slot chosen per lab.
  - The guarded insert of a "pending" request.
- **Signup**: the sign-up form.
  - The validation chain.
  - Account creation, with the account rolled back when the profile insert fails.
- **LoginStudent** and **EmailPattern**: the student login.
  - Input sanitising and the email pattern.
  - The chain of guards that ends with the session in local storage.
- **Text**, **Seqs**, **Schema** and **Wrappers**: shared definitions.
  - The JavaScript string operations the pages use: `trim`, `toLowerCase`, `includes`,
    `split`, number-to-text and `padStart`.
  - Filtering and subsequences.
  - The table rows.
  - `Option` and `Result`.

The model's state works as follows:

- React state and each table a page writes are fields of a class.
- Every answer the backend gives is a method parameter: an optional error message, or an
  outcome datatype for the authentication calls.
- Server-assigned ids are parameters too.
- Each page method states its whole new state.
- The invariants of the student ledger are proved to be preserved:
  - at most one active booking per lab;
  - no negative capacity;
  - the open form's capacity no higher than the lab's.

## Model

| member | source | states |
|---|---|---|
| EmailPattern.EmailPatternIff | luba_react/src/components/signupPagetest.tsx:15-18 | The email pattern accepts a string exactly when it has no whitespace, exactly one '@' with text before it, and a '.' with text on both sides after the '@'. |
| EmailPattern.EmailRejects | luba_react/src/components/LoginStudent.tsx:14-15 | Any whitespace, no '@' at all, or two '@'s make the pattern reject the string. |
| Text.TrimEmptyIff | luba_react/src/components/signupPagetest.tsx:23 | `trim()` gives the empty string exactly when every character is JavaScript whitespace. |
| Text.TrimStartShape | luba_react/src/components/LoginStudent.tsx:23 | Trimming removes only leading whitespace and keeps the rest as a suffix. |
| Text.TrimEndShape | luba_react/src/components/LoginStudent.tsx:23 | Trimming removes only trailing whitespace and keeps the rest as a prefix. |
| Text.ToLower | luba_react/src/components/staffHomePage.tsx:110-113 | Lower-casing keeps the length. |
| Text.ToLowerIdempotent | luba_react/src/components/staffHomePage.tsx:110-113 | Lower-casing twice is lower-casing once. |
| Text.IncludesIff | luba_react/src/components/staffHomePage.tsx:110-113 | `includes` holds exactly when the substring occurs at some position. |
| Text.SplitPartsFree | luba_react/src/components/staffHomePage.tsx:33-34 | No part of `split(sep)` contains the separator. |
| Text.JoinSplit | luba_react/src/components/staffHomePage.tsx:33-34 | Joining the parts of a split with the separator gives back the string. |
| Text.SplitJoin | luba_react/src/components/staffHomePage.tsx:33-34 | Splitting the join of separator-free parts gives back the parts. |
| Text.DecimalStringValue | luba_react/src/components/studentHome.tsx:45-46 | The decimal text of a number reads back as that number. |
| Text.PadStart | luba_react/src/components/studentHome.tsx:45-46 | `padStart` gives a string of at least the width, ending with the input, with only the pad character before it. |
| Seqs.FilterPartition | luba_react/src/actions/supabaseActions.ts:38-39 | Filtering by a predicate and by its complement splits a list's multiset of elements exactly. |
| LoginStudent.SanitizeRemovesAll | luba_react/src/components/LoginStudent.tsx:17 | The sanitised text holds no quote, double quote, semicolon or hyphen. |
| LoginStudent.SanitizeIdempotent | luba_react/src/components/LoginStudent.tsx:17 | Sanitising twice is sanitising once. |
| LoginStudent.SanitizeIsFilter | luba_react/src/components/LoginStudent.tsx:17 | Sanitising deletes exactly the four characters and keeps every other character in order. |
| LoginStudent.SanitizeShrinks | luba_react/src/components/LoginStudent.tsx:17 | The output is a subsequence of the input and no longer than it. It equals the input exactly when none of the four characters occurs. |
| LoginStudent.HyphenDroppedBeforeCheck | luba_react/src/components/LoginStudent.tsx:23-29 | Sanitising runs before the email check, so "a-b@x.com" is checked, and accepted, as "ab@x.com". |
| LoginStudent.StudentLoginPage.constructor | luba_react/src/components/LoginStudent.tsx:9-11 | The page starts with empty fields, no error, no stored session and no navigation. |
| LoginStudent.StudentLoginPage.SetFields | luba_react/src/components/LoginStudent.tsx:113-133 | The input handlers set the email and the password. |
| LoginStudent.StudentLoginPage.HandleLogin | luba_react/src/components/LoginStudent.tsx:19-74 | Credentials are sent exactly when the trimmed, sanitised email passes the pattern. Each failure sets its own message. Only a signed-in user whose role is "student" gets the session entries stored and is sent to "/studentHome"; otherwise storage and route keep their old values. |
| Signup.ValidationOrder | luba_react/src/components/signupPagetest.tsx:23-34 | Each validation message appears exactly when its check is the first to fail: blank name, then malformed email, then a password shorter than 6. No message appears exactly when all three checks pass. |
| Signup.PasswordBoundary | luba_react/src/components/signupPagetest.tsx:31 | A 6-character password passes the length check; a 5-character one fails it. |
| Signup.SignupPage.constructor | luba_react/src/components/signupPagetest.tsx:9-13 | The form starts empty, with role "student" and no error. |
| Signup.SignupPage.SetFields | luba_react/src/components/signupPagetest.tsx:106-146 | The input handlers set name, email and password. |
| Signup.SignupPage.SetRole | luba_react/src/components/signupPagetest.tsx:164-167 | Only the two offered roles can be chosen, so the role stays valid. |
| Signup.SignupPage.HandleSignup | luba_react/src/components/signupPagetest.tsx:20-75 | A validation failure, an auth error, a missing user or a thrown error changes neither the accounts nor the profiles. A failed profile insert adds no profile and no route. The new account is gone again only when `auth.admin.deleteUser` removes it; if that call returns an error the account stays, and if it throws the account stays and the message becomes "Signup failed. Please try again.". Success adds the account and one profile row with `pending_approval` true, and goes to "/login". |
| UserActions.FetchPartition | luba_react/src/actions/supabaseActions.ts:32-41 | The pending and non-pending lists are disjoint. Each keeps the fetched order. Together they hold every fetched row exactly as often as it was fetched. |
| UserActions.ApprovedNotPending | luba_react/src/actions/supabaseActions.ts:6-14 | After approval no row of that user is pending, and each lands in the non-pending list. Every other row is untouched. Only `pending_approval` changes. |
| UserActions.RemoveByIdContents | luba_react/src/actions/supabaseActions.ts:16-30 | Removing by id leaves no row of that user and keeps every other row, in order. |
| UserActions.RemoveByIdIdempotent | luba_react/src/actions/supabaseActions.ts:16-30 | Rejecting or deleting the same user twice leaves the table as doing it once. |
| UserActions.UsersTable.ApproveUser | luba_react/src/actions/supabaseActions.ts:6-14 | A backend error leaves the rows unchanged and returns "Failed to approve user: " plus the message. Otherwise the user's rows stop pending and those rows are returned. |
| UserActions.UsersTable.RejectUser | luba_react/src/actions/supabaseActions.ts:16-22 | On error the rows are unchanged and "Failed to reject user: " plus the message is returned. Otherwise the user's rows are deleted. |
| UserActions.UsersTable.DeleteUser | luba_react/src/actions/supabaseActions.ts:24-30 | On error the rows are unchanged and "Failed to delete user: " plus the message is returned. Otherwise the user's rows are deleted. |
| UserActions.UsersTable.FetchUsers | luba_react/src/actions/supabaseActions.ts:32-41 | On error it returns "Failed to fetch users: " plus the message. Otherwise it returns a pending list and a non-pending list that partition the rows, in order, as multisets. |
| StaffManagement.AuthDecision | luba_react/src/components/StaffMangement.tsx:47-67 | An admin is let in exactly when the stored item is non-empty, parses, and has role "admin" and a non-empty email. |
| StaffManagement.StaffManagementPage.constructor | luba_react/src/components/StaffMangement.tsx:24-30 | The page starts loading, with empty lists, no admin, not yet initialised, and no fetch made. |
| StaffManagement.StaffManagementPage.LoadUsers | luba_react/src/components/StaffMangement.tsx:32-45 | One fetch is counted and loading ends. The lists are the table's pending and non-pending users, or both empty on error. |
| StaffManagement.StaffManagementPage.CheckAuth | luba_react/src/components/StaffMangement.tsx:47-67 | It returns the auth decision. A missing item redirects to "/loginAdmin". A present but unusable item is removed and also redirects. An admin is let in with nothing changed. |
| StaffManagement.StaffManagementPage.Initialize | luba_react/src/components/StaffMangement.tsx:70-83 | Once initialised, a later run changes nothing. Otherwise a refused admin is redirected with no fetch, and the stored record is removed when one was there. An accepted admin is kept in state and exactly one fetch is made. |
| StaffManagement.StaffManagementPage.HandleApproveUser | luba_react/src/components/StaffMangement.tsx:85-92 | A failed action changes nothing and makes no fetch. A successful one approves the user in the table and reloads the lists exactly once. |
| StaffManagement.StaffManagementPage.HandleRejectUser | luba_react/src/components/StaffMangement.tsx:94-101 | A failed action changes nothing. A successful one removes the user's rows and reloads the lists exactly once. |
| StaffManagement.StaffManagementPage.HandleDeleteUser | luba_react/src/components/StaffMangement.tsx:103-110 | A failed action changes nothing. A successful one removes the user's rows and reloads the lists exactly once. |
| StaffManagement.StaffManagementPage.HandleLogout | luba_react/src/components/StaffMangement.tsx:112-115 | The stored admin record is removed and the page goes to "/loginAdmin". |
| StaffManagement.MountTwice | luba_react/src/components/StaffMangement.tsx:70-83 | Running the mount effect twice fetches the users once for an accepted admin and never otherwise. |
| StaffManagement.MountThenDelete | luba_react/src/components/__tests__/StaffMangement.test.tsx:99-100 | An admin who opens the page and deletes a user causes two fetches in all. Afterwards the user is in neither list, and every other user is in one of them, by pending status. |
| StaffHome.SearchIff | luba_react/src/components/staffHomePage.tsx:110-113 | A lab is listed exactly when the lower-cased term occurs in its lower-cased name. The list keeps the labs' order. |
| StaffHome.SearchEmpty | luba_react/src/components/staffHomePage.tsx:110-113 | An empty search lists every lab. |
| StaffHome.SearchIgnoresCase | luba_react/src/components/staffHomePage.tsx:110-113 | Searching for the lower-cased term lists the same labs as the term itself. |
| StaffHome.BookingRowTimes | luba_react/src/components/staffHomePage.tsx:28-37 | A slot with one '-' is stored as its two halves, as start and end time, spaces included. The row is "pending", with purpose "Project Work", for the user, lab and date given. |
| StaffHome.FirstOptionRow | luba_react/src/components/staffHomePage.tsx:151-153 | The first slot option is stored with start "10:45 am " and end " 01:15 pm". |
| StaffHome.BookingRowNoDash | luba_react/src/components/staffHomePage.tsx:33-34 | A slot without '-' is stored whole as the start, with no end time. |
| StaffHome.LabBookingPage.constructor | luba_react/src/components/staffHomePage.tsx:6-10 | The page starts with no search, no labs, no user and nothing chosen. |
| StaffHome.LabBookingPage.FetchLabs | luba_react/src/components/staffHomePage.tsx:17-20 | The labs are replaced only when the query succeeds. |
| StaffHome.LabBookingPage.SetSearchTerm | luba_react/src/components/staffHomePage.tsx:105 | The search term is set. |
| StaffHome.LabBookingPage.SelectDate | luba_react/src/components/staffHomePage.tsx:132-136 | Only the chosen lab's date changes. |
| StaffHome.LabBookingPage.SelectTimeSlot | luba_react/src/components/staffHomePage.tsx:144-148 | Only the chosen lab's slot changes. |
| StaffHome.LabBookingPage.HandleBookLab | luba_react/src/components/staffHomePage.tsx:22-43 | With no user it alerts "User not authenticated!". Without both a date and a slot it alerts "Please select both date and time slot.". A failed insert shows no alert. In all three cases the table is unchanged. Success appends exactly one row built from the chosen date and slot. |
| StaffHome.FreshPageNeverBooks | luba_react/src/components/staffHomePage.tsx:6-43 | Nothing sets the user id, so a freshly opened page inserts nothing, whatever is chosen. |
| DateTally.Tally | luba_react/src/components/AdminDashboard.tsx:105-108 | The dictionary loop computes the keys in first-appearance order and the keyed sums. |
| DateTally.TallyKeys | luba_react/src/components/AdminDashboard.tsx:105-108 | The keys are distinct and are exactly the dictionary's keys. |
| DateTally.KeysOfItems | luba_react/src/components/AdminDashboard.tsx:122-125 | Every item's key is listed, and every listed key belongs to some item. |
| DateTally.TallyValues | luba_react/src/components/AdminDashboard.tsx:105-108 | Each entry is the total weight of the items with that key. A missing key has total zero. |
| DateTally.TallyTotal | luba_react/src/components/AdminDashboard.tsx:105-108 | The entries add up to the total weight: nothing is lost or counted twice. |
| DateTally.TallyPositive | luba_react/src/components/AdminDashboard.tsx:122-125 | With weights of at least one, every entry is at least one. |
| AdminDashboard.UtilizationByDate | luba_react/src/components/AdminDashboard.tsx:105-108 | It gives one distinct entry per date that occurs, holding that date's hours. The entries add up to all hours used. |
| AdminDashboard.BookingsByDate | luba_react/src/components/AdminDashboard.tsx:122-125 | Each listed date has its booking count, at least one. The counts add up to the number of bookings. |
| AdminDashboard.SortByDateFacts | luba_react/src/components/AdminDashboard.tsx:140-152 | Ordering by date gives a date-sorted list with the same bookings, each as often. |
| AdminDashboard.DetailsContents | luba_react/src/components/AdminDashboard.tsx:140-152 | The details panel holds exactly the lab's bookings, each as often as in the table, sorted by date. |
| AdminDashboard.SetStatus | luba_react/src/components/AdminDashboard.tsx:154-168 | Only the rows with the booking id change, and only their status. |
| AdminDashboard.DecisionTransition | luba_react/src/components/AdminDashboard.tsx:154-158 | When the booking decided is a pending row of the table and booking ids are unique, the update changes that row alone, and only from "pending" to "approved" or "rejected". |
| AdminDashboard.AdminDashboardPage.Decide | luba_react/src/components/AdminDashboard.tsx:278-301 | A click on Approve or Reject of a drawn pending row runs the status update. While the screen shows the table, every row's status either stays or goes from "pending" to the decision. When all three queries succeed the screen shows the table again; a failed update keeps it in step. |
| AdminDashboard.StaleRowRedecided | luba_react/src/components/AdminDashboard.tsx:154-167 | After an approval whose re-fetch fails, the stale pending row's Reject button turns the approved booking into a rejected one. |
| AdminDashboard.AdminDashboardPage.constructor | luba_react/src/components/AdminDashboard.tsx:52-58 | The dashboard starts loading, with empty lists and no panel open. |
| AdminDashboard.AdminDashboardPage.FetchLabs | luba_react/src/components/AdminDashboard.tsx:61-69 | The labs are replaced only when the query succeeds. |
| AdminDashboard.AdminDashboardPage.FetchBookings | luba_react/src/components/AdminDashboard.tsx:71-80 | On success both the bookings and the pending requests become the whole, unfiltered table. On error both are kept. |
| AdminDashboard.AdminDashboardPage.FetchUtilization | luba_react/src/components/AdminDashboard.tsx:82-94 | The utilisation rows are replaced only when the query succeeds. |
| AdminDashboard.AdminDashboardPage.FetchData | luba_react/src/components/AdminDashboard.tsx:96-103 | Each of the three lists follows its own query's outcome, and loading ends. |
| AdminDashboard.AdminDashboardPage.OpenLabDetails | luba_react/src/components/AdminDashboard.tsx:140-152 | On success the panel shows the lab with its date-sorted bookings. On error the panel is unchanged. |
| AdminDashboard.AdminDashboardPage.CloseDetails | luba_react/src/components/AdminDashboard.tsx:392-394 | The panel closes. |
| AdminDashboard.AdminDashboardPage.UpdateBookingStatus | luba_react/src/components/AdminDashboard.tsx:154-168 | A failed update changes nothing. A successful one sets the status in the table, reloads an open panel, and re-fetches the bookings, each as its own query answers. |
| StudentHome.TwoDigitsText | luba_react/src/components/studentHome.tsx:45-46 | An hour below 100 is written with exactly its two decimal digits. |
| StudentHome.TwoDigitsValue | luba_react/src/components/studentHome.tsx:45-46 | The two digits read back as the hour. |
| StudentHome.SlotParts | luba_react/src/components/studentHome.tsx:44-48 | A slot splits on '-' into its start clock and its end clock. |
| StudentHome.GetTimeSlots | luba_react/src/components/studentHome.tsx:39-54 | On Saturday and Sunday the loop gives the 13 one-hour slots of the hours 8 to 20. On other days it gives the three evening slots. |
| StudentHome.SlotOf8 | luba_react/src/components/studentHome.tsx:44-48 | The slot of hour 8 is "08:00-09:00". |
| StudentHome.SlotOf20 | luba_react/src/components/studentHome.tsx:44-48 | The slot of hour 20 is "20:00-21:00", the weekend's last. |
| StudentHome.WeekdaySlot | luba_react/src/components/studentHome.tsx:52 | The three literal weekday slots are the slots of the hours 18, 19 and 20. |
| StudentHome.WeekendFirst | luba_react/src/components/studentHome.tsx:42-48 | A weekend offers 13 slots, the first "08:00-09:00". |
| StudentHome.TimeSlotsConsecutive | luba_react/src/components/studentHome.tsx:39-54 | Every day's slots belong to consecutive hours ending with hour 20: 13 on a weekend, 3 on a weekday. |
| StudentHome.SlotsAbut | luba_react/src/components/studentHome.tsx:39-54 | Each slot ends where the next one starts: no gaps and no overlaps. |
| StudentHome.SlotsWithinOpeningHours | luba_react/src/components/studentHome.tsx:39-54 | Every offered slot runs from the clock of an hour from 8 to 20 to the clock of the next hour. |
| StudentHome.WithCapacity | luba_react/src/components/studentHome.tsx:163-169 | Only the capacity of the lab with the given id moves, by the given amount. Every other field and every other lab stays as it was. |
| StudentHome.CapacityRoundTrip | luba_react/src/components/studentHome.tsx:163-210 | Giving back a system after taking one, or the other way round, restores the labs. |
| StudentHome.Cancelled | luba_react/src/components/studentHome.tsx:213-217 | Only the rows with the booking id change, and only to status "cancelled". |
| StudentHome.ActiveBookingsContents | luba_react/src/components/studentHome.tsx:222-223 | The active tab holds exactly the active bookings, in order, each as often as it occurs. |
| StudentHome.BookingGuardOrder | luba_react/src/components/studentHome.tsx:106-129 | Each of the five messages appears exactly when its check is the first to fail. No message appears exactly when all five pass. |
| StudentHome.NewBookingTimes | luba_react/src/components/studentHome.tsx:131-139 | A booking for an offered slot runs from its start clock to its end clock. |
| StudentHome.StudentBookingDashboard.constructor | luba_react/src/components/studentHome.tsx:28-36 | The dashboard starts with no student, labs, bookings or selection, and the ledger invariant holds. |
| StudentHome.StudentBookingDashboard.FetchUser | luba_react/src/components/studentHome.tsx:60-70 | The student is set only when a user comes back. |
| StudentHome.StudentBookingDashboard.FetchLabs | luba_react/src/components/studentHome.tsx:73-99 | With a student and a good answer the labs are replaced; otherwise they are kept. The ledger invariant holds when the rows are consistent. |
| StudentHome.StudentBookingDashboard.FetchBookings | luba_react/src/components/studentHome.tsx:73-99 | With a student and a good answer the bookings are replaced; otherwise they are kept. The invariant holds when the rows have at most one active booking per lab. |
| StudentHome.StudentBookingDashboard.SelectLab | luba_react/src/components/studentHome.tsx:283 | Opening a listed lab's form keeps the invariant. |
| StudentHome.StudentBookingDashboard.CloseForm | luba_react/src/components/studentHome.tsx:342 | Closing the form clears the selection and keeps the invariant. |
| StudentHome.StudentBookingDashboard.SelectSlot | luba_react/src/components/studentHome.tsx:324 | The chosen slot is set. |
| StudentHome.StudentBookingDashboard.SelectDate | luba_react/src/components/studentHome.tsx:315 | The chosen date is set. |
| StudentHome.StudentBookingDashboard.Book | luba_react/src/components/studentHome.tsx:102-172 | A failed check shows its message and changes nothing. A failed insert or capacity update shows its message and leaves the ledger unchanged. Success appends one active booking for the slot, takes one system from that lab, clears the form, and keeps the invariant. |
| StudentHome.StudentBookingDashboard.Cancel | luba_react/src/components/studentHome.tsx:175-219 | With no student, or a failed status update, nothing changes. A failed capacity update of a listed lab changes nothing. Otherwise the booking is cancelled and its listed lab gets a system back; the invariant holds. |
| StudentHome.BookKeepsOneActive | luba_react/src/components/studentHome.tsx:122-162 | Adding an active booking for a lab without one keeps at most one active booking per lab. |
| StudentHome.CancelKeepsOneActive | luba_react/src/components/studentHome.tsx:175-219 | Cancelling keeps at most one active booking per lab. |
| StudentHome.UnlistedLabUnchanged | luba_react/src/components/studentHome.tsx:194-211 | Giving a system back to a lab that is not listed changes no lab. |
| StudentHome.BookThenCancel | luba_react/src/components/studentHome.tsx:102-219 | Booking a lab and then cancelling that booking restores the labs and leaves the bookings with one more, cancelled, row. |

## Left out

- The database, the authentication provider and local storage are not modelled as services.
  Each call's answer (data, error, signed-in user, parsed JSON) is a parameter of the method
  that makes it, and ids the server assigns are parameters too.
- Asynchrony is not modelled. Each handler runs to completion as one sequential step.
  `Promise.all` and the interleaving of React effects are not modelled, nor are stale
  closures over state.
- Rendering, styling, the charts, the sidebar, the calendar widget, toasts and the loading
  spinners are left out. So are the mail routes, the seed and server scripts, the client
  configuration, the middleware and the other pages.
- `handleLogout` of the admin dashboard (the provider's sign-out followed by navigation) is
  left out: it has no logic beyond the two calls.
- StudentHome.StudentBookingDashboard.Book: the remote capacity write sends the absolute
  value "snapshot minus one". The model keeps only the local ledger, where the lab's
  capacity goes down by one.
- StudentHome.StudentBookingDashboard.Book: the code appends the row the server returns. The
  model appends the row it inserts, with the server's id as a parameter.
- StudentHome.StudentBookingDashboard.Book: when the capacity update fails, the booking is
  already stored remotely but not added locally. The model covers only the local state.
- StudentHome.StudentBookingDashboard.Cancel: the remote `student_bookings` and `labs` tables
  are not modelled. Cancelling changes only the local ledger.
- StudentHome.StudentBookingDashboard.FetchLabs: the page loads labs and bookings in one
  effect once a student is known. The model splits it into FetchLabs and FetchBookings, each
  taking its query's answer as a parameter; their order is not modelled.
- StudentHome.GetTimeSlots: `Date.getDay()` is an input (0 to 6), and the calendar's date
  text (`formatDate`, `toISOString`) is an input string.
- StaffManagement.StaffManagementPage.Initialize: the code sets `hasInitialized` after the
  awaited check, so a double mount can race and run the body twice. The model runs each mount
  to completion, so the second mount always sees the flag.
- StaffManagement.AuthDecision: `JSON.parse` is a parameter that returns either a parse error
  or the record's `role` and `email` fields.
- AdminDashboard.UtilizationByDate: `total_hours_used` can be fractional in the table. The
  model takes whole hours, so floating-point rounding of the sums is not modelled.
- Text.ToLower: only ASCII letters are case-folded, and no Unicode normalisation is done.
- Signup.PasswordBoundary: string lengths count characters, not UTF-16 code units, so a
  password with characters outside the Basic Multilingual Plane is measured shorter than
  `password.length` measures it. The same holds for Signup.ValidationError.
- AdminDashboard.DecisionTransition: it is stated for a row of the table. The page also draws
  buttons for rows of a request list or panel that a failed re-fetch left stale, and through
  them an approved booking can be rejected, or the other way round (StaleRowRedecided). The
  pending-only guarantee holds only while the screen shows the table (AdminDashboardPage.Decide).
- AdminDashboard.SortByDateFacts: the database's `order("date")` is modelled as a stable
  insertion sort on the date text. The order among bookings with the same date is not
  specified by the database.
- The component tests expect some behaviour the components do not have. For example, the
  sign-up test expects navigation to "/loginStaff" while the form goes to "/login". The model
  follows the components.
