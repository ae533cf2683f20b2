/** The rows of the hosted tables the components read and write, with the columns they use.
    Columns that may be null or absent are `Option`s. */
module Schema {

  import opened Wrappers

  /** A row of `labs`; `capacity` is the number of free systems. */
  datatype Lab = Lab(labId: string, labName: string, location: string, capacity: int)

  /** A row of `student_bookings`; `to` is absent when the chosen slot has no '-'. */
  datatype StudentBooking = StudentBooking(
    bookingId: string, userId: string, labId: string, bookingDate: string,
    from: string, to: Option<string>, status: string)

  /** A row of `lab_bookings`, written by staff and decided by the admin. */
  datatype LabBooking = LabBooking(
    bookingId: string, userId: string, labId: string, date: string,
    startTime: string, endTime: Option<string>, purpose: string, status: string)

  /** A row of `users` (the profile table, not the authentication accounts). */
  datatype User = User(
    userId: string, email: string, role: Option<string>, name: Option<string>,
    pendingApproval: Option<bool>)

  /** A row of `lab_utilization`; hours are whole numbers in this model. */
  datatype Utilization = Utilization(labId: string, date: string, totalHoursUsed: int)
}
