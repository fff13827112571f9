/** The appointment entity: its fields, defaults, status enumeration and validation rules. */
module AppointmentModel {
  import opened Wrappers
  import opened Text
  import opened Annotations

  /** `AppointmentStatus`, an enumeration backed by the integers 0..4. */
  datatype AppointmentStatus = Scheduled | Confirmed | Completed | Cancelled | NotVisited

  /** The integer each status is stored as. */
  function StatusValue(s: AppointmentStatus): int {
    match s
    case Scheduled => 0
    case Confirmed => 1
    case Completed => 2
    case Cancelled => 3
    case NotVisited => 4
  }

  /** The status a stored or bound integer denotes, if any: only the five declared values 0..4 denote one. */
  function StatusOf(v: int): (r: Option<AppointmentStatus>)
    ensures r.Some? <==> 0 <= v <= 4
  {
    if v == 0 then Some(Scheduled)
    else if v == 1 then Some(Confirmed)
    else if v == 2 then Some(Completed)
    else if v == 3 then Some(Cancelled)
    else if v == 4 then Some(NotVisited)
    else None
  }

  /** The five statuses and their stored values correspond one to one. */
  lemma StatusRoundTrip(s: AppointmentStatus, v: int)
    ensures StatusOf(StatusValue(s)) == Some(s)
    ensures StatusOf(v).Some? ==> StatusValue(StatusOf(v).value) == v
  {
  }

  /** The limit of `[StringLength(1000)]` on Complaints. */
  const ComplaintsMaxLength: nat := 1000

  /** The default duration of an appointment, in minutes. */
  const DefaultDurationMinutes: int := 30

  /** Date-times are whole seconds on one time line. */
  datatype Appointment = Appointment(
    Id: int,
    PatientId: int,
    DoctorId: int,
    AppointmentDateTime: int,
    DurationMinutes: int,
    AppointmentType: Option<string>,
    Complaints: Option<string>,
    Status: AppointmentStatus,
    Notes: Option<string>,
    CreatedDate: int,
    UpdatedDate: Option<int>)

  /** `new Appointment()` at time `now`: both date-times are `now`, everything optional is absent. */
  function NewAppointment(now: int): Appointment {
    Appointment(0, 0, 0, now, DefaultDurationMinutes, None, None, Scheduled, None, now, None)
  }

  /**
   * The annotations of Appointment. `[Required]` on the non-nullable
   * PatientId, DoctorId and AppointmentDateTime always passes, so only the
   * length of Complaints is checked.
   */
  predicate IsValid(a: Appointment) {
    MaxLength(a.Complaints, ComplaintsMaxLength)
  }

  /** A new appointment is Scheduled, lasts 30 minutes, has no update date and passes validation. */
  lemma NewAppointmentDefaults(now: int)
    ensures NewAppointment(now).Status == Scheduled && StatusValue(NewAppointment(now).Status) == 0
    ensures NewAppointment(now).DurationMinutes == 30
    ensures NewAppointment(now).UpdatedDate.None?
    ensures IsValid(NewAppointment(now))
  {
  }

  /**
   * Only the length of Complaints decides validity: at most 1000 UTF-16
   * code units passes, 1001 or more fails, whatever the ids, type, notes or status.
   */
  lemma ComplaintsRule(a: Appointment, complaints: string)
    ensures IsValid(a.(Complaints := Some(complaints))) <==> Utf16Length(complaints) <= 1000
    ensures IsValid(a.(Complaints := None))
    ensures IsValid(a) == IsValid(a.(AppointmentType := None, Notes := None))
    ensures IsValid(a) == IsValid(a.(PatientId := 0, DoctorId := 0))
  {
  }
}
