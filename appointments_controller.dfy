/**
 * The appointment actions that change the database: the pre-filled create
 * form, create with its existence checks and the slot conflict, edit and
 * delete. `now` stands for `DateTime.Now`.
 */
module AppointmentsControllers {
  import opened Wrappers
  import opened AppointmentModel
  import opened ClinicStore
  import opened Mvc

  const SlotConflict: string := "На обраний час у лікаря вже є запис. Оберіть інший час."
  const SaveFailed: string := "Не вдалося зберегти запис. Спробуйте ще раз."

  /** One hour, in seconds: how far ahead the create form proposes the appointment. */
  const SecondsPerHour: int := 3600

  class AppointmentsController {
    const context: KlinikaDb

    constructor (context: KlinikaDb)
      ensures this.context == context
    {
      this.context := context;
    }

    /**
     * GET Create: a new appointment for the patient and doctor given (0 when
     * not given), one hour from now, 30 minutes long and Scheduled. The form
     * as proposed passes validation.
     */
    function CreateForm(patientId: Option<int>, doctorId: Option<int>, now: int): (a: Appointment)
      ensures a.PatientId == patientId.GetOr(0) && a.DoctorId == doctorId.GetOr(0)
      ensures a.AppointmentDateTime == now + SecondsPerHour && a.AppointmentDateTime > now
      ensures a.DurationMinutes == 30 && a.Status == Scheduled && a.UpdatedDate.None?
      ensures IsValid(a)
    {
      NewAppointment(now).(
        PatientId := patientId.GetOr(0),
        DoctorId := doctorId.GetOr(0),
        AppointmentDateTime := now + SecondsPerHour,
        DurationMinutes := DefaultDurationMinutes,
        Status := Scheduled)
    }

    /**
     * POST Create. `a` holds the bound fields; Id and UpdatedDate are not
     * bound. `storeFails` stands for a database error other than the slot
     * index. An invalid form, an unknown patient or a missing or inactive
     * doctor (both reported together), a taken slot and a failed save all
     * leave the database unchanged; otherwise the appointment is stored
     * under the next Id, created now, never updated.
     */
    method Create(a: Appointment, now: int, storeFails: bool) returns (result: ActionResult)
      requires context.Valid()
      modifies context
      ensures context.Valid()
      ensures !IsValid(a) ==> result == Redisplay([])
      ensures IsValid(a) && !old(context.AnyPatient(a.PatientId)) ==>
                result.Redisplay? && ModelError("PatientId", PatientNotFound) in result.errors
      ensures IsValid(a) && !old(context.AnyActiveDoctor(a.DoctorId)) ==>
                result.Redisplay? && ModelError("DoctorId", DoctorUnavailable) in result.errors
      ensures IsValid(a) && !(old(context.AnyPatient(a.PatientId)) && old(context.AnyActiveDoctor(a.DoctorId))) ==>
                result == Redisplay((if old(context.AnyPatient(a.PatientId)) then [] else [ModelError("PatientId", PatientNotFound)])
                                    + (if old(context.AnyActiveDoctor(a.DoctorId)) then [] else [ModelError("DoctorId", DoctorUnavailable)]))
      ensures (IsValid(a) && old(context.AnyPatient(a.PatientId)) && old(context.AnyActiveDoctor(a.DoctorId)) && storeFails) ==>
                result == Redisplay([ModelError("", SaveFailed)])
      ensures (IsValid(a) && old(context.AnyPatient(a.PatientId)) && old(context.AnyActiveDoctor(a.DoctorId)) && !storeFails
               && old(context.SlotTaken(a.DoctorId, a.AppointmentDateTime, context.nextAppointmentId))) ==>
                result == Redisplay([ModelError("AppointmentDateTime", SlotConflict)])
      ensures result == RedirectToIndex <==>
                (IsValid(a) && old(context.AnyPatient(a.PatientId)) && old(context.AnyActiveDoctor(a.DoctorId)) && !storeFails
                 && !old(context.SlotTaken(a.DoctorId, a.AppointmentDateTime, context.nextAppointmentId)))
      ensures result.Redisplay? || result == RedirectToIndex
      ensures result.Redisplay? ==> unchanged(context)
      ensures result == RedirectToIndex ==>
                && context.appointments == old(context.appointments)[old(context.nextAppointmentId) :=
                     a.(Id := old(context.nextAppointmentId), CreatedDate := now, UpdatedDate := None)]
                && context.nextAppointmentId == old(context.nextAppointmentId) + 1
                && context.patients == old(context.patients) && context.doctors == old(context.doctors)
                && context.records == old(context.records)
    {
      if !IsValid(a) {
        return Redisplay([]);
      }
      var patientExists := context.AnyPatient(a.PatientId);
      var doctorExists := context.AnyActiveDoctor(a.DoctorId);
      var errors: seq<ModelError> := [];
      if !patientExists {
        errors := errors + [ModelError("PatientId", PatientNotFound)];
      }
      if !doctorExists {
        errors := errors + [ModelError("DoctorId", DoctorUnavailable)];
      }
      if errors != [] {
        return Redisplay(errors);
      }
      context.QueriesAreLookups(a.PatientId);
      context.QueriesAreLookups(a.DoctorId);
      var saved, id := context.AddAppointment(a.(CreatedDate := now, UpdatedDate := None), storeFails);
      if saved == Saved {
        result := RedirectToIndex;
      } else if saved == UniqueIndexViolated(SlotIndex) {
        result := Redisplay([ModelError("AppointmentDateTime", SlotConflict)]);
      } else {
        result := Redisplay([ModelError("", SaveFailed)]);
      }
    }

    /**
     * Two identical create submissions in a row: the first books the slot,
     * the second is refused by the unique index on (doctor, date-time) and
     * leaves the database as the first left it.
     */
    method SecondBookingRefused(a: Appointment, now: int) returns (first: ActionResult, second: ActionResult)
      requires context.Valid()
      requires IsValid(a) && context.AnyPatient(a.PatientId) && context.AnyActiveDoctor(a.DoctorId)
      requires !context.SlotTaken(a.DoctorId, a.AppointmentDateTime, context.nextAppointmentId)
      modifies context
      ensures context.Valid()
      ensures first == RedirectToIndex
      ensures second == Redisplay([ModelError("AppointmentDateTime", SlotConflict)])
      ensures |context.appointments| == |old(context.appointments)| + 1
    {
      ghost var before := context.appointments;
      ghost var id := context.nextAppointmentId;
      first := Create(a, now, false);
      assert id !in before;
      assert context.appointments[id].DoctorId == a.DoctorId;
      assert context.SlotTaken(a.DoctorId, a.AppointmentDateTime, context.nextAppointmentId);
      second := Create(a, now, false);
    }

    /**
     * POST Edit. `a` holds every bound field but UpdatedDate. A route id
     * that differs from `a.Id` is NotFound; an invalid form is shown again;
     * otherwise `a`, updated now, is saved without Create's existence checks.
     * It replaces the stored row with its Id, or, when its Id is the default
     * 0, it is inserted under the next identity value. A row that no longer
     * exists is NotFound; a missing reference or a taken slot raises an
     * exception the action does not catch.
     */
    method Edit(id: int, a: Appointment, now: int) returns (result: ActionResult)
      requires context.Valid()
      modifies context
      ensures context.Valid()
      ensures id != a.Id ==> result == NotFound
      ensures id == a.Id && !IsValid(a) ==> result == Redisplay([])
      ensures id == a.Id && IsValid(a) && a.Id != 0 && a.Id !in old(context.appointments) ==> result == NotFound
      ensures (id == a.Id && IsValid(a) && (a.Id == 0 || a.Id in old(context.appointments))
               && (a.PatientId !in old(context.patients) || a.DoctorId !in old(context.doctors)
                   || old(context.SlotTaken(a.DoctorId, a.AppointmentDateTime, a.Id)))) ==> result == Unhandled
      ensures result == RedirectToIndex <==>
                (id == a.Id && IsValid(a) && (a.Id == 0 || a.Id in old(context.appointments))
                 && a.PatientId in old(context.patients) && a.DoctorId in old(context.doctors)
                 && !old(context.SlotTaken(a.DoctorId, a.AppointmentDateTime, a.Id)))
      ensures result != RedirectToIndex ==> unchanged(context)
      ensures result == RedirectToIndex && a.Id != 0 ==>
                && context.appointments == old(context.appointments)[a.Id := a.(UpdatedDate := Some(now))]
                && context.nextAppointmentId == old(context.nextAppointmentId)
      ensures result == RedirectToIndex && a.Id == 0 ==>
                && context.appointments == old(context.appointments)[old(context.nextAppointmentId) :=
                     a.(Id := old(context.nextAppointmentId), UpdatedDate := Some(now))]
                && context.nextAppointmentId == old(context.nextAppointmentId) + 1
      ensures result == RedirectToIndex ==>
                && context.patients == old(context.patients) && context.doctors == old(context.doctors)
                && context.records == old(context.records)
    {
      if id != a.Id {
        return NotFound;
      }
      if !IsValid(a) {
        return Redisplay([]);
      }
      var saved, key := context.UpdateAppointment(a.(UpdatedDate := Some(now)));
      if saved == Saved {
        result := RedirectToIndex;
      } else if saved == RowMissing {
        result := NotFound;
      } else {
        result := Unhandled;
      }
    }

    /** POST DeleteConfirmed: the appointment with that id is gone and nothing else changed; an unknown id is no change at all. */
    method DeleteConfirmed(id: int) returns (result: ActionResult)
      requires context.Valid()
      modifies context
      ensures context.Valid()
      ensures result == RedirectToIndex
      ensures context.appointments == old(context.appointments) - {id}
      ensures id !in old(context.appointments) ==> unchanged(context)
      ensures context.patients == old(context.patients) && context.doctors == old(context.doctors)
      ensures context.records == old(context.records)
      ensures context.nextPatientId == old(context.nextPatientId) && context.nextDoctorId == old(context.nextDoctorId)
      ensures context.nextAppointmentId == old(context.nextAppointmentId) && context.nextRecordId == old(context.nextRecordId)
    {
      if id in context.appointments {
        context.RemoveAppointment(id);
      }
      result := RedirectToIndex;
    }
  }
}
