/**
 * The medical-record actions: the list filtered by patient, the pre-filled
 * create form, create with its existence checks, edit and delete. `now`
 * stands for `DateTime.Now`.
 */
module MedicalRecordsControllers {
  import opened Wrappers
  import opened Annotations
  import opened MedicalRecordModel
  import opened ClinicStore
  import opened Mvc

  class MedicalRecordsController {
    const context: KlinikaDb

    constructor (context: KlinikaDb)
      ensures this.context == context
    {
      this.context := context;
    }

    /** GET Index: the records of the patient given, or every record when none is given. */
    function Index(patientId: Option<int>): (shown: map<int, MedicalRecord>)
      reads context
      ensures forall k :: k in shown <==> k in context.records && (patientId.Some? ==> context.records[k].PatientId == patientId.value)
      ensures forall k :: k in shown ==> shown[k] == context.records[k]
    {
      if patientId.None? then context.records
      else map k | k in context.records && context.records[k].PatientId == patientId.value :: context.records[k]
    }

    /** The records are split among the patients: each record is listed for its own patient and for no other. */
    lemma IndexPartitionsRecords(p: int, q: int)
      ensures Index(None) == context.records
      ensures forall k :: k in Index(Some(p)) ==> k in Index(None)
      ensures p != q ==> forall k :: !(k in Index(Some(p)) && k in Index(Some(q)))
      ensures forall k :: k in context.records ==> k in Index(Some(context.records[k].PatientId))
    {
    }

    /**
     * GET Create: a record for the patient and doctor given (0 when not
     * given), dated now. It passes validation exactly when both ids are
     * given and in range.
     */
    function CreateForm(patientId: Option<int>, doctorId: Option<int>, now: int): (r: MedicalRecord)
      ensures r.PatientId == patientId.GetOr(0) && r.DoctorId == doctorId.GetOr(0)
      ensures r.RecordDate == Some(now)
      ensures IsValid(r) <==> (patientId.Some? && 1 <= patientId.value <= IntMaxValue
                               && doctorId.Some? && 1 <= doctorId.value <= IntMaxValue)
    {
      var r := MedicalRecord(0, patientId.GetOr(0), doctorId.GetOr(0), Some(now), None, None, None, None, None, None, None);
      assert forall i :: 0 <= i < |Texts(r)| ==> Texts(r)[i].None?;
      r
    }

    /**
     * POST Create. `r` holds the bound fields; Id is not bound. An invalid
     * form, an unknown patient or a missing or inactive doctor (both reported
     * together) leave the database unchanged; otherwise exactly one record is
     * added, under the next Id.
     */
    method Create(r: MedicalRecord) returns (result: ActionResult)
      requires context.Valid()
      modifies context
      ensures context.Valid()
      ensures !IsValid(r) ==> result == Redisplay([])
      ensures IsValid(r) && !old(context.AnyPatient(r.PatientId)) ==>
                result.Redisplay? && ModelError("PatientId", PatientNotFound) in result.errors
      ensures IsValid(r) && !old(context.AnyActiveDoctor(r.DoctorId)) ==>
                result.Redisplay? && ModelError("DoctorId", DoctorUnavailable) in result.errors
      ensures IsValid(r) && !(old(context.AnyPatient(r.PatientId)) && old(context.AnyActiveDoctor(r.DoctorId))) ==>
                result == Redisplay((if old(context.AnyPatient(r.PatientId)) then [] else [ModelError("PatientId", PatientNotFound)])
                                    + (if old(context.AnyActiveDoctor(r.DoctorId)) then [] else [ModelError("DoctorId", DoctorUnavailable)]))
      ensures result == RedirectToIndex <==>
                (IsValid(r) && old(context.AnyPatient(r.PatientId)) && old(context.AnyActiveDoctor(r.DoctorId)))
      ensures result.Redisplay? || result == RedirectToIndex
      ensures result.Redisplay? ==> unchanged(context)
      ensures result == RedirectToIndex ==>
                && context.records == old(context.records)[old(context.nextRecordId) := r.(Id := old(context.nextRecordId))]
                && |context.records| == |old(context.records)| + 1
                && context.nextRecordId == old(context.nextRecordId) + 1
                && context.patients == old(context.patients) && context.doctors == old(context.doctors)
                && context.appointments == old(context.appointments)
    {
      if !IsValid(r) {
        return Redisplay([]);
      }
      var patientExists := context.AnyPatient(r.PatientId);
      var doctorExists := context.AnyActiveDoctor(r.DoctorId);
      var errors: seq<ModelError> := [];
      if !patientExists {
        errors := errors + [ModelError("PatientId", PatientNotFound)];
      }
      if !doctorExists {
        errors := errors + [ModelError("DoctorId", DoctorUnavailable)];
      }
      if errors != [] {
        return Redisplay(errors);
      }
      context.QueriesAreLookups(r.PatientId);
      context.QueriesAreLookups(r.DoctorId);
      ghost var before := context.records;
      var saved, id := context.AddRecord(r);
      assert id !in before;
      result := RedirectToIndex;
    }

    /**
     * POST Edit. A route id that differs from `r.Id` is NotFound; an invalid
     * form is shown again; otherwise `r` is saved: it replaces the stored row
     * with its Id, or, when its Id is the default 0, it is inserted under the
     * next identity value. A row that no longer exists is NotFound; a missing
     * reference raises an exception the action does not catch.
     */
    method Edit(id: int, r: MedicalRecord) returns (result: ActionResult)
      requires context.Valid()
      modifies context
      ensures context.Valid()
      ensures id != r.Id ==> result == NotFound
      ensures id == r.Id && !IsValid(r) ==> result == Redisplay([])
      ensures id == r.Id && IsValid(r) && r.Id != 0 && r.Id !in old(context.records) ==> result == NotFound
      ensures (id == r.Id && IsValid(r) && (r.Id == 0 || r.Id in old(context.records))
               && (r.PatientId !in old(context.patients) || r.DoctorId !in old(context.doctors))) ==> result == Unhandled
      ensures result == RedirectToIndex <==>
                (id == r.Id && IsValid(r) && (r.Id == 0 || r.Id in old(context.records))
                 && r.PatientId in old(context.patients) && r.DoctorId in old(context.doctors))
      ensures result != RedirectToIndex ==> unchanged(context)
      ensures result == RedirectToIndex && r.Id != 0 ==>
                && context.records == old(context.records)[r.Id := r]
                && context.nextRecordId == old(context.nextRecordId)
      ensures result == RedirectToIndex && r.Id == 0 ==>
                && context.records == old(context.records)[old(context.nextRecordId) := r.(Id := old(context.nextRecordId))]
                && context.nextRecordId == old(context.nextRecordId) + 1
      ensures result == RedirectToIndex ==>
                && context.patients == old(context.patients) && context.doctors == old(context.doctors)
                && context.appointments == old(context.appointments)
    {
      if id != r.Id {
        return NotFound;
      }
      if !IsValid(r) {
        return Redisplay([]);
      }
      var saved, key := context.UpdateRecord(r);
      if saved == Saved {
        result := RedirectToIndex;
      } else if saved == RowMissing {
        result := NotFound;
      } else {
        result := Unhandled;
      }
    }

    /** POST DeleteConfirmed: the record with that id is gone and nothing else changed; an unknown id is no change at all. */
    method DeleteConfirmed(id: int) returns (result: ActionResult)
      requires context.Valid()
      modifies context
      ensures context.Valid()
      ensures result == RedirectToIndex
      ensures context.records == old(context.records) - {id}
      ensures id !in old(context.records) ==> unchanged(context)
      ensures context.patients == old(context.patients) && context.doctors == old(context.doctors)
      ensures context.appointments == old(context.appointments)
      ensures context.nextPatientId == old(context.nextPatientId) && context.nextDoctorId == old(context.nextDoctorId)
      ensures context.nextAppointmentId == old(context.nextAppointmentId) && context.nextRecordId == old(context.nextRecordId)
    {
      if id in context.records {
        context.RemoveRecord(id);
      }
      result := RedirectToIndex;
    }
  }
}
