/**
 * The clinic's database context: four tables keyed by identity columns, the
 * relationships and unique indexes the model configuration declares, and
 * what saving an insert, an update or a delete does to them.
 */
module ClinicStore {
  import opened Wrappers
  import opened AppointmentModel
  import opened MedicalRecordModel
  import opened PatientModel
  import opened DoctorModel

  /** The names the database gives the four unique indexes. */
  const PatientPhoneIndex: string := "IX_Patients_PhoneNumber"
  const PatientEmailIndex: string := "IX_Patients_Email"
  const DoctorEmailIndex: string := "IX_Doctors_Email"
  const SlotIndex: string := "IX_Appointments_DoctorId_AppointmentDateTime"

  /** What `SaveChanges` reports. */
  datatype SaveResult =
    | Saved
      /** A `DbUpdateException` raised by the unique index named. */
    | UniqueIndexViolated(index: string)
      /** A `DbUpdateException` raised by a foreign key: a missing row referred to, or a delete the restrict rule refuses. */
    | ForeignKeyViolated
      /** A `DbUpdateConcurrencyException`: the row to update no longer exists. */
    | RowMissing
      /** Any other `DbUpdateException`. */
    | OtherFailure

  class KlinikaDb {
    var patients: map<int, Patient>
    var doctors: map<int, Doctor>
    var appointments: map<int, Appointment>
    var records: map<int, MedicalRecord>
    /** The values the four identity columns hand out next. */
    var nextPatientId: int
    var nextDoctorId: int
    var nextAppointmentId: int
    var nextRecordId: int

    /**
     * Every row is stored under its own Id, and every Id was handed out by
     * its identity column; so the value each column hands out next, and the
     * default Id 0, are free.
     */
    predicate KeysAgree()
      reads this
      ensures KeysAgree() ==>
                && nextPatientId !in patients && nextDoctorId !in doctors
                && nextAppointmentId !in appointments && nextRecordId !in records
                && 0 !in patients && 0 !in doctors && 0 !in appointments && 0 !in records
    {
      && 1 <= nextPatientId && 1 <= nextDoctorId && 1 <= nextAppointmentId && 1 <= nextRecordId
      && (forall k :: k in patients ==> patients[k].Id == k && 1 <= k < nextPatientId)
      && (forall k :: k in doctors ==> doctors[k].Id == k && 1 <= k < nextDoctorId)
      && (forall k :: k in appointments ==> appointments[k].Id == k && 1 <= k < nextAppointmentId)
      && (forall k :: k in records ==> records[k].Id == k && 1 <= k < nextRecordId)
    }

    /** Every appointment and every medical record refers to an existing patient and doctor. */
    predicate ReferencesResolve()
      reads this
    {
      && (forall k :: k in appointments ==> appointments[k].PatientId in patients && appointments[k].DoctorId in doctors)
      && (forall k :: k in records ==> records[k].PatientId in patients && records[k].DoctorId in doctors)
    }

    /**
     * The unique indexes: patient phone numbers, patient emails, doctor
     * emails and (doctor, date-time) pairs of appointments are never shared.
     * An absent email is not indexed, so several rows may lack one.
     */
    predicate IndexesUnique()
      reads this
    {
      && (forall i, j :: i in patients && j in patients && i != j ==> patients[i].PhoneNumber != patients[j].PhoneNumber)
      && (forall i, j :: i in patients && j in patients && i != j && patients[i].Email.Some? ==> patients[i].Email != patients[j].Email)
      && (forall i, j :: i in doctors && j in doctors && i != j && doctors[i].Email.Some? ==> doctors[i].Email != doctors[j].Email)
      && (forall i, j :: i in appointments && j in appointments && i != j ==>
            appointments[i].DoctorId != appointments[j].DoctorId
            || appointments[i].AppointmentDateTime != appointments[j].AppointmentDateTime)
    }

    predicate Valid()
      reads this
    {
      KeysAgree() && ReferencesResolve() && IndexesUnique()
    }

    /** An empty database; every identity column starts at 1. */
    constructor ()
      ensures Valid()
      ensures patients == map[] && doctors == map[] && appointments == map[] && records == map[]
      ensures nextPatientId == 1 && nextDoctorId == 1 && nextAppointmentId == 1 && nextRecordId == 1
    {
      patients := map[];
      doctors := map[];
      appointments := map[];
      records := map[];
      nextPatientId := 1;
      nextDoctorId := 1;
      nextAppointmentId := 1;
      nextRecordId := 1;
    }

    /** Some patient other than `except` has this phone number. */
    predicate PhoneTaken(phone: string, except: int)
      reads this
    {
      exists k :: k in patients && k != except && patients[k].PhoneNumber == phone
    }

    /** Some patient other than `except` has this email. */
    predicate PatientEmailTaken(email: Option<string>, except: int)
      reads this
    {
      email.Some? && exists k :: k in patients && k != except && patients[k].Email == email
    }

    /** Some doctor other than `except` has this email. */
    predicate DoctorEmailTaken(email: Option<string>, except: int)
      reads this
    {
      email.Some? && exists k :: k in doctors && k != except && doctors[k].Email == email
    }

    /** Some appointment other than `except` already holds this doctor at this date-time. */
    predicate SlotTaken(doctorId: int, at: int, except: int)
      reads this
    {
      exists k :: k in appointments && k != except && appointments[k].DoctorId == doctorId && appointments[k].AppointmentDateTime == at
    }

    /** Some appointment or medical record refers to patient `id`. */
    predicate PatientReferenced(id: int)
      reads this
    {
      || (exists k :: k in appointments && appointments[k].PatientId == id)
      || (exists k :: k in records && records[k].PatientId == id)
    }

    /** Some appointment or medical record refers to doctor `id`. */
    predicate DoctorReferenced(id: int)
      reads this
    {
      || (exists k :: k in appointments && appointments[k].DoctorId == id)
      || (exists k :: k in records && records[k].DoctorId == id)
    }

    /** `Patients.AnyAsync(p => p.Id == id)`. */
    predicate AnyPatient(id: int)
      reads this
    {
      exists k :: k in patients && patients[k].Id == id
    }

    /** `Doctors.AnyAsync(d => d.Id == id && d.IsActive)`. */
    predicate AnyActiveDoctor(id: int)
      reads this
    {
      exists k :: k in doctors && doctors[k].Id == id && doctors[k].IsActive
    }

    /** `Doctors.Where(d => d.IsActive)`: the doctors a form offers to choose from. */
    function ActiveDoctors(): (ids: set<int>)
      reads this
      requires KeysAgree()
      ensures forall id :: id in ids <==> AnyActiveDoctor(id)
    {
      set k | k in doctors && doctors[k].IsActive
    }

    /** With ids and keys in agreement, the existence queries are key lookups. */
    lemma QueriesAreLookups(id: int)
      requires KeysAgree()
      ensures AnyPatient(id) <==> id in patients
      ensures AnyActiveDoctor(id) <==> id in doctors && doctors[id].IsActive
    {
      if id in patients {
        assert patients[id].Id == id;
      }
      if id in doctors && doctors[id].IsActive {
        assert doctors[id].Id == id;
      }
    }

    /** A stored appointment's slot belongs to no other appointment, and a new Id's slot is free exactly when no stored appointment holds it. */
    lemma SlotsBelongToOne(k: int)
      requires Valid() && k in appointments
      ensures !SlotTaken(appointments[k].DoctorId, appointments[k].AppointmentDateTime, k)
      ensures SlotTaken(appointments[k].DoctorId, appointments[k].AppointmentDateTime, nextAppointmentId)
    {
    }

    /** Under the foreign keys, whatever an appointment or record refers to exists: restrict delete has something to protect. */
    lemma ReferencedRowsExist(id: int)
      requires ReferencesResolve()
      ensures PatientReferenced(id) ==> id in patients
      ensures DoctorReferenced(id) ==> id in doctors
    {
    }

    /** Under the unique indexes, no stored patient's phone or email and no stored appointment's slot is taken by another row. */
    lemma IndexedValuesOwned(k: int)
      requires IndexesUnique()
      ensures k in patients ==> !PhoneTaken(patients[k].PhoneNumber, k) && !PatientEmailTaken(patients[k].Email, k)
      ensures k in doctors ==> !DoctorEmailTaken(doctors[k].Email, k)
      ensures k in appointments ==> !SlotTaken(appointments[k].DoctorId, appointments[k].AppointmentDateTime, k)
    {
    }

    /** `Patients.Add(p)` then `SaveChanges`: the phone and email indexes are checked, the identity column gives the Id. */
    method AddPatient(p: Patient) returns (result: SaveResult, id: int)
      requires Valid()
      modifies this
      ensures Valid()
      ensures old(PhoneTaken(p.PhoneNumber, nextPatientId)) ==> result == UniqueIndexViolated(PatientPhoneIndex)
      ensures !old(PhoneTaken(p.PhoneNumber, nextPatientId)) && old(PatientEmailTaken(p.Email, nextPatientId)) ==>
                result == UniqueIndexViolated(PatientEmailIndex)
      ensures result.Saved? <==> !old(PhoneTaken(p.PhoneNumber, nextPatientId)) && !old(PatientEmailTaken(p.Email, nextPatientId))
      ensures result.Saved? ==> id == old(nextPatientId) && patients == old(patients)[id := p.(Id := id)] && nextPatientId == id + 1
      ensures !result.Saved? ==> unchanged(this)
      ensures doctors == old(doctors) && appointments == old(appointments) && records == old(records)
      ensures nextDoctorId == old(nextDoctorId) && nextAppointmentId == old(nextAppointmentId) && nextRecordId == old(nextRecordId)
    {
      id := nextPatientId;
      if PhoneTaken(p.PhoneNumber, id) {
        result := UniqueIndexViolated(PatientPhoneIndex);
      } else if PatientEmailTaken(p.Email, id) {
        result := UniqueIndexViolated(PatientEmailIndex);
      } else {
        patients := patients[id := p.(Id := id)];
        nextPatientId := id + 1;
        result := Saved;
      }
    }

    /** `Doctors.Add(d)` then `SaveChanges`: the email index is checked, the identity column gives the Id. */
    method AddDoctor(d: Doctor) returns (result: SaveResult, id: int)
      requires Valid()
      modifies this
      ensures Valid()
      ensures result.Saved? || result == UniqueIndexViolated(DoctorEmailIndex)
      ensures result.Saved? <==> !old(DoctorEmailTaken(d.Email, nextDoctorId))
      ensures result.Saved? ==> id == old(nextDoctorId) && doctors == old(doctors)[id := d.(Id := id)] && nextDoctorId == id + 1
      ensures !result.Saved? ==> unchanged(this)
      ensures patients == old(patients) && appointments == old(appointments) && records == old(records)
      ensures nextPatientId == old(nextPatientId) && nextAppointmentId == old(nextAppointmentId) && nextRecordId == old(nextRecordId)
    {
      id := nextDoctorId;
      if DoctorEmailTaken(d.Email, id) {
        result := UniqueIndexViolated(DoctorEmailIndex);
      } else {
        doctors := doctors[id := d.(Id := id)];
        nextDoctorId := id + 1;
        result := Saved;
      }
    }

    /** `Patients.Remove` then `SaveChanges`: refused while an appointment or record refers to the patient; an unknown id changes nothing. */
    method RemovePatient(id: int) returns (result: SaveResult)
      requires Valid()
      modifies this
      ensures Valid()
      ensures old(PatientReferenced(id)) ==> result == ForeignKeyViolated && unchanged(this)
      ensures !old(PatientReferenced(id)) ==> result == Saved && patients == old(patients) - {id}
      ensures doctors == old(doctors) && appointments == old(appointments) && records == old(records)
      ensures nextPatientId == old(nextPatientId) && nextDoctorId == old(nextDoctorId)
      ensures nextAppointmentId == old(nextAppointmentId) && nextRecordId == old(nextRecordId)
    {
      if PatientReferenced(id) {
        result := ForeignKeyViolated;
      } else {
        patients := patients - {id};
        result := Saved;
      }
    }

    /** `Doctors.Remove` then `SaveChanges`: refused while an appointment or record refers to the doctor; an unknown id changes nothing. */
    method RemoveDoctor(id: int) returns (result: SaveResult)
      requires Valid()
      modifies this
      ensures Valid()
      ensures old(DoctorReferenced(id)) ==> result == ForeignKeyViolated && unchanged(this)
      ensures !old(DoctorReferenced(id)) ==> result == Saved && doctors == old(doctors) - {id}
      ensures patients == old(patients) && appointments == old(appointments) && records == old(records)
      ensures nextPatientId == old(nextPatientId) && nextDoctorId == old(nextDoctorId)
      ensures nextAppointmentId == old(nextAppointmentId) && nextRecordId == old(nextRecordId)
    {
      if DoctorReferenced(id) {
        result := ForeignKeyViolated;
      } else {
        doctors := doctors - {id};
        result := Saved;
      }
    }

    /**
     * `Appointments.Add(a)` then `SaveChanges`. `fails` stands for a database
     * error the model does not otherwise represent. Otherwise the insert is
     * refused when a reference is missing or the doctor's slot is taken, and
     * else stored under the next identity value.
     */
    method AddAppointment(a: Appointment, fails: bool) returns (result: SaveResult, id: int)
      requires Valid()
      modifies this
      ensures Valid()
      ensures fails ==> result == OtherFailure
      ensures !fails && !(old(a.PatientId in patients) && old(a.DoctorId in doctors)) ==> result == ForeignKeyViolated
      ensures !fails && old(a.PatientId in patients) && old(a.DoctorId in doctors) && old(SlotTaken(a.DoctorId, a.AppointmentDateTime, nextAppointmentId)) ==>
                result == UniqueIndexViolated(SlotIndex)
      ensures result.Saved? <==>
                (!fails && old(a.PatientId in patients) && old(a.DoctorId in doctors)
                 && !old(SlotTaken(a.DoctorId, a.AppointmentDateTime, nextAppointmentId)))
      ensures id == old(nextAppointmentId)
      ensures result.Saved? ==> appointments == old(appointments)[id := a.(Id := id)] && nextAppointmentId == id + 1
      ensures !result.Saved? ==> unchanged(this)
      ensures patients == old(patients) && doctors == old(doctors) && records == old(records)
      ensures nextPatientId == old(nextPatientId) && nextDoctorId == old(nextDoctorId) && nextRecordId == old(nextRecordId)
    {
      id := nextAppointmentId;
      if fails {
        result := OtherFailure;
      } else if !(a.PatientId in patients && a.DoctorId in doctors) {
        result := ForeignKeyViolated;
      } else if SlotTaken(a.DoctorId, a.AppointmentDateTime, id) {
        result := UniqueIndexViolated(SlotIndex);
      } else {
        appointments := appointments[id := a.(Id := id)];
        nextAppointmentId := id + 1;
        result := Saved;
      }
    }

    /**
     * `Appointments.Update(a)` then `SaveChanges`. An appointment whose Id is
     * the default 0 is tracked as a new row, so it is inserted exactly as
     * `AddAppointment` would insert it. Otherwise the row with `a.Id` is
     * replaced by `a`, unless there is no such row, a reference is missing or
     * the doctor's slot belongs to another appointment. `id` is the key the
     * row ends up under.
     */
    method UpdateAppointment(a: Appointment) returns (result: SaveResult, id: int)
      requires Valid()
      modifies this
      ensures Valid()
      ensures id == if a.Id == 0 then old(nextAppointmentId) else a.Id
      ensures a.Id != 0 && old(a.Id !in appointments) ==> result == RowMissing
      ensures (a.Id == 0 || old(a.Id in appointments)) && !(old(a.PatientId in patients) && old(a.DoctorId in doctors)) ==>
                result == ForeignKeyViolated
      ensures ((a.Id == 0 || old(a.Id in appointments)) && old(a.PatientId in patients) && old(a.DoctorId in doctors)
               && old(SlotTaken(a.DoctorId, a.AppointmentDateTime, a.Id))) ==> result == UniqueIndexViolated(SlotIndex)
      ensures result.Saved? <==>
                ((a.Id == 0 || old(a.Id in appointments)) && old(a.PatientId in patients) && old(a.DoctorId in doctors)
                 && !old(SlotTaken(a.DoctorId, a.AppointmentDateTime, a.Id)))
      ensures result.Saved? ==> appointments == old(appointments)[id := a.(Id := id)]
      ensures nextAppointmentId == if result.Saved? && a.Id == 0 then old(nextAppointmentId) + 1 else old(nextAppointmentId)
      ensures !result.Saved? ==> unchanged(this)
      ensures patients == old(patients) && doctors == old(doctors) && records == old(records)
      ensures nextPatientId == old(nextPatientId) && nextDoctorId == old(nextDoctorId) && nextRecordId == old(nextRecordId)
    {
      if a.Id == 0 {
        assert SlotTaken(a.DoctorId, a.AppointmentDateTime, 0) == SlotTaken(a.DoctorId, a.AppointmentDateTime, nextAppointmentId);
        result, id := AddAppointment(a, false);
      } else if a.Id !in appointments {
        id := a.Id;
        result := RowMissing;
      } else if !(a.PatientId in patients && a.DoctorId in doctors) {
        id := a.Id;
        result := ForeignKeyViolated;
      } else if SlotTaken(a.DoctorId, a.AppointmentDateTime, a.Id) {
        id := a.Id;
        result := UniqueIndexViolated(SlotIndex);
      } else {
        id := a.Id;
        appointments := appointments[id := a];
        result := Saved;
      }
    }

    /** `Appointments.Remove` then `SaveChanges`: nothing refers to an appointment, so the row simply goes. */
    method RemoveAppointment(id: int)
      requires Valid()
      modifies this
      ensures Valid()
      ensures appointments == old(appointments) - {id}
      ensures patients == old(patients) && doctors == old(doctors) && records == old(records)
      ensures nextPatientId == old(nextPatientId) && nextDoctorId == old(nextDoctorId)
      ensures nextAppointmentId == old(nextAppointmentId) && nextRecordId == old(nextRecordId)
    {
      appointments := appointments - {id};
    }

    /** `MedicalRecords.Add(r)` then `SaveChanges`: refused when a reference is missing, else stored under the next identity value. */
    method AddRecord(r: MedicalRecord) returns (result: SaveResult, id: int)
      requires Valid()
      modifies this
      ensures Valid()
      ensures result.Saved? || result == ForeignKeyViolated
      ensures result.Saved? <==> old(r.PatientId in patients) && old(r.DoctorId in doctors)
      ensures id == old(nextRecordId)
      ensures result.Saved? ==> records == old(records)[id := r.(Id := id)] && nextRecordId == id + 1
      ensures !result.Saved? ==> unchanged(this)
      ensures patients == old(patients) && doctors == old(doctors) && appointments == old(appointments)
      ensures nextPatientId == old(nextPatientId) && nextDoctorId == old(nextDoctorId) && nextAppointmentId == old(nextAppointmentId)
    {
      id := nextRecordId;
      if !(r.PatientId in patients && r.DoctorId in doctors) {
        result := ForeignKeyViolated;
      } else {
        records := records[id := r.(Id := id)];
        nextRecordId := id + 1;
        result := Saved;
      }
    }

    /**
     * `MedicalRecords.Update(r)` then `SaveChanges`. A record whose Id is the
     * default 0 is tracked as a new row, so it is inserted exactly as
     * `AddRecord` would insert it. Otherwise the row with `r.Id` is replaced
     * by `r`, unless there is none or a reference is missing. `id` is the key
     * the row ends up under.
     */
    method UpdateRecord(r: MedicalRecord) returns (result: SaveResult, id: int)
      requires Valid()
      modifies this
      ensures Valid()
      ensures id == if r.Id == 0 then old(nextRecordId) else r.Id
      ensures r.Id != 0 && old(r.Id !in records) ==> result == RowMissing
      ensures (r.Id == 0 || old(r.Id in records)) && !(old(r.PatientId in patients) && old(r.DoctorId in doctors)) ==>
                result == ForeignKeyViolated
      ensures result.Saved? <==> (r.Id == 0 || old(r.Id in records)) && old(r.PatientId in patients) && old(r.DoctorId in doctors)
      ensures result.Saved? ==> records == old(records)[id := r.(Id := id)]
      ensures nextRecordId == if result.Saved? && r.Id == 0 then old(nextRecordId) + 1 else old(nextRecordId)
      ensures !result.Saved? ==> unchanged(this)
      ensures patients == old(patients) && doctors == old(doctors) && appointments == old(appointments)
      ensures nextPatientId == old(nextPatientId) && nextDoctorId == old(nextDoctorId) && nextAppointmentId == old(nextAppointmentId)
    {
      if r.Id == 0 {
        result, id := AddRecord(r);
      } else if r.Id !in records {
        id := r.Id;
        result := RowMissing;
      } else if !(r.PatientId in patients && r.DoctorId in doctors) {
        id := r.Id;
        result := ForeignKeyViolated;
      } else {
        id := r.Id;
        records := records[id := r];
        result := Saved;
      }
    }

    /** `MedicalRecords.Remove` then `SaveChanges`: nothing refers to a record, so the row simply goes. */
    method RemoveRecord(id: int)
      requires Valid()
      modifies this
      ensures Valid()
      ensures records == old(records) - {id}
      ensures patients == old(patients) && doctors == old(doctors) && appointments == old(appointments)
      ensures nextPatientId == old(nextPatientId) && nextDoctorId == old(nextDoctorId)
      ensures nextAppointmentId == old(nextAppointmentId) && nextRecordId == old(nextRecordId)
    {
      records := records - {id};
    }
  }
}
