/** The medical-record entity and its validation rules. */
module MedicalRecordModel {
  import opened Wrappers
  import opened Text
  import opened Annotations

  /** The limit of `[StringLength(1000)]` on every free-text field. */
  const TextMaxLength: nat := 1000

  datatype MedicalRecord = MedicalRecord(
    Id: int,
    PatientId: int,
    DoctorId: int,
    RecordDate: Option<int>,
    Diagnosis: Option<string>,
    Symptoms: Option<string>,
    Treatment: Option<string>,
    Prescriptions: Option<string>,
    Recommendations: Option<string>,
    Notes: Option<string>,
    NextVisitDate: Option<int>)

  /** The six free-text fields, in declaration order. */
  function Texts(r: MedicalRecord): seq<Option<string>> {
    [r.Diagnosis, r.Symptoms, r.Treatment, r.Prescriptions, r.Recommendations, r.Notes]
  }

  /**
   * The annotations of MedicalRecord: both ids in `[Range(1, int.MaxValue)]`,
   * a record date present (`[Required]` on a nullable date) and every text
   * at most 1000 UTF-16 code units. NextVisitDate carries no rule.
   */
  predicate IsValid(r: MedicalRecord) {
    && InRange(r.PatientId, 1, IntMaxValue)
    && InRange(r.DoctorId, 1, IntMaxValue)
    && r.RecordDate.Some?
    && forall i :: 0 <= i < |Texts(r)| ==> MaxLength(Texts(r)[i], TextMaxLength)
  }

  /** Validity, field by field: what each rule rejects and that the next visit date is free. */
  lemma ValidityRules(r: MedicalRecord)
    ensures r.PatientId < 1 ==> !IsValid(r)
    ensures r.DoctorId < 1 ==> !IsValid(r)
    ensures r.RecordDate.None? ==> !IsValid(r)
    ensures r.Diagnosis.Some? && Utf16Length(r.Diagnosis.value) > 1000 ==> !IsValid(r)
    ensures r.Symptoms.Some? && Utf16Length(r.Symptoms.value) > 1000 ==> !IsValid(r)
    ensures r.Treatment.Some? && Utf16Length(r.Treatment.value) > 1000 ==> !IsValid(r)
    ensures r.Prescriptions.Some? && Utf16Length(r.Prescriptions.value) > 1000 ==> !IsValid(r)
    ensures r.Recommendations.Some? && Utf16Length(r.Recommendations.value) > 1000 ==> !IsValid(r)
    ensures r.Notes.Some? && Utf16Length(r.Notes.value) > 1000 ==> !IsValid(r)
    ensures IsValid(r) <==> IsValid(r.(NextVisitDate := None))
  {
    assert Texts(r)[0] == r.Diagnosis && Texts(r)[1] == r.Symptoms && Texts(r)[2] == r.Treatment;
    assert Texts(r)[3] == r.Prescriptions && Texts(r)[4] == r.Recommendations && Texts(r)[5] == r.Notes;
    assert Texts(r.(NextVisitDate := None)) == Texts(r);
  }

  /** A record with valid ids, a date and no texts is valid: every text field is optional. */
  lemma MinimalRecordValid(id: int, patientId: int, doctorId: int, date: int, next: Option<int>)
    requires 1 <= patientId <= IntMaxValue && 1 <= doctorId <= IntMaxValue
    ensures IsValid(MedicalRecord(id, patientId, doctorId, Some(date), None, None, None, None, None, None, next))
  {
  }
}
