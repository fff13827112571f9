/** The patient entity: validation rules and the derived full name. */
module PatientModel {
  import opened Wrappers
  import opened Text
  import opened Annotations
  import Names

  datatype Patient = Patient(
    Id: int,
    FirstName: string,
    LastName: string,
    MiddleName: Option<string>,
    DateOfBirth: int,
    Gender: string,
    PhoneNumber: string,
    Email: Option<string>,
    Address: Option<string>,
    InsuranceNumber: Option<string>,
    RegistrationDate: int)

  /** `new Patient()` at time `now`: required strings empty, optional ones absent. */
  function NewPatient(now: int): Patient {
    Patient(0, "", "", None, 0, "", "", None, None, None, now)
  }

  /**
   * The annotations of Patient: first and last name, gender and phone
   * number required, the phone in `[Phone]` form, the email (when present)
   * in `[EmailAddress]` form. DateOfBirth is a non-nullable date, so its
   * `[Required]` always passes.
   */
  predicate IsValid(p: Patient) {
    && RequiredText(p.FirstName)
    && RequiredText(p.LastName)
    && RequiredText(p.Gender)
    && RequiredText(p.PhoneNumber)
    && PhoneFormat(Some(p.PhoneNumber))
    && EmailFormat(p.Email)
  }

  /** `FullName`: "Last First Middle" with surrounding white space removed. */
  function FullName(p: Patient): (r: string)
    ensures IsTrimmed(r)
  {
    Names.FullNameOf(p.LastName, p.FirstName, p.MiddleName)
  }

  /** An empty first name, last name, gender or phone number fails; the optional fields may be absent. */
  lemma ValidityRules(p: Patient)
    ensures p.FirstName == "" || p.LastName == "" || p.Gender == "" || p.PhoneNumber == "" ==> !IsValid(p)
    ensures IsValid(p) ==> IsValid(p.(MiddleName := None, Email := None, Address := None, InsuranceNumber := None))
  {
  }

  /** A freshly constructed patient does not pass validation until its required fields are filled. */
  lemma NewPatientInvalid(now: int)
    ensures !IsValid(NewPatient(now))
  {
  }

  /**
   * With non-blank, trimmed name parts the full name is "Last First Middle",
   * or "Last First" without a middle name, with no trailing space (as for
   * Петренко Іван Олександрович and Петренко Іван).
   */
  lemma FullNameOfCleanParts(p: Patient)
    requires p.LastName != [] && p.FirstName != [] && IsTrimmed(p.LastName) && IsTrimmed(p.FirstName)
    requires p.MiddleName.Some? ==> IsTrimmed(p.MiddleName.value)
    ensures p.MiddleName.Some? && p.MiddleName.value != [] ==>
              FullName(p) == p.LastName + " " + p.FirstName + " " + p.MiddleName.value
    ensures p.MiddleName.None? || p.MiddleName == Some("") ==> FullName(p) == p.LastName + " " + p.FirstName
  {
    Names.FullNameOfTrimmedParts(p.LastName, p.FirstName, p.MiddleName);
  }
}
