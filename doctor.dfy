/** The doctor entity: validation rules, the derived names and the default active flag. */
module DoctorModel {
  import opened Wrappers
  import opened Text
  import opened Annotations
  import Names

  datatype Doctor = Doctor(
    Id: int,
    FirstName: string,
    LastName: string,
    MiddleName: Option<string>,
    Specialization: string,
    Qualification: string,
    ExperienceYears: int,
    PhoneNumber: string,
    Email: Option<string>,
    OfficeNumber: Option<string>,
    WorkingHours: Option<string>,
    HireDate: int,
    IsActive: bool)

  /** `new Doctor()` at time `now`: required strings empty, no experience, active. */
  function NewDoctor(now: int): Doctor {
    Doctor(0, "", "", None, "", "", 0, "", None, None, None, now, true)
  }

  /**
   * The annotations of Doctor: names, specialization, qualification and
   * phone number required, experience in `[Range(0, 50)]`, the phone in
   * `[Phone]` form and the email (when present) in `[EmailAddress]` form.
   */
  predicate IsValid(d: Doctor) {
    && RequiredText(d.FirstName)
    && RequiredText(d.LastName)
    && RequiredText(d.Specialization)
    && RequiredText(d.Qualification)
    && InRange(d.ExperienceYears, 0, 50)
    && RequiredText(d.PhoneNumber)
    && PhoneFormat(Some(d.PhoneNumber))
    && EmailFormat(d.Email)
  }

  /** `FullName`: "Last First Middle" with surrounding white space removed. */
  function FullName(d: Doctor): (r: string)
    ensures IsTrimmed(r)
  {
    Names.FullNameOf(d.LastName, d.FirstName, d.MiddleName)
  }

  /** `FullNameWithTitle`: the full name, a comma and the specialization. */
  function FullNameWithTitle(d: Doctor): (r: string)
    ensures StartsWith(r, FullName(d)) && EndsWith(r, d.Specialization)
    ensures |r| == |FullName(d)| + 2 + |d.Specialization|
    ensures r[|FullName(d)|..|FullName(d)| + 2] == ", "
  {
    JoinedAffixes(FullName(d), ", ", d.Specialization);
    FullName(d) + ", " + d.Specialization
  }

  /** Experience is acceptable exactly in 0..50, whatever the other fields. */
  lemma ExperienceRule(d: Doctor, years: int)
    requires IsValid(d)
    ensures IsValid(d.(ExperienceYears := years)) <==> 0 <= years <= 50
  {
  }

  /** An empty first name, last name, specialization, qualification or phone number fails. */
  lemma RequiredFields(d: Doctor)
    ensures d.FirstName == "" || d.LastName == "" || d.Specialization == "" || d.Qualification == "" || d.PhoneNumber == ""
            ==> !IsValid(d)
  {
  }

  /** A new doctor is active. */
  lemma NewDoctorIsActive(now: int)
    ensures NewDoctor(now).IsActive
    ensures !IsValid(NewDoctor(now))
  {
  }

  /**
   * With non-blank, trimmed name parts the full name is "Last First Middle",
   * or "Last First" without a middle name, and the title appends ", " and the
   * specialization (as for Коваль Олена Петрівна, Терапевт).
   */
  lemma FullNameOfCleanParts(d: Doctor)
    requires d.LastName != [] && d.FirstName != [] && IsTrimmed(d.LastName) && IsTrimmed(d.FirstName)
    requires d.MiddleName.Some? ==> IsTrimmed(d.MiddleName.value)
    ensures d.MiddleName.Some? && d.MiddleName.value != [] ==>
              FullName(d) == d.LastName + " " + d.FirstName + " " + d.MiddleName.value
              && FullNameWithTitle(d) == d.LastName + " " + d.FirstName + " " + d.MiddleName.value + ", " + d.Specialization
    ensures d.MiddleName.None? || d.MiddleName == Some("") ==>
              FullName(d) == d.LastName + " " + d.FirstName
              && FullNameWithTitle(d) == d.LastName + " " + d.FirstName + ", " + d.Specialization
  {
    Names.FullNameOfTrimmedParts(d.LastName, d.FirstName, d.MiddleName);
  }
}
