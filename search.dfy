/**
 * The search action: it starts from every appointment joined to its
 * patient and doctor, narrows the rows with one `Where` per supplied
 * criterion, orders them by date-time, latest first, and keeps at most 100.
 */
module SearchActions {
  import opened Wrappers
  import opened Text
  import opened AppointmentModel
  import opened PatientModel
  import opened DoctorModel
  import opened MedicalRecordModel
  import opened SearchViewModels

  const SecondsPerDay: int := 86400

  /** The cap on the number of rows returned (`Take(100)`). */
  const MaxResults: nat := 100

  /** `DateTo.AddDays(1).AddSeconds(-1)`: the last second of the day that starts at `d`. */
  function EndOfDay(d: int): int {
    d + SecondsPerDay - 1
  }

  /** A text criterion counts when it is neither null, empty nor blank. */
  predicate Supplied(s: Option<string>) {
    !IsNullOrWhiteSpace(s)
  }

  /** `Trim().ToLower()`: the term a supplied text criterion is compared with. */
  function Term(s: string): string {
    Lower(Trim(s))
  }

  /** A list criterion counts when it is non-null and has an element (`Any()`). */
  predicate ListGiven<T>(l: Option<seq<T>>) {
    l.Some? && |l.value| > 0
  }

  function Date(r: LoadedAppointment): int {
    r.appointment.AppointmentDateTime
  }

  /** The row carries the patient and the doctor its appointment refers to. */
  predicate Joined(r: LoadedAppointment, patients: map<int, Patient>, doctors: map<int, Doctor>) {
    && r.appointment.PatientId in patients && patients[r.appointment.PatientId] == r.patient
    && r.appointment.DoctorId in doctors && doctors[r.appointment.DoctorId] == r.doctor
  }

  /**
   * The base query: every appointment, in table order, with its patient and
   * doctor loaded. Both navigations are required, so the join is an inner one:
   * an appointment whose patient or doctor is missing yields no row.
   */
  function Candidates(appointments: seq<Appointment>, patients: map<int, Patient>, doctors: map<int, Doctor>): (rows: seq<LoadedAppointment>)
    ensures |rows| <= |appointments|
    ensures forall r :: r in rows ==> r.appointment in appointments && Joined(r, patients, doctors)
  {
    if appointments == [] then []
    else
      var a := appointments[0];
      var rest := Candidates(appointments[1..], patients, doctors);
      if a.PatientId in patients && a.DoctorId in doctors then
        [LoadedAppointment(a, patients[a.PatientId], doctors[a.DoctorId])] + rest
      else
        rest
  }

  /** When every appointment's references resolve, the base query has one row per appointment, in order. */
  lemma {:induction false} CandidatesCoverTable(appointments: seq<Appointment>, patients: map<int, Patient>, doctors: map<int, Doctor>)
    requires forall a :: a in appointments ==> a.PatientId in patients && a.DoctorId in doctors
    ensures |Candidates(appointments, patients, doctors)| == |appointments|
    ensures forall i :: 0 <= i < |appointments| ==> Candidates(appointments, patients, doctors)[i].appointment == appointments[i]
  {
    if appointments != [] {
      CandidatesCoverTable(appointments[1..], patients, doctors);
      var rest := Candidates(appointments[1..], patients, doctors);
      forall i | 0 < i < |appointments|
        ensures Candidates(appointments, patients, doctors)[i].appointment == appointments[i]
      {
        assert Candidates(appointments, patients, doctors)[i] == rest[i - 1];
      }
    }
  }

  // ---------------------------------------------------------------------
  // What each text criterion asks of a row
  // ---------------------------------------------------------------------

  /** The patient's first or last name, lower-cased, starts with `t`. */
  predicate NameStartsWith(p: Patient, t: string) {
    StartsWith(Lower(p.FirstName), t) || StartsWith(Lower(p.LastName), t)
  }

  /** The patient's first or last name, lower-cased, ends with `t`. */
  predicate NameEndsWith(p: Patient, t: string) {
    EndsWith(Lower(p.FirstName), t) || EndsWith(Lower(p.LastName), t)
  }

  /** The doctor's specialization, lower-cased, starts with `t`. */
  predicate SpecializationStartsWith(d: Doctor, t: string) {
    StartsWith(Lower(d.Specialization), t)
  }

  /** The appointment has complaints and, lower-cased, they contain `t`. */
  predicate ComplaintsContain(a: Appointment, t: string) {
    a.Complaints.Some? && Contains(Lower(a.Complaints.value), t)
  }

  /** The medical record has a diagnosis and, lower-cased, it contains `t`. */
  predicate DiagnosisContains(mr: MedicalRecord, t: string) {
    mr.Diagnosis.Some? && Contains(Lower(mr.Diagnosis.value), t)
  }

  /** Some medical record of patient `id` has a diagnosis containing `t`. */
  predicate HasDiagnosis(records: seq<MedicalRecord>, id: int, t: string) {
    exists mr :: mr in records && mr.PatientId == id && DiagnosisContains(mr, t)
  }

  /** The sub-query of the diagnosis criterion: the patient ids with a matching record. */
  function PatientsWithDiagnosis(records: seq<MedicalRecord>, t: string): (ids: set<int>)
    ensures forall id :: id in ids <==> HasDiagnosis(records, id, t)
  {
    set mr | mr in records && DiagnosisContains(mr, t) :: mr.PatientId
  }

  // ---------------------------------------------------------------------
  // The query as the action builds it
  // ---------------------------------------------------------------------

  /** The predicate of one `query = query.Where(...)` step. */
  type Filter = LoadedAppointment -> bool

  function OnOrAfter(from: int): Filter {
    (r: LoadedAppointment) => Date(r) >= from
  }

  function OnOrBefore(to: int): Filter {
    (r: LoadedAppointment) => Date(r) <= to
  }

  function PatientAmong(ids: seq<int>): Filter {
    (r: LoadedAppointment) => r.appointment.PatientId in ids
  }

  function DoctorAmong(ids: seq<int>): Filter {
    (r: LoadedAppointment) => r.appointment.DoctorId in ids
  }

  function StatusAmong(statuses: seq<AppointmentStatus>): Filter {
    (r: LoadedAppointment) => r.appointment.Status in statuses
  }

  function PatientNamePrefix(t: string): Filter {
    (r: LoadedAppointment) => NameStartsWith(r.patient, t)
  }

  function PatientNameSuffix(t: string): Filter {
    (r: LoadedAppointment) => NameEndsWith(r.patient, t)
  }

  function SpecializationPrefix(t: string): Filter {
    (r: LoadedAppointment) => SpecializationStartsWith(r.doctor, t)
  }

  function ComplaintsInclude(t: string): Filter {
    (r: LoadedAppointment) => ComplaintsContain(r.appointment, t)
  }

  function PatientIn(ids: set<int>): Filter {
    (r: LoadedAppointment) => r.appointment.PatientId in ids
  }

  /** `Where`: the rows that satisfy `f`, in their order. */
  function Where(rows: seq<LoadedAppointment>, f: Filter): (kept: seq<LoadedAppointment>)
    ensures |kept| <= |rows|
    ensures forall r :: r in kept <==> r in rows && f(r)
  {
    if rows == [] then []
    else if f(rows[0]) then [rows[0]] + Where(rows[1..], f)
    else Where(rows[1..], f)
  }

  /** `rest` with step `f` in front when `cond` holds: one `if (...) { query = query.Where(...); }`. */
  function Then(cond: bool, f: Filter, rest: seq<Filter>): (fs: seq<Filter>)
    ensures |fs| <= |rest| + 1
  {
    if cond then [f] + rest else rest
  }

  /**
   * The `Where` steps the action applies for criteria `c`, in the order it
   * applies them: at most one per criterion.
   */
  function Filters(c: SearchViewModel, records: seq<MedicalRecord>): (fs: seq<Filter>)
    ensures |fs| <= 10
  {
    Then(c.DateFrom.Some?, OnOrAfter(c.DateFrom.GetOr(0)),
    Then(c.DateTo.Some?, OnOrBefore(EndOfDay(c.DateTo.GetOr(0))),
    Then(ListGiven(c.SelectedPatientIds), PatientAmong(c.SelectedPatientIds.GetOr([])),
    Then(ListGiven(c.SelectedDoctorIds), DoctorAmong(c.SelectedDoctorIds.GetOr([])),
    Then(ListGiven(c.SelectedStatuses), StatusAmong(c.SelectedStatuses.GetOr([])),
    Then(Supplied(c.PatientNameStartsWith), PatientNamePrefix(Term(c.PatientNameStartsWith.GetOr(""))),
    Then(Supplied(c.Diagnosis), PatientNameSuffix(Term(c.Diagnosis.GetOr(""))),
    Then(Supplied(c.DoctorSpecializationStartsWith), SpecializationPrefix(Term(c.DoctorSpecializationStartsWith.GetOr(""))),
    Then(Supplied(c.DoctorName), ComplaintsInclude(Term(c.DoctorName.GetOr(""))),
    Then(Supplied(c.DiagnosisContains), PatientIn(PatientsWithDiagnosis(records, Term(c.DiagnosisContains.GetOr("")))),
    []))))))))))
  }

  /** The action applies no step at all exactly when no criterion restricts. */
  lemma NoStepsWhenNothingRestricts(c: SearchViewModel, records: seq<MedicalRecord>)
    ensures Filters(c, records) == [] <==>
              && c.DateFrom.None? && c.DateTo.None?
              && !ListGiven(c.SelectedPatientIds) && !ListGiven(c.SelectedDoctorIds) && !ListGiven(c.SelectedStatuses)
              && !Supplied(c.PatientNameStartsWith) && !Supplied(c.Diagnosis) && !Supplied(c.DoctorSpecializationStartsWith)
              && !Supplied(c.DoctorName) && !Supplied(c.DiagnosisContains)
  {
  }

  /** Reassigning `query` with each step in turn: a row survives exactly when it passes every step. */
  function ApplyAll(rows: seq<LoadedAppointment>, fs: seq<Filter>): (kept: seq<LoadedAppointment>)
    ensures |kept| <= |rows|
    ensures forall r :: r in kept <==> r in rows && AllHold(fs, r)
    decreases |fs|
  {
    if fs == [] then rows
    else
      ApplyAll(Where(rows, fs[0]), fs[1..])
  }

  /** Dates never increase along `s`. */
  predicate SortedByDateDesc(s: seq<LoadedAppointment>) {
    forall i, j :: 0 <= i < j < |s| ==> Date(s[i]) >= Date(s[j])
  }

  /** Places `x` into a latest-first sequence, before the rows that are not later than it. */
  function Insert(x: LoadedAppointment, s: seq<LoadedAppointment>): (r: seq<LoadedAppointment>)
    ensures multiset(r) == multiset(s) + multiset{x}
  {
    if s == [] then [x]
    else if Date(x) >= Date(s[0]) then [x] + s
    else
      assert s == [s[0]] + s[1..];
      [s[0]] + Insert(x, s[1..])
  }

  lemma ConsKeepsOrder(h: LoadedAppointment, t: seq<LoadedAppointment>)
    requires SortedByDateDesc(t)
    requires t == [] || Date(h) >= Date(t[0])
    ensures SortedByDateDesc([h] + t)
  {
    var r := [h] + t;
    forall i, j | 0 <= i < j < |r| ensures Date(r[i]) >= Date(r[j]) {
      if i == 0 && j > 1 { assert Date(t[0]) >= Date(t[j - 1]); }
    }
  }

  /** Inserting into a latest-first sequence keeps it latest first. */
  lemma {:induction false} InsertKeepsOrder(x: LoadedAppointment, s: seq<LoadedAppointment>)
    requires SortedByDateDesc(s)
    ensures SortedByDateDesc(Insert(x, s))
    ensures Insert(x, s)[0] == x || (s != [] && Insert(x, s)[0] == s[0])
  {
    if s == [] {
    } else if Date(x) >= Date(s[0]) {
      ConsKeepsOrder(x, s);
    } else {
      InsertKeepsOrder(x, s[1..]);
      ConsKeepsOrder(s[0], Insert(x, s[1..]));
    }
  }

  /** `OrderByDescending(a => a.AppointmentDateTime)`: the same rows, latest first. */
  function SortByDateDesc(s: seq<LoadedAppointment>): (r: seq<LoadedAppointment>)
    ensures multiset(r) == multiset(s) && |r| == |s|
    ensures SortedByDateDesc(r)
  {
    if s == [] then []
    else
      assert s == [s[0]] + s[1..];
      var t := SortByDateDesc(s[1..]);
      InsertKeepsOrder(s[0], t);
      Insert(s[0], t)
  }

  /** `Take(n)`: the first `n` rows, or all of them when there are fewer. */
  function Take(s: seq<LoadedAppointment>, n: nat): (r: seq<LoadedAppointment>)
    ensures |r| == if |s| < n then |s| else n
    ensures r == s[..|r|]
  {
    if |s| <= n then s else s[..n]
  }

  /**
   * `Results`: the filtered rows, latest first, capped at 100, with the
   * criteria echoed back and the count of the rows shown.
   */
  function Results(
    appointments: seq<Appointment>, patients: map<int, Patient>, doctors: map<int, Doctor>,
    records: seq<MedicalRecord>, c: SearchViewModel): (v: SearchResultsViewModel)
    ensures v.SearchCriteria == c
    ensures CountAgrees(v) && v.TotalResults <= MaxResults
    ensures SortedByDateDesc(v.Results)
  {
    var query := ApplyAll(Candidates(appointments, patients, doctors), Filters(c, records));
    var sorted := SortByDateDesc(query);
    var results := Take(sorted, MaxResults);
    TakeKeepsOrder(sorted, MaxResults);
    SearchResultsViewModel(c, results, |results|)
  }

  /** The first rows of a latest-first sequence are latest first. */
  lemma TakeKeepsOrder(s: seq<LoadedAppointment>, n: nat)
    requires SortedByDateDesc(s)
    ensures SortedByDateDesc(Take(s, n))
  {
    var t := Take(s, n);
    assert forall i, j :: 0 <= i < j < |t| ==> t[i] == s[i] && t[j] == s[j];
  }

  // ---------------------------------------------------------------------
  // The criteria as one conjunction, stated independently of the steps
  // ---------------------------------------------------------------------

  /**
   * Row `r` meets every supplied criterion of `c`: on or after DateFrom,
   * strictly before the midnight that ends DateTo's day, among the chosen
   * patients, doctors and statuses, a patient first or last name starting
   * (PatientNameStartsWith) or ending (Diagnosis) with the term, a doctor
   * specialization starting with the term, complaints present and containing
   * the term (DoctorName), and some medical record of the same patient whose
   * diagnosis contains the term (DiagnosisContains).
   */
  predicate Matches(c: SearchViewModel, records: seq<MedicalRecord>, r: LoadedAppointment) {
    && (c.DateFrom.Some? ==> r.appointment.AppointmentDateTime >= c.DateFrom.value)
    && (c.DateTo.Some? ==> r.appointment.AppointmentDateTime < c.DateTo.value + SecondsPerDay)
    && (ListGiven(c.SelectedPatientIds) ==> r.appointment.PatientId in c.SelectedPatientIds.value)
    && (ListGiven(c.SelectedDoctorIds) ==> r.appointment.DoctorId in c.SelectedDoctorIds.value)
    && (ListGiven(c.SelectedStatuses) ==> r.appointment.Status in c.SelectedStatuses.value)
    && (Supplied(c.PatientNameStartsWith) ==> NameStartsWith(r.patient, Term(c.PatientNameStartsWith.value)))
    && (Supplied(c.Diagnosis) ==> NameEndsWith(r.patient, Term(c.Diagnosis.value)))
    && (Supplied(c.DoctorSpecializationStartsWith) ==>
          SpecializationStartsWith(r.doctor, Term(c.DoctorSpecializationStartsWith.value)))
    && (Supplied(c.DoctorName) ==> ComplaintsContain(r.appointment, Term(c.DoctorName.value)))
    && (Supplied(c.DiagnosisContains) ==>
          HasDiagnosis(records, r.appointment.PatientId, Term(c.DiagnosisContains.value)))
  }

  /** The rows of `rows` that match `c`, in their order. */
  function Matching(rows: seq<LoadedAppointment>, c: SearchViewModel, records: seq<MedicalRecord>): (m: seq<LoadedAppointment>)
    ensures forall r :: r in m <==> r in rows && Matches(c, records, r)
  {
    if rows == [] then []
    else if Matches(c, records, rows[0]) then [rows[0]] + Matching(rows[1..], c, records)
    else Matching(rows[1..], c, records)
  }

  /** Every step in `fs` holds of `r`. */
  predicate AllHold(fs: seq<Filter>, r: LoadedAppointment) {
    fs == [] || (fs[0](r) && AllHold(fs[1..], r))
  }

  /** The rows satisfying all of `fs` at once, in their order. */
  function KeepAll(rows: seq<LoadedAppointment>, fs: seq<Filter>): seq<LoadedAppointment> {
    if rows == [] then []
    else if AllHold(fs, rows[0]) then [rows[0]] + KeepAll(rows[1..], fs)
    else KeepAll(rows[1..], fs)
  }

  lemma {:induction false} KeepAllNothing(rows: seq<LoadedAppointment>)
    ensures KeepAll(rows, []) == rows
  {
    if rows != [] {
      KeepAllNothing(rows[1..]);
      assert rows == [rows[0]] + rows[1..];
    }
  }

  lemma {:induction false} WhereThenKeepAll(rows: seq<LoadedAppointment>, f: Filter, fs: seq<Filter>)
    ensures KeepAll(Where(rows, f), fs) == KeepAll(rows, [f] + fs)
  {
    if rows != [] {
      WhereThenKeepAll(rows[1..], f, fs);
      assert ([f] + fs)[1..] == fs;
    }
  }

  /** Applying the steps one after another keeps exactly the rows that satisfy all of them: the steps combine by AND. */
  lemma {:induction false} StepsCombineByAnd(rows: seq<LoadedAppointment>, fs: seq<Filter>)
    ensures ApplyAll(rows, fs) == KeepAll(rows, fs)
    decreases |fs|
  {
    if fs == [] {
      KeepAllNothing(rows);
    } else {
      StepsCombineByAnd(Where(rows, fs[0]), fs[1..]);
      WhereThenKeepAll(rows, fs[0], fs[1..]);
      assert [fs[0]] + fs[1..] == fs;
    }
  }

  lemma AllHoldThen(cond: bool, f: Filter, rest: seq<Filter>, r: LoadedAppointment)
    ensures AllHold(Then(cond, f, rest), r) <==> (cond ==> f(r)) && AllHold(rest, r)
  {
    if cond { assert ([f] + rest)[1..] == rest; }
  }

  lemma ChainOfSteps(
    b0: bool, f0: Filter, b1: bool, f1: Filter, b2: bool, f2: Filter, b3: bool, f3: Filter, b4: bool, f4: Filter,
    b5: bool, f5: Filter, b6: bool, f6: Filter, b7: bool, f7: Filter, b8: bool, f8: Filter, b9: bool, f9: Filter,
    r: LoadedAppointment)
    ensures AllHold(Then(b0, f0, Then(b1, f1, Then(b2, f2, Then(b3, f3, Then(b4, f4,
                    Then(b5, f5, Then(b6, f6, Then(b7, f7, Then(b8, f8, Then(b9, f9, [])))))))))), r) <==>
          ((b0 ==> f0(r)) && (b1 ==> f1(r)) && (b2 ==> f2(r)) && (b3 ==> f3(r)) && (b4 ==> f4(r))
          && (b5 ==> f5(r)) && (b6 ==> f6(r)) && (b7 ==> f7(r)) && (b8 ==> f8(r)) && (b9 ==> f9(r)))
  {
    var t9 := Then(b9, f9, []);
    var t8 := Then(b8, f8, t9);
    var t7 := Then(b7, f7, t8);
    var t6 := Then(b6, f6, t7);
    var t5 := Then(b5, f5, t6);
    var t4 := Then(b4, f4, t5);
    var t3 := Then(b3, f3, t4);
    var t2 := Then(b2, f2, t3);
    var t1 := Then(b1, f1, t2);
    AllHoldThen(b0, f0, t1, r);
    AllHoldThen(b1, f1, t2, r);
    AllHoldThen(b2, f2, t3, r);
    AllHoldThen(b3, f3, t4, r);
    AllHoldThen(b4, f4, t5, r);
    AllHoldThen(b5, f5, t6, r);
    AllHoldThen(b6, f6, t7, r);
    AllHoldThen(b7, f7, t8, r);
    AllHoldThen(b8, f8, t9, r);
    AllHoldThen(b9, f9, [], r);
  }

  /** The steps for `c`, written out; lets a proof use them without re-deriving the chain. */
  lemma FiltersWrittenOut(c: SearchViewModel, records: seq<MedicalRecord>)
    ensures Filters(c, records) ==
      Then(c.DateFrom.Some?, OnOrAfter(c.DateFrom.GetOr(0)),
      Then(c.DateTo.Some?, OnOrBefore(EndOfDay(c.DateTo.GetOr(0))),
      Then(ListGiven(c.SelectedPatientIds), PatientAmong(c.SelectedPatientIds.GetOr([])),
      Then(ListGiven(c.SelectedDoctorIds), DoctorAmong(c.SelectedDoctorIds.GetOr([])),
      Then(ListGiven(c.SelectedStatuses), StatusAmong(c.SelectedStatuses.GetOr([])),
      Then(Supplied(c.PatientNameStartsWith), PatientNamePrefix(Term(c.PatientNameStartsWith.GetOr(""))),
      Then(Supplied(c.Diagnosis), PatientNameSuffix(Term(c.Diagnosis.GetOr(""))),
      Then(Supplied(c.DoctorSpecializationStartsWith), SpecializationPrefix(Term(c.DoctorSpecializationStartsWith.GetOr(""))),
      Then(Supplied(c.DoctorName), ComplaintsInclude(Term(c.DoctorName.GetOr(""))),
      Then(Supplied(c.DiagnosisContains), PatientIn(PatientsWithDiagnosis(records, Term(c.DiagnosisContains.GetOr("")))),
      []))))))))))
  {
  }

  /** All steps hold of `r` exactly when each step whose criterion is supplied holds. */
  lemma StepsOneByOne(c: SearchViewModel, records: seq<MedicalRecord>, r: LoadedAppointment)
    ensures AllHold(Filters(c, records), r) <==>
      (c.DateFrom.Some? ==> OnOrAfter(c.DateFrom.GetOr(0))(r)) &&
      (c.DateTo.Some? ==> OnOrBefore(EndOfDay(c.DateTo.GetOr(0)))(r)) &&
      (ListGiven(c.SelectedPatientIds) ==> PatientAmong(c.SelectedPatientIds.GetOr([]))(r)) &&
      (ListGiven(c.SelectedDoctorIds) ==> DoctorAmong(c.SelectedDoctorIds.GetOr([]))(r)) &&
      (ListGiven(c.SelectedStatuses) ==> StatusAmong(c.SelectedStatuses.GetOr([]))(r)) &&
      (Supplied(c.PatientNameStartsWith) ==> PatientNamePrefix(Term(c.PatientNameStartsWith.GetOr("")))(r)) &&
      (Supplied(c.Diagnosis) ==> PatientNameSuffix(Term(c.Diagnosis.GetOr("")))(r)) &&
      (Supplied(c.DoctorSpecializationStartsWith) ==> SpecializationPrefix(Term(c.DoctorSpecializationStartsWith.GetOr("")))(r)) &&
      (Supplied(c.DoctorName) ==> ComplaintsInclude(Term(c.DoctorName.GetOr("")))(r)) &&
      (Supplied(c.DiagnosisContains) ==> PatientIn(PatientsWithDiagnosis(records, Term(c.DiagnosisContains.GetOr(""))))(r))
  {
    FiltersWrittenOut(c, records);
    ChainOfSteps(
      c.DateFrom.Some?, OnOrAfter(c.DateFrom.GetOr(0)),
      c.DateTo.Some?, OnOrBefore(EndOfDay(c.DateTo.GetOr(0))),
      ListGiven(c.SelectedPatientIds), PatientAmong(c.SelectedPatientIds.GetOr([])),
      ListGiven(c.SelectedDoctorIds), DoctorAmong(c.SelectedDoctorIds.GetOr([])),
      ListGiven(c.SelectedStatuses), StatusAmong(c.SelectedStatuses.GetOr([])),
      Supplied(c.PatientNameStartsWith), PatientNamePrefix(Term(c.PatientNameStartsWith.GetOr(""))),
      Supplied(c.Diagnosis), PatientNameSuffix(Term(c.Diagnosis.GetOr(""))),
      Supplied(c.DoctorSpecializationStartsWith), SpecializationPrefix(Term(c.DoctorSpecializationStartsWith.GetOr(""))),
      Supplied(c.DoctorName), ComplaintsInclude(Term(c.DoctorName.GetOr(""))),
      Supplied(c.DiagnosisContains), PatientIn(PatientsWithDiagnosis(records, Term(c.DiagnosisContains.GetOr("")))),
      r);
  }

  /** The conjuncts of `Matches`, written out. */
  lemma MatchesWrittenOut(c: SearchViewModel, records: seq<MedicalRecord>, r: LoadedAppointment)
    ensures Matches(c, records, r) <==>
      (c.DateFrom.Some? ==> r.appointment.AppointmentDateTime >= c.DateFrom.value) &&
      (c.DateTo.Some? ==> r.appointment.AppointmentDateTime < c.DateTo.value + SecondsPerDay) &&
      (ListGiven(c.SelectedPatientIds) ==> r.appointment.PatientId in c.SelectedPatientIds.value) &&
      (ListGiven(c.SelectedDoctorIds) ==> r.appointment.DoctorId in c.SelectedDoctorIds.value) &&
      (ListGiven(c.SelectedStatuses) ==> r.appointment.Status in c.SelectedStatuses.value) &&
      (Supplied(c.PatientNameStartsWith) ==> NameStartsWith(r.patient, Term(c.PatientNameStartsWith.value))) &&
      (Supplied(c.Diagnosis) ==> NameEndsWith(r.patient, Term(c.Diagnosis.value))) &&
      (Supplied(c.DoctorSpecializationStartsWith) ==> SpecializationStartsWith(r.doctor, Term(c.DoctorSpecializationStartsWith.value))) &&
      (Supplied(c.DoctorName) ==> ComplaintsContain(r.appointment, Term(c.DoctorName.value))) &&
      (Supplied(c.DiagnosisContains) ==> HasDiagnosis(records, r.appointment.PatientId, Term(c.DiagnosisContains.value)))
  {
  }

  /** Each step, when its criterion is supplied, asks what the matching conjunct asks. */
  lemma EachStepMeansItsCriterion(c: SearchViewModel, records: seq<MedicalRecord>, r: LoadedAppointment)
    ensures (c.DateFrom.Some? ==> OnOrAfter(c.DateFrom.GetOr(0))(r)) <==>
            (c.DateFrom.Some? ==> r.appointment.AppointmentDateTime >= c.DateFrom.value)
    ensures (c.DateTo.Some? ==> OnOrBefore(EndOfDay(c.DateTo.GetOr(0)))(r)) <==>
            (c.DateTo.Some? ==> r.appointment.AppointmentDateTime < c.DateTo.value + SecondsPerDay)
    ensures (ListGiven(c.SelectedPatientIds) ==> PatientAmong(c.SelectedPatientIds.GetOr([]))(r)) <==>
            (ListGiven(c.SelectedPatientIds) ==> r.appointment.PatientId in c.SelectedPatientIds.value)
    ensures (ListGiven(c.SelectedDoctorIds) ==> DoctorAmong(c.SelectedDoctorIds.GetOr([]))(r)) <==>
            (ListGiven(c.SelectedDoctorIds) ==> r.appointment.DoctorId in c.SelectedDoctorIds.value)
    ensures (ListGiven(c.SelectedStatuses) ==> StatusAmong(c.SelectedStatuses.GetOr([]))(r)) <==>
            (ListGiven(c.SelectedStatuses) ==> r.appointment.Status in c.SelectedStatuses.value)
    ensures (Supplied(c.PatientNameStartsWith) ==> PatientNamePrefix(Term(c.PatientNameStartsWith.GetOr("")))(r)) <==>
            (Supplied(c.PatientNameStartsWith) ==> NameStartsWith(r.patient, Term(c.PatientNameStartsWith.value)))
    ensures (Supplied(c.Diagnosis) ==> PatientNameSuffix(Term(c.Diagnosis.GetOr("")))(r)) <==>
            (Supplied(c.Diagnosis) ==> NameEndsWith(r.patient, Term(c.Diagnosis.value)))
    ensures (Supplied(c.DoctorSpecializationStartsWith) ==> SpecializationPrefix(Term(c.DoctorSpecializationStartsWith.GetOr("")))(r)) <==>
            (Supplied(c.DoctorSpecializationStartsWith) ==> SpecializationStartsWith(r.doctor, Term(c.DoctorSpecializationStartsWith.value)))
    ensures (Supplied(c.DoctorName) ==> ComplaintsInclude(Term(c.DoctorName.GetOr("")))(r)) <==>
            (Supplied(c.DoctorName) ==> ComplaintsContain(r.appointment, Term(c.DoctorName.value)))
    ensures (Supplied(c.DiagnosisContains) ==> PatientIn(PatientsWithDiagnosis(records, Term(c.DiagnosisContains.GetOr(""))))(r)) <==>
            (Supplied(c.DiagnosisContains) ==> HasDiagnosis(records, r.appointment.PatientId, Term(c.DiagnosisContains.value)))
  {
  }

  /** Every step the criteria produce holds of a row exactly when the row matches the criteria. */
  lemma StepsMeanMatches(c: SearchViewModel, records: seq<MedicalRecord>, r: LoadedAppointment)
    ensures AllHold(Filters(c, records), r) <==> Matches(c, records, r)
  {
    StepsOneByOne(c, records, r);
    MatchesWrittenOut(c, records, r);
    EachStepMeansItsCriterion(c, records, r);
  }

  lemma {:induction false} KeepAllIsMatching(rows: seq<LoadedAppointment>, c: SearchViewModel, records: seq<MedicalRecord>)
    ensures KeepAll(rows, Filters(c, records)) == Matching(rows, c, records)
  {
    if rows != [] {
      StepsMeanMatches(c, records, rows[0]);
      KeepAllIsMatching(rows[1..], c, records);
    }
  }

  /** The chain of conditional `Where` steps keeps exactly the rows that meet every supplied criterion, in order. */
  lemma FilterChainIsConjunction(rows: seq<LoadedAppointment>, c: SearchViewModel, records: seq<MedicalRecord>)
    ensures ApplyAll(rows, Filters(c, records)) == Matching(rows, c, records)
  {
    StepsCombineByAnd(rows, Filters(c, records));
    KeepAllIsMatching(rows, c, records);
  }
}
