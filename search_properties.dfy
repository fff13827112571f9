/**
 * What the search action promises its caller: every row shown meets every
 * supplied criterion, the rows shown are the latest of the matches, and
 * criteria that are absent, blank, differently cased or never read change
 * nothing.
 */
module SearchProperties {
  import opened Wrappers
  import opened Text
  import opened AppointmentModel
  import opened PatientModel
  import opened DoctorModel
  import opened MedicalRecordModel
  import opened SearchViewModels
  import opened SearchActions

  /** The rows `Results` shows, written out as the pipeline that computes them. */
  lemma ResultsWrittenOut(
    appointments: seq<Appointment>, patients: map<int, Patient>, doctors: map<int, Doctor>,
    records: seq<MedicalRecord>, c: SearchViewModel)
    ensures Results(appointments, patients, doctors, records, c).Results ==
      Take(SortByDateDesc(ApplyAll(Candidates(appointments, patients, doctors), Filters(c, records))), MaxResults)
  {
  }

  /** A row of a prefix of `s` is a row of `s`. */
  lemma TakeKeepsRows(s: seq<LoadedAppointment>, n: nat, r: LoadedAppointment)
    requires r in Take(s, n)
    ensures r in s
  {
    var t := Take(s, n);
    var i :| 0 <= i < |t| && t[i] == r;
    assert s[i] == r;
  }

  /**
   * Soundness: every row shown is an appointment of the table, loaded with
   * its own patient and doctor, and meets every supplied criterion.
   */
  lemma ResultsSound(
    appointments: seq<Appointment>, patients: map<int, Patient>, doctors: map<int, Doctor>,
    records: seq<MedicalRecord>, c: SearchViewModel)
    ensures forall r :: r in Results(appointments, patients, doctors, records, c).Results ==>
      && r.appointment in appointments
      && Joined(r, patients, doctors)
      && Matches(c, records, r)
  {
    var rows := Candidates(appointments, patients, doctors);
    var query := ApplyAll(rows, Filters(c, records));
    FilterChainIsConjunction(rows, c, records);
    ResultsWrittenOut(appointments, patients, doctors, records, c);
    var sorted := SortByDateDesc(query);
    forall r | r in Results(appointments, patients, doctors, records, c).Results
      ensures r.appointment in appointments && Joined(r, patients, doctors) && Matches(c, records, r)
    {
      TakeKeepsRows(sorted, MaxResults, r);
      assert r in multiset(sorted);
      assert r in query;
    }
  }

  /**
   * The rows shown are the latest of the matching rows: as many as there
   * are matches up to 100, each a match (counted with multiplicity), all of
   * them when there are at most 100, and no match left out is later than a
   * row shown.
   */
  lemma ResultsAreTheLatest(
    appointments: seq<Appointment>, patients: map<int, Patient>, doctors: map<int, Doctor>,
    records: seq<MedicalRecord>, c: SearchViewModel)
    ensures var m := Matching(Candidates(appointments, patients, doctors), c, records);
            var shown := Results(appointments, patients, doctors, records, c).Results;
            && |shown| == (if |m| < MaxResults then |m| else MaxResults)
            && multiset(shown) <= multiset(m)
            && (|m| <= MaxResults ==> multiset(shown) == multiset(m))
            && (forall x, y :: x in m && y in shown && Date(x) > Date(y) ==> x in shown)
  {
    var rows := Candidates(appointments, patients, doctors);
    var m := Matching(rows, c, records);
    FilterChainIsConjunction(rows, c, records);
    ResultsWrittenOut(appointments, patients, doctors, records, c);
    var sorted := SortByDateDesc(m);
    LatestFirstPrefix(sorted, MaxResults);
    forall x | x in m ensures x in sorted {
      assert x in multiset(sorted);
    }
  }

  /** The first `n` rows of a latest-first sequence are its latest rows. */
  lemma LatestFirstPrefix(sorted: seq<LoadedAppointment>, n: nat)
    requires SortedByDateDesc(sorted)
    ensures multiset(Take(sorted, n)) <= multiset(sorted)
    ensures |sorted| <= n ==> Take(sorted, n) == sorted
    ensures forall x, y :: x in sorted && y in Take(sorted, n) && Date(x) > Date(y) ==> x in Take(sorted, n)
  {
    var shown := Take(sorted, n);
    assert sorted == shown + sorted[|shown|..];
    assert multiset(sorted) == multiset(shown) + multiset(sorted[|shown|..]);
    forall x, y | x in sorted && y in shown && Date(x) > Date(y)
      ensures x in shown
    {
      var i :| 0 <= i < |sorted| && sorted[i] == x;
      var j :| 0 <= j < |shown| && shown[j] == y;
      assert sorted[j] == y;
      // a row later than `y` can only stand before it
      assert i < j;
      assert shown[i] == x;
    }
  }

  // ---------------------------------------------------------------------
  // Criteria that restrict nothing
  // ---------------------------------------------------------------------

  /** `after` keeps the text criterion `before` when it restricts and is absent otherwise. */
  predicate Cleared(before: Option<string>, after: Option<string>) {
    && (Supplied(before) ==> after == before)
    && (!Supplied(before) ==> after.None?)
  }

  /** `after` keeps the list criterion `before` when it restricts and is absent otherwise. */
  predicate ListCleared<T(==)>(before: Option<seq<T>>, after: Option<seq<T>>) {
    && (ListGiven(before) ==> after == before)
    && (!ListGiven(before) ==> after.None?)
  }

  /** `t` when it restricts, otherwise absent. */
  function TextOrNone(t: Option<string>): (r: Option<string>)
    ensures Cleared(t, r)
  {
    if Supplied(t) then t else None
  }

  /** `l` when it restricts, otherwise absent. */
  function ListOrNone<T(==)>(l: Option<seq<T>>): (r: Option<seq<T>>)
    ensures ListCleared(l, r)
  {
    if ListGiven(l) then l else None
  }

  /** Every list criterion present is non-empty and every text criterion the action reads that is present is not blank. */
  predicate NoBlanks(c: SearchViewModel) {
    && (c.SelectedPatientIds.Some? ==> ListGiven(c.SelectedPatientIds))
    && (c.SelectedDoctorIds.Some? ==> ListGiven(c.SelectedDoctorIds))
    && (c.SelectedStatuses.Some? ==> ListGiven(c.SelectedStatuses))
    && (c.PatientNameStartsWith.Some? ==> Supplied(c.PatientNameStartsWith))
    && (c.Diagnosis.Some? ==> Supplied(c.Diagnosis))
    && (c.DoctorSpecializationStartsWith.Some? ==> Supplied(c.DoctorSpecializationStartsWith))
    && (c.DoctorName.Some? ==> Supplied(c.DoctorName))
    && (c.DiagnosisContains.Some? ==> Supplied(c.DiagnosisContains))
  }

  /** The criteria with every blank text and every empty list replaced by absence. */
  function WithoutBlanks(c: SearchViewModel): (w: SearchViewModel)
    ensures NoBlanks(w)
    ensures ListCleared(c.SelectedPatientIds, w.SelectedPatientIds)
    ensures ListCleared(c.SelectedDoctorIds, w.SelectedDoctorIds)
    ensures ListCleared(c.SelectedStatuses, w.SelectedStatuses)
    ensures Cleared(c.PatientNameStartsWith, w.PatientNameStartsWith)
    ensures Cleared(c.Diagnosis, w.Diagnosis)
    ensures Cleared(c.DoctorSpecializationStartsWith, w.DoctorSpecializationStartsWith)
    ensures Cleared(c.DoctorName, w.DoctorName)
    ensures Cleared(c.DiagnosisContains, w.DiagnosisContains)
    ensures w.DateFrom == c.DateFrom && w.DateTo == c.DateTo
    ensures w.PatientLastName == c.PatientLastName && w.DoctorLastName == c.DoctorLastName
    ensures w.DoctorSpecialization == c.DoctorSpecialization && w.AppointmentType == c.AppointmentType
  {
    c.(SelectedPatientIds := ListOrNone(c.SelectedPatientIds),
       SelectedDoctorIds := ListOrNone(c.SelectedDoctorIds),
       SelectedStatuses := ListOrNone(c.SelectedStatuses),
       PatientNameStartsWith := TextOrNone(c.PatientNameStartsWith),
       Diagnosis := TextOrNone(c.Diagnosis),
       DoctorSpecializationStartsWith := TextOrNone(c.DoctorSpecializationStartsWith),
       DoctorName := TextOrNone(c.DoctorName),
       DiagnosisContains := TextOrNone(c.DiagnosisContains))
  }

  /** A null, empty or blank text criterion and a null or empty list restrict nothing: they act as if absent. */
  lemma BlankCriteriaIgnored(c: SearchViewModel, records: seq<MedicalRecord>, r: LoadedAppointment)
    ensures Matches(WithoutBlanks(c), records, r) <==> Matches(c, records, r)
  {
    var w := WithoutBlanks(c);
    MatchesWrittenOut(c, records, r);
    MatchesWrittenOut(w, records, r);
  }

  /** With no criterion set, every row matches. */
  lemma NoCriteriaMatchEverything(records: seq<MedicalRecord>, r: LoadedAppointment)
    ensures Matches(NewSearchViewModel(), records, r)
  {
    MatchesWrittenOut(NewSearchViewModel(), records, r);
  }

  /** With no criterion set, the filters keep every row, in order. */
  lemma NoCriteriaKeepEverything(rows: seq<LoadedAppointment>, c: SearchViewModel, records: seq<MedicalRecord>)
    requires c == NewSearchViewModel()
    ensures ApplyAll(rows, Filters(c, records)) == rows
  {
    FilterChainIsConjunction(rows, c, records);
    MatchingAll(rows, c, records);
  }

  lemma {:induction false} MatchingAll(rows: seq<LoadedAppointment>, c: SearchViewModel, records: seq<MedicalRecord>)
    requires c == NewSearchViewModel()
    ensures Matching(rows, c, records) == rows
  {
    if rows != [] {
      NoCriteriaMatchEverything(records, rows[0]);
      MatchingAll(rows[1..], c, records);
      assert rows == [rows[0]] + rows[1..];
    }
  }

  /** The four criteria the view model declares but the action never reads change nothing shown. */
  lemma UndeclaredCriteriaIgnored(
    appointments: seq<Appointment>, patients: map<int, Patient>, doctors: map<int, Doctor>,
    records: seq<MedicalRecord>, c: SearchViewModel,
    patientLastName: Option<string>, doctorLastName: Option<string>,
    doctorSpecialization: Option<string>, appointmentType: Option<string>)
    ensures var c' := c.(PatientLastName := patientLastName, DoctorLastName := doctorLastName,
                         DoctorSpecialization := doctorSpecialization, AppointmentType := appointmentType);
            Results(appointments, patients, doctors, records, c').Results ==
            Results(appointments, patients, doctors, records, c).Results
  {
    var c' := c.(PatientLastName := patientLastName, DoctorLastName := doctorLastName,
                 DoctorSpecialization := doctorSpecialization, AppointmentType := appointmentType);
    FiltersWrittenOut(c, records);
    FiltersWrittenOut(c', records);
    ResultsWrittenOut(appointments, patients, doctors, records, c);
    ResultsWrittenOut(appointments, patients, doctors, records, c');
  }

  // ---------------------------------------------------------------------
  // Case and surrounding white space of a term
  // ---------------------------------------------------------------------

  /** Lower-casing a string keeps it blank exactly when it was blank. */
  lemma LowerKeepsBlank(s: string)
    ensures AllWhiteSpace(Lower(s)) <==> AllWhiteSpace(s)
  {
    forall i | 0 <= i < |s| ensures IsWhiteSpace(Lower(s)[i]) <==> IsWhiteSpace(s[i]) {
      LowerKeepsWhiteSpace(s[i]);
    }
  }

  /** The term of a criterion does not depend on its case nor on white space around it. */
  lemma TermIgnoresCaseAndPadding(s: string)
    ensures Term(Lower(s)) == Term(s)
    ensures Term(Trim(s)) == Term(s)
  {
    TrimLowerCommute(s);
    LowerIdempotent(Trim(s));
    TrimIdempotent(s);
  }

  /** `t` lower-cased, when present. */
  function Lowered(t: Option<string>): (r: Option<string>)
    ensures r.Some? <==> t.Some?
    ensures r.Some? ==> r.value == Lower(t.value)
  {
    match t
    case None => None
    case Some(s) => Some(Lower(s))
  }

  /** Lowering the case of a text criterion keeps it supplied or not, and keeps its term. */
  lemma LoweredCriterion(t: Option<string>)
    ensures Supplied(Lowered(t)) <==> Supplied(t)
    ensures Supplied(t) ==> Term(Lowered(t).value) == Term(t.value)
  {
    if t.Some? {
      LowerKeepsBlank(t.value);
      TermIgnoresCaseAndPadding(t.value);
    }
  }

  /** The criteria with every text criterion the action reads lower-cased. */
  function LowerCased(c: SearchViewModel): SearchViewModel {
    c.(PatientNameStartsWith := Lowered(c.PatientNameStartsWith),
       Diagnosis := Lowered(c.Diagnosis),
       DoctorSpecializationStartsWith := Lowered(c.DoctorSpecializationStartsWith),
       DoctorName := Lowered(c.DoctorName),
       DiagnosisContains := Lowered(c.DiagnosisContains))
  }

  /** Text criteria are case-insensitive: lower-casing them changes no match. */
  lemma CaseOfCriteriaIgnored(c: SearchViewModel, records: seq<MedicalRecord>, r: LoadedAppointment)
    ensures Matches(LowerCased(c), records, r) <==> Matches(c, records, r)
  {
    var l := LowerCased(c);
    LoweredCriterion(c.PatientNameStartsWith);
    LoweredCriterion(c.Diagnosis);
    LoweredCriterion(c.DoctorSpecializationStartsWith);
    LoweredCriterion(c.DoctorName);
    LoweredCriterion(c.DiagnosisContains);
    MatchesWrittenOut(c, records, r);
    MatchesWrittenOut(l, records, r);
  }

  // ---------------------------------------------------------------------
  // The date range
  // ---------------------------------------------------------------------

  /**
   * DateTo covers its whole day: with DateTo at the midnight `d` that starts
   * a day, a row at `d` + 23:59:59 passes the step and a row at the next
   * midnight does not.
   */
  lemma DateToCoversWholeDay(d: int, r: LoadedAppointment)
    ensures Date(r) == d + SecondsPerDay - 1 ==> OnOrBefore(EndOfDay(d))(r)
    ensures Date(r) == d + SecondsPerDay ==> !OnOrBefore(EndOfDay(d))(r)
    ensures OnOrBefore(EndOfDay(d))(r) <==> Date(r) < d + SecondsPerDay
  {
  }
}
