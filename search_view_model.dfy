/** The search form's criteria bag and the results page it leads to. */
module SearchViewModels {
  import opened Wrappers
  import opened AppointmentModel
  import opened PatientModel
  import opened DoctorModel

  /**
   * The criteria bag; every criterion is optional. The first ten fields are
   * the ones the view model declares; the last four are the names the
   * search action reads, which the view model itself does not declare.
   */
  datatype SearchViewModel = SearchViewModel(
    DateFrom: Option<int>,
    DateTo: Option<int>,
    SelectedPatientIds: Option<seq<int>>,
    SelectedDoctorIds: Option<seq<int>>,
    SelectedStatuses: Option<seq<AppointmentStatus>>,
    PatientLastName: Option<string>,
    DoctorLastName: Option<string>,
    DoctorSpecialization: Option<string>,
    AppointmentType: Option<string>,
    DiagnosisContains: Option<string>,
    PatientNameStartsWith: Option<string>,
    Diagnosis: Option<string>,
    DoctorSpecializationStartsWith: Option<string>,
    DoctorName: Option<string>)

  /** `new SearchViewModel()`: no criterion set. */
  function NewSearchViewModel(): SearchViewModel {
    SearchViewModel(None, None, None, None, None, None, None, None, None, None, None, None, None, None)
  }

  /** An appointment with its patient and doctor loaded (the `Include` navigations). */
  datatype LoadedAppointment = LoadedAppointment(appointment: Appointment, patient: Patient, doctor: Doctor)

  /** The results page: the criteria echoed back, the rows found and their count. */
  datatype SearchResultsViewModel = SearchResultsViewModel(
    SearchCriteria: SearchViewModel,
    Results: seq<LoadedAppointment>,
    TotalResults: int)

  /** The count shown agrees with the rows shown. */
  predicate CountAgrees(v: SearchResultsViewModel) {
    v.TotalResults == |v.Results|
  }

  /** `new SearchResultsViewModel()`: empty criteria, no rows, a count of zero that agrees with them. */
  function NewSearchResultsViewModel(): (v: SearchResultsViewModel)
    ensures CountAgrees(v) && v.TotalResults == 0
    ensures v.Results == [] && v.SearchCriteria == NewSearchViewModel()
  {
    SearchResultsViewModel(NewSearchViewModel(), [], 0)
  }
}
