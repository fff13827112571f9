# Klinika: a verified model of the clinic application's core

Klinika is an ASP.NET MVC application for a clinic. It keeps patients,
doctors, appointments and medical records in a database. This project
models three parts of it in Dafny and proves what they promise:

- **The appointment search** (`SearchController.Results`). It starts from
  every appointment joined to its patient and doctor. It applies one `Where`
  step per supplied criterion, orders the rows latest first and keeps 100.
  - `SearchActions.Results` mirrors the action: a fold of the conditional
    steps (`Filters`, `ApplyAll`), then an insertion sort and a take.
  - `SearchActions.Matches` states the same criteria independently, as one
    conjunction.
  - `FilterChainIsConjunction` proves the two agree.
  - `SearchProperties` proves what a caller relies on: every row shown
    matches, the rows shown are the latest matches, and blank, differently
    cased or unread criteria change nothing.
- **The database and the actions that write to it.**
  - `ClinicStore.KlinikaDb` is a class holding the four tables as maps,
    keyed by identity columns.
  - Its invariant `Valid` covers the foreign keys, the unique indexes and
    the agreement of keys with `Id`s.
  - Each write method states the new state, and the refusals (restrict
    delete, unique index, missing row) that leave the state unchanged.
  - `AppointmentsController` and `MedicalRecordsController` are classes
    over that store, with one method per action: create, edit and delete.
- **The entities and forms.** These are the annotation rules of
  `Appointment`, `MedicalRecord`, `Patient`, `Doctor`, `RegisterViewModel`,
  `ApplicationUser` and `LoginViewModel` as `IsValid` predicates, and the
  derived `FullName` and `FullNameWithTitle`.

Date-times are whole seconds on one time line. `DateTime.Now` is a
parameter `now`. String operations are modelled on .NET's:

- `char.IsWhiteSpace` uses its exact character set.
- `Trim` and `IsNullOrWhiteSpace` are built on that set.
- `StartsWith`, `EndsWith` and `Contains` are modelled as ordinal comparisons.

### Where the code and its names or tests disagree

The model follows the code:

- The search action reads `PatientNameStartsWith`, `Diagnosis`,
  `DoctorSpecializationStartsWith` and `DoctorName`. None of these is
  declared on `SearchViewModel`.
  - The criteria datatype carries the ten declared properties and these
    four.
  - The declared `PatientLastName`, `DoctorLastName`, `DoctorSpecialization`
    and `AppointmentType` are never read. `UndeclaredCriteriaIgnored`
    proves they do not matter.
- The `Diagnosis` criterion is a suffix match on the patient's first or
  last name.
- The `DoctorName` criterion is a substring match on the appointment's
  complaints.
- An appointment test expects `PatientId = 0` to fail validation. The
  appointment's only annotation on that property is `[Required]` on an
  `int`, which always passes. The model accepts it (`ComplaintsRule`).
- The database gives `RecordDate` a default value. The validator still
  requires it to be present, and the model follows the validator.

## Model

| member | source | states |
|---|---|---|
| SearchViewModels.NewSearchResultsViewModel | Klinika/Models/SearchViewModel.cs:28-33 | a new results page has the all-absent criteria bag, no rows and a count of 0 that agrees with the rows |
| SearchActions.Candidates | Klinika/Controllers/SearchController.cs:37-41 | the base query yields no more rows than there are appointments; each row's appointment is in the table and is loaded with its own patient and doctor |
| SearchActions.CandidatesCoverTable | Klinika/Controllers/SearchController.cs:37-41 | when every appointment's patient and doctor exist, the base query has exactly one row per appointment, in table order |
| SearchActions.PatientsWithDiagnosis | Klinika/Controllers/SearchController.cs:114-117 | the sub-query holds exactly the patient ids that have some record whose diagnosis, lower-cased, contains the term |
| SearchActions.Where | Klinika/Controllers/SearchController.cs:48-119 | a `Where` step keeps exactly the rows satisfying its predicate and never adds rows |
| SearchActions.Filters | Klinika/Controllers/SearchController.cs:46-120 | the conditional `Where` chain: at most one step per criterion, ten at most, in the action's order |
| SearchActions.NoStepsWhenNothingRestricts | Klinika/Controllers/SearchController.cs:46-120 | the chain is empty exactly when no date is given, no list is non-empty and no text criterion the action reads is supplied |
| SearchActions.ApplyAll | Klinika/Controllers/SearchController.cs:46-120 | reassigning `query` step by step keeps exactly the rows that pass every step, and never adds rows |
| SearchActions.SortByDateDesc | Klinika/Controllers/SearchController.cs:124 | ordering gives a permutation of the rows (same multiset) whose dates never increase |
| SearchActions.InsertKeepsOrder | Klinika/Controllers/SearchController.cs:124 | inserting a row into a latest-first sequence keeps it latest first |
| SearchActions.Take | Klinika/Controllers/SearchController.cs:125 | `Take(n)` is the prefix of length min(n, count) |
| SearchActions.Results | Klinika/Controllers/SearchController.cs:34-138 | the criteria are echoed unchanged; TotalResults equals the number of rows shown; at most 100 rows; rows latest first |
| SearchActions.Matching | Klinika/Controllers/SearchController.cs:46-120 | a row is kept exactly when it is a candidate and meets every supplied criterion |
| SearchActions.StepsCombineByAnd | Klinika/Controllers/SearchController.cs:46-120 | applying the steps one after another equals keeping the rows that satisfy all of them at once: criteria combine by AND only |
| SearchActions.EachStepMeansItsCriterion | Klinika/Controllers/SearchController.cs:46-119 | each step asks what its criterion means. The date steps: on or after DateFrom; at or before DateTo + 1 day − 1 s, i.e. before DateTo + 1 day. The list steps: membership. The name steps: the patient's lower-cased first or last name starts or ends with the term. Specialization: starts with the term. Complaints: present and containing the term. The diagnosis step: some record of the same patient |
| SearchActions.StepsMeanMatches | Klinika/Controllers/SearchController.cs:46-120 | all steps produced for the criteria hold of a row exactly when the row matches the criteria |
| SearchActions.FilterChainIsConjunction | Klinika/Controllers/SearchController.cs:46-120 | the chain of conditional `Where` steps returns exactly the matching rows, in their order |
| SearchProperties.ResultsSound | Klinika/Controllers/SearchController.cs:37-126 | every row shown is an appointment of the table, loaded with its own patient and doctor, and meets every supplied criterion |
| SearchProperties.ResultsAreTheLatest | Klinika/Controllers/SearchController.cs:123-137 | the rows shown number min(100, matches), are matches counted with multiplicity, are all of them when there are at most 100, and no match left out is later than a row shown |
| SearchProperties.LatestFirstPrefix | Klinika/Controllers/SearchController.cs:124-125 | the first n rows of a latest-first sequence are its latest rows |
| SearchProperties.WithoutBlanks | Klinika/Controllers/SearchController.cs:60-109 | each text criterion the action reads is kept when it is supplied and becomes absent when null or blank; each list is kept when non-empty and becomes absent when null or empty; the dates and the unread criteria stay as they were |
| SearchProperties.BlankCriteriaIgnored | Klinika/Controllers/SearchController.cs:60-109 | a null, empty or white-space-only text criterion and a null or empty list impose no restriction |
| SearchProperties.NoCriteriaKeepEverything | Klinika/Models/SearchViewModel.cs:5-26 | with a freshly constructed criteria bag the steps keep every candidate row, in order |
| SearchProperties.UndeclaredCriteriaIgnored | Klinika/Models/SearchViewModel.cs:17-22 | the declared PatientLastName, DoctorLastName, DoctorSpecialization and AppointmentType change nothing shown |
| SearchProperties.TermIgnoresCaseAndPadding | Klinika/Controllers/SearchController.cs:80 | the term `Trim().ToLower()` does not depend on the criterion's case or on white space around it |
| SearchProperties.CaseOfCriteriaIgnored | Klinika/Controllers/SearchController.cs:78-111 | lower-casing any text criterion changes no match: the comparison is case-insensitive |
| SearchProperties.DateToCoversWholeDay | Klinika/Controllers/SearchController.cs:51-55 | with DateTo at midnight D, D 23:59:59 passes and D+1 00:00:00 does not |
| Text.Trim | Klinika/Controllers/SearchController.cs:80 | the result is a slice of the input with only white space before and after it, has no white space at either end, and is empty exactly when the input is all white space |
| Text.Utf16Length | Klinika/Models/Appointment.cs:29 | `string.Length` as `[StringLength]` measures it: between one and two code units per character, exactly one each when no character is supplementary and two each when all are |
| Text.TrimIdempotent | Klinika/Controllers/SearchController.cs:80 | trimming twice equals trimming once |
| Text.Lower | Klinika/Controllers/SearchController.cs:80 | lower-casing keeps the length and maps each character by the lower-case table |
| Text.LowerIdempotent | Klinika/Controllers/SearchController.cs:80 | lower-casing twice equals lower-casing once |
| Text.TrimLowerCommute | Klinika/Controllers/SearchController.cs:80 | trimming and lower-casing commute |
| ClinicStore.KlinikaDb.constructor | Klinika/Data/KlinikaDbContext.cs:12-15 | a new database is empty, satisfies every invariant, and its identity columns start at 1 |
| ClinicStore.KlinikaDb.KeysAgree | Klinika/Data/KlinikaDbContext.cs:12-15 | every row is stored under its own Id, handed out by its identity column from 1 upwards; so the next value of each column and the default Id 0 are free |
| ClinicStore.KlinikaDb.ReferencesResolve | Klinika/Data/KlinikaDbContext.cs:26-48 | the four foreign keys: every appointment and every medical record names an existing patient and doctor |
| ClinicStore.KlinikaDb.IndexesUnique | Klinika/Data/KlinikaDbContext.cs:50-64 | the four unique indexes: patient phone, patient email, doctor email and (doctor, date-time); an absent email is not indexed |
| ClinicStore.KlinikaDb.Valid | Klinika/Data/KlinikaDbContext.cs:26-64 | the store invariant: keys agree, foreign keys resolve and the unique indexes hold |
| ClinicStore.KlinikaDb.ReferencedRowsExist | Klinika/Data/KlinikaDbContext.cs:26-48 | under the foreign keys, any patient or doctor an appointment or record refers to exists |
| ClinicStore.KlinikaDb.IndexedValuesOwned | Klinika/Data/KlinikaDbContext.cs:50-64 | under the unique indexes, no stored patient's phone or email, doctor's email or appointment's slot is held by another row |
| ClinicStore.KlinikaDb.ActiveDoctors | Klinika/Controllers/AppointmentsController.cs:21 | the doctors offered by the forms are exactly those that exist and are active |
| ClinicStore.KlinikaDb.QueriesAreLookups | Klinika/Controllers/AppointmentsController.cs:77-78 | the `AnyAsync` existence checks are key lookups once keys and Ids agree |
| ClinicStore.KlinikaDb.SlotsBelongToOne | Klinika/Data/KlinikaDbContext.cs:62-64 | in a valid store each appointment's (doctor, date-time) belongs to it alone, and it blocks a new appointment for the same slot |
| ClinicStore.KlinikaDb.AddPatient | Klinika/Data/KlinikaDbContext.cs:50-56 | an insert reusing a phone number or a present email is refused with that index and leaves the store unchanged; otherwise exactly one patient is added under the next Id; the invariants hold |
| ClinicStore.KlinikaDb.AddDoctor | Klinika/Data/KlinikaDbContext.cs:58-60 | an insert reusing a present email is refused and leaves the store unchanged; otherwise exactly one doctor is added under the next Id |
| ClinicStore.KlinikaDb.RemovePatient | Klinika/Data/KlinikaDbContext.cs:26-42 | deleting a patient referred to by an appointment or record is refused and changes nothing; otherwise the patient (if any) is removed and nothing else changes |
| ClinicStore.KlinikaDb.RemoveDoctor | Klinika/Data/KlinikaDbContext.cs:32-48 | deleting a doctor referred to by an appointment or record is refused and changes nothing; otherwise the doctor (if any) is removed and nothing else changes |
| ClinicStore.KlinikaDb.AddAppointment | Klinika/Data/KlinikaDbContext.cs:26-64 | an insert with a missing patient or doctor, or into a taken (doctor, date-time) slot, is refused and changes nothing; otherwise exactly one appointment is added under the next Id |
| ClinicStore.KlinikaDb.UpdateAppointment | Klinika/Data/KlinikaDbContext.cs:26-64 | an appointment with Id 0 is inserted under the next identity value, as by `Add`; an update of any other missing row is refused as a vanished row; a missing reference or another appointment's slot is refused; each refusal changes nothing. It succeeds exactly when none applies, replacing that one row |
| ClinicStore.KlinikaDb.RemoveAppointment | Klinika/Controllers/AppointmentsController.cs:195 | the row goes; nothing else changes; the invariants hold |
| ClinicStore.KlinikaDb.AddRecord | Klinika/Data/KlinikaDbContext.cs:38-48 | an insert with a missing patient or doctor is refused and changes nothing; otherwise exactly one record is added under the next Id |
| ClinicStore.KlinikaDb.UpdateRecord | Klinika/Data/KlinikaDbContext.cs:38-48 | a record with Id 0 is inserted under the next identity value, as by `Add`; an update of any other missing row is refused as a vanished row; a missing reference is refused; each refusal changes nothing. It succeeds exactly when neither applies, replacing that one row |
| ClinicStore.KlinikaDb.RemoveRecord | Klinika/Controllers/MedicalRecordsController.cs:195 | the row goes; nothing else changes; the invariants hold |
| AppointmentsControllers.AppointmentsController.CreateForm | Klinika/Controllers/AppointmentsController.cs:56-65 | the form is pre-filled with the given ids or 0, one hour from now, 30 minutes, Scheduled, no update date, and passes validation |
| AppointmentsControllers.AppointmentsController.Create | Klinika/Controllers/AppointmentsController.cs:73-111 | an invalid form is shown again; an unknown patient and a missing or inactive doctor are reported, each exactly when its own check fails and in that order; a taken slot puts its error on AppointmentDateTime; any other save failure gives a form-wide error; each of these changes nothing. Success happens exactly when none applies, and adds exactly one appointment created now under the next identity value, which advances by one |
| AppointmentsControllers.AppointmentsController.SecondBookingRefused | Klinika/Controllers/AppointmentsController.cs:89-101 | submitting the same booking twice: the first is stored, the second gets the slot conflict error, and one appointment is added in all |
| AppointmentsControllers.AppointmentsController.Edit | Klinika/Controllers/AppointmentsController.cs:134-165 | a route id different from the form's Id is NotFound; an invalid form is shown again; a vanished row is NotFound; a missing reference or a taken slot escapes as an exception; each changes nothing. It redirects to the list exactly when none applies: the row is replaced with UpdatedDate = now, without Create's checks, or, for Id 0, inserted under the next identity value |
| AppointmentsControllers.AppointmentsController.DeleteConfirmed | Klinika/Controllers/AppointmentsController.cs:190-200 | the appointment with that id is gone, the other tables and the identity counters are unchanged, an unknown id changes nothing, and the action always redirects |
| MedicalRecordsControllers.MedicalRecordsController.Index | Klinika/Controllers/MedicalRecordsController.cs:25-43 | with a patient id, exactly the records of that patient; without one, every record |
| MedicalRecordsControllers.MedicalRecordsController.IndexPartitionsRecords | Klinika/Controllers/MedicalRecordsController.cs:25-43 | the unfiltered list is the whole table; each record is listed under its own patient and under no other |
| MedicalRecordsControllers.MedicalRecordsController.CreateForm | Klinika/Controllers/MedicalRecordsController.cs:68-84 | the form is pre-filled with the given ids or 0 and dated now; it passes validation exactly when both ids are given and in range |
| MedicalRecordsControllers.MedicalRecordsController.Create | Klinika/Controllers/MedicalRecordsController.cs:89-111 | an invalid form is shown again; an unknown patient and a missing or inactive doctor are reported, each exactly when its own check fails and in that order; each changes nothing. Otherwise exactly one record is added under the next identity value, which advances by one, and the action redirects |
| MedicalRecordsControllers.MedicalRecordsController.Edit | Klinika/Controllers/MedicalRecordsController.cs:135-165 | an id mismatch or a vanished row is NotFound; an invalid form is shown again; a missing reference escapes as an exception; each changes nothing. It redirects to the list exactly when none applies: the row is replaced, or, for Id 0, inserted under the next identity value |
| MedicalRecordsControllers.MedicalRecordsController.DeleteConfirmed | Klinika/Controllers/MedicalRecordsController.cs:190-200 | the record with that id is gone, the other tables and the identity counters are unchanged, an unknown id changes nothing, and the action always redirects |
| AppointmentModel.StatusOf | Klinika/Models/Appointment.cs:49-61 | an integer denotes a status exactly when it is 0..4 |
| AppointmentModel.StatusRoundTrip | Klinika/Models/Appointment.cs:49-61 | the five statuses and the values 0..4 correspond one to one |
| AppointmentModel.NewAppointmentDefaults | Klinika/Models/Appointment.cs:20-42 | a new appointment is Scheduled (0), lasts 30 minutes, has no update date and passes validation |
| AppointmentModel.ComplaintsRule | Klinika/Models/Appointment.cs:9-36 | complaints pass exactly up to 1000 UTF-16 code units; absent complaints, type and notes pass; the ids are not range-checked |
| MedicalRecordModel.ValidityRules | Klinika/Models/MedicalRecord.cs:9-50 | an id below 1, an absent record date or any text over 1000 UTF-16 code units fails; the next visit date does not matter |
| MedicalRecordModel.MinimalRecordValid | Klinika/Models/MedicalRecord.cs:9-50 | a record with ids in range, a date and no texts is valid |
| Names.FullNameOf | Klinika/Models/Patient.cs:51 | the full name never begins or ends with white space and is no longer than its parts and two separators |
| Names.FullNameOfTrimmedParts | Klinika/Models/Doctor.cs:58 | with trimmed non-empty parts the full name is "Last First Middle", or "Last First" when the middle name is absent or empty, with no trailing space |
| PatientModel.FullName | Klinika/Models/Patient.cs:51 | the patient's full name is trimmed at both ends |
| PatientModel.ValidityRules | Klinika/Models/Patient.cs:9-42 | an empty first name, last name, gender or phone fails; the middle name, email, address and insurance number may be absent |
| PatientModel.NewPatientInvalid | Klinika/Models/Patient.cs:9-32 | a freshly constructed patient fails validation until its required fields are filled |
| PatientModel.FullNameOfCleanParts | Klinika/Models/Patient.cs:51 | with non-blank trimmed parts the full name is "Last First Middle" (e.g. "Петренко Іван Олександрович"), or "Last First" with no trailing space when the middle name is absent or empty |
| DoctorModel.FullName | Klinika/Models/Doctor.cs:58 | the doctor's full name is trimmed at both ends |
| DoctorModel.FullNameWithTitle | Klinika/Models/Doctor.cs:61 | the title is the full name, then ", ", then the specialization |
| DoctorModel.ExperienceRule | Klinika/Models/Doctor.cs:28-30 | experience is valid exactly in 0..50 |
| DoctorModel.RequiredFields | Klinika/Models/Doctor.cs:9-35 | an empty first name, last name, specialization, qualification or phone fails |
| DoctorModel.NewDoctorIsActive | Klinika/Models/Doctor.cs:50-51 | a new doctor is active, and fails validation until its required fields are filled |
| DoctorModel.FullNameOfCleanParts | Klinika/Models/Doctor.cs:58-61 | with non-blank trimmed parts the full name is "Last First Middle", or "Last First" when the middle name is absent or empty, and the title is that name, ", " and the specialization (e.g. "Коваль Олена Петрівна, Терапевт") |
| Annotations.UaPhonePassesAll | Klinika/Models/Identity/RegisterViewModel.cs:23-26 | a number of the form +380 and nine digits passes `[Required]`, `[Phone]` and the pattern |
| Annotations.UaPhoneRule | Klinika/Models/Identity/RegisterViewModel.cs:23-26 | under the three phone attributes a value is valid exactly when it is +380 followed by nine digits |
| IdentityModels.RegisterPhoneRule | Klinika/Models/Identity/RegisterViewModel.cs:23-26 | given an otherwise valid form, the phone is accepted exactly when it is +380 and nine digits |
| IdentityModels.RegisterPasswordRule | Klinika/Models/Identity/RegisterViewModel.cs:28-31 | given an otherwise valid form, a password is accepted exactly when it is 8 to 16 UTF-16 code units long and not blank |
| IdentityModels.RegisterConfirmRule | Klinika/Models/Identity/RegisterViewModel.cs:16-37 | the confirmation is accepted exactly when it equals the password; the middle name may be absent |
| IdentityModels.RegisterRequiredFields | Klinika/Models/Identity/RegisterViewModel.cs:8-37 | an empty last name, first name, email, phone, password or confirmation fails |
| IdentityModels.UserFieldRules | Klinika/Models/Identity/ApplicationUser.cs:9-27 | the user name must be present, not blank and at most 50 UTF-16 code units; the full name likewise with at most 500; the phone must be +380 and nine digits |
| IdentityModels.NewUserDefaults | Klinika/Models/Identity/ApplicationUser.cs:29-31 | a new user is active, has never logged in and fails validation until its required fields are set |
| IdentityModels.LoginRules | Klinika/Models/Identity/LoginViewModel.cs:7-19 | an empty email or password fails; RememberMe and ReturnUrl do not matter; RememberMe starts false and ReturnUrl absent |

## Left out

- Text.Lower: lower-cases Basic Latin, Latin-1 and Cyrillic, including Є, І, Ї and Ґ. Every other character is left unchanged, whereas .NET's culture-sensitive `ToLower` maps more.
- Culture and collation.
  - `StartsWith` and `EndsWith` with a string argument are culture-sensitive in .NET. They are modelled as ordinal comparisons.
  - In the database, the search predicates run under the server's collation. That is not modelled.
- ClinicStore.KlinikaDb.AddPatient: the phone and email unique indexes compare with exact string equality. SQL Server compares under the database collation, case-insensitive by default, so two emails differing only in case collide there but not in the model.
- ClinicStore.KlinikaDb.AddDoctor: the email unique index compares with exact string equality, not under the database collation.
- ClinicStore.KlinikaDb.IndexesUnique: the invariant, and `PhoneTaken`, `PatientEmailTaken` and `DoctorEmailTaken`, use exact string equality for the same reason; the case-insensitive uniqueness the server enforces is not stated.
- SearchActions.Results: a `DateTo` on the last day `DateTime` can represent makes `AddDays(1)` throw `ArgumentOutOfRangeException` in .NET. Date-times here are unbounded integers, so the model returns rows instead.
- `Annotations.IsDecimalDigit`: `\d` and `char.IsDigit` accept every Unicode decimal digit. The model accepts ASCII digits only.
- The `[Phone]` and `[EmailAddress]` checks are approximations:
  - `[Phone]`: digits, white space and `+-.()`, with at least one digit.
  - `[EmailAddress]`: exactly one `@`, neither first nor last.
  - The framework's extension-number rule is not modelled.
- Sub-second ticks.
  - Date-times are whole seconds.
  - The end-of-day bound `DateTo + 1 day − 1 s` therefore behaves as "before the next midnight". In .NET, a time within the last second of the day is excluded.
- The relative order of appointments with equal date-times after `OrderByDescending`. The model's insertion sort fixes one order among them; the database guarantees none.
- MedicalRecordsControllers.MedicalRecordsController.Index: returns the records as a map keyed by Id, so the (unsorted) order of the list is not modelled.
- 32-bit identity and integer overflow. Ids and counters are unbounded integers.
- Identity gaps. SQL Server consumes an identity value even when the INSERT then fails (a slot conflict, a foreign key). The model advances a counter only on a successful insert, so it hands out consecutive Ids where the database leaves gaps.
- Asynchrony, the HTTP pipeline, anti-forgery tokens and model binding.
  - Actions take the bound entity as a value.
  - Validation errors from the annotations are represented only as "form shown again" (`Redisplay([])`).
- The `DbUpdateException` message.
  - `AppointmentsController.Create` recognises the slot index by searching the inner exception's text. The model reports which index failed as a value (`UniqueIndexViolated(SlotIndex)`).
  - The parameter `storeFails` stands for every other database error.
- AppointmentsControllers.AppointmentsController.Edit and MedicalRecordsControllers.MedicalRecordsController.Edit: the rethrow of a concurrency exception when the row still exists is not modelled. The single-threaded store can only raise it for a missing row.
- View state:
  - `ViewData` and `ViewBag` (the patient name on the record list);
  - the `SelectList` population beyond the active-doctor filter (`ActiveDoctors`);
  - the read-only actions (`Index` of appointments, `Details`, the GET `Edit` and `Delete`), which only display rows.
- `MedicalRecordsController.Index()` without parameters, which only throws, and the Edit bind list's columns that no longer exist.
- The navigation collections (`Patient.Appointments`, `Doctor.MedicalRecords`, …).
  - These start empty on a new entity. In the store they are the rows whose foreign key names the entity, so they are not stored separately.
- Database-side defaults (`GETDATE()` for registration, hire, creation and record dates).
- The identity tables `Users`, `Roles` and `UserRoles`, and the account controller: `UserManager`/`SignInManager` are not part of this model.
- Program start-up and the migrations: they hold configuration and schema only.
- PatientModel.FullNameOfCleanParts and DoctorModel.FullNameOfCleanParts: the names in the unit tests are instances of these lemmas. The literal strings themselves are not evaluated.
