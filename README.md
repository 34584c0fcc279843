# FinX clinical records — a verified model of the domain, validation and query core

FinX is a clinical-records API with these parts:

- patients, identified by a Brazilian CPF;
- their appointments;
- their medical-history records;
- their external laboratory exams.

This project models in Dafny the parts of FinX that carry logic:

- **The request validators.** These are FluentValidation rule chains: `UpdatePatientDtoValidator`, the two appointment validators, `CreateMedicalHistoryDtoValidator` and `CreateExternalExamDtoValidator`.
  - The patient validator's CPF modulo-11 check-digit test and its completed-years age test are modelled loop for loop.
- **The four domain entities.** These are classes whose constructors stamp an id and a creation time, and whose `Update` methods overwrite the data fields in place.
- **The Entity Framework repositories.** These are classes over a sequence of rows:
  - the filter, order and skip/take pipelines of the listings;
  - the case-insensitive patient search and its total count;
  - the Create, Update, Delete and Exists store semantics.
- **The four application services.** Each is a sequence of read, check, mutate and persist steps. Their "not found" outcomes differ from service to service.
- **The in-memory `MockExternalExamService`.**

## Model conventions

- `DateTime` is a tick count: a `nat` of 100 ns ticks since 0001-01-01.
- `Guid` is a 128-bit number, and `Guid.Empty` is 0.
- A C# string that may be null is `Option<string>`. A Dafny `char` is a Unicode scalar value, while a .NET string holds UTF-16 code units. `Common.Utf16` encodes a string into those units. The length validators and the CPF test count and index code units, as .NET does, so a character outside the Basic Multilingual Plane counts twice.
- A validator returns the list of (property, message) failures in rule order. FluentValidation's default `Continue` cascade runs every rule of a chain even after one has failed, and the model does the same.
- The clock and `Guid.NewGuid()` become parameters:
  - `now`, `today` and `newId`;
  - each service precondition states that a new id is fresh in its table.
- A service returns `Option` where the C# returns `null`. It returns `Result` where the C# raises an `ArgumentException`.

## Model

| member | source | states |
|---|---|---|
| CpfCheck.CheckDigit | src/FinX.Application/Validators/Patient/UpdatePatientDtoValidator.cs:82-84 | a check digit is always in 0..9: 0 when the weighted sum leaves a remainder below 2 modulo 11, otherwise 11 minus the remainder |
| CpfCheck.ParseUnit | src/FinX.Application/Validators/Patient/UpdatePatientDtoValidator.cs:81 | `int.Parse` of one code unit yields a value exactly for an ASCII digit, and that value prints back as the same unit; half a surrogate pair raises |
| CpfCheck.CpfSpec | src/FinX.Application/Validators/Patient/UpdatePatientDtoValidator.cs:61-98 | the outcome step by step: null, empty or not eleven code units is `false`; eleven units holding a surrogate pair raise; otherwise all-same is `false`, a non-digit among the first ten raises, a wrong first check digit is `false`, a non-digit eleventh raises, and the second check digit decides |
| CpfCheck.BmpCpfUnits | src/FinX.Application/Validators/Patient/UpdatePatientDtoValidator.cs:61-98 | for a string in the Basic Multilingual Plane, the eleven code units the C# indexes are its eleven characters, so the unit tests equal the character tests |
| CpfCheck.BmpPrefix | src/FinX.Application/Validators/Patient/UpdatePatientDtoValidator.cs:79-92 | the first n code units of such a string are digit units exactly when its first n characters are digits, with the same values |
| CpfCheck.SupplementaryCpfUnits | src/FinX.Application/Validators/Patient/UpdatePatientDtoValidator.cs:66-92 | eleven code units holding a surrogate pair are not all the same and have a non-digit among the first ten, so the C# raises before answering |
| CpfCheck.SupplementaryLastRaises | src/FinX.Application/Validators/Patient/UpdatePatientDtoValidator.cs:61-98 | nine Basic Multilingual Plane characters followed by one outside it pass the eleven-unit length test, yet make BeAValidCpf raise; the corrected check answers false |
| CpfCheck.SupplementaryCpfRaises | src/FinX.Application/Validators/Patient/UpdatePatientDtoValidator.cs:61-98 | "123456789" followed by U+1F600 is eleven code units long and makes BeAValidCpf raise; the corrected check answers false |
| CpfCheck.BeAValidCpf | src/FinX.Application/Validators/Patient/UpdatePatientDtoValidator.cs:61-98 | the imperative check agrees with the step-by-step specification `CpfSpec`; null, empty or not eleven code units long is `false`; accepted means both check digits match and the characters are not all the same |
| CpfCheck.AllDigitsSame | src/FinX.Application/Validators/Patient/UpdatePatientDtoValidator.cs:66-76 | the early-exit loop over the code units answers true exactly when every unit equals the first |
| CpfCheck.ParseWeightedSum | src/FinX.Application/Validators/Patient/UpdatePatientDtoValidator.cs:79-92 | the accumulating loop yields a sum exactly when the first n code units are digits, and that sum is the weighted sum of their values with weights top, top-1, … |
| CpfCheck.DigitStringVerdict | src/FinX.Application/Validators/Patient/UpdatePatientDtoValidator.cs:66-97 | for an eleven-digit string the answer is: not one repeated digit and both check digits match |
| CpfCheck.ExactlyOneCompletion | src/FinX.Application/Validators/Patient/UpdatePatientDtoValidator.cs:78-97 | every nine-digit prefix that is not one repeated digit is accepted with exactly one pair of final digits, its two check digits |
| CpfCheck.RepeatedDigitPassesChecksum | src/FinX.Application/Validators/Patient/UpdatePatientDtoValidator.cs:66-76 | each of the ten one-digit strings satisfies both check-digit equations, yet is rejected by the all-same test |
| CpfCheck.ConstantWeightedSum | src/FinX.Application/Validators/Patient/UpdatePatientDtoValidator.cs:79-92 | closed form of the weighted sum of n equal digits, which makes the repeated-digit strings pass the checksum |
| CpfCheck.KnownValidCpf | src/FinX.Application/Validators/Patient/UpdatePatientDtoValidator.cs:61-98 | 11144477735 is accepted |
| CpfCheck.SecondCheckDigitRejects | src/FinX.Application/Validators/Patient/UpdatePatientDtoValidator.cs:88-97 | 12345678900 passes the first check digit (0) and fails the second, whose computed value is 9 |
| CpfCheck.FirstCheckOf | src/FinX.Application/Validators/Patient/UpdatePatientDtoValidator.cs:79-84 | the first check digit of a nine-digit prefix lies in 0..9 |
| CpfCheck.SecondCheckOf | src/FinX.Application/Validators/Patient/UpdatePatientDtoValidator.cs:90-95 | the second check digit of a prefix completed by its first check digit lies in 0..9 |
| CpfCheck.IsValidCpf | src/FinX.Application/Validators/Patient/UpdatePatientDtoValidator.cs:61-98 | the corrected check never raises; wherever the original answers, both answer the same; accepted implies eleven ASCII digits, not all the same |
| CpfCheck.NonDigitCpfRaises | src/FinX.Application/Validators/Patient/UpdatePatientDtoValidator.cs:81 | "invalid_cpf" (eleven characters, a letter first) makes the original raise a FormatException; the corrected check answers false |
| Calendar.DaysInMonth | src/FinX.Application/Validators/Patient/UpdatePatientDtoValidator.cs:54-59 | a Gregorian month has 28 to 31 days |
| Calendar.YearAndOffset | src/FinX.Application/Validators/Patient/UpdatePatientDtoValidator.cs:54-59 | splits a day count into a year and a day within that year, preserving the count |
| Calendar.MonthAndDay | src/FinX.Application/Validators/Patient/UpdatePatientDtoValidator.cs:54-59 | splits a day within a year into a valid month and day, preserving the count |
| Calendar.DateOfDayNumber | src/FinX.Application/Validators/Patient/UpdatePatientDtoValidator.cs:54-59 | the calendar date of a day number is valid and numbers back to the same day |
| Calendar.DateOf | src/FinX.Application/Validators/Patient/UpdatePatientDtoValidator.cs:54-59 | every tick count has a valid calendar date (`DateTime.Year`, `Month`, `Day`) |
| Calendar.DatePart | src/FinX.Application/Validators/Patient/UpdatePatientDtoValidator.cs:58 | `DateTime.Date` is the midnight at or before the instant, less than one day earlier |
| Calendar.Clamped | src/FinX.Application/Validators/Patient/UpdatePatientDtoValidator.cs:58 | `AddYears` keeps the month and the day, clamping the day to the month's last day (29 February becomes 28 February) |
| Calendar.AddYearsToYear | src/FinX.Application/Validators/Patient/UpdatePatientDtoValidator.cs:58 | `today.AddYears(-age)` is the clamped same month and day in the target year, at the same time of day |
| Calendar.DatePartIsDayStart | src/FinX.Application/Validators/Patient/UpdatePatientDtoValidator.cs:58 | the date part of an instant is the first tick of its calendar day |
| Calendar.ClampedBefore | src/FinX.Application/Validators/Patient/UpdatePatientDtoValidator.cs:58 | a birth date lies after today's clamped month and day in the birth year exactly when today's month and day come before the birthday |
| Calendar.DayNumberOrderWithinYear | src/FinX.Application/Validators/Patient/UpdatePatientDtoValidator.cs:58 | within a year, day numbers are ordered as month and day are |
| Calendar.MonthStartsGrow | src/FinX.Application/Validators/Patient/UpdatePatientDtoValidator.cs:58 | a month ends at or before the start of every later month |
| Calendar.MonthsFillYear | src/FinX.Application/Validators/Patient/UpdatePatientDtoValidator.cs:58 | the twelve months add up to the year's length |
| PatientValidation.BeAValidAge | src/FinX.Application/Validators/Patient/UpdatePatientDtoValidator.cs:54-59 | accepts exactly when the completed years of age (year difference, less one before the birthday) lie in 0..120 |
| PatientValidation.BirthdayNotYetReached | src/FinX.Application/Validators/Patient/UpdatePatientDtoValidator.cs:56-58 | the tick comparison `dateOfBirth.Date > today.AddYears(-age)` is the calendar question "has this year's birthday not come yet" |
| PatientValidation.AgeBoundary | src/FinX.Application/Validators/Patient/UpdatePatientDtoValidator.cs:54-59 | on the birthday itself, a patient is accepted from the birth year up to the 120th birthday and rejected from the 121st |
| PatientValidation.CompletedYears | src/FinX.Application/Validators/Patient/UpdatePatientDtoValidator.cs:56-57 | the completed years of age: the difference of the years, less one while this year's birthday is still to come (a definition, proved equal to `BeAValidAge`'s steps) |
| PatientValidation.AgeAccepted | src/FinX.Application/Validators/Patient/UpdatePatientDtoValidator.cs:58 | the age rule: completed years between 0 and 120 inclusive (a definition) |
| Calendar.Year | src/FinX.Application/Validators/Patient/UpdatePatientDtoValidator.cs:56 | `DateTime.Year`: the Gregorian year of the instant's calendar date (a definition) |
| Calendar.AddYears | src/FinX.Application/Validators/Patient/UpdatePatientDtoValidator.cs:57 | `DateTime.AddYears`: same month, the day clamped to the target month's length, same time of day (a definition) |
| PatientValidation.NameFailures | src/FinX.Application/Validators/Patient/UpdatePatientDtoValidator.cs:11-19 | a first or last name passes exactly when it is non-blank and 2 to 100 UTF-16 code units long |
| PatientValidation.SupplementaryCharacterCountsTwice | src/FinX.Application/Validators/Patient/UpdatePatientDtoValidator.cs:11-14 | a first name of one character outside the Basic Multilingual Plane is two code units long and passes `MinimumLength(2)`, while a single ASCII letter fails it |
| PatientValidation.CpfFailuresAsWritten | src/FinX.Application/Validators/Patient/UpdatePatientDtoValidator.cs:21-25 | the CPF chain raises exactly when the check-digit test raises; otherwise it is clean exactly when the CPF is accepted |
| PatientValidation.CpfFailures | src/FinX.Application/Validators/Patient/UpdatePatientDtoValidator.cs:21-25 | with the corrected test the chain is clean exactly for a valid CPF, and it equals the original wherever that does not raise |
| PatientValidation.CpfAcceptedIsWellFormed | src/FinX.Application/Validators/Patient/UpdatePatientDtoValidator.cs:22-24 | a CPF that passes the check digits also passes NotEmpty, Length(11) and the digits pattern |
| PatientValidation.DateOfBirthFailures | src/FinX.Application/Validators/Patient/UpdatePatientDtoValidator.cs:27-30 | a date of birth passes exactly when it is non-default, strictly before now, and gives an accepted age |
| PatientValidation.EmailFailures | src/FinX.Application/Validators/Patient/UpdatePatientDtoValidator.cs:36-39 | an e-mail passes exactly when it is non-blank, accepted by the address predicate and at most 100 code units long |
| PatientValidation.PhoneFailures | src/FinX.Application/Validators/Patient/UpdatePatientDtoValidator.cs:41-44 | a phone number passes exactly when it is non-blank, at most 20 code units long and all digits |
| PatientValidation.GenderFailures | src/FinX.Application/Validators/Patient/UpdatePatientDtoValidator.cs:32-34 | a gender passes exactly when it is non-blank and at most 20 code units long |
| PatientValidation.MedicalHistoryFailures | src/FinX.Application/Validators/Patient/UpdatePatientDtoValidator.cs:50-51 | the medical history passes when it is null or at most 2000 code units long |
| PatientValidation.ContactFailures | src/FinX.Application/Validators/Patient/UpdatePatientDtoValidator.cs:36-48 | e-mail, phone and address (non-blank, at most 200 code units) all pass exactly when each field's rules hold |
| PatientValidation.FailuresBeforeCpf | src/FinX.Application/Validators/Patient/UpdatePatientDtoValidator.cs:11-19 | both name chains pass exactly when both names satisfy their rules |
| PatientValidation.FailuresAfterCpf | src/FinX.Application/Validators/Patient/UpdatePatientDtoValidator.cs:27-51 | every chain after the CPF passes exactly when each of those fields satisfies its rules |
| PatientValidation.ValidateAsWritten | src/FinX.Application/Validators/Patient/UpdatePatientDtoValidator.cs:9-52 | the validator as written raises exactly when the CPF check raises; otherwise it reports exactly what the corrected validator reports |
| PatientValidation.Validate | src/FinX.Application/Validators/Patient/UpdatePatientDtoValidator.cs:9-52 | the corrected validator reports no failure exactly when every field rule holds |
| PatientValidation.InvalidCpfRequestRaises | src/FinX.Application/Validators/Patient/UpdatePatientDtoValidator.cs:21-25 | any request whose CPF is "invalid_cpf" makes the validator as written raise, whatever the other fields |
| PatientValidation.InvalidCpfFailures | src/FinX.Application/Validators/Patient/UpdatePatientDtoValidator.cs:21-25 | the corrected chain reports "invalid_cpf" as a non-digit CPF and an invalid CPF |
| PatientValidation.InvalidCpfReported | src/FinX.Application/Validators/Patient/UpdatePatientDtoValidator.cs:21-25 | the corrected validator lists both CPF failures for such a request |
| Rules.Rule | src/FinX.Application/Validators/Appointment/CreateAppointmentDtoValidator.cs:11-13 | one validator contributes no failure when its condition holds, and exactly its own (property, message) failure otherwise |
| Rules.RequiredText | src/FinX.Application/Validators/ExternalExams/CreateExternalExamDtoValidator.cs:14-18 | `NotEmpty().MaximumLength(n)` passes exactly for a non-blank string of at most n UTF-16 code units, and reports at most two failures, all on that property |
| Rules.NotEmptyTextHasLength | src/FinX.Application/Validators/Appointment/CreateAppointmentDtoValidator.cs:29-31 | a string that passes NotEmpty is present and at least one character long |
| Rules.NotEmptyText | src/FinX.Application/Validators/Patient/UpdatePatientDtoValidator.cs:12 | `NotEmpty()` on a string: not null and not made only of white space (a definition) |
| Rules.MinimumLength | src/FinX.Application/Validators/Patient/UpdatePatientDtoValidator.cs:13 | `MinimumLength(n)`: null, or at least n UTF-16 code units (a definition) |
| Rules.MaximumLength | src/FinX.Application/Validators/Patient/UpdatePatientDtoValidator.cs:14 | `MaximumLength(n)`: null, or at most n UTF-16 code units (a definition) |
| Rules.ExactLength | src/FinX.Application/Validators/Patient/UpdatePatientDtoValidator.cs:23 | `Length(n)`: null, or exactly n UTF-16 code units (a definition) |
| Rules.DigitsLine | src/FinX.Application/Validators/Patient/UpdatePatientDtoValidator.cs:24 | `^\d+$`: one or more ASCII digits, optionally followed by one final line feed (a definition) |
| Rules.MatchesDigits | src/FinX.Application/Validators/Patient/UpdatePatientDtoValidator.cs:24 | `Matches(@"^\d+$")`: null, or a digits line (a definition) |
| Rules.EmailAddress | src/FinX.Application/Validators/Patient/UpdatePatientDtoValidator.cs:38 | `EmailAddress()`: null, or accepted by the address test (a definition) |
| AppointmentValidation.PatientIdFailures | src/FinX.Application/Validators/Appointment/CreateAppointmentDtoValidator.cs:11-13 | the patient id passes exactly when it is not the empty GUID |
| AppointmentValidation.FutureDateFailures | src/FinX.Application/Validators/Appointment/CreateAppointmentDtoValidator.cs:15-19 | the appointment date passes exactly when it is strictly after now |
| AppointmentValidation.DateFailures | src/FinX.Application/Validators/Appointment/UpdateAppointmentDtoValidator.cs:15-17 | on update the appointment date passes exactly when it is not the default value |
| AppointmentValidation.DurationFailures | src/FinX.Application/Validators/Appointment/CreateAppointmentDtoValidator.cs:21-27 | a duration passes exactly when it is in 1..480; 0 fails both NotEmpty and GreaterThan(0) |
| AppointmentValidation.TypeFailures | src/FinX.Application/Validators/Appointment/CreateAppointmentDtoValidator.cs:29-33 | the type passes exactly when it is non-blank and at most 100 code units long |
| AppointmentValidation.NotesFailures | src/FinX.Application/Validators/Appointment/CreateAppointmentDtoValidator.cs:35-37 | notes pass when null or at most 1000 code units long |
| AppointmentValidation.StatusFailures | src/FinX.Application/Validators/Appointment/UpdateAppointmentDtoValidator.cs:27-37 | the status passes exactly when it is one of the five listed values, compared case-sensitively |
| AppointmentValidation.AllowedStatusesAreWellFormed | src/FinX.Application/Validators/Appointment/UpdateAppointmentDtoValidator.cs:28-31 | every allowed status is non-blank and at most 50 code units long, so the first two status rules are implied by the third |
| AppointmentValidation.ValidateCreate | src/FinX.Application/Validators/Appointment/CreateAppointmentDtoValidator.cs:9-38 | the create validator reports nothing exactly when every create rule holds |
| AppointmentValidation.ValidateUpdate | src/FinX.Application/Validators/Appointment/UpdateAppointmentDtoValidator.cs:9-48 | the update validator reports nothing exactly when every update rule holds |
| AppointmentValidation.DateEqualToNowRejected | src/FinX.Application/Validators/Appointment/CreateAppointmentDtoValidator.cs:15-19 | an appointment at exactly now is reported as not in the future, once when now is non-default |
| AppointmentValidation.DurationBounds | src/FinX.Application/Validators/Appointment/CreateAppointmentDtoValidator.cs:21-27 | 0 gets two failures, 481 gets the eight-hour failure, 1 and 480 pass |
| AppointmentValidation.StatusIsCaseSensitive | src/FinX.Application/Validators/Appointment/UpdateAppointmentDtoValidator.cs:27-37 | "Rescheduled" and "scheduled" are rejected with the enumeration message; "No-Show" passes |
| AppointmentValidation.UpdateAcceptsPastDates | src/FinX.Application/Validators/Appointment/UpdateAppointmentDtoValidator.cs:15-17 | a valid update dated in the past passes, while the same data as a create fails only on the future-date rule |
| MedicalHistoryValidation.ValidateCreate | src/FinX.Application/Validators/MedicalHistory/CreateMedicalHistoryDtoValidator.cs:8-31 | reports nothing exactly when the patient id is non-empty and diagnosis (≤ 500 code units), exams and prescriptions (≤ 1000 code units) are non-blank and within bounds; at most seven failures |
| MedicalHistoryValidation.DiagnosisLimit | src/FinX.Application/Validators/MedicalHistory/CreateMedicalHistoryDtoValidator.cs:14-18 | a diagnosis of 500 code units passes the length rule, and one of 501 fails it |
| ExternalExamValidation.DateFailures | src/FinX.Application/Validators/ExternalExams/CreateExternalExamDtoValidator.cs:20-24 | an exam date passes exactly when it is non-default and not after now |
| ExternalExamValidation.ValidateCreate | src/FinX.Application/Validators/ExternalExams/CreateExternalExamDtoValidator.cs:8-37 | reports nothing exactly when every exam rule holds |
| ExternalExamValidation.ExamDateBoundary | src/FinX.Application/Validators/ExternalExams/CreateExternalExamDtoValidator.cs:20-24 | an exam dated exactly now passes, and any later instant fails with the future-date message |
| Entities.Patient.constructor | src/FinX.Domain/Entities/Patient.cs:27-52 | a new patient has the given id, the nine arguments verbatim, CreatedAt now, no UpdatedAt and empty collections |
| Entities.Patient.FromRow | src/FinX.Domain/Entities/Patient.cs:25 | an entity materialised from the store holds exactly the stored row |
| Entities.Patient.Update | src/FinX.Domain/Entities/Patient.cs:54-75 | overwrites all nine data fields, including the CPF, and stamps UpdatedAt; Id, CreatedAt and the collections stay unchanged |
| Entities.Patient.SetPersonalData | src/FinX.Domain/Entities/Patient.cs:65-69 | the first five assignments of Update change those five fields only |
| Entities.Patient.SetContactData | src/FinX.Domain/Entities/Patient.cs:70-74 | the remaining assignments change e-mail, phone, address and history and stamp UpdatedAt only |
| Entities.Appointment.Blank | src/FinX.Domain/Entities/Appointment.cs:13-61 | an appointment built without arguments has Duration 30 and Status "Scheduled" |
| Entities.Appointment.constructor | src/FinX.Domain/Entities/Appointment.cs:63-78 | a new appointment copies its arguments, always starts "Scheduled", is stamped now and has no UpdatedAt |
| Entities.Appointment.FromRow | src/FinX.Domain/Entities/Appointment.cs:61 | an entity materialised from the store holds exactly the stored row |
| Entities.Appointment.Update | src/FinX.Domain/Entities/Appointment.cs:80-93 | replaces date, duration, any status string, type and notes and stamps UpdatedAt; Id, PatientId and CreatedAt stay unchanged |
| Entities.MedicalHistory.constructor | src/FinX.Domain/Entities/MedicalHistory.cs:18-26 | a new record copies patient, diagnosis, exams and prescriptions, is stamped now and has no UpdatedAt |
| Entities.MedicalHistory.FromRow | src/FinX.Domain/Entities/MedicalHistory.cs:16 | an entity materialised from the store holds exactly the stored row |
| Entities.MedicalHistory.Update | src/FinX.Domain/Entities/MedicalHistory.cs:28-34 | replaces the three text fields and stamps UpdatedAt; Id, PatientId and CreatedAt stay unchanged |
| Entities.ExternalExam.constructor | src/FinX.Domain/Entities/ExternalExam.cs:19-33 | a new exam copies patient, name, date, laboratory and result, is stamped now and has no UpdatedAt |
| Entities.ExternalExam.FromRow | src/FinX.Domain/Entities/ExternalExam.cs:17 | an entity materialised from the store holds exactly the stored row |
| Entities.ExternalExam.Update | src/FinX.Domain/Entities/ExternalExam.cs:35-46 | replaces name, date, laboratory and result and stamps UpdatedAt; Id, PatientId and CreatedAt stay unchanged |
| Queries.Where | src/FinX.Infrastructure/Data/Repositories/AppointmentRepository.cs:25-38 | LINQ `Where` keeps exactly the elements that satisfy the predicate, with their multiplicities |
| Queries.WhereStep | src/FinX.Infrastructure/Data/Repositories/AppointmentRepository.cs:25-38 | filtering decides the first element, then filters the rest |
| Queries.WhereConcat | src/FinX.Infrastructure/Data/Repositories/AppointmentRepository.cs:25-38 | filtering a concatenation concatenates the filtered parts, so order is kept |
| Queries.WhereAll | src/FinX.Infrastructure/Data/Repositories/PatientRepository.cs:24 | when every element satisfies the predicate, nothing is filtered out |
| Queries.WhereNone | src/FinX.Infrastructure/Data/Repositories/PatientRepository.cs:24-32 | when no element satisfies the predicate, the result is empty |
| Queries.InsertBy | src/FinX.Infrastructure/Data/Repositories/AppointmentRepository.cs:41 | inserting into a sorted sequence keeps it sorted and adds exactly that element |
| Queries.SortedCons | src/FinX.Infrastructure/Data/Repositories/AppointmentRepository.cs:41 | a key no greater than every later key can head a sorted sequence |
| Queries.SortBy | src/FinX.Infrastructure/Data/Repositories/AppointmentRepository.cs:41 | `OrderBy` returns a permutation of its input, ascending by the key |
| Queries.SortByDescending | src/FinX.Infrastructure/Data/Repositories/PatientRepository.cs:35 | `OrderByDescending` returns a permutation of its input, descending by the key |
| Queries.Select | src/FinX.Application/Services/AppointmentService.cs:45 | mapping a list keeps its length and maps each element in place |
| Queries.Page | src/FinX.Infrastructure/Data/Repositories/AppointmentRepository.cs:44-46 | `Skip((page-1)*pageSize).Take(pageSize)` is the run of at most pageSize elements starting at the offset, in order |
| Queries.PagePreservesOrder | src/FinX.Infrastructure/Data/Repositories/PatientRepository.cs:35-37 | a page of an ascending or descending sequence is ordered the same way |
| Queries.PageElements | src/FinX.Infrastructure/Data/Repositories/AppointmentRepository.cs:44-46 | every element of a page comes from the paged sequence |
| Queries.PagesAreConsecutive | src/FinX.Infrastructure/Data/Repositories/AppointmentRepository.cs:44-46 | page n followed by page n+1 is exactly the contiguous run covering both offsets |
| Queries.NothingInIsEmpty | src/FinX.Infrastructure/Data/Repositories/AppointmentRepository.cs:59-65 | a sequence with no members is empty |
| Tables.Keys | src/FinX.Infrastructure/Data/Repositories/AppointmentRepository.cs:92-95 | the key set holds exactly the ids of the stored rows |
| Tables.Find | src/FinX.Infrastructure/Data/Repositories/AppointmentRepository.cs:67-70 | `FindAsync` finds nothing exactly for an absent id, otherwise a stored row with that id |
| Tables.FindIsUnique | src/FinX.Infrastructure/Data/Repositories/AppointmentRepository.cs:67-70 | with unique keys, looking up a stored row's id finds that row |
| Tables.Replace | src/FinX.Infrastructure/Data/Repositories/AppointmentRepository.cs:79-84 | an update replaces the row with the same id and no other |
| Tables.Remove | src/FinX.Infrastructure/Data/Repositories/AppointmentRepository.cs:86-90 | a removal keeps exactly the rows with another id |
| Tables.InsertFresh | src/FinX.Infrastructure/Data/Repositories/AppointmentRepository.cs:72-77 | adding a row with a fresh id keeps ids unique and adds exactly that id |
| Tables.ReplaceExisting | src/FinX.Infrastructure/Data/Repositories/AppointmentRepository.cs:79-84 | replacing a stored row keeps ids unique and the key set unchanged; the new row is present and every other row is kept |
| Tables.RemoveExisting | src/FinX.Infrastructure/Data/Repositories/AppointmentRepository.cs:86-90 | removing an id keeps ids unique, drops exactly that id, removes exactly one row when present and changes nothing when absent |
| Tables.RemoveKeepsUnique | src/FinX.Infrastructure/Data/Repositories/AppointmentRepository.cs:86-90 | removal keeps ids unique |
| Tables.RemoveCount | src/FinX.Infrastructure/Data/Repositories/AppointmentRepository.cs:86-90 | removing a present id removes one row; an absent id changes nothing |
| Tables.HeadKeyNotInTail | src/FinX.Infrastructure/Data/Repositories/AppointmentRepository.cs:92-95 | with unique keys, the first row's id occurs nowhere later |
| Tables.UniqueTail | src/FinX.Infrastructure/Data/Repositories/AppointmentRepository.cs:92-95 | the rows after the first still have unique ids |
| Tables.InsertFreshFront | src/FinX.Infrastructure/Data/Repositories/AppointmentRepository.cs:72-77 | a fresh id in front keeps ids unique and adds exactly that id |
| Repositories.FilteredAppointments | src/FinX.Infrastructure/Data/Repositories/AppointmentRepository.cs:22-41 | exactly the appointments of the optional patient within the inclusive optional bounds, with their multiplicities, ascending by date |
| Repositories.AppointmentFilter | src/FinX.Infrastructure/Data/Repositories/AppointmentRepository.cs:25-38 | an appointment passes when it belongs to the given patient and its date is at or after the start and at or before the end, each filter applying only when given (a definition) |
| Repositories.GetAllAppointments | src/FinX.Infrastructure/Data/Repositories/AppointmentRepository.cs:20-49 | every listed appointment is stored and matches the filters; the list ascends by date, has at most pageSize entries and is that page of the filtered, ordered set |
| Repositories.AppointmentsOfPatient | src/FinX.Infrastructure/Data/Repositories/AppointmentRepository.cs:51-57 | exactly that patient's appointments, ascending by date |
| Repositories.AppointmentsBetween | src/FinX.Infrastructure/Data/Repositories/AppointmentRepository.cs:59-65 | exactly the appointments with start ≤ date ≤ end, ascending; empty when start is after end |
| Repositories.MatchingPatients | src/FinX.Infrastructure/Data/Repositories/PatientRepository.cs:22-35 | exactly the patients matching the search, with their multiplicities, newest first |
| Repositories.GetAllPatients | src/FinX.Infrastructure/Data/Repositories/PatientRepository.cs:20-39 | every listed patient matches; the page is newest first, is that page of the matches and has min(pageSize, max(0, count − offset)) entries |
| Repositories.PatientCount | src/FinX.Infrastructure/Data/Repositories/PatientRepository.cs:71-86 | the total count uses the listing's own predicate and, for a blank term, counts every patient |
| Repositories.LowerKeepsBlankness | src/FinX.Infrastructure/Data/Repositories/PatientRepository.cs:24-26 | lower-casing does not change whether a term is blank |
| Repositories.SearchIsCaseInsensitive | src/FinX.Infrastructure/Data/Repositories/PatientRepository.cs:24-32 | two terms with the same lower-case form select the same patients |
| Repositories.MatchesSearch | src/FinX.Infrastructure/Data/Repositories/PatientRepository.cs:24-31 | a blank or null term matches every patient; otherwise the lower-cased term occurs in the lower-cased first name, last name or e-mail, or in the phone number as stored (a definition) |
| Repositories.UpperAndLowerTermsAgree | src/FinX.Infrastructure/Data/Repositories/PatientRepository.cs:26-30 | "JOHN" and "john" select the same patients |
| Repositories.HistoriesOfPatient | src/FinX.Infrastructure/Data/Repositories/MedicalHistoryRepository.cs:20-26 | every record of the patient and no other, unpaged, newest first by CreatedAt |
| Repositories.ExamsOfPatient | src/FinX.Infrastructure/Data/Repositories/ExternalExamRepository.cs:20-26 | every exam of the patient and no other, unpaged, latest exam date first |
| Repositories.AppointmentRepository.constructor | src/FinX.Infrastructure/Data/Repositories/AppointmentRepository.cs:14-18 | an empty table with unique ids |
| Repositories.AppointmentRepository.GetById | src/FinX.Infrastructure/Data/Repositories/AppointmentRepository.cs:67-70 | null exactly for an absent id, otherwise a fresh entity holding the stored row |
| Repositories.AppointmentRepository.Exists | src/FinX.Infrastructure/Data/Repositories/AppointmentRepository.cs:92-95 | true exactly when some appointment has the id |
| Repositories.AppointmentRepository.Create | src/FinX.Infrastructure/Data/Repositories/AppointmentRepository.cs:72-77 | appends exactly the new row; its id now exists and ids stay unique |
| Repositories.AppointmentRepository.Update | src/FinX.Infrastructure/Data/Repositories/AppointmentRepository.cs:79-84 | replaces the row with that id, keeps every other row and the id set |
| Repositories.AppointmentRepository.Delete | src/FinX.Infrastructure/Data/Repositories/AppointmentRepository.cs:86-90 | removes exactly that row; the id no longer exists and every other row is kept |
| Repositories.PatientRepository.constructor | src/FinX.Infrastructure/Data/Repositories/PatientRepository.cs:14-18 | an empty table with unique ids |
| Repositories.PatientRepository.GetById | src/FinX.Infrastructure/Data/Repositories/PatientRepository.cs:41-44 | null exactly for an absent id, otherwise a fresh entity holding the stored row |
| Repositories.PatientRepository.Exists | src/FinX.Infrastructure/Data/Repositories/PatientRepository.cs:66-69 | true exactly when some patient has the id |
| Repositories.PatientRepository.Create | src/FinX.Infrastructure/Data/Repositories/PatientRepository.cs:46-51 | adds exactly one patient, whose id now exists |
| Repositories.PatientRepository.Update | src/FinX.Infrastructure/Data/Repositories/PatientRepository.cs:53-58 | replaces the row with that id, keeps every other row and the id set |
| Repositories.PatientRepository.Delete | src/FinX.Infrastructure/Data/Repositories/PatientRepository.cs:60-64 | removes exactly one patient, and no other |
| Repositories.MedicalHistoryRepository.constructor | src/FinX.Infrastructure/Data/Repositories/MedicalHistoryRepository.cs:14-18 | an empty table with unique ids |
| Repositories.MedicalHistoryRepository.GetById | src/FinX.Infrastructure/Data/Repositories/MedicalHistoryRepository.cs:28-31 | null exactly for an absent id, otherwise a fresh entity holding the stored row |
| Repositories.MedicalHistoryRepository.Exists | src/FinX.Infrastructure/Data/Repositories/MedicalHistoryRepository.cs:53-56 | true exactly when some record has the id |
| Repositories.MedicalHistoryRepository.Create | src/FinX.Infrastructure/Data/Repositories/MedicalHistoryRepository.cs:33-38 | appends exactly the new record, whose id now exists |
| Repositories.MedicalHistoryRepository.Update | src/FinX.Infrastructure/Data/Repositories/MedicalHistoryRepository.cs:40-45 | replaces the record with that id, keeps every other record and the id set |
| Repositories.MedicalHistoryRepository.Delete | src/FinX.Infrastructure/Data/Repositories/MedicalHistoryRepository.cs:47-51 | removes only that record |
| Repositories.ExternalExamRepository.constructor | src/FinX.Infrastructure/Data/Repositories/ExternalExamRepository.cs:14-18 | an empty table with unique ids |
| Repositories.ExternalExamRepository.GetById | src/FinX.Infrastructure/Data/Repositories/ExternalExamRepository.cs:28-31 | null exactly for an absent id, otherwise a fresh entity holding the stored row |
| Repositories.ExternalExamRepository.Exists | src/FinX.Infrastructure/Data/Repositories/ExternalExamRepository.cs:53-56 | true exactly when some exam has the id |
| Repositories.ExternalExamRepository.Create | src/FinX.Infrastructure/Data/Repositories/ExternalExamRepository.cs:33-38 | adds exactly one exam, whose id now exists |
| Repositories.ExternalExamRepository.Update | src/FinX.Infrastructure/Data/Repositories/ExternalExamRepository.cs:40-45 | replaces the exam with that id, keeps every other exam and the id set |
| Repositories.ExternalExamRepository.Delete | src/FinX.Infrastructure/Data/Repositories/ExternalExamRepository.cs:47-51 | removes exactly one exam, leaving the rest unchanged |
| Mappings.PatientToDto | src/FinX.Application/Mappings/PatientProfile.cs:11 | the response carries every stored patient field, so the row is recovered from it |
| Mappings.AppointmentToDto | src/FinX.Application/Mappings/AppointmentProfile.cs:12-18 | the response carries every stored appointment field, so the row is recovered from it |
| Mappings.ExternalExamToDto | src/FinX.Application/Mappings/ExternalExamProfile.cs:11 | the response carries every stored exam field, so the row is recovered from it |
| Mappings.MedicalHistoryToDto | src/FinX.Application/Mappings/MedicalHistoryProfile.cs:11 | the response copies id, patient and time stamps; Type and Description keep their empty defaults because the entity has no such members |
| Mappings.HistoryResponseOmitsClinicalText | src/FinX.Application/DTOs/MedicalHistory/MedicalHistoryDto.cs:8-28 | the history response does not depend on diagnosis, exams or prescriptions |
| AppointmentServices.AppointmentService.constructor | src/FinX.Application/Services/AppointmentService.cs:20-31 | the service works on the given repositories |
| AppointmentServices.AppointmentService.GetAll | src/FinX.Application/Services/AppointmentService.cs:33-52 | forwards page, size, patient and both bounds unchanged, and maps the repository's page; every entry is stored and matches the filters |
| AppointmentServices.AppointmentService.GetByPatientId | src/FinX.Application/Services/AppointmentService.cs:54-73 | null exactly when the patient does not exist, otherwise that patient's appointments by date |
| AppointmentServices.AppointmentService.GetByDateRange | src/FinX.Application/Services/AppointmentService.cs:75-93 | an invalid-range error exactly when start is after end; otherwise the appointments within the inclusive range |
| AppointmentServices.AppointmentService.GetById | src/FinX.Application/Services/AppointmentService.cs:95-113 | null exactly for an absent id, otherwise the stored appointment |
| AppointmentServices.AppointmentService.Create | src/FinX.Application/Services/AppointmentService.cs:115-141 | a missing patient is an error and nothing is stored; otherwise exactly one "Scheduled" appointment with the request's fields is appended |
| AppointmentServices.AppointmentService.Update | src/FinX.Application/Services/AppointmentService.cs:143-176 | an unknown id gives null first; then a missing patient is an error; otherwise only the five data fields and UpdatedAt change, and the stored PatientId is kept |
| AppointmentServices.AppointmentService.Delete | src/FinX.Application/Services/AppointmentService.cs:178-197 | true exactly when the id existed, and then that appointment is removed; false changes nothing, so a second delete is false |
| PatientServices.NewPatientRow | src/FinX.Application/Services/PatientService.cs:69-81 | a new patient row carries the id, the request's nine fields, CreatedAt now and no UpdatedAt |
| PatientServices.PatientService.constructor | src/FinX.Application/Services/PatientService.cs:19-27 | the service works on the given repository |
| PatientServices.PatientService.GetAll | src/FinX.Application/Services/PatientService.cs:29-43 | returns the search page and the total count under the same term; the page length follows from the count |
| PatientServices.PatientService.GetById | src/FinX.Application/Services/PatientService.cs:45-63 | null exactly for an absent id, otherwise the stored patient |
| PatientServices.PatientService.Create | src/FinX.Application/Services/PatientService.cs:65-88 | always appends one new patient built from the request, with no existence or CPF check |
| PatientServices.PatientService.Update | src/FinX.Application/Services/PatientService.cs:90-120 | null with no change for an absent id; otherwise all nine fields are overwritten and Id and CreatedAt are kept |
| PatientServices.PatientService.Delete | src/FinX.Application/Services/PatientService.cs:122-140 | removes the patient when present and silently changes nothing otherwise |
| MedicalHistoryServices.MedicalHistoryService.constructor | src/FinX.Application/Services/MedicalHistoryService.cs:20-30 | the service works on the given repositories |
| MedicalHistoryServices.MedicalHistoryService.GetByPatientId | src/FinX.Application/Services/MedicalHistoryService.cs:32-51 | null exactly when the patient is missing, otherwise the repository's list for the patient |
| MedicalHistoryServices.MedicalHistoryService.GetById | src/FinX.Application/Services/MedicalHistoryService.cs:53-71 | null exactly for an absent id, otherwise the mapping of a stored record with that id |
| MedicalHistoryServices.MedicalHistoryService.Create | src/FinX.Application/Services/MedicalHistoryService.cs:73-98 | null without storing exactly when the patient is missing; otherwise one record with the request's three texts is appended |
| MedicalHistoryServices.MedicalHistoryService.Update | src/FinX.Application/Services/MedicalHistoryService.cs:100-124 | null with no change for an unknown id; otherwise only the three texts and UpdatedAt change |
| MedicalHistoryServices.MedicalHistoryService.Delete | src/FinX.Application/Services/MedicalHistoryService.cs:126-144 | removes the record when present, a silent no-op otherwise |
| ExternalExamServices.ExternalExamService.constructor | src/FinX.Application/Services/ExternalExamService.cs:20-30 | the service works on the given repositories |
| ExternalExamServices.ExternalExamService.GetByPatientId | src/FinX.Application/Services/ExternalExamService.cs:32-51 | null exactly when the patient is missing, otherwise the repository's list, every entry the patient's |
| ExternalExamServices.ExternalExamService.GetById | src/FinX.Application/Services/ExternalExamService.cs:53-71 | null exactly for an absent id, otherwise the stored exam |
| ExternalExamServices.ExternalExamService.Create | src/FinX.Application/Services/ExternalExamService.cs:73-99 | null without storing exactly when the patient is missing; otherwise one exam built from the request is appended |
| ExternalExamServices.ExternalExamService.Update | src/FinX.Application/Services/ExternalExamService.cs:101-126 | null with no change for an unknown id; otherwise only name, date, laboratory, result and UpdatedAt change |
| ExternalExamServices.ExternalExamService.Delete | src/FinX.Application/Services/ExternalExamService.cs:128-146 | removes exactly that exam when present, a silent no-op otherwise |
| MockExams.DaysAgo | src/FinX.Infrastructure/Services/MockExternalExamService.cs:100 | `now.AddDays(-n)` lies exactly n days before now |
| MockExams.MockExamList | src/FinX.Infrastructure/Services/MockExternalExamService.cs:88-146 | five canned exams with distinct ids, all belonging to the two fixed patients, dated in the past, created at their exam date and never updated |
| MockExams.MockExamOwners | src/FinX.Infrastructure/Services/MockExternalExamService.cs:88-146 | the first three exams belong to the first patient, the last two to the second |
| MockExams.MockGetByPatientId | src/FinX.Infrastructure/Services/MockExternalExamService.cs:22-27 | exactly the listed exams of that patient |
| MockExams.SplitByOwner | src/FinX.Infrastructure/Services/MockExternalExamService.cs:25 | for a list split into two owners, each owner's query returns its own run in list order and anyone else's is empty |
| MockExams.MockExamsByPatient | src/FinX.Infrastructure/Services/MockExternalExamService.cs:22-27 | the first patient gets the first three exams, the second the last two, in list order; any other patient gets none |
| MockExams.MockGetById | src/FinX.Infrastructure/Services/MockExternalExamService.cs:29-34 | nothing exactly when no exam has the id, otherwise the first exam with it |
| MockExams.MockExamsFoundById | src/FinX.Infrastructure/Services/MockExternalExamService.cs:29-34 | each canned exam is found by its own id |
| MockExams.MockCreate | src/FinX.Infrastructure/Services/MockExternalExamService.cs:36-53 | echoes the request with a fresh id, CreatedAt now and no UpdatedAt |
| MockExams.MockUpdate | src/FinX.Infrastructure/Services/MockExternalExamService.cs:55-79 | nothing for an unknown id; otherwise the found exam's id, patient and CreatedAt with the request's four fields and UpdatedAt now |
| MockExams.CreatedExamIsNotStored | src/FinX.Infrastructure/Services/MockExternalExamService.cs:36-79 | an exam the mock has just created is found neither by a lookup nor by an update |

## Left out

- Controllers, dependency injection, authentication and logging. The try/catch blocks of the services only log and rethrow, so they add no behaviour.
- The async `Task` wrappers. Each operation is modelled as one synchronous step.
- The real clock and `Guid.NewGuid()`. They become the parameters `now`, `today` and `newId`.
  - The model takes one `now` per call. The C# reads the clock separately in the entity and in the validator.
- `DateTime` has no upper bound here. `DateTime.MaxValue` and the overflow of `AddYears`/`AddDays` near it are not modelled.
- The mock's constructor reads the clock to date its canned exams 15 to 45 days back. `MockExams.MockExamList` requires `now` to be at least 45 days after `DateTime.MinValue`, where the C# would throw.
- The `EmailAddress()` validator is a parameter `isEmail`. FluentValidation's implementation is not part of this model.
- A model string is a sequence of Unicode scalar values, encoded to UTF-16 by `Common.Utf16`. A .NET string holding an unpaired surrogate has no such form and is not modelled.
- The `^\d+$` pattern is "one or more ASCII digits, optionally followed by one line feed". .NET's `\d` also matches other Unicode decimal digits, and those are not modelled.
- `ToLower()` in the patient search maps ASCII letters only. Culture-specific and non-ASCII case mapping are not modelled.
- Sort ties are kept in input order (a stable sort). The SQL the repositories run leaves tie order unspecified.
- Queries.PageArguments: page ≥ 1 and pageSize ≥ 0 are required because the callers never validate them.
  - The offset `(page - 1) * pageSize` is also required to fit in an `int`.
  - Negative values and 32-bit overflow of the offset are not modelled.
- The database's unique CPF index, column caps and cascade deletes are not part of this model. They are EF configuration, not code.
- The repositories' Update and Delete require the id to be present, and Create requires it to be fresh. EF raises a concurrency or key error otherwise, and those errors are not modelled.
- Entity tracking is not modelled. A fetched entity is a fresh object holding a copy of the stored row, so aliasing between tracked entities and the identity map is not captured.
- The `.Include(a => a.Patient)` of the appointment queries is left out. So is the `Patient` projection of `AppointmentProfile.cs:13-18`: `AppointmentDto` omits the nested patient.
- The navigation collections of the entities are modelled only as the empty lists a new patient starts with.
- Private setters are Dafny fields that only `Update` assigns. The C# protection level itself is not modelled.
- `CreatePatientDtoValidator` and `CreatePatientDto` are not part of this model. `PatientService.Create` takes the nine patient fields of `UpdatePatientDto`.
- MockExternalExamService.DeleteAsync returns without doing anything. The canned list is an immutable value, so nothing needs modelling.
- src/FinX.Infrastructure/Services/ExternalExamService.cs is not part of this model: HTTP client, retry policy and JSON.

## Findings

| source | as written | input that shows it | evidently intended | confidence | as-written member | corrected member |
|---|---|---|---|---|---|---|
| src/FinX.Application/Validators/Patient/UpdatePatientDtoValidator.cs:21-25 | The CPF chain runs `Must(BeAValidCpf)` even after `Matches(@"^\d+$")` has failed, because the default cascade continues. `BeAValidCpf` then calls `int.Parse` on a letter, and the FormatException escapes the validator. | the CPF "invalid_cpf" (eleven characters) | a CPF that is not all digits is reported as a validation failure ("CPF must contain only digits", "CPF is invalid") and nothing is raised | not executed | PatientValidation.ValidateAsWritten, PatientValidation.InvalidCpfRequestRaises, CpfCheck.NonDigitCpfRaises | CpfCheck.IsValidCpf, PatientValidation.Validate, PatientValidation.InvalidCpfReported |
