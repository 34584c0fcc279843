/** The validator of the external-exam create request (its messages are in Portuguese). */
module ExternalExamValidation {
  import opened Common
  import opened Rules
  import opened Dtos

  const DateInFuture: string := "A data do exame n\U{E3}o pode ser no futuro"

  /** `NotEmpty().LessThanOrEqualTo(now)`: an exam date may equal the instant the validator was built. */
  function DateFailures(d: DateTime, now: DateTime): (r: seq<Failure>)
    ensures r == [] <==> 0 < d <= now
  {
    Rule(NotEmptyDate(d), "Date", "A data do exame \U{E9} obrigat\U{F3}ria")
    + Rule(d <= now, "Date", DateInFuture)
  }

  predicate CreateExternalExamValid(dto: CreateExternalExamDto, now: DateTime)
  {
    && dto.patientId != EmptyGuid
    && dto.name.Some? && NotEmptyText(dto.name) && Utf16Length(dto.name.value) <= 100
    && 0 < dto.date <= now
    && dto.laboratory.Some? && NotEmptyText(dto.laboratory) && Utf16Length(dto.laboratory.value) <= 100
    && dto.result.Some? && NotEmptyText(dto.result) && Utf16Length(dto.result.value) <= 1000
  }

  /** `CreateExternalExamDtoValidator`, with `now` the instant it was built. */
  function ValidateCreate(dto: CreateExternalExamDto, now: DateTime): (r: seq<Failure>)
    ensures r == [] <==> CreateExternalExamValid(dto, now)
  {
    Rule(NotEmptyGuid(dto.patientId), "PatientId", "O ID do paciente \U{E9} obrigat\U{F3}rio")
    + RequiredText(dto.name, "Name", "O nome do exame \U{E9} obrigat\U{F3}rio",
                   100, "O nome do exame n\U{E3}o pode exceder 100 caracteres")
    + DateFailures(dto.date, now)
    + RequiredText(dto.laboratory, "Laboratory", "O laborat\U{F3}rio \U{E9} obrigat\U{F3}rio",
                   100, "O nome do laborat\U{F3}rio n\U{E3}o pode exceder 100 caracteres")
    + RequiredText(dto.result, "Result", "O resultado do exame \U{E9} obrigat\U{F3}rio",
                   1000, "O resultado do exame n\U{E3}o pode exceder 1000 caracteres")
  }

  /** The bound is inclusive: `now` itself passes, any later instant fails. */
  lemma ExamDateBoundary(now: DateTime, later: DateTime)
    requires now != DefaultDateTime && later > now
    ensures DateFailures(now, now) == []
    ensures DateFailures(later, now) == [Failure("Date", DateInFuture)]
  {
  }
}
