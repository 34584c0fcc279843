/**
 * The validators of the appointment create and update requests. They share
 * the patient, duration, type and notes chains; the update request drops the
 * "in the future" test and adds the status enumeration.
 */
module AppointmentValidation {
  import opened Common
  import opened Rules
  import opened Dtos

  const MaxDuration: int := 480

  /** The five statuses the update validator admits, compared case-sensitively. */
  const AllowedStatuses: set<string> := {"Scheduled", "Confirmed", "Completed", "Cancelled", "No-Show"}

  const StatusMessage: string := "Status must be one of: Scheduled, Confirmed, Completed, Cancelled, No-Show"

  /** `RuleFor(PatientId).NotEmpty()`. */
  function PatientIdFailures(id: Guid): (r: seq<Failure>)
    ensures r == [] <==> id != EmptyGuid
  {
    Rule(NotEmptyGuid(id), "PatientId", "Patient ID is required")
  }

  /** On create, `NotEmpty().GreaterThan(now)`: the default instant can never pass. */
  function FutureDateFailures(d: DateTime, now: DateTime): (r: seq<Failure>)
    ensures r == [] <==> d > now
  {
    Rule(NotEmptyDate(d), "AppointmentDate", "Appointment date is required")
    + Rule(d > now, "AppointmentDate", "Appointment date must be in the future")
  }

  /** On update, only `NotEmpty()`: any instant but the default passes, past ones included. */
  function DateFailures(d: DateTime): (r: seq<Failure>)
    ensures r == [] <==> d != DefaultDateTime
  {
    Rule(NotEmptyDate(d), "AppointmentDate", "Appointment date is required")
  }

  /** `NotEmpty().GreaterThan(0).LessThanOrEqualTo(480)`. */
  function DurationFailures(d: int): (r: seq<Failure>)
    ensures r == [] <==> 1 <= d <= MaxDuration
    ensures d == 0 ==> |r| == 2
  {
    Rule(NotEmptyInt(d), "Duration", "Duration is required")
    + Rule(d > 0, "Duration", "Duration must be greater than 0")
    + Rule(d <= MaxDuration, "Duration", "Duration cannot exceed 8 hours (480 minutes)")
  }

  function TypeFailures(t: Text): (r: seq<Failure>)
    ensures r == [] <==> t.Some? && NotEmptyText(t) && Utf16Length(t.value) <= 100
  {
    RequiredText(t, "Type", "Appointment type is required", 100, "Appointment type cannot exceed 100 characters")
  }

  /** Notes are optional: null and "" pass. */
  function NotesFailures(t: Text): (r: seq<Failure>)
    ensures r == [] <==> t.None? || Utf16Length(t.value) <= 1000
  {
    Rule(MaximumLength(t, 1000), "Notes", "Notes cannot exceed 1000 characters")
  }

  /**
   * `NotEmpty().MaximumLength(50).Must(one of the five)`: the enumeration alone
   * decides, because every admitted status is non-blank and short.
   */
  function StatusFailures(t: Text): (r: seq<Failure>)
    ensures r == [] <==> t.Some? && t.value in AllowedStatuses
  {
    AllowedStatusesAreWellFormed(t);
    Rule(NotEmptyText(t), "Status", "Status is required")
    + Rule(MaximumLength(t, 50), "Status", "Status cannot exceed 50 characters")
    + Rule(t.Some? && t.value in AllowedStatuses, "Status", StatusMessage)
  }

  /** Every admitted status passes `NotEmpty()` and `MaximumLength(50)`. */
  lemma AllowedStatusesAreWellFormed(t: Text)
    ensures t.Some? && t.value in AllowedStatuses ==> NotEmptyText(t) && Utf16Length(t.value) <= 50
  {
    if t.Some? && t.value in AllowedStatuses {
      assert t.value[0] in {'S', 'C', 'N'};
      assert !IsWhiteSpace(t.value[0]);
      Utf16LengthBounds(t.value);
    }
  }

  predicate CreateAppointmentValid(dto: CreateAppointmentDto, now: DateTime)
  {
    && dto.patientId != EmptyGuid
    && dto.appointmentDate > now
    && 1 <= dto.duration <= MaxDuration
    && dto.appointmentType.Some? && NotEmptyText(dto.appointmentType) && Utf16Length(dto.appointmentType.value) <= 100
    && (dto.notes.None? || Utf16Length(dto.notes.value) <= 1000)
  }

  /** `CreateAppointmentDtoValidator`, with `now` the instant it was built. */
  function ValidateCreate(dto: CreateAppointmentDto, now: DateTime): (r: seq<Failure>)
    ensures r == [] <==> CreateAppointmentValid(dto, now)
  {
    PatientIdFailures(dto.patientId)
    + FutureDateFailures(dto.appointmentDate, now)
    + DurationFailures(dto.duration)
    + TypeFailures(dto.appointmentType)
    + NotesFailures(dto.notes)
  }

  predicate UpdateAppointmentValid(dto: UpdateAppointmentDto)
  {
    && dto.patientId != EmptyGuid
    && dto.appointmentDate != DefaultDateTime
    && 1 <= dto.duration <= MaxDuration
    && dto.status.Some? && dto.status.value in AllowedStatuses
    && dto.appointmentType.Some? && NotEmptyText(dto.appointmentType) && Utf16Length(dto.appointmentType.value) <= 100
    && (dto.notes.None? || Utf16Length(dto.notes.value) <= 1000)
  }

  /** `UpdateAppointmentDtoValidator`; it does not look at the clock. */
  function ValidateUpdate(dto: UpdateAppointmentDto): (r: seq<Failure>)
    ensures r == [] <==> UpdateAppointmentValid(dto)
  {
    PatientIdFailures(dto.patientId)
    + DateFailures(dto.appointmentDate)
    + DurationFailures(dto.duration)
    + StatusFailures(dto.status)
    + TypeFailures(dto.appointmentType)
    + NotesFailures(dto.notes)
  }

  /** An appointment at exactly `now` is not in the future. */
  lemma DateEqualToNowRejected(now: DateTime)
    ensures Failure("AppointmentDate", "Appointment date must be in the future") in FutureDateFailures(now, now)
    ensures now != DefaultDateTime ==> |FutureDateFailures(now, now)| == 1
  {
  }

  /** 0 and 481 minutes are rejected; 0 with two failures. */
  lemma DurationBounds()
    ensures DurationFailures(0) == [Failure("Duration", "Duration is required"), Failure("Duration", "Duration must be greater than 0")]
    ensures DurationFailures(481) == [Failure("Duration", "Duration cannot exceed 8 hours (480 minutes)")]
    ensures DurationFailures(1) == [] && DurationFailures(480) == []
  {
  }

  /** The comparison is exact: another status or another capitalisation fails. */
  lemma StatusIsCaseSensitive()
    ensures StatusFailures(Some("Rescheduled")) == [Failure("Status", StatusMessage)]
    ensures StatusFailures(Some("scheduled")) == [Failure("Status", StatusMessage)]
    ensures StatusFailures(Some("No-Show")) == []
  {
    UnlistedStatuses();
    Utf16LengthBounds("Rescheduled");
    Utf16LengthBounds("scheduled");
    UnknownStatusFails(Some("Rescheduled"));
    UnknownStatusFails(Some("scheduled"));
  }

  /** A status that differs from every admitted one, if only in case. */
  lemma UnlistedStatuses()
    ensures "Rescheduled" !in AllowedStatuses && "scheduled" !in AllowedStatuses
    ensures NotEmptyText(Some("Rescheduled")) && NotEmptyText(Some("scheduled"))
  {
    assert "Rescheduled"[0] == 'R';
    assert "scheduled"[0] == 's';
    assert !IsWhiteSpace("Rescheduled"[0]) && !IsWhiteSpace("scheduled"[0]);
  }

  /** A present, non-blank, short status outside the enumeration fails the enumeration rule only. */
  lemma UnknownStatusFails(t: Text)
    requires t.Some? && NotEmptyText(t) && Utf16Length(t.value) <= 50 && t.value !in AllowedStatuses
    ensures StatusFailures(t) == [Failure("Status", StatusMessage)]
  {
  }

  /**
   * A request the update validator accepts with a date that is not in the
   * future would be refused by the create validator on that date alone.
   */
  lemma UpdateAcceptsPastDates(dto: UpdateAppointmentDto, now: DateTime)
    requires UpdateAppointmentValid(dto) && dto.appointmentDate <= now
    ensures ValidateUpdate(dto) == []
    ensures var c := CreateAppointmentDto(dto.patientId, dto.appointmentDate, dto.duration, dto.appointmentType, dto.notes);
      ValidateCreate(c, now) == [Failure("AppointmentDate", "Appointment date must be in the future")]
  {
    var c := CreateAppointmentDto(dto.patientId, dto.appointmentDate, dto.duration, dto.appointmentType, dto.notes);
    assert PatientIdFailures(c.patientId) == [];
    assert DurationFailures(c.duration) == [];
    assert TypeFailures(c.appointmentType) == [];
    assert NotesFailures(c.notes) == [];
  }
}
