/**
 * The appointment use cases. Each operation loads from the repositories,
 * checks what it needs and writes back. A missing patient is an error on
 * create and update, a missing appointment is `null` on get and update and
 * `false` on delete, and a date range whose start is after its end is an
 * error raised before the store is queried.
 */
module AppointmentServices {
  import opened Common
  import opened Queries
  import opened Tables
  import opened Entities
  import opened Dtos
  import opened Mappings
  import opened Repositories

  /** The `ArgumentException`s the service raises. */
  datatype AppointmentError = PatientNotFound(patientId: Guid) | InvalidDateRange

  class AppointmentService {
    const appointments: AppointmentRepository
    const patients: PatientRepository

    constructor (appointments: AppointmentRepository, patients: PatientRepository)
      ensures this.appointments == appointments && this.patients == patients
    {
      this.appointments := appointments;
      this.patients := patients;
    }

    /** The page of the repository listing for exactly the arguments given. */
    method GetAll(page: int, pageSize: int, patientId: Option<Guid>, fromDate: Option<DateTime>, toDate: Option<DateTime>)
      returns (r: seq<AppointmentDto>)
      requires PageArguments(page, pageSize)
      ensures r == Select(GetAllAppointments(appointments.rows, page, pageSize, patientId, fromDate, toDate), AppointmentToDto)
      ensures |r| <= pageSize
      ensures forall i :: 0 <= i < |r| ==> AppointmentRowOf(r[i]) in appointments.rows
      ensures forall i :: 0 <= i < |r| ==> AppointmentFilter(AppointmentRowOf(r[i]), patientId, fromDate, toDate)
    {
      var rows := GetAllAppointments(appointments.rows, page, pageSize, patientId, fromDate, toDate);
      r := Select(rows, AppointmentToDto);
      assert forall i :: 0 <= i < |r| ==> AppointmentRowOf(r[i]) == rows[i];
    }

    /** `null` for an unknown patient; otherwise all of that patient's appointments. */
    method GetByPatientId(patientId: Guid) returns (r: Option<seq<AppointmentDto>>)
      ensures r.None? <==> patientId !in patients.Ids()
      ensures r.Some? ==> r.value == Select(AppointmentsOfPatient(appointments.rows, patientId), AppointmentToDto)
      ensures r.Some? ==> forall i :: 0 <= i < |r.value| ==> r.value[i].patientId == patientId
    {
      var patientExists := patients.Exists(patientId);
      if !patientExists {
        return None;
      }
      var rows := AppointmentsOfPatient(appointments.rows, patientId);
      r := Some(Select(rows, AppointmentToDto));
      assert forall i :: 0 <= i < |rows| ==> rows[i] in rows;
    }

    /** An error when `start > end`; otherwise the appointments inside the inclusive range. */
    method GetByDateRange(start: DateTime, end: DateTime) returns (r: Result<seq<AppointmentDto>, AppointmentError>)
      ensures r.Err? <==> start > end
      ensures r.Err? ==> r.error == InvalidDateRange
      ensures r.Ok? ==> r.value == Select(AppointmentsBetween(appointments.rows, start, end), AppointmentToDto)
      ensures r.Ok? ==> forall i :: 0 <= i < |r.value| ==> start <= r.value[i].appointmentDate <= end
    {
      if start > end {
        return Err(InvalidDateRange);
      }
      var rows := AppointmentsBetween(appointments.rows, start, end);
      r := Ok(Select(rows, AppointmentToDto));
      assert forall i :: 0 <= i < |rows| ==> rows[i] in rows;
    }

    method GetById(id: Guid) returns (r: Option<AppointmentDto>)
      ensures r.None? <==> id !in appointments.Ids()
      ensures r.Some? ==> r.value.id == id && AppointmentRowOf(r.value) in appointments.rows
    {
      var a := appointments.GetById(id);
      if a == null {
        return None;
      }
      r := Some(AppointmentToDto(a.Row()));
    }

    /**
     * An error, and nothing stored, when the patient is unknown; otherwise one
     * new "Scheduled" appointment with the request's fields, id `newId` and
     * creation instant `now`.
     */
    method Create(dto: CreateAppointmentDto, newId: Guid, now: DateTime) returns (r: Result<AppointmentDto, AppointmentError>)
      requires appointments.Valid() && newId !in appointments.Ids()
      modifies appointments
      ensures appointments.Valid()
      ensures dto.patientId !in patients.Ids() ==>
        r == Err(PatientNotFound(dto.patientId)) && appointments.rows == old(appointments.rows)
      ensures dto.patientId in patients.Ids() ==>
        var row := AppointmentRow(newId, dto.patientId, dto.appointmentDate, dto.duration, Some(InitialStatus),
                                  dto.appointmentType, dto.notes, now, None);
        appointments.rows == old(appointments.rows) + [row] && r == Ok(AppointmentToDto(row))
    {
      var patientExists := patients.Exists(dto.patientId);
      if !patientExists {
        return Err(PatientNotFound(dto.patientId));
      }
      var a := new Appointment(newId, now, dto.patientId, dto.appointmentDate, dto.duration, dto.appointmentType, dto.notes);
      var created := appointments.Create(a);
      r := Ok(AppointmentToDto(created.Row()));
    }

    /**
     * `null`, with nothing changed, for an unknown appointment (checked
     * first); an error, with nothing changed, for an unknown patient;
     * otherwise the stored appointment with date, duration, status, type and
     * notes from the request. The request's patient id is only checked: the
     * appointment keeps its own.
     */
    method Update(id: Guid, dto: UpdateAppointmentDto, now: DateTime) returns (r: Result<Option<AppointmentDto>, AppointmentError>)
      requires appointments.Valid()
      modifies appointments
      ensures appointments.Valid() && appointments.Ids() == old(appointments.Ids())
      ensures id !in old(appointments.Ids()) ==> r == Ok(None) && appointments.rows == old(appointments.rows)
      ensures id in old(appointments.Ids()) && dto.patientId !in patients.Ids() ==>
        r == Err(PatientNotFound(dto.patientId)) && appointments.rows == old(appointments.rows)
      ensures id in old(appointments.Ids()) && dto.patientId in patients.Ids() ==>
        var before := Find(old(appointments.rows), AppointmentKey, id).value;
        var after := before.(appointmentDate := dto.appointmentDate, duration := dto.duration, status := dto.status,
                             appointmentType := dto.appointmentType, notes := dto.notes, updatedAt := Some(now));
        appointments.rows == Replace(old(appointments.rows), AppointmentKey, after)
        && r == Ok(Some(AppointmentToDto(after)))
        && after.id == id && after.patientId == before.patientId && after.createdAt == before.createdAt
    {
      var a := appointments.GetById(id);
      if a == null {
        return Ok(None);
      }
      FindIsUnique(appointments.rows, AppointmentKey, a.Row());
      var patientExists := patients.Exists(dto.patientId);
      if !patientExists {
        return Err(PatientNotFound(dto.patientId));
      }
      a.Update(dto.appointmentDate, dto.duration, dto.status, dto.appointmentType, dto.notes, now);
      var updated := appointments.Update(a);
      r := Ok(Some(AppointmentToDto(updated.Row())));
    }

    /**
     * `false`, with nothing changed, for an unknown id; otherwise that one
     * appointment is removed and the answer is `true`. Afterwards the id is
     * gone, so deleting it again answers `false`.
     */
    method Delete(id: Guid) returns (deleted: bool)
      requires appointments.Valid()
      modifies appointments
      ensures appointments.Valid()
      ensures deleted <==> id in old(appointments.Ids())
      ensures appointments.rows == Remove(old(appointments.rows), AppointmentKey, id)
      ensures appointments.Ids() == old(appointments.Ids()) - {id}
      ensures !deleted ==> appointments.rows == old(appointments.rows)
    {
      var a := appointments.GetById(id);
      if a == null {
        RemoveExisting(appointments.rows, AppointmentKey, id);
        return false;
      }
      appointments.Delete(a);
      deleted := true;
    }
  }
}
