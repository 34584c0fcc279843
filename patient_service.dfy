/**
 * The patient use cases. Listing returns one page and the count of all
 * matches; create stores every request unconditionally; update and delete
 * of an unknown id answer `null` and do nothing.
 */
module PatientServices {
  import opened Common
  import opened Queries
  import opened Tables
  import opened Entities
  import opened Dtos
  import opened Mappings
  import opened Repositories

  /** The row a create request becomes: a fresh id, the nine fields, stamped `now`. */
  function NewPatientRow(id: Guid, fields: PatientFields, now: DateTime): (p: PatientRow)
    ensures PatientKey(p) == id && p.createdAt == now && p.updatedAt.None?
    ensures SameData(p, fields)
  {
    PatientRow(id, fields.firstName, fields.lastName, fields.cpf, fields.dateOfBirth, fields.gender,
               fields.email, fields.phoneNumber, fields.address, fields.medicalHistory, now, None)
  }

  /** The nine data columns of `p` are those of the request. */
  predicate SameData(p: PatientRow, fields: PatientFields)
  {
    && p.firstName == fields.firstName && p.lastName == fields.lastName && p.cpf == fields.cpf
    && p.dateOfBirth == fields.dateOfBirth && p.gender == fields.gender && p.email == fields.email
    && p.phoneNumber == fields.phoneNumber && p.address == fields.address
    && p.medicalHistory == fields.medicalHistory
  }

  class PatientService {
    const patients: PatientRepository

    constructor (patients: PatientRepository)
      ensures this.patients == patients
    {
      this.patients := patients;
    }

    /**
     * One page of the search and the number of all matches, both under the
     * same term, so the page length follows from the count.
     */
    method GetAll(page: int, pageSize: int, searchTerm: Text) returns (listed: seq<PatientDto>, totalCount: int)
      requires PageArguments(page, pageSize)
      ensures listed == Select(GetAllPatients(patients.rows, page, pageSize, searchTerm), PatientToDto)
      ensures totalCount == PatientCount(patients.rows, searchTerm)
      ensures |listed| == Min(pageSize, Max(0, totalCount - Offset(page, pageSize)))
      ensures forall i :: 0 <= i < |listed| ==> MatchesSearch(PatientRowOf(listed[i]), searchTerm)
    {
      var rows := GetAllPatients(patients.rows, page, pageSize, searchTerm);
      listed := Select(rows, PatientToDto);
      totalCount := PatientCount(patients.rows, searchTerm);
      assert forall i :: 0 <= i < |listed| ==> PatientRowOf(listed[i]) == rows[i] && rows[i] in rows;
    }

    method GetById(id: Guid) returns (r: Option<PatientDto>)
      ensures r.None? <==> id !in patients.Ids()
      ensures r.Some? ==> r.value.id == id && PatientRowOf(r.value) in patients.rows
    {
      var p := patients.GetById(id);
      if p == null {
        return None;
      }
      r := Some(PatientToDto(p.Row()));
    }

    /** Stores one new patient with the request's fields; nothing is checked (not even the CPF's uniqueness). */
    method Create(fields: PatientFields, newId: Guid, now: DateTime) returns (d: PatientDto)
      requires patients.Valid() && newId !in patients.Ids()
      modifies patients
      ensures patients.Valid() && patients.Ids() == old(patients.Ids()) + {newId}
      ensures patients.rows == old(patients.rows) + [NewPatientRow(newId, fields, now)]
      ensures d == PatientToDto(NewPatientRow(newId, fields, now))
    {
      var p := new Patient(newId, now, fields.firstName, fields.lastName, fields.cpf, fields.dateOfBirth,
                           fields.gender, fields.email, fields.phoneNumber, fields.address, fields.medicalHistory);
      var created := patients.Create(p);
      d := PatientToDto(created.Row());
    }

    /**
     * `null`, with nothing changed, for an unknown id; otherwise the stored
     * patient gets all nine fields from the request and keeps its id and
     * creation instant.
     */
    method Update(id: Guid, fields: PatientFields, now: DateTime) returns (r: Option<PatientDto>)
      requires patients.Valid()
      modifies patients
      ensures patients.Valid() && patients.Ids() == old(patients.Ids())
      ensures r.None? <==> id !in old(patients.Ids())
      ensures r.None? ==> patients.rows == old(patients.rows)
      ensures r.Some? ==>
        var before := Find(old(patients.rows), PatientKey, id).value;
        var after := NewPatientRow(id, fields, before.createdAt).(updatedAt := Some(now));
        patients.rows == Replace(old(patients.rows), PatientKey, after) && r.value == PatientToDto(after)
    {
      var p := patients.GetById(id);
      if p == null {
        return None;
      }
      FindIsUnique(patients.rows, PatientKey, p.Row());
      p.Update(fields.firstName, fields.lastName, fields.cpf, fields.dateOfBirth, fields.gender,
               fields.email, fields.phoneNumber, fields.address, fields.medicalHistory, now);
      var updated := patients.Update(p);
      r := Some(PatientToDto(updated.Row()));
    }

    /** Removes the patient with this id if there is one; an unknown id is ignored. */
    method Delete(id: Guid)
      requires patients.Valid()
      modifies patients
      ensures patients.Valid()
      ensures patients.rows == Remove(old(patients.rows), PatientKey, id)
      ensures patients.Ids() == old(patients.Ids()) - {id}
      ensures id !in old(patients.Ids()) ==> patients.rows == old(patients.rows)
    {
      var p := patients.GetById(id);
      if p == null {
        RemoveExisting(patients.rows, PatientKey, id);
        return;
      }
      patients.Delete(p);
    }
  }
}
