/**
 * The medical-history use cases. Unlike appointments, a missing patient makes
 * create answer `null` rather than fail, and delete of an unknown id is
 * silently ignored.
 */
module MedicalHistoryServices {
  import opened Common
  import opened Queries
  import opened Tables
  import opened Entities
  import opened Dtos
  import opened Mappings
  import opened Repositories

  class MedicalHistoryService {
    const histories: MedicalHistoryRepository
    const patients: PatientRepository

    constructor (histories: MedicalHistoryRepository, patients: PatientRepository)
      ensures this.histories == histories && this.patients == patients
    {
      this.histories := histories;
      this.patients := patients;
    }

    /** `null` for an unknown patient; otherwise the responses for all of the patient's records, newest first. */
    method GetByPatientId(patientId: Guid) returns (r: Option<seq<MedicalHistoryDto>>)
      ensures r.None? <==> patientId !in patients.Ids()
      ensures r.Some? ==> r.value == Select(HistoriesOfPatient(histories.rows, patientId), MedicalHistoryToDto)
      ensures r.Some? ==> forall i :: 0 <= i < |r.value| ==> r.value[i].patientId == patientId
    {
      var patientExists := patients.Exists(patientId);
      if !patientExists {
        return None;
      }
      var rows := HistoriesOfPatient(histories.rows, patientId);
      var dtos := Select(rows, MedicalHistoryToDto);
      forall i | 0 <= i < |dtos| ensures dtos[i].patientId == patientId {
        assert dtos[i] == MedicalHistoryToDto(rows[i]) && rows[i] in rows;
      }
      r := Some(dtos);
    }

    method GetById(id: Guid) returns (r: Option<MedicalHistoryDto>)
      ensures r.None? <==> id !in histories.Ids()
      ensures r.Some? ==> r.value.id == id
      ensures r.Some? ==> exists h :: h in histories.rows && r.value == MedicalHistoryToDto(h)
    {
      var h := histories.GetById(id);
      if h == null {
        return None;
      }
      r := Some(MedicalHistoryToDto(h.Row()));
    }

    /**
     * `null`, with nothing stored, for an unknown patient; otherwise one new
     * record with the request's diagnosis, exams and prescriptions.
     */
    method Create(dto: CreateMedicalHistoryDto, newId: Guid, now: DateTime) returns (r: Option<MedicalHistoryDto>)
      requires histories.Valid() && newId !in histories.Ids()
      modifies histories
      ensures histories.Valid()
      ensures r.None? <==> dto.patientId !in patients.Ids()
      ensures r.None? ==> histories.rows == old(histories.rows)
      ensures r.Some? ==>
        var row := MedicalHistoryRow(newId, dto.patientId, dto.diagnosis, dto.exams, dto.prescriptions, now, None);
        histories.rows == old(histories.rows) + [row] && r.value == MedicalHistoryToDto(row)
    {
      var patientExists := patients.Exists(dto.patientId);
      if !patientExists {
        return None;
      }
      var h := new MedicalHistory(newId, now, dto.patientId, dto.diagnosis, dto.exams, dto.prescriptions);
      var created := histories.Create(h);
      r := Some(MedicalHistoryToDto(created.Row()));
    }

    /**
     * `null`, with nothing changed, for an unknown id; otherwise only the
     * three text fields of the stored record change.
     */
    method Update(id: Guid, dto: UpdateMedicalHistoryDto, now: DateTime) returns (r: Option<MedicalHistoryDto>)
      requires histories.Valid()
      modifies histories
      ensures histories.Valid() && histories.Ids() == old(histories.Ids())
      ensures r.None? <==> id !in old(histories.Ids())
      ensures r.None? ==> histories.rows == old(histories.rows)
      ensures r.Some? ==>
        var before := Find(old(histories.rows), MedicalHistoryKey, id).value;
        var after := before.(diagnosis := dto.diagnosis, exams := dto.exams, prescriptions := dto.prescriptions,
                             updatedAt := Some(now));
        histories.rows == Replace(old(histories.rows), MedicalHistoryKey, after) && r.value == MedicalHistoryToDto(after)
    {
      var h := histories.GetById(id);
      if h == null {
        return None;
      }
      FindIsUnique(histories.rows, MedicalHistoryKey, h.Row());
      h.Update(dto.diagnosis, dto.exams, dto.prescriptions, now);
      var updated := histories.Update(h);
      r := Some(MedicalHistoryToDto(updated.Row()));
    }

    /** Removes the record with this id if there is one; an unknown id is ignored. */
    method Delete(id: Guid)
      requires histories.Valid()
      modifies histories
      ensures histories.Valid()
      ensures histories.rows == Remove(old(histories.rows), MedicalHistoryKey, id)
      ensures histories.Ids() == old(histories.Ids()) - {id}
      ensures id !in old(histories.Ids()) ==> histories.rows == old(histories.rows)
    {
      var h := histories.GetById(id);
      if h == null {
        RemoveExisting(histories.rows, MedicalHistoryKey, id);
        return;
      }
      histories.Delete(h);
    }
  }
}
