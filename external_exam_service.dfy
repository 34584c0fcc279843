/**
 * The external-exam use cases over the exam repository. A missing patient
 * makes create answer `null`; update and delete of an unknown id answer
 * `null` or do nothing.
 */
module ExternalExamServices {
  import opened Common
  import opened Queries
  import opened Tables
  import opened Entities
  import opened Dtos
  import opened Mappings
  import opened Repositories

  class ExternalExamService {
    const exams: ExternalExamRepository
    const patients: PatientRepository

    constructor (exams: ExternalExamRepository, patients: PatientRepository)
      ensures this.exams == exams && this.patients == patients
    {
      this.exams := exams;
      this.patients := patients;
    }

    /** `null` for an unknown patient; otherwise all of the patient's exams, latest exam date first. */
    method GetByPatientId(patientId: Guid) returns (r: Option<seq<ExternalExamDto>>)
      ensures r.None? <==> patientId !in patients.Ids()
      ensures r.Some? ==> r.value == Select(ExamsOfPatient(exams.rows, patientId), ExternalExamToDto)
      ensures r.Some? ==> forall i :: 0 <= i < |r.value| ==>
        r.value[i].patientId == patientId && ExternalExamRowOf(r.value[i]) in exams.rows
    {
      var patientExists := patients.Exists(patientId);
      if !patientExists {
        return None;
      }
      var rows := ExamsOfPatient(exams.rows, patientId);
      var dtos := Select(rows, ExternalExamToDto);
      forall i | 0 <= i < |dtos| ensures dtos[i].patientId == patientId && ExternalExamRowOf(dtos[i]) in exams.rows {
        assert dtos[i] == ExternalExamToDto(rows[i]) && rows[i] in rows;
        assert ExternalExamRowOf(dtos[i]) == rows[i];
      }
      r := Some(dtos);
    }

    method GetById(id: Guid) returns (r: Option<ExternalExamDto>)
      ensures r.None? <==> id !in exams.Ids()
      ensures r.Some? ==> r.value.id == id && ExternalExamRowOf(r.value) in exams.rows
    {
      var e := exams.GetById(id);
      if e == null {
        return None;
      }
      r := Some(ExternalExamToDto(e.Row()));
    }

    /** `null`, with nothing stored, for an unknown patient; otherwise one new exam with the request's fields. */
    method Create(dto: CreateExternalExamDto, newId: Guid, now: DateTime) returns (r: Option<ExternalExamDto>)
      requires exams.Valid() && newId !in exams.Ids()
      modifies exams
      ensures exams.Valid()
      ensures r.None? <==> dto.patientId !in patients.Ids()
      ensures r.None? ==> exams.rows == old(exams.rows)
      ensures r.Some? ==>
        var row := ExternalExamRow(newId, dto.patientId, dto.name, dto.date, dto.laboratory, dto.result, now, None);
        exams.rows == old(exams.rows) + [row] && r.value == ExternalExamToDto(row)
    {
      var patientExists := patients.Exists(dto.patientId);
      if !patientExists {
        return None;
      }
      var e := new ExternalExam(newId, now, dto.patientId, dto.name, dto.date, dto.laboratory, dto.result);
      var created := exams.Create(e);
      r := Some(ExternalExamToDto(created.Row()));
    }

    /**
     * `null`, with nothing changed, for an unknown id; otherwise name, date,
     * laboratory and result come from the request and the rest is kept.
     */
    method Update(id: Guid, dto: UpdateExternalExamDto, now: DateTime) returns (r: Option<ExternalExamDto>)
      requires exams.Valid()
      modifies exams
      ensures exams.Valid() && exams.Ids() == old(exams.Ids())
      ensures r.None? <==> id !in old(exams.Ids())
      ensures r.None? ==> exams.rows == old(exams.rows)
      ensures r.Some? ==>
        var before := Find(old(exams.rows), ExternalExamKey, id).value;
        var after := before.(name := dto.name, date := dto.date, laboratory := dto.laboratory, result := dto.result,
                             updatedAt := Some(now));
        exams.rows == Replace(old(exams.rows), ExternalExamKey, after) && r.value == ExternalExamToDto(after)
    {
      var e := exams.GetById(id);
      if e == null {
        return None;
      }
      FindIsUnique(exams.rows, ExternalExamKey, e.Row());
      e.Update(dto.name, dto.date, dto.laboratory, dto.result, now);
      var updated := exams.Update(e);
      r := Some(ExternalExamToDto(updated.Row()));
    }

    /** Removes exactly the exam with this id if there is one; an unknown id is ignored. */
    method Delete(id: Guid)
      requires exams.Valid()
      modifies exams
      ensures exams.Valid()
      ensures exams.rows == Remove(old(exams.rows), ExternalExamKey, id)
      ensures exams.Ids() == old(exams.Ids()) - {id}
      ensures forall x :: x in exams.rows <==> x in old(exams.rows) && x.id != id
    {
      var e := exams.GetById(id);
      if e == null {
        RemoveExisting(exams.rows, ExternalExamKey, id);
        return;
      }
      exams.Delete(e);
    }
  }
}
