/** The validator of the medical-history create request. */
module MedicalHistoryValidation {
  import opened Common
  import opened Rules
  import opened Dtos

  predicate CreateMedicalHistoryValid(dto: CreateMedicalHistoryDto)
  {
    && dto.patientId != EmptyGuid
    && dto.diagnosis.Some? && NotEmptyText(dto.diagnosis) && Utf16Length(dto.diagnosis.value) <= 500
    && dto.exams.Some? && NotEmptyText(dto.exams) && Utf16Length(dto.exams.value) <= 1000
    && dto.prescriptions.Some? && NotEmptyText(dto.prescriptions) && Utf16Length(dto.prescriptions.value) <= 1000
  }

  /** `CreateMedicalHistoryDtoValidator`: no failure exactly for a valid request. */
  function ValidateCreate(dto: CreateMedicalHistoryDto): (r: seq<Failure>)
    ensures r == [] <==> CreateMedicalHistoryValid(dto)
    ensures |r| <= 7
  {
    Rule(NotEmptyGuid(dto.patientId), "PatientId", "Patient ID is required")
    + RequiredText(dto.diagnosis, "Diagnosis", "Diagnosis is required", 500, "Diagnosis must not exceed 500 characters")
    + RequiredText(dto.exams, "Exams", "Exams are required", 1000, "Exams must not exceed 1000 characters")
    + RequiredText(dto.prescriptions, "Prescriptions", "Prescriptions are required", 1000, "Prescriptions must not exceed 1000 characters")
  }

  /** A 500-character diagnosis is accepted and a 501-character one is not. */
  lemma DiagnosisLimit(dto: CreateMedicalHistoryDto)
    requires dto.diagnosis.Some? && NotEmptyText(dto.diagnosis)
    ensures Utf16Length(dto.diagnosis.value) == 500 ==> Failure("Diagnosis", "Diagnosis must not exceed 500 characters") !in ValidateCreate(dto)
    ensures Utf16Length(dto.diagnosis.value) == 501 ==> Failure("Diagnosis", "Diagnosis must not exceed 500 characters") in ValidateCreate(dto)
  {
    var head := Rule(NotEmptyGuid(dto.patientId), "PatientId", "Patient ID is required");
    var diagnosis := RequiredText(dto.diagnosis, "Diagnosis", "Diagnosis is required", 500, "Diagnosis must not exceed 500 characters");
    var exams := RequiredText(dto.exams, "Exams", "Exams are required", 1000, "Exams must not exceed 1000 characters");
    var prescriptions := RequiredText(dto.prescriptions, "Prescriptions", "Prescriptions are required", 1000, "Prescriptions must not exceed 1000 characters");
    assert ValidateCreate(dto) == head + diagnosis + exams + prescriptions;
    assert forall f :: f in exams ==> f.property == "Exams";
    assert forall f :: f in prescriptions ==> f.property == "Prescriptions";
  }
}
