/**
 * The entity-to-response mappings. Patient, appointment and exam responses
 * copy the stored columns one for one, so a response determines its row. The
 * medical-history response shares only its identifiers and timestamps with
 * the entity: its other members have no namesake there and keep their
 * defaults, so diagnosis, exams and prescriptions never reach the caller.
 */
module Mappings {
  import opened Common
  import opened Entities
  import opened Dtos

  /** The row a patient response was copied from. */
  function PatientRowOf(d: PatientDto): PatientRow
  {
    PatientRow(d.id, d.firstName, d.lastName, d.cpf, d.dateOfBirth, d.gender, d.email,
               d.phoneNumber, d.address, d.medicalHistory, d.createdAt, d.updatedAt)
  }

  function PatientToDto(p: PatientRow): (d: PatientDto)
    ensures PatientRowOf(d) == p
  {
    PatientDto(p.id, p.firstName, p.lastName, p.cpf, p.dateOfBirth, p.gender, p.email,
               p.phoneNumber, p.address, p.medicalHistory, p.createdAt, p.updatedAt)
  }

  /** The row an appointment response was copied from. */
  function AppointmentRowOf(d: AppointmentDto): AppointmentRow
  {
    AppointmentRow(d.id, d.patientId, d.appointmentDate, d.duration, d.status,
                   d.appointmentType, d.notes, d.createdAt, d.updatedAt)
  }

  function AppointmentToDto(a: AppointmentRow): (d: AppointmentDto)
    ensures AppointmentRowOf(d) == a
  {
    AppointmentDto(a.id, a.patientId, a.appointmentDate, a.duration, a.status,
                   a.appointmentType, a.notes, a.createdAt, a.updatedAt)
  }

  /** The row an exam response was copied from. */
  function ExternalExamRowOf(d: ExternalExamDto): ExternalExamRow
  {
    ExternalExamRow(d.id, d.patientId, d.name, d.date, d.laboratory, d.result, d.createdAt, d.updatedAt)
  }

  function ExternalExamToDto(e: ExternalExamRow): (d: ExternalExamDto)
    ensures ExternalExamRowOf(d) == e
  {
    ExternalExamDto(e.id, e.patientId, e.name, e.date, e.laboratory, e.result, e.createdAt, e.updatedAt)
  }

  /** Only the members with a namesake in the entity are filled in. */
  function MedicalHistoryToDto(h: MedicalHistoryRow): (d: MedicalHistoryDto)
    ensures d.id == h.id && d.patientId == h.patientId
    ensures d.createdAt == h.createdAt && d.updatedAt == h.updatedAt
    ensures d.historyType == "" && d.description == "" && d.notes == ""
    ensures d.startDate.None? && d.endDate.None?
  {
    MedicalHistoryDto(h.id, h.patientId, "", "", None, None, "", h.createdAt, h.updatedAt)
  }

  /** Two records that differ only in their clinical text give the same response. */
  lemma HistoryResponseOmitsClinicalText(h: MedicalHistoryRow, diagnosis: Text, exams: Text, prescriptions: Text)
    ensures MedicalHistoryToDto(h.(diagnosis := diagnosis, exams := exams, prescriptions := prescriptions))
         == MedicalHistoryToDto(h)
  {
  }
}
