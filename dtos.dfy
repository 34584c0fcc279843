/**
 * The request and response records exchanged with the services. They carry
 * data only; every string may be null.
 */
module Dtos {
  import opened Common

  /**
   * The nine patient fields, as carried by both the create and the update
   * request (the create request is modelled with the fields the service reads).
   */
  datatype PatientFields = PatientFields(
    firstName: Text, lastName: Text, cpf: Text, dateOfBirth: DateTime, gender: Text,
    email: Text, phoneNumber: Text, address: Text, medicalHistory: Text)

  datatype PatientDto = PatientDto(
    id: Guid, firstName: Text, lastName: Text, cpf: Text, dateOfBirth: DateTime, gender: Text,
    email: Text, phoneNumber: Text, address: Text, medicalHistory: Text,
    createdAt: DateTime, updatedAt: Option<DateTime>)

  datatype CreateAppointmentDto = CreateAppointmentDto(
    patientId: Guid, appointmentDate: DateTime, duration: int, appointmentType: Text, notes: Text)

  datatype UpdateAppointmentDto = UpdateAppointmentDto(
    id: Guid, patientId: Guid, appointmentDate: DateTime, duration: int, status: Text,
    appointmentType: Text, notes: Text)

  datatype AppointmentDto = AppointmentDto(
    id: Guid, patientId: Guid, appointmentDate: DateTime, duration: int, status: Text,
    appointmentType: Text, notes: Text, createdAt: DateTime, updatedAt: Option<DateTime>)

  datatype CreateMedicalHistoryDto = CreateMedicalHistoryDto(
    patientId: Guid, diagnosis: Text, exams: Text, prescriptions: Text)

  datatype UpdateMedicalHistoryDto = UpdateMedicalHistoryDto(
    diagnosis: Text, exams: Text, prescriptions: Text)

  /**
   * The medical-history response. Its fields do not match the entity's: only
   * the identifiers and timestamps have a namesake there.
   */
  datatype MedicalHistoryDto = MedicalHistoryDto(
    id: Guid, patientId: Guid, historyType: string, description: string,
    startDate: Option<DateTime>, endDate: Option<DateTime>, notes: string,
    createdAt: DateTime, updatedAt: Option<DateTime>)

  datatype CreateExternalExamDto = CreateExternalExamDto(
    patientId: Guid, name: Text, date: DateTime, laboratory: Text, result: Text)

  datatype UpdateExternalExamDto = UpdateExternalExamDto(
    name: Text, date: DateTime, laboratory: Text, result: Text)

  datatype ExternalExamDto = ExternalExamDto(
    id: Guid, patientId: Guid, name: Text, date: DateTime, laboratory: Text, result: Text,
    createdAt: DateTime, updatedAt: Option<DateTime>)
}
