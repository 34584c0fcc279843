/**
 * The four persisted entities. Each is a class whose data constructor draws a
 * fresh identifier and stamps the creation instant, and whose `Update`
 * overwrites the data fields in place and stamps the update instant, leaving
 * the identifier, the owning patient and the creation instant as they were.
 * A `...Row` value is the content of one table row; `FromRow` is the object
 * the persistence layer materialises from it.
 */
module Entities {
  import opened Common

  datatype PatientRow = PatientRow(
    id: Guid, firstName: Text, lastName: Text, cpf: Text, dateOfBirth: DateTime, gender: Text,
    email: Text, phoneNumber: Text, address: Text, medicalHistory: Text,
    createdAt: DateTime, updatedAt: Option<DateTime>)

  datatype AppointmentRow = AppointmentRow(
    id: Guid, patientId: Guid, appointmentDate: DateTime, duration: int, status: Text,
    appointmentType: Text, notes: Text, createdAt: DateTime, updatedAt: Option<DateTime>)

  datatype MedicalHistoryRow = MedicalHistoryRow(
    id: Guid, patientId: Guid, diagnosis: Text, exams: Text, prescriptions: Text,
    createdAt: DateTime, updatedAt: Option<DateTime>)

  datatype ExternalExamRow = ExternalExamRow(
    id: Guid, patientId: Guid, name: Text, date: DateTime, laboratory: Text, result: Text,
    createdAt: DateTime, updatedAt: Option<DateTime>)

  class Patient {
    var id: Guid
    var firstName: Text
    var lastName: Text
    var cpf: Text
    var dateOfBirth: DateTime
    var gender: Text
    var email: Text
    var phoneNumber: Text
    var address: Text
    var medicalHistory: Text
    var createdAt: DateTime
    var updatedAt: Option<DateTime>
    var medicalHistories: seq<MedicalHistory>
    var externalExams: seq<ExternalExam>
    var appointments: seq<Appointment>

    function Row(): PatientRow
      reads this
    {
      PatientRow(id, firstName, lastName, cpf, dateOfBirth, gender, email, phoneNumber,
                 address, medicalHistory, createdAt, updatedAt)
    }

    /**
     * `new Patient(...)`: the fresh identifier `id` (from `Guid.NewGuid()`) and
     * the creation instant `now` are inputs; the nine data fields are copied
     * as given and the three collections start empty.
     */
    constructor (id: Guid, now: DateTime, firstName: Text, lastName: Text, cpf: Text,
                 dateOfBirth: DateTime, gender: Text, email: Text, phoneNumber: Text,
                 address: Text, medicalHistory: Text := None)
      ensures Row() == PatientRow(id, firstName, lastName, cpf, dateOfBirth, gender, email,
                                  phoneNumber, address, medicalHistory, now, None)
      ensures medicalHistories == [] && externalExams == [] && appointments == []
    {
      this.id := id;
      this.firstName := firstName;
      this.lastName := lastName;
      this.cpf := cpf;
      this.dateOfBirth := dateOfBirth;
      this.gender := gender;
      this.email := email;
      this.phoneNumber := phoneNumber;
      this.address := address;
      this.medicalHistory := medicalHistory;
      this.createdAt := now;
      this.updatedAt := None;
      this.medicalHistories := [];
      this.externalExams := [];
      this.appointments := [];
    }

    /** The object read back from a stored row; its collections are not loaded. */
    constructor FromRow(row: PatientRow)
      ensures Row() == row
      ensures medicalHistories == [] && externalExams == [] && appointments == []
    {
      id := row.id;
      firstName := row.firstName;
      lastName := row.lastName;
      cpf := row.cpf;
      dateOfBirth := row.dateOfBirth;
      gender := row.gender;
      email := row.email;
      phoneNumber := row.phoneNumber;
      address := row.address;
      medicalHistory := row.medicalHistory;
      createdAt := row.createdAt;
      updatedAt := row.updatedAt;
      medicalHistories := [];
      externalExams := [];
      appointments := [];
    }

    /** Overwrites all nine data fields, the CPF included, and stamps `now`. */
    method Update(firstName: Text, lastName: Text, cpf: Text, dateOfBirth: DateTime, gender: Text,
                  email: Text, phoneNumber: Text, address: Text, medicalHistory: Text, now: DateTime)
      modifies this
      ensures Row() == old(Row()).(firstName := firstName, lastName := lastName, cpf := cpf,
        dateOfBirth := dateOfBirth, gender := gender, email := email, phoneNumber := phoneNumber,
        address := address, medicalHistory := medicalHistory, updatedAt := Some(now))
      ensures unchanged(this`medicalHistories, this`externalExams, this`appointments)
    {
      SetPersonalData(firstName, lastName, cpf, dateOfBirth, gender);
      SetContactData(email, phoneNumber, address, medicalHistory, now);
    }

    /** The first half of Update's assignments (split so that each half stays small to verify). */
    method SetPersonalData(firstName: Text, lastName: Text, cpf: Text, dateOfBirth: DateTime, gender: Text)
      modifies this
      ensures Row() == old(Row()).(firstName := firstName, lastName := lastName, cpf := cpf,
        dateOfBirth := dateOfBirth, gender := gender)
      ensures unchanged(this`medicalHistories, this`externalExams, this`appointments)
    {
      this.firstName := firstName;
      this.lastName := lastName;
      this.cpf := cpf;
      this.dateOfBirth := dateOfBirth;
      this.gender := gender;
    }

    /** The second half of Update's assignments, ending with the update stamp. */
    method SetContactData(email: Text, phoneNumber: Text, address: Text, medicalHistory: Text, now: DateTime)
      modifies this
      ensures Row() == old(Row()).(email := email, phoneNumber := phoneNumber, address := address,
        medicalHistory := medicalHistory, updatedAt := Some(now))
      ensures unchanged(this`medicalHistories, this`externalExams, this`appointments)
    {
      this.email := email;
      this.phoneNumber := phoneNumber;
      this.address := address;
      this.medicalHistory := medicalHistory;
      this.updatedAt := Some(now);
    }
  }

  /** The status every new appointment starts in. */
  const InitialStatus: string := "Scheduled"
  const DefaultDuration: int := 30

  class Appointment {
    var id: Guid
    var patientId: Guid
    var appointmentDate: DateTime
    var duration: int
    var status: Text
    var appointmentType: Text
    var notes: Text
    var createdAt: DateTime
    var updatedAt: Option<DateTime>

    function Row(): AppointmentRow
      reads this
    {
      AppointmentRow(id, patientId, appointmentDate, duration, status, appointmentType, notes,
                     createdAt, updatedAt)
    }

    /**
     * The parameterless constructor: the property initialisers give a
     * 30-minute "Scheduled" appointment with empty type and notes.
     */
    constructor Blank()
      ensures Row() == AppointmentRow(EmptyGuid, EmptyGuid, DefaultDateTime, DefaultDuration,
                                      Some(InitialStatus), Some(""), Some(""), DefaultDateTime, None)
    {
      id := EmptyGuid;
      patientId := EmptyGuid;
      appointmentDate := DefaultDateTime;
      duration := DefaultDuration;
      status := Some(InitialStatus);
      appointmentType := Some("");
      notes := Some("");
      createdAt := DefaultDateTime;
      updatedAt := None;
    }

    /** `new Appointment(...)`: always "Scheduled", whatever the caller wanted. */
    constructor (id: Guid, now: DateTime, patientId: Guid, appointmentDate: DateTime, duration: int,
                 appointmentType: Text, notes: Text := None)
      ensures Row() == AppointmentRow(id, patientId, appointmentDate, duration, Some(InitialStatus),
                                      appointmentType, notes, now, None)
    {
      this.id := id;
      this.patientId := patientId;
      this.appointmentDate := appointmentDate;
      this.duration := duration;
      this.status := Some(InitialStatus);
      this.appointmentType := appointmentType;
      this.notes := notes;
      this.createdAt := now;
      this.updatedAt := None;
    }

    constructor FromRow(row: AppointmentRow)
      ensures Row() == row
    {
      id := row.id;
      patientId := row.patientId;
      appointmentDate := row.appointmentDate;
      duration := row.duration;
      status := row.status;
      appointmentType := row.appointmentType;
      notes := row.notes;
      createdAt := row.createdAt;
      updatedAt := row.updatedAt;
    }

    /** Replaces date, duration, status (any string), type and notes; stamps `now`. */
    method Update(appointmentDate: DateTime, duration: int, status: Text, appointmentType: Text,
                  notes: Text, now: DateTime)
      modifies this
      ensures Row() == old(Row()).(appointmentDate := appointmentDate, duration := duration,
        status := status, appointmentType := appointmentType, notes := notes, updatedAt := Some(now))
    {
      this.appointmentDate := appointmentDate;
      this.duration := duration;
      this.status := status;
      this.appointmentType := appointmentType;
      this.notes := notes;
      this.updatedAt := Some(now);
    }
  }

  class MedicalHistory {
    var id: Guid
    var patientId: Guid
    var diagnosis: Text
    var exams: Text
    var prescriptions: Text
    var createdAt: DateTime
    var updatedAt: Option<DateTime>

    function Row(): MedicalHistoryRow
      reads this
    {
      MedicalHistoryRow(id, patientId, diagnosis, exams, prescriptions, createdAt, updatedAt)
    }

    constructor (id: Guid, now: DateTime, patientId: Guid, diagnosis: Text, exams: Text, prescriptions: Text)
      ensures Row() == MedicalHistoryRow(id, patientId, diagnosis, exams, prescriptions, now, None)
    {
      this.id := id;
      this.patientId := patientId;
      this.diagnosis := diagnosis;
      this.exams := exams;
      this.prescriptions := prescriptions;
      this.createdAt := now;
      this.updatedAt := None;
    }

    constructor FromRow(row: MedicalHistoryRow)
      ensures Row() == row
    {
      id := row.id;
      patientId := row.patientId;
      diagnosis := row.diagnosis;
      exams := row.exams;
      prescriptions := row.prescriptions;
      createdAt := row.createdAt;
      updatedAt := row.updatedAt;
    }

    /** Replaces the three text fields and stamps `now`. */
    method Update(diagnosis: Text, exams: Text, prescriptions: Text, now: DateTime)
      modifies this
      ensures Row() == old(Row()).(diagnosis := diagnosis, exams := exams,
        prescriptions := prescriptions, updatedAt := Some(now))
    {
      this.diagnosis := diagnosis;
      this.exams := exams;
      this.prescriptions := prescriptions;
      this.updatedAt := Some(now);
    }
  }

  class ExternalExam {
    var id: Guid
    var patientId: Guid
    var name: Text
    var date: DateTime
    var laboratory: Text
    var result: Text
    var createdAt: DateTime
    var updatedAt: Option<DateTime>

    function Row(): ExternalExamRow
      reads this
    {
      ExternalExamRow(id, patientId, name, date, laboratory, result, createdAt, updatedAt)
    }

    constructor (id: Guid, now: DateTime, patientId: Guid, name: Text, date: DateTime,
                 laboratory: Text, result: Text)
      ensures Row() == ExternalExamRow(id, patientId, name, date, laboratory, result, now, None)
    {
      this.id := id;
      this.patientId := patientId;
      this.name := name;
      this.date := date;
      this.laboratory := laboratory;
      this.result := result;
      this.createdAt := now;
      this.updatedAt := None;
    }

    constructor FromRow(row: ExternalExamRow)
      ensures Row() == row
    {
      id := row.id;
      patientId := row.patientId;
      name := row.name;
      date := row.date;
      laboratory := row.laboratory;
      result := row.result;
      createdAt := row.createdAt;
      updatedAt := row.updatedAt;
    }

    /** Replaces name, date, laboratory and result and stamps `now`. */
    method Update(name: Text, date: DateTime, laboratory: Text, result: Text, now: DateTime)
      modifies this
      ensures Row() == old(Row()).(name := name, date := date, laboratory := laboratory,
        result := result, updatedAt := Some(now))
    {
      this.name := name;
      this.date := date;
      this.laboratory := laboratory;
      this.result := result;
      this.updatedAt := Some(now);
    }
  }
}
