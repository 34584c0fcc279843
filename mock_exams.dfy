/**
 * The read-only stand-in for the exam service: a list of five exams built
 * once, from the clock reading taken at construction, and never changed.
 * Queries read that list; create and update build a response without storing
 * it; delete does nothing.
 */
module MockExams {
  import opened Common
  import opened Queries
  import opened Dtos

  const PatientOne: Guid := 0xd78a5f43_8a09_4cca_a954_ff9579b87e6a
  const PatientTwo: Guid := 0x3d3a52d9_0c3d_4cb0_96a3_87d5867f1a5b

  const BloodCountId: Guid := 0xf5b77c9d_8a0b_4c6a_9f5a_7bca2e8987e4
  const FastingGlucoseId: Guid := 0xb2f7c0a1_9d5e_4c8b_8f6d_9e7a3b2c1d0e
  const LipidProfileId: Guid := 0xa1b2c3d4_e5f6_7a8b_9c0d_e1f2a3b4c5d6
  const ElectrocardiogramId: Guid := 0x1a2b3c4d_5e6f_7a8b_9c0d_1e2f3a4b5c6d
  const AbdominalUltrasoundId: Guid := 0xc5d6e7f8_a9b0_c1d2_e3f4_a5b6c7d8e9f0

  const SaoLuiz: string := "Laborat\U{F3}rio S\U{E3}o Luiz"
  const CardioClinic: string := "Cl\U{ED}nica Cardio"
  const ImagingCentre: string := "Centro de Diagn\U{F3}stico por Imagem"

  const BloodCountName: string := "Hemograma Completo"
  const BloodCountResult: string :=
    "Hemoglobina: 14.5 g/dL, Leuc\U{F3}citos: 7.500/mm\U{B3}, Plaquetas: 230.000/mm\U{B3}"
  const FastingGlucoseName: string := "Glicemia em Jejum"
  const FastingGlucoseResult: string := "85 mg/dL (Valor de refer\U{EA}ncia: 70-99 mg/dL)"
  const LipidProfileName: string := "Perfil Lip\U{ED}dico"
  const LipidProfileResult: string :=
    "Colesterol Total: 180 mg/dL, HDL: 55 mg/dL, LDL: 110 mg/dL, Triglic\U{E9}rides: 75 mg/dL"
  const ElectrocardiogramName: string := "Eletrocardiograma"
  const ElectrocardiogramResult: string := "Ritmo sinusal normal. Sem altera\U{E7}\U{F5}es significativas."
  const AbdominalUltrasoundName: string := "Ultrassonografia Abdominal"
  const AbdominalUltrasoundResult: string :=
    "F\U{ED}gado, ves\U{ED}cula biliar, p\U{E2}ncreas, ba\U{E7}o e rins sem altera\U{E7}\U{F5}es. Sem l\U{ED}quido livre na cavidade."

  /** `now.AddDays(-days)`. */
  function DaysAgo(now: DateTime, days: nat): (t: DateTime)
    requires days * TicksPerDay <= now
    ensures t + days * TicksPerDay == now
  {
    now - days * TicksPerDay
  }

  /** One canned exam: created on its exam date and never updated. */
  function CannedExam(id: Guid, patientId: Guid, name: string, date: DateTime, laboratory: string, result: string): ExternalExamDto
  {
    ExternalExamDto(id, patientId, Some(name), date, Some(laboratory), Some(result), date, None)
  }

  /** The list built at construction; `now` is the clock reading taken then. */
  function MockExamList(now: DateTime): (exams: seq<ExternalExamDto>)
    requires 45 * TicksPerDay <= now
    ensures |exams| == 5
    ensures forall i, j :: 0 <= i < j < |exams| ==> exams[i].id != exams[j].id
    ensures forall e :: e in exams ==> e.patientId == PatientOne || e.patientId == PatientTwo
    ensures forall e :: e in exams ==> e.date < now && e.createdAt == e.date && e.updatedAt.None?
  {
    [ CannedExam(BloodCountId, PatientOne, BloodCountName, DaysAgo(now, 30), SaoLuiz, BloodCountResult),
      CannedExam(FastingGlucoseId, PatientOne, FastingGlucoseName, DaysAgo(now, 15), SaoLuiz, FastingGlucoseResult),
      CannedExam(LipidProfileId, PatientOne, LipidProfileName, DaysAgo(now, 15), SaoLuiz, LipidProfileResult),
      CannedExam(ElectrocardiogramId, PatientTwo, ElectrocardiogramName, DaysAgo(now, 45), CardioClinic,
                 ElectrocardiogramResult),
      CannedExam(AbdominalUltrasoundId, PatientTwo, AbdominalUltrasoundName, DaysAgo(now, 20), ImagingCentre,
                 AbdominalUltrasoundResult)
    ]
  }

  /** The filter of `GetByPatientIdAsync`. */
  function OwnedBy(patientId: Guid): ExternalExamDto -> bool
  {
    (e: ExternalExamDto) => e.patientId == patientId
  }

  /** `GetByPatientIdAsync`: the exams of that patient, in list order. */
  function MockGetByPatientId(exams: seq<ExternalExamDto>, patientId: Guid): (r: seq<ExternalExamDto>)
    ensures forall e :: e in r <==> e in exams && e.patientId == patientId
    ensures |r| <= |exams|
  {
    Where(exams, OwnedBy(patientId))
  }

  /** `GetByIdAsync`: the first exam with that id, or `null`. */
  function MockGetById(exams: seq<ExternalExamDto>, id: Guid): (r: Option<ExternalExamDto>)
    ensures r.None? <==> forall e :: e in exams ==> e.id != id
    ensures r.Some? ==> exists i :: 0 <= i < |exams| && exams[i] == r.value && r.value.id == id
                                   && forall j :: 0 <= j < i ==> exams[j].id != id
  {
    if exams == [] then None
    else if exams[0].id == id then Some(exams[0])
    else
      var r := MockGetById(exams[1..], id);
      assert forall e :: e in exams <==> e == exams[0] || e in exams[1..];
      if r.Some? then
        var i :| 0 <= i < |exams[1..]| && exams[1..][i] == r.value && r.value.id == id
                 && forall j :: 0 <= j < i ==> exams[1..][j].id != id;
        assert exams[i + 1] == r.value;
        r
      else r
  }

  /** `CreateAsync`: the request echoed with id `newId` and creation instant `now`; nothing is stored. */
  function MockCreate(dto: CreateExternalExamDto, newId: Guid, now: DateTime): (d: ExternalExamDto)
    ensures d.id == newId && d.createdAt == now && d.updatedAt.None?
    ensures d.patientId == dto.patientId && d.name == dto.name && d.date == dto.date
    ensures d.laboratory == dto.laboratory && d.result == dto.result
  {
    ExternalExamDto(newId, dto.patientId, dto.name, dto.date, dto.laboratory, dto.result, now, None)
  }

  /**
   * `UpdateAsync`: `null` for an unknown id; otherwise a new response that
   * keeps the found exam's id, patient and creation instant and takes the
   * rest from the request. The list itself is not changed.
   */
  function MockUpdate(exams: seq<ExternalExamDto>, id: Guid, dto: UpdateExternalExamDto, now: DateTime): (r: Option<ExternalExamDto>)
    ensures r.None? <==> forall e :: e in exams ==> e.id != id
    ensures r.Some? ==>
      var found := MockGetById(exams, id).value;
      && r.value.id == id && r.value.patientId == found.patientId && r.value.createdAt == found.createdAt
      && r.value.name == dto.name && r.value.date == dto.date && r.value.laboratory == dto.laboratory
      && r.value.result == dto.result && r.value.updatedAt == Some(now)
  {
    match MockGetById(exams, id)
    case None => None
    case Some(found) =>
      Some(ExternalExamDto(found.id, found.patientId, dto.name, dto.date, dto.laboratory, dto.result,
                           found.createdAt, Some(now)))
  }

  /** An id the list does not hold is not found, so a created exam cannot be read back. */
  lemma CreatedExamIsNotStored(now: DateTime, dto: CreateExternalExamDto, newId: Guid)
    requires 45 * TicksPerDay <= now
    requires forall e :: e in MockExamList(now) ==> e.id != newId
    ensures MockGetById(MockExamList(now), MockCreate(dto, newId, now).id) == None
    ensures MockUpdate(MockExamList(now), newId, UpdateExternalExamDto(dto.name, dto.date, dto.laboratory, dto.result), now) == None
  {
  }

  /** Whose each canned exam is. */
  lemma MockExamOwners(now: DateTime)
    requires 45 * TicksPerDay <= now
    ensures forall i :: 0 <= i < 3 ==> MockExamList(now)[i].patientId == PatientOne
    ensures forall i :: 3 <= i < 5 ==> MockExamList(now)[i].patientId == PatientTwo
  {
  }

  /** Filtering a list whose first `k` exams are `a`'s and the rest `b`'s. */
  lemma SplitByOwner(exams: seq<ExternalExamDto>, k: nat, a: Guid, b: Guid, other: Guid)
    requires k <= |exams| && a != b && other != a && other != b
    requires forall i :: 0 <= i < k ==> exams[i].patientId == a
    requires forall i :: k <= i < |exams| ==> exams[i].patientId == b
    ensures MockGetByPatientId(exams, a) == exams[..k]
    ensures MockGetByPatientId(exams, b) == exams[k..]
    ensures MockGetByPatientId(exams, other) == []
  {
    var first, second := exams[..k], exams[k..];
    assert exams == first + second;
    assert forall i :: 0 <= i < |first| ==> first[i].patientId == a by {
      forall i | 0 <= i < |first| ensures first[i].patientId == a {
        assert first[i] == exams[i];
      }
    }
    assert forall i :: 0 <= i < |second| ==> second[i].patientId == b by {
      forall i | 0 <= i < |second| ensures second[i].patientId == b {
        assert second[i] == exams[k + i];
      }
    }
    RunsOfOwners(first, second, a, b);
    RunsOfOwners(second, first, b, a);
    WhereNone(exams, OwnedBy(other));
  }

  /** Joined to a run of `b`'s exams on either side, a run of `a`'s exams is exactly what `a`'s query returns. */
  lemma RunsOfOwners(first: seq<ExternalExamDto>, second: seq<ExternalExamDto>, a: Guid, b: Guid)
    requires a != b
    requires forall i :: 0 <= i < |first| ==> first[i].patientId == a
    requires forall i :: 0 <= i < |second| ==> second[i].patientId == b
    ensures MockGetByPatientId(first + second, a) == first
    ensures MockGetByPatientId(second + first, a) == first
  {
    WhereConcat(first, second, OwnedBy(a));
    WhereConcat(second, first, OwnedBy(a));
    WhereAll(first, OwnedBy(a));
    WhereNone(second, OwnedBy(a));
  }

  /** The first patient has the first three exams and the second the last two, in list order; nobody else has any. */
  lemma MockExamsByPatient(now: DateTime, other: Guid)
    requires 45 * TicksPerDay <= now
    requires other != PatientOne && other != PatientTwo
    ensures var exams := MockExamList(now);
      && MockGetByPatientId(exams, PatientOne) == exams[..3]
      && MockGetByPatientId(exams, PatientTwo) == exams[3..]
      && MockGetByPatientId(exams, other) == []
  {
    MockExamOwners(now);
    SplitByOwner(MockExamList(now), 3, PatientOne, PatientTwo, other);
  }

  /** Every canned exam is found by its own id. */
  lemma MockExamsFoundById(now: DateTime, i: nat)
    requires 45 * TicksPerDay <= now && i < 5
    ensures MockGetById(MockExamList(now), MockExamList(now)[i].id) == Some(MockExamList(now)[i])
  {
    var exams := MockExamList(now);
    var r := MockGetById(exams, exams[i].id);
    var k :| 0 <= k < |exams| && exams[k] == r.value && r.value.id == exams[i].id
             && forall j :: 0 <= j < k ==> exams[j].id != exams[i].id;
    assert k == i;
  }
}
