/**
 * The four repositories over the database tables. The read queries are pure
 * filter/sort/page pipelines over a table's rows; the repository objects own
 * the rows and insert, overwrite and delete them in place. Keys are unique in
 * every table (the primary key), which each repository keeps as `Valid()`.
 */
module Repositories {
  import opened Common
  import opened Queries
  import opened Tables
  import opened Entities

  function AppointmentKey(a: AppointmentRow): Guid { a.id }
  function PatientKey(p: PatientRow): Guid { p.id }
  function MedicalHistoryKey(h: MedicalHistoryRow): Guid { h.id }
  function ExternalExamKey(e: ExternalExamRow): Guid { e.id }

  function AppointmentDateKey(a: AppointmentRow): int { a.appointmentDate }
  function PatientCreatedKey(p: PatientRow): int { p.createdAt }
  function MedicalHistoryCreatedKey(h: MedicalHistoryRow): int { h.createdAt }
  function ExternalExamDateKey(e: ExternalExamRow): int { e.date }

  // ----- Appointment queries -----

  /** The optional filters of the appointment listing; the date bounds are inclusive. */
  predicate AppointmentFilter(a: AppointmentRow, patientId: Option<Guid>, fromDate: Option<DateTime>, toDate: Option<DateTime>)
  {
    && (patientId.None? || a.patientId == patientId.value)
    && (fromDate.None? || a.appointmentDate >= fromDate.value)
    && (toDate.None? || a.appointmentDate <= toDate.value)
  }

  /** Every appointment passing the filters, each once, earliest first. */
  function FilteredAppointments(rows: seq<AppointmentRow>, patientId: Option<Guid>, fromDate: Option<DateTime>, toDate: Option<DateTime>): (r: seq<AppointmentRow>)
    ensures forall a :: a in r <==> a in rows && AppointmentFilter(a, patientId, fromDate, toDate)
    ensures forall a :: multiset(r)[a] == if AppointmentFilter(a, patientId, fromDate, toDate) then multiset(rows)[a] else 0
    ensures SortedBy(r, AppointmentDateKey)
  {
    var matching := Where(rows, a => AppointmentFilter(a, patientId, fromDate, toDate));
    var r := SortBy(matching, AppointmentDateKey);
    assert forall a :: a in r <==> a in matching by {
      forall a ensures a in r <==> a in matching {
        assert a in r <==> multiset(r)[a] > 0;
        assert a in matching <==> multiset(matching)[a] > 0;
      }
    }
    r
  }

  /** `AppointmentRepository.GetAllAsync`: one page of the filtered, date-ordered appointments. */
  function GetAllAppointments(rows: seq<AppointmentRow>, page: int, pageSize: int, patientId: Option<Guid>,
                              fromDate: Option<DateTime>, toDate: Option<DateTime>): (r: seq<AppointmentRow>)
    requires PageArguments(page, pageSize)
    ensures forall a :: a in r ==> a in rows && AppointmentFilter(a, patientId, fromDate, toDate)
    ensures SortedBy(r, AppointmentDateKey)
    ensures |r| <= pageSize
    ensures IsPageOf(r, FilteredAppointments(rows, patientId, fromDate, toDate), page, pageSize)
  {
    var all := FilteredAppointments(rows, patientId, fromDate, toDate);
    PagePreservesOrder(all, page, pageSize, AppointmentDateKey);
    PageElements(all, page, pageSize);
    Page(all, page, pageSize)
  }

  /** `AppointmentRepository.GetByPatientIdAsync`: all of one patient's appointments, earliest first. */
  function AppointmentsOfPatient(rows: seq<AppointmentRow>, patientId: Guid): (r: seq<AppointmentRow>)
    ensures forall a :: a in r <==> a in rows && a.patientId == patientId
    ensures SortedBy(r, AppointmentDateKey)
  {
    FilteredAppointments(rows, Some(patientId), None, None)
  }

  /** `AppointmentRepository.GetByDateRangeAsync`: inclusive at both ends; empty when start > end. */
  function AppointmentsBetween(rows: seq<AppointmentRow>, start: DateTime, end: DateTime): (r: seq<AppointmentRow>)
    ensures forall a :: a in r <==> a in rows && start <= a.appointmentDate <= end
    ensures SortedBy(r, AppointmentDateKey)
    ensures start > end ==> r == []
  {
    var r := FilteredAppointments(rows, None, Some(start), Some(end));
    if start > end then NothingInIsEmpty(r); r else r
  }

  // ----- Patient queries -----

  /** `s.ToLower().Contains(term)` on a nullable column: a NULL column never matches. */
  predicate LowerContains(t: Text, term: string)
  {
    t.Some? && ContainsSubstring(Lower(t.value), term)
  }

  predicate RawContains(t: Text, term: string)
  {
    t.Some? && ContainsSubstring(t.value, term)
  }

  /**
   * The search filter: none for a null or blank term; otherwise the lower-cased
   * (untrimmed) term must occur in the lower-cased first name, last name or
   * e-mail, or in the phone number as stored.
   */
  predicate MatchesSearch(p: PatientRow, searchTerm: Text)
  {
    IsNullOrWhiteSpace(searchTerm)
    || (var term := Lower(searchTerm.value);
        LowerContains(p.firstName, term) || LowerContains(p.lastName, term)
        || LowerContains(p.email, term) || RawContains(p.phoneNumber, term))
  }

  /** Every patient matching the search, each once, newest first. */
  function MatchingPatients(rows: seq<PatientRow>, searchTerm: Text): (r: seq<PatientRow>)
    ensures forall p :: p in r <==> p in rows && MatchesSearch(p, searchTerm)
    ensures forall p :: multiset(r)[p] == if MatchesSearch(p, searchTerm) then multiset(rows)[p] else 0
    ensures SortedByDescending(r, PatientCreatedKey)
  {
    var matching := Where(rows, p => MatchesSearch(p, searchTerm));
    var r := SortByDescending(matching, PatientCreatedKey);
    assert forall p :: p in r <==> p in matching by {
      forall p ensures p in r <==> p in matching {
        assert p in r <==> multiset(r)[p] > 0;
        assert p in matching <==> multiset(matching)[p] > 0;
      }
    }
    r
  }

  /** `PatientRepository.GetAllAsync`: one page of the matching patients, newest first. */
  function GetAllPatients(rows: seq<PatientRow>, page: int, pageSize: int, searchTerm: Text): (r: seq<PatientRow>)
    requires PageArguments(page, pageSize)
    ensures forall p :: p in r ==> p in rows && MatchesSearch(p, searchTerm)
    ensures SortedByDescending(r, PatientCreatedKey)
    ensures IsPageOf(r, MatchingPatients(rows, searchTerm), page, pageSize)
    ensures |r| == Min(pageSize, Max(0, PatientCount(rows, searchTerm) - Offset(page, pageSize)))
  {
    var all := MatchingPatients(rows, searchTerm);
    PagePreservesOrder(all, page, pageSize, PatientCreatedKey);
    PageElements(all, page, pageSize);
    Page(all, page, pageSize)
  }

  /**
   * `PatientRepository.GetTotalCountAsync`: the number of matches under the
   * same filter, so it is the length of the unpaged listing; a blank term
   * counts every patient.
   */
  function PatientCount(rows: seq<PatientRow>, searchTerm: Text): (n: nat)
    ensures n == |MatchingPatients(rows, searchTerm)|
    ensures IsNullOrWhiteSpace(searchTerm) ==> n == |rows|
  {
    var matching := Where(rows, p => MatchesSearch(p, searchTerm));
    var listed := MatchingPatients(rows, searchTerm);
    assert multiset(listed) == multiset(matching);
    assert |listed| == |multiset(listed)|;
    assert IsNullOrWhiteSpace(searchTerm) ==> multiset(matching) == multiset(rows);
    |matching|
  }

  /** Lower-casing leaves white space as it is and never produces it. */
  lemma LowerKeepsBlankness(t: string)
    ensures IsNullOrWhiteSpace(Some(t)) <==> IsNullOrWhiteSpace(Some(Lower(t)))
  {
    forall i | 0 <= i < |t| ensures IsWhiteSpace(t[i]) <==> IsWhiteSpace(Lower(t)[i]) {
      assert Lower(t)[i] == LowerChar(t[i]);
    }
  }

  /** Two terms that lower-case alike select the same patients: "JOHN" finds what "john" finds. */
  lemma SearchIsCaseInsensitive(p: PatientRow, t1: string, t2: string)
    requires Lower(t1) == Lower(t2)
    ensures MatchesSearch(p, Some(t1)) <==> MatchesSearch(p, Some(t2))
  {
    LowerKeepsBlankness(t1);
    LowerKeepsBlankness(t2);
  }

  lemma UpperAndLowerTermsAgree(p: PatientRow)
    ensures MatchesSearch(p, Some("JOHN")) <==> MatchesSearch(p, Some("john"))
  {
    assert Lower("JOHN") == "john" == Lower("john");
    SearchIsCaseInsensitive(p, "JOHN", "john");
  }

  // ----- Medical-history and exam queries -----

  /** `MedicalHistoryRepository.GetByPatientIdAsync`: all of a patient's records, newest first, unpaged. */
  function HistoriesOfPatient(rows: seq<MedicalHistoryRow>, patientId: Guid): (r: seq<MedicalHistoryRow>)
    ensures forall h :: h in r <==> h in rows && h.patientId == patientId
    ensures forall h :: multiset(r)[h] == if h.patientId == patientId then multiset(rows)[h] else 0
    ensures SortedByDescending(r, MedicalHistoryCreatedKey)
  {
    var matching := Where(rows, (h: MedicalHistoryRow) => h.patientId == patientId);
    var r := SortByDescending(matching, MedicalHistoryCreatedKey);
    assert forall h :: h in r <==> h in matching by {
      forall h ensures h in r <==> h in matching {
        assert h in r <==> multiset(r)[h] > 0;
        assert h in matching <==> multiset(matching)[h] > 0;
      }
    }
    r
  }

  /** `ExternalExamRepository.GetByPatientIdAsync`: all of a patient's exams, latest exam date first, unpaged. */
  function ExamsOfPatient(rows: seq<ExternalExamRow>, patientId: Guid): (r: seq<ExternalExamRow>)
    ensures forall e :: e in r <==> e in rows && e.patientId == patientId
    ensures forall e :: multiset(r)[e] == if e.patientId == patientId then multiset(rows)[e] else 0
    ensures SortedByDescending(r, ExternalExamDateKey)
  {
    var matching := Where(rows, (e: ExternalExamRow) => e.patientId == patientId);
    var r := SortByDescending(matching, ExternalExamDateKey);
    assert forall e :: e in r <==> e in matching by {
      forall e ensures e in r <==> e in matching {
        assert e in r <==> multiset(r)[e] > 0;
        assert e in matching <==> multiset(matching)[e] > 0;
      }
    }
    r
  }

  // ----- The repositories -----
  // `FindAsync` materialises a new object from the stored row; `UpdateAsync`
  // writes every column of the object back; `DeleteAsync` removes the row with
  // the object's key. Update and delete of a key that is not stored make
  // Entity Framework throw, so the model requires the key to be present.

  class AppointmentRepository {
    var rows: seq<AppointmentRow>

    predicate Valid()
      reads this
    {
      UniqueKeys(rows, AppointmentKey)
    }

    function Ids(): set<Guid>
      reads this
    {
      Keys(rows, AppointmentKey)
    }

    constructor ()
      ensures rows == [] && Valid()
    {
      rows := [];
    }

    method GetById(id: Guid) returns (a: Appointment?)
      ensures a == null <==> id !in Ids()
      ensures a != null ==> fresh(a) && a.Row() in rows && a.id == id
    {
      var found := Find(rows, AppointmentKey, id);
      if found.None? {
        return null;
      }
      a := new Appointment.FromRow(found.value);
    }

    method Exists(id: Guid) returns (b: bool)
      ensures b <==> id in Ids()
    {
      b := Find(rows, AppointmentKey, id).Some?;
    }

    method Create(a: Appointment) returns (created: Appointment)
      requires Valid() && a.id !in Ids()
      modifies this
      ensures created == a
      ensures rows == old(rows) + [a.Row()]
      ensures Valid() && Ids() == old(Ids()) + {a.id}
    {
      InsertFresh(rows, AppointmentKey, a.Row());
      rows := rows + [a.Row()];
      created := a;
    }

    method Update(a: Appointment) returns (updated: Appointment)
      requires Valid() && a.id in Ids()
      modifies this
      ensures updated == a
      ensures rows == Replace(old(rows), AppointmentKey, a.Row())
      ensures Valid() && Ids() == old(Ids())
      ensures forall x :: x in rows <==> x == a.Row() || (x in old(rows) && x.id != a.id)
    {
      ReplaceExisting(rows, AppointmentKey, a.Row());
      rows := Replace(rows, AppointmentKey, a.Row());
      updated := a;
    }

    method Delete(a: Appointment)
      requires Valid() && a.id in Ids()
      modifies this
      ensures rows == Remove(old(rows), AppointmentKey, a.id)
      ensures Valid() && Ids() == old(Ids()) - {a.id}
      ensures |rows| == |old(rows)| - 1
      ensures forall x :: x in rows <==> x in old(rows) && x.id != a.id
    {
      RemoveExisting(rows, AppointmentKey, a.id);
      rows := Remove(rows, AppointmentKey, a.id);
    }
  }

  class PatientRepository {
    var rows: seq<PatientRow>

    predicate Valid()
      reads this
    {
      UniqueKeys(rows, PatientKey)
    }

    function Ids(): set<Guid>
      reads this
    {
      Keys(rows, PatientKey)
    }

    constructor ()
      ensures rows == [] && Valid()
    {
      rows := [];
    }

    method GetById(id: Guid) returns (p: Patient?)
      ensures p == null <==> id !in Ids()
      ensures p != null ==> fresh(p) && p.Row() in rows && p.id == id
    {
      var found := Find(rows, PatientKey, id);
      if found.None? {
        return null;
      }
      p := new Patient.FromRow(found.value);
    }

    method Exists(id: Guid) returns (b: bool)
      ensures b <==> id in Ids()
    {
      b := Find(rows, PatientKey, id).Some?;
    }

    method Create(p: Patient) returns (created: Patient)
      requires Valid() && p.id !in Ids()
      modifies this
      ensures created == p
      ensures rows == old(rows) + [p.Row()]
      ensures Valid() && Ids() == old(Ids()) + {p.id}
    {
      InsertFresh(rows, PatientKey, p.Row());
      rows := rows + [p.Row()];
      created := p;
    }

    method Update(p: Patient) returns (updated: Patient)
      requires Valid() && p.id in Ids()
      modifies this
      ensures updated == p
      ensures rows == Replace(old(rows), PatientKey, p.Row())
      ensures Valid() && Ids() == old(Ids())
      ensures forall x :: x in rows <==> x == p.Row() || (x in old(rows) && x.id != p.id)
    {
      ReplaceExisting(rows, PatientKey, p.Row());
      rows := Replace(rows, PatientKey, p.Row());
      updated := p;
    }

    method Delete(p: Patient)
      requires Valid() && p.id in Ids()
      modifies this
      ensures rows == Remove(old(rows), PatientKey, p.id)
      ensures Valid() && Ids() == old(Ids()) - {p.id}
      ensures |rows| == |old(rows)| - 1
      ensures forall x :: x in rows <==> x in old(rows) && x.id != p.id
    {
      RemoveExisting(rows, PatientKey, p.id);
      rows := Remove(rows, PatientKey, p.id);
    }
  }

  class MedicalHistoryRepository {
    var rows: seq<MedicalHistoryRow>

    predicate Valid()
      reads this
    {
      UniqueKeys(rows, MedicalHistoryKey)
    }

    function Ids(): set<Guid>
      reads this
    {
      Keys(rows, MedicalHistoryKey)
    }

    constructor ()
      ensures rows == [] && Valid()
    {
      rows := [];
    }

    method GetById(id: Guid) returns (h: MedicalHistory?)
      ensures h == null <==> id !in Ids()
      ensures h != null ==> fresh(h) && h.Row() in rows && h.id == id
    {
      var found := Find(rows, MedicalHistoryKey, id);
      if found.None? {
        return null;
      }
      h := new MedicalHistory.FromRow(found.value);
    }

    method Exists(id: Guid) returns (b: bool)
      ensures b <==> id in Ids()
    {
      b := Find(rows, MedicalHistoryKey, id).Some?;
    }

    method Create(h: MedicalHistory) returns (created: MedicalHistory)
      requires Valid() && h.id !in Ids()
      modifies this
      ensures created == h
      ensures rows == old(rows) + [h.Row()]
      ensures Valid() && Ids() == old(Ids()) + {h.id}
    {
      InsertFresh(rows, MedicalHistoryKey, h.Row());
      rows := rows + [h.Row()];
      created := h;
    }

    method Update(h: MedicalHistory) returns (updated: MedicalHistory)
      requires Valid() && h.id in Ids()
      modifies this
      ensures updated == h
      ensures rows == Replace(old(rows), MedicalHistoryKey, h.Row())
      ensures Valid() && Ids() == old(Ids())
      ensures forall x :: x in rows <==> x == h.Row() || (x in old(rows) && x.id != h.id)
    {
      ReplaceExisting(rows, MedicalHistoryKey, h.Row());
      rows := Replace(rows, MedicalHistoryKey, h.Row());
      updated := h;
    }

    method Delete(h: MedicalHistory)
      requires Valid() && h.id in Ids()
      modifies this
      ensures rows == Remove(old(rows), MedicalHistoryKey, h.id)
      ensures Valid() && Ids() == old(Ids()) - {h.id}
      ensures |rows| == |old(rows)| - 1
      ensures forall x :: x in rows <==> x in old(rows) && x.id != h.id
    {
      RemoveExisting(rows, MedicalHistoryKey, h.id);
      rows := Remove(rows, MedicalHistoryKey, h.id);
    }
  }

  class ExternalExamRepository {
    var rows: seq<ExternalExamRow>

    predicate Valid()
      reads this
    {
      UniqueKeys(rows, ExternalExamKey)
    }

    function Ids(): set<Guid>
      reads this
    {
      Keys(rows, ExternalExamKey)
    }

    constructor ()
      ensures rows == [] && Valid()
    {
      rows := [];
    }

    method GetById(id: Guid) returns (e: ExternalExam?)
      ensures e == null <==> id !in Ids()
      ensures e != null ==> fresh(e) && e.Row() in rows && e.id == id
    {
      var found := Find(rows, ExternalExamKey, id);
      if found.None? {
        return null;
      }
      e := new ExternalExam.FromRow(found.value);
    }

    method Exists(id: Guid) returns (b: bool)
      ensures b <==> id in Ids()
    {
      b := Find(rows, ExternalExamKey, id).Some?;
    }

    method Create(e: ExternalExam) returns (created: ExternalExam)
      requires Valid() && e.id !in Ids()
      modifies this
      ensures created == e
      ensures rows == old(rows) + [e.Row()]
      ensures Valid() && Ids() == old(Ids()) + {e.id}
    {
      InsertFresh(rows, ExternalExamKey, e.Row());
      rows := rows + [e.Row()];
      created := e;
    }

    method Update(e: ExternalExam) returns (updated: ExternalExam)
      requires Valid() && e.id in Ids()
      modifies this
      ensures updated == e
      ensures rows == Replace(old(rows), ExternalExamKey, e.Row())
      ensures Valid() && Ids() == old(Ids())
      ensures forall x :: x in rows <==> x == e.Row() || (x in old(rows) && x.id != e.id)
    {
      ReplaceExisting(rows, ExternalExamKey, e.Row());
      rows := Replace(rows, ExternalExamKey, e.Row());
      updated := e;
    }

    method Delete(e: ExternalExam)
      requires Valid() && e.id in Ids()
      modifies this
      ensures rows == Remove(old(rows), ExternalExamKey, e.id)
      ensures Valid() && Ids() == old(Ids()) - {e.id}
      ensures |rows| == |old(rows)| - 1
      ensures forall x :: x in rows <==> x in old(rows) && x.id != e.id
    {
      RemoveExisting(rows, ExternalExamKey, e.id);
      rows := Remove(rows, ExternalExamKey, e.id);
    }
  }
}
