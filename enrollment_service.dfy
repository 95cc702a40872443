/**
 * The enrollment table (backend/src/service/enrollment.service.ts): the
 * records linking a client to a program, created by a doctor, given a new
 * status, deleted, and listed per client or per program. The service itself
 * checks neither that the client and program exist nor that the pair is new.
 */
module EnrollmentService {
  import opened Wrappers
  import opened Seqs
  import opened Records
  import ClientService
  import ProgramService

  /** The request body of an enrollment, spread into the new row. */
  datatype EnrollmentPayload = EnrollmentPayload(
    clientId: Id,
    programId: Id,
    status: Option<Status>,
    notes: Option<string>,
    enrollmentDate: Option<Instant>,
    enrolledById: Option<Id>)

  /** The column defaults of the enrollment table. */
  const DefaultStatus: Status := Active

  /** `include: { client: true, program: true }`: the row with both ends of the link. */
  datatype EnrollmentDetails = EnrollmentDetails(enrollment: Enrollment, client: Option<Client>, program: Option<Program>)

  /** A row of the per-client listing: `include: { program: true }`. */
  datatype WithProgram = WithProgram(enrollment: Enrollment, program: Option<Program>)

  /** A row of the per-program listing: `include: { client: true }`. */
  datatype WithClient = WithClient(enrollment: Enrollment, client: Option<Client>)

  /**
   * The row `create` stores: the payload's fields, the defaults for those it
   * leaves out, then `enrolledById` forced to the caller.
   */
  function NewEnrollment(payload: EnrollmentPayload, userId: Id, id: Id, now: Instant): (e: Enrollment)
    ensures e.id == id && e.enrolledById == userId
    ensures e.clientId == payload.clientId && e.programId == payload.programId
    ensures e.status == payload.status.GetOr(DefaultStatus)
    ensures e.enrollmentDate == payload.enrollmentDate.GetOr(now)
    ensures e.notes == payload.notes
  {
    Enrollment(id, payload.clientId, payload.programId, userId,
               payload.enrollmentDate.GetOr(now), payload.status.GetOr(DefaultStatus), payload.notes)
  }

  function ByClient(clientId: Id): Enrollment -> bool {
    (e: Enrollment) => e.clientId == clientId
  }

  function ByProgram(programId: Id): Enrollment -> bool {
    (e: Enrollment) => e.programId == programId
  }

  /** Rows to keep when deleting the enrollment with this id. */
  function OtherEnrollment(id: Id): Enrollment -> bool {
    (e: Enrollment) => e.id != id
  }

  /** The enrollment rows of a per-client listing. */
  function RowsWithProgram(s: seq<WithProgram>): (r: seq<Enrollment>)
    ensures |r| == |s| && forall i :: 0 <= i < |s| ==> r[i] == s[i].enrollment
  {
    seq(|s|, i requires 0 <= i < |s| => s[i].enrollment)
  }

  /** The enrollment rows of a per-program listing. */
  function RowsWithClient(s: seq<WithClient>): (r: seq<Enrollment>)
    ensures |r| == |s| && forall i :: 0 <= i < |s| ==> r[i] == s[i].enrollment
  {
    seq(|s|, i requires 0 <= i < |s| => s[i].enrollment)
  }

  /**
   * `getClientEnrollments`: exactly the client's enrollments, in table
   * order, each with its program; no enrollment is an empty list, not an error.
   */
  function ClientEnrollments(rows: seq<Enrollment>, programs: seq<Program>, clientId: Id): (r: seq<WithProgram>)
    ensures forall i :: 0 <= i < |r| ==> r[i].enrollment in rows && r[i].enrollment.clientId == clientId
    ensures forall i :: 0 <= i < |rows| && rows[i].clientId == clientId ==> rows[i] in RowsWithProgram(r)
    ensures SubsequenceOf(RowsWithProgram(r), rows)
    ensures forall e :: multiset(RowsWithProgram(r))[e] == if e.clientId == clientId then multiset(rows)[e] else 0
    ensures forall i :: 0 <= i < |r| ==> r[i].program == ProgramService.FindProgram(programs, r[i].enrollment.programId)
  {
    var matching := Filter(ByClient(clientId), rows);
    FilterIsSubsequence(ByClient(clientId), rows);
    FilterCounts(ByClient(clientId), rows);
    var r := seq(|matching|, i requires 0 <= i < |matching| =>
      WithProgram(matching[i], ProgramService.FindProgram(programs, matching[i].programId)));
    assert RowsWithProgram(r) == matching;
    r
  }

  /** `getProgramEnrollments`: exactly the program's enrollments, in table order, each with its client. */
  function ProgramEnrollments(rows: seq<Enrollment>, clients: seq<Client>, programId: Id): (r: seq<WithClient>)
    ensures forall i :: 0 <= i < |r| ==> r[i].enrollment in rows && r[i].enrollment.programId == programId
    ensures forall i :: 0 <= i < |rows| && rows[i].programId == programId ==> rows[i] in RowsWithClient(r)
    ensures SubsequenceOf(RowsWithClient(r), rows)
    ensures forall e :: multiset(RowsWithClient(r))[e] == if e.programId == programId then multiset(rows)[e] else 0
    ensures forall i :: 0 <= i < |r| ==> r[i].client == ClientService.GetClientById(clients, r[i].enrollment.clientId)
  {
    var matching := Filter(ByProgram(programId), rows);
    FilterIsSubsequence(ByProgram(programId), rows);
    FilterCounts(ByProgram(programId), rows);
    var r := seq(|matching|, i requires 0 <= i < |matching| =>
      WithClient(matching[i], ClientService.GetClientById(clients, matching[i].clientId)));
    assert RowsWithClient(r) == matching;
    r
  }

  /**
   * The table after setting the status of the enrollment with that id:
   * only that row's status differs.
   */
  function WithStatus(rows: seq<Enrollment>, id: Id, status: Status): (r: seq<Enrollment>)
    ensures |r| == |rows|
    ensures forall i :: 0 <= i < |r| ==> r[i].(status := rows[i].status) == rows[i]
    ensures forall i :: 0 <= i < |r| ==> r[i].status == if rows[i].id == id then status else rows[i].status
  {
    seq(|rows|, i requires 0 <= i < |rows| => if rows[i].id == id then rows[i].(status := status) else rows[i])
  }

  /** Setting the same status twice leaves the table as setting it once. */
  lemma UpdateStatusIdempotent(rows: seq<Enrollment>, id: Id, status: Status)
    ensures WithStatus(WithStatus(rows, id, status), id, status) == WithStatus(rows, id, status)
  {
    var once := WithStatus(rows, id, status);
    var twice := WithStatus(once, id, status);
    forall i | 0 <= i < |rows| ensures twice[i] == once[i] {
      assert once[i].id == rows[i].id;
    }
  }

  /** Any status may follow any other: after the update the row has exactly the requested status. */
  lemma AnyStatusFollows(rows: seq<Enrollment>, id: Id, before: Status, after: Status)
    requires exists i :: 0 <= i < |rows| && rows[i].id == id && rows[i].status == before
    ensures exists i :: 0 <= i < |rows| && WithStatus(rows, id, after)[i].id == id && WithStatus(rows, id, after)[i].status == after
  {
    var i :| 0 <= i < |rows| && rows[i].id == id && rows[i].status == before;
    assert WithStatus(rows, id, after)[i].(status := rows[i].status) == rows[i];
  }

  /** After deleting an enrollment, neither listing returns it. */
  lemma DeletedNotListed(rows: seq<Enrollment>, clients: seq<Client>, programs: seq<Program>, id: Id, clientId: Id, programId: Id)
    ensures var rest := Filter(OtherEnrollment(id), rows);
      && (forall i :: 0 <= i < |ClientEnrollments(rest, programs, clientId)| ==>
            ClientEnrollments(rest, programs, clientId)[i].enrollment.id != id)
      && (forall i :: 0 <= i < |ProgramEnrollments(rest, clients, programId)| ==>
            ProgramEnrollments(rest, clients, programId)[i].enrollment.id != id)
  {
    var rest := Filter(OtherEnrollment(id), rows);
    forall e | e in rest ensures e.id != id {
      var k :| 0 <= k < |rest| && rest[k] == e;
      assert OtherEnrollment(id)(rest[k]);
    }
  }

  /** The enrollment table. */
  class EnrollmentTable {
    var rows: seq<Enrollment>
    var nextId: Id

    ghost predicate Valid()
      reads this
    {
      && UniqueBy(rows, EnrollmentId)
      && forall i :: 0 <= i < |rows| ==> rows[i].id < nextId
    }

    constructor ()
      ensures Valid() && rows == []
    {
      rows := [];
      nextId := 0;
    }

    /**
     * `enrollClientInProgram`: append one row enrolled by the caller and
     * return it with the client and program it names.
     */
    method Enroll(payload: EnrollmentPayload, userId: Id, now: Instant, clients: seq<Client>, programs: seq<Program>)
      returns (d: EnrollmentDetails)
      requires Valid()
      modifies this
      ensures Valid()
      ensures rows == old(rows) + [d.enrollment]
      ensures d.enrollment == NewEnrollment(payload, userId, d.enrollment.id, now)
      ensures forall i :: 0 <= i < |old(rows)| ==> old(rows)[i].id != d.enrollment.id
      ensures d.client == ClientService.GetClientById(clients, payload.clientId)
      ensures d.program == ProgramService.FindProgram(programs, payload.programId)
    {
      var e := NewEnrollment(payload, userId, nextId, now);
      rows := rows + [e];
      nextId := nextId + 1;
      d := EnrollmentDetails(e, ClientService.GetClientById(clients, e.clientId),
                             ProgramService.FindProgram(programs, e.programId));
    }

    /** `updateEnrollmentStatus`: set one row's status; the store refuses an absent id. */
    method UpdateStatus(id: Id, status: Status) returns (r: Result<Enrollment, StoreError>)
      requires Valid()
      modifies this
      ensures Valid() && nextId == old(nextId)
      ensures r.Failure? <==> forall i :: 0 <= i < |old(rows)| ==> old(rows)[i].id != id
      ensures r.Failure? ==> r.error == RecordNotFound && rows == old(rows)
      ensures r.Success? ==> rows == WithStatus(old(rows), id, status)
      ensures r.Success? ==> r.value in rows && r.value.id == id && r.value.status == status
    {
      var k := IndexWhere(rows, (e: Enrollment) => e.id == id);
      if k.None? {
        r := Failure(RecordNotFound);
      } else {
        var i := k.value;
        ghost var before := rows;
        UniqueKeyAt(before, EnrollmentId, i);
        rows := rows[i := rows[i].(status := status)];
        r := Success(rows[i]);
        assert forall j :: 0 <= j < |rows| ==> rows[j] == WithStatus(before, id, status)[j];
      }
    }

    /** `deleteEnrollment`: remove exactly the row with that id; the store refuses an absent id. */
    method Delete(id: Id) returns (r: Result<Enrollment, StoreError>)
      requires Valid()
      modifies this
      ensures Valid() && nextId == old(nextId)
      ensures r.Failure? <==> forall i :: 0 <= i < |old(rows)| ==> old(rows)[i].id != id
      ensures r.Failure? ==> r.error == RecordNotFound && rows == old(rows)
      ensures r.Success? ==> r.value in old(rows) && r.value.id == id
      ensures r.Success? ==> rows == Filter(OtherEnrollment(id), old(rows))
    {
      var k := IndexWhere(rows, (e: Enrollment) => e.id == id);
      if k.None? {
        r := Failure(RecordNotFound);
      } else {
        var i := k.value;
        r := Success(rows[i]);
        UniqueKeyAt(rows, EnrollmentId, i);
        FilterDropsOne(OtherEnrollment(id), rows, i);
        UniqueByRemove(rows, EnrollmentId, i);
        rows := rows[..i] + rows[i + 1..];
      }
    }
  }
}
