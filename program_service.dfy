/**
 * The program catalog (backend/src/service/program.service.ts): a table of
 * programs that doctors create, rename and delete, listed newest first with
 * a summary of their creator.
 */
module ProgramService {
  import opened Wrappers
  import opened Seqs
  import opened Records
  import opened AuthService

  /** The fields an update may carry; an absent field is left as it is. */
  datatype ProgramPatch = ProgramPatch(name: Option<string>, description: Option<string>)

  /** `createdBy: { select: { id, fullName } }`. */
  datatype CreatorSummary = CreatorSummary(id: Id, fullName: string)

  /** A program row with its creator attached (absent if no user has that id). */
  datatype ProgramView = ProgramView(program: Program, createdBy: Option<CreatorSummary>)

  /** `orderBy: { createdAt: 'desc' }`: no program is newer than one listed before it. */
  ghost predicate NewestFirst(s: seq<Program>) {
    forall i, j :: 0 <= i < j < |s| ==> s[i].createdAt >= s[j].createdAt
  }

  /** A program no older than the head of a newest-first list can go in front of it. */
  lemma PrependNewest(p: Program, s: seq<Program>)
    requires NewestFirst(s)
    requires s == [] || p.createdAt >= s[0].createdAt
    ensures NewestFirst([p] + s)
  {
    var r := [p] + s;
    forall i, j | 0 <= i < j < |r| ensures r[i].createdAt >= r[j].createdAt {
      if i == 0 {
        assert r[j] == s[j - 1];
      } else {
        assert r[i] == s[i - 1] && r[j] == s[j - 1];
      }
    }
  }

  /** The tail of a newest-first list is newest first. */
  lemma NewestFirstTail(s: seq<Program>)
    requires NewestFirst(s) && s != []
    ensures NewestFirst(s[1..])
  {
    var tail := s[1..];
    forall i, j | 0 <= i < j < |tail| ensures tail[i].createdAt >= tail[j].createdAt {
      assert tail[i] == s[i + 1] && tail[j] == s[j + 1];
    }
  }

  /**
   * When `p` is older than the head of `s`, the head stays in front of `p`
   * placed into the tail.
   */
  lemma KeepHeadInFront(p: Program, s: seq<Program>, rest: seq<Program>)
    requires NewestFirst(s) && s != [] && p.createdAt < s[0].createdAt
    requires NewestFirst(rest) && |rest| == |s|
    requires rest[0] == p || (|s| > 1 && rest[0] == s[1])
    requires multiset(rest) == multiset(s[1..]) + multiset{p}
    ensures NewestFirst([s[0]] + rest)
    ensures multiset([s[0]] + rest) == multiset(s) + multiset{p}
  {
    PrependNewest(s[0], rest);
    assert s == [s[0]] + s[1..];
  }

  /** Place `p` into a newest-first list. */
  function InsertByDate(p: Program, s: seq<Program>): (r: seq<Program>)
    requires NewestFirst(s)
    ensures NewestFirst(r)
    ensures multiset(r) == multiset(s) + multiset{p}
    ensures |r| == |s| + 1
    ensures r[0] == p || (s != [] && r[0] == s[0])
  {
    if s == [] || p.createdAt >= s[0].createdAt then
      PrependNewest(p, s);
      [p] + s
    else
      NewestFirstTail(s);
      var rest := InsertByDate(p, s[1..]);
      KeepHeadInFront(p, s, rest);
      [s[0]] + rest
  }

  /** The programs ordered by creation time, most recent first. */
  function SortNewestFirst(s: seq<Program>): (r: seq<Program>)
    ensures NewestFirst(r)
    ensures multiset(r) == multiset(s)
    ensures |r| == |s|
  {
    if s == [] then []
    else
      assert s == [s[0]] + s[1..];
      InsertByDate(s[0], SortNewestFirst(s[1..]))
  }

  /** `findUnique({ where: { id } })` on the program table. */
  function FindProgram(rows: seq<Program>, id: Id): (r: Option<Program>)
    ensures r.Some? ==> r.value in rows && r.value.id == id
    ensures r.None? <==> forall i :: 0 <= i < |rows| ==> rows[i].id != id
  {
    FindWhere(rows, (p: Program) => p.id == id)
  }

  /** The creator's id and full name, and nothing else of the user row. */
  function Creator(users: seq<User>, id: Id): (r: Option<CreatorSummary>)
    ensures r.Some? <==> FindUserById(users, id).Some?
    ensures r.Some? ==> exists u :: u in users && u.id == id && r.value == CreatorSummary(u.id, u.fullName)
  {
    match FindUserById(users, id)
    case None => None
    case Some(u) => Some(CreatorSummary(u.id, u.fullName))
  }

  function ViewOf(users: seq<User>, p: Program): ProgramView {
    ProgramView(p, Creator(users, p.createdById))
  }

  /** The program rows of a listing. */
  function ProgramsOf(views: seq<ProgramView>): (r: seq<Program>)
    ensures |r| == |views|
    ensures forall i :: 0 <= i < |views| ==> r[i] == views[i].program
  {
    seq(|views|, i requires 0 <= i < |views| => views[i].program)
  }

  /**
   * `getAllPrograms`: every stored program once, newest first, each with its
   * creator summary.
   */
  function GetAllPrograms(rows: seq<Program>, users: seq<User>): (r: seq<ProgramView>)
    ensures multiset(ProgramsOf(r)) == multiset(rows)
    ensures NewestFirst(ProgramsOf(r))
    ensures forall i :: 0 <= i < |r| ==> r[i].createdBy == Creator(users, r[i].program.createdById)
  {
    var sorted := SortNewestFirst(rows);
    var r := seq(|sorted|, i requires 0 <= i < |sorted| => ViewOf(users, sorted[i]));
    assert ProgramsOf(r) == sorted;
    r
  }

  /** `getProgramById`: that program with its creator summary, or nothing. */
  function GetProgramById(rows: seq<Program>, users: seq<User>, id: Id): (r: Option<ProgramView>)
    ensures r.None? <==> forall i :: 0 <= i < |rows| ==> rows[i].id != id
    ensures r.Some? ==> r.value.program in rows && r.value.program.id == id
    ensures r.Some? ==> r.value.createdBy == Creator(users, r.value.program.createdById)
  {
    match FindProgram(rows, id)
    case None => None
    case Some(p) => Some(ViewOf(users, p))
  }

  /** A program with the supplied fields of `patch` written over it. */
  function Patched(p: Program, patch: ProgramPatch): (r: Program)
    ensures r.id == p.id && r.createdAt == p.createdAt && r.createdById == p.createdById
    ensures r.name == (if patch.name.Some? then patch.name.value else p.name)
    ensures r.description == (if patch.description.Some? then patch.description else p.description)
  {
    var named := if patch.name.Some? then p.(name := patch.name.value) else p;
    if patch.description.Some? then named.(description := patch.description) else named
  }

  /** The program table. */
  class ProgramTable {
    var rows: seq<Program>
    var nextId: Id

    ghost predicate Valid()
      reads this
    {
      && UniqueBy(rows, ProgramId)
      && forall i :: 0 <= i < |rows| ==> rows[i].id < nextId
    }

    constructor ()
      ensures Valid() && rows == []
    {
      rows := [];
      nextId := 0;
    }

    /** `createProgram`: one new row with exactly the given fields. */
    method CreateProgram(name: string, description: Option<string>, createdById: Id, now: Instant)
      returns (p: Program)
      requires Valid()
      modifies this
      ensures Valid()
      ensures rows == old(rows) + [p]
      ensures p.name == name && p.description == description && p.createdById == createdById
      ensures p.createdAt == now
      ensures forall i :: 0 <= i < |old(rows)| ==> old(rows)[i].id != p.id
    {
      p := Program(nextId, name, description, now, createdById);
      rows := rows + [p];
      nextId := nextId + 1;
    }

    /** `updateProgram`: patch the program with that id; the store refuses an absent id. */
    method UpdateProgram(id: Id, patch: ProgramPatch) returns (r: Result<Program, StoreError>)
      requires Valid()
      modifies this
      ensures Valid() && nextId == old(nextId)
      ensures r.Failure? <==> forall i :: 0 <= i < |old(rows)| ==> old(rows)[i].id != id
      ensures r.Failure? ==> r.error == RecordNotFound && rows == old(rows)
      ensures r.Success? ==> r.value.id == id && r.value in rows
      ensures r.Success? ==> |rows| == |old(rows)| && forall i :: 0 <= i < |rows| ==>
        rows[i] == if old(rows)[i].id == id then Patched(old(rows)[i], patch) else old(rows)[i]
    {
      var k := IndexWhere(rows, (p: Program) => p.id == id);
      if k.None? {
        r := Failure(RecordNotFound);
      } else {
        var i := k.value;
        ghost var before := rows;
        rows := rows[i := Patched(rows[i], patch)];
        r := Success(rows[i]);
        UniqueKeyAt(before, ProgramId, i);
        assert forall j :: 0 <= j < |rows| ==> rows[j].id == before[j].id;
      }
    }

    /** `deleteProgram`: remove exactly the program with that id; the store refuses an absent id. */
    method DeleteProgram(id: Id) returns (r: Result<Program, StoreError>)
      requires Valid()
      modifies this
      ensures Valid() && nextId == old(nextId)
      ensures r.Failure? <==> forall i :: 0 <= i < |old(rows)| ==> old(rows)[i].id != id
      ensures r.Failure? ==> r.error == RecordNotFound && rows == old(rows)
      ensures r.Success? ==> r.value in old(rows) && r.value.id == id
      ensures r.Success? ==> rows == Filter(OtherProgram(id), old(rows))
    {
      var k := IndexWhere(rows, (p: Program) => p.id == id);
      if k.None? {
        r := Failure(RecordNotFound);
      } else {
        var i := k.value;
        r := Success(rows[i]);
        UniqueKeyAt(rows, ProgramId, i);
        FilterDropsOne(OtherProgram(id), rows, i);
        UniqueByRemove(rows, ProgramId, i);
        rows := rows[..i] + rows[i + 1..];
      }
    }
  }

  /** Rows to keep when deleting the program with this id. */
  function OtherProgram(id: Id): Program -> bool {
    (p: Program) => p.id != id
  }

  /** Deleting removes exactly the rows with that id and keeps the order of the rest. */
  lemma DeleteRemovesOnlyThatProgram(rows: seq<Program>, id: Id)
    ensures forall i :: 0 <= i < |rows| && rows[i].id != id ==> rows[i] in Filter(OtherProgram(id), rows)
    ensures forall p :: p in Filter(OtherProgram(id), rows) ==> p in rows && p.id != id
    ensures SubsequenceOf(Filter(OtherProgram(id), rows), rows)
  {
    var r := Filter(OtherProgram(id), rows);
    FilterIsSubsequence(OtherProgram(id), rows);
    forall p | p in r ensures p in rows && p.id != id {
      var k :| 0 <= k < |r| && r[k] == p;
    }
  }
}
