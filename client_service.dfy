/**
 * The client registry (backend/src/service/client_management.service.ts):
 * a table of patient records that doctors register and edit, listed a page
 * at a time and searched by name, phone or email.
 */
module ClientService {
  import opened Wrappers
  import opened Seqs
  import opened Text
  import opened Records

  /** The request body of a registration, spread into the new row. */
  datatype ClientPayload = ClientPayload(
    firstName: string,
    lastName: string,
    dateOfBirth: string,
    gender: Gender,
    street: Option<string>,
    city: Option<string>,
    state: Option<string>,
    postalCode: Option<string>,
    phone: Option<string>,
    email: Option<string>,
    medicalHistory: Option<string>,
    allergies: Option<seq<string>>,
    registeredById: Option<Id>)

  /**
   * The body of an update: `None` leaves a column alone; for a nullable
   * column `Some(None)` writes null.
   */
  datatype ClientPatch = ClientPatch(
    firstName: Option<string>,
    lastName: Option<string>,
    dateOfBirth: Option<string>,
    gender: Option<Gender>,
    street: Option<Option<string>>,
    city: Option<Option<string>>,
    state: Option<Option<string>>,
    postalCode: Option<Option<string>>,
    phone: Option<Option<string>>,
    email: Option<Option<string>>,
    medicalHistory: Option<Option<string>>,
    allergies: Option<seq<string>>)

  /** What `getClients` returns: one page and the number of matching clients. */
  datatype ClientPage = ClientPage(clients: seq<Client>, total: nat)

  /**
   * The row `create` stores: the payload's fields, then `registeredById`
   * forced to the caller whatever the payload said.
   */
  function NewClient(payload: ClientPayload, userId: Id, id: Id, now: Instant): (c: Client)
    ensures c.id == id && c.registeredById == userId && c.registrationDate == now
    ensures c.firstName == payload.firstName && c.lastName == payload.lastName
    ensures c.dateOfBirth == payload.dateOfBirth && c.gender == payload.gender
    ensures c.phone == payload.phone && c.email == payload.email
    ensures c.street == payload.street && c.city == payload.city
    ensures c.state == payload.state && c.postalCode == payload.postalCode
    ensures c.medicalHistory == payload.medicalHistory
    ensures c.allergies == payload.allergies.GetOr([])
  {
    Client(id, payload.firstName, payload.lastName, payload.dateOfBirth, payload.gender,
           payload.street, payload.city, payload.state, payload.postalCode,
           payload.phone, payload.email, payload.medicalHistory,
           payload.allergies.GetOr([]), now, userId)
  }

  /** A client with the supplied fields of `patch` written over it. */
  function Patched(c: Client, patch: ClientPatch): (r: Client)
    ensures r.id == c.id && r.registrationDate == c.registrationDate && r.registeredById == c.registeredById
    ensures r.firstName == patch.firstName.GetOr(c.firstName)
    ensures r.lastName == patch.lastName.GetOr(c.lastName)
    ensures r.dateOfBirth == patch.dateOfBirth.GetOr(c.dateOfBirth)
    ensures r.gender == patch.gender.GetOr(c.gender)
    ensures r.phone == patch.phone.GetOr(c.phone) && r.email == patch.email.GetOr(c.email)
    ensures r.street == patch.street.GetOr(c.street) && r.city == patch.city.GetOr(c.city)
    ensures r.state == patch.state.GetOr(c.state) && r.postalCode == patch.postalCode.GetOr(c.postalCode)
    ensures r.medicalHistory == patch.medicalHistory.GetOr(c.medicalHistory)
    ensures r.allergies == patch.allergies.GetOr(c.allergies)
    ensures patch == ClientPatch(None, None, None, None, None, None, None, None, None, None, None, None) ==> r == c
  {
    c.(firstName := patch.firstName.GetOr(c.firstName),
       lastName := patch.lastName.GetOr(c.lastName),
       dateOfBirth := patch.dateOfBirth.GetOr(c.dateOfBirth),
       gender := patch.gender.GetOr(c.gender),
       street := patch.street.GetOr(c.street),
       city := patch.city.GetOr(c.city),
       state := patch.state.GetOr(c.state),
       postalCode := patch.postalCode.GetOr(c.postalCode),
       phone := patch.phone.GetOr(c.phone),
       email := patch.email.GetOr(c.email),
       medicalHistory := patch.medicalHistory.GetOr(c.medicalHistory),
       allergies := patch.allergies.GetOr(c.allergies))
  }

  /** `skip`/`take`: at most `take` elements of `s`, starting at position `skip`. */
  function Window<T>(s: seq<T>, skip: nat, take: nat): (r: seq<T>)
    ensures |r| <= take
    ensures skip >= |s| ==> r == []
    ensures skip < |s| ==> |r| == if skip + take <= |s| then take else |s| - skip
    ensures forall i :: 0 <= i < |r| ==> skip + i < |s| && r[i] == s[skip + i]
  {
    if skip >= |s| then []
    else if skip + take <= |s| then s[skip..skip + take]
    else s[skip..]
  }

  /**
   * `getClients`: the page of clients matching `filter` that starts at
   * `(page - 1) * pageSize`, and the number of all matching clients. The
   * store refuses a negative offset.
   */
  function GetClients(rows: seq<Client>, filter: Client -> bool, page: int, pageSize: nat)
    : (r: Result<ClientPage, StoreError>)
    ensures r.Failure? <==> (page - 1) * pageSize < 0
    ensures r.Failure? ==> r.error == InvalidArgument
    ensures r.Success? ==> |r.value.clients| <= pageSize
    ensures r.Success? ==> r.value.total == |Filter(filter, rows)|
    ensures r.Success? ==> r.value.clients == Window(Filter(filter, rows), (page - 1) * pageSize, pageSize)
  {
    var skip := (page - 1) * pageSize;
    if skip < 0 then Failure(InvalidArgument)
    else
      var matching := Filter(filter, rows);
      Success(ClientPage(Window(matching, skip, pageSize), |matching|))
  }

  /** Page 1 starts with the first matching client. */
  lemma FirstPageStartsAtZero(rows: seq<Client>, filter: Client -> bool, pageSize: nat)
    ensures GetClients(rows, filter, 1, pageSize).Success?
    ensures var m := Filter(filter, rows);
      GetClients(rows, filter, 1, pageSize).value.clients == m[..if pageSize <= |m| then pageSize else |m|]
  {
  }

  /** Pages after the first are offset by a whole page per page number. */
  lemma {:induction false} PageOffsetsApart(p1: int, p2: int, k: nat)
    requires p1 < p2
    ensures (p2 - 1) * k >= (p1 - 1) * k + k
  {
    assert (p2 - 1) * k == (p1 - 1) * k + (p2 - p1) * k;
    assert (p2 - p1) * k >= k by {
      assert p2 - p1 >= 1;
      assert (p2 - p1) * k == k + (p2 - p1 - 1) * k;
    }
  }

  /** Two different pages of the same size share no client. */
  lemma PagesDisjoint(rows: seq<Client>, filter: Client -> bool, p1: int, p2: int, pageSize: nat)
    requires UniqueBy(rows, ClientId)
    requires p1 != p2
    requires GetClients(rows, filter, p1, pageSize).Success?
    requires GetClients(rows, filter, p2, pageSize).Success?
    ensures forall c :: c in GetClients(rows, filter, p1, pageSize).value.clients
                     ==> c !in GetClients(rows, filter, p2, pageSize).value.clients
  {
    var m := Filter(filter, rows);
    UniqueByDistinct(rows, ClientId);
    FilterKeepsDistinct(filter, rows);
    var w1 := GetClients(rows, filter, p1, pageSize).value.clients;
    var w2 := GetClients(rows, filter, p2, pageSize).value.clients;
    var o1, o2 := (p1 - 1) * pageSize, (p2 - 1) * pageSize;
    if p1 < p2 { PageOffsetsApart(p1, p2, pageSize); } else { PageOffsetsApart(p2, p1, pageSize); }
    forall a, b | 0 <= a < |w1| && 0 <= b < |w2| ensures w1[a] != w2[b] {
      WindowsApart(m, o1, o2, pageSize, a, b);
    }
  }

  /** Positions inside two windows that are at least a window apart hold different elements of a list without repetitions. */
  lemma WindowsApart(m: seq<Client>, o1: nat, o2: nat, pageSize: nat, a: nat, b: nat)
    requires Distinct(m)
    requires o2 >= o1 + pageSize || o1 >= o2 + pageSize
    requires a < |Window(m, o1, pageSize)| && b < |Window(m, o2, pageSize)|
    ensures Window(m, o1, pageSize)[a] != Window(m, o2, pageSize)[b]
  {
    var i, j := o1 + a, o2 + b;
    assert Window(m, o1, pageSize)[a] == m[i] && Window(m, o2, pageSize)[b] == m[j];
    if i < j {
      assert m[i] != m[j];
    } else {
      assert m[j] != m[i];
    }
  }

  /** `getClientById`: the client with that id, or null. */
  function GetClientById(rows: seq<Client>, id: Id): (r: Option<Client>)
    ensures r.Some? ==> r.value in rows && r.value.id == id
    ensures r.None? <==> forall i :: 0 <= i < |rows| ==> rows[i].id != id
  {
    FindWhere(rows, (c: Client) => c.id == id)
  }

  /**
   * The search condition: the query occurs, ignoring case, in the first
   * name, the last name, or a phone or email that is not null.
   */
  predicate MatchesSearch(c: Client, query: string) {
    || IncludesIgnoringCase(c.firstName, query)
    || IncludesIgnoringCase(c.lastName, query)
    || (c.phone.Some? && IncludesIgnoringCase(c.phone.value, query))
    || (c.email.Some? && IncludesIgnoringCase(c.email.value, query))
  }

  function SearchCondition(query: string): Client -> bool {
    (c: Client) => MatchesSearch(c, query)
  }

  /** `searchClients`: exactly the matching clients, in table order, without paging. */
  function SearchClients(rows: seq<Client>, query: string): (r: seq<Client>)
    ensures forall i :: 0 <= i < |r| ==> r[i] in rows && MatchesSearch(r[i], query)
    ensures forall i :: 0 <= i < |rows| && MatchesSearch(rows[i], query) ==> rows[i] in r
    ensures SubsequenceOf(r, rows)
    ensures forall c :: multiset(r)[c] == if MatchesSearch(c, query) then multiset(rows)[c] else 0
  {
    FilterIsSubsequence(SearchCondition(query), rows);
    FilterCounts(SearchCondition(query), rows);
    Filter(SearchCondition(query), rows)
  }

  /** The empty query occurs in every first name, so it returns the whole table. */
  lemma EmptySearchReturnsAll(rows: seq<Client>)
    ensures SearchClients(rows, "") == rows
  {
    forall i | 0 <= i < |rows| ensures SearchCondition("")(rows[i]) {
      EmptyQueryMatches(rows[i].firstName);
    }
    FilterKeepsAll(SearchCondition(""), rows);
  }

  /** The client table. */
  class ClientTable {
    var rows: seq<Client>
    var nextId: Id

    ghost predicate Valid()
      reads this
    {
      && UniqueBy(rows, ClientId)
      && forall i :: 0 <= i < |rows| ==> rows[i].id < nextId
    }

    constructor ()
      ensures Valid() && rows == []
    {
      rows := [];
      nextId := 0;
    }

    /** `registerClient`: one new row, registered by the caller; no field is checked for uniqueness. */
    method RegisterClient(payload: ClientPayload, userId: Id, now: Instant) returns (c: Client)
      requires Valid()
      modifies this
      ensures Valid()
      ensures rows == old(rows) + [c]
      ensures c == NewClient(payload, userId, c.id, now)
      ensures forall i :: 0 <= i < |old(rows)| ==> old(rows)[i].id != c.id
    {
      c := NewClient(payload, userId, nextId, now);
      rows := rows + [c];
      nextId := nextId + 1;
    }

    /** `updateClient`: patch the client with that id; the store refuses an absent id. */
    method UpdateClient(id: Id, patch: ClientPatch) returns (r: Result<Client, StoreError>)
      requires Valid()
      modifies this
      ensures Valid() && nextId == old(nextId)
      ensures r.Failure? <==> forall i :: 0 <= i < |old(rows)| ==> old(rows)[i].id != id
      ensures r.Failure? ==> r.error == RecordNotFound && rows == old(rows)
      ensures r.Success? ==> r.value.id == id && r.value in rows
      ensures r.Success? ==> |rows| == |old(rows)| && forall i :: 0 <= i < |rows| ==>
        rows[i] == if old(rows)[i].id == id then Patched(old(rows)[i], patch) else old(rows)[i]
    {
      var k := IndexWhere(rows, (c: Client) => c.id == id);
      if k.None? {
        r := Failure(RecordNotFound);
      } else {
        var i := k.value;
        ghost var before := rows;
        rows := rows[i := Patched(rows[i], patch)];
        r := Success(rows[i]);
        UniqueKeyAt(before, ClientId, i);
        assert forall j :: 0 <= j < |rows| ==> rows[j].id == before[j].id;
      }
    }
  }
}
