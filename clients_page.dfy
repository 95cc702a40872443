/**
 * The pure parts of the client page (frontend/src/pages/Clients.tsx): the
 * registration form's schema, the parsing of the comma-separated allergy
 * field, and the client list's search filter. Whether a string is a valid
 * email address is the validation library's business and appears as a
 * parameter.
 */
module ClientsPage {
  import opened Wrappers
  import opened Seqs
  import opened Text
  import opened Records

  /** The registration form's values as the schema receives them; absent optional fields are `None`. */
  datatype ClientForm = ClientForm(
    firstName: string,
    lastName: string,
    dateOfBirth: string,
    gender: string,
    street: Option<string>,
    city: Option<string>,
    state: Option<string>,
    postalCode: Option<string>,
    phone: Option<string>,
    email: Option<string>,
    medicalHistory: Option<string>,
    allergies: Option<seq<string>>)

  /** What the schema can report. */
  datatype Issue =
    | TooShort(field: string, message: string)
    | InvalidGender
    | InvalidEmail

  const MinNameLength: nat := 2
  const FirstNameTooShort := TooShort("firstName", "First name must be at least 2 characters")
  const LastNameTooShort := TooShort("lastName", "Last name must be at least 2 characters")

  /** `z.enum(["MALE", "FEMALE", "OTHER"])`. */
  function GenderOf(g: string): (r: Option<Gender>)
    ensures r.Some? <==> g == "MALE" || g == "FEMALE" || g == "OTHER"
    ensures r == Some(Male) <==> g == "MALE"
    ensures r == Some(Female) <==> g == "FEMALE"
    ensures r == Some(OtherGender) <==> g == "OTHER"
  {
    if g == "MALE" then Some(Male)
    else if g == "FEMALE" then Some(Female)
    else if g == "OTHER" then Some(OtherGender)
    else None
  }

  /** `z.string().email().optional().or(z.literal(""))`. */
  predicate EmailAccepted(email: Option<string>, isEmail: string -> bool) {
    email.None? || email.value == "" || isEmail(email.value)
  }

  /**
   * `clientSchema`: every issue with the form, in field order. Date of
   * birth, address, phone, history and allergies accept any value or none.
   */
  function SchemaIssues(form: ClientForm, isEmail: string -> bool): (r: seq<Issue>)
    ensures FirstNameTooShort in r <==> |form.firstName| < MinNameLength
    ensures LastNameTooShort in r <==> |form.lastName| < MinNameLength
    ensures InvalidGender in r <==> GenderOf(form.gender).None?
    ensures InvalidEmail in r <==> !EmailAccepted(form.email, isEmail)
    ensures forall i :: 0 <= i < |r| ==> r[i] in [FirstNameTooShort, LastNameTooShort, InvalidGender, InvalidEmail]
  {
    (if |form.firstName| < MinNameLength then [FirstNameTooShort] else [])
    + (if |form.lastName| < MinNameLength then [LastNameTooShort] else [])
    + (if GenderOf(form.gender).None? then [InvalidGender] else [])
    + (if !EmailAccepted(form.email, isEmail) then [InvalidEmail] else [])
  }

  /** The schema accepts a form exactly when it reports no issue. */
  predicate Accepts(form: ClientForm, isEmail: string -> bool) {
    SchemaIssues(form, isEmail) == []
  }

  /** Only the two names, the gender and the email can make the schema refuse a form. */
  lemma OptionalFieldsNeverRefused(form: ClientForm, isEmail: string -> bool)
    ensures Accepts(form, isEmail) <==>
      && |form.firstName| >= MinNameLength && |form.lastName| >= MinNameLength
      && GenderOf(form.gender).Some? && EmailAccepted(form.email, isEmail)
    ensures Accepts(form, isEmail) ==>
      Accepts(form.(street := None, city := None, state := None, postalCode := None,
                    phone := None, medicalHistory := None, allergies := None, dateOfBirth := ""), isEmail)
  {
    var r := SchemaIssues(form, isEmail);
    if !Accepts(form, isEmail) {
      assert r[0] in r;
    }
  }

  /** Each piece trimmed. */
  function TrimAll(xs: seq<string>): (r: seq<string>)
    ensures |r| == |xs| && forall i :: 0 <= i < |xs| ==> r[i] == Trim(xs[i])
  {
    seq(|xs|, i requires 0 <= i < |xs| => Trim(xs[i]))
  }

  predicate NonEmpty(s: string) {
    s != ""
  }

  /** The pieces of the allergy text: split on commas, each trimmed. */
  function AllergyPieces(input: string): (r: seq<string>)
    ensures |r| >= 1
    ensures |r| == |Split(input, ',')| && forall i :: 0 <= i < |r| ==> r[i] == Trim(Split(input, ',')[i])
    ensures forall i :: 0 <= i < |r| ==> IsTrimmed(r[i]) && ',' !in r[i]
  {
    var pieces := Split(input, ',');
    var r := TrimAll(pieces);
    forall i | 0 <= i < |r| ensures ',' !in r[i] {
      TrimAddsNothing(pieces[i], ',');
    }
    r
  }

  /**
   * `allergiesInput.split(",").map(trim).filter(non-empty)`: the non-empty
   * trimmed pieces, in the order they were typed, repeated ones included.
   */
  function ParseAllergies(input: string): (r: seq<string>)
    ensures forall i :: 0 <= i < |r| ==> r[i] != "" && ',' !in r[i] && IsTrimmed(r[i])
    ensures forall i :: 0 <= i < |AllergyPieces(input)| && AllergyPieces(input)[i] != "" ==> AllergyPieces(input)[i] in r
    ensures SubsequenceOf(r, AllergyPieces(input))
    ensures forall x :: multiset(r)[x] == if x == "" then 0 else multiset(AllergyPieces(input))[x]
  {
    var pieces := AllergyPieces(input);
    FilterIsSubsequence(NonEmpty, pieces);
    NonEmptyCounts(pieces);
    Filter(NonEmpty, pieces)
  }

  /** Dropping the empty strings keeps every other string as often as it occurs. */
  lemma NonEmptyCounts(xs: seq<string>)
    ensures forall x :: multiset(Filter(NonEmpty, xs))[x] == if x == "" then 0 else multiset(xs)[x]
  {
    FilterCounts(NonEmpty, xs);
  }

  /** Text without commas and without surrounding whitespace parses to itself alone. */
  lemma SingleAllergy(input: string)
    requires input != "" && ',' !in input && IsTrimmed(input)
    ensures ParseAllergies(input) == [input]
  {
    SplitWithoutSeparator(input, ',');
    TrimOfTrimmed(input);
    assert AllergyPieces(input) == [input];
  }

  /** Comma-free trimmed entries joined with commas split and trim back into themselves. */
  lemma PiecesOfJoined(xs: seq<string>)
    requires |xs| >= 1
    requires forall i :: 0 <= i < |xs| ==> ',' !in xs[i] && IsTrimmed(xs[i])
    ensures AllergyPieces(Join(xs, ',')) == xs
  {
    SplitOfJoin(xs, ',');
    forall i | 0 <= i < |xs| ensures Trim(xs[i]) == xs[i] {
      TrimOfTrimmed(xs[i]);
    }
  }

  /** An empty field gives no allergies. */
  lemma EmptyFieldNoAllergies()
    ensures ParseAllergies("") == []
  {
    assert Split("", ',') == [""];
    assert AllergyPieces("") == [""];
  }

  /** Joining the parsed list with commas and parsing again gives the same list. */
  lemma ReparseJoined(input: string)
    ensures ParseAllergies(Join(ParseAllergies(input), ',')) == ParseAllergies(input)
  {
    var parsed := ParseAllergies(input);
    if parsed == [] {
      EmptyFieldNoAllergies();
    } else {
      PiecesOfJoined(parsed);
      FilterKeepsAll(NonEmpty, parsed);
    }
  }

  /**
   * `filteredClients`: the query occurs, ignoring case, in the first name,
   * the last name or a non-empty email. The phone is not searched.
   */
  predicate ShownFor(c: Client, query: string) {
    || IncludesIgnoringCase(c.firstName, query)
    || IncludesIgnoringCase(c.lastName, query)
    || (c.email.Some? && c.email.value != "" && IncludesIgnoringCase(c.email.value, query))
  }

  function ShownCondition(query: string): Client -> bool {
    (c: Client) => ShownFor(c, query)
  }

  /** The client list as displayed for a search box holding `query`. */
  function FilteredClients(clients: seq<Client>, query: string): (r: seq<Client>)
    ensures forall i :: 0 <= i < |r| ==> r[i] in clients && ShownFor(r[i], query)
    ensures forall i :: 0 <= i < |clients| && ShownFor(clients[i], query) ==> clients[i] in r
    ensures SubsequenceOf(r, clients)
    ensures forall c :: multiset(r)[c] == if ShownFor(c, query) then multiset(clients)[c] else 0
  {
    FilterIsSubsequence(ShownCondition(query), clients);
    FilterCounts(ShownCondition(query), clients);
    Filter(ShownCondition(query), clients)
  }

  /** An empty search box shows everyone. */
  lemma EmptyQueryShowsAll(clients: seq<Client>)
    ensures FilteredClients(clients, "") == clients
  {
    forall i | 0 <= i < |clients| ensures ShownCondition("")(clients[i]) {
      EmptyQueryMatches(clients[i].firstName);
    }
    FilterKeepsAll(ShownCondition(""), clients);
  }
}
