/**
 * The stored entities of the clinical-program application: users, clients
 * (patients), programs and enrollments, as rows of the relational store, and
 * the two ways the store itself can refuse a query.
 */
module Records {
  import opened Wrappers

  /** A row identifier assigned by the store. */
  type Id = nat

  /** Instants (`createdAt`, `enrollmentDate`, ...) as an ordered number. */
  type Instant = int

  datatype Role = Doctor | Admin

  datatype Gender = Male | Female | OtherGender

  /** The enrollment lifecycle; any status may follow any other. */
  datatype Status = Active | Completed | Dropped

  /** A staff account; `password` holds the stored hash, never the plain password. */
  datatype User = User(
    id: Id,
    email: string,
    password: string,
    fullName: string,
    role: Role,
    createdAt: Instant)

  /** A patient record; the optional columns are nullable. */
  datatype Client = Client(
    id: Id,
    firstName: string,
    lastName: string,
    dateOfBirth: string,
    gender: Gender,
    street: Option<string>,
    city: Option<string>,
    state: Option<string>,
    postalCode: Option<string>,
    phone: Option<string>,
    email: Option<string>,
    medicalHistory: Option<string>,
    allergies: seq<string>,
    registrationDate: Instant,
    registeredById: Id)

  datatype Program = Program(
    id: Id,
    name: string,
    description: Option<string>,
    createdAt: Instant,
    createdById: Id)

  /** The join row linking one client to one program. */
  datatype Enrollment = Enrollment(
    id: Id,
    clientId: Id,
    programId: Id,
    enrolledById: Id,
    enrollmentDate: Instant,
    status: Status,
    notes: Option<string>)

  /** Errors the store raises on its own: an `update`/`delete` whose row is absent, a malformed query. */
  datatype StoreError = RecordNotFound | InvalidArgument

  function UserId(u: User): Id { u.id }
  function ClientId(c: Client): Id { c.id }
  function ProgramId(p: Program): Id { p.id }
  function EnrollmentId(e: Enrollment): Id { e.id }
}
