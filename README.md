# Clinical program management: a verified model of its rules

HealthInformationSystem is a small clinical-program application. Doctors
register client (patient) records, define programs, and enroll clients into
programs. Each enrollment has a status (ACTIVE, COMPLETED, DROPPED). Staff
accounts register and log in, and bearer tokens guard the routes. This
project models the rules that code actually implements, and proves what
they promise:

- the enrollment, client and program services, each as a table (a class
  holding a sequence of rows) with create, update and delete methods and
  pure query functions: paging, search, listings, newest-first ordering;
- registration and login (`auth.service.ts`), and the two request guards
  (`auth.middleware.ts`) that extract, verify and check a bearer token;
- the browser's session state (the Redux auth slice) and its reducers;
- the pure helpers of the client and enrollment pages: the registration
  schema, the allergy parser, the two search filters, and the create guard.

Layout, one module per file:

| file | module | models |
|---|---|---|
| `wrappers.dfy` | `Wrappers` | `Option`, `Result` |
| `seqs.dfy` | `Seqs` | filtering, first-match lookup, key uniqueness |
| `text.dfy` | `Text` | JavaScript `split`, `join`, `trim`, `toLowerCase`, `includes` |
| `records.dfy` | `Records` | the stored rows: users, clients, programs, enrollments |
| `auth_service.dfy` | `AuthService` | `register`, `login` |
| `auth_middleware.dfy` | `AuthMiddleware` | `authenticateToken`, `authorizeDoctor` |
| `program_service.dfy` | `ProgramService` | the program catalog |
| `client_service.dfy` | `ClientService` | the client registry |
| `enrollment_service.dfy` | `EnrollmentService` | the enrollment table |
| `auth_slice.dfy` | `AuthSlice` | the client-side session state |
| `clients_page.dfy` | `ClientsPage` | schema, allergy parser, client filter |
| `enrollments_page.dfy` | `EnrollmentsPage` | enrollment filter, create handler |

Foreign code appears as parameters the model knows nothing about:

- bcrypt's `hash` and `compare`, with the random salt passed in;
- `jwt.sign` and `jwt.verify`, each given the current time: signing stamps the token with it and with its expiry, and verifying can refuse an expired token;
- zod's email test;
- the clock (`now`);
- the server's answers to the pages' requests.

The relational store is modelled as in-memory tables. Ids are numbers that
each table issues from a counter. The only refusal the store makes on its own
is an update or delete of an absent row (`RecordNotFound`), plus a negative
paging offset (`InvalidArgument`).

The code makes none of these checks:

- `enrollClientInProgram` does not check that the client and the program exist, nor that the pair is new;
- `searchClients("")` does not refuse the empty query; it returns every client, because the empty string occurs in every first name;
- listing a program's enrollments does not refuse an unknown program.

## Model

| member | source | states |
|---|---|---|
| AuthService.FindUserByEmail | backend/src/service/auth.service.ts:12-16 | the user with that email if there is one; none exactly when no user has it |
| AuthService.UserTable.Register | backend/src/service/auth.service.ts:9-49 | fails with "A user with this username already exists." exactly when the email is taken, leaving the table unchanged; otherwise appends exactly one user with a fresh id, the given email, full name and role (DOCTOR by default), the bcrypt hash of the password and the current time, returns that row with "User Registered Successfully", and keeps ids and emails unique |
| AuthService.Login | backend/src/service/auth.service.ts:51-100 | "User not found" when no user has the email; "Invalid Password" when the stored hash does not match; otherwise a token signed over exactly {email, id, role} of that user at the current time for one hour, and a summary holding id, email, role and full name with no password |
| AuthService.WrongPasswordNoToken | backend/src/service/auth.service.ts:71-74 | a password that does not match the stored hash yields a failure, never a token |
| AuthService.FindUserById | backend/src/middleware/auth.middleware.ts:46-48 | the user with that id if there is one; none exactly when no user has it |
| AuthMiddleware.BearerToken | backend/src/middleware/auth.middleware.ts:17-18 | no header gives no token; a token, when there is one, is non-empty and holds no space |
| AuthMiddleware.BearerTokenIsSecondPiece | backend/src/middleware/auth.middleware.ts:18 | for "scheme token" followed by nothing or by a space and more, the token is the second space-separated piece |
| AuthMiddleware.EmptySecondPieceNoToken | backend/src/middleware/auth.middleware.ts:18-22 | a header whose scheme is followed by a space and then nothing or another space has an empty, falsy second piece and so no token; with the two lemmas beside it, this decides every header |
| AuthMiddleware.NoSpaceNoToken | backend/src/middleware/auth.middleware.ts:18-22 | a header without a space carries no token |
| AuthMiddleware.Authenticate | backend/src/middleware/auth.middleware.ts:16-32 | 401 "Access denied" without a token; 403 "Invalid token" when verification fails; otherwise proceed with the decoded payload |
| AuthMiddleware.AuthorizeDoctor | backend/src/middleware/auth.middleware.ts:35-58 | 401 "Access denied" without a token; proceeds exactly when the token verifies and the user stored under the token's id has role DOCTOR; a verification error gives 401 with its message; any other refusal is 403 "Forbidden:Only doctors can perfom this action" with `req.user` already set |
| AuthMiddleware.RoleClaimIgnored | backend/src/middleware/auth.middleware.ts:46-50 | two tokens that decode to the same id and email get the same decision whatever role they claim |
| AuthMiddleware.StaleDoctorTokenRefused | backend/src/middleware/auth.middleware.ts:44-52 | a token claiming DOCTOR for a user whose stored role is ADMIN is refused with 403 |
| AuthMiddleware.Exchange.AuthenticateToken | backend/src/middleware/auth.middleware.ts:16-32 | calls `next` exactly once or sends exactly one response, never both; `req.user` is the decoded payload when it proceeds |
| AuthMiddleware.Exchange.AuthorizeDoctorGuard | backend/src/middleware/auth.middleware.ts:35-58 | calls `next` exactly once or sends exactly one response, never both, as `AuthorizeDoctor` decides; `req.user` is the decoded payload when it proceeds or when the role check refuses, and is left as it was on the 401 paths |
| ProgramService.InsertByDate | backend/src/service/program.service.ts:21-23 | placing a program into a newest-first list keeps it newest first and adds exactly that program |
| ProgramService.KeepHeadInFront | backend/src/service/program.service.ts:21-23 | a program older than the head of a newest-first list goes behind it, and the list stays newest first with exactly that program added |
| ProgramService.SortNewestFirst | backend/src/service/program.service.ts:21-23 | the result is ordered by creation time, most recent first, and is a permutation of the input |
| ProgramService.FindProgram | backend/src/service/program.service.ts:27-29 | the program with that id if there is one; none exactly when no program has it |
| ProgramService.Creator | backend/src/service/program.service.ts:17-19 | the creator's id and full name only, present exactly when a user has that id |
| ProgramService.GetAllPrograms | backend/src/service/program.service.ts:14-25 | every stored program exactly once (a permutation of the table), newest first, each with its creator summary |
| ProgramService.GetProgramById | backend/src/service/program.service.ts:27-36 | that program with its creator summary, or nothing exactly when no program has the id |
| ProgramService.Patched | backend/src/service/program.service.ts:38-43 | the supplied name and description replace the old ones; id, creation time and creator are kept |
| ProgramService.ProgramTable.CreateProgram | backend/src/service/program.service.ts:4-12 | appends exactly one program with a fresh id and exactly the given name, description and creator |
| ProgramService.ProgramTable.UpdateProgram | backend/src/service/program.service.ts:38-43 | refuses an absent id and changes nothing; otherwise patches only that program and leaves every other row as it was |
| ProgramService.ProgramTable.DeleteProgram | backend/src/service/program.service.ts:45-49 | refuses an absent id and changes nothing; otherwise removes exactly the rows with that id and keeps the rest in order |
| ProgramService.DeleteRemovesOnlyThatProgram | backend/src/service/program.service.ts:45-49 | deleting keeps every other program, keeps none with that id, and keeps the order |
| ClientService.NewClient | backend/src/service/client_management.service.ts:4-11 | the new row carries every field of the payload (names, birth date, gender, address, phone, email, history), an empty allergy list when none is given, and `registeredById` set to the caller whatever the payload said |
| ClientService.ClientTable.RegisterClient | backend/src/service/client_management.service.ts:4-11 | appends exactly one client with a fresh id, built as `NewClient` says |
| ClientService.Window | backend/src/service/client_management.service.ts:16-20 | `skip`/`take`: at most `take` elements, those at positions `skip`, `skip + 1`, ... of the input |
| ClientService.GetClients | backend/src/service/client_management.service.ts:14-23 | a negative offset `(page - 1) * pageSize` is refused; otherwise at most `pageSize` matching clients starting at that offset, and a total equal to the number of all matching clients whatever the page |
| ClientService.FirstPageStartsAtZero | backend/src/service/client_management.service.ts:15-20 | page 1 is the first `pageSize` matching clients |
| ClientService.PageOffsetsApart | backend/src/service/client_management.service.ts:15 | a later page starts at least one page size after an earlier one |
| ClientService.PagesDisjoint | backend/src/service/client_management.service.ts:15-20 | two different pages of the same size share no client |
| ClientService.GetClientById | backend/src/service/client_management.service.ts:25-29 | the client with that id, or null exactly when no client has it |
| ClientService.Patched | backend/src/service/client_management.service.ts:31-36 | each field present in the update, address and history included, is written (a nullable one possibly to null), and every absent field is kept; id, registration date and registering user are kept; an empty update changes nothing |
| ClientService.ClientTable.UpdateClient | backend/src/service/client_management.service.ts:31-36 | refuses an absent id and changes nothing; otherwise patches only that client and leaves every other row as it was |
| ClientService.SearchClients | backend/src/service/client_management.service.ts:38-48 | exactly the clients whose first name, last name, non-null phone or non-null email contains the query ignoring case, in the order the table holds them; a matching row occurs as often as in the input |
| ClientService.EmptySearchReturnsAll | backend/src/service/client_management.service.ts:38-48 | the empty query returns the whole table |
| EnrollmentService.NewEnrollment | backend/src/service/enrollment.service.ts:5-10 | the new row carries the payload's client, program, notes, status (ACTIVE by default) and date (now by default), and `enrolledById` set to the caller whatever the payload said |
| EnrollmentService.EnrollmentTable.Enroll | backend/src/service/enrollment.service.ts:5-16 | appends exactly one enrollment with a fresh id, leaves every existing row unchanged, and returns it with the client and program it names |
| EnrollmentService.ClientEnrollments | backend/src/service/enrollment.service.ts:19-24 | exactly the enrollments of that client, in the order the table holds them, each with its program; possibly none; a matching row occurs as often as in the input |
| EnrollmentService.ProgramEnrollments | backend/src/service/enrollment.service.ts:26-31 | exactly the enrollments of that program, in the order the table holds them, each with its client; a matching row occurs as often as in the input |
| EnrollmentService.WithStatus | backend/src/service/enrollment.service.ts:33-38 | only the status of the rows with that id differs, and it is the requested one |
| EnrollmentService.UpdateStatusIdempotent | backend/src/service/enrollment.service.ts:33-38 | setting the same status twice gives the table that setting it once gives |
| EnrollmentService.AnyStatusFollows | backend/src/service/enrollment.service.ts:33-38 | whatever the current status, the enrollment ends with exactly the requested one |
| EnrollmentService.EnrollmentTable.UpdateStatus | backend/src/service/enrollment.service.ts:33-38 | refuses an absent id and changes nothing; otherwise the table becomes `WithStatus` of the old one and the returned row has the new status |
| EnrollmentService.EnrollmentTable.Delete | backend/src/service/enrollment.service.ts:41-45 | refuses an absent id and changes nothing; otherwise removes exactly the row with that id and keeps the rest in order |
| EnrollmentService.DeletedNotListed | backend/src/service/enrollment.service.ts:41-45 | after a deletion neither the per-client nor the per-program listing returns the deleted enrollment |
| AuthSlice.RegisterRejection | frontend/Utils/Redux/auth/AuthSlice.ts:13 | the payload is `error.message.data` when that is truthy and "Registration failed" otherwise, so always the fallback when `message` is not an object |
| AuthSlice.RequestErrorRegisterRejection | frontend/Utils/Redux/auth/AuthSlice.ts:13 | a request error, whose message is a string, always rejects with "Registration failed", whatever the server answered |
| AuthSlice.LoginRejection | frontend/Utils/Redux/auth/AuthSlice.ts:26 | the server's message when present and non-empty, otherwise "Login failed. Invalid Credentials" |
| AuthSlice.RefusedLoginReportsServerMessage | frontend/Utils/Redux/auth/AuthSlice.ts:26 | a refused login whose answer carries a message rejects with that message |
| AuthSlice.Reduce | frontend/Utils/Redux/auth/AuthSlice.ts:44-81 | pending sets loading and clears the error; fulfilled clears loading and takes user and token from the answer; rejected clears loading and stores the payload as the error; logout clears user, token and error and keeps loading; every other field is kept |
| AuthSlice.FamiliesAgree | frontend/Utils/Redux/auth/AuthSlice.ts:53-81 | register and login actions have the same effect |
| AuthSlice.RegistrationLeavesNoToken | frontend/Utils/Redux/auth/AuthSlice.ts:57-61 | an answer of the form `{ message, user }` stores that user and an undefined token |
| AuthSlice.LoadingIffRequestInFlight | frontend/Utils/Redux/auth/AuthSlice.ts:53-81 | after any sequence of actions, loading holds exactly when the latest action other than logout is a pending one |
| AuthSlice.ErrorComesFromRejection | frontend/Utils/Redux/auth/AuthSlice.ts:32-81 | from the initial state, a non-null error is always the payload of some rejected action |
| AuthSlice.SessionKeptWithoutFulfilOrLogout | frontend/Utils/Redux/auth/AuthSlice.ts:53-81 | pending and rejected actions never change the user or the token |
| AuthSlice.AuthStore.constructor | frontend/Utils/Redux/auth/AuthSlice.ts:32-37 | user null, token null, loading false, error null |
| AuthSlice.AuthStore.Logout | frontend/Utils/Redux/auth/AuthSlice.ts:44-48 | the state becomes `Reduce` of the old one under logout |
| AuthSlice.AuthStore.Pending | frontend/Utils/Redux/auth/AuthSlice.ts:53-56 | loading set, error cleared, nothing else changed |
| AuthSlice.AuthStore.Fulfilled | frontend/Utils/Redux/auth/AuthSlice.ts:57-61 | loading cleared, user and token taken from the answer, error kept |
| AuthSlice.AuthStore.Rejected | frontend/Utils/Redux/auth/AuthSlice.ts:62-65 | loading cleared, error set to the payload, user and token kept |
| AuthSlice.AuthStore.Dispatch | frontend/Utils/Redux/auth/AuthSlice.ts:50-81 | the new state is `Reduce` of the old state and the action |
| Text.Trim | frontend/src/pages/Clients.tsx:123 | the result has no leading or trailing whitespace and is no longer than the input |
| Text.TrimRemovesOnlyWhitespace | frontend/src/pages/Clients.tsx:123 | the trimmed string is a slice of the input with only whitespace before and after it |
| Text.TrimAddsNothing | frontend/src/pages/Clients.tsx:123 | trimming introduces no character, so a comma-free piece stays comma-free |
| Text.Lower | frontend/src/pages/Clients.tsx:150-155 | `toLowerCase` keeps the length and lower-cases each character; no upper-case letter remains |
| Text.LowerIdempotent | frontend/src/pages/Clients.tsx:150-155 | lower-casing twice is lower-casing once |
| Text.IncludesAt | frontend/src/pages/Clients.tsx:150-155 | `includes` holds exactly when the substring occurs at some position of the string |
| Text.QueryCaseIrrelevant | backend/src/service/client_management.service.ts:42-45 | in a case-insensitive search the query's case makes no difference |
| Text.EmptyQueryMatches | backend/src/service/client_management.service.ts:42 | the empty query occurs in every string, whatever its case |
| Text.Split | frontend/src/pages/Clients.tsx:123 | at least one piece; no piece holds the separator; joining the pieces gives back the input |
| Text.SplitOfJoin | frontend/src/pages/Clients.tsx:123 | splitting undoes joining when no piece holds the separator |
| ClientsPage.GenderOf | frontend/src/pages/Clients.tsx:45 | a gender exactly for "MALE", "FEMALE" and "OTHER" |
| ClientsPage.SchemaIssues | frontend/src/pages/Clients.tsx:41-54 | reports "First name must be at least 2 characters" exactly when the first name is shorter than 2, likewise the last name, a gender issue exactly when the gender is not one of the three, and an email issue exactly when an email is given that is neither "" nor valid |
| ClientsPage.OptionalFieldsNeverRefused | frontend/src/pages/Clients.tsx:41-54 | the schema accepts exactly when both names are long enough, the gender is known and the email is acceptable; address, phone, history, allergies and birth date never cause a refusal |
| ClientsPage.AllergyPieces | frontend/src/pages/Clients.tsx:123 | the i-th piece is the trimmed i-th comma-separated piece of the input, so each is trimmed and comma-free |
| ClientsPage.ParseAllergies | frontend/src/pages/Clients.tsx:123 | exactly the non-empty trimmed pieces, in typed order, each as many times as it was typed; each is non-empty, comma-free and has no surrounding whitespace |
| ClientsPage.SingleAllergy | frontend/src/pages/Clients.tsx:123 | a trimmed comma-free entry parses to itself alone |
| ClientsPage.EmptyFieldNoAllergies | frontend/src/pages/Clients.tsx:123 | an empty allergy field gives the empty list |
| ClientsPage.PiecesOfJoined | frontend/src/pages/Clients.tsx:123 | comma-free trimmed entries joined with "," split and trim back into exactly those entries |
| ClientsPage.ReparseJoined | frontend/src/pages/Clients.tsx:123 | joining the parsed list with "," and parsing again gives the same list |
| ClientsPage.FilteredClients | frontend/src/pages/Clients.tsx:150-155 | exactly the clients whose first name, last name or non-empty email contains the query ignoring case (the phone is not searched), in list order; a matching row occurs as often as in the input |
| ClientsPage.EmptyQueryShowsAll | frontend/src/pages/Clients.tsx:150-155 | an empty search box shows every client |
| EnrollmentsPage.FilteredEnrollments | frontend/src/pages/Enrollments.tsx:214-219 | exactly the enrollments whose client first name, client last name or program name contains the query ignoring case, in list order; a matching row occurs as often as in the input |
| EnrollmentsPage.EmptyQueryShowsAll | frontend/src/pages/Enrollments.tsx:214-219 | an empty search box shows every enrollment |
| EnrollmentsPage.RequestFor | frontend/src/pages/Enrollments.tsx:139-153 | a request is made exactly when both a client and a program are selected, and it names those two |
| EnrollmentsPage.HandleCreateEnrollment | frontend/src/pages/Enrollments.tsx:138-173 | without both selections only the "Please select both a client and program" toast; after an accepted request the dialog closes and both selections are reset to ""; after a refused one the state is unchanged; the success or error toast carries the server's message or the fallback; when no answer arrives, reading the missing response throws, no toast appears and the state is unchanged |
| EnrollmentsPage.NoRepeatAfterSuccess | frontend/src/pages/Enrollments.tsx:155-158 | after a successful create, submitting again without a new selection makes no request |
| EnrollmentsPage.RetryAfterFailure | frontend/src/pages/Enrollments.tsx:164-172 | after a refused or unanswered create the same request can be sent again |

## Left out

- Ids: the store issues string ids; the model uses natural numbers that each table issues from a counter.
- Store failures other than an absent row or a negative offset are not modelled. These include connection errors, foreign-key violations in `enrollClientInProgram`, and a unique-key violation when two registrations race. The schema that would raise them is not part of this model.
- EnrollmentService.EnrollmentTable.Enroll: returns the client and program it names, or none if they are absent. The store's foreign keys would refuse such a row, but they are not visible in the service.
- ClientService.GetClients: `pageSize` is a natural number. The store's reading of a negative `take` (rows counted from the end) is not modelled. Neither is a non-numeric `page` (NaN).
- ClientService.GetClients: the `filters` where-clause is an arbitrary predicate; its only caller passes `{}`.
- ClientService.Patched, ProgramService.Patched: `updateClient` and `updateProgram` receive the whole request body (backend/src/controller/client_management.controller.ts:47, backend/src/controller/program.controller.ts:57), so a caller could also overwrite `registeredById`, `registrationDate`, `createdById` or `createdAt`. The model's patches hold only the editable fields, and the contracts prove the others kept.
- ClientService.GetClients, ClientService.SearchClients, EnrollmentService.ClientEnrollments, EnrollmentService.ProgramEnrollments: these queries name no order, so the store may return rows in any order. The model returns them in the order the table holds them. ClientService.PagesDisjoint therefore assumes that two page queries see the same order.
- ClientService.ClientPayload: the spread payload has a fixed set of fields. Extra keys a caller could smuggle in (`id`, `registrationDate`) are not modelled; the same holds for `EnrollmentService.EnrollmentPayload`.
- ProgramService.SortNewestFirst: the order among programs with equal creation times is left open. The store does not fix it, and the contract does not state it.
- EnrollmentService.DefaultStatus, EnrollmentService.NewEnrollment: ACTIVE as the default status and the current time as the default enrollment date are column defaults of the schema, which is not part of this model. ACTIVE is also the status the pages preselect (frontend/src/pages/Enrollments.tsx:84).
- ProgramService.ProgramTable.DeleteProgram: deleting a program that still has enrollments leaves the enrollment table untouched. Whether the store would refuse the delete (a foreign key) or cascade to the enrollments depends on the schema, which is not part of this model.
- AuthService.DefaultRole: the schema default for `role` is not part of this model. DOCTOR is taken from the fallback in the commented-out email call (backend/src/service/auth.service.ts:38).
- AuthMiddleware.AuthorizeDoctor: a store failure during the role lookup (also answered 401 with its message) is not modelled; only verification failures are.
- bcrypt and JSON Web Tokens are opaque functions. Nothing about collisions, expiry times or signatures is assumed.
- Controllers and routers (HTTP status glue) are not modelled. One consequence: a duplicate registration surfaces as 500, not 409. The controller compares the error with "A user with this email already exists." (backend/src/controller/auth.controller.ts:16), but the service throws "…username already exists."
- The controller also requires a non-empty search query and a status, and defaults page and page size to 1 and 10. The services are modelled as they stand.
- `getAllEnrollments` is called by a controller but not defined in the service, so it is not modelled.
- E-mail notification (backend/src/Utils/email.ts) is not modelled; its only call is commented out.
- The dashboard's success rate (frontend/src/pages/Index.tsx) is a floating-point computation and is not modelled.
- Rendering, hooks, network calls, local storage and toasts are not modelled. The one exception is the create handler's toast. The list refresh after a create is not modelled.
- Text.Lower: lower-casing covers ASCII letters only. JavaScript's and the database's Unicode case mapping is not modelled.
- ClientsPage.SchemaIssues: lengths count characters, where the validation library counts UTF-16 code units; the two differ on characters outside the Basic Multilingual Plane. The email test is a parameter. Issue messages other than the two name messages are left abstract.
- AuthSlice: the actions' `meta` and `error` fields are not modelled. A fulfilled answer is taken to be a JSON object.
- Concurrency is not modelled. `register` reads and then inserts, and two calls racing on one email are left to the store.
