# Access control and record mutation of the architecture-system backend

This project is a Dafny model of the server core of a project-management
backend for architects, their clients and admins. It covers:

- the meeting, document, project and account handlers;
- the `auth` and `authorize` middlewares;
- the request validators;
- the Mongoose schemas of users, meetings, documents and projects;
- the string helpers of the server and the client.

Each handler is a chain of early-return checks followed by at most one change
to a store. The model keeps that shape:

- Each controller is a `class` whose store is a field of type
  `map<Id, Record>`.
- Each handler is a method. It returns the handler's status code and message,
  and it states in its `ensures` exactly what the store becomes.
- The pure parts are functions with lemmas about them. These are the
  authorization predicates, the listing filters, `Object.assign`, the version
  bump, the note prepend, the token extraction and the role gate.
- The validators are methods that append messages one check after another,
  as the source pushes them. They are proved against a function `Failures`
  over the list of checks.

The modules, one per file:

| module | file | models |
|---|---|---|
| `Common` | common.dfy | ids, `Option`, JavaScript truthiness of strings, replies |
| `Text` | text.dfy | `trim`, the `\s` class, `split(' ')`, `join`, ASCII case mapping |
| `ServerUtils` | server_utils.dfy | server/utils/index.js |
| `ClientUtils` | client_utils.dfy | client/src/utils/index.js |
| `UserModel`, `MeetingModel`, `DocumentModel`, `ProjectModel` | *_model.dfy | server/models/*.js |
| `Listing` | listing.dfy | `find(filter).sort({key: -1}).skip().limit()` plus `countDocuments` |
| `Validators` | validators.dfy | server/validators/index.js |
| `Meetings`, `Documents`, `Projects`, `Auth` | *_controller.dfy | server/controllers/*.js |
| `Authorize` | authorize.dfy | server/middlewares/authorize.js and the project route gate |
| `AuthMiddleware` | auth_middleware.dfy | server/middlewares/auth.js |

Conventions:

- **Ids are strings.** The handlers compare ids through `toString()`, and
  `Project.client` is a plain string that the meeting and document handlers
  compare with the caller's id.
- **Absent keys.** An absent body or query key is `None`. `!x` on a string is
  `!Truthy(x)`, which holds for an absent value and for "".
- **Field names follow the controllers**, which differ from the schemas:
  - meetings store `creator` where the schema says `createdBy`;
  - documents store `uploader` and `public` where the schema says
    `uploadedBy` and `isPublic`;
  - `type` is a Dafny keyword, so the document field is `docType`.
- **The project record** has the schema's `owner` id and `client` string. It
  also has an optional `architect` id, which the meeting and document handlers
  read but the schema lacks.
  - `ProjectModel.MembershipOf` captures how those handlers treat a record:
    - a record without an architect makes `project.architect.toString()`
      throw, and the catch answers 400 with the TypeError's message;
    - otherwise the caller is a member iff they are the architect or the
      client.
  - A missing project passed to getDocumentById makes the same read throw on
    `null`, which also answers 400.
- **No fixes.** The code is modelled as written:
  - there is no admin override on any mutation;
  - the creator of a meeting is not added to a nonempty participant list;
  - getDocuments has no access filter;
  - getDocumentVersions has no authorization at all.

Some behaviours of the code that a reader might not expect, each modelled as
written:

- **Meeting participants.** A given nonempty participant list is stored as it
  is; the creator is not added (`Meetings.CreatorSeesNewMeeting`).
- **Project rights.** Every project query is scoped to `owner`. Anyone else,
  the project's architect or client included, gets the same 404 as for a
  missing project.
- **Self-registration.** register with a role other than "admin" skips the
  admin-code check. A role in the enum then creates that account, from which
  addArchitect and addClient differ only in their caller checks; a role
  outside the enum fails the save with 500 (`Auth.AuthController.Register`).
- **Document versions.** A `version` key in the update body overwrites the
  stored version, after the bump for a new file URL
  (`Documents.UpdatedVersion` states the case without that key).

## Model

| member | source | states |
|---|---|---|
| `Text.Trim` | server/controllers/projectController.js:7 | the result neither starts nor ends with white space, and it is empty iff the input is all white space |
| `Text.TrimInfix` | server/validators/index.js:9 | what `trim` keeps is an infix of the input with only white space before and after it |
| `Text.TrimmedIsFixpoint` | server/models/Project.js:14 | the strings `trim` leaves unchanged are exactly those that neither start nor end with white space |
| `Text.TrimIdempotent` | server/controllers/projectController.js:58 | trimming twice is trimming once |
| `Text.IndexOf` | server/middlewares/auth.js:11 | the first position of a character, or the length when it is absent |
| `Text.Split` | client/src/utils/index.js:23 | `split` with one separator gives at least one piece, and no piece contains the separator |
| `Text.JoinSplit` | client/src/utils/index.js:23-25 | joining the pieces of a split gives back the string |
| `Text.SplitJoin` | client/src/utils/index.js:23-25 | splitting a join of separator-free pieces gives back the pieces |
| `Text.Upper` | client/src/utils/index.js:26 | upper-casing keeps the length, leaves no lower-case letter, keeps every other character, and maps a lower-case letter to the upper-case letter that lower-cases back to it |
| `Text.CaseIdempotent` | client/src/utils/index.js:26 | upper-casing twice is upper-casing once, and lower-casing twice is lower-casing once |
| `Text.CaseAbsorbs` | server/models/User.js:21 | lower-casing after upper-casing is lower-casing alone, and the other way round |
| `Text.Lower` | server/models/User.js:21 | lower-casing keeps the length, leaves no upper-case letter, keeps every other character, and maps an upper-case letter to the lower-case letter that upper-cases back to it |
| `ServerUtils.ValidateEmailIsPattern` | server/utils/index.js:7-8 | the computed check accepts exactly the strings `/^[^\s@]+@[^\s@]+\.[^\s@]+$/` matches |
| `ServerUtils.ValidateEmailShape` | server/utils/index.js:7-8 | an accepted string has no white space, exactly one '@' with a nonempty part before it, and a '.' strictly inside the part after it |
| `ServerUtils.SpaceRejected` | server/utils/index.js:7-8 | a string containing white space is rejected |
| `ServerUtils.SendResponse` | server/utils/index.js:17-24 | status and message are passed through, data defaults to none, and the time stamp is a parameter |
| `ClientUtils.ValidateEmail` | client/src/utils/index.js:15-18 | the client's check is the server's check, for every string |
| `ClientUtils.GetInitialsAreWordStarts` | client/src/utils/index.js:21-27 | the initials are the upper-cased characters that start a space-separated word, so empty pieces give nothing and "" gives "" |
| `ClientUtils.FirstLettersOfSplit` | client/src/utils/index.js:22-25 | taking the first character of every piece of `split(' ')` yields exactly the word-start characters |
| `ClientUtils.CapitalizeFirstLetter` | client/src/utils/index.js:30-32 | the length and every character after the first are kept, the first is upper-cased, and "" stays "" |
| `ClientUtils.TruncateText` | client/src/utils/index.js:35-38 | a text within the limit (default 50) is returned as is; a longer one becomes the first `length` characters plus "...", of length `length + 3`; a negative `length` keeps all but the last `-length` characters (none when that is more than the text), as `slice` does |
| `UserModel.ParseRole` | server/models/User.js:37-41 | a string names a role iff it is "admin", "architect" or "client" |
| `UserModel.ParseRoleName` | server/models/User.js:37-41 | every role parses back from its name |
| `UserModel.NewUser` | server/models/User.js:37-65 | a new user gets the given fields, role client by default, is active, and has no profile picture, company, address or specialization |
| `UserModel.View` | server/models/User.js:29-34 | what reads return is the user without its password |
| `UserModel.AddKeepsEmailsUnique` | server/models/User.js:17-23 | adding a user whose e-mail is free keeps the e-mails unique |
| `UserModel.ReplaceKeepsEmailsUnique` | server/models/User.js:17-23 | replacing a user by one with the same e-mail keeps the e-mails unique |
| `DocumentModel.StoredVersion` | server/controllers/documentController.js:195 | `version \|\| 1`: an absent or zero version reads as 1, any other as itself |
| `Listing.Insert` | server/controllers/meetingController.js:63 | inserting into a newest-first list keeps it newest first, adds exactly the new id, and keeps it free of repeats |
| `Listing.Select` | server/controllers/meetingController.js:55-63 | the ids returned are exactly the stored records that pass the filter, each once, in descending order of the sort key |
| `Listing.CeilDiv` | server/controllers/meetingController.js:75 | `Math.ceil(n / d)`: the least `q` with `q * d >= n` |
| `Listing.Paginate` | server/controllers/meetingController.js:59-76 | a page skips `(page - 1) * limit` matches and returns at most `limit` of them in order; `total` counts every match and `pages` is `ceil(total / limit)` |
| `Listing.PaginateCovers` | server/controllers/meetingController.js:59-76 | every match appears on the page its position puts it on, and that page is within `pages` |
| `Validators.FailuresInOrder` | server/validators/index.js:7-23 | the reported messages keep the order of the checks and never outnumber them |
| `Validators.FailuresReport` | server/validators/index.js:7-23 | with distinct messages, a check's message is reported iff the check fails |
| `Validators.SubsequenceDistinct` | server/validators/index.js:7-23 | a subsequence of distinct messages has distinct messages |
| `Validators.ReportsExactly` | server/validators/index.js:7-23 | for checks with distinct messages, the report is an ordered subsequence of the messages, without repeats, holding each message iff its check fails |
| `Validators.ValidateUserRegistration` | server/validators/index.js:6-29 | the errors are the messages of the failing checks, name, e-mail, password and phone in that order, and `isValid` holds iff there are none |
| `Validators.UserRegistrationErrors` | server/validators/index.js:9-23 | at most 4 distinct errors in the fixed order; name fails iff it is missing or shorter than 3 once trimmed, e-mail iff it is missing or fails the pattern, password iff it is missing or shorter than 6 as given, phone iff it is missing or shorter than 10 as given; no errors iff every rule holds |
| `Validators.UserReports` | server/validators/index.js:9-23 | the same facts over the four check outcomes taken as plain booleans |
| `Validators.ValidateProjectCreation` | server/validators/index.js:32-51 | the errors are the messages of the failing title, description and client-id checks in that order, and `isValid` holds iff there are none |
| `Validators.ProjectCreationErrors` | server/validators/index.js:35-45 | title fails iff shorter than 3 once trimmed, description iff shorter than 10 once trimmed, client id iff missing; in that order, each at most once |
| `Validators.ProjectReports` | server/validators/index.js:35-45 | the same facts over the three check outcomes taken as plain booleans |
| `Validators.ValidateMeetingCreation` | server/validators/index.js:54-73 | the errors are the messages of the failing title, date and participant checks in that order, and `isValid` holds iff there are none |
| `Validators.MeetingCreationErrors` | server/validators/index.js:57-67 | the date fails iff it is missing or strictly before `now` (a date equal to `now` passes); participants fail iff missing or empty; title iff shorter than 3 once trimmed |
| `Validators.MeetingReports` | server/validators/index.js:57-67 | the same facts over the three check outcomes taken as plain booleans |
| `Meetings.NewMeeting` | server/controllers/meetingController.js:23-33 | the new meeting has the caller as creator, status scheduled, duration `duration \|\| 60`, and the given participants when the list is nonempty, else exactly the caller |
| `Meetings.CreatorSeesNewMeeting` | server/controllers/meetingController.js:31 | the creator can read the new meeting iff the list was defaulted or already names them |
| `Meetings.NewMeetingValid` | server/models/Meeting.js:10-25 | a request with an accepted title and a date gives a meeting the schema accepts |
| `Meetings.Assign` | server/controllers/meetingController.js:127 | `Object.assign` overwrites exactly the fields the body names |
| `Meetings.AssignEmpty` | server/controllers/meetingController.js:127 | an empty body changes nothing |
| `Meetings.AssignIdempotent` | server/controllers/meetingController.js:127 | applying a body twice is applying it once |
| `Meetings.AssignCompose` | server/controllers/meetingController.js:127 | two bodies in a row act as one body in which the later keys win |
| `Meetings.WithParticipant` | server/controllers/meetingController.js:186-189 | the id is in the list afterwards; an id already present leaves the list unchanged; a new one is appended at the end, keeping the old order and keeping the list free of repeats |
| `Meetings.WithParticipantIdempotent` | server/controllers/meetingController.js:186-189 | adding the same participant again changes nothing |
| `Meetings.MeetingController.CreateMeeting` | server/controllers/meetingController.js:11-46 | 404 for an unknown project and 403 for a caller who is neither its architect nor its client, with 400 when it has no architect; only a member stores `NewMeeting` under the new id, nothing else changes |
| `Meetings.MeetingController.GetMeetings` | server/controllers/meetingController.js:52-76 | the page is `Paginate` over the meetings the caller participates in that match the optional project and status, newest date first |
| `Meetings.MeetingController.GetMeetingById` | server/controllers/meetingController.js:94-104 | 404 for a missing id before any authorization check; then the meeting iff the caller is a participant, else 403 |
| `Meetings.MeetingController.UpdateMeeting` | server/controllers/meetingController.js:117-136 | only the creator gets 200, and the meeting becomes `Assign` of the body; anyone else gets 403 (404 when missing) and the store is unchanged |
| `Meetings.MeetingController.DeleteMeeting` | server/controllers/meetingController.js:148-163 | only the creator deletes, and exactly that meeting goes; every other meeting is untouched |
| `Meetings.MeetingController.AddParticipant` | server/controllers/meetingController.js:176-197 | only the creator may add; the participant list becomes `WithParticipant` of the old list; anyone else gets 403 and nothing changes |
| `Documents.NewDocument` | server/controllers/documentController.js:23-32 | type `type \|\| 'other'`, public iff `public` was true, version 1, the caller as uploader and MIME type application/octet-stream |
| `Documents.NewDocumentValid` | server/models/Document.js:10-60 | a request with an accepted name and a file URL gives a document the schema accepts, reading as version 1 |
| `Documents.UnfilteredListsAll` | server/controllers/documentController.js:54-58 | without filters every stored document is listed, whoever asks |
| `Documents.Assign` | server/controllers/documentController.js:135 | `Object.assign` overwrites exactly the fields the body names; a `version` key wins |
| `Documents.UpdatedVersion` | server/controllers/documentController.js:131-135 | without a `version` key, the version changes iff the body has a truthy file URL other than the stored one, and then to the stored version (absent read as 1) plus 1 |
| `Documents.UpdatedKeepsVersion` | server/controllers/documentController.js:131-135 | a body naming neither the file URL nor the version leaves the version unchanged |
| `Documents.UpdatedOtherFields` | server/controllers/documentController.js:135 | apart from the version, the updated document is the body copied over the old one |
| `Documents.DocumentController.UploadDocument` | server/controllers/documentController.js:11-45 | 404 for an unknown project and 403 for a caller who is neither its architect nor its client, with 400 when it has no architect; only a member stores `NewDocument`, nothing else changes |
| `Documents.DocumentController.GetDocuments` | server/controllers/documentController.js:51-75 | the page is `Paginate` over the documents matching the optional project and type, newest first, with no restriction by caller |
| `Documents.DocumentController.GetDocumentById` | server/controllers/documentController.js:92-107 | 404 first; a public document is returned to anyone; a private one only to the project's architect or client, else 403; a missing project or a project without an architect gives 400 |
| `Documents.DocumentController.UpdateDocument` | server/controllers/documentController.js:120-144 | only the uploader gets 200, and the document becomes `Updated` (bump, then body); anyone else gets 403 (404 when missing) and nothing changes |
| `Documents.DocumentController.DeleteDocument` | server/controllers/documentController.js:156-171 | only the uploader deletes, and exactly that document goes; anyone else gets 403 and nothing changes |
| `Documents.DocumentController.GetDocumentVersions` | server/controllers/documentController.js:182-199 | no authorization; 404 for a missing id, else the id, name, uploader and the version read with absent as 1 |
| `Projects.NewProject` | server/controllers/projectController.js:6-15 | owner the caller, name and client trimmed, client "", status "Active" and deadline "" by default, no notes |
| `Projects.NewProjectValid` | server/models/Project.js:10-19 | a name that is not blank gives a project the schema accepts |
| `Projects.PatchedFields` | server/controllers/projectController.js:55-62 | owner never changes; each of name, client, status and deadline changes only when the body gives a string for it, with name and client trimmed; a non-blank note is trimmed and put first, the old notes following in order; a blank or absent note leaves the notes unchanged |
| `Projects.PatchedValid` | server/controllers/projectController.js:55-64 | a patch the save accepts keeps a valid project valid |
| `Projects.ProjectController.CreateProject` | server/controllers/projectController.js:6-17 | 400 "Project name is required" iff the name is missing or blank, storing nothing; otherwise `NewProject` is stored under the new id |
| `Projects.ProjectController.ListProjects` | server/controllers/projectController.js:27 | exactly the caller's projects, each once, newest creation first |
| `Projects.ProjectController.GetProject` | server/controllers/projectController.js:38-40 | a project not owned by the caller gets the same 404 as a missing one |
| `Projects.ProjectController.UpdateProject` | server/controllers/projectController.js:50-68 | 404 unless owned; 500 when the patched name is empty; otherwise the project becomes `Patched` and nothing else changes |
| `Projects.ProjectController.DeleteProject` | server/controllers/projectController.js:75-77 | 404 unless owned, storing nothing; otherwise exactly that project goes |
| `Auth.RequestedRole` | server/controllers/authController.js:72 | `role \|\| 'admin'` read against the role enum |
| `Auth.AdminRoleNeedsCode` | server/controllers/authController.js:29-42 | every registration that ends up with the admin role had to carry the admin code |
| `Auth.Account` | server/controllers/authController.js:64-73 | the stored account keeps the form's fields, stores the hash and never the password, is active and has the given role |
| `Auth.ApplyProfile` | server/controllers/authController.js:204-217 | each of name, phone, company, address, specialization and profile picture takes the body's value when the body names it and keeps its old value otherwise; role, e-mail, password and activity never change |
| `Auth.AuthController.Admit` | server/controllers/authController.js:45-75 | 400 with the validator's errors, 409 for a taken e-mail, 500 for a role outside the enum; only a new account changes the store, and the e-mails stay unique |
| `Auth.AuthController.Register` | server/controllers/authController.js:29-91 | a request with role "admin" or no role needs the admin code ("Admin code is required" or "Invalid admin code", 400, before anything else); any other role skips the check; past the gate come the validator's 400 and the 409 for a taken e-mail; with accepted data and a free e-mail the answer is 201 iff `role \|\| 'admin'` is in the enum, and 500 "Registration failed" otherwise; a new account has that role, the hashed password, and a token |
| `Auth.AuthController.Login` | server/controllers/authController.js:111-158 | 400 without both fields; the same 401 for an unknown e-mail and a wrong password; 403 for an inactive account checked before the password; a token iff 200 |
| `Auth.AuthController.GetProfile` | server/controllers/authController.js:175-187 | 404 for an unknown caller, else the caller without the password |
| `Auth.AuthController.UpdateProfile` | server/controllers/authController.js:204-230 | 404 for an unknown caller; otherwise the user becomes `ApplyProfile` of the body and the e-mails stay unique |
| `Auth.AuthController.ChangePassword` | server/controllers/authController.js:250-299 | 400 for a missing field, a mismatch or a new password shorter than 6, all before the current password is checked; 401 for a wrong current password; 500 for an unknown caller; success replaces only the stored hash |
| `Auth.AuthController.Logout` | server/controllers/authController.js:306-313 | always 200 "Logout successful" |
| `Auth.AuthController.AddArchitect` | server/controllers/authController.js:330-381 | a caller who is not an admin gets 403 before validation; a new account is an architect whatever the body says |
| `Auth.AuthController.GetArchitects` | server/controllers/authController.js:400-411 | admins only, else 403; exactly the stored architects |
| `Auth.AuthController.AddClient` | server/controllers/authController.js:431-482 | only an architect may call it, so an admin gets 403 too; a new account is a client |
| `Auth.LoginAccountUnique` | server/controllers/authController.js:119 | at most one account matches an e-mail |
| `Authorize.Authorize` | server/middlewares/authorize.js:6-24 | 403 "User role not found" without a role; 403 for a role outside the list; passes on iff the role is listed; reads nothing but role and list |
| `Authorize.AuthorizeMonotone` | server/middlewares/authorize.js:16 | allowing more roles never refuses a request that passed |
| `Authorize.ProjectMutationGate` | server/routes/projectRoutes.js:20-22 | behind `authorize('admin', 'architect')` a client never reaches project create, update or delete; admins and architects do |
| `AuthMiddleware.SplitFirst` | server/middlewares/auth.js:11 | the first piece of a split is what precedes the first separator |
| `AuthMiddleware.BearerPieces` | server/middlewares/auth.js:11 | for a header starting with "Bearer ", piece 1 is what follows up to the next space |
| `AuthMiddleware.ExtractTokenShape` | server/middlewares/auth.js:10-13 | a token is found iff the header starts with "Bearer " followed by a non-space; the token is then the space-free text up to the next space or the end |
| `AuthMiddleware.ExtractTokenOf` | server/middlewares/auth.js:10-11 | "Bearer " + a token, followed by nothing or a space, gives back the token |
| `AuthMiddleware.Authenticate` | server/middlewares/auth.js:10-51 | 401 for no token (an absent header reads as ""), an expired token, any other verification failure, an unknown user, or an inactive user; otherwise the caller is the stored user with its stored role |
| `AuthMiddleware.UnknownOrInactiveRejected` | server/middlewares/auth.js:23-35 | a verified token whose user is gone or inactive gets 401, not login's 403 |
| `AuthMiddleware.Run` | server/middlewares/auth.js:37-40 | on success `req.user`, `req.userId` and `req.userRole` are set from the stored user and nothing is answered; otherwise the reply is sent and `req` is untouched |

## Left out

- **Hashing, tokens and the clock are parameters.**
  - bcrypt becomes the function `hash`, and `compare(p, h)` is `hash(p) == h`.
  - JWT signing becomes `sign`. Verification becomes `verify`, which returns
    an id, `Expired` or `Invalid`. Expiry times are not modelled.
  - `new Date()` is the integer `now`, and the time stamp of `sendResponse` is a
    parameter.
  - `formatDate` in both utils files renders dates in a locale and is not
    modelled.
- **Schema validation at save time** is modelled in two places only:
  - register with a role string outside the enum answers 500, because a
    record's role is of the enum type;
  - updateProject with a patched name that trims to "" answers 500.

  Elsewhere the schema rules are the predicates `Valid` and are not checked on
  save. For meetings, documents and projects the `New...Valid` lemmas state
  which requests give a record its schema accepts. `UserModel.Valid` is stated
  but tied to no account handler. Four effects go missing:
  - Under the default strict schema, `creator`, `uploader` and `public` are not
    schema paths. The required `createdBy` and `uploadedBy` are therefore never
    set, and a real save of a new meeting or document is refused with 400. The
    model stores the record with the controllers' field names.
  - Update bodies that break a schema rule (a short title, say) answer 400 in
    the source and are applied in the model.
  - updateProfile's `runValidators` is not modelled.
  - register, addArchitect and addClient accept data that the validators pass
    but the user schema refuses: a name longer than 50 characters
    (server/models/User.js:15), a phone with letters (User.js:27), or an
    e-mail such as "a@b.c" whose last part is not 2 or 3 characters long
    (User.js:22). In the
    source the save throws, and the catch answers 500. The model answers 201
    and stores the account.
- **Mongoose setters** (`trim`, `lowercase`) are not applied to stored values.
  The `lowercase` setter of `email` (server/models/User.js:21) also applies to
  the `findOne({ email })` filters of register, login, addArchitect and
  addClient (server/controllers/authController.js:55, :119, :350, :451). The
  source therefore ignores case in its duplicate check and at login. The
  model compares e-mails exactly: `EmailsUnique`, the 409 for a taken e-mail
  and login's 401 for an unknown e-mail all use exact equality. The unique
  index on `email` is the invariant `EmailsUnique`, kept by every account
  handler.
- **The complex e-mail pattern of the user schema** is the parameter
  `emailPattern` of `UserModel.Valid`.
- **Explicit `null` or `undefined` values in update bodies** are not
  modelled. A key is either absent (`None`) or holds a value of the field's
  type.
  - A value of the wrong type, such as a string for a meeting's `duration`, is
    not modelled.
  - In updateProject a non-string value is treated as an absent key, as the
    `typeof` tests do.
- **Non-string query and body values.** The model does not cover a
  non-string name given to createProject, or a non-string `client` there,
  either of which would make `trim` throw.
- **Malformed ids** (Mongoose `CastError` answering 400 or 500), database
  failures and every other exception path not named above are left out.
- **`populate`.** Expanding references is left out, including the
  participant list of getMeetingById losing users that no longer exist. The
  model compares the stored ids.
- **Concurrency.**
  - addParticipant's read-then-write race is modelled as one sequential step.
  - `Listing.Select` picks the stored ids in an arbitrary order.
    The result is fixed only up to ties in the sort key, as MongoDB's order of
    equal keys is.
- **Pagination edge cases.** `page` and `limit` below 1, and values that are
  not numbers, are excluded by the `requires` of `GetMeetings` and
  `GetDocuments`. The pagination maximum of the constants file is enforced
  nowhere in the source, so it is not modelled either.
- **Case mapping.** `Text.Upper` and `Text.Lower` map ASCII letters only.
  Unicode case mapping is not modelled.
- **String length.** A string is a sequence of Unicode code points, while
  JavaScript's `length`, `substring` and `word[0]` count UTF-16 code units.
  The two differ for text outside the Basic Multilingual Plane. This affects
  `ClientUtils.TruncateText`, the length checks of `Validators` and of
  changePassword, and `ClientUtils.GetInitials`.
- **Date parsing.** Meeting dates are already time stamps; an unparseable
  date (`Invalid Date`) is not modelled.
- **Out of scope:** the Express wiring (routes, `server/index.js`), the React
  client apart from its utils file, the constants files and the
  `createdAt`/`updatedAt` bookkeeping. The one routing fact used is the project
  role gate.
