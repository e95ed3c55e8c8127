# MyCodeCamp controller decisions, modelled in Dafny

MyCodeCamp is a conference-management REST API. It serves camps (events), their speakers and
the speakers' talks, and it checks identity before anyone can change a speaker. The
controller actions are what this project models. Each one is a small decision over a
repository: look something up, check it, maybe change the store, and pick a status.

What is modelled:

- **Speakers** (`Speakers`, `speakers.dfy`): the speaker resource at
  `api/camps/{moniker}/speakers`.
  - The repository is the class `SpeakerStore`. It holds the speakers table in table order,
    the talks table, the monikers of existing camps, the user names the user manager knows,
    and the identity counter for new keys.
  - `Post`, `Put` and `Delete` are methods. They check in the code's order and change the
    state only on a commit. Committing (`SaveAllAsync`) is the `commits` argument.
  - The queries (`GetList` for 1.0, `GetWithCount` for 1.1, `Get` by id) are functions that
    read the store.
  - `Get` by id keeps the code's defect: it builds the result for a speaker of another camp
    and then drops it (see Findings).
- **Speakers, version 2.0** (`SpeakersV2`): the overriding `GetWithCount`, whose body also
  carries the current time, passed in as `now`. Also here: the routing of a speaker request by
  API version across the two controllers, and the list action end to end from the `ver`
  header.
- **Camps** (`Camps`): the list of camps, and the lookup of one camp by id. The lookup gives
  404 with the message "Camp {id} was not found", 200 with the camp (and its speakers when
  asked for), and 400 only when the lookup throws.
- **Camp mapping** (`CampMapping`): the Camp → CampModel map. `StartDate` is the event date
  and `EndDate` is the event date plus `Length - 1` days. Dates are day numbers.
- **Startup rules** (`Startup`):
  - the default API version (1.1) and the `ver` header;
  - the talks controller's versions and its `Post` pinned to 2.0;
  - the cookie handlers' rewrite of status 200 to 401 or 403 on `/api` paths;
  - the `SuperUsers` claim policy.
- **Identity seed** (`CampIdentity`): `Seed` over the user and role stores, the class
  `IdentityStores`. It is proved equal to the function `SeedSpec`, and idempotence,
  throw-on-failure and the seeded account's rights are proved about that function.

Collaborators and inputs that the model takes as arguments:

- The mapper is three functions, passed in as a `Mapper`: a new entity from a wire model, a
  wire model written onto an entity, and an entity to a wire model.
- The caller's identity (`User.Identity.Name`) is the `caller` argument.
- The clock (`DateTime.UtcNow`) is `now`.
- The commit result is `commits`.
- A fault of the first repository lookup is `throws`, in the camps controller and in the
  speakers controller's `Post`, `Put` and `Delete`.
- The identity managers' verdicts are `Verdicts`.
- The URL resolver's result is `url`.
- `Url.Link` is kept as its route name and route values (`Http.Link`).

Two details of the code that the model keeps:

- `Post` checks no ownership. It binds the caller as owner.
- The camps controller looks a camp up by its numeric id.

## Model

| member | source | states |
|---|---|---|
| `Speakers.SpeakerStore.GetSpeaker` | MyCodeCamp/Controllers/SpeakersController.cs:65-67 | found exactly when a row has the key; the speaker stored under that key, its talks loaded only when asked for |
| `Speakers.Query` | MyCodeCamp/Controllers/SpeakersController.cs:40-42 | the speakers query returns only speakers of that camp, never more of them than there are rows, talks loaded exactly when asked for |
| `Speakers.QueryMembers` | MyCodeCamp/Controllers/SpeakersController.cs:40-42 | a speaker is in the query result if and only if some row of the camp loads to it |
| `Speakers.TalksOf` | MyCodeCamp/Controllers/SpeakersController.cs:41 | the loaded talks are exactly the talks whose speaker key is the speaker's |
| `Speakers.SpeakerStore.GetList` | MyCodeCamp/Controllers/SpeakersController.cs:36-45 | version 1.0 answers 200 with a bare list holding one wire model per queried speaker, in query order |
| `Speakers.SpeakerStore.GetWithCount` | MyCodeCamp/Controllers/SpeakersController.cs:47-60 | version 1.1 answers 200 with `{count, results}`; `count` equals the number of results and of queried speakers; results follow query order |
| `Speakers.SpeakerStore.Get` | MyCodeCamp/Controllers/SpeakersController.cs:62-80 | 404 without message exactly when no row has the id; otherwise 200 with the speaker, whatever its camp |
| `Speakers.SpeakerStore.GetChecked` | MyCodeCamp/Controllers/SpeakersController.cs:74-77 | the corrected lookup: 404 when absent, 400 "Speaker not in specified Camp" exactly when the camp differs, 200 exactly when it matches |
| `Speakers.GetIgnoresCampMismatch` | MyCodeCamp/Controllers/SpeakersController.cs:74-79 | for a speaker of another camp, `Get` answers 200 where the corrected lookup answers 400 |
| `Speakers.SpeakerStore.Post` | MyCodeCamp/Controllers/SpeakersController.cs:82-116 | a fault of the camp lookup gives 400 "Could not add ne speaker"; otherwise unknown camp gives 400 "Could not find Camp"; unknown caller or failed commit gives 400 "Could not add ne speaker"; every 400 leaves the store unchanged; success appends one row with the next key, the path's camp and the caller as owner, and gives 201 with a Location to `SpeakerGet` for that moniker and key |
| `Speakers.SpeakerStore.Put` | MyCodeCamp/Controllers/SpeakersController.cs:118-154 | a fault of the speaker lookup gives 400 "Could not update speaker"; otherwise checks in order: missing id gives 404, camp mismatch gives 400, non-owner gives 403, failed commit gives 400; every non-200 leaves the store unchanged; 200 replaces only that row by the merged speaker and returns its wire model |
| `Speakers.SpeakerStore.Delete` | MyCodeCamp/Controllers/SpeakersController.cs:156-191 | a fault of the speaker lookup gives 400 "Could not delete speaker"; otherwise the same check order as `Put`; every non-200 leaves the store unchanged; 200 removes exactly that row and keeps every other key's speaker |
| `Speakers.DeleteTwice` | MyCodeCamp/Controllers/SpeakersController.cs:162-182 | a delete succeeds exactly for an owned speaker of the path's camp, and a second delete of the same id then gives 404 |
| `Speakers.RemoveKeepsOthers` | MyCodeCamp/Controllers/SpeakersController.cs:178 | removing a row keeps the key unique, drops that key and keeps every other key's speaker |
| `Speakers.ReplaceKeepsOthers` | MyCodeCamp/Controllers/SpeakersController.cs:140 | writing onto a row keeps the key unique, changes that key's speaker and no other |
| `Speakers.AppendKeepsOthers` | MyCodeCamp/Controllers/SpeakersController.cs:101 | adding a row above every stored key keeps the key unique, adds that key and keeps the rest |
| `Speakers.SpeakerAtIndex` | MyCodeCamp/Controllers/SpeakersController.cs:124 | with a unique key, the lookup by key finds the row at any position |
| `SpeakersV2.GetWithCount` | MyCodeCamp/Controllers/SpeakersV2Controller.cs:25-37 | version 2.0 answers 200 with `{currentTime, count, results}`: the supplied time, a count equal to the number of results and of queried speakers, results in query order; the store is only read |
| `SpeakersV2.Route` | MyCodeCamp/Controllers/SpeakersV2Controller.cs:15-25 | a version is served exactly when one of the two controllers declares it (1.0, 1.1, 2.0); the list action goes to the 1.0, 1.1 or 2.0 variant by version; every other action goes to the base action |
| `SpeakersV2.OnlyListIsOverridden` | MyCodeCamp/Controllers/SpeakersV2Controller.cs:18-25 | get-by-id, post, put and delete reach the same base action under 1.0, 1.1 and 2.0 |
| `SpeakersV2.ListSpeakers` | MyCodeCamp/Startup.cs:84-87 | the list is answered exactly when the selected version is declared; every answer is 200, and each counted shape has a count equal to its results; the 2.0 shape carries the supplied time |
| `SpeakersV2.NoHeaderListIsCounted` | MyCodeCamp/Startup.cs:84-87 | without a `ver` header the list answers `{count, results}` with count equal to the number of queried speakers |
| `SpeakersV2.ListShapePerVersion` | MyCodeCamp/Controllers/SpeakersController.cs:37-48 | header 1.0 gives the bare list, 1.1 the counted shape, 2.0 the timed shape, any other version no answer |
| `Startup.RequestedVersion` | MyCodeCamp/Startup.cs:84-87 | no header selects 1.1; a header selects its own version |
| `Startup.TalksActionVersions` | MyCodeCamp/Startup.cs:88-93 | a talks action answers only to versions the talks controller declares |
| `Startup.TalksPostOnlyUnderV2` | MyCodeCamp/Startup.cs:88-93 | talks `Post` answers to 2.0 and nothing else; every other talks action answers to exactly 1.0, 1.1 and 2.0 |
| `Text.UpperAscii` | MyCodeCamp/Startup.cs:107 | upper-cases each ASCII letter, position by position, keeping the length |
| `Text.EqualsIgnoreCase` | MyCodeCamp/Startup.cs:107 | two strings are equal ignoring case exactly when their upper-cased forms are equal |
| `Text.StartsWithSegments` | MyCodeCamp/Startup.cs:63 | a path matches a segment equal to it ignoring case; a match begins with the segment ignoring case and ends at the path's end or at a '/' |
| `Text.SegmentPrefixMatches` | MyCodeCamp/Startup.cs:63 | a segment followed by more text matches exactly when that text is empty or starts with '/' |
| `Startup.IsApiPath` | MyCodeCamp/Startup.cs:63 | a path is an API path exactly when it is `/api` in any letter case, alone or followed by '/' |
| `Startup.OnRedirectToLogin` | MyCodeCamp/Startup.cs:61-68 | an `/api` path at 200 becomes 401; the status changes only in that case |
| `Startup.OnRedirectToAccessDenied` | MyCodeCamp/Startup.cs:70-77 | an `/api` path at 200 becomes 403; the status changes only in that case |
| `Startup.ForbidOnApiRouteIs403` | MyCodeCamp/Startup.cs:70-75 | every path `/api` or `/api/...` is an API path; the access-denied handler turns its 200 into 403, the status of a `Forbid` result, and the login handler turns it into 401 |
| `Startup.NonApiPathKeepsStatus` | MyCodeCamp/Startup.cs:61-75 | off `/api`, both handlers keep any status |
| `Startup.SuperUsersPolicy` | MyCodeCamp/Startup.cs:106-107 | a principal passes exactly when it holds a claim whose type upper-cases to `SUPERUSER` and whose value is exactly `True` |
| `Startup.SuperUsersPolicyOnAppend` | MyCodeCamp/Startup.cs:106-107 | adding a claim makes the policy hold exactly when it held already or the new claim is `SuperUser = True` |
| `Startup.SeededAdminIsSuperUser` | MyCodeCamp.Data/CampIdentityInitializer.cs:43-50 | the account a completed seed creates passes the `SuperUsers` policy |
| `CampIdentity.SeedSpec` | MyCodeCamp.Data/CampIdentityInitializer.cs:21-53 | the seed keeps every existing user and role as it was, can add only the user "s.gwozdz" and the role Admin, and throws only "Failed to build user and roles" or the missing-role message |
| `CampIdentity.SeedSkipsExistingUser` | MyCodeCamp.Data/CampIdentityInitializer.cs:23-26 | when "s.gwozdz" exists, `Seed` completes and changes neither store |
| `CampIdentity.SeedAdminRole` | MyCodeCamp.Data/CampIdentityInitializer.cs:28-33 | the Admin role is created only when absent, carrying exactly `IsAdmin = True`; no other role changes |
| `CampIdentity.SeedAttemptsEveryStep` | MyCodeCamp.Data/CampIdentityInitializer.cs:43-45 | once the user is created, role and claim are each added on their own verdict, before anything is checked, unless the Admin role is missing, when neither is added; other users are untouched |
| `CampIdentity.SeedThrowsIffAStepFails` | MyCodeCamp.Data/CampIdentityInitializer.cs:43-50 | from scratch, `Seed` throws exactly when creation, role or claim fails: "Role ADMIN does not exist." when the Admin role is still absent, otherwise "Failed to build user and roles" |
| `CampIdentity.SeedEstablishesAdmin` | MyCodeCamp.Data/CampIdentityInitializer.cs:35-45 | a completed seed from scratch leaves the user present, in role Admin only, holding exactly `SuperUser = True` |
| `CampIdentity.SeedIsIdempotent` | MyCodeCamp.Data/CampIdentityInitializer.cs:23-26 | after a completed seed, a second seed completes and changes nothing |
| `CampIdentity.FailedSeedIsNotRetried` | MyCodeCamp.Data/CampIdentityInitializer.cs:23-50 | a seed that throws after creating the user is never repaired: the next seed does nothing, and the user holds the claim, or the Admin role, exactly when that step succeeded |
| `CampIdentity.IdentityStores.Seed` | MyCodeCamp.Data/CampIdentityInitializer.cs:21-53 | the imperative seed leaves the stores and the outcome exactly as `SeedSpec` gives them |
| `CampIdentity.IdentityStores.CreateRole` | MyCodeCamp.Data/CampIdentityInitializer.cs:32 | the role is stored exactly when the verdict is success and the name is free |
| `CampIdentity.IdentityStores.CreateUser` | MyCodeCamp.Data/CampIdentityInitializer.cs:43 | the user is stored exactly when the verdict is success and the user name is free |
| `CampIdentity.IdentityStores.AddToRole` | MyCodeCamp.Data/CampIdentityInitializer.cs:44 | a missing role throws; otherwise the role is added exactly when the verdict is success, the user exists and is not yet in it |
| `CampIdentity.IdentityStores.AddClaim` | MyCodeCamp.Data/CampIdentityInitializer.cs:45 | the claim is appended exactly when the verdict is success and the user exists |
| `Camps.GetAll` | MyCodeCamp/Controllers/CampsController.cs:18-24 | 200 with every camp of the table: same number, same members, nothing filtered |
| `Camps.GetCamp` | MyCodeCamp/Controllers/CampsController.cs:34 | finds a stored camp with that id exactly when one exists, without speakers |
| `Camps.GetCampWithSpeakers` | MyCodeCamp/Controllers/CampsController.cs:33 | finds a stored camp with that id exactly when one exists, with exactly the speakers of its moniker |
| `Camps.NotFoundMessage` | MyCodeCamp/Controllers/CampsController.cs:37 | the 404 message starts with "Camp " and ends with " was not found" |
| `Camps.FindCamp` | MyCodeCamp/Controllers/CampsController.cs:32-34 | finds nothing exactly when no camp has the id; otherwise the first camp with that id |
| `Camps.SpeakersOfCamp` | MyCodeCamp/Controllers/CampsController.cs:33 | the loaded speakers are exactly the speaker rows of the camp's moniker |
| `Camps.Get` | MyCodeCamp/Controllers/CampsController.cs:26-47 | 400 exactly when the lookup throws; otherwise 404 with "Camp {id} was not found" exactly when no camp has the id; 200 with a stored camp of that id, its speakers loaded exactly when asked for |
| `Camps.NotFoundMessageNamesId` | MyCodeCamp/Controllers/CampsController.cs:37 | the id reads back from the part of the 404 message between "Camp " and " was not found" |
| `Camps.MissingCampIsNotFound` | MyCodeCamp/Controllers/CampsController.cs:36-37 | an id not in the table gives the 404 naming it, never 400 or 200 |
| `Camps.FoundCampIsStoredCamp` | MyCodeCamp/Controllers/CampsController.cs:39 | with unique keys, a stored camp's id gives 200 with that very camp |
| `Text.IntToStringRoundTrip` | MyCodeCamp/Controllers/CampsController.cs:37 | the decimal rendering of an id reads back as the same id |
| `CampMapping.ToModel` | MyCodeCamp/Models/CampMappingProfile.cs:10-13 | `StartDate` is the event date; `EndDate - StartDate + 1` equals `Length`; url from the resolver; every other field copied, location flattened |
| `CampMapping.OneDayCampEndsOnStartDate` | MyCodeCamp/Models/CampMappingProfile.cs:12 | a camp of length 1 ends on its start date |
| `CampMapping.ExtraDayMovesEndDate` | MyCodeCamp/Models/CampMappingProfile.cs:12 | one more day of length moves `EndDate` one day later and leaves `StartDate` |
| `CampMapping.ZeroLengthEndsBeforeStart` | MyCodeCamp/Models/CampMappingProfile.cs:12 | no guard on length: length 0 gives an `EndDate` one day before `StartDate` |
| `CampMapping.EndNotBeforeStartIffLengthPositive` | MyCodeCamp/Models/CampMappingProfile.cs:12 | `EndDate` is not before `StartDate` exactly when `Length` is at least 1 |

## Left out

- Entity Framework, SQL and the real repository class are not part of this model. The
  repository is the in-memory tables of `SpeakerStore` and `Camps.CampDb`.
- String comparisons in the database are exact. The database's collation, which may ignore
  case, is not modelled.
- Speakers and camps are separate stores. `SpeakerStore` knows the camps only by moniker.
  The camps controller reads its own tables.
- The database schema is not part of this model. Deleting a speaker leaves the talks table
  as it is, so cascade deletion of its talks is not modelled.
- Mapper internals are not modelled. The three mapping functions are arguments. Talks in an
  incoming speaker model are not modelled: the merge writes only a speaker's own columns.
- `CampUrlResolver` is not part of this model, so `Url` is an argument. `Url.Link` is kept
  as route values, not text.
- Speakers.SpeakerStore.Post: a fault raised after the checks of `Post`, `Put` or `Delete`
  but before the commit completes (in the mapper's merge, in `Add` or `Delete`, in
  `SaveAllAsync`) ends in the same 400 as a failed commit, with nothing committed, so
  `commits == false` stands for it. A fault of the first lookup is `throws`. Faults in
  between are not modelled.
- Speakers.SpeakerStore.Put: a fault in the steps that run after a successful commit (in
  `Post` the `Url.Link` call and the mapping of the new speaker to its wire model, in `Put`
  the mapping of the updated speaker) is caught, and the action answers its closing 400
  while the new or updated row stays saved. The model leaves this case out: its mapper and
  `Link` cannot fault, so it proves that every 400 leaves the rows unchanged only for
  collaborators that do not fault.
- Speakers.SpeakerStore.Put: a stored speaker always has its camp and its owner. A speaker
  whose `Camp` or `User` is not loaded (null) is not modelled; the code would answer it with
  the closing 400 of `Put` and `Delete`.
- Speakers.SpeakerStore.Get: get-by-id has no try block, so a lookup fault or a speaker whose
  `Camp` is not loaded escapes the action unhandled. That outcome is not modelled.
- Camps.GetAll: an exception from the camp list query is not modelled. That call has no
  try block, so the framework would answer it.
- Speakers.SpeakerStore.GetList: the speaker list actions have no try block either
  (`GetList`, `Speakers.SpeakerStore.GetWithCount` and `SpeakersV2.GetWithCount`). A query
  fault there escapes to the framework; the model's list actions always answer 200.
- Identity internals are not modelled: password hashing and validation (the seed password),
  user- and role-name normalisation (the model finds users and roles by their exact names), the managers' stores, JWT validation and signing keys, cookie
  challenge plumbing.
- The managers' own failures are the `Verdicts` argument. The exact text of the identity
  store's missing-role exception is taken as "Role ADMIN does not exist.".
- `StartsWithSegments` and the claim-type comparison ignore case only for ASCII letters.
  .NET's ordinal case folding of non-ASCII characters is not modelled.
- Parsing the `ver` header text into a version is framework code and is not modelled. So is
  the framework's answer to an undeclared version (the model gives no answer) and the
  version-reporting headers.
- The 2.0 list is routed to the overriding `GetWithCount`, as the code means it. How the
  framework treats version attributes on inherited and overriding actions is not modelled.
- CampMapping.ToModel: integers are unbounded. The 32-bit wrap-around of `Length - 1` and
  the range exception of `AddDays` are not modelled. Dates are whole day numbers, with no
  time of day.
- async/await and `.Wait()` become sequential calls. Logging, dependency injection, HTTPS
  and CORS configuration, JSON options and the configuration reload are not modelled.
- The auth, operations and base controllers are not part of this model. They are a
  sign-in wrapper, a configuration reload and a helper stash.
- The talks controller and the camp update merge rule are not among the modelled files.
  Only the talks version table is modelled.
- `[Authorize]` admission is not modelled: the actions see an authenticated `caller`.
- Speakers.SpeakerStore.Put: the `[ValidateModel]` filter on both speaker controllers runs
  before every speaker action, including `Post` and `Delete`. Its source is not part of this
  model. The model assumes a request whose body and route values bind and validate, and the
  filter's own 400 answer is not modelled.

## Findings

| source | as written | input that shows it | evidently intended | confidence | as-written member | corrected member |
|---|---|---|---|---|---|---|
| MyCodeCamp/Controllers/SpeakersController.cs:74-77 | the 400 "Speaker not in specified Camp" is built but not returned, so the speaker is returned with 200 | a speaker stored under id 1 with camp "a", requested as `GET api/camps/b/speakers/1` | `return BadRequest(...)` for a speaker of another camp, as `Put` and `Delete` do | high; not executed | `Speakers.GetIgnoresCampMismatch` | `Speakers.SpeakerStore.GetChecked` |

The as-written action is `Speakers.SpeakerStore.Get`; the routed get-by-id action keeps the as-written behaviour, because that is what the
deployed code answers.
