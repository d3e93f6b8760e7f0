# Travio backend: a verified model

This project models the parts of the Travio Africa backend that compute or keep
state in a way that is easy to get wrong, and proves what they are for. Every
statement is for all inputs, all runs or all reachable states.

| file | what it models |
|---|---|
| `FlattenSql.dfy` | the compiler from nested SQL templates to one text with numbered placeholders (`jest.setup.js`) |
| `ConnectionLimiter.dfy` | the sliding-window limiter of socket connections and its cleanup (`server.js`) |
| `ClaimLimiter.dfy` | the fixed-window limiter of refund claims (`routes/refundClaimRoutes.js`) |
| `MaintenanceCache.dfy` | the maintenance flag with racing refreshes (`middleware/maintenanceMode.js`) |
| `RequestThrottle.dfy` | request spacing under overlapping callers (`providers/nominatimProvider.js`) |
| `Texts.dfy`, `TeamPermissions.dfy`, `Permissions.dfy`, `PermissionChecks.dfy`, `DelegatedGrants.dfy` | roles, the permission catalogue, the two permission checks, and delegated grants (`config/teamPermissions.js`, `config/permissions.js`, `src/core/domain/teamController.js`) |
| `ChatAccess.dfy`, `ChatRooms.dfy`, `ChatRuns.dfy` | who may use the chat over HTTP and over sockets, the socket rooms as a step protocol, and what its runs leave read off the events (`middleware/teamRoleMiddleware.js`, `routes/chatRoutes.js`, `server.js`) |
| `RbacState.dfy`, `RbacSeed.dfy` | the reconciliation of stored permissions, roles and links with the declared tables (`prisma/seed.js`) |
| `Wrappers.dfy` | an optional value |

`dafny verify dfyconfig.toml` checks everything.

## How it is built

Code that changes things step by step is a class or a method with a loop
(`Out`, `ConnectionAttempts`, `ClaimBuckets`, `Maintenance`, `Throttle`,
`ChatSocket`, `Request`, `Database`, `ExpandDependencies`, ...). Each method is
proved against a function of the old state, and the properties are proved about
runs of those functions.

Asynchronous code is cut at its `await`s. `MaintenanceCache`, `RequestThrottle`
and `ChatRooms` each have a `State`, an `Event` per turn of the event loop or
answer of the database, `Enabled` and `Apply`; a run is any feasible sequence of
events, so all interleavings are covered. Fields commented as *record* are
histories that the specification reads and the program does not have.

Lookups of the database are arbitrary results of a step or parameters. The
permission catalogue, the role table and the RBAC tables are parameters too; what
the theorems ask of them are named conditions:

* `Permissions.Tidy`, `Permissions.OwnerOnlyApart`: keys are written without
  surrounding space, no entry requires the wildcard, and no freely grantable entry
  requires an owner-only key. The catalogue in `config/permissions.js:42-132` has
  both.
* `DelegatedGrants.OrdinaryTables`: moreover no listed permission starts with
  `*.`. The shipped tables have it.
* `DelegatedGrants.KeepsOwnerOnlyOut`, `DelegatedGrants.OnlyWildcards`: no
  assignable system role lists an owner-only key, and the only star entry is `*`.
  The shipped tables have both.
* `PermissionChecks.DottedTable`: see below. The only star entry of
  `config/teamPermissions.js` is `*`, which meets it.
* `RbacState.Distinct`: every permission key and role name is declared once, as in
  `prisma/seed.js`.

## What turned out

* **Flattening.** Under the lexer modelled here (plain text, outside quotes and
  comments, and without numerals like `1e5`) the meaning is preserved exactly when
  the expansion is `Safe`: no dollar sign typed by hand runs
  into a digit, unless it is inside a name; and no placeholder follows a name or a
  dollar sign directly, or runs into a digit or a letter. `LIMIT${n}` is flattened
  to one identifier, and PostgreSQL 16, which the workflows use
  (`.github/workflows/ci.yml:118`), refuses a parameter with a letter behind it.
* **Placeholders.** The sequence of their numbers alone is a weaker statement: with
  a `$1` typed by hand it can be right by accident.
* **Claims.** Twice the limit cannot pass within one window length: the claim
  that opens a window passes, so the tight bound is 9, and it is reached.
* **Two permission checks.** The check on roles matches a star entry without the
  dot after the family (`config/teamPermissions.js:213`), the check on lists with
  it (`config/permissions.js:197`). A star entry is then read as one for every
  beginning of its family, the empty one included, so as long as no entry starts
  with a dot the checks coincide exactly when each role lists `*` or no star entry
  at all. A role with `tours.*` already tells them apart.
* **Owner-only keys and the wildcard.** Non-owners never hold an owner-only key, but
  they can hold `*`: the built-in admin role lists it and the owner may assign it.
  That is the only way.
* **Maintenance.** After a clear an old value can still be decided on when its
  answer had arrived from the database but was not processed yet; exactly then.
* **Nominatim.** Requests are sure to be 1100 ms apart exactly when no call starts
  while another sleeps. Each call that does start then can send its request in the
  same millisecond as the sleeper, and with more of them any number can go out in
  one millisecond. The bound in terms of sleeping calls is tight.
* **Chat gates.** They differ only for a membership of one's own account without
  the chat permission.
* **A comment and the code.** `server.js:441-443` says that unknown rights mean no
  chat for a member, and then allows the chat. The model follows the code. It is
  safe all the same: the supplier identity is not set in that case, so the member
  acts as themselves.
* **RBAC.** The seed gets through a role whose list repeats a key exactly when
  that key is linked already: the insertion of two equal links is refused as a
  whole by the primary key of `prisma/schema.prisma:2455-2465`.

## Model

| member | source | states |
|---|---|---|
| FlattenSql.FlattenSql | jest.setup.js:64-68 | The compiled text and values are the printed depth-first expansion of the nested template, and reading the text against the values gives that expansion back exactly when the expansion is safe |
| FlattenSql.FlattenInto | jest.setup.js:70-86 | On any accumulator, empty or not, a template of any depth is appended as its expansion, its numbering continued after the values already bound; the recursion ends on the structure of the values |
| FlattenSql.Out.constructor | jest.setup.js:65 | A fresh accumulator has no text and no values |
| FlattenSql.Out.Append | jest.setup.js:73-84 | Literal text is taken over as it is and binds nothing |
| FlattenSql.Out.Bind | jest.setup.js:79-82 | A plain value gets the next number, and its placeholder stands where the value stood |
| FlattenSql.DecimalReads | jest.setup.js:82 | The digits printed for a number read back as that number |
| FlattenSql.EmitAppend | jest.setup.js:61-63 | Emitting a list of pieces in two portions is emitting it at once: the second portion picks up the numbering |
| FlattenSql.LexPrint | jest.setup.js:70-86 | Behind any text and with any number of values bound before it, a printed fragment reads as its literal characters and its parameters exactly when it is safe there |
| FlattenSql.ScanPrint | jest.setup.js:70-86 | Behind any text and with any number of values bound before it, a printed fragment (its numbers shifted by that many) reads back as its pieces exactly when it is safe there |
| FlattenSql.MeaningPreservedExactly | jest.setup.js:61-86 | For every template: the flattened query, read as PostgreSQL reads positional parameters in plain text, means the depth-first expansion if and only if no dollar sign typed by hand starts a parameter and no placeholder follows a name or a dollar sign or runs into a digit or a name |
| FlattenSql.HazardsBreakMeaning | jest.setup.js:81-84 | A value directly after any letter, underscore, non-ASCII character or dollar sign, one directly before any of these but the dollar sign or before a digit, and any dollar sign and digit typed by hand: each such template has a query that means something else |
| FlattenSql.PlainTemplatesKeepMeaning | jest.setup.js:61-86 | A template of any depth whose text has no dollar sign, and next to its values no letter, digit, underscore or non-ASCII character, always means what it says |
| FlattenSql.PlaceholdersOfPrint | jest.setup.js:81-82 | After k bound values a fragment reads as its literal text with parameters k+1, k+2, ... where its values stand (the fresh numbers shifted by k), if and only if it is safe there |
| FlattenSql.PlaceholdersInOrder | jest.setup.js:70-86 | The text reads as the literal text with the parameters 1 to the number of values, left to right and each once, where the values stand, if and only if the expansion is safe; where the literal text has no dollar sign, the sequence of numbers alone is right if and only if it is safe |
| FlattenSql.NumberedByAccident | jest.setup.js:73-84 | With dollar signs in the literal text the sequence of numbers can be right although the only parameter is one typed by hand |
| FlattenSql.ExpandWeld | jest.setup.js:70-86 | Two templates joined at a seam expand to the one expansion followed by the other |
| FlattenSql.ExpandAround | jest.setup.js:73-83 | A template means what stands before a value, the value, and what stands after it |
| FlattenSql.OddSegments | jest.setup.js:73-84 | A missing text segment comes out as the word undefined, a surplus one is not looked at |
| FlattenSql.ExpandInline | jest.setup.js:77-78 | Splicing a nested fragment into its parent, at any position and depth, leaves the expansion as it is |
| FlattenSql.InliningInvisible | jest.setup.js:64-86 | Splicing a nested fragment into its parent, at any position and depth, changes neither the compiled text nor the values |
| ConnectionLimiter.ConnectionAttempts.constructor | server.js:318 | The map starts empty |
| ConnectionLimiter.ConnectionAttempts.Attempt | server.js:338-345 | Accepted exactly when fewer than 10 stored attempts of the address are younger than a minute; an accepted attempt replaces the list with those and itself, a refused one changes nothing |
| ConnectionLimiter.ConnectionAttempts.Cleanup | server.js:325-332 | Shrinking the map while iterating over it leaves, for every address at once, exactly the young attempts, and no entry without one |
| ConnectionLimiter.RecentCounts | server.js:340-341 | The filtered list has as many entries as there are times younger than a minute |
| ConnectionLimiter.RecentTwice | server.js:328-340 | Forgetting old attempts early does not change which ones are young later |
| ConnectionLimiter.RunRefinesIdeal | server.js:318-345 | Every run of the map, with cleanups in it, decides as the specification that only knows the full history; every stored list has 1 to 10 entries |
| ConnectionLimiter.AcceptedExactly | server.js:338-345 | After any run an attempt is accepted exactly when fewer than 10 of all attempts ever accepted for its address are less than 60 000 ms old, and only an accepted attempt enters the history |
| ConnectionLimiter.CleanupUnobservable | server.js:322-333 | A run with cleanups at arbitrary moments accepts and refuses as the run without them |
| ConnectionLimiter.CleanupKeepsExactlyTheRecent | server.js:325-332 | Just after a cleanup the addresses in the map are exactly those accepted within the last minute, none with an empty list or more than 10 entries |
| ConnectionLimiter.SpacedBound | server.js:340-345 | In a sorted list where each time was accepted with room left, any stretch shorter than the window holds at most 10 |
| ConnectionLimiter.WindowBound | server.js:338-345 | In every run, any set of accepted attempts of one address that lie within less than a minute of each other has at most 10 members |
| ClaimLimiter.ClaimBuckets.constructor | routes/refundClaimRoutes.js:13 | No user has a window at the start |
| ClaimLimiter.ClaimBuckets.ClaimRateLimit | routes/refundClaimRoutes.js:15-29 | Without a user the claim passes and nothing changes; otherwise exactly that user's window is opened or counted, and the claim passes exactly as one of its first 5 |
| ClaimLimiter.RejectedNeverExtends | routes/refundClaimRoutes.js:19-27 | A rejected claim leaves the end of its window where it was, and a claim that opens a window passes |
| ClaimLimiter.UsersIndependent | routes/refundClaimRoutes.js:18-24 | In a run shared by any users, one user's window and decisions are those of a run with that user alone |
| ClaimLimiter.FollowShape | routes/refundClaimRoutes.js:17-28 | Over every history windows open more than 10 minutes apart, every passing claim lies in its window, and the claim that opened it is its first |
| ClaimLimiter.PassesAreDecisions | routes/refundClaimRoutes.js:24-28 | Every claim gets one decision, and the passes are the positive ones |
| ClaimLimiter.PassesBetween | routes/refundClaimRoutes.js:20-27 | Between two passing claims there are at most 5 for each window boundary between them |
| ClaimLimiter.WindowsTouched | routes/refundClaimRoutes.js:11-28 | Passing claims that touch m windows are at most 5m, and for m of 2 and more they span more than m-2 window lengths |
| ClaimLimiter.SpanBound | routes/refundClaimRoutes.js:11-28 | A span of at most one window length passes at most 9 claims: one less than twice the limit, as the opener of a window is itself one of its passes |
| ClaimLimiter.SpanBoundInRun | routes/refundClaimRoutes.js:15-29 | The same bound for each user of a shared run |
| ClaimLimiter.SpanBoundReached | routes/refundClaimRoutes.js:11-28 | A history in which 9 claims pass within one window length: the bound is tight |
| MaintenanceCache.Maintenance.constructor | middleware/maintenanceMode.js:3-4 | Nothing is cached at the start |
| MaintenanceCache.Maintenance.Arrive | middleware/maintenanceMode.js:7-31 | Admin and webhook paths bypass; otherwise a request reads exactly when nothing is cached or the cache is older than 30 seconds, and else decides by the cached flag |
| MaintenanceCache.Maintenance.Land | middleware/maintenanceMode.js:12-30 | Blocks exactly when the stored setting is true or the text true; that flag and the arrival of the request are what is cached, a failed read counting as no maintenance |
| MaintenanceCache.Maintenance.ClearCache | middleware/maintenanceMode.js:34-37 | Back to the initial variables |
| MaintenanceCache.ApplyKeepsInv | middleware/maintenanceMode.js:7-37 | Every step keeps: the cached flag is the answer to a recorded read and carries the time that read began, and every decision so far is justified |
| MaintenanceCache.BoundedStaleness | middleware/maintenanceMode.js:10-24 | In every run, with reads overtaking each other and clears at any time, every decision uses the answer to a read begun no earlier than 30 seconds before the request arrived, or false where that read failed |
| MaintenanceCache.AnswersAreCurrent | middleware/maintenanceMode.js:13-20 | In every run each recorded answer is the setting as the last store before that moment left it, or a failure |
| MaintenanceCache.DecisionsFollowTheSetting | middleware/maintenanceMode.js:10-24 | In every run each decision has a read answered no earlier than 30 000 ms before the request arrived, and blocks if and only if that read succeeded and the last store before it left true or the text true |
| MaintenanceCache.EveryRequestDecidedOnce | middleware/maintenanceMode.js:6-31 | In every run each request that does not bypass has been decided once or is waiting for its read |
| MaintenanceCache.CacheExactly | middleware/maintenanceMode.js:19-27 | In every run the cache is empty exactly when no read has landed since the last clear, and else carries the arrival time of the request whose read landed last |
| MaintenanceCache.ReadsExactly | middleware/maintenanceMode.js:7-11 | After every run a request that does not bypass starts a read exactly when no read has landed since the last clear or the last one belongs to a request more than 30 000 ms before |
| MaintenanceCache.TurnsPossible | middleware/maintenanceMode.js:10-37 | After any run a new request may arrive, the setting may be stored, the cache cleared, and every pending read go on |
| MaintenanceCache.NothingOldStaysFresh | middleware/maintenanceMode.js:11-37 | Once neither the cache nor a pending answer predates a clear, no later decision of any run does |
| MaintenanceCache.ClearIsCleanExactly | middleware/maintenanceMode.js:34-37 | After a clear no later decision of any run uses a value read before it if and only if no answer was waiting to be processed at the clear |
| RequestThrottle.Delay | providers/nominatimProvider.js:9-12 | A call waits exactly until 1100 ms after the last request it knows of, and not at all when that has passed |
| RequestThrottle.Throttle.constructor | providers/nominatimProvider.js:5 | No request yet |
| RequestThrottle.Throttle.Begin | providers/nominatimProvider.js:8-12 | The starting turn does not sleep exactly when 1100 ms have passed since the shared time, and else sleeps until then; it does not write the shared time |
| RequestThrottle.Throttle.Fire | providers/nominatimProvider.js:13 | The sending turn writes the shared time |
| RequestThrottle.ApplyKeepsInv | providers/nominatimProvider.js:7-13 | Every interleaved step keeps: a call asleep or sent later was asleep when an earlier request was sent, or is due 1100 ms after it |
| RequestThrottle.SentExactly | providers/nominatimProvider.js:7-13 | In every run exactly those requests have been sent that a waking sleeper sent, or a call that started at least 1100 ms after the request before it; the shared time is that of the last |
| RequestThrottle.EveryCallSentOnce | providers/nominatimProvider.js:7-13 | In every run each call has sent its request once or is asleep |
| RequestThrottle.TurnsPossible | providers/nominatimProvider.js:8-12 | After any run a new call may start, and every sleeper may wake from 1100 ms after the last request on |
| RequestThrottle.BurstBound | providers/nominatimProvider.js:5-13 | In every run a request sent less than 1100 ms after another was asleep when that one was sent, so such a stretch holds at most 1 request more than calls were asleep |
| RequestThrottle.SerialSpaced | providers/nominatimProvider.js:7-13 | When callers do not overlap, consecutive requests are at least 1100 ms apart |
| RequestThrottle.OverlapCollides | providers/nominatimProvider.js:8-13 | In every run, a call that starts while another sleeps can lead to two requests in one moment, by a concrete way of waking |
| RequestThrottle.StartKeepsSpacingExactly | providers/nominatimProvider.js:7-13 | After any call starts in any run, consecutive requests are at least 1100 ms apart however the sleepers wake, if and only if they were so before and no call was asleep; in a serial run, if and only if no call was asleep |
| RequestThrottle.SpacedExactlyWhenSerial | providers/nominatimProvider.js:7-13 | At every moment of a run, whatever the timers do, consecutive requests are at least 1100 ms apart if and only if no call of the run started while another slept |
| RequestThrottle.BurstReached | providers/nominatimProvider.js:8-13 | For every n, a run with n overlapping callers that sends n requests in one millisecond: the bound is tight |
| Texts.TrimExactly | config/permissions.js:171 | Trimming removes white space at both ends and nothing else |
| Texts.BlankExactly | config/permissions.js:171 | Trimming leaves nothing exactly of a text that is white space only |
| Texts.LowerExactly | config/teamPermissions.js:145 | ASCII capitals become the small letters 32 places on, all other characters stay |
| Texts.Prefix | config/permissions.js:196 | The family of a key is its longest dotless prefix that ends the key or stands before a dot |
| Texts.PrefixUnique | config/permissions.js:196 | A dotless text followed by a dot is the family |
| TeamPermissions.RoleNames | config/teamPermissions.js:145-148 | Every name that comes out is trimmed, lower case and not empty |
| TeamPermissions.ToRoleArrayExactly | config/teamPermissions.js:142-149 | For nothing, a single text and an array alike: a role comes out exactly when it is not empty and is the trimmed lower case of the single text or of a text in the array |
| TeamPermissions.ToRoleArrayIdempotent | config/teamPermissions.js:142-149 | Normalising role names twice is normalising them once, in the same order |
| TeamPermissions.CollectPermissions | config/teamPermissions.js:184-199 | The loops give the union of what the known roles list, without repetition, and the wildcard alone when some role lists it |
| TeamPermissions.PermissionsForRolesExactly | config/teamPermissions.js:184-199 | What that union holds, read off the input: the wildcard alone when a written role lists it, else exactly what some written role lists |
| TeamPermissions.HasTeamPermission | config/teamPermissions.js:205-216 | On the input as it is given, in each of its forms: true exactly when some role written in it is in the table and lists the wildcard, the key, or an entry ending in a star that starts with the family of the key |
| Permissions.ExpandDependencies | config/permissions.js:150-162 | For any finite graph, cyclic or with repeated keys, the worklist ends with the least set that contains the known input keys and is closed under requirements, without repetition |
| Permissions.ClosureOk | config/permissions.js:146-162 | The closure contains the known keys and is closed under requirements |
| Permissions.ClosureLeast | config/permissions.js:146-162 | Every closed set around the keys contains the closure |
| Permissions.ClosureIsReachability | config/permissions.js:153-160 | A key is in the closure exactly when a chain of requirements leads to it from an input key |
| Permissions.ClosureMonotone | config/permissions.js:150-162 | More keys, a larger closure |
| Permissions.ClosureIdempotent | config/permissions.js:150-162 | Expanding an expanded set adds nothing |
| Permissions.ClosureOfUnion | config/permissions.js:150-162 | The closure of a union is the union of the closures |
| Permissions.NormalizePermissions | config/permissions.js:169-190 | Accepts exactly the inputs without wildcard and unknown key whose keys are (unless allowed) neither in the set of owner-only keys nor marked so by their entry, and gives the closure; each refusal names exactly the offending keys |
| Permissions.TrimmedKeys | config/permissions.js:171 | Only trimmed, non-empty texts come out |
| Permissions.TrimmedKeysExactly | config/permissions.js:171 | A key comes out exactly when it is not empty and some text of the input is that key with white space around it |
| Permissions.TrimmedKeysFixed | config/permissions.js:171 | A list of trimmed, non-empty texts comes out as it is |
| Permissions.Filter | config/permissions.js:177-183 | Exactly the offending keys, without repetition when the list has none |
| Permissions.Deduped | config/permissions.js:171 | The same keys, each once |
| Permissions.RenormalizesToItself | config/permissions.js:169-190 | A normalised list in any order is accepted again and normalises to the same set, which contains the input |
| Permissions.ClosureStaysInCatalogue | config/permissions.js:153-160 | Expansion brings in neither the wildcard nor a key outside the catalogue |
| Permissions.ClosureKeepsOwnerOnlyOut | config/permissions.js:182-189 | Where no freely grantable entry needs an owner-only key, an accepted role holds none |
| Permissions.OwnerOnlyNeverLeaksExactly | config/permissions.js:182-189 | Validation keeps owner-only keys out of every accepted role if and only if no freely grantable entry of the catalogue needs one |
| PermissionChecks.HasPermissionInSet | config/permissions.js:192-198 | The decision depends only on the set of listed permissions: wildcard, the key, or a star entry of its family |
| PermissionChecks.GrantsUnion | config/permissions.js:192-198 | The check distributes over union |
| PermissionChecks.RolesGrantExactly | config/permissions.js:192-229 | The collected permissions of an input allow a key exactly when the list of some role written in it does |
| PermissionChecks.ChecksCoincideExactly | config/teamPermissions.js:184-216 | For every role table the check on roles and the check on the union of their permissions agree for all role lists and all keys if and only if every family that the loose reading accepts, down to the empty one, has a star entry of its own; where no entry starts with a dot, that is if and only if every role lists the wildcard or no star entry at all |
| PermissionChecks.DottedExactly | config/teamPermissions.js:212-213 | Where no entry starts with a dot, a list meets the general condition exactly when it has the wildcard or no star entry |
| PermissionChecks.FamilyStarDiffers | config/teamPermissions.js:212-213 | A list with a family star and a key of that family does not meet it |
| PermissionChecks.UndottedDiffers | config/teamPermissions.js:212-213 | Every role list that violates the general condition has a key on which the two checks differ |
| PermissionChecks.OnlyStarIsDotted | config/teamPermissions.js:27-126 | A list whose only star entry is the wildcard meets the condition |
| PermissionChecks.LooseFamily | config/teamPermissions.js:212-213 | A star entry of a neighbouring family passes the check on roles and not the check on lists |
| PermissionChecks.CollectMemberPermissions | config/permissions.js:221-229 | The wildcard alone when the system roles hold it, else their permissions together with those of all custom roles, without repetition |
| PermissionChecks.PermissionsForMemberExactly | config/permissions.js:221-229 | What that list holds, read off the input: the wildcard alone when a written system role lists it, else exactly what some written system role or some custom role lists |
| PermissionChecks.AddAll | config/permissions.js:225-227 | A list is added to a set kept as a list, without repetition |
| PermissionChecks.MemberGrantsExactly | config/permissions.js:221-229 | A member may do exactly what the system roles or one of the custom lists allow |
| PermissionChecks.MemberIsRolesOrCustoms | config/teamPermissions.js:205-216 | For role tables on which the two checks coincide, a member may do exactly what the check on the system roles or the check on some custom list allows |
| DelegatedGrants.CanGrantPermissions | config/permissions.js:204-215 | Granted exactly to the owner, or when every requested key is not in the set of owner-only keys, not marked so by its entry, and held; a refusal names the first key that is not, with the right reason |
| DelegatedGrants.HoldingKeysExactly | config/permissions.js:192-215 | Whoever holds every granted entry may do everything the grant allows if and only if the grant has no wildcard the holder lacks |
| DelegatedGrants.GrantAddsNothing | config/permissions.js:200-215 | A grant that passes the guard allows nothing the granter may not do, and carries no wildcard the granter lacks and no owner-only key |
| DelegatedGrants.RawCheckSufficesExactly | config/permissions.js:150-215 | Checking lists before expansion suffices for a granter if and only if what the granter may use is closed under requirements |
| DelegatedGrants.FinanceNotClosed | config/teamPermissions.js:75-103 | The shipped finance role is not closed under requirements: it lists the stays analytics without the stays page |
| DelegatedGrants.SupportNotClosed | config/teamPermissions.js:104-125 | The shipped support role is not closed under requirements: it lists the stays reviews without the stays page |
| DelegatedGrants.EffectiveIsRequested | src/core/domain/teamController.js:519-522 | What an assignment makes effective is among what the guard is asked about |
| DelegatedGrants.RequestedExactly | src/core/domain/teamController.js:502-519 | The guard is asked about exactly the permissions listed by a written system role (the wildcard alone where it is listed) or by an assigned custom role that exists |
| DelegatedGrants.MemberMayAssignExactly | src/core/domain/teamController.js:492-527 | A member may make an assignment exactly when its custom roles exist and every permission it asks for is not owner-only, by either field of the catalogue, and held by the member |
| DelegatedGrants.OwnerMayExactly | src/core/domain/teamController.js:492-527 | The owner may store exactly what validation accepts, as its closure, and assign exactly the roles that exist |
| DelegatedGrants.MemberAssignAddsNothing | src/core/domain/teamController.js:492-530 | An assignment by a member that passes the guard lets the receiver do nothing the granter may not do |
| DelegatedGrants.StepKeepsInv | src/core/domain/teamController.js:519-527 | Role edits, archiving, assignments by the owner and by members, and removals all keep: what a member may do was handed out by the owner |
| DelegatedGrants.TeamExactly | src/core/domain/teamController.js:519-530 | After every history each member has the assignment made last and not removed since, and each custom role is what was written last and not archived since |
| DelegatedGrants.GivenExactly | src/core/domain/teamController.js:519-527 | The record of what the owner handed out has exactly what some assignment by the owner asked for, or was written into a role that a member held |
| DelegatedGrants.EffectiveSource | config/permissions.js:221-229 | Whatever is on a member's list is listed by a system role that can be assigned or by a stored custom role |
| DelegatedGrants.StepKeepsValidated | config/permissions.js:169-190 | Every stored custom role holds only catalogue keys, and no owner-only key where no freely grantable entry needs one |
| DelegatedGrants.OwnerOnlyNeverHeldExactly | config/permissions.js:169-229 | Along all histories of a team no member ever holds an owner-only key if and only if no freely grantable entry of the catalogue needs one and no assignable system role brings one in |
| DelegatedGrants.WildcardHeldExactly | config/teamPermissions.js:24-29 | Some history lets a member hold the wildcard if and only if some assignable system role lists it: custom roles never bring it in |
| DelegatedGrants.OwnerOnlyNeedsWildcard | config/permissions.js:192-229 | With such tables and no other star entry, a member who may use an owner-only key holds the wildcard |
| DelegatedGrants.NoEscalation | config/permissions.js:200-229 | Along every history of a team, through any chain of delegated assignments: what a member may do the owner handed out, the wildcard and owner-only keys are on a list only where the owner put them, and where the tables keep them out no list has a key that is in the set of owner-only keys or marked so by its entry |
| ChatAccess.TeamContextResolved | middleware/teamRoleMiddleware.js:60-170 | An owner's context is for their own account or for none and allows the chat; a member's context always names an account |
| ChatAccess.TeamContextExactly | middleware/teamRoleMiddleware.js:60-150 | Who has a context and which: users with a profile own their account, admins without one act for none, members act for their supplier with exactly what their roles allow |
| ChatAccess.Request.constructor | routes/chatRoutes.js:22 | A request starts without supplier identity |
| ChatAccess.Request.AttachSupplierIdentity | routes/chatRoutes.js:22-37 | The request gets the account behind the user, marked as a membership exactly when it is not their own; a failed lookup changes nothing |
| ChatAccess.Request.RequireChatViewForMembers | routes/chatRoutes.js:90-93 | Only a request through a membership needs the chat permission |
| ChatAccess.GatesAgreeExactly | middleware/teamRoleMiddleware.js:288-303 | For every user, every resolved context and a failed lookup: the HTTP gate and the socket gate decide alike if and only if it is not a membership of one's own account without the chat permission |
| ChatAccess.GatesCanDiffer | middleware/teamRoleMiddleware.js:226-303 | A state of the database, a membership of oneself without any role, in which HTTP admits and the socket refuses |
| ChatAccess.GatesAgree | routes/chatRoutes.js:79-93 | When a member's supplier is not the member, both gates decide alike for every state of the database |
| ChatAccess.IdentitiesAgree | src/core/domain/chatController.js:57-61 | For every user, state of the database and outcome of the lookup: a chat request and a chat event are for the same account if and only if the user is no admin or the shared admin account is their own or not set up |
| ChatAccess.ActiveListsGrant | middleware/teamRoleMiddleware.js:130-137 | Archived custom roles grant nothing, all others what they list |
| ChatAccess.MemberPermissionsByRole | middleware/teamRoleMiddleware.js:16-20 | For every table: a member may do exactly what some system role or unarchived custom role lists, the system roles being those written in the list of roles, or those in the single column when no text in the list has more than white space |
| ChatAccess.MemberAdmittedExactly | middleware/teamRoleMiddleware.js:226-303 | Both gates admit a member exactly when one of the roles in the stored columns, read as above, allows the chat |
| ChatAccess.OthersAdmitted | middleware/teamRoleMiddleware.js:226-303 | Both gates admit admins, owners and users without a membership, and anyone whose lookup fails |
| ChatAccess.ActsForSupplier | routes/chatRoutes.js:22-37 | Without the admin role both sides act for the supplier of a membership, and else, or when the lookup fails, for the user |
| ChatRooms.ChatSocket.constructor | server.js:396-415 | A new socket is in its own user room and the rooms of its roles, its identity fields unset |
| ChatRooms.ChatSocket.Join | server.js:415 | The room is added and no other |
| ChatRooms.ChatSocket.Leave | server.js:578 | The room is left and no other |
| ChatRooms.ChatSocket.OnSharedId | server.js:402-412 | A shared id, when there is one, adds its user room |
| ChatRooms.ChatSocket.OnAccess | server.js:423-438 | Another account is set as the identity, and its user room joined when the chat is allowed; the permission is set for a membership; nothing else changes |
| ChatRooms.ChatSocket.OnAccessFailure | server.js:439-444 | A failed lookup leaves the identity unset and the chat allowed |
| ChatRooms.ChatSocket.BeginChat | server.js:530-543 | Refused exactly when the chat is forbidden; else an admin goes on to the shared account and everyone else to the supplier on the socket or to themselves, by the fields of this one turn |
| ChatRooms.ResolvedAnswerable | middleware/teamRoleMiddleware.js:292-303 | What the lookup answers: only a member is restricted or acts for another account |
| ChatRooms.MembershipExactly | server.js:542-584 | In every interleaving a socket is in a conversation room if and only if one of its joins was carried out, its participant check passed, and since then neither a leave of it nor a disconnect was |
| ChatRooms.DeliveredExactly | server.js:586-742 | In every interleaving exactly those deliveries have been made that some turn sent: to a socket in the conversation room when a checked event was broadcast, or in the user room of the other participant when the copy for them went out |
| ChatRooms.MessageAccepted | server.js:586-606 | A message of a socket acting for a participant gets through the gate and the participant check to the service call |
| ChatRooms.MessageServed | server.js:607-624 | After the service call the conversation room and the user room of the other participant are served |
| ChatRooms.MessageArrives | server.js:586-626 | A message of a socket acting for a participant, its turns undisturbed, reaches everyone in the conversation room and in the other participant's user room |
| ChatRooms.StartIsSafe | server.js:530-543 | The identity a chat event starts with is one its socket may act as |
| ChatRooms.ApplyKeepsInv | server.js:396-738 | Every interleaved step keeps: rooms, waiting handlers and deliveries are justified, and the fields of a socket are what its lookup left |
| ChatRooms.RunKeepsInv | server.js:396-738 | The same over every run |
| ChatRooms.RoomSafety | server.js:399-444 | In every interleaving each room a socket is in is justified by its own id, by the shared id of its role, or by the supplier id of a membership that may read the chat |
| ChatRooms.DeliverySafety | server.js:530-742 | In every interleaving every delivery came through a conversation room the socket was entitled to or the user room of another participant it may act as, on behalf of an account that took part, and was sent by a socket that may act as that account |
| ChatRooms.FailedLookup | server.js:439-444 | A run in which the lookup fails: the user stays in their own room only and their chat events go ahead as themselves |
| ChatRooms.StartExactly | server.js:423-444 | After any run a chat event of a socket without the admin role is refused exactly for a member whose landed lookup denies the chat; otherwise it acts as the supplier once the lookup has landed, and as the user before and after a failure |
| ChatRooms.RefusedMemberSeesNothing | server.js:425-440 | A socket whose lookup denied the chat, without a shared role, is in no user room but its own, has received only from conversations its own user took part in, and every further chat event is refused |
| ChatRuns.ConnectedExactly | server.js:396-415 | In every run a socket is known exactly when it has connected, as the user and with the roles it connected with |
| ChatRuns.RecordsExactly | server.js:399-444 | In every run lookups, participants and answers of the shared lookups are exactly what the events brought |
| ChatRuns.RoomsExactly | server.js:399-444 | In every interleaving, with no later disconnect: a socket is in a user room exactly when it connected as that user, a shared lookup of it landed with that account, or its access lookup landed with that account, not its own, and the chat allowed; in the admin or expedition room exactly when it connected with the role |
| ChatRuns.MayActAsExactly | server.js:399-438 | After every run, read off the events: a socket may act as the user it connected as, as an account the shared lookup of its role has answered, and as the account its own lookup named together with the right to chat |
| ChatRuns.HandlerBegan | server.js:545-738 | In every interleaving every handler at work is that of a chat event that began on its socket, of its kind and for its conversation |
| ChatRuns.DeliveredToParticipants | server.js:530-742 | In every interleaving everything delivered was sent for someone who took part in the conversation, by a chat event of that kind that began on a socket that could act as them, through the conversation's room or the user room of another participant, to a socket that may act as one who took part |
| ChatRuns.StartsExactly | server.js:523-543 | After every run, read off the events: a chat event is refused exactly after a lookup that denied a member the chat; else an admin goes on to the shared account, everyone else acts for the supplier the lookup named or for themselves |
| ChatRuns.IsForExactly | server.js:530-535 | After every run, read off the events: which account a chat event is for, an admin's for the shared account if there is one, and that it is for nobody exactly when the lookup denied a member the chat |
| ChatRuns.TurnsPossibleExactly | server.js:396-444 | After every run, which turns other than those of waiting handlers can come next; an access lookup can land with exactly what some context of the user resolves to |
| ChatRuns.AnswersResolve | middleware/teamRoleMiddleware.js:292-303 | The answers the protocol lets a lookup give are exactly those that some context of the user resolves to |
| ChatRuns.OutsiderGetsNothing | server.js:545-742 | An event of a socket whose account takes no part in the conversation changes no room and delivers nothing |
| ChatRuns.RefusedGetsNothing | server.js:530-543 | An event of a refused socket changes nothing |
| ChatRuns.JoinOrLeaveTakesEffect | server.js:542-584 | A join or leave for a participant, an admin's for the shared account, adds or removes that room of that socket and nothing else |
| ChatRuns.EventArrives | server.js:586-742 | Each kind of chat event for a participant, an admin's for the shared account, its turns undisturbed, is delivered to exactly the sockets in the conversation room, the sender's own only with a message, and, unless it is chat:mark-read, those in the user room of the other participant |
| RbacState.GoalIsStable | prisma/seed.js:98-171 | The goal of a run from a state that reached its goal is that state |
| RbacState.DropLinksOnCourse | prisma/seed.js:108-110 | Removing links to stale permissions leaves no dangling link, the same goal, and every declared link there was |
| RbacState.DropPermsOnCourse | prisma/seed.js:111-113 | Stale permissions may go once no link refers to them, with the same goal and every declared link there was |
| RbacState.PutPermOnCourse | prisma/seed.js:118-122 | Upserting a declared permission keeps keys unique, links intact, the goal and the declared links |
| RbacState.PutRoleOnCourse | prisma/seed.js:140-148 | Upserting a declared role keeps names unique, links intact, the goal and the declared links |
| RbacState.RelinkOnCourse | prisma/seed.js:150-167 | Changing the links of a declared role within the stored rows keeps the goal |
| RbacState.UnlinkOnCourse | prisma/seed.js:162-167 | Removing links that are not declared stays on course |
| RbacState.AddThenRemove | prisma/seed.js:155-167 | Adding what is missing and removing what is extra leaves exactly the wanted links, and writes nothing when they are there already |
| RbacState.SettledIsGoal | prisma/seed.js:98-171 | When permissions and roles are as declared, what is stored is the goal: exactly the declared permissions and links, other roles untouched but for stale links |
| RbacState.GoalIsSettled | prisma/seed.js:98-171 | And the other way round |
| RbacSeed.Database.FindPerm | prisma/seed.js:134 | A stored row with the key, if there is one |
| RbacSeed.Database.FindRole | prisma/seed.js:140-141 | A stored row with the name, if there is one |
| RbacSeed.Database.UpsertPerm | prisma/seed.js:118-122 | Name, description and category of the row with the key, or a new row; nothing else is written |
| RbacSeed.Database.UpsertRole | prisma/seed.js:140-148 | The description of the row with the name, or a new row; nothing else is written |
| RbacSeed.Database.DeleteLinksTo | prisma/seed.js:108-110 | All and only the links to the given permissions go |
| RbacSeed.Database.DeletePerms | prisma/seed.js:111-113 | All and only the given rows go |
| RbacSeed.Database.CreateLinks | prisma/schema.prisma:2455-2465 | All links are stored, or none when one would be stored twice |
| RbacSeed.Database.DeleteLinks | prisma/seed.js:164-166 | All and only the given links of the role go |
| RbacSeed.Database.RemoveStale | prisma/seed.js:101-114 | Only declared permissions stay, links to declared ones are as before, and every state on the way is consistent; with nothing stale nothing is written |
| RbacSeed.Database.SeedPermissions | prisma/seed.js:98-126 | Afterwards exactly the declared permissions are stored, as declared, and every state on the way is consistent with the same goal |
| RbacSeed.Database.SeedPerm | prisma/seed.js:118-122 | One more declared permission is stored as declared, the earlier ones stay so, the links are seen as before |
| RbacSeed.Database.AddMissing | prisma/seed.js:155-160 | The wanted links that are not there are stored, or none when the insertion is refused; without any nothing is written |
| RbacSeed.Database.RemoveExtra | prisma/seed.js:162-167 | The links that are not wanted go; without any nothing is written |
| RbacSeed.Database.LookUpKeys | prisma/seed.js:132-138 | Every key is declared and its id found, or an undeclared key is reported |
| RbacSeed.Database.ReconcileLinks | prisma/seed.js:150-167 | The role ends with exactly the given permissions, unless a repeated one that is not linked yet makes the insertion fail; nothing is written when it has them already |
| RbacSeed.Database.SyncRole | prisma/seed.js:140-167 | Only this role and its links change, and it ends as declared exactly when its declaration is acceptable |
| RbacSeed.Database.SeedRole | prisma/seed.js:131-170 | The role ends as declared exactly when its keys are declared and a key listed twice is linked already; rows and links of other roles stay as they are; a refused role keeps its links; a role already as declared is left so |
| RbacSeed.Database.SeedRoles | prisma/seed.js:128-171 | All roles end as declared and all declarations were acceptable at the start, or the run ends at the first that was not: earlier roles as declared, later ones untouched |
| RbacSeed.Database.Seed | prisma/seed.js:98-171 | From every consistent state: after each write there is no dangling link, the goal is the same, declared permissions and all roles keep their ids, and what was acceptable stays so; the run completes exactly when all declarations are acceptable, and then the goal is reached; else it ends at the first role that is not, with the later ones untouched; from a state at its goal every write leaves it as it is |
| RbacSeed.Database.SeedNth | prisma/seed.js:131-170 | With the first roles through, the next one is through too or the run ends there |
| RbacSeed.CompletesExactly | prisma/seed.js:128-171 | A run completes exactly when every role lists only keys of declared permissions and every key it lists twice is linked to it in the tables at the start |
| RbacSeed.CompletedPermissions | prisma/seed.js:98-126 | After a completed run exactly the declared permissions are stored, each as declared; those there before keep their id and their system flag, a new one has none |
| RbacSeed.CompletedRoles | prisma/seed.js:140-148 | After a completed run every role there before keeps its id, name and flags, a declared one with its declared description and any other unchanged; the new rows are declared roles, with the declared system flag and no default flag |
| RbacSeed.CompletedLinks | prisma/seed.js:150-167 | After a completed run a declared role is linked to exactly the permissions whose keys it lists, and any other role to those it was linked to before that are still stored |
| RbacSeed.StoppedLeaves | prisma/seed.js:128-171 | A run that does not complete ends at some declared role, because it lists an undeclared key or lists a key twice that it was not linked to: the roles before it are as declared, it and the later ones have the links they had, and the later ones their rows |
| RbacSeed.RefusedExactly | prisma/seed.js:155-160 | When every key is declared, a run is stopped by a refused insertion if and only if some key listed twice was not linked at the start |
| RbacSeed.RepeatedKeyRefused | prisma/seed.js:155-160 | Concrete tables and a start at which every run is stopped by a refused insertion |
| RbacSeed.CourseKeepsAcceptable | prisma/seed.js:155-167 | No state on the way loses the link of a repeated key, so declarations acceptable at the start stay acceptable |
| RbacSeed.CrashesStayOnCourse | prisma/seed.js:98-171 | After any number of runs cut off between writes the state is still on the course of the first start |
| RbacSeed.RerunReachesTheGoal | prisma/seed.js:98-171 | After any number of runs cut off between writes, a run that is not cut off completes and reaches the goal of the first start, if that start was acceptable |
| RbacSeed.Missing | prisma/seed.js:155 | What is to be added repeats nothing exactly when every repeated key is linked already |

## Left out

- FlattenSql.MeaningPreservedExactly: reads a text as names, other characters and positional parameters; quoted strings and identifiers, comments and the inside of dollar quotes are not part of `Lex`, which goes on reading parameters there. A numeral with a letter or an underscore (`1e5`, `0x1F`, `1_000`) is taken for a name from that character on, so a placeholder directly behind it counts as unsafe although PostgreSQL 16 reads it as a parameter.
- FlattenSql.FlattenInto: templates are finite trees, so a fragment that contains itself is not modelled, nor are `strings` entries that are not texts; the patching of the client (`jest.setup.js:88-108`) is left out.
- ConnectionLimiter.ConnectionAttempts.Attempt: the cookie and token checks that follow in the same handler, which may still refuse the connection, are not modelled.
- ConnectionLimiter.WindowBound: assumes a clock that does not run backwards, as do the other results on timed state.
- RequestThrottle.BurstBound: assumes that a timer does not fire early.
- RequestThrottle.Throttle.Fire: the request itself, its answer and its failure do not touch the shared time and are left out.
- MaintenanceCache.Maintenance.Arrive: the response that a decision leads to is its `blocked` flag.
- Texts.Lower: lower case and prefixes are modelled for ASCII; `toLowerCase` of other letters is not.
- TeamPermissions.HasTeamPermission: a role named like an inherited object property (`constructor`) is not in the table, while the object lookup of the source would find something.
- Permissions.NormalizePermissions: the wording of the messages is left out, their keys are modelled.
- DelegatedGrants.NoEscalation: the granter's permissions are those at the moment of the assignment; the context cache of 30 seconds, the limit on the number of roles and the exclusive admin role are left out. They only refuse more, or delay.
- ChatAccess.TeamContextResolved: the cache of 30 seconds is left out, so both sides see a context of the same database; ids and e-mails are not the empty text except where the code asks.
- ChatAccess.Request.RequireChatViewForMembers: `requirePermission` and `protect`, which run before it, are not modelled.
- ChatAccess.IdentitiesAgree: compares the ids that the two sides hand on; what `chatService` makes of an id is not part of this model.
- ChatRooms.MessageArrives: the undisturbed order of turns only; in other interleavings participants may change in between.
- ChatRuns.EventArrives: likewise the undisturbed order of turns; what every interleaving delivers is ChatRooms.DeliveredExactly.
- ChatRooms.DeliverySafety: payload checks, acknowledgements and message contents are left out; they refuse more or carry what is sent. `chatService` is not part of this model: its calls are steps that return or throw.
- ChatRooms.RoomSafety: rights that change after the connect-time lookup do not reach a connected socket, in the source as in the model; expiry of the token is a disconnect at any time.
- RbacSeed.Database.Seed: generated ids are any unused numbers, time stamps and the users of a role are left out, and each call is one atomic step; another writer at the same time is not modelled.
- RbacSeed.Database.LookUpKeys: the look-ups of one role run concurrently in the source and only read, so which of several missing keys is reported is the first here.
- RbacSeed.Database.SyncRole: a stored description that is null is modelled as a text.
- The development users, tours and default-role assignment of `prisma/seed.js`.
- Notification categories and types, `roleNamesForMember`, `normalizeTeamRoles`, `describeRoles`, `mergeUiPreferences` and the further fields of `attachContext`: filters and lookups whose properties follow from their bodies.
- `review:respond` and the authentication of a socket in `server.js`; JWT, cookies and rate limits by libraries.
