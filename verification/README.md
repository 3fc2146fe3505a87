# Marketplace backend: a verified model

This project models the parts of the marketplace backend whose behaviour is hard to see from one function body, and
proves what they promise. SQL tables are maps or sequences; one SQL statement, or one transaction that locks what it
reads, is one atomic step.

* `Common.dfy`, `FkExpansion.dfy`: expanding foreign keys in an arbitrary JSON tree. Collecting ids, fetching each
  entity once and rewriting from the fetched rows equals the rewrite that looks every id up where it stands.
* `Like.dfy`, `Taxonomy.dfy`, `ProductSearch.dfy`: the search compiler. Conditions have an evaluator over the positional
  parameters; the compiled query selects exactly the rows the filters mean, and every `$k` is bound as intended.
* `Products.dfy`: product requests with their transactions, the batched image INSERT, and what every run keeps.
* `OtpAttempts.dfy`: one-time passwords and the windowed attempt counter over every history.
* `Sessions.dfy`, `Registrations.dfy`, `SessionEffects.dfy`, `AuthService.dfy`: accounts, token versions, refresh ids and
  registrations as a state machine of interleaved statements, what those statements write field by field, and the service
  methods that run them in place.
* `ChatTables.dfy`, `ChatRooms.dfy`, `ChatRequests.dfy`, `ChatOverlaps.dfy`, `ChatBlocks.dfy`,
  `ChatUnread.dfy`, `ChatRefinement.dfy`, `ChatEffects.dfy`, `ChatServices.dfy`, `ChatSockets.dfy`, `MessagePages.dfy`:
  the chat protocol.
  `ChatRooms` interleaves statements, room joins and emits; `ChatRequests` runs whole requests one after another, and
  `ChatRefinement` proves those to be runs of the former whose requests do not overlap. `ChatOverlaps` and `ChatBlocks`
  say exactly what overlapping can break, `ChatUnread` what it cannot, and `ChatEffects` what each request answers and
  writes. The services and the registry are classes over
  the same tables.
* `LogSanitizer.dfy`: the bounded sanitizer of logged payloads.

## Conventions

* A step whose guard fails leaves the state as it is, so the runs of a machine are all finite sequences of actions.
* Fresh refresh ids, request ids, socket ids and row ids are assumed: an action with a used one changes nothing.
* Tokens verify when the service issued them. Their own expiry is not modelled; it can only make fewer acceptable.
* Hashing, password comparison, trimming, lower-casing of keys, case folding, timestamps and full-text search are
  parameters. Of case folding only this is assumed: it keeps `%`, `_` and `\`, and maps nothing else onto them.
* Conditions of the search query are kept as (column, operator, placeholder number), not as text.
* A JSON object is an ordered list of entries; prototype keys and the reordering of integer-like keys are not modelled.
* The id collector may fetch more rows than the rewrite consults (`FkExpansion.CollectedCanExceedConsulted`); it fetches
  exactly those for payloads without colliding keys or containers under foreign keys
  (`FkExpansion.TightCollectsConsulted`).
* Ids are natural numbers; the string form of BIGINT columns appears only where JSON carries an id.

## Where the promise and the code differ

* `last_message_id` is the newest message when requests do not overlap. With overlapping requests it can stay
  behind until the next send (`ChatOverlaps.LastCanStayBehind`); it is the newest exactly when the last recording was not
  overtaken by a later message and no later message still waits to be recorded (`ChatOverlaps.LastIsNewestIff`).
* An attached product is never replaced when requests do not overlap. Overlapping ones can replace it
  (`ChatOverlaps.ProductCanBeOverwritten`), exactly when a request attaches to a conversation that got another product
  since it was read (`ChatOverlaps.KeptIffNeverOverwrites`); never while at most one request at a time is about to attach
  to a conversation (`ChatOverlaps.ProductIsWriteOnce`).
* A block freezes a conversation when requests do not overlap. With overlapping ones a conversation can change under a
  standing block (`ChatBlocks.BlockCanBeOvertaken`). Every such change belongs to a request that passed its check before
  the block came (`ChatBlocks.EachChangeWasChecked`), and one can still come exactly when such a request has something
  left to change (`ChatBlocks.ChangesIffUnderWay`).
* A phone can be both pending and registered (`Registrations.OverlapBreaksExclusion`). It happens exactly when a request
  stores a pending row although the phone was taken since its check, or the seeder creates an account for a pending phone
  (`Registrations.ExclusiveIffNeverBreaks`). Without overlapping requests only the seeder can do it
  (`Registrations.NeverPendingAndRegistered`).
* A registration request whose code cannot be sent deletes its pending row by id. If a later request for the phone has
  replaced the row meanwhile, it is that one which is deleted (`SessionEffects.FailedSendDeletesReplacement`).
* A refresh that has taken its row is not stopped by a later logout or by the row's expiry
  (`Sessions.RefreshOutlivesItsEnd`). After its end a refresh id pays for at most the one request that holds it already,
  and exactly when that request has read its user or can still do so (`Sessions.SuccessAfterTheEnd`).
* The admin seeder sets the role without a new token version, so an accepted token may then understate the role
  (`Sessions.SeededRoleCanBeUnderstated`); it never overstates it. Tokens stay exact exactly when no seeding gives the
  role to an existing account while a claim of its current version is out (`Sessions.ExactIffHarmlessSeeds`).
* Paging by `before` is complete exactly when the times of a conversation differ in their milliseconds, because the
  cursor loses the microseconds (`MessagePages.CompleteIffDistinctMillis`); a single walk is complete exactly when none
  of its pages ends between two messages of one millisecond (`MessagePages.WalkCompleteIffCleanCuts`).
* Sanitizing is the identity exactly on settled values (`LogSanitizer.IdentityOnSettled`). Besides values within all
  limits those are the strings and arrays whose own tail already is the note that cutting them would write.
* The message for a locked attempt window says the one-time password is invalidated; the code only deletes the counter
  row and leaves the password row as it is, and the model follows the code. After a lock the right code is accepted
  exactly until it expires (`OtpAttempts.RightCodeAfterLock`), so wrong guesses at one code are not bounded by the
  attempt limit: every fifth of them is answered with a lock, without end (`OtpAttempts.LocksDoNotInvalidate`).

## Model

| member | source | states |
|---|---|---|
| `Like.ContainsPatternIsContains` | src/common/helpers/db.helpers.ts:22-24 | a text matches `%` + escaped term + `%` exactly when it contains the term |
| `Like.ContainsPatternFolded` | src/products/products.service.ts:315-322 | the same for ILIKE, up to per-character case folding |
| `Like.EscapedIsExact` | src/common/helpers/db.helpers.ts:22-24 | an escaped term on its own matches only itself |
| `Like.EscapedPrefix` | src/common/helpers/db.helpers.ts:22-24 | an escaped term in front of any pattern consumes exactly itself |
| `Like.EscapeInjective` | src/common/helpers/db.helpers.ts:22-24 | different terms never share an escaped form |
| `Like.PatternHeads` | src/common/helpers/db.helpers.ts:22-24 | what a pattern means, by its first character |
| `Like.ContainsIsInfix` | src/common/helpers/db.helpers.ts:22-24 | containing a term means being something, the term, and something again |
| `Like.FoundIffCaseVariant` | src/products/products.service.ts:315-322 | a term is found by ILIKE exactly in the texts that hold a case variant of it |
| `FkExpansion.RewriteItems` | src/common/relations/fk-expansion.service.ts:135-137 | arrays keep length and order, each item rewritten on its own |
| `FkExpansion.CollectedCoversConsulted` | src/common/relations/fk-expansion.service.ts:58-86 | the collecting walk covers every (entity, id) pair the rewrite looks up |
| `FkExpansion.CollectedCanExceedConsulted` | src/common/relations/fk-expansion.service.ts:68-81 | ids below a foreign-key value are collected although the rewrite never asks for them |
| `FkExpansion.TightCollectsConsulted` | src/common/relations/fk-expansion.service.ts:58-86 | without colliding output keys and containers under foreign keys, exactly the consulted pairs are collected |
| `FkExpansion.RewriteDependsOnConsulted` | src/common/relations/fk-expansion.service.ts:134-162 | tables that agree on the consulted pairs give the same expansion |
| `FkExpansion.IdCollector.Add` | src/common/relations/fk-expansion.service.ts:72-75 | adds one id to the set of its entity, creating the set if missing |
| `FkExpansion.IdCollector.Walk` | src/common/relations/fk-expansion.service.ts:61-85 | the map of sets grows by exactly the pairs of the tree |
| `FkExpansion.FetchRows` | src/common/relations/fk-expansion.service.ts:196-198 | exactly the existing rows among the ids, in any order |
| `FkExpansion.ResolveEntities` | src/common/relations/fk-expansion.service.ts:88-132 | the fetched maps agree with the database on every collected pair, and each entity with collected ids is fetched once |
| `FkExpansion.TransformNode` | src/common/relations/fk-expansion.service.ts:134-162 | rewriting from maps is the direct rewrite against those maps |
| `FkExpansion.TransformObject` | src/common/relations/fk-expansion.service.ts:142-161 | the output object is filled so that the first claim of an output key wins |
| `FkExpansion.Expand` | src/common/relations/fk-expansion.service.ts:52-56 | for every tree and database, the three passes equal one direct lookup per node |
| `FkExpansion.ObjectOutput` | src/common/relations/fk-expansion.service.ts:144-159 | an object's output entries are the first occurrences of the renamed keys, in entry order |
| `FkExpansion.OutputKeys` | src/common/relations/fk-expansion.service.ts:144-159 | output keys are distinct and are exactly the renamed input keys |
| `FkExpansion.UnshadowedField` | src/common/relations/fk-expansion.service.ts:145-158 | an unshadowed plain field survives rewritten in place; an unshadowed foreign key becomes the fetched record itself or null |
| `FkExpansion.OwnerCollision` | src/common/relations/fk-expansion.service.ts:24-27 | in every object the first of `owner` and `owner_id` decides `owner` and the other is dropped |
| `FkExpansion.PlainPayloadStays` | src/common/relations/fk-expansion.service.ts:134-162 | a payload without foreign keys and repeated keys is returned unchanged, however it is nested |
| `FkExpansion.PlainFieldStays` | src/common/relations/fk-expansion.service.ts:155-158 | a scalar under a key that no rule knows stays in its object as it is |
| `FkExpansion.ForeignKeyBecomesRow` | src/common/relations/fk-expansion.service.ts:144-153 | an unshadowed foreign key becomes the row of the id its value denotes, or null |
| `FkExpansion.IdIsDenoted` | src/common/relations/fk-expansion.service.ts:380-394 | a value is read as the id n exactly if it is n or its decimal digits, leading zeros allowed |
| `FkExpansion.DerivedKey` | src/common/relations/fk-expansion.service.ts:376-378 | deriving a key drops a final "_id" and does nothing else |
| `FkExpansion.ForeignKeys` | src/common/relations/fk-expansion.service.ts:16-43 | which keys name which entity |
| `LogSanitizer.SanitizeForLog` | src/common/logging/logging.utils.ts:16-51 | the recursive method computes the sanitizing function |
| `LogSanitizer.SanitizeEntries` | src/common/logging/logging.utils.ts:40-50 | the entry loop computes the sanitized first thirty entries |
| `LogSanitizer.SanitizedIsLimited` | src/common/logging/logging.utils.ts:16-51 | every result keeps all limits at every level and shows `[REDACTED]` under every sensitive key |
| `LogSanitizer.LimitedIsSmall` | src/common/logging/logging.utils.ts:11-14 | a tree within the limits has at most 1 + 30 + ... + 30^n nodes |
| `LogSanitizer.SanitizedSize` | src/common/logging/logging.utils.ts:16-51 | a sanitized payload has at most 1 + 30 + 30^2 + 30^3 + 30^4 nodes |
| `LogSanitizer.IdentityOnSettled` | src/common/logging/logging.utils.ts:16-51 | sanitizing is the identity exactly on settled values |
| `LogSanitizer.SettledString` | src/common/logging/logging.utils.ts:20-24 | exactly which strings cutting leaves unchanged |
| `LogSanitizer.DistinctFields` | src/common/logging/logging.utils.ts:40-50 | with distinct keys the output lists the sanitized entries in order |
| `LogSanitizer.RedactedExactly` | src/common/logging/logging.utils.ts:40-50 | of the first thirty entries exactly those show "[REDACTED]" whose key names a secret; the others show their own sanitized value |
| `LogSanitizer.SecretsAreRedacted` | src/common/logging/logging.utils.ts:42-47 | no value under a secret key is ever shown, repeated keys or not |
| `LogSanitizer.SeparatorsAreDropped` | src/common/logging/logging.utils.ts:43-43 | underscores and hyphens are dropped wherever they stand and nothing else is |
| `LogSanitizer.WordsAreSecret` | src/common/logging/logging.utils.ts:1-9 | a key that reads as one of the seven words in lower case is secret |
| `LogSanitizer.SpellingsAreSecret` | src/common/logging/logging.utils.ts:43-44 | a separator anywhere in a key makes no difference to that |
| `LogSanitizer.ScalarsAndStrings` | src/common/logging/logging.utils.ts:16-27 | scalars stay; a long string keeps its first 300 characters and says how many more there were |
| `LogSanitizer.LongArray` | src/common/logging/logging.utils.ts:32-38 | an array keeps its first twenty items, sanitized, and says how many more there were |
| `LogSanitizer.DecimalReads` | src/common/logging/logging.utils.ts:22-22 | the number in such a note is the number that was cut and no other |
| `ProductSearch.PushIf` | src/products/products.service.ts:291-294 | one guarded push keeps conditions numbered after the leading parameters and aligned with their operands |
| `ProductSearch.BuildSearchFilters` | src/products/products.service.ts:282-342 | the compiled list holds exactly the given filters, numbered in order |
| `ProductSearch.CompiledEval` | src/products/products.service.ts:282-342 | compiled conditions evaluate inside any larger parameter array to "every given filter holds" |
| `ProductSearch.FiltersMean` | src/products/products.service.ts:291-336 | the filters one by one say what the request means |
| `ProductSearch.CompiledMeans` | src/products/products.service.ts:282-342 | clauses evaluated against the full parameter array equal the direct filter predicate |
| `ProductSearch.AssertSearchCategoryPair` | src/products/products.service.ts:417-420 | a given pair is rejected exactly when the subcategory is not one of the category |
| `ProductSearch.GivenPairs` | src/products/products.service.ts:417-420 | empty texts count as not given; a pair is refused only if both halves are given and the category does not have the subcategory, which it has for "all" |
| `ProductSearch.ListMyProducts` | src/products/products.service.ts:184-221 | the query selects exactly the owner's rows that meet the filters; limit, offset and all indices are bound as intended |
| `ProductSearch.SearchProducts` | src/products/products.service.ts:223-280 | the query selects exactly the available rows that meet the filters and are visible to the viewer; favourites and all indices are bound as intended |
| `ProductSearch.IndicesCovered` | src/products/products.service.ts:189-191 | every parameter is used by one index and no placeholder is out of range |
| `ProductSearch.ListUsers` | src/admin/admin.service.ts:27-76 | builds the admin's conditions, with two parameters for the search term, and binds limit and offset |
| `ProductSearch.UserClausesMean` | src/admin/admin.service.ts:36-50 | the admin's conditions select the undeleted users with the status whose name or phone contains the term |
| `ProductSearch.NameOrPhoneMeans` | src/admin/admin.service.ts:40-45 | the two-parameter condition means "name or phone contains the term" |
| `Products.BuildInsert` | src/products/products.service.ts:469-475 | decoding placeholders 3i+2..3i+4 gives exactly the row (product, id, key, i) for every i |
| `Products.AcceptedFiles` | src/products/products.service.ts:459-466 | a list is accepted exactly when every file of it is |
| `Products.SyncImages` | src/products/products.service.ts:432-486 | an accepted list becomes the product's images numbered 0..n-1; other products keep theirs |
| `Products.SyncKeepsInvariant` | src/products/products.service.ts:432-486 | replacing a product's images keeps every image row honest |
| `Products.Store.SyncProductImages` | src/products/products.service.ts:432-486 | delete, check and batched insert in place do what the specification says |
| `Products.Store.CreateProduct` | src/products/products.service.ts:28-63 | the whole transaction, with rollback on a rejected category pair or image list |
| `Products.Store.UpdateProduct` | src/products/products.service.ts:80-141 | the COALESCE/CASE result is the pair that was checked; a rejected image list rolls everything back |
| `Products.UpdateWrites` | src/products/products.service.ts:95-141 | an accepted update writes the given category and subcategory, trimmed, and the given images, and keeps everything else |
| `Products.UpdateAccepted` | src/products/products.service.ts:80-141 | an update is accepted exactly for the owner's undeleted product, a valid pair and usable files |
| `Products.CreateWrites` | src/products/products.service.ts:28-63 | an accepted create request stores one undeleted product of the user with the trimmed pair and its images |
| `Products.CreateAccepted` | src/products/products.service.ts:28-63 | a create request is accepted exactly for a valid pair and usable files |
| `Products.Store.DeleteProduct` | src/products/products.service.ts:143-156 | only the owner's undeleted product is flagged |
| `Products.DeleteMarks` | src/products/products.service.ts:143-156 | exactly the owner's undeleted product is marked, and can then be neither updated nor deleted |
| `Products.Store.MarkUploaded` | src/files/files.service.ts:85-115 | only the uploader's file becomes uploaded |
| `Products.UploadedIsUsable` | src/files/files.service.ts:85-115 | exactly the uploader's file becomes uploaded, and then can be an image of that user's product |
| `Products.UploadThenCreate` | src/products/products.service.ts:28-63 | a file that was uploaded and marked becomes the image of a product created with it |
| `Products.PairChecked` | src/products/products.service.ts:402-415 | the check accepts exactly the taxonomy-valid pairs that are not `all` |
| `Products.RequestKeepsInvariant` | src/products/products.service.ts:28-156 | every request, accepted or rejected, keeps the invariant of products, images and files |
| `Products.EveryRun` | src/products/products.service.ts:28-156 | every run keeps the invariant of products, images and files |
| `Products.EveryRunFromEmpty` | src/products/products.service.ts:28-156 | over every run from the empty tables: valid pairs, never `all`, and image rows of uploaded product images of the product's owner with the same key |
| `Products.RejectionChangesNothing` | src/database/database.service.ts:42-55 | a rejected request leaves every row as it was |
| `OtpAttempts.AuthStateStore.IncrementOtpAttempts` | src/auth/auth-state.store.ts:33-76 | the stored row and the answer follow the upsert whatever Redis does; other counters stay |
| `OtpAttempts.AuthStateStore.ClearOtpAttempts` | src/auth/auth-state.store.ts:78-91 | removes exactly the counter of this phone and purpose |
| `OtpAttempts.StoredIsOneWindow` | src/auth/auth-state.store.ts:51-67 | after every history the stored count is 1..max-1 and counts exactly the failures since the window opened |
| `OtpAttempts.AnswerCounts` | src/auth/auth-state.store.ts:69-75 | the answer is one plus the failures of the open window, at most max, and locks exactly at the max-th |
| `OtpAttempts.WindowEndIsFixed` | src/auth/auth-state.store.ts:60-63 | a failure inside a window never moves its end |
| `OtpAttempts.Burst` | src/auth/auth-state.store.ts:33-76 | in a burst inside one window length the j-th failure is answered ((j-1) mod max)+1 and locks exactly when max divides j |
| `OtpAttempts.ConsoleOtpSender.StartVerification` | src/auth/otp-sender/console-otp.sender.ts:26-42 | the code sent last is the newest of its phone and purpose, and the only one when every other is older; other phones and purposes keep theirs |
| `OtpAttempts.ConsoleOtpSender.Newest` | src/auth/otp-sender/console-otp.sender.ts:52-58 | the row of this phone and purpose created last |
| `OtpAttempts.ConsoleOtpSender.CheckVerification` | src/auth/otp-sender/console-otp.sender.ts:44-88 | the answer is the verdict on the newest code, for every case of it; a wrong code is one failure, the right one clears the counter |
| `OtpAttempts.CheckCases` | src/auth/otp-sender/console-otp.sender.ts:60-85 | each answer has its exact condition: a used row never verifies, only a wrong code in time is a failure |
| `OtpAttempts.SentCodeIsAccepted` | src/auth/otp-sender/console-otp.sender.ts:26-42 | the code just sent is accepted exactly until its time is over, and never once it is used |
| `OtpAttempts.ClearedStartsAgain` | src/auth/auth-state.store.ts:78-91 | after a clear the next failure is the first again |
| `OtpAttempts.RightCodeAfterLock` | src/auth/otp-sender/console-otp.sender.ts:69-83 | after any guesses and a check answered with a lock, the right code is accepted exactly until it expires |
| `OtpAttempts.LocksDoNotInvalidate` | src/auth/otp-sender/console-otp.sender.ts:69-83 | of any number of wrong guesses in one window every fifth is answered with a lock, and the right code is accepted after all of them exactly until it expires |
| `Sessions.NextEvolves` | src/admin/admin.service.ts:191-199 | versions only grow and a role never changes within a version, except by the seeder |
| `Sessions.NewClaims` | src/auth/auth.service.ts:424-453 | a step signs only claims it already held or just read from the user's row |
| `Sessions.StepKeepsClaims` | src/auth/auth.service.ts:184-325 | no claim runs ahead of its row, and one level with it agrees on the role |
| `Sessions.ExactStep` | src/admin/admin-seeder.ts:43-52 | a step keeps every claim exact exactly if it does not seed over a claim |
| `Sessions.ExactIffHarmlessSeeds` | src/admin/admin-seeder.ts:43-52 | all along a run claims of the current version carry the current role, exactly when no step seeds over a claim |
| `Sessions.AcceptedClaimIsCurrent` | src/auth/jwt.strategy.ts:31-55 | in every interleaved run with the seeder an accepted access token never overstates the role, and is exact if no step seeded over a claim |
| `Sessions.RoleChangeEndsOldTokens` | src/admin/admin.service.ts:179-292 | after a role change or deletion nothing signed before is accepted again, for access or refresh |
| `Sessions.VersionsOnlyGrow` | src/users/users.service.ts:268-284 | a user's version never decreases along a run |
| `Sessions.SeededRoleCanBeUnderstated` | src/admin/admin-seeder.ts:43-52 | with the seeder an accepted token can lack the role its row has |
| `Sessions.DeadStaysDead` | src/auth/auth-state.store.ts:151-185 | a spent, revoked or expired refresh id stays so and is not redeemed |
| `Sessions.CreditStep` | src/auth/auth.service.ts:295-325 | a successful refresh spends the one credit of its id and no step adds one |
| `Sessions.SingleUse` | src/auth/auth-state.store.ts:151-170 | in every interleaving a refresh id yields at most one successful refresh |
| `Sessions.NeverAfterTheEnd` | src/auth/auth-state.store.ts:158-185 | after redemption, revocation or expiry a refresh id is never redeemed, and pays for at most one request that holds it already |
| `Sessions.SuccessAfterTheEnd` | src/auth/auth.service.ts:295-325 | once a refresh id is dead, some continuation succeeds with it exactly when a request holds it that has read its user or whose user is undeleted and at the token's version |
| `Sessions.RefreshOutlivesItsEnd` | src/auth/auth.service.ts:295-339 | a reachable state in which neither logout nor expiry stops the refresh in progress |
| `Sessions.SessionsStep` | src/auth/auth.service.ts:295-339 | apart from signing in, no step raises live rows plus refreshes in progress |
| `Sessions.SessionsNeverGrow` | src/auth/auth.service.ts:295-339 | without a new sign-in a run never has more live refresh rows than it started with sessions |
| `Sessions.RefreshAloneIsThreeSteps` | src/auth/auth.service.ts:295-325 | one refresh run alone is its three statements in order |
| `Sessions.WholeRefresh` | src/auth/auth.service.ts:295-325 | a refresh run alone does not raise any user's number of live refresh rows |
| `Registrations.OneUserPerPhone` | src/auth/auth.service.ts:152-168 | each phone has at most one user in every interleaving |
| `Registrations.VerifyMovesOneRow` | src/auth/auth.service.ts:137-181 | a successful verify removes exactly one pending row and creates exactly one user with its name and hash; a failed one changes neither table |
| `Registrations.UsersArePromotions` | src/auth/auth.service.ts:137-181 | without the seeder there are exactly as many users as promoted rows |
| `Registrations.ExclusionStep` | src/auth/auth.service.ts:58-102 | a step of any request keeps pending and registered phones apart exactly if it takes none of the two failing branches |
| `Registrations.ExclusiveIffNeverBreaks` | src/auth/auth.service.ts:58-181 | the same for all states along every interleaved run |
| `Registrations.WholeIsRun` | src/auth/auth.service.ts:58-181 | a whole request is a run of its own steps |
| `Registrations.NeverPendingAndRegistered` | src/auth/auth.service.ts:58-102 | when registration requests do not overlap, no phone is both pending and registered exactly if the seeder creates no account for a pending phone |
| `Registrations.OverlapBreaksExclusion` | src/auth/auth.service.ts:58-80 | overlapping requests can leave a phone both pending and registered |
| `AuthService.Service.SaveRefreshTokenJti` | src/auth/auth-state.store.ts:126-149 | upserts the row of a refresh id |
| `AuthService.Service.ConsumeRefreshTokenJti` | src/auth/auth-state.store.ts:151-170 | takes the row and returns its owner exactly when it is unrevoked and unexpired |
| `AuthService.Service.RevokeRefreshTokenJti` | src/auth/auth-state.store.ts:172-185 | marks an existing row revoked and nothing else |
| `AuthService.Service.GenerateTokens` | src/auth/auth.service.ts:424-453 | issues both tokens with the given claims and stores the refresh id |
| `AuthService.Service.Refresh` | src/auth/auth.service.ts:295-325 | does the three steps of a refresh; succeeds exactly for a live id, its own user and the current version |
| `AuthService.Service.Logout` | src/auth/auth.service.ts:327-339 | revokes the id of an issued token |
| `AuthService.Service.Login` | src/auth/auth.service.ts:184-209 | succeeds exactly for an active account of the phone whose password matches, and issues its current claims; otherwise changes nothing |
| `AuthService.Service.ResetPassword` | src/auth/auth.service.ts:249-292 | succeeds exactly for an active account of the phone, stores the new hash and issues the claims read; otherwise changes nothing |
| `AuthService.Service.RequestRegistrationOtp` | src/auth/auth.service.ts:58-102 | does the registration steps in order; refuses exactly a registered phone |
| `AuthService.Service.VerifyRegistrationOtp` | src/auth/auth.service.ts:137-181 | does the verifying transaction; succeeds exactly for an unexpired row and a free phone |
| `AuthService.Service.PromoteAdmin` | src/admin/admin.service.ts:179-211 | promotes exactly a live account that is no admin yet; the version moves with the role |
| `AuthService.Service.DemoteAdmin` | src/admin/admin.service.ts:213-245 | demotes exactly a live admin other than the one who asks; the version moves with the role |
| `AuthService.Service.DeleteUser` | src/admin/admin.service.ts:273-292 | soft delete with a new version, once |
| `AuthService.Service.Validate` | src/auth/jwt.strategy.ts:31-55 | accepts exactly the claims whose version is the user's current one |
| `SessionEffects.LoginIssues` | src/auth/auth.service.ts:184-209 | an active account signs in with its current claims, which are accepted at once, and a refresh id that lives for the full time |
| `SessionEffects.ResetIssues` | src/auth/auth.service.ts:249-292 | a reset does the same and stores the new password |
| `SessionEffects.InactiveCannotSignIn` | src/auth/auth.service.ts:196-198 | a paused, banned, deleted or missing account cannot start to |
| `SessionEffects.RefreshWorksUntilExpiry` | src/auth/auth.service.ts:295-325 | the refresh of a stored id issues new tokens with the current claims exactly until the row expires |
| `SessionEffects.LoginThenRefresh` | src/auth/auth.service.ts:424-453 | the token of a login refreshes exactly while less than its time to live has passed |
| `SessionEffects.RegistrationIsStored` | src/auth/auth.service.ts:58-102 | a registration that was sent leaves its pending row, one that was not leaves none, and other phones keep theirs |
| `SessionEffects.RegisterThenVerify` | src/auth/auth.service.ts:58-181 | a registration that was sent can be verified exactly until it expires, and then the user exists as registered and is signed in |
| `SessionEffects.FailedSendDeletesReplacement` | src/auth/auth.service.ts:66-101 | a request that stores over an older row takes its id, so the older request's failure deletes the newer row |
| `SessionEffects.RoleIsWritten` | src/admin/admin.service.ts:179-245 | a promotion or demotion writes the role and the next version of one account |
| `SessionEffects.DeletionIsWritten` | src/admin/admin.service.ts:273-292 | a deletion marks one account and raises its version, so no token signed before is accepted |
| `ChatTables.OneConversationPerPair` | db/schema.sql:209-218 | at most one conversation for two users, whichever way round |
| `ChatTables.InsertConversationKeeps` | src/chat/chat.service.ts:80-93 | inserting an ordered new pair keeps the tables sound |
| `ChatTables.InsertMessageKeeps` | src/chat/chat.service.ts:256-261 | storing a participant's message keeps the tables sound |
| `ChatTables.SetLastKeeps` | src/chat/chat.service.ts:269-273 | recording a message of the conversation as its last keeps the tables sound |
| `ChatTables.SetReadKeeps` | src/chat/chat.service.ts:303-309 | marking a message read keeps every set read mark and every content |
| `ChatTables.SetProductKeeps` | src/chat/chat.service.ts:69-74 | attaching a product keeps the tables sound |
| `ChatRooms.StepKeeps` | src/chat/chat.gateway.ts:78-261 | every step of the protocol keeps tables, flights, rooms, registry and emits in order |
| `ChatRooms.ConnectKeeps` | src/chat/chat.gateway.ts:78-120 | a connect registers the socket under its own user |
| `ChatRooms.DisconnectKeeps` | src/chat/chat.gateway.ts:122-138 | a disconnect removes the socket from the registry and from its rooms |
| `ChatRooms.JoinKeeps` | src/chat/chat.gateway.ts:160-162 | joining an entitled socket keeps rooms private |
| `ChatRooms.EmitKeeps` | src/chat/chat.gateway.ts:203-203 | an emit to a room reaches participants only |
| `ChatRooms.RoomsArePrivate` | src/chat/chat.gateway.ts:140-261 | in every run each socket in a room is a participant's, every emit reached participants only, and the registry lists exactly the connected sockets, each under its user, with no empty set |
| `ChatRooms.TablesAreSound` | db/schema.sql:209-237 | in every run one conversation per unordered pair with a < b, senders take part, last_message_id is of the same conversation |
| `ChatRooms.ReadMarksAreFinal` | src/chat/chat.service.ts:303-309 | in every run a stored message keeps its content and a set read mark its time |
| `ChatOverlaps.SetLastNewest` | src/chat/chat.service.ts:269-273 | recording a message makes last_message_id the newest exactly when no later message of the conversation is stored |
| `ChatOverlaps.LastIsNewestIff` | src/chat/chat.service.ts:247-277 | after every interleaved run last_message_id is the message stored last exactly when the last recording was not overtaken and no later message waits to be recorded; it agrees with recomputation exactly when that holds for strictly later times |
| `ChatOverlaps.OverlappingSendsRecordTheOlder` | src/chat/chat.service.ts:247-273 | whenever two checked sends cross with time passing between their messages, last_message_id disagrees with recomputation |
| `ChatOverlaps.LastCanStayBehind` | src/chat/chat.service.ts:247-273 | a run from the empty tables ends so |
| `ChatOverlaps.ProductStep` | src/chat/chat.service.ts:62-74 | a step keeps every attached product exactly if it does not attach over another one |
| `ChatOverlaps.KeptIffNeverOverwrites` | src/chat/chat.service.ts:62-74 | the same along every interleaved run |
| `ChatOverlaps.ProductIsWriteOnce` | src/chat/chat.service.ts:62-74 | attached products stay in every interleaved run in which no two requests are about to attach to one conversation at once |
| `ChatOverlaps.OverlappingAttachesOverwrite` | src/chat/chat.service.ts:62-74 | whenever two requests are about to attach different products to one conversation, the second replaces the first |
| `ChatOverlaps.ProductCanBeOverwritten` | src/chat/chat.service.ts:62-74 | a run from the empty tables does so |
| `ChatBlocks.EachChangeWasChecked` | src/chat/chat.service.ts:344-417 | in every interleaved run under a block, each step that changes the conversation belongs to a request that had passed its check when the block came |
| `ChatBlocks.BlockStopsNewRequests` | src/chat/chat.service.ts:344-417 | without steps of those requests an interleaved run under a block leaves the conversation frozen |
| `ChatBlocks.ChangesIffUnderWay` | src/chat/chat.service.ts:247-313 | under a block the conversation changes in some continuation exactly when a request is under way that passed its check and has something left to change |
| `ChatBlocks.BlockCanBeOvertaken` | src/chat/chat.service.ts:247-261 | a run from the empty tables reaches a standing block under which the conversation then changes |
| `ChatUnread.UnreadStep` | src/chat/chat.service.ts:128-134 | in any interleaving a statement adds one unread message, takes one off, or leaves the count alone |
| `ChatUnread.OneMarkCounts` | src/chat/chat.service.ts:303-309 | however many read marks of a message overlap, at most one takes it off |
| `ChatUnread.UnreadRun` | src/chat/chat.service.ts:128-134 | along every interleaved run unread counts grow by what others stored and shrink by first read marks |
| `ChatUnread.UnreadIsSentLessRead` | src/chat/chat.service.ts:128-134 | from the empty tables unread is what the peer stored less the first read marks |
| `ChatRefinement.CreateAlone` | src/chat/chat.service.ts:23-96 | the statements of a create request, run alone, do to the tables what the request does |
| `ChatRefinement.SendAlone` | src/chat/chat.service.ts:247-277 | the same for a send over a socket |
| `ChatRefinement.ReadAlone` | src/chat/chat.service.ts:279-313 | the same for a read mark over a socket |
| `ChatRefinement.SerialIsSequential` | src/chat/chat.service.ts:23-313 | every interleaved run whose requests do not overlap has the tables of the sequential run |
| `ChatRefinement.SequentialRunsAreInterleaved` | src/chat/chat.service.ts:23-313 | for every sequential run there is such an interleaved run |
| `ChatRequests.RequestKeepsCurrent` | src/chat/chat.service.ts:247-277 | a whole request keeps last_message_id the newest message and attached products fixed |
| `ChatRequests.SequentialRuns` | src/chat/chat.service.ts:23-96 | the same over every sequential run |
| `ChatRequests.RecomputationAgrees` | db/migrations/0003_conversations_last_message.sql:6-12 | with distinct times the backfill query has no other answer than last_message_id |
| `ChatRequests.SendAddsOneUnread` | src/chat/chat.service.ts:128-134 | a send adds one unread for the peer, none for the sender, none elsewhere |
| `ChatRequests.ReadTakesOneUnread` | src/chat/chat.service.ts:279-313 | the first read mark takes exactly one off the recipient's count, repeats take nothing, the sender's count stays |
| `ChatRequests.BlockFreezes` | src/chat/chat.service.ts:382-417 | while any block stands the conversation is not created, changed, marked or listed, over every sequential run |
| `ChatRequests.ListedAgain` | src/blocks/blocks.service.ts:32-39 | unblocking ends the freeze exactly when the other direction is not blocked |
| `ChatEffects.ListedByScope` | src/chat/chat.service.ts:136-146 | what the scopes all, buy and sell list |
| `ChatRequests.CreateOutcomes` | src/chat/chat.service.ts:62-95 | a create request leaves the tables as they were, attaches one product, or adds one conversation |
| `ChatServices.ChatService.GetOrCreateConversation` | src/chat/chat.service.ts:23-96 | the in-place request does what the table function says, with every refusal |
| `ChatEffects.CreateOpens` | src/chat/chat.service.ts:62-95 | a request answered with a conversation has opened that of the two users, about its old product or else the given one; any other answer changes nothing |
| `ChatEffects.CreateAnswers` | src/chat/chat.service.ts:28-60 | each refusal has its exact condition |
| `ChatEffects.CreateTwice` | src/chat/chat.service.ts:62-78 | a second request of the two finds the same conversation |
| `ChatEffects.InsertStatementOpens` | src/chat/chat.service.ts:80-93 | an interleaved insert stores the same row, or nothing if the pair is taken |
| `ChatServices.ChatService.AssertConversationParticipant` | src/chat/chat.service.ts:344-391 | refuses missing conversations, strangers and blocked pairs, in this order |
| `ChatServices.ChatService.ListMessages` | src/chat/chat.service.ts:203-223 | for a participant, a page of the conversation before the cursor, newest first |
| `ChatServices.ChatService.SendMessage` | src/chat/chat.service.ts:247-277 | check, insert and record the last message in place |
| `ChatEffects.SendStores` | src/chat/chat.service.ts:247-277 | a send is answered with the id of the new, unread message of this user, sent now, which becomes the last one; any other answer changes nothing |
| `ChatEffects.JoinThenEmit` | src/chat/chat.gateway.ts:194-203 | then the socket is in the room and one event goes to every socket there, its own included |
| `ChatEffects.AcceptedRequestsEmit` | src/chat/chat.gateway.ts:140-261 | every accepted join, send or read mark comes to that point |
| `ChatServices.ChatService.MarkRead` | src/chat/chat.service.ts:279-313 | checks in order and sets the read time once |
| `ChatEffects.ReadMarks` | src/chat/chat.service.ts:279-313 | the first mark is set to now, a later one changes nothing, and only the recipient may set it |
| `ChatServices.ChatService.BlockUser` | src/blocks/blocks.service.ts:9-30 | adds the block unless it is one's own or the user is missing |
| `ChatEffects.BlockStores` | src/blocks/blocks.service.ts:9-30 | a block is stored for two different users of whom the second exists, and then neither can write to the other |
| `ChatServices.ChatService.UnblockUser` | src/blocks/blocks.service.ts:32-39 | the conversation is open again to both users exactly when the other direction is not blocked; no other pair is affected |
| `ChatSockets.ChatSocketRegistry.RegisterUserSocket` | src/chat/chat-socket-registry.service.ts:16-20 | adds the socket to its user's set |
| `ChatSockets.ChatSocketRegistry.UnregisterUserSocket` | src/chat/chat-socket-registry.service.ts:22-31 | removes it, and the user with the last one |
| `ChatSockets.ChatSocketRegistry.EmitConversationJoinedToParticipants` | src/chat/chat-socket-registry.service.ts:33-75 | joins exactly the registered sockets of the valid participants and emits once to the whole room |
| `ChatSockets.RegistryIsConnected` | src/chat/chat-socket-registry.service.ts:16-31 | after every history a socket is registered exactly if its last event was a connect, and no set is empty |
| `ChatEffects.ConnectRegisters` | src/chat/chat.gateway.ts:78-138 | a new socket is registered for its user; a disconnect takes it out of the registry and every room |
| `MessagePages.TakePage` | src/chat/chat.service.ts:211-219 | the newest eligible messages, at most limit of them, newest first |
| `MessagePages.PageLeaves` | src/chat/chat.service.ts:211-223 | the next cursor leaves exactly what the page did not return |
| `MessagePages.WalkVisitsAll` | src/chat/chat.service.ts:203-223 | walking back visits every message of the first call once, newest first, whatever arrives meanwhile |
| `MessagePages.WalkTerminates` | src/chat/chat.service.ts:203-223 | however long a walk goes on and whatever arrives, its pages with messages, and the messages in them, are at most the messages of the first call |
| `MessagePages.FinishedWalkPages` | src/chat/chat.service.ts:203-223 | a finished walk asks for at most one page more than there were messages at its first call |
| `MessagePages.SameMillisLost` | src/chat/chat.service.ts:331-342 | one message per page never shows two messages of one millisecond |
| `MessagePages.CompleteIffDistinctMillis` | src/chat/chat.service.ts:331-342 | paging is complete for every page size exactly when the milliseconds differ |
| `MessagePages.WalkCompleteIffCleanCuts` | src/chat/chat.service.ts:203-223 | a walk with any page size, messages arriving or not, is complete exactly when no page ends between two messages of one millisecond |

## Left out

- Text of the SQL statements and ORDER BY of the searches: conditions and parameters are structured values, and sorting only picks a whitelisted column.
- Contents of the records that expansion fetches: one record per existing row, given by the tables.
- Full-text ranking, rating averages, view rounding: opaque columns and predicates.
- Other columns of a product (name, price, city and so on): they are written as given and no rule is about them.
- The used mark and the purge of one-time passwords: which row is newest is modelled, marking it used after a commit is not.
- The Redis transaction id of the Akedly provider, and all Akedly, Cloudinary, bcrypt, HMAC and JWT calls.
- Guards of the admin routes and the audit log: of who may send an admin action only the refusal of self-demotion is modelled.
- Expiry inside the signed tokens, and token versions in the WebSocket handshake, which checks signature and subject only.
- Owner columns of files after an image is detached: they are not reset by the code and carry no invariant.
- Upper bound of ten images per request and the other DTO checks: requests here may be any values.
- Sockets of several server processes: rooms and registry are those of one process.
