# HRPAuth, modelled and proved in Dafny

HRPAuth is an OAuth2 authorization server with a small microservice extension
layer. This project models the parts of it where several pieces of code have to
agree with each other, and proves what they promise together. `dafny verify
dfyconfig.toml` checks the whole project.

## What is modelled

**The token endpoints as an interleaved protocol** (`OAuthTables`, `OAuthScopes`,
`OAuthProtocol`, `OAuthInvariants`, `OAuthRefresh`, `OAuthLinks`, `OAuthTheorems`,
`OAuthLifetimes`, `OAuthAccess`, `OAuthStore`). The tables are maps with their unique keys. A
request is a program counter whose steps are single database statements: code
exchange and refresh are each *read*, *conditional update*, *issue*; between any
two steps any number of other requests, cleanups, revocations, account deletions
and clock steps may happen. Each statement may use any time the clock has already
reached, so a `now` sampled earlier in the handler is covered. Generated tokens
are values never generated before; SHA-256 with base64url is one unknown function.
`created` and `log` only record history: no step reads them. The class
`TokenStore` holds the same handlers as straight-line methods, each proved against
the statement functions that the protocol is made of.

**Client registration and seeding** (`Registration`, `ClientStore`): lookup,
create and re-lookup as separate steps of any number of callers, with database
failures, crashes and built-in upserts in between. `OAuthRegistration` lets these
steps and those of the token endpoints interleave over one client table.

**The config migration chain** (`ConfigSteps`, `ConfigChain`, `ConfigFile`,
`ConfigTheorems`, `ConfigFinal`): thirteen steps over a tree of nested maps, each
once as an in-place method and once as the function it is proved to compute; the
version-driven loop runs the in-place methods.

**Hooks** (`HookRules`, `HookRegistry`, `HookRuntime`): normal form of a rule,
matching out of an unordered map, the stable sort, and the short-circuiting run
over a mutable payload.

**The relay registry** (`Relay`, `RelayReload`): boundary-aware longest-prefix
match, and when the per-service persisted lists rebuild the in-memory map.

**Mail encoding** (`Base64`, `MailBody`): the shifts and masks of the hand-written
encoder, against a strict decoder written from section 4 of RFC 4648, and the
76-column wrapper against a reader of lines.

**Presence** (`Presence`): lazy expiry, against a registry that evicts at once.

**SDK packages** (`SdkPaths`, `SdkArchive`, `SdkFields`, `SdkModules`, `SdkManifest`,
`SdkMeta`): path sanitising over a model of `path.Clean`, the archive walk, the
manifest check, and the metadata built from an accepted manifest.

`Strings` holds the parts of Go's `strings` package that these need, `JsonTree`
decoded JSON, `Wrappers` the option and result types.

## What the code turned out to do

Where the code does less than its comments or a reader would expect, the model
follows the code and a lemma says exactly when it holds.

- Access-token cleanup deletes by foreign-key cascade the refresh tokens linked to
  the deleted rows, so a refresh token does not live for its whole lifetime: in any
  run its row goes exactly with its access row or its user
  (`CleanupTakesLinkedRefreshTokens`, `RefreshRowsGoOnlyWithTheirAccessRow`), and
  with the default lifetimes an hour is enough (`CleanupTakesALiveRefreshToken`).
- Revoking an access token does not spend the refresh token issued with it: until a
  cleanup comes, the refresh token still gets a new pair (`RevocationLeavesRefresh`,
  `RevokedButRefreshed`).
- A service that upserts a relay destination another service holds takes it over,
  and the loser's persisted list is not rewritten; and the registry accepts service
  names with a colon, whose lists are persisted but never read back. From a
  reloadable registry an upsert leaves a reloadable one if and only if it makes no
  such claim and, under a name that cannot be read back, enters no rule
  (`UpsertIsReloadableWhenSafe`, `FirstUnsafeUpsertBreaksReload`, `TwoClaimants`,
  `ColonNameIsLost`).
- `normalizeDest` is stable if and only if no blank stands just inside the
  destination's last slash (`NormalizeDestIsStable`, `NormalizeDestNeedNotBeStable`).
- A hook patch that fails half-way leaves what it had assigned, so under a policy
  other than `fail_closed` the request goes on with fields that depend on map
  order; all orders leave the same fields if and only if the patch's harmless
  allowed entries change nothing (`FailedPatchDependsOnOrder`, `OrderShows`).
- An expired presence record that nobody has read yet still gets an internal key
  and still shows in the listing; both agree with eager expiry if and only if no
  such record is there (`LazyRefinesEager`, `KeyForAnAbsentService`).
- A presence lifetime above 9223372036 seconds wraps 64-bit nanoseconds; the next
  292 years of lifetimes expire at once (`OffsetIsExact`).
- The "multiple root-level manifests" error cannot happen: the set it counts is
  keyed by one constant path. Several manifests are accepted and the last one
  read wins (`LastManifestWins`).
- Only the tar walk refuses links: the zip walk never asks, so a link in a zip
  passes as a file does (`ZipTreatsLinksAsFiles`, `ZipLinkIsAccepted`).
- A route's module is checked trimmed and stored as it was sent. Both stay inside
  the package, and they clean to the same path if and only if there was nothing to
  trim (`TrimmingShows`).
- The last test of `sanitizeArchivePath`, for a cleaned path that climbs, and the
  convergence guards of `MigrateConfig` are unreachable; the methods assert so.
- A YAML version that is a number and not a string counts as missing.

## Model

| member | source | states |
|---|---|---|
| OAuthTheorems.CodeYieldsAtMostOnePair | services/oauth2_service.go:440-477 | after any run of any interleaving, two pairs issued for one code are the same pair; its winner presented the client, redirect URI and verifier of the code and marked the row before expiry, and the pair carries the code's user and scopes (RFC 6749 section 4.1.3, RFC 7636 section 4.6) |
| OAuthTheorems.UncontestedExchangeSucceeds | services/oauth2_service.go:440-477 | the protocol is not safe by refusing: an uninterrupted exchange of a live code issues its pair and changes exactly the rows it should |
| OAuthTheorems.UncontestedRefreshSucceeds | services/oauth2_service.go:479-509 | likewise for an uninterrupted refresh of a live token |
| OAuthTheorems.RefreshTokensFormOneChain | services/oauth2_service.go:479-509 | the pairs descending from one grant form a single chain, with constant client, user and scopes, and only its newest refresh token can be unrevoked (RFC 6749 section 6) |
| OAuthTheorems.DescendantsFormAChain | services/oauth2_service.go:479-509 | of two descendants of one grant, one descends from the other: a refresh token is never spent twice |
| OAuthTheorems.IdentityIsConstantAlong | services/oauth2_service.go:479-509 | client, user and scopes are equal at every two pairs where one descends from the other |
| OAuthTheorems.ScopesNeverGrow | services/oauth2_service.go:399-438 | in every reachable state every code, access and refresh row and every pair ever issued stays within its client's stored scopes, and a token for a target user holds a targeted service scope |
| OAuthTheorems.PairsStayLinked | services/oauth2_service.go:602-666 | in every reachable state each refresh row links to an existing access row of the same client, user and scopes, across issue, refresh, revocation, both cleanups and account deletion |
| OAuthLifetimes.CleanupTakesLinkedRefreshTokens | database/migrations/000001_baseline.up.sql:102 | whenever the rows are linked, as they are in every reachable state, an event removes a refresh row exactly when it is a cleanup that finds the linked access row expired or revoked, or the deletion of its user's account; the refresh row's own expiry and revocation play no part |
| OAuthLifetimes.RefreshRowsGoOnlyWithTheirAccessRow | services/oauth2_service.go:611-619 | over whole runs: a refresh row present at some point is gone at a later one if and only if such an event came in between, and it never comes back |
| OAuthLifetimes.CleanupTakesALiveRefreshToken | services/oauth2_service.go:611-619 | a concrete run from the start, with the default lifetimes, in which cleanup takes an unexpired, unrevoked refresh token |
| OAuthAccess.AccessEndsForGood | services/oauth2_service.go:559-566 | in any run, a generated access token that is not good at some instant, being revoked, expired or gone, is not good at any later one, whatever happens next |
| OAuthAccess.AccessIsGoodUntilEnded | services/oauth2_service.go:559-566 | in any run, an unrevoked access token is good afterwards, at any instant, if and only if that instant is not past its expiry and no event in between revoked it, cleaned its row up or deleted its user |
| OAuthAccess.RevocationLeavesRefresh | services/oauth2_service.go:602-607 | after an access token is revoked, an uncontested refresh with its live refresh token still gets a pair, and the next cleanup takes that refresh token away |
| OAuthAccess.RevokedButRefreshed | services/oauth2_service.go:602-607 | a concrete reachable run: a pair is issued, its access token revoked, and its refresh token used for a pair that is good |
| OAuthRegistration.RegisteredClientsStayWithinTheirAllowlist | services/oauth2_service.go:283-369 | in every interleaving of token requests, registrations and seedings over one client table, every token and pair of a client that registration or seeding made carries only known service scopes on its allowlist, and the client never holds an authorization code |
| OAuthRegistration.StepInv | services/oauth2_service.go:198-666 | every step of the combined system keeps the invariants of both protocols and their agreement on the client table |
| OAuthTheorems.HistoryOnlyGrows | services/oauth2_service.go:423-509 | no step rewrites the recorded codes and pairs the other theorems speak of |
| OAuthTheorems.StepInv | services/oauth2_service.go:399-666 | every step of every handler keeps freshness, code, refresh, link and scope invariants together |
| OAuthScopes.ContainsAny | services/oauth2_service.go:794-801 | true exactly when the lists share an element |
| OAuthScopes.ResolveRequestedScopes | services/oauth2_service.go:684-699 | a blank request gets the client's scopes, another request is granted whole or refused, never narrowed |
| OAuthScopes.ServiceRegistrationScopes | services/oauth2_service.go:283-308 | grants each of the requested scopes once, in the order first mentioned, or all known ones on the allowlist in its order when nothing is requested; refuses exactly when something requested is unknown or not on the allowlist |
| OAuthScopes.AuthorizedScopes | services/oauth2_service.go:399-421 | succeeds if and only if an active public client with the authorization_code grant asks at a registered redirect URI with an S256 challenge for scopes within its own; each refusal arises exactly where the source gives it, and the granted list is exact |
| OAuthScopes.ServiceTokenScopes | services/oauth2_service.go:511-557 | succeeds if and only if the client has the grant, the scopes are its own, and a named target is resolved and backed by a targeted service scope; each refusal arises exactly where the source gives it |
| OAuthScopes.LookUpTarget | services/oauth2_service.go:530-552 | a uid must parse as an unsigned 64-bit number and name a known user, an e-mail after lowering and trimming must too; the row keeps each part that was given |
| OAuthScopes.DecisionIsTargeted | services/oauth2_service.go:511-552 | a service token's scopes are the client's own; it has a target exactly when one was asked for, and then a targeted scope, and the target names known users |
| OAuthScopes.DecideServiceToken | services/oauth2_service.go:511-552 | the checks and lookups in source order |
| OAuthStore.TokenStore.MarkConsumed | services/oauth2_service.go:462-471 | the conditional update hits one row exactly when the code is unconsumed and unexpired |
| OAuthStore.TokenStore.MarkRefreshRevoked | services/oauth2_service.go:494-502 | the conditional update hits one row exactly when the refresh token is unrevoked and unexpired |
| OAuthStore.TokenStore.ExchangeAuthorizationCode | services/oauth2_service.go:440-477 | succeeds if and only if the row fits at both times the handler looks; the new tables are the code consumed and one linked pair inserted; a refusal changes nothing |
| OAuthStore.TokenStore.RefreshUserToken | services/oauth2_service.go:479-509 | succeeds if and only if the row fits at both times the handler looks; the old token is revoked and one pair inserted for the same user and scopes; a refusal changes nothing |
| OAuthStore.TokenStore.IssueUserTokens | services/oauth2_service.go:637-666 | keeps every refresh row linked; adds one access row under a fresh id and an unrevoked refresh row linked to it, and leaves every other row as it was |
| OAuthStore.TokenStore.ValidateAuthorizationRequest | services/oauth2_service.go:399-421 | the checks in source order, with their errors |
| OAuthStore.TokenStore.IssueClientCredentialsToken | services/oauth2_service.go:511-557 | inserts one access row with the granted scopes, which are the client's own, and the resolved uid and e-mail, which name known users and come with a targeted scope, or refuses and changes nothing; keeps the links |
| OAuthStore.TokenStore.RevokeAccessToken | services/oauth2_service.go:602-607 | afterwards every row of this token is revoked, the time of an earlier revocation stays, every other row and every other field is unchanged, the links hold, and a second call changes nothing |
| OAuthStore.TokenStore.CleanupExpiredAccessTokens | services/oauth2_service.go:611-619 | deletes exactly the expired and revoked access rows and the refresh rows linked to them, changes no other, keeps the links, and returns how many access rows went |
| OAuthStore.TokenStore.CleanupExpiredAuthorizationCodes | services/oauth2_service.go:623-631 | deletes exactly the expired codes, and returns how many |
| Registration.OneRowPerService | services/oauth2_service.go:317-369 | for any interleaving of registrations and seedings of one name that is not built in: one row, everyone answered gets it, at most one is told it was created, nobody is handed the super secret, and a created row's scopes are known service scopes on the allowlist |
| Registration.RowsNeverChange | services/oauth2_service.go:198-273 | a row once present is never changed or removed by registration or seeding |
| Registration.OnlyAddsClients | services/oauth2_service.go:317-369 | seen from the token protocol, each step adds at most one client row and changes none |
| ClientStore.ClientTable.EnsureConfiguredServiceClients | services/oauth2_service.go:198-273 | existing rows stay, every name on offer gets a row, from the first usable entry that names it |
| ClientStore.SeedingIsDeterministic | services/oauth2_service.go:198-273 | that contract fixes the table: two outcomes agree on every row |
| ClientStore.SeedingTwiceIsSeedingOnce | services/oauth2_service.go:198-273 | seeding again from the result changes nothing |
| ClientStore.ClientTable.RegisterServiceClient | services/oauth2_service.go:317-369 | with another caller's insert and a failure of any of its three statements in between: a row found first or raced in is returned unchanged unless it carries the super secret, one is created only when there is none, and an answered row is the stored one |
| ConfigFile.Config.MigrateConfig | config/migrations.go:68-113 | a version in the chain always ends at "14", changed, without error; the current version, or a newer major, is left alone (so a second call does nothing); anything else is an error that changes nothing |
| ConfigFile.Config.RunChain | config/migrations.go:88-112 | the loop over the in-place steps terminates and its guards are unreachable; the result is the remaining steps applied in order |
| ConfigFile.Config.RunStep | config/migrations.go:41-57 | each in-place step does what its entry of the version table says |
| ConfigFile.FindMigration | config/migrations.go:116-124 | finds the first step that starts from a version, or none |
| ConfigFile.VersionMajor | config/migrations.go:128-142 | the number the leading digits denote; 0 for none and for one too large |
| ConfigChain.ChainIsLinked | config/migrations.go:41-57 | each step starts where the one before ended, no version starts two steps, each advances, the last ends at the current version |
| ConfigChain.ChainIsNotNewer | config/migrations.go:80-86 | no version of the chain is taken for a newer major |
| ConfigFile.Config.MigrateV1ToV2 | config/migrations.go:275-304 | the in-place updates add up to one tree function: the memcache section becomes verification_code with its two fields; missing verification_code and redis sections get their defaults; the version is set |
| ConfigFile.Config.MigrateV2ToV3 | config/migrations.go:311-370 | the in-place updates add up to one tree function: the security fields move to the top level, and a missing manage token and redis prefix are filled |
| ConfigFile.MoveFields | config/migrations.go:338-350 | the move loop: a security field is the top-level one if present, else the nested one, which then leaves its old home, else the default |
| ConfigFile.Config.MigrateV3ToV4 | config/migrations.go:376-419 | the in-place updates add up to one tree function: every oauth2 field missing or empty (or 0, for a lifetime) is filled from the callback and frontend URLs, the generated secret and the defaults |
| ConfigFile.Config.MigrateV4ToV5 | config/migrations.go:422-438 | the in-place updates add up to one tree function: yggdrasil.security gains the texture size it lacks, both sections made when missing |
| ConfigFile.Config.MigrateV5ToV6 | config/migrations.go:441-452 | the in-place updates add up to one tree function: storage gains the expiry it lacks |
| ConfigFile.Config.MigrateV6ToV7 | config/migrations.go:457-468 | the in-place updates add up to one tree function: oauth2 gains the extra-scope list it lacks |
| ConfigFile.Config.MigrateV7ToV8 | config/migrations.go:472-503 | the in-place updates add up to one tree function: core_api and yggdrasil_api are made with one shared key, and yggdrasil, storage and keygen are deleted |
| ConfigFile.Config.MigrateV8ToV9 | config/migrations.go:146-164 | the in-place updates add up to one tree function: sdk_packages gains the limits it lacks |
| ConfigFile.Config.MigrateV9ToV10 | config/migrations.go:166-179 | the in-place updates add up to one tree function: the internal keys leave both API sections |
| ConfigFile.Config.MigrateV10ToV11 | config/migrations.go:181-200 | the in-place updates add up to one tree function: database gains the retry settings it lacks |
| ConfigFile.Config.MigrateV11ToV12 | config/migrations.go:205-216 | the in-place updates add up to one tree function: database gains the port it lacks |
| ConfigFile.Config.MigrateV12ToV13 | config/migrations.go:221-232 | the in-place updates add up to one tree function: oauth2 gains the service client list it lacks |
| ConfigFile.Config.MigrateV13ToV14 | config/migrations.go:240-251 | the in-place updates add up to one tree function: oauth2 gains the scope allowlist it lacks |
| ConfigTheorems.SecuritySurvives | config/migrations.go:311-503 | from "1.0" or "2", each moved security field ends as the old top-level value if present, else the old nested value, else the default, although the nested section is deleted on the way |
| ConfigTheorems.DeprecatedSectionsGone | config/migrations.go:472-503 | yggdrasil, storage and keygen are gone at the end, from any version up to "7" |
| ConfigTheorems.UnnamedSectionsUnchanged | config/migrations.go:41-57 | from any version, every top-level section no step names is unchanged, present or absent |
| ConfigTheorems.OAuthFieldsKept | config/migrations.go:376-419 | from any version, every oauth2 field that was set (non-zero or a non-empty string where the step tests for that) keeps its value to the end |
| ConfigTheorems.LifetimesAtTheEnd | config/migrations.go:376-419 | from "1.0" to "3", every token lifetime ends as it was, or as the default if missing or 0 |
| ConfigFinal.OAuthAtTheEnd | config/migrations.go:376-468 | from "1.0" to "3", the whole oauth2 section at the end, field by field: issuer, lifetimes, the three client strings, the redirect URIs, the three empty values of the later steps, and every other field as it was |
| ConfigFinal.ManageAtTheEnd | config/migrations.go:311-370 | the manage section ends as it was, with the generated token where it had none |
| ConfigFinal.RedisAtTheEnd | config/migrations.go:275-370 | the redis section ends as it was, or as the default from "1.0", with its prefix filled; from "2" none is made |
| ConfigTheorems.DatabaseGainsDefaults | config/migrations.go:181-216 | the database section ends as it was plus the retry settings and port it lacked |
| ConfigTheorems.SdkPackagesGainDefaults | config/migrations.go:146-164 | the sdk_packages section ends as it was plus the defaults it lacked |
| ConfigTheorems.InternalKeysGone | config/migrations.go:166-179 | the static internal keys made at "8" are gone at the end, and nothing else of their sections is |
| ConfigTheorems.MemcacheBecomesVerificationCode | config/migrations.go:275-304 | the memcache section ends as verification_code with its two fields and nothing else |
| HookRules.MatchPath | controllers/hook_controller.go:49-67 | true exactly when some trimmed non-empty pattern equals the path, or ends in a star and is a prefix of it |
| HookRules.NormalizeHookRule | controllers/hook_controller.go:201-254 | accepts exactly the rules whose trimmed form is acceptable, and returns that form with the given service |
| HookRules.NormalFormIsStable | controllers/hook_controller.go:201-254 | normalising an accepted rule again changes nothing |
| HookRules.CleanAllowlistShape | controllers/hook_controller.go:234-247 | the stored allowlist holds exactly the known fields mentioned, each once |
| HookRules.SortStable | controllers/hook_controller.go:148-153 | the sort orders by priority, then service, and keeps the order among equals |
| HookRules.RunOrderIsUnique | controllers/hook_controller.go:148-153 | a list in run order is determined by its ranks, position by position |
| HookRegistry.Registry.Match | controllers/hook_controller.go:134-155 | whatever order the map yields its services in, the answer is in run order and holds each service's applying rules in registration order |
| HookRegistry.MatchIsUnique | controllers/hook_controller.go:134-155 | there is only one such answer, so the map's order cannot show |
| HookRegistry.MatchIsExactlyTheApplyingRules | controllers/hook_controller.go:134-155 | the answer holds exactly the registered rules that apply, given that each rule is filed under its own service |
| HookRegistry.Registry.Register | controllers/hook_controller.go:171-199 | the refusals in the handler's order: blank name, service not present, a rule that does not normalise; otherwise all rules are stored in normal form under the trimmed name; a refusal stores nothing |
| HookRegistry.Registry.Upsert | controllers/hook_controller.go:78-84 | replaces one service's list and no other |
| HookRuntime.Run | controllers/hook_runtime.go:57-70 | the request goes on exactly when no hook stops it, else the first that does decides; the fixed part of the payload never changes; a changed field is on the allowlist of a called patch hook that answered "patch"; with well-typed patches the result is the patches in run order |
| HookRuntime.RunRule | controllers/hook_runtime.go:72-114 | the outcome and the effect of one reply, under every fail policy |
| HookRuntime.ApplyHookPatch | controllers/hook_runtime.go:163-207 | some order of the keys is walked; it fails exactly when an allowed entry is ill typed; otherwise the payload is the pointwise update |
| HookRuntime.WalkPatch | controllers/hook_runtime.go:163-207 | the loop for any given order of the keys: whether it fails does not depend on the order, and the payload is the walk up to the first ill-typed allowed entry |
| HookRuntime.FailedPatchDependsOnOrder | controllers/hook_runtime.go:163-207 | for a failing patch, all orders of its keys leave the same payload if and only if its harmless allowed entries change nothing |
| HookRuntime.CleanPatchIgnoresOrder | controllers/hook_runtime.go:163-207 | a patch without an ill-typed allowed entry ends in the pointwise update for every order |
| HookRuntime.OrderShows | controllers/hook_runtime.go:163-207 | a concrete patch whose two orders leave different passwords |
| HookRuntime.ParseHookStringSlice | controllers/hook_runtime.go:209-228 | accepts exactly arrays of strings, and gives the trimmed non-empty ones in order |
| Relay.Registry.Match | controllers/relay_controller.go:172-199 | nothing exactly when no destination covers the path, else a best rule, with path equal to destination followed by rest, and rest empty or starting with a slash |
| Relay.BestIsLongestSegmentPrefix | controllers/relay_controller.go:172-199 | a best rule's destination, split on slashes, is the strictly longest segment-list prefix of the split path |
| Relay.BestIsUnique | controllers/relay_controller.go:172-199 | at most one rule is best, so the map's order cannot show |
| Relay.NormalizeDestIsStable | controllers/relay_controller.go:268-270 | normalising twice is normalising once if and only if the destination, trimmed of blanks and then of its trailing slashes, is empty or does not end in a blank |
| Relay.NormalizeDestNeedNotBeStable | controllers/relay_controller.go:268-270 | a destination for which it is not |
| Relay.Registry.UpsertRules | controllers/relay_controller.go:48-67 | the service's old rules leave, the new ones take their destinations from whoever held them, and the service's list is persisted |
| Relay.Registry.Persist | controllers/relay_controller.go:71-91 | stores a list of exactly the service's rules, in any order, each destination once |
| Relay.Registry.DeleteRule | controllers/relay_controller.go:134-153 | removes the rule exactly when the service holds it, and persists; otherwise nothing changes |
| Relay.Registry.Load | controllers/relay_controller.go:94-130 | reads the lists of the scanned services in scan order, skipping invalid names and entries |
| RelayReload.ReloadIsExact | controllers/relay_controller.go:94-130 | loading into an empty registry gives the map in memory for every scan order if and only if no persisted entry under a readable name is stale and every rule is held under a readable name |
| RelayReload.UpsertIsReloadableWhenSafe | controllers/relay_controller.go:48-67 | from a reloadable registry an upsert leaves one if and only if it names no destination another service holds and, when the service's name cannot be read back, has no valid entry |
| RelayReload.DeleteStaysReloadable | controllers/relay_controller.go:134-153 | a delete always does |
| RelayReload.RunsReloadExactly | controllers/relay_controller.go:48-153 | after any run of any calls, the same condition decides whether loading gives back the map in memory |
| RelayReload.RunsReload | controllers/relay_controller.go:48-153 | after any run of safe upserts and deletes, loading in any scan order gives back exactly the map in memory |
| RelayReload.FirstUnsafeUpsertBreaksReload | controllers/relay_controller.go:58-64 | the first upsert of a run that is not safe breaks it |
| RelayReload.TwoClaimants | controllers/relay_controller.go:58-64 | a concrete run of two services that upsert one destination, after which the last list scanned wins: one scan order brings back the loser's rule and the other does not |
| RelayReload.ColonNameIsLost | controllers/relay_controller.go:104-109 | a concrete upsert of a service with a colon in its name, whose rule is in force and persisted, and lost in every scan order |
| Base64.Base64Encode | services/email_service.go:62-88 | the loop's result decodes, strictly, to the bytes it was given |
| Base64.EncodeWith | services/email_service.go:62-88 | the loop computes the recursive encoding |
| Base64.DecodeOfEncode | services/email_service.go:62-88 | decoding undoes encoding for every byte string and every table of 64 different characters |
| Base64.EncodeOfDecode | services/email_service.go:62-88 | only the encoding of some bytes decodes to them, so encoding is one-to-one onto what decodes |
| Base64.EncodeShape | services/email_service.go:62-88 | the encoding of n bytes has length 4 times n/3 rounded up, uses only the alphabet, and ends in exactly the required padding |
| Base64.TableIsStandard | services/email_service.go:63 | the table is the alphabet of section 4 of RFC 4648 |
| MailBody.WrapBase64 | services/email_service.go:90-101 | the loop computes pieces of the given length, each closed by CRLF |
| MailBody.UnwrappedOfWrapped | services/email_service.go:90-101 | taking the breaks out gives the text back, at every line length |
| MailBody.LinesOfWrapped | services/email_service.go:90-101 | no line exceeds the length, all but the last are full, and nothing follows the final CRLF |
| MailBody.BodyRoundTrip | services/email_service.go:44-46 | for every byte string the body can be unwrapped and decoded back, and no line exceeds 76 characters (section 6.8 of RFC 2045) |
| Presence.PresenceRegistry.Register | registry/presence.go:55-81 | the whole new record and map, for a new and a known service |
| Presence.PresenceRegistry.RegisterAuthKey | registry/presence.go:83-98 | sets the key of a record that is there, expired or not, and changes nothing else |
| Presence.PresenceRegistry.RevokeAuthKey | registry/presence.go:100-112 | clears the key of one record and changes nothing else |
| Presence.PresenceRegistry.GetAllRecords | registry/presence.go:114-123 | lists every record, in any order |
| Presence.PresenceRegistry.Get | registry/presence.go:189-203 | gives an unexpired record, and removes an expired one |
| Presence.LazyRefinesEager | registry/presence.go:55-203 | over any events in order of time and any loaded records, registrations, revocations and reads are answered as by a registry that evicts at once; issuing a key and listing are, if and only if no stale record is involved |
| Presence.StaleRecordLends | registry/presence.go:61-68 | after any events, re-registering over an expired record differs from eager expiry in the first sighting, key and scope, and in nothing else once the loaded records are filed under their own names; otherwise in the name as well |
| Presence.KeyForAnAbsentService | registry/presence.go:83-98 | a concrete run in which a service that reads as absent is issued a key |
| Presence.OffsetIsExact | registry/presence.go:74-78 | the lifetime is the one asked for if and only if it is at most 9223372036 seconds; those just above lie in the past |
| SdkPaths.SanitizeArchivePath | controllers/sdk_package_controller.go:269-286 | accepts exactly the relative paths without a ".." segment, and returns a lexically normal path |
| SdkPaths.SanitizedIsNormal | controllers/sdk_package_controller.go:269-286 | the results are exactly the paths with no backslash, no empty, "." or ".." segment, and "." itself; sanitising one again gives it back |
| SdkPaths.SanitizedKeepsNames | controllers/sdk_package_controller.go:269-286 | the result is the requested path's own names, in order, with only empty and "." segments gone |
| SdkPaths.StaysUnderRoot | controllers/sdk_package_controller.go:269-286 | joined to any root, absolute or relative, a result lands exactly below the cleaned root |
| SdkArchive.Walk | controllers/sdk_package_controller.go:289-377 | the walk gives the last manifest's content when no member is faulty, else the first fault; the multiple-manifests error is never given |
| SdkArchive.Extract | controllers/sdk_package_controller.go:289-377 | the same with the source's own sanitiser and extension list |
| SdkArchive.AcceptedMembersAreSafe | controllers/sdk_package_controller.go:289-377 | every member of an accepted archive has a normal path and is a directory, the manifest or an allowed extension, and in a tar no link |
| SdkArchive.TarRefusesLinks | controllers/sdk_package_controller.go:307-309 | a tar with a link anywhere in it is refused |
| SdkArchive.ZipTreatsLinksAsFiles | controllers/sdk_package_controller.go:340-377 | a zip has the same outcome as with its links turned into files |
| SdkArchive.ZipLinkIsAccepted | controllers/sdk_package_controller.go:307-365 | a concrete list of members, one of them a link, that is accepted as a zip and refused as a tar |
| SdkArchive.LastManifestWins | controllers/sdk_package_controller.go:318-337 | two root manifests are accepted and the second is used |
| SdkFields.ValidateName | controllers/sdk_package_store.go:109-127 | refuses a length in bytes outside 1 to 64, then separators, then a mismatch, each with its own error; accepts exactly the documented pattern up to 64 characters, so a name is one plain path segment |
| SdkFields.IsSemver | controllers/sdk_package_controller.go:552-568 | accepts exactly three dot-separated digit runs |
| SdkFields.CheckRoutePath | controllers/sdk_package_controller.go:517-533 | the loop accepts exactly the valid route paths |
| SdkModules.ModuleStaysInPackage | controllers/sdk_package_controller.go:536-549 | an accepted module path, both trimmed as it is checked and untrimmed as it is stored, is relative, and cleaning it never climbs above where it starts |
| SdkModules.TrimmingShows | controllers/sdk_package_store.go:256-266 | the stored module cleans to the same path as the checked one if and only if there was nothing to trim |
| SdkManifest.ValidateRoutes | controllers/sdk_package_controller.go:414-441 | gives the first route's error in source order, with its path and module, and none exactly for valid routes with pairwise distinct paths; then collects exactly their paths |
| SdkManifest.ValidateReferences | controllers/sdk_package_controller.go:443-476 | gives the first entry's error, and none exactly for an object, or an array of objects, whose paths are all routes |
| SdkManifest.ValidateCriticalOperations | controllers/sdk_package_controller.go:488-514 | the same, with a non-blank label in each |
| SdkManifest.ValidateManifest | controllers/sdk_package_controller.go:402-486 | reports the first complaint in source order, each kind of error apart |
| SdkManifest.NoComplaintMeansValid | controllers/sdk_package_controller.go:402-514 | there is no complaint if and only if the manifest is valid, stated without the order of the checks |
| SdkManifest.SmallManifestIsAccepted | controllers/sdk_package_controller.go:402-486 | a concrete manifest without a complaint, so what is proved of accepted manifests is about something |
| SdkManifest.FirstFaultIsFirst | controllers/sdk_package_controller.go:420-441 | the error of a loop is that of an entry with no faulty entry before it |
| SdkMeta.BuildMeta | controllers/sdk_package_store.go:244-307 | every field of the metadata, the manifest itself and the upload time included, for every manifest |
| SdkMeta.RoutesAreKept | controllers/sdk_package_store.go:256-266 | for an accepted manifest no route is dropped, order is kept, paths and modules are valid and paths pairwise distinct |
| SdkMeta.AcceptedManifestIsKept | controllers/sdk_package_store.go:267-305 | for an accepted manifest no menu, dashboard or critical-operation entry is dropped in either form, order is kept, and each path is a stored route's |
| SdkMeta.CollectedKeepsAll | controllers/sdk_package_store.go:256-305 | the loops keep every entry if and only if all entries are objects |
| SdkMeta.MapStringFromMap | controllers/sdk_package_store.go:433-444 | exactly the string-valued entries, whatever the map's order |

## Left out

- HTTP handlers, gin contexts, response envelopes, logging and CORS: plumbing.
- SMTP, Redis, MySQL, the filesystem, gzip, zip and tar, JSON and YAML codecs: stores are maps with unique keys, encodings are lossless, and what a read gives is an input.
- MySQL's one-second timestamps and case-insensitive collation: instants are integers and keys compare exactly.
- Hashing, and random generation: SHA-256 with base64url is one unknown function, generated tokens are fresh, and a generator that fails and returns an empty string is not modelled.
- The seeding transaction: a step is its commit, and a rolled-back batch and a stale snapshot inside one transaction are not modelled; a re-lookup may miss.
- The built-in clients' own upsert: they are present and may be rewritten at any time; their fields are not followed.
- Splitting a scope string on whitespace: a request is its list of scopes.
- Authenticating a client, and the user tables: the client row, and the users the two target lookups find, are inputs; of `ResolveAccessToken` only the test of the token's row is modelled.
- The config step's sharing of nested maps: trees are values, so an update of one section never shows in another.
- The mutexes of the registries: each call is atomic.
- `Load` of the hook and presence registries, their persistence and time to live; expiry of relay lists in Redis; a nil Redis client.
- `ToLower`, exact only where the result is ASCII: other letters of a target e-mail are left as they are.
- UTF-8: mail text is bytes, and other strings are sequences of characters; only the length limit of a package name counts bytes.
- A mail line length of zero, for which the source's loop does not end; the one caller passes 76.
- Presence metadata values and archive contents: opaque.
- SDK store directories and counts; the size, digest and upload time of a package are inputs.
- TOTP, WebAuthn, login tickets, captcha, heartbeat, account restore and route-level authorization: easy members, or meaning that depends on code not in the repository.
