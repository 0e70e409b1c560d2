# Vincenty, verified parts

Vincenty is a team location and messaging server (Go) with a web client (TypeScript) and an iOS
client (Swift). This project models the parts that keep state over long runs and proves what they
are for. `dafny verify dfyconfig.toml` checks everything.

What is modelled, by file:

- `Uuids`, `Channels`: identifiers, channel names, and how the hub reads them back.
- `Policy`, `Groups`: the permission matrix, its validation, and the management of group members.
- `Delivery`, `Registry`, `Throttle`, `Hub`: the real-time hub, its connections with their bounded
  outbound channels, and the location service, as classes whose loops are the source's.
- `HubProtocol`, `HubRounds`, `HubLifecycle`, `HubCoherence`: the same hub as an interleaving system
  of hub loop, connection goroutines, database commits and pub/sub, with results over every run.
- `Auth`, `AuthRuns`: accounts and refresh tokens; whole-run results read off the history.
- `AdminOverlap`: updates and deletions of users at the level of SQL statements.
- `RefreshOverlap`: refreshes statement by statement among all other operations of `Auth`.
- `RefreshExchange`, `TokenClient`: rotation statement by statement on the tokens alone, and the
  browser client's single-flight refresh on top of it as a distributed protocol.
- `Mfa`, `RecoveryCodes`: MFA methods, the enabled flag, and one-time recovery codes.
- `MfaOverlap`, `MfaPair`, `MfaAlone`: the MFA operations of one user at the level of SQL statements.
- `SyncQueue`, `SyncRuns`: the iOS offline action queue.
- `Sets`, `Wrappers`: sizes of finite sets; option and result types.
- `Messages`: cursor paging and batched attachments.
- `Drawings`: shared drawings, whose access is computed in two ways.
- `Base64Url`: the two clients' codec, section 5 of RFC 4648.
- `Reconnect`, `ReconnectRuns`, `ReconnectStale`: the iOS WebSocket reconnect machine.

How it is modelled. Objects whose methods update fields are classes; each method is proved equal to
a function on the object's value, and results about runs are proved of those functions. What the
functions decide and write is stated once more in the tables' and fields' own terms, in the
methods' contracts or in a lemma that names no helper of theirs. SQL tables
are maps of rows and each statement is one step. Hashes are injective and generated identifiers
new. Go and Swift visit maps and sets in no particular order, so loops over them pick any next
element. Numeric limits (256 frames, 8 codes, 3 retries, 30 seconds, page sizes) are the source's.

Assumed throughout: database, pub/sub and storage calls succeed unless an operation takes their
outcome as an argument, pub/sub delivers in order, and messages on a channel have that channel's
payload or none that decodes.

Where a promised property does not hold of the code as it stands, the code is kept, a concrete run
is given, and the exact condition is proved:

- Memberships are loaded before the connection registers (`handler.go`), so a change that the hub
  reads in between leaves a stale cache after everything is drained. A drained cache is of the
  latest version exactly if that did not happen; its rows are the current ones exactly if it did not
  happen or the rows have returned to what was loaded (`HubCoherence.CachesAgree`,
  `DistinctStatesCachesAgree`, `RaceLeavesStaleCache`).
- Two overlapping exchanges of one refresh token can both succeed, because the delete does not look
  at the number of rows. Which are denied is characterised for every interleaving
  (`RefreshOverlap.DeniedExactlyByHistory`, `RefreshExchange.DeniedExactlyAfterDelete`,
  `DoubleRedemption`); in sequence each token is redeemed once.
- A password change or deactivation does not end a refresh that is under way. A revoked user comes
  to own a row without a new login exactly if a refresh that had selected its row before inserts
  afterwards (`RefreshOverlap.RevocationEscapedExactly`, `RefreshOutlivesPasswordChange`); for
  operations one after the other no token survives (`AuthRuns.AcceptedExactlyWhenStanding`).
- Paging by time skips messages whose time equals that of a page's last message. A walk is complete
  exactly if no multiple of the page size falls between equal times
  (`Messages.WalkReturnsAllExactlyWithCleanCuts`, `TieLosesMessage`).
- "Prevents deleting the last admin": deactivating the last active administrator is not prevented
  (`AuthRuns.DeactivationLosesLastAdmin`). For operations one after the other that is the only way
  to lose the last one (`LastAdminLostExactlyBy`). Overlapping, two demotions can lose both
  (`AdminOverlap.TwoDemotionsLoseBoth`); which step loses the last one is `LosesExactly`.
- MFA is meant to be on exactly while there is a method. For operations one after the other it is
  (`Mfa.EnabledExactlyWithMethod`). Overlapping, it can end off with a verified method or on without
  one (four runs in `MfaOverlap`). For any number of operations of a user it ends wrong exactly by
  a last write at the wrong moment (`MfaOverlap.FlagWrongExactly`), and for two the wrong orders of
  statements are listed (`MfaPair.PairWrongExactly`).
- The open callback of the iOS service does not ask whether its socket is the current one. It can
  report a connection whose current socket has not opened, or without any socket
  (`ReconnectStale.StaleOpenMarksConnected`, `StaleOpenWithoutSocket`). Exactly which runs do is
  `ConnectedMeansOpenExactly`; delays and re-resolutions, exact when counted from the last open of
  any socket, are right for the current one under the conditions of `DelayRightExactly` and
  `GuardRightExactly`.

## Model

| member | source | states |
|---|---|---|
| `Uuids.ParsePrint` | services/api/internal/ws/hub.go:626-636 | reading back a printed identifier gives the same identifier, for every UUID |
| `Uuids.PrintedText` | services/api/internal/service/location_service.go:143-160 | the printed text: lower-case digits in their order, dashes after 8, 12, 16 and 20 of them |
| `Channels.RouteName` | services/api/internal/ws/hub.go:148-331 | every name the services publish on takes the switch branch meant for its kind and yields its identifier, although the branches test only prefixes and suffixes and are tried in order |
| `Channels.NamesSpelled` | services/api/internal/service/location_service.go:143-160 | the seven channel names, letter by letter |
| `Channels.ExtractName` | services/api/internal/ws/hub.go:626-636 | extractID returns the UUID that was printed into the name |
| `Channels.NamesDistinct` | services/api/internal/service/location_service.go:143-160 | two publications share a channel name only if they share kind and identifier |
| `Channels.ReceivedOnce` | services/api/internal/ws/hub.go:55-103 | a published name matches exactly one of the hub's seven subscription patterns, so no message arrives twice |
| `Policy.MatchesAnyIff` | services/api/internal/model/permission_policy.go:153-177 | the early-exit scan over roles answers whether some listed role is held; order, repetition and unknown names do not matter |
| `Policy.Validate` | services/api/internal/model/permission_policy.go:184-217 | accepts a policy if and only if it has exactly the known actions with roles allowed in their matrix |
| `Policy.ValidateRows` | services/api/internal/model/permission_policy.go:184-217 | one validation loop: succeeds iff all rows are known, and an error names an offending entry |
| `Policy.FindMissing` | services/api/internal/model/permission_policy.go:184-217 | reports a required action that has no row, iff there is one |
| `Policy.MoreFlagsMorePermissions` | services/api/internal/model/permission_policy.go:117-126 | under every policy a member who gains flags loses no communication permission |
| `Policy.ValidatedPolicyDenies` | services/api/internal/model/permission_policy.go:117-150 | a validated policy denies every communication action to a member without flags and grants management only through the member role |
| `Policy.CommunicationMeans` | services/api/internal/model/permission_policy.go:117-177 | a communication action is allowed iff the caller is a member and its row names a role the caller holds, each role by its flag |
| `Policy.ManagementMeans` | services/api/internal/model/permission_policy.go:131-150 | a management action is allowed iff its row names any member, or group admins and the member is one |
| `Policy.WellFormedMeans` | services/api/internal/model/permission_policy.go:184-217 | validation passes iff the rows are exactly the eleven actions with roles of their matrix, by name |
| `Policy.DefaultPolicyMeans` | services/api/internal/model/permission_policy.go:92-112 | the default policy passes validation; under it writers send and share drawings, readers too read and share and see positions, group admins alone manage |
| `Delivery.NamePlan` | services/api/internal/ws/hub.go:148-332 | routeMessage treats a message published under a printed name by the case of its kind with the identifier that was printed |
| `Delivery.NoticePlan` | services/api/internal/ws/hub.go:223-232 | a membership notice is understood as a refresh of the user it names |
| `Delivery.GroupPostDelivery` | services/api/internal/ws/hub.go:233-332 | a message or drawing for a group is offered once to every connection of a member who may read, except the author's |
| `Delivery.UserPostDelivery` | services/api/internal/ws/hub.go:267-332 | one for a user is offered once to each of the user's connections and to nobody else |
| `Delivery.DeliverToGroup` | services/api/internal/ws/hub.go:194-205 | one group publication at one connection: a frame iff the connection is another device and a member who may view |
| `Delivery.DeliverEntitled` | services/api/internal/ws/hub.go:194-216 | all publications of one update together offer a connection exactly the frames it is entitled to, in order |
| `Delivery.EntitledCount` | services/api/internal/ws/hub.go:370-468 | how many those are: the groups through which the receiver may see the sender, plus one for the same user |
| `Delivery.LocationFanOut` | services/api/internal/ws/hub.go:370-468 | main fan-out result: for any order of the sender's groups, a connection with room gains exactly one frame per group in which the sender has share_location and it has view_locations, plus one for the same user, and none if it has the sending device id |
| `Delivery.SharedGroupsAre` | services/api/internal/ws/hub.go:557-577 | an update goes to the cached groups in which the policy allows share_location; without a policy to none |
| `Delivery.ReadersShareByDefault` | services/api/internal/model/permission_policy.go:92-112 | under the default policy a member shares iff server admin, group admin, writer or reader |
| `Delivery.WrongPayloadReachesNobody` | services/api/internal/ws/hub.go:148-332 | a payload that is not of its channel's kind reaches nobody |
| `Delivery.OfferAllBounded` | services/api/internal/ws/client.go:28-30 | offers never fill a buffer beyond 256 |
| `Registry.AddSound` | services/api/internal/ws/hub.go:106-118 | adding keeps one non-empty set per user, nobody under two users, and adds exactly one connection |
| `Registry.RemoveSound` | services/api/internal/ws/hub.go:121-137 | removing keeps the same and removes exactly one connection; the last one takes the user key with it |
| `Registry.RemoveUndoesAdd` | services/api/internal/ws/hub.go:106-137 | registering and unregistering restores the map |
| `Throttle.PassesIffQuiet` | services/api/internal/service/location_service.go:80-92 | over any run of updates one passes iff every earlier passing update of that device is at least the interval ago |
| `Hub.Client.TrySend` | services/api/internal/ws/client.go:210-234 | the non-blocking send: appended iff the buffer has room; the channel must be open |
| `Hub.Client.SetGroupMemberships` | services/api/internal/ws/client.go:91-97 | replaces the cached memberships and returns the previous ones |
| `Hub.LocationService.PublishUpdate` | services/api/internal/service/location_service.go:136-169 | one publication per group with that group's id, then one on the user's own channel with the nil id |
| `Hub.LocationService.Update` | services/api/internal/service/location_service.go:62-172 | throttle, persist, remember as the last location, publish: a throttled call changes nothing, a failed insert still counts for the throttle, a failed update of the last location stops nothing |
| `Hub.Hub.AddClient` | services/api/internal/ws/hub.go:106-118 | the connection joins the map under its user |
| `Hub.Hub.RemoveClient` | services/api/internal/ws/hub.go:121-137 | the connection leaves the map and its channel is closed iff it was in the map |
| `Hub.Hub.TotalClients` | services/api/internal/ws/hub.go:617-623 | the sum over users is the number of distinct connections |
| `Hub.Hub.OfferEach` | services/api/internal/ws/hub.go:346-362 | the inner loop of every fan-out: each wanted client is offered the frame once, and the count is of those that took it |
| `Hub.Hub.OfferByUser` | services/api/internal/ws/hub.go:338-363 | the nested loops reach every connection exactly once, skipping the excluded user |
| `Hub.Hub.BroadcastToGroup` | services/api/internal/ws/hub.go:338-363 | each connection ends as Deliver says for everybody but the sender; the count is of those that took the frame |
| `Hub.Hub.BroadcastToGroupExcludeDevice` | services/api/internal/ws/hub.go:370-430 | the same for everybody but the sending device |
| `Hub.Hub.SendToUser` | services/api/internal/ws/hub.go:433-442 | the same for all connections of one user |
| `Hub.Hub.SendLocationToUser` | services/api/internal/ws/hub.go:447-468 | the same for one user's connections other than the sending device |
| `Hub.Hub.BuildSnapshotLocations` | services/api/internal/ws/hub.go:642-673 | the records of all other devices, in order |
| `Hub.Hub.RefreshClient` | services/api/internal/ws/hub.go:497-529 | one client's refresh: new map, a snapshot per newly joined viewable group in some order, then the acknowledgement |
| `Hub.Hub.RefreshClientMemberships` | services/api/internal/ws/hub.go:474-530 | all and only the user's connections are refreshed from the rows read once, and then cache exactly those rows; if they could not be read every cache stays, and a group whose snapshot cannot be read is skipped |
| `Hub.MapHoldsLastRows` | services/api/internal/ws/hub.go:488-491 | the cached map holds, per group, the last of the rows read, unchanged |
| `Hub.OthersPicked` | services/api/internal/ws/hub.go:642-673 | a snapshot keeps all records but the device's, each once and in order |
| `Hub.RefreshedShows` | services/api/internal/ws/hub.go:497-529 | a refresh of a connection with room adds one snapshot for exactly the groups newly joined that it may view and that hold another device's position, and last the acknowledgement |
| `Hub.Hub.RouteMessage` | services/api/internal/ws/hub.go:141-332 | a message changes every connection exactly as its plan says |
| `Hub.Hub.HandleLocationUpdate` | services/api/internal/ws/hub.go:533-614 | a foreign device id is refused, otherwise the update goes to exactly the cached groups for which the policy gives the sender share_location, each once, and to none without a policy |
| `HubRounds.RoundDelivers` | services/api/internal/ws/hub.go:141-332 | in the interleaving system a round with nothing in between does to every registered connection what RouteMessage's contract says, whatever the loop order |
| `HubRounds.RefreshCachesTable` | services/api/internal/ws/hub.go:474-530 | after a refresh from the query's answer the cache is the user's rows of group_members, permission by permission |
| `HubRounds.RefreshOneRefines` | services/api/internal/ws/hub.go:497-529 | a refresh step of the interleaving system is the hub object's refresh of that connection, so that the coherence results speak of the caches the hub writes |
| `HubLifecycle.StepKeepsLifecycle` | services/api/internal/ws/hub.go:55-137 | every step of the hub loop and of the connections' goroutines keeps map, channels and counts exact |
| `HubLifecycle.LifecycleSafety` | services/api/internal/ws/hub.go:106-137 | over every run up to shutdown: nothing is sent on or closed twice, a channel is closed iff its client has left the map, no user maps to an empty set, connections equal registrations minus removals |
| `HubLifecycle.ClosedChannelIsQuiet` | services/api/internal/ws/client.go:121-125 | no step offers anything to a closed channel |
| `HubLifecycle.StepKeepsAccounts` | services/api/internal/ws/client.go:160-234 | every step accounts for each frame that found room |
| `HubLifecycle.BackpressureSafety` | services/api/internal/ws/client.go:160-191 | at most 256 buffered; what is written is an in-order subsequence of what was offered; an offered frame not written found the buffer full, or was taken by the one failed write, or is still buffered |
| `HubCoherence.StepKeepsCoherence` | services/api/internal/ws/hub.go:474-530 | every step keeps: each cache is a past or present state of its user's rows and a stale one has a cause |
| `HubCoherence.CachesAgree` | services/api/internal/ws/hub.go:474-530 | main coherence result: once nothing is pending for a user, a registered connection has loaded the latest version of the rows iff no change slipped in between its loading and registering; and its cache equals the current rows iff that, or the version it loaded happens to have the same rows |
| `HubCoherence.DistinctStatesCachesAgree` | services/api/internal/ws/hub.go:474-530 | if the rows of a user never return to an earlier state, the cache equals the current rows iff no change slipped in |
| `HubCoherence.StaleCacheHasCause` | services/api/internal/ws/hub.go:474-530 | at every moment a stale cache means an unpublished or queued notice, a running refresh, or that miss |
| `HubCoherence.RefreshHeals` | services/api/internal/ws/hub.go:474-530 | when a refresh ends, none of that user's connections is stale against the rows it read |
| `HubCoherence.DrainedCachesAgree` | services/api/internal/ws/handler.go:106-139 | if nobody is caught between loading and registering, all caches equal the database once everything is drained |
| `HubCoherence.RaceLeavesStaleCache` | services/api/internal/ws/handler.go:106-139 | the concrete run in which a change slips in between and the drained system keeps a stale cache |
| `Groups.GroupService.AddMember` | services/api/internal/service/group_service.go:209-275 | refusals in the source's order; otherwise the row with its defaults and one notice |
| `Groups.GroupService.UpdateMember` | services/api/internal/service/group_service.go:297-350 | refusals in the source's order; otherwise the given fields change, the others stay, one notice |
| `Groups.GroupService.RemoveMember` | services/api/internal/service/group_service.go:354-385 | refusals in the source's order; otherwise the row goes, one notice |
| `Groups.GroupService.RequireManagement` | services/api/internal/service/group_service.go:215-226 | server admins pass; others need a row and the action |
| `Groups.AcceptedExactly` | services/api/internal/service/group_service.go:209-385 | which calls are accepted: the caller is in charge by the matrix, the rows exist or not as they must, and below a server admin nobody touches the admin role or another group admin |
| `Groups.RefusedExactly` | services/api/internal/service/group_service.go:209-385 | which are refused as not found and which as a conflict; the others are forbidden |
| `Groups.RowsAfter` | services/api/internal/service/group_service.go:233-340 | an accepted call changes one row, and of it only what was asked for, with the defaults of a new row |
| `Groups.ChangeMeansOneNotice` | services/api/internal/service/group_service.go:258-262 | a call that changes rows changes one user's rows and publishes exactly one notice, which the hub reads as that user's refresh; a refused call changes nothing |
| `Groups.OrdinaryCallKeepsAdmins` | services/api/internal/service/group_service.go:297-385 | one call by a caller who is not a server admin leaves the set of group administrators as it is |
| `Groups.OrdinaryRunKeepsAdmins` | services/api/internal/service/group_service.go:209-385 | so does any run of such calls, whatever the policy allows them |
| `Groups.RemoveUndoesAdd` | services/api/internal/service/group_service.go:209-385 | adding a newcomer and removing them restores the table |
| `Auth.Accounts.Login` | services/api/internal/service/auth_service.go:42-70 | tokens iff the user exists, is active, the password is the stored one and there is no MFA; a challenge iff the same with MFA; otherwise the tokens stay |
| `Auth.Accounts.CompleteLogin` | services/api/internal/service/auth_service.go:74-104 | tokens iff the user exists and is active |
| `Auth.Accounts.Refresh` | services/api/internal/service/auth_service.go:108-136 | look up, delete, check the user, issue: the new state in each of the four outcomes |
| `Auth.Accounts.Logout` | services/api/internal/service/auth_service.go:139-142 | the row of that token goes and no other |
| `Auth.Accounts.GenerateTokens` | services/api/internal/service/auth_service.go:180-203 | one new row for the user, expiring after the lifetime |
| `Auth.Accounts.PurgeExpired` | services/api/internal/repository/token_repo.go:75-82 | all and only the expired rows go |
| `Auth.Accounts.CountAdmins` | services/api/internal/repository/user_repo.go:191-196 | counts the active administrators |
| `Auth.Accounts.Update` | services/api/internal/service/user_service.go:74-131 | refusals in the source's order with taken e-mail, short password and failing hash; the field changes, the two revocations, and the failing demotion that has already revoked |
| `Auth.AcceptedUpdate` | services/api/internal/service/user_service.go:74-131 | field by field what an accepted update changes, and that a new password or a deactivation ends exactly the user's tokens |
| `Auth.Accounts.Create` | services/api/internal/service/user_service.go:28-62 | a new active user, unless name or e-mail is taken or hashing fails |
| `Auth.Accounts.SetMFAEnabled` | services/api/internal/repository/user_repo.go:199-210 | the flag of that user and nothing else; not found without the user |
| `Auth.Accounts.ChangePassword` | services/api/internal/service/user_service.go:173-199 | new password and revocation iff the current one is right and hashing succeeds |
| `Auth.Accounts.Delete` | services/api/internal/service/user_service.go:260-285 | the user and their tokens go unless the guard on administrators refuses |
| `AuthRuns.DoKeeps` | services/api/internal/service/auth_service.go:108-136 | every operation keeps: rows belong to active users, rows stand by the history, standing unexpired tokens are in the table |
| `AuthRuns.DoKeepsLedger` | services/api/internal/service/auth_service.go:108-136 | the agreement of table and history is kept whoever is active |
| `AuthRuns.AcceptedExactlyWhenStanding` | services/api/internal/service/auth_service.go:108-136 | main result: after any run a token is accepted if and only if it was issued, has not expired, and was not since exchanged, logged out, or revoked by a password change, deactivation or removal; and then the refresh succeeds |
| `AuthRuns.LookupFindsIssuedRow` | services/api/internal/repository/token_repo.go:39-58 | after any run the lookup finds a row iff it is the one the token was issued with, unexpired and not ended since |
| `AuthRuns.NewTokenLifetime` | services/api/internal/service/auth_service.go:180-203 | after any run the token handed out by a login or refresh is accepted for exactly its lifetime, iff that was granted |
| `AuthRuns.WrongPasswordChangesNothing` | services/api/internal/service/auth_service.go:56-58 | a login with anything but the user's password leaves users, tokens and history as they are |
| `AuthRuns.OnlyNewPasswordLogsIn` | services/api/internal/service/user_service.go:173-199 | after a password change, whatever follows short of another one, every other password, the old one included, logs in never again |
| `AuthRuns.RedeemedOnce` | services/api/internal/service/auth_service.go:108-136 | in any sequential run a token is redeemed at most once, and only after being issued |
| `AuthRuns.EndIsFinal` | services/api/internal/service/user_service.go:91-124 | a token ended by a password change or any other entry is never redeemed afterwards |
| `AuthRuns.InactiveOwnsNoToken` | services/api/internal/service/user_service.go:118-124 | an inactive or removed user owns no refresh-token row |
| `AuthRuns.LastAdminLostExactlyBy` | services/api/internal/service/user_service.go:103-124 | of operations one after the other, one loses the last active administrator exactly if it is an accepted update that deactivates that user |
| `AuthRuns.DeactivationLosesLastAdmin` | services/api/internal/service/user_service.go:118-124 | the concrete update that does, on one administrator |
| `AuthRuns.RunKeepsEmails` | services/api/internal/service/user_service.go:28-131 | in any run no two users come to share an e-mail address |
| `AdminOverlap.LosesExactly` | services/api/internal/service/user_service.go:103-128 | for overlapping updates and deletions: a step loses the last active administrator iff it writes over that very user a row that is no active administrator's, or deletes it; and only if the request deactivates, the row has changed since it was read, or the count has changed since it was taken |
| `AdminOverlap.FreshWritesKeepAnAdmin` | services/api/internal/service/user_service.go:260-285 | however many overlap, if no write deactivates or relies on a row or count that has changed since, an active administrator remains |
| `AdminOverlap.TwoDemotionsLoseBoth` | services/api/internal/repository/user_repo.go:191-196 | the concrete run of two demotions that each count two administrators |
| `AdminOverlap.AloneIsUpdate` | services/api/internal/service/user_service.go:74-131 | executed with nothing in between, the statements of an update have the effect of the service's operation |
| `AdminOverlap.AloneIsPasswordChange` | services/api/internal/service/user_service.go:173-199 | so have those of a password change, which writes role and activity back |
| `AdminOverlap.AloneIsDelete` | services/api/internal/service/user_service.go:260-285 | and those of a deletion |
| `RefreshExchange.DeniedExactlyAfterDelete` | services/api/internal/repository/token_repo.go:39-65 | among exchanges only: for any interleaving of their statements, one of a live token is denied iff its SELECT follows the DELETE of an exchange of that token |
| `RefreshExchange.BothGrantedOverlap` | services/api/internal/service/auth_service.go:108-136 | two exchanges of one token both succeed only if neither deletes before the other selects; so at most one does in sequence |
| `RefreshExchange.DoubleRedemption` | services/api/internal/repository/token_repo.go:61-65 | the concrete interleaving in which both do, because the delete ignores the number of rows |
| `RefreshOverlap.StepKeeps` | services/api/internal/service/auth_service.go:108-136 | every statement of a refresh, every other operation and the passing of time keep the token table in agreement with the history |
| `RefreshOverlap.DeniedExactlyByHistory` | services/api/internal/service/auth_service.go:108-136 | main result: however refreshes interleave with each other and with everything else, one is denied iff at its SELECT the token had expired, was never issued, or had since been deleted by another refresh, logged out, or revoked |
| `RefreshOverlap.RevocationEscapedExactly` | services/api/internal/service/user_service.go:173-199 | after a password change, deactivation or removal the user owns no row, and without a new login comes to own one iff a refresh that had selected its row before inserts afterwards while the user exists |
| `RefreshOverlap.RefreshOutlivesPasswordChange` | services/api/internal/service/user_service.go:173-199 | the run in which a refresh checked before a password change leaves a live row after it |
| `RefreshOverlap.AloneIsRefresh` | services/api/internal/service/auth_service.go:108-136 | left alone the four statements have the effect and the outcome of the refresh operation, on any table |
| `TokenClient.ApiClient.OnResponse` | clients/web/src/lib/api.ts:42-71 | a 401 joins the pending refresh, or starts one with the stored token, or without a token fails at once; anything else finishes the request |
| `TokenClient.ApiClient.OnRefreshReply` | clients/web/src/lib/api.ts:81-92 | success stores the new token, any failure clears it; the promise settles accordingly |
| `TokenClient.ApiClient.Resume` | clients/web/src/lib/api.ts:43-98 | after a promise settled well the waiting request is sent once more without a further retry, after a failure it ends; the owner clears the field |
| `TokenClient.StepKeeps` | clients/web/src/lib/api.ts:15-98 | every step of client, server and bystanders keeps the protocol invariant |
| `TokenClient.RotationIsSafe` | clients/web/src/lib/api.ts:65-98 | main result: for any timing of any number of requests, one outstanding exchange, at most two sends per request, no failed refresh, and the stored token is live or its exchange delivers a live one |
| `TokenClient.NeverLoggedOut` | clients/web/src/lib/api.ts:65-98 | a logged-in client's stored token is never cleared by its own concurrency |
| `TokenClient.NobodyStuck` | clients/web/src/lib/api.ts:65-98 | every unfinished request can move, or the exchange it waits for can |
| `TokenClient.RetriedExactly` | clients/web/src/lib/api.ts:42-71 | main result on retries: in every run a request waits for at most one refresh, is sent twice exactly if that succeeded, and if it ended after one send got no 401 or its refresh failed |
| `Mfa.MFAService.VerifyTOTPSetup` | services/api/internal/service/mfa_service.go:111-138 | succeeds iff the code is right and the method is the user's own and unverified, and then verifies it, turns MFA on and shows codes iff MFA was off; a wrong code changes nothing |
| `Mfa.MFAService.FinishWebAuthnRegistration` | services/api/internal/service/mfa_service.go:255-309 | a valid ceremony adds the credential, and shows codes iff MFA was off |
| `Mfa.MFAService.SetupTOTP` | services/api/internal/service/mfa_service.go:71-107 | adds an unverified method |
| `Mfa.MFAService.DeleteMethod` | services/api/internal/service/mfa_service.go:555-575 | removes an own TOTP method, else an own credential, else reports not found; the last method takes flag and codes with it |
| `Mfa.MFAService.AdminResetMFA` | services/api/internal/service/mfa_service.go:578-589 | methods, codes and flag of the user all go |
| `Mfa.MFAService.GenerateRecoveryCodes` | services/api/internal/service/mfa_service.go:460-485 | eight codes shown, and exactly their normalised hashes stored in place of the old ones |
| `Mfa.MFAService.CreateRecoveryCodes` | services/api/internal/repository/mfa_repo.go:297-318 | the user's rows replaced by the batch, others untouched |
| `Mfa.MFAService.ValidateRecoveryCode` | services/api/internal/service/mfa_service.go:489-507 | accepted iff some unused code of the user matches; exactly one matching code is spent |
| `Mfa.MFAService.CreateMFAToken` | services/api/internal/service/mfa_service.go:596-624 | names each kind of method iff the user has one |
| `Mfa.MFAService.CountVerifiedMethods` | services/api/internal/repository/mfa_repo.go:379-389 | counts verified TOTP methods and credentials |
| `Mfa.MFAService.EnableAndGenerate` | services/api/internal/service/mfa_service.go:717-732 | turns MFA on and brings codes only if it was off |
| `Mfa.MFAService.MaybeDisable` | services/api/internal/service/mfa_service.go:735-748 | turns MFA off and drops the codes iff no method is left |
| `Mfa.RegeneratedIs` | services/api/internal/repository/mfa_repo.go:297-318 | a new batch is eight unused rows, none of them old, and nobody else's rows change |
| `Mfa.DoKeeps` | services/api/internal/service/mfa_service.go:555-589 | every completed operation keeps flag, methods and codes consistent |
| `Mfa.EnabledExactlyWithMethod` | services/api/internal/service/mfa_service.go:717-748 | main result: after any sequence of completed operations mfa_enabled holds iff there is a verified TOTP method or a credential, so a challenge always offers one; and a user has no codes or eight |
| `Mfa.OldCodesDie` | services/api/internal/repository/mfa_repo.go:297-318 | codes replaced by a regeneration are no longer recognised |
| `Mfa.NewCodesWork` | services/api/internal/service/mfa_service.go:460-507 | a new code is recognised iff what is typed normalises to what was shown |
| `Mfa.VerifiedWithRightCode` | services/api/internal/service/mfa_service.go:111-138 | in every run a verified TOTP method was verified by its owner with a right code |
| `MfaAlone.AloneIsDelete` | services/api/internal/service/mfa_service.go:555-575 | executed with nothing in between, the statements of a deletion have the effect of the service's operation |
| `MfaAlone.AloneIsVerify` | services/api/internal/service/mfa_service.go:111-138 | so have those of a verification |
| `MfaAlone.AloneIsRegister` | services/api/internal/service/mfa_service.go:255-309 | those of a registration |
| `MfaAlone.AloneIsReset` | services/api/internal/service/mfa_service.go:578-589 | and those of an admin's reset |
| `MfaOverlap.FlagWrongExactly` | services/api/internal/service/mfa_service.go:717-748 | main result: for any number of overlapping deletions, verifications, registrations, resets and edits of one user, in the end mfa_enabled is wrong iff its last write set it to off while there was a method, or to on while there was none and none has been written since |
| `MfaOverlap.WrongClearingOvertaken` | services/api/internal/service/mfa_service.go:735-748 | a clearing with a method present was overtaken: a method was written after that operation counted none |
| `MfaOverlap.ChangingPutBackOvertaken` | services/api/internal/repository/user_repo.go:154-175 | an edit of the user changes the flag only if the flag was written after the edit read the row |
| `MfaOverlap.DeleteRacesVerify` | services/api/internal/service/mfa_service.go:555-575 | the run of a deletion of the only method and a verification that leaves a verified method with MFA off |
| `MfaOverlap.UnverifiedDeleteRacesVerify` | services/api/internal/service/mfa_service.go:555-575 | the same with a deletion of an unverified method and the first verification; the codes just shown are dropped |
| `MfaOverlap.DeleteOfVerifiedLeavesFlag` | services/api/internal/service/mfa_service.go:111-138 | the run that leaves MFA on, with codes, without a method |
| `MfaOverlap.EditLosesFlag` | services/api/internal/repository/user_repo.go:154-175 | the run in which an edit of the user puts the flag back to off |
| `MfaPair.PairWrongExactly` | services/api/internal/service/mfa_service.go:555-575 | main result for two: in every interleaving of a deletion and a verification or registration the flag ends up wrong iff the deletion counts before the other's row is written and clears after the other's last access to the flag, or both are about one method and the clearing comes before the switching on |
| `RecoveryCodes.TypedCodeRecognised` | services/api/internal/service/mfa_service.go:471-492 | a displayed code is recognised in any letter case, with blanks around it and its dash kept, moved or left out |
| `RecoveryCodes.OnlyThatCodeRecognised` | services/api/internal/service/mfa_service.go:471-492 | a code typed in normal form is taken for a displayed one iff it is that one |
| `RecoveryCodes.EachCodeOnce` | services/api/internal/repository/mfa_repo.go:346-356 | main result: however validations, regenerations and resets interleave, a code succeeds at most once, a row is marked used iff a validation succeeded with it, and successes equal marking updates that hit |
| `RecoveryCodes.AtMostEightPerBatch` | services/api/internal/service/mfa_service.go:460-507 | one batch allows at most eight successes |
| `RecoveryCodes.StepKeeps` | services/api/internal/repository/mfa_repo.go:346-356 | every step keeps used rows, marked codes and successes in step |
| `SyncQueue.SyncManager.SyncPendingActions` | clients/ios/Vincenty/Core/Storage/SyncManager.swift:83-146 | an undisturbed drain leaves exactly what Drain says, with the count and the guard reset; a running drain makes it do nothing |
| `SyncQueue.SyncManager.Process` | clients/ios/Vincenty/Core/Storage/SyncManager.swift:105-130 | the loop: done actions go, the first failure gets a retry or is dropped and stops the loop |
| `SyncQueue.SyncManager.Begin` | clients/ios/Vincenty/Core/Storage/SyncManager.swift:83-101 | the guard, and the unsynced actions in creation order |
| `SyncQueue.SyncManager.FetchUnsynced` | clients/ios/Vincenty/Core/Storage/SyncManager.swift:90-101 | the unsynced rows, all of them, in order |
| `SyncQueue.SyncManager.Finish` | clients/ios/Vincenty/Core/Storage/SyncManager.swift:132-144 | synced rows deleted, count exact, guard released |
| `SyncQueue.AttemptOldest` | clients/ios/Vincenty/Core/Storage/SyncManager.swift:105-130 | an attempt at the oldest action changes that action only |
| `SyncQueue.DrainLowersMeasure` | clients/ios/Vincenty/Core/Storage/SyncManager.swift:105-130 | each drain of a non-empty queue lowers the sum of (3 - retries) and leaves a suffix |
| `SyncQueue.DrainStopsAtFirstFailure` | clients/ios/Vincenty/Core/Storage/SyncManager.swift:105-130 | a drain in one formula: everything before the first failing action is gone, and that one too at its third failure, else it stays in front; only three kinds can fail, and not by a conflict |
| `SyncQueue.EmptyAfterThreeDrainsEach` | clients/ios/Vincenty/Core/Storage/SyncManager.swift:83-146 | main result on termination: n actions are gone after 3n drains whatever the server answers |
| `SyncQueue.ThreeDrainsEachNeeded` | clients/ios/Vincenty/Core/Storage/SyncManager.swift:112-129 | the bound is met: if every attempt fails, fewer drains leave something |
| `SyncRuns.DrainedInOrder` | clients/ios/Vincenty/Core/Storage/SyncManager.swift:69-146 | main result: for every interleaving of enqueues and drains at most one drain is active and the finished actions followed by the remaining ones are all that were queued, in order |
| `SyncRuns.AtMostThreeAttempts` | clients/ios/Vincenty/Core/Storage/SyncManager.swift:112-129 | no action is tried more than three times and only the oldest remaining one can have been tried |
| `SyncRuns.AttemptFinishesExactly` | clients/ios/Vincenty/Core/Storage/SyncManager.swift:229-290 | in every run an attempt is at the oldest action and finishes it unless it fails for the first or second time |
| `SyncRuns.PendingCountExact` | clients/ios/Vincenty/Core/Storage/SyncManager.swift:293-304 | the count equals the stored rows always and the unsynced actions whenever no drain runs |
| `Messages.PageSize` | services/api/internal/service/message_service.go:263-265 | the page size asked for if it is between 1 and 100, else 50 |
| `Messages.WalkOrdered` | services/api/internal/repository/message_repo.go:113-188 | a walk from any cursor goes down in time, stays in the conversation and repeats nothing |
| `Messages.WalkReturnsAllExactlyWithCleanCuts` | services/api/internal/repository/message_repo.go:113-188 | main result: for any tie-breaking by the database a walk returns every message of the conversation iff no multiple of the page size falls between messages of equal time |
| `Messages.CleanWalkReturnsConversation` | services/api/internal/repository/message_repo.go:113-188 | with clean cuts a walk returns exactly the group's messages, or those between two users in either direction, older than the cursor if there is one |
| `Messages.SameForBothSides` | services/api/internal/repository/message_repo.go:152-188 | both sides of a direct conversation select the same messages |
| `Messages.DistinctTimesWalkComplete` | services/api/internal/repository/message_repo.go:113-188 | with distinct times every walk returns every message exactly once |
| `Messages.WalkEnds` | services/api/internal/repository/message_repo.go:113-188 | there are no more non-empty pages than messages |
| `Messages.TieLosesMessage` | services/api/internal/repository/message_repo.go:117-130 | the concrete walk that misses a message of equal time |
| `Messages.BatchIsPerMessage` | services/api/internal/repository/message_repo.go:287-312 | the batch query's rows for one message are what its own query returns, in the same order |
| `Messages.AttachmentsAre` | services/api/internal/repository/message_repo.go:287-312 | a message's list: its own rows, each as often as stored, in the order of their times |
| `Messages.FilterByTime` | services/api/internal/repository/message_repo.go:347-352 | the stable sort by time commutes with selecting messages |
| `Messages.Grouped` | services/api/internal/repository/message_repo.go:359-373 | the loop files each message's rows in order |
| `Messages.ScanMessagesWithAttachments` | services/api/internal/repository/message_repo.go:315-380 | each row gets exactly the attachment list of the per-message query |
| `Drawings.DrawingService.Get` | services/api/internal/service/drawing_service.go:94-107 | succeeds iff the drawing exists and the caller is admin, owner or has access |
| `Drawings.DrawingService.CheckDrawingAccess` | services/api/internal/service/drawing_service.go:314-336 | the two loops find a direct share or a group share iff there is access |
| `Drawings.DrawingService.GetShareTargets` | services/api/internal/repository/drawing_repo.go:136-178 | all active targets, each once |
| `Drawings.DrawingService.Share` | services/api/internal/service/drawing_service.go:184-250 | refusals in the source's order; otherwise one drawing message, stored and published to its target |
| `Drawings.DrawingService.Unshare` | services/api/internal/service/drawing_service.go:272-307 | refusals in the source's order; otherwise that message revoked, and a text notice if one could be stored |
| `Drawings.DrawingService.BroadcastDrawingUpdate` | services/api/internal/service/drawing_service.go:340-371 | an update is announced to each active target exactly once |
| `Drawings.GetAgreesWithListShared` | services/api/internal/repository/drawing_repo.go:81-100 | for a caller who is not the owner the access check passes iff the drawing is in the shared list |
| `Drawings.AccessByRow` | services/api/internal/service/drawing_service.go:314-336 | access through collected targets is access through some single share row |
| `Drawings.AccessSpelledOut` | services/api/internal/service/drawing_service.go:314-336 | access iff some drawing message names the drawing, is not revoked, and went to the user or to a group of the user's |
| `Drawings.ShareGrantsExactly` | services/api/internal/service/drawing_service.go:184-250 | a share gives access to its target's users, to that drawing, and nothing else |
| `Drawings.UnshareUndoesShare` | services/api/internal/service/drawing_service.go:272-307 | sharing and revoking that share restores the whole access relation |
| `Drawings.UnshareRemovesExactly` | services/api/internal/repository/drawing_repo.go:217-227 | after a revocation access is what the other active shares give; a message that is no active share changes nothing |
| `Base64Url.Base64UrlToBuffer` | clients/web/src/lib/auth-context.tsx:200-210 | the filled buffer is the decoded text, iff it decodes |
| `Base64Url.BufferToBase64Url` | clients/web/src/lib/auth-context.tsx:212-219 | the text is the unpadded URL form of the bytes |
| `Base64Url.DataFromBase64Url` | clients/ios/Vincenty/Extensions/Data+Base64URL.swift:8-21 | the decoded text, or nil |
| `Base64Url.DecodeUndoesEncode` | clients/ios/Vincenty/Extensions/Data+Base64URL.swift:8-30 | main result: whichever client encodes and whichever decodes, every byte string comes back |
| `Base64Url.EncodersAgree` | clients/ios/Vincenty/Extensions/Data+Base64URL.swift:23-30 | both encoders give the same text, and re-padding restores exactly the standard one |
| `Base64Url.EncodedForm` | clients/web/src/lib/auth-context.tsx:212-219 | URL-safe characters only and ceil(4n/3) of them |
| `Base64Url.EncodedNumbers` | clients/web/src/lib/auth-context.tsx:212-219 | the characters are the entries of the standard's URL-safe table for the base-64 digits of each three bytes taken as one number |
| `Base64Url.DecodersAgree` | clients/web/src/lib/auth-context.tsx:200-210 | the forgiving and the strict decoder agree on every text without white space |
| `Base64Url.AcceptedTexts` | clients/ios/Vincenty/Extensions/Data+Base64URL.swift:8-21 | an unpadded text is accepted iff its characters are of either alphabet and its length is not one more than a multiple of four |
| `Reconnect.WebSocketService.Connect` | clients/ios/Vincenty/Core/WebSocket/WebSocketService.swift:73-81 | idempotent unless unmounted or disconnected; the device is always updated |
| `Reconnect.WebSocketService.Disconnect` | clients/ios/Vincenty/Core/WebSocket/WebSocketService.swift:84-99 | everything is reset and the pending reconnect cancelled |
| `Reconnect.WebSocketService.ConnectInternal` | clients/ios/Vincenty/Core/WebSocket/WebSocketService.swift:144-188 | guards, cancellation of the pending reconnect, and the new current socket |
| `Reconnect.WebSocketService.FirstReceive` | clients/ios/Vincenty/Core/WebSocket/WebSocketService.swift:200-211 | marks connected and resets backoff and the device guard while mounted |
| `Reconnect.WebSocketService.HandleDisconnect` | clients/ios/Vincenty/Core/WebSocket/WebSocketService.swift:319-371 | only the current socket's end counts; a rejected device is re-resolved once, everything else schedules a reconnect |
| `Reconnect.WebSocketService.TimerFires` | clients/ios/Vincenty/Core/WebSocket/WebSocketService.swift:363-370 | connects, unless unmounted or cancelled, with the device in the field, and with the timer's own only if there is none |
| `Reconnect.WebSocketService.Resolved` | clients/ios/Vincenty/Core/WebSocket/WebSocketService.swift:345-352 | an answer becomes the device and is connected with |
| `ReconnectRuns.DelaysDouble` | clients/ios/Vincenty/Core/WebSocket/WebSocketService.swift:358-370 | in every run the k-th reconnect scheduled since the last open or clean disconnect waits min(2^k, 30) seconds |
| `ReconnectRuns.SocketsUseLastDevice` | clients/ios/Vincenty/Core/WebSocket/WebSocketService.swift:363-370 | in every run each new socket is for the device last given by connect() or a resolver, whatever timer starts it |
| `ReconnectRuns.OneResolveBetweenOpens` | clients/ios/Vincenty/Core/WebSocket/WebSocketService.swift:331-356 | between two re-resolutions there is an open or a clean disconnect |
| `ReconnectRuns.NothingAfterDisconnect` | clients/ios/Vincenty/Core/WebSocket/WebSocketService.swift:84-99 | after disconnect no socket is started, opened or scheduled before the next connect |
| `ReconnectRuns.TimersNeverInterfere` | clients/ios/Vincenty/Core/WebSocket/WebSocketService.swift:150-153 | at most one timer can act, and none while there is a current socket |
| `ReconnectRuns.SupersededEndIgnored` | clients/ios/Vincenty/Core/WebSocket/WebSocketService.swift:319-323 | the end of a superseded socket changes nothing |
| `ReconnectStale.ConnectedMeansOpenExactly` | clients/ios/Vincenty/Core/WebSocket/WebSocketService.swift:200-211 | main result: over every run Connected always means an open current socket iff no first message of another socket arrives while mounted and the current one is absent or unopened; and it is wrong at the end iff such a message came and nothing since has repaired it |
| `ReconnectStale.HonestStep` | clients/ios/Vincenty/Core/WebSocket/WebSocketService.swift:200-211 | a callback makes a right report wrong iff it is such a message, and leaves a wrong one wrong iff it does not repair it; connect() never does |
| `ReconnectStale.DelayRightExactly` | clients/ios/Vincenty/Core/WebSocket/WebSocketService.swift:358-370 | a delay is the one counted from the current socket's last open iff no stale open has cut the count short, or five or more were counted anyway |
| `ReconnectStale.GuardRightExactly` | clients/ios/Vincenty/Core/WebSocket/WebSocketService.swift:331-356 | the guard on re-resolving stands iff the device was re-resolved since the current socket's last open, unless a stale open has lifted it |
| `ReconnectStale.StaleOpenMarksConnected` | clients/ios/Vincenty/Core/WebSocket/WebSocketService.swift:200-211 | the run in which a superseded socket's first message marks the service connected before its current socket has opened |
| `ReconnectStale.StaleOpenWithoutSocket` | clients/ios/Vincenty/Core/WebSocket/WebSocketService.swift:73-81 | the run that ends connected without any socket, after which connect() only stores the device |
| `ReconnectRuns.StepKeepsLog` | clients/ios/Vincenty/Core/WebSocket/WebSocketService.swift:319-371 | every callback keeps backoff, device guard and mounted flag in step with the history |

## Left out

- Shutdown (`hub.go:75-87`): runs end before it; it closes channels without removing clients.
- Deleting a whole group (`group_service.go:198-200`) or a user (`user_service.go:260-285`): the rows in group_members go with it and no membership notice is published, so its effect on cached memberships is not part of the coherence runs.
- Groups.GroupService: listing, creating and updating groups themselves; they touch no membership.
- Payloads of the wrong kind on a channel: the model decodes a payload only as the kind its channel carries.
- Uuids.ParsePrint: reading covers the canonical 36-character form only; the other spellings that Go's parser accepts are not modelled.
- HubProtocol: the frames of a refresh are arbitrary there; their contents are in `Hub.Hub.RefreshClient`. Database reads succeed there, so HubCoherence says nothing of a refresh that fails.
- Two overlapping location updates of one device: the throttle's load and store are taken as one step.
- Auth.Accounts.Login: user names and e-mail addresses are replaced by the outcome of their lookup.
- Auth.Accounts.Update: avatar and map marker are not kept; database calls succeed, and whether hashing does is an argument.
- Auth.Accounts.Create: whether the user name is taken is an argument.
- AuthRuns.RunKeepsEmails: for operations one after the other; overlapping ones are stopped by the table's unique index.
- RefreshOverlap.RevocationEscapedExactly: every operation other than a refresh is one step there, and a later login of the user is excluded, since it creates a row rightly.
- RefreshExchange.DeniedExactlyAfterDelete: without expiry, users and the operations that revoke; those are in `RefreshOverlap`.
- AdminOverlap: rows are reduced to role and activity, and refusals for other reasons than the guard, which write nothing, are left out.
- MfaOverlap: deleting the old codes and storing eight is one step, and which codes are left after an overlap is not characterised beyond the given runs.
- Access tokens: they are signed and checked by a library, and only the refresh token is state.
- TokenClient.RotationIsSafe: excludes what it must: expiry, logout, deactivation, password change and lost replies; other browser tabs that share the storage are other clients.
- MFA challenge tokens and WebAuthn ceremonies in Redis: their validity is an argument.
- Mfa.MFAService.ListUnusedRecoveryCodes: in some order rather than by creation time; which of two equal codes is spent is left open.
- RecoveryCodes.TypedCodeRecognised: lower-casing and trimming are ASCII only.
- SyncQueue: building and sending the requests; an answer is accepted, conflict or failure.
- Stopping the iOS app in the middle of a drain: saves are assumed to succeed.
- Messages: message contents, full text, deletion and attachments' files.
- Messages.BatchIsPerMessage: attachment rows of equal time keep table order in both queries.
- Drawings: creating, editing and deleting drawings.
- Base64Url.DecodersAgree: texts with white space, on which only the browser's decoder is forgiving.
- Reconnect: ping loop, Live Activity, sending, and subscriber callbacks.
- HTTP handlers, middleware, configuration, audit log, map and terrain settings, GPX and CoT, the CLI, user interfaces: plumbing or library work with no property harder than those above.
